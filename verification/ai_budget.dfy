// Monthly AI spending of one workspace: app/modules/ai/service.py.
// A generation is metered by adding its cost to the usage row of the month in
// which the answer is recorded; the budget is checked before the provider call.
module AiBudget {
  import opened Wrappers
  import opened Calendar

  datatype Metric = AiCostCents | AiGenerations

  datatype UsageRow = UsageRow(metric: Metric, periodStart: int, periodEnd: int, quantity: int)

  // One row of ai_generations, with the instant at which it was metered.
  datatype Generation = Generation(at: nat, cost: int, parsed: bool)

  // `open` counts the calls that passed the budget check and are not recorded.
  datatype Ledger = Ledger(now: nat, rows: seq<UsageRow>, log: seq<Generation>, open: nat)

  // ------------------------------------------------------------- operations

  function Sum(rows: seq<UsageRow>, metric: Metric, start: int, end: int): int {
    if rows == [] then 0
    else Sum(rows[..|rows| - 1], metric, start, end) + Share(rows[|rows| - 1], metric, start, end)
  }

  function Share(r: UsageRow, metric: Metric, start: int, end: int): int {
    if r.metric == metric && start <= r.periodStart < end then r.quantity else 0
  }

  function SpentThisMonth(rows: seq<UsageRow>, now: nat): int {
    Sum(rows, AiCostCents, MonthBounds(now).0, MonthBounds(now).1)
  }

  // The first row of a metric and period, or |rows|.
  function RowIndex(rows: seq<UsageRow>, metric: Metric, start: int): (i: nat)
    ensures i <= |rows|
    ensures i < |rows| ==> rows[i].metric == metric && rows[i].periodStart == start
    ensures forall j :: 0 <= j < i ==> rows[j].metric != metric || rows[j].periodStart != start
  {
    if rows == [] then 0
    else if rows[0].metric == metric && rows[0].periodStart == start then 0
    else 1 + RowIndex(rows[1..], metric, start)
  }

  function Meter(rows: seq<UsageRow>, metric: Metric, start: int, end: int, quantity: int): seq<UsageRow> {
    var i := RowIndex(rows, metric, start);
    if i < |rows| then rows[i := rows[i].(quantity := rows[i].quantity + quantity)]
    else rows + [UsageRow(metric, start, end, quantity)]
  }

  function RecordUsage(rows: seq<UsageRow>, now: nat, cost: int): seq<UsageRow> {
    var (start, end) := MonthBounds(now);
    Meter(Meter(rows, AiCostCents, start, end, cost), AiGenerations, start, end, 1)
  }

  predicate WithinBudget(rows: seq<UsageRow>, now: nat, budget: int) {
    budget <= 0 || SpentThisMonth(rows, now) < budget
  }

  // The events of a run. `Answer` is the provider's reply being recorded,
  // parsed or not; `ProviderFails` is a call that raised and recorded nothing.
  datatype Step = Tick(elapsed: nat) | Begin | Answer(cost: int, parsed: bool) | ProviderFails

  predicate Enabled(l: Ledger, step: Step) {
    step.Answer? || step.ProviderFails? ==> l.open > 0
  }

  function Apply(l: Ledger, budget: int, step: Step): Ledger
    requires Enabled(l, step)
  {
    match step
    case Tick(d) => l.(now := l.now + d)
    case Begin => if WithinBudget(l.rows, l.now, budget) then l.(open := l.open + 1) else l
    case Answer(cost, parsed) =>
      l.(rows := RecordUsage(l.rows, l.now, cost), log := l.log + [Generation(l.now, cost, parsed)], open := l.open - 1)
    case ProviderFails => l.(open := l.open - 1)
  }

  ghost predicate ValidRun(start: nat, budget: int, steps: seq<Step>)
    decreases |steps|, 0
  {
    steps != [] ==>
      && ValidRun(start, budget, steps[..|steps| - 1])
      && Enabled(After(start, budget, steps[..|steps| - 1]), steps[|steps| - 1])
  }

  ghost function After(start: nat, budget: int, steps: seq<Step>): Ledger
    requires ValidRun(start, budget, steps)
    decreases |steps|, 1
  {
    if steps == [] then Ledger(start, [], [], 0)
    else Apply(After(start, budget, steps[..|steps| - 1]), budget, steps[|steps| - 1])
  }

  // ------------------------------------------------- the rows meter the log

  // Cost of the generations whose metering month starts in [start, end).
  function LoggedCost(log: seq<Generation>, start: int, end: int): int {
    if log == [] then 0
    else
      var g := log[|log| - 1];
      LoggedCost(log[..|log| - 1], start, end) + (if start <= MonthBounds(g.at).0 < end then g.cost else 0)
  }

  lemma {:induction false} SumAfterUpdate(rows: seq<UsageRow>, i: nat, r: UsageRow, metric: Metric, start: int, end: int)
    requires i < |rows|
    ensures Sum(rows[i := r], metric, start, end)
         == Sum(rows, metric, start, end) - Share(rows[i], metric, start, end) + Share(r, metric, start, end)
  {
    var n := |rows| - 1;
    if i == n {
      assert rows[i := r][..n] == rows[..n];
    } else {
      SumAfterUpdate(rows[..n], i, r, metric, start, end);
      assert rows[i := r][..n] == rows[..n][i := r];
    }
  }

  lemma SumAfterMeter(rows: seq<UsageRow>, m: Metric, at: int, until: int, q: int, metric: Metric, start: int, end: int)
    ensures Sum(Meter(rows, m, at, until, q), metric, start, end)
         == Sum(rows, metric, start, end) + (if m == metric && start <= at < end then q else 0)
  {
    var i := RowIndex(rows, m, at);
    if i < |rows| {
      SumAfterUpdate(rows, i, rows[i].(quantity := rows[i].quantity + q), metric, start, end);
    } else {
      var r := UsageRow(m, at, until, q);
      assert (rows + [r])[..|rows|] == rows;
    }
  }

  // Over any span of months the cost rows add up to the cost of the generations
  // recorded in it, parsed or not.
  lemma {:induction false} RowsMeterTheLog(from: nat, budget: int, steps: seq<Step>, start: int, end: int)
    requires ValidRun(from, budget, steps)
    ensures var l := After(from, budget, steps);
            Sum(l.rows, AiCostCents, start, end) == LoggedCost(l.log, start, end)
  {
    if steps != [] {
      var before := steps[..|steps| - 1];
      RowsMeterTheLog(from, budget, before, start, end);
      var l := After(from, budget, before);
      match steps[|steps| - 1]
      case Answer(cost, parsed) =>
        var (s, e) := MonthBounds(l.now);
        SumAfterMeter(l.rows, AiCostCents, s, e, cost, AiCostCents, start, end);
        SumAfterMeter(Meter(l.rows, AiCostCents, s, e, cost), AiGenerations, s, e, 1, AiCostCents, start, end);
        assert (l.log + [Generation(l.now, cost, parsed)])[..|l.log|] == l.log;
      case _ =>
    }
  }

  // Cost of the generations metered in the same month as `now`.
  function CostOfMonth(log: seq<Generation>, now: nat): int {
    if log == [] then 0
    else
      var g := log[|log| - 1];
      CostOfMonth(log[..|log| - 1], now) + (if MonthBounds(now).0 <= g.at < MonthBounds(now).1 then g.cost else 0)
  }

  lemma {:induction false} LoggedCostIsCostOfMonth(log: seq<Generation>, now: nat)
    ensures LoggedCost(log, MonthBounds(now).0, MonthBounds(now).1) == CostOfMonth(log, now)
  {
    if log != [] {
      LoggedCostIsCostOfMonth(log[..|log| - 1], now);
      var at := log[|log| - 1].at;
      MonthsTile(now, at);
      StartOfMonth(now, at);
    }
  }

  lemma StartOfMonth(now: nat, other: nat)
    ensures MonthBounds(now).0 <= MonthBounds(other).0 < MonthBounds(now).1 <==> MonthBounds(other) == MonthBounds(now)
  {
    BoundsOfFirstDay(MonthOf(other / DAY));
    BoundsOfMonth(other);
    MonthsTile(now, MonthBounds(other).0);
    MonthsTile(other, MonthBounds(other).0);
    MonthsTile(now, other);
    BoundsOfMonth(now);
    FirstDayMonotone(MonthOf(other / DAY), MonthOf(other / DAY) + 1);
  }

  // For every month, what the check reads is what was spent in that month.
  lemma SpentIsCostOfMonth(from: nat, budget: int, steps: seq<Step>, month: nat)
    requires ValidRun(from, budget, steps)
    ensures var l := After(from, budget, steps);
            SpentThisMonth(l.rows, month) == CostOfMonth(l.log, month)
  {
    RowsMeterTheLog(from, budget, steps, MonthBounds(month).0, MonthBounds(month).1);
    LoggedCostIsCostOfMonth(After(from, budget, steps).log, month);
  }

  // Generations whose metering month starts in [start, end).
  function LoggedCount(log: seq<Generation>, start: int, end: int): int {
    if log == [] then 0
    else LoggedCount(log[..|log| - 1], start, end) + (if start <= MonthBounds(log[|log| - 1].at).0 < end then 1 else 0)
  }

  // The generation rows count the recorded generations, parsed or not.
  lemma {:induction false} RowsCountTheLog(from: nat, budget: int, steps: seq<Step>, start: int, end: int)
    requires ValidRun(from, budget, steps)
    ensures var l := After(from, budget, steps);
            Sum(l.rows, AiGenerations, start, end) == LoggedCount(l.log, start, end)
  {
    if steps != [] {
      var before := steps[..|steps| - 1];
      RowsCountTheLog(from, budget, before, start, end);
      var l := After(from, budget, before);
      match steps[|steps| - 1]
      case Answer(cost, parsed) =>
        var (s, e) := MonthBounds(l.now);
        SumAfterMeter(l.rows, AiCostCents, s, e, cost, AiGenerations, start, end);
        SumAfterMeter(Meter(l.rows, AiCostCents, s, e, cost), AiGenerations, s, e, 1, AiGenerations, start, end);
        assert (l.log + [Generation(l.now, cost, parsed)])[..|l.log|] == l.log;
      case _ =>
    }
  }

  // One row per metric and month, which spans exactly that month.
  ghost predicate RowsAreMonths(rows: seq<UsageRow>) {
    && (forall i, k :: 0 <= i < k < |rows| ==> rows[i].metric != rows[k].metric || rows[i].periodStart != rows[k].periodStart)
    && (forall i :: 0 <= i < |rows| ==> IsMonth(rows[i].periodStart, rows[i].periodEnd))
  }

  predicate IsMonth(start: int, end: int) {
    start >= 0 && MonthBounds(start) == (start, end)
  }

  lemma MeterKeepsMonths(rows: seq<UsageRow>, metric: Metric, start: int, end: int, quantity: int)
    requires RowsAreMonths(rows) && IsMonth(start, end)
    ensures RowsAreMonths(Meter(rows, metric, start, end, quantity))
  {
  }

  lemma BoundsAreMonth(now: nat)
    ensures IsMonth(MonthBounds(now).0, MonthBounds(now).1)
  {
    BoundsOfMonth(now);
    BoundsOfFirstDay(MonthOf(now / DAY));
    FirstDayMonotone(MonthOf(now / DAY), MonthOf(now / DAY) + 1);
    MonthsTile(now, MonthBounds(now).0);
  }

  lemma {:induction false} UsageRowsAreMonths(from: nat, budget: int, steps: seq<Step>)
    requires ValidRun(from, budget, steps)
    ensures RowsAreMonths(After(from, budget, steps).rows)
  {
    if steps != [] {
      var before := steps[..|steps| - 1];
      UsageRowsAreMonths(from, budget, before);
      var l := After(from, budget, before);
      match steps[|steps| - 1]
      case Answer(cost, parsed) =>
        var (s, e) := MonthBounds(l.now);
        BoundsAreMonth(l.now);
        MeterKeepsMonths(l.rows, AiCostCents, s, e, cost);
        MeterKeepsMonths(Meter(l.rows, AiCostCents, s, e, cost), AiGenerations, s, e, 1);
      case _ =>
    }
  }

  // A call is let through exactly if there is no budget or the generations
  // recorded so far this month cost less than it; a refusal changes nothing.
  lemma CallIsAllowedIff(from: nat, budget: int, steps: seq<Step>)
    requires ValidRun(from, budget, steps)
    ensures var l := After(from, budget, steps);
            Apply(l, budget, Begin) == if budget <= 0 || CostOfMonth(l.log, l.now) < budget then l.(open := l.open + 1) else l
  {
    SpentIsCostOfMonth(from, budget, steps, After(from, budget, steps).now);
  }

  // ------------------------------------------------------- the overshoot bound

  // At most `k` calls are ever between the check and the record.
  ghost predicate OpenAtMost(from: nat, budget: int, steps: seq<Step>, k: nat)
    requires ValidRun(from, budget, steps)
  {
    && After(from, budget, steps).open <= k
    && (steps != [] ==> OpenAtMost(from, budget, steps[..|steps| - 1], k))
  }

  ghost predicate CostsAtMost(steps: seq<Step>, c: nat) {
    forall i :: 0 <= i < |steps| && steps[i].Answer? ==> steps[i].cost <= c
  }

  lemma {:induction false} LogIsPast(from: nat, budget: int, steps: seq<Step>, month: nat)
    requires ValidRun(from, budget, steps)
    ensures var l := After(from, budget, steps);
            MonthBounds(month).0 > l.now ==> CostOfMonth(l.log, month) == 0
  {
    if steps != [] {
      var before := steps[..|steps| - 1];
      LogIsPast(from, budget, before, month);
      var l := After(from, budget, before);
      match steps[|steps| - 1]
      case Answer(cost, parsed) =>
        assert (l.log + [Generation(l.now, cost, parsed)])[..|l.log|] == l.log;
      case _ =>
    }
  }

  lemma ProductOrder(c: nat, x: nat, y: nat)
    requires x <= y
    ensures c * x <= c * y && 0 <= c * x && c * (x + 1) == c * x + c
  {
  }

  // What a month has spent together with what the open calls may still add
  // to it stays within the bound; a month that is over gains nothing.
  ghost predicate Covered(l: Ledger, budget: int, k: nat, c: nat, month: nat) {
    && CostOfMonth(l.log, month) <= budget - 1 + c * k
    && (l.now < MonthBounds(month).1 ==> CostOfMonth(l.log, month) + c * l.open <= budget - 1 + c * k)
  }

  lemma {:induction false} Potential(from: nat, budget: int, steps: seq<Step>, k: nat, c: nat, month: nat)
    requires ValidRun(from, budget, steps) && OpenAtMost(from, budget, steps, k) && CostsAtMost(steps, c)
    requires budget > 0
    ensures Covered(After(from, budget, steps), budget, k, c, month)
  {
    if steps == [] {
      ProductOrder(c, 0, k);
    } else {
      var before := steps[..|steps| - 1];
      var b := After(from, budget, before);
      Potential(from, budget, before, k, c, month);
      match steps[|steps| - 1]
      case Begin =>
        SpentIsCostOfMonth(from, budget, before, b.now);
        LogIsPast(from, budget, before, month);
        if WithinBudget(b.rows, b.now, budget) && b.now < MonthBounds(month).1 {
          BeginStaysBelow(b, budget, k, c, month);
        }
      case Answer(cost, parsed) =>
        AnswerKeepsCovered(b, After(from, budget, steps), budget, k, c, month, Generation(b.now, cost, parsed));
      case ProviderFails =>
        ProductOrder(c, b.open - 1, b.open);
      case Tick(_) =>
    }
  }

  lemma AnswerKeepsCovered(b: Ledger, l: Ledger, budget: int, k: nat, c: nat, month: nat, g: Generation)
    requires Covered(b, budget, k, c, month) && b.open > 0 && g.at == b.now && g.cost <= c
    requires l.now == b.now && l.log == b.log + [g] && l.open == b.open - 1
    ensures Covered(l, budget, k, c, month)
  {
    CostAfterAnswer(b.log, g, month);
    ProductOrder(c, b.open - 1, b.open);
  }

  lemma CostAfterAnswer(log: seq<Generation>, g: Generation, month: nat)
    ensures CostOfMonth(log + [g], month)
         == CostOfMonth(log, month) + (if MonthBounds(month).0 <= g.at < MonthBounds(month).1 then g.cost else 0)
  {
    assert (log + [g])[..|log|] == log;
  }

  lemma BeginStaysBelow(b: Ledger, budget: int, k: nat, c: nat, month: nat)
    requires budget > 0 && b.open + 1 <= k
    requires SpentThisMonth(b.rows, b.now) == CostOfMonth(b.log, b.now)
    requires MonthBounds(month).0 > b.now ==> CostOfMonth(b.log, month) == 0
    requires b.now < MonthBounds(month).1 && WithinBudget(b.rows, b.now, budget)
    ensures CostOfMonth(b.log, month) + c * (b.open + 1) <= budget - 1 + c * k
  {
    ProductOrder(c, b.open + 1, k);
    CostBeforeBegin(b, budget, month);
  }

  lemma CostBeforeBegin(b: Ledger, budget: int, month: nat)
    requires budget > 0 && SpentThisMonth(b.rows, b.now) == CostOfMonth(b.log, b.now)
    requires MonthBounds(month).0 > b.now ==> CostOfMonth(b.log, month) == 0
    requires b.now < MonthBounds(month).1 && WithinBudget(b.rows, b.now, budget)
    ensures CostOfMonth(b.log, month) <= budget - 1
  {
    if MonthBounds(month).0 <= b.now {
      MonthsTile(month, b.now);
      SameMonthSameCost(b.log, month, b.now);
    }
  }

  lemma {:induction false} SameMonthSameCost(log: seq<Generation>, m: nat, n: nat)
    requires MonthBounds(m) == MonthBounds(n)
    ensures CostOfMonth(log, m) == CostOfMonth(log, n)
  {
    if log != [] {
      SameMonthSameCost(log[..|log| - 1], m, n);
    }
  }

  // No month ever spends more than budget - 1 + c * k, where k calls overlap at
  // most; serially (k = 1) that is budget - 1 + c. Calls whose answer arrives
  // after midnight of the first are counted where they are recorded.
  lemma OvershootBound(from: nat, budget: int, steps: seq<Step>, k: nat, c: nat, month: nat)
    requires ValidRun(from, budget, steps) && OpenAtMost(from, budget, steps, k) && CostsAtMost(steps, c)
    requires budget > 0
    ensures SpentThisMonth(After(from, budget, steps).rows, month) <= budget - 1 + c * k
    ensures k == 1 ==> SpentThisMonth(After(from, budget, steps).rows, month) <= budget - 1 + c
  {
    SpentIsCostOfMonth(from, budget, steps, month);
    Potential(from, budget, steps, k, c, month);
    ProductOrder(c, 0, 1);
  }
}
