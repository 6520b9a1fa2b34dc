// AIContentService of app/modules/ai/service.py, as an object whose tables are
// updated in place. Its state is always one that a run of AiBudget reaches.
module AiService {
  import opened Wrappers
  import opened Calendar
  import opened Metering
  import opened AiBudget

  datatype Kind = Caption | ContentPlan

  // What the provider does: raise, or answer with a text that parses or not.
  datatype Reply = Raised | Completed(model: string, promptTokens: nat, completionTokens: nat, parses: bool)

  datatype Outcome = QuotaExceeded | ProviderError | Generated(kind: Kind, cost: int, succeeded: bool)

  class AIContentService {
    const budget: int
    ghost const from: nat
    var now: nat
    var rows: seq<UsageRow>
    var generations: seq<Generation>
    ghost var trace: seq<Step>

    ghost function State(): Ledger
      reads this
    {
      Ledger(now, rows, generations, 0)
    }

    ghost predicate Valid()
      reads this
    {
      && ValidRun(from, budget, trace)
      && After(from, budget, trace) == State()
      && OpenAtMost(from, budget, trace, 1)
    }

    constructor (now: nat, monthlyBudget: Option<int>, defaultBudget: int)
      ensures Valid() && trace == [] && rows == [] && generations == []
      ensures budget == if monthlyBudget.Some? then monthlyBudget.value else defaultBudget
    {
      this.now := now;
      this.from := now;
      this.budget := if monthlyBudget.Some? then monthlyBudget.value else defaultBudget;
      this.rows := [];
      this.generations := [];
      this.trace := [];
    }

    method EnforceBudget() returns (allowed: bool)
      ensures allowed <==> WithinBudget(rows, now, budget)
    {
      if budget <= 0 {
        return true;
      }
      var spent := SpentThisMonth(rows, now);
      return spent < budget;
    }

    // Adds the cost and one generation to the rows of the current month,
    // creating a row that does not exist yet.
    method RecordUsage(cost: int)
      modifies this`rows
      ensures rows == AiBudget.RecordUsage(old(rows), now, cost)
    {
      var (start, end) := MonthBounds(now);
      var metrics, quantities := [AiCostCents, AiGenerations], [cost, 1];
      var i := 0;
      while i < 2
        invariant 0 <= i <= 2
        invariant rows == if i == 0 then old(rows)
                          else if i == 1 then Meter(old(rows), AiCostCents, start, end, cost)
                          else AiBudget.RecordUsage(old(rows), now, cost)
      {
        var at := RowIndex(rows, metrics[i], start);
        if at == |rows| {
          rows := rows + [UsageRow(metrics[i], start, end, quantities[i])];
        } else {
          rows := rows[at := rows[at].(quantity := rows[at].quantity + quantities[i])];
        }
        i := i + 1;
      }
    }

    method StoreGeneration(cost: int, parses: bool)
      modifies this`rows, this`generations
      ensures rows == AiBudget.RecordUsage(old(rows), now, cost)
      ensures generations == old(generations) + [Generation(now, cost, parses)]
    {
      generations := generations + [Generation(now, cost, parses)];
      RecordUsage(cost);
    }

    // generate_caption and generate_content_plan: check the budget, call the
    // provider for `waited` microseconds, store the generation, meter its cost.
    method Generate(kind: Kind, reply: Reply, waited: nat) returns (r: Outcome)
      requires Valid()
      modifies this
      ensures Valid()
      ensures r == QuotaExceeded <==> !WithinBudget(old(rows), old(now), budget)
      ensures r == QuotaExceeded ==> State() == old(State())
      ensures r != QuotaExceeded ==> now == old(now) + waited
      ensures r == ProviderError ==> reply.Raised? && rows == old(rows) && generations == old(generations)
      ensures r.Generated? ==> reply.Completed? && r == Generated(kind, EstimateCostCents(reply.model, reply.promptTokens, reply.completionTokens), reply.parses)
      ensures r.Generated? ==> rows == AiBudget.RecordUsage(old(rows), now, r.cost)
      ensures r.Generated? ==> generations == old(generations) + [Generation(now, r.cost, r.succeeded)]
      ensures r == QuotaExceeded ==> trace == old(trace) + [Begin]
      ensures r == ProviderError ==> trace == old(trace) + [Begin] + [Tick(waited)] + [ProviderFails]
      ensures r.Generated? ==> trace == old(trace) + [Begin] + [Tick(waited)] + [Answer(r.cost, r.succeeded)]
    {
      var allowed := EnforceBudget();
      Extend(Begin, State().(open := if allowed then 1 else 0));
      if !allowed {
        return QuotaExceeded;
      }
      Extend(Tick(waited), Ledger(now + waited, rows, generations, 1));
      now := now + waited;
      match reply {
        case Raised =>
          Extend(ProviderFails, State());
          r := ProviderError;
        case Completed(model, promptTokens, completionTokens, parses) =>
          var cost := EstimateCostCents(model, promptTokens, completionTokens);
          StoreGeneration(cost, parses);
          Extend(Answer(cost, parses), State());
          r := Generated(kind, cost, parses);
      }
    }

    // Records one step of the run that the object goes through.
    ghost method Extend(step: Step, after: Ledger)
      requires ValidRun(from, budget, trace) && Enabled(After(from, budget, trace), step)
      requires Apply(After(from, budget, trace), budget, step) == after
      modifies this`trace
      ensures trace == old(trace) + [step]
      ensures ValidRun(from, budget, trace) && After(from, budget, trace) == after
      ensures old(OpenAtMost(from, budget, trace, 1)) && after.open <= 1 ==> OpenAtMost(from, budget, trace, 1)
    {
      assert (trace + [step])[..|trace|] == trace;
      trace := trace + [step];
    }
  }

  // One service object, whatever calls were made on it: with a positive budget
  // and calls of at most c cents, no month is billed more than budget - 1 + c.
  lemma ServiceStaysWithinBudget(s: AIContentService, c: nat, month: nat)
    requires s.Valid() && s.budget > 0
    requires CostsAtMost(s.trace, c)
    ensures SpentThisMonth(s.rows, month) == CostOfMonth(s.generations, month)
    ensures SpentThisMonth(s.rows, month) <= s.budget - 1 + c
  {
    SpentIsCostOfMonth(s.from, s.budget, s.trace, month);
    OvershootBound(s.from, s.budget, s.trace, 1, c, month);
  }

  // A service object refuses a call exactly if it has a budget and what it
  // recorded this month has used it up.
  lemma ServiceRefusesIff(s: AIContentService)
    requires s.Valid()
    ensures WithinBudget(s.rows, s.now, s.budget) <==> s.budget <= 0 || CostOfMonth(s.generations, s.now) < s.budget
  {
    SpentIsCostOfMonth(s.from, s.budget, s.trace, s.now);
  }
}
