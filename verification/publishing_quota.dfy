// The daily publishing guard: the quota rows are an exact hourly histogram of
// the recorded publishes, and they bound the publishes of an account in any
// 23 hours, however many workers run.
module PublishingQuota {
  import opened Wrappers
  import opened PublishingModel
  import opened PublishingSafety

  // -------------------------------------------------------- sets of executions

  // Recorded publishes of an account whose hour starts at `since` or later.
  function RecordedSince(execs: seq<Exec>, account: int, since: int): set<nat> {
    set e: nat | e < |execs| && execs[e].account == account && execs[e].status.Recorded?
                 && HourFloor(execs[e].status.at) >= since
  }

  // Executions between the quota check and the increment.
  function OpenFor(execs: seq<Exec>, account: int): set<nat> {
    set e: nat | e < |execs| && execs[e].account == account && (execs[e].status.InFlight? || execs[e].status.Replied?)
  }

  // Successful publishes of an account with a reply in [start, end].
  function PublishedIn(execs: seq<Exec>, account: int, start: int, end: int): set<nat> {
    set e: nat | e < |execs| && execs[e].account == account && GotReply(execs[e])
                 && start <= execs[e].status.replyAt <= end
  }

  // Those, and the executions checked by `end` that may still get a reply.
  function MayPublishIn(execs: seq<Exec>, account: int, start: int, end: int): set<nat> {
    PublishedIn(execs, account, start, end)
    + set e: nat | e < |execs| && execs[e].account == account && execs[e].status.InFlight? && execs[e].checkedAt <= end
  }

  lemma SubsetSize(a: set<nat>, b: set<nat>)
    requires a <= b
    ensures |a| <= |b|
  {
    assert b == a + (b - a);
  }

  lemma UnionSize(a: set<nat>, b: set<nat>)
    ensures |a + b| <= |a| + |b|
  {
    assert a + b == a + (b - a);
    SubsetSize(b - a, b);
  }

  // ------------------------------------------------------------- the histogram

  ghost predicate Timely(s: Sys) {
    && (forall e :: 0 <= e < |s.execs| ==>
          && s.execs[e].checkedAt <= s.now
          && (s.execs[e].status.Replied? ==> s.execs[e].checkedAt <= s.execs[e].status.replyAt <= s.now)
          && (s.execs[e].status.Recorded? ==>
                s.execs[e].checkedAt <= s.execs[e].status.replyAt <= s.execs[e].status.at <= s.now))
  }

  ghost predicate OneRowPerHour(rows: seq<QuotaRow>) {
    && (forall i :: 0 <= i < |rows| ==> rows[i].windowStart % HOUR == 0)
    && (forall i, k :: 0 <= i < k < |rows| ==> rows[i].account != rows[k].account || rows[i].windowStart != rows[k].windowStart)
  }

  ghost predicate Histogram(s: Sys) {
    && OneRowPerHour(s.quota)
    && (forall account, since :: UsedSince(s.quota, account, since) == |RecordedSince(s.execs, account, since)|)
  }

  lemma {:induction false} UsedAfterUpdate(rows: seq<QuotaRow>, i: nat, r: QuotaRow, account: int, since: int)
    requires i < |rows| && r.account == rows[i].account && r.windowStart == rows[i].windowStart && r.used == rows[i].used + 1
    ensures UsedSince(rows[i := r], account, since)
         == UsedSince(rows, account, since) + (if r.account == account && r.windowStart >= since then 1 else 0)
  {
    var n := |rows| - 1;
    if i == n {
      assert rows[i := r][..n] == rows[..n];
    } else {
      UsedAfterUpdate(rows[..n], i, r, account, since);
      assert rows[i := r][..n] == rows[..n][i := r];
    }
  }

  lemma UsedAfterIncrement(rows: seq<QuotaRow>, at: int, now: int, account: int, since: int)
    ensures UsedSince(IncrementQuota(rows, at, now), account, since)
         == UsedSince(rows, account, since) + (if at == account && HourFloor(now) >= since then 1 else 0)
  {
    var i := QuotaIndex(rows, at, HourFloor(now));
    if i < |rows| {
      UsedAfterUpdate(rows, i, rows[i].(used := rows[i].used + 1), account, since);
    } else {
      assert (rows + [QuotaRow(at, HourFloor(now), 1)])[..|rows|] == rows;
    }
  }

  lemma HourFloorIsHour(t: int)
    ensures HourFloor(t) % 3_600_000_000 == 0 && HourFloor(t) <= t < HourFloor(t) + 3_600_000_000
  {
  }

  lemma IncrementKeepsRows(rows: seq<QuotaRow>, account: int, now: int)
    requires OneRowPerHour(rows)
    ensures OneRowPerHour(IncrementQuota(rows, account, now))
  {
    HourFloorIsHour(now);
  }

  lemma OneMoreRecorded(execs: seq<Exec>, e: nat, x: Exec, account: int, since: int)
    requires e < |execs| && !execs[e].status.Recorded?
    requires x.account == execs[e].account && x.status.Recorded?
    ensures |RecordedSince(execs[e := x], account, since)|
         == |RecordedSince(execs, account, since)| + (if x.account == account && HourFloor(x.status.at) >= since then 1 else 0)
  {
    var more := execs[e := x];
    if x.account == account && HourFloor(x.status.at) >= since {
      assert RecordedSince(more, account, since) == RecordedSince(execs, account, since) + {e};
    } else {
      assert RecordedSince(more, account, since) == RecordedSince(execs, account, since);
    }
  }

  lemma RecordKeepsHistogram(c: Settings, s: Sys, w: int)
    requires Safe(s) && Histogram(s) && Enabled(s, Record(w))
    ensures Histogram(Apply(c, s, Record(w)))
  {
    var t := Apply(c, s, Record(w));
    var e := WorkerOf(s, w).exec;
    var x := s.execs[e];
    IncrementKeepsRows(s.quota, x.account, s.now);
    forall account, since
      ensures UsedSince(t.quota, account, since) == |RecordedSince(t.execs, account, since)|
    {
      UsedAfterIncrement(s.quota, x.account, s.now, account, since);
      OneMoreRecorded(s.execs, e, t.execs[e], account, since);
    }
  }

  lemma OtherStepsKeepHistogram(c: Settings, s: Sys, step: Step)
    requires Safe(s) && Histogram(s) && Enabled(s, step) && !step.Record?
    ensures Histogram(Apply(c, s, step))
  {
    var t := Apply(c, s, step);
    assert t.quota == s.quota;
    if step.Reply? {
      assert HandPaired(s, step.worker, WorkerOf(s, step.worker));
    }
    forall account, since
      ensures UsedSince(t.quota, account, since) == |RecordedSince(t.execs, account, since)|
    {
      assert RecordedSince(t.execs, account, since) == RecordedSince(s.execs, account, since);
    }
  }

  lemma StepKeepsTimely(c: Settings, s: Sys, step: Step)
    requires Timely(s) && Enabled(s, step)
    ensures Timely(Apply(c, s, step))
  {
  }

  lemma {:induction false} AlwaysHistogram(c: Settings, from: int, steps: seq<Step>)
    requires ValidRun(c, from, steps)
    ensures Histogram(After(c, from, steps)) && Timely(After(c, from, steps))
  {
    if steps == [] {
      forall account, since
        ensures RecordedSince([], account, since) == {}
      {
      }
    } else {
      var before := steps[..|steps| - 1];
      var s := After(c, from, before);
      AlwaysHistogram(c, from, before);
      AlwaysSafe(c, from, before);
      StepKeepsTimely(c, s, steps[|steps| - 1]);
      if steps[|steps| - 1].Record? {
        RecordKeepsHistogram(c, s, steps[|steps| - 1].worker);
      } else {
        OtherStepsKeepHistogram(c, s, steps[|steps| - 1]);
      }
    }
  }

  // The recorded publishes of an account in the hour that starts at `hour`.
  function RecordedInHour(execs: seq<Exec>, account: int, hour: int): set<nat> {
    set e: nat | e < |execs| && execs[e].account == account && execs[e].status.Recorded?
                 && HourFloor(execs[e].status.at) == hour
  }

  lemma {:induction false} UsedOfOneHour(rows: seq<QuotaRow>, account: int, hour: int)
    requires OneRowPerHour(rows) && hour % HOUR == 0
    ensures forall i :: 0 <= i < |rows| && rows[i].account == account && rows[i].windowStart == hour ==>
              rows[i].used == UsedSince(rows, account, hour) - UsedSince(rows, account, hour + HOUR)
    ensures (forall i :: 0 <= i < |rows| ==> rows[i].account != account || rows[i].windowStart != hour) ==>
              UsedSince(rows, account, hour) == UsedSince(rows, account, hour + HOUR)
  {
    if rows != [] {
      var n := |rows| - 1;
      UsedOfOneHour(rows[..n], account, hour);
      NextHour(rows[n].windowStart, hour);
    }
  }

  lemma NextHour(a: int, b: int)
    requires a % HOUR == 0 && b % HOUR == 0
    ensures a >= b + HOUR <==> a > b
  {
  }

  lemma RowIsExact(s: Sys, i: nat)
    requires Histogram(s) && i < |s.quota|
    ensures var r := s.quota[i]; r.used == |RecordedInHour(s.execs, r.account, r.windowStart)|
  {
    var r := s.quota[i];
    UsedOfOneHour(s.quota, r.account, r.windowStart);
    var all := RecordedSince(s.execs, r.account, r.windowStart);
    var later := RecordedSince(s.execs, r.account, r.windowStart + HOUR);
    forall e: nat | e < |s.execs| && s.execs[e].status.Recorded?
      ensures HourFloor(s.execs[e].status.at) >= r.windowStart + HOUR <==> HourFloor(s.execs[e].status.at) > r.windowStart
    {
      HourFloorIsHour(s.execs[e].status.at);
      NextHour(HourFloor(s.execs[e].status.at), r.windowStart);
    }
    assert all == RecordedInHour(s.execs, r.account, r.windowStart) + later;
    assert RecordedInHour(s.execs, r.account, r.windowStart) !! later;
  }

  // In every reachable state there is at most one quota row per account and
  // hour, its `used` is the number of publishes recorded in that hour, and the
  // sum that the check computes for any account is the number of recorded
  // publishes whose hour lies in its window.
  lemma QuotaRowsAreExact(c: Settings, from: int, steps: seq<Step>)
    requires ValidRun(c, from, steps)
    ensures var s := After(c, from, steps);
            && OneRowPerHour(s.quota)
            && (forall i :: 0 <= i < |s.quota| ==>
                  s.quota[i].used == |RecordedInHour(s.execs, s.quota[i].account, s.quota[i].windowStart)|)
            && (forall account, since :: UsedSince(s.quota, account, since) == |RecordedSince(s.execs, account, since)|)
  {
    var s := After(c, from, steps);
    AlwaysHistogram(c, from, steps);
    forall i | 0 <= i < |s.quota|
      ensures s.quota[i].used == |RecordedInHour(s.execs, s.quota[i].account, s.quota[i].windowStart)|
    {
      RowIsExact(s, i);
    }
  }

  // ---------------------------------------------------------- the publish bound

  // Throughout the run at most `k` executions of the account are between the
  // quota check and the increment.
  ghost predicate OverlapAtMost(c: Settings, from: int, steps: seq<Step>, account: int, k: nat)
    requires ValidRun(c, from, steps)
  {
    && |OpenFor(After(c, from, steps).execs, account)| <= k
    && (steps != [] ==> OverlapAtMost(c, from, steps[..|steps| - 1], account, k))
  }

  function Bound(c: Settings, k: nat): int {
    if Guard(c) <= 0 then 0 else Guard(c) - 1 + k
  }

  // An execution that passes the check joins publishes that the check counted
  // and executions that are open.
  lemma StartStaysBelow(c: Settings, s: Sys, t: Sys, x: Exec, account: int, k: nat, start: int)
    requires Histogram(s) && Timely(s) && QuotaLeft(c, s.quota, account, s.now)
    requires t.execs == s.execs + [x] && x.account == account && x.status.InFlight? && x.checkedAt == s.now
    requires |OpenFor(t.execs, account)| <= k
    requires s.now <= start + 23 * HOUR
    ensures |MayPublishIn(t.execs, account, start, start + 23 * HOUR)| <= Bound(c, k)
  {
    var may := MayPublishIn(t.execs, account, start, start + 23 * HOUR);
    var counted := RecordedSince(s.execs, account, s.now - 24 * HOUR);
    var open := OpenFor(t.execs, account);
    forall e | e in may
      ensures e in counted + open
    {
      if t.execs[e].status.Recorded? {
        HourFloorIsHour(t.execs[e].status.at);
      }
    }
    SubsetSize(may, counted + open);
    UnionSize(counted, open);
    assert UsedSince(s.quota, account, s.now - 24 * HOUR) == |counted|;
  }

  lemma StepShrinksMayPublish(c: Settings, s: Sys, t: Sys, step: Step, account: int, start: int, end: int)
    requires Safe(s) && Timely(s) && Enabled(s, step) && t == Apply(c, s, step)
    requires |t.execs| > |s.execs| ==> end < s.now || t.execs[|s.execs|].account != account
    ensures MayPublishIn(t.execs, account, start, end) <= MayPublishIn(s.execs, account, start, end)
  {
    if step.Reply? || step.Record? {
      assert HandPaired(s, step.worker, WorkerOf(s, step.worker));
    }
    forall e | e in MayPublishIn(t.execs, account, start, end)
      ensures e in MayPublishIn(s.execs, account, start, end)
    {
      assert e < |s.execs|;
    }
  }

  lemma {:induction false} MayPublishStaysBelow(c: Settings, from: int, steps: seq<Step>, account: int, k: nat, start: int)
    requires ValidRun(c, from, steps) && OverlapAtMost(c, from, steps, account, k) && k >= 1
    ensures |MayPublishIn(After(c, from, steps).execs, account, start, start + 23 * HOUR)| <= Bound(c, k)
  {
    var end := start + 23 * HOUR;
    if steps == [] {
      assert MayPublishIn([], account, start, end) == {};
    } else {
      var before := steps[..|steps| - 1];
      var step := steps[|steps| - 1];
      var s := After(c, from, before);
      var t := After(c, from, steps);
      MayPublishStaysBelow(c, from, before, account, k, start);
      AlwaysSafe(c, from, before);
      AlwaysHistogram(c, from, before);
      if step.Start? && s.now <= end && |t.execs| > |s.execs| && t.execs[|s.execs|].account == account {
        StartStaysBelow(c, s, t, t.execs[|s.execs|], account, k, start);
      } else {
        StepShrinksMayPublish(c, s, t, step, account, start, end);
        SubsetSize(MayPublishIn(t.execs, account, start, end), MayPublishIn(s.execs, account, start, end));
      }
    }
  }

  // Any 23 hours hold at most guard + k - 1 successful publishes of an account,
  // where k of its executions overlap at most; with one worker, at most guard.
  lemma PublishesIn23Hours(c: Settings, from: int, steps: seq<Step>, account: int, k: nat, start: int)
    requires ValidRun(c, from, steps) && OverlapAtMost(c, from, steps, account, k) && k >= 1
    ensures |PublishedIn(After(c, from, steps).execs, account, start, start + 23 * HOUR)| <= Bound(c, k)
    ensures k == 1 ==> |PublishedIn(After(c, from, steps).execs, account, start, start + 23 * HOUR)| <= Max(Guard(c), 0)
  {
    var execs := After(c, from, steps).execs;
    MayPublishStaysBelow(c, from, steps, account, k, start);
    SubsetSize(PublishedIn(execs, account, start, start + 23 * HOUR), MayPublishIn(execs, account, start, start + 23 * HOUR));
  }

  // Any 24 hours hold at most twice that.
  lemma PublishesIn24Hours(c: Settings, from: int, steps: seq<Step>, account: int, k: nat, start: int)
    requires ValidRun(c, from, steps) && OverlapAtMost(c, from, steps, account, k) && k >= 1
    ensures |PublishedIn(After(c, from, steps).execs, account, start, start + 24 * HOUR)| <= 2 * Bound(c, k)
  {
    var execs := After(c, from, steps).execs;
    var first := PublishedIn(execs, account, start, start + 23 * HOUR);
    var last := PublishedIn(execs, account, start + HOUR, start + 24 * HOUR);
    PublishesIn23Hours(c, from, steps, account, k, start);
    PublishesIn23Hours(c, from, steps, account, k, start + HOUR);
    assert start + HOUR + 23 * HOUR == start + 24 * HOUR;
    SubsetSize(PublishedIn(execs, account, start, start + 24 * HOUR), first + last);
    UnionSize(first, last);
  }

  // ------------------------------------------- how far the check is from rolling

  // Publishes recorded in the last 24 hours to the microsecond.
  function RecordedInLast24Hours(execs: seq<Exec>, account: int, now: int): set<nat> {
    set e: nat | e < |execs| && execs[e].account == account && execs[e].status.Recorded?
                 && execs[e].status.at >= now - 24 * HOUR
  }

  // The hour of this publish starts before the window and its instant lies in it.
  predicate CutOff(x: Exec, account: int, edge: int) {
    x.account == account && x.status.Recorded? && HourFloor(x.status.at) < edge <= x.status.at
  }

  // The counter that the check reads is a rolling 24-hour count exactly when no
  // publish of the account was recorded in the part of the oldest hour that the
  // window cuts off.
  lemma CheckIsRollingIff(c: Settings, from: int, steps: seq<Step>, account: int)
    requires ValidRun(c, from, steps)
    ensures var s := After(c, from, steps);
            var edge := s.now - 24 * HOUR;
            UsedSince(s.quota, account, edge) == |RecordedInLast24Hours(s.execs, account, s.now)|
            <==> (forall e :: 0 <= e < |s.execs| ==> !CutOff(s.execs[e], account, edge))
  {
    var s := After(c, from, steps);
    AlwaysHistogram(c, from, steps);
    assert UsedSince(s.quota, account, s.now - 24 * HOUR) == |RecordedSince(s.execs, account, s.now - 24 * HOUR)|;
    CutOffPublishes(s.execs, account, s.now);
  }

  lemma CutOffPublishes(execs: seq<Exec>, account: int, now: int)
    ensures |RecordedSince(execs, account, now - 24 * HOUR)| == |RecordedInLast24Hours(execs, account, now)|
            <==> (forall e :: 0 <= e < |execs| ==> !CutOff(execs[e], account, now - 24 * HOUR))
  {
    var edge := now - 24 * HOUR;
    var counted := RecordedSince(execs, account, edge);
    var rolling := RecordedInLast24Hours(execs, account, now);
    forall e: nat | e < |execs|
      ensures e in counted ==> e in rolling
      ensures CutOff(execs[e], account, edge) <==> e in rolling && e !in counted
    {
      if execs[e].status.Recorded? {
        HourFloorIsHour(execs[e].status.at);
      }
    }
    SameSizeSubset(counted, rolling);
  }

  lemma SameSizeSubset(a: set<nat>, b: set<nat>)
    requires a <= b
    ensures |a| == |b| <==> forall x :: x in b ==> x in a
  {
    assert b == a + (b - a);
    if |a| == |b| {
      assert |b - a| == 0;
      assert b - a == {};
      assert forall x :: x in b ==> x in a || x in b - a;
    } else {
      assert (forall x :: x in b ==> x in a) ==> a == b;
    }
  }
}
