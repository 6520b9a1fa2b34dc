// Why the guard's window is 23 hours and not 24: a serial run with a guard of
// one post that publishes twice within 24 hours.
module PublishingWindow {
  import opened Wrappers
  import opened PublishingModel
  import opened PublishingSafety
  import opened PublishingQuota

  ghost predicate SerialReaches(c: Settings, from: int, steps: seq<Step>, s: Sys, account: int) {
    Reaches(c, from, steps, s) && OverlapAtMost(c, from, steps, account, 1)
  }

  lemma SerialStep(c: Settings, from: int, steps: seq<Step>, s: Sys, step: Step, account: int)
    requires SerialReaches(c, from, steps, s, account) && Enabled(s, step)
    requires |OpenFor(Apply(c, s, step).execs, account)| <= 1
    ensures SerialReaches(c, from, steps + [step], Apply(c, s, step), account)
  {
    OneMoreStep(c, from, steps, s, step);
    assert (steps + [step])[..|steps|] == steps;
  }

  // What one idle worker does with one due job.
  function PublishSteps(w: int, j: int, media: int): seq<Step> {
    [ClaimSelect(w, 0, 1, [j])] + [ClaimUpdate(w)] + [Start(w, true, true, true)] + [Reply(w, Success(media))] + [Record(w)]
  }

  ghost predicate OnlyDue(s: Sys, j: int) {
    && j in s.jobs && Due(s.jobs[j], 0, s.now) && !s.jobs[j].requiresApproval
    && (forall i :: i in s.jobs && i != j ==> !Due(s.jobs[i], 0, s.now))
  }

  ghost predicate PublishedOne(s: Sys, t: Sys, w: int, j: int) {
    && j in s.jobs && j in t.jobs && t.now == s.now
    && t.jobs[j].state == Succeeded
    && t.jobs.Keys == s.jobs.Keys && (forall i :: i in s.jobs && i != j ==> t.jobs[i] == s.jobs[i])
    && t.execs == s.execs + [Exec(j, s.jobs[j].account, w, s.jobs[j].attempts + 1, s.now, Recorded(s.now, s.now))]
    && t.quota == IncrementQuota(s.quota, s.jobs[j].account, s.now)
    && WorkerOf(t, w) == Idle
  }

  lemma ClaimDue(c: Settings, from: int, steps: seq<Step>, s: Sys, w: int, j: int, account: int) returns (t: Sys)
    requires SerialReaches(c, from, steps, s, account) && OpenFor(s.execs, account) == {}
    requires WorkerOf(s, w) == Idle && OnlyDue(s, j)
    ensures SerialReaches(c, from, steps + [ClaimSelect(w, 0, 1, [j])] + [ClaimUpdate(w)], t, account)
    ensures t == s.(jobs := t.jobs, workers := t.workers) && WorkerOf(t, w) == Batch([j])
    ensures t.jobs.Keys == s.jobs.Keys && j in t.jobs && t.jobs[j] == ClaimJob(s.jobs[j], w, s.now)
    ensures forall i :: i in s.jobs && i != j ==> t.jobs[i] == s.jobs[i]
  {
    var select := ClaimSelect(w, 0, 1, [j]);
    SerialStep(c, from, steps, s, select, account);
    var u := Apply(c, s, select);
    AllClaimable(u.jobs, [j]);
    assert j in [j];
    SerialStep(c, from, steps + [select], u, ClaimUpdate(w), account);
    t := Apply(c, u, ClaimUpdate(w));
  }

  lemma RunClaimed(c: Settings, from: int, steps: seq<Step>, s: Sys, w: int, j: int, media: int, account: int) returns (t: Sys)
    requires SerialReaches(c, from, steps, s, account) && OpenFor(s.execs, account) == {}
    requires WorkerOf(s, w) == Batch([j]) && j in s.jobs && s.jobs[j].account == account && !s.jobs[j].requiresApproval
    requires QuotaLeft(c, s.quota, account, s.now)
    ensures SerialReaches(c, from, steps + [Start(w, true, true, true)] + [Reply(w, Success(media))] + [Record(w)], t, account)
    ensures PublishedOne(s, t, w, j) && OpenFor(t.execs, account) == {}
  {
    var n := |s.execs|;
    var start, reply := Start(w, true, true, true), Reply(w, Success(media));
    var u := Apply(c, s, start);
    assert OpenFor(u.execs, account) == {n};
    SerialStep(c, from, steps, s, start, account);
    var v := Apply(c, u, reply);
    assert OpenFor(v.execs, account) == {n};
    SerialStep(c, from, steps + [start], u, reply, account);
    t := Apply(c, v, Record(w));
    assert OpenFor(t.execs, account) == {};
    SerialStep(c, from, steps + [start] + [reply], v, Record(w), account);
  }

  // A due job that needs no approval and has quota left is published by an idle
  // worker that nothing disturbs.
  lemma PublishDueJob(c: Settings, from: int, steps: seq<Step>, s: Sys, w: int, j: int, media: int, account: int) returns (t: Sys)
    requires SerialReaches(c, from, steps, s, account) && OpenFor(s.execs, account) == {}
    requires WorkerOf(s, w) == Idle && OnlyDue(s, j) && s.jobs[j].account == account
    requires QuotaLeft(c, s.quota, account, s.now)
    ensures SerialReaches(c, from, steps + PublishSteps(w, j, media), t, account)
    ensures PublishedOne(s, t, w, j) && OpenFor(t.execs, account) == {}
  {
    var u := ClaimDue(c, from, steps, s, w, j, account);
    var mid := steps + [ClaimSelect(w, 0, 1, [j])] + [ClaimUpdate(w)];
    t := RunClaimed(c, from, mid, u, w, j, media, account);
    assert mid + [Start(w, true, true, true)] + [Reply(w, Success(media))] + [Record(w)] == steps + PublishSteps(w, j, media);
  }

  const C := Settings(5, 1, 2.0, 900.0)

  // One post at the end of an hour, the next one when the hour has left the window.
  const FIRST: int := HOUR - 1
  const SECOND_POST: int := 24 * HOUR + 1

  function Queue(): seq<Step> {
    [Enqueue(1, true, Request(0, 0, 0, 1, Some(FIRST), false))]
    + [Enqueue(2, true, Request(0, 0, 0, 2, Some(SECOND_POST), false))] + [Tick(FIRST)]
  }

  function TwoPosts(): seq<Step> {
    Queue() + PublishSteps(1, 1, 11) + [Tick(SECOND_POST - FIRST)] + PublishSteps(1, 2, 12)
  }

  lemma Queued() returns (s: Sys)
    ensures SerialReaches(C, 0, Queue(), s, 0)
    ensures s.now == FIRST && s.execs == [] && s.quota == [] && WorkerOf(s, 1) == Idle
    ensures s.jobs == map[1 := NewJob(C, 0, Request(0, 0, 0, 1, Some(FIRST), false)),
                          2 := NewJob(C, 0, Request(0, 0, 0, 2, Some(SECOND_POST), false))]
  {
    var q := Queue();
    var s0 := Sys(0, map[], [], [], [], map[]);
    assert OpenFor([], 0) == {};
    SerialStep(C, 0, [], s0, q[0], 0);
    var s1 := Apply(C, s0, q[0]);
    SerialStep(C, 0, [] + [q[0]], s1, q[1], 0);
    var s2 := Apply(C, s1, q[1]);
    SerialStep(C, 0, [] + [q[0]] + [q[1]], s2, q[2], 0);
    s := Apply(C, s2, q[2]);
    assert [] + [q[0]] + [q[1]] + [q[2]] == q;
  }

  // The hour that starts at 0 is out of the window at SECOND_POST.
  lemma FirstHourIsDropped()
    ensures HourFloor(FIRST) == 0
    ensures QuotaLeft(C, [], 0, FIRST)
    ensures QuotaLeft(C, IncrementQuota([], 0, FIRST), 0, SECOND_POST)
  {
    assert FIRST / HOUR == 0;
    var rows := [QuotaRow(0, 0, 1)];
    assert rows[..0] == [];
    assert UsedSince(rows, 0, SECOND_POST - 24 * HOUR) == 0;
  }

  lemma FirstPost() returns (s: Sys)
    ensures SerialReaches(C, 0, Queue() + PublishSteps(1, 1, 11) + [Tick(SECOND_POST - FIRST)], s, 0)
    ensures s.now == SECOND_POST && s.quota == IncrementQuota([], 0, FIRST) && WorkerOf(s, 1) == Idle && OnlyDue(s, 2)
    ensures s.jobs[2].account == 0 && OpenFor(s.execs, 0) == {}
    ensures |s.execs| == 1 && s.execs[0].account == 0 && s.execs[0].status == Recorded(FIRST, FIRST)
  {
    var a := Queued();
    FirstHourIsDropped();
    var b := PublishDueJob(C, 0, Queue(), a, 1, 1, 11, 0);
    SerialStep(C, 0, Queue() + PublishSteps(1, 1, 11), b, Tick(SECOND_POST - FIRST), 0);
    s := Apply(C, b, Tick(SECOND_POST - FIRST));
  }

  // With a guard of one post per day and one worker, two posts go out less than
  // 24 hours apart: the guard is not a rolling 24-hour limit.
  lemma GuardCanBeExceededIn24Hours() returns (s: Sys)
    ensures SerialReaches(C, 0, TwoPosts(), s, 0)
    ensures Guard(C) == 1 && SECOND_POST - FIRST == 23 * HOUR + 2
    ensures |PublishedIn(s.execs, 0, FIRST, SECOND_POST)| == 2
  {
    var d := FirstPost();
    FirstHourIsDropped();
    s := PublishDueJob(C, 0, Queue() + PublishSteps(1, 1, 11) + [Tick(SECOND_POST - FIRST)], d, 1, 2, 12, 0);
    assert PublishedIn(s.execs, 0, FIRST, SECOND_POST) == {0, 1};
  }
}
