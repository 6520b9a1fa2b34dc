// At-most-once publishing: no interleaving of any number of workers gives a
// job two successful publish_container replies.
module PublishingSafety {
  import opened Wrappers
  import opened PublishingModel

  // ------------------------------------------------------- who holds which job

  function JobOf(execs: seq<Exec>, e: nat): int {
    if e < |execs| then execs[e].job else -1
  }

  // The jobs a worker claimed and has not let go, the one in hand first.
  function Held(execs: seq<Exec>, k: Worker): seq<int> {
    match k
    case Batch(todo) => todo
    case Executing(e, todo) => [JobOf(execs, e)] + todo
    case Published(e, _, todo) => [JobOf(execs, e)] + todo
    case _ => []
  }

  function HeldBy(s: Sys, w: int): seq<int> {
    Held(s.execs, WorkerOf(s, w))
  }

  // A held job is RUNNING and held once, by one worker.
  ghost predicate Exclusive(s: Sys) {
    && (forall w, i {:trigger HeldBy(s, w)[i]} :: 0 <= i < |HeldBy(s, w)| ==>
          HeldBy(s, w)[i] in s.jobs && s.jobs[HeldBy(s, w)[i]].state == Running)
    && (forall w, v, i, k {:trigger HeldBy(s, w)[i], HeldBy(s, v)[k]} ::
          0 <= i < |HeldBy(s, w)| && 0 <= k < |HeldBy(s, v)| && HeldBy(s, w)[i] == HeldBy(s, v)[k] ==> w == v && i == k)
  }

  // Workers and executions agree on who is doing what.
  ghost predicate Paired(s: Sys) {
    && (forall e :: 0 <= e < |s.execs| ==> ExecPaired(s, s.execs[e], e))
    && (forall w :: HandPaired(s, w, WorkerOf(s, w)))
  }

  ghost predicate ExecPaired(s: Sys, x: Exec, e: nat) {
    && x.job in s.jobs && x.account == s.jobs[x.job].account
    && (x.status.InFlight? ==> WorkerOf(s, x.worker).Executing? && WorkerOf(s, x.worker).exec == e)
    && (x.status.Replied? ==> WorkerOf(s, x.worker).Published? && WorkerOf(s, x.worker).exec == e)
    && (x.status.Recorded? ==> s.jobs[x.job].state == Succeeded)
  }

  ghost predicate HandPaired(s: Sys, w: int, k: Worker) {
    && (k.Executing? ==> k.exec < |s.execs| && s.execs[k.exec].status.InFlight? && s.execs[k.exec].worker == w)
    && (k.Published? ==> k.exec < |s.execs| && s.execs[k.exec].status.Replied? && s.execs[k.exec].worker == w)
  }

  predicate GotReply(x: Exec) {
    x.status.Replied? || x.status.Recorded?
  }

  // At most one publish per job.
  ghost predicate Once(s: Sys) {
    forall e, f :: 0 <= e < f < |s.execs| && GotReply(s.execs[e]) && GotReply(s.execs[f]) ==> s.execs[e].job != s.execs[f].job
  }

  // Enqueueing under a taken key makes no second job.
  ghost predicate KeysUnique(s: Sys) {
    forall i, j :: i in s.jobs && j in s.jobs && s.jobs[i].workspace == s.jobs[j].workspace && s.jobs[i].key == s.jobs[j].key ==> i == j
  }

  ghost predicate Safe(s: Sys) {
    Exclusive(s) && Paired(s) && Once(s) && KeysUnique(s)
  }

  // ------------------------------------------------------------- step lemmas

  lemma {:induction false} ClaimedAreClaimable(jobs: map<int, Job>, ids: seq<int>)
    requires forall i, k :: 0 <= i < k < |ids| ==> ids[i] != ids[k]
    ensures forall x :: x in Claimed(jobs, ids) ==> x in ids && Claimable(jobs, x)
    ensures forall i, k :: 0 <= i < k < |Claimed(jobs, ids)| ==> Claimed(jobs, ids)[i] != Claimed(jobs, ids)[k]
  {
    if ids != [] {
      var rest := Claimed(jobs, ids[1..]);
      ClaimedAreClaimable(jobs, ids[1..]);
      assert forall x :: x in rest ==> x in ids[1..];
      assert forall x :: x in ids[1..] ==> x in ids && x != ids[0];
      assert Claimed(jobs, ids) == if Claimable(jobs, ids[0]) then [ids[0]] + rest else rest;
    }
  }

  ghost predicate IsClaim(s: Sys, t: Sys, w: int, ids: seq<int>, at: int) {
    && Exclusive(s) && HeldBy(s, w) == []
    && (forall i, k :: 0 <= i < k < |ids| ==> ids[i] != ids[k])
    && t == SetWorker(s.(jobs := ClaimJobs(s.jobs, ids, w, at)), w, Rest(Claimed(s.jobs, ids)))
  }

  // The UPDATE takes only queued jobs, so nobody holds what it hands out.
  lemma HeldAfterClaim(s: Sys, t: Sys, w: int, ids: seq<int>, at: int, v: int, i: int)
    requires IsClaim(s, t, w, ids, at) && 0 <= i < |HeldBy(t, v)|
    ensures var j := HeldBy(t, v)[i];
            && j in s.jobs && j in t.jobs && t.jobs[j].state == Running
            && (if v == w then s.jobs[j].state == Queued && i < |Claimed(s.jobs, ids)| && j == Claimed(s.jobs, ids)[i]
                else s.jobs[j].state == Running && i < |HeldBy(s, v)| && j == HeldBy(s, v)[i])
  {
    ClaimedAreClaimable(s.jobs, ids);
    if v == w {
      assert HeldBy(t, v) == Claimed(s.jobs, ids);
      assert HeldBy(t, v)[i] in Claimed(s.jobs, ids);
    } else {
      assert HeldBy(t, v) == HeldBy(s, v);
    }
  }

  lemma ClaimKeepsExclusive(s: Sys, t: Sys, w: int, ids: seq<int>, at: int)
    requires IsClaim(s, t, w, ids, at)
    ensures Exclusive(t)
  {
    forall v, i | 0 <= i < |HeldBy(t, v)|
      ensures HeldBy(t, v)[i] in t.jobs && t.jobs[HeldBy(t, v)[i]].state == Running
    {
      HeldAfterClaim(s, t, w, ids, at, v, i);
    }
    ClaimedAreClaimable(s.jobs, ids);
    forall v, u, i, k | 0 <= i < |HeldBy(t, v)| && 0 <= k < |HeldBy(t, u)| && HeldBy(t, v)[i] == HeldBy(t, u)[k]
      ensures v == u && i == k
    {
      HeldAfterClaim(s, t, w, ids, at, v, i);
      HeldAfterClaim(s, t, w, ids, at, u, k);
    }
  }

  // A worker drops or keeps the front of what it holds; a dropped job may
  // change, all other held jobs stay as they are.
  lemma DropKeepsExclusive(s: Sys, t: Sys, w: int, n: nat)
    requires Exclusive(s) && n <= |HeldBy(s, w)|
    requires HeldBy(t, w) == HeldBy(s, w)[n..]
    requires forall v :: v != w ==> HeldBy(t, v) == HeldBy(s, v)
    requires forall j :: j in s.jobs ==> j in t.jobs
    requires forall j :: j in s.jobs && s.jobs[j].state == Running && j !in HeldBy(s, w)[..n] ==> t.jobs[j].state == Running
    ensures Exclusive(t)
  {
    forall v, i | 0 <= i < |HeldBy(t, v)|
      ensures HeldBy(t, v)[i] in t.jobs && t.jobs[HeldBy(t, v)[i]].state == Running
    {
      var j := if v == w then HeldBy(s, w)[n + i] else HeldBy(s, v)[i];
      assert HeldBy(t, v)[i] == j;
      assert j !in HeldBy(s, w)[..n];
    }
    forall v, u, i, k | 0 <= i < |HeldBy(t, v)| && 0 <= k < |HeldBy(t, u)| && HeldBy(t, v)[i] == HeldBy(t, u)[k]
      ensures v == u && i == k
    {
      assert HeldBy(t, v)[i] == if v == w then HeldBy(s, w)[n + i] else HeldBy(s, v)[i];
      assert HeldBy(t, u)[k] == if u == w then HeldBy(s, w)[n + k] else HeldBy(s, u)[k];
    }
  }

  ghost predicate DistinctSelections(s: Sys) {
    forall w :: WorkerOf(s, w).Selected? ==>
      forall i, k :: 0 <= i < k < |WorkerOf(s, w).ids| ==> WorkerOf(s, w).ids[i] != WorkerOf(s, w).ids[k]
  }

  lemma QueueStepsKeepSafe(c: Settings, s: Sys, step: Step)
    requires Safe(s) && DistinctSelections(s) && Enabled(s, step)
    requires step.Tick? || step.Enqueue? || step.Cancel? || step.ClaimSelect?
    ensures Safe(Apply(c, s, step))
  {
    var t := Apply(c, s, step);
    assert forall v :: HeldBy(t, v) == HeldBy(s, v);
    assert forall v :: WorkerOf(t, v) == WorkerOf(s, v) || (step.ClaimSelect? && v == step.worker);
    DropKeepsExclusive(s, t, 0, 0);
  }

  lemma ClaimUpdateKeepsSafe(c: Settings, s: Sys, w: int)
    requires Safe(s) && DistinctSelections(s) && Enabled(s, ClaimUpdate(w))
    ensures Safe(Apply(c, s, ClaimUpdate(w)))
  {
    var t := Apply(c, s, ClaimUpdate(w));
    ClaimKeepsExclusive(s, t, w, WorkerOf(s, w).ids, WorkerOf(s, w).at);
    assert forall v :: v != w ==> WorkerOf(t, v) == WorkerOf(s, v);
  }

  lemma StartKeepsSafe(c: Settings, s: Sys, w: int, found: bool, approved: bool, preflight: bool)
    requires Safe(s) && Enabled(s, Start(w, found, approved, preflight))
    ensures Safe(Apply(c, s, Start(w, found, approved, preflight)))
  {
    var t := Apply(c, s, Start(w, found, approved, preflight));
    assert forall v :: v != w ==> WorkerOf(t, v) == WorkerOf(s, v);
    var todo := WorkerOf(s, w).todo;
    assert HeldBy(s, w) == todo && todo == [todo[0]] + todo[1..];
    if WorkerOf(t, w).Executing? {
      assert HeldBy(t, w) == todo[0..];
      DropKeepsExclusive(s, t, w, 0);
    } else {
      assert HeldBy(t, w) == todo[1..];
      assert HeldBy(s, w)[..1] == [todo[0]];
      DropKeepsExclusive(s, t, w, 1);
      NotInHand(s, w);
    }
  }

  lemma OpenIsInHand(s: Sys, e: nat)
    requires Paired(s) && e < |s.execs|
    ensures var x := s.execs[e];
            x.status.InFlight? || x.status.Replied? ==>
              |HeldBy(s, x.worker)| > 0 && HeldBy(s, x.worker)[0] == x.job && !WorkerOf(s, x.worker).Batch?
  {
  }

  // The job at the front of a batch is in no open or recorded execution.
  lemma NotInHand(s: Sys, w: int)
    requires Safe(s) && WorkerOf(s, w).Batch? && WorkerOf(s, w).todo != []
    ensures forall e :: 0 <= e < |s.execs| && s.execs[e].job == WorkerOf(s, w).todo[0] ==> s.execs[e].status.Ended?
  {
    assert HeldBy(s, w)[0] == WorkerOf(s, w).todo[0];
    forall e | 0 <= e < |s.execs| && s.execs[e].job == WorkerOf(s, w).todo[0]
      ensures s.execs[e].status.Ended?
    {
      OpenIsInHand(s, e);
    }
  }

  // Apart from the execution in a worker's hand no other one of its job is open
  // or got a reply.
  lemma OnlyInHand(s: Sys, w: int)
    requires Safe(s) && (WorkerOf(s, w).Executing? || WorkerOf(s, w).Published?)
    ensures var e := WorkerOf(s, w).exec;
            && e < |s.execs| && HeldBy(s, w)[0] == s.execs[e].job && s.execs[e].job in s.jobs
            && s.jobs[s.execs[e].job].state == Running
            && (forall f :: 0 <= f < |s.execs| && f != e && s.execs[f].job == s.execs[e].job ==> s.execs[f].status.Ended?)
  {
    var e := WorkerOf(s, w).exec;
    assert HandPaired(s, w, WorkerOf(s, w));
    assert HeldBy(s, w)[0] == s.execs[e].job;
    forall f | 0 <= f < |s.execs| && f != e && s.execs[f].job == s.execs[e].job
      ensures s.execs[f].status.Ended?
    {
      OpenIsInHand(s, f);
    }
  }

  lemma SuccessKeepsSafe(c: Settings, s: Sys, w: int, media: int)
    requires Safe(s) && Enabled(s, Reply(w, Success(media)))
    ensures Safe(Apply(c, s, Reply(w, Success(media))))
  {
    var t := Apply(c, s, Reply(w, Success(media)));
    assert forall v :: v != w ==> WorkerOf(t, v) == WorkerOf(s, v);
    OnlyInHand(s, w);
    assert HeldBy(t, w) == HeldBy(s, w)[0..];
    DropKeepsExclusive(s, t, w, 0);
  }

  // A worker lets go of the job in its hand: the execution ends or is recorded
  // and the job leaves RUNNING.
  lemma LetGoKeepsSafe(s: Sys, t: Sys, w: int, status: ExecStatus, job: Job)
    requires Safe(s) && (WorkerOf(s, w).Executing? || WorkerOf(s, w).Published?)
    requires var e := WorkerOf(s, w).exec;
             && e < |s.execs| && s.execs[e].job in s.jobs
             && job.account == s.jobs[s.execs[e].job].account
             && job.workspace == s.jobs[s.execs[e].job].workspace && job.key == s.jobs[s.execs[e].job].key
             && t.jobs == s.jobs[s.execs[e].job := job]
             && t.execs == s.execs[e := s.execs[e].(status := status)]
             && t.workers == s.workers[w := Rest(WorkerOf(s, w).todo)]
    requires status.Ended? || (status.Recorded? && job.state == Succeeded && WorkerOf(s, w).Published?)
    ensures Safe(t)
  {
    assert forall v :: v != w ==> WorkerOf(t, v) == WorkerOf(s, v);
    OnlyInHand(s, w);
    assert HeldBy(t, w) == HeldBy(s, w)[1..];
    assert HeldBy(s, w)[..1] == [HeldBy(s, w)[0]];
    DropKeepsExclusive(s, t, w, 1);
  }

  lemma ReplyKeepsSafe(c: Settings, s: Sys, w: int, a: Answer)
    requires Safe(s) && Enabled(s, Reply(w, a))
    ensures Safe(Apply(c, s, Reply(w, a)))
  {
    if a.Success? {
      SuccessKeepsSafe(c, s, w, a.media);
    } else {
      var t := Apply(c, s, Reply(w, a));
      LetGoKeepsSafe(s, t, w, Ended, t.jobs[s.execs[WorkerOf(s, w).exec].job]);
    }
  }

  lemma RecordKeepsSafe(c: Settings, s: Sys, w: int)
    requires Safe(s) && Enabled(s, Record(w))
    ensures Safe(Apply(c, s, Record(w)))
  {
    var t := Apply(c, s, Record(w));
    var x := s.execs[WorkerOf(s, w).exec];
    LetGoKeepsSafe(s, t, w, Recorded(x.status.replyAt, s.now), t.jobs[x.job]);
  }

  lemma StepKeepsSafe(c: Settings, s: Sys, step: Step)
    requires Safe(s) && DistinctSelections(s) && Enabled(s, step)
    ensures Safe(Apply(c, s, step)) && DistinctSelections(Apply(c, s, step))
  {
    var t := Apply(c, s, step);
    assert forall v :: WorkerOf(t, v) == WorkerOf(s, v) || (!step.Tick? && !step.Enqueue? && !step.Cancel? && v == step.worker);
    match step
    case ClaimUpdate(w) => ClaimUpdateKeepsSafe(c, s, w);
    case Start(w, f, a, p) => StartKeepsSafe(c, s, w, f, a, p);
    case Reply(w, a) => ReplyKeepsSafe(c, s, w, a);
    case Record(w) => RecordKeepsSafe(c, s, w);
    case _ => QueueStepsKeepSafe(c, s, step);
  }

  lemma {:induction false} AlwaysSafe(c: Settings, from: int, steps: seq<Step>)
    requires ValidRun(c, from, steps)
    ensures Safe(After(c, from, steps)) && DistinctSelections(After(c, from, steps))
  {
    if steps != [] {
      var before := steps[..|steps| - 1];
      AlwaysSafe(c, from, before);
      StepKeepsSafe(c, After(c, from, before), steps[|steps| - 1]);
    }
  }

  // ------------------------------------------------------------ main theorems

  // Whatever the interleaving, two successful publish_container replies never
  // belong to the same job, nor to jobs of one workspace with the same
  // idempotency key.
  lemma AtMostOncePublish(c: Settings, from: int, steps: seq<Step>, e: nat, f: nat)
    requires ValidRun(c, from, steps)
    requires var s := After(c, from, steps);
             && e < |s.execs| && f < |s.execs| && GotReply(s.execs[e]) && GotReply(s.execs[f])
    ensures var s := After(c, from, steps);
            && s.execs[e].job in s.jobs && s.execs[f].job in s.jobs
            && var (i, j) := (s.jobs[s.execs[e].job], s.jobs[s.execs[f].job]);
            (s.execs[e].job == s.execs[f].job || (i.workspace == j.workspace && i.key == j.key)) ==> e == f
  {
    AlwaysSafe(c, from, steps);
    assert ExecPaired(After(c, from, steps), After(c, from, steps).execs[e], e);
    assert ExecPaired(After(c, from, steps), After(c, from, steps).execs[f], f);
  }

  predicate Terminal(state: JobState) {
    state == Succeeded || state == Failed || state == Cancelled || state == Dead
  }

  lemma StepKeepsTerminal(c: Settings, s: Sys, step: Step, j: int)
    requires Safe(s) && Enabled(s, step) && j in s.jobs && Terminal(s.jobs[j].state)
    ensures j in Apply(c, s, step).jobs && Apply(c, s, step).jobs[j] == s.jobs[j]
  {
    match step
    case Start(w, _, _, _) =>
      assert HeldBy(s, w)[0] == WorkerOf(s, w).todo[0];
    case Reply(w, _) => OnlyInHand(s, w);
    case Record(w) => OnlyInHand(s, w);
    case _ =>
  }

  // A job that ended SUCCEEDED, FAILED, CANCELLED or DEAD keeps its whole row
  // in every continuation of the run.
  lemma {:induction false} EndedJobsNeverChange(c: Settings, from: int, steps: seq<Step>, n: nat, j: int)
    requires ValidRun(c, from, steps) && n <= |steps|
    requires j in StateAt(c, from, steps, n).jobs && Terminal(StateAt(c, from, steps, n).jobs[j].state)
    ensures j in After(c, from, steps).jobs && After(c, from, steps).jobs[j] == StateAt(c, from, steps, n).jobs[j]
  {
    if n == |steps| {
      assert steps[..n] == steps;
    } else {
      var before := steps[..|steps| - 1];
      LastStep(c, from, steps);
      EndedJobsNeverChange(c, from, before, n, j);
      AlwaysSafe(c, from, before);
      StepKeepsTerminal(c, After(c, from, before), steps[|steps| - 1], j);
    }
  }

  // A claim whose SELECT and UPDATE nothing separates leases due jobs only.
  lemma AtomicClaimTakesDueJobs(c: Settings, s: Sys, w: int, ws: int, limit: nat, ids: seq<int>)
    requires Enabled(s, ClaimSelect(w, ws, limit, ids)) && ids != []
    ensures var t := Apply(c, s, ClaimSelect(w, ws, limit, ids));
            && Enabled(t, ClaimUpdate(w))
            && var u := Apply(c, t, ClaimUpdate(w));
            && WorkerOf(u, w) == Batch(ids)
            && (forall i :: 0 <= i < |ids| ==>
                  ids[i] in u.jobs && u.jobs[ids[i]].state == Running && u.jobs[ids[i]].leaseOwner == Some(w)
                  && u.jobs[ids[i]].scheduledFor <= u.now)
  {
    AllClaimable(s.jobs, ids);
  }

  lemma {:induction false} AllClaimable(jobs: map<int, Job>, ids: seq<int>)
    requires forall i :: 0 <= i < |ids| ==> Claimable(jobs, ids[i])
    ensures Claimed(jobs, ids) == ids
  {
    if ids != [] {
      AllClaimable(jobs, ids[1..]);
    }
  }

  // Two workers select the same job; one runs it into a retry before the other
  // updates.
  const C := Settings(5, 100, 2.0, 900.0)

  function EarlyClaim(): seq<Step> {
    [Enqueue(1, true, Request(0, 0, 0, 0, None, false)), ClaimSelect(1, 0, 5, [1]), ClaimSelect(2, 0, 5, [1])]
    + [ClaimUpdate(2), Start(2, true, true, true), Reply(2, MetaAPIError(1, true, 0.0)), ClaimUpdate(1)]
  }

  function FreshJob(): Job {
    NewJob(C, 0, Request(0, 0, 0, 0, None, false))
  }

  lemma BothSelect()
    ensures Reaches(C, 0, EarlyClaim()[..3],
                    Sys(0, map[1 := FreshJob()], [], [], [], map[1 := Selected([1], 0), 2 := Selected([1], 0)]))
  {
    var r := EarlyClaim();
    var s0 := Sys(0, map[], [], [], [], map[]);
    var s1 := Sys(0, map[1 := FreshJob()], [], [], [], map[]);
    var s2 := Sys(0, map[1 := FreshJob()], [], [], [], map[1 := Selected([1], 0)]);
    OneMoreStep(C, 0, [], s0, r[0]);
    OneMoreStep(C, 0, [] + [r[0]], s1, r[1]);
    OneMoreStep(C, 0, [] + [r[0]] + [r[1]], s2, r[2]);
    assert [] + [r[0]] + [r[1]] + [r[2]] == r[..3];
  }

  lemma ClaimOne(c: Settings, s: Sys, w: int, j: int, at: int)
    requires WorkerOf(s, w) == Selected([j], at) && Claimable(s.jobs, j)
    ensures var t := Apply(c, s, ClaimUpdate(w));
            && t == s.(jobs := t.jobs, workers := t.workers)
            && j in t.jobs && t.jobs[j] == ClaimJob(s.jobs[j], w, at)
            && WorkerOf(t, w) == Batch([j])
            && (forall v :: v != w ==> WorkerOf(t, v) == WorkerOf(s, v))
  {
    AllClaimable(s.jobs, [j]);
    assert j in [j];
  }

  // Worker 2 is inside `_publish`; worker 1 still holds its selection.
  ghost predicate OneRuns(s: Sys) {
    && s.now == 0 && s.quota == []
    && 1 in s.jobs && s.jobs[1] == ClaimJob(FreshJob(), 2, 0)
    && s.execs == [Exec(1, 0, 2, 1, 0, InFlight)]
    && WorkerOf(s, 1) == Selected([1], 0) && WorkerOf(s, 2) == Executing(0, [])
  }

  lemma OneStarts(steps: seq<Step>, s: Sys)
    requires Reaches(C, 0, steps, s)
    requires s == Sys(0, map[1 := FreshJob()], [], [], [], map[1 := Selected([1], 0), 2 := Selected([1], 0)])
    ensures ValidRun(C, 0, steps + [ClaimUpdate(2)] + [Start(2, true, true, true)])
    ensures OneRuns(After(C, 0, steps + [ClaimUpdate(2)] + [Start(2, true, true, true)]))
  {
    ClaimOne(C, s, 2, 1, 0);
    OneMoreStep(C, 0, steps, s, ClaimUpdate(2));
    var t := Apply(C, s, ClaimUpdate(2));
    OneMoreStep(C, 0, steps + [ClaimUpdate(2)], t, Start(2, true, true, true));
  }

  lemma OneRetries(steps: seq<Step>, s: Sys)
    requires Reaches(C, 0, steps, s) && OneRuns(s)
    ensures var run := steps + [Reply(2, MetaAPIError(1, true, 0.0))] + [ClaimUpdate(1)];
            && ValidRun(C, 0, run)
            && var t := After(C, 0, run);
            && 1 in t.jobs && t.jobs[1].state == Running && t.jobs[1].leaseOwner == Some(1)
            && t.jobs[1].scheduledFor > t.now
  {
    var fail := Reply(2, MetaAPIError(1, true, 0.0));
    OneMoreStep(C, 0, steps, s, fail);
    var t := Apply(C, s, fail);
    Backoff.JitterBand(1, 2.0, 900.0, 0.0);
    Backoff.FirstDelay(2.0, 900.0);
    assert t.jobs[1].state == Queued && t.jobs[1].scheduledFor > 0;
    ClaimOne(C, t, 1, 1, 0);
    OneMoreStep(C, 0, steps + [fail], t, ClaimUpdate(1));
  }

  lemma NextTwo(steps: seq<Step>, n: nat)
    requires n + 2 <= |steps|
    ensures steps[..n] + [steps[n]] + [steps[n + 1]] == steps[..n + 2]
  {
  }

  lemma OneRunsAfterFive()
    ensures ValidRun(C, 0, EarlyClaim()[..5]) && OneRuns(After(C, 0, EarlyClaim()[..5]))
  {
    var r := EarlyClaim();
    BothSelect();
    OneStarts(r[..3], After(C, 0, r[..3]));
    NextTwo(r, 3);
  }

  // The UPDATE does not look at the schedule again, so an interleaved claim can
  // lease a job before its backoff is over.
  lemma InterleavedClaimCanBeEarly()
    ensures ValidRun(C, 0, EarlyClaim())
    ensures var s := After(C, 0, EarlyClaim());
            && 1 in s.jobs && s.jobs[1].state == Running && s.jobs[1].leaseOwner == Some(1)
            && s.jobs[1].scheduledFor > s.now
  {
    var r := EarlyClaim();
    OneRunsAfterFive();
    OneRetries(r[..5], After(C, 0, r[..5]));
    NextTwo(r, 5);
    assert r[..7] == r;
  }
}
