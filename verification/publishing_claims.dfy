// When a claim is early: the claiming UPDATE does not look at the schedule, so
// whatever happened to a selected job since the SELECT decides.
module PublishingClaims {
  import opened Wrappers
  import opened PublishingModel

  // What a step does to the schedule of a job: nothing, unless it is the answer
  // that sends the job into another retry.
  predicate RetriesJob(s: Sys, step: Step, j: int) {
    && step.Reply? && step.answer.MetaAPIError? && step.answer.transient
    && WorkerOf(s, step.worker).Executing? && WorkerOf(s, step.worker).exec < |s.execs|
    && s.execs[WorkerOf(s, step.worker).exec].job == j
    && j in s.jobs && s.jobs[j].attempts + 1 < s.jobs[j].maxAttempts
  }

  function RetryInstant(c: Settings, s: Sys, step: Step, j: int): int
    requires RetriesJob(s, step, j)
  {
    s.now + DelayMicros(c, s.jobs[j].attempts + 1, step.answer.draw)
  }

  lemma ScheduleAfterStep(c: Settings, s: Sys, step: Step, j: int)
    requires Enabled(s, step) && j in s.jobs
    ensures var t := Apply(c, s, step);
            && j in t.jobs && s.now <= t.now
            && (if RetriesJob(s, step, j)
                then t.jobs[j].scheduledFor == RetryInstant(c, s, step, j) && t.jobs[j].nextRetryAt == Some(t.jobs[j].scheduledFor)
                else t.jobs[j].scheduledFor == s.jobs[j].scheduledFor && t.jobs[j].nextRetryAt == s.jobs[j].nextRetryAt)
  {
  }

  // ------------------------------------------------- seen from the leased row

  // A retry instant, once there is one, is the schedule; a selected job is due
  // unless it has one.
  ghost predicate Scheduled(s: Sys) {
    && (forall j :: j in s.jobs ==> s.jobs[j].nextRetryAt.None? || s.jobs[j].nextRetryAt == Some(s.jobs[j].scheduledFor))
    && (forall w, j :: WorkerOf(s, w).Selected? && j in WorkerOf(s, w).ids ==> DueUnlessRetried(s, j))
  }

  predicate DueUnlessRetried(s: Sys, j: int) {
    j in s.jobs && (s.jobs[j].scheduledFor <= s.now || s.jobs[j].nextRetryAt.Some?)
  }

  lemma SelectionsOnlyStart(c: Settings, s: Sys, step: Step, w: int)
    requires Enabled(s, step) && WorkerOf(Apply(c, s, step), w).Selected?
    ensures if StepOf(step, w) then step.ClaimSelect? && WorkerOf(Apply(c, s, step), w) == Selected(step.ids, s.now)
            else WorkerOf(s, w) == WorkerOf(Apply(c, s, step), w)
  {
  }

  predicate StepOf(step: Step, w: int) {
    match step
    case ClaimSelect(v, _, _, _) => v == w
    case ClaimUpdate(v) => v == w
    case Start(v, _, _, _) => v == w
    case Reply(v, _) => v == w
    case Record(v) => v == w
    case _ => false
  }

  lemma StepKeepsScheduled(c: Settings, s: Sys, step: Step)
    requires Scheduled(s) && Enabled(s, step)
    ensures Scheduled(Apply(c, s, step))
  {
    var t := Apply(c, s, step);
    forall j | j in t.jobs
      ensures t.jobs[j].nextRetryAt.None? || t.jobs[j].nextRetryAt == Some(t.jobs[j].scheduledFor)
    {
      if j in s.jobs {
        ScheduleAfterStep(c, s, step, j);
      }
    }
    forall w, j | WorkerOf(t, w).Selected? && j in WorkerOf(t, w).ids
      ensures DueUnlessRetried(t, j)
    {
      SelectionsOnlyStart(c, s, step, w);
      assert StepOf(step, w) || DueUnlessRetried(s, j);
      ScheduleAfterStep(c, s, step, j);
    }
  }

  lemma {:induction false} AlwaysScheduled(c: Settings, from: int, steps: seq<Step>)
    requires ValidRun(c, from, steps)
    ensures Scheduled(After(c, from, steps))
  {
    if steps != [] {
      AlwaysScheduled(c, from, steps[..|steps| - 1]);
      StepKeepsScheduled(c, After(c, from, steps[..|steps| - 1]), steps[|steps| - 1]);
    }
  }

  // The UPDATE of worker `w` leases the job.
  ghost predicate Leases(c: Settings, s: Sys, w: int, j: int) {
    && Enabled(s, ClaimUpdate(w)) && j in WorkerOf(s, w).ids && Claimable(s.jobs, j)
    && var t := Apply(c, s, ClaimUpdate(w));
    j in t.jobs && t.jobs[j].state == Running && t.jobs[j].leaseOwner == Some(w)
  }

  // The job that an UPDATE leases is due exactly when its row shows no retry
  // instant that is still ahead, whatever was interleaved.
  lemma LeaseIsDueIff(c: Settings, from: int, steps: seq<Step>, w: int, j: int)
    requires ValidRun(c, from, steps)
    requires Enabled(After(c, from, steps), ClaimUpdate(w))
    requires j in WorkerOf(After(c, from, steps), w).ids && Claimable(After(c, from, steps).jobs, j)
    ensures var s := After(c, from, steps);
            && Leases(c, s, w, j)
            && (s.jobs[j].scheduledFor <= s.now <==> s.jobs[j].nextRetryAt.None? || s.jobs[j].nextRetryAt.value <= s.now)
  {
    AlwaysScheduled(c, from, steps);
    assert DueUnlessRetried(After(c, from, steps), j);
  }

  // ------------------------------------------------------- seen from the run

  // The SELECT that the worker's selection comes from; the worker has done
  // nothing since.
  ghost predicate SelectedBy(steps: seq<Step>, n: nat, w: int, ids: seq<int>) {
    && n < |steps| && steps[n].ClaimSelect? && steps[n].worker == w && steps[n].ids == ids
    && (forall m :: n < m < |steps| ==> !StepOf(steps[m], w))
  }

  lemma {:induction false} SelectionHasSelect(c: Settings, from: int, steps: seq<Step>, w: int) returns (n: nat)
    requires ValidRun(c, from, steps) && WorkerOf(After(c, from, steps), w).Selected?
    ensures SelectedBy(steps, n, w, WorkerOf(After(c, from, steps), w).ids)
  {
    LastStep(c, from, steps);
    n := |steps| - 1;
    SelectionsOnlyStart(c, After(c, from, steps[..n]), steps[n], w);
    if !StepOf(steps[n], w) {
      n := SelectionHasSelect(c, from, steps[..n], w);
    }
  }

  // The instant to which the last retry of the job after step `n` put it off.
  ghost function PutOffSince(c: Settings, from: int, steps: seq<Step>, n: nat, j: int): Option<int>
    requires ValidRun(c, from, steps)
  {
    if |steps| <= n + 1 then None
    else
      var before := steps[..|steps| - 1];
      var step := steps[|steps| - 1];
      var s := After(c, from, before);
      if RetriesJob(s, step, j) then Some(RetryInstant(c, s, step, j)) else PutOffSince(c, from, before, n, j)
  }

  // The schedule of a job is what its last retry set, or what it was.
  lemma {:induction false} LastRetrySetsSchedule(c: Settings, from: int, steps: seq<Step>, n: nat, j: int)
    requires ValidRun(c, from, steps) && n < |steps| && !steps[n].Reply? && j in StateAt(c, from, steps, n).jobs
    ensures j in After(c, from, steps).jobs && StateAt(c, from, steps, n).now <= After(c, from, steps).now
    ensures After(c, from, steps).jobs[j].scheduledFor
         == match PutOffSince(c, from, steps, n, j)
            case Some(t) => t
            case None => StateAt(c, from, steps, n).jobs[j].scheduledFor
  {
    var last := |steps| - 1;
    var before := steps[..last];
    LastStep(c, from, steps);
    if n < last {
      assert StateAt(c, from, before, n) == StateAt(c, from, steps, n);
      LastRetrySetsSchedule(c, from, before, n, j);
    }
    ScheduleAfterStep(c, After(c, from, before), steps[last], j);
  }

  // A job is leased before its time exactly when it was run into a retry after
  // the SELECT, hence by another worker, and the backoff of the last such retry
  // is not over.
  lemma EarlyIffRetriedMeanwhile(c: Settings, from: int, steps: seq<Step>, w: int, j: int) returns (n: nat)
    requires ValidRun(c, from, steps)
    requires Enabled(After(c, from, steps), ClaimUpdate(w))
    requires j in WorkerOf(After(c, from, steps), w).ids && Claimable(After(c, from, steps).jobs, j)
    ensures SelectedBy(steps, n, w, WorkerOf(After(c, from, steps), w).ids)
    ensures var s := After(c, from, steps);
            var retried := PutOffSince(c, from, steps, n, j);
            && Leases(c, s, w, j)
            && (s.jobs[j].scheduledFor > s.now <==> retried.Some? && retried.value > s.now)
  {
    n := SelectionHasSelect(c, from, steps, w);
    SelectTakesDue(c, from, steps, n, j);
    LeaseIsDueIff(c, from, steps, w, j);
    LastRetrySetsSchedule(c, from, steps, n, j);
  }

  lemma SelectTakesDue(c: Settings, from: int, steps: seq<Step>, n: nat, j: int)
    requires ValidRun(c, from, steps) && n < |steps| && steps[n].ClaimSelect? && j in steps[n].ids
    ensures var s := StateAt(c, from, steps, n);
            j in s.jobs && s.jobs[j].scheduledFor <= s.now
  {
    PrefixIsValid(c, from, steps, n + 1);
    assert steps[..n + 1][..n] == steps[..n];
    assert Enabled(StateAt(c, from, steps, n), steps[n]);
  }
}
