// The life of a job: which step moves it from which state to which, what its
// rows say on the way, and what an execution must have passed.
module PublishingLifecycle {
  import opened Wrappers
  import opened PublishingModel
  import opened PublishingSafety
  import opened PublishingAttempts

  // ------------------------------------------------------- the state machine

  // The job that a worker has in hand.
  predicate InHand(s: Sys, w: int, j: int) {
    (WorkerOf(s, w).Executing? || WorkerOf(s, w).Published?) && JobOf(s.execs, WorkerOf(s, w).exec) == j
  }

  // The job that a worker looks at next.
  predicate IsNext(s: Sys, w: int, j: int) {
    WorkerOf(s, w).Batch? && WorkerOf(s, w).todo != [] && WorkerOf(s, w).todo[0] == j
  }

  predicate Cancels(s: Sys, step: Step, j: int) {
    step == Cancel(j)
  }

  predicate Leases(s: Sys, step: Step, j: int) {
    step.ClaimUpdate? && WorkerOf(s, step.worker).Selected? && j in WorkerOf(s, step.worker).ids
  }

  // The content awaits approval.
  predicate Bounces(s: Sys, step: Step, j: int)
    requires j in s.jobs
  {
    step.Start? && IsNext(s, step.worker, j) && step.found && s.jobs[j].requiresApproval && !step.approved
  }

  // A transient error of its execution; `last` when the attempts are used up.
  predicate Retried(s: Sys, step: Step, j: int, last: bool)
    requires j in s.jobs
  {
    && step.Reply? && InHand(s, step.worker, j) && step.answer.MetaAPIError? && step.answer.transient
    && (last <==> s.jobs[j].attempts + 1 >= s.jobs[j].maxAttempts)
  }

  predicate Fails(s: Sys, step: Step, j: int) {
    && step.Reply? && InHand(s, step.worker, j)
    && (step.answer.ValidationError? || (step.answer.MetaAPIError? && !step.answer.transient))
  }

  predicate Succeeds(s: Sys, step: Step, j: int) {
    step.Record? && InHand(s, step.worker, j)
  }

  ghost predicate QueuedMoves(s: Sys, t: Sys, step: Step, j: int)
    requires j in s.jobs && j in t.jobs
  {
    && (t.jobs[j].state == Cancelled <==> Cancels(s, step, j))
    && (t.jobs[j].state == Running <==> Leases(s, step, j))
    && (t.jobs[j].state == Queued <==> !Cancels(s, step, j) && !Leases(s, step, j))
  }

  ghost predicate RunningMoves(s: Sys, t: Sys, step: Step, j: int)
    requires j in s.jobs && j in t.jobs
  {
    && (t.jobs[j].state == Queued <==> Bounces(s, step, j) || Retried(s, step, j, false))
    && (t.jobs[j].state == Dead <==> Retried(s, step, j, true))
    && (t.jobs[j].state == Failed <==> Fails(s, step, j))
    && (t.jobs[j].state == Succeeded <==> Succeeds(s, step, j))
    && t.jobs[j].state != Cancelled
  }

  lemma ReplyMoves(c: Settings, s: Sys, w: int, a: Answer, j: int)
    requires Safe(s) && Enabled(s, Reply(w, a)) && j in s.jobs
    ensures var t := Apply(c, s, Reply(w, a));
            && j in t.jobs
            && (s.jobs[j].state == Queued ==> QueuedMoves(s, t, Reply(w, a), j))
            && (s.jobs[j].state == Running ==> RunningMoves(s, t, Reply(w, a), j))
  {
    OnlyInHand(s, w);
  }

  lemma RecordMoves(c: Settings, s: Sys, w: int, j: int)
    requires Safe(s) && Enabled(s, Record(w)) && j in s.jobs
    ensures var t := Apply(c, s, Record(w));
            && j in t.jobs
            && (s.jobs[j].state == Queued ==> QueuedMoves(s, t, Record(w), j))
            && (s.jobs[j].state == Running ==> RunningMoves(s, t, Record(w), j))
  {
    OnlyInHand(s, w);
  }

  lemma StartMoves(c: Settings, s: Sys, step: Step, j: int)
    requires Safe(s) && Enabled(s, step) && step.Start? && j in s.jobs
    ensures var t := Apply(c, s, step);
            && j in t.jobs
            && (s.jobs[j].state == Queued ==> QueuedMoves(s, t, step, j))
            && (s.jobs[j].state == Running ==> RunningMoves(s, t, step, j))
  {
    assert HeldBy(s, step.worker)[0] == WorkerOf(s, step.worker).todo[0];
  }

  // Exactly which steps move a job, and where to; an ended job stays.
  lemma JobMovesIff(c: Settings, s: Sys, step: Step, j: int)
    requires Safe(s) && Enabled(s, step) && j in s.jobs
    ensures var t := Apply(c, s, step);
            && j in t.jobs
            && (s.jobs[j].state == Queued ==> QueuedMoves(s, t, step, j))
            && (s.jobs[j].state == Running ==> RunningMoves(s, t, step, j))
            && (Terminal(s.jobs[j].state) ==> t.jobs[j] == s.jobs[j])
  {
    match step
    case Start(_, _, _, _) =>
      StartMoves(c, s, step, j);
      if Terminal(s.jobs[j].state) { StepKeepsTerminal(c, s, step, j); }
    case Reply(w, a) =>
      ReplyMoves(c, s, w, a, j);
      if Terminal(s.jobs[j].state) { StepKeepsTerminal(c, s, step, j); }
    case Record(w) =>
      RecordMoves(c, s, w, j);
      if Terminal(s.jobs[j].state) { StepKeepsTerminal(c, s, step, j); }
    case _ =>
  }

  // ----------------------------------------------------------------- cancelling

  lemma StepKeepsExecs(c: Settings, s: Sys, step: Step)
    requires Enabled(s, step)
    ensures |s.execs| <= |Apply(c, s, step).execs| <= |s.execs| + 1
    ensures forall e :: 0 <= e < |s.execs| ==>
              && Apply(c, s, step).execs[e].job == s.execs[e].job && Apply(c, s, step).execs[e].account == s.execs[e].account
              && Apply(c, s, step).execs[e].number == s.execs[e].number && Apply(c, s, step).execs[e].checkedAt == s.execs[e].checkedAt
  {
  }

  lemma {:induction false} EndedJobsAreNotExecuted(c: Settings, from: int, steps: seq<Step>, n: nat, j: int)
    requires ValidRun(c, from, steps) && n <= |steps|
    requires j in StateAt(c, from, steps, n).jobs && Terminal(StateAt(c, from, steps, n).jobs[j].state)
    ensures ExecsOf(After(c, from, steps).execs, j) == ExecsOf(StateAt(c, from, steps, n).execs, j)
  {
    if n == |steps| {
      assert steps[..n] == steps;
    } else {
      var before := steps[..|steps| - 1];
      LastStep(c, from, steps);
      EndedJobsAreNotExecuted(c, from, before, n, j);
      EndedJobsNeverChange(c, from, before, n, j);
      AlwaysSafe(c, from, before);
      EndedJobIsNotStarted(c, After(c, from, before), steps[|steps| - 1], j);
    }
  }

  lemma EndedJobIsNotStarted(c: Settings, s: Sys, step: Step, j: int)
    requires Safe(s) && Enabled(s, step) && j in s.jobs && Terminal(s.jobs[j].state)
    ensures ExecsOf(Apply(c, s, step).execs, j) == ExecsOf(s.execs, j)
  {
    StepKeepsExecs(c, s, step);
    if step.Start? {
      assert HeldBy(s, step.worker)[0] == WorkerOf(s, step.worker).todo[0];
    }
  }

  // A job that is QUEUED when it is cancelled is CANCELLED in every
  // continuation, and Meta never sees it again.
  lemma CancelIsFinal(c: Settings, from: int, steps: seq<Step>, n: nat, j: int)
    requires ValidRun(c, from, steps) && n < |steps| && steps[n] == Cancel(j)
    requires j in StateAt(c, from, steps, n).jobs && StateAt(c, from, steps, n).jobs[j].state == Queued
    ensures var s := StateAt(c, from, steps, n);
            var t := After(c, from, steps);
            && j in t.jobs && t.jobs[j].state == Cancelled && t.jobs[j].finishedAt == Some(s.now)
            && ExecsOf(t.execs, j) == ExecsOf(s.execs, j)
  {
    PrefixIsValid(c, from, steps, n + 1);
    LastStep(c, from, steps[..n + 1]);
    assert steps[..n + 1][..n] == steps[..n];
    AlwaysSafe(c, from, steps[..n]);
    JobMovesIff(c, StateAt(c, from, steps, n), Cancel(j), j);
    EndedJobsNeverChange(c, from, steps, n + 1, j);
    EndedJobsAreNotExecuted(c, from, steps, n + 1, j);
  }

  // ------------------------------------------------------------ what rows say

  // The columns that agree with the state in every reachable state.
  predicate RowAgrees(job: Job) {
    && (job.finishedAt.Some? <==> Terminal(job.state))
    && (job.mediaId.Some? <==> job.state == Succeeded)
    && (job.state == Running ==> job.leaseOwner.Some? && job.leaseExpiresAt.Some? && job.startedAt.Some?)
    && (job.state == Dead || job.state == Failed ==> !job.retryable && job.lastError != NoError)
    && (job.state == Dead || job.state == Succeeded ==> job.leaseOwner.None?)
  }

  lemma {:induction false} RowsAgree(c: Settings, from: int, steps: seq<Step>, j: int)
    requires ValidRun(c, from, steps)
    ensures j in After(c, from, steps).jobs ==> RowAgrees(After(c, from, steps).jobs[j])
  {
    if steps != [] {
      var before := steps[..|steps| - 1];
      RowsAgree(c, from, before, j);
      AlwaysSafe(c, from, before);
      StepKeepsRowAgrees(c, After(c, from, before), steps[|steps| - 1], j);
    }
  }

  lemma StepKeepsRowAgrees(c: Settings, s: Sys, step: Step, j: int)
    requires Safe(s) && Enabled(s, step) && (j in s.jobs ==> RowAgrees(s.jobs[j]))
    ensures j in Apply(c, s, step).jobs ==> RowAgrees(Apply(c, s, step).jobs[j])
  {
    match step
    case Start(w, _, _, _) =>
      assert HeldBy(s, w)[0] == WorkerOf(s, w).todo[0];
    case Reply(w, _) => OnlyInHand(s, w);
    case Record(w) => OnlyInHand(s, w);
    case _ =>
  }

  // A lease names its worker and ends five minutes after the SELECT.
  lemma LeaseRow(c: Settings, s: Sys, w: int, j: int)
    requires Enabled(s, ClaimUpdate(w)) && j in WorkerOf(s, w).ids && Claimable(s.jobs, j)
    ensures var at := WorkerOf(s, w).at;
            Apply(c, s, ClaimUpdate(w)).jobs[j]
            == s.jobs[j].(state := Running, startedAt := Some(at), leaseOwner := Some(w), leaseExpiresAt := Some(at + 300_000_000))
  {
  }

  // A failed execution counts one attempt if the error was transient and none
  // otherwise; only a job that will be retried has no end and no lease, and the
  // error's code is kept.
  lemma RowAfterError(c: Settings, s: Sys, w: int, a: Answer, j: int)
    requires Safe(s) && Enabled(s, Reply(w, a)) && InHand(s, w, j) && !a.Success?
    ensures j in s.jobs && j in Apply(c, s, Reply(w, a)).jobs
    ensures var (before, after) := (s.jobs[j], Apply(c, s, Reply(w, a)).jobs[j]);
            && after.attempts == before.attempts + (if a.MetaAPIError? && a.transient then 1 else 0)
            && (a.MetaAPIError? ==> after.lastError == MetaCode(a.code) && after.leaseOwner.None?)
            && (a.ValidationError? ==> after.lastError == ValidationFailed)
            && (after.retryable <==> after.state == Queued)
            && (after.state == Queued ==> after.leaseExpiresAt.None? && after.nextRetryAt == Some(after.scheduledFor))
            && (after.state != Queued ==> after.finishedAt == Some(s.now) && after.scheduledFor == before.scheduledFor)
  {
    OnlyInHand(s, w);
  }

  // A job that awaits approval goes back to the queue with that reason; its
  // attempts, its schedule and its lease stay.
  lemma RowAfterBounce(c: Settings, s: Sys, step: Step, j: int)
    requires Safe(s) && Enabled(s, step) && j in s.jobs && Bounces(s, step, j)
    ensures Apply(c, s, step).jobs == s.jobs[j := s.jobs[j].(state := Queued, lastError := ApprovalRequired)]
    ensures Apply(c, s, step).execs == s.execs && WorkerOf(Apply(c, s, step), step.worker) == Rest(WorkerOf(s, step.worker).todo[1..])
  {
  }

  // A published job has the number of its last execution as its attempts.
  lemma RowAfterSuccess(c: Settings, s: Sys, w: int, j: int)
    requires Safe(s) && Enabled(s, Record(w)) && InHand(s, w, j)
    ensures j in Apply(c, s, Record(w)).jobs
    ensures var after := Apply(c, s, Record(w)).jobs[j];
            && after.state == Succeeded && after.mediaId == Some(WorkerOf(s, w).media) && after.finishedAt == Some(s.now)
            && after.attempts == s.execs[WorkerOf(s, w).exec].number
            && after.leaseOwner.None? && after.leaseExpiresAt.None?
  {
    OnlyInHand(s, w);
  }

  // The row shows what was asked for.
  predicate AsRequested(c: Settings, job: Job, r: Request) {
    && job.workspace == r.workspace && job.content == r.content && job.account == r.account && job.key == r.key
    && job.requiresApproval == r.requiresApproval && job.maxAttempts == c.maxAttempts
  }

  // Every job comes from one enqueue of a usable account under a free key, is
  // QUEUED for the requested time or at once, and keeps what was asked for.
  lemma {:induction false} JobsAreRequested(c: Settings, from: int, steps: seq<Step>, j: int) returns (n: nat)
    requires ValidRun(c, from, steps) && j in After(c, from, steps).jobs
    ensures n < |steps| && steps[n].Enqueue? && steps[n].job == j && steps[n].usable
    ensures AsRequested(c, After(c, from, steps).jobs[j], steps[n].request)
    ensures j !in StateAt(c, from, steps, n).jobs && FreshlyQueued(c, StateAt(c, from, steps, n), steps[n])
  {
    LastStep(c, from, steps);
    var before := steps[..|steps| - 1];
    var s := After(c, from, before);
    n := |before|;
    JobAfterStep(c, s, steps[n], j);
    if j in s.jobs {
      n := JobsAreRequested(c, from, before, j);
      assert StateAt(c, from, before, n) == StateAt(c, from, steps, n);
    }
  }

  // What an enqueue that makes a job leaves behind.
  ghost predicate FreshlyQueued(c: Settings, s: Sys, step: Step) {
    && step.Enqueue? && Enabled(s, step) && !KeyTaken(s.jobs, step.request.workspace, step.request.key)
    && var t := Apply(c, s, step);
    && step.job in t.jobs
    && var job := t.jobs[step.job];
    && job.state == Queued && job.attempts == 0 && job.leaseOwner.None? && job.nextRetryAt.None?
    && (step.request.scheduledFor.Some? ==> job.scheduledFor == step.request.scheduledFor.value)
    && (step.request.scheduledFor.None? ==> job.scheduledFor == s.now)
  }

  lemma JobAfterStep(c: Settings, s: Sys, step: Step, j: int)
    requires Enabled(s, step) && j in Apply(c, s, step).jobs
    ensures j in s.jobs ==>
              var (a, b) := (s.jobs[j], Apply(c, s, step).jobs[j]);
              && b.workspace == a.workspace && b.content == a.content && b.account == a.account && b.key == a.key
              && b.requiresApproval == a.requiresApproval && b.maxAttempts == a.maxAttempts
    ensures j !in s.jobs ==>
              && step.Enqueue? && step.job == j && step.usable && FreshlyQueued(c, s, step)
              && AsRequested(c, Apply(c, s, step).jobs[j], step.request)
  {
  }

  // An enqueue makes a job exactly if the account is usable and the key is free.
  lemma EnqueueMakesJobIff(c: Settings, s: Sys, j: int, usable: bool, r: Request)
    requires Enabled(s, Enqueue(j, usable, r))
    ensures j in Apply(c, s, Enqueue(j, usable, r)).jobs
       <==> usable && forall i :: i in s.jobs ==> s.jobs[i].workspace != r.workspace || s.jobs[i].key != r.key
  {
  }

  // ------------------------------------------------------ what Meta gets to see

  // An execution is opened exactly by a start whose rows are found, whose
  // content is approved where that is required, whose account has published
  // less than min(limit, 100) in the rows of the last 24 hours, and whose
  // preflight passed; it is the execution of the worker's next job.
  lemma ExecutionOpensIff(c: Settings, s: Sys, step: Step)
    requires Enabled(s, step)
    ensures |Apply(c, s, step).execs| == |s.execs| + 1 <==>
              && step.Start? && step.found && step.preflight
              && var job := s.jobs[WorkerOf(s, step.worker).todo[0]];
              && (job.requiresApproval ==> step.approved)
              && UsedSince(s.quota, job.account, s.now - 86_400_000_000) < Min(c.guardLimit, 100)
    ensures |Apply(c, s, step).execs| == |s.execs| + 1 ==>
              var x := Apply(c, s, step).execs[|s.execs|];
              && IsNext(s, step.worker, x.job) && x.job in s.jobs && x.account == s.jobs[x.job].account
              && x.number == s.jobs[x.job].attempts + 1 && x.checkedAt == s.now && x.status.InFlight?
  {
    StepKeepsExecs(c, s, step);
  }

  // --------------------------------------------------------------- the error log

  // What the code of an error says about it.
  predicate Classified(outcome: Outcome, code: int, transient: bool) {
    && (outcome == RateLimited <==> code == 4 || code == 17 || code == 32 || code == 613 || code == 80004)
    && (outcome == RetryableError ==> transient)
    && (outcome == PermanentError ==> !transient)
  }

  // The log grows exactly by the Meta errors of executions, one row each, with
  // the number of the execution and the class of the error.
  lemma LogGrowsByErrors(c: Settings, s: Sys, step: Step)
    requires Enabled(s, step)
    ensures var t := Apply(c, s, step);
            if step.Reply? && step.answer.MetaAPIError? then
              && |t.attempts| == |s.attempts| + 1 && t.attempts[..|s.attempts|] == s.attempts
              && var row := t.attempts[|s.attempts|];
              && row.job == s.execs[WorkerOf(s, step.worker).exec].job
              && row.number == s.execs[WorkerOf(s, step.worker).exec].number
              && row.code == step.answer.code && Classified(row.outcome, step.answer.code, step.answer.transient)
            else t.attempts == s.attempts
  {
  }
}
