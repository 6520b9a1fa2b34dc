// The publishing engine of app/modules/publishing/service.py as a transition
// system: jobs, quota rows and the attempt log, worked on by any number of
// `process_due_jobs` workers whose steps interleave. Instants are microseconds.
module PublishingModel {
  import opened Wrappers
  import Backoff

  const SECOND: int := 1_000_000
  const HOUR: int := 3_600 * SECOND
  const LEASE: int := 300 * SECOND

  datatype Settings = Settings(maxAttempts: int, guardLimit: int, backoffBase: real, backoffCap: real)

  // -------------------------------------------------------------------- rows

  datatype JobState = Queued | Running | Succeeded | Failed | Cancelled | Dead

  datatype JobError = NoError | ApprovalRequired | ValidationFailed | MetaCode(code: int)

  datatype Job = Job(
    workspace: int, content: int, account: int, key: int,
    state: JobState, scheduledFor: int, requiresApproval: bool,
    attempts: nat, maxAttempts: int,
    startedAt: Option<int>, finishedAt: Option<int>, nextRetryAt: Option<int>,
    leaseOwner: Option<int>, leaseExpiresAt: Option<int>,
    retryable: bool, lastError: JobError, mediaId: Option<int>)

  datatype Outcome = RateLimited | RetryableError | PermanentError

  // A row of publishing_attempts.
  datatype Attempt = Attempt(job: int, number: nat, outcome: Outcome, code: int)

  // A row of publishing_quota; an account belongs to one workspace.
  datatype QuotaRow = QuotaRow(account: int, windowStart: int, used: nat)

  // ----------------------------------------------------------------- history

  // One Meta-facing execution of a job, from the quota check on. `Replied` and
  // `Recorded` are the successful `publish_container` replies.
  datatype ExecStatus = InFlight | Replied(replyAt: int) | Recorded(replyAt: int, at: int) | Ended

  datatype Exec = Exec(job: int, account: int, worker: int, number: nat, checkedAt: int, status: ExecStatus)

  // Where a worker stands: between the SELECT and the UPDATE of a claim, with
  // claimed jobs to do, inside `_publish`, or after it and before the commit.
  datatype Worker =
    | Idle
    | Selected(ids: seq<int>, at: int)
    | Batch(todo: seq<int>)
    | Executing(exec: nat, todo: seq<int>)
    | Published(exec: nat, media: int, todo: seq<int>)

  datatype Sys = Sys(
    now: int, jobs: map<int, Job>, quota: seq<QuotaRow>, attempts: seq<Attempt>,
    execs: seq<Exec>, workers: map<int, Worker>)

  function WorkerOf(s: Sys, w: int): Worker {
    if w in s.workers then s.workers[w] else Idle
  }

  function Rest(todo: seq<int>): Worker {
    if todo == [] then Idle else Batch(todo)
  }

  // ------------------------------------------------------------------- queue

  predicate KeyTaken(jobs: map<int, Job>, workspace: int, key: int) {
    exists j :: j in jobs && jobs[j].workspace == workspace && jobs[j].key == key
  }

  function NewJob(c: Settings, now: int, r: Request): Job {
    Job(r.workspace, r.content, r.account, r.key, Queued,
        if r.scheduledFor.Some? then r.scheduledFor.value else now, r.requiresApproval,
        0, c.maxAttempts, None, None, None, None, None, true, NoError, None)
  }

  datatype Request = Request(workspace: int, content: int, account: int, key: int,
                             scheduledFor: Option<int>, requiresApproval: bool)

  predicate Due(job: Job, workspace: int, now: int) {
    job.workspace == workspace && job.state == Queued && job.scheduledFor <= now
  }

  // The answer of the claim's SELECT: at most `limit` due jobs, earliest first.
  ghost predicate IsSelection(jobs: map<int, Job>, workspace: int, limit: nat, now: int, ids: seq<int>) {
    && |ids| <= limit
    && (forall i :: 0 <= i < |ids| ==> ids[i] in jobs && Due(jobs[ids[i]], workspace, now))
    && (forall i, k :: 0 <= i < k < |ids| ==> ids[i] != ids[k] && jobs[ids[i]].scheduledFor <= jobs[ids[k]].scheduledFor)
    && (forall j :: j in jobs && Due(jobs[j], workspace, now) && j !in ids ==>
          |ids| == limit && forall i :: 0 <= i < |ids| ==> jobs[ids[i]].scheduledFor <= jobs[j].scheduledFor)
  }

  // The claim's UPDATE: it re-checks the state, not the schedule.
  function ClaimJob(job: Job, w: int, at: int): Job {
    job.(state := Running, startedAt := Some(at), leaseOwner := Some(w), leaseExpiresAt := Some(at + LEASE))
  }

  predicate Claimable(jobs: map<int, Job>, j: int) {
    j in jobs && jobs[j].state == Queued
  }

  function ClaimJobs(jobs: map<int, Job>, ids: seq<int>, w: int, at: int): map<int, Job> {
    map j | j in jobs :: if j in ids && jobs[j].state == Queued then ClaimJob(jobs[j], w, at) else jobs[j]
  }

  function Claimed(jobs: map<int, Job>, ids: seq<int>): seq<int> {
    if ids == [] then []
    else if Claimable(jobs, ids[0]) then [ids[0]] + Claimed(jobs, ids[1..])
    else Claimed(jobs, ids[1..])
  }

  // ------------------------------------------------------------------- quota

  function HourFloor(t: int): int {
    t - t % HOUR
  }

  function Guard(c: Settings): int {
    Min(c.guardLimit, 100)
  }

  // sum(used) over the rows of an account whose window starts at `since` or later.
  function UsedSince(rows: seq<QuotaRow>, account: int, since: int): nat {
    if rows == [] then 0
    else
      var r := rows[|rows| - 1];
      UsedSince(rows[..|rows| - 1], account, since)
      + (if r.account == account && r.windowStart >= since then r.used else 0)
  }

  predicate QuotaLeft(c: Settings, rows: seq<QuotaRow>, account: int, now: int) {
    UsedSince(rows, account, now - 24 * HOUR) < Guard(c)
  }

  // The row of an account and hour, or |rows|.
  function QuotaIndex(rows: seq<QuotaRow>, account: int, hour: int): (i: nat)
    ensures i <= |rows|
    ensures i < |rows| ==> rows[i].account == account && rows[i].windowStart == hour
    ensures forall j :: 0 <= j < i ==> rows[j].account != account || rows[j].windowStart != hour
  {
    if rows == [] then 0
    else if rows[0].account == account && rows[0].windowStart == hour then 0
    else 1 + QuotaIndex(rows[1..], account, hour)
  }

  function IncrementQuota(rows: seq<QuotaRow>, account: int, now: int): seq<QuotaRow> {
    var i := QuotaIndex(rows, account, HourFloor(now));
    if i < |rows| then rows[i := rows[i].(used := rows[i].used + 1)]
    else rows + [QuotaRow(account, HourFloor(now), 1)]
  }

  // ----------------------------------------------------------- job transitions

  function BounceJob(job: Job): Job {
    job.(state := Queued, lastError := ApprovalRequired)
  }

  function DelayMicros(c: Settings, attempt: int, u: real): int {
    (Backoff.Jittered(attempt, c.backoffBase, c.backoffCap, u) * 1000000.0 + 0.5).Floor
  }

  function DeadJob(job: Job, now: int, code: int): Job {
    job.(state := Dead, finishedAt := Some(now), retryable := false, lastError := MetaCode(code), leaseOwner := None)
  }

  // _schedule_retry
  function RetryJob(c: Settings, job: Job, now: int, code: int, u: real): Job {
    var j := job.(attempts := job.attempts + 1);
    if j.attempts >= j.maxAttempts then DeadJob(j, now, code)
    else
      var at := now + DelayMicros(c, j.attempts, u);
      j.(state := Queued, nextRetryAt := Some(at), scheduledFor := at, retryable := true,
         lastError := MetaCode(code), leaseOwner := None, leaseExpiresAt := None)
  }

  // _fail
  function FailJob(job: Job, now: int, code: int): Job {
    job.(state := Failed, finishedAt := Some(now), retryable := false, lastError := MetaCode(code), leaseOwner := None)
  }

  function InvalidJob(job: Job, now: int): Job {
    job.(state := Failed, finishedAt := Some(now), retryable := false, lastError := ValidationFailed)
  }

  function SucceedJob(job: Job, now: int, number: nat, media: int): Job {
    job.(state := Succeeded, finishedAt := Some(now), attempts := number, mediaId := Some(media),
         leaseOwner := None, leaseExpiresAt := None)
  }

  // _record_attempt
  function OutcomeOf(code: int, transient: bool): Outcome {
    if code in {4, 17, 32, 613, 80004} then RateLimited
    else if transient then RetryableError
    else PermanentError
  }

  // ------------------------------------------------------------------- steps

  // What `_publish` ends in: a publish_container reply, a MetaAPIError (with
  // the random draw that a retry would use) or a ValidationError.
  datatype Answer = Success(media: int) | MetaAPIError(code: int, transient: bool, draw: real) | ValidationError

  datatype Step =
    | Tick(elapsed: nat)
    | Enqueue(job: int, usable: bool, request: Request)
    | Cancel(job: int)
    | ClaimSelect(worker: int, workspace: int, limit: nat, ids: seq<int>)
    | ClaimUpdate(worker: int)
    // process_job up to `_publish`: rows found, approved, preflight passed.
    | Start(worker: int, found: bool, approved: bool, preflight: bool)
    | Reply(worker: int, answer: Answer)
    | Record(worker: int)

  ghost predicate Enabled(s: Sys, step: Step) {
    match step
    case Tick(_) => true
    case Enqueue(j, _, _) => j !in s.jobs
    case Cancel(j) => j in s.jobs
    case ClaimSelect(w, ws, limit, ids) => WorkerOf(s, w).Idle? && IsSelection(s.jobs, ws, limit, s.now, ids)
    case ClaimUpdate(w) => WorkerOf(s, w).Selected?
    case Start(w, _, _, _) => WorkerOf(s, w).Batch? && WorkerOf(s, w).todo != [] && WorkerOf(s, w).todo[0] in s.jobs
    case Reply(w, a) =>
      && WorkerOf(s, w).Executing? && WorkerOf(s, w).exec < |s.execs| && s.execs[WorkerOf(s, w).exec].job in s.jobs
      && (a.MetaAPIError? ==> Backoff.Draw(a.draw))
    case Record(w) =>
      && WorkerOf(s, w).Published? && WorkerOf(s, w).exec < |s.execs|
      && s.execs[WorkerOf(s, w).exec].job in s.jobs && s.execs[WorkerOf(s, w).exec].status.Replied?
  }

  function SetWorker(s: Sys, w: int, k: Worker): Sys {
    s.(workers := s.workers[w := k])
  }

  function SetJob(s: Sys, j: int, job: Job): Sys {
    s.(jobs := s.jobs[j := job])
  }

  function SetStatus(s: Sys, e: nat, status: ExecStatus): Sys
    requires e < |s.execs|
  {
    s.(execs := s.execs[e := s.execs[e].(status := status)])
  }

  function DoStart(c: Settings, s: Sys, w: int, j: int, todo: seq<int>, found: bool, approved: bool, preflight: bool): Sys
    requires j in s.jobs
  {
    var job := s.jobs[j];
    if !found then SetWorker(s, w, Rest(todo))
    else if job.requiresApproval && !approved then SetWorker(SetJob(s, j, BounceJob(job)), w, Rest(todo))
    else if !QuotaLeft(c, s.quota, job.account, s.now) || !preflight then SetWorker(s, w, Rest(todo))
    else SetWorker(s.(execs := s.execs + [Exec(j, job.account, w, job.attempts + 1, s.now, InFlight)]),
                   w, Executing(|s.execs|, todo))
  }

  function DoReply(c: Settings, s: Sys, w: int, e: nat, todo: seq<int>, a: Answer): Sys
    requires e < |s.execs| && s.execs[e].job in s.jobs
  {
    var j := s.execs[e].job;
    var job := s.jobs[j];
    match a
    case Success(media) => SetWorker(SetStatus(s, e, Replied(s.now)), w, Published(e, media, todo))
    case MetaAPIError(code, transient, u) =>
      var job' := if transient then RetryJob(c, job, s.now, code, u) else FailJob(job, s.now, code);
      var logged := s.(attempts := s.attempts + [Attempt(j, s.execs[e].number, OutcomeOf(code, transient), code)]);
      SetWorker(SetStatus(SetJob(logged, j, job'), e, Ended), w, Rest(todo))
    case ValidationError =>
      SetWorker(SetStatus(SetJob(s, j, InvalidJob(job, s.now)), e, Ended), w, Rest(todo))
  }

  function DoRecord(s: Sys, w: int, e: nat, media: int, todo: seq<int>): Sys
    requires e < |s.execs| && s.execs[e].job in s.jobs && s.execs[e].status.Replied?
  {
    var x := s.execs[e];
    var done := SetJob(s, x.job, SucceedJob(s.jobs[x.job], s.now, x.number, media));
    var counted := done.(quota := IncrementQuota(s.quota, x.account, s.now));
    SetWorker(SetStatus(counted, e, Recorded(x.status.replyAt, s.now)), w, Rest(todo))
  }

  ghost function Apply(c: Settings, s: Sys, step: Step): Sys
    requires Enabled(s, step)
  {
    match step
    case Tick(d) => s.(now := s.now + d)
    case Enqueue(j, usable, r) =>
      if !usable || KeyTaken(s.jobs, r.workspace, r.key) then s else SetJob(s, j, NewJob(c, s.now, r))
    case Cancel(j) =>
      if s.jobs[j].state != Queued then s
      else SetJob(s, j, s.jobs[j].(state := Cancelled, finishedAt := Some(s.now)))
    case ClaimSelect(w, ws, limit, ids) => SetWorker(s, w, if ids == [] then Idle else Selected(ids, s.now))
    case ClaimUpdate(w) =>
      var k := WorkerOf(s, w);
      SetWorker(s.(jobs := ClaimJobs(s.jobs, k.ids, w, k.at)), w, Rest(Claimed(s.jobs, k.ids)))
    case Start(w, found, approved, preflight) =>
      var todo := WorkerOf(s, w).todo;
      DoStart(c, s, w, todo[0], todo[1..], found, approved, preflight)
    case Reply(w, a) => DoReply(c, s, w, WorkerOf(s, w).exec, WorkerOf(s, w).todo, a)
    case Record(w) => DoRecord(s, w, WorkerOf(s, w).exec, WorkerOf(s, w).media, WorkerOf(s, w).todo)
  }

  // -------------------------------------------------------------------- runs

  ghost predicate ValidRun(c: Settings, from: int, steps: seq<Step>)
    decreases |steps|, 0
  {
    steps != [] ==>
      && ValidRun(c, from, steps[..|steps| - 1])
      && Enabled(After(c, from, steps[..|steps| - 1]), steps[|steps| - 1])
  }

  // The state that a run reaches from an empty database at instant `from`.
  ghost function After(c: Settings, from: int, steps: seq<Step>): Sys
    requires ValidRun(c, from, steps)
    decreases |steps|, 1
  {
    if steps == [] then Sys(from, map[], [], [], [], map[])
    else Apply(c, After(c, from, steps[..|steps| - 1]), steps[|steps| - 1])
  }

  ghost predicate Reaches(c: Settings, from: int, steps: seq<Step>, s: Sys) {
    ValidRun(c, from, steps) && After(c, from, steps) == s
  }

  lemma OneMoreStep(c: Settings, from: int, steps: seq<Step>, s: Sys, step: Step)
    requires Reaches(c, from, steps, s) && Enabled(s, step)
    ensures Reaches(c, from, steps + [step], Apply(c, s, step))
  {
    assert (steps + [step])[..|steps|] == steps;
  }

  lemma {:induction false} PrefixIsValid(c: Settings, from: int, steps: seq<Step>, n: nat)
    requires ValidRun(c, from, steps) && n <= |steps|
    ensures ValidRun(c, from, steps[..n])
  {
    if n == |steps| {
      assert steps[..n] == steps;
    } else {
      PrefixIsValid(c, from, steps[..|steps| - 1], n);
      assert steps[..|steps| - 1][..n] == steps[..n];
    }
  }

  // The state after the first `n` steps.
  ghost function StateAt(c: Settings, from: int, steps: seq<Step>, n: nat): Sys
    requires ValidRun(c, from, steps) && n <= |steps|
  {
    PrefixIsValid(c, from, steps, n);
    After(c, from, steps[..n])
  }

  // A run up to its last step: the step was enabled, and the states before it
  // are those of the shorter run.
  lemma LastStep(c: Settings, from: int, steps: seq<Step>)
    requires ValidRun(c, from, steps) && steps != []
    ensures var before := steps[..|steps| - 1];
            var step := steps[|steps| - 1];
            && ValidRun(c, from, before) && Enabled(After(c, from, before), step)
            && StateAt(c, from, steps, |before|) == After(c, from, before)
            && StateAt(c, from, steps, |steps|) == After(c, from, steps) == Apply(c, After(c, from, before), step)
            && (forall n :: 0 <= n <= |before| ==> StateAt(c, from, steps, n) == StateAt(c, from, before, n))
  {
    var before := steps[..|steps| - 1];
    assert steps[..|steps|] == steps;
    forall n | 0 <= n <= |before|
      ensures StateAt(c, from, steps, n) == StateAt(c, from, before, n)
    {
      assert steps[..n] == before[..n];
    }
  }
}
