// PublishingService of app/modules/publishing/service.py as an object whose
// tables are updated step by step, and the worker loop of
// app/worker/tasks.py. `Valid()` says that the object is in the state that its
// trace reaches in PublishingModel, so every theorem about runs applies to it,
// and a method that says how it extends the trace says what its new state is.
module PublishingService {
  import opened Wrappers
  import opened PublishingModel
  import opened PublishingSafety
  import opened PublishingWorker
  import Backoff
  import Containers

  // What one execution of process_job meets outside the service: the rows it
  // reads, what Meta answers to its calls, and the random draw of a retry.
  datatype Env = Env(
    found: bool, approved: bool, preflight: bool,
    content: Containers.Content, assets: map<int, Containers.Asset>, script: nat -> Containers.Reply,
    draw: real, recording: nat)

  // How long `_publish` took, and what it ended in.
  datatype Executed = Executed(took: nat, answer: Answer)

  datatype ProcessError = NotFound | IllegalStateTransition | QuotaOrPreflight | Meta(code: int) | Invalid

  ghost predicate HasDue(jobs: map<int, Job>, now: int, workspace: int) {
    exists j :: j in jobs && Due(jobs[j], workspace, now)
  }

  // One claim of at most five jobs per workspace, in order.
  ghost predicate ClaimsEach(claims: seq<Step>, workspaces: seq<int>, w: int) {
    && |claims| == |workspaces|
    && forall i :: 0 <= i < |workspaces| ==> ClaimsFive(claims[i], workspaces[i], w)
  }

  lemma OneMoreWorkspace(claims: seq<Step>, select: Step, workspaces: seq<int>, i: nat, w: int)
    requires i < |workspaces| && ClaimsEach(claims, workspaces[..i], w) && ClaimsFive(select, workspaces[i], w)
    ensures ClaimsEach(claims + [select], workspaces[..i + 1], w)
    ensures SelectedJobs(claims + [select]) == SelectedJobs(claims) + select.ids
  {
    OneMoreClaim(claims, select);
  }

  // The step that RecordSuccess makes.
  lemma RecordIsStep(c: Settings, s: Sys, w: int, e: nat, media: int, rest: seq<int>)
    requires WorkerOf(s, w) == Published(e, media, rest) && e < |s.execs|
    requires s.execs[e].job in s.jobs && s.execs[e].status.Replied?
    ensures var x := s.execs[e];
            && Enabled(s, Record(w))
            && Apply(c, s, Record(w))
               == Sys(s.now, s.jobs[x.job := SucceedJob(s.jobs[x.job], s.now, x.number, media)],
                      IncrementQuota(s.quota, x.account, s.now), s.attempts,
                      s.execs[e := x.(status := Recorded(x.status.replyAt, s.now))], s.workers[w := Rest(rest)])
  {
  }

  lemma Split(ids: seq<int>, i: nat)
    requires i < |ids|
    ensures ids[i..] == [ids[i]] + ids[i + 1..] && ids[..i + 1] == ids[..i] + [ids[i]]
  {
  }

  lemma StepsOfJob(before: seq<Step>, w: int, env: Env, x: Executed)
    ensures before + JobSteps(w, env, Some(x))
         == before + [Start(w, env.found, env.approved, env.preflight)] + [Tick(x.took)] + [Reply(w, x.answer)]
            + if x.answer.Success? then [Tick(env.recording)] + [Record(w)] else []
  {
  }

  predicate ClaimsFive(claim: Step, workspace: int, w: int) {
    claim.ClaimSelect? && claim.worker == w && claim.workspace == workspace && claim.limit == 5
  }

  // The steps that take a job from the front of a worker's batch to its end.
  ghost function JobSteps(w: int, env: Env, executed: Option<Executed>): seq<Step> {
    var start := [Start(w, env.found, env.approved, env.preflight)];
    match executed
    case None => start
    case Some(x) =>
      var answered := start + [Tick(x.took)] + [Reply(w, x.answer)];
      if x.answer.Success? then answered + [Tick(env.recording)] + [Record(w)] else answered
  }

  // The client log of an execution holds exactly one successful publish_container
  // call if the execution has its reply, and none otherwise.
  ghost predicate PublishesOnce(log: seq<Containers.Call>, x: Exec) {
    if GotReply(x) then exists media :: OneCall(log, media) else Containers.NothingPublished(log, 0)
  }

  // The client log of each execution is up to date.
  ghost predicate AllLogged(calls: seq<seq<Containers.Call>>, execs: seq<Exec>) {
    |calls| == |execs| && forall e :: 0 <= e < |execs| ==> PublishesOnce(calls[e], execs[e])
  }

  lemma OneLogged(calls: seq<seq<Containers.Call>>, execs: seq<Exec>, e: nat, log: seq<Containers.Call>, x: Exec)
    requires AllLogged(calls, execs) && e < |execs| && PublishesOnce(log, x)
    ensures AllLogged(calls[e := log], execs[e := x])
  {
  }

  lemma OneStarted(calls: seq<seq<Containers.Call>>, execs: seq<Exec>, x: Exec)
    requires AllLogged(calls, execs) && x.status.InFlight?
    ensures AllLogged(calls + [[]], execs + [x])
  {
  }

  ghost predicate OneCall(log: seq<Containers.Call>, media: int) {
    exists p :: Containers.PublishedOnce(log, 0, p, media)
  }

  // What `_publish` says it did is what the log shows.
  ghost predicate Tells(answer: Answer, log: seq<Containers.Call>) {
    if answer.Success? then OneCall(log, answer.media) else Containers.NothingPublished(log, 0)
  }

  // Every draw that an execution may use is one of random().
  ghost predicate Draws(env: nat -> Env) {
    forall n :: Backoff.Draw(env(n).draw)
  }

  lemma {:induction false} EarliestDue(jobs: map<int, Job>, due: set<int>) returns (j: int)
    requires due != {} && forall i :: i in due ==> i in jobs
    ensures j in due && forall i :: i in due ==> jobs[j].scheduledFor <= jobs[i].scheduledFor
  {
    EmptyIfNoMember(due);
    j :| j in due;
    if due - {j} != {} {
      var k := EarliestDue(jobs, due - {j});
      if jobs[k].scheduledFor < jobs[j].scheduledFor {
        j := k;
      }
    } else {
      assert due == {j};
    }
  }

  // The earliest due jobs are in `ids`, in order; the others are in `due`.
  ghost predicate SelectedSoFar(jobs: map<int, Job>, workspace: int, now: int, ids: seq<int>, due: set<int>) {
    && (forall i :: 0 <= i < |ids| ==> ids[i] in jobs && Due(jobs[ids[i]], workspace, now))
    && (forall i, k :: 0 <= i < k < |ids| ==> ids[i] != ids[k] && jobs[ids[i]].scheduledFor <= jobs[ids[k]].scheduledFor)
    && (forall j :: j in due ==> j in jobs && Due(jobs[j], workspace, now))
    && (forall i, j :: 0 <= i < |ids| && j in due ==> ids[i] != j && jobs[ids[i]].scheduledFor <= jobs[j].scheduledFor)
    && (forall j :: j in jobs && Due(jobs[j], workspace, now) ==> j in ids || j in due)
  }

  lemma SelectOne(jobs: map<int, Job>, workspace: int, now: int, ids: seq<int>, due: set<int>, j: int)
    requires SelectedSoFar(jobs, workspace, now, ids, due) && j in due
    requires forall i :: i in due ==> jobs[j].scheduledFor <= jobs[i].scheduledFor
    ensures SelectedSoFar(jobs, workspace, now, ids + [j], due - {j})
  {
    assert j in ids + [j];
    assert forall i :: i in ids ==> i in ids + [j];
  }

  lemma SelectionDone(jobs: map<int, Job>, workspace: int, limit: nat, now: int, ids: seq<int>, due: set<int>)
    requires SelectedSoFar(jobs, workspace, now, ids, due) && |ids| <= limit && (due == {} || |ids| == limit)
    ensures IsSelection(jobs, workspace, limit, now, ids)
  {
  }

  class PublishingService {
    const c: Settings
    const interval: nat
    const timeout: int
    ghost const from: int
    var now: int
    var jobs: map<int, Job>
    var quota: seq<QuotaRow>
    var attempts: seq<Attempt>
    ghost var execs: seq<Exec>
    ghost var calls: seq<seq<Containers.Call>>
    ghost var workers: map<int, Worker>
    ghost var trace: seq<Step>
    ghost var done: Done

    ghost function State(): Sys
      reads this
    {
      Sys(now, jobs, quota, attempts, execs, workers)
    }

    ghost predicate Logged()
      reads this
    {
      interval > 0 && AllLogged(calls, execs)
    }

    ghost predicate Valid()
      reads this
    {
      Reaches(c, from, trace, State()) && Logged() && done == DoneIn(c, from, trace)
    }

    constructor (c: Settings, interval: nat, timeout: int, now: int)
      requires interval > 0
      ensures Valid() && this.c == c && this.interval == interval && this.timeout == timeout
      ensures trace == [] && State() == Sys(now, map[], [], [], [], map[])
    {
      this.c, this.interval, this.timeout, this.calls := c, interval, timeout, [];
      this.from, this.now := now, now;
      this.jobs, this.quota, this.attempts := map[], [], [];
      this.execs, this.workers, this.trace, this.done := [], map[], [], Done([], [], 0);
    }

    // Records that the object has just made one step of the model.
    ghost method Extend(before: Sys, step: Step)
      requires Reaches(c, from, trace, before) && Enabled(before, step)
      requires Apply(c, before, step) == State() && Logged() && done == DoneIn(c, from, trace)
      modifies this`trace, this`done
      ensures Valid() && trace == old(trace) + [step] && done == AddStep(old(done), before, step)
    {
      OneMoreStep(c, from, trace, before, step);
      DoneAfterStep(c, from, trace, before, step);
      trace := trace + [step];
      done := AddStep(done, before, step);
    }

    method Wait(elapsed: nat)
      requires Valid()
      modifies this`now, this`trace, this`done
      ensures Valid() && trace == old(trace) + [Tick(elapsed)] && done == old(done)
    {
      ghost var before := State();
      now := now + elapsed;
      Extend(before, Tick(elapsed));
    }

    // ------------------------------------------------------------------ queue

    // `id` is the fresh id of a new row. A key that is taken gives the job that
    // holds it back; None is the refusal of an account that is not usable.
    method EnqueueJob(id: int, usable: bool, request: Request) returns (job: Option<int>)
      requires Valid() && id !in jobs
      modifies this
      ensures Valid() && trace == old(trace) + [Enqueue(id, usable, request)]
      ensures job.None? <==> !usable
      ensures job.Some? ==> job.value in jobs && jobs[job.value].workspace == request.workspace && jobs[job.value].key == request.key
      ensures job.Some? && job.value != id ==> jobs == old(jobs)
    {
      ghost var before := State();
      if !usable {
        job := None;
      } else if existing :| existing in jobs && jobs[existing].workspace == request.workspace && jobs[existing].key == request.key {
        job := Some(existing);
      } else {
        var scheduledFor := if request.scheduledFor.Some? then request.scheduledFor.value else now;
        jobs := jobs[id := Job(request.workspace, request.content, request.account, request.key, Queued, scheduledFor,
                               request.requiresApproval, 0, c.maxAttempts, None, None, None, None, None, true, NoError, None)];
        job := Some(id);
      }
      Extend(before, Enqueue(id, usable, request));
    }

    method CancelJob(id: int) returns (ok: bool)
      requires Valid() && id in jobs
      modifies this
      ensures Valid() && trace == old(trace) + [Cancel(id)]
      ensures ok <==> old(jobs[id].state) == Queued
      ensures ok ==> jobs[id].state == Cancelled && jobs[id].finishedAt == Some(now)
      ensures !ok ==> jobs == old(jobs)
      ensures jobs.Keys == old(jobs).Keys && forall j :: j in jobs && j != id ==> jobs[j] == old(jobs)[j]
    {
      ghost var before := State();
      ok := jobs[id].state == Queued;
      if ok {
        jobs := jobs[id := jobs[id].(state := Cancelled)];
        jobs := jobs[id := jobs[id].(finishedAt := Some(now))];
      }
      Extend(before, Cancel(id));
    }

    // The SELECT of a claim: due jobs of the workspace, earliest first.
    method SelectDue(workspace: int, limit: nat) returns (ids: seq<int>)
      ensures IsSelection(jobs, workspace, limit, now, ids)
    {
      var due := set j | j in jobs && Due(jobs[j], workspace, now);
      ids := [];
      while due != {} && |ids| < limit
        invariant |ids| <= limit && SelectedSoFar(jobs, workspace, now, ids, due)
        decreases |due|
      {
        ghost var first := EarliestDue(jobs, due);
        var j :| j in due && forall i :: i in due ==> jobs[j].scheduledFor <= jobs[i].scheduledFor;
        SelectOne(jobs, workspace, now, ids, due, j);
        due := due - {j};
        ids := ids + [j];
      }
      SelectionDone(jobs, workspace, limit, now, ids, due);
    }

    // claim_next: SELECT, then the guarded UPDATE.
    method ClaimNext(w: int, workspace: int, limit: nat) returns (claimed: seq<int>)
      requires Valid() && WorkerOf(State(), w) == Idle
      modifies this
      ensures Valid() && WorkerOf(State(), w) == Rest(claimed)
      ensures jobs.Keys == old(jobs).Keys
      ensures |claimed| <= limit && forall j :: j in claimed ==> j in old(jobs) && Due(old(jobs)[j], workspace, old(now))
      ensures trace == old(trace) + [ClaimSelect(w, workspace, limit, claimed)] + if claimed == [] then [] else [ClaimUpdate(w)]
      ensures done == old(done).(claims := old(done).claims + [ClaimSelect(w, workspace, limit, claimed)])
    {
      ghost var before := State();
      claimed := SelectDue(workspace, limit);
      workers := workers[w := if claimed == [] then Idle else Selected(claimed, now)];
      Extend(before, ClaimSelect(w, workspace, limit, claimed));
      if claimed != [] {
        LeaseSelected(w, claimed);
      }
    }

    // The UPDATE of a claim that nothing came between.
    method LeaseSelected(w: int, selected: seq<int>)
      requires Valid() && WorkerOf(State(), w) == Selected(selected, now)
      requires forall j :: j in selected ==> Claimable(jobs, j)
      modifies this
      ensures Valid() && WorkerOf(State(), w) == Rest(selected) && jobs.Keys == old(jobs).Keys
      ensures trace == old(trace) + [ClaimUpdate(w)] && done == old(done)
    {
      ghost var before := State();
      AllClaimable(jobs, selected);
      jobs := ClaimJobs(jobs, selected, w, now);
      workers := workers[w := Rest(selected)];
      Extend(before, ClaimUpdate(w));
    }

    // ------------------------------------------------------------------ quota

    method CheckDailyQuota(account: int) returns (left: bool)
      ensures left <==> QuotaLeft(c, quota, account, now)
    {
      var windowStart := now - 24 * HOUR;
      var total := UsedSince(quota, account, windowStart);
      left := total < Min(c.guardLimit, 100);
    }

    method IncrementQuotaRow(account: int)
      modifies this`quota
      ensures quota == IncrementQuota(old(quota), account, now)
    {
      var windowStart := now - now % HOUR;
      var i := QuotaIndex(quota, account, windowStart);
      if i == |quota| {
        quota := quota + [QuotaRow(account, windowStart, 1)];
      } else {
        quota := quota[i := quota[i].(used := quota[i].used + 1)];
      }
    }

    // -------------------------------------------------------------- transitions

    method RecordAttempt(job: int, number: nat, code: int, transient: bool)
      modifies this`attempts
      ensures attempts == old(attempts) + [Attempt(job, number, OutcomeOf(code, transient), code)]
    {
      var outcome := if code == 4 || code == 17 || code == 32 || code == 613 || code == 80004 then RateLimited
                     else if transient then RetryableError else PermanentError;
      attempts := attempts + [Attempt(job, number, outcome, code)];
    }

    method MarkDead(id: int, code: int)
      requires id in jobs
      modifies this`jobs
      ensures jobs == old(jobs)[id := DeadJob(old(jobs[id]), now, code)]
    {
      var job := jobs[id];
      job := job.(state := Dead);
      job := job.(finishedAt := Some(now));
      job := job.(retryable := false);
      job := job.(lastError := MetaCode(code));
      job := job.(leaseOwner := None);
      jobs := jobs[id := job];
    }

    method ScheduleRetry(id: int, code: int, draw: real)
      requires id in jobs
      modifies this`jobs
      ensures jobs == old(jobs)[id := RetryJob(c, old(jobs[id]), now, code, draw)]
    {
      jobs := jobs[id := jobs[id].(attempts := jobs[id].attempts + 1)];
      if jobs[id].attempts >= jobs[id].maxAttempts {
        MarkDead(id, code);
        return;
      }
      var job := jobs[id];
      var retryAfter := DelayMicros(c, job.attempts, draw);
      job := job.(state := Queued);
      job := job.(nextRetryAt := Some(now + retryAfter));
      job := job.(scheduledFor := job.nextRetryAt.value);
      job := job.(retryable := true);
      job := job.(lastError := MetaCode(code));
      job := job.(leaseOwner := None);
      job := job.(leaseExpiresAt := None);
      jobs := jobs[id := job];
    }

    method FailPermanently(id: int, code: int)
      requires id in jobs
      modifies this`jobs
      ensures jobs == old(jobs)[id := FailJob(old(jobs[id]), now, code)]
    {
      var job := jobs[id];
      job := job.(state := Failed);
      job := job.(finishedAt := Some(now));
      job := job.(retryable := false);
      job := job.(lastError := MetaCode(code));
      job := job.(leaseOwner := None);
      jobs := jobs[id := job];
    }

    method FailInvalid(id: int)
      requires id in jobs
      modifies this`jobs
      ensures jobs == old(jobs)[id := InvalidJob(old(jobs[id]), now)]
    {
      var job := jobs[id];
      job := job.(state := Failed);
      job := job.(finishedAt := Some(now));
      job := job.(lastError := ValidationFailed);
      job := job.(retryable := false);
      jobs := jobs[id := job];
    }

    method Succeed(id: int, number: nat, media: int)
      requires id in jobs
      modifies this`jobs
      ensures jobs == old(jobs)[id := SucceedJob(old(jobs[id]), now, number, media)]
    {
      var job := jobs[id];
      job := job.(state := Succeeded);
      job := job.(finishedAt := Some(now));
      job := job.(attempts := number);
      job := job.(mediaId := Some(media));
      job := job.(leaseOwner := None);
      job := job.(leaseExpiresAt := None);
      jobs := jobs[id := job];
    }

    // ----------------------------------------------------------------- execute

    // process_job up to `_publish`: the attempt number, or what it raised before.
    method StartJob(w: int, id: int, ghost rest: seq<int>, env: Env) returns (started: Result<nat, ProcessError>)
      requires Valid() && id in jobs && WorkerOf(State(), w) == Batch([id] + rest)
      modifies this
      ensures Valid() && trace == old(trace) + [Start(w, env.found, env.approved, env.preflight)]
      ensures done == old(done).(started := old(done).started + [id])
      ensures jobs.Keys == old(jobs).Keys
      ensures started.Ok? ==>
                && started.value == old(jobs[id].attempts) + 1 && jobs == old(jobs)
                && WorkerOf(State(), w) == Executing(|old(execs)|, rest)
                && execs == old(execs) + [Exec(id, jobs[id].account, w, started.value, now, InFlight)]
      ensures started.Err? ==> WorkerOf(State(), w) == Rest(rest) && execs == old(execs)
    {
      ghost var before := State();
      assert ([id] + rest)[1..] == rest;
      started := CheckBeforePublish(id, env);
      if started.Ok? {
        workers := workers[w := Executing(|execs|, rest)];
        OpenExecution(Exec(id, jobs[id].account, w, started.value, now, InFlight));
      } else {
        workers := workers[w := Rest(rest)];
      }
      Extend(before, Start(w, env.found, env.approved, env.preflight));
    }

    ghost method OpenExecution(x: Exec)
      requires Logged() && x.status.InFlight?
      modifies this`execs, this`calls
      ensures Logged() && execs == old(execs) + [x]
    {
      OneStarted(calls, execs, x);
      execs := execs + [x];
      calls := calls + [[]];
    }

    method WriteSuccess(id: int, ghost e: nat, number: nat, media: int)
      requires id in jobs && Logged() && e < |execs| && execs[e].status.Replied?
      modifies this`jobs, this`quota, this`execs
      ensures jobs == old(jobs)[id := SucceedJob(old(jobs)[id], now, number, media)]
      ensures quota == IncrementQuota(old(quota), old(jobs)[id].account, now)
      ensures Logged() && execs == old(execs)[e := old(execs)[e].(status := Recorded(old(execs)[e].status.replyAt, now))]
    {
      Succeed(id, number, media);
      IncrementQuotaRow(jobs[id].account);
      RecordExecution(e);
    }

    ghost method RecordExecution(e: nat)
      requires Logged() && e < |execs| && execs[e].status.Replied?
      modifies this`execs
      ensures Logged() && execs == old(execs)[e := old(execs)[e].(status := Recorded(old(execs)[e].status.replyAt, now))]
    {
      OneLogged(calls, execs, e, calls[e], execs[e].(status := Recorded(execs[e].status.replyAt, now)));
      execs := execs[e := execs[e].(status := Recorded(execs[e].status.replyAt, now))];
    }

    // The checks, in their order; Ok holds the number of the attempt.
    method CheckBeforePublish(id: int, env: Env) returns (r: Result<nat, ProcessError>)
      requires id in jobs
      modifies this`jobs
      ensures r == if !env.found then Err(NotFound)
                   else if old(jobs)[id].requiresApproval && !env.approved then Err(IllegalStateTransition)
                   else if !QuotaLeft(c, quota, old(jobs)[id].account, now) || !env.preflight then Err(QuotaOrPreflight)
                   else Ok(old(jobs)[id].attempts + 1)
      ensures jobs == if r == Err(IllegalStateTransition) then old(jobs)[id := BounceJob(old(jobs)[id])] else old(jobs)
    {
      if !env.found {
        return Err(NotFound);
      }
      if jobs[id].requiresApproval && !env.approved {
        jobs := jobs[id := jobs[id].(state := Queued)];
        jobs := jobs[id := jobs[id].(lastError := ApprovalRequired)];
        return Err(IllegalStateTransition);
      }
      var left := CheckDailyQuota(jobs[id].account);
      if !left || !env.preflight {
        return Err(QuotaOrPreflight);
      }
      return Ok(jobs[id].attempts + 1);
    }

    // The handling of what `_publish` ended in; `log` is what it did at Meta.
    method HandleAnswer(w: int, id: int, ghost e: nat, ghost rest: seq<int>, number: nat, answer: Answer,
                        ghost log: seq<Containers.Call>)
      requires Valid() && id in jobs && WorkerOf(State(), w) == Executing(e, rest)
      requires e < |execs| && execs[e].job == id && execs[e].number == number
      requires answer.MetaAPIError? ==> Backoff.Draw(answer.draw)
      requires Tells(answer, log)
      modifies this
      ensures Valid() && trace == old(trace) + [Reply(w, answer)] && calls == old(calls)[e := log]
      ensures done == old(done)
      ensures jobs.Keys == old(jobs).Keys && now == old(now) && |execs| == |old(execs)|
      ensures answer.Success? ==>
                && WorkerOf(State(), w) == Published(e, answer.media, rest) && jobs == old(jobs)
                && execs[e] == old(execs)[e].(status := Replied(now))
      ensures !answer.Success? ==> WorkerOf(State(), w) == Rest(rest)
    {
      ghost var before := State();
      match answer {
        case Success(media) =>
          workers := workers[w := Published(e, media, rest)];
        case MetaAPIError(code, transient, draw) =>
          RecordAttempt(id, number, code, transient);
          if transient {
            ScheduleRetry(id, code, draw);
          } else {
            FailPermanently(id, code);
          }
          workers := workers[w := Rest(rest)];
        case ValidationError =>
          FailInvalid(id);
          workers := workers[w := Rest(rest)];
      }
      AnswerExecution(e, answer, log);
      Extend(before, Reply(w, answer));
    }

    ghost method AnswerExecution(e: nat, answer: Answer, log: seq<Containers.Call>)
      requires Logged() && e < |execs| && Tells(answer, log)
      modifies this`execs, this`calls
      ensures Logged() && calls == old(calls)[e := log]
      ensures execs == old(execs)[e := old(execs)[e].(status := if answer.Success? then Replied(now) else Ended)]
    {
      OneLogged(calls, execs, e, log, execs[e].(status := if answer.Success? then Replied(now) else Ended));
      execs := execs[e := execs[e].(status := if answer.Success? then Replied(now) else Ended)];
      calls := calls[e := log];
    }

    method RecordSuccess(w: int, id: int, ghost e: nat, ghost rest: seq<int>, number: nat, media: int)
      requires Valid() && id in jobs && WorkerOf(State(), w) == Published(e, media, rest)
      requires e < |execs| && execs[e].job == id && execs[e].number == number && execs[e].status.Replied?
      requires execs[e].account == jobs[id].account
      modifies this
      ensures Valid() && trace == old(trace) + [Record(w)]
      ensures jobs.Keys == old(jobs).Keys && jobs[id].state == Succeeded && jobs[id].mediaId == Some(media)
      ensures calls == old(calls) && done == old(done).(recorded := old(done).recorded + 1)
      ensures WorkerOf(State(), w) == Rest(rest)
    {
      ghost var before := State();
      RecordIsStep(c, before, w, e, media, rest);
      WriteSuccess(id, e, number, media);
      workers := workers[w := Rest(rest)];
      Extend(before, Record(w));
    }

    // Each execution makes a client of its own.
    method CallMeta(env: Env) returns (answer: Answer, took: nat, ghost log: seq<Containers.Call>)
      requires interval > 0
      ensures Tells(answer, log)
      ensures answer.MetaAPIError? ==> answer.draw == env.draw
    {
      var client := new Containers.MetaClient(env.script, now);
      answer := Containers.Publish(client, env.content, env.assets, interval, timeout, env.draw);
      took := client.now - now;
      log := client.log;
    }

    // `_publish` and what follows it. Ok means that
    // Meta got one publish call, for the media that the job now records; any
    // error means that it got none.
    method ExecuteJob(w: int, id: int, ghost e: nat, ghost rest: seq<int>, number: nat, env: Env)
      returns (r: Result<int, ProcessError>, ghost x: Executed)
      requires Valid() && id in jobs && WorkerOf(State(), w) == Executing(e, rest)
      requires e < |execs| && execs[e].job == id && execs[e].number == number && execs[e].account == jobs[id].account
      requires Backoff.Draw(env.draw)
      modifies this
      ensures Valid() && jobs.Keys == old(jobs).Keys && WorkerOf(State(), w) == Rest(rest)
      ensures r.Ok? <==> x.answer.Success?
      ensures r.Ok? ==> r.value == x.answer.media && jobs[id].state == Succeeded && jobs[id].mediaId == Some(r.value)
      ensures r.Err? ==> r.error == if x.answer.MetaAPIError? then Meta(x.answer.code) else Invalid
      ensures |calls| == |old(calls)| && forall f :: 0 <= f < |calls| && f != e ==> calls[f] == old(calls)[f]
      ensures r.Ok? ==> OneCall(calls[e], r.value)
      ensures r.Err? ==> Containers.NothingPublished(calls[e], 0)
      ensures done == old(done).(recorded := old(done).recorded + if r.Ok? then 1 else 0)
      ensures trace == old(trace) + [Tick(x.took)] + [Reply(w, x.answer)]
                       + if r.Ok? then [Tick(env.recording)] + [Record(w)] else []
    {
      ghost var log;
      var answer, took;
      answer, took, log := CallMeta(env);
      x := Executed(took, answer);
      Wait(took);
      HandleAnswer(w, id, e, rest, number, answer, log);
      if answer.Success? {
        Wait(env.recording);
        RecordSuccess(w, id, e, rest, number, answer.media);
        r := Ok(answer.media);
      } else {
        r := Err(if answer.MetaAPIError? then Meta(answer.code) else Invalid);
      }
    }

    // process_job: Ok exactly when the job ended SUCCEEDED.
    method ProcessJob(w: int, id: int, ghost rest: seq<int>, env: Env)
      returns (r: Result<int, ProcessError>, ghost executed: Option<Executed>)
      requires Valid() && id in jobs && WorkerOf(State(), w) == Batch([id] + rest)
      requires Backoff.Draw(env.draw)
      modifies this
      ensures Valid() && jobs.Keys == old(jobs).Keys && WorkerOf(State(), w) == Rest(rest)
      ensures r.Ok? <==> executed.Some? && executed.value.answer.Success?
      ensures r.Ok? ==> r.value == executed.value.answer.media && jobs[id].state == Succeeded && jobs[id].mediaId == Some(r.value)
      ensures trace == old(trace) + JobSteps(w, env, executed)
      ensures done == Add(old(done), [id], [], if r.Ok? then 1 else 0)
    {
      ghost var e := |execs|;
      var started := StartJob(w, id, rest, env);
      if started.Err? {
        return Err(started.error), None;
      }
      ghost var x;
      r, x := ExecuteJob(w, id, e, rest, started.value, env);
      executed := Some(x);
      StepsOfJob(old(trace), w, env, x);
    }

    // --------------------------------------------------------------- the worker

    // The workspaces that have a due job, each once, and at most 20 of them.
    method SelectWorkspaces() returns (ids: seq<int>)
      ensures |ids| <= 20 && forall i, k :: 0 <= i < k < |ids| ==> ids[i] != ids[k]
      ensures forall ws :: ws in ids ==> HasDue(jobs, now, ws)
      ensures |ids| < 20 ==> forall ws :: HasDue(jobs, now, ws) ==> ws in ids
    {
      var pending := set j | j in jobs && Due(jobs[j], jobs[j].workspace, now) :: jobs[j].workspace;
      ids := [];
      while pending != {} && |ids| < 20
        invariant |ids| <= 20 && forall i, k :: 0 <= i < k < |ids| ==> ids[i] != ids[k]
        invariant forall ws :: ws in ids ==> ws !in pending
        invariant forall ws :: HasDue(jobs, now, ws) <==> ws in pending || ws in ids
        decreases |pending|
      {
        EmptyIfNoMember(pending);
        var ws :| ws in pending;
        pending := pending - {ws};
        ids := ids + [ws];
      }
    }

    // process_due_jobs for one worker; the n-th processed job meets env(n). Each
    // workspace is claimed from once, every selected job is started, in order,
    // and one failing job stops neither its batch nor the other workspaces.
    method ProcessDueJobs(w: int, env: nat -> Env)
      returns (processed: nat, succeeded: nat, failed: nat, ghost workspaces: seq<int>, ghost claims: seq<Step>)
      requires Valid() && WorkerOf(State(), w) == Idle && Draws(env)
      modifies this
      ensures Valid() && WorkerOf(State(), w) == Idle && old(trace) <= trace
      ensures |workspaces| <= 20 && forall i, k :: 0 <= i < k < |workspaces| ==> workspaces[i] != workspaces[k]
      ensures forall ws :: ws in workspaces ==> HasDue(old(jobs), old(now), ws)
      ensures |workspaces| < 20 ==> forall ws :: HasDue(old(jobs), old(now), ws) ==> ws in workspaces
      ensures ClaimsEach(claims, workspaces, w)
      ensures done == Add(old(done), SelectedJobs(claims), claims, succeeded)
      ensures processed == succeeded + failed == |SelectedJobs(claims)|
    {
      var ids := SelectWorkspaces();
      workspaces := ids;
      processed, succeeded, failed, claims := ProcessWorkspaces(w, ids, env);
    }

    method ProcessWorkspaces(w: int, workspaces: seq<int>, env: nat -> Env)
      returns (processed: nat, succeeded: nat, failed: nat, ghost claims: seq<Step>)
      requires Valid() && WorkerOf(State(), w) == Idle && Draws(env)
      modifies this
      ensures Valid() && WorkerOf(State(), w) == Idle && old(trace) <= trace
      ensures ClaimsEach(claims, workspaces, w)
      ensures done == Add(old(done), SelectedJobs(claims), claims, succeeded)
      ensures processed == succeeded + failed == |SelectedJobs(claims)|
    {
      processed, succeeded, failed, claims := 0, 0, 0, [];
      for i := 0 to |workspaces|
        invariant Valid() && WorkerOf(State(), w) == Idle && old(trace) <= trace
        invariant ClaimsEach(claims, workspaces[..i], w)
        invariant done == Add(old(done), SelectedJobs(claims), claims, succeeded)
        invariant processed == succeeded + failed == |SelectedJobs(claims)|
      {
        ghost var select;
        var p, s, f;
        p, s, f, select := ProcessWorkspace(w, workspaces[i], env, processed);
        OneMoreWorkspace(claims, select, workspaces, i, w);
        AddBoth(old(done), SelectedJobs(claims), claims, succeeded, select.ids, [select], s);
        claims := claims + [select];
        processed, succeeded, failed := processed + p, succeeded + s, failed + f;
      }
      assert workspaces[..|workspaces|] == workspaces;
    }

    // One claim of at most five jobs, each of which is started.
    method ProcessWorkspace(w: int, workspace: int, env: nat -> Env, base: nat)
      returns (processed: nat, succeeded: nat, failed: nat, ghost select: Step)
      requires Valid() && WorkerOf(State(), w) == Idle && Draws(env)
      modifies this
      ensures Valid() && WorkerOf(State(), w) == Idle && old(trace) <= trace
      ensures ClaimsFive(select, workspace, w)
      ensures done == Add(old(done), select.ids, [select], succeeded)
      ensures processed == |select.ids| == succeeded + failed <= 5
    {
      var claimed := ClaimNext(w, workspace, 5);
      select := ClaimSelect(w, workspace, 5, claimed);
      processed, succeeded, failed := ProcessBatch(w, claimed, env, base);
      AddBoth(old(done), [], [select], 0, claimed, [], succeeded);
    }

    method ProcessBatch(w: int, claimed: seq<int>, env: nat -> Env, base: nat)
      returns (processed: nat, succeeded: nat, failed: nat)
      requires Valid() && WorkerOf(State(), w) == Rest(claimed) && forall j :: j in claimed ==> j in jobs
      requires Draws(env)
      modifies this
      ensures Valid() && WorkerOf(State(), w) == Idle && old(trace) <= trace
      ensures done == Add(old(done), claimed, [], succeeded)
      ensures processed == |claimed| == succeeded + failed
    {
      processed, succeeded, failed := 0, 0, 0;
      for i := 0 to |claimed|
        invariant Valid() && WorkerOf(State(), w) == Rest(claimed[i..]) && old(trace) <= trace
        invariant forall j :: j in claimed ==> j in jobs
        invariant done == Add(old(done), claimed[..i], [], succeeded)
        invariant processed == i == succeeded + failed
      {
        processed := processed + 1;
        Split(claimed, i);
        var r, executed := ProcessJob(w, claimed[i], claimed[i + 1..], env(base + i));
        AddBoth(old(done), claimed[..i], [], succeeded, [claimed[i]], [], if r.Ok? then 1 else 0);
        if r.Ok? {
          succeeded := succeeded + 1;
        } else {
          failed := failed + 1;
        }
      }
      assert claimed[|claimed|..] == [] && claimed[..|claimed|] == claimed;
    }
  }
}
