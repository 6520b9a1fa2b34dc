// Attempt accounting: how `attempts`, the error log and the number of
// Meta-facing executions of a job hang together, in every run.
module PublishingAttempts {
  import opened Wrappers
  import opened PublishingModel
  import opened PublishingSafety

  // The Meta-facing executions of a job.
  function ExecsOf(execs: seq<Exec>, j: int): set<nat> {
    set e: nat | e < |execs| && execs[e].job == j
  }

  // list_attempts: the error log of a job.
  function AttemptsOf(rows: seq<Attempt>, j: int): seq<Attempt> {
    if rows == [] then []
    else
      var a := rows[|rows| - 1];
      var before := AttemptsOf(rows[..|rows| - 1], j);
      if a.job == j then before + [a] else before
  }

  predicate OpenStatus(x: Exec) {
    x.status.InFlight? || x.status.Replied?
  }

  ghost predicate IsOpen(execs: seq<Exec>, j: int) {
    exists e :: 0 <= e < |execs| && execs[e].job == j && OpenStatus(execs[e])
  }

  // A job is allowed at least one execution, whatever its setting says.
  function Allowed(job: Job): nat {
    Max(job.maxAttempts, 1)
  }

  ghost predicate Numbered(log: seq<Attempt>, failed: bool) {
    && (forall k :: 0 <= k < |log| ==> log[k].number == k + 1)
    && (forall k :: 0 <= k < |log| && log[k].outcome.PermanentError? ==> k == |log| - 1 && failed)
  }

  // What the state of a job says about its executions and its log.
  ghost predicate Tally(job: Job, executions: nat, logged: nat, open: bool) {
    match job.state
    case Queued => executions == job.attempts == logged < Allowed(job) && !open
    case Cancelled => executions == job.attempts == logged < Allowed(job) && !open
    case Running => executions == job.attempts + (if open then 1 else 0) && job.attempts == logged < Allowed(job)
    case Succeeded => executions == job.attempts == logged + 1 <= Allowed(job)
    case Failed => executions == job.attempts + 1 <= Allowed(job)
                   && logged == if job.lastError == ValidationFailed then job.attempts else job.attempts + 1
    case Dead => executions == job.attempts == logged == Allowed(job)
  }

  ghost predicate Books(s: Sys, j: int)
    requires j in s.jobs
  {
    && Numbered(AttemptsOf(s.attempts, j), s.jobs[j].state == Failed)
    && Tally(s.jobs[j], |ExecsOf(s.execs, j)|, |AttemptsOf(s.attempts, j)|, IsOpen(s.execs, j))
    && (forall e :: 0 <= e < |s.execs| && s.execs[e].job == j && OpenStatus(s.execs[e]) ==>
          s.execs[e].number == s.jobs[j].attempts + 1)
  }

  ghost predicate Balanced(s: Sys) {
    && (forall j :: j in s.jobs ==> Books(s, j))
    && (forall k :: 0 <= k < |s.attempts| ==> s.attempts[k].job in s.jobs)
  }

  // ------------------------------------------------------------- step lemmas

  // Nothing that concerns job j changed.
  lemma SameBooks(s: Sys, t: Sys, j: int)
    requires j in s.jobs && Books(s, j) && j in t.jobs
    requires t.jobs[j] == s.jobs[j] && AttemptsOf(t.attempts, j) == AttemptsOf(s.attempts, j)
    requires |s.execs| <= |t.execs|
    requires forall e :: 0 <= e < |s.execs| ==> t.execs[e].job == s.execs[e].job
    requires forall e :: 0 <= e < |s.execs| && s.execs[e].job == j ==> t.execs[e] == s.execs[e]
    requires forall e :: |s.execs| <= e < |t.execs| ==> t.execs[e].job != j
    ensures Books(t, j)
  {
    assert ExecsOf(t.execs, j) == ExecsOf(s.execs, j);
    assert IsOpen(t.execs, j) <==> IsOpen(s.execs, j) by {
      if IsOpen(s.execs, j) {
        var e :| 0 <= e < |s.execs| && s.execs[e].job == j && OpenStatus(s.execs[e]);
        assert t.execs[e].job == j && OpenStatus(t.execs[e]);
      }
    }
  }

  lemma {:induction false} NothingLogged(rows: seq<Attempt>, j: int)
    requires forall k :: 0 <= k < |rows| ==> rows[k].job != j
    ensures AttemptsOf(rows, j) == []
  {
    if rows != [] {
      NothingLogged(rows[..|rows| - 1], j);
    }
  }

  lemma LogOne(rows: seq<Attempt>, a: Attempt, j: int)
    ensures AttemptsOf(rows + [a], j) == AttemptsOf(rows, j) + (if a.job == j then [a] else [])
  {
    assert (rows + [a])[..|rows|] == rows;
  }

  lemma QueueKeepsBalanced(c: Settings, s: Sys, step: Step)
    requires Safe(s) && Balanced(s) && Enabled(s, step)
    requires step.Tick? || step.Enqueue? || step.Cancel? || step.ClaimSelect? || step.ClaimUpdate?
    ensures Balanced(Apply(c, s, step))
  {
    var t := Apply(c, s, step);
    forall j | j in t.jobs
      ensures Books(t, j)
    {
      if j in s.jobs {
        assert Books(s, j);
      } else {
        NothingLogged(s.attempts, j);
        assert forall e :: 0 <= e < |s.execs| ==> ExecPaired(s, s.execs[e], e);
        assert ExecsOf(s.execs, j) == {};
      }
    }
  }

  // A job that no execution is open for gets one.
  lemma OpenKeepsBooks(s: Sys, t: Sys, j: int, x: Exec)
    requires j in s.jobs && Books(s, j) && s.jobs[j].state == Running && !IsOpen(s.execs, j)
    requires x.job == j && x.status.InFlight? && x.number == s.jobs[j].attempts + 1
    requires t.execs == s.execs + [x] && t.jobs == s.jobs && t.attempts == s.attempts
    ensures Books(t, j)
  {
    var n := |s.execs|;
    assert ExecsOf(t.execs, j) == ExecsOf(s.execs, j) + {n};
    assert t.execs[n].job == j && OpenStatus(t.execs[n]);
    assert forall e :: 0 <= e < n && s.execs[e].job == j ==> !OpenStatus(s.execs[e]);
  }

  lemma StartKeepsBalanced(c: Settings, s: Sys, w: int, found: bool, approved: bool, preflight: bool)
    requires Safe(s) && Balanced(s) && Enabled(s, Start(w, found, approved, preflight))
    ensures Balanced(Apply(c, s, Start(w, found, approved, preflight)))
  {
    var t := Apply(c, s, Start(w, found, approved, preflight));
    var front := WorkerOf(s, w).todo[0];
    NotInHand(s, w);
    assert HeldBy(s, w)[0] == front;
    assert !IsOpen(s.execs, front);
    forall j | j in t.jobs
      ensures Books(t, j)
    {
      assert Books(s, j);
      if j != front {
        SameBooks(s, t, j);
      } else if t.execs != s.execs {
        OpenKeepsBooks(s, t, j, t.execs[|s.execs|]);
      }
    }
  }

  // Execution `e`, the only open one of its job, closes: the job leaves RUNNING
  // and the log gains at most one row.
  ghost predicate Closes(s: Sys, t: Sys, e: nat, status: ExecStatus, job: Job, log: seq<Attempt>) {
    && e < |s.execs| && s.execs[e].job in s.jobs && OpenStatus(s.execs[e])
    && t.jobs == s.jobs[s.execs[e].job := job]
    && t.execs == s.execs[e := s.execs[e].(status := status)]
    && t.attempts == s.attempts + log
    && (log == [] || (|log| == 1 && log[0].job == s.execs[e].job && log[0].number == s.execs[e].number))
    && (log != [] ==> !log[0].outcome.PermanentError? || job.state == Failed)
    && (status.Ended? || status.Recorded?)
    && Tally(job, s.jobs[s.execs[e].job].attempts + 1, s.jobs[s.execs[e].job].attempts + |log|, false)
  }

  lemma LogLast(rows: seq<Attempt>, log: seq<Attempt>, j: int)
    requires log == [] || |log| == 1
    ensures AttemptsOf(rows + log, j) == AttemptsOf(rows, j) + (if log != [] && log[0].job == j then log else [])
  {
    if log == [] {
      assert rows + log == rows;
    } else {
      assert log == [log[0]];
      LogOne(rows, log[0], j);
    }
  }

  lemma CloseKeepsOtherBooks(s: Sys, t: Sys, e: nat, status: ExecStatus, job: Job, log: seq<Attempt>, j: int)
    requires Closes(s, t, e, status, job, log) && j in s.jobs && Books(s, j) && j != s.execs[e].job
    ensures Books(t, j)
  {
    LogLast(s.attempts, log, j);
    SameBooks(s, t, j);
  }

  lemma CloseKeepsOwnBooks(s: Sys, t: Sys, e: nat, status: ExecStatus, job: Job, log: seq<Attempt>)
    requires Closes(s, t, e, status, job, log) && Books(s, s.execs[e].job) && s.jobs[s.execs[e].job].state == Running
    requires forall i :: 0 <= i < |s.execs| && s.execs[i].job == s.execs[e].job && OpenStatus(s.execs[i]) ==> i == e
    ensures Books(t, s.execs[e].job)
  {
    var j := s.execs[e].job;
    LogLast(s.attempts, log, j);
    assert ExecsOf(t.execs, j) == ExecsOf(s.execs, j);
    assert IsOpen(s.execs, j);
    assert !IsOpen(t.execs, j);
  }

  lemma CloseKeepsBalanced(s: Sys, t: Sys, w: int, status: ExecStatus, job: Job, log: seq<Attempt>)
    requires Safe(s) && Balanced(s) && (WorkerOf(s, w).Executing? || WorkerOf(s, w).Published?)
    requires Closes(s, t, WorkerOf(s, w).exec, status, job, log)
    ensures Balanced(t)
  {
    var e := WorkerOf(s, w).exec;
    OnlyInHand(s, w);
    assert HandPaired(s, w, WorkerOf(s, w));
    forall j | j in t.jobs
      ensures Books(t, j)
    {
      if j != s.execs[e].job {
        CloseKeepsOtherBooks(s, t, e, status, job, log, j);
      } else {
        CloseKeepsOwnBooks(s, t, e, status, job, log);
      }
    }
  }

  lemma ReplyKeepsBalanced(c: Settings, s: Sys, w: int, a: Answer)
    requires Safe(s) && Balanced(s) && Enabled(s, Reply(w, a))
    ensures Balanced(Apply(c, s, Reply(w, a)))
  {
    var t := Apply(c, s, Reply(w, a));
    var e := WorkerOf(s, w).exec;
    var j := s.execs[e].job;
    OnlyInHand(s, w);
    assert Books(s, j);
    match a
    case Success(media) =>
      forall i | i in t.jobs
        ensures Books(t, i)
      {
        assert Books(s, i);
        if i != j {
          SameBooks(s, t, i);
        } else {
          assert ExecsOf(t.execs, i) == ExecsOf(s.execs, i);
          assert HandPaired(s, w, WorkerOf(s, w));
          assert OpenStatus(s.execs[e]) && OpenStatus(t.execs[e]) && t.execs[e].job == j;
        }
      }
    case MetaAPIError(code, transient, u) =>
      CloseKeepsBalanced(s, t, w, Ended, t.jobs[j], [Attempt(j, s.execs[e].number, OutcomeOf(code, transient), code)]);
    case ValidationError =>
      CloseKeepsBalanced(s, t, w, Ended, t.jobs[j], []);
  }

  lemma RecordKeepsBalanced(c: Settings, s: Sys, w: int)
    requires Safe(s) && Balanced(s) && Enabled(s, Record(w))
    ensures Balanced(Apply(c, s, Record(w)))
  {
    var t := Apply(c, s, Record(w));
    var e := WorkerOf(s, w).exec;
    OnlyInHand(s, w);
    assert Books(s, s.execs[e].job);
    assert HandPaired(s, w, WorkerOf(s, w));
    assert s.execs[e].number == s.jobs[s.execs[e].job].attempts + 1;
    CloseKeepsBalanced(s, t, w, Recorded(s.execs[e].status.replyAt, s.now), t.jobs[s.execs[e].job], []);
  }

  lemma {:induction false} AlwaysBalanced(c: Settings, from: int, steps: seq<Step>)
    requires ValidRun(c, from, steps)
    ensures Balanced(After(c, from, steps))
  {
    if steps != [] {
      var before := steps[..|steps| - 1];
      var s := After(c, from, before);
      AlwaysBalanced(c, from, before);
      AlwaysSafe(c, from, before);
      match steps[|steps| - 1]
      case Start(w, f, a, p) => StartKeepsBalanced(c, s, w, f, a, p);
      case Reply(w, a) => ReplyKeepsBalanced(c, s, w, a);
      case Record(w) => RecordKeepsBalanced(c, s, w);
      case _ => QueueKeepsBalanced(c, s, steps[|steps| - 1]);
    }
  }

  // ------------------------------------------------------------ main theorems

  // In every reachable state: the error log of a job is numbered 1..m without
  // gaps and only its last row can be permanent, of a FAILED job; its length
  // and the number of Meta-facing executions follow from the job's state and
  // `attempts`; a queued or running job has attempts left and a DEAD one none.
  lemma AttemptAccounting(c: Settings, from: int, steps: seq<Step>, j: int)
    requires ValidRun(c, from, steps) && j in After(c, from, steps).jobs
    ensures var s := After(c, from, steps);
            var log := AttemptsOf(s.attempts, j);
            && Numbered(log, s.jobs[j].state == Failed)
            && Tally(s.jobs[j], |ExecsOf(s.execs, j)|, |log|, IsOpen(s.execs, j))
  {
    AlwaysBalanced(c, from, steps);
    assert Books(After(c, from, steps), j);
  }

  // A job meets Meta at most max_attempts times, however long the run is and
  // however often it is bounced for approval.
  lemma ExecutionsAreBounded(c: Settings, from: int, steps: seq<Step>, j: int)
    requires ValidRun(c, from, steps) && j in After(c, from, steps).jobs
    ensures var s := After(c, from, steps);
            |ExecsOf(s.execs, j)| <= Max(s.jobs[j].maxAttempts, 1)
  {
    AttemptAccounting(c, from, steps, j);
  }
}
