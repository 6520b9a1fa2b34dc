// How long a run makes a job wait between its attempts.
module PublishingBackoff {
  import opened Wrappers
  import opened PublishingModel
  import opened PublishingSafety
  import opened PublishingAttempts
  import opened PublishingClaims
  import Backoff

  // The draws of the retries that a run schedules for a job, in order.
  ghost function RetryDraws(c: Settings, from: int, steps: seq<Step>, j: int): seq<real>
    requires ValidRun(c, from, steps)
  {
    if steps == [] then []
    else
      var before := steps[..|steps| - 1];
      var step := steps[|steps| - 1];
      RetryDraws(c, from, before, j) + if RetriesJob(After(c, from, before), step, j) then [step.answer.draw] else []
  }

  // The microseconds that these retries are put off, all together.
  ghost function PutOff(c: Settings, from: int, steps: seq<Step>, j: int): int
    requires ValidRun(c, from, steps)
  {
    if steps == [] then 0
    else
      var before := steps[..|steps| - 1];
      var s := After(c, from, before);
      var step := steps[|steps| - 1];
      PutOff(c, from, before, j) + if RetriesJob(s, step, j) then RetryInstant(c, s, step, j) - s.now else 0
  }

  // The retries of a job so far: its failed attempts but a last one that
  // ended it.
  function Retries(job: Job): int {
    if job.state == Succeeded || job.state == Dead then job.attempts - 1 else job.attempts
  }

  // The job's count of retries goes up by one with a retry and not otherwise.
  ghost predicate CountsRetry(s: Sys, t: Sys, step: Step, j: int) {
    j in t.jobs ==>
      Retries(t.jobs[j]) == (if j in s.jobs then Retries(s.jobs[j]) else 0) + (if RetriesJob(s, step, j) then 1 else 0)
  }

  lemma ReplyCountsRetry(c: Settings, s: Sys, w: int, a: Answer, j: int)
    requires Safe(s) && Enabled(s, Reply(w, a))
    ensures CountsRetry(s, Apply(c, s, Reply(w, a)), Reply(w, a), j)
  {
    OnlyInHand(s, w);
  }

  lemma RecordCountsNone(c: Settings, s: Sys, w: int, j: int)
    requires Safe(s) && Balanced(s) && Enabled(s, Record(w))
    ensures CountsRetry(s, Apply(c, s, Record(w)), Record(w), j)
  {
    OnlyInHand(s, w);
    assert Books(s, s.execs[WorkerOf(s, w).exec].job);
  }

  lemma RetriesAfterStep(c: Settings, s: Sys, step: Step, j: int)
    requires Safe(s) && Balanced(s) && Enabled(s, step)
    ensures CountsRetry(s, Apply(c, s, step), step, j)
  {
    match step
    case Start(w, _, _, _) =>
      assert HeldBy(s, w)[0] == WorkerOf(s, w).todo[0];
    case Reply(w, a) => ReplyCountsRetry(c, s, w, a, j);
    case Record(w) => RecordCountsNone(c, s, w, j);
    case _ =>
  }

  lemma {:induction false} DrawsAreRetries(c: Settings, from: int, steps: seq<Step>, j: int)
    requires ValidRun(c, from, steps)
    ensures var s := After(c, from, steps);
            var draws := RetryDraws(c, from, steps, j);
            && (|draws| == if j in s.jobs then Retries(s.jobs[j]) else 0)
            && (forall i :: 0 <= i < |draws| ==> Backoff.Draw(draws[i]))
  {
    if steps != [] {
      var before := steps[..|steps| - 1];
      DrawsAreRetries(c, from, before, j);
      AlwaysSafe(c, from, before);
      AlwaysBalanced(c, from, before);
      RetriesAfterStep(c, After(c, from, before), steps[|steps| - 1], j);
      JobsStay(c, After(c, from, before), steps[|steps| - 1], j);
    }
  }

  lemma JobsStay(c: Settings, s: Sys, step: Step, j: int)
    requires Enabled(s, step)
    ensures j in s.jobs ==> j in Apply(c, s, step).jobs && Apply(c, s, step).jobs[j].maxAttempts == s.jobs[j].maxAttempts
    ensures RetriesJob(s, step, j) ==> j in s.jobs && Backoff.Draw(step.answer.draw) && Retries(s.jobs[j]) <= s.jobs[j].attempts
  {
  }

  lemma RetryIsNext(c: Settings, s: Sys, step: Step, j: int)
    requires Safe(s) && Enabled(s, step) && RetriesJob(s, step, j)
    ensures Retries(s.jobs[j]) == s.jobs[j].attempts
  {
    OnlyInHand(s, step.worker);
  }

  // The delay in microseconds is the drawn delay, rounded.
  lemma Rounded(c: Settings, attempt: int, u: real)
    ensures var exact := Backoff.Jittered(attempt, c.backoffBase, c.backoffCap, u) * 1000000.0;
            exact - 0.5 <= DelayMicros(c, attempt, u) as real <= exact + 0.5
  {
  }

  ghost predicate Totals(c: Settings, putOff: int, draws: seq<real>) {
    var exact := Backoff.TotalBackoff(c.backoffBase, c.backoffCap, draws) * 1000000.0;
    exact - 0.5 * |draws| as real <= putOff as real <= exact + 0.5 * |draws| as real
  }

  lemma OneMoreDelay(c: Settings, putOff: int, draws: seq<real>, u: real)
    requires Totals(c, putOff, draws)
    ensures Totals(c, putOff + DelayMicros(c, |draws| + 1, u), draws + [u])
  {
    assert (draws + [u])[..|draws|] == draws;
    Rounded(c, |draws| + 1, u);
  }

  lemma {:induction false} PutOffIsTotal(c: Settings, from: int, steps: seq<Step>, j: int)
    requires ValidRun(c, from, steps)
    ensures Totals(c, PutOff(c, from, steps, j), RetryDraws(c, from, steps, j))
  {
    if steps != [] {
      var before := steps[..|steps| - 1];
      var step := steps[|steps| - 1];
      var s := After(c, from, before);
      var draws := RetryDraws(c, from, before, j);
      PutOffIsTotal(c, from, before, j);
      if RetriesJob(s, step, j) {
        AlwaysSafe(c, from, before);
        RetryIsNext(c, s, step, j);
        DrawsAreRetries(c, from, before, j);
        OneMoreDelay(c, PutOff(c, from, before, j), draws, step.answer.draw);
      } else {
        assert draws + [] == draws;
      }
    }
  }

  // In every run the retries of a job are at most max_attempts - 1, and what
  // they put it off by is, rounded to microseconds, less than
  // 1.2 * base * (2^n - 1) and less than 1.2 * cap * n seconds for n retries.
  lemma BackoffOfRunIsBounded(c: Settings, from: int, steps: seq<Step>, j: int)
    requires ValidRun(c, from, steps) && j in After(c, from, steps).jobs && c.backoffBase > 0.0 && c.backoffCap > 0.0
    ensures var n := |RetryDraws(c, from, steps, j)|;
            var putOff := PutOff(c, from, steps, j) as real;
            && n <= Max(After(c, from, steps).jobs[j].maxAttempts, 1) - 1
            && (n == 0 ==> putOff == 0.0)
            && (n > 0 ==> putOff < 1200000.0 * (Backoff.Doubled(c.backoffBase, n) - c.backoffBase) + 0.5 * n as real)
            && (n > 0 ==> putOff < 1200000.0 * Backoff.Times(c.backoffCap, n) + 0.5 * n as real)
  {
    var draws := RetryDraws(c, from, steps, j);
    DrawsAreRetries(c, from, steps, j);
    PutOffIsTotal(c, from, steps, j);
    Backoff.TotalBackoffBounded(c.backoffBase, c.backoffCap, draws);
    AttemptAccounting(c, from, steps, j);
  }
}
