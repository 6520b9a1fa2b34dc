// What workers did, read off a run: the claims they made, and the jobs they
// started, in order.
module PublishingWorker {
  import opened Wrappers
  import opened PublishingModel

  // The jobs started and the claims made, in order, and the publishes recorded.
  datatype Done = Done(started: seq<int>, claims: seq<Step>, recorded: nat)

  function AddStep(d: Done, s: Sys, step: Step): Done {
    match step
    case Start(w, _, _, _) =>
      if WorkerOf(s, w).Batch? && WorkerOf(s, w).todo != [] then d.(started := d.started + [WorkerOf(s, w).todo[0]]) else d
    case ClaimSelect(_, _, _, _) => d.(claims := d.claims + [step])
    case Record(_) => d.(recorded := d.recorded + 1)
    case _ => d
  }

  function Add(d: Done, started: seq<int>, claims: seq<Step>, recorded: nat): Done {
    Done(d.started + started, d.claims + claims, d.recorded + recorded)
  }

  lemma AddBoth(d: Done, a: seq<int>, x: seq<Step>, m: nat, b: seq<int>, y: seq<Step>, n: nat)
    ensures Add(Add(d, a, x, m), b, y, n) == Add(d, a + b, x + y, m + n)
    ensures [] + b == b && x + [] == x && [] + y == y
  {
  }

  // What a run did.
  ghost function DoneIn(c: Settings, from: int, steps: seq<Step>): Done
    requires ValidRun(c, from, steps)
  {
    if steps == [] then Done([], [], 0)
    else AddStep(DoneIn(c, from, steps[..|steps| - 1]), After(c, from, steps[..|steps| - 1]), steps[|steps| - 1])
  }

  lemma DoneAfterStep(c: Settings, from: int, steps: seq<Step>, s: Sys, step: Step)
    requires Reaches(c, from, steps, s) && ValidRun(c, from, steps + [step])
    ensures DoneIn(c, from, steps + [step]) == AddStep(DoneIn(c, from, steps), s, step)
  {
    assert (steps + [step])[..|steps|] == steps;
  }

  // The jobs that some claims selected, in order.
  function SelectedJobs(claims: seq<Step>): seq<int> {
    if claims == [] then []
    else
      var last := claims[|claims| - 1];
      SelectedJobs(claims[..|claims| - 1]) + if last.ClaimSelect? then last.ids else []
  }

  lemma OneMoreClaim(claims: seq<Step>, select: Step)
    requires select.ClaimSelect?
    ensures SelectedJobs(claims + [select]) == SelectedJobs(claims) + select.ids
  {
    assert (claims + [select])[..|claims|] == claims;
  }

  // --------------------------------------------------------- what a claim takes

  function DueJobs(s: Sys, workspace: int): set<int> {
    set j | j in s.jobs && s.jobs[j].workspace == workspace && s.jobs[j].state == Queued && s.jobs[j].scheduledFor <= s.now
  }

  lemma {:induction false} DistinctCount(ids: seq<int>)
    requires forall i, k :: 0 <= i < k < |ids| ==> ids[i] != ids[k]
    ensures |set j | j in ids| == |ids|
  {
    if ids != [] {
      var n := |ids| - 1;
      DistinctCount(ids[..n]);
      assert (set j | j in ids) == (set j | j in ids[..n]) + {ids[n]};
    } else {
      assert (set j | j in ids) == {};
    }
  }

  lemma SelectionSize(s: Sys, workspace: int, limit: nat, ids: seq<int>)
    requires IsSelection(s.jobs, workspace, limit, s.now, ids)
    ensures |ids| == Min(limit, |DueJobs(s, workspace)|)
  {
    var chosen := set j | j in ids;
    DistinctCount(ids);
    assert chosen <= DueJobs(s, workspace);
    assert DueJobs(s, workspace) == chosen + (DueJobs(s, workspace) - chosen);
    if |ids| < limit {
      forall j | j in DueJobs(s, workspace)
        ensures j in chosen
      {
        assert Due(s.jobs[j], workspace, s.now);
      }
      assert DueJobs(s, workspace) == chosen;
    }
  }

  // In every run, a claim takes as many jobs of its workspace as are due then,
  // up to its limit; each of them once, and none of those left is due earlier.
  lemma ClaimTakesEarliestDue(c: Settings, from: int, steps: seq<Step>, n: nat)
    requires ValidRun(c, from, steps) && n < |steps| && steps[n].ClaimSelect?
    ensures var s := StateAt(c, from, steps, n);
            var ids := steps[n].ids;
            var due := DueJobs(s, steps[n].workspace);
            && |ids| == Min(steps[n].limit, |due|)
            && (forall i :: 0 <= i < |ids| ==> ids[i] in due)
            && (forall i, k :: 0 <= i < k < |ids| ==> ids[i] != ids[k] && s.jobs[ids[i]].scheduledFor <= s.jobs[ids[k]].scheduledFor)
            && (forall i, j :: 0 <= i < |ids| && j in due && j !in ids ==> s.jobs[ids[i]].scheduledFor <= s.jobs[j].scheduledFor)
  {
    PrefixIsValid(c, from, steps, n + 1);
    assert steps[..n + 1][..n] == steps[..n];
    var s := StateAt(c, from, steps, n);
    assert Enabled(s, steps[n]);
    SelectionSize(s, steps[n].workspace, steps[n].limit, steps[n].ids);
  }
}
