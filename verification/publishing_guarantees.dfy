// What the theorems about runs say of a PublishingService object.
module PublishingGuarantees {
  import opened Wrappers
  import opened PublishingModel
  import opened PublishingSafety
  import opened PublishingAttempts
  import opened PublishingQuota
  import opened PublishingService
  import Containers

  // Whatever was done with a service object: no job was published twice, the
  // attempt books balance, and the quota rows are the histogram of the publishes.
  lemma ServiceStateIsSound(s: PublishingService)
    requires s.Valid()
    ensures Safe(s.State()) && Balanced(s.State()) && Histogram(s.State())
  {
    AlwaysSafe(s.c, s.from, s.trace);
    AlwaysBalanced(s.c, s.from, s.trace);
    AlwaysHistogram(s.c, s.from, s.trace);
  }

  // Counted over the calls that reached Meta: two successful publish_container
  // calls made for the same job, or for jobs of one workspace with the same
  // idempotency key, are one and the same call.
  lemma OnePublishCallPerJob(s: PublishingService, e: nat, p: nat, f: nat, q: nat)
    requires s.Valid() && e < |s.execs| && f < |s.execs| && |s.calls| == |s.execs|
    requires p < |s.calls[e]| && s.calls[e][p].PublishedContainer? && q < |s.calls[f]| && s.calls[f][q].PublishedContainer?
    ensures s.execs[e].job in s.jobs && s.execs[f].job in s.jobs
    ensures var (i, j) := (s.jobs[s.execs[e].job], s.jobs[s.execs[f].job]);
            s.execs[e].job == s.execs[f].job || (i.workspace == j.workspace && i.key == j.key) ==> e == f && p == q
  {
    assert PublishesOnce(s.calls[e], s.execs[e]) && PublishesOnce(s.calls[f], s.execs[f]);
    AtMostOncePublish(s.c, s.from, s.trace, e, f);
  }

  // The daily check passes exactly when fewer than `guard` publishes of the
  // account were recorded in the hours that its window covers.
  lemma CheckCountsPublishes(s: PublishingService, account: int)
    requires s.Valid()
    ensures QuotaLeft(s.c, s.quota, account, s.now)
       <==> |RecordedSince(s.execs, account, s.now - 86_400_000_000)| < Min(s.c.guardLimit, 100)
  {
    AlwaysHistogram(s.c, s.from, s.trace);
    assert UsedSince(s.State().quota, account, s.now - 24 * HOUR) == |RecordedSince(s.State().execs, account, s.now - 24 * HOUR)|;
  }
}
