// The container protocol of one publish attempt: `_publish` and its helpers in
// app/modules/publishing/service.py, against a scripted Meta Graph client.
// Instants and durations are whole microseconds.
module Containers {
  import opened Wrappers
  import PublishingModel

  datatype Kind = Image | Video

  // A media asset of the workspace.
  datatype Asset = Asset(kind: Kind, public: bool)

  datatype Payload = Payload(id: int, kind: Kind)

  datatype MediaType = IMAGE | REELS | STORIES | CAROUSEL

  datatype Content = Content(mediaType: MediaType, mediaOrder: seq<int>, mediaAssetIds: seq<int>)

  datatype MediaError = MediaRequired | MediaMissing | MediaNotPublic

  // ------------------------------------------------------------------ assets

  function MediaIds(content: Content): seq<int> {
    if content.mediaOrder != [] then content.mediaOrder else content.mediaAssetIds
  }

  // _asset_payloads: the payloads follow the media order element for element,
  // or the first thing that is wrong with the media is reported.
  method AssetPayloads(content: Content, assets: map<int, Asset>) returns (r: Result<seq<Payload>, MediaError>)
    ensures r.Err? && r.error == MediaRequired <==> MediaIds(content) == []
    ensures r.Err? && r.error == MediaMissing <==> MediaIds(content) != [] && exists id :: id in MediaIds(content) && id !in assets
    ensures r.Err? && r.error == MediaNotPublic <==>
              MediaIds(content) != [] && (forall id :: id in MediaIds(content) ==> id in assets)
              && exists id :: id in MediaIds(content) && !assets[id].public
    ensures r.Ok? ==>
              && |r.value| == |MediaIds(content)| > 0
              && forall i :: 0 <= i < |r.value| ==>
                   var id := MediaIds(content)[i];
                   id in assets && assets[id].public && r.value[i] == Payload(id, assets[id].kind)
  {
    var ids := if content.mediaOrder != [] then content.mediaOrder else content.mediaAssetIds;
    if ids == [] {
      return Err(MediaRequired);
    }
    var ordered: seq<int> := [];
    for i := 0 to |ids|
      invariant |ordered| <= i
      invariant |ordered| == i ==> ordered == ids[..i]
      invariant |ordered| == i <==> forall k :: 0 <= k < i ==> ids[k] in assets
      invariant forall x :: x in ordered ==> x in assets
    {
      if ids[i] in assets {
        ordered := ordered + [ids[i]];
      }
    }
    if |ordered| != |ids| {
      ghost var k :| 0 <= k < |ids| && ids[k] !in assets;
      ghost var missing := ids[k];
      assert missing in MediaIds(content) && missing !in assets;
      return Err(MediaMissing);
    }
    assert ordered == ids;
    var payloads: seq<Payload> := [];
    var reachable := true;
    for i := 0 to |ordered|
      invariant |payloads| == i
      invariant forall k :: 0 <= k < i ==> payloads[k] == Payload(ids[k], assets[ids[k]].kind)
      invariant reachable <==> forall k :: 0 <= k < i ==> assets[ids[k]].public
    {
      payloads := payloads + [Payload(ordered[i], assets[ordered[i]].kind)];
      reachable := reachable && assets[ordered[i]].public;
    }
    if !reachable {
      ghost var k :| 0 <= k < |ids| && !assets[ids[k]].public;
      assert ids[k] in MediaIds(content);
      return Err(MediaNotPublic);
    }
    return Ok(payloads);
  }

  // -------------------------------------------------------------- Meta client

  datatype ApiError = ApiError(code: int, transient: bool)

  // status_code of a container: FINISHED, one of ERROR / EXPIRED / FAILED, or
  // anything else.
  datatype StatusCode = Finished | Broken | Pending

  // What Meta answers to the n-th call of the attempt, and how long it takes.
  datatype Reply = Reply(error: Option<ApiError>, hasId: bool, id: int, status: StatusCode, hasPermalink: bool, took: nat)

  datatype Container = ImagePost(asset: int) | Reel(asset: int) | Story(asset: int, kind: Kind)
                     | ChildImage(asset: int) | ChildVideo(asset: int) | Carousel(children: seq<int>)

  // A call as it was answered.
  datatype Call =
    | Created(id: int, container: Container)
    | GotStatus(id: int, status: StatusCode)
    | PublishedContainer(creation: int, answered: Option<int>, permalink: bool)
    | GotMedia(media: int)
    | CallFailed(error: ApiError)

  class MetaClient {
    const script: nat -> Reply
    var now: int
    var log: seq<Call>

    constructor (script: nat -> Reply, now: int)
      ensures this.script == script && this.now == now && log == []
    {
      this.script := script;
      this.now := now;
      this.log := [];
    }

    method CreateMediaContainer(c: Container) returns (r: Result<int, ApiError>)
      modifies this
      ensures now >= old(now)
      ensures log == old(log) + [if r.Ok? then Created(r.value, c) else CallFailed(r.error)]
    {
      var reply := script(|log|);
      now := now + reply.took;
      r := if reply.error.Some? then Err(reply.error.value) else Ok(reply.id);
      log := log + [if r.Ok? then Created(r.value, c) else CallFailed(r.error)];
    }

    method GetContainerStatus(id: int) returns (r: Result<StatusCode, ApiError>)
      modifies this
      ensures now >= old(now)
      ensures log == old(log) + [if r.Ok? then GotStatus(id, r.value) else CallFailed(r.error)]
    {
      var reply := script(|log|);
      now := now + reply.took;
      r := if reply.error.Some? then Err(reply.error.value) else Ok(reply.status);
      log := log + [if r.Ok? then GotStatus(id, r.value) else CallFailed(r.error)];
    }

    method PublishContainer(creation: int) returns (r: Result<(Option<int>, bool), ApiError>)
      modifies this
      ensures now >= old(now)
      ensures log == old(log) + [if r.Ok? then PublishedContainer(creation, r.value.0, r.value.1) else CallFailed(r.error)]
    {
      var reply := script(|log|);
      now := now + reply.took;
      r := if reply.error.Some? then Err(reply.error.value) else Ok((if reply.hasId then Some(reply.id) else None, reply.hasPermalink));
      log := log + [if r.Ok? then PublishedContainer(creation, r.value.0, r.value.1) else CallFailed(r.error)];
    }

    method GetMedia(media: int) returns (r: Result<(), ApiError>)
      modifies this
      ensures now >= old(now)
      ensures log == old(log) + [if r.Ok? then GotMedia(media) else CallFailed(r.error)]
    {
      var reply := script(|log|);
      now := now + reply.took;
      r := if reply.error.Some? then Err(reply.error.value) else Ok(());
      log := log + [if r.Ok? then GotMedia(media) else CallFailed(r.error)];
    }

    method Sleep(duration: nat)
      modifies this`now
      ensures now == old(now) + duration
    {
      now := now + duration;
    }
  }

  // ----------------------------------------------------------------- polling

  function CeilDiv(a: int, b: int): int
    requires b > 0
  {
    (a + b - 1) / b
  }

  // The most status calls that one container can take.
  function MaxPolls(timeout: int, interval: int): int
    requires interval > 0
  {
    Max(CeilDiv(timeout, interval), 0) + 1
  }

  lemma RoundsBeforeDeadline(rounds: nat, timeout: int, interval: int)
    requires interval > 0 && rounds * interval < timeout
    ensures rounds + 1 <= CeilDiv(timeout, interval)
  {
    var q := CeilDiv(timeout, interval);
    assert q * interval + (timeout + interval - 1) % interval == timeout + interval - 1;
    if q <= rounds {
      ProductGrows(q, rounds, interval);
    }
  }

  lemma ProductGrows(a: int, b: int, c: int)
    requires a <= b && c >= 0
    ensures a * c <= b * c
  {
  }

  // Whether the calls of the log from `start` on are pending answers for a container.
  ghost predicate PendingFrom(log: seq<Call>, start: int, end: int, id: int) {
    0 <= start <= end <= |log| && forall k :: start <= k < end ==> log[k] == GotStatus(id, Pending)
  }

  const MEDIA_ERROR := ApiError(9007, false)
  const TIMEOUT_ERROR := ApiError(9008, true)

  // The error is the one that the last call of the log reports or stands for.
  predicate FailedWith(log: seq<Call>, start: int, error: ApiError) {
    && 0 <= start < |log|
    && match log[|log| - 1]
       case CallFailed(e) => error == e
       case GotStatus(_, status) => !status.Finished? && error == if status.Broken? then ApiError(9007, false) else ApiError(9008, true)
       case _ => false
  }

  // _poll_container: the status calls end with the first answer that is not
  // pending, or with the first one that arrives at the deadline or later.
  method PollContainer(client: MetaClient, id: int, interval: nat, timeout: int) returns (r: Result<(), ApiError>)
    requires interval > 0
    modifies client
    ensures old(client.log) <= client.log && client.now >= old(client.now)
    ensures 1 <= |client.log| - |old(client.log)| <= MaxPolls(timeout, interval)
    ensures PendingFrom(client.log, |old(client.log)|, |client.log| - 1, id)
    ensures var last := client.log[|client.log| - 1];
            match last
            case GotStatus(i, status) =>
              && i == id
              && (status.Finished? ==> r == Ok(()))
              && (status.Broken? ==> r == Err(ApiError(9007, false)))
              && (status.Pending? ==> r == Err(ApiError(9008, true)) && client.now >= old(client.now) + timeout)
            case CallFailed(e) => r == Err(e)
            case _ => false
  {
    var deadline := client.now + timeout;
    ghost var rounds := 0;
    while true
      invariant old(client.log) <= client.log
      invariant |client.log| == |old(client.log)| + rounds
      invariant PendingFrom(client.log, |old(client.log)|, |client.log|, id)
      invariant client.now >= old(client.now) + rounds * interval
      invariant 0 <= rounds <= Max(CeilDiv(timeout, interval), 0)
      decreases Max(CeilDiv(timeout, interval), 0) - rounds
    {
      var status := client.GetContainerStatus(id);
      if status.Err? {
        return Err(status.error);
      }
      if status.value.Finished? {
        return Ok(());
      }
      if status.value.Broken? {
        return Err(MEDIA_ERROR);
      }
      if client.now >= deadline {
        return Err(TIMEOUT_ERROR);
      }
      RoundsBeforeDeadline(rounds, timeout, interval);
      assert (rounds + 1) * interval == rounds * interval + interval;
      client.Sleep(interval);
      rounds := rounds + 1;
    }
  }

  // --------------------------------------------------------------- publishing

  // No container was published by the calls from `start` on.
  ghost predicate NothingPublished(log: seq<Call>, start: int) {
    forall i :: 0 <= start <= i < |log| ==> !log[i].PublishedContainer?
  }

  // The container created by call `c` reported FINISHED after it and before `end`.
  ghost predicate FinishedBetween(log: seq<Call>, c: int, end: int, id: int) {
    exists f :: 0 <= c < f < end <= |log| && log[f] == GotStatus(id, Finished)
  }

  // A carousel child made from one asset; a video child is finished.
  ghost predicate ChildReady(log: seq<Call>, start: int, end: int, child: int, asset: Payload) {
    exists c :: 0 <= start <= c < end <= |log| && ChildCreated(log, c, end, child, asset)
  }

  ghost predicate ChildCreated(log: seq<Call>, c: int, end: int, child: int, asset: Payload)
    requires 0 <= c < end <= |log|
  {
    match asset.kind
    case Video => log[c] == Created(child, ChildVideo(asset.id)) && FinishedBetween(log, c, end, child)
    case Image => log[c] == Created(child, ChildImage(asset.id))
  }

  lemma ChildStaysReady(log: seq<Call>, more: seq<Call>, start: int, end: int, child: int, asset: Payload)
    requires ChildReady(log, start, end, child, asset) && log <= more && end <= |log|
    ensures forall later :: end <= later <= |more| ==> ChildReady(more, start, later, child, asset)
  {
    var c :| 0 <= start <= c < end <= |log| && ChildCreated(log, c, end, child, asset);
    forall later | end <= later <= |more|
      ensures ChildReady(more, start, later, child, asset)
    {
      if asset.kind.Video? {
        var f :| c < f < end && log[f] == GotStatus(child, Finished);
        assert more[f] == GotStatus(child, Finished);
      }
      assert ChildCreated(more, c, later, child, asset);
    }
  }

  // What must have happened before a container is published: it was created
  // from the content's media, a reel is finished, and a carousel lists, in
  // media order, one ready child per asset.
  ghost predicate Prepared(log: seq<Call>, start: int, p: int, creation: int, media: MediaType, assets: seq<Payload>) {
    assets != [] && exists c :: 0 <= start <= c < p <= |log| && ParentCreated(log, start, c, p, creation, media, assets)
  }

  ghost predicate ParentCreated(log: seq<Call>, start: int, c: int, p: int, creation: int, media: MediaType, assets: seq<Payload>)
    requires 0 <= start <= c < p <= |log| && assets != []
  {
    match media
    case IMAGE => log[c] == Created(creation, ImagePost(assets[0].id))
    case STORIES => log[c] == Created(creation, Story(assets[0].id, assets[0].kind))
    case REELS => log[c] == Created(creation, Reel(assets[0].id)) && FinishedBetween(log, c, p, creation)
    case CAROUSEL =>
      && log[c].Created? && log[c].id == creation && log[c].container.Carousel?
      && |log[c].container.children| == |assets|
      && (forall k :: 0 <= k < |assets| ==> ChildReady(log, start, c, log[c].container.children[k], assets[k]))
  }

  // The calls from `start` on published exactly one container, at `p`; the media
  // is the id that Meta answered, or else that of the container.
  ghost predicate PublishedOnce(log: seq<Call>, start: int, p: int, media: int) {
    && 0 <= start <= p < |log| && log[p].PublishedContainer?
    && media == (match log[p].answered case Some(id) => id case None => log[p].creation)
    && (forall i :: start <= i < |log| && log[i].PublishedContainer? ==> i == p)
  }

  // _finalize: the permalink lookup is best effort.
  method Finalize(client: MetaClient, creation: int) returns (r: Result<int, ApiError>)
    modifies client
    ensures old(client.log) <= client.log && client.now >= old(client.now)
    ensures r.Ok? ==> PublishedOnce(client.log, |old(client.log)|, |old(client.log)|, r.value)
    ensures r.Ok? ==> client.log[|old(client.log)|].creation == creation
    ensures r.Ok? ==> |client.log| == |old(client.log)| + if client.log[|old(client.log)|].permalink then 1 else 2
    ensures r.Ok? && !client.log[|old(client.log)|].permalink ==>
              client.log[|client.log| - 1] == GotMedia(r.value) || client.log[|client.log| - 1].CallFailed?
    ensures r.Err? ==> NothingPublished(client.log, |old(client.log)|)
    ensures r.Err? ==> FailedWith(client.log, |old(client.log)|, r.error)
  {
    var published := client.PublishContainer(creation);
    if published.Err? {
      return Err(published.error);
    }
    var media := match published.value.0 case Some(id) => id case None => creation;
    if !published.value.1 {
      var _ := client.GetMedia(media);
    }
    return Ok(media);
  }

  method PublishSingle(client: MetaClient, media: MediaType, asset: Payload, interval: nat, timeout: int) returns (r: Result<int, ApiError>)
    requires interval > 0 && media != CAROUSEL
    modifies client
    ensures old(client.log) <= client.log && client.now >= old(client.now)
    ensures r.Err? ==> NothingPublished(client.log, |old(client.log)|)
    ensures r.Err? ==> FailedWith(client.log, |old(client.log)|, r.error)
    ensures r.Ok? ==> exists p :: PublishedOnce(client.log, |old(client.log)|, p, r.value)
                                  && Prepared(client.log, |old(client.log)|, p, client.log[p].creation, media, [asset])
  {
    ghost var start := |client.log|;
    var container := client.CreateMediaContainer(
      match media case IMAGE => ImagePost(asset.id) case REELS => Reel(asset.id) case _ => Story(asset.id, asset.kind));
    if container.Err? {
      return Err(container.error);
    }
    if media == REELS {
      var polled := PollContainer(client, container.value, interval, timeout);
      assert NothingPublished(client.log, start);
      if polled.Err? {
        return Err(polled.error);
      }
    }
    ghost var p := |client.log|;
    r := Finalize(client, container.value);
    if r.Ok? {
      assert ParentCreated(client.log, start, start, p, container.value, media, [asset]);
      assert PublishedOnce(client.log, start, p, r.value);
    }
  }

  // One carousel child: a video is polled until it is finished.
  method CreateChild(client: MetaClient, asset: Payload, interval: nat, timeout: int) returns (r: Result<int, ApiError>)
    requires interval > 0
    modifies client
    ensures old(client.log) <= client.log && NothingPublished(client.log, |old(client.log)|)
    ensures client.now >= old(client.now)
    ensures r.Ok? ==> ChildReady(client.log, |old(client.log)|, |client.log|, r.value, asset)
    ensures r.Err? ==> FailedWith(client.log, |old(client.log)|, r.error)
  {
    ghost var start := |client.log|;
    var child := client.CreateMediaContainer(match asset.kind case Video => ChildVideo(asset.id) case Image => ChildImage(asset.id));
    if child.Err? {
      return Err(child.error);
    }
    if asset.kind == Video {
      var polled := PollContainer(client, child.value, interval, timeout);
      if polled.Err? {
        return Err(polled.error);
      }
      assert client.log[|client.log| - 1] == GotStatus(child.value, Finished);
    }
    assert ChildCreated(client.log, start, |client.log|, child.value, asset);
    return Ok(child.value);
  }

  method PublishCarousel(client: MetaClient, assets: seq<Payload>, interval: nat, timeout: int) returns (r: Result<int, ApiError>)
    requires interval > 0 && assets != []
    modifies client
    ensures old(client.log) <= client.log && client.now >= old(client.now)
    ensures r.Err? ==> NothingPublished(client.log, |old(client.log)|)
    ensures r.Err? ==> FailedWith(client.log, |old(client.log)|, r.error)
    ensures r.Ok? ==> exists p :: PublishedOnce(client.log, |old(client.log)|, p, r.value)
                                  && Prepared(client.log, |old(client.log)|, p, client.log[p].creation, CAROUSEL, assets)
  {
    ghost var start := |client.log|;
    var children: seq<int> := [];
    for i := 0 to |assets|
      invariant old(client.log) <= client.log && NothingPublished(client.log, start)
      invariant client.now >= old(client.now)
      invariant |children| == i
      invariant forall k :: 0 <= k < i ==> ChildReady(client.log, start, |client.log|, children[k], assets[k])
    {
      ghost var before := client.log;
      var child := CreateChild(client, assets[i], interval, timeout);
      if child.Err? {
        return Err(child.error);
      }
      forall k | 0 <= k < i
        ensures ChildReady(client.log, start, |client.log|, children[k], assets[k])
      {
        ChildStaysReady(before, client.log, start, |before|, children[k], assets[k]);
      }
      EarlierStart(client.log, start, |before|, |client.log|, child.value, assets[i]);
      children := children + [child.value];
    }
    ghost var ready := client.log;
    var container := client.CreateMediaContainer(Carousel(children));
    if container.Err? {
      return Err(container.error);
    }
    ghost var p := |client.log|;
    r := Finalize(client, container.value);
    if r.Ok? {
      forall k | 0 <= k < |assets|
        ensures ChildReady(client.log, start, |ready|, children[k], assets[k])
      {
        ChildStaysReady(ready, client.log, start, |ready|, children[k], assets[k]);
      }
      assert client.log[|ready|] == Created(container.value, Carousel(children));
      assert ParentCreated(client.log, start, |ready|, p, container.value, CAROUSEL, assets);
      assert PublishedOnce(client.log, start, p, r.value);
    }
  }

  lemma EarlierStart(log: seq<Call>, start: int, later: int, end: int, child: int, asset: Payload)
    requires 0 <= start <= later && ChildReady(log, later, end, child, asset)
    ensures ChildReady(log, start, end, child, asset)
  {
  }

  // _publish: the answer of one Meta-facing execution. A success published
  // exactly one container, the one that the protocol prepared; a failure
  // published nothing and carries the error of the last call.
  method Publish(client: MetaClient, content: Content, assets: map<int, Asset>, interval: nat, timeout: int, draw: real)
    returns (answer: PublishingModel.Answer)
    requires interval > 0
    modifies client
    ensures old(client.log) <= client.log && client.now >= old(client.now)
    ensures !answer.Success? ==> NothingPublished(client.log, |old(client.log)|)
    ensures answer.Success? ==> exists p, payloads: seq<Payload> ::
              && PublishedOnce(client.log, |old(client.log)|, p, answer.media)
              && FollowsMedia(payloads, content, assets)
              && Prepared(client.log, |old(client.log)|, p, client.log[p].creation, content.mediaType,
                          if content.mediaType == CAROUSEL then payloads else payloads[..1])
    ensures answer.ValidationError? <==> !MediaUsable(content, assets)
    ensures answer.ValidationError? ==> client.log == old(client.log)
    ensures answer.MetaAPIError? ==>
              FailedWith(client.log, |old(client.log)|, ApiError(answer.code, answer.transient)) && answer.draw == draw
  {
    var found := AssetPayloads(content, assets);
    if found.Err? {
      assert found.error.MediaRequired? || found.error.MediaMissing? || found.error.MediaNotPublic?;
      return PublishingModel.ValidationError;
    }
    var payloads := found.value;
    var r;
    if content.mediaType == CAROUSEL {
      r := PublishCarousel(client, payloads, interval, timeout);
    } else {
      r := PublishSingle(client, content.mediaType, payloads[0], interval, timeout);
      assert payloads[..1] == [payloads[0]];
    }
    assert FollowsMedia(payloads, content, assets);
    answer := match r case Ok(media) => PublishingModel.Success(media)
                      case Err(e) => PublishingModel.MetaAPIError(e.code, e.transient, draw);
  }

  ghost predicate MediaUsable(content: Content, assets: map<int, Asset>) {
    MediaIds(content) != [] && forall id :: id in MediaIds(content) ==> id in assets && assets[id].public
  }

  // One payload per media id of the content, in the media order, or in the order
  // of the asset ids when there is none.
  ghost predicate FollowsMedia(payloads: seq<Payload>, content: Content, assets: map<int, Asset>) {
    if content.mediaOrder != [] then FollowsIds(payloads, content.mediaOrder, assets)
    else payloads != [] && FollowsIds(payloads, content.mediaAssetIds, assets)
  }

  ghost predicate FollowsIds(payloads: seq<Payload>, ids: seq<int>, assets: map<int, Asset>) {
    && |payloads| == |ids|
    && (forall i :: 0 <= i < |ids| ==> ids[i] in assets && payloads[i] == Payload(ids[i], assets[ids[i]].kind))
  }
}
