// What every step does to an account's credential and status, told without the
// operations: expiry, status and the counters of a sweep.
module InstagramCredentials {
  import opened Wrappers
  import opened InstagramTokens
  import opened InstagramService

  // When the account's unrevoked token expires.
  function Expiry(s: Store, account: int): Option<int> {
    var i := LatestLive(s.tokens, account);
    if i >= 0 then s.tokens[i].expiresAt else None
  }

  // The credential is handed out exactly while its expiry is ahead.
  lemma TokenIsHandedOutIff(from: int, steps: seq<Step>, account: int)
    requires ValidRun(from, steps)
    ensures var s := After(from, steps);
            match ActiveToken(s, account)
            case Ok(i) => LiveAt(s.tokens, i, account) && Expiry(s, account).Some? && Expiry(s, account).value > s.now
            case Err(NotFound) => Expiry(s, account).None? && !HoldsToken(s, account)
            case Err(Expired) => Expiry(s, account).Some? && Expiry(s, account).value <= s.now
  {
    AlwaysOneCredential(from, steps);
  }

  // A refresh is due from seven days before the expiry on.
  predicate RefreshDue(s: Store, account: int) {
    Expiry(s, account).Some? && Expiry(s, account).value <= s.now + 7 * 86_400_000_000
  }

  // Seconds that Meta grants; sixty days when it does not say.
  function Term(expiresIn: int): int {
    if expiresIn != 0 then expiresIn * 1_000_000 else 60 * 86_400_000_000
  }

  predicate Connects(s: Store, step: Step, account: int) {
    step.DoConnect? && step.account == account && (account in s.accounts ==> s.accounts[account].workspace == step.workspace)
  }

  // The step asks Meta for a new token of the account, and this is the answer.
  predicate Asks(s: Store, step: Step, account: int) {
    (step.DoRefresh? || step.Visit?) && step.account == account && RefreshDue(s, account)
  }

  lemma OnlyLiveIsLatest(tokens: seq<Token>, account: int, i: int)
    requires LiveAt(tokens, i, account) && forall j :: LiveAt(tokens, j, account) ==> j == i
    ensures LatestLive(tokens, account) == i
  {
  }

  lemma NoLiveNoLatest(tokens: seq<Token>, account: int)
    requires forall j :: !LiveAt(tokens, j, account)
    ensures LatestLive(tokens, account) == -1
  {
  }

  lemma SameLatest(a: seq<Token>, b: seq<Token>, account: int)
    requires forall j :: LiveAt(a, j, account) <==> LiveAt(b, j, account)
    ensures LatestLive(a, account) == LatestLive(b, account)
  {
    var i := LatestLive(a, account);
    var k := LatestLive(b, account);
    assert i < k ==> !LiveAt(a, k, account);
    assert k < i ==> !LiveAt(b, i, account);
  }

  lemma ExpiryAfterConnect(s: Store, w: int, a: int, e: int, account: int)
    requires OneCredential(s)
    ensures Expiry(Connect(s, w, a, e), account)
         == if Connects(s, DoConnect(w, a, e), account) then Some(s.now + Term(e)) else Expiry(s, account)
  {
    var t := Connect(s, w, a, e);
    if !Refused(s, w, a) {
      forall j
        ensures LiveAt(t.tokens, j, account) <==> if a == account then j == |s.tokens| else LiveAt(s.tokens, j, account)
      {
        LiveAfterStore(s.tokens, a, Some(s.now + Lifetime(e)), j, account);
      }
      if a == account {
        OnlyLiveIsLatest(t.tokens, account, |s.tokens|);
      } else {
        SameLatest(s.tokens, t.tokens, account);
      }
    }
  }

  lemma ExpiryAfterRefresh(s: Store, a: int, reply: Reply, account: int)
    requires OneCredential(s) && a in s.accounts
    ensures Expiry(Refresh(s, a, reply).0, account)
         == if a == account && RefreshDue(s, a) && reply.NewToken? then Some(s.now + Term(reply.expiresIn)) else Expiry(s, account)
  {
    RefreshKeepsLive(s, a, reply);
    SameLatest(s.tokens, Refresh(s, a, reply).0.tokens, account);
  }

  lemma ExpiryAfterDisconnect(s: Store, a: int, account: int)
    requires a in s.accounts
    ensures Expiry(Disconnect(s, a), account) == if a == account then None else Expiry(s, account)
  {
    var t := Disconnect(s, a);
    assert forall j :: LiveAt(t.tokens, j, account) <==> a != account && LiveAt(s.tokens, j, account);
    if a == account {
      NoLiveNoLatest(t.tokens, account);
    } else {
      SameLatest(s.tokens, t.tokens, account);
    }
  }

  // The expiry of an account's credential after any step: a connect and a
  // refresh that was due and granted set it, a disconnect removes it, and
  // nothing else touches it.
  lemma ExpiryAfterStep(s: Store, step: Step, account: int)
    requires OneCredential(s) && Enabled(s, step)
    ensures Expiry(Apply(s, step), account)
         == if Connects(s, step, account) then Some(s.now + Term(step.expiresIn))
            else if Asks(s, step, account) && step.reply.NewToken? then Some(s.now + Term(step.reply.expiresIn))
            else if step == DoDisconnect(account) then None
            else Expiry(s, account)
  {
    match step
    case DoConnect(w, a, e) => ExpiryAfterConnect(s, w, a, e, account);
    case DoRefresh(a, reply) => ExpiryAfterRefresh(s, a, reply, account);
    case Visit(a, reply) => ExpiryAfterRefresh(s, a, reply, account);
    case DoDisconnect(a) => ExpiryAfterDisconnect(s, a, account);
    case _ =>
  }

  // ------------------------------------------------------------------- status

  // The status of an account after any step.
  lemma StatusAfterStep(s: Store, step: Step, account: int)
    requires OneCredential(s) && Enabled(s, step) && account in s.accounts
    ensures account in Apply(s, step).accounts
    ensures var before := s.accounts[account].status;
            Apply(s, step).accounts[account].status
            == if Connects(s, step, account) then Connected
               else if step == DoDisconnect(account) then Disconnected
               else if step == DoMarkError(account, true) then TokenExpired
               else if step == DoMarkError(account, false) then Error
               else if Asks(s, step, account) && step.reply.MetaError? then TokenExpired
               else if Asks(s, step, account) && step.reply.NewToken? && before == TokenExpired then Connected
               else before
  {
  }

  // ---------------------------------------------------------- counts of a sweep

  predicate Granted(s: Store, account: int, reply: Reply) {
    RefreshDue(s, account) && reply.NewToken?
  }

  predicate Raised(s: Store, account: int, reply: Reply) {
    RefreshDue(s, account) && reply.Raises?
  }

  // Visits at which a refresh was due and was granted, and at which it raised,
  // each judged by the store that the sweep finds there.
  ghost function Counted(s: Store, order: seq<int>, replies: int -> Reply, waits: int -> nat): (nat, nat)
    requires forall a :: a in order ==> a in s.accounts
  {
    if order == [] then (0, 0)
    else
      var n := |order| - 1;
      var a := order[n];
      var (granted, raised) := Counted(s, order[..n], replies, waits);
      var before := Swept(s, order[..n], replies, waits).store;
      var at := before.(now := before.now + waits(a));
      (granted + (if Granted(at, a, replies(a)) then 1 else 0), raised + (if Raised(at, a, replies(a)) then 1 else 0))
  }

  lemma VisitCounts(t: Totals, account: int, reply: Reply, waited: nat)
    requires account in t.store.accounts
    ensures var at := t.store.(now := t.store.now + waited);
            var u := SweepNext(t, account, reply, waited);
            && u.refreshed == t.refreshed + (if Granted(at, account, reply) then 1 else 0)
            && u.errors == t.errors + (if Raised(at, account, reply) then 1 else 0)
  {
  }

  // The two counters of a sweep are those visits.
  lemma {:induction false} SweepCountsVisits(s: Store, order: seq<int>, replies: int -> Reply, waits: int -> nat)
    requires forall a :: a in order ==> a in s.accounts
    ensures var t := Swept(s, order, replies, waits); (t.refreshed, t.errors) == Counted(s, order, replies, waits)
  {
    if order != [] {
      var n := |order| - 1;
      var a := order[n];
      SweepCountsVisits(s, order[..n], replies, waits);
      VisitCounts(Swept(s, order[..n], replies, waits), a, replies(a), waits(a));
    }
  }
}
