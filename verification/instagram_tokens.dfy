// The life of a connected account's credential: app/modules/instagram/service.py.
// Instants are microseconds; `expires_in` values are whole seconds.
module InstagramTokens {
  import opened Wrappers

  const SECOND: int := 1_000_000
  const DAY: int := 86_400 * SECOND
  const LONG_LIVED_TOKEN_DAYS: int := 60
  const REFRESH_SAFETY_MARGIN_DAYS: int := 7
  const MARGIN: int := REFRESH_SAFETY_MARGIN_DAYS * DAY

  datatype Status = Connected | TokenExpired | Disconnected | Error

  datatype Account = Account(workspace: int, status: Status)

  // Token rows, oldest first.
  datatype Token = Token(account: int, expiresAt: Option<int>, revoked: bool)

  // History of the daily sweeps: the accounts that the running one still has to
  // visit, when it began, and when the last completed one began.
  datatype Sweep = Sweep(todo: set<int>, began: int, covered: int)

  datatype Store = Store(now: int, accounts: map<int, Account>, tokens: seq<Token>, sweep: Sweep)

  // What Meta answers to a refresh; `Raises` is any other failure of the call.
  datatype Reply = NewToken(expiresIn: int) | NoToken | MetaError | Raises

  datatype TokenError = NotFound | Expired

  // ------------------------------------------------------------- operations

  function Lifetime(expiresIn: int): int {
    if expiresIn != 0 then expiresIn * SECOND else LONG_LIVED_TOKEN_DAYS * DAY
  }

  predicate LiveAt(tokens: seq<Token>, i: int, account: int) {
    0 <= i < |tokens| && tokens[i].account == account && !tokens[i].revoked
  }

  // The newest unrevoked row of an account, or -1.
  function LatestLive(tokens: seq<Token>, account: int): (i: int)
    ensures i == -1 || LiveAt(tokens, i, account)
    ensures forall j :: i < j < |tokens| ==> !LiveAt(tokens, j, account)
  {
    var n := |tokens| - 1;
    if tokens == [] then -1
    else if LiveAt(tokens, n, account) then n
    else
      assert forall j :: LiveAt(tokens[..n], j, account) <==> j < n && LiveAt(tokens, j, account);
      LatestLive(tokens[..n], account)
  }

  function RevokeAll(tokens: seq<Token>, account: int): (r: seq<Token>)
    ensures |r| == |tokens|
  {
    seq(|tokens|, i requires 0 <= i < |tokens| =>
      if tokens[i].account == account then tokens[i].(revoked := true) else tokens[i])
  }

  function StoreToken(tokens: seq<Token>, account: int, expiresAt: Option<int>): seq<Token> {
    RevokeAll(tokens, account) + [Token(account, expiresAt, false)]
  }

  // complete_connect and _upsert_account; an account of another workspace is
  // refused.
  function Connect(s: Store, workspace: int, account: int, expiresIn: int): Store {
    if account in s.accounts && s.accounts[account].workspace != workspace then s
    else s.(accounts := s.accounts[account := Account(workspace, Connected)],
            tokens := StoreToken(s.tokens, account, Some(s.now + Lifetime(expiresIn))))
  }

  // Whether refresh_if_needed gets as far as calling Meta.
  predicate NeedsRefresh(s: Store, account: int) {
    var i := LatestLive(s.tokens, account);
    i >= 0 && s.tokens[i].expiresAt.Some? && s.tokens[i].expiresAt.value <= s.now + MARGIN
  }

  function SetStatus(s: Store, account: int, status: Status): Store
    requires account in s.accounts
  {
    s.(accounts := s.accounts[account := s.accounts[account].(status := status)])
  }

  // refresh_if_needed: the new store, and whether a new token was stored.
  function Refresh(s: Store, account: int, reply: Reply): (Store, bool)
    requires account in s.accounts
  {
    if !NeedsRefresh(s, account) then (s, false)
    else
      match reply
      case MetaError => (SetStatus(s, account, TokenExpired), false)
      case NewToken(expiresIn) =>
        var i := LatestLive(s.tokens, account);
        var row := s.tokens[i].(expiresAt := Some(s.now + Lifetime(expiresIn)));
        var t := s.(tokens := s.tokens[i := row]);
        (if s.accounts[account].status == TokenExpired then SetStatus(t, account, Connected) else t, true)
      case _ => (s, false)
  }

  function Disconnect(s: Store, account: int): Store
    requires account in s.accounts
  {
    SetStatus(s.(tokens := RevokeAll(s.tokens, account)), account, Disconnected)
  }

  // get_active_token: the row whose credential is handed out.
  function ActiveToken(s: Store, account: int): Result<int, TokenError> {
    var i := LatestLive(s.tokens, account);
    if i < 0 then Err(NotFound)
    else if s.tokens[i].expiresAt.Some? && s.tokens[i].expiresAt.value <= s.now then Err(Expired)
    else Ok(i)
  }

  // ------------------------------------------------------------------ sweeps

  // What refresh_meta_tokens selects: CONNECTED and TOKEN_EXPIRED accounts.
  predicate Sweepable(accounts: map<int, Account>, a: int) {
    a in accounts && (accounts[a].status == Connected || accounts[a].status == TokenExpired)
  }

  function Selected(accounts: map<int, Account>): set<int> {
    set a | a in accounts && Sweepable(accounts, a)
  }

  // A sweep that has nothing left to visit is complete.
  function Visiting(todo: set<int>, began: int, covered: int): Sweep {
    Sweep(todo, began, if todo == {} then began else covered)
  }

  // The sweep's call of refresh_if_needed for one account.
  function VisitAccount(s: Store, account: int, reply: Reply): Store
    requires account in s.accounts
  {
    Refresh(s, account, reply).0.(sweep := Visiting(s.sweep.todo - {account}, s.sweep.began, s.sweep.covered))
  }

  // ------------------------------------------------------------------- runs

  datatype Step =
    | Tick(elapsed: nat)
    | DoConnect(workspace: int, account: int, expiresIn: int)
    | DoRefresh(account: int, reply: Reply)
    | BeginSweep
    | Visit(account: int, reply: Reply)
    | DoDisconnect(account: int)
    | DoMarkError(account: int, expired: bool)

  predicate Enabled(s: Store, step: Step) {
    match step
    case DoRefresh(a, _) => a in s.accounts
    case BeginSweep => s.sweep.todo == {}
    case Visit(a, _) => a in s.accounts && a in s.sweep.todo
    case DoDisconnect(a) => a in s.accounts
    case DoMarkError(a, _) => a in s.accounts
    case _ => true
  }

  function Apply(s: Store, step: Step): Store
    requires Enabled(s, step)
  {
    match step
    case Tick(d) => s.(now := s.now + d)
    case DoConnect(w, a, e) => Connect(s, w, a, e)
    case DoRefresh(a, reply) => Refresh(s, a, reply).0
    case BeginSweep => s.(sweep := Visiting(Selected(s.accounts), s.now, s.sweep.covered))
    case Visit(a, reply) => VisitAccount(s, a, reply)
    case DoDisconnect(a) => Disconnect(s, a)
    case DoMarkError(a, expired) => SetStatus(s, a, if expired then TokenExpired else Error)
  }

  ghost predicate ValidRun(from: int, steps: seq<Step>)
    decreases |steps|, 0
  {
    steps != [] ==>
      && ValidRun(from, steps[..|steps| - 1])
      && Enabled(After(from, steps[..|steps| - 1]), steps[|steps| - 1])
  }

  ghost function After(from: int, steps: seq<Step>): Store
    requires ValidRun(from, steps)
    decreases |steps|, 1
  {
    if steps == [] then Store(from, map[], [], Sweep({}, from, from))
    else Apply(After(from, steps[..|steps| - 1]), steps[|steps| - 1])
  }

  // ------------------------------------------------- one credential, or none

  ghost predicate OneCredential(s: Store) {
    && (forall i, j, a :: LiveAt(s.tokens, i, a) && LiveAt(s.tokens, j, a) ==> i == j)
    && (forall i, a :: LiveAt(s.tokens, i, a) ==> a in s.accounts && s.accounts[a].status != Disconnected)
    && (forall i :: 0 <= i < |s.tokens| ==> s.tokens[i].expiresAt.Some?)
  }

  lemma LiveAfterStore(tokens: seq<Token>, account: int, expiresAt: Option<int>, i: int, a: int)
    ensures LiveAt(StoreToken(tokens, account, expiresAt), i, a)
       <==> if a == account then i == |tokens| else LiveAt(tokens, i, a)
  {
  }

  lemma RefreshKeepsLive(s: Store, account: int, reply: Reply)
    requires account in s.accounts
    ensures forall i, a :: LiveAt(Refresh(s, account, reply).0.tokens, i, a) <==> LiveAt(s.tokens, i, a)
  {
  }

  lemma StepKeepsOneCredential(s: Store, step: Step)
    requires OneCredential(s) && Enabled(s, step)
    ensures OneCredential(Apply(s, step))
  {
    match step
    case DoConnect(w, account, e) =>
      var t := Connect(s, w, account, e);
      if t != s {
        forall i, a
          ensures LiveAt(t.tokens, i, a) <==> if a == account then i == |s.tokens| else LiveAt(s.tokens, i, a)
        {
          LiveAfterStore(s.tokens, account, Some(s.now + Lifetime(e)), i, a);
        }
      }
    case DoRefresh(account, reply) => RefreshKeepsLive(s, account, reply);
    case Visit(account, reply) => RefreshKeepsLive(s, account, reply);
    case DoDisconnect(account) =>
      assert forall i, a :: LiveAt(RevokeAll(s.tokens, account), i, a) <==> a != account && LiveAt(s.tokens, i, a);
    case _ =>
  }

  // In every reachable state an account has at most one unrevoked token, and
  // none while it is disconnected. No assumption on Meta's answers.
  lemma {:induction false} AlwaysOneCredential(from: int, steps: seq<Step>)
    requires ValidRun(from, steps)
    ensures OneCredential(After(from, steps))
  {
    if steps != [] {
      AlwaysOneCredential(from, steps[..|steps| - 1]);
      StepKeepsOneCredential(After(from, steps[..|steps| - 1]), steps[|steps| - 1]);
    }
  }

  // ----------------------------------------------------- no gap ever occurs

  predicate Refused(s: Store, workspace: int, account: int) {
    account in s.accounts && s.accounts[account].workspace != workspace
  }

  ghost predicate HoldsToken(s: Store, account: int) {
    exists i :: LiveAt(s.tokens, i, account)
  }

  // The account holds a token that a sweep would not look at.
  ghost predicate Skipped(s: Store, account: int) {
    HoldsToken(s, account) && account in s.accounts && s.accounts[account].status == Error
  }

  // A sweep that begins now takes an account that holds a live token exactly
  // when its status is not ERROR.
  lemma SweepTakesUnlessError(from: int, steps: seq<Step>, account: int)
    requires ValidRun(from, steps) && HoldsToken(After(from, steps), account)
    ensures var s := After(from, steps);
            account in s.accounts && (account in Selected(s.accounts) <==> s.accounts[account].status != Error)
  {
    AlwaysOneCredential(from, steps);
  }

  // Sweeps are at most `gap` apart: at every moment the last completed sweep
  // began no longer ago than that. Before the first one counts the start.
  ghost predicate SweptEvery(from: int, steps: seq<Step>, gap: int)
    requires ValidRun(from, steps)
  {
    && After(from, steps).now <= After(from, steps).sweep.covered + gap
    && (steps != [] ==> SweptEvery(from, steps[..|steps| - 1], gap))
  }

  // The lifetime that Meta grants exceeds the gap, and a refresh that is needed
  // succeeds.
  ghost predicate Grants(s: Store, step: Step, account: int, gap: int) {
    match step
    case DoConnect(w, a, e) => a == account && !Refused(s, w, a) ==> Lifetime(e) > gap
    case DoRefresh(a, reply) => a == account && NeedsRefresh(s, a) ==> reply.NewToken? && Lifetime(reply.expiresIn) > gap
    case Visit(a, reply) => a == account && NeedsRefresh(s, a) ==> reply.NewToken? && Lifetime(reply.expiresIn) > gap
    case _ => true
  }

  ghost predicate Granted(from: int, steps: seq<Step>, account: int, gap: int)
    requires ValidRun(from, steps)
  {
    steps != [] ==>
      && Granted(from, steps[..|steps| - 1], account, gap)
      && Grants(After(from, steps[..|steps| - 1]), steps[|steps| - 1], account, gap)
  }

  // No sweep begins while the account is skipped.
  ghost predicate NeverSkipped(from: int, steps: seq<Step>, account: int)
    requires ValidRun(from, steps)
  {
    steps != [] ==>
      && NeverSkipped(from, steps[..|steps| - 1], account)
      && (steps[|steps| - 1].BeginSweep? ==> !Skipped(After(from, steps[..|steps| - 1]), account))
  }

  ghost predicate OutlivesUntil(s: Store, account: int, until: int) {
    forall i :: LiveAt(s.tokens, i, account) ==> s.tokens[i].expiresAt.Some? && until < s.tokens[i].expiresAt.value
  }

  // The token lasts until the next sweep is complete, and once the account has
  // been visited until the one after it.
  ghost predicate Lasting(s: Store, account: int, gap: int) {
    && s.sweep.covered <= s.sweep.began <= s.now
    && OutlivesUntil(s, account, s.sweep.covered + gap)
    && (account !in s.sweep.todo ==> OutlivesUntil(s, account, s.sweep.began + gap))
  }

  lemma ConnectLasts(s: Store, w: int, a: int, e: int, account: int, gap: int)
    requires Lasting(s, account, gap) && Grants(s, DoConnect(w, a, e), account, gap)
    ensures Lasting(Connect(s, w, a, e), account, gap)
  {
    var t := Connect(s, w, a, e);
    if !Refused(s, w, a) {
      forall i
        ensures LiveAt(t.tokens, i, account) <==> if a == account then i == |s.tokens| else LiveAt(s.tokens, i, account)
      {
        LiveAfterStore(s.tokens, a, Some(s.now + Lifetime(e)), i, account);
      }
    }
  }

  // After a visit the token outlives the gap counted from now.
  lemma RefreshLasts(s: Store, a: int, reply: Reply, account: int, gap: int)
    requires OneCredential(s) && a in s.accounts && Lasting(s, account, gap) && gap <= MARGIN
    requires Grants(s, DoRefresh(a, reply), account, gap)
    ensures Lasting(Refresh(s, a, reply).0, account, gap)
    ensures a == account ==> OutlivesUntil(Refresh(s, a, reply).0, account, s.now + gap)
  {
    RefreshKeepsLive(s, a, reply);
  }

  lemma StepLasts(s: Store, step: Step, account: int, gap: int)
    requires OneCredential(s) && Enabled(s, step) && Grants(s, step, account, gap) && gap <= MARGIN
    requires step.BeginSweep? ==> !Skipped(s, account)
    requires Lasting(s, account, gap)
    ensures Lasting(Apply(s, step), account, gap)
  {
    match step
    case DoConnect(w, a, e) => ConnectLasts(s, w, a, e, account, gap);
    case DoRefresh(a, reply) => RefreshLasts(s, a, reply, account, gap);
    case Visit(a, reply) => RefreshLasts(s, a, reply, account, gap);
    case BeginSweep =>
      assert account !in Selected(s.accounts) ==> !HoldsToken(s, account);
    case DoDisconnect(a) =>
      assert forall i :: LiveAt(RevokeAll(s.tokens, a), i, account) <==> a != account && LiveAt(s.tokens, i, account);
    case _ =>
  }

  lemma {:induction false} AlwaysLasting(from: int, steps: seq<Step>, account: int, gap: int)
    requires ValidRun(from, steps) && Granted(from, steps, account, gap) && NeverSkipped(from, steps, account)
    requires gap <= MARGIN
    ensures Lasting(After(from, steps), account, gap)
  {
    if steps != [] {
      var before := steps[..|steps| - 1];
      AlwaysLasting(from, before, account, gap);
      AlwaysOneCredential(from, before);
      StepLasts(After(from, before), steps[|steps| - 1], account, gap);
    }
  }

  // With sweeps at most seven days apart the active token is never past its
  // expiry, at any moment of a run of any length, however late the account was
  // connected and however often it was disconnected.
  lemma NoCredentialGap(from: int, steps: seq<Step>, account: int, gap: int)
    requires ValidRun(from, steps) && SweptEvery(from, steps, gap) && gap <= MARGIN
    requires Granted(from, steps, account, gap) && NeverSkipped(from, steps, account)
    ensures var s := After(from, steps);
            && OutlivesUntil(s, account, s.now)
            && ActiveToken(s, account) != Err(Expired)
  {
    AlwaysLasting(from, steps, account, gap);
  }

  // ------------------------------------------------------ when a gap occurs

  ghost predicate Regular(from: int, steps: seq<Step>, account: int, gap: int) {
    ValidRun(from, steps) && SweptEvery(from, steps, gap) && Granted(from, steps, account, gap)
  }

  lemma OneMoreStep(from: int, steps: seq<Step>, step: Step, account: int, gap: int)
    requires Regular(from, steps, account, gap)
    requires var s := After(from, steps);
             && Enabled(s, step) && Grants(s, step, account, gap)
             && Apply(s, step).now <= Apply(s, step).sweep.covered + gap
    ensures Regular(from, steps + [step], account, gap)
    ensures After(from, steps + [step]) == Apply(After(from, steps), step)
    ensures NeverSkipped(from, steps, account) && (step.BeginSweep? ==> !Skipped(After(from, steps), account)) ==>
              NeverSkipped(from, steps + [step], account)
  {
    assert (steps + [step])[..|steps|] == steps;
  }

  function LapsingRun(gap: int): seq<Step>
    requires gap > MARGIN
  {
    var life := (gap / SECOND + 1) * SECOND;
    [] + [DoConnect(0, 0, gap / SECOND + 1)] + [Tick(life - MARGIN - 1)] + [BeginSweep]
    + [Visit(0, NewToken(gap / SECOND + 1))] + [Tick(MARGIN + 1)]
  }

  // A run in which sweeps are `gap` apart, skip nobody, and the token lapses.
  lemma TokenLapses(gap: int)
    requires gap > MARGIN
    ensures Regular(0, LapsingRun(gap), 0, gap) && NeverSkipped(0, LapsingRun(gap), 0)
    ensures ActiveToken(After(0, LapsingRun(gap)), 0) == Err(Expired)
  {
    var life := Lifetime(gap / SECOND + 1);
    assert gap < life <= gap + SECOND;
    var e := gap / SECOND + 1;
    OneMoreStep(0, [], DoConnect(0, 0, e), 0, gap);
    var r1 := [] + [DoConnect(0, 0, e)];
    OneMoreStep(0, r1, Tick(life - MARGIN - 1), 0, gap);
    var r2 := r1 + [Tick(life - MARGIN - 1)];
    var s2 := After(0, r2);
    assert s2.accounts == map[0 := Account(0, Connected)] && s2.tokens == [Token(0, Some(life), false)];
    OneMoreStep(0, r2, BeginSweep, 0, gap);
    var r3 := r2 + [BeginSweep];
    assert Selected(s2.accounts) == {0};
    assert After(0, r3).sweep == Sweep({0}, life - MARGIN - 1, 0);
    OneMoreStep(0, r3, Visit(0, NewToken(e)), 0, gap);
    var r4 := r3 + [Visit(0, NewToken(e))];
    OneMoreStep(0, r4, Tick(MARGIN + 1), 0, gap);
  }

  // An account in ERROR that sweeps pass by, `n` times.
  function SkippingRun(gap: nat, n: nat): seq<Step> {
    if n == 0 then [] + [DoConnect(0, 0, gap / SECOND + 1)] + [DoMarkError(0, false)]
    else SkippingRun(gap, n - 1) + [Tick(gap)] + [BeginSweep]
  }

  ghost predicate Stuck(s: Store, gap: nat, n: nat) {
    && s.now == s.sweep.covered == n * gap && s.sweep.todo == {}
    && s.accounts == map[0 := Account(0, Error)]
    && s.tokens == [Token(0, Some(Lifetime(gap / SECOND + 1)), false)]
  }

  lemma StuckAtFirst(gap: nat)
    ensures Regular(0, SkippingRun(gap, 0), 0, gap) && Stuck(After(0, SkippingRun(gap, 0)), gap, 0)
  {
    var e := gap / SECOND + 1;
    OneMoreStep(0, [], DoConnect(0, 0, e), 0, gap);
    OneMoreStep(0, [] + [DoConnect(0, 0, e)], DoMarkError(0, false), 0, gap);
  }

  lemma StuckOnceMore(gap: nat, n: nat, steps: seq<Step>)
    requires Regular(0, steps, 0, gap) && Stuck(After(0, steps), gap, n)
    ensures Regular(0, steps + [Tick(gap)] + [BeginSweep], 0, gap)
    ensures Stuck(After(0, steps + [Tick(gap)] + [BeginSweep]), gap, n + 1)
  {
    OneMoreStep(0, steps, Tick(gap), 0, gap);
    assert Selected(map[0 := Account(0, Error)]) == {};
    assert n * gap + gap == (n + 1) * gap;
    OneMoreStep(0, steps + [Tick(gap)], BeginSweep, 0, gap);
  }

  lemma {:induction false} SkippedAllAlong(gap: nat, n: nat)
    ensures Regular(0, SkippingRun(gap, n), 0, gap) && Stuck(After(0, SkippingRun(gap, n)), gap, n)
  {
    if n == 0 {
      StuckAtFirst(gap);
    } else {
      SkippedAllAlong(gap, n - 1);
      StuckOnceMore(gap, n - 1, SkippingRun(gap, n - 1));
    }
  }

  // However short the interval between sweeps, a skipped token lapses.
  lemma SkippedTokenLapses(gap: nat)
    requires gap > 0
    ensures var steps := SkippingRun(gap, Lifetime(gap / SECOND + 1));
            Regular(0, steps, 0, gap) && ActiveToken(After(0, steps), 0) == Err(Expired)
  {
    var n := Lifetime(gap / SECOND + 1);
    SkippedAllAlong(gap, n);
    AtLeast(n, gap);
  }

  lemma AtLeast(n: nat, gap: nat)
    requires gap > 0
    ensures n * gap >= n
  {
  }

  // A gap of zero lets no time pass.
  lemma {:induction false} NoTimeNoLapse(from: int, steps: seq<Step>, account: int, gap: int)
    requires Regular(from, steps, account, gap) && gap <= 0
    ensures gap == 0 && After(from, steps).now == from
    ensures Lasting(After(from, steps), account, 0)
  {
    if steps != [] {
      var before := steps[..|steps| - 1];
      var step := steps[|steps| - 1];
      NoTimeNoLapse(from, before, account, gap);
      AlwaysOneCredential(from, before);
      var s := After(from, before);
      if !step.BeginSweep? {
        StepLasts(s, step, account, 0);
      }
    }
  }

  // Whether sweeps that are `gap` apart rule out every lapse, for accounts that
  // no sweep skips or for all.
  ghost predicate GapFree(gap: int, skips: bool) {
    forall from, steps, account ::
      Regular(from, steps, account, gap) && (skips || NeverSkipped(from, steps, account)) ==>
        ActiveToken(After(from, steps), account) != Err(Expired)
  }

  // Lapses are ruled out exactly when sweeps are at most seven days apart and
  // none begins while the account is in ERROR with a live token. If that may
  // happen, only sweeps without any time between them rule them out.
  lemma GapFreeIffWithinMargin(gap: int, skips: bool)
    ensures GapFree(gap, skips) <==> gap <= if skips then 0 else MARGIN
  {
    if gap <= if skips then 0 else MARGIN {
      forall from, steps, account | Regular(from, steps, account, gap) && (skips || NeverSkipped(from, steps, account))
        ensures ActiveToken(After(from, steps), account) != Err(Expired)
      {
        if skips {
          NoTimeNoLapse(from, steps, account, gap);
        } else {
          NoCredentialGap(from, steps, account, gap);
        }
      }
    } else if skips {
      SkippedTokenLapses(gap);
    } else {
      TokenLapses(gap);
    }
  }
}
