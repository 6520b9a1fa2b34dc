// Sign-in, sessions and refresh-token rotation of
// app/modules/identity/service.py as a transition system over rows. The
// rotation follows section 5.2.2.3 of RFC 6819. Instants and durations are
// microseconds; ids, token hashes and family ids are opaque and never repeat.
module IdentityModel {
  import opened Wrappers

  const MINUTE: int := 60_000_000
  const DAY: int := 24 * 60 * MINUTE
  const MAX_FAILED_LOGINS: int := 5
  const LOCKOUT: int := 15 * MINUTE

  datatype Settings = Settings(refreshTtl: int, maxAge: int, sessionTtl: int, grace: int, resetTtl: int)

  // -------------------------------------------------------------------- rows

  datatype User = User(active: bool, failedLogins: nat, lockedUntil: Option<int>)

  datatype Reason = NotRevoked | RotatedReason | ReuseReason | SessionReason

  datatype Session = Session(user: int, active: bool, expiresAt: int, lastSeenAt: int, revokedAt: Option<int>)

  datatype Token = Token(
    session: int, user: int, family: int, revoked: bool, revokedAt: Option<int>, reason: Reason,
    usedAt: Option<int>, replacedBy: Option<int>, expiresAt: int, chainExpiresAt: int)

  datatype ResetToken = ResetToken(user: int, expiresAt: int, consumed: bool)

  // History: the ids of each family in the order they were minted, and the
  // passwords that `authenticate` checked.
  datatype Check = Check(user: int, at: int, ok: bool)

  datatype Sys = Sys(
    now: int, users: map<int, User>, sessions: map<int, Session>, tokens: map<int, Token>,
    resets: map<int, ResetToken>, chains: map<int, seq<int>>, checks: seq<Check>)

  predicate IsPast(s: Sys, at: int) {
    at <= s.now
  }

  // ------------------------------------------------------------------- sign-in

  predicate IsLocked(s: Sys, u: User) {
    u.lockedUntil.Some? && !IsPast(s, u.lockedUntil.value)
  }

  // _register_failed_login
  function FailLogin(u: User, now: int): User {
    var count := u.failedLogins + 1;
    if count >= MAX_FAILED_LOGINS then u.(failedLogins := 0, lockedUntil := Some(now + LOCKOUT))
    else u.(failedLogins := count)
  }

  function NewSession(c: Settings, user: int, now: int): Session {
    Session(user, true, now + c.sessionTtl, now, None)
  }

  // _issue_new_chain
  function NewToken(c: Settings, session: int, user: int, family: int, now: int): Token {
    Token(session, user, family, false, None, NotRevoked, None, None,
          Min(now + c.refreshTtl, now + c.maxAge), now + c.maxAge)
  }

  datatype AuthResult = UnknownEmail | Disabled | Locked | WrongPassword | SignedIn

  function Authenticate(c: Settings, s: Sys, user: int, passwordOk: bool, sid: int, tid: int, family: int): (Sys, AuthResult) {
    if user !in s.users then (s, UnknownEmail)
    else if !s.users[user].active then (s, Disabled)
    else if IsLocked(s, s.users[user]) then (s, Locked)
    else if !passwordOk then
      (s.(users := s.users[user := FailLogin(s.users[user], s.now)], checks := s.checks + [Check(user, s.now, false)]),
       WrongPassword)
    else
      (s.(users := s.users[user := s.users[user].(failedLogins := 0, lockedUntil := None)],
          sessions := s.sessions[sid := NewSession(c, user, s.now)],
          tokens := s.tokens[tid := NewToken(c, sid, user, family, s.now)],
          chains := s.chains[family := [tid]],
          checks := s.checks + [Check(user, s.now, true)]),
       SignedIn)
  }

  // ---------------------------------------------------------------- revocation

  function Revoke(t: Token, now: int, reason: Reason): Token {
    if t.revoked then t else t.(revoked := true, revokedAt := Some(now), reason := reason)
  }

  // revoke_token_family
  function RevokeFamily(tokens: map<int, Token>, family: int, now: int): map<int, Token> {
    map t | t in tokens :: if tokens[t].family == family then Revoke(tokens[t], now, ReuseReason) else tokens[t]
  }

  function EndSession(x: Session, now: int): Session {
    x.(active := false, revokedAt := Some(now))
  }

  // revoke_session
  function RevokeSession(s: Sys, sid: int): Sys {
    if sid !in s.sessions then s
    else
      s.(sessions := s.sessions[sid := EndSession(s.sessions[sid], s.now)],
         tokens := map t | t in s.tokens ::
                     if s.tokens[t].session == sid then Revoke(s.tokens[t], s.now, SessionReason) else s.tokens[t])
  }

  // revoke_all_sessions
  function RevokeAll(s: Sys, user: int): Sys {
    s.(sessions := map x | x in s.sessions ::
                     if s.sessions[x].user == user && s.sessions[x].active then EndSession(s.sessions[x], s.now)
                     else s.sessions[x],
       tokens := map t | t in s.tokens ::
                   if s.tokens[t].user == user then Revoke(s.tokens[t], s.now, SessionReason) else s.tokens[t])
  }

  datatype PasswordResult = WrongOrInvalid | TooWeak | Changed

  function ChangePassword(s: Sys, user: int, currentOk: bool, strong: bool): (Sys, PasswordResult) {
    if !currentOk then (s, WrongOrInvalid)
    else if !strong then (s, TooWeak)
    else (RevokeAll(s, user), Changed)
  }

  function ConsumeReset(s: Sys, id: int, strong: bool): (Sys, PasswordResult) {
    if id !in s.resets || s.resets[id].consumed || IsPast(s, s.resets[id].expiresAt) || s.resets[id].user !in s.users
    then (s, WrongOrInvalid)
    else if !strong then (s, TooWeak)
    else (RevokeAll(s.(resets := s.resets[id := s.resets[id].(consumed := true)]), s.resets[id].user), Changed)
  }

  // ------------------------------------------------------------------ rotation

  datatype RotateResult =
    | InvalidToken | AccountInactive | SessionRevoked | SessionExpired
    | Reissued | ReuseDetected | TokenExpired | Rotated

  // A retry inside the grace window, answered with a new access token only.
  // Whether the replacement is itself revoked is not looked at.
  predicate InGrace(c: Settings, s: Sys, t: Token) {
    && t.usedAt.Some? && t.replacedBy.Some?
    && s.now - t.usedAt.value <= c.grace
    && t.replacedBy.value in s.tokens && !IsPast(s, s.tokens[t.replacedBy.value].expiresAt)
  }

  function Replacement(c: Settings, t: Token, now: int): Token {
    var row := NewToken(c, t.session, t.user, t.family, now);
    row.(chainExpiresAt := t.chainExpiresAt, expiresAt := Min(row.expiresAt, t.chainExpiresAt))
  }

  // rotate_refresh_token; `newId` is the id a new token row would get.
  function Rotate(c: Settings, s: Sys, id: int, newId: int): (Sys, RotateResult) {
    if id !in s.tokens then (s, InvalidToken)
    else
      var t := s.tokens[id];
      if t.user !in s.users || !s.users[t.user].active then (s, AccountInactive)
      else if t.session !in s.sessions || !s.sessions[t.session].active || s.sessions[t.session].revokedAt.Some? then (s, SessionRevoked)
      else if IsPast(s, s.sessions[t.session].expiresAt) then (s, SessionExpired)
      else if t.revoked then
        if InGrace(c, s, t) then (s, Reissued)
        else (s.(tokens := RevokeFamily(s.tokens, t.family, s.now)), ReuseDetected)
      else if IsPast(s, t.expiresAt) || IsPast(s, t.chainExpiresAt) then (s, TokenExpired)
      else (DoRotate(c, s, id, newId), Rotated)
  }

  function DoRotate(c: Settings, s: Sys, id: int, newId: int): Sys
    requires id in s.tokens
  {
    var t := s.tokens[id];
    var used := t.(usedAt := Some(s.now), revoked := true, revokedAt := Some(s.now), reason := RotatedReason, replacedBy := Some(newId));
    s.(tokens := s.tokens[id := used][newId := Replacement(c, t, s.now)],
       chains := if t.family in s.chains then s.chains[t.family := s.chains[t.family] + [newId]] else s.chains,
       sessions := if t.session in s.sessions then s.sessions[t.session := s.sessions[t.session].(lastSeenAt := s.now)] else s.sessions)
  }

  // --------------------------------------------------------------------- runs

  datatype Step =
    | Tick(elapsed: nat)
    | Register(user: int)
    | SetActive(user: int, active: bool)
    | SignIn(user: int, passwordOk: bool, sid: int, tid: int, family: int)
    | Present(token: int, newId: int)
    | EndOne(sid: int)
    | EndAll(user: int)
    | NewPassword(user: int, currentOk: bool, strong: bool)
    | RequestReset(id: int, user: int)
    | UseReset(id: int, strong: bool)

  // The id generators never repeat an id.
  predicate Enabled(s: Sys, step: Step) {
    match step
    case Register(u) => u !in s.users
    case SetActive(u, _) => u in s.users
    case SignIn(_, _, sid, tid, family) => sid !in s.sessions && tid !in s.tokens && family !in s.chains
    case Present(_, newId) => newId !in s.tokens
    case RequestReset(id, u) => id !in s.resets && u in s.users
    case _ => true
  }

  function Apply(c: Settings, s: Sys, step: Step): Sys {
    match step
    case Tick(d) => s.(now := s.now + d)
    case Register(u) => s.(users := s.users[u := User(true, 0, None)])
    case SetActive(u, active) => if u in s.users then s.(users := s.users[u := s.users[u].(active := active)]) else s
    case SignIn(u, ok, sid, tid, family) => Authenticate(c, s, u, ok, sid, tid, family).0
    case Present(id, newId) => Rotate(c, s, id, newId).0
    case EndOne(sid) => RevokeSession(s, sid)
    case EndAll(u) => RevokeAll(s, u)
    case NewPassword(u, ok, strong) => ChangePassword(s, u, ok, strong).0
    case RequestReset(id, u) => s.(resets := s.resets[id := ResetToken(u, s.now + c.resetTtl, false)])
    case UseReset(id, strong) => ConsumeReset(s, id, strong).0
  }

  function Empty(now: int): Sys {
    Sys(now, map[], map[], map[], map[], map[], [])
  }

  // A run that starts in state `s`.
  ghost predicate ValidRun(c: Settings, s: Sys, steps: seq<Step>) {
    steps != [] ==> ValidRun(c, s, steps[..|steps| - 1]) && Enabled(After(c, s, steps[..|steps| - 1]), steps[|steps| - 1])
  }

  function After(c: Settings, s: Sys, steps: seq<Step>): Sys {
    if steps == [] then s else Apply(c, After(c, s, steps[..|steps| - 1]), steps[|steps| - 1])
  }

  // A run may be continued by any enabled step.
  lemma Then(c: Settings, s: Sys, steps: seq<Step>, step: Step)
    requires ValidRun(c, s, steps) && Enabled(After(c, s, steps), step)
    ensures ValidRun(c, s, steps + [step]) && After(c, s, steps + [step]) == Apply(c, After(c, s, steps), step)
  {
    assert (steps + [step])[..|steps + [step]| - 1] == steps;
  }
}
