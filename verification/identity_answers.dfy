// Who gets an answer: when a presented token, a login, a password change or a
// reset link succeeds, told from the rows and from what happened before.
module IdentityAnswers {
  import opened Wrappers
  import opened IdentityModel
  import opened IdentityFamilies
  import opened IdentityTheorems
  import opened IdentitySessions

  // ------------------------------------------------------------ refresh tokens

  ghost predicate ActiveUser(s: Sys, user: int) {
    user in s.users && s.users[user].active
  }

  ghost predicate OpenSession(s: Sys, sid: int) {
    sid in s.sessions && s.sessions[sid].active && s.sessions[sid].revokedAt.None? && s.now < s.sessions[sid].expiresAt
  }

  // An access token is handed out only to an active user whose session is
  // neither ended nor expired; a new refresh token, exactly if moreover the
  // presented one is live and not expired.
  lemma AnswersNeedLiveSession(c: Settings, s: Sys, id: int, newId: int)
    ensures var (t, r) := Rotate(c, s, id, newId);
            && (r == Reissued || r == Rotated ==>
                  id in s.tokens && ActiveUser(s, s.tokens[id].user) && OpenSession(s, s.tokens[id].session))
            && (r == Rotated <==>
                  && id in s.tokens && ActiveUser(s, s.tokens[id].user) && OpenSession(s, s.tokens[id].session)
                  && !s.tokens[id].revoked && s.now < Min(s.tokens[id].expiresAt, s.tokens[id].chainExpiresAt))
            && (r == Reissued ==> s.tokens[id].revoked)
            && (r != Rotated && r != ReuseDetected ==> t == s)
  {
  }

  // Why a token is refused, most general reason first.
  lemma RefusalsSayWhy(c: Settings, s: Sys, id: int, newId: int)
    ensures var r := Rotate(c, s, id, newId).1;
            && (r == InvalidToken <==> id !in s.tokens)
            && (r == AccountInactive <==> id in s.tokens && !ActiveUser(s, s.tokens[id].user))
            && (id in s.tokens && ActiveUser(s, s.tokens[id].user) ==>
                  var x := s.tokens[id].session;
                  && (r == SessionRevoked <==> x !in s.sessions || !s.sessions[x].active || s.sessions[x].revokedAt.Some?)
                  && (r == SessionExpired <==> x in s.sessions && s.sessions[x].active && s.sessions[x].revokedAt.None?
                                               && s.sessions[x].expiresAt <= s.now)
                  && (r == TokenExpired <==> OpenSession(s, x) && !s.tokens[id].revoked
                                             && (s.tokens[id].expiresAt <= s.now || s.tokens[id].chainExpiresAt <= s.now)))
  {
  }

  // Once a step has signed a session out, no token of it is ever answered again:
  // whatever happens later, presenting one changes nothing and is refused.
  lemma EndedSessionGetsNoAnswer(c: Settings, s: Sys, step: Step, sid: int, later: seq<Step>, id: int, newId: int)
    requires Inv(s) && Enabled(s, step) && EndsSession(s, step, sid)
    requires ValidRun(c, Apply(c, s, step), later)
    requires id in After(c, Apply(c, s, step), later).tokens
    requires After(c, Apply(c, s, step), later).tokens[id].session == sid
    ensures var t := After(c, Apply(c, s, step), later);
            && Rotate(c, t, id, newId).0 == t
            && Rotate(c, t, id, newId).1 == if ActiveUser(t, t.tokens[id].user) then SessionRevoked else AccountInactive
  {
    EndingEnds(c, s, step, sid);
    StepKeepsInv(c, s, step);
    EndedSessionsStayEnded(c, Apply(c, s, step), later, sid);
    RefusalsSayWhy(c, After(c, Apply(c, s, step), later), id, newId);
  }

  lemma EndingEnds(c: Settings, s: Sys, step: Step, sid: int)
    requires Enabled(s, step) && EndsSession(s, step, sid)
    ensures sid in Apply(c, s, step).sessions && !Apply(c, s, step).sessions[sid].active
  {
    StepKeepsRows(c, s, step);
    if s.sessions[sid].active {
      StepEndsSessionIff(c, s, step, sid);
    }
  }

  // The rows that a login and a rotation write.
  lemma MintedTokens(c: Settings, s: Sys, id: int, newId: int, user: int, sid: int, tid: int, family: int)
    requires newId !in s.tokens
    ensures Authenticate(c, s, user, true, sid, tid, family).1 == SignedIn ==>
              var t := Authenticate(c, s, user, true, sid, tid, family).0;
              && tid in t.tokens && !t.tokens[tid].revoked && t.tokens[tid].user == user && t.tokens[tid].session == sid
              && t.tokens[tid].chainExpiresAt == s.now + c.maxAge
              && t.tokens[tid].expiresAt == Min(s.now + c.refreshTtl, s.now + c.maxAge)
              && sid in t.sessions && t.sessions[sid].active && t.sessions[sid].user == user
              && t.sessions[sid].expiresAt == s.now + c.sessionTtl && t.sessions[sid].lastSeenAt == s.now
    ensures Rotate(c, s, id, newId).1 == Rotated ==>
              var t := Rotate(c, s, id, newId).0;
              && newId in t.tokens && !t.tokens[newId].revoked && SameChain(t.tokens[newId], s.tokens[id])
              && t.tokens[newId].expiresAt == Min(Min(s.now + c.refreshTtl, s.now + c.maxAge), s.tokens[id].chainExpiresAt)
              && t.tokens[id].revoked && t.tokens[id].usedAt == Some(s.now) && t.tokens[id].replacedBy == Some(newId)
              && s.tokens[id].session in t.sessions && t.sessions[s.tokens[id].session].lastSeenAt == s.now
  {
    AnswersNeedLiveSession(c, s, id, newId);
  }

  lemma MintedWithinTtl(c: Settings, s: Sys, step: Step, id: int)
    requires Enabled(s, step) && id !in s.tokens && id in Apply(c, s, step).tokens
    ensures Apply(c, s, step).tokens[id].expiresAt <= s.now + c.refreshTtl
  {
    match step
    case Present(_, _) =>
    case UseReset(_, _) =>
    case _ =>
  }

  // Whatever step minted it, a token is not rotated once the refresh lifetime
  // since then is over.
  lemma IdleTokenExpires(c: Settings, s: Sys, step: Step, id: int, later: seq<Step>, newId: int)
    requires Enabled(s, step) && id !in s.tokens && id in Apply(c, s, step).tokens && ValidRun(c, Apply(c, s, step), later)
    ensures var t := After(c, Apply(c, s, step), later);
            Rotate(c, t, id, newId).1 == Rotated ==> t.now < s.now + c.refreshTtl
  {
    MintedWithinTtl(c, s, step, id);
    RunKeepsRows(c, Apply(c, s, step), later);
    AnswersNeedLiveSession(c, After(c, Apply(c, s, step), later), id, newId);
  }

  // ------------------------------------------------------- what kills a token

  ghost predicate KilledBy(c: Settings, s: Sys, step: Step, id: int)
    requires id in s.tokens
  {
    || (step.Present? && step.token == id && Rotate(c, s, step.token, step.newId).1 == Rotated)
    || (step.Present? && step.token in s.tokens && Rotate(c, s, step.token, step.newId).1 == ReuseDetected
        && s.tokens[step.token].family == s.tokens[id].family)
    || EndsSession(s, step, s.tokens[id].session)
  }

  // The row says when it was revoked and why.
  predicate StampedBy(t: Token, now: int, reason: Reason) {
    t.revokedAt == Some(now) && t.reason == reason
  }

  // A revoked row is never written again.
  lemma RevokedRowsStay(c: Settings, s: Sys, step: Step, id: int)
    requires Enabled(s, step) && id in s.tokens && s.tokens[id].revoked
    ensures id in Apply(c, s, step).tokens && Apply(c, s, step).tokens[id] == s.tokens[id]
  {
    match step
    case Present(_, _) =>
    case UseReset(_, _) =>
    case _ =>
  }

  // The token is live, and its session is one of its user.
  ghost predicate LiveToken(s: Sys, id: int) {
    && id in s.tokens && !s.tokens[id].revoked
    && s.tokens[id].session in s.sessions && s.sessions[s.tokens[id].session].user == s.tokens[id].user
  }

  lemma PresentKillsIff(c: Settings, s: Sys, token: int, newId: int, id: int)
    requires newId !in s.tokens && LiveToken(s, id)
    ensures var t := Rotate(c, s, token, newId).0;
            && id in t.tokens && (t.tokens[id].revoked <==> KilledBy(c, s, Present(token, newId), id))
            && (t.tokens[id].revoked ==> StampedBy(t.tokens[id], s.now, if token == id then RotatedReason else ReuseReason))
  {
  }

  lemma SignOutKillsIff(c: Settings, s: Sys, step: Step, id: int)
    requires Enabled(s, step) && !step.Present? && LiveToken(s, id)
    ensures id in Apply(c, s, step).tokens && (Apply(c, s, step).tokens[id].revoked <==> KilledBy(c, s, step, id))
    ensures Apply(c, s, step).tokens[id].revoked ==> StampedBy(Apply(c, s, step).tokens[id], s.now, SessionReason)
  {
    match step
    case UseReset(_, _) =>
    case _ =>
  }

  // A live token dies exactly by being rotated, by reuse in its family, or with
  // its session. Tokens of other families, sessions and users stay live.
  lemma TokenDiesIff(c: Settings, s: Sys, step: Step, id: int)
    requires Inv(s) && Enabled(s, step) && id in s.tokens && !s.tokens[id].revoked
    ensures id in Apply(c, s, step).tokens
    ensures Apply(c, s, step).tokens[id].revoked <==> KilledBy(c, s, step, id)
    ensures Apply(c, s, step).tokens[id].revoked ==>
              StampedBy(Apply(c, s, step).tokens[id], s.now,
                        if !step.Present? then SessionReason else if step.token == id then RotatedReason else ReuseReason)
  {
    assert TokenOk(s, id, s.tokens[id]);
    match step
    case Present(token, newId) => PresentKillsIff(c, s, token, newId, id);
    case _ => SignOutKillsIff(c, s, step, id);
  }

  lemma {:induction false} LiveTokenIsKilled(c: Settings, s: Sys, steps: seq<Step>, id: int)
    requires Inv(s) && ValidRun(c, s, steps) && id in s.tokens && !s.tokens[id].revoked
    ensures id in After(c, s, steps).tokens
    ensures After(c, s, steps).tokens[id].revoked <==> SomeStepKills(c, s, steps, id)
  {
    if steps != [] {
      var before := steps[..|steps| - 1];
      LiveTokenIsKilled(c, s, before, id);
      AlwaysInv(c, s, before);
      StepKeepsRows(c, After(c, s, before), steps[|steps| - 1]);
      if !After(c, s, before).tokens[id].revoked {
        TokenDiesIff(c, After(c, s, before), steps[|steps| - 1], id);
      }
    }
  }

  ghost predicate SomeStepKills(c: Settings, s: Sys, steps: seq<Step>, id: int) {
    steps != [] &&
      (SomeStepKills(c, s, steps[..|steps| - 1], id)
       || (id in After(c, s, steps[..|steps| - 1]).tokens
           && KilledBy(c, After(c, s, steps[..|steps| - 1]), steps[|steps| - 1], id)))
  }

  // -------------------------------------------------------- disabled accounts

  // While an account is disabled it gets nothing: no login, whatever the
  // password, and no answer to any of its tokens.
  lemma DisabledGetsNothing(c: Settings, s: Sys, user: int, passwordOk: bool, sid: int, tid: int, family: int, id: int, newId: int)
    requires user in s.users && !s.users[user].active
    ensures Authenticate(c, s, user, passwordOk, sid, tid, family) == (s, Disabled)
    ensures id in s.tokens && s.tokens[id].user == user ==> Rotate(c, s, id, newId) == (s, AccountInactive)
  {
  }

  // An account is active exactly as its last step of that kind left it.
  lemma ActivityAfterStep(c: Settings, s: Sys, step: Step, user: int)
    requires Enabled(s, step) && user in s.users
    ensures user in Apply(c, s, step).users
    ensures Apply(c, s, step).users[user].active ==
              if step.SetActive? && step.user == user then step.active else s.users[user].active
  {
    match step
    case Present(_, _) =>
    case _ =>
  }

  // ---------------------------------------------------------------- passwords

  // A password is changed exactly with the right current one and a strong new
  // one; otherwise nothing happens.
  lemma PasswordChangesIff(s: Sys, user: int, currentOk: bool, strong: bool)
    ensures var (t, r) := ChangePassword(s, user, currentOk, strong);
            && (r == Changed <==> currentOk && strong)
            && (r == WrongOrInvalid <==> !currentOk)
            && (r != Changed ==> t == s)
  {
  }

  // Some step of the run used the link to change the password.
  ghost predicate LinkUsed(c: Settings, s: Sys, steps: seq<Step>, id: int) {
    steps != [] &&
      (LinkUsed(c, s, steps[..|steps| - 1], id)
       || (steps[|steps| - 1].UseReset? && steps[|steps| - 1].id == id
           && ConsumeReset(After(c, s, steps[..|steps| - 1]), id, steps[|steps| - 1].strong).1 == Changed))
  }

  ghost predicate OpenLink(s: Sys, id: int, user: int, expiresAt: int, used: bool) {
    && id in s.resets && user in s.users && s.resets[id] == ResetToken(user, expiresAt, used)
  }

  lemma StepKeepsOpenLink(c: Settings, s: Sys, step: Step, id: int, user: int, expiresAt: int, used: bool)
    requires Enabled(s, step) && OpenLink(s, id, user, expiresAt, used)
    ensures OpenLink(Apply(c, s, step), id, user, expiresAt,
                     used || (step.UseReset? && step.id == id && ConsumeReset(s, id, step.strong).1 == Changed))
  {
    match step
    case Present(_, _) =>
    case UseReset(_, _) =>
    case _ =>
  }

  lemma {:induction false} LinkIsUsedByUse(c: Settings, s: Sys, steps: seq<Step>, id: int, user: int, expiresAt: int)
    requires OpenLink(s, id, user, expiresAt, false) && ValidRun(c, s, steps)
    ensures OpenLink(After(c, s, steps), id, user, expiresAt, LinkUsed(c, s, steps, id))
  {
    if steps != [] {
      var before := steps[..|steps| - 1];
      LinkIsUsedByUse(c, s, before, id, user, expiresAt);
      StepKeepsOpenLink(c, After(c, s, before), steps[|steps| - 1], id, user, expiresAt, LinkUsed(c, s, before, id));
    }
  }

  // A reset link changes the password exactly if the new one is strong, the
  // link's lifetime since the request is not over, and no step used it before.
  // Otherwise nothing happens.
  lemma ResetLinkWorksIff(c: Settings, s: Sys, id: int, user: int, later: seq<Step>, strong: bool)
    requires Enabled(s, RequestReset(id, user)) && ValidRun(c, Apply(c, s, RequestReset(id, user)), later)
    ensures var start := Apply(c, s, RequestReset(id, user));
            var t := After(c, start, later);
            && (ConsumeReset(t, id, strong).1 == Changed <==>
                  strong && t.now < s.now + c.resetTtl && !LinkUsed(c, start, later, id))
            && (ConsumeReset(t, id, strong).1 != Changed ==> ConsumeReset(t, id, strong).0 == t)
  {
    LinkIsUsedByUse(c, Apply(c, s, RequestReset(id, user)), later, id, user, s.now + c.resetTtl);
  }
}
