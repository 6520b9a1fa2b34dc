// How sessions end: signing out is complete and lasts, a reset link works once,
// and nothing else ends a session.
module IdentitySessions {
  import opened Wrappers
  import opened IdentityModel
  import opened IdentityFamilies
  import opened IdentityTheorems

  // ------------------------------------------------------------------ sign-out

  // The user has no active session and no live token.
  ghost predicate SignedOut(s: Sys, user: int) {
    && (forall x :: x in s.sessions && s.sessions[x].user == user ==> !s.sessions[x].active)
    && (forall id :: id in s.tokens && s.tokens[id].user == user ==> s.tokens[id].revoked)
  }

  // Signing out everywhere, a changed password and a used reset link end every
  // session and token of the user.
  lemma SignOutIsComplete(s: Sys, user: int, reset: int)
    ensures SignedOut(RevokeAll(s, user), user)
    ensures ChangePassword(s, user, true, true).1 == Changed && SignedOut(ChangePassword(s, user, true, true).0, user)
    ensures ConsumeReset(s, reset, true).1 == Changed ==> SignedOut(ConsumeReset(s, reset, true).0, s.resets[reset].user)
  {
  }

  lemma PresentKeepsSignedOut(c: Settings, s: Sys, id: int, newId: int, user: int)
    requires Inv(s) && newId !in s.tokens && SignedOut(s, user)
    ensures SignedOut(Rotate(c, s, id, newId).0, user)
  {
    if id in s.tokens {
      assert TokenOk(s, id, s.tokens[id]);
    }
  }

  lemma RevokeAllKeepsSignedOut(s: Sys, other: int, user: int)
    requires SignedOut(s, user)
    ensures SignedOut(RevokeAll(s, other), user)
  {
  }

  // The step is a login of the user that succeeds.
  predicate LogsIn(c: Settings, s: Sys, step: Step, user: int) {
    && step.SignIn? && step.user == user
    && Authenticate(c, s, step.user, step.passwordOk, step.sid, step.tid, step.family).1 == SignedIn
  }

  lemma StepKeepsSignedOut(c: Settings, s: Sys, step: Step, user: int)
    requires Inv(s) && Enabled(s, step) && SignedOut(s, user) && !LogsIn(c, s, step, user)
    ensures SignedOut(Apply(c, s, step), user)
  {
    match step
    case Present(id, newId) => PresentKeepsSignedOut(c, s, id, newId, user);
    case EndAll(u) => RevokeAllKeepsSignedOut(s, u, user);
    case NewPassword(u, _, _) => RevokeAllKeepsSignedOut(s, u, user);
    case UseReset(id, strong) =>
      if ConsumeReset(s, id, strong).1 == Changed {
        RevokeAllKeepsSignedOut(s.(resets := s.resets[id := s.resets[id].(consumed := true)]), s.resets[id].user, user);
      }
    case _ =>
  }

  ghost predicate NoLogin(c: Settings, s: Sys, steps: seq<Step>, user: int) {
    steps != [] ==>
      NoLogin(c, s, steps[..|steps| - 1], user) && !LogsIn(c, After(c, s, steps[..|steps| - 1]), steps[|steps| - 1], user)
  }

  // That lasts until the next successful login of the user, whatever passwords
  // are tried on a locked or disabled account.
  lemma {:induction false} SignedOutUntilNextLogin(c: Settings, s: Sys, steps: seq<Step>, user: int)
    requires Inv(s) && SignedOut(s, user) && ValidRun(c, s, steps) && NoLogin(c, s, steps, user)
    ensures SignedOut(After(c, s, steps), user)
  {
    if steps != [] {
      SignedOutUntilNextLogin(c, s, steps[..|steps| - 1], user);
      AlwaysInv(c, s, steps[..|steps| - 1]);
      StepKeepsSignedOut(c, After(c, s, steps[..|steps| - 1]), steps[|steps| - 1], user);
    }
  }

  // A session that ended stays ended, and none of its tokens is live, in every
  // continuation of every run.
  lemma EndedSessionsStayEnded(c: Settings, s: Sys, steps: seq<Step>, sid: int)
    requires Inv(s) && ValidRun(c, s, steps) && sid in s.sessions && !s.sessions[sid].active
    ensures var t := After(c, s, steps);
            && sid in t.sessions && !t.sessions[sid].active
            && (forall id :: id in t.tokens && t.tokens[id].session == sid ==> t.tokens[id].revoked)
  {
    var t := After(c, s, steps);
    RunKeepsRows(c, s, steps);
    AlwaysInv(c, s, steps);
    forall id | id in t.tokens && t.tokens[id].session == sid
      ensures t.tokens[id].revoked
    {
      assert TokenOk(t, id, t.tokens[id]);
    }
  }

  // ------------------------------------------------------ what ends a session

  // The step signs the session out.
  predicate EndsSession(s: Sys, step: Step, sid: int) {
    && sid in s.sessions
    && match step
       case EndOne(x) => x == sid
       case EndAll(u) => u == s.sessions[sid].user
       case NewPassword(u, ok, strong) => u == s.sessions[sid].user && ok && strong
       case UseReset(id, strong) => ConsumeReset(s, id, strong).1 == Changed && s.resets[id].user == s.sessions[sid].user
       case _ => false
  }

  lemma StepEndsSessionIff(c: Settings, s: Sys, step: Step, sid: int)
    requires Enabled(s, step) && sid in s.sessions && s.sessions[sid].active
    ensures sid in Apply(c, s, step).sessions && (Apply(c, s, step).sessions[sid].active <==> !EndsSession(s, step, sid))
  {
    StepKeepsRows(c, s, step);
  }

  ghost predicate SomeStepEnds(c: Settings, s: Sys, steps: seq<Step>, sid: int) {
    steps != [] &&
      (SomeStepEnds(c, s, steps[..|steps| - 1], sid) || EndsSession(After(c, s, steps[..|steps| - 1]), steps[|steps| - 1], sid))
  }

  // A session stays active exactly until it is revoked, its user signs out
  // everywhere, changes the password or uses a reset link. Detected token reuse
  // is none of these.
  lemma {:induction false} ActiveUntilSignedOut(c: Settings, s: Sys, steps: seq<Step>, sid: int)
    requires ValidRun(c, s, steps) && sid in s.sessions && s.sessions[sid].active
    ensures sid in After(c, s, steps).sessions
    ensures After(c, s, steps).sessions[sid].active <==> !SomeStepEnds(c, s, steps, sid)
  {
    if steps != [] {
      var before := steps[..|steps| - 1];
      ActiveUntilSignedOut(c, s, before, sid);
      var t := After(c, s, before);
      StepKeepsRows(c, t, steps[|steps| - 1]);
      if t.sessions[sid].active {
        StepEndsSessionIff(c, t, steps[|steps| - 1], sid);
      }
    }
  }

  // Detecting reuse signs nobody out: no session row changes, and after any
  // continuation exactly those sessions have ended that were signed out in it.
  lemma ReuseSignsNobodyOut(c: Settings, s: Sys, id: int, newId: int, later: seq<Step>, sid: int)
    requires Rotate(c, s, id, newId).1 == ReuseDetected && ValidRun(c, Rotate(c, s, id, newId).0, later)
    requires sid in s.sessions && s.sessions[sid].active
    ensures var t := Rotate(c, s, id, newId).0;
            && t.sessions == s.sessions && sid in After(c, t, later).sessions
            && (After(c, t, later).sessions[sid].active <==> !SomeStepEnds(c, t, later, sid))
  {
    ActiveUntilSignedOut(c, Rotate(c, s, id, newId).0, later, sid);
  }

  // --------------------------------------------------------------- reset links

  predicate SameLink(a: ResetToken, b: ResetToken) {
    a.user == b.user && a.expiresAt == b.expiresAt && (a.consumed ==> b.consumed)
  }

  lemma StepKeepsLink(c: Settings, s: Sys, step: Step, id: int)
    requires Enabled(s, step) && id in s.resets
    ensures id in Apply(c, s, step).resets && SameLink(s.resets[id], Apply(c, s, step).resets[id])
    ensures s.now <= Apply(c, s, step).now
  {
    NowGrows(c, s, step);
  }

  lemma {:induction false} LinksStay(c: Settings, s: Sys, steps: seq<Step>, id: int)
    requires ValidRun(c, s, steps) && id in s.resets
    ensures id in After(c, s, steps).resets && SameLink(s.resets[id], After(c, s, steps).resets[id])
    ensures s.now <= After(c, s, steps).now
  {
    if steps != [] {
      LinksStay(c, s, steps[..|steps| - 1], id);
      StepKeepsLink(c, After(c, s, steps[..|steps| - 1]), steps[|steps| - 1], id);
    }
  }

  // A reset link that changed a password is refused ever after.
  lemma ResetLinkWorksOnce(c: Settings, s: Sys, id: int, strong: bool, later: seq<Step>, again: bool)
    requires ConsumeReset(s, id, strong).1 == Changed && ValidRun(c, ConsumeReset(s, id, strong).0, later)
    ensures var t := After(c, ConsumeReset(s, id, strong).0, later);
            ConsumeReset(t, id, again) == (t, WrongOrInvalid)
  {
    LinksStay(c, ConsumeReset(s, id, strong).0, later, id);
  }

  // A reset link changes the password of the user it was requested for, and
  // only within its lifetime.
  lemma ResetLinkExpires(c: Settings, s: Sys, id: int, user: int, later: seq<Step>, strong: bool)
    requires Enabled(s, RequestReset(id, user)) && ValidRun(c, Apply(c, s, RequestReset(id, user)), later)
    ensures var t := After(c, Apply(c, s, RequestReset(id, user)), later);
            ConsumeReset(t, id, strong).1 == Changed ==>
              t.now < s.now + c.resetTtl && SignedOut(ConsumeReset(t, id, strong).0, user)
  {
    var start := Apply(c, s, RequestReset(id, user));
    LinksStay(c, start, later, id);
    SignOutIsComplete(After(c, start, later), user, id);
  }
}
