// What rotation, revocation and reuse detection guarantee over whole runs.
module IdentityTheorems {
  import opened Wrappers
  import opened IdentityModel
  import opened IdentityFamilies

  // ------------------------------------------------------------------ families

  // The rows of family `f` are exactly the ids of its chain, and only the last
  // one may be unrevoked.
  ghost predicate SingleChain(s: Sys, f: int) {
    && f in s.chains && IsChain(s, f, s.chains[f])
    && (forall i :: i in s.tokens ==> (s.tokens[i].family == f <==> i in s.chains[f]))
    && (forall i :: i in s.tokens && s.tokens[i].family == f && !s.tokens[i].revoked ==>
          i == s.chains[f][|s.chains[f]| - 1])
  }

  lemma MembersOfChain(s: Sys, f: int, i: int)
    requires Inv(s) && f in s.chains && i in s.tokens
    ensures s.tokens[i].family == f <==> i in s.chains[f]
  {
    assert IsChain(s, f, s.chains[f]);
    assert TokenOk(s, i, s.tokens[i]);
  }

  lemma InvGivesSingleChain(s: Sys, id: int)
    requires Inv(s) && id in s.tokens
    ensures SingleChain(s, s.tokens[id].family)
  {
    var f := s.tokens[id].family;
    assert TokenOk(s, id, s.tokens[id]);
    forall i | i in s.tokens
      ensures s.tokens[i].family == f <==> i in s.chains[f]
    {
      MembersOfChain(s, f, i);
    }
    assert IsChain(s, f, s.chains[f]);
    forall i | i in s.tokens && s.tokens[i].family == f && !s.tokens[i].revoked
      ensures i == s.chains[f][|s.chains[f]| - 1]
    {
      LiveIsTail(s, i);
    }
  }

  // In every reachable state each family is a single acyclic chain through all
  // of its tokens, of one user and one session; at most one of them is
  // unrevoked, and that is the last.
  lemma FamiliesAreChains(c: Settings, now: int, steps: seq<Step>, id: int)
    requires ValidRun(c, Empty(now), steps) && id in After(c, Empty(now), steps).tokens
    ensures SingleChain(After(c, Empty(now), steps), After(c, Empty(now), steps).tokens[id].family)
  {
    EmptyInv(now);
    AlwaysInv(c, Empty(now), steps);
    InvGivesSingleChain(After(c, Empty(now), steps), id);
  }

  // --------------------------------------------------------------------- reuse

  ghost predicate FamilyDead(s: Sys, family: int) {
    family in s.chains && forall id :: id in s.tokens && s.tokens[id].family == family ==> s.tokens[id].revoked
  }

  lemma PresentKeepsDead(c: Settings, s: Sys, id: int, newId: int, family: int)
    requires newId !in s.tokens && FamilyDead(s, family)
    ensures FamilyDead(Rotate(c, s, id, newId).0, family)
    ensures Rotate(c, s, id, newId).0.chains[family] == s.chains[family]
  {
    if Rotate(c, s, id, newId).1 == Rotated {
      assert s.tokens[id].family != family;
    }
  }

  lemma SignInKeepsDead(c: Settings, s: Sys, user: int, ok: bool, sid: int, tid: int, f: int, family: int)
    requires tid !in s.tokens && f !in s.chains && FamilyDead(s, family)
    ensures FamilyDead(Authenticate(c, s, user, ok, sid, tid, f).0, family)
    ensures Authenticate(c, s, user, ok, sid, tid, f).0.chains[family] == s.chains[family]
  {
  }

  lemma RevokingKeepsDead(s: Sys, t: Sys, family: int)
    requires FamilyDead(s, family) && t.tokens.Keys == s.tokens.Keys && t.chains == s.chains
    requires forall id :: id in s.tokens ==> SameButRevoked(s.tokens[id], t.tokens[id])
    ensures FamilyDead(t, family) && t.chains[family] == s.chains[family]
  {
    forall id | id in t.tokens && t.tokens[id].family == family
      ensures t.tokens[id].revoked
    {
      assert SameButRevoked(s.tokens[id], t.tokens[id]);
    }
  }

  lemma RevokeAllKeepsDead(s: Sys, user: int, family: int)
    requires FamilyDead(s, family)
    ensures FamilyDead(RevokeAll(s, user), family) && RevokeAll(s, user).chains[family] == s.chains[family]
  {
    RevokingKeepsDead(s, RevokeAll(s, user), family);
  }

  lemma StepKeepsDead(c: Settings, s: Sys, step: Step, family: int)
    requires Enabled(s, step) && FamilyDead(s, family)
    ensures FamilyDead(Apply(c, s, step), family)
    ensures Apply(c, s, step).chains[family] == s.chains[family]
  {
    match step
    case Present(id, newId) => PresentKeepsDead(c, s, id, newId, family);
    case SignIn(u, ok, sid, tid, f) => SignInKeepsDead(c, s, u, ok, sid, tid, f, family);
    case EndOne(sid) => RevokingKeepsDead(s, RevokeSession(s, sid), family);
    case EndAll(u) => RevokeAllKeepsDead(s, u, family);
    case NewPassword(u, _, _) => RevokeAllKeepsDead(s, u, family);
    case UseReset(id, strong) =>
      if id in s.resets {
        RevokeAllKeepsDead(s.(resets := s.resets[id := s.resets[id].(consumed := true)]), s.resets[id].user, family);
      }
    case _ =>
  }

  // No run brings a dead family back or mints another token in it.
  lemma {:induction false} DeadStaysDead(c: Settings, s: Sys, steps: seq<Step>, family: int)
    requires FamilyDead(s, family) && ValidRun(c, s, steps)
    ensures FamilyDead(After(c, s, steps), family)
    ensures After(c, s, steps).chains[family] == s.chains[family]
  {
    if steps != [] {
      var before := steps[..|steps| - 1];
      DeadStaysDead(c, s, before, family);
      StepKeepsDead(c, After(c, s, before), steps[|steps| - 1], family);
    }
  }

  ghost predicate LiveOwner(s: Sys, t: Token) {
    && t.user in s.users && s.users[t.user].active
    && t.session in s.sessions && s.sessions[t.session].active && !IsPast(s, s.sessions[t.session].expiresAt)
  }

  lemma RotatedIsRevoked(s: Sys, id: int)
    requires Inv(s) && id in s.tokens && s.tokens[id].replacedBy.Some?
    ensures s.tokens[id].revoked && s.tokens[id].usedAt.Some? && s.tokens[id].family in s.chains
    ensures s.tokens[id].replacedBy.value in s.tokens
  {
    assert TokenOk(s, id, s.tokens[id]);
    var ids := s.chains[s.tokens[id].family];
    assert IsChain(s, s.tokens[id].family, ids);
    var i :| 0 <= i < |ids| && ids[i] == id;
    assert i < |ids| - 1;
    assert RotatedInto(s.tokens[ids[i]], ids[i + 1]);
  }

  // A rotated token of an active user and a live session is either answered
  // without any change or kills its family. Which of the two depends on the age
  // of its rotation and the expiry of its replacement alone; whether that
  // replacement has been revoked does not matter.
  lemma ReplayIsReissuedOrKills(c: Settings, s: Sys, id: int, newId: int)
    requires Inv(s) && id in s.tokens && LiveOwner(s, s.tokens[id]) && s.tokens[id].replacedBy.Some?
    ensures var (t, r) := Rotate(c, s, id, newId);
            && s.tokens[id].usedAt.Some? && s.tokens[id].replacedBy.value in s.tokens && s.tokens[id].family in s.chains
            && var retry := s.now - s.tokens[id].usedAt.value <= c.grace
                            && s.now < s.tokens[s.tokens[id].replacedBy.value].expiresAt;
            && (retry ==> r == Reissued && t == s)
            && (!retry ==> r == ReuseDetected && FamilyDead(t, s.tokens[id].family) && t == s.(tokens := t.tokens)
                           && t.chains[s.tokens[id].family] == s.chains[s.tokens[id].family])
  {
    RotatedIsRevoked(s, id);
    assert s.sessions[s.tokens[id].session].revokedAt.None?;
  }

  // A rotated token that comes back later than the grace period kills its
  // family for good: every row is revoked and no continuation of the run mints
  // another one.
  lemma ReuseKillsFamily(c: Settings, s: Sys, id: int, newId: int, later: seq<Step>)
    requires Inv(s) && id in s.tokens && newId !in s.tokens
    requires LiveOwner(s, s.tokens[id]) && s.tokens[id].replacedBy.Some?
    requires s.tokens[id].usedAt.Some? ==> s.now - s.tokens[id].usedAt.value > c.grace
    requires ValidRun(c, Rotate(c, s, id, newId).0, later)
    ensures Rotate(c, s, id, newId).1 == ReuseDetected
    ensures var family := s.tokens[id].family;
            var t := After(c, Rotate(c, s, id, newId).0, later);
            FamilyDead(t, family) && t.chains[family] == s.chains[family]
  {
    ReplayIsReissuedOrKills(c, s, id, newId);
    DeadStaysDead(c, Rotate(c, s, id, newId).0, later, s.tokens[id].family);
  }

  // The rotated token `id` may still be retried at instant `until`.
  ghost predicate Retryable(c: Settings, s: Sys, id: int, until: int) {
    && id in s.tokens && LiveOwner(s, s.tokens[id]) && until < s.sessions[s.tokens[id].session].expiresAt
    && s.tokens[id].replacedBy.Some?
    && (s.tokens[id].usedAt.Some? ==> until - s.tokens[id].usedAt.value <= c.grace)
    && (s.tokens[id].replacedBy.value in s.tokens ==> until < s.tokens[s.tokens[id].replacedBy.value].expiresAt)
  }

  // A client that only waits and presents tokens that can be retried at least
  // until the end of the run.
  ghost predicate OnlyRetries(c: Settings, s: Sys, steps: seq<Step>, until: int) {
    forall i :: 0 <= i < |steps| ==>
      steps[i].Tick? || (steps[i].Present? && Retryable(c, s, steps[i].token, until))
  }

  lemma RetryIsReissued(c: Settings, s: Sys, id: int, newId: int, now: int, until: int)
    requires Inv(s) && Retryable(c, s, id, until) && s.now <= now <= until
    ensures Rotate(c, s.(now := now), id, newId) == (s.(now := now), Reissued)
  {
    RotatedIsRevoked(s, id);
    assert s.sessions[s.tokens[id].session].revokedAt.None?;
  }

  lemma RetryStepChangesNothing(c: Settings, s: Sys, step: Step, now: int, until: int)
    requires Inv(s) && (step.Tick? || (step.Present? && Retryable(c, s, step.token, until))) && s.now <= now <= until
    ensures Apply(c, s.(now := now), step) == s.(now := Apply(c, s.(now := now), step).now)
    ensures step.Present? ==> Rotate(c, s.(now := now), step.token, step.newId).1 == Reissued
  {
    if step.Present? {
      RetryIsReissued(c, s, step.token, step.newId, now, until);
    }
  }

  // Retries inside the grace period are all answered by a reissue and leave
  // every row as it is, however often they are repeated.
  lemma {:induction false} RetriesChangeNothing(c: Settings, s: Sys, steps: seq<Step>, until: int)
    requires Inv(s) && OnlyRetries(c, s, steps, until) && After(c, s, steps).now <= until
    ensures s.now <= After(c, s, steps).now && After(c, s, steps) == s.(now := After(c, s, steps).now)
    ensures forall i :: 0 <= i < |steps| && steps[i].Present? ==> AnsweredByReissue(c, s, steps, i)
  {
    if steps != [] {
      var before := steps[..|steps| - 1];
      var step := steps[|steps| - 1];
      NowGrows(c, After(c, s, before), step);
      assert OnlyRetries(c, s, before, until);
      RetriesChangeNothing(c, s, before, until);
      RetryStepChangesNothing(c, s, step, After(c, s, before).now, until);
      forall i | 0 <= i < |steps| && steps[i].Present?
        ensures AnsweredByReissue(c, s, steps, i)
      {
        if i < |before| {
          assert steps[..i] == before[..i];
          assert AnsweredByReissue(c, s, before, i);
        }
      }
    }
  }

  predicate AnsweredByReissue(c: Settings, s: Sys, steps: seq<Step>, i: nat) {
    && i < |steps| && steps[i].Present?
    && Rotate(c, After(c, s, steps[..i]), steps[i].token, steps[i].newId).1 == Reissued
  }

  lemma NowGrows(c: Settings, s: Sys, step: Step)
    ensures s.now <= Apply(c, s, step).now
  {
  }

  // ---------------------------------------------------------- absolute lifetime

  // What never changes about token rows and session rows.
  ghost predicate KeepsTokens(s: Sys, t: Sys) {
    forall id :: id in s.tokens ==> id in t.tokens && SameToken(s.tokens[id], t.tokens[id])
  }

  predicate SameToken(a: Token, b: Token) {
    && a.family == b.family && a.session == b.session && a.user == b.user
    && a.chainExpiresAt == b.chainExpiresAt && a.expiresAt == b.expiresAt
    && (a.revoked ==> b.revoked)
  }

  ghost predicate KeepsSessions(s: Sys, t: Sys) {
    forall x :: x in s.sessions ==> x in t.sessions && SameSession(s.sessions[x], t.sessions[x])
  }

  predicate SameSession(a: Session, b: Session) {
    && a.user == b.user && a.expiresAt == b.expiresAt
    && (!a.active ==> !b.active)
  }

  lemma PresentKeepsRows(c: Settings, s: Sys, id: int, newId: int)
    requires newId !in s.tokens
    ensures KeepsTokens(s, Rotate(c, s, id, newId).0) && KeepsSessions(s, Rotate(c, s, id, newId).0)
  {
  }

  lemma SignInKeepsRows(c: Settings, s: Sys, user: int, ok: bool, sid: int, tid: int, family: int)
    requires sid !in s.sessions && tid !in s.tokens
    ensures KeepsTokens(s, Authenticate(c, s, user, ok, sid, tid, family).0)
    ensures KeepsSessions(s, Authenticate(c, s, user, ok, sid, tid, family).0)
  {
  }

  lemma RevokeAllKeepsRows(s: Sys, user: int)
    ensures KeepsTokens(s, RevokeAll(s, user)) && KeepsSessions(s, RevokeAll(s, user))
  {
  }

  lemma StepKeepsRows(c: Settings, s: Sys, step: Step)
    requires Enabled(s, step)
    ensures KeepsTokens(s, Apply(c, s, step)) && KeepsSessions(s, Apply(c, s, step))
  {
    match step
    case SignIn(u, ok, sid, tid, family) => SignInKeepsRows(c, s, u, ok, sid, tid, family);
    case Present(id, newId) => PresentKeepsRows(c, s, id, newId);
    case EndAll(u) => RevokeAllKeepsRows(s, u);
    case NewPassword(u, ok, strong) => RevokeAllKeepsRows(s, u);
    case UseReset(id, strong) =>
      if id in s.resets {
        RevokeAllKeepsRows(s.(resets := s.resets[id := s.resets[id].(consumed := true)]), s.resets[id].user);
      }
    case _ =>
  }

  lemma {:induction false} RunKeepsRows(c: Settings, s: Sys, steps: seq<Step>)
    requires ValidRun(c, s, steps)
    ensures KeepsTokens(s, After(c, s, steps)) && KeepsSessions(s, After(c, s, steps))
  {
    if steps != [] {
      RunKeepsRows(c, s, steps[..|steps| - 1]);
      StepKeepsRows(c, After(c, s, steps[..|steps| - 1]), steps[|steps| - 1]);
    }
  }

  lemma SameFamilySameChain(s: Sys, a: int, b: int)
    requires Inv(s) && a in s.tokens && b in s.tokens && s.tokens[a].family == s.tokens[b].family
    ensures SameChain(s.tokens[a], s.tokens[b])
  {
    assert TokenOk(s, a, s.tokens[a]) && TokenOk(s, b, s.tokens[b]);
    var ids := s.chains[s.tokens[a].family];
    assert IsChain(s, s.tokens[a].family, ids);
    var i :| 0 <= i < |ids| && ids[i] == a;
    var k :| 0 <= k < |ids| && ids[k] == b;
    assert SameChain(s.tokens[ids[i]], s.tokens[ids[0]]) && SameChain(s.tokens[ids[k]], s.tokens[ids[0]]);
  }

  // Rotation cannot extend life: after any run every token of the family of
  // `root` carries the chain expiry that `root` has, expires no later than it,
  // and is rotated only before it and before the expiry that the session was
  // given when it was created.
  lemma RotationCannotExtendLife(c: Settings, s: Sys, root: int, steps: seq<Step>, id: int, newId: int)
    requires Inv(s) && root in s.tokens && ValidRun(c, s, steps)
    requires id in After(c, s, steps).tokens && After(c, s, steps).tokens[id].family == s.tokens[root].family
    ensures var t := After(c, s, steps);
            && t.tokens[id].chainExpiresAt == s.tokens[root].chainExpiresAt
            && t.tokens[id].expiresAt <= s.tokens[root].chainExpiresAt
            && s.tokens[root].session in s.sessions
            && (Rotate(c, t, id, newId).1 == Rotated ==>
                  t.now < s.tokens[root].chainExpiresAt && t.now < s.sessions[s.tokens[root].session].expiresAt)
  {
    var t := After(c, s, steps);
    AlwaysInv(c, s, steps);
    RunKeepsRows(c, s, steps);
    assert TokenOk(s, root, s.tokens[root]);
    SameFamilySameChain(t, id, root);
    assert TokenOk(t, id, t.tokens[id]);
  }

  // Counted from the login: the last rotation comes before both the maximum
  // age of the chain and the session lifetime are over. With the default
  // settings (90 and 30 days) the session lifetime is the one that ends it.
  lemma RotationsEndAfterLogin(c: Settings, s: Sys, user: int, sid: int, tid: int, family: int, steps: seq<Step>, id: int, newId: int)
    requires Inv(s) && Enabled(s, SignIn(user, true, sid, tid, family))
    requires Authenticate(c, s, user, true, sid, tid, family).1 == SignedIn
    requires ValidRun(c, Authenticate(c, s, user, true, sid, tid, family).0, steps)
    ensures var t := After(c, Authenticate(c, s, user, true, sid, tid, family).0, steps);
            id in t.tokens && t.tokens[id].family == family && Rotate(c, t, id, newId).1 == Rotated ==>
              t.now < s.now + Min(c.maxAge, c.sessionTtl)
  {
    var start := Authenticate(c, s, user, true, sid, tid, family).0;
    SignInKeepsInv(c, s, user, true, sid, tid, family);
    var t := After(c, start, steps);
    if id in t.tokens && t.tokens[id].family == family {
      RotationCannotExtendLife(c, start, tid, steps, id, newId);
    }
  }

  // ---------------------------------------------------- what reuse leaves open

  // Tokens 1 and 2 of family 1 were rotated at `first` and `second`; 3 is the last.
  ghost predicate RotatedTwice(s: Sys, t0: int, first: int, second: int, ttl: int) {
    && 1 in s.users && s.users[1].active && 1 in s.sessions && s.sessions[1].active
    && s.sessions[1].revokedAt.None? && s.sessions[1].expiresAt > t0 + ttl
    && s.tokens.Keys == {1, 2, 3} && s.chains.Keys == {1}
    && (forall id :: id in s.tokens ==> s.tokens[id].user == 1 && s.tokens[id].session == 1 && s.tokens[id].family == 1)
    && s.tokens[1].usedAt == Some(first) && s.tokens[1].replacedBy == Some(2) && s.tokens[1].revoked
    && s.tokens[2].usedAt == Some(second) && s.tokens[2].replacedBy == Some(3) && s.tokens[2].revoked
    && s.tokens[3].expiresAt > t0 + ttl
  }

  function TwoRotations(grace: nat): seq<Step> {
    [Register(1)] + [SignIn(1, true, 1, 1, 1)] + [Present(1, 2)] + [Tick(grace)] + [Present(2, 3)] + [Tick(1)]
  }

  lemma FirstRotation(c: Settings, t0: int) returns (s: Sys)
    requires c.grace >= 1 && Min(c.sessionTtl, Min(c.refreshTtl, c.maxAge)) > c.grace + 1
    ensures var steps := [Register(1)] + [SignIn(1, true, 1, 1, 1)] + [Present(1, 2)];
            ValidRun(c, Empty(t0), steps) && s == After(c, Empty(t0), steps)
    ensures RotatedOnce(c, s, t0)
  {
    Then(c, Empty(t0), [], Register(1));
    assert [] + [Register(1)] == [Register(1)];
    Then(c, Empty(t0), [Register(1)], SignIn(1, true, 1, 1, 1));
    Then(c, Empty(t0), [Register(1)] + [SignIn(1, true, 1, 1, 1)], Present(1, 2));
    s := After(c, Empty(t0), [Register(1)] + [SignIn(1, true, 1, 1, 1)] + [Present(1, 2)]);
  }

  // What the first rotation left, and what the second one makes of it.
  ghost predicate RotatedOnce(c: Settings, s: Sys, t0: int) {
    && s.users == map[1 := User(true, 0, None)] && s.now == t0
    && s.sessions == map[1 := NewSession(c, 1, t0)] && s.chains.Keys == {1} && s.tokens.Keys == {1, 2}
    && s.tokens[1].usedAt == Some(t0) && s.tokens[1].replacedBy == Some(2) && s.tokens[1].revoked
    && SameChain(s.tokens[1], s.tokens[2]) && s.tokens[1].family == 1
    && s.tokens[2] == NewToken(c, 1, 1, 1, t0)
  }

  lemma RotateAgain(c: Settings, s: Sys, t0: int)
    requires c.grace >= 1 && Min(c.sessionTtl, Min(c.refreshTtl, c.maxAge)) > c.grace + 1
    requires RotatedOnce(c, s, t0)
    ensures var t := Rotate(c, s.(now := t0 + c.grace), 2, 3).0;
            t.now == t0 + c.grace && RotatedTwice(t, t0, t0, t0 + c.grace, c.grace + 1)
  {
  }

  lemma SecondRotation(c: Settings, t0: int) returns (s: Sys)
    requires c.grace >= 1 && Min(c.sessionTtl, Min(c.refreshTtl, c.maxAge)) > c.grace + 1
    ensures ValidRun(c, Empty(t0), TwoRotations(c.grace)) && s == After(c, Empty(t0), TwoRotations(c.grace))
    ensures s.now == t0 + c.grace + 1 && RotatedTwice(s, t0, t0, t0 + c.grace, c.grace + 1)
  {
    var steps := [Register(1)] + [SignIn(1, true, 1, 1, 1)] + [Present(1, 2)];
    s := FirstRotation(c, t0);
    RotateAgain(c, s, t0);
    Then(c, Empty(t0), steps, Tick(c.grace));
    Then(c, Empty(t0), steps + [Tick(c.grace)], Present(2, 3));
    Then(c, Empty(t0), steps + [Tick(c.grace)] + [Present(2, 3)], Tick(1));
    s := After(c, Empty(t0), TwoRotations(c.grace));
  }

  // Killing the family ends neither the session nor every answer: whatever the
  // settings, as long as tokens and sessions outlive the grace period, there is
  // a run after which the family is dead because a stolen
  // token came back, the session is still active, and another rotated token of
  // that family is nevertheless answered with a new access token.
  lemma DeadFamilyIsStillReissued(c: Settings, t0: int)
    requires c.grace >= 1 && Min(c.sessionTtl, Min(c.refreshTtl, c.maxAge)) > c.grace + 1
    ensures var steps := TwoRotations(c.grace);
            var s := After(c, Empty(t0), steps);
            var t := After(c, Empty(t0), steps + [Present(1, 4)]);
            && ValidRun(c, Empty(t0), steps + [Present(1, 4)])
            && Rotate(c, s, 1, 4).1 == ReuseDetected && FamilyDead(t, 1)
            && 1 in t.sessions && t.sessions[1].active
            && Rotate(c, t, 2, 4).1 == Reissued
  {
    var s := SecondRotation(c, t0);
    Then(c, Empty(t0), TwoRotations(c.grace), Present(1, 4));
  }
}
