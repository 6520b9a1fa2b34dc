// Refresh-token families: each is one chain that grows at its tail, and dies
// for good when an old token comes back.
module IdentityFamilies {
  import opened Wrappers
  import opened IdentityModel

  // The rows of a family, oldest first: each row but the last was used and
  // points to the next, so there are no branches and no cycles.
  ghost predicate IsChain(s: Sys, family: int, ids: seq<int>) {
    && ids != []
    && (forall i :: 0 <= i < |ids| ==> ids[i] in s.tokens && s.tokens[ids[i]].family == family)
    && (forall i, k :: 0 <= i < k < |ids| ==> ids[i] != ids[k])
    && (forall i :: 0 <= i < |ids| - 1 ==> RotatedInto(s.tokens[ids[i]], ids[i + 1]))
    && s.tokens[ids[|ids| - 1]].replacedBy.None?
    && (forall i :: 0 <= i < |ids| ==> SameChain(s.tokens[ids[i]], s.tokens[ids[0]]))
  }

  predicate RotatedInto(t: Token, next: int) {
    t.revoked && t.replacedBy == Some(next)
  }

  predicate SameChain(t: Token, root: Token) {
    t.session == root.session && t.user == root.user && t.chainExpiresAt == root.chainExpiresAt
  }

  ghost predicate TokenOk(s: Sys, id: int, t: Token) {
    && t.family in s.chains && id in s.chains[t.family]
    && t.session in s.sessions && s.sessions[t.session].user == t.user && t.user in s.users
    && t.expiresAt <= t.chainExpiresAt
    && (!t.revoked ==> s.sessions[t.session].active)
    && (t.usedAt.Some? <==> t.replacedBy.Some?)
  }

  ghost predicate Inv(s: Sys) {
    && (forall f :: f in s.chains ==> IsChain(s, f, s.chains[f]))
    && (forall id :: id in s.tokens ==> TokenOk(s, id, s.tokens[id]))
    && (forall x :: x in s.sessions ==> (s.sessions[x].active <==> s.sessions[x].revokedAt.None?))
    && (forall u :: u in s.users ==> s.users[u].failedLogins < MAX_FAILED_LOGINS)
  }

  // ------------------------------------------------------------- step lemmas

  // A row may become revoked; nothing else of it changes.
  predicate SameButRevoked(a: Token, b: Token) {
    && b == a.(revoked := b.revoked, revokedAt := b.revokedAt, reason := b.reason)
    && (a.revoked ==> b.revoked)
  }

  lemma RevokingKeepsChain(s: Sys, t: Sys, f: int, ids: seq<int>)
    requires IsChain(s, f, ids) && t.tokens.Keys == s.tokens.Keys
    requires forall id :: id in s.tokens ==> SameButRevoked(s.tokens[id], t.tokens[id])
    ensures IsChain(t, f, ids)
  {
    forall i | 0 <= i < |ids|
      ensures ids[i] in t.tokens && SameButRevoked(s.tokens[ids[i]], t.tokens[ids[i]])
    {
    }
  }

  lemma RevokingKeepsChains(s: Sys, t: Sys)
    requires Inv(s) && t.tokens.Keys == s.tokens.Keys && t.chains == s.chains
    requires forall id :: id in s.tokens ==> SameButRevoked(s.tokens[id], t.tokens[id])
    ensures forall f :: f in t.chains ==> IsChain(t, f, t.chains[f])
  {
    forall f | f in t.chains
      ensures IsChain(t, f, t.chains[f])
    {
      RevokingKeepsChain(s, t, f, s.chains[f]);
    }
  }

  // The one unrevoked token a family can have is its last.
  lemma LiveIsTail(s: Sys, id: int)
    requires Inv(s) && id in s.tokens && !s.tokens[id].revoked
    ensures s.tokens[id].family in s.chains
    ensures var ids := s.chains[s.tokens[id].family]; ids != [] && ids[|ids| - 1] == id
  {
    assert TokenOk(s, id, s.tokens[id]);
    var ids := s.chains[s.tokens[id].family];
    assert IsChain(s, s.tokens[id].family, ids);
    var i :| 0 <= i < |ids| && ids[i] == id;
    assert i < |ids| - 1 ==> RotatedInto(s.tokens[ids[i]], ids[i + 1]);
  }

  lemma OtherChainsStay(s: Sys, t: Sys, f: int, family: int, id: int, newId: int)
    requires Inv(s) && f in s.chains && f != family && newId !in s.tokens
    requires id in s.tokens ==> s.tokens[id].family == family
    requires forall i :: i in s.tokens && i != id ==> i in t.tokens && t.tokens[i] == s.tokens[i]
    ensures IsChain(t, f, s.chains[f])
  {
    assert IsChain(s, f, s.chains[f]);
    var ids := s.chains[f];
    forall i | 0 <= i < |ids|
      ensures ids[i] in t.tokens && t.tokens[ids[i]] == s.tokens[ids[i]]
    {
    }
  }

  lemma RotationExtendsChain(c: Settings, s: Sys, id: int, newId: int)
    requires Inv(s) && id in s.tokens && !s.tokens[id].revoked && newId !in s.tokens
    ensures var f := s.tokens[id].family;
            f in s.chains && IsChain(DoRotate(c, s, id, newId), f, s.chains[f] + [newId])
  {
    LiveIsTail(s, id);
    var f := s.tokens[id].family;
    var ids := s.chains[f];
    var t := DoRotate(c, s, id, newId);
    assert IsChain(s, f, ids);
    var n := |ids|;
    assert ids[n - 1] == id;
    forall i | 0 <= i < n
      ensures ids[i] in t.tokens && ids[i] != newId && SameChain(t.tokens[ids[i]], t.tokens[ids[0]])
      ensures t.tokens[ids[i]] == if i == n - 1 then t.tokens[id] else s.tokens[ids[i]]
    {
    }
    assert RotatedInto(t.tokens[id], newId);
    assert SameChain(s.tokens[id], s.tokens[ids[0]]);
    assert SameChain(t.tokens[newId], s.tokens[id]);
  }

  lemma RotationKeepsTokens(c: Settings, s: Sys, id: int, newId: int)
    requires Inv(s) && id in s.tokens && !s.tokens[id].revoked && newId !in s.tokens
    ensures var t := DoRotate(c, s, id, newId);
            forall i :: i in t.tokens ==> TokenOk(t, i, t.tokens[i])
  {
    var t := DoRotate(c, s, id, newId);
    assert TokenOk(s, id, s.tokens[id]);
    var f := s.tokens[id].family;
    assert forall i :: i in s.chains[f] ==> i in t.chains[f];
    assert t.chains[f][|s.chains[f]|] == newId;
    forall i | i in t.tokens
      ensures TokenOk(t, i, t.tokens[i])
    {
      if i != newId {
        assert TokenOk(s, i, s.tokens[i]);
      }
    }
  }

  lemma RotationKeepsChains(c: Settings, s: Sys, id: int, newId: int, f: int)
    requires Inv(s) && id in s.tokens && !s.tokens[id].revoked && newId !in s.tokens
    requires f in DoRotate(c, s, id, newId).chains
    ensures IsChain(DoRotate(c, s, id, newId), f, DoRotate(c, s, id, newId).chains[f])
  {
    RotationExtendsChain(c, s, id, newId);
    if f != s.tokens[id].family {
      OtherChainsStay(s, DoRotate(c, s, id, newId), f, s.tokens[id].family, id, newId);
    }
  }

  lemma RotationKeepsSessions(c: Settings, s: Sys, id: int, newId: int)
    requires id in s.tokens
    ensures DoRotate(c, s, id, newId).users == s.users
    ensures DoRotate(c, s, id, newId).sessions.Keys == s.sessions.Keys
    ensures forall x :: x in s.sessions ==>
              && DoRotate(c, s, id, newId).sessions[x].active == s.sessions[x].active
              && DoRotate(c, s, id, newId).sessions[x].revokedAt == s.sessions[x].revokedAt
  {
  }

  lemma RotateKeepsInv(c: Settings, s: Sys, id: int, newId: int)
    requires Inv(s) && id in s.tokens && !s.tokens[id].revoked && newId !in s.tokens
    ensures Inv(DoRotate(c, s, id, newId))
  {
    var t := DoRotate(c, s, id, newId);
    RotationKeepsTokens(c, s, id, newId);
    RotationKeepsSessions(c, s, id, newId);
    forall f | f in t.chains
      ensures IsChain(t, f, t.chains[f])
    {
      RotationKeepsChains(c, s, id, newId, f);
    }
  }

  ghost predicate NewLogin(c: Settings, s: Sys, t: Sys, user: int, sid: int, tid: int, family: int) {
    && Inv(s) && sid !in s.sessions && tid !in s.tokens && family !in s.chains && user in s.users
    && t.tokens == s.tokens[tid := NewToken(c, sid, user, family, s.now)]
    && t.sessions == s.sessions[sid := NewSession(c, user, s.now)]
    && t.chains == s.chains[family := [tid]]
    && t.users.Keys == s.users.Keys
  }

  lemma LoginKeepsChains(c: Settings, s: Sys, t: Sys, user: int, sid: int, tid: int, family: int)
    requires NewLogin(c, s, t, user, sid, tid, family)
    ensures forall f :: f in t.chains ==> IsChain(t, f, t.chains[f])
  {
    forall f | f in t.chains
      ensures IsChain(t, f, t.chains[f])
    {
      if f != family {
        OtherChainsStay(s, t, f, family, tid, tid);
      }
    }
  }

  lemma LoginKeepsTokens(c: Settings, s: Sys, t: Sys, user: int, sid: int, tid: int, family: int)
    requires NewLogin(c, s, t, user, sid, tid, family)
    ensures forall i :: i in t.tokens ==> TokenOk(t, i, t.tokens[i])
  {
    forall i | i in t.tokens
      ensures TokenOk(t, i, t.tokens[i])
    {
      if i != tid {
        assert TokenOk(s, i, s.tokens[i]);
      }
    }
  }

  lemma LoginKeepsInv(c: Settings, s: Sys, t: Sys, user: int, sid: int, tid: int, family: int)
    requires NewLogin(c, s, t, user, sid, tid, family)
    requires forall u :: u in s.users && u != user ==> t.users[u] == s.users[u]
    requires t.users[user].failedLogins == 0
    ensures Inv(t)
  {
    LoginKeepsChains(c, s, t, user, sid, tid, family);
    LoginKeepsTokens(c, s, t, user, sid, tid, family);
  }

  lemma UserChangeKeepsInv(s: Sys, t: Sys)
    requires Inv(s) && t.tokens == s.tokens && t.chains == s.chains && t.sessions == s.sessions
    requires forall u :: u in s.users ==> u in t.users
    requires forall u :: u in t.users ==> t.users[u].failedLogins < MAX_FAILED_LOGINS
    ensures Inv(t)
  {
    ChainsAreLocal(s, t);
    forall i | i in t.tokens
      ensures TokenOk(t, i, t.tokens[i])
    {
      assert TokenOk(s, i, s.tokens[i]);
    }
  }

  lemma FailKeepsInv(s: Sys, t: Sys, user: int)
    requires Inv(s) && user in s.users
    requires t == s.(users := s.users[user := FailLogin(s.users[user], s.now)], checks := t.checks)
    ensures Inv(t)
  {
    UserChangeKeepsInv(s, t);
  }

  lemma SignInKeepsInv(c: Settings, s: Sys, user: int, ok: bool, sid: int, tid: int, family: int)
    requires Inv(s) && Enabled(s, SignIn(user, ok, sid, tid, family))
    ensures Inv(Authenticate(c, s, user, ok, sid, tid, family).0)
  {
    var (t, r) := Authenticate(c, s, user, ok, sid, tid, family);
    if r == SignedIn {
      LoginKeepsInv(c, s, t, user, sid, tid, family);
    } else if r == WrongPassword {
      FailKeepsInv(s, t, user);
    }
  }

  lemma ChainsAreLocal(s: Sys, t: Sys)
    requires Inv(s) && t.tokens == s.tokens && t.chains == s.chains
    ensures forall f :: f in t.chains ==> IsChain(t, f, t.chains[f])
  {
    RevokingKeepsChains(s, t);
  }

  // Revoking token rows, with or without ending sessions, keeps the invariant
  // as long as every token of an ended session goes with it.
  lemma RevokingKeepsInv(s: Sys, t: Sys)
    requires Inv(s) && t.tokens.Keys == s.tokens.Keys && t.chains == s.chains && t.users == s.users
    requires t.sessions.Keys == s.sessions.Keys
    requires forall id :: id in s.tokens ==> SameButRevoked(s.tokens[id], t.tokens[id])
    requires forall x :: x in s.sessions ==>
               t.sessions[x] == s.sessions[x]
               || (t.sessions[x].user == s.sessions[x].user && !t.sessions[x].active && t.sessions[x].revokedAt.Some?)
    requires forall id :: id in s.tokens && s.tokens[id].session in s.sessions && !t.tokens[id].revoked ==>
               t.sessions[s.tokens[id].session] == s.sessions[s.tokens[id].session]
    ensures Inv(t)
  {
    RevokingKeepsChains(s, t);
    forall i | i in t.tokens
      ensures TokenOk(t, i, t.tokens[i])
    {
      assert TokenOk(s, i, s.tokens[i]);
    }
  }

  lemma TokensHaveSessionUser(s: Sys)
    requires Inv(s)
    ensures forall id :: id in s.tokens ==>
              s.tokens[id].session in s.sessions && s.sessions[s.tokens[id].session].user == s.tokens[id].user
  {
    forall id | id in s.tokens
      ensures s.tokens[id].session in s.sessions && s.sessions[s.tokens[id].session].user == s.tokens[id].user
    {
      assert TokenOk(s, id, s.tokens[id]);
    }
  }

  lemma RevokeAllKeepsInv(s: Sys, user: int)
    requires Inv(s)
    ensures Inv(RevokeAll(s, user))
  {
    TokensHaveSessionUser(s);
    RevokingKeepsInv(s, RevokeAll(s, user));
  }

  lemma RevokeSessionOnlyRevokes(s: Sys, sid: int)
    ensures RevokeSession(s, sid).tokens.Keys == s.tokens.Keys
    ensures forall id :: id in s.tokens ==>
              && SameButRevoked(s.tokens[id], RevokeSession(s, sid).tokens[id])
              && (sid in s.sessions && s.tokens[id].session == sid ==> RevokeSession(s, sid).tokens[id].revoked)
  {
  }

  lemma RevokeSessionKeepsInv(s: Sys, sid: int)
    requires Inv(s)
    ensures Inv(RevokeSession(s, sid))
  {
    RevokeSessionOnlyRevokes(s, sid);
    RevokingKeepsInv(s, RevokeSession(s, sid));
  }

  lemma PresentKeepsInv(c: Settings, s: Sys, id: int, newId: int)
    requires Inv(s) && newId !in s.tokens
    ensures Inv(Rotate(c, s, id, newId).0)
  {
    match Rotate(c, s, id, newId).1
    case Rotated => RotateKeepsInv(c, s, id, newId);
    case ReuseDetected => RevokingKeepsInv(s, Rotate(c, s, id, newId).0);
    case _ =>
  }

  lemma StepKeepsInv(c: Settings, s: Sys, step: Step)
    requires Inv(s) && Enabled(s, step)
    ensures Inv(Apply(c, s, step))
  {
    match step
    case SignIn(u, ok, sid, tid, family) => SignInKeepsInv(c, s, u, ok, sid, tid, family);
    case Present(id, newId) => PresentKeepsInv(c, s, id, newId);
    case EndOne(sid) => RevokeSessionKeepsInv(s, sid);
    case EndAll(u) => RevokeAllKeepsInv(s, u);
    case NewPassword(u, ok, strong) => RevokeAllKeepsInv(s, u);
    case UseReset(id, strong) => UseResetKeepsInv(s, id, strong);
    case _ => OtherStepsKeepInv(c, s, step);
  }

  lemma OtherStepsKeepInv(c: Settings, s: Sys, step: Step)
    requires Inv(s) && Enabled(s, step)
    requires step.Tick? || step.Register? || step.SetActive? || step.RequestReset?
    ensures Inv(Apply(c, s, step))
  {
    UserChangeKeepsInv(s, Apply(c, s, step));
  }

  lemma UseResetKeepsInv(s: Sys, id: int, strong: bool)
    requires Inv(s)
    ensures Inv(ConsumeReset(s, id, strong).0)
  {
    var (t, r) := ConsumeReset(s, id, strong);
    if r == Changed {
      var u := s.(resets := s.resets[id := s.resets[id].(consumed := true)]);
      RevokingKeepsInv(s, u);
      RevokeAllKeepsInv(u, s.resets[id].user);
    }
  }

  // The invariant holds in every reachable state.
  lemma {:induction false} AlwaysInv(c: Settings, s: Sys, steps: seq<Step>)
    requires Inv(s) && ValidRun(c, s, steps)
    ensures Inv(After(c, s, steps))
  {
    if steps != [] {
      AlwaysInv(c, s, steps[..|steps| - 1]);
      StepKeepsInv(c, After(c, s, steps[..|steps| - 1]), steps[|steps| - 1]);
    }
  }

  lemma EmptyInv(now: int)
    ensures Inv(Empty(now))
  {
  }
}
