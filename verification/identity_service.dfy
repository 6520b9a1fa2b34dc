// IdentityService of app/modules/identity/service.py as an object whose rows
// are updated step by step. `Valid()` says that the object is in the state that
// its trace reaches in IdentityModel, so the theorems about runs apply to it.
module IdentityService {
  import opened Wrappers
  import opened IdentityModel
  import opened IdentityFamilies
  import opened IdentityTheorems
  import opened IdentitySessions
  import opened IdentityLockout

  // Two tables with the same rows are the same table.
  lemma SameTokens(a: map<int, Token>, b: map<int, Token>)
    requires a.Keys == b.Keys
    requires forall k :: k in a ==> a[k] == b[k]
    ensures a == b
  {
    forall k | k in a
      ensures k in b && a[k] == b[k]
    {
    }
  }

  lemma SameSessions(a: map<int, Session>, b: map<int, Session>)
    requires a.Keys == b.Keys
    requires forall k :: k in a ==> a[k] == b[k]
    ensures a == b
  {
    forall k | k in a
      ensures k in b && a[k] == b[k]
    {
    }
  }

  // The rows that an UPDATE reports or a SELECT returns.
  function LiveIn(tokens: map<int, Token>, family: int): set<int> {
    set t | t in tokens && tokens[t].family == family && !tokens[t].revoked
  }

  function ActiveOf(sessions: map<int, Session>, user: int): set<int> {
    set x | x in sessions && sessions[x].user == user && sessions[x].active
  }

  class IdentityService {
    const c: Settings
    ghost const from: int
    var now: int
    var users: map<int, User>
    var sessions: map<int, Session>
    var tokens: map<int, Token>
    var resets: map<int, ResetToken>
    ghost var chains: map<int, seq<int>>
    ghost var checks: seq<Check>
    ghost var trace: seq<Step>

    ghost function State(): Sys
      reads this
    {
      Sys(now, users, sessions, tokens, resets, chains, checks)
    }

    ghost predicate Valid()
      reads this
    {
      ValidRun(c, Empty(from), trace) && After(c, Empty(from), trace) == State()
    }

    constructor (c: Settings, now: int)
      ensures Valid() && this.c == c && trace == [] && State() == Empty(now)
    {
      this.c := c;
      this.from, this.now := now, now;
      this.users, this.sessions, this.tokens, this.resets := map[], map[], map[], map[];
      this.chains, this.checks, this.trace := map[], [], [];
    }

    // Records that the object has just made one step of the model.
    ghost method Extend(before: Sys, step: Step)
      requires ValidRun(c, Empty(from), trace) && After(c, Empty(from), trace) == before
      requires Enabled(before, step) && Apply(c, before, step) == State()
      modifies this`trace
      ensures Valid() && trace == old(trace) + [step]
    {
      Then(c, Empty(from), trace, step);
      trace := trace + [step];
    }

    method Wait(elapsed: nat)
      requires Valid()
      modifies this`now, this`trace
      ensures Valid() && trace == old(trace) + [Tick(elapsed)]
      ensures now == old(now) + elapsed
    {
      ghost var before := State();
      now := now + elapsed;
      Extend(before, Tick(elapsed));
    }

    method AddUser(id: int)
      requires Valid() && id !in users
      modifies this`users, this`trace
      ensures Valid() && trace == old(trace) + [Register(id)]
      ensures users == old(users)[id := User(true, 0, None)]
    {
      ghost var before := State();
      users := users[id := User(true, 0, None)];
      Extend(before, Register(id));
    }

    // ---------------------------------------------------------------- sign-in

    // `passwordOk` is what the hash comparison answers when it is asked; the
    // other arguments are the fresh ids of the rows that a success creates.
    method Authenticate(user: int, passwordOk: bool, sid: int, tid: int, family: int) returns (r: AuthResult)
      requires Valid() && sid !in sessions && tid !in tokens && family !in chains
      modifies this
      ensures Valid() && trace == old(trace) + [SignIn(user, passwordOk, sid, tid, family)]
      ensures (State(), r) == IdentityModel.Authenticate(c, old(State()), user, passwordOk, sid, tid, family)
    {
      ghost var before := State();
      if user !in users {
        r := UnknownEmail;
      } else if !users[user].active {
        r := Disabled;
      } else if users[user].lockedUntil.Some? && now < users[user].lockedUntil.value {
        r := Locked;
      } else if !passwordOk {
        checks := checks + [Check(user, now, false)];
        RegisterFailedLogin(user);
        r := WrongPassword;
      } else {
        StartSession(user, sid, tid, family);
        r := SignedIn;
      }
      Extend(before, SignIn(user, passwordOk, sid, tid, family));
    }

    // The password is right: the counter restarts, and a session and the first
    // token of a new family are created.
    method StartSession(user: int, sid: int, tid: int, family: int)
      requires user in users
      modifies this`users, this`sessions, this`tokens, this`chains, this`checks
      ensures users == old(users)[user := old(users)[user].(failedLogins := 0, lockedUntil := None)]
      ensures sessions == old(sessions)[sid := NewSession(c, user, now)]
      ensures tokens == old(tokens)[tid := NewToken(c, sid, user, family, now)]
      ensures chains == old(chains)[family := [tid]] && checks == old(checks) + [Check(user, now, true)]
    {
      checks := checks + [Check(user, now, true)];
      UnlockUser(user);
      CreateSession(user, sid);
      IssueNewChain(sid, user, family, tid);
      chains := chains[family := [tid]];
    }

    method UnlockUser(user: int)
      requires user in users
      modifies this`users
      ensures users == old(users)[user := old(users)[user].(failedLogins := 0, lockedUntil := None)]
    {
      var u := users[user];
      u := u.(failedLogins := 0);
      u := u.(lockedUntil := None);
      users := users[user := u];
    }

    method RegisterFailedLogin(user: int)
      requires user in users
      modifies this`users
      ensures users == old(users)[user := FailLogin(old(users)[user], now)]
    {
      var u := users[user];
      u := u.(failedLogins := u.failedLogins + 1);
      if u.failedLogins >= MAX_FAILED_LOGINS {
        u := u.(lockedUntil := Some(now + LOCKOUT));
        u := u.(failedLogins := 0);
      }
      users := users[user := u];
    }

    method CreateSession(user: int, sid: int)
      modifies this`sessions
      ensures sessions == old(sessions)[sid := NewSession(c, user, now)]
    {
      sessions := sessions[sid := Session(user, true, now + c.sessionTtl, now, None)];
    }

    // The row of a new refresh token, with the lifetimes of a new chain.
    method IssueNewChain(session: int, user: int, family: int, id: int)
      modifies this`tokens
      ensures tokens == old(tokens)[id := NewToken(c, session, user, family, now)]
    {
      var tokenExpires := now + c.refreshTtl;
      var chainExpires := now + c.maxAge;
      tokens := tokens[id := Token(session, user, family, false, None, NotRevoked, None, None,
                                   Min(tokenExpires, chainExpires), chainExpires)];
    }

    // --------------------------------------------------------------- rotation

    method RotateRefreshToken(id: int, newId: int) returns (r: RotateResult)
      requires Valid() && newId !in tokens
      modifies this
      ensures Valid() && trace == old(trace) + [Present(id, newId)]
      ensures (State(), r) == Rotate(c, old(State()), id, newId)
    {
      ghost var before := State();
      EmptyInv(from);
      AlwaysInv(c, Empty(from), trace);
      if id !in tokens {
        r := InvalidToken;
      } else {
        var row := tokens[id];
        if row.user !in users || !users[row.user].active {
          r := AccountInactive;
        } else if row.session !in sessions || !sessions[row.session].active || sessions[row.session].revokedAt.Some? {
          r := SessionRevoked;
        } else if sessions[row.session].expiresAt <= now {
          r := SessionExpired;
        } else if row.revoked {
          r := AnswerRevoked(row);
        } else if row.expiresAt <= now || row.chainExpiresAt <= now {
          r := RotateResult.TokenExpired;
        } else {
          Replace(id, newId);
          r := Rotated;
        }
      }
      Extend(before, Present(id, newId));
    }

    // A rotated token arrives again.
    method AnswerRevoked(row: Token) returns (r: RotateResult)
      modifies this`tokens
      ensures InGrace(c, old(State()), row) ==> r == Reissued && tokens == old(tokens)
      ensures !InGrace(c, old(State()), row) ==> r == ReuseDetected && tokens == RevokeFamily(old(tokens), row.family, now)
    {
      if row.usedAt.Some? && row.replacedBy.Some? {
        if now - row.usedAt.value <= c.grace {
          if row.replacedBy.value in tokens && now < tokens[row.replacedBy.value].expiresAt {
            return Reissued;
          }
        }
      }
      var _ := RevokeTokenFamily(row.family);
      return ReuseDetected;
    }

    // The presented row is marked first, then a row with the lifetimes of a new
    // chain is inserted, and then it is cut back to the chain it belongs to.
    method Replace(id: int, newId: int)
      requires id in tokens && newId !in tokens
      requires tokens[id].family in chains && tokens[id].session in sessions
      modifies this`tokens, this`sessions, this`chains
      ensures State() == DoRotate(c, old(State()), id, newId)
    {
      var row := tokens[id];
      row := row.(usedAt := Some(now));
      row := row.(revoked := true);
      row := row.(revokedAt := Some(now));
      row := row.(reason := RotatedReason);
      tokens := tokens[id := row];
      IssueNewChain(row.session, row.user, row.family, newId);
      var newRow := tokens[newId];
      newRow := newRow.(chainExpiresAt := row.chainExpiresAt);
      newRow := newRow.(expiresAt := Min(newRow.expiresAt, row.chainExpiresAt));
      tokens := tokens[newId := newRow];
      tokens := tokens[id := row.(replacedBy := Some(newId))];
      sessions := sessions[row.session := sessions[row.session].(lastSeenAt := now)];
      chains := chains[row.family := chains[row.family] + [newId]];
      assert tokens == old(tokens)[id := tokens[id]][newId := tokens[newId]];
    }

    // ------------------------------------------------------------- revocation

    method RevokeTokenFamily(family: int) returns (n: nat)
      modifies this`tokens
      ensures tokens == RevokeFamily(old(tokens), family, now)
      ensures n == |LiveIn(old(tokens), family)| && LiveIn(tokens, family) == {}
    {
      n := |LiveIn(tokens, family)|;
      var rows, at := tokens, now;
      tokens := map t | t in rows ::
        if rows[t].family == family && !rows[t].revoked
        then rows[t].(revoked := true, revokedAt := Some(at), reason := ReuseReason)
        else rows[t];
      SameTokens(tokens, RevokeFamily(rows, family, at));
    }

    // False is the answer that the session does not exist.
    method RevokeSession(sid: int) returns (found: bool)
      requires Valid()
      modifies this
      ensures Valid() && trace == old(trace) + [EndOne(sid)]
      ensures State() == IdentityModel.RevokeSession(old(State()), sid)
      ensures found <==> sid in old(sessions)
    {
      ghost var before := State();
      found := sid in sessions;
      if found {
        var row := sessions[sid];
        row := row.(active := false);
        row := row.(revokedAt := Some(now));
        sessions := sessions[sid := row];
        var rows, at := tokens, now;
        tokens := map t | t in rows ::
          if rows[t].session == sid && !rows[t].revoked
          then rows[t].(revoked := true, revokedAt := Some(at), reason := SessionReason)
          else rows[t];
        SameTokens(tokens, IdentityModel.RevokeSession(before, sid).tokens);
      }
      Extend(before, EndOne(sid));
    }

    // Every active session of the user is ended one by one; then one UPDATE
    // revokes the user's tokens. The answer is the number of sessions ended.
    method EndSessions(user: int) returns (n: nat)
      modifies this`sessions, this`tokens
      ensures State() == RevokeAll(old(State()), user)
      ensures n == |ActiveOf(old(sessions), user)| && ActiveOf(sessions, user) == {}
    {
      var active := ActiveOf(sessions, user);
      var todo := active;
      n := 0;
      while todo != {}
        invariant todo <= active && n + |todo| == |active|
        invariant sessions.Keys == old(sessions).Keys && tokens == old(tokens)
        invariant forall x :: x in sessions ==>
                    sessions[x] == if x in active && x !in todo then EndSession(old(sessions)[x], now) else old(sessions)[x]
        decreases |todo|
      {
        EmptyIfNoMember(todo);
        var x :| x in todo;
        var row := sessions[x];
        row := row.(active := false);
        row := row.(revokedAt := Some(now));
        sessions := sessions[x := row];
        todo := todo - {x};
        n := n + 1;
      }
      var rows, at := tokens, now;
      tokens := map t | t in rows ::
        if rows[t].user == user && !rows[t].revoked
        then rows[t].(revoked := true, revokedAt := Some(at), reason := SessionReason)
        else rows[t];
      SameSessions(sessions, RevokeAll(old(State()), user).sessions);
      SameTokens(tokens, RevokeAll(old(State()), user).tokens);
    }

    method RevokeAllSessions(user: int) returns (n: nat)
      requires Valid()
      modifies this
      ensures Valid() && trace == old(trace) + [EndAll(user)]
      ensures State() == RevokeAll(old(State()), user)
      ensures n == |ActiveOf(old(sessions), user)| && SignedOut(State(), user)
    {
      ghost var before := State();
      n := EndSessions(user);
      Extend(before, EndAll(user));
    }

    // -------------------------------------------------------------- passwords

    method ChangePassword(user: int, currentOk: bool, strong: bool) returns (r: PasswordResult)
      requires Valid()
      modifies this
      ensures Valid() && trace == old(trace) + [NewPassword(user, currentOk, strong)]
      ensures (State(), r) == IdentityModel.ChangePassword(old(State()), user, currentOk, strong)
      ensures r == Changed ==> SignedOut(State(), user)
    {
      ghost var before := State();
      if !currentOk {
        r := WrongOrInvalid;
      } else if !strong {
        r := TooWeak;
      } else {
        var _ := EndSessions(user);
        r := Changed;
      }
      Extend(before, NewPassword(user, currentOk, strong));
    }

    method CreatePasswordResetToken(id: int, user: int)
      requires Valid() && id !in resets && user in users
      modifies this
      ensures Valid() && trace == old(trace) + [RequestReset(id, user)]
      ensures State() == old(State()).(resets := old(resets)[id := ResetToken(user, now + c.resetTtl, false)])
    {
      ghost var before := State();
      resets := resets[id := ResetToken(user, now + c.resetTtl, false)];
      Extend(before, RequestReset(id, user));
    }

    method ConsumePasswordResetToken(id: int, strong: bool) returns (r: PasswordResult)
      requires Valid()
      modifies this
      ensures Valid() && trace == old(trace) + [UseReset(id, strong)]
      ensures (State(), r) == ConsumeReset(old(State()), id, strong)
      ensures r == Changed ==> SignedOut(State(), old(resets)[id].user)
    {
      ghost var before := State();
      if id !in resets || resets[id].consumed || resets[id].expiresAt <= now || resets[id].user !in users {
        r := WrongOrInvalid;
      } else if !strong {
        r := TooWeak;
      } else {
        resets := resets[id := resets[id].(consumed := true)];
        var _ := EndSessions(resets[id].user);
        r := Changed;
      }
      Extend(before, UseReset(id, strong));
    }
  }

  // Whatever was done with a service object, every family is one chain whose
  // only possible live token is the last, ended sessions have no live token,
  // and n lockout periods without a login saw at most 5n wrong passwords.
  lemma ServiceStateIsSound(s: IdentityService, id: int, user: int, a: int, n: nat)
    requires s.Valid()
    ensures id in s.tokens ==> SingleChain(s.State(), s.tokens[id].family)
    ensures id in s.tokens && !s.tokens[id].revoked ==> s.tokens[id].session in s.sessions && s.sessions[s.tokens[id].session].active
    ensures user in s.users ==> s.users[user].failedLogins <= 4
    ensures NoSuccess(s.checks, user, a, a + n * LOCKOUT) ==> Wrong(s.checks, user, a, a + n * LOCKOUT) <= MAX_FAILED_LOGINS * n
  {
    EmptyInv(s.from);
    AlwaysInv(s.c, Empty(s.from), s.trace);
    if id in s.tokens {
      assert TokenOk(s.State(), id, s.tokens[id]);
      FamiliesAreChains(s.c, s.from, s.trace, id);
    }
    if NoSuccess(s.checks, user, a, a + n * LOCKOUT) {
      WrongPasswordsAreBounded(s.c, s.from, s.trace, user, a, n);
    }
  }
}
