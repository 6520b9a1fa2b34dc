// How long a login can be kept alive by rotation: exactly until the maximum
// age of the chain or the session's expiry, whichever comes first.
module IdentityLifetime {
  import opened Wrappers
  import opened IdentityModel
  import opened IdentityFamilies
  import opened IdentityTheorems

  // A login, and a run after it.
  datatype Login = Login(s: Sys, user: int, sid: int, tid: int, family: int, later: seq<Step>)

  ghost predicate LoggedIn(c: Settings, l: Login) {
    && Inv(l.s) && Enabled(l.s, SignIn(l.user, true, l.sid, l.tid, l.family))
    && Authenticate(c, l.s, l.user, true, l.sid, l.tid, l.family).1 == SignedIn
    && ValidRun(c, Authenticate(c, l.s, l.user, true, l.sid, l.tid, l.family).0, l.later)
  }

  ghost function Reached(c: Settings, l: Login): Sys
    requires LoggedIn(c, l)
  {
    After(c, Authenticate(c, l.s, l.user, true, l.sid, l.tid, l.family).0, l.later)
  }

  // `age` after the login a token of its family is rotated.
  ghost predicate RotatesAt(c: Settings, l: Login, id: int, newId: int, age: int) {
    && LoggedIn(c, l)
    && var t := Reached(c, l);
    && t.now == l.s.now + age && id in t.tokens && t.tokens[id].family == l.family && newId !in t.tokens
    && Rotate(c, t, id, newId).1 == Rotated
  }

  // Some login can still be rotated at this age.
  ghost predicate CanRotateAt(c: Settings, age: int) {
    exists l, id, newId :: RotatesAt(c, l, id, newId, age)
  }

  // ------------------------------------------- a client that rotates all along

  const Start: Sys := Empty(0).(users := map[1 := User(true, 0, None)])

  // Tokens 1, 2, 3, ... are rotated one microsecond apart.
  function Rotating(age: nat): seq<Step> {
    if age == 0 then [] else Rotating(age - 1) + [Tick(1)] + [Present(age, age + 1)]
  }

  // The newest token was minted just now.
  ghost predicate Fresh(c: Settings, s: Sys, age: nat) {
    && s.now == age && 1 in s.users && s.users[1].active
    && 1 in s.sessions && s.sessions[1].active && s.sessions[1].revokedAt.None? && s.sessions[1].expiresAt == c.sessionTtl
    && (forall id :: id in s.tokens ==> id <= age + 1) && age + 1 in s.tokens
    && Newest(c, s.tokens[age + 1], age)
  }

  predicate Newest(c: Settings, t: Token, now: int) {
    && t.session == 1 && t.user == 1 && t.family == 1 && !t.revoked
    && t.chainExpiresAt == c.maxAge && t.expiresAt == Min(now + c.refreshTtl, c.maxAge)
  }

  lemma FreshAtLogin(c: Settings)
    ensures LoggedIn(c, Login(Start, 1, 1, 1, 1, []))
    ensures Fresh(c, Authenticate(c, Start, 1, true, 1, 1, 1).0, 0)
  {
    EmptyInv(0);
    UserChangeKeepsInv(Empty(0), Start);
  }

  lemma FreshAgain(c: Settings, s: Sys, age: nat)
    requires Fresh(c, s, age) && age + 1 < Min(c.maxAge, c.sessionTtl) && c.refreshTtl > 1
    ensures var waited := s.(now := s.now + 1);
            && Rotate(c, waited, age + 1, age + 2).1 == Rotated
            && Fresh(c, Rotate(c, waited, age + 1, age + 2).0, age + 1)
  {
  }

  ghost predicate FreshAfter(c: Settings, start: Sys, steps: seq<Step>, age: nat) {
    ValidRun(c, start, steps) && Fresh(c, After(c, start, steps), age)
  }

  lemma OneMoreRotation(c: Settings, start: Sys, steps: seq<Step>, age: nat)
    requires age > 0 && FreshAfter(c, start, steps, age - 1)
    requires age < Min(c.maxAge, c.sessionTtl) && c.refreshTtl > 1
    ensures FreshAfter(c, start, steps + [Tick(1)] + [Present(age, age + 1)], age)
  {
    FreshAgain(c, After(c, start, steps), age - 1);
    Then(c, start, steps, Tick(1));
    Then(c, start, steps + [Tick(1)], Present(age, age + 1));
  }

  lemma {:induction false} KeepRotating(c: Settings, start: Sys, age: nat)
    requires FreshAfter(c, start, [], 0) && age < Min(c.maxAge, c.sessionTtl) && c.refreshTtl > 1
    ensures FreshAfter(c, start, Rotating(age), age)
  {
    if age == 0 {
      assert Rotating(0) == [];
    } else {
      KeepRotating(c, start, age - 1);
      OneMoreRotation(c, start, Rotating(age - 1), age);
    }
  }

  // A login can be rotated at some age exactly when that age is below both the
  // maximum age of the chain and the lifetime of the session, however short the
  // lifetime of a single token is.
  lemma CanRotateIff(c: Settings, age: int)
    requires c.refreshTtl > 1
    ensures CanRotateAt(c, age) <==> 0 <= age < Min(c.maxAge, c.sessionTtl)
  {
    if 0 <= age < Min(c.maxAge, c.sessionTtl) {
      FreshAtLogin(c);
      KeepRotating(c, Authenticate(c, Start, 1, true, 1, 1, 1).0, age);
      assert RotatesAt(c, Login(Start, 1, 1, 1, 1, Rotating(age)), age + 1, age + 2, age);
    }
    forall l, id, newId | RotatesAt(c, l, id, newId, age)
      ensures 0 <= age < Min(c.maxAge, c.sessionTtl)
    {
      RotationsEndAfterLogin(c, l.s, l.user, l.sid, l.tid, l.family, l.later, id, newId);
      NowOnlyGrows(c, Authenticate(c, l.s, l.user, true, l.sid, l.tid, l.family).0, l.later);
    }
  }

  lemma {:induction false} NowOnlyGrows(c: Settings, s: Sys, steps: seq<Step>)
    ensures s.now <= After(c, s, steps).now
  {
    if steps != [] {
      NowOnlyGrows(c, s, steps[..|steps| - 1]);
      NowGrows(c, After(c, s, steps[..|steps| - 1]), steps[|steps| - 1]);
    }
  }

  // The documented maximum age of a chain is what ends it exactly when it is no
  // longer than the session's lifetime.
  lemma MaxAgeIsReachedIff(c: Settings)
    requires c.refreshTtl > 1 && c.maxAge > 0
    ensures (forall age :: 0 <= age < c.maxAge ==> CanRotateAt(c, age)) <==> c.maxAge <= c.sessionTtl
  {
    forall age | 0 <= age < c.maxAge
      ensures CanRotateAt(c, age) <==> age < c.sessionTtl
    {
      CanRotateIff(c, age);
    }
    if c.maxAge > c.sessionTtl {
      assert !CanRotateAt(c, Max(c.sessionTtl, 0));
    }
  }
}
