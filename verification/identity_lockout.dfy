// Lockout: how many wrong passwords `authenticate` checks for one account.
module IdentityLockout {
  import opened Wrappers
  import opened IdentityModel
  import opened IdentityFamilies

  predicate CheckedIn(k: Check, u: int, a: int, b: int) {
    k.user == u && a <= k.at < b
  }

  // Wrong passwords of user `u` that were checked at a <= t < b.
  function Wrong(checks: seq<Check>, u: int, a: int, b: int): nat {
    if checks == [] then 0
    else
      Wrong(checks[..|checks| - 1], u, a, b)
      + if CheckedIn(checks[|checks| - 1], u, a, b) && !checks[|checks| - 1].ok then 1 else 0
  }

  ghost predicate NoSuccess(checks: seq<Check>, u: int, a: int, b: int) {
    forall i :: 0 <= i < |checks| && CheckedIn(checks[i], u, a, b) ==> !checks[i].ok
  }

  // After `m` lockouts that began at `a` or later the wrong checks are covered
  // by the lockouts and the current count, and the last one ends late enough.
  ghost predicate Covered(s: Sys, u: int, a: int, b: int, m: nat) {
    && u in s.users
    && Wrong(s.checks, u, a, b) <= MAX_FAILED_LOGINS * m + s.users[u].failedLogins
    && (m > 0 ==> s.users[u].lockedUntil.Some? && s.users[u].lockedUntil.value >= a + m * LOCKOUT)
  }

  // What holds of the window that starts at `a` in every state of a run.
  ghost predicate Bounded(s: Sys, u: int, a: int, n: nat, m: nat) {
    var b := a + n * LOCKOUT;
    && Wrong(s.checks, u, a, b) <= MAX_FAILED_LOGINS * n
    && (u !in s.users || s.now < a ==> Wrong(s.checks, u, a, b) == 0)
    && (u in s.users && a <= s.now < b ==> Covered(s, u, a, b, m))
  }

  lemma Extended(checks: seq<Check>, k: Check, u: int, a: int, b: int)
    ensures Wrong(checks + [k], u, a, b) == Wrong(checks, u, a, b) + if CheckedIn(k, u, a, b) && !k.ok then 1 else 0
    ensures NoSuccess(checks + [k], u, a, b) ==> NoSuccess(checks, u, a, b) && (CheckedIn(k, u, a, b) ==> !k.ok)
  {
    var longer := checks + [k];
    assert longer[..|longer| - 1] == checks;
    assert longer[|longer| - 1] == k;
    assert forall i :: 0 <= i < |checks| ==> longer[i] == checks[i];
  }

  // A step other than a checked sign-in touches neither the counters nor the log.
  ghost predicate NoCheck(s: Sys, t: Sys) {
    && t.checks == s.checks && s.now <= t.now
    && (forall u :: u in s.users ==>
          u in t.users && t.users[u].failedLogins == s.users[u].failedLogins && t.users[u].lockedUntil == s.users[u].lockedUntil)
  }

  lemma OtherStepsCheckNothing(c: Settings, s: Sys, step: Step)
    requires Enabled(s, step)
    requires step.SignIn? ==> Authenticate(c, s, step.user, step.passwordOk, step.sid, step.tid, step.family).1 !in {WrongPassword, SignedIn}
    ensures NoCheck(s, Apply(c, s, step))
  {
    match step
    case Present(id, newId) =>
    case UseReset(id, strong) =>
    case _ =>
  }

  lemma NoCheckKeepsBound(s: Sys, t: Sys, u: int, a: int, n: nat, m: nat) returns (k: nat)
    requires NoCheck(s, t) && Bounded(s, u, a, n, m)
    ensures Bounded(t, u, a, n, k)
  {
    k := if u in s.users && a <= s.now then m else 0;
  }

  lemma CheckKeepsBound(c: Settings, s: Sys, step: Step, u: int, a: int, n: nat, m: nat) returns (k: nat)
    requires Inv(s) && Enabled(s, step) && step.SignIn? && Bounded(s, u, a, n, m)
    requires Authenticate(c, s, step.user, step.passwordOk, step.sid, step.tid, step.family).1 in {WrongPassword, SignedIn}
    requires NoSuccess(Apply(c, s, step).checks, u, a, a + n * LOCKOUT)
    ensures Bounded(Apply(c, s, step), u, a, n, k)
  {
    var b := a + n * LOCKOUT;
    Extended(s.checks, Check(step.user, s.now, step.passwordOk), u, a, b);
    k := m;
    if step.user == u && !step.passwordOk && s.now >= a && s.users[u].failedLogins + 1 == MAX_FAILED_LOGINS {
      k := m + 1;
    }
  }

  // In every run: a stretch of n lockout periods without a successful login of
  // `u` sees at most 5n wrong passwords checked for `u`.
  lemma {:induction false} Potential(c: Settings, now: int, steps: seq<Step>, u: int, a: int, n: nat) returns (m: nat)
    requires ValidRun(c, Empty(now), steps)
    requires NoSuccess(After(c, Empty(now), steps).checks, u, a, a + n * LOCKOUT)
    ensures Bounded(After(c, Empty(now), steps), u, a, n, m)
  {
    m := 0;
    if steps != [] {
      var before := steps[..|steps| - 1];
      var step := steps[|steps| - 1];
      var s := After(c, Empty(now), before);
      EmptyInv(now);
      AlwaysInv(c, Empty(now), before);
      ChecksOnlyGrow(c, s, step, u, a, a + n * LOCKOUT);
      var k := Potential(c, now, before, u, a, n);
      if step.SignIn? && Authenticate(c, s, step.user, step.passwordOk, step.sid, step.tid, step.family).1 in {WrongPassword, SignedIn} {
        m := CheckKeepsBound(c, s, step, u, a, n, k);
      } else {
        OtherStepsCheckNothing(c, s, step);
        m := NoCheckKeepsBound(s, Apply(c, s, step), u, a, n, k);
      }
    }
  }

  lemma ChecksOnlyGrow(c: Settings, s: Sys, step: Step, u: int, a: int, b: int)
    requires Enabled(s, step)
    ensures NoSuccess(Apply(c, s, step).checks, u, a, b) ==> NoSuccess(s.checks, u, a, b)
  {
    if step.SignIn? {
      Extended(s.checks, Check(step.user, s.now, step.passwordOk), u, a, b);
    } else {
      OtherStepsCheckNothing(c, s, step);
    }
  }

  lemma WrongPasswordsAreBounded(c: Settings, now: int, steps: seq<Step>, u: int, a: int, n: nat)
    requires ValidRun(c, Empty(now), steps)
    requires NoSuccess(After(c, Empty(now), steps).checks, u, a, a + n * LOCKOUT)
    ensures Wrong(After(c, Empty(now), steps).checks, u, a, a + n * LOCKOUT) <= MAX_FAILED_LOGINS * n
  {
    var _ := Potential(c, now, steps, u, a, n);
  }

  // The counter never shows five failures.
  lemma CounterStaysBelowFive(c: Settings, now: int, steps: seq<Step>, u: int)
    requires ValidRun(c, Empty(now), steps) && u in After(c, Empty(now), steps).users
    ensures 0 <= After(c, Empty(now), steps).users[u].failedLogins <= 4
  {
    EmptyInv(now);
    AlwaysInv(c, Empty(now), steps);
  }

  // ------------------------------------------------------- the bound is reached

  const Guess: Step := SignIn(1, false, 0, 0, 0)

  function Guesses(steps: seq<Step>, k: nat): seq<Step> {
    if k == 0 then steps else Guesses(steps, k - 1) + [Guess]
  }

  // Register account 1, then five wrong passwords every lockout period.
  function Guessing(n: nat): seq<Step> {
    if n == 0 then [Register(1)] else Guesses(Guessing(n - 1), MAX_FAILED_LOGINS) + [Tick(LOCKOUT)]
  }

  ghost predicate Guessed(s: Sys, n: nat, k: nat) {
    && s.now == n * LOCKOUT && 1 in s.users && s.users[1].active && !IsLocked(s, s.users[1])
    && s.users[1].failedLogins == k && s.sessions == map[] && s.tokens == map[] && s.chains == map[]
  }

  // A guess is a wrong password that is checked.
  lemma GuessIsChecked(c: Settings, s: Sys, n: nat, k: nat)
    requires Guessed(s, n, k) && k < MAX_FAILED_LOGINS
    ensures Enabled(s, Guess) && Apply(c, s, Guess).checks == s.checks + [Check(1, s.now, false)]
    ensures k < MAX_FAILED_LOGINS - 1 ==> Guessed(Apply(c, s, Guess), n, k + 1)
    ensures k == MAX_FAILED_LOGINS - 1 ==>
              Guessed(Apply(c, s, Guess).(now := s.now + LOCKOUT), n + 1, 0) && Apply(c, s, Guess).now == s.now
  {
    assert Apply(c, s, Guess) == Authenticate(c, s, 1, false, 0, 0, 0).0;
    assert Apply(c, s, Guess).users[1] == FailLogin(s.users[1], s.now);
  }

  lemma GuessOnce(c: Settings, steps: seq<Step>, n: nat, k: nat, b: int)
    requires ValidRun(c, Empty(0), steps) && Guessed(After(c, Empty(0), steps), n, k) && k < MAX_FAILED_LOGINS
    requires n * LOCKOUT < b
    ensures ValidRun(c, Empty(0), steps + [Guess])
    ensures var s := After(c, Empty(0), steps);
            var t := After(c, Empty(0), steps + [Guess]);
            && Wrong(t.checks, 1, 0, b) == Wrong(s.checks, 1, 0, b) + 1
            && (NoSuccess(s.checks, 1, 0, b) ==> NoSuccess(t.checks, 1, 0, b))
            && (k < MAX_FAILED_LOGINS - 1 ==> Guessed(t, n, k + 1))
            && (k == MAX_FAILED_LOGINS - 1 ==> Guessed(t.(now := t.now + LOCKOUT), n + 1, 0))
  {
    var s := After(c, Empty(0), steps);
    GuessIsChecked(c, s, n, k);
    Then(c, Empty(0), steps, Guess);
    Extended(s.checks, Check(1, s.now, false), 1, 0, b);
  }

  lemma {:induction false} GuessSome(c: Settings, steps: seq<Step>, n: nat, k: nat, b: int)
    requires ValidRun(c, Empty(0), steps) && Guessed(After(c, Empty(0), steps), n, 0)
    requires k < MAX_FAILED_LOGINS && n * LOCKOUT < b && NoSuccess(After(c, Empty(0), steps).checks, 1, 0, b)
    ensures ValidRun(c, Empty(0), Guesses(steps, k)) && Guessed(After(c, Empty(0), Guesses(steps, k)), n, k)
    ensures NoSuccess(After(c, Empty(0), Guesses(steps, k)).checks, 1, 0, b)
    ensures Wrong(After(c, Empty(0), Guesses(steps, k)).checks, 1, 0, b)
            == Wrong(After(c, Empty(0), steps).checks, 1, 0, b) + k
  {
    if k > 0 {
      GuessSome(c, steps, n, k - 1, b);
      GuessOnce(c, Guesses(steps, k - 1), n, k - 1, b);
    }
  }

  ghost predicate AllWrong(c: Settings, steps: seq<Step>, n: nat, b: int) {
    && ValidRun(c, Empty(0), steps) && Guessed(After(c, Empty(0), steps), n, 0)
    && NoSuccess(After(c, Empty(0), steps).checks, 1, 0, b)
    && Wrong(After(c, Empty(0), steps).checks, 1, 0, b) == MAX_FAILED_LOGINS * n
  }

  lemma RegisterFirst(c: Settings, b: int)
    ensures AllWrong(c, [Register(1)], 0, b)
  {
    Then(c, Empty(0), [], Register(1));
    assert [] + [Register(1)] == [Register(1)];
  }

  lemma OneMorePeriod(c: Settings, steps: seq<Step>, n: nat, b: int)
    requires AllWrong(c, steps, n, b) && n * LOCKOUT < b
    ensures AllWrong(c, Guesses(steps, MAX_FAILED_LOGINS) + [Tick(LOCKOUT)], n + 1, b)
  {
    var four := Guesses(steps, MAX_FAILED_LOGINS - 1);
    GuessSome(c, steps, n, MAX_FAILED_LOGINS - 1, b);
    GuessOnce(c, four, n, MAX_FAILED_LOGINS - 1, b);
    var five := Guesses(steps, MAX_FAILED_LOGINS);
    assert five == four + [Guess];
    Then(c, Empty(0), five, Tick(LOCKOUT));
  }

  // Five wrong passwords in each of n consecutive lockout periods is possible.
  lemma {:induction false} BoundIsReached(c: Settings, n: nat, b: int)
    requires n * LOCKOUT <= b
    ensures AllWrong(c, Guessing(n), n, b)
  {
    if n == 0 {
      RegisterFirst(c, b);
    } else {
      BoundIsReached(c, n - 1, b);
      OneMorePeriod(c, Guessing(n - 1), n - 1, b);
    }
  }

  // ------------------------------------------------------------- the lock itself

  // Wrong passwords checked for `u` since its last successful login.
  function Streak(checks: seq<Check>, u: int): nat {
    if checks == [] then 0
    else
      var k := checks[|checks| - 1];
      var before := Streak(checks[..|checks| - 1], u);
      if k.user != u then before else if k.ok then 0 else before + 1
  }

  // When the streak last reached a multiple of five.
  function LockedAt(checks: seq<Check>, u: int): Option<int> {
    if checks == [] then None
    else
      var k := checks[|checks| - 1];
      var before := LockedAt(checks[..|checks| - 1], u);
      if k.user != u then before
      else if k.ok then None
      else if Streak(checks, u) % MAX_FAILED_LOGINS == 0 then Some(k.at)
      else before
  }

  // Check `i` is a wrong password that brings the streak to a multiple of five.
  ghost predicate Locks(checks: seq<Check>, u: int, i: nat) {
    i < |checks| && checks[i].user == u && !checks[i].ok && Streak(checks[..i + 1], u) % 5 == 0
  }

  // The counter and the lock of an account follow from the checks alone.
  ghost predicate RowFromLog(s: Sys, u: int) {
    if u in s.users then
      && s.users[u].failedLogins == Streak(s.checks, u) % MAX_FAILED_LOGINS
      && s.users[u].lockedUntil == match LockedAt(s.checks, u) case None => None case Some(t) => Some(t + LOCKOUT)
    else Streak(s.checks, u) == 0 && LockedAt(s.checks, u).None?
  }

  // After a check that locks, the next one comes when the lockout is over.
  ghost predicate Quiet(checks: seq<Check>, u: int) {
    forall i, k :: 0 <= i < k < |checks| && Locks(checks, u, i) && checks[k].user == u ==> checks[k].at >= checks[i].at + LOCKOUT
  }

  ghost predicate OverBy(s: Sys, u: int, at: int) {
    at <= s.now || (u in s.users && s.users[u].lockedUntil.Some? && at <= s.users[u].lockedUntil.value)
  }

  ghost predicate LockInv(s: Sys, u: int) {
    && RowFromLog(s, u) && Quiet(s.checks, u)
    && (forall i :: 0 <= i < |s.checks| && Locks(s.checks, u, i) ==> OverBy(s, u, s.checks[i].at + LOCKOUT))
  }

  lemma StreakAfter(checks: seq<Check>, k: Check, u: int)
    ensures Streak(checks + [k], u) == if k.user != u then Streak(checks, u) else if k.ok then 0 else Streak(checks, u) + 1
    ensures LockedAt(checks + [k], u)
         == if k.user != u then LockedAt(checks, u)
            else if k.ok then None
            else if (Streak(checks, u) + 1) % MAX_FAILED_LOGINS == 0 then Some(k.at)
            else LockedAt(checks, u)
  {
    assert (checks + [k])[..|checks|] == checks;
  }

  lemma LocksInLonger(checks: seq<Check>, k: Check, u: int, i: nat)
    ensures i < |checks| ==> (Locks(checks + [k], u, i) <==> Locks(checks, u, i))
    ensures i == |checks| ==> (Locks(checks + [k], u, i) <==> k.user == u && !k.ok && (Streak(checks, u) + 1) % MAX_FAILED_LOGINS == 0)
  {
    StreakAfter(checks, k, u);
    if i < |checks| {
      assert (checks + [k])[..i + 1] == checks[..i + 1];
    } else if i == |checks| {
      assert (checks + [k])[..i + 1] == checks + [k];
    }
  }

  // What a login step does to the rows of accounts when a password is checked.
  ghost predicate Checked(s: Sys, t: Sys, user: int, ok: bool) {
    && user in s.users && !IsLocked(s, s.users[user])
    && t.now == s.now && t.checks == s.checks + [Check(user, s.now, ok)]
    && t.users == s.users[user := if ok then s.users[user].(failedLogins := 0, lockedUntil := None) else FailLogin(s.users[user], s.now)]
  }

  lemma CheckKeepsRowFromLog(s: Sys, t: Sys, user: int, ok: bool, u: int)
    requires Checked(s, t, user, ok) && RowFromLog(s, u)
    ensures RowFromLog(t, u)
  {
    StreakAfter(s.checks, Check(user, s.now, ok), u);
  }

  lemma CheckKeepsQuiet(s: Sys, t: Sys, user: int, ok: bool, u: int)
    requires Checked(s, t, user, ok) && LockInv(s, u)
    ensures Quiet(t.checks, u)
  {
    var k := Check(user, s.now, ok);
    forall i, j | 0 <= i < j < |t.checks| && Locks(t.checks, u, i) && t.checks[j].user == u
      ensures t.checks[j].at >= t.checks[i].at + LOCKOUT
    {
      LocksInLonger(s.checks, k, u, i);
      assert Locks(s.checks, u, i);
    }
  }

  lemma CheckKeepsOver(s: Sys, t: Sys, user: int, ok: bool, u: int, i: nat)
    requires Checked(s, t, user, ok) && LockInv(s, u) && Locks(t.checks, u, i)
    ensures OverBy(t, u, t.checks[i].at + LOCKOUT)
  {
    LocksInLonger(s.checks, Check(user, s.now, ok), u, i);
    if i < |s.checks| {
      assert OverBy(s, u, s.checks[i].at + LOCKOUT);
    }
  }

  lemma CheckKeepsLockInv(s: Sys, t: Sys, user: int, ok: bool, u: int)
    requires Checked(s, t, user, ok) && LockInv(s, u)
    ensures LockInv(t, u)
  {
    CheckKeepsRowFromLog(s, t, user, ok, u);
    CheckKeepsQuiet(s, t, user, ok, u);
    forall i | 0 <= i < |t.checks| && Locks(t.checks, u, i)
      ensures OverBy(t, u, t.checks[i].at + LOCKOUT)
    {
      CheckKeepsOver(s, t, user, ok, u, i);
    }
  }

  lemma NoCheckKeepsLockInv(s: Sys, t: Sys, u: int)
    requires NoCheck(s, t) && LockInv(s, u)
    requires u in t.users && u !in s.users ==> t.users[u] == User(true, 0, None)
    ensures LockInv(t, u)
  {
    forall i | 0 <= i < |t.checks| && Locks(t.checks, u, i)
      ensures OverBy(t, u, t.checks[i].at + LOCKOUT)
    {
      assert OverBy(s, u, s.checks[i].at + LOCKOUT);
    }
  }

  lemma NewUsersAreFresh(c: Settings, s: Sys, step: Step, u: int)
    requires Enabled(s, step) && u !in s.users && u in Apply(c, s, step).users
    ensures Apply(c, s, step).users[u] == User(true, 0, None)
  {
    match step
    case Present(_, _) =>
    case UseReset(_, _) =>
    case _ =>
  }

  lemma StepKeepsLockInv(c: Settings, s: Sys, step: Step, u: int)
    requires Enabled(s, step) && LockInv(s, u)
    ensures LockInv(Apply(c, s, step), u)
  {
    if step.SignIn? && Authenticate(c, s, step.user, step.passwordOk, step.sid, step.tid, step.family).1 in {WrongPassword, SignedIn} {
      CheckKeepsLockInv(s, Apply(c, s, step), step.user, step.passwordOk, u);
    } else {
      OtherStepsCheckNothing(c, s, step);
      if u !in s.users && u in Apply(c, s, step).users {
        NewUsersAreFresh(c, s, step, u);
      }
      NoCheckKeepsLockInv(s, Apply(c, s, step), u);
    }
  }

  lemma {:induction false} AlwaysLockInv(c: Settings, now: int, steps: seq<Step>, u: int)
    requires ValidRun(c, Empty(now), steps)
    ensures LockInv(After(c, Empty(now), steps), u)
  {
    if steps != [] {
      AlwaysLockInv(c, now, steps[..|steps| - 1], u);
      StepKeepsLockInv(c, After(c, Empty(now), steps[..|steps| - 1]), steps[|steps| - 1], u);
    }
  }

  // In every run: once a wrong password has brought an account's streak to a
  // multiple of five, no password of that account, right or wrong, is checked
  // before the lockout is over.
  lemma NothingIsCheckedWhileLocked(c: Settings, now: int, steps: seq<Step>, u: int, i: nat, k: nat)
    requires ValidRun(c, Empty(now), steps)
    requires i < k < |After(c, Empty(now), steps).checks|
    requires Locks(After(c, Empty(now), steps).checks, u, i) && After(c, Empty(now), steps).checks[k].user == u
    ensures var checks := After(c, Empty(now), steps).checks; checks[k].at >= checks[i].at + 15 * 60_000_000
  {
    AlwaysLockInv(c, now, steps, u);
  }

  ghost predicate LockIsOver(s: Sys, user: int) {
    LockedAt(s.checks, user).None? || s.now >= LockedAt(s.checks, user).value + 15 * 60_000_000
  }

  // Whether a login succeeds, told from the log of checks: exactly for a known,
  // active account whose lock is over and with the right password. A locked
  // account refuses the right password too, and a refusal without a check
  // leaves everything as it is.
  lemma LoginSucceedsIff(c: Settings, now: int, steps: seq<Step>, user: int, ok: bool, sid: int, tid: int, family: int)
    requires ValidRun(c, Empty(now), steps)
    ensures var s := After(c, Empty(now), steps);
            var (t, r) := Authenticate(c, s, user, ok, sid, tid, family);
            var known := user in s.users && s.users[user].active;
            && (r == SignedIn <==> known && LockIsOver(s, user) && ok)
            && (r == WrongPassword <==> known && LockIsOver(s, user) && !ok)
            && (r == Locked <==> known && !LockIsOver(s, user))
            && (r == Disabled <==> user in s.users && !s.users[user].active)
            && (r == SignedIn || r == WrongPassword <==> t.checks == s.checks + [Check(user, s.now, ok)])
            && (r != SignedIn && r != WrongPassword ==> t == s)
  {
    AlwaysLockInv(c, now, steps, user);
  }

  // Five wrong passwords in a row do not always lock: the sixth of a streak
  // comes after the lockout and starts a new count, so the right password is
  // accepted directly after the second to sixth were wrong.
  lemma SixthFailureDoesNotLock(c: Settings)
    ensures var steps := Guessing(1) + [Guess];
            && ValidRun(c, Empty(0), steps)
            && Wrong(After(c, Empty(0), steps).checks, 1, 0, 2 * LOCKOUT) == 6
            && NoSuccess(After(c, Empty(0), steps).checks, 1, 0, 2 * LOCKOUT)
            && Authenticate(c, After(c, Empty(0), steps), 1, true, 0, 0, 0).1 == SignedIn
  {
    BoundIsReached(c, 1, 2 * LOCKOUT);
    GuessOnce(c, Guessing(1), 1, 0, 2 * LOCKOUT);
  }
}
