// InstagramConnectService of app/modules/instagram/service.py as an object
// whose tables are updated in place, and the daily sweep of
// app/worker/tasks.py. The object's state is always one that a run of
// InstagramTokens reaches.
module InstagramService {
  import opened Wrappers
  import opened InstagramTokens

  // One account of a sweep: the time it takes, then refresh_if_needed.
  datatype Totals = Totals(store: Store, refreshed: nat, errors: nat)

  function SweepNext(t: Totals, account: int, reply: Reply, waited: nat): (r: Totals)
    requires account in t.store.accounts
    ensures r.store.accounts.Keys == t.store.accounts.Keys
  {
    var at := t.store.(now := t.store.now + waited);
    var stored := Refresh(at, account, reply).1;
    var raised := NeedsRefresh(at, account) && reply.Raises?;
    Totals(VisitAccount(at, account, reply), t.refreshed + (if stored then 1 else 0), t.errors + (if raised then 1 else 0))
  }

  function Swept(s: Store, order: seq<int>, replies: int -> Reply, waits: int -> nat): (t: Totals)
    requires forall a :: a in order ==> a in s.accounts
    ensures t.store.accounts.Keys == s.accounts.Keys
  {
    if order == [] then Totals(s, 0, 0)
    else
      var n := |order| - 1;
      SweepNext(Swept(s, order[..n], replies, waits), order[n], replies(order[n]), waits(order[n]))
  }

  predicate Distinct(ids: seq<int>) {
    forall i, j :: 0 <= i < j < |ids| ==> ids[i] != ids[j]
  }

  function Elements(ids: seq<int>): set<int> {
    set a | a in ids
  }

  lemma FirstElement(ids: seq<int>, i: nat)
    requires i < |ids| && Distinct(ids)
    ensures ids[i] in Elements(ids[i..]) && Elements(ids[i..]) - {ids[i]} == Elements(ids[i + 1..])
  {
    assert ids[i..] == [ids[i]] + ids[i + 1..];
    assert ids[i] !in ids[i + 1..];
  }

  lemma SelectedAre(accounts: map<int, Account>, ids: seq<int>)
    requires forall a :: a in ids <==> Sweepable(accounts, a)
    ensures Elements(ids) == Selected(accounts)
  {
    forall a
      ensures a in Elements(ids) <==> a in Selected(accounts)
    {
      assert a in Elements(ids) <==> a in ids;
    }
  }

  // The steps of a sweep over `order`.
  function Visits(order: seq<int>, replies: int -> Reply, waits: int -> nat): seq<Step> {
    if order == [] then []
    else
      var n := |order| - 1;
      Visits(order[..n], replies, waits) + [Tick(waits(order[n])), Visit(order[n], replies(order[n]))]
  }

  lemma OneMoreVisit(s: Store, ids: seq<int>, i: nat, replies: int -> Reply, waits: int -> nat)
    requires i < |ids| && forall a :: a in ids ==> a in s.accounts
    ensures Swept(s, ids[..i + 1], replies, waits) == SweepNext(Swept(s, ids[..i], replies, waits), ids[i], replies(ids[i]), waits(ids[i]))
    ensures Visits(ids[..i + 1], replies, waits) == Visits(ids[..i], replies, waits) + [Tick(waits(ids[i])), Visit(ids[i], replies(ids[i]))]
  {
    assert ids[..i + 1][..i] == ids[..i];
  }

  // After `i` visits the other accounts are still to be visited; after the last
  // one the sweep is complete.
  lemma {:induction false} StillToVisit(s: Store, ids: seq<int>, i: nat, replies: int -> Reply, waits: int -> nat)
    requires i <= |ids| && (forall a :: a in ids ==> a in s.accounts)
    requires Distinct(ids)
    requires s.sweep == Visiting(Elements(ids), s.sweep.began, s.sweep.covered)
    ensures Swept(s, ids[..i], replies, waits).store.sweep == Visiting(Elements(ids[i..]), s.sweep.began, s.sweep.covered)
  {
    if i == 0 {
      assert ids[0..] == ids;
    } else {
      StillToVisit(s, ids, i - 1, replies, waits);
      FirstElement(ids, i - 1);
      OneMoreVisit(s, ids, i - 1, replies, waits);
    }
  }

  class InstagramConnectService {
    ghost const from: int
    var now: int
    var accounts: map<int, Account>
    var tokens: seq<Token>
    ghost var sweep: Sweep
    ghost var trace: seq<Step>

    ghost function State(): Store
      reads this
    {
      Store(now, accounts, tokens, sweep)
    }

    ghost predicate Valid()
      reads this
    {
      ValidRun(from, trace) && After(from, trace) == State()
    }

    constructor (now: int)
      ensures Valid() && trace == [] && State() == Store(now, map[], [], Sweep({}, now, now))
    {
      this.from := now;
      this.now := now;
      this.accounts := map[];
      this.tokens := [];
      this.sweep := Sweep({}, now, now);
      this.trace := [];
    }

    // Every older credential of the account is revoked before the new one is stored.
    method StoreToken(account: int, expiresAt: Option<int>)
      modifies this`tokens
      ensures tokens == InstagramTokens.StoreToken(old(tokens), account, expiresAt)
    {
      RevokeTokens(account);
      tokens := tokens + [Token(account, expiresAt, false)];
    }

    method RevokeTokens(account: int)
      modifies this`tokens
      ensures tokens == RevokeAll(old(tokens), account)
    {
      tokens := seq(|tokens|, i requires 0 <= i < |tokens| reads this =>
        if tokens[i].account == account && !tokens[i].revoked then tokens[i].(revoked := true) else tokens[i]);
    }

    // complete_connect after Meta has answered; false is the refusal of an
    // account that another workspace holds.
    method UpsertAccount(workspace: int, account: int, expiresIn: int) returns (ok: bool)
      requires Valid()
      modifies this
      ensures Valid() && trace == old(trace) + [DoConnect(workspace, account, expiresIn)]
      ensures State() == Connect(old(State()), workspace, account, expiresIn)
      ensures ok <==> !Refused(old(State()), workspace, account)
    {
      if account in accounts && accounts[account].workspace != workspace {
        Record(DoConnect(workspace, account, expiresIn));
        return false;
      }
      var expiresAt := now + (if expiresIn != 0 then expiresIn * SECOND else LONG_LIVED_TOKEN_DAYS * DAY);
      if account !in accounts {
        accounts := accounts[account := Account(workspace, Connected)];
      }
      accounts := accounts[account := accounts[account].(status := Connected)];
      StoreToken(account, Some(expiresAt));
      Record(DoConnect(workspace, account, expiresIn));
      return true;
    }

    method GetActiveToken(account: int) returns (r: Result<int, TokenError>)
      ensures r == ActiveToken(State(), account)
    {
      var i := LatestLive(tokens, account);
      if i < 0 {
        return Err(NotFound);
      }
      if tokens[i].expiresAt.Some? && tokens[i].expiresAt.value <= now {
        return Err(Expired);
      }
      return Ok(i);
    }

    method RefreshIfNeeded(account: int, reply: Reply) returns (stored: bool, raised: bool)
      requires Valid() && account in accounts
      modifies this
      ensures Valid() && trace == old(trace) + [DoRefresh(account, reply)]
      ensures (State(), stored) == Refresh(old(State()), account, reply)
      ensures raised <==> NeedsRefresh(old(State()), account) && reply.Raises?
    {
      stored, raised := RefreshRow(account, reply);
      Record(DoRefresh(account, reply));
    }

    // `raised` tells the caller that the call ended in an exception.
    method RefreshRow(account: int, reply: Reply) returns (stored: bool, raised: bool)
      requires account in accounts
      modifies this`accounts, this`tokens
      ensures (State(), stored) == Refresh(old(State()), account, reply)
      ensures raised <==> NeedsRefresh(old(State()), account) && reply.Raises?
    {
      stored, raised := false, false;
      var i := LatestLive(tokens, account);
      if i >= 0 && tokens[i].expiresAt.Some? {
        var threshold := now + MARGIN;
        if tokens[i].expiresAt.value <= threshold {
          match reply {
            case Raises =>
              raised := true;
            case MetaError =>
              accounts := accounts[account := accounts[account].(status := TokenExpired)];
            case NoToken =>
            case NewToken(expiresIn) =>
              var expiresAt := now + (if expiresIn != 0 then expiresIn * SECOND else LONG_LIVED_TOKEN_DAYS * DAY);
              tokens := tokens[i := tokens[i].(expiresAt := Some(expiresAt))];
              if accounts[account].status == TokenExpired {
                accounts := accounts[account := accounts[account].(status := Connected)];
              }
              stored := true;
          }
        }
      }
    }

    method MarkTokenError(account: int, metaCode: int)
      requires Valid() && account in accounts
      modifies this
      ensures Valid() && trace == old(trace) + [DoMarkError(account, metaCode == 190)]
      ensures State() == SetStatus(old(State()), account, if metaCode == 190 then TokenExpired else Error)
    {
      accounts := accounts[account := accounts[account].(status := if metaCode == 190 then TokenExpired else Error)];
      Record(DoMarkError(account, metaCode == 190));
    }

    method Disconnect(account: int)
      requires Valid() && account in accounts
      modifies this
      ensures Valid() && trace == old(trace) + [DoDisconnect(account)]
      ensures State() == InstagramTokens.Disconnect(old(State()), account)
      ensures LatestLive(tokens, account) == -1
    {
      RevokeTokens(account);
      accounts := accounts[account := accounts[account].(status := Disconnected)];
      Record(DoDisconnect(account));
    }

    method Wait(elapsed: nat)
      requires Valid()
      modifies this
      ensures Valid() && trace == old(trace) + [Tick(elapsed)]
      ensures State() == old(State()).(now := old(now) + elapsed)
    {
      now := now + elapsed;
      Record(Tick(elapsed));
    }

    // The accounts that a sweep visits, in the order the database lists them.
    method SelectAccounts() returns (ids: seq<int>)
      ensures Distinct(ids)
      ensures forall a :: a in ids <==> Sweepable(accounts, a)
      ensures forall a :: a in ids ==> a in accounts
    {
      var pending: set<int> := set a | a in accounts && Sweepable(accounts, a);
      ids := [];
      while pending != {}
        invariant forall a :: Sweepable(accounts, a) <==> a in pending || a in ids
        invariant forall a :: a in ids ==> a !in pending
        invariant Distinct(ids)
        decreases |pending|
      {
        EmptyIfNoMember(pending);
        var a :| a in pending;
        pending := pending - {a};
        ids := ids + [a];
      }
    }

    // refresh_meta_tokens: every connected or expired account is visited once,
    // and one failing account does not stop the others.
    method RefreshMetaTokens(replies: int -> Reply, waits: int -> nat)
      returns (ids: seq<int>, refreshed: nat, errors: nat)
      requires Valid() && sweep.todo == {}
      modifies this
      ensures Valid() && sweep == Sweep({}, old(now), old(now))
      ensures Distinct(ids)
      ensures forall a :: a in ids <==> Sweepable(old(accounts), a)
      ensures forall a :: a in ids ==> a in old(accounts)
      ensures Totals(State(), refreshed, errors) == Swept(Apply(old(State()), BeginSweep), ids, replies, waits)
      ensures trace == old(trace) + [BeginSweep] + Visits(ids, replies, waits)
    {
      ids := SelectAccounts();
      SelectedAre(accounts, ids);
      sweep := Visiting(Elements(ids), now, sweep.covered);
      Record(BeginSweep);
      refreshed, errors := VisitAccounts(ids, replies, waits);
    }

    // The loop over the selected accounts.
    method VisitAccounts(ids: seq<int>, replies: int -> Reply, waits: int -> nat) returns (refreshed: nat, errors: nat)
      requires Valid() && sweep == Visiting(Elements(ids), sweep.began, sweep.covered)
      requires Distinct(ids)
      requires forall a :: a in ids ==> a in accounts
      modifies this
      ensures Valid() && sweep == Sweep({}, old(sweep).began, old(sweep).began)
      ensures Totals(State(), refreshed, errors) == Swept(old(State()), ids, replies, waits)
      ensures trace == old(trace) + Visits(ids, replies, waits)
    {
      refreshed, errors := 0, 0;
      ghost var first := State();
      for i := 0 to |ids|
        invariant Valid()
        invariant Totals(State(), refreshed, errors) == Swept(first, ids[..i], replies, waits)
        invariant trace == old(trace) + Visits(ids[..i], replies, waits)
      {
        refreshed, errors := VisitNext(first, ids, i, replies, waits, refreshed, errors);
        OneMoreVisit(first, ids, i, replies, waits);
      }
      assert ids[..|ids|] == ids;
      StillToVisit(first, ids, |ids|, replies, waits);
    }

    method VisitNext(ghost first: Store, ids: seq<int>, i: nat, replies: int -> Reply, waits: int -> nat,
                     refreshed: nat, errors: nat) returns (r: nat, e: nat)
      requires Valid() && i < |ids| && Distinct(ids) && forall a :: a in ids ==> a in first.accounts
      requires first.sweep == Visiting(Elements(ids), first.sweep.began, first.sweep.covered)
      requires Totals(State(), refreshed, errors) == Swept(first, ids[..i], replies, waits)
      modifies this
      ensures Valid() && Totals(State(), r, e) == Swept(first, ids[..i + 1], replies, waits)
      ensures trace == old(trace) + [Tick(waits(ids[i])), Visit(ids[i], replies(ids[i]))]
    {
      StillToVisit(first, ids, i, replies, waits);
      FirstElement(ids, i);
      r, e := SweepOne(ids[i], replies(ids[i]), waits(ids[i]), refreshed, errors);
      OneMoreVisit(first, ids, i, replies, waits);
    }

    method SweepOne(account: int, reply: Reply, waited: nat, refreshed: nat, errors: nat) returns (r: nat, e: nat)
      requires Valid() && account in accounts && account in sweep.todo
      modifies this
      ensures Valid()
      ensures Totals(State(), r, e) == SweepNext(Totals(old(State()), refreshed, errors), account, reply, waited)
      ensures trace == old(trace) + [Tick(waited), Visit(account, reply)]
    {
      Wait(waited);
      var stored, raised := RefreshRow(account, reply);
      sweep := Visiting(sweep.todo - {account}, sweep.began, sweep.covered);
      Record(Visit(account, reply));
      r := refreshed + (if stored then 1 else 0);
      e := errors + (if raised then 1 else 0);
    }

    ghost method Record(step: Step)
      requires ValidRun(from, trace) && Enabled(After(from, trace), step)
      requires Apply(After(from, trace), step) == State()
      modifies this`trace
      ensures Valid() && trace == old(trace) + [step]
    {
      assert (trace + [step])[..|trace|] == trace;
      trace := trace + [step];
    }
  }

  // Whatever was done with a service object, an account it lists has at most
  // one live credential, and none once it is disconnected.
  lemma ServiceKeepsOneCredential(s: InstagramConnectService)
    requires s.Valid()
    ensures OneCredential(s.State())
  {
    AlwaysOneCredential(s.from, s.trace);
  }

  // If its sweeps are at most seven days apart and skip no token of the
  // account, a service object never finds that account's credential expired.
  lemma ServiceHasNoGap(s: InstagramConnectService, account: int)
    requires s.Valid() && Regular(s.from, s.trace, account, MARGIN) && NeverSkipped(s.from, s.trace, account)
    ensures ActiveToken(s.State(), account) != Err(Expired)
  {
    NoCredentialGap(s.from, s.trace, account, MARGIN);
  }
}
