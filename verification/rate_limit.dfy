// The fixed-window rate limiter of app/core/rate_limit.py: the in-process
// backend, the Redis backend, and why one can stand in for the other.
module RateLimit {
  import opened Wrappers

  datatype RateLimitResult = RateLimitResult(allowed: bool, limit: int, remaining: int, resetAfter: real)

  // The limit and window (in seconds) that callers use for each key.
  datatype Policy = Policy(limit: string -> int, window: string -> int)

  // What happens to a limiter: a hit of a key, or the reset of one.
  datatype Event = Hit(key: string, at: real) | Reset(key: string)

  // ------------------------------------------------------ in-process backend

  datatype Bucket = Bucket(count: nat, start: real)

  function Bump(bucket: Option<Bucket>, now: real, window: int): Bucket {
    var seen := if bucket.Some? then bucket.value else Bucket(0, now);
    if now - seen.start >= window as real then Bucket(1, now) else Bucket(seen.count + 1, seen.start)
  }

  function Decide(b: Bucket, now: real, limit: int, window: int): RateLimitResult {
    RateLimitResult(b.count <= limit, limit, Max(limit - b.count, 0),
                    RealMax(window as real - (now - b.start), 0.0))
  }

  function Find<K, V>(m: map<K, V>, key: K): Option<V> {
    if key in m then Some(m[key]) else None
  }

  class MemoryLimiter {
    var buckets: map<string, Bucket>

    constructor ()
      ensures buckets == map[]
    {
      buckets := map[];
    }

    method Hit(key: string, now: real, limit: int, window: int) returns (r: RateLimitResult)
      modifies this
      ensures buckets == old(buckets)[key := Bump(Find(old(buckets), key), now, window)]
      ensures r == Decide(buckets[key], now, limit, window)
    {
      var count, start := 0, now;
      if key in buckets {
        count, start := buckets[key].count, buckets[key].start;
      }
      if now - start >= window as real {
        count, start := 0, now;
      }
      count := count + 1;
      buckets := buckets[key := Bucket(count, start)];
      var remaining := Max(limit - count, 0);
      var resetAfter := RealMax(window as real - (now - start), 0.0);
      r := RateLimitResult(count <= limit, limit, remaining, resetAfter);
    }

    method Reset(key: string)
      modifies this
      ensures buckets == old(buckets) - {key}
    {
      buckets := buckets - {key};
    }
  }

  // What a limiter that starts empty holds after a trace of events on any keys.
  function MemoryAfter(p: Policy, trace: seq<Event>): map<string, Bucket> {
    if trace == [] then map[]
    else
      var h := trace[|trace| - 1];
      var before := MemoryAfter(p, trace[..|trace| - 1]);
      match h
      case Hit(key, at) => before[key := Bump(Find(before, key), at, p.window(key))]
      case Reset(key) => before - {key}
  }

  // The trace ends with a hit.
  predicate EndsInHit(trace: seq<Event>) {
    trace != [] && trace[|trace| - 1].Hit?
  }

  // The answer to the last hit of a trace.
  function MemoryAnswer(p: Policy, trace: seq<Event>): RateLimitResult
    requires EndsInHit(trace)
  {
    var h := trace[|trace| - 1];
    var before := MemoryAfter(p, trace[..|trace| - 1]);
    Decide(Bump(Find(before, h.key), h.at, p.window(h.key)), h.at, p.limit(h.key), p.window(h.key))
  }

  // The hits of a key since it was last reset.
  function TimesOf(trace: seq<Event>, key: string): seq<real> {
    if trace == [] then []
    else
      var h := trace[|trace| - 1];
      var before := TimesOf(trace[..|trace| - 1], key);
      if h.key != key then before else if h.Reset? then [] else before + [h.at]
  }

  ghost predicate Ordered(ts: seq<real>) {
    forall i, j :: 0 <= i < j < |ts| ==> ts[i] <= ts[j]
  }

  function BucketAfter(ts: seq<real>, window: int): Option<Bucket> {
    if ts == [] then None
    else Some(Bump(BucketAfter(ts[..|ts| - 1], window), ts[|ts| - 1], window))
  }

  // Keys do not affect each other: what the limiter knows about a key depends
  // on the hits of that key since its last reset alone.
  lemma {:induction false} KeysAreIndependent(p: Policy, trace: seq<Event>, key: string)
    ensures Find(MemoryAfter(p, trace), key) == BucketAfter(TimesOf(trace, key), p.window(key))
  {
    if trace != [] {
      var n := |trace| - 1;
      KeysAreIndependent(p, trace[..n], key);
      var ts := TimesOf(trace[..n], key);
      if trace[n].key == key && trace[n].Hit? {
        assert (ts + [trace[n].at])[..|ts|] == ts;
      }
    }
  }

  // A hit opens a window exactly when no window opened earlier still covers it.
  // This is the meaning of "fixed window", stated without any counter.
  ghost predicate Opens(ts: seq<real>, window: int, i: nat)
    requires i < |ts|
    decreases i
  {
    forall j: nat {:trigger Opens(ts, window, j)} :: j < i && Opens(ts, window, j) ==> ts[i] - ts[j] >= window as real
  }

  // `o` is the hit that opened the window in which hit `i` falls.
  ghost predicate OpenerOf(ts: seq<real>, window: int, o: nat, i: nat) {
    && o <= i < |ts|
    && Opens(ts, window, o)
    && (o < i ==> ts[i] - ts[o] < window as real)
    && (forall j: nat {:trigger Opens(ts, window, j)} :: o < j <= i ==> !Opens(ts, window, j))
  }

  lemma {:induction false} OpensInPrefix(ts: seq<real>, window: int, n: nat, i: nat)
    requires i < n <= |ts|
    ensures Opens(ts[..n], window, i) <==> Opens(ts, window, i)
    decreases i
  {
    forall j: nat | j < i
      ensures Opens(ts[..n], window, j) <==> Opens(ts, window, j)
    {
      OpensInPrefix(ts, window, n, j);
    }
  }

  lemma {:induction false} OpenerInPrefix(ts: seq<real>, window: int, n: nat, o: nat, i: nat)
    requires i < n <= |ts|
    ensures OpenerOf(ts[..n], window, o, i) <==> OpenerOf(ts, window, o, i)
  {
    forall j: nat | j <= i
      ensures Opens(ts[..n], window, j) <==> Opens(ts, window, j)
    {
      OpensInPrefix(ts, window, n, j);
    }
  }

  // The counter of a key is the rank of the latest hit within its window.
  lemma {:induction false} CounterIsRank(ts: seq<real>, window: int) returns (o: nat)
    requires ts != [] && Ordered(ts)
    ensures OpenerOf(ts, window, o, |ts| - 1)
    ensures BucketAfter(ts, window) == Some(Bucket(|ts| - o, ts[o]))
  {
    var n := |ts| - 1;
    if n == 0 {
      o := 0;
    } else {
      var before := CounterIsRank(ts[..n], window);
      OpenerInPrefix(ts, window, n, before, n - 1);
      if ts[n] - ts[before] >= window as real {
        o := n;
        EarlierWindowsAreOver(ts, window, before, n);
      } else {
        o := before;
        assert Opens(ts, window, before);
      }
    }
  }

  lemma EarlierWindowsAreOver(ts: seq<real>, window: int, o: nat, n: nat)
    requires 0 < n < |ts| && Ordered(ts) && OpenerOf(ts, window, o, n - 1)
    requires ts[n] - ts[o] >= window as real
    ensures Opens(ts, window, n)
  {
    forall j: nat | j < n && Opens(ts, window, j)
      ensures ts[n] - ts[j] >= window as real
    {
      assert j <= o;
    }
  }

  // The answer to the hit of this rank in a window that ends at `end`.
  predicate AnswersRank(r: RateLimitResult, rank: int, end: real, now: real, limit: int) {
    && (r.allowed <==> rank <= limit) && r.limit == limit && r.remaining == Max(limit - rank, 0)
    && r.resetAfter == RealMax(end - now, 0.0)
  }

  // Exactly the first `limit` hits of each window are allowed, whatever the
  // other keys do; the answer counts down the rest of them and the time until
  // the window ends.
  lemma AllowedIffAmongFirst(p: Policy, trace: seq<Event>) returns (o: nat)
    requires EndsInHit(trace) && Ordered(TimesOf(trace, trace[|trace| - 1].key))
    ensures var h := trace[|trace| - 1];
            var ts := TimesOf(trace, h.key);
            && OpenerOf(ts, p.window(h.key), o, |ts| - 1)
            && AnswersRank(MemoryAnswer(p, trace), |ts| - o, ts[o] + p.window(h.key) as real, h.at, p.limit(h.key))
  {
    var h := trace[|trace| - 1];
    LastBucket(p, trace);
    o := CounterIsRank(TimesOf(trace, h.key), p.window(h.key));
    FieldsOfAnswer(|TimesOf(trace, h.key)| - o, TimesOf(trace, h.key)[o], h.at, p.limit(h.key), p.window(h.key));
  }

  lemma FieldsOfAnswer(count: nat, start: real, now: real, limit: int, window: int)
    ensures AnswersRank(Decide(Bucket(count, start), now, limit, window), count, start + window as real, now, limit)
  {
  }

  // ------------------------------------------------ the sliding-interval bound

  // An instant lies in [from, from + window), or in [from, from + window].
  predicate Within(t: real, from: real, window: int, closed: bool) {
    from <= t && (t < from + window as real || (closed && t == from + window as real))
  }

  // Allowed hits of one key that fall in the interval.
  function AllowedIn(ts: seq<real>, window: int, limit: int, from: real, closed: bool): nat {
    if ts == [] then 0
    else
      var n := |ts| - 1;
      var bucket := BucketAfter(ts, window).value;
      AllowedIn(ts[..n], window, limit, from, closed)
      + (if Within(ts[n], from, window, closed) && bucket.count <= limit then 1 else 0)
  }

  // What each possible position of the current window leaves for the interval.
  // A window opened before `from` spent one of its allowed hits outside: the
  // hit that opened it. Only a window opened at `from` itself leaves room for
  // a second full one, in the last instant of a closed interval.
  ghost predicate Spent(ts: seq<real>, window: int, limit: int, from: real, closed: bool)
    requires ts != []
  {
    var b := BucketAfter(ts, window).value;
    var used := AllowedIn(ts, window, limit, from, closed);
    var w := window as real;
    if b.start + w <= from then used == 0
    else if b.start < from then used <= Min(b.count, limit) - 1
    else if b.start == from then used <= Min(b.count, limit)
    else if b.start < from + w then used <= limit - 1 + Min(b.count, limit)
    else if b.start == from + w && closed then used <= limit + Min(b.count, limit)
    else used <= Most(limit, closed)
  }

  function Most(limit: int, closed: bool): int {
    if closed then 2 * limit else 2 * limit - 1
  }

  lemma {:induction false} SpentHolds(ts: seq<real>, window: int, limit: int, from: real, closed: bool)
    requires ts != [] && Ordered(ts) && window > 0 && limit > 0
    ensures Spent(ts, window, limit, from, closed)
    ensures var b := BucketAfter(ts, window).value;
            b.count >= 1 && b.start <= ts[|ts| - 1] < b.start + window as real
  {
    var n := |ts| - 1;
    if n == 0 {
      assert ts[..n] == [];
    } else {
      SpentHolds(ts[..n], window, limit, from, closed);
      assert ts[..n][n - 1] == ts[n - 1];
    }
  }

  // No half-open interval of window length holds twice the limit.
  lemma LessThanTwiceTheLimit(p: Policy, trace: seq<Event>, key: string, from: real)
    requires Ordered(TimesOf(trace, key))
    ensures AllowedIn(TimesOf(trace, key), p.window(key), p.limit(key), from, false) <= Max(2 * p.limit(key) - 1, 0)
  {
    var ts := TimesOf(trace, key);
    if p.limit(key) <= 0 || p.window(key) <= 0 {
      NothingAllowed(ts, p.window(key), p.limit(key), from, false);
    } else if ts != [] {
      SpentHolds(ts, p.window(key), p.limit(key), from, false);
    }
  }

  // A closed interval of window length holds at most twice the limit, unless
  // the window is empty.
  lemma TwiceTheLimit(p: Policy, trace: seq<Event>, key: string, from: real)
    requires Ordered(TimesOf(trace, key)) && p.window(key) != 0
    ensures AllowedIn(TimesOf(trace, key), p.window(key), p.limit(key), from, true) <= Max(2 * p.limit(key), 0)
  {
    var ts := TimesOf(trace, key);
    if p.limit(key) <= 0 || p.window(key) < 0 {
      NothingAllowed(ts, p.window(key), p.limit(key), from, true);
    } else if ts != [] {
      SpentHolds(ts, p.window(key), p.limit(key), from, true);
    }
  }

  lemma {:induction false} NothingAllowed(ts: seq<real>, window: int, limit: int, from: real, closed: bool)
    requires limit <= 0 || window < 0 || (window == 0 && !closed)
    ensures AllowedIn(ts, window, limit, from, closed) == 0
  {
    if ts != [] {
      NothingAllowed(ts[..|ts| - 1], window, limit, from, closed);
    }
  }

  // `limit` hits in one window and `limit` when it ends: one hit at 0 and the
  // others half a window later, or all of them at 0.
  function Bursts(window: int, limit: int, closed: bool): seq<real>
    requires limit > 0
  {
    seq(2 * limit, i => BurstAt(window, limit, closed, i))
  }

  function BurstAt(window: int, limit: int, closed: bool, i: int): real {
    if i == 0 then 0.0
    else if i >= limit then window as real
    else if closed then 0.0
    else window as real / 2.0
  }

  lemma {:induction false} BucketOfBursts(window: int, limit: int, n: nat, closed: bool)
    requires window > 0 && 0 < n <= 2 * limit
    ensures BucketAfter(Bursts(window, limit, closed)[..n], window)
         == Some(if n > limit then Bucket(n - limit, window as real) else Bucket(n, 0.0))
  {
    var ts := Bursts(window, limit, closed)[..n];
    assert ts[..n - 1] == Bursts(window, limit, closed)[..n - 1];
    assert ts[n - 1] == BurstAt(window, limit, closed, n - 1);
    if n > 1 {
      BucketOfBursts(window, limit, n - 1, closed);
    }
  }

  lemma {:induction false} BurstsRun(window: int, limit: int, n: nat, closed: bool)
    requires window > 0 && 0 < n <= 2 * limit
    ensures AllowedIn(Bursts(window, limit, closed)[..n], window, limit, if closed then 0.0 else window as real / 2.0, closed)
         == if closed then n else n - 1
  {
    var ts := Bursts(window, limit, closed)[..n];
    var before := Bursts(window, limit, closed)[..n - 1];
    assert ts[..n - 1] == before;
    assert ts[n - 1] == BurstAt(window, limit, closed, n - 1);
    BucketOfBursts(window, limit, n, closed);
    if n == 1 {
      assert before == [];
    } else {
      BurstsRun(window, limit, n - 1, closed);
    }
  }

  // Both bounds are reached, for every limit and window.
  lemma BoundIsReached(window: int, limit: int, closed: bool)
    requires window > 0 && limit > 0
    ensures Ordered(Bursts(window, limit, closed))
    ensures AllowedIn(Bursts(window, limit, closed), window, limit, if closed then 0.0 else window as real / 2.0, closed)
         == Most(limit, closed)
  {
    BurstsRun(window, limit, 2 * limit, closed);
    assert Bursts(window, limit, closed)[..2 * limit] == Bursts(window, limit, closed);
  }

  // An empty window limits nothing: any number of hits at one instant pass.
  lemma {:induction false} EmptyWindowLimitsNothing(limit: int, n: nat)
    requires limit > 0
    ensures AllowedIn(seq(n, _ => 0.0), 0, limit, 0.0, true) == n
    ensures n > 0 ==> BucketAfter(seq(n, _ => 0.0), 0) == Some(Bucket(1, 0.0))
  {
    if n > 0 {
      EmptyWindowLimitsNothing(limit, n - 1);
      assert seq(n, _ => 0.0)[..n - 1] == seq(n - 1, _ => 0.0);
    }
  }

  // ------------------------------------------------------------------- resets

  // The next hit of a key after its reset opens a new window.
  lemma HitAfterReset(p: Policy, trace: seq<Event>, others: seq<Event>, key: string, at: real)
    requires forall i :: 0 <= i < |others| ==> others[i].key != key
    ensures MemoryAnswer(p, trace + [Reset(key)] + others + [Hit(key, at)])
         == RateLimitResult(p.limit(key) >= 1, p.limit(key), Max(p.limit(key) - 1, 0), RealMax(p.window(key) as real, 0.0))
  {
    assert (trace + [Reset(key)])[..|trace|] == trace;
    OtherKeysDoNotDelay(trace + [Reset(key)], others, key);
    NextAnswer(p, trace + [Reset(key)] + others, Hit(key, at));
  }

  // ---------------------------------------------------- waiting after a denial

  lemma {:induction false} OtherKeysDoNotDelay(trace: seq<Event>, others: seq<Event>, key: string)
    requires forall i :: 0 <= i < |others| ==> others[i].key != key
    ensures TimesOf(trace + others, key) == TimesOf(trace, key)
  {
    if others == [] {
      assert trace + others == trace;
    } else {
      var n := |others| - 1;
      OtherKeysDoNotDelay(trace, others[..n], key);
      assert (trace + others)[..|trace| + n] == trace + others[..n];
    }
  }

  // The last hit of `trace` was denied; `others` are events of other keys.
  ghost predicate DeniedAndNext(p: Policy, trace: seq<Event>, others: seq<Event>) {
    && EndsInHit(trace)
    && var h := trace[|trace| - 1];
    && !MemoryAnswer(p, trace).allowed && p.limit(h.key) >= 1
    && Ordered(TimesOf(trace, h.key))
    && (forall i :: 0 <= i < |others| ==> others[i].key != h.key)
  }

  // A denied caller that is next to hit its key is allowed after a wait of d
  // seconds exactly when d is at least the advertised `reset_after_seconds`.
  lemma DeniedCallerWaits(p: Policy, trace: seq<Event>, others: seq<Event>, h: Event, d: real)
    requires DeniedAndNext(p, trace, others) && h == trace[|trace| - 1] && d >= 0.0
    ensures MemoryAnswer(p, trace + others + [Hit(h.key, h.at + d)]).allowed
       <==> d >= MemoryAnswer(p, trace).resetAfter
  {
    var ts := TimesOf(trace, h.key);
    LastBucket(p, trace);
    DeniedIsInWindow(ts, p.window(h.key));
    OtherKeysDoNotDelay(trace, others, h.key);
    NextAnswer(p, trace + others, Hit(h.key, h.at + d));
    WaitOnBucket(BucketAfter(ts, p.window(h.key)).value, h.at, d, p.limit(h.key), p.window(h.key));
  }

  lemma WaitOnBucket(b: Bucket, at: real, d: real, limit: int, window: int)
    requires 1 <= limit < b.count && d >= 0.0
    requires b.start <= at < b.start + window as real
    ensures Decide(Bump(Some(b), at + d, window), at + d, limit, window).allowed
       <==> d >= Decide(b, at, limit, window).resetAfter
  {
  }

  lemma LastBucket(p: Policy, trace: seq<Event>)
    requires EndsInHit(trace)
    ensures var h := trace[|trace| - 1];
            var b := BucketAfter(TimesOf(trace, h.key), p.window(h.key));
            && b.Some? && TimesOf(trace, h.key) != []
            && TimesOf(trace, h.key)[|TimesOf(trace, h.key)| - 1] == h.at
            && MemoryAnswer(p, trace) == Decide(b.value, h.at, p.limit(h.key), p.window(h.key))
  {
    KeysAreIndependent(p, trace, trace[|trace| - 1].key);
  }

  lemma NextAnswer(p: Policy, trace: seq<Event>, h: Event)
    requires h.Hit?
    ensures MemoryAnswer(p, trace + [h])
         == Decide(Bump(BucketAfter(TimesOf(trace, h.key), p.window(h.key)), h.at, p.window(h.key)),
                   h.at, p.limit(h.key), p.window(h.key))
  {
    assert (trace + [h])[..|trace|] == trace;
    KeysAreIndependent(p, trace, h.key);
  }

  lemma DeniedIsInWindow(ts: seq<real>, window: int)
    requires ts != [] && Ordered(ts)
    ensures var b := BucketAfter(ts, window).value;
            b.start <= ts[|ts| - 1] && (b.count > 1 ==> ts[|ts| - 1] < b.start + window as real)
  {
    var o := CounterIsRank(ts, window);
  }

  // The Retry-After header carries whole seconds, rounded down but at least 1.
  function RetryAfter(r: RateLimitResult): (seconds: int)
    ensures seconds >= 1
  {
    Max(r.resetAfter.Floor, 1)
  }

  // A caller that obeys the header is let in exactly when rounding down lost
  // nothing: the reset delay is at most one second or a whole number of them.
  lemma RetryAfterSuffices(p: Policy, trace: seq<Event>, others: seq<Event>, h: Event, r: RateLimitResult)
    requires DeniedAndNext(p, trace, others) && h == trace[|trace| - 1] && r == MemoryAnswer(p, trace)
    ensures MemoryAnswer(p, trace + others + [Hit(h.key, h.at + RetryAfter(r) as real)]).allowed
       <==> r.resetAfter <= 1.0 || r.resetAfter == r.resetAfter.Floor as real
  {
    DeniedCallerWaits(p, trace, others, h, RetryAfter(r) as real);
  }

  // One hit per minute, and hits at 0 and half a second: the second is told to
  // come back after 59 seconds, and is denied again then.
  lemma RetryAfterCanBeTooShort()
    ensures var p := Policy(_ => 1, _ => 60);
            var trace := [Hit("k", 0.0), Hit("k", 0.5)];
            && !MemoryAnswer(p, trace).allowed && MemoryAnswer(p, trace).resetAfter == 59.5
            && RetryAfter(MemoryAnswer(p, trace)) == 59
            && !MemoryAnswer(p, trace + [Hit("k", 0.5 + 59.0)]).allowed
  {
    var p := Policy(_ => 1, _ => 60);
    var first := [Hit("k", 0.0)];
    var trace := [Hit("k", 0.0), Hit("k", 0.5)];
    assert first[..0] == [] && trace[..1] == first;
    assert MemoryAfter(p, first) == map["k" := Bucket(1, 0.0)];
    assert MemoryAfter(p, trace) == map["k" := Bucket(2, 0.0)];
    assert (trace + [Hit("k", 0.5 + 59.0)])[..2] == trace;
  }

  // ----------------------------------------------------------- Redis backend

  // A Redis string counter; `deadline` is set by PEXPIRE, in milliseconds.
  datatype Counter = Counter(value: int, deadline: Option<int>)

  // A key is gone from its deadline on.
  predicate Live(data: map<string, Counter>, key: string, now: int) {
    key in data && (data[key].deadline.None? || now < data[key].deadline.value)
  }

  // The part of a Redis server that the limiter's script uses.
  class RedisServer {
    var data: map<string, Counter>

    constructor ()
      ensures data == map[]
    {
      data := map[];
    }

    method Incr(key: string, now: int) returns (value: int)
      modifies this
      ensures value == if old(Live(data, key, now)) then old(data[key].value) + 1 else 1
      ensures data == old(data)[key := Counter(value, if old(Live(data, key, now)) then old(data[key].deadline) else None)]
    {
      if Live(data, key, now) {
        value := data[key].value + 1;
        data := data[key := data[key].(value := value)];
      } else {
        value := 1;
        data := data[key := Counter(1, None)];
      }
    }

    // A timeout that is not positive deletes the key at once.
    method PExpire(key: string, timeout: int, now: int)
      requires key in data
      modifies this
      ensures data == if timeout <= 0 then old(data) - {key}
                      else old(data)[key := old(data[key]).(deadline := Some(now + timeout))]
    {
      if timeout <= 0 {
        data := data - {key};
      } else {
        data := data[key := data[key].(deadline := Some(now + timeout))];
      }
    }

    function PTtl(key: string, now: int): int
      reads this
    {
      if !Live(data, key, now) then -2
      else if data[key].deadline.None? then -1
      else data[key].deadline.value - now
    }
  }

  // The script as one function of what it finds under its key: the new count,
  // the new content (None when the key is gone) and the time to live.
  function Script(found: Option<Counter>, now: int, timeout: int): (int, Option<Counter>, int) {
    var live := found.Some? && (found.value.deadline.None? || now < found.value.deadline.value);
    if live then
      var value := found.value.value + 1;
      var deadline := if value == 1 then Some(now + timeout) else found.value.deadline;
      if value == 1 && timeout <= 0 then (value, None, -2)
      else (value, Some(Counter(value, deadline)),
            if deadline.None? then -1 else if now < deadline.value then deadline.value - now else -2)
    else if timeout <= 0 then (1, None, -2)
    else (1, Some(Counter(1, Some(now + timeout))), timeout)
  }

  function DecideRedis(value: int, ttl: int, limit: int, window: int): RateLimitResult {
    var ttlMs := if ttl > 0 then ttl else window * 1000;
    RateLimitResult(value <= limit, limit, Max(limit - value, 0), ttlMs as real / 1000.0)
  }

  function Put(m: map<string, Counter>, key: string, c: Option<Counter>): map<string, Counter> {
    if c.Some? then m[key := c.value] else m - {key}
  }

  class RedisLimiter {
    const redis: RedisServer

    constructor (redis: RedisServer)
      ensures this.redis == redis
    {
      this.redis := redis;
    }

    method Hit(key: string, now: int, limit: int, window: int) returns (r: RateLimitResult)
      modifies redis
      ensures var (value, left, ttl) := Script(Find(old(redis.data), key), now, window * 1000);
              && redis.data == Put(old(redis.data), key, left)
              && r == DecideRedis(value, ttl, limit, window)
    {
      var current := redis.Incr(key, now);
      if current == 1 {
        redis.PExpire(key, window * 1000, now);
      }
      var ttl := redis.PTtl(key, now);
      var ttlMs := if ttl > 0 then ttl else window * 1000;
      r := RateLimitResult(current <= limit, limit, Max(limit - current, 0), ttlMs as real / 1000.0);
    }

    method Reset(key: string)
      modifies redis
      ensures redis.data == old(redis.data) - {key}
    {
      redis.data := redis.data - {key};
    }
  }

  // A hit stamped with a millisecond clock, as Redis has one, or a reset.
  datatype MsEvent = MsHit(key: string, at: int) | MsReset(key: string)

  function RedisAfter(p: Policy, trace: seq<MsEvent>): map<string, Counter> {
    if trace == [] then map[]
    else
      var h := trace[|trace| - 1];
      var before := RedisAfter(p, trace[..|trace| - 1]);
      match h
      case MsHit(key, at) => Put(before, key, Script(Find(before, key), at, p.window(key) * 1000).1)
      case MsReset(key) => before - {key}
  }

  function RedisAnswer(p: Policy, trace: seq<MsEvent>): RateLimitResult
    requires trace != [] && trace[|trace| - 1].MsHit?
  {
    var h := trace[|trace| - 1];
    var before := RedisAfter(p, trace[..|trace| - 1]);
    var (value, _, ttl) := Script(Find(before, h.key), h.at, p.window(h.key) * 1000);
    DecideRedis(value, ttl, p.limit(h.key), p.window(h.key))
  }

  function EventInSeconds(e: MsEvent): Event {
    match e
    case MsHit(key, at) => Hit(key, at as real / 1000.0)
    case MsReset(key) => Reset(key)
  }

  function InSeconds(trace: seq<MsEvent>): (events: seq<Event>)
    ensures |events| == |trace|
  {
    seq(|trace|, i requires 0 <= i < |trace| => EventInSeconds(trace[i]))
  }

  // The hits are in order, and none is later than `now`.
  ghost predicate OrderedMs(trace: seq<MsEvent>, now: int) {
    && (forall i, j :: 0 <= i < j < |trace| && trace[i].MsHit? && trace[j].MsHit? ==> trace[i].at <= trace[j].at)
    && (forall i :: 0 <= i < |trace| && trace[i].MsHit? ==> trace[i].at <= now)
  }

  // What the two stores hold for one key while the clock is not behind `now`.
  ghost predicate SameWindow(b: Option<Bucket>, c: Option<Counter>, now: int, window: int) {
    && (b.Some? ==> b.value.start <= now as real / 1000.0)
    && (if b.None? || window <= 0 then c.None?
        else
          && c.Some? && c.value.deadline.Some?
          && c.value.value == b.value.count >= 1
          && b.value.start == (c.value.deadline.value - window * 1000) as real / 1000.0)
  }

  lemma {:induction false} StoresAgree(p: Policy, trace: seq<MsEvent>, key: string, now: int)
    requires OrderedMs(trace, now)
    ensures SameWindow(Find(MemoryAfter(p, InSeconds(trace)), key), Find(RedisAfter(p, trace), key), now, p.window(key))
  {
    if trace != [] {
      var n := |trace| - 1;
      assert InSeconds(trace)[..n] == InSeconds(trace[..n]);
      if trace[n].MsHit? && trace[n].key == key {
        StoresAgree(p, trace[..n], key, trace[n].at);
        OneHitAgrees(Find(MemoryAfter(p, InSeconds(trace[..n])), key), Find(RedisAfter(p, trace[..n]), key),
                     trace[n].at, now, p.limit(key), p.window(key));
      } else {
        StoresAgree(p, trace[..n], key, now);
      }
    }
  }

  lemma OneHitAgrees(b: Option<Bucket>, c: Option<Counter>, at: int, now: int, limit: int, window: int)
    requires SameWindow(b, c, at, window) && at <= now
    ensures var b' := Bump(b, at as real / 1000.0, window);
            var (value, c', ttl) := Script(c, at, window * 1000);
            var m := Decide(b', at as real / 1000.0, limit, window);
            var r := DecideRedis(value, ttl, limit, window);
            && SameWindow(Some(b'), c', now, window)
            && m.allowed == r.allowed && m.remaining == r.remaining
            && (m.resetAfter == r.resetAfter <==> window >= 0)
  {
    if b.Some? && window > 0 {
      var start := c.value.deadline.value - window * 1000;
      assert at as real / 1000.0 - start as real / 1000.0 == (at - start) as real / 1000.0;
    }
  }

  // The backends are interchangeable: on every trace of hits and resets, with
  // any constant limit and window per key, they give the same verdict and the
  // same remaining budget at the last hit, hence at every hit. Their reset
  // delays differ only for a negative window.
  lemma BackendsAgree(p: Policy, trace: seq<MsEvent>)
    requires trace != [] && trace[|trace| - 1].MsHit? && OrderedMs(trace, trace[|trace| - 1].at)
    ensures var m := MemoryAnswer(p, InSeconds(trace));
            var r := RedisAnswer(p, trace);
            && m.allowed == r.allowed && m.remaining == r.remaining && m.limit == r.limit
            && (m.resetAfter == r.resetAfter <==> p.window(trace[|trace| - 1].key) >= 0)
  {
    var n := |trace| - 1;
    var h := trace[n];
    assert InSeconds(trace)[..n] == InSeconds(trace[..n]);
    StoresAgree(p, trace[..n], h.key, h.at);
    OneHitAgrees(Find(MemoryAfter(p, InSeconds(trace[..n])), h.key), Find(RedisAfter(p, trace[..n]), h.key),
                 h.at, h.at, p.limit(h.key), p.window(h.key));
  }
}
