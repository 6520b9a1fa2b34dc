// Retry delays of the publishing engine: capped doubling with 20 % jitter.
// Delays are exact reals, in seconds.
module Backoff {
  import opened Wrappers

  function Pow2(n: nat): (p: int)
    ensures p >= 1
  {
    if n == 0 then 1 else 2 * Pow2(n - 1)
  }

  function Doubled(base: real, n: nat): real {
    base * Pow2(n) as real
  }

  // compute_backoff
  function Delay(attempt: int, base: real, cap: real): real {
    RealMin(Doubled(base, Max(attempt - 1, 0)), cap)
  }

  ghost predicate Draw(u: real) {
    0.0 <= u < 1.0
  }

  // _backoff_seconds; `u` is the random draw, in [0, 1).
  function Jittered(attempt: int, base: real, cap: real, u: real): real {
    Delay(attempt, base, cap) * (0.8 + u * 0.4)
  }

  lemma {:induction false} Pow2Monotone(m: nat, n: nat)
    requires m <= n
    ensures Pow2(m) <= Pow2(n)
  {
    if m < n {
      Pow2Monotone(m, n - 1);
    }
  }

  lemma {:induction false} DoubledMonotone(base: real, m: nat, n: nat)
    requires m <= n && base >= 0.0
    ensures Doubled(base, m) <= Doubled(base, n)
  {
    Pow2Monotone(m, n);
    ProductMonotone(base, Pow2(m) as real, Pow2(n) as real);
  }

  lemma DoubledTwice(base: real, n: nat)
    ensures Doubled(base, n + 1) == 2.0 * Doubled(base, n)
  {
    TwiceInside(base, Pow2(n) as real);
  }

  lemma ProductMonotone(a: real, x: real, y: real)
    requires a >= 0.0 && x <= y
    ensures a * x <= a * y
  {
    assert a * y - a * x == a * (y - x);
  }

  // The base delay is monotone and never exceeds the cap.
  lemma DelayMonotone(m: int, n: int, base: real, cap: real)
    requires m <= n && base >= 0.0
    ensures Delay(m, base, cap) <= Delay(n, base, cap) <= cap
  {
    DoubledMonotone(base, Max(m - 1, 0), Max(n - 1, 0));
  }

  // Until the cap is reached every retry waits twice as long as the one before.
  lemma DelayDoubles(n: int, base: real, cap: real)
    requires n >= 1 && base >= 0.0 && cap >= 0.0
    ensures Delay(n + 1, base, cap) == RealMin(2.0 * Delay(n, base, cap), cap)
  {
    DoubledTwice(base, n - 1);
  }

  lemma TwiceInside(a: real, x: real)
    ensures a * (2.0 * x) == 2.0 * (a * x)
  {
  }

  lemma DelayPositive(n: int, base: real, cap: real)
    requires base > 0.0 && cap > 0.0
    ensures Delay(n, base, cap) > 0.0
  {
    DoubledMonotone(base, 0, Max(n - 1, 0));
    assert Doubled(base, 0) == base;
  }

  lemma FirstDelay(base: real, cap: real)
    requires base <= cap
    ensures Delay(1, base, cap) == base
  {
    assert Doubled(base, 0) == base;
  }

  // Jitter keeps a delay within 20 % of its base.
  lemma JitterBand(n: int, base: real, cap: real, u: real)
    requires base > 0.0 && cap > 0.0 && Draw(u)
    ensures 0.8 * Delay(n, base, cap) <= Jittered(n, base, cap, u) < 1.2 * Delay(n, base, cap)
  {
    DelayPositive(n, base, cap);
    ScaleBetween(Delay(n, base, cap), 0.8, 0.8 + u * 0.4, 1.2);
  }

  lemma ScaleBetween(d: real, lo: real, x: real, hi: real)
    requires d > 0.0 && lo <= x < hi
    ensures lo * d <= d * x < hi * d
  {
    assert d * x - lo * d == d * (x - lo);
    assert hi * d - d * x == d * (hi - x);
  }

  ghost predicate AlwaysLonger(n: int, base: real, cap: real) {
    forall u: real, v: real :: Draw(u) && Draw(v) ==>
      Jittered(n, base, cap, u) < Jittered(n + 1, base, cap, v)
  }

  // The next retry waits strictly longer whatever the two draws are exactly
  // when its base delay grew by half or more; an uncapped delay doubles.
  lemma LongerIffGrewByHalf(n: int, base: real, cap: real)
    requires base > 0.0 && cap > 0.0
    ensures AlwaysLonger(n, base, cap) <==> 2.0 * Delay(n + 1, base, cap) >= 3.0 * Delay(n, base, cap)
    ensures n >= 1 && Delay(n + 1, base, cap) < cap ==> AlwaysLonger(n, base, cap)
  {
    var d, e := Delay(n, base, cap), Delay(n + 1, base, cap);
    DelayPositive(n, base, cap);
    DelayPositive(n + 1, base, cap);
    if 2.0 * e >= 3.0 * d {
      forall u: real, v: real | Draw(u) && Draw(v)
        ensures Jittered(n, base, cap, u) < Jittered(n + 1, base, cap, v)
      {
        JitterBand(n, base, cap, u);
        JitterBand(n + 1, base, cap, v);
      }
    } else {
      // A large draw now and the smallest one next.
      var q := (0.8 * e - 0.8 * d) / (0.4 * d);
      DrawAsLong(d, e, q);
      assert Draw(RealMax(0.0, q)) && Draw(0.0);
    }
    if n >= 1 {
      DelayDoubles(n, base, cap);
    }
  }

  lemma DrawAsLong(d: real, e: real, q: real)
    requires d > 0.0 && e > 0.0 && 2.0 * e < 3.0 * d
    requires q == (0.8 * e - 0.8 * d) / (0.4 * d)
    ensures RealMax(0.0, q) < 1.0
    ensures d * (0.8 + RealMax(0.0, q) * 0.4) >= e * 0.8
  {
    var f := 0.4 * d;
    assert q * f == 0.8 * e - 0.8 * d;
    if q >= 1.0 {
      ProductMonotone(f, 1.0, q);
    }
    ProductMonotone(f, q, RealMax(0.0, q));
    assert d * (0.8 + RealMax(0.0, q) * 0.4) == 0.8 * d + f * RealMax(0.0, q);
  }

  // Sum of the delays scheduled after failures 1, 2, ..., |draws|.
  function TotalBackoff(base: real, cap: real, draws: seq<real>): real {
    if draws == [] then 0.0
    else TotalBackoff(base, cap, draws[..|draws| - 1]) + Jittered(|draws|, base, cap, draws[|draws| - 1])
  }

  function Times(cap: real, n: nat): real {
    cap * n as real
  }

  lemma OnceMore(cap: real, n: nat)
    ensures Times(cap, n + 1) == Times(cap, n) + cap && Times(cap, 0) == 0.0
  {
    assert cap * (n as real + 1.0) == cap * n as real + cap;
  }

  lemma NextDelay(base: real, cap: real, n: nat, u: real)
    requires base > 0.0 && cap > 0.0 && Draw(u) && n >= 1
    ensures Jittered(n, base, cap, u) < 1.2 * Doubled(base, n - 1)
    ensures Jittered(n, base, cap, u) < 1.2 * cap
  {
    JitterBand(n, base, cap, u);
  }

  // All the waiting a job can be made to do before it is DEAD: `draws` holds
  // one draw for each of its max_attempts - 1 retries.
  lemma {:induction false} TotalBackoffBounded(base: real, cap: real, draws: seq<real>)
    requires base > 0.0 && cap > 0.0
    requires forall i :: 0 <= i < |draws| ==> Draw(draws[i])
    ensures draws == [] ==> TotalBackoff(base, cap, draws) == 0.0
    ensures draws != [] ==> TotalBackoff(base, cap, draws) < 1.2 * (Doubled(base, |draws|) - base)
    ensures draws != [] ==> TotalBackoff(base, cap, draws) < 1.2 * Times(cap, |draws|)
  {
    var n := |draws|;
    if n > 0 {
      TotalBackoffBounded(base, cap, draws[..n - 1]);
      NextDelay(base, cap, n, draws[n - 1]);
      DoubledTwice(base, n - 1);
      OnceMore(cap, n - 1);
      assert n == 1 ==> Doubled(base, n - 1) == base;
    }
  }
}
