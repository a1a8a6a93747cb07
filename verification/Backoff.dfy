/**
 `Exponential.Delay` over the reals: rounding and overflow of floating-point numbers are not
 modelled.  Durations are in nanoseconds; the random draw is the parameter u.
 */
module Backoff {
  import opened JobModel

  const DEFAULT_BASE: int := 100_000_000
  const DEFAULT_FACTOR: real := 2.0
  const MAX_DURATION: int := 0x7fff_ffff_ffff_ffff

  function Pow(x: real, n: nat): real {
    if n == 0 then 1.0 else x * Pow(x, n - 1)
  }

  function Base(p: RetryPolicy): (b: real)
    ensures b >= 1.0
  {
    (if p.base <= 0 then DEFAULT_BASE else p.base) as real
  }

  function Factor(p: RetryPolicy): (f: real)
    ensures f > 1.0
  {
    if p.factor <= 1.0 then DEFAULT_FACTOR else p.factor
  }

  /** At most max, if that is positive. */
  function Capped(d: real, max: int): real {
    if max > 0 && d > max as real then max as real else d
  }

  /** Exponential growth from base up to the cap, if there is one. */
  function Grown(base: real, factor: real, max: int, attempt: nat): real {
    Capped(base * Pow(factor, attempt), max)
  }

  function Growth(p: RetryPolicy, attempt: nat): real {
    Grown(Base(p), Factor(p), p.max, attempt)
  }

  function Jitter(p: RetryPolicy): (j: real)
    ensures 0.0 <= j <= 1.0
  {
    if p.jitter <= 0.0 then 0.0 else if p.jitter > 1.0 then 1.0 else p.jitter
  }

  /** The shortest delay that jitter j can make of d. */
  function Shortest(d: real, j: real): real {
    d * (1.0 - j)
  }

  function Shortened(d: real, j: real, u: real): real {
    Shortest(d, j) + u * d * j
  }

  function Jittered(p: RetryPolicy, d: real, u: real): real {
    if p.jitter > 0.0 then Shortened(d, Jitter(p), u) else d
  }

  /** Truncation to whole nanoseconds, saturating at the largest duration. */
  function ToDuration(d: real): int {
    if d >= (MAX_DURATION + 1) as real then MAX_DURATION else d.Floor
  }

  function Delay(p: RetryPolicy, attempt: int, u: real): int {
    ToDuration(Jittered(p, Growth(p, if attempt < 0 then 0 else attempt), u))
  }

  lemma NonNegative(x: real, y: real)
    requires x >= 0.0 && y >= 0.0
    ensures x * y >= 0.0
  {
  }

  /** The growth without a cap, step by step. */
  function Steps(b: real, f: real, n: nat): real {
    if n == 0 then b else f * Steps(b, f, n - 1)
  }

  lemma Reorder(b: real, f: real, q: real)
    ensures b * (f * q) == f * (b * q)
  {
  }

  lemma {:induction false} StepsArePower(b: real, f: real, n: nat)
    ensures b * Pow(f, n) == Steps(b, f, n)
  {
    if n > 0 {
      StepsArePower(b, f, n - 1);
      Reorder(b, f, Pow(f, n - 1));
    }
  }

  lemma {:induction false} StepsPositive(b: real, f: real, n: nat)
    requires b >= 1.0 && f > 1.0
    ensures Steps(b, f, n) >= 1.0
  {
    if n > 0 {
      StepsPositive(b, f, n - 1);
      NonNegative(f - 1.0, Steps(b, f, n - 1));
    }
  }

  /** Growing past the cap stays at the cap. */
  lemma CapStep(f: real, g: real, max: int)
    requires f > 1.0 && g >= 1.0
    ensures Capped(f * g, max) == Capped(f * Capped(g, max), max)
    ensures 1.0 <= Capped(g, max) <= Capped(f * g, max)
  {
    NonNegative(f - 1.0, g);
    if max > 0 {
      NonNegative(f - 1.0, max as real);
    }
  }

  lemma GrownIsCapped(b: real, f: real, max: int, n: nat)
    ensures Grown(b, f, max, n) == Capped(Steps(b, f, n), max)
  {
    StepsArePower(b, f, n);
  }

  lemma CappedNext(f: real, g: real, g': real, x: real, x': real, max: int)
    requires f > 1.0 && g >= 1.0 && g' == f * g && x == Capped(g, max) && x' == Capped(g', max)
    ensures x' == Capped(f * x, max) && 1.0 <= x <= x'
  {
    CapStep(f, g, max);
  }

  lemma GrownNext(b: real, f: real, max: int, n: nat)
    requires b >= 1.0 && f > 1.0
    ensures Grown(b, f, max, n + 1) == Capped(f * Grown(b, f, max, n), max)
    ensures 1.0 <= Grown(b, f, max, n) <= Grown(b, f, max, n + 1)
  {
    GrownIsCapped(b, f, max, n);
    GrownIsCapped(b, f, max, n + 1);
    StepsPositive(b, f, n);
    CappedNext(f, Steps(b, f, n), Steps(b, f, n + 1), Grown(b, f, max, n), Grown(b, f, max, n + 1), max);
  }

  lemma {:induction false} GrownMonotone(b: real, f: real, max: int, n: nat, m: nat)
    requires b >= 1.0 && f > 1.0 && n <= m
    ensures Grown(b, f, max, n) <= Grown(b, f, max, m)
    decreases m - n
  {
    if n < m {
      GrownMonotone(b, f, max, n, m - 1);
      GrownNext(b, f, max, m - 1);
    }
  }

  /** One more attempt multiplies the delay by the factor, by default 2, up to the cap if there is one. */
  lemma GrowthRecurrence(p: RetryPolicy, n: nat)
    ensures var d := (if p.factor > 1.0 then p.factor else 2.0) * Growth(p, n);
      Growth(p, n + 1) == if p.max > 0 && d > p.max as real then p.max as real else d
  {
    GrownNext(Base(p), Factor(p), p.max, n);
  }

  /** Delays never shrink from one attempt to a later one. */
  lemma GrowthMonotone(p: RetryPolicy, n: nat, m: nat)
    requires n <= m
    ensures 1.0 <= Growth(p, n) <= Growth(p, m)
  {
    GrownNext(Base(p), Factor(p), p.max, n);
    GrownMonotone(Base(p), Factor(p), p.max, n, m);
  }

  lemma JitterRange(d: real, j: real, u: real)
    requires d >= 0.0 && 0.0 <= j <= 1.0 && 0.0 <= u < 1.0
    ensures 0.0 <= Shortest(d, j) <= Shortened(d, j, u) <= d
    ensures Shortest(d, j) <= d
  {
    NonNegative(d, j);
    NonNegative(d, 1.0 - j);
    NonNegative(u, d * j);
    NonNegative(1.0 - u, d * j);
  }

  /** Jitter only shortens a delay, and by at most its fraction of it. */
  lemma JitterBounds(p: RetryPolicy, d: real, u: real)
    requires d >= 0.0 && 0.0 <= u < 1.0
    ensures 0.0 <= Shortest(d, Jitter(p)) <= Jittered(p, d, u) <= d
  {
    var j := Jitter(p);
    JitterRange(d, j, u);
    assert Jittered(p, d, u) == if p.jitter > 0.0 then Shortened(d, j, u) else d;
  }

  lemma DurationMonotone(a: real, b: real)
    requires a <= b
    ensures ToDuration(a) <= ToDuration(b)
  {
  }

  /** Without jitter the delays of successive attempts are non-decreasing. */
  lemma DelayMonotone(p: RetryPolicy, n: int, m: int, u: real, v: real)
    requires n <= m && p.jitter <= 0.0
    ensures Delay(p, n, u) <= Delay(p, m, v)
  {
    var a, b := if n < 0 then 0 else n, if m < 0 then 0 else m;
    GrowthMonotone(p, a, b);
    DurationMonotone(Growth(p, a), Growth(p, b));
  }

  /** The first delay is the base, by default 100 ms, up to the cap if there is one. */
  lemma FirstDelay(p: RetryPolicy, u: real)
    requires p.jitter <= 0.0
    ensures var base := if p.base > 0 then p.base else 100_000_000;
      var d := if 0 < p.max < base then p.max else base;
      Delay(p, 0, u) == if d > MAX_DURATION then MAX_DURATION else d
  {
    var d := Growth(p, 0);
    assert Delay(p, 0, u) == ToDuration(d);
  }

  /** A delay is the growth in whole nanoseconds, shortened by at most the jitter's fraction of it. */
  lemma DelayNearGrowth(p: RetryPolicy, n: nat, u: real)
    requires 0.0 <= u < 1.0 && Growth(p, n) <= MAX_DURATION as real
    ensures var d := Growth(p, n);
      && Delay(p, n, u) as real <= d
      && (p.jitter <= 0.0 ==> d < Delay(p, n, u) as real + 1.0)
      && (0.0 < p.jitter <= 1.0 ==> (1.0 - p.jitter) * d < Delay(p, n, u) as real + 1.0)
  {
    var d := Growth(p, n);
    GrowthMonotone(p, n, n);
    JitterBounds(p, d, u);
    FloorNear(Jittered(p, d, u));
    assert 0.0 < p.jitter <= 1.0 ==> (1.0 - p.jitter) * d == Shortest(d, Jitter(p));
  }

  lemma FloorNear(r: real)
    requires 0.0 <= r <= MAX_DURATION as real
    ensures ToDuration(r) as real <= r < ToDuration(r) as real + 1.0
  {
  }

  /** A delay is never negative, never above the cap, and fits a 64-bit duration. */
  lemma DelayBounds(p: RetryPolicy, n: int, u: real)
    requires 0.0 <= u < 1.0
    ensures 0 <= Delay(p, n, u) <= MAX_DURATION
    ensures p.max > 0 ==> Delay(p, n, u) <= p.max
  {
    var a := if n < 0 then 0 else n;
    var d := Growth(p, a);
    GrowthMonotone(p, a, a);
    JitterBounds(p, d, u);
    FloorBounds(Jittered(p, d, u), p.max);
  }

  lemma FloorBounds(r: real, max: int)
    requires 0.0 <= r && (max > 0 ==> r <= max as real)
    ensures 0 <= ToDuration(r) <= MAX_DURATION && (max > 0 ==> ToDuration(r) <= max)
  {
    assert r.Floor as real <= r;
  }

  /** The backoff can give this delay, for some draw. */
  ghost predicate CanDelay(p: RetryPolicy, attempt: int, delay: int) {
    exists u :: 0.0 <= u < 1.0 && Delay(p, attempt, u) == delay
  }

  /** `Delay` as a duration that is not negative. */
  function DrawnDelay(p: RetryPolicy, attempt: int, u: real): (delay: nat)
    requires 0.0 <= u < 1.0
    ensures CanDelay(p, attempt, delay)
  {
    DelayBounds(p, attempt, u);
    Delay(p, attempt, u)
  }
}
