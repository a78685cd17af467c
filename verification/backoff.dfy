/** Exponential backoff with jitter: each delay is the previous one, moved by a
    random amount within a factor of itself, times a multiplier. */
module Backoff {

  type Positive = n: int | n > 0 witness 1

  /** The random factor, a fraction `num / den` (the source keeps a float32). */
  datatype Factor = Factor(num: int, den: Positive)

  const DefaultInitialBackoffMs := 1000
  const DefaultBackoffMultiplier := 2
  /** 0.2 */
  const DefaultRandomFactor := Factor(1, 5)
  /** 0, selected by the sentinel -1: no jitter at all. */
  const NoRandomFactor := Factor(0, 1)

  /** The conversion of the quotient `a / b` to an int: truncation toward zero. */
  function TruncDiv(a: int, b: Positive): (q: int)
    ensures 0 <= a ==> 0 <= q && q * b <= a < q * b + b
    ensures a < 0 ==> q <= 0 && a <= q * b < a + b
  {
    if a >= 0 then a / b else -((-a) / b)
  }

  /** The jitter range `[prev * (1 - f), prev * (1 + f))`, each end truncated. */
  function Bounds(prev: int, f: Factor): (int, int)
  {
    (TruncDiv(prev * (f.den - f.num), f.den), TruncDiv(prev * (f.den + f.num), f.den))
  }

  /** A base delay a call may draw: the low end when the range is empty,
      otherwise any value in `[lo, hi)`. */
  predicate ValidBase(prev: int, f: Factor, base: int)
  {
    var (lo, hi) := Bounds(prev, f);
    if hi > lo then lo <= base < hi else base == lo
  }

  /** `delay` is a value NextBackoffMs may return when the last delay was `prev`
      (0 meaning none since creation or the last reset). */
  ghost predicate IsNextDelay(initial: int, multiplier: int, f: Factor, prev: int, delay: int)
  {
    if prev == 0 then delay == initial
    else exists base :: ValidBase(prev, f, base) && delay == base * multiplier
  }

  /** `delays` is a run of successive NextBackoffMs results starting after `prev`. */
  ghost predicate IsDelayRun(initial: int, multiplier: int, f: Factor, prev: int, delays: seq<int>)
  {
    if delays == [] then true
    else
      var n := |delays| - 1;
      IsDelayRun(initial, multiplier, f, prev, delays[..n]) &&
      IsNextDelay(initial, multiplier, f, if n == 0 then prev else delays[n - 1], delays[n])
  }

  function Pow(b: int, e: nat): int
  {
    if e == 0 then 1 else b * Pow(b, e - 1)
  }

  // ---------------------------------------------------------------------------
  // The object

  class BackOffConfig {
    var initialBackoffMs: int
    var backoffMultiplier: int
    var backoffRandomFactor: Factor

    constructor (initialBackoffMs: int, backoffMultiplier: int, backoffRandomFactor: Factor)
      ensures this.initialBackoffMs == initialBackoffMs
      ensures this.backoffMultiplier == backoffMultiplier
      ensures this.backoffRandomFactor == backoffRandomFactor
    {
      this.initialBackoffMs := initialBackoffMs;
      this.backoffMultiplier := backoffMultiplier;
      this.backoffRandomFactor := backoffRandomFactor;
    }
  }

  class Backoff {
    var previousBackoffMs: int
    const config: BackOffConfig

    /** NewBackoff: fills the defaults into the caller's configuration, in place.
        A zero field takes its default; a random factor of -1 becomes 0. */
    constructor (config: BackOffConfig)
      modifies config
      ensures this.config == config && previousBackoffMs == 0
      ensures config.backoffMultiplier ==
        if old(config.backoffMultiplier) == 0 then DefaultBackoffMultiplier else old(config.backoffMultiplier)
      ensures config.backoffRandomFactor ==
        if old(config.backoffRandomFactor.num) == 0 then DefaultRandomFactor
        else if old(config.backoffRandomFactor.num) + old(config.backoffRandomFactor.den) == 0 then NoRandomFactor
        else old(config.backoffRandomFactor)
      ensures config.initialBackoffMs ==
        if old(config.initialBackoffMs) == 0 then DefaultInitialBackoffMs else old(config.initialBackoffMs)
      ensures config.initialBackoffMs != 0 && config.backoffMultiplier != 0
    {
      if config.backoffMultiplier == 0 {
        config.backoffMultiplier := DefaultBackoffMultiplier;
      }
      if config.backoffRandomFactor.num == 0 {
        config.backoffRandomFactor := DefaultRandomFactor;
      } else if config.backoffRandomFactor.num + config.backoffRandomFactor.den == 0 {
        config.backoffRandomFactor := NoRandomFactor;
      }
      if config.initialBackoffMs == 0 {
        config.initialBackoffMs := DefaultInitialBackoffMs;
      }
      this.config := config;
      previousBackoffMs := 0;
    }

    /** The next delay in milliseconds; it becomes the previous delay. */
    method NextBackoffMs() returns (sleepMs: int)
      modifies this`previousBackoffMs
      ensures previousBackoffMs == sleepMs
      ensures IsNextDelay(config.initialBackoffMs, config.backoffMultiplier, config.backoffRandomFactor,
                          old(previousBackoffMs), sleepMs)
    {
      if previousBackoffMs == 0 {
        sleepMs := config.initialBackoffMs;
      } else {
        var (lo, hi) := Bounds(previousBackoffMs, config.backoffRandomFactor);
        var baseMs := lo;
        if hi > lo {
          var jitter :| 0 <= jitter < hi - lo;
          baseMs := lo + jitter;
        }
        sleepMs := baseMs * config.backoffMultiplier;
        assert ValidBase(previousBackoffMs, config.backoffRandomFactor, baseMs);
      }
      previousBackoffMs := sleepMs;
    }

    /** Advances the state exactly as NextBackoffMs does; the sleep itself is
        not part of this model. */
    method SleepBackoff()
      modifies this`previousBackoffMs
      ensures IsNextDelay(config.initialBackoffMs, config.backoffMultiplier, config.backoffRandomFactor,
                          old(previousBackoffMs), previousBackoffMs)
    {
      var _ := NextBackoffMs();
    }

    method ResetSleepBackoff()
      modifies this`previousBackoffMs
      ensures previousBackoffMs == 0
    {
      previousBackoffMs := 0;
    }
  }

  // ---------------------------------------------------------------------------
  // Properties

  lemma MulMonotone(a: int, b: int, c: int)
    requires a <= b && c >= 0
    ensures a * c <= b * c
  {
  }

  lemma ExactTruncDiv(p: int, d: Positive)
    ensures TruncDiv(p * d, d) == p
  {
    var q := TruncDiv(p * d, d);
    if q < p {
      MulMonotone(q + 1, p, d);
    } else if q > p {
      MulMonotone(p + 1, q, d);
    }
  }

  /** With a zero factor the range collapses onto the previous delay. */
  lemma ZeroFactorBounds(prev: int, f: Factor)
    requires f.num == 0
    ensures Bounds(prev, f) == (prev, prev)
  {
    ExactTruncDiv(prev, f.den);
  }

  /** Without jitter, a call after a delay `prev` returns exactly `prev * multiplier`. */
  lemma DeterministicStep(initial: int, multiplier: int, f: Factor, prev: int, delay: int)
    requires f.num == 0 && prev != 0
    ensures IsNextDelay(initial, multiplier, f, prev, delay) <==> delay == prev * multiplier
  {
    ZeroFactorBounds(prev, f);
    assert ValidBase(prev, f, prev);
  }

  ghost predicate IsGeometric(initial: int, multiplier: int, delays: seq<int>)
  {
    forall i :: 0 <= i < |delays| ==> delays[i] == initial * Pow(multiplier, i)
  }

  lemma GeometricSnoc(initial: int, multiplier: int, delays: seq<int>)
    requires |delays| > 0
    ensures var n := |delays| - 1;
            IsGeometric(initial, multiplier, delays) <==>
            IsGeometric(initial, multiplier, delays[..n]) && delays[n] == initial * Pow(multiplier, n)
  {
    var n := |delays| - 1;
    assert forall i :: 0 <= i < n ==> delays[..n][i] == delays[i];
  }

  lemma PowStep(initial: int, multiplier: int, n: nat)
    requires n > 0
    ensures initial * Pow(multiplier, n) == (initial * Pow(multiplier, n - 1)) * multiplier
  {
    var p := Pow(multiplier, n - 1);
    assert Pow(multiplier, n) == multiplier * p;
    assert initial * (multiplier * p) == (initial * p) * multiplier;
  }

  /** Without jitter, the n-th delay after creation or a reset is
      `initial * multiplier^(n-1)`, and no other run of delays is possible. */
  lemma {:induction false} DeterministicClosedForm(initial: int, multiplier: int, f: Factor, delays: seq<int>)
    requires f.num == 0 && initial != 0 && multiplier != 0
    ensures IsDelayRun(initial, multiplier, f, 0, delays) <==> IsGeometric(initial, multiplier, delays)
  {
    if |delays| > 0 {
      var n := |delays| - 1;
      DeterministicClosedForm(initial, multiplier, f, delays[..n]);
      GeometricSnoc(initial, multiplier, delays);
      if n > 0 && IsGeometric(initial, multiplier, delays[..n]) {
        assert delays[..n][n - 1] == delays[n - 1];
        PowNonZero(multiplier, n - 1);
        MulNonZero(initial, Pow(multiplier, n - 1));
        DeterministicStep(initial, multiplier, f, delays[n - 1], delays[n]);
        PowStep(initial, multiplier, n);
      }
    }
  }

  lemma {:induction false} PowNonZero(b: int, e: nat)
    requires b != 0
    ensures Pow(b, e) != 0
  {
    if e > 0 {
      PowNonZero(b, e - 1);
      MulNonZero(b, Pow(b, e - 1));
    }
  }

  lemma MulNonZero(a: int, b: int)
    requires a != 0 && b != 0
    ensures a * b != 0
  {
    if a > 0 && b > 0 { assert a * b >= b; }
    else if a > 0 { assert a * b <= b; }
    else if b > 0 { assert a * b <= a; }
    else { assert a * b >= -a; }
  }

  /** With a factor `f` in [0, 1] and a positive previous delay, the base drawn
      lies within `prev * (1 - f)` (less the truncation) and `prev * (1 + f)`. */
  lemma JitterBounds(prev: int, f: Factor, base: int)
    requires prev > 0 && 0 <= f.num <= f.den
    requires ValidBase(prev, f, base)
    ensures 0 <= base
    ensures base * f.den <= prev * (f.den + f.num)
    ensures prev * (f.den - f.num) < (base + 1) * f.den
  {
    var (lo, hi) := Bounds(prev, f);
    MulMonotone(0, prev, f.den - f.num);
    MulMonotone(f.den - f.num, f.den + f.num, prev);
    assert prev * (f.den - f.num) == (f.den - f.num) * prev;
    assert prev * (f.den + f.num) == (f.den + f.num) * prev;
    if hi > lo {
      MulMonotone(base, hi, f.den);
      MulMonotone(lo, base, f.den);
    }
  }

  /** With the default configuration the second delay lies in [1600, 2398],
      and both ends can occur. */
  lemma DefaultSecondDelayRange(delay: int)
    ensures IsNextDelay(DefaultInitialBackoffMs, DefaultBackoffMultiplier, DefaultRandomFactor, 1000, delay)
            ==> 1600 <= delay <= 2398
    ensures IsNextDelay(DefaultInitialBackoffMs, DefaultBackoffMultiplier, DefaultRandomFactor, 1000, 1600)
    ensures IsNextDelay(DefaultInitialBackoffMs, DefaultBackoffMultiplier, DefaultRandomFactor, 1000, 2398)
  {
    assert Bounds(1000, DefaultRandomFactor) == (800, 1200);
    assert ValidBase(1000, DefaultRandomFactor, 800);
    assert ValidBase(1000, DefaultRandomFactor, 1199);
  }

  /** The deterministic sequence 1000, 2000, 4000, 8000, then 1000 after a reset. */
  method NoRandomScenario()
  {
    var config := new BackOffConfig(1000, 2, Factor(-1, 1));
    var b := new Backoff(config);
    assert config.backoffRandomFactor == NoRandomFactor;
    var v := b.NextBackoffMs();
    assert v == 1000;
    v := b.NextBackoffMs();
    DeterministicStep(1000, 2, NoRandomFactor, 1000, v);
    assert v == 2000;
    v := b.NextBackoffMs();
    DeterministicStep(1000, 2, NoRandomFactor, 2000, v);
    assert v == 4000;
    v := b.NextBackoffMs();
    DeterministicStep(1000, 2, NoRandomFactor, 4000, v);
    assert v == 8000;
    b.ResetSleepBackoff();
    v := b.NextBackoffMs();
    assert v == 1000;
  }
}
