/** src/backoff.rs: the delay sequence shared by the worker loop and the RPC client. */
module Backoff {

  function Min(x: real, y: real): real {
    if x <= y then x else y
  }

  function Max(x: real, y: real): real {
    if x >= y then x else y
  }

  /** Rounding to the nearest integer, halves away from zero. */
  function Round(x: real): real {
    if x >= 0.0 then (x + 0.5).Floor as real else -((-x + 0.5).Floor as real)
  }

  /** The delay that replaces `delay` after one step. */
  function NextDelay(lo: real, hi: real, multiplier: real, delay: real): real {
    Min(Max(Round(delay * multiplier), lo), hi)
  }

  /** The delay used by the k-th step after a reset, counting from zero. */
  function DelayAt(lo: real, hi: real, multiplier: real, k: nat): real {
    if k == 0 then lo else NextDelay(lo, hi, multiplier, DelayAt(lo, hi, multiplier, k - 1))
  }

  function Pow2(k: nat): nat {
    if k == 0 then 1 else 2 * Pow2(k - 1)
  }

  /** The sleep before truncation; `unit` is the random draw from [0, 1). */
  function SleepMs(delay: real, unit: real): real {
    var half := delay / 2.0;
    var jitter := if half > 0.0 then half * unit else 0.0;
    Max(half + jitter, 1.0)
  }

  class WorkerBackoff {
    const minDelay: real
    const maxDelay: real
    var currentDelay: real
    const multiplier: real
    // Steps taken since construction or the last reset.
    ghost var steps: nat

    ghost predicate Valid()
      reads this
    {
      && multiplier >= 1.0
      && currentDelay == DelayAt(minDelay, maxDelay, multiplier, steps)
    }

    constructor (minDelay: real, maxDelay: real, multiplier: real)
      ensures Valid() && steps == 0
      ensures this.minDelay == minDelay && this.maxDelay == maxDelay
      ensures this.multiplier == if multiplier >= 1.0 then multiplier else 1.0
      ensures currentDelay == minDelay
    {
      this.minDelay := minDelay;
      this.maxDelay := maxDelay;
      this.currentDelay := minDelay;
      this.multiplier := Max(multiplier, 1.0);
      this.steps := 0;
    }

    method Reset()
      requires Valid()
      modifies this
      ensures Valid() && steps == 0 && currentDelay == minDelay
    {
      currentDelay := minDelay;
      steps := 0;
    }

    /** Returns whole milliseconds; the k-th call after a reset uses DelayAt(k). */
    method StepAndGetSleepDuration(unit: real) returns (sleepMs: nat)
      requires Valid() && 0.0 <= unit < 1.0
      modifies this
      ensures Valid() && steps == old(steps) + 1
      ensures sleepMs == SleepMs(DelayAt(minDelay, maxDelay, multiplier, old(steps)), unit).Floor
      ensures old(currentDelay) >= 2.0 ==> old(currentDelay) / 2.0 - 1.0 < sleepMs as real <= old(currentDelay)
    {
      var delayMs := currentDelay;
      var sleep := SleepMs(delayMs, unit);
      SleepWithinDelay(delayMs, unit);
      currentDelay := NextDelay(minDelay, maxDelay, multiplier, delayMs);
      steps := steps + 1;
      sleepMs := sleep.Floor;
    }
  }

  /** Rounding never reverses an order. */
  lemma RoundMonotone(x: real, y: real)
    requires x <= y
    ensures Round(x) <= Round(y)
  {
    if x >= 0.0 {
      FloorMonotone(x + 0.5, y + 0.5);
    } else if y < 0.0 {
      FloorMonotone(-y + 0.5, -x + 0.5);
    } else {
      FloorMonotone(0.0, -x + 0.5);
      FloorMonotone(0.0, y + 0.5);
    }
  }

  lemma FloorMonotone(x: real, y: real)
    requires x <= y
    ensures x.Floor <= y.Floor
  {
    assert x.Floor as real <= y < (y.Floor + 1) as real;
  }

  lemma Scaled(x: real, y: real, factor: real)
    requires x <= y && factor >= 0.0
    ensures x * factor <= y * factor
  {
    var gap := y - x;
    assert gap * factor >= 0.0;
    assert (x + gap) * factor == x * factor + gap * factor;
  }

  lemma NextDelayMonotone(lo: real, hi: real, multiplier: real, d: real, e: real)
    requires multiplier >= 1.0 && d <= e
    ensures NextDelay(lo, hi, multiplier, d) <= NextDelay(lo, hi, multiplier, e)
  {
    Scaled(d, e, multiplier);
    RoundMonotone(d * multiplier, e * multiplier);
  }

  /** Every delay stays between the bounds and none is shorter than the one before it. */
  lemma {:induction false} DelayBoundedAndNondecreasing(lo: real, hi: real, multiplier: real, k: nat)
    requires lo <= hi && multiplier >= 1.0
    ensures lo <= DelayAt(lo, hi, multiplier, k) <= hi
    ensures DelayAt(lo, hi, multiplier, k) <= DelayAt(lo, hi, multiplier, k + 1)
  {
    if k > 0 {
      DelayBoundedAndNondecreasing(lo, hi, multiplier, k - 1);
      NextDelayMonotone(lo, hi, multiplier, DelayAt(lo, hi, multiplier, k - 1), DelayAt(lo, hi, multiplier, k));
    }
  }

  /** One doubling step between integral bounds. */
  lemma DoubleStep(lo: nat, hi: nat, d: nat)
    requires lo <= d <= hi
    ensures NextDelay(lo as real, hi as real, 2.0, d as real) == (if 2 * d <= hi then 2 * d else hi) as real
  {
    assert d as real * 2.0 == (2 * d) as real;
    RoundInteger(2 * d);
  }

  lemma RoundInteger(n: nat)
    ensures Round(n as real) == n as real
  {
    FloorMonotone(n as real, n as real + 0.5);
    assert (n as real + 0.5).Floor as real < (n + 1) as real;
  }

  /** With integral bounds and multiplier 2 the k-th delay is min(hi, lo * 2^k). */
  lemma {:induction false} ClosedForm(lo: nat, hi: nat, k: nat)
    requires lo <= hi
    ensures DelayAt(lo as real, hi as real, 2.0, k) == Min(hi as real, (lo * Pow2(k)) as real)
    ensures lo <= lo * Pow2(k)
  {
    if k > 0 {
      ClosedForm(lo, hi, k - 1);
      var p := lo * Pow2(k - 1);
      Doubled(lo, k);
      DoubleStep(lo, hi, if p <= hi then p else hi);
    }
  }

  lemma Doubled(lo: nat, k: nat)
    requires k > 0
    ensures lo * Pow2(k) == 2 * (lo * Pow2(k - 1))
  {
  }

  /** The closed form holds at every step exactly when the lower bound is not negative. */
  lemma ClosedFormIff(lo: int, hi: int)
    requires lo <= hi
    ensures (forall k: nat ::
               DelayAt(lo as real, hi as real, 2.0, k) == Min(hi as real, (lo * Pow2(k)) as real)) <==> lo >= 0
  {
    if lo >= 0 {
      forall k: nat
        ensures DelayAt(lo as real, hi as real, 2.0, k) == Min(hi as real, (lo * Pow2(k)) as real)
      {
        ClosedForm(lo, hi, k);
      }
    } else {
      DelayBoundedAndNondecreasing(lo as real, hi as real, 2.0, 1);
      assert Pow2(1) == 2;
      assert DelayAt(lo as real, hi as real, 2.0, 1) >= lo as real > (lo * Pow2(1)) as real;
    }
  }

  /** `n` is the whole number nearest to `x`, the one farther from zero if there are two. */
  predicate IsNearest(x: real, n: int) {
    if x >= 0.0 then x - 0.5 < n as real <= x + 0.5 else x - 0.5 <= n as real < x + 0.5
  }

  lemma RoundIsNearest(x: real, n: int)
    requires IsNearest(x, n)
    ensures Round(x) == n as real
  {
    if x >= 0.0 {
      OnlyFloor(x + 0.5, n);
    } else {
      assert -n as real == -(n as real);
      OnlyFloor(-x + 0.5, -n);
    }
  }

  lemma OnlyFloor(x: real, n: int)
    requires n as real <= x < n as real + 1.0
    ensures x.Floor == n
  {
  }

  lemma NextReading(lo: real, hi: real, multiplier: real, delay: real, n: int)
    requires IsNearest(delay * multiplier, n)
    ensures NextDelay(lo, hi, multiplier, delay) ==
            if lo >= hi || n as real >= hi then hi else if n as real <= lo then lo else n as real
  {
    RoundIsNearest(delay * multiplier, n);
  }

  /** The first delay is the lower bound; each later one is the scaled and rounded one before, within the bounds. */
  lemma DelayReading(lo: real, hi: real, multiplier: real, k: nat, n: int)
    requires IsNearest(DelayAt(lo, hi, multiplier, k) * multiplier, n)
    ensures DelayAt(lo, hi, multiplier, 0) == lo
    ensures DelayAt(lo, hi, multiplier, k + 1) ==
            if lo >= hi || n as real >= hi then hi else if n as real <= lo then lo else n as real
  {
    NextReading(lo, hi, multiplier, DelayAt(lo, hi, multiplier, k), n);
  }

  /** Half the delay and a random part of the other half, but at least a millisecond. */
  lemma SleepReading(delay: real, unit: real)
    requires 0.0 <= unit < 1.0
    ensures var sleep := delay / 2.0 * (1.0 + unit);
            SleepMs(delay, unit) == if delay > 0.0 && sleep >= 1.0 then sleep else 1.0
  {
    var half := delay / 2.0;
    assert half * (1.0 + unit) == half + half * unit;
  }

  /** For delays of at least 2 ms the jittered sleep lies between half the delay and the delay. */
  lemma SleepWithinDelay(delay: real, unit: real)
    requires 0.0 <= unit < 1.0
    ensures delay >= 2.0 ==> delay / 2.0 <= SleepMs(delay, unit) < delay
    ensures SleepMs(delay, unit) >= 1.0
  {
    var half := delay / 2.0;
    if half > 0.0 {
      assert half * unit < half by { assert half * (1.0 - unit) > 0.0; }
      assert half * unit >= 0.0;
    }
  }
}
