/** The retry-delay policy of src/concurrency/exponential_backoff.hpp. The
    delay is a std::chrono::milliseconds value (a 64-bit count, modelled as an
    unbounded int); the two factors are doubles, modelled as reals.

    `backoff_ms *= factor` calls the duration's `operator*=(const rep&)`, so the
    double factor is first converted to the int64 count type, truncating it
    toward zero, whereas the guards compare the product of the count and the
    double itself. The model keeps both as written. */
module Backoff {

  /** Conversion of a double to int64: truncation toward zero. */
  function TruncReal(x: real): (n: int)
    ensures 0.0 <= x ==> 0 <= n && n as real <= x < n as real + 1.0
    ensures x < 0.0 ==> n <= 0 && n as real - 1.0 < x <= n as real
  {
    if x >= 0.0 then x.Floor else -((-x).Floor)
  }

  /** The four constructor arguments, which never change afterwards. */
  datatype Config = Config(minBackoff: int, maxBackoff: int, failFactor: real, successFactor: real)

  /** The guarantee of failure(): the real-valued product grows the delay. */
  predicate GrowthGuard(c: Config, backoff: int) {
    backoff as real * c.failFactor > backoff as real
  }

  /** The guarantee of success(): the real-valued product shrinks the delay, or it is zero. */
  predicate ShrinkGuard(c: Config, backoff: int) {
    backoff as real * c.successFactor < backoff as real || backoff == 0
  }

  /** The delay failure() leaves once its nap completes (or at once from zero). */
  function FailureStep(c: Config, backoff: int): int
    requires backoff == 0 || GrowthGuard(c, backoff)
  {
    if backoff == 0 then c.minBackoff
    else
      var grown := backoff * TruncReal(c.failFactor);
      if grown > c.maxBackoff then c.maxBackoff else grown
  }

  /** The delay success() leaves. */
  function SuccessStep(c: Config, backoff: int): int
    requires ShrinkGuard(c, backoff)
  {
    var shrunk := backoff * TruncReal(c.successFactor);
    if shrunk < c.minBackoff then 0 else shrunk
  }

  /** How failure() ended: normally, or by interrupted_exc_t out of its nap. */
  datatype Outcome = Completed | Interrupted

  /** exponential_backoff_t. The nap inside failure() is not modelled beyond
      whether its interruptor fired (`interrupted`), which throws before the
      delay is touched; coro_t::yield() is a no-op here. */
  class ExponentialBackoff {
    const minBackoff: int
    const maxBackoff: int
    const failFactor: real
    const successFactor: real
    var backoff: int

    function Settings(): Config {
      Config(minBackoff, maxBackoff, failFactor, successFactor)
    }

    constructor (minMs: int, maxMs: int, ff: real := 1.5, sf: real := 0.0)
      ensures Settings() == Config(minMs, maxMs, ff, sf)
      ensures backoff == 0
    {
      minBackoff, maxBackoff, failFactor, successFactor := minMs, maxMs, ff, sf;
      backoff := 0;
    }

    /** failure(interruptor). A negative delay would reach the nap's
        signal_timer_t, whose start() refuses it, so it is excluded. */
    method Failure(interrupted: bool) returns (outcome: Outcome)
      requires backoff >= 0
      requires backoff == 0 || interrupted || GrowthGuard(Settings(), backoff)
      modifies this
      ensures outcome == Interrupted <==> old(backoff) != 0 && interrupted
      ensures outcome == Interrupted ==> backoff == old(backoff)
      ensures outcome == Completed ==> backoff == FailureStep(Settings(), old(backoff))
      ensures old(backoff) == 0 ==> backoff == minBackoff
      ensures old(backoff) != 0 && outcome == Completed ==> backoff <= maxBackoff
    {
      if backoff == 0 {
        backoff := minBackoff;
        outcome := Completed;
      } else {
        if interrupted {
          return Interrupted;
        }
        backoff := backoff * TruncReal(failFactor);
        if backoff > maxBackoff {
          backoff := maxBackoff;
        }
        outcome := Completed;
      }
    }

    /** success() */
    method Success()
      requires ShrinkGuard(Settings(), backoff)
      modifies this
      ensures backoff == SuccessStep(Settings(), old(backoff))
      ensures backoff == 0 || backoff >= minBackoff
      ensures old(backoff) == 0 ==> backoff == 0
    {
      backoff := backoff * TruncReal(successFactor);
      if backoff < minBackoff {
        backoff := 0;
      }
    }
  }

  /** A configuration under which every guarantee of failure() holds: a
      positive minimum no larger than the maximum, and a growth factor above one. */
  predicate Sane(c: Config) {
    0 < c.minBackoff <= c.maxBackoff && c.failFactor > 1.0
  }

  /** The delays the policy can hold under a sane configuration. */
  predicate Reachable(c: Config, backoff: int) {
    backoff == 0 || c.minBackoff <= backoff <= c.maxBackoff
  }

  /** Under a sane configuration a failure never shortens the delay and never
      takes it past the maximum; its guarantee always holds. */
  lemma {:induction false} FailureGrowsWithinBounds(c: Config, backoff: int)
    requires Sane(c) && Reachable(c, backoff)
    ensures backoff == 0 || GrowthGuard(c, backoff)
    ensures FailureStep(c, backoff) >= backoff
    ensures c.minBackoff <= FailureStep(c, backoff) <= c.maxBackoff
  {
    if backoff != 0 {
      var b := backoff as real;
      assert b * c.failFactor - b == b * (c.failFactor - 1.0);
      assert b * (c.failFactor - 1.0) > 0.0;
      var k := TruncReal(c.failFactor);
      assert k >= 1;
      assert backoff * k >= backoff by {
        assert backoff * k - backoff == backoff * (k - 1);
        assert backoff * (k - 1) >= 0;
      }
    }
  }

  /** The delay after `n` failures in a row, none interrupted. */
  function AfterFailures(c: Config, backoff: int, n: nat): (b: int)
    requires Sane(c) && Reachable(c, backoff)
    ensures Reachable(c, b)
    ensures n > 0 ==> c.minBackoff <= b
    decreases n
  {
    FailureGrowsWithinBounds(c, backoff);
    if n == 0 then backoff else AfterFailures(c, FailureStep(c, backoff), n - 1)
  }

  /** A run of failures with no success between them gives a non-decreasing
      sequence of delays, bounded above by the maximum. */
  lemma {:induction false} FailuresNonDecreasing(c: Config, backoff: int, n: nat)
    requires Sane(c) && Reachable(c, backoff)
    ensures AfterFailures(c, backoff, n) <= AfterFailures(c, backoff, n + 1) <= c.maxBackoff
    decreases n
  {
    FailureGrowsWithinBounds(c, backoff);
    if n > 0 {
      FailuresNonDecreasing(c, FailureStep(c, backoff), n - 1);
    }
  }

  /** A shrink factor in [0, 1) truncates to zero, so one success heals the
      delay completely; at zero the guarantee holds trivially and at any
      positive delay it holds too. */
  lemma {:induction false} SuccessHeals(c: Config, backoff: int)
    requires 0.0 <= c.successFactor < 1.0 && 0 < c.minBackoff && 0 <= backoff
    ensures ShrinkGuard(c, backoff)
    ensures SuccessStep(c, backoff) == 0
  {
    if backoff > 0 {
      var b := backoff as real;
      assert b - b * c.successFactor == b * (1.0 - c.successFactor);
      assert b * (1.0 - c.successFactor) > 0.0;
    }
  }

  /** As written, a growth factor between one and two (the default is 1.5)
      truncates to 1: the guarantee passes, yet the delay never grows past the
      minimum it jumped to on the first failure. */
  lemma {:induction false} FactorBelowTwoNeverGrows(c: Config, backoff: int)
    requires Sane(c) && c.failFactor < 2.0 && c.minBackoff <= backoff <= c.maxBackoff
    ensures GrowthGuard(c, backoff)
    ensures FailureStep(c, backoff) == backoff
  {
    FailureGrowsWithinBounds(c, backoff);
    assert TruncReal(c.failFactor) == 1;
  }

  /** The growth evidently intended: the delay multiplied by the real factor,
      truncated to whole milliseconds, clamped to the maximum, and the
      rounding guarantee applied to the value actually stored. */
  function IntendedFailureStep(c: Config, backoff: int): (b: int)
    requires backoff == 0 || TruncReal(backoff as real * c.failFactor) > backoff
    ensures backoff == 0 ==> b == c.minBackoff
    ensures backoff != 0 ==> b == c.maxBackoff || (backoff < b < c.maxBackoff)
    ensures backoff != 0 && backoff < c.maxBackoff ==> backoff < b
  {
    if backoff == 0 then c.minBackoff
    else
      var grown := TruncReal(backoff as real * c.failFactor);
      if grown > c.maxBackoff then c.maxBackoff else grown
  }
}
