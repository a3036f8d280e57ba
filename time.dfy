/** Integer durations and the std::chrono conversions used by the timer code
    (src/time.hpp). A duration is a signed count of ticks of some period; every
    period the source uses is a whole number of nanoseconds, so a period is
    written here as that number. */
module Time {

  /** The length of one tick of a std::chrono period, in nanoseconds. */
  type Period = p: int | p > 0 witness 1

  const Nano: Period := 1
  const Milli: Period := 1_000_000
  const Second: Period := 1_000_000_000

  /** The smallest value of the signed 64-bit count behind every std::chrono type here. */
  const MinInt64: int := -0x8000_0000_0000_0000

  /** Division of a signed integer that truncates toward zero, as C++ `/` does
      (Dafny's own `/` rounds toward negative infinity for a negative dividend). */
  function TruncDiv(a: int, b: int): (q: int)
    requires b > 0
    ensures 0 <= a ==> 0 <= q && q * b <= a < q * b + b
    ensures a < 0 ==> q <= 0 && q * b - b < a <= q * b
  {
    if a >= 0 then a / b else -((-a) / b)
  }

  /** std::chrono::duration_cast<To>(d) for a duration of `count` ticks of `from`:
      the exact value in nanoseconds, truncated toward zero to whole ticks of `to`
      (subclause [time.duration.cast] of the ISO C++ standard). This is also what
      tick_floor and time_cast return. */
  function DurationCast(count: int, from: Period, to: Period): (r: int)
    ensures 0 <= count ==> 0 <= r * to <= count * from < r * to + to
    ensures count < 0 ==> r * to - to < count * from <= r * to <= 0
  {
    TruncDiv(count * from, to)
  }

  /** ceil<To>(d): the cast, plus one tick of `to` when the cast fell below `d`
      (the comparison `t < d` is exact, in the common nanosecond unit). */
  function Ceil(count: int, from: Period, to: Period): (r: int)
    ensures count * from <= r * to < count * from + to
  {
    var t := DurationCast(count, from, to);
    if t * to < count * from then t + 1 else t
  }

  /** remaining_nanos(t): the part of a time point `t` (nanoseconds since the
      epoch) below its whole seconds, the whole seconds truncated toward zero. */
  function RemainingNanos(t: int): (r: int)
    ensures (t - r) % Second == 0
    ensures 0 <= t ==> 0 <= r < Second
    ensures t < 0 ==> -(Second as int) < r <= 0
  {
    var secs := DurationCast(t, Nano, Second);
    assert t - (t - secs * Second) == secs * Second;
    t - secs * Second
  }

  /** A product of two non-negative integers is non-negative. */
  lemma {:induction false} MulNonNegative(a: int, b: int)
    requires 0 <= a && 0 <= b
    ensures 0 <= a * b
  {
    if a > 0 {
      MulNonNegative(a - 1, b);
      assert a * b == (a - 1) * b + b;
    }
  }

  /** Multiplying by a positive period keeps a strict gap of at least one period. */
  lemma MulGap(x: int, y: int, b: Period)
    requires x < y
    ensures x * b + b <= y * b
  {
    MulNonNegative(y - x - 1, b);
    assert (y - x - 1) * b == y * b - x * b - b;
  }

  /** The quotient is determined by the truncation bounds: a count whose
      multiple lies within one period of `n` on the side of zero is the cast. */
  lemma QuotientUnique(n: int, b: Period, q1: int, q2: int)
    requires q1 * b <= n < q1 * b + b
    requires q2 * b <= n < q2 * b + b
    ensures q1 == q2
  {
    if q1 < q2 {
      MulGap(q1, q2, b);
    } else if q2 < q1 {
      MulGap(q2, q1, b);
    }
  }

  /** The cast keeps the order of durations: it never maps a shorter duration
      to more ticks than a longer one. */
  lemma {:induction false} CastMonotone(c1: int, c2: int, from: Period, to: Period)
    requires c1 <= c2
    ensures DurationCast(c1, from, to) <= DurationCast(c2, from, to)
  {
    var r1, r2 := DurationCast(c1, from, to), DurationCast(c2, from, to);
    var n1, n2 := c1 * from, c2 * from;
    assert n1 <= n2 by {
      MulNonNegative(c2 - c1, from);
      assert (c2 - c1) * from == n2 - n1;
    }
    if r2 < r1 {
      MulGap(r2, r1, to);
    }
  }

  /** The cast is the identity on counts that are exactly representable in `to`. */
  lemma {:induction false} CastExact(count: int, from: Period, to: Period)
    requires (count * from) % to == 0
    ensures DurationCast(count, from, to) * to == count * from
  {
    var n := count * from;
    var r := DurationCast(count, from, to);
    var k := n / to;
    assert n == k * to;
    if n >= 0 {
      QuotientUnique(n, to, r, k);
    } else {
      QuotientUnique(-n, to, -r, -k);
    }
  }

  /** ceil<To> is the smallest count of `to` ticks that is not shorter than `d`. */
  lemma {:induction false} CeilIsLeast(count: int, from: Period, to: Period, k: int)
    requires count * from <= k * to
    ensures Ceil(count, from, to) <= k
  {
    var r := Ceil(count, from, to);
    if k < r {
      MulGap(k, r, to);
    }
  }

  /** ceil<To> returns the truncating cast when that cast is exact or when it
      already rounded upward (a negative `d`), and the cast plus one otherwise. */
  lemma {:induction false} CeilVersusCast(count: int, from: Period, to: Period)
    ensures var t := DurationCast(count, from, to);
      Ceil(count, from, to) == if (count * from) % to == 0 || count < 0 then t else t + 1
  {
    var n := count * from;
    var t := DurationCast(count, from, to);
    if n % to == 0 {
      CastExact(count, from, to);
    }
  }

  /** ceil<To> is the identity on values already representable in `To`. */
  lemma {:induction false} CeilExact(k: int, from: Period, to: Period)
    requires to % from == 0
    ensures Ceil(k * (to / from), from, to) == k
  {
    var m := to / from;
    assert m * from == to;
    assert k * m * from == k * to;
    CeilIsLeast(k * m, from, to, k);
  }
}
