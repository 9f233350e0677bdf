/** Conversion between timebases.

    `av_rescale_q` belongs to FFmpeg; its contract here is exact rational scaling
    rounded to the nearest integer, halves away from zero, without overflow. */
module Rescale {
  import opened Arith
  import opened Timestamps

  function RoundDiv(n: int, d: int): int
    requires d > 0
  {
    if n >= 0 then (2 * n + d) / (2 * d) else -((-2 * n + d) / (2 * d))
  }

  function RescaleQ(a: int, bq: Rational, cq: Rational): int
    requires bq.Positive() && cq.Positive()
  {
    ScalePositive(bq, cq);
    RoundDiv(a * (bq.num * cq.den), bq.den * cq.num)
  }

  lemma ScalePositive(bq: Rational, cq: Rational)
    requires bq.Positive() && cq.Positive()
    ensures bq.num * cq.den > 0 && bq.den * cq.num > 0
  {
    MulPositive(bq.num, cq.den);
    MulPositive(bq.den, cq.num);
  }

  /** The result is within half a unit of the exact quotient. */
  lemma RoundNear(n: int, d: int)
    requires d > 0
    ensures 2 * n - d <= 2 * (d * RoundDiv(n, d)) <= 2 * n + d
  {
    var m := if n >= 0 then 2 * n + d else -2 * n + d;
    var q := m / (2 * d);
    assert m == (2 * d) * q + m % (2 * d);
    assert (2 * d) * q == 2 * (d * q);
    assert n < 0 ==> d * (-q) == -(d * q);
  }

  /** Exactly half a unit goes away from zero. */
  lemma RoundAway(n: int, d: int)
    requires d > 0
    ensures n >= 0 ==> 2 * n < 2 * (d * RoundDiv(n, d)) + d
    ensures n < 0 ==> 2 * (d * RoundDiv(n, d)) - d < 2 * n
  {
    var m := if n >= 0 then 2 * n + d else -2 * n + d;
    var q := m / (2 * d);
    assert m == (2 * d) * q + m % (2 * d);
    assert (2 * d) * q == 2 * (d * q);
    assert n < 0 ==> d * (-q) == -(d * q);
  }

  /** The rescaled timestamp is the nearest to the exact time, and the one away from zero if two
      are. */
  lemma RescaleIsNearest(a: int, bq: Rational, cq: Rational)
    requires bq.Positive() && cq.Positive()
    ensures var exact, tick := 2 * (a * (bq.num * cq.den)), bq.den * cq.num;
            var result := 2 * (tick * RescaleQ(a, bq, cq));
            && exact - tick <= result <= exact + tick
            && (a >= 0 ==> exact < result + tick) && (a < 0 ==> result - tick < exact)
  {
    ScalePositive(bq, cq);
    var n := a * (bq.num * cq.den);
    RoundNear(n, bq.den * cq.num);
    RoundAway(n, bq.den * cq.num);
    if a >= 0 { MulMonotone(0, a, bq.num * cq.den); } else { MulMonotone(a, -1, bq.num * cq.den); }
  }

  lemma RoundMonotone(n: int, m: int, d: int)
    requires d > 0 && n <= m
    ensures RoundDiv(n, d) <= RoundDiv(m, d)
  {
    if n >= 0 {
      DivMonotone(2 * n + d, 2 * m + d, 2 * d);
    } else if m < 0 {
      DivMonotone(-2 * m + d, -2 * n + d, 2 * d);
    } else {
      DivMonotone(0, -2 * n + d, 2 * d);
      DivMonotone(0, 2 * m + d, 2 * d);
    }
  }

  /** Rescaling keeps the order of timestamps. */
  lemma RescaleMonotone(a: int, b: int, bq: Rational, cq: Rational)
    requires bq.Positive() && cq.Positive() && a <= b
    ensures RescaleQ(a, bq, cq) <= RescaleQ(b, bq, cq)
  {
    ScalePositive(bq, cq);
    MulMonotone(a, b, bq.num * cq.den);
    RoundMonotone(a * (bq.num * cq.den), b * (bq.num * cq.den), bq.den * cq.num);
  }

  /** `ticks` units of `cq` cover a step of `step` units of `bq`. */
  predicate Covers(ticks: int, step: int, bq: Rational, cq: Rational) {
    step * (bq.num * cq.den) <= ticks * (bq.den * cq.num)
  }

  /** Rescaling stretches a step by at most one tick over its exact length. */
  lemma RescaleGap(a: int, b: int, ticks: int, bq: Rational, cq: Rational)
    requires bq.Positive() && cq.Positive() && Covers(ticks, b - a, bq, cq)
    ensures RescaleQ(b, bq, cq) - RescaleQ(a, bq, cq) <= ticks + 1
  {
    ScalePositive(bq, cq);
    var n, d := bq.num * cq.den, bq.den * cq.num;
    var x, y := RescaleQ(a, bq, cq), RescaleQ(b, bq, cq);
    RoundNear(a * n, d);
    RoundNear(b * n, d);
    assert (b - a) * n == b * n - a * n;
    assert 2 * (d * y) - 2 * (d * x) <= 2 * (ticks * d) + 2 * d;
    RoundedStep(x, y, ticks, d);
  }

  lemma RoundedStep(x: int, y: int, ticks: int, d: int)
    requires d > 0 && 2 * (d * y) - 2 * (d * x) <= 2 * (ticks * d) + 2 * d
    ensures y - x <= ticks + 1
  {
    assert (y - x) * d == d * y - d * x && (ticks + 2) * d == ticks * d + 2 * d;
    if y - x > ticks + 1 {
      MulMonotone(ticks + 2, y - x, d);
    }
  }
}
