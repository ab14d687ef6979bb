/** The decimal rounding used across the services, written out over the reals. */
module Rounding {

  function Max(a: real, b: real): real { if a >= b then a else b }

  function Min(a: real, b: real): real { if a <= b then a else b }

  /** Math.max(low, Math.min(high, value)) */
  function Clamp(value: real, low: real, high: real): real { Max(low, Min(high, value)) }

  /** Math.round: ties go up. */
  function MathRound(x: real): int { (x + 0.5).Floor }

  function Tenths(n: int): real { n as real / 10.0 }

  /** round(value, 1), that is Math.round(value * 10) / 10. */
  function Round1(x: real): real { Tenths(MathRound(x * 10.0)) }

  /** The integer toFixed picks: the nearest one, ties away from zero. */
  function Nearest(x: real): int {
    if x < 0.0 then -MathRound(-x) else MathRound(x)
  }

  /** Number(value.toFixed(2)) */
  function ToFixed2(x: real): real { Nearest(x * 100.0) as real / 100.0 }

  /** roundKm: Number(value.toFixed(3)) */
  function ToFixed3(x: real): real { Nearest(x * 1000.0) as real / 1000.0 }

  /** roundCoord: Number(value.toFixed(7)) */
  function ToFixed7(x: real): real { Nearest(x * 10000000.0) as real / 10000000.0 }

  lemma MathRoundMonotone(x: real, y: real)
    requires x <= y
    ensures MathRound(x) <= MathRound(y)
  {}

  lemma MathRoundInteger(n: int)
    ensures MathRound(n as real) == n
  {}

  lemma Round1Monotone(x: real, y: real)
    requires x <= y
    ensures Round1(x) <= Round1(y)
  {
    MathRoundMonotone(x * 10.0, y * 10.0);
  }

  lemma Round1Exact(n: int)
    ensures Round1(Tenths(n)) == Tenths(n)
  {
    assert Tenths(n) * 10.0 == n as real;
    MathRoundInteger(n);
    assert MathRound(Tenths(n) * 10.0) == n;
  }

  /** One-decimal rounding is a projection onto the multiples of 0.1. */
  lemma Round1Idempotent(x: real)
    ensures Round1(Round1(x)) == Round1(x)
  {
    Round1Exact(MathRound(x * 10.0));
  }

  lemma NearestMonotone(x: real, y: real)
    requires x <= y
    ensures Nearest(x) <= Nearest(y)
    ensures 0.0 <= x ==> 0 <= Nearest(x)
  {
    MathRoundMonotone(0.0, if x < 0.0 then -x else x);
    MathRoundMonotone(0.0, if y < 0.0 then -y else y);
    MathRoundInteger(0);
    hide MathRound;
    if y < 0.0 { MathRoundMonotone(-y, -x); }
    if x >= 0.0 { MathRoundMonotone(x, y); }
  }

  /** Rounding to three decimals keeps the order of values, and non-negative ones non-negative. */
  lemma ToFixed3Monotone(x: real, y: real)
    requires x <= y
    ensures ToFixed3(x) <= ToFixed3(y)
    ensures 0.0 <= x ==> 0.0 <= ToFixed3(x)
  {
    hide Nearest;
    NearestMonotone(x * 1000.0, y * 1000.0);
  }

  /** Five-decimal coordinates survive rounding to seven decimals. */
  lemma ToFixed7Exact(n: int)
    ensures ToFixed7(n as real / 100000.0) == n as real / 100000.0
  {
    assert n as real / 100000.0 * 10000000.0 == (100 * n) as real;
    MathRoundInteger(100 * n);
    MathRoundInteger(-100 * n);
  }

  lemma NearestIsNear(x: real)
    ensures -0.5 <= Nearest(x) as real - x <= 0.5
    ensures Nearest(-x) == -Nearest(x)
    ensures (x >= 0.0 && (Nearest(x) as real - x == 0.5 || Nearest(x) as real - x == -0.5)) ==> Nearest(x) as real > x
  {}

  /** Rounding to decimals moves a value by half a unit of the last one at most, and is symmetric. */
  lemma ToFixedIsNear(x: real)
    ensures -0.005 <= ToFixed2(x) - x <= 0.005 && ToFixed2(-x) == -ToFixed2(x)
    ensures -0.0005 <= ToFixed3(x) - x <= 0.0005 && ToFixed3(-x) == -ToFixed3(x)
    ensures -0.00000005 <= ToFixed7(x) - x <= 0.00000005 && ToFixed7(-x) == -ToFixed7(x)
  {
    hide Nearest;
    NearestIsNear(x * 100.0);
    NearestIsNear(x * 1000.0);
    NearestIsNear(x * 10000000.0);
    assert -x * 100.0 == -(x * 100.0) && -x * 1000.0 == -(x * 1000.0) && -x * 10000000.0 == -(x * 10000000.0);
  }

  lemma ScaleDown(d: real, w: real)
    requires d >= 0.0 && 0.0 <= w <= 1.0
    ensures 0.0 <= d * w <= d
  {
    assert d * (1.0 - w) == d - d * w;
  }

  /** A convex combination lies between its operands. */
  lemma ConvexBounds(a: real, b: real, w: real, low: real, high: real)
    requires low <= a <= high && low <= b <= high && 0.0 <= w <= 1.0
    ensures low <= a * (1.0 - w) + b * w <= high
  {
    var d := b - a;
    var m := d * w;
    assert a * (1.0 - w) + b * w == a + m;
    if d >= 0.0 {
      assert 0.0 <= m <= d by { ScaleDown(d, w); }
    } else {
      assert d <= m <= 0.0 by {
        ScaleDown(-d, w);
        assert -d * w == -m;
      }
    }
  }
}
