/** Decimal rounding as Python's built-in `round` does it: to the nearest multiple of a power of ten,
    ties going to the even multiple. Prices and sizes are exact reals everywhere in this project. */
module Rounding {

  function Min(x: real, y: real): real {
    if x <= y then x else y
  }

  function Max(x: real, y: real): real {
    if x >= y then x else y
  }

  function Abs(x: real): real {
    if x >= 0.0 then x else -x
  }

  function Clamp(x: real, low: real, high: real): real {
    Max(low, Min(x, high))
  }

  /** The integer nearest to `x`, ties to even. */
  function RoundHalfEven(x: real): int {
    var f := x.Floor;
    var d := x - f as real;
    if d < 0.5 then f
    else if d > 0.5 then f + 1
    else if f % 2 == 0 then f else f + 1
  }

  lemma RoundNear(x: real)
    ensures x - 0.5 <= RoundHalfEven(x) as real <= x + 0.5
  {}

  lemma RoundOfInt(n: int)
    ensures RoundHalfEven(n as real) == n
  {}

  lemma RoundMonotone(x: real, y: real)
    requires x <= y
    ensures RoundHalfEven(x) <= RoundHalfEven(y)
  {
    if x.Floor < y.Floor {
      assert x.Floor + 1 <= y.Floor;
    }
  }

  /** Rounding to even makes negation exact: this is what the mirrored BUY stop relies on. */
  lemma RoundOdd(x: real)
    ensures RoundHalfEven(-x) == -RoundHalfEven(x)
  {
    var f := x.Floor;
    if x == f as real {
      RoundOfInt(f);
      RoundOfInt(-f);
      assert -x == (-f) as real;
    } else {
      assert (-x).Floor == -f - 1;
      assert (-f - 1) % 2 == 0 <==> f % 2 != 0;
    }
  }

  /** `round(x, k)` with `scale == 10^k`. */
  function RoundTo(x: real, scale: real): real
    requires scale > 0.0
  {
    RoundHalfEven(x * scale) as real / scale
  }

  lemma DivideOrder(x: real, y: real, scale: real)
    requires scale > 0.0 && x <= y
    ensures x / scale <= y / scale
  {
    var q, r := x / scale, y / scale;
    assert q * scale == x && r * scale == y;
  }

  lemma RoundToMonotone(x: real, y: real, scale: real)
    requires scale > 0.0 && x <= y
    ensures RoundTo(x, scale) <= RoundTo(y, scale)
  {
    assert (y - x) * scale >= 0.0;
    RoundMonotone(x * scale, y * scale);
    DivideOrder(RoundHalfEven(x * scale) as real, RoundHalfEven(y * scale) as real, scale);
  }

  lemma RoundToOdd(x: real, scale: real)
    requires scale > 0.0
    ensures RoundTo(-x, scale) == -RoundTo(x, scale)
  {
    assert -x * scale == -(x * scale);
    RoundOdd(x * scale);
  }

  /** `x` is a whole number of 1e-8 units, the grid on which the executor keeps filled sizes. */
  ghost predicate OnGrid(x: real) {
    (x * 100000000.0).Floor as real == x * 100000000.0
  }

  function Round8(x: real): real {
    RoundTo(x, 100000000.0)
  }

  const UNIT: real := 0.00000001

  lemma Round8Facts(x: real)
    ensures OnGrid(Round8(x))
    ensures x - UNIT / 2.0 <= Round8(x) <= x + UNIT / 2.0
    ensures OnGrid(x) ==> Round8(x) == x
    ensures x >= 0.0 ==> Round8(x) >= 0.0
    ensures Round8(x) > 0.0 ==> Round8(x) >= UNIT
  {
    var n := RoundHalfEven(x * 100000000.0);
    RoundNear(x * 100000000.0);
    assert Round8(x) * 100000000.0 == n as real;
    RoundOfInt((x * 100000000.0).Floor);
  }

  lemma Round8Monotone(x: real, y: real)
    requires x <= y
    ensures Round8(x) <= Round8(y)
  {
    RoundToMonotone(x, y, 100000000.0);
  }

  /** Rounding keeps every bound that lies on the grid. */
  lemma Round8KeepsGridBound(x: real, bound: real)
    requires OnGrid(bound)
    ensures x <= bound ==> Round8(x) <= bound
    ensures bound <= x ==> bound <= Round8(x)
  {
    Round8Facts(bound);
    if x <= bound {
      Round8Monotone(x, bound);
    }
    if bound <= x {
      Round8Monotone(bound, x);
    }
  }
}

/** The few facts about products of reals the proofs need. Products are named, so that a proof can keep
    the solver from multiplying them out. */
module Products {

  function Mul(x: real, y: real): real {
    x * y
  }

  lemma MulMonotone(x: real, y: real, c: real)
    requires x <= y && c >= 0.0
    ensures Mul(x, c) <= Mul(y, c)
  {
    assert (y - x) * c >= 0.0;
  }

  lemma MulStrict(x: real, y: real, c: real)
    requires c > 0.0
    ensures x < y <==> Mul(x, c) < Mul(y, c)
  {
    if x < y {
      assert (y - x) * c > 0.0;
    } else {
      MulMonotone(y, x, c);
    }
  }

  lemma MulSymmetric(x: real, y: real)
    ensures Mul(x, y) == Mul(y, x)
  {}

  lemma MulUnits(x: real)
    ensures Mul(0.0, x) == 0.0 == Mul(x, 0.0) && Mul(1.0, x) == x == Mul(x, 1.0)
  {}

  lemma MulNegative(x: real, y: real)
    ensures Mul(-x, y) == -Mul(x, y) && Mul(x, -y) == -Mul(x, y)
  {}

  lemma MulSigns(x: real, y: real)
    ensures x >= 0.0 && y >= 0.0 ==> Mul(x, y) >= 0.0
    ensures x <= 0.0 && y >= 0.0 ==> Mul(x, y) <= 0.0
    ensures x > 0.0 && y > 0.0 ==> Mul(x, y) > 0.0
  {}

  lemma Distribute(x: real, m: real, n: real)
    ensures Mul(x, m + n) == Mul(x, m) + Mul(x, n) && Mul(m + n, x) == Mul(m, x) + Mul(n, x)
  {}

  lemma DivCancel(x: real, y: real)
    requires y != 0.0
    ensures Mul(x / y, y) == x
  {}

  lemma DivBounds(x: real, y: real, low: real, high: real)
    requires y > 0.0 && Mul(low, y) <= x <= Mul(high, y)
    ensures low <= x / y <= high
  {
    DivCancel(x, y);
    var q := x / y;
    MulStrict(q, low, y);
    MulStrict(high, q, y);
    hide Mul;
  }

  /** A weighted mean lies between its arguments. */
  lemma MeanBetween(x: real, y: real, m: real, n: real, low: real, high: real)
    requires m > 0.0 && n > 0.0 && low <= x <= high && low <= y <= high
    ensures low <= (Mul(x, m) + Mul(y, n)) / (m + n) <= high
  {
    hide Mul;
    MulMonotone(x, high, m);
    MulMonotone(y, high, n);
    MulMonotone(low, x, m);
    MulMonotone(low, y, n);
    Distribute(high, m, n);
    Distribute(low, m, n);
    DivBounds(Mul(x, m) + Mul(y, n), m + n, low, high);
  }

  lemma SmallProduct(a: real, s: real, bound: real, e: real)
    requires -bound <= a <= bound && -e <= s <= e
    ensures -Mul(bound, e) <= Mul(a, s) <= Mul(bound, e)
  {
    hide Mul;
    var t := if s >= 0.0 then s else -s;
    MulMonotone(a, bound, t);
    MulMonotone(-bound, a, t);
    MulMonotone(t, e, bound);
    MulSymmetric(t, bound);
    MulSymmetric(e, bound);
    MulNegative(bound, t);
    MulNegative(a, t);
  }

  // ----- means that approach a price --------------------------------------------------------------

  /** The mean of `x` and `top` is no further from `top`. */
  lemma MeanCloser(x: real, a: real, top: real, f: real, d: real)
    requires f > 0.0 && d > 0.0 && x <= top && Mul(a, f + d) == Mul(x, f) + Mul(top, d)
    ensures a <= top && Mul(top - a, f + d) == Mul(top - x, f)
  {
    hide Mul;
    MulMonotone(x, top, f);
    Distribute(top, f, d);
    MulStrict(top, a, f + d);
    Distribute(f + d, top, -a);
    Distribute(f, top, -x);
    MulNegative(a, f + d);
    MulNegative(x, f);
    MulSymmetric(f + d, top - a);
    MulSymmetric(f + d, top);
    MulSymmetric(f + d, -a);
    MulSymmetric(f, top - x);
    MulSymmetric(f, top);
    MulSymmetric(f, -x);
  }

  /** From gap g to gap h in one step: h (f + d) = g f keeps g (f + n d) bounded. */
  lemma Approaches(g: real, h: real, f: real, d: real, n: nat, bound: real)
    requires f > 0.0 && d > 0.0 && g >= 0.0 && Mul(h, f + d) == Mul(g, f) && Mul(g, f + Mul(n as real, d)) <= bound
    ensures Mul(h, f + Mul((n + 1) as real, d)) <= bound
  {
    var e := Mul(n as real, d);
    var next := f + e + d;
    assert Mul((n + 1) as real, d) == e + d;
    MulSigns(n as real, d);
    CrossStep(f, e, d);
    hide Mul;
    Associate(h, next, f + d);
    Associate(h, f + d, next);
    MulSymmetric(next, f + d);
    Associate(g, f, next);
    Associate(g, f + e, f + d);
    MulMonotone(Mul(f, next), Mul(f + e, f + d), g);
    MulSymmetric(g, Mul(f, next));
    MulSymmetric(g, Mul(f + e, f + d));
    MulMonotone(Mul(g, f + e), bound, f + d);
    MulStrict(bound, Mul(h, next), f + d);
  }

  lemma Associate(x: real, y: real, z: real)
    ensures Mul(Mul(x, y), z) == Mul(x, Mul(y, z))
  {}

  lemma CrossStep(f: real, e: real, d: real)
    requires f > 0.0 && e >= 0.0 && d > 0.0
    ensures Mul(f, f + e + d) <= Mul(f + e, f + d)
  {
    assert (f + e) * (f + d) - f * (f + e + d) == e * d;
  }

  /** Enough steps close any gap. */
  lemma EnoughSteps(gap: real, f: real, d: real, bound: real) returns (n: nat)
    requires gap > 0.0 && f > 0.0 && d > 0.0
    ensures Mul(gap, f + Mul(n as real, d)) > bound
  {
    var unit := gap * d;
    var q := bound / unit;
    var count := if q <= 0.0 then 1 else q.Floor + 1;
    n := count;
    assert count as real * unit > bound by {
      DivCancel(bound, unit);
      MulStrict(q, count as real, unit);
    }
    assert gap * (f + n as real * d) == gap * f + n as real * unit;
  }
}
