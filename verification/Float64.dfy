/** Rounding of numbers that are not negative to float64, with exponents of any size. */
module Float64 {
  /** The unit roundoff of float64, two to the power -53. */
  const U: real := 1.0 / 9007199254740992.0

  function Abs(x: real): real { if x < 0.0 then -x else x }

  /** All that error bounds need of a rounded result. */
  predicate Near(x: real, y: real) {
    Abs(y - x) <= U * Abs(x)
  }

  function Pow2(k: nat): (p: nat)
    ensures p > 0
  {
    if k == 0 then 1 else 2 * Pow2(k - 1)
  }

  /** A power of two, with an exponent of either sign. */
  ghost predicate PowerOfTwo(p: real) {
    exists j: nat, k: nat :: IsRatio(p, Pow2(j), Pow2(k))
  }

  predicate IsRatio(p: real, a: nat, b: nat) {
    p * b as real == a as real
  }

  /** The least 53-bit mantissa, two to the power 52. */
  const MANTISSA: nat := 4503599627370496

  /** `y` is m / p with a 53-bit mantissa m, `x` lies in the same binade and is at most half a
      unit away, and half way m is even. */
  ghost predicate IsNearest(x: real, y: real, p: real, m: nat) {
    && PowerOfTwo(p) && MANTISSA <= m <= 2 * MANTISSA && y * p == m as real
    && IsMantissa(x * p) && WithinHalf(x * p, m)
  }

  predicate IsMantissa(x: real) {
    MANTISSA as real <= x < 2.0 * MANTISSA as real
  }

  predicate WithinHalf(x: real, m: nat) {
    m as real - 0.5 <= x <= m as real + 0.5 && (x == m as real - 0.5 || x == m as real + 0.5 ==> m % 2 == 0)
  }

  /** The float64 nearest to a number that is not negative, half way the even one. */
  ghost predicate Nearest(x: real, y: real) {
    (x == 0.0 && y == 0.0) || exists p, m: nat :: IsNearest(x, y, p, m)
  }

  lemma CancelFactor(a: real, b: real, p: real)
    requires p > 0.0 && a * p <= b * p
    ensures a <= b
  {
  }

  lemma Regroup(a: real, b: real, c: real)
    ensures (a * b) * c == a * (b * c)
  {
  }

  lemma ScaleMonotone(a: real, b: real, x: real)
    requires a <= b && x >= 0.0
    ensures a * x <= b * x
  {
  }

  // ---------------------------------------------------------------------------
  // Error

  lemma PowerIsPositive(p: real)
    requires PowerOfTwo(p)
    ensures p > 0.0
  {
  }

  lemma NearestIsNear(x: real, y: real)
    requires Nearest(x, y)
    ensures Near(x, y) && x >= 0.0 && y >= 0.0
  {
    if p, m: nat :| IsNearest(x, y, p, m) {
      PowerIsPositive(p);
      ScaledNear(x, y, p);
    }
  }

  lemma ScaledNear(x: real, y: real, p: real)
    requires p > 0.0 && x * p >= 4503599627370496.0 && -0.5 <= y * p - x * p <= 0.5
    ensures Near(x, y) && x > 0.0 && y > 0.0
  {
    CancelFactor(0.0, x, p);
    CancelFactor(0.0, y, p);
    Regroup(U, x, p);
    Difference(x, y, p, (U * x) * p);
    CancelFactor(y - x, U * x, p);
    CancelFactor(x - y, U * x, p);
  }

  lemma Difference(x: real, y: real, p: real, d: real)
    requires d >= 0.5 && -0.5 <= y * p - x * p <= 0.5
    ensures (y - x) * p <= d && (x - y) * p <= d
  {
  }

  // ---------------------------------------------------------------------------
  // Powers of two

  lemma {:induction false} Pow2Adds(a: nat, b: nat)
    ensures Pow2(a + b) == Pow2(a) * Pow2(b)
  {
    if a > 0 {
      Pow2Adds(a - 1, b);
    }
  }

  lemma {:induction false} Pow2Grows(a: nat, b: nat)
    requires a < b
    ensures 2 * Pow2(a) <= Pow2(b)
  {
    if a < b - 1 {
      Pow2Grows(a, b - 1);
    }
  }

  lemma RatioTimes(p: real, a: nat, b: nat, q: real, c: nat, d: nat)
    requires IsRatio(p, a, b) && IsRatio(q, c, d)
    ensures IsRatio(p * q, a * c, b * d)
  {
    var x, y := b as real, d as real;
    Casts(a, c);
    Casts(b, d);
    Exchange(p, q, x, y);
  }

  lemma Casts(a: nat, b: nat)
    ensures (a * b) as real == a as real * b as real
  {
  }

  lemma Exchange(p: real, q: real, x: real, y: real)
    ensures (p * q) * (x * y) == (p * x) * (q * y)
  {
    Regroup(p, q, x * y);
    assert q * (x * y) == x * (q * y);
    Regroup(p, x, q * y);
  }

  lemma Times(p: real, q: real)
    requires PowerOfTwo(p) && PowerOfTwo(q)
    ensures PowerOfTwo(p * q)
  {
    var j: nat, k: nat :| IsRatio(p, Pow2(j), Pow2(k));
    var l: nat, m: nat :| IsRatio(q, Pow2(l), Pow2(m));
    RatioTimes(p, Pow2(j), Pow2(k), q, Pow2(l), Pow2(m));
    Pow2Adds(j, l);
    Pow2Adds(k, m);
    assert IsRatio(p * q, Pow2(j + l), Pow2(k + m));
  }

  lemma OverRatio(r: real, q: real, a: nat, b: nat, c: nat, d: nat)
    requires IsRatio(r * q, a, b) && IsRatio(q, c, d)
    ensures IsRatio(r, a * d, c * b)
  {
    var x, y := b as real, d as real;
    Casts(a, d);
    Casts(c, b);
    Regroup(q, y, x);
    Regroup(r, q * y, x);
    assert (r * (q * y)) * x == ((r * q) * x) * y by {
      Regroup(r, q, y);
      Swap(r * q, x, y);
    }
  }

  lemma Swap(a: real, b: real, c: real)
    ensures (a * b) * c == (a * c) * b
  {
  }

  lemma Over(r: real, q: real)
    requires PowerOfTwo(r * q) && PowerOfTwo(q)
    ensures PowerOfTwo(r)
  {
    var j: nat, k: nat :| IsRatio(r * q, Pow2(j), Pow2(k));
    var l: nat, m: nat :| IsRatio(q, Pow2(l), Pow2(m));
    OverRatio(r, q, Pow2(j), Pow2(k), Pow2(l), Pow2(m));
    Pow2Adds(j, m);
    Pow2Adds(l, k);
    assert IsRatio(r, Pow2(j + m), Pow2(l + k));
  }

  lemma IsPower(k: nat, p: real)
    requires p == Pow2(k) as real
    ensures PowerOfTwo(p)
  {
    assert IsRatio(p, Pow2(k), Pow2(0));
  }

  lemma TwoIsPower()
    ensures PowerOfTwo(1.0) && PowerOfTwo(2.0)
  {
    IsPower(0, 1.0);
    IsPower(1, 2.0);
  }

  /** One, a whole number from two on, or at most a half. */
  lemma WholeOrSmall(p: real)
    requires PowerOfTwo(p)
    ensures p == 1.0 || 0.0 < p <= 0.5 || (p >= 2.0 && p == p.Floor as real)
  {
    var j: nat, k: nat :| IsRatio(p, Pow2(j), Pow2(k));
    if j < k {
      Pow2Grows(j, k);
      SmallRatio(p, Pow2(j), Pow2(k));
    } else {
      Pow2Adds(j - k, k);
      WholeRatio(p, Pow2(j - k), Pow2(k));
      if j > k {
        Pow2Grows(0, j - k);
      }
    }
  }

  lemma SmallRatio(p: real, a: nat, b: nat)
    requires IsRatio(p, a, b) && 0 < 2 * a <= b
    ensures 0.0 < p <= 0.5
  {
    CancelFactor(p, 0.5, b as real);
    CancelFactor(0.0, p, b as real);
  }

  lemma WholeRatio(p: real, a: nat, b: nat)
    requires b > 0 && IsRatio(p, a * b, b)
    ensures p == a as real
  {
    Casts(a, b);
    CancelFactor(p, a as real, b as real);
    CancelFactor(a as real, p, b as real);
  }

  // ---------------------------------------------------------------------------
  // Rounding is a function on all numbers, and keeps its results

  /** A power of two that scales `x`, which is z / p, to a mantissa. */
  lemma Binade(x: real, p: real, z: real) returns (q: real, w: real)
    requires PowerOfTwo(p) && z == x * p && 0.0 < z
    ensures PowerOfTwo(q) && w == x * q && IsMantissa(w)
  {
    if z < MANTISSA as real {
      var n := StepsUp(z);
      q, w := BinadeAbove(x, p, z, n);
    } else {
      q, w := BinadeBelow(x, p, z);
    }
  }

  lemma StepsUp(z: real) returns (n: nat)
    requires z > 0.0
    ensures z * n as real >= MANTISSA as real
  {
    var q := MANTISSA as real / z;
    assert q * z == MANTISSA as real && q >= 0.0;
    n := q.Floor + 1;
    ScaleMonotone(q, n as real, z);
  }

  lemma BinadeAbove(x: real, p: real, z: real, n: nat) returns (q: real, w: real)
    requires PowerOfTwo(p) && z == x * p && 0.0 < z < 2.0 * MANTISSA as real
    requires z * n as real >= MANTISSA as real
    ensures PowerOfTwo(q) && w == x * q && IsMantissa(w)
    decreases n
  {
    if z >= MANTISSA as real {
      return p, z;
    }
    Neighbours(x, p, z);
    var h := HalfSteps(z, n);
    q, w := BinadeAbove(x, p * 2.0, z * 2.0, h);
  }

  lemma HalfSteps(z: real, n: nat) returns (h: nat)
    requires 0.0 < z < MANTISSA as real <= z * n as real
    ensures h < n && (z * 2.0) * h as real >= MANTISSA as real
  {
    h := (n + 1) / 2;
    if n <= 1 {
      ScaleMonotone(n as real, 1.0, z);
    }
    assert n <= 2 * h;
    Regroup(z, 2.0, h as real);
    ScaleMonotone(n as real, 2.0 * h as real, z);
  }

  lemma BinadeBelow(x: real, p: real, z: real) returns (q: real, w: real)
    requires PowerOfTwo(p) && z == x * p && z >= MANTISSA as real
    ensures PowerOfTwo(q) && w == x * q && IsMantissa(w)
    decreases z.Floor
  {
    if z < 2.0 * MANTISSA as real {
      return p, z;
    }
    Neighbours(x, p, z);
    q, w := BinadeBelow(x, p / 2.0, z / 2.0);
  }

  lemma Neighbours(x: real, p: real, z: real)
    requires PowerOfTwo(p) && z == x * p
    ensures PowerOfTwo(p * 2.0) && x * (p * 2.0) == z * 2.0
    ensures PowerOfTwo(p / 2.0) && x * (p / 2.0) == z / 2.0
  {
    TwoIsPower();
    Times(p, 2.0);
    assert (p / 2.0) * 2.0 == p;
    Over(p / 2.0, 2.0);
  }

  lemma MantissaOf(z: real) returns (m: nat)
    requires IsMantissa(z)
    ensures MANTISSA <= m <= 2 * MANTISSA && WithinHalf(z, m)
  {
    var n := z.Floor;
    m := if z < n as real + 0.5 || (z == n as real + 0.5 && n % 2 == 0) then n else n + 1;
  }

  lemma RoundOf(x: real) returns (y: real)
    requires x >= 0.0
    ensures Nearest(x, y)
  {
    if x == 0.0 {
      return 0.0;
    }
    TwoIsPower();
    var p, z := Binade(x, 1.0, x);
    PowerIsPositive(p);
    var m := MantissaOf(z);
    y := m as real / p;
    assert y * p == m as real;
    assert IsNearest(x, y, p, m);
  }

  lemma RoundsTo(x: real, y: real, p: real, m: nat)
    requires PowerOfTwo(p) && MANTISSA <= m <= 2 * MANTISSA && y * p == m as real
    requires IsMantissa(x * p) && WithinHalf(x * p, m)
    ensures Nearest(x, y)
  {
    assert IsNearest(x, y, p, m);
  }

  lemma ExactWhenWhole(x: real, y: real, p: real, m: nat, n: int)
    requires IsNearest(x, y, p, m) && x * p == n as real
    ensures y == x
  {
    PowerIsPositive(p);
    assert m == n;
    CancelFactor(x, y, p);
    CancelFactor(y, x, p);
  }

  lemma ScaleOf(p: real, q: real) returns (f: real)
    requires PowerOfTwo(p) && PowerOfTwo(q)
    ensures PowerOfTwo(f) && f * p == q
  {
    PowerIsPositive(p);
    f := q / p;
    assert f * p == q;
    Over(f, p);
  }

  /** A rounded number rounds to itself. */
  lemma RoundsOnce(x: real, y: real, z: real)
    requires Nearest(x, y) && Nearest(y, z)
    ensures z == y
  {
    if p, m: nat :| IsNearest(x, y, p, m) {
      MantissaRoundsOnce(y, z, p, m);
    }
  }

  lemma MantissaRoundsOnce(y: real, z: real, p: real, m: nat)
    requires PowerOfTwo(p) && MANTISSA <= m <= 2 * MANTISSA && y * p == m as real && Nearest(y, z)
    ensures z == y
  {
    if q, n: nat :| IsNearest(y, z, q, n) {
      var f := ScaleOf(p, q);
      var k := WholeProduct(m, f, y * q) by {
        Product(y, p, f, m as real, q);
      }
      ExactWhenWhole(y, z, q, n, k);
    }
  }

  lemma Product(y: real, p: real, f: real, m: real, q: real)
    requires y * p == m && f * p == q
    ensures y * q == m * f
  {
    Regroup(y, p, f);
  }

  lemma AtMostHalf(f: real, m: real)
    requires f <= 0.5 && m >= 0.0
    ensures m * f <= m / 2.0
  {
    assert m * (0.5 - f) >= 0.0;
  }

  lemma WholeProduct(m: nat, f: real, v: real) returns (k: nat)
    requires PowerOfTwo(f) && m <= 2 * MANTISSA && v == m as real * f && v >= MANTISSA as real
    ensures v == k as real
  {
    WholeOrSmall(f);
    if f <= 0.5 {
      AtMostHalf(f, m as real);
      k := MANTISSA;
    } else {
      k := m * f.Floor;
      Casts(m, f.Floor);
    }
  }

  // Rounding commutes with powers of two

  lemma ScaledUp(x: real, y: real, f: real, x': real, y': real)
    requires Nearest(x, y) && PowerOfTwo(f) && x' == x * f && y' == y * f
    ensures Nearest(x', y')
  {
    if p, m: nat :| IsNearest(x, y, p, m) {
      var q := ScaleOf(f, p);
      Carried(x, f, x', q, p);
      Carried(y, f, y', q, p);
      Moved(x, y, p, m, x', y', q);
    }
  }

  lemma Carried(x: real, f: real, x': real, q: real, p: real)
    requires x' == x * f && q * f == p
    ensures x' * q == x * p
  {
  }

  lemma ScaledDown(x: real, y: real, f: real, x': real, y': real)
    requires Nearest(x', y') && PowerOfTwo(f) && x' == x * f && y' == y * f
    ensures Nearest(x, y)
  {
    var g := ScaleOf(f, 1.0) by {
      TwoIsPower();
    }
    Carried(x, f, x', g, 1.0);
    Carried(y, f, y', g, 1.0);
    ScaledUp(x', y', g, x, y);
  }

  lemma Moved(x: real, y: real, p: real, m: nat, x': real, y': real, q: real)
    requires IsNearest(x, y, p, m) && PowerOfTwo(q) && x' * q == x * p && y' * q == y * p
    ensures Nearest(x', y')
  {
    assert IsNearest(x', y', q, m);
  }

  lemma WholeRoundsToItself(n: nat)
    requires n < 2 * MANTISSA
    ensures Nearest(n as real, n as real)
  {
    var x := n as real;
    var y := RoundOf(x);
    if p, m: nat :| IsNearest(x, y, p, m) {
      WholeIsExact(n, x, y, p, m);
    }
  }

  lemma WholeIsExact(n: nat, x: real, y: real, p: real, m: nat)
    requires n < 2 * MANTISSA && x == n as real && IsNearest(x, y, p, m)
    ensures y == x
  {
    var k := WholeProduct(n, p, x * p);
    ExactWhenWhole(x, y, p, m, k);
  }
}
