/** Small facts about real arithmetic used by several components. */
module RealArith {

  function Abs(x: real): (r: real)
    ensures r >= 0.0 && (r == x || r == -x)
  {
    if x < 0.0 then -x else x
  }

  /** Python's two-argument min on numbers. */
  function Min(x: real, y: real): (r: real)
    ensures r <= x && r <= y && (r == x || r == y)
  {
    if y < x then y else x
  }

  lemma ProductNonNegative(x: real, y: real)
    requires 0.0 <= x && 0.0 <= y
    ensures 0.0 <= x * y
  {
  }

  lemma ProductPositive(x: real, y: real)
    requires 0.0 < x && 0.0 < y
    ensures 0.0 < x * y
  {
  }

  lemma QuotientTimesDivisor(y: real, x: real)
    requires x != 0.0
    ensures (y / x) * x == y
  {
  }

  /** Dividing by a positive number keeps the sign of the dividend. */
  lemma QuotientSign(y: real, x: real)
    requires 0.0 < x
    ensures 0.0 <= y ==> 0.0 <= y / x
    ensures 0.0 < y ==> 0.0 < y / x
  {
    QuotientTimesDivisor(y, x);
    if y / x < 0.0 {
      ProductPositive(-(y / x), x);
    }
  }

  lemma UnitFractions(n: real)
    requires n != 0.0
    ensures 0.0 / n == 0.0 && n / n == 1.0
  {
  }

  /** A fraction t in [0, 1] of d lies between 0 and d. */
  lemma FractionBetween(t: real, d: real)
    ensures 0.0 <= t <= 1.0 && d >= 0.0 ==> 0.0 <= t * d <= d
    ensures 0.0 <= t <= 1.0 && d <= 0.0 ==> d <= t * d <= 0.0
  {
    if 0.0 <= t <= 1.0 {
      var u := 1.0 - t;
      assert d - t * d == u * d;
      if d >= 0.0 {
        ProductNonNegative(u, d);
        ProductNonNegative(t, d);
      } else {
        ProductNonNegative(u, -d);
        ProductNonNegative(t, -d);
        assert u * (-d) == -(u * d);
        assert t * (-d) == -(t * d);
      }
    }
  }

  /** Squaring is monotone on non-negative reals. */
  lemma SquareMonotone(x: real, y: real)
    requires 0.0 <= x <= y
    ensures x * x <= y * y
  {
    ProductNonNegative(x, y - x);
    ProductNonNegative(y, y - x);
    assert x * y - x * x == x * (y - x);
    assert y * y - x * y == y * (y - x);
  }

  /** ... and so is its inverse. */
  lemma SquareRootMonotone(x: real, y: real)
    requires 0.0 <= x && 0.0 <= y && x * x <= y * y
    ensures x <= y
  {
    if y < x {
      SquareMonotone(y, x);
      ProductPositive(x + y, x - y);
    }
  }
}
