/** One quintic Hermite patch (x(t), y(t)), t in [0, 1]. */
module Segments {
  import opened Outcomes
  import opened QuinticPolynomials
  import opened Headings
  import RealArith

  // ---------------------------------------------------------------------------
  // The fixed 6x6 system of the Hermite boundary conditions.

  /** Row k applied to the coefficients (highest degree first) gives, in order,
      f(0), f'(0), f''(0), f(1), f'(1), f''(1). */
  const CoefficientMatrix: seq<seq<real>> := [
    [0.0, 0.0, 0.0, 0.0, 0.0, 1.0],
    [0.0, 0.0, 0.0, 0.0, 1.0, 0.0],
    [0.0, 0.0, 0.0, 2.0, 0.0, 0.0],
    [1.0, 1.0, 1.0, 1.0, 1.0, 1.0],
    [5.0, 4.0, 3.0, 2.0, 1.0, 0.0],
    [20.0, 12.0, 6.0, 2.0, 0.0, 0.0]
  ]

  function Dot(row: seq<real>, cs: seq<real>): real
    requires |row| == 6 && |cs| == 6
  {
    row[0] * cs[0] + row[1] * cs[1] + row[2] * cs[2] + row[3] * cs[3] + row[4] * cs[4] + row[5] * cs[5]
  }

  /** The matrix-vector product M * cs for a 6x6 matrix. */
  function MatVec(m: seq<seq<real>>, cs: seq<real>): (r: seq<real>)
    requires |m| == 6 && |cs| == 6 && forall k :: 0 <= k < 6 ==> |m[k]| == 6
    ensures |r| == 6 && forall k :: 0 <= k < 6 ==> r[k] == Dot(m[k], cs)
  {
    [Dot(m[0], cs), Dot(m[1], cs), Dot(m[2], cs), Dot(m[3], cs), Dot(m[4], cs), Dot(m[5], cs)]
  }

  /** The six Hermite boundary values of q: value, slope and second
      derivative at t = 0, then the same at t = 1, written out as the linear
      forms of the coefficients they are. */
  function BoundaryRows(q: QuinticPolynomial): seq<real>
  {
    [q.f, q.e, 2.0 * q.d,
     q.a + q.b + q.c + q.d + q.e + q.f,
     5.0 * q.a + 4.0 * q.b + 3.0 * q.c + 2.0 * q.d + q.e,
     20.0 * q.a + 12.0 * q.b + 6.0 * q.c + 2.0 * q.d]
  }

  /** The boundary rows are the polynomial and its derivatives evaluated at
      the two ends. */
  lemma BoundaryRowsEvaluate(q: QuinticPolynomial)
    ensures BoundaryRows(q) == [Eval(q, 0.0), Eval(FirstDeriv(q), 0.0), Eval(SecondDeriv(q), 0.0),
                                Eval(q, 1.0), Eval(FirstDeriv(q), 1.0), Eval(SecondDeriv(q), 1.0)]
  {
  }

  /** Each row of the coefficient matrix is the boundary functional it is meant to be. */
  lemma CoefficientMatrixRows(q: QuinticPolynomial)
    ensures MatVec(CoefficientMatrix, Coeffs(q)) == BoundaryRows(q)
  {
    var lhs := MatVec(CoefficientMatrix, Coeffs(q));
    var rhs := BoundaryRows(q);
    forall k | 0 <= k < 6 ensures lhs[k] == rhs[k] {
    }
  }

  /** The quintic meeting value p0, slope v0 and second derivative a0 at t = 0
      and p1, v1, a1 at t = 1, in closed form. */
  function HermiteFit(p0: real, v0: real, a0: real, p1: real, v1: real, a1: real): (q: QuinticPolynomial)
    ensures q.f == p0 && q.e == v0 && 2.0 * q.d == a0
    ensures q.a + q.b + q.c + q.d + q.e + q.f == p1
    ensures 5.0 * q.a + 4.0 * q.b + 3.0 * q.c + 2.0 * q.d + q.e == v1
    ensures 20.0 * q.a + 12.0 * q.b + 6.0 * q.c + 2.0 * q.d == a1
  {
    // What the cubic, quartic and quintic terms still have to contribute at t = 1.
    var r0 := p1 - p0 - v0 - a0 / 2.0;
    var r1 := v1 - v0 - a0;
    var r2 := a1 - a0;
    QuinticPolynomial(6.0 * r0 - 3.0 * r1 + r2 / 2.0,
                      -15.0 * r0 + 7.0 * r1 - r2,
                      10.0 * r0 - 4.0 * r1 + r2 / 2.0,
                      a0 / 2.0, v0, p0)
  }

  /** The solution of the Hermite system for a boundary vector, standing for
      linalg.solve(coefficient_matrix, bc). */
  function HermiteSolve(bc: seq<real>): (q: QuinticPolynomial)
    requires |bc| == 6
    ensures BoundaryRows(q) == bc
  {
    HermiteFit(bc[0], bc[1], bc[2], bc[3], bc[4], bc[5])
  }

  /** The coefficient matrix is invertible: the Hermite solution is the only
      polynomial meeting the six boundary conditions, so it is what a dense
      solver returns. */
  lemma HermiteSolveUnique(q: QuinticPolynomial, bc: seq<real>)
    requires |bc| == 6 && MatVec(CoefficientMatrix, Coeffs(q)) == bc
    ensures q == HermiteSolve(bc)
  {
    CoefficientMatrixRows(q);
    assert BoundaryRows(q) == bc;
    var h := HermiteSolve(bc);
    assert BoundaryRows(h) == bc;
    assert q.f == h.f && q.e == h.e && q.d == h.d;
    assert q.a + q.b + q.c == h.a + h.b + h.c;
    assert 5.0 * q.a + 4.0 * q.b + 3.0 * q.c == 5.0 * h.a + 4.0 * h.b + 3.0 * h.c;
    assert 20.0 * q.a + 12.0 * q.b + 6.0 * q.c == 20.0 * h.a + 12.0 * h.b + 6.0 * h.c;
  }

  /** The Python in_range helper: x within [a, b] widened by eps on both sides. */
  function InRange(x: real, a: real, b: real, eps: real): bool
  {
    a - eps <= x <= b + eps
  }

  /** Widening never rejects a value of the closed interval, and a value
      more than eps outside it is always rejected. */
  lemma InRangeTolerance(x: real, a: real, b: real, eps: real)
    requires eps >= 0.0
    ensures a <= x <= b ==> InRange(x, a, b, eps)
    ensures x < a - eps || b + eps < x ==> !InRange(x, a, b, eps)
  {
  }

  /** The slope dy/dx, or the float('inf') sentinel for a near-vertical tangent. */
  datatype Slope = Vertical | Finite(value: real)

  /** Arc length of the curve over t in [0, 1], given x'(t) and y'(t)
      (numerical quadrature in the source). */
  type ArcLength = (QuinticPolynomial, QuinticPolynomial) -> real

  /** For a displacement s0, a root t of s(t) - s0 on [0, 1], or None when the
      root finder fails (Brent's method in the source). */
  type RootFinder = real -> Option<real>

  /** dy/dx of a tangent vector (dx, dy), with the sentinel for a nearly
      vertical tangent. */
  function SlopeOf(d: (real, real)): (r: Slope)
    ensures r == Vertical <==> RealArith.Abs(d.0) < 0.1
    ensures r.Finite? ==> r.value * d.0 == d.1
  {
    if RealArith.Abs(d.0) < 0.1 then Vertical
    else
      RealArith.QuotientTimesDivisor(d.1, d.0);
      Finite(d.1 / d.0)
  }

  class Segment {
    var xpoly: QuinticPolynomial
    var ypoly: QuinticPolynomial
    var xpolyFirstDeriv: QuinticPolynomial
    var ypolyFirstDeriv: QuinticPolynomial
    var xpolySecondDeriv: QuinticPolynomial
    var ypolySecondDeriv: QuinticPolynomial
    var length: real
    var headingInterpolator: Option<HeadingInterpolator>

    /** The derivative fields are the derivatives of the position polynomials:
        the first-derivative fields of the positions, the second-derivative
        fields of the first-derivative fields (SecondDerivIsFirstDerivTwice
        makes that the same as second_deriv of the positions). */
    ghost predicate Valid()
      reads this
    {
      && xpolyFirstDeriv == FirstDeriv(xpoly) && ypolyFirstDeriv == FirstDeriv(ypoly)
      && xpolySecondDeriv == FirstDeriv(xpolyFirstDeriv) && ypolySecondDeriv == FirstDeriv(ypolyFirstDeriv)
    }

    /** A fresh segment: all six polynomials zero, length -1 until computed. */
    constructor ()
      ensures xpoly == Zero && ypoly == Zero
      ensures xpolyFirstDeriv == Zero && ypolyFirstDeriv == Zero
      ensures xpolySecondDeriv == Zero && ypolySecondDeriv == Zero
      ensures length == -1.0 && headingInterpolator == None
      ensures Valid()
    {
      xpoly, ypoly := Zero, Zero;
      xpolyFirstDeriv, ypolyFirstDeriv := Zero, Zero;
      xpolySecondDeriv, ypolySecondDeriv := Zero, Zero;
      length := -1.0;
      headingInterpolator := None;
    }

    /** The point (x(t), y(t)) of the curve at parameter t. */
    function PointAtParameter(t: real): (r: (real, real))
      reads this
      ensures r == (Eval(xpoly, t), Eval(ypoly, t))
    {
      (Eval(xpoly, t), Eval(ypoly, t))
    }

    /** The tangent vector (x'(t), y'(t)); on a valid segment it is the
        derivative of the point polynomials. */
    function FirstDerivAtParameter(t: real): (r: (real, real))
      reads this
      ensures Valid() ==> r == (Eval(FirstDeriv(xpoly), t), Eval(FirstDeriv(ypoly), t))
    {
      (Eval(xpolyFirstDeriv, t), Eval(ypolyFirstDeriv, t))
    }

    function SecondDerivAtParameter(t: real): (r: (real, real))
      reads this
      ensures Valid() ==> r == (Eval(FirstDeriv(FirstDeriv(xpoly)), t), Eval(FirstDeriv(FirstDeriv(ypoly)), t))
    {
      SecondDerivIsFirstDerivTwice(xpoly);
      SecondDerivIsFirstDerivTwice(ypoly);
      (Eval(xpolySecondDeriv, t), Eval(ypolySecondDeriv, t))
    }

    /** The slope dy/dx of the tangent vector at t, as SlopeOf states it. */
    function TangentAtParameter(t: real): Slope
      reads this
    {
      SlopeOf(FirstDerivAtParameter(t))
    }

    /** The range check of parameter_at_displacement around the foreign root
        finder, and the final check of the root it returns. */
    function ParameterAtDisplacement(s0: real, brentq: RootFinder): (r: Result<real>)
      reads this
      ensures !InRange(s0, 0.0, length, 0.01) ==> r == Err(DisplacementOutOfRange)
      ensures InRange(s0, 0.0, length, 0.01) && brentq(s0) == None ==> r == Err(RootNotFound)
      ensures r.Ok? ==> InRange(s0, 0.0, length, 0.01) && brentq(s0) == Some(r.value)
                        && -0.01 <= r.value <= 1.01
      ensures InRange(s0, 0.0, length, 0.01) && brentq(s0).Some? ==>
                (r.Ok? <==> InRange(brentq(s0).value, 0.0, 1.0, 0.01))
      ensures r.Err? && InRange(s0, 0.0, length, 0.01) && brentq(s0).Some? ==> r == Err(ParameterOutOfRange)
    {
      if !InRange(s0, 0.0, length, 0.01) then Err(DisplacementOutOfRange)
      else match brentq(s0)
        case None => Err(RootNotFound)
        case Some(t) => if InRange(t, 0.0, 1.0, 0.01) then Ok(t) else Err(ParameterOutOfRange)
    }

    /** Points sampled at t = i / resolution for i = 0 .. resolution, as two
        coordinate lists. */
    function PlotPoints(resolution: int): (r: Result<(seq<real>, seq<real>)>)
      reads this
      ensures resolution == 0 ==> r == Err(ZeroDivision)
      ensures resolution < 0 ==> r == Ok(([], []))
      ensures resolution > 0 ==> r.Ok? && |r.value.0| == resolution + 1 && |r.value.1| == resolution + 1
      ensures resolution > 0 ==> forall i :: 0 <= i <= resolution ==>
                (r.value.0[i], r.value.1[i]) == PointAtParameter(i as real / resolution as real)
      ensures resolution > 0 ==> (r.value.0[0], r.value.1[0]) == PointAtParameter(0.0)
      ensures resolution > 0 ==> (r.value.0[resolution], r.value.1[resolution]) == PointAtParameter(1.0)
    {
      if resolution < 0 then Ok(([], []))
      else if resolution == 0 then Err(ZeroDivision)
      else
        var xp, yp, n := xpoly, ypoly, resolution as real;
        RealArith.UnitFractions(n);
        Ok((seq(resolution + 1, i => Eval(xp, i as real / n)),
            seq(resolution + 1, i => Eval(yp, i as real / n))))
    }

    /** Solve the Hermite system for both axes, refresh the derivative
        polynomials and measure the arc length. */
    method ComputeCoeffs(xDerivs: seq<real>, yDerivs: seq<real>, quad: ArcLength) returns (r: Outcome)
      modifies this
      ensures !(|xDerivs| == 6 && |yDerivs| == 6) ==> r == Fail(InvalidBoundary) && unchanged(this)
      ensures |xDerivs| == 6 && |yDerivs| == 6 ==> r == Pass
      ensures r == Pass ==> Valid() && BoundaryRows(xpoly) == xDerivs && BoundaryRows(ypoly) == yDerivs
      ensures r == Pass ==> xpoly == HermiteSolve(xDerivs) && ypoly == HermiteSolve(yDerivs)
      ensures r == Pass ==> length == quad(xpolyFirstDeriv, ypolyFirstDeriv)
      ensures headingInterpolator == old(headingInterpolator)
      ensures r == Pass ==>
        && PointAtParameter(0.0) == (xDerivs[0], yDerivs[0])
        && FirstDerivAtParameter(0.0) == (xDerivs[1], yDerivs[1])
        && SecondDerivAtParameter(0.0) == (xDerivs[2], yDerivs[2])
        && PointAtParameter(1.0) == (xDerivs[3], yDerivs[3])
        && FirstDerivAtParameter(1.0) == (xDerivs[4], yDerivs[4])
        && SecondDerivAtParameter(1.0) == (xDerivs[5], yDerivs[5])
    {
      if !(|xDerivs| == 6 && |yDerivs| == 6) {
        return Fail(InvalidBoundary);
      }
      xpoly := HermiteSolve(xDerivs);
      ypoly := HermiteSolve(yDerivs);
      xpolyFirstDeriv := FirstDeriv(xpoly);
      xpolySecondDeriv := SecondDeriv(xpoly);
      ypolyFirstDeriv := FirstDeriv(ypoly);
      ypolySecondDeriv := SecondDeriv(ypoly);
      length := quad(xpolyFirstDeriv, ypolyFirstDeriv);
      BoundaryRowsEvaluate(xpoly);
      BoundaryRowsEvaluate(ypoly);
      SecondDerivIsFirstDerivTwice(xpoly);
      SecondDerivIsFirstDerivTwice(ypoly);
      r := Pass;
    }
  }
}
