/** A degree-5 polynomial a t^5 + b t^4 + c t^3 + d t^2 + e t + f,
    coefficients stored highest degree first. */
module QuinticPolynomials {
  import opened Outcomes

  datatype QuinticPolynomial = QuinticPolynomial(a: real, b: real, c: real, d: real, e: real, f: real)

  const Zero := QuinticPolynomial(0.0, 0.0, 0.0, 0.0, 0.0, 0.0)

  /** The coefficients as a sequence, highest degree first. */
  function Coeffs(p: QuinticPolynomial): (cs: seq<real>)
    ensures |cs| == 6
  {
    [p.a, p.b, p.c, p.d, p.e, p.f]
  }

  /** The two shapes of argument the Python constructor distinguishes:
      `QuinticPolynomial(a, b, c, d, e, f)` passes the numbers separately,
      `QuinticPolynomial(cs)` passes one sequence. */
  datatype CoeffArgs = Separate(args: seq<real>) | Packed(coeffs: seq<real>)

  /** The constructor: six separate numbers, or one six-element sequence. */
  function FromArgs(args: CoeffArgs): (r: Result<QuinticPolynomial>)
    ensures r.Ok? <==> (args.Separate? && |args.args| == 6) || (args.Packed? && |args.coeffs| == 6)
    ensures r.Ok? && args.Separate? ==> Coeffs(r.value) == args.args
    ensures r.Ok? && args.Packed? ==> Coeffs(r.value) == args.coeffs
    ensures args == Separate([]) ==> r == Err(MissingArgument)
    ensures args.Separate? && 0 < |args.args| != 6 ==> r == Err(NotASequence)
    ensures args.Packed? && |args.coeffs| != 6 ==> r == Err(InvalidCoefficients)
  {
    match args
    case Separate(xs) =>
      if |xs| == 6 then Ok(QuinticPolynomial(xs[0], xs[1], xs[2], xs[3], xs[4], xs[5]))
      else if |xs| == 0 then Err(MissingArgument)
      else Err(NotASequence)
    case Packed(cs) =>
      if |cs| == 6 then Ok(QuinticPolynomial(cs[0], cs[1], cs[2], cs[3], cs[4], cs[5]))
      else Err(InvalidCoefficients)
  }

  /** Power-sum evaluation at t. */
  function Eval(p: QuinticPolynomial, t: real): (r: real)
    ensures t == 0.0 ==> r == p.f
    ensures t == 1.0 ==> r == p.a + p.b + p.c + p.d + p.e + p.f
  {
    p.a * (t * t * t * t * t) + p.b * (t * t * t * t) + p.c * (t * t * t) + p.d * (t * t) + p.e * t + p.f
  }

  /** The derivative, by the power rule; the vacated t^5 slot becomes 0. */
  function FirstDeriv(p: QuinticPolynomial): (q: QuinticPolynomial)
    ensures q.a == 0.0
  {
    QuinticPolynomial(0.0, 5.0 * p.a, 4.0 * p.b, 3.0 * p.c, 2.0 * p.d, p.e)
  }

  /** The second derivative, computed directly from the coefficients. */
  function SecondDeriv(p: QuinticPolynomial): (q: QuinticPolynomial)
    ensures q.a == 0.0 && q.b == 0.0
  {
    QuinticPolynomial(0.0, 0.0, 20.0 * p.a, 12.0 * p.b, 6.0 * p.c, 2.0 * p.d)
  }

  /** The slope at 0 is the linear coefficient and the second derivative at
      0 is twice the quadratic one. */
  lemma DerivativesAtZero(p: QuinticPolynomial)
    ensures Eval(FirstDeriv(p), 0.0) == p.e
    ensures Eval(SecondDeriv(p), 0.0) == 2.0 * p.d
  {
  }

  /** The directly computed second derivative is the first derivative taken twice. */
  lemma SecondDerivIsFirstDerivTwice(p: QuinticPolynomial)
    ensures SecondDeriv(p) == FirstDeriv(FirstDeriv(p))
  {
  }

  // ---------------------------------------------------------------------------
  // A reference definition on coefficient sequences of any length, used as the
  // independent statement of the power rule and of power-sum evaluation.

  /** t^n */
  function Pow(t: real, n: nat): real
  {
    if n == 0 then 1.0 else t * Pow(t, n - 1)
  }

  /** Sum of cs[i] * t^(|cs|-1-i): coefficients highest degree first. */
  function EvalSeq(cs: seq<real>, t: real): real
  {
    if cs == [] then 0.0 else cs[0] * Pow(t, |cs| - 1) + EvalSeq(cs[1..], t)
  }

  /** Differentiate a coefficient sequence (highest degree first) of fixed
      length: each coefficient is multiplied by its exponent and moves one
      slot towards the low-degree end; the highest slot becomes 0. */
  function PowerRule(cs: seq<real>): (ds: seq<real>)
    requires |cs| > 0
    ensures |ds| == |cs| && ds[0] == 0.0
    ensures forall i :: 1 <= i < |cs| ==> ds[i] == (|cs| - i) as real * cs[i - 1]
  {
    [0.0] + seq(|cs| - 1, i requires 0 <= i < |cs| - 1 => (|cs| - 1 - i) as real * cs[i])
  }

  /** FirstDeriv and SecondDeriv are the power rule applied once and twice. */
  lemma DerivativesFollowPowerRule(p: QuinticPolynomial)
    ensures Coeffs(FirstDeriv(p)) == PowerRule(Coeffs(p))
    ensures Coeffs(SecondDeriv(p)) == PowerRule(PowerRule(Coeffs(p)))
  {
    var cs := Coeffs(p);
    var d1 := PowerRule(cs);
    assert d1[1] == 5.0 * p.a && d1[2] == 4.0 * p.b && d1[3] == 3.0 * p.c;
    assert d1[4] == 2.0 * p.d && d1[5] == 1.0 * p.e;
    assert d1 == [0.0, 5.0 * p.a, 4.0 * p.b, 3.0 * p.c, 2.0 * p.d, 1.0 * p.e];
    var d2 := PowerRule(d1);
    assert d2[1] == 5.0 * d1[0] && d2[2] == 4.0 * d1[1] && d2[3] == 3.0 * d1[2];
    assert d2[4] == 2.0 * d1[3] && d2[5] == 1.0 * d1[4];
    assert d2 == [0.0, 0.0, 4.0 * (5.0 * p.a), 3.0 * (4.0 * p.b), 2.0 * (3.0 * p.c), 1.0 * (2.0 * p.d)];
  }

  /** The power sum Eval computes is the generic power sum of its coefficients. */
  lemma {:induction false} EvalIsPowerSum(p: QuinticPolynomial, t: real)
    ensures Eval(p, t) == EvalSeq(Coeffs(p), t)
  {
    var cs := Coeffs(p);
    assert Pow(t, 0) == 1.0;
    assert Pow(t, 1) == t;
    assert Pow(t, 2) == t * t;
    assert Pow(t, 3) == t * t * t;
    assert Pow(t, 4) == t * t * t * t;
    assert Pow(t, 5) == t * t * t * t * t;
    assert cs[1..] == [p.b, p.c, p.d, p.e, p.f];
    assert cs[1..][1..] == [p.c, p.d, p.e, p.f];
    assert cs[1..][1..][1..] == [p.d, p.e, p.f];
    assert cs[1..][1..][1..][1..] == [p.e, p.f];
    assert cs[1..][1..][1..][1..][1..] == [p.f];
    assert cs[1..][1..][1..][1..][1..][1..] == [];
    calc {
      EvalSeq(cs, t);
      p.a * Pow(t, 5) + EvalSeq([p.b, p.c, p.d, p.e, p.f], t);
      p.a * Pow(t, 5) + p.b * Pow(t, 4) + EvalSeq([p.c, p.d, p.e, p.f], t);
      p.a * Pow(t, 5) + p.b * Pow(t, 4) + p.c * Pow(t, 3) + EvalSeq([p.d, p.e, p.f], t);
      p.a * Pow(t, 5) + p.b * Pow(t, 4) + p.c * Pow(t, 3) + p.d * Pow(t, 2) + EvalSeq([p.e, p.f], t);
      p.a * Pow(t, 5) + p.b * Pow(t, 4) + p.c * Pow(t, 3) + p.d * Pow(t, 2) + p.e * Pow(t, 1) + EvalSeq([p.f], t);
      { assert EvalSeq([p.f], t) == p.f * Pow(t, 0) + EvalSeq([], t); }
      Eval(p, t);
    }
  }
}
