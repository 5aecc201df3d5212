/** A clamped piecewise-linear lookup table over sampled (x, y) pairs. */
module InterpLUTs {
  import opened Outcomes
  import opened RealArith

  /** The first index k at or after from with x <= xs[k]: where the scan of
      lookup stops. */
  function Bracket(xs: seq<real>, x: real, from: nat): (k: nat)
    requires from < |xs| && x <= xs[|xs| - 1]
    ensures from <= k < |xs| && x <= xs[k]
    ensures forall j :: from <= j < k ==> xs[j] < x
    decreases |xs| - from
  {
    if x <= xs[from] then from else Bracket(xs, x, from + 1)
  }

  /** Python's xs[-1]: the last element, IndexError on an empty list. */
  function Last(xs: seq<real>): (r: Result<real>)
    ensures r.Ok? <==> 0 < |xs|
    ensures r.Ok? ==> r.value == xs[|xs| - 1]
  {
    if |xs| == 0 then Err(IndexOutOfRange) else Ok(xs[|xs| - 1])
  }

  /** Python's xs[0]. */
  function First(xs: seq<real>): (r: Result<real>)
    ensures r.Ok? <==> 0 < |xs|
    ensures r.Ok? ==> r.value == xs[0]
  {
    if |xs| == 0 then Err(IndexOutOfRange) else Ok(xs[0])
  }

  /** The straight line through (x0, y0) and (x1, y1) at x; dividing by
      x1 - x0 fails when the two abscissas coincide. */
  function Lerp(x: real, x0: real, x1: real, y0: real, y1: real): (r: Result<real>)
    ensures r.Err? <==> x1 == x0
    ensures r.Err? ==> r.error == ZeroDivision
    ensures r.Ok? && x == x0 ==> r.value == y0
    ensures r.Ok? && x == x1 ==> r.value == y1
  {
    if x1 == x0 then Err(ZeroDivision)
    else
      var q := (y1 - y0) / (x1 - x0);
      assert (x1 - x0) * q == y1 - y0 by { QuotientTimesDivisor(y1 - y0, x1 - x0); }
      Ok(y0 + (x - x0) * q)
  }

  /** For x between x0 < x1, the line lies between y0 and y1. */
  lemma LerpBetween(x: real, x0: real, x1: real, y0: real, y1: real)
    requires x0 < x1 && x0 <= x <= x1
    ensures Lerp(x, x0, x1, y0, y1).Ok?
    ensures var v := Lerp(x, x0, x1, y0, y1).value;
            (y0 <= y1 ==> y0 <= v <= y1) && (y1 <= y0 ==> y1 <= v <= y0)
  {
    var t := (x - x0) / (x1 - x0);
    QuotientTimesDivisor(x - x0, x1 - x0);
    QuotientSign(x - x0, x1 - x0);
    FractionAtMostOne(x - x0, x1 - x0);
    var q := (y1 - y0) / (x1 - x0);
    QuotientTimesDivisor(y1 - y0, x1 - x0);
    assert (x - x0) * q == t * (y1 - y0) by {
      assert (x - x0) * q == (t * (x1 - x0)) * q;
      assert (t * (x1 - x0)) * q == t * ((x1 - x0) * q);
    }
    FractionBetween(t, y1 - y0);
  }

  lemma FractionAtMostOne(a: real, b: real)
    requires 0.0 <= a <= b && 0.0 < b
    ensures a / b <= 1.0
  {
    var t := a / b;
    QuotientTimesDivisor(a, b);
    if t > 1.0 {
      ProductPositive(t - 1.0, b);
    }
  }

  /** What lookup returns for x. */
  function LookupValue(xs: seq<real>, ys: seq<real>, x: real): Result<real>
  {
    if |xs| == 0 then Err(IndexOutOfRange)
    else if x <= xs[0] then First(ys)
    else if x >= xs[|xs| - 1] then Last(ys)
    else
      var k := Bracket(xs, x, 0);
      if k >= |ys| then Err(IndexOutOfRange)
      else Lerp(x, xs[k - 1], xs[k], ys[k - 1], ys[k])
  }

  /** A lookup table; the sample lists are set once and never changed. */
  class InterpLUT {
    const xValues: seq<real>
    const yValues: seq<real>

    constructor (x: seq<real>, y: seq<real>)
      ensures xValues == x && yValues == y
    {
      xValues := x;
      yValues := y;
    }

    /** Clamp below the first and above the last abscissa, otherwise scan to
        the first abscissa at or above x and interpolate from its predecessor. */
    method Lookup(x: real) returns (r: Result<real>)
      ensures r == LookupValue(xValues, yValues, x)
      ensures r.Err? ==> r.error == IndexOutOfRange
    {
      if |xValues| == 0 {
        return Err(IndexOutOfRange);
      }
      if x <= xValues[0] {
        return First(yValues);
      }
      if x >= xValues[|xValues| - 1] {
        return Last(yValues);
      }
      var idx := 0;
      while x > xValues[idx]
        invariant 0 <= idx < |xValues|
        invariant forall j :: 0 <= j < idx ==> xValues[j] < x
        decreases |xValues| - idx
      {
        idx := idx + 1;
      }
      assert idx == Bracket(xValues, x, 0) by {
        BracketIsFirst(xValues, x, 0, idx);
      }
      if idx >= |yValues| {
        return Err(IndexOutOfRange);
      }
      var x0, x1 := xValues[idx - 1], xValues[idx];
      var y0, y1 := yValues[idx - 1], yValues[idx];
      return Lerp(x, x0, x1, y0, y1);
    }
  }

  /** Any index k at or after from with x <= xs[k] and nothing smaller before it is the bracket. */
  lemma {:induction false} BracketIsFirst(xs: seq<real>, x: real, from: nat, k: nat)
    requires from <= k < |xs| && x <= xs[k] && x <= xs[|xs| - 1]
    requires forall j :: from <= j < k ==> xs[j] < x
    ensures Bracket(xs, x, from) == k
    decreases k - from
  {
    if from < k {
      BracketIsFirst(xs, x, from + 1, k);
    }
  }

  /** Outside the table the value is clamped to the first or last y. */
  lemma LookupClamps(xs: seq<real>, ys: seq<real>, x: real)
    requires 0 < |xs| && 0 < |ys|
    ensures x <= xs[0] ==> LookupValue(xs, ys, x) == Ok(ys[0])
    ensures xs[0] < x && xs[|xs| - 1] <= x ==> LookupValue(xs, ys, x) == Ok(ys[|ys| - 1])
  {
  }

  /** Inside the table the scan stops at an index 1 <= k <= last with
      xs[k - 1] < x <= xs[k], so the division in lerp is never by zero and,
      with as many y values as x values, the value lies between y[k - 1] and y[k]. */
  lemma LookupInterior(xs: seq<real>, ys: seq<real>, x: real)
    requires 0 < |xs| && xs[0] < x < xs[|xs| - 1]
    ensures var k := Bracket(xs, x, 0);
            && 1 <= k <= |xs| - 1
            && xs[k - 1] < x <= xs[k]
            && (k < |ys| ==> LookupValue(xs, ys, x) == Lerp(x, xs[k - 1], xs[k], ys[k - 1], ys[k]))
            && (k < |ys| ==> LookupValue(xs, ys, x).Ok?)
            && (k < |ys| && ys[k - 1] <= ys[k] ==> ys[k - 1] <= LookupValue(xs, ys, x).value <= ys[k])
            && (k < |ys| && ys[k] <= ys[k - 1] ==> ys[k] <= LookupValue(xs, ys, x).value <= ys[k - 1])
  {
    var k := Bracket(xs, x, 0);
    LerpBetween(x, xs[k - 1], xs[k], 0.0, 0.0);
    if k < |ys| {
      LerpBetween(x, xs[k - 1], xs[k], ys[k - 1], ys[k]);
    }
  }

  predicate StrictlyIncreasing(xs: seq<real>)
  {
    forall i, j :: 0 <= i < j < |xs| ==> xs[i] < xs[j]
  }

  /** At a sample abscissa of a strictly increasing table the lookup is exact. */
  lemma LookupExactAtSamples(xs: seq<real>, ys: seq<real>, j: nat)
    requires StrictlyIncreasing(xs) && |ys| == |xs| && j < |xs|
    ensures LookupValue(xs, ys, xs[j]) == Ok(ys[j])
  {
    var x := xs[j];
    if 0 < j < |xs| - 1 {
      BracketIsFirst(xs, x, 0, j);
    }
  }
}
