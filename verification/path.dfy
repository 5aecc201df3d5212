/** A chain of segments addressed by one global displacement axis. */
module Paths {
  import opened Outcomes
  import opened QuinticPolynomials
  import opened Segments
  import RealArith

  type Point = (real, real)

  /** An angle function of degrees, standing for math.cos(math.radians(.))
      or math.sin(math.radians(.)). */
  type DegreeTrig = real -> real

  // ---------------------------------------------------------------------------
  // Cumulative lengths.

  /** Left-to-right running total, as `self.length += ...` accumulates it. */
  function Sum(xs: seq<real>): real
  {
    if xs == [] then 0.0 else Sum(xs[..|xs| - 1]) + xs[|xs| - 1]
  }

  /** The prefix sums grow with the prefix when no length is negative. */
  lemma {:induction false} PrefixSumMonotone(xs: seq<real>, j: nat, k: nat)
    requires j <= k <= |xs|
    requires forall i :: 0 <= i < |xs| ==> 0.0 <= xs[i]
    ensures Sum(xs[..j]) <= Sum(xs[..k])
    decreases k - j
  {
    if j < k {
      PrefixSumMonotone(xs, j, k - 1);
      assert xs[..k][..k - 1] == xs[..k - 1];
    }
  }

  /** The length fields of a sequence of segments. */
  function Lengths(segs: seq<Segment>): (r: seq<real>)
    reads segs
    ensures |r| == |segs| && forall i :: 0 <= i < |segs| ==> r[i] == segs[i].length
  {
    if segs == [] then [] else Lengths(segs[..|segs| - 1]) + [segs[|segs| - 1].length]
  }

  // ---------------------------------------------------------------------------
  // The segment search of get_correct_segment.

  /** Segment k spans [R_k, R_k + len_k], R_k being the sum of the lengths before it. */
  predicate Covers(lens: seq<real>, k: nat, disp: real)
    requires k < |lens|
  {
    Sum(lens[..k]) <= disp <= Sum(lens[..k]) + lens[k]
  }

  /** The first segment at or after `from` whose span holds disp. */
  function FirstCovering(lens: seq<real>, disp: real, from: nat): (r: Option<nat>)
    requires from <= |lens|
    ensures r.Some? ==> from <= r.value < |lens| && Covers(lens, r.value, disp)
                        && forall j :: from <= j < r.value ==> !Covers(lens, j, disp)
    ensures r.None? ==> forall j :: from <= j < |lens| ==> !Covers(lens, j, disp)
    decreases |lens| - from
  {
    if from == |lens| then None
    else if Covers(lens, from, disp) then Some(from)
    else FirstCovering(lens, disp, from + 1)
  }

  lemma PrefixStep(xs: seq<real>, k: nat)
    requires k < |xs|
    ensures Sum(xs[..k + 1]) == Sum(xs[..k]) + xs[k]
  {
    assert xs[..k + 1][..k] == xs[..k];
  }

  /** Every displacement of [0, total] is covered by some segment. */
  lemma CoveredWithinTotal(lens: seq<real>, disp: real)
    requires |lens| > 0
    requires 0.0 <= disp <= Sum(lens)
    ensures FirstCovering(lens, disp, 0).Some?
  {
    // The last k with R_k <= disp covers it.
    var k := 0;
    assert lens[..0] == [];
    while k + 1 < |lens| && Sum(lens[..k + 1]) <= disp
      invariant 0 <= k < |lens| && Sum(lens[..k]) <= disp
    {
      k := k + 1;
    }
    PrefixStep(lens, k);
    assert lens[..|lens|] == lens;
    assert Covers(lens, k, disp);
  }

  /** With no negative length, nothing outside [0, total] is covered. */
  lemma NotCoveredOutsideTotal(lens: seq<real>, disp: real)
    requires forall i :: 0 <= i < |lens| ==> 0.0 <= lens[i]
    requires disp < 0.0 || Sum(lens) < disp
    ensures FirstCovering(lens, disp, 0) == None
  {
    forall k | 0 <= k < |lens| ensures !Covers(lens, k, disp) {
      PrefixSumMonotone(lens, 0, k);
      PrefixSumMonotone(lens, k + 1, |lens|);
      assert lens[..0] == [] && lens[..|lens|] == lens;
      PrefixStep(lens, k);
    }
  }

  /** Displacement 0 resolves to the first segment at local displacement 0. */
  lemma LocateStart(lens: seq<real>)
    requires |lens| > 0 && forall i :: 0 <= i < |lens| ==> 0.0 <= lens[i]
    ensures FirstCovering(lens, 0.0, 0) == Some(0) && 0.0 - Sum(lens[..0]) == 0.0
  {
    assert lens[..0] == [];
  }

  /** With positive lengths, the total length resolves to the last segment,
      at a local displacement equal to that segment's length. */
  lemma LocateEnd(lens: seq<real>)
    requires |lens| > 0 && forall i :: 0 <= i < |lens| ==> 0.0 < lens[i]
    ensures FirstCovering(lens, Sum(lens), 0) == Some(|lens| - 1)
    ensures Sum(lens) - Sum(lens[..|lens| - 1]) == lens[|lens| - 1]
  {
    var n := |lens|;
    var total := Sum(lens);
    assert lens[..n] == lens;
    PrefixStep(lens, n - 1);
    forall k | 0 <= k < n - 1 ensures !Covers(lens, k, total) {
      PrefixStep(lens, k);
      PrefixSumMonotone(lens, k + 1, n - 1);
    }
    LastCovering(lens, total, 0);
  }

  /** When no segment before the last covers disp but the last does, the
      search ends at the last. */
  lemma {:induction false} LastCovering(lens: seq<real>, disp: real, from: nat)
    requires from < |lens|
    requires forall k :: from <= k < |lens| - 1 ==> !Covers(lens, k, disp)
    requires Covers(lens, |lens| - 1, disp)
    ensures FirstCovering(lens, disp, from) == Some(|lens| - 1)
    decreases |lens| - from
  {
    if from < |lens| - 1 {
      LastCovering(lens, disp, from + 1);
    }
  }

  // ---------------------------------------------------------------------------
  // Numeric helpers of path.py.

  /** The z component of the 2-D cross product. */
  function Cross(v1: Point, v2: Point): real
  {
    v1.0 * v2.1 - v2.0 * v1.1
  }

  lemma CrossAntisymmetric(v1: Point, v2: Point)
    ensures Cross(v1, v2) == -Cross(v2, v1)
    ensures Cross(v1, v1) == 0.0
  {
  }

  /** Clamp value to [fromMin, fromMax], then map that range linearly onto
      [toMin, toMax]. A degenerate source range divides by zero. */
  function MapRange(value: real, fromMin: real, fromMax: real, toMin: real, toMax: real): (r: Result<real>)
    ensures r.Err? <==> fromMax == fromMin
    ensures r.Err? ==> r.error == ZeroDivision
    ensures fromMin < fromMax && value <= fromMin ==> r == Ok(toMin)
    ensures fromMin < fromMax && fromMax <= value ==> r == Ok(toMax)
    ensures fromMin < fromMax && toMin <= toMax ==> toMin <= r.value <= toMax
    ensures fromMin < fromMax && toMax <= toMin ==> toMax <= r.value <= toMin
  {
    var clamped := if fromMin < RealArith.Min(value, fromMax) then RealArith.Min(value, fromMax) else fromMin;
    if fromMax == fromMin then Err(ZeroDivision)
    else
      var proportion := (clamped - fromMin) / (fromMax - fromMin);
      var mapped := toMin + proportion * (toMax - toMin);
      MapRangeBetween(clamped, fromMin, fromMax, toMin, toMax, proportion, mapped);
      Ok(mapped)
  }

  lemma MapRangeBetween(clamped: real, fromMin: real, fromMax: real, toMin: real, toMax: real,
                        proportion: real, mapped: real)
    requires fromMin != fromMax
    requires proportion == (clamped - fromMin) / (fromMax - fromMin)
    requires mapped == toMin + proportion * (toMax - toMin)
    ensures fromMin < fromMax && fromMin <= clamped <= fromMax ==> 0.0 <= proportion <= 1.0
    ensures fromMin < fromMax && clamped == fromMin ==> mapped == toMin
    ensures fromMin < fromMax && clamped == fromMax ==> mapped == toMax
    ensures fromMin < fromMax && fromMin <= clamped <= fromMax && toMin <= toMax ==> toMin <= mapped <= toMax
    ensures fromMin < fromMax && fromMin <= clamped <= fromMax && toMax <= toMin ==> toMax <= mapped <= toMin
  {
    if fromMin < fromMax && fromMin <= clamped <= fromMax {
      var w := fromMax - fromMin;
      assert proportion * w == clamped - fromMin;
      if proportion < 0.0 {
        RealArith.ProductPositive(-proportion, w);
      }
      if proportion > 1.0 {
        RealArith.ProductPositive(proportion - 1.0, w);
      }
      RealArith.FractionBetween(proportion, toMax - toMin);
    }
    if fromMin < fromMax && clamped == fromMax {
      RealArith.UnitFractions(fromMax - fromMin);
    }
  }

  // ---------------------------------------------------------------------------
  // make_path.

  /** Python's points[i - 1]: for i = 0 it is the last point. */
  function PrevIndex(i: nat, n: nat): nat
    requires i < n
  {
    if i == 0 then n - 1 else i - 1
  }

  /** What the duplicate check of make_path rejects: some i in 0 .. n-2 with
      points[i] == points[i - 1] in Python's wrap-around indexing. */
  predicate FlaggedDuplicate(points: seq<Point>)
  {
    exists i :: 0 <= i < |points| - 1 && points[i] == points[PrevIndex(i, |points|)]
  }

  /** The check wraps around: a chain whose first and last points coincide is
      rejected even when all consecutive points differ. */
  lemma ClosedChainRejected(points: seq<Point>)
    requires |points| >= 2 && points[0] == points[|points| - 1]
    ensures FlaggedDuplicate(points)
  {
    assert points[0] == points[PrevIndex(0, |points|)];
  }

  /** The check never compares the last two points: with the first and last
      points distinct and no repeat among the earlier neighbours, the chain
      passes whatever its last two points are. */
  lemma LastPairUnchecked(points: seq<Point>)
    requires |points| >= 3 && points[0] != points[|points| - 1]
    requires forall i :: 1 <= i < |points| - 1 ==> points[i] != points[i - 1]
    ensures !FlaggedDuplicate(points)
  {
  }

  /** The tangent magnitude make_path gives every waypoint. The path sets it
      once, at construction, and nothing in the core changes it. */
  const ManualTangentCoefficient: real := 20.0

  /** The x and y boundary vectors handed to compute_coeffs for segment i:
      end positions, tangents of magnitude ManualTangentCoefficient along the
      given angles, and zero second derivatives. */
  function XBoundary(points: seq<Point>, tangents: seq<real>, i: nat, cosDeg: DegreeTrig): seq<real>
    requires i + 1 < |points| && |tangents| == |points|
  {
    [points[i].0, ManualTangentCoefficient * cosDeg(tangents[i]), 0.0,
     points[i + 1].0, ManualTangentCoefficient * cosDeg(tangents[i + 1]), 0.0]
  }

  function YBoundary(points: seq<Point>, tangents: seq<real>, i: nat, sinDeg: DegreeTrig): seq<real>
    requires i + 1 < |points| && |tangents| == |points|
  {
    [points[i].1, ManualTangentCoefficient * sinDeg(tangents[i]), 0.0,
     points[i + 1].1, ManualTangentCoefficient * sinDeg(tangents[i + 1]), 0.0]
  }

  /** The polynomials are the Hermite fits of segment i's boundary vectors. */
  predicate FittedBetween(xpoly: QuinticPolynomial, ypoly: QuinticPolynomial, points: seq<Point>, tangents: seq<real>,
                          i: nat, cosDeg: DegreeTrig, sinDeg: DegreeTrig)
    requires i + 1 < |points| && |tangents| == |points|
  {
    && xpoly == HermiteFit(points[i].0, ManualTangentCoefficient * cosDeg(tangents[i]), 0.0,
                           points[i + 1].0, ManualTangentCoefficient * cosDeg(tangents[i + 1]), 0.0)
    && ypoly == HermiteFit(points[i].1, ManualTangentCoefficient * sinDeg(tangents[i]), 0.0,
                           points[i + 1].1, ManualTangentCoefficient * sinDeg(tangents[i + 1]), 0.0)
  }

  /** Fitted polynomials meet the boundary vectors make_path builds: they pass
      through points i and i + 1 with the prescribed tangents and zero second
      derivatives. */
  lemma FittedMeetsBoundary(xpoly: QuinticPolynomial, ypoly: QuinticPolynomial, points: seq<Point>,
                            tangents: seq<real>, i: nat, cosDeg: DegreeTrig, sinDeg: DegreeTrig)
    requires i + 1 < |points| && |tangents| == |points|
    ensures FittedBetween(xpoly, ypoly, points, tangents, i, cosDeg, sinDeg) <==>
              BoundaryRows(xpoly) == XBoundary(points, tangents, i, cosDeg)
              && BoundaryRows(ypoly) == YBoundary(points, tangents, i, sinDeg)
  {
    FitMeetsRows(xpoly, XBoundary(points, tangents, i, cosDeg));
    FitMeetsRows(ypoly, YBoundary(points, tangents, i, sinDeg));
  }

  /** One axis of FittedMeetsBoundary: q is the Hermite fit of bc exactly when its boundary rows are bc. */
  lemma FitMeetsRows(q: QuinticPolynomial, bc: seq<real>)
    requires |bc| == 6
    ensures q == HermiteSolve(bc) <==> BoundaryRows(q) == bc
  {
    if BoundaryRows(q) == bc {
      CoefficientMatrixRows(q);
      HermiteSolveUnique(q, bc);
    }
  }

  /** len is the arc length the integrator reports for the derivative pair. */
  predicate LengthIs(len: real, quad: ArcLength, dx: QuinticPolynomial, dy: QuinticPolynomial)
  {
    len == quad(dx, dy)
  }

  /** Segment s is the one make_path builds between points i and i + 1. */
  ghost predicate Chained(s: Segment, points: seq<Point>, tangents: seq<real>, i: nat,
                          cosDeg: DegreeTrig, sinDeg: DegreeTrig, quad: ArcLength)
    requires i + 1 < |points| && |tangents| == |points|
    reads s
  {
    && s.Valid()
    && FittedBetween(s.xpoly, s.ypoly, points, tangents, i, cosDeg, sinDeg)
    && LengthIs(s.length, quad, s.xpolyFirstDeriv, s.ypolyFirstDeriv)
    && s.headingInterpolator == None
  }

  /** One iteration of make_path's loop: a fresh segment fitted between
      points i and i + 1. */
  method NewChainedSegment(points: seq<Point>, tangents: seq<real>, i: nat,
                           cosDeg: DegreeTrig, sinDeg: DegreeTrig, quad: ArcLength) returns (seg: Segment)
    requires i + 1 < |points| && |tangents| == |points|
    ensures fresh(seg) && Chained(seg, points, tangents, i, cosDeg, sinDeg, quad)
  {
    seg := new Segment();
    var _ := seg.ComputeCoeffs(XBoundary(points, tangents, i, cosDeg),
                               YBoundary(points, tangents, i, sinDeg), quad);
  }

  class Path {
    var segments: seq<Segment>
    var length: real

    constructor ()
      ensures segments == [] && length == 0.0
    {
      segments := [];
      length := 0.0;
    }

    /** The heading query of the path: always 0 (the per-segment heading
        interpolators are not consulted). */
    function HeadingAtDisplacement(disp: real): (r: real)
      ensures r == 0.0
    {
      0.0
    }

    /** Resolve a global displacement to the first segment whose span holds
        it, and the displacement relative to that segment's start. */
    method GetCorrectSegment(disp: real) returns (r: Result<(Segment, real)>)
      ensures !InRange(disp, 0.0, length, 0.01) ==> r == Err(DisplacementOutOfRange)
      ensures InRange(disp, 0.0, length, 0.01) && FirstCovering(Lengths(segments), disp, 0).None? ==>
                r == Err(SegmentNotFound)
      ensures InRange(disp, 0.0, length, 0.01) && FirstCovering(Lengths(segments), disp, 0).Some? ==>
                var k := FirstCovering(Lengths(segments), disp, 0).value;
                r == Ok((segments[k], disp - Sum(Lengths(segments)[..k])))
      ensures r.Ok? ==> 0.0 <= r.value.1 <= r.value.0.length
    {
      if !InRange(disp, 0.0, length, 0.01) {
        return Err(DisplacementOutOfRange);
      }
      ghost var lens := Lengths(segments);
      var runningDisp := 0.0;
      var k := 0;
      assert lens[..0] == [];
      while k < |segments|
        invariant 0 <= k <= |segments|
        invariant runningDisp == Sum(lens[..k])
        invariant FirstCovering(lens, disp, 0) == FirstCovering(lens, disp, k)
      {
        var segment := segments[k];
        if runningDisp <= disp <= runningDisp + segment.length {
          return Ok((segment, disp - runningDisp));
        }
        assert lens[..k + 1][..k] == lens[..k];
        runningDisp := runningDisp + segment.length;
        k := k + 1;
      }
      return Err(SegmentNotFound);
    }

    /** Validate the waypoints, then append one segment per consecutive pair
        and add its length to the running total. */
    method MakePath(points: seq<Point>, tangents: seq<real>,
                    cosDeg: DegreeTrig, sinDeg: DegreeTrig, quad: ArcLength) returns (r: Outcome)
      modifies this
      ensures |points| != |tangents| ==> r == Fail(CountMismatch)
      ensures |points| == |tangents| && |points| == 1 ==> r == Fail(TooFewPoints)
      ensures |points| == |tangents| && |points| != 1 && FlaggedDuplicate(points) ==> r == Fail(DuplicatePoints)
      ensures r == Pass <==> |points| == |tangents| && |points| != 1 && !FlaggedDuplicate(points)
      ensures r.Fail? ==> unchanged(this)
      ensures r == Pass ==> ChainAppended(points, tangents, cosDeg, sinDeg, quad, old(segments), old(length))
      ensures r == Pass ==> forall j :: |old(segments)| <= j < |segments| ==> fresh(segments[j])
    {
      if |points| != |tangents| {
        return Fail(CountMismatch);
      }
      if |points| == 1 {
        return Fail(TooFewPoints);
      }
      var i := 0;
      while i < |points| - 1
        invariant 0 <= i && (i <= |points| - 1 || i == 0)
        invariant forall j :: 0 <= j < i ==> points[j] != points[PrevIndex(j, |points|)]
      {
        if points[i] == points[PrevIndex(i, |points|)] {
          return Fail(DuplicatePoints);
        }
        i := i + 1;
      }
      ghost var added, addedLengths := ChainSegments(points, tangents, cosDeg, sinDeg, quad);
      assert segments[|old(segments)|..] == added;
      assert Lengths(added) == addedLengths;
      forall j | |old(segments)| <= j < |segments|
        ensures fresh(segments[j])
        ensures Chained(segments[j], points, tangents, j - |old(segments)|, cosDeg, sinDeg, quad)
      {
        assert segments[j] == added[j - |old(segments)|];
      }
      r := Pass;
    }

    /** After make_path succeeds: the old segments are kept, one fresh
        segment per consecutive pair of points follows them, fitted to that
        pair, and the running total grew by the new lengths. */
    ghost predicate ChainAppended(points: seq<Point>, tangents: seq<real>, cosDeg: DegreeTrig, sinDeg: DegreeTrig,
                                  quad: ArcLength, oldSegments: seq<Segment>, oldLength: real)
      requires |points| == |tangents|
      reads this, segments
    {
      && |segments| == |oldSegments| + (if |points| == 0 then 0 else |points| - 1)
      && segments[..|oldSegments|] == oldSegments
      && length == oldLength + Sum(Lengths(segments[|oldSegments|..]))
      && forall j :: |oldSegments| <= j < |segments| ==>
           Chained(segments[j], points, tangents, j - |oldSegments|, cosDeg, sinDeg, quad)
    }

    /** One pass of make_path's loop: build the segment between points i and
        i + 1, append it and add its length to the running total. */
    method AppendSegment(points: seq<Point>, tangents: seq<real>, i: nat,
                         cosDeg: DegreeTrig, sinDeg: DegreeTrig, quad: ArcLength) returns (seg: Segment)
      requires i + 1 < |points| && |tangents| == |points|
      modifies this
      ensures fresh(seg) && Chained(seg, points, tangents, i, cosDeg, sinDeg, quad)
      ensures segments == old(segments) + [seg] && length == old(length) + seg.length
    {
      seg := NewChainedSegment(points, tangents, i, cosDeg, sinDeg, quad);
      segments := segments + [seg];
      length := length + seg.length;
    }

    /** The loop of make_path that builds and appends the segments; added
        lists the new segments and addedLengths their lengths. */
    method ChainSegments(points: seq<Point>, tangents: seq<real>,
                         cosDeg: DegreeTrig, sinDeg: DegreeTrig, quad: ArcLength)
      returns (ghost added: seq<Segment>, ghost addedLengths: seq<real>)
      requires |points| == |tangents|
      modifies this
      ensures |added| == |addedLengths| == (if |points| == 0 then 0 else |points| - 1)
      ensures segments == old(segments) + added
      ensures length == old(length) + Sum(addedLengths)
      ensures forall j :: 0 <= j < |added| ==> fresh(added[j])
      ensures forall j :: 0 <= j < |added| ==> added[j].length == addedLengths[j]
      ensures forall j :: 0 <= j < |added| ==> Chained(added[j], points, tangents, j, cosDeg, sinDeg, quad)
    {
      added, addedLengths := [], [];
      var i := 0;
      while i < |points| - 1
        invariant 0 <= i && (i <= |points| - 1 || i == 0) && |added| == i && |addedLengths| == i
        invariant segments == old(segments) + added
        invariant length == old(length) + Sum(addedLengths)
        invariant forall j :: 0 <= j < |added| ==>
                    && fresh(added[j]) && added[j].length == addedLengths[j]
                    && Chained(added[j], points, tangents, j, cosDeg, sinDeg, quad)
      {
        var seg := AppendSegment(points, tangents, i, cosDeg, sinDeg, quad);
        assert (addedLengths + [seg.length])[..i] == addedLengths;
        added := added + [seg];
        addedLengths := addedLengths + [seg.length];
        i := i + 1;
      }
    }
  }
}
