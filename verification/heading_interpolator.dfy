/** Heading interpolation over one segment's parameter t in [0, 1]. */
module Headings {
  import opened Outcomes
  import RealArith

  datatype InterpolatorType = Constant | Linear | Spline | Tangent

  /** `segment` is the owning segment, held by reference and never read. */
  datatype HeadingInterpolator = HeadingInterpolator(
    segment: object?, startAngleRad: real, endAngleRad: real, kind: InterpolatorType)

  /** The constructor: only a constant interpolator with different end angles is refused. */
  function NewHeadingInterpolator(segment: object?, startAngleRad: real, endAngleRad: real,
                                  kind: InterpolatorType): (r: Result<HeadingInterpolator>)
    ensures r.Err? <==> kind == Constant && startAngleRad != endAngleRad
    ensures r.Err? ==> r.error == HeadingMismatch
    ensures r.Ok? ==> r.value.segment == segment && r.value.startAngleRad == startAngleRad
                      && r.value.endAngleRad == endAngleRad && r.value.kind == kind
  {
    if kind == Constant && startAngleRad != endAngleRad then Err(HeadingMismatch)
    else Ok(HeadingInterpolator(segment, startAngleRad, endAngleRad, kind))
  }

  /** Linear interpolation between a (at t = 0) and b (at t = 1). */
  function Lerp(a: real, b: real, t: real): (r: real)
    ensures t == 0.0 ==> r == a
    ensures t == 1.0 ==> r == b
    ensures 0.0 <= t <= 1.0 ==> (a <= r <= b) || (b <= r <= a)
  {
    var r := (1.0 - t) * a + t * b;
    LerpBetween(a, b, t, r);
    r
  }

  lemma LerpBetween(a: real, b: real, t: real, r: real)
    requires r == (1.0 - t) * a + t * b
    ensures 0.0 <= t <= 1.0 ==> (a <= r <= b) || (b <= r <= a)
  {
    if 0.0 <= t <= 1.0 {
      var d := b - a;
      assert r == a + t * d;
      RealArith.FractionBetween(t, d);
      if d >= 0.0 {
        assert 0.0 <= t * d <= d;
        assert a <= r <= b;
      } else {
        assert d <= t * d <= 0.0;
        assert b <= r <= a;
      }
    }
  }

  /** The heading at parameter t. The spline and tangent modes are
      unimplemented in the source and fall through to 0. */
  function HeadingAtParameter(h: HeadingInterpolator, t: real): (r: real)
    ensures h.kind == Constant ==> r == h.startAngleRad
    ensures h.kind == Linear ==> r == Lerp(h.startAngleRad, h.endAngleRad, t)
    ensures h.kind == Spline || h.kind == Tangent ==> r == 0.0
  {
    match h.kind
    case Constant => h.startAngleRad
    case Linear => Lerp(h.startAngleRad, h.endAngleRad, t)
    case Spline => 0.0
    case Tangent => 0.0
  }

  /** A constant interpolator that construction accepted reports the same
      heading at every parameter, and that heading is also its end angle. */
  lemma ConstantHeadingIsEndAngle(segment: object?, angle: real, endAngle: real, t: real)
    requires NewHeadingInterpolator(segment, angle, endAngle, Constant).Ok?
    ensures HeadingAtParameter(NewHeadingInterpolator(segment, angle, endAngle, Constant).value, t) == endAngle
  {
  }

  /** A linear interpolator starts at its start angle and ends at its end angle. */
  lemma LinearHeadingEndpoints(h: HeadingInterpolator)
    requires h.kind == Linear
    ensures HeadingAtParameter(h, 0.0) == h.startAngleRad
    ensures HeadingAtParameter(h, 1.0) == h.endAngleRad
  {
  }
}
