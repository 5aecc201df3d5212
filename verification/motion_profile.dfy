/** Speed planning along a path: placing samples, the forward and backward
    acceleration passes, and the expansion of the speed profile into time. */
module MotionProfiles {
  import opened Outcomes
  import opened RealArith
  import Paths

  /** One entry [s, v] of the displacement profile. */
  datatype Sample = Sample(displacement: real, speed: real)

  /** The kinematic record stored in the time profiles; jerk is never set and stays 0. */
  datatype KinematicState = KinematicState(position: real, velocity: real, acceleration: real, jerk: real)

  /** An entry [t, value] of a time-indexed profile. */
  datatype Timed<T> = Timed(time: real, value: T)

  /** The limits the profile is built with. */
  datatype Limits = Limits(maxVel: real, maxAcc: real, maxAngVel: real, maxAngAcc: real)

  /** math.sqrt, supplied by the caller. */
  type Sqrt = real -> real

  /** sqrt is a square root on the non-negative reals. */
  ghost predicate IsSqrt(sqrt: Sqrt)
  {
    forall x :: 0.0 <= x ==> 0.0 <= sqrt(x) && sqrt(x) * sqrt(x) == x
  }

  // ---------------------------------------------------------------------------
  // Sampling.

  /** The speed cap from angular acceleration at curvature kappa: none on a
      nearly straight stretch, otherwise maxAngAcc / |kappa|. */
  datatype SpeedCap = Unbounded | AtMost(cap: real)

  function AngularSpeedCap(curvature: real, maxAngAcc: real): (r: SpeedCap)
    ensures r.Unbounded? <==> Abs(curvature) < 0.001
    ensures r.AtMost? ==> r.cap * Abs(curvature) == maxAngAcc
  {
    if Abs(curvature) < 0.001 then Unbounded
    else
      QuotientTimesDivisor(maxAngAcc, Abs(curvature));
      AtMost(maxAngAcc / Abs(curvature))
  }

  /** min(max_vel, cap), an unbounded cap leaving max_vel. */
  function PlanningSpeed(maxVel: real, cap: SpeedCap): (r: real)
    ensures r <= maxVel
    ensures cap.AtMost? ==> r <= cap.cap
    ensures r == maxVel || (cap.AtMost? && r == cap.cap)
  {
    match cap
    case Unbounded => maxVel
    case AtMost(c) => Min(maxVel, c)
  }

  /** numpy.linspace(0, length, n)[i]. */
  function SamplePoint(length: real, n: nat, i: nat): (s: real)
    requires i < n
    ensures i == 0 ==> s == 0.0
    ensures n > 1 && i == n - 1 ==> s == length
    ensures 0.0 <= length ==> 0.0 <= s <= length
  {
    if n == 1 then 0.0
    else
      var step := length / (n - 1) as real;
      var s := i as real * step;
      SamplePointBetween(length, n, i, step, s);
      s
  }

  lemma SamplePointBetween(length: real, n: nat, i: nat, step: real, s: real)
    requires 1 < n && i < n && step == length / (n - 1) as real && s == i as real * step
    ensures i == n - 1 ==> s == length
    ensures 0.0 <= length ==> 0.0 <= s <= length
  {
    var m := (n - 1) as real;
    assert step * m == length;
    if 0.0 <= length {
      ProductNonNegative(i as real, step);
      assert length - s == (m - i as real) * step;
      ProductNonNegative(m - i as real, step);
    }
  }

  /** Entry i of the displacement profile once the samples are placed and the
      end entries overwritten: (0, startVel) first, (length, endVel) last, and
      in between the planning speed at the sampled displacement. */
  function StageOne(length: real, n: nat, startVel: real, endVel: real, limits: Limits,
                    curvatureAt: real -> real, i: nat): Sample
    requires i < n
  {
    if i == n - 1 then Sample(length, endVel)
    else if i == 0 then Sample(0.0, startVel)
    else
      PlannedSample(length, n, limits, curvatureAt, i)
  }

  /** Sample i as the sampling loop places it: linspace displacement, planning speed. */
  function PlannedSample(length: real, n: nat, limits: Limits, curvatureAt: real -> real, i: nat): Sample
    requires i < n
  {
    var s := SamplePoint(length, n, i);
    Sample(s, PlanningSpeed(limits.maxVel, AngularSpeedCap(curvatureAt(s), limits.maxAngAcc)))
  }

  /** The sampling loop and the two end overwrites of make_profile. A negative
      count fails in linspace; an empty profile fails on the first overwrite. */
  method PlaceSamples(length: real, numPoints: int, startVel: real, endVel: real, limits: Limits,
                      curvatureAt: real -> real) returns (r: Result<seq<Sample>>)
    ensures numPoints < 0 ==> r == Err(NegativeSampleCount)
    ensures numPoints == 0 ==> r == Err(IndexOutOfRange)
    ensures 0 < numPoints ==> r.Ok? && |r.value| == numPoints
    ensures r.Ok? ==> r.value == StageOneProfile(length, numPoints, startVel, endVel, limits, curvatureAt)
  {
    if numPoints < 0 {
      return Err(NegativeSampleCount);
    }
    var n: nat := numPoints;
    var profile: seq<Sample> := [];
    var i := 0;
    while i < n
      invariant 0 <= i <= n && |profile| == i
      invariant forall k :: 0 <= k < i ==> profile[k] == PlannedSample(length, n, limits, curvatureAt, k)
    {
      var s := SamplePoint(length, n, i);
      var cap := AngularSpeedCap(curvatureAt(s), limits.maxAngAcc);
      profile := profile + [Sample(s, PlanningSpeed(limits.maxVel, cap))];
      assert profile[i] == PlannedSample(length, n, limits, curvatureAt, i);
      i := i + 1;
    }
    if n == 0 {
      return Err(IndexOutOfRange);
    }
    profile := profile[0 := Sample(0.0, startVel)];
    profile := profile[n - 1 := Sample(length, endVel)];
    assert profile == StageOneProfile(length, n, startVel, endVel, limits, curvatureAt);
    return Ok(profile);
  }

  /** The first entry is (0, start_vel) and the last (length, end_vel); a
      single sample is (length, end_vel). */
  lemma StageOneEnds(length: real, n: nat, startVel: real, endVel: real, limits: Limits, curvatureAt: real -> real)
    requires 0 < n
    ensures StageOne(length, n, startVel, endVel, limits, curvatureAt, n - 1) == Sample(length, endVel)
    ensures 1 < n ==> StageOne(length, n, startVel, endVel, limits, curvatureAt, 0) == Sample(0.0, startVel)
  {
  }

  /** Interior speeds respect max_vel and, where the path bends, the angular
      acceleration cap: v * |kappa| <= max_ang_acc. */
  lemma StageOneInteriorCapped(length: real, n: nat, startVel: real, endVel: real, limits: Limits,
                               curvatureAt: real -> real, i: nat)
    requires 0 < i < n - 1
    ensures var e := StageOne(length, n, startVel, endVel, limits, curvatureAt, i);
            var kappa := curvatureAt(e.displacement);
            && e.speed <= limits.maxVel
            && (0.001 <= Abs(kappa) ==> e.speed * Abs(kappa) <= limits.maxAngAcc)
  {
    var e := StageOne(length, n, startVel, endVel, limits, curvatureAt, i);
    var kappa := curvatureAt(e.displacement);
    var cap := AngularSpeedCap(kappa, limits.maxAngAcc);
    if 0.001 <= Abs(kappa) {
      assert e.speed <= cap.cap;
      ProductNonNegative(cap.cap - e.speed, Abs(kappa));
      assert (cap.cap - e.speed) * Abs(kappa) == cap.cap * Abs(kappa) - e.speed * Abs(kappa);
    }
  }

  // ---------------------------------------------------------------------------
  // The acceleration passes.

  /** ds between sample i - 1 and sample i. */
  function Ds(p: seq<Sample>, i: nat): real
    requires 1 <= i < |p|
  {
    p[i].displacement - p[i - 1].displacement
  }

  /** The largest squared speed reachable from speed v over ds at acceleration a. */
  function Radicand(v: real, a: real, ds: real): real
  {
    v * v + 2.0 * a * ds
  }

  /** v_i^2 <= v_{i-1}^2 + 2 a ds_i: sample i is reachable from sample i - 1. */
  predicate ForwardOk(p: seq<Sample>, i: nat, a: real)
    requires 1 <= i < |p|
  {
    p[i].speed * p[i].speed <= Radicand(p[i - 1].speed, a, Ds(p, i))
  }

  /** v_{i-1}^2 <= v_i^2 + 2 a ds_i: sample i - 1 can brake down to sample i. */
  predicate BackwardOk(p: seq<Sample>, i: nat, a: real)
    requires 1 <= i < |p|
  {
    p[i - 1].speed * p[i - 1].speed <= Radicand(p[i].speed, a, Ds(p, i))
  }

  predicate ForwardFeasible(p: seq<Sample>, a: real)
  {
    forall i :: 1 <= i < |p| ==> ForwardOk(p, i, a)
  }

  predicate BackwardFeasible(p: seq<Sample>, a: real)
  {
    forall i :: 1 <= i < |p| ==> BackwardOk(p, i, a)
  }

  /** What the passes assume to be meaningful: a non-negative acceleration
      limit, non-negative speeds and non-decreasing displacements. */
  predicate Admissible(p: seq<Sample>, a: real)
  {
    && 0.0 <= a
    && (forall i :: 0 <= i < |p| ==> 0.0 <= p[i].speed)
    && Spaced(p)
  }

  /** The displacements do not decrease along the profile. */
  predicate Spaced(p: seq<Sample>)
  {
    forall i :: 1 <= i < |p| ==> 0.0 <= Ds(p, i)
  }

  /** Both passes only lower speeds, and keep every displacement. */
  predicate Lowered(p: seq<Sample>, q: seq<Sample>)
  {
    && |q| == |p|
    && forall i :: 0 <= i < |p| ==> q[i].displacement == p[i].displacement && q[i].speed <= p[i].speed
  }

  /** The new speed of sample i in the forward pass, from the already limited
      speed of sample i - 1. */
  function ForwardSpeed(prevSpeed: real, speed: real, a: real, ds: real, sqrt: Sqrt): real
  {
    if speed <= prevSpeed then speed else Min(sqrt(Radicand(prevSpeed, a, ds)), speed)
  }

  /** The new speed of sample i - 1 in the backward pass, from the already
      limited speed of sample i. */
  function BackwardSpeed(speed: real, prevSpeed: real, a: real, ds: real, sqrt: Sqrt): real
  {
    if speed >= prevSpeed then prevSpeed else Min(sqrt(Radicand(speed, a, ds)), prevSpeed)
  }

  lemma RadicandNonNegative(v: real, a: real, ds: real)
    requires 0.0 <= a && 0.0 <= ds
    ensures 0.0 <= v * v <= Radicand(v, a, ds)
  {
    ProductNonNegative(a, ds);
    assert 2.0 * a * ds == 2.0 * (a * ds);
    if v < 0.0 {
      ProductNonNegative(-v, -v);
    } else {
      ProductNonNegative(v, v);
    }
  }

  /** A kept speed no higher than the reference speed is reachable from it. */
  lemma KeptSpeedReachable(kept: real, from: real, a: real, ds: real)
    requires 0.0 <= kept <= from && 0.0 <= a && 0.0 <= ds
    ensures kept * kept <= Radicand(from, a, ds)
  {
    SquareMonotone(kept, from);
    RadicandNonNegative(from, a, ds);
  }

  /** A speed capped at the square root of a radicand is reachable. */
  lemma CappedSpeedReachable(m: real, other: real, root: real, radicand: real)
    requires 0.0 <= root && root * root == radicand && 0.0 <= other && m == Min(root, other)
    ensures 0.0 <= m <= root && m * m <= radicand
  {
    SquareMonotone(m, root);
  }

  /** math.sqrt raises ValueError on a negative argument; the forward step at
      sample i only takes a root when the speed has to be lowered. */
  predicate ForwardDefined(prevSpeed: real, speed: real, a: real, ds: real)
  {
    speed <= prevSpeed || 0.0 <= Radicand(prevSpeed, a, ds)
  }

  predicate BackwardDefined(speed: real, prevSpeed: real, a: real, ds: real)
  {
    speed >= prevSpeed || 0.0 <= Radicand(speed, a, ds)
  }

  /** out[i] is what the forward pass makes of sample i, given the new out[i - 1]. */
  predicate ForwardStepped(p: seq<Sample>, out: seq<Sample>, a: real, sqrt: Sqrt, i: nat)
    requires 1 <= i < |p| == |out|
  {
    && ForwardDefined(out[i - 1].speed, p[i].speed, a, Ds(p, i))
    && out[i] == Sample(p[i].displacement, ForwardSpeed(out[i - 1].speed, p[i].speed, a, Ds(p, i), sqrt))
  }

  /** The forward pass has handled samples 1 .. k - 1 and left the rest alone. */
  predicate ForwardDoneUpTo(p: seq<Sample>, out: seq<Sample>, a: real, sqrt: Sqrt, k: nat)
    requires |p| == |out|
  {
    && (0 < |p| ==> out[0] == p[0])
    && (forall i :: 1 <= i < k && i < |p| ==> ForwardStepped(p, out, a, sqrt, i))
    && (forall i :: k <= i < |p| ==> out[i] == p[i])
  }

  /** out[i - 1] is what the backward pass makes of sample i - 1, given the new out[i]. */
  predicate BackwardStepped(p: seq<Sample>, out: seq<Sample>, a: real, sqrt: Sqrt, i: nat)
    requires 1 <= i < |p| == |out|
  {
    && BackwardDefined(out[i].speed, p[i - 1].speed, a, Ds(p, i))
    && out[i - 1] == Sample(p[i - 1].displacement, BackwardSpeed(out[i].speed, p[i - 1].speed, a, Ds(p, i), sqrt))
  }

  /** The backward pass has handled samples |p| - 2 down to k - 1 and left the rest alone. */
  predicate BackwardDoneDownTo(p: seq<Sample>, out: seq<Sample>, a: real, sqrt: Sqrt, k: nat)
    requires |p| == |out|
  {
    && (0 < |p| ==> out[|p| - 1] == p[|p| - 1])
    && (forall i :: k <= i < |p| && 1 <= i ==> BackwardStepped(p, out, a, sqrt, i))
    && (forall i :: 0 <= i < k - 1 && i < |p| ==> out[i] == p[i])
  }

  /** Samples 1 .. k - 1 are reachable from their predecessors. */
  predicate ForwardFeasibleUpTo(p: seq<Sample>, a: real, k: nat)
  {
    forall j :: 1 <= j < k && j < |p| ==> ForwardOk(p, j, a)
  }

  /** One forward step: writing the new speed of sample i extends what has
      been handled, and lowers nothing but sample i. */
  lemma ForwardAdvance(p: seq<Sample>, before: seq<Sample>, out: seq<Sample>, a: real, sqrt: Sqrt, i: nat)
    requires 1 <= i < |p| == |before|
    requires ForwardDoneUpTo(p, before, a, sqrt, i) && Lowered(p, before)
    requires ForwardDefined(before[i - 1].speed, p[i].speed, a, Ds(p, i))
    requires out == before[i := Sample(p[i].displacement, ForwardSpeed(before[i - 1].speed, p[i].speed, a, Ds(p, i), sqrt))]
    ensures ForwardDoneUpTo(p, out, a, sqrt, i + 1) && Lowered(p, out)
  {
    assert ForwardStepped(p, out, a, sqrt, i);
    forall j | 1 <= j < i
      ensures ForwardStepped(p, out, a, sqrt, j)
    {
      assert ForwardStepped(p, before, a, sqrt, j);
    }
  }

  /** On admissible input with a true square root, a forward step keeps the
      speeds non-negative and makes sample i reachable from sample i - 1. */
  lemma ForwardAdvanceFeasible(p: seq<Sample>, before: seq<Sample>, out: seq<Sample>, a: real, sqrt: Sqrt, i: nat)
    requires 1 <= i < |p| == |before|
    requires Admissible(p, a) && IsSqrt(sqrt)
    requires Lowered(p, before) && Admissible(before, a) && ForwardFeasibleUpTo(before, a, i)
    requires before[i] == p[i]
    requires out == before[i := Sample(p[i].displacement, ForwardSpeed(before[i - 1].speed, p[i].speed, a, Ds(p, i), sqrt))]
    ensures Admissible(out, a) && ForwardFeasibleUpTo(out, a, i + 1)
  {
    var prev, cur, ds := before[i - 1].speed, p[i].speed, Ds(p, i);
    assert Ds(before, i) == ds;
    if cur <= prev {
      KeptSpeedReachable(cur, prev, a, ds);
    } else {
      RadicandNonNegative(prev, a, ds);
      SquareMonotone(0.0, prev);
      CappedSpeedReachable(out[i].speed, cur, sqrt(Radicand(prev, a, ds)), Radicand(prev, a, ds));
    }
    assert ForwardOk(out, i, a);
    forall j | 1 <= j < i
      ensures ForwardOk(out, j, a)
    {
      assert ForwardOk(before, j, a);
    }
    forall j | 1 <= j < |out|
      ensures 0.0 <= Ds(out, j)
    {
      assert Ds(out, j) == Ds(p, j);
    }
  }

  /** The forward pass of make_profile: each sample whose speed exceeds its
      predecessor's is lowered to what max_acc lets it reach. A negative
      radicand stops the pass with a domain error, leaving the samples
      handled so far updated. */
  method ForwardPass(profile: seq<Sample>, maxAcc: real, sqrt: Sqrt) returns (out: seq<Sample>, r: Outcome)
    ensures |out| == |profile|
    ensures Lowered(profile, out)
    ensures r.Fail? ==> r.error == MathDomain
    ensures r == Pass ==> ForwardDoneUpTo(profile, out, maxAcc, sqrt, |profile|)
    ensures r.Fail? ==> exists k :: (1 <= k < |profile|
              && ForwardDoneUpTo(profile, out, maxAcc, sqrt, k)
              && !ForwardDefined(out[k - 1].speed, profile[k].speed, maxAcc, Ds(profile, k)))
    ensures 0.0 <= maxAcc && Spaced(profile) ==> r == Pass
    ensures Admissible(profile, maxAcc) && IsSqrt(sqrt) ==> Admissible(out, maxAcc) && ForwardFeasible(out, maxAcc)
  {
    out := profile;
    ghost var feasible := Admissible(profile, maxAcc) && IsSqrt(sqrt);
    var i := 1;
    while i < |out|
      invariant 1 <= i && |out| == |profile|
      invariant Lowered(profile, out)
      invariant ForwardDoneUpTo(profile, out, maxAcc, sqrt, i)
      invariant feasible ==> Admissible(out, maxAcc) && ForwardFeasibleUpTo(out, maxAcc, i)
    {
      ghost var before := out;
      var prev := out[i - 1].speed;
      var cur := out[i].speed;
      var ds := out[i].displacement - out[i - 1].displacement;
      assert ds == Ds(profile, i);
      if cur <= prev {
        assert out == before[i := Sample(profile[i].displacement, ForwardSpeed(prev, profile[i].speed, maxAcc, ds, sqrt))];
      } else {
        var radicand := prev * prev + 2.0 * maxAcc * ds;
        if radicand < 0.0 {
          if 0.0 <= maxAcc && Spaced(profile) {
            RadicandNonNegative(prev, maxAcc, ds);
          }
          assert ForwardDoneUpTo(profile, out, maxAcc, sqrt, i)
              && !ForwardDefined(out[i - 1].speed, profile[i].speed, maxAcc, Ds(profile, i));
          return out, Fail(MathDomain);
        }
        var m := Min(sqrt(radicand), cur);
        assert radicand == Radicand(prev, maxAcc, ds) && m == ForwardSpeed(prev, profile[i].speed, maxAcc, ds, sqrt);
        out := out[i := Sample(out[i].displacement, m)];
      }
      ForwardAdvance(profile, before, out, maxAcc, sqrt, i);
      if feasible {
        ForwardAdvanceFeasible(profile, before, out, maxAcc, sqrt, i);
      }
      i := i + 1;
    }
    return out, Pass;
  }

  /** Samples k - 1 .. |p| - 2 can brake down to their successors. */
  predicate BackwardFeasibleFrom(p: seq<Sample>, a: real, k: nat)
  {
    forall j :: k <= j < |p| && 1 <= j ==> BackwardOk(p, j, a)
  }

  /** One backward step: writing the new speed of sample i - 1 extends what
      has been handled, and lowers nothing but sample i - 1. */
  lemma BackwardAdvance(p: seq<Sample>, before: seq<Sample>, out: seq<Sample>, a: real, sqrt: Sqrt, i: nat)
    requires 1 <= i < |p| == |before|
    requires BackwardDoneDownTo(p, before, a, sqrt, i + 1) && Lowered(p, before)
    requires BackwardDefined(before[i].speed, p[i - 1].speed, a, Ds(p, i))
    requires out == before[i - 1 := Sample(p[i - 1].displacement, BackwardSpeed(before[i].speed, p[i - 1].speed, a, Ds(p, i), sqrt))]
    ensures BackwardDoneDownTo(p, out, a, sqrt, i) && Lowered(p, out)
  {
    assert BackwardStepped(p, out, a, sqrt, i);
    forall j | i < j < |p|
      ensures BackwardStepped(p, out, a, sqrt, j)
    {
      assert BackwardStepped(p, before, a, sqrt, j);
    }
  }

  /** On admissible input with a true square root, a backward step keeps the
      speeds non-negative and lets sample i - 1 brake down to sample i. */
  lemma BackwardAdvanceFeasible(p: seq<Sample>, before: seq<Sample>, out: seq<Sample>, a: real, sqrt: Sqrt, i: nat)
    requires 1 <= i < |p| == |before|
    requires Admissible(p, a) && IsSqrt(sqrt)
    requires Lowered(p, before) && Admissible(before, a) && BackwardFeasibleFrom(before, a, i + 1)
    requires before[i - 1] == p[i - 1]
    requires out == before[i - 1 := Sample(p[i - 1].displacement, BackwardSpeed(before[i].speed, p[i - 1].speed, a, Ds(p, i), sqrt))]
    ensures Admissible(out, a) && BackwardFeasibleFrom(out, a, i)
  {
    var prev, cur, ds := p[i - 1].speed, before[i].speed, Ds(p, i);
    assert Ds(before, i) == ds;
    if cur >= prev {
      KeptSpeedReachable(prev, cur, a, ds);
    } else {
      RadicandNonNegative(cur, a, ds);
      SquareMonotone(0.0, cur);
      CappedSpeedReachable(out[i - 1].speed, prev, sqrt(Radicand(cur, a, ds)), Radicand(cur, a, ds));
    }
    assert BackwardOk(out, i, a);
    forall j | i < j < |p|
      ensures BackwardOk(out, j, a)
    {
      assert BackwardOk(before, j, a);
    }
    forall j | 1 <= j < |out|
      ensures 0.0 <= Ds(out, j)
    {
      assert Ds(out, j) == Ds(p, j);
    }
  }

  /** Lowering a speed prev that could reach cur to the backward-pass speed m
      keeps it non-negative, no faster than prev, and still able to reach cur. */
  lemma BackwardSpeedStillReaches(prev: real, cur: real, a: real, ds: real, sqrt: Sqrt)
    requires 0.0 <= a && 0.0 <= ds && 0.0 <= prev && 0.0 <= cur && IsSqrt(sqrt)
    requires cur * cur <= Radicand(prev, a, ds)
    ensures var m := BackwardSpeed(cur, prev, a, ds, sqrt);
            0.0 <= m <= prev && cur * cur <= Radicand(m, a, ds)
  {
    var m := BackwardSpeed(cur, prev, a, ds, sqrt);
    if cur < prev {
      RadicandNonNegative(cur, a, ds);
      SquareMonotone(0.0, cur);
      CappedSpeedReachable(m, prev, sqrt(Radicand(cur, a, ds)), Radicand(cur, a, ds));
      if m != prev {
        var root := sqrt(Radicand(cur, a, ds));
        assert m == root && root * root == Radicand(cur, a, ds);
        ProductNonNegative(a, ds);
        assert 2.0 * a * ds == 2.0 * (a * ds);
      }
    }
  }

  /** A speed reachable at full value is reachable when lowered. */
  lemma SlowerStillReachable(m: real, v: real, radicand: real)
    requires 0.0 <= m <= v && v * v <= radicand
    ensures m * m <= radicand
  {
    SquareMonotone(m, v);
  }

  /** A backward step leaves every sample reachable from its predecessor:
      lowering sample i - 1 never lowers it below what sample i needs. */
  lemma BackwardAdvanceKeepsForward(p: seq<Sample>, before: seq<Sample>, out: seq<Sample>, a: real, sqrt: Sqrt, i: nat)
    requires 1 <= i < |p| == |before|
    requires Admissible(p, a) && IsSqrt(sqrt)
    requires Lowered(p, before) && Admissible(before, a) && ForwardFeasible(before, a)
    requires before[i - 1] == p[i - 1]
    requires out == before[i - 1 := Sample(p[i - 1].displacement, BackwardSpeed(before[i].speed, p[i - 1].speed, a, Ds(p, i), sqrt))]
    ensures ForwardFeasible(out, a)
  {
    var prev, cur, ds := p[i - 1].speed, before[i].speed, Ds(p, i);
    var m := out[i - 1].speed;
    assert Ds(before, i) == ds && Ds(out, i) == ds;
    assert ForwardOk(before, i, a);
    assert 0.0 <= prev && 0.0 <= cur && 0.0 <= ds;
    BackwardSpeedStillReaches(prev, cur, a, ds, sqrt);
    assert ForwardOk(out, i, a);
    if 2 <= i {
      assert ForwardOk(before, i - 1, a);
      assert Ds(out, i - 1) == Ds(before, i - 1) && out[i - 2] == before[i - 2];
      SlowerStillReachable(m, prev, Radicand(before[i - 2].speed, a, Ds(before, i - 1)));
      assert ForwardOk(out, i - 1, a);
    }
    forall j | 1 <= j < |out| && j != i && j != i - 1
      ensures ForwardOk(out, j, a)
    {
      assert ForwardOk(before, j, a);
    }
  }

  /** The backward pass of make_profile: from the end, each sample faster than
      its successor is lowered to the speed from which max_acc can still brake
      down to it. A negative radicand stops the pass with a domain error. */
  method BackwardPass(profile: seq<Sample>, maxAcc: real, sqrt: Sqrt) returns (out: seq<Sample>, r: Outcome)
    ensures |out| == |profile|
    ensures Lowered(profile, out)
    ensures r.Fail? ==> r.error == MathDomain
    ensures r == Pass ==> BackwardDoneDownTo(profile, out, maxAcc, sqrt, 1)
    ensures r.Fail? ==> exists k :: (1 <= k < |profile|
              && BackwardDoneDownTo(profile, out, maxAcc, sqrt, k + 1)
              && !BackwardDefined(out[k].speed, profile[k - 1].speed, maxAcc, Ds(profile, k)))
    ensures 0.0 <= maxAcc && Spaced(profile) ==> r == Pass
    ensures Admissible(profile, maxAcc) && IsSqrt(sqrt) ==> Admissible(out, maxAcc) && BackwardFeasible(out, maxAcc)
    ensures Admissible(profile, maxAcc) && IsSqrt(sqrt) && ForwardFeasible(profile, maxAcc) ==> ForwardFeasible(out, maxAcc)
  {
    out := profile;
    ghost var feasible := Admissible(profile, maxAcc) && IsSqrt(sqrt);
    ghost var forward := feasible && ForwardFeasible(profile, maxAcc);
    var i := |out| - 1;
    while i > 0
      invariant -1 <= i < |out| == |profile|
      invariant Lowered(profile, out)
      invariant BackwardDoneDownTo(profile, out, maxAcc, sqrt, i + 1)
      invariant feasible ==> Admissible(out, maxAcc) && BackwardFeasibleFrom(out, maxAcc, i + 1)
      invariant forward ==> ForwardFeasible(out, maxAcc)
    {
      ghost var before := out;
      var cur := out[i].speed;
      var prev := out[i - 1].speed;
      var ds := out[i].displacement - out[i - 1].displacement;
      assert ds == Ds(profile, i) && out[i - 1] == profile[i - 1];
      if cur >= prev {
        assert out == before[i - 1 := Sample(profile[i - 1].displacement, BackwardSpeed(cur, profile[i - 1].speed, maxAcc, ds, sqrt))];
      } else {
        var radicand := cur * cur + 2.0 * maxAcc * ds;
        if radicand < 0.0 {
          if 0.0 <= maxAcc && Spaced(profile) {
            RadicandNonNegative(cur, maxAcc, ds);
          }
          assert BackwardDoneDownTo(profile, out, maxAcc, sqrt, i + 1)
              && !BackwardDefined(out[i].speed, profile[i - 1].speed, maxAcc, Ds(profile, i));
          return out, Fail(MathDomain);
        }
        var m := Min(sqrt(radicand), prev);
        assert radicand == Radicand(cur, maxAcc, ds) && m == BackwardSpeed(cur, profile[i - 1].speed, maxAcc, ds, sqrt);
        out := out[i - 1 := Sample(out[i - 1].displacement, m)];
      }
      BackwardAdvance(profile, before, out, maxAcc, sqrt, i);
      if feasible {
        BackwardAdvanceFeasible(profile, before, out, maxAcc, sqrt, i);
      }
      if forward {
        BackwardAdvanceKeepsForward(profile, before, out, maxAcc, sqrt, i);
      }
      i := i - 1;
    }
    return out, Pass;
  }

  // ---------------------------------------------------------------------------
  // Time profiles.

  /** The unit tangent of the path at a displacement (the normalised first
      derivative), supplied by the caller. */
  type UnitTangent = real -> (real, real)

  /** The sum of the speeds at both ends of step i. */
  function SpeedSum(p: seq<Sample>, i: nat): real
    requires 1 <= i < |p|
  {
    p[i].speed + p[i - 1].speed
  }

  /** Step i divides by the speed sum and then by the time it takes, so both
      must be non-zero; the time is zero exactly when ds is. */
  predicate StepDefined(p: seq<Sample>, i: nat)
    requires 1 <= i < |p|
  {
    SpeedSum(p, i) != 0.0 && Ds(p, i) != 0.0
  }

  predicate AllStepsDefined(p: seq<Sample>)
  {
    forall i :: 1 <= i < |p| ==> StepDefined(p, i)
  }

  /** Step i is the first step of p that cannot be timed. */
  predicate FirstUndefinedStep(p: seq<Sample>, i: int)
  {
    && 1 <= i < |p| && !StepDefined(p, i)
    && forall k :: 1 <= k < i ==> StepDefined(p, k)
  }

  /** dt = 2 ds / (v_i + v_{i-1}); 0 where the division is undefined. */
  function Dt(p: seq<Sample>, i: nat): real
    requires 1 <= i < |p|
  {
    if SpeedSum(p, i) == 0.0 then 0.0 else 2.0 * Ds(p, i) / SpeedSum(p, i)
  }

  /** The time at which sample k is reached. */
  function TimeAt(p: seq<Sample>, k: nat): real
    requires k < |p|
  {
    if k == 0 then 0.0 else TimeAt(p, k - 1) + Dt(p, k)
  }

  /** The constant acceleration over step i; 0 where it is undefined. */
  function Acc(p: seq<Sample>, i: nat): real
    requires 1 <= i < |p|
  {
    if Dt(p, i) == 0.0 then 0.0 else (p[i].speed - p[i - 1].speed) / Dt(p, i)
  }

  /** Entry i of the absolute time profile. */
  function AbsEntry(p: seq<Sample>, startVel: real, startAcc: real, i: nat): Timed<KinematicState>
    requires i < |p|
  {
    if i == 0 then Timed(0.0, KinematicState(0.0, startVel, startAcc, 0.0))
    else Timed(TimeAt(p, i), KinematicState(p[i].displacement, p[i].speed, Acc(p, i), 0.0))
  }

  /** The unit tangent used for entry i: at displacement 0 for the first entry. */
  function TangentFor(p: seq<Sample>, unitTangentAt: UnitTangent, i: nat): (real, real)
    requires i < |p|
  {
    if i == 0 then unitTangentAt(0.0) else unitTangentAt(p[i].displacement)
  }

  /** An absolute entry projected onto one axis: speed and acceleration scaled by c. */
  function Along(e: Timed<KinematicState>, c: real): Timed<KinematicState>
  {
    Timed(e.time, KinematicState(e.value.position, e.value.velocity * c, e.value.acceleration * c, e.value.jerk))
  }

  /** Entry i of the x time profile. */
  function XEntry(p: seq<Sample>, startVel: real, startAcc: real, unitTangentAt: UnitTangent, i: nat): Timed<KinematicState>
    requires i < |p|
  {
    Along(AbsEntry(p, startVel, startAcc, i), TangentFor(p, unitTangentAt, i).0)
  }

  /** Entry i of the y time profile. */
  function YEntry(p: seq<Sample>, startVel: real, startAcc: real, unitTangentAt: UnitTangent, i: nat): Timed<KinematicState>
    requires i < |p|
  {
    Along(AbsEntry(p, startVel, startAcc, i), TangentFor(p, unitTangentAt, i).1)
  }

  /** Entry i of the heading profile: 30 degrees at the start, then the path's heading. */
  function HeadingEntry(p: seq<Sample>, path: Paths.Path, radians: real -> real, i: nat): Timed<real>
    requires i < |p|
  {
    if i == 0 then Timed(0.0, radians(30.0))
    else Timed(TimeAt(p, i), path.HeadingAtDisplacement(p[i].displacement))
  }

  /** abs holds the absolute entries of the first |abs| samples. */
  predicate AbsMatch(p: seq<Sample>, startVel: real, startAcc: real, abs: seq<Timed<KinematicState>>)
  {
    |abs| <= |p| && forall i :: 0 <= i < |abs| ==> abs[i] == AbsEntry(p, startVel, startAcc, i)
  }

  /** xs holds the x entries of the first |xs| samples. */
  predicate XsMatch(p: seq<Sample>, startVel: real, startAcc: real, unitTangentAt: UnitTangent,
                    xs: seq<Timed<KinematicState>>)
  {
    |xs| <= |p| && forall i :: 0 <= i < |xs| ==> xs[i] == XEntry(p, startVel, startAcc, unitTangentAt, i)
  }

  /** ys holds the y entries of the first |ys| samples. */
  predicate YsMatch(p: seq<Sample>, startVel: real, startAcc: real, unitTangentAt: UnitTangent,
                    ys: seq<Timed<KinematicState>>)
  {
    |ys| <= |p| && forall i :: 0 <= i < |ys| ==> ys[i] == YEntry(p, startVel, startAcc, unitTangentAt, i)
  }

  /** headings holds the heading entries of the first |headings| samples. */
  predicate HeadingsMatch(p: seq<Sample>, path: Paths.Path, radians: real -> real, headings: seq<Timed<real>>)
  {
    |headings| <= |p| && forall i :: 0 <= i < |headings| ==> headings[i] == HeadingEntry(p, path, radians, i)
  }

  /** The four time profiles hold the entries of the first |abs| samples. */
  predicate EntriesMatch(p: seq<Sample>, startVel: real, startAcc: real, unitTangentAt: UnitTangent,
                         path: Paths.Path, radians: real -> real,
                         abs: seq<Timed<KinematicState>>, xs: seq<Timed<KinematicState>>,
                         ys: seq<Timed<KinematicState>>, headings: seq<Timed<real>>)
  {
    && |xs| == |abs| && |ys| == |abs| && |headings| == |abs|
    && AbsMatch(p, startVel, startAcc, abs)
    && XsMatch(p, startVel, startAcc, unitTangentAt, xs)
    && YsMatch(p, startVel, startAcc, unitTangentAt, ys)
    && HeadingsMatch(p, path, radians, headings)
  }

  lemma AbsAppended(p: seq<Sample>, startVel: real, startAcc: real, abs: seq<Timed<KinematicState>>,
                    e: Timed<KinematicState>)
    requires AbsMatch(p, startVel, startAcc, abs) && |abs| < |p|
    requires e == AbsEntry(p, startVel, startAcc, |abs|)
    ensures AbsMatch(p, startVel, startAcc, abs + [e])
  {
  }

  lemma XsAppended(p: seq<Sample>, startVel: real, startAcc: real, unitTangentAt: UnitTangent,
                   xs: seq<Timed<KinematicState>>, e: Timed<KinematicState>)
    requires XsMatch(p, startVel, startAcc, unitTangentAt, xs) && |xs| < |p|
    requires e == XEntry(p, startVel, startAcc, unitTangentAt, |xs|)
    ensures XsMatch(p, startVel, startAcc, unitTangentAt, xs + [e])
  {
  }

  lemma YsAppended(p: seq<Sample>, startVel: real, startAcc: real, unitTangentAt: UnitTangent,
                   ys: seq<Timed<KinematicState>>, e: Timed<KinematicState>)
    requires YsMatch(p, startVel, startAcc, unitTangentAt, ys) && |ys| < |p|
    requires e == YEntry(p, startVel, startAcc, unitTangentAt, |ys|)
    ensures YsMatch(p, startVel, startAcc, unitTangentAt, ys + [e])
  {
  }

  lemma HeadingsAppended(p: seq<Sample>, path: Paths.Path, radians: real -> real, headings: seq<Timed<real>>,
                         e: Timed<real>)
    requires HeadingsMatch(p, path, radians, headings) && |headings| < |p|
    requires e == HeadingEntry(p, path, radians, |headings|)
    ensures HeadingsMatch(p, path, radians, headings + [e])
  {
  }

  /** Appending the entries of sample i, computed at time t with acceleration
      acc, keeps the profiles matching when t and acc are those of step i. */
  lemma EntriesAppended(p: seq<Sample>, startVel: real, startAcc: real, unitTangentAt: UnitTangent,
                        path: Paths.Path, radians: real -> real,
                        abs: seq<Timed<KinematicState>>, xs: seq<Timed<KinematicState>>,
                        ys: seq<Timed<KinematicState>>, headings: seq<Timed<real>>, t: real, acc: real)
    requires EntriesMatch(p, startVel, startAcc, unitTangentAt, path, radians, abs, xs, ys, headings)
    requires 1 <= |abs| < |p| && t == TimeAt(p, |abs|) && acc == Acc(p, |abs|)
    ensures var i := |abs|;
            var s := p[i].displacement;
            var e := Timed(t, KinematicState(s, p[i].speed, acc, 0.0));
            var u := unitTangentAt(s);
            EntriesMatch(p, startVel, startAcc, unitTangentAt, path, radians,
                         abs + [e], xs + [Along(e, u.0)], ys + [Along(e, u.1)],
                         headings + [Timed(t, path.HeadingAtDisplacement(s))])
  {
    var i := |abs|;
    var s := p[i].displacement;
    var e := Timed(t, KinematicState(s, p[i].speed, acc, 0.0));
    var u := unitTangentAt(s);
    assert e == AbsEntry(p, startVel, startAcc, i);
    assert u == TangentFor(p, unitTangentAt, i);
    AbsAppended(p, startVel, startAcc, abs, e);
    XsAppended(p, startVel, startAcc, unitTangentAt, xs, Along(e, u.0));
    YsAppended(p, startVel, startAcc, unitTangentAt, ys, Along(e, u.1));
    HeadingsAppended(p, path, radians, headings, Timed(t, path.HeadingAtDisplacement(s)));
  }

  /** The x, y, absolute and heading time profiles of a motion profile. */
  datatype TimeTables = TimeTables(x: seq<Timed<KinematicState>>, y: seq<Timed<KinematicState>>,
                                   abs: seq<Timed<KinematicState>>, headings: seq<Timed<real>>)

  /** after extends before by exactly the entries of the first |after.abs| - |before.abs| samples of p. */
  ghost predicate TimeAppended(p: seq<Sample>, startVel: real, startAcc: real, unitTangentAt: UnitTangent,
                               path: Paths.Path, radians: real -> real, before: TimeTables, after: TimeTables)
  {
    && |after.x| >= |before.x| && after.x[..|before.x|] == before.x
    && |after.y| >= |before.y| && after.y[..|before.y|] == before.y
    && |after.abs| >= |before.abs| && after.abs[..|before.abs|] == before.abs
    && |after.headings| >= |before.headings| && after.headings[..|before.headings|] == before.headings
    && EntriesMatch(p, startVel, startAcc, unitTangentAt, path, radians,
                    after.abs[|before.abs|..], after.x[|before.x|..], after.y[|before.y|..],
                    after.headings[|before.headings|..])
  }

  /** The time part of make_profile: one entry per sample in each of the four
      time profiles. A step with zero speed sum or zero length divides by zero;
      the entries before it are kept. */
  method ExpandTime(p: seq<Sample>, startVel: real, startAcc: real, unitTangentAt: UnitTangent,
                    path: Paths.Path, radians: real -> real)
    returns (abs: seq<Timed<KinematicState>>, xs: seq<Timed<KinematicState>>, ys: seq<Timed<KinematicState>>,
             headings: seq<Timed<real>>, r: Result<real>)
    requires 0 < |p|
    ensures 1 <= |abs|
    ensures EntriesMatch(p, startVel, startAcc, unitTangentAt, path, radians, abs, xs, ys, headings)
    ensures r.Ok? <==> AllStepsDefined(p)
    ensures r.Ok? ==> |abs| == |p| && r.value == TimeAt(p, |p| - 1)
    ensures r.Err? ==> r.error == ZeroDivision && FirstUndefinedStep(p, |abs|)
  {
    var start := Timed(0.0, KinematicState(0.0, startVel, startAcc, 0.0));
    var u := unitTangentAt(0.0);
    abs := [start];
    xs := [Along(start, u.0)];
    ys := [Along(start, u.1)];
    headings := [Timed(0.0, radians(30.0))];
    var prevTime := 0.0;
    var currentTime := 0.0;
    var i := 1;
    while i < |p|
      invariant 1 <= i <= |p| && |abs| == i
      invariant prevTime == currentTime == TimeAt(p, i - 1)
      invariant EntriesMatch(p, startVel, startAcc, unitTangentAt, path, radians, abs, xs, ys, headings)
      invariant forall k :: 1 <= k < i ==> StepDefined(p, k)
    {
      var currentVel := p[i].speed;
      var prevVel := p[i - 1].speed;
      var ds := p[i].displacement - p[i - 1].displacement;
      if currentVel + prevVel == 0.0 {
        assert !StepDefined(p, i);
        return abs, xs, ys, headings, Err(ZeroDivision);
      }
      var dt := 2.0 * ds / (currentVel + prevVel);
      assert dt == Dt(p, i);
      currentTime := currentTime + dt;
      var tangent := unitTangentAt(p[i].displacement);
      if currentTime - prevTime == 0.0 {
        ZeroTimeMeansZeroDs(p, i);
        assert !StepDefined(p, i);
        return abs, xs, ys, headings, Err(ZeroDivision);
      }
      var currentAcc := (currentVel - prevVel) / (currentTime - prevTime);
      EntriesAppended(p, startVel, startAcc, unitTangentAt, path, radians, abs, xs, ys, headings, currentTime, currentAcc);
      var entry := Timed(currentTime, KinematicState(p[i].displacement, currentVel, currentAcc, 0.0));
      abs := abs + [entry];
      xs := xs + [Along(entry, tangent.0)];
      ys := ys + [Along(entry, tangent.1)];
      headings := headings + [Timed(currentTime, path.HeadingAtDisplacement(p[i].displacement))];
      prevTime := currentTime;
      ZeroTimeMeansZeroDs(p, i);
      i := i + 1;
    }
    return abs, xs, ys, headings, Ok(currentTime);
  }

  /** With a non-zero speed sum, the step takes no time exactly when it covers no distance. */
  lemma ZeroTimeMeansZeroDs(p: seq<Sample>, i: nat)
    requires 1 <= i < |p| && SpeedSum(p, i) != 0.0
    ensures Dt(p, i) == 0.0 <==> Ds(p, i) == 0.0
  {
    if Dt(p, i) == 0.0 {
      QuotientTimesDivisor(2.0 * Ds(p, i), SpeedSum(p, i));
    }
  }

  /** Step i takes dt = 2 ds / (v_i + v_{i-1}): travelling for dt at the mean
      of the two speeds covers exactly ds, and a defined step takes time. */
  lemma StepCoversDisplacement(p: seq<Sample>, i: nat)
    requires 1 <= i < |p| && StepDefined(p, i)
    ensures Dt(p, i) != 0.0
    ensures Dt(p, i) * (SpeedSum(p, i) / 2.0) == Ds(p, i)
  {
    ZeroTimeMeansZeroDs(p, i);
    QuotientTimesDivisor(2.0 * Ds(p, i), SpeedSum(p, i));
    assert Dt(p, i) * (SpeedSum(p, i) / 2.0) == (Dt(p, i) * SpeedSum(p, i)) / 2.0;
  }

  /** The acceleration stored for step i changes the speed from v_{i-1} to v_i over dt. */
  lemma AccelerationSpansStep(p: seq<Sample>, i: nat)
    requires 1 <= i < |p| && StepDefined(p, i)
    ensures Acc(p, i) * Dt(p, i) == p[i].speed - p[i - 1].speed
  {
    ZeroTimeMeansZeroDs(p, i);
    QuotientTimesDivisor(p[i].speed - p[i - 1].speed, Dt(p, i));
  }

  /** With non-negative speeds and displacements that do not decrease, no step takes negative time. */
  lemma DtNonNegative(p: seq<Sample>, i: nat)
    requires 1 <= i < |p| && 0.0 <= p[i].speed && 0.0 <= p[i - 1].speed && 0.0 <= Ds(p, i)
    ensures 0.0 <= Dt(p, i)
    ensures StepDefined(p, i) ==> 0.0 < Dt(p, i)
  {
    if SpeedSum(p, i) != 0.0 {
      QuotientSign(2.0 * Ds(p, i), SpeedSum(p, i));
    }
  }

  /** On an admissible profile the time stamps never go backwards, and where
      every step is defined they strictly increase. */
  lemma {:induction false} TimeMonotone(p: seq<Sample>, a: real, j: nat, k: nat)
    requires Admissible(p, a) && j <= k < |p|
    ensures TimeAt(p, j) <= TimeAt(p, k)
    ensures j < k && AllStepsDefined(p) ==> TimeAt(p, j) < TimeAt(p, k)
    decreases k
  {
    if j < k {
      TimeMonotone(p, a, j, k - 1);
      DtNonNegative(p, k);
    }
  }

  /** The distance covered up to sample k, travelling each step for its dt at
      the mean of its two end speeds. */
  function Travelled(p: seq<Sample>, k: nat): real
    requires k < |p|
  {
    if k == 0 then 0.0 else Travelled(p, k - 1) + Dt(p, k) * (SpeedSum(p, k) / 2.0)
  }

  /** Where every step is defined, the time profile covers exactly the
      displacement between the first and the last sample. */
  lemma {:induction false} TravelledIsDisplacement(p: seq<Sample>, k: nat)
    requires k < |p| && forall i :: 1 <= i <= k ==> StepDefined(p, i)
    ensures Travelled(p, k) == p[k].displacement - p[0].displacement
  {
    if k > 0 {
      TravelledIsDisplacement(p, k - 1);
      StepCoversDisplacement(p, k);
    }
  }

  /** The x and y entries split an absolute entry along a unit tangent: their
      speeds and accelerations recombine into the absolute ones. */
  lemma AxesRecombine(e: Timed<KinematicState>, u: (real, real))
    requires u.0 * u.0 + u.1 * u.1 == 1.0
    ensures var x, y := Along(e, u.0).value, Along(e, u.1).value;
            && x.velocity * x.velocity + y.velocity * y.velocity == e.value.velocity * e.value.velocity
            && x.acceleration * x.acceleration + y.acceleration * y.acceleration == e.value.acceleration * e.value.acceleration
            && Along(e, u.0).time == e.time && Along(e, u.1).time == e.time
  {
    var v, c := e.value.velocity, e.value.acceleration;
    assert (v * u.0) * (v * u.0) + (v * u.1) * (v * u.1) == (v * v) * (u.0 * u.0 + u.1 * u.1);
    assert (c * u.0) * (c * u.0) + (c * u.1) * (c * u.1) == (c * c) * (u.0 * u.0 + u.1 * u.1);
  }

  /** A profile that starts and ends at rest with only two samples cannot be
      timed: neither pass raises the zero speeds, and the first step divides
      by their zero sum. */
  lemma RestToRestNeedsThreeSamples(length: real, a: real, sqrt: Sqrt, mid: seq<Sample>, out: seq<Sample>)
    requires |mid| == 2 && |out| == 2
    requires ForwardDoneUpTo([Sample(0.0, 0.0), Sample(length, 0.0)], mid, a, sqrt, 2)
    requires BackwardDoneDownTo(mid, out, a, sqrt, 1)
    ensures !AllStepsDefined(out)
  {
    assert ForwardStepped([Sample(0.0, 0.0), Sample(length, 0.0)], mid, a, sqrt, 1);
    assert BackwardStepped(mid, out, a, sqrt, 1);
    assert !StepDefined(out, 1);
  }

  // ---------------------------------------------------------------------------
  // The profile object.

  /** The displacement profile once the samples are placed and the end entries overwritten. */
  function StageOneProfile(length: real, n: nat, startVel: real, endVel: real, limits: Limits,
                           curvatureAt: real -> real): (p: seq<Sample>)
    ensures |p| == n
    ensures forall i :: 0 <= i < n ==> p[i] == StageOne(length, n, startVel, endVel, limits, curvatureAt, i)
  {
    seq(n, i requires 0 <= i < n => StageOne(length, n, startVel, endVel, limits, curvatureAt, i))
  }

  /** The samples placed by linspace do not decrease along the path. */
  lemma SamplePointMonotone(length: real, n: nat, i: nat, j: nat)
    requires i <= j < n && 0.0 <= length
    ensures SamplePoint(length, n, i) <= SamplePoint(length, n, j)
  {
    if 1 < n {
      var step := length / (n - 1) as real;
      QuotientSign(length, (n - 1) as real);
      ProductNonNegative((j - i) as real, step);
      assert j as real * step - i as real * step == (j - i) as real * step;
    }
  }

  /** Non-negative limits, end speeds and path length give an admissible
      profile for the two passes. */
  lemma StageOneAdmissible(length: real, n: nat, startVel: real, endVel: real, limits: Limits,
                           curvatureAt: real -> real)
    requires 0.0 <= length && 0.0 <= startVel && 0.0 <= endVel
    requires 0.0 <= limits.maxVel && 0.0 <= limits.maxAcc && 0.0 <= limits.maxAngAcc
    ensures Admissible(StageOneProfile(length, n, startVel, endVel, limits, curvatureAt), limits.maxAcc)
  {
    var p := StageOneProfile(length, n, startVel, endVel, limits, curvatureAt);
    forall i | 0 <= i < n
      ensures 0.0 <= p[i].speed
      ensures 1 < n ==> p[i].displacement == SamplePoint(length, n, i)
    {
      if 0 < i < n - 1 {
        var kappa := curvatureAt(SamplePoint(length, n, i));
        var cap := AngularSpeedCap(kappa, limits.maxAngAcc);
        if cap.AtMost? {
          QuotientSign(limits.maxAngAcc, Abs(kappa));
        }
      }
    }
    forall i | 1 <= i < n
      ensures 0.0 <= Ds(p, i)
    {
      SamplePointMonotone(length, n, i - 1, i);
    }
  }

  /** Whatever the passes leave behind stays within the sampled limits: the
      first speed within start_vel, the last within end_vel, every interior
      speed within max_vel and the angular acceleration cap; a start from rest
      stays at rest. */
  lemma PlannedSpeedBounds(length: real, n: nat, startVel: real, endVel: real, limits: Limits,
                           curvatureAt: real -> real, out: seq<Sample>)
    requires 1 < n && Lowered(StageOneProfile(length, n, startVel, endVel, limits, curvatureAt), out)
    ensures out[0].speed <= startVel && out[n - 1].speed <= endVel
    ensures forall i :: 0 < i < n - 1 ==> out[i].speed <= limits.maxVel
    ensures forall i :: 0 < i < n - 1 && 0.001 <= Abs(curvatureAt(out[i].displacement)) ==>
              out[i].speed * Abs(curvatureAt(out[i].displacement)) <= limits.maxAngAcc
    ensures Admissible(out, limits.maxAcc) && startVel == 0.0 ==> out[0].speed == 0.0
  {
    var p := StageOneProfile(length, n, startVel, endVel, limits, curvatureAt);
    forall i | 0 < i < n - 1
      ensures out[i].speed <= limits.maxVel
      ensures 0.001 <= Abs(curvatureAt(out[i].displacement)) ==>
                out[i].speed * Abs(curvatureAt(out[i].displacement)) <= limits.maxAngAcc
    {
      StageOneInteriorCapped(length, n, startVel, endVel, limits, curvatureAt, i);
      var kappa := Abs(curvatureAt(out[i].displacement));
      if 0.001 <= kappa {
        ProductNonNegative(p[i].speed - out[i].speed, kappa);
        assert (p[i].speed - out[i].speed) * kappa == p[i].speed * kappa - out[i].speed * kappa;
      }
    }
  }

  /** Both passes ran to completion: out is the backward pass applied to the
      forward pass applied to p. */
  ghost predicate Planned(p: seq<Sample>, out: seq<Sample>, a: real, sqrt: Sqrt)
  {
    |out| == |p| && exists mid :: (|mid| == |p|
      && ForwardDoneUpTo(p, mid, a, sqrt, |p|) && BackwardDoneDownTo(mid, out, a, sqrt, 1))
  }

  /** What make_profile needs of its inputs for the passes to be meaningful. */
  predicate InputsAdmissible(length: real, startVel: real, endVel: real, limits: Limits)
  {
    && 0.0 <= length && 0.0 <= startVel && 0.0 <= endVel
    && 0.0 <= limits.maxVel && 0.0 <= limits.maxAcc && 0.0 <= limits.maxAngAcc
  }

  /** The forward pass followed by the backward pass. The result is the last
      state of the displacement profile: partly updated when a pass fails. */
  method PlanSpeeds(p: seq<Sample>, a: real, sqrt: Sqrt) returns (out: seq<Sample>, r: Outcome)
    ensures Lowered(p, out)
    ensures r.Fail? ==> r.error == MathDomain
    ensures r == Pass ==> Planned(p, out, a, sqrt)
    ensures 0.0 <= a && Spaced(p) ==> r == Pass
    ensures Admissible(p, a) && IsSqrt(sqrt) ==>
              Admissible(out, a) && ForwardFeasible(out, a) && BackwardFeasible(out, a)
  {
    var forward, forwardOutcome := ForwardPass(p, a, sqrt);
    if forwardOutcome.Fail? {
      return forward, forwardOutcome;
    }
    if Spaced(p) {
      LoweredKeepsSpacing(p, forward);
    }
    var backward, backwardOutcome := BackwardPass(forward, a, sqrt);
    LoweredTransitive(p, forward, backward);
    if backwardOutcome == Pass {
      assert ForwardDoneUpTo(p, forward, a, sqrt, |p|) && BackwardDoneDownTo(forward, backward, a, sqrt, 1);
    }
    return backward, backwardOutcome;
  }

  /** A motion profile along a path, under velocity, acceleration and angular limits. */
  class MotionProfile {
    const path: Paths.Path
    const limits: Limits
    var timeProfileX: seq<Timed<KinematicState>>
    var timeProfileY: seq<Timed<KinematicState>>
    var timeProfileAbs: seq<Timed<KinematicState>>
    var displacementProfile: seq<Sample>
    var headingProfile: seq<Timed<real>>
    var duration: real

    constructor (path: Paths.Path, limits: Limits)
      ensures this.path == path && this.limits == limits
      ensures timeProfileX == [] && timeProfileY == [] && timeProfileAbs == []
      ensures displacementProfile == [] && headingProfile == [] && duration == 0.0
    {
      this.path := path;
      this.limits := limits;
      timeProfileX := [];
      timeProfileY := [];
      timeProfileAbs := [];
      displacementProfile := [];
      headingProfile := [];
      duration := 0.0;
    }

    /** The four time profiles as they stand. */
    ghost function Tables(): TimeTables
      reads this`timeProfileX, this`timeProfileY, this`timeProfileAbs, this`headingProfile
    {
      TimeTables(timeProfileX, timeProfileY, timeProfileAbs, headingProfile)
    }

    /** make_profile: place the samples, run the forward and backward passes
        over them, and append the resulting time profiles. The sampling
        errors leave the displacement profile empty; a pass that fails leaves
        it partly updated; a step that divides by zero leaves the entries
        appended before it. */
    method MakeProfile(startVel: real, endVel: real, numPoints: int, startAcc: real, endAcc: real,
                       curvatureAt: real -> real, unitTangentAt: UnitTangent, sqrt: Sqrt, radians: real -> real)
      returns (r: Result<(seq<Timed<KinematicState>>, seq<Timed<KinematicState>>)>)
      modifies this
      ensures numPoints <= 0 ==> r == Err(if numPoints < 0 then NegativeSampleCount else IndexOutOfRange)
      ensures numPoints <= 0 ==> displacementProfile == []
      ensures r.Err? ==> duration == old(duration)
      ensures r.Err? && r.error != ZeroDivision ==>
                && timeProfileX == old(timeProfileX) && timeProfileY == old(timeProfileY)
                && timeProfileAbs == old(timeProfileAbs) && headingProfile == old(headingProfile)
      ensures 0 < numPoints ==>
                Lowered(StageOneProfile(path.length, numPoints, startVel, endVel, limits, curvatureAt), displacementProfile)
      ensures r.Ok? || r == Err(ZeroDivision) ==>
                && Planned(StageOneProfile(path.length, numPoints, startVel, endVel, limits, curvatureAt),
                           displacementProfile, limits.maxAcc, sqrt)
                && TimeAppended(displacementProfile, startVel, startAcc, unitTangentAt, path, radians,
                             old(Tables()), Tables())
      ensures r.Ok? ==>
                && AllStepsDefined(displacementProfile)
                && |timeProfileAbs| == |old(timeProfileAbs)| + numPoints
                && duration == TimeAt(displacementProfile, numPoints - 1)
                && r.value == (timeProfileX, timeProfileY)
      ensures r == Err(ZeroDivision) ==> !AllStepsDefined(displacementProfile)
      ensures 0 < numPoints && InputsAdmissible(path.length, startVel, endVel, limits) ==>
                r.Ok? || r == Err(ZeroDivision)
      ensures 0 < numPoints && InputsAdmissible(path.length, startVel, endVel, limits) && IsSqrt(sqrt) ==>
                && Admissible(displacementProfile, limits.maxAcc)
                && ForwardFeasible(displacementProfile, limits.maxAcc)
                && BackwardFeasible(displacementProfile, limits.maxAcc)
    {
      ghost var before := Tables();
      displacementProfile := [];
      var placed := PlaceSamples(path.length, numPoints, startVel, endVel, limits, curvatureAt);
      if placed.Err? {
        return Err(placed.error);
      }
      ghost var length := path.length;
      assert |placed.value| == numPoints;
      if InputsAdmissible(length, startVel, endVel, limits) {
        StageOneAdmissible(length, numPoints, startVel, endVel, limits, curvatureAt);
      }
      assert Tables() == before;
      r := PlanAndTime(placed.value, startVel, startAcc, unitTangentAt, sqrt, radians);
      assert path.length == length;
      assert r.Ok? || r == Err(ZeroDivision) ==>
               TimeAppended(displacementProfile, startVel, startAcc, unitTangentAt, path, radians, before, Tables());
    }

    /** make_profile after sampling: the two passes over the sampled profile
        p, then the time part. */
    method PlanAndTime(p: seq<Sample>, startVel: real, startAcc: real, unitTangentAt: UnitTangent,
                       sqrt: Sqrt, radians: real -> real)
      returns (r: Result<(seq<Timed<KinematicState>>, seq<Timed<KinematicState>>)>)
      requires 0 < |p|
      modifies this
      ensures Lowered(p, displacementProfile)
      ensures r.Err? ==> duration == old(duration)
      ensures r.Err? && r.error != ZeroDivision ==>
                && r.error == MathDomain
                && timeProfileX == old(timeProfileX) && timeProfileY == old(timeProfileY)
                && timeProfileAbs == old(timeProfileAbs) && headingProfile == old(headingProfile)
      ensures r.Ok? || r == Err(ZeroDivision) ==>
                && Planned(p, displacementProfile, limits.maxAcc, sqrt)
                && TimeAppended(displacementProfile, startVel, startAcc, unitTangentAt, path, radians,
                             old(Tables()), Tables())
      ensures r.Ok? ==>
                && AllStepsDefined(displacementProfile)
                && |timeProfileAbs| == |old(timeProfileAbs)| + |p|
                && duration == TimeAt(displacementProfile, |p| - 1)
                && r.value == (timeProfileX, timeProfileY)
      ensures r == Err(ZeroDivision) ==> !AllStepsDefined(displacementProfile)
      ensures 0.0 <= limits.maxAcc && Spaced(p) ==> r.Ok? || r == Err(ZeroDivision)
      ensures Admissible(p, limits.maxAcc) && IsSqrt(sqrt) ==>
                && Admissible(displacementProfile, limits.maxAcc)
                && ForwardFeasible(displacementProfile, limits.maxAcc)
                && BackwardFeasible(displacementProfile, limits.maxAcc)
    {
      var planned, plannedOutcome := PlanSpeeds(p, limits.maxAcc, sqrt);
      displacementProfile := planned;
      if plannedOutcome.Fail? {
        return Err(plannedOutcome.error);
      }
      r := AppendTime(startVel, startAcc, unitTangentAt, radians);
    }

    /** The time part of make_profile over the planned displacement profile:
        the new entries are appended to the four time profiles, and the
        duration is set only when every step could be timed. */
    method AppendTime(startVel: real, startAcc: real, unitTangentAt: UnitTangent, radians: real -> real)
      returns (r: Result<(seq<Timed<KinematicState>>, seq<Timed<KinematicState>>)>)
      requires 0 < |displacementProfile|
      modifies this
      ensures displacementProfile == old(displacementProfile)
      ensures TimeAppended(displacementProfile, startVel, startAcc, unitTangentAt, path, radians,
                           old(Tables()), Tables())
      ensures r.Err? ==>
                && r.error == ZeroDivision && duration == old(duration)
                && FirstUndefinedStep(displacementProfile, |timeProfileAbs| - |old(timeProfileAbs)|)
      ensures r.Ok? ==>
                && AllStepsDefined(displacementProfile)
                && |timeProfileAbs| == |old(timeProfileAbs)| + |displacementProfile|
                && duration == TimeAt(displacementProfile, |displacementProfile| - 1)
                && r.value == (timeProfileX, timeProfileY)
    {
      var abs, xs, ys, headings, timed := ExpandTime(displacementProfile, startVel, startAcc, unitTangentAt, path, radians);
      ghost var oldX, oldY, oldAbs, oldHeadings := timeProfileX, timeProfileY, timeProfileAbs, headingProfile;
      timeProfileAbs := timeProfileAbs + abs;
      timeProfileX := timeProfileX + xs;
      timeProfileY := timeProfileY + ys;
      headingProfile := headingProfile + headings;
      assert timeProfileAbs[|oldAbs|..] == abs && timeProfileX[|oldX|..] == xs;
      assert timeProfileY[|oldY|..] == ys && headingProfile[|oldHeadings|..] == headings;
      if timed.Err? {
        return Err(timed.error);
      }
      duration := timed.value;
      return Ok((timeProfileX, timeProfileY));
    }
  }

  /** Lowering speeds keeps the displacements, so their spacing too. */
  lemma LoweredKeepsSpacing(p: seq<Sample>, q: seq<Sample>)
    requires Lowered(p, q) && Spaced(p)
    ensures Spaced(q)
  {
    forall i | 1 <= i < |q|
      ensures 0.0 <= Ds(q, i)
    {
      assert Ds(q, i) == Ds(p, i);
    }
  }

  /** Lowering twice is lowering. */
  lemma LoweredTransitive(p: seq<Sample>, q: seq<Sample>, r: seq<Sample>)
    requires Lowered(p, q) && Lowered(q, r)
    ensures Lowered(p, r)
  {
  }
}
