# pypathplanner numeric core in Dafny

This project models the numeric kernel of pypathplanner, a planner for 2-D robot paths, and proves properties of it. The model uses exact `real` arithmetic.

- A path is a chain of quintic Hermite segments, one between each pair of consecutive waypoints. Each segment is a pair of degree-5 polynomials x(t) and y(t) over t in [0, 1].
- A motion profile samples the path, caps the speed by curvature, and limits acceleration with a forward and a backward pass. It then expands the speed profile into time profiles for x, y, absolute motion and heading.
- A lookup table interpolates piecewise-linearly between samples and clamps outside them.

Modules, one per source file:

| file | module | models |
|---|---|---|
| `outcomes.dfy` | `Outcomes` | the Python exceptions, as `Error`, `Result`, `Outcome` and `Option` |
| `real_arith.dfy` | `RealArith` | `abs`, `min` and a few facts about real arithmetic |
| `quintic_polynomial.dfy` | `QuinticPolynomials` | `core/quintic_polynomial.py` |
| `segment.dfy` | `Segments` | `core/segment.py` |
| `heading_interpolator.dfy` | `Headings` | `core/heading_interpolator.py` |
| `path.dfy` | `Paths` | `core/path.py` |
| `motion_profile.dfy` | `MotionProfiles` | `core/motion_profile.py` |
| `interp_lut.dfy` | `InterpLUTs` | `core/interp_lut.py` |

Some state is updated in place, and that state is modelled as classes:

- `Segment`: `compute_coeffs` overwrites the polynomials and the length.
- `Path`: `make_path` appends segments and adds to the running length.
- `MotionProfile`: `make_profile` rewrites the displacement profile and appends to the four time profiles.
- `InterpLUT` is a class with constant fields. Its `Lookup` is a method with the source's `while` scan.

The forward pass, the backward pass, the sampling loop and the time loop are methods with loops. Each is proved against functions that specify one step (`ForwardSpeed`, `BackwardSpeed`, `Dt`, `TimeAt`, `Acc`, and the entry functions). Lemmas then prove what the source promises about those functions.

Each Python exception is an `Error` value in a `Result` or `Outcome`. Examples: `math.sqrt` of a negative number is `MathDomain`; division by zero is `ZeroDivision`; an index outside a list is `IndexOutOfRange`.

The model follows the code as written. In particular:

- `make_path` gives every tangent the constant magnitude 20. It does not use a tangent length that depends on the distances between waypoints.
- `make_path` attaches no heading interpolator.
- The duplicate-point check of `make_path` compares `points[i]` with `points[i - 1]` for i in 0 .. n-2. With Python's negative indexing, i = 0 compares the first point with the last, and the last pair is never compared. `ClosedChainRejected` and `LastPairUnchecked` state both effects, for chains of any length.
- `make_profile` accepts one sample. A count of zero fails on the first overwrite, with `IndexError`. A negative count fails in `linspace`. Counts below two are not all refused.
- The path's `heading_at_displacement` returns 0. The first heading entry is `radians(30)` whatever the path.
- The time stamps increase strictly only when every step is defined (`TimeMonotone`). A step with zero speed sum or zero length divides by zero. With two samples the source raises `ZeroDivisionError` there. With three or more samples the interior displacements are numpy floats, so the source continues with inf or nan; the model stops with `ZeroDivision` in both cases.
- Each call to `make_profile` appends to the time profiles and does not clear them.

## Model

| member | source | states |
|---|---|---|
| QuinticPolynomials.FromArgs | core/quintic_polynomial.py:2-19 | Construction succeeds exactly for six separate numbers or one sequence of six, and keeps the coefficients in order. Other shapes fail: no argument is `MissingArgument` (the `IndexError` of `args[0]`); another count of numbers is `NotASequence` (the `TypeError` of `len` on a number); a sequence of the wrong length is `InvalidCoefficients` |
| QuinticPolynomials.Eval | core/quintic_polynomial.py:21-22 | The value at 0 is `f`; the value at 1 is `a+b+c+d+e+f` |
| QuinticPolynomials.EvalIsPowerSum | core/quintic_polynomial.py:21-22 | Evaluation equals the reference power sum Σ cᵢ·t^(5−i) over the coefficient sequence |
| QuinticPolynomials.FirstDeriv | core/quintic_polynomial.py:24-25 | The leading coefficient of the derivative is always 0 |
| QuinticPolynomials.SecondDeriv | core/quintic_polynomial.py:27-28 | The two leading coefficients of the second derivative are 0 |
| QuinticPolynomials.PowerRule | core/quintic_polynomial.py:24-28 | Reference power rule for any coefficient sequence: the top slot becomes 0, and slot i gets (n−i)·c[i−1] |
| QuinticPolynomials.DerivativesFollowPowerRule | core/quintic_polynomial.py:24-28 | `first_deriv` is the power rule applied once and `second_deriv` is the power rule applied twice |
| QuinticPolynomials.SecondDerivIsFirstDerivTwice | core/quintic_polynomial.py:24-28 | `second_deriv` equals `first_deriv` applied twice |
| QuinticPolynomials.DerivativesAtZero | core/quintic_polynomial.py:24-28 | `first_deriv().eval(0) == e` and `second_deriv().eval(0) == 2d` |
| Headings.NewHeadingInterpolator | core/heading_interpolator.py:11-17 | Construction fails, with `HeadingMismatch`, exactly for a constant interpolator whose angles differ. Otherwise it stores segment, start, end and type unchanged |
| Headings.Lerp | core/heading_interpolator.py:41-42 | Gives start at t=0 and end at t=1. For t in [0,1] the result lies between the two angles |
| Headings.LerpBetween | core/heading_interpolator.py:41-42 | (1−t)·a + t·b lies between a and b for every t in [0,1] |
| Headings.HeadingAtParameter | core/heading_interpolator.py:22-39 | CONSTANT gives the start angle at every t, LINEAR gives the lerp, and SPLINE and TANGENT fall through to 0 |
| Headings.ConstantHeadingIsEndAngle | core/heading_interpolator.py:15-24 | A constant interpolator that construction accepted reports its end angle at every t |
| Headings.LinearHeadingEndpoints | core/heading_interpolator.py:26-28 | A linear interpolator gives its start angle at t=0 and its end angle at t=1 |
| Segments.BoundaryRowsEvaluate | core/segment.py:6-13 | The six rows of the coefficient matrix are f(0), f′(0), f″(0), f(1), f′(1) and f″(1) of the polynomial |
| Segments.CoefficientMatrixRows | core/segment.py:6-13 | The constant matrix times the coefficient vector is exactly those six boundary rows |
| Segments.HermiteFit | core/segment.py:105-106 | The closed-form quintic meets all six boundary conditions |
| Segments.HermiteSolve | core/segment.py:105-106 | The solution of the system for a six-entry vector meets that vector in every row |
| Segments.HermiteSolveUnique | core/segment.py:105-106 | The matrix is invertible: any polynomial whose rows equal the vector is the closed-form solution, so it is what `linalg.solve` returns |
| Segments.InRangeTolerance | core/segment.py:135-136 | `in_range` accepts every point of [a, b] and rejects everything more than eps outside it |
| Segments.SlopeOf | core/segment.py:50-54 | The result is the vertical sentinel exactly when \|x′\| < 0.1. Otherwise the slope times x′ equals y′ |
| Segments.Segment.constructor | core/segment.py:16-26 | All six polynomials are zero, the length is −1, and there is no heading interpolator. The fresh segment is valid: zero is its own derivative, so the queries on it are the derivative queries |
| Segments.Segment.PointAtParameter | core/segment.py:38-39 | The point is (x(t), y(t)), both position polynomials evaluated at t |
| Segments.Segment.FirstDerivAtParameter | core/segment.py:44-45 | On a valid segment the result is the derivative of x and y evaluated at t |
| Segments.Segment.SecondDerivAtParameter | core/segment.py:47-48 | On a valid segment the result is the derivative taken twice, evaluated at t |
| Segments.Segment.ParameterAtDisplacement | core/segment.py:69-79 | A displacement outside [−0.01, length+0.01] is `DisplacementOutOfRange`. A missing root is `RootNotFound`. A root outside [−0.01, 1.01] is `ParameterOutOfRange`. Otherwise the result is the root |
| Segments.Segment.PlotPoints | core/segment.py:30-36 | Returns r+1 points at t = i/r, the first at t=0 and the last at t=1. r = 0 divides by zero; a negative r gives empty lists |
| Segments.Segment.ComputeCoeffs | core/segment.py:100-116 | Fails and changes nothing unless both vectors have six entries. Otherwise: x and y meet all six boundary rows; the derivative fields are the derivatives; the length is the reported arc length; the point and derivative queries at 0 and 1 return the boundary values |
| Paths.PrefixSumMonotone | core/path.py:19-24 | With no negative length, the running total grows with the prefix |
| Paths.FirstCovering | core/path.py:19-24 | Finds the first segment k whose span [R_k, R_k+len_k] holds disp; no earlier segment holds it. None means no segment does |
| Paths.CoveredWithinTotal | core/path.py:16-28 | Every displacement of [0, total] is covered by some segment |
| Paths.NotCoveredOutsideTotal | core/path.py:16-28 | With non-negative lengths, no segment covers a displacement outside [0, total]. So a displacement in the tolerance margin is `SegmentNotFound` |
| Paths.LocateStart | core/path.py:16-28 | Displacement 0 resolves to the first segment at local displacement 0 |
| Paths.LocateEnd | core/path.py:16-28 | With positive lengths, the total length resolves to the last segment, at a local displacement equal to that segment's length |
| Paths.LastCovering | core/path.py:19-24 | When only the last segment covers disp, the search ends there |
| Paths.Path.GetCorrectSegment | core/path.py:11-28 | Out of tolerance is `DisplacementOutOfRange`. No covering segment is `SegmentNotFound`. Otherwise the result is the first covering segment with disp − R_k, and that value lies in [0, len_k] |
| Paths.Path.HeadingAtDisplacement | core/path.py:71-76 | Always 0 |
| Paths.CrossAntisymmetric | core/path.py:129-130 | `cross(v1, v2) == −cross(v2, v1)`, and `cross(v, v) == 0` |
| Paths.MapRange | core/path.py:135-141 | Fails with `ZeroDivision` exactly when the source range is degenerate. Below the source range it gives to_min; above it, to_max. The result always lies between to_min and to_max |
| Paths.MapRangeBetween | core/path.py:135-141 | The proportion of a clamped value lies in [0, 1], and the mapped value lies between the target bounds |
| Paths.ClosedChainRejected | core/path.py:90-92 | A chain whose first and last points coincide is rejected as a duplicate, because of the wrap-around index |
| Paths.LastPairUnchecked | core/path.py:90-92 | For any chain of three or more points, with the first and last points distinct and no repeat among the earlier neighbours, the check passes whatever the last two points are |
| Paths.FittedMeetsBoundary | core/path.py:97-109 | Segment i's polynomials are its Hermite fits exactly when they pass through points i and i+1, with tangents of magnitude 20 along the given angles and zero second derivatives |
| Paths.FitMeetsRows | core/path.py:105-109 | One axis of that: a polynomial is the fit of a vector exactly when its rows equal the vector |
| Paths.NewChainedSegment | core/path.py:105-109 | A fresh segment, fitted between points i and i+1, whose length is the arc length of its derivatives |
| Paths.Path.constructor | core/path.py:6-9 | No segments, length 0 |
| Paths.Path.MakePath | core/path.py:83-112 | Fails in this order and changes nothing: counts differ (`CountMismatch`); one point (`TooFewPoints`); a duplicate under the wrap-around check (`DuplicatePoints`). It succeeds exactly otherwise, and then keeps the old segments, appends n−1 fresh fitted segments in order, and adds the sum of their lengths to the total |
| Paths.Path.AppendSegment | core/path.py:105-112 | One segment is appended, fitted between points i and i+1, and its length is added to the total |
| Paths.Path.ChainSegments | core/path.py:94-112 | The loop appends n−1 fresh segments in order, the j-th fitted between points j and j+1. The total grows by exactly the sum of their lengths |
| MotionProfiles.AngularSpeedCap | core/motion_profile.py:29-33 | No cap exactly when \|κ\| < 0.001. Otherwise cap·\|κ\| equals max_ang_acc |
| MotionProfiles.PlanningSpeed | core/motion_profile.py:27-34 | The result is max_vel or the cap, whichever is smaller, and is at most both |
| MotionProfiles.SamplePoint | core/motion_profile.py:26 | linspace starts at 0, ends at length, and stays in [0, length] |
| MotionProfiles.PlaceSamples | core/motion_profile.py:25-39 | A negative count is `NegativeSampleCount` and 0 is `IndexOutOfRange`. Otherwise the result has num_points entries, equal to the sampled, capped profile with its ends overwritten |
| MotionProfiles.StageOneEnds | core/motion_profile.py:38-39 | The first entry is (0, start_vel) and the last is (length, end_vel). With one sample, the last overwrite wins |
| MotionProfiles.StageOneInteriorCapped | core/motion_profile.py:26-35 | An interior speed is at most max_vel. Where \|κ\| ≥ 0.001, v·\|κ\| ≤ max_ang_acc |
| MotionProfiles.SamplePointMonotone | core/motion_profile.py:26 | The linspace samples do not decrease |
| MotionProfiles.StageOneAdmissible | core/motion_profile.py:25-39 | Non-negative inputs give non-negative speeds and non-decreasing displacements |
| MotionProfiles.ForwardAdvance | core/motion_profile.py:42-55 | One forward step handles sample i with a `min`, leaves later samples alone, and lowers only sample i |
| MotionProfiles.ForwardAdvanceFeasible | core/motion_profile.py:42-55 | With a true square root, one step keeps speeds non-negative and makes sample i reachable: v_i² ≤ v_{i−1}² + 2·a·ds_i |
| MotionProfiles.ForwardPass | core/motion_profile.py:42-55 | Never changes a displacement or raises a speed. It fails only with `MathDomain`, at the first negative radicand, and cannot fail when a ≥ 0 and ds ≥ 0. On admissible input every sample is reachable from its predecessor |
| MotionProfiles.BackwardAdvance | core/motion_profile.py:58-71 | One backward step handles sample i−1 with a `min` and lowers only sample i−1 |
| MotionProfiles.BackwardAdvanceFeasible | core/motion_profile.py:58-71 | With a true square root, one step keeps speeds non-negative and lets sample i−1 brake: v_{i−1}² ≤ v_i² + 2·a·ds_i |
| MotionProfiles.BackwardSpeedStillReaches | core/motion_profile.py:66-71 | Lowering a speed to the backward-pass value keeps it non-negative and still able to reach the next sample |
| MotionProfiles.BackwardAdvanceKeepsForward | core/motion_profile.py:58-71 | A backward step keeps every forward inequality |
| MotionProfiles.BackwardPass | core/motion_profile.py:58-71 | Never changes a displacement or raises a speed, and fails only with `MathDomain`. On admissible input all backward inequalities hold, and the forward inequalities survive |
| MotionProfiles.PlanSpeeds | core/motion_profile.py:41-71 | Both passes in order. Speeds only go down. On admissible input with a true square root, both inequalities hold at every adjacent pair |
| MotionProfiles.PlannedSpeedBounds | core/motion_profile.py:38-71 | Final speeds stay within the stage-one values: first ≤ start_vel, last ≤ end_vel, interior ≤ max_vel and within the curvature cap. A start from rest stays at rest |
| MotionProfiles.RestToRestNeedsThreeSamples | core/motion_profile.py:38-94 | Two samples from rest to rest cannot be timed: the first step divides by zero |
| MotionProfiles.EntriesAppended | core/motion_profile.py:107-112 | Appending the four entries of step i keeps the time profiles equal to the entry functions |
| MotionProfiles.ExpandTime | core/motion_profile.py:74-116 | The entries match the entry functions: time is the running sum of dt, acceleration is Δv/dt, x/y are scaled by the unit tangent, and the first heading is radians(30). It succeeds exactly when every step is defined, returning the last time stamp. Otherwise it stops with `ZeroDivision` at the first undefined step: every earlier step is defined, and the entries before it are kept. With three or more samples the source continues with inf or nan at that step instead (see Left out) |
| MotionProfiles.ZeroTimeMeansZeroDs | core/motion_profile.py:93-105 | With a non-zero speed sum, a step takes no time exactly when it covers no distance |
| MotionProfiles.StepCoversDisplacement | core/motion_profile.py:93-94 | dt·(v_i + v_{i−1})/2 = ds, and a defined step takes time |
| MotionProfiles.AccelerationSpansStep | core/motion_profile.py:105 | acc·dt = v_i − v_{i−1} |
| MotionProfiles.DtNonNegative | core/motion_profile.py:93-94 | dt ≥ 0 for non-negative speeds and ds. It is positive for a defined step |
| MotionProfiles.TimeMonotone | core/motion_profile.py:84-96 | Time stamps never decrease. They increase strictly when every step is defined |
| MotionProfiles.TravelledIsDisplacement | core/motion_profile.py:84-96 | Travelling each step for dt at its mean speed covers exactly the displacement from the first sample |
| MotionProfiles.AxesRecombine | core/motion_profile.py:98-110 | For a unit tangent, the x and y speeds and accelerations recombine into the absolute ones, at the same time |
| MotionProfiles.MotionProfile.constructor | core/motion_profile.py:5-19 | Stores the path and the limits. All profiles are empty and the duration is 0 |
| MotionProfiles.MotionProfile.MakeProfile | core/motion_profile.py:23-117 | Sampling errors leave the displacement profile empty. Otherwise it is the stage-one profile lowered by both passes. The time profiles gain exactly the entries of that profile, appended to what they held before. On success the duration is the last time stamp and the x and y profiles are returned. With admissible inputs only `ZeroDivision` is possible, and the planned speeds are feasible in both directions. `ZeroDivision` means some step is undefined |
| MotionProfiles.MotionProfile.PlanAndTime | core/motion_profile.py:41-117 | The passes, then the time part. A pass failure leaves the time profiles and duration unchanged |
| MotionProfiles.MotionProfile.AppendTime | core/motion_profile.py:73-117 | Appends the entries to the four lists. It sets the duration only when every step is defined. On `ZeroDivision` the number of appended entries is the index of the first undefined step |
| MotionProfiles.LoweredKeepsSpacing | core/motion_profile.py:55-71 | Lowering speeds keeps the displacements non-decreasing |
| MotionProfiles.LoweredTransitive | core/motion_profile.py:55-71 | Lowering twice is lowering |
| InterpLUTs.Bracket | core/interp_lut.py:15-17 | The scan stops at the first index k with x ≤ xs[k] |
| InterpLUTs.First | core/interp_lut.py:10-11 | `xs[0]`, or `IndexOutOfRange` on an empty list |
| InterpLUTs.Last | core/interp_lut.py:12-13 | `xs[-1]`, or `IndexOutOfRange` on an empty list |
| InterpLUTs.Lerp | core/interp_lut.py:6-7 | Fails with `ZeroDivision` exactly when x0 = x1. Gives y0 at x0 and y1 at x1 |
| InterpLUTs.LerpBetween | core/interp_lut.py:6-7 | For x0 < x ≤ x1 the value lies between y0 and y1 |
| InterpLUTs.InterpLUT.constructor | core/interp_lut.py:2-4 | Stores both lists unchanged |
| InterpLUTs.InterpLUT.Lookup | core/interp_lut.py:9-22 | The while scan computes the clamped piecewise-linear value. Its only failure is `IndexOutOfRange`. The lists are constants, so lookup never modifies them |
| InterpLUTs.BracketIsFirst | core/interp_lut.py:15-17 | Any index that the scan cannot pass before is where the scan stops |
| InterpLUTs.LookupClamps | core/interp_lut.py:10-13 | At or below the first abscissa the result is y[0]. At or above the last it is y[−1] |
| InterpLUTs.LookupInterior | core/interp_lut.py:15-22 | Inside the table the scan stops at some 1 ≤ k ≤ last with xs[k−1] < x ≤ xs[k]. The division is never by zero, and the value lies between y[k−1] and y[k] |
| InterpLUTs.LookupExactAtSamples | core/interp_lut.py:9-22 | With strictly increasing abscissas and equal lengths, lookup at a sample abscissa returns that sample's y exactly |

## Left out

- Arc length and its inversion are foreign numerics, passed in as functions:
  - `quad` is `ArcLength`, the length a segment reports.
  - `optimize.brentq` is `RootFinder`, which returns an `Option`.
  - `unit_arc_length` and `displacement_at_parameter` are not modelled.
- `linalg.solve` is replaced by the closed-form Hermite solution. `HermiteSolveUnique` proves that solution is the only one.
- These are parameters and are not modelled: `math.cos`/`math.sin` of `math.radians` (`DegreeTrig`), `math.radians`, `math.sqrt` (`Sqrt`; properties that need a true root assume `IsSqrt`), and the numpy norm.
- The path's curvature and unit tangent at a displacement are parameters of `MakeProfile` (`curvatureAt`, `unitTangentAt`). `curvature_at_displacement`, `first_deriv_at_displacement`, `second_deriv_at_displacement`, `slope_at_displacement` and `point_at_displacement` are not modelled, so their failures inside `make_profile` are not modelled either.
- `Segment.unit_arc_length`, `displacement_at_parameter` and `point_at_displacement` are not modelled, because they only wrap `quad` and `brentq`.
- `Path.plot_points` and `dist` are not modelled, because they are rendering and norm helpers.
- `custom_trapezoidal` is not modelled: it is deprecated and unused. `QuinticPolynomial.__str__` is not modelled: it only formats text.
- `PathBuilder` is used by the example drivers, but no source file defines it. It is not part of this model. The simulator and the example scripts are not modelled either.
- Floating-point rounding is not modelled. `float('inf')` is the `Unbounded` speed cap and the `Vertical` slope.
- FromArgs: does not model a call that passes a six-element sequence followed by more arguments, which Python also accepts through `args[0]`.
- Segments.Segment.TangentAtParameter: carries no contract of its own. It is `SlopeOf` of the first derivative, and `SlopeOf` states the sentinel and the quotient.
- `manual_tangent_coefficient` is the constant 20. Nothing in the core changes it.
- The in-place list updates of `make_profile` are modelled as reassignment of `seq` fields and values. Aliasing of the inner `[s, v]` lists is not modelled.
- `end_acc` and `max_ang_vel` are accepted and never read, as in the source.
- MotionProfiles.MotionProfile.MakeProfile: its time part is split into `PlanAndTime` and `AppendTime`.
- MotionProfiles.ExpandTime: requires a non-empty profile. `make_profile` reaches the time part only after the overwrite of sample 0 has succeeded.
- MotionProfiles.ExpandTime: with three or more samples the source continues with inf or nan where the model stops with `ZeroDivision`. Every such profile has numpy-float interior displacements, so each `ds`, and from then on `current_time`, is a numpy scalar, and numpy division by zero only warns. The source raises `ZeroDivisionError` only for a two-sample profile. The model has no inf or nan, so it stops at the first undefined step in every case. This applies also to `AppendTime`, `PlanAndTime` and `MakeProfile`.
- MotionProfiles.MotionProfile.MakeProfile: on `ZeroDivision` it states only that some step is undefined. `AppendTime` and `ExpandTime` state that it is the first one.
- Failures of the path queries inside `make_profile` are not modelled, because those queries are parameters.
