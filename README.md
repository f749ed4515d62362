# splines-kt in Dafny

A Dafny model of the geometry and spline core of splines-kt, a Kotlin path-planning library. The core covers:

- rigid-body geometry in the plane: `Translation2d`, `Rotation2d`, `Pose2d`, `Twist2d` and `Pose2dWithCurvature`;
- two spline kinds:
  - `CubicHermiteSpline`;
  - `QuinticHermiteSpline`, with its curvature optimizer;
- the adaptive sampler `SplineGenerator`, which turns splines into a list of poses with curvature;
- the two `Util` helper objects.

Every `Double` is a Dafny `real`. A `Double` that can become infinite or NaN is a `KMath.Double`:

- `Finite(v)`, `PositiveInfinity`, `NegativeInfinity` or `NaN`;
- the division, sum and product helpers in `KMath` follow IEEE-754 on those four cases.

The transcendental functions (`sin`, `cos`, `atan2`, `hypot`, `sqrt`, `acos`) are fields of a record `KMath.Math`, which every operation that needs them takes as a parameter. A lemma assumes only the facts it names, as ghost predicates on that record:

- `HypotIsEuclidean`: hypot is the non-negative square root of x² + y²;
- `SqrtIsRoot`: sqrt is the non-negative square root;
- `TrigAtZero`: sin 0 = 0, cos 0 = 1 and atan2(0, 1) = 0.

## Module layout

- `wrappers.dfy`: `Wrappers`, an `Option` type.
- `kmath.dfy`: `KMath`, the `Math` record, IEEE `Double` and real helpers.
- `util.dfy`: `Util`, from `util/Util.kt`.
- `splinesutil.dfy`: `SplinesUtil`, the `toDegrees`/`toRadians` pair of `splinesutil/Util.kt`.
- `vectors.dfy`: `Vectors`, covering `Translation2d` and `Rotation2d`, which depend on each other.
- `twist2d.dfy`: `Twists`.
- `pose2d.dfy`: `Poses`.
- `pose2d_with_curvature.dfy`: `CurvaturePoses`.
- `spline.dfy`: `Splines`, the abstract `Spline` as a record of its five functions of t.
- `cubic_hermite_spline.dfy`: `CubicHermite`.
- `quintic_hermite_spline.dfy`: `QuinticHermite`, the polynomial algebra and the mutable spline class with its twelve boundary fields.
- `quintic_optimizer.dfy`: `QuinticOptimizer`, the companion object: `sumDCurvature2` over a list, `fitParabola`, `runOptimizationIteration` and `optimizeSpline`.
- `spline_generator.dfy`: `SplineGenerator`.

The value types of the geometry package are datatypes, since their Kotlin classes only have `val` fields. `QuinticHermiteSpline` is a class, because the optimizer changes its fields in place. `SplineGenerator`'s result list is a class `SampleList`, because `getSegmentArc` appends to a list it shares with its caller.

Each imperative operation is a method proved against a function of its inputs:

- the loops of `sumDCurvature2`, `allCloseTo` and `joinStrings`;
- the three junction loops of `runOptimizationIteration`;
- the `optimizeSpline` loop, and the sampler's loop and recursion.

The lemmas beside them state the properties of those functions.

## Model

| member | source | states |
|---|---|---|
| Util.Limit | src/commonMain/kotlin/com/team254/lib/util/Util.kt:18-20 | the result lies in [min, max] when min ≤ max; it is v when v is already in range, min below it and max above it; it is max when max < min |
| Util.LimitMagnitude | src/commonMain/kotlin/com/team254/lib/util/Util.kt:14-16 | the result lies in [−m, m] for m ≥ 0; it is v when abs(v) ≤ m, −m below that range and m above it |
| Util.Interpolate | src/commonMain/kotlin/com/team254/lib/util/Util.kt:22-26 | a at x ≤ 0, b at x ≥ 1, the linear blend for x in [0, 1], and always between min(a, b) and max(a, b) |
| Util.InterpolateDouble | src/commonMain/kotlin/com/team254/lib/util/Util.kt:22-26 | the same on IEEE values: the real interpolation of two finite values; NaN when either input is NaN or the first is infinite |
| Util.InterpolateReversed | src/commonMain/kotlin/com/team254/lib/util/Util.kt:22-26 | interpolate(a, b, x) equals interpolate(b, a, 1 − x) for every x |
| Util.EpsilonEquals | src/commonMain/kotlin/com/team254/lib/util/Util.kt:39-42 | the two-sided comparison holds exactly when abs(a − b) ≤ epsilon |
| Util.EpsilonEqualsReflexiveSymmetric | src/commonMain/kotlin/com/team254/lib/util/Util.kt:39-42 | epsilonEquals is reflexive for epsilon ≥ 0 and symmetric |
| Util.Wrap32 | src/commonMain/kotlin/com/team254/lib/util/Util.kt:44-46 | Kotlin `Int` arithmetic: the identity on the 32-bit range, and congruent to its input modulo 2^32 |
| Util.EpsilonEqualsIntAsWritten | src/commonMain/kotlin/com/team254/lib/util/Util.kt:44-46 | the `Int` overload with both sums wrapped to 32 bits; without overflow it agrees with the exact comparison |
| Util.EpsilonEqualsIntWrapCounterexample | src/commonMain/kotlin/com/team254/lib/util/Util.kt:44-46 | as written, epsilonEquals(Int.MIN_VALUE, Int.MIN_VALUE, 1) is false |
| Util.EpsilonEqualsInt | src/commonMain/kotlin/com/team254/lib/util/Util.kt:44-46 | corrected `Int` overload: true exactly when a − epsilon ≤ b ≤ a + epsilon in exact integers |
| Util.EpsilonEqualsIntReflexiveSymmetric | src/commonMain/kotlin/com/team254/lib/util/Util.kt:44-46 | the corrected `Int` overload is reflexive for epsilon ≥ 0 and symmetric, like the `Double` one |
| Util.AllCloseTo | src/commonMain/kotlin/com/team254/lib/util/Util.kt:48-54 | the loop's result is true exactly when every element is epsilon-equal to the value, so true on an empty list |
| Util.AppendedText | src/commonMain/kotlin/com/team254/lib/util/Util.kt:28-37 | definition as in the source (a null delimiter appends "null", otherwise the delimiter); property: Joined, JoinedLength through JoinStrings |
| Util.JoinStrings | src/commonMain/kotlin/com/team254/lib/util/Util.kt:28-37 | the StringBuilder loop builds the elements joined by the delimiter: "" for no elements, the delimiter between consecutive elements only |
| Util.JoinedLength | src/commonMain/kotlin/com/team254/lib/util/Util.kt:28-37 | for n > 0 elements the result's length is the sum of their lengths plus n − 1 delimiters |
| Util.JoinedConcat | src/commonMain/kotlin/com/team254/lib/util/Util.kt:28-37 | joining a + b is joining a, one delimiter, then joining b |
| SplinesUtil.ToDegrees | src/commonMain/kotlin/com/team254/lib/splinesutil/Util.kt:61-65 | positive radians give larger degrees; zero exactly at zero |
| SplinesUtil.ToRadians | src/commonMain/kotlin/com/team254/lib/splinesutil/Util.kt:67-71 | positive degrees give smaller radians; zero exactly at zero |
| SplinesUtil.DegreesRadiansRoundTrip | src/commonMain/kotlin/com/team254/lib/splinesutil/Util.kt:61-71 | toRadians(toDegrees(r)) = r and toDegrees(toRadians(d)) = d over the reals, with PI > 0 |
| KMath.Divide | src/commonMain/kotlin/com/team254/lib/geometry/Twist2d.kt:26 | IEEE division of reals: the quotient for d ≠ 0; for d = 0, NaN exactly when n = 0, otherwise an infinity with n's sign |
| KMath.DivideBy | src/commonMain/kotlin/com/team254/lib/spline/Spline.kt:23 | an IEEE value divided by a real: NaN stays NaN, and a finite result times d gives back the dividend |
| KMath.Plus | src/commonMain/kotlin/com/team254/lib/spline/QuinticHermiteSpline.kt:181 | an IEEE sum is finite exactly when both terms are; it is then the real sum, and NaN in gives NaN out |
| KMath.Times | src/commonMain/kotlin/com/team254/lib/spline/QuinticHermiteSpline.kt:181 | a real times an IEEE value is finite exactly when the value is; it is then the real product, and NaN stays NaN |
| KMath.Negate | src/commonMain/kotlin/com/team254/lib/geometry/Pose2dWithCurvature.kt:57-59 | negation keeps finiteness and NaN and swaps the two infinities |
| KMath.Abs | src/commonMain/kotlin/com/team254/lib/geometry/Twist2d.kt:22 | non-negative and equal to x or −x |
| KMath.Sign | src/commonMain/kotlin/com/team254/lib/geometry/Rotation2d.kt:118-129 | sign(x) · abs(x) = x; abs(sign(x)) = 1 for x ≠ 0, and sign(0) = 0 |
| KMath.Min | src/commonMain/kotlin/com/team254/lib/util/Util.kt:19 | a lower bound of both arguments that is one of them |
| KMath.Max | src/commonMain/kotlin/com/team254/lib/util/Util.kt:19 | an upper bound of both arguments that is one of them |
| KMath.HypotZero | src/commonMain/kotlin/com/team254/lib/geometry/Translation2d.kt:37-39 | with a Euclidean hypot, hypot(x, y) = 0 exactly at the origin |
| KMath.HypotOfScaledUnit | src/commonMain/kotlin/com/team254/lib/geometry/Rotation2d.kt:21-37 | the hypot of a unit vector scaled by k ≥ 0 is k |
| Vectors.Translation2d.Norm2 | src/commonMain/kotlin/com/team254/lib/geometry/Translation2d.kt:41-43 | norm2 is non-negative and zero exactly at the origin |
| Vectors.Translation2d.Interpolate | src/commonMain/kotlin/com/team254/lib/geometry/Translation2d.kt:86-93 | a copy of this at x ≤ 0, a copy of other at x ≥ 1, the extrapolation in between |
| Vectors.Translation2d.Extrapolate | src/commonMain/kotlin/com/team254/lib/geometry/Translation2d.kt:95-97 | y is y + x · (other.y − y); x is x · (other.x − x) + x, with the parameter x in place of the field x as written |
| Vectors.Translation2d.ExtrapolateIntended | src/commonMain/kotlin/com/team254/lib/geometry/Translation2d.kt:95-97 | corrected extrapolation: this at s = 0, other at s = 1, and always on the line through them (zero cross product) |
| Vectors.Translation2d.InterpolateIntended | src/commonMain/kotlin/com/team254/lib/geometry/Translation2d.kt:86-93 | corrected interpolation: this at s ≤ 0, other at s ≥ 1, the corrected extrapolation in between |
| Vectors.Delta | src/commonMain/kotlin/com/team254/lib/geometry/Translation2d.kt:27-30 | the delta constructor: start translated by delta(start, end) is end |
| Vectors.GetAngle | src/commonMain/kotlin/com/team254/lib/geometry/Translation2d.kt:157-169 | the identity rotation when both the norm product and the dot product are 0, where the source's cosine is 0/0 (NaN) |
| Vectors.Rotation2d.Tan | src/commonMain/kotlin/com/team254/lib/geometry/Rotation2d.kt:59-67 | +∞ when abs(cos) < kEpsilon and sin ≥ 0, −∞ when sin < 0 there; otherwise a finite value whose product with cos is sin; never NaN |
| Vectors.Rotation2d.NearestPole | src/commonMain/kotlin/com/team254/lib/geometry/Rotation2d.kt:118-129 | one component is 0; the other is the sign of the dominant component, and it has magnitude 1 when that component is non-zero |
| Vectors.Rotation2d.Interpolate | src/commonMain/kotlin/com/team254/lib/geometry/Rotation2d.kt:131-139 | a copy of this at x ≤ 0, a copy of other at x ≥ 1, and the extrapolation through atan2 in between |
| Vectors.NewRotation | src/commonMain/kotlin/com/team254/lib/geometry/Rotation2d.kt:21-37 | the components are stored as given without normalize; with normalize, (1, 0) when hypot ≤ kEpsilon and each component divided by hypot otherwise |
| Vectors.NormalizedIsUnit | src/commonMain/kotlin/com/team254/lib/geometry/Rotation2d.kt:21-37 | with a Euclidean hypot, a normalized rotation has cos² + sin² = 1 |
| Vectors.NormalizeUnit | src/commonMain/kotlin/com/team254/lib/geometry/Rotation2d.kt:21-37 | normalizing a unit rotation gives it back |
| Vectors.TranslateByLaws | src/commonMain/kotlin/com/team254/lib/geometry/Translation2d.kt:59-61 | translateBy is commutative and associative, with the origin as identity on both sides |
| Vectors.TranslationInverseLaws | src/commonMain/kotlin/com/team254/lib/geometry/Translation2d.kt:82-84 | inverse is involutive, and t translated by its inverse is the origin |
| Vectors.DeltaIsDifference | src/commonMain/kotlin/com/team254/lib/geometry/Translation2d.kt:27-30 | delta(start, end) equals end.translateBy(start.inverse()) |
| Vectors.CrossDotLaws | src/commonMain/kotlin/com/team254/lib/geometry/Translation2d.kt:152-174 | cross is antisymmetric with cross(a, a) = 0, and dot is symmetric |
| Vectors.RotateByKeepsNorm2 | src/commonMain/kotlin/com/team254/lib/geometry/Translation2d.kt:69-71 | rotating by a unit rotation preserves norm2 |
| Vectors.RotateByIdentity | src/commonMain/kotlin/com/team254/lib/geometry/Translation2d.kt:69-71 | rotating by (1, 0) changes nothing |
| Vectors.RotateUnitX | src/commonMain/kotlin/com/team254/lib/geometry/Translation2d.kt:69-71 | rotating (1, 0) by r gives r's (cos, sin) |
| Vectors.RotateByInverseTranslation | src/commonMain/kotlin/com/team254/lib/geometry/Translation2d.kt:69-84 | rotating commutes with inverting a translation, and the origin stays the origin |
| Vectors.RotateByThenInverse | src/commonMain/kotlin/com/team254/lib/geometry/Translation2d.kt:69-71 | rotating by a unit rotation and then by its inverse, in either order, gives the translation back |
| Vectors.ScaleLaws | src/commonMain/kotlin/com/team254/lib/geometry/Translation2d.kt:99-101 | scale(1) is the identity, and scale(s).scale(u) = scale(s · u) |
| Vectors.TranslationEpsilonEqualsLaws | src/commonMain/kotlin/com/team254/lib/geometry/Translation2d.kt:103-105 | epsilonEquals is reflexive for epsilon ≥ 0 and symmetric |
| Vectors.Translation2d.Norm | src/commonMain/kotlin/com/team254/lib/geometry/Translation2d.kt:37-39 | definition: hypot(x, y); property: TranslationDistanceLaws |
| Vectors.Translation2d.TranslateBy | src/commonMain/kotlin/com/team254/lib/geometry/Translation2d.kt:59-61 | definition as in the source; property: TranslateByLaws, TranslationInverseLaws |
| Vectors.Translation2d.RotateBy | src/commonMain/kotlin/com/team254/lib/geometry/Translation2d.kt:69-71 | definition: the rotation matrix applied to (x, y); property: RotateByKeepsNorm2, RotateByThenInverse, RotateByIdentity |
| Vectors.Translation2d.Inverse | src/commonMain/kotlin/com/team254/lib/geometry/Translation2d.kt:82-84 | definition: (−x, −y); property: TranslationInverseLaws |
| Vectors.Translation2d.Scale | src/commonMain/kotlin/com/team254/lib/geometry/Translation2d.kt:99-101 | definition as in the source; property: ScaleLaws |
| Vectors.Translation2d.Distance | src/commonMain/kotlin/com/team254/lib/geometry/Translation2d.kt:115-117 | definition: inverse().translateBy(other).norm(); property: TranslationDistanceLaws |
| Vectors.TranslationDistanceLaws | src/commonMain/kotlin/com/team254/lib/geometry/Translation2d.kt:115-117 | with a Euclidean hypot, a translation is at distance 0 from itself, and distance is symmetric |
| Vectors.Dot | src/commonMain/kotlin/com/team254/lib/geometry/Translation2d.kt:152-154 | definition as in the source; property: CrossDotLaws |
| Vectors.Cross | src/commonMain/kotlin/com/team254/lib/geometry/Translation2d.kt:172-174 | definition as in the source; property: CrossDotLaws, NormalInverseLaws |
| Vectors.ExtrapolateShadowingCounterexample | src/commonMain/kotlin/com/team254/lib/geometry/Translation2d.kt:95-97 | interpolating from the origin to the origin at 0.5 gives (0.25, 0) as written, and the origin once corrected |
| Vectors.InterpolateIntendedBetween | src/commonMain/kotlin/com/team254/lib/geometry/Translation2d.kt:86-97 | each component of the corrected interpolation lies between the endpoints' components |
| Vectors.RotateByCommutes | src/commonMain/kotlin/com/team254/lib/geometry/Rotation2d.kt:80-85 | r.rotateBy(q) equals q.rotateBy(r) |
| Vectors.RotateByInverse | src/commonMain/kotlin/com/team254/lib/geometry/Rotation2d.kt:80-98 | a unit rotation rotated by its inverse is (1, 0); the identity rotation is neutral on both sides |
| Vectors.RotateByIdentityRotation | src/commonMain/kotlin/com/team254/lib/geometry/Rotation2d.kt:80-85 | rotating a unit rotation by (1, 0), on either side, gives it back |
| Vectors.Rotation2d.RotateBy | src/commonMain/kotlin/com/team254/lib/geometry/Rotation2d.kt:80-85 | definition: the angle-sum products, normalised; property: RotateByCommutes, RotateByInverse, RotateByIdentityRotation |
| Vectors.Rotation2d.Normal | src/commonMain/kotlin/com/team254/lib/geometry/Rotation2d.kt:87-89 | definition: (−sin, cos) without normalising; property: NormalInverseLaws, NormalNotParallel |
| Vectors.Rotation2d.Inverse | src/commonMain/kotlin/com/team254/lib/geometry/Rotation2d.kt:96-98 | definition: (cos, −sin) without normalising; property: NormalInverseLaws, RotateByInverse |
| Vectors.Rotation2d.IsParallel | src/commonMain/kotlin/com/team254/lib/geometry/Rotation2d.kt:100-107 | definition: the cross product of the two (cos, sin) vectors is epsilon-equal to 0; property: IsParallelLaws, NormalNotParallel |
| Vectors.Rotation2d.Radians | src/commonMain/kotlin/com/team254/lib/geometry/Rotation2d.kt:69-70 | definition: atan2(sin, cos), with atan2 a parameter; property: Poses.Log (dtheta is the radians), Poses.LogStraight |
| Vectors.NormalInverseLaws | src/commonMain/kotlin/com/team254/lib/geometry/Rotation2d.kt:87-98 | normal is orthogonal to r; normal applied twice is (−cos, −sin); inverse is involutive and keeps unit length |
| Vectors.IsParallelLaws | src/commonMain/kotlin/com/team254/lib/geometry/Rotation2d.kt:100-107 | isParallel is reflexive and symmetric |
| Vectors.NormalNotParallel | src/commonMain/kotlin/com/team254/lib/geometry/Rotation2d.kt:100-107 | a unit rotation is not parallel to its normal |
| Twists.Twist2d.Curvature | src/commonMain/kotlin/com/team254/lib/geometry/Twist2d.kt:25-27 | 0 when abs(dtheta) and norm are both below kEpsilon; otherwise a finite value whose product with norm is dtheta, or an infinity of dtheta's sign when norm is 0 |
| Twists.NormIsEuclidean | src/commonMain/kotlin/com/team254/lib/geometry/Twist2d.kt:20-23 | both branches of norm give the non-negative root of dx² + dy² |
| Twists.NormScaled | src/commonMain/kotlin/com/team254/lib/geometry/Twist2d.kt:16-23 | scaled(k).norm() = abs(k) · norm() |
| Twists.ScaledLaws | src/commonMain/kotlin/com/team254/lib/geometry/Twist2d.kt:16-18 | scaled(1) is the identity, and scaled(a).scaled(b) = scaled(a · b) |
| Twists.CurvatureScaled | src/commonMain/kotlin/com/team254/lib/geometry/Twist2d.kt:16-27 | scaling by a positive factor keeps the curvature, outside the small-twist branch |
| Twists.IdentityIsStill | src/commonMain/kotlin/com/team254/lib/geometry/Twist2d.kt:34-38 | the identity twist has norm 0 and curvature 0 |
| Twists.Twist2d.Scaled | src/commonMain/kotlin/com/team254/lib/geometry/Twist2d.kt:16-18 | definition as in the source; property: ScaledLaws, NormScaled, CurvatureScaled |
| Twists.Twist2d.Norm | src/commonMain/kotlin/com/team254/lib/geometry/Twist2d.kt:20-23 | definition: abs(dx) when dy is exactly 0, hypot(dx, dy) otherwise; property: NormIsEuclidean, NormScaled |
| Twists.StraightTwistCurvature | src/commonMain/kotlin/com/team254/lib/geometry/Twist2d.kt:25-27 | a twist with dtheta = 0 and non-zero norm has curvature 0 |
| Poses.Pose2d.Normal | src/commonMain/kotlin/com/team254/lib/geometry/Pose2d.kt:65-67 | normal keeps the translation |
| Poses.Pose2d.Intersection | src/commonMain/kotlin/com/team254/lib/geometry/Pose2d.kt:73-84 | parallel headings give the (+∞, +∞) sentinel, here `NoCrossing` |
| Poses.Pose2d.IsColinear | src/commonMain/kotlin/com/team254/lib/geometry/Pose2d.kt:89-93 | true only for parallel rotations, and only when the relative twist's dy is within kEpsilon of 0 |
| Poses.Pose2d.Interpolate | src/commonMain/kotlin/com/team254/lib/geometry/Pose2d.kt:103-111 | a copy of this at x ≤ 0 and a copy of other at x ≥ 1 |
| Poses.Pose2d.Mirror | src/commonMain/kotlin/com/team254/lib/geometry/Pose2d.kt:132-134 | definition as in the source ((x, y, r) becomes (x, −y, r⁻¹)); property: MirrorTwice |
| Poses.Exp | src/commonMain/kotlin/com/team254/lib/geometry/Pose2d.kt:155-171 | the rotation is (cos dtheta, sin dtheta), stored without normalisation |
| Poses.Log | src/commonMain/kotlin/com/team254/lib/geometry/Pose2d.kt:177-189 | the twist's dtheta is the rotation's radians |
| Poses.IntersectionInternal | src/commonMain/kotlin/com/team254/lib/geometry/Pose2d.kt:191-205 | a point when tan(b) is finite and the denominator is non-zero; the sentinel when tan(b) is infinite |
| Poses.IntersectionInternalOnBothLines | src/commonMain/kotlin/com/team254/lib/geometry/Pose2d.kt:191-205 | any point found lies on both poses' lines |
| Poses.IntersectionOnBothLines | src/commonMain/kotlin/com/team254/lib/geometry/Pose2d.kt:73-84 | any point that intersection returns lies on both poses' lines (it is their crossing) |
| Poses.IntersectionSymmetric | src/commonMain/kotlin/com/team254/lib/geometry/Pose2d.kt:79-83 | when the cosines differ in magnitude, a.intersection(b) = b.intersection(a), because both pick the same argument order |
| Poses.TransformByIdentity | src/commonMain/kotlin/com/team254/lib/geometry/Pose2d.kt:48-53 | transforming by the identity, on either side, gives the pose back for a unit rotation |
| Poses.TransformByInverse | src/commonMain/kotlin/com/team254/lib/geometry/Pose2d.kt:48-63 | p.transformBy(p.inverse()) and p.inverse().transformBy(p) are the identity for a unit rotation |
| Poses.InverseOfTranslation | src/commonMain/kotlin/com/team254/lib/geometry/Pose2d.kt:60-63 | the inverse of a pure translation is the inverse translation with the inverted identity rotation |
| Poses.TransformByTranslation | src/commonMain/kotlin/com/team254/lib/geometry/Pose2d.kt:48-53 | composing a pose facing (1, 0) with a pure translation adds the translations |
| Poses.RelativeStraight | src/commonMain/kotlin/com/team254/lib/geometry/Pose2d.kt:48-63 | the inverse of one pure translation, composed with another, is their delta |
| Poses.MirrorTwice | src/commonMain/kotlin/com/team254/lib/geometry/Pose2d.kt:132-134 | mirror applied twice gives the pose back |
| Poses.ExpStraight | src/commonMain/kotlin/com/team254/lib/geometry/Pose2d.kt:155-171 | for dtheta = 0, exp takes the series branch and gives the pure translation (dx, dy) |
| Poses.LogStraight | src/commonMain/kotlin/com/team254/lib/geometry/Pose2d.kt:177-189 | for rotation (1, 0), log takes the series branch and gives (x, y, 0) |
| Poses.ExpLogStraightRoundTrip | src/commonMain/kotlin/com/team254/lib/geometry/Pose2d.kt:155-189 | log(exp(w)) = w for straight twists, and exp(log(p)) = p for pure translations |
| Poses.InterpolateStraight | src/commonMain/kotlin/com/team254/lib/geometry/Pose2d.kt:103-111 | between two pure translations, interpolate for 0 < x < 1 is the linear blend of the translations |
| Poses.SelfColinear | src/commonMain/kotlin/com/team254/lib/geometry/Pose2d.kt:89-93 | a unit pose is colinear with itself, at distance 0 |
| Poses.NotColinearWithNormal | src/commonMain/kotlin/com/team254/lib/geometry/Pose2d.kt:89-93 | a unit pose is never colinear with its normal |
| Poses.PoseEpsilonEqualsLaws | src/commonMain/kotlin/com/team254/lib/geometry/Pose2d.kt:95-98 | epsilonEquals is reflexive for epsilon ≥ 0 and symmetric |
| Poses.Pose2d.TransformBy | src/commonMain/kotlin/com/team254/lib/geometry/Pose2d.kt:48-53 | definition as in the source; property: TransformByIdentity, TransformByInverse, TransformByTranslation |
| Poses.Pose2d.Inverse | src/commonMain/kotlin/com/team254/lib/geometry/Pose2d.kt:60-63 | definition as in the source; property: TransformByInverse, InverseOfTranslation |
| Poses.Pose2d.Distance | src/commonMain/kotlin/com/team254/lib/geometry/Pose2d.kt:121-123 | definition: log(inverse().transformBy(other)).norm(); property: DistanceToSelf |
| Poses.DistanceToSelf | src/commonMain/kotlin/com/team254/lib/geometry/Pose2d.kt:121-123 | with a Euclidean hypot and sin 0 = 0, cos 0 = 1, atan2(0, 1) = 0, a pose with a unit rotation is at distance 0 from itself |
| CurvaturePoses.Pose2dWithCurvature.TransformBy | src/commonMain/kotlin/com/team254/lib/geometry/Pose2dWithCurvature.kt:53-55 | definition as in the source (the pose transformed, curvature and dCurvatureDs kept); property of the pose part: Poses.TransformByIdentity, Poses.TransformByInverse |
| CurvaturePoses.Pose2dWithCurvature.Mirror | src/commonMain/kotlin/com/team254/lib/geometry/Pose2dWithCurvature.kt:57-59 | mirrors the pose and negates curvature and dCurvatureDs, keeping whether each is finite |
| CurvaturePoses.Pose2dWithCurvature.Interpolate | src/commonMain/kotlin/com/team254/lib/geometry/Pose2dWithCurvature.kt:66-72 | interpolates the pose; finite curvature and dCurvatureDs are combined by the clamped linear interpolation |
| CurvaturePoses.MirrorTwice | src/commonMain/kotlin/com/team254/lib/geometry/Pose2dWithCurvature.kt:57-59 | mirror applied twice gives the value back |
| CurvaturePoses.InterpolateEndpoints | src/commonMain/kotlin/com/team254/lib/geometry/Pose2dWithCurvature.kt:66-72 | for finite values, this at x ≤ 0 and other at x ≥ 1, and the result stays finite |
| CurvaturePoses.InterpolateCurvatureBetween | src/commonMain/kotlin/com/team254/lib/geometry/Pose2dWithCurvature.kt:66-72 | the interpolated curvature lies between the two curvatures |
| CurvaturePoses.ConstructorDefaults | src/commonMain/kotlin/com/team254/lib/geometry/Pose2dWithCurvature.kt:11-37 | the constructors without a dcurvature argument set dCurvatureDs to 0; the default constructor is the identity pose with zero curvature |
| Splines.Spline.GetPose2d | src/commonMain/kotlin/com/team254/lib/spline/Spline.kt:18-20 | definition as in the source (getPoint(t) with getHeading(t)); property: Spline.GetPose2dWithCurvature, whose pose it is |
| Splines.Spline.GetPose2dWithCurvature | src/commonMain/kotlin/com/team254/lib/spline/Spline.kt:22-24 | the pose is getPose2d(t) and the curvature getCurvature(t); dCurvatureDs is finite exactly when the dCurvature is finite and the velocity non-zero, and then it times the velocity gives the dCurvature |
| Splines.RegularSamplesFinite | src/commonMain/kotlin/com/team254/lib/spline/Spline.kt:22-24 | a spline with non-zero velocity and finite curvatures yields finite samples |
| CubicHermite.HermiteCubic | src/commonMain/kotlin/com/team254/lib/spline/CubicHermiteSpline.kt:63-70 | the coefficients give p0 and p1 at t = 0 and 1, with slopes v0 and v1 |
| CubicHermite.Cubic.Value | src/commonMain/kotlin/com/team254/lib/spline/CubicHermiteSpline.kt:19-23 | definition: t³ a + t² b + t c + d as getPoint evaluates it; property: HermiteCubic |
| CubicHermite.Cubic.Slope | src/commonMain/kotlin/com/team254/lib/spline/CubicHermiteSpline.kt:25-29 | definition: 3 t² a + 2 t b + c as getHeading and getCurvature compute it; property: HermiteCubic, NewCubic |
| CubicHermite.Cubic.Bend | src/commonMain/kotlin/com/team254/lib/spline/CubicHermiteSpline.kt:39-40 | definition: 6 t a + 2 b; property: CurvatureWhileMoving |
| CubicHermite.CubicHermiteSpline.GetPoint | src/commonMain/kotlin/com/team254/lib/spline/CubicHermiteSpline.kt:19-23 | definition as in the source; property: NewCubic, StraightCubicIsFlat |
| CubicHermite.CubicHermiteSpline.GetHeading | src/commonMain/kotlin/com/team254/lib/spline/CubicHermiteSpline.kt:25-29 | definition: the normalised derivative; property: HeadingsAtEnds |
| CubicHermite.CubicHermiteSpline.GetVelocity | src/commonMain/kotlin/com/team254/lib/spline/CubicHermiteSpline.kt:31-34 | definition: the constant 1.0 the source returns; property: CubicHermite.AsSpline |
| CubicHermite.CubicHermiteSpline.GetDCurvature | src/commonMain/kotlin/com/team254/lib/spline/CubicHermiteSpline.kt:44-47 | definition: the constant 0.0 the source returns; property: CubicHermite.AsSpline |
| CubicHermite.CurvatureOf | src/commonMain/kotlin/com/team254/lib/spline/CubicHermiteSpline.kt:41 | definition: (dx ddy − dy ddx) / ((dx² + dy²) sqrt(dx² + dy²)) in IEEE division; property: CubicHermiteSpline.GetCurvature, CurvatureWhileMoving, FlatCubicHasNoCurvature |
| CubicHermite.NewCubic | src/commonMain/kotlin/com/team254/lib/spline/CubicHermiteSpline.kt:49-71 | getPoint(0) = p0 and getPoint(1) = p1; the tangents are the rotations' (cos, sin) times 2 · distance(p0, p1) |
| CubicHermite.AsSpline | src/commonMain/kotlin/com/team254/lib/spline/CubicHermiteSpline.kt:31-47 | as a `Spline`, the velocity is always 1.0 and the dCurvature always 0.0, with the spline's own points |
| CubicHermite.HeadingsAtEnds | src/commonMain/kotlin/com/team254/lib/spline/CubicHermiteSpline.kt:25-29 | the normalised derivative gives back the unit rotations of p0 and p1 at t = 0 and 1 |
| CubicHermite.CubicHermiteSpline.GetCurvature | src/commonMain/kotlin/com/team254/lib/spline/CubicHermiteSpline.kt:36-42 | NaN where the derivative vanishes (0/0) |
| CubicHermite.CurvatureWhileMoving | src/commonMain/kotlin/com/team254/lib/spline/CubicHermiteSpline.kt:36-42 | with a moving derivative, the curvature is finite and is the cross term over (dx² + dy²)^(3/2) |
| CubicHermite.PositiveSpeedDenominator | src/commonMain/kotlin/com/team254/lib/spline/CubicHermiteSpline.kt:41 | the curvature's denominator is positive when the derivative is non-zero |
| CubicHermite.StraightCubicIsFlat | src/commonMain/kotlin/com/team254/lib/spline/CubicHermiteSpline.kt:49-71 | between two poses on the x axis that face along it, the y polynomial is zero |
| CubicHermite.FlatCubicHasNoCurvature | src/commonMain/kotlin/com/team254/lib/spline/CubicHermiteSpline.kt:36-42 | a spline with zero y polynomial has curvature 0 wherever it is finite |
| QuinticHermite.HermiteQuinticInterpolates | src/commonMain/kotlin/com/team254/lib/spline/QuinticHermiteSpline.kt:79-92 | the coefficients of computeCoefficients give the position, first and second derivative at t = 0 and t = 1 exactly |
| QuinticHermite.HermiteQuintic | src/commonMain/kotlin/com/team254/lib/spline/QuinticHermiteSpline.kt:79-92 | definition: computeCoefficients' six coefficients of one coordinate; property: HermiteQuinticInterpolates |
| QuinticHermite.Quintic.Value | src/commonMain/kotlin/com/team254/lib/spline/QuinticHermiteSpline.kt:109-113 | definition: a t⁵ + b t⁴ + c t³ + d t² + e t + f as getPoint evaluates it; property: HermiteQuinticInterpolates |
| QuinticHermite.Quintic.D1 | src/commonMain/kotlin/com/team254/lib/spline/QuinticHermiteSpline.kt:115-121 | definition of dx / dy; property: HermiteQuinticInterpolates, Curve.Speed2 |
| QuinticHermite.Quintic.D2 | src/commonMain/kotlin/com/team254/lib/spline/QuinticHermiteSpline.kt:123-129 | definition of ddx / ddy; property: HermiteQuinticInterpolates |
| QuinticHermite.Quintic.D3 | src/commonMain/kotlin/com/team254/lib/spline/QuinticHermiteSpline.kt:131-137 | definition of dddx / dddy; it enters only getDCurvature and dCurvature2, whose properties are Curve.GetDCurvature and Curve.DCurvature2 |
| QuinticHermite.Curve.GetPoint | src/commonMain/kotlin/com/team254/lib/spline/QuinticHermiteSpline.kt:109-113 | definition as in the source; property: CoefficientsInterpolate, ConstructedSplineInterpolates |
| QuinticHermite.Curve.GetVelocity | src/commonMain/kotlin/com/team254/lib/spline/QuinticHermiteSpline.kt:139-141 | definition: hypot(dx, dy); property: QuinticHermite.AsSpline |
| QuinticHermite.Curve.GetHeading | src/commonMain/kotlin/com/team254/lib/spline/QuinticHermiteSpline.kt:169-171 | definition: the normalised first derivative; property: CoefficientsInterpolate |
| QuinticHermite.CoefficientsInterpolate | src/commonMain/kotlin/com/team254/lib/spline/QuinticHermiteSpline.kt:79-103 | a spline's polynomials meet its 12 boundary values; startPose and endPose are the point and heading at t = 0 and 1 |
| QuinticHermite.Curve.Speed2 | src/commonMain/kotlin/com/team254/lib/spline/QuinticHermiteSpline.kt:143-149 | dx² + dy² is non-negative and zero exactly when both derivatives are |
| QuinticHermite.Curve.GetCurvature | src/commonMain/kotlin/com/team254/lib/spline/QuinticHermiteSpline.kt:143-149 | NaN where the derivative vanishes |
| QuinticHermite.Curve.GetDCurvature | src/commonMain/kotlin/com/team254/lib/spline/QuinticHermiteSpline.kt:151-158 | NaN where the derivative vanishes |
| QuinticHermite.Curve.DCurvature2 | src/commonMain/kotlin/com/team254/lib/spline/QuinticHermiteSpline.kt:160-167 | finite and non-negative wherever dx² + dy² ≠ 0, NaN where it is 0 |
| QuinticHermite.FromPoses | src/commonMain/kotlin/com/team254/lib/spline/QuinticHermiteSpline.kt:37-52 | zero second derivatives, the poses' positions, and tangents that are the rotations' (cos, sin) times 1.2 · distance(p0, p1) |
| QuinticHermite.ConstructedSplineInterpolates | src/commonMain/kotlin/com/team254/lib/spline/QuinticHermiteSpline.kt:37-52 | the constructed spline goes through p0 at t = 0 and p1 at t = 1 with zero second derivatives there |
| QuinticHermite.QuinticHermiteSpline.constructor | src/commonMain/kotlin/com/team254/lib/spline/QuinticHermiteSpline.kt:37-52 | the object holds the boundary values of the public constructor, with up-to-date coefficients |
| QuinticHermite.QuinticHermiteSpline.FromBoundary | src/commonMain/kotlin/com/team254/lib/spline/QuinticHermiteSpline.kt:57-74 | the private constructor stores the twelve given values and computes the coefficients |
| QuinticHermite.QuinticHermiteSpline.ComputeCoefficients | src/commonMain/kotlin/com/team254/lib/spline/QuinticHermiteSpline.kt:79-92 | keeps the boundary fields and brings the coefficients up to date |
| QuinticHermite.QuinticHermiteSpline.AddToEnd | src/commonMain/kotlin/com/team254/lib/spline/QuinticHermiteSpline.kt:351-358 | adds to ddx1 and ddy1 only, then recomputes the coefficients |
| QuinticHermite.QuinticHermiteSpline.AddToStart | src/commonMain/kotlin/com/team254/lib/spline/QuinticHermiteSpline.kt:353-358 | adds to ddx0 and ddy0 only, then recomputes the coefficients |
| QuinticHermite.QuinticHermiteSpline.StartPose | src/commonMain/kotlin/com/team254/lib/spline/QuinticHermiteSpline.kt:94-98 | the start pose is that of the object's boundary values |
| QuinticHermite.QuinticHermiteSpline.EndPose | src/commonMain/kotlin/com/team254/lib/spline/QuinticHermiteSpline.kt:99-103 | the end pose is that of the object's boundary values |
| QuinticHermite.SamplePoints | src/commonMain/kotlin/com/team254/lib/spline/QuinticHermiteSpline.kt:176-185 | the sample points step by 1/kSamples, and exactly kSamples of them lie below 1 |
| QuinticHermite.SampleTerm | src/commonMain/kotlin/com/team254/lib/spline/QuinticHermiteSpline.kt:181 | one term of the sum is finite and non-negative where the spline moves, NaN where it stops |
| QuinticHermite.RiemannSum | src/commonMain/kotlin/com/team254/lib/spline/QuinticHermiteSpline.kt:176-185 | definition: dt · dCurvature2 at the first k sample points, added in IEEE arithmetic; property: RiemannSumNonNegative, QuinticHermiteSpline.SumDCurvature2 |
| QuinticHermite.ListSum | src/commonMain/kotlin/com/team254/lib/spline/QuinticHermiteSpline.kt:205-211 | definition: the per-spline Riemann sums added in list order; property: ListSumNonNegative, SumDCurvature2List |
| QuinticHermite.RiemannSumNonNegative | src/commonMain/kotlin/com/team254/lib/spline/QuinticHermiteSpline.kt:176-185 | the per-spline sum is finite exactly when the spline moves at every sample, and is then non-negative |
| QuinticHermite.ListSumNonNegative | src/commonMain/kotlin/com/team254/lib/spline/QuinticHermiteSpline.kt:205-211 | the list sum is finite exactly when every spline's sum is, and is then non-negative |
| QuinticHermite.QuinticHermiteSpline.SumDCurvature2 | src/commonMain/kotlin/com/team254/lib/spline/QuinticHermiteSpline.kt:176-185 | the while loop computes the Riemann sum of dCurvature2 over the samples |
| QuinticHermite.SumDCurvature2List | src/commonMain/kotlin/com/team254/lib/spline/QuinticHermiteSpline.kt:205-211 | the for loop computes the sum of the per-spline sums, in list order |
| QuinticHermite.AsSpline | src/commonMain/kotlin/com/team254/lib/spline/QuinticHermiteSpline.kt:109-171 | as a `Spline`, the quintic's points and velocity (hypot of the derivatives) |
| QuinticOptimizer.Active | src/commonMain/kotlin/com/team254/lib/spline/QuinticHermiteSpline.kt:243-247 | one flag per junction; `ActivePrefixAt` and `ActiveHasFlags` state what each flag means |
| QuinticOptimizer.Objective | src/commonMain/kotlin/com/team254/lib/spline/QuinticHermiteSpline.kt:205-211 | definition: the per-spline costs added in list order, standing for sumDCurvature2(splines); property: SumObjective, OptimizeValue |
| QuinticOptimizer.Partial | src/commonMain/kotlin/com/team254/lib/spline/QuinticHermiteSpline.kt:248-313 | definition: the forward differences of the objective along junction i's x and y second derivatives over kEpsilon; property: ProbeJunction, GradientEntry |
| QuinticOptimizer.Magnitude | src/commonMain/kotlin/com/team254/lib/spline/QuinticHermiteSpline.kt:316-318 | definition: sqrt of the summed squared gradient entries; property: ActiveMagnitude, Magnitude2Appended |
| QuinticOptimizer.Feasible | src/commonMain/kotlin/com/team254/lib/spline/QuinticHermiteSpline.kt:236-379 | definition: fewer than two splines, no active junction, or a non-zero magnitude and a finite fitted step; property: IterationStep, ActiveMagnitude, RunOptimizationIteration |
| QuinticOptimizer.ActivePrefixAt | src/commonMain/kotlin/com/team254/lib/spline/QuinticHermiteSpline.kt:243-247 | a junction's flag is set exactly when neither its start poses nor its end poses are colinear |
| QuinticOptimizer.ActiveHasFlags | src/commonMain/kotlin/com/team254/lib/spline/QuinticHermiteSpline.kt:243-247 | a junction is active exactly when it is not skipped |
| QuinticOptimizer.Gradient | src/commonMain/kotlin/com/team254/lib/spline/QuinticHermiteSpline.kt:243-317 | one entry per junction considered; `GradientEntry` and `EstimateGradient` state what each entry is |
| QuinticOptimizer.Scale | src/commonMain/kotlin/com/team254/lib/spline/QuinticHermiteSpline.kt:331-332 | definition as in the source (every entry's ddx and ddy times the factor); property: ThreeShiftsAt, ThreeMovesActive |
| QuinticOptimizer.ScaleActive | src/commonMain/kotlin/com/team254/lib/spline/QuinticHermiteSpline.kt:368-369 | definition as in the source (only active junctions' entries times the factor); property: ThreeShiftsAt, ThreeMovesActive |
| QuinticOptimizer.MoveJunction | src/commonMain/kotlin/com/team254/lib/spline/QuinticHermiteSpline.kt:335-342 | moving a junction keeps the list's length; `ShiftedAt` gives each entry in closed form |
| QuinticOptimizer.Shifted | src/commonMain/kotlin/com/team254/lib/spline/QuinticHermiteSpline.kt:326-343 | shifting keeps the list's length; `ShiftedAt` gives each entry |
| QuinticOptimizer.ShiftedAt | src/commonMain/kotlin/com/team254/lib/spline/QuinticHermiteSpline.kt:326-343 | in closed form: spline j's end moves by junction j's delta and its start by junction j − 1's, each only when that junction is active |
| QuinticOptimizer.ShiftedInactive | src/commonMain/kotlin/com/team254/lib/spline/QuinticHermiteSpline.kt:326-343 | with no junction active, a shift changes nothing |
| QuinticOptimizer.ShiftedKeepsFrozen | src/commonMain/kotlin/com/team254/lib/spline/QuinticHermiteSpline.kt:335-338 | a shift never touches positions or first derivatives |
| QuinticOptimizer.ShiftedActiveEntries | src/commonMain/kotlin/com/team254/lib/spline/QuinticHermiteSpline.kt:326-343 | a shift reads the entries of active junctions only |
| QuinticOptimizer.FrozenPoses | src/commonMain/kotlin/com/team254/lib/spline/QuinticHermiteSpline.kt:94-103 | startPose and endPose depend only on positions and first derivatives |
| QuinticOptimizer.FrozenSkips | src/commonMain/kotlin/com/team254/lib/spline/QuinticHermiteSpline.kt:245 | lists that agree on positions and first derivatives skip the same junctions |
| QuinticOptimizer.ThreeMoves | src/commonMain/kotlin/com/team254/lib/spline/QuinticHermiteSpline.kt:326-378 | the three moves keep the list's length; `ThreeShiftsAt` gives each entry |
| QuinticOptimizer.ThreeShiftsAt | src/commonMain/kotlin/com/team254/lib/spline/QuinticHermiteSpline.kt:326-378 | each boundary value after the three moves, in closed form |
| QuinticOptimizer.ThreeMovesFrozen | src/commonMain/kotlin/com/team254/lib/spline/QuinticHermiteSpline.kt:326-378 | the three moves keep positions and first derivatives |
| QuinticOptimizer.ThreeMovesTogether | src/commonMain/kotlin/com/team254/lib/spline/QuinticHermiteSpline.kt:326-378 | both sides of a junction change by the same amount, and the path's two end splines keep their outer second derivatives |
| QuinticOptimizer.ThreeMovesKept | src/commonMain/kotlin/com/team254/lib/spline/QuinticHermiteSpline.kt:326-378 | a junction that is not active keeps its second derivatives on both sides |
| QuinticOptimizer.ThreeMovesShape | src/commonMain/kotlin/com/team254/lib/spline/QuinticHermiteSpline.kt:326-378 | the three moves together reshape the list only in second derivatives, alike on both sides and only at active junctions |
| QuinticOptimizer.ThreeMovesActive | src/commonMain/kotlin/com/team254/lib/spline/QuinticHermiteSpline.kt:326-378 | −1, +2 and then +k steps add up to k + 1 times the direction at each active junction |
| QuinticOptimizer.MovesKeepAgreement | src/commonMain/kotlin/com/team254/lib/spline/QuinticHermiteSpline.kt:327-338 | such moves keep every skip decision, and equal junction second derivatives stay equal |
| QuinticOptimizer.LineSearch | src/commonMain/kotlin/com/team254/lib/spline/QuinticHermiteSpline.kt:318-361 | the normalised gradient has one entry per junction; `LineSearchSteps` states the three probes and the vertex |
| QuinticOptimizer.Iterated | src/commonMain/kotlin/com/team254/lib/spline/QuinticHermiteSpline.kt:236-379 | one iteration as a function keeps the list's length; `IteratedShape`, `IteratedMoves` and `IteratedNetMove` state how it moves the list |
| QuinticOptimizer.IteratedShape | src/commonMain/kotlin/com/team254/lib/spline/QuinticHermiteSpline.kt:236-379 | one iteration changes only the second derivatives at active junctions, alike on both sides, and never the path's two ends |
| QuinticOptimizer.IteratedMoves | src/commonMain/kotlin/com/team254/lib/spline/QuinticHermiteSpline.kt:236-379 | one iteration keeps every skip decision, and a junction whose two sides agreed still agrees |
| QuinticOptimizer.IteratedNetMove | src/commonMain/kotlin/com/team254/lib/spline/QuinticHermiteSpline.kt:331-373 | at each active junction the net move is (2 + s) times the normalised gradient |
| QuinticOptimizer.IteratedAtVertex | src/commonMain/kotlin/com/team254/lib/spline/QuinticHermiteSpline.kt:366-373 | the corrected iteration keeps the list's length; `IteratedAtVertexMoves` states its move |
| QuinticOptimizer.IteratedAtVertexMoves | src/commonMain/kotlin/com/team254/lib/spline/QuinticHermiteSpline.kt:361-373 | the corrected iteration moves each active junction by s times the normalised gradient, to the fitted vertex |
| QuinticOptimizer.IteratedAtVertexKeeps | src/commonMain/kotlin/com/team254/lib/spline/QuinticHermiteSpline.kt:362-378 | the corrected iteration reshapes the list in the same restricted way |
| QuinticOptimizer.ThreeMovesGap | src/commonMain/kotlin/com/team254/lib/spline/QuinticHermiteSpline.kt:366-373 | a final factor of 1 + s instead of s − 1 ends twice the direction further along |
| QuinticOptimizer.IteratedOvershoots | src/commonMain/kotlin/com/team254/lib/spline/QuinticHermiteSpline.kt:366-373 | as written, every active junction ends two normalised steps beyond the fitted vertex |
| QuinticOptimizer.FitParabolaVertex | src/commonMain/kotlin/com/team254/lib/spline/QuinticHermiteSpline.kt:386-391 | the instance of FitParabolaThrough at the abscissae −kStepSize, 0 and kStepSize that runOptimizationIteration uses: the vertex −b/2a when a ≠ 0, not finite when a = 0 |
| QuinticOptimizer.FitParabolaThrough | src/commonMain/kotlin/com/team254/lib/spline/QuinticHermiteSpline.kt:381-391 | through any three points of y = ax² + bx + c with pairwise distinct x, the result is the vertex −b/2a when a ≠ 0 and not finite (the points are on a line) when a = 0 |
| QuinticOptimizer.FitParabola | src/commonMain/kotlin/com/team254/lib/spline/QuinticHermiteSpline.kt:386-391 | definition as in the source (−B / 2A in IEEE division); property: FitParabolaThrough |
| QuinticOptimizer.IterationStep | src/commonMain/kotlin/com/team254/lib/spline/QuinticHermiteSpline.kt:236-379 | definition as in the source (one iteration as a step, undefined outside Feasible); property: IterationStepImplements, OptimizeIterates |
| QuinticOptimizer.IterationStepImplements | src/commonMain/kotlin/com/team254/lib/spline/QuinticHermiteSpline.kt:236-379 | that step stands for runOptimizationIteration on every list |
| QuinticOptimizer.IntendedStep | src/commonMain/kotlin/com/team254/lib/spline/QuinticHermiteSpline.kt:366-373 | definition of the corrected iteration as a step; property: IteratedAtVertexMoves |
| QuinticOptimizer.IterateN | src/commonMain/kotlin/com/team254/lib/spline/QuinticHermiteSpline.kt:223-229 | zero steps leave the list as it is; `IterateFirst` unfolds one more step |
| QuinticOptimizer.IterateFirst | src/commonMain/kotlin/com/team254/lib/spline/QuinticHermiteSpline.kt:223-229 | k + 1 steps are one step followed by k more |
| QuinticOptimizer.OptimizeFrom | src/commonMain/kotlin/com/team254/lib/spline/QuinticHermiteSpline.kt:220-231 | the loop never counts fewer iterations than it starts with |
| QuinticOptimizer.Optimize | src/commonMain/kotlin/com/team254/lib/spline/QuinticHermiteSpline.kt:220-231 | optimizeSpline from the given splines runs between 1 and kMaxIterations iterations and returns the objective of its final state |
| QuinticOptimizer.OptimizeIterates | src/commonMain/kotlin/com/team254/lib/spline/QuinticHermiteSpline.kt:221-230 | the loop runs between 1 and kMaxIterations (100) iterations and ends where that many steps lead |
| QuinticOptimizer.OptimizeValue | src/commonMain/kotlin/com/team254/lib/spline/QuinticHermiteSpline.kt:225-230 | the returned value is the objective of the final state |
| QuinticOptimizer.OptimizeImproves | src/commonMain/kotlin/com/team254/lib/spline/QuinticHermiteSpline.kt:226 | every iteration before the last improved the objective by at least kMinDelta (0.001) |
| QuinticOptimizer.OptimizeStops | src/commonMain/kotlin/com/team254/lib/spline/QuinticHermiteSpline.kt:223-230 | a run that stops before 100 iterations stops at the first improvement below kMinDelta |
| QuinticOptimizer.OptimizeEnd | src/commonMain/kotlin/com/team254/lib/spline/QuinticHermiteSpline.kt:230 | after kMaxIterations iterations the run returns the last objective |
| QuinticOptimizer.OptimizeStep | src/commonMain/kotlin/com/team254/lib/spline/QuinticHermiteSpline.kt:223-229 | one pass either returns the new objective or continues from the new state |
| QuinticOptimizer.SumObjective | src/commonMain/kotlin/com/team254/lib/spline/QuinticHermiteSpline.kt:205-211 | the loop over the objects computes the list objective of their boundary values |
| QuinticOptimizer.ShiftJunction | src/commonMain/kotlin/com/team254/lib/spline/QuinticHermiteSpline.kt:335-342 | the objects afterwards hold the list with that junction moved |
| QuinticOptimizer.SkipOnObjects | src/commonMain/kotlin/com/team254/lib/spline/QuinticHermiteSpline.kt:245 | the skip test on the objects is the skip test on the original boundary values |
| QuinticOptimizer.JunctionSkipped | src/commonMain/kotlin/com/team254/lib/spline/QuinticHermiteSpline.kt:245 | the test computed on the objects is the junction's skip decision |
| QuinticOptimizer.ModelsUpdate | src/commonMain/kotlin/com/team254/lib/spline/QuinticHermiteSpline.kt:254-315 | replacing one list element by an object holding b models the list with b at that index |
| QuinticOptimizer.SumProbed | src/commonMain/kotlin/com/team254/lib/spline/QuinticHermiteSpline.kt:248-313 | the objective with two probe objects in place of splines i and i + 1 |
| QuinticOptimizer.ProbeJunction | src/commonMain/kotlin/com/team254/lib/spline/QuinticHermiteSpline.kt:248-315 | the two forward differences over kEpsilon, taken on fresh probe objects, are the junction's partial derivatives |
| QuinticOptimizer.Magnitude2Prefix | src/commonMain/kotlin/com/team254/lib/spline/QuinticHermiteSpline.kt:316 | the squared length over a prefix depends on that prefix only |
| QuinticOptimizer.Magnitude2Appended | src/commonMain/kotlin/com/team254/lib/spline/QuinticHermiteSpline.kt:316 | appending an entry adds its squared length |
| QuinticOptimizer.GradientEntry | src/commonMain/kotlin/com/team254/lib/spline/QuinticHermiteSpline.kt:243-317 | one pass of the first loop: the entry is the partial derivatives, or 0 for a skipped junction |
| QuinticOptimizer.EstimateGradient | src/commonMain/kotlin/com/team254/lib/spline/QuinticHermiteSpline.kt:241-317 | the first loop computes the gradient and its squared length and leaves every object as it was |
| QuinticOptimizer.CheckJunction | src/commonMain/kotlin/com/team254/lib/spline/QuinticHermiteSpline.kt:327 | the skip test during a shift loop is the original list's decision |
| QuinticOptimizer.ApplyShift | src/commonMain/kotlin/com/team254/lib/spline/QuinticHermiteSpline.kt:335-342 | one active junction moves by its delta and the objects model the new list |
| QuinticOptimizer.MoveIfActive | src/commonMain/kotlin/com/team254/lib/spline/QuinticHermiteSpline.kt:362-378 | one pass of the last loop: the junction moves by its delta unless it is skipped |
| QuinticOptimizer.ScaleInactive | src/commonMain/kotlin/com/team254/lib/spline/QuinticHermiteSpline.kt:331-332 | with no junction active, scaling the active entries changes nothing |
| QuinticOptimizer.ScaleAndMove | src/commonMain/kotlin/com/team254/lib/spline/QuinticHermiteSpline.kt:326-359 | one pass of the second or third loop: a skipped junction is untouched; otherwise its entry is scaled and subtracted or added on both sides |
| QuinticOptimizer.StepBack | src/commonMain/kotlin/com/team254/lib/spline/QuinticHermiteSpline.kt:326-343 | the second loop normalises the gradient by kStepSize/magnitude and moves every active junction back by it |
| QuinticOptimizer.StepAhead | src/commonMain/kotlin/com/team254/lib/spline/QuinticHermiteSpline.kt:345-359 | the third loop moves every active junction ahead by twice the normalised gradient |
| QuinticOptimizer.StepToVertex | src/commonMain/kotlin/com/team254/lib/spline/QuinticHermiteSpline.kt:362-378 | the last loop scales each active entry by 1 + stepSize/kStepSize and adds it on both sides |
| QuinticOptimizer.LineSearchSteps | src/commonMain/kotlin/com/team254/lib/spline/QuinticHermiteSpline.kt:318-361 | with some active junction, the magnitude is non-zero and the three points and the vertex are those of the line search |
| QuinticOptimizer.IteratedFromAhead | src/commonMain/kotlin/com/team254/lib/spline/QuinticHermiteSpline.kt:362-378 | the iterated list is the list one step ahead, moved by 1 + s times the normalised gradient |
| QuinticOptimizer.MeasureBack | src/commonMain/kotlin/com/team254/lib/spline/QuinticHermiteSpline.kt:326-344 | steps back and measures the objective there (p1) |
| QuinticOptimizer.MeasureAhead | src/commonMain/kotlin/com/team254/lib/spline/QuinticHermiteSpline.kt:345-360 | steps two steps ahead and measures the objective there (p3) |
| QuinticOptimizer.StepBackAndAhead | src/commonMain/kotlin/com/team254/lib/spline/QuinticHermiteSpline.kt:320-360 | the two probes: the objects end one step ahead of the start, with the measured values |
| QuinticOptimizer.IterationMatches | src/commonMain/kotlin/com/team254/lib/spline/QuinticHermiteSpline.kt:318-378 | the values computed on the objects are those of the line search, and the final move gives the iterated list |
| QuinticOptimizer.IterationTarget | src/commonMain/kotlin/com/team254/lib/spline/QuinticHermiteSpline.kt:320-378 | the probes determine the iteration's result; with no active junction, the splines are back where they started |
| QuinticOptimizer.ActiveMagnitude | src/commonMain/kotlin/com/team254/lib/spline/QuinticHermiteSpline.kt:316-318 | the gradient's length is non-zero whenever some junction is active |
| QuinticOptimizer.MoveToVertex | src/commonMain/kotlin/com/team254/lib/spline/QuinticHermiteSpline.kt:361-378 | fits the parabola and leaves the objects holding the target list |
| QuinticOptimizer.RunOptimizationIteration | src/commonMain/kotlin/com/team254/lib/spline/QuinticHermiteSpline.kt:236-379 | the objects end holding the iterated list, which `IteratedShape` and `IteratedNetMove` describe |
| QuinticOptimizer.OptimizePass | src/commonMain/kotlin/com/team254/lib/spline/QuinticHermiteSpline.kt:224-228 | one pass on the objects: the iteration, the new objective, and how the rest of the run follows |
| QuinticOptimizer.OptimizeSpline | src/commonMain/kotlin/com/team254/lib/spline/QuinticHermiteSpline.kt:220-231 | returns the value of the loop as a function and leaves the objects in its final state |
| SplineGenerator.Defaults | src/commonMain/kotlin/com/team254/lib/spline/SplineGenerator.kt:12-14 | definition as in the source (maxDx = 2.0, maxDy = 0.05, maxDTheta = 0.1); property: ParameterizeSplinesDefault |
| SplineGenerator.CoarseTestTests | src/commonMain/kotlin/com/team254/lib/spline/SplineGenerator.kt:77-79 | the set of segments that fail getSegmentArc's signed comparisons on the log of the relative transform is a valid test |
| SplineGenerator.SegmentTwist | src/commonMain/kotlin/com/team254/lib/spline/SplineGenerator.kt:73-78 | definition: log of the pose at t1 seen from the pose at t0, as getSegmentArc computes it; property: CoarseTestTests, ArcTimesWithinBounds |
| SplineGenerator.Samples | src/commonMain/kotlin/com/team254/lib/spline/SplineGenerator.kt:83 | definition: getPose2dWithCurvature at each parameter, in order; property: GetSegmentArc, SampleSweep, SweepStep |
| SplineGenerator.ArcTimes | src/commonMain/kotlin/com/team254/lib/spline/SplineGenerator.kt:68-85 | the parameters one getSegmentArc call samples: never empty, and ending at t1 |
| SplineGenerator.ArcTimesSingle | src/commonMain/kotlin/com/team254/lib/spline/SplineGenerator.kt:79-84 | exactly one sample, the one at t1, exactly when the segment passes the test |
| SplineGenerator.ArcTimesOrdered | src/commonMain/kotlin/com/team254/lib/spline/SplineGenerator.kt:79-82 | the sampled parameters lie in (t0, t1] and strictly increase |
| SplineGenerator.ArcTimesFine | src/commonMain/kotlin/com/team254/lib/spline/SplineGenerator.kt:79-84 | every segment, from t0 to the first parameter and between consecutive ones, passes the test |
| SplineGenerator.ArcTimesWithinBounds | src/commonMain/kotlin/com/team254/lib/spline/SplineGenerator.kt:73-84 | with the source's own test, no sampled segment's twist has a component above its bound; the comparisons are signed as in the source, so a large negative dy or dtheta passes |
| SplineGenerator.SplineTimes | src/commonMain/kotlin/com/team254/lib/spline/SplineGenerator.kt:38-44 | parameterizeSpline's parameters start at 0.0 whatever t0 is; just [0.0] when t1 ≤ 0; none when 0 < t1 ≤ t0, where the loop never ends |
| SplineGenerator.SweepTimes | src/commonMain/kotlin/com/team254/lib/spline/SplineGenerator.kt:41-44 | definition: the parameters the while loop appends, one getSegmentArc call per step while t < t1; property: SweepStep, SweepOver, DefaultSweepIsOneArc, SampleSweep |
| SplineGenerator.SplineSamples | src/commonMain/kotlin/com/team254/lib/spline/SplineGenerator.kt:37-45 | the first sample is the pose at t = 0.0 |
| SplineGenerator.StepShrinks | src/commonMain/kotlin/com/team254/lib/spline/SplineGenerator.kt:41-43 | with a positive step, the number of remaining passes of the while loop drops each time |
| SplineGenerator.SweepStep | src/commonMain/kotlin/com/team254/lib/spline/SplineGenerator.kt:41-44 | one pass of the while loop appends one getSegmentArc's samples |
| SplineGenerator.SweepOver | src/commonMain/kotlin/com/team254/lib/spline/SplineGenerator.kt:41 | once t ≥ t1 the loop adds nothing |
| SplineGenerator.DefaultSweepIsOneArc | src/commonMain/kotlin/com/team254/lib/spline/SplineGenerator.kt:38-44 | with t0 = 0 and t1 = 1 the loop is a single getSegmentArc call on [0, 1] |
| SplineGenerator.EachSpline | src/commonMain/kotlin/com/team254/lib/spline/SplineGenerator.kt:61-64 | one parameterizeSpline output per spline |
| SplineGenerator.Tails | src/commonMain/kotlin/com/team254/lib/spline/SplineGenerator.kt:54-66 | definition: each spline's samples without the first, in order; property: TailsLength, SplinesSamplesLength |
| SplineGenerator.SplinesSamples | src/commonMain/kotlin/com/team254/lib/spline/SplineGenerator.kt:58-65 | empty for no splines; otherwise it starts with splines[0]'s pose at 0.0 |
| SplineGenerator.TailsLength | src/commonMain/kotlin/com/team254/lib/spline/SplineGenerator.kt:61-64 | the concatenated tails exist exactly when every output does; their length is the sum of (length − 1) |
| SplineGenerator.SplinesSamplesLength | src/commonMain/kotlin/com/team254/lib/spline/SplineGenerator.kt:59-64 | a non-empty list gives 1 + Σ(len_i − 1) samples, and succeeds exactly when every spline does |
| SplineGenerator.SampleList.constructor | src/commonMain/kotlin/com/team254/lib/spline/SplineGenerator.kt:37 | a new list is empty |
| SplineGenerator.SampleList.Add | src/commonMain/kotlin/com/team254/lib/spline/SplineGenerator.kt:38 | add appends one element |
| SplineGenerator.SampleList.AddAll | src/commonMain/kotlin/com/team254/lib/spline/SplineGenerator.kt:63 | addAll appends the elements in order |
| SplineGenerator.GetSegmentArc | src/commonMain/kotlin/com/team254/lib/spline/SplineGenerator.kt:68-85 | only appends to rv, never alters what was there; on success it appends exactly the samples at ArcTimes' parameters |
| SplineGenerator.ParameterizeSpline | src/commonMain/kotlin/com/team254/lib/spline/SplineGenerator.kt:29-46 | the result starts with the pose at 0.0; it is SplineSamples' value, and fails exactly where that has none |
| SplineGenerator.SampleSweep | src/commonMain/kotlin/com/team254/lib/spline/SplineGenerator.kt:41-44 | the while loop only appends to the list; it succeeds exactly where SweepTimes has a value, and then the list holds the samples at those times after the ones already there |
| SplineGenerator.ParameterizeSplines | src/commonMain/kotlin/com/team254/lib/spline/SplineGenerator.kt:54-66 | the result is SplinesSamples' value, and fails exactly where that has none |
| SplineGenerator.ParameterizeSplinesDefault | src/commonMain/kotlin/com/team254/lib/spline/SplineGenerator.kt:48-51 | the same with the default bounds and getSegmentArc's own test |

## Left out

- Floating point: all arithmetic is exact over the reals. That covers rounding, the `1e-12`/`1e-9`/`1e-5` tolerances chosen to absorb it, and the accumulated `t += dt` in `sumDCurvature2` and `parameterizeSpline`. The model samples at exactly k/kSamples and k · step.
- Non-finite values: these appear only where the source computes them: `tan`, `Twist2d.curvature`, the splines' curvature functions, `getPose2dWithCurvature` and the sums. Elsewhere a `NaN` or infinite input is not modelled. The intersection sentinel (+∞, +∞) is the `Crossing` value `NoCrossing`.
- Transcendental functions: they are uninterpreted record fields with only the facts each lemma names. There are no exp/log round trips beyond the straight-line case, and no group laws that depend on the value of `atan2`.
- `QuinticOptimizer.Feasible`: the optimizer is defined only where its real arithmetic is. Either no junction is active, or the gradient is non-zero and the fitted parabola has a finite vertex. Where the source would divide by a zero magnitude, or fit a flat parabola and carry on with NaN, the model requires feasibility instead.
- The optimizer's objective is a parameter: any real-valued per-spline cost of the twelve boundary values, summed in list order. The concrete `sumDCurvature2`, with its NaN cases, is modelled and proved separately in `QuinticHermite`.
- No convergence or optimality claim is made for `optimizeSpline`.
- The optimizer's spline list is an immutable sequence of distinct spline objects. The source's temporary replacement of `splines[i]` and `splines[i + 1]` by probe objects is modelled as evaluating the objective of the sequence with the probes in place. The originals are never removed, so their restoration holds trivially rather than being proved.
- `ControlPoint`, a mutable holder of two doubles in the source, is a value datatype. Its scaling in place is a new value.
- The source's `(2 + s)` final move is modelled as written in `QuinticOptimizer.Iterated`, `QuinticOptimizer.IterationStep` and `QuinticOptimizer.RunOptimizationIteration`. The corrected member `QuinticOptimizer.IteratedAtVertex` and its step `QuinticOptimizer.IntendedStep` satisfy the same loop lemmas, because those are stated for any step function.
- SplineGenerator's test of a segment is abstract: an `iset` of (t0, t1, spline) triples that `Tests` ties to the source's exact twist comparison. Without this, the log of the relative transform unfolds in every proof about the recursion. `SplineGenerator.ParameterizeSplinesDefault` instantiates it with the source's test and default bounds.
- `SplineGenerator.GetSegmentArc` and `SplineGenerator.ParameterizeSpline` take a `fuel` bound, because the source has no bound on recursion depth and loop count. When the fuel runs out they stop and report `false`. The model also reports `false`, without looping, where the source's loop never ends: 0 < t1 ≤ t0, a non-positive step.
- `SplineGenerator.ParameterizeSplines` builds its result as a local sequence rather than a heap list, since no other code sees that list before it is returned.
- `SplineGenerator`'s `kMinSampleSize` is 1, so the step is exactly t1 − t0.
- The `splinesutil/Util.kt` helpers `limit`, `interpolate`, `joinStrings`, `epsilonEquals` and `allCloseTo` are textual copies of those in `util/Util.kt`. They are modelled once, in `Util`; only `toDegrees`/`toRadians` have their own module. `Double.format` is an `expect` declaration with no body, so it is not modelled.
- The accessors `translation`/`rotation` of `Pose2dWithCurvature`, `Translation2d.x()`/`y()` and `Rotation2d.cos()`/`sin()` are plain field reads. They are datatype fields here, and only the accessor functions carry no contract of their own.
- Formatting and identity are not modelled: `toString`, `toCSV`, `DecimalFormat`, `hashCode` and the Kotlin `equals` overrides, which compare with a tolerance.
- Entry points and pure interfaces are not part of this model: the `App.kt` files, `main.kt`, `State.kt`, `IPose2d.kt` and `ICurvature.kt`.
- `Rotation2d.interpolate` is proved only at its two clamped ends. The middle branch goes through `atan2`, `sin` and `cos` and is uninterpreted.
- `Rotation2d.degrees`, `fromDegrees`, `Translation2d.direction` and `fromPolar` are modelled as functions without contracts. They are compositions of uninterpreted functions.

## Findings

| source | as written | input that shows it | evidently intended | confidence | as-written member | corrected member |
|---|---|---|---|---|---|---|
| src/commonMain/kotlin/com/team254/lib/util/Util.kt:44-46 | `a - epsilon` and `a + epsilon` wrap around in 32-bit `Int` | a = b = Int.MIN_VALUE, epsilon = 1: a − 1 wraps to Int.MAX_VALUE, so the result is false | true exactly when a − epsilon ≤ b ≤ a + epsilon, reflexive like the `Double` overload | not executed; the wrap is Kotlin's documented `Int` semantics | Util.EpsilonEqualsIntWrapCounterexample | Util.EpsilonEqualsIntReflexiveSymmetric |
| src/commonMain/kotlin/com/team254/lib/geometry/Translation2d.kt:95-97 | the parameter `x` shadows the field `x`, so the x component is x · (other.x − x) + x in the parameter | (0, 0) interpolated to (0, 0) at 0.5 gives (0.25, 0) | x · (other.x − this.x) + this.x, as the y component does | not executed; high | Vectors.ExtrapolateShadowingCounterexample | Vectors.InterpolateIntendedBetween |
| src/commonMain/kotlin/com/team254/lib/spline/QuinticHermiteSpline.kt:366-373 | after the probes the splines are one step ahead, and the last move adds (1 + s) steps, for a net 2 + s | any feasible list with an active junction: it ends 2 normalised steps past the vertex s | a last move of (s − 1) steps, ending at the vertex | not executed; medium (it follows from the loop arithmetic, and the comment's "+1" suggests a sign slip) | QuinticOptimizer.IteratedOvershoots | QuinticOptimizer.IteratedAtVertexMoves |
