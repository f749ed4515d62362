/** CubicHermiteSpline.kt: the cubic Hermite spline between two poses. */
module CubicHermite {
  import opened KMath
  import Util
  import opened Vectors
  import opened Poses
  import opened Splines

  /** a t^3 + b t^2 + c t + d in one coordinate. */
  datatype Cubic = Cubic(a: real, b: real, c: real, d: real) {

    function Value(t: real): real
    {
      t * t * t * a + t * t * b + t * c + d
    }

    /** The first derivative 3 a t^2 + 2 b t + c. */
    function Slope(t: real): real
    {
      3.0 * t * t * a + 2.0 * t * b + c
    }

    /** The second derivative 6 a t + 2 b. */
    function Bend(t: real): real
    {
      6.0 * t * a + 2.0 * b
    }
  }

  /**
   * Hermite coefficients from the end values p0, p1 and the end slopes
   * v0, v1 of one coordinate.
   */
  function HermiteCubic(p0: real, p1: real, v0: real, v1: real): (r: Cubic)
    ensures r.Value(0.0) == p0 && r.Value(1.0) == p1
    ensures r.Slope(0.0) == v0 && r.Slope(1.0) == v1
  {
    Cubic(v0 + v1 + 2.0 * p0 - 2.0 * p1, -2.0 * v0 - v1 - 3.0 * p0 + 3.0 * p1, v0, p0)
  }

  /** The coordinates of the spline, ax..dx and ay..dy. */
  datatype CubicHermiteSpline = CubicHermiteSpline(x: Cubic, y: Cubic) {

    /** getPoint(t) */
    function GetPoint(t: real): Translation2d
    {
      Translation2d(x.Value(t), y.Value(t))
    }

    /** getHeading(t): the normalised direction of the derivative. */
    function GetHeading(m: Math, t: real): Rotation2d
    {
      NewRotation(m, x.Slope(t), y.Slope(t), true)
    }

    /** getVelocity(t): a constant 1 (the source does not compute it). */
    function GetVelocity(t: real): real
    {
      1.0
    }

    /** getCurvature(t): (dx ddy - dy ddx) / ((dx^2 + dy^2) sqrt(dx^2 + dy^2)). */
    function GetCurvature(m: Math, t: real): (r: Double)
      ensures x.Slope(t) == 0.0 && y.Slope(t) == 0.0 ==> r == NaN
    {
      CurvatureOf(m, x.Slope(t), y.Slope(t), x.Bend(t), y.Bend(t))
    }

    /** getDCurvature(t): a constant 0 (the source does not compute it). */
    function GetDCurvature(t: real): real
    {
      0.0
    }
  }

  /** (dx ddy - dy ddx) / ((dx^2 + dy^2) sqrt(dx^2 + dy^2)) for the derivatives (dx, dy) and (ddx, ddy). */
  function CurvatureOf(m: Math, dx: real, dy: real, ddx: real, ddy: real): Double
  {
    Divide(dx * ddy - dy * ddx, (dx * dx + dy * dy) * m.sqrt(dx * dx + dy * dy))
  }

  /** Where the derivative is not zero the curvature is finite, the signed cross product over speed cubed. */
  lemma CurvatureWhileMoving(m: Math, s: CubicHermiteSpline, t: real)
    requires SqrtIsRoot(m) && (s.x.Slope(t) != 0.0 || s.y.Slope(t) != 0.0)
    ensures s.GetCurvature(m, t).Finite?
    ensures s.GetCurvature(m, t).value * ((s.x.Slope(t) * s.x.Slope(t) + s.y.Slope(t) * s.y.Slope(t)) * m.sqrt(s.x.Slope(t) * s.x.Slope(t) + s.y.Slope(t) * s.y.Slope(t)))
            == s.x.Slope(t) * s.y.Bend(t) - s.y.Slope(t) * s.x.Bend(t)
  {
    CurvatureFraction(m, s.x.Slope(t), s.y.Slope(t), s.x.Bend(t), s.y.Bend(t));
  }

  /** The curvature quotient of a non-zero derivative (dx, dy) and second derivative (ddx, ddy) is finite. */
  lemma CurvatureFraction(m: Math, dx: real, dy: real, ddx: real, ddy: real)
    requires SqrtIsRoot(m) && (dx != 0.0 || dy != 0.0)
    ensures CurvatureOf(m, dx, dy, ddx, ddy).Finite?
    ensures CurvatureOf(m, dx, dy, ddx, ddy).value * ((dx * dx + dy * dy) * m.sqrt(dx * dx + dy * dy)) == dx * ddy - dy * ddx
  {
    var q := dx * dx + dy * dy;
    PositiveSpeedDenominator(m, dx, dy);
    QuotientTimes(dx * ddy - dy * ddx, q * m.sqrt(q));
  }

  /** Dividing by a non-zero d is finite and undone by multiplying by d. */
  lemma QuotientTimes(n: real, d: real)
    requires d != 0.0
    ensures Divide(n, d).Finite? && Divide(n, d).value * d == n
  {
  }

  /** A non-zero derivative gives a positive curvature denominator. */
  lemma PositiveSpeedDenominator(m: Math, dx: real, dy: real)
    requires SqrtIsRoot(m) && (dx != 0.0 || dy != 0.0)
    ensures (dx * dx + dy * dy) * m.sqrt(dx * dx + dy * dy) > 0.0
  {
    var q := dx * dx + dy * dy;
    SumOfSquaresZero(dx, dy);
    assert q >= 0.0 by {
      MulNonNegative(Abs(dx), Abs(dx));
      MulNonNegative(Abs(dy), Abs(dy));
      assert dx * dx == Abs(dx) * Abs(dx) && dy * dy == Abs(dy) * Abs(dy);
    }
    var r := m.sqrt(q);
    SqrtFacts(m, q);
    assert r != 0.0;
    assert q * r > 0.0 by {
      SquareStrictlyIncreasing(0.0, r);
      MulNonNegative(q, r);
      assert q * r != 0.0;
    }
  }

  /**
   * CubicHermiteSpline(p0, p1): tangents along the end rotations with
   * length twice the distance between the end points.
   */
  function NewCubic(m: Math, p0: Pose2d, p1: Pose2d): (r: CubicHermiteSpline)
    ensures r.GetPoint(0.0) == p0.translation && r.GetPoint(1.0) == p1.translation
    ensures r.x.Slope(0.0) == p0.rotation.cos * (2.0 * p0.translation.Distance(m, p1.translation))
    ensures r.y.Slope(0.0) == p0.rotation.sin * (2.0 * p0.translation.Distance(m, p1.translation))
    ensures r.x.Slope(1.0) == p1.rotation.cos * (2.0 * p0.translation.Distance(m, p1.translation))
    ensures r.y.Slope(1.0) == p1.rotation.sin * (2.0 * p0.translation.Distance(m, p1.translation))
  {
    FromScale(p0, p1, 2.0 * p0.translation.Distance(m, p1.translation))
  }

  /** The Hermite spline between p0 and p1 whose end derivatives are the end rotations scaled by scale. */
  function FromScale(p0: Pose2d, p1: Pose2d, scale: real): (r: CubicHermiteSpline)
    ensures r.GetPoint(0.0) == p0.translation && r.GetPoint(1.0) == p1.translation
    ensures r.x.Slope(0.0) == p0.rotation.cos * scale && r.y.Slope(0.0) == p0.rotation.sin * scale
    ensures r.x.Slope(1.0) == p1.rotation.cos * scale && r.y.Slope(1.0) == p1.rotation.sin * scale
  {
    CubicHermiteSpline(
      HermiteCubic(p0.translation.x, p1.translation.x, p0.rotation.cos * scale, p1.rotation.cos * scale),
      HermiteCubic(p0.translation.y, p1.translation.y, p0.rotation.sin * scale, p1.rotation.sin * scale))
  }

  /** The spline as seen by the sampler. */
  function AsSpline(m: Math, s: CubicHermiteSpline): (r: Spline)
    ensures forall t: real :: r.velocity(t) == 1.0 && r.dCurvature(t) == Finite(0.0)
    ensures forall t: real :: r.point(t) == s.GetPoint(t)
  {
    Spline(
      t => s.GetPoint(t),
      t => s.GetHeading(m, t),
      t => s.GetCurvature(m, t),
      t => Finite(s.GetDCurvature(t)),
      t => s.GetVelocity(t))
  }

  /**
   * For unit end rotations and end points more than kEpsilon / 2 apart, the
   * spline leaves along p0's heading and arrives along p1's.
   */
  lemma HeadingsAtEnds(m: Math, p0: Pose2d, p1: Pose2d)
    requires HypotIsEuclidean(m)
    requires p0.rotation.IsUnit() && p1.rotation.IsUnit()
    requires 2.0 * p0.translation.Distance(m, p1.translation) > Util.kEpsilon
    ensures NewCubic(m, p0, p1).GetHeading(m, 0.0) == p0.rotation
    ensures NewCubic(m, p0, p1).GetHeading(m, 1.0) == p1.rotation
  {
    ScaledEndHeadings(m, p0, p1, 2.0 * p0.translation.Distance(m, p1.translation));
  }

  /** Scaling unit end rotations by k > kEpsilon leaves the end headings equal to those rotations. */
  lemma ScaledEndHeadings(m: Math, p0: Pose2d, p1: Pose2d, k: real)
    requires HypotIsEuclidean(m)
    requires p0.rotation.IsUnit() && p1.rotation.IsUnit() && k > Util.kEpsilon
    ensures FromScale(p0, p1, k).GetHeading(m, 0.0) == p0.rotation
    ensures FromScale(p0, p1, k).GetHeading(m, 1.0) == p1.rotation
  {
    var s := FromScale(p0, p1, k);
    HeadingOfScaledUnit(m, p0.rotation, k, s.x.Slope(0.0), s.y.Slope(0.0));
    HeadingOfScaledUnit(m, p1.rotation, k, s.x.Slope(1.0), s.y.Slope(1.0));
  }

  /** Normalising (cos k, sin k) for a unit rotation and k > kEpsilon gives the rotation back. */
  lemma HeadingOfScaledUnit(m: Math, r: Rotation2d, k: real, dx: real, dy: real)
    requires HypotIsEuclidean(m) && r.IsUnit() && k > Util.kEpsilon
    requires dx == r.cos * k && dy == r.sin * k
    ensures NewRotation(m, dx, dy, true) == r
  {
    HypotOfScaledUnit(m, r.cos, r.sin, k);
    assert m.hypot(dx, dy) == k;
    var n := NewRotation(m, dx, dy, true);
    assert n.cos * k == dx && n.sin * k == dy;
    CancelFactor(n.cos, r.cos, k);
    CancelFactor(n.sin, r.sin, k);
  }

  /** A non-zero factor cancels. */
  lemma CancelFactor(a: real, b: real, k: real)
    requires k != 0.0 && a * k == b * k
    ensures a == b
  {
    assert (a - b) * k == 0.0;
  }

  /** Two poses on the x axis facing along it give a spline whose y coordinate is constantly 0. */
  lemma StraightCubicIsFlat(m: Math, x0: real, x1: real)
    ensures NewCubic(m, FromTranslation(Translation2d(x0, 0.0)), FromTranslation(Translation2d(x1, 0.0))).y == Cubic(0.0, 0.0, 0.0, 0.0)
  {
    var scale := 2.0 * Translation2d(x0, 0.0).Distance(m, Translation2d(x1, 0.0));
    assert 0.0 * scale == 0.0;
  }

  /** A spline with a constant-zero y coordinate never curves: its curvature is 0 wherever it is finite. */
  lemma FlatCubicHasNoCurvature(m: Math, s: CubicHermiteSpline, t: real)
    requires s.y == Cubic(0.0, 0.0, 0.0, 0.0)
    ensures s.GetCurvature(m, t).Finite? ==> s.GetCurvature(m, t) == Finite(0.0)
  {
    assert s.y.Slope(t) == 0.0 && s.y.Bend(t) == 0.0;
    assert s.x.Slope(t) * s.y.Bend(t) - s.y.Slope(t) * s.x.Bend(t) == 0.0;
  }
}
