/**
 * QuinticHermiteSpline.kt, the spline itself: twelve boundary values, the
 * coefficients derived from them, evaluation, and the per-spline
 * integral of the squared curvature rate.
 */
module QuinticHermite {
  import opened KMath
  import opened Vectors
  import opened Poses
  import opened Splines

  /** The number of Riemann-sum samples (kSamples). */
  const kSamples: int := 100

  /** a t^5 + b t^4 + c t^3 + d t^2 + e t + f in one coordinate. */
  datatype Quintic = Quintic(a: real, b: real, c: real, d: real, e: real, f: real) {

    /** The value, as getPoint evaluates it. */
    function Value(t: real): real
    {
      a * t * t * t * t * t + b * t * t * t * t + c * t * t * t + d * t * t + e * t + f
    }

    /** dx(t) / dy(t): the first derivative. */
    function D1(t: real): real
    {
      5.0 * a * t * t * t * t + 4.0 * b * t * t * t + 3.0 * c * t * t + 2.0 * d * t + e
    }

    /** ddx(t) / ddy(t): the second derivative. */
    function D2(t: real): real
    {
      20.0 * a * t * t * t + 12.0 * b * t * t + 6.0 * c * t + 2.0 * d
    }

    /** dddx(t) / dddy(t): the third derivative. */
    function D3(t: real): real
    {
      60.0 * a * t * t + 24.0 * b * t + 6.0 * c
    }
  }

  /**
   * computeCoefficients for one coordinate: the quintic with value p,
   * slope v and second derivative w given at both ends.
   */
  function HermiteQuintic(p0: real, p1: real, v0: real, v1: real, w0: real, w1: real): Quintic
  {
    Quintic(
      -6.0 * p0 - 3.0 * v0 - 0.5 * w0 + 0.5 * w1 - 3.0 * v1 + 6.0 * p1,
      15.0 * p0 + 8.0 * v0 + 1.5 * w0 - w1 + 7.0 * v1 - 15.0 * p1,
      -10.0 * p0 - 6.0 * v0 - 1.5 * w0 + 0.5 * w1 - 4.0 * v1 + 10.0 * p1,
      0.5 * w0,
      v0,
      p0)
  }

  /** The quintic takes the given value, slope and second derivative at t = 0 and t = 1. */
  lemma HermiteQuinticInterpolates(p0: real, p1: real, v0: real, v1: real, w0: real, w1: real)
    ensures var r := HermiteQuintic(p0, p1, v0, v1, w0, w1);
            r.Value(0.0) == p0 && r.D1(0.0) == v0 && r.D2(0.0) == w0 &&
            r.Value(1.0) == p1 && r.D1(1.0) == v1 && r.D2(1.0) == w1
  {
  }

  /** The coefficients ax..fx and ay..fy, and everything evaluated from them. */
  datatype Curve = Curve(x: Quintic, y: Quintic) {

    /** getPoint(t) */
    function GetPoint(t: real): Translation2d
    {
      Translation2d(x.Value(t), y.Value(t))
    }

    /** dx(t)^2 + dy(t)^2, the squared speed. */
    function Speed2(t: real): (r: real)
      ensures 0.0 <= r
      ensures r == 0.0 <==> x.D1(t) == 0.0 && y.D1(t) == 0.0
    {
      SquaresNonNegative(x.D1(t), y.D1(t));
      SumOfSquaresZero(x.D1(t), y.D1(t));
      x.D1(t) * x.D1(t) + y.D1(t) * y.D1(t)
    }

    /** getVelocity(t): hypot(dx, dy). */
    function GetVelocity(m: Math, t: real): real
    {
      m.hypot(x.D1(t), y.D1(t))
    }

    /** getCurvature(t): (dx ddy - ddx dy) / ((dx^2 + dy^2) sqrt(dx^2 + dy^2)). */
    function GetCurvature(m: Math, t: real): (r: Double)
      ensures Speed2(t) == 0.0 ==> r == NaN
    {
      Divide(x.D1(t) * y.D2(t) - x.D2(t) * y.D1(t), Speed2(t) * m.sqrt(Speed2(t)))
    }

    /** The numerator shared by getDCurvature and dCurvature2. */
    function DCurvatureNumerator(t: real): real
    {
      (x.D1(t) * y.D3(t) - x.D3(t) * y.D1(t)) * Speed2(t)
        - 3.0 * (x.D1(t) * y.D2(t) - x.D2(t) * y.D1(t)) * (x.D1(t) * x.D2(t) + y.D1(t) * y.D2(t))
    }

    /** getDCurvature(t): the numerator over (dx^2 + dy^2)^2 sqrt(dx^2 + dy^2). */
    function GetDCurvature(m: Math, t: real): (r: Double)
      ensures Speed2(t) == 0.0 ==> r == NaN
    {
      Divide(DCurvatureNumerator(t), Speed2(t) * Speed2(t) * m.sqrt(Speed2(t)))
    }

    /**
     * dCurvature2(t): the squared numerator over (dx^2 + dy^2)^5, which is
     * finite and non-negative wherever the spline moves, and NaN (0 / 0)
     * where it stops.
     */
    function DCurvature2(t: real): (r: Double)
      ensures Speed2(t) != 0.0 ==> r.Finite? && 0.0 <= r.value
      ensures Speed2(t) == 0.0 ==> r == NaN
    {
      var q := Speed2(t);
      var n := DCurvatureNumerator(t);
      if q == 0.0 then Divide(n * n, 0.0)
      else
        FifthPowerPositive(q);
        QuotientNonNegative(n, q * q * q * q * q);
        Divide(n * n, q * q * q * q * q)
    }

    /** getHeading(t): the normalised first derivative. */
    function GetHeading(m: Math, t: real): Rotation2d
    {
      NewRotation(m, x.D1(t), y.D1(t), true)
    }
  }

  /** x^2 and y^2 are non-negative, and so is their sum. */
  lemma SquaresNonNegative(x: real, y: real)
    ensures 0.0 <= x * x && 0.0 <= y * y && 0.0 <= x * x + y * y
  {
    MulNonNegative(Abs(x), Abs(x));
    MulNonNegative(Abs(y), Abs(y));
    assert x * x == Abs(x) * Abs(x) && y * y == Abs(y) * Abs(y);
  }

  /** A positive number to the fifth power is positive. */
  lemma FifthPowerPositive(q: real)
    requires 0.0 < q
    ensures 0.0 < q * q * q * q * q
  {
    assert 0.0 < q * q;
    assert 0.0 < q * q * q;
    assert 0.0 < q * q * q * q;
  }

  /** A square over a positive number is non-negative. */
  lemma QuotientNonNegative(n: real, d: real)
    requires 0.0 < d
    ensures 0.0 <= (n * n) / d
  {
    SquaresNonNegative(n, n);
  }

  /** The twelve boundary values: positions, first and second derivatives at t = 0 and t = 1. */
  datatype Boundary = Boundary(
    x0: real, x1: real, dx0: real, dx1: real, ddx0: real, ddx1: real,
    y0: real, y1: real, dy0: real, dy1: real, ddy0: real, ddy1: real)
  {
    /** computeCoefficients as a function of the boundary values. */
    function Coefficients(): Curve
    {
      Curve(HermiteQuintic(x0, x1, dx0, dx1, ddx0, ddx1), HermiteQuintic(y0, y1, dy0, dy1, ddy0, ddy1))
    }

    /** startPose: the start point facing along the start tangent. */
    function StartPose(m: Math): Pose2d
    {
      Pose2d(Translation2d(x0, y0), NewRotation(m, dx0, dy0, true))
    }

    /** endPose: the end point facing along the end tangent. */
    function EndPose(m: Math): Pose2d
    {
      Pose2d(Translation2d(x1, y1), NewRotation(m, dx1, dy1, true))
    }

    /** The boundary values that the optimizer never changes: positions and tangents. */
    function Frozen(): seq<real>
    {
      [x0, x1, dx0, dx1, y0, y1, dy0, dy1]
    }
  }

  /**
   * computeCoefficients: the curve meets every boundary value, and the start
   * and end poses are the curve's own point and heading at t = 0 and t = 1.
   */
  lemma CoefficientsInterpolate(m: Math, b: Boundary)
    ensures var r := b.Coefficients();
            r.GetPoint(0.0) == Translation2d(b.x0, b.y0) && r.GetPoint(1.0) == Translation2d(b.x1, b.y1) &&
            r.x.D1(0.0) == b.dx0 && r.y.D1(0.0) == b.dy0 && r.x.D1(1.0) == b.dx1 && r.y.D1(1.0) == b.dy1 &&
            r.x.D2(0.0) == b.ddx0 && r.y.D2(0.0) == b.ddy0 && r.x.D2(1.0) == b.ddx1 && r.y.D2(1.0) == b.ddy1
    ensures b.StartPose(m) == Pose2d(b.Coefficients().GetPoint(0.0), b.Coefficients().GetHeading(m, 0.0))
    ensures b.EndPose(m) == Pose2d(b.Coefficients().GetPoint(1.0), b.Coefficients().GetHeading(m, 1.0))
  {
    HermiteQuinticInterpolates(b.x0, b.x1, b.dx0, b.dx1, b.ddx0, b.ddx1);
    HermiteQuinticInterpolates(b.y0, b.y1, b.dy0, b.dy1, b.ddy0, b.ddy1);
  }

  /**
   * The public constructor's boundary values: second derivatives 0 and
   * tangents along the end rotations, 1.2 times the distance long.
   */
  function FromPoses(m: Math, p0: Pose2d, p1: Pose2d): (r: Boundary)
    ensures r.ddx0 == 0.0 && r.ddx1 == 0.0 && r.ddy0 == 0.0 && r.ddy1 == 0.0
    ensures r.x0 == p0.translation.x && r.y0 == p0.translation.y
    ensures r.x1 == p1.translation.x && r.y1 == p1.translation.y
    ensures var scale := 1.2 * p0.translation.Distance(m, p1.translation);
            r.dx0 == p0.rotation.cos * scale && r.dy0 == p0.rotation.sin * scale &&
            r.dx1 == p1.rotation.cos * scale && r.dy1 == p1.rotation.sin * scale
  {
    var scale := 1.2 * p0.translation.Distance(m, p1.translation);
    Boundary(
      p0.translation.x, p1.translation.x, p0.rotation.cos * scale, p1.rotation.cos * scale, 0.0, 0.0,
      p0.translation.y, p1.translation.y, p0.rotation.sin * scale, p1.rotation.sin * scale, 0.0, 0.0)
  }

  /** The step 1 / kSamples of the Riemann sum. */
  function SampleStep(): real
  {
    1.0 / kSamples as real
  }

  /** The j-th sample point j * dt. */
  function SamplePoint(j: int): real
  {
    j as real * SampleStep()
  }

  /** The sample points lie in [0, 1), one step apart. */
  lemma SamplePoints(k: nat)
    ensures SamplePoint(k) < 1.0 <==> k < kSamples
    ensures SamplePoint(k) + SampleStep() == SamplePoint(k + 1)
  {
  }

  /** One term dt * dCurvature2(t) of the sum. */
  function SampleTerm(c: Curve, j: int): (r: Double)
    ensures c.Speed2(SamplePoint(j)) != 0.0 ==> r.Finite? && 0.0 <= r.value
    ensures c.Speed2(SamplePoint(j)) == 0.0 ==> r == NaN
  {
    var v := c.DCurvature2(SamplePoint(j));
    if v.Finite? then MulNonNegative(SampleStep(), v.value); Times(SampleStep(), v)
    else Times(SampleStep(), v)
  }

  /** dt * dCurvature2 summed, in IEEE-754 arithmetic, over the first k sample points. */
  function RiemannSum(c: Curve, k: nat): Double
  {
    if k == 0 then Finite(0.0) else Plus(RiemannSum(c, k - 1), SampleTerm(c, k - 1))
  }

  /** The Riemann sum is finite exactly when the spline moves at every sample point, and then non-negative. */
  lemma {:induction false} RiemannSumNonNegative(c: Curve, k: nat)
    ensures RiemannSum(c, k).Finite? <==> forall j :: 0 <= j < k ==> c.Speed2(SamplePoint(j)) != 0.0
    ensures RiemannSum(c, k).Finite? ==> 0.0 <= RiemannSum(c, k).value
  {
    if k > 0 {
      RiemannSumNonNegative(c, k - 1);
      var v := SampleTerm(c, k - 1);
    }
  }

  /** The objective of a list: the per-spline Riemann sums added in order. */
  function ListSum(bs: seq<Boundary>): Double
  {
    if |bs| == 0 then Finite(0.0)
    else Plus(ListSum(bs[..|bs| - 1]), RiemannSum(bs[|bs| - 1].Coefficients(), kSamples as nat))
  }

  /** The list objective is finite exactly when every per-spline sum is, and then non-negative. */
  lemma {:induction false} ListSumNonNegative(bs: seq<Boundary>)
    ensures ListSum(bs).Finite? <==> forall i :: 0 <= i < |bs| ==> RiemannSum(bs[i].Coefficients(), kSamples as nat).Finite?
    ensures ListSum(bs).Finite? ==> 0.0 <= ListSum(bs).value
  {
    if |bs| > 0 {
      var init := bs[..|bs| - 1];
      ListSumNonNegative(init);
      assert forall i :: 0 <= i < |init| ==> init[i] == bs[i];
      RiemannSumNonNegative(bs[|bs| - 1].Coefficients(), kSamples as nat);
    }
  }

  /** The spline as seen by the sampler, evaluated from its coefficients. */
  function AsSpline(m: Math, c: Curve): (r: Spline)
    ensures forall t: real :: r.point(t) == c.GetPoint(t) && r.velocity(t) == c.GetVelocity(m, t)
  {
    Spline(
      t => c.GetPoint(t),
      t => c.GetHeading(m, t),
      t => c.GetCurvature(m, t),
      t => c.GetDCurvature(m, t),
      t => c.GetVelocity(m, t))
  }

  /** The mutable spline object: boundary fields and the two coordinate polynomials. */
  class QuinticHermiteSpline {
    var x0: real
    var x1: real
    var dx0: real
    var dx1: real
    var ddx0: real
    var ddx1: real
    var y0: real
    var y1: real
    var dy0: real
    var dy1: real
    var ddy0: real
    var ddy1: real
    /** ax..fx */
    var xPoly: Quintic
    /** ay..fy */
    var yPoly: Quintic

    /** The boundary fields as a value. */
    function Snapshot(): Boundary
      reads this
    {
      Boundary(x0, x1, dx0, dx1, ddx0, ddx1, y0, y1, dy0, dy1, ddy0, ddy1)
    }

    /** The coefficient fields as a value. */
    function Coefficients(): Curve
      reads this
    {
      Curve(xPoly, yPoly)
    }

    /** The coefficients are up to date with the boundary fields. */
    predicate Valid()
      reads this
    {
      Coefficients() == Snapshot().Coefficients()
    }

    /** QuinticHermiteSpline(p0, p1) */
    constructor (m: Math, p0: Pose2d, p1: Pose2d)
      ensures Snapshot() == FromPoses(m, p0, p1) && Valid()
    {
      var scale := 1.2 * p0.translation.Distance(m, p1.translation);
      x0 := p0.translation.x;
      x1 := p1.translation.x;
      dx0 := p0.rotation.cos * scale;
      dx1 := p1.rotation.cos * scale;
      ddx0 := 0.0;
      ddx1 := 0.0;
      y0 := p0.translation.y;
      y1 := p1.translation.y;
      dy0 := p0.rotation.sin * scale;
      dy1 := p1.rotation.sin * scale;
      ddy0 := 0.0;
      ddy1 := 0.0;
      new;
      ComputeCoefficients();
    }

    /** The private twelve-value constructor used by the optimizer. */
    constructor FromBoundary(b: Boundary)
      ensures Snapshot() == b && Valid()
    {
      x0, x1, dx0, dx1, ddx0, ddx1 := b.x0, b.x1, b.dx0, b.dx1, b.ddx0, b.ddx1;
      y0, y1, dy0, dy1, ddy0, ddy1 := b.y0, b.y1, b.dy0, b.dy1, b.ddy0, b.ddy1;
      new;
      ComputeCoefficients();
    }

    /** computeCoefficients(): overwrites the coefficients from the boundary fields. */
    method ComputeCoefficients()
      modifies this
      ensures Snapshot() == old(Snapshot())
      ensures Valid()
    {
      xPoly := HermiteQuintic(x0, x1, dx0, dx1, ddx0, ddx1);
      yPoly := HermiteQuintic(y0, y1, dy0, dy1, ddy0, ddy1);
    }

    /** ddx1 += dx, ddy1 += dy, then computeCoefficients(). */
    method AddToEnd(dx: real, dy: real)
      modifies this
      ensures Snapshot() == old(Snapshot()).(ddx1 := old(ddx1) + dx, ddy1 := old(ddy1) + dy)
      ensures Valid()
    {
      ddx1 := ddx1 + dx;
      ddy1 := ddy1 + dy;
      ComputeCoefficients();
    }

    /** ddx0 += dx, ddy0 += dy, then computeCoefficients(). */
    method AddToStart(dx: real, dy: real)
      modifies this
      ensures Snapshot() == old(Snapshot()).(ddx0 := old(ddx0) + dx, ddy0 := old(ddy0) + dy)
      ensures Valid()
    {
      ddx0 := ddx0 + dx;
      ddy0 := ddy0 + dy;
      ComputeCoefficients();
    }

    /** startPose */
    function StartPose(m: Math): (r: Pose2d)
      reads this
      ensures r == Snapshot().StartPose(m)
    {
      Pose2d(Translation2d(x0, y0), NewRotation(m, dx0, dy0, true))
    }

    /** endPose */
    function EndPose(m: Math): (r: Pose2d)
      reads this
      ensures r == Snapshot().EndPose(m)
    {
      Pose2d(Translation2d(x1, y1), NewRotation(m, dx1, dy1, true))
    }

    /** sumDCurvature2(): the Riemann sum over t = 0, dt, 2 dt, ... while t < 1. */
    method SumDCurvature2() returns (sum: Double)
      ensures sum == RiemannSum(Coefficients(), kSamples as nat)
    {
      var dt := 1.0 / kSamples as real;
      sum := Finite(0.0);
      var t := 0.0;
      ghost var k: nat := 0;
      while t < 1.0
        invariant k <= kSamples && t == SamplePoint(k)
        invariant sum == RiemannSum(Coefficients(), k)
        decreases kSamples - k
      {
        SamplePoints(k);
        sum := Plus(sum, Times(dt, Coefficients().DCurvature2(t)));
        t := t + dt;
        k := k + 1;
      }
      SamplePoints(k);
    }
  }

  /** sumDCurvature2(splines): the per-spline sums added in list order. */
  method SumDCurvature2List(splines: seq<QuinticHermiteSpline>, ghost bs: seq<Boundary>) returns (sum: Double)
    requires |splines| == |bs|
    requires forall i :: 0 <= i < |splines| ==> splines[i].Snapshot() == bs[i] && splines[i].Valid()
    ensures sum == ListSum(bs)
  {
    sum := Finite(0.0);
    for i := 0 to |splines|
      invariant sum == ListSum(bs[..i])
    {
      var s := splines[i].SumDCurvature2();
      assert bs[..i + 1][..i] == bs[..i];
      sum := Plus(sum, s);
    }
    assert bs[..|splines|] == bs;
  }

  /** The public constructor gives a spline that starts and ends at the given points with zero second derivatives. */
  lemma ConstructedSplineInterpolates(m: Math, p0: Pose2d, p1: Pose2d)
    ensures FromPoses(m, p0, p1).Coefficients().GetPoint(0.0) == p0.translation
    ensures FromPoses(m, p0, p1).Coefficients().GetPoint(1.0) == p1.translation
    ensures FromPoses(m, p0, p1).Coefficients().x.D2(0.0) == 0.0 && FromPoses(m, p0, p1).Coefficients().y.D2(1.0) == 0.0
  {
    CoefficientsInterpolate(m, FromPoses(m, p0, p1));
  }
}
