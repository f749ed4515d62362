/**
 * Translation2d.kt and Rotation2d.kt. They share a module because each uses
 * the other (a translation rotates by a rotation; isParallel takes the cross
 * product of two rotations viewed as translations).
 */
module Vectors {
  import opened KMath
  import Util
  import SplinesUtil

  /** An immutable shift (x, y) in the plane. */
  datatype Translation2d = Translation2d(x: real, y: real) {

    /** norm(): hypot(x, y). */
    function Norm(m: Math): real
    {
      m.hypot(x, y)
    }

    /** norm2(): the squared Euclidean length. */
    function Norm2(): (r: real)
      ensures 0.0 <= r
      ensures r == 0.0 <==> x == 0.0 && y == 0.0
    {
      SumOfSquaresZero(x, y);
      MulNonNegative(Abs(x), Abs(x));
      MulNonNegative(Abs(y), Abs(y));
      assert x * x == Abs(x) * Abs(x) && y * y == Abs(y) * Abs(y);
      x * x + y * y
    }

    /** translateBy: componentwise sum. */
    function TranslateBy(other: Translation2d): Translation2d
    {
      Translation2d(x + other.x, y + other.y)
    }

    /** rotateBy: the rotation matrix of (cos, sin) applied to (x, y). */
    function RotateBy(rotation: Rotation2d): Translation2d
    {
      Translation2d(x * rotation.cos - y * rotation.sin, x * rotation.sin + y * rotation.cos)
    }

    /** direction(): the normalised rotation pointing along this vector. */
    function Direction(m: Math): Rotation2d
    {
      NewRotation(m, x, y, true)
    }

    /** inverse(): (-x, -y). */
    function Inverse(): Translation2d
    {
      Translation2d(-this.x, -this.y)
    }

    /** interpolate(other, x): this for x <= 0, other for x >= 1, else extrapolate. */
    function Interpolate(other: Translation2d, x: real): (r: Translation2d)
      ensures x <= 0.0 ==> r == this
      ensures x >= 1.0 ==> r == other
      ensures 0.0 < x < 1.0 ==> r == Extrapolate(other, x)
    {
      if x <= 0.0 then this
      else if x >= 1.0 then other
      else Extrapolate(other, x)
    }

    /**
     * extrapolate(other, x) as written: in the first component the parameter x
     * shadows the field x, so it is x * (other.x - x) + x with x the parameter.
     */
    function Extrapolate(other: Translation2d, x: real): (r: Translation2d)
      ensures r.y == this.y + x * (other.y - this.y)
      ensures r.x == x * (other.x - x) + x
    {
      Translation2d(x * (other.x - x) + x, x * (other.y - y) + y)
    }

    /** The evidently intended extrapolate: a linear blend in both components. */
    function ExtrapolateIntended(other: Translation2d, s: real): (r: Translation2d)
      ensures s == 0.0 ==> r == this
      ensures s == 1.0 ==> r == other
      ensures Cross(Delta(this, r), Delta(this, other)) == 0.0
    {
      var d := Delta(this, other);
      assert Cross(Translation2d(s * d.x, s * d.y), d) == s * (d.x * d.y - d.y * d.x);
      Translation2d(x + s * (other.x - x), y + s * (other.y - y))
    }

    /** The evidently intended interpolate, clamped like the written one. */
    function InterpolateIntended(other: Translation2d, s: real): (r: Translation2d)
      ensures s <= 0.0 ==> r == this
      ensures s >= 1.0 ==> r == other
      ensures 0.0 < s < 1.0 ==> r == ExtrapolateIntended(other, s)
    {
      if s <= 0.0 then this
      else if s >= 1.0 then other
      else ExtrapolateIntended(other, s)
    }

    /** scale(s): both components times s. */
    function Scale(s: real): Translation2d
    {
      Translation2d(x * s, y * s)
    }

    /** epsilonEquals(other, epsilon): both components within epsilon. */
    predicate EpsilonEquals(other: Translation2d, epsilon: real)
    {
      Util.EpsilonEquals(x, other.x, epsilon) && Util.EpsilonEquals(y, other.y, epsilon)
    }

    /** distance(other): the norm of other - this. */
    function Distance(m: Math, other: Translation2d): real
    {
      Inverse().TranslateBy(other).Norm(m)
    }
  }

  /** Translation2d(): the origin. */
  function Origin(): Translation2d
  {
    Translation2d(0.0, 0.0)
  }

  /** Translation2d(start, end): the vector from start to end. */
  function Delta(start: Translation2d, end: Translation2d): (r: Translation2d)
    ensures start.TranslateBy(r) == end
  {
    Translation2d(end.x - start.x, end.y - start.y)
  }

  /** fromPolar(direction, magnitude) */
  function FromPolar(direction: Rotation2d, magnitude: real): Translation2d
  {
    Translation2d(direction.cos * magnitude, direction.sin * magnitude)
  }

  /** dot(a, b) */
  function Dot(a: Translation2d, b: Translation2d): real
  {
    a.x * b.x + a.y * b.y
  }

  /** cross(a, b): the z component of the 3d cross product. */
  function Cross(a: Translation2d, b: Translation2d): real
  {
    a.x * b.y - a.y * b.x
  }

  /**
   * getAngle(a, b): the angle between a and b through acos of the clamped
   * cosine; the identity rotation when that cosine is NaN (0 / 0).
   */
  function GetAngle(m: Math, a: Translation2d, b: Translation2d): (r: Rotation2d)
    ensures a.Norm(m) * b.Norm(m) == 0.0 && Dot(a, b) == 0.0 ==> r == IdentityRotation()
  {
    var d := a.Norm(m) * b.Norm(m);
    if d == 0.0 then
      if Dot(a, b) == 0.0 then IdentityRotation()
      else FromRadians(m, m.acos(if Dot(a, b) > 0.0 then 1.0 else -1.0))
    else
      FromRadians(m, m.acos(Min(1.0, Max(Dot(a, b) / d, -1.0))))
  }

  /** A rotation as the point (cos, sin) of the unit circle. */
  datatype Rotation2d = Rotation2d(cos: real, sin: real) {

    /**
     * tan(): +infinity (sin >= 0) or -infinity (sin < 0) when |cos| < kEpsilon,
     * sin / cos otherwise.
     */
    function Tan(): (r: Double)
      ensures Abs(cos) < Util.kEpsilon && sin >= 0.0 ==> r == PositiveInfinity
      ensures Abs(cos) < Util.kEpsilon && sin < 0.0 ==> r == NegativeInfinity
      ensures Abs(cos) >= Util.kEpsilon ==> r.Finite? && r.value * cos == sin
      ensures !r.NaN?
    {
      if Abs(cos) < Util.kEpsilon then
        if sin >= 0.0 then PositiveInfinity else NegativeInfinity
      else Finite(sin / cos)
    }

    /** radians: atan2(sin, cos). */
    function Radians(m: Math): real
    {
      m.atan2(sin, cos)
    }

    /**
     * rotateBy(other): angle addition through the product-sum identities,
     * normalised. The product-sum pair is (cos, sin) rotated by other.
     */
    function RotateBy(m: Math, other: Rotation2d): Rotation2d
    {
      RotationFromDirection(m, ToTranslation().RotateBy(other), true)
    }

    /** normal(): the rotation a quarter turn further, (-sin, cos). */
    function Normal(): Rotation2d
    {
      Rotation2d(-sin, cos)
    }

    /** inverse(): (cos, -sin). */
    function Inverse(): Rotation2d
    {
      Rotation2d(cos, -sin)
    }

    /** isParallel(other): the cross product of the two unit vectors is within kEpsilon of 0. */
    predicate IsParallel(other: Rotation2d)
    {
      Util.EpsilonEquals(Cross(ToTranslation(), other.ToTranslation()), 0.0)
    }

    /** toTranslation(): (cos, sin). */
    function ToTranslation(): Translation2d
    {
      Translation2d(cos, sin)
    }

    /** nearestPole(): the axis direction nearest to this rotation. */
    function NearestPole(): (r: Rotation2d)
      ensures r.cos == 0.0 || r.sin == 0.0
      ensures Abs(cos) > Abs(sin) ==> r.sin == 0.0 && r.cos == Sign(cos) && Abs(r.cos) == 1.0
      ensures Abs(cos) <= Abs(sin) ==> r.cos == 0.0 && r.sin == Sign(sin)
      ensures Abs(cos) <= Abs(sin) && sin != 0.0 ==> Abs(r.sin) == 1.0
    {
      if Abs(cos) > Abs(sin) then Rotation2d(Sign(cos), 0.0)
      else Rotation2d(0.0, Sign(sin))
    }

    /** interpolate(other, x): this for x <= 0, other for x >= 1, else rotate by x times the angle between. */
    function Interpolate(m: Math, other: Rotation2d, x: real): (r: Rotation2d)
      ensures x <= 0.0 ==> r == this
      ensures x >= 1.0 ==> r == other
    {
      if x <= 0.0 then this
      else if x >= 1.0 then other
      else
        var angleDiff := Inverse().RotateBy(m, other).Radians(m);
        RotateBy(m, FromRadians(m, angleDiff * x))
    }

    /** distance(other): the angle of inverse().rotateBy(other). */
    function Distance(m: Math, other: Rotation2d): real
    {
      Inverse().RotateBy(m, other).Radians(m)
    }

    /** The cos^2 + sin^2 = 1 invariant the type is meant to keep. */
    predicate IsUnit()
    {
      cos * cos + sin * sin == 1.0
    }
  }

  /**
   * Rotation2d(x, y, normalize). Without normalisation the pair is stored as
   * given; with it, (x, y) is divided by hypot(x, y), or (1, 0) is stored when
   * that magnitude is at most kEpsilon.
   */
  function NewRotation(m: Math, x: real, y: real, normalize: bool): (r: Rotation2d)
    ensures !normalize ==> r == Rotation2d(x, y)
    ensures normalize && m.hypot(x, y) <= Util.kEpsilon ==> r == IdentityRotation()
    ensures normalize && m.hypot(x, y) > Util.kEpsilon ==>
              r.cos * m.hypot(x, y) == x && r.sin * m.hypot(x, y) == y
  {
    if normalize then
      var magnitude := m.hypot(x, y);
      if magnitude > Util.kEpsilon then Rotation2d(x / magnitude, y / magnitude)
      else Rotation2d(1.0, 0.0)
    else Rotation2d(x, y)
  }

  /** Rotation2d(): the default arguments (1, 0, false). */
  function IdentityRotation(): Rotation2d
  {
    Rotation2d(1.0, 0.0)
  }

  /** Rotation2d(direction, normalize) */
  function RotationFromDirection(m: Math, direction: Translation2d, normalize: bool): Rotation2d
  {
    NewRotation(m, direction.x, direction.y, normalize)
  }

  /** fromRadians(angle): (cos angle, sin angle), not normalised. */
  function FromRadians(m: Math, angle: real): Rotation2d
  {
    NewRotation(m, m.cos(angle), m.sin(angle), false)
  }

  /** fromDegrees(angle): fromRadians(toRadians(angle)). */
  function FromDegrees(m: Math, angle: real): Rotation2d
  {
    FromRadians(m, SplinesUtil.ToRadians(angle))
  }

  // ---------------------------------------------------------------------------
  // Translation2d laws

  /** translateBy is commutative and associative, with the origin as identity. */
  lemma TranslateByLaws(a: Translation2d, b: Translation2d, c: Translation2d)
    ensures a.TranslateBy(b) == b.TranslateBy(a)
    ensures a.TranslateBy(b).TranslateBy(c) == a.TranslateBy(b.TranslateBy(c))
    ensures a.TranslateBy(Origin()) == a && Origin().TranslateBy(a) == a
  {
  }

  /** inverse is involutive and cancels translateBy. */
  lemma TranslationInverseLaws(t: Translation2d)
    ensures t.Inverse().Inverse() == t
    ensures t.TranslateBy(t.Inverse()) == Origin()
  {
  }

  /** cross is antisymmetric and zero on equal arguments; dot is symmetric. */
  lemma CrossDotLaws(a: Translation2d, b: Translation2d)
    ensures Cross(a, b) == -Cross(b, a)
    ensures Cross(a, a) == 0.0
    ensures Dot(a, b) == Dot(b, a)
  {
  }

  /** Rotating by a unit pair keeps norm2. */
  lemma RotateByKeepsNorm2(t: Translation2d, r: Rotation2d)
    requires r.IsUnit()
    ensures t.RotateBy(r).Norm2() == t.Norm2()
  {
    var c, s := r.cos, r.sin;
    var u := t.RotateBy(r);
    calc {
      u.x * u.x + u.y * u.y;
      (t.x * c - t.y * s) * (t.x * c - t.y * s) + (t.x * s + t.y * c) * (t.x * s + t.y * c);
      (t.x * t.x + t.y * t.y) * (c * c + s * s);
      t.x * t.x + t.y * t.y;
    }
  }

  /**
   * A rotation equal to the identity's pair (1, 0) leaves a translation as it
   * is. Stated for any such r so that callers can pass a computed rotation.
   */
  lemma RotateByIdentity(t: Translation2d, r: Rotation2d)
    requires r.cos == 1.0 && r.sin == 0.0
    ensures t.RotateBy(r) == t
  {
  }

  /** Rotating (0, 0) by any r gives (0, 0). */
  lemma RotateByZero(t: Translation2d, r: Rotation2d)
    requires t.x == 0.0 && t.y == 0.0
    ensures t.RotateBy(r) == t
  {
  }

  /** Rotating the unit x vector (1, 0) by r gives r's own pair. */
  lemma RotateUnitX(t: Translation2d, r: Rotation2d)
    requires t.x == 1.0 && t.y == 0.0
    ensures t.RotateBy(r) == r.ToTranslation()
  {
  }

  /** Rotating commutes with inverse and keeps the origin. */
  lemma RotateByInverseTranslation(t: Translation2d, r: Rotation2d)
    ensures t.Inverse().RotateBy(r) == t.RotateBy(r).Inverse()
    ensures Origin().RotateBy(r) == Origin()
  {
  }

  /** Rotating by a unit rotation and then by its inverse (in either order) gives back the translation. */
  lemma RotateByThenInverse(t: Translation2d, r: Rotation2d)
    requires r.IsUnit()
    ensures t.RotateBy(r).RotateBy(r.Inverse()) == t
    ensures t.RotateBy(r.Inverse()).RotateBy(r) == t
  {
    var c, s := r.cos, r.sin;
    var u, w := t.RotateBy(r), t.RotateBy(r.Inverse());
    RotateBack(t.x, t.y, c, s, u.x, u.y);
    RotateBack(t.x, t.y, c, -s, w.x, w.y);
  }

  /** Rotating (x, y) by the pair (c, s) and then by (c, -s) gives back (x, y). */
  lemma RotateBack(x: real, y: real, c: real, s: real, ux: real, uy: real)
    requires c * c + s * s == 1.0
    requires ux == x * c - y * s && uy == x * s + y * c
    ensures ux * c - uy * -s == x && ux * -s + uy * c == y
  {
    calc {
      ux * c - uy * -s;
      (x * c - y * s) * c + (x * s + y * c) * s;
      x * (c * c + s * s);
    }
    calc {
      ux * -s + uy * c;
      -(x * c - y * s) * s + (x * s + y * c) * c;
      y * (c * c + s * s);
    }
  }

  /** The delta constructor is end translated by the inverse of start. */
  lemma DeltaIsDifference(start: Translation2d, end: Translation2d)
    ensures Delta(start, end) == end.TranslateBy(start.Inverse())
  {
  }

  /** scale(1) is the identity and scaling twice multiplies the factors. */
  lemma ScaleLaws(t: Translation2d, s: real, u: real)
    ensures t.Scale(1.0) == t
    ensures t.Scale(s).Scale(u) == t.Scale(s * u)
  {
    assert t.x * s * u == t.x * (s * u);
    assert t.y * s * u == t.y * (s * u);
  }

  /** With a Euclidean hypot, distance is 0 from a translation to itself and symmetric. */
  lemma TranslationDistanceLaws(m: Math, a: Translation2d, b: Translation2d)
    requires HypotIsEuclidean(m)
    ensures a.Distance(m, a) == 0.0
    ensures a.Distance(m, b) == b.Distance(m, a)
  {
    HypotZero(m, -a.x + a.x, -a.y + a.y);
    var u, v := -a.x + b.x, -a.y + b.y;
    HypotFacts(m, u, v);
    HypotFacts(m, -b.x + a.x, -b.y + a.y);
    NegatedSquares(u, v, -b.x + a.x, -b.y + a.y);
    SquareRootUnique(a.Distance(m, b), b.Distance(m, a));
  }

  /** Negating both components keeps the sum of squares. */
  lemma NegatedSquares(u: real, v: real, nu: real, nv: real)
    requires nu == -u && nv == -v
    ensures nu * nu + nv * nv == u * u + v * v
  {
  }

  /** epsilonEquals on translations is reflexive for epsilon >= 0 and symmetric. */
  lemma TranslationEpsilonEqualsLaws(a: Translation2d, b: Translation2d, epsilon: real)
    ensures 0.0 <= epsilon ==> a.EpsilonEquals(a, epsilon)
    ensures a.EpsilonEquals(b, epsilon) == b.EpsilonEquals(a, epsilon)
  {
    Util.EpsilonEqualsReflexiveSymmetric(a.x, b.x, epsilon);
    Util.EpsilonEqualsReflexiveSymmetric(a.y, b.y, epsilon);
  }

  /** The written extrapolate is not a blend: halfway between the origin and itself it gives (0.25, 0). */
  lemma ExtrapolateShadowingCounterexample()
    ensures Origin().Interpolate(Origin(), 0.5) == Translation2d(0.25, 0.0)
    ensures Origin().InterpolateIntended(Origin(), 0.5) == Origin()
  {
    var o := Origin();
    var w := o.Extrapolate(o, 0.5);
    assert w.x == 0.5 * (0.0 - 0.5) + 0.5 == 0.25;
    assert w.y == 0.0;
    var v := o.ExtrapolateIntended(o, 0.5);
    assert v.x == 0.0 + 0.5 * (0.0 - 0.0) == 0.0;
    assert v.y == 0.0;
  }

  /** The intended interpolate stays in the box spanned by its endpoints. */
  lemma InterpolateIntendedBetween(a: Translation2d, b: Translation2d, s: real)
    ensures Min(a.x, b.x) <= a.InterpolateIntended(b, s).x <= Max(a.x, b.x)
    ensures Min(a.y, b.y) <= a.InterpolateIntended(b, s).y <= Max(a.y, b.y)
  {
    if 0.0 < s < 1.0 {
      Util.LerpBetween(a.x, b.x, s);
      Util.LerpBetween(a.y, b.y, s);
    }
  }

  // ---------------------------------------------------------------------------
  // Rotation2d laws

  /** A normalised rotation lies on the unit circle. */
  lemma NormalizedIsUnit(m: Math, x: real, y: real)
    requires HypotIsEuclidean(m)
    ensures NewRotation(m, x, y, true).IsUnit()
  {
    var h := m.hypot(x, y);
    HypotFacts(m, x, y);
    if h > Util.kEpsilon {
      var r := NewRotation(m, x, y, true);
      assert r.cos * h == x && r.sin * h == y;
      assert (r.cos * r.cos + r.sin * r.sin) * (h * h) == x * x + y * y;
      assert h * h == x * x + y * y;
      assert h * h > 0.0 by { SquareStrictlyIncreasing(0.0, h); }
    }
  }

  /** Normalising a unit pair leaves it as it is. */
  lemma NormalizeUnit(m: Math, r: Rotation2d)
    requires HypotIsEuclidean(m) && r.IsUnit()
    ensures NewRotation(m, r.cos, r.sin, true) == r
  {
    HypotOfScaledUnit(m, r.cos, r.sin, 1.0);
    assert r.cos * 1.0 == r.cos && r.sin * 1.0 == r.sin;
  }

  /** rotateBy is commutative: its product-sum inputs are symmetric. */
  lemma RotateByCommutes(m: Math, r: Rotation2d, q: Rotation2d)
    ensures r.RotateBy(m, q) == q.RotateBy(m, r)
  {
    assert r.ToTranslation().RotateBy(q) == q.ToTranslation().RotateBy(r);
  }

  /** Rotating a unit rotation by its inverse gives the identity, and the identity is neutral. */
  lemma RotateByInverse(m: Math, r: Rotation2d)
    requires HypotIsEuclidean(m) && r.IsUnit()
    ensures r.RotateBy(m, r.Inverse()) == IdentityRotation()
    ensures r.RotateBy(m, IdentityRotation()) == r
    ensures IdentityRotation().RotateBy(m, r) == r
  {
    var inv := r.Inverse();
    assert r.ToTranslation().RotateBy(inv) == Translation2d(1.0, 0.0);
    NormalizeUnit(m, IdentityRotation());
    NormalizeUnit(m, r);
    assert r.cos * 1.0 - r.sin * 0.0 == r.cos && r.cos * 0.0 + r.sin * 1.0 == r.sin;
    assert 1.0 * r.cos - 0.0 * r.sin == r.cos && 1.0 * r.sin + 0.0 * r.cos == r.sin;
  }

  /**
   * normal is a quarter turn: orthogonal to the rotation, with cross product
   * cos^2 + sin^2, and a half turn when applied twice. inverse is involutive
   * and mirrors the angle.
   */
  lemma NormalInverseLaws(r: Rotation2d)
    ensures Dot(r.Normal().ToTranslation(), r.ToTranslation()) == 0.0
    ensures Cross(r.ToTranslation(), r.Normal().ToTranslation()) == r.cos * r.cos + r.sin * r.sin
    ensures r.Normal().Normal() == Rotation2d(-r.cos, -r.sin)
    ensures r.Inverse().Inverse() == r
    ensures r.Inverse().IsUnit() == r.IsUnit()
  {
  }

  /** A rotation with the identity's pair (1, 0) is neutral for rotateBy on unit rotations. */
  lemma RotateByIdentityRotation(m: Math, r: Rotation2d, q: Rotation2d)
    requires HypotIsEuclidean(m) && r.IsUnit()
    requires q.cos == 1.0 && q.sin == 0.0
    ensures r.RotateBy(m, q) == r
    ensures q.RotateBy(m, r) == r
  {
    RotateByIdentity(r.ToTranslation(), q);
    RotateUnitX(q.ToTranslation(), r);
    NormalizeUnit(m, r);
  }

  /** isParallel is reflexive and symmetric. */
  lemma IsParallelLaws(r: Rotation2d, q: Rotation2d)
    ensures r.IsParallel(r)
    ensures r.IsParallel(q) == q.IsParallel(r)
  {
    CrossDotLaws(r.ToTranslation(), q.ToTranslation());
  }

  /** Two rotations a quarter turn apart are never parallel when both are unit. */
  lemma NormalNotParallel(r: Rotation2d)
    requires r.IsUnit()
    ensures !r.IsParallel(r.Normal())
  {
    var c := Cross(r.ToTranslation(), r.Normal().ToTranslation());
    assert c == 1.0;
    assert !Util.EpsilonEquals(c, 0.0);
  }
}
