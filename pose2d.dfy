/** Pose2d.kt: a rigid transform, a translation followed by a rotation. */
module Poses {
  import opened KMath
  import Util
  import opened Vectors
  import opened Twists

  /** The threshold below which exp and log switch to their Taylor expansions. */
  const kEps: real := 0.000000001

  /**
   * What intersection returns: a point, the (+INF, +INF) sentinel it uses for
   * parallel headings and for a NaN line parameter, or some other
   * non-finite pair when the line parameter is an infinity.
   */
  datatype Crossing = Point(at: Translation2d) | NoCrossing | Unbounded

  datatype Pose2d = Pose2d(translation: Translation2d, rotation: Rotation2d) {

    /** transformBy(other): translate by other's translation rotated by this rotation, then compose the rotations. */
    function TransformBy(m: Math, other: Pose2d): Pose2d
    {
      Pose2d(translation.TranslateBy(other.translation.RotateBy(rotation)), rotation.RotateBy(m, other.rotation))
    }

    /** inverse(): the transform that undoes this one. */
    function Inverse(): Pose2d
    {
      var rotationInverted := rotation.Inverse();
      Pose2d(translation.Inverse().RotateBy(rotationInverted), rotationInverted)
    }

    /** normal(): the same translation with the rotation turned a quarter to the left. */
    function Normal(): (r: Pose2d)
      ensures r.translation == translation
    {
      Pose2d(translation, rotation.Normal())
    }

    /**
     * intersection(other): where the heading lines cross; the sentinel for
     * parallel headings. The pose with the smaller |cos| is the one whose
     * line parameter is solved for.
     */
    function Intersection(other: Pose2d): (r: Crossing)
      ensures rotation.IsParallel(other.rotation) ==> r == NoCrossing
    {
      if rotation.IsParallel(other.rotation) then NoCrossing
      else if Abs(rotation.cos) < Abs(other.rotation.cos) then IntersectionInternal(this, other)
      else IntersectionInternal(other, this)
    }

    /** isColinear(other): parallel headings and a relative twist with no sideways or turning part. */
    function IsColinear(m: Math, other: Pose2d): (r: bool)
      ensures r ==> rotation.IsParallel(other.rotation)
      ensures r ==> Abs(Log(m, Inverse().TransformBy(m, other)).dy) <= Util.kEpsilon
    {
      if !rotation.IsParallel(other.rotation) then false
      else
        var twist := Log(m, Inverse().TransformBy(m, other));
        Util.EpsilonEquals(twist.dy, 0.0) && Util.EpsilonEquals(twist.dtheta, 0.0)
    }

    /** epsilonEquals(other, epsilon): translations within epsilon and parallel rotations. */
    predicate EpsilonEquals(other: Pose2d, epsilon: real)
    {
      translation.EpsilonEquals(other.translation, epsilon) && rotation.IsParallel(other.rotation)
    }

    /** interpolate(other, x): this for x <= 0, other for x >= 1, else along the constant-curvature twist. */
    function Interpolate(m: Math, other: Pose2d, x: real): (r: Pose2d)
      ensures x <= 0.0 ==> r == this
      ensures x >= 1.0 ==> r == other
    {
      if x <= 0.0 then this
      else if x >= 1.0 then other
      else
        var twist := Log(m, Inverse().TransformBy(m, other));
        TransformBy(m, Exp(m, twist.Scaled(x)))
    }

    /** distance(other): the norm of the twist from this pose to other. */
    function Distance(m: Math, other: Pose2d): real
    {
      Log(m, Inverse().TransformBy(m, other)).Norm(m)
    }

    /** mirror(): reflection in the x axis. */
    function Mirror(): (r: Pose2d)
      ensures r.translation.x == translation.x && r.translation.y == -translation.y
      ensures r.rotation.cos == rotation.cos && r.rotation.sin == -rotation.sin
    {
      Pose2d(Translation2d(translation.x, -translation.y), rotation.Inverse())
    }
  }

  /** Pose2d() and identity(). */
  function Identity(): Pose2d
  {
    Pose2d(Origin(), IdentityRotation())
  }

  /** Pose2d(x, y, rotation) */
  function FromCoordinates(x: real, y: real, rotation: Rotation2d): Pose2d
  {
    Pose2d(Translation2d(x, y), rotation)
  }

  /** fromTranslation(translation) */
  function FromTranslation(translation: Translation2d): Pose2d
  {
    Pose2d(translation, IdentityRotation())
  }

  /** fromRotation(rotation) */
  function FromRotation(rotation: Rotation2d): Pose2d
  {
    Pose2d(Origin(), rotation)
  }

  /**
   * exp(delta): the pose reached by following delta, with the series
   * 1 - dtheta^2 / 6 and dtheta / 2 for sin(dtheta) / dtheta and
   * (1 - cos dtheta) / dtheta when |dtheta| < kEps.
   */
  function Exp(m: Math, delta: Twist2d): (r: Pose2d)
    ensures r.rotation == Rotation2d(m.cos(delta.dtheta), m.sin(delta.dtheta))
  {
    var sinTheta := m.sin(delta.dtheta);
    var cosTheta := m.cos(delta.dtheta);
    var s := if Abs(delta.dtheta) < kEps then 1.0 - 1.0 / 6.0 * delta.dtheta * delta.dtheta
             else sinTheta / delta.dtheta;
    var c := if Abs(delta.dtheta) < kEps then 0.5 * delta.dtheta
             else (1.0 - cosTheta) / delta.dtheta;
    Pose2d(Translation2d(delta.dx * s - delta.dy * c, delta.dx * c + delta.dy * s),
           NewRotation(m, cosTheta, sinTheta, false))
  }

  /**
   * log(transform): the twist that exp maps to transform, with the series
   * 1 - dtheta^2 / 12 for (dtheta / 2) / tan(dtheta / 2) when |cos - 1| < kEps.
   */
  function Log(m: Math, transform: Pose2d): (r: Twist2d)
    ensures r.dtheta == transform.rotation.Radians(m)
  {
    var dtheta := transform.rotation.Radians(m);
    var halfDtheta := 0.5 * dtheta;
    var cosMinusOne := transform.rotation.cos - 1.0;
    var halfthetaByTanOfHalfdtheta :=
      if Abs(cosMinusOne) < kEps then 1.0 - 1.0 / 12.0 * dtheta * dtheta
      else -(halfDtheta * transform.rotation.sin) / cosMinusOne;
    var translationPart := transform.translation.RotateBy(NewRotation(m, halfthetaByTanOfHalfdtheta, -halfDtheta, false));
    Twist2d(translationPart.x, translationPart.y, dtheta)
  }

  /**
   * intersectionInternal(a, b): solves a.translation + t * a.direction for the
   * point on b's heading line, through tan of b's rotation. An infinite tan
   * makes t NaN, as does 0 / 0; both give the sentinel.
   */
  function IntersectionInternal(a: Pose2d, b: Pose2d): (r: Crossing)
    ensures b.rotation.Tan().Finite? && a.rotation.sin - a.rotation.cos * b.rotation.Tan().value != 0.0 ==> r.Point?
    ensures !b.rotation.Tan().Finite? ==> r == NoCrossing
  {
    match b.rotation.Tan()
    case Finite(tanB) =>
      var numerator := (a.translation.x - b.translation.x) * tanB + b.translation.y - a.translation.y;
      var denominator := a.rotation.sin - a.rotation.cos * tanB;
      (match Divide(numerator, denominator)
       case Finite(t) => Point(a.translation.TranslateBy(a.rotation.ToTranslation().Scale(t)))
       case NaN => NoCrossing
       case _ => Unbounded)
    case _ => NoCrossing
  }

  /** p lies on the line through `origin` with direction `heading`. */
  predicate OnLine(p: Translation2d, origin: Translation2d, heading: Rotation2d)
  {
    Cross(Delta(origin, p), heading.ToTranslation()) == 0.0
  }

  // ---------------------------------------------------------------------------
  // Lemmas

  /** A point found by intersectionInternal lies on both heading lines. */
  lemma IntersectionInternalOnBothLines(a: Pose2d, b: Pose2d)
    requires IntersectionInternal(a, b).Point?
    ensures OnLine(IntersectionInternal(a, b).at, a.translation, a.rotation)
    ensures OnLine(IntersectionInternal(a, b).at, b.translation, b.rotation)
  {
    var v := b.rotation.Tan().value;
    var aX, aY, bX, bY := a.translation.x, a.translation.y, b.translation.x, b.translation.y;
    var aC, aS := a.rotation.cos, a.rotation.sin;
    var numerator := (aX - bX) * v + bY - aY;
    var denominator := aS - aC * v;
    assert denominator != 0.0;
    var t := numerator / denominator;
    assert t * denominator == numerator;
    assert IntersectionInternal(a, b).at == Translation2d(aX + aC * t, aY + aS * t);
    CrossingOnLines(aX, aY, aC, aS, bX, bY, b.rotation.cos, b.rotation.sin, v, t);
  }

  /**
   * The point at parameter t along the line through (aX, aY) with direction
   * (aC, aS) is on that line, and on the line through (bX, bY) with direction
   * (bC, bS) when t solves the equation intersectionInternal divides out.
   */
  lemma CrossingOnLines(aX: real, aY: real, aC: real, aS: real, bX: real, bY: real, bC: real, bS: real, v: real, t: real)
    requires v * bC == bS
    requires t * (aS - aC * v) == (aX - bX) * v + bY - aY
    ensures ((aX + aC * t) - aX) * aS - ((aY + aS * t) - aY) * aC == 0.0
    ensures ((aX + aC * t) - bX) * bS - ((aY + aS * t) - bY) * bC == 0.0
  {
    assert (aC * t) * aS == (aS * t) * aC;
    calc {
      ((aX + aC * t) - bX) * v - ((aY + aS * t) - bY);
      (aX - bX) * v + bY - aY - t * (aS - aC * v);
      0.0;
    }
    calc {
      ((aX + aC * t) - bX) * bS - ((aY + aS * t) - bY) * bC;
      ((aX + aC * t) - bX) * (v * bC) - ((aY + aS * t) - bY) * bC;
      (((aX + aC * t) - bX) * v - ((aY + aS * t) - bY)) * bC;
      0.0;
    }
  }

  /** A point found by intersection lies on both heading lines. */
  lemma IntersectionOnBothLines(a: Pose2d, b: Pose2d)
    requires a.Intersection(b).Point?
    ensures OnLine(a.Intersection(b).at, a.translation, a.rotation)
    ensures OnLine(a.Intersection(b).at, b.translation, b.rotation)
  {
    if Abs(a.rotation.cos) < Abs(b.rotation.cos) {
      IntersectionInternalOnBothLines(a, b);
    } else {
      IntersectionInternalOnBothLines(b, a);
    }
  }

  /** intersection does not depend on the order of the poses when their |cos| differ. */
  lemma IntersectionSymmetric(a: Pose2d, b: Pose2d)
    requires Abs(a.rotation.cos) != Abs(b.rotation.cos)
    ensures a.Intersection(b) == b.Intersection(a)
  {
    IsParallelLaws(a.rotation, b.rotation);
  }

  /** For unit rotations the identity is neutral on both sides of transformBy. */
  lemma TransformByIdentity(m: Math, p: Pose2d)
    requires HypotIsEuclidean(m) && p.rotation.IsUnit()
    ensures p.TransformBy(m, Identity()) == p
    ensures Identity().TransformBy(m, p) == p
  {
    TransformByZero(m, p, Identity());
  }

  /** A pose e with translation (0, 0) and rotation (1, 0) is neutral on both sides of transformBy. */
  lemma TransformByZero(m: Math, p: Pose2d, e: Pose2d)
    requires HypotIsEuclidean(m) && p.rotation.IsUnit()
    requires e.translation.x == 0.0 && e.translation.y == 0.0 && e.rotation.cos == 1.0 && e.rotation.sin == 0.0
    ensures p.TransformBy(m, e) == p && e.TransformBy(m, p) == p
  {
    RotateByIdentityRotation(m, p.rotation, e.rotation);
    RotateByIdentity(p.translation, e.rotation);
    RotateByZero(e.translation, p.rotation);
  }

  /** For unit rotations inverse cancels transformBy on both sides. */
  lemma TransformByInverse(m: Math, p: Pose2d)
    requires HypotIsEuclidean(m) && p.rotation.IsUnit()
    ensures p.TransformBy(m, p.Inverse()) == Identity()
    ensures p.Inverse().TransformBy(m, p) == Identity()
  {
    InverseAfter(m, p);
    InverseBefore(m, p);
  }

  /** Composing a unit pose with its inverse gives the identity. */
  lemma InverseAfter(m: Math, p: Pose2d)
    requires HypotIsEuclidean(m) && p.rotation.IsUnit()
    ensures p.TransformBy(m, p.Inverse()) == Identity()
  {
    var r, t := p.rotation, p.translation;
    RotateByInverse(m, r);
    RotateByThenInverse(t.Inverse(), r);
    TranslationInverseLaws(t);
  }

  /** Composing the inverse of a unit pose with the pose gives the identity. */
  lemma InverseBefore(m: Math, p: Pose2d)
    requires HypotIsEuclidean(m) && p.rotation.IsUnit()
    ensures p.Inverse().TransformBy(m, p) == Identity()
  {
    var r, t := p.rotation, p.translation;
    RotateByInverse(m, r);
    RotateByCommutes(m, r.Inverse(), r);
    RotateByInverseTranslation(t, r.Inverse());
    var q := t.RotateBy(r.Inverse());
    TranslationInverseLaws(q);
    TranslateByLaws(q.Inverse(), q, q);
  }

  /** mirror is an involution. */
  lemma MirrorTwice(p: Pose2d)
    ensures p.Mirror().Mirror() == p
  {
    NormalInverseLaws(p.rotation);
  }

  /** exp of a twist without rotation is the straight move (dx, dy). */
  lemma ExpStraight(m: Math, dx: real, dy: real)
    requires TrigAtZero(m)
    ensures Exp(m, Twist2d(dx, dy, 0.0)) == Pose2d(Translation2d(dx, dy), IdentityRotation())
  {
  }

  /** log of a pure translation is the twist (x, y, 0). */
  lemma LogStraight(m: Math, t: Translation2d)
    requires TrigAtZero(m)
    ensures Log(m, FromTranslation(t)) == Twist2d(t.x, t.y, 0.0)
  {
    RotateByIdentity(t, Rotation2d(1.0, -0.0));
  }

  /** log undoes exp on straight twists, and exp undoes log on pure translations. */
  lemma ExpLogStraightRoundTrip(m: Math, dx: real, dy: real)
    requires TrigAtZero(m)
    ensures Log(m, Exp(m, Twist2d(dx, dy, 0.0))) == Twist2d(dx, dy, 0.0)
    ensures Exp(m, Log(m, FromTranslation(Translation2d(dx, dy)))) == FromTranslation(Translation2d(dx, dy))
  {
    ExpStraight(m, dx, dy);
    LogStraight(m, Translation2d(dx, dy));
  }

  /** The inverse of a pure translation is the opposite translation. */
  lemma InverseOfTranslation(a: Translation2d)
    ensures FromTranslation(a).Inverse() == Pose2d(a.Inverse(), IdentityRotation().Inverse())
  {
    var inverted := IdentityRotation().Inverse();
    assert inverted.cos == 1.0 && inverted.sin == 0.0;
    RotateByIdentity(a.Inverse(), inverted);
  }

  /** A pose whose rotation is the pair (1, 0), transformed by a pure translation, just adds the translations. */
  lemma TransformByTranslation(m: Math, a: Translation2d, q: Rotation2d, b: Translation2d)
    requires HypotIsEuclidean(m)
    requires q.cos == 1.0 && q.sin == 0.0
    ensures Pose2d(a, q).TransformBy(m, FromTranslation(b)) == FromTranslation(a.TranslateBy(b))
  {
    RotateByIdentity(b, q);
    assert IdentityRotation().IsUnit();
    RotateByIdentityRotation(m, IdentityRotation(), q);
  }

  /** The relative pose of two poses facing the x axis is the pure translation between them. */
  lemma RelativeStraight(m: Math, a: Translation2d, b: Translation2d)
    requires HypotIsEuclidean(m)
    ensures FromTranslation(a).Inverse().TransformBy(m, FromTranslation(b)) == FromTranslation(Delta(a, b))
  {
    InverseOfTranslation(a);
    TransformByTranslation(m, a.Inverse(), IdentityRotation().Inverse(), b);
    DeltaIsDifference(a, b);
    TranslateByLaws(a.Inverse(), b, Origin());
  }

  /** Interpolating between two poses facing the x axis moves in a straight line. */
  lemma InterpolateStraight(m: Math, a: Translation2d, b: Translation2d, x: real)
    requires HypotIsEuclidean(m) && TrigAtZero(m)
    requires 0.0 < x < 1.0
    ensures FromTranslation(a).Interpolate(m, FromTranslation(b), x)
            == FromTranslation(Translation2d(a.x + x * (b.x - a.x), a.y + x * (b.y - a.y)))
  {
    var d := Delta(a, b);
    var step := Translation2d(d.x * x, d.y * x);
    calc {
      FromTranslation(a).Interpolate(m, FromTranslation(b), x);
      FromTranslation(a).TransformBy(m, Exp(m, Log(m, FromTranslation(a).Inverse().TransformBy(m, FromTranslation(b))).Scaled(x)));
      { RelativeStraight(m, a, b); }
      FromTranslation(a).TransformBy(m, Exp(m, Log(m, FromTranslation(d)).Scaled(x)));
      { LogStraight(m, d); }
      FromTranslation(a).TransformBy(m, Exp(m, Twist2d(d.x, d.y, 0.0).Scaled(x)));
      { assert Twist2d(d.x, d.y, 0.0).Scaled(x) == Twist2d(step.x, step.y, 0.0); }
      FromTranslation(a).TransformBy(m, Exp(m, Twist2d(step.x, step.y, 0.0)));
      { ExpStraight(m, step.x, step.y); }
      FromTranslation(a).TransformBy(m, FromTranslation(step));
      { TransformByTranslation(m, a, IdentityRotation(), step); }
      FromTranslation(a.TranslateBy(step));
    }
  }

  /** A pose with a unit rotation is colinear with itself and at distance 0 from itself. */
  lemma SelfColinear(m: Math, p: Pose2d)
    requires HypotIsEuclidean(m) && TrigAtZero(m) && p.rotation.IsUnit()
    ensures p.IsColinear(m, p)
    ensures p.Distance(m, p) == 0.0
  {
    TransformByInverse(m, p);
    IsParallelLaws(p.rotation, p.rotation);
    LogStraight(m, Origin());
    assert Identity() == FromTranslation(Origin());
  }

  /** A pose is never colinear with its own normal (for a unit rotation). */
  lemma NotColinearWithNormal(m: Math, p: Pose2d)
    requires p.rotation.IsUnit()
    ensures !p.IsColinear(m, p.Normal())
  {
    NormalNotParallel(p.rotation);
  }

  /** The distance from a pose with a unit rotation to itself is 0. */
  lemma DistanceToSelf(m: Math, p: Pose2d)
    requires HypotIsEuclidean(m) && TrigAtZero(m) && p.rotation.IsUnit()
    ensures p.Distance(m, p) == 0.0
  {
    TransformByInverse(m, p);
    LogStraight(m, Origin());
    assert FromTranslation(Origin()) == Identity();
  }

  /** epsilonEquals on poses is reflexive for epsilon >= 0 and symmetric. */
  lemma PoseEpsilonEqualsLaws(p: Pose2d, q: Pose2d, epsilon: real)
    ensures 0.0 <= epsilon ==> p.EpsilonEquals(p, epsilon)
    ensures p.EpsilonEquals(q, epsilon) == q.EpsilonEquals(p, epsilon)
  {
    TranslationEpsilonEqualsLaws(p.translation, q.translation, epsilon);
    IsParallelLaws(p.rotation, q.rotation);
  }
}
