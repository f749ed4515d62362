/** Pose2dWithCurvature.kt: a pose together with its curvature and the curvature's rate along the path. */
module CurvaturePoses {
  import opened KMath
  import Util
  import opened Vectors
  import opened Poses

  /** curvature and dCurvatureDs can be non-finite when a spline stops (zero velocity). */
  datatype Pose2dWithCurvature = Pose2dWithCurvature(pose: Pose2d, curvature: Double, dCurvatureDs: Double) {

    /** transformBy(transform): transforms the pose and keeps both curvature values. */
    function TransformBy(m: Math, transform: Pose2d): (r: Pose2dWithCurvature)
      ensures r.pose == pose.TransformBy(m, transform)
      ensures r.curvature == curvature && r.dCurvatureDs == dCurvatureDs
    {
      Pose2dWithCurvature(pose.TransformBy(m, transform), curvature, dCurvatureDs)
    }

    /** mirror(): mirrors the pose; a mirrored path turns the other way, so both curvature values flip sign. */
    function Mirror(): (r: Pose2dWithCurvature)
      ensures r.pose == pose.Mirror()
      ensures r.curvature.Finite? == curvature.Finite? && r.dCurvatureDs.Finite? == dCurvatureDs.Finite?
      ensures r.curvature.Finite? ==> r.curvature.value == -curvature.value
      ensures r.dCurvatureDs.Finite? ==> r.dCurvatureDs.value == -dCurvatureDs.value
    {
      Pose2dWithCurvature(pose.Mirror(), Negate(curvature), Negate(dCurvatureDs))
    }

    /** The translation of the pose. */
    function Translation(): Translation2d
    {
      pose.translation
    }

    /** The rotation of the pose. */
    function Rotation(): Rotation2d
    {
      pose.rotation
    }

    /** interpolate(other, x): poses along the twist, curvature values linearly. */
    function Interpolate(m: Math, other: Pose2dWithCurvature, x: real): (r: Pose2dWithCurvature)
      ensures r.pose == pose.Interpolate(m, other.pose, x)
      ensures curvature.Finite? && other.curvature.Finite? ==>
                r.curvature == Finite(Util.Interpolate(curvature.value, other.curvature.value, x))
      ensures dCurvatureDs.Finite? && other.dCurvatureDs.Finite? ==>
                r.dCurvatureDs == Finite(Util.Interpolate(dCurvatureDs.value, other.dCurvatureDs.value, x))
    {
      Pose2dWithCurvature(
        pose.Interpolate(m, other.pose, x),
        Util.InterpolateDouble(curvature, other.curvature, x),
        Util.InterpolateDouble(dCurvatureDs, other.dCurvatureDs, x))
    }

    /** distance(other): the distance of the poses alone. */
    function Distance(m: Math, other: Pose2dWithCurvature): real
    {
      pose.Distance(m, other.pose)
    }

    /** Finite curvature values: what a sample of a moving spline carries. */
    predicate IsFinite()
    {
      curvature.Finite? && dCurvatureDs.Finite?
    }
  }

  /** Pose2dWithCurvature() and identity(): the identity pose on a straight line. */
  function Identity(): Pose2dWithCurvature
  {
    Pose2dWithCurvature(Poses.Identity(), Finite(0.0), Finite(0.0))
  }

  /** Pose2dWithCurvature(pose, curvature): dCurvatureDs defaults to 0. */
  function WithCurvature(pose: Pose2d, curvature: real): Pose2dWithCurvature
  {
    Pose2dWithCurvature(pose, Finite(curvature), Finite(0.0))
  }

  /** Pose2dWithCurvature(translation, rotation, curvature): dCurvatureDs defaults to 0. */
  function FromParts(translation: Translation2d, rotation: Rotation2d, curvature: real): Pose2dWithCurvature
  {
    Pose2dWithCurvature(Pose2d(translation, rotation), Finite(curvature), Finite(0.0))
  }

  /** Pose2dWithCurvature(translation, rotation, curvature, dcurvature_ds) */
  function FromPartsWithDerivative(translation: Translation2d, rotation: Rotation2d, curvature: real, dCurvatureDs: real): Pose2dWithCurvature
  {
    Pose2dWithCurvature(Pose2d(translation, rotation), Finite(curvature), Finite(dCurvatureDs))
  }

  /** mirror is an involution. */
  lemma MirrorTwice(p: Pose2dWithCurvature)
    ensures p.Mirror().Mirror() == p
  {
    Poses.MirrorTwice(p.pose);
  }

  /** Interpolation starts at this sample and ends at the other when the curvature values are finite. */
  lemma InterpolateEndpoints(m: Math, p: Pose2dWithCurvature, q: Pose2dWithCurvature, x: real)
    requires p.IsFinite() && q.IsFinite()
    ensures x <= 0.0 ==> p.Interpolate(m, q, x) == p
    ensures x >= 1.0 ==> p.Interpolate(m, q, x) == q
    ensures p.Interpolate(m, q, x).IsFinite()
  {
  }

  /** Interpolated curvature stays between the two curvatures. */
  lemma InterpolateCurvatureBetween(m: Math, p: Pose2dWithCurvature, q: Pose2dWithCurvature, x: real)
    requires p.IsFinite() && q.IsFinite()
    ensures Min(p.curvature.value, q.curvature.value) <= p.Interpolate(m, q, x).curvature.value
    ensures p.Interpolate(m, q, x).curvature.value <= Max(p.curvature.value, q.curvature.value)
  {
  }

  /** The straight-line constructors give zero curvature rate. */
  lemma ConstructorDefaults(pose: Pose2d, t: Translation2d, r: Rotation2d, k: real)
    ensures WithCurvature(pose, k).dCurvatureDs == Finite(0.0)
    ensures FromParts(t, r, k) == WithCurvature(Pose2d(t, r), k)
    ensures FromPartsWithDerivative(t, r, k, 0.0) == FromParts(t, r, k)
    ensures Identity().IsFinite() && Identity().Mirror() == Pose2dWithCurvature(Poses.Identity().Mirror(), Finite(-0.0), Finite(-0.0))
  {
  }
}
