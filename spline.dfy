/**
 * Spline.kt: what the sampler needs from a spline, as a record of its
 * abstract functions of the parameter t.
 */
module Splines {
  import opened KMath
  import opened Vectors
  import opened Poses
  import opened CurvaturePoses

  /** getPoint, getHeading, getCurvature, getDCurvature (dk/dt) and getVelocity (ds/dt). */
  datatype Spline = Spline(
    point: real -> Translation2d,
    heading: real -> Rotation2d,
    curvature: real -> Double,
    dCurvature: real -> Double,
    velocity: real -> real)
  {
    /** getPose2d(t): the point and heading at t. */
    function GetPose2d(t: real): (r: Pose2d)
      ensures r.translation == point(t) && r.rotation == heading(t)
    {
      Pose2d(point(t), heading(t))
    }

    /**
     * getPose2dWithCurvature(t): the pose, the curvature, and dk/ds obtained
     * as (dk/dt) / (ds/dt) in IEEE-754 arithmetic.
     */
    function GetPose2dWithCurvature(t: real): (r: Pose2dWithCurvature)
      ensures r.pose == GetPose2d(t) && r.curvature == curvature(t)
      ensures dCurvature(t).Finite? && velocity(t) != 0.0 ==>
                r.dCurvatureDs.Finite? && r.dCurvatureDs.value * velocity(t) == dCurvature(t).value
      ensures r.dCurvatureDs.Finite? ==> dCurvature(t).Finite? && velocity(t) != 0.0
    {
      Pose2dWithCurvature(GetPose2d(t), curvature(t), DivideBy(dCurvature(t), velocity(t)))
    }

    /** A spline that never stops and whose curvature functions are finite. */
    ghost predicate IsRegular()
    {
      forall t: real :: velocity(t) != 0.0 && curvature(t).Finite? && dCurvature(t).Finite?
    }
  }

  /** Every sample of a regular spline carries finite curvature values. */
  lemma RegularSamplesFinite(s: Spline, t: real)
    requires s.IsRegular()
    ensures s.GetPose2dWithCurvature(t).IsFinite()
    ensures s.GetPose2dWithCurvature(t).dCurvatureDs.value * s.velocity(t) == s.dCurvature(t).value
  {
  }
}
