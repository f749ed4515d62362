/**
 * com.team254.lib.splinesutil: the top-level toDegrees and toRadians. The
 * Util object of this package repeats util.Util member for member; those
 * helpers are modelled once, in module Util.
 */
module SplinesUtil {

  /** kotlin.math.PI, as the decimal real of the Double constant. */
  const PI: real := 3.141592653589793

  /** toDegrees(radians) = radians * (180 / PI). */
  function ToDegrees(radians: real): (degrees: real)
    ensures radians > 0.0 ==> degrees > radians
    ensures radians == 0.0 <==> degrees == 0.0
  {
    radians * (180.0 / PI)
  }

  /** toRadians(degrees) = degrees * (PI / 180). */
  function ToRadians(degrees: real): (radians: real)
    ensures degrees > 0.0 ==> radians < degrees
    ensures degrees == 0.0 <==> radians == 0.0
  {
    degrees * (PI / 180.0)
  }

  /** The two conversions undo each other. */
  lemma DegreesRadiansRoundTrip(r: real, d: real)
    ensures ToRadians(ToDegrees(r)) == r
    ensures ToDegrees(ToRadians(d)) == d
  {
    assert (180.0 / PI) * (PI / 180.0) == 1.0;
    assert r * (180.0 / PI) * (PI / 180.0) == r * ((180.0 / PI) * (PI / 180.0));
    assert d * (PI / 180.0) * (180.0 / PI) == d * ((PI / 180.0) * (180.0 / PI));
  }
}
