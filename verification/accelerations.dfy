/**
 * Acceleration value types (src/support/acceleration): feet and metres per
 * second squared.
 */
module Accelerations {
  import Numerics

  datatype Acceleration =
    | FeetPerSecondSquared(value: real)
    | MetersPerSecondSquared(value: real)

  function ToMetersPerSecondSquared(a: Acceleration): (r: Acceleration)
    ensures r.MetersPerSecondSquared?
    ensures a.MetersPerSecondSquared? ==> r == a
    ensures a.FeetPerSecondSquared? ==> r.value * 3.28084 == a.value * 1.000000032
  {
    match a
    case FeetPerSecondSquared(v) => MetersPerSecondSquared(v * 0.3048)
    case MetersPerSecondSquared(_) => a
  }

  function ToFeetPerSecondSquared(a: Acceleration): (r: Acceleration)
    ensures r.FeetPerSecondSquared?
    ensures a.FeetPerSecondSquared? ==> r == a
    ensures a.MetersPerSecondSquared? ==> r.value * 0.3048 == a.value * 1.000000032
  {
    match a
    case FeetPerSecondSquared(_) => a
    case MetersPerSecondSquared(v) => FeetPerSecondSquared(v * 3.28084)
  }

  /** The standard gravity of 32.174 ft/s^2 converts to 9.8066352 m/s^2, which rounds to 9.807. */
  lemma StandardGravityInMetres()
    ensures ToMetersPerSecondSquared(FeetPerSecondSquared(32.174)) == MetersPerSecondSquared(9.8066352)
    ensures 9.8065 <= ToMetersPerSecondSquared(FeetPerSecondSquared(32.174)).value < 9.8075
  {
  }

  /** Converting there and back stays within 1e-3 of 32.174049 ft/s^2 and within 1e-5 of 9.80665 m/s^2. */
  lemma RoundTripsNearStandardGravity()
    ensures Numerics.Abs(ToFeetPerSecondSquared(ToMetersPerSecondSquared(FeetPerSecondSquared(32.174049))).value - 32.174049) < 0.0005
    ensures Numerics.Abs(ToMetersPerSecondSquared(ToFeetPerSecondSquared(MetersPerSecondSquared(9.80665))).value - 9.80665) < 0.000005
  {
  }

  /** Zero converts to zero and a negative value stays negative, in both directions. */
  lemma ZeroAndSign(v: real)
    ensures ToMetersPerSecondSquared(FeetPerSecondSquared(0.0)).value == 0.0
    ensures ToFeetPerSecondSquared(MetersPerSecondSquared(0.0)).value == 0.0
    ensures v < 0.0 ==> ToMetersPerSecondSquared(FeetPerSecondSquared(v)).value < 0.0
    ensures v < 0.0 ==> ToFeetPerSecondSquared(MetersPerSecondSquared(v)).value < 0.0
  {
  }
}
