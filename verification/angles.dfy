/**
 * Angle value types (src/support/angles/Degrees.ts, Radians.ts): degrees and
 * radians, converted through pi = Math.PI.
 */
module Angles {
  import opened Numerics

  datatype Angle =
    | Degrees(value: real)
    | Radians(value: real)

  function ToRadians(a: Angle): (r: Angle)
    ensures r.Radians?
    ensures a.Radians? ==> r == a
    ensures a.Degrees? ==> r.value * 180.0 == a.value * PI
  {
    match a
    case Degrees(v) => Radians(v * PI / 180.0)
    case Radians(_) => a
  }

  function ToDegrees(a: Angle): (r: Angle)
    ensures r.Degrees?
    ensures a.Degrees? ==> r == a
    ensures a.Radians? ==> r.value * PI == a.value * 180.0
  {
    match a
    case Degrees(_) => a
    case Radians(v) => Degrees(v * 180.0 / PI)
  }

  /** Over the reals the two conversions are mutually inverse. */
  lemma DegreesRadiansRoundTrip(a: Angle)
    ensures ToDegrees(ToRadians(a)) == ToDegrees(a)
    ensures ToRadians(ToDegrees(a)) == ToRadians(a)
  {
  }

  /** A straight angle is pi radians and a right angle pi / 2. */
  lemma StraightAndRightAngles()
    ensures ToRadians(Degrees(180.0)) == Radians(PI)
    ensures ToRadians(Degrees(90.0)) == Radians(PI / 2.0)
    ensures ToDegrees(Radians(PI)) == Degrees(180.0)
  {
  }
}
