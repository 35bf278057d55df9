/** The constant gravity model (src/support/gravity/ConstantGravityModel.ts). */
module Gravity {
  import Lengths
  import opened Accelerations

  /** Standard gravity in m/s^2. */
  const StandardGravity: real := 9.80665

  /** `getGravityAtAltitude`: the altitude is ignored. */
  function GravityAtAltitude(altitude: Lengths.Length): (g: Acceleration)
    ensures g == GravityAtSeaLevel()
  {
    MetersPerSecondSquared(StandardGravity)
  }

  /** `getGravityAtSeaLevel`: standard gravity, 9.80665 m/s^2, just under 32.174 ft/s^2. */
  function GravityAtSeaLevel(): (g: Acceleration)
    ensures g == MetersPerSecondSquared(9.80665)
    ensures 9.8 < g.value < 9.81
    ensures 32.17 < ToFeetPerSecondSquared(g).value < 32.18
  {
    MetersPerSecondSquared(StandardGravity)
  }
}
