/**
 * The equations of motion (src/support/aircraft/AircraftDynamicsModel.ts):
 * the time derivative of the twelve-number state under gravity alone, the
 * external forces and moments being fixed at zero. Sine and cosine come in
 * through the aircraft's `trig` parameter.
 */
module Dynamics {
  import opened Rotation
  import BodyToNed
  import NedToBody
  import Gravity
  import Lengths

  /** `StateVector`: body velocity, body rates, Euler angles and NED position, twelve independent reals. */
  datatype State = State(
    u: real, v: real, w: real,
    p: real, q: real, r: real,
    phi: real, theta: real, psi: real,
    x: real, y: real, z: real)

  /** The state every field of which is zero, as `new StateVector()` builds it. */
  const Zero: State := State(0.0, 0.0, 0.0, 0.0, 0.0, 0.0, 0.0, 0.0, 0.0, 0.0, 0.0, 0.0)

  /**
   * What the dynamics need from the aircraft and the environment: the mass
   * and the sine and cosine of an angle. Gravity is the constant model.
   */
  datatype Aircraft = Aircraft(mass: real, trig: real -> SinCos)

  function Velocity(s: State): Vec3 { Vec3(s.u, s.v, s.w) }
  function Rates(s: State): Vec3 { Vec3(s.p, s.q, s.r) }
  function Position(s: State): Vec3 { Vec3(s.x, s.y, s.z) }

  /** The state's attitude as the sines and cosines the rotation matrices take. */
  function Angles(a: Aircraft, s: State): EulerTrig {
    EulerTrig(a.trig(s.psi), a.trig(s.theta), a.trig(s.phi))
  }

  /** Sine and cosine are well-behaved at every angle of this state. */
  predicate TrigValid(a: Aircraft, s: State) {
    Angles(a, s).Valid()
  }

  function Add(a: Vec3, b: Vec3): Vec3 {
    Vec3(a.x + b.x, a.y + b.y, a.z + b.z)
  }

  /** The gravity magnitude at altitude `-z` metres: the constant model ignores the altitude. */
  function GravityMagnitude(s: State): (g: real)
    ensures g == Gravity.StandardGravity
  {
    Gravity.GravityAtAltitude(Lengths.Meters(-s.z)).value
  }

  /** `resolveGravityInBodyFrame`: the downward gravity vector seen from the body axes. */
  function ResolveGravity(a: Aircraft, s: State): Vec3 {
    var g := GravityMagnitude(s);
    var f := a.trig(s.phi);
    var t := a.trig(s.theta);
    Vec3(-t.sin * g, f.sin * t.cos * g, f.cos * t.cos * g)
  }

  /** The external force along one axis over the mass; the force is fixed at zero. */
  function ForceOverMass(force: real, mass: real): real
    requires mass != 0.0
  {
    force / mass
  }

  /** `calculateAxialAcceleration`. */
  function AxialAcceleration(a: Aircraft, s: State, g: Vec3): real
    requires a.mass != 0.0
  {
    ForceOverMass(0.0, a.mass) + g.x + s.r * s.v - s.q * s.w
  }

  /** `calculateLateralAcceleration`. */
  function LateralAcceleration(a: Aircraft, s: State, g: Vec3): real
    requires a.mass != 0.0
  {
    ForceOverMass(0.0, a.mass) + g.y + s.p * s.w - s.r * s.u
  }

  /** `calculateNormalAcceleration`. */
  function NormalAcceleration(a: Aircraft, s: State, g: Vec3): real
    requires a.mass != 0.0
  {
    ForceOverMass(0.0, a.mass) + g.z + s.q * s.u - s.p * s.v
  }

  /** `calculateNorthVelocity`. */
  function NorthVelocity(a: Aircraft, s: State): real {
    var f := a.trig(s.phi); var t := a.trig(s.theta); var h := a.trig(s.psi);
    s.u * (t.cos * h.cos)
      + s.v * (f.sin * t.sin * h.cos - f.cos * h.sin)
      + s.w * (f.cos * t.sin * h.cos + f.sin * h.sin)
  }

  /** `calculateEastVelocity`. */
  function EastVelocity(a: Aircraft, s: State): real {
    var f := a.trig(s.phi); var t := a.trig(s.theta); var h := a.trig(s.psi);
    s.u * (t.cos * h.sin)
      + s.v * (f.sin * t.sin * h.sin + f.cos * h.cos)
      + s.w * (f.cos * t.sin * h.sin - f.sin * h.cos)
  }

  /** `calculateDownVelocity`. */
  function DownVelocity(a: Aircraft, s: State): real {
    var f := a.trig(s.phi); var t := a.trig(s.theta);
    s.u * -t.sin + s.v * (f.sin * t.cos) + s.w * (f.cos * t.cos)
  }

  /**
   * `calculateStateDerivatives`: the body acceleration is gravity plus the
   * velocity crossed with the body rates, the rates do not change, the
   * attitude changes at the body rates, and the position changes at the
   * NED velocity.
   */
  function Derivatives(a: Aircraft, s: State, time: real): (d: State)
    requires a.mass != 0.0
    ensures Velocity(d) == Add(ResolveGravity(a, s), Cross(Velocity(s), Rates(s)))
    ensures Rates(d) == Vec3(0.0, 0.0, 0.0)
    ensures d.phi == s.p && d.theta == s.q && d.psi == s.r
    ensures Position(d) == Vec3(NorthVelocity(a, s), EastVelocity(a, s), DownVelocity(a, s))
  {
    var g := ResolveGravity(a, s);
    State(
      AxialAcceleration(a, s, g), LateralAcceleration(a, s, g), NormalAcceleration(a, s, g),
      0.0, 0.0, 0.0,
      s.p, s.q, s.r,
      NorthVelocity(a, s), EastVelocity(a, s), DownVelocity(a, s))
  }

  /** Body gravity is the NED vector (0, 0, g) put through `BodyToNedDCM.transform`. */
  lemma GravityIsDcmTransform(a: Aircraft, s: State)
    ensures ResolveGravity(a, s)
      == BodyToNed.Transform(BodyToNed.BodyToNedDcm(Angles(a, s)), Vec3(0.0, 0.0, Gravity.StandardGravity))
  {
  }

  /** For a valid attitude the body gravity has the full magnitude g. */
  lemma GravityKeepsMagnitude(a: Aircraft, s: State)
    requires TrigValid(a, s)
    ensures Dot(ResolveGravity(a, s), ResolveGravity(a, s)) == Gravity.StandardGravity * Gravity.StandardGravity
  {
    GravityIsDcmTransform(a, s);
  }

  /** The position rates are the body velocity put through `NedToBodyDCM.transform`. */
  lemma PositionRatesAreDcmTransform(a: Aircraft, s: State)
    ensures Vec3(NorthVelocity(a, s), EastVelocity(a, s), DownVelocity(a, s))
      == NedToBody.Transform(NedToBody.NedToBodyDcm(Angles(a, s)), Velocity(s))
  {
  }

  /**
   * For a valid attitude the position rates are the body velocity in the
   * NED frame: `BodyToNedDCM.transform` takes them back to the body
   * velocity, and the speed over the ground equals the body speed.
   */
  lemma PositionRatesRotateVelocity(a: Aircraft, s: State)
    requires TrigValid(a, s)
    ensures var n := Vec3(NorthVelocity(a, s), EastVelocity(a, s), DownVelocity(a, s));
      BodyToNed.Transform(BodyToNed.BodyToNedDcm(Angles(a, s)), n) == Velocity(s)
      && Dot(n, n) == Dot(Velocity(s), Velocity(s))
  {
    PositionRatesAreDcmTransform(a, s);
  }

  /** Neither the time nor the north and east position affect the derivative. */
  lemma IgnoresTimeAndHorizontalPosition(a: Aircraft, s: State, t1: real, t2: real, north: real, east: real)
    requires a.mass != 0.0
    ensures Derivatives(a, s, t1) == Derivatives(a, s.(x := north, y := east), t2)
  {
  }

  /** An angle whose sine is 0 and cosine 1, as the zero angle has. */
  predicate Upright(t: SinCos) {
    t.sin == 0.0 && t.cos == 1.0
  }

  /** Wings level and nose level, body gravity points straight down the body z axis. */
  lemma LevelGravity(a: Aircraft, s: State)
    requires Upright(a.trig(s.phi)) && Upright(a.trig(s.theta))
    ensures ResolveGravity(a, s) == Vec3(0.0, 0.0, Gravity.StandardGravity)
  {
  }

  /**
   * Level and at rest: the only change is the downward body velocity,
   * growing at g = 9.80665 m/s^2.
   */
  lemma LevelAtRest(a: Aircraft, s: State, time: real)
    requires a.mass != 0.0
    requires Upright(a.trig(s.phi)) && Upright(a.trig(s.theta))
    requires Velocity(s) == Vec3(0.0, 0.0, 0.0) && Rates(s) == Vec3(0.0, 0.0, 0.0)
    ensures Derivatives(a, s, time) == Zero.(w := 9.80665)
  {
    LevelGravity(a, s);
  }

  /** With every angle zero the position rates are the body velocity itself. */
  lemma LevelPositionRates(a: Aircraft, s: State)
    requires Upright(a.trig(s.phi)) && Upright(a.trig(s.theta)) && Upright(a.trig(s.psi))
    ensures Vec3(NorthVelocity(a, s), EastVelocity(a, s), DownVelocity(a, s)) == Velocity(s)
  {
  }

  /** Without rotation the body acceleration is gravity alone. */
  lemma NoRotationFallsFreely(a: Aircraft, s: State, time: real)
    requires a.mass != 0.0
    requires Rates(s) == Vec3(0.0, 0.0, 0.0)
    ensures Velocity(Derivatives(a, s, time)) == ResolveGravity(a, s)
  {
  }
}
