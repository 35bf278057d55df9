/**
 * The fixed-step integrator (src/support/numerical/Integrator.ts): one
 * forward Euler step over all twelve state components, and the run from a
 * start time to an end time that records the state at every step. The
 * integrator is built around a dynamics model, which it only ever asks for
 * the derivative at a state and a time.
 */
module Integrator {
  import opened Rotation
  import opened Dynamics

  /** A dynamics model as the integrator uses it: the state derivative at a state and a time. */
  type Model = (State, real) -> State

  /** `AircraftDynamicsModel` for one aircraft, the model the simulation integrates. */
  function AircraftModel(a: Aircraft): Model
    requires a.mass != 0.0
  {
    (s: State, time: real) => Derivatives(a, s, time)
  }

  /** The twelve state components in the order `StateVector` declares them. */
  function Components(s: State): (c: seq<real>)
    ensures |c| == 12
  {
    [s.u, s.v, s.w, s.p, s.q, s.r, s.phi, s.theta, s.psi, s.x, s.y, s.z]
  }

  /** Two states with the same components are the same state. */
  lemma ComponentsDetermineState(s: State, t: State)
    requires Components(s) == Components(t)
    ensures s == t
  {
    assert s.u == Components(s)[0] && s.z == Components(s)[11];
  }

  /** A forward Euler step: every component moves by its rate times the step. */
  function EulerStep(s: State, d: State, dt: real): (n: State)
    ensures forall i :: 0 <= i < 12 ==> Components(n)[i] == Components(s)[i] + Components(d)[i] * dt
  {
    State(
      s.u + d.u * dt, s.v + d.v * dt, s.w + d.w * dt,
      s.p + d.p * dt, s.q + d.q * dt, s.r + d.r * dt,
      s.phi + d.phi * dt, s.theta + d.theta * dt, s.psi + d.psi * dt,
      s.x + d.x * dt, s.y + d.y * dt, s.z + d.z * dt)
  }

  /**
   * `integrate`: the derivative is taken once, at the current state and
   * time, and every component moves by its derivative times the step.
   * Each angle keeps its own slot; `IntegrateAsWritten` is the source's
   * order, which swaps roll and yaw.
   */
  function Integrate(m: Model, s: State, time: real, dt: real): (n: State)
    ensures var d := m(s, time);
      forall i :: 0 <= i < 12 ==> Components(n)[i] == Components(s)[i] + Components(d)[i] * dt
  {
    EulerStep(s, m(s, time), dt)
  }

  /** A step of length zero returns the state unchanged. */
  lemma ZeroStep(m: Model, s: State, time: real)
    ensures Integrate(m, s, time, 0.0) == s
  {
    var n := Integrate(m, s, time, 0.0);
    forall i | 0 <= i < 12
      ensures Components(n)[i] == Components(s)[i]
    {
    }
    ComponentsDetermineState(n, s);
  }

  /**
   * `integrate` as the source writes it: the three integrated angles reach
   * the `EulerAngles` constructor in the order (phi, theta, psi), while the
   * constructor takes (psi, theta, phi). The new roll is therefore the
   * integrated yaw and the new yaw the integrated roll.
   */
  function IntegrateAsWritten(m: Model, s: State, time: real, dt: real): (n: State)
    ensures var d := m(s, time);
      n.phi == s.psi + d.psi * dt && n.psi == s.phi + d.phi * dt && n.theta == s.theta + d.theta * dt
    ensures var c := Integrate(m, s, time, dt);
      n.u == c.u && n.v == c.v && n.w == c.w && n.p == c.p && n.q == c.q && n.r == c.r
      && n.x == c.x && n.y == c.y && n.z == c.z
  {
    var c := EulerStep(s, m(s, time), dt);
    c.(phi := c.psi, psi := c.phi)
  }

  /**
   * Even a step of length zero changes the attitude as written whenever
   * roll and yaw differ: they trade places. `ZeroStep` is the intended
   * behaviour, which `Integrate` keeps.
   */
  lemma ZeroStepSwapsRollAndYaw(m: Model, s: State, time: real)
    requires s.phi != s.psi
    ensures IntegrateAsWritten(m, s, time, 0.0) != s
    ensures IntegrateAsWritten(m, s, time, 0.0) == s.(phi := s.psi, psi := s.phi)
  {
  }

  /**
   * Without rotation the source's step trades roll for yaw: from any
   * attitude, one step of the aircraft model as written ends with roll
   * equal to the old yaw and yaw equal to the old roll. From level flight
   * on a heading other than north the aircraft is therefore banked after
   * one step, which `Integrate` does not do (`LevelStep`).
   */
  lemma StillStepAsWrittenBanks(a: Aircraft, s: State, time: real, dt: real)
    requires a.mass != 0.0
    requires Rates(s) == Vec3(0.0, 0.0, 0.0)
    ensures IntegrateAsWritten(AircraftModel(a), s, time, dt).phi == s.psi
    ensures IntegrateAsWritten(AircraftModel(a), s, time, dt).psi == s.phi
    ensures IntegrateAsWritten(AircraftModel(a), s, time, dt).theta == s.theta
  {
  }

  /** Under the aircraft model the body rates never change: the moments are zero. */
  lemma StepKeepsRates(a: Aircraft, s: State, time: real, dt: real)
    requires a.mass != 0.0
    ensures Rates(Integrate(AircraftModel(a), s, time, dt)) == Rates(s)
  {
  }

  /** The time after `k` steps of `dt` from `start`, accumulated one step at a time as the loop does. */
  function TimeAt(start: real, dt: real, k: nat): real {
    if k == 0 then start else TimeAt(start, dt, k - 1) + dt
  }

  /** Accumulating `k` steps lands at `start + k * dt`. */
  lemma {:induction false} TimeAtIsLinear(start: real, dt: real, k: nat)
    ensures TimeAt(start, dt, k) == start + k as real * dt
  {
    if k > 0 {
      TimeAtIsLinear(start, dt, k - 1);
    }
  }

  /** The state after `k` steps of length `dt` starting at time `start`. */
  function Iterate(m: Model, s: State, start: real, dt: real, k: nat): State
  {
    if k == 0 then s
    else Integrate(m, Iterate(m, s, start, dt, k - 1), TimeAt(start, dt, k - 1), dt)
  }

  /** However many steps the aircraft model takes, the body rates stay those of the initial state. */
  lemma {:induction false} IterateKeepsRates(a: Aircraft, s: State, start: real, dt: real, k: nat)
    requires a.mass != 0.0
    ensures Rates(Iterate(AircraftModel(a), s, start, dt, k)) == Rates(s)
  {
    if k > 0 {
      IterateKeepsRates(a, s, start, dt, k - 1);
      StepKeepsRates(a, Iterate(AircraftModel(a), s, start, dt, k - 1), TimeAt(start, dt, k - 1), dt);
    }
  }

  /**
   * Starting level, not rotating and with no sideways velocity, every
   * step keeps the attitude, the rates and the forward speed, and adds
   * `g * dt` to the downward body velocity.
   */
  lemma LevelStep(a: Aircraft, s: State, time: real, dt: real)
    requires a.mass != 0.0
    requires Upright(a.trig(s.phi)) && Upright(a.trig(s.theta))
    requires Rates(s) == Vec3(0.0, 0.0, 0.0) && s.v == 0.0
    ensures var n := Integrate(AircraftModel(a), s, time, dt);
      n.u == s.u && n.v == 0.0 && n.w == s.w + 9.80665 * dt
      && Rates(n) == Rates(s) && n.phi == s.phi && n.theta == s.theta && n.psi == s.psi
      && n.z == s.z + s.w * dt
  {
    LevelGravity(a, s);
  }

  /**
   * Level flight with no lift keeps the forward speed, the rates and the
   * attitude at every step, and never gains sideways velocity.
   */
  lemma {:induction false} LevelFlightKeepsAttitude(a: Aircraft, s: State, start: real, dt: real, k: nat)
    requires a.mass != 0.0
    requires Upright(a.trig(s.phi)) && Upright(a.trig(s.theta))
    requires Rates(s) == Vec3(0.0, 0.0, 0.0) && s.v == 0.0
    ensures var n := Iterate(AircraftModel(a), s, start, dt, k);
      n.u == s.u && n.v == 0.0 && Rates(n) == Rates(s) && n.phi == s.phi && n.theta == s.theta && n.psi == s.psi
  {
    if k > 0 {
      LevelFlightKeepsAttitude(a, s, start, dt, k - 1);
      LevelStep(a, Iterate(AircraftModel(a), s, start, dt, k - 1), TimeAt(start, dt, k - 1), dt);
    }
  }

  /**
   * Starting level flight at rest vertically, after any number of steps
   * the downward body velocity is g times the simulated time elapsed.
   */
  lemma {:induction false} LevelFlightFalls(a: Aircraft, s: State, start: real, dt: real, k: nat)
    requires a.mass != 0.0
    requires Upright(a.trig(s.phi)) && Upright(a.trig(s.theta))
    requires Rates(s) == Vec3(0.0, 0.0, 0.0) && s.v == 0.0 && s.w == 0.0
    ensures Iterate(AircraftModel(a), s, start, dt, k).w == 9.80665 * (TimeAt(start, dt, k) - start)
  {
    if k > 0 {
      LevelFlightFalls(a, s, start, dt, k - 1);
      LevelFlightKeepsAttitude(a, s, start, dt, k - 1);
      LevelStep(a, Iterate(AircraftModel(a), s, start, dt, k - 1), TimeAt(start, dt, k - 1), dt);
    }
  }

  /** After `k` steps of `dt` from rest the downward body velocity is `g * k * dt`. */
  lemma LevelFallAfterSteps(a: Aircraft, s: State, start: real, dt: real, k: nat)
    requires a.mass != 0.0
    requires Upright(a.trig(s.phi)) && Upright(a.trig(s.theta))
    requires Rates(s) == Vec3(0.0, 0.0, 0.0) && s.v == 0.0 && s.w == 0.0
    ensures Iterate(AircraftModel(a), s, start, dt, k).w == 9.80665 * (k as real * dt)
  {
    LevelFlightFalls(a, s, start, dt, k);
    TimeAtIsLinear(start, dt, k);
  }

  /** One entry of the recorded run: a time and the state at that time. */
  datatype Sample = Sample(time: real, state: State)

  /** Dividing both sides of an inequality by a positive step keeps it. */
  lemma ScaledLessEq(a: real, b: real, dt: real)
    requires 0.0 < dt && a * dt <= b
    ensures a <= b / dt
  {
    assert b / dt - a == (b - a * dt) / dt;
  }

  /** Dividing both sides of a strict inequality by a positive step keeps it. */
  lemma ScaledLess(a: real, b: real, dt: real)
    requires 0.0 < dt && b < a * dt
    ensures b / dt < a
  {
    assert a - b / dt == (a * dt - b) / dt;
  }

  /** A product with a positive factor is zero only when the other factor is. */
  lemma ZeroFactor(x: real, y: real)
    requires 0.0 < y && x * y == 0.0
    ensures x == 0.0
  {
  }

  /** The number of times the loop still records from `time`: the whole steps that fit, plus one. */
  function StepsLeft(time: real, end: real, dt: real): int
    requires 0.0 < dt
  {
    ((end - time) / dt).Floor + 1
  }

  /** One step later, one entry fewer is left to record; none is left once past the end. */
  lemma OneStepLess(time: real, end: real, dt: real)
    requires 0.0 < dt
    ensures StepsLeft(time + dt, end, dt) == StepsLeft(time, end, dt) - 1
    ensures time <= end ==> 0 < StepsLeft(time, end, dt)
  {
    var x := end - time;
    var q := x / dt;
    var z := (x - dt) / dt;
    assert q * dt == x && z * dt == x - dt;
    assert (z - (q - 1.0)) * dt == 0.0;
    ZeroFactor(z - (q - 1.0), dt);
    assert end - (time + dt) == x - dt;
    if time <= end {
      ScaledLessEq(0.0, x, dt);
    }
  }

  /** The loop stops after exactly one more than the whole number of steps that fit. */
  lemma StepCount(start: real, end: real, dt: real, n: nat)
    requires 0.0 < dt && 0 < n
    requires TimeAt(start, dt, n - 1) <= end < TimeAt(start, dt, n)
    ensures StepsLeft(start, end, dt) == n
  {
    TimeAtIsLinear(start, dt, n - 1);
    TimeAtIsLinear(start, dt, n);
    ScaledLessEq((n - 1) as real, end - start, dt);
    ScaledLess(n as real, end - start, dt);
  }

  /** Entry `k` of `r` is the time after `k` steps with the state after `k` steps. */
  predicate Recorded(m: Model, initial: State, start: real, dt: real, r: seq<Sample>) {
    forall k {:trigger r[k]} :: 0 <= k < |r| ==> r[k] == Sample(TimeAt(start, dt, k), Iterate(m, initial, start, dt, k))
  }

  /** Appending the next time and the state after that many steps keeps a record. */
  lemma RecordedExtend(m: Model, initial: State, start: real, dt: real, r: seq<Sample>, state: State)
    requires Recorded(m, initial, start, dt, r)
    requires state == Iterate(m, initial, start, dt, |r|)
    ensures Recorded(m, initial, start, dt, r + [Sample(TimeAt(start, dt, |r|), state)])
  {
  }

  /** The state after `k + 1` steps is one step from the state after `k`. */
  lemma IterateNext(m: Model, s: State, start: real, dt: real, k: nat, state: State)
    requires state == Iterate(m, s, start, dt, k)
    ensures Integrate(m, state, TimeAt(start, dt, k), dt) == Iterate(m, s, start, dt, k + 1)
  {
  }

  /**
   * `integrateOverTime`: records (time, state) while the time is at most
   * `end`, integrating only while it is still before `end`. Entry `k` is
   * at the time `k` steps after `start` and holds the state after `k` steps; there
   * are `floor((end - start) / dt) + 1` entries, or none when `end < start`.
   */
  method IntegrateOverTime(m: Model, initial: State, start: real, end: real, dt: real) returns (r: seq<Sample>)
    requires 0.0 < dt
    ensures end < start ==> r == []
    ensures start <= end ==> |r| == StepsLeft(start, end, dt)
    ensures Recorded(m, initial, start, dt, r)
    ensures forall k :: 0 <= k < |r| ==> r[k].time <= end
  {
    r := [];
    var state := initial;
    var time := start;
    while time <= end
      invariant time == TimeAt(start, dt, |r|)
      invariant time <= end ==> state == Iterate(m, initial, start, dt, |r|)
      invariant Recorded(m, initial, start, dt, r)
      invariant forall k :: 0 <= k < |r| ==> r[k].time <= end
      invariant 0 < |r| ==> TimeAt(start, dt, |r| - 1) <= end
      decreases StepsLeft(time, end, dt)
    {
      OneStepLess(time, end, dt);
      RecordedExtend(m, initial, start, dt, r, state);
      IterateNext(m, initial, start, dt, |r|, state);
      r := r + [Sample(time, state)];
      if time < end {
        state := Integrate(m, state, time, dt);
      }
      time := time + dt;
    }
    if 0 < |r| {
      StepCount(start, end, dt, |r|);
    }
  }
}
