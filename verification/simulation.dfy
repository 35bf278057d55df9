/**
 * The simulation driver (src/support/sim/Simulation.ts): a clock that
 * starts at 0 and advances by the time step while it is at most the total
 * time, a reporting test that picks the ticks within half a step of a
 * multiple of the output interval, and the per-tick `loop`, which as
 * written integrates only on reporting ticks.
 */
module Simulation {
  import opened Wrappers
  import opened Numerics
  import opened Dynamics
  import opened Integrator

  /** The time step, the total time and the output interval, in seconds. */
  datatype Settings = Settings(dt: real, total: real, interval: real)

  /**
   * `shouldOutput`: the remainder of the time by the interval is within
   * half a step of 0 or of the interval. A zero interval makes JavaScript's
   * `%` NaN, and every comparison with NaN is false. A negative step makes
   * the tolerance negative, so no time is close enough.
   */
  function ShouldOutput(c: Settings, time: real): (b: bool)
    ensures c.interval == 0.0 ==> !b
    ensures b ==> 0.0 <= c.dt
  {
    if c.interval == 0.0 then false
    else
      var remainder := Rem(time, c.interval);
      var tolerance := c.dt / 2.0;
      Abs(remainder) <= tolerance || Abs(remainder - c.interval) <= tolerance
  }

  /** The reference the test approximates: `time` lies within half a step of the `k`-th multiple of the interval. */
  predicate NearMultiple(c: Settings, time: real, k: int) {
    Abs(time - k as real * c.interval) <= c.dt / 2.0
  }

  /** Every reporting time is within half a step of some multiple of the interval. */
  lemma ShouldOutputSound(c: Settings, time: real)
    requires ShouldOutput(c, time)
    ensures exists k :: NearMultiple(c, time, k)
  {
    var n := Trunc(time / c.interval);
    if Abs(Rem(time, c.interval)) <= c.dt / 2.0 {
      assert NearMultiple(c, time, n);
    } else {
      assert time - (n + 1) as real * c.interval == Rem(time, c.interval) - c.interval;
      assert NearMultiple(c, time, n + 1);
    }
  }

  /**
   * Conversely, for a positive interval every non-negative time within
   * half a step of a multiple of the interval is a reporting time: the
   * multiple below the time is caught by the first test, the one above by
   * the second.
   */
  lemma ShouldOutputComplete(c: Settings, time: real, k: int)
    requires 0.0 < c.interval && 0.0 <= time
    requires NearMultiple(c, time, k)
    ensures ShouldOutput(c, time)
  {
    RemOfNonNegative(time, c.interval);
    NearMultipleBounds(time, c.interval, Rem(time, c.interval), Trunc(time / c.interval), k, c.dt / 2.0);
  }

  /** If some multiple k y is within tol of x, so is the multiple below x or the one above it. */
  lemma NearMultipleBounds(x: real, y: real, rem: real, n: int, k: int, tol: real)
    requires 0.0 < y && 0.0 <= rem < y && rem == x - n as real * y
    requires Abs(x - k as real * y) <= tol
    ensures Abs(rem) <= tol || Abs(rem - y) <= tol
  {
    if k <= n {
      NearMultipleBelow(x, y, rem, n, k, tol);
    } else {
      NearMultipleAbove(x, y, rem, n, k, tol);
    }
  }

  /** A multiple k y at or below the multiple n y under x is no nearer to x than n y is. */
  lemma NearMultipleBelow(x: real, y: real, rem: real, n: int, k: int, tol: real)
    requires 0.0 < y && 0.0 <= rem && rem == x - n as real * y && k <= n
    requires Abs(x - k as real * y) <= tol
    ensures Abs(rem) <= tol
  {
    var extra := (n - k) as real * y;
    NonNegativeProduct((n - k) as real, y);
    assert x - k as real * y == rem + extra;
  }

  /** A multiple k y above x is no nearer to x than the next multiple (n + 1) y is. */
  lemma NearMultipleAbove(x: real, y: real, rem: real, n: int, k: int, tol: real)
    requires 0.0 < y && rem < y && rem == x - n as real * y && n < k
    requires Abs(x - k as real * y) <= tol
    ensures Abs(rem - y) <= tol
  {
    var extra := (k - n - 1) as real * y;
    NonNegativeProduct((k - n - 1) as real, y);
    assert k as real * y - x == (y - rem) + extra;
  }

  /** The first tick always reports, for any non-zero interval and non-negative step. */
  lemma ReportsAtStart(c: Settings)
    requires c.interval != 0.0 && 0.0 <= c.dt
    ensures ShouldOutput(c, 0.0)
  {
    RemOfMultiple(0, c.interval);
  }

  /** Every exact multiple of the interval reports. */
  lemma ReportsAtMultiples(c: Settings, k: int)
    requires c.interval != 0.0 && 0.0 <= c.dt
    ensures ShouldOutput(c, k as real * c.interval)
  {
    RemOfMultiple(k, c.interval);
  }

  /** What one tick does: the report it prints, if any, and the state it leaves. */
  datatype Tick = Tick(report: Option<Sample>, state: State)

  /**
   * `loop` as written: a tick that does not report returns at once; a
   * reporting tick prints the current state and integrates one step when
   * the time is still before the total time. The step is the corrected
   * `Integrate`, which keeps each angle in its own slot.
   */
  function Loop(c: Settings, m: Model, time: real, s: State): (t: Tick)
    ensures t.report.Some? <==> ShouldOutput(c, time)
    ensures t.report.Some? ==> t.report.value == Sample(time, s)
    ensures ShouldOutput(c, time) && time < c.total ==> t.state == Integrate(m, s, time, c.dt)
    ensures !(ShouldOutput(c, time) && time < c.total) ==> t.state == s
  {
    if !ShouldOutput(c, time) then Tick(None, s)
    else if time < c.total then Tick(Some(Sample(time, s)), Integrate(m, s, time, c.dt))
    else Tick(Some(Sample(time, s)), s)
  }

  /** The state after the first `k` ticks, the clock starting at 0. */
  function StateAfter(c: Settings, m: Model, s: State, k: nat): State {
    if k == 0 then s
    else Loop(c, m, TimeAt(0.0, c.dt, k - 1), StateAfter(c, m, s, k - 1)).state
  }

  /** The reports printed by the first `k` ticks, in order. */
  function Reports(c: Settings, m: Model, s: State, k: nat): seq<Sample> {
    if k == 0 then []
    else
      var t := Loop(c, m, TimeAt(0.0, c.dt, k - 1), StateAfter(c, m, s, k - 1));
      Reports(c, m, s, k - 1) + (if t.report.Some? then [t.report.value] else [])
  }

  /** A tick that does not report leaves the state as it was. */
  lemma QuietTickKeepsState(c: Settings, m: Model, s: State, k: nat)
    requires !ShouldOutput(c, TimeAt(0.0, c.dt, k))
    ensures StateAfter(c, m, s, k + 1) == StateAfter(c, m, s, k)
    ensures Reports(c, m, s, k + 1) == Reports(c, m, s, k)
  {
  }

  /** A tick at or after the total time never changes the state. */
  lemma LateTickKeepsState(c: Settings, m: Model, s: State, k: nat)
    requires c.total <= TimeAt(0.0, c.dt, k)
    ensures StateAfter(c, m, s, k + 1) == StateAfter(c, m, s, k)
  {
  }

  /**
   * Every report is taken at a reporting time, at most one per tick, and
   * carries the state the clock had reached.
   */
  lemma {:induction false} ReportsAtReportingTimes(c: Settings, m: Model, s: State, k: nat)
    ensures |Reports(c, m, s, k)| <= k
    ensures forall i :: 0 <= i < |Reports(c, m, s, k)| ==> ShouldOutput(c, Reports(c, m, s, k)[i].time)
  {
    if k > 0 {
      ReportsAtReportingTimes(c, m, s, k - 1);
    }
  }

  /**
   * `run`: starting at time 0, runs `loop` and advances the clock by the
   * step while the clock is at most the total time. Returns the printed
   * reports, the final state and the number of ticks, which is the number
   * of multiples of the step from 0 up to the total time.
   */
  method Run(c: Settings, m: Model, initial: State) returns (reports: seq<Sample>, final: State, ticks: nat)
    requires 0.0 < c.dt
    ensures ticks == 0 <==> c.total < 0.0
    ensures 0 < ticks ==> TimeAt(0.0, c.dt, ticks - 1) <= c.total < TimeAt(0.0, c.dt, ticks)
    ensures final == StateAfter(c, m, initial, ticks)
    ensures reports == Reports(c, m, initial, ticks)
  {
    var time := 0.0;
    var state := initial;
    reports := [];
    ticks := 0;
    while time <= c.total
      invariant time == TimeAt(0.0, c.dt, ticks) && 0.0 <= time
      invariant c.total < 0.0 ==> ticks == 0
      invariant state == StateAfter(c, m, initial, ticks)
      invariant reports == Reports(c, m, initial, ticks)
      invariant 0 < ticks ==> TimeAt(0.0, c.dt, ticks - 1) <= c.total
      decreases StepsLeft(time, c.total, c.dt)
    {
      OneStepLess(time, c.total, c.dt);
      var tick := Loop(c, m, time, state);
      if tick.report.Some? {
        reports := reports + [tick.report.value];
      }
      state := tick.state;
      time := time + c.dt;
      ticks := ticks + 1;
    }
    final := state;
  }

  /**
   * The corrected `loop`: the report is the same, and the state advances
   * by one step on every tick before the total time, reporting or not.
   */
  function LoopEveryTick(c: Settings, m: Model, time: real, s: State): (t: Tick)
    ensures t.report == Loop(c, m, time, s).report
    ensures ShouldOutput(c, time) ==> t == Loop(c, m, time, s)
  {
    var report := if ShouldOutput(c, time) then Some(Sample(time, s)) else None;
    if time < c.total then Tick(report, Integrate(m, s, time, c.dt)) else Tick(report, s)
  }

  /** The state after the first `k` ticks of the corrected loop. */
  function StateAfterEveryTick(c: Settings, m: Model, s: State, k: nat): State {
    if k == 0 then s
    else LoopEveryTick(c, m, TimeAt(0.0, c.dt, k - 1), StateAfterEveryTick(c, m, s, k - 1)).state
  }

  /**
   * With the corrected loop the simulation follows the integrator: while
   * every earlier tick was before the total time, the state after `k`
   * ticks is `integrateOverTime`'s state after `k` steps from time 0.
   */
  lemma {:induction false} EveryTickFollowsIntegrator(c: Settings, m: Model, s: State, k: nat)
    requires 0.0 < c.dt
    requires 0 < k ==> TimeAt(0.0, c.dt, k - 1) < c.total
    ensures StateAfterEveryTick(c, m, s, k) == Iterate(m, s, 0.0, c.dt, k)
  {
    if k > 0 {
      if k > 1 {
        assert TimeAt(0.0, c.dt, k - 1) == TimeAt(0.0, c.dt, k - 2) + c.dt;
      }
      EveryTickFollowsIntegrator(c, m, s, k - 1);
    }
  }

  /** When every tick so far reported, the code as written and the corrected loop agree. */
  lemma {:induction false} AllTicksReportingAgree(c: Settings, m: Model, s: State, k: nat)
    requires forall j :: 0 <= j < k ==> ShouldOutput(c, TimeAt(0.0, c.dt, j))
    ensures StateAfter(c, m, s, k) == StateAfterEveryTick(c, m, s, k)
  {
    if k > 0 {
      AllTicksReportingAgree(c, m, s, k - 1);
    }
  }

  /** With the output interval equal to the step, every tick reports. */
  lemma IntervalOfOneStep(c: Settings, j: nat)
    requires 0.0 < c.dt && c.interval == c.dt
    ensures ShouldOutput(c, TimeAt(0.0, c.dt, j))
  {
    TimeAtIsLinear(0.0, c.dt, j);
    assert TimeAt(0.0, c.dt, j) == j as real * c.interval;
    ReportsAtMultiples(c, j);
  }

  /** Ticks of 0.5 s, reports every second, one second in total. */
  const HalfStep: Settings := Settings(0.5, 1.0, 1.0)

  /**
   * As written, with ticks of 0.5 s reporting every second over one
   * second, the clock reaches 1 s in three ticks (0, 0.5, 1) but only the
   * tick at 0 integrates: the tick at 0.5 does not report, and the tick at
   * 1 is not before the total. The report at 1 s carries the state after
   * one 0.5 s step.
   */
  lemma HalfStepRunAsWritten(m: Model, s: State)
    ensures StateAfter(HalfStep, m, s, 3) == Integrate(m, s, 0.0, 0.5)
    ensures Reports(HalfStep, m, s, 3) == [Sample(0.0, s), Sample(1.0, Integrate(m, s, 0.0, 0.5))]
  {
    var c := HalfStep;
    assert TimeAt(0.0, 0.5, 1) == 0.5 && TimeAt(0.0, 0.5, 2) == 1.0;
    assert Trunc(0.0 / 1.0) == 0 && Trunc(0.5 / 1.0) == 0 && Trunc(1.0 / 1.0) == 1;
    assert ShouldOutput(c, 0.0) && !ShouldOutput(c, 0.5) && ShouldOutput(c, 1.0);
    var s1 := Integrate(m, s, 0.0, 0.5);
    assert StateAfter(c, m, s, 1) == s1 && Reports(c, m, s, 1) == [Sample(0.0, s)];
    assert StateAfter(c, m, s, 2) == s1 && Reports(c, m, s, 2) == [Sample(0.0, s)];
    assert StateAfter(c, m, s, 3) == s1;
  }

  /** The corrected loop integrates at 0 and at 0.5, reaching the integrator's state after two steps. */
  lemma HalfStepRunCorrected(m: Model, s: State)
    ensures StateAfterEveryTick(HalfStep, m, s, 3) == Iterate(m, s, 0.0, 0.5, 2)
  {
    assert TimeAt(0.0, 0.5, 1) == 0.5 && TimeAt(0.0, 0.5, 2) == 1.0;
    EveryTickFollowsIntegrator(HalfStep, m, s, 2);
  }

  /**
   * For an aircraft starting level and at rest, the report at 1 s shows a
   * downward velocity of g * 0.5 as written, against the g * 1 that one
   * simulated second produces.
   */
  lemma HalfStepFallsTooSlowly(a: Aircraft, s: State)
    requires a.mass != 0.0
    requires Upright(a.trig(s.phi)) && Upright(a.trig(s.theta))
    requires Rates(s) == Rotation.Vec3(0.0, 0.0, 0.0) && s.v == 0.0 && s.w == 0.0
    ensures StateAfter(HalfStep, AircraftModel(a), s, 3).w == 9.80665 * 0.5
    ensures StateAfterEveryTick(HalfStep, AircraftModel(a), s, 3).w == 9.80665 * 1.0
  {
    HalfStepRunAsWritten(AircraftModel(a), s);
    HalfStepRunCorrected(AircraftModel(a), s);
    LevelStep(a, s, 0.0, 0.5);
    LevelFallAfterSteps(a, s, 0.0, 0.5, 2);
  }
}
