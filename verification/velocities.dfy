/**
 * Velocity value types (src/support/velocity): knots, feet per second and
 * metres per second, each a tagged real converted by a fixed factor.
 */
module Velocities {

  datatype Velocity =
    | Knots(value: real)
    | FeetPerSecond(value: real)
    | MetersPerSecond(value: real)

  function ToMetersPerSecond(s: Velocity): (r: Velocity)
    ensures r.MetersPerSecond?
    ensures s.MetersPerSecond? ==> r == s
    ensures s.Knots? ==> r.value / 0.514444 == s.value
    ensures s.FeetPerSecond? ==> r.value / 0.3048 == s.value
  {
    match s
    case Knots(v) => MetersPerSecond(v * 0.514444)
    case FeetPerSecond(v) => MetersPerSecond(v * 0.3048)
    case MetersPerSecond(_) => s
  }

  function ToFeetPerSecond(s: Velocity): (r: Velocity)
    ensures r.FeetPerSecond?
    ensures s.FeetPerSecond? ==> r == s
    ensures s.Knots? ==> r.value / 1.68781 == s.value
    ensures s.MetersPerSecond? ==> r.value / 3.28084 == s.value
  {
    match s
    case Knots(v) => FeetPerSecond(v * 1.68781)
    case FeetPerSecond(_) => s
    case MetersPerSecond(v) => FeetPerSecond(v * 3.28084)
  }

  function ToKnots(s: Velocity): (r: Velocity)
    ensures r.Knots?
    ensures s.Knots? ==> r == s
    ensures s.FeetPerSecond? ==> r.value / 0.592484 == s.value
    ensures s.MetersPerSecond? ==> r.value / 1.94384 == s.value
  {
    match s
    case Knots(_) => s
    case FeetPerSecond(v) => Knots(v * 0.592484)
    case MetersPerSecond(v) => Knots(v * 1.94384)
  }

  /** Each conversion keeps the sign of the value and sends 0 to 0. */
  lemma ConversionsKeepSign(s: Velocity)
    ensures (ToMetersPerSecond(s).value > 0.0) == (s.value > 0.0)
    ensures (ToFeetPerSecond(s).value > 0.0) == (s.value > 0.0)
    ensures (ToKnots(s).value > 0.0) == (s.value > 0.0)
    ensures (ToMetersPerSecond(s).value == 0.0) == (s.value == 0.0)
    ensures (ToFeetPerSecond(s).value == 0.0) == (s.value == 0.0)
    ensures (ToKnots(s).value == 0.0) == (s.value == 0.0)
  {
  }

  /** Knots to metres per second and back multiplies by 0.514444 * 1.94384, a factor within 1e-5 of 1. */
  lemma KnotsRoundTrip(v: real)
    ensures ToKnots(ToMetersPerSecond(Knots(v))) == Knots(v * 0.99999682496)
  {
  }

  /** Metres per second to feet per second and back multiplies by 1.000000032. */
  lemma MetersPerSecondFeetRoundTrip(v: real)
    ensures ToMetersPerSecond(ToFeetPerSecond(MetersPerSecond(v))) == MetersPerSecond(v * 1.000000032)
  {
  }

  /**
   * The direct knot-to-foot-per-second factor 1.68781 is not the product of
   * the two factors through metres per second (0.514444 * 3.28084 =
   * 1.68780845296): the direct route gives 1.54704e-6 ft/s more per knot.
   */
  lemma KnotsFeetOffRoute(v: real)
    ensures ToFeetPerSecond(Knots(v)).value - ToFeetPerSecond(ToMetersPerSecond(Knots(v))).value == v * 0.00000154704
  {
  }

  /**
   * Likewise the direct foot-per-second-to-knot factor 0.592484 exceeds the
   * route through metres per second (0.3048 * 1.94384 = 0.592482432) by 1.568e-6.
   */
  lemma FeetKnotsOffRoute(v: real)
    ensures ToKnots(FeetPerSecond(v)).value - ToKnots(ToMetersPerSecond(FeetPerSecond(v))).value == v * 0.000001568
  {
  }
}
