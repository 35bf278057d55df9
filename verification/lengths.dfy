/**
 * Length value types (src/support/length): a closed family of four units,
 * each a tagged real with pure conversion formulas. A conversion to the
 * value's own unit hands back the value itself.
 */
module Lengths {

  datatype Length =
    | Feet(value: real)
    | Meters(value: real)
    | NauticalMiles(value: real)
    | Kilometers(value: real)

  function ToMeters(l: Length): (r: Length)
    ensures r.Meters?
    ensures l.Meters? ==> r == l
  {
    match l
    case Feet(v) => Meters(v * 0.3048)
    case Meters(_) => l
    case NauticalMiles(v) => Meters(v * 1852.0)
    case Kilometers(v) => Meters(v * 1000.0)
  }

  function ToFeet(l: Length): (r: Length)
    ensures r.Feet?
    ensures l.Feet? ==> r == l
    ensures l.Meters? ==> r.value / 3.28084 == l.value
    ensures l.Kilometers? ==> r.value / 3.28084 == ToMeters(l).value
    ensures l.NauticalMiles? ==> r.value / 6076.1154855643 == l.value
  {
    match l
    case Feet(_) => l
    case Meters(v) => Feet(v * 3.28084)
    case NauticalMiles(v) => Feet(v * 6076.1154855643)
    case Kilometers(v) => Feet(v * 3280.84)
  }

  function ToNauticalMiles(l: Length): (r: Length)
    ensures r.NauticalMiles?
    ensures l.NauticalMiles? ==> r == l
    ensures l.Meters? ==> r.value / 0.0005399568 == l.value
    ensures l.Kilometers? ==> r.value / 0.0005399568 == ToMeters(l).value
    ensures l.Feet? ==> r.value / 0.0001645788 == l.value
  {
    match l
    case Feet(v) => NauticalMiles(v * 0.0001645788)
    case Meters(v) => NauticalMiles(v * 0.0005399568)
    case NauticalMiles(_) => l
    case Kilometers(v) => NauticalMiles(v * 0.5399568)
  }

  function ToKilometers(l: Length): (r: Length)
    ensures r.Kilometers?
    ensures l.Kilometers? ==> r == l
  {
    match l
    case Feet(v) => Kilometers(v * 0.0003048)
    case Meters(v) => Kilometers(v * 0.001)
    case NauticalMiles(v) => Kilometers(v * 1.852)
    case Kilometers(_) => l
  }

  /** The factor each unit's value is multiplied by to give metres. */
  function MetresPerUnit(l: Length): real {
    match l
    case Feet(_) => 0.3048
    case Meters(_) => 1.0
    case NauticalMiles(_) => 1852.0
    case Kilometers(_) => 1000.0
  }

  /** Every conversion to metres is the linear map by the unit's factor: 0 stays 0 and signs are kept. */
  lemma ToMetersIsLinear(l: Length)
    ensures ToMeters(l).value == l.value * MetresPerUnit(l)
    ensures l.value == 0.0 ==> ToMeters(l).value == 0.0
    ensures l.value > 0.0 ==> ToMeters(l).value > 0.0
    ensures l.value < 0.0 ==> ToMeters(l).value < 0.0
  {
  }

  /** Feet to metres and back multiplies by 0.3048 * 3.28084 = 1.000000032: not the identity. */
  lemma FeetMetersFeet(v: real)
    ensures ToFeet(ToMeters(Feet(v))) == Feet(v * 1.000000032)
    ensures v != 0.0 ==> ToFeet(ToMeters(Feet(v))) != Feet(v)
  {
  }

  /** Feet to kilometres agrees exactly with going through metres. */
  lemma FeetKilometersViaMeters(v: real)
    ensures ToKilometers(Feet(v)) == ToKilometers(ToMeters(Feet(v)))
  {
  }

  /** Metres to kilometres and back is exact. */
  lemma MetersKilometersRoundTrip(v: real)
    ensures ToMeters(ToKilometers(Meters(v))) == Meters(v)
  {
  }

  /** Metres to nautical miles and back multiplies by 0.9999999936. */
  lemma MetersNauticalMilesMeters(v: real)
    ensures ToMeters(ToNauticalMiles(Meters(v))) == Meters(v * 0.9999999936)
  {
  }

  /** Nautical miles to kilometres agrees exactly with going through metres. */
  lemma NauticalMilesKilometersViaMeters(v: real)
    ensures ToKilometers(NauticalMiles(v)) == ToKilometers(ToMeters(NauticalMiles(v)))
  {
  }

  /** Kilometres to metres and back is exact. */
  lemma KilometersMetersRoundTrip(v: real)
    ensures ToKilometers(ToMeters(Kilometers(v))) == Kilometers(v)
  {
  }

  /** Kilometres to feet and to nautical miles agree exactly with going through metres. */
  lemma KilometersViaMeters(v: real)
    ensures ToFeet(Kilometers(v)) == ToFeet(ToMeters(Kilometers(v)))
    ensures ToNauticalMiles(Kilometers(v)) == ToNauticalMiles(ToMeters(Kilometers(v)))
  {
  }

  /**
   * The direct nautical-mile-to-foot factor is 1852 / 0.3048 rounded to
   * thirteen places: back through the foot it gives 1852 m less 1.36e-12 m
   * per mile, while the route through metres (1852 * 3.28084) gives
   * 0.0001944357 ft more per mile.
   */
  lemma NauticalMilesFeetOffRoute(v: real)
    ensures ToMeters(ToFeet(NauticalMiles(v))) == Meters(v * 1851.99999999999864)
    ensures ToFeet(ToMeters(NauticalMiles(v))).value - ToFeet(NauticalMiles(v)).value == v * 0.0001944357
  {
  }

  /**
   * The direct foot-to-nautical-mile factor is 0.3048 / 1852 rounded to ten
   * places: on to metres a foot becomes 0.3047999376 m, and the route through
   * metres (0.3048 * 0.0005399568) gives 3.264e-11 nautical miles more per foot.
   */
  lemma FeetNauticalMilesOffRoute(v: real)
    ensures ToMeters(ToNauticalMiles(Feet(v))) == Meters(v * 0.3047999376)
    ensures ToNauticalMiles(ToMeters(Feet(v))).value - ToNauticalMiles(Feet(v)).value == v * 0.00000000003264
  {
  }

  /** Converting to a unit twice is the same as converting once. */
  lemma ConversionsIdempotent(l: Length)
    ensures ToMeters(ToMeters(l)) == ToMeters(l)
    ensures ToFeet(ToFeet(l)) == ToFeet(l)
    ensures ToNauticalMiles(ToNauticalMiles(l)) == ToNauticalMiles(l)
    ensures ToKilometers(ToKilometers(l)) == ToKilometers(l)
  {
  }
}
