/**
 * Altitudes (src/support/altitude): a length in metres tagged as above mean
 * sea level or above ground level. Feet are converted on construction.
 */
module Altitudes {
  import opened Lengths

  datatype AltitudeType = MSL | AGL

  datatype Altitude = Altitude(value: Length, kind: AltitudeType)

  /** The shared constructor body: only feet or metres are accepted, and the result is always in metres. */
  function MakeAltitude(l: Length, kind: AltitudeType): (a: Altitude)
    requires l.Feet? || l.Meters?
    ensures a.value.Meters? && a.kind == kind
    ensures a.value == ToMeters(l)
    ensures l.Meters? ==> a.value == l
    ensures l.Feet? ==> a.value.value == l.value * 0.3048
  {
    Altitude(if l.Feet? then ToMeters(l) else l, kind)
  }

  /** `new MSL(value)`. */
  function NewMSL(l: Length): (a: Altitude)
    requires l.Feet? || l.Meters?
    ensures a.kind == MSL && a.value == ToMeters(l)
  {
    MakeAltitude(l, MSL)
  }

  /** `new AGL(value)`. */
  function NewAGL(l: Length): (a: Altitude)
    requires l.Feet? || l.Meters?
    ensures a.kind == AGL && a.value == ToMeters(l)
  {
    MakeAltitude(l, AGL)
  }

  /** MSL and AGL built from the same length hold the same metres and differ only in the tag. */
  lemma SameLengthSameMetres(l: Length)
    requires l.Feet? || l.Meters?
    ensures NewMSL(l).value == NewAGL(l).value
    ensures NewMSL(l) != NewAGL(l)
  {
  }
}
