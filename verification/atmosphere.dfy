/**
 * The U.S. Standard Atmosphere 1976 model
 * (src/support/atmosphere/StandardAtmosphere1976.ts): eight altitude regions
 * with base values, a binary search for the region holding an altitude, and
 * the temperature, pressure and density formulas inside a region.
 *
 * `Math.pow` is a parameter; the only facts used about it are stated where
 * they are needed (a power of 1 is 1, a power 0 is 1).
 */
module Atmosphere {
  import opened Wrappers
  import opened Numerics
  import opened Lengths
  import opened Temperatures
  import Gravity

  /** The upper end of a region: a finite altitude or unbounded. */
  datatype Bound = Finite(meters: real) | Infinite

  datatype Region = Region(
    start: real,               // m
    end: Bound,                // m
    staticPressure: real,      // Pa
    staticTemperature: real,   // K
    staticDensity: real,       // kg/m^3
    temperatureGradient: real, // K/m
    isIsothermic: bool)
  {
    /** h lies in the region, both ends included. */
    predicate Contains(h: real) {
      start <= h && (end.Infinite? || h <= end.meters)
    }

    /** The formulas only divide by non-zero quantities. */
    predicate WellFormed() {
      staticTemperature > 0.0 && (!isIsothermic ==> temperatureGradient != 0.0)
    }
  }

  /** `getSpecificGasConstant`, in J/(kg K). */
  const SpecificGasConstant: real := 287.0

  /** The message thrown for an altitude no region holds. */
  const OutOfRangeMessage: string := "Altitude is outside the range of the standard atmosphere"

  /** The region table, in ascending order. */
  const Regions: seq<Region> := [
    Region(0.0, Finite(10999.0), 101325.0, 288.15, 1.225, -0.0065, false),
    Region(11000.0, Finite(19999.0), 22632.1, 216.65, 0.363918, 0.0, true),
    Region(20000.0, Finite(31999.0), 5474.89, 216.65, 0.0880349, 0.001, false),
    Region(32000.0, Finite(46999.0), 868.019, 228.65, 0.013225, 0.0028, false),
    Region(47000.0, Finite(50999.0), 110.906, 270.65, 0.00142753, 0.0, true),
    Region(51000.0, Finite(70999.0), 66.9389, 270.65, 0.000861606, -0.0028, false),
    Region(71000.0, Finite(84851.0), 3.95642, 214.65, 0.000064211, -0.002, false),
    Region(84852.0, Infinite, 0.435981, 186.946, 0.00000805098, 0.0, true)
  ]

  /** Each region ends before the next starts, only the last is unbounded, and every region is well formed. */
  predicate Ordered(rs: seq<Region>) {
    (forall i :: 0 <= i < |rs| ==> rs[i].WellFormed())
    && (forall i :: 0 <= i < |rs| ==> (rs[i].end.Infinite? <==> i == |rs| - 1))
    && (forall i :: 0 <= i < |rs| && rs[i].end.Finite? ==> rs[i].start <= rs[i].end.meters)
    && (forall i, j :: 0 <= i < j < |rs| ==> rs[i].end.Finite? && rs[i].end.meters < rs[j].start)
  }

  /** The table is ordered. */
  lemma RegionsOrdered()
    ensures Ordered(Regions)
  {
  }

  /** Linear-scan reference: the index of the first region holding h. */
  function FindRegion(rs: seq<Region>, h: real, from: nat): (r: Option<nat>)
    requires from <= |rs|
    ensures r.Some? ==> from <= r.value < |rs| && rs[r.value].Contains(h)
    ensures r.None? ==> forall j :: from <= j < |rs| ==> !rs[j].Contains(h)
    decreases |rs| - from
  {
    if from == |rs| then None
    else if rs[from].Contains(h) then Some(from)
    else FindRegion(rs, h, from + 1)
  }

  /** In an ordered table at most one region holds a given altitude. */
  lemma RegionUnique(rs: seq<Region>, h: real, i: nat, j: nat)
    requires Ordered(rs) && i < |rs| && j < |rs| && rs[i].Contains(h) && rs[j].Contains(h)
    ensures i == j
  {
  }

  /** An altitude below region i's start lies in no region from i on. */
  lemma NoneAbove(rs: seq<Region>, h: real, i: nat)
    requires Ordered(rs) && i < |rs| && h < rs[i].start
    ensures forall j :: i <= j < |rs| ==> !rs[j].Contains(h)
  {
  }

  /** An altitude past the end of region i lies in no region up to i. */
  lemma NoneBelow(rs: seq<Region>, h: real, i: nat)
    requires Ordered(rs) && i < |rs| && rs[i].start <= h && !rs[i].Contains(h)
    ensures forall j :: 0 <= j <= i ==> !rs[j].Contains(h)
  {
  }

  /** `getRegion`: binary search over the table; altitudes no region holds are an error. */
  method GetRegion(h: real) returns (r: Result<Region>)
    ensures FindRegion(Regions, h, 0).Some? ==> r == Success(Regions[FindRegion(Regions, h, 0).value])
    ensures FindRegion(Regions, h, 0).None? ==> r == Failure(OutOfRangeMessage)
  {
    RegionsOrdered();
    var i := SearchRegions(Regions, h);
    if i.None? {
      return Failure(OutOfRangeMessage);
    }
    return Success(Regions[i.value]);
  }

  /** The loop of `getRegion`, on any ordered table: the index of the region holding h, if any. */
  method SearchRegions(rs: seq<Region>, h: real) returns (i: Option<nat>)
    requires Ordered(rs)
    ensures i == FindRegion(rs, h, 0)
  {
    var left := 0;
    var right := |rs| - 1;
    while left <= right
      invariant 0 <= left && right < |rs|
      invariant forall j :: 0 <= j < |rs| && rs[j].Contains(h) ==> left <= j <= right
      decreases right - left
    {
      var mid := (left + right) / 2;
      var region := rs[mid];
      if h >= region.start && (region.end.Infinite? || h <= region.end.meters) {
        RegionUnique(rs, h, mid, FindRegion(rs, h, 0).value);
        return Some(mid);
      } else if h < region.start {
        NoneAbove(rs, h, mid);
        right := mid - 1;
      } else {
        NoneBelow(rs, h, mid);
        left := mid + 1;
      }
    }
    return None;
  }

  /** `calculateTemperatureAtAltitude`, in kelvin. */
  function RegionTemperature(h: real, region: Region): (t: real)
    ensures region.isIsothermic ==> t == region.staticTemperature
    ensures !region.isIsothermic ==> t - region.staticTemperature == region.temperatureGradient * (h - region.start)
    ensures h == region.start ==> t == region.staticTemperature
  {
    if region.isIsothermic then region.staticTemperature
    else region.staticTemperature + region.temperatureGradient * (h - region.start)
  }

  /** The pressure (or density) exponent of a non-isothermal region: g / (R * lapse rate). */
  function LapseExponent(g: real, region: Region): real
    requires region.WellFormed() && !region.isIsothermic
  {
    g / (SpecificGasConstant * region.temperatureGradient)
  }

  /** The exponent of an isothermal region: g / (R * T) times the height above the region start. */
  function IsothermalExponent(g: real, h: real, region: Region, t: real): real
    requires t != 0.0
  {
    (g / (SpecificGasConstant * t)) * (h - region.start)
  }

  /** What the start values rest on: e to the power 0 is 1, and 1 to the region's exponents is 1. */
  predicate StartPowers(pow: (real, real) -> real, g: real, region: Region)
    requires region.WellFormed()
  {
    if region.isIsothermic then pow(E, 0.0) == 1.0
    else pow(1.0, -LapseExponent(g, region)) == 1.0 && pow(1.0, -(LapseExponent(g, region) + 1.0)) == 1.0
  }

  /**
   * `calculatePressureAtAltitude`, in pascals: a power law in the
   * temperature ratio for a region with a lapse rate, an exponential decay
   * in height for an isothermal one. Either way it starts from the region's
   * base pressure.
   */
  function RegionPressure(pow: (real, real) -> real, g: real, h: real, region: Region, t: real): (p: real)
    requires region.WellFormed() && (region.isIsothermic ==> t != 0.0)
    ensures h == region.start && t == region.staticTemperature && StartPowers(pow, g, region) ==>
      p == region.staticPressure
  {
    if !region.isIsothermic then
      assert t == region.staticTemperature ==> t / region.staticTemperature == 1.0;
      region.staticPressure * pow(t / region.staticTemperature, -LapseExponent(g, region))
    else
      assert h == region.start ==> IsothermalExponent(g, h, region, t) == 0.0;
      region.staticPressure * pow(E, -IsothermalExponent(g, h, region, t))
  }

  /** With x^(a-1) * x = x^a, the density ratio is the pressure ratio times T0 / T: rho0 * a * P0 * T == P0 * b * rho0 * T0. */
  lemma IdealGasRatio(p0: real, rho0: real, t0: real, t: real, a: real, b: real)
    requires t0 != 0.0 && a * (t / t0) == b
    ensures (rho0 * a) * p0 * t == (p0 * b) * rho0 * t0
  {
    assert b * t0 == a * t;
    calc {
      (p0 * b) * rho0 * t0;
      == p0 * rho0 * (b * t0);
      == p0 * rho0 * (a * t);
      == (rho0 * a) * p0 * t;
    }
  }

  /** `calculateDensityAtAltitude`, in kg/m^3: the pressure law with the lapse exponent raised by one, starting from the region's base density. */
  function RegionDensity(pow: (real, real) -> real, g: real, h: real, region: Region, t: real): (rho: real)
    requires region.WellFormed() && (region.isIsothermic ==> t != 0.0)
    ensures h == region.start && t == region.staticTemperature && StartPowers(pow, g, region) ==>
      rho == region.staticDensity
  {
    if !region.isIsothermic then
      assert t == region.staticTemperature ==> t / region.staticTemperature == 1.0;
      region.staticDensity * pow(t / region.staticTemperature, -(LapseExponent(g, region) + 1.0))
    else
      assert h == region.start ==> IsothermalExponent(g, h, region, t) == 0.0;
      region.staticDensity * pow(E, -IsothermalExponent(g, h, region, t))
  }

  /**
   * Density keeps the ideal-gas relation rho / rho0 = (p / P0) * (T0 / T)
   * with the pressure law. In an isothermal region density and pressure
   * fall by the same factor. Elsewhere the two exponents differ by one,
   * so given x^(a-1) * x = x^a for the temperature ratio x, that ratio
   * makes up the difference.
   */
  lemma DensityFollowsPressure(pow: (real, real) -> real, g: real, h: real, region: Region, t: real)
    requires region.WellFormed() && (region.isIsothermic ==> t != 0.0)
    ensures region.isIsothermic ==>
      RegionDensity(pow, g, h, region, t) * region.staticPressure
      == RegionPressure(pow, g, h, region, t) * region.staticDensity
    ensures !region.isIsothermic
            && pow(t / region.staticTemperature, -(LapseExponent(g, region) + 1.0)) * (t / region.staticTemperature)
               == pow(t / region.staticTemperature, -LapseExponent(g, region)) ==>
      RegionDensity(pow, g, h, region, t) * region.staticPressure * t
      == RegionPressure(pow, g, h, region, t) * region.staticDensity * region.staticTemperature
  {
    if region.isIsothermic {
      var f := pow(E, -IsothermalExponent(g, h, region, t));
      assert (region.staticDensity * f) * region.staticPressure == (region.staticPressure * f) * region.staticDensity;
    } else {
      var x := t / region.staticTemperature;
      var a := pow(x, -(LapseExponent(g, region) + 1.0));
      var b := pow(x, -LapseExponent(g, region));
      if a * x == b {
        IdealGasRatio(region.staticPressure, region.staticDensity, region.staticTemperature, t, a, b);
      }
    }
  }

  /** The temperature profile is continuous: each region's formula reaches the next region's base temperature at the next start. */
  lemma TemperatureContinuous(i: nat)
    requires i + 1 < |Regions|
    ensures RegionTemperature(Regions[i + 1].start, Regions[i]) == Regions[i + 1].staticTemperature
  {
  }

  /** Feet are converted to metres before the region search. */
  function AltitudeMeters(altitude: Length): (h: real)
    requires altitude.Feet? || altitude.Meters?
    ensures altitude.Meters? ==> h == altitude.value
    ensures altitude.Feet? ==> h == altitude.value * 0.3048
  {
    ToMeters(altitude).value
  }

  /** The altitude-dependent part every getter shares: the region holding h and the temperature there. */
  method RegionAndTemperature(altitude: Length) returns (r: Result<(Region, real)>)
    requires altitude.Feet? || altitude.Meters?
    ensures var i := FindRegion(Regions, AltitudeMeters(altitude), 0);
      (i.None? ==> r == Failure(OutOfRangeMessage))
      && (i.Some? ==> r == Success((Regions[i.value], RegionTemperature(AltitudeMeters(altitude), Regions[i.value]))))
  {
    var h := AltitudeMeters(altitude);
    var region := GetRegion(h);
    if region.Failure? {
      return Failure(region.error);
    }
    return Success((region.value, RegionTemperature(h, region.value)));
  }

  /** `getTemperatureAtAltitude`: the region temperature in degrees Celsius. */
  method GetTemperatureAtAltitude(altitude: Length) returns (r: Result<Temperature>)
    requires altitude.Feet? || altitude.Meters?
    ensures var i := FindRegion(Regions, AltitudeMeters(altitude), 0);
      (i.None? ==> r == Failure(OutOfRangeMessage))
      && (i.Some? ==>
            (r.Success? && r.value.Celsius?
             && ToKelvin(r.value).value == RegionTemperature(AltitudeMeters(altitude), Regions[i.value])))
  {
    var rt := RegionAndTemperature(altitude);
    if rt.Failure? {
      return Failure(rt.error);
    }
    return Success(ToCelsius(Kelvin(rt.value.1)));
  }

  /** `getPressureAtAltitude`, in pascals, with gravity from the constant model. */
  method GetPressureAtAltitude(pow: (real, real) -> real, altitude: Length) returns (r: Result<real>)
    requires altitude.Feet? || altitude.Meters?
    ensures var h := AltitudeMeters(altitude);
      var i := FindRegion(Regions, h, 0);
      (i.None? ==> r == Failure(OutOfRangeMessage))
      && (i.Some? ==>
            (Regions[i.value].WellFormed()
             && r == Success(RegionPressure(pow, Gravity.StandardGravity, h, Regions[i.value], RegionTemperature(h, Regions[i.value])))))
  {
    RegionsOrdered();
    var rt := RegionAndTemperature(altitude);
    if rt.Failure? {
      return Failure(rt.error);
    }
    var g := Gravity.GravityAtAltitude(altitude).value;
    return Success(RegionPressure(pow, g, AltitudeMeters(altitude), rt.value.0, rt.value.1));
  }

  /** `getDensityAtAltitude`, in kg/m^3, with gravity from the constant model. */
  method GetDensityAtAltitude(pow: (real, real) -> real, altitude: Length) returns (r: Result<real>)
    requires altitude.Feet? || altitude.Meters?
    ensures var h := AltitudeMeters(altitude);
      var i := FindRegion(Regions, h, 0);
      (i.None? ==> r == Failure(OutOfRangeMessage))
      && (i.Some? ==>
            (Regions[i.value].WellFormed()
             && r == Success(RegionDensity(pow, Gravity.StandardGravity, h, Regions[i.value], RegionTemperature(h, Regions[i.value])))))
  {
    RegionsOrdered();
    var rt := RegionAndTemperature(altitude);
    if rt.Failure? {
      return Failure(rt.error);
    }
    var g := Gravity.GravityAtAltitude(altitude).value;
    return Success(RegionDensity(pow, g, AltitudeMeters(altitude), rt.value.0, rt.value.1));
  }

  // ---------------------------------------------------------------------
  // Worked cases and the gaps between regions

  /** Sea level: region 0, 288.15 K (15 C), and the base pressure and density. */
  lemma SeaLevel(pow: (real, real) -> real)
    requires pow(1.0, -LapseExponent(Gravity.StandardGravity, Regions[0])) == 1.0
    requires pow(1.0, -(LapseExponent(Gravity.StandardGravity, Regions[0]) + 1.0)) == 1.0
    ensures FindRegion(Regions, 0.0, 0) == Some(0)
    ensures ToCelsius(Kelvin(RegionTemperature(0.0, Regions[0]))) == Celsius(15.0)
    ensures RegionPressure(pow, Gravity.StandardGravity, 0.0, Regions[0], RegionTemperature(0.0, Regions[0])) == 101325.0
    ensures RegionDensity(pow, Gravity.StandardGravity, 0.0, Regions[0], RegionTemperature(0.0, Regions[0])) == 1.225
  {
    RegionsOrdered();
  }

  /** The tropopause at 11000 m: region 1, -56.5 C, and its base pressure. */
  lemma Tropopause(pow: (real, real) -> real)
    requires pow(E, 0.0) == 1.0
    ensures FindRegion(Regions, 11000.0, 0) == Some(1)
    ensures ToCelsius(Kelvin(RegionTemperature(11000.0, Regions[1]))) == Celsius(-56.5)
    ensures RegionPressure(pow, Gravity.StandardGravity, 11000.0, Regions[1], RegionTemperature(11000.0, Regions[1])) == 22632.1
  {
    RegionsOrdered();
  }

  /** 5000 m lies in region 0 at 255.65 K (-17.5 C); 1000000 m in the unbounded region 7 at -86.204 C. */
  lemma TemperatureExamples()
    ensures FindRegion(Regions, 5000.0, 0) == Some(0)
    ensures ToCelsius(Kelvin(RegionTemperature(5000.0, Regions[0]))) == Celsius(-17.5)
    ensures FindRegion(Regions, 1000000.0, 0) == Some(7)
    ensures ToCelsius(Kelvin(RegionTemperature(1000000.0, Regions[7]))) == Celsius(-86.204)
  {
  }

  /** Below sea level no region applies. */
  lemma BelowSeaLevelRejected(h: real)
    requires h < 0.0
    ensures FindRegion(Regions, h, 0).None?
  {
  }

  /** As written, an altitude strictly between one region's end and the next region's start belongs to no region: 10999.5 m is rejected. */
  lemma GapAltitudesRejected()
    ensures FindRegion(Regions, 10999.5, 0).None?
    ensures FindRegion(Regions, 84851.5, 0).None?
    ensures 10999.5 == ToMeters(Feet(10999.5 / 0.3048)).value
  {
  }

  /** The region of h when each region reaches up to the next region's start: the last region starting at or below h. */
  function RegionOf(rs: seq<Region>, h: real, i: nat): (r: Option<nat>)
    requires i < |rs|
    ensures r.Some? ==> r.value <= i && rs[r.value].start <= h
    ensures r.Some? ==> forall j :: r.value < j <= i ==> h < rs[j].start
    ensures r.None? ==> forall j :: 0 <= j <= i ==> h < rs[j].start
  {
    if rs[i].start <= h then Some(i)
    else if i == 0 then None
    else RegionOf(rs, h, i - 1)
  }

  /** The region lookup without gaps, over the whole table. */
  function RegionAt(h: real): (r: Option<nat>)
    ensures r.Some? ==> r.value < |Regions|
  {
    RegionOf(Regions, h, |Regions| - 1)
  }

  /** Without gaps every altitude from sea level up has a region. */
  lemma RegionAtTotal(h: real)
    ensures RegionAt(h).Some? <==> 0.0 <= h
  {
    if 0.0 <= h {
      assert Regions[0].start <= h;
    }
  }

  /** Wherever the search as written finds a region, the gap-free lookup finds the same one. */
  lemma RegionAtAgrees(h: real)
    requires FindRegion(Regions, h, 0).Some?
    ensures RegionAt(h) == FindRegion(Regions, h, 0)
  {
    RegionsOrdered();
    var i := FindRegion(Regions, h, 0).value;
    var k := RegionAt(h);
    RegionAtTotal(h);
    assert k.Some?;
    assert Regions[i].start <= h;
  }

  /** The gap altitudes get the lower neighbour region, whose temperature formula carries on up to the next start. */
  lemma GapAltitudesCorrected()
    ensures RegionAt(10999.5) == Some(0)
    ensures RegionAt(84851.5) == Some(6)
  {
    RegionAtTotal(10999.5);
    assert forall j :: 1 <= j < |Regions| ==> 11000.0 <= Regions[j].start;
    RegionAtTotal(84851.5);
    assert 84851.5 < Regions[7].start;
    assert forall j :: 0 <= j < 6 ==> Regions[j].start <= 71000.0;
  }
}
