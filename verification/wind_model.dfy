/**
 * The wind model (src/support/wind/WindModel.ts): a sorted table of wind
 * samples by altitude, queried by altitude with
 *   - the calm default when the table is empty,
 *   - a linear decay towards 10% of the lowest sample's speed at the surface
 *     below the lowest sample (and everywhere when there is a single sample),
 *   - the highest sample's wind at or above the highest sample,
 *   - linear interpolation of speed, and shortest-way interpolation of
 *     heading, between the two samples bracketing the altitude.
 */
module WindModel {
  import opened Numerics
  import opened Wrappers
  import opened Lengths
  import opened Velocities
  import opened Cardinal
  import opened Winds
  import opened WindTable

  /** The source's altitude arguments are feet or metres, stored as metres. */
  predicate FeetOrMeters(l: Length) {
    l.Feet? || l.Meters?
  }

  /** `addAltitude`: store the wind under the altitude in metres (replacing any wind already there), then re-sort. */
  function AddAltitude(t: seq<Sample>, altitude: Length, wind: Wind): (r: seq<Sample>)
    requires FeetOrMeters(altitude)
    ensures Sorted(r)
    ensures Lookup(r, ToMeters(altitude).value) == Some(wind)
    ensures forall a :: a != ToMeters(altitude).value ==> Lookup(r, a) == Lookup(t, a)
  {
    Resort(MapSet(t, Sample(ToMeters(altitude).value, wind)))
  }

  /** On the sorted tables the model keeps, adding a sample is sorted insertion of its metre altitude. */
  lemma AddAltitudeIsSortedInsert(t: seq<Sample>, altitude: Length, wind: Wind)
    requires FeetOrMeters(altitude) && Sorted(t)
    ensures AddAltitude(t, altitude, wind) == InsertSorted(t, Sample(ToMeters(altitude).value, wind))
  {
    SetThenSortIsInsert(t, Sample(ToMeters(altitude).value, wind));
  }

  /** Adding the same sample twice is adding it once. */
  lemma AddAltitudeIdempotent(t: seq<Sample>, altitude: Length, wind: Wind)
    requires FeetOrMeters(altitude)
    ensures AddAltitude(AddAltitude(t, altitude, wind), altitude, wind) == AddAltitude(t, altitude, wind)
  {
    var once := AddAltitude(t, altitude, wind);
    var twice := AddAltitude(once, altitude, wind);
    forall a
      ensures Lookup(twice, a) == Lookup(once, a)
    {
    }
    SortedExtensional(twice, once);
  }

  /** `hasWindData`. */
  function HasWindData(t: seq<Sample>): (r: bool)
    ensures r <==> exists a :: Lookup(t, a).Some?
  {
    if |t| > 0 then
      assert Lookup(t, t[0].altitude).Some?;
      true
    else false
  }

  /** The least element of a non-empty sequence (`Math.min(...)`). */
  function MinOf(a: seq<real>): (m: real)
    requires |a| > 0
    ensures m in a
    ensures forall i :: 0 <= i < |a| ==> m <= a[i]
  {
    if |a| == 1 then a[0] else
      var rest := MinOf(a[1..]);
      if a[0] <= rest then a[0] else rest
  }

  /** The greatest element of a non-empty sequence (`Math.max(...)`). */
  function MaxOf(a: seq<real>): (m: real)
    requires |a| > 0
    ensures m in a
    ensures forall i :: 0 <= i < |a| ==> a[i] <= m
  {
    if |a| == 1 then a[0] else
      var rest := MaxOf(a[1..]);
      if a[0] >= rest then a[0] else rest
  }

  /** `getMinAltitude`: 0 m for an empty table, else the least stored altitude. */
  function GetMinAltitude(t: seq<Sample>): (r: Length)
    ensures r.Meters?
    ensures |t| == 0 ==> r.value == 0.0
    ensures |t| > 0 ==> r.value in Altitudes(t) && forall i :: 0 <= i < |t| ==> r.value <= t[i].altitude
  {
    if |t| == 0 then Meters(0.0) else Meters(MinOf(Altitudes(t)))
  }

  /** `getMaxAltitude`: 0 m for an empty table, else the greatest stored altitude. */
  function GetMaxAltitude(t: seq<Sample>): (r: Length)
    ensures r.Meters?
    ensures |t| == 0 ==> r.value == 0.0
    ensures |t| > 0 ==> r.value in Altitudes(t) && forall i :: 0 <= i < |t| ==> t[i].altitude <= r.value
  {
    if |t| == 0 then Meters(0.0) else Meters(MaxOf(Altitudes(t)))
  }

  /** On a sorted table the extremes are the first and last entries. */
  lemma MinMaxOfSorted(t: seq<Sample>)
    requires Sorted(t) && |t| > 0
    ensures GetMinAltitude(t) == Meters(t[0].altitude)
    ensures GetMaxAltitude(t) == Meters(t[|t| - 1].altitude)
  {
  }

  // ---------------------------------------------------------------------
  // Heading interpolation

  /** Full turns subtracted by the first normalising loop. */
  function TurnsDown(d: real): (k: nat)
    decreases if d > PI then d.Floor else 0
  {
    if d > PI then 1 + TurnsDown(d - 2.0 * PI) else 0
  }

  /** Full turns added by the second normalising loop. */
  function TurnsUp(d: real): (k: nat)
    decreases if d < -PI then (-d).Floor else 0
  {
    if d < -PI then 1 + TurnsUp(d + 2.0 * PI) else 0
  }

  /** The first normalising loop: subtract full turns while above pi. */
  function WrapDown(d: real): (r: real)
    ensures r <= PI
    ensures d <= PI ==> r == d
    ensures r == d - 2.0 * PI * (TurnsDown(d) as real)
    decreases if d > PI then d.Floor else 0
  {
    if d > PI then WrapDown(d - 2.0 * PI) else d
  }

  /** The second normalising loop: add full turns while below -pi. */
  function WrapUp(d: real): (r: real)
    ensures -PI <= r
    ensures -PI <= d ==> r == d
    ensures d <= PI ==> r <= PI
    ensures r == d + 2.0 * PI * (TurnsUp(d) as real)
    decreases if d < -PI then (-d).Floor else 0
  {
    if d < -PI then WrapUp(d + 2.0 * PI) else d
  }

  /** The shortest signed angle from rad1 to rad2: within [-pi, pi] and a whole number of turns away from rad2 - rad1. */
  function ShortestDelta(rad1: real, rad2: real): (delta: real)
    ensures -PI <= delta <= PI
    ensures delta == rad2 - rad1 + 2.0 * PI * ((TurnsUp(WrapDown(rad2 - rad1)) - TurnsDown(rad2 - rad1)) as real)
    ensures -PI <= rad2 - rad1 <= PI ==> delta == rad2 - rad1
  {
    WrapUp(WrapDown(rad2 - rad1))
  }

  /**
   * The signed offset from dir1 to dir2 the shorter way round, worked out
   * on the headings in degrees: the plain difference, moved by a whole turn
   * when it is more than half a turn either way. Added to dir1 it names
   * dir2, and between normalised headings it is at most half a turn.
   */
  function ShortestDegrees(dir1: CardinalDegree, dir2: CardinalDegree): (d: real)
    ensures dir1.Valid() && dir2.Valid() ==> -180.0 <= d <= 180.0
    ensures SameHeading(dir1.value + d, dir2.value)
  {
    var diff := dir2.value - dir1.value;
    if diff > 180.0 then
      WholeTurns(dir1.value + (diff - 360.0), dir2.value, -1);
      diff - 360.0
    else if diff < -180.0 then
      WholeTurns(dir1.value + (diff + 360.0), dir2.value, 1);
      diff + 360.0
    else
      WholeTurns(dir1.value + diff, dir2.value, 0);
      diff
  }

  /** Only opposite headings have two offsets within half a turn: any offset strictly inside it that reaches dir2 is the shortest one. */
  lemma ShortestDegreesUnique(dir1: CardinalDegree, dir2: CardinalDegree, e: real)
    requires dir1.Valid() && dir2.Valid()
    requires -180.0 < e < 180.0 && SameHeading(dir1.value + e, dir2.value)
    ensures ShortestDegrees(dir1, dir2) == e
  {
    var d := ShortestDegrees(dir1, dir2);
    var a := TurnsBetween(dir1.value + d, dir2.value);
    var b := TurnsBetween(dir1.value + e, dir2.value);
    assert d - e == 360.0 * ((a - b) as real);
    assert -1 < a - b < 1;
  }

  /** Degrees to radians and back, with and without a full turn, and where half and full turns fall. */
  lemma RadiansOfDegrees(x: real)
    ensures (x * PI / 180.0) * 180.0 / PI == x
    ensures (x * PI / 180.0 - 2.0 * PI) * 180.0 / PI == x - 360.0
    ensures (x * PI / 180.0 + 2.0 * PI) * 180.0 / PI == x + 360.0
    ensures (x <= 180.0) == (x * PI / 180.0 <= PI)
    ensures (-180.0 <= x) == (-PI <= x * PI / 180.0)
    ensures (x < 360.0) == (x * PI / 180.0 < 2.0 * PI)
    ensures (-360.0 < x) == (-2.0 * PI < x * PI / 180.0)
  {
  }

  /** The difference of two headings in radians is their difference in degrees, in radians. */
  lemma RadiansDifference(v1: real, v2: real)
    ensures v2 * PI / 180.0 - v1 * PI / 180.0 == (v2 - v1) * PI / 180.0
  {
  }

  /**
   * The source's radian computation agrees with the offset in degrees:
   * between normalised headings the shortest delta of `interpolateDirection`,
   * converted to degrees, is `ShortestDegrees`.
   */
  lemma ShortestDeltaInDegrees(dir1: CardinalDegree, dir2: CardinalDegree)
    requires dir1.Valid() && dir2.Valid()
    ensures ShortestDelta(Cardinal.ToRadians(dir1).value, Cardinal.ToRadians(dir2).value) * 180.0 / PI
            == ShortestDegrees(dir1, dir2)
  {
    var diff := dir2.value - dir1.value;
    var raw := Cardinal.ToRadians(dir2).value - Cardinal.ToRadians(dir1).value;
    RadiansDifference(dir1.value, dir2.value);
    RadiansOfDegrees(diff);
    if diff > 180.0 {
      assert WrapDown(raw - 2.0 * PI) == raw - 2.0 * PI;
      assert WrapUp(raw - 2.0 * PI) == raw - 2.0 * PI;
    } else if diff < -180.0 {
      assert WrapUp(raw + 2.0 * PI) == raw + 2.0 * PI;
    }
  }

  /**
   * The interpolated angle of `interpolateDirection` before normalisation:
   * dir1 in radians plus the fraction of the shortest delta, converted back
   * to degrees. Between normalised headings it is dir1 plus the same
   * fraction of the shortest offset in degrees.
   */
  /** The source's `(rad1 + delta * ratio) * 180 / Math.PI`: the angle reached in radians, converted to degrees. */
  function TurnedDegrees(rad1: real, delta: real, ratio: real): real {
    (rad1 + delta * ratio) * 180.0 / PI
  }

  /** v1 moved by the fraction ratio of the offset d, all in degrees. */
  function Along(v1: real, ratio: real, d: real): real {
    v1 + ratio * d
  }

  /**
   * The interpolated angle of `interpolateDirection` before normalisation:
   * dir1 in radians plus the fraction of the shortest delta, converted back
   * to degrees. Between normalised headings it is dir1 plus the same
   * fraction of the shortest offset in degrees.
   */
  function InterpolatedDegrees(dir1: CardinalDegree, dir2: CardinalDegree, ratio: real): (v: real)
    ensures dir1.Valid() && dir2.Valid() ==> v == Along(dir1.value, ratio, ShortestDegrees(dir1, dir2))
  {
    var rad1 := Cardinal.ToRadians(dir1).value;
    var rad2 := Cardinal.ToRadians(dir2).value;
    var delta := ShortestDelta(rad1, rad2);
    if dir1.Valid() && dir2.Valid() then
      ShortestDeltaInDegrees(dir1, dir2);
      FractionInDegrees(rad1, dir1.value, delta, ratio, ShortestDegrees(dir1, dir2));
      TurnedDegrees(rad1, delta, ratio)
    else
      TurnedDegrees(rad1, delta, ratio)
  }

  /**
   * `interpolateDirection`: the heading reached by turning from dir1
   * towards dir2 the shorter way round, through the given fraction of the
   * shortest offset.
   */
  function InterpolateDirection(dir1: CardinalDegree, dir2: CardinalDegree, ratio: real): (c: CardinalDegree)
    ensures c.Valid()
    ensures dir1.Valid() && dir2.Valid() ==>
      SameHeading(c.value, dir1.value + ratio * ShortestDegrees(dir1, dir2))
  {
    NewCardinalDegree(InterpolatedDegrees(dir1, dir2, ratio))
  }

  /** Fraction 0 gives the first heading and fraction 1 the second. */
  lemma InterpolateDirectionEnds(dir1: CardinalDegree, dir2: CardinalDegree)
    requires dir1.Valid() && dir2.Valid()
    ensures InterpolateDirection(dir1, dir2, 0.0) == dir1
    ensures InterpolateDirection(dir1, dir2, 1.0) == dir2
  {
    InterpolateDirectionStart(dir1, dir2);
    InterpolateDirectionEnd(dir1, dir2);
  }

  /** Fraction 0 stays on a normalised first heading. */
  lemma InterpolateDirectionStart(dir1: CardinalDegree, dir2: CardinalDegree)
    ensures dir1.Valid() ==> InterpolateDirection(dir1, dir2, 0.0) == dir1
  {
    if dir1.Valid() {
      var rad1 := dir1.value * PI / 180.0;
      var delta := ShortestDelta(rad1, dir2.value * PI / 180.0);
      assert (rad1 + delta * 0.0) * 180.0 / PI == dir1.value;
      NormalizeInRange(dir1.value);
    }
  }

  /** Fraction 1 arrives at the second heading, a whole number of turns from the first plus the raw difference. */
  lemma InterpolateDirectionEnd(dir1: CardinalDegree, dir2: CardinalDegree)
    ensures dir2.Valid() ==> InterpolateDirection(dir1, dir2, 1.0) == dir2
  {
    if dir2.Valid() {
      var rad1 := Cardinal.ToRadians(dir1).value;
      var rad2 := Cardinal.ToRadians(dir2).value;
      var delta := ShortestDelta(rad1, rad2);
      var k := TurnsUp(WrapDown(rad2 - rad1)) - TurnsDown(rad2 - rad1);
      var v := dir2.value + 360.0 * (k as real);
      TurnsInDegrees(rad1 + delta * 1.0, dir2.value, k);
      WholeTurns(dir2.value, v, -k);
      NormalizeUnique(v, dir2.value);
    }
  }

  /** Moving a fraction of an offset from a heading in radians, converted back, moves the same fraction of the offset in degrees. */
  lemma FractionInDegrees(rad1: real, v1: real, delta: real, ratio: real, d: real)
    requires rad1 == v1 * PI / 180.0 && d == delta * 180.0 / PI
    ensures TurnedDegrees(rad1, delta, ratio) == Along(v1, ratio, d)
  {
  }

  /** An angle k full turns past v degrees, in radians, is v + 360k once converted back to degrees. */
  lemma TurnsInDegrees(r: real, v: real, k: int)
    requires r == v * PI / 180.0 + 2.0 * PI * (k as real)
    ensures r * 180.0 / PI == v + 360.0 * (k as real)
  {
  }

  // ---------------------------------------------------------------------
  // Speed: interpolation and decay

  /** x / y is a fraction in [0, 1) when 0 <= x < y. */
  lemma FractionBelowOne(x: real, y: real)
    requires 0.0 <= x < y
    ensures 0.0 <= x / y < 1.0
  {
    assert (x / y) * y == x;
  }

  /** Scaling by a fraction in [0, 1] keeps a difference between 0 and itself. */
  lemma ScaledBetween(d: real, ratio: real)
    ensures ratio == 0.0 ==> d * ratio == 0.0
    ensures ratio == 1.0 ==> d * ratio == d
    ensures 0.0 <= ratio <= 1.0 && 0.0 <= d ==> 0.0 <= d * ratio <= d
    ensures 0.0 <= ratio <= 1.0 && d <= 0.0 ==> d <= d * ratio <= 0.0
  {
    if 0.0 <= ratio <= 1.0 {
      assert d - d * ratio == d * (1.0 - ratio);
      if 0.0 <= d {
        NonNegativeProduct(d, ratio);
        NonNegativeProduct(d, 1.0 - ratio);
      } else {
        NonNegativeProduct(-d, ratio);
        NonNegativeProduct(-d, 1.0 - ratio);
        assert (-d) * ratio == -(d * ratio);
        assert (-d) * (1.0 - ratio) == -(d * (1.0 - ratio));
      }
    }
  }

  /** Linear interpolation from a to b: a at 0, b at 1, between them for fractions in [0, 1], and the weighted mean of the two. */
  function Lerp(a: real, b: real, ratio: real): (r: real)
    ensures r == (1.0 - ratio) * a + ratio * b
    ensures ratio == 0.0 ==> r == a
    ensures ratio == 1.0 ==> r == b
    ensures 0.0 <= ratio <= 1.0 ==> (a <= r <= b) || (b <= r <= a)
  {
    var d := b - a;
    ScaledBetween(d, ratio);
    a + d * ratio
  }

  /**
   * `interpolateWind`: the speed in knots moves linearly from the first
   * wind's to the second's, staying between them for fractions in [0, 1],
   * and the heading turns from the first towards the second the shorter
   * way round by the same fraction. The ends give the given winds back.
   */
  function InterpolateWind(wind1: Wind, wind2: Wind, ratio: real): (w: Wind)
    ensures w.Valid()
    ensures w.speed.value == (1.0 - ratio) * wind1.speed.value + ratio * wind2.speed.value
    ensures 0.0 <= ratio <= 1.0 ==>
      (wind1.speed.value <= w.speed.value <= wind2.speed.value) || (wind2.speed.value <= w.speed.value <= wind1.speed.value)
    ensures wind1.Valid() && wind2.Valid() ==>
      SameHeading(w.direction.value, wind1.direction.value + ratio * ShortestDegrees(wind1.direction, wind2.direction))
    ensures ratio == 0.0 && wind1.Valid() ==> w == wind1
    ensures ratio == 1.0 && wind2.Valid() ==> w == wind2
  {
    InterpolateDirectionStart(wind1.direction, wind2.direction);
    InterpolateDirectionEnd(wind1.direction, wind2.direction);
    Wind(Knots(Lerp(wind1.speed.value, wind2.speed.value, ratio)),
      InterpolateDirection(wind1.direction, wind2.direction, ratio))
  }

  /** x / l times h is x times the fraction h / l. */
  lemma DivideThenScale(x: real, l: real, h: real)
    requires l != 0.0
    ensures (x / l) * h == x * (h / l)
  {
  }

  /**
   * `calculateDecayWind`: the speed is the straight line through a tenth of
   * the lowest sample's speed at 0 m and its full speed at the lowest
   * altitude, extended beyond both and cut off at 0; the heading is the
   * lowest sample's.
   */
  function CalculateDecayWind(t: seq<Sample>, h: real, lowestWind: Wind): (w: Wind)
    requires |t| > 0 && t[0].altitude != 0.0
    ensures w.speed.Knots? && w.direction == lowestWind.direction
    ensures w.speed.value == Max(Lerp(lowestWind.speed.value * 0.1, lowestWind.speed.value, h / t[0].altitude), 0.0)
    ensures w.speed.value >= 0.0
    ensures h == t[0].altitude ==> w.speed.value == Max(lowestWind.speed.value, 0.0)
    ensures h == 0.0 ==> w.speed.value == Max(lowestWind.speed.value * 0.1, 0.0)
  {
    var lowestSpeed := lowestWind.speed.value;
    var surfaceSpeed := lowestSpeed * 0.1;
    var lowestAltitude := t[0].altitude;
    var decayRate := (lowestSpeed - surfaceSpeed) / lowestAltitude;
    assert decayRate * lowestAltitude == lowestSpeed - surfaceSpeed;
    DivideThenScale(lowestSpeed - surfaceSpeed, lowestAltitude, h);
    Wind(Knots(Max(surfaceSpeed + decayRate * h, 0.0)), lowestWind.direction)
  }

  // ---------------------------------------------------------------------
  // Bracketing search

  /** The four values `findAltitudeRange` returns. */
  datatype AltitudeRange = AltitudeRange(wind1: Wind, wind2: Wind, alt1: real, alt2: real)

  /** Entries i and i + 1 as a range. */
  function RangeAt(t: seq<Sample>, i: nat): (r: AltitudeRange)
    requires i + 1 < |t|
    ensures r.alt1 == t[i].altitude && r.alt2 == t[i + 1].altitude
  {
    AltitudeRange(t[i].wind, t[i + 1].wind, t[i].altitude, t[i + 1].altitude)
  }

  /**
   * i is where the binary search stops for target h: the first of two
   * adjacent entries with h at or above the lower one (or i is the first
   * pair) and h below the upper one (or i is the last pair).
   */
  predicate IsBracket(t: seq<Sample>, h: real, i: int) {
    0 <= i && i + 1 < |t|
    && (i == 0 || t[i].altitude <= h)
    && (i + 2 == |t| || h < t[i + 1].altitude)
  }

  /** A sorted table has at most one bracket for each target. */
  lemma BracketUnique(t: seq<Sample>, h: real, i: int, j: int)
    requires Sorted(t) && IsBracket(t, h, i) && IsBracket(t, h, j)
    ensures i == j
  {
  }

  /** Linear-scan reference for the bracket, scanning upward from pair i. */
  function LinearBracket(t: seq<Sample>, h: real, i: nat): (b: nat)
    requires i + 1 < |t| && (i == 0 || t[i].altitude <= h)
    ensures IsBracket(t, h, b)
    decreases |t| - i
  {
    if i + 2 == |t| || h < t[i + 1].altitude then i
    else LinearBracket(t, h, i + 1)
  }

  /** `findAltitudeRange`: binary search for the pair of entries bracketing the target; none for fewer than two entries. */
  method FindAltitudeRange(t: seq<Sample>, target: real) returns (range: Option<AltitudeRange>)
    requires Sorted(t)
    ensures |t| < 2 ==> range == None
    ensures |t| >= 2 ==> range == Some(RangeAt(t, LinearBracket(t, target, 0)))
  {
    var left := 0;
    var right := |t| - 1;
    while left < right - 1
      invariant 0 <= left && (|t| >= 2 ==> left < right <= |t| - 1) && (|t| < 2 ==> left == 0 && right == |t| - 1)
      invariant left == 0 || t[left].altitude <= target
      invariant right == |t| - 1 || target < t[right].altitude
      decreases right - left
    {
      var mid := (left + right) / 2;
      if target < t[mid].altitude {
        right := mid;
      } else {
        left := mid;
      }
    }
    if left < right {
      BracketUnique(t, target, left, LinearBracket(t, target, 0));
      range := Some(AltitudeRange(t[left].wind, t[right].wind, t[left].altitude, t[right].altitude));
    } else {
      range := None;
    }
  }

  // ---------------------------------------------------------------------
  // The query

  /** Negative altitudes are raised to 0 m. */
  function ClampedMeters(altitude: Length): (h: real)
    requires FeetOrMeters(altitude)
    ensures h >= 0.0
    ensures h == Max(ToMeters(altitude).value, 0.0)
  {
    var m := ToMeters(altitude).value;
    if m < 0.0 then 0.0 else m
  }

  /** The query falls to the decay branch for height h. */
  predicate DecayReached(t: seq<Sample>, h: real) {
    |t| == 1 || (|t| > 1 && h < t[|t| - 1].altitude && h <= t[0].altitude)
  }

  /**
   * The decay divides by the lowest altitude; the query is defined whenever
   * that division is reached with a non-zero divisor.
   */
  predicate QueryDefined(t: seq<Sample>, h: real) {
    DecayReached(t, h) ==> t[0].altitude != 0.0
  }

  /** The query as a function of the clamped height, bracketing by linear scan. */
  function WindAt(t: seq<Sample>, h: real): (w: Wind)
    requires Sorted(t) && QueryDefined(t, h)
    ensures WindsValid(t) ==> w.Valid()
  {
    if |t| == 0 then Wind(Knots(0.0), NewCardinalDegree(0.0))
    else if |t| == 1 then CalculateDecayWind(t, h, t[0].wind)
    else if h >= t[|t| - 1].altitude then t[|t| - 1].wind
    else if h <= t[0].altitude then CalculateDecayWind(t, h, t[0].wind)
    else
      var range := RangeAt(t, LinearBracket(t, h, 0));
      InterpolateWind(range.wind1, range.wind2, (h - range.alt1) / (range.alt2 - range.alt1))
  }

  /** `getWindAtAltitude`, with the source's binary search. */
  method GetWindAtAltitude(t: seq<Sample>, altitude: Length) returns (w: Wind)
    requires Sorted(t) && FeetOrMeters(altitude)
    requires QueryDefined(t, ClampedMeters(altitude))
    ensures w == WindAt(t, ClampedMeters(altitude))
  {
    var h := ToMeters(altitude).value;
    if h < 0.0 {
      h := 0.0;
    }
    if |t| == 0 {
      return Wind(Knots(0.0), NewCardinalDegree(0.0));
    }
    var lowestAltitude := t[0].altitude;
    var highestAltitude := t[|t| - 1].altitude;
    var highestWind := t[|t| - 1].wind;
    var lowestWind := t[0].wind;
    if |t| == 1 {
      return CalculateDecayWind(t, h, lowestWind);
    }
    if h >= highestAltitude {
      return highestWind;
    }
    if h <= lowestAltitude {
      return CalculateDecayWind(t, h, lowestWind);
    }
    var range := FindAltitudeRange(t, h);
    // With two or more entries the search always finds a range, so the source's fallback to the highest wind is never taken.
    assert range.Some?;
    var r := range.value;
    var ratio := (h - r.alt1) / (r.alt2 - r.alt1);
    w := InterpolateWind(r.wind1, r.wind2, ratio);
  }

  // ---------------------------------------------------------------------
  // Properties of the query

  /** Every stored wind was built by `new Wind` and blows at a non-negative speed. */
  predicate WindsValid(t: seq<Sample>) {
    forall i :: 0 <= i < |t| ==> t[i].wind.Valid() && t[i].wind.speed.value >= 0.0
  }

  /** With no samples the wind is calm from the north (360). */
  lemma WindAtEmpty(h: real)
    ensures WindAt([], h) == Wind(Knots(0.0), CardinalDegree(360.0))
  {
    NormalizeExamples();
  }

  /** The query reproduces every stored sample at the sample's own altitude. */
  lemma WindAtSample(t: seq<Sample>, i: int)
    requires 0 <= i < |t|
    requires Sorted(t) && WindsValid(t) && 0.0 < t[0].altitude
    ensures QueryDefined(t, t[i].altitude)
    ensures WindAt(t, t[i].altitude) == t[i].wind
  {
    var h := t[i].altitude;
    if |t| == 1 || i == 0 {
      assert h == t[0].altitude;
    } else if i + 1 == |t| {
    } else {
      assert IsBracket(t, h, i);
      BracketUnique(t, h, i, LinearBracket(t, h, 0));
      assert (h - t[i].altitude) / (t[i + 1].altitude - t[i].altitude) == 0.0;
    }
  }

  /** Strictly between the lowest and highest samples the wind interpolates the two samples around the altitude. */
  lemma WindAtInterior(t: seq<Sample>, h: real, i: int)
    requires Sorted(t) && WindsValid(t) && 2 <= |t|
    requires 0 <= i && i + 1 < |t| && t[i].altitude <= h < t[i + 1].altitude && t[0].altitude < h
    ensures QueryDefined(t, h)
    ensures WindAt(t, h) == InterpolateWind(t[i].wind, t[i + 1].wind, (h - t[i].altitude) / (t[i + 1].altitude - t[i].altitude))
    ensures WindAt(t, h).Valid()
    ensures var s := WindAt(t, h).speed.value;
      (t[i].wind.speed.value <= s <= t[i + 1].wind.speed.value) || (t[i + 1].wind.speed.value <= s <= t[i].wind.speed.value)
  {
    WindAtBracket(t, h, i);
    var ratio := (h - t[i].altitude) / (t[i + 1].altitude - t[i].altitude);
    FractionBelowOne(h - t[i].altitude, t[i + 1].altitude - t[i].altitude);
    assert t[i].wind.Valid() && t[i + 1].wind.Valid();
    assert t[i].wind.speed.value >= 0.0 && t[i + 1].wind.speed.value >= 0.0;
  }

  /** Strictly inside the samples the query interpolates within the bracket around the altitude. */
  lemma WindAtBracket(t: seq<Sample>, h: real, i: int)
    requires Sorted(t) && 2 <= |t|
    requires 0 <= i && i + 1 < |t| && t[i].altitude <= h < t[i + 1].altitude && t[0].altitude < h
    ensures QueryDefined(t, h)
    ensures WindAt(t, h) == InterpolateWind(t[i].wind, t[i + 1].wind, (h - t[i].altitude) / (t[i + 1].altitude - t[i].altitude))
  {
    assert IsBracket(t, h, i);
    BracketUnique(t, h, i, LinearBracket(t, h, 0));
  }

  /** At or above the highest sample the wind is the highest sample's. */
  lemma WindAtAboveTop(t: seq<Sample>, h: real)
    requires Sorted(t) && 2 <= |t| && t[|t| - 1].altitude <= h
    ensures QueryDefined(t, h)
    ensures WindAt(t, h) == t[|t| - 1].wind
  {
  }

  /** Below the lowest sample the heading is the lowest sample's and the speed never exceeds it. */
  lemma WindAtBelowBottom(t: seq<Sample>, h: real)
    requires Sorted(t) && WindsValid(t) && 0 < |t| && 0.0 < t[0].altitude
    requires 0.0 <= h <= t[0].altitude
    ensures QueryDefined(t, h)
    ensures WindAt(t, h).direction == t[0].wind.direction
    ensures 0.0 <= WindAt(t, h).speed.value <= t[0].wind.speed.value
  {
    var s := t[0].wind.speed.value;
    var rate := (s - s * 0.1) / t[0].altitude;
    assert rate * t[0].altitude == s - s * 0.1;
    NonNegativeProduct(rate, h);
    NonNegativeProduct(rate, t[0].altitude - h);
    assert rate * h <= rate * t[0].altitude;
  }

  /** Past 1, linear interpolation overshoots the far end. */
  lemma LerpBeyond(a: real, b: real, ratio: real)
    requires a < b && 1.0 < ratio
    ensures Lerp(a, b, ratio) > b
  {
    PositiveProduct(b - a, ratio - 1.0);
    assert (b - a) * ratio == (b - a) + (b - a) * (ratio - 1.0);
  }

  /** A height above a positive altitude is more than one times it. */
  lemma RatioAboveOne(h: real, l: real)
    requires 0.0 < l < h
    ensures h / l > 1.0
  {
    PositiveProduct(h / l - 1.0 + 1.0, l);
  }

  /**
   * A table with one sample extrapolates its decay line upwards: above the
   * sample, a positive speed keeps growing past the sample's own speed.
   */
  lemma SingleSampleStrengthens(t: seq<Sample>, h: real)
    requires |t| == 1 && 0.0 < t[0].altitude < h && 0.0 < t[0].wind.speed.value
    ensures Sorted(t) && QueryDefined(t, h)
    ensures WindAt(t, h).speed.value > t[0].wind.speed.value
  {
    var s := t[0].wind.speed.value;
    RatioAboveOne(h, t[0].altitude);
    LerpBeyond(s * 0.1, s, h / t[0].altitude);
  }
}
