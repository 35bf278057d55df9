# A verified model of the 6dof flight-simulation core

This project models, in Dafny, the computational core of a small six-degree-of-freedom
aircraft simulator written in TypeScript. The model covers:

- the unit value types it builds on: lengths, velocities, accelerations, temperatures,
  angles, times, forces, and MSL/AGL altitudes;
- compass headings (`CardinalDegree`) and the `Wind` record;
- the altitude-keyed wind table, with its two interpolation laws and its decay law;
- the layered 1976 U.S. Standard Atmosphere;
- the constant gravity model;
- the three direction-cosine-matrix classes;
- the gravity-only equations of motion;
- the forward-Euler integrator and its `integrateOverTime` loop;
- the simulation's tick loop, with its reporting test.

All quantities are exact reals. `Math.sin`/`Math.cos` enter as `SinCos` pairs, with the
Pythagorean identity stated as `OnCircle`. `Math.pow` enters as a function parameter, and
so does the aircraft's trigonometry. JavaScript's `%` is the truncated remainder
`Numerics.Rem`.

The modules follow the source tree:

| module | source |
|---|---|
| `Lengths` | `length/` |
| `Velocities` | `velocity/` |
| `Accelerations` | `acceleration/` |
| `Temperatures` | `temperature/` |
| `Angles` | `angles/Degrees.ts`, `angles/Radians.ts` |
| `Cardinal` | `angles/CardinalDegree.ts` |
| `Times` | `time/` |
| `Forces` | `force/` |
| `Altitudes` | `altitude/` |
| `Gravity` | `gravity/` |
| `Winds` | `wind/Wind.ts` |
| `WindTable` | the JavaScript `Map` behind the wind model |
| `WindModel` | `wind/WindModel.ts` |
| `WindExamples` | its test file |
| `Atmosphere` | `atmosphere/StandardAtmosphere1976.ts` |
| `Rotation` | `transforms/DCM.ts` and the shared matrix algebra |
| `BodyToNed` | `transforms/BodyToNedDCM.ts` |
| `NedToBody` | `transforms/NedToBodyDCM.ts` |
| `BodyNed` | `transforms/BodyNedDCM.ts` |
| `BodyNedExamples` | `transforms/DCM.test.ts` |
| `Dynamics` | `aircraft/AircraftDynamicsModel.ts` |
| `Integrator` | `numerical/Integrator.ts` |
| `Simulation` | `sim/Simulation.ts` |

`Wrappers` holds `Option` and `Result`. `Numerics` holds π, e, absolute value, truncation
and the truncated remainder. All source paths below are under `src/support/`.

Two operations are searches in the source. Each is a method with loop invariants, and a
linear-scan function serves as its reference:

- `WindModel.FindAltitudeRange` against `WindModel.LinearBracket`;
- `Atmosphere.GetRegion` against `Atmosphere.FindRegion`.

There are also three loops, each a method proved equal to a recursive reference:

- `Integrator.IntegrateOverTime` against `Integrator.Iterate`;
- `Simulation.Run` against `Simulation.StateAfter` and `Simulation.Reports`;
- `Rotation.IsOrthogonal` against `Rotation.OrthogonalWithin`.

`integrateOverTime` records ⌊(end − start)/dt⌋ + 1 entries, which is what its loop
computes. A ceiling count would be one entry too many whenever the interval is not a whole
number of steps.

## Model

| member | source | states |
|---|---|---|
| Lengths.ToMeters | src/support/length/Meters.ts:11-13 | The result is in metres, and a metre value is returned unchanged. The factors are stated by `ToMetersIsLinear`. |
| Lengths.ToFeet | src/support/length/Feet.ts:15-17 | The result is in feet, and a feet value is returned unchanged. Metres give r/3.28084 = v, kilometres r/3.28084 = the metre value, and nautical miles r/6076.1154855643 = v. |
| Lengths.ToNauticalMiles | src/support/length/NauticalMiles.ts:19-21 | The result is in nautical miles, and a nautical-mile value is returned unchanged. Metres give r/0.0005399568 = v, kilometres the same of the metre value, and feet r/0.0001645788 = v. |
| Lengths.ToKilometers | src/support/length/Kilometers.ts:23-25 | The result is in kilometres, and a kilometre value is returned unchanged. |
| Lengths.ToMetersIsLinear | src/support/length/Feet.ts:11-13 | Conversion to metres multiplies by the unit's factor: 0.3048, 1, 1852 or 1000. It maps 0 to 0 and keeps the sign. |
| Lengths.FeetMetersFeet | src/support/length/Meters.ts:15-17 | Feet to metres and back multiplies by 1.000000032, so it is not the identity for any non-zero value. |
| Lengths.FeetKilometersViaMeters | src/support/length/Feet.ts:23-25 | Feet to kilometres equals going through metres. |
| Lengths.MetersKilometersRoundTrip | src/support/length/Meters.ts:23-25 | Metres to kilometres and back is exact. |
| Lengths.MetersNauticalMilesMeters | src/support/length/Meters.ts:19-21 | Metres to nautical miles and back multiplies by 0.9999999936. |
| Lengths.NauticalMilesKilometersViaMeters | src/support/length/NauticalMiles.ts:23-25 | Nautical miles to kilometres equals going through metres. |
| Lengths.KilometersMetersRoundTrip | src/support/length/Kilometers.ts:15-17 | Kilometres to metres and back is exact. |
| Lengths.KilometersViaMeters | src/support/length/Kilometers.ts:11-21 | Kilometres to feet and to nautical miles both equal going through metres. |
| Lengths.NauticalMilesFeetOffRoute | src/support/length/NauticalMiles.ts:11-17 | Nautical miles to feet to metres gives v·1851.99999999999864 m, not 1852·v. Going via metres to feet differs from the direct factor by v·0.0001944357 ft. |
| Lengths.FeetNauticalMilesOffRoute | src/support/length/Feet.ts:11-21 | Feet to nautical miles to metres gives v·0.3047999376 m, not 0.3048·v. Going via metres differs from the direct factor by v·3.264e-11 NM. |
| Lengths.ConversionsIdempotent | src/support/length/Feet.ts:15-17 | Converting to the same unit twice is converting once, for every unit. |
| Velocities.ToMetersPerSecond | src/support/velocity/Knots.ts:10-12 | The result is in m/s, and an m/s value is returned unchanged. Knots give r/0.514444 = v, and ft/s give r/0.3048 = v. |
| Velocities.ToFeetPerSecond | src/support/velocity/FeetPerSecond.ts:14-16 | The result is in ft/s, and an ft/s value is returned unchanged. Knots give r/1.68781 = v, and m/s give r/3.28084 = v. |
| Velocities.ToKnots | src/support/velocity/Knots.ts:18-20 | The result is in knots, and a knot value is returned unchanged. ft/s give r/0.592484 = v, and m/s give r/1.94384 = v. |
| Velocities.ConversionsKeepSign | src/support/velocity/MetersPerSecond.ts:10-20 | Every conversion is positive if and only if its input is, and zero if and only if its input is. |
| Velocities.KnotsRoundTrip | src/support/velocity/Knots.ts:10-12 | Knots to m/s and back multiplies by 0.99999682496, not 1. |
| Velocities.MetersPerSecondFeetRoundTrip | src/support/velocity/FeetPerSecond.ts:10-12 | m/s to ft/s and back multiplies by 1.000000032. |
| Velocities.KnotsFeetOffRoute | src/support/velocity/Knots.ts:10-16 | Knots to ft/s directly exceeds going via m/s by v·0.00000154704 ft/s. |
| Velocities.FeetKnotsOffRoute | src/support/velocity/FeetPerSecond.ts:10-20 | ft/s to knots directly exceeds going via m/s by v·0.000001568 kt. |
| Accelerations.ToMetersPerSecondSquared | src/support/acceleration/FeetPerSecondSquared.ts:9-11 | The result is in m/s², and an m/s² value is returned unchanged. A ft/s² value v gives r with r·3.28084 = v·1.000000032, the round-trip factor. |
| Accelerations.ToFeetPerSecondSquared | src/support/acceleration/MetersPerSecondSquared.ts:9-11 | The mirror statement: the result is in ft/s², and r·0.3048 = v·1.000000032. |
| Accelerations.StandardGravityInMetres | src/support/acceleration/AccelationTests.test.ts:73-79 | 32.174 ft/s² is 9.8066352 m/s², which rounds to 9.807. |
| Accelerations.RoundTripsNearStandardGravity | src/support/acceleration/AccelationTests.test.ts:232-246 | Both round trips land within 5e-4 and 5e-6 of the start. |
| Accelerations.ZeroAndSign | src/support/acceleration/AccelationTests.test.ts:81-93 | Both directions map 0 to 0 and keep negative values negative. |
| Temperatures.ToCelsius | src/support/temperature/Kelvin.ts:10-12 | The result is in °C. For kelvin, r + 273.15 = t. For Fahrenheit, 1.8·r + 32 = t. |
| Temperatures.ToFahrenheit | src/support/temperature/Celsius.ts:6-8 | The result is in °F and equals 1.8·(the Celsius value) + 32, from kelvin too. |
| Temperatures.ToKelvin | src/support/temperature/Celsius.ts:14-16 | The result is in kelvin and is the Celsius value + 273.15. This is the corrected Fahrenheit branch (see Findings). |
| Temperatures.FahrenheitToKelvinAsWritten | src/support/temperature/Fahrenheit.ts:14-16 | The as-written result is 1.8 times the true kelvin value: degrees Rankine labelled as kelvin. |
| Temperatures.FahrenheitToKelvinAsWrittenIsRankine | src/support/temperature/Fahrenheit.ts:14-16 | 32 °F gives 491.67 as written against 273.15 K via Celsius. |
| Temperatures.FahrenheitToKelvinAsWrittenAgreesOnlyAtAbsoluteZero | src/support/temperature/Fahrenheit.ts:10-16 | The as-written formula equals the Celsius route if and only if v = −459.67. |
| Temperatures.RoundTrips | src/support/temperature/Kelvin.ts:6-16 | Every round trip through another unit is exact. |
| Temperatures.FixedPoints | src/support/temperature/Kelvin.ts:6-12 | 0 K is −273.15 °C and −459.67 °F. 0 °C is 32 °F. −40 °C is −40 °F. |
| Times.ToSeconds | src/support/time/Minutes.ts:6-8 | The result is in seconds, and a seconds value is returned unchanged. Minutes give r/60 = v and hours r/3600 = v. |
| Times.ToMinutes | src/support/time/Hours.ts:10-12 | The result is in minutes, and a minutes value is returned unchanged. Seconds give r·60 = v and hours r/60 = v. |
| Times.ToHours | src/support/time/Seconds.ts:14-16 | The result is in hours, and an hours value is returned unchanged. Seconds give r·3600 = v and minutes r·60 = v. |
| Times.ConversionsCommute | src/support/time/Seconds.ts:10-16 | Every two-step path between units equals the direct conversion. |
| Forces.ToNewtons | src/support/force/PoundForce.ts:5-7 | The result is in newtons; r/4.44822 = v for pounds-force. |
| Forces.ToPoundForce | src/support/force/Newtons.ts:9-11 | The result is in pounds-force; r·4.44822 = v for newtons. |
| Forces.RoundTrips | src/support/force/Newtons.ts:5-11 | Both round trips are exact. |
| Angles.ToRadians | src/support/angles/Degrees.ts:13-15 | The result is in radians, with r·180 = d·π. Radians are returned unchanged. |
| Angles.ToDegrees | src/support/angles/Radians.ts:9-11 | The result is in degrees, with r·π = v·180. Degrees are returned unchanged. |
| Angles.DegreesRadiansRoundTrip | src/support/angles/Degrees.ts:13-15 | Both round trips are exact. |
| Angles.StraightAndRightAngles | src/support/angles/Radians.ts:9-11 | 180° is π, 90° is π/2, and π is 180°. |
| Altitudes.MakeAltitude | src/support/altitude/MSL.ts:7-9 | Only feet or metres are accepted. The stored length is always metres (feet ×0.3048, metres unchanged) and carries the tag. |
| Altitudes.NewMSL | src/support/altitude/MSL.ts:7-9 | Tag MSL, value in metres. |
| Altitudes.NewAGL | src/support/altitude/AGL.ts:7-9 | Tag AGL, value in metres. |
| Altitudes.SameLengthSameMetres | src/support/altitude/AGL.ts:7-9 | MSL and AGL of one length hold the same metres and differ only in the tag. |
| Gravity.GravityAtAltitude | src/support/gravity/ConstantGravityModel.ts:7-9 | Equal to the sea-level value at every altitude. |
| Gravity.GravityAtSeaLevel | src/support/gravity/ConstantGravityModel.ts:11-13 | Exactly 9.80665 m/s², i.e. between 32.17 and 32.18 ft/s². |
| Numerics.Abs | src/support/sim/Simulation.ts:118-119 | `Math.abs`: non-negative and equal to x or −x. |
| Numerics.Max | src/support/wind/WindModel.ts:173 | `Math.max`: at least both arguments and equal to one of them. |
| Numerics.Trunc | src/support/angles/CardinalDegree.ts:32 | Truncation toward zero: within one of the quotient, toward zero. |
| Numerics.RemTurn | src/support/angles/CardinalDegree.ts:32 | `x % 360` lies strictly between −360 and 360, carries the sign of x, and is x less a whole number of turns. |
| Numerics.RemOfMultiple | src/support/sim/Simulation.ts:114 | The remainder of a whole multiple of y is 0. |
| Numerics.RemOfNonNegative | src/support/sim/Simulation.ts:114 | For x ≥ 0 and y > 0 the remainder lies in [0, y) and is x minus the truncated quotient times y. |
| Cardinal.WholeTurns | src/support/angles/CardinalDegree.ts:31-39 | A difference of n whole turns is the same heading. |
| Cardinal.TurnsBetween | src/support/angles/CardinalDegree.ts:31-39 | Conversely, the same heading means some whole number of turns apart. |
| Cardinal.Normalize | src/support/angles/CardinalDegree.ts:31-39 | The result lies in [1, 361) and is the same heading as the input. |
| Cardinal.NewCardinalDegree | src/support/angles/CardinalDegree.ts:7-9 | Every constructed heading is valid and names the input's direction. |
| Cardinal.FromDegrees | src/support/angles/CardinalDegree.ts:11-13 | Valid, and the same heading as the degree value. |
| Cardinal.FromRadians | src/support/angles/CardinalDegree.ts:15-17 | Valid, and the same heading as the radians converted to degrees. |
| Cardinal.ToDegrees | src/support/angles/CardinalDegree.ts:23-25 | A degree angle holding the stored value. |
| Cardinal.ToRadians | src/support/angles/CardinalDegree.ts:27-29 | Equal to converting `toDegrees` into radians with the general angle conversion. |
| Cardinal.NormalizeUnique | src/support/angles/CardinalDegree.ts:31-39 | Any in-range value of the input's direction is the normalised value. |
| Cardinal.NormalizeCharacterised | src/support/angles/CardinalDegree.ts:31-39 | `Normalize(v) == r` if and only if r is in [1, 361) and names v's direction. |
| Cardinal.NormalizeInRange | src/support/angles/CardinalDegree.ts:31-39 | Identity on [1, 361). |
| Cardinal.NormalizeIdempotent | src/support/angles/CardinalDegree.ts:31-39 | Normalising twice is normalising once. |
| Cardinal.NormalizePeriodic | src/support/angles/CardinalDegree.ts:31-39 | Adding or subtracting 360 does not change the result. |
| Cardinal.NormalizeExamples | src/support/wind/WindModel.test.ts:59-64 | 0, 360 and 720 give 360; −10 gives 350; 1 stays 1. |
| Winds.NewWind | src/support/wind/Wind.ts:8-14 | The wind is valid. A number speed is wrapped in knots and a `Knots` value is kept. A number heading is normalised to the same direction and a `CardinalDegree` is kept. |
| Winds.NewWindNumbersOrValues | src/support/wind/Wind.ts:12-13 | Passing numbers equals passing the `Knots` and `CardinalDegree` built from them. |
| WindTable.Altitudes | src/support/wind/WindModel.ts:186 | The keys in iteration order, one per entry. |
| WindTable.Lookup | src/support/wind/WindModel.ts:22 | `Map.get`: defined if and only if the key is present, and then the first entry with that key. |
| WindTable.SortedCons | src/support/wind/WindModel.ts:27-37 | A table is sorted if and only if its tail is sorted and lies above its head. |
| WindTable.MapSet | src/support/wind/WindModel.ts:22 | `Map.set`: the key maps to the new wind and every other key keeps its wind. |
| WindTable.MapSetKeepsKeys | src/support/wind/WindModel.ts:22 | Setting a key that is already present leaves the keys and their iteration order unchanged. |
| WindTable.MapSetAppends | src/support/wind/WindModel.ts:22 | Setting a new key appends its entry after all the existing ones. |
| WindTable.InsertSorted | src/support/wind/WindModel.ts:27-37 | Sorted insertion keeps a table sorted and keeps every lower bound below the new key. |
| WindTable.LookupCons | src/support/wind/WindModel.ts:22 | A lookup hits the head's key or continues in the tail. |
| WindTable.InsertSortedLookup | src/support/wind/WindModel.ts:14-25 | After insertion the new key maps to the new wind and every other key is unchanged. |
| WindTable.Resort | src/support/wind/WindModel.ts:27-37 | The re-sort yields a sorted table with exactly the same lookups. |
| WindTable.SortedExtremes | src/support/wind/WindModel.ts:184-192 | In a sorted table the first key is the least and the last the greatest. |
| WindTable.SortedExtensional | src/support/wind/WindModel.ts:27-37 | Two sorted tables with the same lookups are equal. |
| WindTable.SetThenSortIsInsert | src/support/wind/WindModel.ts:14-37 | On a sorted table, `Map.set` followed by the re-sort is sorted insertion. |
| WindTable.ResortSorted | src/support/wind/WindModel.ts:27-37 | Re-sorting a sorted table changes nothing. |
| WindModel.AddAltitude | src/support/wind/WindModel.ts:14-25 | The result is sorted. The altitude in metres (feet ×0.3048) maps to the new wind, and every other altitude keeps its wind. |
| WindModel.AddAltitudeIsSortedInsert | src/support/wind/WindModel.ts:14-37 | On a sorted table, adding equals sorted insertion of the metre altitude. |
| WindModel.AddAltitudeIdempotent | src/support/wind/WindModel.ts:14-25 | Adding the same sample twice is adding it once. |
| WindModel.HasWindData | src/support/wind/WindModel.ts:194-196 | True if and only if some altitude has a wind. |
| WindModel.MinOf | src/support/wind/WindModel.ts:186 | `Math.min(...)`: an element, at most every element. |
| WindModel.MaxOf | src/support/wind/WindModel.ts:191 | `Math.max(...)`: an element, at least every element. |
| WindModel.GetMinAltitude | src/support/wind/WindModel.ts:184-187 | 0 m when empty, else the least stored altitude, in metres. |
| WindModel.GetMaxAltitude | src/support/wind/WindModel.ts:189-192 | 0 m when empty, else the greatest stored altitude, in metres. |
| WindModel.MinMaxOfSorted | src/support/wind/WindModel.ts:184-192 | On a sorted table these are the first and last keys. |
| WindModel.WrapDown | src/support/wind/WindModel.ts:150 | The first loop ends at or below π. It is the input less whole turns, and the input itself when already at or below π. |
| WindModel.WrapUp | src/support/wind/WindModel.ts:151 | The second loop ends at or above −π, never pushes a value above π, and adds only whole turns. |
| WindModel.ShortestDelta | src/support/wind/WindModel.ts:143-151 | The wrapped difference lies in [−π, π], is whole turns from rad2 − rad1, and equals it when that is already in range. |
| WindModel.ShortestDegrees | src/support/wind/WindModel.ts:146-151 | Reference offset in degrees: dir1 plus it names dir2, and between valid headings it lies in [−180, 180]. |
| WindModel.ShortestDegreesUnique | src/support/wind/WindModel.ts:146-151 | Any offset strictly inside (−180, 180) that turns dir1 onto dir2 is the shortest offset. |
| WindModel.ShortestDeltaInDegrees | src/support/wind/WindModel.ts:143-151 | For valid headings, the source's wrapped radian difference, in degrees, is the reference offset `ShortestDegrees`. |
| WindModel.InterpolatedDegrees | src/support/wind/WindModel.ts:153-157 | For valid headings, the unnormalised turned value in degrees is dir1 + ratio·`ShortestDegrees`. |
| WindModel.InterpolateDirection | src/support/wind/WindModel.ts:137-159 | The result is a valid `CardinalDegree`. For valid headings it names the heading dir1 + ratio·d, where d is the shortest offset `ShortestDegrees` from dir1 to dir2. |
| WindModel.InterpolateDirectionEnds | src/support/wind/WindModel.ts:137-159 | Fraction 0 gives the first heading and fraction 1 the second. |
| WindModel.InterpolateDirectionStart | src/support/wind/WindModel.ts:137-159 | Fraction 0 returns a valid first heading, for any second heading. |
| WindModel.InterpolateDirectionEnd | src/support/wind/WindModel.ts:137-159 | Fraction 1 returns a valid second heading: the shortest difference is a whole number of turns from the raw one, and normalising removes them. |
| WindModel.Lerp | src/support/wind/WindModel.ts:121 | The weighted mean (1 − ratio)·a + ratio·b: a at 0, b at 1, and between a and b for fractions in [0, 1]. |
| WindModel.InterpolateWind | src/support/wind/WindModel.ts:115-135 | A valid wind. The speed is (1 − ratio)·s1 + ratio·s2 in knots, between s1 and s2 for fractions in [0, 1]. For valid winds the heading is the first turned by ratio times the shortest offset. Fraction 0 gives the first wind and 1 the second. |
| WindModel.CalculateDecayWind | src/support/wind/WindModel.ts:161-182 | Knots with the lowest sample's heading. The speed is the line through a tenth of the lowest speed at 0 m and the full speed at the lowest altitude, taken at h/altitude and cut off at 0. It is never negative. |
| WindModel.RangeAt | src/support/wind/WindModel.ts:106-111 | The returned range holds entries i and i+1. |
| WindModel.BracketUnique | src/support/wind/WindModel.ts:86-113 | A sorted table has at most one bracketing pair per target. |
| WindModel.LinearBracket | src/support/wind/WindModel.ts:86-113 | The linear-scan reference always returns a bracketing pair. |
| WindModel.FindAltitudeRange | src/support/wind/WindModel.ts:86-113 | None for fewer than two entries. Otherwise the binary search returns exactly the pair the linear scan finds. |
| WindModel.ClampedMeters | src/support/wind/WindModel.ts:40-46 | The query altitude in metres, raised to 0 when negative. |
| WindModel.WindAt | src/support/wind/WindModel.ts:48-83 | Reference query by linear scan: every wind it returns from a table of valid winds is valid. |
| WindModel.GetWindAtAltitude | src/support/wind/WindModel.ts:39-84 | The method, with its binary search, returns `WindAt` of the clamped altitude. What that wind is comes from the `WindAt*` lemmas and `SingleSampleStrengthens`. |
| WindModel.WindAtEmpty | src/support/wind/WindModel.ts:49-51 | An empty table gives 0 kt from 360. |
| WindModel.WindAtSample | src/support/wind/WindModel.ts:60-80 | At a stored altitude the query returns that sample exactly. |
| WindModel.WindAtInterior | src/support/wind/WindModel.ts:75-80 | Strictly inside the table the result interpolates the two surrounding samples at ratio (h − alt1)/(alt2 − alt1). It is valid and its speed lies between theirs. |
| WindModel.WindAtAboveTop | src/support/wind/WindModel.ts:65-67 | With two or more samples, at or above the highest the highest sample's wind is returned unchanged. |
| WindModel.WindAtBelowBottom | src/support/wind/WindModel.ts:70-72 | Between 0 and the lowest sample: the lowest sample's heading, and a speed between 0 and its speed. |
| WindModel.SingleSampleStrengthens | src/support/wind/WindModel.ts:60-62 | With one sample at a positive altitude and a positive speed, any higher query returns more than that speed: the decay line is extrapolated upwards. |
| WindExamples.AddAltitudeToEmpty | src/support/wind/WindModel.test.ts:18-26 | The first sample is the whole table. |
| WindExamples.AddAltitudeBelow | src/support/wind/WindModel.ts:27-37 | A lower sample goes in front. |
| WindExamples.AddAltitudeSorts | src/support/wind/WindModel.test.ts:28-39 | Samples added out of order end up sorted. |
| WindExamples.AddAltitudeInFeet | src/support/wind/WindModel.ts:18-19 | 1000 ft is stored under 304.8 m. |
| WindExamples.SingleSampleDecays | src/support/wind/WindModel.test.ts:67-90 | 20 kt at 5000 m gives 5.6 kt at 1000 m and 11 kt at 2500 m, heading 270. |
| WindExamples.NegativeAltitudeClamped | src/support/wind/WindModel.test.ts:255-266 | −100 m clamps to 0, giving 2 kt from 270. |
| WindExamples.TwoSamplesOutside | src/support/wind/WindModel.test.ts:93-136 | At and above the top sample, 15 kt from 270; at 500 m, 5.5 kt from 260. |
| WindExamples.MidpointRatio | src/support/wind/WindModel.ts:75-80 | For samples at 1000 and 3000 m the query at 2000 m interpolates at ratio 0.5. |
| WindExamples.InterpolatesMidpoint | src/support/wind/WindModel.test.ts:140-154 | 10 kt from 260 and 20 kt from 280 give 15 kt from 270. |
| WindExamples.InterpolatesThroughNorth | src/support/wind/WindModel.test.ts:156-183 | 350→10 and 10→350 both give 360 at the midpoint, not 180. |
| WindExamples.HalfwayWind | src/support/wind/WindModel.ts:115-135 | Halfway between two winds whose headings are at most 180° apart clockwise is the mean speed and the mean heading. |
| WindExamples.ThreeSamples | src/support/wind/WindModel.test.ts:186-204 | With three samples, 2000 m gives 7.5 kt from 265 and 4000 m gives 12.5 kt from 275. |
| WindExamples.MinMaxExamples | src/support/wind/WindModel.test.ts:207-226 | An empty table has extremes of 0 and no data. Samples at 1000 and 5000 m give those extremes. |
| Atmosphere.RegionsOrdered | src/support/atmosphere/StandardAtmosphere1976.ts:23-96 | The eight regions are well formed and ascending. Each ends before the next starts; only the last is unbounded. |
| Atmosphere.FindRegion | src/support/atmosphere/StandardAtmosphere1976.ts:120-143 | Linear-scan reference: a region that holds h, or a proof that none does. |
| Atmosphere.RegionUnique | src/support/atmosphere/StandardAtmosphere1976.ts:23-96 | At most one region holds a given altitude. |
| Atmosphere.SearchRegions | src/support/atmosphere/StandardAtmosphere1976.ts:125-139 | On any ordered table the binary search finds exactly the index the linear scan finds, or nothing when the scan finds nothing. |
| Atmosphere.GetRegion | src/support/atmosphere/StandardAtmosphere1976.ts:120-143 | The binary search returns the region the scan finds. Otherwise it fails with "Altitude is outside the range of the standard atmosphere". |
| Atmosphere.RegionTemperature | src/support/atmosphere/StandardAtmosphere1976.ts:145-161 | Isothermal: the base temperature. Otherwise it rises from the base by gradient × (h − start); at the start it is the base temperature. |
| Atmosphere.RegionPressure | src/support/atmosphere/StandardAtmosphere1976.ts:163-188 | At the region's start and base temperature the law returns the base pressure, given pow(1, x) = 1 and exp(0) = 1. |
| Atmosphere.RegionDensity | src/support/atmosphere/StandardAtmosphere1976.ts:190-216 | At the region's start and base temperature the law returns the base density, under the same assumptions. |
| Atmosphere.DensityFollowsPressure | src/support/atmosphere/StandardAtmosphere1976.ts:163-216 | Density follows pressure by the ideal-gas relation ρ/ρ₀ = (p/p₀)·(T₀/T): exactly in isothermal regions, and in the others given pow(x, −(L+1))·x = pow(x, −L). |
| Atmosphere.TemperatureContinuous | src/support/atmosphere/StandardAtmosphere1976.ts:23-96 | Each region's law reaches the next region's base temperature at the next start. |
| Atmosphere.AltitudeMeters | src/support/atmosphere/StandardAtmosphere1976.ts:100 | Feet are converted ×0.3048 before the search; metres pass unchanged. |
| Atmosphere.RegionAndTemperature | src/support/atmosphere/StandardAtmosphere1976.ts:100-102 | The region and the temperature there, or the out-of-range error. |
| Atmosphere.GetTemperatureAtAltitude | src/support/atmosphere/StandardAtmosphere1976.ts:99-104 | The region temperature in °C, or the error. |
| Atmosphere.GetPressureAtAltitude | src/support/atmosphere/StandardAtmosphere1976.ts:106-111 | The region pressure under standard gravity, or the error. |
| Atmosphere.GetDensityAtAltitude | src/support/atmosphere/StandardAtmosphere1976.ts:113-118 | The region density under standard gravity, or the error. |
| Atmosphere.SeaLevel | src/support/atmosphere/AtmosphereModel.test.ts:386-394 | 0 m lies in region 0, at 15 °C, 101325 Pa and 1.225 kg/m³. |
| Atmosphere.Tropopause | src/support/atmosphere/AtmosphereModel.test.ts:396-406 | 11000 m lies in region 1, at −56.5 °C and 22632.1 Pa. |
| Atmosphere.TemperatureExamples | src/support/atmosphere/AtmosphereModel.test.ts:337-342 | 5000 m is −17.5 °C; 1000000 m lies in region 7 at −86.204 °C. |
| Atmosphere.BelowSeaLevelRejected | src/support/atmosphere/AtmosphereModel.test.ts:331-335 | No region holds a negative altitude. |
| Atmosphere.GapAltitudesRejected | src/support/atmosphere/StandardAtmosphere1976.ts:26-34 | As written, 10999.5 m and 84851.5 m lie in no region; so does 10999.5 m given in feet. |
| Atmosphere.RegionOf | src/support/atmosphere/StandardAtmosphere1976.ts:120-143 | Gap-free lookup: the last region starting at or below h, or none. |
| Atmosphere.RegionAt | src/support/atmosphere/StandardAtmosphere1976.ts:120-143 | The gap-free lookup over the whole table. |
| Atmosphere.RegionAtTotal | src/support/atmosphere/StandardAtmosphere1976.ts:23-96 | Gap-free, a region exists if and only if h ≥ 0. |
| Atmosphere.RegionAtAgrees | src/support/atmosphere/StandardAtmosphere1976.ts:120-139 | Wherever the as-written search succeeds, the gap-free lookup gives the same region. |
| Atmosphere.GapAltitudesCorrected | src/support/atmosphere/StandardAtmosphere1976.ts:26-34 | The gap altitudes get the lower neighbour: regions 0 and 6. |
| Rotation.Transpose | src/support/transforms/BodyToNedDCM.ts:100-106 | Entry (i, j) is entry (j, i) of the input. |
| Rotation.Apply | src/support/transforms/BodyToNedDCM.ts:73-81 | Component i is row i dotted with the vector. |
| Rotation.Mul | src/support/transforms/BodyNedDCM.ts:143-161 | Entry (i, j) is row i of a dotted with column j of b. |
| Rotation.Determinant | src/support/transforms/BodyToNedDCM.ts:133-137 | The cofactor expansion is the triple product r2 · (r0 × r1). |
| Rotation.Rows | src/support/transforms/DCM.ts:58-59 | Three rows of three, entry-wise equal to the matrix. |
| Rotation.GetMatrix | src/support/transforms/DCM.ts:53-60 | Fails with "DCM matrix is not initialized" if and only if the stored matrix is empty; otherwise an equal copy. |
| Rotation.GetMatrixOfConstructed | src/support/transforms/DCM.ts:23-26 | The constructor always initialises the matrix, so `getMatrix` succeeds. |
| Rotation.GetInverse | src/support/transforms/DCM.ts:78-80 | The transpose of the inverse is the matrix. |
| Rotation.ProductPrefixComplete | src/support/transforms/BodyToNedDCM.ts:111-128 | The inner summation loop's full sum is row i dotted with row j. |
| Rotation.ProductEntry | src/support/transforms/BodyToNedDCM.ts:111-128 | The inner loop computes entry (i, j) of M·Mᵀ. |
| Rotation.IsOrthogonal | src/support/transforms/BodyToNedDCM.ts:111-128 | The triple loop returns true if and only if every entry of M·Mᵀ is within the tolerance of the identity's. |
| Rotation.OrthonormalPassesCheck | src/support/transforms/BodyToNedDCM.ts:111-128 | Orthonormal rows pass at every tolerance ≥ 0. |
| Rotation.Euler321Composes | src/support/transforms/BodyToNedDCM.ts:48-64 | The matrix built from roll, pitch and yaw is the product roll · pitch · yaw of the three elementary frame rotations. |
| Rotation.Euler321RowsOrthonormal | src/support/transforms/BodyToNedDCM.ts:111-128 | For angles on the unit circle the rows are orthonormal. |
| Rotation.Euler321ColumnsOrthonormal | src/support/transforms/BodyToNedDCM.ts:111-128 | The columns are orthonormal too. |
| Rotation.Euler321RightHanded | src/support/transforms/BodyToNedDCM.ts:133-137 | The third row is the cross product of the first two. |
| Rotation.Euler321Determinant | src/support/transforms/BodyToNedDCM.ts:133-137 | The determinant is exactly 1. |
| Rotation.Euler321Level | src/support/transforms/BodyToNedDCM.ts:48-64 | Zero angles give the identity. |
| Rotation.ApplyUndoesTranspose | src/support/transforms/BodyNedDCM.ts:100-126 | Orthonormal rows: M·(Mᵀ·v) = v. |
| Rotation.TransposeUndoesApply | src/support/transforms/BodyNedDCM.ts:100-126 | Orthonormal columns: Mᵀ·(M·v) = v. |
| Rotation.Euler321RoundTrips | src/support/transforms/BodyNedDCM.ts:100-126 | For valid angles, both orders of matrix and transpose return the vector. |
| Rotation.ApplyKeepsLength | src/support/transforms/BodyToNedDCM.ts:73-81 | Orthonormal columns keep vector length. |
| Rotation.IdentityKeepsVectors | src/support/transforms/DCM.test.ts:11-21 | The identity leaves every vector unchanged. |
| Rotation.OrthonormalInverse | src/support/transforms/DCM.test.ts:141-159 | The transpose is a two-sided inverse. |
| Rotation.TransposeDeterminant | src/support/transforms/DCM.test.ts:118-139 | Transposing keeps the determinant. |
| Rotation.Euler321PitchOnly | src/support/transforms/BodyToNedDCM.ts:48-64 | With zero roll and yaw only the pitch terms remain. |
| Rotation.Euler321RollOnly | src/support/transforms/BodyToNedDCM.ts:48-64 | With zero pitch and yaw only the roll terms remain. |
| Rotation.Euler321YawOnly | src/support/transforms/BodyToNedDCM.ts:48-64 | With zero roll and pitch only the yaw terms remain. |
| BodyToNed.CalculateDcm | src/support/transforms/BodyToNedDCM.ts:33-65 | Zero angles give the identity. |
| BodyToNed.IsRotation | src/support/transforms/BodyToNedDCM.ts:33-65 | Valid angles give orthonormal rows and columns and determinant 1. |
| BodyToNed.Transform | src/support/transforms/BodyToNedDCM.ts:73-81 | M·v. For valid angles the transpose recovers v and the length is kept. |
| BodyToNed.TransformVelocity | src/support/transforms/BodyToNedDCM.ts:86-88 | The rows dotted with (u, v, w); the speed is kept for valid angles. |
| BodyToNed.GetMatrix | src/support/transforms/BodyToNedDCM.ts:93-95 | A 3×3 copy equal entry by entry; the identity for zero angles. |
| BodyToNed.GetTranspose | src/support/transforms/BodyToNedDCM.ts:100-106 | Entry (i, j) is M[j][i]; for valid angles it undoes `transform`. |
| BodyToNed.IsOrthogonal | src/support/transforms/BodyToNedDCM.ts:111-128 | Exactly the tolerance check, and true for valid angles at every tolerance ≥ 0. |
| BodyToNed.GetDeterminant | src/support/transforms/BodyToNedDCM.ts:133-137 | The triple product, exactly 1 for valid angles. |
| BodyToNed.LevelFlight | src/support/transforms/DCMTest.ts:12-23 | Zero angles map (50, 0, 0) to (50, 0, 0). |
| NedToBody.CalculateDcm | src/support/transforms/NedToBodyDCM.ts:44-62 | Entry for entry the transpose of `BodyToNedDCM`'s matrix. |
| NedToBody.IsRotation | src/support/transforms/NedToBodyDCM.ts:117-143 | Valid angles give orthonormal rows and columns and determinant 1. |
| NedToBody.Transform | src/support/transforms/NedToBodyDCM.ts:71-79 | M·n. For valid angles `BodyToNedDCM.transform` maps it back and the length is kept. |
| NedToBody.TransformVelocity | src/support/transforms/NedToBodyDCM.ts:84-86 | The rows dotted with (n, e, d); the speed is kept for valid angles. |
| NedToBody.TransformGravity | src/support/transforms/NedToBodyDCM.ts:92-94 | g times the last row of `BodyToNedDCM`'s matrix, of magnitude \|g\| for valid angles. |
| NedToBody.GetMatrix | src/support/transforms/NedToBodyDCM.ts:99-101 | A 3×3 copy whose entry (i, j) is `BodyToNedDCM`'s (j, i). |
| NedToBody.GetTranspose | src/support/transforms/NedToBodyDCM.ts:106-112 | The exact transpose, which is `BodyToNedDCM`'s matrix. |
| NedToBody.IsOrthogonal | src/support/transforms/NedToBodyDCM.ts:117-134 | Exactly the tolerance check, and true for valid angles at every tolerance ≥ 0. |
| NedToBody.GetDeterminant | src/support/transforms/NedToBodyDCM.ts:139-143 | The triple product, exactly 1 for valid angles. |
| NedToBody.LevelGravity | src/support/transforms/DCMTest.ts:25-28 | With zero roll and pitch, and any heading, gravity is (0, 0, g). |
| NedToBody.InverseOfBodyToNed | src/support/transforms/NedToBodyDCM.ts:71-79 | For valid angles, body → NED → body returns the vector. |
| BodyNed.NegatedYaw | src/support/transforms/BodyNedDCM.ts:60-61 | The sine is negated and the cosine kept. |
| BodyNed.NegatedYawOnCircle | src/support/transforms/BodyNedDCM.ts:60-61 | The negated yaw is on the unit circle if and only if the yaw is. |
| BodyNed.NegatedYawInvolution | src/support/transforms/BodyNedDCM.ts:60-61 | Negating twice gives the yaw back. |
| BodyNed.NegatedLevel | src/support/transforms/BodyNedDCM.ts:60-61 | A zero yaw stays zero. |
| BodyNed.CalculateBodyToNedDcm | src/support/transforms/BodyNedDCM.ts:46-92 | Entry (0, 1) is −cos θ·sin ψ: the yaw enters negated. |
| BodyNed.MirrorsBodyToNed | src/support/transforms/BodyNedDCM.ts:64-80 | The matrix is `BodyToNedDCM`'s for the negated yaw, and conversely. |
| BodyNed.IsRotation | src/support/transforms/BodyNedDCM.ts:143-173 | Valid angles give orthonormal rows and columns and determinant 1. |
| BodyNed.LevelIsIdentity | src/support/transforms/DCM.test.ts:197-214 | Zero angles give the identity. |
| BodyNed.GetMatrixRows | src/support/transforms/DCM.ts:53-60 | `getMatrix` on a constructed DCM succeeds with a 3×3 copy. |
| BodyNed.GetTranspose | src/support/transforms/BodyNedDCM.ts:133-141 | Entry (i, j) is M[j][i]; for valid angles it is a two-sided inverse. |
| BodyNed.TransformFromBody | src/support/transforms/BodyNedDCM.ts:100-111 | M·v. For valid angles the transpose maps it back and the length is kept. |
| BodyNed.TransformToBody | src/support/transforms/BodyNedDCM.ts:113-126 | Mᵀ·n. For valid angles M maps it back and the length is kept. |
| BodyNed.IsOrthogonal | src/support/transforms/BodyNedDCM.ts:143-161 | Exactly the tolerance check, and true for valid angles at every tolerance ≥ 0. |
| BodyNed.GetDeterminant | src/support/transforms/BodyNedDCM.ts:163-173 | The triple product, exactly 1 for valid angles. |
| BodyNed.RoundTrips | src/support/transforms/DCM.test.ts:163-193 | `transformToBody ∘ transformFromBody` and the reverse are both the identity. |
| BodyNedExamples.PitchOnlyMatrix | src/support/transforms/DCM.test.ts:68-78 | Pitch alone gives the rotation about the body y axis. |
| BodyNedExamples.RollOnlyMatrix | src/support/transforms/DCM.test.ts:80-91 | Roll alone gives the rotation about the x axis. |
| BodyNedExamples.YawOnlyMatrix | src/support/transforms/DCM.test.ts:41-66 | Yaw alone gives the rotation about the down axis, by the negated yaw. |
| BodyNedExamples.FromBodyIsProduct | src/support/transforms/BodyNedDCM.ts:100-111 | `transformFromBody` is M·v. |
| BodyNedExamples.ToBodyIsProduct | src/support/transforms/BodyNedDCM.ts:113-126 | `transformToBody` is Mᵀ·v. |
| BodyNedExamples.LevelFlight | src/support/transforms/DCM.test.ts:11-38 | Level: (50, 0, 0) maps to north 50, and north or east 50 come back unchanged. |
| BodyNedExamples.PitchForward | src/support/transforms/DCM.test.ts:68-78 | Under a pitch rotation, forward k maps to (c·k, 0, s·k): Down is +k·sin θ, as the test expects. |
| BodyNedExamples.RollOnly | src/support/transforms/DCM.test.ts:80-91 | Roll alone leaves a forward velocity pointing north. |
| BodyNedExamples.Yaw45 | src/support/transforms/DCM.test.ts:41-66 | At a 45° yaw, (0, 1.76, 0.12) maps near (−1.244, 1.244, 0.12) and comes back near (0, 1.76, 0.12). |
| Dynamics.GravityMagnitude | src/support/aircraft/AircraftDynamicsModel.ts:72-75 | The constant model's 9.80665 at every altitude. |
| Dynamics.Derivatives | src/support/aircraft/AircraftDynamicsModel.ts:37-67 | The velocity rate is body gravity + v × ω. The rate derivatives are 0. The angle rates are (p, q, r). The position rates are the written N/E/D combinations. |
| Dynamics.GravityIsDcmTransform | src/support/aircraft/AircraftDynamicsModel.ts:72-87 | Body gravity is `BodyToNedDCM.transform([0, 0, g])`. |
| Dynamics.GravityKeepsMagnitude | src/support/aircraft/AircraftDynamicsModel.ts:72-87 | For a valid attitude body gravity has magnitude g. |
| Dynamics.PositionRatesAreDcmTransform | src/support/aircraft/AircraftDynamicsModel.ts:143-187 | The N/E/D rates are `NedToBodyDCM.transform` of (u, v, w). |
| Dynamics.PositionRatesRotateVelocity | src/support/aircraft/AircraftDynamicsModel.ts:143-187 | For a valid attitude `BodyToNedDCM` maps them back to (u, v, w), and the ground speed is the body speed. |
| Dynamics.IgnoresTimeAndHorizontalPosition | src/support/aircraft/AircraftDynamicsModel.ts:37-87 | The derivative does not depend on time or on north/east position. |
| Dynamics.LevelGravity | src/support/aircraft/AircraftDynamicsModel.ts:82-84 | Level attitude: body gravity is (0, 0, g). |
| Dynamics.LevelAtRest | src/support/aircraft/AircraftDynamicsModel.ts:127-138 | Level, at rest and not rotating: the only non-zero rate is ẇ = 9.80665. |
| Dynamics.LevelPositionRates | src/support/aircraft/AircraftDynamicsModel.ts:143-187 | Zero angles: the position rates are (u, v, w). |
| Dynamics.NoRotationFallsFreely | src/support/aircraft/AircraftDynamicsModel.ts:93-138 | With zero body rates the body acceleration is gravity alone. |
| Integrator.Components | src/support/numerical/StateVector.ts:1-46 | The state as its twelve components. |
| Integrator.ComponentsDetermineState | src/support/numerical/StateVector.ts:1-46 | Equal components mean equal states. |
| Integrator.EulerStep | src/support/numerical/Integrator.ts:41-60 | Every component is the current value plus rate × dt. |
| Integrator.Integrate | src/support/numerical/Integrator.ts:29-63 | Every component is current + derivative × dt, with the derivative evaluated once at (state, time). Each angle stays in its own slot: the corrected attitude order (see Findings). |
| Integrator.ZeroStep | src/support/numerical/Integrator.ts:41-60 | dt = 0 returns the state unchanged. This is the corrected attitude order (see Findings). |
| Integrator.IntegrateAsWritten | src/support/numerical/Integrator.ts:56-60 | As written, the new roll is the integrated yaw and the new yaw the integrated roll; every other component is as in `Integrate`. |
| Integrator.ZeroStepSwapsRollAndYaw | src/support/numerical/Integrator.ts:56-60 | As written, a zero step with roll ≠ yaw changes the state: roll and yaw trade places. |
| Integrator.StillStepAsWrittenBanks | src/support/numerical/Integrator.ts:56-60 | As written, a step without body rotation ends with roll = the old yaw and yaw = the old roll: from level flight on any heading but north, the aircraft is banked after one step. |
| Integrator.StepKeepsRates | src/support/numerical/Integrator.ts:46-48 | Under the aircraft model a step never changes the body rates. |
| Integrator.TimeAtIsLinear | src/support/numerical/Integrator.ts:91 | Accumulating k steps gives start + k·dt. |
| Integrator.IterateKeepsRates | src/support/numerical/Integrator.ts:46-48 | Any number of steps keeps the initial body rates. |
| Integrator.LevelStep | src/support/numerical/Integrator.ts:41-60 | From level with no rotation and v = 0: u, rates and angles are kept, v stays 0, w grows by g·dt and z by w·dt. |
| Integrator.LevelFlightKeepsAttitude | src/support/numerical/Integrator.ts:41-60 | Over k steps from that state: u, v = 0, rates and angles are kept. |
| Integrator.LevelFlightFalls | src/support/numerical/Integrator.ts:41-60 | From rest, w after k steps is g × the elapsed time. |
| Integrator.LevelFallAfterSteps | src/support/numerical/Integrator.ts:41-60 | From rest, w after k steps is g·k·dt. |
| Integrator.OneStepLess | src/support/numerical/Integrator.ts:84-92 | One step later one fewer entry is left to record, and at least one is left while time ≤ end. |
| Integrator.StepCount | src/support/numerical/Integrator.ts:84-92 | The loop records ⌊(end − start)/dt⌋ + 1 entries: the n with t(n−1) ≤ end < t(n). |
| Integrator.RecordedExtend | src/support/numerical/Integrator.ts:85 | Pushing the next time and state keeps the recording invariant. |
| Integrator.IterateNext | src/support/numerical/Integrator.ts:87-89 | The state after k+1 steps is one `integrate` from the state after k. |
| Integrator.IntegrateOverTime | src/support/numerical/Integrator.ts:74-95 | Empty when end < start; otherwise ⌊(end − start)/dt⌋ + 1 entries. Entry k is (start + k steps, the state after k steps), and every time is ≤ end. |
| Simulation.ShouldOutput | src/support/sim/Simulation.ts:112-121 | A zero interval never reports, and neither does a negative step. |
| Simulation.ShouldOutputSound | src/support/sim/Simulation.ts:112-121 | A reporting time lies within dt/2 of some multiple of the interval. |
| Simulation.ShouldOutputComplete | src/support/sim/Simulation.ts:112-121 | For t ≥ 0 and a positive interval, every time within dt/2 of a multiple reports. |
| Simulation.ReportsAtStart | src/support/sim/Simulation.ts:112-121 | Time 0 always reports. |
| Simulation.ReportsAtMultiples | src/support/sim/Simulation.ts:112-121 | Every exact multiple of the interval reports. |
| Simulation.Loop | src/support/sim/Simulation.ts:47-101 | A tick reports if and only if `shouldOutput` holds, and then reports the current time and state. It integrates one step exactly when it reports before the total time; otherwise the state is unchanged. |
| Simulation.QuietTickKeepsState | src/support/sim/Simulation.ts:48-50 | A non-reporting tick changes neither the state nor the reports. |
| Simulation.LateTickKeepsState | src/support/sim/Simulation.ts:94-100 | A tick at or after the total time keeps the state. |
| Simulation.ReportsAtReportingTimes | src/support/sim/Simulation.ts:47-101 | At most one report per tick, each at a reporting time. |
| Simulation.Run | src/support/sim/Simulation.ts:36-45 | Zero ticks if and only if total < 0. Otherwise the last tick time is ≤ total < the next. The final state and reports are those of that many ticks. |
| Simulation.LoopEveryTick | src/support/sim/Simulation.ts:47-101 | The corrected tick reports exactly as the as-written one, and is identical to it on reporting ticks. |
| Simulation.EveryTickFollowsIntegrator | src/support/numerical/Integrator.ts:84-92 | Corrected: before the total time, k ticks give the integrator's state after k steps. |
| Simulation.AllTicksReportingAgree | src/support/sim/Simulation.ts:48-50 | When every tick reports, the as-written and corrected loops agree. |
| Simulation.IntervalOfOneStep | src/support/sim/Simulation.ts:112-121 | With the interval equal to dt every tick reports. |
| Simulation.HalfStepRunAsWritten | src/support/sim/Simulation.ts:48-50 | As written, dt = 0.5, interval 1, total 1: one integration only, and the report at 1 s carries the 0.5 s state. |
| Simulation.HalfStepRunCorrected | src/support/sim/Simulation.ts:94-100 | Corrected: that run ends in the state after two steps. |
| Simulation.HalfStepFallsTooSlowly | src/support/sim/Simulation.ts:48-50 | From rest and level, w is g·0.5 as written and g·1.0 corrected after one second. |

## Left out

- Sine, cosine, `Math.pow` and `Math.exp` are not computed. Angles carry a (sin, cos)
  pair; the rotation proofs assume only sin² + cos² = 1 (`OnCircle`). Pressure and density
  take `pow` as a parameter, with pow(1, x) = 1 and exp(0) = 1 assumed where used. Their
  numeric values and their decrease with altitude are not proved.
- `BodyNed.NegatedYaw`: sin(−ψ) = −sin ψ and cos(−ψ) = cos ψ are built into how the negated
  yaw is formed, not derived from a sine function.
- The `-0` scrubbing in `calculateBodyToNedDCM` is a no-op over reals and is not modelled.
- Console output, the banners, `toFixed` formatting and the print-only `DCMTest.ts`
  harness are I/O.
- `Simulation.Loop`: the null-state check is unreachable, because the state is never null
  in the model.
- `Simulation.Run` and `Integrator.IntegrateOverTime` require `dt > 0`. With `dt <= 0` the
  source loops never end.
- Time is accumulated exactly, by `Integrator.TimeAt`, not in floating point. The
  floating-point drift of `currentTime += dt`, which can add or drop a tick, is not
  modelled.
- `Simulation.ShouldOutput`: a zero interval yields NaN comparisons in JavaScript and is
  modelled as "does not report". `ShouldOutputComplete` covers t ≥ 0 only, the times the
  loop visits. For negative times the truncated remainder misses multiples approached from
  above.
- `Dynamics.Derivatives` requires `mass != 0`, since it divides the zero external forces
  by the mass. The aircraft presets and their mass fields are left out.
- The three incompatible state-field layouts in the source are modelled as one
  twelve-real `State`. The `EulerAngles` (ψ, θ, φ) record is folded into `EulerTrig`.
- `Integrator.Integrate` takes the dynamics as a function-valued `Model`.
  `Integrator.AircraftModel` instantiates it with `AircraftDynamicsModel`.
- `WindModel.GetWindAtAltitude` requires `QueryDefined`: when the decay law applies, the
  lowest sample must not be at 0 m. The source divides by that altitude there and returns
  a non-finite speed.
- The source's `getWindAtAltitude` fallback after a failed range search is unreachable on
  a sorted table with two or more samples, and the method proves it so.
- The wind test file builds `Wind` from object literals and adds `MSL` objects. Its numbers
  are restated in `WindExamples` on metres, knots and degrees.
- The DCM constructor's caching of the matrix is modelled by the matrix being a function
  of the stored angles. Mutation of a returned copy is not modelled, since all values are
  immutable.
- `NedToBody.TransformGravity` is stated as what it computes. Whether gravity should use
  the other matrix is not judged.
- The gravity model is injected into `AircraftDynamicsModel` through its environment
  (src/support/aircraft/AircraftDynamicsModel.ts:79). The model fixes it to the constant
  model, the only one in the source, so `Dynamics.GravityMagnitude` is 9.80665 everywhere.
- `WindModel.InterpolateDirection`, `WindModel.InterpolateWind`, `WindModel.ShortestDegrees`:
  the heading and range clauses are promised for valid headings only. The source's
  `CardinalDegree` constructor always normalises, so every heading it sees is valid.
- `WindModel.InterpolateDirectionStart`, `WindModel.InterpolateDirectionEnd`: the end
  values are promised for a valid heading at that end only, for the same reason.
- `WindModel.WindAt`: validity is promised for tables of valid winds only.
- `Atmosphere.RegionPressure`, `Atmosphere.RegionDensity`: the start values hold given
  pow(1, x) = 1 and exp(0) = 1 (`StartPowers`), since `pow` is a parameter.
- `Integrator.IntegrateOverTime`, `Integrator.Iterate`: they iterate the corrected
  `Integrate`, not the source's roll/yaw-swapping step (see Findings). Entry k therefore
  differs from the source's whenever roll and yaw differ along the way.
- `Integrator.LevelStep`, `Integrator.LevelFlightKeepsAttitude`, `Integrator.LevelFlightFalls`,
  `Integrator.LevelFallAfterSteps`: these hold for the corrected step only. As written, the
  first step banks the aircraft to roll ψ (`Integrator.StillStepAsWrittenBanks`). Unless the
  yaw is 0, the attitude is then not kept, and w need not follow g·t.
- `Simulation.Loop`, `Simulation.Run`: the tick structure is the source's, including the
  early return. The step they take is the corrected `Integrate`, not the swapping one.
- `Simulation.HalfStepRunAsWritten`: "as written" refers to the early return of `loop`; the
  one step it takes is the corrected `Integrate`.
- Unused or draft code is not part of this model: `EarthModel.ts`, the abstract base
  classes, `Enviroment.ts` and `main.ts`.

## Findings

| source | as written | input that shows it | evidently intended | confidence | as-written member | corrected member |
|---|---|---|---|---|---|---|
| src/support/temperature/Fahrenheit.ts:14-16 | `toKelvin` adds 459.67, which gives degrees Rankine | 32 °F gives 491.67 instead of 273.15 K | (v − 32)·5/9 + 273.15, i.e. `toCelsius().toKelvin()` | not executed | Temperatures.FahrenheitToKelvinAsWrittenIsRankine | Temperatures.ToKelvin |
| src/support/atmosphere/StandardAtmosphere1976.ts:26-34 | Each region ends one metre before the next starts, and `getRegion` throws in between | 10999.5 m (or 84851.5 m) throws "Altitude is outside the range of the standard atmosphere" | Each region extends up to the next region's start | not executed | Atmosphere.GapAltitudesRejected | Atmosphere.RegionAtTotal |
| src/support/sim/Simulation.ts:48-50 | `loop` returns before integrating on every non-reporting tick, so the state advances only on reporting ticks | dt = 0.5 s, interval 1 s, total 1 s: the report at 1 s carries the state after 0.5 s | Integrate on every tick before the total time, reporting only on reporting ticks | not executed | Simulation.HalfStepRunAsWritten | Simulation.EveryTickFollowsIntegrator |
| src/support/numerical/Integrator.ts:56-60 | `integrate` passes the new angles as (φ, θ, ψ) to the `EulerAngles` constructor, which takes (ψ, θ, φ) (src/support/attitude/EulerAngles.ts:8-12) | a step with dt = 0 from roll 0.1 and yaw 0.2 returns roll 0.2 and yaw 0.1 | each angle stays in its own slot: φ + φ̇·dt, θ + θ̇·dt, ψ + ψ̇·dt | not executed | Integrator.ZeroStepSwapsRollAndYaw | Integrator.Integrate |
