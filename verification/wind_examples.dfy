/**
 * Worked cases of the wind query, one per scenario of
 * src/support/wind/WindModel.test.ts, each derived from the model.
 */
module WindExamples {
  import opened Numerics
  import opened Lengths
  import opened Velocities
  import opened Cardinal
  import opened Winds
  import opened WindTable
  import opened WindModel

  function W(knots: real, heading: real): Wind {
    Wind(Knots(knots), CardinalDegree(heading))
  }

  /** The first sample added to an empty table is the whole table. */
  lemma AddAltitudeToEmpty(b: real, wb: Wind)
    ensures AddAltitude([], Meters(b), wb) == [Sample(b, wb)]
  {
    AddAltitudeIsSortedInsert([], Meters(b), wb);
  }

  /** A sample below the only stored one goes in front of it. */
  lemma AddAltitudeBelow(a: real, b: real, wa: Wind, wb: Wind)
    requires a < b
    ensures AddAltitude([Sample(b, wb)], Meters(a), wa) == [Sample(a, wa), Sample(b, wb)]
  {
    AddAltitudeIsSortedInsert([Sample(b, wb)], Meters(a), wa);
  }

  /** Samples added out of order end up sorted by altitude. */
  lemma AddAltitudeSorts(a: real, b: real, wa: Wind, wb: Wind)
    requires a < b
    ensures AddAltitude(AddAltitude([], Meters(b), wb), Meters(a), wa) == [Sample(a, wa), Sample(b, wb)]
  {
    AddAltitudeToEmpty(b, wb);
    AddAltitudeBelow(a, b, wa, wb);
  }

  /** Feet are stored as metres: 1000 ft becomes the key 304.8. */
  lemma AddAltitudeInFeet()
    ensures AddAltitude([], Feet(1000.0), W(10.0, 260.0)) == [Sample(304.8, W(10.0, 260.0))]
  {
    AddAltitudeIsSortedInsert([], Feet(1000.0), W(10.0, 260.0));
  }

  /** A single sample of 20 kt at 5000 m decays to 5.6 kt at 1000 m and 11 kt at 2500 m, keeping its heading. */
  lemma SingleSampleDecays()
    ensures WindAt([Sample(5000.0, W(20.0, 270.0))], 1000.0) == W(5.6, 270.0)
    ensures WindAt([Sample(5000.0, W(20.0, 270.0))], 2500.0) == W(11.0, 270.0)
  {
  }

  /** A negative query is raised to 0 m, where 20 kt at 1000 m has decayed to 2 kt. */
  lemma NegativeAltitudeClamped()
    ensures ClampedMeters(Meters(-100.0)) == 0.0
    ensures WindAt([Sample(1000.0, W(20.0, 270.0))], ClampedMeters(Meters(-100.0))) == W(2.0, 270.0)
  {
  }

  /** With samples at 1000 m and 5000 m: at or above 5000 m the top sample, at 500 m the bottom one decayed to 5.5 kt. */
  lemma TwoSamplesOutside()
    ensures WindAt([Sample(1000.0, W(10.0, 260.0)), Sample(5000.0, W(15.0, 270.0))], 10000.0) == W(15.0, 270.0)
    ensures WindAt([Sample(1000.0, W(10.0, 260.0)), Sample(5000.0, W(15.0, 270.0))], 5000.0) == W(15.0, 270.0)
    ensures WindAt([Sample(1000.0, W(10.0, 260.0)), Sample(5000.0, W(15.0, 270.0))], 500.0) == W(5.5, 260.0)
  {
  }

  /** Interpolation at the midpoint of [Sample(a, w1), Sample(b, w2)] for the test's tables. */
  lemma MidpointRatio(t: seq<Sample>)
    requires |t| == 2 && t[0].altitude == 1000.0 && t[1].altitude == 3000.0
    ensures Sorted(t) && QueryDefined(t, 2000.0)
    ensures WindAt(t, 2000.0) == InterpolateWind(t[0].wind, t[1].wind, 0.5)
  {
    assert Sorted(t);
    WindAtBracket(t, 2000.0, 0);
    assert (2000.0 - t[0].altitude) / (t[1].altitude - t[0].altitude) == 0.5;
  }

  /** Halfway between two headings at most half a turn apart, clockwise, is their mean. */
  lemma HalfwayHeading(h1: real, h2: real)
    requires 1.0 <= h1 <= h2 < 361.0 && h2 - h1 <= 180.0
    ensures InterpolateDirection(CardinalDegree(h1), CardinalDegree(h2), 0.5) == CardinalDegree((h1 + h2) / 2.0)
  {
    var rad1 := h1 * PI / 180.0;
    var rad2 := h2 * PI / 180.0;
    assert rad2 - rad1 == (h2 - h1) * PI / 180.0;
    assert (rad1 + (rad2 - rad1) * 0.5) * 180.0 / PI == (h1 + h2) / 2.0;
    NormalizeInRange((h1 + h2) / 2.0);
  }

  /** Halfway between 10 kt from 260 and 20 kt from 280 is 15 kt from 270. */
  lemma InterpolatesMidpoint()
    ensures WindAt([Sample(1000.0, W(10.0, 260.0)), Sample(3000.0, W(20.0, 280.0))], 2000.0) == W(15.0, 270.0)
  {
    MidpointRatio([Sample(1000.0, W(10.0, 260.0)), Sample(3000.0, W(20.0, 280.0))]);
    HalfwayHeading(260.0, 280.0);
  }

  /** Headings interpolate the short way through north: 350 to 10 and 10 to 350 both pass 360 halfway. */
  lemma InterpolatesThroughNorth()
    ensures WindAt([Sample(1000.0, W(10.0, 350.0)), Sample(3000.0, W(20.0, 10.0))], 2000.0) == W(15.0, 360.0)
    ensures WindAt([Sample(1000.0, W(10.0, 10.0)), Sample(3000.0, W(20.0, 350.0))], 2000.0) == W(15.0, 360.0)
  {
    MidpointRatio([Sample(1000.0, W(10.0, 350.0)), Sample(3000.0, W(20.0, 10.0))]);
    var d1 := 10.0 * PI / 180.0 - 350.0 * PI / 180.0;
    assert WrapDown(d1) == d1;
    assert WrapUp(d1) == d1 + 2.0 * PI;
    assert (350.0 * PI / 180.0 + (d1 + 2.0 * PI) * 0.5) * 180.0 / PI == 360.0;
    NormalizeInRange(360.0);
    MidpointRatio([Sample(1000.0, W(10.0, 10.0)), Sample(3000.0, W(20.0, 350.0))]);
    var d2 := 350.0 * PI / 180.0 - 10.0 * PI / 180.0;
    assert WrapDown(d2) == d2 - 2.0 * PI;
    assert WrapUp(d2 - 2.0 * PI) == d2 - 2.0 * PI;
    assert (10.0 * PI / 180.0 + (d2 - 2.0 * PI) * 0.5) * 180.0 / PI == 0.0;
    NormalizeExamples();
  }

  /** Halfway between two winds whose headings are at most half a turn apart, clockwise, is their mean. */
  lemma HalfwayWind(s1: real, h1: real, s2: real, h2: real)
    requires 1.0 <= h1 <= h2 < 361.0 && h2 - h1 <= 180.0
    ensures InterpolateWind(W(s1, h1), W(s2, h2), 0.5) == W((s1 + s2) / 2.0, (h1 + h2) / 2.0)
  {
    HalfwayHeading(h1, h2);
  }

  /** The three-sample table of the source's tests. */
  function ThreeSampleTable(): seq<Sample> {
    [Sample(1000.0, W(5.0, 260.0)), Sample(3000.0, W(10.0, 270.0)), Sample(5000.0, W(15.0, 280.0))]
  }

  /** The three-sample table is sorted. */
  lemma ThreeSampleTableSorted()
    ensures Sorted(ThreeSampleTable())
  {
    assert Sorted(ThreeSampleTable());
  }

  /** At 2000 m the three-sample query interpolates the first pair halfway. */
  lemma LowerPairHalfway()
    ensures Sorted(ThreeSampleTable())
    ensures WindAt(ThreeSampleTable(), 2000.0) == InterpolateWind(W(5.0, 260.0), W(10.0, 270.0), 0.5)
  {
    ThreeSampleTableSorted();
    WindAtBracket(ThreeSampleTable(), 2000.0, 0);
    assert (2000.0 - 1000.0) / (3000.0 - 1000.0) == 0.5;
  }

  /** At 4000 m the three-sample query interpolates the second pair halfway. */
  lemma UpperPairHalfway()
    ensures Sorted(ThreeSampleTable())
    ensures WindAt(ThreeSampleTable(), 4000.0) == InterpolateWind(W(10.0, 270.0), W(15.0, 280.0), 0.5)
  {
    ThreeSampleTableSorted();
    WindAtBracket(ThreeSampleTable(), 4000.0, 1);
    assert (4000.0 - 3000.0) / (5000.0 - 3000.0) == 0.5;
  }

  /** With three samples the search picks the right pair on each side of the middle one. */
  lemma ThreeSamples()
    ensures WindAt([Sample(1000.0, W(5.0, 260.0)), Sample(3000.0, W(10.0, 270.0)), Sample(5000.0, W(15.0, 280.0))], 2000.0)
         == W(7.5, 265.0)
    ensures WindAt([Sample(1000.0, W(5.0, 260.0)), Sample(3000.0, W(10.0, 270.0)), Sample(5000.0, W(15.0, 280.0))], 4000.0)
         == W(12.5, 275.0)
  {
    LowerPairHalfway();
    HalfwayWind(5.0, 260.0, 10.0, 270.0);
    UpperPairHalfway();
    HalfwayWind(10.0, 270.0, 15.0, 280.0);
  }

  /** The extremes of an empty table are 0 m; of samples at 1000 m and 5000 m, those two. */
  lemma MinMaxExamples()
    ensures GetMinAltitude([]) == Meters(0.0) && GetMaxAltitude([]) == Meters(0.0)
    ensures !HasWindData([])
    ensures GetMinAltitude([Sample(1000.0, W(10.0, 270.0)), Sample(5000.0, W(20.0, 280.0))]) == Meters(1000.0)
    ensures GetMaxAltitude([Sample(1000.0, W(10.0, 270.0)), Sample(5000.0, W(20.0, 280.0))]) == Meters(5000.0)
    ensures HasWindData([Sample(1000.0, W(10.0, 270.0))])
  {
    MinMaxOfSorted([Sample(1000.0, W(10.0, 270.0)), Sample(5000.0, W(20.0, 280.0))]);
  }
}
