/**
 * Compass headings (src/support/angles/CardinalDegree.ts). Every value is
 * normalised on construction into [1, 361): north is 360, never 0.
 */
module Cardinal {
  import opened Numerics
  import Angles

  /** A heading; `Valid` holds for every value built by `NewCardinalDegree`. */
  datatype CardinalDegree = CardinalDegree(value: real)
  {
    predicate Valid() {
      1.0 <= value < 361.0
    }
  }

  /** a and b name the same direction: they differ by a whole number of turns. */
  predicate SameHeading(a: real, b: real) {
    var q := (a - b) / 360.0;
    q == q.Floor as real
  }

  /** A difference of n whole turns names the same direction. */
  lemma WholeTurns(a: real, b: real, n: int)
    requires a - b == 360.0 * (n as real)
    ensures SameHeading(a, b)
  {
    assert (a - b) / 360.0 == n as real;
  }

  /** Two values naming the same direction differ by whole turns. */
  lemma TurnsBetween(a: real, b: real) returns (n: int)
    requires SameHeading(a, b)
    ensures a - b == 360.0 * (n as real)
  {
    n := ((a - b) / 360.0).Floor;
  }

  /** The source's normalisation: truncated remainder of (v - 1) by 360, plus 1, then lifted into range. */
  function Normalize(v: real): (h: real)
    ensures 1.0 <= h < 361.0
    ensures SameHeading(h, v)
  {
    var heading := Rem(v - 1.0, 360.0) + 1.0;
    RemTurn(v - 1.0);
    var n := Trunc((v - 1.0) / 360.0);
    WholeTurns(heading, v, -n);
    WholeTurns(heading + 360.0, v, 1 - n);
    if heading == 0.0 then 360.0
    else if heading < 1.0 then heading + 360.0
    else heading
  }

  /** `new CardinalDegree(value)`. */
  function NewCardinalDegree(v: real): (c: CardinalDegree)
    ensures c.Valid()
    ensures SameHeading(c.value, v)
  {
    CardinalDegree(Normalize(v))
  }

  /** `CardinalDegree.fromDegrees`. */
  function FromDegrees(d: Angles.Angle): (c: CardinalDegree)
    requires d.Degrees?
    ensures c.Valid()
    ensures SameHeading(c.value, d.value)
  {
    NewCardinalDegree(d.value)
  }

  /** `CardinalDegree.fromRadians`: the radian value is first turned into degrees. */
  function FromRadians(r: Angles.Angle): (c: CardinalDegree)
    requires r.Radians?
    ensures c.Valid()
    ensures SameHeading(c.value, Angles.ToDegrees(r).value)
  {
    NewCardinalDegree(r.value * 180.0 / PI)
  }

  /** `toDegrees`: the stored value as plain degrees. */
  function ToDegrees(c: CardinalDegree): (d: Angles.Angle)
    ensures d.Degrees? && d.value == c.value
  {
    Angles.Degrees(c.value)
  }

  /** `toRadians`. */
  function ToRadians(c: CardinalDegree): (r: Angles.Angle)
    ensures r == Angles.ToRadians(ToDegrees(c))
  {
    Angles.Radians(c.value * PI / 180.0)
  }

  /** [1, 361) holds exactly one value of each direction: normalisation picks it. */
  lemma NormalizeUnique(v: real, r: real)
    requires 1.0 <= r < 361.0 && SameHeading(r, v)
    ensures Normalize(v) == r
  {
    var h := Normalize(v);
    var a := TurnsBetween(h, v);
    var b := TurnsBetween(r, v);
    assert h - r == 360.0 * ((a - b) as real);
    assert a - b == 0;
  }

  /** Normalisation maps v to r if and only if r is the in-range value of v's direction. */
  lemma NormalizeCharacterised(v: real, r: real)
    ensures Normalize(v) == r <==> (1.0 <= r < 361.0 && SameHeading(r, v))
  {
    if 1.0 <= r < 361.0 && SameHeading(r, v) {
      NormalizeUnique(v, r);
    }
  }

  /** Values already in range are kept. */
  lemma NormalizeInRange(v: real)
    requires 1.0 <= v < 361.0
    ensures Normalize(v) == v
  {
    assert (v - v) / 360.0 == 0.0;
    NormalizeUnique(v, v);
  }

  /** Normalising twice is normalising once. */
  lemma NormalizeIdempotent(v: real)
    ensures Normalize(Normalize(v)) == Normalize(v)
  {
    NormalizeInRange(Normalize(v));
  }

  /** Adding a whole turn does not change the heading. */
  lemma NormalizePeriodic(v: real)
    ensures Normalize(v + 360.0) == Normalize(v)
    ensures Normalize(v - 360.0) == Normalize(v)
  {
    var h := Normalize(v);
    var k := TurnsBetween(h, v);
    WholeTurns(h, v + 360.0, k - 1);
    NormalizeUnique(v + 360.0, h);
    WholeTurns(h, v - 360.0, k + 1);
    NormalizeUnique(v - 360.0, h);
  }

  /** North is 360 whether given as 0, 360 or 720; -10 is 350. */
  lemma NormalizeExamples()
    ensures Normalize(0.0) == 360.0
    ensures Normalize(360.0) == 360.0
    ensures Normalize(720.0) == 360.0
    ensures Normalize(-10.0) == 350.0
    ensures Normalize(1.0) == 1.0
  {
    assert (360.0 - 0.0) / 360.0 == 1.0;
    NormalizeUnique(0.0, 360.0);
    NormalizeInRange(360.0);
    assert (360.0 - 720.0) / 360.0 == -1.0;
    NormalizeUnique(720.0, 360.0);
    assert (350.0 - -10.0) / 360.0 == 1.0;
    NormalizeUnique(-10.0, 350.0);
    NormalizeInRange(1.0);
  }
}
