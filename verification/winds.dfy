/**
 * A wind sample (src/support/wind/Wind.ts): a speed in knots and the compass
 * heading it blows from. The constructor accepts either plain numbers or
 * already-built values.
 */
module Winds {
  import opened Velocities
  import opened Cardinal

  datatype Wind = Wind(speed: Velocity, direction: CardinalDegree)
  {
    /** Every constructed wind has a speed in knots and a normalised heading. */
    predicate Valid() {
      speed.Knots? && direction.Valid()
    }
  }

  /** The speed argument: a plain number of knots or a `Knots` value. */
  datatype SpeedArg = SpeedNumber(knots: real) | SpeedValue(velocity: Velocity)

  /** The direction argument: a plain number of degrees or a `CardinalDegree`. */
  datatype DirectionArg = DirectionNumber(degrees: real) | DirectionValue(heading: CardinalDegree)

  /** `new Wind(speed, direction)`: plain numbers are wrapped, typed values are kept as given. */
  function NewWind(speed: SpeedArg, direction: DirectionArg): (w: Wind)
    requires speed.SpeedValue? ==> speed.velocity.Knots?
    requires direction.DirectionValue? ==> direction.heading.Valid()
    ensures w.Valid()
    ensures w.speed.value == (if speed.SpeedNumber? then speed.knots else speed.velocity.value)
    ensures speed.SpeedValue? ==> w.speed == speed.velocity
    ensures direction.DirectionValue? ==> w.direction == direction.heading
    ensures direction.DirectionNumber? ==> SameHeading(w.direction.value, direction.degrees)
  {
    Wind(
      if speed.SpeedValue? then speed.velocity else Knots(speed.knots),
      if direction.DirectionValue? then direction.heading else NewCardinalDegree(direction.degrees))
  }

  /** Wrapping plain numbers gives the same wind as passing the values the numbers would build. */
  lemma NewWindNumbersOrValues(knots: real, degrees: real)
    ensures NewWind(SpeedNumber(knots), DirectionNumber(degrees))
         == NewWind(SpeedValue(Knots(knots)), DirectionValue(NewCardinalDegree(degrees)))
  {
  }
}
