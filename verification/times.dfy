/** Time value types (src/support/time): seconds, minutes and hours. */
module Times {

  datatype Time =
    | Seconds(value: real)
    | Minutes(value: real)
    | Hours(value: real)

  function ToSeconds(t: Time): (r: Time)
    ensures r.Seconds?
    ensures t.Seconds? ==> r == t
    ensures t.Minutes? ==> r.value / 60.0 == t.value
    ensures t.Hours? ==> r.value / 3600.0 == t.value
  {
    match t
    case Seconds(_) => t
    case Minutes(v) => Seconds(v * 60.0)
    case Hours(v) => Seconds(v * 3600.0)
  }

  function ToMinutes(t: Time): (r: Time)
    ensures r.Minutes?
    ensures t.Minutes? ==> r == t
    ensures t.Seconds? ==> r.value * 60.0 == t.value
    ensures t.Hours? ==> r.value / 60.0 == t.value
  {
    match t
    case Seconds(v) => Minutes(v / 60.0)
    case Minutes(_) => t
    case Hours(v) => Minutes(v * 60.0)
  }

  function ToHours(t: Time): (r: Time)
    ensures r.Hours?
    ensures t.Hours? ==> r == t
    ensures t.Seconds? ==> r.value * 3600.0 == t.value
    ensures t.Minutes? ==> r.value * 60.0 == t.value
  {
    match t
    case Seconds(v) => Hours(v / 3600.0)
    case Minutes(v) => Hours(v / 60.0)
    case Hours(_) => t
  }

  /** The three units are exact rescalings of one another: every path between two units agrees. */
  lemma ConversionsCommute(t: Time)
    ensures ToSeconds(ToMinutes(t)) == ToSeconds(t)
    ensures ToSeconds(ToHours(t)) == ToSeconds(t)
    ensures ToMinutes(ToHours(t)) == ToMinutes(t)
    ensures ToMinutes(ToSeconds(t)) == ToMinutes(t)
    ensures ToHours(ToSeconds(t)) == ToHours(t)
    ensures ToHours(ToMinutes(t)) == ToHours(t)
  {
  }
}
