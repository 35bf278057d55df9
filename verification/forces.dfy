/** Force value types (src/support/force): newtons and pounds-force. */
module Forces {

  datatype Force =
    | Newtons(value: real)
    | PoundForce(value: real)

  function ToNewtons(f: Force): (r: Force)
    ensures r.Newtons?
    ensures f.Newtons? ==> r == f
    ensures f.PoundForce? ==> r.value / 4.44822 == f.value
  {
    match f
    case Newtons(_) => f
    case PoundForce(v) => Newtons(v * 4.44822)
  }

  function ToPoundForce(f: Force): (r: Force)
    ensures r.PoundForce?
    ensures f.PoundForce? ==> r == f
    ensures f.Newtons? ==> r.value * 4.44822 == f.value
  {
    match f
    case Newtons(v) => PoundForce(v / 4.44822)
    case PoundForce(_) => f
  }

  /** Since one unit divides by the factor the other multiplies by, the round trips are exact. */
  lemma RoundTrips(f: Force)
    ensures ToNewtons(ToPoundForce(f)) == ToNewtons(f)
    ensures ToPoundForce(ToNewtons(f)) == ToPoundForce(f)
  {
  }
}
