/**
 * Temperature value types (src/support/temperature): Kelvin, Celsius and
 * Fahrenheit. The Fahrenheit-to-Kelvin formula of the source adds 459.67,
 * which yields degrees Rankine; `FahrenheitToKelvinAsWritten` keeps that
 * formula and `ToKelvin` uses the intended (v + 459.67) * 5 / 9.
 */
module Temperatures {

  datatype Temperature =
    | Kelvin(value: real)
    | Celsius(value: real)
    | Fahrenheit(value: real)

  function ToCelsius(t: Temperature): (r: Temperature)
    ensures r.Celsius?
    ensures t.Celsius? ==> r == t
    ensures t.Kelvin? ==> r.value + 273.15 == t.value
    ensures t.Fahrenheit? ==> r.value * 1.8 + 32.0 == t.value
  {
    match t
    case Kelvin(v) => Celsius(v - 273.15)
    case Celsius(_) => t
    case Fahrenheit(v) => Celsius((v - 32.0) * 5.0 / 9.0)
  }

  function ToFahrenheit(t: Temperature): (r: Temperature)
    ensures r.Fahrenheit?
    ensures t.Fahrenheit? ==> r == t
    ensures !t.Fahrenheit? ==> r.value == ToCelsius(t).value * 1.8 + 32.0
  {
    match t
    case Kelvin(v) => Fahrenheit(v * 1.8 - 459.67)
    case Celsius(v) => Fahrenheit(v * 9.0 / 5.0 + 32.0)
    case Fahrenheit(_) => t
  }

  /** Kelvin conversion with the intended Fahrenheit formula. */
  function ToKelvin(t: Temperature): (r: Temperature)
    ensures r.Kelvin?
    ensures t.Kelvin? ==> r == t
    ensures r.value == ToCelsius(t).value + 273.15
  {
    match t
    case Kelvin(_) => t
    case Celsius(v) => Kelvin(v + 273.15)
    case Fahrenheit(v) => Kelvin((v + 459.67) * 5.0 / 9.0)
  }

  /**
   * Fahrenheit.toKelvin exactly as the source computes it: the reading is
   * the absolute temperature on the Rankine scale, 1.8 times the kelvin value.
   */
  function FahrenheitToKelvinAsWritten(v: real): (r: Temperature)
    ensures r.Kelvin?
    ensures r.value == 1.8 * ToKelvin(Fahrenheit(v)).value
  {
    Kelvin(v + 459.67)
  }

  /** The formula as written sends freezing water (32 F) to 491.67 K instead of 273.15 K. */
  lemma FahrenheitToKelvinAsWrittenIsRankine()
    ensures ToKelvin(ToCelsius(Fahrenheit(32.0))) == Kelvin(273.15)
    ensures FahrenheitToKelvinAsWritten(32.0) == Kelvin(491.67)
    ensures FahrenheitToKelvinAsWritten(32.0) != ToKelvin(Fahrenheit(32.0))
  {
  }

  /** The as-written formula agrees with the Celsius route only at -459.67 F (absolute zero). */
  lemma FahrenheitToKelvinAsWrittenAgreesOnlyAtAbsoluteZero(v: real)
    ensures (FahrenheitToKelvinAsWritten(v) == ToKelvin(Fahrenheit(v))) <==> v == -459.67
  {
  }

  /** Every unit round-trips through every other unit exactly (with the intended Kelvin formula). */
  lemma RoundTrips(t: Temperature)
    ensures ToKelvin(ToCelsius(t)) == ToKelvin(t)
    ensures ToCelsius(ToKelvin(t)) == ToCelsius(t)
    ensures ToCelsius(ToFahrenheit(t)) == ToCelsius(t)
    ensures ToKelvin(ToFahrenheit(t)) == ToKelvin(t)
    ensures ToFahrenheit(ToKelvin(t)) == ToFahrenheit(t)
  {
  }

  /** Absolute zero and the freezing point read the same in every unit. */
  lemma FixedPoints()
    ensures ToCelsius(Kelvin(0.0)) == Celsius(-273.15)
    ensures ToFahrenheit(Kelvin(0.0)) == Fahrenheit(-459.67)
    ensures ToFahrenheit(Celsius(0.0)) == Fahrenheit(32.0)
    ensures ToFahrenheit(Celsius(-40.0)) == Fahrenheit(-40.0)
  {
  }
}
