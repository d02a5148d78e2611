/** Temperature conversion (semana05/conversion_unidades.py), over exact
    reals. */
module Conversion {

  /** Absolute zero in degrees Celsius. */
  const CERO_ABSOLUTO_CELSIUS: real := -273.15

  /** Only −40 is the same number in both scales; above it the Fahrenheit
      number is the larger. */
  function CelsiusAFahrenheit(celsius: real): (f: real)
    ensures f == celsius <==> celsius == -40.0
    ensures f > celsius <==> celsius > -40.0
  {
    (celsius * 9.0 / 5.0) + 32.0
  }

  /** Kelvin is Celsius shifted so that absolute zero is 0: it is always
      the larger number, by 273.15. */
  function CelsiusAKelvin(celsius: real): (k: real)
    ensures k > celsius && k - celsius == 273.15
    ensures k >= 0.0 <==> celsius >= CERO_ABSOLUTO_CELSIUS
  {
    celsius - CERO_ABSOLUTO_CELSIUS
  }

  /** At or above absolute zero, which is −459.67 °F. */
  predicate EsTemperaturaFisicamentePosible(celsius: real)
    ensures EsTemperaturaFisicamentePosible(celsius) <==> CelsiusAFahrenheit(celsius) >= -459.67
  {
    celsius >= CERO_ABSOLUTO_CELSIUS
  }

  /** A temperature is possible exactly when its Kelvin value is not
      negative. */
  lemma PosibleSiKelvinNoNegativo(celsius: real)
    ensures EsTemperaturaFisicamentePosible(celsius) <==> CelsiusAKelvin(celsius) >= 0.0
  {
  }

  /** Both conversions are strictly increasing. */
  lemma ConversionesCrecientes(a: real, b: real)
    requires a < b
    ensures CelsiusAFahrenheit(a) < CelsiusAFahrenheit(b)
    ensures CelsiusAKelvin(a) < CelsiusAKelvin(b)
  {
  }

  /** The two scales agree with each other: °F = K × 9/5 − 459.67. */
  lemma FahrenheitDesdeKelvin(celsius: real)
    ensures CelsiusAFahrenheit(celsius) == CelsiusAKelvin(celsius) * 9.0 / 5.0 - 459.67
  {
  }

  /** Fixed points of the scales: water freezes at 32 °F and 273.15 K and
      boils at 212 °F; absolute zero is 0 K and −459.67 °F; −40 is the same
      in Celsius and Fahrenheit. */
  lemma PuntosDeReferencia()
    ensures CelsiusAFahrenheit(0.0) == 32.0 && CelsiusAKelvin(0.0) == 273.15
    ensures CelsiusAFahrenheit(100.0) == 212.0
    ensures CelsiusAKelvin(CERO_ABSOLUTO_CELSIUS) == 0.0
    ensures CelsiusAFahrenheit(CERO_ABSOLUTO_CELSIUS) == -459.67
    ensures CelsiusAFahrenheit(-40.0) == -40.0
  {
  }
}
