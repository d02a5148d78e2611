/** Python's built-in `round` on the exact value of its argument: `round(x)`
    gives the nearest integer and `round(x, d)` the nearest multiple of
    10^-d, a tie going to the even neighbour in both cases. */
module Redondeo {

  /** `round(x)`: the integer nearest to `x`, ties to the even one. */
  function RedondearEntero(x: real): (n: int)
    ensures -0.5 <= x - n as real <= 0.5
    ensures (x - n as real == 0.5 || n as real - x == 0.5) ==> n % 2 == 0
  {
    var f := x.Floor;
    var d := x - f as real;
    if d < 0.5 then f
    else if d > 0.5 then f + 1
    else if f % 2 == 0 then f
    else f + 1
  }

  /** An integer rounds to itself. */
  lemma RedondearEnteroFijo(k: int)
    ensures RedondearEntero(k as real) == k
  {
  }

  /** Rounding never reverses the order of two values. */
  lemma RedondearEnteroMonotono(x: real, y: real)
    requires x <= y
    ensures RedondearEntero(x) <= RedondearEntero(y)
  {
  }

  /** A value between two integers rounds to an integer between them. */
  lemma RedondearEnteroEntre(x: real, lo: int, hi: int)
    requires lo as real <= x <= hi as real
    ensures lo <= RedondearEntero(x) <= hi
  {
    RedondearEnteroMonotono(lo as real, x);
    RedondearEnteroMonotono(x, hi as real);
    RedondearEnteroFijo(lo);
    RedondearEnteroFijo(hi);
  }

  /** `round(x, 2)`: the nearest multiple of 0.01, used for prices and fees. */
  function RedondearCentesimas(x: real): real
  {
    RedondearEntero(x * 100.0) as real / 100.0
  }

  /** `round(x, 1)`: the nearest multiple of 0.1, used for percentages. */
  function RedondearDecimas(x: real): real
  {
    RedondearEntero(x * 10.0) as real / 10.0
  }

  /** Rounding a price twice is rounding it once: a stored price is already a
      whole number of cents. */
  lemma RedondearCentesimasIdempotente(x: real)
    ensures RedondearCentesimas(RedondearCentesimas(x)) == RedondearCentesimas(x)
  {
    var n := RedondearEntero(x * 100.0);
    assert RedondearCentesimas(x) * 100.0 == n as real;
    RedondearEnteroFijo(n);
  }

  /** The rounded price is within half a cent of the input. */
  lemma RedondearCentesimasCerca(x: real)
    ensures -0.005 <= RedondearCentesimas(x) - x <= 0.005
  {
  }

  lemma RedondearCentesimasMonotono(x: real, y: real)
    requires x <= y
    ensures RedondearCentesimas(x) <= RedondearCentesimas(y)
  {
    RedondearEnteroMonotono(x * 100.0, y * 100.0);
  }

  /** A non-negative amount rounds to a non-negative amount. */
  lemma RedondearCentesimasNoNegativo(x: real)
    requires 0.0 <= x
    ensures 0.0 <= RedondearCentesimas(x)
  {
    RedondearEnteroMonotono(0.0, x * 100.0);
    RedondearEnteroFijo(0);
  }

  lemma RedondearDecimasMonotono(x: real, y: real)
    requires x <= y
    ensures RedondearDecimas(x) <= RedondearDecimas(y)
  {
    RedondearEnteroMonotono(x * 10.0, y * 10.0);
  }

  /** A whole number of tenths is left as it is (so 0.0 and 100.0 are). */
  lemma RedondearDecimasMultiplo(k: int)
    ensures RedondearDecimas(k as real / 10.0) == k as real / 10.0
  {
    assert (k as real / 10.0) * 10.0 == k as real;
    RedondearEnteroFijo(k);
  }

  /** The worked example of the inventory: a price of 799.999 is stored as 800.0. */
  lemma RedondearEjemploPrecio()
    ensures RedondearCentesimas(799.999) == 800.0
  {
    assert 799.999 * 100.0 == 79999.9;
  }
}
