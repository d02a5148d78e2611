/** Weekly average temperature, structured version
    (semana03/clima_tradicional.py).  Keyboard input is a sequence of
    entries, each either a number or text `float` rejects. */
module ClimaTradicional {
  import opened Wrappers

  /** Days of the week, one reading each. */
  const DIAS: seq<string> := ["Lunes", "Martes", "Miércoles", "Jueves", "Viernes", "Sábado", "Domingo"]

  /** One line typed by the user: a number, or something that is not. */
  datatype Entrada = Numero(x: real) | Invalida

  /** Input ended before every day had a reading. */
  datatype ErrorEntrada = FinDeEntrada

  /** The numbers among the entries, in order: what the retry loops keep. */
  function Validas(entradas: seq<Entrada>): (r: seq<real>)
    ensures |r| <= |entradas|
  {
    if entradas == [] then []
    else
      var resto := Validas(entradas[..|entradas| - 1]);
      match entradas[|entradas| - 1]
      case Numero(x) => resto + [x]
      case Invalida => resto
  }

  lemma ValidasPaso(entradas: seq<Entrada>, k: nat)
    requires k < |entradas|
    ensures entradas[k].Numero? ==> Validas(entradas[..k + 1]) == Validas(entradas[..k]) + [entradas[k].x]
    ensures entradas[k].Invalida? ==> Validas(entradas[..k + 1]) == Validas(entradas[..k])
  {
    assert entradas[..k + 1][..k] == entradas[..k];
  }

  /** The readings of a whole week: one per day, for as long as the input
      lasts. */
  function Semana(entradas: seq<Entrada>): (r: Result<seq<real>, ErrorEntrada>)
    ensures r.Success? <==> |Validas(entradas)| >= |DIAS|
    ensures r.Success? ==> |r.value| == |DIAS| && r.value == Validas(entradas)[..|DIAS|]
  {
    if |Validas(entradas)| >= |DIAS| then Success(Validas(entradas)[..|DIAS|]) else Failure(FinDeEntrada)
  }

  /** `ingresar_temperaturas`: for each day, read entries until one is a
      number and keep it. */
  method IngresarTemperaturas(entradas: seq<Entrada>) returns (r: Result<seq<real>, ErrorEntrada>)
    ensures r == Semana(entradas)
  {
    var temperaturas: seq<real> := [];
    var k := 0;
    var d := 0;
    assert entradas[..0] == [];
    while d < |DIAS|
      invariant 0 <= d <= |DIAS| && 0 <= k <= |entradas|
      invariant temperaturas == Validas(entradas[..k]) && |temperaturas| == d
    {
      // the retry loop of one day
      while k < |entradas| && entradas[k].Invalida?
        invariant 0 <= k <= |entradas|
        invariant temperaturas == Validas(entradas[..k])
      {
        ValidasPaso(entradas, k);
        k := k + 1;
      }
      if k == |entradas| {
        assert entradas[..k] == entradas;
        return Failure(FinDeEntrada);
      }
      ValidasPaso(entradas, k);
      temperaturas := temperaturas + [entradas[k].x];
      k := k + 1;
      d := d + 1;
    }
    PrefijoDeValidas(entradas, k);
    assert Validas(entradas)[..|DIAS|] == temperaturas;
    return Success(temperaturas);
  }

  /** The numbers of a prefix of the input are a prefix of its numbers. */
  lemma {:induction false} PrefijoDeValidas(entradas: seq<Entrada>, k: nat)
    requires k <= |entradas|
    ensures Validas(entradas[..k]) <= Validas(entradas)
    decreases |entradas| - k
  {
    if k < |entradas| {
      PrefijoDeValidas(entradas, k + 1);
      ValidasPaso(entradas, k);
    } else {
      assert entradas[..k] == entradas;
    }
  }

  function Suma(s: seq<real>): real
  {
    if s == [] then 0.0 else Suma(s[..|s| - 1]) + s[|s| - 1]
  }

  /** `x` added `k` times: `k * x` without a product. */
  function Veces(k: nat, x: real): real
  {
    if k == 0 then 0.0 else Veces(k - 1, x) + x
  }

  lemma {:induction false} VecesProducto(k: nat, x: real)
    ensures Veces(k, x) == k as real * x
  {
    if k > 0 {
      VecesProducto(k - 1, x);
    }
  }

  /** Adding a larger number the same positive number of times gives more. */
  lemma {:induction false} VecesCreciente(k: nat, x: real, y: real)
    requires k > 0 && x < y
    ensures Veces(k, x) < Veces(k, y)
  {
    if k > 1 {
      VecesCreciente(k - 1, x, y);
    }
  }

  /** `calcular_promedio`: 0.0 for no readings, otherwise sum / count, so the
      average added once per reading gives back the sum. */
  function CalcularPromedio(temperaturas: seq<real>): (r: real)
    ensures temperaturas == [] ==> r == 0.0
    ensures temperaturas != [] ==> Veces(|temperaturas|, r) == Suma(temperaturas)
  {
    if temperaturas == [] then 0.0
    else
      var n := |temperaturas| as real;
      VecesProducto(|temperaturas|, Suma(temperaturas) / n);
      Suma(temperaturas) / n
  }

  function Minimo(s: seq<real>): (m: real)
    requires s != []
    ensures m in s && forall i | 0 <= i < |s| :: m <= s[i]
  {
    if |s| == 1 then s[0]
    else
      var resto := Minimo(s[..|s| - 1]);
      assert forall i | 0 <= i < |s| - 1 :: s[..|s| - 1][i] == s[i];
      if s[|s| - 1] < resto then s[|s| - 1] else resto
  }

  function Maximo(s: seq<real>): (m: real)
    requires s != []
    ensures m in s && forall i | 0 <= i < |s| :: s[i] <= m
  {
    if |s| == 1 then s[0]
    else
      var resto := Maximo(s[..|s| - 1]);
      assert forall i | 0 <= i < |s| - 1 :: s[..|s| - 1][i] == s[i];
      if s[|s| - 1] > resto then s[|s| - 1] else resto
  }

  /** The sum lies between a lower and an upper bound of the readings, each
      added once per reading. */
  lemma {:induction false} SumaAcotada(s: seq<real>, lo: real, hi: real)
    requires forall i | 0 <= i < |s| :: lo <= s[i] <= hi
    ensures Veces(|s|, lo) <= Suma(s) <= Veces(|s|, hi)
  {
    if s != [] {
      SumaAcotada(s[..|s| - 1], lo, hi);
    }
  }

  /** The average of a non-empty week lies between its lowest and highest
      reading. */
  lemma PromedioEntreExtremos(s: seq<real>)
    requires s != []
    ensures Minimo(s) <= CalcularPromedio(s) <= Maximo(s)
  {
    var lo, hi, p := Minimo(s), Maximo(s), CalcularPromedio(s);
    SumaAcotada(s, lo, hi);
    if p < lo {
      VecesCreciente(|s|, p, lo);
    }
    if hi < p {
      VecesCreciente(|s|, hi, p);
    }
  }

  /** Equal readings average to that reading. */
  lemma PromedioConstante(s: seq<real>, c: real)
    requires s != [] && forall i | 0 <= i < |s| :: s[i] == c
    ensures CalcularPromedio(s) == c
  {
    var p := CalcularPromedio(s);
    SumaAcotada(s, c, c);
    if p < c {
      VecesCreciente(|s|, p, c);
    } else if c < p {
      VecesCreciente(|s|, c, p);
    }
  }
}
