/** Weekly average temperature, object version (semana03/clima_poo.py).
    The subclass with an alert threshold is modelled by composition: it
    holds the weekly record it extends and delegates to it. */
module ClimaPoo {
  import opened Wrappers
  import opened ClimaTradicional

  /** Default alert threshold, in degrees Celsius. */
  const UMBRAL_POR_DEFECTO: real := 30.0

  /** `any(t >= umbral for t in temperaturas)`. */
  function AlgunaAlMenos(temperaturas: seq<real>, umbral: real): (r: bool)
    ensures r <==> exists i | 0 <= i < |temperaturas| :: temperaturas[i] >= umbral
  {
    if temperaturas == [] then false
    else
      assert forall i | 0 < i < |temperaturas| :: temperaturas[i] == temperaturas[1..][i - 1];
      temperaturas[0] >= umbral || AlgunaAlMenos(temperaturas[1..], umbral)
  }

  class ClimaSemanal {
    var temperaturas: seq<real>

    /** A new record has no readings. */
    constructor ()
      ensures temperaturas == []
    {
      temperaturas := [];
    }

    /** `ingresar_temperaturas`: for each day, read entries until one is a
        number and append it.  When the input runs out, the days already
        read stay appended. */
    method IngresarTemperaturas(entradas: seq<Entrada>) returns (r: Outcome<ErrorEntrada>)
      modifies this
      ensures r.Pass? <==> |Validas(entradas)| >= |DIAS|
      ensures r.Pass? ==> temperaturas == old(temperaturas) + Validas(entradas)[..|DIAS|]
      ensures r.Fail? ==> r.error == FinDeEntrada && temperaturas == old(temperaturas) + Validas(entradas)
    {
      var k := 0;
      var d := 0;
      assert entradas[..0] == [];
      while d < |DIAS|
        invariant 0 <= d <= |DIAS| && 0 <= k <= |entradas|
        invariant temperaturas == old(temperaturas) + Validas(entradas[..k])
        invariant |Validas(entradas[..k])| == d
      {
        while k < |entradas| && entradas[k].Invalida?
          invariant 0 <= k <= |entradas|
          invariant temperaturas == old(temperaturas) + Validas(entradas[..k])
          invariant |Validas(entradas[..k])| == d
        {
          ValidasPaso(entradas, k);
          k := k + 1;
        }
        if k == |entradas| {
          assert entradas[..k] == entradas;
          return Fail(FinDeEntrada);
        }
        ValidasPaso(entradas, k);
        temperaturas := temperaturas + [entradas[k].x];
        k := k + 1;
        d := d + 1;
      }
      PrefijoDeValidas(entradas, k);
      assert Validas(entradas)[..|DIAS|] == Validas(entradas[..k]);
      return Pass;
    }

    /** `obtener_promedio`: 0.0 without readings, otherwise the mean, which
        lies between the lowest and highest reading. */
    function ObtenerPromedio(): (r: real)
      reads this
      ensures temperaturas == [] ==> r == 0.0
      ensures temperaturas != [] ==> Minimo(temperaturas) <= r <= Maximo(temperaturas)
      ensures r == CalcularPromedio(temperaturas)
    {
      if temperaturas != [] then
        PromedioEntreExtremos(temperaturas);
        CalcularPromedio(temperaturas)
      else 0.0
    }
  }

  class ClimaSemanalConUmbral {
    const clima: ClimaSemanal
    const umbral: real

    /** `ClimaSemanalConUmbral(umbral=30.0)`: no readings yet. */
    constructor (umbral: real := UMBRAL_POR_DEFECTO)
      ensures this.umbral == umbral && fresh(clima) && clima.temperaturas == []
    {
      clima := new ClimaSemanal();
      this.umbral := umbral;
    }

    /** The inherited `ingresar_temperaturas`. */
    method IngresarTemperaturas(entradas: seq<Entrada>) returns (r: Outcome<ErrorEntrada>)
      modifies clima
      ensures r.Pass? <==> |Validas(entradas)| >= |DIAS|
      ensures r.Pass? ==> clima.temperaturas == old(clima.temperaturas) + Validas(entradas)[..|DIAS|]
      ensures r.Fail? ==> clima.temperaturas == old(clima.temperaturas) + Validas(entradas)
    {
      r := clima.IngresarTemperaturas(entradas);
    }

    /** `hay_temperatura_alta`: some reading reaches the threshold. */
    function HayTemperaturaAlta(): (r: bool)
      reads this, clima
      ensures r <==> exists i | 0 <= i < |clima.temperaturas| :: clima.temperaturas[i] >= umbral
    {
      AlgunaAlMenos(clima.temperaturas, umbral)
    }
  }

  /** Whether some reading reaches the threshold is decided by the highest
      reading. */
  lemma AltaSiMaximoAlcanza(temperaturas: seq<real>, umbral: real)
    requires temperaturas != []
    ensures AlgunaAlMenos(temperaturas, umbral) <==> Maximo(temperaturas) >= umbral
  {
  }
}
