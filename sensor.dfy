/** Pulse sensor (semana02/tecnicas-programacion-biomedica/encapsulacion.py):
    a heart-rate reading that can only be set while the sensor is connected
    and only to a clinically plausible value. */
module Sensor {
  import opened Wrappers
  import opened Redondeo

  /** Accepted heart-rate range, in beats per minute. */
  const FRECUENCIA_MINIMA: int := 30
  const FRECUENCIA_MAXIMA: int := 220

  /** What is assigned to the property: an `int` or `float`, or anything
      else (a string, `None`, ...). */
  datatype Valor = Numero(x: real) | NoNumerico

  datatype ErrorSensor = Desconectado | FueraDeRango

  /** The stored frequency: 0 (no reading) or a value in range. */
  predicate FrecuenciaPermitida(f: int)
  {
    f == 0 || FRECUENCIA_MINIMA <= f <= FRECUENCIA_MAXIMA
  }

  /** The value the setter stores, if it accepts `v`: a number in the range,
      rounded half to even. */
  function Aceptada(v: Valor): (r: Option<int>)
    ensures r.Some? <==> v.Numero? && FRECUENCIA_MINIMA as real <= v.x <= FRECUENCIA_MAXIMA as real
    ensures r.Some? ==> FRECUENCIA_MINIMA <= r.value <= FRECUENCIA_MAXIMA
    ensures r.Some? ==> -0.5 <= v.x - r.value as real <= 0.5
  {
    if v.Numero? && FRECUENCIA_MINIMA as real <= v.x <= FRECUENCIA_MAXIMA as real then
      RedondearEnteroEntre(v.x, FRECUENCIA_MINIMA, FRECUENCIA_MAXIMA);
      Some(RedondearEntero(v.x))
    else None
  }

  /** A whole number of beats in range is stored as it is; 72.5 is stored
      as 72 and 73.5 as 74. */
  lemma AceptadaEntera(k: int)
    requires FRECUENCIA_MINIMA <= k <= FRECUENCIA_MAXIMA
    ensures Aceptada(Numero(k as real)) == Some(k)
    ensures Aceptada(Numero(72.5)) == Some(72) && Aceptada(Numero(73.5)) == Some(74)
  {
    RedondearEnteroFijo(k);
  }

  class SensorPulso {
    const idSensor: string
    var frecuencia: int
    var conectado: bool

    /** The frequency stays in range, and is 0 while disconnected. */
    ghost predicate Valid()
      reads this
    {
      FrecuenciaPermitida(frecuencia) && (!conectado ==> frecuencia == 0)
    }

    /** A new sensor is disconnected with frequency 0. */
    constructor (idSensor: string)
      ensures Valid()
      ensures this.idSensor == idSensor && frecuencia == 0 && !conectado
    {
      this.idSensor := idSensor;
      frecuencia := 0;
      conectado := false;
    }

    /** The `frecuencia` getter: the stored value while connected. */
    function Frecuencia(): (r: Option<int>)
      reads this
      requires Valid()
      ensures r.None? <==> !conectado
      ensures r.Some? ==> FrecuenciaPermitida(r.value)
    {
      if conectado then Some(frecuencia) else None
    }

    /** The `frecuencia` setter: `PermissionError` while disconnected,
        `ValueError` for a value that is not a number in range; neither
        changes anything. */
    method SetFrecuencia(v: Valor) returns (r: Outcome<ErrorSensor>)
      requires Valid()
      modifies this
      ensures Valid()
      ensures conectado == old(conectado)
      ensures !old(conectado) ==> r == Fail(Desconectado) && frecuencia == old(frecuencia)
      ensures old(conectado) && Aceptada(v).None? ==> r == Fail(FueraDeRango) && frecuencia == old(frecuencia)
      ensures old(conectado) && Aceptada(v).Some? ==> r == Pass && frecuencia == Aceptada(v).value
      ensures r.Pass? ==> Frecuencia() == Aceptada(v)
    {
      if !conectado {
        return Fail(Desconectado);
      }
      var a := Aceptada(v);
      if a.None? {
        return Fail(FueraDeRango);
      }
      frecuencia := a.value;
      r := Pass;
    }

    /** `conectar`: only the flag changes. */
    method Conectar()
      requires Valid()
      modifies this
      ensures Valid()
      ensures conectado && frecuencia == old(frecuencia)
    {
      conectado := true;
    }

    /** `desconectar`: disconnected, and the reading reset to 0. */
    method Desconectar()
      requires Valid()
      modifies this
      ensures Valid()
      ensures !conectado && frecuencia == 0
      ensures Frecuencia().None?
    {
      conectado := false;
      frecuencia := 0;
    }
  }
}
