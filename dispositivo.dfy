/** Medical device (semana02/tecnicas-programacion-biomedica/abstraccion.py):
    a device that is either off or on. */
module Dispositivo {

  const APAGADO: string := "apagado"
  const ENCENDIDO: string := "encendido"

  predicate EstadoConocido(e: string)
  {
    e == APAGADO || e == ENCENDIDO
  }

  /** The state after `encender`: an off device comes on; any other state
      stays. */
  function TrasEncender(e: string): (r: string)
    ensures EstadoConocido(e) ==> r == ENCENDIDO
    ensures e != APAGADO ==> r == e
  {
    if e == APAGADO then ENCENDIDO else e
  }

  /** The state after `apagar`: a device that is on goes off; any other state
      stays. */
  function TrasApagar(e: string): (r: string)
    ensures EstadoConocido(e) ==> r == APAGADO
    ensures e != ENCENDIDO ==> r == e
  {
    if e == ENCENDIDO then APAGADO else e
  }

  /** Switching on then off brings an off device back to off, and each
      transition is idempotent. */
  lemma EncenderApagar(e: string)
    ensures TrasApagar(TrasEncender(APAGADO)) == APAGADO
    ensures TrasEncender(TrasEncender(e)) == TrasEncender(e)
    ensures TrasApagar(TrasApagar(e)) == TrasApagar(e)
    ensures EstadoConocido(e) ==> EstadoConocido(TrasEncender(e)) && EstadoConocido(TrasApagar(e))
  {
  }

  class DispositivoMedico {
    const idEquipo: string
    const tipo: string
    var estado: string

    ghost predicate Valid()
      reads this
    {
      EstadoConocido(estado)
    }

    /** A new device is off. */
    constructor (idEquipo: string, tipo: string)
      ensures Valid()
      ensures this.idEquipo == idEquipo && this.tipo == tipo && estado == APAGADO
    {
      this.idEquipo := idEquipo;
      this.tipo := tipo;
      estado := APAGADO;
    }

    /** `encender`: returns whether the device was switched on now (the
        original returns a message saying which). */
    method Encender() returns (cambio: bool)
      requires Valid()
      modifies this
      ensures Valid()
      ensures estado == TrasEncender(old(estado)) && estado == ENCENDIDO
      ensures cambio <==> old(estado) == APAGADO
    {
      cambio := estado == APAGADO;
      if cambio {
        estado := ENCENDIDO;
      }
    }

    /** `apagar`: returns whether the device was switched off now. */
    method Apagar() returns (cambio: bool)
      requires Valid()
      modifies this
      ensures Valid()
      ensures estado == TrasApagar(old(estado)) && estado == APAGADO
      ensures cambio <==> old(estado) == ENCENDIDO
    {
      cambio := estado == ENCENDIDO;
      if cambio {
        estado := APAGADO;
      }
    }
  }
}
