/** Parking (semana04/EjemplosMundoReal_POO/2_sistema_parqueaderos.py).
    Spaces are kept in the parking's list in insertion order; vehicles are
    entries of a map keyed by plate, and a space refers to its vehicle by
    plate.  Time is an abstract number of hours passed in by the caller. */
module Parqueadero {
  import opened Wrappers
  import opened Redondeo

  type Placa = string

  /** The space type that accepts every vehicle. */
  const UNIVERSAL: string := "Universal"

  datatype Vehiculo = Vehiculo(tipo: string, horaEntrada: Option<real>)

  datatype Espacio = Espacio(numero: int, tipoPermitido: string, ocupado: bool, vehiculo: Option<Placa>)

  /** `Espacio(numero, tipo_permitido)`: a new space is free. */
  function NuevoEspacio(numero: int, tipoPermitido: string): (e: Espacio)
    ensures e.numero == numero && e.tipoPermitido == tipoPermitido
    ensures !e.ocupado && e.vehiculo.None?
  {
    Espacio(numero, tipoPermitido, false, None)
  }

  /** The test shared by `ocupar` and `buscar_espacio_disponible`: the space
      is free and takes every vehicle or vehicles of this type. */
  predicate Admite(e: Espacio, tipo: string)
    ensures e.ocupado ==> !Admite(e, tipo)
    ensures !e.ocupado && e.tipoPermitido == UNIVERSAL ==> Admite(e, tipo)
  {
    !e.ocupado && (e.tipoPermitido == UNIVERSAL || e.tipoPermitido == tipo)
  }

  /** The first space from `desde` on that admits the type. */
  function PrimerDisponible(espacios: seq<Espacio>, tipo: string, desde: nat): (r: Option<nat>)
    requires desde <= |espacios|
    ensures r.Some? ==> desde <= r.value < |espacios| && Admite(espacios[r.value], tipo)
    ensures r.Some? ==> forall j | desde <= j < r.value :: !Admite(espacios[j], tipo)
    ensures r.None? ==> forall j | desde <= j < |espacios| :: !Admite(espacios[j], tipo)
    decreases |espacios| - desde
  {
    if desde == |espacios| then None
    else if Admite(espacios[desde], tipo) then Some(desde)
    else PrimerDisponible(espacios, tipo, desde + 1)
  }

  /** `TARIFAS.get(tipo, 0)`, per hour. */
  function TarifaHora(tipo: string): (t: real)
    ensures t >= 0.0
  {
    if tipo == "Automóvil" then 2.0
    else if tipo == "Motocicleta" then 1.0
    else if tipo == "Bicicleta" then 0.5
    else 0.0
  }

  function Max(a: real, b: real): real
  {
    if a >= b then a else b
  }

  /** The amount for a stay of `horas` hours: the hourly rate times the
      hours, billing at least half an hour, rounded to cents. */
  function Importe(tipo: string, horas: real): (r: real)
    ensures r >= 0.0
    ensures horas <= 0.5 ==> r == RedondearCentesimas(TarifaHora(tipo) * 0.5)
  {
    RedondearCentesimasNoNegativo(TarifaHora(tipo) * Max(horas, 0.5));
    RedondearCentesimas(TarifaHora(tipo) * Max(horas, 0.5))
  }

  /** A longer stay never costs less. */
  lemma ImporteMonotono(tipo: string, h1: real, h2: real)
    requires h1 <= h2
    ensures Importe(tipo, h1) <= Importe(tipo, h2)
  {
    var a, b := Max(h1, 0.5), Max(h2, 0.5);
    var t := TarifaHora(tipo);
    assert t == 2.0 || t == 1.0 || t == 0.5 || t == 0.0;
    if t == 2.0 {
      RedondearCentesimasMonotono(2.0 * a, 2.0 * b);
    } else if t == 1.0 {
      RedondearCentesimasMonotono(1.0 * a, 1.0 * b);
    } else if t == 0.5 {
      RedondearCentesimasMonotono(0.5 * a, 0.5 * b);
    } else {
      RedondearCentesimasMonotono(0.0 * a, 0.0 * b);
    }
  }

  /** The listed rates: an unknown type costs nothing, and a car parked two
      hours pays 4.0. */
  lemma ImporteTarifas(tipo: string)
    ensures tipo != "Automóvil" && tipo != "Motocicleta" && tipo != "Bicicleta" ==> Importe(tipo, 3.0) == 0.0
    ensures Importe("Automóvil", 2.0) == 4.0
    ensures Importe("Bicicleta", 0.25) == 0.25
  {
    RedondearCentesimasIdempotente(0.0);
    assert RedondearCentesimas(0.0) == 0.0 by {
      RedondearEnteroFijo(0);
    }
    assert RedondearCentesimas(4.0) == 4.0 by {
      RedondearEnteroFijo(400);
    }
    assert RedondearCentesimas(0.25) == 0.25 by {
      RedondearEnteroFijo(25);
    }
  }

  class Parqueadero {
    const nombre: string
    var espacios: seq<Espacio>
    var vehiculos: map<Placa, Vehiculo>

    /** A space is occupied exactly when it holds a known vehicle. */
    ghost predicate Valid()
      reads this
    {
      forall i | 0 <= i < |espacios| ::
        && (espacios[i].ocupado <==> espacios[i].vehiculo.Some?)
        && (espacios[i].vehiculo.Some? ==> espacios[i].vehiculo.value in vehiculos)
    }

    /** `Parqueadero(nombre)`: no spaces. */
    constructor (nombre: string)
      ensures Valid()
      ensures this.nombre == nombre && espacios == [] && vehiculos == map[]
    {
      this.nombre := nombre;
      espacios := [];
      vehiculos := map[];
    }

    /** `Vehiculo(placa, tipo)`: a vehicle that has not entered yet. */
    method RegistrarVehiculo(placa: Placa, tipo: string)
      requires Valid() && placa !in vehiculos
      modifies this
      ensures Valid()
      ensures vehiculos == old(vehiculos)[placa := Vehiculo(tipo, None)]
      ensures espacios == old(espacios)
    {
      vehiculos := vehiculos[placa := Vehiculo(tipo, None)];
    }

    /** `agregar_espacio`: the space goes to the end of the list. */
    method AgregarEspacio(numero: int, tipoPermitido: string)
      requires Valid()
      modifies this
      ensures Valid()
      ensures espacios == old(espacios) + [NuevoEspacio(numero, tipoPermitido)]
      ensures vehiculos == old(vehiculos)
    {
      espacios := espacios + [NuevoEspacio(numero, tipoPermitido)];
    }

    /** `Espacio.ocupar`: when the space admits the vehicle's type it takes
        the vehicle, which records its entry time; otherwise `False` and
        nothing changes. */
    method Ocupar(i: nat, placa: Placa, ahora: real) returns (ok: bool)
      requires Valid() && i < |espacios| && placa in vehiculos
      modifies this
      ensures Valid()
      ensures ok <==> Admite(old(espacios[i]), old(vehiculos[placa].tipo))
      ensures ok ==>
        && espacios == old(espacios)[i := old(espacios[i]).(ocupado := true, vehiculo := Some(placa))]
        && vehiculos == old(vehiculos)[placa := old(vehiculos[placa]).(horaEntrada := Some(ahora))]
      ensures !ok ==> espacios == old(espacios) && vehiculos == old(vehiculos)
    {
      var e := espacios[i];
      var v := vehiculos[placa];
      if Admite(e, v.tipo) {
        espacios := espacios[i := e.(ocupado := true, vehiculo := Some(placa))];
        vehiculos := vehiculos[placa := v.(horaEntrada := Some(ahora))];
        return true;
      }
      return false;
    }

    /** `Espacio.liberar`: an occupied space is emptied; a free one is left
        alone.  The vehicle keeps its entry time. */
    method Liberar(i: nat)
      requires Valid() && i < |espacios|
      modifies this
      ensures Valid()
      ensures |espacios| == |old(espacios)|
      ensures !espacios[i].ocupado && espacios[i].vehiculo.None?
      ensures old(espacios[i].ocupado) ==>
        espacios == old(espacios)[i := old(espacios[i]).(ocupado := false, vehiculo := None)]
      ensures !old(espacios[i].ocupado) ==> espacios == old(espacios)
      ensures vehiculos == old(vehiculos)
    {
      if espacios[i].ocupado {
        espacios := espacios[i := espacios[i].(ocupado := false, vehiculo := None)];
      }
    }

    /** `buscar_espacio_disponible`: the first space, in insertion order,
        that admits the type. */
    method BuscarEspacioDisponible(tipo: string) returns (r: Option<nat>)
      ensures r == PrimerDisponible(espacios, tipo, 0)
      ensures r.Some? ==> r.value < |espacios| && Admite(espacios[r.value], tipo)
      ensures r.Some? ==> forall j | 0 <= j < r.value :: !Admite(espacios[j], tipo)
      ensures r.None? <==> forall j | 0 <= j < |espacios| :: !Admite(espacios[j], tipo)
    {
      var i := 0;
      while i < |espacios|
        invariant 0 <= i <= |espacios|
        invariant PrimerDisponible(espacios, tipo, i) == PrimerDisponible(espacios, tipo, 0)
      {
        if Admite(espacios[i], tipo) {
          return Some(i);
        }
        i := i + 1;
      }
      return None;
    }

    /** `calcular_tarifa` with the hours given: nothing for a vehicle that
        never entered, the stay's amount otherwise. */
    function CalcularTarifa(placa: Placa, horas: real): (r: real)
      reads this
      requires placa in vehiculos
      ensures vehiculos[placa].horaEntrada.None? ==> r == 0.0
      ensures vehiculos[placa].horaEntrada.Some? ==> r == Importe(vehiculos[placa].tipo, horas)
      ensures r >= 0.0
    {
      if vehiculos[placa].horaEntrada.None? then 0.0
      else Importe(vehiculos[placa].tipo, horas)
    }
  }

  /** A space found for a type always takes a vehicle of that type. */
  method BuscarYOcupar(p: Parqueadero, placa: Placa, ahora: real) returns (r: Option<nat>)
    requires p.Valid() && placa in p.vehiculos
    modifies p
    ensures p.Valid()
    ensures |p.espacios| == |old(p.espacios)|
    ensures r.None? <==> forall j | 0 <= j < |old(p.espacios)| :: !Admite(old(p.espacios[j]), old(p.vehiculos[placa].tipo))
    ensures r.Some? ==> r == PrimerDisponible(old(p.espacios), old(p.vehiculos[placa].tipo), 0)
    ensures r.Some? ==> r.value < |p.espacios| && p.espacios[r.value].ocupado && p.espacios[r.value].vehiculo == Some(placa)
    ensures r.None? ==> p.espacios == old(p.espacios) && p.vehiculos == old(p.vehiculos)
  {
    r := p.BuscarEspacioDisponible(p.vehiculos[placa].tipo);
    if r.Some? {
      var ok := p.Ocupar(r.value, placa, ahora);
      assert ok;
    }
  }
}
