/** A product of the inventory (semana10/producto_mejorado.py): an id fixed at
    construction, and a name, a quantity and a price that validated setters
    may change. The inventories hold the values of products, as `Registro`s. */
module Producto {
  import opened Wrappers
  import opened Texto
  import opened Redondeo

  /** The form `to_dict()` produces and the backing file stores: the four
      fields by name. A record read back from a file has the same shape but
      has not yet been validated. */
  datatype Registro = Registro(id: int, nombre: string, cantidad: int, precio: real)

  /** The four `ValueError`s of the constructor and the setters. */
  datatype ErrorValidacion = IdNoPositivo | NombreVacio | CantidadNegativa | PrecioNegativo

  /** What every constructed product satisfies: a positive id, a non-empty
      name with no blank at either end, a non-negative quantity, and a
      non-negative price that is a whole number of cents. */
  predicate ProductoValido(p: Registro)
  {
    && p.id > 0
    && p.nombre != [] && Recortado(p.nombre)
    && p.cantidad >= 0
    && p.precio >= 0.0 && RedondearCentesimas(p.precio) == p.precio
  }

  /** The checks the constructor makes, in order, before it assigns any
      field: the first one that fails, or `None`. */
  function Validar(id: int, nombre: string, cantidad: int, precio: real): (r: Option<ErrorValidacion>)
    ensures r == None <==> id > 0 && !EnBlanco(nombre) && cantidad >= 0 && precio >= 0.0
    ensures r == Some(IdNoPositivo) <==> id <= 0
    ensures r == Some(NombreVacio) <==> id > 0 && EnBlanco(nombre)
    ensures r == Some(CantidadNegativa) <==> id > 0 && !EnBlanco(nombre) && cantidad < 0
  {
    StripVacioSiEnBlanco(nombre);
    if id <= 0 then Some(IdNoPositivo)
    else if Strip(nombre) == [] then Some(NombreVacio)
    else if cantidad < 0 then Some(CantidadNegativa)
    else if precio < 0.0 then Some(PrecioNegativo)
    else None
  }

  /** A product built from valid arguments keeps the name trimmed, the id and
      the quantity as given, and the price rounded to cents. */
  lemma CamposConstruidos(id: int, nombre: string, cantidad: int, precio: real)
    requires Validar(id, nombre, cantidad, precio) == None
    ensures ProductoValido(Registro(id, Strip(nombre), cantidad, RedondearCentesimas(precio)))
  {
    StripVacioSiEnBlanco(nombre);
    RedondearCentesimasNoNegativo(precio);
    RedondearCentesimasIdempotente(precio);
  }

  /** `Producto(id, nombre, cantidad, precio)` as a value: either the first
      validation error, or the fields as the constructor stores them. */
  function Crear(id: int, nombre: string, cantidad: int, precio: real): (r: Result<Registro, ErrorValidacion>)
    ensures r.Failure? <==> Validar(id, nombre, cantidad, precio).Some?
    ensures r.Failure? ==> Validar(id, nombre, cantidad, precio) == Some(r.error)
    ensures r.Success? ==> ProductoValido(r.value)
    ensures r.Success? ==> r.value.id == id && r.value.cantidad == cantidad
  {
    match Validar(id, nombre, cantidad, precio)
    case Some(e) => Failure(e)
    case None =>
      CamposConstruidos(id, nombre, cantidad, precio);
      Success(Registro(id, Strip(nombre), cantidad, RedondearCentesimas(precio)))
  }

  /** Arguments that pass every check are stored trimmed and rounded. */
  lemma CrearAceptado(id: int, nombre: string, cantidad: int, precio: real)
    requires Validar(id, nombre, cantidad, precio) == None
    ensures Crear(id, nombre, cantidad, precio) == Success(Registro(id, Strip(nombre), cantidad, RedondearCentesimas(precio)))
  {
  }

  /** A built product holds the name trimmed and the price within half a
      cent of the one given. */
  lemma CrearGuardaEntrada(id: int, nombre: string, cantidad: int, precio: real)
    requires Crear(id, nombre, cantidad, precio).Success?
    ensures Crear(id, nombre, cantidad, precio).value.nombre == Strip(nombre)
    ensures -0.005 <= Crear(id, nombre, cantidad, precio).value.precio - precio <= 0.005
  {
    RedondearCentesimasCerca(precio);
  }

  /** The constructor applied to the four fields of a record. */
  function CrearDesde(r: Registro): Result<Registro, ErrorValidacion>
  {
    Crear(r.id, r.nombre, r.cantidad, r.precio)
  }

  /** Rebuilding a product from its `to_dict()` form gives back the same
      product: trimming and rounding to cents change nothing the second time. */
  lemma CrearDesdeToDict(p: Registro)
    requires ProductoValido(p)
    ensures CrearDesde(p) == Success(p)
  {
    assert !EnBlanco(p.nombre) by { assert !EsEspacio(p.nombre[0]); }
    StripFijo(p.nombre);
  }

  /** The `nombre` setter on a value: a blank name is refused, any other is
      stored trimmed. */
  function ConNombre(p: Registro, nuevo: string): (r: Result<Registro, ErrorValidacion>)
    ensures r.Failure? <==> EnBlanco(nuevo)
    ensures r.Failure? ==> r.error == NombreVacio
    ensures r.Success? ==> r.value.id == p.id && r.value.cantidad == p.cantidad && r.value.precio == p.precio
    ensures r.Success? && ProductoValido(p) ==> ProductoValido(r.value)
  {
    StripVacioSiEnBlanco(nuevo);
    if Strip(nuevo) == [] then Failure(NombreVacio) else Success(p.(nombre := Strip(nuevo)))
  }

  /** The `cantidad` setter on a value: a negative quantity is refused, any
      other is stored as it is. */
  function ConCantidad(p: Registro, nueva: int): (r: Result<Registro, ErrorValidacion>)
    ensures r.Failure? <==> nueva < 0
    ensures r.Failure? ==> r.error == CantidadNegativa
    ensures r.Success? ==> r.value.cantidad == nueva
    ensures r.Success? ==> r.value.id == p.id && r.value.nombre == p.nombre && r.value.precio == p.precio
    ensures r.Success? && ProductoValido(p) ==> ProductoValido(r.value)
  {
    if nueva < 0 then Failure(CantidadNegativa) else Success(p.(cantidad := nueva))
  }

  /** The `precio` setter on a value: a negative price is refused, any other
      is stored rounded to cents. */
  function ConPrecio(p: Registro, nuevo: real): (r: Result<Registro, ErrorValidacion>)
    ensures r.Failure? <==> nuevo < 0.0
    ensures r.Failure? ==> r.error == PrecioNegativo
    ensures r.Success? ==> -0.005 <= r.value.precio - nuevo <= 0.005
    ensures r.Success? ==> r.value.id == p.id && r.value.nombre == p.nombre && r.value.cantidad == p.cantidad
    ensures r.Success? && ProductoValido(p) ==> ProductoValido(r.value)
  {
    if nuevo < 0.0 then Failure(PrecioNegativo)
    else
      RedondearCentesimasNoNegativo(nuevo);
      RedondearCentesimasIdempotente(nuevo);
      RedondearCentesimasCerca(nuevo);
      Success(p.(precio := RedondearCentesimas(nuevo)))
  }

  /** A setter that refuses its value leaves the product as it was; one that
      accepts it is what the constructor would have built with that value. */
  lemma SetterComoConstructor(p: Registro, nombre: string, cantidad: int, precio: real)
    requires ProductoValido(p)
    ensures ConNombre(p, nombre).Success? ==>
      Crear(p.id, nombre, p.cantidad, p.precio) == ConNombre(p, nombre)
    ensures ConCantidad(p, cantidad).Success? ==>
      Crear(p.id, p.nombre, cantidad, p.precio) == ConCantidad(p, cantidad)
    ensures ConPrecio(p, precio).Success? ==>
      Crear(p.id, p.nombre, p.cantidad, precio) == ConPrecio(p, precio)
  {
    assert !EnBlanco(p.nombre) by { assert !EsEspacio(p.nombre[0]); }
    StripFijo(p.nombre);
    if ConNombre(p, nombre).Success? {
      CrearAceptado(p.id, nombre, p.cantidad, p.precio);
    }
    if ConCantidad(p, cantidad).Success? {
      CrearAceptado(p.id, p.nombre, cantidad, p.precio);
    }
    if ConPrecio(p, precio).Success? {
      CrearAceptado(p.id, p.nombre, p.cantidad, precio);
    }
  }

  /** The product object: `id` has no setter, so it is a constant field. */
  class Producto {
    const id: int
    var nombre: string
    var cantidad: int
    var precio: real

    /** `to_dict()`. */
    /** `to_dict`: the fields as a record; when they form a valid product,
        the constructor given the object's own fields builds exactly it. */
    function ToDict(): (r: Registro)
      reads this
      ensures ProductoValido(r) ==> Crear(id, nombre, cantidad, precio) == Success(r)
    {
      var r := Registro(id, nombre, cantidad, precio);
      if ProductoValido(r) then CrearDesdeToDict(r); r else r
    }

    ghost predicate Valid()
      reads this
    {
      ProductoValido(ToDict())
    }

    /** The assignments of `__init__`, reached only once every check passed. */
    constructor Asignar(id: int, nombre: string, cantidad: int, precio: real)
      requires Validar(id, nombre, cantidad, precio) == None
      ensures Valid()
      ensures Crear(id, nombre, cantidad, precio) == Success(ToDict())
    {
      CrearAceptado(id, nombre, cantidad, precio);
      this.id := id;
      this.nombre := Strip(nombre);
      this.cantidad := cantidad;
      this.precio := RedondearCentesimas(precio);
    }

    /** `Producto(...)`: every check runs before any field is assigned, so a
        refused call yields an error and no object. */
    static method Nuevo(id: int, nombre: string, cantidad: int, precio: real)
      returns (r: Result<Producto, ErrorValidacion>)
      ensures r.Failure? ==> Crear(id, nombre, cantidad, precio) == Failure(r.error)
      ensures r.Success? ==> fresh(r.value) && r.value.Valid()
      ensures r.Success? ==> Crear(id, nombre, cantidad, precio) == Success(r.value.ToDict())
    {
      var e := Validar(id, nombre, cantidad, precio);
      if e.Some? {
        return Failure(e.value);
      }
      var p := new Producto.Asignar(id, nombre, cantidad, precio);
      return Success(p);
    }

    /** The `nombre` setter. */
    method SetNombre(nuevo: string) returns (r: Outcome<ErrorValidacion>)
      requires Valid()
      modifies this
      ensures Valid()
      ensures ConNombre(old(ToDict()), nuevo).Failure? ==>
        r == Fail(NombreVacio) && ToDict() == old(ToDict())
      ensures ConNombre(old(ToDict()), nuevo).Success? ==>
        r == Pass && ToDict() == ConNombre(old(ToDict()), nuevo).value
    {
      StripVacioSiEnBlanco(nuevo);
      if Strip(nuevo) == [] {
        return Fail(NombreVacio);
      }
      ghost var despues := ConNombre(ToDict(), nuevo).value;
      nombre := Strip(nuevo);
      assert ToDict() == despues;
      return Pass;
    }

    /** The `cantidad` setter. */
    method SetCantidad(nueva: int) returns (r: Outcome<ErrorValidacion>)
      requires Valid()
      modifies this
      ensures Valid()
      ensures ConCantidad(old(ToDict()), nueva).Failure? ==>
        r == Fail(CantidadNegativa) && ToDict() == old(ToDict())
      ensures ConCantidad(old(ToDict()), nueva).Success? ==>
        r == Pass && ToDict() == ConCantidad(old(ToDict()), nueva).value
    {
      if nueva < 0 {
        return Fail(CantidadNegativa);
      }
      ghost var despues := ConCantidad(ToDict(), nueva).value;
      cantidad := nueva;
      assert ToDict() == despues;
      return Pass;
    }

    /** The `precio` setter. */
    method SetPrecio(nuevo: real) returns (r: Outcome<ErrorValidacion>)
      requires Valid()
      modifies this
      ensures Valid()
      ensures ConPrecio(old(ToDict()), nuevo).Failure? ==>
        r == Fail(PrecioNegativo) && ToDict() == old(ToDict())
      ensures ConPrecio(old(ToDict()), nuevo).Success? ==>
        r == Pass && ToDict() == ConPrecio(old(ToDict()), nuevo).value
    {
      if nuevo < 0.0 {
        return Fail(PrecioNegativo);
      }
      ghost var despues := ConPrecio(ToDict(), nuevo).value;
      precio := RedondearCentesimas(nuevo);
      assert ToDict() == despues;
      return Pass;
    }
  }
}
