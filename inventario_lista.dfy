/** The second inventory (semana10/inventario_mejorado.py): a list of
    products that is loaded from a JSON file when the inventory is created
    and written back in full after every change. */
module InventarioLista {
  import opened Wrappers
  import opened Producto
  import opened ListaProductos
  import opened Archivo

  /** The products a load appends, by what opening and decoding the file
      gives: nothing when the file is missing, unreadable or corrupt. */
  function Cargados(contenido: Contenido, lecturaPermitida: bool): (r: seq<Registro>)
    ensures TodosValidos(r)
    ensures contenido.Json? && lecturaPermitida ==> r == CargarLista(contenido.registros)
    ensures !contenido.Json? || !lecturaPermitida ==> r == []
  {
    CargarListaValidos(if contenido.Json? then contenido.registros else []);
    if contenido.Json? && lecturaPermitida then CargarLista(contenido.registros) else []
  }

  /** The file after a load: a missing file is created holding `[]` when
      writing is permitted; any other file is only read. */
  function ArchivoTrasCarga(contenido: Contenido, escrituraPermitida: bool): Contenido
  {
    if contenido == Ausente && escrituraPermitida then Json([]) else contenido
  }

  /** The loop of `cargar_desde_archivo`: build each record into a product
      and append it, stopping at the first record the constructor refuses. */
  method CargarRegistros(regs: seq<Registro>) returns (cargados: seq<Registro>)
    ensures cargados == CargarLista(regs)
  {
    cargados := [];
    var i := 0;
    assert regs[0..] == regs;
    while i < |regs|
      invariant 0 <= i <= |regs|
      invariant cargados + CargarLista(regs[i..]) == CargarLista(regs)
    {
      var p := CrearDesde(regs[i]);
      if p.Failure? {
        CargarListaTermina(regs, i, cargados);
        return;
      }
      CargarListaAvanza(regs, i, cargados, p.value);
      cargados := cargados + [p.value];
      i := i + 1;
    }
    assert cargados + [] == cargados;
  }

  /** A refused record ends the load with what was appended so far. */
  lemma CargarListaTermina(regs: seq<Registro>, i: nat, cargados: seq<Registro>)
    requires i < |regs| && CrearDesde(regs[i]).Failure?
    requires cargados + CargarLista(regs[i..]) == CargarLista(regs)
    ensures cargados == CargarLista(regs)
  {
    CargarListaPaso(regs, i);
    assert cargados + [] == cargados;
  }

  /** An accepted record is appended and the load goes on after it. */
  lemma CargarListaAvanza(regs: seq<Registro>, i: nat, cargados: seq<Registro>, p: Registro)
    requires i < |regs| && CrearDesde(regs[i]) == Success(p)
    requires cargados + CargarLista(regs[i..]) == CargarLista(regs)
    ensures (cargados + [p]) + CargarLista(regs[i + 1..]) == CargarLista(regs)
  {
    CargarListaPaso(regs, i);
    assert cargados + ([p] + CargarLista(regs[i + 1..])) == (cargados + [p]) + CargarLista(regs[i + 1..]);
  }

  lemma TodosValidosConcatenados(s: seq<Registro>, t: seq<Registro>)
    requires TodosValidos(s) && TodosValidos(t)
    ensures TodosValidos(s + t)
  {
    forall k | 0 <= k < |s + t| ensures ProductoValido((s + t)[k]) {
      if k < |s| { assert (s + t)[k] == s[k]; } else { assert (s + t)[k] == t[k - |s|]; }
    }
  }

  class Inventario {
    var productos: seq<Registro>
    const archivo: ArchivoJson

    ghost predicate Valid()
      reads this
    {
      TodosValidos(productos)
    }

    /** The file holds exactly the current list. */
    ghost predicate Consistente()
      reads this, archivo
    {
      archivo.contenido == Json(productos)
    }

    /** `Inventario(ruta)`: start empty and load the file. */
    constructor (archivo: ArchivoJson)
      modifies archivo
      ensures Valid() && this.archivo == archivo
      ensures productos == Cargados(old(archivo.contenido), old(archivo.lecturaPermitida))
      ensures archivo.contenido == ArchivoTrasCarga(old(archivo.contenido), old(archivo.escrituraPermitida))
      ensures archivo.lecturaPermitida == old(archivo.lecturaPermitida)
      ensures archivo.escrituraPermitida == old(archivo.escrituraPermitida)
    {
      productos := [];
      this.archivo := archivo;
      new;
      CargarDesdeArchivo();
    }

    /** `cargar_desde_archivo`: append the file's products to the list, in
        file order and without looking for duplicate ids. */
    method CargarDesdeArchivo()
      requires Valid()
      modifies this, archivo
      ensures Valid()
      ensures productos == old(productos) + Cargados(old(archivo.contenido), old(archivo.lecturaPermitida))
      ensures archivo.contenido == ArchivoTrasCarga(old(archivo.contenido), old(archivo.escrituraPermitida))
      ensures archivo.lecturaPermitida == old(archivo.lecturaPermitida)
      ensures archivo.escrituraPermitida == old(archivo.escrituraPermitida)
    {
      var leido := archivo.Leer();
      if leido == Failure(NoEncontrado) {
        var _ := archivo.Escribir([]);
        return;
      }
      if leido.Failure? {
        return;
      }
      var cargados := CargarRegistros(leido.value);
      CargarListaValidos(leido.value);
      TodosValidosConcatenados(productos, cargados);
      productos := productos + cargados;
    }

    /** `guardar_en_archivo`: the whole list replaces the file's content; a
        refused write is raised and the file stays as it was. */
    method GuardarEnArchivo() returns (r: Outcome<ErrorArchivo>)
      modifies archivo
      ensures archivo.lecturaPermitida == old(archivo.lecturaPermitida)
      ensures archivo.escrituraPermitida == old(archivo.escrituraPermitida)
      ensures archivo.escrituraPermitida ==> r == Pass && Consistente()
      ensures !archivo.escrituraPermitida ==> r == Fail(SinPermiso) && archivo.contenido == old(archivo.contenido)
    {
      r := archivo.Escribir(productos);
    }

    /** What a mutation returns once its in-memory change is made: `True`
        with the file rewritten, or the save's error with the file as it was
        and the change kept in memory. */
    ghost predicate Guardado(r: Result<bool, ErrorInventario>, antes: Contenido)
      reads this, archivo
    {
      && (archivo.escrituraPermitida ==> r == Success(true) && Consistente())
      && (!archivo.escrituraPermitida ==> r == Failure(Persistencia(SinPermiso)) && archivo.contenido == antes)
    }

    method Guardar() returns (r: Result<bool, ErrorInventario>)
      modifies archivo
      ensures archivo.lecturaPermitida == old(archivo.lecturaPermitida)
      ensures archivo.escrituraPermitida == old(archivo.escrituraPermitida)
      ensures Guardado(r, old(archivo.contenido))
    {
      var g := GuardarEnArchivo();
      if g.Fail? {
        return Failure(Persistencia(g.error));
      }
      return Success(true);
    }

    /** The loop of `buscar_por_id`. */
    method Buscar(id: int) returns (r: Option<nat>)
      ensures r.Some? ==> r.value < |productos| && productos[r.value].id == id
      ensures r.Some? ==> forall j | 0 <= j < r.value :: productos[j].id != id
      ensures r.None? <==> !TieneId(productos, id)
      ensures r == IndiceDeId(productos, id)
    {
      var i := 0;
      while i < |productos|
        invariant 0 <= i <= |productos|
        invariant forall j | 0 <= j < i :: productos[j].id != id
      {
        if productos[i].id == id {
          return Some(i);
        }
        i := i + 1;
      }
      return None;
    }

    /** `buscar_por_id`: the first product in list order with the id. */
    method BuscarPorId(id: int) returns (r: Option<Registro>)
      ensures r.None? <==> !TieneId(productos, id)
      ensures r.Some? ==> r.value in productos && r.value.id == id
      ensures r == PrimeroConId(productos, id)
    {
      var i := Buscar(id);
      if i.None? {
        return None;
      }
      return Some(productos[i.value]);
    }

    /** `agregar_producto`: refused, with no save, when some product has the
        id; otherwise appended and saved. */
    method AgregarProducto(p: Registro) returns (r: Result<bool, ErrorInventario>)
      requires Valid() && ProductoValido(p)
      modifies this, archivo
      ensures Valid()
      ensures archivo.lecturaPermitida == old(archivo.lecturaPermitida)
      ensures archivo.escrituraPermitida == old(archivo.escrituraPermitida)
      ensures TieneId(old(productos), p.id) ==>
        r == Success(false) && productos == old(productos) && archivo.contenido == old(archivo.contenido)
      ensures !TieneId(old(productos), p.id) ==>
        productos == old(productos) + [p] && Guardado(r, old(archivo.contenido))
    {
      var encontrado := BuscarPorId(p.id);
      if encontrado.Some? {
        return Success(false);
      }
      productos := productos + [p];
      r := Guardar();
    }

    /** `eliminar_producto`: the first product with the id leaves the list,
        the others keep their order, and the list is saved; an absent id
        returns `False` with no save. */
    method EliminarProducto(id: int) returns (r: Result<bool, ErrorInventario>)
      requires Valid()
      modifies this, archivo
      ensures Valid()
      ensures archivo.lecturaPermitida == old(archivo.lecturaPermitida)
      ensures archivo.escrituraPermitida == old(archivo.escrituraPermitida)
      ensures productos == EliminarPrimero(old(productos), id)
      ensures !TieneId(old(productos), id) ==>
        r == Success(false) && archivo.contenido == old(archivo.contenido)
      ensures TieneId(old(productos), id) ==> Guardado(r, old(archivo.contenido))
    {
      var i := Buscar(id);
      if i.None? {
        return Success(false);
      }
      productos := productos[..i.value] + productos[i.value + 1..];
      r := Guardar();
    }

    /** `actualizar_cantidad`: `False` with no save for an absent id; the
        setter's `ValueError` escapes before any save with the list
        unchanged; otherwise the first product with the id gets the quantity
        and the list is saved. */
    method ActualizarCantidad(id: int, nueva: int) returns (r: Result<bool, ErrorInventario>)
      requires Valid()
      modifies this, archivo
      ensures Valid()
      ensures archivo.lecturaPermitida == old(archivo.lecturaPermitida)
      ensures archivo.escrituraPermitida == old(archivo.escrituraPermitida)
      ensures ActualizarCantidadEnLista(old(productos), id, nueva).SinProducto? ==>
        r == Success(false) && productos == old(productos) && archivo.contenido == old(archivo.contenido)
      ensures ActualizarCantidadEnLista(old(productos), id, nueva).Rechazada? ==>
        r == Failure(Validacion(CantidadNegativa)) && productos == old(productos)
        && archivo.contenido == old(archivo.contenido)
      ensures ActualizarCantidadEnLista(old(productos), id, nueva).Aplicada? ==>
        productos == ActualizarCantidadEnLista(old(productos), id, nueva).nuevo
        && Guardado(r, old(archivo.contenido))
    {
      var i := Buscar(id);
      if i.None? {
        return Success(false);
      }
      var cambio := ConCantidad(productos[i.value], nueva);
      if cambio.Failure? {
        return Failure(Validacion(cambio.error));
      }
      productos := productos[i.value := cambio.value];
      r := Guardar();
    }

    /** `actualizar_precio`: as `actualizar_cantidad`, with the price setter. */
    method ActualizarPrecio(id: int, nuevo: real) returns (r: Result<bool, ErrorInventario>)
      requires Valid()
      modifies this, archivo
      ensures Valid()
      ensures archivo.lecturaPermitida == old(archivo.lecturaPermitida)
      ensures archivo.escrituraPermitida == old(archivo.escrituraPermitida)
      ensures ActualizarPrecioEnLista(old(productos), id, nuevo).SinProducto? ==>
        r == Success(false) && productos == old(productos) && archivo.contenido == old(archivo.contenido)
      ensures ActualizarPrecioEnLista(old(productos), id, nuevo).Rechazada? ==>
        r == Failure(Validacion(PrecioNegativo)) && productos == old(productos)
        && archivo.contenido == old(archivo.contenido)
      ensures ActualizarPrecioEnLista(old(productos), id, nuevo).Aplicada? ==>
        productos == ActualizarPrecioEnLista(old(productos), id, nuevo).nuevo
        && Guardado(r, old(archivo.contenido))
    {
      var i := Buscar(id);
      if i.None? {
        return Success(false);
      }
      var cambio := ConPrecio(productos[i.value], nuevo);
      if cambio.Failure? {
        return Failure(Validacion(cambio.error));
      }
      productos := productos[i.value := cambio.value];
      r := Guardar();
    }

    /** `buscar_por_nombre`. */
    function BuscarPorNombre(consulta: string): (r: seq<Registro>)
      reads this
      ensures r == FiltrarPorNombre(productos, consulta)
      ensures forall p :: p in r <==> p in productos && Coincide(p, consulta)
    {
      FiltrarPorNombreElementos(productos, consulta);
      FiltrarPorNombre(productos, consulta)
    }

    /** `obtener_todos`: the products sorted by id. */
    function ObtenerTodos(): (r: seq<Registro>)
      reads this
      ensures OrdenadoPorId(r) && multiset(r) == multiset(productos)
    {
      OrdenarPorId(productos)
    }

    function ObtenerTamano(): (n: nat)
      reads this
      ensures n == |productos|
      ensures n == 0 <==> productos == []
    {
      |productos|
    }

    /** `esta_vacio`. */
    function EstaVacio(): (r: bool)
      reads this
      ensures r <==> ObtenerTamano() == 0
      ensures r <==> productos == []
    {
      |productos| == 0
    }
  }
}
