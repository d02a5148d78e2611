/** The first inventory (semana09/inventario.py): a list of products kept in
    memory only, with no two products sharing an id. */
module InventarioMemoria {
  import opened Wrappers
  import opened Producto
  import opened ListaProductos

  class Inventario {
    var productos: seq<Registro>

    ghost predicate Valid()
      reads this
    {
      IdsUnicos(productos) && TodosValidos(productos)
    }

    /** A new inventory is empty. */
    constructor ()
      ensures Valid() && productos == []
    {
      productos := [];
    }

    /** The loop of `buscar_por_id`: the position of the first product with
        the id, or `None` once the whole list has been scanned. */
    method Buscar(id: int) returns (r: Option<nat>)
      ensures r.Some? ==> r.value < |productos| && productos[r.value].id == id
      ensures r.Some? ==> forall j | 0 <= j < r.value :: productos[j].id != id
      ensures r.None? <==> !TieneId(productos, id)
      ensures r == IndiceDeId(productos, id)
    {
      var i := 0;
      while i < |productos|
        invariant 0 <= i <= |productos|
        invariant forall j | 0 <= j < i :: productos[j].id != id
      {
        if productos[i].id == id {
          return Some(i);
        }
        i := i + 1;
      }
      return None;
    }

    /** `buscar_por_id`: the product with the id, or `None`. */
    method BuscarPorId(id: int) returns (r: Option<Registro>)
      ensures r.None? <==> !TieneId(productos, id)
      ensures r.Some? ==> r.value in productos && r.value.id == id
      ensures r == PrimeroConId(productos, id)
    {
      var i := Buscar(id);
      if i.None? {
        return None;
      }
      return Some(productos[i.value]);
    }

    /** `agregar_producto`: refused when the id is already present,
        otherwise the product goes to the end of the list. */
    method AgregarProducto(p: Registro) returns (ok: bool)
      requires Valid() && ProductoValido(p)
      modifies this
      ensures Valid()
      ensures ok <==> !TieneId(old(productos), p.id)
      ensures productos == if ok then old(productos) + [p] else old(productos)
    {
      var encontrado := BuscarPorId(p.id);
      if encontrado.Some? {
        return false;
      }
      productos := productos + [p];
      return true;
    }

    /** `eliminar_producto`: the product with the id leaves the list, and the
        size drops by one, exactly when the id was present. */
    method EliminarProducto(id: int) returns (ok: bool)
      requires Valid()
      modifies this
      ensures Valid()
      ensures ok <==> TieneId(old(productos), id)
      ensures productos == EliminarPrimero(old(productos), id)
      ensures |productos| == if ok then |old(productos)| - 1 else |old(productos)|
    {
      var i := Buscar(id);
      if i.None? {
        return false;
      }
      EliminarPrimeroUnico(productos, id);
      productos := productos[..i.value] + productos[i.value + 1..];
      return true;
    }

    /** `actualizar_cantidad`: `False` when the id is absent; otherwise the
        setter runs on that product, and its `ValueError` escapes with the
        list unchanged. */
    method ActualizarCantidad(id: int, nueva: int) returns (r: Result<bool, ErrorValidacion>)
      requires Valid()
      modifies this
      ensures Valid()
      ensures ActualizarCantidadEnLista(old(productos), id, nueva).SinProducto? ==>
        r == Success(false) && productos == old(productos)
      ensures ActualizarCantidadEnLista(old(productos), id, nueva).Rechazada? ==>
        r == Failure(CantidadNegativa) && productos == old(productos)
      ensures ActualizarCantidadEnLista(old(productos), id, nueva).Aplicada? ==>
        r == Success(true) && productos == ActualizarCantidadEnLista(old(productos), id, nueva).nuevo
    {
      var i := Buscar(id);
      if i.None? {
        return Success(false);
      }
      var cambio := ConCantidad(productos[i.value], nueva);
      if cambio.Failure? {
        return Failure(cambio.error);
      }
      SoloCambiaConserva(productos, productos[i.value := cambio.value], i.value);
      productos := productos[i.value := cambio.value];
      return Success(true);
    }

    /** `actualizar_precio`: as `actualizar_cantidad`, with the price setter. */
    method ActualizarPrecio(id: int, nuevo: real) returns (r: Result<bool, ErrorValidacion>)
      requires Valid()
      modifies this
      ensures Valid()
      ensures ActualizarPrecioEnLista(old(productos), id, nuevo).SinProducto? ==>
        r == Success(false) && productos == old(productos)
      ensures ActualizarPrecioEnLista(old(productos), id, nuevo).Rechazada? ==>
        r == Failure(PrecioNegativo) && productos == old(productos)
      ensures ActualizarPrecioEnLista(old(productos), id, nuevo).Aplicada? ==>
        r == Success(true) && productos == ActualizarPrecioEnLista(old(productos), id, nuevo).nuevo
    {
      var i := Buscar(id);
      if i.None? {
        return Success(false);
      }
      var cambio := ConPrecio(productos[i.value], nuevo);
      if cambio.Failure? {
        return Failure(cambio.error);
      }
      SoloCambiaConserva(productos, productos[i.value := cambio.value], i.value);
      productos := productos[i.value := cambio.value];
      return Success(true);
    }

    /** `buscar_por_nombre`. */
    function BuscarPorNombre(consulta: string): (r: seq<Registro>)
      reads this
      ensures r == FiltrarPorNombre(productos, consulta)
      ensures forall p :: p in r <==> p in productos && Coincide(p, consulta)
    {
      FiltrarPorNombreElementos(productos, consulta);
      FiltrarPorNombre(productos, consulta)
    }

    /** `obtener_todos`: a new list, sorted by id; the inventory's own list
        is not touched. */
    function ObtenerTodos(): (r: seq<Registro>)
      reads this
      ensures OrdenadoPorId(r) && multiset(r) == multiset(productos)
    {
      OrdenarPorId(productos)
    }

    function ObtenerTamano(): (n: nat)
      reads this
      ensures n == |productos|
      ensures n == 0 <==> productos == []
    {
      |productos|
    }

    /** `esta_vacio`. */
    function EstaVacio(): (r: bool)
      reads this
      ensures r <==> ObtenerTamano() == 0
      ensures r <==> productos == []
    {
      |productos| == 0
    }
  }
}
