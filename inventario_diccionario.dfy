/** The third inventory (semana11/inventario.py): a dictionary from product
    id to product, in insertion order, loaded from and saved to a JSON file
    holding the list of its values. */
module InventarioDiccionario {
  import opened Wrappers
  import opened Producto
  import opened ListaProductos
  import opened Diccionario
  import opened Archivo
  import opened Texto
  import opened Redondeo

  /** Every entry is a valid product stored under its own id. */
  ghost predicate InventarioValido(d: Dict<Registro>)
  {
    && BienFormado(d)
    && (forall k | k in d.valores :: d.valores[k].id == k && ProductoValido(d.valores[k]))
  }

  /** `self._productos[p.id] = p` for each product, in order. */
  function PonerTodos(d: Dict<Registro>, ps: seq<Registro>): (r: Dict<Registro>)
    ensures InventarioValido(d) && TodosValidos(ps) ==> InventarioValido(r)
    decreases |ps|
  {
    if ps == [] then d else PonerTodos(Poner(d, ps[0].id, ps[0]), ps[1..])
  }

  /** The load loop: each record is built into a product and stored under its
      id; the first record the constructor rejects ends the load and the
      products stored so far stay. */
  function CargarDict(d: Dict<Registro>, regs: seq<Registro>): (r: Dict<Registro>)
    ensures InventarioValido(d) ==> InventarioValido(r)
    decreases |regs|
  {
    if regs == [] then d
    else match CrearDesde(regs[0])
      case Failure(_) => d
      case Success(p) => CargarDict(Poner(d, p.id, p), regs[1..])
  }

  lemma CargarDictPaso(d: Dict<Registro>, regs: seq<Registro>, i: nat)
    requires i < |regs|
    ensures CrearDesde(regs[i]).Failure? ==> CargarDict(d, regs[i..]) == d
    ensures CrearDesde(regs[i]).Success? ==>
      CargarDict(d, regs[i..]) ==
      CargarDict(Poner(d, regs[i].id, CrearDesde(regs[i]).value), regs[i + 1..])
  {
    assert regs[i..][1..] == regs[i + 1..];
  }

  /** The dictionary load stores exactly the products the list load of
      semana10 would append, one after another. */
  lemma {:induction false} CargarDictEsPonerTodos(d: Dict<Registro>, regs: seq<Registro>)
    ensures CargarDict(d, regs) == PonerTodos(d, CargarLista(regs))
    decreases |regs|
  {
    if regs != [] && CrearDesde(regs[0]).Success? {
      var p := CrearDesde(regs[0]).value;
      CargarDictEsPonerTodos(Poner(d, p.id, p), regs[1..]);
      assert CargarLista(regs) == [p] + CargarLista(regs[1..]);
      assert ([p] + CargarLista(regs[1..]))[1..] == CargarLista(regs[1..]);
    }
  }

  /** An id no stored product carries keeps whatever entry it had. */
  lemma {:induction false} PonerTodosSinId(d: Dict<Registro>, ps: seq<Registro>, k: int)
    requires !TieneId(ps, k)
    ensures k in PonerTodos(d, ps).valores <==> k in d.valores
    ensures k in d.valores ==> PonerTodos(d, ps).valores[k] == d.valores[k]
    decreases |ps|
  {
    if ps != [] {
      assert ps[0].id != k;
      assert !TieneId(ps[1..], k) by {
        forall j | 0 <= j < |ps[1..]| ensures ps[1..][j].id != k {
          assert ps[1..][j] == ps[j + 1];
        }
      }
      PonerTodosSinId(Poner(d, ps[0].id, ps[0]), ps[1..], k);
    }
  }

  /** When products repeat an id, the last one stored is the one kept. */
  lemma {:induction false} PonerTodosUltimoGana(d: Dict<Registro>, ps: seq<Registro>, k: int)
    requires TieneId(ps, k)
    ensures k in PonerTodos(d, ps).valores
    ensures exists i | 0 <= i < |ps| ::
      && ps[i].id == k
      && (forall j | i < j < |ps| :: ps[j].id != k)
      && PonerTodos(d, ps).valores[k] == ps[i]
    decreases |ps|
  {
    var resto := ps[1..];
    var d1 := Poner(d, ps[0].id, ps[0]);
    if TieneId(resto, k) {
      PonerTodosUltimoGana(d1, resto, k);
      var i' :| 0 <= i' < |resto| && resto[i'].id == k
        && (forall j | i' < j < |resto| :: resto[j].id != k)
        && PonerTodos(d1, resto).valores[k] == resto[i'];
      assert ps[i' + 1] == resto[i'];
      forall j | i' + 1 < j < |ps| ensures ps[j].id != k {
        assert ps[j] == resto[j - 1];
      }
    } else {
      assert ps[0].id == k;
      PonerTodosSinId(d1, resto, k);
      forall j | 0 < j < |ps| ensures ps[j].id != k {
        assert ps[j] == resto[j - 1];
      }
    }
  }

  /** A product whose id the file repeats is loaded as its last occurrence,
      and every id in the file up to the first rejected record is present. */
  lemma CargarUltimoGana(regs: seq<Registro>, k: int)
    ensures k in CargarDict(Vacio(), regs).valores <==> TieneId(CargarLista(regs), k)
    ensures TieneId(CargarLista(regs), k) ==>
      var cargados := CargarLista(regs);
      exists i | 0 <= i < |cargados| ::
        && cargados[i].id == k
        && (forall j | i < j < |cargados| :: cargados[j].id != k)
        && CargarDict(Vacio(), regs).valores[k] == cargados[i]
  {
    CargarDictEsPonerTodos(Vacio(), regs);
    if TieneId(CargarLista(regs), k) {
      PonerTodosUltimoGana(Vacio(), CargarLista(regs), k);
    } else {
      PonerTodosSinId(Vacio(), CargarLista(regs), k);
    }
  }

  /** The entries of `d` restricted to the keys of `ks`. */
  function Restringir(d: Dict<Registro>, ks: seq<int>): map<int, Registro>
  {
    map k | k in ks && k in d.valores :: d.valores[k]
  }

  /** One valid product at the head of a load is stored, then the rest loads. */
  lemma CargarDictCabeza(d: Dict<Registro>, p: Registro, resto: seq<Registro>)
    requires ProductoValido(p)
    ensures CargarDict(d, [p] + resto) == CargarDict(Poner(d, p.id, p), resto)
  {
    CrearDesdeToDict(p);
    assert ([p] + resto)[0] == p && ([p] + resto)[1..] == resto;
  }

  /** Storing the next key of `d` extends the restriction to one more key. */
  lemma RestringirPoner(d: Dict<Registro>, pre: seq<int>, k: int)
    requires InventarioValido(d) && k in d.valores && k !in pre
    ensures Poner(Dict(pre, Restringir(d, pre)), k, d.valores[k]) == Dict(pre + [k], Restringir(d, pre + [k]))
  {
    assert k !in Restringir(d, pre);
    assert Restringir(d, pre + [k]) == Restringir(d, pre)[k := d.valores[k]] by {
      forall x ensures x in Restringir(d, pre + [k]) <==> x in Restringir(d, pre)[k := d.valores[k]] {
        assert x in pre + [k] <==> x in pre || x == k;
      }
    }
  }

  /** Restricting to every key gives back all the entries. */
  lemma RestringirTodas(d: Dict<Registro>)
    requires BienFormado(d)
    ensures Dict(d.claves, Restringir(d, d.claves)) == d
  {
    forall x ensures x in Restringir(d, d.claves) <==> x in d.valores {
      assert x in d.valores <==> x in d.claves;
    }
  }

  /** In a list without repetitions, the key after a prefix is not in it. */
  lemma SiguienteNoRepetida(claves: seq<int>, pre: seq<int>, ks: seq<int>)
    requires Distintas(claves) && pre + ks == claves && ks != []
    ensures ks[0] !in pre
  {
    assert ks[0] == claves[|pre|];
    forall i | 0 <= i < |pre| ensures pre[i] != ks[0] {
      assert pre[i] == claves[i];
    }
  }

  lemma {:induction false} CargarValoresDesde(d: Dict<Registro>, pre: seq<int>, ks: seq<int>)
    requires InventarioValido(d)
    requires pre + ks == d.claves
    ensures forall i | 0 <= i < |ks| :: ks[i] in d.valores
    ensures CargarDict(Dict(pre, Restringir(d, pre)), ValoresDe(ks, d.valores)) == d
    decreases |ks|
  {
    ClavesConValor(d);
    forall i | 0 <= i < |ks| ensures ks[i] in d.valores {
      assert ks[i] == d.claves[|pre| + i];
    }
    if ks == [] {
      assert pre == d.claves;
      RestringirTodas(d);
    } else {
      var k := ks[0];
      var p := d.valores[k];
      SiguienteNoRepetida(d.claves, pre, ks);
      RestringirPoner(d, pre, k);
      assert (pre + [k]) + ks[1..] == pre + ks;
      CargarValoresDesde(d, pre + [k], ks[1..]);
      assert ValoresDe(ks, d.valores) == [p] + ValoresDe(ks[1..], d.valores);
      CargarDictCabeza(Dict(pre, Restringir(d, pre)), p, ValoresDe(ks[1..], d.valores));
    }
  }

  /** Saving and loading again gives back the same dictionary, in the same
      order. */
  lemma CargarGuardado(d: Dict<Registro>)
    requires InventarioValido(d)
    ensures CargarDict(Vacio(), Valores(d)) == d
  {
    assert Dict([], Restringir(d, [])) == Vacio();
    CargarValoresDesde(d, [], d.claves);
  }

  /** The products a load stores, by what opening and decoding the file gives. */
  function Cargados(contenido: Contenido, lecturaPermitida: bool): (r: Dict<Registro>)
    ensures InventarioValido(r)
    ensures contenido.Json? && lecturaPermitida ==> r == CargarDict(Vacio(), contenido.registros)
    ensures !contenido.Json? || !lecturaPermitida ==> r == Vacio()
  {
    if contenido.Json? && lecturaPermitida then CargarDict(Vacio(), contenido.registros) else Vacio()
  }

  /** `producto.cantidad = nueva` on the entry for `id`. */
  function ActualizarCantidadEnDict(d: Dict<Registro>, id: int, nueva: int): (r: Actualizacion<Dict<Registro>>)
    requires InventarioValido(d)
    ensures r.SinProducto? <==> id !in d.valores
    ensures r.Rechazada? <==> id in d.valores && nueva < 0
    ensures r.Rechazada? ==> r.error == CantidadNegativa
    ensures r.Aplicada? ==> InventarioValido(r.nuevo) && r.nuevo.claves == d.claves
    ensures r.Aplicada? ==> r.nuevo.valores == d.valores[id := d.valores[id].(cantidad := nueva)]
  {
    if id !in d.valores then SinProducto
    else match ConCantidad(d.valores[id], nueva)
      case Failure(e) => Rechazada(e)
      case Success(p) => Aplicada(Poner(d, id, p))
  }

  /** `producto.precio = nuevo` on the entry for `id`. */
  function ActualizarPrecioEnDict(d: Dict<Registro>, id: int, nuevo: real): (r: Actualizacion<Dict<Registro>>)
    requires InventarioValido(d)
    ensures r.SinProducto? <==> id !in d.valores
    ensures r.Rechazada? <==> id in d.valores && nuevo < 0.0
    ensures r.Rechazada? ==> r.error == PrecioNegativo
    ensures r.Aplicada? ==> InventarioValido(r.nuevo) && r.nuevo.claves == d.claves
    ensures r.Aplicada? ==> r.nuevo.valores.Keys == d.valores.Keys
    ensures r.Aplicada? ==> forall k | k in d.valores && k != id :: r.nuevo.valores[k] == d.valores[k]
    ensures r.Aplicada? ==>
      var q := r.nuevo.valores[id];
      && q.id == id && q.nombre == d.valores[id].nombre && q.cantidad == d.valores[id].cantidad
      && -0.005 <= q.precio - nuevo <= 0.005
  {
    if id !in d.valores then SinProducto
    else match ConPrecio(d.valores[id], nuevo)
      case Failure(e) => Rechazada(e)
      case Success(p) => Aplicada(Poner(d, id, p))
  }

  class Inventario {
    var productos: Dict<Registro>
    const archivo: ArchivoJson

    ghost predicate Valid()
      reads this
    {
      InventarioValido(productos)
    }

    /** The file holds exactly the dictionary's values, in its order. */
    ghost predicate Consistente()
      reads this, archivo
      requires Valid()
    {
      archivo.contenido == Json(Valores(productos))
    }

    /** `Inventario(ruta)`: start empty and load the file. */
    constructor (archivo: ArchivoJson)
      modifies archivo
      ensures Valid() && this.archivo == archivo
      ensures productos == Cargados(old(archivo.contenido), old(archivo.lecturaPermitida))
      ensures archivo.contenido ==
        if old(archivo.contenido) == Ausente && old(archivo.escrituraPermitida) then Json([])
        else old(archivo.contenido)
      ensures archivo.lecturaPermitida == old(archivo.lecturaPermitida)
      ensures archivo.escrituraPermitida == old(archivo.escrituraPermitida)
    {
      productos := Vacio();
      this.archivo := archivo;
      new;
      CargarDesdeArchivo();
    }

    /** `cargar_desde_archivo`: store each product of the file under its id;
        a later product with the same id replaces the earlier one in place. */
    method CargarDesdeArchivo()
      requires Valid()
      modifies this, archivo
      ensures Valid()
      ensures old(archivo.contenido).Json? && old(archivo.lecturaPermitida) ==>
        productos == CargarDict(old(productos), old(archivo.contenido).registros)
      ensures !old(archivo.contenido).Json? || !old(archivo.lecturaPermitida) ==>
        productos == old(productos)
      ensures archivo.contenido ==
        if old(archivo.contenido) == Ausente && old(archivo.escrituraPermitida) then Json([])
        else old(archivo.contenido)
      ensures archivo.lecturaPermitida == old(archivo.lecturaPermitida)
      ensures archivo.escrituraPermitida == old(archivo.escrituraPermitida)
    {
      var leido := archivo.Leer();
      if leido == Failure(NoEncontrado) {
        var _ := archivo.Escribir([]);
        return;
      }
      if leido.Failure? {
        return;
      }
      var regs := leido.value;
      var i := 0;
      while i < |regs|
        modifies this
        invariant 0 <= i <= |regs|
        invariant CargarDict(productos, regs[i..]) == CargarDict(old(productos), regs)
        invariant InventarioValido(productos)
      {
        var p := CrearDesde(regs[i]);
        CargarDictPaso(productos, regs, i);
        if p.Failure? {
          break;
        }
        productos := Poner(productos, p.value.id, p.value);
        i := i + 1;
      }
    }

    /** `guardar_en_archivo`: the values, in insertion order, replace the
        file's content; a refused write is raised and the file stays. */
    method GuardarEnArchivo() returns (r: Outcome<ErrorArchivo>)
      requires Valid()
      modifies archivo
      ensures archivo.lecturaPermitida == old(archivo.lecturaPermitida)
      ensures archivo.escrituraPermitida == old(archivo.escrituraPermitida)
      ensures archivo.escrituraPermitida ==> r == Pass && Consistente()
      ensures !archivo.escrituraPermitida ==> r == Fail(SinPermiso) && archivo.contenido == old(archivo.contenido)
    {
      r := archivo.Escribir(Valores(productos));
    }

    /** What a mutation returns once its in-memory change is made. */
    ghost predicate Guardado(r: Result<bool, ErrorInventario>, antes: Contenido)
      reads this, archivo
      requires Valid()
    {
      && (archivo.escrituraPermitida ==> r == Success(true) && Consistente())
      && (!archivo.escrituraPermitida ==> r == Failure(Persistencia(SinPermiso)) && archivo.contenido == antes)
    }

    method Guardar() returns (r: Result<bool, ErrorInventario>)
      requires Valid()
      modifies archivo
      ensures archivo.lecturaPermitida == old(archivo.lecturaPermitida)
      ensures archivo.escrituraPermitida == old(archivo.escrituraPermitida)
      ensures Guardado(r, old(archivo.contenido))
    {
      var g := GuardarEnArchivo();
      if g.Fail? {
        return Failure(Persistencia(g.error));
      }
      return Success(true);
    }

    /** `agregar_producto`: refused, with no save, when the id is a key;
        otherwise stored at the end of the order and saved. */
    method AgregarProducto(p: Registro) returns (r: Result<bool, ErrorInventario>)
      requires Valid() && ProductoValido(p)
      modifies this, archivo
      ensures Valid()
      ensures archivo.lecturaPermitida == old(archivo.lecturaPermitida)
      ensures archivo.escrituraPermitida == old(archivo.escrituraPermitida)
      ensures p.id in old(productos.valores) ==>
        r == Success(false) && productos == old(productos) && archivo.contenido == old(archivo.contenido)
      ensures p.id !in old(productos.valores) ==>
        && productos.claves == old(productos.claves) + [p.id]
        && productos.valores == old(productos.valores)[p.id := p]
        && Guardado(r, old(archivo.contenido))
    {
      if p.id in productos.valores {
        return Success(false);
      }
      productos := Poner(productos, p.id, p);
      r := Guardar();
    }

    /** `eliminar_producto`: the entry leaves, the other keys keep their
        order, and the dictionary is saved; an absent id returns `False`
        with no save. */
    method EliminarProducto(id: int) returns (r: Result<bool, ErrorInventario>)
      requires Valid()
      modifies this, archivo
      ensures Valid()
      ensures archivo.lecturaPermitida == old(archivo.lecturaPermitida)
      ensures archivo.escrituraPermitida == old(archivo.escrituraPermitida)
      ensures id !in old(productos.valores) ==>
        r == Success(false) && productos == old(productos) && archivo.contenido == old(archivo.contenido)
      ensures id in old(productos.valores) ==>
        && productos == Quitar(old(productos), id)
        && id !in productos.valores
        && Tamano(productos) + 1 == Tamano(old(productos))
        && Guardado(r, old(archivo.contenido))
    {
      if id !in productos.valores {
        return Success(false);
      }
      ghost var antes := productos;
      productos := Quitar(productos, id);
      TamanoEsCardinal(antes);
      TamanoEsCardinal(productos);
      assert antes.valores.Keys == productos.valores.Keys + {id};
      r := Guardar();
    }

    /** `actualizar_cantidad`: `False` with no save for an absent id; the
        setter's `ValueError` escapes before any save; otherwise the entry
        gets the quantity, keeps its place, and the dictionary is saved. */
    method ActualizarCantidad(id: int, nueva: int) returns (r: Result<bool, ErrorInventario>)
      requires Valid()
      modifies this, archivo
      ensures Valid()
      ensures archivo.lecturaPermitida == old(archivo.lecturaPermitida)
      ensures archivo.escrituraPermitida == old(archivo.escrituraPermitida)
      ensures ActualizarCantidadEnDict(old(productos), id, nueva).SinProducto? ==>
        r == Success(false) && productos == old(productos) && archivo.contenido == old(archivo.contenido)
      ensures ActualizarCantidadEnDict(old(productos), id, nueva).Rechazada? ==>
        r == Failure(Validacion(CantidadNegativa)) && productos == old(productos)
        && archivo.contenido == old(archivo.contenido)
      ensures ActualizarCantidadEnDict(old(productos), id, nueva).Aplicada? ==>
        productos == ActualizarCantidadEnDict(old(productos), id, nueva).nuevo
        && Guardado(r, old(archivo.contenido))
    {
      var actual := BuscarPorId(id);
      if actual.None? {
        return Success(false);
      }
      var cambio := ConCantidad(actual.value, nueva);
      if cambio.Failure? {
        return Failure(Validacion(cambio.error));
      }
      productos := Poner(productos, id, cambio.value);
      r := Guardar();
    }

    /** `actualizar_precio`: as `actualizar_cantidad`, with the price setter. */
    method ActualizarPrecio(id: int, nuevo: real) returns (r: Result<bool, ErrorInventario>)
      requires Valid()
      modifies this, archivo
      ensures Valid()
      ensures archivo.lecturaPermitida == old(archivo.lecturaPermitida)
      ensures archivo.escrituraPermitida == old(archivo.escrituraPermitida)
      ensures ActualizarPrecioEnDict(old(productos), id, nuevo).SinProducto? ==>
        r == Success(false) && productos == old(productos) && archivo.contenido == old(archivo.contenido)
      ensures ActualizarPrecioEnDict(old(productos), id, nuevo).Rechazada? ==>
        r == Failure(Validacion(PrecioNegativo)) && productos == old(productos)
        && archivo.contenido == old(archivo.contenido)
      ensures ActualizarPrecioEnDict(old(productos), id, nuevo).Aplicada? ==>
        productos == ActualizarPrecioEnDict(old(productos), id, nuevo).nuevo
        && Guardado(r, old(archivo.contenido))
    {
      var actual := BuscarPorId(id);
      if actual.None? {
        return Success(false);
      }
      var cambio := ConPrecio(actual.value, nuevo);
      if cambio.Failure? {
        return Failure(Validacion(cambio.error));
      }
      productos := Poner(productos, id, cambio.value);
      r := Guardar();
    }

    /** `buscar_por_id`: the entry under the id, if any. */
    function BuscarPorId(id: int): (r: Option<Registro>)
      reads this
      requires Valid()
      ensures r.None? <==> id !in productos.valores
      ensures r.Some? ==> r.value.id == id && ProductoValido(r.value) && r.value in Valores(productos)
    {
      ClavesConValor(productos);
      if id in productos.valores then
        ValoresContiene(productos, id);
        Some(productos.valores[id])
      else None
    }

    /** `buscar_por_nombre`: the matching values, in insertion order. */
    function BuscarPorNombre(consulta: string): (r: seq<Registro>)
      reads this
      requires Valid()
      ensures r == FiltrarPorNombre(Valores(productos), consulta)
      ensures forall p :: p in r <==> p in Valores(productos) && Coincide(p, consulta)
    {
      FiltrarPorNombreElementos(Valores(productos), consulta);
      FiltrarPorNombre(Valores(productos), consulta)
    }

    /** `obtener_todos`: the values sorted by id. */
    function ObtenerTodos(): (r: seq<Registro>)
      reads this
      requires Valid()
      ensures OrdenadoPorId(r) && multiset(r) == multiset(Valores(productos))
      ensures |r| == ObtenerTamano()
    {
      var t := OrdenarPorId(Valores(productos));
      assert |t| == |multiset(t)| == |Valores(productos)|;
      t
    }

    function ObtenerTamano(): (n: nat)
      reads this
      requires Valid()
      ensures n == |productos.valores|
    {
      TamanoEsCardinal(productos);
      Tamano(productos)
    }

    /** `esta_vacio`. */
    function EstaVacio(): (r: bool)
      reads this
      requires Valid()
      ensures r <==> productos.valores == map[]
    {
      ObtenerTamano() == 0
    }
  }

  /** A worked example of the store: add product 1, set its price to 799.999
      (stored as 800.0), then remove it, which leaves nothing to save. */
  lemma EscenarioLaptop()
    ensures
      var p := Registro(1, "Laptop", 10, 850.0);
      var d := Poner(Vacio(), 1, p);
      var q := p.(precio := 800.0);
      && Crear(1, "Laptop", 10, 850.0) == Success(p)
      && InventarioValido(d)
      && ActualizarPrecioEnDict(d, 1, 799.999) == Aplicada(Poner(d, 1, q))
      && Tamano(Quitar(Poner(d, 1, q), 1)) == 0
      && Valores(Quitar(Poner(d, 1, q), 1)) == []
  {
    var p := Registro(1, "Laptop", 10, 850.0);
    var q := p.(precio := 800.0);
    assert RedondearCentesimas(850.0) == 850.0 by {
      RedondearEnteroFijo(85000);
    }
    assert Recortado(p.nombre) by {
      assert !EsEspacio('L') && !EsEspacio('p');
    }
    CrearDesdeToDict(p);
    var d := Poner(Vacio(), 1, p);
    assert d == Dict([1], map[1 := p]);
    RedondearEjemploPrecio();
    assert ConPrecio(p, 799.999) == Success(q);
    var e := Poner(d, 1, q);
    assert e == Dict([1], map[1 := q]);
    assert SinClave([1], 1) == [];
    assert Quitar(e, 1) == Dict([], map[]);
  }

  /** Every entry appears among the values. */
  lemma ValoresContiene(d: Dict<Registro>, k: int)
    requires BienFormado(d) && k in d.valores
    ensures d.valores[k] in Valores(d)
  {
    ClavesConValor(d);
    var i :| 0 <= i < |d.claves| && d.claves[i] == k;
    assert Valores(d)[i] == d.valores[k];
  }
}
