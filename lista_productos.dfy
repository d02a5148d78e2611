/** The queries and list operations the three inventories share, on a list
    of product values: the linear search by id, the removal of the first
    product with an id, the name search, the listing sorted by id, and the
    replay of a file's records into a list. */
module ListaProductos {
  import opened Wrappers
  import opened Texto
  import opened Producto

  predicate IdsUnicos(s: seq<Registro>)
  {
    forall i, j | 0 <= i < j < |s| :: s[i].id != s[j].id
  }

  predicate TodosValidos(s: seq<Registro>)
  {
    forall i | 0 <= i < |s| :: ProductoValido(s[i])
  }

  /** Some product of `s` has this id. */
  predicate TieneId(s: seq<Registro>, id: int)
  {
    exists i | 0 <= i < |s| :: s[i].id == id
  }

  /** The position of the first product with this id, scanning from the front. */
  function IndiceDeId(s: seq<Registro>, id: int): (r: Option<nat>)
    ensures r.Some? ==> r.value < |s| && s[r.value].id == id
    ensures r.Some? ==> forall j | 0 <= j < r.value :: s[j].id != id
    ensures r.None? <==> !TieneId(s, id)
  {
    if s == [] then None
    else if s[0].id == id then Some(0)
    else match IndiceDeId(s[1..], id)
      case None => None
      case Some(i) => Some(i + 1)
  }

  /** With unique ids, the product found is the only one with that id. */
  lemma IndiceDeIdUnico(s: seq<Registro>, id: int, k: nat)
    requires IdsUnicos(s) && k < |s| && s[k].id == id
    ensures IndiceDeId(s, id) == Some(k)
  {
  }

  /** `buscar_por_id`: the first product in list order with this id. */
  function PrimeroConId(s: seq<Registro>, id: int): Option<Registro>
  {
    match IndiceDeId(s, id)
    case None => None
    case Some(i) => Some(s[i])
  }

  /** `lista.remove(buscar_por_id(id))`: drop the first product with this
      id, keeping the others in their order. */
  function EliminarPrimero(s: seq<Registro>, id: int): (r: seq<Registro>)
    ensures !TieneId(s, id) ==> r == s
    ensures TieneId(s, id) ==> |r| == |s| - 1
    ensures TieneId(s, id) ==> multiset(r) + multiset{s[IndiceDeId(s, id).value]} == multiset(s)
    ensures TieneId(s, id) ==> forall k | 0 <= k < IndiceDeId(s, id).value :: r[k] == s[k]
    ensures TieneId(s, id) ==> forall k | IndiceDeId(s, id).value <= k < |r| :: r[k] == s[k + 1]
  {
    match IndiceDeId(s, id)
    case None => s
    case Some(i) =>
      assert s == s[..i] + [s[i]] + s[i + 1..];
      s[..i] + s[i + 1..]
  }

  /** Removing from a list with unique ids removes every trace of the id and
      keeps ids unique; all other products stay, in their order. */
  lemma EliminarPrimeroUnico(s: seq<Registro>, id: int)
    requires IdsUnicos(s)
    ensures IdsUnicos(EliminarPrimero(s, id))
    ensures !TieneId(EliminarPrimero(s, id), id)
    ensures forall p | p in s && p.id != id :: p in EliminarPrimero(s, id)
  {
    match IndiceDeId(s, id)
    case None =>
    case Some(i) =>
      assert EliminarPrimero(s, id) == s[..i] + s[i + 1..];
      SinPosicionUnicos(s, i);
      SinPosicionSinId(s, i);
      SinPosicionConserva(s, i);
  }

  lemma SinPosicionUnicos(s: seq<Registro>, i: nat)
    requires IdsUnicos(s) && i < |s|
    ensures IdsUnicos(s[..i] + s[i + 1..])
  {
    var r := s[..i] + s[i + 1..];
    forall a, b | 0 <= a < b < |r| ensures r[a].id != r[b].id {
      var a', b' := if a < i then a else a + 1, if b < i then b else b + 1;
      assert r[a] == s[a'] && r[b] == s[b'];
    }
  }

  lemma SinPosicionSinId(s: seq<Registro>, i: nat)
    requires IdsUnicos(s) && i < |s|
    ensures !TieneId(s[..i] + s[i + 1..], s[i].id)
  {
    var r := s[..i] + s[i + 1..];
    forall k | 0 <= k < |r| ensures r[k].id != s[i].id {
      if k < i { assert r[k] == s[k]; } else { assert r[k] == s[k + 1]; }
    }
  }

  lemma SinPosicionConserva(s: seq<Registro>, i: nat)
    requires i < |s|
    ensures forall p | p in s && p.id != s[i].id :: p in s[..i] + s[i + 1..]
  {
    var r := s[..i] + s[i + 1..];
    forall p | p in s && p.id != s[i].id ensures p in r {
      var k :| 0 <= k < |s| && s[k] == p;
      if k < i { assert r[k] == p; } else { assert k != i; assert r[k - 1] == p; }
    }
  }

  /** What an update by id does to a store: no product has the id (the
      method returns `False`), the setter refused the value (its `ValueError`
      escapes), or the store after the change. */
  datatype Actualizacion<T> = SinProducto | Rechazada(error: ErrorValidacion) | Aplicada(nuevo: T)

  /** `t` is `s` with only the product at `i` changed, and that one keeps its
      id and name. */
  predicate SoloCambiaEn(s: seq<Registro>, t: seq<Registro>, i: nat)
  {
    && |t| == |s| && i < |s|
    && (forall j | 0 <= j < |s| && j != i :: t[j] == s[j])
    && t[i].id == s[i].id && t[i].nombre == s[i].nombre
  }

  /** Changing one product's quantity or price keeps ids unique and every
      product valid. */
  lemma SoloCambiaConserva(s: seq<Registro>, t: seq<Registro>, i: nat)
    requires SoloCambiaEn(s, t, i) && ProductoValido(t[i])
    ensures IdsUnicos(s) ==> IdsUnicos(t)
    ensures TodosValidos(s) ==> TodosValidos(t)
  {
  }

  /** `actualizar_cantidad` on a list: the setter applied to the first
      product with the id. */
  function ActualizarCantidadEnLista(s: seq<Registro>, id: int, nueva: int): (r: Actualizacion<seq<Registro>>)
    ensures r.SinProducto? <==> !TieneId(s, id)
    ensures r.Rechazada? <==> TieneId(s, id) && nueva < 0
    ensures r.Rechazada? ==> r.error == CantidadNegativa
    ensures r.Aplicada? ==> SoloCambiaEn(s, r.nuevo, IndiceDeId(s, id).value)
    ensures r.Aplicada? ==> r.nuevo[IndiceDeId(s, id).value].cantidad == nueva
    ensures r.Aplicada? ==> r.nuevo[IndiceDeId(s, id).value].precio == s[IndiceDeId(s, id).value].precio
    ensures r.Aplicada? && TodosValidos(s) ==> TodosValidos(r.nuevo)
  {
    match IndiceDeId(s, id)
    case None => SinProducto
    case Some(i) =>
      match ConCantidad(s[i], nueva)
      case Failure(e) => Rechazada(e)
      case Success(p) =>
        assert TodosValidos(s) ==> ProductoValido(s[i]);
        Aplicada(s[i := p])
  }

  /** `actualizar_precio` on a list: the setter applied to the first product
      with the id. */
  function ActualizarPrecioEnLista(s: seq<Registro>, id: int, nuevo: real): (r: Actualizacion<seq<Registro>>)
    ensures r.SinProducto? <==> !TieneId(s, id)
    ensures r.Rechazada? <==> TieneId(s, id) && nuevo < 0.0
    ensures r.Rechazada? ==> r.error == PrecioNegativo
    ensures r.Aplicada? ==> SoloCambiaEn(s, r.nuevo, IndiceDeId(s, id).value)
    ensures r.Aplicada? ==> -0.005 <= r.nuevo[IndiceDeId(s, id).value].precio - nuevo <= 0.005
    ensures r.Aplicada? ==> r.nuevo[IndiceDeId(s, id).value].cantidad == s[IndiceDeId(s, id).value].cantidad
    ensures r.Aplicada? && TodosValidos(s) ==> TodosValidos(r.nuevo)
  {
    match IndiceDeId(s, id)
    case None => SinProducto
    case Some(i) =>
      match ConPrecio(s[i], nuevo)
      case Failure(e) => Rechazada(e)
      case Success(p) =>
        assert TodosValidos(s) ==> ProductoValido(s[i]);
        Aplicada(s[i := p])
  }

  /** The name search: the trimmed, lower-cased query occurs in the
      lower-cased name. */
  predicate Coincide(p: Registro, consulta: string)
  {
    EsSubcadena(Minusculas(Strip(consulta)), Minusculas(p.nombre))
  }

  /** `[p for p in productos if consulta in p.nombre.lower()]`, in list order. */
  function FiltrarPorNombre(s: seq<Registro>, consulta: string): (r: seq<Registro>)
    ensures |r| <= |s|
  {
    if s == [] then []
    else
      if Coincide(s[0], consulta) then [s[0]] + FiltrarPorNombre(s[1..], consulta)
      else FiltrarPorNombre(s[1..], consulta)
  }

  /** The search keeps every matching product as often as the list holds
      it, and no other. */
  lemma {:induction false} FiltrarPorNombreMultiplicidad(s: seq<Registro>, consulta: string)
    ensures forall p :: multiset(FiltrarPorNombre(s, consulta))[p] == if Coincide(p, consulta) then multiset(s)[p] else 0
  {
    if s != [] {
      var resto := FiltrarPorNombre(s[1..], consulta);
      FiltrarPorNombreMultiplicidad(s[1..], consulta);
      assert s == [s[0]] + s[1..];
      assert FiltrarPorNombre(s, consulta) == (if Coincide(s[0], consulta) then [s[0]] else []) + resto;
    }
  }

  /** The search returns exactly the matching products of the list. */
  lemma FiltrarPorNombreElementos(s: seq<Registro>, consulta: string)
    ensures forall p :: p in FiltrarPorNombre(s, consulta) <==> p in s && Coincide(p, consulta)
  {
    var r := FiltrarPorNombre(s, consulta);
    FiltrarPorNombreMultiplicidad(s, consulta);
    forall p ensures p in r <==> p in s && Coincide(p, consulta) {
      assert p in r <==> multiset(r)[p] > 0;
      assert p in s <==> multiset(s)[p] > 0;
    }
  }

  /** The search keeps list order: searching two lists one after the other
      gives the two results one after the other. */
  lemma {:induction false} FiltrarPorNombreConcatena(a: seq<Registro>, b: seq<Registro>, consulta: string)
    ensures FiltrarPorNombre(a + b, consulta) == FiltrarPorNombre(a, consulta) + FiltrarPorNombre(b, consulta)
  {
    if a == [] {
      assert a + b == b;
    } else {
      assert (a + b)[0] == a[0] && (a + b)[1..] == a[1..] + b;
      FiltrarPorNombreConcatena(a[1..], b, consulta);
    }
  }

  /** A query that is empty or blank after trimming matches every product. */
  lemma {:induction false} FiltrarConsultaEnBlanco(s: seq<Registro>, consulta: string)
    requires EnBlanco(consulta)
    ensures FiltrarPorNombre(s, consulta) == s
  {
    if s != [] {
      StripVacioSiEnBlanco(consulta);
      VaciaEsSubcadena(Minusculas(s[0].nombre));
      FiltrarConsultaEnBlanco(s[1..], consulta);
    }
  }

  /** The search is insensitive to the case of the name too: a name and its
      lower-cased form match the same queries. */
  lemma CoincideSinMayusculas(p: Registro, consulta: string)
    ensures Coincide(p, consulta) <==> Coincide(p.(nombre := Minusculas(p.nombre)), consulta)
  {
    assert Minusculas(Minusculas(p.nombre)) == Minusculas(p.nombre);
  }

  predicate OrdenadoPorId(s: seq<Registro>)
  {
    forall i, j | 0 <= i < j < |s| :: s[i].id <= s[j].id
  }

  /** Put `p` before the first product whose id is not smaller, so that a
      product keeps its place ahead of later ones with the same id. */
  function Insertar(p: Registro, s: seq<Registro>): (r: seq<Registro>)
    ensures |r| == |s| + 1
  {
    if s == [] then [p]
    else if p.id <= s[0].id then [p] + s
    else [s[0]] + Insertar(p, s[1..])
  }

  /** Inserting adds exactly that product. */
  lemma {:induction false} InsertarAgrega(p: Registro, s: seq<Registro>)
    ensures multiset(Insertar(p, s)) == multiset(s) + multiset{p}
  {
    if s != [] && p.id > s[0].id {
      InsertarAgrega(p, s[1..]);
      assert s == [s[0]] + s[1..];
    }
  }

  /** Inserting a product whose id is at least `c` into a list whose ids
      are at least `c` gives a list whose ids are at least `c`. */
  lemma {:induction false} InsertarCota(p: Registro, s: seq<Registro>, c: int)
    requires p.id >= c && forall k | 0 <= k < |s| :: s[k].id >= c
    ensures forall k | 0 <= k < |Insertar(p, s)| :: Insertar(p, s)[k].id >= c
  {
    if s != [] && p.id > s[0].id {
      InsertarCota(p, s[1..], c);
      var r := Insertar(p, s);
      forall k | 0 < k < |r| ensures r[k].id >= c {
        assert r[k] == Insertar(p, s[1..])[k - 1];
      }
    }
  }

  /** Inserting into a list sorted by id keeps it sorted. */
  lemma {:induction false} InsertarOrdenado(p: Registro, s: seq<Registro>)
    requires OrdenadoPorId(s)
    ensures OrdenadoPorId(Insertar(p, s))
  {
    if s != [] && p.id > s[0].id {
      var resto := Insertar(p, s[1..]);
      assert forall k | 0 <= k < |s| - 1 :: s[1..][k] == s[k + 1];
      InsertarOrdenado(p, s[1..]);
      InsertarCota(p, s[1..], s[0].id);
      var r := [s[0]] + resto;
      forall a, b | 0 <= a < b < |r| ensures r[a].id <= r[b].id {
        if a > 0 {
          assert r[a] == resto[a - 1] && r[b] == resto[b - 1];
        } else {
          assert r[b] == resto[b - 1];
        }
      }
    }
  }

  /** `sorted(productos, key=lambda p: p.id)`: a stable insertion sort. */
  function OrdenarPorId(s: seq<Registro>): (r: seq<Registro>)
    ensures OrdenadoPorId(r)
    ensures multiset(r) == multiset(s)
  {
    if s == [] then []
    else
      assert s == [s[0]] + s[1..];
      var resto := OrdenarPorId(s[1..]);
      InsertarOrdenado(s[0], resto);
      InsertarAgrega(s[0], resto);
      Insertar(s[0], resto)
  }

  /** The products with id `c`, in list order. */
  function ConId(s: seq<Registro>, c: int): seq<Registro>
  {
    if s == [] then []
    else (if s[0].id == c then [s[0]] else []) + ConId(s[1..], c)
  }

  /** Inserting puts `p` ahead of every product with the same id. */
  lemma {:induction false} InsertarConId(p: Registro, s: seq<Registro>, c: int)
    ensures ConId(Insertar(p, s), c) == (if p.id == c then [p] else []) + ConId(s, c)
  {
    var r := Insertar(p, s);
    if s == [] || p.id <= s[0].id {
      assert r[0] == p && r[1..] == s;
    } else {
      var t := Insertar(p, s[1..]);
      assert r[0] == s[0] && r[1..] == t;
      InsertarConId(p, s[1..], c);
      assert ConId(s, c) == (if s[0].id == c then [s[0]] else []) + ConId(s[1..], c);
      if c == p.id {
        assert ConId(r, c) == ConId(t, c);
      } else {
        assert ConId(t, c) == ConId(s[1..], c);
      }
    }
  }

  /** The sort is stable, as Python's `sorted` is: products with the same id
      keep the order they had in the list. */
  lemma {:induction false} OrdenarPorIdEstable(s: seq<Registro>, c: int)
    ensures ConId(OrdenarPorId(s), c) == ConId(s, c)
  {
    if s != [] {
      OrdenarPorIdEstable(s[1..], c);
      InsertarConId(s[0], OrdenarPorId(s[1..]), c);
    }
  }

  /** The records of a file appended one by one, each through the product
      constructor; the first record the constructor refuses ends the load
      and the ones before it stay. */
  function CargarLista(regs: seq<Registro>): (r: seq<Registro>)
    ensures |r| <= |regs|
  {
    if regs == [] then []
    else match CrearDesde(regs[0])
      case Failure(_) => []
      case Success(p) => [p] + CargarLista(regs[1..])
  }

  /** The load keeps the products built from a prefix of the records, in
      order, and stops exactly at the first record the constructor refuses. */
  lemma {:induction false} CargarListaPrefijo(regs: seq<Registro>)
    ensures forall i | 0 <= i < |CargarLista(regs)| :: CrearDesde(regs[i]) == Success(CargarLista(regs)[i])
    ensures |CargarLista(regs)| < |regs| ==> CrearDesde(regs[|CargarLista(regs)|]).Failure?
  {
    if regs != [] && CrearDesde(regs[0]).Success? {
      CargarListaPrefijo(regs[1..]);
      var r := CargarLista(regs);
      forall i | 0 < i < |r| ensures CrearDesde(regs[i]) == Success(r[i]) {
        assert regs[i] == regs[1..][i - 1];
      }
      if |r| < |regs| {
        assert regs[|r|] == regs[1..][|r| - 1];
      }
    }
  }

  /** One step of a load: the record at `i` either stops it or is kept
      before the rest. */
  lemma CargarListaPaso(regs: seq<Registro>, i: nat)
    requires i < |regs|
    ensures CrearDesde(regs[i]).Failure? ==> CargarLista(regs[i..]) == []
    ensures CrearDesde(regs[i]).Success? ==>
      CargarLista(regs[i..]) == [CrearDesde(regs[i]).value] + CargarLista(regs[i + 1..])
  {
    assert regs[i..][1..] == regs[i + 1..];
  }

  /** Everything a load appends is a valid product. */
  lemma CargarListaValidos(regs: seq<Registro>)
    ensures TodosValidos(CargarLista(regs))
  {
    CargarListaPrefijo(regs);
  }

  /** Saving a list of products and loading the file back gives the same
      list, in the same order. */
  lemma {:induction false} CargarListaGuardada(s: seq<Registro>)
    requires TodosValidos(s)
    ensures CargarLista(s) == s
  {
    if s != [] {
      CrearDesdeToDict(s[0]);
      CargarListaGuardada(s[1..]);
    }
  }

  /** The list load does not look for duplicates: a file holding the same
      product twice loads as two entries with the same id. */
  lemma CargarListaDuplicada(p: Registro)
    requires ProductoValido(p)
    ensures CargarLista([p, p]) == [p, p]
    ensures !IdsUnicos(CargarLista([p, p]))
  {
    var s := [p, p];
    assert TodosValidos(s) by {
      forall i | 0 <= i < |s| ensures ProductoValido(s[i]) {
        assert s[i] == p;
      }
    }
    CargarListaGuardada(s);
    assert s[0].id == s[1].id;
  }

  /** A file whose records have distinct ids loads with unique ids. */
  lemma CargarListaIdsUnicos(regs: seq<Registro>)
    requires IdsUnicos(regs)
    ensures IdsUnicos(CargarLista(regs))
  {
    var r := CargarLista(regs);
    CargarListaPrefijo(regs);
    forall i, j | 0 <= i < j < |r| ensures r[i].id != r[j].id {
      assert CrearDesde(regs[i]) == Success(r[i]) && CrearDesde(regs[j]) == Success(r[j]);
    }
  }
}
