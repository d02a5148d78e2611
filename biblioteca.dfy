/** Library lending (semana04/EjemplosMundoReal_POO/1_gestion_biblioteca.py).
    Books and users are entries of maps keyed by ISBN and user id; every loan
    ever made is an entry of one list, and a book's history and a user's
    active loans hold positions in that list, so both see the same loan as
    the objects of the original share it.  Time is an abstract integer
    passed in by the caller. */
module Biblioteca {
  import opened Wrappers

  type Isbn = string
  type UsuarioId = string

  /** Default loan length, in days. */
  const DIAS_PRESTAMO: int := 14

  datatype Prestamo = Prestamo(libro: Isbn, usuario: UsuarioId, inicio: int, vence: int, devolucion: Option<int>)

  datatype Libro = Libro(titulo: string, autor: string, anio: int, disponible: bool, prestamos: seq<nat>)

  datatype Usuario = Usuario(nombre: string, tipo: string, activos: seq<nat>)

  datatype ErrorPrestamo = NoDisponible

  /** `Prestamo(libro, usuario, dias)` at time `ahora`. */
  function NuevoPrestamo(libro: Isbn, usuario: UsuarioId, ahora: int, dias: int): (p: Prestamo)
    ensures p.libro == libro && p.usuario == usuario && p.inicio == ahora
    ensures p.vence - p.inicio == dias
    ensures p.devolucion.None?
  {
    Prestamo(libro, usuario, ahora, ahora + dias, None)
  }

  /** `finalizar`: record the return time. */
  function Finalizado(p: Prestamo, ahora: int): (q: Prestamo)
    ensures q.devolucion == Some(ahora)
    ensures q.libro == p.libro && q.usuario == p.usuario && q.inicio == p.inicio && q.vence == p.vence
  {
    p.(devolucion := Some(ahora))
  }

  /** `esta_vencido`: still out and past its due time. */
  predicate EstaVencido(p: Prestamo, ahora: int)
    ensures p.devolucion.Some? ==> !EstaVencido(p, ahora)
    ensures EstaVencido(p, ahora) ==> ahora > p.vence
    ensures ahora <= p.vence ==> !EstaVencido(p, ahora)
  {
    p.devolucion.None? && ahora > p.vence
  }

  /** A finalised loan is never overdue again; a loan of `dias >= 0` days is
      not overdue before its due time, and an open one is overdue at any
      later time once it is overdue. */
  lemma VencimientoDePrestamo(libro: Isbn, usuario: UsuarioId, inicio: int, dias: int, ahora: int, despues: int)
    ensures !EstaVencido(Finalizado(NuevoPrestamo(libro, usuario, inicio, dias), despues), ahora)
    ensures EstaVencido(NuevoPrestamo(libro, usuario, inicio, dias), ahora) <==> ahora > inicio + dias
    ensures EstaVencido(NuevoPrestamo(libro, usuario, inicio, dias), ahora) && ahora <= despues ==>
      EstaVencido(NuevoPrestamo(libro, usuario, inicio, dias), despues)
  {
  }

  /** The loans of `ids` that are not of book `isbn`, in order. */
  function SinLibro(ids: seq<nat>, prestamos: seq<Prestamo>, isbn: Isbn): (r: seq<nat>)
    requires forall j | 0 <= j < |ids| :: ids[j] < |prestamos|
    ensures |r| <= |ids|
  {
    if ids == [] then []
    else
      var resto := SinLibro(ids[1..], prestamos, isbn);
      if prestamos[ids[0]].libro == isbn then resto else [ids[0]] + resto
  }

  /** The filter keeps the order of the active loans: filtering two lists
      one after the other gives the two results one after the other. */
  lemma {:induction false} SinLibroConcatena(a: seq<nat>, b: seq<nat>, prestamos: seq<Prestamo>, isbn: Isbn)
    requires forall j | 0 <= j < |a| :: a[j] < |prestamos|
    requires forall j | 0 <= j < |b| :: b[j] < |prestamos|
    ensures SinLibro(a + b, prestamos, isbn) == SinLibro(a, prestamos, isbn) + SinLibro(b, prestamos, isbn)
  {
    if a == [] {
      assert a + b == b;
    } else {
      assert (a + b)[0] == a[0] && (a + b)[1..] == a[1..] + b;
      SinLibroConcatena(a[1..], b, prestamos, isbn);
    }
  }

  /** The filter keeps every loan not of the book as often as it is listed,
      and no loan of the book. */
  lemma {:induction false} SinLibroMultiplicidad(ids: seq<nat>, prestamos: seq<Prestamo>, isbn: Isbn)
    requires forall j | 0 <= j < |ids| :: ids[j] < |prestamos|
    ensures forall x :: multiset(SinLibro(ids, prestamos, isbn))[x] == if x in ids && prestamos[x].libro != isbn then multiset(ids)[x] else 0
  {
    if ids != [] {
      var resto := SinLibro(ids[1..], prestamos, isbn);
      SinLibroMultiplicidad(ids[1..], prestamos, isbn);
      assert ids == [ids[0]] + ids[1..];
      assert SinLibro(ids, prestamos, isbn) == (if prestamos[ids[0]].libro == isbn then [] else [ids[0]]) + resto;
    }
  }

  /** The filtered active loans are exactly those not of the book. */
  lemma SinLibroElementos(ids: seq<nat>, prestamos: seq<Prestamo>, isbn: Isbn)
    requires forall j | 0 <= j < |ids| :: ids[j] < |prestamos|
    ensures forall x :: x in SinLibro(ids, prestamos, isbn) <==> x in ids && prestamos[x].libro != isbn
  {
    var r := SinLibro(ids, prestamos, isbn);
    SinLibroMultiplicidad(ids, prestamos, isbn);
    forall x ensures x in r <==> x in ids && prestamos[x].libro != isbn {
      assert x in r <==> multiset(r)[x] > 0;
      assert x in ids <==> multiset(ids)[x] > 0;
    }
  }

  /** The filter looks only at which book each loan is of. */
  lemma {:induction false} SinLibroMismosLibros(ids: seq<nat>, antes: seq<Prestamo>, despues: seq<Prestamo>, isbn: Isbn)
    requires |antes| == |despues| && forall j | 0 <= j < |antes| :: antes[j].libro == despues[j].libro
    requires forall j | 0 <= j < |ids| :: ids[j] < |antes|
    ensures SinLibro(ids, antes, isbn) == SinLibro(ids, despues, isbn)
  {
    if ids != [] {
      SinLibroMismosLibros(ids[1..], antes, despues, isbn);
    }
  }

  /** A book's state agrees with its history: it is lent exactly when its
      last loan is still open, and every loan in its history is of it. */
  ghost predicate LibroValido(isbn: Isbn, l: Libro, prestamos: seq<Prestamo>)
  {
    && (forall j | 0 <= j < |l.prestamos| :: l.prestamos[j] < |prestamos| && prestamos[l.prestamos[j]].libro == isbn)
    && (!l.disponible <==> |l.prestamos| > 0 && prestamos[l.prestamos[|l.prestamos| - 1]].devolucion.None?)
  }

  ghost predicate UsuarioValido(id: UsuarioId, u: Usuario, prestamos: seq<Prestamo>)
  {
    forall j | 0 <= j < |u.activos| :: u.activos[j] < |prestamos| && prestamos[u.activos[j]].usuario == id
  }

  /** A loan of the same user can join the user's active loans. */
  lemma UsuarioValidoAgregar(id: UsuarioId, u: Usuario, prestamos: seq<Prestamo>, k: nat)
    requires UsuarioValido(id, u, prestamos) && k < |prestamos| && prestamos[k].usuario == id
    ensures UsuarioValido(id, u.(activos := u.activos + [k]), prestamos)
  {
    var activos := u.activos + [k];
    forall j | 0 <= j < |activos| ensures activos[j] < |prestamos| && prestamos[activos[j]].usuario == id {
      if j < |u.activos| {
        assert activos[j] == u.activos[j];
      }
    }
  }

  /** Dropping the loans of one book keeps the user valid. */
  lemma UsuarioValidoSinLibro(id: UsuarioId, u: Usuario, prestamos: seq<Prestamo>, isbn: Isbn)
    requires UsuarioValido(id, u, prestamos)
    ensures UsuarioValido(id, u.(activos := SinLibro(u.activos, prestamos, isbn)), prestamos)
  {
    var activos := SinLibro(u.activos, prestamos, isbn);
    SinLibroElementos(u.activos, prestamos, isbn);
    forall j | 0 <= j < |activos| ensures activos[j] < |prestamos| && prestamos[activos[j]].usuario == id {
      assert activos[j] in u.activos;
    }
  }

  class Biblioteca {
    var libros: map<Isbn, Libro>
    var usuarios: map<UsuarioId, Usuario>
    var prestamos: seq<Prestamo>

    ghost predicate Valid()
      reads this
    {
      && (forall b | b in libros :: LibroValido(b, libros[b], prestamos))
      && (forall u | u in usuarios :: UsuarioValido(u, usuarios[u], prestamos))
    }

    constructor ()
      ensures Valid()
      ensures libros == map[] && usuarios == map[] && prestamos == []
    {
      libros := map[];
      usuarios := map[];
      prestamos := [];
    }

    /** `Libro(isbn, titulo, autor, anio)`: a new book is available and has
        no loans. */
    method AgregarLibro(isbn: Isbn, titulo: string, autor: string, anio: int)
      requires Valid() && isbn !in libros
      modifies this
      ensures Valid()
      ensures libros == old(libros)[isbn := Libro(titulo, autor, anio, true, [])]
      ensures usuarios == old(usuarios) && prestamos == old(prestamos)
    {
      libros := libros[isbn := Libro(titulo, autor, anio, true, [])];
    }

    /** `Usuario(id, nombre, tipo)`: a new user has no active loans. */
    method RegistrarUsuario(id: UsuarioId, nombre: string, tipo: string)
      requires Valid() && id !in usuarios
      modifies this
      ensures Valid()
      ensures usuarios == old(usuarios)[id := Usuario(nombre, tipo, [])]
      ensures libros == old(libros) && prestamos == old(prestamos)
    {
      usuarios := usuarios[id := Usuario(nombre, tipo, [])];
    }

    /** `Libro.prestar_a`: an available book gets a new loan at the end of its
        history and becomes lent; a lent book raises `ValueError`. */
    method PrestarA(isbn: Isbn, usuario: UsuarioId, ahora: int, dias: int) returns (r: Result<nat, ErrorPrestamo>)
      requires Valid() && isbn in libros
      modifies this
      ensures Valid()
      ensures usuarios == old(usuarios) && libros.Keys == old(libros.Keys)
      ensures old(libros[isbn].disponible) ==>
        && r == Success(|old(prestamos)|)
        && prestamos == old(prestamos) + [NuevoPrestamo(isbn, usuario, ahora, dias)]
        && libros == old(libros)[isbn := old(libros[isbn]).(disponible := false, prestamos := old(libros[isbn].prestamos) + [r.value])]
      ensures !old(libros[isbn].disponible) ==>
        r == Failure(NoDisponible) && libros == old(libros) && prestamos == old(prestamos)
    {
      var libro := libros[isbn];
      if !libro.disponible {
        return Failure(NoDisponible);
      }
      var id := |prestamos|;
      prestamos := prestamos + [NuevoPrestamo(isbn, usuario, ahora, dias)];
      libros := libros[isbn := libro.(disponible := false, prestamos := libro.prestamos + [id])];
      r := Success(id);
      forall b | b in libros ensures LibroValido(b, libros[b], prestamos) {
        assert b != isbn ==> libros[b] == old(libros[b]);
      }
      forall u | u in usuarios ensures UsuarioValido(u, usuarios[u], prestamos) {
        assert UsuarioValido(u, usuarios[u], old(prestamos));
      }
    }

    /** `Libro.devolver`: a lent book with loans finalises its last loan and
        becomes available; otherwise nothing changes. */
    method Devolver(isbn: Isbn, ahora: int)
      requires Valid() && isbn in libros
      modifies this
      ensures Valid()
      ensures libros.Keys == old(libros.Keys) && libros[isbn].disponible
      ensures usuarios == old(usuarios)
      ensures |old(libros[isbn].prestamos)| > 0 && !old(libros[isbn].disponible) ==>
        var k := old(libros[isbn].prestamos)[|old(libros[isbn].prestamos)| - 1];
        && prestamos == old(prestamos)[k := Finalizado(old(prestamos)[k], ahora)]
        && libros == old(libros)[isbn := old(libros[isbn]).(disponible := true)]
      ensures |old(libros[isbn].prestamos)| == 0 || old(libros[isbn].disponible) ==>
        libros == old(libros) && prestamos == old(prestamos)
    {
      var libro := libros[isbn];
      if |libro.prestamos| > 0 && !libro.disponible {
        var k := libro.prestamos[|libro.prestamos| - 1];
        prestamos := prestamos[k := Finalizado(prestamos[k], ahora)];
        libros := libros[isbn := libro.(disponible := true)];
        forall b | b in libros ensures LibroValido(b, libros[b], prestamos) {
          if b != isbn {
            var h := libros[b].prestamos;
            assert LibroValido(b, old(libros[b]), old(prestamos));
            forall j | 0 <= j < |h| ensures h[j] != k {
              assert old(prestamos)[h[j]].libro == b;
            }
          }
        }
        forall u | u in usuarios ensures UsuarioValido(u, usuarios[u], prestamos) {
          assert UsuarioValido(u, usuarios[u], old(prestamos));
        }
      }
    }

    /** `Usuario.tomar_prestado`: lend the book for the default period; the
        loan joins the user's active loans only when the lending succeeded. */
    method TomarPrestado(usuario: UsuarioId, isbn: Isbn, ahora: int) returns (r: Result<nat, ErrorPrestamo>)
      requires Valid() && isbn in libros && usuario in usuarios
      modifies this
      ensures Valid()
      ensures libros.Keys == old(libros.Keys)
      ensures old(libros[isbn].disponible) ==>
        && r == Success(|old(prestamos)|)
        && prestamos == old(prestamos) + [NuevoPrestamo(isbn, usuario, ahora, DIAS_PRESTAMO)]
        && libros == old(libros)[isbn := old(libros[isbn]).(disponible := false, prestamos := old(libros[isbn].prestamos) + [r.value])]
        && usuarios == old(usuarios)[usuario := old(usuarios[usuario]).(activos := old(usuarios[usuario].activos) + [r.value])]
      ensures !old(libros[isbn].disponible) ==>
        r == Failure(NoDisponible) && libros == old(libros) && usuarios == old(usuarios) && prestamos == old(prestamos)
    {
      r := PrestarA(isbn, usuario, ahora, DIAS_PRESTAMO);
      if r.Success? {
        var u := usuarios[usuario];
        UsuarioValidoAgregar(usuario, u, prestamos, r.value);
        usuarios := usuarios[usuario := u.(activos := u.activos + [r.value])];
        forall x | x in usuarios ensures UsuarioValido(x, usuarios[x], prestamos) {
          if x != usuario {
            assert usuarios[x] == old(usuarios[x]);
          }
        }
      }
    }

    /** `Usuario.devolver_libro`: return the book, then drop from the user's
        active loans every loan of that book, keeping the others in order. */
    method DevolverLibro(usuario: UsuarioId, isbn: Isbn, ahora: int)
      requires Valid() && isbn in libros && usuario in usuarios
      modifies this
      ensures Valid()
      ensures libros.Keys == old(libros.Keys) && libros[isbn].disponible
      ensures usuario in usuarios
      ensures forall x :: x in usuarios[usuario].activos <==>
        x in old(usuarios[usuario].activos) && x < |prestamos| && prestamos[x].libro != isbn
      ensures usuarios == old(usuarios)[usuario := old(usuarios[usuario]).(activos := SinLibro(old(usuarios[usuario].activos), old(prestamos), isbn))]
      ensures |old(libros[isbn].prestamos)| > 0 && !old(libros[isbn].disponible) ==>
        var k := old(libros[isbn].prestamos)[|old(libros[isbn].prestamos)| - 1];
        && prestamos == old(prestamos)[k := Finalizado(old(prestamos)[k], ahora)]
        && libros == old(libros)[isbn := old(libros[isbn]).(disponible := true)]
      ensures |old(libros[isbn].prestamos)| == 0 || old(libros[isbn].disponible) ==>
        libros == old(libros) && prestamos == old(prestamos)
    {
      ghost var antes := prestamos;
      Devolver(isbn, ahora);
      var u := usuarios[usuario];
      assert UsuarioValido(usuario, u, prestamos);
      var activos := SinLibro(u.activos, prestamos, isbn);
      SinLibroMismosLibros(u.activos, antes, prestamos, isbn);
      SinLibroElementos(u.activos, prestamos, isbn);
      UsuarioValidoSinLibro(usuario, u, prestamos, isbn);
      usuarios := usuarios[usuario := u.(activos := activos)];
      forall x | x in usuarios ensures UsuarioValido(x, usuarios[x], prestamos) {
        if x != usuario {
          assert usuarios[x] == old(usuarios[x]);
        }
      }
    }
  }
}
