/** Social network (semana04/EjemplosMundoReal_POO/4_red_social_simple.py).
    Users and posts are entries of two lists and refer to each other by
    position: a user's posts, followers and followed users are positions,
    and a post names its author by position. */
module RedSocial {

  datatype Comentario = Comentario(autor: nat, texto: string)

  datatype Publicacion = Publicacion(autor: nat, contenido: string, esPrivado: bool, comentarios: seq<Comentario>, meGusta: nat)

  datatype Usuario = Usuario(nombreUsuario: string, nombreReal: string, publicaciones: seq<nat>, seguidores: seq<nat>, siguiendo: seq<nat>)

  /** No element is listed twice. */
  ghost predicate SinRepetidos(s: seq<nat>)
  {
    forall i, j | 0 <= i < j < |s| :: s[i] != s[j]
  }

  /** `list.remove(x)`: the first occurrence of `x` leaves the list; a list
      without `x` is left as it is. */
  function QuitarPrimero(s: seq<nat>, x: nat): (r: seq<nat>)
    ensures x !in s ==> r == s
    ensures x in s ==> |r| == |s| - 1
  {
    if s == [] then []
    else if s[0] == x then s[1..]
    else [s[0]] + QuitarPrimero(s[1..], x)
  }

  /** Exactly one occurrence of `x` goes, when there is one. */
  lemma {:induction false} QuitarPrimeroMultiset(s: seq<nat>, x: nat)
    ensures multiset(QuitarPrimero(s, x)) == multiset(s) - multiset{x}
  {
    if s != [] {
      assert s == [s[0]] + s[1..];
      if s[0] != x {
        QuitarPrimeroMultiset(s[1..], x);
      }
    }
  }

  /** Removing `x` keeps every other element, and from a list without
      repetitions it removes `x` altogether. */
  lemma QuitarPrimeroElementos(s: seq<nat>, x: nat)
    ensures forall y | y != x :: y in QuitarPrimero(s, x) <==> y in s
    ensures forall y | y in QuitarPrimero(s, x) :: y in s
    ensures SinRepetidos(s) ==> SinRepetidos(QuitarPrimero(s, x)) && x !in QuitarPrimero(s, x)
  {
    var r := QuitarPrimero(s, x);
    QuitarPrimeroMultiset(s, x);
    forall y ensures y in r <==> multiset(r)[y] > 0 {}
    forall y ensures y in s <==> multiset(s)[y] > 0 {}
    if SinRepetidos(s) {
      SinRepetidosMultiset(s);
      assert forall y :: multiset(r)[y] <= multiset(s)[y];
      MultisetSinRepetidos(r);
    }
  }

  lemma {:induction false} SinRepetidosMultiset(s: seq<nat>)
    requires SinRepetidos(s)
    ensures forall y :: multiset(s)[y] <= 1
  {
    if s != [] {
      assert s == [s[0]] + s[1..];
      SinRepetidosMultiset(s[1..]);
      assert s[0] !in s[1..];
    }
  }

  lemma CabezaNoRepetida(s: seq<nat>)
    requires s != [] && forall y :: multiset(s)[y] <= 1
    ensures s[0] !in s[1..]
  {
    assert s == [s[0]] + s[1..];
    assert multiset(s)[s[0]] == 1 + multiset(s[1..])[s[0]];
  }

  lemma {:induction false} MultisetSinRepetidos(s: seq<nat>)
    requires forall y :: multiset(s)[y] <= 1
    ensures SinRepetidos(s)
  {
    if s != [] {
      assert s == [s[0]] + s[1..];
      assert forall y :: multiset(s[1..])[y] <= multiset(s)[y];
      MultisetSinRepetidos(s[1..]);
      CabezaNoRepetida(s);
      forall i, j | 0 <= i < j < |s| ensures s[i] != s[j] {
        if i > 0 {
          assert s[i] == s[1..][i - 1] && s[j] == s[1..][j - 1];
        } else {
          assert s[j] in s[1..];
        }
      }
    }
  }

  /** Every position in the lists refers to an existing user or post, and
      every post a user lists is authored by that user. */
  ghost predicate Referencias(usuarios: seq<Usuario>, pubs: seq<Publicacion>)
  {
    && (forall p | 0 <= p < |pubs| :: pubs[p].autor < |usuarios|)
    && (forall u | 0 <= u < |usuarios| ::
          && (forall j | 0 <= j < |usuarios[u].publicaciones| ::
                usuarios[u].publicaciones[j] < |pubs| && pubs[usuarios[u].publicaciones[j]].autor == u)
          && (forall j | 0 <= j < |usuarios[u].seguidores| :: usuarios[u].seguidores[j] < |usuarios|)
          && (forall j | 0 <= j < |usuarios[u].siguiendo| :: usuarios[u].siguiendo[j] < |usuarios|))
  }

  /** Every post in `ps` exists and has an existing author. */
  ghost predicate PostsValidos(usuarios: seq<Usuario>, pubs: seq<Publicacion>, ps: seq<nat>)
  {
    forall j | 0 <= j < |ps| :: ps[j] < |pubs| && pubs[ps[j]].autor < |usuarios|
  }

  /** Every user in `ss` exists and lists valid posts. */
  ghost predicate SeguidosValidos(usuarios: seq<Usuario>, pubs: seq<Publicacion>, ss: seq<nat>)
  {
    forall j | 0 <= j < |ss| :: ss[j] < |usuarios| && PostsValidos(usuarios, pubs, usuarios[ss[j]].publicaciones)
  }

  lemma ReferenciasValidas(usuarios: seq<Usuario>, pubs: seq<Publicacion>, u: nat)
    requires Referencias(usuarios, pubs) && u < |usuarios|
    ensures PostsValidos(usuarios, pubs, usuarios[u].publicaciones)
    ensures SeguidosValidos(usuarios, pubs, usuarios[u].siguiendo)
  {
  }

  /** `visible_para`: a public post is visible to everybody, a private one
      to its author and the author's followers. */
  predicate VisiblePara(usuarios: seq<Usuario>, pub: Publicacion, u: nat)
    requires pub.autor < |usuarios|
    ensures u in usuarios[pub.autor].seguidores ==> VisiblePara(usuarios, pub, u)
    ensures !VisiblePara(usuarios, pub, u) ==> pub.esPrivado && u != pub.autor
  {
    !pub.esPrivado || u == pub.autor || u in usuarios[pub.autor].seguidores
  }

  /** The posts `ps` that go into `u`'s feed, in order. */
  function Filtrados(usuarios: seq<Usuario>, pubs: seq<Publicacion>, ps: seq<nat>, u: nat, incluirPrivadas: bool): seq<nat>
    requires PostsValidos(usuarios, pubs, ps)
  {
    if ps == [] then []
    else
      var x := ps[|ps| - 1];
      var antes := Filtrados(usuarios, pubs, ps[..|ps| - 1], u, incluirPrivadas);
      if incluirPrivadas || VisiblePara(usuarios, pubs[x], u) then antes + [x] else antes
  }

  /** The filter keeps exactly the posts visible to the user, or all of them
      when private posts are asked for. */
  lemma {:induction false} FiltradosElementos(usuarios: seq<Usuario>, pubs: seq<Publicacion>, ps: seq<nat>, u: nat, incluirPrivadas: bool)
    requires PostsValidos(usuarios, pubs, ps)
    ensures forall x :: x in Filtrados(usuarios, pubs, ps, u, incluirPrivadas) <==>
      x in ps && (incluirPrivadas || VisiblePara(usuarios, pubs[x], u))
  {
    if ps != [] {
      var x := ps[|ps| - 1];
      FiltradosElementos(usuarios, pubs, ps[..|ps| - 1], u, incluirPrivadas);
      assert ps == ps[..|ps| - 1] + [x];
    }
  }

  /** The posts of the followed users `ss`, user by user in order. */
  function DeSeguidos(usuarios: seq<Usuario>, pubs: seq<Publicacion>, ss: seq<nat>, u: nat, incluirPrivadas: bool): seq<nat>
    requires SeguidosValidos(usuarios, pubs, ss)
  {
    if ss == [] then []
    else
      var s := ss[|ss| - 1];
      DeSeguidos(usuarios, pubs, ss[..|ss| - 1], u, incluirPrivadas)
        + Filtrados(usuarios, pubs, usuarios[s].publicaciones, u, incluirPrivadas)
  }

  /** `feed`: the user's own posts, private ones included, then those of each
      followed user in follow order that are visible to the user, or all of
      them when private posts are asked for. */
  function FeedDe(usuarios: seq<Usuario>, pubs: seq<Publicacion>, u: nat, incluirPrivadas: bool): (r: seq<nat>)
    requires Referencias(usuarios, pubs) && u < |usuarios|
    ensures |usuarios[u].publicaciones| <= |r| && r[..|usuarios[u].publicaciones|] == usuarios[u].publicaciones
  {
    ReferenciasValidas(usuarios, pubs, u);
    usuarios[u].publicaciones + DeSeguidos(usuarios, pubs, usuarios[u].siguiendo, u, incluirPrivadas)
  }

  lemma FiltradosPaso(usuarios: seq<Usuario>, pubs: seq<Publicacion>, ps: seq<nat>, j: nat, u: nat, incluirPrivadas: bool)
    requires PostsValidos(usuarios, pubs, ps) && j < |ps|
    ensures PostsValidos(usuarios, pubs, ps[..j]) && PostsValidos(usuarios, pubs, ps[..j + 1])
    ensures Filtrados(usuarios, pubs, ps[..j + 1], u, incluirPrivadas) ==
      Filtrados(usuarios, pubs, ps[..j], u, incluirPrivadas)
        + (if incluirPrivadas || VisiblePara(usuarios, pubs[ps[j]], u) then [ps[j]] else [])
  {
    assert ps[..j + 1][..j] == ps[..j];
  }

  lemma DeSeguidosPaso(usuarios: seq<Usuario>, pubs: seq<Publicacion>, ss: seq<nat>, i: nat, u: nat, incluirPrivadas: bool)
    requires SeguidosValidos(usuarios, pubs, ss) && i < |ss|
    ensures SeguidosValidos(usuarios, pubs, ss[..i]) && SeguidosValidos(usuarios, pubs, ss[..i + 1])
    ensures DeSeguidos(usuarios, pubs, ss[..i + 1], u, incluirPrivadas) ==
      DeSeguidos(usuarios, pubs, ss[..i], u, incluirPrivadas)
        + Filtrados(usuarios, pubs, usuarios[ss[i]].publicaciones, u, incluirPrivadas)
  {
    assert ss[..i + 1][..i] == ss[..i];
  }

  /** One turn of the outer loop of `feed`. */
  lemma FeedPaso(usuarios: seq<Usuario>, pubs: seq<Publicacion>, ss: seq<nat>, i: nat, u: nat, incluirPrivadas: bool,
                 propias: seq<nat>, antes: seq<nat>, despues: seq<nat>)
    requires SeguidosValidos(usuarios, pubs, ss) && i < |ss|
    requires SeguidosValidos(usuarios, pubs, ss[..i])
    requires antes == propias + DeSeguidos(usuarios, pubs, ss[..i], u, incluirPrivadas)
    requires despues == antes + Filtrados(usuarios, pubs, usuarios[ss[i]].publicaciones, u, incluirPrivadas)
    ensures SeguidosValidos(usuarios, pubs, ss[..i + 1])
    ensures despues == propias + DeSeguidos(usuarios, pubs, ss[..i + 1], u, incluirPrivadas)
  {
    DeSeguidosPaso(usuarios, pubs, ss, i, u, incluirPrivadas);
  }

  /** Following is recorded on both sides. */
  ghost predicate Simetrico(usuarios: seq<Usuario>)
  {
    forall a, b | 0 <= a < |usuarios| && 0 <= b < |usuarios| ::
      b in usuarios[a].siguiendo <==> a in usuarios[b].seguidores
  }

  /** A post is in the full feed only if it is some followed user's post or
      one's own, whatever the privacy filter. */
  lemma {:induction false} FiltradosTodos(usuarios: seq<Usuario>, pubs: seq<Publicacion>, ps: seq<nat>, u: nat)
    requires PostsValidos(usuarios, pubs, ps)
    requires forall j | 0 <= j < |ps| :: VisiblePara(usuarios, pubs[ps[j]], u)
    ensures Filtrados(usuarios, pubs, ps, u, false) == ps
    ensures Filtrados(usuarios, pubs, ps, u, true) == ps
  {
    if ps != [] {
      var pre := ps[..|ps| - 1];
      assert forall j | 0 <= j < |pre| :: pre[j] == ps[j];
      FiltradosTodos(usuarios, pubs, pre, u);
      assert ps == pre + [ps[|ps| - 1]];
    }
  }

  /** Because a followed user always has the follower among its followers,
      asking for private posts changes nothing in a feed. */
  lemma {:induction false} DeSeguidosIgnoraPrivacidad(usuarios: seq<Usuario>, pubs: seq<Publicacion>, ss: seq<nat>, u: nat)
    requires Referencias(usuarios, pubs) && Simetrico(usuarios) && u < |usuarios|
    requires SeguidosValidos(usuarios, pubs, ss)
    requires forall j | 0 <= j < |ss| :: ss[j] in usuarios[u].siguiendo
    ensures DeSeguidos(usuarios, pubs, ss, u, false) == DeSeguidos(usuarios, pubs, ss, u, true)
  {
    if ss != [] {
      var s := ss[|ss| - 1];
      DeSeguidosIgnoraPrivacidad(usuarios, pubs, ss[..|ss| - 1], u);
      var ps := usuarios[s].publicaciones;
      assert u in usuarios[s].seguidores;
      forall j | 0 <= j < |ps| ensures VisiblePara(usuarios, pubs[ps[j]], u) {
        assert pubs[ps[j]].autor == s;
      }
      FiltradosTodos(usuarios, pubs, ps, u);
    }
  }

  lemma FeedIgnoraPrivacidad(usuarios: seq<Usuario>, pubs: seq<Publicacion>, u: nat)
    requires Referencias(usuarios, pubs) && Simetrico(usuarios) && u < |usuarios|
    ensures FeedDe(usuarios, pubs, u, false) == FeedDe(usuarios, pubs, u, true)
  {
    ReferenciasValidas(usuarios, pubs, u);
    DeSeguidosIgnoraPrivacidad(usuarios, pubs, usuarios[u].siguiendo, u);
  }

  /** The users after `a` starts following `b`. */
  function Seguido(usuarios: seq<Usuario>, a: nat, b: nat): (r: seq<Usuario>)
    requires a < |usuarios| && b < |usuarios|
    ensures |r| == |usuarios|
    ensures forall x | 0 <= x < |r| ::
      && r[x].siguiendo == (if x == a then usuarios[x].siguiendo + [b] else usuarios[x].siguiendo)
      && r[x].seguidores == (if x == b then usuarios[x].seguidores + [a] else usuarios[x].seguidores)
      && r[x].publicaciones == usuarios[x].publicaciones
      && r[x].nombreUsuario == usuarios[x].nombreUsuario && r[x].nombreReal == usuarios[x].nombreReal
  {
    var t := usuarios[a := usuarios[a].(siguiendo := usuarios[a].siguiendo + [b])];
    t[b := t[b].(seguidores := t[b].seguidores + [a])]
  }

  /** The users after `a` stops following `b`. */
  function NoSeguido(usuarios: seq<Usuario>, a: nat, b: nat): (r: seq<Usuario>)
    requires a < |usuarios| && b < |usuarios|
    ensures |r| == |usuarios|
    ensures forall x | 0 <= x < |r| ::
      && r[x].siguiendo == (if x == a then QuitarPrimero(usuarios[x].siguiendo, b) else usuarios[x].siguiendo)
      && r[x].seguidores == (if x == b then QuitarPrimero(usuarios[x].seguidores, a) else usuarios[x].seguidores)
      && r[x].publicaciones == usuarios[x].publicaciones
      && r[x].nombreUsuario == usuarios[x].nombreUsuario && r[x].nombreReal == usuarios[x].nombreReal
  {
    var t := usuarios[a := usuarios[a].(siguiendo := QuitarPrimero(usuarios[a].siguiendo, b))];
    t[b := t[b].(seguidores := QuitarPrimero(t[b].seguidores, a))]
  }

  /** Lists without repetitions, in every user. */
  ghost predicate RelacionesSinRepetidos(usuarios: seq<Usuario>)
  {
    forall u | 0 <= u < |usuarios| :: SinRepetidos(usuarios[u].siguiendo) && SinRepetidos(usuarios[u].seguidores)
  }

  /** Following someone not yet followed keeps both sides in step. */
  lemma SeguirConserva(usuarios: seq<Usuario>, pubs: seq<Publicacion>, a: nat, b: nat)
    requires a < |usuarios| && b < |usuarios| && b !in usuarios[a].siguiendo
    requires Referencias(usuarios, pubs) && Simetrico(usuarios) && RelacionesSinRepetidos(usuarios)
    ensures Referencias(Seguido(usuarios, a, b), pubs)
    ensures Simetrico(Seguido(usuarios, a, b))
    ensures RelacionesSinRepetidos(Seguido(usuarios, a, b))
  {
    SeguirReferencias(usuarios, pubs, a, b);
    SeguirSimetrico(usuarios, a, b);
    SeguirSinRepetidos(usuarios, a, b);
  }

  lemma SeguirReferencias(usuarios: seq<Usuario>, pubs: seq<Publicacion>, a: nat, b: nat)
    requires a < |usuarios| && b < |usuarios|
    requires Referencias(usuarios, pubs)
    ensures Referencias(Seguido(usuarios, a, b), pubs)
  {
    var r := Seguido(usuarios, a, b);
    forall u | 0 <= u < |r|
      ensures forall j | 0 <= j < |r[u].publicaciones| ::
                r[u].publicaciones[j] < |pubs| && pubs[r[u].publicaciones[j]].autor == u
      ensures forall j | 0 <= j < |r[u].seguidores| :: r[u].seguidores[j] < |r|
      ensures forall j | 0 <= j < |r[u].siguiendo| :: r[u].siguiendo[j] < |r|
    {
      assert r[u].publicaciones == usuarios[u].publicaciones;
    }
  }

  lemma SeguirSimetrico(usuarios: seq<Usuario>, a: nat, b: nat)
    requires a < |usuarios| && b < |usuarios|
    requires Simetrico(usuarios)
    ensures Simetrico(Seguido(usuarios, a, b))
  {
    var r := Seguido(usuarios, a, b);
    forall x, y | 0 <= x < |r| && 0 <= y < |r| ensures y in r[x].siguiendo <==> x in r[y].seguidores {
      assert y in usuarios[x].siguiendo <==> x in usuarios[y].seguidores;
    }
  }

  lemma SeguirSinRepetidos(usuarios: seq<Usuario>, a: nat, b: nat)
    requires a < |usuarios| && b < |usuarios| && b !in usuarios[a].siguiendo
    requires Simetrico(usuarios) && RelacionesSinRepetidos(usuarios)
    ensures RelacionesSinRepetidos(Seguido(usuarios, a, b))
  {
    var r := Seguido(usuarios, a, b);
    assert a !in usuarios[b].seguidores;
    forall u | 0 <= u < |r| ensures SinRepetidos(r[u].siguiendo) && SinRepetidos(r[u].seguidores) {
      assert SinRepetidos(usuarios[u].siguiendo) && SinRepetidos(usuarios[u].seguidores);
    }
  }

  /** Unfollowing someone followed keeps both sides in step. */
  lemma DejarDeSeguirConserva(usuarios: seq<Usuario>, pubs: seq<Publicacion>, a: nat, b: nat)
    requires a < |usuarios| && b < |usuarios| && b in usuarios[a].siguiendo
    requires Referencias(usuarios, pubs) && Simetrico(usuarios) && RelacionesSinRepetidos(usuarios)
    ensures Referencias(NoSeguido(usuarios, a, b), pubs)
    ensures Simetrico(NoSeguido(usuarios, a, b))
    ensures RelacionesSinRepetidos(NoSeguido(usuarios, a, b))
  {
    DejarDeSeguirReferencias(usuarios, pubs, a, b);
    DejarDeSeguirSimetrico(usuarios, a, b);
    DejarDeSeguirSinRepetidos(usuarios, a, b);
  }

  /** Removing an element keeps every remaining one below a bound. */
  lemma {:induction false} QuitarPrimeroAcotado(s: seq<nat>, x: nat, n: nat)
    requires forall j | 0 <= j < |s| :: s[j] < n
    ensures forall j | 0 <= j < |QuitarPrimero(s, x)| :: QuitarPrimero(s, x)[j] < n
  {
    if s != [] && s[0] != x {
      QuitarPrimeroAcotado(s[1..], x, n);
      assert forall j | 0 <= j < |s| - 1 :: s[1..][j] == s[j + 1];
    }
  }

  lemma DejarDeSeguirReferencias(usuarios: seq<Usuario>, pubs: seq<Publicacion>, a: nat, b: nat)
    requires a < |usuarios| && b < |usuarios|
    requires Referencias(usuarios, pubs)
    ensures Referencias(NoSeguido(usuarios, a, b), pubs)
  {
    var r := NoSeguido(usuarios, a, b);
    QuitarPrimeroAcotado(usuarios[a].siguiendo, b, |usuarios|);
    QuitarPrimeroAcotado(usuarios[b].seguidores, a, |usuarios|);
    forall u | 0 <= u < |r|
      ensures forall j | 0 <= j < |r[u].seguidores| :: r[u].seguidores[j] < |r|
      ensures forall j | 0 <= j < |r[u].siguiendo| :: r[u].siguiendo[j] < |r|
    {
      if u != a {
        assert r[u].siguiendo == usuarios[u].siguiendo;
      }
      if u != b {
        assert r[u].seguidores == usuarios[u].seguidores;
      }
    }
  }

  lemma DejarDeSeguirSimetrico(usuarios: seq<Usuario>, a: nat, b: nat)
    requires a < |usuarios| && b < |usuarios| && b in usuarios[a].siguiendo
    requires Simetrico(usuarios) && RelacionesSinRepetidos(usuarios)
    ensures Simetrico(NoSeguido(usuarios, a, b))
  {
    var r := NoSeguido(usuarios, a, b);
    QuitarPrimeroElementos(usuarios[a].siguiendo, b);
    QuitarPrimeroElementos(usuarios[b].seguidores, a);
    forall x, y | 0 <= x < |r| && 0 <= y < |r| ensures y in r[x].siguiendo <==> x in r[y].seguidores {
      assert y in usuarios[x].siguiendo <==> x in usuarios[y].seguidores;
    }
  }

  lemma DejarDeSeguirSinRepetidos(usuarios: seq<Usuario>, a: nat, b: nat)
    requires a < |usuarios| && b < |usuarios|
    requires RelacionesSinRepetidos(usuarios)
    ensures RelacionesSinRepetidos(NoSeguido(usuarios, a, b))
  {
    var r := NoSeguido(usuarios, a, b);
    QuitarPrimeroElementos(usuarios[a].siguiendo, b);
    QuitarPrimeroElementos(usuarios[b].seguidores, a);
    forall u | 0 <= u < |r| ensures SinRepetidos(r[u].siguiendo) && SinRepetidos(r[u].seguidores) {
      assert SinRepetidos(usuarios[u].siguiendo) && SinRepetidos(usuarios[u].seguidores);
    }
  }

  /** A new user, with no posts and no relations, keeps the network
      consistent. */
  lemma NuevoUsuarioConserva(usuarios: seq<Usuario>, pubs: seq<Publicacion>, nuevo: Usuario)
    requires nuevo.publicaciones == [] && nuevo.seguidores == [] && nuevo.siguiendo == []
    requires Referencias(usuarios, pubs) && Simetrico(usuarios) && RelacionesSinRepetidos(usuarios)
    ensures Referencias(usuarios + [nuevo], pubs)
    ensures Simetrico(usuarios + [nuevo])
    ensures RelacionesSinRepetidos(usuarios + [nuevo])
  {
    var r := usuarios + [nuevo];
    assert forall x | 0 <= x < |usuarios| :: r[x] == usuarios[x];
    forall x, y | 0 <= x < |r| && 0 <= y < |r| ensures y in r[x].siguiendo <==> x in r[y].seguidores {
      if x < |usuarios| && y < |usuarios| {
        assert y in usuarios[x].siguiendo <==> x in usuarios[y].seguidores;
      } else if x < |usuarios| {
        assert y !in usuarios[x].siguiendo;
      } else if y < |usuarios| {
        assert x !in usuarios[y].seguidores;
      }
    }
  }

  /** A new post by `a`, listed at the end of `a`'s posts, keeps the network
      consistent. */
  lemma PublicarConserva(usuarios: seq<Usuario>, pubs: seq<Publicacion>, a: nat, pub: Publicacion)
    requires a < |usuarios| && pub.autor == a
    requires Referencias(usuarios, pubs) && Simetrico(usuarios) && RelacionesSinRepetidos(usuarios)
    ensures var r := usuarios[a := usuarios[a].(publicaciones := usuarios[a].publicaciones + [|pubs|])];
      Referencias(r, pubs + [pub]) && Simetrico(r) && RelacionesSinRepetidos(r)
  {
    var r := usuarios[a := usuarios[a].(publicaciones := usuarios[a].publicaciones + [|pubs|])];
    var ps := pubs + [pub];
    assert forall x | 0 <= x < |pubs| :: ps[x] == pubs[x];
    assert forall x | 0 <= x < |r| :: r[x].siguiendo == usuarios[x].siguiendo && r[x].seguidores == usuarios[x].seguidores;
    forall u | 0 <= u < |r|
      ensures forall j | 0 <= j < |r[u].publicaciones| ::
                r[u].publicaciones[j] < |ps| && ps[r[u].publicaciones[j]].autor == u
    {
      if u == a {
        forall j | 0 <= j < |r[u].publicaciones|
          ensures r[u].publicaciones[j] < |ps| && ps[r[u].publicaciones[j]].autor == u
        {
          if j < |usuarios[a].publicaciones| {
            assert r[u].publicaciones[j] == usuarios[a].publicaciones[j];
          }
        }
      } else {
        assert r[u] == usuarios[u];
      }
    }
  }

  class Red {
    var usuarios: seq<Usuario>
    var publicaciones: seq<Publicacion>

    ghost predicate Valid()
      reads this
    {
      && Referencias(usuarios, publicaciones)
      && Simetrico(usuarios)
      && RelacionesSinRepetidos(usuarios)
    }

    constructor ()
      ensures Valid()
      ensures usuarios == [] && publicaciones == []
    {
      usuarios := [];
      publicaciones := [];
    }

    /** `Usuario(nombre_usuario, nombre_real)`: no posts, no relations. */
    method NuevoUsuario(nombreUsuario: string, nombreReal: string) returns (u: nat)
      requires Valid()
      modifies this
      ensures Valid()
      ensures u == |old(usuarios)|
      ensures usuarios == old(usuarios) + [Usuario(nombreUsuario, nombreReal, [], [], [])]
      ensures publicaciones == old(publicaciones)
    {
      u := |usuarios|;
      NuevoUsuarioConserva(usuarios, publicaciones, Usuario(nombreUsuario, nombreReal, [], [], []));
      usuarios := usuarios + [Usuario(nombreUsuario, nombreReal, [], [], [])];
    }

    /** `seguir`: the first call records `b` among those `a` follows and `a`
        among `b`'s followers; repeating it changes nothing. */
    method Seguir(a: nat, b: nat)
      requires Valid() && a < |usuarios| && b < |usuarios|
      modifies this
      ensures Valid()
      ensures |usuarios| == |old(usuarios)| && publicaciones == old(publicaciones)
      ensures b in usuarios[a].siguiendo && a in usuarios[b].seguidores
      ensures b in old(usuarios[a].siguiendo) ==> usuarios == old(usuarios)
      ensures b !in old(usuarios[a].siguiendo) ==> usuarios == Seguido(old(usuarios), a, b)
    {
      if b !in usuarios[a].siguiendo {
        SeguirConserva(usuarios, publicaciones, a, b);
        usuarios := Seguido(usuarios, a, b);
      }
    }

    /** `dejar_de_seguir`: both sides of an existing relation are removed;
        otherwise nothing changes. */
    method DejarDeSeguir(a: nat, b: nat)
      requires Valid() && a < |usuarios| && b < |usuarios|
      modifies this
      ensures Valid()
      ensures |usuarios| == |old(usuarios)| && publicaciones == old(publicaciones)
      ensures b !in usuarios[a].siguiendo && a !in usuarios[b].seguidores
      ensures b !in old(usuarios[a].siguiendo) ==> usuarios == old(usuarios)
      ensures b in old(usuarios[a].siguiendo) ==> usuarios == NoSeguido(old(usuarios), a, b)
    {
      if b in usuarios[a].siguiendo {
        DejarDeSeguirConserva(usuarios, publicaciones, a, b);
        QuitarPrimeroElementos(usuarios[a].siguiendo, b);
        usuarios := NoSeguido(usuarios, a, b);
      } else {
        assert a !in usuarios[b].seguidores;
      }
    }

    /** `publicar`: one new post by `a`, at the end of `a`'s posts. */
    method Publicar(a: nat, contenido: string, esPrivado: bool) returns (p: nat)
      requires Valid() && a < |usuarios|
      modifies this
      ensures Valid()
      ensures p == |old(publicaciones)|
      ensures publicaciones == old(publicaciones) + [Publicacion(a, contenido, esPrivado, [], 0)]
      ensures usuarios == old(usuarios)[a := old(usuarios[a]).(publicaciones := old(usuarios[a].publicaciones) + [p])]
    {
      p := |publicaciones|;
      PublicarConserva(usuarios, publicaciones, a, Publicacion(a, contenido, esPrivado, [], 0));
      publicaciones := publicaciones + [Publicacion(a, contenido, esPrivado, [], 0)];
      usuarios := usuarios[a := usuarios[a].(publicaciones := usuarios[a].publicaciones + [p])];
    }

    /** `dar_like`: one more like, nothing else. */
    method DarLike(p: nat)
      requires Valid() && p < |publicaciones|
      modifies this
      ensures Valid()
      ensures publicaciones == old(publicaciones)[p := old(publicaciones[p]).(meGusta := old(publicaciones[p].meGusta) + 1)]
      ensures usuarios == old(usuarios)
    {
      publicaciones := publicaciones[p := publicaciones[p].(meGusta := publicaciones[p].meGusta + 1)];
    }

    /** `comentar`: one comment at the end of the post's comments. */
    method Comentar(p: nat, u: nat, texto: string) returns (c: Comentario)
      requires Valid() && p < |publicaciones| && u < |usuarios|
      modifies this
      ensures Valid()
      ensures c == Comentario(u, texto)
      ensures publicaciones == old(publicaciones)[p := old(publicaciones[p]).(comentarios := old(publicaciones[p].comentarios) + [c])]
      ensures usuarios == old(usuarios)
    {
      c := Comentario(u, texto);
      publicaciones := publicaciones[p := publicaciones[p].(comentarios := publicaciones[p].comentarios + [c])];
    }

    /** `visible_para` on a stored post. */
    predicate Visible(p: nat, u: nat)
      reads this
      requires Valid() && p < |publicaciones|
      ensures publicaciones[p].autor == u ==> Visible(p, u)
      ensures Visible(p, u) <==> !publicaciones[p].esPrivado || u == publicaciones[p].autor || u in usuarios[publicaciones[p].autor].seguidores
    {
      VisiblePara(usuarios, publicaciones[p], u)
    }

    /** `feed`, built by the original's two nested loops (the inner one is
        `AgregarFiltrados`). */
    method Feed(u: nat, incluirPrivadas: bool) returns (f: seq<nat>)
      requires Valid() && u < |usuarios|
      ensures f == FeedDe(usuarios, publicaciones, u, incluirPrivadas)
    {
      var us, ps := usuarios, publicaciones;
      ReferenciasValidas(us, ps, u);
      var propias := us[u].publicaciones;
      var siguiendo := us[u].siguiendo;
      f := propias;
      var i := 0;
      assert siguiendo[..0] == [];
      while i < |siguiendo|
        invariant 0 <= i <= |siguiendo|
        invariant SeguidosValidos(us, ps, siguiendo[..i])
        invariant f == propias + DeSeguidos(us, ps, siguiendo[..i], u, incluirPrivadas)
      {
        ghost var previo := f;
        f := AgregarFiltrados(us, ps, us[siguiendo[i]].publicaciones, u, incluirPrivadas, f);
        FeedPaso(us, ps, siguiendo, i, u, incluirPrivadas, propias, previo, f);
        i := i + 1;
      }
      assert siguiendo[..i] == siguiendo;
    }
  }

  /** The inner loop of `feed`: append to `f` each post of `suyas` that goes
      into `u`'s feed. */
  method AgregarFiltrados(usuarios: seq<Usuario>, pubs: seq<Publicacion>, suyas: seq<nat>, u: nat, incluirPrivadas: bool, f0: seq<nat>)
    returns (f: seq<nat>)
    requires PostsValidos(usuarios, pubs, suyas)
    ensures f == f0 + Filtrados(usuarios, pubs, suyas, u, incluirPrivadas)
  {
    f := f0;
    var j := 0;
    assert suyas[..0] == [];
    while j < |suyas|
      invariant 0 <= j <= |suyas|
      invariant PostsValidos(usuarios, pubs, suyas[..j])
      invariant f == f0 + Filtrados(usuarios, pubs, suyas[..j], u, incluirPrivadas)
    {
      FiltradosPaso(usuarios, pubs, suyas, j, u, incluirPrivadas);
      if incluirPrivadas || VisiblePara(usuarios, pubs[suyas[j]], u) {
        f := f + [suyas[j]];
      }
      j := j + 1;
    }
    assert suyas[..j] == suyas;
  }
}
