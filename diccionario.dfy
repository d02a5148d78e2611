/** Python's `dict` with integer keys, keeping insertion order: the keys in
    the order they were first inserted, and the value stored under each. */
module Diccionario {

  datatype Dict<V> = Dict(claves: seq<int>, valores: map<int, V>)

  /** No key is listed twice. */
  ghost predicate Distintas(ks: seq<int>)
  {
    forall i, j | 0 <= i < j < |ks| :: ks[i] != ks[j]
  }

  /** Each key is listed exactly once and every listed key has a value. */
  ghost predicate BienFormado<V>(d: Dict<V>)
  {
    && Distintas(d.claves)
    && (forall k :: k in d.valores <==> k in d.claves)
  }

  lemma ClavesConValor<V>(d: Dict<V>)
    requires BienFormado(d)
    ensures forall i | 0 <= i < |d.claves| :: d.claves[i] in d.valores
  {
    forall i | 0 <= i < |d.claves| ensures d.claves[i] in d.valores {
      assert d.claves[i] in d.claves;
    }
  }

  function Vacio<V>(): (d: Dict<V>)
    ensures BienFormado(d) && Tamano(d) == 0
  {
    Dict([], map[])
  }

  function Tamano<V>(d: Dict<V>): nat
  {
    |d.claves|
  }

  /** In a well-formed dictionary the number of entries is the number of keys. */
  lemma TamanoEsCardinal<V>(d: Dict<V>)
    requires BienFormado(d)
    ensures Tamano(d) == |d.valores|
  {
    CardinalDeClavesDistintas(d.claves);
    assert d.valores.Keys == set k | k in d.claves;
  }

  lemma {:induction false} CardinalDeClavesDistintas(ks: seq<int>)
    requires Distintas(ks)
    ensures |set k | k in ks| == |ks|
  {
    if ks != [] {
      var resto := ks[1..];
      CardinalDeClavesDistintas(resto);
      assert (set k | k in ks) == {ks[0]} + (set k | k in resto);
      assert ks[0] !in (set k | k in resto);
    }
  }

  /** `d[k] = v`: a new key goes to the end, an existing one keeps its place. */
  function Poner<V>(d: Dict<V>, k: int, v: V): (r: Dict<V>)
    ensures BienFormado(d) ==> BienFormado(r)
    ensures r.valores == d.valores[k := v]
    ensures k in d.valores ==> r.claves == d.claves
    ensures k !in d.valores ==> r.claves == d.claves + [k]
  {
    if k in d.valores then Dict(d.claves, d.valores[k := v])
    else Dict(d.claves + [k], d.valores[k := v])
  }

  /** The list without its (single) occurrence of `k`. */
  function SinClave(ks: seq<int>, k: int): (r: seq<int>)
    ensures forall x :: x in r <==> x in ks && x != k
    ensures Distintas(ks) ==> Distintas(r)
  {
    if ks == [] then []
    else if ks[0] == k then SinClave(ks[1..], k)
    else
      var resto := SinClave(ks[1..], k);
      assert Distintas(ks) ==> ks[0] !in ks[1..];
      [ks[0]] + resto
  }

  /** Without `k` among the keys, nothing is removed. */
  lemma {:induction false} SinClaveAusente(ks: seq<int>, k: int)
    requires k !in ks
    ensures SinClave(ks, k) == ks
  {
    if ks != [] {
      SinClaveAusente(ks[1..], k);
    }
  }

  /** With distinct keys, removing the key at `i` closes the gap and keeps
      the keys before and after it in their order. */
  lemma {:induction false} SinClaveEnPosicion(ks: seq<int>, k: int, i: nat)
    requires Distintas(ks) && i < |ks| && ks[i] == k
    ensures SinClave(ks, k) == ks[..i] + ks[i + 1..]
  {
    assert Distintas(ks[1..]) by {
      forall a, b | 0 <= a < b < |ks| - 1 ensures ks[1..][a] != ks[1..][b] {
        assert ks[1..][a] == ks[a + 1] && ks[1..][b] == ks[b + 1];
      }
    }
    if i == 0 {
      assert k !in ks[1..] by {
        forall a | 0 <= a < |ks| - 1 ensures ks[1..][a] != k {
          assert ks[1..][a] == ks[a + 1];
        }
      }
      SinClaveAusente(ks[1..], k);
    } else {
      assert ks[0] != k;
      SinClaveEnPosicion(ks[1..], k, i - 1);
      assert ks[..i] == [ks[0]] + ks[1..][..i - 1];
      assert ks[i + 1..] == ks[1..][i..];
    }
  }

  /** Removing a key from distinct keys keeps the others in order, and an
      absent key changes nothing. */
  lemma SinClaveOrden(ks: seq<int>, k: int)
    ensures k !in ks ==> SinClave(ks, k) == ks
    ensures forall i | 0 <= i < |ks| && ks[i] == k :: Distintas(ks) ==> SinClave(ks, k) == ks[..i] + ks[i + 1..]
  {
    if k !in ks {
      SinClaveAusente(ks, k);
    }
    forall i | 0 <= i < |ks| && ks[i] == k && Distintas(ks)
      ensures SinClave(ks, k) == ks[..i] + ks[i + 1..]
    {
      SinClaveEnPosicion(ks, k, i);
    }
  }

  /** `del d[k]`: the entry goes and the other keys keep their order, which
      is the order the next `values()` lists them in. */
  function Quitar<V>(d: Dict<V>, k: int): (r: Dict<V>)
    ensures BienFormado(d) ==> BienFormado(r)
    ensures r.valores == map x | x in d.valores && x != k :: d.valores[x]
    ensures k !in d.claves ==> r.claves == d.claves
    ensures forall i | 0 <= i < |d.claves| && d.claves[i] == k ::
      Distintas(d.claves) ==> r.claves == d.claves[..i] + d.claves[i + 1..]
  {
    SinClaveOrden(d.claves, k);
    Dict(SinClave(d.claves, k), map x | x in d.valores && x != k :: d.valores[x])
  }

  /** `list(d.values())`, in key order. */
  function Valores<V>(d: Dict<V>): seq<V>
    requires BienFormado(d)
  {
    ClavesConValor(d);
    ValoresDe(d.claves, d.valores)
  }

  function ValoresDe<V>(ks: seq<int>, m: map<int, V>): (r: seq<V>)
    requires forall i | 0 <= i < |ks| :: ks[i] in m
    ensures |r| == |ks|
    ensures forall i | 0 <= i < |ks| :: r[i] == m[ks[i]]
  {
    if ks == [] then [] else [m[ks[0]]] + ValoresDe(ks[1..], m)
  }
}
