/** The three string operations the inventories use: Python's `str.strip()`
    with no argument, `str.lower()`, and the substring test `a in b`. */
module Texto {

  /** Python's `str.isspace()` on one character: ASCII blanks, the
      information separators 0x1C-0x1F, and the Unicode space separators. */
  predicate EsEspacio(c: char)
  {
    c == ' ' || c == '\t' || c == '\n' || c == '\r' || c == '\U{0B}' || c == '\U{0C}'
    || ('\U{1C}' <= c <= '\U{1F}') || c == '\U{85}' || c == '\U{A0}' || c == '\U{1680}'
    || ('\U{2000}' <= c <= '\U{200A}') || c == '\U{2028}' || c == '\U{2029}'
    || c == '\U{202F}' || c == '\U{205F}' || c == '\U{3000}'
  }

  /** Every character of `s` is blank (so `not s.strip()` holds in Python). */
  predicate EnBlanco(s: string)
  {
    forall k | 0 <= k < |s| :: EsEspacio(s[k])
  }

  /** Neither end of `s` is blank: the shape `strip()` leaves behind. */
  predicate Recortado(s: string)
  {
    s == [] || (!EsEspacio(s[0]) && !EsEspacio(s[|s| - 1]))
  }

  /** `lstrip()`: drop the blanks at the front. */
  function QuitarIzquierda(s: string): string
  {
    if s != [] && EsEspacio(s[0]) then QuitarIzquierda(s[1..]) else s
  }

  /** `rstrip()`: drop the blanks at the back. */
  function QuitarDerecha(s: string): string
  {
    if s != [] && EsEspacio(s[|s| - 1]) then QuitarDerecha(s[..|s| - 1]) else s
  }

  /** `lstrip()` leaves a suffix that does not start with a blank, and what
      it dropped is blank. */
  lemma {:induction false} QuitarIzquierdaSufijo(s: string)
    ensures |QuitarIzquierda(s)| <= |s| && QuitarIzquierda(s) == s[|s| - |QuitarIzquierda(s)|..]
    ensures QuitarIzquierda(s) == [] || !EsEspacio(QuitarIzquierda(s)[0])
    ensures EnBlanco(s[..|s| - |QuitarIzquierda(s)|])
  {
    if s != [] && EsEspacio(s[0]) {
      QuitarIzquierdaSufijo(s[1..]);
      var r := QuitarIzquierda(s);
      assert s[..|s| - |r|] == [s[0]] + s[1..][..|s| - 1 - |r|];
    }
  }

  /** `rstrip()` leaves a prefix that does not end with a blank, and what it
      dropped is blank. */
  lemma {:induction false} QuitarDerechaPrefijo(s: string)
    ensures |QuitarDerecha(s)| <= |s| && QuitarDerecha(s) == s[..|QuitarDerecha(s)|]
    ensures QuitarDerecha(s) == [] || !EsEspacio(QuitarDerecha(s)[|QuitarDerecha(s)| - 1])
    ensures EnBlanco(s[|QuitarDerecha(s)|..])
  {
    if s != [] && EsEspacio(s[|s| - 1]) {
      QuitarDerechaPrefijo(s[..|s| - 1]);
      var r := QuitarDerecha(s);
      assert s[|r|..] == s[..|s| - 1][|r|..] + [s[|s| - 1]];
    }
  }

  /** `s.strip()`: drop the blanks at both ends, so that what is left is a
      slice of `s` between a blank prefix and a blank suffix. */
  function Strip(s: string): (r: string)
    ensures Recortado(r)
    ensures |r| <= |s|
    ensures exists i, j | 0 <= i <= j <= |s| :: r == s[i..j] && EnBlanco(s[..i]) && EnBlanco(s[j..])
  {
    var izq := QuitarIzquierda(s);
    QuitarIzquierdaSufijo(s);
    QuitarDerechaPrefijo(izq);
    var r := QuitarDerecha(izq);
    var i, j := |s| - |izq|, |s| - |izq| + |r|;
    assert r == s[i..j] && s[j..] == izq[|r|..];
    r
  }

  /** `s.strip()` is empty exactly when `s` is blank. */
  lemma StripVacioSiEnBlanco(s: string)
    ensures Strip(s) == [] <==> EnBlanco(s)
  {
    var l := QuitarIzquierda(s);
    QuitarIzquierdaSufijo(s);
    QuitarDerechaPrefijo(l);
    if Strip(s) == [] {
      assert EnBlanco(l[0..]);
      assert s == s[..|s| - |l|] + l;
    }
  }

  /** A string with no blank at either end is a fixed point of `strip()`;
      in particular `strip()` is idempotent. */
  lemma StripFijo(s: string)
    requires Recortado(s)
    ensures Strip(s) == s
  {
  }

  lemma StripIdempotente(s: string)
    ensures Strip(Strip(s)) == Strip(s)
  {
    StripFijo(Strip(s));
  }

  /** `str.lower()` on one character: ASCII and Latin-1 capitals. */
  function AMinuscula(c: char): char
  {
    if 'A' <= c <= 'Z' || ('\U{C0}' <= c <= '\U{DE}' && c != '\U{D7}') then
      (c as int + 32) as char
    else c
  }

  /** `s.lower()`, character by character. */
  function Minusculas(s: string): (r: string)
    ensures |r| == |s|
    ensures forall k | 0 <= k < |s| :: r[k] == AMinuscula(s[k])
  {
    seq(|s|, k requires 0 <= k < |s| => AMinuscula(s[k]))
  }

  predicate EsPrefijo(p: string, s: string)
  {
    |p| <= |s| && s[..|p|] == p
  }

  /** Python's `p in s` on strings, by scanning the start positions. */
  predicate EsSubcadena(p: string, s: string)
  {
    EsPrefijo(p, s) || (s != [] && EsSubcadena(p, s[1..]))
  }

  /** `p` occurs in `s` starting at offset `i`. */
  predicate ApareceEn(p: string, s: string, i: int)
  {
    0 <= i <= |s| - |p| && s[i..i + |p|] == p
  }

  /** The scan agrees with the direct definition: `p` occurs at some offset of `s`. */
  lemma {:induction false} EsSubcadenaSiAparece(p: string, s: string)
    ensures EsSubcadena(p, s) <==> exists i :: ApareceEn(p, s, i)
  {
    if s == [] {
      if EsSubcadena(p, s) { assert ApareceEn(p, s, 0); }
    } else {
      EsSubcadenaSiAparece(p, s[1..]);
      if EsPrefijo(p, s) {
        assert ApareceEn(p, s, 0);
      } else if EsSubcadena(p, s[1..]) {
        var i :| ApareceEn(p, s[1..], i);
        assert s[i + 1..i + 1 + |p|] == s[1..][i..i + |p|];
        assert ApareceEn(p, s, i + 1);
      } else {
        forall i | ApareceEn(p, s, i)
          ensures false
        {
          assert i != 0;
          assert s[1..][i - 1..i - 1 + |p|] == s[i..i + |p|];
          assert ApareceEn(p, s[1..], i - 1);
        }
      }
    }
  }

  /** The empty query occurs in every string. */
  lemma VaciaEsSubcadena(s: string)
    ensures EsSubcadena([], s)
  {
  }
}
