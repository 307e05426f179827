/** `String.prototype.trim` as the task form uses it: it strips the ECMAScript
    WhiteSpace and LineTerminator code points from both ends. */
module Texto {

  /** ECMAScript WhiteSpace (tab, vertical tab, form feed, space, no-break
      space, byte order mark and the Unicode space separators) and
      LineTerminator (line feed, carriage return, line and paragraph
      separators). */
  predicate EsEspacio(c: char)
  {
    c == '\t' || c == '\n' || c == '\U{000B}' || c == '\U{000C}' || c == '\r' || c == ' '
    || c == '\U{00A0}' || c == '\U{1680}' || ('\U{2000}' <= c <= '\U{200A}')
    || c == '\U{2028}' || c == '\U{2029}' || c == '\U{202F}' || c == '\U{205F}'
    || c == '\U{3000}' || c == '\U{FEFF}'
  }

  /** Every character of `s` from index `lo` up to `hi` is white space. */
  predicate EspaciosEn(s: string, lo: int, hi: int)
    requires 0 <= lo <= hi <= |s|
  {
    forall k :: lo <= k < hi ==> EsEspacio(s[k])
  }

  predicate TodoEspacios(s: string)
  {
    EspaciosEn(s, 0, |s|)
  }

  /** The index of the first character at or after `i` that is not white
      space, or `|s|` when there is none: where `trimStart` cuts. */
  function Inicio(s: string, i: nat): (r: nat)
    requires i <= |s|
    ensures i <= r <= |s|
    ensures EspaciosEn(s, i, r)
    ensures r == |s| || !EsEspacio(s[r])
    decreases |s| - i
  {
    if i < |s| && EsEspacio(s[i]) then Inicio(s, i + 1) else i
  }

  /** The index just after the last character before `j` (and not before
      `lo`) that is not white space, or `lo` when there is none: where
      `trimEnd` cuts. */
  function Fin(s: string, lo: nat, j: nat): (r: nat)
    requires lo <= j <= |s|
    ensures lo <= r <= j
    ensures EspaciosEn(s, r, j)
    ensures r == lo || !EsEspacio(s[r - 1])
    decreases j
  {
    if lo < j && EsEspacio(s[j - 1]) then Fin(s, lo, j - 1) else j
  }

  /** Where the trimmed part of `s` starts. */
  function TrimInicio(s: string): (i: nat)
    ensures i <= |s|
  {
    Inicio(s, 0)
  }

  /** `s.trim()`: the part of `s` between its leading and trailing white
      space; empty exactly when `s` is all white space. */
  function Trim(s: string): (r: string)
    ensures TrimInicio(s) + |r| <= |s| && r == s[TrimInicio(s)..TrimInicio(s) + |r|]
    ensures EspaciosEn(s, 0, TrimInicio(s)) && EspaciosEn(s, TrimInicio(s) + |r|, |s|)
    ensures r == [] || (!EsEspacio(r[0]) && !EsEspacio(r[|r| - 1]))
    ensures r == [] <==> TodoEspacios(s)
  {
    var i := Inicio(s, 0);
    var j := Fin(s, i, |s|);
    assert i < j ==> s[i..j][0] == s[i] && s[i..j][j - i - 1] == s[j - 1];
    s[i..j]
  }

  /** Trimming an already trimmed string changes nothing. */
  lemma TrimIdempotent(s: string)
    ensures Trim(Trim(s)) == Trim(s)
  {
    var r := Trim(s);
    TrimOfTrimmed(r);
  }

  /** A string that neither starts nor ends with white space is its own trim. */
  lemma TrimOfTrimmed(s: string)
    requires s == [] || (!EsEspacio(s[0]) && !EsEspacio(s[|s| - 1]))
    ensures Trim(s) == s
  {
  }
}
