/** Blank text, trimming and searching for characters. */
module TextBasics {
  import opened Common

  /** White_Space of the Unicode standard, the characters that `trim` strips. */
  predicate White(c: char) {
    || '\t' <= c <= '\r'
    || c == ' '
    || c == '\U{85}' || c == '\U{A0}' || c == '\U{1680}'
    || '\U{2000}' <= c <= '\U{200A}'
    || c == '\U{2028}' || c == '\U{2029}' || c == '\U{202F}' || c == '\U{205F}' || c == '\U{3000}'
  }

  predicate Blank(s: string) {
    forall i :: 0 <= i < |s| ==> White(s[i])
  }

  function TrimStart(s: string): (r: string)
    ensures r != "" ==> !White(r[0])
    ensures |r| <= |s|
    decreases |s|
  {
    if s != [] && White(s[0]) then TrimStart(s[1..]) else s
  }

  function TrimEnd(s: string): (r: string)
    ensures r != "" ==> !White(r[|r| - 1])
    ensures r <= s
    decreases |s|
  {
    if s != [] && White(s[|s| - 1]) then TrimEnd(s[..|s| - 1]) else s
  }

  function Trim(s: string): (r: string)
    ensures r != "" ==> !White(r[0]) && !White(r[|r| - 1])
  {
    TrimEnd(TrimStart(s))
  }

  lemma {:induction false} TrimTidy(s: string)
    requires s != "" ==> !White(s[0]) && !White(s[|s| - 1])
    ensures Trim(s) == s
  {
  }

  /** First position of any of two characters. */
  function IndexOfEither(s: string, c: char, d: char): (r: Option<nat>)
    ensures r.Some? ==> r.value < |s| && (s[r.value] == c || s[r.value] == d)
    ensures forall i :: 0 <= i < (if r.Some? then r.value else |s|) ==> s[i] != c && s[i] != d
  {
    if s == [] then None
    else if s[0] == c || s[0] == d then Some(0)
    else
      match IndexOfEither(s[1..], c, d)
      case None => None
      case Some(i) => Some(i + 1)
  }

  /** First position of a character. */
  function IndexOf(s: string, c: char): (r: Option<nat>)
    ensures r.Some? ==> r.value < |s| && s[r.value] == c
    ensures forall i :: 0 <= i < (if r.Some? then r.value else |s|) ==> s[i] != c
  {
    IndexOfEither(s, c, c)
  }

  predicate Free(s: string, c: char) { forall i :: 0 <= i < |s| ==> s[i] != c }
}
