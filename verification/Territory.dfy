/**
  Territories of a deal (`territory.rs`): everywhere, everywhere but, or only.

  `Includes` says which places a value reaches. `NarrowMeets` shows that narrowing is the
  intersection of the two regions whenever it answers, and `NarrowNothingLeft` when it does not.
*/
module Territory {
  import opened Common
  import opened Numerals
  import opened CodeLists
  import opened TextBasics

  /** Number of ISO 3166-1 alpha-2 codes accepted by ERN 3.8.2. */
  const ISO_COUNT := 251

  /** The accepted codes that start with `c`, by their second letter. */
  function SecondLetters(c: char): string {
    match c
    case 'A' => "DEFGILMNOQRSTUWXZ"
    case 'B' => "ABDEFGHIJLMNOQRSTVWYZ"
    case 'C' => "ACDFGHIKLMNORSUVWXYZ"
    case 'D' => "EJKMOZ"
    case 'E' => "CEGHRST"
    case 'F' => "IJKMOR"
    case 'G' => "ABDEFGHILMNPQRSTUWY"
    case 'H' => "KMNRTU"
    case 'I' => "DELMNOQRST"
    case 'J' => "EMOP"
    case 'K' => "EGHIMNPRWYZ"
    case 'L' => "ABCIKRSTUVY"
    case 'M' => "ACDEFGHKLMNOPQRSTUVWXYZ"
    case 'N' => "ACEFGILOPRUZ"
    case 'O' => "M"
    case 'P' => "AEFGHKLMNRSTWY"
    case 'Q' => "A"
    case 'R' => "EOSUW"
    case 'S' => "ABCDEGHIJKLMNORSTVXYZ"
    case 'T' => "CDFGHJKLMNORTVWZ"
    case 'U' => "AGMSYZ"
    case 'V' => "ACEGINU"
    case 'W' => "FS"
    case 'Y' => "ET"
    case 'Z' => "AMW"
    case _ => ""
  }

  predicate IsIso(c: string) {
    |c| == 2 && 'A' <= c[0] <= 'Z' && 'A' <= c[1] <= 'Z' && c[1] in SecondLetters(c[0])
  }

  datatype Territories =
    | Worldwide
    | WorldExcept(codes: seq<string>)
    | Only(codes: seq<string>)

  /** Sorted, distinct, never empty, never the whole table excluded. */
  predicate WellFormed(t: Territories) {
    match t
    case Worldwide => true
    case WorldExcept(x) => x != [] && Sorted(x) && |x| < ISO_COUNT
    case Only(x) => x != [] && Sorted(x)
  }

  predicate Includes(t: Territories, code: string) {
    match t
    case Worldwide => true
    case WorldExcept(x) => code !in x
    case Only(x) => code in x
  }

  /** Where both reach; `None` when nothing is left. */
  function Narrow(t: Territories, allowed: Territories): Option<Territories> {
    var out :=
      if allowed.Worldwide? then Some(t)
      else if t.Worldwide? then Some(allowed)
      else if t.WorldExcept? && allowed.WorldExcept? then
        var x := Normal(t.codes + allowed.codes);
        if |x| >= ISO_COUNT then None else Some(WorldExcept(x))
      else if t.WorldExcept? then Some(Only(Filter(allowed.codes, t.codes, false)))
      else if allowed.WorldExcept? then Some(Only(Filter(t.codes, allowed.codes, false)))
      else Some(Only(Filter(t.codes, allowed.codes, true)));
    if out.Some? && out.value.Only? && out.value.codes == [] then None else out
  }

  ghost predicate Within(t: Territories, allowed: Territories) {
    forall c: string :: Includes(t, c) ==> Includes(allowed, c)
  }

  /** An answer reaches exactly where both do. */
  lemma {:induction false} NarrowMeets(t: Territories, allowed: Territories, c: string)
    requires Narrow(t, allowed).Some?
    ensures Includes(Narrow(t, allowed).value, c) <==> Includes(t, c) && Includes(allowed, c)
  {
    if t.WorldExcept? && allowed.WorldExcept? {
      NormalMembers(t.codes + allowed.codes);
    } else if t.WorldExcept? && allowed.Only? {
      FilterMembers(allowed.codes, t.codes, false);
    } else if t.Only? && allowed.WorldExcept? {
      FilterMembers(t.codes, allowed.codes, false);
    } else if t.Only? && allowed.Only? {
      FilterMembers(t.codes, allowed.codes, true);
    }
  }

  /** No answer: no place is left, or the exclusions together fill the code table. */
  lemma {:induction false} NarrowNothingLeft(t: Territories, allowed: Territories)
    requires WellFormed(t) && WellFormed(allowed) && Narrow(t, allowed).None?
    ensures (forall c: string :: !(Includes(t, c) && Includes(allowed, c)))
         || (t.WorldExcept? && allowed.WorldExcept? && |Normal(t.codes + allowed.codes)| >= ISO_COUNT)
  {
    if t.WorldExcept? && allowed.Only? {
      FilterMembers(allowed.codes, t.codes, false);
    } else if t.Only? && allowed.WorldExcept? {
      FilterMembers(t.codes, allowed.codes, false);
    } else if t.Only? && allowed.Only? {
      FilterMembers(t.codes, allowed.codes, true);
    }
  }

  // ---------------------------------------------------------------- reading codes

  function Upper(c: char): char { if 'a' <= c <= 'z' then c - 'a' + 'A' else c }

  function UpperAll(s: string): (r: string)
    ensures |r| == |s| && forall i :: 0 <= i < |s| ==> r[i] == Upper(s[i])
  {
    if s == [] then [] else UpperAll(s[..|s| - 1]) + [Upper(s[|s| - 1])]
  }

  predicate WorldMarker(c: string) { c == "WORLD" || c == "WW" || c == "WORLDWIDE" }

  /** Codes as staff write them: any case, blanks around, a world marker or nothing for everywhere. */
  function FromCodes(list: seq<string>): Result<Territories, ()> {
    match Codes(list)
    case Err(_) => Err(())
    case Ok(None) => Ok(Worldwide)
    case Ok(Some(cs)) =>
      var x := Normal(cs);
      if x == [] then Ok(Worldwide) else Ok(Only(x))
  }

  /** The codes read before the first world marker; `None` once a marker is met. */
  function Codes(list: seq<string>): Result<Option<seq<string>>, ()>
    decreases |list|
  {
    if list == [] then Ok(Some([]))
    else
      match Codes(list[..|list| - 1])
      case Err(_) => Err(())
      case Ok(None) => Ok(None)
      case Ok(Some(cs)) =>
        var c := UpperAll(Trim(list[|list| - 1]));
        if WorldMarker(c) then Ok(None)
        else if IsIso(c) then Ok(Some(cs + [c]))
        else Err(())
  }

  predicate AllIso(xs: seq<string>) { forall i :: 0 <= i < |xs| ==> IsIso(xs[i]) }

  lemma {:induction false} CodeOfIso(c: string)
    requires IsIso(c)
    ensures UpperAll(Trim(c)) == c && !WorldMarker(c)
  {
    TrimTidy(c);
    assert UpperAll(c) == c;
    assert c != "WW";
  }

  lemma {:induction false} CodesOfIso(xs: seq<string>)
    requires AllIso(xs)
    ensures Codes(xs) == Ok(Some(xs))
    decreases |xs|
  {
    if xs != [] {
      var q, c := xs[..|xs| - 1], xs[|xs| - 1];
      CodesOfIso(q);
      CodeOfIso(c);
      assert q + [c] == xs;
    }
  }

  lemma {:induction false} CodesAreIso(xs: seq<string>)
    requires Codes(xs).Ok? && Codes(xs).value.Some?
    ensures AllIso(Codes(xs).value.value)
    decreases |xs|
  {
    if xs != [] {
      CodesAreIso(xs[..|xs| - 1]);
    }
  }

  /** Reading a normalised list of codes gives it back. */
  lemma {:induction false} FromCodesOfNormal(xs: seq<string>)
    requires xs != [] && Sorted(xs) && AllIso(xs)
    ensures FromCodes(xs) == Ok(Only(xs))
  {
    CodesOfIso(xs);
    NormalOfSorted(xs);
  }

  lemma {:induction false} FromCodesShape(xs: seq<string>)
    requires FromCodes(xs).Ok? && FromCodes(xs).value.Only?
    ensures WellFormed(FromCodes(xs).value) && AllIso(FromCodes(xs).value.codes)
    ensures FromCodes(xs).Ok? ==> !FromCodes(xs).value.WorldExcept?
  {
    var cs := Codes(xs).value.value;
    CodesAreIso(xs);
    NormalSorted(cs);
    NormalMembers(cs);
    forall i | 0 <= i < |Normal(cs)| ensures IsIso(Normal(cs)[i]) {
      assert Normal(cs)[i] in Normal(cs);
    }
  }
}
