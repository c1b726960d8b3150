/**
  The contract's distribution scope (`contract_scope.rs`): reading it from staff input, storing it,
  and checking it per platform and against the DealList of an outgoing message.
*/
module ContractScope {
  import opened Common
  import opened TextBasics
  import opened CodeLists
  import opened IsoDates
  import opened Territory
  import Numerals

  // ---------------------------------------------------------------- the scope

  /** A platform: its code and whether it fingerprints user uploads. */
  datatype Dsp = Dsp(code: string, contentId: bool)

  /** The set of codes is kept in order, as an ordered set is. */
  datatype Scope = Scope(territories: Territories, end: Option<Date>, dsps: Option<seq<string>>, ugc: bool)

  /** The end date as staff type it: nothing (or blank), a text that is no date, or a date. */
  datatype EndInput = NoEnd | NoDate | Day(date: Date)

  datatype ScopeInput = ScopeInput(
    territories: seq<string>, excluded: seq<string>, endDate: EndInput, dsps: seq<string>, ugc: bool)

  datatype ScopeError = TooLong | TerritoryInvalid | TerritoryEmpty | EndInvalid | DspUnknown

  function ScopeTerritories(listed: seq<string>, excluded: seq<string>): Result<Territories, ScopeError> {
    match FromCodes(listed)
    case Err(_) => Err(TerritoryInvalid)
    case Ok(l) =>
      match FromCodes(excluded)
      case Err(_) => Err(TerritoryInvalid)
      case Ok(Only(x)) =>
        (match Narrow(l, WorldExcept(x))
         case None => Err(TerritoryEmpty)
         case Some(t) => Ok(t))
      case Ok(_) => if excluded != [] then Err(TerritoryEmpty) else Ok(l)
  }

  /** The scope reaches a place exactly when the list does and no exclusion names it. */
  lemma {:induction false} ScopeReach(listed: seq<string>, excluded: seq<string>, c: string)
    requires ScopeTerritories(listed, excluded).Ok?
    ensures Includes(ScopeTerritories(listed, excluded).value, c)
       <==> Includes(FromCodes(listed).value, c)
            && (excluded != [] ==> FromCodes(excluded).value.Only? && c !in FromCodes(excluded).value.codes)
  {
    hide FromCodes;
    if FromCodes(excluded).value.Only? {
      NarrowMeets(FromCodes(listed).value, WorldExcept(FromCodes(excluded).value.codes), c);
      if excluded == [] {
        EmptyIsWorldwide();
      }
    }
  }

  lemma {:induction false} EmptyIsWorldwide()
    ensures FromCodes([]) == Ok(Worldwide)
  {
  }

  // ---------------------------------------------------------------- staff input

  /** Codes of known platforms, in order and once each; `None` when a code is unknown. */
  function Chosen(list: seq<string>, known: set<string>): Option<seq<string>>
    decreases |list|
  {
    if list == [] then Some([])
    else
      match Chosen(list[..|list| - 1], known)
      case None => None
      case Some(cs) =>
        var c := Trim(list[|list| - 1]);
        if c in known then Some(Insert(c, cs)) else None
  }

  function EndOf(e: EndInput): Option<Date> { if e.Day? then Some(e.date) else None }

  function InputResult(i: ScopeInput, today: Date, known: set<string>): Result<Scope, ScopeError> {
    if |i.territories| > 250 || |i.excluded| > 250 || |i.dsps| > 100 then Err(TooLong)
    else
      match ScopeTerritories(i.territories, i.excluded)
      case Err(e) => Err(e)
      case Ok(t) =>
        if i.endDate.NoDate? || (i.endDate.Day? && Before(i.endDate.date, today)) then Err(EndInvalid)
        else
          match Chosen(i.dsps, known)
          case None => Err(DspUnknown)
          case Some(cs) => Ok(Scope(t, EndOf(i.endDate), if cs == [] then None else Some(cs), i.ugc))
  }

  method FromInput(i: ScopeInput, today: Date, known: set<string>) returns (r: Result<Scope, ScopeError>)
    ensures r == InputResult(i, today, known)
  {
    hide Trim, Insert, Before, ScopeTerritories;
    if |i.territories| > 250 || |i.excluded| > 250 || |i.dsps| > 100 {
      return Err(TooLong);
    }
    var t := ScopeTerritories(i.territories, i.excluded);
    if t.Err? {
      return Err(t.error);
    }
    var end: Option<Date> := None;
    match i.endDate {
      case NoEnd =>
      case NoDate => return Err(EndInvalid);
      case Day(d) =>
        if Before(d, today) {
          return Err(EndInvalid);
        }
        end := Some(d);
    }
    var dsps: seq<string> := [];
    var k := 0;
    while k < |i.dsps|
      invariant 0 <= k <= |i.dsps|
      invariant Chosen(i.dsps[..k], known) == Some(dsps)
    {
      assert i.dsps[..k + 1][..k] == i.dsps[..k];
      var code := Trim(i.dsps[k]);
      if code !in known {
        ChosenNone(i.dsps, k + 1, known);
        return Err(DspUnknown);
      }
      dsps := Insert(code, dsps);
      k := k + 1;
    }
    assert i.dsps[..k] == i.dsps;
    r := Ok(Scope(t.value, end, if dsps == [] then None else Some(dsps), i.ugc));
  }

  lemma {:induction false} ChosenNone(list: seq<string>, k: nat, known: set<string>)
    requires k <= |list| && Chosen(list[..k], known).None?
    ensures Chosen(list, known).None?
    decreases |list|
  {
    if k == |list| {
      assert list[..k] == list;
    } else {
      assert list[..|list| - 1][..k] == list[..k];
      ChosenNone(list[..|list| - 1], k, known);
    }
  }

  lemma {:induction false} ChosenMeaning(list: seq<string>, known: set<string>)
    requires Chosen(list, known).Some?
    ensures Sorted(Chosen(list, known).value)
    ensures forall c :: c in Chosen(list, known).value <==> exists k :: 0 <= k < |list| && Trim(list[k]) == c
    ensures forall c :: c in Chosen(list, known).value ==> c in known
    decreases |list|
  {
    hide Trim;
    if list != [] {
      var q, x := list[..|list| - 1], Trim(list[|list| - 1]);
      ChosenMeaning(q, known);
      var cs := Chosen(q, known).value;
      InsertSorted(x, cs);
      InsertMembers(x, cs);
      forall c ensures c in Insert(x, cs) <==> exists k :: 0 <= k < |list| && Trim(list[k]) == c {
        if c in cs {
          var k :| 0 <= k < |q| && Trim(q[k]) == c;
          assert list[k] == q[k];
        }
        if k :| 0 <= k < |list| && Trim(list[k]) == c {
          assert k < |q| ==> q[k] == list[k];
        }
      }
    }
  }

  // ---------------------------------------------------------------- the stored form

  /** The stored object; an absent or mistyped member is `None`. */
  datatype Stored = Stored(
    territories: Option<seq<string>>, worldwide: Option<bool>, excluded: Option<seq<string>>,
    endDate: Option<Date>, dsps: Option<seq<string>>, allDsps: Option<bool>, ugc: Option<bool>)

  function ToJson(s: Scope): Stored {
    Stored(Some(if s.territories.Only? then s.territories.codes else []),
           Some(!s.territories.Only?),
           Some(if s.territories.WorldExcept? then s.territories.codes else []),
           s.end,
           Some(if s.dsps.Some? then s.dsps.value else []),
           Some(s.dsps.None?),
           Some(s.ugc))
  }

  function Or<T>(o: Option<T>, d: T): T { if o.Some? then o.value else d }

  function FromJson(v: Stored): Result<Scope, ()> {
    var listed := if Or(v.worldwide, true) then [] else Or(v.territories, []);
    match ScopeTerritories(listed, Or(v.excluded, []))
    case Err(_) => Err(())
    case Ok(t) =>
      Ok(Scope(t, v.endDate, if Or(v.allDsps, true) then None else Some(Normal(Or(v.dsps, []))),
               Or(v.ugc, false)))
  }

  /** What `FromInput` can produce. */
  predicate Storable(s: Scope) {
    && WellFormed(s.territories)
    && (!s.territories.Worldwide? ==> AllIso(s.territories.codes))
    && (s.dsps.Some? ==> Sorted(s.dsps.value))
  }

  /** Storing a scope and reading it back loses nothing. */
  lemma {:induction false} StoredRoundTrip(s: Scope)
    requires Storable(s)
    ensures FromJson(ToJson(s)) == Ok(s)
  {
    EmptyIsWorldwide();
    if s.dsps.Some? {
      NormalOfSorted(s.dsps.value);
    }
    if !s.territories.Worldwide? {
      FromCodesOfNormal(s.territories.codes);
    }
  }

  lemma {:induction false} IsoSubset(a: seq<string>, b: seq<string>)
    requires AllIso(a) && forall c :: c in b ==> c in a
    ensures AllIso(b)
  {
    hide IsIso;
    forall i | 0 <= i < |b| ensures IsIso(b[i]) {
      assert b[i] in b && b[i] in a;
      var k :| 0 <= k < |a| && a[k] == b[i];
    }
  }

  lemma {:induction false} FilterSorted(xs: seq<string>, ys: seq<string>, keep: bool)
    requires Sorted(xs)
    ensures Sorted(Filter(xs, ys, keep))
    decreases |xs|
  {
    if xs != [] {
      var q, x := xs[..|xs| - 1], xs[|xs| - 1];
      FilterSorted(q, ys, keep);
      FilterMembers(q, ys, keep);
      var f := Filter(q, ys, keep);
      forall i | 0 <= i < |f| ensures Numerals.TextLess(f[i], x) {
        assert f[i] in f && f[i] in q;
        var k :| 0 <= k < |q| && q[k] == f[i];
        assert xs[k] == f[i];
      }
    }
  }

  lemma {:induction false} NormalShort(xs: seq<string>)
    ensures |Normal(xs)| <= |xs|
    decreases |xs|
  {
    if xs != [] {
      NormalShort(xs[..|xs| - 1]);
      InsertShort(xs[|xs| - 1], Normal(xs[..|xs| - 1]));
    }
  }

  lemma {:induction false} InsertShort(x: string, xs: seq<string>)
    ensures |Insert(x, xs)| <= |xs| + 1
    decreases |xs|
  {
    if xs != [] {
      InsertShort(x, xs[1..]);
    }
  }

  lemma {:induction false} CodesShort(list: seq<string>)
    requires Codes(list).Ok? && Codes(list).value.Some?
    ensures |Codes(list).value.value| <= |list|
    decreases |list|
  {
    if list != [] {
      CodesShort(list[..|list| - 1]);
    }
  }

  /** Every scope staff can enter survives being stored. */
  lemma {:induction false} InputSurvivesStorage(i: ScopeInput, today: Date, known: set<string>)
    requires InputResult(i, today, known).Ok?
    ensures Storable(InputResult(i, today, known).value)
    ensures FromJson(ToJson(InputResult(i, today, known).value)) == Ok(InputResult(i, today, known).value)
  {
    var s := InputResult(i, today, known).value;
    ChosenMeaning(i.dsps, known);
    InputTerritories(i.territories, i.excluded);
    hide ScopeTerritories, Chosen;
    StoredRoundTrip(s);
  }

  lemma {:induction false} InputTerritories(listed: seq<string>, excluded: seq<string>)
    requires |listed| <= 250 && |excluded| <= 250 && ScopeTerritories(listed, excluded).Ok?
    ensures WellFormed(ScopeTerritories(listed, excluded).value)
    ensures !ScopeTerritories(listed, excluded).value.Worldwide? ==>
              AllIso(ScopeTerritories(listed, excluded).value.codes)
  {
    var l, x := FromCodes(listed).value, FromCodes(excluded).value;
    var t := ScopeTerritories(listed, excluded).value;
    if l.Only? { FromCodesShape(listed); }
    if x.Only? {
      FromCodesShape(excluded);
      CodesShort(excluded);
      NormalShort(Codes(excluded).value.value);
      if l.Only? {
        FilterSorted(l.codes, x.codes, false);
        FilterMembers(l.codes, x.codes, false);
        IsoSubset(l.codes, t.codes);
      }
    }
  }

  // ---------------------------------------------------------------- one platform on one day

  datatype DspFinding = Expired | NotCovered | UgcExcluded

  /** Why a platform may not receive the release; nothing when it may. */
  method DspFindings(s: Scope, dsp: Dsp, today: Date) returns (out: seq<DspFinding>)
    ensures out == [] <==>
              && (s.end.Some? ==> !Before(s.end.value, today))
              && (s.dsps.Some? ==> dsp.code in s.dsps.value)
              && (dsp.contentId ==> s.ugc)
    ensures forall f :: f in out <==>
              || (f == Expired && s.end.Some? && Before(s.end.value, today))
              || (f == NotCovered && s.dsps.Some? && dsp.code !in s.dsps.value)
              || (f == UgcExcluded && !s.ugc && dsp.contentId)
  {
    out := [];
    if s.end.Some? && Before(s.end.value, today) {
      out := out + [Expired];
    }
    if s.dsps.Some? && dsp.code !in s.dsps.value {
      out := out + [NotCovered];
    }
    if !s.ugc && dsp.contentId {
      out := out + [UgcExcluded];
    }
  }
}
