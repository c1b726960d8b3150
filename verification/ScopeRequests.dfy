/**
  Which lists of territories are read and as what, when narrowing leaves nothing, and which scopes
  staff may enter.
*/
module ScopeRequests {
  import opened Common
  import opened TextBasics
  import opened CodeLists
  import opened IsoDates
  import opened Territory
  import opened ContractScope

  // ---------------------------------------------------------------- reading codes

  /** A code as it counts: without blanks around it, in capitals. */
  function Code(s: string): string { UpperAll(Trim(s)) }

  predicate Marker(s: string) { Code(s) in {"WORLD", "WW", "WORLDWIDE"} }

  predicate MarkerBefore(list: seq<string>, k: nat) { exists j :: 0 <= j < k && j < |list| && Marker(list[j]) }

  /** Neither a marker nor a code of the table, and no marker stands before it. */
  predicate Unreadable(list: seq<string>, k: int) {
    0 <= k < |list| && !MarkerBefore(list, k) && !Marker(list[k]) && !IsIso(Code(list[k]))
  }

  /** The codes read so far, when nothing was a marker. */
  predicate ReadSoFar(list: seq<string>, cs: seq<string>) {
    |cs| == |list| && forall k :: 0 <= k < |list| ==> cs[k] == Code(list[k])
  }

  lemma {:induction false} CodesOutcome(list: seq<string>)
    ensures Codes(list).Err? <==> exists k :: Unreadable(list, k)
    ensures Codes(list) == Ok(None) ==> MarkerBefore(list, |list|)
    ensures Codes(list).Ok? && Codes(list).value.Some? ==>
              !MarkerBefore(list, |list|) && ReadSoFar(list, Codes(list).value.value)
    decreases |list|
  {
    hide Code, IsIso, Marker, Unreadable, MarkerBefore;
    if list == [] {
      NothingBefore();
      NothingUnreadable();
    } else {
      CodesOutcome(list[..|list| - 1]);
      CodesLast(list);
      SameBefore(list);
      UnreadableLast(list);
    }
  }

  lemma {:induction false} NothingUnreadable()
    ensures forall k :: !Unreadable([], k)
  {
  }

  lemma {:induction false} CodesLast(list: seq<string>)
    requires list != []
    ensures (var n := |list| - 1;
             Codes(list) == match Codes(list[..n])
                            case Err(_) => Err(())
                            case Ok(None) => Ok(None)
                            case Ok(Some(cs)) => if Marker(list[n]) then Ok(None)
                                                 else if IsIso(Code(list[n])) then Ok(Some(cs + [Code(list[n])]))
                                                 else Err(()))
  {
    hide UpperAll, Trim, IsIso;
  }

  lemma {:induction false} UnreadableLast(list: seq<string>)
    requires list != []
    ensures (var n := |list| - 1;
             (exists k :: Unreadable(list, k)) <==>
               || (exists k :: Unreadable(list[..n], k))
               || (!MarkerBefore(list[..n], n) && !Marker(list[n]) && !IsIso(Code(list[n]))))
  {
    hide Code, IsIso, Marker, MarkerBefore;
    var n := |list| - 1;
    SameBefore(list);
    if k :| Unreadable(list[..n], k) {
      assert Unreadable(list, k);
    }
    if !MarkerBefore(list[..n], n) && !Marker(list[n]) && !IsIso(Code(list[n])) {
      assert Unreadable(list, n);
    }
    if k :| Unreadable(list, k) {
      assert k < n ==> Unreadable(list[..n], k);
    }
  }

  lemma {:induction false} SameBefore(list: seq<string>)
    requires list != []
    ensures (var n := |list| - 1;
             && (forall k :: 0 <= k <= n ==> (MarkerBefore(list[..n], k) <==> MarkerBefore(list, k)))
             && (MarkerBefore(list, n + 1) <==> MarkerBefore(list, n) || Marker(list[n])))
  {
    hide Marker;
    var n := |list| - 1;
    var q := list[..n];
    if j :| 0 <= j < n + 1 && j < |list| && Marker(list[j]) {
      assert j < n ==> 0 <= j < n && j < |list| && Marker(list[j]);
    }
    forall k | 0 <= k <= n ensures MarkerBefore(q, k) <==> MarkerBefore(list, k) {
      if j :| 0 <= j < k && j < |list| && Marker(list[j]) {
        assert q[j] == list[j];
      }
      if j :| 0 <= j < k && j < |q| && Marker(q[j]) {
        assert q[j] == list[j];
      }
    }
  }

  /** A list is refused exactly when some entry before the first marker is not a code; with a marker, or
      without entries, it stands for everywhere; otherwise for its codes, sorted, each once. */
  lemma {:induction false} ListMeans(list: seq<string>)
    ensures FromCodes(list).Err? <==> exists k :: Unreadable(list, k)
    ensures FromCodes(list).Ok? ==>
              (FromCodes(list).value.Worldwide? <==> list == [] || MarkerBefore(list, |list|))
    ensures FromCodes(list).Ok? && !FromCodes(list).value.Worldwide? ==>
              && FromCodes(list).value.Only? && Sorted(FromCodes(list).value.codes)
              && forall c :: c in FromCodes(list).value.codes <==> exists k :: 0 <= k < |list| && Code(list[k]) == c
  {
    hide Codes, Code, MarkerBefore, Unreadable, Normal, Sorted;
    CodesOutcome(list);
    NothingBefore();
    match Codes(list) {
      case Err(_) =>
      case Ok(None) =>
      case Ok(Some(cs)) =>
        NormalMembers(cs);
        NormalSorted(cs);
        EmptyNormal(cs);
        forall c ensures c in Normal(cs) <==> exists k :: 0 <= k < |list| && Code(list[k]) == c {
          if c in cs {
            var k :| 0 <= k < |cs| && cs[k] == c;
            assert Code(list[k]) == c;
          }
          if k :| 0 <= k < |list| && Code(list[k]) == c {
            assert cs[k] == c;
          }
        }
    }
  }

  lemma {:induction false} NothingBefore()
    ensures !MarkerBefore([], 0)
  {
  }

  lemma {:induction false} EmptyNormal(cs: seq<string>)
    ensures Normal(cs) == [] <==> cs == []
  {
    NormalMembers(cs);
    if cs != [] {
      assert cs[0] in Normal(cs);
    }
  }

  // ---------------------------------------------------------------- when nothing is left

  lemma {:induction false} InsertSize(x: string, xs: seq<string>)
    ensures |Insert(x, xs)| <= |xs| + 1 && |Insert(x, xs)| >= |xs|
    ensures x in xs && Sorted(xs) ==> |Insert(x, xs)| == |xs|
    ensures x !in xs ==> |Insert(x, xs)| == |xs| + 1
    decreases |xs|
  {
    if xs != [] {
      if x in xs && x != xs[0] && Sorted(xs) {
        var k :| 0 <= k < |xs| && xs[k] == x;
        assert xs[1..][k - 1] == x;
        Numerals.TextLessTotal(x, xs[0]);
      }
      InsertSize(x, xs[1..]);
    }
  }

  /** Sorting with removal leaves one entry for each different code. */
  lemma {:induction false} NormalSize(xs: seq<string>)
    ensures |Normal(xs)| == |set c | c in xs|
    decreases |xs|
  {
    hide Insert;
    if xs == [] {
      assert (set c | c in xs) == {};
    } else {
      var q, x := xs[..|xs| - 1], xs[|xs| - 1];
      NormalSize(q);
      NormalMembers(q);
      NormalSorted(q);
      InsertSize(x, Normal(q));
      assert xs == q + [x];
      var a := set c | c in q;
      assert (set c | c in xs) == a + {x};
      assert x in a ==> a + {x} == a;
      assert Normal(xs) == Insert(x, Normal(q));
    }
  }

  predicate CommonPlace(t: Territories, a: Territories, c: string) { Includes(t, c) && Includes(a, c) }

  lemma {:induction false} SomePlace(t: Territories)
    requires WellFormed(t) && !t.WorldExcept?
    ensures exists c :: Includes(t, c)
  {
    if t.Only? {
      assert Includes(t, t.codes[0]);
    } else {
      assert Includes(t, "");
    }
  }

  function Longest(xs: seq<string>): (s: string)
    ensures forall i :: 0 <= i < |xs| ==> |xs[i]| <= |s|
  {
    if xs == [] then ""
    else
      var l := Longest(xs[..|xs| - 1]);
      if |xs[|xs| - 1]| > |l| then xs[|xs| - 1] else l
  }

  lemma {:induction false} PlaceOutside(x: seq<string>)
    ensures exists c :: c !in x
  {
    assert Longest(x) + "A" !in x;
  }

  /** Narrowing gives no answer exactly when no place is left, or the exclusions of both together name
      251 different codes, the whole table. */
  lemma {:induction false} NarrowExactlyWhen(t: Territories, a: Territories)
    requires WellFormed(t) && WellFormed(a)
    ensures Narrow(t, a).None? <==>
              || (forall c :: !CommonPlace(t, a, c))
              || (t.WorldExcept? && a.WorldExcept? && |set c | c in t.codes + a.codes| >= 251)
  {
    hide Normal, Filter, WellFormed;
    if Narrow(t, a).None? {
      NarrowNothingLeft(t, a);
      if t.WorldExcept? && a.WorldExcept? {
        NormalSize(t.codes + a.codes);
      }
    } else {
      var n := Narrow(t, a).value;
      if t.WorldExcept? && a.WorldExcept? {
        NormalSize(t.codes + a.codes);
        PlaceOutside(n.codes);
      }
      PlaceLeft(t, a, n);
    }
  }

  lemma {:induction false} PlaceLeft(t: Territories, a: Territories, n: Territories)
    requires WellFormed(t) && WellFormed(a) && Narrow(t, a) == Some(n)
    ensures exists c :: CommonPlace(t, a, c)
  {
    hide Normal, Filter, Includes;
    var c := SomeIncluded(t, a, n);
    NarrowMeets(t, a, c);
    assert CommonPlace(t, a, c);
  }

  lemma {:induction false} SomeIncluded(t: Territories, a: Territories, n: Territories) returns (c: string)
    requires WellFormed(t) && WellFormed(a) && Narrow(t, a) == Some(n)
    ensures Includes(n, c)
  {
    hide Normal, Filter;
    match n
    case Worldwide => c := "";
    case WorldExcept(x) => c := Longest(x) + "A";
    case Only(x) => c := x[0];
  }

  // ---------------------------------------------------------------- what staff may enter

  /** The territories are refused when a list cannot be read; they are empty when everything is excluded,
      by a marker or code by code. */
  lemma {:induction false} TerritoriesOutcome(listed: seq<string>, excluded: seq<string>)
    ensures ScopeTerritories(listed, excluded) == Err(TerritoryInvalid) <==>
              (exists k :: Unreadable(listed, k)) || (exists k :: Unreadable(excluded, k))
    ensures ScopeTerritories(listed, excluded) == Err(TerritoryEmpty) <==>
              && FromCodes(listed).Ok? && FromCodes(excluded).Ok?
              && (|| (excluded != [] && FromCodes(excluded).value.Worldwide?)
                  || (FromCodes(listed).value.Only? && FromCodes(excluded).value.Only?
                      && forall c :: c in FromCodes(listed).value.codes ==> c in FromCodes(excluded).value.codes))
    ensures ScopeTerritories(listed, excluded).Err? ==>
              ScopeTerritories(listed, excluded).error in {TerritoryInvalid, TerritoryEmpty}
  {
    ListMeans(listed);
    ListMeans(excluded);
    hide FromCodes, Unreadable, Code, MarkerBefore;
    if FromCodes(listed).Ok? && FromCodes(excluded).Ok? && FromCodes(listed).value.Only?
       && FromCodes(excluded).value.Only?
    {
      var l, x := FromCodes(listed).value.codes, FromCodes(excluded).value.codes;
      FilterMembers(l, x, false);
      var f := Filter(l, x, false);
      if f != [] {
        assert f[0] in f;
      }
    }
  }

  predicate Day0(e: EndInput, today: Date) { e.NoEnd? || (e.Day? && !Before(e.date, today)) }

  predicate AllKnown(dsps: seq<string>, known: set<string>) {
    forall k :: 0 <= k < |dsps| ==> Trim(dsps[k]) in known
  }

  lemma {:induction false} ChosenWhen(list: seq<string>, known: set<string>)
    ensures Chosen(list, known).Some? <==> AllKnown(list, known)
    ensures Chosen(list, known).Some? ==> (Chosen(list, known).value == [] <==> list == [])
    decreases |list|
  {
    hide Trim;
    if list != [] {
      var n := |list| - 1;
      ChosenWhen(list[..n], known);
      assert forall k :: 0 <= k < n ==> list[..n][k] == list[k];
      if Chosen(list[..n], known).Some? {
        InsertSize(Trim(list[n]), Chosen(list[..n], known).value);
        InsertMembers(Trim(list[n]), Chosen(list[..n], known).value);
      }
    }
  }

  /** Staff may enter a scope exactly when its lists are short enough, its territories are readable and
      not empty, its last day is not past, and its platforms are known; it is what was entered. */
  lemma {:induction false} InputExactlyWhen(i: ScopeInput, today: Date, known: set<string>)
    ensures InputResult(i, today, known).Ok? <==>
              && |i.territories| <= 250 && |i.excluded| <= 250 && |i.dsps| <= 100
              && ScopeTerritories(i.territories, i.excluded).Ok?
              && Day0(i.endDate, today) && AllKnown(i.dsps, known)
    ensures InputResult(i, today, known).Ok? ==>
              (var s := InputResult(i, today, known).value;
               && Ok(s.territories) == ScopeTerritories(i.territories, i.excluded)
               && (if i.endDate.Day? then s.end == Some(i.endDate.date) else s.end == None)
               && (s.dsps.None? <==> i.dsps == []) && s.ugc == i.ugc
               && (s.dsps.Some? ==>
                     Sorted(s.dsps.value)
                     && forall c :: c in s.dsps.value <==> exists k :: 0 <= k < |i.dsps| && Trim(i.dsps[k]) == c))
  {
    hide ScopeTerritories, Chosen, Trim, Before, Sorted;
    ChosenWhen(i.dsps, known);
    if Chosen(i.dsps, known).Some? {
      ChosenMeaning(i.dsps, known);
    }
  }

  /** The first thing wrong decides the error. */
  lemma {:induction false} InputErrors(i: ScopeInput, today: Date, known: set<string>)
    requires InputResult(i, today, known).Err?
    ensures (var e := InputResult(i, today, known).error;
             if |i.territories| > 250 || |i.excluded| > 250 || |i.dsps| > 100 then e == TooLong
             else if ScopeTerritories(i.territories, i.excluded).Err? then
               e == ScopeTerritories(i.territories, i.excluded).error
             else if !Day0(i.endDate, today) then e == EndInvalid
             else e == DspUnknown && !AllKnown(i.dsps, known))
  {
    hide ScopeTerritories, Chosen, Before;
    ChosenWhen(i.dsps, known);
  }

  /** Members missing from the stored object: everywhere, for every platform, without user uploads. */
  lemma {:induction false} StoredDefaults(v: Stored)
    ensures FromJson(Stored(None, None, None, None, None, None, None)) == Ok(Scope(Worldwide, None, None, false))
    ensures v.worldwide.None? ==> FromJson(v) == FromJson(v.(worldwide := Some(true)))
    ensures v.worldwide != Some(false) ==> FromJson(v) == FromJson(v.(territories := Some([])))
    ensures v.allDsps != Some(false) && FromJson(v).Ok? ==> FromJson(v).value.dsps == None
    ensures v.ugc.None? ==> FromJson(v) == FromJson(v.(ugc := Some(false)))
    ensures FromJson(v).Ok? ==> FromJson(v).value.end == v.endDate
  {
    EmptyIsWorldwide();
    hide FromCodes, Narrow;
  }
}
