/**
  The last check before a send: the DealList of the outgoing message against the contract's region
  (`xml_values` of `transport.rs`, `ern_within` of `contract_scope.rs`).

  `WithinExactlyWhen` gives the exact condition. It is not simply "the deal's region lies inside
  the contract's": `narrow` leaves a list as it came when the contract is worldwide, and keeps
  repetitions when it filters one, so a message with two deals, which repeats the codes, fails
  the comparison with the sorted list.
*/
module OutgoingDeals {
  import opened Common
  import opened TextBasics
  import opened CodeLists
  import opened Territory
  import opened XmlTree
  import opened ErnMessage
  import opened ErnSample
  import opened IsoDates
  import opened ErnWritten
  import Numerals
  import ErnAccepted
  import ErnDepth

  // ---------------------------------------------------------------- reading values

  /** Where the value reader stands. Its reader does not trim. */
  datatype Reading = Reading(inside: bool, buf: string, out: seq<string>)

  function Read(r: Reading, e: Event, tag: Tag): Reading {
    match e
    case Start(t) => if t == tag then r.(inside := true, buf := "") else r
    case Text(x) => if r.inside then r.(buf := r.buf + x) else r
    case CData(x) => if r.inside then r.(buf := r.buf + x) else r
    case Entity(x) => if r.inside then r.(buf := r.buf + x) else r
    case End(t) =>
      if r.inside && t == tag then Reading(false, r.buf, r.out + [Trim(r.buf)]) else r
    case Empty(_) => r
    case Misc => r
    case Fault => r
  }

  function ReadAll(r: Reading, es: seq<Event>, tag: Tag): Reading
    decreases |es|
  {
    if es == [] then r else Read(ReadAll(r, es[..|es| - 1], tag), es[|es| - 1], tag)
  }

  const NOTHING_READ := Reading(false, "", [])

  /** Up to the first reader error. */
  function Readable(es: seq<Event>): seq<Event>
    decreases |es|
  {
    if es == [] || es[0].Fault? then [] else [es[0]] + Readable(es[1..])
  }

  /** The reader loop. */
  method XmlValues(es: seq<Event>, tag: Tag) returns (out: seq<string>)
    ensures out == ReadAll(NOTHING_READ, Readable(es), tag).out
  {
    hide Trim;
    out := [];
    var inside, buf := false, "";
    var i := 0;
    assert es[..0] == [];
    while i < |es|
      invariant 0 <= i <= |es|
      invariant Readable(es) == es[..i] + Readable(es[i..])
      invariant Reading(inside, buf, out) == ReadAll(NOTHING_READ, es[..i], tag)
    {
      ReadableStep(es, i);
      assert es[..i + 1][..i] == es[..i];
      match es[i] {
        case Start(t) =>
          if t == tag {
            inside, buf := true, "";
          }
        case Text(x) =>
          if inside {
            buf := buf + x;
          }
        case CData(x) =>
          if inside {
            buf := buf + x;
          }
        case Entity(x) =>
          if inside {
            buf := buf + x;
          }
        case End(t) =>
          if inside && t == tag {
            inside := false;
            out := out + [Trim(buf)];
          }
        case Fault =>
          return;
        case Empty(_) =>
        case Misc =>
      }
      i := i + 1;
    }
    assert es[..i] + [] == es[..i] == es;
  }

  lemma {:induction false} ReadableStep(es: seq<Event>, i: nat)
    requires i < |es| && Readable(es) == es[..i] + Readable(es[i..])
    ensures Readable(es) == if es[i].Fault? then es[..i] else es[..i + 1] + Readable(es[i + 1..])
  {
    assert es[i..][0] == es[i] && es[i..][1..] == es[i + 1..];
    assert es[..i + 1] == es[..i] + [es[i]];
  }

  lemma {:induction false} ReadAppend(r: Reading, a: seq<Event>, b: seq<Event>, tag: Tag)
    ensures ReadAll(r, a + b, tag) == ReadAll(ReadAll(r, a, tag), b, tag)
    decreases |b|
  {
    hide Read;
    if b == [] {
      assert a + b == a;
    } else {
      var i := |b| - 1;
      assert (a + b)[..|a + b| - 1] == a + b[..i];
      assert (a + b)[|a + b| - 1] == b[i];
      ReadAppend(r, a, b[..i], tag);
    }
  }

  lemma {:induction false} ReadOne(r: Reading, e: Event, tag: Tag)
    ensures ReadAll(r, [e], tag) == Read(r, e, tag)
  {
    assert [e][..0] == [];
  }

  lemma {:induction false} ReadPieces(r: Reading, ps: seq<Piece>, tag: Tag)
    ensures ReadAll(r, PieceEvents(ps), tag) == if r.inside then r.(buf := r.buf + Joined(ps)) else r
    decreases |ps|
  {
    hide Trim, PieceText, ReadAll;
    if ps == [] {
      ReadNone(r, tag);
      assert r.buf + "" == r.buf;
    } else {
      var q, x := ps[..|ps| - 1], ps[|ps| - 1];
      ReadPieces(r, q, tag);
      ReadAppend(r, PieceEvents(q), [PieceEvent(x)], tag);
      ReadOne(ReadAll(r, PieceEvents(q), tag), PieceEvent(x), tag);
      ReadPiece(ReadAll(r, PieceEvents(q), tag), x, tag);
      assert (r.buf + Joined(q)) + PieceText(x) == r.buf + (Joined(q) + PieceText(x));
    }
  }

  lemma {:induction false} ReadNone(r: Reading, tag: Tag)
    ensures ReadAll(r, [], tag) == r
  {
  }

  lemma {:induction false} ReadPiece(r: Reading, p: Piece, tag: Tag)
    ensures Read(r, PieceEvent(p), tag) == if r.inside then r.(buf := r.buf + PieceText(p)) else r
  {
    assert r.buf + "" == r.buf;
  }

  /** Only leaves are called `tag`. */
  predicate LeafOnly(n: Node, tag: Tag) {
    n.Branch? ==> n.tag != tag && forall i :: 0 <= i < |n.kids| ==> LeafOnly(n.kids[i], tag)
  }

  /** Trimmed contents of the leaves called `tag`, in document order. */
  function LeafValues(n: Node, tag: Tag): seq<string>
    decreases n, 1
  {
    match n
    case Leaf(t, c) => if t == tag then [Trim(Joined(PiecesOf(c)))] else []
    case Branch(_, ks) => LeafValuesAll(ks, tag)
    case Void(_) => []
  }

  function LeafValuesAll(ns: seq<Node>, tag: Tag): seq<string>
    decreases ns, 0
  {
    if ns == [] then [] else LeafValuesAll(ns[..|ns| - 1], tag) + LeafValues(ns[|ns| - 1], tag)
  }

  /** A leaf the writer wrote: the value itself, trimmed. */
  lemma {:induction false} WrittenLeafValue(t: Tag, v: string)
    ensures LeafValues(Leaf(t, Written(v)), t) == [Trim(v)]
  {
    PiecesSpell(v);
  }

  /** Outside every element so called, with these values read. */
  predicate Outside(r: Reading, out: seq<string>) { !r.inside && r.out == out }

  lemma {:induction false} ReadLeaf(r: Reading, t: Tag, c: Content, tag: Tag)
    requires !r.inside
    ensures Outside(ReadAll(r, Flatten(Leaf(t, c)), tag), r.out + LeafValues(Leaf(t, c), tag))
  {
    hide Trim, Pieces, ReadAll, Joined, PieceEvents, PiecesOf;
    var ps := PiecesOf(c);
    var begun := Read(r, Start(t), tag);
    ReadAppend(r, [Start(t)] + PieceEvents(ps), [End(t)], tag);
    ReadAppend(r, [Start(t)], PieceEvents(ps), tag);
    ReadOne(r, Start(t), tag);
    ReadPieces(begun, ps, tag);
    ReadOne(ReadAll(begun, PieceEvents(ps), tag), End(t), tag);
    if t == tag {
      assert "" + Joined(ps) == Joined(ps);
    } else {
      assert r.out + [] == r.out;
    }
  }

  lemma {:induction false} ReadNode(r: Reading, n: Node, tag: Tag)
    requires !r.inside && LeafOnly(n, tag)
    ensures Outside(ReadAll(r, Flatten(n), tag), r.out + LeafValues(n, tag))
    decreases n, 1
  {
    hide Trim, ReadAll;
    match n
    case Leaf(t, c) => ReadLeaf(r, t, c, tag);
    case Void(t) =>
      ReadOne(r, Empty(t), tag);
      assert r.out + [] == r.out;
    case Branch(t, ks) =>
      ReadAppend(r, [Start(t)] + FlattenAll(ks), [End(t)], tag);
      ReadAppend(r, [Start(t)], FlattenAll(ks), tag);
      ReadOne(r, Start(t), tag);
      ReadNodes(r, ks, tag);
      ReadOne(ReadAll(r, FlattenAll(ks), tag), End(t), tag);
  }

  lemma {:induction false} ReadNodes(r: Reading, ns: seq<Node>, tag: Tag)
    requires !r.inside && forall i :: 0 <= i < |ns| ==> LeafOnly(ns[i], tag)
    ensures Outside(ReadAll(r, FlattenAll(ns), tag), r.out + LeafValuesAll(ns, tag))
    decreases ns, 0
  {
    hide Trim, ReadAll, Flatten, LeafValues, LeafOnly;
    if ns == [] {
      ReadNone(r, tag);
      assert r.out + [] == r.out;
    } else {
      var q, n := ns[..|ns| - 1], ns[|ns| - 1];
      ReadNodes(r, q, tag);
      ReadAppend(r, FlattenAll(q), Flatten(n), tag);
      ReadNode(ReadAll(r, FlattenAll(q), tag), n, tag);
      assert (r.out + LeafValuesAll(q, tag)) + LeafValues(n, tag) == r.out + LeafValuesAll(ns, tag);
    }
  }

  lemma {:induction false} NoFaultReadable(es: seq<Event>)
    requires forall i :: 0 <= i < |es| ==> !es[i].Fault?
    ensures Readable(es) == es
    decreases |es|
  {
    if es != [] {
      NoFaultReadable(es[1..]);
      assert es == [es[0]] + es[1..];
    }
  }

  lemma {:induction false} TreesHaveNoFault(n: Node)
    ensures forall i :: 0 <= i < |Flatten(n)| ==> !Flatten(n)[i].Fault?
    decreases n, 1
  {
    if n.Branch? {
      ForestsHaveNoFault(n.kids);
    }
  }

  lemma {:induction false} ForestsHaveNoFault(ns: seq<Node>)
    ensures forall i :: 0 <= i < |FlattenAll(ns)| ==> !FlattenAll(ns)[i].Fault?
    decreases ns, 0
  {
    if ns != [] {
      ForestsHaveNoFault(ns[..|ns| - 1]);
      TreesHaveNoFault(ns[|ns| - 1]);
    }
  }

  /** The values read from a document are the contents of exactly the elements asked for, in
      document order, whatever closes after the part that is read. */
  lemma {:induction false} ValuesOfTree(n: Node, closing: Tag, tag: Tag)
    requires LeafOnly(n, tag) && closing != tag
    ensures ReadAll(NOTHING_READ, Readable(Flatten(n) + [End(closing)]), tag).out == LeafValues(n, tag)
  {
    hide ReadAll, LeafValues, Readable, LeafOnly, Flatten, Trim;
    TreesHaveNoFault(n);
    NoFaultReadable(Flatten(n) + [End(closing)]);
    ReadAppend(NOTHING_READ, Flatten(n), [End(closing)], tag);
    ReadNode(NOTHING_READ, n, tag);
    ReadOne(ReadAll(NOTHING_READ, Flatten(n), tag), End(closing), tag);
    assert [] + LeafValues(n, tag) == LeafValues(n, tag);
  }

  // ---------------------------------------------------------------- the check

  function Normalize(t: Territories): Territories {
    match t
    case Worldwide => t
    case WorldExcept(x) => WorldExcept(Normal(x))
    case Only(x) => Only(Normal(x))
  }

  predicate NamesWorld(listed: seq<string>) {
    exists i :: 0 <= i < |listed| && UpperAll(listed[i]) == "WORLDWIDE"
  }

  /** The region a DealList's values spell. */
  function Sent(listed: seq<string>, excluded: seq<string>): Territories {
    if NamesWorld(listed) || (listed == [] && excluded == []) then Worldwide
    else if listed == [] then WorldExcept(excluded)
    else Only(listed)
  }

  /** Inside the contract when narrowing by it changes nothing. */
  predicate Unchanged(sent: Territories, contract: Territories) {
    Narrow(sent, contract) == Some(Normalize(sent))
  }

  /** The message from its first DealList on. */
  function FromDealList(es: seq<Event>): Option<seq<Event>>
    decreases |es|
  {
    if es == [] then None
    else if es[0] == Start(DealList) then Some(es)
    else FromDealList(es[1..])
  }

  /** What the check answers for a message. */
  predicate PassesContract(es: seq<Event>, contract: Territories) {
    match FromDealList(es)
    case None => true
    case Some(deals) =>
      Unchanged(Sent(ReadAll(NOTHING_READ, Readable(deals), TerritoryCode).out,
                     ReadAll(NOTHING_READ, Readable(deals), ExcludedTerritoryCode).out), contract)
  }

  method ErnWithin(es: seq<Event>, contract: Territories) returns (ok: bool)
    ensures ok == PassesContract(es, contract)
  {
    var deals := FromDealList(es);
    if deals.None? {
      return true;
    }
    var listed := XmlValues(deals.value, TerritoryCode);
    var excluded := XmlValues(deals.value, ExcludedTerritoryCode);
    var sent := Sent(listed, excluded);
    var narrowed := Narrow(sent, contract);
    ok := narrowed.Some? && narrowed.value == Normalize(sent);
  }

  // ---------------------------------------------------------------- what a written DealList spells

  lemma {:induction false} TidyRead(v: string)
    requires Tidy(v)
    ensures Trim(Joined(PiecesOf(Written(v)))) == v
  {
    PiecesSpell(v);
    TrimTidy(v);
  }

  lemma {:induction false} ValuesAppend(a: seq<Node>, b: seq<Node>, tag: Tag)
    ensures LeafValuesAll(a + b, tag) == LeafValuesAll(a, tag) + LeafValuesAll(b, tag)
    decreases |b|
  {
    hide LeafValues;
    if b == [] {
      assert a + b == a;
    } else {
      var i := |b| - 1;
      assert (a + b)[..|a + b| - 1] == a + b[..i];
      ValuesAppend(a, b[..i], tag);
      assert (a + b)[|a + b| - 1] == b[i];
    }
  }

  lemma {:induction false} ValuesOne(n: Node, tag: Tag)
    ensures LeafValuesAll([n], tag) == LeafValues(n, tag)
  {
    assert [n][..0] == [];
  }

  predicate Silent(ns: seq<Node>, tag: Tag) {
    forall i :: 0 <= i < |ns| ==> LeafValues(ns[i], tag) == []
  }

  lemma {:induction false} SilentAll(ns: seq<Node>, tag: Tag)
    requires Silent(ns, tag)
    ensures LeafValuesAll(ns, tag) == []
    decreases |ns|
  {
    if ns != [] {
      SilentAll(ns[..|ns| - 1], tag);
    }
  }

  lemma {:induction false} ElsSilent(t: Tag, vs: seq<string>, tag: Tag)
    requires t != tag
    ensures LeafValuesAll(Els(t, vs), tag) == []
    decreases |vs|
  {
    if vs != [] {
      ElsSilent(t, vs[..|vs| - 1], tag);
    }
  }

  lemma {:induction false} ElsRead(t: Tag, vs: seq<string>)
    requires forall i :: 0 <= i < |vs| ==> Tidy(vs[i])
    ensures LeafValuesAll(Els(t, vs), t) == vs
    decreases |vs|
  {
    hide Tidy, Trim, PiecesOf, Joined;
    if vs != [] {
      ElsRead(t, vs[..|vs| - 1]);
      TidyRead(vs[|vs| - 1]);
    }
  }

  predicate Place(tag: Tag) { tag == TerritoryCode || tag == ExcludedTerritoryCode }

  /** The values one deal spells. */
  function Spelled(t: Territories, tag: Tag): seq<string> {
    match t
    case Worldwide => if tag == TerritoryCode then ["Worldwide"] else []
    case WorldExcept(x) => if tag == ExcludedTerritoryCode then x else []
    case Only(x) => if tag == TerritoryCode then x else []
  }

  predicate TidyCodes(t: Territories) {
    !t.Worldwide? ==> forall i :: 0 <= i < |t.codes| ==> Tidy(t.codes[i])
  }

  lemma {:induction false} PlacesRead(t: Territories, tag: Tag)
    requires Place(tag) && TidyCodes(t)
    ensures LeafValuesAll(TerritoryNodes(t), tag) == Spelled(t, tag)
  {
    match t
    case Worldwide =>
      TidyRead("Worldwide");
      ValuesOne(El(TerritoryCode, "Worldwide"), tag);
    case WorldExcept(x) =>
      if tag == ExcludedTerritoryCode { ElsRead(tag, x); } else { ElsSilent(ExcludedTerritoryCode, x, tag); }
    case Only(x) =>
      if tag == TerritoryCode { ElsRead(tag, x); } else { ElsSilent(TerritoryCode, x, tag); }
  }

  lemma {:induction false} OnePartReads(before: seq<Node>, places: seq<Node>, after: seq<Node>, tag: Tag)
    requires LeafValuesAll(before, tag) == LeafValuesAll(after, tag) == []
    ensures LeafValuesAll(before + places + after, tag) == LeafValuesAll(places, tag)
  {
    hide LeafValuesAll;
    ValuesAppend(before + places, after, tag);
    ValuesAppend(before, places, tag);
    var v := LeafValuesAll(places, tag);
    assert [] + v == v && v + [] == v;
  }

  lemma {:induction false} BeforePlaces(c: Config, preorder: bool, tag: Tag)
    requires Place(tag)
    ensures LeafValuesAll(If(preorder, [El(IsPreOrderDeal, "true")])
                          + Els(CommercialModelType, c.deal.commercialModels)
                          + [Branch(Usage, Els(UseType, c.deal.useTypes))], tag) == []
  {
    var a := If(preorder, [El(IsPreOrderDeal, "true")]);
    var b := Els(CommercialModelType, c.deal.commercialModels);
    var d := Branch(Usage, Els(UseType, c.deal.useTypes));
    SilentAll(a, tag);
    ElsSilent(CommercialModelType, c.deal.commercialModels, tag);
    ElsSilent(UseType, c.deal.useTypes, tag);
    ValuesOne(d, tag);
    hide LeafValuesAll, Els, If;
    ValuesAppend(a + b, [d], tag);
    ValuesAppend(a, b, tag);
  }

  lemma {:induction false} PriceSilent(c: Config, tag: Tag)
    requires Place(tag)
    ensures LeafValuesAll(PriceNodes(c), tag) == []
  {
    if c.deal.priceRange.Some? {
      SilentAll([El(PriceRangeType, c.deal.priceRange.value)], tag);
      SilentAll(PriceNodes(c), tag);
    }
  }

  lemma {:induction false} SilentLeaves(ns: seq<Node>, tag: Tag)
    requires forall i :: 0 <= i < |ns| ==> ns[i].Leaf? && ns[i].tag != tag
    ensures LeafValuesAll(ns, tag) == []
  {
    SilentAll(ns, tag);
  }

  lemma {:induction false} PeriodSilent(c: Config, releaseTime: Option<string>, preorder: bool,
                                        preStart: Option<string>, end: Option<string>, tag: Tag)
    requires Place(tag)
    ensures LeafValuesAll([PeriodNode(c, releaseTime, preorder, preStart, end)], tag) == []
  {
    var period := PeriodNode(c, releaseTime, preorder, preStart, end);
    SilentLeaves(period.kids, tag);
    ValuesOne(period, tag);
  }

  lemma {:induction false} PreviewSilent(c: Config, preorder: bool, preStart: Option<string>, tag: Tag)
    requires Place(tag)
    ensures LeafValuesAll(PreviewDates(c, preorder, preStart), tag) == []
  {
    hide LeafValuesAll, LeafValues;
    SilentLeaves(PreviewDates(c, preorder, preStart), tag);
  }

  lemma {:induction false} ThreeSilent(a: seq<Node>, b: seq<Node>, c: seq<Node>, tag: Tag)
    requires LeafValuesAll(a, tag) == LeafValuesAll(b, tag) == LeafValuesAll(c, tag) == []
    ensures LeafValuesAll(a + b + c, tag) == []
  {
    hide LeafValuesAll;
    ValuesAppend(a + b, c, tag);
    ValuesAppend(a, b, tag);
  }

  lemma {:induction false} Regroup(a: seq<Node>, b: seq<Node>, c: seq<Node>, d: seq<Node>,
                                   e: seq<Node>, f: seq<Node>, g: seq<Node>)
    ensures a + b + c + d + e + f + g == (a + b + c) + d + (e + f + g)
  {
  }

  lemma {:induction false} TermsRead(p: Prepared, c: Config, releaseTime: Option<string>, preorder: bool,
                                     preStart: Option<string>, end: Option<string>, tag: Tag)
    requires Place(tag) && TidyCodes(p.territories)
    ensures LeafValuesAll(TermsNode(p, c, releaseTime, preorder, preStart, end).kids, tag)
         == Spelled(p.territories, tag)
  {
    var order := If(preorder, [El(IsPreOrderDeal, "true")]);
    var models := Els(CommercialModelType, c.deal.commercialModels);
    var usage := [Branch(Usage, Els(UseType, c.deal.useTypes))];
    var places := TerritoryNodes(p.territories);
    var price := PriceNodes(c);
    var period := [PeriodNode(c, releaseTime, preorder, preStart, end)];
    var dates := PreviewDates(c, preorder, preStart);
    hide LeafValuesAll, LeafValues, TerritoryNodes, PriceNodes, PeriodNode, PreviewDates, Els, If, Place,
         TidyCodes, Spelled;
    BeforePlaces(c, preorder, tag);
    PlacesRead(p.territories, tag);
    PriceSilent(c, tag);
    PeriodSilent(c, releaseTime, preorder, preStart, end, tag);
    PreviewSilent(c, preorder, preStart, tag);
    ThreeSilent(price, period, dates, tag);
    OnePartReads(order + models + usage, places, price + period + dates, tag);
    Regroup(order, models, usage, places, price, period, dates);
  }

  lemma {:induction false} DealReads(p: Prepared, c: Config, releaseTime: Option<string>, preorder: bool,
                                     preStart: Option<string>, end: Option<string>, tag: Tag)
    requires Place(tag) && TidyCodes(p.territories)
    ensures LeafValues(DealNode(p, c, releaseTime, preorder, preStart, end), tag) == Spelled(p.territories, tag)
  {
    var terms := TermsNode(p, c, releaseTime, preorder, preStart, end);
    TermsRead(p, c, releaseTime, preorder, preStart, end, tag);
    assert terms.Branch?;
    hide TermsNode, Place, TidyCodes, Spelled;
    ValuesOne(terms, tag);
  }

  /** The codes, once per deal. */
  lemma {:induction false} ListReads(p: Prepared, c: Config, tag: Tag)
    requires Place(tag) && TidyCodes(p.territories)
    ensures LeafValues(DealListNode(p, c), tag)
         == Spelled(p.territories, tag) + (if PreOrderDeal(p, c) then Spelled(p.territories, tag) else [])
  {
    var t := Spelled(p.territories, tag);
    var more := If(PreOrderDeal(p, c), [PreDeal(p, c)]);
    DealReads(p, c, p.releaseTime, false, PreStart(p, c), DealEnd(p, c), tag);
    DealReads(p, c, None, true, PreStart(p, c), DealEnd(p, c), tag);
    hide PreStart, DealEnd, DealNode, TidyCodes, Spelled, PreOrderDeal;
    assert LeafValues(MainDeal(p, c), tag) == t && LeafValues(PreDeal(p, c), tag) == t;
    hide MainDeal, PreDeal;
    ValuesOne(ReleaseDealNode(p, c), tag);
    ReferenceThenDeals(MainDeal(p, c), more, t, tag);
    ValuesOne(PreDeal(p, c), tag);
    assert LeafValuesAll([], tag) == [];
  }

  lemma {:induction false} ReferenceThenDeals(deal: Node, more: seq<Node>, t: seq<string>, tag: Tag)
    requires Place(tag) && LeafValues(deal, tag) == t
    ensures LeafValuesAll([El(DealReleaseReference, "R001"), deal] + more, tag) == t + LeafValuesAll(more, tag)
  {
    var head := El(DealReleaseReference, "R001");
    ValuesOne(head, tag);
    assert LeafValues(head, tag) == [];
    hide LeafValues, LeafValuesAll;
    assert [head, deal] == [head] + [deal];
    ValuesAppend([head, deal], more, tag);
    ValuesAppend([head], [deal], tag);
    ValuesOne(deal, tag);
    assert [] + t == t;
  }

  predicate AllLeafOnly(ns: seq<Node>, tag: Tag) {
    forall i :: 0 <= i < |ns| ==> LeafOnly(ns[i], tag)
  }

  lemma {:induction false} LeavesOnly(ns: seq<Node>, tag: Tag)
    requires forall i :: 0 <= i < |ns| ==> ns[i].Leaf?
    ensures AllLeafOnly(ns, tag)
  {
  }

  lemma {:induction false} ElsLeaves(t: Tag, vs: seq<string>)
    ensures forall i :: 0 <= i < |Els(t, vs)| ==> Els(t, vs)[i].Leaf?
    decreases |vs|
  {
    if vs != [] {
      ElsLeaves(t, vs[..|vs| - 1]);
    }
  }

  lemma {:induction false} LeafOnlyPlus(a: seq<Node>, b: seq<Node>, tag: Tag)
    requires AllLeafOnly(a, tag) && AllLeafOnly(b, tag)
    ensures AllLeafOnly(a + b, tag)
  {
  }

  lemma {:induction false} TermsLeafOnly(p: Prepared, c: Config, releaseTime: Option<string>, preorder: bool,
                                         preStart: Option<string>, end: Option<string>, tag: Tag)
    requires Place(tag)
    ensures LeafOnly(TermsNode(p, c, releaseTime, preorder, preStart, end), tag)
  {
    var order := If(preorder, [El(IsPreOrderDeal, "true")]);
    var models := Els(CommercialModelType, c.deal.commercialModels);
    var usage := [Branch(Usage, Els(UseType, c.deal.useTypes))];
    var places := TerritoryNodes(p.territories);
    var price := PriceNodes(c);
    var period := [PeriodNode(c, releaseTime, preorder, preStart, end)];
    var dates := PreviewDates(c, preorder, preStart);
    ElsLeaves(CommercialModelType, c.deal.commercialModels);
    ElsLeaves(UseType, c.deal.useTypes);
    PlacesLeaves(p.territories);
    LeavesOnly(order, tag);
    LeavesOnly(models, tag);
    LeavesOnly(places, tag);
    LeavesOnly(dates, tag);
    LeavesOnly(usage[0].kids, tag);
    assert LeafOnly(usage[0], tag);
    LeavesOnly(period[0].kids, tag);
    assert LeafOnly(period[0], tag);
    hide Els, If, TerritoryNodes, PreviewDates, PriceNodes, PeriodNode;
    assert TermsNode(p, c, releaseTime, preorder, preStart, end)
        == Branch(DealTerms, order + models + usage + places + price + period + dates);
    LeafOnlyPlus(order, models, tag);
    LeafOnlyPlus(order + models, usage, tag);
    LeafOnlyPlus(order + models + usage, places, tag);
    LeafOnlyPlus(order + models + usage + places, price, tag);
    LeafOnlyPlus(order + models + usage + places + price, period, tag);
    LeafOnlyPlus(order + models + usage + places + price + period, dates, tag);
  }

  lemma {:induction false} PlacesLeaves(t: Territories)
    ensures forall i :: 0 <= i < |TerritoryNodes(t)| ==> TerritoryNodes(t)[i].Leaf?
  {
    if !t.Worldwide? {
      ElsLeaves(if t.Only? then TerritoryCode else ExcludedTerritoryCode, t.codes);
    }
  }

  lemma {:induction false} DealsLeafOnly(p: Prepared, c: Config, tag: Tag)
    requires Place(tag)
    ensures LeafOnly(DealListNode(p, c), tag)
  {
    hide PreStart, DealEnd, TermsNode, PreOrderDeal;
    TermsLeafOnly(p, c, p.releaseTime, false, PreStart(p, c), DealEnd(p, c), tag);
    TermsLeafOnly(p, c, None, true, PreStart(p, c), DealEnd(p, c), tag);
    assert LeafOnly(MainDeal(p, c), tag) && LeafOnly(PreDeal(p, c), tag);
    hide MainDeal, PreDeal;
    assert LeafOnly(ReleaseDealNode(p, c), tag);
  }

  // ---------------------------------------------------------------- when the check passes

  predicate IsoRegion(t: Territories) {
    WellFormed(t) && (!t.Worldwide? ==> AllIso(t.codes))
  }

  lemma {:induction false} IsoTidy(c: string)
    requires IsIso(c)
    ensures Tidy(c)
  {
    hide SecondLetters;
  }

  /** The region spelled by the codes of one deal, or of two. */
  function Repeated(t: Territories, two: bool): Territories {
    match t
    case Worldwide => Worldwide
    case WorldExcept(x) => WorldExcept(if two then x + x else x)
    case Only(x) => Only(if two then x + x else x)
  }

  lemma {:induction false} SentOfCodes(t: Territories, two: bool)
    requires IsoRegion(t)
    ensures (var a, b := Spelled(t, TerritoryCode), Spelled(t, ExcludedTerritoryCode);
             Sent(a + (if two then a else []), b + (if two then b else [])) == Repeated(t, two))
  {
    match t
    case Worldwide =>
      assert UpperAll("Worldwide") == "WORLDWIDE" by { UpperWorldwide(); }
      assert NamesWorld(["Worldwide"]) by { assert ["Worldwide"][0] == "Worldwide"; }
      assert (["Worldwide"] + ["Worldwide"])[0] == "Worldwide";
      assert ["Worldwide"] + [] == ["Worldwide"];
    case WorldExcept(x) =>
      assert x + [] == x;
    case Only(x) =>
      assert AllIso(x + x);
      assert x + [] == x;
  }

  lemma {:induction false} UpperWorldwide()
    ensures UpperAll("Worldwide") == "WORLDWIDE"
  {
    var u := UpperAll("Worldwide");
    assert |u| == 9;
    assert u[0] == 'W' && u[1] == 'O' && u[2] == 'R' && u[3] == 'L' && u[4] == 'D' && u[5] == 'W'
        && u[6] == 'I' && u[7] == 'D' && u[8] == 'E';
  }

  lemma {:induction false} SameMembersSameNormal(a: seq<string>, b: seq<string>)
    requires forall c :: c in a <==> c in b
    ensures Normal(a) == Normal(b)
  {
    NormalSorted(a);
    NormalSorted(b);
    NormalMembers(a);
    NormalMembers(b);
    SortedUnique(Normal(a), Normal(b));
  }

  lemma {:induction false} TwiceNormal(x: seq<string>)
    requires Sorted(x)
    ensures Normal(x + x) == x
  {
    SameMembersSameNormal(x + x, x);
    NormalOfSorted(x);
  }

  /** The empty text is no place's code: no list of codes reaches everywhere. */
  lemma {:induction false} ListsAreNotEverywhere(x: seq<string>)
    requires AllIso(x)
    ensures "" !in x
  {
    hide SecondLetters;
  }

  /** One deal: the check passes exactly when the region lies inside the contract's. */
  lemma {:induction false} OneDeal(t: Territories, contract: Territories)
    requires IsoRegion(t) && IsoRegion(contract)
    ensures Unchanged(t, contract) <==> Within(t, contract)
  {
    hide IsIso, SecondLetters;
    match t {
      case Worldwide =>
        if contract.Only? { ListsAreNotEverywhere(contract.codes); assert !Includes(contract, ""); }
        if contract.WorldExcept? { assert !Includes(contract, contract.codes[0]); }
      case WorldExcept(x) =>
        NormalOfSorted(x);
        match contract {
          case Worldwide =>
          case WorldExcept(y) => ExceptWithinExcept(x, x, y);
          case Only(y) =>
            ListsAreNotEverywhere(x);
            ListsAreNotEverywhere(y);
            assert Includes(t, "") && !Includes(contract, "");
        }
      case Only(x) =>
        NormalOfSorted(x);
        match contract {
          case Worldwide =>
          case WorldExcept(y) => OnlyInExcept(x, y);
          case Only(y) => OnlyInOnly(x, y);
        }
    }
  }

  /** Exclusions, possibly repeated, against the contract's exclusions. */
  lemma {:induction false} ExceptWithinExcept(sent: seq<string>, x: seq<string>, y: seq<string>)
    requires Sorted(x) && |x| < ISO_COUNT && forall c :: c in sent <==> c in x
    ensures Unchanged(WorldExcept(sent), WorldExcept(y)) <==> Within(WorldExcept(x), WorldExcept(y))
  {
    NormalOfSorted(x);
    SameMembersSameNormal(sent, x);
    NormalMembers(sent + y);
    if Within(WorldExcept(x), WorldExcept(y)) {
      forall c ensures c in sent + y <==> c in x {
        assert c in x || Includes(WorldExcept(x), c);
      }
      SameMembersSameNormal(sent + y, x);
    }
    if Unchanged(WorldExcept(sent), WorldExcept(y)) {
      assert Normal(sent + y) == x;
      forall c: string | Includes(WorldExcept(x), c) ensures Includes(WorldExcept(y), c) {
        assert c in y ==> c in sent + y;
      }
    }
  }

  lemma {:induction false} OnlyInOnly(x: seq<string>, y: seq<string>)
    requires Sorted(x) && x != []
    ensures Unchanged(Only(x), Only(y)) <==> Within(Only(x), Only(y))
  {
    NormalOfSorted(x);
    FilterLength(x, y, true);
    hide Filter, Normal, Sorted;
    var f := Filter(x, y, true);
    assert Narrow(Only(x), Only(y)) == if f == [] then None else Some(Only(f));
    assert Unchanged(Only(x), Only(y)) <==> f == x;
    hide Narrow, Unchanged;
    if f == x {
      forall c: string | Includes(Only(x), c) ensures Includes(Only(y), c) {}
    }
    if Within(Only(x), Only(y)) {
      forall c: string | c in x ensures c in y { assert Includes(Only(x), c); }
    }
  }

  lemma {:induction false} OnlyInExcept(x: seq<string>, y: seq<string>)
    requires Sorted(x) && x != []
    ensures Unchanged(Only(x), WorldExcept(y)) <==> Within(Only(x), WorldExcept(y))
  {
    NormalOfSorted(x);
    FilterLength(x, y, false);
    hide Filter, Normal, Sorted;
    var f := Filter(x, y, false);
    assert Narrow(Only(x), WorldExcept(y)) == if f == [] then None else Some(Only(f));
    assert Unchanged(Only(x), WorldExcept(y)) <==> f == x;
    hide Narrow, Unchanged;
    if f == x {
      forall c: string | Includes(Only(x), c) ensures Includes(WorldExcept(y), c) {}
    }
    if Within(Only(x), WorldExcept(y)) {
      forall c: string | c in x ensures c !in y { assert Includes(Only(x), c); }
    }
  }

  /** Two deals: the codes come twice, and only worldwide deals and exclusions against exclusions
      can still pass. */
  lemma {:induction false} TwoDeals(t: Territories, contract: Territories)
    requires IsoRegion(t) && IsoRegion(contract)
    ensures Unchanged(Repeated(t, true), contract)
       <==> Within(t, contract) && (t.Worldwide? || (t.WorldExcept? && contract.WorldExcept?))
  {
    hide IsIso, SecondLetters;
    match t {
      case Worldwide => OneDeal(t, contract);
      case WorldExcept(x) =>
        TwiceNormal(x);
        assert |x + x| > |x|;
        if contract.WorldExcept? {
          ExceptWithinExcept(x + x, x, contract.codes);
        }
      case Only(x) =>
        TwiceNormal(x);
        assert |x + x| > |x|;
        match contract {
          case Worldwide =>
          case WorldExcept(y) => FilteredTwice(x, y, false);
          case Only(y) => FilteredTwice(x, y, true);
        }
    }
  }

  lemma {:induction false} FilteredTwice(x: seq<string>, y: seq<string>, keep: bool)
    requires Sorted(x)
    ensures Filter(x + x, y, keep) == [] || Filter(x + x, y, keep) != x
  {
    FilterAppend(x, x, y, keep);
    var f := Filter(x, y, keep);
    if f != [] && |x| == 2 * |f| {
      assert (f + f)[0] == (f + f)[|f|];
      assert Numerals.TextLess(x[0], x[|f|]);
      Numerals.TextLessIrreflexive(x[0]);
    }
  }

  /** The outgoing check on a message the writer produced, exactly: the region lies inside the
      contract's and, when there is a pre-order deal as well, the message is worldwide or both the
      message and the contract are lists of exclusions. */
  lemma {:induction false} DealListExactlyWhen(p: Prepared, c: Config, contract: Territories)
    requires IsoRegion(p.territories) && IsoRegion(contract)
    ensures (var es := Readable(Flatten(DealListNode(p, c)) + [End(NewReleaseMessage)]);
             var t := p.territories;
             Unchanged(Sent(ReadAll(NOTHING_READ, es, TerritoryCode).out,
                            ReadAll(NOTHING_READ, es, ExcludedTerritoryCode).out), contract)
             <==> Within(t, contract)
                  && (PreOrderDeal(p, c) ==> t.Worldwide? || (t.WorldExcept? && contract.WorldExcept?)))
  {
    hide IsoRegion, DealListNode, Sent, Readable, Flatten, ReadAll, PreOrderDeal, Unchanged, Within;
    SentIsRepeated(p, c);
    OneDeal(p.territories, contract);
    TwoDeals(p.territories, contract);
  }

  /** The region read back from a written DealList repeats the codes once for each deal. */
  lemma {:induction false} SentIsRepeated(p: Prepared, c: Config)
    requires IsoRegion(p.territories)
    ensures (var es := Readable(Flatten(DealListNode(p, c)) + [End(NewReleaseMessage)]);
             Sent(ReadAll(NOTHING_READ, es, TerritoryCode).out,
                  ReadAll(NOTHING_READ, es, ExcludedTerritoryCode).out)
             == Repeated(p.territories, PreOrderDeal(p, c)))
  {
    var t := p.territories;
    assert TidyCodes(t) by {
      if !t.Worldwide? {
        forall i | 0 <= i < |t.codes| ensures Tidy(t.codes[i]) { IsoTidy(t.codes[i]); }
      }
    }
    hide IsIso, SecondLetters, TidyCodes, LeafOnly, DealListNode, Spelled, Sent, Readable, Flatten, ReadAll,
         PreOrderDeal, LeafValues, Repeated;
    var d := DealListNode(p, c);
    DealsLeafOnly(p, c, TerritoryCode);
    DealsLeafOnly(p, c, ExcludedTerritoryCode);
    ValuesOfTree(d, NewReleaseMessage, TerritoryCode);
    ValuesOfTree(d, NewReleaseMessage, ExcludedTerritoryCode);
    ListReads(p, c, TerritoryCode);
    ListReads(p, c, ExcludedTerritoryCode);
    SentOfCodes(t, PreOrderDeal(p, c));
  }

  /** Every message generated for a non-empty region passes the contract's check exactly when its
      region lies inside the contract's and, with a pre-order deal, the region is worldwide or both
      are lists of exclusions. */
  lemma {:induction false} WithinExactlyWhen(p: Prepared, c: Config, contract: Territories)
    requires Generated(p, c).Ok? && IsoRegion(p.territories) && IsoRegion(contract)
    ensures (var t := p.territories;
             PassesContract(Generated(p, c).value, contract)
             <==> Within(t, contract)
                  && (PreOrderDeal(p, c) ==> t.Worldwide? || (t.WorldExcept? && contract.WorldExcept?)))
  {
    hide Generated, IsoRegion, DealListNode, Sent, Readable, ReadAll, Flatten, PreOrderDeal, Unchanged, Within,
         FromDealList;
    DealsEndTheMessage(p, c);
    DealListExactlyWhen(p, c, contract);
  }

  /** The part the check reads is the DealList and the end of the message. */
  lemma {:induction false} DealsEndTheMessage(p: Prepared, c: Config)
    requires Generated(p, c).Ok?
    ensures FromDealList(Generated(p, c).value)
         == Some(Flatten(DealListNode(p, c)) + [End(NewReleaseMessage)])
  {
    hide Generated, MessageNode, DealListNode, OrderedTracks, FromDealList, ErnDepth.Lacks;
    ErnAccepted.GeneratedIsMessage(p, c);
    MessageLast(p, c);
    ErnDepth.MessageLow(p, c);
    LastChildFirst(MessageNode(p, c));
  }

  lemma {:induction false} MessageLast(p: Prepared, c: Config)
    requires DurationsKnown(OrderedTracks(p.tracks))
    ensures (var n := MessageNode(p, c);
             && n.Branch? && n.tag == NewReleaseMessage && n.kids != []
             && n.kids[|n.kids| - 1] == DealListNode(p, c))
    ensures DealListNode(p, c).Branch? && DealListNode(p, c).tag == DealList
  {
    hide HeaderNode, UpdateNode, ResourceListNode, ReleaseNode, OrderedTracks, ReleaseDealNode;
  }

  /** A last child called DealList, when nothing before it is, begins the part that is found. */
  lemma {:induction false} LastChildFirst(n: Node)
    requires n.Branch? && n.tag != DealList && n.kids != []
    requires forall i :: 0 <= i < |n.kids| - 1 ==> ErnDepth.Lacks(n.kids[i], DealList)
    requires n.kids[|n.kids| - 1].Branch? && n.kids[|n.kids| - 1].tag == DealList
    ensures FromDealList([Misc] + Flatten(n)) == Some(Flatten(n.kids[|n.kids| - 1]) + [End(n.tag)])
  {
    hide ErnDepth.Lacks, FromDealList;
    var before := n.kids[..|n.kids| - 1];
    var last := Flatten(n.kids[|n.kids| - 1]);
    LacksInAll(before, DealList);
    assert last[0] == Start(DealList);
    var front := [Misc] + [Start(n.tag)] + FlattenAll(before);
    assert FlattenAll(n.kids) == FlattenAll(before) + last;
    assert [Misc] + Flatten(n) == front + (last + [End(n.tag)]);
    FoundAfter(front, last + [End(n.tag)]);
  }

  lemma {:induction false} FoundAfter(a: seq<Event>, b: seq<Event>)
    requires Start(DealList) !in a && b != [] && b[0] == Start(DealList)
    ensures FromDealList(a + b) == Some(b)
    decreases |a|
  {
    if a == [] {
      assert a + b == b;
    } else {
      assert (a + b)[1..] == a[1..] + b;
      FoundAfter(a[1..], b);
    }
  }

  lemma {:induction false} LacksIn(n: Node, tag: Tag)
    requires ErnDepth.Lacks(n, tag)
    ensures Start(tag) !in Flatten(n)
    decreases n, 1
  {
    match n
    case Leaf(t, c) =>
    case Void(_) =>
    case Branch(_, ks) => LacksInAll(ks, tag);
  }

  lemma {:induction false} LacksInAll(ns: seq<Node>, tag: Tag)
    requires forall i :: 0 <= i < |ns| ==> ErnDepth.Lacks(ns[i], tag)
    ensures Start(tag) !in FlattenAll(ns)
    decreases ns, 0
  {
    hide ErnDepth.Lacks, Flatten;
    if ns != [] {
      LacksInAll(ns[..|ns| - 1], tag);
      LacksIn(ns[|ns| - 1], tag);
    }
  }

  /** A concrete refusal: a message for Korea with a pre-order deal under a worldwide contract. */
  lemma {:induction false} KoreaRefusedUnderWorldwide()
    ensures (var p := SampleRelease(Only(["KR"]), Date(2026, 6, 1), Some(Date(2026, 5, 1)), None);
             var c := SampleEnvelope(Initial, Date(2026, 6, 1), None);
             && Generated(p, c).Ok? && PreOrderDeal(p, c) && Within(p.territories, Worldwide)
             && !PassesContract(Generated(p, c).value, Worldwide))
  {
    hide Generated, PassesContract, Iso, IsIso;
    var ahead, start := Date(2026, 5, 1), Date(2026, 6, 1);
    var p, c := SampleRelease(Only(["KR"]), start, Some(ahead), None), SampleEnvelope(Initial, start, None);
    SampleIsGenerated(Only(["KR"]), start, Some(ahead), None, Initial, start, None);
    TextOrderIsDateOrder(ahead, start);
    KoreaIsARegion();
    WithinExactlyWhen(p, c, Worldwide);
  }

  lemma {:induction false} KoreaIsARegion()
    ensures IsoRegion(Only(["KR"]))
  {
    var x := "KR";
    assert x[0] == 'K' && x[1] == 'R';
    assert Sorted([x]);
  }
}
