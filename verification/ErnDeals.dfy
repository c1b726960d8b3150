/**
  The dates of the deals a message carries, and the order of its tracks.

  Text comparison decides in the writer; the lemmas say when that is the calendar's decision.
*/
module ErnDeals {
  import opened Common
  import opened XmlTree
  import opened Numerals
  import opened IsoDates
  import opened ErnMessage
  import opened ErnSample
  import opened Territory

  // ---------------------------------------------------------------- values as written

  /** Values written for elements called `tag`, in document order. */
  function Values(n: Node, tag: Tag): seq<string>
    decreases n, 1
  {
    match n
    case Leaf(t, c) => if t == tag && c.Written? then [c.value] else []
    case Branch(_, ks) => ValuesAll(ks, tag)
    case Void(_) => []
  }

  function ValuesAll(ns: seq<Node>, tag: Tag): seq<string>
    decreases ns, 0
  {
    if ns == [] then [] else ValuesAll(ns[..|ns| - 1], tag) + Values(ns[|ns| - 1], tag)
  }

  lemma {:induction false} ValuesAppend(a: seq<Node>, b: seq<Node>, tag: Tag)
    ensures ValuesAll(a + b, tag) == ValuesAll(a, tag) + ValuesAll(b, tag)
    decreases |b|
  {
    hide Values;
    if b == [] {
      assert a + b == a;
    } else {
      var i := |b| - 1;
      assert (a + b)[..|a + b| - 1] == a + b[..i];
      ValuesAppend(a, b[..i], tag);
      assert (a + b)[|a + b| - 1] == b[i];
    }
  }

  predicate Absent(ns: seq<Node>, tag: Tag) {
    forall i :: 0 <= i < |ns| ==> Values(ns[i], tag) == []
  }

  lemma {:induction false} AbsentAll(ns: seq<Node>, tag: Tag)
    requires Absent(ns, tag)
    ensures ValuesAll(ns, tag) == []
    decreases |ns|
  {
    if ns != [] {
      AbsentAll(ns[..|ns| - 1], tag);
    }
  }

  lemma {:induction false} ElsAbsent(t: Tag, vs: seq<string>, tag: Tag)
    requires t != tag
    ensures ValuesAll(Els(t, vs), tag) == []
    decreases |vs|
  {
    if vs != [] {
      ElsAbsent(t, vs[..|vs| - 1], tag);
    }
  }

  /** The elements whose values these results are about. */
  predicate Dated(tag: Tag) {
    tag == IsPreOrderDeal || tag == StartDate || tag == EndDate || tag == StartDateTime || tag == EndDateTime
  }

  lemma {:induction false} OrderMark(preorder: bool, tag: Tag)
    ensures ValuesAll(If(preorder, [El(IsPreOrderDeal, "true")]), tag)
         == if preorder && tag == IsPreOrderDeal then ["true"] else []
  {
    if preorder {
      ValuesOne(El(IsPreOrderDeal, "true"), tag);
    }
  }

  /** In the terms of a deal only the pre-order mark and the validity period carry them. */
  lemma {:induction false} TermsSay(p: Prepared, c: Config, releaseTime: Option<string>, preorder: bool,
                                    preStart: Option<string>, end: Option<string>, tag: Tag)
    requires Dated(tag)
    ensures ValuesAll([DealNode(p, c, releaseTime, preorder, preStart, end)], tag)
         == (if preorder && tag == IsPreOrderDeal then ["true"] else [])
            + Values(PeriodNode(c, releaseTime, preorder, preStart, end), tag)
  {
    var order := If(preorder, [El(IsPreOrderDeal, "true")]);
    var models := Els(CommercialModelType, c.deal.commercialModels);
    var usage := Branch(Usage, Els(UseType, c.deal.useTypes));
    var places := TerritoryNodes(p.territories);
    var price := PriceNodes(c);
    var period := PeriodNode(c, releaseTime, preorder, preStart, end);
    var dates := PreviewDates(c, preorder, preStart);
    OrderMark(preorder, tag);
    ElsAbsent(CommercialModelType, c.deal.commercialModels, tag);
    ElsAbsent(UseType, c.deal.useTypes, tag);
    ValuesOne(usage, tag);
    ValuesOne(period, tag);
    PlacesAbsent(p.territories, tag);
    PriceAbsent(c, tag);
    PreviewAbsent(c, preorder, preStart, tag);
    var terms := TermsNode(p, c, releaseTime, preorder, preStart, end);
    ValuesOne(terms, tag);
    ValuesOne(DealNode(p, c, releaseTime, preorder, preStart, end), tag);
    hide Els, If, TerritoryNodes, PriceNodes, PeriodNode, PreviewDates, ValuesAll, Dated;
    OnePartSays(order, models, [usage], places, price, period, dates, tag);
  }

  lemma {:induction false} OnePartSays(order: seq<Node>, models: seq<Node>, usage: seq<Node>, places: seq<Node>,
                                       price: seq<Node>, period: Node, dates: seq<Node>, tag: Tag)
    requires ValuesAll(models, tag) == ValuesAll(usage, tag) == ValuesAll(places, tag) == []
    requires ValuesAll(price, tag) == ValuesAll(dates, tag) == []
    ensures ValuesAll(order + models + usage + places + price + [period] + dates, tag)
         == ValuesAll(order, tag) + Values(period, tag)
  {
    hide ValuesAll;
    SaysNothing(order, models, tag);
    SaysNothing(order + models, usage, tag);
    SaysNothing(order + models + usage, places, tag);
    SaysNothing(order + models + usage + places, price, tag);
    ValuesAppend(order + models + usage + places + price, [period], tag);
    ValuesOne(period, tag);
    SaysNothing(order + models + usage + places + price + [period], dates, tag);
  }

  lemma {:induction false} SaysNothing(a: seq<Node>, b: seq<Node>, tag: Tag)
    requires ValuesAll(b, tag) == []
    ensures ValuesAll(a + b, tag) == ValuesAll(a, tag)
  {
    ValuesAppend(a, b, tag);
  }

  lemma {:induction false} ValuesOne(n: Node, tag: Tag)
    ensures ValuesAll([n], tag) == Values(n, tag)
  {
    assert [n][..0] == [];
  }

  lemma {:induction false} PlacesAbsent(t: Territories, tag: Tag)
    requires Dated(tag)
    ensures ValuesAll(TerritoryNodes(t), tag) == []
  {
    match t
    case Worldwide => AbsentAll(TerritoryNodes(t), tag);
    case WorldExcept(codes) => ElsAbsent(ExcludedTerritoryCode, codes, tag);
    case Only(codes) => ElsAbsent(TerritoryCode, codes, tag);
  }

  lemma {:induction false} PriceAbsent(c: Config, tag: Tag)
    requires Dated(tag)
    ensures ValuesAll(PriceNodes(c), tag) == []
  {
    if c.deal.priceRange.Some? {
      AbsentAll([El(PriceRangeType, c.deal.priceRange.value)], tag);
      AbsentAll(PriceNodes(c), tag);
    }
  }

  lemma {:induction false} PreviewAbsent(c: Config, preorder: bool, preStart: Option<string>, tag: Tag)
    requires Dated(tag)
    ensures ValuesAll(PreviewDates(c, preorder, preStart), tag) == []
  {
    AbsentAll(PreviewDates(c, preorder, preStart), tag);
  }

  /** The deals of the message: their start, their end and which of them is a pre-order. */
  lemma {:induction false} ListSays(p: Prepared, c: Config, tag: Tag)
    requires Dated(tag)
    ensures Values(DealListNode(p, c), tag)
         == ValuesAll([MainDeal(p, c)], tag)
            + (if PreOrderDeal(p, c) then ValuesAll([PreDeal(p, c)], tag) else [])
  {
    hide MainDeal, PreDeal, PreOrderDeal;
    var head := [El(DealReleaseReference, "R001")];
    ValuesOne(El(DealReleaseReference, "R001"), tag);
    ValuesOne(ReleaseDealNode(p, c), tag);
    var more := If(PreOrderDeal(p, c), [PreDeal(p, c)]);
    assert ValuesAll(head, tag) == [] && ValuesAll([], tag) == [];
    assert ReleaseDealNode(p, c).kids == head + [MainDeal(p, c)] + more by {
      hide Values;
    }
    ValuesAppend(head + [MainDeal(p, c)], more, tag);
    ValuesAppend(head, [MainDeal(p, c)], tag);
  }

  lemma {:induction false} PairSays(a: Node, b: seq<Node>, tag: Tag)
    ensures ValuesAll([a] + b, tag) == Values(a, tag) + ValuesAll(b, tag)
  {
    ValuesAppend([a], b, tag);
    ValuesOne(a, tag);
  }

  function Of(o: Option<string>): seq<string> { if o.Some? then [o.value] else [] }

  lemma {:induction false} PeriodPair(startTag: Tag, start: string, endTag: Tag, end: Option<string>, tag: Tag)
    ensures Values(Branch(ValidityPeriod, [El(startTag, start)] + IfSome(end, endTag)), tag)
         == (if startTag == tag then [start] else []) + (if endTag == tag then Of(end) else [])
  {
    PairSays(El(startTag, start), IfSome(end, endTag), tag);
    if end.Some? {
      ValuesOne(El(endTag, end.value), tag);
    }
  }

  // ---------------------------------------------------------------- the end of every deal

  /** Whether the main deal opens at one instant. */
  predicate Simultaneous(p: Prepared, c: Config) { p.releaseTime.Some? && !c.subType.Takedown? }

  lemma {:induction false} PeriodEnds(c: Config, releaseTime: Option<string>, preorder: bool,
                                      preStart: Option<string>, end: Option<string>)
    ensures (var n := PeriodNode(c, releaseTime, preorder, preStart, end);
             var instant := !preorder && releaseTime.Some? && !c.subType.Takedown?;
             && Values(n, EndDate) == (if instant then [] else Of(end))
             && Values(n, EndDateTime) == (if instant then Of(EndOfDay(end)) else [])
             && Values(n, IsPreOrderDeal) == [])
  {
    hide Values, El, EndOfDay, IfSome, Of;
    var n := PeriodNode(c, releaseTime, preorder, preStart, end);
    if preorder {
      var day := if preStart.Some? then preStart.value else c.dealStart;
      PeriodPair(StartDate, day, EndDate, end, EndDate);
      PeriodPair(StartDate, day, EndDate, end, EndDateTime);
      PeriodPair(StartDate, day, EndDate, end, IsPreOrderDeal);
    } else if releaseTime.Some? && !c.subType.Takedown? {
      var instant := c.dealStart + "T" + releaseTime.value + ":00+09:00";
      PeriodPair(StartDateTime, instant, EndDateTime, EndOfDay(end), EndDate);
      PeriodPair(StartDateTime, instant, EndDateTime, EndOfDay(end), EndDateTime);
      PeriodPair(StartDateTime, instant, EndDateTime, EndOfDay(end), IsPreOrderDeal);
    } else {
      PeriodPair(StartDate, c.dealStart, EndDate, end, EndDate);
      PeriodPair(StartDate, c.dealStart, EndDate, end, EndDateTime);
      PeriodPair(StartDate, c.dealStart, EndDate, end, IsPreOrderDeal);
    }
  }

  lemma {:induction false} DealsSay(p: Prepared, c: Config, tag: Tag)
    requires Dated(tag) && tag != IsPreOrderDeal
    ensures Values(DealListNode(p, c), tag)
         == Values(PeriodNode(c, p.releaseTime, false, PreStart(p, c), DealEnd(p, c)), tag)
            + (if PreOrderDeal(p, c)
               then Values(PeriodNode(c, None, true, PreStart(p, c), DealEnd(p, c)), tag) else [])
  {
    hide PeriodNode, PreStart, DealEnd, ValuesAll, Values, PreOrderDeal, DealListNode, DealNode;
    ListSays(p, c, tag);
    TermsSay(p, c, p.releaseTime, false, PreStart(p, c), DealEnd(p, c), tag);
    TermsSay(p, c, None, true, PreStart(p, c), DealEnd(p, c), tag);
  }

  /** Every deal ends on `DealEnd`, or at the last second of that day, and none ends otherwise. */
  lemma {:induction false} DealEndings(p: Prepared, c: Config)
    ensures (var d := DealListNode(p, c);
             var days := if PreOrderDeal(p, c) then Of(DealEnd(p, c)) else [];
             && Values(d, EndDate) == (if Simultaneous(p, c) then [] else Of(DealEnd(p, c))) + days
             && Values(d, EndDateTime) == (if Simultaneous(p, c) then Of(EndOfDay(DealEnd(p, c))) else []))
  {
    hide PeriodNode, PreStart, DealEnd, Values, PreOrderDeal, DealListNode, Of, EndOfDay;
    DealsSay(p, c, EndDate);
    DealsSay(p, c, EndDateTime);
    PeriodEnds(c, p.releaseTime, false, PreStart(p, c), DealEnd(p, c));
    PeriodEnds(c, None, true, PreStart(p, c), DealEnd(p, c));
  }

  // ---------------------------------------------------------------- the start of every deal

  lemma {:induction false} PeriodStarts(c: Config, releaseTime: Option<string>, preorder: bool,
                                        preStart: Option<string>, end: Option<string>)
    ensures (var n := PeriodNode(c, releaseTime, preorder, preStart, end);
             var day := if preorder && preStart.Some? then preStart.value else c.dealStart;
             if !preorder && releaseTime.Some? && !c.subType.Takedown?
             then Values(n, StartDate) == []
                  && Values(n, StartDateTime) == [c.dealStart + "T" + releaseTime.value + ":00+09:00"]
             else Values(n, StartDate) == [day] && Values(n, StartDateTime) == [])
  {
    hide Values, El, EndOfDay, IfSome, Of;
    if preorder {
      var day := if preStart.Some? then preStart.value else c.dealStart;
      PeriodPair(StartDate, day, EndDate, end, StartDate);
      PeriodPair(StartDate, day, EndDate, end, StartDateTime);
    } else if releaseTime.Some? && !c.subType.Takedown? {
      var instant := c.dealStart + "T" + releaseTime.value + ":00+09:00";
      PeriodPair(StartDateTime, instant, EndDateTime, EndOfDay(end), StartDate);
      PeriodPair(StartDateTime, instant, EndDateTime, EndOfDay(end), StartDateTime);
    } else {
      PeriodPair(StartDate, c.dealStart, EndDate, end, StartDate);
      PeriodPair(StartDate, c.dealStart, EndDate, end, StartDateTime);
    }
  }

  /** The main deal starts on the deal start, at its instant when the release is simultaneous; a
      pre-order deal starts on the pre-release day, which as text is before the deal start. */
  lemma {:induction false} DealBeginnings(p: Prepared, c: Config)
    ensures (var d := DealListNode(p, c);
             var days := if PreOrderDeal(p, c) then Of(PreStart(p, c)) else [];
             && Values(d, StartDate) == (if Simultaneous(p, c) then [] else [c.dealStart]) + days
             && Values(d, StartDateTime)
                == (if Simultaneous(p, c) then [c.dealStart + "T" + p.releaseTime.value + ":00+09:00"] else []))
    ensures PreOrderDeal(p, c) ==> PreStart(p, c).Some? && TextLess(PreStart(p, c).value, c.dealStart)
  {
    hide PeriodNode, DealEnd, Values, DealListNode, Iso;
    DealsSay(p, c, StartDate);
    DealsSay(p, c, StartDateTime);
    PeriodStarts(c, p.releaseTime, false, PreStart(p, c), DealEnd(p, c));
    PeriodStarts(c, None, true, PreStart(p, c), DealEnd(p, c));
  }

  // ---------------------------------------------------------------- the two limits

  function TakedownDate(c: Config): Option<string> { if c.subType.Takedown? then c.takedownDate else None }

  /** The end is one of the two limits and, as text, after neither. */
  lemma {:induction false} EndIsTheEarlierLimit(p: Prepared, c: Config)
    ensures DealEnd(p, c).Some? <==> TakedownDate(c).Some? || p.rightsEnd.Some?
    ensures DealEnd(p, c).Some? ==>
              || (TakedownDate(c).Some? && DealEnd(p, c) == TakedownDate(c))
              || (p.rightsEnd.Some? && DealEnd(p, c) == Some(Iso(p.rightsEnd.value)))
    ensures DealEnd(p, c).Some? && TakedownDate(c).Some? ==> !TextLess(TakedownDate(c).value, DealEnd(p, c).value)
    ensures DealEnd(p, c).Some? && p.rightsEnd.Some? ==> !TextLess(Iso(p.rightsEnd.value), DealEnd(p, c).value)
  {
    hide Iso;
    if TakedownDate(c).Some? {
      TextLessIrreflexive(TakedownDate(c).value);
      if p.rightsEnd.Some? {
        TextLessTotal(TakedownDate(c).value, Iso(p.rightsEnd.value));
      }
    }
    if p.rightsEnd.Some? {
      TextLessIrreflexive(Iso(p.rightsEnd.value));
    }
  }

  function EarlierOf(a: Date, b: Date): Date { if Before(b, a) then b else a }

  /** With two limits the deal ends on the earlier one exactly when text order and calendar order agree
      on their years: for a takedown in the years 0 to 9999, exactly when the licence ends by 9999. */
  lemma {:induction false} TakedownEndsExactlyWhen(p: Prepared, c: Config, takedown: Date)
    requires c.subType.Takedown? && c.takedownDate == Some(Iso(takedown)) && ValidDate(takedown)
    requires p.rightsEnd.Some? && ValidDate(p.rightsEnd.value)
    ensures DealEnd(p, c) == Some(Iso(EarlierOf(takedown, p.rightsEnd.value)))
       <==> YearsAgree(takedown.year, p.rightsEnd.value.year)
    ensures 0 <= takedown.year <= 9999 ==>
              (YearsAgree(takedown.year, p.rightsEnd.value.year) <==> p.rightsEnd.value.year <= 9999)
  {
    hide Iso, TextLess, ReadsFirst;
    TextOrderExactlyWhen(p.rightsEnd.value, takedown);
    IsoInjective(p.rightsEnd.value, takedown);
  }

  /** The deal ends on a calendar day after neither limit exactly when there is one limit, or two whose
      years agree. */
  lemma {:induction false} EndOnTheCalendar(p: Prepared, c: Config, takedown: Date)
    requires c.subType.Takedown? ==> c.takedownDate == Some(Iso(takedown)) && ValidDate(takedown)
    requires p.rightsEnd.Some? ==> ValidDate(p.rightsEnd.value)
    requires DealEnd(p, c).Some?
    ensures (exists e: Date :: ValidDate(e) && DealEnd(p, c) == Some(Iso(e))
                          && (c.subType.Takedown? ==> !Before(takedown, e))
                          && (p.rightsEnd.Some? ==> !Before(p.rightsEnd.value, e)))
       <==> (c.subType.Takedown? && p.rightsEnd.Some? ==> YearsAgree(takedown.year, p.rightsEnd.value.year))
  {
    hide Iso, TextLess, ReadsFirst, YearsAgree;
    var both := c.subType.Takedown? && p.rightsEnd.Some?;
    if both {
      TakedownEndsExactlyWhen(p, c, takedown);
    }
    var e := if both then EarlierOf(takedown, p.rightsEnd.value)
             else if c.subType.Takedown? then takedown else p.rightsEnd.value;
    if !both || YearsAgree(takedown.year, p.rightsEnd.value.year) {
      assert ValidDate(e) && DealEnd(p, c) == Some(Iso(e));
    }
    if f: Date :| ValidDate(f) && DealEnd(p, c) == Some(Iso(f))
                  && (c.subType.Takedown? ==> !Before(takedown, f))
                  && (p.rightsEnd.Some? ==> !Before(p.rightsEnd.value, f))
    {
      if both {
        IsoInjective(f, takedown);
        IsoInjective(f, p.rightsEnd.value);
        assert f == takedown || f == p.rightsEnd.value;
        assert f == e;
      }
    }
  }

  /** A takedown that does not end the deal: the licence runs into the year 10000. */
  lemma {:induction false} TakedownMissed()
    ensures (var p := SampleRelease(Worldwide, Date(2026, 6, 1), None, Some(Date(10000, 1, 1)));
             var c := SampleEnvelope(Takedown, Date(2026, 6, 1), Some(Date(2026, 7, 1)));
             && Generated(p, c).Ok?
             && DealEnd(p, c) == Some(Iso(Date(10000, 1, 1)))
             && Values(DealListNode(p, c), EndDate) == [Iso(Date(10000, 1, 1))])
  {
    hide Iso, TextLess, Values, Generated, DealListNode;
    var takedown, licence := Date(2026, 7, 1), Date(10000, 1, 1);
    var p := SampleRelease(Worldwide, Date(2026, 6, 1), None, Some(licence));
    var c := SampleEnvelope(Takedown, Date(2026, 6, 1), Some(takedown));
    SampleIsGenerated(Worldwide, Date(2026, 6, 1), None, Some(licence), Takedown, Date(2026, 6, 1), Some(takedown));
    TextOrderFailsPast9999(takedown, licence);
    DealEndings(p, c);
  }

  // ---------------------------------------------------------------- pre-orders

  /** A pre-order deal is written exactly when a download store's message opens before the deal:
      at most one, and never in a takedown. */
  lemma {:induction false} PreOrderWritten(p: Prepared, c: Config)
    ensures Values(DealListNode(p, c), IsPreOrderDeal) == if PreOrderDeal(p, c) then ["true"] else []
    ensures PreOrderDeal(p, c) <==>
              && p.preorderStart.Some? && !c.subType.Takedown?
              && TextLess(Iso(p.preorderStart.value), c.dealStart)
              && "PayAsYouGoModel" in c.deal.commercialModels
  {
    hide PeriodNode, DealEnd, Iso, ValuesAll, Values, DealListNode, DealNode;
    var tag := IsPreOrderDeal;
    ListSays(p, c, tag);
    TermsSay(p, c, p.releaseTime, false, PreStart(p, c), DealEnd(p, c), tag);
    TermsSay(p, c, None, true, PreStart(p, c), DealEnd(p, c), tag);
    PeriodEnds(c, p.releaseTime, false, PreStart(p, c), DealEnd(p, c));
    PeriodEnds(c, None, true, PreStart(p, c), DealEnd(p, c));
  }

  /** Everything a pre-order deal needs but the dates. */
  predicate MaySellAhead(p: Prepared, c: Config) {
    p.preorderStart.Some? && !c.subType.Takedown? && "PayAsYouGoModel" in c.deal.commercialModels
  }

  /** A pre-order deal appears for exactly the pre-release days strictly before the deal start, exactly
      when text order and calendar order agree on the two years: with a deal start in the years 0 to
      9999, exactly when the pre-release starts by 9999. */
  lemma {:induction false} PreOrderOnTheCalendar(p: Prepared, c: Config, start: Date)
    requires c.dealStart == Iso(start) && ValidDate(start)
    requires p.preorderStart.Some? ==> ValidDate(p.preorderStart.value)
    ensures (PreOrderDeal(p, c) <==> MaySellAhead(p, c) && Before(p.preorderStart.value, start))
       <==> (MaySellAhead(p, c) ==> YearsAgree(p.preorderStart.value.year, start.year))
    ensures p.preorderStart.Some? && 0 <= start.year <= 9999 ==>
              (YearsAgree(p.preorderStart.value.year, start.year) <==> p.preorderStart.value.year <= 9999)
  {
    hide Iso, TextLess, ReadsFirst;
    if p.preorderStart.Some? {
      TextOrderExactlyWhen(p.preorderStart.value, start);
    }
  }

  /** What the callers of the writer see to: the pre-release starts before the release date, and no deal
      starts before the release. */
  predicate Guarded(p: Prepared, start: Date) {
    p.preorderStart.Some? ==> Before(p.preorderStart.value, p.releaseDate) && !Before(start, p.releaseDate)
  }

  /** Under these guards no pre-order deal opens late: one is written only for a day before the deal start.
      It is missing exactly when the years do not agree; counting from the year 0, exactly when the
      pre-release starts by 9999 and the deal later, or both start past 9999 and do not read in order. */
  lemma {:induction false} GuardedPreOrders(p: Prepared, c: Config, start: Date)
    requires c.dealStart == Iso(start) && ValidDate(start) && Guarded(p, start)
    requires p.preorderStart.Some? ==> ValidDate(p.preorderStart.value)
    ensures PreOrderDeal(p, c) ==> Before(p.preorderStart.value, start)
    ensures PreOrderDeal(p, c) <==> MaySellAhead(p, c) && YearsAgree(p.preorderStart.value.year, start.year)
    ensures MaySellAhead(p, c) && p.preorderStart.value.year >= 0 ==>
              (var y, z := p.preorderStart.value.year, start.year;
               !PreOrderDeal(p, c) <==> y <= 9999 < z || (9999 < y < z && !ReadsFirst(y, z)))
  {
    hide Iso, TextLess, ReadsFirst;
    PreOrderOnTheCalendar(p, c, start);
  }

  /** A pre-order deal that is missing: the pre-release starts in December 9999, three weeks before the
      release and its deal. */
  lemma {:induction false} PreOrderMissed()
    ensures (var start, ahead := Date(10000, 1, 5), Date(9999, 12, 16);
             var p := SampleRelease(Worldwide, start, Some(ahead), None);
             var c := SampleEnvelope(Initial, start, None);
             && Generated(p, c).Ok? && Guarded(p, start) && MaySellAhead(p, c)
             && Values(DealListNode(p, c), IsPreOrderDeal) == []
             && Values(DealListNode(p, c), StartDate) == [Iso(start)])
  {
    hide Iso, TextLess, Values, Generated, DealListNode, DealEnd;
    var start, ahead := Date(10000, 1, 5), Date(9999, 12, 16);
    var p, c := SampleRelease(Worldwide, start, Some(ahead), None), SampleEnvelope(Initial, start, None);
    SampleIsGenerated(Worldwide, start, Some(ahead), None, Initial, start, None);
    GuardedPreOrders(p, c, start);
    PreOrderWritten(p, c);
    DealBeginnings(p, c);
  }

  /** The writer alone does not see to it: given a pre-release in the year 10000, which its callers refuse,
      it writes a pre-order deal that opens after the deal it precedes. */
  lemma {:induction false} PreOrderAfterTheDeal()
    ensures (var start, ahead := Date(2026, 6, 1), Date(10000, 1, 1);
             var p := SampleRelease(Worldwide, start, Some(ahead), None);
             var c := SampleEnvelope(Initial, start, None);
             && Generated(p, c).Ok? && Before(start, ahead) && !Guarded(p, start)
             && Values(DealListNode(p, c), IsPreOrderDeal) == ["true"]
             && Values(DealListNode(p, c), StartDate) == [Iso(start), Iso(ahead)])
  {
    hide Iso, TextLess, Values, Generated, DealListNode, DealEnd;
    var start, ahead := Date(2026, 6, 1), Date(10000, 1, 1);
    var p, c := SampleRelease(Worldwide, start, Some(ahead), None), SampleEnvelope(Initial, start, None);
    SampleIsGenerated(Worldwide, start, Some(ahead), None, Initial, start, None);
    TextOrderFailsPast9999(start, ahead);
    PreOrderWritten(p, c);
    DealBeginnings(p, c);
  }

  // ---------------------------------------------------------------- order of tracks

  predicate InOrder(ts: seq<Track>) {
    forall i, j :: 0 <= i < j < |ts| ==> !Earlier(ts[j], ts[i])
  }

  lemma {:induction false} InsertInOrder(t: Track, ts: seq<Track>)
    requires InOrder(ts)
    ensures InOrder(InsertTrack(t, ts))
    ensures multiset(InsertTrack(t, ts)) == multiset(ts) + multiset{t}
    decreases |ts|
  {
    if ts != [] {
      var q, last := ts[..|ts| - 1], ts[|ts| - 1];
      assert ts == q + [last];
      if Earlier(t, last) {
        InsertInOrder(t, q);
        var r := InsertTrack(t, q);
        forall i | 0 <= i < |r| ensures !Earlier(last, r[i]) {
          assert r[i] in multiset(r);
          if r[i] != t {
            assert r[i] in multiset(q);
            assert r[i] in q;
          }
        }
      }
    }
  }

  /** The tracks of a message are the release's tracks, by disc and number. */
  lemma {:induction false} TracksInOrder(ts: seq<Track>)
    ensures InOrder(OrderedTracks(ts)) && multiset(OrderedTracks(ts)) == multiset(ts)
    decreases |ts|
  {
    if ts != [] {
      TracksInOrder(ts[..|ts| - 1]);
      InsertInOrder(ts[|ts| - 1], OrderedTracks(ts[..|ts| - 1]));
      assert ts == ts[..|ts| - 1] + [ts[|ts| - 1]];
    }
  }
}
