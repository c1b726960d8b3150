/**
  The shape of a written message: eight levels deep, where the scanner allows 64, and with one
  DealList, the last section.
*/
module ErnDepth {
  import opened Common
  import opened XmlTree
  import opened ErnMessage
  import opened Roles
  import Territory
  import IsoDates

  /** No element inside, or itself, so called. */
  predicate Lacks(n: Node, tag: Tag) {
    match n
    case Leaf(t, _) => t != tag
    case Void(t) => t != tag
    case Branch(t, ks) => t != tag && forall i :: 0 <= i < |ks| ==> Lacks(ks[i], tag)
  }

  predicate Flat(n: Node, h: nat) { Height(n) <= h && Lacks(n, DealList) }

  predicate Low(ns: seq<Node>, h: nat) {
    forall i :: 0 <= i < |ns| ==> Flat(ns[i], h)
  }

  lemma {:induction false} HeightsUnder(ns: seq<Node>, h: nat)
    requires forall i :: 0 <= i < |ns| ==> Height(ns[i]) <= h
    ensures HeightAll(ns) <= h
    decreases |ns|
  {
    if ns != [] {
      HeightsUnder(ns[..|ns| - 1], h);
    }
  }

  lemma {:induction false} LowPlus(a: seq<Node>, b: seq<Node>, h: nat)
    requires Low(a, h) && Low(b, h)
    ensures Low(a + b, h)
  {
  }

  lemma {:induction false} LowOne(n: Node, h: nat)
    requires Flat(n, h)
    ensures Low([n], h)
  {
  }

  lemma {:induction false} LowBranch(t: Tag, ns: seq<Node>, h: nat)
    requires Low(ns, h) && t != DealList
    ensures Flat(Branch(t, ns), h + 1)
  {
    HeightsUnder(ns, h);
  }

  lemma {:induction false} ElsLow(tag: Tag, vs: seq<string>)
    requires tag != DealList
    ensures Low(Els(tag, vs), 1)
    decreases |vs|
  {
    if vs != [] {
      ElsLow(tag, vs[..|vs| - 1]);
    }
  }

  lemma {:induction false} LeavesLow(t: Tag, ns: seq<Node>)
    requires t != DealList && forall i :: 0 <= i < |ns| ==> ns[i].Leaf? && ns[i].tag != DealList
    ensures Flat(Branch(t, ns), 2)
  {
    LowBranch(t, ns, 1);
  }

  lemma {:induction false} PartyLow(name: string)
    ensures Flat(PartyNode(name), 2)
  {
    LeavesLow(PartyName, [El(FullName, name)]);
  }

  lemma {:induction false} HeaderLow(c: Config)
    ensures Flat(HeaderNode(c), 4)
  {
    hide PartyNode;
    PartyLow(c.senderName);
    PartyLow(c.recipientName);
    LowBranch(MessageSender, SenderNode(c).kids, 2);
    LowBranch(MessageRecipient, RecipientNode(c).kids, 2);
    if c.onBehalfOf.Some? {
      PartyLow(c.onBehalfOf.value.name);
      LowBranch(SentOnBehalfOf, BehalfNodes(c)[0].kids, 2);
    }
    hide SenderNode, RecipientNode;
    assert Low(BehalfNodes(c), 3);
    LowBranch(MessageHeader, HeaderNode(c).kids, 3);
  }

  lemma {:induction false} FileLow(name: string, sha256: string)
    ensures Flat(FileNode(name, sha256), 3)
  {
    LeavesLow(HashSum, [El(HashSum, sha256), El(HashSumAlgorithmType, "UserDefined")]);
    LowBranch(File, FileNode(name, sha256).kids, 2);
  }

  lemma {:induction false} ArtistLow(name: string, pageId: Option<string>)
    ensures Flat(ArtistNode(name, pageId), 3)
  {
    hide PartyNode;
    PartyLow(name);
    LowBranch(DisplayArtist, ArtistNode(name, pageId).kids, 2);
  }

  lemma {:induction false} ContributorsLow(cs: seq<Credit>)
    ensures Low(ContributorNodes(cs), 3)
    decreases |cs|
  {
    hide PartyNode, ContributorRole;
    if cs != [] {
      ContributorsLow(cs[..|cs| - 1]);
      PartyLow(cs[|cs| - 1].name);
      LowBranch(ResourceContributor, ContributorNode(cs[|cs| - 1]).kids, 2);
    }
  }

  lemma {:induction false} LineLow(tag: Tag, year: string, textTag: Tag, text: string)
    requires tag != DealList && textTag != DealList
    ensures Flat(LineNode(tag, year, textTag, text), 2)
  {
    LeavesLow(tag, LineNode(tag, year, textTag, text).kids);
  }

  lemma {:induction false} TechnicalLow(p: Prepared, t: Track, reference: string)
    ensures Flat(TechnicalNode(p, t, reference), 4)
  {
    hide FileNode, AudioCodec, AudioFileName;
    FileLow(AudioFileName(p.upc, t), t.audio.sha256);
    if PreviewNodes(p, t) != [] {
      LeavesLow(PreviewDetails, PreviewNodes(p, t)[0].kids);
    }
    assert Low(PreviewNodes(p, t), 3) && Low(SpecNodes(t.audio), 3);
    hide PreviewNodes, SpecNodes;
    LowBranch(TechnicalSoundRecordingDetails, TechnicalNode(p, t, reference).kids, 3);
  }

  lemma {:induction false} DetailsLow(p: Prepared, c: Config, t: Track, reference: string)
    ensures Flat(DetailsNode(p, c, t, reference), 5)
  {
    var page := if t.artist == p.artist then ArtistPage(c) else None;
    var credits := ContributorNodes(TrackCredits(p, t));
    LeavesLow(Title, TitleNode(t).kids);
    hide TitleNode, ArtistNode, LineNode, TechnicalNode, ContributorNodes, Flat;
    ArtistLow(t.artist, page);
    ContributorsLow(TrackCredits(p, t));
    LineLow(PLine, YearOf(p), PLineText, p.pLine);
    TechnicalLow(p, t, reference);
    var first := [El(TerritoryCode, "Worldwide"), TitleNode(t), ArtistNode(t.artist, page)];
    var last := [LineNode(PLine, YearOf(p), PLineText, p.pLine), TechnicalNode(p, t, reference)];
    assert Low(first, 4) && Low(credits, 4) && Low(last, 4);
    hide Low;
    LowPlus(first, credits, 4);
    LowPlus(first + credits, last, 4);
    LowBranch(SoundRecordingDetailsByTerritory, first + credits + last, 4);
  }

  lemma {:induction false} TrackLow(p: Prepared, c: Config, t: Track, reference: string)
    requires t.audio.duration.Some?
    ensures Flat(TrackNode(p, c, t, reference), 6)
  {
    hide DetailsNode, DurationText;
    DetailsLow(p, c, t, reference);
    LeavesLow(SoundRecordingId, [El(ISRC, t.isrc)]);
    LeavesLow(ReferenceTitle, [El(TitleText, t.title)]);
    LowBranch(SoundRecording, TrackNode(p, c, t, reference).kids, 5);
  }

  lemma {:induction false} TracksLow(p: Prepared, c: Config, ts: seq<Track>)
    requires DurationsKnown(ts)
    ensures Low(TrackNodes(p, c, ts), 6)
    decreases |ts|
  {
    hide TrackNode, ARef;
    if ts != [] {
      TracksLow(p, c, ts[..|ts| - 1]);
      TrackLow(p, c, ts[|ts| - 1], ARef(|ts|));
    }
  }

  lemma {:induction false} ImageLow(p: Prepared, reference: string)
    ensures Flat(ImageNode(p, reference), 6)
  {
    hide FileNode, ImageFileName, ImageCodec;
    FileLow(ImageFileName(p.upc, p.artwork.contentType), p.artwork.sha256);
    LowBranch(TechnicalImageDetails, ImageFileNode(p).kids, 3);
    hide ImageFileNode;
    LowBranch(ImageDetailsByTerritory, ImageDetails(p).kids, 4);
    hide ImageDetails;
    LeavesLow(ImageId, [El(ProprietaryId, p.upc + "_IMG_001")]);
    LowBranch(Image, ImageNode(p, reference).kids, 5);
  }

  lemma {:induction false} ResourcesLow(p: Prepared, c: Config, ts: seq<Track>)
    requires DurationsKnown(ts)
    ensures Flat(ResourceListNode(p, c, ts), 7)
  {
    hide ImageNode, ARef;
    TracksLow(p, c, ts);
    ImageLow(p, ARef(|ts| + 1));
    hide TrackNodes;
    LowBranch(ResourceList, ResourceListNode(p, c, ts).kids, 6);
  }

  lemma {:induction false} ReleaseDetailsLow(p: Prepared, c: Config)
    ensures Flat(ReleaseDetails(p, c), 4)
  {
    hide ArtistNode, ArtistPage;
    ArtistLow(p.artist, ArtistPage(c));
    LowBranch(ReleaseDetailsByTerritory, ReleaseDetails(p, c).kids, 3);
  }

  lemma {:induction false} ReleaseRefsLow(n: nat)
    ensures Flat(Branch(ReleaseResourceReferenceList, Els(ReleaseResourceReference, ARefs(n))), 2)
  {
    ElsLow(ReleaseResourceReference, ARefs(n));
    LowBranch(ReleaseResourceReferenceList, Els(ReleaseResourceReference, ARefs(n)), 1);
  }

  lemma {:induction false} ReleaseLow(p: Prepared, c: Config, n: nat)
    ensures Flat(ReleaseNode(p, c, n), 5)
  {
    var refs := Branch(ReleaseResourceReferenceList, Els(ReleaseResourceReference, ARefs(n + 1)));
    var a := [Branch(ReleaseId, [El(ICPN, p.upc)]), El(ReleaseReference, "R001"),
              Branch(ReferenceTitle, [El(TitleText, p.title)]), refs,
              El(ReleaseType, ReleaseTypeText(p.releaseType))];
    var b := [ReleaseDetails(p, c), LineNode(PLine, YearOf(p), PLineText, p.pLine),
              LineNode(CLine, YearOf(p), CLineText, p.cLine),
              El(GlobalOriginalReleaseDate, IsoDates.Iso(OriginalDate(p)))];
    ReleaseIdsLow(p, n);
    ReleaseTextsLow(p, c);
    hide ReleaseDetails, LineNode, Els, ARefs, YearOf, OriginalDate, Flat, El, ReleaseTypeText,
         IsoDates.Iso, Low;
    assert ReleaseNode(p, c, n).kids == a + b;
    LowPlus(a, b, 4);
    LowBranch(Release, a + b, 4);
  }

  lemma {:induction false} ReleaseIdsLow(p: Prepared, n: nat)
    ensures Low([Branch(ReleaseId, [El(ICPN, p.upc)]), El(ReleaseReference, "R001"),
                 Branch(ReferenceTitle, [El(TitleText, p.title)]),
                 Branch(ReleaseResourceReferenceList, Els(ReleaseResourceReference, ARefs(n + 1))),
                 El(ReleaseType, ReleaseTypeText(p.releaseType))], 4)
  {
    LeavesLow(ReleaseId, [El(ICPN, p.upc)]);
    LeavesLow(ReferenceTitle, [El(TitleText, p.title)]);
    ReleaseRefsLow(n + 1);
    LeafHeight(ReleaseReference, "R001");
    LeafHeight(ReleaseType, ReleaseTypeText(p.releaseType));
    hide Els, ARefs, Flat, El, ReleaseTypeText;
  }

  lemma {:induction false} ReleaseTextsLow(p: Prepared, c: Config)
    ensures Low([ReleaseDetails(p, c), LineNode(PLine, YearOf(p), PLineText, p.pLine),
                 LineNode(CLine, YearOf(p), CLineText, p.cLine),
                 El(GlobalOriginalReleaseDate, IsoDates.Iso(OriginalDate(p)))], 4)
  {
    ReleaseDetailsLow(p, c);
    LineLow(PLine, YearOf(p), PLineText, p.pLine);
    LineLow(CLine, YearOf(p), CLineText, p.cLine);
    LeafHeight(GlobalOriginalReleaseDate, IsoDates.Iso(OriginalDate(p)));
    hide ReleaseDetails, LineNode, YearOf, OriginalDate, Flat, El, IsoDates.Iso;
  }

  lemma {:induction false} LeafHeight(tag: Tag, value: string)
    requires tag != DealList
    ensures Flat(El(tag, value), 1)
  {
  }

  lemma {:induction false} PeriodLow(c: Config, releaseTime: Option<string>, preorder: bool,
                                     preStart: Option<string>, end: Option<string>)
    ensures Flat(PeriodNode(c, releaseTime, preorder, preStart, end), 2)
  {
    LeavesLow(ValidityPeriod, PeriodNode(c, releaseTime, preorder, preStart, end).kids);
  }

  lemma {:induction false} PriceLow(c: Config)
    ensures Low(PriceNodes(c), 2)
  {
    if c.deal.priceRange.Some? {
      LeavesLow(PriceInformation, [El(PriceRangeType, c.deal.priceRange.value)]);
    }
  }

  lemma {:induction false} UsageLow(c: Config)
    ensures Flat(Branch(Usage, Els(UseType, c.deal.useTypes)), 2)
  {
    ElsLow(UseType, c.deal.useTypes);
    LowBranch(Usage, Els(UseType, c.deal.useTypes), 1);
  }

  lemma {:induction false} TerritoryLow(t: Territory.Territories)
    ensures Low(TerritoryNodes(t), 2)
  {
    if t.WorldExcept? {
      ElsLow(ExcludedTerritoryCode, t.codes);
    } else if t.Only? {
      ElsLow(TerritoryCode, t.codes);
    }
  }

  lemma {:induction false} TermsLow(p: Prepared, c: Config, releaseTime: Option<string>, preorder: bool,
                                    preStart: Option<string>, end: Option<string>)
    ensures Flat(TermsNode(p, c, releaseTime, preorder, preStart, end), 3)
  {
    var order := If(preorder, [El(IsPreOrderDeal, "true")]);
    var models := Els(CommercialModelType, c.deal.commercialModels);
    var usage := Branch(Usage, Els(UseType, c.deal.useTypes));
    var places := TerritoryNodes(p.territories);
    var price := PriceNodes(c);
    var period := PeriodNode(c, releaseTime, preorder, preStart, end);
    var dates := PreviewDates(c, preorder, preStart);
    ElsLow(CommercialModelType, c.deal.commercialModels);
    assert Low(order, 2) && Low(models, 2) && Low(dates, 2);
    UsageLow(c);
    TerritoryLow(p.territories);
    PriceLow(c);
    PeriodLow(c, releaseTime, preorder, preStart, end);
    hide Low, Els, If, TerritoryNodes, PriceNodes, PeriodNode, PreviewDates, Flat;
    LowOne(usage, 2);
    LowOne(period, 2);
    LowPlus(order, models, 2);
    LowPlus(order + models, [usage], 2);
    LowPlus(order + models + [usage], places, 2);
    LowPlus(order + models + [usage] + places, price, 2);
    LowPlus(order + models + [usage] + places + price, [period], 2);
    LowPlus(order + models + [usage] + places + price + [period], dates, 2);
    LowBranch(DealTerms, order + models + [usage] + places + price + [period] + dates, 2);
  }

  lemma {:induction false} DealLow(p: Prepared, c: Config, releaseTime: Option<string>, preorder: bool,
                                   preStart: Option<string>, end: Option<string>)
    ensures Flat(DealNode(p, c, releaseTime, preorder, preStart, end), 4)
  {
    hide TermsNode;
    TermsLow(p, c, releaseTime, preorder, preStart, end);
    LowBranch(Deal, [TermsNode(p, c, releaseTime, preorder, preStart, end)], 3);
  }

  lemma {:induction false} DealsLow(p: Prepared, c: Config)
    ensures Height(DealListNode(p, c)) <= 6
  {
    hide DealNode, PreStart, DealEnd;
    DealLow(p, c, p.releaseTime, false, PreStart(p, c), DealEnd(p, c));
    DealLow(p, c, None, true, PreStart(p, c), DealEnd(p, c));
    LowBranch(ReleaseDeal, ReleaseDealNode(p, c).kids, 4);
    hide ReleaseDealNode;
    HeightsUnder(DealListNode(p, c).kids, 5);
  }

  /** Eight levels at most, however many tracks, credits or deals, and no DealList before the last
      section. */
  lemma {:induction false} MessageLow(p: Prepared, c: Config)
    requires DurationsKnown(OrderedTracks(p.tracks))
    ensures Height(MessageNode(p, c)) <= 8
    ensures (var ks := MessageNode(p, c).kids;
             forall i :: 0 <= i < |ks| - 1 ==> Lacks(ks[i], DealList))
  {
    hide HeaderNode, ResourceListNode, ReleaseNode, DealListNode, OrderedTracks;
    var ts := OrderedTracks(p.tracks);
    var ks := MessageNode(p, c).kids;
    HeaderLow(c);
    ResourcesLow(p, c, ts);
    ReleaseLow(p, c, |ts|);
    LowBranch(ReleaseList, [ReleaseNode(p, c, |ts|)], 5);
    DealsLow(p, c);
    HeightsUnder(ks, 7);
  }
}
