/**
  What the written message says: the record a scan of it gives. No text a caller supplies can
  change which references, releases and sections the scanner sees.
*/
module ErnWritten {
  import opened Common
  import opened XmlTree
  import opened TextBasics
  import opened Numerals
  import opened CodeLists
  import opened Territory
  import opened ErnMessage
  import opened ErnScan

  // ---------------------------------------------------------------- text that survives

  /** Written and read back unchanged. */
  predicate Tidy(v: string) {
    && v != "" && !White(v[0]) && !White(v[|v| - 1])
    && forall i :: 0 <= i < |v| ==> !Special(v[i])
  }

  lemma {:induction false} TidySurvives(v: string)
    requires Tidy(v)
    ensures LeafText(PiecesOf(Written(v))) == Some(v)
  {
    assert RunLength(v) == |v|;
    assert Pieces(v) == [Chars(v)];
    assert XmlTrim(v) == v;
  }

  lemma {:induction false} ARefTidy(k: nat)
    ensures Tidy(ARef(k))
  {
  }

  // ---------------------------------------------------------------- elements that say nothing

  /** The texts the scanner keeps from the release, resource and deal lists. */
  predicate ReferenceTag(tag: Tag) {
    || tag == ResourceReference || tag == ReleaseReference || tag == ReleaseResourceReference
    || tag == ReleaseType || tag == DealReleaseReference
  }

  predicate Quiet(ns: seq<Node>, tag: Tag) {
    forall i :: 0 <= i < |ns| ==> Texts(ns[i], tag) == []
  }

  lemma {:induction false} QuietAll(ns: seq<Node>, tag: Tag)
    requires Quiet(ns, tag)
    ensures TextsAll(ns, tag) == []
    decreases |ns|
  {
    if ns != [] {
      QuietAll(ns[..|ns| - 1], tag);
    }
  }

  /** An element is quiet when all its children are. */
  lemma {:induction false} QuietBranch(t: Tag, ns: seq<Node>, tag: Tag)
    requires Quiet(ns, tag)
    ensures Texts(Branch(t, ns), tag) == []
  {
    QuietAll(ns, tag);
  }

  lemma {:induction false} ElsQuiet(t: Tag, vs: seq<string>, tag: Tag)
    requires t != tag
    ensures Quiet(Els(t, vs), tag)
    decreases |vs|
  {
    if vs != [] {
      ElsQuiet(t, vs[..|vs| - 1], tag);
    }
  }

  lemma {:induction false} FileQuiet(name: string, sha256: string, tag: Tag)
    requires ReferenceTag(tag)
    ensures Texts(FileNode(name, sha256), tag) == []
  {
    QuietBranch(HashSum, [El(HashSum, sha256), El(HashSumAlgorithmType, "UserDefined")], tag);
    QuietBranch(File, [El(FileName, name), El(FilePath, name),
                       Branch(HashSum, [El(HashSum, sha256), El(HashSumAlgorithmType, "UserDefined")])], tag);
  }

  lemma {:induction false} OneQuiet(t: Tag, inner: Tag, v: string, tag: Tag)
    requires inner != tag
    ensures Texts(Branch(t, [El(inner, v)]), tag) == []
  {
    QuietBranch(t, [El(inner, v)], tag);
  }

  lemma {:induction false} ArtistQuiet(name: string, pageId: Option<string>, tag: Tag)
    requires ReferenceTag(tag)
    ensures Texts(ArtistNode(name, pageId), tag) == []
  {
    OneQuiet(PartyName, FullName, name, tag);
    QuietBranch(DisplayArtist,
      [PartyNode(name)] + IfSome(pageId, PartyId) + [El(ArtistRole, "MainArtist")], tag);
  }

  lemma {:induction false} LineQuiet(t: Tag, year: string, textTag: Tag, text: string, tag: Tag)
    requires ReferenceTag(tag) && textTag != tag
    ensures Texts(LineNode(t, year, textTag, text), tag) == []
  {
    QuietBranch(t, [El(Year, year), El(textTag, text)], tag);
  }

  lemma {:induction false} ContributorsQuiet(cs: seq<Credit>, tag: Tag)
    requires ReferenceTag(tag)
    ensures Quiet(ContributorNodes(cs), tag)
    decreases |cs|
  {
    if cs != [] {
      var cr := cs[|cs| - 1];
      ContributorsQuiet(cs[..|cs| - 1], tag);
      OneQuiet(PartyName, FullName, cr.name, tag);
      QuietBranch(ResourceContributor,
        [PartyNode(cr.name), El(ResourceContributorRole, Roles.ContributorRole(cr.role))], tag);
    }
  }

  lemma {:induction false} PreviewQuiet(p: Prepared, t: Track, tag: Tag)
    requires ReferenceTag(tag)
    ensures Quiet(PreviewNodes(p, t), tag)
  {
    if PreviewNodes(p, t) != [] {
      QuietBranch(PreviewDetails,
        [El(StartPoint, Dec(p.previewStarts[t.id])), El(ExpressionType, "Instructive")], tag);
    }
  }

  lemma {:induction false} TechnicalQuiet(p: Prepared, t: Track, reference: string, tag: Tag)
    requires ReferenceTag(tag)
    ensures Texts(TechnicalNode(p, t, reference), tag) == []
  {
    hide FileNode, PreviewNodes, AudioCodec, AudioFileName;
    var file := FileNode(AudioFileName(p.upc, t), t.audio.sha256);
    FileQuiet(AudioFileName(p.upc, t), t.audio.sha256, tag);
    PreviewQuiet(p, t, tag);
    assert Quiet(SpecNodes(t.audio), tag);
    var codec := [El(TechnicalResourceDetailsReference, "T" + reference),
                  El(AudioCodecType, AudioCodec(t.audio.contentType).0)];
    assert Quiet(codec + SpecNodes(t.audio) + PreviewNodes(p, t) + [file], tag);
    QuietBranch(TechnicalSoundRecordingDetails,
                codec + SpecNodes(t.audio) + PreviewNodes(p, t) + [file], tag);
  }

  lemma {:induction false} TitleQuiet(t: Track, tag: Tag)
    requires ReferenceTag(tag)
    ensures Texts(TitleNode(t), tag) == []
  {
    QuietBranch(Title, [El(TitleText, t.title)] + If(t.version != "", [El(SubTitle, t.version)]), tag);
  }

  lemma {:induction false} DetailsQuiet(p: Prepared, c: Config, t: Track, reference: string, tag: Tag)
    requires ReferenceTag(tag)
    ensures Texts(DetailsNode(p, c, t, reference), tag) == []
  {
    hide TitleNode, ArtistNode, LineNode, TechnicalNode, ContributorNodes;
    var page := if t.artist == p.artist then ArtistPage(c) else None;
    var first := [El(TerritoryCode, "Worldwide"), TitleNode(t), ArtistNode(t.artist, page)];
    var last := [LineNode(PLine, YearOf(p), PLineText, p.pLine), TechnicalNode(p, t, reference)];
    var credits := ContributorNodes(TrackCredits(p, t));
    TitleQuiet(t, tag);
    ArtistQuiet(t.artist, page, tag);
    ContributorsQuiet(TrackCredits(p, t), tag);
    LineQuiet(PLine, YearOf(p), PLineText, p.pLine, tag);
    TechnicalQuiet(p, t, reference, tag);
    assert Quiet(first + credits + last, tag);
    QuietBranch(SoundRecordingDetailsByTerritory, first + credits + last, tag);
  }

  lemma {:induction false} ImageDetailsQuiet(p: Prepared, tag: Tag)
    requires ReferenceTag(tag)
    ensures Texts(ImageDetails(p), tag) == []
  {
    var name := ImageFileName(p.upc, p.artwork.contentType);
    FileQuiet(name, p.artwork.sha256, tag);
    QuietBranch(TechnicalImageDetails,
      [El(TechnicalResourceDetailsReference, "TI001"),
       El(ImageCodecType, ImageCodec(p.artwork.contentType).0),
       FileNode(name, p.artwork.sha256)], tag);
    QuietBranch(ImageDetailsByTerritory, [El(TerritoryCode, "Worldwide"), ImageFileNode(p)], tag);
  }

  // ---------------------------------------------------------------- resources

  /** A list with one speaking member says what that member says. */
  lemma {:induction false} OneSpeaks(ns: seq<Node>, i: nat, tag: Tag)
    requires i < |ns|
    requires forall j :: 0 <= j < |ns| && j != i ==> Texts(ns[j], tag) == []
    ensures TextsAll(ns, tag) == Texts(ns[i], tag)
  {
    assert ns == ns[..i] + [ns[i]] + ns[i + 1..];
    TextsAppend(ns[..i] + [ns[i]], ns[i + 1..], tag);
    TextsAppend(ns[..i], [ns[i]], tag);
    QuietAll(ns[..i], tag);
    QuietAll(ns[i + 1..], tag);
    TextsOne(ns[i], tag);
  }

  lemma {:induction false} TrackSays(p: Prepared, c: Config, t: Track, k: nat)
    requires t.audio.duration.Some?
    ensures Texts(TrackNode(p, c, t, ARef(k)), ResourceReference) == [ARef(k)]
  {
    hide DetailsNode, ARef, DurationText;
    OneQuiet(SoundRecordingId, ISRC, t.isrc, ResourceReference);
    OneQuiet(ReferenceTitle, TitleText, t.title, ResourceReference);
    DetailsQuiet(p, c, t, ARef(k), ResourceReference);
    ARefTidy(k);
    TidySurvives(ARef(k));
    OneSpeaks(TrackNode(p, c, t, ARef(k)).kids, 2, ResourceReference);
  }

  lemma {:induction false} ImageSays(p: Prepared, k: nat)
    ensures Texts(ImageNode(p, ARef(k)), ResourceReference) == [ARef(k)]
  {
    hide ImageDetails, ARef;
    OneQuiet(ImageId, ProprietaryId, p.upc + "_IMG_001", ResourceReference);
    ImageDetailsQuiet(p, ResourceReference);
    ARefTidy(k);
    TidySurvives(ARef(k));
    OneSpeaks(ImageNode(p, ARef(k)).kids, 2, ResourceReference);
  }

  lemma {:induction false} TracksSay(p: Prepared, c: Config, ts: seq<Track>)
    requires DurationsKnown(ts)
    ensures TextsAll(TrackNodes(p, c, ts), ResourceReference) == ARefs(|ts|)
    decreases |ts|
  {
    hide TrackNode, ARef;
    if ts != [] {
      TracksSay(p, c, ts[..|ts| - 1]);
      TrackSays(p, c, ts[|ts| - 1], |ts|);
    }
  }

  lemma {:induction false} TracksAreAudio(p: Prepared, c: Config, ts: seq<Track>)
    requires DurationsKnown(ts)
    ensures forall n :: n in TrackNodes(p, c, ts) ==> n.tag == SoundRecording
    decreases |ts|
  {
    if ts != [] {
      TracksAreAudio(p, c, ts[..|ts| - 1]);
    }
  }

  lemma {:induction false} ResourcesWritten(p: Prepared, c: Config, ts: seq<Track>)
    requires DurationsKnown(ts)
    ensures WalkResources(ResourceListNode(p, c, ts).kids) == ResourcePart(ARefs(|ts| + 1), false)
  {
    hide TrackNode, ImageDetails, ARef;
    var image := ImageNode(p, ARef(|ts| + 1));
    TracksSay(p, c, ts);
    ImageSays(p, |ts| + 1);
    TextsAppend(TrackNodes(p, c, ts), [image], ResourceReference);
    TextsOne(image, ResourceReference);
    TracksAreAudio(p, c, ts);
    assert ARefs(|ts| + 1) == ARefs(|ts|) + [ARef(|ts| + 1)];
  }

  // ---------------------------------------------------------------- the release

  lemma {:induction false} ReferencesSay(n: nat)
    ensures TextsAll(Els(ReleaseResourceReference, ARefs(n)), ReleaseResourceReference) == ARefs(n)
  {
    if n > 0 {
      ReferencesSay(n - 1);
      assert ARefs(n)[..n - 1] == ARefs(n - 1);
      ARefTidy(n);
      TidySurvives(ARef(n));
    }
  }

  lemma {:induction false} ReleaseDetailsQuiet(p: Prepared, c: Config, tag: Tag)
    requires ReferenceTag(tag)
    ensures Texts(ReleaseDetails(p, c), tag) == []
  {
    hide ArtistNode;
    ArtistQuiet(p.artist, ArtistPage(c), tag);
    QuietBranch(ReleaseDetailsByTerritory,
      [El(TerritoryCode, "Worldwide"), El(DisplayArtistName, p.artist), ArtistNode(p.artist, ArtistPage(c))]
      + If(p.isExplicit, [El(ParentalWarningType, "Explicit")])
      + [El(ReleaseDate, IsoDates.Iso(p.releaseDate))], tag);
  }

  lemma {:induction false} ReleaseRefsQuiet(n: nat, tag: Tag)
    requires tag != ReleaseResourceReference
    ensures Texts(Branch(ReleaseResourceReferenceList, Els(ReleaseResourceReference, ARefs(n))), tag) == []
  {
    ElsQuiet(ReleaseResourceReference, ARefs(n), tag);
    QuietBranch(ReleaseResourceReferenceList, Els(ReleaseResourceReference, ARefs(n)), tag);
  }

  /** Everything else in a release is quiet. */
  lemma {:induction false} ReleaseQuietExcept(p: Prepared, c: Config, n: nat, tag: Tag)
    requires ReferenceTag(tag)
    ensures var ks := ReleaseNode(p, c, n).kids;
            forall j :: 0 <= j < |ks| && ks[j].tag != tag && (tag == ReleaseResourceReference ==> j != 3) ==>
              Texts(ks[j], tag) == []
  {
    hide ReleaseDetails, LineNode, ARefs, Els;
    OneQuiet(ReleaseId, ICPN, p.upc, tag);
    OneQuiet(ReferenceTitle, TitleText, p.title, tag);
    ReleaseDetailsQuiet(p, c, tag);
    LineQuiet(PLine, YearOf(p), PLineText, p.pLine, tag);
    LineQuiet(CLine, YearOf(p), CLineText, p.cLine, tag);
    if tag != ReleaseResourceReference {
      ReleaseRefsQuiet(n + 1, tag);
    }
  }

  lemma {:induction false} ReleaseTags(p: Prepared, c: Config, n: nat)
    ensures ReleaseNode(p, c, n).Branch? && ReleaseNode(p, c, n).tag == Release
    ensures var ks := ReleaseNode(p, c, n).kids;
            && |ks| == 9
            && ks[1] == El(ReleaseReference, "R001")
            && ks[3] == Branch(ReleaseResourceReferenceList, Els(ReleaseResourceReference, ARefs(n + 1)))
            && ks[4] == El(ReleaseType, ReleaseTypeText(p.releaseType))
            && (forall j :: 0 <= j < 9 ==> (ks[j].tag == ReleaseReference <==> j == 1))
            && (forall j :: 0 <= j < 9 ==> (ks[j].tag == ReleaseType <==> j == 4))
            && (forall j :: 0 <= j < 9 ==> ks[j].tag != ReleaseResourceReference)
  {
    hide ARefs, Els, ReleaseTypeText;
  }

  lemma {:induction false} ReleaseNamed(p: Prepared, c: Config, n: nat)
    ensures Texts(ReleaseNode(p, c, n), ReleaseReference) == ["R001"]
  {
    hide ReleaseNode;
    ReleaseTags(p, c, n);
    ReleaseQuietExcept(p, c, n, ReleaseReference);
    TidySurvives("R001");
    OneSpeaks(ReleaseNode(p, c, n).kids, 1, ReleaseReference);
  }

  lemma {:induction false} TypeTidy(t: string)
    ensures Tidy(ReleaseTypeText(t))
  {
    assert Tidy("Single") && Tidy("EP") && Tidy("Album");
  }

  lemma {:induction false} ReleaseTyped(p: Prepared, c: Config, n: nat)
    ensures Texts(ReleaseNode(p, c, n), ReleaseType) == [ReleaseTypeText(p.releaseType)]
  {
    hide ReleaseNode, ReleaseTypeText, Pieces, ARefs, Els;
    ReleaseTags(p, c, n);
    ReleaseQuietExcept(p, c, n, ReleaseType);
    TypeTidy(p.releaseType);
    TidySurvives(ReleaseTypeText(p.releaseType));
    OneSpeaks(ReleaseNode(p, c, n).kids, 4, ReleaseType);
  }

  lemma {:induction false} ReleasePointsAt(p: Prepared, c: Config, n: nat)
    ensures Texts(ReleaseNode(p, c, n), ReleaseResourceReference) == ARefs(n + 1)
  {
    hide ReleaseNode;
    ReleaseTags(p, c, n);
    ReleaseQuietExcept(p, c, n, ReleaseResourceReference);
    ReferencesSay(n + 1);
    OneSpeaks(ReleaseNode(p, c, n).kids, 3, ReleaseResourceReference);
  }

  /** One release, called R001, of the release's type, pointing at every A-number. */
  lemma {:induction false} ReleasesWritten(p: Prepared, c: Config, n: nat)
    ensures ReleasesFrom(NO_RELEASES, [ReleaseNode(p, c, n)])
         == ReleasePart(1, [ReleaseInfo(Some("R001"), Some(ReleaseTypeText(p.releaseType)))], ARefs(n + 1))
  {
    hide ReleaseNode, ARefs, ReleaseTypeText, Texts, ReleasesFrom;
    var r := ReleaseNode(p, c, n);
    ReleaseTags(p, c, n);
    ReleaseNamed(p, c, n);
    ReleaseTyped(p, c, n);
    ReleasePointsAt(p, c, n);
    ReleasesMeaning([r]);
    RecordsOfReleases([r], 0);
    TextsOne(r, ReleaseResourceReference);
    assert [r][..0] == [];
    assert CountTag([r], Release) == 1;
  }

  // ---------------------------------------------------------------- deals

  lemma {:induction false} TermsQuiet(p: Prepared, c: Config, releaseTime: Option<string>, preorder: bool,
                   preStart: Option<string>, end: Option<string>)
    ensures Texts(TermsNode(p, c, releaseTime, preorder, preStart, end), DealReleaseReference) == []
  {
    hide PeriodNode, PreviewDates, Els;
    var tag := DealReleaseReference;
    ElsQuiet(CommercialModelType, c.deal.commercialModels, tag);
    ElsQuiet(UseType, c.deal.useTypes, tag);
    QuietBranch(Usage, Els(UseType, c.deal.useTypes), tag);
    PeriodQuiet(c, releaseTime, preorder, preStart, end);
    PreviewDatesQuiet(c, preorder, preStart);
    TerritoriesQuiet(p.territories);
    PriceQuiet(c);
    var a := If(preorder, [El(IsPreOrderDeal, "true")]) + Els(CommercialModelType, c.deal.commercialModels)
             + [Branch(Usage, Els(UseType, c.deal.useTypes))];
    assert Quiet(a, tag);
    var b := a + TerritoryNodes(p.territories) + PriceNodes(c);
    assert Quiet(b, tag);
    var d := b + [PeriodNode(c, releaseTime, preorder, preStart, end)] + PreviewDates(c, preorder, preStart);
    assert Quiet(d, tag);
    QuietBranch(DealTerms, d, tag);
  }

  lemma {:induction false} PeriodQuiet(c: Config, releaseTime: Option<string>, preorder: bool,
                    preStart: Option<string>, end: Option<string>)
    ensures Texts(PeriodNode(c, releaseTime, preorder, preStart, end), DealReleaseReference) == []
  {
    var ks := PeriodNode(c, releaseTime, preorder, preStart, end).kids;
    assert Quiet(ks, DealReleaseReference);
    QuietBranch(ValidityPeriod, ks, DealReleaseReference);
  }

  lemma {:induction false} PreviewDatesQuiet(c: Config, preorder: bool, preStart: Option<string>)
    ensures Quiet(PreviewDates(c, preorder, preStart), DealReleaseReference)
  {
  }

  lemma {:induction false} TerritoriesQuiet(t: Territories)
    ensures Quiet(TerritoryNodes(t), DealReleaseReference)
  {
    if t.WorldExcept? {
      ElsQuiet(ExcludedTerritoryCode, t.codes, DealReleaseReference);
    } else if t.Only? {
      ElsQuiet(TerritoryCode, t.codes, DealReleaseReference);
    }
  }

  lemma {:induction false} PriceQuiet(c: Config)
    ensures Quiet(PriceNodes(c), DealReleaseReference)
  {
    if c.deal.priceRange.Some? {
      OneQuiet(PriceInformation, PriceRangeType, c.deal.priceRange.value, DealReleaseReference);
    }
  }

  lemma {:induction false} DealQuiet(p: Prepared, c: Config, releaseTime: Option<string>, preorder: bool,
                  preStart: Option<string>, end: Option<string>)
    ensures Texts(DealNode(p, c, releaseTime, preorder, preStart, end), DealReleaseReference) == []
  {
    hide TermsNode;
    TermsQuiet(p, c, releaseTime, preorder, preStart, end);
    QuietBranch(Deal, [TermsNode(p, c, releaseTime, preorder, preStart, end)], DealReleaseReference);
  }

  /** The deals name the one release. */
  lemma {:induction false} DealsWritten(p: Prepared, c: Config)
    ensures TextsAll(DealListNode(p, c).kids, DealReleaseReference) == ["R001"]
  {
    hide DealNode, PreStart, DealEnd;
    var tag := DealReleaseReference;
    DealQuiet(p, c, p.releaseTime, false, PreStart(p, c), DealEnd(p, c));
    DealQuiet(p, c, None, true, PreStart(p, c), DealEnd(p, c));
    TidySurvives("R001");
    OneSpeaks(ReleaseDealNode(p, c).kids, 0, tag);
    TextsOne(ReleaseDealNode(p, c), tag);
  }

  // ---------------------------------------------------------------- the whole record

  /** The record of the written message. */
  function WrittenScan(p: Prepared, c: Config, n: nat): Scan {
    Scan(Some(NewReleaseMessage), Sections(true, true, true, true, true),
         WalkHeader(HeaderNode(c).kids),
         ReleasePart(1, [ReleaseInfo(Some("R001"), Some(ReleaseTypeText(p.releaseType)))], ARefs(n + 1)),
         ResourcePart(ARefs(n + 1), false),
         ["R001"])
  }

  lemma {:induction false} NoSection(ns: seq<Node>, tag: Tag)
    requires forall j :: 0 <= j < |ns| ==> ns[j].tag != tag
    ensures SectionKids(ns, tag) == []
    decreases |ns|
  {
    if ns != [] {
      NoSection(ns[..|ns| - 1], tag);
    }
  }

  /** A section that occurs once. */
  lemma {:induction false} OneSection(ns: seq<Node>, i: nat, tag: Tag)
    requires i < |ns| && ns[i].tag == tag
    requires forall j :: 0 <= j < |ns| && j != i ==> ns[j].tag != tag
    ensures SectionKids(ns, tag) == Kids(ns[i]) && HasTag(ns, tag)
    decreases |ns|
  {
    var q := ns[..|ns| - 1];
    if i == |ns| - 1 {
      NoSection(q, tag);
    } else {
      OneSection(q, i, tag);
    }
  }

  /** The five sections of a message with children in the writer's order. */
  lemma {:induction false} SectionsOf(ks: seq<Node>)
    requires |ks| == 5 && ks[0].tag == MessageHeader && ks[1].tag == UpdateIndicator
    requires ks[2].tag == ResourceList && ks[3].tag == ReleaseList && ks[4].tag == DealList
    ensures WalkKids(NewReleaseMessage, ks)
         == Scan(Some(NewReleaseMessage), Sections(true, true, true, true, true),
                 WalkHeader(Kids(ks[0])), ReleasesFrom(NO_RELEASES, Kids(ks[3])),
                 WalkResources(Kids(ks[2])), TextsAll(Kids(ks[4]), DealReleaseReference))
  {
    hide WalkHeader, ReleasesFrom, WalkResources, TextsAll, Kids, SectionKids, HasTag;
    OneSection(ks, 0, MessageHeader);
    OneSection(ks, 1, UpdateIndicator);
    OneSection(ks, 2, ResourceList);
    OneSection(ks, 3, ReleaseList);
    OneSection(ks, 4, DealList);
  }

  /** Whatever the titles, names and dates are, the scanner reads: one release R001, the A-numbers
      1 to n + 1 defined once each in order and referenced in the same order, one deal for R001. */
  lemma {:induction false} WalkWritten(p: Prepared, c: Config)
    requires DurationsKnown(OrderedTracks(p.tracks))
    ensures Walk(MessageNode(p, c)) == WrittenScan(p, c, |OrderedTracks(p.tracks)|)
  {
    hide HeaderNode, UpdateNode, ResourceListNode, ReleaseNode, DealListNode, ARefs,
         WalkHeader, ReleasesFrom, WalkResources, TextsAll, WalkKids, OrderedTracks, ReleaseTypeText;
    var ts := OrderedTracks(p.tracks);
    TagsWritten(p, c, ts);
    SectionsOf(MessageNode(p, c).kids);
    ResourcesWritten(p, c, ts);
    ReleasesWritten(p, c, |ts|);
    DealsWritten(p, c);
  }

  lemma {:induction false} TagsWritten(p: Prepared, c: Config, ts: seq<Track>)
    requires DurationsKnown(ts)
    ensures HeaderNode(c).Branch? && HeaderNode(c).tag == MessageHeader
    ensures UpdateNode(c).tag == UpdateIndicator
    ensures ResourceListNode(p, c, ts).Branch? && ResourceListNode(p, c, ts).tag == ResourceList
    ensures DealListNode(p, c).Branch? && DealListNode(p, c).tag == DealList
  {
  }

  /** The A-numbers are all different, however many tracks there are. */
  lemma {:induction false} ARefsDistinct(n: nat, i: nat, j: nat)
    requires i < j < n
    ensures ARefs(n)[i] != ARefs(n)[j]
  {
    if ARefs(n)[i] == ARefs(n)[j] {
      assert ARef(i + 1)[1..] == Pad(i + 1, 3) && ARef(j + 1)[1..] == Pad(j + 1, 3);
      PadInjective(i + 1, j + 1, 3);
    }
  }
}
