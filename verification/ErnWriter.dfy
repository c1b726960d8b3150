/**
  The section writers of `ddex_ern.rs`: one growing buffer, to which every writer appends.

  The writer is proved against the element trees of `ErnMessage`. Its ghost `ctx` is the tree
  written so far, as a zipper: the open elements with the children each already has. `Valid` says
  that the buffer is at every moment exactly the events of that partial tree, so nothing the
  writers do can leave the message badly nested.
*/
module ErnWriter {
  import opened Common
  import opened XmlTree
  import opened Numerals
  import opened IsoDates
  import opened Territory
  import opened Roles
  import opened ErnMessage

  datatype Context = Top(kids: seq<Node>) | In(outer: Context, tag: Tag, kids: seq<Node>)

  function Add(c: Context, n: Node): Context { AddAll(c, [n]) }

  function AddAll(c: Context, ns: seq<Node>): Context {
    match c
    case Top(ks) => Top(ks + ns)
    case In(o, t, ks) => In(o, t, ks + ns)
  }

  /** The events of a partial tree. */
  function Emitted(c: Context): seq<Event> {
    match c
    case Top(ks) => FlattenAll(ks)
    case In(o, t, ks) => Emitted(o) + [Start(t)] + FlattenAll(ks)
  }

  lemma {:induction false} FlattenOne(n: Node)
    ensures FlattenAll([n]) == Flatten(n)
  {
    assert [n][..0] == [];
  }

  lemma {:induction false} EmittedAdd(c: Context, n: Node)
    ensures Emitted(Add(c, n)) == Emitted(c) + Flatten(n)
  {
    FlattenAppend(c.kids, [n]);
    FlattenOne(n);
  }

  lemma {:induction false} EmittedClose(o: Context, t: Tag, ks: seq<Node>)
    ensures Emitted(Add(o, Branch(t, ks))) == Emitted(In(o, t, ks)) + [End(t)]
  {
    EmittedAdd(o, Branch(t, ks));
  }

  lemma {:induction false} ContributorsSnoc(cs: seq<Credit>, i: nat, before: seq<Node>)
    requires i < |cs|
    ensures (before + ContributorNodes(cs[..i])) + [ContributorNode(cs[i])]
         == before + ContributorNodes(cs[..i + 1])
  {
    assert cs[..i + 1][..i] == cs[..i];
  }

  lemma {:induction false} TracksSnoc(p: Prepared, c: Config, ts: seq<Track>, i: nat, before: seq<Node>)
    requires i < |ts| && DurationsKnown(ts[..i]) && ts[i].audio.duration.Some?
    ensures DurationsKnown(ts[..i + 1])
    ensures (before + TrackNodes(p, c, ts[..i])) + [TrackNode(p, c, ts[i], ARef(i + 1))]
         == before + TrackNodes(p, c, ts[..i + 1])
  {
    hide TrackNode;
    assert ts[..i + 1][..i] == ts[..i];
  }

  class MessageWriter {
    var out: seq<Event>
    ghost var ctx: Context

    ghost predicate Valid() reads this { out == Emitted(ctx) }

    constructor ()
      ensures Valid() && ctx == Top([])
    {
      out := [];
      ctx := Top([]);
    }

    method Open(tag: Tag)
      requires Valid()
      modifies this
      ensures Valid() && ctx == In(old(ctx), tag, [])
    {
      out := out + [Start(tag)];
      ctx := In(ctx, tag, []);
    }

    method Close(tag: Tag)
      requires Valid() && ctx.In? && ctx.tag == tag
      modifies this
      ensures Valid() && ctx == Add(old(ctx).outer, Branch(tag, old(ctx).kids))
    {
      EmittedClose(ctx.outer, tag, ctx.kids);
      out := out + [End(tag)];
      ctx := Add(ctx.outer, Branch(tag, ctx.kids));
    }

    method Element(tag: Tag, value: string)
      requires Valid()
      modifies this
      ensures Valid() && ctx == Add(old(ctx), El(tag, value))
    {
      EmittedAdd(ctx, El(tag, value));
      out := out + [Start(tag)] + PieceEvents(PiecesOf(Written(value))) + [End(tag)];
      ctx := Add(ctx, El(tag, value));
    }

    method OptionalElement(tag: Tag, value: Option<string>)
      requires Valid()
      modifies this
      ensures Valid() && ctx == AddAll(old(ctx), IfSome(value, tag))
    {
      hide Emitted;
      if value.Some? {
        Element(tag, value.value);
      } else {
        assert ctx.kids + [] == ctx.kids;
      }
    }

    method Elements(tag: Tag, values: seq<string>)
      requires Valid()
      modifies this
      ensures Valid() && ctx == AddAll(old(ctx), Els(tag, values))
    {
      hide Emitted;
      assert ctx.kids + [] == ctx.kids;
      var i := 0;
      while i < |values|
        invariant 0 <= i <= |values|
        invariant Valid() && ctx == AddAll(old(ctx), Els(tag, values[..i]))
      {
        assert values[..i + 1][..i] == values[..i];
        Element(tag, values[i]);
        i := i + 1;
      }
      assert values[..i] == values;
    }

    method PartyName(name: string)
      requires Valid()
      modifies this
      ensures Valid() && ctx == Add(old(ctx), PartyNode(name))
    {
      hide Emitted;
      Open(XmlTree.PartyName);
      Element(FullName, name);
      assert ctx.kids == [El(FullName, name)];
      Close(XmlTree.PartyName);
    }

    // -------------------------------------------------------------- header

    method Sender(c: Config)
      requires Valid()
      modifies this
      ensures Valid() && ctx == Add(old(ctx), SenderNode(c))
    {
      hide Emitted;
      Open(MessageSender);
      OptionalElement(PartyId, c.senderPartyId);
      PartyName(c.senderName);
      assert ctx.kids == IfSome(c.senderPartyId, PartyId) + [PartyNode(c.senderName)];
      Close(MessageSender);
    }

    method OnBehalfOf(c: Config)
      requires Valid()
      modifies this
      ensures Valid() && ctx == AddAll(old(ctx), BehalfNodes(c))
    {
      hide Emitted;
      assert ctx.kids + [] == ctx.kids;
      if c.onBehalfOf.Some? {
        Open(SentOnBehalfOf);
        Element(PartyId, c.onBehalfOf.value.id);
        PartyName(c.onBehalfOf.value.name);
        assert ctx.kids == [El(PartyId, c.onBehalfOf.value.id), PartyNode(c.onBehalfOf.value.name)];
        Close(SentOnBehalfOf);
      }
    }

    method Recipient(c: Config)
      requires Valid()
      modifies this
      ensures Valid() && ctx == Add(old(ctx), RecipientNode(c))
    {
      hide Emitted;
      Open(MessageRecipient);
      OptionalElement(PartyId, c.recipientPartyId);
      PartyName(c.recipientName);
      assert ctx.kids == IfSome(c.recipientPartyId, PartyId) + [PartyNode(c.recipientName)];
      Close(MessageRecipient);
    }

    method MessageHeader(c: Config)
      requires Valid()
      modifies this
      ensures Valid() && ctx == Add(old(ctx), HeaderNode(c))
    {
      hide Emitted, SenderNode, RecipientNode;
      var thread := if c.threadId.Some? then c.threadId.value else c.messageId;
      Open(XmlTree.MessageHeader);
      Element(MessageThreadId, thread);
      Element(MessageId, c.messageId);
      Sender(c);
      assert ctx.kids == [El(MessageThreadId, thread), El(MessageId, c.messageId), SenderNode(c)];
      OnBehalfOf(c);
      ghost var first := ctx.kids;
      Recipient(c);
      Element(MessageCreatedDateTime, c.createdAt);
      Element(MessageControlType, "LiveMessage");
      assert ctx.kids == first + [RecipientNode(c), El(MessageCreatedDateTime, c.createdAt),
                                  El(MessageControlType, "LiveMessage")];
      Close(XmlTree.MessageHeader);
    }

    // -------------------------------------------------------------- resources

    method FileBlock(name: string, sha256: string)
      requires Valid()
      modifies this
      ensures Valid() && ctx == Add(old(ctx), FileNode(name, sha256))
    {
      hide Emitted;
      Open(File);
      Element(FileName, name);
      Element(FilePath, name);
      Open(HashSum);
      Element(HashSum, sha256);
      Element(HashSumAlgorithmType, "UserDefined");
      ghost var hash := [El(HashSum, sha256), El(HashSumAlgorithmType, "UserDefined")];
      assert ctx.kids == hash;
      Close(HashSum);
      assert ctx.kids == [El(FileName, name), El(FilePath, name), Branch(HashSum, hash)];
      Close(File);
    }

    method Artist(name: string, pageId: Option<string>)
      requires Valid()
      modifies this
      ensures Valid() && ctx == Add(old(ctx), ArtistNode(name, pageId))
    {
      hide Emitted;
      Open(DisplayArtist);
      PartyName(name);
      OptionalElement(PartyId, pageId);
      Element(ArtistRole, "MainArtist");
      assert ctx.kids == [PartyNode(name)] + IfSome(pageId, PartyId) + [El(ArtistRole, "MainArtist")];
      Close(DisplayArtist);
    }

    method Line(tag: Tag, year: string, textTag: Tag, text: string)
      requires Valid()
      modifies this
      ensures Valid() && ctx == Add(old(ctx), LineNode(tag, year, textTag, text))
    {
      hide Emitted;
      Open(tag);
      Element(Year, year);
      Element(textTag, text);
      assert ctx.kids == [El(Year, year), El(textTag, text)];
      Close(tag);
    }

    method Contributor(cr: Credit)
      requires Valid()
      modifies this
      ensures Valid() && ctx == Add(old(ctx), ContributorNode(cr))
    {
      hide Emitted;
      Open(ResourceContributor);
      PartyName(cr.name);
      Element(ResourceContributorRole, ContributorRole(cr.role));
      assert ctx.kids == [PartyNode(cr.name), El(ResourceContributorRole, ContributorRole(cr.role))];
      Close(ResourceContributor);
    }

    method Contributors(cs: seq<Credit>)
      requires Valid()
      modifies this
      ensures Valid() && ctx == AddAll(old(ctx), ContributorNodes(cs))
    {
      hide Emitted, ContributorNode;
      ghost var start := ctx;
      assert start.kids + [] == start.kids;
      var i := 0;
      while i < |cs|
        invariant 0 <= i <= |cs|
        invariant Valid() && ctx == AddAll(start, ContributorNodes(cs[..i]))
      {
        Contributor(cs[i]);
        ContributorsSnoc(cs, i, start.kids);
        i := i + 1;
      }
      assert cs[..i] == cs;
    }

    method Specs(a: Asset)
      requires Valid()
      modifies this
      ensures Valid() && ctx == AddAll(old(ctx), SpecNodes(a))
    {
      hide Emitted;
      assert ctx.kids + [] == ctx.kids;
      if (Pcm(a) || a.contentType == "audio/flac")
         && a.sampleRate.Some? && a.channels.Some? && a.bitsPerSample.Some?
      {
        var kbps := (a.sampleRate.value * a.channels.value * a.bitsPerSample.value + 500) / 1000;
        if Pcm(a) {
          Element(BitRate, Dec(kbps));
        }
        ghost var rate := If(Pcm(a), [El(BitRate, Dec(kbps))]);
        assert ctx == AddAll(old(ctx), rate);
        Facts(a.channels.value, a.sampleRate.value, a.bitsPerSample.value);
        assert (old(ctx).kids + rate) + FactNodes(a.channels.value, a.sampleRate.value, a.bitsPerSample.value)
            == old(ctx).kids + (rate + FactNodes(a.channels.value, a.sampleRate.value, a.bitsPerSample.value));
      }
    }

    method Facts(channels: nat, rate: nat, depth: nat)
      requires Valid()
      modifies this
      ensures Valid() && ctx == AddAll(old(ctx), FactNodes(channels, rate, depth))
    {
      hide Emitted;
      ghost var before := ctx.kids;
      Element(NumberOfChannels, Dec(channels));
      Element(SamplingRate, Dec(rate));
      Element(BitsPerSample, Dec(depth));
      assert ctx.kids == before + FactNodes(channels, rate, depth);
    }

    method Preview(p: Prepared, t: Track)
      requires Valid()
      modifies this
      ensures Valid() && ctx == AddAll(old(ctx), PreviewNodes(p, t))
    {
      hide Emitted;
      assert ctx.kids + [] == ctx.kids;
      if t.id in p.previewStarts
         && (t.audio.duration.None? || p.previewStarts[t.id] as real < t.audio.duration.value.secs)
      {
        Open(PreviewDetails);
        Element(StartPoint, Dec(p.previewStarts[t.id]));
        Element(ExpressionType, "Instructive");
        assert ctx.kids == [El(StartPoint, Dec(p.previewStarts[t.id])), El(ExpressionType, "Instructive")];
        Close(PreviewDetails);
      }
    }

    method Technical(p: Prepared, t: Track, reference: string)
      requires Valid()
      modifies this
      ensures Valid() && ctx == Add(old(ctx), TechnicalNode(p, t, reference))
    {
      hide Emitted;
      Open(TechnicalSoundRecordingDetails);
      Element(TechnicalResourceDetailsReference, "T" + reference);
      Element(AudioCodecType, AudioCodec(t.audio.contentType).0);
      assert ctx.kids == [El(TechnicalResourceDetailsReference, "T" + reference),
                          El(AudioCodecType, AudioCodec(t.audio.contentType).0)];
      Specs(t.audio);
      Preview(p, t);
      FileBlock(AudioFileName(p.upc, t), t.audio.sha256);
      Close(TechnicalSoundRecordingDetails);
    }

    method TrackTitle(t: Track)
      requires Valid()
      modifies this
      ensures Valid() && ctx == Add(old(ctx), TitleNode(t))
    {
      hide Emitted;
      Open(Title);
      Element(TitleText, t.title);
      if t.version != "" {
        Element(SubTitle, t.version);
      }
      assert ctx.kids == [El(TitleText, t.title)] + If(t.version != "", [El(SubTitle, t.version)]);
      Close(Title);
    }

    method Details(p: Prepared, c: Config, t: Track, reference: string)
      requires Valid()
      modifies this
      ensures Valid() && ctx == Add(old(ctx), DetailsNode(p, c, t, reference))
    {
      hide Emitted, TitleNode, ArtistNode, LineNode, TechnicalNode;
      var page := if t.artist == p.artist then ArtistPage(c) else None;
      Open(SoundRecordingDetailsByTerritory);
      Element(TerritoryCode, "Worldwide");
      TrackTitle(t);
      Artist(t.artist, page);
      assert ctx.kids == [El(TerritoryCode, "Worldwide"), TitleNode(t), ArtistNode(t.artist, page)];
      Contributors(TrackCredits(p, t));
      ghost var first := ctx.kids;
      Line(PLine, YearOf(p), PLineText, p.pLine);
      Technical(p, t, reference);
      assert ctx.kids == first + [LineNode(PLine, YearOf(p), PLineText, p.pLine), TechnicalNode(p, t, reference)];
      Close(SoundRecordingDetailsByTerritory);
    }

    /** An element holding one text element. */
    method Wrapped(tag: Tag, inner: Tag, value: string)
      requires Valid()
      modifies this
      ensures Valid() && ctx == Add(old(ctx), Branch(tag, [El(inner, value)]))
    {
      hide Emitted;
      Open(tag);
      Element(inner, value);
      assert ctx.kids == [El(inner, value)];
      Close(tag);
    }

    method Recording(p: Prepared, c: Config, t: Track, reference: string)
      requires Valid() && t.audio.duration.Some?
      modifies this
      ensures Valid() && ctx == Add(old(ctx), TrackNode(p, c, t, reference))
    {
      hide Emitted, DetailsNode;
      Open(SoundRecording);
      Element(SoundRecordingType, "MusicalWorkSoundRecording");
      Wrapped(SoundRecordingId, ISRC, t.isrc);
      Element(ResourceReference, reference);
      Wrapped(ReferenceTitle, TitleText, t.title);
      Element(LanguageOfPerformance, p.language);
      Element(Duration, DurationText(t));
      Details(p, c, t, reference);
      assert ctx.kids == [El(SoundRecordingType, "MusicalWorkSoundRecording"),
                          Branch(SoundRecordingId, [El(ISRC, t.isrc)]),
                          El(ResourceReference, reference),
                          Branch(ReferenceTitle, [El(TitleText, t.title)]),
                          El(LanguageOfPerformance, p.language),
                          El(Duration, DurationText(t)),
                          DetailsNode(p, c, t, reference)];
      Close(SoundRecording);
    }

    method ImageFile(p: Prepared)
      requires Valid()
      modifies this
      ensures Valid() && ctx == Add(old(ctx), ImageFileNode(p))
    {
      hide Emitted;
      Open(TechnicalImageDetails);
      Element(TechnicalResourceDetailsReference, "TI001");
      Element(ImageCodecType, ImageCodec(p.artwork.contentType).0);
      FileBlock(ImageFileName(p.upc, p.artwork.contentType), p.artwork.sha256);
      assert ctx.kids == [El(TechnicalResourceDetailsReference, "TI001"),
                          El(ImageCodecType, ImageCodec(p.artwork.contentType).0),
                          FileNode(ImageFileName(p.upc, p.artwork.contentType), p.artwork.sha256)];
      Close(TechnicalImageDetails);
    }

    method ImageTerritory(p: Prepared)
      requires Valid()
      modifies this
      ensures Valid() && ctx == Add(old(ctx), ImageDetails(p))
    {
      hide Emitted;
      Open(ImageDetailsByTerritory);
      Element(TerritoryCode, "Worldwide");
      ImageFile(p);
      assert ctx.kids == [El(TerritoryCode, "Worldwide"), ImageFileNode(p)];
      Close(ImageDetailsByTerritory);
    }

    method ImageResource(p: Prepared, reference: string)
      requires Valid()
      modifies this
      ensures Valid() && ctx == Add(old(ctx), ImageNode(p, reference))
    {
      hide Emitted;
      Open(Image);
      Element(ImageType, "FrontCoverImage");
      Wrapped(ImageId, ProprietaryId, p.upc + "_IMG_001");
      Element(ResourceReference, reference);
      ImageTerritory(p);
      assert ctx.kids == [El(ImageType, "FrontCoverImage"),
                          Branch(ImageId, [El(ProprietaryId, p.upc + "_IMG_001")]),
                          El(ResourceReference, reference),
                          ImageDetails(p)];
      Close(Image);
    }

    /** Fails when a track has no probed duration; the buffer is then abandoned. */
    method Recordings(p: Prepared, c: Config, ts: seq<Track>) returns (ok: bool)
      requires Valid()
      modifies this
      ensures ok <==> DurationsKnown(ts)
      ensures ok ==> Valid() && ctx == AddAll(old(ctx), TrackNodes(p, c, ts))
    {
      hide Emitted, TrackNode;
      ghost var start := ctx;
      assert start.kids + [] == start.kids;
      ok := true;
      var i := 0;
      while i < |ts|
        invariant 0 <= i <= |ts|
        invariant DurationsKnown(ts[..i])
        invariant Valid() && ctx == AddAll(start, TrackNodes(p, c, ts[..i]))
      {
        if ts[i].audio.duration.None? {
          return false;
        }
        Recording(p, c, ts[i], ARef(i + 1));
        TracksSnoc(p, c, ts, i, start.kids);
        i := i + 1;
      }
      assert ts[..i] == ts;
    }

    method ResourceList(p: Prepared, c: Config, ts: seq<Track>) returns (ok: bool)
      requires Valid()
      modifies this
      ensures ok <==> DurationsKnown(ts)
      ensures ok ==> Valid() && ctx == Add(old(ctx), ResourceListNode(p, c, ts))
    {
      hide Emitted;
      Open(XmlTree.ResourceList);
      ok := Recordings(p, c, ts);
      if ok {
        assert ctx.kids == TrackNodes(p, c, ts);
        ImageResource(p, ARef(|ts| + 1));
        Close(XmlTree.ResourceList);
      }
    }

    // -------------------------------------------------------------- release

    method References(n: nat)
      requires Valid()
      modifies this
      ensures Valid() && ctx == Add(old(ctx), Branch(ReleaseResourceReferenceList,
                                                     Els(ReleaseResourceReference, ARefs(n + 1))))
    {
      hide Emitted;
      Open(ReleaseResourceReferenceList);
      var i := 0;
      while i < n
        invariant 0 <= i <= n
        invariant Valid()
        invariant ctx == In(old(ctx), ReleaseResourceReferenceList, Els(ReleaseResourceReference, ARefs(i)))
      {
        assert ARefs(i + 1)[..i] == ARefs(i);
        Element(ReleaseResourceReference, ARef(i + 1));
        i := i + 1;
      }
      assert ARefs(n + 1)[..n] == ARefs(n);
      Element(ReleaseResourceReference, ARef(n + 1));
      Close(ReleaseResourceReferenceList);
    }

    method ReleaseTerritory(p: Prepared, c: Config)
      requires Valid()
      modifies this
      ensures Valid() && ctx == Add(old(ctx), ReleaseDetails(p, c))
    {
      hide Emitted;
      Open(ReleaseDetailsByTerritory);
      Element(TerritoryCode, "Worldwide");
      Element(DisplayArtistName, p.artist);
      Artist(p.artist, ArtistPage(c));
      if p.isExplicit {
        Element(ParentalWarningType, "Explicit");
      }
      ghost var warning := If(p.isExplicit, [El(ParentalWarningType, "Explicit")]);
      assert ctx.kids == [El(TerritoryCode, "Worldwide"), El(DisplayArtistName, p.artist),
                          ArtistNode(p.artist, ArtistPage(c))] + warning;
      Element(ReleaseDate, Iso(p.releaseDate));
      Close(ReleaseDetailsByTerritory);
    }

    method ReleaseList(p: Prepared, c: Config, n: nat)
      requires Valid()
      modifies this
      ensures Valid() && ctx == Add(old(ctx), Branch(XmlTree.ReleaseList, [ReleaseNode(p, c, n)]))
    {
      hide Emitted;
      Open(XmlTree.ReleaseList);
      MainRelease(p, c, n);
      assert ctx.kids == [ReleaseNode(p, c, n)];
      Close(XmlTree.ReleaseList);
    }

    method MainRelease(p: Prepared, c: Config, n: nat)
      requires Valid()
      modifies this
      ensures Valid() && ctx == Add(old(ctx), ReleaseNode(p, c, n))
    {
      hide Emitted, ReleaseDetails, LineNode, Els, ARefs, Iso, YearOf;
      Open(Release);
      Wrapped(ReleaseId, ICPN, p.upc);
      Element(ReleaseReference, "R001");
      Wrapped(ReferenceTitle, TitleText, p.title);
      References(n);
      Element(ReleaseType, ReleaseTypeText(p.releaseType));
      ReleaseTerritory(p, c);
      Line(PLine, YearOf(p), PLineText, p.pLine);
      Line(CLine, YearOf(p), CLineText, p.cLine);
      Element(GlobalOriginalReleaseDate, Iso(OriginalDate(p)));
      assert ctx.kids == [Branch(ReleaseId, [El(ICPN, p.upc)]),
                          El(ReleaseReference, "R001"),
                          Branch(ReferenceTitle, [El(TitleText, p.title)]),
                          Branch(ReleaseResourceReferenceList, Els(ReleaseResourceReference, ARefs(n + 1))),
                          El(ReleaseType, ReleaseTypeText(p.releaseType)),
                          ReleaseDetails(p, c),
                          LineNode(PLine, YearOf(p), PLineText, p.pLine),
                          LineNode(CLine, YearOf(p), CLineText, p.cLine),
                          El(GlobalOriginalReleaseDate, Iso(OriginalDate(p)))];
      Close(Release);
    }

    // -------------------------------------------------------------- deals

    method TerritoryCodes(t: Territories)
      requires Valid()
      modifies this
      ensures Valid() && ctx == AddAll(old(ctx), TerritoryNodes(t))
    {
      hide Emitted;
      match t {
        case Worldwide => Element(TerritoryCode, "Worldwide");
        case WorldExcept(codes) => Elements(ExcludedTerritoryCode, codes);
        case Only(codes) => Elements(TerritoryCode, codes);
      }
    }

    method DatePair(startTag: Tag, start: string, endTag: Tag, end: Option<string>)
      requires Valid()
      modifies this
      ensures Valid() && ctx == Add(old(ctx), Branch(ValidityPeriod, [El(startTag, start)] + IfSome(end, endTag)))
    {
      hide Emitted;
      Open(ValidityPeriod);
      Element(startTag, start);
      OptionalElement(endTag, end);
      assert ctx.kids == [El(startTag, start)] + IfSome(end, endTag);
      Close(ValidityPeriod);
    }

    method Period(c: Config, releaseTime: Option<string>, preorder: bool,
                  preStart: Option<string>, end: Option<string>)
      requires Valid()
      modifies this
      ensures Valid() && ctx == Add(old(ctx), PeriodNode(c, releaseTime, preorder, preStart, end))
    {
      hide Emitted;
      if preorder {
        DatePair(StartDate, if preStart.Some? then preStart.value else c.dealStart, EndDate, end);
      } else if releaseTime.Some? && !c.subType.Takedown? {
        DatePair(StartDateTime, c.dealStart + "T" + releaseTime.value + ":00+09:00",
                 EndDateTime, EndOfDay(end));
      } else {
        DatePair(StartDate, c.dealStart, EndDate, end);
      }
    }

    method DisplayDates(day: string)
      requires Valid()
      modifies this
      ensures Valid() && ctx == AddAll(old(ctx), DisplayNodes(day))
    {
      hide Emitted;
      ghost var before := ctx.kids;
      Element(ReleaseDisplayStartDate, day);
      Element(TrackListingPreviewStartDate, day);
      Element(CoverArtPreviewStartDate, day);
      Element(ClipPreviewStartDate, day);
      assert ctx.kids == before + DisplayNodes(day);
    }

    method PreviewPeriod(c: Config, preorder: bool, preStart: Option<string>)
      requires Valid()
      modifies this
      ensures Valid() && ctx == AddAll(old(ctx), PreviewDates(c, preorder, preStart))
    {
      hide Emitted;
      assert ctx.kids + [] == ctx.kids;
      if preStart.Some? {
        if preorder {
          Element(PreOrderReleaseDate, c.dealStart);
        }
        ghost var order := If(preorder, [El(PreOrderReleaseDate, c.dealStart)]);
        assert ctx == AddAll(old(ctx), order);
        DisplayDates(preStart.value);
        assert (old(ctx).kids + order) + DisplayNodes(preStart.value)
            == old(ctx).kids + (order + DisplayNodes(preStart.value));
      }
    }

    method Price(c: Config)
      requires Valid()
      modifies this
      ensures Valid() && ctx == AddAll(old(ctx), PriceNodes(c))
    {
      hide Emitted;
      assert ctx.kids + [] == ctx.kids;
      if c.deal.priceRange.Some? {
        Wrapped(PriceInformation, PriceRangeType, c.deal.priceRange.value);
      }
    }

    method UseTypes(c: Config)
      requires Valid()
      modifies this
      ensures Valid() && ctx == Add(old(ctx), Branch(Usage, Els(UseType, c.deal.useTypes)))
    {
      hide Emitted;
      Open(Usage);
      Elements(UseType, c.deal.useTypes);
      assert ctx.kids == Els(UseType, c.deal.useTypes);
      Close(Usage);
    }

    method DealTerms(p: Prepared, c: Config, releaseTime: Option<string>, preorder: bool,
                     preStart: Option<string>, end: Option<string>)
      requires Valid()
      modifies this
      ensures Valid() && ctx == Add(old(ctx), TermsNode(p, c, releaseTime, preorder, preStart, end))
    {
      hide Emitted, PeriodNode;
      Open(XmlTree.DealTerms);
      if preorder {
        Element(IsPreOrderDeal, "true");
      }
      assert ctx.kids == If(preorder, [El(IsPreOrderDeal, "true")]);
      Elements(CommercialModelType, c.deal.commercialModels);
      UseTypes(c);
      TerritoryCodes(p.territories);
      Price(c);
      Period(c, releaseTime, preorder, preStart, end);
      PreviewPeriod(c, preorder, preStart);
      Close(XmlTree.DealTerms);
    }

    method OneDeal(p: Prepared, c: Config, releaseTime: Option<string>, preorder: bool,
                   preStart: Option<string>, end: Option<string>)
      requires Valid()
      modifies this
      ensures Valid() && ctx == Add(old(ctx), DealNode(p, c, releaseTime, preorder, preStart, end))
    {
      hide Emitted, TermsNode;
      Open(Deal);
      DealTerms(p, c, releaseTime, preorder, preStart, end);
      assert ctx.kids == [TermsNode(p, c, releaseTime, preorder, preStart, end)];
      Close(Deal);
    }

    method DealsOfRelease(p: Prepared, c: Config)
      requires Valid()
      modifies this
      ensures Valid() && ctx == Add(old(ctx), ReleaseDealNode(p, c))
    {
      hide Emitted, DealNode;
      Open(ReleaseDeal);
      Element(DealReleaseReference, "R001");
      var pre, end := PreStart(p, c), DealEnd(p, c);
      OneDeal(p, c, p.releaseTime, false, pre, end);
      if pre.Some? && "PayAsYouGoModel" in c.deal.commercialModels {
        OneDeal(p, c, None, true, pre, end);
      }
      assert ctx.kids == [El(DealReleaseReference, "R001"), MainDeal(p, c)]
                         + If(PreOrderDeal(p, c), [PreDeal(p, c)]);
      Close(ReleaseDeal);
    }

    method DealList(p: Prepared, c: Config)
      requires Valid()
      modifies this
      ensures Valid() && ctx == Add(old(ctx), DealListNode(p, c))
    {
      hide Emitted;
      Open(XmlTree.DealList);
      DealsOfRelease(p, c);
      assert ctx.kids == [ReleaseDealNode(p, c)];
      Close(XmlTree.DealList);
    }

    method Opening(c: Config)
      requires Valid()
      modifies this
      ensures Valid() && ctx == AddAll(old(ctx), [HeaderNode(c), UpdateNode(c)])
    {
      hide Emitted, HeaderNode;
      ghost var before := ctx.kids;
      MessageHeader(c);
      Element(UpdateIndicator, if c.subType.Initial? then "OriginalMessage" else "UpdateMessage");
      assert ctx.kids == before + [HeaderNode(c), UpdateNode(c)];
    }

    method Closing(p: Prepared, c: Config, n: nat)
      requires Valid()
      modifies this
      ensures Valid() && ctx == AddAll(old(ctx), [Branch(XmlTree.ReleaseList, [ReleaseNode(p, c, n)]),
                                                  DealListNode(p, c)])
    {
      hide Emitted, ReleaseNode, DealListNode;
      ghost var before := ctx.kids;
      ReleaseList(p, c, n);
      DealList(p, c);
      assert ctx.kids == before + [Branch(XmlTree.ReleaseList, [ReleaseNode(p, c, n)]), DealListNode(p, c)];
    }

    method Message(p: Prepared, c: Config, tracks: seq<Track>) returns (ok: bool)
      requires Valid() && tracks == OrderedTracks(p.tracks)
      modifies this
      ensures ok <==> DurationsKnown(tracks)
      ensures ok ==> Valid() && ctx == Add(old(ctx), MessageNode(p, c))
    {
      hide Emitted, HeaderNode, ResourceListNode, ReleaseNode, DealListNode;
      Open(NewReleaseMessage);
      Opening(c);
      assert ctx.kids == [HeaderNode(c), UpdateNode(c)];
      ok := ResourceList(p, c, tracks);
      if ok {
        Closing(p, c, |tracks|);
        assert ctx.kids == [HeaderNode(c), UpdateNode(c), ResourceListNode(p, c, tracks),
                            Branch(XmlTree.ReleaseList, [ReleaseNode(p, c, |tracks|)]),
                            DealListNode(p, c)];
        Close(NewReleaseMessage);
      }
    }
  }

  /** Build the message, or say why not. */
  method GenerateDdexErn382(p: Prepared, c: Config) returns (r: Result<seq<Event>, GenerateError>)
    ensures r == Generated(p, c)
  {
    hide MessageNode;
    if !MetadataValid(p) {
      return Err(Invalid);
    }
    if ConfigError(c).Some? {
      return Err(ConfigError(c).value);
    }
    var tracks := OrderedTracks(p.tracks);
    var w := new MessageWriter();
    var ok := w.Message(p, c, tracks);
    if !ok {
      return Err(DurationUnknown);
    }
    assert w.ctx.kids == [MessageNode(p, c)];
    FlattenOne(MessageNode(p, c));
    r := Ok([Misc] + w.out);
  }
}
