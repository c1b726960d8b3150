/**
  What a recipient reads from a written message: every value of the release, the tracks and the
  envelope stands where ERN 3.8.2 has it. The statements speak of the elements read from the events,
  never of the tree the writer had in mind.
*/
module ErnReadBack {
  import opened Common
  import opened XmlTree
  import opened Numerals
  import opened IsoDates
  import opened Territory
  import opened Roles
  import opened ErnMessage
  import opened ErnRead
  import ErnDeals

  // ---------------------------------------------------------------- what the parts say

  /** The names of the elements, in order. */
  function Tags(es: seq<Element>): seq<Tag> { seq(|es|, i requires 0 <= i < |es| => es[i].tag) }

  function Maybe(o: Option<string>): seq<string> { if o.Some? then [o.value] else [] }

  function Perhaps(c: bool, s: string): seq<string> { if c then [s] else [] }

  function Mark(c: bool, tag: Tag): seq<Tag> { if c then [tag] else [] }

  /** One element called `tag` that holds one `inner` with the text. */
  predicate Holds(es: seq<Element>, tag: Tag, inner: Tag, text: string) {
    Tags(Inside(es, tag)) == [inner] && Says(Inside(es, tag), inner) == [text]
  }

  /** A party: its id, when it has one, and its name. */
  predicate PartySays(es: seq<Element>, id: Option<string>, name: string) {
    && Tags(es) == Mark(id.Some?, PartyId) + [PartyName]
    && Says(es, PartyId) == Maybe(id)
    && Holds(es, PartyName, FullName, name)
  }

  predicate HeaderSays(h: seq<Element>, c: Config) {
    && Tags(h) == [MessageThreadId, MessageId, MessageSender] + Mark(c.onBehalfOf.Some?, SentOnBehalfOf)
                  + [MessageRecipient, MessageCreatedDateTime, MessageControlType]
    && Says(h, MessageThreadId) == [if c.threadId.Some? then c.threadId.value else c.messageId]
    && Says(h, MessageId) == [c.messageId]
    && PartySays(Inside(h, MessageSender), c.senderPartyId, c.senderName)
    && (c.onBehalfOf.Some? ==>
          PartySays(Inside(h, SentOnBehalfOf), Some(c.onBehalfOf.value.id), c.onBehalfOf.value.name))
    && PartySays(Inside(h, MessageRecipient), c.recipientPartyId, c.recipientName)
    && Says(h, MessageCreatedDateTime) == [c.createdAt]
    && Says(h, MessageControlType) == ["LiveMessage"]
  }

  /** A file under one name, with its hash. */
  predicate FileSays(es: seq<Element>, name: string, sha256: string) {
    && Tags(es) == [FileName, FilePath, HashSum]
    && Says(es, FileName) == [name] && Says(es, FilePath) == [name]
    && Tags(Inside(es, HashSum)) == [HashSum, HashSumAlgorithmType]
    && Says(Inside(es, HashSum), HashSum) == [sha256]
    && Says(Inside(es, HashSum), HashSumAlgorithmType) == ["UserDefined"]
  }

  predicate TitleSays(es: seq<Element>, title: string, version: string) {
    && Tags(es) == [TitleText] + Mark(version != "", SubTitle)
    && Says(es, TitleText) == [title]
    && Says(es, SubTitle) == Perhaps(version != "", version)
  }

  /** A display artist; the page at the recipient only when both ids are known. */
  predicate ArtistSays(es: seq<Element>, name: string, page: Option<string>) {
    && Tags(es) == [PartyName] + Mark(page.Some?, PartyId) + [ArtistRole]
    && Holds(es, PartyName, FullName, name)
    && Says(es, PartyId) == Maybe(page)
    && Says(es, ArtistRole) == ["MainArtist"]
  }

  predicate CreditSays(e: Element, cr: Credit) {
    && Tags(e.kids) == [PartyName, ResourceContributorRole]
    && Holds(e.kids, PartyName, FullName, cr.name)
    && Says(e.kids, ResourceContributorRole) == [ContributorRole(cr.role)]
  }

  predicate LineSays(es: seq<Element>, year: int, textTag: Tag, text: string) {
    && Tags(es) == [Year, textTag]
    && Says(es, Year) == [YearText(year)] && Says(es, textTag) == [text]
  }

  /** Codec and file ending of each audio type. */
  predicate AudioKind(contentType: string, codec: string, ending: string) {
    if contentType in ["audio/wav", "audio/x-wav"] then codec == "PCM" && ending == "wav"
    else if contentType == "audio/flac" then codec == "FLAC" && ending == "flac"
    else if contentType == "audio/mpeg" then codec == "MP3" && ending == "mp3"
    else codec == "Unknown" && ending == "bin"
  }

  predicate ImageKind(contentType: string, codec: string, ending: string) {
    if contentType == "image/jpeg" then codec == "JPEG" && ending == "jpg"
    else if contentType == "image/png" then codec == "PNG" && ending == "png"
    else codec == "Unknown" && ending == "bin"
  }

  predicate Measured(a: Asset) {
    && a.contentType in ["audio/wav", "audio/x-wav", "audio/flac"]
    && a.sampleRate.Some? && a.channels.Some? && a.bitsPerSample.Some?
  }

  /** The kilobits per second, rounded to the nearest. */
  ghost predicate RateSays(text: string, channels: nat, rate: nat, depth: nat) {
    exists n: nat :: text == Dec(n) && -500 <= 1000 * n - channels * rate * depth <= 500
  }

  ghost predicate SpecsSay(es: seq<Element>, a: Asset) {
    var wav := Measured(a) && a.contentType != "audio/flac";
    && |Says(es, BitRate)| == (if wav then 1 else 0)
    && (wav ==> RateSays(Says(es, BitRate)[0], a.channels.value, a.sampleRate.value, a.bitsPerSample.value))
    && Says(es, NumberOfChannels) == (if Measured(a) then [Dec(a.channels.value)] else [])
    && Says(es, SamplingRate) == (if Measured(a) then [Dec(a.sampleRate.value)] else [])
    && Says(es, BitsPerSample) == (if Measured(a) then [Dec(a.bitsPerSample.value)] else [])
  }

  /** The preview starts inside the track, or the track says nothing about it. */
  predicate PreviewShown(p: Prepared, t: Track) {
    t.id in p.previewStarts
    && (t.audio.duration.None? || p.previewStarts[t.id] as real < t.audio.duration.value.secs)
  }

  ghost predicate TechnicalSays(es: seq<Element>, p: Prepared, t: Track, k: nat) {
    var measured, preview := Measured(t.audio), PreviewShown(p, t);
    && Tags(es) == [TechnicalResourceDetailsReference, AudioCodecType]
                   + Mark(measured && t.audio.contentType != "audio/flac", BitRate)
                   + (if measured then [NumberOfChannels, SamplingRate, BitsPerSample] else [])
                   + Mark(preview, PreviewDetails) + [File]
    && Says(es, TechnicalResourceDetailsReference) == ["TA" + Pad(k, 3)]
    && SpecsSay(es, t.audio)
    && (preview ==>
          && Says(Inside(es, PreviewDetails), StartPoint) == [Dec(p.previewStarts[t.id])]
          && Says(Inside(es, PreviewDetails), ExpressionType) == ["Instructive"])
    && exists codec, ending :: AudioKind(t.audio.contentType, codec, ending)
         && Says(es, AudioCodecType) == [codec]
         && FileSays(Inside(es, File), p.upc + "_" + Pad(t.disc, 2) + "_" + Pad(t.number, 3) + "." + ending,
                     t.audio.sha256)
  }

  function CreditsOf(p: Prepared, t: Track): seq<Credit> { if t.id in p.credits then p.credits[t.id] else [] }

  function PageOf(c: Config): Option<string> { if c.recipientPartyId.Some? then c.artistPartyId else None }

  ghost predicate DetailsSay(es: seq<Element>, p: Prepared, c: Config, t: Track, k: nat) {
    var cs := CreditsOf(p, t);
    && Tags(es) == [TerritoryCode, Title, DisplayArtist] + seq(|cs|, _ => ResourceContributor)
                   + [PLine, TechnicalSoundRecordingDetails]
    && Says(es, TerritoryCode) == ["Worldwide"]
    && TitleSays(Inside(es, Title), t.title, t.version)
    && ArtistSays(Inside(es, DisplayArtist), t.artist, if t.artist == p.artist then PageOf(c) else None)
    && |Named(es, ResourceContributor)| == |cs|
    && (forall j :: 0 <= j < |cs| ==> CreditSays(Named(es, ResourceContributor)[j], cs[j]))
    && LineSays(Inside(es, PLine), p.releaseDate.year, PLineText, p.pLine)
    && TechnicalSays(Inside(es, TechnicalSoundRecordingDetails), p, t, k)
  }

  /** The `k`-th recording says what track `t` says. */
  ghost predicate RecordingSays(e: Element, p: Prepared, c: Config, t: Track, k: nat) {
    var es := e.kids;
    && Tags(es) == [SoundRecordingType, SoundRecordingId, ResourceReference, ReferenceTitle,
                    LanguageOfPerformance, Duration, SoundRecordingDetailsByTerritory]
    && Says(es, SoundRecordingType) == ["MusicalWorkSoundRecording"]
    && Holds(es, SoundRecordingId, ISRC, t.isrc)
    && Says(es, ResourceReference) == ["A" + Pad(k, 3)]
    && Holds(es, ReferenceTitle, TitleText, t.title)
    && Says(es, LanguageOfPerformance) == [p.language]
    && (t.audio.duration.Some? ==> Says(es, Duration) == ["PT" + t.audio.duration.value.text + "S"])
    && DetailsSay(Inside(es, SoundRecordingDetailsByTerritory), p, c, t, k)
  }

  ghost predicate ImageFileSays(es: seq<Element>, p: Prepared) {
    && Tags(es) == [TechnicalResourceDetailsReference, ImageCodecType, File]
    && Says(es, TechnicalResourceDetailsReference) == ["TI001"]
    && exists codec, ending :: ImageKind(p.artwork.contentType, codec, ending)
         && Says(es, ImageCodecType) == [codec]
         && FileSays(Inside(es, File), p.upc + "." + ending, p.artwork.sha256)
  }

  ghost predicate ImageSays(e: Element, p: Prepared, k: nat) {
    var es := e.kids;
    var there := Inside(es, ImageDetailsByTerritory);
    && Tags(es) == [ImageType, ImageId, ResourceReference, ImageDetailsByTerritory]
    && Says(es, ImageType) == ["FrontCoverImage"]
    && Holds(es, ImageId, ProprietaryId, p.upc + "_IMG_001")
    && Says(es, ResourceReference) == ["A" + Pad(k, 3)]
    && Tags(there) == [TerritoryCode, TechnicalImageDetails]
    && Says(there, TerritoryCode) == ["Worldwide"]
    && ImageFileSays(Inside(there, TechnicalImageDetails), p)
  }

  /** The recordings in the order of the tracks, then the image. */
  ghost predicate ResourcesSay(es: seq<Element>, p: Prepared, c: Config) {
    var ts := OrderedTracks(p.tracks);
    && |es| == |ts| + 1
    && (forall k :: 0 <= k < |ts| ==> es[k].tag == SoundRecording && RecordingSays(es[k], p, c, ts[k], k + 1))
    && es[|ts|].tag == Image && ImageSays(es[|ts|], p, |ts| + 1)
  }

  predicate ReleaseDetailsSay(es: seq<Element>, p: Prepared, c: Config) {
    && Tags(es) == [TerritoryCode, DisplayArtistName, DisplayArtist] + Mark(p.isExplicit, ParentalWarningType)
                   + [ReleaseDate]
    && Says(es, TerritoryCode) == ["Worldwide"]
    && Says(es, DisplayArtistName) == [p.artist]
    && ArtistSays(Inside(es, DisplayArtist), p.artist, PageOf(c))
    && Says(es, ParentalWarningType) == Perhaps(p.isExplicit, "Explicit")
    && Says(es, ReleaseDate) == [Iso(p.releaseDate)]
  }

  /** The references of the release are the A-numbers of all recordings and of the image. */
  predicate ReferencesSay(es: seq<Element>, n: nat) {
    && |es| == n
    && forall k :: 0 <= k < n ==>
         es[k].tag == ReleaseResourceReference && es[k].text == "A" + Pad(k + 1, 3)
  }

  predicate ReleaseSays(es: seq<Element>, p: Prepared, c: Config) {
    && Tags(es) == [ReleaseId, ReleaseReference, ReferenceTitle, ReleaseResourceReferenceList, ReleaseType,
                    ReleaseDetailsByTerritory, PLine, CLine, GlobalOriginalReleaseDate]
    && Holds(es, ReleaseId, ICPN, p.upc)
    && Says(es, ReleaseReference) == ["R001"]
    && Holds(es, ReferenceTitle, TitleText, p.title)
    && ReferencesSay(Inside(es, ReleaseResourceReferenceList), |p.tracks| + 1)
    && Says(es, ReleaseType)
       == [if p.releaseType == "SINGLE" then "Single" else if p.releaseType == "EP" then "EP" else "Album"]
    && ReleaseDetailsSay(Inside(es, ReleaseDetailsByTerritory), p, c)
    && LineSays(Inside(es, PLine), p.releaseDate.year, PLineText, p.pLine)
    && LineSays(Inside(es, CLine), p.releaseDate.year, CLineText, p.cLine)
    && Says(es, GlobalOriginalReleaseDate)
       == [Iso(if p.originalReleaseDate.Some? then p.originalReleaseDate.value else p.releaseDate)]
  }

  // ---------------------------------------------------------------- what the deals say

  /** The first day of the time before the deal, when the release opens then. */
  function Opening(p: Prepared, c: Config): Option<string> {
    if p.preorderStart.Some? && !c.subType.Takedown? && TextLess(Iso(p.preorderStart.value), c.dealStart)
    then Some(Iso(p.preorderStart.value))
    else None
  }

  /** The last day: one of the licence's end and a takedown's, and after neither. */
  predicate LastDay(p: Prepared, c: Config, end: Option<string>) {
    var licence := p.rightsEnd.Some?;
    var takedown := c.subType.Takedown? && c.takedownDate.Some?;
    && (end.Some? <==> licence || takedown)
    && (end.Some? ==>
          || (licence && end.value == Iso(p.rightsEnd.value))
          || (takedown && end == c.takedownDate))
    && (licence && end.Some? ==> !TextLess(Iso(p.rightsEnd.value), end.value))
    && (takedown && end.Some? ==> !TextLess(c.takedownDate.value, end.value))
  }

  /** A pre-order period in days from the opening; a release at a fixed time in Korean time; else in days. */
  ghost predicate PeriodSays(es: seq<Element>, p: Prepared, c: Config, preorder: bool) {
    var timed := !preorder && p.releaseTime.Some? && !c.subType.Takedown?;
    exists end: Option<string> :: LastDay(p, c, end)
      && if timed then
           && Tags(es) == [StartDateTime] + Mark(end.Some?, EndDateTime)
           && Says(es, StartDateTime) == [c.dealStart + "T" + p.releaseTime.value + ":00+09:00"]
           && (end.Some? ==> Says(es, EndDateTime) == [end.value + "T23:59:59+09:00"])
         else
           && Tags(es) == [StartDate] + Mark(end.Some?, EndDate)
           && Says(es, StartDate)
              == [if preorder && Opening(p, c).Some? then Opening(p, c).value else c.dealStart]
           && Says(es, EndDate) == Maybe(end)
  }

  predicate PlacesSay(es: seq<Element>, t: Territories) {
    && Says(es, TerritoryCode) == (if t.Worldwide? then ["Worldwide"] else if t.Only? then t.codes else [])
    && Says(es, ExcludedTerritoryCode) == (if t.WorldExcept? then t.codes else [])
  }

  /** Before the deal opens the release is shown from the first day of that time. */
  predicate PreviewSays(es: seq<Element>, p: Prepared, c: Config, preorder: bool) {
    var day := Maybe(Opening(p, c));
    && Says(es, PreOrderReleaseDate) == Perhaps(preorder && Opening(p, c).Some?, c.dealStart)
    && Says(es, ReleaseDisplayStartDate) == day
    && Says(es, TrackListingPreviewStartDate) == day
    && Says(es, CoverArtPreviewStartDate) == day
    && Says(es, ClipPreviewStartDate) == day
  }

  ghost predicate TermsSay(es: seq<Element>, p: Prepared, c: Config, preorder: bool) {
    && Says(es, IsPreOrderDeal) == Perhaps(preorder, "true")
    && Says(es, CommercialModelType) == c.deal.commercialModels
    && |Named(es, Usage)| == 1
    && Says(Inside(es, Usage), UseType) == c.deal.useTypes
    && PlacesSay(es, p.territories)
    && |Named(es, PriceInformation)| == |Maybe(c.deal.priceRange)|
    && Says(Inside(es, PriceInformation), PriceRangeType) == Maybe(c.deal.priceRange)
    && |Named(es, ValidityPeriod)| == 1
    && PeriodSays(Inside(es, ValidityPeriod), p, c, preorder)
    && PreviewSays(es, p, c, preorder)
  }

  ghost predicate DealSays(e: Element, p: Prepared, c: Config, preorder: bool) {
    && e.tag == Deal && Tags(e.kids) == [DealTerms]
    && TermsSay(Inside(e.kids, DealTerms), p, c, preorder)
  }

  /** One deal for the release, and one more for a download store that sells ahead. */
  ghost predicate DealsSay(es: seq<Element>, p: Prepared, c: Config) {
    var ahead := Opening(p, c).Some? && "PayAsYouGoModel" in c.deal.commercialModels;
    && Tags(es) == [DealReleaseReference, Deal] + Mark(ahead, Deal)
    && es[0].text == "R001"
    && DealSays(es[1], p, c, false)
    && (ahead ==> DealSays(es[2], p, c, true))
  }

  ghost predicate MessageSays(m: Element, p: Prepared, c: Config) {
    && m.tag == NewReleaseMessage
    && Tags(m.kids) == [MessageHeader, UpdateIndicator, ResourceList, ReleaseList, DealList]
    && HeaderSays(m.kids[0].kids, c)
    && m.kids[1].text == (if c.subType.Initial? then "OriginalMessage" else "UpdateMessage")
    && ResourcesSay(m.kids[2].kids, p, c)
    && Tags(m.kids[3].kids) == [Release] && ReleaseSays(m.kids[3].kids[0].kids, p, c)
    && Tags(m.kids[4].kids) == [ReleaseDeal] && DealsSay(m.kids[4].kids[0].kids, p, c)
  }

  // ---------------------------------------------------------------- reading the writer's nodes

  predicate Sole(ns: seq<Node>, i: nat, tag: Tag) {
    i < |ns| && ns[i].tag == tag && forall j :: 0 <= j < |ns| && j != i ==> ns[j].tag != tag
  }

  lemma {:induction false} SoleIs(ns: seq<Node>, i: nat, tag: Tag)
    requires Sole(ns, i, tag)
    ensures var e := ElementOf(ns[i]);
            Named(ElementsOf(ns), tag) == [e] && Says(ElementsOf(ns), tag) == [e.text]
            && Inside(ElementsOf(ns), tag) == e.kids
  {
    hide ElementOf, Named, Says, Inside, TextsOf, KidsOf;
    One(ElementsOf(ns), i, tag);
  }

  lemma {:induction false} Spelled(tag: Tag, v: string)
    ensures ElementOf(El(tag, v)) == Element(tag, v, [])
  {
    hide Pieces, Joined;
    PiecesSpell(v);
  }

  lemma {:induction false} SoleText(ns: seq<Node>, i: nat, tag: Tag, v: string)
    requires Sole(ns, i, tag) && ns[i] == El(tag, v)
    ensures Says(ElementsOf(ns), tag) == [v]
  {
    hide ElementOf, Says;
    SoleIs(ns, i, tag);
    Spelled(tag, v);
  }

  lemma {:induction false} Absent(ns: seq<Node>, tag: Tag)
    requires forall j :: 0 <= j < |ns| ==> ns[j].tag != tag
    ensures var es := ElementsOf(ns); Named(es, tag) == [] && Says(es, tag) == [] && Inside(es, tag) == []
  {
    hide ElementOf, Named, Says, Inside;
    NoneNamed(ElementsOf(ns), tag);
  }

  lemma {:induction false} OneInside(ns: seq<Node>, i: nat, tag: Tag, inner: Tag, v: string)
    requires Sole(ns, i, tag) && ns[i] == Branch(tag, [El(inner, v)])
    ensures Holds(ElementsOf(ns), tag, inner, v)
  {
    hide Says, Inside;
    SoleIs(ns, i, tag);
    SoleText([El(inner, v)], 0, inner, v);
  }

  lemma {:induction false} PartyRead(id: Option<string>, name: string, ns: seq<Node>)
    requires ns == IfSome(id, PartyId) + [PartyNode(name)]
    ensures PartySays(ElementsOf(ns), id, name)
  {
    hide Says, Inside, ElementOf;
    OneInside(ns, |ns| - 1, PartyName, FullName, name);
    if id.Some? {
      SoleText(ns, 0, PartyId, id.value);
    } else {
      Absent(ns, PartyId);
    }
  }

  lemma {:induction false} Opened(tag: Tag, ns: seq<Node>)
    ensures ElementOf(Branch(tag, ns)) == Element(tag, "", ElementsOf(ns))
  {
  }

  lemma {:induction false} PartyInside(ns: seq<Node>, i: nat, tag: Tag, id: Option<string>, name: string)
    requires Sole(ns, i, tag) && ns[i] == Branch(tag, IfSome(id, PartyId) + [PartyNode(name)])
    ensures PartySays(Inside(ElementsOf(ns), tag), id, name)
  {
    hide Inside, ElementOf, PartySays;
    SoleIs(ns, i, tag);
    Opened(tag, IfSome(id, PartyId) + [PartyNode(name)]);
    PartyRead(id, name, IfSome(id, PartyId) + [PartyNode(name)]);
  }

  lemma {:induction false} HeaderRead(c: Config)
    ensures HeaderSays(ElementOf(HeaderNode(c)).kids, c)
  {
    hide Says, Inside, PartySays, ElementOf, PartyNode, IfSome;
    var thread := if c.threadId.Some? then c.threadId.value else c.messageId;
    var head := [El(MessageThreadId, thread), El(MessageId, c.messageId), SenderNode(c)];
    var tail := [RecipientNode(c), El(MessageCreatedDateTime, c.createdAt), El(MessageControlType, "LiveMessage")];
    if c.onBehalfOf.Some? {
      HeaderKids(c, head + BehalfNodes(c) + tail, thread, 4);
      BehalfRead(c, head + BehalfNodes(c) + tail);
    } else {
      HeaderKids(c, head + BehalfNodes(c) + tail, thread, 3);
    }
    Opened(MessageHeader, head + BehalfNodes(c) + tail);
  }

  lemma {:induction false} BehalfRead(c: Config, ns: seq<Node>)
    requires |ns| == 7 && Sole(ns, 3, SentOnBehalfOf) && c.onBehalfOf.Some? && ns[3] == BehalfNodes(c)[0]
    ensures PartySays(Inside(ElementsOf(ns), SentOnBehalfOf), Some(c.onBehalfOf.value.id), c.onBehalfOf.value.name)
  {
    hide Inside, PartySays, ElementOf, PartyNode;
    var o := c.onBehalfOf.value;
    assert [El(PartyId, o.id), PartyNode(o.name)] == IfSome(Some(o.id), PartyId) + [PartyNode(o.name)];
    PartyInside(ns, 3, SentOnBehalfOf, Some(o.id), o.name);
  }

  lemma {:induction false} HeaderKids(c: Config, ns: seq<Node>, thread: string, k: nat)
    requires 3 <= k <= 4 && |ns| == k + 3
    requires ns[0] == El(MessageThreadId, thread) && ns[1] == El(MessageId, c.messageId) && ns[2] == SenderNode(c)
    requires k == 4 ==> ns[3].tag == SentOnBehalfOf
    requires ns[k] == RecipientNode(c) && ns[k + 1] == El(MessageCreatedDateTime, c.createdAt)
    requires ns[k + 2] == El(MessageControlType, "LiveMessage")
    ensures var es := ElementsOf(ns);
            && Says(es, MessageThreadId) == [thread]
            && Says(es, MessageId) == [c.messageId]
            && PartySays(Inside(es, MessageSender), c.senderPartyId, c.senderName)
            && PartySays(Inside(es, MessageRecipient), c.recipientPartyId, c.recipientName)
            && Says(es, MessageCreatedDateTime) == [c.createdAt]
            && Says(es, MessageControlType) == ["LiveMessage"]
  {
    hide Says, Inside, PartySays, ElementOf, PartyNode, IfSome;
    SoleText(ns, 0, MessageThreadId, thread);
    SoleText(ns, 1, MessageId, c.messageId);
    PartyInside(ns, 2, MessageSender, c.senderPartyId, c.senderName);
    PartyInside(ns, k, MessageRecipient, c.recipientPartyId, c.recipientName);
    SoleText(ns, k + 1, MessageCreatedDateTime, c.createdAt);
    SoleText(ns, k + 2, MessageControlType, "LiveMessage");
  }

  // ---------------------------------------------------------------- reading a recording

  lemma {:induction false} HashRead(sha256: string)
    ensures (var es := ElementsOf([El(HashSum, sha256), El(HashSumAlgorithmType, "UserDefined")]);
             && Tags(es) == [HashSum, HashSumAlgorithmType]
             && Says(es, HashSum) == [sha256] && Says(es, HashSumAlgorithmType) == ["UserDefined"])
  {
    hide Says, ElementOf;
    var hash := [El(HashSum, sha256), El(HashSumAlgorithmType, "UserDefined")];
    SoleText(hash, 0, HashSum, sha256);
    SoleText(hash, 1, HashSumAlgorithmType, "UserDefined");
  }

  lemma {:induction false} FileRead(name: string, sha256: string)
    ensures FileSays(ElementOf(FileNode(name, sha256)).kids, name, sha256)
  {
    hide Says, Inside, ElementOf;
    var hash := [El(HashSum, sha256), El(HashSumAlgorithmType, "UserDefined")];
    var ns := [El(FileName, name), El(FilePath, name), Branch(HashSum, hash)];
    HashRead(sha256);
    SoleText(ns, 0, FileName, name);
    SoleText(ns, 1, FilePath, name);
    SoleIs(ns, 2, HashSum);
    Opened(HashSum, hash);
    Opened(File, ns);
  }

  lemma {:induction false} FileInside(ns: seq<Node>, i: nat, name: string, sha256: string)
    requires Sole(ns, i, File) && ns[i] == FileNode(name, sha256)
    ensures FileSays(Inside(ElementsOf(ns), File), name, sha256)
  {
    hide Inside, ElementOf, FileSays, FileNode;
    SoleIs(ns, i, File);
    FileRead(name, sha256);
  }

  lemma {:induction false} TitleRead(t: Track)
    ensures TitleSays(ElementOf(TitleNode(t)).kids, t.title, t.version)
  {
    hide Says, ElementOf;
    var ns := TitleNode(t).kids;
    Opened(Title, ns);
    SoleText(ns, 0, TitleText, t.title);
    if t.version != "" {
      SoleText(ns, 1, SubTitle, t.version);
    } else {
      Absent(ns, SubTitle);
    }
  }

  lemma {:induction false} ArtistRead(name: string, page: Option<string>)
    ensures ArtistSays(ElementOf(ArtistNode(name, page)).kids, name, page)
  {
    hide Says, ElementOf, Holds;
    var ns := ArtistNode(name, page).kids;
    Opened(DisplayArtist, ns);
    OneInside(ns, 0, PartyName, FullName, name);
    SoleText(ns, |ns| - 1, ArtistRole, "MainArtist");
    if page.Some? {
      SoleText(ns, 1, PartyId, page.value);
    } else {
      Absent(ns, PartyId);
    }
  }

  lemma {:induction false} CreditRead(cr: Credit)
    ensures CreditSays(ElementOf(ContributorNode(cr)), cr)
  {
    hide Says, ElementOf, Holds, ContributorRole;
    var ns := ContributorNode(cr).kids;
    Opened(ResourceContributor, ns);
    OneInside(ns, 0, PartyName, FullName, cr.name);
    SoleText(ns, 1, ResourceContributorRole, ContributorRole(cr.role));
  }

  lemma {:induction false} CreditsAt(cs: seq<Credit>)
    ensures |ContributorNodes(cs)| == |cs|
    ensures forall j :: 0 <= j < |cs| ==> ContributorNodes(cs)[j] == ContributorNode(cs[j])
    decreases |cs|
  {
    hide ContributorNode;
    if cs != [] {
      CreditsAt(cs[..|cs| - 1]);
    }
  }

  lemma {:induction false} LineRead(tag: Tag, year: int, textTag: Tag, text: string)
    requires textTag != Year
    ensures LineSays(ElementOf(LineNode(tag, YearText(year), textTag, text)).kids, year, textTag, text)
  {
    hide Says, ElementOf, YearText;
    var ns := [El(Year, YearText(year)), El(textTag, text)];
    Opened(tag, ns);
    SoleText(ns, 0, Year, YearText(year));
    SoleText(ns, 1, textTag, text);
  }

  lemma {:induction false} LineInside(ns: seq<Node>, i: nat, tag: Tag, year: int, textTag: Tag, text: string)
    requires Sole(ns, i, tag) && ns[i] == LineNode(tag, YearText(year), textTag, text) && textTag != Year
    ensures LineSays(Inside(ElementsOf(ns), tag), year, textTag, text)
  {
    hide Inside, ElementOf, LineSays, LineNode, YearText;
    SoleIs(ns, i, tag);
    LineRead(tag, year, textTag, text);
  }

  /** The elements of three lists, asked for a name the outer two do not have. */
  lemma {:induction false} OnlyMiddle(a: seq<Node>, b: seq<Node>, c: seq<Node>, tag: Tag)
    requires forall j :: 0 <= j < |a| ==> a[j].tag != tag
    requires forall j :: 0 <= j < |c| ==> c[j].tag != tag
    ensures var es := ElementsOf(a + b + c);
            && Named(es, tag) == Named(ElementsOf(b), tag)
            && Says(es, tag) == Says(ElementsOf(b), tag)
            && Inside(es, tag) == Inside(ElementsOf(b), tag)
  {
    hide Named, ElementOf, TextsOf, KidsOf;
    var ea, eb, ec := ElementsOf(a), ElementsOf(b), ElementsOf(c);
    assert ElementsOf(a + b + c) == ea + eb + ec;
    NamedAppend(ea + eb, ec, tag);
    NamedAppend(ea, eb, tag);
    Absent(a, tag);
    Absent(c, tag);
    assert [] + Named(eb, tag) + [] == Named(eb, tag);
  }

  lemma {:induction false} CreditsRead(a: seq<Node>, cs: seq<Credit>, c: seq<Node>)
    requires forall j :: 0 <= j < |a| ==> a[j].tag != ResourceContributor
    requires forall j :: 0 <= j < |c| ==> c[j].tag != ResourceContributor
    ensures (var found := Named(ElementsOf(a + ContributorNodes(cs) + c), ResourceContributor);
             && |found| == |cs|
             && forall j :: 0 <= j < |cs| ==> CreditSays(found[j], cs[j]))
  {
    hide Named, ElementOf, CreditSays, ContributorNodes;
    var ns := ContributorNodes(cs);
    CreditsAt(cs);
    OnlyMiddle(a, ns, c, ResourceContributor);
    AllNamed(ElementsOf(ns), ResourceContributor);
    forall j | 0 <= j < |cs| ensures CreditSays(ElementsOf(ns)[j], cs[j]) {
      CreditRead(cs[j]);
    }
  }

  lemma {:induction false} Rounded(channels: nat, rate: nat, depth: nat)
    ensures RateSays(Dec((rate * channels * depth + 500) / 1000), channels, rate, depth)
  {
    hide Dec;
    var product := rate * channels * depth;
    assert product == channels * rate * depth;
    var n: nat := (product + 500) / 1000;
    assert -500 <= 1000 * n - product <= 500;
  }

  lemma {:induction false} SpecsRead(a: Asset)
    ensures SpecsSay(ElementsOf(SpecNodes(a)), a)
    ensures Measured(a) ==> |SpecNodes(a)| == if Pcm(a) then 4 else 3
    ensures !Measured(a) ==> SpecNodes(a) == []
  {
    hide Says, ElementOf, Dec, RateSays;
    var ns := SpecNodes(a);
    if Measured(a) {
      var channels, rate, depth := a.channels.value, a.sampleRate.value, a.bitsPerSample.value;
      var i := if Pcm(a) then 1 else 0;
      Rounded(channels, rate, depth);
      SoleText(ns, i, NumberOfChannels, Dec(channels));
      SoleText(ns, i + 1, SamplingRate, Dec(rate));
      SoleText(ns, i + 2, BitsPerSample, Dec(depth));
      if Pcm(a) {
        SoleText(ns, 0, BitRate, Dec((rate * channels * depth + 500) / 1000));
      } else {
        Absent(ns, BitRate);
      }
    } else {
      Absent(ns, BitRate);
      Absent(ns, NumberOfChannels);
      Absent(ns, SamplingRate);
      Absent(ns, BitsPerSample);
    }
  }

  lemma {:induction false} AudioKindRead(contentType: string)
    ensures AudioKind(contentType, AudioCodec(contentType).0, AudioCodec(contentType).1)
  {
  }

  lemma {:induction false} ImageKindRead(contentType: string)
    ensures ImageKind(contentType, ImageCodec(contentType).0, ImageCodec(contentType).1)
  {
  }

  lemma {:induction false} PreviewRead(p: Prepared, t: Track)
    ensures PreviewNodes(p, t) == [] <==> !PreviewShown(p, t)
    ensures PreviewShown(p, t) ==>
              && |PreviewNodes(p, t)| == 1 && PreviewNodes(p, t)[0].tag == PreviewDetails
              && (var es := ElementOf(PreviewNodes(p, t)[0]).kids;
                  && Says(es, StartPoint) == [Dec(p.previewStarts[t.id])]
                  && Says(es, ExpressionType) == ["Instructive"])
  {
    hide Says, ElementOf, Dec;
    if PreviewShown(p, t) {
      var ns := PreviewNodes(p, t)[0].kids;
      Opened(PreviewDetails, ns);
      SoleText(ns, 0, StartPoint, Dec(p.previewStarts[t.id]));
      SoleText(ns, 1, ExpressionType, "Instructive");
    }
  }

  /** The measured values among the other technical details. */
  lemma {:induction false} SpecsAmong(a: seq<Node>, s: Asset, c: seq<Node>)
    requires |a| == 2 && a[0].tag == TechnicalResourceDetailsReference && a[1].tag == AudioCodecType
    requires forall j :: 0 <= j < |c| ==> c[j].tag == PreviewDetails || c[j].tag == File
    ensures SpecsSay(ElementsOf(a + SpecNodes(s) + c), s)
  {
    hide Says, Inside, Named, ElementOf, SpecNodes, RateSays;
    SpecsRead(s);
    OnlyMiddle(a, SpecNodes(s), c, BitRate);
    OnlyMiddle(a, SpecNodes(s), c, NumberOfChannels);
    OnlyMiddle(a, SpecNodes(s), c, SamplingRate);
    OnlyMiddle(a, SpecNodes(s), c, BitsPerSample);
  }

  lemma {:induction false} SpecTags(a: Asset)
    ensures Tags(ElementsOf(SpecNodes(a)))
         == Mark(Measured(a) && a.contentType != "audio/flac", BitRate)
            + (if Measured(a) then [NumberOfChannels, SamplingRate, BitsPerSample] else [])
  {
    hide ElementOf, Dec;
    SpecsRead(a);
    hide SpecsSay;
  }

  /** Reading leaves out what stands behind and is called otherwise. */
  lemma {:induction false} OnlyFirst(a: seq<Node>, b: seq<Node>, tag: Tag)
    requires forall j :: 0 <= j < |b| ==> b[j].tag != tag
    ensures var es := ElementsOf(a + b);
            && Named(es, tag) == Named(ElementsOf(a), tag)
            && Says(es, tag) == Says(ElementsOf(a), tag)
            && Inside(es, tag) == Inside(ElementsOf(a), tag)
  {
    hide Named, ElementOf, Says, Inside;
    assert [] + a + b == a + b;
    OnlyMiddle([], a, b, tag);
  }

  lemma {:induction false} OnlyLast(a: seq<Node>, b: seq<Node>, tag: Tag)
    requires forall j :: 0 <= j < |a| ==> a[j].tag != tag
    ensures var es := ElementsOf(a + b);
            && Named(es, tag) == Named(ElementsOf(b), tag)
            && Says(es, tag) == Says(ElementsOf(b), tag)
            && Inside(es, tag) == Inside(ElementsOf(b), tag)
  {
    hide Named, ElementOf, Says, Inside;
    assert a + b + [] == a + b;
    OnlyMiddle(a, b, [], tag);
  }

  lemma {:induction false} TagsAppend(a: seq<Node>, b: seq<Node>)
    ensures Tags(ElementsOf(a + b)) == Tags(ElementsOf(a)) + Tags(ElementsOf(b))
  {
    hide ElementOf;
  }

  predicate SpecTag(tag: Tag) {
    tag == BitRate || tag == NumberOfChannels || tag == SamplingRate || tag == BitsPerSample
  }

  lemma {:induction false} SpecsAreSpecs(a: Asset)
    ensures forall j :: 0 <= j < |SpecNodes(a)| ==> SpecTag(SpecNodes(a)[j].tag)
  {
    hide Dec;
  }

  lemma {:induction false} TechnicalRead(p: Prepared, t: Track, k: nat)
    ensures TechnicalSays(ElementOf(TechnicalNode(p, t, ARef(k))).kids, p, t, k)
  {
    hide Says, Inside, Named, ElementOf, SpecNodes, SpecsSay, Pad, AudioKind, AudioCodec, FileSays, Dec,
         PreviewShown, Measured, AudioFileName, FileNode, Tags, El;
    var codec, name := AudioCodec(t.audio.contentType).0, AudioFileName(p.upc, t);
    var a, s := TechnicalHead(k, codec), SpecNodes(t.audio);
    var v, f := PreviewNodes(p, t), [FileNode(name, t.audio.sha256)];
    PreviewRead(p, t);
    hide PreviewNodes;
    SpecTags(t.audio);
    HeadRead(k, codec);
    FileIsFile(name, t.audio.sha256);
    TechnicalTags(a, s, v, f);
    TechnicalParts(a, t.audio, v, f, name);
    assert TechnicalNode(p, t, ARef(k)).kids == a + s + v + f by { HeadIs(k, codec); }
    hide TechnicalHead;
    Opened(TechnicalSoundRecordingDetails, a + s + v + f);
    NamedFile(p, t);
  }

  function TechnicalHead(k: nat, codec: string): seq<Node> {
    [El(TechnicalResourceDetailsReference, "TA" + Pad(k, 3)), El(AudioCodecType, codec)]
  }

  lemma {:induction false} HeadIs(k: nat, codec: string)
    ensures TechnicalHead(k, codec)
         == [El(TechnicalResourceDetailsReference, "T" + ARef(k)), El(AudioCodecType, codec)]
  {
    hide Pad;
    assert "T" + ARef(k) == "TA" + Pad(k, 3);
  }

  lemma {:induction false} HeadRead(k: nat, codec: string)
    ensures (var a := TechnicalHead(k, codec);
             && |a| == 2 && a[0].tag == TechnicalResourceDetailsReference && a[1].tag == AudioCodecType
             && Says(ElementsOf(a), TechnicalResourceDetailsReference) == ["TA" + Pad(k, 3)]
             && Says(ElementsOf(a), AudioCodecType) == [codec])
  {
    hide Pad, ElementOf, Says;
    var a := TechnicalHead(k, codec);
    SoleText(a, 0, TechnicalResourceDetailsReference, "TA" + Pad(k, 3));
    SoleText(a, 1, AudioCodecType, codec);
  }

  lemma {:induction false} FileIsFile(name: string, sha256: string)
    ensures FileNode(name, sha256).tag == File
  {
  }

  /** The file is called after the release, the disc and the number of the track. */
  lemma {:induction false} NamedFile(p: Prepared, t: Track)
    ensures exists ending ::
              && AudioKind(t.audio.contentType, AudioCodec(t.audio.contentType).0, ending)
              && AudioFileName(p.upc, t) == p.upc + "_" + Pad(t.disc, 2) + "_" + Pad(t.number, 3) + "." + ending
  {
    hide Pad, AudioKind, AudioCodec;
    AudioKindRead(t.audio.contentType);
  }

  lemma {:induction false} TechnicalTags(a: seq<Node>, n: seq<Node>, v: seq<Node>, f: seq<Node>)
    requires |a| == 2 && a[0].tag == TechnicalResourceDetailsReference && a[1].tag == AudioCodecType
    requires |v| <= 1 && (v != [] ==> v[0].tag == PreviewDetails)
    requires |f| == 1 && f[0].tag == File
    ensures Tags(ElementsOf(a + n + v + f))
         == [TechnicalResourceDetailsReference, AudioCodecType] + Tags(ElementsOf(n))
            + Mark(v != [], PreviewDetails) + [File]
  {
    hide ElementOf;
    TagsAppend(a + n + v, f);
    TagsAppend(a + n, v);
    TagsAppend(a, n);
    assert Tags(ElementsOf(a)) == [TechnicalResourceDetailsReference, AudioCodecType];
    assert Tags(ElementsOf(v)) == Mark(v != [], PreviewDetails);
    assert Tags(ElementsOf(f)) == [File];
    hide Tags;
  }

  lemma {:induction false} TechnicalParts(a: seq<Node>, s: Asset, v: seq<Node>, f: seq<Node>, name: string)
    requires |a| == 2 && a[0].tag == TechnicalResourceDetailsReference && a[1].tag == AudioCodecType
    requires |v| <= 1 && (v != [] ==> v[0].tag == PreviewDetails)
    requires f == [FileNode(name, s.sha256)]
    ensures var es := ElementsOf(a + SpecNodes(s) + v + f);
            && Says(es, TechnicalResourceDetailsReference) == Says(ElementsOf(a), TechnicalResourceDetailsReference)
            && Says(es, AudioCodecType) == Says(ElementsOf(a), AudioCodecType)
            && SpecsSay(es, s)
            && Inside(es, PreviewDetails) == (if v != [] then ElementOf(v[0]).kids else [])
            && FileSays(Inside(es, File), name, s.sha256)
  {
    hide Says, Inside, Named, ElementOf, ElementsOf, SpecNodes, SpecsSay, FileSays;
    var n := SpecNodes(s);
    SpecsAreSpecs(s);
    var rest := n + v + f;
    assert a + n + v + f == a + rest;
    OnlyFirst(a, rest, TechnicalResourceDetailsReference);
    OnlyFirst(a, rest, AudioCodecType);
    assert a + n + v + f == a + n + (v + f);
    SpecsAmong(a, s, v + f);
    PreviewAndFile(a + n, v, f, name, s.sha256);
  }

  lemma {:induction false} PreviewAndFile(a: seq<Node>, v: seq<Node>, f: seq<Node>, name: string, sha256: string)
    requires forall j :: 0 <= j < |a| ==> a[j].tag != PreviewDetails && a[j].tag != File
    requires |v| <= 1 && (v != [] ==> v[0].tag == PreviewDetails)
    requires f == [FileNode(name, sha256)]
    ensures var es := ElementsOf(a + v + f);
            && Inside(es, PreviewDetails) == (if v != [] then ElementOf(v[0]).kids else [])
            && FileSays(Inside(es, File), name, sha256)
  {
    hide Says, Inside, Named, ElementOf, ElementsOf, FileSays;
    OnlyMiddle(a, v, f, PreviewDetails);
    if v != [] {
      SoleIs(v, 0, PreviewDetails);
    } else {
      Absent(v, PreviewDetails);
    }
    OnlyLast(a + v, f, File);
    FileInside(f, 0, name, sha256);
  }

  lemma {:induction false} TitleTag(t: Track)
    ensures TitleNode(t).tag == Title
  {
  }

  lemma {:induction false} TitleInside(ns: seq<Node>, i: nat, t: Track)
    requires Sole(ns, i, Title) && ns[i] == TitleNode(t)
    ensures TitleSays(Inside(ElementsOf(ns), Title), t.title, t.version)
  {
    hide Inside, ElementOf, TitleSays, TitleNode;
    SoleIs(ns, i, Title);
    TitleRead(t);
  }

  lemma {:induction false} ArtistInside(ns: seq<Node>, i: nat, name: string, page: Option<string>)
    requires Sole(ns, i, DisplayArtist) && ns[i] == ArtistNode(name, page)
    ensures ArtistSays(Inside(ElementsOf(ns), DisplayArtist), name, page)
  {
    hide Inside, ElementOf, ArtistSays, ArtistNode;
    SoleIs(ns, i, DisplayArtist);
    ArtistRead(name, page);
  }

  lemma {:induction false} SamePage(c: Config)
    ensures ArtistPage(c) == PageOf(c)
  {
  }

  lemma {:induction false} DetailsHead(p: Prepared, c: Config, t: Track, a: seq<Node>)
    requires a == [El(TerritoryCode, "Worldwide"), TitleNode(t),
                   ArtistNode(t.artist, if t.artist == p.artist then ArtistPage(c) else None)]
    ensures (var es := ElementsOf(a);
             && Tags(es) == [TerritoryCode, Title, DisplayArtist]
             && Says(es, TerritoryCode) == ["Worldwide"]
             && TitleSays(Inside(es, Title), t.title, t.version)
             && ArtistSays(Inside(es, DisplayArtist), t.artist, if t.artist == p.artist then PageOf(c) else None))
  {
    hide Says, Inside, ElementOf, TitleSays, ArtistSays, TitleNode, ArtistNode, ArtistPage, PageOf;
    SamePage(c);
    TitleTag(t);
    ArtistTag(t.artist, if t.artist == p.artist then ArtistPage(c) else None);
    SoleText(a, 0, TerritoryCode, "Worldwide");
    TitleInside(a, 1, t);
    ArtistInside(a, 2, t.artist, if t.artist == p.artist then ArtistPage(c) else None);
  }

  lemma {:induction false} DetailsTail(p: Prepared, t: Track, k: nat, b: seq<Node>)
    requires b == [LineNode(PLine, YearOf(p), PLineText, p.pLine), TechnicalNode(p, t, ARef(k))]
    ensures (var es := ElementsOf(b);
             && Tags(es) == [PLine, TechnicalSoundRecordingDetails]
             && LineSays(Inside(es, PLine), p.releaseDate.year, PLineText, p.pLine)
             && TechnicalSays(Inside(es, TechnicalSoundRecordingDetails), p, t, k))
  {
    hide Says, Inside, ElementOf, LineSays, TechnicalSays, Pad;
    LineInside(b, 0, PLine, p.releaseDate.year, PLineText, p.pLine);
    SoleIs(b, 1, TechnicalSoundRecordingDetails);
    TechnicalRead(p, t, k);
  }

  lemma {:induction false} CreditTags(cs: seq<Credit>)
    ensures Tags(ElementsOf(ContributorNodes(cs))) == seq(|cs|, _ => ResourceContributor)
  {
    hide ElementOf, ContributorNodes;
    CreditsAt(cs);
  }

  lemma {:induction false} DetailsRead(p: Prepared, c: Config, t: Track, k: nat)
    ensures DetailsSay(ElementOf(DetailsNode(p, c, t, ARef(k))).kids, p, c, t, k)
  {
    hide Says, Inside, Named, ElementOf, TitleSays, ArtistSays, LineSays, TechnicalSays, Tags, ContributorNodes,
         TitleNode, ArtistNode, LineNode, TechnicalNode, ARef, CreditSays, El;
    var a := [El(TerritoryCode, "Worldwide"), TitleNode(t),
              ArtistNode(t.artist, if t.artist == p.artist then ArtistPage(c) else None)];
    var cs := CreditsOf(p, t);
    var b := [LineNode(PLine, YearOf(p), PLineText, p.pLine), TechnicalNode(p, t, ARef(k))];
    DetailsHead(p, c, t, a);
    DetailsTail(p, t, k, b);
    DetailsParts(a, cs, b);
    Opened(SoundRecordingDetailsByTerritory, a + ContributorNodes(cs) + b);
  }

  /** What the head and the tail say, they say among the credits. */
  lemma {:induction false} DetailsParts(a: seq<Node>, cs: seq<Credit>, b: seq<Node>)
    requires Tags(ElementsOf(a)) == [TerritoryCode, Title, DisplayArtist]
    requires Tags(ElementsOf(b)) == [PLine, TechnicalSoundRecordingDetails]
    ensures (var es := ElementsOf(a + ContributorNodes(cs) + b);
             && Tags(es) == [TerritoryCode, Title, DisplayArtist] + seq(|cs|, _ => ResourceContributor)
                            + [PLine, TechnicalSoundRecordingDetails]
             && Says(es, TerritoryCode) == Says(ElementsOf(a), TerritoryCode)
             && Inside(es, Title) == Inside(ElementsOf(a), Title)
             && Inside(es, DisplayArtist) == Inside(ElementsOf(a), DisplayArtist)
             && (var found := Named(es, ResourceContributor);
                 |found| == |cs| && forall j :: 0 <= j < |cs| ==> CreditSays(found[j], cs[j]))
             && Inside(es, PLine) == Inside(ElementsOf(b), PLine)
             && Inside(es, TechnicalSoundRecordingDetails)
                == Inside(ElementsOf(b), TechnicalSoundRecordingDetails))
  {
    hide Says, Inside, Named, ElementOf, ElementsOf, Tags, ContributorNodes, CreditSays;
    var n := ContributorNodes(cs);
    CreditsAt(cs);
    CreditTags(cs);
    TagsAre(a, [TerritoryCode, Title, DisplayArtist]);
    TagsAre(b, [PLine, TechnicalSoundRecordingDetails]);
    TagsAppend(a + n, b);
    TagsAppend(a, n);
    CreditsRead(a, cs, b);
    AroundCredits(a, n, b);
  }

  lemma {:induction false} AroundCredits(a: seq<Node>, n: seq<Node>, b: seq<Node>)
    requires forall j :: 0 <= j < |n| ==> n[j].tag == ResourceContributor
    requires |a| == 3 && a[0].tag == TerritoryCode && a[1].tag == Title && a[2].tag == DisplayArtist
    requires |b| == 2 && b[0].tag == PLine && b[1].tag == TechnicalSoundRecordingDetails
    ensures (var es := ElementsOf(a + n + b);
             && Says(es, TerritoryCode) == Says(ElementsOf(a), TerritoryCode)
             && Inside(es, Title) == Inside(ElementsOf(a), Title)
             && Inside(es, DisplayArtist) == Inside(ElementsOf(a), DisplayArtist)
             && Inside(es, PLine) == Inside(ElementsOf(b), PLine)
             && Inside(es, TechnicalSoundRecordingDetails)
                == Inside(ElementsOf(b), TechnicalSoundRecordingDetails))
  {
    hide Says, Inside, Named, ElementOf, ElementsOf;
    assert a + n + b == a + (n + b);
    OnlyFirst(a, n + b, TerritoryCode);
    OnlyFirst(a, n + b, Title);
    OnlyFirst(a, n + b, DisplayArtist);
    OnlyLast(a + n, b, PLine);
    OnlyLast(a + n, b, TechnicalSoundRecordingDetails);
  }

  lemma {:induction false} TagsAre(ns: seq<Node>, tags: seq<Tag>)
    requires Tags(ElementsOf(ns)) == tags
    ensures |ns| == |tags| && forall i :: 0 <= i < |ns| ==> ns[i].tag == tags[i]
  {
    hide ElementOf;
    assert |Tags(ElementsOf(ns))| == |ns|;
    forall i | 0 <= i < |ns| ensures ns[i].tag == tags[i] {
      assert Tags(ElementsOf(ns))[i] == ElementsOf(ns)[i].tag;
    }
  }

  lemma {:induction false} DetailsTag(p: Prepared, c: Config, t: Track, reference: string)
    ensures DetailsNode(p, c, t, reference).tag == SoundRecordingDetailsByTerritory
  {
  }

  lemma {:induction false} RecordingRead(p: Prepared, c: Config, t: Track, k: nat)
    requires t.audio.duration.Some?
    ensures RecordingSays(ElementOf(TrackNode(p, c, t, ARef(k))), p, c, t, k)
  {
    hide Says, Inside, ElementOf, Holds, DetailsSay, Pad, DetailsNode;
    var ns := TrackNode(p, c, t, ARef(k)).kids;
    DetailsTag(p, c, t, ARef(k));
    SoleText(ns, 0, SoundRecordingType, "MusicalWorkSoundRecording");
    OneInside(ns, 1, SoundRecordingId, ISRC, t.isrc);
    SoleText(ns, 2, ResourceReference, ARef(k));
    OneInside(ns, 3, ReferenceTitle, TitleText, t.title);
    SoleText(ns, 4, LanguageOfPerformance, p.language);
    SoleText(ns, 5, Duration, DurationText(t));
    SoleIs(ns, 6, SoundRecordingDetailsByTerritory);
    DetailsRead(p, c, t, k);
    Opened(SoundRecording, ns);
  }

  // ---------------------------------------------------------------- reading the image and the release

  lemma {:induction false} ImageFileRead(p: Prepared)
    ensures ImageFileSays(ElementOf(ImageFileNode(p)).kids, p)
  {
    hide Says, Inside, ElementOf, FileSays, FileNode, ImageCodec, ImageKind;
    var codec, name := ImageCodec(p.artwork.contentType).0, ImageFileName(p.upc, p.artwork.contentType);
    var ns := ImageFileNode(p).kids;
    FileIsFile(name, p.artwork.sha256);
    SoleText(ns, 0, TechnicalResourceDetailsReference, "TI001");
    SoleText(ns, 1, ImageCodecType, codec);
    FileInside(ns, 2, name, p.artwork.sha256);
    ImageKindRead(p.artwork.contentType);
    Opened(TechnicalImageDetails, ns);
  }

  lemma {:induction false} ImageDetailsRead(p: Prepared)
    ensures (var there := ElementOf(ImageDetails(p)).kids;
             && Tags(there) == [TerritoryCode, TechnicalImageDetails]
             && Says(there, TerritoryCode) == ["Worldwide"]
             && ImageFileSays(Inside(there, TechnicalImageDetails), p))
  {
    hide Says, Inside, ElementOf, ImageFileSays;
    var ns := ImageDetails(p).kids;
    SoleText(ns, 0, TerritoryCode, "Worldwide");
    SoleIs(ns, 1, TechnicalImageDetails);
    ImageFileRead(p);
    Opened(ImageDetailsByTerritory, ns);
  }

  lemma {:induction false} ImageRead(p: Prepared, k: nat)
    ensures ImageSays(ElementOf(ImageNode(p, ARef(k))), p, k)
  {
    hide Says, Inside, ElementOf, Holds, Pad, ImageFileSays, ImageFileNode;
    var ns := ImageNode(p, ARef(k)).kids;
    SoleText(ns, 0, ImageType, "FrontCoverImage");
    OneInside(ns, 1, ImageId, ProprietaryId, p.upc + "_IMG_001");
    SoleText(ns, 2, ResourceReference, ARef(k));
    SoleIs(ns, 3, ImageDetailsByTerritory);
    ImageDetailsRead(p);
    Opened(Image, ns);
  }

  lemma {:induction false} TracksAt(p: Prepared, c: Config, ts: seq<Track>)
    requires DurationsKnown(ts)
    ensures forall k :: 0 <= k < |ts| ==> TrackNodes(p, c, ts)[k] == TrackNode(p, c, ts[k], ARef(k + 1))
    decreases |ts|
  {
    hide TrackNode, ARef;
    if ts != [] {
      TracksAt(p, c, ts[..|ts| - 1]);
    }
  }

  lemma {:induction false} ResourcesRead(p: Prepared, c: Config)
    requires DurationsKnown(OrderedTracks(p.tracks))
    ensures ResourcesSay(ElementOf(ResourceListNode(p, c, OrderedTracks(p.tracks))).kids, p, c)
  {
    hide OrderedTracks, TrackNodes, TrackNode, ImageNode, RecordingSays, ImageSays, ElementOf, ARef;
    var ts := OrderedTracks(p.tracks);
    TracksAt(p, c, ts);
    var ns := TrackNodes(p, c, ts) + [ImageNode(p, ARef(|ts| + 1))];
    Opened(ResourceList, ns);
    ImageRead(p, |ts| + 1);
    ImageTag(p, ARef(|ts| + 1));
    forall k | 0 <= k < |ts|
      ensures ElementsOf(ns)[k].tag == SoundRecording
      ensures RecordingSays(ElementsOf(ns)[k], p, c, ts[k], k + 1)
    {
      RecordingRead(p, c, ts[k], k + 1);
      RecordingTag(p, c, ts[k], ARef(k + 1));
    }
  }

  lemma {:induction false} RecordingTag(p: Prepared, c: Config, t: Track, reference: string)
    requires t.audio.duration.Some?
    ensures TrackNode(p, c, t, reference).tag == SoundRecording
  {
  }

  lemma {:induction false} ImageTag(p: Prepared, reference: string)
    ensures ImageNode(p, reference).tag == Image
  {
  }

  lemma {:induction false} ElsAt(tag: Tag, vs: seq<string>)
    ensures |Els(tag, vs)| == |vs|
    ensures forall k :: 0 <= k < |vs| ==> Els(tag, vs)[k] == El(tag, vs[k])
    decreases |vs|
  {
    hide El;
    if vs != [] {
      ElsAt(tag, vs[..|vs| - 1]);
    }
  }

  lemma {:induction false} TextsAre(es: seq<Element>, vs: seq<string>)
    requires |es| == |vs| && forall k :: 0 <= k < |es| ==> es[k].text == vs[k]
    ensures TextsOf(es) == vs
    decreases |es|
  {
    if es != [] {
      TextsAre(es[..|es| - 1], vs[..|es| - 1]);
    }
  }

  lemma {:induction false} ElsRead(tag: Tag, vs: seq<string>)
    ensures (var es := ElementsOf(Els(tag, vs));
             && |es| == |vs| && (forall k :: 0 <= k < |vs| ==> es[k] == Element(tag, vs[k], []))
             && Says(es, tag) == vs)
  {
    hide ElementOf, Els, El, TextsOf, Named;
    ElsAt(tag, vs);
    var es := ElementsOf(Els(tag, vs));
    forall k | 0 <= k < |vs| ensures es[k] == Element(tag, vs[k], []) {
      Spelled(tag, vs[k]);
    }
    AllNamed(es, tag);
    TextsAre(es, vs);
  }

  lemma {:induction false} ReferencesRead(ns: seq<Node>, i: nat, n: nat)
    requires Sole(ns, i, ReleaseResourceReferenceList)
    requires ns[i] == Branch(ReleaseResourceReferenceList, Els(ReleaseResourceReference, ARefs(n)))
    ensures ReferencesSay(Inside(ElementsOf(ns), ReleaseResourceReferenceList), n)
  {
    hide Inside, ElementOf, Els, ARefs;
    SoleIs(ns, i, ReleaseResourceReferenceList);
    ElsRead(ReleaseResourceReference, ARefs(n));
    Opened(ReleaseResourceReferenceList, Els(ReleaseResourceReference, ARefs(n)));
  }

  lemma {:induction false} ReleaseDetailsRead(p: Prepared, c: Config)
    ensures ReleaseDetailsSay(ElementOf(ReleaseDetails(p, c)).kids, p, c)
  {
    hide Says, Inside, ElementOf, ArtistSays, ArtistNode, Iso, ArtistPage, PageOf;
    var ns := ReleaseDetails(p, c).kids;
    SamePage(c);
    ArtistTag(p.artist, ArtistPage(c));
    SoleText(ns, 0, TerritoryCode, "Worldwide");
    SoleText(ns, 1, DisplayArtistName, p.artist);
    ArtistInside(ns, 2, p.artist, ArtistPage(c));
    SoleText(ns, |ns| - 1, ReleaseDate, Iso(p.releaseDate));
    if p.isExplicit {
      SoleText(ns, 3, ParentalWarningType, "Explicit");
    } else {
      Absent(ns, ParentalWarningType);
    }
    Opened(ReleaseDetailsByTerritory, ns);
  }

  lemma {:induction false} ArtistTag(name: string, page: Option<string>)
    ensures ArtistNode(name, page).tag == DisplayArtist
  {
  }

  lemma {:induction false} ReleaseRead(p: Prepared, c: Config)
    requires MetadataValid(p)
    ensures ReleaseSays(ElementOf(ReleaseNode(p, c, |p.tracks|)).kids, p, c)
  {
    hide Says, Inside, ElementOf, Holds, Iso, ReleaseDetailsSay, ReleaseDetails, LineSays, Els, ReferencesSay, ARefs;
    var n := |p.tracks|;
    var ns := ReleaseNode(p, c, n).kids;
    ReleaseDetailsTag(p, c);
    assert p.releaseType in ["SINGLE", "EP", "ALBUM"];
    hide MetadataValid;
    ReleaseHead(p, c, ns);
    ReleaseTail(p, c, ns);
    Opened(Release, ns);
  }

  lemma {:induction false} ReleaseTail(p: Prepared, c: Config, ns: seq<Node>)
    requires ns == ReleaseNode(p, c, |p.tracks|).kids
    ensures (var es := ElementsOf(ns);
             && ReleaseDetailsSay(Inside(es, ReleaseDetailsByTerritory), p, c)
             && LineSays(Inside(es, PLine), p.releaseDate.year, PLineText, p.pLine)
             && LineSays(Inside(es, CLine), p.releaseDate.year, CLineText, p.cLine)
             && Says(es, GlobalOriginalReleaseDate) == [Iso(OriginalDate(p))])
  {
    hide Says, Inside, ElementOf, Iso, ReleaseDetailsSay, ReleaseDetails, LineSays, Els, ARefs, YearText;
    ReleaseDetailsTag(p, c);
    SoleIs(ns, 5, ReleaseDetailsByTerritory);
    ReleaseDetailsRead(p, c);
    LineInside(ns, 6, PLine, p.releaseDate.year, PLineText, p.pLine);
    LineInside(ns, 7, CLine, p.releaseDate.year, CLineText, p.cLine);
    SoleText(ns, 8, GlobalOriginalReleaseDate, Iso(OriginalDate(p)));
  }

  lemma {:induction false} ReleaseDetailsTag(p: Prepared, c: Config)
    ensures ReleaseDetails(p, c).tag == ReleaseDetailsByTerritory
  {
  }

  lemma {:induction false} ReleaseHead(p: Prepared, c: Config, ns: seq<Node>)
    requires ns == ReleaseNode(p, c, |p.tracks|).kids
    ensures (var es := ElementsOf(ns);
             && Holds(es, ReleaseId, ICPN, p.upc)
             && Says(es, ReleaseReference) == ["R001"]
             && Holds(es, ReferenceTitle, TitleText, p.title)
             && ReferencesSay(Inside(es, ReleaseResourceReferenceList), |p.tracks| + 1)
             && Says(es, ReleaseType) == [ReleaseTypeText(p.releaseType)])
  {
    hide Says, Inside, ElementOf, Holds, Iso, ReleaseDetails, Els, ReferencesSay, ARefs, ReleaseTypeText;
    ReleaseDetailsTag(p, c);
    OneInside(ns, 0, ReleaseId, ICPN, p.upc);
    SoleText(ns, 1, ReleaseReference, "R001");
    OneInside(ns, 2, ReferenceTitle, TitleText, p.title);
    ReferencesRead(ns, 3, |p.tracks| + 1);
    SoleText(ns, 4, ReleaseType, ReleaseTypeText(p.releaseType));
  }

  // ---------------------------------------------------------------- reading the deals

  /** The terms of a deal come in seven sections. */
  function Section(tag: Tag): nat {
    if tag == IsPreOrderDeal then 0
    else if tag == CommercialModelType then 1
    else if tag == Usage then 2
    else if tag == TerritoryCode || tag == ExcludedTerritoryCode then 3
    else if tag == PriceInformation then 4
    else if tag == ValidityPeriod then 5
    else 6
  }

  predicate Of(ns: seq<Node>, k: nat) { forall j :: 0 <= j < |ns| ==> Section(ns[j].tag) == k }

  /** The elements of one name are those of its section. */
  predicate SameOf(es: seq<Element>, part: seq<Element>, tag: Tag) {
    Named(es, tag) == Named(part, tag) && Says(es, tag) == Says(part, tag) && Inside(es, tag) == Inside(part, tag)
  }

  lemma {:induction false} FromSection(ps: seq<seq<Node>>, tag: Tag)
    requires |ps| == 7 && forall k :: 0 <= k < 7 ==> Of(ps[k], k)
    requires Section(tag) < 7
    ensures SameOf(ElementsOf(All(ps)), ElementsOf(ps[Section(tag)]), tag)
  {
    hide Named, Says, Inside, ElementOf, ElementsOf, Section, All;
    var k := Section(tag);
    AllSplit(ps, k);
    AllOf(ps[..k], 0, k, tag);
    AllOf(ps[k + 1..], k + 1, k, tag);
    OnlyMiddle(All(ps[..k]), ps[k], All(ps[k + 1..]), tag);
  }

  function All(ps: seq<seq<Node>>): seq<Node> {
    if ps == [] then [] else All(ps[..|ps| - 1]) + ps[|ps| - 1]
  }

  lemma {:induction false} AllSplit(ps: seq<seq<Node>>, k: nat)
    requires k < |ps|
    ensures All(ps) == All(ps[..k]) + ps[k] + All(ps[k + 1..])
    decreases |ps|
  {
    var n := |ps| - 1;
    if k < n {
      AllSplit(ps[..n], k);
      assert ps[..n][..k] == ps[..k];
      assert ps[k + 1..][..n - k - 1] == ps[..n][k + 1..];
      assert All(ps[k + 1..]) == All(ps[..n][k + 1..]) + ps[n];
    } else {
      assert ps[k + 1..] == [];
    }
  }

  lemma {:induction false} AllOf(ps: seq<seq<Node>>, from: nat, k: nat, tag: Tag)
    requires forall i :: 0 <= i < |ps| ==> Of(ps[i], from + i)
    requires k == Section(tag) && (from + |ps| <= k || k < from)
    ensures forall j :: 0 <= j < |All(ps)| ==> All(ps)[j].tag != tag
    decreases |ps|
  {
    hide Section;
    if ps != [] {
      AllOf(ps[..|ps| - 1], from, k, tag);
      assert Of(ps[|ps| - 1], from + |ps| - 1);
    }
  }

  lemma {:induction false} SameOrder(order: seq<Node>, models: seq<Node>, usage: seq<Node>, places: seq<Node>,
                                     price: seq<Node>, period: seq<Node>, preview: seq<Node>)
    ensures All([order, models, usage, places, price, period, preview])
         == order + models + usage + places + price + period + preview
  {
    assert [order, models, usage, places, price, period] + [preview]
        == [order, models, usage, places, price, period, preview];
    Snoc([order, models, usage, places, price, period], preview);
    assert [order, models, usage, places, price] + [period] == [order, models, usage, places, price, period];
    Snoc([order, models, usage, places, price], period);
    assert [order, models, usage, places] + [price] == [order, models, usage, places, price];
    Snoc([order, models, usage, places], price);
    assert [order, models, usage] + [places] == [order, models, usage, places];
    Snoc([order, models, usage], places);
    assert [order, models] + [usage] == [order, models, usage];
    Snoc([order, models], usage);
    assert [order] + [models] == [order, models];
    Snoc([order], models);
    assert [] + [order] == [order];
    Snoc([], order);
    assert [] + order == order;
  }

  lemma {:induction false} Snoc(ps: seq<seq<Node>>, p: seq<Node>)
    ensures All(ps + [p]) == All(ps) + p
  {
    assert (ps + [p])[..|ps|] == ps;
  }

  function Parts(p: Prepared, c: Config, releaseTime: Option<string>, preorder: bool,
                 preStart: Option<string>, end: Option<string>): seq<seq<Node>>
  {
    [If(preorder, [El(IsPreOrderDeal, "true")]),
     Els(CommercialModelType, c.deal.commercialModels),
     [Branch(Usage, Els(UseType, c.deal.useTypes))],
     TerritoryNodes(p.territories),
     PriceNodes(c),
     [PeriodNode(c, releaseTime, preorder, preStart, end)],
     PreviewDates(c, preorder, preStart)]
  }

  lemma {:induction false} PartsInOrder(p: Prepared, c: Config, releaseTime: Option<string>, preorder: bool,
                                        preStart: Option<string>, end: Option<string>)
    ensures forall k :: 0 <= k < 7 ==> Of(Parts(p, c, releaseTime, preorder, preStart, end)[k], k)
  {
    hide PeriodNode, Els;
    var ps := Parts(p, c, releaseTime, preorder, preStart, end);
    ElsAt(CommercialModelType, c.deal.commercialModels);
    PeriodTag(c, releaseTime, preorder, preStart, end);
    PlacesInOrder(p.territories);
    hide TerritoryNodes;
    assert Of(ps[0], 0) && Of(ps[1], 1) && Of(ps[2], 2) && Of(ps[3], 3) && Of(ps[4], 4) && Of(ps[5], 5)
        && Of(ps[6], 6);
  }

  lemma {:induction false} PeriodTag(c: Config, releaseTime: Option<string>, preorder: bool,
                                     preStart: Option<string>, end: Option<string>)
    ensures PeriodNode(c, releaseTime, preorder, preStart, end).tag == ValidityPeriod
  {
  }

  lemma {:induction false} PlacesInOrder(t: Territories)
    ensures Of(TerritoryNodes(t), 3)
  {
    match t
    case Worldwide =>
    case WorldExcept(codes) => ElsAt(ExcludedTerritoryCode, codes);
    case Only(codes) => ElsAt(TerritoryCode, codes);
  }

  lemma {:induction false} PlacesRead(t: Territories)
    ensures PlacesSay(ElementsOf(TerritoryNodes(t)), t)
  {
    hide Says, ElementOf, Els;
    match t
    case Worldwide =>
      SoleText(TerritoryNodes(t), 0, TerritoryCode, "Worldwide");
      Absent(TerritoryNodes(t), ExcludedTerritoryCode);
    case WorldExcept(codes) =>
      ElsRead(ExcludedTerritoryCode, codes);
      ElsAt(ExcludedTerritoryCode, codes);
      Absent(TerritoryNodes(t), TerritoryCode);
    case Only(codes) =>
      ElsRead(TerritoryCode, codes);
      ElsAt(TerritoryCode, codes);
      Absent(TerritoryNodes(t), ExcludedTerritoryCode);
  }

  lemma {:induction false} UsageRead(c: Config)
    ensures (var es := ElementsOf([Branch(Usage, Els(UseType, c.deal.useTypes))]);
             |Named(es, Usage)| == 1 && Says(Inside(es, Usage), UseType) == c.deal.useTypes)
  {
    hide Says, ElementOf, Els, Inside, Named;
    var kids := Els(UseType, c.deal.useTypes);
    SoleIs([Branch(Usage, kids)], 0, Usage);
    Opened(Usage, kids);
    ElsRead(UseType, c.deal.useTypes);
  }

  lemma {:induction false} PriceRead(c: Config)
    ensures (var es := ElementsOf(PriceNodes(c));
             && |Named(es, PriceInformation)| == |Maybe(c.deal.priceRange)|
             && Says(Inside(es, PriceInformation), PriceRangeType) == Maybe(c.deal.priceRange))
  {
    hide Says, ElementOf, Inside, Named;
    if c.deal.priceRange.Some? {
      var price := [El(PriceRangeType, c.deal.priceRange.value)];
      SoleIs(PriceNodes(c), 0, PriceInformation);
      Opened(PriceInformation, price);
      SoleText(price, 0, PriceRangeType, c.deal.priceRange.value);
    } else {
      Absent(PriceNodes(c), PriceInformation);
      Absent([], PriceRangeType);
    }
  }

  lemma {:induction false} PreviewDatesRead(p: Prepared, c: Config, preorder: bool)
    ensures PreviewSays(ElementsOf(PreviewDates(c, preorder, Opening(p, c))), p, c, preorder)
  {
    hide Says, ElementOf, Iso, Opening;
    var ns := PreviewDates(c, preorder, Opening(p, c));
    if Opening(p, c).Some? {
      var day, n := Opening(p, c).value, |ns|;
      SoleText(ns, n - 4, ReleaseDisplayStartDate, day);
      SoleText(ns, n - 3, TrackListingPreviewStartDate, day);
      SoleText(ns, n - 2, CoverArtPreviewStartDate, day);
      SoleText(ns, n - 1, ClipPreviewStartDate, day);
      if preorder {
        SoleText(ns, 0, PreOrderReleaseDate, c.dealStart);
      } else {
        Absent(ns, PreOrderReleaseDate);
      }
    } else {
      Absent(ns, PreOrderReleaseDate);
      Absent(ns, ReleaseDisplayStartDate);
      Absent(ns, TrackListingPreviewStartDate);
      Absent(ns, CoverArtPreviewStartDate);
      Absent(ns, ClipPreviewStartDate);
    }
  }

  lemma {:induction false} EndIsTheLast(p: Prepared, c: Config)
    ensures LastDay(p, c, DealEnd(p, c))
  {
    hide Iso, DealEnd, TextLess;
    ErnDeals.EndIsTheEarlierLimit(p, c);
  }

  lemma {:induction false} PairRead(ns: seq<Node>, startTag: Tag, start: string, endTag: Tag, end: Option<string>)
    requires startTag != endTag && ns == [El(startTag, start)] + IfSome(end, endTag)
    ensures (var es := ElementsOf(ns);
             && Tags(es) == [startTag] + Mark(end.Some?, endTag)
             && Says(es, startTag) == [start] && Says(es, endTag) == Maybe(end))
  {
    hide Says, ElementOf;
    SoleText(ns, 0, startTag, start);
    if end.Some? {
      SoleText(ns, 1, endTag, end.value);
    } else {
      Absent(ns, endTag);
    }
  }

  lemma {:induction false} PeriodRead(p: Prepared, c: Config, preorder: bool)
    ensures PeriodSays(ElementOf(PeriodNode(c, if preorder then None else p.releaseTime, preorder,
                                            Opening(p, c), DealEnd(p, c))).kids, p, c, preorder)
  {
    hide Says, ElementOf, Iso, DealEnd, LastDay, Opening, IfSome, Tags;
    var releaseTime, end := if preorder then None else p.releaseTime, DealEnd(p, c);
    var ns := PeriodNode(c, releaseTime, preorder, Opening(p, c), end).kids;
    Opened(ValidityPeriod, ns);
    EndIsTheLast(p, c);
    if !preorder && p.releaseTime.Some? && !c.subType.Takedown? {
      PairRead(ns, StartDateTime, c.dealStart + "T" + p.releaseTime.value + ":00+09:00", EndDateTime, EndOfDay(end));
    } else {
      PairRead(ns, StartDate, if preorder && Opening(p, c).Some? then Opening(p, c).value else c.dealStart,
               EndDate, end);
    }
  }

  lemma {:induction false} TermsRead(p: Prepared, c: Config, preorder: bool)
    ensures TermsSay(ElementOf(TermsNode(p, c, if preorder then None else p.releaseTime, preorder,
                                         Opening(p, c), DealEnd(p, c))).kids, p, c, preorder)
  {
    hide Says, ElementOf, Inside, Named, Opening, DealEnd, All, Els, PeriodNode, PreviewDates, TerritoryNodes,
         PriceNodes, PeriodSays, PreviewSays, PlacesSay, If, Perhaps, ElementsOf;
    var releaseTime, preStart, end := if preorder then None else p.releaseTime, Opening(p, c), DealEnd(p, c);
    var ps := Parts(p, c, releaseTime, preorder, preStart, end);
    var es := ElementsOf(All(ps));
    SameOrder(ps[0], ps[1], ps[2], ps[3], ps[4], ps[5], ps[6]);
    Opened(DealTerms, All(ps));
    PartsInOrder(p, c, releaseTime, preorder, preStart, end);
    hide Of;
    ModelsAndUse(p, c, preorder, ps);
    PlaceAndPrice(p, c, ps);
    PeriodAmong(p, c, preorder, ps);
    PreviewAmong(p, c, preorder, ps);
  }

  lemma {:induction false} ModelsAndUse(p: Prepared, c: Config, preorder: bool, ps: seq<seq<Node>>)
    requires |ps| == 7 && forall k :: 0 <= k < 7 ==> Of(ps[k], k)
    requires ps[0] == If(preorder, [El(IsPreOrderDeal, "true")])
    requires ps[1] == Els(CommercialModelType, c.deal.commercialModels)
    requires ps[2] == [Branch(Usage, Els(UseType, c.deal.useTypes))]
    ensures (var es := ElementsOf(All(ps));
             && Says(es, IsPreOrderDeal) == Perhaps(preorder, "true")
             && Says(es, CommercialModelType) == c.deal.commercialModels
             && |Named(es, Usage)| == 1
             && Says(Inside(es, Usage), UseType) == c.deal.useTypes)
  {
    hide Says, ElementOf, Inside, Named, All, Els, Of;
    FromSection(ps, IsPreOrderDeal);
    FromSection(ps, CommercialModelType);
    FromSection(ps, Usage);
    if preorder {
      SoleText(ps[0], 0, IsPreOrderDeal, "true");
    } else {
      Absent(ps[0], IsPreOrderDeal);
    }
    ElsRead(CommercialModelType, c.deal.commercialModels);
    UsageRead(c);
  }

  lemma {:induction false} PlaceAndPrice(p: Prepared, c: Config, ps: seq<seq<Node>>)
    requires |ps| == 7 && forall k :: 0 <= k < 7 ==> Of(ps[k], k)
    requires ps[3] == TerritoryNodes(p.territories) && ps[4] == PriceNodes(c)
    ensures (var es := ElementsOf(All(ps));
             && PlacesSay(es, p.territories)
             && |Named(es, PriceInformation)| == |Maybe(c.deal.priceRange)|
             && Says(Inside(es, PriceInformation), PriceRangeType) == Maybe(c.deal.priceRange))
  {
    hide Says, ElementOf, Inside, Named, All, Els, Of, TerritoryNodes, PriceNodes;
    FromSection(ps, TerritoryCode);
    FromSection(ps, ExcludedTerritoryCode);
    FromSection(ps, PriceInformation);
    PlacesRead(p.territories);
    PriceRead(c);
  }

  lemma {:induction false} PeriodAmong(p: Prepared, c: Config, preorder: bool, ps: seq<seq<Node>>)
    requires |ps| == 7 && forall k :: 0 <= k < 7 ==> Of(ps[k], k)
    requires ps[5] == [PeriodNode(c, if preorder then None else p.releaseTime, preorder,
                                  Opening(p, c), DealEnd(p, c))]
    ensures (var es := ElementsOf(All(ps));
             |Named(es, ValidityPeriod)| == 1 && PeriodSays(Inside(es, ValidityPeriod), p, c, preorder))
  {
    hide Says, ElementOf, ElementsOf, Inside, Named, All, Of, PeriodNode, PeriodSays, Opening, DealEnd;
    FromSection(ps, ValidityPeriod);
    PeriodTag(c, if preorder then None else p.releaseTime, preorder, Opening(p, c), DealEnd(p, c));
    SoleIs(ps[5], 0, ValidityPeriod);
    PeriodRead(p, c, preorder);
  }

  lemma {:induction false} PreviewAmong(p: Prepared, c: Config, preorder: bool, ps: seq<seq<Node>>)
    requires |ps| == 7 && forall k :: 0 <= k < 7 ==> Of(ps[k], k)
    requires ps[6] == PreviewDates(c, preorder, Opening(p, c))
    ensures PreviewSays(ElementsOf(All(ps)), p, c, preorder)
  {
    hide Says, ElementOf, ElementsOf, Inside, Named, All, Of, PreviewDates, Opening;
    FromSection(ps, PreOrderReleaseDate);
    FromSection(ps, ReleaseDisplayStartDate);
    FromSection(ps, TrackListingPreviewStartDate);
    FromSection(ps, CoverArtPreviewStartDate);
    FromSection(ps, ClipPreviewStartDate);
    PreviewDatesRead(p, c, preorder);
  }

  lemma {:induction false} DealRead(p: Prepared, c: Config, preorder: bool)
    ensures DealSays(ElementOf(DealNode(p, c, if preorder then None else p.releaseTime, preorder,
                                        Opening(p, c), DealEnd(p, c))), p, c, preorder)
  {
    hide ElementOf, Inside, Opening, DealEnd, TermsSay, TermsNode;
    var terms := TermsNode(p, c, if preorder then None else p.releaseTime, preorder, Opening(p, c), DealEnd(p, c));
    TermsTag(p, c, if preorder then None else p.releaseTime, preorder, Opening(p, c), DealEnd(p, c));
    Opened(Deal, [terms]);
    SoleIs([terms], 0, DealTerms);
    TermsRead(p, c, preorder);
  }

  lemma {:induction false} TermsTag(p: Prepared, c: Config, releaseTime: Option<string>, preorder: bool,
                                    preStart: Option<string>, end: Option<string>)
    ensures TermsNode(p, c, releaseTime, preorder, preStart, end).tag == DealTerms
  {
  }

  lemma {:induction false} DealTag(p: Prepared, c: Config, releaseTime: Option<string>, preorder: bool,
                                   preStart: Option<string>, end: Option<string>)
    ensures DealNode(p, c, releaseTime, preorder, preStart, end).tag == Deal
  {
  }

  lemma {:induction false} DealsRead(p: Prepared, c: Config)
    ensures DealsSay(ElementOf(ReleaseDealNode(p, c)).kids, p, c)
  {
    hide ElementOf, DealEnd, DealSays, DealNode, Iso, TextLess;
    assert PreStart(p, c) == Opening(p, c);
    var ns := ReleaseDealNode(p, c).kids;
    Opened(ReleaseDeal, ns);
    Spelled(DealReleaseReference, "R001");
    DealRead(p, c, false);
    DealRead(p, c, true);
    DealTag(p, c, p.releaseTime, false, PreStart(p, c), DealEnd(p, c));
    DealTag(p, c, None, true, PreStart(p, c), DealEnd(p, c));
  }

  lemma {:induction false} MessageRead(p: Prepared, c: Config)
    requires MetadataValid(p) && DurationsKnown(OrderedTracks(p.tracks))
    ensures MessageSays(ElementOf(MessageNode(p, c)), p, c)
  {
    hide ElementOf, HeaderNode, ResourceListNode, ReleaseNode, ReleaseDealNode, HeaderSays, ResourcesSay,
         ReleaseSays, DealsSay, MetadataValid, OrderedTracks, DurationsKnown;
    var ns := MessageNode(p, c).kids;
    var release, deal := ReleaseNode(p, c, |p.tracks|), ReleaseDealNode(p, c);
    PartTags(p, c);
    Opened(NewReleaseMessage, ns);
    HeaderRead(c);
    Spelled(UpdateIndicator, if c.subType.Initial? then "OriginalMessage" else "UpdateMessage");
    ResourcesRead(p, c);
    Opened(ReleaseList, [release]);
    ReleaseRead(p, c);
    Opened(DealList, [deal]);
    DealsRead(p, c);
  }

  lemma {:induction false} PartTags(p: Prepared, c: Config)
    requires DurationsKnown(OrderedTracks(p.tracks))
    ensures HeaderNode(c).tag == MessageHeader
    ensures ResourceListNode(p, c, OrderedTracks(p.tracks)).tag == ResourceList
    ensures ReleaseNode(p, c, |p.tracks|).tag == Release && ReleaseDealNode(p, c).tag == ReleaseDeal
  {
  }

  /** Every message the writer produces is read as one element that says, in the places of ERN 3.8.2,
      what the release, its tracks in order and the envelope say. */
  lemma {:induction false} ReadBack(p: Prepared, c: Config)
    requires Generated(p, c).Ok?
    ensures Document(Generated(p, c).value).Some?
    ensures MessageSays(Document(Generated(p, c).value).value, p, c)
  {
    hide Document, ElementOf, MessageNode, MessageSays, MetadataValid, ConfigError, DurationsKnown;
    ReadsTheTree(MessageNode(p, c));
    MessageRead(p, c);
  }
}
