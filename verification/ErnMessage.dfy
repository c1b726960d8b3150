/**
  The ERN 3.8.2 `NewReleaseMessage` of `ddex_ern.rs` as an element tree: what each section writer
  puts into the message for a prepared release and an envelope.
*/
module ErnMessage {
  import opened Common
  import opened XmlTree
  import opened Numerals
  import opened IsoDates
  import opened Territory
  import opened CodeLists
  import opened TextBasics
  import opened Roles

  // ---------------------------------------------------------------- inputs

  datatype MessageSubType = Initial | Update | Takedown

  datatype DealProfile = DealProfile(
    commercialModels: seq<string>, useTypes: seq<string>, priceRange: Option<string>)

  datatype Party = Party(id: string, name: string)

  datatype Config = Config(
    deal: DealProfile, messageId: string, threadId: Option<string>, subType: MessageSubType,
    createdAt: string, senderName: string, senderPartyId: Option<string>, onBehalfOf: Option<Party>,
    recipientName: string, recipientPartyId: Option<string>,
    dealStart: string, takedownDate: Option<string>, artistPartyId: Option<string>)

  /** A probed length: its value and the text a floating-point number prints as. */
  datatype Length = Length(secs: real, text: string)

  datatype Asset = Asset(
    contentType: string, sha256: string, duration: Option<Length>,
    sampleRate: Option<nat>, channels: Option<nat>, bitsPerSample: Option<nat>)

  datatype Credit = Credit(name: string, role: string)

  datatype Track = Track(
    id: nat, isrc: string, title: string, version: string, artist: string,
    disc: nat, number: nat, audio: Asset)

  /** `credits` are each track's credits in the order they are written; `codesValid` stands for the
      checks of identifiers, hashes and storage keys. */
  datatype Prepared = Prepared(
    upc: string, title: string, artist: string, releaseType: string, language: string,
    pLine: string, cLine: string, releaseDate: Date, originalReleaseDate: Option<Date>,
    isExplicit: bool, tracks: seq<Track>, credits: map<nat, seq<Credit>>,
    previewStarts: map<nat, nat>, artwork: Asset, territories: Territories,
    releaseTime: Option<string>, preorderStart: Option<Date>, rightsEnd: Option<Date>,
    codesValid: bool)

  // ---------------------------------------------------------------- checks

  /** Characters XML 1.0 allows. */
  predicate XmlChar(c: char) {
    || c == '\t' || c == '\n' || c == '\r'
    || ' ' <= c <= '\U{D7FF}'
    || '\U{E000}' <= c <= '\U{FFFD}'
    || '\U{10000}' <= c
  }

  predicate Required(s: string) {
    !Blank(s) && forall i :: 0 <= i < |s| ==> XmlChar(s[i])
  }

  predicate RequiredIfAny(s: Option<string>) { s.Some? ==> Required(s.value) }

  datatype GenerateError = Invalid | SenderDpidMissing | DurationUnknown

  predicate PositionsDistinct(ts: seq<Track>) {
    forall i, j :: 0 <= i < j < |ts| ==>
      ts[i].id != ts[j].id && (ts[i].disc, ts[i].number) != (ts[j].disc, ts[j].number)
  }

  predicate MetadataValid(p: Prepared) {
    && p.codesValid
    && Required(p.title) && Required(p.artist) && Required(p.language)
    && Required(p.pLine) && Required(p.cLine)
    && p.releaseType in ["SINGLE", "EP", "ALBUM"]
    && 1 <= |p.tracks| <= 1000
    && PositionsDistinct(p.tracks)
    && forall i :: 0 <= i < |p.tracks| ==>
         && p.tracks[i].disc > 0 && p.tracks[i].number > 0
         && Required(p.tracks[i].title) && Required(p.tracks[i].artist)
  }

  function ConfigError(c: Config): Option<GenerateError> {
    if !Required(c.messageId) || !Required(c.createdAt) || !Required(c.senderName)
       || !Required(c.recipientName) || !Required(c.dealStart)
    then Some(Invalid)
    else if !RequiredIfAny(c.recipientPartyId) then Some(Invalid)
    else if c.senderPartyId.None? || !Required(c.senderPartyId.value) then Some(SenderDpidMissing)
    else if c.onBehalfOf.Some? && (!Required(c.onBehalfOf.value.id) || !Required(c.onBehalfOf.value.name))
    then Some(Invalid)
    else if c.subType.Takedown? && (c.takedownDate.None? || !Required(c.takedownDate.value))
    then Some(Invalid)
    else None
  }

  // ---------------------------------------------------------------- order of tracks

  predicate Earlier(a: Track, b: Track) {
    a.disc < b.disc || (a.disc == b.disc && a.number < b.number)
  }

  function InsertTrack(t: Track, ts: seq<Track>): seq<Track> {
    if ts == [] then [t]
    else if Earlier(t, ts[|ts| - 1]) then InsertTrack(t, ts[..|ts| - 1]) + [ts[|ts| - 1]]
    else ts + [t]
  }

  /** Disc, then track number; equal positions keep their order. */
  function OrderedTracks(ts: seq<Track>): (r: seq<Track>)
    ensures |r| == |ts|
    decreases |ts|
  {
    if ts == [] then []
    else
      InsertTrackLength(ts[|ts| - 1], OrderedTracks(ts[..|ts| - 1]));
      InsertTrack(ts[|ts| - 1], OrderedTracks(ts[..|ts| - 1]))
  }

  lemma {:induction false} InsertTrackLength(t: Track, ts: seq<Track>)
    ensures |InsertTrack(t, ts)| == |ts| + 1
    decreases |ts|
  {
    if ts != [] && Earlier(t, ts[|ts| - 1]) {
      InsertTrackLength(t, ts[..|ts| - 1]);
    }
  }

  // ---------------------------------------------------------------- leaves

  function El(tag: Tag, value: string): Node { Leaf(tag, Written(value)) }

  function If(c: bool, ns: seq<Node>): seq<Node> { if c then ns else [] }

  function IfSome(o: Option<string>, tag: Tag): seq<Node> {
    if o.Some? then [El(tag, o.value)] else []
  }

  function Els(tag: Tag, values: seq<string>): seq<Node>
    decreases |values|
  {
    if values == [] then [] else Els(tag, values[..|values| - 1]) + [El(tag, values[|values| - 1])]
  }

  // ---------------------------------------------------------------- header

  function PartyNode(name: string): Node { Branch(PartyName, [El(FullName, name)]) }

  function SenderNode(c: Config): Node {
    Branch(MessageSender, IfSome(c.senderPartyId, PartyId) + [PartyNode(c.senderName)])
  }

  function BehalfNodes(c: Config): seq<Node> {
    if c.onBehalfOf.Some? then
      [Branch(SentOnBehalfOf, [El(PartyId, c.onBehalfOf.value.id), PartyNode(c.onBehalfOf.value.name)])]
    else []
  }

  function RecipientNode(c: Config): Node {
    Branch(MessageRecipient, IfSome(c.recipientPartyId, PartyId) + [PartyNode(c.recipientName)])
  }

  function HeaderNode(c: Config): Node {
    Branch(MessageHeader,
      [El(MessageThreadId, if c.threadId.Some? then c.threadId.value else c.messageId),
       El(MessageId, c.messageId),
       SenderNode(c)]
      + BehalfNodes(c)
      + [RecipientNode(c),
         El(MessageCreatedDateTime, c.createdAt),
         El(MessageControlType, "LiveMessage")])
  }

  function UpdateNode(c: Config): Node {
    El(UpdateIndicator, if c.subType.Initial? then "OriginalMessage" else "UpdateMessage")
  }

  // ---------------------------------------------------------------- resources

  /** `A001`, `A002`, … */
  function ARef(k: nat): string { "A" + Pad(k, 3) }

  function AudioCodec(contentType: string): (string, string) {
    if contentType == "audio/wav" || contentType == "audio/x-wav" then ("PCM", "wav")
    else if contentType == "audio/flac" then ("FLAC", "flac")
    else if contentType == "audio/mpeg" then ("MP3", "mp3")
    else ("Unknown", "bin")
  }

  function ImageCodec(contentType: string): (string, string) {
    if contentType == "image/jpeg" then ("JPEG", "jpg")
    else if contentType == "image/png" then ("PNG", "png")
    else ("Unknown", "bin")
  }

  function AudioFileName(upc: string, t: Track): string {
    upc + "_" + Pad(t.disc, 2) + "_" + Pad(t.number, 3) + "." + AudioCodec(t.audio.contentType).1
  }

  function ImageFileName(upc: string, contentType: string): string {
    upc + "." + ImageCodec(contentType).1
  }

  function FileNode(name: string, sha256: string): Node {
    Branch(File,
      [El(FileName, name), El(FilePath, name),
       Branch(HashSum, [El(HashSum, sha256), El(HashSumAlgorithmType, "UserDefined")])])
  }

  function TitleNode(t: Track): Node {
    Branch(Title, [El(TitleText, t.title)] + If(t.version != "", [El(SubTitle, t.version)]))
  }

  function ArtistNode(name: string, pageId: Option<string>): Node {
    Branch(DisplayArtist, [PartyNode(name)] + IfSome(pageId, PartyId) + [El(ArtistRole, "MainArtist")])
  }

  function ContributorNode(cr: Credit): Node {
    Branch(ResourceContributor,
      [PartyNode(cr.name), El(ResourceContributorRole, ContributorRole(cr.role))])
  }

  function ContributorNodes(cs: seq<Credit>): seq<Node>
    decreases |cs|
  {
    if cs == [] then [] else ContributorNodes(cs[..|cs| - 1]) + [ContributorNode(cs[|cs| - 1])]
  }

  function YearOf(p: Prepared): string { YearText(p.releaseDate.year) }

  function LineNode(tag: Tag, year: string, textTag: Tag, text: string): Node {
    Branch(tag, [El(Year, year), El(textTag, text)])
  }

  predicate Pcm(a: Asset) { a.contentType == "audio/wav" || a.contentType == "audio/x-wav" }

  /** Measured facts: for WAV and FLAC only, all three or none; the bit rate for WAV only. */
  function SpecNodes(a: Asset): seq<Node> {
    if (Pcm(a) || a.contentType == "audio/flac")
       && a.sampleRate.Some? && a.channels.Some? && a.bitsPerSample.Some?
    then
      var kbps := (a.sampleRate.value * a.channels.value * a.bitsPerSample.value + 500) / 1000;
      If(Pcm(a), [El(BitRate, Dec(kbps))])
      + FactNodes(a.channels.value, a.sampleRate.value, a.bitsPerSample.value)
    else []
  }

  function FactNodes(channels: nat, rate: nat, depth: nat): seq<Node> {
    [El(NumberOfChannels, Dec(channels)), El(SamplingRate, Dec(rate)), El(BitsPerSample, Dec(depth))]
  }

  function PreviewNodes(p: Prepared, t: Track): seq<Node> {
    if t.id in p.previewStarts
       && (t.audio.duration.None? || p.previewStarts[t.id] as real < t.audio.duration.value.secs)
    then
      [Branch(PreviewDetails,
         [El(StartPoint, Dec(p.previewStarts[t.id])), El(ExpressionType, "Instructive")])]
    else []
  }

  function TechnicalNode(p: Prepared, t: Track, reference: string): Node {
    Branch(TechnicalSoundRecordingDetails,
      [El(TechnicalResourceDetailsReference, "T" + reference),
       El(AudioCodecType, AudioCodec(t.audio.contentType).0)]
      + SpecNodes(t.audio)
      + PreviewNodes(p, t)
      + [FileNode(AudioFileName(p.upc, t), t.audio.sha256)])
  }

  /** The main artist's page at the recipient. */
  function ArtistPage(c: Config): Option<string> {
    if c.artistPartyId.Some? && c.recipientPartyId.Some? then c.artistPartyId else None
  }

  function TrackCredits(p: Prepared, t: Track): seq<Credit> {
    if t.id in p.credits then p.credits[t.id] else []
  }

  function DetailsNode(p: Prepared, c: Config, t: Track, reference: string): Node {
    Branch(SoundRecordingDetailsByTerritory,
      [El(TerritoryCode, "Worldwide"),
       TitleNode(t),
       ArtistNode(t.artist, if t.artist == p.artist then ArtistPage(c) else None)]
      + ContributorNodes(TrackCredits(p, t))
      + [LineNode(PLine, YearOf(p), PLineText, p.pLine),
         TechnicalNode(p, t, reference)])
  }

  function DurationText(t: Track): string
    requires t.audio.duration.Some?
  {
    "PT" + t.audio.duration.value.text + "S"
  }

  function TrackNode(p: Prepared, c: Config, t: Track, reference: string): Node
    requires t.audio.duration.Some?
  {
    Branch(SoundRecording,
      [El(SoundRecordingType, "MusicalWorkSoundRecording"),
       Branch(SoundRecordingId, [El(ISRC, t.isrc)]),
       El(ResourceReference, reference),
       Branch(ReferenceTitle, [El(TitleText, t.title)]),
       El(LanguageOfPerformance, p.language),
       El(Duration, DurationText(t)),
       DetailsNode(p, c, t, reference)])
  }

  predicate DurationsKnown(ts: seq<Track>) {
    forall i :: 0 <= i < |ts| ==> ts[i].audio.duration.Some?
  }

  function TrackNodes(p: Prepared, c: Config, ts: seq<Track>): (ns: seq<Node>)
    requires DurationsKnown(ts)
    ensures |ns| == |ts|
    decreases |ts|
  {
    if ts == [] then []
    else
      TrackNodes(p, c, ts[..|ts| - 1]) + [TrackNode(p, c, ts[|ts| - 1], ARef(|ts|))]
  }

  function ImageFileNode(p: Prepared): Node {
    Branch(TechnicalImageDetails,
      [El(TechnicalResourceDetailsReference, "TI001"),
       El(ImageCodecType, ImageCodec(p.artwork.contentType).0),
       FileNode(ImageFileName(p.upc, p.artwork.contentType), p.artwork.sha256)])
  }

  function ImageDetails(p: Prepared): Node {
    Branch(ImageDetailsByTerritory, [El(TerritoryCode, "Worldwide"), ImageFileNode(p)])
  }

  function ImageNode(p: Prepared, reference: string): Node {
    Branch(Image,
      [El(ImageType, "FrontCoverImage"),
       Branch(ImageId, [El(ProprietaryId, p.upc + "_IMG_001")]),
       El(ResourceReference, reference),
       ImageDetails(p)])
  }

  function ResourceListNode(p: Prepared, c: Config, ts: seq<Track>): Node
    requires DurationsKnown(ts)
  {
    Branch(ResourceList, TrackNodes(p, c, ts) + [ImageNode(p, ARef(|ts| + 1))])
  }

  // ---------------------------------------------------------------- release

  function ReleaseTypeText(t: string): string {
    if t == "SINGLE" then "Single" else if t == "EP" then "EP" else "Album"
  }

  /** The first `n` A-numbers. */
  function ARefs(n: nat): (rs: seq<string>)
    ensures |rs| == n && forall k :: 0 <= k < n ==> rs[k] == ARef(k + 1)
  {
    if n == 0 then [] else ARefs(n - 1) + [ARef(n)]
  }

  function ReleaseDetails(p: Prepared, c: Config): Node {
    Branch(ReleaseDetailsByTerritory,
      [El(TerritoryCode, "Worldwide"),
       El(DisplayArtistName, p.artist),
       ArtistNode(p.artist, ArtistPage(c))]
      + If(p.isExplicit, [El(ParentalWarningType, "Explicit")])
      + [El(ReleaseDate, Iso(p.releaseDate))])
  }

  function OriginalDate(p: Prepared): Date {
    if p.originalReleaseDate.Some? then p.originalReleaseDate.value else p.releaseDate
  }

  function ReleaseNode(p: Prepared, c: Config, n: nat): Node {
    Branch(Release,
      [Branch(ReleaseId, [El(ICPN, p.upc)]),
       El(ReleaseReference, "R001"),
       Branch(ReferenceTitle, [El(TitleText, p.title)]),
       Branch(ReleaseResourceReferenceList, Els(ReleaseResourceReference, ARefs(n + 1))),
       El(ReleaseType, ReleaseTypeText(p.releaseType)),
       ReleaseDetails(p, c),
       LineNode(PLine, YearOf(p), PLineText, p.pLine),
       LineNode(CLine, YearOf(p), CLineText, p.cLine),
       El(GlobalOriginalReleaseDate, Iso(OriginalDate(p)))])
  }

  // ---------------------------------------------------------------- deals

  /** Start of the pre-release period, when the message has one. */
  function PreStart(p: Prepared, c: Config): Option<string> {
    if p.preorderStart.Some? && !c.subType.Takedown? && TextLess(Iso(p.preorderStart.value), c.dealStart)
    then Some(Iso(p.preorderStart.value))
    else None
  }

  function TextMin(a: string, b: string): string { if TextLess(b, a) then b else a }

  /** Last day of the deal: the licence's, or a takedown's when that is earlier. */
  function DealEnd(p: Prepared, c: Config): Option<string> {
    var licence := if p.rightsEnd.Some? then Some(Iso(p.rightsEnd.value)) else None;
    var takedown := if c.subType.Takedown? then c.takedownDate else None;
    if takedown.Some? && licence.Some? then Some(TextMin(takedown.value, licence.value))
    else if takedown.Some? then takedown
    else licence
  }

  predicate PreOrderDeal(p: Prepared, c: Config) {
    PreStart(p, c).Some? && "PayAsYouGoModel" in c.deal.commercialModels
  }

  function TerritoryNodes(t: Territories): seq<Node> {
    match t
    case Worldwide => [El(TerritoryCode, "Worldwide")]
    case WorldExcept(codes) => Els(ExcludedTerritoryCode, codes)
    case Only(codes) => Els(TerritoryCode, codes)
  }

  function PriceNodes(c: Config): seq<Node> {
    if c.deal.priceRange.Some?
    then [Branch(PriceInformation, [El(PriceRangeType, c.deal.priceRange.value)])]
    else []
  }

  function EndOfDay(end: Option<string>): Option<string> {
    if end.Some? then Some(end.value + "T23:59:59+09:00") else None
  }

  function PeriodNode(c: Config, releaseTime: Option<string>, preorder: bool,
                      preStart: Option<string>, end: Option<string>): Node
  {
    Branch(ValidityPeriod,
      if preorder then
        [El(StartDate, if preStart.Some? then preStart.value else c.dealStart)] + IfSome(end, EndDate)
      else if releaseTime.Some? && !c.subType.Takedown? then
        [El(StartDateTime, c.dealStart + "T" + releaseTime.value + ":00+09:00")]
        + IfSome(EndOfDay(end), EndDateTime)
      else
        [El(StartDate, c.dealStart)] + IfSome(end, EndDate))
  }

  function PreviewDates(c: Config, preorder: bool, preStart: Option<string>): seq<Node> {
    if preStart.Some? then
      If(preorder, [El(PreOrderReleaseDate, c.dealStart)])
      + DisplayNodes(preStart.value)
    else []
  }

  function DisplayNodes(day: string): seq<Node> {
    [El(ReleaseDisplayStartDate, day), El(TrackListingPreviewStartDate, day),
     El(CoverArtPreviewStartDate, day), El(ClipPreviewStartDate, day)]
  }

  function TermsNode(p: Prepared, c: Config, releaseTime: Option<string>, preorder: bool,
                     preStart: Option<string>, end: Option<string>): Node
  {
    Branch(DealTerms,
      If(preorder, [El(IsPreOrderDeal, "true")])
      + Els(CommercialModelType, c.deal.commercialModels)
      + [Branch(Usage, Els(UseType, c.deal.useTypes))]
      + TerritoryNodes(p.territories)
      + PriceNodes(c)
      + [PeriodNode(c, releaseTime, preorder, preStart, end)]
      + PreviewDates(c, preorder, preStart))
  }

  function DealNode(p: Prepared, c: Config, releaseTime: Option<string>, preorder: bool,
                    preStart: Option<string>, end: Option<string>): Node
  {
    Branch(Deal, [TermsNode(p, c, releaseTime, preorder, preStart, end)])
  }

  function MainDeal(p: Prepared, c: Config): Node {
    DealNode(p, c, p.releaseTime, false, PreStart(p, c), DealEnd(p, c))
  }

  function PreDeal(p: Prepared, c: Config): Node {
    DealNode(p, c, None, true, PreStart(p, c), DealEnd(p, c))
  }

  function ReleaseDealNode(p: Prepared, c: Config): Node {
    Branch(ReleaseDeal,
      [El(DealReleaseReference, "R001"), MainDeal(p, c)] + If(PreOrderDeal(p, c), [PreDeal(p, c)]))
  }

  function DealListNode(p: Prepared, c: Config): Node {
    Branch(DealList, [ReleaseDealNode(p, c)])
  }

  // ---------------------------------------------------------------- the message

  function MessageNode(p: Prepared, c: Config): Node
    requires DurationsKnown(OrderedTracks(p.tracks))
  {
    var ts := OrderedTracks(p.tracks);
    Branch(NewReleaseMessage,
      [HeaderNode(c), UpdateNode(c), ResourceListNode(p, c, ts),
       Branch(ReleaseList, [ReleaseNode(p, c, |ts|)]),
       DealListNode(p, c)])
  }

  /** The declaration, then the message. */
  function MessageEvents(p: Prepared, c: Config): seq<Event>
    requires DurationsKnown(OrderedTracks(p.tracks))
  {
    [Misc] + Flatten(MessageNode(p, c))
  }

  function Generated(p: Prepared, c: Config): Result<seq<Event>, GenerateError> {
    if !MetadataValid(p) then Err(Invalid)
    else if ConfigError(c).Some? then Err(ConfigError(c).value)
    else if !DurationsKnown(OrderedTracks(p.tracks)) then Err(DurationUnknown)
    else Ok(MessageEvents(p, c))
  }
}
