/**
  XML at the level of reader events, and the element trees those events come from.

  Element names are interned: a name is a number, the names the ERN code mentions are the
  constants below and every larger number is some other name.
*/
module XmlTree {
  import opened Common
  import opened TextBasics

  type Tag = nat

  const NewReleaseMessage: Tag := 0
  const MessageHeader: Tag := 1
  const UpdateIndicator: Tag := 2
  const ResourceList: Tag := 3
  const ReleaseList: Tag := 4
  const DealList: Tag := 5
  const MessageThreadId: Tag := 6
  const MessageId: Tag := 7
  const MessageSender: Tag := 8
  const SentOnBehalfOf: Tag := 9
  const MessageRecipient: Tag := 10
  const PartyId: Tag := 11
  const PartyName: Tag := 12
  const FullName: Tag := 13
  const MessageCreatedDateTime: Tag := 14
  const MessageControlType: Tag := 15
  const SoundRecording: Tag := 16
  const SoundRecordingType: Tag := 17
  const SoundRecordingId: Tag := 18
  const ISRC: Tag := 19
  const ResourceReference: Tag := 20
  const ReferenceTitle: Tag := 21
  const TitleText: Tag := 22
  const LanguageOfPerformance: Tag := 23
  const Duration: Tag := 24
  const SoundRecordingDetailsByTerritory: Tag := 25
  const TerritoryCode: Tag := 26
  const ExcludedTerritoryCode: Tag := 27
  const Title: Tag := 28
  const SubTitle: Tag := 29
  const DisplayArtist: Tag := 30
  const DisplayArtistName: Tag := 31
  const ArtistRole: Tag := 32
  const ResourceContributor: Tag := 33
  const ResourceContributorRole: Tag := 34
  const PLine: Tag := 35
  const CLine: Tag := 36
  const Year: Tag := 37
  const PLineText: Tag := 38
  const CLineText: Tag := 39
  const TechnicalSoundRecordingDetails: Tag := 40
  const TechnicalResourceDetailsReference: Tag := 41
  const AudioCodecType: Tag := 42
  const BitRate: Tag := 43
  const NumberOfChannels: Tag := 44
  const SamplingRate: Tag := 45
  const BitsPerSample: Tag := 46
  const PreviewDetails: Tag := 47
  const StartPoint: Tag := 48
  const ExpressionType: Tag := 49
  const File: Tag := 50
  const FileName: Tag := 51
  const FilePath: Tag := 52
  const HashSum: Tag := 53
  const HashSumAlgorithmType: Tag := 54
  const Image: Tag := 55
  const ImageType: Tag := 56
  const ImageId: Tag := 57
  const ProprietaryId: Tag := 58
  const ImageDetailsByTerritory: Tag := 59
  const TechnicalImageDetails: Tag := 60
  const ImageCodecType: Tag := 61
  const Video: Tag := 62
  const Release: Tag := 63
  const ReleaseId: Tag := 64
  const ICPN: Tag := 65
  const ReleaseReference: Tag := 66
  const ReleaseResourceReferenceList: Tag := 67
  const ReleaseResourceReference: Tag := 68
  const ReleaseType: Tag := 69
  const ReleaseDetailsByTerritory: Tag := 70
  const ParentalWarningType: Tag := 71
  const ReleaseDate: Tag := 72
  const GlobalOriginalReleaseDate: Tag := 73
  const ReleaseDeal: Tag := 74
  const DealReleaseReference: Tag := 75
  const Deal: Tag := 76
  const DealTerms: Tag := 77
  const IsPreOrderDeal: Tag := 78
  const CommercialModelType: Tag := 79
  const Usage: Tag := 80
  const UseType: Tag := 81
  const PriceInformation: Tag := 82
  const PriceRangeType: Tag := 83
  const ValidityPeriod: Tag := 84
  const StartDate: Tag := 85
  const EndDate: Tag := 86
  const StartDateTime: Tag := 87
  const EndDateTime: Tag := 88
  const PreOrderReleaseDate: Tag := 89
  const ReleaseDisplayStartDate: Tag := 90
  const TrackListingPreviewStartDate: Tag := 91
  const CoverArtPreviewStartDate: Tag := 92
  const ClipPreviewStartDate: Tag := 93

  /** What the streaming reader hands out, texts as they stand in the document. `Entity` is a character or
      entity reference with what it resolves to, nothing when it is unknown. `Misc` is everything else
      without a meaning here (declaration, comment, processing instruction, doctype); `Fault` is a
      reader error, a closing tag that does not match the open element included. */
  datatype Event =
    | Start(tag: Tag)
    | Empty(tag: Tag)
    | Text(text: string)
    | CData(text: string)
    | Entity(text: string)
    | End(tag: Tag)
    | Misc
    | Fault

  /** The text content of an element as the reader splits it: references are events of their own. */
  datatype Piece = Chars(text: string) | Section(text: string) | Reference(text: string)

  /** Text content: as found in a document, or as the writer writes a value (escaped). */
  datatype Content = Raw(pieces: seq<Piece>) | Written(value: string)

  datatype Node =
    | Leaf(tag: Tag, content: Content)
    | Branch(tag: Tag, kids: seq<Node>)
    | Void(tag: Tag)

  predicate Special(c: char) {
    c == '&' || c == '<' || c == '>' || c == '"' || c == '\'' || c == '\r'
  }

  /** Length of the run before the first character that is written as a reference. */
  function RunLength(s: string): (n: nat)
    ensures n <= |s|
    ensures forall i :: 0 <= i < n ==> !Special(s[i])
    ensures n < |s| ==> Special(s[n])
  {
    if s == [] || Special(s[0]) then 0 else 1 + RunLength(s[1..])
  }

  /** What the reader hands out for an escaped text: the runs and the references between them. */
  function Pieces(s: string): seq<Piece>
    decreases |s|
  {
    var n := RunLength(s);
    if n == |s| then [Chars(s)]
    else [Chars(s[..n]), Reference([s[n]])] + Pieces(s[n + 1..])
  }

  function PiecesOf(c: Content): seq<Piece> {
    match c
    case Raw(ps) => ps
    case Written(v) => Pieces(v)
  }

  function PieceEvent(p: Piece): Event {
    match p
    case Chars(t) => Text(t)
    case Section(t) => CData(t)
    case Reference(t) => Entity(t)
  }

  function PieceEvents(ps: seq<Piece>): (es: seq<Event>)
    ensures |es| == |ps|
    ensures forall i :: 0 <= i < |es| ==> es[i].Text? || es[i].CData? || es[i].Entity?
  {
    if ps == [] then [] else PieceEvents(ps[..|ps| - 1]) + [PieceEvent(ps[|ps| - 1])]
  }

  /** The events the reader produces for an element. */
  function Flatten(n: Node): (es: seq<Event>)
    ensures |es| >= 1
    decreases n, 1
  {
    match n
    case Leaf(t, c) => [Start(t)] + PieceEvents(PiecesOf(c)) + [End(t)]
    case Branch(t, ks) => [Start(t)] + FlattenAll(ks) + [End(t)]
    case Void(t) => [Empty(t)]
  }

  function FlattenAll(ns: seq<Node>): seq<Event>
    decreases ns, 0
  {
    if ns == [] then [] else FlattenAll(ns[..|ns| - 1]) + Flatten(ns[|ns| - 1])
  }

  function Height(n: Node): (h: nat)
    ensures h >= 1
    decreases n, 1
  {
    match n
    case Leaf(_, _) => 1
    case Branch(_, ks) => 1 + HeightAll(ks)
    case Void(_) => 1
  }

  function HeightAll(ns: seq<Node>): nat
    decreases ns, 0
  {
    if ns == [] then 0 else Max(HeightAll(ns[..|ns| - 1]), Height(ns[|ns| - 1]))
  }

  /** White space of XML, which a reader set to trim takes off both ends of each text. */
  predicate XmlWhite(c: char) { c == ' ' || c == '\t' || c == '\n' || c == '\r' }

  function XmlTrimStart(s: string): (r: string)
    ensures |r| <= |s|
  {
    if s != "" && XmlWhite(s[0]) then XmlTrimStart(s[1..]) else s
  }

  function XmlTrimEnd(s: string): string {
    if s != "" && XmlWhite(s[|s| - 1]) then XmlTrimEnd(s[..|s| - 1]) else s
  }

  function XmlTrim(s: string): string { XmlTrimEnd(XmlTrimStart(s)) }

  /** The text the scanner attributes to a leaf: its last usable piece. */
  function LeafText(ps: seq<Piece>): Option<string> {
    if ps == [] then None
    else
      var p := ps[|ps| - 1];
      if p.Chars? && XmlTrim(p.text) != "" then Some(XmlTrim(p.text))
      else if p.Section? && !Blank(p.text) then Some(p.text)
      else LeafText(ps[..|ps| - 1])
  }

  /** Texts of the leaves called `tag`, at any depth, in document order. */
  function Texts(n: Node, tag: Tag): seq<string>
    decreases n, 1
  {
    match n
    case Leaf(t, c) =>
      if t == tag && LeafText(PiecesOf(c)).Some? then [LeafText(PiecesOf(c)).value] else []
    case Branch(_, ks) => TextsAll(ks, tag)
    case Void(_) => []
  }

  function TextsAll(ns: seq<Node>, tag: Tag): seq<string>
    decreases ns, 0
  {
    if ns == [] then [] else TextsAll(ns[..|ns| - 1], tag) + Texts(ns[|ns| - 1], tag)
  }

  lemma {:induction false} TextsAppend(a: seq<Node>, b: seq<Node>, tag: Tag)
    ensures TextsAll(a + b, tag) == TextsAll(a, tag) + TextsAll(b, tag)
    decreases |b|
  {
    hide Texts;
    if b == [] {
      assert a + b == a;
    } else {
      var i := |b| - 1;
      assert (a + b)[..|a + b| - 1] == a + b[..i];
      TextsAppend(a, b[..i], tag);
      assert (a + b)[|a + b| - 1] == b[i];
      assert (TextsAll(a, tag) + TextsAll(b[..i], tag)) + Texts(b[i], tag)
          == TextsAll(a, tag) + (TextsAll(b[..i], tag) + Texts(b[i], tag));
    }
  }

  lemma {:induction false} FlattenAppend(a: seq<Node>, b: seq<Node>)
    ensures FlattenAll(a + b) == FlattenAll(a) + FlattenAll(b)
    decreases |b|
  {
    hide Flatten;
    if b == [] {
      assert a + b == a;
    } else {
      var i := |b| - 1;
      assert (a + b)[..|a + b| - 1] == a + b[..i];
      FlattenAppend(a, b[..i]);
      assert (a + b)[|a + b| - 1] == b[i];
      assert FlattenAll(a + b) == FlattenAll(a + b[..i]) + Flatten(b[i]);
      assert (FlattenAll(a) + FlattenAll(b[..i])) + Flatten(b[i])
          == FlattenAll(a) + (FlattenAll(b[..i]) + Flatten(b[i]));
    }
  }

  // ---------------------------------------------------------------- what the pieces spell

  function PieceText(p: Piece): string {
    match p
    case Chars(x) => x
    case Section(x) => x
    case Reference(x) => x
  }

  function Joined(ps: seq<Piece>): string
    decreases |ps|
  {
    if ps == [] then "" else Joined(ps[..|ps| - 1]) + PieceText(ps[|ps| - 1])
  }

  lemma {:induction false} JoinedOne(p: Piece)
    ensures Joined([p]) == PieceText(p)
  {
    assert [p][..0] == [];
  }

  lemma {:induction false} JoinedTwo(p: Piece, q: Piece, ps: seq<Piece>)
    ensures Joined([p, q] + ps) == PieceText(p) + PieceText(q) + Joined(ps)
    decreases |ps|
  {
    var all := [p, q] + ps;
    if ps == [] {
      assert all[..1] == [p] && all[..1][..0] == [];
      assert Joined([p]) == PieceText(p);
    } else {
      assert all[..|all| - 1] == [p, q] + ps[..|ps| - 1];
      JoinedTwo(p, q, ps[..|ps| - 1]);
    }
  }

  /** Whatever a value contains, the pieces of its escaped text spell it. */
  lemma {:induction false} PiecesSpell(v: string)
    ensures Joined(Pieces(v)) == v
    decreases |v|
  {
    hide RunLength, Joined;
    var n := RunLength(v);
    if n == |v| {
      JoinedOne(Chars(v));
    } else {
      PiecesSpell(v[n + 1..]);
      JoinedTwo(Chars(v[..n]), Reference([v[n]]), Pieces(v[n + 1..]));
      assert v == v[..n] + [v[n]] + v[n + 1..];
    }
  }
}
