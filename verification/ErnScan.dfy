/**
  The single-pass stack scanner of `ddex_validate.rs` and the tree walk it stands for.

  `ScanDocument` is the loop over reader events; `Run` is its meaning as a fold. The main result
  is `ScanIsTreeWalk`: on the events of an element tree whose text sits in leaves, the scanner
  accepts exactly the trees of height at most 64 and returns what a walk over the tree returns.
  `TruncatedIsRefused` says that no proper part of those events is ever accepted as a message.
*/
module ErnScan {
  import opened Common
  import opened XmlTree
  import opened TextBasics

  const MAX_XML_BYTES := 8_000_000
  const MAX_DEPTH := 64

  datatype ReleaseInfo = ReleaseInfo(reference: Option<string>, releaseType: Option<string>)

  const NO_INFO := ReleaseInfo(None, None)

  /** Which sections the root has. */
  datatype Sections = Sections(
    header: bool, releases: bool, resources: bool, deals: bool, updateIndicator: bool)

  datatype HeaderPart = HeaderPart(messageId: Option<string>, created: Option<string>)

  datatype ReleasePart = ReleasePart(count: nat, infos: seq<ReleaseInfo>, referenced: seq<string>)

  datatype ResourcePart = ResourcePart(defined: seq<string>, hasVideo: bool)

  /** The scan record, grouped by the section that fills it. */
  datatype Scan = Scan(
    root: Option<Tag>, has: Sections, header: HeaderPart, releases: ReleasePart,
    resources: ResourcePart, dealRefs: seq<string>)

  const EMPTY_SCAN :=
    Scan(None, Sections(false, false, false, false, false), HeaderPart(None, None),
         ReleasePart(0, [], []), ResourcePart([], false), [])

  datatype ScanError = TooLarge | TooDeep | Malformed | Unclosed(tag: Tag)

  /** Where the scanner stands: the record so far, the open elements and the text last read. */
  datatype State = State(scan: Scan, stack: seq<Tag>, pending: Option<(Tag, string)>)

  // ---------------------------------------------------------------- meaning of one event

  predicate ListParent(stack: seq<Tag>, section: Tag) {
    |stack| == 2 && stack[0] == NewReleaseMessage && stack[1] == section
  }

  function SeeRoot(s: Scan, stack: seq<Tag>, tag: Tag): Scan {
    if stack == [] then s.(root := Some(tag))
    else if |stack| == 1 then SeeSection(s, tag)
    else s
  }

  function SeeSection(s: Scan, tag: Tag): Scan {
    if tag == MessageHeader then s.(has := s.has.(header := true))
    else if tag == ReleaseList then s.(has := s.has.(releases := true))
    else if tag == ResourceList then s.(has := s.has.(resources := true))
    else if tag == DealList then s.(has := s.has.(deals := true))
    else if tag == UpdateIndicator then s.(has := s.has.(updateIndicator := true))
    else s
  }

  function NewRelease(r: ReleasePart): ReleasePart {
    r.(count := r.count + 1, infos := r.infos + [NO_INFO])
  }

  function SeeListed(s: Scan, stack: seq<Tag>, tag: Tag): Scan {
    if tag == Release && ListParent(stack, ReleaseList) then
      s.(releases := NewRelease(s.releases))
    else if tag == Video && ListParent(stack, ResourceList) then
      s.(resources := s.resources.(hasVideo := true))
    else s
  }

  /** An element opens (start tag or self-closing tag). */
  function Opened(s: Scan, stack: seq<Tag>, tag: Tag): Scan {
    SeeListed(SeeRoot(s, stack, tag), stack, tag)
  }

  function SetLast(rs: seq<ReleaseInfo>, reference: Option<string>, releaseType: Option<string>)
    : (r: seq<ReleaseInfo>)
    ensures |r| == |rs|
  {
    if rs == [] then rs
    else
      var i := |rs| - 1;
      rs[i := ReleaseInfo(
                if reference.Some? then reference else rs[i].reference,
                if releaseType.Some? then releaseType else rs[i].releaseType)]
  }

  function HeaderText(h: HeaderPart, tag: Tag, text: string): HeaderPart {
    if tag == MessageId then h.(messageId := Some(text))
    else if tag == MessageCreatedDateTime then h.(created := Some(text))
    else h
  }

  function ReleaseText(r: ReleasePart, tag: Tag, text: string): ReleasePart {
    if tag == ReleaseType then r.(infos := SetLast(r.infos, None, Some(text)))
    else if tag == ReleaseReference then r.(infos := SetLast(r.infos, Some(text), None))
    else if tag == ReleaseResourceReference then r.(referenced := r.referenced + [text])
    else r
  }

  function ResourceText(r: ResourcePart, tag: Tag, text: string): ResourcePart {
    if tag == ResourceReference then r.(defined := r.defined + [text]) else r
  }

  /** Text of element `tag`, read below the open elements `stack`. */
  function Attributed(s: Scan, stack: seq<Tag>, tag: Tag, text: string): Scan {
    if |stack| < 2 || stack[0] != NewReleaseMessage then s
    else if stack[1] == MessageHeader then s.(header := HeaderText(s.header, tag, text))
    else if stack[1] == ReleaseList then s.(releases := ReleaseText(s.releases, tag, text))
    else if stack[1] == ResourceList then s.(resources := ResourceText(s.resources, tag, text))
    else if stack[1] == DealList && tag == DealReleaseReference then
      s.(dealRefs := s.dealRefs + [text])
    else s
  }

  function Step(s: State, e: Event): Result<State, ScanError> {
    match e
    case Fault => Err(Malformed)
    case Start(t) =>
      if |s.stack| >= MAX_DEPTH then Err(TooDeep)
      else Ok(s.(scan := Opened(s.scan, s.stack, t), stack := s.stack + [t]))
    case Empty(t) =>
      if |s.stack| >= MAX_DEPTH then Err(TooDeep)
      else Ok(s.(scan := Opened(s.scan, s.stack, t)))
    case Text(x) =>
      if s.stack != [] && XmlTrim(x) != "" then Ok(s.(pending := Some((s.stack[|s.stack| - 1], XmlTrim(x)))))
      else Ok(s)
    case CData(x) =>
      if s.stack != [] && !Blank(x) then Ok(s.(pending := Some((s.stack[|s.stack| - 1], x)))) else Ok(s)
    case End(_) =>
      var scan := if s.pending.Some?
                  then Attributed(s.scan, s.stack, s.pending.value.0, s.pending.value.1)
                  else s.scan;
      Ok(State(scan, if s.stack == [] then [] else s.stack[..|s.stack| - 1], None))
    case Entity(_) => Ok(s)
    case Misc => Ok(s)
  }

  function Run(s: State, es: seq<Event>): Result<State, ScanError>
    decreases |es|
  {
    if es == [] then Ok(s)
    else
      match Step(s, es[0])
      case Err(e) => Err(e)
      case Ok(t) => Run(t, es[1..])
  }

  const START := State(EMPTY_SCAN, [], None)

  function Finish(r: Result<State, ScanError>): Result<Scan, ScanError> {
    match r
    case Err(e) => Err(e)
    case Ok(s) => if s.stack == [] then Ok(s.scan) else Err(Unclosed(s.stack[|s.stack| - 1]))
  }

  function ScanResult(bytes: nat, es: seq<Event>): Result<Scan, ScanError> {
    if bytes > MAX_XML_BYTES then Err(TooLarge) else Finish(Run(START, es))
  }

  // ---------------------------------------------------------------- the scanner loop

  /** Bookkeeping shared by start and self-closing tags. */
  method OpenElement(scan0: Scan, stack: seq<Tag>, name: Tag) returns (scan: Scan)
    ensures scan == Opened(scan0, stack, name)
  {
    scan := scan0;
    if |stack| == 0 {
      scan := scan.(root := Some(name));
    } else if |stack| == 1 {
      if name == MessageHeader {
        scan := scan.(has := scan.has.(header := true));
      } else if name == ReleaseList {
        scan := scan.(has := scan.has.(releases := true));
      } else if name == ResourceList {
        scan := scan.(has := scan.has.(resources := true));
      } else if name == DealList {
        scan := scan.(has := scan.has.(deals := true));
      } else if name == UpdateIndicator {
        scan := scan.(has := scan.has.(updateIndicator := true));
      }
    }
    if name == Release && ListParent(stack, ReleaseList) {
      var releases := scan.releases;
      scan := scan.(releases := releases.(count := releases.count + 1, infos := releases.infos + [NO_INFO]));
    }
    if name == Video && ListParent(stack, ResourceList) {
      scan := scan.(resources := scan.resources.(hasVideo := true));
    }
  }

  /** The scanner: one pass over the events, its reader set to trim, with an explicit stack, the pending
      text and the growing record. */
  method ScanDocument(bytes: nat, events: seq<Event>) returns (r: Result<Scan, ScanError>)
    ensures r == ScanResult(bytes, events)
  {
    if bytes > MAX_XML_BYTES {
      return Err(TooLarge);
    }
    var scan := EMPTY_SCAN;
    var stack: seq<Tag> := [];
    var pending: Option<(Tag, string)> := None;
    var i := 0;
    while i < |events|
      invariant 0 <= i <= |events|
      invariant Run(START, events) == Run(State(scan, stack, pending), events[i..])
    {
      assert events[i..][0] == events[i] && events[i..][1..] == events[i + 1..];
      match events[i] {
        case Fault =>
          return Err(Malformed);
        case Start(_) | Empty(_) =>
          var name := events[i].tag;
          if |stack| >= MAX_DEPTH {
            return Err(TooDeep);
          }
          scan := OpenElement(scan, stack, name);
          if events[i].Start? {
            stack := stack + [name];
          }
        case Text(x) =>
          var text := XmlTrim(x);
          if stack != [] && text != "" {
            pending := Some((stack[|stack| - 1], text));
          }
        case CData(x) =>
          if stack != [] && !Blank(x) {
            pending := Some((stack[|stack| - 1], x));
          }
        case End(_) =>
          if pending.Some? {
            scan := Attributed(scan, stack, pending.value.0, pending.value.1);
            pending := None;
          }
          if stack != [] {
            stack := stack[..|stack| - 1];
          }
        case Entity(_) =>
        case Misc =>
      }
      i := i + 1;
    }
    if stack != [] {
      return Err(Unclosed(stack[|stack| - 1]));
    }
    return Ok(scan);
  }

  // ---------------------------------------------------------------- runs compose

  lemma {:induction false} RunAppend(s: State, a: seq<Event>, b: seq<Event>)
    ensures Run(s, a + b) ==
            (match Run(s, a) case Err(e) => Err(e) case Ok(t) => Run(t, b))
    decreases |a|
  {
    if a == [] {
      assert a + b == b;
    } else {
      assert (a + b)[0] == a[0] && (a + b)[1..] == a[1..] + b;
      match Step(s, a[0])
      case Err(_) =>
      case Ok(t) => RunAppend(t, a[1..], b);
    }
  }

  lemma {:induction false} RunOne(s: State, e: Event)
    ensures Run(s, [e]) == Step(s, e)
  {
    assert [e][1..] == [];
  }

  lemma {:induction false} RunPieces(s: State, ps: seq<Piece>)
    requires s.stack != [] && s.pending == None
    ensures Run(s, PieceEvents(ps)) ==
            Ok(s.(pending := if LeafText(ps).Some?
                             then Some((s.stack[|s.stack| - 1], LeafText(ps).value)) else None))
    decreases |ps|
  {
    if ps != [] {
      var q := ps[..|ps| - 1];
      RunPieces(s, q);
      RunAppend(s, PieceEvents(q), [PieceEvent(ps[|ps| - 1])]);
      RunOne(Run(s, PieceEvents(q)).value, PieceEvent(ps[|ps| - 1]));
    }
  }

  // ---------------------------------------------------------------- inside a section

  function LastOr(xs: seq<string>, d: Option<string>): Option<string> {
    if xs == [] then d else Some(xs[|xs| - 1])
  }

  /** The texts the scanner looks for, per element name, in document order. */
  datatype Found = Found(
    ids: seq<string>, createds: seq<string>, references: seq<string>, types: seq<string>,
    resources: seq<string>, definitions: seq<string>, deals: seq<string>)
  {
    function Plus(g: Found): Found {
      Found(ids + g.ids, createds + g.createds, references + g.references, types + g.types,
            resources + g.resources, definitions + g.definitions, deals + g.deals)
    }
  }

  const NOTHING := Found([], [], [], [], [], [], [])

  function FoundIn(ns: seq<Node>): Found {
    Found(TextsAll(ns, MessageId), TextsAll(ns, MessageCreatedDateTime),
          TextsAll(ns, ReleaseReference), TextsAll(ns, ReleaseType),
          TextsAll(ns, ReleaseResourceReference), TextsAll(ns, ResourceReference),
          TextsAll(ns, DealReleaseReference))
  }

  function PutHeader(h: HeaderPart, f: Found): HeaderPart {
    HeaderPart(LastOr(f.ids, h.messageId), LastOr(f.createds, h.created))
  }

  function PutReleases(r: ReleasePart, f: Found): ReleasePart {
    ReleasePart(r.count, SetLast(r.infos, LastOr(f.references, None), LastOr(f.types, None)),
                r.referenced + f.resources)
  }

  function PutResources(r: ResourcePart, f: Found): ResourcePart {
    ResourcePart(r.defined + f.definitions, r.hasVideo)
  }

  /** What texts found inside a section add to the record. */
  function Put(s: Scan, section: Tag, f: Found): Scan {
    if section == MessageHeader then s.(header := PutHeader(s.header, f))
    else if section == ReleaseList then s.(releases := PutReleases(s.releases, f))
    else if section == ResourceList then s.(resources := PutResources(s.resources, f))
    else if section == DealList then s.(dealRefs := s.dealRefs + f.deals)
    else s
  }

  function Gather(s: Scan, section: Tag, ns: seq<Node>): Scan {
    Put(s, section, FoundIn(ns))
  }

  lemma {:induction false} PutNothing(s: Scan, section: Tag)
    ensures Put(s, section, NOTHING) == s
  {
    assert s.releases.referenced + [] == s.releases.referenced;
    assert s.resources.defined + [] == s.resources.defined;
    assert s.dealRefs + [] == s.dealRefs;
  }

  lemma {:induction false} PutTwice(s: Scan, section: Tag, f: Found, g: Found)
    ensures Put(Put(s, section, f), section, g) == Put(s, section, f.Plus(g))
  {
    assert PutHeader(PutHeader(s.header, f), g) == PutHeader(s.header, f.Plus(g));
    assert PutReleases(PutReleases(s.releases, f), g) == PutReleases(s.releases, f.Plus(g));
    assert PutResources(PutResources(s.resources, f), g) == PutResources(s.resources, f.Plus(g));
    assert s.dealRefs + (f.deals + g.deals) == s.dealRefs + f.deals + g.deals;
  }

  lemma {:induction false} FoundAppend(a: seq<Node>, b: seq<Node>)
    ensures FoundIn(a + b) == FoundIn(a).Plus(FoundIn(b))
  {
    TextsAppend(a, b, MessageId);
    TextsAppend(a, b, MessageCreatedDateTime);
    TextsAppend(a, b, ReleaseReference);
    TextsAppend(a, b, ReleaseType);
    TextsAppend(a, b, ReleaseResourceReference);
    TextsAppend(a, b, ResourceReference);
    TextsAppend(a, b, DealReleaseReference);
  }

  lemma {:induction false} GatherAppend(s: Scan, section: Tag, a: seq<Node>, b: seq<Node>)
    ensures Gather(Gather(s, section, a), section, b) == Gather(s, section, a + b)
  {
    PutTwice(s, section, FoundIn(a), FoundIn(b));
    FoundAppend(a, b);
  }

  lemma {:induction false} TextsOne(n: Node, tag: Tag)
    ensures TextsAll([n], tag) == Texts(n, tag)
  {
    assert [n][..0] == [];
  }

  lemma {:induction false} FoundOne(n: Node)
    ensures FoundIn([n]) ==
            Found(Texts(n, MessageId), Texts(n, MessageCreatedDateTime), Texts(n, ReleaseReference),
                  Texts(n, ReleaseType), Texts(n, ReleaseResourceReference),
                  Texts(n, ResourceReference), Texts(n, DealReleaseReference))
  {
    forall t ensures TextsAll([n], t) == Texts(n, t) { TextsOne(n, t); }
  }

  predicate Fits(path: seq<Tag>, h: nat) { |path| + h <= MAX_DEPTH }

  function At(scan: Scan, path: seq<Tag>): State { State(scan, path, None) }

  /** What one element adds, wherever it stands inside a section of a message. */
  function Absorb(s: Scan, path: seq<Tag>, n: Node): Scan
    requires |path| >= 2
  {
    if path[0] == NewReleaseMessage then Gather(SeeListed(s, path, n.tag), path[1], [n]) else s
  }

  function AbsorbAll(s: Scan, path: seq<Tag>, ns: seq<Node>): Scan
    requires |path| >= 2
    decreases |ns|
  {
    if ns == [] then s else Absorb(AbsorbAll(s, path, ns[..|ns| - 1]), path, ns[|ns| - 1])
  }

  /** Below the top of a section only texts matter. */
  lemma {:induction false} AbsorbDeep(s: Scan, path: seq<Tag>, ns: seq<Node>)
    requires |path| >= 3
    ensures AbsorbAll(s, path, ns) == if path[0] == NewReleaseMessage then Gather(s, path[1], ns) else s
    decreases |ns|
  {
    if ns == [] {
      PutNothing(s, path[1]);
    } else {
      var q, n := ns[..|ns| - 1], ns[|ns| - 1];
      AbsorbDeep(s, path, q);
      assert ns == q + [n];
      GatherAppend(s, path[1], q, [n]);
    }
  }

  function Only(x: string, t: Tag, tag: Tag): seq<string> { if t == tag then [x] else [] }

  function OneText(t: Tag, x: string): Found {
    Found(Only(x, t, MessageId), Only(x, t, MessageCreatedDateTime), Only(x, t, ReleaseReference),
          Only(x, t, ReleaseType), Only(x, t, ReleaseResourceReference),
          Only(x, t, ResourceReference), Only(x, t, DealReleaseReference))
  }

  lemma {:induction false} FoundLeaf(t: Tag, c: Content)
    ensures FoundIn([Leaf(t, c)])
         == (var x := LeafText(PiecesOf(c)); if x.Some? then OneText(t, x.value) else NOTHING)
  {
    FoundOne(Leaf(t, c));
  }

  lemma {:induction false} PutReleaseText(r: ReleasePart, t: Tag, x: string)
    ensures PutReleases(r, OneText(t, x)) == ReleaseText(r, t, x)
  {
    assert r.referenced + [] == r.referenced;
    assert SetLast(r.infos, None, None) == r.infos;
  }

  lemma {:induction false} PutResourceText(r: ResourcePart, t: Tag, x: string)
    ensures PutResources(r, OneText(t, x)) == ResourceText(r, t, x)
  {
    assert r.defined + [] == r.defined;
  }

  lemma {:induction false} PutText(s: Scan, section: Tag, t: Tag, x: string)
    ensures Put(s, section, OneText(t, x)) == Attributed(s, [NewReleaseMessage, section], t, x)
  {
    PutReleaseText(s.releases, t, x);
    PutResourceText(s.resources, t, x);
    assert PutHeader(s.header, OneText(t, x)) == HeaderText(s.header, t, x);
    assert s.dealRefs + [] == s.dealRefs;
  }

  lemma {:induction false} AttributedLeaf(s: Scan, path: seq<Tag>, t: Tag, c: Content, ps: seq<Piece>)
    requires |path| >= 2 && path[0] == NewReleaseMessage && ps == PiecesOf(c)
    ensures Gather(s, path[1], [Leaf(t, c)])
         == if LeafText(ps).Some? then Attributed(s, path + [t], t, LeafText(ps).value) else s
  {
    FoundLeaf(t, c);
    if LeafText(ps).Some? {
      AttributedBelow(s, path, t, LeafText(ps).value);
      PutText(s, path[1], t, LeafText(ps).value);
    } else {
      PutNothing(s, path[1]);
    }
  }

  /** Only the root and the section decide what a text means. */
  lemma {:induction false} AttributedBelow(s: Scan, path: seq<Tag>, t: Tag, x: string)
    requires |path| >= 2 && path[0] == NewReleaseMessage
    ensures Attributed(s, path + [t], t, x) == Attributed(s, [NewReleaseMessage, path[1]], t, x)
  {
    assert (path + [t])[0] == path[0] && (path + [t])[1] == path[1];
  }

  lemma {:induction false} RunLeaf(s: Scan, path: seq<Tag>, t: Tag, c: Content)
    requires 2 <= |path| < MAX_DEPTH
    ensures Run(At(s, path), Flatten(Leaf(t, c))) == Ok(At(Absorb(s, path, Leaf(t, c)), path))
  {
    var ps := PiecesOf(c);
    var listed := SeeListed(s, path, t);
    var p := path + [t];
    assert p[0] == path[0] && p[..|p| - 1] == path;
    RunAppend(At(s, path), [Start(t)] + PieceEvents(ps), [End(t)]);
    RunAppend(At(s, path), [Start(t)], PieceEvents(ps));
    RunOne(At(s, path), Start(t));
    RunPieces(At(listed, p), ps);
    RunOne(Run(At(listed, p), PieceEvents(ps)).value, End(t));
    if path[0] == NewReleaseMessage {
      AttributedLeaf(listed, path, t, c, ps);
    }
  }

  lemma {:induction false} RunNode(s: Scan, path: seq<Tag>, n: Node)
    requires 2 <= |path| <= MAX_DEPTH
    ensures Run(At(s, path), Flatten(n))
         == if Fits(path, Height(n)) then Ok(At(Absorb(s, path, n), path)) else Err(TooDeep)
    decreases n, 1
  {
    var listed := SeeListed(s, path, n.tag);
    match n
    case Void(t) =>
      RunOne(At(s, path), Empty(t));
      FoundOne(n);
      PutNothing(listed, path[1]);
    case Leaf(t, c) =>
      var ps := PiecesOf(c);
      if Fits(path, 1) {
        RunLeaf(s, path, t, c);
      } else {
        RunAppend(At(s, path), [Start(t)], PieceEvents(ps) + [End(t)]);
        assert Flatten(n) == [Start(t)] + (PieceEvents(ps) + [End(t)]);
        RunOne(At(s, path), Start(t));
      }
    case Branch(t, ks) =>
      var p := path + [t];
      assert p[0] == path[0] && p[1] == path[1] && p[..|p| - 1] == path;
      RunAppend(At(s, path), [Start(t)] + FlattenAll(ks), [End(t)]);
      RunAppend(At(s, path), [Start(t)], FlattenAll(ks));
      RunOne(At(s, path), Start(t));
      if Fits(path, 1) {
        RunNodes(listed, p, ks);
        if Fits(p, HeightAll(ks)) {
          AbsorbDeep(listed, p, ks);
          FoundOne(n);
          RunOne(At(AbsorbAll(listed, p, ks), p), End(t));
        }
      }
  }

  lemma {:induction false} RunNodes(s: Scan, path: seq<Tag>, ns: seq<Node>)
    requires 2 <= |path| <= MAX_DEPTH
    ensures Run(At(s, path), FlattenAll(ns))
         == if Fits(path, HeightAll(ns)) then Ok(At(AbsorbAll(s, path, ns), path)) else Err(TooDeep)
    decreases ns, 0
  {
    if ns != [] {
      var q, n := ns[..|ns| - 1], ns[|ns| - 1];
      RunNodes(s, path, q);
      RunAppend(At(s, path), FlattenAll(q), Flatten(n));
      if Fits(path, HeightAll(q)) {
        RunNode(AbsorbAll(s, path, q), path, n);
      }
    }
  }

  // ---------------------------------------------------------------- the tree walk

  predicate HasTag(ns: seq<Node>, tag: Tag) {
    exists i :: 0 <= i < |ns| && ns[i].tag == tag
  }

  lemma {:induction false} HasTagSnoc(ns: seq<Node>, tag: Tag)
    requires ns != []
    ensures HasTag(ns, tag) == (HasTag(ns[..|ns| - 1], tag) || ns[|ns| - 1].tag == tag)
  {
    if HasTag(ns, tag) {
      var i :| 0 <= i < |ns| && ns[i].tag == tag;
      assert i < |ns| - 1 ==> ns[..|ns| - 1][i].tag == tag;
    }
    if HasTag(ns[..|ns| - 1], tag) {
      var i :| 0 <= i < |ns| - 1 && ns[..|ns| - 1][i].tag == tag;
      assert ns[i].tag == tag;
    }
  }

  function Kids(n: Node): seq<Node> { if n.Branch? then n.kids else [] }

  /** The children of every element called `section` among `ns`, in document order. */
  function SectionKids(ns: seq<Node>, section: Tag): seq<Node>
    decreases |ns|
  {
    if ns == [] then []
    else
      SectionKids(ns[..|ns| - 1], section)
      + (if ns[|ns| - 1].tag == section then Kids(ns[|ns| - 1]) else [])
  }

  function CountTag(ns: seq<Node>, tag: Tag): nat
    decreases |ns|
  {
    if ns == [] then 0
    else CountTag(ns[..|ns| - 1], tag) + (if ns[|ns| - 1].tag == tag then 1 else 0)
  }

  /** The releases among the children of the release lists: each `Release` starts a record, and
      the last type and the last reference read before the next one are its own. */
  function ReleasesFrom(r: ReleasePart, ns: seq<Node>): ReleasePart
    decreases |ns|
  {
    if ns == [] then r
    else
      var before, n := ReleasesFrom(r, ns[..|ns| - 1]), ns[|ns| - 1];
      PutReleases(if n.tag == Release then NewRelease(before) else before, FoundIn([n]))
  }

  const NO_RELEASES := ReleasePart(0, [], [])

  function WalkHeader(ns: seq<Node>): HeaderPart {
    HeaderPart(LastOr(TextsAll(ns, MessageId), None),
               LastOr(TextsAll(ns, MessageCreatedDateTime), None))
  }

  function WalkResources(ns: seq<Node>): ResourcePart {
    ResourcePart(TextsAll(ns, ResourceReference), HasTag(ns, Video))
  }

  /** The record of a message with root `root` and top-level elements `ns`, read off the tree. */
  function WalkKids(root: Tag, ns: seq<Node>): Scan {
    var has := Sections(HasTag(ns, MessageHeader), HasTag(ns, ReleaseList),
                        HasTag(ns, ResourceList), HasTag(ns, DealList), HasTag(ns, UpdateIndicator));
    if root != NewReleaseMessage then EMPTY_SCAN.(root := Some(root), has := has)
    else
      Scan(Some(root), has,
           WalkHeader(SectionKids(ns, MessageHeader)),
           ReleasesFrom(NO_RELEASES, SectionKids(ns, ReleaseList)),
           WalkResources(SectionKids(ns, ResourceList)),
           TextsAll(SectionKids(ns, DealList), DealReleaseReference))
  }

  function Walk(n: Node): Scan { WalkKids(n.tag, Kids(n)) }

  lemma {:induction false} ReleasesAppend(r: ReleasePart, a: seq<Node>, b: seq<Node>)
    ensures ReleasesFrom(ReleasesFrom(r, a), b) == ReleasesFrom(r, a + b)
    decreases |b|
  {
    if b == [] {
      assert a + b == a;
    } else {
      var i := |b| - 1;
      assert (a + b)[..|a + b| - 1] == a + b[..i];
      assert (a + b)[|a + b| - 1] == b[i];
      ReleasesAppend(r, a, b[..i]);
    }
  }

  /** What the release records say: one per `Release` element, and every resource reference. */
  lemma {:induction false} ReleasesMeaning(ns: seq<Node>)
    ensures ReleasesFrom(NO_RELEASES, ns).count == CountTag(ns, Release)
    ensures |ReleasesFrom(NO_RELEASES, ns).infos| == CountTag(ns, Release)
    ensures ReleasesFrom(NO_RELEASES, ns).referenced == TextsAll(ns, ReleaseResourceReference)
    decreases |ns|
  {
    if ns != [] {
      ReleasesMeaning(ns[..|ns| - 1]);
      FoundOne(ns[|ns| - 1]);
    }
  }

  /** The children of a release list by release: each `Release` with what stands before the next one.
      What stands before the first belongs to none. */
  function Groups(ns: seq<Node>): seq<seq<Node>>
    decreases |ns|
  {
    if ns == [] then []
    else
      var g, n := Groups(ns[..|ns| - 1]), ns[|ns| - 1];
      if n.tag == Release then g + [[n]]
      else if g == [] then []
      else g[|g| - 1 := g[|g| - 1] + [n]]
  }

  function Concat(g: seq<seq<Node>>): seq<Node>
    decreases |g|
  {
    if g == [] then [] else Concat(g[..|g| - 1]) + g[|g| - 1]
  }

  /** What stands before the first `Release`. */
  function Before(ns: seq<Node>): seq<Node>
    decreases |ns|
  {
    if ns == [] then []
    else
      var q := ns[..|ns| - 1];
      if HasTag(q, Release) || ns[|ns| - 1].tag == Release then Before(q) else Before(q) + [ns[|ns| - 1]]
  }

  lemma {:induction false} NoTagInNothing(tag: Tag)
    ensures !HasTag([], tag)
  {
  }

  /** The groups are the list from its first `Release` on. */
  lemma {:induction false} GroupsAreTheList(ns: seq<Node>)
    ensures ns == Before(ns) + Concat(Groups(ns))
    ensures forall i :: 0 <= i < |Before(ns)| ==> Before(ns)[i].tag != Release
    ensures Groups(ns) != [] <==> HasTag(ns, Release)
    decreases |ns|
  {
    hide HasTag;
    if ns == [] {
      NoTagInNothing(Release);
    } else {
      var q, n := ns[..|ns| - 1], ns[|ns| - 1];
      GroupsAreTheList(q);
      HasTagSnoc(ns, Release);
      ConcatOneMore(Groups(q), n);
      assert ns == q + [n];
      assert Groups(q) == [] ==> Before(q) + [] == Before(q);
      assert Before(q) + (Concat(Groups(q)) + [n]) == Before(q) + Concat(Groups(q)) + [n];
    }
  }

  lemma {:induction false} ConcatOneMore(g: seq<seq<Node>>, n: Node)
    ensures Concat(g + [[n]]) == Concat(g) + [n]
    ensures g != [] ==> Concat(g[|g| - 1 := g[|g| - 1] + [n]]) == Concat(g) + [n]
  {
    assert (g + [[n]])[..|g|] == g;
    if g != [] {
      var h := g[|g| - 1 := g[|g| - 1] + [n]];
      assert h[..|h| - 1] == g[..|g| - 1];
      assert Concat(g[..|g| - 1]) + (g[|g| - 1] + [n]) == Concat(g[..|g| - 1]) + g[|g| - 1] + [n];
    }
  }

  predicate OneRelease(g: seq<Node>) {
    g != [] && g[0].tag == Release && forall i :: 0 < i < |g| ==> g[i].tag != Release
  }

  /** Each group starts with its `Release` and has no other. */
  lemma {:induction false} GroupsStartWithReleases(ns: seq<Node>)
    ensures forall k :: 0 <= k < |Groups(ns)| ==> OneRelease(Groups(ns)[k])
    decreases |ns|
  {
    if ns != [] {
      var n := ns[|ns| - 1];
      GroupsStartWithReleases(ns[..|ns| - 1]);
      var h := Groups(ns[..|ns| - 1]);
      if h != [] && n.tag != Release {
        assert OneRelease(h[|h| - 1]);
        assert OneRelease(h[|h| - 1] + [n]);
      } else if n.tag == Release {
        assert OneRelease([n]);
      }
      hide OneRelease;
    }
  }

  /** When every child is a `Release`, each is a group of its own. */
  lemma {:induction false} GroupsOfReleases(ns: seq<Node>)
    requires forall i :: 0 <= i < |ns| ==> ns[i].tag == Release
    ensures |Groups(ns)| == |ns| && forall k :: 0 <= k < |ns| ==> Groups(ns)[k] == [ns[k]]
    decreases |ns|
  {
    if ns != [] {
      GroupsOfReleases(ns[..|ns| - 1]);
    }
  }

  function LastText(xs: seq<string>): Option<string> {
    if xs == [] then None else Some(xs[|xs| - 1])
  }

  /** Record `k` has the last reference and the last type read in the `k`-th `Release` and before the
      next one. */
  lemma {:induction false} ReleaseRecords(ns: seq<Node>)
    ensures (var infos, g := ReleasesFrom(NO_RELEASES, ns).infos, Groups(ns);
             && |infos| == |g|
             && forall k :: 0 <= k < |g| ==>
                  && infos[k].reference == LastText(TextsAll(g[k], ReleaseReference))
                  && infos[k].releaseType == LastText(TextsAll(g[k], ReleaseType)))
    decreases |ns|
  {
    hide Texts, FoundIn, PutReleases;
    if ns != [] {
      var q, n := ns[..|ns| - 1], ns[|ns| - 1];
      ReleaseRecords(q);
      RecordsMore(ReleasesFrom(NO_RELEASES, q), Groups(q), n);
    }
  }

  predicate RecordsOf(infos: seq<ReleaseInfo>, g: seq<seq<Node>>) {
    && |infos| == |g|
    && forall k :: 0 <= k < |g| ==>
         && infos[k].reference == LastText(TextsAll(g[k], ReleaseReference))
         && infos[k].releaseType == LastText(TextsAll(g[k], ReleaseType))
  }

  lemma {:induction false} LastTextMore(a: seq<Node>, n: Node, tag: Tag)
    ensures LastText(TextsAll(a + [n], tag)) == LastOr(Texts(n, tag), LastText(TextsAll(a, tag)))
  {
    hide Texts;
    TextsAppend(a, [n], tag);
    TextsOne(n, tag);
  }

  /** One more child: a release opens a record, anything else adds its texts to the last one. */
  lemma {:induction false} RecordsMore(r: ReleasePart, g: seq<seq<Node>>, n: Node)
    requires RecordsOf(r.infos, g)
    ensures RecordsOf(PutReleases(if n.tag == Release then NewRelease(r) else r, FoundIn([n])).infos,
                      if n.tag == Release then g + [[n]] else if g == [] then []
                      else g[|g| - 1 := g[|g| - 1] + [n]])
  {
    hide Texts, TextsAll, LastText, FoundIn;
    FoundOne(n);
    if n.tag == Release {
      NothingLast(n, ReleaseReference);
      NothingLast(n, ReleaseType);
    } else if g != [] {
      LastTextMore(g[|g| - 1], n, ReleaseReference);
      LastTextMore(g[|g| - 1], n, ReleaseType);
    }
  }

  lemma {:induction false} NothingLast(n: Node, tag: Tag)
    ensures LastText(TextsAll([n], tag)) == LastOr(Texts(n, tag), None)
  {
    hide Texts;
    TextsOne(n, tag);
  }

  /** So with releases only, record `k` has the last reference and the last type of the `k`-th. */
  lemma {:induction false} RecordsOfReleases(ns: seq<Node>, k: nat)
    requires (forall i :: 0 <= i < |ns| ==> ns[i].tag == Release) && k < |ns|
    ensures (var infos := ReleasesFrom(NO_RELEASES, ns).infos;
             && |infos| == |ns|
             && infos[k].reference == LastText(Texts(ns[k], ReleaseReference))
             && infos[k].releaseType == LastText(Texts(ns[k], ReleaseType)))
  {
    hide Texts, Groups, ReleasesFrom;
    ReleaseRecords(ns);
    GroupsOfReleases(ns);
    TextsOne(ns[k], ReleaseReference);
    TextsOne(ns[k], ReleaseType);
  }

  lemma {:induction false} HasTagAppend(a: seq<Node>, b: seq<Node>, tag: Tag)
    ensures HasTag(a + b, tag) == (HasTag(a, tag) || HasTag(b, tag))
  {
    if HasTag(a, tag) {
      var i :| 0 <= i < |a| && a[i].tag == tag;
      assert (a + b)[i].tag == tag;
    }
    if HasTag(b, tag) {
      var i :| 0 <= i < |b| && b[i].tag == tag;
      assert (a + b)[|a| + i].tag == tag;
    }
  }

  lemma {:induction false} AbsorbRelease(s: Scan, ns: seq<Node>)
    ensures AbsorbAll(s, [NewReleaseMessage, ReleaseList], ns)
         == s.(releases := ReleasesFrom(s.releases, ns))
    decreases |ns|
  {
    hide FoundIn, SetLast;
    if ns != [] {
      AbsorbRelease(s, ns[..|ns| - 1]);
    }
  }

  lemma {:induction false} AbsorbResource(s: Scan, ns: seq<Node>)
    ensures AbsorbAll(s, [NewReleaseMessage, ResourceList], ns)
         == s.(resources := ResourcePart(s.resources.defined + TextsAll(ns, ResourceReference),
                                         s.resources.hasVideo || HasTag(ns, Video)))
    decreases |ns|
  {
    hide Texts;
    if ns != [] {
      var q, n := ns[..|ns| - 1], ns[|ns| - 1];
      AbsorbResource(s, q);
      HasTagSnoc(ns, Video);
      FoundOne(n);
      assert s.resources.defined + TextsAll(q, ResourceReference) + Texts(n, ResourceReference)
          == s.resources.defined + TextsAll(ns, ResourceReference);
    }
  }

  lemma {:induction false} AbsorbOther(s: Scan, section: Tag, ns: seq<Node>)
    requires section != ReleaseList && section != ResourceList
    ensures AbsorbAll(s, [NewReleaseMessage, section], ns) == Gather(s, section, ns)
    decreases |ns|
  {
    if ns == [] {
      PutNothing(s, section);
    } else {
      hide Put, FoundIn;
      var q, n := ns[..|ns| - 1], ns[|ns| - 1];
      AbsorbOther(s, section, q);
      assert ns == q + [n];
      GatherAppend(s, section, q, [n]);
    }
  }

  /** The children of one section, absorbed one by one. */
  lemma {:induction false} AbsorbSection(s: Scan, section: Tag, ns: seq<Node>)
    ensures AbsorbAll(s, [NewReleaseMessage, section], ns)
         == if section == ReleaseList then s.(releases := ReleasesFrom(s.releases, ns))
            else if section == ResourceList then
              s.(resources := ResourcePart(s.resources.defined + TextsAll(ns, ResourceReference),
                                           s.resources.hasVideo || HasTag(ns, Video)))
            else Gather(s, section, ns)
  {
    if section == ReleaseList {
      AbsorbRelease(s, ns);
    } else if section == ResourceList {
      AbsorbResource(s, ns);
    } else {
      AbsorbOther(s, section, ns);
    }
  }

  lemma {:induction false} AbsorbForeign(s: Scan, path: seq<Tag>, ns: seq<Node>)
    requires |path| >= 2 && path[0] != NewReleaseMessage
    ensures AbsorbAll(s, path, ns) == s
    decreases |ns|
  {
    if ns != [] {
      AbsorbForeign(s, path, ns[..|ns| - 1]);
    }
  }

  lemma {:induction false} HeaderAppend(a: seq<Node>, b: seq<Node>)
    ensures WalkHeader(a + b) == PutHeader(WalkHeader(a), FoundIn(b))
  {
    TextsAppend(a, b, MessageId);
    TextsAppend(a, b, MessageCreatedDateTime);
  }

  lemma {:induction false} ResourcesAppend(a: seq<Node>, b: seq<Node>)
    ensures WalkResources(a + b) ==
            ResourcePart(WalkResources(a).defined + TextsAll(b, ResourceReference),
                         WalkResources(a).hasVideo || HasTag(b, Video))
  {
    TextsAppend(a, b, ResourceReference);
    HasTagAppend(a, b, Video);
  }

  lemma {:induction false} SectionKidsSnoc(ns: seq<Node>, tag: Tag)
    requires ns != []
    ensures SectionKids(ns, tag) ==
            if ns[|ns| - 1].tag == tag then SectionKids(ns[..|ns| - 1], tag) + Kids(ns[|ns| - 1])
            else SectionKids(ns[..|ns| - 1], tag)
  {
  }

  lemma {:induction false} HasSnoc(root: Tag, ns: seq<Node>)
    requires ns != []
    ensures WalkKids(root, ns).has ==
            SeeSection(WalkKids(root, ns[..|ns| - 1]), ns[|ns| - 1].tag).has
  {
    hide HasTag, WalkHeader, WalkResources, ReleasesFrom, SectionKids, TextsAll;
    HasTagSnoc(ns, MessageHeader);
    HasTagSnoc(ns, ReleaseList);
    HasTagSnoc(ns, ResourceList);
    HasTagSnoc(ns, DealList);
    HasTagSnoc(ns, UpdateIndicator);
  }

  /** One more top-level element of a message. */
  lemma {:induction false} WalkSnocMessage(ns: seq<Node>)
    requires ns != []
    ensures var n := ns[|ns| - 1];
            var s := SeeSection(WalkKids(NewReleaseMessage, ns[..|ns| - 1]), n.tag);
            WalkKids(NewReleaseMessage, ns) == AbsorbAll(s, [NewReleaseMessage, n.tag], Kids(n))
  {
    var q, n := ns[..|ns| - 1], ns[|ns| - 1];
    var ks := Kids(n);
    var before := WalkKids(NewReleaseMessage, q);
    var s := SeeSection(before, n.tag);
    var w := WalkKids(NewReleaseMessage, ns);
    HasSnoc(NewReleaseMessage, ns);
    AbsorbSection(s, n.tag, ks);
    SectionKidsSnoc(ns, MessageHeader);
    SectionKidsSnoc(ns, ReleaseList);
    SectionKidsSnoc(ns, ResourceList);
    SectionKidsSnoc(ns, DealList);
    assert w.header == if n.tag == MessageHeader then PutHeader(before.header, FoundIn(ks)) else before.header by {
      HeaderAppend(SectionKids(q, MessageHeader), ks);
    }
    assert w.releases == if n.tag == ReleaseList then ReleasesFrom(before.releases, ks) else before.releases by {
      ReleasesAppend(NO_RELEASES, SectionKids(q, ReleaseList), ks);
    }
    assert n.tag != ResourceList ==> w.resources == before.resources;
    if n.tag == ResourceList {
      ResourcesAppend(SectionKids(q, ResourceList), ks);
    }
    assert w.dealRefs == if n.tag == DealList then before.dealRefs + FoundIn(ks).deals else before.dealRefs by {
      TextsAppend(SectionKids(q, DealList), ks, DealReleaseReference);
    }
  }

  lemma {:induction false} WalkSnoc(root: Tag, ns: seq<Node>)
    requires ns != []
    ensures var n := ns[|ns| - 1];
            var s := SeeSection(WalkKids(root, ns[..|ns| - 1]), n.tag);
            WalkKids(root, ns) == AbsorbAll(s, [root, n.tag], Kids(n))
  {
    if root == NewReleaseMessage {
      WalkSnocMessage(ns);
    } else {
      HasSnoc(root, ns);
      AbsorbForeign(SeeSection(WalkKids(root, ns[..|ns| - 1]), ns[|ns| - 1].tag),
                    [root, ns[|ns| - 1].tag], Kids(ns[|ns| - 1]));
    }
  }

  // ---------------------------------------------------------------- the scan is the walk

  lemma {:induction false} RunTop(s: Scan, root: Tag, n: Node)
    ensures Run(At(s, [root]), Flatten(n))
         == if Fits([root], Height(n))
            then Ok(At(AbsorbAll(SeeSection(s, n.tag), [root, n.tag], Kids(n)), [root]))
            else Err(TooDeep)
  {
    var t, path := SeeSection(s, n.tag), [root, n.tag];
    assert [root] + [n.tag] == path && path[..1] == [root];
    match n
    case Void(g) =>
      RunOne(At(s, [root]), Empty(g));
    case Leaf(g, c) =>
      var ps := PiecesOf(c);
      RunAppend(At(s, [root]), [Start(g)] + PieceEvents(ps), [End(g)]);
      RunAppend(At(s, [root]), [Start(g)], PieceEvents(ps));
      RunOne(At(s, [root]), Start(g));
      RunPieces(At(t, path), ps);
      RunOne(Run(At(t, path), PieceEvents(ps)).value, End(g));
    case Branch(g, ks) =>
      RunAppend(At(s, [root]), [Start(g)] + FlattenAll(ks), [End(g)]);
      RunAppend(At(s, [root]), [Start(g)], FlattenAll(ks));
      RunOne(At(s, [root]), Start(g));
      RunNodes(t, path, ks);
      if Fits(path, HeightAll(ks)) {
        RunOne(At(AbsorbAll(t, path, ks), path), End(g));
      }
  }

  lemma {:induction false} RunTopNext(root: Tag, ns: seq<Node>)
    requires ns != []
    ensures Run(At(WalkKids(root, ns[..|ns| - 1]), [root]), Flatten(ns[|ns| - 1]))
         == if Fits([root], Height(ns[|ns| - 1])) then Ok(At(WalkKids(root, ns), [root]))
            else Err(TooDeep)
  {
    RunTop(WalkKids(root, ns[..|ns| - 1]), root, ns[|ns| - 1]);
    WalkSnoc(root, ns);
  }

  lemma {:induction false} RunTops(s: Scan, root: Tag, ns: seq<Node>)
    requires s == WalkKids(root, [])
    ensures Run(At(s, [root]), FlattenAll(ns))
         == if Fits([root], HeightAll(ns)) then Ok(At(WalkKids(root, ns), [root])) else Err(TooDeep)
    decreases |ns|
  {
    if ns == [] {
      assert FlattenAll(ns) == [];
    } else {
      var q, n := ns[..|ns| - 1], ns[|ns| - 1];
      RunTops(s, root, q);
      RunAppend(At(s, [root]), FlattenAll(q), Flatten(n));
      RunTopNext(root, ns);
      assert HeightAll(ns) == Max(HeightAll(q), Height(n));
    }
  }

  /** The scanner accepts exactly the trees of height at most 64 that fit the size limit, and
      its record is the one a walk over the tree gives. */
  lemma {:induction false} ScanIsTreeWalk(bytes: nat, n: Node)
    ensures ScanResult(bytes, Flatten(n)) ==
            if bytes > 8_000_000 then Err(TooLarge)
            else if Height(n) <= 64 then Ok(Walk(n))
            else Err(TooDeep)
  {
    var s := EMPTY_SCAN.(root := Some(n.tag));
    assert WalkKids(n.tag, []) == s;
    assert [] + [n.tag] == [n.tag] && [n.tag][..0] == [];
    match n
    case Void(t) =>
      RunOne(START, Empty(t));
    case Leaf(t, c) =>
      RootLeaf(s, t, c);
    case Branch(t, ks) =>
      RootBranch(s, t, ks);
  }

  lemma {:induction false} RootLeaf(s: Scan, t: Tag, c: Content)
    requires s == WalkKids(t, []) == EMPTY_SCAN.(root := Some(t))
    ensures Run(START, Flatten(Leaf(t, c))) == Ok(State(s, [], None))
  {
    hide WalkKids;
    var ps := PiecesOf(c);
    assert [] + [t] == [t] && [t][..0] == [];
    RunAppend(START, [Start(t)] + PieceEvents(ps), [End(t)]);
    RunAppend(START, [Start(t)], PieceEvents(ps));
    RunOne(START, Start(t));
    RunPieces(At(s, [t]), ps);
    RunOne(Run(At(s, [t]), PieceEvents(ps)).value, End(t));
  }

  lemma {:induction false} RootBranch(s: Scan, t: Tag, ks: seq<Node>)
    requires s == WalkKids(t, []) == EMPTY_SCAN.(root := Some(t))
    ensures Run(START, Flatten(Branch(t, ks)))
         == if 1 + HeightAll(ks) <= MAX_DEPTH then Ok(State(WalkKids(t, ks), [], None)) else Err(TooDeep)
  {
    hide WalkKids;
    assert [] + [t] == [t] && [t][..0] == [];
    RunAppend(START, [Start(t)] + FlattenAll(ks), [End(t)]);
    RunAppend(START, [Start(t)], FlattenAll(ks));
    RunOne(START, Start(t));
    RunTops(s, t, ks);
    if Fits([t], HeightAll(ks)) {
      RunOne(At(WalkKids(t, ks), [t]), End(t));
    }
  }

  // ---------------------------------------------------------------- truncated documents

  /** Never fewer than `depth` open elements, unless refused. */
  predicate KeepsOpen(r: Result<State, ScanError>, depth: nat) {
    r.Ok? ==> |r.value.stack| >= depth
  }

  lemma {:induction false} ContentKeepsStack(s: State, es: seq<Event>)
    requires forall i :: 0 <= i < |es| ==> es[i].Text? || es[i].CData? || es[i].Entity?
    ensures Run(s, es).Ok? && Run(s, es).value.stack == s.stack
    decreases |es|
  {
    if es != [] {
      ContentKeepsStack(Step(s, es[0]).value, es[1..]);
    }
  }

  /** A whole element closes what it opens; a part of one leaves it open. */
  lemma {:induction false} PartOfNode(s: State, n: Node, k: nat)
    requires 0 < k <= |Flatten(n)|
    ensures KeepsOpen(Run(s, Flatten(n)[..k]), |s.stack| + if k < |Flatten(n)| then 1 else 0)
    decreases n, 1
  {
    match n
    case Void(t) =>
      assert Flatten(n)[..k] == [Empty(t)];
      RunOne(s, Empty(t));
    case Leaf(t, c) =>
      var ps := PiecesOf(c);
      PartOfElement(s, t, PieceEvents(ps), k);
      if |s.stack| < MAX_DEPTH {
        var u := Step(s, Start(t)).value;
        var j := if k - 1 <= |ps| then k - 1 else |ps|;
        ContentKeepsStack(u, PieceEvents(ps)[..j]);
        AfterInner(s, t, PieceEvents(ps), k, j);
      }
    case Branch(t, ks) =>
      PartOfElement(s, t, FlattenAll(ks), k);
      if |s.stack| < MAX_DEPTH {
        var u := Step(s, Start(t)).value;
        var j := if k - 1 <= |FlattenAll(ks)| then k - 1 else |FlattenAll(ks)|;
        PartOfNodes(u, ks, j);
        AfterInner(s, t, FlattenAll(ks), k, j);
      }
  }

  /** Too deep: refused at the opening tag. */
  lemma {:induction false} PartOfElement(s: State, t: Tag, inner: seq<Event>, k: nat)
    requires 0 < k <= |inner| + 2
    ensures |s.stack| >= MAX_DEPTH ==> Run(s, ([Start(t)] + inner + [End(t)])[..k]).Err?
  {
    var es := ([Start(t)] + inner + [End(t)])[..k];
    assert es[0] == Start(t);
  }

  lemma {:induction false} AfterInner(s: State, t: Tag, inner: seq<Event>, k: nat, j: nat)
    requires |s.stack| < MAX_DEPTH && 0 < k <= |inner| + 2
    requires j == if k - 1 <= |inner| then k - 1 else |inner|
    requires KeepsOpen(Run(Step(s, Start(t)).value, inner[..j]), |s.stack| + 1)
    ensures KeepsOpen(Run(s, ([Start(t)] + inner + [End(t)])[..k]),
                      |s.stack| + if k < |inner| + 2 then 1 else 0)
  {
    var es := ([Start(t)] + inner + [End(t)])[..k];
    RunOne(s, Start(t));
    RunAppend(s, [Start(t)], inner[..j]);
    if k <= |inner| + 1 {
      assert es == [Start(t)] + inner[..j];
    } else {
      assert es == [Start(t)] + inner[..j] + [End(t)];
      RunAppend(s, [Start(t)] + inner[..j], [End(t)]);
      if Run(s, [Start(t)] + inner[..j]).Ok? {
        RunOne(Run(s, [Start(t)] + inner[..j]).value, End(t));
      }
    }
  }

  lemma {:induction false} PartOfNodes(s: State, ns: seq<Node>, k: nat)
    requires k <= |FlattenAll(ns)|
    ensures KeepsOpen(Run(s, FlattenAll(ns)[..k]), |s.stack|)
    decreases ns, 0
  {
    if ns != [] {
      var q, n := ns[..|ns| - 1], ns[|ns| - 1];
      var m := |FlattenAll(q)|;
      if k <= m {
        assert FlattenAll(ns)[..k] == FlattenAll(q)[..k];
        PartOfNodes(s, q, k);
      } else {
        assert FlattenAll(ns)[..k] == FlattenAll(q) + Flatten(n)[..k - m];
        assert FlattenAll(q)[..m] == FlattenAll(q);
        PartOfNodes(s, q, m);
        RunAppend(s, FlattenAll(q), Flatten(n)[..k - m]);
        if Run(s, FlattenAll(q)).Ok? {
          PartOfNode(Run(s, FlattenAll(q)).value, n, k - m);
        }
      }
    }
  }

  /** A document cut off anywhere is refused, or (cut off before its root) has no root. */
  lemma {:induction false} TruncatedIsRefused(bytes: nat, n: Node, k: nat)
    requires k < |Flatten(n)|
    ensures ScanResult(bytes, Flatten(n)[..k]).Err?
         || (k == 0 && ScanResult(bytes, Flatten(n)[..k]) == Ok(EMPTY_SCAN))
  {
    if k > 0 {
      PartOfNode(START, n, k);
    }
  }

}
