/**
  Reading a document as its recipient does: the elements with their texts, from the events alone.
  `ReadsTheTree` says what is read from the events of a tree.
*/
module ErnRead {
  import opened Common
  import opened XmlTree

  datatype Element = Element(tag: Tag, text: string, kids: seq<Element>)

  /** The open elements, outermost first, and the document when its root is closed. */
  datatype Reading = Reading(open: seq<Element>, root: Option<Element>)

  const NOTHING_OPEN := Reading([], None)

  function Attach(r: Reading, e: Element): Reading {
    if r.open == [] then r.(root := Some(e))
    else
      var top := r.open[|r.open| - 1];
      r.(open := r.open[..|r.open| - 1] + [top.(kids := top.kids + [e])])
  }

  function AddText(r: Reading, x: string): Reading {
    if r.open == [] then r
    else
      var top := r.open[|r.open| - 1];
      r.(open := r.open[..|r.open| - 1] + [top.(text := top.text + x)])
  }

  function Read(r: Reading, e: Event): Reading {
    match e
    case Start(t) => r.(open := r.open + [Element(t, "", [])])
    case Empty(t) => Attach(r, Element(t, "", []))
    case Text(x) => AddText(r, x)
    case CData(x) => AddText(r, x)
    case Entity(x) => AddText(r, x)
    case End(_) =>
      if r.open == [] then r
      else Attach(r.(open := r.open[..|r.open| - 1]), r.open[|r.open| - 1])
    case Misc => r
    case Fault => r
  }

  function ReadAll(r: Reading, es: seq<Event>): Reading
    decreases |es|
  {
    if es == [] then r else Read(ReadAll(r, es[..|es| - 1]), es[|es| - 1])
  }

  /** The root element of a document. */
  function Document(es: seq<Event>): Option<Element> { ReadAll(NOTHING_OPEN, es).root }

  // ---------------------------------------------------------------- asking the elements

  /** The elements called `tag`, in order. */
  function Named(es: seq<Element>, tag: Tag): seq<Element>
    decreases |es|
  {
    if es == [] then []
    else Named(es[..|es| - 1], tag) + (if es[|es| - 1].tag == tag then [es[|es| - 1]] else [])
  }

  function TextsOf(es: seq<Element>): seq<string>
    decreases |es|
  {
    if es == [] then [] else TextsOf(es[..|es| - 1]) + [es[|es| - 1].text]
  }

  function KidsOf(es: seq<Element>): seq<Element>
    decreases |es|
  {
    if es == [] then [] else KidsOf(es[..|es| - 1]) + es[|es| - 1].kids
  }

  /** The texts of the elements called `tag`. */
  function Says(es: seq<Element>, tag: Tag): seq<string> { TextsOf(Named(es, tag)) }

  /** What stands inside the elements called `tag`. */
  function Inside(es: seq<Element>, tag: Tag): seq<Element> { KidsOf(Named(es, tag)) }

  /** Exactly one element is called `tag`, at position `i`. */
  predicate OnlyAt(es: seq<Element>, i: nat, tag: Tag) {
    i < |es| && es[i].tag == tag && forall j :: 0 <= j < |es| && j != i ==> es[j].tag != tag
  }

  lemma {:induction false} NoneNamed(es: seq<Element>, tag: Tag)
    requires forall j :: 0 <= j < |es| ==> es[j].tag != tag
    ensures Named(es, tag) == [] && Says(es, tag) == [] && Inside(es, tag) == []
    decreases |es|
  {
    if es != [] {
      NoneNamed(es[..|es| - 1], tag);
    }
  }

  lemma {:induction false} One(es: seq<Element>, i: nat, tag: Tag)
    requires OnlyAt(es, i, tag)
    ensures Named(es, tag) == [es[i]] && Says(es, tag) == [es[i].text] && Inside(es, tag) == es[i].kids
    decreases |es|
  {
    var q := es[..|es| - 1];
    assert [es[i]][..0] == [];
    if i == |es| - 1 {
      NoneNamed(q, tag);
    } else {
      One(q, i, tag);
    }
  }

  lemma {:induction false} NamedAppend(a: seq<Element>, b: seq<Element>, tag: Tag)
    ensures Named(a + b, tag) == Named(a, tag) + Named(b, tag)
    decreases |b|
  {
    if b == [] {
      assert a + b == a;
    } else {
      var i := |b| - 1;
      assert (a + b)[..|a + b| - 1] == a + b[..i];
      assert (a + b)[|a + b| - 1] == b[i];
      NamedAppend(a, b[..i], tag);
    }
  }

  /** All elements are called `tag`. */
  lemma {:induction false} AllNamed(es: seq<Element>, tag: Tag)
    requires forall j :: 0 <= j < |es| ==> es[j].tag == tag
    ensures Named(es, tag) == es
    decreases |es|
  {
    if es != [] {
      AllNamed(es[..|es| - 1], tag);
    }
  }

  // ---------------------------------------------------------------- the elements of a tree

  function ElementOf(n: Node): (e: Element)
    ensures e.tag == n.tag
    decreases n, 1
  {
    match n
    case Leaf(t, c) => Element(t, Joined(PiecesOf(c)), [])
    case Branch(t, ks) => Element(t, "", ElementsOf(ks))
    case Void(t) => Element(t, "", [])
  }

  function ElementsOf(ns: seq<Node>): (es: seq<Element>)
    ensures |es| == |ns| && forall i :: 0 <= i < |ns| ==> es[i] == ElementOf(ns[i])
    decreases ns, 0
  {
    if ns == [] then [] else ElementsOf(ns[..|ns| - 1]) + [ElementOf(ns[|ns| - 1])]
  }

  lemma {:induction false} ReadAppend(r: Reading, a: seq<Event>, b: seq<Event>)
    ensures ReadAll(r, a + b) == ReadAll(ReadAll(r, a), b)
    decreases |b|
  {
    hide Read;
    if b == [] {
      assert a + b == a;
    } else {
      var i := |b| - 1;
      assert (a + b)[..|a + b| - 1] == a + b[..i];
      assert (a + b)[|a + b| - 1] == b[i];
      ReadAppend(r, a, b[..i]);
    }
  }

  lemma {:induction false} ReadOne(r: Reading, e: Event)
    ensures ReadAll(r, [e]) == Read(r, e)
  {
    assert [e][..0] == [];
  }

  /** Between its tags an element is on top. */
  function With(r: Reading, e: Element): Reading { r.(open := r.open + [e]) }

  lemma {:induction false} ReadPieces(r: Reading, e: Element, ps: seq<Piece>)
    ensures ReadAll(With(r, e), PieceEvents(ps)) == With(r, e.(text := e.text + Joined(ps)))
    decreases |ps|
  {
    if ps == [] {
      assert e.text + "" == e.text;
    } else {
      var q, x := ps[..|ps| - 1], ps[|ps| - 1];
      ReadPieces(r, e, q);
      ReadAppend(With(r, e), PieceEvents(q), [PieceEvent(x)]);
      ReadOne(ReadAll(With(r, e), PieceEvents(q)), PieceEvent(x));
      ReadPiece(r, e.(text := e.text + Joined(q)), x);
      assert (e.text + Joined(q)) + PieceText(x) == e.text + (Joined(q) + PieceText(x));
    }
  }

  lemma {:induction false} ReadPiece(r: Reading, e: Element, p: Piece)
    ensures Read(With(r, e), PieceEvent(p)) == With(r, e.(text := e.text + PieceText(p)))
  {
    assert (r.open + [e])[..|r.open|] == r.open;
  }

  lemma {:induction false} CloseTop(r: Reading, e: Element, t: Tag)
    ensures Read(With(r, e), End(t)) == Attach(r, e)
  {
    assert (r.open + [e])[..|r.open|] == r.open;
  }

  lemma {:induction false} ReadNode(r: Reading, n: Node)
    ensures ReadAll(r, Flatten(n)) == Attach(r, ElementOf(n))
    decreases n, 1
  {
    hide ReadAll, Attach, PieceEvents, PiecesOf, Joined;
    match n
    case Leaf(t, c) =>
      var ps := PiecesOf(c);
      ReadAppend(r, [Start(t)] + PieceEvents(ps), [End(t)]);
      ReadAppend(r, [Start(t)], PieceEvents(ps));
      ReadOne(r, Start(t));
      ReadPieces(r, Element(t, "", []), ps);
      ReadOne(With(r, ElementOf(n)), End(t));
      CloseTop(r, ElementOf(n), t);
      assert "" + Joined(ps) == Joined(ps);
    case Void(t) => ReadOne(r, Empty(t));
    case Branch(t, ks) =>
      ReadAppend(r, [Start(t)] + FlattenAll(ks), [End(t)]);
      ReadAppend(r, [Start(t)], FlattenAll(ks));
      ReadOne(r, Start(t));
      ReadNodes(r, Element(t, "", []), ks);
      ReadOne(With(r, ElementOf(n)), End(t));
      CloseTop(r, ElementOf(n), t);
      assert [] + ElementsOf(ks) == ElementsOf(ks);
  }

  lemma {:induction false} ReadNodes(r: Reading, e: Element, ns: seq<Node>)
    ensures ReadAll(With(r, e), FlattenAll(ns)) == With(r, e.(kids := e.kids + ElementsOf(ns)))
    decreases ns, 0
  {
    if ns == [] {
      assert e.kids + [] == e.kids;
    } else {
      var q, n := ns[..|ns| - 1], ns[|ns| - 1];
      ReadNodes(r, e, q);
      ReadAppend(With(r, e), FlattenAll(q), Flatten(n));
      ReadNode(With(r, e.(kids := e.kids + ElementsOf(q))), n);
      AttachUnder(r, e.(kids := e.kids + ElementsOf(q)), ElementOf(n));
      assert (e.kids + ElementsOf(q)) + [ElementOf(n)] == e.kids + ElementsOf(ns);
      hide Flatten, ElementOf;
    }
  }

  lemma {:induction false} AttachUnder(r: Reading, e: Element, kid: Element)
    ensures Attach(With(r, e), kid) == With(r, e.(kids := e.kids + [kid]))
  {
    assert (r.open + [e])[..|r.open|] == r.open;
  }

  /** A document is read as its tree, whatever stands before the root outside it. */
  lemma {:induction false} ReadsTheTree(n: Node)
    ensures Document([Misc] + Flatten(n)) == Some(ElementOf(n))
  {
    hide ElementOf, Flatten;
    ReadAppend(NOTHING_OPEN, [Misc], Flatten(n));
    ReadOne(NOTHING_OPEN, Misc);
    ReadNode(NOTHING_OPEN, n);
    hide ReadAll;
  }
}
