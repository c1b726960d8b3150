/**
  Partner message presets (`ddex_preset.rs`): resolving an override and rendering the message id.
  A template is the text of a list of pieces; rendering puts the values in the places of the variables.
*/
module MessagePreset {
  import opened Common
  import opened TextBasics

  datatype PresetError = Invalid

  datatype Values = Values(package: string, dsp: string, date: string)

  function ValueOf(name: string, v: Values): Option<string> {
    if name == "package" then Some(v.package)
    else if name == "dsp" then Some(v.dsp)
    else if name == "date" then Some(v.date)
    else None
  }

  // ---------------------------------------------------------------- rendering

  /** The template with its variables replaced; none for an unknown or unclosed variable. */
  function Filled(rest: string, v: Values): Option<string>
    decreases |rest|
  {
    match IndexOf(rest, '{')
    case None => Some(rest)
    case Some(start) =>
      var after := rest[start + 1..];
      match IndexOf(after, '}')
      case None => None
      case Some(end) =>
        match ValueOf(after[..end], v)
        case None => None
        case Some(text) => Ahead(rest[..start] + text, Filled(after[end + 1..], v))
  }

  function Ahead(first: string, more: Option<string>): Option<string> {
    if more.Some? then Some(first + more.value) else None
  }

  function Rendered(template: string, v: Values): Result<string, PresetError> {
    match Filled(template, v)
    case None => Err(Invalid)
    case Some(out) => if Blank(out) then Err(Invalid) else Ok(out)
  }

  method Render(template: string, v: Values) returns (r: Result<string, PresetError>)
    ensures r == Rendered(template, v)
  {
    hide IndexOf, Blank, ValueOf;
    var out, rest := "", template;
    var start := IndexOf(rest, '{');
    AheadNothing(Filled(template, v));
    while start.Some?
      invariant start == IndexOf(rest, '{')
      invariant Filled(template, v) == Ahead(out, Filled(rest, v))
      decreases |rest|
    {
      var after := rest[start.value + 1..];
      var end := IndexOf(after, '}');
      if end.None? {
        return Err(Invalid);
      }
      var text := ValueOf(after[..end.value], v);
      if text.None? {
        return Err(Invalid);
      }
      AheadTwice(out, rest[..start.value] + text.value, Filled(after[end.value + 1..], v));
      out := out + (rest[..start.value] + text.value);
      rest := after[end.value + 1..];
      start := IndexOf(rest, '{');
    }
    out := out + rest;
    r := if Blank(out) then Err(Invalid) else Ok(out);
  }

  lemma {:induction false} AheadTwice(a: string, b: string, more: Option<string>)
    ensures Ahead(a, Ahead(b, more)) == Ahead(a + b, more)
  {
    if more.Some? {
      assert a + (b + more.value) == (a + b) + more.value;
    }
  }

  lemma {:induction false} AheadNothing(more: Option<string>)
    ensures Ahead("", more) == more
  {
    if more.Some? {
      assert "" + more.value == more.value;
    }
  }

  // ---------------------------------------------------------------- what a template is

  datatype Piece = Literal(text: string) | Package | Dsp | Date

  function PieceText(p: Piece): string {
    match p
    case Literal(text) => text
    case Package => "{package}"
    case Dsp => "{dsp}"
    case Date => "{date}"
  }

  function PieceValue(p: Piece, v: Values): string {
    match p
    case Literal(text) => text
    case Package => v.package
    case Dsp => v.dsp
    case Date => v.date
  }

  function Print(ps: seq<Piece>): string {
    if ps == [] then "" else PieceText(ps[0]) + Print(ps[1..])
  }

  function Fill(ps: seq<Piece>, v: Values): string {
    if ps == [] then "" else PieceValue(ps[0], v) + Fill(ps[1..], v)
  }

  predicate Tidy(ps: seq<Piece>) {
    forall i :: 0 <= i < |ps| && ps[i].Literal? ==> '{' !in ps[i].text
  }

  ghost predicate IsTemplate(t: string) {
    exists ps: seq<Piece> :: Tidy(ps) && Print(ps) == t
  }

  lemma {:induction false} FindAt(s: string, c: char, i: nat)
    requires i < |s| && s[i] == c && c !in s[..i]
    ensures IndexOf(s, c) == Some(i)
  {
    var at := IndexOf(s, c);
    assert c in s;
    assert forall j :: 0 <= j < i ==> s[..i][j] == s[j];
    assert forall j :: 0 <= j < at.value ==> s[..at.value][j] == s[j];
  }

  lemma {:induction false} LiteralFirst(text: string, rest: string, v: Values)
    requires '{' !in text
    ensures Filled(text + rest, v) == Ahead(text, Filled(rest, v))
  {
    hide Filled, IndexOf, AfterOpen;
    var at := IndexOf(rest, '{');
    FindAfter(text, rest, '{');
    if at.Some? {
      FilledOpen(rest, at.value, v);
      FilledOpen(text + rest, |text| + at.value, v);
      assert (text + rest)[..|text| + at.value] == text + rest[..at.value];
      assert (text + rest)[|text| + at.value + 1..] == rest[at.value + 1..];
      AfterOpenMoves(text, rest[..at.value], rest[at.value + 1..], v);
    } else {
      FilledPlain(rest, v);
      FilledPlain(text + rest, v);
    }
  }

  /** What follows an opening brace, with the text before it. */
  function AfterOpen(first: string, after: string, v: Values): Option<string> {
    match IndexOf(after, '}')
    case None => None
    case Some(end) =>
      match ValueOf(after[..end], v)
      case None => None
      case Some(text) => Ahead(first + text, Filled(after[end + 1..], v))
  }

  lemma {:induction false} FilledOpen(s: string, at: nat, v: Values)
    requires IndexOf(s, '{') == Some(at)
    ensures Filled(s, v) == AfterOpen(s[..at], s[at + 1..], v)
  {
    hide IndexOf, ValueOf;
  }

  lemma {:induction false} FilledPlain(s: string, v: Values)
    requires IndexOf(s, '{').None?
    ensures Filled(s, v) == Some(s)
  {
    hide IndexOf, ValueOf;
  }

  lemma {:induction false} AfterOpenMoves(a: string, b: string, after: string, v: Values)
    ensures AfterOpen(a + b, after, v) == Ahead(a, AfterOpen(b, after, v))
  {
    hide IndexOf, ValueOf, Filled;
    var end := IndexOf(after, '}');
    if end.Some? && ValueOf(after[..end.value], v).Some? {
      var text := ValueOf(after[..end.value], v).value;
      AheadTwice(a, b + text, Filled(after[end.value + 1..], v));
      assert (a + b) + text == a + (b + text);
    }
  }

  lemma {:induction false} FindAfter(text: string, rest: string, c: char)
    requires c !in text
    ensures IndexOf(rest, c).None? ==> IndexOf(text + rest, c).None?
    ensures IndexOf(rest, c).Some? ==> IndexOf(text + rest, c) == Some(|text| + IndexOf(rest, c).value)
  {
    hide IndexOf;
    var s := text + rest;
    assert forall k :: 0 <= k < |s| ==> s[k] == if k < |text| then text[k] else rest[k - |text|];
    if IndexOf(rest, c).Some? {
      var k := |text| + IndexOf(rest, c).value;
      assert s[..k] == text + rest[..k - |text|];
      FindAt(s, c, k);
    }
  }

  lemma {:induction false} VariableFirst(name: string, rest: string, v: Values)
    requires '}' !in name && ValueOf(name, v).Some?
    ensures Filled("{" + name + "}" + rest, v) == Ahead(ValueOf(name, v).value, Filled(rest, v))
  {
    hide ValueOf;
    var s := "{" + name + "}" + rest;
    FindAt(s, '{', 0);
    var after := s[1..];
    assert after == name + "}" + rest;
    assert after[..|name|] == name;
    FindAt(after, '}', |name|);
    assert after[|name| + 1..] == rest;
    assert s[..0] + ValueOf(name, v).value == ValueOf(name, v).value;
  }

  /** Rendering the text of a list of pieces gives each piece's value, in order. */
  lemma {:induction false} PrintedIsFilled(ps: seq<Piece>, v: Values)
    requires Tidy(ps)
    ensures Filled(Print(ps), v) == Some(Fill(ps, v))
    decreases |ps|
  {
    hide Filled, IndexOf;
    if ps == [] {
      EmptyFilled(v);
    } else {
      var rest := ps[1..];
      PrintedIsFilled(rest, v);
      match ps[0]
      case Literal(text) => LiteralFirst(text, Print(rest), v);
      case Package =>
        assert "{package}" == "{" + "package" + "}";
        VariableFirst("package", Print(rest), v);
      case Dsp =>
        assert "{dsp}" == "{" + "dsp" + "}";
        VariableFirst("dsp", Print(rest), v);
      case Date =>
        assert "{date}" == "{" + "date" + "}";
        VariableFirst("date", Print(rest), v);
    }
  }

  lemma {:induction false} EmptyFilled(v: Values)
    ensures Filled("", v) == Some("")
  {
  }

  /** Only the text of such a list is rendered. */
  lemma {:induction false} FilledIsPrinted(t: string, v: Values)
    requires Filled(t, v).Some?
    ensures IsTemplate(t)
    decreases |t|
  {
    hide IndexOf, Tidy, Print, PieceText;
    var at := IndexOf(t, '{');
    if at.None? {
      LiteralAlone(t);
    } else {
      var start := at.value;
      var after := t[start + 1..];
      var end := IndexOf(after, '}').value;
      FilledIsPrinted(after[end + 1..], v);
      var more :| Tidy(more) && Print(more) == after[end + 1..];
      var p := VariableNamed(after[..end], v);
      VariableSplits(t, start, end);
      TwoMore(t[..start], p, more);
    }
  }

  lemma {:induction false} LiteralAlone(t: string)
    requires '{' !in t
    ensures Tidy([Literal(t)]) && Print([Literal(t)]) == t
  {
    var ps := [Literal(t)];
    assert ps[1..] == [] && Print(ps[1..]) == "";
    assert Print(ps) == t + "" == t;
  }

  lemma {:induction false} VariableNamed(name: string, v: Values) returns (p: Piece)
    requires ValueOf(name, v).Some?
    ensures !p.Literal? && PieceText(p) == "{" + name + "}"
  {
    p := if name == "package" then Package else if name == "dsp" then Dsp else Date;
  }

  lemma {:induction false} VariableSplits(t: string, start: nat, end: nat)
    requires start < |t| && end < |t| - start - 1 && t[start] == '{' && t[start + 1..][end] == '}'
    ensures t == t[..start] + ("{" + t[start + 1..][..end] + "}" + t[start + 1..][end + 1..])
  {
  }

  lemma {:induction false} TwoMore(text: string, p: Piece, more: seq<Piece>)
    requires '{' !in text && !p.Literal? && Tidy(more)
    ensures Tidy([Literal(text), p] + more)
    ensures Print([Literal(text), p] + more) == text + (PieceText(p) + Print(more))
  {
    var ps := [Literal(text), p] + more;
    assert ps[1..] == [p] + more && ps[1..][1..] == more;
  }

  // ---------------------------------------------------------------- blank results

  /** Some piece gives text that is not blank. */
  predicate Substantial(ps: seq<Piece>, v: Values) {
    exists i :: 0 <= i < |ps| && !Blank(PieceValue(ps[i], v))
  }

  lemma {:induction false} BlankTogether(a: string, b: string)
    ensures Blank(a + b) <==> Blank(a) && Blank(b)
  {
    if Blank(a + b) {
      assert forall i :: 0 <= i < |a| ==> (a + b)[i] == a[i];
      assert forall i :: 0 <= i < |b| ==> (a + b)[|a| + i] == b[i];
    }
  }

  lemma {:induction false} BlankExactlyWhen(ps: seq<Piece>, v: Values)
    ensures Blank(Fill(ps, v)) <==> !Substantial(ps, v)
    decreases |ps|
  {
    hide PieceValue, Blank;
    if ps == [] {
      EmptyBlank();
    } else {
      var rest := ps[1..];
      BlankExactlyWhen(rest, v);
      BlankTogether(PieceValue(ps[0], v), Fill(rest, v));
      assert forall i :: 0 <= i < |rest| ==> rest[i] == ps[i + 1];
      if Substantial(ps, v) {
        var i :| 0 <= i < |ps| && !Blank(PieceValue(ps[i], v));
        assert i > 0 ==> rest[i - 1] == ps[i];
      }
    }
  }

  lemma {:induction false} EmptyBlank()
    ensures Blank("")
  {
  }

  /** Rendering succeeds exactly on the text of a list of pieces with a value that is not blank, and
      then gives those values in order. */
  lemma {:induction false} RendersExactlyWhen(t: string, v: Values)
    ensures forall ps: seq<Piece> :: Tidy(ps) && Print(ps) == t ==>
              Rendered(t, v) == if Substantial(ps, v) then Ok(Fill(ps, v)) else Err(Invalid)
    ensures !IsTemplate(t) ==> Rendered(t, v) == Err(Invalid)
  {
    hide Filled, Tidy, Substantial, Blank;
    forall ps: seq<Piece> | Tidy(ps) && Print(ps) == t
      ensures Rendered(t, v) == if Substantial(ps, v) then Ok(Fill(ps, v)) else Err(Invalid)
    {
      PrintedIsFilled(ps, v);
      BlankExactlyWhen(ps, v);
    }
    if Filled(t, v).Some? {
      FilledIsPrinted(t, v);
    }
  }

  // ---------------------------------------------------------------- resolving

  datatype Preset = Preset(id: string, template: string, offset: int, escalate: seq<string>)

  /** The `ddex_preset` entry of a partner's capabilities. An array is read as the fields in order;
      any other entry that is no object, or has a field under another name or of another type, is
      `Malformed`. */
  datatype Entry =
    | Absent
    | Null
    | Malformed
    | Override(template: Option<string>, offset: Option<int>, escalate: Option<seq<string>>)

  const DEFAULT := Preset("default", "AUDENIQ-ERN-{package}-{dsp}", 0, [])

  /** The values a template is tried with. */
  const SAMPLE := Values("package", "dsp", "20260101")

  predicate Int32(n: int) { -0x8000_0000 <= n < 0x8000_0000 }

  /** The preset with the fields an override names. */
  function Overridden(partner: string, e: Entry): Preset
    requires e.Override?
  {
    Preset(
      "partner:" + partner,
      if e.template.Some? then e.template.value else DEFAULT.template,
      if e.offset.Some? then e.offset.value else DEFAULT.offset,
      if e.escalate.Some? then e.escalate.value else DEFAULT.escalate)
  }

  predicate Resolves(e: Entry) {
    match e
    case Absent => true
    case Null => true
    case Malformed => false
    case Override(template, offset, _) =>
      && (offset.Some? ==> Int32(offset.value))
      && (template.Some? ==> Rendered(template.value, SAMPLE).Ok?)
  }

  function Resolved(partner: string, e: Entry): Result<Preset, PresetError> {
    if !Resolves(e) then Err(Invalid)
    else if e.Override? then Ok(Overridden(partner, e))
    else Ok(DEFAULT)
  }

  method Resolve(partner: string, e: Entry) returns (r: Result<Preset, PresetError>)
    ensures r == Resolved(partner, e)
  {
    hide Rendered;
    var preset := DEFAULT;
    match e {
      case Absent => return Ok(preset);
      case Null => return Ok(preset);
      case Malformed => return Err(Invalid);
      case Override(template, offset, escalate) =>
        if offset.Some? && !Int32(offset.value) {
          return Err(Invalid);
        }
        if template.Some? {
          preset := preset.(template := template.value);
          var sample := Render(preset.template, SAMPLE);
          if sample.Err? {
            return Err(Invalid);
          }
        }
        if offset.Some? {
          preset := preset.(offset := offset.value);
        }
        if escalate.Some? {
          preset := preset.(escalate := escalate.value);
        }
        preset := preset.(id := "partner:" + partner);
        return Ok(preset);
    }
  }

  predicate FullValues(v: Values) { !Blank(v.package) && !Blank(v.dsp) && !Blank(v.date) }

  lemma {:induction false} SampleIsFull()
    ensures FullValues(SAMPLE)
  {
    assert !White(SAMPLE.package[0]) && !White(SAMPLE.dsp[0]) && !White(SAMPLE.date[0]);
  }

  lemma {:induction false} SubstantialAlike(ps: seq<Piece>, v: Values, w: Values)
    requires FullValues(v) && FullValues(w)
    ensures Substantial(ps, v) <==> Substantial(ps, w)
  {
    hide Blank;
    assert forall i :: 0 <= i < |ps| ==> (Blank(PieceValue(ps[i], v)) <==> Blank(PieceValue(ps[i], w)));
  }

  function DefaultPieces(): seq<Piece> {
    [Literal("AUDENIQ-ERN-"), Package, Literal("-"), Dsp]
  }

  lemma {:induction false} FourPieces(a: Piece, b: Piece, c: Piece, d: Piece, v: Values)
    ensures Print([a, b, c, d]) == PieceText(a) + (PieceText(b) + (PieceText(c) + PieceText(d)))
    ensures Fill([a, b, c, d], v) == PieceValue(a, v) + PieceValue(b, v) + PieceValue(c, v) + PieceValue(d, v)
  {
    hide PieceText, PieceValue;
    assert [a, b, c, d][1..] == [b, c, d] && [b, c, d][1..] == [c, d] && [c, d][1..] == [d] && [d][1..] == [];
    assert Print([d]) == PieceText(d) + "" == PieceText(d);
    assert Fill([d], v) == PieceValue(d, v) + "" == PieceValue(d, v);
    assert Print([b, c, d]) == PieceText(b) + Print([c, d]);
    assert Fill([b, c, d], v) == PieceValue(b, v) + (PieceValue(c, v) + PieceValue(d, v));
  }

  lemma {:induction false} DefaultIsTemplate(v: Values)
    ensures Tidy(DefaultPieces()) && Print(DefaultPieces()) == DEFAULT.template
    ensures Substantial(DefaultPieces(), v)
    ensures Fill(DefaultPieces(), v) == "AUDENIQ-ERN-" + v.package + "-" + v.dsp
  {
    hide Print, Fill;
    var ps := DefaultPieces();
    FourPieces(ps[0], ps[1], ps[2], ps[3], v);
    assert !White(PieceValue(ps[0], v)[0]);
  }

  /** An override resolves exactly when it is well formed and its template, if any, is the text of a
      list of pieces with a variable or a literal that is not blank. */
  lemma {:induction false} ResolvesExactlyWhen(e: Entry)
    requires e.Override?
    ensures Resolves(e) <==>
              && (e.offset.Some? ==> Int32(e.offset.value))
              && (e.template.Some? ==> exists ps: seq<Piece> ::
                    Tidy(ps) && Print(ps) == e.template.value && Substantial(ps, SAMPLE))
  {
    hide Tidy, Substantial, Rendered;
    if e.template.Some? {
      RendersExactlyWhen(e.template.value, SAMPLE);
    }
  }

  /** A preset that resolved renders for every package, partner and date that is not blank, to its
      pieces with the values put in. */
  lemma {:induction false} ResolvedAlwaysRenders(partner: string, e: Entry, v: Values)
    requires Resolved(partner, e).Ok? && FullValues(v)
    ensures (var t := Resolved(partner, e).value.template;
             && Rendered(t, v).Ok?
             && IsTemplate(t)
             && (forall ps: seq<Piece> :: Tidy(ps) && Print(ps) == t ==> Rendered(t, v) == Ok(Fill(ps, v))))
  {
    hide Tidy, Substantial, Rendered, FullValues, DefaultPieces;
    var t := Resolved(partner, e).value.template;
    RendersExactlyWhen(t, v);
    RendersExactlyWhen(t, SAMPLE);
    SampleIsFull();
    if t == DEFAULT.template {
      DefaultIsTemplate(SAMPLE);
    }
    assert Rendered(t, SAMPLE).Ok?;
    forall ps: seq<Piece> | Tidy(ps) && Print(ps) == t
      ensures Rendered(t, v) == Ok(Fill(ps, v))
    {
      SubstantialAlike(ps, v, SAMPLE);
    }
  }

  /** Without an override the message id is the one of old, whatever the values. */
  lemma {:induction false} DefaultRenders(v: Values)
    ensures Rendered(DEFAULT.template, v) == Ok("AUDENIQ-ERN-" + v.package + "-" + v.dsp)
  {
    hide Tidy, Substantial, Rendered, Print, Fill, DefaultPieces;
    DefaultIsTemplate(v);
    RendersExactlyWhen(DEFAULT.template, v);
  }

  /** Field by field: what an override names is its own, everything else is the default's; any other entry
      than none, null and a well-formed override is refused. */
  lemma {:induction false} ResolvedFields(partner: string, e: Entry)
    ensures e.Absent? || e.Null? ==>
              Resolved(partner, e) == Ok(Preset("default", "AUDENIQ-ERN-{package}-{dsp}", 0, []))
    ensures e.Malformed? ==> Resolved(partner, e).Err?
    ensures e.Override? && Resolved(partner, e).Ok? ==>
              (var p := Resolved(partner, e).value;
               && p.id == "partner:" + partner
               && (if e.template.Some? then e.template == Some(p.template)
                   else p.template == "AUDENIQ-ERN-{package}-{dsp}")
               && (if e.offset.Some? then e.offset == Some(p.offset) else p.offset == 0)
               && (if e.escalate.Some? then e.escalate == Some(p.escalate) else p.escalate == []))
  {
    hide Rendered;
  }

  /** Each variable stands for its own value. */
  lemma {:induction false} VariablesMean(v: Values)
    ensures Rendered("{package}", v) == if Blank(v.package) then Err(Invalid) else Ok(v.package)
    ensures Rendered("{dsp}", v) == if Blank(v.dsp) then Err(Invalid) else Ok(v.dsp)
    ensures Rendered("{date}", v) == if Blank(v.date) then Err(Invalid) else Ok(v.date)
  {
    hide Filled, Blank, IndexOf;
    OneVariable(Package, v);
    OneVariable(Dsp, v);
    OneVariable(Date, v);
  }

  lemma {:induction false} OneVariable(p: Piece, v: Values)
    requires !p.Literal?
    ensures Filled(PieceText(p), v) == Some(PieceValue(p, v))
  {
    hide Filled, PieceText, PieceValue;
    var ps := [p];
    assert ps[1..] == [] && PieceText(p) + "" == PieceText(p) && PieceValue(p, v) + "" == PieceValue(p, v);
    assert Print([]) == "" && Fill([], v) == "";
    assert Print(ps) == PieceText(p) && Fill(ps, v) == PieceValue(p, v);
    PrintedIsFilled(ps, v);
  }
}
