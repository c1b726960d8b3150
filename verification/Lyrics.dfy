/**
  The synced-lyrics reader (`lrc_lines` of `addons.rs`) and the sheets it reads: headers, blank lines
  and lines of text with time stamps. `PrintedIsRead` and `ReadIsPrinted` say that it accepts exactly
  the printed sheets, and returns the number of their timed lines.
*/
module Lyrics {
  import opened Common
  import opened TextBasics
  import opened Numerals

  const MAX_CHARS := 60_000

  // ---------------------------------------------------------------- text helpers

  lemma {:induction false} IndexIs(s: string, c: char, d: char, i: nat)
    requires i < |s| && (s[i] == c || s[i] == d)
    requires forall j :: 0 <= j < i ==> s[j] != c && s[j] != d
    ensures IndexOfEither(s, c, d) == Some(i)
  {
  }

  predicate Digits(s: string) { forall i :: 0 <= i < |s| ==> '0' <= s[i] <= '9' }

  predicate Letter(c: char) { 'a' <= c <= 'z' || 'A' <= c <= 'Z' }

  predicate Letters(s: string) { forall i :: 0 <= i < |s| ==> Letter(s[i]) }

  // ---------------------------------------------------------------- the reader

  datatype Kind = StampTag | HeaderTag | BadTag

  /** `ss`, with up to three digits after a point or a colon. */
  predicate TimeOk(b: string) {
    var cut := IndexOfEither(b, '.', ':');
    var sec := if cut.Some? then b[..cut.value] else b;
    var frac := if cut.Some? then b[cut.value + 1..] else "";
    |sec| == 2 && Digits(sec) && TextLess(sec, "60") && |frac| <= 3 && Digits(frac)
  }

  /** `mm:` and a time; or `name:value`. */
  function TagKind(tag: string): Kind {
    match IndexOfEither(tag, ':', ':')
    case None => BadTag
    case Some(i) =>
      var a, b := tag[..i], tag[i + 1..];
      if Digits(a) && a != "" then
        if |a| <= 3 && TimeOk(b) then StampTag else BadTag
      else if Letters(a) && a != "" then HeaderTag
      else BadTag
  }

  /** Take the tags off the front of a line: how many stamps, and what is left. */
  function TakeTags(rest: string, stamps: nat): Option<(nat, string)>
    decreases |rest|
  {
    if rest == "" || rest[0] != '[' then Some((stamps, rest))
    else
      match IndexOfEither(rest[1..], ']', ']')
      case None => None
      case Some(end) =>
        match TagKind(rest[1..][..end])
        case BadTag => None
        case StampTag => TakeTags(rest[1..][end + 1..], stamps + 1)
        case HeaderTag => TakeTags(rest[1..][end + 1..], stamps)
  }

  /** 1 for a timed line, 0 for a blank or header line, nothing for any other. */
  function LineCount(line: string): Option<nat> {
    var t := Trim(line);
    if t == "" then Some(0)
    else
      match TakeTags(t, 0)
      case None => None
      case Some((stamps, rest)) =>
        if stamps > 0 then Some(1) else if rest != "" then None else Some(0)
  }

  function Count(lines: seq<string>): Option<nat>
    decreases |lines|
  {
    if lines == [] then Some(0)
    else
      match Count(lines[..|lines| - 1])
      case None => None
      case Some(n) =>
        match LineCount(lines[|lines| - 1])
        case None => None
        case Some(k) => Some(n + k)
  }

  /** Split at every newline. */
  function Lines(s: string): (ls: seq<string>)
    ensures ls != []
    decreases |s|
  {
    match IndexOfEither(s, '\n', '\n')
    case None => [s]
    case Some(i) => [s[..i]] + Lines(s[i + 1..])
  }

  function LrcResult(lrc: string): Option<nat> {
    if Trim(lrc) == "" || |lrc| > MAX_CHARS then None
    else
      match Count(Lines(lrc))
      case None => None
      case Some(n) => if n == 0 then None else Some(n)
  }

  /** Inner loop: the tags of one line. */
  method ReadTags(line: string) returns (r: Option<(nat, string)>)
    ensures r == TakeTags(line, 0)
  {
    var rest, stamps := line, 0;
    while rest != "" && rest[0] == '['
      invariant TakeTags(rest, stamps) == TakeTags(line, 0)
      decreases |rest|
    {
      hide TagKind, IndexOfEither;
      var body := rest[1..];
      var end := IndexOfEither(body, ']', ']');
      if end.None? {
        return None;
      }
      var kind := TagKind(body[..end.value]);
      if kind == BadTag {
        return None;
      }
      if kind == StampTag {
        stamps := stamps + 1;
      }
      rest := body[end.value + 1..];
    }
    r := Some((stamps, rest));
  }

  method ReadLine(line: string) returns (r: Option<nat>)
    ensures r == LineCount(line)
  {
    hide TakeTags, Trim;
    var t := Trim(line);
    if t == "" {
      return Some(0);
    }
    var tags := ReadTags(t);
    if tags.None? {
      return None;
    }
    var (stamps, rest) := tags.value;
    if stamps > 0 {
      return Some(1);
    }
    if rest != "" {
      return None;
    }
    return Some(0);
  }

  /** Outer loop: the lines. */
  method LrcLines(lrc: string) returns (r: Option<nat>)
    ensures r == LrcResult(lrc)
  {
    hide LineCount, Lines, Trim;
    if Trim(lrc) == "" || |lrc| > MAX_CHARS {
      return None;
    }
    var lines := Lines(lrc);
    var timed := 0;
    var k := 0;
    while k < |lines|
      invariant 0 <= k <= |lines|
      invariant Count(lines[..k]) == Some(timed)
    {
      assert lines[..k + 1][..k] == lines[..k];
      var one := ReadLine(lines[k]);
      k := k + 1;
      if one.None? {
        BadLine(lines, k);
        return None;
      }
      timed := timed + one.value;
    }
    assert lines[..k] == lines;
    if timed == 0 {
      return None;
    }
    r := Some(timed);
  }

  /** A line that is refused refuses the text. */
  lemma {:induction false} BadLine(lines: seq<string>, k: nat)
    requires 0 < k <= |lines| && LineCount(lines[k - 1]).None?
    ensures Count(lines).None?
    decreases |lines|
  {
    hide LineCount;
    if k < |lines| {
      BadLine(lines[..|lines| - 1], k);
    }
  }

  // ---------------------------------------------------------------- printed sheets

  datatype Fraction = NoFraction | Fraction(separator: char, digits: string)

  datatype Tag = Stamp(minutes: string, seconds: string, fraction: Fraction) | Header(name: string, value: string)

  datatype Line = Line(before: string, tags: seq<Tag>, text: string, after: string)

  predicate ValidFraction(f: Fraction) {
    f.Fraction? ==> (f.separator == '.' || f.separator == ':') && |f.digits| <= 3 && Digits(f.digits)
  }

  predicate ValidTag(t: Tag) {
    match t
    case Stamp(m, s, f) =>
      1 <= |m| <= 3 && Digits(m) && |s| == 2 && Digits(s) && s[0] < '6' && ValidFraction(f)
    case Header(name, value) => name != "" && Letters(name) && Free(value, ']') && Free(value, '\n')
  }

  predicate ValidTags(ts: seq<Tag>) { forall i :: 0 <= i < |ts| ==> ValidTag(ts[i]) }

  function Stamps(ts: seq<Tag>): nat {
    if ts == [] then 0 else (if ts[0].Stamp? then 1 else 0) + Stamps(ts[1..])
  }

  /** Padding of blanks; tags; then text only after a stamp, and never starting another tag. */
  predicate ValidLine(l: Line) {
    && Blank(l.before) && Free(l.before, '\n') && Blank(l.after) && Free(l.after, '\n')
    && ValidTags(l.tags) && Free(l.text, '\n')
    && (l.text != "" ==> Stamps(l.tags) > 0 && l.text[0] != '[' && !White(l.text[|l.text| - 1]))
    && (l.tags == [] ==> l.before == "")
  }

  function PrintFraction(f: Fraction): string { if f.Fraction? then [f.separator] + f.digits else "" }

  function TagBody(t: Tag): string {
    match t
    case Stamp(m, s, f) => m + ":" + (s + PrintFraction(f))
    case Header(name, value) => name + ":" + value
  }

  function PrintTag(t: Tag): string { "[" + TagBody(t) + "]" }

  function PrintTags(ts: seq<Tag>): string {
    if ts == [] then "" else PrintTag(ts[0]) + PrintTags(ts[1..])
  }

  function PrintLine(l: Line): string { l.before + (PrintTags(l.tags) + l.text) + l.after }

  function Print(sheet: seq<Line>): string {
    if sheet == [] then ""
    else if |sheet| == 1 then PrintLine(sheet[0])
    else PrintLine(sheet[0]) + "\n" + Print(sheet[1..])
  }

  predicate ValidSheet(sheet: seq<Line>) { forall i :: 0 <= i < |sheet| ==> ValidLine(sheet[i]) }

  /** Lines with at least one time stamp. */
  function TimedLines(sheet: seq<Line>): nat
    decreases |sheet|
  {
    if sheet == [] then 0
    else TimedLines(sheet[..|sheet| - 1]) + (if Stamps(sheet[|sheet| - 1].tags) > 0 then 1 else 0)
  }

  // ---------------------------------------------------------------- printed sheets are read

  lemma {:induction false} SecondsInRange(s: string)
    requires |s| == 2 && Digits(s)
    ensures TextLess(s, "60") <==> s[0] < '6'
  {
    var sixty := "60";
    assert sixty[0] == '6' && sixty[1..][0] == '0';
    assert s[1..][1..] == [] && sixty[1..][1..] == [];
    if s[0] == '6' {
      assert !TextLess(s[1..], sixty[1..]);
    }
  }

  lemma {:induction false} PrintedTimeOk(s: string, f: Fraction)
    requires |s| == 2 && Digits(s) && s[0] < '6' && ValidFraction(f)
    ensures TimeOk(s + PrintFraction(f))
  {
    SecondsInRange(s);
    hide TextLess;
    var b := s + PrintFraction(f);
    if f.Fraction? {
      IndexIs(b, '.', ':', 2);
      assert b[..2] == s && b[3..] == f.digits;
    } else {
      assert b == s;
    }
  }

  lemma {:induction false} CutOnce(a: string, c: char, b: string)
    requires Free(a, c)
    ensures (var s := a + [c] + b; IndexOfEither(s, c, c) == Some(|a|) && s[..|a|] == a && s[|a| + 1..] == b)
  {
    var s := a + [c] + b;
    IndexIs(s, c, c, |a|);
  }

  lemma {:induction false} StampKind(m: string, s: string, f: Fraction)
    requires ValidTag(Stamp(m, s, f))
    ensures TagKind(m + ":" + (s + PrintFraction(f))) == StampTag
  {
    PrintedTimeOk(s, f);
    hide IndexOfEither, TimeOk, PrintFraction;
    CutOnce(m, ':', s + PrintFraction(f));
  }

  lemma {:induction false} HeaderKind(name: string, value: string)
    requires ValidTag(Header(name, value))
    ensures TagKind(name + ":" + value) == HeaderTag
  {
    var tag := name + ":" + value;
    IndexIs(tag, ':', ':', |name|);
    assert tag[..|name|] == name;
    assert Letter(name[0]);
    hide IndexOfEither, TextLess;
  }

  lemma {:induction false} PrintedTagKind(t: Tag)
    requires ValidTag(t)
    ensures TagKind(TagBody(t)) == if t.Stamp? then StampTag else HeaderTag
  {
    hide TagKind, ValidTag;
    match t
    case Stamp(m, s, f) => StampKind(m, s, f);
    case Header(name, value) => HeaderKind(name, value);
  }

  /** One tag taken off the front. */
  lemma {:induction false} TakeOne(tag: string, tail: string, n: nat)
    requires Free(tag, ']') && TagKind(tag) != BadTag
    ensures TakeTags("[" + tag + "]" + tail, n)
         == TakeTags(tail, if TagKind(tag) == StampTag then n + 1 else n)
  {
    hide TagKind;
    var rest := "[" + tag + "]" + tail;
    var body := rest[1..];
    assert body == tag + "]" + tail;
    IndexIs(body, ']', ']', |tag|);
    hide IndexOfEither;
    assert body[..|tag|] == tag && body[|tag| + 1..] == tail;
  }

  lemma {:induction false} TagBodyClosed(t: Tag)
    requires ValidTag(t)
    ensures Free(TagBody(t), ']') && Free(TagBody(t), '\n')
  {
  }

  lemma {:induction false} PrintCons(t: Tag, more: seq<Tag>, text: string)
    ensures PrintTags([t] + more) == "[" + TagBody(t) + "]" + PrintTags(more)
    ensures PrintTags([t] + more) + text == "[" + TagBody(t) + "]" + (PrintTags(more) + text)
    ensures Stamps([t] + more) == (if t.Stamp? then 1 else 0) + Stamps(more)
  {
    hide TagBody;
    assert ([t] + more)[1..] == more;
    Concat("[" + TagBody(t) + "]", PrintTags(more), text);
  }

  lemma {:induction false} NoTags(text: string, n: nat)
    requires text != "" ==> text[0] != '['
    ensures TakeTags(text, n) == Some((n, text))
    ensures PrintTags([]) == "" && Stamps([]) == 0
  {
  }

  lemma {:induction false} PrintedTagsTaken(ts: seq<Tag>, text: string, n: nat)
    requires ValidTags(ts) && (text != "" ==> text[0] != '[')
    ensures TakeTags(PrintTags(ts) + text, n) == Some((n + Stamps(ts), text))
    decreases |ts|
  {
    hide TagKind, TagBody, ValidTag, TakeTags, PrintTags, Free, Stamps;
    if ts == [] {
      NoTags(text, n);
      assert "" + text == text;
    } else {
      var t, more := ts[0], ts[1..];
      assert ts == [t] + more && ValidTag(t) && ValidTags(more);
      TagBodyClosed(t);
      PrintedTagKind(t);
      PrintCons(t, more, text);
      var m := if t.Stamp? then n + 1 else n;
      TakeOne(TagBody(t), PrintTags(more) + text, n);
      PrintedTagsTaken(more, text, m);
    }
  }

  lemma {:induction false} Concat(a: string, b: string, c: string)
    ensures (a + b) + c == a + (b + c)
  {
  }

  lemma {:induction false} TrimStartBlank(a: string, s: string)
    requires Blank(a) && (s != "" ==> !White(s[0]))
    ensures TrimStart(a + s) == s
    decreases |a|
  {
    if a == "" {
      assert a + s == s;
    } else {
      assert (a + s)[1..] == a[1..] + s;
      TrimStartBlank(a[1..], s);
    }
  }

  lemma {:induction false} TrimEndBlank(s: string, b: string)
    requires Blank(b) && (s != "" ==> !White(s[|s| - 1]))
    ensures TrimEnd(s + b) == s
    decreases |b|
  {
    if b == "" {
      assert s + b == s;
    } else {
      assert (s + b)[..|s + b| - 1] == s + b[..|b| - 1];
      TrimEndBlank(s, b[..|b| - 1]);
    }
  }

  lemma {:induction false} TrimPadded(a: string, s: string, b: string)
    requires Blank(a) && Blank(b)
    requires s != "" ==> !White(s[0]) && !White(s[|s| - 1])
    ensures s != "" ==> Trim(a + s + b) == s
    ensures s == "" ==> Trim(a + b) == ""
  {
    if s == "" {
      assert a + b + "" == a + b;
      TrimStartBlank(a + b, "");
    } else {
      assert a + s + b == a + (s + b);
      TrimStartBlank(a, s + b);
      TrimEndBlank(s, b);
    }
  }

  lemma {:induction false} PrintedTagsShape(ts: seq<Tag>)
    ensures ts != [] ==> PrintTags(ts) != "" && PrintTags(ts)[0] == '[' && PrintTags(ts)[|PrintTags(ts)| - 1] == ']'
    ensures ts == [] ==> PrintTags(ts) == ""
    decreases |ts|
  {
    hide TagBody;
    if ts != [] {
      PrintedTagsShape(ts[1..]);
    }
  }

  lemma {:induction false} PrintedLineCount(l: Line)
    requires ValidLine(l)
    ensures LineCount(PrintLine(l)) == Some(if Stamps(l.tags) > 0 then 1 else 0)
  {
    hide Trim, White, TakeTags;
    var core := PrintTags(l.tags) + l.text;
    PrintedTagsShape(l.tags);
    assert core != "" ==> l.tags != [];
    assert core == "" ==> l.before + core + l.after == l.before + l.after;
    assert !White('[') && !White(']') by { BracketsAreInk(); }
    TrimPadded(l.before, core, l.after);
    PrintedTagsTaken(l.tags, l.text, 0);
  }

  lemma {:induction false} BracketsAreInk()
    ensures !White('[') && !White(']')
  {
  }

  lemma {:induction false} PrintedTagsOneLine(ts: seq<Tag>)
    requires ValidTags(ts)
    ensures Free(PrintTags(ts), '\n')
    decreases |ts|
  {
    if ts != [] {
      TagBodyClosed(ts[0]);
      hide TagBody, ValidTag;
      PrintedTagsOneLine(ts[1..]);
    }
  }

  lemma {:induction false} PrintedLines(sheet: seq<Line>)
    requires sheet != [] && ValidSheet(sheet)
    ensures |Lines(Print(sheet))| == |sheet|
    ensures forall i :: 0 <= i < |sheet| ==> Lines(Print(sheet))[i] == PrintLine(sheet[i])
    decreases |sheet|
  {
    var l := PrintLine(sheet[0]);
    PrintedTagsOneLine(sheet[0].tags);
    assert Free(l, '\n');
    hide PrintLine, ValidLine, White;
    if |sheet| > 1 {
      var s := Print(sheet);
      assert s == l + "\n" + Print(sheet[1..]);
      hide Print;
      CutOnce(l, '\n', Print(sheet[1..]));
      hide IndexOfEither;
      PrintedLines(sheet[1..]);
    }
  }

  lemma {:induction false} CountPrinted(sheet: seq<Line>, lines: seq<string>)
    requires ValidSheet(sheet) && |lines| == |sheet|
    requires forall i :: 0 <= i < |sheet| ==> lines[i] == PrintLine(sheet[i])
    ensures Count(lines) == Some(TimedLines(sheet))
    decreases |sheet|
  {
    hide LineCount, PrintLine, ValidLine;
    if sheet != [] {
      var n := |sheet| - 1;
      CountPrinted(sheet[..n], lines[..n]);
      PrintedLineCount(sheet[n]);
    }
  }

  /** Every sheet that fits and has a timed line is accepted, and the answer is its number of timed
      lines. */
  lemma {:induction false} PrintedIsRead(sheet: seq<Line>)
    requires ValidSheet(sheet) && TimedLines(sheet) > 0 && |Print(sheet)| <= 60_000
    ensures LrcResult(Print(sheet)) == Some(TimedLines(sheet))
  {
    hide Print, Lines, TimedLines, ValidLine;
    assert sheet != [] by { SomeLine(sheet); }
    PrintedLines(sheet);
    CountPrinted(sheet, Lines(Print(sheet)));
    if Trim(Print(sheet)) == "" {
      BlankCountsNothing(Print(sheet));
    }
  }

  lemma {:induction false} SomeLine(sheet: seq<Line>)
    requires TimedLines(sheet) > 0
    ensures sheet != []
  {
  }

  lemma {:induction false} TrimmedAway(s: string)
    ensures Trim(s) == "" <==> Blank(s)
    decreases |s|
  {
    if s == "" {
    } else if White(s[0]) {
      TrimmedAway(s[1..]);
      assert Blank(s) <==> Blank(s[1..]) by {
        if Blank(s[1..]) {
          forall i | 0 <= i < |s| ensures White(s[i]) { if i > 0 { assert s[i] == s[1..][i - 1]; } }
        }
      }
    } else {
      assert TrimStart(s) == s;
      TrimEndKeeps(s);
    }
  }

  lemma {:induction false} TrimEndKeeps(s: string)
    requires s != "" && !White(s[0])
    ensures TrimEnd(s) != ""
    decreases |s|
  {
    if White(s[|s| - 1]) {
      TrimEndKeeps(s[..|s| - 1]);
    }
  }

  /** A blank text has no timed line. */
  lemma {:induction false} BlankCountsNothing(s: string)
    requires Trim(s) == ""
    ensures Count(Lines(s)) == Some(0)
  {
    TrimmedAway(s);
    BlankLines(s);
    AllBlank(Lines(s));
  }

  lemma {:induction false} BlankLines(s: string)
    requires Blank(s)
    ensures forall i :: 0 <= i < |Lines(s)| ==> Blank(Lines(s)[i])
    decreases |s|
  {
    var i := IndexOfEither(s, '\n', '\n');
    if i.Some? {
      BlankLines(s[i.value + 1..]);
    }
  }

  lemma {:induction false} AllBlank(lines: seq<string>)
    requires forall i :: 0 <= i < |lines| ==> Blank(lines[i])
    ensures Count(lines) == Some(0)
    decreases |lines|
  {
    if lines != [] {
      AllBlank(lines[..|lines| - 1]);
      TrimmedAway(lines[|lines| - 1]);
    }
  }

  // ---------------------------------------------------------------- what is read is a printed sheet

  lemma {:induction false} CutAt(s: string, c: char, d: char)
    ensures IndexOfEither(s, c, d).Some? ==>
              (var i := IndexOfEither(s, c, d).value;
               s == s[..i] + [s[i]] + s[i + 1..] && Free(s[..i], c) && Free(s[..i], d))
  {
  }

  lemma {:induction false} StampPrinted(a: string, b: string) returns (t: Tag)
    requires Digits(a) && 1 <= |a| <= 3
    requires TimeOk(b)
    ensures ValidTag(t) && t.Stamp? && TagBody(t) == a + ":" + b
  {
    var cut := IndexOfEither(b, '.', ':');
    var sec := if cut.Some? then b[..cut.value] else b;
    SecondsInRange(sec);
    CutAt(b, '.', ':');
    hide IndexOfEither, TextLess;
    if cut.Some? {
      t := Stamp(a, sec, Fraction(b[cut.value], b[cut.value + 1..]));
      assert sec + ([b[cut.value]] + b[cut.value + 1..]) == b;
    } else {
      t := Stamp(a, sec, NoFraction);
      assert b == sec + "";
    }
  }

  lemma {:induction false} KindPrinted(tag: string) returns (t: Tag)
    requires TagKind(tag) != BadTag && Free(tag, ']') && Free(tag, '\n')
    ensures ValidTag(t) && TagBody(t) == tag && (t.Stamp? <==> TagKind(tag) == StampTag)
  {
    CutAt(tag, ':', ':');
    var i := IndexOfEither(tag, ':', ':').value;
    var a, b := tag[..i], tag[i + 1..];
    hide TimeOk, IndexOfEither;
    if Digits(a) && a != "" {
      t := StampPrinted(a, b);
    } else {
      t := Header(a, b);
    }
  }

  lemma {:induction false} TakenPrinted(rest: string, n: nat) returns (ts: seq<Tag>)
    requires TakeTags(rest, n).Some? && Free(rest, '\n')
    ensures (var (m, text) := TakeTags(rest, n).value;
             && ValidTags(ts) && rest == PrintTags(ts) + text && m == n + Stamps(ts)
             && (text != "" ==> text[0] != '['))
    decreases |rest|
  {
    if rest == "" || rest[0] != '[' {
      ts := [];
      assert rest == "" + rest;
    } else {
      var tag, tail := FirstTag(rest, n);
      hide TagKind, TagBody, ValidTag, IndexOfEither, TakeTags, PrintTags, Stamps;
      var t := KindPrinted(tag);
      var more := TakenPrinted(tail, if t.Stamp? then n + 1 else n);
      ts := [t] + more;
      PrintCons(t, more, TakeTags(rest, n).value.1);
    }
  }

  lemma {:induction false} FirstTag(rest: string, n: nat) returns (tag: string, tail: string)
    requires rest != "" && rest[0] == '[' && TakeTags(rest, n).Some? && Free(rest, '\n')
    ensures rest == "[" + tag + "]" + tail && Free(tag, ']') && TagKind(tag) != BadTag
    ensures Free(tag, '\n') && Free(tail, '\n')
    ensures TakeTags(rest, n) == TakeTags(tail, if TagKind(tag) == StampTag then n + 1 else n)
  {
    var body := rest[1..];
    CutAt(body, ']', ']');
    var end := IndexOfEither(body, ']', ']').value;
    tag, tail := body[..end], body[end + 1..];
    hide TagKind, IndexOfEither;
    assert rest == "[" + body;
    Concat("[", tag + "]", tail);
    Concat("[", tag, "]");
  }

  lemma {:induction false} TrimParts(s: string) returns (a: string, b: string)
    ensures Blank(a) && Blank(b) && s == a + Trim(s) + b
  {
    var m := TrimStart(s);
    a := StartPart(s);
    b := EndPart(m);
    assert s == a + (Trim(s) + b);
  }

  lemma {:induction false} StartPart(s: string) returns (a: string)
    ensures Blank(a) && s == a + TrimStart(s)
    decreases |s|
  {
    if s != "" && White(s[0]) {
      var r := StartPart(s[1..]);
      a := [s[0]] + r;
      assert s == [s[0]] + s[1..];
    } else {
      a := "";
    }
  }

  lemma {:induction false} EndPart(s: string) returns (b: string)
    ensures Blank(b) && s == TrimEnd(s) + b
    decreases |s|
  {
    if s != "" && White(s[|s| - 1]) {
      var r := EndPart(s[..|s| - 1]);
      b := r + [s[|s| - 1]];
      assert s == s[..|s| - 1] + [s[|s| - 1]];
    } else {
      b := "";
    }
  }

  lemma {:induction false} FreeParts(a: string, s: string, b: string, c: char)
    requires Free(a + s + b, c)
    ensures Free(a, c) && Free(s, c) && Free(b, c)
  {
    var all := a + s + b;
    assert forall i :: 0 <= i < |a| ==> a[i] == all[i];
    assert forall i :: 0 <= i < |s| ==> s[i] == all[|a| + i];
    assert forall i :: 0 <= i < |b| ==> b[i] == all[|a| + |s| + i];
  }

  lemma {:induction false} CountedPrinted(line: string) returns (l: Line)
    requires LineCount(line).Some? && Free(line, '\n')
    ensures ValidLine(l) && PrintLine(l) == line && LineCount(line).value == (if Stamps(l.tags) > 0 then 1 else 0)
  {
    var a, b := TrimParts(line);
    var core := Trim(line);
    FreeParts(a, core, b, '\n');
    hide Trim, TakeTags, White;
    if core == "" {
      l := Line("", [], "", a + b);
      assert line == a + b;
      assert "" + ("" + "") + (a + b) == a + b;
    } else {
      var (m, text) := TakeTags(core, 0).value;
      var ts := TakenPrinted(core, 0);
      FreeParts(PrintTags(ts), text, "", '\n');
      assert PrintTags(ts) + text + "" == core;
      l := Line(a, ts, text, b);
      assert text != "" ==> text[|text| - 1] == core[|core| - 1];
      assert !White(core[|core| - 1]) by { TrimInk(line); }
      PrintedTagsShape(ts);
    }
  }

  lemma {:induction false} TrimInk(s: string)
    requires Trim(s) != ""
    ensures !White(Trim(s)[|Trim(s)| - 1])
  {
  }

  lemma {:induction false} LinesPrinted(s: string) returns (sheet: seq<Line>)
    requires forall i :: 0 <= i < |Lines(s)| ==> LineCount(Lines(s)[i]).Some?
    ensures ValidSheet(sheet) && sheet != [] && Print(sheet) == s
    ensures |sheet| == |Lines(s)|
    ensures forall i :: 0 <= i < |sheet| ==>
              LineCount(Lines(s)[i]).value == (if Stamps(sheet[i].tags) > 0 then 1 else 0)
    decreases |s|
  {
    hide LineCount, PrintLine, ValidLine, Stamps, Lines, IndexOfEither;
    LinesCut(s);
    var i := IndexOfEither(s, '\n', '\n');
    if i.None? {
      assert Lines(s)[0] == s;
      var l := CountedPrinted(s);
      sheet := [l];
    } else {
      var head, tail := s[..i.value], s[i.value + 1..];
      assert Lines(s)[0] == head;
      assert forall k :: 0 <= k < |Lines(tail)| ==> Lines(tail)[k] == Lines(s)[k + 1];
      var l := CountedPrinted(head);
      var more := LinesPrinted(tail);
      sheet := [l] + more;
      assert sheet[1..] == more;
    }
  }

  lemma {:induction false} LinesCut(s: string)
    ensures (match IndexOfEither(s, '\n', '\n')
             case None => Lines(s) == [s] && Free(s, '\n')
             case Some(i) =>
               && Lines(s) == [s[..i]] + Lines(s[i + 1..])
               && Free(s[..i], '\n') && s == s[..i] + "\n" + s[i + 1..])
  {
  }

  lemma {:induction false} CountAll(lines: seq<string>)
    requires Count(lines).Some?
    ensures forall i :: 0 <= i < |lines| ==> LineCount(lines[i]).Some?
    decreases |lines|
  {
    hide LineCount;
    if lines != [] {
      CountAll(lines[..|lines| - 1]);
    }
  }

  /** Whatever the reader accepts is a printed sheet that fits, with as many timed lines as the
      answer. */
  lemma {:induction false} ReadIsPrinted(lrc: string) returns (sheet: seq<Line>)
    requires LrcResult(lrc).Some?
    ensures ValidSheet(sheet) && Print(sheet) == lrc && |lrc| <= 60_000
    ensures LrcResult(lrc) == Some(TimedLines(sheet)) && TimedLines(sheet) > 0
  {
    CountAll(Lines(lrc));
    sheet := LinesPrinted(lrc);
    hide Print, Lines, TimedLines, ValidLine, PrintLine, Trim, Stamps, LineCount;
    PrintedLines(sheet);
    CountPrinted(sheet, Lines(Print(sheet)));
  }
}
