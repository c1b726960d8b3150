/**
  Negotiating the content encoding at the edge (`encodingQuality` and `passThroughEncoding` of
  `web/shared/transport.ts`; sections 12.4.2 and 12.5.3 of RFC 9110). Quality values are kept in
  thousandths. `ForwardingKeepsQuality` says that what is forwarded means the same, for any header.
*/
module AcceptEncoding {
  import opened Common
  import opened Numerals
  import opened TextBasics
  import opened Roles

  /** What `trim` and `\s` take for blank. */
  predicate Space(c: char) {
    || '\t' <= c <= '\r' || c == ' ' || c == '\U{A0}' || c == '\U{1680}' || '\U{2000}' <= c <= '\U{200A}'
    || c == '\U{2028}' || c == '\U{2029}' || c == '\U{202F}' || c == '\U{205F}' || c == '\U{3000}' || c == '\U{FEFF}'
  }

  function SkipSpace(s: string): (r: string)
    ensures |r| <= |s|
  {
    if s != "" && Space(s[0]) then SkipSpace(s[1..]) else s
  }

  function DropSpace(s: string): string {
    if s != "" && Space(s[|s| - 1]) then DropSpace(s[..|s| - 1]) else s
  }

  function Strip(s: string): string { DropSpace(SkipSpace(s)) }

  function Split(s: string, c: char): (r: seq<string>)
    ensures r != []
    decreases |s|
  {
    match IndexOf(s, c)
    case None => [s]
    case Some(i) => [s[..i]] + Split(s[i + 1..], c)
  }

  // ---------------------------------------------------------------- reading

  /** What follows `q=`, when the parameter is a quality. */
  function QValue(p: string): Option<string> {
    if p == "" || p[0] != 'q' then None
    else
      var rest := SkipSpace(p[1..]);
      if rest == "" || rest[0] != '=' then None else Some(SkipSpace(rest[1..]))
  }

  /** `0` or `1` with at most three decimals, in thousandths; anything malformed is 0. */
  function Thousandths(raw: string): (q: nat)
    ensures q <= 1000
  {
    if raw == "1" then 1000
    else if |raw| < 2 || |raw| > 5 || raw[1] != '.' then 0
    else if !(forall i :: 2 <= i < |raw| ==> IsDigit(raw[i])) then 0
    else if raw[0] == '0' then
      (if |raw| > 2 then 100 * DigitValue(raw[2]) else 0) + (if |raw| > 3 then 10 * DigitValue(raw[3]) else 0)
      + (if |raw| > 4 then DigitValue(raw[4]) else 0)
    else if raw[0] == '1' && forall i :: 2 <= i < |raw| ==> raw[i] == '0' then 1000
    else 0
  }

  /** The last quality among the parameters; 1 without any. */
  function QOf(parameters: seq<string>): (q: nat)
    ensures q <= 1000
    decreases |parameters|
  {
    if parameters == [] then 1000
    else
      match QValue(Strip(parameters[|parameters| - 1]))
      case Some(raw) => Thousandths(raw)
      case None => QOf(parameters[..|parameters| - 1])
  }

  /** One declaration: the lower of conflicting duplicates counts. */
  function Declare(values: map<string, nat>, part: string): map<string, nat> {
    var pieces := Split(Strip(part), ';');
    var name := Strip(pieces[0]);
    values[name := Min(if name in values then values[name] else 1000, QOf(pieces[1..]))]
  }

  function DeclareAll(parts: seq<string>): map<string, nat>
    decreases |parts|
  {
    if parts == [] then map[] else Declare(DeclareAll(parts[..|parts| - 1]), parts[|parts| - 1])
  }

  function Quality(accept: string, encoding: string): nat {
    var values := DeclareAll(Split(LowerAll(accept), ','));
    if encoding in values then values[encoding] else if "*" in values then values["*"] else 0
  }

  /** The nested loops over declarations and parameters. */
  method EncodingQuality(accept: string, encoding: string) returns (q: nat)
    ensures q == Quality(accept, encoding)
  {
    var values: map<string, nat> := map[];
    var parts := Split(LowerAll(accept), ',');
    var i := 0;
    while i < |parts|
      invariant 0 <= i <= |parts|
      invariant values == DeclareAll(parts[..i])
    {
      assert parts[..i + 1][..i] == parts[..i];
      var pieces := Split(Strip(parts[i]), ';');
      var name, parameters := Strip(pieces[0]), pieces[1..];
      var one := 1000;
      var k := 0;
      while k < |parameters|
        invariant 0 <= k <= |parameters|
        invariant one == QOf(parameters[..k])
      {
        assert parameters[..k + 1][..k] == parameters[..k];
        var raw := QValue(Strip(parameters[k]));
        if raw.Some? {
          one := Thousandths(raw.value);
        }
        k := k + 1;
      }
      assert parameters[..k] == parameters;
      values := values[name := Min(if name in values then values[name] else 1000, one)];
      i := i + 1;
    }
    assert parts[..i] == parts;
    q := if encoding in values then values[encoding] else if "*" in values then values["*"] else 0;
  }

  // ---------------------------------------------------------------- forwarding

  /** How a quality below 1 prints: no trailing zeros. */
  function PrintQ(q: nat): string
    requires 0 < q < 1000
  {
    var a, b, c := Digit(q / 100), Digit(q / 10 % 10), Digit(q % 10);
    if q % 100 == 0 then "0." + [a] else if q % 10 == 0 then "0." + [a, b] else "0." + [a, b, c]
  }

  function Item(name: string, q: nat): string
    requires 0 < q <= 1000
  {
    if q == 1000 then name else name + ";q=" + PrintQ(q)
  }

  /** The forwarded header for these qualities of `br` and `gzip`. */
  function Forwarded(br: nat, gzip: nat): string
    requires br <= 1000 && gzip <= 1000
  {
    if br > 0 && gzip > 0 then Item("br", br) + ", " + Item("gzip", gzip)
    else if br > 0 then Item("br", br)
    else if gzip > 0 then Item("gzip", gzip)
    else "identity"
  }

  lemma {:induction false} DeclaredSmall(parts: seq<string>)
    ensures forall n :: n in DeclareAll(parts) ==> DeclareAll(parts)[n] <= 1000
    decreases |parts|
  {
    if parts != [] {
      DeclaredSmall(parts[..|parts| - 1]);
    }
  }

  lemma {:induction false} QualitySmall(accept: string, encoding: string)
    ensures Quality(accept, encoding) <= 1000
  {
    DeclaredSmall(Split(LowerAll(accept), ','));
  }

  function PassThrough(accept: string): string {
    QualitySmall(accept, "br");
    QualitySmall(accept, "gzip");
    Forwarded(Quality(accept, "br"), Quality(accept, "gzip"))
  }

  // ---------------------------------------------------------------- what is printed reads back

  lemma {:induction false} CutOnce(a: string, c: char, b: string)
    requires Free(a, c)
    ensures Split(a + [c] + b, c) == [a] + Split(b, c)
  {
    var s := a + [c] + b;
    assert IndexOf(s, c) == Some(|a|) by {
      var i := IndexOf(s, c);
      assert s[|a|] == c;
      assert forall k :: 0 <= k < |a| ==> s[k] == a[k];
    }
    assert s[..|a|] == a && s[|a| + 1..] == b;
  }

  lemma {:induction false} NoCut(a: string, c: char)
    requires Free(a, c)
    ensures Split(a, c) == [a]
  {
  }

  predicate Tight(s: string) { s != "" && !Space(s[0]) && !Space(s[|s| - 1]) }

  lemma {:induction false} StripTight(s: string)
    requires Tight(s)
    ensures Strip(s) == s && Strip(" " + s) == s && SkipSpace(s) == s
  {
    assert (" " + s)[1..] == s;
  }

  predicate Plain(s: string) { forall i :: 0 <= i < |s| ==> !('A' <= s[i] <= 'Z') }

  lemma {:induction false} LowerPlain(s: string)
    requires Plain(s)
    ensures LowerAll(s) == s
    decreases |s|
  {
    if s != "" {
      LowerPlain(s[..|s| - 1]);
    }
  }

  lemma {:induction false} PrintedQ(q: nat)
    requires 0 < q < 1000
    ensures Thousandths(PrintQ(q)) == q && Tight(PrintQ(q)) && Plain(PrintQ(q))
    ensures Free(PrintQ(q), ',') && Free(PrintQ(q), ';')
  {
    var a, b, c := q / 100, q / 10 % 10, q % 10;
    assert q == 100 * a + 10 * b + c;
    assert q % 100 == 10 * b + c;
    DigitReads(a);
    DigitReads(b);
    DigitReads(c);
    hide Digit, DigitValue;
    var s := PrintQ(q);
    assert s[0] == '0' && s[1] == '.';
  }

  lemma {:induction false} DigitReads(d: nat)
    requires d < 10
    ensures DigitValue(Digit(d)) == d
  {
  }

  lemma {:induction false} PrintedQValue(q: nat)
    requires 0 < q < 1000
    ensures QValue("q=" + PrintQ(q)) == Some(PrintQ(q)) && Tight("q=" + PrintQ(q))
  {
    PrintedQ(q);
    hide PrintQ, Thousandths, Digit;
    var p := "q=" + PrintQ(q);
    assert p[1..] == "=" + PrintQ(q);
    assert SkipSpace(p[1..]) == p[1..];
    assert p[1..][1..] == PrintQ(q);
    StripTight(PrintQ(q));
    assert p[|p| - 1] == PrintQ(q)[|PrintQ(q)| - 1];
  }

  predicate Token(name: string) { Tight(name) && Plain(name) && Free(name, ',') && Free(name, ';') }

  lemma {:induction false} DeclareIs(values: map<string, nat>, part: string, name: string, ps: seq<string>)
    requires Split(Strip(part), ';') == [name] + ps && Strip(name) == name && name !in values
    ensures Declare(values, part) == values[name := QOf(ps)]
  {
    assert ([name] + ps)[1..] == ps;
  }

  lemma {:induction false} BareDeclares(values: map<string, nat>, name: string, part: string)
    requires Token(name) && name !in values && (part == name || part == " " + name)
    ensures Declare(values, part) == values[name := 1000]
  {
    hide Split, Strip, Declare;
    StripTight(name);
    NoCut(name, ';');
    assert [name] + [] == [name];
    DeclareIs(values, part, name, []);
  }

  lemma {:induction false} QualifiedDeclares(values: map<string, nat>, name: string, q: nat, part: string)
    requires Token(name) && 0 < q < 1000 && name !in values
    requires part == name + ";q=" + PrintQ(q) || part == " " + (name + ";q=" + PrintQ(q))
    ensures Declare(values, part) == values[name := q]
  {
    hide PrintQ, Thousandths, Split, Strip, Declare, QValue;
    var p := "q=" + PrintQ(q);
    PrintedQ(q);
    PrintedQValue(q);
    var item := name + [';'] + p;
    assert name + ";q=" + PrintQ(q) == item;
    assert Tight(item) by { assert item[0] == name[0] && item[|item| - 1] == p[|p| - 1]; }
    StripTight(item);
    assert Free(p, ';');
    CutOnce(name, ';', p);
    NoCut(p, ';');
    StripTight(name);
    StripTight(p);
    assert [p][..0] == [];
    DeclareIs(values, part, name, [p]);
  }

  /** One printed item declares its name with its quality. */
  lemma {:induction false} ItemDeclares(values: map<string, nat>, name: string, q: nat, part: string)
    requires Token(name) && 0 < q <= 1000 && name !in values
    requires part == Item(name, q) || part == " " + Item(name, q)
    ensures Declare(values, part) == values[name := q]
  {
    hide PrintQ, Declare;
    if q == 1000 {
      BareDeclares(values, name, part);
    } else {
      QualifiedDeclares(values, name, q, part);
    }
  }

  lemma {:induction false} ItemShape(name: string, q: nat)
    requires Token(name) && 0 < q <= 1000
    ensures Plain(Item(name, q)) && Free(Item(name, q), ',')
  {
    hide PrintQ;
    if q < 1000 {
      PrintedQ(q);
    }
  }

  lemma {:induction false} Tokens()
    ensures Token("br") && Token("gzip") && Token("identity")
    ensures "br" != "gzip" && "identity" != "br" && "identity" != "gzip"
    ensures "*" != "br" && "*" != "gzip" && "*" != "identity"
  {
    var a, b, c, d := "br", "gzip", "identity", "*";
    assert |a| == 2 && |b| == 4 && |c| == 8 && |d| == 1;
    assert a != b && c != a && c != b && d != a && d != b && d != c;
  }

  lemma {:induction false} OneDeclares(part: string, name: string, q: nat)
    requires Token(name) && 0 < q <= 1000 && part == Item(name, q)
    ensures DeclareAll(Split(LowerAll(part), ',')) == map[name := q]
  {
    hide Item, Split, LowerAll, Declare;
    ItemShape(name, q);
    LowerPlain(part);
    NoCut(part, ',');
    assert [part][..0] == [];
    ItemDeclares(map[], name, q, part);
  }

  lemma {:induction false} TwoDeclare(a: string, qa: nat, b: string, qb: nat)
    requires Token(a) && Token(b) && a != b && 0 < qa <= 1000 && 0 < qb <= 1000
    ensures DeclareAll(Split(LowerAll(Item(a, qa) + ", " + Item(b, qb)), ',')) == map[a := qa, b := qb]
  {
    hide Item, Split, LowerAll, Declare;
    ItemShape(a, qa);
    ItemShape(b, qb);
    var x, y := Item(a, qa), " " + Item(b, qb);
    var s := x + ", " + Item(b, qb);
    LowerPlain(s);
    assert s == x + [','] + y;
    CutOnce(x, ',', y);
    NoCut(y, ',');
    assert [x] + [y] == [x, y] && [x, y][..1] == [x] && [x][..0] == [];
    ItemDeclares(map[], a, qa, x);
    ItemDeclares(map[a := qa], b, qb, y);
    assert DeclareAll([x]) == map[a := qa];
    assert DeclareAll([x, y]) == Declare(DeclareAll([x]), y);
  }

  /** The forwarded header carries exactly the qualities it was made from. */
  lemma {:induction false} ForwardedReadsBack(br: nat, gzip: nat)
    requires br <= 1000 && gzip <= 1000
    ensures Quality(Forwarded(br, gzip), "br") == br && Quality(Forwarded(br, gzip), "gzip") == gzip
  {
    hide Item, Split, LowerAll, DeclareAll, Token;
    Tokens();
    if br > 0 && gzip > 0 {
      TwoDeclare("br", br, "gzip", gzip);
    } else if br > 0 {
      OneDeclares(Item("br", br), "br", br);
    } else if gzip > 0 {
      OneDeclares(Item("gzip", gzip), "gzip", gzip);
    } else {
      assert Item("identity", 1000) == "identity" by { IdentityItem(); }
      OneDeclares("identity", "identity", 1000);
    }
  }

  lemma {:induction false} IdentityItem()
    ensures Item("identity", 1000) == "identity"
  {
  }

  /** For any header text — duplicates, wildcards, malformed and zero values included — the forwarded
      header gives br and gzip the qualities the visitor gave them. */
  lemma {:induction false} ForwardingKeepsQuality(accept: string)
    ensures Quality(PassThrough(accept), "br") == Quality(accept, "br")
    ensures Quality(PassThrough(accept), "gzip") == Quality(accept, "gzip")
  {
    QualitySmall(accept, "br");
    QualitySmall(accept, "gzip");
    hide Quality, Forwarded;
    ForwardedReadsBack(Quality(accept, "br"), Quality(accept, "gzip"));
  }

  /** Forwarding what was forwarded changes nothing more. */
  lemma {:induction false} ForwardingTwice(accept: string)
    ensures PassThrough(PassThrough(accept)) == PassThrough(accept)
  {
    hide Quality;
    ForwardingKeepsQuality(accept);
  }

  // ---------------------------------------------------------------- what a quality means

  function NameOf(part: string): string { Strip(Split(Strip(part), ';')[0]) }

  function QualityOf(part: string): (q: nat)
    ensures q <= 1000
  {
    QOf(Split(Strip(part), ';')[1..])
  }

  /** `q` is the lowest of the qualities declared for `name`. */
  predicate Lowest(parts: seq<string>, name: string, q: nat) {
    && (forall i :: 0 <= i < |parts| && NameOf(parts[i]) == name ==> q <= QualityOf(parts[i]))
    && (exists i :: 0 <= i < |parts| && NameOf(parts[i]) == name && q == QualityOf(parts[i]))
  }

  predicate Declared(parts: seq<string>, name: string) {
    exists i :: 0 <= i < |parts| && NameOf(parts[i]) == name
  }

  lemma {:induction false} OneMore(q: seq<string>, last: string, name: string)
    ensures Declared(q + [last], name) <==> Declared(q, name) || NameOf(last) == name
    ensures NameOf(last) != name ==> forall x: nat :: Lowest(q, name, x) ==> Lowest(q + [last], name, x)
    ensures NameOf(last) == name ==>
              forall x: nat :: Lowest(q, name, x) ==> Lowest(q + [last], name, Min(x, QualityOf(last)))
    ensures NameOf(last) == name && !Declared(q, name) ==> Lowest(q + [last], name, QualityOf(last))
  {
    hide NameOf, QualityOf;
    var all := q + [last];
    assert all[|q|] == last && forall i :: 0 <= i < |q| ==> all[i] == q[i];
    forall x: nat | Lowest(q, name, x)
      ensures NameOf(last) != name ==> Lowest(all, name, x)
      ensures NameOf(last) == name ==> Lowest(all, name, Min(x, QualityOf(last)))
    {
      var i :| 0 <= i < |q| && NameOf(q[i]) == name && x == QualityOf(q[i]);
      assert all[i] == q[i];
    }
    if Declared(q, name) {
      var i :| 0 <= i < |q| && NameOf(q[i]) == name;
      assert all[i] == q[i];
    }
  }

  /** Of conflicting declarations the lowest counts. */
  lemma {:induction false} LowestDeclared(parts: seq<string>, name: string)
    ensures name in DeclareAll(parts) <==> Declared(parts, name)
    ensures name in DeclareAll(parts) ==> Lowest(parts, name, DeclareAll(parts)[name])
    decreases |parts|
  {
    hide Lowest, Declared, Declare, NameOf, QualityOf;
    if parts == [] {
      NoneDeclared(name);
    } else {
      var q, last := parts[..|parts| - 1], parts[|parts| - 1];
      assert parts == q + [last];
      LowestDeclared(q, name);
      OneMore(q, last, name);
      DeclareNamed(DeclareAll(q), last);
    }
  }

  lemma {:induction false} NoneDeclared(name: string)
    ensures !Declared([], name)
  {
  }

  lemma {:induction false} DeclareNamed(values: map<string, nat>, part: string)
    ensures Declare(values, part)
         == values[NameOf(part) := if NameOf(part) in values then Min(values[NameOf(part)], QualityOf(part))
                                   else QualityOf(part)]
  {
    hide Strip, Split;
  }
}
