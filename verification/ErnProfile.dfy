/** The profile the validator reads from the raw text of a written message. */
module ErnProfile {
  import opened Common
  import opened ErnValidate
  import opened TextBasics

  function Attr(name: string, value: string): string { " " + name + "=\"" + value + "\"" }

  function Declaration(): string { "<?xml version=\"1.0\"" + " encoding=\"UTF-8\"?>\n<ern:New" }

  function Namespaces(): string {
    Attr("xmlns:ern", "http://ddex.net" + "/xml/ern/382")
    + Attr("xmlns:xs", "http://www.w3.org" + "/2001/XMLSchema-instance")
    + Attr("MessageSchemaVersionId", "ern/382")
    + " "
  }

  function Needle(): string { "ReleaseProfileVersionId" + "=\"" }

  function ProfileName(n: nat): string { if n > 1 then "AudioAlbum" else "AudioSingle" }

  function ProfileValue(n: nat): string { "CommonRelease" + ProfileName(n) + "/13" }

  function ExpectedProfile(n: nat): Profile { if n > 1 then AudioAlbum else AudioSingle }

  /** The raw text of a message with `n` tracks, up to the end of the profile attribute. */
  function Prolog(n: nat): string {
    Declaration() + "ReleaseMessage" + Namespaces() + Needle() + ProfileValue(n) + "\""
  }

  lemma {:induction false} FreeAppend(a: string, b: string, c: char)
    requires Free(a, c) && Free(b, c)
    ensures Free(a + b, c)
  {
  }

  lemma {:induction false} DeclarationFree()
    ensures Free(Declaration(), 'R')
  {
    assert Free("<?xml version=\"1.0\"", 'R');
    assert Free(" encoding=\"UTF-8\"?>\n<ern:New", 'R');
  }

  lemma {:induction false} NamespacesFree()
    ensures Free(Namespaces(), 'R')
  {
    assert Free("http://ddex.net", 'R') && Free("/xml/ern/382", 'R');
    FreeAppend("http://ddex.net", "/xml/ern/382", 'R');
    assert Free("http://www.w3.org", 'R') && Free("/2001/XMLSchema-instance", 'R');
    FreeAppend("http://www.w3.org", "/2001/XMLSchema-instance", 'R');
    hide Attr;
    var a := Attr("xmlns:ern", "http://ddex.net" + "/xml/ern/382");
    var b := Attr("xmlns:xs", "http://www.w3.org" + "/2001/XMLSchema-instance");
    var d := Attr("MessageSchemaVersionId", "ern/382");
    FreeAppend(a, b, 'R');
    FreeAppend(a + b, d, 'R');
    FreeAppend(a + b + d, " ", 'R');
  }

  /** The one earlier capital R, of the root's own name, does not start the attribute's name. */
  lemma {:induction false} FirstNeedle(a: string, b: string, rest: string, i: nat)
    requires Free(a, 'R') && Free(b, 'R')
    ensures var text := a + "ReleaseMessage" + b + Needle() + rest;
            var at := |a| + 14 + |b|;
            && MatchAt(text, Needle(), at)
            && (i < at ==> !MatchAt(text, Needle(), i))
  {
    var text := a + "ReleaseMessage" + b + Needle() + rest;
    var at := |a| + 14 + |b|;
    assert text[at..at + |Needle()|] == Needle();
    assert Needle()[0] == 'R' && Needle()[7] == 'P';
    var name := "ReleaseMessage";
    assert forall k :: 0 < k < 14 ==> name[k] != 'R';
    assert name[7] == 'M';
    if i < |a| {
      assert text[i] == a[i];
    } else if i < |a| + 14 {
      assert text[i] == name[i - |a|];
      assert text[|a| + 7] == name[7];
    } else if i < at {
      assert text[i] == b[i - |a| - 14];
    }
  }

  lemma {:induction false} IndexIs(text: string, needle: string, from: nat, at: nat)
    requires from <= at <= |text| && MatchAt(text, needle, at)
    requires forall i :: from <= i < at ==> !MatchAt(text, needle, i)
    ensures IndexFrom(text, needle, from) == Some(at)
  {
  }

  lemma {:induction false} QuoteAt(text: string, start: nat, value: string)
    requires start + |value| < |text|
    requires text[start..start + |value|] == value && text[start + |value|] == '\"'
    requires Free(value, '\"')
    ensures IndexFrom(text, "\"", start) == Some(start + |value|)
  {
    var quote := start + |value|;
    assert text[quote..quote + 1] == "\"";
    forall i | start <= i < quote ensures !MatchAt(text, "\"", i) {
      assert text[i] == value[i - start];
    }
    IndexIs(text, "\"", start, quote);
  }

  /** The first needle, and a value that ends at the next quote. */
  lemma {:induction false} ValueAt(text: string, name: string, at: nat, value: string)
    requires at <= |text|
    requires MatchAt(text, name + "=\"", at)
    requires forall i :: 0 <= i < at ==> !MatchAt(text, name + "=\"", i)
    requires Free(value, '\"')
    requires (var start := at + |name| + 2;
              start + |value| < |text| && text[start..start + |value|] == value && text[start + |value|] == '\"')
    ensures AttributeValue(text, name) == Some(value)
  {
    hide MatchAt, Free;
    var needle := name + "=\"";
    IndexIs(text, needle, 0, at);
    QuoteAt(text, at + |needle|, value);
    hide IndexFrom;
  }

  lemma {:induction false} ProfileValueFacts(n: nat)
    ensures Free(ProfileValue(n), '\"')
    ensures ProfileNamed(ProfileValue(n)) == Some(ExpectedProfile(n))
  {
    assert Free("CommonRelease", '\"') && Free("AudioAlbum", '\"') && Free("AudioSingle", '\"') && Free("/13", '\"');
    var v := ProfileValue(n);
    assert v[13..13 + |ProfileName(n)|] == ProfileName(n);
    assert MatchAt(v, ProfileName(n), 13);
    if n <= 1 {
      assert !Contains(v, "AudioAlbum") by {
        forall i: nat | i <= |v| ensures !MatchAt(v, "AudioAlbum", i) {
          SingleIsNotAlbum(i);
        }
      }
    }
  }

  lemma {:induction false} SingleIsNotAlbum(i: nat)
    ensures !MatchAt("CommonRelease" + "AudioSingle" + "/13", "AudioAlbum", i)
  {
    var v := "CommonRelease" + "AudioSingle" + "/13";
    var a, b, d := "CommonRelease", "AudioSingle", "/13";
    var needle := "AudioAlbum";
    assert needle[0] == 'A' && needle[5] == 'A';
    assert forall k :: 0 <= k < 13 ==> a[k] != 'A';
    assert forall k :: 1 <= k < 11 ==> b[k] != 'A';
    if i < 13 {
      assert v[i] == a[i];
    } else if i < 24 {
      assert v[i] == b[i - 13];
      assert v[18] == b[5];
    } else if i < 27 {
      assert v[i] == d[i - 24];
    }
  }

  lemma {:induction false} ProfileRead(n: nat, rest: string)
    ensures DetectProfile(Prolog(n) + rest) == Some(ExpectedProfile(n))
  {
    hide Declaration, Namespaces, ProfileValue, ProfileName;
    DeclarationFree();
    NamespacesFree();
    ProfileValueFacts(n);
    var a, b, v := Declaration(), Namespaces(), ProfileValue(n);
    var text := Prolog(n) + rest;
    var tail := v + "\"" + rest;
    assert text == a + "ReleaseMessage" + b + Needle() + tail;
    var at := |a| + 14 + |b|;
    forall i: nat ensures MatchAt(text, Needle(), at) && (i < at ==> !MatchAt(text, Needle(), i)) {
      FirstNeedle(a, b, tail, i);
    }
    var start := at + 25;
    assert text[start..start + |v|] == v;
    assert text[start + |v|] == '\"';
    ValueAt(text, "ReleaseProfileVersionId", at, v);
  }

  // ---------------------------------------------------------------- the version

  /** What the raw text of a 4.x message has in its root. */
  function Later(): seq<string> {
    ["http://ddex.net/xml/ern/43", "MessageSchemaVersionId=\"ern/43\"",
     "http://ddex.net/xml/ern/42", "MessageSchemaVersionId=\"ern/42\""]
  }

  predicate NamesLater(text: string) { exists k :: 0 <= k < 4 && Contains(text, Later()[k]) }

  lemma {:induction false} AttrFree(name: string, value: string, c: char)
    requires Free(name, c) && Free(value, c) && c != ' ' && c != '=' && c != '\"'
    ensures Free(Attr(name, value), c)
  {
  }

  lemma {:induction false} PartsFree()
    ensures Free(Declaration(), '4') && Free(Namespaces(), '4')
  {
    assert Free("<?xml version=\"1.0\"", '4') && Free(" encoding=\"UTF-8\"?>\n<ern:New", '4');
    assert Free("http://ddex.net", '4') && Free("/xml/ern/382", '4');
    FreeAppend("http://ddex.net", "/xml/ern/382", '4');
    assert Free("http://www.w3.org", '4') && Free("/2001/XMLSchema-instance", '4');
    FreeAppend("http://www.w3.org", "/2001/XMLSchema-instance", '4');
    AttrFree("xmlns:ern", "http://ddex.net" + "/xml/ern/382", '4');
    AttrFree("xmlns:xs", "http://www.w3.org" + "/2001/XMLSchema-instance", '4');
    AttrFree("MessageSchemaVersionId", "ern/382", '4');
    hide Attr;
    var a := Attr("xmlns:ern", "http://ddex.net" + "/xml/ern/382");
    var b := Attr("xmlns:xs", "http://www.w3.org" + "/2001/XMLSchema-instance");
    var d := Attr("MessageSchemaVersionId", "ern/382");
    FreeAppend(a, b, '4');
    FreeAppend(a + b, d, '4');
    FreeAppend(a + b + d, " ", '4');
  }

  lemma {:induction false} ValueFree(n: nat)
    ensures Free(ProfileValue(n), '4') && ProfileValue(n) != "" && ProfileValue(n)[|ProfileValue(n)| - 1] == '3'
  {
    assert Free("CommonRelease", '4') && Free("AudioAlbum", '4') && Free("AudioSingle", '4') && Free("/13", '4');
    FreeAppend("CommonRelease", ProfileName(n), '4');
    FreeAppend("CommonRelease" + ProfileName(n), "/13", '4');
  }

  lemma {:induction false} NeedleFree()
    ensures Free("ReleaseMessage", '4') && Free(Needle(), '4') && Free("\"", '4')
  {
    assert Free("ReleaseProfileVersionId", '4') && Free("=\"", '4');
    FreeAppend("ReleaseProfileVersionId", "=\"", '4');
  }

  /** The root's own text has no 4 in it and ends with a quote after a 3. */
  lemma {:induction false} PrologFacts(n: nat)
    ensures Free(Prolog(n), '4') && |Prolog(n)| >= 2
    ensures Prolog(n)[|Prolog(n)| - 1] == '\"' && Prolog(n)[|Prolog(n)| - 2] == '3'
  {
    hide Declaration, Namespaces, Needle, ProfileValue, Free;
    PartsFree();
    NeedleFree();
    ValueFree(n);
    var d, m, x, e, v := Declaration(), "ReleaseMessage", Namespaces(), Needle(), ProfileValue(n);
    FreeAppend(d, m, '4');
    FreeAppend(d + m, x, '4');
    FreeAppend(d + m + x, e, '4');
    FreeAppend(d + m + x + e, v, '4');
    FreeAppend(d + m + x + e + v, "\"", '4');
    QuoteEnds(d + m + x + e, v);
  }

  lemma {:induction false} QuoteEnds(a: string, v: string)
    requires v != ""
    ensures (var t := a + v + "\""; |t| >= 2 && t[|t| - 1] == '\"' && t[|t| - 2] == v[|v| - 1])
  {
  }

  /** A text with a 4 whose part before it holds no quote, or one quote after an equals sign, does not
      begin in the root's text. */
  lemma {:induction false} NotInProlog(p: string, rest: string, needle: string, four: nat, i: nat)
    requires Free(p, '4') && |p| >= 2 && p[|p| - 1] == '\"' && p[|p| - 2] == '3'
    requires 0 < four < |needle| && needle[four] == '4' && needle[0] != '\"'
    requires forall k :: 0 < k < four && needle[k] == '\"' ==> needle[k - 1] == '='
    requires i < |p|
    ensures !MatchAt(p + rest, needle, i)
  {
    var text := p + rest;
    if i + |needle| <= |text| {
      var found := text[i..i + |needle|];
      assert forall k :: 0 <= k < |needle| ==> found[k] == text[i + k];
      if i + four < |p| {
        assert found[four] == p[i + four] != '4';
      } else {
        var k := |p| - 1 - i;
        assert found[k] == '\"';
        assert k > 0 ==> found[k - 1] == '3';
        assert needle[k] != found[k] || needle[k - 1] != found[k - 1];
      }
    }
  }

  lemma {:induction false} OnlyInRest(p: string, rest: string, needle: string, four: nat)
    requires Free(p, '4') && |p| >= 2 && p[|p| - 1] == '\"' && p[|p| - 2] == '3'
    requires 0 < four < |needle| && needle[four] == '4' && needle[0] != '\"'
    requires forall k :: 0 < k < four && needle[k] == '\"' ==> needle[k - 1] == '='
    ensures Contains(p + rest, needle) <==> Contains(rest, needle)
  {
    var text := p + rest;
    forall i: nat | i < |p| ensures !MatchAt(text, needle, i) {
      NotInProlog(p, rest, needle, four, i);
    }
    if i: nat :| i <= |text| && MatchAt(text, needle, i) {
      assert rest[i - |p|..i - |p| + |needle|] == text[i..i + |needle|];
      assert MatchAt(rest, needle, i - |p|);
    }
    if i: nat :| i <= |rest| && MatchAt(rest, needle, i) {
      assert text[|p| + i..|p| + i + |needle|] == rest[i..i + |needle|];
      assert MatchAt(text, needle, |p| + i);
    }
  }

  lemma {:induction false} LaterNeedles(k: nat)
    requires k < 4
    ensures (var needle, four := Later()[k], if k % 2 == 0 then 24 else 28;
             && four < |needle| && needle[four] == '4' && needle[0] != '\"'
             && forall j :: 0 < j < four && needle[j] == '\"' ==> needle[j - 1] == '=')
  {
    var a, b := "http://ddex.net/xml/ern/43", "MessageSchemaVersionId=\"ern/43\"";
    var c, d := "http://ddex.net/xml/ern/42", "MessageSchemaVersionId=\"ern/42\"";
    assert forall j :: 0 <= j < 24 ==> a[j] != '\"' && c[j] != '\"';
    assert forall j :: 0 <= j < 28 && j != 23 ==> b[j] != '\"' && d[j] != '\"';
    assert b[22] == '=' && d[22] == '=';
  }

  lemma {:induction false} InTheMiddle(a: string, needle: string, b: string)
    ensures Contains(a + needle + b, needle)
  {
    var text := a + needle + b;
    assert text[|a|..|a| + |needle|] == needle;
    assert MatchAt(text, needle, |a|);
  }

  lemma {:induction false} NamespacesName()
    ensures (var a := Attr("xmlns:ern", "http://ddex.net" + "/xml/ern/382")
                      + Attr("xmlns:xs", "http://www.w3.org" + "/2001/XMLSchema-instance") + " ";
             Namespaces() == a + "MessageSchemaVersionId=\"ern/382\"" + " ")
  {
    var d := Attr("MessageSchemaVersionId", "ern/382");
    assert d == " " + "MessageSchemaVersionId=\"ern/382\"";
    hide Attr;
  }

  lemma {:induction false} NamesOwn(n: nat, rest: string)
    ensures Contains(Prolog(n) + rest, "MessageSchemaVersionId=\"ern/382\"")
  {
    hide Contains, Attr, Declaration, Needle, ProfileValue, Namespaces;
    NamespacesName();
    var needle := "MessageSchemaVersionId=\"ern/382\"";
    var a := Attr("xmlns:ern", "http://ddex.net" + "/xml/ern/382")
             + Attr("xmlns:xs", "http://www.w3.org" + "/2001/XMLSchema-instance") + " ";
    Regroup(Declaration() + "ReleaseMessage", a, needle, " ", Needle(), ProfileValue(n), "\"", rest);
    InTheMiddle(Declaration() + "ReleaseMessage" + a, needle, " " + Needle() + ProfileValue(n) + "\"" + rest);
  }

  lemma {:induction false} Regroup(a: string, b: string, c: string, d: string, e: string, f: string, g: string,
                                   h: string)
    ensures a + (b + c + d) + e + f + g + h == a + b + c + (d + e + f + g + h)
  {
  }

  /** A written message is taken for 3.8.2 exactly when nothing behind its root's attributes names a 4.x
      schema; text the writer does not escape, a title for one, can. */
  lemma {:induction false} VersionExactlyWhen(n: nat, rest: string)
    ensures DetectVersion(Prolog(n) + rest) == Some(V382) <==> !NamesLater(rest)
    ensures NamesLater(rest) ==> DetectVersion(Prolog(n) + rest) in {Some(V42), Some(V43)}
  {
    hide Prolog, Contains;
    var p := Prolog(n);
    PrologFacts(n);
    NamesOwn(n, rest);
    forall k | 0 <= k < 4 ensures Contains(p + rest, Later()[k]) <==> Contains(rest, Later()[k]) {
      LaterNeedles(k);
      OnlyInRest(p, rest, Later()[k], if k % 2 == 0 then 24 else 28);
    }
    assert Later()[0] == "http://ddex.net/xml/ern/43" && Later()[1] == "MessageSchemaVersionId=\"ern/43\"";
    assert Later()[2] == "http://ddex.net/xml/ern/42" && Later()[3] == "MessageSchemaVersionId=\"ern/42\"";
  }

  /** A message with that address somewhere in its texts is taken for 4.3. */
  lemma {:induction false} AddressInATitle(n: nat, before: string, after: string)
    ensures DetectVersion(Prolog(n) + (before + "http://ddex.net/xml/ern/43" + after)) == Some(V43)
  {
    hide Prolog;
    var needle := "http://ddex.net/xml/ern/43";
    var text := Prolog(n) + (before + needle + after);
    var i := |Prolog(n)| + |before|;
    assert text[i..i + |needle|] == needle;
    assert MatchAt(text, needle, i);
  }
}
