/**
  What a visitor's `Accept-Encoding` says of an encoding (sections 12.4.2 and 12.5.3 of RFC 9110), stated
  on the declarations of the header: which declaration counts, which of its parameters, and which
  texts are quality values.
*/
module AcceptMeaning {
  import opened Common
  import opened Numerals
  import opened Roles
  import opened AcceptEncoding

  // ---------------------------------------------------------------- which declaration counts

  /** The declarations of a header, in small letters. */
  function Parts(accept: string): seq<string> { Split(LowerAll(accept), ',') }

  /** An encoding has the lowest quality declared for it; without a declaration the lowest declared for
      the wildcard; without that none. */
  lemma {:induction false} QualityMeans(accept: string, encoding: string)
    ensures Declared(Parts(accept), encoding) ==> Lowest(Parts(accept), encoding, Quality(accept, encoding))
    ensures !Declared(Parts(accept), encoding) && Declared(Parts(accept), "*") ==>
              Lowest(Parts(accept), "*", Quality(accept, encoding))
    ensures !Declared(Parts(accept), encoding) && !Declared(Parts(accept), "*") ==> Quality(accept, encoding) == 0
  {
    hide DeclareAll, Split, LowerAll, Declared, Lowest;
    LowestDeclared(Parts(accept), encoding);
    LowestDeclared(Parts(accept), "*");
  }

  // ---------------------------------------------------------------- which parameter counts

  predicate AllSpace(s: string) { forall i :: 0 <= i < |s| ==> Space(s[i]) }

  /** `q`, an equals sign, blanks around it, and the value. */
  ghost predicate QParameter(p: string, raw: string) {
    && (raw != "" ==> !Space(raw[0]))
    && exists a, b :: 0 <= a && 0 <= b && IsQ(p, a, b, raw)
  }

  predicate IsQ(p: string, a: int, b: int, raw: string) {
    && 0 <= a && 0 <= b && |p| == 2 + a + b + |raw|
    && p[0] == 'q' && AllSpace(p[1..1 + a]) && p[1 + a] == '=' && AllSpace(p[2 + a..2 + a + b])
    && p[2 + a + b..] == raw
  }

  lemma {:induction false} SkipIs(s: string)
    ensures (var r := SkipSpace(s);
             var n := |s| - |r|;
             AllSpace(s[..n]) && s[n..] == r && (r != "" ==> !Space(r[0])))
  {
    if s != "" && Space(s[0]) {
      SkipIs(s[1..]);
      var n := |s| - |SkipSpace(s)|;
      assert s[..n] == [s[0]] + s[1..][..n - 1];
      assert s[n..] == s[1..][n - 1..];
    }
  }

  lemma {:induction false} SkipAll(s: string, n: nat)
    requires n <= |s| && AllSpace(s[..n]) && (n < |s| ==> !Space(s[n]))
    ensures SkipSpace(s) == s[n..]
    decreases n
  {
    if n > 0 {
      assert s[..n][0] == s[0];
      assert s[1..][..n - 1] == s[..n][1..];
      SkipAll(s[1..], n - 1);
      assert s[n..] == s[1..][n - 1..];
    }
  }

  /** A parameter is a quality exactly when it has that form. */
  lemma {:induction false} QualityParameter(p: string, raw: string)
    ensures QValue(p) == Some(raw) <==> QParameter(p, raw)
  {
    hide SkipSpace, Space;
    if QValue(p) == Some(raw) {
      SkipIs(p[1..]);
      var rest := SkipSpace(p[1..]);
      var a := |p| - 1 - |rest|;
      SkipIs(rest[1..]);
      var b := |rest| - 1 - |raw|;
      assert p[1..][..a] == p[1..1 + a];
      assert p[1 + a..] == rest && p[2 + a..] == rest[1..];
      assert p[2 + a..2 + a + b] == rest[1..][..b];
      assert p[2 + a + b..] == rest[1..][b..];
      assert IsQ(p, a, b, raw);
    }
    if QParameter(p, raw) {
      var a, b :| 0 <= a && 0 <= b && IsQ(p, a, b, raw);
      assert p[1..][..a] == p[1..1 + a];
      EqualsSign();
      SkipAll(p[1..], a);
      var rest := p[1..][a..];
      assert rest == p[1 + a..] && rest[0] == '=';
      assert rest[1..][..b] == p[2 + a..2 + a + b];
      assert rest[1..][b..] == raw;
      SkipAll(rest[1..], b);
    }
  }

  lemma {:induction false} EqualsSign()
    ensures !Space('=')
  {
  }

  lemma {:induction false} NoQuality(ps: seq<string>)
    requires forall k :: 0 <= k < |ps| ==> QValue(Strip(ps[k])).None?
    ensures QOf(ps) == 1000
    decreases |ps|
  {
    hide QValue, Strip, Thousandths;
    if ps != [] {
      NoQuality(ps[..|ps| - 1]);
    }
  }

  /** The last parameter that is a quality counts, and without one the quality is full. */
  lemma {:induction false} LastQuality(ps: seq<string>, k: int)
    ensures LastQ(ps, k) ==> QOf(ps) == Thousandths(QValue(Strip(ps[k])).value)
    ensures (forall j :: 0 <= j < |ps| ==> QValue(Strip(ps[j])).None?) ==> QOf(ps) == 1000
    decreases |ps|
  {
    hide QValue, Strip, Thousandths;
    if forall j :: 0 <= j < |ps| ==> QValue(Strip(ps[j])).None? {
      NoQuality(ps);
    }
    if LastQ(ps, k) && k < |ps| - 1 {
      LastQuality(ps[..|ps| - 1], k);
    }
  }

  predicate LastQ(ps: seq<string>, k: int) {
    && 0 <= k < |ps| && QValue(Strip(ps[k])).Some?
    && forall j :: k < j < |ps| ==> QValue(Strip(ps[j])).None?
  }

  // ---------------------------------------------------------------- which texts are quality values

  predicate AllDigits(s: string) { forall i :: 0 <= i < |s| ==> IsDigit(s[i]) }

  predicate AllZeros(s: string) { forall i :: 0 <= i < |s| ==> s[i] == '0' }

  /** Section 12.4.2 of RFC 9110: 0 with up to three decimals, or 1 with up to three zeros. */
  predicate IsQValue(raw: string) {
    && raw != ""
    && (raw[0] == '0' || raw[0] == '1')
    && (|raw| > 1 ==> raw[1] == '.' && |raw| <= 5 && AllDigits(raw[2..]))
    && (|raw| > 1 && raw[0] == '1' ==> AllZeros(raw[2..]))
  }

  function Scale(n: nat): nat { if n == 0 then 1000 else if n == 1 then 100 else if n == 2 then 10 else 1 }

  /** A quality value is what it says in thousandths; any other text is quality 0. */
  lemma {:induction false} ThousandthsMeans(raw: string)
    ensures !IsQValue(raw) ==> Thousandths(raw) == 0
    ensures IsQValue(raw) && raw[0] == '1' ==> Thousandths(raw) == 1000
    ensures IsQValue(raw) && raw[0] == '0' ==>
              Thousandths(raw) == if |raw| <= 2 then 0 else Value(raw[2..]) * Scale(|raw| - 2)
  {
    assert raw == "1" || raw == "0" || raw == "" || |raw| > 1 || (raw[0] != '0' && raw[0] != '1');
    if |raw| > 2 && AllDigits(raw[2..]) {
      DigitsValue(raw[2..]);
    }
    hide Value, DigitValue;
    assert |raw| > 2 ==> forall i :: 2 <= i < |raw| ==> raw[i] == raw[2..][i - 2];
  }

  lemma {:induction false} DigitsValue(s: string)
    requires AllDigits(s) && s != ""
    ensures |s| == 1 ==> Value(s) == DigitValue(s[0])
    ensures |s| == 2 ==> Value(s) == 10 * DigitValue(s[0]) + DigitValue(s[1])
    ensures |s| == 3 ==> Value(s) == 100 * DigitValue(s[0]) + 10 * DigitValue(s[1]) + DigitValue(s[2])
    decreases |s|
  {
    if |s| > 1 {
      DigitsValue(s[..|s| - 1]);
    }
  }
}
