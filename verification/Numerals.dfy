/** Decimal numerals as `format!` prints them, and the orders that text inherits from numbers. */
module Numerals {

  function Digit(d: nat): (c: char)
    requires d < 10
    ensures '0' <= c <= '9'
  {
    '0' + d as char
  }

  predicate IsDigit(c: char) { '0' <= c <= '9' }

  function DigitValue(c: char): (d: nat)
    requires IsDigit(c)
    ensures d < 10 && Digit(d) == c
  {
    (c - '0') as nat
  }

  /** Plain decimal. */
  function Dec(n: nat): (s: string)
    ensures |s| >= 1 && forall i :: 0 <= i < |s| ==> IsDigit(s[i])
  {
    if n < 10 then [Digit(n)] else Dec(n / 10) + [Digit(n % 10)]
  }

  /** Value of a string of digits. */
  function Value(s: string): nat
    requires forall i :: 0 <= i < |s| ==> IsDigit(s[i])
  {
    if s == [] then 0 else 10 * Value(s[..|s| - 1]) + DigitValue(s[|s| - 1])
  }

  /** Decimal padded with zeros to at least `width` characters. */
  function Pad(n: nat, width: nat): (s: string)
    ensures |s| >= 1 && forall i :: 0 <= i < |s| ==> IsDigit(s[i])
    decreases width, n
  {
    if width <= 1 then Dec(n)
    else if n < 10 then Zeros(width - 1) + [Digit(n)]
    else Pad(n / 10, width - 1) + [Digit(n % 10)]
  }

  function Zeros(k: nat): (s: string)
    ensures |s| == k && forall i :: 0 <= i < |s| ==> s[i] == '0'
  {
    if k == 0 then [] else Zeros(k - 1) + ['0']
  }

  lemma {:induction false} ZerosValue(k: nat)
    ensures Value(Zeros(k)) == 0
  {
    if k > 0 {
      ZerosValue(k - 1);
      assert Zeros(k)[..k - 1] == Zeros(k - 1);
    }
  }

  lemma {:induction false} DecValue(n: nat)
    ensures Value(Dec(n)) == n
  {
    if n >= 10 {
      DecValue(n / 10);
      ValueOfMore(Dec(n / 10), n % 10);
    } else {
      assert Dec(n)[..0] == [];
    }
  }

  /** Padding changes the width, never the number: two numbers never print alike. */
  lemma {:induction false} PadValue(n: nat, width: nat)
    ensures Value(Pad(n, width)) == n
    decreases width, n
  {
    hide Digit, Value;
    if width <= 1 {
      DecValue(n);
    } else if n < 10 {
      ZerosValue(width - 1);
      ValueOfMore(Zeros(width - 1), n);
    } else {
      PadValue(n / 10, width - 1);
      ValueOfMore(Pad(n / 10, width - 1), n % 10);
    }
  }

  lemma {:induction false} ValueOfMore(s: string, d: nat)
    requires d < 10 && forall i :: 0 <= i < |s| ==> IsDigit(s[i])
    ensures Value(s + [Digit(d)]) == 10 * Value(s) + d
  {
    assert (s + [Digit(d)])[..|s|] == s;
  }

  lemma {:induction false} PadInjective(a: nat, b: nat, width: nat)
    requires Pad(a, width) == Pad(b, width)
    ensures a == b
  {
    PadValue(a, width);
    PadValue(b, width);
  }

  lemma {:induction false} DecWidth(n: nat, width: nat)
    requires width >= 1 && n < Power10(width)
    ensures |Dec(n)| <= width
  {
    if n >= 10 {
      DecWidth(n / 10, width - 1);
    }
  }

  function Power10(k: nat): (p: nat)
    ensures p >= 1
  {
    if k == 0 then 1 else 10 * Power10(k - 1)
  }

  lemma {:induction false} PadWidth(n: nat, width: nat)
    requires width >= 1 && n < Power10(width)
    ensures |Pad(n, width)| == width
    decreases width, n
  {
    if width == 1 {
      DecWidth(n, 1);
    } else if n >= 10 {
      PadWidth(n / 10, width - 1);
    }
  }

  // ---------------------------------------------------------------- text order

  /** `<` on strings: first differing character decides, a proper prefix comes first. */
  predicate TextLess(a: string, b: string)
    decreases |a|
  {
    if b == [] then false
    else if a == [] then true
    else if a[0] != b[0] then a[0] < b[0]
    else TextLess(a[1..], b[1..])
  }

  lemma {:induction false} TextLessIrreflexive(a: string)
    ensures !TextLess(a, a)
    decreases |a|
  {
    if a != [] { TextLessIrreflexive(a[1..]); }
  }

  /** Text order is total. */
  lemma {:induction false} TextLessTotal(a: string, b: string)
    ensures TextLess(a, b) || TextLess(b, a) || a == b
    ensures !(TextLess(a, b) && TextLess(b, a))
    decreases |a|
  {
    if a != [] && b != [] && a[0] == b[0] {
      TextLessTotal(a[1..], b[1..]);
      if a[1..] == b[1..] {
        assert a == [a[0]] + a[1..] && b == [b[0]] + b[1..];
      }
    }
  }

  /** Digit texts of one length compare as numbers. */
  lemma {:induction false} SameWidthOrder(s: string, t: string)
    requires |s| == |t|
    requires forall i :: 0 <= i < |s| ==> IsDigit(s[i]) && IsDigit(t[i])
    ensures TextLess(s, t) <==> Value(s) < Value(t)
    ensures s == t <==> Value(s) == Value(t)
    decreases |s|
  {
    if s != [] {
      var k := |s| - 1;
      SameWidthOrder(s[..k], t[..k]);
      assert s == s[..k] + [s[k]] && t == t[..k] + [t[k]];
      TextLessSplit(s[..k], t[..k], [s[k]], [t[k]]);
      assert [s[k]][1..] == [] && [t[k]][1..] == [];
      assert DigitValue(s[k]) < DigitValue(t[k]) <==> s[k] < t[k];
    }
  }

  /** The number the first digits of a text spell. */
  lemma {:induction false} ValueOfHead(s: string, k: nat)
    requires k <= |s| && forall i :: 0 <= i < |s| ==> IsDigit(s[i])
    ensures Value(s[..k]) == Value(s) / Power10(|s| - k)
    decreases |s|
  {
    if k == |s| {
      assert s[..k] == s && Power10(0) == 1;
    } else {
      var n := |s| - 1;
      ValueOfHead(s[..n], k);
      assert s[..n][..k] == s[..k];
      DivideByTen(Value(s[..n]), DigitValue(s[n]), Power10(n - k));
    }
  }

  lemma {:induction false} DivideByTen(v: nat, d: nat, p: nat)
    requires d < 10 && p >= 1
    ensures (10 * v + d) / (10 * p) == v / p
  {
    var q, r := v / p, v % p;
    assert v == p * q + r;
    assert 10 * v + d == (10 * p) * q + (10 * r + d);
    assert 10 * r + d < 10 * p;
    DivideExact(10 * v + d, 10 * p, q, 10 * r + d);
  }

  lemma {:induction false} DivideExact(n: nat, p: nat, q: nat, r: nat)
    requires n == p * q + r && r < p
    ensures n / p == q
  {
    ScaleStrictly(p, n / p, q);
    ScaleStrictly(p, q, n / p);
  }

  lemma {:induction false} ScaleStrictly(p: nat, x: nat, y: nat)
    ensures x < y ==> p * x + p <= p * y
    decreases y
  {
    if x < y {
      ScaleStrictly(p, x, y - 1);
      assert p * y == p * (y - 1) + p;
    }
  }

  /** A larger number is not printed with fewer digits. */
  lemma {:induction false} PadGrows(a: nat, b: nat, width: nat)
    requires a <= b
    ensures |Pad(a, width)| <= |Pad(b, width)|
    decreases width, b
  {
    if width <= 1 {
      DecGrows(a, b);
    } else if b >= 10 {
      AtLeast(b, width);
      if a >= 10 {
        PadGrows(a / 10, b / 10, width - 1);
      }
    }
  }

  lemma {:induction false} AtLeast(n: nat, width: nat)
    ensures |Pad(n, width)| >= width
    decreases width
  {
    if width > 1 && n >= 10 {
      AtLeast(n / 10, width - 1);
    }
  }

  lemma {:induction false} DecGrows(a: nat, b: nat)
    requires a <= b
    ensures |Dec(a)| <= |Dec(b)|
  {
    if a >= 10 {
      DecGrows(a / 10, b / 10);
    }
  }

  /** Equal-length heads decide first. */
  lemma {:induction false} TextLessSplit(a: string, b: string, x: string, y: string)
    requires |a| == |b|
    ensures TextLess(a + x, b + y) <==> TextLess(a, b) || (a == b && TextLess(x, y))
    decreases |a|
  {
    if a == [] {
      assert a + x == x && b + y == y;
    } else {
      assert (a + x)[1..] == a[1..] + x && (b + y)[1..] == b[1..] + y;
      TextLessSplit(a[1..], b[1..], x, y);
      if a[0] == b[0] && a[1..] == b[1..] {
        assert a == [a[0]] + a[1..] && b == [b[0]] + b[1..];
      }
    }
  }

  /** Zero-padded numbers of one width compare as numbers. */
  lemma {:induction false} PadOrder(a: nat, b: nat, width: nat)
    requires width >= 1 && a < Power10(width) && b < Power10(width)
    ensures TextLess(Pad(a, width), Pad(b, width)) <==> a < b
    decreases width
  {
    hide TextLess, Digit;
    if width == 1 {
      DigitOrder(a, b);
    } else {
      PadSplit(a, width);
      PadSplit(b, width);
      PadWidth(a / 10, width - 1);
      PadWidth(b / 10, width - 1);
      PadOrder(a / 10, b / 10, width - 1);
      TextLessSplit(Pad(a / 10, width - 1), Pad(b / 10, width - 1), [Digit(a % 10)], [Digit(b % 10)]);
      DigitOrder(a % 10, b % 10);
      if Pad(a / 10, width - 1) == Pad(b / 10, width - 1) {
        PadInjective(a / 10, b / 10, width - 1);
      }
    }
  }

  lemma {:induction false} DigitOrder(a: nat, b: nat)
    requires a < 10 && b < 10
    ensures TextLess([Digit(a)], [Digit(b)]) <==> a < b
  {
    assert [Digit(a)][1..] == [] && [Digit(b)][1..] == [];
  }

  lemma {:induction false} PadSplit(n: nat, width: nat)
    requires width >= 2
    ensures Pad(n, width) == Pad(n / 10, width - 1) + [Digit(n % 10)]
  {
    if n < 10 {
      assert n / 10 == 0;
      if width == 2 {
        assert Zeros(0) == [];
        assert Zeros(1) == ['0'];
        assert Pad(0, 1) == ['0'];
      } else {
        assert Zeros(width - 1) == Zeros(width - 2) + ['0'];
      }
    }
  }
}
