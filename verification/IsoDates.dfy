/**
  Calendar dates and the text `chrono` prints for them. The ERN code compares dates as text;
  `TextOrderExactlyWhen` says when that is the calendar order.
*/
module IsoDates {
  import opened Common
  import opened Numerals

  datatype Date = Date(year: int, month: nat, day: nat)

  /** Dates the calendar can hold at all (days of a month are not told apart here). */
  predicate ValidDate(d: Date) { 1 <= d.month <= 12 && 1 <= d.day <= 31 }

  predicate Before(a: Date, b: Date) {
    || a.year < b.year
    || (a.year == b.year && a.month < b.month)
    || (a.year == b.year && a.month == b.month && a.day < b.day)
  }

  /** `%Y`: four digits, with a sign before years outside 0..9999. */
  function YearText(y: int): (s: string)
    ensures |s| >= 1
  {
    if 0 <= y <= 9999 then Pad(y, 4)
    else if y > 9999 then "+" + Pad(y, 4)
    else "-" + Pad(-y, 4)
  }

  /** `%Y-%m-%d`. */
  function Iso(d: Date): string
  {
    YearText(d.year) + ("-" + (Pad(d.month, 2) + ("-" + Pad(d.day, 2))))
  }

  lemma {:induction false} Power10Small()
    ensures Power10(1) == 10 && Power10(2) == 100 && Power10(3) == 1000 && Power10(4) == 10000
  {
    assert Power10(1) == 10 * Power10(0);
    assert Power10(2) == 10 * Power10(1);
    assert Power10(3) == 10 * Power10(2);
    assert Power10(4) == 10 * Power10(3);
  }

  /** Month and day decide between dates of one year. */
  lemma {:induction false} SameYear(a: Date, b: Date)
    requires ValidDate(a) && ValidDate(b) && a.year == b.year
    ensures TextLess(Iso(a), Iso(b)) <==> Before(a, b)
  {
    var y := YearText(a.year);
    var ma, mb, da, db := Pad(a.month, 2), Pad(b.month, 2), Pad(a.day, 2), Pad(b.day, 2);
    Power10Small();
    PadWidth(a.month, 2); PadWidth(b.month, 2);
    PadOrder(a.month, b.month, 2);
    PadOrder(a.day, b.day, 2);
    PadValue(a.month, 2); PadValue(b.month, 2);
    TextLessSplit(y, y, "-" + (ma + ("-" + da)), "-" + (mb + ("-" + db)));
    TextLessIrreflexive(y);
    TextLessSplit("-", "-", ma + ("-" + da), mb + ("-" + db));
    TextLessIrreflexive("-");
    TextLessSplit(ma, mb, "-" + da, "-" + db);
    TextLessSplit("-", "-", da, db);
  }

  /** On years 0..9999 text order is calendar order. */
  lemma {:induction false} TextOrderIsDateOrder(a: Date, b: Date)
    requires ValidDate(a) && ValidDate(b)
    requires 0 <= a.year <= 9999 && 0 <= b.year <= 9999
    ensures TextLess(Iso(a), Iso(b)) <==> Before(a, b)
  {
    hide TextLess, Pad;
    if a.year == b.year {
      SameYear(a, b);
    } else {
      Power10Small();
      PadWidth(a.year, 4); PadWidth(b.year, 4);
      PadOrder(a.year, b.year, 4);
      PadValue(a.year, 4); PadValue(b.year, 4);
      TextLessSplit(Pad(a.year, 4), Pad(b.year, 4), "-" + (Pad(a.month, 2) + ("-" + Pad(a.day, 2))),
                    "-" + (Pad(b.month, 2) + ("-" + Pad(b.day, 2))));
    }
  }

  // ---------------------------------------------------------------- every year

  /** Digits a year's magnitude prints with. */
  function Width(n: nat): nat { |Pad(n, 4)| }

  /** Of two magnitudes the smaller one also reads first: it is not above the leading digits of the
      larger one. */
  predicate ReadsFirst(small: nat, large: nat)
    requires small < large
  {
    WidthGrows(small, large);
    small <= large / Power10(Width(large) - Width(small))
  }

  /** The years for which text order is calendar order. Years past 9999 print a plus sign, which reads
      before the minus sign of negative years, and that before any digit. */
  predicate YearsAgree(y: int, z: int) {
    var lo, hi := Min(y, z), Max(y, z);
    || lo == hi
    || (lo < hi < 0 && !ReadsFirst(-hi, -lo))
    || lo < 0 <= hi <= 9999
    || 0 <= lo <= hi <= 9999
    || (9999 < lo < hi && ReadsFirst(lo, hi))
  }

  lemma {:induction false} WidthGrows(a: nat, b: nat)
    requires a <= b
    ensures Width(a) <= Width(b)
  {
    PadGrows(a, b, 4);
  }

  /** Two magnitudes, each followed by a dash. */
  lemma {:induction false} MagnitudesBeforeDash(a: nat, b: nat, x: string, y: string)
    requires a < b
    ensures TextLess(Pad(a, 4) + ("-" + x), Pad(b, 4) + ("-" + y)) <==> ReadsFirst(a, b)
    ensures Pad(a, 4) + ("-" + x) != Pad(b, 4) + ("-" + y)
  {
    hide Pad, TextLess, Value;
    var s, t := Pad(a, 4), Pad(b, 4);
    WidthGrows(a, b);
    PadValue(a, 4);
    PadValue(b, 4);
    ValueOfHead(t, |s|);
    SameWidthOrder(s, t[..|s|]);
    assert Power10(0) == 1;
    assert |s| == |t| ==> t[..|s|] == t;
    DashAfterHead(s, t, x, y);
  }

  /** A dash reads before any further digit. */
  lemma {:induction false} DashAfterHead(s: string, t: string, x: string, y: string)
    requires |s| <= |t| && s != t
    requires forall i :: 0 <= i < |t| ==> IsDigit(t[i])
    ensures TextLess(s + ("-" + x), t + ("-" + y))
       <==> TextLess(s, t[..|s|]) || (s == t[..|s|] && |s| < |t|)
    ensures s + ("-" + x) != t + ("-" + y)
  {
    var head, rest := t[..|s|], t[|s|..] + ("-" + y);
    assert t + ("-" + y) == head + rest;
    assert |s| < |t| ==> rest[0] == t[|s|];
    TextLessSplit(s, head, "-" + x, rest);
    if |s| == |t| {
      assert head == t;
    } else {
      assert (s + ("-" + x))[|s|] == '-' && (t + ("-" + y))[|s|] == t[|s|];
    }
    assert forall i :: 0 <= i < |s| ==> (s + ("-" + x))[i] == s[i] && (t + ("-" + y))[i] == t[i];
  }

  /** Dates of different years of one sign. */
  lemma {:induction false} OneSign(a: Date, b: Date)
    requires ValidDate(a) && ValidDate(b)
    requires (9999 < a.year < b.year) || b.year < a.year < 0
    ensures (var m, n := Magnitude(a.year), Magnitude(b.year);
             TextLess(Iso(a), Iso(b)) <==> ReadsFirst(m, n))
    ensures Iso(a) != Iso(b)
  {
    var m, n := Magnitude(a.year), Magnitude(b.year);
    hide TextLess, Pad, ReadsFirst;
    var sign := if a.year < 0 then "-" else "+";
    var x, y := Pad(a.month, 2) + ("-" + Pad(a.day, 2)), Pad(b.month, 2) + ("-" + Pad(b.day, 2));
    MagnitudesBeforeDash(m, n, x, y);
    assert Iso(a) == sign + (Pad(m, 4) + ("-" + x));
    assert Iso(b) == sign + (Pad(n, 4) + ("-" + y));
    SameSign(sign, Pad(m, 4) + ("-" + x), Pad(n, 4) + ("-" + y));
  }

  lemma {:induction false} SameSign(sign: string, s: string, t: string)
    ensures TextLess(sign + s, sign + t) <==> TextLess(s, t)
    ensures sign + s == sign + t ==> s == t
  {
    TextLessSplit(sign, sign, s, t);
    TextLessIrreflexive(sign);
    assert (sign + s)[|sign|..] == s && (sign + t)[|sign|..] == t;
  }

  function Magnitude(y: int): nat { if y < 0 then -y else y }

  /** The first character orders the three kinds of years. */
  lemma {:induction false} KindsOfYears(a: Date, b: Date)
    ensures a.year > 9999 && b.year <= 9999 ==> TextLess(Iso(a), Iso(b)) && !TextLess(Iso(b), Iso(a))
    ensures a.year < 0 <= b.year <= 9999 ==> TextLess(Iso(a), Iso(b)) && !TextLess(Iso(b), Iso(a))
  {
    assert a.year > 9999 ==> Iso(a)[0] == '+';
    assert a.year < 0 ==> Iso(a)[0] == '-';
    assert b.year < 0 ==> Iso(b)[0] == '-';
    assert 0 <= b.year <= 9999 ==> IsDigit(Iso(b)[0]);
  }

  /** For all dates: comparing the texts is comparing the dates exactly when the years agree. */
  lemma {:induction false} TextOrderExactlyWhen(a: Date, b: Date)
    requires ValidDate(a) && ValidDate(b)
    ensures (TextLess(Iso(a), Iso(b)) <==> Before(a, b)) <==> YearsAgree(a.year, b.year)
  {
    hide Iso, TextLess, ReadsFirst;
    KindsOfYears(a, b);
    KindsOfYears(b, a);
    if a.year == b.year {
      SameYear(a, b);
    } else if 0 <= a.year <= 9999 && 0 <= b.year <= 9999 {
      TextOrderIsDateOrder(a, b);
    } else if (9999 < a.year && 9999 < b.year) || (a.year < 0 && b.year < 0) {
      var (near, far) := if Magnitude(a.year) < Magnitude(b.year) then (a, b) else (b, a);
      OneSign(near, far);
      TextLessTotal(Iso(a), Iso(b));
    }
  }

  /** Two dates never print alike. */
  lemma {:induction false} IsoInjective(a: Date, b: Date)
    requires ValidDate(a) && ValidDate(b)
    ensures Iso(a) == Iso(b) ==> a == b
  {
    TextLessIrreflexive(Iso(a));
    KindsOfYears(a, b);
    KindsOfYears(b, a);
    if a.year == b.year {
      SameYear(a, b);
      SameYear(b, a);
    } else if 0 <= a.year <= 9999 && 0 <= b.year <= 9999 {
      TextOrderIsDateOrder(a, b);
      TextOrderIsDateOrder(b, a);
    } else if (9999 < a.year && 9999 < b.year) || (a.year < 0 && b.year < 0) {
      if Magnitude(a.year) < Magnitude(b.year) {
        OneSign(a, b);
      } else {
        OneSign(b, a);
      }
    }
    hide Iso;
  }

  /** A year past 9999 prints a sign, and every such date reads before every date of the years 0 to
      9999: there text order is the opposite of calendar order. */
  lemma {:induction false} TextOrderFailsPast9999(a: Date, b: Date)
    requires 0 <= a.year <= 9999 < b.year
    ensures Before(a, b) && TextLess(Iso(b), Iso(a)) && !TextLess(Iso(a), Iso(b))
  {
    KindsOfYears(b, a);
  }
}
