/** Lists of codes: sorting with removal of duplicates, filtering. */
module CodeLists {
  import opened Numerals

  /** Strictly increasing in text order. */
  predicate Sorted(xs: seq<string>) {
    forall i, j :: 0 <= i < j < |xs| ==> TextLess(xs[i], xs[j])
  }

  lemma {:induction false} TextLessTransitive(a: string, b: string, c: string)
    requires TextLess(a, b) && TextLess(b, c)
    ensures TextLess(a, c)
    decreases |a|
  {
    if a != [] && b != [] && c != [] && a[0] == b[0] && b[0] == c[0] {
      TextLessTransitive(a[1..], b[1..], c[1..]);
    }
  }

  function Insert(x: string, xs: seq<string>): seq<string> {
    if xs == [] then [x]
    else if x == xs[0] then xs
    else if TextLess(x, xs[0]) then [x] + xs
    else [xs[0]] + Insert(x, xs[1..])
  }

  /** `sort` followed by `dedup`. */
  function Normal(xs: seq<string>): seq<string>
    decreases |xs|
  {
    if xs == [] then [] else Insert(xs[|xs| - 1], Normal(xs[..|xs| - 1]))
  }

  lemma {:induction false} InsertMembers(x: string, xs: seq<string>)
    ensures forall c :: c in Insert(x, xs) <==> c == x || c in xs
    decreases |xs|
  {
    if xs != [] {
      InsertMembers(x, xs[1..]);
      assert xs == [xs[0]] + xs[1..];
    }
  }

  lemma {:induction false} InsertSorted(x: string, xs: seq<string>)
    requires Sorted(xs)
    ensures Sorted(Insert(x, xs))
    decreases |xs|
  {
    if xs != [] && x != xs[0] {
      if TextLess(x, xs[0]) {
        forall i | 0 <= i < |xs| ensures TextLess(x, xs[i]) {
          if i > 0 { TextLessTransitive(x, xs[0], xs[i]); }
        }
      } else {
        TextLessTotal(x, xs[0]);
        InsertSorted(x, xs[1..]);
        InsertMembers(x, xs[1..]);
        var r := Insert(x, xs[1..]);
        forall i | 0 <= i < |r| ensures TextLess(xs[0], r[i]) {
          assert r[i] in r;
          if r[i] != x {
            var k :| 0 <= k < |xs[1..]| && xs[1..][k] == r[i];
            assert xs[k + 1] == r[i];
          }
        }
      }
    }
  }

  lemma {:induction false} NormalMembers(xs: seq<string>)
    ensures forall c :: c in Normal(xs) <==> c in xs
    decreases |xs|
  {
    if xs != [] {
      NormalMembers(xs[..|xs| - 1]);
      InsertMembers(xs[|xs| - 1], Normal(xs[..|xs| - 1]));
      assert xs == xs[..|xs| - 1] + [xs[|xs| - 1]];
    }
  }

  lemma {:induction false} NormalSorted(xs: seq<string>)
    ensures Sorted(Normal(xs))
    decreases |xs|
  {
    if xs != [] {
      NormalSorted(xs[..|xs| - 1]);
      InsertSorted(xs[|xs| - 1], Normal(xs[..|xs| - 1]));
    }
  }

  /** A sorted list is determined by its members. */
  lemma {:induction false} SortedUnique(a: seq<string>, b: seq<string>)
    requires Sorted(a) && Sorted(b)
    requires forall c :: c in a <==> c in b
    ensures a == b
    decreases |a|
  {
    assert a != [] ==> a[0] in a;
    assert b != [] ==> b[0] in b;
    if a != [] && b != [] {
      assert a[0] in a && a[0] in b;
      assert b[0] in b && b[0] in a;
      var i :| 0 <= i < |b| && b[i] == a[0];
      var j :| 0 <= j < |a| && a[j] == b[0];
      TextLessTotal(a[0], b[0]);
      assert a[0] == b[0];
      TailMembers(a);
      TailMembers(b);
      SortedUnique(a[1..], b[1..]);
      assert a == [a[0]] + a[1..] && b == [b[0]] + b[1..];
    }
  }

  lemma {:induction false} TailMembers(a: seq<string>)
    requires a != [] && Sorted(a)
    ensures Sorted(a[1..])
    ensures forall c :: c in a[1..] <==> c in a && c != a[0]
  {
    forall c ensures c in a[1..] <==> c in a && c != a[0] {
      if c in a[1..] {
        var i :| 0 <= i < |a[1..]| && a[1..][i] == c;
        assert a[i + 1] == c;
        TextLessIrreflexive(c);
      }
      if c in a && c != a[0] {
        var i :| 0 <= i < |a| && a[i] == c;
        assert a[1..][i - 1] == c;
      }
    }
  }

  lemma {:induction false} NormalOfSorted(xs: seq<string>)
    requires Sorted(xs)
    ensures Normal(xs) == xs
  {
    NormalSorted(xs);
    NormalMembers(xs);
    SortedUnique(Normal(xs), xs);
  }

  /** Keep the members of `xs` that are in `ys` (`keep`) or that are not. */
  function Filter(xs: seq<string>, ys: seq<string>, keep: bool): seq<string>
    decreases |xs|
  {
    if xs == [] then []
    else
      Filter(xs[..|xs| - 1], ys, keep)
      + (if (xs[|xs| - 1] in ys) == keep then [xs[|xs| - 1]] else [])
  }

  lemma {:induction false} FilterMembers(xs: seq<string>, ys: seq<string>, keep: bool)
    ensures forall c :: c in Filter(xs, ys, keep) <==> c in xs && (c in ys) == keep
    decreases |xs|
  {
    if xs != [] {
      FilterMembers(xs[..|xs| - 1], ys, keep);
      assert xs == xs[..|xs| - 1] + [xs[|xs| - 1]];
    }
  }

  lemma {:induction false} FilterLength(xs: seq<string>, ys: seq<string>, keep: bool)
    ensures |Filter(xs, ys, keep)| <= |xs|
    ensures Filter(xs, ys, keep) == xs <==> forall c :: c in xs ==> (c in ys) == keep
    decreases |xs|
  {
    if xs != [] {
      var q, x := xs[..|xs| - 1], xs[|xs| - 1];
      FilterLength(q, ys, keep);
      assert xs == q + [x];
      assert forall c :: c in xs <==> c in q || c == x;
    }
  }

  lemma {:induction false} FilterAppend(a: seq<string>, b: seq<string>, ys: seq<string>, keep: bool)
    ensures Filter(a + b, ys, keep) == Filter(a, ys, keep) + Filter(b, ys, keep)
    decreases |b|
  {
    if b == [] {
      assert a + b == a;
    } else {
      var i := |b| - 1;
      assert (a + b)[..|a + b| - 1] == a + b[..i];
      assert (a + b)[|a + b| - 1] == b[i];
      FilterAppend(a, b[..i], ys, keep);
    }
  }
}
