/**
  The rate limiter of `auth.rs`: a counter per bucket and fixed 15-minute windows, which stops
  counting once it is over. Compared with a plain counter that always increments, over sliding
  intervals, and when statements race (the read that finds a bucket over is older than the row
  the update then meets).
*/
module RateLimit {
  import opened Common

  /** Fifteen minutes, in microseconds. */
  const WINDOW := 900_000_000

  datatype Row = Row(attempts: nat, start: int)

  predicate Expired(r: Row, now: int) { r.start < now - WINDOW }

  /** What a plain read calls over. */
  predicate Over(r: Option<Row>, limit: int, now: int) {
    r.Some? && r.value.attempts > limit && !Expired(r.value, now)
  }

  /** Insert or count: a new window starts when there was none or the old one has passed. */
  function Counted(r: Option<Row>, now: int): Row {
    if r.None? || Expired(r.value, now) then Row(1, now) else r.value.(attempts := r.value.attempts + 1)
  }

  // ---------------------------------------------------------------- one bucket

  /** `rate`, alone: the row after the call and whether it is admitted. */
  function Rate(r: Option<Row>, limit: int, now: int): (Option<Row>, bool) {
    if Over(r, limit, now) then (r, false)
    else (Some(Counted(r, now)), Counted(r, now).attempts <= limit)
  }

  /** A counter that always increments. */
  function Plain(r: Option<Row>, limit: int, now: int): (Option<Row>, bool) {
    (Some(Counted(r, now)), Counted(r, now).attempts <= limit)
  }

  function Rates(limit: int, times: seq<int>): Option<Row>
    decreases |times|
  {
    if times == [] then None
    else Rate(Rates(limit, times[..|times| - 1]), limit, times[|times| - 1]).0
  }

  function Plains(limit: int, times: seq<int>): Option<Row>
    decreases |times|
  {
    if times == [] then None
    else Plain(Plains(limit, times[..|times| - 1]), limit, times[|times| - 1]).0
  }

  /** Whether call `k` is admitted. */
  predicate Admits(limit: int, times: seq<int>, k: nat)
    requires k < |times|
  {
    Rate(Rates(limit, times[..k]), limit, times[k]).1
  }

  predicate PlainAdmits(limit: int, times: seq<int>, k: nat)
    requires k < |times|
  {
    Plain(Plains(limit, times[..k]), limit, times[k]).1
  }

  /** Where the frozen counter stops. */
  function Cap(limit: int): nat { if limit < 0 then 1 else limit + 1 }

  /** The frozen counter is the plain one cut off one past the limit, whatever the times of the
      calls (not even in order). */
  lemma {:induction false} FrozenIsPlainCutOff(limit: int, times: seq<int>)
    ensures Rates(limit, times).Some? <==> Plains(limit, times).Some?
    ensures Rates(limit, times).Some? ==>
              && Rates(limit, times).value.start == Plains(limit, times).value.start
              && Rates(limit, times).value.attempts == Min(Plains(limit, times).value.attempts, Cap(limit))
              && Rates(limit, times).value.attempts >= 1
    decreases |times|
  {
    if times != [] {
      FrozenIsPlainCutOff(limit, times[..|times| - 1]);
    }
  }

  /** So both give every call the same verdict. */
  lemma {:induction false} SameVerdicts(limit: int, times: seq<int>, k: nat)
    requires k < |times|
    ensures Admits(limit, times, k) <==> PlainAdmits(limit, times, k)
  {
    FrozenIsPlainCutOff(limit, times[..k]);
  }

  /** A call refused because the bucket already was over leaves it untouched. */
  lemma {:induction false} OverChangesNothing(r: Option<Row>, limit: int, now: int)
    ensures Over(r, limit, now) ==> Rate(r, limit, now) == (r, false)
    ensures !Over(r, limit, now) ==> Rate(r, limit, now).0 != r
  {
  }

  /** Once a bucket is over, however often it is called again in its window, every call is refused and
      the row stays as it is. */
  lemma {:induction false} FrozenWhileOver(limit: int, times: seq<int>, more: seq<int>)
    requires forall k :: 0 <= k < |more| ==> Over(Rates(limit, times), limit, more[k])
    ensures Rates(limit, times + more) == Rates(limit, times)
    ensures forall k :: |times| <= k < |times + more| ==> !Admits(limit, times + more, k)
    decreases |more|
  {
    hide Over;
    if more == [] {
      assert times + more == times;
    } else {
      var q := more[..|more| - 1];
      var all := times + more;
      FrozenWhileOver(limit, times, q);
      assert all[..|all| - 1] == times + q;
      OverChangesNothing(Rates(limit, times), limit, more[|more| - 1]);
      forall k | |times| <= k < |all| ensures !Admits(limit, all, k) {
        if k < |all| - 1 {
          assert (times + q)[..k] == all[..k] && (times + q)[k] == all[k];
          assert !Admits(limit, times + q, k);
        }
      }
    }
  }

  // ---------------------------------------------------------------- which calls are admitted

  /** The call that opened the window of call `k`: the window of the call before, while `k` comes no later
      than fifteen minutes after its opening. */
  function Opener(times: seq<int>, k: nat): (o: nat)
    requires k < |times|
    ensures o <= k
  {
    if k == 0 then 0
    else
      var o := Opener(times, k - 1);
      if times[k] - times[o] > 900_000_000 then k else o
  }

  lemma {:induction false} RowByWindow(limit: int, times: seq<int>, k: nat)
    requires k < |times|
    ensures (var r := Plains(limit, times[..k + 1]);
             r == Some(Row(k - Opener(times, k) + 1, times[Opener(times, k)])))
    decreases k
  {
    assert times[..k + 1][..k] == times[..k];
    if k > 0 {
      RowByWindow(limit, times, k - 1);
    } else {
      assert times[..0] == [];
    }
  }

  /** A call is admitted exactly when fewer than the limit came before it in its window: no call more
      and no call less, whatever the times. */
  lemma {:induction false} AdmittedExactlyWhen(limit: int, times: seq<int>, k: nat)
    requires k < |times|
    ensures Admits(limit, times, k) <==> k - Opener(times, k) < limit
  {
    SameVerdicts(limit, times, k);
    RowByWindow(limit, times, k);
    assert times[..k + 1][..k] == times[..k];
  }

  /** More than fifteen minutes after the last call admits again, however often a caller was refused. */
  lemma {:induction false} PausedIsAdmitted(limit: int, times: seq<int>, k: nat)
    requires 0 < k < |times| && limit >= 1 && InOrder(times)
    requires times[k] - times[k - 1] > 900_000_000
    ensures Admits(limit, times, k)
  {
    AdmittedExactlyWhen(limit, times, k);
    assert times[Opener(times, k - 1)] <= times[k - 1];
  }

  // ---------------------------------------------------------------- any fifteen minutes

  /** Calls admitted at times from `lo` to `lo` + 15 minutes, both included. */
  function AdmittedIn(limit: int, times: seq<int>, lo: int): nat
    decreases |times|
  {
    if times == [] then 0
    else
      var q, t := times[..|times| - 1], times[|times| - 1];
      AdmittedIn(limit, q, lo)
      + (if lo <= t <= lo + WINDOW && Rate(Rates(limit, q), limit, t).1 then 1 else 0)
  }

  predicate InOrder(times: seq<int>) {
    forall i, j :: 0 <= i < j < |times| ==> times[i] <= times[j]
  }

  /** A sliding interval meets at most two windows: the one running when it opens and one more. */
  lemma {:induction false} TwoWindows(limit: nat, times: seq<int>, lo: int)
    requires InOrder(times)
    ensures times != [] ==> Rates(limit, times).Some? && Rates(limit, times).value.start <= times[|times| - 1]
    ensures times != [] ==>
              (var r := Rates(limit, times).value;
               var admitted := AdmittedIn(limit, times, lo);
               && (r.start < lo ==> admitted <= Min(r.attempts, limit))
               && (lo <= r.start <= lo + WINDOW ==> admitted <= limit + Min(r.attempts, limit)))
    ensures times != [] && times[|times| - 1] < lo ==> AdmittedIn(limit, times, lo) == 0
    ensures AdmittedIn(limit, times, lo) <= 2 * limit
    decreases |times|
  {
    if times != [] {
      var q := times[..|times| - 1];
      TwoWindows(limit, q, lo);
      var t, before := times[|times| - 1], Rates(limit, q);
      assert q != [] ==> q[|q| - 1] <= t;
      assert q == [] ==> before == None && AdmittedIn(limit, q, lo) == 0;
      var (after, ok) := Rate(before, limit, t);
      assert Rates(limit, times) == after;
      assert AdmittedIn(limit, times, lo) == AdmittedIn(limit, q, lo) + (if lo <= t <= lo + WINDOW && ok then 1 else 0);
      assert ok ==> after.value.attempts <= limit;
    }
  }

  /** However calls arrive, no fifteen minutes admit more than twice the limit. */
  lemma {:induction false} SlidingBound(limit: int, times: seq<int>, lo: int)
    requires InOrder(times)
    ensures AdmittedIn(limit, times, lo) <= 2 * Allowed(limit)
    decreases |times|
  {
    if limit >= 0 {
      TwoWindows(limit, times, lo);
    } else if times != [] {
      SlidingBound(limit, times[..|times| - 1], lo);
    }
  }

  // ---------------------------------------------------------------- several buckets

  /** The rows, with the calls each bucket has admitted in its current window. */
  datatype Buckets = Buckets(rows: map<nat, Row>, admitted: map<nat, nat>)

  function RowOf(s: Buckets, b: nat): Option<Row> { if b in s.rows then Some(s.rows[b]) else None }

  function AdmittedOf(s: Buckets, b: nat): nat { if b in s.admitted then s.admitted[b] else 0 }

  /** The rows after counting every listed bucket. */
  function CountAll(s: Buckets, bs: seq<nat>, now: int): map<nat, Row>
    decreases |bs|
  {
    if bs == [] then s.rows
    else CountAll(s, bs[..|bs| - 1], now)[bs[|bs| - 1] := Counted(RowOf(s, bs[|bs| - 1]), now)]
  }

  /** Admissions per bucket: a new window starts from nothing. */
  function AdmitAll(s: Buckets, bs: seq<nat>, now: int, admitted: bool): map<nat, nat>
    decreases |bs|
  {
    if bs == [] then s.admitted
    else
      var b := bs[|bs| - 1];
      var restarted := RowOf(s, b).None? || Expired(RowOf(s, b).value, now);
      AdmitAll(s, bs[..|bs| - 1], now, admitted)
        [b := (if restarted then 0 else AdmittedOf(s, b)) + (if admitted then 1 else 0)]
  }

  predicate Distinct(bs: seq<nat>) {
    forall i, j :: 0 <= i < j < |bs| ==> bs[i] != bs[j]
  }

  predicate AnyOver(s: Buckets, limits: nat -> int, bs: seq<nat>, now: int) {
    exists i :: 0 <= i < |bs| && Over(RowOf(s, bs[i]), limits(bs[i]), now)
  }

  /** Every bucket's new count is within its limit. */
  predicate AllWithin(s: Buckets, limits: nat -> int, bs: seq<nat>, now: int) {
    forall i :: 0 <= i < |bs| ==> Counted(RowOf(s, bs[i]), now).attempts <= limits(bs[i])
  }

  /** Both calls, split as the database runs them: `sawOver` is what the read found, on a snapshot
      that may be older than the rows the update meets. The update of `rate` looks again; the update
      of `rate_all` does not. One bucket twice in a call is an error of the statement. */
  function Call(s: Buckets, limits: nat -> int, bs: seq<nat>, now: int, sawOver: bool): (Buckets, bool) {
    if sawOver || !Distinct(bs) then (s, false)
    else if |bs| == 1 && AnyOver(s, limits, bs, now) then (s, false)
    else
      var ok := AllWithin(s, limits, bs, now);
      (Buckets(CountAll(s, bs, now), AdmitAll(s, bs, now, ok)), ok)
  }

  datatype Request = Request(buckets: seq<nat>, now: int, sawOver: bool)

  function Calls(limits: nat -> int, rs: seq<Request>): Buckets
    decreases |rs|
  {
    if rs == [] then Buckets(map[], map[])
    else
      var r := rs[|rs| - 1];
      Call(Calls(limits, rs[..|rs| - 1]), limits, r.buckets, r.now, r.sawOver).0
  }

  lemma {:induction false} CountAllIs(s: Buckets, bs: seq<nat>, now: int)
    requires Distinct(bs)
    ensures forall b: nat :: b in CountAll(s, bs, now) <==> b in s.rows || b in bs
    ensures forall b: nat :: b in CountAll(s, bs, now) ==>
              CountAll(s, bs, now)[b] == if b in bs then Counted(RowOf(s, b), now) else s.rows[b]
    decreases |bs|
  {
    if bs != [] {
      var q := bs[..|bs| - 1];
      CountAllIs(s, q, now);
      assert forall b :: b in bs <==> b in q || b == bs[|bs| - 1];
      assert bs[|bs| - 1] !in q;
    }
  }

  function Restarted(s: Buckets, b: nat, now: int): nat {
    if RowOf(s, b).None? || Expired(RowOf(s, b).value, now) then 0 else AdmittedOf(s, b)
  }

  lemma {:induction false} AdmitAllIs(s: Buckets, bs: seq<nat>, now: int, ok: bool)
    requires Distinct(bs)
    ensures forall b: nat :: b in bs ==>
              b in AdmitAll(s, bs, now, ok)
              && AdmitAll(s, bs, now, ok)[b] == Restarted(s, b, now) + (if ok then 1 else 0)
    ensures forall b: nat :: b !in bs ==>
              (b in AdmitAll(s, bs, now, ok) <==> b in s.admitted)
              && (b in s.admitted ==> AdmitAll(s, bs, now, ok)[b] == s.admitted[b])
    decreases |bs|
  {
    if bs != [] {
      var q := bs[..|bs| - 1];
      AdmitAllIs(s, q, now, ok);
      assert forall b :: b in bs <==> b in q || b == bs[|bs| - 1];
      assert bs[|bs| - 1] !in q;
    }
  }

  /** Each bucket admitted no more than it counted, nor more than its limit. */
  ghost predicate Bounded(s: Buckets, limits: nat -> int) {
    forall b: nat ::
      && AdmittedOf(s, b) <= (if b in s.rows then s.rows[b].attempts else 0)
      && AdmittedOf(s, b) <= (if limits(b) < 0 then 0 else limits(b))
  }

  lemma {:induction false} CallBounded(s: Buckets, limits: nat -> int, r: Request)
    requires Bounded(s, limits)
    ensures Bounded(Call(s, limits, r.buckets, r.now, r.sawOver).0, limits)
  {
    var t := Call(s, limits, r.buckets, r.now, r.sawOver).0;
    if Distinct(r.buckets) {
      CountAllIs(s, r.buckets, r.now);
      AdmitAllIs(s, r.buckets, r.now, AllWithin(s, limits, r.buckets, r.now));
      forall b: nat
        ensures AdmittedOf(t, b) <= (if b in t.rows then t.rows[b].attempts else 0)
             && AdmittedOf(t, b) <= (if limits(b) < 0 then 0 else limits(b))
      {
        assert AdmittedOf(s, b) <= (if b in s.rows then s.rows[b].attempts else 0)
            && AdmittedOf(s, b) <= (if limits(b) < 0 then 0 else limits(b));
        if b in r.buckets {
          var i :| 0 <= i < |r.buckets| && r.buckets[i] == b;
          assert AllWithin(s, limits, r.buckets, r.now) ==>
                   Counted(RowOf(s, r.buckets[i]), r.now).attempts <= limits(b);
        }
      }
    }
  }

  /** Whatever races, `rate` and `rate_all` mixed, a window of a bucket admits no more calls than
      the bucket's limit. */
  lemma {:induction false} WindowBound(limits: nat -> int, rs: seq<Request>)
    ensures Bounded(Calls(limits, rs), limits)
    decreases |rs|
  {
    hide Bounded, Call;
    if rs == [] {
      assert Bounded(Buckets(map[], map[]), limits) by { NothingAdmitted(limits); }
    } else {
      WindowBound(limits, rs[..|rs| - 1]);
      CallBounded(Calls(limits, rs[..|rs| - 1]), limits, rs[|rs| - 1]);
    }
  }

  lemma {:induction false} NothingAdmitted(limits: nat -> int)
    ensures Bounded(Buckets(map[], map[]), limits)
  {
  }

  // ---------------------------------------------------------------- any fifteen minutes, mixed calls

  predicate OnTime(rs: seq<Request>) {
    forall i, j :: 0 <= i < j < |rs| ==> rs[i].now <= rs[j].now
  }

  /** Calls on a bucket, alone or with others, admitted at times from `lo` to `lo` + 15 minutes. */
  function AdmittedAt(limits: nat -> int, rs: seq<Request>, b: nat, lo: int): nat
    decreases |rs|
  {
    if rs == [] then 0
    else
      var q, r := rs[..|rs| - 1], rs[|rs| - 1];
      AdmittedAt(limits, q, b, lo)
      + (if b in r.buckets && lo <= r.now <= lo + WINDOW
            && Call(Calls(limits, q), limits, r.buckets, r.now, r.sawOver).1
         then 1 else 0)
  }

  /** What a call does to one bucket. */
  lemma {:induction false} CallOnBucket(s: Buckets, limits: nat -> int, r: Request, b: nat)
    ensures (var (t, ok) := Call(s, limits, r.buckets, r.now, r.sawOver);
             || (RowOf(t, b) == RowOf(s, b) && !(ok && b in r.buckets))
             || (RowOf(t, b) == Some(Counted(RowOf(s, b), r.now)) && (ok ==> RowOf(t, b).value.attempts <= limits(b))))
  {
    hide Counted, Expired, Over;
    if Distinct(r.buckets) {
      CountAllIs(s, r.buckets, r.now);
      if b in r.buckets {
        var i :| 0 <= i < |r.buckets| && r.buckets[i] == b;
      }
    }
  }

  /** The bucket's row counts past its limit in a window that is still running. */
  predicate Exhausted(s: Buckets, limits: nat -> int, b: nat, now: int) {
    b in s.rows && s.rows[b].attempts > limits(b) && now - s.rows[b].start <= 900_000_000
  }

  /** Calls counted in the bucket's window, this one included. */
  function CountWith(s: Buckets, b: nat, now: int): nat {
    if b in s.rows && now - s.rows[b].start <= 900_000_000 then s.rows[b].attempts + 1 else 1
  }

  function StartWith(s: Buckets, b: nat, now: int): int {
    if b in s.rows && now - s.rows[b].start <= 900_000_000 then s.rows[b].start else now
  }

  /** A call counts nothing when its read found a bucket over, names one twice, or is a `rate` that
      finds its bucket over by now. Otherwise each of its buckets is counted once, and it is admitted
      exactly when none of them then is past its limit. */
  lemma {:induction false} CallOutcome(s: Buckets, limits: nat -> int, bs: seq<nat>, now: int, sawOver: bool)
    ensures (var (t, ok) := Call(s, limits, bs, now, sawOver);
             if sawOver || !Distinct(bs) || (|bs| == 1 && Exhausted(s, limits, bs[0], now)) then t == s && !ok
             else
               && (forall b :: b in t.rows ==> b in s.rows || b in bs)
               && (forall i :: 0 <= i < |bs| ==>
                     bs[i] in t.rows && t.rows[bs[i]] == Row(CountWith(s, bs[i], now), StartWith(s, bs[i], now)))
               && (forall b :: b in s.rows && b !in bs ==> b in t.rows && t.rows[b] == s.rows[b])
               && (ok <==> forall i :: 0 <= i < |bs| ==> CountWith(s, bs[i], now) <= limits(bs[i])))
  {
    if Distinct(bs) {
      CountAllIs(s, bs, now);
      assert |bs| == 1 && AnyOver(s, limits, bs, now) ==> Exhausted(s, limits, bs[0], now);
      assert |bs| == 1 && Exhausted(s, limits, bs[0], now) ==> Over(RowOf(s, bs[0]), limits(bs[0]), now);
      forall i | 0 <= i < |bs|
        ensures Counted(RowOf(s, bs[i]), now) == Row(CountWith(s, bs[i], now), StartWith(s, bs[i], now))
      {
      }
      hide CountAll, AdmitAll, Counted;
    }
  }

  function Allowed(limit: int): nat { if limit < 0 then 0 else limit }

  /** Where the admissions of an interval stand when the bucket has this row. */
  predicate Within(row: Option<Row>, limit: nat, admitted: nat, lo: int) {
    && admitted <= 2 * limit
    && (row.None? ==> admitted == 0)
    && (row.Some? && row.value.start < lo ==> admitted <= Min(row.value.attempts, limit))
    && (row.Some? && lo <= row.value.start <= lo + WINDOW ==> admitted <= limit + Min(row.value.attempts, limit))
  }

  lemma {:induction false} MixedWindows(limits: nat -> int, rs: seq<Request>, b: nat, lo: int)
    requires OnTime(rs)
    ensures Within(RowOf(Calls(limits, rs), b), Allowed(limits(b)), AdmittedAt(limits, rs, b, lo), lo)
    ensures RowOf(Calls(limits, rs), b).Some? ==>
              rs != [] && RowOf(Calls(limits, rs), b).value.start <= rs[|rs| - 1].now
    ensures rs != [] && rs[|rs| - 1].now < lo ==> AdmittedAt(limits, rs, b, lo) == 0
    decreases |rs|
  {
    hide Call;
    if rs != [] {
      var q, r := rs[..|rs| - 1], rs[|rs| - 1];
      MixedWindows(limits, q, b, lo);
      CallsLast(limits, rs);
      CallOnBucket(Calls(limits, q), limits, r, b);
      assert q != [] ==> q[|q| - 1].now <= r.now;
    }
  }

  /** Whatever races, `rate` and `rate_all` mixed: no fifteen minutes admit more than twice a bucket's
      limit. */
  lemma {:induction false} MixedSlidingBound(limits: nat -> int, rs: seq<Request>, b: nat, lo: int)
    requires OnTime(rs)
    ensures AdmittedAt(limits, rs, b, lo) <= 2 * Allowed(limits(b))
  {
    MixedWindows(limits, rs, b, lo);
  }

  /** No bucket counts past one over its limit. */
  predicate Capped(s: Buckets, limits: nat -> int) {
    forall b | b in s.rows :: s.rows[b].attempts <= Cap(limits(b))
  }

  /** A call lets a bucket count past its cap exactly when it is a `rate_all` whose read missed that
      one of its buckets is over by now. */
  lemma {:induction false} OvershootsExactlyWhen(s: Buckets, limits: nat -> int, r: Request)
    requires Capped(s, limits)
    ensures !Capped(Call(s, limits, r.buckets, r.now, r.sawOver).0, limits)
       <==> (!r.sawOver && Distinct(r.buckets) && |r.buckets| != 1
             && exists i :: 0 <= i < |r.buckets| && r.buckets[i] in s.rows
                         && !Expired(s.rows[r.buckets[i]], r.now)
                         && s.rows[r.buckets[i]].attempts == Cap(limits(r.buckets[i])))
  {
    var bs := r.buckets;
    var t := Call(s, limits, bs, r.now, r.sawOver).0;
    if Distinct(bs) {
      CountAllIs(s, bs, r.now);
      if i :| 0 <= i < |bs| && bs[i] in s.rows && !Expired(s.rows[bs[i]], r.now)
              && s.rows[bs[i]].attempts == Cap(limits(bs[i]))
      {
        assert Over(RowOf(s, bs[i]), limits(bs[i]), r.now);
        if !r.sawOver && |bs| != 1 {
          assert bs[i] in t.rows && t.rows[bs[i]].attempts == Cap(limits(bs[i])) + 1;
        }
      }
      if b :| b in t.rows && t.rows[b].attempts > Cap(limits(b)) {
        assert b in bs;
        var i :| 0 <= i < |bs| && bs[i] == b;
        assert bs[i] in s.rows && !Expired(s.rows[bs[i]], r.now) && s.rows[b].attempts >= Cap(limits(b));
        assert Over(RowOf(s, bs[i]), limits(bs[i]), r.now);
      }
    }
  }

  /** The read saw the rows as they are. */
  predicate Fresh(s: Buckets, limits: nat -> int, r: Request) {
    r.sawOver == AnyOver(s, limits, r.buckets, r.now)
  }

  predicate FreshRun(limits: nat -> int, rs: seq<Request>)
    decreases |rs|
  {
    rs == [] || (FreshRun(limits, rs[..|rs| - 1]) && Fresh(Calls(limits, rs[..|rs| - 1]), limits, rs[|rs| - 1]))
  }

  /** Without races no bucket ever counts past one over its limit, and a call refused because a bucket
      was over counts nothing in any bucket. */
  lemma {:induction false} FreshRunsAreCapped(limits: nat -> int, rs: seq<Request>)
    requires FreshRun(limits, rs)
    ensures Capped(Calls(limits, rs), limits)
    ensures rs != [] ==>
              (var s, r := Calls(limits, rs[..|rs| - 1]), rs[|rs| - 1];
               AnyOver(s, limits, r.buckets, r.now) ==>
                 Calls(limits, rs) == s && !Call(s, limits, r.buckets, r.now, r.sawOver).1)
    decreases |rs|
  {
    if rs != [] {
      var q, r := rs[..|rs| - 1], rs[|rs| - 1];
      FreshRunsAreCapped(limits, q);
      var s := Calls(limits, q);
      hide Capped, Call, Calls;
      OvershootsExactlyWhen(s, limits, r);
      if i :| 0 <= i < |r.buckets| && r.buckets[i] in s.rows && !Expired(s.rows[r.buckets[i]], r.now)
              && s.rows[r.buckets[i]].attempts == Cap(limits(r.buckets[i]))
      {
        assert Over(RowOf(s, r.buckets[i]), limits(r.buckets[i]), r.now);
      }
      assert Calls(limits, rs) == Call(s, limits, r.buckets, r.now, r.sawOver).0 by { CallsLast(limits, rs); }
    } else {
      assert Calls(limits, rs).rows == map[];
    }
  }

  lemma {:induction false} CallsLast(limits: nat -> int, rs: seq<Request>)
    requires rs != []
    ensures (var r := rs[|rs| - 1];
             Calls(limits, rs) == Call(Calls(limits, rs[..|rs| - 1]), limits, r.buckets, r.now, r.sawOver).0)
  {
  }

  /** Two `rate_all` calls that both read before either updates push a bucket two past its limit. */
  lemma {:induction false} RacingRateAllOvershoots()
    ensures (var limits := (b: nat) => 0;
             var r := Request([0, 1], 0, false);
             !Capped(Calls(limits, [r, r]), limits))
  {
    var limits := (b: nat) => 0;
    var r := Request([0, 1], 0, false);
    assert [r, r][..1] == [r] && [r][..0] == [];
    var s := Calls(limits, [r]);
    CallsLast(limits, [r]);
    CallsLast(limits, [r, r]);
    CountAllIs(Buckets(map[], map[]), [0, 1], 0);
    CountAllIs(s, [0, 1], 0);
    assert [0, 1][0] == 0;
    assert s.rows[0] == Row(1, 0);
    assert Calls(limits, [r, r]).rows[0] == Row(2, 0);
  }

  // ---------------------------------------------------------------- the table

  class LimitTable {
    var rows: map<nat, Row>

    constructor ()
      ensures rows == map[]
    {
      rows := map[];
    }

    /** One statement, alone. */
    method RateOnce(b: nat, limit: int, now: int) returns (ok: bool)
      modifies this
      ensures (var before := if b in old(rows) then Some(old(rows)[b]) else None;
               && (if b in rows then Some(rows[b]) else None, ok) == Rate(before, limit, now))
      ensures forall k :: k != b ==> (k in rows <==> k in old(rows)) && (k in rows ==> rows[k] == old(rows)[k])
    {
      if b in rows && rows[b].attempts > limit && !(rows[b].start < now - WINDOW) {
        return false;
      }
      var attempts, start := 1, now;
      if b in rows && !(rows[b].start < now - WINDOW) {
        attempts, start := rows[b].attempts + 1, rows[b].start;
      }
      rows := rows[b := Row(attempts, start)];
      return attempts <= limit;
    }

    /** `rate_all`: one read over all the buckets, then every one is counted. */
    method RateAll(bs: seq<nat>, limits: nat -> int, now: int) returns (ok: bool)
      requires Distinct(bs)
      modifies this
      ensures (var s := Buckets(old(rows), map[]);
               var r := Call(s, limits, bs, now, AnyOver(s, limits, bs, now));
               rows == r.0.rows && ok == r.1)
    {
      ghost var s := Buckets(rows, map[]);
      var i := 0;
      while i < |bs|
        invariant 0 <= i <= |bs|
        invariant rows == old(rows)
        invariant forall j :: 0 <= j < i ==> !Over(RowOf(s, bs[j]), limits(bs[j]), now)
      {
        if bs[i] in rows && rows[bs[i]].attempts > limits(bs[i]) && !(rows[bs[i]].start < now - WINDOW) {
          assert Over(RowOf(s, bs[i]), limits(bs[i]), now);
          return false;
        }
        i := i + 1;
      }
      ok := true;
      i := 0;
      while i < |bs|
        invariant 0 <= i <= |bs|
        invariant rows == CountAll(s, bs[..i], now)
        invariant forall j :: i <= j < |bs| ==> RowOf(Buckets(rows, map[]), bs[j]) == RowOf(s, bs[j])
        invariant ok <==> AllWithin(s, limits, bs[..i], now)
      {
        assert bs[..i + 1][..i] == bs[..i];
        ghost var was := rows;
        var attempts, start := 1, now;
        if bs[i] in rows && !(rows[bs[i]].start < now - WINDOW) {
          attempts, start := rows[bs[i]].attempts + 1, rows[bs[i]].start;
        }
        assert Row(attempts, start) == Counted(RowOf(s, bs[i]), now);
        rows := rows[bs[i] := Row(attempts, start)];
        WithinOneMore(s, limits, bs, i, now);
        if attempts > limits(bs[i]) {
          ok := false;
        }
        i := i + 1;
      }
      assert bs[..i] == bs;
    }
  }

  lemma {:induction false} WithinOneMore(s: Buckets, limits: nat -> int, bs: seq<nat>, i: nat, now: int)
    requires i < |bs|
    ensures AllWithin(s, limits, bs[..i + 1], now) <==>
              AllWithin(s, limits, bs[..i], now) && Counted(RowOf(s, bs[i]), now).attempts <= limits(bs[i])
  {
    assert bs[..i + 1] == bs[..i] + [bs[i]];
    if AllWithin(s, limits, bs[..i + 1], now) {
      assert bs[..i + 1][i] == bs[i];
      forall j | 0 <= j < i ensures Counted(RowOf(s, bs[..i][j]), now).attempts <= limits(bs[..i][j]) {
        assert bs[..i][j] == bs[..i + 1][j];
      }
    }
  }
}
