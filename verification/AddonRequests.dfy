/**
  What each request at the add-on desk answers and what the rows are then, for every state the desk
  can be in.
*/
module AddonRequests {
  import opened Common
  import opened Addons
  import opened AddonMoney
  import opened AddonConservation

  // ---------------------------------------------------------------- submitting the application

  predicate Waits(o: Order, release: nat, service: Service) {
    o.release == release && o.service == service && o.status == Awaiting
  }

  predicate ServicesDiffer(wants: seq<Want>) {
    forall j, k :: 0 <= j < k < |wants| ==> wants[j].service != wants[k].service
  }

  predicate Unwanted(wants: seq<Want>, service: Service) {
    forall k :: 0 <= k < |wants| ==> wants[k].service != service
  }

  /** Not an order the submission may change. */
  predicate Unasked(o: Order, release: nat, wants: seq<Want>) {
    o.release != release || o.status != Awaiting || Unwanted(wants, o.service)
  }

  predicate NoneLive(orders: seq<Order>, release: nat, service: Service) {
    forall i :: 0 <= i < |orders| ==> !Live(orders[i], release, service)
  }

  /** The rows that were there: a waiting order of a dropped service is cancelled, one of a wanted
      service has the new price, every other row is as it was. */
  predicate OldRows(before: seq<Order>, after: seq<Order>, release: nat, wants: seq<Want>) {
    && |before| <= |after|
    && (forall i, k :: 0 <= i < |before| && 0 <= k < |wants| && Waits(before[i], release, wants[k].service) ==>
          after[i] == match wants[k].amount
                      case None => before[i].(status := Cancelled)
                      case Some(a) => before[i].(amount := a))
    && (forall i :: 0 <= i < |before| && Unasked(before[i], release, wants) ==> after[i] == before[i])
  }

  predicate Fresh(o: Order, release: nat, w: Want) {
    w.amount.Some? && o == Order(release, w.service, w.amount.value, Awaiting, Unpaid)
  }

  /** The row is what a choice without a live order asks for. */
  predicate Asked(o: Order, before: seq<Order>, release: nat, wants: seq<Want>) {
    exists k :: 0 <= k < |wants| && Fresh(o, release, wants[k]) && NoneLive(before, release, wants[k].service)
  }

  predicate Added(orders: seq<Order>, from: nat, release: nat, w: Want) {
    exists i :: from <= i < |orders| && Fresh(orders[i], release, w)
  }

  /** The rows that were added: one for each wanted service that had no live order. */
  predicate NewRows(before: seq<Order>, after: seq<Order>, release: nat, wants: seq<Want>) {
    && |before| <= |after|
    && (forall i :: |before| <= i < |after| ==> Asked(after[i], before, release, wants))
    && (forall k :: 0 <= k < |wants| && wants[k].amount.Some? && NoneLive(before, release, wants[k].service) ==>
          Added(after, |before|, release, wants[k]))
  }

  /** The live orders of a service not asked about are the ones that were there. */
  lemma {:induction false} LiveAsBefore(before: seq<Order>, after: seq<Order>, release: nat, wants: seq<Want>,
                                        service: Service)
    requires OldRows(before, after, release, wants) && NewRows(before, after, release, wants)
    requires Unwanted(wants, service)
    ensures forall i :: 0 <= i < |after| && Live(after[i], release, service) ==>
              i < |before| && after[i] == before[i]
    ensures NoneLive(after, release, service) <==> NoneLive(before, release, service)
  {
    forall i | 0 <= i < |before| && before[i].service == service && before[i].release == release
      ensures after[i] == before[i]
    {
    }
    forall i | 0 <= i < |before| && after[i].service == service && after[i].release == release
      ensures after[i] == before[i]
    {
      if before[i].release == release && before[i].status == Awaiting && !Unwanted(wants, before[i].service) {
        var k :| 0 <= k < |wants| && wants[k].service == before[i].service;
        assert Waits(before[i], release, wants[k].service);
      }
    }
  }

  lemma {:induction false} OneMoreOld(before: seq<Order>, mid: seq<Order>, release: nat, wants: seq<Want>)
    requires wants != [] && ServicesDiffer(wants)
    requires (var q := wants[..|wants| - 1]; OldRows(before, mid, release, q) && NewRows(before, mid, release, q))
    requires forall i, j :: 0 <= i < j < |mid| ==> !Rivals(mid[i], mid[j])
    ensures OldRows(before, SyncOne(mid, release, wants[|wants| - 1]), release, wants)
  {
    var q, w := wants[..|wants| - 1], wants[|wants| - 1];
    var after := SyncOne(mid, release, w);
    LiveAsBefore(before, mid, release, q, w.service);
    var found := FindLive(mid, release, w.service);
    hide SyncOne, FindLive, NewRows;
    assert forall i :: 0 <= i < |mid| && !Live(mid[i], release, w.service) ==> after[i] == mid[i] by {
      UntouchedRows(mid, release, w);
    }
    forall i | 0 <= i < |before| && Unasked(before[i], release, wants) ensures after[i] == before[i] {
      assert Unasked(before[i], release, q);
      UntouchedRows(mid, release, w);
    }
    forall i, k | 0 <= i < |before| && 0 <= k < |wants| && Waits(before[i], release, wants[k].service)
      ensures after[i] == match wants[k].amount
                          case None => before[i].(status := Cancelled)
                          case Some(a) => before[i].(amount := a)
    {
      UntouchedRows(mid, release, w);
      if k == |wants| - 1 {
        assert Unwanted(q, before[i].service);
        assert mid[i] == before[i];
        WaitingRow(mid, release, w, i);
      } else {
        assert Waits(before[i], release, q[k].service);
      }
    }
  }

  /** One choice changes a waiting order of its own service, or adds one. */
  lemma {:induction false} UntouchedRows(orders: seq<Order>, release: nat, w: Want)
    ensures (var after := SyncOne(orders, release, w);
             && |orders| <= |after|
             && forall i :: 0 <= i < |orders| && !Waits(orders[i], release, w.service) ==> after[i] == orders[i])
  {
  }

  lemma {:induction false} WaitingRow(orders: seq<Order>, release: nat, w: Want, i: nat)
    requires i < |orders| && Waits(orders[i], release, w.service)
    requires forall i, j :: 0 <= i < j < |orders| ==> !Rivals(orders[i], orders[j])
    ensures (var after := SyncOne(orders, release, w);
             && |after| == |orders|
             && after[i] == match w.amount
                            case None => orders[i].(status := Cancelled)
                            case Some(a) => orders[i].(amount := a))
  {
    var found := FindLive(orders, release, w.service);
    assert Live(orders[i], release, w.service);
    if found.Some? {
      RivalFree(orders, release, w.service, i, found.value);
    }
  }

  lemma {:induction false} RivalFree(orders: seq<Order>, release: nat, service: Service, i: nat, j: nat)
    requires forall i, j :: 0 <= i < j < |orders| ==> !Rivals(orders[i], orders[j])
    requires i < |orders| && Live(orders[i], release, service)
    requires j < |orders| && Live(orders[j], release, service)
    ensures i == j
  {
    assert Rivals(orders[i], orders[j]) && Rivals(orders[j], orders[i]);
  }

  lemma {:induction false} OneMoreNew(before: seq<Order>, mid: seq<Order>, release: nat, wants: seq<Want>)
    requires wants != [] && ServicesDiffer(wants)
    requires (var q := wants[..|wants| - 1]; OldRows(before, mid, release, q) && NewRows(before, mid, release, q))
    ensures NewRows(before, SyncOne(mid, release, wants[|wants| - 1]), release, wants)
  {
    hide SyncOne, FindLive, OldRows, NoneLive;
    var n := |wants| - 1;
    var q, w := wants[..n], wants[n];
    var after := SyncOne(mid, release, w);
    LiveAsBefore(before, mid, release, q, w.service);
    AddedRows(mid, release, w);
    UntouchedRows(mid, release, w);
    forall i | |before| <= i < |mid| ensures after[i] == mid[i] {
      assert Asked(mid[i], before, release, q);
      var k :| 0 <= k < n && Fresh(mid[i], release, q[k]);
      assert mid[i].service == wants[k].service != w.service;
    }
    NewAreWanted(before, mid, after, release, wants);
    WantedAreNew(before, mid, after, release, wants);
  }

  /** The rows added so far stay, and the last choice adds its own when its service has no live order. */
  predicate Extended(before: seq<Order>, mid: seq<Order>, after: seq<Order>, release: nat, w: Want) {
    && |before| <= |mid| <= |after|
    && (forall i :: |before| <= i < |mid| ==> after[i] == mid[i])
    && (if w.amount.Some? && NoneLive(before, release, w.service) then
          |after| == |mid| + 1 && Fresh(after[|mid|], release, w)
        else |after| == |mid|)
  }

  lemma {:induction false} AskedMore(o: Order, before: seq<Order>, release: nat, wants: seq<Want>)
    requires wants != [] && Asked(o, before, release, wants[..|wants| - 1])
    ensures Asked(o, before, release, wants)
  {
    hide NoneLive;
    var q := wants[..|wants| - 1];
    var k :| 0 <= k < |q| && Fresh(o, release, q[k]) && NoneLive(before, release, q[k].service);
    assert Fresh(o, release, wants[k]);
  }

  lemma {:induction false} AddedStays(mid: seq<Order>, after: seq<Order>, from: nat, release: nat, w: Want)
    requires from <= |mid| <= |after| && (forall i :: from <= i < |mid| ==> after[i] == mid[i])
    requires Added(mid, from, release, w)
    ensures Added(after, from, release, w)
  {
    var i :| from <= i < |mid| && Fresh(mid[i], release, w);
    assert Fresh(after[i], release, w);
  }

  lemma {:induction false} NewAreWanted(before: seq<Order>, mid: seq<Order>, after: seq<Order>, release: nat,
                                        wants: seq<Want>)
    requires wants != [] && NewRows(before, mid, release, wants[..|wants| - 1])
    requires Extended(before, mid, after, release, wants[|wants| - 1])
    ensures forall i :: |before| <= i < |after| ==> Asked(after[i], before, release, wants)
  {
    hide NoneLive;
    var n := |wants| - 1;
    forall i | |before| <= i < |after| ensures Asked(after[i], before, release, wants) {
      if i < |mid| {
        AskedMore(mid[i], before, release, wants);
      } else {
        assert Fresh(after[i], release, wants[n]);
      }
      hide Asked;
    }
  }

  lemma {:induction false} WantedAreNew(before: seq<Order>, mid: seq<Order>, after: seq<Order>, release: nat,
                                        wants: seq<Want>)
    requires wants != [] && NewRows(before, mid, release, wants[..|wants| - 1])
    requires Extended(before, mid, after, release, wants[|wants| - 1])
    ensures forall k :: 0 <= k < |wants| && wants[k].amount.Some? && NoneLive(before, release, wants[k].service) ==>
              Added(after, |before|, release, wants[k])
  {
    hide NoneLive, Asked;
    var n := |wants| - 1;
    forall k | 0 <= k < |wants| && wants[k].amount.Some? && NoneLive(before, release, wants[k].service)
      ensures Added(after, |before|, release, wants[k])
    {
      if k < n {
        assert wants[..n][k] == wants[k];
        AddedStays(mid, after, |before|, release, wants[k]);
      } else {
        assert Fresh(after[|mid|], release, wants[k]);
      }
    }
  }

  /** A row is added exactly for a wanted service without a live order. */
  lemma {:induction false} AddedRows(orders: seq<Order>, release: nat, w: Want)
    ensures (var after := SyncOne(orders, release, w);
             if w.amount.Some? && NoneLive(orders, release, w.service) then
               |after| == |orders| + 1 && Fresh(after[|orders|], release, w)
             else |after| == |orders|)
  {
  }

  lemma {:induction false} SubmittedRows(s: State, release: nat, wants: seq<Want>)
    requires Inv(s) && ServicesDiffer(wants)
    ensures OldRows(s.orders, SyncAll(s.orders, release, wants), release, wants)
    ensures NewRows(s.orders, SyncAll(s.orders, release, wants), release, wants)
    decreases |wants|
  {
    hide SyncOne, Inv, OldRows, NewRows;
    if wants == [] {
      NothingWanted(s.orders, release);
    } else {
      var q := wants[..|wants| - 1];
      SubmittedRows(s, release, q);
      SyncAllKeeps(s, release, q);
      InvParts(s.(orders := SyncAll(s.orders, release, q)));
      OneMoreOld(s.orders, SyncAll(s.orders, release, q), release, wants);
      OneMoreNew(s.orders, SyncAll(s.orders, release, q), release, wants);
    }
  }

  lemma {:induction false} NothingWanted(orders: seq<Order>, release: nat)
    ensures OldRows(orders, orders, release, []) && NewRows(orders, orders, release, [])
  {
  }

  /** Exactly one row is a live order of the service, and it is row `i`. */
  predicate OneLive(orders: seq<Order>, i: nat, release: nat, service: Service) {
    && i < |orders| && Live(orders[i], release, service)
    && forall j :: 0 <= j < |orders| && Live(orders[j], release, service) ==> j == i
  }

  /** A submission, from any state the desk can be in: a dropped service has no waiting order any more;
      a wanted one has exactly one live order, at the new price unless it was paid; every order the
      submission may not change is as it was, and so is every other table. */
  lemma {:induction false} SubmitOutcome(s: State, release: nat, wants: seq<Want>)
    requires Inv(s) && ServicesDiffer(wants)
    ensures (var t := Next(s, Submit(release, wants));
             && t == s.(orders := t.orders)
             && OldRows(s.orders, t.orders, release, wants) && NewRows(s.orders, t.orders, release, wants))
    ensures forall k :: 0 <= k < |wants| ==> ServiceSettled(s, Next(s, Submit(release, wants)), release, wants[k])
  {
    hide Inv, OldRows, NewRows;
    SubmittedRows(s, release, wants);
    StepKeeps(s, Submit(release, wants));
    InvParts(s);
    InvParts(Next(s, Submit(release, wants)));
    forall k | 0 <= k < |wants|
      ensures ServiceSettled(s, Next(s, Submit(release, wants)), release, wants[k])
    {
      Settled(s, Next(s, Submit(release, wants)), release, wants, k);
    }
  }

  /** The live order of a wanted service in the new rows. */
  ghost predicate Served(s: State, t: State, release: nat, w: Want, i: nat) {
    && i < |t.orders| && Live(t.orders[i], release, w.service) && w.amount.Some?
    && if i < |s.orders| && s.orders[i].status != Awaiting then t.orders[i] == s.orders[i]
       else t.orders[i].status == Awaiting && t.orders[i].amount == w.amount.value
  }

  ghost predicate ServiceSettled(s: State, t: State, release: nat, w: Want) {
    match w.amount
    case None => forall i :: 0 <= i < |t.orders| ==> !Waits(t.orders[i], release, w.service)
    case Some(a) =>
      exists i: nat :: OneLive(t.orders, i, release, w.service) && Served(s, t, release, w, i)
  }

  lemma {:induction false} Settled(s: State, t: State, release: nat, wants: seq<Want>, k: nat)
    requires OldRows(s.orders, t.orders, release, wants) && NewRows(s.orders, t.orders, release, wants)
    requires LiveOnce(t) && k < |wants| && ServicesDiffer(wants)
    ensures ServiceSettled(s, t, release, wants[k])
  {
    hide OldRows, NewRows, LiveOnce, NoneLive, OneLive, Live;
    var w := wants[k];
    match w.amount {
      case None =>
        forall i | 0 <= i < |t.orders| ensures !Waits(t.orders[i], release, w.service) {
          Dropped(s, t, release, wants, k, i);
        }
      case Some(a) =>
        var i := Wanted(s, t, release, wants, k);
        LiveIsOne(t, i, release, w.service);
    }
  }

  lemma {:induction false} Dropped(s: State, t: State, release: nat, wants: seq<Want>, k: nat, i: nat)
    requires OldRows(s.orders, t.orders, release, wants) && NewRows(s.orders, t.orders, release, wants)
    requires k < |wants| && ServicesDiffer(wants) && wants[k].amount.None? && i < |t.orders|
    ensures !Waits(t.orders[i], release, wants[k].service)
  {
    hide NoneLive;
    if i < |s.orders| {
      var o := s.orders[i];
      if Waits(o, release, wants[k].service) {
        assert t.orders[i] == o.(status := Cancelled);
      } else if !Unasked(o, release, wants) {
        var j :| 0 <= j < |wants| && wants[j].service == o.service;
        assert Waits(o, release, wants[j].service);
      }
    } else {
      assert Asked(t.orders[i], s.orders, release, wants);
      var j :| 0 <= j < |wants| && Fresh(t.orders[i], release, wants[j]);
      assert wants[j].service == wants[k].service ==> j == k;
    }
  }

  lemma {:induction false} ServedByNew(s: State, t: State, release: nat, wants: seq<Want>, k: nat) returns (i: nat)
    requires NewRows(s.orders, t.orders, release, wants)
    requires k < |wants| && wants[k].amount.Some? && NoneLive(s.orders, release, wants[k].service)
    ensures Served(s, t, release, wants[k], i)
  {
    hide NoneLive, Asked;
    assert Added(t.orders, |s.orders|, release, wants[k]);
    i :| |s.orders| <= i < |t.orders| && Fresh(t.orders[i], release, wants[k]);
  }

  lemma {:induction false} ServedByOld(s: State, t: State, release: nat, wants: seq<Want>, k: nat, i: nat)
    requires OldRows(s.orders, t.orders, release, wants)
    requires k < |wants| && wants[k].amount.Some?
    requires i < |s.orders| && Live(s.orders[i], release, wants[k].service)
    ensures Served(s, t, release, wants[k], i)
  {
    if s.orders[i].status == Awaiting {
      assert Waits(s.orders[i], release, wants[k].service);
    } else {
      assert Unasked(s.orders[i], release, wants);
    }
  }

  lemma {:induction false} Wanted(s: State, t: State, release: nat, wants: seq<Want>, k: nat) returns (i: nat)
    requires OldRows(s.orders, t.orders, release, wants) && NewRows(s.orders, t.orders, release, wants)
    requires k < |wants| && wants[k].amount.Some?
    ensures Served(s, t, release, wants[k], i)
  {
    hide OldRows, NewRows, Served;
    if NoneLive(s.orders, release, wants[k].service) {
      i := ServedByNew(s, t, release, wants, k);
    } else {
      i :| 0 <= i < |s.orders| && Live(s.orders[i], release, wants[k].service);
      ServedByOld(s, t, release, wants, k, i);
    }
  }

  lemma {:induction false} LiveIsOne(t: State, i: nat, release: nat, service: Service)
    requires LiveOnce(t) && i < |t.orders| && Live(t.orders[i], release, service)
    ensures OneLive(t.orders, i, release, service)
  {
    forall j | 0 <= j < |t.orders| && Live(t.orders[j], release, service) ensures j == i {
      assert j < i ==> !Rivals(t.orders[j], t.orders[i]);
      assert i < j ==> !Rivals(t.orders[i], t.orders[j]);
    }
  }

  // ---------------------------------------------------------------- paying

  predicate WaitsFor(o: Order, release: nat) { o.release == release && o.status == Awaiting }

  predicate NamedOnce(ids: seq<nat>) { forall j, k :: 0 <= j < k < |ids| ==> ids[j] != ids[k] }

  /** A payment goes ahead when something waits: without names any waiting order of the release, with
      names exactly those, each named once. */
  predicate MayPay(orders: seq<Order>, release: nat, ids: seq<nat>) {
    if ids == [] then exists i :: 0 <= i < |orders| && WaitsFor(orders[i], release)
    else NamedOnce(ids) && forall k :: 0 <= k < |ids| ==> ids[k] < |orders| && WaitsFor(orders[ids[k]], release)
  }

  function SetOf(ids: seq<nat>): (r: set<nat>)
    ensures forall x :: x in r <==> x in ids
    ensures |r| <= |ids|
    ensures |r| == |ids| <==> NamedOnce(ids)
    decreases |ids|
  {
    if ids == [] then {}
    else
      var q, x := ids[..|ids| - 1], ids[|ids| - 1];
      assert ids == q + [x];
      if x in q then
        var k :| 0 <= k < |q| && q[k] == x;
        assert ids[k] == ids[|ids| - 1];
        SetOf(q)
      else SetOf(q) + {x}
  }

  lemma {:induction false} SameSize(a: set<nat>, b: set<nat>)
    requires a <= b
    ensures |a| <= |b| && (|a| == |b| ==> a == b)
  {
    assert b == a + (b - a);
  }

  lemma {:induction false} FoundAreNamed(orders: seq<Order>, release: nat, ids: seq<nat>)
    requires ids != []
    ensures (var found := Payable(orders, release, ids);
             SetOf(found) <= SetOf(ids) && |SetOf(found)| == |found|)
  {
    hide Payable;
    PayableIs(orders, release, ids);
    var found := Payable(orders, release, ids);
    assert NamedOnce(found);
    forall x | x in SetOf(found) ensures x in SetOf(ids) {
      var k :| 0 <= k < |found| && found[k] == x;
      assert Selected(orders[found[k]], found[k], release, ids);
    }
  }

  lemma {:induction false} AllFound(orders: seq<Order>, release: nat, ids: seq<nat>)
    requires ids != [] && |Payable(orders, release, ids)| == |ids|
    ensures MayPay(orders, release, ids)
  {
    hide Payable;
    var found := Payable(orders, release, ids);
    PayableIs(orders, release, ids);
    FoundAreNamed(orders, release, ids);
    SameSize(SetOf(found), SetOf(ids));
    forall k | 0 <= k < |ids| ensures ids[k] < |orders| && WaitsFor(orders[ids[k]], release) {
      assert ids[k] in SetOf(found);
      var j :| 0 <= j < |found| && found[j] == ids[k];
      assert Selected(orders[found[j]], found[j], release, ids);
    }
  }

  lemma {:induction false} AllMayPay(orders: seq<Order>, release: nat, ids: seq<nat>)
    requires ids != [] && MayPay(orders, release, ids)
    ensures |Payable(orders, release, ids)| == |ids|
  {
    hide Payable;
    var found := Payable(orders, release, ids);
    PayableIs(orders, release, ids);
    FoundAreNamed(orders, release, ids);
    forall x | x in SetOf(ids) ensures x in SetOf(found) {
      var k :| 0 <= k < |ids| && ids[k] == x;
      assert Selected(orders[x], x, release, ids);
    }
    assert SetOf(ids) == SetOf(found);
  }

  /** The orders a payment covers are refused exactly when nothing waits or a named order does not. */
  lemma {:induction false} RefusedExactlyWhen(orders: seq<Order>, release: nat, ids: seq<nat>)
    ensures PayRefused(orders, release, ids) <==> !MayPay(orders, release, ids)
  {
    hide Payable;
    var found := Payable(orders, release, ids);
    PayableIs(orders, release, ids);
    if ids == [] {
      if found != [] {
        assert WaitsFor(orders[found[0]], release);
      }
      forall i | 0 <= i < |orders| && WaitsFor(orders[i], release) ensures found != [] {
        assert Selected(orders[i], i, release, ids);
      }
    } else if MayPay(orders, release, ids) {
      AllMayPay(orders, release, ids);
    } else if |found| == |ids| {
      AllFound(orders, release, ids);
    }
  }

  /** The order is one the payment covers. */
  predicate Covered(o: Order, i: nat, release: nat, ids: seq<nat>) {
    WaitsFor(o, release) && (ids == [] || i in ids)
  }

  /** What a payment costs: the prices of the orders it covers. */
  function Bill(orders: seq<Order>, release: nat, ids: seq<nat>): nat
    decreases |orders|
  {
    if orders == [] then 0
    else
      var n := |orders| - 1;
      Bill(orders[..n], release, ids) + (if Covered(orders[n], n, release, ids) then orders[n].amount else 0)
  }

  lemma {:induction false} BillIsTotal(orders: seq<Order>, release: nat, ids: seq<nat>)
    ensures Total(orders, Payable(orders, release, ids)) == Bill(orders, release, ids)
    decreases |orders|
  {
    if orders != [] {
      var n := |orders| - 1;
      var found := Payable(orders[..n], release, ids);
      BillIsTotal(orders[..n], release, ids);
      PayableIs(orders[..n], release, ids);
      TotalSame(orders[..n], orders, found);
      if Selected(orders[n], n, release, ids) {
        assert (found + [n])[..|found|] == found;
      } else {
        assert found + [] == found;
      }
    }
  }

  /** One charge for each order the payment covers, of its price. */
  predicate ChargesFor(before: seq<Posting>, after: seq<Posting>, orders: seq<Order>, release: nat, ids: seq<nat>) {
    && before <= after
    && (forall k :: |before| <= k < |after| ==>
          && after[k].Charge? && after[k].order < |orders|
          && Covered(orders[after[k].order], after[k].order, release, ids)
          && after[k].amount == orders[after[k].order].amount)
    && (forall i :: 0 <= i < |orders| && Covered(orders[i], i, release, ids) ==>
          exists k :: |before| <= k < |after| && after[k].order == i)
  }

  lemma {:induction false} ChargeAllPostings(s: State, ids: seq<nat>)
    requires Listed(s.orders, ids) && ChargeAll(s, ids).Ok?
    requires forall k :: 0 <= k < |ids| ==> s.orders[ids[k]].status == Awaiting && s.orders[ids[k]].paid == Unpaid
    ensures (var t := ChargeAll(s, ids).value;
             && |t.ledger| == |s.ledger| + |ids| && s.ledger <= t.ledger
             && forall k :: 0 <= k < |ids| ==>
                  t.ledger[|s.ledger| + k] == Charge(ids[k], s.orders[ids[k]].amount))
    decreases |ids|
  {
    if ids != [] {
      var q := ids[..|ids| - 1];
      ChargeAllPostings(s, q);
      if q != [] {
        ChargeAllExactlyWhen(s, q);
      }
    }
  }

  /** A payment from the balance goes through exactly when it may and the balance covers the bill;
      then the covered orders are paid and submitted, and the balance drops by the bill. Otherwise
      nothing changes. */
  lemma {:induction false} BalanceOutcome(s: State, release: nat, ids: seq<nat>)
    requires Inv(s)
    ensures (var o := PayFromBalance(s, release, ids).1;
             && (o == Done <==> MayPay(s.orders, release, ids) && s.balance >= Bill(s.orders, release, ids))
             && (o == NotPayable <==> !MayPay(s.orders, release, ids)))
    ensures (var t := Next(s, PayBalance(release, ids));
             if MayPay(s.orders, release, ids) && s.balance >= Bill(s.orders, release, ids) then
               && t == s.(orders := t.orders, balance := s.balance - Bill(s.orders, release, ids), ledger := t.ledger)
               && |t.orders| == |s.orders|
               && (forall i :: 0 <= i < |s.orders| ==>
                     t.orders[i] == if Covered(s.orders[i], i, release, ids)
                                    then s.orders[i].(status := Submitted, paid := FromBalance) else s.orders[i])
               && ChargesFor(s.ledger, t.ledger, s.orders, release, ids)
             else t == s)
  {
    hide Payable, ChargeOne, Bill, MayPay, Inv;
    InvParts(s);
    hide LiveOnce, Bound, CardsAddUp, BalanceAddsUp, OnceOnly;
    RefusedExactlyWhen(s.orders, release, ids);
    if MayPay(s.orders, release, ids) {
      var found := Payable(s.orders, release, ids);
      PayableIs(s.orders, release, ids);
      BillIsTotal(s.orders, release, ids);
      forall k | 0 <= k < |found|
        ensures s.orders[found[k]].status == Awaiting && s.orders[found[k]].paid == Unpaid
      {
        assert Selected(s.orders[found[k]], found[k], release, ids);
      }
      ChargeAllExactlyWhen(s, found);
      hide ChargeAll;
      if ChargeAll(s, found).Ok? {
        ChargeAllPostings(s, found);
        PostingsFor(s, ChargeAll(s, found).value, release, ids);
      }
    }
  }

  lemma {:induction false} PostingsFor(s: State, t: State, release: nat, ids: seq<nat>)
    requires (var found := Payable(s.orders, release, ids);
              && Listed(s.orders, found) && |t.ledger| == |s.ledger| + |found| && s.ledger <= t.ledger
              && forall k :: 0 <= k < |found| ==>
                   t.ledger[|s.ledger| + k] == Charge(found[k], s.orders[found[k]].amount))
    ensures ChargesFor(s.ledger, t.ledger, s.orders, release, ids)
  {
    hide Payable;
    var found, n := Payable(s.orders, release, ids), |s.ledger|;
    PayableIs(s.orders, release, ids);
    forall k | n <= k < |t.ledger|
      ensures t.ledger[k].Charge? && t.ledger[k].order < |s.orders|
              && Covered(s.orders[t.ledger[k].order], t.ledger[k].order, release, ids)
              && t.ledger[k].amount == s.orders[t.ledger[k].order].amount
    {
      assert t.ledger[n + (k - n)] == Charge(found[k - n], s.orders[found[k - n]].amount);
      assert Selected(s.orders[found[k - n]], found[k - n], release, ids);
    }
    forall i | 0 <= i < |s.orders| && Covered(s.orders[i], i, release, ids)
      ensures exists k :: n <= k < |t.ledger| && t.ledger[k].order == i
    {
      assert Selected(s.orders[i], i, release, ids);
      var k :| 0 <= k < |found| && found[k] == i;
      assert t.ledger[n + k].order == i;
    }
  }

  /** The orders of a window are the covered ones, once each. */
  predicate WindowFor(p: Payment, orders: seq<Order>, release: nat, ids: seq<nat>) {
    && p.status == Pending && p.amount == Bill(orders, release, ids) && Listed(orders, p.orderIds)
    && (forall k :: 0 <= k < |p.orderIds| ==> Covered(orders[p.orderIds[k]], p.orderIds[k], release, ids))
    && (forall i :: 0 <= i < |orders| && Covered(orders[i], i, release, ids) ==> i in p.orderIds)
  }

  /** A card window opens exactly when the payment may go ahead, cards are ready and the bill is
      positive and fits 32 bits: three orders at the highest price do not. */
  lemma {:induction false} WindowOutcome(s: State, release: nat, ids: seq<nat>, ready: bool)
    requires Inv(s)
    ensures (var t := Next(s, PayCard(release, ids, ready));
             var bill := Bill(s.orders, release, ids);
             if MayPay(s.orders, release, ids) && ready && 1 <= bill <= 2147483647 then
               && OpenWindow(s, release, ids, ready).1 == Done
               && t == s.(payments := t.payments) && |t.payments| == |s.payments| + 1 && s.payments <= t.payments
               && WindowFor(t.payments[|s.payments|], s.orders, release, ids)
             else t == s && OpenWindow(s, release, ids, ready).1 != Done)
  {
    hide Payable, Bill, MayPay, Inv, Total;
    InvParts(s);
    hide PaidBeforeWork, Bound, CardsAddUp, BalanceAddsUp, OnceOnly;
    RefusedExactlyWhen(s.orders, release, ids);
    var found := Payable(s.orders, release, ids);
    PayableIs(s.orders, release, ids);
    BillIsTotal(s.orders, release, ids);
    forall k | 0 <= k < |found|
      ensures s.orders[found[k]].release == release && !Closed(s.orders[found[k]])
              && Covered(s.orders[found[k]], found[k], release, ids)
    {
      assert Selected(s.orders[found[k]], found[k], release, ids);
    }
    forall i | 0 <= i < |s.orders| && Covered(s.orders[i], i, release, ids) ensures i in found {
      assert Selected(s.orders[i], i, release, ids);
    }
    AtMostThree(s, found, release);
    hide LiveOnce, Selected, Listed;
    TotalBound(s.orders, found);
  }

  // ---------------------------------------------------------------- the window comes back

  /** One part given back for each listed order that no longer waits, of its price, and no other. */
  predicate PartsBack(s: State, t: State, payment: nat, ids: seq<nat>) {
    && s.cancels <= t.cancels
    && (forall k :: |s.cancels| <= k < |t.cancels| ==>
          && t.cancels[k].order in ids && t.cancels[k].order < |s.orders|
          && s.orders[t.cancels[k].order].status != Awaiting
          && t.cancels[k] == GiveBack(payment, t.cancels[k].order, s.orders[t.cancels[k].order].amount))
    && (forall i :: i in ids && i < |s.orders| && s.orders[i].status != Awaiting ==>
          exists k :: |s.cancels| <= k < |t.cancels| && t.cancels[k].order == i)
    && (forall j, k :: |s.cancels| <= j < k < |t.cancels| ==> t.cancels[j].order != t.cancels[k].order)
  }

  lemma {:induction false} SettledParts(s: State, payment: nat, ids: seq<nat>)
    requires PaidBeforeWork(s) && Listed(s.orders, ids)
    ensures PartsBack(s, SettleAll(s, payment, ids), payment, ids)
    decreases |ids|
  {
    hide PaidBeforeWork;
    if ids != [] {
      var q, i := ids[..|ids| - 1], ids[|ids| - 1];
      SettledParts(s, payment, q);
      SettleAllIs(s, payment, q);
      hide SettleAll, SettlingSums;
      OneMorePart(s, SettleAll(s, payment, q), payment, ids);
    }
  }

  lemma {:induction false} OneMorePart(s: State, t: State, payment: nat, ids: seq<nat>)
    requires ids != [] && Listed(s.orders, ids)
    requires PartsBack(s, t, payment, ids[..|ids| - 1]) && SettlingRows(s, t, payment, ids[..|ids| - 1])
    ensures PartsBack(s, SettleOne(t, payment, ids[|ids| - 1]), payment, ids)
  {
    var q, i := ids[..|ids| - 1], ids[|ids| - 1];
    assert i !in q && t.orders[i] == s.orders[i];
    assert forall x :: x in ids <==> x in q || x == i;
    var u := SettleOne(t, payment, i);
    hide Listed, SettlingRows;
    if s.orders[i].status == Awaiting {
      assert u.cancels == t.cancels;
    } else {
      assert u.cancels == t.cancels + [GiveBack(payment, i, s.orders[i].amount)];
      assert u.cancels[|t.cancels|].order == i;
      forall x | x in ids && x < |s.orders| && s.orders[x].status != Awaiting
        ensures exists k :: |s.cancels| <= k < |u.cancels| && u.cancels[k].order == x
      {
        if x in q {
          var k :| |s.cancels| <= k < |t.cancels| && t.cancels[k].order == x;
          assert u.cancels[k].order == x;
        }
      }
    }
  }

  /** A window is confirmed exactly when it is open and the card company approves; it is taken once, its
      orders that still wait are paid by it and submitted, and the parts of the others go back.
      Otherwise nothing changes. */
  lemma {:induction false} ConfirmOutcome(s: State, p: nat, ready: bool, approved: bool)
    requires Inv(s)
    ensures (var t := Next(s, ConfirmCard(p, ready, approved));
             if ready && approved && p < |s.payments| && s.payments[p].status == Pending then
               var ids := s.payments[p].orderIds;
               && Confirm(s, p, ready, approved).1 == Done
               && t == s.(orders := t.orders, payments := t.payments, cancels := t.cancels)
               && t.payments == s.payments[p := Payment(ids, s.payments[p].amount, Captured)]
               && |t.orders| == |s.orders|
               && (forall i :: 0 <= i < |s.orders| ==>
                     t.orders[i] == if i in ids && s.orders[i].status == Awaiting
                                    then s.orders[i].(status := Submitted, paid := ByCard(p)) else s.orders[i])
               && PartsBack(s, t, p, ids)
             else t == s && Confirm(s, p, ready, approved).1 != Done)
  {
    hide Inv, SettleAll, SettleOne, PartsBack;
    InvParts(s);
    hide CardsAddUp, BalanceAddsUp, OnceOnly, LiveOnce;
    if ready && approved && p < |s.payments| && s.payments[p].status == Pending {
      var ids := s.payments[p].orderIds;
      var m := s.(payments := s.payments[p := Payment(ids, s.payments[p].amount, Captured)]);
      SettleAllIs(m, p, ids);
      SettledParts(m, p, ids);
      hide SettlingSums, PaidBeforeWork, Listed;
      SamePartsBack(m, s, SettleAll(m, p, ids), p, ids);
    }
  }

  lemma {:induction false} SamePartsBack(m: State, s: State, t: State, payment: nat, ids: seq<nat>)
    requires PartsBack(m, t, payment, ids) && m.orders == s.orders && m.cancels == s.cancels
    ensures PartsBack(s, t, payment, ids)
  {
  }

  // ---------------------------------------------------------------- closing

  /** The order is closed with the status and nothing else of it changed; what it was paid goes back the
      way it came, and nothing else moves. */
  predicate ClosedWith(s: State, t: State, i: nat, status: Status) {
    && i < |s.orders| && t.payments == s.payments && t.income == s.income
    && t.orders == s.orders[i := Order(s.orders[i].release, s.orders[i].service, s.orders[i].amount, status,
                                       s.orders[i].paid)]
    && (var a := s.orders[i].amount;
        match s.orders[i].paid
        case Unpaid => t.balance == s.balance && t.ledger == s.ledger && t.cancels == s.cancels
        case FromBalance =>
          t.balance == s.balance + a && t.ledger == s.ledger + [Refund(i, a)] && t.cancels == s.cancels
        case ByCard(p) =>
          t.balance == s.balance && t.ledger == s.ledger && t.cancels == s.cancels + [GiveBack(p, i, a)])
  }

  lemma {:induction false} CloseOutcome(s: State, i: nat, status: Status, cancelled: bool)
    requires Inv(s) && i < |s.orders| && !Closed(s.orders[i]) && status in {Cancelled, Rejected}
    ensures (var r := CloseAndRefund(s, i, status, cancelled);
             if s.orders[i].paid.ByCard? && !cancelled then r == Err(CardUnavailable)
             else r.Ok? && ClosedWith(s, r.value, i, status))
  {
    hide Inv;
    InvParts(s);
    hide CardsAddUp, BalanceAddsUp, Bound, LiveOnce, PaidBeforeWork;
    RefundedCounts(s.ledger, i);
  }

  /** The artist may cancel exactly an order that waits or was submitted, when its card part, if it has
      one, can be given back. */
  lemma {:induction false} CancelOutcome(s: State, i: nat, cancelled: bool)
    requires Inv(s)
    ensures (var t := Next(s, CancelOrder(i, cancelled));
             if && i < |s.orders| && s.orders[i].status in {Awaiting, Submitted}
                && (s.orders[i].paid.ByCard? ==> cancelled)
             then Cancel(s, i, cancelled).1 == Done && ClosedWith(s, t, i, Cancelled)
             else Cancel(s, i, cancelled).1 != Done && t == s)
  {
    hide Inv, CloseAndRefund;
    if i < |s.orders| && s.orders[i].status in {Awaiting, Submitted} {
      CloseOutcome(s, i, Cancelled, cancelled);
    }
  }

  /** The staff's moves: from where, to where. */
  predicate Move(m: StaffMove, before: Status, after: Status) {
    match m
    case ToInProgress => before == Submitted && after == InProgress
    case ToDelivered => before in {Submitted, InProgress} && after == Delivered
    case ToCompleted => before in {Submitted, InProgress, Delivered} && after == Completed
    case ToRejected => before in {Awaiting, Submitted, InProgress, Delivered} && after == Rejected
    case Update => before in {Submitted, InProgress, Delivered} && after == before
    case Other => false
  }

  /** A staff move is done exactly when the table of moves has it, a rejection with a note and with its
      card part given back; then the order has the new status. Only a rejection moves money. */
  lemma {:induction false} StaffOutcome(s: State, i: nat, m: StaffMove, noted: bool, cancelled: bool)
    requires Inv(s)
    ensures (var t := Next(s, Staff(i, m, noted, cancelled));
             var done := StaffUpdate(s, i, m, noted, cancelled).1 == Done;
             && (done <==>
                   && i < |s.orders| && (exists after :: Move(m, s.orders[i].status, after))
                   && (m == ToRejected ==> noted && (s.orders[i].paid.ByCard? ==> cancelled)))
             && (if done then
                   && |t.orders| == |s.orders| && i < |s.orders|
                   && Move(m, s.orders[i].status, t.orders[i].status)
                   && (if m == ToRejected then ClosedWith(s, t, i, Rejected)
                       else t == s.(orders := s.orders[i := s.orders[i].(status := t.orders[i].status)]))
                 else t == s))
  {
    hide Inv, CloseAndRefund;
    if i < |s.orders| {
      assert MoveFrom(m, s.orders[i].status) ==> Move(m, s.orders[i].status, MoveTo(m, s.orders[i].status));
      if m == ToRejected && MoveFrom(m, s.orders[i].status) {
        CloseOutcome(s, i, Rejected, cancelled);
      }
    }
  }
}
