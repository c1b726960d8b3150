/**
  What every run of the add-on desk keeps (`addons.rs`): no order works unpaid, one live order per
  release and service, every payment's money accounted for, refunds exactly once.
*/
module AddonMoney {
  import opened Common
  import opened Addons

  // ---------------------------------------------------------------- sums over the tables

  function Part(o: Order, who: Paid): nat {
    if o.paid == who && !Closed(o) then o.amount else 0
  }

  /** Amounts of the open orders paid this way. */
  function Sum(orders: seq<Order>, who: Paid): nat
    decreases |orders|
  {
    if orders == [] then 0 else Sum(orders[..|orders| - 1], who) + Part(orders[|orders| - 1], who)
  }

  /** Given back from a card payment. */
  function Given(cancels: seq<GiveBack>, p: nat): nat
    decreases |cancels|
  {
    if cancels == [] then 0
    else
      Given(cancels[..|cancels| - 1], p)
      + (if cancels[|cancels| - 1].payment == p then cancels[|cancels| - 1].amount else 0)
  }

  function Charges(ledger: seq<Posting>, i: nat): nat
    decreases |ledger|
  {
    if ledger == [] then 0
    else
      Charges(ledger[..|ledger| - 1], i)
      + (if ledger[|ledger| - 1].Charge? && ledger[|ledger| - 1].order == i then 1 else 0)
  }

  function Refunds(ledger: seq<Posting>, i: nat): nat
    decreases |ledger|
  {
    if ledger == [] then 0
    else
      Refunds(ledger[..|ledger| - 1], i)
      + (if ledger[|ledger| - 1].Refund? && ledger[|ledger| - 1].order == i then 1 else 0)
  }

  function GivenFor(cancels: seq<GiveBack>, p: nat, i: nat): nat
    decreases |cancels|
  {
    if cancels == [] then 0
    else
      GivenFor(cancels[..|cancels| - 1], p, i)
      + (if cancels[|cancels| - 1].payment == p && cancels[|cancels| - 1].order == i then 1 else 0)
  }

  lemma {:induction false} SumUpdate(orders: seq<Order>, i: nat, o: Order, who: Paid)
    requires i < |orders|
    ensures Sum(orders[i := o], who) + Part(orders[i], who) == Sum(orders, who) + Part(o, who)
    decreases |orders|
  {
    var q, n := orders[..|orders| - 1], |orders| - 1;
    if i == n {
      assert orders[i := o][..n] == q;
    } else {
      assert orders[i := o][..n] == q[i := o];
      SumUpdate(q, i, o, who);
    }
  }

  lemma {:induction false} SumAdd(orders: seq<Order>, o: Order, who: Paid)
    ensures Sum(orders + [o], who) == Sum(orders, who) + Part(o, who)
  {
    assert (orders + [o])[..|orders + [o]| - 1] == orders;
  }

  predicate Listed(orders: seq<Order>, ids: seq<nat>) {
    && (forall k :: 0 <= k < |ids| ==> ids[k] < |orders|)
    && (forall j, k :: 0 <= j < k < |ids| ==> ids[j] != ids[k])
  }

  /** Only the amounts of the listed orders count. */
  lemma {:induction false} TotalSame(a: seq<Order>, b: seq<Order>, ids: seq<nat>)
    requires |a| <= |b|
    requires forall k :: 0 <= k < |ids| ==> ids[k] < |a| && a[ids[k]].amount == b[ids[k]].amount
    ensures Total(a, ids) == Total(b, ids)
    decreases |ids|
  {
    if ids != [] {
      TotalSame(a, b, ids[..|ids| - 1]);
    }
  }

  // ---------------------------------------------------------------- the invariants

  predicate Worked(st: Status) { st == Submitted || st == InProgress || st == Delivered || st == Completed }

  /** Unpaid orders only wait or are closed; orders in work, delivered or completed are paid. */
  predicate PaidBeforeWork(s: State) {
    forall i :: 0 <= i < |s.orders| ==>
      && (s.orders[i].status == Awaiting ==> s.orders[i].paid == Unpaid)
      && (Worked(s.orders[i].status) ==> s.orders[i].paid != Unpaid)
  }

  predicate Rivals(a: Order, b: Order) {
    a.release == b.release && a.service == b.service && !Closed(a) && !Closed(b)
  }

  /** At most one live order per release and service. */
  predicate LiveOnce(s: State) {
    forall i, j :: 0 <= i < j < |s.orders| ==> !Rivals(s.orders[i], s.orders[j])
  }

  predicate Taken(s: State, p: nat) { p < |s.payments| && s.payments[p].status == Captured }

  /** Payments list existing orders, once each; a captured payment's orders no longer wait; an order
      paid by card names a captured payment that lists it. */
  predicate Bound(s: State) {
    && (forall p :: 0 <= p < |s.payments| ==> Listed(s.orders, s.payments[p].orderIds))
    && (forall p :: 0 <= p < |s.payments| && Taken(s, p) ==>
          forall k :: 0 <= k < |s.payments[p].orderIds| ==>
            s.orders[s.payments[p].orderIds[k]].status != Awaiting)
    && (forall i :: 0 <= i < |s.orders| && s.orders[i].paid.ByCard? ==> Taken(s, s.orders[i].paid.payment))
    && (forall k :: 0 <= k < |s.cancels| ==> Taken(s, s.cancels[k].payment) && s.cancels[k].order < |s.orders|)
    && (forall k :: 0 <= k < |s.ledger| ==> s.ledger[k].order < |s.orders|)
  }

  /** What a captured payment has to account for: the amounts of its orders. */
  function Due(s: State, p: nat): nat {
    if Taken(s, p) then Total(s.orders, s.payments[p].orderIds) else 0
  }

  /** Card money: open orders bound to the payment and parts given back make up its orders. */
  ghost predicate CardsAddUp(s: State) {
    forall p: nat :: Sum(s.orders, ByCard(p)) + Given(s.cancels, p) == Due(s, p)
  }

  /** Balance: what open orders took from it is exactly what is missing. */
  predicate BalanceAddsUp(s: State) {
    s.balance + Sum(s.orders, FromBalance) == s.income
  }

  /** How often an order's payment was given back. */
  function GivenBack(s: State, i: nat): nat
    requires i < |s.orders|
  {
    match s.orders[i].paid
    case Unpaid => 0
    case FromBalance => Refunds(s.ledger, i)
    case ByCard(p) => GivenFor(s.cancels, p, i)
  }

  /** One charge per order paid from the balance; a paid order is given back once when it is closed
      and never otherwise. */
  predicate OnceOnly(s: State) {
    forall i :: 0 <= i < |s.orders| ==>
      && Charges(s.ledger, i) == (if s.orders[i].paid == FromBalance then 1 else 0)
      && (s.orders[i].paid != FromBalance ==> Refunds(s.ledger, i) == 0)
      && (s.orders[i].paid != Unpaid ==> GivenBack(s, i) == (if Closed(s.orders[i]) then 1 else 0))
  }

  ghost predicate Inv(s: State) {
    && PaidBeforeWork(s) && LiveOnce(s) && Bound(s)
    && CardsAddUp(s) && BalanceAddsUp(s) && OnceOnly(s)
  }

  lemma {:induction false} StartsWell()
    ensures Inv(EMPTY)
  {
  }

  // ---------------------------------------------------------------- one order changes, unpaid

  /** Nothing is known of an order that does not exist. */
  lemma {:induction false} NoneYet(s: State, i: nat)
    requires Bound(s) && i >= |s.orders|
    ensures Charges(s.ledger, i) == 0 && Refunds(s.ledger, i) == 0
  {
    NoPostings(s.ledger, |s.orders|, i);
  }

  lemma {:induction false} NoPostings(ledger: seq<Posting>, n: nat, i: nat)
    requires i >= n && forall k :: 0 <= k < |ledger| ==> ledger[k].order < n
    ensures Charges(ledger, i) == 0 && Refunds(ledger, i) == 0
    decreases |ledger|
  {
    if ledger != [] {
      NoPostings(ledger[..|ledger| - 1], n, i);
    }
  }

  lemma {:induction false} NothingGiven(cancels: seq<GiveBack>, p: nat, i: nat)
    requires forall k :: 0 <= k < |cancels| ==> cancels[k].payment != p
    ensures Given(cancels, p) == 0 && GivenFor(cancels, p, i) == 0
    decreases |cancels|
  {
    if cancels != [] {
      NothingGiven(cancels[..|cancels| - 1], p, i);
    }
  }

  /** Repricing or cancelling an order that waits moves no money. */
  lemma {:induction false} WaitingChanges(s: State, i: nat, o: Order)
    requires Inv(s) && i < |s.orders| && s.orders[i].status == Awaiting
    requires o.release == s.orders[i].release && o.service == s.orders[i].service && o.paid == Unpaid
    requires o.status == Awaiting || o.status == Cancelled || o.status == Rejected
    ensures Inv(s.(orders := s.orders[i := o]))
  {
    hide Sum, Total, Given, GivenFor, Charges, Refunds;
    var t := s.(orders := s.orders[i := o]);
    forall p: nat ensures Sum(t.orders, ByCard(p)) + Given(t.cancels, p) == Due(t, p) {
      SumUpdate(s.orders, i, o, ByCard(p));
      if Taken(s, p) {
        TotalSame(s.orders, t.orders, s.payments[p].orderIds);
      }
    }
    SumUpdate(s.orders, i, o, FromBalance);
  }

  lemma {:induction false} OrderAdded(s: State, o: Order)
    requires Inv(s) && o.status == Awaiting && o.paid == Unpaid
    requires forall i :: 0 <= i < |s.orders| ==> !Rivals(s.orders[i], o)
    ensures Inv(s.(orders := s.orders + [o]))
  {
    hide Sum, Total, Given, GivenFor, Charges, Refunds;
    var t := s.(orders := s.orders + [o]);
    forall p: nat ensures Sum(t.orders, ByCard(p)) + Given(t.cancels, p) == Due(t, p) {
      SumAdd(s.orders, o, ByCard(p));
      if Taken(s, p) {
        TotalSame(s.orders, t.orders, s.payments[p].orderIds);
      }
    }
    SumAdd(s.orders, o, FromBalance);
    NoneYet(s, |s.orders|);
  }

  lemma {:induction false} SyncOneKeeps(s: State, release: nat, w: Want)
    requires Inv(s)
    ensures Inv(s.(orders := SyncOne(s.orders, release, w)))
  {
    hide Inv;
    var found := FindLive(s.orders, release, w.service);
    assert LiveOnce(s) by { InvParts(s); }
    if found.Some? {
      var o := s.orders[found.value];
      if o.status == Awaiting {
        InvParts(s);
        if w.amount.None? {
          WaitingChanges(s, found.value, o.(status := Cancelled));
        } else {
          WaitingChanges(s, found.value, o.(amount := w.amount.value));
        }
      }
    } else if w.amount.Some? {
      OrderAdded(s, Order(release, w.service, w.amount.value, Awaiting, Unpaid));
    }
  }

  lemma {:induction false} InvParts(s: State)
    requires Inv(s)
    ensures PaidBeforeWork(s) && LiveOnce(s) && Bound(s) && CardsAddUp(s) && BalanceAddsUp(s) && OnceOnly(s)
  {
  }

  lemma {:induction false} SyncAllKeeps(s: State, release: nat, wants: seq<Want>)
    requires Inv(s)
    ensures Inv(s.(orders := SyncAll(s.orders, release, wants)))
    decreases |wants|
  {
    hide Inv, SyncOne;
    if wants != [] {
      var q := wants[..|wants| - 1];
      SyncAllKeeps(s, release, q);
      SyncOneKeeps(s.(orders := SyncAll(s.orders, release, q)), release, wants[|wants| - 1]);
    } else {
      assert s.(orders := s.orders) == s;
    }
  }

  // ---------------------------------------------------------------- paying from the balance

  lemma {:induction false} ChargeOneKeeps(s: State, i: nat)
    requires Inv(s) && ChargeOne(s, i).Ok?
    ensures Inv(ChargeOne(s, i).value)
  {
    hide Sum, Total, Given, GivenFor;
    var t := ChargeOne(s, i).value;
    var o := t.orders[i];
    assert t.ledger[..|t.ledger| - 1] == s.ledger;
    forall p: nat ensures Sum(t.orders, ByCard(p)) + Given(t.cancels, p) == Due(t, p) {
      SumUpdate(s.orders, i, o, ByCard(p));
      if Taken(s, p) {
        TotalSame(s.orders, t.orders, s.payments[p].orderIds);
      }
    }
    SumUpdate(s.orders, i, o, FromBalance);
  }

  lemma {:induction false} ChargeAllKeeps(s: State, ids: seq<nat>)
    requires Inv(s) && ChargeAll(s, ids).Ok?
    ensures Inv(ChargeAll(s, ids).value)
    decreases |ids|
  {
    hide Inv, ChargeOne;
    if ids != [] {
      ChargeAllKeeps(s, ids[..|ids| - 1]);
      ChargeOneKeeps(ChargeAll(s, ids[..|ids| - 1]).value, ids[|ids| - 1]);
    }
  }

  // ---------------------------------------------------------------- the card window

  lemma {:induction false} PayableIs(orders: seq<Order>, release: nat, ids: seq<nat>)
    ensures (var found := Payable(orders, release, ids);
             && Listed(orders, found)
             && (forall k :: 0 <= k < |found| ==> Selected(orders[found[k]], found[k], release, ids))
             && (forall i :: 0 <= i < |orders| && Selected(orders[i], i, release, ids) ==> i in found))
    decreases |orders|
  {
    if orders != [] {
      var n := |orders| - 1;
      PayableIs(orders[..n], release, ids);
      var found := Payable(orders[..n], release, ids);
      var all := Payable(orders, release, ids);
      assert all == if Selected(orders[n], n, release, ids) then found + [n] else found;
      forall k | 0 <= k < |found| ensures found[k] < n && Selected(orders[found[k]], found[k], release, ids) {
        assert orders[..n][found[k]] == orders[found[k]];
      }
      forall i | 0 <= i < |orders| && Selected(orders[i], i, release, ids) ensures i in all {
        if i < n {
          assert orders[..n][i] == orders[i];
          assert i in found;
        } else {
          assert all[|found|] == n;
        }
      }
    }
  }

  lemma {:induction false} WindowKeeps(s: State, release: nat, ids: seq<nat>, ready: bool)
    requires Inv(s)
    ensures Inv(OpenWindow(s, release, ids, ready).0)
  {
    var t := OpenWindow(s, release, ids, ready).0;
    if t != s {
      hide Sum, Total, Given, GivenFor, Charges, Refunds, Payable;
      PayableIs(s.orders, release, ids);
      forall p: nat ensures Taken(t, p) == Taken(s, p) && Due(t, p) == Due(s, p) {}
      forall p: nat ensures Sum(t.orders, ByCard(p)) + Given(t.cancels, p) == Due(t, p) {
        assert Due(t, p) == Due(s, p);
      }
    }
  }

  /** The rows of one payment while its orders are being settled: nothing else moves. */
  predicate SettlingRows(s: State, t: State, p: nat, ids: seq<nat>) {
    && |t.orders| == |s.orders| && t.payments == s.payments
    && t.balance == s.balance && t.income == s.income && t.ledger == s.ledger
    && (forall i :: 0 <= i < |s.orders| ==>
          t.orders[i] == if i in ids && s.orders[i].status == Awaiting
                         then s.orders[i].(status := Submitted, paid := ByCard(p)) else s.orders[i])
    && s.cancels <= t.cancels
    && (forall k :: |s.cancels| <= k < |t.cancels| ==>
          t.cancels[k].payment == p && t.cancels[k].order < |s.orders|
          && s.orders[t.cancels[k].order].status != Awaiting)
  }

  /** Its sums: the listed orders are either bound to it or given back. */
  ghost predicate SettlingSums(s: State, t: State, p: nat, ids: seq<nat>) {
    && Sum(t.orders, ByCard(p)) + Given(t.cancels, p)
       == Sum(s.orders, ByCard(p)) + Given(s.cancels, p) + Total(s.orders, ids)
    && (forall who: Paid :: who != ByCard(p) && who != Unpaid ==> Sum(t.orders, who) == Sum(s.orders, who))
    && (forall q: nat :: q != p ==> Given(t.cancels, q) == Given(s.cancels, q))
    && (forall q: nat, i: nat :: q != p || (i < |s.orders| && s.orders[i].status == Awaiting) ==>
          GivenFor(t.cancels, q, i) == GivenFor(s.cancels, q, i))
  }

  ghost predicate Settling(s: State, t: State, p: nat, ids: seq<nat>) {
    SettlingRows(s, t, p, ids) && SettlingSums(s, t, p, ids)
  }

  lemma {:induction false} SettleOneStep(s: State, t: State, p: nat, ids: seq<nat>)
    requires PaidBeforeWork(s) && ids != [] && Listed(s.orders, ids)
    requires Settling(s, t, p, ids[..|ids| - 1])
    ensures Settling(s, SettleOne(t, p, ids[|ids| - 1]), p, ids)
  {
    var q, i := ids[..|ids| - 1], ids[|ids| - 1];
    assert i !in q;
    assert forall j :: j in ids <==> j in q || j == i;
    assert t.orders[i] == s.orders[i];
    assert SettlingRows(s, SettleOne(t, p, i), p, ids) by {
      hide Sum, Given, GivenFor, Total, SettlingSums;
    }
    SettleOneSums(s, t, p, ids);
  }

  lemma {:induction false} SettleOneSums(s: State, t: State, p: nat, ids: seq<nat>)
    requires PaidBeforeWork(s) && ids != [] && Listed(s.orders, ids)
    requires SettlingSums(s, t, p, ids[..|ids| - 1])
    requires |t.orders| == |s.orders| && t.orders[ids[|ids| - 1]] == s.orders[ids[|ids| - 1]]
    ensures SettlingSums(s, SettleOne(t, p, ids[|ids| - 1]), p, ids)
  {
    var q, i := ids[..|ids| - 1], ids[|ids| - 1];
    var u := SettleOne(t, p, i);
    assert Total(s.orders, ids) == Total(s.orders, q) + s.orders[i].amount;
    hide Total, Sum, Listed;
    if s.orders[i].status == Awaiting {
      hide Given, GivenFor;
      assert u.cancels == t.cancels;
      SumUpdate(t.orders, i, u.orders[i], ByCard(p));
      forall who: Paid | who != ByCard(p) && who != Unpaid ensures Sum(u.orders, who) == Sum(t.orders, who) {
        SumUpdate(t.orders, i, u.orders[i], who);
      }
    } else {
      assert u.cancels == t.cancels + [GiveBack(p, i, s.orders[i].amount)];
      assert u.cancels[..|u.cancels| - 1] == t.cancels;
    }
  }

  lemma {:induction false} SettleAllIs(s: State, p: nat, ids: seq<nat>)
    requires PaidBeforeWork(s) && Listed(s.orders, ids)
    ensures Settling(s, SettleAll(s, p, ids), p, ids)
    decreases |ids|
  {
    if ids != [] {
      SettleAllIs(s, p, ids[..|ids| - 1]);
      hide SettleOne, Settling;
      SettleOneStep(s, SettleAll(s, p, ids[..|ids| - 1]), p, ids);
    }
  }

  /** Confirming a payment: its orders that still wait are paid by it, the others' parts go back. */
  lemma {:induction false} ConfirmKeeps(s: State, p: nat, ready: bool, approved: bool)
    requires Inv(s)
    ensures Inv(Confirm(s, p, ready, approved).0)
  {
    if ready && p < |s.payments| && s.payments[p].status == Pending && approved {
      var ids := s.payments[p].orderIds;
      var m := s.(payments := s.payments[p := s.payments[p].(status := Captured)]);
      var t := SettleAll(m, p, ids);
      SettleAllIs(m, p, ids);
      hide SettleAll;
      NothingGiven(s.cancels, p, 0);
      assert Sum(s.orders, ByCard(p)) == 0;
      ConfirmedRows(s, m, t, p, ids);
      ConfirmedMoney(s, m, t, p, ids);
      ConfirmedOnce(s, m, t, p, ids);
    }
  }

  lemma {:induction false} ConfirmedRows(s: State, m: State, t: State, p: nat, ids: seq<nat>)
    requires Inv(s) && p < |s.payments| && s.payments[p].status == Pending && ids == s.payments[p].orderIds
    requires m == s.(payments := s.payments[p := s.payments[p].(status := Captured)])
    requires Settling(m, t, p, ids)
    ensures PaidBeforeWork(t) && LiveOnce(t) && Bound(t)
  {
    hide Sum, Total, Given, GivenFor, Charges, Refunds, CardsAddUp, BalanceAddsUp, OnceOnly;
    assert forall q: nat :: Taken(s, q) ==> Taken(t, q);
    assert forall k :: 0 <= k < |ids| ==> ids[k] in ids;
  }

  lemma {:induction false} ConfirmedMoney(s: State, m: State, t: State, p: nat, ids: seq<nat>)
    requires Inv(s) && p < |s.payments| && s.payments[p].status == Pending && ids == s.payments[p].orderIds
    requires m == s.(payments := s.payments[p := s.payments[p].(status := Captured)])
    requires Settling(m, t, p, ids)
    ensures CardsAddUp(t) && BalanceAddsUp(t)
  {
    hide Sum, Total, Given, GivenFor, Charges, Refunds, OnceOnly, LiveOnce, PaidBeforeWork;
    assert Due(s, p) == 0;
    forall q: nat ensures Sum(t.orders, ByCard(q)) + Given(t.cancels, q) == Due(t, q) {
      if Taken(t, q) {
        TotalSame(s.orders, t.orders, t.payments[q].orderIds);
      }
      assert q != p ==> Taken(t, q) == Taken(s, q);
      assert Sum(s.orders, ByCard(q)) + Given(s.cancels, q) == Due(s, q);
    }
  }

  lemma {:induction false} ConfirmedOnce(s: State, m: State, t: State, p: nat, ids: seq<nat>)
    requires Inv(s) && p < |s.payments| && s.payments[p].status == Pending && ids == s.payments[p].orderIds
    requires m == s.(payments := s.payments[p := s.payments[p].(status := Captured)])
    requires Settling(m, t, p, ids)
    ensures OnceOnly(t)
  {
    hide Sum, Total, Given, GivenFor, Charges, Refunds, LiveOnce, BalanceAddsUp, CardsAddUp;
    forall i | 0 <= i < |t.orders| && t.orders[i].paid != Unpaid
      ensures GivenBack(t, i) == if Closed(t.orders[i]) then 1 else 0
    {
      if t.orders[i] != s.orders[i] {
        NothingGiven(s.cancels, p, i);
      }
    }
  }

  // ---------------------------------------------------------------- closing

  lemma {:induction false} RefundedCounts(ledger: seq<Posting>, i: nat)
    ensures Refunds(ledger, i) > 0 <==> exists k :: 0 <= k < |ledger| && ledger[k].Refund? && ledger[k].order == i
    decreases |ledger|
  {
    if ledger != [] {
      var q := ledger[..|ledger| - 1];
      RefundedCounts(q, i);
      if k :| 0 <= k < |q| && q[k].Refund? && q[k].order == i {
        assert ledger[k] == q[k];
      }
      if k :| 0 <= k < |ledger| && ledger[k].Refund? && ledger[k].order == i {
        assert k < |q| ==> q[k] == ledger[k];
      }
    }
  }

  /** Closing an open order gives back what it paid, once. */
  lemma {:induction false} CloseKeeps(s: State, i: nat, status: Status, cancelled: bool)
    requires Inv(s) && i < |s.orders| && !Closed(s.orders[i])
    requires status == Cancelled || status == Rejected
    requires CloseAndRefund(s, i, status, cancelled).Ok?
    ensures Inv(CloseAndRefund(s, i, status, cancelled).value)
  {
    var o := s.orders[i].(status := status);
    var t := CloseAndRefund(s, i, status, cancelled).value;
    RefundedCounts(s.ledger, i);
    assert ClosedBy(s, t, i, o);
    hide CloseAndRefund;
    ClosedRows(s, t, i, o);
    ClosedMoney(s, t, i, o);
  }

  /** What closing an order changes, by the way it was paid. */
  predicate ClosedBy(s: State, t: State, i: nat, o: Order) {
    && i < |s.orders| && o.amount == s.orders[i].amount && o.paid == s.orders[i].paid
    && o.release == s.orders[i].release && o.service == s.orders[i].service && Closed(o)
    && t.orders == s.orders[i := o] && t.payments == s.payments && t.income == s.income
    && (match o.paid
        case Unpaid => t.balance == s.balance && t.ledger == s.ledger && t.cancels == s.cancels
        case FromBalance =>
          t.balance == s.balance + o.amount && t.ledger == s.ledger + [Refund(i, o.amount)] && t.cancels == s.cancels
        case ByCard(p) =>
          t.balance == s.balance && t.ledger == s.ledger && t.cancels == s.cancels + [GiveBack(p, i, o.amount)])
  }

  lemma {:induction false} ClosedRows(s: State, t: State, i: nat, o: Order)
    requires Inv(s) && ClosedBy(s, t, i, o)
    ensures PaidBeforeWork(t) && LiveOnce(t) && Bound(t)
  {
    hide Sum, Total, Given, GivenFor, Charges, Refunds, CardsAddUp, BalanceAddsUp, OnceOnly;
  }

  lemma {:induction false} ClosedMoney(s: State, t: State, i: nat, o: Order)
    requires Inv(s) && ClosedBy(s, t, i, o) && !Closed(s.orders[i])
    ensures CardsAddUp(t) && BalanceAddsUp(t)
  {
    hide Sum, Total, OnceOnly, LiveOnce, PaidBeforeWork;
    assert t.cancels != s.cancels ==> t.cancels[..|t.cancels| - 1] == s.cancels;
    forall p: nat ensures Sum(t.orders, ByCard(p)) + Given(t.cancels, p) == Due(t, p) {
      SumUpdate(s.orders, i, o, ByCard(p));
      if Taken(s, p) {
        TotalSame(s.orders, t.orders, s.payments[p].orderIds);
      }
      assert Sum(s.orders, ByCard(p)) + Given(s.cancels, p) == Due(s, p);
    }
    SumUpdate(s.orders, i, o, FromBalance);
  }

  /** Moving an open, paid order on. */
  lemma {:induction false} MoveKeeps(s: State, i: nat, st: Status)
    requires Inv(s) && i < |s.orders| && Worked(s.orders[i].status) && Worked(st)
    ensures Inv(s.(orders := s.orders[i := s.orders[i].(status := st)]))
  {
    hide Sum, Total, Given, GivenFor, Charges, Refunds;
    var o := s.orders[i].(status := st);
    var t := s.(orders := s.orders[i := o]);
    forall p: nat ensures Sum(t.orders, ByCard(p)) + Given(t.cancels, p) == Due(t, p) {
      SumUpdate(s.orders, i, o, ByCard(p));
      if Taken(s, p) {
        TotalSame(s.orders, t.orders, s.payments[p].orderIds);
      }
    }
    SumUpdate(s.orders, i, o, FromBalance);
  }

  // ---------------------------------------------------------------- every step, every run

  lemma {:induction false} StepKeeps(s: State, e: Step)
    requires Inv(s)
    ensures Inv(Next(s, e))
  {
    match e {
      case Submit(r, ws) => SyncAllKeeps(s, r, ws);
      case PayBalance(r, ids) =>
        hide Inv;
        if ChargeAll(s, Payable(s.orders, r, ids)).Ok? {
          ChargeAllKeeps(s, Payable(s.orders, r, ids));
        }
      case PayCard(r, ids, ready) => WindowKeeps(s, r, ids, ready);
      case ConfirmCard(p, ready, ok) => ConfirmKeeps(s, p, ready, ok);
      case CancelOrder(i, ok) =>
        hide Inv, CloseAndRefund;
        if Cancel(s, i, ok).1 == Done {
          CloseKeeps(s, i, Cancelled, ok);
        }
      case Staff(i, m, noted, ok) =>
        hide Inv, CloseAndRefund;
        if StaffUpdate(s, i, m, noted, ok).1 == Done {
          if m == ToRejected {
            CloseKeeps(s, i, Rejected, ok);
          } else {
            MoveKeeps(s, i, MoveTo(m, s.orders[i].status));
          }
        }
      case Movement(d) =>
    }
  }

  /** Every run keeps every invariant. */
  lemma {:induction false} RunKeeps(es: seq<Step>)
    ensures Inv(Run(es))
    decreases |es|
  {
    hide Inv, Next;
    if es == [] {
      StartsWell();
    } else {
      RunKeeps(es[..|es| - 1]);
      StepKeeps(Run(es[..|es| - 1]), es[|es| - 1]);
    }
  }
}
