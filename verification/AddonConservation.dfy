/**
  Is the money of a card payment conserved? The amount is fixed when the window opens, and an
  unpaid order can be repriced until the payment is confirmed: it is conserved exactly when that
  did not happen.
*/
module AddonConservation {
  import opened Common
  import opened Addons
  import opened AddonMoney

  /** Captured amount = open orders bound to the payment + parts given back. */
  predicate Conserved(s: State, p: nat)
    requires p < |s.payments|
  {
    s.payments[p].amount == Sum(s.orders, ByCard(p)) + Given(s.cancels, p)
  }

  predicate Matches(s: State, p: nat)
    requires p < |s.payments|
  {
    s.payments[p].amount == Total(s.orders, s.payments[p].orderIds)
  }

  predicate AllMatch(s: State) {
    forall p :: 0 <= p < |s.payments| ==> Matches(s, p)
  }

  /** In every reachable state: conserved exactly when the amount captured is the sum of the prices
      its orders have. */
  lemma {:induction false} ConservedExactlyWhen(es: seq<Step>, p: nat)
    requires Taken(Run(es), p)
    ensures Conserved(Run(es), p) <==> Matches(Run(es), p)
  {
    hide Run, Total, Sum, Given;
    RunKeeps(es);
    assert Sum(Run(es).orders, ByCard(p)) + Given(Run(es).cancels, p) == Due(Run(es), p);
  }

  // ---------------------------------------------------------------- what breaks the match

  /** A resubmission that changes the price of an order named in an open card window. */
  predicate RepricesOpenWindow(s: State, release: nat, w: Want) {
    var found := FindLive(s.orders, release, w.service);
    && found.Some? && s.orders[found.value].status == Awaiting
    && w.amount.Some? && w.amount.value != s.orders[found.value].amount
    && exists p :: 0 <= p < |s.payments| && s.payments[p].status == Pending && found.value in s.payments[p].orderIds
  }

  lemma {:induction false} TotalUpdate(orders: seq<Order>, ids: seq<nat>, i: nat, o: Order)
    requires Listed(orders, ids) && i < |orders|
    ensures Total(orders[i := o], ids) + (if i in ids then orders[i].amount else 0)
         == Total(orders, ids) + (if i in ids then o.amount else 0)
    decreases |ids|
  {
    if ids != [] {
      var q := ids[..|ids| - 1];
      TotalUpdate(orders, q, i, o);
      assert forall j :: j in ids <==> j in q || j == ids[|ids| - 1];
      assert i == ids[|ids| - 1] ==> i !in q;
    }
  }

  /** One choice of a resubmission keeps every payment's amount in step with its orders exactly when
      it reprices no order of an open window. */
  lemma {:induction false} SyncMatches(s: State, release: nat, w: Want)
    requires Inv(s) && AllMatch(s)
    ensures AllMatch(s.(orders := SyncOne(s.orders, release, w))) <==> !RepricesOpenWindow(s, release, w)
  {
    hide Total;
    InvParts(s);
    hide Inv, LiveOnce, PaidBeforeWork, CardsAddUp, BalanceAddsUp, OnceOnly;
    var t := s.(orders := SyncOne(s.orders, release, w));
    var found := FindLive(s.orders, release, w.service);
    forall p | 0 <= p < |s.payments|
      ensures Matches(t, p) <==>
                !(found.Some? && s.orders[found.value].status == Awaiting && w.amount.Some?
                  && w.amount.value != s.orders[found.value].amount && found.value in s.payments[p].orderIds)
    {
      var ids := s.payments[p].orderIds;
      if found.Some? {
        TotalUpdate(s.orders, ids, found.value, t.orders[found.value]);
      } else {
        TotalSame(s.orders, t.orders, ids);
      }
      assert Matches(s, p);
    }
    if RepricesOpenWindow(s, release, w) {
      var p :| 0 <= p < |s.payments| && s.payments[p].status == Pending && found.value in s.payments[p].orderIds;
      assert !Matches(t, p);
    } else {
      forall p | 0 <= p < |t.payments| ensures Matches(t, p) {
        assert Matches(s, p);
      }
    }
  }

  // ---------------------------------------------------------------- the amount of a window

  lemma {:induction false} AtMostThree(s: State, ids: seq<nat>, release: nat)
    requires LiveOnce(s) && Listed(s.orders, ids)
    requires forall k :: 0 <= k < |ids| ==> s.orders[ids[k]].release == release && !Closed(s.orders[ids[k]])
    ensures |ids| <= 3
  {
    if |ids| > 3 {
      TwoOfFourAgree(s.orders[ids[0]].service, s.orders[ids[1]].service,
                     s.orders[ids[2]].service, s.orders[ids[3]].service);
    }
    forall j, k | 0 <= j < k < |ids| ensures s.orders[ids[j]].service != s.orders[ids[k]].service {
      var a, b := ids[j], ids[k];
      assert !Rivals(s.orders[if a < b then a else b], s.orders[if a < b then b else a]);
    }
  }

  /** There are three services. */
  lemma {:induction false} TwoOfFourAgree(a: Service, b: Service, c: Service, d: Service)
    ensures a == b || a == c || a == d || b == c || b == d || c == d
  {
  }

  lemma {:induction false} TotalBound(orders: seq<Order>, ids: seq<nat>)
    ensures Total(orders, ids) <= |ids| * 1_000_000_000
    decreases |ids|
  {
    if ids != [] {
      TotalBound(orders, ids[..|ids| - 1]);
    }
  }

  /** The amount stored as 32 bits is the true total whenever the window opens at all. */
  lemma {:induction false} WindowMatches(s: State, release: nat, ids: seq<nat>, ready: bool)
    requires Inv(s) && AllMatch(s)
    ensures AllMatch(OpenWindow(s, release, ids, ready).0)
  {
    hide Total, Payable;
    var found := Payable(s.orders, release, ids);
    PayableIs(s.orders, release, ids);
    AtMostThree(s, found, release);
    TotalBound(s.orders, found);
    var t := OpenWindow(s, release, ids, ready).0;
    forall p | 0 <= p < |t.payments| ensures Matches(t, p) {
      if p < |s.payments| { assert Matches(s, p); }
    }
  }

  // ---------------------------------------------------------------- the other steps

  /** Amounts and payment lists as they were. */
  predicate SamePrices(s: State, t: State) {
    && |s.orders| == |t.orders| && |s.payments| == |t.payments|
    && (forall i :: 0 <= i < |s.orders| ==> s.orders[i].amount == t.orders[i].amount)
    && (forall p :: 0 <= p < |s.payments| ==>
          s.payments[p].amount == t.payments[p].amount && s.payments[p].orderIds == t.payments[p].orderIds)
  }

  lemma {:induction false} SamePricesMatch(s: State, t: State)
    requires Bound(s) && AllMatch(s) && SamePrices(s, t)
    ensures AllMatch(t)
  {
    hide Total;
    forall p | 0 <= p < |t.payments| ensures Matches(t, p) {
      assert Matches(s, p);
      TotalSame(s.orders, t.orders, s.payments[p].orderIds);
    }
  }

  lemma {:induction false} ChargeAllPrices(s: State, ids: seq<nat>)
    requires ChargeAll(s, ids).Ok?
    ensures SamePrices(s, ChargeAll(s, ids).value)
    decreases |ids|
  {
    if ids != [] {
      ChargeAllPrices(s, ids[..|ids| - 1]);
    }
  }

  lemma {:induction false} SettleAllPrices(s: State, p: nat, ids: seq<nat>)
    ensures SamePrices(s, SettleAll(s, p, ids))
    decreases |ids|
  {
    if ids != [] {
      SettleAllPrices(s, p, ids[..|ids| - 1]);
    }
  }

  lemma {:induction false} OtherStepPrices(s: State, e: Step)
    requires !e.Submit? && !e.PayCard?
    ensures SamePrices(s, Next(s, e))
  {
    match e
    case PayBalance(r, ids) =>
      hide ChargeAll, SamePrices;
      assert SamePrices(s, s) by { SameAsItself(s); }
      if ChargeAll(s, Payable(s.orders, r, ids)).Ok? {
        ChargeAllPrices(s, Payable(s.orders, r, ids));
      }
    case ConfirmCard(p, ready, ok) =>
      if p < |s.payments| {
        hide SettleAll;
        var m := s.(payments := s.payments[p := s.payments[p].(status := Captured)]);
        SettleAllPrices(m, p, s.payments[p].orderIds);
      }
    case CancelOrder(i, ok) =>
    case Staff(i, m, noted, ok) =>
    case Movement(d) =>
  }

  lemma {:induction false} SameAsItself(s: State)
    ensures SamePrices(s, s)
  {
  }

  // ---------------------------------------------------------------- over whole runs

  /** None of the choices, each applied after the ones before it, reprices an open window. */
  predicate QuietSubmit(s: State, release: nat, wants: seq<Want>)
    decreases |wants|
  {
    wants == []
    || (QuietSubmit(s, release, wants[..|wants| - 1])
        && !RepricesOpenWindow(s.(orders := SyncAll(s.orders, release, wants[..|wants| - 1])),
                               release, wants[|wants| - 1]))
  }

  lemma {:induction false} QuietSubmitMatches(s: State, release: nat, wants: seq<Want>)
    requires Inv(s) && AllMatch(s) && QuietSubmit(s, release, wants)
    ensures AllMatch(s.(orders := SyncAll(s.orders, release, wants)))
    decreases |wants|
  {
    hide Inv, AllMatch, RepricesOpenWindow, SyncOne;
    if wants == [] {
      assert s.(orders := s.orders) == s;
    } else {
      var q := wants[..|wants| - 1];
      QuietSubmitMatches(s, release, q);
      SyncAllKeeps(s, release, q);
      SyncMatches(s.(orders := SyncAll(s.orders, release, q)), release, wants[|wants| - 1]);
    }
  }

  predicate Quiet(s: State, e: Step) {
    e.Submit? ==> QuietSubmit(s, e.release, e.wants)
  }

  /** No resubmission of the run reprices an order while a card window naming it is open. */
  predicate QuietRun(es: seq<Step>)
    decreases |es|
  {
    es == [] || (QuietRun(es[..|es| - 1]) && Quiet(Run(es[..|es| - 1]), es[|es| - 1]))
  }

  lemma {:induction false} QuietStepMatches(s: State, e: Step)
    requires Inv(s) && AllMatch(s) && Quiet(s, e)
    ensures AllMatch(Next(s, e))
  {
    hide AllMatch;
    match e {
      case Submit(r, ws) => QuietSubmitMatches(s, r, ws);
      case PayCard(r, ids, ready) => WindowMatches(s, r, ids, ready);
      case PayBalance(_, _) => OtherStepPrices(s, e); SamePricesMatch(s, Next(s, e));
      case ConfirmCard(_, _, _) => OtherStepPrices(s, e); SamePricesMatch(s, Next(s, e));
      case CancelOrder(_, _) => OtherStepPrices(s, e); SamePricesMatch(s, Next(s, e));
      case Staff(_, _, _, _) => OtherStepPrices(s, e); SamePricesMatch(s, Next(s, e));
      case Movement(_) => OtherStepPrices(s, e); SamePricesMatch(s, Next(s, e));
    }
  }

  /** In a run without such a repricing the money of every captured payment is conserved, however
      many windows were opened for an order and whatever was closed meanwhile. */
  lemma {:induction false} QuietRunsConserve(es: seq<Step>)
    requires QuietRun(es)
    ensures AllMatch(Run(es))
    ensures forall p: nat :: Taken(Run(es), p) ==> Conserved(Run(es), p)
    decreases |es|
  {
    hide Next, Inv, Quiet, Conserved, AllMatch;
    if es == [] {
      assert AllMatch(EMPTY) by { NoPaymentsMatch(); }
    } else {
      var q := es[..|es| - 1];
      QuietRunsConserve(q);
      RunKeeps(q);
      QuietStepMatches(Run(q), es[|es| - 1]);
    }
    forall p: nat | Taken(Run(es), p) ensures Conserved(Run(es), p) {
      ConservedExactlyWhen(es, p);
      MatchOf(Run(es), p);
    }
  }

  lemma {:induction false} NoPaymentsMatch()
    ensures AllMatch(EMPTY)
  {
  }

  lemma {:induction false} MatchOf(s: State, p: nat)
    requires AllMatch(s) && p < |s.payments|
    ensures Matches(s, p)
  {
  }

  /** A run that loses money: 100 is captured for an order that now costs 300, and cancelling the
      order asks for 300 back. */
  function RepricedRun(): seq<Step> {
    [Submit(0, [Want(ExpressRelease, Some(100))]),
     PayCard(0, [], true),
     Submit(0, [Want(ExpressRelease, Some(300))]),
     ConfirmCard(0, true, true)]
  }

  function Priced(amount: Amount): Order { Order(0, ExpressRelease, amount, Awaiting, Unpaid) }

  lemma {:induction false} RepricedSubmits()
    ensures Next(EMPTY, Submit(0, [Want(ExpressRelease, Some(100))])) == EMPTY.(orders := [Priced(100)])
    ensures SyncAll([Priced(100)], 0, [Want(ExpressRelease, Some(300))]) == [Priced(300)]
  {
    var w1, w3 := [Want(ExpressRelease, Some(100))], [Want(ExpressRelease, Some(300))];
    assert w1[..0] == [] && w3[..0] == [];
    assert [] + [Priced(100)] == [Priced(100)];
  }

  lemma {:induction false} RepricedPayment(o: Order)
    requires o.status == Awaiting && o.release == 0
    ensures Payable([o], 0, []) == [0] && Total([o], [0]) == o.amount
    ensures (var p := Payment([0], 100, Pending);
             SettleAll(State([o], [p.(status := Captured)], 0, 0, [], []), 0, [0])
             == State([o.(status := Submitted, paid := ByCard(0))], [p.(status := Captured)], 0, 0, [], []))
  {
    assert [o][..0] == [] && [0][..0] == [];
  }

  lemma {:induction false} RepricedRunLosesMoney()
    ensures (var s := Run(RepricedRun());
             Taken(s, 0) && s.payments[0].amount == 100 && Sum(s.orders, ByCard(0)) == 300 && !Conserved(s, 0))
  {
    hide SyncAll, SettleAll, Payable, Total;
    var es := RepricedRun();
    assert es[..4] == es && es[..4][..3] == es[..3] && es[..3][..2] == es[..2] && es[..2][..1] == es[..1]
        && es[..1][..0] == [];
    RepricedSubmits();
    RepricedPayment(Priced(100));
    RepricedPayment(Priced(300));
    var s1 := EMPTY.(orders := [Priced(100)]);
    assert Run(es[..1]) == s1;
    var s2 := s1.(payments := [Payment([0], 100, Pending)]);
    assert Run(es[..2]) == s2;
    var s3 := s2.(orders := [Priced(300)]);
    assert Run(es[..3]) == s3;
    var paid := Priced(300).(status := Submitted, paid := ByCard(0));
    var s4 := s3.(orders := [paid], payments := [Payment([0], 100, Captured)]);
    assert s3.payments[0 := Payment([0], 100, Captured)] == s4.payments;
    assert Run(es) == s4;
    assert [paid][..0] == [];
  }

  // ---------------------------------------------------------------- paying from the balance

  /** Paying from the balance takes all the orders or none: refused exactly when the balance does not
      cover their total. */
  lemma {:induction false} ChargeAllExactlyWhen(s: State, ids: seq<nat>)
    requires Listed(s.orders, ids) && ids != []
    requires forall k :: 0 <= k < |ids| ==> s.orders[ids[k]].status == Awaiting && s.orders[ids[k]].paid == Unpaid
    ensures ChargeAll(s, ids) == Err(BalanceShort) <==> s.balance < Total(s.orders, ids)
    ensures ChargeAll(s, ids).Ok? <==> s.balance >= Total(s.orders, ids)
    ensures ChargeAll(s, ids).Ok? ==> ChargedBy(s, ChargeAll(s, ids).value, ids)
    decreases |ids|
  {
    var q, i := ids[..|ids| - 1], ids[|ids| - 1];
    assert forall j :: j in ids <==> j in q || j == i;
    if q == [] {
      assert ChargeAll(s, q) == Ok(s) && Total(s.orders, q) == 0;
    } else {
      ChargeAllExactlyWhen(s, q);
    }
  }

  /** Exactly the listed orders are paid from the balance, which drops by their total. */
  predicate ChargedBy(s: State, t: State, ids: seq<nat>) {
    && t.balance == s.balance - Total(s.orders, ids) && t.income == s.income
    && t.payments == s.payments && t.cancels == s.cancels && |t.orders| == |s.orders|
    && forall i :: 0 <= i < |s.orders| ==>
         t.orders[i] == if i in ids then s.orders[i].(status := Submitted, paid := FromBalance) else s.orders[i]
  }

  // ---------------------------------------------------------------- what is never left

  predicate Final(st: Status) { st == Cancelled || st == Rejected || st == Completed }

  /** Rows stay, and final orders stay as they are. */
  predicate KeepsFinal(s: State, t: State) {
    && |s.orders| <= |t.orders|
    && forall i :: 0 <= i < |s.orders| && Final(s.orders[i].status) ==> t.orders[i] == s.orders[i]
  }

  lemma {:induction false} SyncAllFinal(s: State, release: nat, wants: seq<Want>)
    ensures KeepsFinal(s, s.(orders := SyncAll(s.orders, release, wants)))
    decreases |wants|
  {
    if wants != [] {
      SyncAllFinal(s, release, wants[..|wants| - 1]);
    }
  }

  lemma {:induction false} ChargeAllFinal(s: State, ids: seq<nat>)
    requires ChargeAll(s, ids).Ok?
    ensures KeepsFinal(s, ChargeAll(s, ids).value)
    decreases |ids|
  {
    if ids != [] {
      ChargeAllFinal(s, ids[..|ids| - 1]);
    }
  }

  lemma {:induction false} SettleAllFinal(s: State, p: nat, ids: seq<nat>)
    ensures KeepsFinal(s, SettleAll(s, p, ids))
    decreases |ids|
  {
    if ids != [] {
      SettleAllFinal(s, p, ids[..|ids| - 1]);
    }
  }

  lemma {:induction false} StepKeepsFinal(s: State, e: Step)
    ensures KeepsFinal(s, Next(s, e))
  {
    match e
    case Submit(r, ws) => SyncAllFinal(s, r, ws);
    case PayBalance(r, ids) =>
      if ChargeAll(s, Payable(s.orders, r, ids)).Ok? {
        ChargeAllFinal(s, Payable(s.orders, r, ids));
      }
    case PayCard(_, _, _) =>
    case ConfirmCard(p, _, _) =>
      if p < |s.payments| {
        hide SettleAll;
        SettleAllFinal(s.(payments := s.payments[p := s.payments[p].(status := Captured)]), p, s.payments[p].orderIds);
      }
    case CancelOrder(_, _) =>
    case Staff(_, _, _, _) =>
    case Movement(_) =>
  }

  /** A cancelled, rejected or completed order is never touched again. */
  lemma {:induction false} FinalForever(es: seq<Step>, k: nat)
    requires k <= |es|
    ensures KeepsFinal(Run(es[..k]), Run(es))
    decreases |es| - k
  {
    hide Next;
    if k == |es| {
      assert es[..k] == es;
    } else {
      FinalForever(es, k + 1);
      assert es[..k + 1][..k] == es[..k];
      StepKeepsFinal(Run(es[..k]), es[k]);
    }
  }
}
