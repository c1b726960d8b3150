/**
  The requests of `addons.rs` on the tables, each one transaction: a failed request puts back what
  it had changed. Proved against the steps of `Addons`.
*/
module AddonDesk {
  import opened Common
  import opened Addons
  import opened AddonMoney

  class Desk {
    var orders: seq<Order>
    var payments: seq<Payment>
    var balance: int
    var income: int
    var ledger: seq<Posting>
    var cancels: seq<GiveBack>

    function Now(): State reads this { State(orders, payments, balance, income, ledger, cancels) }

    /** What `RunKeeps` proves of every reachable state. */
    ghost predicate Valid() reads this { Inv(Now()) }

    constructor ()
      ensures Valid() && Now() == EMPTY
    {
      orders, payments, balance, income, ledger, cancels := [], [], 0, 0, [], [];
      new;
      hide Inv;
      StartsWell();
    }

    method Restore(s: State)
      requires Inv(s)
      modifies this
      ensures Valid() && Now() == s
    {
      orders, payments, balance, income, ledger, cancels :=
        s.orders, s.payments, s.balance, s.income, s.ledger, s.cancels;
    }

    /** The application's add-on choices become orders. */
    method SyncFromSubmission(release: nat, wants: seq<Want>)
      requires Valid()
      modifies this
      ensures Valid()
      ensures Now() == Next(old(Now()), Submit(release, wants))
    {
      hide Inv;
      StepKeeps(Now(), Submit(release, wants));
      var k := 0;
      while k < |wants|
        invariant 0 <= k <= |wants|
        invariant Now() == old(Now()).(orders := SyncAll(old(orders), release, wants[..k]))
      {
        assert wants[..k + 1][..k] == wants[..k];
        var found := FindLive(orders, release, wants[k].service);
        match (wants[k].amount, found) {
          case (None, Some(i)) =>
            if orders[i].status == Awaiting {
              orders := orders[i := orders[i].(status := Cancelled)];
            }
          case (Some(amount), Some(i)) =>
            if orders[i].status == Awaiting {
              orders := orders[i := orders[i].(amount := amount)];
            }
          case (Some(amount), None) =>
            orders := orders + [Order(release, wants[k].service, amount, Awaiting, Unpaid)];
          case (None, None) =>
        }
        k := k + 1;
      }
      assert wants[..k] == wants;
    }

    /** `finance.charge_addon`: the balance must cover the order. */
    method Charge(i: nat) returns (r: Outcome)
      requires Valid()
      modifies this
      ensures Valid()
      ensures r == Done ==> ChargeOne(old(Now()), i) == Ok(Now())
      ensures r != Done ==> ChargeOne(old(Now()), i) == Err(r) && Now() == old(Now())
    {
      hide Inv;
      if ChargeOne(Now(), i).Ok? {
        ChargeOneKeeps(Now(), i);
      }
      if i >= |orders| || orders[i].status != Awaiting || orders[i].paid != Unpaid {
        return NotPayable;
      }
      var amount := orders[i].amount;
      if balance < amount {
        return BalanceShort;
      }
      ledger := ledger + [Posting.Charge(i, amount)];
      balance := balance - amount;
      orders := orders[i := orders[i].(status := Submitted, paid := FromBalance)];
      return Done;
    }

    method PayFromBalance(release: nat, ids: seq<nat>) returns (r: Outcome)
      requires Valid()
      modifies this
      ensures Valid()
      ensures (Now(), r) == Addons.PayFromBalance(old(Now()), release, ids)
    {
      hide Inv;
      StepKeeps(Now(), PayBalance(release, ids));
      if PayRefused(orders, release, ids) {
        return NotPayable;
      }
      var found := Payable(orders, release, ids);
      var before := Now();
      var k := 0;
      while k < |found|
        invariant 0 <= k <= |found|
        invariant Valid() && ChargeAll(before, found[..k]) == Ok(Now())
      {
        assert found[..k + 1][..k] == found[..k];
        var one := Charge(found[k]);
        if one != Done {
          ChargeStops(before, found, k + 1);
          Restore(before);
          return one;
        }
        k := k + 1;
      }
      assert found[..k] == found;
      return Done;
    }

    method PayByCard(release: nat, ids: seq<nat>, cardReady: bool) returns (r: Outcome)
      requires Valid()
      modifies this
      ensures Valid()
      ensures (Now(), r) == OpenWindow(old(Now()), release, ids, cardReady)
    {
      hide Inv, Payable;
      StepKeeps(Now(), PayCard(release, ids, cardReady));
      if PayRefused(orders, release, ids) {
        return NotPayable;
      }
      if !cardReady {
        return CardUnavailable;
      }
      var found := Payable(orders, release, ids);
      PayableIs(orders, release, ids);
      var total := 0;
      var k := 0;
      while k < |found|
        invariant 0 <= k <= |found|
        invariant Now() == old(Now())
        invariant total == Total(orders, found[..k])
      {
        assert found[..k + 1][..k] == found[..k];
        total := total + orders[found[k]].amount;
        k := k + 1;
      }
      assert found[..k] == found;
      var amount := Wrap32(total);
      if amount <= 0 {
        return AmountInvalid;
      }
      payments := payments + [Payment(found, amount, Pending)];
      return Done;
    }

    method ConfirmPayment(payment: nat, cardReady: bool, approved: bool) returns (r: Outcome)
      requires Valid()
      modifies this
      ensures Valid()
      ensures (Now(), r) == Confirm(old(Now()), payment, cardReady, approved)
    {
      hide Inv;
      StepKeeps(Now(), ConfirmCard(payment, cardReady, approved));
      if !cardReady {
        return CardUnavailable;
      }
      if payment >= |payments| {
        return NotFound;
      }
      if payments[payment].status == Captured {
        return AlreadyPaid;
      }
      if !approved {
        return Declined;
      }
      var ids := payments[payment].orderIds;
      payments := payments[payment := payments[payment].(status := Captured)];
      ghost var s := Now();
      var k := 0;
      while k < |ids|
        invariant 0 <= k <= |ids|
        invariant Now() == SettleAll(s, payment, ids[..k])
      {
        assert ids[..k + 1][..k] == ids[..k];
        var i := ids[k];
        if i < |orders| {
          if orders[i].status == Awaiting {
            orders := orders[i := orders[i].(status := Submitted, paid := ByCard(payment))];
          } else {
            cancels := cancels + [GiveBack(payment, i, orders[i].amount)];
          }
        }
        k := k + 1;
      }
      assert ids[..k] == ids;
      return Done;
    }

    /** Close an order and give its payment back; a failed card cancel changes nothing. */
    method CloseAndRefund(i: nat, status: Status, cancelled: bool) returns (r: Outcome)
      requires Valid() && i < |orders| && !Closed(orders[i])
      requires status == Cancelled || status == Rejected
      modifies this
      ensures Valid()
      ensures r == Done ==> Addons.CloseAndRefund(old(Now()), i, status, cancelled) == Ok(Now())
      ensures r != Done ==> Addons.CloseAndRefund(old(Now()), i, status, cancelled) == Err(r) && Now() == old(Now())
    {
      hide Inv;
      if Addons.CloseAndRefund(Now(), i, status, cancelled).Ok? {
        CloseKeeps(Now(), i, status, cancelled);
      }
      var o := orders[i];
      if o.paid.ByCard? {
        if !cancelled {
          return CardUnavailable;
        }
        cancels := cancels + [GiveBack(o.paid.payment, i, o.amount)];
      }
      orders := orders[i := o.(status := status)];
      if orders[i].paid == FromBalance && Closed(orders[i]) && !Refunded(Now(), i) {
        ledger := ledger + [Posting.Refund(i, o.amount)];
        balance := balance + o.amount;
      }
      return Done;
    }

    method CancelOrder(i: nat, cancelled: bool) returns (r: Outcome)
      requires Valid()
      modifies this
      ensures Valid()
      ensures (Now(), r) == Cancel(old(Now()), i, cancelled)
    {
      hide Inv;
      if i >= |orders| {
        return NotFound;
      }
      if orders[i].status != Awaiting && orders[i].status != Submitted {
        return NotCancellable;
      }
      r := CloseAndRefund(i, Cancelled, cancelled);
    }

    method StaffUpdate(i: nat, m: StaffMove, noted: bool, cancelled: bool) returns (r: Outcome)
      requires Valid()
      modifies this
      ensures Valid()
      ensures (Now(), r) == Addons.StaffUpdate(old(Now()), i, m, noted, cancelled)
    {
      hide Inv;
      StepKeeps(Now(), Staff(i, m, noted, cancelled));
      if m == Other {
        return StatusInvalid;
      }
      if m == ToRejected && !noted {
        return NoteRequired;
      }
      if i >= |orders| {
        return NotFound;
      }
      if !MoveFrom(m, orders[i].status) {
        return Conflict;
      }
      if m == ToRejected {
        r := CloseAndRefund(i, Rejected, cancelled);
      } else {
        orders := orders[i := orders[i].(status := MoveTo(m, orders[i].status))];
        r := Done;
      }
    }
  }

  /** A charge that fails ends the payment. */
  lemma {:induction false} ChargeStops(s: State, ids: seq<nat>, k: nat)
    requires k <= |ids| && ChargeAll(s, ids[..k]).Err?
    ensures ChargeAll(s, ids) == ChargeAll(s, ids[..k])
    decreases |ids|
  {
    hide ChargeOne;
    if k == |ids| {
      assert ids[..k] == ids;
    } else {
      assert ids[..|ids| - 1][..k] == ids[..k];
      ChargeStops(s, ids[..|ids| - 1], k);
    }
  }
}
