/**
  Add-on orders and their payments (`addons.rs`; `finance.charge_addon` and `finance.refund_addon`
  of migration 0157): the tables of one organisation as a value, and each request as one step.

  Rows are identified by their position; rows are never deleted.
*/
module Addons {
  import opened Common

  datatype Service = MvDistribution | ExpressRelease | LyricSync

  datatype Status = Awaiting | Submitted | InProgress | Delivered | Completed | Cancelled | Rejected

  /** How an order was paid: not yet, from the settlement balance, or by a card payment. */
  datatype Paid = Unpaid | FromBalance | ByCard(payment: nat)

  /** An order's price: `CHECK (unit_price BETWEEN 0 AND 10000000)`, `quantity BETWEEN 1 AND 100`. */
  type Amount = n: nat | n <= 1_000_000_000

  datatype Order = Order(release: nat, service: Service, amount: Amount, status: Status, paid: Paid)

  datatype PaymentStatus = Pending | Captured

  datatype Payment = Payment(orderIds: seq<nat>, amount: nat, status: PaymentStatus)

  /** Postings between the organisation's balance and the add-on revenue. */
  datatype Posting = Charge(order: nat, amount: nat) | Refund(order: nat, amount: nat)

  /** Money given back through the card company. */
  datatype GiveBack = GiveBack(payment: nat, order: nat, amount: nat)

  /** `income` is every other movement of the withdrawable balance, net. */
  datatype State = State(
    orders: seq<Order>, payments: seq<Payment>, balance: int, income: int,
    ledger: seq<Posting>, cancels: seq<GiveBack>)

  const EMPTY := State([], [], 0, 0, [], [])

  datatype Outcome =
    | Done | AlreadyPaid | NotFound | NotPayable | BalanceShort | CardUnavailable | Declined
    | AmountInvalid | NotCancellable | Conflict | NoteRequired | StatusInvalid

  predicate Closed(o: Order) { o.status == Cancelled || o.status == Rejected }

  predicate Live(o: Order, release: nat, service: Service) {
    o.release == release && o.service == service && !Closed(o)
  }

  // ---------------------------------------------------------------- submitting the application

  datatype Want = Want(service: Service, amount: Option<Amount>)

  /** The live order of a release and service, if any. */
  function FindLive(orders: seq<Order>, release: nat, service: Service): (r: Option<nat>)
    ensures r.Some? ==> r.value < |orders| && Live(orders[r.value], release, service)
    ensures r.None? ==> forall i :: 0 <= i < |orders| ==> !Live(orders[i], release, service)
    decreases |orders|
  {
    if orders == [] then None
    else
      var q := FindLive(orders[..|orders| - 1], release, service);
      if q.Some? then q
      else if Live(orders[|orders| - 1], release, service) then Some(|orders| - 1)
      else None
  }

  /** A dropped choice cancels the unpaid order, a changed one reprices it, a new one makes an order;
      paid orders are left alone. */
  function SyncOne(orders: seq<Order>, release: nat, w: Want): seq<Order> {
    match FindLive(orders, release, w.service)
    case Some(i) =>
      if orders[i].status != Awaiting then orders
      else if w.amount.None? then orders[i := orders[i].(status := Cancelled)]
      else orders[i := orders[i].(amount := w.amount.value)]
    case None =>
      if w.amount.Some? then orders + [Order(release, w.service, w.amount.value, Awaiting, Unpaid)]
      else orders
  }

  function SyncAll(orders: seq<Order>, release: nat, wants: seq<Want>): seq<Order>
    decreases |wants|
  {
    if wants == [] then orders
    else SyncOne(SyncAll(orders, release, wants[..|wants| - 1]), release, wants[|wants| - 1])
  }

  // ---------------------------------------------------------------- paying

  predicate Selected(o: Order, i: nat, release: nat, ids: seq<nat>) {
    o.release == release && o.status == Awaiting && (ids == [] || i in ids)
  }

  /** The unpaid orders a payment covers, oldest first. */
  function Payable(orders: seq<Order>, release: nat, ids: seq<nat>): seq<nat>
    decreases |orders|
  {
    if orders == [] then []
    else
      Payable(orders[..|orders| - 1], release, ids)
      + (if Selected(orders[|orders| - 1], |orders| - 1, release, ids) then [|orders| - 1] else [])
  }

  /** `finance.charge_addon`. */
  function ChargeOne(s: State, i: nat): Result<State, Outcome> {
    if i >= |s.orders| || s.orders[i].status != Awaiting || s.orders[i].paid != Unpaid then Err(NotPayable)
    else if s.balance < s.orders[i].amount then Err(BalanceShort)
    else
      var a := s.orders[i].amount;
      Ok(s.(orders := s.orders[i := s.orders[i].(status := Submitted, paid := FromBalance)],
            balance := s.balance - a, ledger := s.ledger + [Charge(i, a)]))
  }

  function ChargeAll(s: State, ids: seq<nat>): Result<State, Outcome>
    decreases |ids|
  {
    if ids == [] then Ok(s)
    else
      match ChargeAll(s, ids[..|ids| - 1])
      case Err(e) => Err(e)
      case Ok(t) => ChargeOne(t, ids[|ids| - 1])
  }

  function Total(orders: seq<Order>, ids: seq<nat>): nat
    decreases |ids|
  {
    if ids == [] then 0
    else
      Total(orders, ids[..|ids| - 1])
      + (if ids[|ids| - 1] < |orders| then orders[ids[|ids| - 1]].amount else 0)
  }

  /** `as i32` on a 64-bit sum. */
  function Wrap32(n: nat): int { (n + 0x8000_0000) % 0x1_0000_0000 - 0x8000_0000 }

  predicate PayRefused(orders: seq<Order>, release: nat, ids: seq<nat>) {
    var found := Payable(orders, release, ids);
    found == [] || (ids != [] && |found| != |ids|)
  }

  function PayFromBalance(s: State, release: nat, ids: seq<nat>): (State, Outcome) {
    if PayRefused(s.orders, release, ids) then (s, NotPayable)
    else
      match ChargeAll(s, Payable(s.orders, release, ids))
      case Err(e) => (s, e)
      case Ok(t) => (t, Done)
  }

  /** Open a card window: the amount is fixed here. */
  function OpenWindow(s: State, release: nat, ids: seq<nat>, cardReady: bool): (State, Outcome) {
    if PayRefused(s.orders, release, ids) then (s, NotPayable)
    else if !cardReady then (s, CardUnavailable)
    else
      var found := Payable(s.orders, release, ids);
      var amount := Wrap32(Total(s.orders, found));
      if amount <= 0 then (s, AmountInvalid)
      else (s.(payments := s.payments + [Payment(found, amount, Pending)]), Done)
  }

  // ---------------------------------------------------------------- the window comes back

  /** One order of a confirmed payment: paid if it still waits, given back otherwise. */
  function SettleOne(s: State, payment: nat, i: nat): State {
    if i >= |s.orders| then s
    else if s.orders[i].status == Awaiting then
      s.(orders := s.orders[i := s.orders[i].(status := Submitted, paid := ByCard(payment))])
    else
      s.(cancels := s.cancels + [GiveBack(payment, i, s.orders[i].amount)])
  }

  function SettleAll(s: State, payment: nat, ids: seq<nat>): State
    decreases |ids|
  {
    if ids == [] then s else SettleOne(SettleAll(s, payment, ids[..|ids| - 1]), payment, ids[|ids| - 1])
  }

  /** `approved` is the card company's answer for exactly the payment's amount, the give-backs
      included. */
  function Confirm(s: State, payment: nat, cardReady: bool, approved: bool): (State, Outcome) {
    if !cardReady then (s, CardUnavailable)
    else if payment >= |s.payments| then (s, NotFound)
    else if s.payments[payment].status == Captured then (s, AlreadyPaid)
    else if !approved then (s, Declined)
    else
      var p := s.payments[payment];
      (SettleAll(s.(payments := s.payments[payment := p.(status := Captured)]), payment, p.orderIds), Done)
  }

  // ---------------------------------------------------------------- closing

  /** `finance.refund_addon`: after the status changed, at most once. */
  predicate Refunded(s: State, i: nat) {
    exists k :: 0 <= k < |s.ledger| && s.ledger[k].Refund? && s.ledger[k].order == i
  }

  function RefundOne(s: State, i: nat): State
    requires i < |s.orders|
  {
    if s.orders[i].paid != FromBalance || Refunded(s, i) || !Closed(s.orders[i]) then s
    else
      s.(balance := s.balance + s.orders[i].amount, ledger := s.ledger + [Refund(i, s.orders[i].amount)])
  }

  /** `cancelled` is the card company's answer to giving an order's part back. */
  function CloseAndRefund(s: State, i: nat, status: Status, cancelled: bool): Result<State, Outcome>
    requires i < |s.orders|
  {
    var o := s.orders[i];
    if o.paid.ByCard? && !cancelled then Err(CardUnavailable)
    else
      var given := if o.paid.ByCard? then s.cancels + [GiveBack(o.paid.payment, i, o.amount)] else s.cancels;
      Ok(RefundOne(s.(cancels := given, orders := s.orders[i := o.(status := status)]), i))
  }

  /** The artist cancels until staff start the work. */
  function Cancel(s: State, i: nat, cancelled: bool): (State, Outcome) {
    if i >= |s.orders| then (s, NotFound)
    else if s.orders[i].status != Awaiting && s.orders[i].status != Submitted then (s, NotCancellable)
    else
      match CloseAndRefund(s, i, Cancelled, cancelled)
      case Err(e) => (s, e)
      case Ok(t) => (t, Done)
  }

  datatype StaffMove = ToInProgress | ToDelivered | ToCompleted | ToRejected | Update | Other

  /** The statuses a staff move may start from. */
  predicate MoveFrom(m: StaffMove, st: Status) {
    match m
    case ToInProgress => st == Submitted
    case ToDelivered => st == Submitted || st == InProgress
    case ToCompleted => st == Submitted || st == InProgress || st == Delivered
    case ToRejected => st == Awaiting || st == Submitted || st == InProgress || st == Delivered
    case Update => st == Submitted || st == InProgress || st == Delivered
    case Other => false
  }

  function MoveTo(m: StaffMove, st: Status): Status {
    match m
    case ToInProgress => InProgress
    case ToDelivered => Delivered
    case ToCompleted => Completed
    case ToRejected => Rejected
    case Update => st
    case Other => st
  }

  function StaffUpdate(s: State, i: nat, m: StaffMove, noted: bool, cancelled: bool): (State, Outcome) {
    if m == Other then (s, StatusInvalid)
    else if m == ToRejected && !noted then (s, NoteRequired)
    else if i >= |s.orders| then (s, NotFound)
    else if !MoveFrom(m, s.orders[i].status) then (s, Conflict)
    else if m == ToRejected then
      match CloseAndRefund(s, i, Rejected, cancelled)
      case Err(e) => (s, e)
      case Ok(t) => (t, Done)
    else (s.(orders := s.orders[i := s.orders[i].(status := MoveTo(m, s.orders[i].status))]), Done)
  }

  // ---------------------------------------------------------------- runs

  datatype Step =
    | Submit(release: nat, wants: seq<Want>)
    | PayBalance(release: nat, ids: seq<nat>)
    | PayCard(release: nat, ids: seq<nat>, cardReady: bool)
    | ConfirmCard(payment: nat, cardReady: bool, approved: bool)
    | CancelOrder(order: nat, cancelled: bool)
    | Staff(order: nat, move: StaffMove, noted: bool, cancelled: bool)
    | Movement(delta: int)

  function Next(s: State, e: Step): State {
    match e
    case Submit(r, ws) => s.(orders := SyncAll(s.orders, r, ws))
    case PayBalance(r, ids) => PayFromBalance(s, r, ids).0
    case PayCard(r, ids, ready) => OpenWindow(s, r, ids, ready).0
    case ConfirmCard(p, ready, ok) => Confirm(s, p, ready, ok).0
    case CancelOrder(i, ok) => Cancel(s, i, ok).0
    case Staff(i, m, noted, ok) => StaffUpdate(s, i, m, noted, ok).0
    case Movement(d) => s.(balance := s.balance + d, income := s.income + d)
  }

  function Run(es: seq<Step>): State
    decreases |es|
  {
    if es == [] then EMPTY else Next(Run(es[..|es| - 1]), es[|es| - 1])
  }
}
