/**
  Contract ends (`contract_terms.rs`): ends of single releases set by artists or staff, ends of a
  whole organisation's contract, and the hourly sweep that carries them out. Every transaction is
  one step; days are numbers.
*/
module ContractTerms {
  import opened Common

  const NOTICE_DAYS := 30
  const WARN_DAYS := 30
  const FINAL_SETTLEMENT_DAYS := 90
  const BATCH := 200

  datatype Reason = ContractEnd | LicenseExpiry | Transfer | Termination | OrgContractEnd

  datatype Status = Scheduled | Ended | FinalSettled | Cancelled

  datatype Term = Term(org: nat, end: int, reason: Reason, byStaff: bool, status: Status, warned: bool,
                       settleBy: Option<int>)

  /** An organisation's own term is never final settled. */
  datatype OrgTerm = OrgTerm(end: int, byStaff: bool, status: Status, warned: bool)

  datatype Release = Release(org: nat, submitted: bool)

  /** `takedowns` counts, per release, how often its takedowns were queued. */
  datatype State = State(
    catalog: map<nat, Release>, terms: map<nat, Term>, orgs: map<nat, OrgTerm>, takedowns: multiset<nat>)

  const EMPTY := State(map[], map[], map[], multiset{})

  predicate Closed(t: Term) { t.status == Ended || t.status == FinalSettled }

  // ---------------------------------------------------------------- single releases

  /** An ended term stays; anything else is replaced. */
  function Upsert(s: State, r: nat, org: nat, end: int, reason: Reason, byStaff: bool): (State, bool) {
    if r in s.terms && Closed(s.terms[r]) then (s, false)
    else (s.(terms := s.terms[r := Term(org, end, reason, byStaff, Scheduled, false, None)]), true)
  }

  predicate NotArtists(t: Term) { t.status == Scheduled && (t.byStaff || t.reason == OrgContractEnd) }

  predicate EnoughNotice(reason: Reason, lead: int) {
    match reason
    case ContractEnd => lead >= NOTICE_DAYS
    case Transfer => lead >= NOTICE_DAYS
    case LicenseExpiry => lead >= 1
    case Termination => false
    case OrgContractEnd => false
  }

  function ArtistSet(s: State, r: nat, end: int, reason: Reason, today: int): (State, bool) {
    if !EnoughNotice(reason, end - today) then (s, false)
    else if r !in s.catalog || !s.catalog[r].submitted then (s, false)
    else if r in s.terms && NotArtists(s.terms[r]) then (s, false)
    else Upsert(s, r, s.catalog[r].org, end, reason, false)
  }

  function ArtistCancel(s: State, r: nat): (State, bool) {
    if r in s.terms && s.terms[r].status == Scheduled && !s.terms[r].byStaff && s.terms[r].reason != OrgContractEnd
    then (s.(terms := s.terms[r := s.terms[r].(status := Cancelled)]), true)
    else (s, false)
  }

  function StaffTerminate(s: State, r: nat, end: int, reason: Reason): (State, bool) {
    if reason == OrgContractEnd || reason == Transfer then (s, false)
    else if r !in s.catalog then (s, false)
    else Upsert(s, r, s.catalog[r].org, end, reason, true)
  }

  function StaffSettled(s: State, r: nat): (State, bool) {
    if r in s.terms && s.terms[r].status == Ended
    then (s.(terms := s.terms[r := s.terms[r].(status := FinalSettled)]), true)
    else (s, false)
  }

  // ---------------------------------------------------------------- the whole contract

  /** The organisation's end takes a release over unless it has an end of its own. */
  predicate TakesOver(s: State, org: nat, r: nat) {
    && r in s.catalog && s.catalog[r].org == org && s.catalog[r].submitted
    && (r in s.terms ==>
          || s.terms[r].status == Cancelled
          || (s.terms[r].status == Scheduled && s.terms[r].reason == OrgContractEnd))
  }

  function ScheduleOrg(s: State, org: nat, end: int, byStaff: bool): State {
    var row := Term(org, end, OrgContractEnd, byStaff, Scheduled, false, None);
    s.(orgs := if org in s.orgs && s.orgs[org].status == Ended then s.orgs
               else s.orgs[org := OrgTerm(end, byStaff, Scheduled, org in s.orgs && s.orgs[org].warned)],
       terms := map r | r in s.terms.Keys + s.catalog.Keys && (r in s.terms || TakesOver(s, org, r)) ::
                  if TakesOver(s, org, r) then row else s.terms[r])
  }

  function OwnerSet(s: State, org: nat, end: int, today: int): (State, bool) {
    if end - today < NOTICE_DAYS then (s, false) else (ScheduleOrg(s, org, end, false), true)
  }

  predicate OrgOwned(t: Term, org: nat) {
    t.org == org && t.status == Scheduled && t.reason == OrgContractEnd
  }

  function OwnerCancel(s: State, org: nat): (State, bool) {
    if org in s.orgs && s.orgs[org].status == Scheduled && !s.orgs[org].byStaff then
      (s.(orgs := s.orgs[org := s.orgs[org].(status := Cancelled)],
          terms := map r | r in s.terms ::
                     if OrgOwned(s.terms[r], org) then s.terms[r].(status := Cancelled) else s.terms[r]), true)
    else (s, false)
  }

  // ---------------------------------------------------------------- the sweep

  predicate OrgPast(s: State, org: nat, today: int) {
    org in s.orgs && s.orgs[org].status == Scheduled && s.orgs[org].end <= today
  }

  /** Due by the release's own date. */
  function OwnDue(s: State, today: int): set<nat> {
    set r | r in s.terms && s.terms[r].status == Scheduled && s.terms[r].end <= today
  }

  /** Due by its own date or by its organisation's. */
  function Due(s: State, today: int): set<nat> {
    set r | r in s.terms && s.terms[r].status == Scheduled
         && (s.terms[r].end <= today || OrgPast(s, s.terms[r].org, today))
  }

  /** `ORDER BY end_date LIMIT 200`. */
  predicate IsBatch(s: State, today: int, batch: set<nat>) {
    && batch <= Due(s, today)
    && |batch| == Min(BATCH, |Due(s, today)|)
    && forall a, b :: a in batch && b in Due(s, today) - batch ==> s.terms[a].end <= s.terms[b].end
  }

  function Warned(t: Term, today: int): Term {
    if t.status == Scheduled && today < t.end <= today + WARN_DAYS then t.(warned := true) else t
  }

  function OrgWarned(o: OrgTerm, today: int): OrgTerm {
    if o.status == Scheduled && today < o.end <= today + WARN_DAYS then o.(warned := true) else o
  }

  function OrgClosed(o: OrgTerm, today: int): OrgTerm {
    if o.status == Scheduled && o.end <= today then o.(status := Ended) else o
  }

  /** End the batch, queue its takedowns, close every organisation's contract that is past. */
  function Swept(s: State, today: int, batch: set<nat>): State {
    s.(terms := map r | r in s.terms ::
                  if r in batch
                  then Warned(s.terms[r], today).(status := Ended, settleBy := Some(today + FINAL_SETTLEMENT_DAYS))
                  else Warned(s.terms[r], today),
       orgs := map o | o in s.orgs :: OrgClosed(OrgWarned(s.orgs[o], today), today),
       takedowns := s.takedowns + multiset(batch))
  }

  // ---------------------------------------------------------------- runs

  datatype Step =
    | Create(release: nat, org: nat)
    | Submitted(release: nat, yes: bool)
    | SetByArtist(release: nat, end: int, reason: Reason, today: int)
    | CancelByArtist(release: nat)
    | SetByStaff(release: nat, end: int, reason: Reason)
    | SettleByStaff(release: nat)
    | SetByOwner(org: nat, end: int, today: int)
    | CancelByOwner(org: nat)
    | Sweep(today: int, batch: set<nat>)

  function Next(s: State, e: Step): State {
    match e
    case Create(r, o) => if r in s.catalog then s else s.(catalog := s.catalog[r := Release(o, false)])
    case Submitted(r, b) =>
      if r in s.catalog then s.(catalog := s.catalog[r := s.catalog[r].(submitted := b)]) else s
    case SetByArtist(r, end, reason, today) => ArtistSet(s, r, end, reason, today).0
    case CancelByArtist(r) => ArtistCancel(s, r).0
    case SetByStaff(r, end, reason) => StaffTerminate(s, r, end, reason).0
    case SettleByStaff(r) => StaffSettled(s, r).0
    case SetByOwner(o, end, today) => OwnerSet(s, o, end, today).0
    case CancelByOwner(o) => OwnerCancel(s, o).0
    case Sweep(today, batch) => if IsBatch(s, today, batch) then Swept(s, today, batch) else s
  }

  function Run(es: seq<Step>): State
    decreases |es|
  {
    if es == [] then EMPTY else Next(Run(es[..|es| - 1]), es[|es| - 1])
  }

  // ---------------------------------------------------------------- ended for good

  /** Closed terms keep their status, or are final settled, and never move; nor do contracts that ended. */
  predicate KeepsClosed(s: State, t: State) {
    && (forall r :: r in s.terms && Closed(s.terms[r]) ==>
          && r in t.terms && Closed(t.terms[r])
          && t.terms[r].end == s.terms[r].end && t.terms[r].settleBy == s.terms[r].settleBy
          && (s.terms[r].status == FinalSettled ==> t.terms[r].status == FinalSettled))
    && (forall o :: o in s.orgs && s.orgs[o].status == Ended ==>
          o in t.orgs && t.orgs[o].status == Ended && t.orgs[o].end == s.orgs[o].end)
  }

  lemma {:induction false} StepKeepsClosed(s: State, e: Step)
    ensures KeepsClosed(s, Next(s, e))
  {
    hide Swept, IsBatch, EnoughNotice, ScheduleOrg;
    if e.Sweep? && IsBatch(s, e.today, e.batch) {
      SweepKeepsClosed(s, e.today, e.batch);
    } else if e.SetByOwner? {
      SchedulingKeepsClosed(s, e.org, e.end);
    }
  }

  lemma {:induction false} SchedulingKeepsClosed(s: State, org: nat, end: int)
    ensures KeepsClosed(s, ScheduleOrg(s, org, end, false))
  {
  }

  lemma {:induction false} SweepKeepsClosed(s: State, today: int, batch: set<nat>)
    requires IsBatch(s, today, batch)
    ensures KeepsClosed(s, Swept(s, today, batch))
  {
    assert forall r :: r in Due(s, today) ==> !Closed(s.terms[r]);
  }

  /** A term that has ended is never scheduled again, over any run. */
  lemma {:induction false} EndedForever(es: seq<Step>, k: nat)
    requires k <= |es|
    ensures KeepsClosed(Run(es[..k]), Run(es))
    decreases |es| - k
  {
    hide Next;
    if k == |es| {
      assert es[..k] == es;
    } else {
      EndedForever(es, k + 1);
      assert es[..k + 1][..k] == es[..k];
      StepKeepsClosed(Run(es[..k]), es[k]);
    }
  }

  /** Takedowns were queued once for every release whose term ended, and for no other. */
  ghost predicate TakedownsOnce(s: State) {
    forall r: nat :: s.takedowns[r] == if r in s.terms && Closed(s.terms[r]) then 1 else 0
  }

  lemma {:induction false} StepKeepsTakedowns(s: State, e: Step)
    requires TakedownsOnce(s)
    ensures TakedownsOnce(Next(s, e))
  {
    hide Swept, IsBatch;
    if e.Sweep? && IsBatch(s, e.today, e.batch) {
      SweepKeepsTakedowns(s, e.today, e.batch);
    }
  }

  lemma {:induction false} SweepKeepsTakedowns(s: State, today: int, batch: set<nat>)
    requires TakedownsOnce(s) && IsBatch(s, today, batch)
    ensures TakedownsOnce(Swept(s, today, batch))
  {
    var t := Swept(s, today, batch);
    assert forall r :: r in batch ==> r in Due(s, today);
    forall r: nat ensures t.takedowns[r] == if r in t.terms && Closed(t.terms[r]) then 1 else 0 {
      assert s.takedowns[r] == if r in s.terms && Closed(s.terms[r]) then 1 else 0;
      assert multiset(batch)[r] == if r in batch then 1 else 0;
    }
  }

  lemma {:induction false} RunTakedownsOnce(es: seq<Step>)
    ensures TakedownsOnce(Run(es))
    decreases |es|
  {
    hide Next;
    if es != [] {
      RunTakedownsOnce(es[..|es| - 1]);
      StepKeepsTakedowns(Run(es[..|es| - 1]), es[|es| - 1]);
    }
  }

  // ---------------------------------------------------------------- who may move what

  /** Steps that set a release's own end, take it back or carry it out. */
  predicate OwnStep(e: Step, r: nat) {
    || (e.SetByArtist? && e.release == r) || (e.CancelByArtist? && e.release == r)
    || (e.SetByStaff? && e.release == r) || e.Sweep?
  }

  /** A release's own scheduled end is unchanged in any run without such a step on it: not by the
      contract's end being scheduled or cancelled, however often. */
  lemma {:induction false} OwnEndsStay(es: seq<Step>, more: seq<Step>, r: nat)
    requires r in Run(es).terms && Run(es).terms[r].status == Scheduled && Run(es).terms[r].reason != OrgContractEnd
    requires forall k :: 0 <= k < |more| ==> !OwnStep(more[k], r)
    ensures r in Run(es + more).terms && Run(es + more).terms[r] == Run(es).terms[r]
    decreases |more|
  {
    hide Next;
    if more == [] {
      assert es + more == es;
    } else {
      var q, e := more[..|more| - 1], more[|more| - 1];
      OwnEndsStay(es, q, r);
      assert (es + more)[..|es + more| - 1] == es + q;
      OwnEndStays(Run(es + q), e, r);
    }
  }

  lemma {:induction false} OwnEndStays(s: State, e: Step, r: nat)
    requires r in s.terms && s.terms[r].status == Scheduled && s.terms[r].reason != OrgContractEnd
    requires !OwnStep(e, r)
    ensures r in Next(s, e).terms && Next(s, e).terms[r] == s.terms[r]
  {
    if e.SetByOwner? || e.CancelByOwner? {
      OwnersMoveOnlyContractEnds(s, e, r);
    }
  }

  /** An end that staff set is unchanged in any run without a staff step on the release or a sweep:
      whatever artists and owners try. */
  lemma {:induction false} StaffEndsStay(es: seq<Step>, more: seq<Step>, r: nat)
    requires r in Run(es).terms && Run(es).terms[r].status == Scheduled && Run(es).terms[r].byStaff
    requires forall k :: 0 <= k < |more| ==> !(more[k].SetByStaff? && more[k].release == r) && !more[k].Sweep?
    ensures r in Run(es + more).terms && Run(es + more).terms[r] == Run(es).terms[r]
    decreases |more|
  {
    hide Next, SameOrg;
    if more == [] {
      assert es + more == es;
    } else {
      var q, e := more[..|more| - 1], more[|more| - 1];
      StaffEndsStay(es, q, r);
      assert (es + more)[..|es + more| - 1] == es + q;
      RunSameOrg(es + q);
      StaffEndStays(Run(es + q), e, r);
    }
  }

  lemma {:induction false} StaffEndStays(s: State, e: Step, r: nat)
    requires SameOrg(s) && r in s.terms && s.terms[r].status == Scheduled && s.terms[r].byStaff
    requires !(e.SetByStaff? && e.release == r) && !e.Sweep?
    ensures r in Next(s, e).terms && Next(s, e).terms[r] == s.terms[r]
  {
    if e.SetByArtist? || e.CancelByArtist? {
      ArtistsMoveOnlyTheirOwn(s, e, r);
    } else if e.SetByOwner? || e.CancelByOwner? {
      OwnersMoveOnlyContractEnds(s, e, r);
    }
  }

  /** An artist's step leaves every end that staff set, or that the whole contract's end set, as it is. */
  lemma {:induction false} ArtistsMoveOnlyTheirOwn(s: State, e: Step, r: nat)
    requires e.SetByArtist? || e.CancelByArtist?
    requires r in s.terms && NotArtists(s.terms[r])
    ensures r in Next(s, e).terms && Next(s, e).terms[r] == s.terms[r]
  {
  }

  /** The owner's steps leave every end of a release's own, and every closed term, as it is. */
  lemma {:induction false} OwnersMoveOnlyContractEnds(s: State, e: Step, r: nat)
    requires e.SetByOwner? || e.CancelByOwner?
    requires r in s.terms
             && (Closed(s.terms[r]) || (s.terms[r].status == Scheduled && s.terms[r].reason != OrgContractEnd))
    ensures r in Next(s, e).terms && Next(s, e).terms[r] == s.terms[r]
  {
  }

  predicate Pending(s: State, r: nat) { r in s.terms && s.terms[r].status == Scheduled }

  /** Terms belong to the organisation of their release; no contract's end is the staff's. */
  predicate SameOrg(s: State) {
    && (forall r :: r in s.terms ==>
          && r in s.catalog && s.terms[r].org == s.catalog[r].org
          && (s.terms[r].byStaff ==> s.terms[r].reason != OrgContractEnd))
    && (forall o :: o in s.orgs ==> !s.orgs[o].byStaff)
  }

  lemma {:induction false} StepKeepsOrg(s: State, e: Step)
    requires SameOrg(s)
    ensures SameOrg(Next(s, e))
  {
    hide IsBatch, EnoughNotice, ScheduleOrg, Swept;
    match e
    case SetByOwner(o, end, today) => SchedulingKeepsOrg(s, o, end);
    case Sweep(today, batch) => SweepKeepsOrg(s, today, batch);
    case _ =>
  }

  lemma {:induction false} SchedulingKeepsOrg(s: State, org: nat, end: int)
    requires SameOrg(s)
    ensures SameOrg(ScheduleOrg(s, org, end, false))
  {
  }

  lemma {:induction false} SweepKeepsOrg(s: State, today: int, batch: set<nat>)
    requires SameOrg(s)
    ensures SameOrg(Swept(s, today, batch))
  {
  }

  lemma {:induction false} RunSameOrg(es: seq<Step>)
    ensures SameOrg(Run(es))
    decreases |es|
  {
    hide Next;
    if es != [] {
      RunSameOrg(es[..|es| - 1]);
      StepKeepsOrg(Run(es[..|es| - 1]), es[|es| - 1]);
    }
  }

  /** Scheduling the end of the contract and cancelling it again: the cancel goes through exactly when
      the contract had not already ended, and then precisely the releases that had an end of their own
      are still scheduled, unchanged. */
  lemma {:induction false} ScheduleThenCancel(s: State, org: nat, end: int, today: int)
    requires SameOrg(s) && OwnerSet(s, org, end, today).1
    ensures (var t := OwnerSet(s, org, end, today).0;
             var u := OwnerCancel(t, org);
             && (u.1 <==> !(org in s.orgs && s.orgs[org].status == Ended))
             && (u.1 ==> forall r: nat ::
                   && (Pending(u.0, r) <==> Pending(s, r) && !OrgOwned(s.terms[r], org))
                   && (Pending(u.0, r) ==> u.0.terms[r] == s.terms[r])))
  {
    var t := OwnerSet(s, org, end, today).0;
    assert forall r :: r in t.terms && TakesOver(s, org, r) ==> OrgOwned(t.terms[r], org);
    assert forall r :: r in s.terms && OrgOwned(s.terms[r], org) && !TakesOver(s, org, r) ==> OrgOwned(t.terms[r], org);
  }

  // ---------------------------------------------------------------- how the backlog drains

  /** Rows past their own date come first in the batch. */
  lemma {:induction false} OwnFirst(s: State, today: int, batch: set<nat>)
    requires IsBatch(s, today, batch)
    ensures OwnDue(s, today) <= batch || batch <= OwnDue(s, today)
  {
    if r :| r in OwnDue(s, today) && r !in batch {
      forall a | a in batch ensures a in OwnDue(s, today) {
        assert r in Due(s, today) - batch;
      }
    }
  }

  /** One sweep takes 200 terms past their own date, or all of them. */
  lemma {:induction false} SweepDrains(s: State, today: int, batch: set<nat>)
    requires IsBatch(s, today, batch)
    ensures OwnDue(Swept(s, today, batch), today) == OwnDue(s, today) - batch
    ensures |OwnDue(Swept(s, today, batch), today)| == |OwnDue(s, today)| - Min(BATCH, |OwnDue(s, today)|)
  {
    var own, due := OwnDue(s, today), Due(s, today);
    assert OwnDue(Swept(s, today, batch), today) == own - batch;
    assert own <= due;
    SubsetSize(own, due);
    OwnFirst(s, today, batch);
    if own <= batch {
      SubsetSize(own, batch);
      assert own - batch == {};
    } else {
      SubsetSize(batch, own);
      if |batch| == |due| {
        SubsetEqual(batch, due);
      }
    }
  }

  lemma {:induction false} SubsetSize(a: set<nat>, b: set<nat>)
    requires a <= b
    ensures |a| <= |b| && |b - a| == |b| - |a|
  {
    assert b == a + (b - a);
  }

  lemma {:induction false} SomeRest(a: set<nat>, b: set<nat>)
    requires a <= b && a != b
    ensures b - a != {}
  {
    assert b == a + (b - a);
    assert a + {} == a;
  }

  lemma {:induction false} SubsetEqual(a: set<nat>, b: set<nat>)
    requires a <= b && |a| == |b|
    ensures a == b
  {
    SubsetSize(a, b);
    assert b - a == {};
    assert forall x :: x in b && x !in a ==> x in b - a;
  }

  predicate AreBatches(s: State, today: int, batches: seq<set<nat>>)
    decreases |batches|
  {
    batches == []
    || (AreBatches(s, today, batches[..|batches| - 1])
        && IsBatch(SweptAll(s, today, batches[..|batches| - 1]), today, batches[|batches| - 1]))
  }

  function SweptAll(s: State, today: int, batches: seq<set<nat>>): State
    decreases |batches|
  {
    if batches == [] then s else Swept(SweptAll(s, today, batches[..|batches| - 1]), today, batches[|batches| - 1])
  }

  /** After `n` sweeps of a day, at most the terms past the first 200 n are left. */
  lemma {:induction false} RepeatedSweepsDrain(s: State, today: int, batches: seq<set<nat>>)
    requires AreBatches(s, today, batches)
    ensures |OwnDue(SweptAll(s, today, batches), today)|
         == |OwnDue(s, today)| - Min(BATCH * |batches|, |OwnDue(s, today)|)
    decreases |batches|
  {
    hide IsBatch, Swept, OwnDue;
    if batches != [] {
      var q := batches[..|batches| - 1];
      RepeatedSweepsDrain(s, today, q);
      SweepDrains(SweptAll(s, today, q), today, batches[|batches| - 1]);
    }
  }

  /** Due only because the contract is over: its own date is still ahead. */
  function OrgOnlyDue(s: State, today: int): set<nat> { Due(s, today) - OwnDue(s, today) }

  /** Due before the sweep, and neither ended nor due after it. */
  function Stranded(s: State, today: int, batch: set<nat>): set<nat> {
    set r | r in Due(s, today) && r !in batch && r !in Due(Swept(s, today, batch), today)
  }

  lemma {:induction false} StrandedIs(s: State, today: int, batch: set<nat>)
    requires IsBatch(s, today, batch)
    ensures Stranded(s, today, batch) == OrgOnlyDue(s, today) - batch
  {
    assert forall o :: !OrgPast(Swept(s, today, batch), o, today);
  }

  /** Closing the contract with the batch strands a term exactly when more than 200 are due and one of
      them is due by the contract's date alone. */
  lemma {:induction false} StrandsExactlyWhen(s: State, today: int, batch: set<nat>)
    requires IsBatch(s, today, batch)
    ensures Stranded(s, today, batch) == OrgOnlyDue(s, today) - batch
    ensures Stranded(s, today, batch) != {} <==> |Due(s, today)| > BATCH && OrgOnlyDue(s, today) != {}
  {
    StrandedIs(s, today, batch);
    hide Stranded, Swept;
    var due, only := Due(s, today), OrgOnlyDue(s, today);
    if |due| <= BATCH {
      SubsetEqual(batch, due);
      assert only - batch == {};
    } else if only != {} {
      var r :| r in only;
      SubsetSize(batch, due);
      assert due - batch != {};
      var b :| b in due - batch;
      assert r in batch ==> s.terms[r].end <= s.terms[b].end;
      assert (if r in batch then b else r) in only - batch;
    } else {
      assert only - batch == {};
    }
  }

  function UpTo(n: nat): (rs: set<nat>)
    ensures |rs| == n && forall r: nat :: r in rs <==> r < n
  {
    if n == 0 then {} else UpTo(n - 1) + {n - 1}
  }

  /** Day 0: an artist's releases come in one by one, each with an end of its own: day 100 for the first
      200, day 200 for any other. */
  function Joining(n: nat): seq<Step> {
    if n == 0 then []
    else
      Joining(n - 1)
      + [Create(n - 1, 0), Submitted(n - 1, true),
         SetByArtist(n - 1, if n - 1 < 200 then 100 else 200, ContractEnd, 0)]
  }

  function Joined(n: nat): State {
    State(map r | r in UpTo(n) :: Release(0, true),
          map r | r in UpTo(n) ::
            Term(0, if r < 200 then 100 else 200, ContractEnd, false, Scheduled, false, None),
          map[], multiset{})
  }

  lemma {:induction false} NothingRun()
    ensures Run([]) == EMPTY
  {
  }

  lemma {:induction false} OneMoreStep(es: seq<Step>, e: Step)
    ensures Run(es + [e]) == Next(Run(es), e)
  {
    assert (es + [e])[..|es + [e]| - 1] == es;
  }

  lemma {:induction false} JoiningReaches(n: nat)
    ensures Run(Joining(n)) == Joined(n)
    decreases n
  {
    hide Run, Next;
    if n == 0 {
      NothingRun();
      assert Joined(0) == EMPTY;
    } else {
      JoiningReaches(n - 1);
      ThreeMoreSteps(Joining(n - 1), Create(n - 1, 0), Submitted(n - 1, true),
                     SetByArtist(n - 1, if n - 1 < 200 then 100 else 200, ContractEnd, 0));
      OneMoreJoins(n);
    }
  }

  lemma {:induction false} ThreeMoreSteps(es: seq<Step>, a: Step, b: Step, c: Step)
    ensures Run(es + [a, b, c]) == Next(Next(Next(Run(es), a), b), c)
  {
    hide Run, Next;
    OneMoreStep(es, a);
    OneMoreStep(es + [a], b);
    OneMoreStep(es + [a] + [b], c);
    assert es + [a, b, c] == es + [a] + [b] + [c];
  }

  lemma {:induction false} OneMoreIn(n: nat)
    requires n > 0
    ensures Next(Next(Joined(n - 1), Create(n - 1, 0)), Submitted(n - 1, true))
         == Joined(n - 1).(catalog := Joined(n).catalog)
  {
    hide UpTo;
    assert forall r: nat :: r in UpTo(n) <==> r in UpTo(n - 1) || r == n - 1;
  }

  lemma {:induction false} OneMoreJoins(n: nat)
    requires n > 0
    ensures (var s := Next(Next(Joined(n - 1), Create(n - 1, 0)), Submitted(n - 1, true));
             Next(s, SetByArtist(n - 1, if n - 1 < 200 then 100 else 200, ContractEnd, 0)) == Joined(n))
  {
    OneMoreIn(n);
    hide UpTo;
    assert forall r: nat :: r in UpTo(n) <==> r in UpTo(n - 1) || r == n - 1;
    assert Joined(n).terms == Joined(n - 1).terms
      [n - 1 := Term(0, if n - 1 < 200 then 100 else 200, ContractEnd, false, Scheduled, false, None)];
  }

  /** 201 releases, and the owner ends the contract on day 100. */
  function CrowdRun(): seq<Step> { Joining(201) + [SetByOwner(0, 100, 0)] }

  function Crowd(): State { Joined(201).(orgs := map[0 := OrgTerm(100, false, Scheduled, false)]) }

  lemma {:induction false} CrowdIsReached()
    ensures Run(CrowdRun()) == Crowd()
  {
    hide Run, UpTo;
    JoiningReaches(201);
    OneMoreStep(Joining(201), SetByOwner(0, 100, 0));
  }

  /** A sweep on day 150 of that run ends the first 200 releases and the contract, and leaves the last
      release scheduled for day 200. */
  lemma {:induction false} CrowdIsStranded()
    ensures IsBatch(Run(CrowdRun()), 150, UpTo(200)) && Stranded(Run(CrowdRun()), 150, UpTo(200)) == {200}
    ensures (var t := Run(CrowdRun() + [Sweep(150, UpTo(200))]);
             && 0 in t.orgs && t.orgs[0].status == Ended && Pending(t, 200) && t.terms[200].end == 200
             && (forall r: nat :: r < 200 ==> r in t.terms && t.terms[r].status == Ended))
  {
    hide Run, UpTo, CrowdRun;
    CrowdIsReached();
    var s := Crowd();
    assert Due(s, 150) == UpTo(201);
    assert Due(s, 150) - UpTo(200) == {200};
    StrandsExactlyWhen(s, 150, UpTo(200));
    assert OrgOnlyDue(s, 150) == {200};
    OneMoreStep(CrowdRun(), Sweep(150, UpTo(200)));
  }

  /** `portal.release_term_ended`: no new delivery goes out. */
  predicate DeliveryBlocked(s: State, r: nat, org: nat, today: int) {
    || (r in s.terms && s.terms[r].org == org && s.terms[r].status != Cancelled && s.terms[r].end <= today)
    || (org in s.orgs && s.orgs[org].status != Cancelled && s.orgs[org].end <= today)
  }

  /** A stranded release keeps its platforms until its own date, but nothing new is delivered: the
      contract's end still blocks it. */
  lemma {:induction false} StrandedIsBlocked(s: State, today: int, batch: set<nat>, r: nat)
    requires IsBatch(s, today, batch) && r in Stranded(s, today, batch)
    ensures (var t := Swept(s, today, batch);
             && t.takedowns[r] == s.takedowns[r]
             && Pending(t, r) && t.terms[r].end > today
             && DeliveryBlocked(t, r, t.terms[r].org, today))
  {
    StrandsExactlyWhen(s, today, batch);
    assert r !in multiset(batch);
  }

  /** Whatever happens after such a sweep, from that day on nothing new of the release is delivered. */
  lemma {:induction false} StrandedStaysBlocked(es: seq<Step>, today: int, batch: set<nat>, more: seq<Step>,
                                                r: nat, day: int)
    requires IsBatch(Run(es), today, batch) && r in Stranded(Run(es), today, batch) && day >= today
    ensures (var t := Run(es + [Sweep(today, batch)] + more);
             DeliveryBlocked(t, r, Run(es).terms[r].org, day))
  {
    hide Run, IsBatch;
    var s, swept := Run(es), es + [Sweep(today, batch)];
    StrandsExactlyWhen(s, today, batch);
    OneMoreStep(es, Sweep(today, batch));
    var o := s.terms[r].org;
    assert OrgPast(s, o, today);
    assert o in Run(swept).orgs && Run(swept).orgs[o].status == Ended && Run(swept).orgs[o].end <= today;
    EndedForever(swept + more, |swept|);
    assert (swept + more)[..|swept|] == swept;
  }

  // ---------------------------------------------------------------- the sweep as a transaction

  predicate First(s: State, rest: set<nat>, r: nat)
    requires rest <= s.terms.Keys
  {
    r in rest && forall q :: q in rest ==> s.terms[r].end <= s.terms[q].end
  }

  lemma {:induction false} FirstPlus(s: State, less: set<nat>, y: nat, x: nat)
    requires less + {x} <= s.terms.Keys && First(s, less, y)
    ensures First(s, less + {x}, if s.terms[x].end <= s.terms[y].end then x else y)
  {
  }

  lemma {:induction false} Earliest(s: State, rest: set<nat>)
    requires rest != {} && rest <= s.terms.Keys
    ensures exists r :: First(s, rest, r)
    decreases |rest|
  {
    var x :| x in rest;
    var less := rest - {x};
    assert rest == less + {x};
    if less == {} {
      assert {} + {x} == {x};
      assert First(s, rest, x);
    } else {
      Earliest(s, less);
      var y :| First(s, less, y);
      FirstPlus(s, less, y, x);
    }
  }

  ghost predicate Orderly(s: State) { TakedownsOnce(s) && SameOrg(s) }

  lemma {:induction false} StepKeepsOrder(s: State, e: Step)
    requires Orderly(s)
    ensures Orderly(Next(s, e))
  {
    hide TakedownsOnce, SameOrg, Next;
    StepKeepsTakedowns(s, e);
    StepKeepsOrg(s, e);
  }

  class Register {
    var catalog: map<nat, Release>
    var terms: map<nat, Term>
    var orgs: map<nat, OrgTerm>
    var takedowns: multiset<nat>

    function Now(): State reads this { State(catalog, terms, orgs, takedowns) }

    /** What `RunTakedownsOnce` and `RunSameOrg` prove of every run. */
    ghost predicate Valid() reads this { Orderly(Now()) }

    constructor ()
      ensures Valid() && Now() == EMPTY
    {
      catalog, terms, orgs, takedowns := map[], map[], map[], multiset{};
    }

    /** Insert, or update a row that is not closed: refused exactly for a closed row, no closed row is
        reopened, and the other rows and tables are as they were. */
    method WriteTerm(r: nat, org: nat, end: int, reason: Reason, byStaff: bool) returns (ok: bool)
      requires Valid() && r in catalog && catalog[r].org == org && (byStaff ==> reason != OrgContractEnd)
      modifies this
      ensures Valid() && KeepsClosed(old(Now()), Now())
      ensures ok <==> !(r in old(terms) && Closed(old(terms)[r]))
      ensures ok ==> r in terms && terms[r].status == Scheduled && terms[r].end == end && !terms[r].warned
      ensures terms.Keys <= old(terms).Keys + {r} && forall q :: q in old(terms) && (q != r || !ok) ==>
                q in terms && terms[q] == old(terms)[q]
      ensures catalog == old(catalog) && orgs == old(orgs) && takedowns == old(takedowns)
      ensures (Now(), ok) == Upsert(old(Now()), r, org, end, reason, byStaff)
    {
      if r in terms && (terms[r].status == Ended || terms[r].status == FinalSettled) {
        return false;
      }
      terms := terms[r := Term(org, end, reason, byStaff, Scheduled, false, None)];
      return true;
    }

    method SetReleaseTerm(r: nat, end: int, reason: Reason, today: int) returns (ok: bool)
      requires Valid()
      modifies this
      ensures Valid()
      ensures (Now(), ok) == ArtistSet(old(Now()), r, end, reason, today)
    {
      StepKeepsOrder(Now(), SetByArtist(r, end, reason, today));
      if !EnoughNotice(reason, end - today) {
        return false;
      }
      if r !in catalog || !catalog[r].submitted {
        return false;
      }
      if r in terms && terms[r].status == Scheduled && (terms[r].byStaff || terms[r].reason == OrgContractEnd) {
        return false;
      }
      ok := WriteTerm(r, catalog[r].org, end, reason, false);
    }

    method CancelReleaseTerm(r: nat) returns (ok: bool)
      requires Valid()
      modifies this
      ensures Valid()
      ensures (Now(), ok) == ArtistCancel(old(Now()), r)
    {
      hide Orderly;
      StepKeepsOrder(Now(), CancelByArtist(r));
      if r !in terms || terms[r].status != Scheduled || terms[r].byStaff || terms[r].reason == OrgContractEnd {
        return false;
      }
      terms := terms[r := terms[r].(status := Cancelled)];
      return true;
    }

    /** Every submitted release without an end of its own takes the contract's. */
    method TakeOver(org: nat, row: Term)
      requires Valid() && row.org == org && row.status == Scheduled && !row.byStaff
      modifies this`terms
      ensures Valid()
      ensures PartlyScheduled(old(Now()), terms, org, row, catalog.Keys)
    {
      ghost var s := Now();
      var todo := catalog.Keys;
      while todo != {}
        invariant todo <= catalog.Keys
        invariant PartlyScheduled(s, terms, org, row, catalog.Keys - todo)
        decreases |todo|
      {
        var r :| r in todo;
        OneMoreScheduled(s, terms, org, row, catalog.Keys - todo, r);
        assert catalog.Keys - (todo - {r}) == (catalog.Keys - todo) + {r};
        hide PartlyScheduled;
        todo := todo - {r};
        if catalog[r].org == org && catalog[r].submitted
           && (r !in terms || terms[r].status == Cancelled
               || (terms[r].status == Scheduled && terms[r].reason == OrgContractEnd))
        {
          terms := terms[r := row];
        }
      }
      assert catalog.Keys - todo == catalog.Keys;
      TakingOverKeepsOrder(s, terms, org, row);
    }

    method SetOrgTerm(org: nat, end: int, today: int) returns (ok: bool)
      requires Valid()
      modifies this
      ensures Valid()
      ensures (Now(), ok) == OwnerSet(old(Now()), org, end, today)
    {
      hide Orderly;
      StepKeepsOrder(Now(), SetByOwner(org, end, today));
      if end - today < NOTICE_DAYS {
        return false;
      }
      ghost var s := Now();
      TakeOver(org, Term(org, end, OrgContractEnd, false, Scheduled, false, None));
      hide PartlyScheduled;
      AllScheduled(s, terms, org, end);
      if !(org in orgs && orgs[org].status == Ended) {
        orgs := orgs[org := OrgTerm(end, false, Scheduled, org in orgs && orgs[org].warned)];
      }
      return true;
    }

    /** Cancels the releases' ends the contract's end had set with it. */
    method CancelOrgTerm(org: nat) returns (ok: bool)
      requires Valid()
      modifies this
      ensures Valid()
      ensures (Now(), ok) == OwnerCancel(old(Now()), org)
    {
      hide Orderly;
      StepKeepsOrder(Now(), CancelByOwner(org));
      if org !in orgs || orgs[org].status != Scheduled || orgs[org].byStaff {
        return false;
      }
      orgs := orgs[org := orgs[org].(status := Cancelled)];
      terms := map r | r in terms ::
                 if OrgOwned(terms[r], org) then terms[r].(status := Cancelled) else terms[r];
      return true;
    }

    method Terminate(r: nat, end: int, reason: Reason) returns (ok: bool)
      requires Valid()
      modifies this
      ensures Valid()
      ensures (Now(), ok) == StaffTerminate(old(Now()), r, end, reason)
    {
      StepKeepsOrder(Now(), SetByStaff(r, end, reason));
      if reason == OrgContractEnd || reason == Transfer || r !in catalog {
        return false;
      }
      ok := WriteTerm(r, catalog[r].org, end, reason, true);
    }

    method SettleFinally(r: nat) returns (ok: bool)
      requires Valid()
      modifies this
      ensures Valid()
      ensures (Now(), ok) == StaffSettled(old(Now()), r)
    {
      hide Orderly;
      StepKeepsOrder(Now(), SettleByStaff(r));
      if r !in terms || terms[r].status != Ended {
        return false;
      }
      terms := terms[r := terms[r].(status := FinalSettled)];
      return true;
    }

    /** The earliest due terms, 200 at most. */
    method PickBatch(today: int) returns (batch: set<nat>)
      ensures IsBatch(Now(), today, batch)
    {
      var s := Now();
      var due := set r | r in terms && terms[r].status == Scheduled
                      && (terms[r].end <= today || OrgPast(s, terms[r].org, today));
      assert due == Due(s, today);
      batch := {};
      while |batch| < BATCH && batch != due
        invariant batch <= due && |batch| <= BATCH
        invariant forall a, b :: a in batch && b in due - batch ==> s.terms[a].end <= s.terms[b].end
        decreases |due| - |batch|
      {
        SubsetSize(batch, due);
        SomeRest(batch, due);
        Earliest(s, due - batch);
        var r :| r in due - batch && First(s, due - batch, r);
        SubsetSize(batch + {r}, due);
        batch := batch + {r};
      }
      SubsetSize(batch, due);
    }

    /** Queue the takedowns of each term of the batch and end it. */
    method EndBatch(batch: set<nat>, today: int)
      requires Valid() && batch <= Due(Now(), today)
      modifies this`terms, this`takedowns
      ensures Valid()
      ensures terms == EndedBatch(old(terms), batch, today)
      ensures takedowns == old(takedowns) + multiset(batch)
    {
      hide EndedBatch, Orderly, Due, OrgPast;
      ghost var s := Now();
      DueIsThere(s, today);
      var todo := batch;
      assert batch - batch == {};
      NoneEnded(terms, today);
      while todo != {}
        invariant todo <= batch
        invariant terms == EndedBatch(s.terms, batch - todo, today)
        invariant takedowns == s.takedowns + multiset(batch - todo)
        decreases |todo|
      {
        var r :| r in todo;
        assert batch - (todo - {r}) == (batch - todo) + {r};
        OneMoreEnded(s.terms, batch - todo, r, today);
        takedowns := takedowns + multiset{r};
        terms := terms[r := terms[r].(status := Ended, settleBy := Some(today + FINAL_SETTLEMENT_DAYS))];
        todo := todo - {r};
      }
      assert batch - todo == batch;
      EndingKeepsOrder(s, batch, today);
    }

    /** Sets the notice of every end at most thirty days ahead, and changes nothing else: what is due stays
        due. */
    method Warn(today: int)
      requires Valid()
      modifies this`terms, this`orgs
      ensures Valid() && Due(Now(), today) == Due(old(Now()), today)
      ensures NoticesOnly(old(Now()), Now(), today)
      ensures terms == AllWarned(old(Now()), today).terms && orgs == AllWarned(old(Now()), today).orgs
    {
      hide Due, Orderly, NoticesOnly, IsBatch;
      WarningKeepsBatches(Now(), today);
      WarningIsNotice(Now(), today);
      terms := map r | r in terms :: Warned(terms[r], today);
      orgs := map o | o in orgs :: OrgWarned(orgs[o], today);
      assert Now() == AllWarned(old(Now()), today);
    }

    /** Warn, end the batch, close the contracts that are past. */
    method SweepTerms(today: int) returns (batch: set<nat>)
      requires Valid()
      modifies this
      ensures Valid()
      ensures IsBatch(old(Now()), today, batch) && Now() == Swept(old(Now()), today, batch)
    {
      hide AllWarned, IsBatch, Due, Swept, EndedBatch, Orderly;
      ghost var s := Now();
      Warn(today);
      WarningKeepsBatches(s, today);
      WarningKeepsTakedowns(s, today);
      batch := PickBatch(today);
      BatchIsDue(Now(), today, batch);
      EndBatch(batch, today);
      orgs := map o | o in orgs :: OrgClosed(orgs[o], today);
      SweptInSteps(s, today, batch);
      StepKeepsOrder(s, Sweep(today, batch));
    }
  }

  function AllWarned(s: State, today: int): State {
    s.(terms := map r | r in s.terms :: Warned(s.terms[r], today),
       orgs := map o | o in s.orgs :: OrgWarned(s.orgs[o], today))
  }

  lemma {:induction false} BatchIsDue(s: State, today: int, batch: set<nat>)
    requires IsBatch(s, today, batch)
    ensures batch <= Due(s, today)
  {
  }

  lemma {:induction false} DueIsThere(s: State, today: int)
    ensures Due(s, today) <= s.terms.Keys
  {
  }

  lemma {:induction false} EndingKeepsOrder(s: State, batch: set<nat>, today: int)
    requires Orderly(s) && batch <= Due(s, today)
    ensures Orderly(s.(terms := EndedBatch(s.terms, batch, today), takedowns := s.takedowns + multiset(batch)))
  {
    var t := s.(terms := EndedBatch(s.terms, batch, today), takedowns := s.takedowns + multiset(batch));
    forall r: nat ensures t.takedowns[r] == if r in t.terms && Closed(t.terms[r]) then 1 else 0 {
      assert s.takedowns[r] == if r in s.terms && Closed(s.terms[r]) then 1 else 0;
      assert multiset(batch)[r] == if r in batch then 1 else 0;
      assert r in batch ==> r in Due(s, today);
    }
  }

  lemma {:induction false} SweptInSteps(s: State, today: int, batch: set<nat>)
    ensures (var t := AllWarned(s, today);
             Swept(s, today, batch)
             == t.(terms := EndedBatch(t.terms, batch, today),
                   orgs := map o | o in t.orgs :: OrgClosed(t.orgs[o], today),
                   takedowns := s.takedowns + multiset(batch)))
  {
    hide Warned, OrgWarned, OrgClosed;
  }

  /** Every scheduled end at most thirty days ahead has its notice, and nothing else changed. */
  predicate NoticesOnly(s: State, t: State, today: int) {
    && t.catalog == s.catalog && t.takedowns == s.takedowns
    && t.terms.Keys == s.terms.Keys && t.orgs.Keys == s.orgs.Keys
    && (forall r :: r in t.terms ==>
          && t.terms[r].(warned := false) == s.terms[r].(warned := false)
          && t.terms[r].warned == (s.terms[r].warned || Soon(s.terms[r].status, s.terms[r].end, today)))
    && (forall o :: o in t.orgs ==>
          && t.orgs[o].(warned := false) == s.orgs[o].(warned := false)
          && t.orgs[o].warned == (s.orgs[o].warned || Soon(s.orgs[o].status, s.orgs[o].end, today)))
  }

  predicate Soon(status: Status, end: int, today: int) { status == Scheduled && 0 < end - today <= WARN_DAYS }

  lemma {:induction false} WarningIsNotice(s: State, today: int)
    ensures NoticesOnly(s, AllWarned(s, today), today)
    ensures Orderly(s) ==> Orderly(AllWarned(s, today))
  {
  }

  lemma {:induction false} WarningKeepsTakedowns(s: State, today: int)
    ensures AllWarned(s, today).takedowns == s.takedowns && AllWarned(s, today).catalog == s.catalog
  {
  }

  lemma {:induction false} NoneEnded(terms: map<nat, Term>, today: int)
    ensures EndedBatch(terms, {}, today) == terms
  {
  }

  lemma {:induction false} OneMoreEnded(terms: map<nat, Term>, done: set<nat>, r: nat, today: int)
    requires r in terms && r !in done
    ensures multiset(done + {r}) == multiset(done) + multiset{r}
    ensures r in EndedBatch(terms, done, today)
    ensures (var ended := EndedBatch(terms, done, today);
             EndedBatch(terms, done + {r}, today)
             == ended[r := ended[r].(status := Ended, settleBy := Some(today + FINAL_SETTLEMENT_DAYS))])
  {
  }

  function EndedBatch(terms: map<nat, Term>, batch: set<nat>, today: int): map<nat, Term> {
    map r | r in terms ::
      if r in batch then terms[r].(status := Ended, settleBy := Some(today + FINAL_SETTLEMENT_DAYS)) else terms[r]
  }

  /** The notices change neither what is due nor in which order. */
  lemma {:induction false} WarningKeepsBatches(s: State, today: int)
    ensures Due(AllWarned(s, today), today) == Due(s, today)
    ensures forall batch :: IsBatch(AllWarned(s, today), today, batch) <==> IsBatch(s, today, batch)
  {
    var t := AllWarned(s, today);
    assert forall o :: OrgPast(t, o, today) <==> OrgPast(s, o, today);
    assert forall r :: r in Due(t, today) <==> r in Due(s, today);
    assert forall r :: r in s.terms ==> t.terms[r].end == s.terms[r].end;
  }

  /** The releases seen so far are scheduled, the others as they were. */
  ghost predicate PartlyScheduled(s: State, terms: map<nat, Term>, org: nat, row: Term, done: set<nat>) {
    && (forall r :: r in terms <==> r in s.terms || (r in done && TakesOver(s, org, r)))
    && (forall r :: r in terms ==> terms[r] == if r in done && TakesOver(s, org, r) then row else s.terms[r])
  }

  lemma {:induction false} TakingOverKeepsOrder(s: State, terms: map<nat, Term>, org: nat, row: Term)
    requires Orderly(s) && PartlyScheduled(s, terms, org, row, s.catalog.Keys)
    requires row.org == org && row.status == Scheduled && !row.byStaff
    ensures Orderly(s.(terms := terms))
  {
  }

  lemma {:induction false} OneMoreScheduled(s: State, terms: map<nat, Term>, org: nat, row: Term,
                                            done: set<nat>, r: nat)
    requires PartlyScheduled(s, terms, org, row, done) && r !in done
    ensures (r in terms <==> r in s.terms) && (r in terms ==> terms[r] == s.terms[r])
    ensures PartlyScheduled(s, if TakesOver(s, org, r) then terms[r := row] else terms, org, row, done + {r})
  {
  }

  lemma {:induction false} AllScheduled(s: State, terms: map<nat, Term>, org: nat, end: int)
    requires PartlyScheduled(s, terms, org, Term(org, end, OrgContractEnd, false, Scheduled, false, None),
                             s.catalog.Keys)
    ensures terms == ScheduleOrg(s, org, end, false).terms
  {
  }
}
