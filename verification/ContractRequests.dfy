/**
  When each request about a contract's end is accepted, what the rows are then, and what follows from
  an accepted request over whole runs.
*/
module ContractRequests {
  import opened Common
  import opened ContractTerms

  /** Was the request accepted? */
  function Answer(s: State, e: Step): bool {
    match e
    case SetByArtist(r, end, reason, today) => ArtistSet(s, r, end, reason, today).1
    case CancelByArtist(r) => ArtistCancel(s, r).1
    case SetByStaff(r, end, reason) => StaffTerminate(s, r, end, reason).1
    case SettleByStaff(r) => StaffSettled(s, r).1
    case SetByOwner(org, end, today) => OwnerSet(s, org, end, today).1
    case CancelByOwner(org) => OwnerCancel(s, org).1
    case _ => true
  }

  /** The row of `r` is `row`; nothing else changed. */
  predicate OnlyRow(s: State, t: State, r: nat, row: Term) {
    && t == s.(terms := t.terms)
    && t.terms.Keys == s.terms.Keys + {r} && t.terms[r] == row
    && forall q :: q in s.terms && q != r ==> t.terms[q] == s.terms[q]
  }

  predicate At(s: State, r: nat, statuses: set<Status>) { r in s.terms && s.terms[r].status in statuses }

  // ---------------------------------------------------------------- single releases

  /** Staff may end any release that has not ended, for any reason but the artists' transfer and the
      contract's own; the row is theirs. */
  lemma {:induction false} StaffOutcome(s: State, r: nat, end: int, reason: Reason)
    ensures (var e := SetByStaff(r, end, reason);
             && (Answer(s, e) <==>
                   && r in s.catalog && reason in {ContractEnd, LicenseExpiry, Termination}
                   && !At(s, r, {Ended, FinalSettled}))
             && (if Answer(s, e) then
                   OnlyRow(s, Next(s, e), r, Term(s.catalog[r].org, end, reason, true, Scheduled, false, None))
                 else Next(s, e) == s))
  {
  }

  /** Artists end their submitted releases with thirty days' notice, an expired licence with one; not a
      release that has ended, nor one that staff or the contract's end took. */
  lemma {:induction false} ArtistOutcome(s: State, r: nat, end: int, reason: Reason, today: int)
    ensures (var e := SetByArtist(r, end, reason, today);
             && (Answer(s, e) <==>
                   && r in s.catalog && s.catalog[r].submitted
                   && (|| (reason in {ContractEnd, Transfer} && end >= today + 30)
                       || (reason == LicenseExpiry && end > today))
                   && (r in s.terms ==>
                         || s.terms[r].status == Cancelled
                         || (s.terms[r].status == Scheduled && !s.terms[r].byStaff
                             && s.terms[r].reason != OrgContractEnd)))
             && (if Answer(s, e) then
                   OnlyRow(s, Next(s, e), r, Term(s.catalog[r].org, end, reason, false, Scheduled, false, None))
                 else Next(s, e) == s))
  {
  }

  lemma {:induction false} CancelOutcome(s: State, r: nat)
    ensures (var e := CancelByArtist(r);
             && (Answer(s, e) <==> At(s, r, {Scheduled}) && !s.terms[r].byStaff && s.terms[r].reason != OrgContractEnd)
             && (if Answer(s, e) then OnlyRow(s, Next(s, e), r, s.terms[r].(status := Cancelled))
                 else Next(s, e) == s))
  {
  }

  lemma {:induction false} SettleOutcome(s: State, r: nat)
    ensures (var e := SettleByStaff(r);
             && (Answer(s, e) <==> At(s, r, {Ended}))
             && (if Answer(s, e) then OnlyRow(s, Next(s, e), r, s.terms[r].(status := FinalSettled))
                 else Next(s, e) == s))
  {
  }

  // ---------------------------------------------------------------- the whole contract

  /** A submitted release of the organisation without an end of its own. */
  predicate Free(s: State, org: nat, r: nat) {
    && r in s.catalog && s.catalog[r].org == org && s.catalog[r].submitted
    && (r in s.terms ==>
          || s.terms[r].status == Cancelled
          || (s.terms[r].status == Scheduled && s.terms[r].reason == OrgContractEnd))
  }

  /** Owners end the contract with thirty days' notice: every free release takes its date, every other
      row stays, and a contract that ended stays ended. */
  lemma {:induction false} OwnerOutcome(s: State, org: nat, end: int, today: int)
    ensures (var e := SetByOwner(org, end, today);
             var t := Next(s, e);
             && (Answer(s, e) <==> end >= today + 30)
             && (!Answer(s, e) ==> t == s)
             && (Answer(s, e) ==>
                   && t == s.(terms := t.terms, orgs := t.orgs)
                   && t.orgs.Keys == s.orgs.Keys + {org}
                   && (forall o :: o in s.orgs && o != org ==> t.orgs[o] == s.orgs[o])
                   && t.orgs[org] == (if org in s.orgs && s.orgs[org].status == Ended then s.orgs[org]
                                      else OrgTerm(end, false, Scheduled, org in s.orgs && s.orgs[org].warned))
                   && (forall r :: r in t.terms ==> r in s.terms || Free(s, org, r))
                   && (forall r :: r in s.terms && !Free(s, org, r) ==> r in t.terms && t.terms[r] == s.terms[r])
                   && (forall r :: r in s.catalog && Free(s, org, r) ==>
                         r in t.terms && t.terms[r] == Term(org, end, OrgContractEnd, false, Scheduled, false, None))))
  {
  }

  /** The owner takes a scheduled contract end back, and with it exactly the ends it set. */
  lemma {:induction false} OwnerCancelOutcome(s: State, org: nat)
    ensures (var e := CancelByOwner(org);
             var t := Next(s, e);
             && (Answer(s, e) <==> org in s.orgs && s.orgs[org].status == Scheduled && !s.orgs[org].byStaff)
             && (!Answer(s, e) ==> t == s)
             && (Answer(s, e) ==>
                   && t == s.(terms := t.terms, orgs := t.orgs)
                   && t.orgs == s.orgs[org := OrgTerm(s.orgs[org].end, false, Cancelled, s.orgs[org].warned)]
                   && t.terms.Keys == s.terms.Keys
                   && forall r :: r in s.terms ==>
                        t.terms[r] == if s.terms[r].org == org && s.terms[r].status == Scheduled
                                         && s.terms[r].reason == OrgContractEnd
                                      then s.terms[r].(status := Cancelled) else s.terms[r]))
  {
  }

  // ---------------------------------------------------------------- the sweep

  /** The day has come, by the term's own date or by that of the contract. */
  predicate DayHasCome(s: State, r: nat, today: int) {
    && At(s, r, {Scheduled})
    && (|| s.terms[r].end <= today
        || (var o := s.terms[r].org;
            o in s.orgs && s.orgs[o].status == Scheduled && s.orgs[o].end <= today))
  }

  /** A notice is due in the thirty days before the end. */
  predicate NoticeDue(status: Status, end: int, today: int) { status == Scheduled && today < end <= today + 30 }

  /** The sweep takes the earliest 200 of what is due, or all of it. */
  lemma {:induction false} BatchOutcome(s: State, today: int, batch: set<nat>, r: nat)
    requires IsBatch(s, today, batch)
    ensures |batch| <= 200
    ensures r in batch ==> DayHasCome(s, r, today)
    ensures DayHasCome(s, r, today) && r !in batch ==>
              |batch| == 200 && forall q :: q in batch ==> q in s.terms && s.terms[q].end <= s.terms[r].end
  {
    if DayHasCome(s, r, today) && r !in batch {
      assert r in Due(s, today) - batch;
      SubsetSize(batch, Due(s, today));
    }
  }

  /** What the sweep ends owes its settlement in ninety days and its takedowns are queued once more;
      everything else is at most warned; every contract that is past is over. */
  lemma {:induction false} SweepOutcome(s: State, today: int, batch: set<nat>)
    requires IsBatch(s, today, batch)
    ensures (var t := Next(s, Sweep(today, batch));
             && t.catalog == s.catalog && t.terms.Keys == s.terms.Keys && t.orgs.Keys == s.orgs.Keys
             && (forall r :: r in s.terms ==>
                   var row := s.terms[r];
                   var warned := row.warned || NoticeDue(row.status, row.end, today);
                   t.terms[r] == if r in batch then
                                   Term(row.org, row.end, row.reason, row.byStaff, Ended, warned, Some(today + 90))
                                 else row.(warned := warned))
             && (forall o :: o in s.orgs ==>
                   var row := s.orgs[o];
                   var over := row.status == Scheduled && row.end <= today;
                   t.orgs[o] == OrgTerm(row.end, row.byStaff, if over then Ended else row.status,
                                        row.warned || NoticeDue(row.status, row.end, today)))
             && (forall r: nat :: t.takedowns[r] == s.takedowns[r] + if r in batch then 1 else 0))
  {
  }

  /** The catalogue: a release belongs to its organisation for good and is submitted or not. */
  lemma {:induction false} CatalogOutcomes(s: State, r: nat, org: nat, yes: bool)
    ensures Next(s, Create(r, org))
         == if r in s.catalog then s else s.(catalog := s.catalog[r := Release(org, false)])
    ensures Next(s, Submitted(r, yes))
         == if r in s.catalog then s.(catalog := s.catalog[r := Release(s.catalog[r].org, yes)]) else s
  {
  }

  // ---------------------------------------------------------------- from the act to the end

  /** Neither a staff step on the release nor a sweep. */
  predicate LeavesStaffEnd(e: Step, r: nat) { !(e.SetByStaff? && e.release == r) && !e.Sweep? }

  /** Once staff ended a release, that end stands in every following run without a staff step on it or
      a sweep: it is scheduled for that day and that reason, and no artist sets or cancels it. */
  lemma {:induction false} StaffTerminationStands(es: seq<Step>, r: nat, end: int, reason: Reason, more: seq<Step>)
    requires Answer(Run(es), SetByStaff(r, end, reason))
    requires forall k :: 0 <= k < |more| ==> LeavesStaffEnd(more[k], r)
    ensures (var t := Run(es + [SetByStaff(r, end, reason)] + more);
             && r in t.terms && t.terms[r].status == Scheduled && t.terms[r].byStaff
             && t.terms[r].end == end && t.terms[r].reason == reason
             && !Answer(t, CancelByArtist(r))
             && forall day, why, today :: !Answer(t, SetByArtist(r, day, why, today)))
  {
    hide Run, Next;
    OneMoreStep(es, SetByStaff(r, end, reason));
    StaffOutcome(Run(es), r, end, reason);
    StaffEndsStay(es + [SetByStaff(r, end, reason)], more, r);
    var t := Run(es + [SetByStaff(r, end, reason)] + more);
    CancelOutcome(t, r);
    forall day, why, today ensures !Answer(t, SetByArtist(r, day, why, today)) {
      ArtistOutcome(t, r, day, why, today);
    }
  }

  /** An artist's accepted end stands in every following run without a step on the release or a sweep:
      the contract's end may be set and taken back meanwhile. */
  lemma {:induction false} ArtistEndStands(es: seq<Step>, r: nat, end: int, reason: Reason, today: int,
                                           more: seq<Step>)
    requires Answer(Run(es), SetByArtist(r, end, reason, today))
    requires forall k :: 0 <= k < |more| ==> !OwnStep(more[k], r)
    ensures (var t := Run(es + [SetByArtist(r, end, reason, today)] + more);
             && r in t.terms && t.terms[r].status == Scheduled && !t.terms[r].byStaff
             && t.terms[r].end == end && t.terms[r].reason == reason
             && Answer(t, CancelByArtist(r)))
  {
    hide Run, Next;
    OneMoreStep(es, SetByArtist(r, end, reason, today));
    ArtistOutcome(Run(es), r, end, reason, today);
    OwnEndsStay(es + [SetByArtist(r, end, reason, today)], more, r);
    CancelOutcome(Run(es + [SetByArtist(r, end, reason, today)] + more), r);
  }

  /** A staff termination is carried out: the first sweep from its day on, when no more than 200 terms
      are due, ends it for good and leaves its takedowns queued exactly once. */
  lemma {:induction false} TerminationIsCarriedOut(es: seq<Step>, r: nat, end: int, reason: Reason, more: seq<Step>,
                                                   today: int, batch: set<nat>, after: seq<Step>)
    requires Answer(Run(es), SetByStaff(r, end, reason)) && end <= today
    requires forall k :: 0 <= k < |more| ==> LeavesStaffEnd(more[k], r)
    requires IsBatch(Run(es + [SetByStaff(r, end, reason)] + more), today, batch)
    requires |Due(Run(es + [SetByStaff(r, end, reason)] + more), today)| <= 200
    ensures (var t := Run(es + [SetByStaff(r, end, reason)] + more + [Sweep(today, batch)] + after);
             && At(t, r, {Ended, FinalSettled}) && t.terms[r].end == end
             && t.terms[r].settleBy == Some(today + 90) && t.takedowns[r] == 1)
  {
    hide Run, Next, IsBatch;
    var until := es + [SetByStaff(r, end, reason)] + more;
    var swept := until + [Sweep(today, batch)];
    StaffTerminationStands(es, r, end, reason, more);
    OneMoreStep(until, Sweep(today, batch));
    DueTaken(Run(until), today, batch, r);
    SweepOutcome(Run(until), today, batch);
    EndedForever(swept + after, |swept|);
    assert (swept + after)[..|swept|] == swept;
    RunTakedownsOnce(swept + after);
  }

  lemma {:induction false} DueTaken(s: State, today: int, batch: set<nat>, r: nat)
    requires IsBatch(s, today, batch) && |Due(s, today)| <= 200 && DayHasCome(s, r, today)
    ensures r in batch
  {
    assert r in Due(s, today);
    SubsetEqual(batch, Due(s, today));
  }
}
