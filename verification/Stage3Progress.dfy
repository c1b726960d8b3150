/**
  What each transaction of the Stage 3 worker does to the rows, and that a worker gets there: a job
  whose worker stopped anywhere is claimed again and brought to the end, whatever the workers that
  lost their lease still do meanwhile.
*/
module Stage3Progress {
  import opened Stage3

  // ---------------------------------------------------------------- what a transaction leaves alone

  /** The running job carries the attempt's token and its lease has not run out. */
  predicate Leased(s: State, a: Attempt) {
    a.job < |s.jobs| && s.jobs[a.job].status == Running && s.jobs[a.job].token == a.token && s.jobs[a.job].leased
  }

  /** Attempt `k` stands at `stage`; every other attempt stands where it stood. */
  predicate OnlyMoved(s: State, t: State, k: nat, stage: Stage) {
    && k < |s.attempts| == |t.attempts|
    && t.attempts[k] == s.attempts[k].(stage := stage)
    && forall i :: 0 <= i < |s.attempts| && i != k ==> t.attempts[i] == s.attempts[i]
  }

  /** Release `r` has the status and its epoch; every other release is as it was. */
  predicate OnlyStatus(s: State, t: State, r: nat, status: ReleaseStatus) {
    && r < |s.releases| == |t.releases|
    && t.releases[r] == Release(status, s.releases[r].epoch)
    && forall i :: 0 <= i < |s.releases| && i != r ==> t.releases[i] == s.releases[i]
  }

  predicate SameQueue(s: State, t: State) {
    t.jobs == s.jobs && t.verifications == s.verifications && t.next == s.next
  }

  predicate SameOutputs(s: State, t: State) { t.artifacts == s.artifacts && t.handoffs == s.handoffs }

  /** Nothing happened but that the attempt stopped. */
  predicate GaveUp(s: State, t: State, k: nat) {
    && OnlyMoved(s, t, k, Stopped) && SameQueue(s, t) && SameOutputs(s, t)
    && t.releases == s.releases && t.canonicals == s.canonicals && t.packages == s.packages
  }

  // ---------------------------------------------------------------- the outcome of each transaction

  predicate MayPrepare(s: State, a: Attempt) {
    && a.verification < |s.verifications| && a.release < |s.releases|
    && s.releases[a.release].status in {Stage2Passed, Preparing}
  }

  predicate AtThePin(s: State, a: Attempt) {
    && a.verification < |s.verifications| && a.release < |s.releases|
    && s.releases[a.release].epoch == s.verifications[a.verification].epoch
  }

  /** The attempt holds the one snapshot of its verification package; no other snapshot is added. */
  predicate StoredOwn(s: State, t: State, k: nat) {
    && k < |t.attempts| && t.attempts[k].stage.Stored?
    && (var c := t.attempts[k].stage.canonical;
        c < |t.canonicals| && t.canonicals[c] == t.attempts[k].verification)
    && s.canonicals <= t.canonicals
    && (forall c :: |s.canonicals| <= c < |t.canonicals| ==> t.canonicals[c] == t.attempts[k].verification)
  }

  /** With its lease, on a release that passed Stage 2 or prepares already, the attempt stores its
      snapshot and the release prepares; when its rights moved the release goes to correction and no
      row is added; in every other case nothing happens. */
  lemma {:induction false} FirstOutcome(s: State, k: nat)
    requires k < |s.attempts| && s.attempts[k].stage == Claimed
    ensures (var a, t := s.attempts[k], Next(s, Inside(k, First));
             if Leased(s, a) && MayPrepare(s, a) && AtThePin(s, a) then
               && StoredOwn(s, t, k) && OnlyMoved(s, t, k, t.attempts[k].stage)
               && OnlyStatus(s, t, a.release, Preparing)
               && SameQueue(s, t) && SameOutputs(s, t) && t.packages == s.packages
             else if Leased(s, a) && MayPrepare(s, a) then
               && OnlyMoved(s, t, k, Stopped) && OnlyStatus(s, t, a.release, Correction)
               && SameQueue(s, t) && SameOutputs(s, t) && t.packages == s.packages && t.canonicals == s.canonicals
             else GaveUp(s, t, k))
  {
  }

  /** Looking adds nothing; the package found is the one of the snapshot. */
  lemma {:induction false} LookOutcome(s: State, k: nat, c: nat)
    requires k < |s.attempts| && s.attempts[k].stage == Stored(c)
    ensures (var t := Next(s, Inside(k, Look));
             && t == s.(attempts := t.attempts)
             && OnlyMoved(s, t, k, t.attempts[k].stage)
             && (if c in s.packages then
                   && t.attempts[k].stage.Frozen?
                   && (var p := t.attempts[k].stage.package; p < |s.packages| && s.packages[p] == c)
                 else t.attempts[k].stage == Missed(c)))
  {
  }

  /** A package is added only when no other attempt added it in between. */
  lemma {:induction false} FreezeOutcome(s: State, k: nat, c: nat)
    requires k < |s.attempts| && s.attempts[k].stage == Missed(c)
    ensures (var t := Next(s, Inside(k, Freeze));
             && t == s.(attempts := t.attempts, packages := t.packages)
             && t.packages == (if c in s.packages then s.packages else s.packages + [c])
             && OnlyMoved(s, t, k, t.attempts[k].stage)
             && t.attempts[k].stage.Frozen?
             && (var p := t.attempts[k].stage.package; p < |t.packages| && t.packages[p] == c))
  {
  }

  /** The checks let the package through exactly when they pass at the pinned epoch. */
  lemma {:induction false} CheckOutcome(s: State, k: nat, p: nat, passes: bool)
    requires k < |s.attempts| && s.attempts[k].stage == Frozen(p)
    ensures (var a, t := s.attempts[k], Next(s, Inside(k, Check(passes)));
             if passes && AtThePin(s, a) then
               && t == s.(attempts := t.attempts)
               && OnlyMoved(s, t, k, Checked(p, s.verifications[a.verification].epoch))
             else GaveUp(s, t, k))
  {
  }

  /** Rows with this key are there, and no other row is added or lost. */
  predicate Recorded(s: State, t: State, p: nat) {
    && s.artifacts <= t.artifacts && p in t.artifacts
    && (forall i :: |s.artifacts| <= i < |t.artifacts| ==> t.artifacts[i] == p)
    && s.handoffs <= t.handoffs && Enqueue(p) in t.handoffs && Staging(p) in t.handoffs
    && (forall i :: |s.handoffs| <= i < |t.handoffs| ==> t.handoffs[i] in {Enqueue(p), Staging(p)})
  }

  /** With its lease and a ledger that agrees the attempt commits: outputs and delivery jobs are there,
      and a release that still prepares is ready by this attempt. Else nothing happens. */
  lemma {:induction false} SecondOutcome(s: State, k: nat, p: nat, e: nat, recorded: bool)
    requires k < |s.attempts| && s.attempts[k].stage == Checked(p, e) && s.attempts[k].release < |s.releases|
    ensures (var a, t := s.attempts[k], Next(s, Inside(k, Second(recorded)));
             if Leased(s, a) && recorded then
               && OnlyMoved(s, t, k, Committed(p, e)) && Recorded(s, t, p)
               && (if s.releases[a.release].status == Preparing then OnlyStatus(s, t, a.release, Ready(k))
                   else t.releases == s.releases)
               && SameQueue(s, t) && t.canonicals == s.canonicals && t.packages == s.packages
             else GaveUp(s, t, k))
  {
  }

  /** Only job `j` changed. */
  predicate OnlyJob(s: State, t: State, j: nat, row: Job) {
    && j < |s.jobs| == |t.jobs| && t.jobs[j] == row
    && forall i :: 0 <= i < |s.jobs| && i != j ==> t.jobs[i] == s.jobs[i]
  }

  /** Around the workers: a verification pins the epoch of the day; a claim takes a queued job that may
      still be claimed, with a token nobody had. */
  lemma {:induction false} ClaimOutcome(s: State, j: nat, r: nat)
    requires j < |s.jobs| && r < |s.releases| && s.jobs[j].verification < |s.verifications|
    ensures Next(s, Outside(Verify(r)))
         == s.(verifications := s.verifications + [Verification(r, s.releases[r].epoch)])
    ensures (var t := Next(s, Outside(Claim(j)));
             var b := s.jobs[j];
             if b.status == Queued && b.claims < b.limit then
               && |t.attempts| == |s.attempts| + 1 && s.attempts <= t.attempts
               && (var a := t.attempts[|s.attempts|];
                   && a == Attempt(j, s.next, b.verification, s.verifications[b.verification].release, Claimed)
                   && Leased(t, a))
               && s.next < t.next
               && OnlyJob(s, t, j, Job(b.verification, Running, s.next, true, b.claims + 1, b.limit))
               && t == s.(jobs := t.jobs, attempts := t.attempts, next := t.next)
             else t == s)
  {
  }

  /** A job whose lease ran out goes back to the queue while it may still be claimed; after that it is dead
      and its release, unless revised meanwhile, is in correction: it does not wait for good. */
  lemma {:induction false} ReclaimOutcome(s: State, j: nat, current: bool)
    requires j < |s.jobs| && s.jobs[j].verification < |s.verifications|
    requires s.verifications[s.jobs[j].verification].release < |s.releases|
    ensures (var t := Next(s, Outside(LeaseRunsOut(j)));
             && t == s.(jobs := t.jobs) && OnlyJob(s, t, j, s.jobs[j].(leased := false)))
    ensures (var t := Next(s, Outside(Reclaim(j, current)));
             var b, r := s.jobs[j], s.verifications[s.jobs[j].verification].release;
             if b.status != Running || b.leased then t == s
             else if b.claims < b.limit then t == s.(jobs := t.jobs) && OnlyJob(s, t, j, b.(status := Queued))
             else
               && t == s.(jobs := t.jobs, releases := t.releases) && OnlyJob(s, t, j, b.(status := Finished))
               && (if current && s.releases[r].status in {Stage2Passed, Preparing} then
                     OnlyStatus(s, t, r, Correction)
                   else t.releases == s.releases))
  {
  }

  /** What else happens around the workers: rights move by one, other writers set any status but ready, a
      job starts queued without a claim. */
  lemma {:induction false} AroundOutcomes(s: State, r: nat, j: nat, v: nat, limit: nat, status: ReleaseStatus)
    requires r < |s.releases| && j < |s.jobs| && v < |s.verifications| && !status.Ready?
    ensures Next(s, Outside(NewRelease)) == s.(releases := s.releases + [Release(Stage2Passed, 0)])
    ensures Next(s, Outside(EpochMoves(r)))
         == s.(releases := s.releases[r := Release(s.releases[r].status, s.releases[r].epoch + 1)])
    ensures (var t := Next(s, Outside(OtherWriter(r, status)));
             t == s.(releases := t.releases) && OnlyStatus(s, t, r, status))
    ensures Next(s, Outside(NewJob(v, limit))) == s.(jobs := s.jobs + [Job(v, Queued, 0, false, 0, limit)])
    ensures (var t := Next(s, Outside(Finish(j)));
             && t == s.(jobs := t.jobs)
             && OnlyJob(s, t, j, s.jobs[j].(status := Finished, leased := false)))
  {
  }

  // ---------------------------------------------------------------- getting there

  /** What attempt `n` does itself, in order. */
  function Own(es: seq<Step>, n: nat): seq<Work>
    decreases |es|
  {
    if es == [] then []
    else
      var rest, e := Own(es[..|es| - 1], n), es[|es| - 1];
      if e.Inside? && e.attempt == n then rest + [e.work] else rest
  }

  const PLAN: seq<Work> := [First, Look, Freeze, Check(true), Second(true)]

  /** Every step is one of attempt `n`, or of an earlier attempt at the same job. */
  predicate OnlyTheJob(s: State, es: seq<Step>, n: nat) {
    n < |s.attempts|
    && forall i :: 0 <= i < |es| ==>
         && es[i].Inside? && es[i].attempt < |s.attempts|
         && s.attempts[es[i].attempt].job == s.attempts[n].job
  }

  /** How far attempt `n` is after `i` steps of its plan. */
  predicate Reached(s: State, n: nat, i: nat) {
    && n < |s.attempts| && s.attempts[n].release < |s.releases|
    && (var st, status := s.attempts[n].stage, s.releases[s.attempts[n].release].status;
        match i
        case 0 => st == Claimed && status in {Stage2Passed, Preparing}
        case 1 => st.Stored? && status == Preparing
        case 2 => (st.Missed? || st.Frozen?) && status == Preparing
        case 3 => st.Frozen? && status == Preparing
        case 4 => st.Checked? && status == Preparing
        case _ => st.Committed? && status == Ready(n) && st.package in s.artifacts
                  && Enqueue(st.package) in s.handoffs && Staging(st.package) in s.handoffs)
  }

  predicate Going(s: State, n: nat, i: nat) {
    Reached(s, n, i) && Leased(s, s.attempts[n]) && AtThePin(s, s.attempts[n])
  }

  lemma {:induction false} OwnStep(s: State, n: nat, i: nat)
    requires i < 5 && Going(s, n, i)
    ensures Going(Next(s, Inside(n, PLAN[i])), n, i + 1)
  {
    hide Insert;
  }

  /** An attempt that lost the job's lease stops or works on without a trace on release and job. */
  lemma {:induction false} StaleStep(s: State, k: nat, w: Work, n: nat, i: nat)
    requires i <= 5 && Going(s, n, i) && k < |s.attempts| && k != n
    requires s.attempts[k].job == s.attempts[n].job && TokensDiffer(s)
    ensures Going(Next(s, Inside(k, w)), n, i)
  {
    assert s.attempts[k].token != s.attempts[n].token;
    assert !Leased(s, s.attempts[k]);
    assert Works(s, k, w).releases == s.releases;
    WorkIsOwn(s, k, w);
    WorkGrows(s, k, w);
    hide Works;
  }

  lemma {:induction false} RunSplit(es: seq<Step>, more: seq<Step>)
    requires more != []
    ensures Run(es + more) == Next(Run(es + more[..|more| - 1]), more[|more| - 1])
  {
    assert (es + more)[..|es + more| - 1] == es + more[..|more| - 1];
  }

  /** Attempts keep their jobs. */
  lemma {:induction false} SameJobs(s: State, t: State, e: Step, es: seq<Step>, n: nat)
    requires OnlyTheJob(s, es, n) && e.Inside? && t == Next(s, e)
    ensures OnlyTheJob(t, es, n) && t.attempts[n].release == s.attempts[n].release
  {
    if e.attempt < |s.attempts| {
      WorkIsOwn(s, e.attempt, e.work);
    }
    hide Next;
  }

  lemma {:induction false} GoesOn(es: seq<Step>, more: seq<Step>, all: seq<Step>, n: nat)
    requires Going(Run(es), n, 0) && OnlyTheJob(Run(es), all, n)
    requires more <= all && Own(more, n) <= PLAN
    ensures Going(Run(es + more), n, |Own(more, n)|) && OnlyTheJob(Run(es + more), all, n)
    ensures Run(es + more).attempts[n].release == Run(es).attempts[n].release
    decreases |more|
  {
    hide Run, Next, Going;
    if more == [] {
      assert es + more == es;
    } else {
      var q, e := more[..|more| - 1], more[|more| - 1];
      assert e == all[|more| - 1];
      assert Own(q, n) <= Own(more, n);
      GoesOn(es, q, all, n);
      RunSplit(es, more);
      RunKeeps(es + q);
      var s := Run(es + q);
      assert Consistent(s);
      hide AllHoldings, OneOfEach, ReadyIsCommitted;
      if e.attempt == n {
        assert Own(more, n)[|Own(q, n)|] == e.work;
        OwnStep(s, n, |Own(q, n)|);
      } else {
        StaleStep(s, e.attempt, e.work, n, |Own(q, n)|);
      }
      SameJobs(s, Next(s, e), e, all, n);
    }
  }

  /** A job that runs and may be claimed again, on a release that passed Stage 2 or prepares, with the
      epoch still at the pin of its verification. */
  predicate Waiting(s: State, j: nat) {
    && j < |s.jobs| && s.jobs[j].status == Running && s.jobs[j].claims < s.jobs[j].limit
    && s.jobs[j].verification < |s.verifications|
    && (var v := s.verifications[s.jobs[j].verification];
        && v.release < |s.releases| && s.releases[v.release].epoch == v.epoch
        && s.releases[v.release].status in {Stage2Passed, Preparing})
  }

  function Again(j: nat): seq<Step> {
    [Outside(LeaseRunsOut(j)), Outside(Reclaim(j, true)), Outside(Claim(j))]
  }

  lemma {:induction false} ClaimedAgain(es: seq<Step>, j: nat)
    requires Waiting(Run(es), j)
    ensures (var n, t := |Run(es).attempts|, Run(es + Again(j));
             && |t.attempts| == n + 1 && t.attempts[..n] == Run(es).attempts && t.attempts[n].job == j
             && t.attempts[n].release == Run(es).verifications[Run(es).jobs[j].verification].release
             && Going(t, n, 0))
  {
    hide Run, Next;
    var a := [Outside(LeaseRunsOut(j)), Outside(Reclaim(j, true))];
    RunSplit(es, Again(j));
    assert Again(j)[..2] == a;
    RunSplit(es, a);
    assert a[..1] == [Outside(LeaseRunsOut(j))];
    RunSplit(es, a[..1]);
    assert es + a[..1][..0] == es;
    ClaimSteps(Run(es), j);
  }

  lemma {:induction false} ClaimSteps(s: State, j: nat)
    requires Waiting(s, j)
    ensures (var n, v := |s.attempts|, s.verifications[s.jobs[j].verification];
             var t := Next(Next(Next(s, Outside(LeaseRunsOut(j))), Outside(Reclaim(j, true))), Outside(Claim(j)));
             && |t.attempts| == n + 1 && t.attempts[..n] == s.attempts && t.attempts[n].job == j
             && t.attempts[n].release == v.release
             && Going(t, n, 0))
  {
  }

  /** Whatever ran before and wherever its worker stopped: when the lease has run out, the job is
      claimed again, and the new attempt does its five steps, the release is ready by this attempt and
      handed over. The earlier attempts at the job may take any steps in between, in any order. */
  lemma {:induction false} RetryCompletes(es: seq<Step>, j: nat, more: seq<Step>)
    requires Waiting(Run(es), j)
    requires (var n := |Run(es).attempts|;
              && Own(more, n) == PLAN
              && forall i :: 0 <= i < |more| ==>
                   && more[i].Inside? && more[i].attempt <= n
                   && (more[i].attempt < n ==> Run(es).attempts[more[i].attempt].job == j))
    ensures (var n, t := |Run(es).attempts|, Run(es + Again(j) + more);
             var r := Run(es).verifications[Run(es).jobs[j].verification].release;
             && n < |t.attempts| && t.attempts[n].stage.Committed?
             && r < |t.releases| && t.releases[r].status == Ready(n)
             && (var p := t.attempts[n].stage.package;
                 p in t.artifacts && Enqueue(p) in t.handoffs && Staging(p) in t.handoffs))
  {
    hide Run, Next, Again, Own, AtThePin, Waiting;
    var s, n := Run(es), |Run(es).attempts|;
    ClaimedAgain(es, j);
    var t := Run(es + Again(j));
    assert forall k :: 0 <= k < n ==> t.attempts[k] == t.attempts[..n][k];
    GoesOn(es + Again(j), more, more, n);
  }

  /** The five steps of attempt `n` with nobody else in between. */
  function Alone(n: nat, i: nat): seq<Step>
    requires i <= 5
  {
    if i == 0 then [] else Alone(n, i - 1) + [Inside(n, PLAN[i - 1])]
  }

  lemma {:induction false} AloneIsPlan(n: nat, i: nat)
    requires i <= 5
    ensures Own(Alone(n, i), n) == PLAN[..i]
    ensures forall k :: 0 <= k < |Alone(n, i)| ==> Alone(n, i)[k].Inside? && Alone(n, i)[k].attempt == n
  {
    if i > 0 {
      AloneIsPlan(n, i - 1);
      assert Alone(n, i)[..|Alone(n, i)| - 1] == Alone(n, i - 1);
      assert PLAN[..i] == PLAN[..i - 1] + [PLAN[i - 1]];
    }
  }

  /** An attempt that held its lease at the pin and stopped before it committed: the next attempt at
      its job, if there may be one, makes the release ready. */
  lemma {:induction false} CrashIsMadeGood(es: seq<Step>, k: nat)
    requires (var s := Run(es);
              && k < |s.attempts| && Leased(s, s.attempts[k]) && AtThePin(s, s.attempts[k])
              && MayPrepare(s, s.attempts[k]) && !s.attempts[k].stage.Committed?
              && s.jobs[s.attempts[k].job].claims < s.jobs[s.attempts[k].job].limit)
    ensures (var s, n := Run(es), |Run(es).attempts|;
             var t := Run(es + [Inside(k, Crash)] + Again(s.attempts[k].job) + Alone(n, 5));
             && s.attempts[k].release < |t.releases| && t.releases[s.attempts[k].release].status == Ready(n))
  {
    hide Run, Next, Again, Own, Alone;
    var s, n := Run(es), |Run(es).attempts|;
    var a := s.attempts[k];
    RunKeeps(es);
    assert Holdings(s, a);
    assert Consistent(s);
    hide Consistent, AllHoldings;
    var crashed := es + [Inside(k, Crash)];
    CrashStep(s, k);
    RunSplit(es, [Inside(k, Crash)]);
    assert es + [Inside(k, Crash)][..0] == es;
    AloneIsPlan(n, 5);
    assert PLAN[..5] == PLAN;
    RetryCompletes(crashed, a.job, Alone(n, 5));
  }

  lemma {:induction false} CrashStep(s: State, k: nat)
    requires k < |s.attempts| && !s.attempts[k].stage.Committed?
    ensures (var t := Next(s, Inside(k, Crash));
             |t.attempts| == |s.attempts| && t == s.(attempts := t.attempts))
  {
  }

  /** After its last attempt the release of such a job is in correction. */
  lemma {:induction false} LastCrashIsReported(es: seq<Step>, k: nat)
    requires (var s := Run(es);
              && k < |s.attempts| && Leased(s, s.attempts[k]) && MayPrepare(s, s.attempts[k])
              && !s.attempts[k].stage.Committed?
              && s.jobs[s.attempts[k].job].claims >= s.jobs[s.attempts[k].job].limit)
    ensures (var s, j := Run(es), Run(es).attempts[k].job;
             var t := Run(es + [Inside(k, Crash)] + [Outside(LeaseRunsOut(j))] + [Outside(Reclaim(j, true))]);
             && s.attempts[k].release < |t.releases| && t.releases[s.attempts[k].release].status == Correction
             && j < |t.jobs| && t.jobs[j].status == Finished)
  {
    hide Run, Next;
    var s, j := Run(es), Run(es).attempts[k].job;
    RunKeeps(es);
    assert Holdings(s, s.attempts[k]) && Sound(s);
    hide Consistent, AllHoldings;
    CrashStep(s, k);
    OneMore(es, Inside(k, Crash));
    var crashed := es + [Inside(k, Crash)];
    ReclaimOutcome(Run(crashed), j, true);
    OneMore(crashed, Outside(LeaseRunsOut(j)));
    ReclaimOutcome(Run(crashed + [Outside(LeaseRunsOut(j))]), j, true);
    OneMore(crashed + [Outside(LeaseRunsOut(j))], Outside(Reclaim(j, true)));
  }

  lemma {:induction false} OneMore(es: seq<Step>, e: Step)
    ensures Run(es + [e]) == Next(Run(es), e)
  {
    assert (es + [e])[..|es + [e]| - 1] == es;
  }
}
