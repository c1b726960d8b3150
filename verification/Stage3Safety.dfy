/**
  What the Stage 3 invariants mean: leases fence, retries converge, readiness is never announced
  without its outputs; and when a delivery job can exist for a release that is not ready.
*/
module Stage3Safety {
  import opened Stage3

  // ---------------------------------------------------------------- leases

  /** Without its lease an attempt commits nothing in either fenced transaction: only the attempt
      itself ends. */
  lemma {:induction false} NoLeaseNoCommit(s: State, k: nat, recorded: bool)
    requires k < |s.attempts| && !Holds(s, s.attempts[k])
    ensures FirstTransaction(s, k) == s.(attempts := FirstTransaction(s, k).attempts)
    ensures SecondTransaction(s, k, recorded) == s.(attempts := SecondTransaction(s, k, recorded).attempts)
    ensures s.attempts[k].stage == Claimed ==> FirstTransaction(s, k).attempts[k].stage == Stopped
    ensures s.attempts[k].stage.Checked? ==> SecondTransaction(s, k, recorded).attempts[k].stage == Stopped
  {
  }

  /** In every run at most one attempt holds a job. */
  lemma {:induction false} OneHolder(es: seq<Step>, j: nat, k: nat)
    requires j < |Run(es).attempts| && k < |Run(es).attempts|
    requires Run(es).attempts[j].job == Run(es).attempts[k].job
    requires Holds(Run(es), Run(es).attempts[j]) && Holds(Run(es), Run(es).attempts[k])
    ensures j == k
  {
    hide Run;
    RunKeeps(es);
  }

  /** Once a lease was lost it is not regained: after the job is claimed again the old attempt never
      holds it, whatever happens. */
  lemma {:induction false} StaleForever(es: seq<Step>, more: seq<Step>, k: nat)
    requires k < |Run(es).attempts| && Stale(Run(es), Run(es).attempts[k])
    ensures k < |Run(es + more).attempts| && !Holds(Run(es + more), Run(es + more).attempts[k])
    ensures Stale(Run(es + more), Run(es + more).attempts[k])
    decreases |more|
  {
    hide Next, Stale;
    if more == [] {
      assert es + more == es;
    } else {
      var q, e := more[..|more| - 1], more[|more| - 1];
      StaleForever(es, q, k);
      assert (es + more)[..|es + more| - 1] == es + q;
      StaleStep(Run(es + q), e, k);
    }
    StaleHoldsNothing(Run(es + more), Run(es + more).attempts[k]);
  }

  /** An attempt whose lease is lost writes nothing in a fenced transaction any more: in every run that
      follows it never commits, and never stores a snapshot if it had not. */
  lemma {:induction false} StaleNeverWrites(es: seq<Step>, more: seq<Step>, k: nat)
    requires k < |Run(es).attempts| && Stale(Run(es), Run(es).attempts[k])
    ensures k < |Run(es + more).attempts|
    ensures Run(es + more).attempts[k].stage.Committed? ==> Run(es).attempts[k].stage.Committed?
    ensures Run(es).attempts[k].stage == Claimed ==> Run(es + more).attempts[k].stage in {Claimed, Stopped}
    decreases |more|
  {
    hide Next, Stale;
    if more == [] {
      assert es + more == es;
    } else {
      var q, e := more[..|more| - 1], more[|more| - 1];
      StaleNeverWrites(es, q, k);
      StaleForever(es, q, k);
      assert (es + more)[..|es + more| - 1] == es + q;
      StaleStays(Run(es + q), e, k);
    }
  }

  lemma {:induction false} StaleStays(s: State, e: Step, k: nat)
    requires k < |s.attempts| && Stale(s, s.attempts[k])
    ensures k < |Next(s, e).attempts|
    ensures Next(s, e).attempts[k].stage.Committed? ==> s.attempts[k].stage.Committed?
    ensures s.attempts[k].stage in {Claimed, Stopped} ==> Next(s, e).attempts[k].stage in {Claimed, Stopped}
  {
    StaleHoldsNothing(s, s.attempts[k]);
    match e
    case Outside(event) =>
    case Inside(i, w) =>
      if i < |s.attempts| && i != k {
        WorkIsOwn(s, i, w);
        hide Works;
      }
  }

  /** The lease ran out, or the job was claimed again. */
  predicate Stale(s: State, a: Attempt) {
    a.job < |s.jobs| && (s.jobs[a.job].token != a.token || !s.jobs[a.job].leased) && a.token < s.next
  }

  lemma {:induction false} StaleHoldsNothing(s: State, a: Attempt)
    requires Stale(s, a)
    ensures !Holds(s, a)
  {
  }

  lemma {:induction false} StaleStep(s: State, e: Step, k: nat)
    requires k < |s.attempts| && Stale(s, s.attempts[k])
    ensures k < |Next(s, e).attempts| && Stale(Next(s, e), Next(s, e).attempts[k])
  {
    match e
    case Outside(event) =>
    case Inside(i, w) =>
      if i < |s.attempts| {
        WorkIsOwn(s, i, w);
        hide Works;
      }
  }

  // ---------------------------------------------------------------- retries converge

  /** A verification package has one frozen package, whichever attempts froze it. */
  lemma {:induction false} OnePackage(s: State, v: nat, p: nat, q: nat)
    requires OneOfEach(s) && PackageOf(s, p, v) && PackageOf(s, q, v)
    ensures p == q
  {
  }

  /** So at most one delivery job of each kind exists per verification package, in every run. */
  lemma {:induction false} OneHandoffPerVerification(es: seq<Step>, v: nat, i: nat, j: nat)
    requires (var s := Run(es);
              && i < |s.handoffs| && j < |s.handoffs| && s.handoffs[i].Enqueue? == s.handoffs[j].Enqueue?
              && PackageOf(s, s.handoffs[i].package, v) && PackageOf(s, s.handoffs[j].package, v))
    ensures i == j
  {
    hide Run;
    RunKeeps(es);
    OnePackage(Run(es), v, Run(es).handoffs[i].package, Run(es).handoffs[j].package);
  }

  // ---------------------------------------------------------------- readiness

  /** A release that is ready for delivery has, for one of its own verification packages, the frozen
      package, its preparation artifact and both delivery jobs; and the attempt that made it ready had
      read the very epoch the package pins. */
  lemma {:induction false} ReadyIsBacked(es: seq<Step>, r: nat)
    requires r < |Run(es).releases| && Run(es).releases[r].status.Ready?
    ensures (var s := Run(es);
             var k := s.releases[r].status.attempt;
             && k < |s.attempts| && s.attempts[k].stage.Committed?
             && (var a := s.attempts[k];
                 && a.verification < |s.verifications| && s.verifications[a.verification].release == r
                 && PackageOf(s, a.stage.package, a.verification)
                 && a.stage.package in s.artifacts
                 && Enqueue(a.stage.package) in s.handoffs && Staging(a.stage.package) in s.handoffs
                 && a.stage.epoch == s.verifications[a.verification].epoch))
  {
    hide Run;
    RunKeeps(es);
    var s := Run(es);
    assert Holdings(s, s.attempts[s.releases[r].status.attempt]);
  }

  /** The second transaction hands a package over without making its release ready exactly when it
      commits while the release has left Stage 3 preparation (and was not ready already). */
  lemma {:induction false} HandoffWithoutReadyExactlyWhen(s: State, k: nat, recorded: bool)
    requires k < |s.attempts| && s.attempts[k].stage.Checked? && s.attempts[k].release < |s.releases|
    ensures (var t := SecondTransaction(s, k, recorded);
             var a := s.attempts[k];
             (t.attempts[k].stage.Committed? && Enqueue(a.stage.package) in t.handoffs
              && !t.releases[a.release].status.Ready?)
             <==> (Holds(s, a) && recorded
                   && s.releases[a.release].status != Preparing && !s.releases[a.release].status.Ready?))
  {
    hide Distinct;
  }

  /** Nothing takes a preparing or ready release elsewhere. */
  predicate Undisturbed(s: State, e: Step) {
    var t := Next(s, e);
    forall r :: 0 <= r < |s.releases| && r < |t.releases| ==>
      && (s.releases[r].status == Preparing ==> t.releases[r].status == Preparing || t.releases[r].status.Ready?)
      && (s.releases[r].status.Ready? ==> t.releases[r].status.Ready?)
  }

  predicate UndisturbedRun(es: seq<Step>)
    decreases |es|
  {
    es == [] || (UndisturbedRun(es[..|es| - 1]) && Undisturbed(Run(es[..|es| - 1]), es[|es| - 1]))
  }

  predicate Underway(st: Stage) { st.Stored? || st.Missed? || st.Frozen? || st.Checked? }

  predicate ReleaseReady(s: State, p: nat) {
    p < |s.packages| && s.packages[p] < |s.canonicals| && s.canonicals[s.packages[p]] < |s.verifications|
    && s.verifications[s.canonicals[s.packages[p]]].release < |s.releases|
    && s.releases[s.verifications[s.canonicals[s.packages[p]]].release].status.Ready?
  }

  /** Attempts past the first transaction work on a release that still prepares or is ready; packages
      handed over belong to ready releases. */
  predicate JobsAreReady(s: State) {
    && (forall k :: 0 <= k < |s.attempts| && Underway(s.attempts[k].stage) ==>
          s.attempts[k].release < |s.releases|
          && (s.releases[s.attempts[k].release].status == Preparing
              || s.releases[s.attempts[k].release].status.Ready?))
    && (forall h :: 0 <= h < |s.handoffs| ==> ReleaseReady(s, s.handoffs[h].package))
  }

  lemma {:induction false} ReadyGrows(s: State, t: State, p: nat)
    requires ReleaseReady(s, p) && Grows(s, t)
    requires forall r :: 0 <= r < |s.releases| && s.releases[r].status.Ready? ==> t.releases[r].status.Ready?
    ensures ReleaseReady(t, p)
  {
  }

  lemma {:induction false} WorkUnderway(s: State, k: nat, w: Work)
    requires JobsAreReady(s) && k < |s.attempts|
    ensures (var t := Works(s, k, w);
             Underway(t.attempts[k].stage) ==>
               t.attempts[k].release < |t.releases|
               && (t.releases[t.attempts[k].release].status == Preparing
                   || t.releases[t.attempts[k].release].status.Ready?))
  {
    hide Insert, ReleaseReady;
  }

  lemma {:induction false} WorkHandsOver(s: State, k: nat, w: Work)
    requires AllHoldings(s) && JobsAreReady(s) && k < |s.attempts|
    ensures (var t := Works(s, k, w);
             forall h :: 0 <= h < |t.handoffs| && t.handoffs[h] !in s.handoffs ==>
               ReleaseReady(t, t.handoffs[h].package))
  {
    hide Distinct;
    if w.Second? {
      assert Holdings(s, s.attempts[k]);
    } else {
      assert Works(s, k, w).handoffs == s.handoffs;
    }
  }

  lemma {:induction false} WorkStageFacts(s: State, k: nat, w: Work)
    requires AllHoldings(s) && JobsAreReady(s) && k < |s.attempts|
    ensures (var t := Works(s, k, w);
             && (Underway(t.attempts[k].stage) ==>
                   t.attempts[k].release < |t.releases|
                   && (t.releases[t.attempts[k].release].status == Preparing
                       || t.releases[t.attempts[k].release].status.Ready?))
             && (forall h :: 0 <= h < |t.handoffs| && t.handoffs[h] !in s.handoffs ==>
                   ReleaseReady(t, t.handoffs[h].package)))
  {
    hide Works, AllHoldings, JobsAreReady, ReleaseReady;
    WorkIsOwn(s, k, w);
    WorkUnderway(s, k, w);
    WorkHandsOver(s, k, w);
  }

  lemma {:induction false} StepExtends(s: State, e: Step)
    ensures Grows(s, Next(s, e))
  {
    match e
    case Outside(event) => EventGrows(s, event);
    case Inside(k, w) =>
      if k < |s.attempts| {
        WorkGrows(s, k, w);
      }
  }

  lemma {:induction false} UndisturbedHandoffs(s: State, e: Step)
    requires AllHoldings(s) && JobsAreReady(s) && Undisturbed(s, e)
    ensures (var t := Next(s, e); forall h :: 0 <= h < |t.handoffs| ==> ReleaseReady(t, t.handoffs[h].package))
  {
    var t := Next(s, e);
    StepExtends(s, e);
    if e.Inside? && e.attempt < |s.attempts| {
      WorkStageFacts(s, e.attempt, e.work);
    } else {
      assert t.handoffs == s.handoffs;
    }
    hide Next, AllHoldings;
    forall h | 0 <= h < |t.handoffs| ensures ReleaseReady(t, t.handoffs[h].package) {
      if t.handoffs[h] in s.handoffs {
        var i :| 0 <= i < |s.handoffs| && s.handoffs[i] == t.handoffs[h];
        ReadyGrows(s, t, s.handoffs[i].package);
      }
    }
  }

  lemma {:induction false} UndisturbedStep(s: State, e: Step)
    requires AllHoldings(s) && JobsAreReady(s) && Undisturbed(s, e)
    ensures JobsAreReady(Next(s, e))
  {
    var t := Next(s, e);
    UndisturbedHandoffs(s, e);
    hide ReleaseReady;
    match e {
      case Outside(event) =>
        assert forall k :: |s.attempts| <= k < |t.attempts| ==> t.attempts[k].stage == Claimed;
        assert forall k :: 0 <= k < |s.attempts| ==> t.attempts[k] == s.attempts[k];
        StepExtends(s, e);
        hide Next, Happens, AllHoldings;
      case Inside(k, w) =>
        if k < |s.attempts| {
          WorkIsOwn(s, k, w);
          WorkStageFacts(s, k, w);
          hide Works, AllHoldings;
        }
    }
  }

  /** As long as nothing else takes a preparing or ready release elsewhere, a delivery job means that
      the release is ready. */
  lemma {:induction false} JobMeansReady(es: seq<Step>)
    requires UndisturbedRun(es)
    ensures JobsAreReady(Run(es))
    decreases |es|
  {
    hide Next, Undisturbed;
    if es != [] {
      JobMeansReady(es[..|es| - 1]);
      RunKeeps(es[..|es| - 1]);
      hide JobsAreReady;
      UndisturbedStep(Run(es[..|es| - 1]), es[|es| - 1]);
    }
  }

  /** A release sent to correction between the two transactions: its package is handed over all the
      same. */
  function CorrectedMeanwhile(): State {
    State([Release(Correction, 0)], [Verification(0, 0)], [Job(0, Running, 0, true, 1, 3)],
          [Attempt(0, 0, 0, 0, Checked(0, 0))], [0], [0], [], [], 1)
  }

  function CorrectedRun(): seq<Step> {
    [] + [Outside(NewRelease)] + [Outside(Verify(0))] + [Outside(NewJob(0, 3))] + [Outside(Claim(0))]
    + [Inside(0, First)] + [Inside(0, Look)] + [Inside(0, Freeze)] + [Inside(0, Check(true))]
    + [Outside(OtherWriter(0, Correction))]
  }

  lemma {:induction false} OneStep(es: seq<Step>, e: Step, s: State, t: State)
    requires Run(es) == s && Next(s, e) == t
    ensures Run(es + [e]) == t
  {
    assert (es + [e])[..|es + [e]| - 1] == es;
  }

  function Alone(status: ReleaseStatus, stage: Stage, canonicals: seq<nat>, packages: seq<nat>): State {
    State([Release(status, 0)], [Verification(0, 0)], [Job(0, Running, 0, true, 1, 3)],
          [Attempt(0, 0, 0, 0, stage)], canonicals, packages, [], [], 1)
  }

  lemma {:induction false} ClaimedRun()
    ensures Run([] + [Outside(NewRelease)] + [Outside(Verify(0))] + [Outside(NewJob(0, 3))] + [Outside(Claim(0))])
         == Alone(Stage2Passed, Claimed, [], [])
  {
    var s1 := EMPTY.(releases := [Release(Stage2Passed, 0)]);
    var s2 := s1.(verifications := [Verification(0, 0)]);
    var s3 := s2.(jobs := [Job(0, Queued, 0, false, 0, 3)]);
    var es: seq<Step> := [];
    OneStep(es, Outside(NewRelease), EMPTY, s1);
    OneStep(es + [Outside(NewRelease)], Outside(Verify(0)), s1, s2);
    OneStep(es + [Outside(NewRelease)] + [Outside(Verify(0))], Outside(NewJob(0, 3)), s2, s3);
    assert s3.jobs[0 := Job(0, Running, 0, true, 1, 3)] == [Job(0, Running, 0, true, 1, 3)];
    OneStep(es + [Outside(NewRelease)] + [Outside(Verify(0))] + [Outside(NewJob(0, 3))], Outside(Claim(0)),
            s3, Alone(Stage2Passed, Claimed, [], []));
  }

  lemma {:induction false} WorkedAlone()
    ensures Works(Alone(Stage2Passed, Claimed, [], []), 0, First) == Alone(Preparing, Stored(0), [0], [])
    ensures Works(Alone(Preparing, Stored(0), [0], []), 0, Look) == Alone(Preparing, Missed(0), [0], [])
    ensures Works(Alone(Preparing, Missed(0), [0], []), 0, Freeze) == Alone(Preparing, Frozen(0), [0], [0])
    ensures Works(Alone(Preparing, Frozen(0), [0], [0]), 0, Check(true)) == Alone(Preparing, Checked(0, 0), [0], [0])
    ensures Happens(Alone(Preparing, Checked(0, 0), [0], [0]), OtherWriter(0, Correction)) == CorrectedMeanwhile()
  {
  }

  lemma {:induction false} CorrectedRunReaches()
    ensures Run(CorrectedRun()) == CorrectedMeanwhile()
  {
    ClaimedRun();
    WorkedAlone();
    var es := [] + [Outside(NewRelease)] + [Outside(Verify(0))] + [Outside(NewJob(0, 3))] + [Outside(Claim(0))];
    hide Run, Works, Happens;
    OneStep(es, Inside(0, First), Alone(Stage2Passed, Claimed, [], []), Alone(Preparing, Stored(0), [0], []));
    OneStep(es + [Inside(0, First)], Inside(0, Look),
            Alone(Preparing, Stored(0), [0], []), Alone(Preparing, Missed(0), [0], []));
    OneStep(es + [Inside(0, First)] + [Inside(0, Look)], Inside(0, Freeze),
            Alone(Preparing, Missed(0), [0], []), Alone(Preparing, Frozen(0), [0], [0]));
    OneStep(es + [Inside(0, First)] + [Inside(0, Look)] + [Inside(0, Freeze)], Inside(0, Check(true)),
            Alone(Preparing, Frozen(0), [0], [0]), Alone(Preparing, Checked(0, 0), [0], [0]));
    OneStep(es + [Inside(0, First)] + [Inside(0, Look)] + [Inside(0, Freeze)] + [Inside(0, Check(true))],
            Outside(OtherWriter(0, Correction)), Alone(Preparing, Checked(0, 0), [0], [0]), CorrectedMeanwhile());
  }

  /** A delivery job does not by itself mean that the release is ready. */
  lemma {:induction false} JobWithoutReady()
    ensures (var s := Run(CorrectedRun() + [Inside(0, Second(true))]);
             |s.releases| == 1 && Enqueue(0) in s.handoffs && s.releases[0].status == Correction)
  {
    CorrectedRunReaches();
    var s := CorrectedMeanwhile();
    OneStep(CorrectedRun(), Inside(0, Second(true)), s, SecondTransaction(s, 0, true));
    hide Run;
    HandoffWithoutReadyExactlyWhen(s, 0, true);
  }

  // ---------------------------------------------------------------- the transactions

  class Store {
    var releases: seq<Release>
    var verifications: seq<Verification>
    var jobs: seq<Job>
    var attempts: seq<Attempt>
    var canonicals: seq<nat>
    var packages: seq<nat>
    var artifacts: seq<nat>
    var handoffs: seq<Handoff>
    var next: nat

    function Now(): State reads this {
      State(releases, verifications, jobs, attempts, canonicals, packages, artifacts, handoffs, next)
    }

    /** What `RunKeeps` proves of every interleaving. It holds between transactions, not inside one. */
    ghost predicate Valid() reads this { Consistent(Now()) }

    constructor ()
      ensures Valid() && Now() == EMPTY
    {
      releases, verifications, jobs, attempts := [], [], [], [];
      canonicals, packages, artifacts, handoffs, next := [], [], [], [], 0;
    }

    method End(k: nat, stage: Stage)
      requires k < |attempts|
      modifies this`attempts
      ensures Now() == Move(old(Now()), k, stage)
    {
      attempts := attempts[k := attempts[k].(stage := stage)];
    }

    /** Row of the snapshot, inserted when it is not there. */
    method StoreCanonical(v: nat) returns (id: nat)
      modifies this`canonicals
      ensures canonicals == Insert(old(canonicals), v)
      ensures v in canonicals && id == Find(canonicals, v)
      ensures id < |canonicals| && canonicals[id] == v && old(canonicals) <= canonicals
      ensures Distinct(old(canonicals)) ==>
                Distinct(canonicals) && forall i :: 0 <= i < |canonicals| && canonicals[i] == v ==> i == id
    {
      if v !in canonicals {
        canonicals := canonicals + [v];
      }
      id := Find(canonicals, v);
    }

    method RunFirstTransaction(k: nat)
      requires Valid() && k < |attempts| && attempts[k].stage == Claimed
      modifies this
      ensures Valid()
      ensures Now() == FirstTransaction(old(Now()), k)
    {
      hide Consistent;
      StepKeeps(Now(), Inside(k, First));
      var a := attempts[k];
      if !Holds(Now(), a) || a.verification >= |verifications| || a.release >= |releases| {
        End(k, Stopped);
        return;
      }
      var status := releases[a.release].status;
      if status != Stage2Passed && status != Preparing {
        End(k, Stopped);
        return;
      }
      if releases[a.release].epoch != verifications[a.verification].epoch {
        releases := releases[a.release := releases[a.release].(status := Correction)];
        End(k, Stopped);
        return;
      }
      releases := releases[a.release := releases[a.release].(status := Preparing)];
      var id := StoreCanonical(a.verification);
      End(k, Stored(id));
    }

    /** Nobody else in between: look, then insert. */
    method FreezePackage(k: nat)
      requires Valid() && k < |attempts| && attempts[k].stage.Stored?
      modifies this
      ensures Valid()
      ensures Now() == InsertPackage(LookForPackage(old(Now()), k), k)
      ensures attempts[k].stage.Frozen?
    {
      hide Consistent;
      ghost var looked := LookForPackage(Now(), k);
      StepKeeps(Now(), Inside(k, Look));
      StepKeeps(looked, Inside(k, Freeze));
      assert Consistent(InsertPackage(looked, k));
      var c := attempts[k].stage.canonical;
      if c !in packages {
        packages := packages + [c];
      }
      End(k, Frozen(Find(packages, c)));
      assert Now() == InsertPackage(looked, k);
    }

    method RunSecondTransaction(k: nat, recorded: bool)
      requires Valid() && k < |attempts| && attempts[k].stage.Checked?
      modifies this
      ensures Valid()
      ensures Now() == SecondTransaction(old(Now()), k, recorded)
    {
      hide Consistent;
      StepKeeps(Now(), Inside(k, Second(recorded)));
      ghost var s := Now();
      assert Consistent(SecondTransaction(s, k, recorded));
      hide Distinct, Insert, Next, Works, Holds, OnceAdded;
      var a := attempts[k];
      if !Holds(Now(), a) || !recorded || a.release >= |releases| {
        End(k, Stopped);
        return;
      }
      var p := a.stage.package;
      if releases[a.release].status == Preparing {
        releases := releases[a.release := releases[a.release].(status := Ready(k))];
      }
      ghost var t := Now();
      assert t == if s.releases[a.release].status == Preparing then SetStatus(s, a.release, Ready(k)) else s;
      RecordOutputs(p);
      assert Now() == t.(artifacts := Insert(t.artifacts, p),
                         handoffs := Insert(Insert(t.handoffs, Enqueue(p)), Staging(p)));
      End(k, Committed(p, a.stage.epoch));
    }

    /** The package's artifact and its two delivery jobs are there, once each, and every other row is as
        it was. */
    method RecordOutputs(p: nat)
      modifies this`artifacts, this`handoffs
      ensures artifacts == Insert(old(artifacts), p)
      ensures handoffs == Insert(Insert(old(handoffs), Enqueue(p)), Staging(p))
      ensures OnceAdded(old(artifacts), artifacts, p)
      ensures Enqueue(p) in handoffs && Staging(p) in handoffs
      ensures Enqueue(p) in old(handoffs) && Staging(p) in old(handoffs) ==> handoffs == old(handoffs)
      ensures old(handoffs) <= handoffs && (Distinct(old(handoffs)) ==> Distinct(handoffs))
      ensures forall h :: h in handoffs ==> h in old(handoffs) || h == Enqueue(p) || h == Staging(p)
    {
      if p !in artifacts {
        artifacts := artifacts + [p];
      }
      EnqueueOnce(Enqueue(p));
      EnqueueOnce(Staging(p));
    }

    /** One job per idempotency key: a second call with the key changes nothing. */
    method EnqueueOnce(h: Handoff)
      modifies this`handoffs
      ensures handoffs == Insert(old(handoffs), h)
      ensures OnceAdded(old(handoffs), handoffs, h)
    {
      if h !in handoffs {
        handoffs := handoffs + [h];
      }
    }
  }

  /** The row is there, the others are as they were and in their places, no key is there twice that was
      not, and nothing happens when the row was there. */
  predicate OnceAdded<T(==)>(before: seq<T>, after: seq<T>, x: T) {
    && x in after && before <= after
    && (forall y :: y in after ==> y in before || y == x)
    && (x in before ==> after == before)
    && (Distinct(before) ==> Distinct(after))
  }
}
