/**
  The Stage 3 worker (`run_prepare_release` of `distribution.rs`, leases of `operations.rs`): a leased
  job runs two fenced transactions with unfenced work between them. Workers may lose their lease,
  stop anywhere and be retried; rights epochs and release statuses move meanwhile.

  Every database transaction is one step; rows are identified by their position and never deleted.
*/
module Stage3 {
  /** `Ready` remembers the attempt that flipped the release. */
  datatype ReleaseStatus = Stage2Passed | Preparing | Correction | Ready(attempt: nat) | Elsewhere

  datatype Release = Release(status: ReleaseStatus, epoch: nat)

  /** A verification package pins the rights epoch Stage 2 saw. */
  datatype Verification = Verification(release: nat, epoch: nat)

  datatype JobStatus = Queued | Running | Finished

  /** `leased`: the lease has not run out. A job is claimed at most `limit` times; a dead one is
      `Finished` too. */
  datatype Job = Job(
    verification: nat, status: JobStatus, token: nat, leased: bool, claims: nat, limit: nat)

  /** Where an attempt stands. */
  datatype Stage =
    | Claimed
    | Stored(canonical: nat)
    | Missed(canonical: nat)
    | Frozen(package: nat)
    | Checked(package: nat, epoch: nat)
    | Committed(package: nat, epoch: nat)
    | Stopped

  datatype Attempt = Attempt(job: nat, token: nat, verification: nat, release: nat, stage: Stage)

  datatype Handoff = Enqueue(package: nat) | Staging(package: nat)

  /** `canonicals[i]` is the verification package of snapshot `i`, `packages[i]` the snapshot of
      frozen package `i`, `artifacts` the packages with preparation outputs, `handoffs` the delivery
      jobs by their idempotency key. */
  datatype State = State(
    releases: seq<Release>, verifications: seq<Verification>, jobs: seq<Job>, attempts: seq<Attempt>,
    canonicals: seq<nat>, packages: seq<nat>, artifacts: seq<nat>, handoffs: seq<Handoff>, next: nat)

  const EMPTY := State([], [], [], [], [], [], [], [], 0)

  // ---------------------------------------------------------------- inserts with a unique key

  predicate Distinct<T(==)>(xs: seq<T>) {
    forall i, j :: 0 <= i < j < |xs| ==> xs[i] != xs[j]
  }

  /** `ON CONFLICT DO NOTHING`, or look first. */
  function Insert<T(==)>(xs: seq<T>, x: T): (r: seq<T>)
    ensures Distinct(xs) ==> Distinct(r)
    ensures x in r && xs <= r
  {
    if x in xs then xs else xs + [x]
  }

  /** Position of the row with this key. */
  function Find(xs: seq<nat>, x: nat): (i: nat)
    requires x in xs
    ensures i < |xs| && xs[i] == x
  {
    if xs[0] == x then 0 else 1 + Find(xs[1..], x)
  }

  // ---------------------------------------------------------------- the worker's transactions

  /** The lease every fenced transaction checks. */
  predicate Holds(s: State, a: Attempt) {
    && a.job < |s.jobs| && s.jobs[a.job].status == Running
    && s.jobs[a.job].token == a.token && s.jobs[a.job].leased
  }

  function Move(s: State, k: nat, stage: Stage): State
    requires k < |s.attempts|
  {
    s.(attempts := s.attempts[k := s.attempts[k].(stage := stage)])
  }

  function SetStatus(s: State, r: nat, status: ReleaseStatus): State
    requires r < |s.releases|
  {
    s.(releases := s.releases[r := s.releases[r].(status := status)])
  }

  /** The first transaction: take the release into Stage 3, send it back when its rights moved, or
      store the canonical snapshot. */
  function FirstTransaction(s: State, k: nat): State
    requires k < |s.attempts|
  {
    var a := s.attempts[k];
    if a.stage != Claimed then s
    else if !Holds(s, a) then Move(s, k, Stopped)
    else if a.verification >= |s.verifications| || a.release >= |s.releases| then Move(s, k, Stopped)
    else if s.releases[a.release].status != Stage2Passed && s.releases[a.release].status != Preparing then
      Move(s, k, Stopped)
    else if s.releases[a.release].epoch != s.verifications[a.verification].epoch then
      Move(SetStatus(s, a.release, Correction), k, Stopped)
    else
      var t := SetStatus(s, a.release, Preparing).(canonicals := Insert(s.canonicals, a.verification));
      Move(t, k, Stored(Find(t.canonicals, a.verification)))
  }

  /** Freezing, first half: is there a package already? */
  function LookForPackage(s: State, k: nat): State
    requires k < |s.attempts|
  {
    var a := s.attempts[k];
    if !a.stage.Stored? then s
    else if a.stage.canonical in s.packages then Move(s, k, Frozen(Find(s.packages, a.stage.canonical)))
    else Move(s, k, Missed(a.stage.canonical))
  }

  /** Freezing, second half: insert, or take the row another attempt inserted meanwhile. */
  function InsertPackage(s: State, k: nat): State
    requires k < |s.attempts|
  {
    var a := s.attempts[k];
    if !a.stage.Missed? then s
    else
      var t := s.(packages := Insert(s.packages, a.stage.canonical));
      Move(t, k, Frozen(Find(t.packages, a.stage.canonical)))
  }

  /** Read the live epoch and run the checks; `passes` is the outcome of all the others. */
  function Preflight(s: State, k: nat, passes: bool): State
    requires k < |s.attempts|
  {
    var a := s.attempts[k];
    if !a.stage.Frozen? then s
    else if a.release < |s.releases| && a.verification < |s.verifications| && passes
            && s.releases[a.release].epoch == s.verifications[a.verification].epoch
    then Move(s, k, Checked(a.stage.package, s.releases[a.release].epoch))
    else Move(s, k, Stopped)
  }

  /** The second transaction: flip the release if it still prepares (the row count is not looked at),
      record the outputs, hand the package over. `recorded` is false when the identifier ledger
      refuses; then nothing is kept. */
  function SecondTransaction(s: State, k: nat, recorded: bool): State
    requires k < |s.attempts|
  {
    var a := s.attempts[k];
    if !a.stage.Checked? then s
    else if !Holds(s, a) || !recorded || a.release >= |s.releases| then Move(s, k, Stopped)
    else
      var p := a.stage.package;
      var t := if s.releases[a.release].status == Preparing then SetStatus(s, a.release, Ready(k)) else s;
      Move(t.(artifacts := Insert(s.artifacts, p),
              handoffs := Insert(Insert(s.handoffs, Enqueue(p)), Staging(p))),
           k, Committed(p, a.stage.epoch))
  }

  // ---------------------------------------------------------------- everything that can happen

  /** What happens around the workers. */
  datatype Event =
    | NewRelease
    | Verify(release: nat)
    | EpochMoves(release: nat)
    | OtherWriter(release: nat, status: ReleaseStatus)
    | NewJob(verification: nat, limit: nat)
    | Claim(job: nat)
    | LeaseRunsOut(job: nat)
    | Reclaim(job: nat, current: bool)
    | Finish(job: nat)

  /** What an attempt does next, or that it stops for good. */
  datatype Work = First | Look | Freeze | Check(passes: bool) | Second(recorded: bool) | Crash

  datatype Step = Outside(event: Event) | Inside(attempt: nat, work: Work)

  /** Out of attempts: the release goes to correction, unless a newer revision took its place. */
  function GiveUp(s: State, v: nat, current: bool): State {
    if v < |s.verifications| && s.verifications[v].release < |s.releases| && current
       && (s.releases[s.verifications[v].release].status == Stage2Passed
           || s.releases[s.verifications[v].release].status == Preparing)
    then SetStatus(s, s.verifications[v].release, Correction)
    else s
  }

  function Happens(s: State, e: Event): State {
    match e
    case NewRelease => s.(releases := s.releases + [Release(Stage2Passed, 0)])
    case Verify(r) =>
      if r < |s.releases| then s.(verifications := s.verifications + [Verification(r, s.releases[r].epoch)]) else s
    case EpochMoves(r) =>
      if r < |s.releases| then
        s.(releases := s.releases[r := s.releases[r].(epoch := s.releases[r].epoch + 1)])
      else s
    case OtherWriter(r, status) =>
      if r < |s.releases| && !status.Ready? then SetStatus(s, r, status) else s
    case NewJob(v, limit) =>
      if v < |s.verifications| then s.(jobs := s.jobs + [Job(v, Queued, 0, false, 0, limit)]) else s
    case Claim(j) =>
      if j < |s.jobs| && s.jobs[j].status == Queued && s.jobs[j].verification < |s.verifications|
         && s.jobs[j].claims < s.jobs[j].limit
      then
        var v, n := s.jobs[j].verification, s.jobs[j].claims + 1;
        s.(jobs := s.jobs[j := s.jobs[j].(status := Running, token := s.next, leased := true, claims := n)],
           attempts := s.attempts + [Attempt(j, s.next, v, s.verifications[v].release, Claimed)],
           next := s.next + 1)
      else s
    case LeaseRunsOut(j) =>
      if j < |s.jobs| then s.(jobs := s.jobs[j := s.jobs[j].(leased := false)]) else s
    case Reclaim(j, current) =>
      if j >= |s.jobs| || s.jobs[j].status != Running || s.jobs[j].leased then s
      else if s.jobs[j].claims < s.jobs[j].limit then s.(jobs := s.jobs[j := s.jobs[j].(status := Queued)])
      else GiveUp(s.(jobs := s.jobs[j := s.jobs[j].(status := Finished)]), s.jobs[j].verification, current)
    case Finish(j) =>
      if j < |s.jobs| then s.(jobs := s.jobs[j := s.jobs[j].(status := Finished, leased := false)]) else s
  }

  function Works(s: State, k: nat, w: Work): State
    requires k < |s.attempts|
  {
    match w
    case First => FirstTransaction(s, k)
    case Look => LookForPackage(s, k)
    case Freeze => InsertPackage(s, k)
    case Check(passes) => Preflight(s, k, passes)
    case Second(recorded) => SecondTransaction(s, k, recorded)
    case Crash => if s.attempts[k].stage.Committed? then s else Move(s, k, Stopped)
  }

  function Next(s: State, e: Step): State {
    match e
    case Outside(event) => Happens(s, event)
    case Inside(k, w) => if k < |s.attempts| then Works(s, k, w) else s
  }

  function Run(es: seq<Step>): State
    decreases |es|
  {
    if es == [] then EMPTY else Next(Run(es[..|es| - 1]), es[|es| - 1])
  }

  // ---------------------------------------------------------------- invariants

  /** One snapshot per verification package, one package per snapshot, one artifact per package, one
      delivery job per key. */
  predicate OneOfEach(s: State) {
    Distinct(s.canonicals) && Distinct(s.packages) && Distinct(s.artifacts) && Distinct(s.handoffs)
  }

  predicate PackageOf(s: State, p: nat, v: nat) {
    p < |s.packages| && s.packages[p] < |s.canonicals| && s.canonicals[s.packages[p]] == v
  }

  /** What an attempt holds belongs to its verification package; the epoch it read was the pin. */
  predicate Holdings(s: State, a: Attempt) {
    && a.job < |s.jobs| && a.verification < |s.verifications| && a.token < s.next
    && s.verifications[a.verification].release == a.release
    && s.jobs[a.job].verification == a.verification
    && (match a.stage
        case Claimed => true
        case Stored(c) => c < |s.canonicals| && s.canonicals[c] == a.verification
        case Missed(c) => c < |s.canonicals| && s.canonicals[c] == a.verification
        case Frozen(p) => PackageOf(s, p, a.verification)
        case Checked(p, e) => PackageOf(s, p, a.verification) && e == s.verifications[a.verification].epoch
        case Committed(p, e) =>
          && PackageOf(s, p, a.verification) && e == s.verifications[a.verification].epoch
          && p in s.artifacts && Enqueue(p) in s.handoffs && Staging(p) in s.handoffs
        case Stopped => true)
  }

  /** Rows point at rows that exist. */
  predicate Sound(s: State) {
    && (forall j :: 0 <= j < |s.jobs| ==> s.jobs[j].verification < |s.verifications|)
    && (forall v :: 0 <= v < |s.verifications| ==> s.verifications[v].release < |s.releases|)
    && (forall p :: 0 <= p < |s.packages| ==> s.packages[p] < |s.canonicals|)
    && (forall c :: 0 <= c < |s.canonicals| ==> s.canonicals[c] < |s.verifications|)
  }

  predicate AllHoldings(s: State) {
    Sound(s) && forall k :: 0 <= k < |s.attempts| ==> Holdings(s, s.attempts[k])
  }

  /** No two attempts ever hold the same token. */
  predicate TokensDiffer(s: State) {
    forall j, k :: 0 <= j < k < |s.attempts| ==> s.attempts[j].token != s.attempts[k].token
  }

  /** A release is ready by the doing of an attempt on one of its own verification packages that
      committed. */
  predicate ReadyIsCommitted(s: State) {
    forall r :: 0 <= r < |s.releases| && s.releases[r].status.Ready? ==>
      && s.releases[r].status.attempt < |s.attempts|
      && s.attempts[s.releases[r].status.attempt].stage.Committed?
      && s.attempts[s.releases[r].status.attempt].release == r
  }

  predicate Consistent(s: State) { OneOfEach(s) && AllHoldings(s) && TokensDiffer(s) && ReadyIsCommitted(s) }

  /** Rows are only added. */
  predicate Grows(s: State, t: State) {
    && |s.releases| <= |t.releases| && s.verifications <= t.verifications && |s.jobs| <= |t.jobs|
    && s.canonicals <= t.canonicals && s.packages <= t.packages && s.artifacts <= t.artifacts
    && s.handoffs <= t.handoffs && s.next <= t.next
    && forall j :: 0 <= j < |s.jobs| ==> t.jobs[j].verification == s.jobs[j].verification
  }

  lemma {:induction false} HoldingsGrow(s: State, t: State, a: Attempt)
    requires Holdings(s, a) && Grows(s, t)
    ensures Holdings(t, a)
  {
  }

  lemma {:induction false} WorkGrows(s: State, k: nat, w: Work)
    requires k < |s.attempts|
    ensures Grows(s, Works(s, k, w))
  {
  }

  lemma {:induction false} EventGrows(s: State, e: Event)
    ensures Grows(s, Happens(s, e))
  {
  }

  lemma {:induction false} StepOneOfEach(s: State, e: Step)
    requires OneOfEach(s)
    ensures OneOfEach(Next(s, e))
  {
    hide Distinct;
  }

  /** A worker's step changes the stage of its own attempt and of no other. */
  lemma {:induction false} WorkIsOwn(s: State, k: nat, w: Work)
    requires k < |s.attempts|
    ensures (var t := Works(s, k, w);
             && |t.attempts| == |s.attempts| && t.jobs == s.jobs && t.verifications == s.verifications
             && t.next == s.next && |t.releases| == |s.releases|
             && (forall i :: 0 <= i < |s.attempts| && i != k ==> t.attempts[i] == s.attempts[i])
             && t.attempts[k] == s.attempts[k].(stage := t.attempts[k].stage)
             && (t.attempts[k].stage != s.attempts[k].stage ==> !s.attempts[k].stage.Committed?))
  {
  }

  lemma {:induction false} FirstHolds(s: State, k: nat)
    requires AllHoldings(s) && k < |s.attempts|
    ensures Holdings(FirstTransaction(s, k), FirstTransaction(s, k).attempts[k])
    ensures Sound(FirstTransaction(s, k))
  {
    assert Holdings(s, s.attempts[k]);
    hide AllHoldings;
  }

  lemma {:induction false} FreezeHolds(s: State, k: nat)
    requires AllHoldings(s) && k < |s.attempts|
    ensures Holdings(LookForPackage(s, k), LookForPackage(s, k).attempts[k])
    ensures Holdings(InsertPackage(s, k), InsertPackage(s, k).attempts[k])
    ensures Sound(LookForPackage(s, k)) && Sound(InsertPackage(s, k))
  {
    assert Holdings(s, s.attempts[k]);
    hide AllHoldings;
  }

  lemma {:induction false} CheckHolds(s: State, k: nat, passes: bool)
    requires AllHoldings(s) && k < |s.attempts|
    ensures Holdings(Preflight(s, k, passes), Preflight(s, k, passes).attempts[k])
    ensures Sound(Preflight(s, k, passes))
  {
    assert Holdings(s, s.attempts[k]);
    hide AllHoldings;
  }

  lemma {:induction false} SecondHolds(s: State, k: nat, recorded: bool)
    requires AllHoldings(s) && k < |s.attempts|
    ensures Holdings(SecondTransaction(s, k, recorded), SecondTransaction(s, k, recorded).attempts[k])
    ensures Sound(SecondTransaction(s, k, recorded))
  {
    assert Holdings(s, s.attempts[k]);
    hide AllHoldings, Distinct;
  }

  lemma {:induction false} CrashHolds(s: State, k: nat)
    requires AllHoldings(s) && k < |s.attempts|
    ensures Holdings(Works(s, k, Crash), Works(s, k, Crash).attempts[k])
    ensures Sound(Works(s, k, Crash))
  {
    assert Holdings(s, s.attempts[k]);
    hide AllHoldings;
  }

  lemma {:induction false} WorkerHolds(s: State, k: nat, w: Work)
    requires AllHoldings(s) && k < |s.attempts|
    ensures Holdings(Works(s, k, w), Works(s, k, w).attempts[k]) && Sound(Works(s, k, w))
  {
    hide FirstTransaction, LookForPackage, InsertPackage, Preflight, SecondTransaction, AllHoldings, Holdings, Sound;
    match w
    case First => FirstHolds(s, k);
    case Look => FreezeHolds(s, k);
    case Freeze => FreezeHolds(s, k);
    case Check(passes) => CheckHolds(s, k, passes);
    case Second(recorded) => SecondHolds(s, k, recorded);
    case Crash => CrashHolds(s, k);
  }

  lemma {:induction false} WorkHoldings(s: State, k: nat, w: Work)
    requires AllHoldings(s) && k < |s.attempts|
    ensures AllHoldings(Works(s, k, w))
  {
    var t := Works(s, k, w);
    WorkGrows(s, k, w);
    WorkIsOwn(s, k, w);
    WorkerHolds(s, k, w);
    hide Works, Holdings, Grows;
    forall i | 0 <= i < |t.attempts| ensures Holdings(t, t.attempts[i]) {
      if i != k {
        HoldingsGrow(s, t, s.attempts[i]);
      }
    }
  }

  lemma {:induction false} EventHoldings(s: State, e: Event)
    requires AllHoldings(s)
    ensures AllHoldings(Happens(s, e))
  {
    var t := Happens(s, e);
    EventGrows(s, e);
    assert |s.attempts| <= |t.attempts| && t.attempts[..|s.attempts|] == s.attempts;
    forall i | 0 <= i < |t.attempts| ensures Holdings(t, t.attempts[i]) {
      if i < |s.attempts| {
        assert t.attempts[i] == s.attempts[i];
        HoldingsGrow(s, t, s.attempts[i]);
      }
    }
    hide Holdings;
    assert Sound(t);
  }

  lemma {:induction false} StepTokens(s: State, e: Step)
    requires AllHoldings(s) && TokensDiffer(s)
    ensures TokensDiffer(Next(s, e))
  {
    TokensIssued(s);
    hide AllHoldings;
    match e
    case Outside(event) =>
    case Inside(k, w) =>
      if k < |s.attempts| {
        WorkIsOwn(s, k, w);
        hide Works;
      }
  }

  lemma {:induction false} TokensIssued(s: State)
    requires AllHoldings(s)
    ensures forall k :: 0 <= k < |s.attempts| ==> s.attempts[k].token < s.next
  {
  }

  lemma {:induction false} WorkReady(s: State, k: nat, w: Work)
    requires ReadyIsCommitted(s) && k < |s.attempts|
    ensures ReadyIsCommitted(Works(s, k, w))
  {
    WorkIsOwn(s, k, w);
    var t := Works(s, k, w);
    assert forall r :: 0 <= r < |t.releases| && t.releases[r].status != s.releases[r].status
                       && t.releases[r].status.Ready? ==>
             t.releases[r].status.attempt == k && t.attempts[k].stage.Committed? && t.attempts[k].release == r;
    hide Works;
  }

  lemma {:induction false} EventReady(s: State, e: Event)
    requires ReadyIsCommitted(s)
    ensures ReadyIsCommitted(Happens(s, e))
  {
  }

  lemma {:induction false} StepKeeps(s: State, e: Step)
    requires Consistent(s)
    ensures Consistent(Next(s, e))
  {
    StepOneOfEach(s, e);
    StepTokens(s, e);
    hide Happens, Works, AllHoldings, ReadyIsCommitted, OneOfEach, TokensDiffer;
    match e
    case Outside(event) =>
      EventHoldings(s, event);
      EventReady(s, event);
    case Inside(k, w) =>
      if k < |s.attempts| {
        WorkHoldings(s, k, w);
        WorkReady(s, k, w);
      }
  }

  /** Every interleaving keeps all of it. */
  lemma {:induction false} RunKeeps(es: seq<Step>)
    ensures Consistent(Run(es))
    decreases |es|
  {
    hide Next;
    if es != [] {
      RunKeeps(es[..|es| - 1]);
      hide Consistent;
      StepKeeps(Run(es[..|es| - 1]), es[|es| - 1]);
    }
  }
}
