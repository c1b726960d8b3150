/**
  Which correction requests are accepted, at what an other one fails first, and what the accepted one
  asks for.
*/
module CorrectionRequests {
  import opened Common
  import opened TextBasics
  import opened Roles
  import opened Corrections

  // ---------------------------------------------------------------- one credit

  predicate WellFormed(c: Wanted) {
    1 <= |Trim(c.0)| <= 200 && 1 <= |Trim(c.1)| <= 80
  }

  /** Artists and featured artists are not for corrections, however the role is typed. */
  predicate ArtistRole(c: Wanted) {
    LowerAll(Trim(c.1)) in {"artist", "main artist", "featured artist", "featuring", "feat.", "feat"}
  }

  predicate GoodCredit(c: Wanted) { WellFormed(c) && !ArtistRole(c) }

  function Trimmed(c: Wanted): Wanted { (Trim(c.0), Trim(c.1)) }

  lemma {:induction false} CreditErrorIs(c: Wanted)
    ensures CreditError(c) == if !WellFormed(c) then Some(Invalid) else if ArtistRole(c) then Some(ArtistLocked)
                              else None
  {
    hide Trim, LockedRole, LowerAll;
    RolesAreKnown(Trim(c.1));
    TrimTidy(Trim(c.1));
  }

  // ---------------------------------------------------------------- the credits of a track

  /** The trimmed credits, each once, in the order of their first appearance. */
  ghost predicate OnceEach(out: seq<Wanted>, cs: seq<Wanted>) {
    && (forall k :: 0 <= k < |cs| ==> Trimmed(cs[k]) in out)
    && (forall i, j :: 0 <= i < j < |out| ==> out[i] != out[j])
    && (forall i :: 0 <= i < |out| ==> Found(cs, out[i]))
    && (forall i, j, k, l :: 0 <= i < j < |out| && FirstAt(cs, k, out[i]) && FirstAt(cs, l, out[j]) ==> k < l)
  }

  /** The first credit that is `c` when trimmed. */
  predicate FirstAt(cs: seq<Wanted>, k: int, c: Wanted) {
    0 <= k < |cs| && Trimmed(cs[k]) == c && forall j :: 0 <= j < k ==> Trimmed(cs[j]) != c
  }

  ghost predicate Found(cs: seq<Wanted>, c: Wanted) { exists k :: FirstAt(cs, k, c) }

  /** The first credit that is not good decides the error. */
  predicate FailsAt(cs: seq<Wanted>, k: int, e: CorrectionError) {
    && 0 <= k < |cs| && !GoodCredit(cs[k]) && (forall j :: 0 <= j < k ==> GoodCredit(cs[j]))
    && e == if WellFormed(cs[k]) then ArtistLocked else Invalid
  }

  predicate AllGood(cs: seq<Wanted>) { forall k :: 0 <= k < |cs| ==> GoodCredit(cs[k]) }

  lemma {:induction false} FirstStays(cs: seq<Wanted>, k: int, c: Wanted)
    requires cs != []
    ensures FirstAt(cs[..|cs| - 1], k, c) ==> FirstAt(cs, k, c)
    ensures FirstAt(cs, k, c) && k < |cs| - 1 ==> FirstAt(cs[..|cs| - 1], k, c)
  {
    hide Trimmed;
    assert forall j :: 0 <= j < |cs| - 1 ==> cs[..|cs| - 1][j] == cs[j];
  }

  lemma {:induction false} CreditsOutcome(cs: seq<Wanted>)
    ensures CleanCredits(cs).Ok? <==> AllGood(cs)
    ensures CleanCredits(cs).Ok? ==> OnceEach(CleanCredits(cs).value, cs)
    ensures CleanCredits(cs).Err? ==> exists k :: FailsAt(cs, k, CleanCredits(cs).error)
    decreases |cs|
  {
    hide WellFormed, ArtistRole, CreditError, OnceEach;
    if cs == [] {
      NothingOnce();
    } else {
      var n := |cs| - 1;
      var q := cs[..n];
      CreditsOutcome(q);
      match CleanCredits(q) {
        case Err(e) =>
          var k :| FailsAt(q, k, e);
          assert FailsAt(cs, k, e);
        case Ok(done) => LastCredit(done, cs);
      }
    }
  }

  lemma {:induction false} LastCredit(done: seq<Wanted>, cs: seq<Wanted>)
    requires cs != [] && CleanCredits(cs[..|cs| - 1]) == Ok(done)
    requires AllGood(cs[..|cs| - 1]) && OnceEach(done, cs[..|cs| - 1])
    ensures CleanCredits(cs).Ok? <==> AllGood(cs)
    ensures CleanCredits(cs).Ok? ==> OnceEach(CleanCredits(cs).value, cs)
    ensures CleanCredits(cs).Err? ==> FailsAt(cs, |cs| - 1, CleanCredits(cs).error)
  {
    hide WellFormed, ArtistRole, CreditError, OnceEach;
    var n := |cs| - 1;
    CreditErrorIs(cs[n]);
    assert forall k :: 0 <= k < n ==> cs[..n][k] == cs[k];
    if CreditError(cs[n]).None? {
      OnceMore(done, CleanCredits(cs).value, cs);
    }
  }

  lemma {:induction false} NothingOnce()
    ensures OnceEach([], [])
  {
  }

  predicate OneMore(done: seq<Wanted>, out: seq<Wanted>, t: Wanted) {
    out == if t in done then done else done + [t]
  }

  lemma {:induction false} OnceMore(done: seq<Wanted>, out: seq<Wanted>, cs: seq<Wanted>)
    requires cs != [] && OnceEach(done, cs[..|cs| - 1]) && OneMore(done, out, Trimmed(cs[|cs| - 1]))
    ensures OnceEach(out, cs)
  {
    hide Trimmed, FirstAt, Found;
    var n := |cs| - 1;
    var q, t := cs[..n], Trimmed(cs[n]);
    assert forall k :: 0 <= k < n ==> cs[k] == q[k] && Trimmed(q[k]) in done;
    forall i | 0 <= i < |out| ensures Found(cs, out[i]) {
      FoundFirst(done, out, cs, i);
    }
    forall i, j, k, l | 0 <= i < j < |out| && FirstAt(cs, k, out[i]) && FirstAt(cs, l, out[j]) ensures k < l {
      InOrderOfFirst(done, out, cs, i, j, k, l);
    }
  }

  lemma {:induction false} FoundFirst(done: seq<Wanted>, out: seq<Wanted>, cs: seq<Wanted>, i: nat)
    requires cs != [] && OnceEach(done, cs[..|cs| - 1]) && OneMore(done, out, Trimmed(cs[|cs| - 1])) && i < |out|
    ensures Found(cs, out[i])
  {
    hide Trimmed;
    var n := |cs| - 1;
    var q, t := cs[..n], Trimmed(cs[n]);
    if i < |done| {
      assert Found(q, done[i]);
      var k :| FirstAt(q, k, done[i]);
      FirstStays(cs, k, done[i]);
    } else {
      assert forall j :: 0 <= j < n ==> cs[j] == q[j] && Trimmed(q[j]) in done;
      assert FirstAt(cs, n, t);
    }
  }

  lemma {:induction false} InOrderOfFirst(done: seq<Wanted>, out: seq<Wanted>, cs: seq<Wanted>,
                                          i: nat, j: nat, k: int, l: int)
    requires cs != [] && OnceEach(done, cs[..|cs| - 1]) && OneMore(done, out, Trimmed(cs[|cs| - 1]))
    requires i < j < |out| && FirstAt(cs, k, out[i]) && FirstAt(cs, l, out[j])
    ensures k < l
  {
    hide Trimmed;
    OldIsEarlier(done, cs, i, k);
    FirstStays(cs, k, done[i]);
    if j < |done| {
      OldIsEarlier(done, cs, j, l);
      FirstStays(cs, l, done[j]);
    } else {
      NewIsLast(done, cs, l);
    }
  }

  /** What was kept so far first stands before the last credit. */
  lemma {:induction false} OldIsEarlier(done: seq<Wanted>, cs: seq<Wanted>, i: nat, k: int)
    requires cs != [] && OnceEach(done, cs[..|cs| - 1]) && i < |done| && FirstAt(cs, k, done[i])
    ensures k < |cs| - 1
  {
    hide Trimmed;
    var q := cs[..|cs| - 1];
    assert Found(q, done[i]);
    var p :| FirstAt(q, p, done[i]);
    assert cs[p] == q[p];
  }

  lemma {:induction false} NewIsLast(done: seq<Wanted>, cs: seq<Wanted>, l: int)
    requires cs != [] && OnceEach(done, cs[..|cs| - 1])
    requires Trimmed(cs[|cs| - 1]) !in done && FirstAt(cs, l, Trimmed(cs[|cs| - 1]))
    ensures l == |cs| - 1
  {
    hide Trimmed;
    var q := cs[..|cs| - 1];
    assert forall j :: 0 <= j < |q| ==> q[j] == cs[j] && Trimmed(q[j]) in done;
  }

  // ---------------------------------------------------------------- the whole request

  predicate GoodGenre(r: Request) { r.genre.Some? ==> 1 <= |Trim(r.genre.value)| <= 60 }

  /** A track of the release, not named before, with at most fifty credits. */
  predicate GoodTrack(ts: seq<WantedTrack>, k: nat, known: set<nat>)
    requires k < |ts|
  {
    ts[k].track in known && |ts[k].credits| <= 50 && forall j :: 0 <= j < k ==> ts[j].track != ts[k].track
  }

  predicate TrackPasses(ts: seq<WantedTrack>, k: nat, known: set<nat>)
    requires k < |ts|
  {
    GoodTrack(ts, k, known) && AllGood(ts[k].credits)
  }

  predicate AllPass(ts: seq<WantedTrack>, known: set<nat>) {
    forall k :: 0 <= k < |ts| ==> TrackPasses(ts, k, known)
  }

  /** The first track that does not pass decides the error: an invalid track, or its first bad credit. */
  ghost predicate TracksFailAt(ts: seq<WantedTrack>, known: set<nat>, k: int, e: CorrectionError) {
    && 0 <= k < |ts| && !TrackPasses(ts, k, known)
    && (forall j :: 0 <= j < k ==> TrackPasses(ts, j, known))
    && (if !GoodTrack(ts, k, known) then e == Invalid else exists c :: FailsAt(ts[k].credits, c, e))
  }

  /** The tracks asked for, in order, each with its credits once. */
  ghost predicate Asks(out: seq<WantedTrack>, ts: seq<WantedTrack>) {
    |out| == |ts| && forall k :: 0 <= k < |ts| ==>
      out[k].track == ts[k].track && OnceEach(out[k].credits, ts[k].credits)
  }

  lemma {:induction false} Shorter(ts: seq<WantedTrack>, known: set<nat>)
    requires ts != []
    ensures forall k :: 0 <= k < |ts| - 1 ==>
              (TrackPasses(ts[..|ts| - 1], k, known) <==> TrackPasses(ts, k, known))
              && (GoodTrack(ts[..|ts| - 1], k, known) <==> GoodTrack(ts, k, known))
  {
    hide AllGood;
    var q := ts[..|ts| - 1];
    forall k | 0 <= k < |ts| - 1
      ensures (TrackPasses(q, k, known) <==> TrackPasses(ts, k, known))
              && (GoodTrack(q, k, known) <==> GoodTrack(ts, k, known))
    {
      assert forall j :: 0 <= j <= k ==> q[j] == ts[j];
    }
  }

  lemma {:induction false} TracksOutcome(ts: seq<WantedTrack>, known: set<nat>)
    ensures CleanTracks(ts, known).Ok? <==> AllPass(ts, known)
    ensures CleanTracks(ts, known).Ok? ==> Asks(CleanTracks(ts, known).value, ts)
    ensures CleanTracks(ts, known).Err? ==> exists k :: TracksFailAt(ts, known, k, CleanTracks(ts, known).error)
    decreases |ts|
  {
    hide CleanCredits, AllGood, OnceEach, FailsAt, TrackPasses, GoodTrack;
    if ts != [] {
      var n := |ts| - 1;
      var q := ts[..n];
      TracksOutcome(q, known);
      Shorter(ts, known);
      match CleanTracks(q, known) {
        case Err(e) =>
          var k :| TracksFailAt(q, known, k, e);
          assert q[k] == ts[k];
          assert TracksFailAt(ts, known, k, e);
        case Ok(done) => LastTrack(ts, known, done);
      }
    }
  }

  lemma {:induction false} LastTrack(ts: seq<WantedTrack>, known: set<nat>, done: seq<WantedTrack>)
    requires ts != [] && CleanTracks(ts[..|ts| - 1], known) == Ok(done) && Asks(done, ts[..|ts| - 1])
    requires forall k :: 0 <= k < |ts| - 1 ==> TrackPasses(ts, k, known)
    ensures CleanTracks(ts, known).Ok? <==> TrackPasses(ts, |ts| - 1, known)
    ensures CleanTracks(ts, known).Ok? ==> Asks(CleanTracks(ts, known).value, ts)
    ensures CleanTracks(ts, known).Err? ==> TracksFailAt(ts, known, |ts| - 1, CleanTracks(ts, known).error)
  {
    hide CleanCredits, AllGood, OnceEach, FailsAt;
    var n := |ts| - 1;
    CreditsOutcome(ts[n].credits);
    NamedAre(ts, done);
  }

  lemma {:induction false} NamedAre(ts: seq<WantedTrack>, done: seq<WantedTrack>)
    requires ts != [] && Asks(done, ts[..|ts| - 1])
    ensures Corrections.Named(done, ts[|ts| - 1].track)
       <==> exists j :: 0 <= j < |ts| - 1 && ts[j].track == ts[|ts| - 1].track
  {
    hide OnceEach;
    var n := |ts| - 1;
    if j :| 0 <= j < n && ts[j].track == ts[n].track {
      assert ts[..n][j] == ts[j];
      assert done[j].track == ts[n].track;
    }
  }

  /** A request is accepted exactly when its genre, if it has one, has a length of 1 to 60, every track is
      one of the release, named once and with at most fifty good credits, and it asks for something. */
  lemma {:induction false} AcceptedExactlyWhen(r: Request, known: set<nat>)
    ensures Normalized(r, known).Ok? <==>
              GoodGenre(r) && AllPass(r.tracks, known) && (r.genre.Some? || r.tracks != [])
    ensures Normalized(r, known).Ok? ==>
              && Normalized(r, known).value.genre == (if r.genre.Some? then Some(Trim(r.genre.value)) else None)
              && Asks(Normalized(r, known).value.tracks, r.tracks)
  {
    hide Trim, CleanTracks, AllPass, OnceEach;
    TracksOutcome(r.tracks, known);
  }

  /** What is wrong first decides the answer: the genre, then the first track that does not pass, then
      that nothing is asked. */
  lemma {:induction false} RefusedAtTheFirst(r: Request, known: set<nat>)
    requires Normalized(r, known).Err?
    ensures (var e := Normalized(r, known).error;
             if !GoodGenre(r) then e == Invalid
             else if !AllPass(r.tracks, known) then exists k :: TracksFailAt(r.tracks, known, k, e)
             else e == Empty && r.genre.None? && r.tracks == [])
  {
    hide Trim, CleanTracks, AllPass, OnceEach, TracksFailAt;
    TracksOutcome(r.tracks, known);
  }

  // ---------------------------------------------------------------- what an update carries

  /** A credit of an artist or a featured artist. */
  predicate Protected(c: Credit) {
    LowerAll(Trim(c.role)) in {"artist", "main artist", "featured artist", "featuring", "feat.", "feat"}
  }

  /** `at` are the places of the protected credits, in order, and `out` is what stands there. */
  predicate KeptAt(out: seq<Credit>, cs: seq<Credit>, at: seq<nat>) {
    && |at| == |out|
    && (forall i :: 0 <= i < |at| ==> at[i] < |cs| && Protected(cs[at[i]]) && out[i] == cs[at[i]])
    && (forall i, j :: 0 <= i < j < |at| ==> at[i] < at[j])
    && (forall k :: 0 <= k < |cs| && Protected(cs[k]) ==> k in at)
  }

  /** The credits a correction leaves in place are the artists', all of them, in their order. */
  lemma {:induction false} ArtistsAreKept(cs: seq<Credit>) returns (at: seq<nat>)
    ensures KeptAt(Locked(cs), cs, at)
    decreases |cs|
  {
    hide LockedRole, Protected, KeptAt;
    at := [];
    if cs == [] {
      NothingKept();
    } else {
      var n := |cs| - 1;
      at := ArtistsAreKept(cs[..n]);
      LockedIsProtected(cs[n]);
      KeptMore(Locked(cs[..n]), cs, at);
      if Protected(cs[n]) {
        at := at + [n];
      } else {
        assert Locked(cs[..n]) + [] == Locked(cs[..n]);
      }
    }
  }

  lemma {:induction false} NothingKept()
    ensures KeptAt([], [], [])
  {
  }

  lemma {:induction false} KeptMore(out: seq<Credit>, cs: seq<Credit>, at: seq<nat>)
    requires cs != [] && KeptAt(out, cs[..|cs| - 1], at)
    ensures Protected(cs[|cs| - 1]) ==> KeptAt(out + [cs[|cs| - 1]], cs, at + [|cs| - 1])
    ensures !Protected(cs[|cs| - 1]) ==> KeptAt(out, cs, at)
  {
    hide Protected;
    var n := |cs| - 1;
    assert forall k :: 0 <= k < n ==> cs[..n][k] == cs[k];
    assert (at + [n])[|at|] == n;
  }

  lemma {:induction false} LockedIsProtected(c: Credit)
    ensures LockedRole(c.role) <==> Protected(c)
  {
    hide LockedRole, LowerAll, Trim;
    RolesAreKnown(c.role);
  }

  predicate Mentions(fixes: seq<Fix>, id: nat) { exists i :: 0 <= i < |fixes| && fixes[i].track == id }

  /** The correction's last entry for the track. */
  predicate LastEntry(fixes: seq<Fix>, id: nat, i: int) {
    0 <= i < |fixes| && fixes[i].track == id && forall j :: i < j < |fixes| ==> fixes[j].track != id
  }

  /** The last correction that names the track. */
  predicate LastNaming(cs: seq<Correction>, id: nat, k: int) {
    0 <= k < |cs| && Mentions(cs[k].fixes, id) && forall j :: k < j < |cs| ==> !Mentions(cs[j].fixes, id)
  }

  lemma {:induction false} EntryOrNot(fixes: seq<Fix>, id: nat)
    ensures FixFor(fixes, id).Some? <==> Mentions(fixes, id)
    decreases |fixes|
  {
    if fixes != [] {
      var n := |fixes| - 1;
      EntryOrNot(fixes[..n], id);
      assert forall i :: 0 <= i < n ==> fixes[..n][i] == fixes[i];
      if i :| 0 <= i < n && fixes[i].track == id {
        assert fixes[..n][i].track == id;
      }
    }
  }

  lemma {:induction false} FixIsLastEntry(fixes: seq<Fix>, id: nat, i: int)
    requires LastEntry(fixes, id, i)
    ensures FixFor(fixes, id) == Some(fixes[i].credits)
    decreases |fixes|
  {
    var n := |fixes| - 1;
    if i < n {
      assert forall j :: 0 <= j < n ==> fixes[..n][j] == fixes[j];
      FixIsLastEntry(fixes[..n], id, i);
    }
  }

  lemma {:induction false} NoneNaming(cs: seq<Correction>, id: nat)
    ensures LastFix(cs, id).None? <==> forall k :: 0 <= k < |cs| ==> !Mentions(cs[k].fixes, id)
    decreases |cs|
  {
    hide Mentions, FixFor;
    if cs != [] {
      var n := |cs| - 1;
      NoneNaming(cs[..n], id);
      EntryOrNot(cs[n].fixes, id);
      assert forall k :: 0 <= k < n ==> cs[..n][k] == cs[k];
    }
  }

  lemma {:induction false} LastFixIs(cs: seq<Correction>, id: nat, k: int)
    requires LastNaming(cs, id, k)
    ensures LastFix(cs, id) == FixFor(cs[k].fixes, id)
    decreases |cs|
  {
    hide Mentions, FixFor;
    var n := |cs| - 1;
    EntryOrNot(cs[n].fixes, id);
    if k < n {
      assert forall j :: 0 <= j < n ==> cs[..n][j] == cs[j];
      LastFixIs(cs[..n], id, k);
    }
  }

  /** What an update sends of a track: its artists' credits as they were, then those of the last entry of
      the last correction that names it; a track no correction names is sent as it was. */
  lemma {:induction false} UpdateCarries(t: Corrections.Track, cs: seq<Correction>)
    requires Clean(cs)
    ensures (forall k :: 0 <= k < |cs| ==> !Mentions(cs[k].fixes, t.id)) ==> CorrectedBy(t, cs) == t
    ensures forall k, i :: LastNaming(cs, t.id, k) && LastEntry(cs[k].fixes, t.id, i) ==>
              CorrectedBy(t, cs) == Corrections.Track(t.id, Locked(t.credits) + cs[k].fixes[i].credits)
  {
    hide Mentions, FixFor, LastFix, CorrectedBy, Locked, Clean;
    FoldIsClosedForm(t, cs);
    NoneNaming(cs, t.id);
    forall k, i | LastNaming(cs, t.id, k) && LastEntry(cs[k].fixes, t.id, i)
      ensures CorrectedBy(t, cs) == Corrections.Track(t.id, Locked(t.credits) + cs[k].fixes[i].credits)
    {
      LastFixIs(cs, t.id, k);
      FixIsLastEntry(cs[k].fixes, t.id, i);
    }
  }

  /** The genre is that of the last correction that has one. */
  lemma {:induction false} LastGenre(cs: seq<Correction>)
    ensures GenreBy(cs).None? <==> forall k :: 0 <= k < |cs| ==> cs[k].genre.None?
    ensures forall k :: 0 <= k < |cs| && cs[k].genre.Some? && (forall j :: k < j < |cs| ==> cs[j].genre.None?) ==>
              GenreBy(cs) == cs[k].genre
    decreases |cs|
  {
    if cs != [] {
      var n := |cs| - 1;
      LastGenre(cs[..n]);
      assert forall k :: 0 <= k < n ==> cs[..n][k] == cs[k];
    }
  }
}
