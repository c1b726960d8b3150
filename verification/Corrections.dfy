/**
  Metadata corrections (`corrections.rs`): checking a request, and folding the approved ones over a
  release. The fold is compared with its closed form: the locked credits a track had, then the
  credits of the last correction that names it.
*/
module Corrections {
  import opened Common
  import opened TextBasics
  import opened Roles

  datatype Credit = Credit(party: nat, name: string, role: string)

  datatype Fix = Fix(track: nat, credits: seq<Credit>)

  datatype Correction = Correction(genre: Option<string>, fixes: seq<Fix>)

  datatype Track = Track(id: nat, credits: seq<Credit>)

  // ---------------------------------------------------------------- checking a request

  datatype CorrectionError = Invalid | ArtistLocked | Empty

  /** Name and role of one wanted credit, trimmed. */
  type Wanted = (string, string)

  datatype WantedTrack = WantedTrack(track: nat, credits: seq<Wanted>)

  datatype Request = Request(genre: Option<string>, tracks: seq<WantedTrack>)

  function CreditError(c: Wanted): Option<CorrectionError> {
    var (name, role) := (Trim(c.0), Trim(c.1));
    if name == "" || |name| > 200 || role == "" || |role| > 80 then Some(Invalid)
    else if LockedRole(role) then Some(ArtistLocked)
    else None
  }

  /** Trimmed credits without repetitions, or the first error. */
  function CleanCredits(cs: seq<Wanted>): Result<seq<Wanted>, CorrectionError>
    decreases |cs|
  {
    if cs == [] then Ok([])
    else
      match CleanCredits(cs[..|cs| - 1])
      case Err(e) => Err(e)
      case Ok(done) =>
        var c := cs[|cs| - 1];
        match CreditError(c)
        case Some(e) => Err(e)
        case None =>
          var t := (Trim(c.0), Trim(c.1));
          Ok(if t in done then done else done + [t])
  }

  predicate Named(ts: seq<WantedTrack>, id: nat) {
    exists i :: 0 <= i < |ts| && ts[i].track == id
  }

  /** The tracks of a request, each a track of the release and named once. */
  function CleanTracks(ts: seq<WantedTrack>, known: set<nat>): Result<seq<WantedTrack>, CorrectionError>
    decreases |ts|
  {
    if ts == [] then Ok([])
    else
      match CleanTracks(ts[..|ts| - 1], known)
      case Err(e) => Err(e)
      case Ok(done) =>
        var t := ts[|ts| - 1];
        if t.track !in known || Named(done, t.track) || |t.credits| > 50 then Err(Invalid)
        else
          match CleanCredits(t.credits)
          case Err(e) => Err(e)
          case Ok(cs) => Ok(done + [WantedTrack(t.track, cs)])
  }

  function Normalized(r: Request, known: set<nat>): Result<Request, CorrectionError> {
    if r.genre.Some? && (Trim(r.genre.value) == "" || |Trim(r.genre.value)| > 60) then Err(Invalid)
    else
      match CleanTracks(r.tracks, known)
      case Err(e) => Err(e)
      case Ok(ts) =>
        if r.genre.None? && ts == [] then Err(Empty)
        else Ok(Request(if r.genre.Some? then Some(Trim(r.genre.value)) else None, ts))
  }

  method NormalizeCredits(cs: seq<Wanted>) returns (r: Result<seq<Wanted>, CorrectionError>)
    ensures r == CleanCredits(cs)
  {
    var credits: seq<Wanted> := [];
    var keys: set<Wanted> := {};
    var i := 0;
    while i < |cs|
      invariant 0 <= i <= |cs|
      invariant CleanCredits(cs[..i]) == Ok(credits)
      invariant forall c :: c in keys <==> c in credits
    {
      assert cs[..i + 1][..i] == cs[..i];
      var (name, role) := (Trim(cs[i].0), Trim(cs[i].1));
      i := i + 1;
      var error := CreditError(cs[i - 1]);
      if error.Some? {
        CreditsStop(cs, i);
        return Err(error.value);
      }
      if (name, role) !in keys {
        keys := keys + {(name, role)};
        credits := credits + [(name, role)];
      }
    }
    assert cs[..i] == cs;
    r := Ok(credits);
  }

  lemma {:induction false} CreditsStop(cs: seq<Wanted>, i: nat)
    requires i <= |cs| && CleanCredits(cs[..i]).Err?
    ensures CleanCredits(cs) == CleanCredits(cs[..i])
    decreases |cs|
  {
    hide CreditError;
    if i == |cs| {
      assert cs[..i] == cs;
    } else {
      assert cs[..|cs| - 1][..i] == cs[..i];
      CreditsStop(cs[..|cs| - 1], i);
    }
  }

  method Normalize(r: Request, known: set<nat>) returns (out: Result<Request, CorrectionError>)
    ensures out == Normalized(r, known)
  {
    hide CleanCredits;
    if r.genre.Some? && (Trim(r.genre.value) == "" || |Trim(r.genre.value)| > 60) {
      return Err(Invalid);
    }
    var tracks: seq<WantedTrack> := [];
    var seen: set<nat> := {};
    var i := 0;
    while i < |r.tracks|
      invariant 0 <= i <= |r.tracks|
      invariant CleanTracks(r.tracks[..i], known) == Ok(tracks)
      invariant forall id :: id in seen <==> Named(tracks, id)
    {
      assert r.tracks[..i + 1][..i] == r.tracks[..i];
      var t := r.tracks[i];
      i := i + 1;
      if t.track !in known || t.track in seen || |t.credits| > 50 {
        TracksStop(r.tracks, i, known);
        return Err(Invalid);
      }
      var cs := NormalizeCredits(t.credits);
      if cs.Err? {
        TracksStop(r.tracks, i, known);
        return Err(cs.error);
      }
      NamedPlus(tracks, WantedTrack(t.track, cs.value));
      seen := seen + {t.track};
      tracks := tracks + [WantedTrack(t.track, cs.value)];
    }
    assert r.tracks[..i] == r.tracks;
    if r.genre.None? && tracks == [] {
      return Err(Empty);
    }
    out := Ok(Request(if r.genre.Some? then Some(Trim(r.genre.value)) else None, tracks));
  }

  lemma {:induction false} NamedPlus(ts: seq<WantedTrack>, t: WantedTrack)
    ensures forall id :: Named(ts + [t], id) <==> Named(ts, id) || id == t.track
  {
    forall id ensures Named(ts + [t], id) <==> Named(ts, id) || id == t.track {
      assert (ts + [t])[|ts|] == t;
      if Named(ts, id) {
        var i :| 0 <= i < |ts| && ts[i].track == id;
        assert (ts + [t])[i].track == id;
      }
    }
  }

  lemma {:induction false} TracksStop(ts: seq<WantedTrack>, i: nat, known: set<nat>)
    requires i <= |ts| && CleanTracks(ts[..i], known).Err?
    ensures CleanTracks(ts, known) == CleanTracks(ts[..i], known)
    decreases |ts|
  {
    hide CleanCredits;
    if i == |ts| {
      assert ts[..i] == ts;
    } else {
      assert ts[..|ts| - 1][..i] == ts[..i];
      TracksStop(ts[..|ts| - 1], i, known);
    }
  }

  predicate CleanList(cs: seq<Wanted>) {
    && (forall i :: 0 <= i < |cs| ==> !LockedRole(cs[i].1) && cs[i].0 != "" && cs[i].1 != "")
    && (forall i, j :: 0 <= i < j < |cs| ==> cs[i] != cs[j])
  }

  lemma {:induction false} CleanCreditsAre(cs: seq<Wanted>)
    requires CleanCredits(cs).Ok?
    ensures CleanList(CleanCredits(cs).value)
    decreases |cs|
  {
    hide LockedRole, Trim;
    if cs != [] {
      CleanCreditsAre(cs[..|cs| - 1]);
    }
  }

  /** An accepted request names tracks of the release, each once, and only credits that are not an
      artist's, none twice. */
  lemma {:induction false} NormalizedIsClean(r: Request, known: set<nat>)
    requires Normalized(r, known).Ok?
    ensures (var ts := Normalized(r, known).value.tracks;
             && (forall i :: 0 <= i < |ts| ==> ts[i].track in known && CleanList(ts[i].credits))
             && (forall i, j :: 0 <= i < j < |ts| ==> ts[i].track != ts[j].track))
  {
    CleanTracksAre(r.tracks, known);
  }

  lemma {:induction false} CleanTracksAre(ts: seq<WantedTrack>, known: set<nat>)
    requires CleanTracks(ts, known).Ok?
    ensures (var out := CleanTracks(ts, known).value;
             && (forall i :: 0 <= i < |out| ==> out[i].track in known && CleanList(out[i].credits))
             && (forall i, j :: 0 <= i < j < |out| ==> out[i].track != out[j].track))
    decreases |ts|
  {
    hide CleanList, CleanCredits;
    if ts != [] {
      CleanTracksAre(ts[..|ts| - 1], known);
      CleanCreditsAre(ts[|ts| - 1].credits);
    }
  }

  // ---------------------------------------------------------------- approving a request

  /** The organisation's party of this display name, created when missing; `parties` holds the names by
      row. Of several parties of one name the first row is taken, where the query takes the least id. */
  function Party(parties: seq<string>, name: string): (r: (seq<string>, nat))
    ensures parties <= r.0 && r.1 < |r.0| && r.0[r.1] == name
    ensures name in parties ==> r.0 == parties
  {
    if parties == [] then ([name], 0)
    else if parties[0] == name then (parties, 0)
    else
      var (rest, i) := Party(parties[1..], name);
      ([parties[0]] + rest, i + 1)
  }

  function ApprovedCredits(parties: seq<string>, cs: seq<Wanted>): (seq<string>, seq<Credit>)
    decreases |cs|
  {
    if cs == [] then (parties, [])
    else
      var (before, done) := ApprovedCredits(parties, cs[..|cs| - 1]);
      var c := cs[|cs| - 1];
      var (after, id) := Party(before, c.0);
      (after, done + [Credit(id, c.0, c.1)])
  }

  function ApprovedFixes(parties: seq<string>, ts: seq<WantedTrack>): (seq<string>, seq<Fix>)
    decreases |ts|
  {
    if ts == [] then (parties, [])
    else
      var (before, done) := ApprovedFixes(parties, ts[..|ts| - 1]);
      var (after, credits) := ApprovedCredits(before, ts[|ts| - 1].credits);
      (after, done + [Fix(ts[|ts| - 1].track, credits)])
  }

  /** The parties after the approval and the correction it records. */
  function Approval(parties: seq<string>, r: Request): (seq<string>, Correction) {
    var (after, fixes) := ApprovedFixes(parties, r.tracks);
    (after, Correction(r.genre, fixes))
  }

  /** Staff approve a stored request. */
  method Approve(parties: seq<string>, r: Request) returns (after: seq<string>, c: Correction)
    ensures (after, c) == Approval(parties, r)
  {
    hide Party;
    var applied: seq<Fix> := [];
    after := parties;
    var i := 0;
    while i < |r.tracks|
      invariant 0 <= i <= |r.tracks|
      invariant (after, applied) == ApprovedFixes(parties, r.tracks[..i])
    {
      assert r.tracks[..i + 1][..i] == r.tracks[..i];
      ghost var before := after;
      var cs := r.tracks[i].credits;
      var credits: seq<Credit> := [];
      var j := 0;
      while j < |cs|
        invariant 0 <= j <= |cs|
        invariant (after, credits) == ApprovedCredits(before, cs[..j])
      {
        assert cs[..j + 1][..j] == cs[..j];
        var (more, id) := Party(after, cs[j].0);
        after, credits := more, credits + [Credit(id, cs[j].0, cs[j].1)];
        j := j + 1;
      }
      assert cs[..j] == cs;
      applied := applied + [Fix(r.tracks[i].track, credits)];
      i := i + 1;
    }
    assert r.tracks[..i] == r.tracks;
    c := Correction(r.genre, applied);
  }

  /** Names and roles are the request's, and each party is the one of that name. */
  lemma {:induction false} ApprovedCreditsAre(parties: seq<string>, cs: seq<Wanted>)
    ensures (var (after, credits) := ApprovedCredits(parties, cs);
             && parties <= after && |credits| == |cs| && Shown(credits) == cs
             && forall i :: 0 <= i < |cs| ==>
                  && credits[i].name == cs[i].0 && credits[i].role == cs[i].1
                  && credits[i].party < |after| && after[credits[i].party] == cs[i].0)
    decreases |cs|
  {
    hide Party;
    if cs != [] {
      ApprovedCreditsAre(parties, cs[..|cs| - 1]);
      var credits := ApprovedCredits(parties, cs).1;
      assert credits[..|credits| - 1] == ApprovedCredits(parties, cs[..|cs| - 1]).1;
      assert cs == cs[..|cs| - 1] + [cs[|cs| - 1]];
    }
  }

  /** One fix per wanted track, in order, with its credits. */
  predicate FixesOf(fixes: seq<Fix>, ts: seq<WantedTrack>) {
    |fixes| == |ts| && forall i :: 0 <= i < |ts| ==>
      fixes[i].track == ts[i].track && Shown(fixes[i].credits) == ts[i].credits
  }

  lemma {:induction false} ApprovedFixesAre(parties: seq<string>, ts: seq<WantedTrack>)
    ensures FixesOf(ApprovedFixes(parties, ts).1, ts)
    decreases |ts|
  {
    hide Shown, ApprovedCredits;
    if ts != [] {
      ApprovedFixesAre(parties, ts[..|ts| - 1]);
      ApprovedCreditsAre(ApprovedFixes(parties, ts[..|ts| - 1]).0, ts[|ts| - 1].credits);
    }
  }

  lemma {:induction false} ShownRoles(cs: seq<Credit>)
    ensures |Shown(cs)| == |cs| && forall i :: 0 <= i < |cs| ==> Shown(cs)[i] == (cs[i].name, cs[i].role)
    decreases |cs|
  {
    if cs != [] {
      ShownRoles(cs[..|cs| - 1]);
    }
  }

  /** What an approval of an accepted request records: fixes for different tracks of the release, without
      an artist's credit. */
  lemma {:induction false} ApprovedIsClean(parties: seq<string>, r: Request, known: set<nat>)
    requires Normalized(r, known).Ok?
    ensures (var fixes := Approval(parties, Normalized(r, known).value).1.fixes;
             && (forall i :: 0 <= i < |fixes| ==> fixes[i].track in known && Unlocked(fixes[i].credits))
             && (forall i, j :: 0 <= i < j < |fixes| ==> fixes[i].track != fixes[j].track))
  {
    var ts := Normalized(r, known).value.tracks;
    NormalizedIsClean(r, known);
    ApprovedFixesAre(parties, ts);
    hide Normalized, ApprovedFixes, Shown, LockedRole;
    var fixes := Approval(parties, Normalized(r, known).value).1.fixes;
    forall i | 0 <= i < |fixes| ensures fixes[i].track in known && Unlocked(fixes[i].credits) {
      ShownRoles(fixes[i].credits);
      assert CleanList(ts[i].credits);
      forall k | 0 <= k < |fixes[i].credits| ensures !LockedRole(fixes[i].credits[k].role) {
        assert ts[i].credits[k] == (fixes[i].credits[k].name, fixes[i].credits[k].role);
      }
    }
  }

  /** A request as an artist sends it, with the tracks the release has then and the parties there are when
      it is approved. */
  datatype Asked = Asked(request: Request, known: set<nat>, parties: seq<string>)

  /** The approved corrections after these requests, oldest first; a request that is not accepted records
      nothing. */
  function Recorded(asked: seq<Asked>): seq<Correction>
    decreases |asked|
  {
    if asked == [] then []
    else
      var done, a := Recorded(asked[..|asked| - 1]), asked[|asked| - 1];
      match Normalized(a.request, a.known)
      case Err(_) => done
      case Ok(r) => done + [Approval(a.parties, r).1]
  }

  /** Approved corrections never carry an artist's credit. */
  lemma {:induction false} RecordedIsClean(asked: seq<Asked>)
    ensures Clean(Recorded(asked))
    decreases |asked|
  {
    hide Normalized, Approval, Unlocked;
    if asked != [] {
      var a := asked[|asked| - 1];
      RecordedIsClean(asked[..|asked| - 1]);
      if Normalized(a.request, a.known).Ok? {
        ApprovedIsClean(a.parties, a.request, a.known);
      }
    }
  }

  /** The credits the last accepted request that names the track asked for. */
  function LastWanted(asked: seq<Asked>, id: nat): Option<seq<Wanted>>
    decreases |asked|
  {
    if asked == [] then None
    else
      match Normalized(asked[|asked| - 1].request, asked[|asked| - 1].known)
      case Err(_) => LastWanted(asked[..|asked| - 1], id)
      case Ok(r) =>
        var w := WantedFor(r.tracks, id);
        if w.Some? then w else LastWanted(asked[..|asked| - 1], id)
  }

  function WantedFor(ts: seq<WantedTrack>, id: nat): Option<seq<Wanted>>
    decreases |ts|
  {
    if ts == [] then None
    else if ts[|ts| - 1].track == id then Some(ts[|ts| - 1].credits)
    else WantedFor(ts[..|ts| - 1], id)
  }

  function ShownIf(cs: Option<seq<Credit>>): Option<seq<Wanted>> {
    if cs.Some? then Some(Shown(cs.value)) else None
  }

  lemma {:induction false} FixIsWanted(fixes: seq<Fix>, ts: seq<WantedTrack>, id: nat)
    requires FixesOf(fixes, ts)
    ensures ShownIf(FixFor(fixes, id)) == WantedFor(ts, id)
    decreases |ts|
  {
    hide Shown;
    if ts != [] {
      FixIsWanted(fixes[..|ts| - 1], ts[..|ts| - 1], id);
    }
  }

  lemma {:induction false} LastFixIsWanted(asked: seq<Asked>, id: nat)
    ensures ShownIf(LastFix(Recorded(asked), id)) == LastWanted(asked, id)
    decreases |asked|
  {
    hide Normalized, ShownIf, FixFor, WantedFor, ApprovedFixes;
    var cs := Recorded(asked);
    if asked == [] {
      assert ShownIf(None) == None by { NothingShown(); }
    } else {
      var q, a := asked[..|asked| - 1], asked[|asked| - 1];
      LastFixIsWanted(q, id);
      if Normalized(a.request, a.known).Ok? {
        var r := Normalized(a.request, a.known).value;
        ApprovedFixesAre(a.parties, r.tracks);
        FixIsWanted(ApprovedFixes(a.parties, r.tracks).1, r.tracks, id);
        assert cs == Recorded(q) + [Approval(a.parties, r).1];
        assert cs[..|cs| - 1] == Recorded(q);
        SomeIsShown(FixFor(Approval(a.parties, r).1.fixes, id));
      }
    }
  }

  lemma {:induction false} NothingShown()
    ensures ShownIf(None) == None
  {
  }

  lemma {:induction false} SomeIsShown(cs: Option<seq<Credit>>)
    ensures ShownIf(cs).Some? <==> cs.Some?
  {
  }

  // ---------------------------------------------------------------- the fold

  function Locked(cs: seq<Credit>): seq<Credit>
    decreases |cs|
  {
    if cs == [] then []
    else Locked(cs[..|cs| - 1]) + (if LockedRole(cs[|cs| - 1].role) then [cs[|cs| - 1]] else [])
  }

  /** The credits a correction gives a track: its last entry for it. */
  function FixFor(fixes: seq<Fix>, id: nat): Option<seq<Credit>>
    decreases |fixes|
  {
    if fixes == [] then None
    else if fixes[|fixes| - 1].track == id then Some(fixes[|fixes| - 1].credits)
    else FixFor(fixes[..|fixes| - 1], id)
  }

  function Corrected(t: Track, c: Correction): Track {
    match FixFor(c.fixes, t.id)
    case None => t
    case Some(cs) => t.(credits := Locked(t.credits) + cs)
  }

  function CorrectedBy(t: Track, cs: seq<Correction>): Track
    decreases |cs|
  {
    if cs == [] then t else Corrected(CorrectedBy(t, cs[..|cs| - 1]), cs[|cs| - 1])
  }

  function GenreBy(cs: seq<Correction>): Option<string>
    decreases |cs|
  {
    if cs == [] then None
    else if cs[|cs| - 1].genre.Some? then cs[|cs| - 1].genre
    else GenreBy(cs[..|cs| - 1])
  }

  /** Oldest first, every track of the release. */
  method Overlay(tracks: seq<Track>, cs: seq<Correction>) returns (out: seq<Track>, genre: Option<string>)
    ensures |out| == |tracks| && forall i :: 0 <= i < |tracks| ==> out[i] == CorrectedBy(tracks[i], cs)
    ensures genre == GenreBy(cs)
  {
    hide Corrected;
    out, genre := tracks, None;
    var k := 0;
    while k < |cs|
      invariant 0 <= k <= |cs|
      invariant |out| == |tracks| && forall i :: 0 <= i < |tracks| ==> out[i] == CorrectedBy(tracks[i], cs[..k])
      invariant genre == GenreBy(cs[..k])
    {
      assert cs[..k + 1][..k] == cs[..k];
      if cs[k].genre.Some? {
        genre := cs[k].genre;
      }
      out := OverlayOne(out, cs[k]);
      k := k + 1;
    }
    assert cs[..k] == cs;
  }

  method OverlayOne(tracks: seq<Track>, c: Correction) returns (out: seq<Track>)
    ensures |out| == |tracks| && forall i :: 0 <= i < |tracks| ==> out[i] == Corrected(tracks[i], c)
  {
    out := tracks;
    var i := 0;
    while i < |out|
      invariant 0 <= i <= |out| == |tracks|
      invariant forall j :: 0 <= j < i ==> out[j] == Corrected(tracks[j], c)
      invariant forall j :: i <= j < |out| ==> out[j] == tracks[j]
    {
      var fix := FixFor(c.fixes, out[i].id);
      if fix.Some? {
        out := out[i := out[i].(credits := Locked(out[i].credits) + fix.value)];
      }
      i := i + 1;
    }
  }

  // ---------------------------------------------------------------- the closed form

  /** No artist's credit among the corrections', as `RecordedIsClean` shows of every approved list. */
  predicate Unlocked(cs: seq<Credit>) { forall i :: 0 <= i < |cs| ==> !LockedRole(cs[i].role) }

  predicate Clean(cs: seq<Correction>) {
    forall k, i :: 0 <= k < |cs| && 0 <= i < |cs[k].fixes| ==> Unlocked(cs[k].fixes[i].credits)
  }

  /** The credits of the last correction that names the track. */
  function LastFix(cs: seq<Correction>, id: nat): Option<seq<Credit>>
    decreases |cs|
  {
    if cs == [] then None
    else if FixFor(cs[|cs| - 1].fixes, id).Some? then FixFor(cs[|cs| - 1].fixes, id)
    else LastFix(cs[..|cs| - 1], id)
  }

  function ClosedForm(t: Track, cs: seq<Correction>): Track {
    match LastFix(cs, t.id)
    case None => t
    case Some(credits) => t.(credits := Locked(t.credits) + credits)
  }

  lemma {:induction false} LockedAppend(a: seq<Credit>, b: seq<Credit>)
    ensures Locked(a + b) == Locked(a) + Locked(b)
    decreases |b|
  {
    hide LockedRole;
    if b == [] {
      assert a + b == a;
    } else {
      var i := |b| - 1;
      assert (a + b)[..|a + b| - 1] == a + b[..i];
      assert (a + b)[|a + b| - 1] == b[i];
      LockedAppend(a, b[..i]);
    }
  }

  lemma {:induction false} LockedNone(cs: seq<Credit>)
    requires Unlocked(cs)
    ensures Locked(cs) == []
    decreases |cs|
  {
    hide LockedRole;
    if cs != [] {
      LockedNone(cs[..|cs| - 1]);
    }
  }

  lemma {:induction false} LockedTwice(cs: seq<Credit>)
    ensures Locked(Locked(cs)) == Locked(cs)
    decreases |cs|
  {
    hide LockedRole;
    if cs != [] {
      var q, x := cs[..|cs| - 1], cs[|cs| - 1];
      LockedTwice(q);
      LockedAppend(Locked(q), if LockedRole(x.role) then [x] else []);
      assert [x][..0] == [];
    }
  }

  lemma {:induction false} FixUnlocked(fixes: seq<Fix>, id: nat)
    requires forall i :: 0 <= i < |fixes| ==> Unlocked(fixes[i].credits)
    ensures FixFor(fixes, id).Some? ==> Unlocked(FixFor(fixes, id).value)
    decreases |fixes|
  {
    hide Unlocked;
    if fixes != [] && fixes[|fixes| - 1].track != id {
      FixUnlocked(fixes[..|fixes| - 1], id);
    }
  }

  lemma {:induction false} LastUnlocked(cs: seq<Correction>, id: nat)
    requires Clean(cs)
    ensures LastFix(cs, id).Some? ==> Unlocked(LastFix(cs, id).value)
    decreases |cs|
  {
    hide Unlocked, FixFor;
    if cs != [] {
      FixUnlocked(cs[|cs| - 1].fixes, id);
      LastUnlocked(cs[..|cs| - 1], id);
    }
  }

  /** Locked credits survive a fix and nothing of an earlier fix does. */
  lemma {:induction false} LockedOfFixed(kept: seq<Credit>, credits: seq<Credit>)
    requires Unlocked(credits)
    ensures Locked(Locked(kept) + credits) == Locked(kept)
  {
    hide Unlocked;
    LockedAppend(Locked(kept), credits);
    LockedNone(credits);
    LockedTwice(kept);
    assert Locked(kept) + [] == Locked(kept);
  }

  /** Folding all corrections gives each track its own locked credits, then exactly the credits of the
      last correction that names it; a track no correction names is unchanged. */
  lemma {:induction false} FoldIsClosedForm(t: Track, cs: seq<Correction>)
    requires Clean(cs)
    ensures CorrectedBy(t, cs) == ClosedForm(t, cs)
    decreases |cs|
  {
    hide Unlocked, FixFor, Locked;
    if cs != [] {
      var q := cs[..|cs| - 1];
      FoldIsClosedForm(t, q);
      LastUnlocked(q, t.id);
      if LastFix(q, t.id).Some? {
        LockedOfFixed(t.credits, LastFix(q, t.id).value);
      }
    }
  }

  /** Applying the corrections again changes nothing. */
  lemma {:induction false} OverlayTwice(t: Track, cs: seq<Correction>)
    requires Clean(cs)
    ensures CorrectedBy(CorrectedBy(t, cs), cs) == CorrectedBy(t, cs)
  {
    hide Unlocked, Locked, CorrectedBy;
    FoldIsClosedForm(t, cs);
    FoldIsClosedForm(CorrectedBy(t, cs), cs);
    LastUnlocked(cs, t.id);
    if LastFix(cs, t.id).Some? {
      LockedOfFixed(t.credits, LastFix(cs, t.id).value);
    }
  }

  /** Were artists' credits not kept out of requests, a repeated correction would double them. */
  lemma {:induction false} LockedFixDoubles()
    ensures (var cr := Credit(0, "A", "artist");
             var c := Correction(None, [Fix(0, [cr])]);
             var t := Track(0, []);
             && !Clean([c])
             && CorrectedBy(t, [c]).credits == [cr] && CorrectedBy(CorrectedBy(t, [c]), [c]).credits == [cr, cr])
  {
    var cr := Credit(0, "A", "artist");
    assert LockedRole("artist") by { ArtistIsLocked(); }
    hide LockedRole;
    var c := Correction(None, [Fix(0, [cr])]);
    assert [c][..0] == [] && [cr][..0] == [];
    assert [] + [cr] == [cr] && [cr] + [cr] == [cr, cr];
    assert Corrected(Track(0, []), c) == Track(0, [cr]);
    assert Corrected(Track(0, [cr]), c) == Track(0, [cr, cr]);
    assert !Unlocked([cr]) by { assert [cr][0].role == "artist"; }
    assert [c][0].fixes[0].credits == [cr];
  }

  lemma {:induction false} ArtistIsLocked()
    ensures LockedRole("artist")
  {
    var s := "artist";
    TrimTidy(s);
    assert LowerAll(s) == s by { LowerKeeps(s); }
  }

  lemma {:induction false} LowerKeeps(s: string)
    requires forall i :: 0 <= i < |s| ==> !('A' <= s[i] <= 'Z')
    ensures LowerAll(s) == s
    decreases |s|
  {
    if s != "" {
      LowerKeeps(s[..|s| - 1]);
    }
  }

  // ---------------------------------------------------------------- what the artist is shown

  /** Credits as shown: name and role. */
  function Shown(cs: seq<Credit>): seq<Wanted>
    decreases |cs|
  {
    if cs == [] then [] else Shown(cs[..|cs| - 1]) + [(cs[|cs| - 1].name, cs[|cs| - 1].role)]
  }

  function ShownLocked(cs: seq<Wanted>): seq<Wanted>
    decreases |cs|
  {
    if cs == [] then []
    else ShownLocked(cs[..|cs| - 1]) + (if LockedRole(cs[|cs| - 1].1) then [cs[|cs| - 1]] else [])
  }

  /** The status page's own fold: every entry of every correction in turn. */
  function StatusFixes(id: nat, shown: seq<Wanted>, fixes: seq<Fix>): seq<Wanted>
    decreases |fixes|
  {
    if fixes == [] then shown
    else
      var before := StatusFixes(id, shown, fixes[..|fixes| - 1]);
      var f := fixes[|fixes| - 1];
      if f.track == id then ShownLocked(before) + Shown(f.credits) else before
  }

  function StatusBy(id: nat, shown: seq<Wanted>, cs: seq<Correction>): seq<Wanted>
    decreases |cs|
  {
    if cs == [] then shown else StatusFixes(id, StatusBy(id, shown, cs[..|cs| - 1]), cs[|cs| - 1].fixes)
  }

  /** The status page's loops, for one track's credits and the genre. */
  method Status(id: nat, shown: seq<Wanted>, genre0: Option<string>, cs: seq<Correction>)
    returns (credits: seq<Wanted>, genre: Option<string>)
    ensures credits == StatusBy(id, shown, cs)
    ensures genre == if GenreBy(cs).Some? then GenreBy(cs) else genre0
  {
    credits, genre := shown, genre0;
    var k := 0;
    while k < |cs|
      invariant 0 <= k <= |cs|
      invariant credits == StatusBy(id, shown, cs[..k])
      invariant genre == if GenreBy(cs[..k]).Some? then GenreBy(cs[..k]) else genre0
    {
      assert cs[..k + 1][..k] == cs[..k];
      if cs[k].genre.Some? {
        genre := cs[k].genre;
      }
      ghost var before := credits;
      var fixes := cs[k].fixes;
      var j := 0;
      while j < |fixes|
        invariant 0 <= j <= |fixes|
        invariant credits == StatusFixes(id, before, fixes[..j])
      {
        assert fixes[..j + 1][..j] == fixes[..j];
        if fixes[j].track == id {
          credits := ShownLocked(credits) + Shown(fixes[j].credits);
        }
        j := j + 1;
      }
      assert fixes[..j] == fixes;
      k := k + 1;
    }
    assert cs[..k] == cs;
  }

  lemma {:induction false} ShownAppend(a: seq<Credit>, b: seq<Credit>)
    ensures Shown(a + b) == Shown(a) + Shown(b)
    decreases |b|
  {
    if b == [] {
      assert a + b == a;
    } else {
      var i := |b| - 1;
      assert (a + b)[..|a + b| - 1] == a + b[..i];
      ShownAppend(a, b[..i]);
    }
  }

  lemma {:induction false} ShownOfLocked(cs: seq<Credit>)
    ensures ShownLocked(Shown(cs)) == Shown(Locked(cs))
    decreases |cs|
  {
    hide LockedRole;
    if cs != [] {
      var q, x := cs[..|cs| - 1], cs[|cs| - 1];
      ShownOfLocked(q);
      var s := Shown(cs);
      assert s[..|s| - 1] == Shown(q) && s[|s| - 1] == (x.name, x.role);
      var more := if LockedRole(x.role) then [x] else [];
      assert Locked(cs) == Locked(q) + more;
      ShownAppend(Locked(q), more);
      assert [x][..0] == [];
    }
  }

  /** One correction: the last entry for a track wins on both sides. */
  lemma {:induction false} StatusFixesAgree(t: Track, fixes: seq<Fix>)
    requires forall i :: 0 <= i < |fixes| ==> Unlocked(fixes[i].credits)
    ensures StatusFixes(t.id, Shown(t.credits), fixes) == Shown(Corrected(t, Correction(None, fixes)).credits)
    decreases |fixes|
  {
    hide Unlocked, LockedRole, Locked, Shown, ShownLocked;
    if fixes == [] {
      assert FixFor(fixes, t.id).None?;
    } else {
      var q, f := fixes[..|fixes| - 1], fixes[|fixes| - 1];
      var before := Corrected(t, Correction(None, q)).credits;
      StatusFixesAgree(t, q);
      FixUnlocked(q, t.id);
      ShownOfLocked(before);
      if FixFor(q, t.id).Some? {
        LockedOfFixed(t.credits, FixFor(q, t.id).value);
      }
      assert Locked(before) == Locked(t.credits);
      ShownAppend(Locked(t.credits), f.credits);
    }
  }

  /** What the artist is shown is what the partners are sent. */
  lemma {:induction false} StatusAgrees(t: Track, cs: seq<Correction>)
    requires Clean(cs)
    ensures StatusBy(t.id, Shown(t.credits), cs) == Shown(CorrectedBy(t, cs).credits)
    decreases |cs|
  {
    hide Unlocked, Shown, StatusFixes, Corrected;
    if cs != [] {
      var q, c := cs[..|cs| - 1], cs[|cs| - 1];
      StatusAgrees(t, q);
      SameTrack(t, q);
      StatusFixesAgree(CorrectedBy(t, q), c.fixes);
      GenreAside(CorrectedBy(t, q), c);
    }
  }

  lemma {:induction false} SameTrack(t: Track, cs: seq<Correction>)
    ensures CorrectedBy(t, cs).id == t.id
    decreases |cs|
  {
    if cs != [] {
      SameTrack(t, cs[..|cs| - 1]);
    }
  }

  lemma {:induction false} GenreAside(t: Track, c: Correction)
    ensures Corrected(t, c) == Corrected(t, Correction(None, c.fixes))
  {
  }

  // ---------------------------------------------------------------- approved requests

  /** Name and role, with any party. */
  function Dressed(ws: seq<Wanted>): seq<Credit>
    decreases |ws|
  {
    if ws == [] then [] else Dressed(ws[..|ws| - 1]) + [Credit(0, ws[|ws| - 1].0, ws[|ws| - 1].1)]
  }

  lemma {:induction false} ShownDressed(ws: seq<Wanted>)
    ensures Shown(Dressed(ws)) == ws
    decreases |ws|
  {
    if ws != [] {
      ShownDressed(ws[..|ws| - 1]);
      assert Dressed(ws)[..|Dressed(ws)| - 1] == Dressed(ws[..|ws| - 1]);
      assert ws == ws[..|ws| - 1] + [ws[|ws| - 1]];
    }
  }

  /** The status page's fold from any list of credits. */
  lemma {:induction false} StatusClosedForm(id: nat, live: seq<Wanted>, cs: seq<Correction>)
    requires Clean(cs)
    ensures StatusBy(id, live, cs)
         == if LastFix(cs, id).Some? then ShownLocked(live) + Shown(LastFix(cs, id).value) else live
  {
    hide StatusBy, CorrectedBy, Clean, LastFix, Shown, Locked, ShownLocked;
    var t := Track(id, Dressed(live));
    ShownDressed(live);
    StatusAgrees(t, cs);
    FoldIsClosedForm(t, cs);
    ShownOfLocked(t.credits);
    if LastFix(cs, id).Some? {
      ShownAppend(Locked(t.credits), LastFix(cs, id).value);
    }
  }

  lemma {:induction false} SameTail(a: seq<Wanted>, b: seq<Wanted>, c: seq<Wanted>)
    ensures a + c == b + c <==> a == b
  {
    if a + c == b + c {
      assert |a| == |b|;
      assert forall i :: 0 <= i < |a| ==> (a + c)[i] == a[i] && (b + c)[i] == b[i];
    }
  }

  /** Folding any list of approved requests over a track of the snapshot gives its own locked credits,
      then exactly the credits of the last one that names it; naming it is asking for credits, whatever
      was approved before. */
  lemma {:induction false} ApprovedFoldIsClosedForm(asked: seq<Asked>, t: Track)
    ensures (var cs := Recorded(asked);
             && CorrectedBy(t, cs) == ClosedForm(t, cs)
             && (LastWanted(asked, t.id).None? ==> CorrectedBy(t, cs) == t)
             && (LastWanted(asked, t.id).Some? ==>
                   Shown(CorrectedBy(t, cs).credits) == Shown(Locked(t.credits)) + LastWanted(asked, t.id).value))
  {
    hide Recorded, CorrectedBy, Clean, LastFix, LastWanted, Shown, Locked;
    var cs := Recorded(asked);
    RecordedIsClean(asked);
    FoldIsClosedForm(t, cs);
    LastFixIsWanted(asked, t.id);
    if LastFix(cs, t.id).Some? {
      ShownAppend(Locked(t.credits), LastFix(cs, t.id).value);
    }
  }

  /** Applying a list of approved requests twice is applying it once. */
  lemma {:induction false} ApprovedTwice(asked: seq<Asked>, t: Track)
    ensures (var cs := Recorded(asked);
             CorrectedBy(CorrectedBy(t, cs), cs) == CorrectedBy(t, cs))
  {
    hide Recorded, CorrectedBy, Clean;
    RecordedIsClean(asked);
    OverlayTwice(t, Recorded(asked));
  }

  /** The status page starts from the live catalogue, an update from the frozen snapshot. They agree on a
      track exactly when its locked credits are the same in both, or, if no approved request names it,
      when all its credits are. */
  lemma {:induction false} StatusAgreesExactlyWhen(asked: seq<Asked>, live: seq<Wanted>, t: Track)
    ensures (var cs := Recorded(asked);
             StatusBy(t.id, live, cs) == Shown(CorrectedBy(t, cs).credits)
             <==> (if LastWanted(asked, t.id).Some? then ShownLocked(live) == ShownLocked(Shown(t.credits))
                   else live == Shown(t.credits)))
  {
    hide Recorded, CorrectedBy, StatusBy, Clean, LastFix, LastWanted, Shown, Locked, ShownLocked, ShownIf;
    var cs := Recorded(asked);
    RecordedIsClean(asked);
    StatusClosedForm(t.id, live, cs);
    ApprovedFoldIsClosedForm(asked, t);
    LastFixIsWanted(asked, t.id);
    SomeIsShown(LastFix(cs, t.id));
    ShownOfLocked(t.credits);
    if LastFix(cs, t.id).Some? {
      FoldIsClosedForm(t, cs);
      ShownAppend(Locked(t.credits), LastFix(cs, t.id).value);
      SameTail(ShownLocked(live), Shown(Locked(t.credits)), Shown(LastFix(cs, t.id).value));
    }
  }

  /** An artist added to the catalogue after the snapshot is shown and never sent, whatever is approved. */
  lemma {:induction false} LateArtistIsNotSent(asked: seq<Asked>)
    ensures (var cs := Recorded(asked);
             StatusBy(0, [("A", "artist")], cs) != Shown(CorrectedBy(Track(0, []), cs).credits))
  {
    hide Recorded, CorrectedBy, StatusBy, LastWanted, LockedRole;
    ArtistIsLocked();
    assert [("A", "artist")][..0] == [];
    assert ShownLocked([("A", "artist")]) == [("A", "artist")];
    StatusAgreesExactlyWhen(asked, [("A", "artist")], Track(0, []));
  }
}
