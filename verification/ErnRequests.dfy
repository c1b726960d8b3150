/** Which releases and envelopes the writer accepts, and what it says first of the others. */
module ErnRequests {
  import opened Common
  import opened TextBasics
  import opened ErnMessage
  import ErnDeals

  /** Something to read, and only characters XML 1.0 has. */
  predicate Legible(s: string) {
    (exists i :: 0 <= i < |s| && !White(s[i])) && forall i :: 0 <= i < |s| ==> XmlChar(s[i])
  }

  predicate TrackComplete(t: Track) { t.disc >= 1 && t.number >= 1 && Legible(t.title) && Legible(t.artist) }

  /** One to a thousand complete tracks, no two with one id or in one place. */
  predicate TracksComplete(ts: seq<Track>) {
    && 1 <= |ts| <= 1000
    && (forall i :: 0 <= i < |ts| ==> TrackComplete(ts[i]))
    && (forall i, j :: 0 <= i < |ts| && 0 <= j < |ts| && i != j ==>
          ts[i].id != ts[j].id && !(ts[i].disc == ts[j].disc && ts[i].number == ts[j].number))
  }

  predicate ReleaseComplete(p: Prepared) {
    && p.codesValid
    && Legible(p.title) && Legible(p.artist) && Legible(p.language) && Legible(p.pLine) && Legible(p.cLine)
    && p.releaseType in {"SINGLE", "EP", "ALBUM"}
    && TracksComplete(p.tracks)
  }

  /** The texts every envelope has, and the recipient's id when it has one. */
  predicate Addressed(c: Config) {
    && Legible(c.messageId) && Legible(c.createdAt) && Legible(c.senderName) && Legible(c.recipientName)
    && Legible(c.dealStart)
    && (c.recipientPartyId.Some? ==> Legible(c.recipientPartyId.value))
  }

  predicate SenderNamed(c: Config) { c.senderPartyId.Some? && Legible(c.senderPartyId.value) }

  /** On whose behalf, when it says so, and a takedown's day. */
  predicate Settled(c: Config) {
    && (c.onBehalfOf.Some? ==> Legible(c.onBehalfOf.value.id) && Legible(c.onBehalfOf.value.name))
    && (c.subType.Takedown? ==> c.takedownDate.Some? && Legible(c.takedownDate.value))
  }

  predicate LengthsKnown(ts: seq<Track>) { forall i :: 0 <= i < |ts| ==> ts[i].audio.duration.Some? }

  lemma {:induction false} LegibleIs(s: string)
    ensures Required(s) <==> Legible(s)
  {
    hide White, XmlChar;
  }

  lemma {:induction false} TracksAre(p: Prepared)
    ensures (&& 1 <= |p.tracks| <= 1000 && PositionsDistinct(p.tracks)
             && forall i :: 0 <= i < |p.tracks| ==>
                  && p.tracks[i].disc > 0 && p.tracks[i].number > 0
                  && Required(p.tracks[i].title) && Required(p.tracks[i].artist))
         <==> TracksComplete(p.tracks)
  {
    hide Required, Legible;
    var ts := p.tracks;
    forall i | 0 <= i < |ts|
      ensures TrackComplete(ts[i]) <==>
        ts[i].disc > 0 && ts[i].number > 0 && Required(ts[i].title) && Required(ts[i].artist)
    {
      LegibleIs(ts[i].title);
      LegibleIs(ts[i].artist);
    }
    hide TrackComplete;
  }

  lemma {:induction false} ReleaseIs(p: Prepared)
    ensures MetadataValid(p) <==> ReleaseComplete(p)
  {
    hide Required, Legible, TracksComplete, PositionsDistinct;
    TracksAre(p);
    LegibleIs(p.title);
    LegibleIs(p.artist);
    LegibleIs(p.language);
    LegibleIs(p.pLine);
    LegibleIs(p.cLine);
  }

  lemma {:induction false} EnvelopeIs(c: Config)
    ensures ConfigError(c) == if !Addressed(c) then Some(Invalid) else if !SenderNamed(c) then Some(SenderDpidMissing)
                              else if !Settled(c) then Some(Invalid) else None
  {
    hide Required, Legible;
    LegibleIs(c.messageId);
    LegibleIs(c.createdAt);
    LegibleIs(c.senderName);
    LegibleIs(c.recipientName);
    LegibleIs(c.dealStart);
    if c.recipientPartyId.Some? {
      LegibleIs(c.recipientPartyId.value);
    }
    if c.senderPartyId.Some? {
      LegibleIs(c.senderPartyId.value);
    }
    if c.onBehalfOf.Some? {
      LegibleIs(c.onBehalfOf.value.id);
      LegibleIs(c.onBehalfOf.value.name);
    }
    if c.takedownDate.Some? {
      LegibleIs(c.takedownDate.value);
    }
  }

  lemma {:induction false} SameLengths(ts: seq<Track>, us: seq<Track>)
    requires multiset(ts) == multiset(us)
    ensures LengthsKnown(ts) ==> LengthsKnown(us)
  {
    if LengthsKnown(ts) {
      forall i | 0 <= i < |us| ensures us[i].audio.duration.Some? {
        assert us[i] in multiset(us) && us[i] in multiset(ts);
        var k :| 0 <= k < |ts| && ts[k] == us[i];
      }
    }
  }

  /** A message is written exactly for a complete release in a complete envelope whose tracks all have a
      measured length; otherwise the first thing missing is the answer. */
  lemma {:induction false} GeneratedExactlyWhen(p: Prepared, c: Config)
    ensures Generated(p, c).Ok? <==>
              ReleaseComplete(p) && Addressed(c) && SenderNamed(c) && Settled(c) && LengthsKnown(p.tracks)
    ensures Generated(p, c).Err? ==>
              Generated(p, c).error
              == if !ReleaseComplete(p) || !Addressed(c) then Invalid
                 else if !SenderNamed(c) then SenderDpidMissing
                 else if !Settled(c) then Invalid
                 else DurationUnknown
  {
    hide MetadataValid, ConfigError, ReleaseComplete, Addressed, SenderNamed, Settled, OrderedTracks, MessageNode;
    ReleaseIs(p);
    EnvelopeIs(c);
    ErnDeals.TracksInOrder(p.tracks);
    SameLengths(p.tracks, OrderedTracks(p.tracks));
    SameLengths(OrderedTracks(p.tracks), p.tracks);
  }
}
