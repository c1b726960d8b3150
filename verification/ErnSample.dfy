/**
  A small release and its envelope: one track, a download store. The writer accepts it for every
  region and every pair of dates; the lemmas about single messages start from it.
*/
module ErnSample {
  import opened Common
  import opened TextBasics
  import opened Numerals
  import opened IsoDates
  import opened ErnMessage
  import opened Territory

  const AUDIO := Asset("audio/flac", "00", Some(Length(60.0, "60")), None, None, None)

  const SONG := Track(1, "KRA012600001", "Song", "", "Singer", 1, 1, AUDIO)

  function SampleRelease(region: Territories, released: Date, preorderStart: Option<Date>,
                         rightsEnd: Option<Date>): Prepared
  {
    Prepared("8800000000001", "Song", "Singer", "SINGLE", "ko", "P", "C", released, None, false,
             [SONG], map[], map[], AUDIO, region, None, preorderStart, rightsEnd, true)
  }

  function SampleEnvelope(subType: MessageSubType, start: Date, takedown: Option<Date>): Config {
    Config(DealProfile(["PayAsYouGoModel"], ["PermanentDownload"], None), "M", None, subType, "T",
           "Sender", Some("PADPIDA1"), None, "Store", None, Iso(start),
           if takedown.Some? then Some(Iso(takedown.value)) else None, None)
  }

  /** A text without white space or control characters. */
  predicate Word(s: string) { s != "" && forall i :: 0 <= i < |s| ==> '!' <= s[i] <= '~' }

  lemma {:induction false} WordsAreText(s: string)
    requires Word(s)
    ensures Required(s)
  {
    assert !White(s[0]);
  }

  lemma {:induction false} DatesAreWords(d: Date)
    ensures Word(Iso(d))
  {
    var s := Iso(d);
    var y, m, n := YearText(d.year), Pad(d.month, 2), Pad(d.day, 2);
    assert Word(y) && Word(m) && Word(n) && Word("-");
    hide Pad, YearText;
    WordsTogether("-", n);
    WordsTogether(m, "-" + n);
    WordsTogether("-", m + ("-" + n));
    WordsTogether(y, "-" + (m + ("-" + n)));
  }

  lemma {:induction false} WordsTogether(s: string, t: string)
    requires Word(s) && Word(t)
    ensures Word(s + t)
  {
  }

  lemma {:induction false} SampleReleaseIsValid(region: Territories, released: Date, preorderStart: Option<Date>,
                                                rightsEnd: Option<Date>)
    ensures MetadataValid(SampleRelease(region, released, preorderStart, rightsEnd))
  {
    hide Required;
    WordsAreText("Song");
    WordsAreText("Singer");
    WordsAreText("ko");
    WordsAreText("P");
    WordsAreText("C");
  }

  lemma {:induction false} SampleEnvelopeIsValid(subType: MessageSubType, start: Date, takedown: Option<Date>)
    requires subType.Takedown? ==> takedown.Some?
    ensures ConfigError(SampleEnvelope(subType, start, takedown)).None?
  {
    hide Required, Iso;
    WordsAreText("M");
    WordsAreText("T");
    WordsAreText("Sender");
    WordsAreText("PADPIDA1");
    WordsAreText("Store");
    DatesAreWords(start);
    WordsAreText(Iso(start));
    if takedown.Some? {
      DatesAreWords(takedown.value);
      WordsAreText(Iso(takedown.value));
    }
  }

  /** The writer produces a message for it. */
  lemma {:induction false} SampleIsGenerated(region: Territories, released: Date, preorderStart: Option<Date>,
                                             rightsEnd: Option<Date>, subType: MessageSubType, start: Date,
                                             takedown: Option<Date>)
    requires subType.Takedown? ==> takedown.Some?
    ensures Generated(SampleRelease(region, released, preorderStart, rightsEnd),
                      SampleEnvelope(subType, start, takedown)).Ok?
  {
    hide MetadataValid, ConfigError, MessageNode, Iso, OrderedTracks, MessageEvents;
    SampleReleaseIsValid(region, released, preorderStart, rightsEnd);
    SampleEnvelopeIsValid(subType, start, takedown);
    OneTrackInOrder(SONG);
  }

  lemma {:induction false} OneTrackInOrder(t: Track)
    ensures OrderedTracks([t]) == [t]
  {
    assert [t][..0] == [];
  }
}
