/**
  The writer meets the validator: every message the writer produces is accepted, with the profile
  the caller expects.
*/
module ErnAccepted {
  import opened Common
  import opened XmlTree
  import opened ErnMessage
  import opened ErnScan
  import opened ErnValidate
  import opened ErnWritten
  import opened ErnDepth
  import opened ErnProfile

  /** The declaration before the root changes nothing. */
  lemma {:induction false} DeclarationSkipped(bytes: nat, es: seq<Event>)
    ensures ScanResult(bytes, [Misc] + es) == ScanResult(bytes, es)
  {
    assert ([Misc] + es)[0] == Misc && ([Misc] + es)[1..] == es;
  }

  /** What the scanner makes of a written message within the size limit. */
  lemma {:induction false} ScanWritten(p: Prepared, c: Config, bytes: nat)
    requires Generated(p, c).Ok?
    ensures ScanResult(bytes, Generated(p, c).value)
         == if bytes > 8_000_000 then Err(TooLarge) else Ok(WrittenScan(p, c, |p.tracks|))
  {
    hide MessageNode, Walk, WrittenScan;
    MessageLow(p, c);
    DeclarationSkipped(bytes, Flatten(MessageNode(p, c)));
    ScanIsTreeWalk(bytes, MessageNode(p, c));
    WalkWritten(p, c);
  }

  /** The one warning of its own a message can draw: a single of several tracks goes out under the
      album profile with the type `Single`. */
  predicate SingleOfManyTracks(p: Prepared) { |p.tracks| > 1 && p.releaseType == "SINGLE" }

  function OwnFindings(p: Prepared, expected: Option<Profile>): seq<Finding> {
    When(expected.Some? && expected.value != ExpectedProfile(|p.tracks|), WarningFinding(ProfileMismatch))
    + When(SingleOfManyTracks(p), WarningFinding(AlbumReleaseType))
  }

  lemma {:induction false} RuleFindings(p: Prepared, c: Config, v: Option<Version>, expected: Option<Profile>)
    requires MetadataValid(p)
    ensures var n, s := |p.tracks|, WrittenScan(p, c, |p.tracks|);
            SectionFindings(v, s.has) + VersionFindings(v, Some(ExpectedProfile(n)), expected, s)
            + ProfileFindings(Some(ExpectedProfile(n)), s) == OwnFindings(p, expected)
  {
    hide WalkHeader, HeaderNode, ARefs, ReleaseTypeText;
    var n, s := |p.tracks|, WrittenScan(p, c, |p.tracks|);
    TypesRead(p);
    hide MetadataValid;
    var a := When(expected.Some? && expected.value != ExpectedProfile(n), WarningFinding(ProfileMismatch));
    assert SectionFindings(v, s.has) == [];
    assert VersionFindings(v, Some(ExpectedProfile(n)), expected, s) == a;
    assert ProfileFindings(Some(ExpectedProfile(n)), s)
        == When(SingleOfManyTracks(p), WarningFinding(AlbumReleaseType));
    assert [] + a == a;
  }

  lemma {:induction false} RecordFindings(p: Prepared, c: Config, v: Option<Version>, expected: Option<Profile>)
    requires MetadataValid(p)
    ensures ScanFindings(v, Some(ExpectedProfile(|p.tracks|)), expected, WrittenScan(p, c, |p.tracks|))
         == OwnFindings(p, expected)
  {
    hide WalkHeader, HeaderNode, ARefs, ReleaseTypeText, MetadataValid, SectionFindings, VersionFindings,
         ProfileFindings, OwnFindings, ExpectedProfile, DanglingResources, DanglingReleases;
    var s := WrittenScan(p, c, |p.tracks|);
    assert s.releases.infos[0].reference == Some("R001");
    assert Names(s.releases.infos, "R001");
    hide Names;
    ResolvedMeansValid(s);
    RuleFindings(p, c, v, expected);
    var own := OwnFindings(p, expected);
    assert own + [] + [] == own;
  }

  lemma {:induction false} ResolvedMeansValid(s: Scan)
    requires forall i :: 0 <= i < |s.releases.referenced| ==> s.releases.referenced[i] in s.resources.defined
    requires forall i :: 0 <= i < |s.dealRefs| ==> Names(s.releases.infos, s.dealRefs[i])
    ensures DanglingResources(s.releases.referenced, s.resources.defined) == []
    ensures DanglingReleases(s.dealRefs, s.releases.infos) == []
  {
    ResourcesResolve(s.releases.referenced, s.resources.defined);
    ReleasesResolve(s.dealRefs, s.releases.infos);
  }

  lemma {:induction false} TypesRead(p: Prepared)
    requires MetadataValid(p)
    ensures AlbumType(Some(ReleaseTypeText(p.releaseType))) <==> p.releaseType != "SINGLE"
  {
    assert "Single"[0] != "Album"[0] && "Single"[0] != "EP"[0];
  }

  lemma {:induction false} OwnAreWarnings(p: Prepared, expected: Option<Profile>)
    ensures IsValid(OwnFindings(p, expected))
  {
  }

  /** Every written message passes: for every release and envelope the writer accepts, whatever
      follows the profile attribute in the text, the only findings are the caller's own profile
      expectation and the album warning, both warnings; beyond the size limit it is refused whole. */
  lemma {:induction false} WrittenIsAccepted(p: Prepared, c: Config, doc: Document, rest: string,
                                             expected: Option<Profile>)
    requires Generated(p, c).Ok?
    requires doc.events == Generated(p, c).value && doc.text == Prolog(|p.tracks|) + rest
    ensures DetectProfile(doc.text) == Some(ExpectedProfile(|p.tracks|))
    ensures (var fs := Findings(DetectVersion(doc.text), DetectProfile(doc.text), expected,
                                ScanResult(doc.bytes, doc.events));
             && (doc.bytes <= 8_000_000 ==> IsValid(fs) && fs == OwnFindings(p, expected))
             && (doc.bytes > 8_000_000 ==> fs == [ErrorFinding(XmlWellFormed)]))
  {
    hide Prolog, WrittenScan, ScanFindings, MetadataValid, DetectProfile, DetectVersion, ScanResult,
         Generated, OwnFindings, IsValid;
    ProfileRead(|p.tracks|, rest);
    ScanWritten(p, c, doc.bytes);
    GeneratedIsValid(p, c);
    OwnAreWarnings(p, expected);
    RecordFindings(p, c, DetectVersion(doc.text), expected);
  }

  lemma {:induction false} GeneratedIsValid(p: Prepared, c: Config)
    requires Generated(p, c).Ok?
    ensures MetadataValid(p)
  {
  }

  lemma {:induction false} PartIsRefused(n: Node, bytes: nat, k: nat,
                                         v: Option<Version>, profile: Option<Profile>, expected: Option<Profile>)
    requires k <= |Flatten(n)|
    ensures !IsValid(Findings(v, profile, expected, ScanResult(bytes, ([Misc] + Flatten(n))[..k])))
  {
    var part := ([Misc] + Flatten(n))[..k];
    AcceptedExactlyWhen(v, profile, expected, ScanResult(bytes, part));
    hide Findings, IsValid, Flatten;
    if k == 0 {
      assert part == [];
    } else {
      assert part == [Misc] + Flatten(n)[..k - 1];
      DeclarationSkipped(bytes, Flatten(n)[..k - 1]);
      TruncatedIsRefused(bytes, n, k - 1);
    }
  }

  lemma {:induction false} GeneratedIsMessage(p: Prepared, c: Config)
    requires Generated(p, c).Ok?
    ensures DurationsKnown(OrderedTracks(p.tracks))
    ensures Generated(p, c).value == [Misc] + Flatten(MessageNode(p, c))
  {
    hide MessageNode;
  }

  /** No proper part of a written message is ever accepted. */
  lemma {:induction false} CutOffIsRefused(p: Prepared, c: Config, bytes: nat, k: nat,
                                           v: Option<Version>, profile: Option<Profile>, expected: Option<Profile>)
    requires Generated(p, c).Ok? && k < |Generated(p, c).value|
    ensures !IsValid(Findings(v, profile, expected, ScanResult(bytes, Generated(p, c).value[..k])))
  {
    hide Generated, MessageNode, Findings, IsValid, ScanResult, Flatten;
    GeneratedIsMessage(p, c);
    PartIsRefused(MessageNode(p, c), bytes, k, v, profile, expected);
  }
}
