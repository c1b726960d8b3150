/** Which findings a message draws: each exactly when the message gives cause for it. */
module ErnFindings {
  import opened Common
  import opened XmlTree
  import opened ErnScan
  import opened ErnValidate

  predicate Later(v: Option<Version>) { v.Some? && v.value != V382 }

  /** The first release of the list calls itself neither an album nor an EP. */
  predicate FirstIsNoAlbum(s: Scan) {
    s.releases.infos != [] && s.releases.infos[0].releaseType != Some("Album")
    && s.releases.infos[0].releaseType != Some("EP")
  }

  predicate Listed(infos: seq<ReleaseInfo>, r: string) {
    exists i :: 0 <= i < |infos| && infos[i].reference == Some(r)
  }

  /** The cause of each rule's finding. */
  predicate Cause(rule: Rule, v: Option<Version>, p: Option<Profile>, expected: Option<Profile>, s: Scan) {
    match rule
    case XmlWellFormed => false
    case WrongRoot => false
    case SectionMissing(w, section) =>
      w == v
      && (|| (section == MessageHeader && !s.has.header)
          || (section == ReleaseList && !s.has.releases)
          || (section == ResourceList && !s.has.resources)
          || (section == DealList && !s.has.deals && Later(v)))
    case UpdateIndicatorMissing => v == Some(V382) && !s.has.updateIndicator
    case ProfileVersionMismatch => p == Some(ReleaseByRelease) && Later(v)
    case ProfileMismatch => p.Some? && expected.Some? && p.value != expected.value
    case EmptyReleaseList => s.has.releases && s.releases.count == 0
    case AlbumReleaseType => p == Some(AudioAlbum) && FirstIsNoAlbum(s)
    case SingleReleases => p == Some(AudioSingle) && s.releases.count > 1
    case VideoResource => p == Some(VideoProfile) && !s.resources.hasVideo
    case DanglingResource(r) => r in s.releases.referenced && r !in s.resources.defined
    case DanglingRelease(r) => r in s.dealRefs && !Listed(s.releases.infos, r)
  }

  /** Advice that refuses no message. */
  predicate Advice(rule: Rule) {
    rule in {UpdateIndicatorMissing, ProfileMismatch, AlbumReleaseType, SingleReleases}
  }

  lemma {:induction false} InResources(refs: seq<string>, defined: seq<string>, f: Finding)
    ensures f in DanglingResources(refs, defined) <==>
              f.severity == Error && f.rule.DanglingResource? && f.rule.reference in refs
              && f.rule.reference !in defined
    decreases |refs|
  {
    if refs != [] {
      InResources(refs[..|refs| - 1], defined, f);
      assert refs == refs[..|refs| - 1] + [refs[|refs| - 1]];
    }
  }

  lemma {:induction false} InReleases(refs: seq<string>, infos: seq<ReleaseInfo>, f: Finding)
    ensures f in DanglingReleases(refs, infos) <==>
              f.severity == Error && f.rule.DanglingRelease? && f.rule.reference in refs
              && !Listed(infos, f.rule.reference)
    decreases |refs|
  {
    if refs != [] {
      InReleases(refs[..|refs| - 1], infos, f);
      assert refs == refs[..|refs| - 1] + [refs[|refs| - 1]];
      assert Names(infos, refs[|refs| - 1]) <==> Listed(infos, refs[|refs| - 1]);
    }
  }

  lemma {:induction false} InWhen(c: bool, g: Finding, f: Finding)
    ensures f in When(c, g) <==> c && f == g
  {
  }

  predicate FromRoot(rule: Rule) {
    rule.SectionMissing? || rule.UpdateIndicatorMissing? || rule.ProfileVersionMismatch? || rule.ProfileMismatch?
    || rule.EmptyReleaseList?
  }

  lemma {:induction false} InSections(v: Option<Version>, p: Option<Profile>, expected: Option<Profile>, s: Scan,
                                      f: Finding)
    ensures f in SectionFindings(v, s.has) <==>
              f.severity == Error && f.rule.SectionMissing? && Cause(f.rule, v, p, expected, s)
  {
    hide When, Names, Listed;
    InWhen(!s.has.header, ErrorFinding(SectionMissing(v, MessageHeader)), f);
    InWhen(!s.has.releases, ErrorFinding(SectionMissing(v, ReleaseList)), f);
    InWhen(!s.has.resources, ErrorFinding(SectionMissing(v, ResourceList)), f);
    InWhen(Version4(v) && !s.has.deals, ErrorFinding(SectionMissing(v, DealList)), f);
  }

  lemma {:induction false} InVersion(v: Option<Version>, p: Option<Profile>, expected: Option<Profile>, s: Scan,
                                     f: Finding)
    ensures f in VersionFindings(v, p, expected, s) <==>
              && FromRoot(f.rule) && !f.rule.SectionMissing?
              && f.severity == (if Advice(f.rule) then Warning else Error) && Cause(f.rule, v, p, expected, s)
  {
    hide When, Names, Listed;
    InWhen(v == Some(V382) && !s.has.updateIndicator, WarningFinding(UpdateIndicatorMissing), f);
    InWhen(p == Some(ReleaseByRelease) && Version4(v), ErrorFinding(ProfileVersionMismatch), f);
    InWhen(p.Some? && expected.Some? && p != expected, WarningFinding(ProfileMismatch), f);
    InWhen(s.has.releases && s.releases.count == 0, ErrorFinding(EmptyReleaseList), f);
  }

  lemma {:induction false} InProfile(v: Option<Version>, p: Option<Profile>, expected: Option<Profile>, s: Scan,
                                     f: Finding)
    ensures f in ProfileFindings(p, s) <==>
              && (f.rule.AlbumReleaseType? || f.rule.SingleReleases? || f.rule.VideoResource?)
              && f.severity == (if Advice(f.rule) then Warning else Error) && Cause(f.rule, v, p, expected, s)
  {
    hide When, Names, Listed;
    InWhen(s.releases.infos != [] && !AlbumType(s.releases.infos[0].releaseType), WarningFinding(AlbumReleaseType), f);
    InWhen(s.releases.count > 1, WarningFinding(SingleReleases), f);
    InWhen(!s.resources.hasVideo, ErrorFinding(VideoResource), f);
  }

  /** A message that was read, under the root of ERN, draws a finding exactly when it gives cause for it, as
      advice or as an error by its rule. One that could not be read, or with another root, draws one
      finding that says so. */
  lemma {:induction false} FindingsHaveCauses(v: Option<Version>, p: Option<Profile>, expected: Option<Profile>,
                                              r: Result<Scan, ScanError>, f: Finding)
    ensures r.Err? ==> Findings(v, p, expected, r) == [Finding(XmlWellFormed, Error)]
    ensures r.Ok? && r.value.root != Some(NewReleaseMessage) ==>
              Findings(v, p, expected, r) == [Finding(WrongRoot, Error)]
    ensures r.Ok? && r.value.root == Some(NewReleaseMessage) ==>
              (f in Findings(v, p, expected, r) <==>
                 Cause(f.rule, v, p, expected, r.value)
                 && f.severity == if Advice(f.rule) then Warning else Error)
  {
    hide SectionFindings, VersionFindings, ProfileFindings, DanglingResources, DanglingReleases, Listed, FirstIsNoAlbum;
    if r.Ok? {
      var s := r.value;
      InSections(v, p, expected, s, f);
      InVersion(v, p, expected, s, f);
      InProfile(v, p, expected, s, f);
      InResources(s.releases.referenced, s.resources.defined, f);
      InReleases(s.dealRefs, s.releases.infos, f);
    }
  }
}
