/**
  The business rules of `ddex_validate.rs` over a scanned message: version and profile detection
  from the raw text, required sections, profile rules and cross references.

  `ValidateErnMessage` pushes findings one by one; `Findings` says which ones come out, and
  `AcceptedExactlyWhen` says which messages have no error among them.
*/
module ErnValidate {
  import opened Common
  import opened XmlTree
  import opened ErnScan

  datatype Version = V382 | V42 | V43

  datatype Profile =
    | AudioAlbum | AudioSingle | VideoProfile | Mixed | Classical | Ringtone | DJ | ReleaseByRelease

  datatype Severity = Error | Warning

  datatype Rule =
    | XmlWellFormed | WrongRoot | SectionMissing(version: Option<Version>, section: Tag)
    | UpdateIndicatorMissing | ProfileVersionMismatch | ProfileMismatch | EmptyReleaseList
    | AlbumReleaseType | SingleReleases | VideoResource
    | DanglingResource(reference: string) | DanglingRelease(reference: string)

  datatype Finding = Finding(rule: Rule, severity: Severity)

  datatype Report = Report(version: Option<Version>, profile: Option<Profile>, findings: seq<Finding>)

  /** A received document: its raw text, its size and what the reader makes of it. */
  datatype Document = Document(text: string, bytes: nat, events: seq<Event>)

  // ---------------------------------------------------------------- searching raw text

  predicate MatchAt(text: string, needle: string, i: nat) {
    i + |needle| <= |text| && text[i..i + |needle|] == needle
  }

  predicate Contains(text: string, needle: string) {
    exists i: nat :: i <= |text| && MatchAt(text, needle, i)
  }

  /** First match at or after `from`. */
  function IndexFrom(text: string, needle: string, from: nat): (r: Option<nat>)
    requires from <= |text|
    ensures r.Some? ==> from <= r.value && MatchAt(text, needle, r.value)
    ensures forall i :: from <= i < (if r.Some? then r.value else |text| + 1) ==> !MatchAt(text, needle, i)
    decreases |text| - from
  {
    if MatchAt(text, needle, from) then Some(from)
    else if from == |text| then None
    else IndexFrom(text, needle, from + 1)
  }

  /** The value of the first `name="…"` in the raw text. */
  function AttributeValue(text: string, name: string): Option<string> {
    var needle := name + "=\"";
    match IndexFrom(text, needle, 0)
    case None => None
    case Some(i) =>
      var start := i + |needle|;
      match IndexFrom(text, "\"", start)
      case None => None
      case Some(end) => Some(text[start..end])
  }

  function DetectVersion(text: string): Option<Version> {
    if Contains(text, "http://ddex.net/xml/ern/43") || Contains(text, "MessageSchemaVersionId=\"ern/43\"")
    then Some(V43)
    else if Contains(text, "http://ddex.net/xml/ern/42") || Contains(text, "MessageSchemaVersionId=\"ern/42\"")
    then Some(V42)
    else if Contains(text, "http://ddex.net/xml/ern/382") || Contains(text, "MessageSchemaVersionId=\"ern/382\"")
    then Some(V382)
    else if Contains(text, "http://ddex.net/xml/ern/38") then Some(V382)
    else None
  }

  /** Longer, more specific names first. */
  function ProfileNamed(value: string): Option<Profile> {
    if Contains(value, "AudioAlbum") then Some(AudioAlbum)
    else if Contains(value, "AudioSingle") then Some(AudioSingle)
    else if Contains(value, "ReleaseByRelease") then Some(ReleaseByRelease)
    else if Contains(value, "Classical") then Some(Classical)
    else if Contains(value, "Ringtone") then Some(Ringtone)
    else if Contains(value, "Video") then Some(VideoProfile)
    else if Contains(value, "Mixed") then Some(Mixed)
    else if Contains(value, "DJ") then Some(DJ)
    else None
  }

  function DetectProfile(text: string): Option<Profile> {
    match AttributeValue(text, "ReleaseProfileVersionId")
    case None => None
    case Some(v) => ProfileNamed(v)
  }

  // ---------------------------------------------------------------- the findings

  function ErrorFinding(r: Rule): Finding { Finding(r, Error) }

  function WarningFinding(r: Rule): Finding { Finding(r, Warning) }

  function When(c: bool, f: Finding): seq<Finding> { if c then [f] else [] }

  predicate Version4(v: Option<Version>) { v == Some(V42) || v == Some(V43) }

  function SectionFindings(v: Option<Version>, has: Sections): seq<Finding> {
    When(!has.header, ErrorFinding(SectionMissing(v, MessageHeader)))
    + When(!has.releases, ErrorFinding(SectionMissing(v, ReleaseList)))
    + When(!has.resources, ErrorFinding(SectionMissing(v, ResourceList)))
    + When(Version4(v) && !has.deals, ErrorFinding(SectionMissing(v, DealList)))
  }

  function VersionFindings(v: Option<Version>, p: Option<Profile>, expected: Option<Profile>, s: Scan)
    : seq<Finding>
  {
    When(v == Some(V382) && !s.has.updateIndicator, WarningFinding(UpdateIndicatorMissing))
    + When(p == Some(ReleaseByRelease) && Version4(v), ErrorFinding(ProfileVersionMismatch))
    + When(p.Some? && expected.Some? && p != expected, WarningFinding(ProfileMismatch))
    + When(s.has.releases && s.releases.count == 0, ErrorFinding(EmptyReleaseList))
  }

  predicate AlbumType(t: Option<string>) { t == Some("Album") || t == Some("EP") }

  function ProfileFindings(p: Option<Profile>, s: Scan): seq<Finding> {
    if p == Some(AudioAlbum) then
      When(s.releases.infos != [] && !AlbumType(s.releases.infos[0].releaseType),
           WarningFinding(AlbumReleaseType))
    else if p == Some(AudioSingle) then
      When(s.releases.count > 1, WarningFinding(SingleReleases))
    else if p == Some(VideoProfile) then
      When(!s.resources.hasVideo, ErrorFinding(VideoResource))
    else []
  }

  function DanglingResources(refs: seq<string>, defined: seq<string>): seq<Finding>
    decreases |refs|
  {
    if refs == [] then []
    else
      DanglingResources(refs[..|refs| - 1], defined)
      + When(refs[|refs| - 1] !in defined, ErrorFinding(DanglingResource(refs[|refs| - 1])))
  }

  predicate Names(infos: seq<ReleaseInfo>, r: string) {
    exists i :: 0 <= i < |infos| && infos[i].reference == Some(r)
  }

  function DanglingReleases(refs: seq<string>, infos: seq<ReleaseInfo>): seq<Finding>
    decreases |refs|
  {
    if refs == [] then []
    else
      DanglingReleases(refs[..|refs| - 1], infos)
      + When(!Names(infos, refs[|refs| - 1]), ErrorFinding(DanglingRelease(refs[|refs| - 1])))
  }

  function ScanFindings(v: Option<Version>, p: Option<Profile>, expected: Option<Profile>, s: Scan)
    : seq<Finding>
  {
    if s.root != Some(NewReleaseMessage) then [ErrorFinding(WrongRoot)]
    else
      SectionFindings(v, s.has) + VersionFindings(v, p, expected, s) + ProfileFindings(p, s)
      + DanglingResources(s.releases.referenced, s.resources.defined)
      + DanglingReleases(s.dealRefs, s.releases.infos)
  }

  function Findings(v: Option<Version>, p: Option<Profile>, expected: Option<Profile>,
                    r: Result<Scan, ScanError>): seq<Finding>
  {
    match r
    case Err(_) => [ErrorFinding(XmlWellFormed)]
    case Ok(s) => ScanFindings(v, p, expected, s)
  }

  predicate IsValid(fs: seq<Finding>) {
    forall i :: 0 <= i < |fs| ==> fs[i].severity != Error
  }

  // ---------------------------------------------------------------- the validator

  /** Every resource a release points at must be defined. */
  method CheckResources(refs: seq<string>, definedList: seq<string>) returns (findings: seq<Finding>)
    ensures findings == DanglingResources(refs, definedList)
  {
    findings := [];
    var defined := set d | d in definedList;
    var i := 0;
    while i < |refs|
      invariant 0 <= i <= |refs|
      invariant findings == DanglingResources(refs[..i], definedList)
    {
      assert refs[..i + 1][..i] == refs[..i];
      if refs[i] !in defined {
        findings := findings + [ErrorFinding(DanglingResource(refs[i]))];
      }
      i := i + 1;
    }
    assert refs[..i] == refs;
  }

  /** Every release a deal points at must be in the release list. */
  method CheckReleases(refs: seq<string>, infos: seq<ReleaseInfo>) returns (findings: seq<Finding>)
    ensures findings == DanglingReleases(refs, infos)
  {
    findings := [];
    var releases := set k | 0 <= k < |infos| && infos[k].reference.Some? :: infos[k].reference.value;
    var i := 0;
    while i < |refs|
      invariant 0 <= i <= |refs|
      invariant findings == DanglingReleases(refs[..i], infos)
    {
      assert refs[..i + 1][..i] == refs[..i];
      assert Names(infos, refs[i]) <==> refs[i] in releases;
      if refs[i] !in releases {
        findings := findings + [ErrorFinding(DanglingRelease(refs[i]))];
      }
      i := i + 1;
    }
    assert refs[..i] == refs;
  }

  method ValidateErnMessage(doc: Document, expected: Option<Profile>) returns (report: Report)
    ensures report.version == DetectVersion(doc.text)
    ensures report.profile == DetectProfile(doc.text)
    ensures report.findings
         == Findings(report.version, report.profile, expected, ScanResult(doc.bytes, doc.events))
  {
    var version := DetectVersion(doc.text);
    var profile := DetectProfile(doc.text);
    var scanned := ScanDocument(doc.bytes, doc.events);
    if scanned.Err? {
      return Report(version, profile, [ErrorFinding(XmlWellFormed)]);
    }
    var scan := scanned.value;
    if scan.root != Some(NewReleaseMessage) {
      return Report(version, profile, [ErrorFinding(WrongRoot)]);
    }
    var findings := SectionFindings(version, scan.has);
    findings := findings + VersionFindings(version, profile, expected, scan);
    findings := findings + ProfileFindings(profile, scan);
    var resources := CheckResources(scan.releases.referenced, scan.resources.defined);
    findings := findings + resources;
    var deals := CheckReleases(scan.dealRefs, scan.releases.infos);
    report := Report(version, profile, findings + deals);
  }

  // ---------------------------------------------------------------- what acceptance means

  lemma {:induction false} ValidAppend(a: seq<Finding>, b: seq<Finding>)
    ensures IsValid(a + b) <==> IsValid(a) && IsValid(b)
  {
    if IsValid(a + b) {
      forall i | 0 <= i < |a| ensures a[i].severity != Error { assert (a + b)[i] == a[i]; }
      forall i | 0 <= i < |b| ensures b[i].severity != Error { assert (a + b)[|a| + i] == b[i]; }
    }
  }

  lemma {:induction false} ResourcesResolve(refs: seq<string>, defined: seq<string>)
    ensures IsValid(DanglingResources(refs, defined)) <==> forall i :: 0 <= i < |refs| ==> refs[i] in defined
    ensures IsValid(DanglingResources(refs, defined)) ==> DanglingResources(refs, defined) == []
    decreases |refs|
  {
    if refs != [] {
      var q, r := refs[..|refs| - 1], refs[|refs| - 1];
      ResourcesResolve(q, defined);
      ValidAppend(DanglingResources(q, defined), When(r !in defined, ErrorFinding(DanglingResource(r))));
      assert r !in defined ==> When(r !in defined, ErrorFinding(DanglingResource(r)))[0].severity == Error;
      assert (forall i :: 0 <= i < |q| ==> refs[i] in defined) <==> (forall i :: 0 <= i < |q| ==> q[i] in defined);
    }
  }

  lemma {:induction false} ReleasesResolve(refs: seq<string>, infos: seq<ReleaseInfo>)
    ensures IsValid(DanglingReleases(refs, infos)) <==> forall i :: 0 <= i < |refs| ==> Names(infos, refs[i])
    ensures IsValid(DanglingReleases(refs, infos)) ==> DanglingReleases(refs, infos) == []
    decreases |refs|
  {
    if refs != [] {
      var q, r := refs[..|refs| - 1], refs[|refs| - 1];
      ReleasesResolve(q, infos);
      ValidAppend(DanglingReleases(q, infos), When(!Names(infos, r), ErrorFinding(DanglingRelease(r))));
      assert !Names(infos, r) ==> When(!Names(infos, r), ErrorFinding(DanglingRelease(r)))[0].severity == Error;
      assert (forall i :: 0 <= i < |q| ==> Names(infos, refs[i]))
        <==> (forall i :: 0 <= i < |q| ==> Names(infos, q[i]));
    }
  }

  /** No dangling reference, every section there, and the profile possible in this version. */
  predicate Sound(v: Option<Version>, p: Option<Profile>, s: Scan) {
    && s.root == Some(NewReleaseMessage)
    && s.has.header && s.has.releases && s.has.resources
    && (Version4(v) ==> s.has.deals && p != Some(ReleaseByRelease))
    && s.releases.count > 0
    && (p == Some(VideoProfile) ==> s.resources.hasVideo)
    && (forall i :: 0 <= i < |s.releases.referenced| ==> s.releases.referenced[i] in s.resources.defined)
    && (forall i :: 0 <= i < |s.dealRefs| ==> Names(s.releases.infos, s.dealRefs[i]))
  }

  lemma {:induction false} ValidWhen(c: bool, r: Rule)
    ensures IsValid(When(c, ErrorFinding(r))) <==> !c
    ensures IsValid(When(c, WarningFinding(r)))
  {
    if c {
      assert When(c, ErrorFinding(r))[0].severity == Error;
    }
  }

  lemma {:induction false} SectionsValid(v: Option<Version>, has: Sections)
    ensures IsValid(SectionFindings(v, has))
       <==> has.header && has.releases && has.resources && (Version4(v) ==> has.deals)
  {
    var a := When(!has.header, ErrorFinding(SectionMissing(v, MessageHeader)));
    var b := When(!has.releases, ErrorFinding(SectionMissing(v, ReleaseList)));
    var c := When(!has.resources, ErrorFinding(SectionMissing(v, ResourceList)));
    var d := When(Version4(v) && !has.deals, ErrorFinding(SectionMissing(v, DealList)));
    ValidWhen(!has.header, SectionMissing(v, MessageHeader));
    ValidWhen(!has.releases, SectionMissing(v, ReleaseList));
    ValidWhen(!has.resources, SectionMissing(v, ResourceList));
    ValidWhen(Version4(v) && !has.deals, SectionMissing(v, DealList));
    ValidAppend(a, b);
    ValidAppend(a + b, c);
    ValidAppend(a + b + c, d);
  }

  lemma {:induction false} VersionValid(v: Option<Version>, p: Option<Profile>, expected: Option<Profile>, s: Scan)
    ensures IsValid(VersionFindings(v, p, expected, s))
       <==> !(p == Some(ReleaseByRelease) && Version4(v)) && !(s.has.releases && s.releases.count == 0)
  {
    var a := When(v == Some(V382) && !s.has.updateIndicator, WarningFinding(UpdateIndicatorMissing));
    var b := When(p == Some(ReleaseByRelease) && Version4(v), ErrorFinding(ProfileVersionMismatch));
    var c := When(p.Some? && expected.Some? && p != expected, WarningFinding(ProfileMismatch));
    var d := When(s.has.releases && s.releases.count == 0, ErrorFinding(EmptyReleaseList));
    ValidWhen(v == Some(V382) && !s.has.updateIndicator, UpdateIndicatorMissing);
    ValidWhen(p == Some(ReleaseByRelease) && Version4(v), ProfileVersionMismatch);
    ValidWhen(p.Some? && expected.Some? && p != expected, ProfileMismatch);
    ValidWhen(s.has.releases && s.releases.count == 0, EmptyReleaseList);
    ValidAppend(a, b);
    ValidAppend(a + b, c);
    ValidAppend(a + b + c, d);
  }

  lemma {:induction false} ProfileValid(p: Option<Profile>, s: Scan)
    ensures IsValid(ProfileFindings(p, s)) <==> (p == Some(VideoProfile) ==> s.resources.hasVideo)
  {
    ValidWhen(!s.resources.hasVideo, VideoResource);
  }

  lemma {:induction false} ValidFive(a: seq<Finding>, b: seq<Finding>, c: seq<Finding>,
                                     d: seq<Finding>, e: seq<Finding>)
    ensures IsValid(a + b + c + d + e)
       <==> IsValid(a) && IsValid(b) && IsValid(c) && IsValid(d) && IsValid(e)
  {
    ValidAppend(a, b);
    ValidAppend(a + b, c);
    ValidAppend(a + b + c, d);
    ValidAppend(a + b + c + d, e);
  }

  /** A message is accepted exactly when its record is sound; the expected profile never decides. */
  lemma {:induction false} AcceptedExactlyWhen(v: Option<Version>, p: Option<Profile>, expected: Option<Profile>,
                            r: Result<Scan, ScanError>)
    ensures IsValid(Findings(v, p, expected, r)) <==> r.Ok? && Sound(v, p, r.value)
  {
    if r.Err? || r.value.root != Some(NewReleaseMessage) {
      assert Findings(v, p, expected, r)[0].severity == Error;
    } else {
      var s := r.value;
      SectionsValid(v, s.has);
      VersionValid(v, p, expected, s);
      ProfileValid(p, s);
      ResourcesResolve(s.releases.referenced, s.resources.defined);
      ReleasesResolve(s.dealRefs, s.releases.infos);
      ValidFive(SectionFindings(v, s.has), VersionFindings(v, p, expected, s), ProfileFindings(p, s),
                DanglingResources(s.releases.referenced, s.resources.defined),
                DanglingReleases(s.dealRefs, s.releases.infos));
    }
  }
}
