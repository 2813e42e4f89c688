/**
 * Detection of an installed copy of the enhancement runtime and the address
 * of its latest release (core/src/game/ffnx_installation.rs).
 *
 * Reading the version resource of a library is the parameter `probe`: for
 * a path, the version information or why it could not be obtained. The
 * release lookup on the network is the parameter `lastTag`.
 */
module FfnxInstallation {
  import opened Wrappers
  import opened Paths
  import opened Decimal
  import opened Text
  import Installation
  import PeFormat

  datatype FfnxInstallation = FfnxInstallation(version: string)

  /** Why the version resource could not be read: the file is missing, or anything else. */
  datatype ProbeError = NotFound | Failed(error: PeFormat.Error)

  /** What `from_directory` reports: the installation, and whether a warning was logged. */
  datatype Detection = Detection(installation: Option<FfnxInstallation>, warned: bool)

  const SteamMarker := "AF3DN.P"
  const StandardMarker := "eax.dll"
  const ReleasesBase := "https://github.com/julianxhokaxhiu/FFNx/releases/download"
  const FallbackTag := "1.19.1"

  /** The library whose version identifies the runtime: the Steam driver, or the sound library the 2000 edition loads. */
  function Marker(steam: bool): (name: string)
    ensures steam ==> name == SteamMarker
    ensures !steam ==> name == StandardMarker
    ensures '/' !in name
  {
    if steam then SteamMarker else StandardMarker
  }

  /** `format!("{}.{}.{}", Major, Minor, Patch)` of the product version. */
  function VersionString(v: PeFormat.VsVersion): (s: string) {
    NatToString(v.major) + "." + NatToString(v.minor) + "." + NatToString(v.patch)
  }

  /** `from_directory`: a readable marker gives its version; a missing one nothing; any other failure nothing and a warning. */
  function FromDirectory(probe: Path -> Result<PeFormat.VersionInfo, ProbeError>, targetDir: Path, edition: Installation.Edition): (r: Detection)
    ensures r.installation.Some? <==> probe(Join(targetDir, Marker(edition.Steam?))).Ok?
    ensures r.installation.Some? ==>
      r.installation.value.version == VersionString(probe(Join(targetDir, Marker(edition.Steam?))).value.productVersion)
    ensures r.warned <==> probe(Join(targetDir, Marker(edition.Steam?))).Err? && probe(Join(targetDir, Marker(edition.Steam?))).error.Failed?
  {
    match probe(Join(targetDir, Marker(edition.Steam?)))
    case Ok(infos) => Detection(Some(FfnxInstallation(VersionString(infos.productVersion))), false)
    case Err(NotFound) => Detection(None, false)
    case Err(Failed(_)) => Detection(None, true)
  }

  /** The prefix of the archive name: the Steam build or the 2000 build. */
  function ArchivePrefix(edition: Installation.Edition): string {
    if edition.Steam? then "Steam" else "FF8_2000"
  }

  /** `{base}/{tag}/FFNx-{prefix}-v{tag}.0.zip`. */
  function DownloadUrl(tag: string, edition: Installation.Edition): string {
    ReleasesBase + "/" + tag + "/FFNx-" + ArchivePrefix(edition) + "-v" + tag + ".0.zip"
  }

  /** `find_last_stable_version_on_github`: the URL of the archive for the last tag, falling back to 1.19.1, and that tag. */
  function FindLastStableVersionOnGithub<E>(lastTag: Result<string, E>, edition: Installation.Edition): (r: (string, string))
    ensures lastTag.Ok? ==> r.1 == lastTag.value
    ensures lastTag.Err? ==> r.1 == FallbackTag
    ensures r.0 == DownloadUrl(r.1, edition)
  {
    var tag := lastTag.UnwrapOr(FallbackTag);
    (DownloadUrl(tag, edition), tag)
  }

  /* ---------- Partners: what the strings determine ---------- */

  /** A run of digits holds no dot. */
  lemma NoDot(n: nat)
    ensures '.' !in NatToString(n)
  {
  }

  /** The version string names major, minor and patch unambiguously: equal strings mean equal parts. */
  lemma VersionStringInjective(v: PeFormat.VsVersion, w: PeFormat.VsVersion)
    requires VersionString(v) == VersionString(w)
    ensures v.major == w.major && v.minor == w.minor && v.patch == w.patch
  {
    NoDot(v.major); NoDot(w.major); NoDot(v.minor); NoDot(w.minor);
    var rv := NatToString(v.minor) + "." + NatToString(v.patch);
    var rw := NatToString(w.minor) + "." + NatToString(w.patch);
    assert VersionString(v) == NatToString(v.major) + ['.'] + rv;
    assert VersionString(w) == NatToString(w.major) + ['.'] + rw;
    SplitAtSeparator(NatToString(v.major), rv, NatToString(w.major), rw, '.');
    SplitAtSeparator(NatToString(v.minor), NatToString(v.patch), NatToString(w.minor), NatToString(w.patch), '.');
    NatToStringInjective(v.major, w.major);
    NatToStringInjective(v.minor, w.minor);
    NatToStringInjective(v.patch, w.patch);
  }

  /** The version string reads back as the three parts, separated by dots. */
  lemma VersionStringParts(v: PeFormat.VsVersion)
    ensures exists a, b, c ::
      VersionString(v) == a + "." + b + "." + c && AllDigits(a) && AllDigits(b) && AllDigits(c)
      && DigitsValue(a) == v.major && DigitsValue(b) == v.minor && DigitsValue(c) == v.patch
  {
    DigitsValueOfNatToString(v.major);
    DigitsValueOfNatToString(v.minor);
    DigitsValueOfNatToString(v.patch);
    var a, b, c := NatToString(v.major), NatToString(v.minor), NatToString(v.patch);
    assert VersionString(v) == a + "." + b + "." + c;
  }

  /**
   * The download address names its tag and its build: two addresses are equal
   * only for the same tag and the same choice of Steam or 2000 build (the two
   * prefixes differ in length by an odd number, the tag occurs twice).
   */
  lemma DownloadUrlInjective(t: string, e: Installation.Edition, t': string, e': Installation.Edition)
    requires DownloadUrl(t, e) == DownloadUrl(t', e')
    ensures t == t' && (e.Steam? <==> e'.Steam?)
  {
    var u := DownloadUrl(t, e);
    var p, p' := ArchivePrefix(e), ArchivePrefix(e');
    assert |u| == |ReleasesBase| + 1 + |t| + 6 + |p| + 2 + |t| + 6;
    assert |u| == |ReleasesBase| + 1 + |t'| + 6 + |p'| + 2 + |t'| + 6;
    assert |p| == |p'|;
    assert |t| == |t'|;
    var k := |ReleasesBase| + 1;
    assert u[k..k + |t|] == t;
    assert u[k..k + |t|] == t';
    var m := k + |t| + 6;
    assert u[m..m + |p|] == p;
    assert u[m..m + |p|] == p';
  }

  /** The address always uses the tag that is returned next to it, and the fallback when the lookup failed. */
  lemma FallbackUrl<E>(err: E, edition: Installation.Edition)
    ensures FindLastStableVersionOnGithub(Err(err), edition).0
      == ReleasesBase + "/1.19.1/FFNx-" + ArchivePrefix(edition) + "-v1.19.1.0.zip"
  {
  }
}
