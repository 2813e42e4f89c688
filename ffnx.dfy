/**
 * The older entry points to the enhancement runtime (core/src/game/ffnx.rs):
 * the installed version as a bare string and the download address alone.
 * They probe the same marker and build the same address as
 * `FfnxInstallation`, which the lemmas below establish.
 */
module Ffnx {
  import opened Wrappers
  import opened Paths
  import Installation
  import PeFormat
  import FI = FfnxInstallation

  /** `is_installed`: the version of the marker library, None when it is missing or unreadable (the latter with a warning). */
  function IsInstalled(probe: Path -> Result<PeFormat.VersionInfo, FI.ProbeError>, targetDir: Path, steam: bool): (r: (Option<string>, bool))
    ensures r.0.Some? <==> probe(Join(targetDir, FI.Marker(steam))).Ok?
    ensures r.0.Some? ==> r.0.value == FI.VersionString(probe(Join(targetDir, FI.Marker(steam))).value.productVersion)
    ensures r.1 <==> probe(Join(targetDir, FI.Marker(steam))).Err? && probe(Join(targetDir, FI.Marker(steam))).error.Failed?
  {
    match probe(Join(targetDir, if steam then FI.SteamMarker else FI.StandardMarker))
    case Ok(infos) => (Some(FI.VersionString(infos.productVersion)), false)
    case Err(e) => (None, e.Failed?)
  }

  /** `find_last_stable_version_on_github`: the archive address for the last tag, 1.19.1 when the lookup fails. */
  function FindLastStableVersionOnGithub<E>(lastTag: Result<string, E>, edition: Installation.Edition): (url: string)
    ensures lastTag.Ok? ==> url == FI.DownloadUrl(lastTag.value, edition)
    ensures lastTag.Err? ==> url == FI.DownloadUrl(FI.FallbackTag, edition)
  {
    var lastTag := lastTag.UnwrapOr("1.19.1");
    var filenamePrefix := if edition.Steam? then "Steam" else "FF8_2000";
    FI.ReleasesBase + "/" + lastTag + "/FFNx-" + filenamePrefix + "-v" + lastTag + ".0.zip"
  }

  /** Both detections agree: same library probed for the edition, same version string, same warning. */
  lemma IsInstalledAgrees(probe: Path -> Result<PeFormat.VersionInfo, FI.ProbeError>, targetDir: Path, edition: Installation.Edition)
    ensures IsInstalled(probe, targetDir, edition.Steam?).0
      == match FI.FromDirectory(probe, targetDir, edition).installation
         case None => None
         case Some(i) => Some(i.version)
    ensures IsInstalled(probe, targetDir, edition.Steam?).1 == FI.FromDirectory(probe, targetDir, edition).warned
  {
  }

  /** Both address builders agree, and the address names the tag the other one returns. */
  lemma UrlAgrees<E>(lastTag: Result<string, E>, edition: Installation.Edition)
    ensures FindLastStableVersionOnGithub(lastTag, edition) == FI.FindLastStableVersionOnGithub(lastTag, edition).0
  {
  }
}
