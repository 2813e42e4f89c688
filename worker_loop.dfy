/**
 * The launcher's worker (gui/src/worker_loop.rs): it finds or asks for the
 * game, installs the enhancement runtime next to it, then serves the
 * interface's messages one at a time until told to quit.
 *
 * The message channel is a finite sequence of messages read from an index;
 * the file system, downloads, launches and the settings files are the
 * parameters of a `World`.
 */
module WorkerLoop {
  import opened Wrappers
  import opened Ints
  import opened Paths
  import opened Toml
  import opened Screen
  import Inst = Installation
  import C = Config
  import F = FfnxConfig
  import L = LazyFfnxConfig
  import U = UiHelper
  import InputConfigFile
  import PeFormat
  import FI = FfnxInstallation

  /* ---------- Settings written from the interface ---------- */

  const CurrentResolutionKey := "current_resolution"

  /** `get_bool(CFG_FULLSCREEN, true).unwrap_or(true)` on the cached settings. */
  function IsFullscreen(doc: Document): bool {
    L.BoolOrDefault(doc, F.FullscreenKey, true)
  }

  /** `get_int(key, 0).unwrap_or(0)` on the cached settings: the stored 64-bit integer, 0 when absent or not an integer. */
  function StoredInt(doc: Document, key: string): (n: i64)
    ensures key in doc && doc[key].Value? && doc[key].v.Integer? ==> n == doc[key].v.i
    ensures !(key in doc && doc[key].Value? && doc[key].v.Integer?) ==> n == 0
  {
    GetInteger(doc, key, 0).UnwrapOr(0)
  }

  /** `set_int`: the value stored under the key, nothing else changed. */
  function WithInt(doc: Document, key: string, v: i64): Document {
    doc[key := Value(Integer(v))]
  }

  /**
   * A list's length never reaches `isize::MAX`, so a negative index, which
   * `as usize` turns into one above 2^63, is never in range.
   */
  predicate ListLength(n: nat) {
    n < 0x8000_0000_0000_0000
  }

  /** `resolutions.get(index as usize)`. */
  function ResolutionAt(screen: Screen, index: i32): (r: Option<Resolution>)
    requires ListLength(|screen.resolutions|)
    ensures r.Some? <==> 0 <= index < |screen.resolutions|
    ensures r.Some? ==> r.value == screen.resolutions[index]
  {
    var i := I32AsUsize(index);
    if i < |screen.resolutions| then Some(screen.resolutions[i]) else None
  }

  /** The size of the chosen resolution, (0, 0) when the index is out of range. */
  function SizeAt(screen: Screen, index: i32): (u32, u32)
    requires ListLength(|screen.resolutions|)
  {
    match ResolutionAt(screen, index)
    case Some(r) => (r.w, r.h)
    case None => (0, 0)
  }

  /**
   * Choosing a resolution: its size becomes the fullscreen size, and the
   * window size too when fullscreen; a windowed game keeps the size it
   * stored for the window. The index itself is not stored.
   */
  function SetCurrentResolution(doc: Document, screen: Screen, index: i32): Document
    requires ListLength(|screen.resolutions|)
  {
    var (w, h) := SizeAt(screen, index);
    var (x, y) :=
      if IsFullscreen(doc) then (w as i64, h as i64)
      else (StoredInt(doc, F.WindowSizeXWindowKey), StoredInt(doc, F.WindowSizeYWindowKey));
    WithInt(WithInt(WithInt(WithInt(doc, F.WindowSizeXKey, x), F.WindowSizeYKey, y), F.WindowSizeXFullscreenKey, w as i64), F.WindowSizeYFullscreenKey, h as i64)
  }

  /** `window_size_x` or `window_size_y`. */
  predicate IsWindowSizeKey(key: string) {
    key == F.WindowSizeXKey || key == F.WindowSizeYKey
  }

  /**
   * Setting a window size: the value is remembered under `{key}_window`;
   * the key itself takes it when windowed and keeps the fullscreen size
   * (`{key}_fullscreen`) when fullscreen.
   */
  function SetWindowSize(doc: Document, key: string, value: i32): Document {
    var v := if IsFullscreen(doc) then StoredInt(doc, key + "_fullscreen") else value as i64;
    WithInt(WithInt(doc, key, v), key + "_window", value as i64)
  }

  /** `SetFfnxConfigInt`: the resolution and window-size keys have their own rules, any other key is stored as given. */
  function SetIntSetting(doc: Document, screen: Screen, key: string, value: i32): Document
    requires ListLength(|screen.resolutions|)
  {
    if key == CurrentResolutionKey then SetCurrentResolution(doc, screen, value)
    else if IsWindowSizeKey(key) then SetWindowSize(doc, key, value)
    else WithInt(doc, key, value as i64)
  }

  /** `SetFfnxConfigCurrentRefreshRate`: the chosen rate of the chosen resolution, 0 when either index is out of range. */
  function SetRefreshRate(doc: Document, screen: Screen, resolution: i32, rate: i32): Document
    requires ListLength(|screen.resolutions|)
  {
    var freqs := U.RatesAt(screen, resolution);
    var i := I32AsUsize(rate);
    WithInt(doc, F.RefreshRateKey, if i < |freqs| then freqs[i] as i64 else 0)
  }

  /** Choosing a resolution stores exactly the four size keys as described, out-of-range indices giving (0, 0). */
  lemma CurrentResolutionStored(doc: Document, screen: Screen, index: i32)
    requires ListLength(|screen.resolutions|)
    ensures var d := SetCurrentResolution(doc, screen, index);
      var (w, h) := if 0 <= index < |screen.resolutions| then (screen.resolutions[index].w, screen.resolutions[index].h) else (0, 0);
      && d[F.WindowSizeXFullscreenKey] == Value(Integer(w)) && d[F.WindowSizeYFullscreenKey] == Value(Integer(h))
      && (IsFullscreen(doc) ==> d[F.WindowSizeXKey] == Value(Integer(w)) && d[F.WindowSizeYKey] == Value(Integer(h)))
      && (!IsFullscreen(doc) ==>
            d[F.WindowSizeXKey] == Value(Integer(StoredInt(doc, F.WindowSizeXWindowKey)))
            && d[F.WindowSizeYKey] == Value(Integer(StoredInt(doc, F.WindowSizeYWindowKey))))
      && d.Keys == doc.Keys + {F.WindowSizeXKey, F.WindowSizeYKey, F.WindowSizeXFullscreenKey, F.WindowSizeYFullscreenKey}
      && (forall k | k in doc && k !in {F.WindowSizeXKey, F.WindowSizeYKey, F.WindowSizeXFullscreenKey, F.WindowSizeYFullscreenKey} :: d[k] == doc[k])
  {
  }

  /** Setting a window size remembers the value under `_window`, and the key follows the mode. */
  lemma WindowSizeStored(doc: Document, key: string, value: i32)
    requires IsWindowSizeKey(key)
    ensures var d := SetWindowSize(doc, key, value);
      && d[key + "_window"] == Value(Integer(value))
      && (IsFullscreen(doc) ==> d[key] == Value(Integer(StoredInt(doc, key + "_fullscreen"))))
      && (!IsFullscreen(doc) ==> d[key] == Value(Integer(value)))
      && d.Keys == doc.Keys + {key, key + "_window"}
      && (forall k | k in doc && k != key && k != key + "_window" :: d[k] == doc[k])
  {
    assert key != key + "_window" by {
      assert |key + "_window"| > |key|;
    }
  }

  /** Any other integer key is stored as given; `current_resolution` itself is never stored. */
  lemma IntSettingStored(doc: Document, screen: Screen, key: string, value: i32)
    requires ListLength(|screen.resolutions|)
    ensures var d := SetIntSetting(doc, screen, key, value);
      && (key != CurrentResolutionKey && !IsWindowSizeKey(key) ==> d == doc[key := Value(Integer(value))])
      && (key == CurrentResolutionKey ==> (key in d <==> key in doc) && (key in doc ==> d[key] == doc[key]))
  {
  }

  /** `x as i64 as i32 as u32` gives back any 32-bit unsigned value. */
  lemma U32ThroughI32(w: u32)
    ensures I32AsU32(I64AsI32(w)) == w
  {
    var r := I64AsI32(w);
    if r < 0 {
      assert r - w == -0x1_0000_0000;
    }
  }

  /** A rate listed once is found at its own index. */
  lemma FirstOccurrence(fs: seq<u32>, j: nat)
    requires j < |fs| && NoDuplicates(fs)
    ensures fs[j] !in fs[..j]
  {
    assert fs == fs[..j] + ([fs[j]] + fs[j + 1..]);
    assert multiset(fs)[fs[j]] == multiset(fs[..j])[fs[j]] + 1 + multiset(fs[j + 1..])[fs[j]];
  }

  /**
   * What the settings page shows after a resolution and then one of its
   * rates are chosen is that resolution and that rate, when no two
   * resolutions share a size, the size has no zero side, the rate is listed
   * once and is not zero (a zero size or rate stands for the current mode).
   */
  lemma ChosenModeShownBack(doc: Document, screen: Screen, i: i32, j: i32)
    requires U.RatesReadable(screen) && |screen.resolutions| < 0x8000_0000
    requires 0 <= i < |screen.resolutions| && DistinctSizes(screen.resolutions)
    requires screen.resolutions[i].w != 0 && screen.resolutions[i].h != 0
    requires 0 <= j < |screen.resolutions[i].freqs| < 0x8000_0000
    requires NoDuplicates(screen.resolutions[i].freqs) && screen.resolutions[i].freqs[j] != 0
    ensures var d := SetRefreshRate(SetCurrentResolution(doc, screen, i), screen, i, j);
      U.Settings(d, screen).currentResolution == i && U.Settings(d, screen).currentRefreshRate == j
  {
    var r := screen.resolutions[i];
    var d1 := SetCurrentResolution(doc, screen, i);
    var d := SetRefreshRate(d1, screen, i, j);
    CurrentResolutionStored(doc, screen, i);
    assert d[F.WindowSizeXFullscreenKey] == Value(Integer(r.w)) && d[F.WindowSizeYFullscreenKey] == Value(Integer(r.h));
    assert d[F.RefreshRateKey] == Value(Integer(r.freqs[j]));
    ModeShown(d, screen, i, j);
  }

  /** A document holding a listed mode's size as the fullscreen size and its rate shows that mode. */
  lemma ModeShown(d: Document, screen: Screen, i: i32, j: i32)
    requires U.RatesReadable(screen) && |screen.resolutions| < 0x8000_0000
    requires 0 <= i < |screen.resolutions| && DistinctSizes(screen.resolutions)
    requires screen.resolutions[i].w != 0 && screen.resolutions[i].h != 0
    requires 0 <= j < |screen.resolutions[i].freqs| < 0x8000_0000
    requires NoDuplicates(screen.resolutions[i].freqs) && screen.resolutions[i].freqs[j] != 0
    requires F.WindowSizeXFullscreenKey in d && d[F.WindowSizeXFullscreenKey] == Value(Integer(screen.resolutions[i].w))
    requires F.WindowSizeYFullscreenKey in d && d[F.WindowSizeYFullscreenKey] == Value(Integer(screen.resolutions[i].h))
    requires F.RefreshRateKey in d && d[F.RefreshRateKey] == Value(Integer(screen.resolutions[i].freqs[j]))
    ensures U.Settings(d, screen).currentResolution == i && U.Settings(d, screen).currentRefreshRate == j
  {
    var r := screen.resolutions[i];
    U32ThroughI32(r.w);
    U32ThroughI32(r.h);
    U32ThroughI32(r.freqs[j]);
    assert L.IntOrDefault(d, F.WindowSizeXFullscreenKey, 0) == I64AsI32(r.w);
    assert L.IntOrDefault(d, F.WindowSizeYFullscreenKey, 0) == I64AsI32(r.h);
    assert L.IntOrDefault(d, F.RefreshRateKey, 0) == I64AsI32(r.freqs[j]);
    var p := Position(screen, r.w, r.h);
    assert TargetSize(screen, r.w, r.h) == (r.w, r.h);
    assert p.Some? ==> p.value <= i as nat;
    assert p == Some(i as nat);
    U.CurrentResolutionChosen(d, screen);
    FirstOccurrence(r.freqs, j as nat);
    assert RefreshRatePosition(screen, i as nat, r.freqs[j]) == Some(j as nat);
  }

  /** The window size set from the interface is what the settings page shows back, in either mode. */
  lemma WindowSizeShownBack(doc: Document, screen: Screen, key: string, value: i32)
    requires U.RatesReadable(screen) && IsWindowSizeKey(key)
    ensures var s := U.Settings(SetWindowSize(doc, key, value), screen);
      (key == F.WindowSizeXKey ==> s.windowSizeX == value) && (key == F.WindowSizeYKey ==> s.windowSizeY == value)
  {
    var d := SetWindowSize(doc, key, value);
    WindowSizeStored(doc, key, value);
    if key == F.WindowSizeXKey {
      assert key + "_window" == F.WindowSizeXWindowKey;
      assert L.IntOrDefault(d, F.WindowSizeXWindowKey, 0) == value;
      WindowSizeXShown(d, screen);
    } else {
      assert key + "_window" == F.WindowSizeYWindowKey;
      assert L.IntOrDefault(d, F.WindowSizeYWindowKey, 0) == value;
      WindowSizeYShown(d, screen);
    }
  }

  lemma WindowSizeXShown(d: Document, screen: Screen)
    requires U.RatesReadable(screen)
    requires F.WindowSizeXWindowKey in d && d[F.WindowSizeXWindowKey].Value? && d[F.WindowSizeXWindowKey].v.Integer?
    requires -0x8000_0000 <= d[F.WindowSizeXWindowKey].v.i < 0x8000_0000
    ensures U.Settings(d, screen).windowSizeX == d[F.WindowSizeXWindowKey].v.i
  {
  }

  lemma WindowSizeYShown(d: Document, screen: Screen)
    requires U.RatesReadable(screen)
    requires F.WindowSizeYWindowKey in d && d[F.WindowSizeYWindowKey].Value? && d[F.WindowSizeYWindowKey].v.Integer?
    requires -0x8000_0000 <= d[F.WindowSizeYWindowKey].v.i < 0x8000_0000
    ensures U.Settings(d, screen).windowSizeY == d[F.WindowSizeYWindowKey].v.i
  {
  }

  /* ---------- The 1.02 patch ---------- */

  const PatchBaseUrl := "https://www.ff8.fr/download/programs/"

  /** The 1.02 update for a 1.00 game, by publisher; none for any other version. */
  function PatchName(version: Option<(Inst.Version, Inst.Publisher)>): (name: Option<string>)
    ensures name.Some? <==> version.Some? && version.value.0 == Inst.V100
  {
    if version.None? || !version.value.0.V100? then None
    else
      Some(match version.value.1
        case EaJp => "FF8EasqPatch"
        case EaUs => "FF8SqeaPatch"
        case EidosUk => "FF8SqeaPatch"
        case EidosDe => "FF8EidosGerV12"
        case EidosFr => "FF8EidosFre"
        case EidosIt => "ff8ngita"
        case EidosSp => "ff8ngspa")
  }

  /** Where the patch is downloaded from. */
  function PatchUrl(name: string): string {
    PatchBaseUrl + name + ".zip"
  }

  /**
   * The US and UK editions share one patch; every other publisher has its
   * own, and so its own address.
   */
  lemma PatchesByPublisher(p: Inst.Publisher, q: Inst.Publisher)
    ensures var a := PatchName(Some((Inst.V100, p)));
      var b := PatchName(Some((Inst.V100, q)));
      (PatchUrl(a.value) == PatchUrl(b.value) <==> a == b)
      && (a == b <==> p == q || (p in {Inst.EaUs, Inst.EidosUk} && q in {Inst.EaUs, Inst.EidosUk}))
  {
    var a := PatchName(Some((Inst.V100, p))).value;
    var b := PatchName(Some((Inst.V100, q))).value;
    if PatchUrl(a) == PatchUrl(b) {
      assert a == PatchUrl(a)[|PatchBaseUrl|..|PatchUrl(a)| - 4];
      assert b == PatchUrl(b)[|PatchBaseUrl|..|PatchUrl(b)| - 4];
    }
  }

  /* ---------- Installing the runtime next to the game ---------- */

  /** What installing does to the outside world, in order. */
  datatype Action =
    | DownloadFfnx(url: string, dir: Path)
    | SaveFfnxConfig(path: Path, doc: Document)
    | ReplaceLauncher(appPath: Path)
    | CopyFile(from: Path, to: Path)
    | DownloadPatch(url: string, dir: Path)
    | RenameFile(from: Path, to: Path)
    | ReadVersionInfo(path: Path)
    | CreateDirAll(path: Path)
    | WriteInputConfig(config: InputConfigFile.InputConfig, path: Path)
    | Patch4gb(exe: Path)

  /** An action taken, and whether its failure fails the installation (`?`) or is only logged. */
  datatype Step = Step(action: Action, required: bool)

  /** Why installing failed: a required action failed, or the downloaded runtime was still not found. */
  datatype InstallError = Failed(action: Action) | InvalidFfnxInstallation

  /**
   * The world installing sees: where things go, which files exist once
   * the runtime is in place, which actions succeed, the runtime's version
   * resource before and after downloading it, the settings file it reads in
   * the runtime's directory, the product name of an installed `eax.dll`,
   * and the address of the runtime release for an edition and update
   * channel.
   */
  datatype InstallWorld = InstallWorld(
    unix: bool,
    envFfnxDir: Path,
    mumbaDir: Path,
    ffnxExeName: string,
    present: Path -> bool,
    succeeds: Action -> bool,
    probeBefore: Path -> Result<PeFormat.VersionInfo, FI.ProbeError>,
    probeAfter: Path -> Result<PeFormat.VersionInfo, FI.ProbeError>,
    ffnxSettings: Result<Document, L.FileError>,
    eaxProductName: Option<string>,
    releaseUrl: (Inst.Edition, C.UpdateChannel) -> string)

  /** The actions taken so far, and the required one that failed, after which nothing more is done. */
  datatype Progress = Progress(trace: seq<Step>, failed: Option<Action>)

  /** Every required action taken succeeded, except the last one when it failed, and then nothing follows it. */
  predicate Consistent(w: InstallWorld, p: Progress) {
    && (forall k :: 0 <= k < |p.trace| && p.trace[k].required && (p.failed.None? || k < |p.trace| - 1) ==> w.succeeds(p.trace[k].action))
    && (p.failed.Some? ==> |p.trace| > 0 && p.trace[|p.trace| - 1] == Step(p.failed.value, true) && !w.succeeds(p.failed.value))
  }

  /** Takes one action unless an earlier required one failed. */
  function Do(w: InstallWorld, p: Progress, a: Action, required: bool): (r: Progress)
    ensures p.failed.Some? ==> r == p
    ensures p.failed.None? ==> r.trace == p.trace + [Step(a, required)]
    ensures p.failed.None? ==> (r.failed.Some? <==> required && !w.succeeds(a)) && (r.failed.Some? ==> r.failed.value == a)
    ensures Consistent(w, p) ==> Consistent(w, r)
  {
    if p.failed.Some? then p
    else Progress(p.trace + [Step(a, required)], if required && !w.succeeds(a) then Some(a) else None)
  }

  /** The runtime's directory: inside the game's directory on Unix (the game runs in a Windows layer), the launcher's own otherwise. */
  function FfnxDir(w: InstallWorld, inst: Inst.Installation): Path {
    if w.unix then Join(inst.appPath, "mumba") else w.envFfnxDir
  }

  /** The runtime found in its directory, or downloaded there and then found. */
  function Acquire(w: InstallWorld, inst: Inst.Installation, channel: C.UpdateChannel, dir: Path): (r: (Option<FI.FfnxInstallation>, Progress))
    ensures Consistent(w, r.1)
    ensures inst.edition.Steam? ==> AllExpected(w, inst, r.1)
    ensures forall k :: 0 <= k < |r.1.trace| ==> r.1.trace[k].action.DownloadFfnx?
    ensures r.1.failed.Some? ==> r.0.None?
  {
    match FI.FromDirectory(w.probeBefore, dir, inst.edition).installation
    case Some(found) => (Some(found), Progress([], None))
    case None =>
      var p := Do(w, Progress([], None), DownloadFfnx(w.releaseUrl(inst.edition, channel), dir), true);
      if p.failed.Some? then (None, p)
      else (FI.FromDirectory(w.probeAfter, dir, inst.edition).installation, p)
  }

  /** The overlays the runtime would draw over the game. */
  const ShowFpsKey := "show_fps"
  const ShowRendererBackendKey := "show_renderer_backend"
  const ShowStatsKey := "show_stats"
  const ShowVersionKey := "show_version"

  /** The runtime's settings with its overlays turned off. */
  function WithoutOverlays(doc: Document): Document {
    doc[ShowFpsKey := Value(Boolean(false))][ShowRendererBackendKey := Value(Boolean(false))]
      [ShowStatsKey := Value(Boolean(false))][ShowVersionKey := Value(Boolean(false))]
  }

  /** The settings file written while installing: the one read (empty when unreadable) with the overlays off. */
  function InstallSettings(w: InstallWorld, dir: Path): Action {
    SaveFfnxConfig(Join(dir, L.ConfigFileName), WithoutOverlays(w.ffnxSettings.UnwrapOr(map[])))
  }

  /**
   * What every action taken while installing satisfies: the 1.02 patch is
   * downloaded only for a 2000 edition at version 1.00 missing
   * `binkw32.dll`, from its publisher's address, and its failure is only
   * logged; on Steam every action is required; the settings written are the
   * ones read with the overlays off.
   */
  predicate Expected(w: InstallWorld, inst: Inst.Installation, s: Step) {
    && (s.action.DownloadPatch? ==>
          && inst.edition.Standard? && inst.version.Some? && inst.version.value.0.V100?
          && !w.present(Join(FfnxDir(w, inst), "binkw32.dll"))
          && s.action.url == PatchUrl(PatchName(inst.version).value) && !s.required)
    && (inst.edition.Steam? ==> s.required)
    && (s.action.SaveFfnxConfig? ==> s.action.doc == WithoutOverlays(w.ffnxSettings.UnwrapOr(map[])))
  }

  predicate AllExpected(w: InstallWorld, inst: Inst.Installation, p: Progress) {
    forall k :: 0 <= k < |p.trace| ==> Expected(w, inst, p.trace[k])
  }

  /** The Steam launcher is replaced, and the game's executable copied into the runtime's directory when not there yet. */
  function ExeStage(w: InstallWorld, inst: Inst.Installation, exe: Path, p: Progress): (r: Progress)
    ensures Consistent(w, p) ==> Consistent(w, r)
    ensures AllExpected(w, inst, p) ==> AllExpected(w, inst, r)
  {
    var p1 := if inst.edition.Steam? then Do(w, p, ReplaceLauncher(inst.appPath), true) else p;
    if !w.present(exe) then Do(w, p1, CopyFile(Inst.ExePath(inst), exe), true) else p1
  }

  /**
   * Without `binkw32.dll` in the runtime's directory: a 2000 edition gets
   * the 1.02 patch of its publisher, whose executable replaces the copied
   * one (a failed download, or an unknown version, is only logged); other
   * editions copy the game's library.
   */
  function BinkStage(w: InstallWorld, inst: Inst.Installation, dir: Path, exe: Path, p: Progress): (r: Progress)
    requires dir == FfnxDir(w, inst)
    ensures Consistent(w, p) ==> Consistent(w, r)
    ensures AllExpected(w, inst, p) ==> AllExpected(w, inst, r)
  {
    var bink := Join(dir, "binkw32.dll");
    if w.present(bink) then p
    else if inst.edition.Standard? then
      match PatchName(inst.version)
      case None => p
      case Some(name) =>
        var download := DownloadPatch(PatchUrl(name), dir);
        var p1 := Do(w, p, download, false);
        if p.failed.None? && w.succeeds(download) then Do(w, p1, RenameFile(Join(dir, "FF8.exe"), exe), true) else p1
    else Do(w, p, CopyFile(Join(inst.appPath, "binkw32.dll"), bink), true)
  }

  /**
   * The sound library: on Steam `eax.dll` is installed when missing or when
   * the one there is the runtime's own (reading its version must succeed);
   * elsewhere `creative_eax.dll` is installed when missing, a failure being
   * only logged.
   */
  function EaxStage(w: InstallWorld, inst: Inst.Installation, dir: Path, p: Progress): (r: Progress)
    requires dir == FfnxDir(w, inst)
    ensures Consistent(w, p) ==> Consistent(w, r)
    ensures AllExpected(w, inst, p) ==> AllExpected(w, inst, r)
  {
    if inst.edition.Steam? then
      var eax := Join(dir, "eax.dll");
      var copy := CopyFile(Join(w.mumbaDir, "eax.dll"), eax);
      if !w.present(eax) then Do(w, p, copy, true)
      else
        var p1 := Do(w, p, ReadVersionInfo(eax), true);
        if p1.failed.None? && w.eaxProductName.GetOr("") == "FFNx" then Do(w, p1, copy, true) else p1
    else
      var eax := Join(dir, "creative_eax.dll");
      if !w.present(eax) then Do(w, p, CopyFile(Join(w.mumbaDir, "eax.dll"), eax), false) else p
  }

  /**
   * A 2000 edition gets a controls file in the runtime's `override`
   * directory when it has none: the game's own, or else a fresh one.
   */
  function InputStage(w: InstallWorld, inst: Inst.Installation, dir: Path, p: Progress): (r: Progress)
    requires dir == FfnxDir(w, inst)
    ensures Consistent(w, p) ==> Consistent(w, r)
    ensures AllExpected(w, inst, p) ==> AllExpected(w, inst, r)
  {
    if inst.edition.Standard? then
      var input := Join(Join(dir, "override"), "ff8input.cfg");
      if w.present(input) then p
      else
        var p1 := Do(w, p, CreateDirAll(Join(dir, "override")), true);
        var copy := CopyFile(Join(inst.appPath, "ff8input.cfg"), input);
        var p2 := Do(w, p1, copy, false);
        if p1.failed.None? && !w.succeeds(copy) then Do(w, p2, WriteInputConfig(InputConfigFile.New(inst.edition), input), true) else p2
    else p
  }

  /** The runtime installed for a game: its directory and what was found there. */
  datatype Installed = Installed(dir: Path, ffnx: FI.FfnxInstallation)

  /** `install_game_and_ffnx`: the result and the actions taken. */
  function InstallGameAndFfnx(w: InstallWorld, inst: Inst.Installation, channel: C.UpdateChannel): (r: (Result<Installed, InstallError>, seq<Step>))
  {
    var dir := FfnxDir(w, inst);
    var (found, p0) := Acquire(w, inst, channel, dir);
    if p0.failed.Some? then (Err(Failed(p0.failed.value)), p0.trace)
    else if found.None? then (Err(InvalidFfnxInstallation), p0.trace)
    else
      var exe := Join(dir, w.ffnxExeName);
      var p1 := Do(w, p0, InstallSettings(w, dir), true);
      var p := InputStage(w, inst, dir, EaxStage(w, inst, dir, BinkStage(w, inst, dir, exe, ExeStage(w, inst, exe, p1))));
      var q := Do(w, p, Patch4gb(exe), true);
      match q.failed
      case Some(a) => (Err(Failed(a)), q.trace)
      case None => (Ok(Installed(dir, found.value)), q.trace)
  }

  /**
   * Installing succeeds exactly when every required action succeeds, the
   * last one patching the executable for 4 GB of memory; it fails on the
   * first required action that fails, and on nothing else except a
   * downloaded runtime that is still not found. Optional actions (the
   * patch download, `creative_eax.dll`, copying the controls file) never
   * fail it.
   */
  lemma InstallOutcome(w: InstallWorld, inst: Inst.Installation, channel: C.UpdateChannel)
    ensures var (r, trace) := InstallGameAndFfnx(w, inst, channel);
      && (r.Ok? ==> (forall k :: 0 <= k < |trace| && trace[k].required ==> w.succeeds(trace[k].action))
                    && trace[|trace| - 1] == Step(Patch4gb(Join(r.value.dir, w.ffnxExeName)), true))
      && (r.Err? && r.error.Failed? ==>
            && trace[|trace| - 1] == Step(r.error.action, true) && !w.succeeds(r.error.action)
            && (forall k :: 0 <= k < |trace| - 1 && trace[k].required ==> w.succeeds(trace[k].action)))
      && (r == Err(InvalidFfnxInstallation) ==> FI.FromDirectory(w.probeAfter, FfnxDir(w, inst), inst.edition).installation.None?)
  {
    InstallConsistent(w, inst, channel);
  }

  /** The actions taken while installing, with the failure that ended them, are consistent with the world. */
  lemma InstallConsistent(w: InstallWorld, inst: Inst.Installation, channel: C.UpdateChannel)
    ensures var (r, trace) := InstallGameAndFfnx(w, inst, channel);
      && Consistent(w, Progress(trace, if r.Err? && r.error.Failed? then Some(r.error.action) else None))
      && (r.Ok? ==> trace[|trace| - 1] == Step(Patch4gb(Join(r.value.dir, w.ffnxExeName)), true))
      && (r == Err(InvalidFfnxInstallation) ==> FI.FromDirectory(w.probeAfter, FfnxDir(w, inst), inst.edition).installation.None?)
  {
    var dir := FfnxDir(w, inst);
    var (found, p0) := Acquire(w, inst, channel, dir);
    if p0.failed.None? && found.Some? {
      var exe := Join(dir, w.ffnxExeName);
      var p1 := Do(w, p0, InstallSettings(w, dir), true);
      var p := InputStage(w, inst, dir, EaxStage(w, inst, dir, BinkStage(w, inst, dir, exe, ExeStage(w, inst, exe, p1))));
      var q := Do(w, p, Patch4gb(exe), true);
      assert Consistent(w, q);
      assert InstallGameAndFfnx(w, inst, channel) ==
        (if q.failed.Some? then Err(Failed(q.failed.value)) else Ok(Installed(dir, found.value)), q.trace);
    }
  }

  /**
   * The 1.02 patch is only downloaded for a 2000 edition at version 1.00
   * whose runtime directory lacks `binkw32.dll`, from its publisher's
   * address, and never fails the installation; every other version gets no
   * patch. On Steam every action taken is required, and the settings
   * written are always the ones read with the overlays turned off.
   */
  lemma InstallActions(w: InstallWorld, inst: Inst.Installation, channel: C.UpdateChannel)
    ensures var (r, trace) := InstallGameAndFfnx(w, inst, channel);
      forall k :: 0 <= k < |trace| ==> Expected(w, inst, trace[k])
  {
    var dir := FfnxDir(w, inst);
    var (found, p0) := Acquire(w, inst, channel, dir);
    assert AllExpected(w, inst, p0);
    if p0.failed.None? && found.Some? {
      var exe := Join(dir, w.ffnxExeName);
      var p1 := Do(w, p0, InstallSettings(w, dir), true);
      assert AllExpected(w, inst, p1);
      var p2 := ExeStage(w, inst, exe, p1);
      var p3 := BinkStage(w, inst, dir, exe, p2);
      var p4 := EaxStage(w, inst, dir, p3);
      var p5 := InputStage(w, inst, dir, p4);
      var q := Do(w, p5, Patch4gb(exe), true);
      assert AllExpected(w, inst, q);
    }
  }

  /* ---------- Messages, the interface and the world ---------- */

  /** What the interface sends the worker. */
  datatype Message =
    | Setup(exePath: Path, channel: C.UpdateChannel, language: string)
    | UpdateGame
    | LaunchGame
    | LaunchCW
    | SetFfnxConfigBool(key: string, flag: bool)
    | SetFfnxConfigInt(key: string, value: i32)
    | SetFfnxConfigString(key: string, text: string)
    | SetFfnxConfigCurrentRefreshRate(resolution: i32, rate: i32)
    | ConfigureFfnx
    | CancelConfigureFfnx
    | Quit

  const CannotSaveFfnxConfig := "message-error-cannot-save-ffnx-config"
  const CannotLaunchGame := "message-error-cannot-launch-game"
  const CannotSaveMumbaConfig := "message-error-cannot-save-mumba-config"
  const FileNotFound := "message-error-file-not-found"
  const UnknownAction := "message-fatal-unknown-action"
  const CannotInstallFfnx := "message-error-cannot-install-ffnx"
  const CheckFfnxUpdate := "message-info-check-ffnx-update"
  const UpgradeInProgress := "message-info-upgrade-in-progress-ffnx"
  const SetupPageIndex := 1

  /**
   * What the worker sets in the interface: the page, whether the game can
   * be started, the task text (and every text ever set, in order), the
   * settings record and the refresh rates listed.
   */
  datatype Ui = Ui(page: nat, initialized: bool, gameReady: bool, taskText: Option<string>, shown: seq<string>,
                   settings: Option<U.FfnxSettings>, refreshRates: seq<u32>)

  const InitialUi := Ui(0, false, false, None, [], None, [])

  function Show(ui: Ui, text: string): (r: Ui)
    ensures r.taskText == Some(text) && r.shown == ui.shown + [text]
  {
    ui.(taskText := Some(text), shown := ui.shown + [text])
  }

  /**
   * The world the worker acts on: the file system the game is found in,
   * what `Installation::from_exe_path` gives for each executable path on it
   * (`Installation.FromExePath` models that function; here it is a
   * parameter, see `Detects`), whether writing the launcher's settings succeeds, the installing world,
   * whether writing the runtime's settings succeeds, what an upgrade of the
   * runtime leaves in its settings file, and whether launching succeeds.
   */
  datatype World = World(
    fs: FileSystem,
    detect: Path -> Result<Inst.Installation, Inst.FromExeError>,
    saveConfig: Document -> bool,
    install: InstallWorld,
    ffnxFiles: Path -> Result<Document, L.FileError>,
    writeFfnxSettings: Document -> bool,
    upgradeLeaves: Result<Document, L.FileError>,
    launchGame: bool,
    launchCw: bool)

  /** The world's detection is `from_exe_path` on its file system. */
  ghost predicate Detects(w: World) {
    forall p :: w.detect(p) == Inst.FromExePath(w.fs, p)
  }

  /* ---------- Choosing the game ---------- */

  /** The launcher's settings after a setup: the executable, the channel and the language stored, every other key kept. */
  function SetupDocument(doc: Document, inst: Inst.Installation, channel: C.UpdateChannel, language: string): Document {
    doc[C.ExePathKey := Value(Str(Inst.ExePath(inst)))][C.UpdateChannelKey := Value(Integer(C.Ordinal(channel)))]
      [C.LanguageKey := Value(Str(language))]
  }

  /** What the worker has before the runtime is ready: the launcher's settings file (None when missing or unreadable) and the interface. */
  datatype Front = Front(mumbaFile: Option<Document>, ui: Ui)

  /**
   * `setup`: the executable must give an installation (else "file not
   * found", for a missing file and a launcher alike); the launcher's
   * settings, as read or new, then get it, the channel and the language,
   * and the installation is returned only if writing them succeeds.
   */
  function SetupSpec(w: World, f: Front, exePath: Path, channel: C.UpdateChannel, language: string): (r: (Option<Inst.Installation>, Front))
    ensures r.0.Some? <==> (w.detect(exePath).Ok?
      && w.saveConfig(SetupDocument(f.mumbaFile.GetOr(map[]), w.detect(exePath).value, channel, language)))
    ensures r.0.Some? ==> (r.0.value == w.detect(exePath).value
      && r.1 == f.(mumbaFile := Some(SetupDocument(f.mumbaFile.GetOr(map[]), r.0.value, channel, language))))
    ensures r.0.None? ==> r.1.mumbaFile == f.mumbaFile && r.1.ui.taskText.Some?
  {
    match w.detect(exePath)
    case Err(_) => (None, f.(ui := Show(f.ui, FileNotFound)))
    case Ok(inst) =>
      var doc := SetupDocument(f.mumbaFile.GetOr(map[]), inst, channel, language);
      if w.saveConfig(doc) then (Some(inst), f.(mumbaFile := Some(doc)))
      else (None, f.(ui := Show(f.ui, CannotSaveMumbaConfig)))
  }

  /** `setup`, through the launcher's settings object. */
  method RunSetup(w: World, f: Front, exePath: Path, channel: C.UpdateChannel, language: string) returns (found: Option<Inst.Installation>, f': Front)
    ensures (found, f') == SetupSpec(w, f, exePath, channel, language)
  {
    var fromExe := w.detect(exePath);
    if fromExe.Err? {
      return None, f.(ui := Show(f.ui, FileNotFound));
    }
    var inst := fromExe.value;
    var config := new C.Config.FromDocument(f.mumbaFile.GetOr(map[]));
    config.SetInstallation(inst);
    config.SetUpdateChannel(channel);
    config.SetLanguage(language);
    if w.saveConfig(config.inner) {
      return Some(inst), f.(mumbaFile := Some(config.inner));
    }
    return None, f.(ui := Show(f.ui, CannotSaveMumbaConfig));
  }

  /**
   * What a setup writes is what the next start reads: the launcher's
   * settings then give back the chosen game (when its executable path is a
   * plain file path other than a launcher), so no setup page is shown, and
   * the chosen channel and language.
   */
  lemma SetupRemembered(w: World, f: Front, exePath: Path, channel: C.UpdateChannel, language: string, ui: Ui, msgs: seq<Message>)
    requires Detects(w)
    requires exePath != [] && exePath[|exePath| - 1] != '/' && !HasDoubleSlash(exePath)
    requires !Inst.IsLauncherName(FileName(exePath))
    requires SetupSpec(w, f, exePath, channel, language).0.Some?
    ensures var (found, f') := SetupSpec(w, f, exePath, channel, language);
      && RetrieveInstallation(w, Front(f'.mumbaFile, ui), msgs) == (Chosen(found.value, channel), Front(f'.mumbaFile, ui), 0)
      && GetString(f'.mumbaFile.value, C.LanguageKey, "") == Ok(language)
  {
    var (found, f') := SetupSpec(w, f, exePath, channel, language);
    var doc := f'.mumbaFile.value;
    assert w.detect(exePath) == Inst.FromExePath(w.fs, exePath);
    assert doc == SetupDocument(f.mumbaFile.GetOr(map[]), found.value, channel, language);
    C.InstallationReadBack(doc, w.fs, exePath);
    C.ChannelOfOrdinal(channel);
  }

  /** How the setup page ends: a game was chosen, the user quit, or the channel closed, on which the source keeps waiting forever. */
  datatype Page = Chosen(installation: Inst.Installation, channel: C.UpdateChannel) | QuitChosen | Spins

  /**
   * `go_to_setup_page` reading messages from index `i`: the page, the state
   * after it, and the index of the next message. A Setup that fails, and
   * any other message than Setup and Quit, keep the page open: a game is
   * only chosen by a Setup that succeeded, with that message's channel, and
   * the page only quits at the first Quit.
   */
  function SetupPage(w: World, f: Front, msgs: seq<Message>, i: nat): (r: (Page, Front, nat))
    requires i <= |msgs|
    ensures i <= r.2 <= |msgs|
    ensures r.0.Spins? ==> r.2 == |msgs|
    ensures !r.0.Spins? ==> i < r.2
    ensures r.1.ui.page == SetupPageIndex
    ensures r.0.Chosen? ==> ChosenBy(msgs[r.2 - 1], r.0, r.1)
    ensures r.0.QuitChosen? ==> msgs[r.2 - 1] == Quit
    ensures forall k :: i <= k < r.2 - 1 ==> msgs[k] != Quit
    ensures r.0.Spins? ==> forall k :: i <= k < |msgs| ==> msgs[k] != Quit
    decreases |msgs| - i
  {
    var f1 := f.(ui := f.ui.(page := SetupPageIndex));
    if i == |msgs| then (Spins, f1, i)
    else
      var step := SetupStep(w, f1, msgs[i]);
      if step.0.Some? then (step.0.value, step.1, i + 1) else SetupPage(w, step.1, msgs, i + 1)
  }

  /** The page's channel is that of the Setup message `msg`, and the launcher's settings then exist. */
  predicate ChosenBy(msg: Message, page: Page, f: Front)
    requires page.Chosen?
  {
    && msg.Setup?
    && page.channel == msg.channel
    && f.mumbaFile.Some?
  }

  /**
   * One message on the setup page: a Setup that succeeds chooses its game
   * and channel, Quit quits, and anything else leaves the page open (with
   * an error shown for anything but a Setup).
   */
  function SetupStep(w: World, f: Front, msg: Message): (r: (Option<Page>, Front))
    ensures r.0.Some? ==> !r.0.value.Spins?
    ensures r.0 == Some(QuitChosen) <==> msg == Quit
    ensures r.0.Some? && r.0.value.Chosen? ==>
      ChosenBy(msg, r.0.value, r.1) && w.detect(msg.exePath) == Ok(r.0.value.installation)
    ensures r.1.ui.page == f.ui.page
  {
    match msg
    case Setup(exePath, channel, language) =>
      var (found, f') := SetupSpec(w, f, exePath, channel, language);
      if found.Some? then (Some(Chosen(found.value, channel)), f') else (None, f')
    case Quit => (Some(QuitChosen), f)
    case _ => (None, f.(ui := Show(f.ui, UnknownAction)))
  }

  /** `go_to_setup_page`: the loop over received messages. */
  method GoToSetupPage(w: World, f0: Front, msgs: seq<Message>, i0: nat) returns (page: Page, f: Front, next: nat)
    requires i0 <= |msgs|
    ensures (page, f, next) == SetupPage(w, f0, msgs, i0)
  {
    f, next := f0, i0;
    while true
      invariant i0 <= next <= |msgs|
      invariant SetupPage(w, f, msgs, next) == SetupPage(w, f0, msgs, i0)
      decreases |msgs| - next
    {
      f := f.(ui := f.ui.(page := SetupPageIndex));
      if next == |msgs| {
        return Spins, f, next;
      }
      var msg := msgs[next];
      next := next + 1;
      if msg.Setup? {
        var found;
        found, f := RunSetup(w, f, msg.exePath, msg.channel, msg.language);
        if found.Some? {
          return Chosen(found.value, msg.channel), f, next;
        }
      } else if msg == Quit {
        return QuitChosen, f, next;
      } else {
        f := f.(ui := Show(f.ui, UnknownAction));
      }
    }
  }

  /* ---------- Getting the runtime ready ---------- */

  /** A game with its channel, its installed runtime and the settings file installing read in the runtime's directory. */
  datatype Ready = Ready(installation: Inst.Installation, channel: C.UpdateChannel, ffnx: Installed,
                         settingsRead: Result<Document, L.FileError>)

  /**
   * A settings file the worker knows it wrote: the runtime directory and
   * what the file there holds since.
   */
  type Known = Option<(Path, Result<Document, L.FileError>)>

  /**
   * The world installing for a game sees: the settings file in the
   * runtime's directory is the one the worker last wrote there when it
   * knows of one, else the one found there at start.
   */
  function InstallFor(w: World, known: Known, inst: Inst.Installation): InstallWorld {
    var dir := FfnxDir(w.install, inst);
    w.install.(ffnxSettings := if known.Some? && known.value.0 == dir then known.value.1 else w.ffnxFiles(dir))
  }

  /** The runtime is ready for the game only as the result of an installation that succeeded, on the settings file it read. */
  predicate Installs(w: World, ready: Ready) {
    InstallGameAndFfnx(w.install.(ffnxSettings := ready.settingsRead), ready.installation, ready.channel).0 == Ok(ready.ffnx)
  }

  /** How getting ready ends: ready, the user quit, or the channel closed while waiting on the setup page. */
  datatype Outcome = Done(ready: Ready) | Exited | Stuck

  /**
   * `retrieve_ffnx_installation`: install for the game; on an error, show
   * it and go back to the setup page, and try again with the game chosen
   * there.
   */
  function RetrieveFfnx(w: World, known: Known, f: Front, inst: Inst.Installation, channel: C.UpdateChannel, msgs: seq<Message>, i: nat)
    : (r: (Outcome, Front, nat))
    requires i <= |msgs|
    ensures i <= r.2 <= |msgs|
    decreases |msgs| - i
  {
    var iw := InstallFor(w, known, inst);
    match InstallGameAndFfnx(iw, inst, channel).0
    case Ok(installed) => (Done(Ready(inst, channel, installed, iw.ffnxSettings)), f, i)
    case Err(_) =>
      var p := SetupPage(w, f.(ui := Show(f.ui, CannotInstallFfnx)), msgs, i);
      match p.0
      case Chosen(inst', channel') => RetrieveFfnx(w, known, p.1, inst', channel', msgs, p.2)
      case QuitChosen => (Exited, p.1, p.2)
      case Spins => (Stuck, p.1, p.2)
  }

  /** `retrieve_ffnx_installation`: the retry loop. */
  method RetrieveFfnxInstallation(w: World, known: Known, f0: Front, inst0: Inst.Installation, channel0: C.UpdateChannel,
                                  msgs: seq<Message>, i0: nat)
    returns (outcome: Outcome, f: Front, next: nat)
    requires i0 <= |msgs|
    ensures (outcome, f, next) == RetrieveFfnx(w, known, f0, inst0, channel0, msgs, i0)
  {
    f, next := f0, i0;
    var inst, channel := inst0, channel0;
    while true
      invariant i0 <= next <= |msgs|
      invariant RetrieveFfnx(w, known, f, inst, channel, msgs, next) == RetrieveFfnx(w, known, f0, inst0, channel0, msgs, i0)
      decreases |msgs| - next
    {
      var iw := InstallFor(w, known, inst);
      var (installed, _) := InstallGameAndFfnx(iw, inst, channel);
      if installed.Ok? {
        return Done(Ready(inst, channel, installed.value, iw.ffnxSettings)), f, next;
      }
      f := f.(ui := Show(f.ui, CannotInstallFfnx));
      var page;
      page, f, next := GoToSetupPage(w, f, msgs, next);
      match page {
        case Chosen(inst', channel') =>
          inst, channel := inst', channel';
        case QuitChosen =>
          return Exited, f, next;
        case Spins =>
          return Stuck, f, next;
      }
    }
  }

  /**
   * The runtime is only ever ready after an installation that succeeded,
   * for the game and channel it reports, in the runtime directory of that
   * game; the settings installing read there are the ones the worker wrote
   * when it knows of them, else the ones found at start.
   */
  lemma {:induction false} RetrieveFfnxDone(w: World, known: Known, f: Front, inst: Inst.Installation, channel: C.UpdateChannel,
                                            msgs: seq<Message>, i: nat)
    requires i <= |msgs|
    ensures var (outcome, _, _) := RetrieveFfnx(w, known, f, inst, channel, msgs, i);
      outcome.Done? ==>
        && InstallGameAndFfnx(InstallFor(w, known, outcome.ready.installation), outcome.ready.installation, outcome.ready.channel).0
             == Ok(outcome.ready.ffnx)
        && outcome.ready.ffnx.dir == FfnxDir(w.install, outcome.ready.installation)
        && outcome.ready.settingsRead == InstallFor(w, known, outcome.ready.installation).ffnxSettings
        && Installs(w, outcome.ready)
    decreases |msgs| - i
  {
    var iw := InstallFor(w, known, inst);
    if InstallGameAndFfnx(iw, inst, channel).0.Err? {
      var f1 := f.(ui := Show(f.ui, CannotInstallFfnx));
      var (page, f2, j) := SetupPage(w, f1, msgs, i);
      if page.Chosen? {
        RetrieveFfnxDone(w, known, f2, page.installation, page.channel, msgs, j);
      }
    } else {
      assert iw == w.install.(ffnxSettings := iw.ffnxSettings);
    }
  }

  /** `retrieve_installation`: the game in the launcher's settings, else the one chosen on the setup page. */
  function RetrieveInstallation(w: World, f: Front, msgs: seq<Message>): (r: (Page, Front, nat))
    ensures r.2 <= |msgs|
    ensures r.0.Chosen? && r.2 == 0 ==>
      r.1 == f && C.InstallationIn(f.mumbaFile.GetOr(map[]), w.fs) == Ok(Some(r.0.installation))
    ensures r.0.Chosen? && r.2 > 0 ==> ChosenBy(msgs[r.2 - 1], r.0, r.1)
    ensures r.0.QuitChosen? ==> r.2 > 0 && msgs[r.2 - 1] == Quit
    ensures r.0.Spins? ==> r.2 == |msgs| && forall k :: 0 <= k < |msgs| ==> msgs[k] != Quit
  {
    var doc := f.mumbaFile.GetOr(map[]);
    var channel := C.UpdateChannelIn(doc).UnwrapOr(C.Stable);
    match C.InstallationIn(doc, w.fs)
    case Ok(Some(inst)) => (Chosen(inst, channel), f, 0)
    case _ => SetupPage(w, f, msgs, 0)
  }

  /* ---------- Serving the interface ---------- */

  /**
   * The worker once the runtime is ready: the front, the game and its
   * runtime, the runtime directory the settings cache was made for (it is
   * not made again after a new setup), and what the settings file there
   * holds.
   */
  datatype Session = Session(front: Front, ready: Ready, cacheDir: Path, ffnxFile: Result<Document, L.FileError>)

  /** How the worker stops. */
  datatype Exit =
    | NoGame          // the user quit on the setup page
    | Waiting         // the channel closed while on the setup page, where the worker then waits forever
    | SetupFailed     // a Setup message for another game failed
    | QuitReceived
    | ChannelClosed

  function WithText(s: Session, text: string): Session {
    s.(front := s.front.(ui := Show(s.front.ui, text)))
  }

  /** `clear_task_text`, done after every message. */
  function Cleared(s: Session): (r: Session)
    ensures r.front.ui.taskText.None?
  {
    s.(front := s.front.(ui := s.front.ui.(taskText := None)))
  }

  /** The cached settings, else the file's, an unreadable or malformed file reading as empty. */
  function Loaded(s: Session, cache: Option<Document>): Document {
    cache.GetOr(s.ffnxFile.UnwrapOr(map[]))
  }

  /** What the cache holds, as a value. */
  function CacheOf(cache: L.LazyFfnxConfig): Option<Document>
    reads cache, cache.config
  {
    if cache.config == null then None else Some(cache.config.inner)
  }

  /**
   * `save`: nothing happens without a cache; otherwise the cache is written
   * and dropped, or, when writing fails, kept with an error shown.
   */
  function SaveSpec(w: World, s: Session, cache: Option<Document>): (r: (Session, Option<Document>))
    ensures cache.Some? && w.writeFfnxSettings(cache.value) ==> r == (s.(ffnxFile := Ok(cache.value)), None)
    ensures cache.Some? && !w.writeFfnxSettings(cache.value) ==> r.0.ffnxFile == s.ffnxFile && r.1 == cache
    ensures cache.None? ==> r == (s, None)
  {
    match cache
    case None => (s, None)
    case Some(d) => if w.writeFfnxSettings(d) then (s.(ffnxFile := Ok(d)), None) else (WithText(s, CannotSaveFfnxConfig), cache)
  }

  /** The `app_path` the game is launched with: `..` on Unix, the game's directory otherwise. */
  function AppPathSetting(unix: bool, inst: Inst.Installation): string {
    if unix then ".." else inst.appPath
  }

  /**
   * `upgrade_ffnx`: two texts shown, the game not ready while the runtime
   * is downloaded again over its directory, then ready; a failed download
   * is only logged. The settings file of the cache is overwritten only
   * when the cache is for that directory.
   */
  function Upgraded(w: World, s: Session): Session {
    var ui := Show(Show(s.front.ui, CheckFfnxUpdate), UpgradeInProgress);
    s.(front := s.front.(ui := ui.(gameReady := true, taskText := None)),
       ffnxFile := if s.ready.ffnx.dir == s.cacheDir then w.upgradeLeaves else s.ffnxFile)
  }

  /** The messages that only change the cache (or launch the other executable), never the settings file. */
  predicate IsEdit(msg: Message) {
    msg.SetFfnxConfigBool? || msg.SetFfnxConfigInt? || msg.SetFfnxConfigString? || msg.SetFfnxConfigCurrentRefreshRate?
    || msg.CancelConfigureFfnx? || msg.LaunchCW?
  }

  /**
   * A message that only edits the cache, or launches the other executable:
   * edits go to the cache, loaded first when empty, the chosen resolution
   * also listing its refresh rates; Cancel drops the cache. Nothing but the
   * interface and the cache changes.
   */
  function Edit(w: World, screen: Screen, s: Session, cache: Option<Document>, msg: Message): (r: (Session, Option<Document>))
    requires IsEdit(msg)
    requires ListLength(|screen.resolutions|)
    ensures r.0 == s.(front := r.0.front) && r.0.front.mumbaFile == s.front.mumbaFile
    ensures msg.CancelConfigureFfnx? ==> r.1.None?
    ensures msg.LaunchCW? ==> r.1 == cache
    ensures !msg.CancelConfigureFfnx? && !msg.LaunchCW? ==> r.1.Some?
  {
    match msg
    case LaunchCW => (if w.launchCw then s else WithText(s, CannotLaunchGame), cache)
    case SetFfnxConfigBool(key, flag) => (s, Some(Loaded(s, cache)[key := Value(Boolean(flag))]))
    case SetFfnxConfigInt(key, value) =>
      var s1 := if key == CurrentResolutionKey then s.(front := s.front.(ui := s.front.ui.(refreshRates := U.RatesAt(screen, value)))) else s;
      (s1, Some(SetIntSetting(Loaded(s, cache), screen, key, value)))
    case SetFfnxConfigString(key, text) => (s, Some(Loaded(s, cache)[key := Value(Str(text))]))
    case SetFfnxConfigCurrentRefreshRate(resolution, rate) => (s, Some(SetRefreshRate(Loaded(s, cache), screen, resolution, rate)))
    case CancelConfigureFfnx => (s, None)
  }

  /** The messages that save the cache: UpdateGame, LaunchGame and ConfigureFfnx. */
  predicate IsPersist(msg: Message) {
    msg.UpdateGame? || msg.LaunchGame? || msg.ConfigureFfnx?
  }

  /**
   * A message that saves the cache: ConfigureFfnx shows the settings
   * derived from it and saves it; UpdateGame loads it, upgrades the
   * runtime and saves it after, so the settings outlive the upgrade;
   * LaunchGame stores `app_path` in it and saves it before launching.
   */
  function Persist(w: World, screen: Screen, s: Session, cache: Option<Document>, msg: Message): (r: (Session, Option<Document>))
    requires IsPersist(msg)
    requires U.RatesReadable(screen)
    ensures r.0.ready == s.ready && r.0.cacheDir == s.cacheDir && r.0.front.mumbaFile == s.front.mumbaFile
  {
    match msg
    case UpdateGame =>
      SaveSpec(w, Upgraded(w, s), Some(Loaded(s, cache)))
    case LaunchGame =>
      var d := Loaded(s, cache)[F.AppPathKey := Value(Str(AppPathSetting(w.install.unix, s.ready.installation)))];
      var saved := SaveSpec(w, s, Some(d));
      (if w.launchGame then saved.0 else WithText(saved.0, CannotLaunchGame), saved.1)
    case ConfigureFfnx =>
      var d := Loaded(s, cache);
      SaveSpec(w, s.(front := s.front.(ui := s.front.ui.(settings := Some(U.Settings(d, screen))))), Some(d))
  }

  /** Whether a message ends serving: a Setup or a Quit. */
  predicate IsStop(msg: Message)
  {
    msg.Setup? || msg == Quit
  }

  /** Any message but Setup and Quit: an edit of the cache or a save of it. */
  function Handle(w: World, screen: Screen, s: Session, cache: Option<Document>, msg: Message): (r: (Session, Option<Document>))
    requires !IsStop(msg)
    requires ListLength(|screen.resolutions|) && U.RatesReadable(screen)
  {
    if IsEdit(msg) then Edit(w, screen, s, cache, msg) else Persist(w, screen, s, cache, msg)
  }

  /** How serving stops: at a Setup message (handled by `ReadySetup`), at Quit, or when the channel closes. */
  datatype Stop = Resetup(exePath: Path, channel: C.UpdateChannel, language: string) | Quitted | Closed

  /** The index of the first Setup or Quit from index `i` on, or `|msgs|` if there is none. */
  function NextStop(msgs: seq<Message>, i: nat): (r: nat)
    requires i <= |msgs|
    ensures i <= r <= |msgs|
    decreases |msgs| - i
  {
    if i == |msgs| || IsStop(msgs[i]) then i else NextStop(msgs, i + 1)
  }

  /** `NextStop` finds the first stop: no stop before it, and a stop at it unless every message was passed. */
  lemma {:induction false} NextStopFirst(msgs: seq<Message>, i: nat)
    requires i <= |msgs|
    ensures NextStop(msgs, i) < |msgs| ==> IsStop(msgs[NextStop(msgs, i)])
    ensures forall k :: i <= k < NextStop(msgs, i) ==> !IsStop(msgs[k])
    decreases |msgs| - i
  {
    if i < |msgs| && !IsStop(msgs[i]) {
      NextStopFirst(msgs, i + 1);
    }
  }

  /** Why serving stops at index `k`: the channel is closed, or the message there is a Setup or a Quit. */
  function StopAt(msgs: seq<Message>, k: nat): Stop
    requires k <= |msgs|
  {
    if k == |msgs| then Closed
    else if msgs[k].Setup? then Resetup(msgs[k].exePath, msgs[k].channel, msgs[k].language)
    else Quitted
  }

  /**
   * The messages from index `i` up to the next Setup or Quit, each handled
   * and followed by clearing the task text: the session and cache after
   * them, why serving stopped, and the index after the last message read.
   */
  function Serve(w: World, screen: Screen, s: Session, cache: Option<Document>, msgs: seq<Message>, i: nat)
    : (r: (Session, Option<Document>, Stop, nat))
    requires i <= |msgs|
    requires ListLength(|screen.resolutions|) && U.RatesReadable(screen)
    ensures i <= r.3 <= |msgs|
    ensures r.2 == StopAt(msgs, NextStop(msgs, i))
    ensures r.3 == if NextStop(msgs, i) == |msgs| then |msgs| else NextStop(msgs, i) + 1
    ensures r.0.ready == s.ready && r.0.cacheDir == s.cacheDir
    decreases |msgs| - i
  {
    if i == |msgs| then (s, cache, Closed, i)
    else
      var msg := msgs[i];
      if msg.Setup? then (s, cache, Resetup(msg.exePath, msg.channel, msg.language), i + 1)
      else if msg == Quit then (s, cache, Quitted, i + 1)
      else
        var t := Handle(w, screen, s, cache, msg);
        Serve(w, screen, Cleared(t.0), t.1, msgs, i + 1)
  }

  /** Serving goes on after a message that is not a stop: the message is handled and the task text cleared. */
  lemma ServeStep(w: World, screen: Screen, s: Session, cache: Option<Document>, msgs: seq<Message>, i: nat)
    requires i < |msgs| && !IsStop(msgs[i])
    requires ListLength(|screen.resolutions|) && U.RatesReadable(screen)
    ensures var t := Handle(w, screen, s, cache, msgs[i]);
      Serve(w, screen, s, cache, msgs, i) == Serve(w, screen, Cleared(t.0), t.1, msgs, i + 1)
  {
  }

  /** Edits only touch the interface and the cache: serving no save leaves the settings file as it was. */
  lemma {:induction false} EditsKeepFile(w: World, screen: Screen, s: Session, cache: Option<Document>, msgs: seq<Message>, i: nat)
    requires i <= |msgs|
    requires ListLength(|screen.resolutions|) && U.RatesReadable(screen)
    requires forall k :: i <= k < NextStop(msgs, i) ==> !IsPersist(msgs[k])
    ensures Serve(w, screen, s, cache, msgs, i).0.ffnxFile == s.ffnxFile
    decreases |msgs| - i
  {
    if i == |msgs| || IsStop(msgs[i]) {
      ServeAtStop(w, screen, s, cache, msgs, i);
    } else {
      var t := Handle(w, screen, s, cache, msgs[i]);
      ServeStep(w, screen, s, cache, msgs, i);
      assert !IsPersist(msgs[i]);
      assert t.0.ffnxFile == s.ffnxFile;
      EditsKeepFile(w, screen, Cleared(t.0), t.1, msgs, i + 1);
    }
  }

  /** At a stop, or with every message read, serving changes nothing. */
  lemma ServeAtStop(w: World, screen: Screen, s: Session, cache: Option<Document>, msgs: seq<Message>, i: nat)
    requires i <= |msgs| && (i == |msgs| || IsStop(msgs[i]))
    requires ListLength(|screen.resolutions|) && U.RatesReadable(screen)
    ensures Serve(w, screen, s, cache, msgs, i) == (s, cache, StopAt(msgs, i), if i == |msgs| then i else i + 1)
  {
  }

  /**
   * Setup while ready: the game is not ready; a failed setup stops the
   * worker; otherwise the runtime is retrieved for the new game (back on
   * the setup page as long as installing fails), and when it is ready the
   * installation it wrote its settings into is the cache's only if the
   * runtime directory is the same, and then the settings installing read
   * and wrote are the ones saved there since the cache was made.
   */
  function ReadySetup(w: World, s: Session, exePath: Path, channel: C.UpdateChannel, language: string, msgs: seq<Message>, i: nat)
    : (r: (Session, Option<Exit>, nat))
    requires i <= |msgs|
    ensures i <= r.2 <= |msgs|
    ensures r.0.cacheDir == s.cacheDir
    ensures r.1 == Some(SetupFailed) ==> r.2 == i
    ensures r.1.Some? ==> r.1.value == SetupFailed || r.1.value == NoGame || r.1.value == Waiting
    ensures r.1.None? ==> r.0.front.ui.gameReady && Installs(w, r.0.ready)
    ensures r.1.None? && r.0.ready.ffnx.dir == s.cacheDir ==>
      r.0.ready.settingsRead == s.ffnxFile && r.0.ffnxFile == Ok(WithoutOverlays(s.ffnxFile.UnwrapOr(map[])))
    ensures r.1.None? && r.0.ready.ffnx.dir != s.cacheDir ==> r.0.ffnxFile == s.ffnxFile
    ensures r.1.Some? ==> r.0.ready == s.ready
  {
    var f := s.front.(ui := s.front.ui.(gameReady := false));
    var setup := SetupSpec(w, f, exePath, channel, language);
    if setup.0.None? then (s.(front := setup.1), Some(SetupFailed), i)
    else
      var known := Some((s.cacheDir, s.ffnxFile));
      var t := RetrieveFfnx(w, known, setup.1, setup.0.value, channel, msgs, i);
      RetrieveFfnxDone(w, known, setup.1, setup.0.value, channel, msgs, i);
      match t.0
      case Done(ready) =>
        var file := if ready.ffnx.dir == s.cacheDir then Ok(WithoutOverlays(ready.settingsRead.UnwrapOr(map[]))) else s.ffnxFile;
        (Session(t.1.(ui := t.1.ui.(gameReady := true)), ready, s.cacheDir, file), None, t.2)
      case Exited => (s.(front := t.1), Some(NoGame), t.2)
      case Stuck => (s.(front := t.1), Some(Waiting), t.2)
  }

  /**
   * A setup that ends with the runtime in the cache's directory keeps what
   * the worker saved there: every setting other than the four overlays
   * reads back as it was, the fullscreen flag among them.
   */
  lemma ReadySetupKeepsSaves(w: World, s: Session, exePath: Path, channel: C.UpdateChannel, language: string,
                             msgs: seq<Message>, i: nat, key: string)
    requires i <= |msgs| && s.ffnxFile.Ok?
    requires key != ShowFpsKey && key != ShowRendererBackendKey && key != ShowStatsKey && key != ShowVersionKey
    ensures var r := ReadySetup(w, s, exePath, channel, language, msgs, i);
      r.1.None? && r.0.ready.ffnx.dir == s.cacheDir ==>
        && r.0.ffnxFile.Ok?
        && (key in r.0.ffnxFile.value <==> key in s.ffnxFile.value)
        && (key in s.ffnxFile.value ==> r.0.ffnxFile.value[key] == s.ffnxFile.value[key])
        && IsFullscreen(r.0.ffnxFile.value) == IsFullscreen(s.ffnxFile.value)
  {
    var r := ReadySetup(w, s, exePath, channel, language, msgs, i);
    if r.1.None? && r.0.ready.ffnx.dir == s.cacheDir {
      OverlaysOnly(s.ffnxFile.value, key);
      OverlaysOnly(s.ffnxFile.value, F.FullscreenKey);
    }
  }

  /** Turning the overlays off changes no other setting. */
  lemma OverlaysOnly(doc: Document, key: string)
    requires key != ShowFpsKey && key != ShowRendererBackendKey && key != ShowStatsKey && key != ShowVersionKey
    ensures key in WithoutOverlays(doc) <==> key in doc
    ensures key in doc ==> WithoutOverlays(doc)[key] == doc[key]
  {
  }

  /**
   * The loop over received messages once ready, from index `i`: serve
   * messages up to a Setup or Quit; on Setup, set the new game up and, if
   * it is ready, go on serving. The final session and cache, and how the
   * worker stopped.
   */
  function ReadyLoop(w: World, screen: Screen, s: Session, cache: Option<Document>, msgs: seq<Message>, i: nat)
    : (r: (Session, Option<Document>, Exit))
    requires i <= |msgs|
    requires ListLength(|screen.resolutions|) && U.RatesReadable(screen)
    ensures Installs(w, s.ready) ==> Installs(w, r.0.ready)
    decreases |msgs| - i
  {
    var served := Serve(w, screen, s, cache, msgs, i);
    match served.2
    case Quitted => (served.0, served.1, QuitReceived)
    case Closed => (served.0, served.1, ChannelClosed)
    case Resetup(exePath, channel, language) =>
      var t := ReadySetup(w, served.0, exePath, channel, language, msgs, served.3);
      if t.1.Some? then (t.0, served.1, t.1.value)
      else ReadyLoop(w, screen, Cleared(t.0), served.1, msgs, t.2)
  }

  /** How a run ends: before the runtime was ready, or after, with the final session and cache. */
  datatype RunResult = BeforeReady(front: Front, exit: Exit) | AfterReady(session: Session, cache: Option<Document>, exit: Exit)

  /**
   * `run`: find the game (from the launcher's settings or the setup page),
   * get the runtime ready, then show the settings read through a cache
   * made for the runtime's directory (the file there being the one the
   * installation wrote) and serve messages.
   */
  function RunSpec(w: World, screen: Screen, mumbaFile: Option<Document>, msgs: seq<Message>): RunResult
    requires ListLength(|screen.resolutions|) && U.RatesReadable(screen)
  {
    var (page, f1, i) := RetrieveInstallation(w, Front(mumbaFile, InitialUi), msgs);
    match page
    case QuitChosen => BeforeReady(f1, NoGame)
    case Spins => BeforeReady(f1, Waiting)
    case Chosen(inst, channel) =>
      var (outcome, f2, j) := RetrieveFfnx(w, None, f1, inst, channel, msgs, i);
      match outcome
      case Exited => BeforeReady(f2, NoGame)
      case Stuck => BeforeReady(f2, Waiting)
      case Done(ready) =>
        var file := Ok(WithoutOverlays(ready.settingsRead.UnwrapOr(map[])));
        var d := file.value;
        var settings := U.Settings(d, screen);
        var ui := f2.ui.(taskText := None, initialized := true, gameReady := true, settings := Some(settings),
                         refreshRates := U.RatesAt(screen, settings.currentResolution));
        var r := ReadyLoop(w, screen, Session(f2.(ui := ui), ready, ready.ffnx.dir, file), Some(d), msgs, j);
        AfterReady(r.0, r.1, r.2)
  }

  /** Whenever the worker gets to serve the settings, the runtime it serves them for was installed successfully. */
  lemma RunReadyInstalled(w: World, screen: Screen, mumbaFile: Option<Document>, msgs: seq<Message>)
    requires ListLength(|screen.resolutions|) && U.RatesReadable(screen)
    ensures var r := RunSpec(w, screen, mumbaFile, msgs);
      r.AfterReady? ==> Installs(w, r.session.ready)
  {
    var found := RetrieveInstallation(w, Front(mumbaFile, InitialUi), msgs);
    if found.0.Chosen? {
      var got := RetrieveFfnx(w, None, found.1, found.0.installation, found.0.channel, msgs, found.2);
      RetrieveFfnxDone(w, None, found.1, found.0.installation, found.0.channel, msgs, found.2);
      if got.0.Done? {
        var d := WithoutOverlays(got.0.ready.settingsRead.UnwrapOr(map[]));
        var settings := U.Settings(d, screen);
        var ui := got.1.ui.(taskText := None, initialized := true, gameReady := true, settings := Some(settings),
                            refreshRates := U.RatesAt(screen, settings.currentResolution));
      }
    }
  }

  /**
   * What a save writes: ConfigureFfnx and UpdateGame the settings as
   * loaded (for UpdateGame, loaded before the upgrade, so they replace what
   * the upgrade left), LaunchGame those settings with `app_path` set to
   * where the game is run from. Written, the document is the file and the
   * cache is dropped; not written, it stays cached and the error is shown.
   */
  lemma PersistSaves(w: World, screen: Screen, s: Session, cache: Option<Document>, msg: Message)
    requires IsPersist(msg)
    requires U.RatesReadable(screen)
    ensures var r := Persist(w, screen, s, cache, msg);
      var d := Loaded(s, cache);
      var written := if msg.LaunchGame? then d[F.AppPathKey := Value(Str(AppPathSetting(w.install.unix, s.ready.installation)))] else d;
      && (w.writeFfnxSettings(written) ==> r.0.ffnxFile == Ok(written) && r.1 == None)
      && (!w.writeFfnxSettings(written) ==>
            && r.1 == Some(written) && CannotSaveFfnxConfig in r.0.front.ui.shown
            && r.0.ffnxFile == (if msg.UpdateGame? then Upgraded(w, s).ffnxFile else s.ffnxFile))
      && (msg.LaunchGame? ==> GetString(written, F.AppPathKey, "") == Ok(AppPathSetting(w.install.unix, s.ready.installation)))
      && (msg.ConfigureFfnx? ==> r.0.front.ui.settings == Some(U.Settings(d, screen)))
  {
    var d := Loaded(s, cache);
    var written := if msg.LaunchGame? then d[F.AppPathKey := Value(Str(AppPathSetting(w.install.unix, s.ready.installation)))] else d;
    if msg.LaunchGame? {
      assert written[F.AppPathKey] == Value(Str(AppPathSetting(w.install.unix, s.ready.installation)));
    }
  }

  /** A flag edited and then saved with ConfigureFfnx is in the written file and reads back as set. */
  lemma EditedSettingSaved(w: World, screen: Screen, s: Session, cache: Option<Document>, key: string, flag: bool)
    requires ListLength(|screen.resolutions|) && U.RatesReadable(screen)
    ensures var e := Edit(w, screen, s, cache, SetFfnxConfigBool(key, flag));
      var p := Persist(w, screen, e.0, e.1, ConfigureFfnx);
      w.writeFfnxSettings(e.1.value) ==>
        p.0.ffnxFile.Ok? && p.1 == None && L.BoolOrDefault(p.0.ffnxFile.value, key, !flag) == flag
  {
    var e := Edit(w, screen, s, cache, SetFfnxConfigBool(key, flag));
    assert e.1 == Some(Loaded(s, cache)[key := Value(Boolean(flag))]);
    assert Loaded(e.0, e.1) == e.1.value;
  }

  /* ---------- The worker as it runs: the settings cache updated in place ---------- */

  /** `SetFfnxConfigInt` on the cached configuration, read and written one key at a time. */
  method ApplyInt(c: F.FfnxConfig, screen: Screen, key: string, value: i32)
    requires ListLength(|screen.resolutions|)
    modifies c
    ensures c.inner == SetIntSetting(old(c.inner), screen, key, value)
  {
    if key == CurrentResolutionKey {
      var size := SizeAt(screen, value);
      var fullscreen := c.GetBool(F.FullscreenKey, true).UnwrapOr(true);
      if fullscreen {
        c.SetInt(F.WindowSizeXKey, size.0 as i64);
        c.SetInt(F.WindowSizeYKey, size.1 as i64);
      } else {
        var x := c.GetInt(F.WindowSizeXWindowKey, 0).UnwrapOr(0);
        var y := c.GetInt(F.WindowSizeYWindowKey, 0).UnwrapOr(0);
        c.SetInt(F.WindowSizeXKey, x);
        c.SetInt(F.WindowSizeYKey, y);
      }
      c.SetInt(F.WindowSizeXFullscreenKey, size.0 as i64);
      c.SetInt(F.WindowSizeYFullscreenKey, size.1 as i64);
    } else if IsWindowSizeKey(key) {
      var fullscreen := c.GetBool(F.FullscreenKey, true).UnwrapOr(true);
      if fullscreen {
        var v := c.GetInt(key + "_fullscreen", 0).UnwrapOr(0);
        c.SetInt(key, v);
      } else {
        c.SetInt(key, value as i64);
      }
      c.SetInt(key + "_window", value as i64);
    } else {
      c.SetInt(key, value as i64);
    }
  }

  /** `SetFfnxConfigCurrentRefreshRate` on the cached configuration. */
  method ApplyRefreshRate(c: F.FfnxConfig, screen: Screen, resolution: i32, rate: i32)
    requires ListLength(|screen.resolutions|)
    modifies c
    ensures c.inner == SetRefreshRate(old(c.inner), screen, resolution, rate)
  {
    var freqs := U.RatesAt(screen, resolution);
    var i := I32AsUsize(rate);
    c.SetInt(F.RefreshRateKey, if i < |freqs| then freqs[i] as i64 else 0);
  }

  /**
   * `save` on the cache, the writer's outcome decided by the world: the
   * written document becomes the file, a failure is shown.
   */
  method SaveCache(w: World, s: Session, cache: L.LazyFfnxConfig) returns (s': Session)
    modifies cache
    ensures cache.config == null || cache.config == old(cache.config)
    ensures (s', CacheOf(cache)) == SaveSpec(w, s, old(CacheOf(cache)))
  {
    var written := if cache.config != null && !w.writeFfnxSettings(cache.config.inner) then Err(L.IoError) else Ok(());
    var r, document := cache.Save(written);
    s' := s;
    if r.Err? {
      s' := WithText(s, CannotSaveFfnxConfig);
    } else if document.Some? {
      s' := s.(ffnxFile := Ok(document.value));
    }
  }

  /** A message that edits the cache (or launches the other executable), handled on the cache object. */
  method HandleEdit(w: World, screen: Screen, s: Session, cache: L.LazyFfnxConfig, msg: Message) returns (s': Session)
    requires IsEdit(msg)
    requires ListLength(|screen.resolutions|)
    modifies cache, cache.config
    ensures cache.config == null || cache.config == old(cache.config) || fresh(cache.config)
    ensures (s', CacheOf(cache)) == Edit(w, screen, s, old(CacheOf(cache)), msg)
  {
    s' := s;
    if msg.LaunchCW? {
      if !w.launchCw {
        s' := WithText(s, CannotLaunchGame);
      }
    } else if msg.CancelConfigureFfnx? {
      cache.Clear();
    } else {
      var c := cache.Get(s.ffnxFile);
      if msg.SetFfnxConfigBool? {
        c.SetBool(msg.key, msg.flag);
      } else if msg.SetFfnxConfigInt? {
        ApplyInt(c, screen, msg.key, msg.value);
        if msg.key == CurrentResolutionKey {
          s' := s.(front := s.front.(ui := s.front.ui.(refreshRates := U.RatesAt(screen, msg.value))));
        }
      } else if msg.SetFfnxConfigString? {
        c.SetString(msg.key, msg.text);
      } else {
        ApplyRefreshRate(c, screen, msg.resolution, msg.rate);
      }
    }
  }

  /** A message that saves the cache, handled on the cache object. */
  method HandlePersist(w: World, screen: Screen, s: Session, cache: L.LazyFfnxConfig, msg: Message) returns (s': Session)
    requires IsPersist(msg)
    requires U.RatesReadable(screen)
    modifies cache, cache.config
    ensures cache.config == null || cache.config == old(cache.config) || fresh(cache.config)
    ensures (s', CacheOf(cache)) == Persist(w, screen, s, old(CacheOf(cache)), msg)
  {
    if msg.UpdateGame? {
      var _ := cache.Get(s.ffnxFile);
      s' := SaveCache(w, Upgraded(w, s), cache);
    } else if msg.LaunchGame? {
      var c := cache.Get(s.ffnxFile);
      c.SetAppPath(AppPathSetting(w.install.unix, s.ready.installation));
      s' := SaveCache(w, s, cache);
      if !w.launchGame {
        s' := WithText(s', CannotLaunchGame);
      }
    } else {
      var settings := U.SetFfnxConfig(cache, s.ffnxFile, screen);
      s' := SaveCache(w, s.(front := s.front.(ui := s.front.ui.(settings := Some(settings)))), cache);
    }
  }

  /** Any message but Setup and Quit, handled on the cache object. */
  method HandleMessage(w: World, screen: Screen, s: Session, cache: L.LazyFfnxConfig, msg: Message) returns (s': Session)
    requires !IsStop(msg)
    requires ListLength(|screen.resolutions|) && U.RatesReadable(screen)
    modifies cache, cache.config
    ensures cache.config == null || cache.config == old(cache.config) || fresh(cache.config)
    ensures (s', CacheOf(cache)) == Handle(w, screen, s, old(CacheOf(cache)), msg)
  {
    if IsEdit(msg) {
      s' := HandleEdit(w, screen, s, cache, msg);
    } else {
      s' := HandlePersist(w, screen, s, cache, msg);
    }
  }

  /** Serving messages on the cache object, up to the next Setup or Quit. */
  method ServeMessages(w: World, screen: Screen, s0: Session, cache: L.LazyFfnxConfig, msgs: seq<Message>, i0: nat)
    returns (s: Session, stop: Stop, next: nat)
    requires i0 <= |msgs|
    requires ListLength(|screen.resolutions|) && U.RatesReadable(screen)
    modifies cache, cache.config
    ensures cache.config == null || cache.config == old(cache.config) || fresh(cache.config)
    ensures (s, CacheOf(cache), stop, next) == Serve(w, screen, s0, old(CacheOf(cache)), msgs, i0)
  {
    ghost var goal := Serve(w, screen, s0, CacheOf(cache), msgs, i0);
    s, next := s0, i0;
    while next < |msgs| && !IsStop(msgs[next])
      invariant i0 <= next <= |msgs|
      invariant cache.config == null || cache.config == old(cache.config) || fresh(cache.config)
      invariant Serve(w, screen, s, CacheOf(cache), msgs, next) == goal
      decreases |msgs| - next
    {
      ServeStep(w, screen, s, CacheOf(cache), msgs, next);
      s := HandleMessage(w, screen, s, cache, msgs[next]);
      s := Cleared(s);
      next := next + 1;
    }
    ServeAtStop(w, screen, s, CacheOf(cache), msgs, next);
    stop := StopAt(msgs, next);
    if next < |msgs| {
      next := next + 1;
    }
  }

  /** A Setup message while ready: the new game set up and its runtime retrieved. */
  method SetupWhileReady(w: World, s0: Session, exePath: Path, channel: C.UpdateChannel, language: string, msgs: seq<Message>, i0: nat)
    returns (s: Session, exit: Option<Exit>, next: nat)
    requires i0 <= |msgs|
    ensures (s, exit, next) == ReadySetup(w, s0, exePath, channel, language, msgs, i0)
  {
    var f := s0.front.(ui := s0.front.ui.(gameReady := false));
    var found;
    found, f := RunSetup(w, f, exePath, channel, language);
    if found.None? {
      return s0.(front := f), Some(SetupFailed), i0;
    }
    var outcome;
    outcome, f, next := RetrieveFfnxInstallation(w, Some((s0.cacheDir, s0.ffnxFile)), f, found.value, channel, msgs, i0);
    if outcome.Exited? {
      return s0.(front := f), Some(NoGame), next;
    } else if outcome.Stuck? {
      return s0.(front := f), Some(Waiting), next;
    }
    var ready := outcome.ready;
    var file := if ready.ffnx.dir == s0.cacheDir then Ok(WithoutOverlays(ready.settingsRead.UnwrapOr(map[]))) else s0.ffnxFile;
    s, exit := Session(f.(ui := f.ui.(gameReady := true)), ready, s0.cacheDir, file), None;
  }

  /** The loop over received messages once ready, on the cache object. */
  method ServeUntilExit(w: World, screen: Screen, s0: Session, cache: L.LazyFfnxConfig, msgs: seq<Message>, i0: nat)
    returns (s: Session, exit: Exit)
    requires i0 <= |msgs|
    requires ListLength(|screen.resolutions|) && U.RatesReadable(screen)
    modifies cache, cache.config
    ensures (s, CacheOf(cache), exit) == ReadyLoop(w, screen, s0, old(CacheOf(cache)), msgs, i0)
  {
    s := s0;
    var next := i0;
    while true
      invariant i0 <= next <= |msgs|
      invariant cache.config == null || cache.config == old(cache.config) || fresh(cache.config)
      invariant ReadyLoop(w, screen, s, CacheOf(cache), msgs, next) == ReadyLoop(w, screen, s0, old(CacheOf(cache)), msgs, i0)
      decreases |msgs| - next
    {
      var stop;
      s, stop, next := ServeMessages(w, screen, s, cache, msgs, next);
      if stop.Quitted? {
        return s, QuitReceived;
      } else if stop.Closed? {
        return s, ChannelClosed;
      }
      var setupExit;
      s, setupExit, next := SetupWhileReady(w, s, stop.exePath, stop.channel, stop.language, msgs, next);
      if setupExit.Some? {
        return s, setupExit.value;
      }
      s := Cleared(s);
    }
  }

  /**
   * `run`: the game from the launcher's settings or the setup page, its
   * runtime made ready, the settings shown through a cache made for the
   * runtime's directory, then the messages served.
   */
  method Run(w: World, screen: Screen, mumbaFile: Option<Document>, msgs: seq<Message>) returns (result: RunResult)
    requires ListLength(|screen.resolutions|) && U.RatesReadable(screen)
    ensures result == RunSpec(w, screen, mumbaFile, msgs)
  {
    var f := Front(mumbaFile, InitialUi);
    var config := new C.Config.FromDocument(mumbaFile.GetOr(map[]));
    var channel := config.UpdateChannel().UnwrapOr(C.Stable);
    var stored := config.Installation(w.fs);
    var page, i;
    if stored.Ok? && stored.value.Some? {
      page, i := Chosen(stored.value.value, channel), 0;
    } else {
      page, f, i := GoToSetupPage(w, f, msgs, 0);
    }
    if page.QuitChosen? {
      return BeforeReady(f, NoGame);
    } else if page.Spins? {
      return BeforeReady(f, Waiting);
    }
    var outcome, j;
    outcome, f, j := RetrieveFfnxInstallation(w, None, f, page.installation, page.channel, msgs, i);
    if outcome.Exited? {
      return BeforeReady(f, NoGame);
    } else if outcome.Stuck? {
      return BeforeReady(f, Waiting);
    }
    var ready := outcome.ready;
    var file := Ok(WithoutOverlays(ready.settingsRead.UnwrapOr(map[])));
    var cache := new L.LazyFfnxConfig(ready.ffnx.dir);
    var settings := U.SetFfnxConfig(cache, file, screen);
    var ui := f.ui.(taskText := None, initialized := true, gameReady := true, settings := Some(settings),
                    refreshRates := U.RatesAt(screen, settings.currentResolution));
    var s, exit := ServeUntilExit(w, screen, Session(f.(ui := ui), ready, ready.ffnx.dir, file), cache, msgs, j);
    result := AfterReady(s, CacheOf(cache), exit);
  }
}
