/**
 * What the settings page shows (gui/src/ui_helper.rs): the record of the
 * runtime's settings derived from its settings file and the screen modes,
 * and the labels of the resolution and refresh-rate lists.
 *
 * Posting the values to the interface's event loop is left out; the
 * functions here are the values posted.
 */
module UiHelper {
  import opened Wrappers
  import opened Ints
  import opened Decimal
  import opened Text
  import opened Toml
  import opened Screen
  import opened FfnxConfig
  import L = LazyFfnxConfig

  /** The settings record of the interface (`FfnxConfig` of the settings page). */
  datatype FfnxSettings = FfnxSettings(
    rendererBackend: i32, fullscreen: bool, borderless: bool, enableVsync: bool,
    enableAntialiasing: i32, enableAnisotropic: bool, enableBilinear: bool,
    ff8UseGamepadIcons: bool, currentResolution: i32, currentRefreshRate: i32,
    internalResolutionScale: i32, windowSizeX: i32, windowSizeY: i32)

  /** `refresh_rate_position` indexes the current mode's first rate: it must have one. */
  predicate RatesReadable(screen: Screen) {
    screen.currentResolution.Some? ==> |screen.currentResolution.value.freqs| > 0
  }

  /** `n.saturating_sub(1)`. */
  function LastIndex(n: nat): (i: nat)
    ensures n > 0 ==> i == n - 1
    ensures n == 0 ==> i == 0
  {
    if n == 0 then 0 else n - 1
  }

  /** The fullscreen size the settings ask for: the `_fullscreen` keys, defaulting to the window size when fullscreen and to 0 otherwise. */
  function FullscreenSize(doc: Document, fullscreen: bool, wx: i32, wy: i32): (u32, u32) {
    (I32AsU32(L.IntOrDefault(doc, WindowSizeXFullscreenKey, if fullscreen then wx else 0)),
     I32AsU32(L.IntOrDefault(doc, WindowSizeYFullscreenKey, if fullscreen then wy else 0)))
  }

  /** The selected resolution: the position of the fullscreen size, else the last one (0 for an empty list). */
  function CurrentResolutionIndex(screen: Screen, size: (u32, u32)): (i: nat)
    ensures |screen.resolutions| > 0 ==> i < |screen.resolutions|
    ensures |screen.resolutions| == 0 ==> i == 0
  {
    Position(screen, size.0, size.1).GetOr(LastIndex(|screen.resolutions|))
  }

  /**
   * The body of `set_ffnx_config`, the height of the window size being taken
   * from `heightSource` when not fullscreen.
   */
  function Derive(doc: Document, screen: Screen, heightSource: i32): FfnxSettings
    requires RatesReadable(screen)
  {
    var fullscreen := L.BoolOrDefault(doc, FullscreenKey, true);
    var wx := L.IntOrDefault(doc, WindowSizeXKey, 0);
    var wy := L.IntOrDefault(doc, WindowSizeYKey, 0);
    var windowSizeX := if fullscreen then 0 else wx;
    var windowSizeY := if fullscreen then 0 else heightSource;
    var current := CurrentResolutionIndex(screen, FullscreenSize(doc, fullscreen, wx, wy));
    var refreshRate := I32AsU32(L.IntOrDefault(doc, RefreshRateKey, 0));
    FfnxSettings(
      L.IntOrDefault(doc, RendererBackendKey, 0),
      fullscreen,
      L.BoolOrDefault(doc, BorderlessKey, false),
      L.BoolOrDefault(doc, EnableVsyncKey, true),
      L.IntOrDefault(doc, EnableAntialiasingKey, 0),
      L.BoolOrDefault(doc, EnableAnisotropicKey, true),
      L.BoolOrDefault(doc, EnableBilinearKey, false),
      L.BoolOrDefault(doc, Ff8UseGamepadIconsKey, true),
      UsizeAsI32(current),
      UsizeAsI32(RefreshRatePosition(screen, current, refreshRate).GetOr(0)),
      L.IntOrDefault(doc, InternalResolutionScaleKey, 0),
      L.IntOrDefault(doc, WindowSizeXWindowKey, if windowSizeX == 0 then 640 else windowSizeX),
      L.IntOrDefault(doc, WindowSizeYWindowKey, if windowSizeY == 0 then 480 else windowSizeY))
  }

  /** `set_ffnx_config` as written: the window height is derived from the stored width. */
  function SettingsAsWritten(doc: Document, screen: Screen): (r: FfnxSettings)
    requires RatesReadable(screen)
    ensures !r.fullscreen && WindowSizeYWindowKey !in doc && L.IntOrDefault(doc, WindowSizeXKey, 0) != 0 ==>
      r.windowSizeY == L.IntOrDefault(doc, WindowSizeXKey, 0)
  {
    Derive(doc, screen, L.IntOrDefault(doc, WindowSizeXKey, 0))
  }

  /** `set_ffnx_config` with the window height derived from the stored height. */
  function Settings(doc: Document, screen: Screen): (r: FfnxSettings)
    requires RatesReadable(screen)
    ensures !r.fullscreen && WindowSizeYWindowKey !in doc && L.IntOrDefault(doc, WindowSizeYKey, 0) != 0 ==>
      r.windowSizeY == L.IntOrDefault(doc, WindowSizeYKey, 0)
  {
    Derive(doc, screen, L.IntOrDefault(doc, WindowSizeYKey, 0))
  }

  /**
   * `set_ffnx_config` through the lazy cache: the first read loads the file
   * if nothing is cached, every later read finds the same document (see
   * `LazyFfnxConfig.Get`), and the record is derived from that document.
   */
  method SetFfnxConfig(cache: L.LazyFfnxConfig, loaded: Result<Document, L.FileError>, screen: Screen) returns (config: FfnxSettings)
    requires RatesReadable(screen)
    modifies cache
    ensures cache.config != null
    ensures old(cache.config) != null ==> cache.config == old(cache.config) && cache.config.inner == old(cache.config.inner)
    ensures old(cache.config) == null ==> fresh(cache.config) && cache.config.inner == loaded.UnwrapOr(map[])
    ensures config == Settings(cache.config.inner, screen)
  {
    var c := cache.Get(loaded);
    config := Settings(c.inner, screen);
  }

  /* ---------- Labels ---------- */

  /** `format!("{}x{}", w, h)`. */
  function ResolutionLabel(r: Resolution): string {
    NatToString(r.w) + "x" + NatToString(r.h)
  }

  /** `format!("{} Hz", freq)`. */
  function RateLabel(f: u32): string {
    NatToString(f) + " Hz"
  }

  /** The rates of the resolution at `current as usize`, none when there is no such resolution. */
  function RatesAt(screen: Screen, current: i32): (fs: seq<u32>)
    ensures 0 <= current < |screen.resolutions| ==> fs == screen.resolutions[current].freqs
    ensures !(0 <= current < |screen.resolutions|) && |screen.resolutions| < 0x8000_0000_0000_0000 ==> fs == []
  {
    var i := I32AsUsize(current);
    if i < |screen.resolutions| then screen.resolutions[i].freqs else []
  }

  /** `set_resolutions`: one label per resolution, in order, and the labels of the selected resolution's rates. */
  function SetResolutions(screen: Screen, current: i32): (r: (seq<string>, seq<string>))
    ensures |r.0| == |screen.resolutions| && forall i :: 0 <= i < |r.0| ==> r.0[i] == ResolutionLabel(screen.resolutions[i])
    ensures |r.1| == |RatesAt(screen, current)| && forall i :: 0 <= i < |r.1| ==> r.1[i] == RateLabel(RatesAt(screen, current)[i])
  {
    (seq(|screen.resolutions|, i requires 0 <= i < |screen.resolutions| => ResolutionLabel(screen.resolutions[i])),
     SetRefreshRates(RatesAt(screen, current)))
  }

  /** `set_refresh_rates`: one label per rate, in order. */
  function SetRefreshRates(fs: seq<u32>): (r: seq<string>)
    ensures |r| == |fs| && forall i :: 0 <= i < |fs| ==> r[i] == RateLabel(fs[i])
  {
    seq(|fs|, i requires 0 <= i < |fs| => RateLabel(fs[i]))
  }

  /* ---------- What the labels and the record mean ---------- */

  /** A resolution label names its size: equal labels mean equal sizes. */
  lemma ResolutionLabelInjective(r: Resolution, s: Resolution)
    requires ResolutionLabel(r) == ResolutionLabel(s)
    ensures r.w == s.w && r.h == s.h
  {
    assert 'x' !in NatToString(r.w) && 'x' !in NatToString(s.w);
    assert ResolutionLabel(r) == NatToString(r.w) + ['x'] + NatToString(r.h);
    assert ResolutionLabel(s) == NatToString(s.w) + ['x'] + NatToString(s.h);
    SplitAtSeparator(NatToString(r.w), NatToString(r.h), NatToString(s.w), NatToString(s.h), 'x');
    NatToStringInjective(r.w, s.w);
    NatToStringInjective(r.h, s.h);
  }

  /** A rate label reads back as its rate followed by " Hz". */
  lemma RateLabelParse(f: u32)
    ensures var l := RateLabel(f);
      |l| > 3 && l[|l| - 3..] == " Hz" && AllDigits(l[..|l| - 3]) && DigitsValue(l[..|l| - 3]) == f
  {
    var l := RateLabel(f);
    assert l[..|l| - 3] == NatToString(f);
    DigitsValueOfNatToString(f);
  }

  /** Sizes that differ have labels that differ, so the list of a screen with distinct sizes has no repeated label. */
  lemma DistinctLabels(screen: Screen, current: i32)
    requires DistinctSizes(screen.resolutions)
    ensures var labels := SetResolutions(screen, current).0;
      forall i, j :: 0 <= i < j < |labels| ==> labels[i] != labels[j]
  {
    var labels := SetResolutions(screen, current).0;
    forall i, j | 0 <= i < j < |labels|
      ensures labels[i] != labels[j]
    {
      if labels[i] == labels[j] {
        ResolutionLabelInjective(screen.resolutions[i], screen.resolutions[j]);
      }
    }
  }

  /**
   * An empty settings file reads as: fullscreen, no border, synchronised,
   * anisotropic filtering on, bilinear off, gamepad icons on, renderer,
   * anti-aliasing and scale 0, and a 640x480 window.
   */
  lemma EmptyFileDefaults(screen: Screen)
    requires RatesReadable(screen)
    ensures var r := Settings(map[], screen);
      && r.fullscreen && !r.borderless && r.enableVsync && r.enableAnisotropic && !r.enableBilinear
      && r.ff8UseGamepadIcons && r.rendererBackend == 0 && r.enableAntialiasing == 0
      && r.internalResolutionScale == 0 && r.windowSizeX == 640 && r.windowSizeY == 480
  {
  }

  /**
   * The window size: the `_window` keys when stored; otherwise the stored size
   * when not fullscreen and non-zero, else 640 by 480.
   */
  lemma WindowSizeFallback(doc: Document, screen: Screen)
    requires RatesReadable(screen)
    requires WindowSizeXWindowKey !in doc && WindowSizeYWindowKey !in doc
    ensures var r := Settings(doc, screen);
      var wx := L.IntOrDefault(doc, WindowSizeXKey, 0);
      var wy := L.IntOrDefault(doc, WindowSizeYKey, 0);
      && (r.fullscreen ==> r.windowSizeX == 640 && r.windowSizeY == 480)
      && (!r.fullscreen ==> r.windowSizeX == (if wx == 0 then 640 else wx) && r.windowSizeY == (if wy == 0 then 480 else wy))
  {
  }

  /**
   * The selected resolution is the first of the stored fullscreen size (the
   * current size standing in for a zero), and the last one when no resolution
   * has that size; it is always a valid index of a non-empty list.
   */
  lemma CurrentResolutionChosen(doc: Document, screen: Screen)
    requires RatesReadable(screen) && |screen.resolutions| < 0x8000_0000
    ensures var r := Settings(doc, screen);
      var fullscreen := L.BoolOrDefault(doc, FullscreenKey, true);
      var size := FullscreenSize(doc, fullscreen, L.IntOrDefault(doc, WindowSizeXKey, 0), L.IntOrDefault(doc, WindowSizeYKey, 0));
      var (tw, th) := TargetSize(screen, size.0, size.1);
      && (|screen.resolutions| > 0 ==> 0 <= r.currentResolution < |screen.resolutions|)
      && (Position(screen, size.0, size.1).Some? ==>
            screen.resolutions[r.currentResolution].w == tw && screen.resolutions[r.currentResolution].h == th)
      && (Position(screen, size.0, size.1).None? ==> r.currentResolution == LastIndex(|screen.resolutions|))
  {
  }

  /**
   * The selected rate is an index into the selected resolution's rates where
   * the stored rate (the current mode's first for 0) is, and 0 when it is not
   * there.
   */
  lemma CurrentRefreshRateChosen(doc: Document, screen: Screen)
    requires RatesReadable(screen) && |screen.resolutions| < 0x8000_0000
    requires forall r | r in screen.resolutions :: |r.freqs| < 0x8000_0000
    ensures var r := Settings(doc, screen);
      var rate := TargetFreq(screen, I32AsU32(L.IntOrDefault(doc, RefreshRateKey, 0)));
      0 <= r.currentRefreshRate
      && (0 <= r.currentResolution < |screen.resolutions| && rate in screen.resolutions[r.currentResolution].freqs ==>
            screen.resolutions[r.currentResolution].freqs[r.currentRefreshRate] == rate)
      && (!(0 <= r.currentResolution < |screen.resolutions| && rate in screen.resolutions[r.currentResolution].freqs) ==>
            r.currentRefreshRate == 0)
  {
    var r := Settings(doc, screen);
    var fullscreen := L.BoolOrDefault(doc, FullscreenKey, true);
    var size := FullscreenSize(doc, fullscreen, L.IntOrDefault(doc, WindowSizeXKey, 0), L.IntOrDefault(doc, WindowSizeYKey, 0));
    var current := CurrentResolutionIndex(screen, size);
    assert r.currentResolution == current;
    var p := RefreshRatePosition(screen, current, I32AsU32(L.IntOrDefault(doc, RefreshRateKey, 0)));
    if p.Some? {
      assert screen.resolutions[current] in screen.resolutions;
    }
  }

  /**
   * The window height as written comes from the stored width: a windowed
   * 800x600 setting with no `_window` keys shows an 800x800 window, where the
   * stored height gives 800x600.
   */
  lemma WindowHeightFromWidth(screen: Screen)
    requires RatesReadable(screen)
    ensures var doc := map[FullscreenKey := Value(Boolean(false)), WindowSizeXKey := Value(Integer(800)), WindowSizeYKey := Value(Integer(600))];
      && SettingsAsWritten(doc, screen).windowSizeX == 800 && SettingsAsWritten(doc, screen).windowSizeY == 800
      && Settings(doc, screen).windowSizeX == 800 && Settings(doc, screen).windowSizeY == 600
  {
  }
}
