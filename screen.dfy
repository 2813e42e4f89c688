/**
 * Screen modes (core/src/screen.rs, and gui/src/screen.rs which repeats the
 * lookups and the Windows enumeration): the resolutions of the primary
 * display with the same aspect ratio as the current mode, each with its
 * refresh rates, and the lookups the settings page makes in them.
 *
 * The operating system's answers are parameters: the Windows enumeration is
 * a sequence of devices with their modes, and the `xrandr` output a sequence
 * of lines already classified by the regular expressions of the source, the
 * refresh rates of a mode line already rounded to integers.
 */
module Screen {
  import opened Wrappers
  import opened Ints
  import opened Sorting

  /** `Resolution`; its derived order compares `w`, then `h`, then `freqs` lexicographically. */
  datatype Resolution = Resolution(w: u32, h: u32, freqs: seq<u32>)

  datatype Screen = Screen(resolutions: seq<Resolution>, currentResolution: Option<Resolution>)

  /* ---------- Lookups ---------- */

  /** The size `position` looks for: a zero width or height means the current resolution, or 0x0 without one. */
  function TargetSize(s: Screen, w: u32, h: u32): (u32, u32) {
    if w == 0 || h == 0 then
      match s.currentResolution
      case Some(r) => (r.w, r.h)
      case None => (0, 0)
    else (w, h)
  }

  /** `iter().position(|s| s.w == w && s.h == h)`. */
  function FindSize(rs: seq<Resolution>, w: u32, h: u32): (r: Option<nat>)
    ensures r.Some? ==> r.value < |rs| && rs[r.value].w == w && rs[r.value].h == h
    ensures r.Some? ==> forall j :: 0 <= j < r.value ==> !(rs[j].w == w && rs[j].h == h)
    ensures r.None? ==> forall j :: 0 <= j < |rs| ==> !(rs[j].w == w && rs[j].h == h)
    decreases |rs|
  {
    if rs == [] then None
    else if rs[0].w == w && rs[0].h == h then Some(0)
    else
      match FindSize(rs[1..], w, h)
      case None => None
      case Some(i) => Some(i + 1)
  }

  /** `position`: the index of the first resolution of the wanted size, zeros standing for the current size. */
  function Position(s: Screen, w: u32, h: u32): (r: Option<nat>)
    ensures var (tw, th) := TargetSize(s, w, h);
      && (r.Some? ==>
            r.value < |s.resolutions| && s.resolutions[r.value].w == tw && s.resolutions[r.value].h == th
            && forall j :: 0 <= j < r.value ==> !(s.resolutions[j].w == tw && s.resolutions[j].h == th))
      && (r.None? ==> forall j :: 0 <= j < |s.resolutions| ==> !(s.resolutions[j].w == tw && s.resolutions[j].h == th))
  {
    var (tw, th) := TargetSize(s, w, h);
    FindSize(s.resolutions, tw, th)
  }

  /** `refresh_rates_len`: the number of rates of a resolution, None past the end. */
  function RefreshRatesLen(s: Screen, resolutionPosition: nat): (r: Option<nat>)
    ensures r.Some? <==> resolutionPosition < |s.resolutions|
    ensures r.Some? ==> r.value == |s.resolutions[resolutionPosition].freqs|
  {
    if resolutionPosition < |s.resolutions| then Some(|s.resolutions[resolutionPosition].freqs|) else None
  }

  /** `iter().position(|f| *f == freq)`. */
  function FindFreq(fs: seq<u32>, freq: u32): (r: Option<nat>)
    ensures r.Some? ==> r.value < |fs| && fs[r.value] == freq && freq !in fs[..r.value]
    ensures r.None? <==> freq !in fs
    decreases |fs|
  {
    if fs == [] then None
    else if fs[0] == freq then Some(0)
    else
      match FindFreq(fs[1..], freq)
      case None => None
      case Some(i) =>
        assert fs[..i + 1] == [fs[0]] + fs[1..][..i];
        Some(i + 1)
  }

  /** The rate `refresh_rate_position` looks for: zero means the current mode's first rate, or 0 without one. */
  function TargetFreq(s: Screen, freq: u32): u32
    requires freq == 0 && s.currentResolution.Some? ==> |s.currentResolution.value.freqs| > 0
  {
    if freq == 0 then
      match s.currentResolution
      case Some(r) => r.freqs[0]
      case None => 0
    else freq
  }

  /**
   * `refresh_rate_position`: the index of the first occurrence of the rate in
   * the resolution's list; None past the end of the resolutions. Indexing the
   * current mode's first rate panics on an empty list, which callers avoid.
   */
  function RefreshRatePosition(s: Screen, resolutionPosition: nat, freq: u32): (r: Option<nat>)
    requires freq == 0 && s.currentResolution.Some? ==> |s.currentResolution.value.freqs| > 0
    ensures resolutionPosition >= |s.resolutions| ==> r.None?
    ensures resolutionPosition < |s.resolutions| ==>
      var fs := s.resolutions[resolutionPosition].freqs;
      (r.None? <==> TargetFreq(s, freq) !in fs)
      && (r.Some? ==> r.value < |fs| && fs[r.value] == TargetFreq(s, freq) && TargetFreq(s, freq) !in fs[..r.value])
  {
    if resolutionPosition < |s.resolutions| then FindFreq(s.resolutions[resolutionPosition].freqs, TargetFreq(s, freq))
    else None
  }

  /* ---------- The orders `sort` uses ---------- */

  function LeU32(a: u32, b: u32): bool {
    a <= b
  }

  /** `Vec<u32>`'s order: lexicographic, a proper prefix first. */
  predicate LexLe(a: seq<u32>, b: seq<u32>)
    decreases |a|
  {
    a == [] || (b != [] && (a[0] < b[0] || (a[0] == b[0] && LexLe(a[1..], b[1..]))))
  }

  /** The derived order of `Resolution`. */
  predicate LeResolution(a: Resolution, b: Resolution) {
    a.w < b.w || (a.w == b.w && (a.h < b.h || (a.h == b.h && LexLe(a.freqs, b.freqs))))
  }

  lemma LeU32TotalOrder()
    ensures TotalOrder(LeU32)
  {
  }

  lemma {:induction false} LexLeRefl(a: seq<u32>)
    ensures LexLe(a, a)
    decreases |a|
  {
    if a != [] {
      LexLeRefl(a[1..]);
    }
  }

  lemma {:induction false} LexLeAntisym(a: seq<u32>, b: seq<u32>)
    requires LexLe(a, b) && LexLe(b, a)
    ensures a == b
    decreases |a|
  {
    if a != [] {
      LexLeAntisym(a[1..], b[1..]);
      assert a == [a[0]] + a[1..];
      assert b == [b[0]] + b[1..];
    }
  }

  lemma {:induction false} LexLeTrans(a: seq<u32>, b: seq<u32>, c: seq<u32>)
    requires LexLe(a, b) && LexLe(b, c)
    ensures LexLe(a, c)
    decreases |a|
  {
    if a != [] && a[0] == b[0] && b[0] == c[0] {
      LexLeTrans(a[1..], b[1..], c[1..]);
    }
  }

  lemma {:induction false} LexLeTotal(a: seq<u32>, b: seq<u32>)
    ensures LexLe(a, b) || LexLe(b, a)
    decreases |a|
  {
    if a != [] && b != [] && a[0] == b[0] {
      LexLeTotal(a[1..], b[1..]);
    }
  }

  /** The derived order of `Resolution` is a total order, so sorting a list of them has one result. */
  lemma LeResolutionTotalOrder()
    ensures TotalOrder(LeResolution)
  {
    forall a: Resolution
      ensures LeResolution(a, a)
    {
      LexLeRefl(a.freqs);
    }
    forall a: Resolution, b: Resolution | LeResolution(a, b) && LeResolution(b, a)
      ensures a == b
    {
      LexLeAntisym(a.freqs, b.freqs);
    }
    forall a: Resolution, b: Resolution, c: Resolution | LeResolution(a, b) && LeResolution(b, c)
      ensures LeResolution(a, c)
    {
      if a.w == b.w == c.w && a.h == b.h == c.h {
        LexLeTrans(a.freqs, b.freqs, c.freqs);
      }
    }
    forall a: Resolution, b: Resolution
      ensures LeResolution(a, b) || LeResolution(b, a)
    {
      LexLeTotal(a.freqs, b.freqs);
    }
  }

  /* ---------- Aspect ratio ---------- */

  /**
   * Equality of `Fraction::new(w, h)` values: cross-multiplication for
   * non-zero heights; a zero height gives infinity, or NaN for 0/0, each
   * equal only to itself.
   */
  predicate SameRatio(w: u32, h: u32, w': u32, h': u32) {
    if h == 0 || h' == 0 then h == 0 && h' == 0 && (w == 0 <==> w' == 0)
    else w * h' == w' * h
  }

  /* ---------- Windows enumeration ---------- */

  /** A display mode as `EnumDisplaySettingsW` fills it in. */
  datatype Mode = Mode(w: u32, h: u32, bitsPerPel: u32, freq: u32)

  /** A display device: its state flags, its current mode (None when the query fails) and its list of modes. */
  datatype Device = Device(active: bool, primary: bool, current: Option<Mode>, modes: seq<Mode>)

  /** A mode offered for the current one: 32 bits per pixel or more, and the same aspect ratio. */
  predicate Offered(current: Mode, m: Mode) {
    m.bitsPerPel >= 32 && SameRatio(current.w, current.h, m.w, m.h)
  }

  /** The modes of `modes` offered for `current`, in order. */
  function OfferedModes(current: Mode, modes: seq<Mode>): seq<Mode>
    decreases |modes|
  {
    if modes == [] then []
    else OfferedModes(current, modes[..|modes| - 1]) + (if Offered(current, modes[|modes| - 1]) then [modes[|modes| - 1]] else [])
  }

  /**
   * One step of the merge: a mode of a new size is appended with its rate; a
   * mode of a known size adds its rate when absent and re-sorts the rates.
   */
  function Merge(rs: seq<Resolution>, m: Mode): (r: seq<Resolution>) {
    match FindSize(rs, m.w, m.h)
    case None => rs + [Resolution(m.w, m.h, [m.freq])]
    case Some(p) =>
      if m.freq in rs[p].freqs then rs
      else WithRate(rs, p, m.freq)
  }

  function MergeAll(rs: seq<Resolution>, ms: seq<Mode>): seq<Resolution>
    decreases |ms|
  {
    if ms == [] then rs else Merge(MergeAll(rs, ms[..|ms| - 1]), ms[|ms| - 1])
  }

  /** What the device loop has gathered: whether it stopped, the current mode seen last, the merged resolutions. */
  datatype Gathered = Gathered(stopped: bool, current: Option<Resolution>, resolutions: seq<Resolution>)

  /** The device loop over `devices`: active primary devices contribute; one whose current mode cannot be read ends the loop. */
  function Gather(devices: seq<Device>): Gathered
    decreases |devices|
  {
    if devices == [] then Gathered(false, None, [])
    else
      var g := Gather(devices[..|devices| - 1]);
      var d := devices[|devices| - 1];
      if g.stopped || !(d.active && d.primary) then g
      else if d.current.None? then g.(stopped := true)
      else
        var c := d.current.value;
        Gathered(false, Some(Resolution(c.w, c.h, [c.freq])), MergeAll(g.resolutions, OfferedModes(c, d.modes)))
  }

  /** `list_screens_resolutions` on Windows. */
  method ListScreensResolutionsWindows(devices: seq<Device>) returns (screen: Screen)
    ensures screen.currentResolution == Gather(devices).current
    ensures screen.resolutions == Sort(LeResolution, Gather(devices).resolutions)
  {
    var resolutions: seq<Resolution> := [];
    var currentResolution: Option<Resolution> := None;
    var devNum := 0;
    while devNum < |devices|
      invariant 0 <= devNum <= |devices|
      invariant Gather(devices[..devNum]) == Gathered(false, currentResolution, resolutions)
    {
      var device := devices[devNum];
      assert devices[..devNum + 1][..devNum] == devices[..devNum];
      if device.active && device.primary {
        if device.current.None? {
          GatherStopped(devices, devNum + 1);
          break;
        }
        var devMode := device.current.value;
        currentResolution := Some(Resolution(devMode.w, devMode.h, [devMode.freq]));
        resolutions := MergeModes(resolutions, devMode, device.modes);
      }
      devNum := devNum + 1;
    }
    if devNum == |devices| {
      assert devices[..devNum] == devices;
    }
    resolutions := Sort(LeResolution, resolutions);
    screen := Screen(resolutions, currentResolution);
  }

  /** The mode loop for one device: each offered mode merged in turn, in place. */
  method MergeModes(start: seq<Resolution>, devMode: Mode, modes: seq<Mode>) returns (resolutions: seq<Resolution>)
    ensures resolutions == MergeAll(start, OfferedModes(devMode, modes))
  {
    resolutions := start;
    var imodeNum := 0;
    while imodeNum < |modes|
      invariant 0 <= imodeNum <= |modes|
      invariant resolutions == MergeAll(start, OfferedModes(devMode, modes[..imodeNum]))
    {
      var mode := modes[imodeNum];
      assert modes[..imodeNum + 1][..imodeNum] == modes[..imodeNum];
      ghost var offered := OfferedModes(devMode, modes[..imodeNum]);
      if mode.bitsPerPel >= 32 && SameRatio(devMode.w, devMode.h, mode.w, mode.h) {
        assert OfferedModes(devMode, modes[..imodeNum + 1]) == offered + [mode];
        assert (offered + [mode])[..|offered|] == offered;
        assert MergeAll(start, offered + [mode]) == Merge(resolutions, mode);
        match FindSize(resolutions, mode.w, mode.h) {
          case Some(position) =>
            if mode.freq !in resolutions[position].freqs {
              var freqs := resolutions[position].freqs + [mode.freq];
              resolutions := resolutions[position := resolutions[position].(freqs := Sort(LeU32, freqs))];
            }
          case None =>
            resolutions := resolutions + [Resolution(mode.w, mode.h, [mode.freq])];
        }
      } else {
        assert OfferedModes(devMode, modes[..imodeNum + 1]) == offered + [];
        assert offered + [] == offered;
      }
      imodeNum := imodeNum + 1;
    }
    assert modes[..imodeNum] == modes;
  }

  /* ---------- What the Windows enumeration yields ---------- */

  /** Every value occurs at most once. */
  predicate NoDuplicates(fs: seq<u32>) {
    forall f | f in fs :: multiset(fs)[f] <= 1
  }

  /** A resolution's rates are non-empty, ascending and without repetition. */
  predicate GoodRates(r: Resolution) {
    |r.freqs| > 0 && Sorted(LeU32, r.freqs) && NoDuplicates(r.freqs)
  }

  /** No two resolutions share a size. */
  predicate DistinctSizes(rs: seq<Resolution>) {
    forall i, j :: 0 <= i < j < |rs| ==> !(rs[i].w == rs[j].w && rs[i].h == rs[j].h)
  }

  predicate WellFormed(rs: seq<Resolution>) {
    DistinctSizes(rs) && forall i :: 0 <= i < |rs| ==> GoodRates(rs[i])
  }

  /** Some resolution of size `w`x`h` offers rate `f`. */
  predicate HasRate(rs: seq<Resolution>, w: u32, h: u32, f: u32) {
    exists i :: 0 <= i < |rs| && rs[i].w == w && rs[i].h == h && f in rs[i].freqs
  }

  /** Adding a rate that is absent to ascending distinct rates and sorting keeps them ascending and distinct, with the rate in. */
  lemma AddRate(fs: seq<u32>, f: u32)
    requires Sorted(LeU32, fs) && NoDuplicates(fs) && f !in fs
    ensures var t := Sort(LeU32, fs + [f]);
      |t| > 0 && Sorted(LeU32, t) && NoDuplicates(t) && forall x :: x in t <==> x in fs || x == f
  {
    var t := Sort(LeU32, fs + [f]);
    LeU32TotalOrder();
    SortSpec(LeU32, fs + [f]);
    assert multiset(fs + [f]) == multiset(fs) + multiset{f};
    forall x
      ensures x in t <==> x in fs || x == f
    {
      assert x in t <==> x in multiset(t);
      assert x in fs <==> x in multiset(fs);
    }
  }

  /** A mode of a new size appends a resolution holding just its rate. */
  lemma MergeNewSize(rs: seq<Resolution>, m: Mode)
    requires WellFormed(rs) && FindSize(rs, m.w, m.h).None?
    ensures WellFormed(Merge(rs, m))
    ensures forall w, h, f :: HasRate(Merge(rs, m), w, h, f) <==> HasRate(rs, w, h, f) || (w == m.w && h == m.h && f == m.freq)
  {
    var r := Merge(rs, m);
    assert r == rs + [Resolution(m.w, m.h, [m.freq])];
    assert GoodRates(r[|rs|]) by {
      assert multiset([m.freq]) == multiset{m.freq};
    }
    forall w, h, f | HasRate(r, w, h, f)
      ensures HasRate(rs, w, h, f) || (w == m.w && h == m.h && f == m.freq)
    {
      var i :| 0 <= i < |r| && r[i].w == w && r[i].h == h && f in r[i].freqs;
      if i < |rs| {
        assert rs[i] == r[i];
      }
    }
    forall w, h, f | HasRate(rs, w, h, f)
      ensures HasRate(r, w, h, f)
    {
      var i :| 0 <= i < |rs| && rs[i].w == w && rs[i].h == h && f in rs[i].freqs;
      assert r[i] == rs[i];
    }
    assert HasRate(r, m.w, m.h, m.freq) by {
      assert r[|rs|].w == m.w && r[|rs|].h == m.h && m.freq in r[|rs|].freqs;
    }
  }

  /** The resolution at `p` with rate `f` added and the rates re-sorted. */
  function WithRate(rs: seq<Resolution>, p: nat, f: u32): seq<Resolution>
    requires p < |rs|
  {
    rs[p := rs[p].(freqs := Sort(LeU32, rs[p].freqs + [f]))]
  }

  /** Adding an absent rate to one resolution keeps the list well formed. */
  lemma WithRateWellFormed(rs: seq<Resolution>, p: nat, f: u32)
    requires WellFormed(rs) && p < |rs| && f !in rs[p].freqs
    ensures WellFormed(WithRate(rs, p, f))
  {
    AddRate(rs[p].freqs, f);
  }

  /** Adding a rate to the resolution at `p` adds exactly that size and rate. */
  lemma WithRateRates(rs: seq<Resolution>, p: nat, f: u32)
    requires p < |rs| && Sorted(LeU32, rs[p].freqs) && NoDuplicates(rs[p].freqs) && f !in rs[p].freqs
    ensures forall w, h, g :: HasRate(WithRate(rs, p, f), w, h, g) <==> HasRate(rs, w, h, g) || (w == rs[p].w && h == rs[p].h && g == f)
  {
    var r := WithRate(rs, p, f);
    AddRate(rs[p].freqs, f);
    forall w, h, g | HasRate(r, w, h, g)
      ensures HasRate(rs, w, h, g) || (w == rs[p].w && h == rs[p].h && g == f)
    {
      var i :| 0 <= i < |r| && r[i].w == w && r[i].h == h && g in r[i].freqs;
      if i != p {
        assert rs[i] == r[i];
      } else if g != f {
        assert g in rs[p].freqs;
      }
    }
    forall w, h, g | HasRate(rs, w, h, g) || (w == rs[p].w && h == rs[p].h && g == f)
      ensures HasRate(r, w, h, g)
    {
      if HasRate(rs, w, h, g) {
        var i :| 0 <= i < |rs| && rs[i].w == w && rs[i].h == h && g in rs[i].freqs;
        assert r[i].w == w && r[i].h == h && g in r[i].freqs;
      } else {
        assert r[p].w == w && r[p].h == h && g in r[p].freqs;
      }
    }
  }

  /** A mode of a known size adds its rate to that resolution only. */
  lemma MergeKnownSize(rs: seq<Resolution>, m: Mode, p: nat)
    requires WellFormed(rs) && FindSize(rs, m.w, m.h) == Some(p)
    ensures WellFormed(Merge(rs, m))
    ensures forall w, h, f :: HasRate(Merge(rs, m), w, h, f) <==> HasRate(rs, w, h, f) || (w == m.w && h == m.h && f == m.freq)
  {
    if m.freq !in rs[p].freqs {
      assert Merge(rs, m) == WithRate(rs, p, m.freq);
      WithRateWellFormed(rs, p, m.freq);
      WithRateRates(rs, p, m.freq);
    } else {
      assert HasRate(rs, m.w, m.h, m.freq) by {
        assert rs[p].w == m.w && rs[p].h == m.h && m.freq in rs[p].freqs;
      }
    }
  }

  /** A merge step keeps the list well formed and adds exactly the mode's size and rate. */
  lemma MergeSpec(rs: seq<Resolution>, m: Mode)
    requires WellFormed(rs)
    ensures WellFormed(Merge(rs, m))
    ensures forall w, h, f :: HasRate(Merge(rs, m), w, h, f) <==> HasRate(rs, w, h, f) || (w == m.w && h == m.h && f == m.freq)
  {
    match FindSize(rs, m.w, m.h)
    case None => MergeNewSize(rs, m);
    case Some(p) => MergeKnownSize(rs, m, p);
  }

  /** Some mode of `ms` has size `w`x`h` and rate `f`. */
  predicate ModeWith(ms: seq<Mode>, w: u32, h: u32, f: u32) {
    exists k :: 0 <= k < |ms| && ms[k].w == w && ms[k].h == h && ms[k].freq == f
  }

  /** Merging modes from nothing gives a well-formed list holding exactly the modes' sizes and rates. */
  lemma {:induction false} MergeAllSpec(ms: seq<Mode>)
    ensures WellFormed(MergeAll([], ms))
    ensures forall w, h, f :: HasRate(MergeAll([], ms), w, h, f) <==> ModeWith(ms, w, h, f)
    decreases |ms|
  {
    if ms != [] {
      var init := ms[..|ms| - 1];
      var m := ms[|ms| - 1];
      MergeAllSpec(init);
      MergeSpec(MergeAll([], init), m);
      forall w, h, f
        ensures ModeWith(ms, w, h, f) <==> ModeWith(init, w, h, f) || (w == m.w && h == m.h && f == m.freq)
      {
        if ModeWith(ms, w, h, f) {
          var k :| 0 <= k < |ms| && ms[k].w == w && ms[k].h == h && ms[k].freq == f;
          if k < |init| {
            assert init[k] == ms[k];
          }
        }
        if ModeWith(init, w, h, f) {
          var k :| 0 <= k < |init| && init[k].w == w && init[k].h == h && init[k].freq == f;
          assert ms[k] == init[k];
        }
      }
    }
  }

  /** Merging in two runs is merging their concatenation. */
  lemma {:induction false} MergeAllAppend(rs: seq<Resolution>, xs: seq<Mode>, ys: seq<Mode>)
    ensures MergeAll(MergeAll(rs, xs), ys) == MergeAll(rs, xs + ys)
    decreases |ys|
  {
    if ys != [] {
      MergeAllAppend(rs, xs, ys[..|ys| - 1]);
      assert (xs + ys)[..|xs + ys| - 1] == xs + ys[..|ys| - 1];
    } else {
      assert xs + ys == xs;
    }
  }

  /** The offered modes of every device the loop reads, in order. */
  function GatheredModes(devices: seq<Device>): seq<Mode>
    decreases |devices|
  {
    if devices == [] then []
    else
      var g := Gather(devices[..|devices| - 1]);
      var d := devices[|devices| - 1];
      if g.stopped || !(d.active && d.primary) || d.current.None? then GatheredModes(devices[..|devices| - 1])
      else GatheredModes(devices[..|devices| - 1]) + OfferedModes(d.current.value, d.modes)
  }

  lemma {:induction false} GatherIsMergeAll(devices: seq<Device>)
    ensures Gather(devices).resolutions == MergeAll([], GatheredModes(devices))
    decreases |devices|
  {
    if devices != [] {
      var init := devices[..|devices| - 1];
      GatherIsMergeAll(init);
      var d := devices[|devices| - 1];
      if !Gather(init).stopped && d.active && d.primary && d.current.Some? {
        MergeAllAppend([], GatheredModes(init), OfferedModes(d.current.value, d.modes));
      }
    }
  }

  /** An offered mode is one of the device's modes, with 32 bits per pixel or more and the current ratio. */
  lemma {:induction false} OfferedModesSpec(current: Mode, modes: seq<Mode>, m: Mode)
    ensures m in OfferedModes(current, modes) <==> m in modes && Offered(current, m)
    decreases |modes|
  {
    if modes != [] {
      OfferedModesSpec(current, modes[..|modes| - 1], m);
      assert modes == modes[..|modes| - 1] + [modes[|modes| - 1]];
    }
  }

  /**
   * The Windows list: ordered by the derived order, each resolution with
   * non-empty ascending distinct rates, and a size offers a rate exactly when
   * some mode read from an active primary device had that size and rate.
   */
  lemma WindowsResolutions(devices: seq<Device>)
    ensures var rs := Sort(LeResolution, Gather(devices).resolutions);
      && Sorted(LeResolution, rs)
      && (forall r :: r in rs ==> GoodRates(r))
      && (forall w, h, f :: HasRate(rs, w, h, f) <==> ModeWith(GatheredModes(devices), w, h, f))
  {
    var gs := Gather(devices).resolutions;
    var rs := Sort(LeResolution, gs);
    LeResolutionTotalOrder();
    SortSpec(LeResolution, gs);
    GatherIsMergeAll(devices);
    MergeAllSpec(GatheredModes(devices));
    forall r | r in rs
      ensures GoodRates(r) && r in gs
    {
      assert r in multiset(rs);
    }
    forall w, h, f
      ensures HasRate(rs, w, h, f) <==> HasRate(gs, w, h, f)
    {
      if HasRate(rs, w, h, f) {
        var i :| 0 <= i < |rs| && rs[i].w == w && rs[i].h == h && f in rs[i].freqs;
        assert rs[i] in multiset(gs);
      }
      if HasRate(gs, w, h, f) {
        var i :| 0 <= i < |gs| && gs[i].w == w && gs[i].h == h && f in gs[i].freqs;
        assert gs[i] in multiset(rs);
      }
    }
  }

  /** Once the device loop has stopped, later devices change nothing. */
  lemma {:induction false} GatherStopped(devices: seq<Device>, k: nat)
    requires k <= |devices| && Gather(devices[..k]).stopped
    ensures Gather(devices) == Gather(devices[..k]).(stopped := true)
    decreases |devices| - k
  {
    if k < |devices| {
      assert devices[..k + 1][..k] == devices[..k];
      GatherStopped(devices, k + 1);
    } else {
      assert devices[..k] == devices;
    }
  }

  /* ---------- xrandr output (unix) ---------- */

  /**
   * A line of `xrandr` output as the regular expressions of the source
   * classify it, tried in this order: the screen line with the current size,
   * a line naming the primary output, a mode line (its size and its rates,
   * rounded, a token that is not a rate giving 0), or anything else.
   */
  datatype XLine = CurrentLine(w: u32, h: u32) | PrimaryLine | ModeLine(w: u32, h: u32, rates: seq<u32>) | OtherLine

  /** The rates in order of first occurrence, each once, zeros dropped. */
  function UniqueFreqs(fs: seq<u32>): seq<u32>
    decreases |fs|
  {
    if fs == [] then []
    else
      var u := UniqueFreqs(fs[..|fs| - 1]);
      var f := fs[|fs| - 1];
      if f == 0 || f in u then u else u + [f]
  }

  /** The de-duplication loop of a mode line. */
  method DedupRates(rates: seq<u32>) returns (uniqueFreqs: seq<u32>)
    ensures uniqueFreqs == UniqueFreqs(rates)
  {
    uniqueFreqs := [];
    var i := 0;
    while i < |rates|
      invariant 0 <= i <= |rates|
      invariant uniqueFreqs == UniqueFreqs(rates[..i])
    {
      assert rates[..i + 1][..i] == rates[..i];
      var freq := rates[i];
      if freq != 0 && freq !in uniqueFreqs {
        uniqueFreqs := uniqueFreqs + [freq];
      }
      i := i + 1;
    }
    assert rates[..i] == rates;
  }

  /** A mode is kept when it is at least 640x480 and has the ratio of the current size; without a current size nothing is. */
  predicate Keep(current: Option<Resolution>, w: u32, h: u32) {
    w >= 640 && h >= 480 && current.Some? && SameRatio(w, h, current.value.w, current.value.h)
  }

  /** The loop's state: inside a primary output's block, the current resolution, the kept modes. */
  datatype XState = XState(inPrimary: bool, current: Option<Resolution>, resolutions: seq<Resolution>)

  function XStep(st: XState, line: XLine): XState {
    match line
    case CurrentLine(w, h) => st.(current := Some(Resolution(w, h, [0])))
    case PrimaryLine => st.(inPrimary := true)
    case ModeLine(w, h, rates) =>
      if st.inPrimary && Keep(st.current, w, h) then st.(resolutions := st.resolutions + [Resolution(w, h, UniqueFreqs(rates))])
      else st
    case OtherLine => st.(inPrimary := false)
  }

  /** The state after the lines, from outside any block with nothing found. */
  function XRun(lines: seq<XLine>): XState
    decreases |lines|
  {
    if lines == [] then XState(false, None, []) else XStep(XRun(lines[..|lines| - 1]), lines[|lines| - 1])
  }

  /** The line loop of `list_screens_resolutions_xorg`, then the sort. */
  method ParseXrandr(lines: seq<XLine>) returns (screen: Screen)
    ensures screen.currentResolution == XRun(lines).current
    ensures screen.resolutions == Sort(LeResolution, XRun(lines).resolutions)
  {
    var resolutions: seq<Resolution> := [];
    var currentResolution: Option<Resolution> := None;
    var inPrimary := false;
    var i := 0;
    while i < |lines|
      invariant 0 <= i <= |lines|
      invariant XRun(lines[..i]) == XState(inPrimary, currentResolution, resolutions)
    {
      assert lines[..i + 1][..i] == lines[..i];
      match lines[i] {
        case CurrentLine(w, h) =>
          currentResolution := Some(Resolution(w, h, [0]));
        case PrimaryLine =>
          inPrimary := true;
        case ModeLine(w, h, rates) =>
          if inPrimary {
            var uniqueFreqs := DedupRates(rates);
            if w >= 640 && h >= 480 && currentResolution.Some? && SameRatio(w, h, currentResolution.value.w, currentResolution.value.h) {
              resolutions := resolutions + [Resolution(w, h, uniqueFreqs)];
            }
          }
        case OtherLine =>
          inPrimary := false;
      }
      i := i + 1;
    }
    assert lines[..i] == lines;
    resolutions := Sort(LeResolution, resolutions);
    screen := Screen(resolutions, currentResolution);
  }

  /** `list_screens_resolutions` on unix in core: the parsed `xrandr` output, or an empty screen when `xrandr` could not be run or read. */
  method ListScreensResolutionsUnix(output: Option<seq<XLine>>) returns (screen: Screen)
    ensures output.None? ==> screen == Screen([], None)
    ensures output.Some? ==>
      screen.currentResolution == XRun(output.value).current && screen.resolutions == Sort(LeResolution, XRun(output.value).resolutions)
  {
    match output {
      case None => screen := Screen([], None);
      case Some(lines) => screen := ParseXrandr(lines);
    }
  }

  /** `list_screens_resolutions` on unix in the settings program: nothing is enumerated. */
  function ListScreensResolutionsUnixGui(): (screen: Screen)
    ensures screen.resolutions == [] && screen.currentResolution.None?
    ensures forall w, h :: Position(screen, w, h).None?
  {
    Screen([], None)
  }

  /* ---------- What the xrandr parse yields ---------- */

  /** The rates of a mode line: no zero, none twice, and exactly its non-zero rates. */
  lemma {:induction false} UniqueFreqsSpec(fs: seq<u32>)
    ensures 0 !in UniqueFreqs(fs)
    ensures NoDuplicates(UniqueFreqs(fs))
    ensures forall f :: f in UniqueFreqs(fs) <==> f in fs && f != 0
    decreases |fs|
  {
    if fs != [] {
      var init := fs[..|fs| - 1];
      var u := UniqueFreqs(init);
      var f := fs[|fs| - 1];
      UniqueFreqsSpec(init);
      assert fs == init + [f];
      if !(f == 0 || f in u) {
        assert multiset(u + [f]) == multiset(u) + multiset{f};
        forall g | g in u + [f]
          ensures multiset(u + [f])[g] <= 1
        {
          if g != f {
            assert g in u;
          }
        }
      }
    }
  }

  /** De-duplication leaves rates that are already distinct and non-zero as they are: applying it twice is applying it once. */
  lemma {:induction false} UniqueFreqsOfUnique(fs: seq<u32>)
    requires NoDuplicates(fs) && 0 !in fs
    ensures UniqueFreqs(fs) == fs
    decreases |fs|
  {
    if fs != [] {
      var init := fs[..|fs| - 1];
      var f := fs[|fs| - 1];
      assert fs == init + [f];
      assert multiset(fs) == multiset(init) + multiset{f};
      assert NoDuplicates(init) by {
        forall g | g in init
          ensures multiset(init)[g] <= 1
        {
          assert g in fs;
        }
      }
      UniqueFreqsOfUnique(init);
      assert f in fs && multiset(fs)[f] == multiset(init)[f] + 1;
      assert multiset(init)[f] == 0;
    }
  }

  /** Every kept mode is at least 640x480 with distinct non-zero rates, and a mode is only kept once a current size is known. */
  lemma {:induction false} XrandrKept(lines: seq<XLine>)
    ensures forall r | r in XRun(lines).resolutions :: r.w >= 640 && r.h >= 480 && 0 !in r.freqs && NoDuplicates(r.freqs)
    ensures |XRun(lines).resolutions| > 0 ==> XRun(lines).current.Some?
    decreases |lines|
  {
    if lines != [] {
      var init := lines[..|lines| - 1];
      XrandrKept(init);
      var line := lines[|lines| - 1];
      if line.ModeLine? {
        UniqueFreqsSpec(line.rates);
      }
    }
  }

  /** When every screen line reports the same current size, every kept mode has that size's ratio. */
  lemma {:induction false} XrandrRatio(lines: seq<XLine>, cw: u32, ch: u32)
    requires forall i | 0 <= i < |lines| && lines[i].CurrentLine? :: lines[i].w == cw && lines[i].h == ch
    ensures XRun(lines).current.Some? ==> XRun(lines).current.value.w == cw && XRun(lines).current.value.h == ch
    ensures forall r | r in XRun(lines).resolutions :: SameRatio(r.w, r.h, cw, ch)
    decreases |lines|
  {
    if lines != [] {
      var init := lines[..|lines| - 1];
      assert forall i | 0 <= i < |init| :: init[i] == lines[i];
      XrandrRatio(init, cw, ch);
    }
  }

  /** The modes of a block kept under `current`, in order, with their de-duplicated rates. */
  function KeptModes(current: Option<Resolution>, modes: seq<XLine>): seq<Resolution>
    requires forall m | m in modes :: m.ModeLine?
    decreases |modes|
  {
    if modes == [] then []
    else
      var m := modes[|modes| - 1];
      KeptModes(current, modes[..|modes| - 1]) + (if Keep(current, m.w, m.h) then [Resolution(m.w, m.h, UniqueFreqs(m.rates))] else [])
  }

  /** A primary line followed by mode lines adds the kept ones among them, in order, and stays in the block. */
  lemma {:induction false} XrandrPrimaryBlock(pre: seq<XLine>, modes: seq<XLine>)
    requires forall m | m in modes :: m.ModeLine?
    ensures XRun(pre + [PrimaryLine] + modes)
      == XState(true, XRun(pre).current, XRun(pre).resolutions + KeptModes(XRun(pre).current, modes))
    decreases |modes|
  {
    var all := pre + [PrimaryLine] + modes;
    if modes == [] {
      assert all[..|all| - 1] == pre;
    } else {
      var init := modes[..|modes| - 1];
      assert all[..|all| - 1] == pre + [PrimaryLine] + init;
      XrandrPrimaryBlock(pre, init);
    }
  }

  /** Outside a primary block mode lines add nothing, until a primary line opens one. */
  lemma {:induction false} XrandrOutsideBlock(pre: seq<XLine>, modes: seq<XLine>)
    requires !XRun(pre).inPrimary
    requires forall m | m in modes :: m.ModeLine?
    ensures XRun(pre + modes) == XRun(pre)
    decreases |modes|
  {
    if modes != [] {
      var init := modes[..|modes| - 1];
      assert (pre + modes)[..|pre + modes| - 1] == pre + init;
      assert modes[|modes| - 1] in modes;
      XrandrOutsideBlock(pre, init);
    } else {
      assert pre + modes == pre;
    }
  }

  /**
   * The unix list: ordered by the derived order, every resolution at least
   * 640x480 with distinct non-zero rates, and empty when no screen line
   * reported a current size.
   */
  lemma XrandrResolutions(lines: seq<XLine>)
    ensures var rs := Sort(LeResolution, XRun(lines).resolutions);
      && Sorted(LeResolution, rs)
      && multiset(rs) == multiset(XRun(lines).resolutions)
      && (forall r | r in rs :: r.w >= 640 && r.h >= 480 && 0 !in r.freqs && NoDuplicates(r.freqs))
      && (XRun(lines).current.None? ==> rs == [])
  {
    var gs := XRun(lines).resolutions;
    var rs := Sort(LeResolution, gs);
    LeResolutionTotalOrder();
    SortSpec(LeResolution, gs);
    XrandrKept(lines);
    forall r | r in rs
      ensures r in gs
    {
      assert r in multiset(rs);
    }
  }
}
