/**
 * The game's key-binding file `ff8input.cfg` (core/src/game/input_config.rs):
 * the default bindings per edition, the line scanner of `from_file`, and the
 * fixed-format writer.
 *
 * A configuration is two rows of 14 key codes, keyboard and joystick. Every
 * line of the file that carries a slot number 1..14 followed by a code
 * 0..255 is a binding; the first 14 bindings fill the keyboard row and the
 * next ones the joystick row.
 *
 * `from_file` is modelled twice: `FromFileAsWritten` keeps the reader's line
 * buffer across reads and fails once 28 bindings are seen, as the code does;
 * `FromFile` scans each line on its own and fails when fewer than 28
 * bindings are seen, which is what the error message says is required.
 */
module InputConfigFile {
  import opened Wrappers
  import opened Ints
  import opened Decimal
  import opened Paths
  import Installation

  type Row = s: seq<u8> | |s| == 14 witness [0, 0, 0, 0, 0, 0, 0, 0, 0, 0, 0, 0, 0, 0]

  datatype InputConfig = InputConfig(keyboard: Row, joystick: Row)

  datatype IoError = NotFound | InvalidData

  const Zeros: Row := [0, 0, 0, 0, 0, 0, 0, 0, 0, 0, 0, 0, 0, 0]
  const DefaultKeyboard: Row := [32, 45, 30, 17, 16, 18, 44, 46, 31, 33, 200, 208, 203, 205]
  const StandardJoystick: Row := [226, 225, 224, 227, 228, 229, 230, 231, 232, 233, 252, 253, 254, 255]
  const OtherJoystick: Row := [225, 224, 226, 227, 228, 229, 232, 233, 230, 231, 252, 253, 254, 255]

  /** `InputConfig::new`: the default bindings; only the joystick row depends on the edition. */
  function New(edition: Installation.Edition): InputConfig {
    InputConfig(DefaultKeyboard, if edition.Standard? then StandardJoystick else OtherJoystick)
  }

  /** Every edition gets the same keyboard row; the Standard joystick row is used by Standard alone. */
  lemma NewByEdition(e1: Installation.Edition, e2: Installation.Edition)
    ensures New(e1).keyboard == New(e2).keyboard
    ensures New(e1).joystick == StandardJoystick <==> e1.Standard?
    ensures New(e1).joystick == New(e2).joystick <==> (e1.Standard? <==> e2.Standard?)
  {
    assert StandardJoystick[0] != OtherJoystick[0];
  }

  /* ---------- Lines as `read_line` returns them ---------- */

  /** Length of the first line: up to and including the first '\n', or all of `s`. */
  function LineLen(s: string): (n: nat)
    requires |s| > 0
    ensures 0 < n <= |s|
    ensures forall j :: 0 <= j < n - 1 ==> s[j] != '\n'
    ensures n < |s| ==> s[n - 1] == '\n'
    ensures n == |s| && s[n - 1] != '\n' ==> forall j :: 0 <= j < |s| ==> s[j] != '\n'
  {
    if s[0] == '\n' || |s| == 1 then 1 else 1 + LineLen(s[1..])
  }

  /** The successive results of `read_line` on `text` (the last one may lack its '\n'). */
  function Lines(text: string): seq<string>
    decreases |text|
  {
    if text == [] then [] else [text[..LineLen(text)]] + Lines(text[LineLen(text)..])
  }

  function Concat(lines: seq<string>): string {
    if lines == [] then [] else lines[0] + Concat(lines[1..])
  }

  /** A complete line: one '\n', at its end. */
  predicate IsLine(l: string) {
    |l| > 0 && l[|l| - 1] == '\n' && forall j :: 0 <= j < |l| - 1 ==> l[j] != '\n'
  }

  /** Reading line by line loses and adds nothing. */
  lemma {:induction false} LinesConcat(text: string)
    ensures Concat(Lines(text)) == text
    decreases |text|
  {
    if text != [] {
      var n := LineLen(text);
      LinesConcat(text[n..]);
      assert text[..n] + text[n..] == text;
    }
  }

  /** Every line read is non-empty, and every one but the last is complete. */
  lemma {:induction false} LinesComplete(text: string)
    ensures forall k :: 0 <= k < |Lines(text)| ==> Lines(text)[k] != []
    ensures forall k :: 0 <= k < |Lines(text)| - 1 ==> IsLine(Lines(text)[k])
    decreases |text|
  {
    if text != [] {
      var n := LineLen(text);
      var ls := Lines(text);
      LinesComplete(text[n..]);
      assert ls[1..] == Lines(text[n..]);
      assert ls[0] == text[..n];
      assert forall k :: 1 <= k < |ls| ==> ls[k] == Lines(text[n..])[k - 1];
    }
  }

  /** A complete line in front of more text is read on its own. */
  lemma LinesPrepend(l: string, rest: string)
    requires IsLine(l)
    ensures Lines(l + rest) == [l] + Lines(rest)
  {
    var s := l + rest;
    var n := LineLen(s);
    assert s[|l| - 1] == '\n';
    assert forall j :: 0 <= j < |l| ==> s[j] == l[j];
    assert n == |l|;
    assert s[..n] == l;
    assert s[n..] == rest;
  }

  /** Complete lines written one after the other are read back one by one. */
  lemma {:induction false} LinesOfConcat(lines: seq<string>)
    requires forall k :: 0 <= k < |lines| ==> IsLine(lines[k])
    ensures Lines(Concat(lines)) == lines
  {
    if lines != [] {
      LinesPrepend(lines[0], Concat(lines[1..]));
      LinesOfConcat(lines[1..]);
    }
  }

  /* ---------- Scanning one buffer for a binding ---------- */

  /** A slot number of a row, 1..14. */
  type Slot = x: int | 1 <= x <= 14 witness 1

  datatype Binding = Binding(slot: Slot, code: u8)

  datatype Scan = Skip | Entry(binding: Binding)

  /** The first digit at or after `i`, or `|s|`. */
  function SkipNonDigits(s: string, i: nat): (r: nat)
    requires i <= |s|
    ensures i <= r <= |s|
    decreases |s| - i
  {
    if i == |s| || IsDigit(s[i]) then i else SkipNonDigits(s, i + 1)
  }

  /** The first non-digit at or after `i`, or `|s|`. */
  function RunEnd(s: string, i: nat): (r: nat)
    requires i <= |s|
    ensures i <= r <= |s|
    decreases |s| - i
  {
    if i == |s| || !IsDigit(s[i]) then i else RunEnd(s, i + 1)
  }

  /** `SkipNonDigits` passes only non-digits and stops at a digit or at the end. */
  lemma {:induction false} SkipNonDigitsSpec(s: string, i: nat)
    requires i <= |s|
    ensures forall j :: i <= j < SkipNonDigits(s, i) ==> !IsDigit(s[j])
    ensures SkipNonDigits(s, i) < |s| ==> IsDigit(s[SkipNonDigits(s, i)])
    decreases |s| - i
  {
    if i < |s| && !IsDigit(s[i]) {
      SkipNonDigitsSpec(s, i + 1);
    }
  }

  /** `RunEnd` passes only digits and stops at a non-digit or at the end. */
  lemma {:induction false} RunEndSpec(s: string, i: nat)
    requires i <= |s|
    ensures forall j :: i <= j < RunEnd(s, i) ==> IsDigit(s[j])
    ensures RunEnd(s, i) < |s| ==> !IsDigit(s[RunEnd(s, i)])
    decreases |s| - i
  {
    if i < |s| && IsDigit(s[i]) {
      RunEndSpec(s, i + 1);
    }
  }

  /** `SkipNonDigits` is the only index with its two properties. */
  lemma SkipNonDigitsIs(s: string, i: nat, r: nat)
    requires i <= r <= |s|
    requires forall j :: i <= j < r ==> !IsDigit(s[j])
    requires r < |s| ==> IsDigit(s[r])
    ensures SkipNonDigits(s, i) == r
  {
    SkipNonDigitsSpec(s, i);
  }

  /** `RunEnd` is the only index with its two properties. */
  lemma RunEndIs(s: string, i: nat, r: nat)
    requires i <= r <= |s|
    requires forall j :: i <= j < r ==> IsDigit(s[j])
    requires r < |s| ==> !IsDigit(s[r])
    ensures RunEnd(s, i) == r
  {
    RunEndSpec(s, i);
  }

  /** `str::parse::<u16>().unwrap_or_default()` on a run of digits: 0 when it overflows. */
  function ParseU16(run: string): u16
    requires AllDigits(run)
  {
    if DigitsValue(run) < 0x1_0000 then DigitsValue(run) else 0
  }

  /**
   * What one scan of the buffer yields. The first digit run must be followed
   * by a non-digit and read as 1..14; the second run may end the buffer and
   * must read as at most 255. Anything else skips the line.
   */
  function ScanSpec(line: string): Scan {
    var a := SkipNonDigits(line, 0);
    if a == |line| then Skip
    else
      var b := RunEnd(line, a);
      if b == |line| then Skip
      else
        RunEndSpec(line, a);
        var first := ParseU16(line[a..b]);
        if first < 1 || first > 14 then Skip
        else
          var c := SkipNonDigits(line, b);
          if c == |line| then Skip
          else
            var d := RunEnd(line, c);
            RunEndSpec(line, c);
            var second := ParseU16(line[c..d]);
            if second > 255 then Skip else Entry(Binding(first, second))
  }

  /**
   * The character loop of `from_file` over one buffer: `numberStart` is -1
   * outside a number, the start of the current digit run inside one, and -2
   * once the second number is read.
   */
  method ScanLine(line: string) returns (r: Scan)
    ensures r == ScanSpec(line)
  {
    ghost var a := SkipNonDigits(line, 0);
    ghost var b := if a < |line| then RunEnd(line, a) else |line|;
    ghost var c := if b < |line| then SkipNonDigits(line, b) else |line|;
    ghost var d := if c < |line| then RunEnd(line, c) else |line|;
    SkipNonDigitsSpec(line, 0);
    RunEndSpec(line, a);
    SkipNonDigitsSpec(line, b);
    RunEndSpec(line, c);
    var numberStart := -1;
    var first := 0;
    var second := 0;
    var i := 0;
    while i < |line|
      invariant 0 <= i <= |line|
      invariant first == 0 && numberStart == -1 ==> i <= a
      invariant first == 0 && numberStart != -1 ==> numberStart == a && a < i <= b
      invariant first != 0 ==> a < b < |line| && first == ParseU16(line[a..b]) && 1 <= first <= 14
      invariant first != 0 && numberStart == -1 ==> b < i <= c
      invariant first != 0 && numberStart != -1 ==> numberStart == c && c < i <= d
      invariant numberStart >= -1
    {
      var ch := line[i];
      if '0' <= ch <= '9' {
        if numberStart < 0 {
          assert first == 0 ==> i == a;
          assert first != 0 ==> i == c;
          numberStart := i;
        }
      } else if numberStart >= 0 {
        assert first == 0 ==> i == b;
        assert first != 0 ==> i == d;
        var number := ParseU16(line[numberStart..i]);
        if first == 0 {
          if number < 1 || number > 14 {
            return Skip;
          }
          first := number;
          numberStart := -1;
        } else {
          if number > 255 {
            return Skip;
          }
          second := number;
          numberStart := -2;
          break;
        }
      }
      i := i + 1;
    }
    if first == 0 {
      return Skip;
    }
    if numberStart >= 0 {
      assert line[numberStart..] == line[c..d];
      var number := ParseU16(line[numberStart..]);
      if number > 255 {
        return Skip;
      }
      second := number;
    } else if numberStart == -1 {
      return Skip;
    }
    return Entry(Binding(first, second));
  }

  /* ---------- Filling the rows ---------- */

  /** The code last bound to slot `j + 1`, or 0 when none is. */
  function LastWrite(entries: seq<Binding>, j: nat): u8 {
    if entries == [] then 0
    else if entries[|entries| - 1].slot == j + 1 then entries[|entries| - 1].code
    else LastWrite(entries[..|entries| - 1], j)
  }

  /** How many of the bindings go to the keyboard row. */
  function KeyboardCount(entries: seq<Binding>): nat {
    if |entries| < 14 then |entries| else 14
  }

  /** The configuration the bindings produce: the first 14 go to the keyboard row, the rest to the joystick row. */
  function Fill(entries: seq<Binding>): InputConfig {
    InputConfig(seq(14, j requires 0 <= j < 14 => LastWrite(entries[..KeyboardCount(entries)], j)),
                seq(14, j requires 0 <= j < 14 => LastWrite(entries[KeyboardCount(entries)..], j)))
  }

  /** No binding leaves every slot 0. */
  lemma FillEmpty()
    ensures Fill([]) == InputConfig(Zeros, Zeros)
  {
    var none: seq<Binding> := [];
    assert none[..KeyboardCount(none)] == none[KeyboardCount(none)..] == [];
    forall j | 0 <= j < 14
      ensures Fill(none).keyboard[j] == Zeros[j] && Fill(none).joystick[j] == Zeros[j]
    {
    }
  }

  /** The `count`-th binding written in place: keyboard row for the first 14, joystick row after. */
  function Bind(cfg: InputConfig, count: nat, e: Binding): InputConfig {
    if count < 14 then cfg.(keyboard := cfg.keyboard[e.slot - 1 := e.code])
    else cfg.(joystick := cfg.joystick[e.slot - 1 := e.code])
  }

  /** One more binding overwrites one slot of the row it falls in. */
  lemma FillSnoc(entries: seq<Binding>, e: Binding)
    ensures Fill(entries + [e]) == Bind(Fill(entries), |entries|, e)
  {
    var s := entries + [e];
    if |entries| < 14 {
      var p := s[..KeyboardCount(s)];
      assert p == entries + [e];
      assert p[..|p| - 1] == entries[..KeyboardCount(entries)];
      assert s[KeyboardCount(s)..] == entries[KeyboardCount(entries)..];
      forall j | 0 <= j < 14
        ensures Fill(s).keyboard[j] == Fill(entries).keyboard[e.slot - 1 := e.code][j]
      {
      }
    } else {
      assert s[..KeyboardCount(s)] == entries[..KeyboardCount(entries)];
      var q := s[KeyboardCount(s)..];
      assert q == entries[KeyboardCount(entries)..] + [e];
      assert q[..|q| - 1] == entries[KeyboardCount(entries)..];
      forall j | 0 <= j < 14
        ensures Fill(s).joystick[j] == Fill(entries).joystick[e.slot - 1 := e.code][j]
      {
      }
    }
  }

  /** The configuration after writing the bindings one by one, in place, into zeroed rows. */
  function WrittenInPlace(entries: seq<Binding>): InputConfig {
    if entries == [] then InputConfig(Zeros, Zeros)
    else Bind(WrittenInPlace(entries[..|entries| - 1]), |entries| - 1, entries[|entries| - 1])
  }

  /** Writing in place leaves each slot with the code last bound to it, 0 for none. */
  lemma {:induction false} WrittenInPlaceIsFill(entries: seq<Binding>)
    ensures WrittenInPlace(entries) == Fill(entries)
  {
    if entries == [] {
      FillEmpty();
    } else {
      var init := entries[..|entries| - 1];
      WrittenInPlaceIsFill(init);
      FillSnoc(init, entries[|entries| - 1]);
      assert init + [entries[|entries| - 1]] == entries;
    }
  }

  /* ---------- from_file ---------- */

  function Emit(s: Scan): seq<Binding> {
    if s.Entry? then [s.binding] else []
  }

  /** The bindings that `scan` finds when each scan covers everything read so far into `buffer`. */
  function CollectGrowing(scan: string -> Scan, lines: seq<string>, buffer: string): seq<Binding> {
    if lines == [] then []
    else Emit(scan(buffer + lines[0])) + CollectGrowing(scan, lines[1..], buffer + lines[0])
  }

  /** The bindings `from_file` sees as written, where each scan covers everything read so far. */
  function AcceptedAsWritten(lines: seq<string>, buffer: string): seq<Binding> {
    CollectGrowing(ScanSpec, lines, buffer)
  }

  /** The bindings that `scan` finds in the lines, one line at a time. */
  function Collect(scan: string -> Scan, lines: seq<string>): seq<Binding> {
    if lines == [] then [] else Emit(scan(lines[0])) + Collect(scan, lines[1..])
  }

  /** The bindings seen when each line is scanned on its own. */
  function Accepted(lines: seq<string>): seq<Binding> {
    Collect(ScanSpec, lines)
  }

  /** The bindings of the lines from `k` on: those of line `k`'s scan, then those of the lines after it. */
  lemma CollectGrowingUnfold(scan: string -> Scan, lines: seq<string>, k: nat, buffer: string)
    requires k < |lines|
    ensures CollectGrowing(scan, lines[k..], buffer)
         == Emit(scan(buffer + lines[k])) + CollectGrowing(scan, lines[k + 1..], buffer + lines[k])
  {
    assert lines[k..][1..] == lines[k + 1..];
  }

  lemma CollectUnfold(scan: string -> Scan, lines: seq<string>, k: nat)
    requires k < |lines|
    ensures Collect(scan, lines[k..]) == Emit(scan(lines[k])) + Collect(scan, lines[k + 1..])
  {
    assert lines[k..][1..] == lines[k + 1..];
  }

  lemma Regroup(seen: seq<Binding>, e: seq<Binding>, rest: seq<Binding>, all: seq<Binding>)
    requires seen + (e + rest) == all
    ensures (seen + e) + rest == all
  {
    assert seen + (e + rest) == (seen + e) + rest;
  }

  /** One more read: the bindings seen so far grow by what the scan of the longer buffer yields. */
  lemma AcceptedAsWrittenStep(lines: seq<string>, k: nat, buffer: string, seen: seq<Binding>)
    requires k < |lines|
    requires seen + AcceptedAsWritten(lines[k..], buffer) == AcceptedAsWritten(lines, "")
    ensures (seen + Emit(ScanSpec(buffer + lines[k]))) + AcceptedAsWritten(lines[k + 1..], buffer + lines[k])
         == AcceptedAsWritten(lines, "")
  {
    CollectGrowingUnfold(ScanSpec, lines, k, buffer);
    Regroup(seen, Emit(ScanSpec(buffer + lines[k])), AcceptedAsWritten(lines[k + 1..], buffer + lines[k]),
      AcceptedAsWritten(lines, ""));
  }

  /** One more read: the bindings seen so far grow by what the scan of the new line yields. */
  lemma AcceptedStep(lines: seq<string>, k: nat, seen: seq<Binding>)
    requires k < |lines|
    requires seen + Accepted(lines[k..]) == Accepted(lines)
    ensures (seen + Emit(ScanSpec(lines[k]))) + Accepted(lines[k + 1..]) == Accepted(lines)
  {
    CollectUnfold(ScanSpec, lines, k);
    Regroup(seen, Emit(ScanSpec(lines[k])), Accepted(lines[k + 1..]), Accepted(lines));
  }

  /** The loop of `from_file` over the lines read, as written: 28 bindings are an error. */
  function ParseAsWritten(lines: seq<string>): Result<InputConfig, IoError> {
    var seen := AcceptedAsWritten(lines, "");
    if |seen| >= 28 then Err(InvalidData) else Ok(Fill(seen))
  }

  /** The loop as its error message describes it: the first 28 bindings, and fewer is an error. */
  function Parse(lines: seq<string>): Result<InputConfig, IoError> {
    var seen := Accepted(lines);
    if |seen| < 28 then Err(InvalidData) else Ok(Fill(seen[..28]))
  }

  /** How the as-written loop ends: at the 28th binding, or at the end of the file. */
  lemma AsWrittenOutcome(lines: seq<string>, seen: seq<Binding>, rest: seq<Binding>)
    requires seen + rest == AcceptedAsWritten(lines, "")
    requires |seen| <= 28 && (|seen| == 28 || rest == [])
    ensures ParseAsWritten(lines) == if |seen| >= 28 then Err(InvalidData) else Ok(WrittenInPlace(seen))
  {
    WrittenInPlaceIsFill(seen);
    if |seen| < 28 {
      assert seen + rest == seen;
    }
  }

  /** How the corrected loop ends: at the 28th binding, or at the end of the file. */
  lemma Outcome(lines: seq<string>, seen: seq<Binding>, rest: seq<Binding>)
    requires seen + rest == Accepted(lines)
    requires |seen| <= 28 && (|seen| == 28 || rest == [])
    ensures Parse(lines) == if |seen| < 28 then Err(InvalidData) else Ok(WrittenInPlace(seen))
  {
    WrittenInPlaceIsFill(seen);
    if |seen| == 28 {
      assert Accepted(lines)[..28] == seen;
    } else {
      assert seen + rest == seen;
    }
  }

  function FromTextAsWritten(text: string): Result<InputConfig, IoError> {
    ParseAsWritten(Lines(text))
  }

  function FromText(text: string): Result<InputConfig, IoError> {
    Parse(Lines(text))
  }

  /** What reading the file yields before any line is looked at. */
  function Opened(fs: FileSystem, path: Path): Result<string, IoError> {
    if path !in fs.files then Err(NotFound)
    else match fs.files[path].text
      case None => Err(InvalidData)
      case Some(text) => Ok(text)
  }

  /**
   * `InputConfig::from_file`, as written: `read_line` appends to a buffer
   * that is never cleared, and the loop fails once it has counted 28 bindings.
   * A file that is not UTF-8 fails with `InvalidData` either at the bad line
   * or at the 28th binding.
   */
  method FromFileAsWritten(fs: FileSystem, path: Path) returns (r: Result<InputConfig, IoError>)
    ensures Opened(fs, path).Err? ==> r == Err(Opened(fs, path).error)
    ensures Opened(fs, path).Ok? ==> r == FromTextAsWritten(Opened(fs, path).value)
  {
    var contents := Opened(fs, path);
    if contents.Err? {
      return Err(contents.error);
    }
    r := ReadAsWritten(Lines(contents.value));
  }

  /** The reading loop of `from_file`, as written, over the successive `read_line` results. */
  method ReadAsWritten(lines: seq<string>) returns (r: Result<InputConfig, IoError>)
    ensures r == ParseAsWritten(lines)
  {
    var k := 0;
    var line := "";
    var current := 0;
    var ret := InputConfig(Zeros, Zeros);
    ghost var seen: seq<Binding> := [];
    while current < 28
      invariant 0 <= k <= |lines|
      invariant seen + AcceptedAsWritten(lines[k..], line) == AcceptedAsWritten(lines, "")
      invariant current == |seen| <= 28
      invariant ret == WrittenInPlace(seen)
      decreases |lines| - k
    {
      if k == |lines| {
        break;
      }
      var next := line + lines[k];
      var s := ScanLine(next);
      AcceptedAsWrittenStep(lines, k, line, seen);
      line := next;
      k := k + 1;
      if s.Skip? {
        assert seen + Emit(s) == seen;
        continue;
      }
      ret := Bind(ret, current, s.binding);
      assert (seen + [s.binding])[..|seen|] == seen;
      seen := seen + [s.binding];
      current := current + 1;
    }
    AsWrittenOutcome(lines, seen, AcceptedAsWritten(lines[k..], line));
    if current >= 28 {
      return Err(InvalidData);
    }
    return Ok(ret);
  }

  /** `InputConfig::from_file` with each line scanned on its own and fewer than 28 bindings an error. */
  method FromFile(fs: FileSystem, path: Path) returns (r: Result<InputConfig, IoError>)
    ensures Opened(fs, path).Err? ==> r == Err(Opened(fs, path).error)
    ensures Opened(fs, path).Ok? ==> r == FromText(Opened(fs, path).value)
  {
    var contents := Opened(fs, path);
    if contents.Err? {
      return Err(contents.error);
    }
    r := Read(Lines(contents.value));
  }

  /** The reading loop with the line buffer cleared before each read. */
  method Read(lines: seq<string>) returns (r: Result<InputConfig, IoError>)
    ensures r == Parse(lines)
  {
    var k := 0;
    var current := 0;
    var ret := InputConfig(Zeros, Zeros);
    ghost var seen: seq<Binding> := [];
    while current < 28
      invariant 0 <= k <= |lines|
      invariant seen + Accepted(lines[k..]) == Accepted(lines)
      invariant current == |seen| <= 28
      invariant ret == WrittenInPlace(seen)
      decreases |lines| - k
    {
      if k == |lines| {
        break;
      }
      var line := lines[k];
      var s := ScanLine(line);
      AcceptedStep(lines, k, seen);
      k := k + 1;
      if s.Skip? {
        assert seen + Emit(s) == seen;
        continue;
      }
      ret := Bind(ret, current, s.binding);
      assert (seen + [s.binding])[..|seen|] == seen;
      seen := seen + [s.binding];
      current := current + 1;
    }
    Outcome(lines, seen, Accepted(lines[k..]));
    if current < 28 {
      return Err(InvalidData);
    }
    return Ok(ret);
  }

  /* ---------- Display ---------- */

  /** The text between "N. " and the code on row N, padding included. */
  const Labels: seq<string> := [
    "\"Select\"   ", "\"Exit\"     ", "\"Misc\"     ", "\"Menu\"     ", "\"Toggle\"   ",
    "\"Trigger\"  ", "\"RotLt\"    ", "\"RotRt\"    ", "\"Start\"    ", "\"Select\"  ",
    "\"Up\"      ", "\"Down\"    ", "\"Left\"    ", "\"Right\"   "
  ]

  function RowLine(i: nat, code: u8): string
    requires i < 14
  {
    NatToString(i + 1) + ". " + Labels[i] + NatToString(code) + "\r\n"
  }

  function RowLines(row: Row): seq<string> {
    seq(14, i requires 0 <= i < 14 => RowLine(i, row[i]))
  }

  /** The lines `Display::fmt` writes, in order. */
  function DisplayLines(cfg: InputConfig): seq<string> {
    ["Keyboard\r\n"] + RowLines(cfg.keyboard) + ["Joystick\r\n"] + RowLines(cfg.joystick)
  }

  /** `Display::fmt`: a header line and 14 numbered lines per row, CRLF-terminated. */
  function Display(cfg: InputConfig): string {
    Concat(DisplayLines(cfg))
  }

  /* ---------- Reading back what `Display::fmt` writes ---------- */

  predicate NoDigits(s: string) {
    forall j :: 0 <= j < |s| ==> !IsDigit(s[j])
  }

  /** The row labels carry no digit and no line break. */
  lemma LabelsPlain(i: nat)
    requires i < 14
    ensures NoDigits(Labels[i]) && '\n' !in Labels[i]
  {
  }

  /** A buffer laid out as digit-free text, a digit run, digit-free text and a digit run that the end or a non-digit closes. */
  predicate Layout(line: string, a: nat, b: nat, c: nat, d: nat) {
    a < b < c < d <= |line|
    && (forall j :: 0 <= j < a ==> !IsDigit(line[j]))
    && (forall j :: a <= j < b ==> IsDigit(line[j]))
    && (forall j :: b <= j < c ==> !IsDigit(line[j]))
    && (forall j :: c <= j < d ==> IsDigit(line[j]))
    && (d < |line| ==> !IsDigit(line[d]))
  }

  /** The scan of a buffer with that layout reads its two runs. */
  lemma ScanLayout(line: string, a: nat, b: nat, c: nat, d: nat)
    requires Layout(line, a, b, c, d)
    ensures AllDigits(line[a..b]) && AllDigits(line[c..d])
    ensures ScanSpec(line) ==
      if ParseU16(line[a..b]) < 1 || ParseU16(line[a..b]) > 14 || ParseU16(line[c..d]) > 255 then Skip
      else Entry(Binding(ParseU16(line[a..b]), ParseU16(line[c..d])))
  {
    SkipNonDigitsIs(line, 0, a);
    RunEndIs(line, a, b);
    SkipNonDigitsIs(line, b, c);
    RunEndIs(line, c, d);
  }

  /** Where the parts of a line "<n1>. <tag><n2>\r\n" fall, after digit-free text. */
  lemma WrittenLayout(p: string, n1: string, tag: string, n2: string)
    requires NoDigits(p) && NoDigits(tag) && AllDigits(n1) && AllDigits(n2) && n1 != [] && n2 != []
    ensures var line := p + n1 + ". " + tag + n2 + "\r\n";
      var b := |p| + |n1|;
      var c := b + 2 + |tag|;
      Layout(line, |p|, b, c, c + |n2|) && line[|p|..b] == n1 && line[c..c + |n2|] == n2
  {
    var mid := ". " + tag;
    var line := p + n1 + ". " + tag + n2 + "\r\n";
    assert line == p + n1 + mid + n2 + "\r\n";
    var a := |p|;
    var b := a + |n1|;
    var c := b + |mid|;
    var d := c + |n2|;
    assert forall j :: a <= j < b ==> line[j] == n1[j - a];
    assert forall j :: b <= j < c ==> line[j] == mid[j - b];
    assert forall j :: c <= j < d ==> line[j] == n2[j - c];
    assert line[d] == '\r';
    assert line[a..b] == n1;
    assert line[c..d] == n2;
  }

  /** A line "<n1>. <tag><n2>\r\n" after digit-free text scans as the binding its two numbers spell. */
  lemma ScanWritten(p: string, n1: string, tag: string, n2: string)
    requires NoDigits(p) && NoDigits(tag) && AllDigits(n1) && AllDigits(n2) && n1 != [] && n2 != []
    requires 1 <= DigitsValue(n1) <= 14 && DigitsValue(n2) <= 255
    ensures ScanSpec(p + n1 + ". " + tag + n2 + "\r\n") == Entry(Binding(DigitsValue(n1), DigitsValue(n2)))
  {
    var line := p + n1 + ". " + tag + n2 + "\r\n";
    var b := |p| + |n1|;
    var c := b + 2 + |tag|;
    WrittenLayout(p, n1, tag, n2);
    ScanLayout(line, |p|, b, c, c + |n2|);
  }

  lemma RowLineParts(p: string, i: nat, v: u8)
    requires i < 14
    ensures p + RowLine(i, v) == p + NatToString(i + 1) + ". " + Labels[i] + NatToString(v as nat) + "\r\n"
  {
  }

  /** A written row line, after any digit-free text, scans as the binding of its slot. */
  lemma ScanRowLine(p: string, i: nat, v: u8)
    requires i < 14 && NoDigits(p)
    ensures ScanSpec(p + RowLine(i, v)) == Entry(Binding(i + 1, v))
  {
    LabelsPlain(i);
    DigitsValueOfNatToString(i + 1);
    DigitsValueOfNatToString(v as nat);
    ScanWritten(p, NatToString(i + 1), Labels[i], NatToString(v as nat));
    RowLineParts(p, i, v);
  }

  /** Every written row line is one complete line. */
  lemma RowLineIsLine(i: nat, v: u8)
    requires i < 14
    ensures IsLine(RowLine(i, v))
  {
    LabelsPlain(i);
    var n1 := NatToString(i + 1);
    var n2 := NatToString(v as nat);
    var l := RowLine(i, v);
    var body := n1 + ". " + Labels[i] + n2;
    assert l == body + "\r\n";
    assert forall j :: 0 <= j < |body| ==> body[j] != '\n';
  }

  /** Every line `Display::fmt` writes is one complete line. */
  lemma DisplayLinesAreLines(cfg: InputConfig)
    ensures |DisplayLines(cfg)| == 30
    ensures forall k :: 0 <= k < 30 ==> IsLine(DisplayLines(cfg)[k])
  {
    var ls := DisplayLines(cfg);
    forall k | 0 <= k < 30
      ensures IsLine(ls[k])
    {
      if 1 <= k < 15 {
        RowLineIsLine(k - 1, cfg.keyboard[k - 1]);
      } else if 16 <= k {
        RowLineIsLine(k - 16, cfg.joystick[k - 16]);
      }
    }
  }

  /** Reading `Display::fmt`'s output line by line gives back the lines it wrote. */
  lemma LinesOfDisplay(cfg: InputConfig)
    ensures Lines(Display(cfg)) == DisplayLines(cfg)
  {
    DisplayLinesAreLines(cfg);
    LinesOfConcat(DisplayLines(cfg));
  }

  /** The bindings of consecutive groups of lines are those of each group, in order. */
  lemma {:induction false} CollectAppend(scan: string -> Scan, xs: seq<string>, ys: seq<string>)
    ensures Collect(scan, xs + ys) == Collect(scan, xs) + Collect(scan, ys)
  {
    if xs == [] {
      assert xs + ys == ys;
    } else {
      var zs := xs + ys;
      CollectAppend(scan, xs[1..], ys);
      assert zs[0] == xs[0] && zs[1..] == xs[1..] + ys;
      var e := Emit(scan(xs[0]));
      assert Collect(scan, zs) == e + (Collect(scan, xs[1..]) + Collect(scan, ys));
      Regroup(e, Collect(scan, xs[1..]), Collect(scan, ys), Collect(scan, zs));
    }
  }

  /** Lines that each scan as one binding yield those bindings, in order. */
  lemma {:induction false} CollectEntries(scan: string -> Scan, ls: seq<string>, bs: seq<Binding>)
    requires |ls| == |bs|
    requires forall k :: 0 <= k < |ls| ==> scan(ls[k]) == Entry(bs[k])
    ensures Collect(scan, ls) == bs
  {
    if ls != [] {
      CollectEntries(scan, ls[1..], bs[1..]);
    }
  }

  /** The bindings a written row spells: slot `i + 1` gets the row's `i`-th code. */
  function RowBindings(row: Row): seq<Binding> {
    seq(14, i requires 0 <= i < 14 => Binding(i + 1, row[i]))
  }

  /** Reading the 14 lines of a written row gives back its bindings. */
  lemma AcceptedRow(row: Row)
    ensures Accepted(RowLines(row)) == RowBindings(row)
  {
    var ls := RowLines(row);
    forall k | 0 <= k < 14
      ensures ScanSpec(ls[k]) == Entry(RowBindings(row)[k])
    {
      ScanRowLine("", k, row[k]);
      assert "" + RowLine(k, row[k]) == RowLine(k, row[k]);
    }
    CollectEntries(ScanSpec, ls, RowBindings(row));
  }

  /** The header lines carry no binding. */
  lemma HeadersSkip()
    ensures ScanSpec("Keyboard\r\n") == Skip && ScanSpec("Joystick\r\n") == Skip
  {
    SkipNonDigitsIs("Keyboard\r\n", 0, 10);
    SkipNonDigitsIs("Joystick\r\n", 0, 10);
  }

  /** The slots of a written row's first `n` bindings each keep the code last given. */
  lemma {:induction false} LastWriteRow(row: Row, n: nat, j: nat)
    requires j < n <= 14
    ensures LastWrite(RowBindings(row)[..n], j) == row[j]
  {
    var p := RowBindings(row)[..n];
    assert p[..n - 1] == RowBindings(row)[..n - 1];
    if j < n - 1 {
      LastWriteRow(row, n - 1, j);
    }
  }

  /** Filling from the bindings of two written rows gives back those rows. */
  lemma FillRows(cfg: InputConfig)
    ensures Fill(RowBindings(cfg.keyboard) + RowBindings(cfg.joystick)) == cfg
  {
    var es := RowBindings(cfg.keyboard) + RowBindings(cfg.joystick);
    assert es[..KeyboardCount(es)] == RowBindings(cfg.keyboard)[..14];
    assert es[KeyboardCount(es)..] == RowBindings(cfg.joystick)[..14];
    forall j | 0 <= j < 14
      ensures Fill(es).keyboard[j] == cfg.keyboard[j] && Fill(es).joystick[j] == cfg.joystick[j]
    {
      LastWriteRow(cfg.keyboard, 14, j);
      LastWriteRow(cfg.joystick, 14, j);
    }
  }

  /** The lines `Display::fmt` writes carry the bindings of the keyboard row, then those of the joystick row. */
  lemma AcceptedDisplay(cfg: InputConfig)
    ensures Accepted(DisplayLines(cfg)) == RowBindings(cfg.keyboard) + RowBindings(cfg.joystick)
  {
    HeadersSkip();
    AcceptedRow(cfg.keyboard);
    AcceptedRow(cfg.joystick);
    var h1 := ["Keyboard\r\n"];
    var h2 := ["Joystick\r\n"];
    CollectAppend(ScanSpec, h1, RowLines(cfg.keyboard));
    CollectAppend(ScanSpec, h1 + RowLines(cfg.keyboard), h2);
    CollectAppend(ScanSpec, h1 + RowLines(cfg.keyboard) + h2, RowLines(cfg.joystick));
  }

  /** Reading line by line what `Display::fmt` wrote, each line on its own, gives back the configuration. */
  lemma DisplayRoundTrip(cfg: InputConfig)
    ensures FromText(Display(cfg)) == Ok(cfg)
  {
    LinesOfDisplay(cfg);
    AcceptedDisplay(cfg);
    var seen := RowBindings(cfg.keyboard) + RowBindings(cfg.joystick);
    assert seen[..28] == seen;
    FillRows(cfg);
  }

  /* ---------- The reader as written ---------- */

  /**
   * Once a buffer holds a binding closed by a non-digit, reading more text
   * into it changes nothing: the scan stops before the new text.
   */
  lemma ScanExtend(s: string, t: string)
    requires ScanSpec(s).Entry? && s != [] && !IsDigit(s[|s| - 1])
    ensures ScanSpec(s + t) == ScanSpec(s)
  {
    var a := SkipNonDigits(s, 0);
    SkipNonDigitsSpec(s, 0);
    var b := RunEnd(s, a);
    RunEndSpec(s, a);
    var c := SkipNonDigits(s, b);
    SkipNonDigitsSpec(s, b);
    var d := RunEnd(s, c);
    RunEndSpec(s, c);
    assert d < |s|;
    assert Layout(s, a, b, c, d);
    var st := s + t;
    assert forall j :: 0 <= j < |s| ==> st[j] == s[j];
    assert Layout(st, a, b, c, d);
    ScanLayout(s, a, b, c, d);
    ScanLayout(st, a, b, c, d);
    assert st[a..b] == s[a..b];
    assert st[c..d] == s[c..d];
  }

  /** Once `scan` has settled on a binding for a buffer, growing the buffer yields that binding on every read. */
  lemma {:induction false} CollectGrowingRepeats(scan: string -> Scan, lines: seq<string>, s: string, t: string)
    requires scan(s).Entry? && forall u :: scan(s + u) == scan(s)
    ensures |CollectGrowing(scan, lines, s + t)| == |lines|
    ensures forall k :: 0 <= k < |lines| ==> CollectGrowing(scan, lines, s + t)[k] == scan(s).binding
  {
    if lines != [] {
      CollectGrowingRepeats(scan, lines[1..], s, t + lines[0]);
      assert s + t + lines[0] == s + (t + lines[0]);
    }
  }

  /** A first line without a binding, then a settled binding: every read from the second on yields a binding. */
  lemma CollectGrowingCount(scan: string -> Scan, lines: seq<string>)
    requires |lines| >= 2 && scan(lines[0]) == Skip
    requires scan(lines[0] + lines[1]).Entry?
    requires forall u :: scan(lines[0] + lines[1] + u) == scan(lines[0] + lines[1])
    ensures |CollectGrowing(scan, lines, "")| == |lines| - 1
  {
    assert lines[0..] == lines && "" + lines[0] == lines[0];
    CollectGrowingUnfold(scan, lines, 0, "");
    CollectGrowingUnfold(scan, lines, 1, lines[0]);
    var s := lines[0] + lines[1];
    CollectGrowingRepeats(scan, lines[2..], s, "");
    assert s + "" == s;
  }

  /** After its first binding, the as-written reader sees that same binding on every later read. */
  lemma AsWrittenRepeats(lines: seq<string>, s: string, t: string)
    requires ScanSpec(s).Entry? && s != [] && !IsDigit(s[|s| - 1])
    ensures |AcceptedAsWritten(lines, s + t)| == |lines|
    ensures forall k :: 0 <= k < |lines| ==> AcceptedAsWritten(lines, s + t)[k] == ScanSpec(s).binding
  {
    forall u
      ensures ScanSpec(s + u) == ScanSpec(s)
    {
      ScanExtend(s, u);
    }
    CollectGrowingRepeats(ScanSpec, lines, s, t);
  }

  /** The first two lines `Display::fmt` writes: the keyboard header and the first keyboard binding. */
  lemma DisplayHead(cfg: InputConfig)
    ensures |DisplayLines(cfg)| == 30
    ensures DisplayLines(cfg)[0] == "Keyboard\r\n" && DisplayLines(cfg)[1] == RowLine(0, cfg.keyboard[0])
  {
  }

  /** The keyboard header and the first written row line settle the as-written scan on that row line's binding. */
  lemma HeadSettles(v: u8)
    ensures ScanSpec("Keyboard\r\n" + RowLine(0, v)) == Entry(Binding(1, v))
    ensures forall u :: ScanSpec("Keyboard\r\n" + RowLine(0, v) + u) == ScanSpec("Keyboard\r\n" + RowLine(0, v))
  {
    var s := "Keyboard\r\n" + RowLine(0, v);
    ScanRowLine("Keyboard\r\n", 0, v);
    RowLineIsLine(0, v);
    assert s[|s| - 1] == '\n';
    forall u
      ensures ScanSpec(s + u) == ScanSpec(s)
    {
      ScanExtend(s, u);
    }
  }

  /** Lines opening with the keyboard header and a written row line: as written, every read after the first yields a binding. */
  lemma AsWrittenHeaded(ls: seq<string>, v: u8)
    requires |ls| >= 2 && ls[0] == "Keyboard\r\n" && ls[1] == RowLine(0, v)
    ensures |AcceptedAsWritten(ls, "")| == |ls| - 1
  {
    HeadersSkip();
    HeadSettles(v);
    CollectGrowingCount(ScanSpec, ls);
  }

  /** The as-written reader rejects every file that `Display::fmt` writes. */
  lemma DisplayReadAsWritten(cfg: InputConfig)
    ensures FromTextAsWritten(Display(cfg)) == Err(InvalidData)
  {
    LinesOfDisplay(cfg);
    DisplayHead(cfg);
    AsWrittenHeaded(DisplayLines(cfg), cfg.keyboard[0]);
  }
}
