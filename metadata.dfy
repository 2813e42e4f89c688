/**
 * The save-game metadata file the game checks (launcher/src/metadata.rs):
 * `metadata.xml` in the save directory lists every save slot with a
 * timestamp and a signature; after a save, the entry of that save gets the
 * current time and the MD5 digest of the save data followed by the user id.
 *
 * The XML reader and writer, the clock and MD5 are parameters: the file is
 * the sequence of events the reader produces, the time a number of
 * milliseconds, the digest a function of the bytes.
 */
module Metadata {
  import opened Wrappers
  import opened Ints
  import opened Decimal
  import opened Text
  import opened Paths

  /**
   * A reader event. A start tag carries the attributes the loop looks at,
   * `type` as text and `slot` and `num` as numbers, None when absent; other
   * events (declarations, empty tags, comments) are `Other`. An element with
   * no content produces no text event.
   */
  datatype Event =
    | Start(name: string, kind: Option<string>, slot: Option<u8>, num: Option<u8>)
    | End(name: string)
    | Text(text: string)
    | Other(raw: string)

  const SaveFileTag := "savefile"
  const TimestampTag := "timestamp"
  const SignatureTag := "signature"
  const Ff8Kind := "ff8"
  const ChocoKind := "choco"
  const MetadataFileName := "metadata.xml"
  const ChocoSaveName := "chocorpg.ff8"

  /* ---------- Save data ---------- */

  /** The save file `get_save_data` reads: the chocobo game for slots above 2, else `slot{slot}_save{num:02}.ff8`. */
  function SaveFileName(slot: u8, num: u8): string {
    if slot > 2 then ChocoSaveName
    else "slot" + NatToString(slot) + "_save" + Pad2(num) + ".ff8"
  }

  /** The user id: the save directory's name without its first five characters (`user_`). */
  function UserId(saveDirName: string): (id: string)
    requires |saveDirName| >= 5
    ensures saveDirName == saveDirName[..5] + id
  {
    saveDirName[5..]
  }

  /** `str::as_bytes`: the UTF-8 encoding of a string. */
  function Utf8(s: string): seq<u8>
    decreases |s|
  {
    if s == [] then []
    else
      var c := s[0] as int;
      var head: seq<u8> :=
        if c < 0x80 then [c]
        else if c < 0x800 then [0xC0 + c / 0x40, 0x80 + c % 0x40]
        else if c < 0x1_0000 then [0xE0 + c / 0x1000, 0x80 + (c / 0x40) % 0x40, 0x80 + c % 0x40]
        else [0xF0 + c / 0x4_0000, 0x80 + (c / 0x1000) % 0x40, 0x80 + (c / 0x40) % 0x40, 0x80 + c % 0x40];
      head + Utf8(s[1..])
  }

  /* ---------- The signature ---------- */

  /** A continuation byte of UTF-8, `10xxxxxx`. */
  predicate Cont(b: u8) {
    0x80 <= b <= 0xBF
  }

  /** Well-formed UTF-8 as section 4 of RFC 3629 defines it. */
  predicate ValidUtf8(bs: seq<u8>)
    decreases |bs|
  {
    if bs == [] then true
    else
      var b := bs[0];
      if b < 0x80 then ValidUtf8(bs[1..])
      else if 0xC2 <= b <= 0xDF then |bs| >= 2 && Cont(bs[1]) && ValidUtf8(bs[2..])
      else if 0xE0 <= b <= 0xEF then
        |bs| >= 3 && Cont(bs[2])
        && (if b == 0xE0 then 0xA0 <= bs[1] <= 0xBF else if b == 0xED then 0x80 <= bs[1] <= 0x9F else Cont(bs[1]))
        && ValidUtf8(bs[3..])
      else if 0xF0 <= b <= 0xF4 then
        |bs| >= 4 && Cont(bs[2]) && Cont(bs[3])
        && (if b == 0xF0 then 0x90 <= bs[1] <= 0xBF else if b == 0xF4 then 0x80 <= bs[1] <= 0x8F else Cont(bs[1]))
        && ValidUtf8(bs[4..])
      else false
  }

  /**
   * The signature as written: `String::from_utf8(digest).unwrap()`, the raw
   * digest bytes taken as text; None stands for the panic on bytes that are
   * not UTF-8. Its contract is that behaviour itself; what it gets wrong is
   * shown by `SignatureAsWrittenPanics` and corrected by `Signature`.
   */
  function SignatureAsWritten(digest: seq<u8>): (r: Option<seq<u8>>)
    ensures r.Some? <==> ValidUtf8(digest)
    ensures r.Some? ==> r.value == digest
  {
    if ValidUtf8(digest) then Some(digest) else None
  }

  /** A digest whose first byte is 0xFF, a byte UTF-8 never uses, makes the signature panic. */
  lemma SignatureAsWrittenPanics(digest: seq<u8>)
    requires |digest| == 16 && digest[0] == 0xFF
    ensures SignatureAsWritten(digest).None?
  {
  }

  function HexDigit(d: nat): (c: char)
    requires d < 16
  {
    if d < 10 then (d + '0' as int) as char else (d - 10 + 'a' as int) as char
  }

  predicate IsHexDigit(c: char) {
    '0' <= c <= '9' || 'a' <= c <= 'f'
  }

  function HexValue(c: char): (d: nat)
    requires IsHexDigit(c)
    ensures d < 16 && HexDigit(d) == c
  {
    if c <= '9' then c as int - '0' as int else c as int - 'a' as int + 10
  }

  /** The signature the format expects: the digest in lowercase hexadecimal, two digits per byte. */
  function Signature(digest: seq<u8>): (s: string)
    ensures |s| == 2 * |digest|
    ensures forall i :: 0 <= i < |s| ==> IsHexDigit(s[i])
    decreases |digest|
  {
    if digest == [] then []
    else [HexDigit(digest[0] / 16), HexDigit(digest[0] % 16)] + Signature(digest[1..])
  }

  /** The hexadecimal signature reads back as the digest: distinct digests give distinct signatures. */
  lemma {:induction false} SignatureInjective(a: seq<u8>, b: seq<u8>)
    requires Signature(a) == Signature(b)
    ensures a == b
    decreases |a|
  {
    if a != [] {
      var s := Signature(a);
      assert |b| == |a|;
      assert HexValue(s[0]) == a[0] / 16 == b[0] / 16;
      assert HexValue(s[1]) == a[0] % 16 == b[0] % 16;
      assert s[2..] == Signature(a[1..]) == Signature(b[1..]);
      SignatureInjective(a[1..], b[1..]);
      assert a == [a[0]] + a[1..] && b == [b[0]] + b[1..];
    }
  }

  /* ---------- The event loop ---------- */

  /** The loop's flags: inside a chocobo or a game entry (with its slot and number), inside a timestamp or a signature. */
  datatype Flags = Flags(isChoco: bool, isFf8: bool, currentSlot: u8, currentNum: u8, isTimestamp: bool, isSignature: bool)

  const Initial := Flags(false, false, 0, 0, false, false)

  /** How one event changes the flags. */
  function Next(f: Flags, e: Event): Flags {
    match e
    case Start(name, kind, slot, num) =>
      if name == SaveFileTag then
        if kind == Some(Ff8Kind) then f.(isFf8 := true, currentSlot := slot.GetOr(0), currentNum := num.GetOr(0))
        else if kind == Some(ChocoKind) then f.(isChoco := true)
        else f
      else if name == TimestampTag then f.(isTimestamp := true)
      else if name == SignatureTag then f.(isSignature := true)
      else f
    case End(name) =>
      if name == SaveFileTag then f.(isFf8 := false, isChoco := false)
      else if name == TimestampTag then f.(isTimestamp := false)
      else if name == SignatureTag then f.(isSignature := false)
      else f
    case _ => f
  }

  /** The flags after the events. */
  function FlagsAfter(events: seq<Event>): Flags
    decreases |events|
  {
    if events == [] then Initial else Next(FlagsAfter(events[..|events| - 1]), events[|events| - 1])
  }

  /** Inside the entry being updated: the chocobo entry for slot 3, or the game entry of this slot and number. */
  predicate InTarget(f: Flags, slot: u8, num: u8) {
    (f.isChoco && slot == 3) || (f.isFf8 && slot == f.currentSlot && num == f.currentNum)
  }

  /** The event written for `e`: text of the target's timestamp or signature is replaced, everything else is copied. */
  function Emit(f: Flags, e: Event, slot: u8, num: u8, timestamp: string, signature: string): Event {
    if e.Text? && InTarget(f, slot, num) then
      if f.isTimestamp then Text(timestamp)
      else if f.isSignature then Text(signature)
      else e
    else e
  }

  /** The events written for `events`, one per event read. */
  function Rewrite(events: seq<Event>, slot: u8, num: u8, timestamp: string, signature: string): (out: seq<Event>)
    ensures |out| == |events|
    decreases |events|
  {
    if events == [] then []
    else
      var init := events[..|events| - 1];
      Rewrite(init, slot, num, timestamp, signature) + [Emit(FlagsAfter(init), events[|events| - 1], slot, num, timestamp, signature)]
  }

  /** The loop of `update_metadata`: each event read is written, rewritten where it is the target's text. */
  method UpdateEvents(events: seq<Event>, slot: u8, num: u8, timestamp: string, signature: string) returns (written: seq<Event>)
    ensures written == Rewrite(events, slot, num, timestamp, signature)
  {
    written := [];
    var isChoco, isFf8 := false, false;
    var currentSlot: u8, currentNum: u8 := 0, 0;
    var isTimestamp, isSignature := false, false;
    var i := 0;
    while i < |events|
      invariant 0 <= i <= |events|
      invariant FlagsAfter(events[..i]) == Flags(isChoco, isFf8, currentSlot, currentNum, isTimestamp, isSignature)
      invariant written == Rewrite(events[..i], slot, num, timestamp, signature)
    {
      assert events[..i + 1][..i] == events[..i];
      match events[i] {
        case Start(name, kind, s, n) =>
          if name == SaveFileTag {
            if kind == Some(Ff8Kind) {
              isFf8 := true;
              currentSlot := s.GetOr(0);
              currentNum := n.GetOr(0);
            } else if kind == Some(ChocoKind) {
              isChoco := true;
            }
          } else if name == TimestampTag {
            isTimestamp := true;
          } else if name == SignatureTag {
            isSignature := true;
          }
          written := written + [events[i]];
        case End(name) =>
          if name == SaveFileTag {
            isFf8 := false;
            isChoco := false;
          } else if name == TimestampTag {
            isTimestamp := false;
          } else if name == SignatureTag {
            isSignature := false;
          }
          written := written + [events[i]];
        case Text(_) =>
          if (isChoco && slot == 3) || (isFf8 && slot == currentSlot && num == currentNum) {
            if isTimestamp {
              written := written + [Text(timestamp)];
            } else if isSignature {
              written := written + [Text(signature)];
            } else {
              written := written + [events[i]];
            }
          } else {
            written := written + [events[i]];
          }
        case Other(_) =>
          written := written + [events[i]];
      }
      i := i + 1;
    }
    assert events[..i] == events;
  }

  /* ---------- The file as created ---------- */

  /** An entry of the file: its type, and its slot and number for a game save. */
  datatype Entry = Entry(kind: string, slot: Option<u8>, num: Option<u8>)

  /** Game saves `from..30` of one slot. */
  function SlotEntries(slot: u8, from: nat): (es: seq<Entry>)
    requires 1 <= from <= 31
    ensures |es| == 31 - from
    ensures forall i :: 0 <= i < |es| ==> es[i] == Entry(Ff8Kind, Some(slot), Some(from + i))
    decreases 31 - from
  {
    if from == 31 then [] else [Entry(Ff8Kind, Some(slot), Some(from))] + SlotEntries(slot, from + 1)
  }

  /** The entries of `create_metadata`: saves 1 to 30 of slot 1, then of slot 2, then the chocobo game. */
  function TemplateEntries(): seq<Entry> {
    SlotEntries(1, 1) + SlotEntries(2, 1) + [Entry(ChocoKind, None, None)]
  }

  /** The events of one entry: its timestamp and signature elements, both empty. */
  function EntryEvents(e: Entry): seq<Event> {
    [Start(SaveFileTag, Some(e.kind), e.slot, e.num),
     Start(TimestampTag, None, None, None), End(TimestampTag),
     Start(SignatureTag, None, None, None), End(SignatureTag),
     End(SaveFileTag)]
  }

  function EntriesEvents(es: seq<Entry>): seq<Event>
    decreases |es|
  {
    if es == [] then [] else EntriesEvents(es[..|es| - 1]) + EntryEvents(es[|es| - 1])
  }

  /** The file `create_metadata` writes, as events (whitespace between tags aside). */
  function TemplateEvents(): seq<Event> {
    [Other("<?xml version=\"1.0\" encoding=\"UTF-8\"?>"), Start("gamestatus", None, None, None)]
    + EntriesEvents(TemplateEntries())
    + [End("gamestatus")]
  }

  /* ---------- What the loop does ---------- */

  /** The written event at each position is the read one rewritten under the flags the events before it leave. */
  lemma {:induction false} RewriteAt(events: seq<Event>, slot: u8, num: u8, timestamp: string, signature: string, i: nat)
    requires i < |events|
    ensures Rewrite(events, slot, num, timestamp, signature)[i] == Emit(FlagsAfter(events[..i]), events[i], slot, num, timestamp, signature)
    decreases |events|
  {
    var init := events[..|events| - 1];
    if i < |init| {
      RewriteAt(init, slot, num, timestamp, signature, i);
      assert init[..i] == events[..i];
    }
  }

  /**
   * Only text is ever changed, and only inside the target entry, into the
   * timestamp (inside a timestamp element) or the signature (inside a
   * signature element outside a timestamp).
   */
  lemma OnlyTargetTextChanges(events: seq<Event>, slot: u8, num: u8, timestamp: string, signature: string, i: nat)
    requires i < |events|
    ensures var w := Rewrite(events, slot, num, timestamp, signature)[i];
      var f := FlagsAfter(events[..i]);
      && (w != events[i] ==> events[i].Text? && InTarget(f, slot, num) && (f.isTimestamp || f.isSignature))
      && (events[i].Text? && InTarget(f, slot, num) && f.isTimestamp ==> w == Text(timestamp))
      && (events[i].Text? && InTarget(f, slot, num) && !f.isTimestamp && f.isSignature ==> w == Text(signature))
  {
    RewriteAt(events, slot, num, timestamp, signature, i);
  }

  /** Events without text are written back unchanged. */
  lemma WithoutTextUnchanged(events: seq<Event>, slot: u8, num: u8, timestamp: string, signature: string)
    requires forall e | e in events :: !e.Text?
    ensures Rewrite(events, slot, num, timestamp, signature) == events
  {
    var w := Rewrite(events, slot, num, timestamp, signature);
    forall i | 0 <= i < |events|
      ensures w[i] == events[i]
    {
      RewriteAt(events, slot, num, timestamp, signature, i);
    }
  }

  /** The flags after events followed by more are those after the first run, carried through the rest. */
  lemma {:induction false} FlagsAfterAppend(a: seq<Event>, b: seq<Event>)
    ensures FlagsAfter(a + b) == FlagsFrom(FlagsAfter(a), b)
    decreases |b|
  {
    if b == [] {
      assert a + b == a;
    } else {
      var init := b[..|b| - 1];
      assert (a + b)[..|a + b| - 1] == a + init;
      FlagsAfterAppend(a, init);
    }
  }

  /** The flags `f` carried through `events`. */
  function FlagsFrom(f: Flags, events: seq<Event>): Flags
    decreases |events|
  {
    if events == [] then f else Next(FlagsFrom(f, events[..|events| - 1]), events[|events| - 1])
  }

  /**
   * The text of a timestamp that opens a game entry of the saved slot and
   * number becomes the current time, and so does the text of a signature
   * there become the signature, whatever came before, attributes left out
   * counting as 0.
   */
  lemma GameEntryUpdated(pre: seq<Event>, slot: u8, num: u8, s: Option<u8>, n: Option<u8>, x: string, timestamp: string, signature: string)
    requires s.GetOr(0) == slot && n.GetOr(0) == num
    ensures var events := pre + [Start(SaveFileTag, Some(Ff8Kind), s, n), Start(TimestampTag, None, None, None), Text(x)];
      Rewrite(events, slot, num, timestamp, signature)[|pre| + 2] == Text(timestamp)
    ensures var events := pre + [Start(SaveFileTag, Some(Ff8Kind), s, n), End(TimestampTag), Start(SignatureTag, None, None, None), Text(x)];
      Rewrite(events, slot, num, timestamp, signature)[|pre| + 3] == Text(signature)
  {
    var tail1 := [Start(SaveFileTag, Some(Ff8Kind), s, n), Start(TimestampTag, None, None, None)];
    var e1 := pre + [Start(SaveFileTag, Some(Ff8Kind), s, n), Start(TimestampTag, None, None, None), Text(x)];
    RewriteAt(e1, slot, num, timestamp, signature, |pre| + 2);
    assert e1[..|pre| + 2] == pre + tail1;
    FlagsAfterAppend(pre, tail1);
    assert tail1[..1] == [tail1[0]];
    var tail2 := [Start(SaveFileTag, Some(Ff8Kind), s, n), End(TimestampTag), Start(SignatureTag, None, None, None)];
    var e2 := pre + [Start(SaveFileTag, Some(Ff8Kind), s, n), End(TimestampTag), Start(SignatureTag, None, None, None), Text(x)];
    RewriteAt(e2, slot, num, timestamp, signature, |pre| + 3);
    assert e2[..|pre| + 3] == pre + tail2;
    FlagsAfterAppend(pre, tail2);
    assert tail2[..2][..1] == [tail2[0]];
    assert tail2[..2] == tail2[..2][..1] + [tail2[1]];
  }

  /**
   * Text of another game entry, opened after the previous entry closed, is
   * copied: a timestamp only changes in the entry of the saved slot and
   * number.
   */
  lemma OtherEntryKept(pre: seq<Event>, slot: u8, num: u8, s: u8, n: u8, x: string, timestamp: string, signature: string)
    requires (s, n) != (slot, num)
    ensures var events := pre + [End(SaveFileTag), Start(SaveFileTag, Some(Ff8Kind), Some(s), Some(n)), Start(TimestampTag, None, None, None), Text(x)];
      Rewrite(events, slot, num, timestamp, signature)[|pre| + 3] == Text(x)
  {
    var tail := [End(SaveFileTag), Start(SaveFileTag, Some(Ff8Kind), Some(s), Some(n)), Start(TimestampTag, None, None, None)];
    var events := pre + [End(SaveFileTag), Start(SaveFileTag, Some(Ff8Kind), Some(s), Some(n)), Start(TimestampTag, None, None, None), Text(x)];
    RewriteAt(events, slot, num, timestamp, signature, |pre| + 3);
    assert events[..|pre| + 3] == pre + tail;
    FlagsAfterAppend(pre, tail);
    var f0 := FlagsAfter(pre);
    assert tail[..2][..1] == [tail[0]] && [tail[0]][..0] == [];
    assert FlagsFrom(f0, tail[..2][..1]) == Next(f0, tail[0]);
    assert tail[..2] == tail[..2][..1] + [tail[1]];
    assert FlagsFrom(f0, tail[..2]) == Next(Next(f0, tail[0]), tail[1]);
    assert FlagsFrom(f0, tail) == Next(Next(Next(f0, tail[0]), tail[1]), tail[2]);
  }

  /** The file as created holds 61 entries: saves 1 to 30 of slot 1, then of slot 2, then the chocobo game. */
  lemma TemplateShape()
    ensures var es := TemplateEntries();
      && |es| == 61
      && (forall i :: 0 <= i < 30 ==> es[i] == Entry(Ff8Kind, Some(1), Some(i + 1)))
      && (forall i :: 30 <= i < 60 ==> es[i] == Entry(Ff8Kind, Some(2), Some(i - 29)))
      && es[60] == Entry(ChocoKind, None, None)
  {
    var s1, s2 := SlotEntries(1, 1), SlotEntries(2, 1);
    var es := TemplateEntries();
    assert es == s1 + s2 + [Entry(ChocoKind, None, None)];
    forall i | 0 <= i < 30
      ensures es[i] == Entry(Ff8Kind, Some(1), Some(i + 1))
    {
      assert es[i] == s1[i];
    }
    forall i | 30 <= i < 60
      ensures es[i] == Entry(Ff8Kind, Some(2), Some(i - 29))
    {
      assert es[i] == s2[i - 30];
    }
  }

  /** Each game save of slots 1 and 2 has exactly one entry in the file as created, and the chocobo game has one. */
  lemma TemplateEntryUnique(slot: u8, num: u8)
    requires 1 <= slot <= 2 && 1 <= num <= 30
    ensures var es := TemplateEntries();
      forall i :: 0 <= i < |es| ==> (es[i] == Entry(Ff8Kind, Some(slot), Some(num)) <==> i == 30 * (slot - 1) + num - 1)
    ensures var es := TemplateEntries();
      forall i :: 0 <= i < |es| ==> (es[i].kind == ChocoKind <==> i == 60)
  {
    TemplateShape();
    var es := TemplateEntries();
    var target: int := 30 * (slot as int - 1) + num as int - 1;
    assert Ff8Kind != ChocoKind by { assert Ff8Kind[0] != ChocoKind[0]; }
    forall i | 0 <= i < |es|
      ensures es[i] == Entry(Ff8Kind, Some(slot), Some(num)) <==> i == target
      ensures es[i].kind == ChocoKind <==> i == 60
    {
      if i < 30 {
        assert es[i] == Entry(Ff8Kind, Some(1), Some(i + 1));
      } else if i < 60 {
        assert es[i] == Entry(Ff8Kind, Some(2), Some(i - 29));
      }
    }
  }

  /** The template's entries have empty timestamps and signatures, so the loop writes the template back as it is. */
  lemma TemplateUnchanged(slot: u8, num: u8, timestamp: string, signature: string)
    ensures Rewrite(TemplateEvents(), slot, num, timestamp, signature) == TemplateEvents()
  {
    NoTextInEntries(TemplateEntries());
    WithoutTextUnchanged(TemplateEvents(), slot, num, timestamp, signature);
  }

  lemma {:induction false} NoTextInEntries(es: seq<Entry>)
    ensures forall e | e in EntriesEvents(es) :: !e.Text?
    decreases |es|
  {
    if es != [] {
      NoTextInEntries(es[..|es| - 1]);
    }
  }

  /** The part of a game save's file name between `slot` and `.ff8`. */
  function SaveStem(slot: u8, num: u8): string {
    NatToString(slot) + ['_'] + ("save" + Pad2(num))
  }

  lemma SaveFileNameParts(slot: u8, num: u8)
    requires slot <= 2
    ensures var name := SaveFileName(slot, num);
      |name| >= 8 && name[4..|name| - 4] == SaveStem(slot, num)
  {
    var name := SaveFileName(slot, num);
    assert name == "slot" + SaveStem(slot, num) + ".ff8";
  }

  /** Distinct game saves of slots 1 and 2 read distinct files. */
  lemma SaveFileNameInjective(slot: u8, num: u8, slot': u8, num': u8)
    requires slot <= 2 && slot' <= 2
    requires SaveFileName(slot, num) == SaveFileName(slot', num')
    ensures slot == slot' && num == num'
  {
    SaveFileNameParts(slot, num);
    SaveFileNameParts(slot', num');
    var a, a' := NatToString(slot), NatToString(slot');
    assert forall i :: 0 <= i < |a| ==> a[i] != '_';
    assert forall i :: 0 <= i < |a'| ==> a'[i] != '_';
    SplitAtSeparator(a, "save" + Pad2(num), a', "save" + Pad2(num'), '_');
    NatToStringInjective(slot, slot');
    assert Pad2(num) == ("save" + Pad2(num))[4..] == ("save" + Pad2(num'))[4..] == Pad2(num');
    Pad2Value(num);
    Pad2Value(num');
  }

  /** No game save of slots 1 and 2 is read from the chocobo game's file. */
  lemma SaveFileNameNotChoco(slot: u8, num: u8)
    requires slot <= 2
    ensures SaveFileName(slot, num) != ChocoSaveName
  {
    assert SaveFileName(slot, num)[0] == 's' && ChocoSaveName[0] == 'c';
  }

  /** Rewriting leaves every tag in place, so the flags after the written events are those after the read ones. */
  lemma {:induction false} FlagsAfterRewrite(events: seq<Event>, slot: u8, num: u8, timestamp: string, signature: string)
    ensures FlagsAfter(Rewrite(events, slot, num, timestamp, signature)) == FlagsAfter(events)
    decreases |events|
  {
    if events != [] {
      var init := events[..|events| - 1];
      var w := Rewrite(events, slot, num, timestamp, signature);
      assert w[..|w| - 1] == Rewrite(init, slot, num, timestamp, signature);
      FlagsAfterRewrite(init, slot, num, timestamp, signature);
    }
  }

  /**
   * Updating a file that an earlier save already updated gives the file the
   * later save alone would: the last save's time and signature win, and
   * updating twice with the same ones changes nothing more.
   */
  lemma {:induction false} LastUpdateWins(events: seq<Event>, slot: u8, num: u8, t1: string, s1: string, t2: string, s2: string)
    ensures Rewrite(Rewrite(events, slot, num, t1, s1), slot, num, t2, s2) == Rewrite(events, slot, num, t2, s2)
    decreases |events|
  {
    if events != [] {
      var init := events[..|events| - 1];
      var w := Rewrite(events, slot, num, t1, s1);
      assert w[..|w| - 1] == Rewrite(init, slot, num, t1, s1);
      FlagsAfterRewrite(init, slot, num, t1, s1);
      LastUpdateWins(init, slot, num, t1, s1, t2, s2);
    }
  }

  /** A string of ASCII characters is encoded one byte per character. */
  lemma {:induction false} Utf8Ascii(s: string)
    requires forall i :: 0 <= i < |s| ==> s[i] < 0x80 as char
    ensures |Utf8(s)| == |s|
    ensures forall i :: 0 <= i < |s| ==> Utf8(s)[i] == s[i] as int
    decreases |s|
  {
    if s != [] {
      Utf8Ascii(s[1..]);
    }
  }

  /**
   * The outcomes of the steps of `update_metadata` that the rewrite does not
   * compute: creating the missing file from the template, opening it for
   * reading, reading the clock (the milliseconds since the epoch), and
   * creating and writing the file at the end. Each `Some` is the error that
   * step returns.
   */
  datatype Effects<E> = Effects(create: Option<E>, open: Option<E>, clock: Result<nat, E>, write: Option<E>)

  /** The file exists, or was created, and was opened for reading. */
  predicate Opened<E>(stored: Option<seq<Event>>, fx: Effects<E>) {
    (stored.Some? || fx.create.None?) && fx.open.None?
  }

  /**
   * `update_metadata`: the file is read, or created first from the template
   * when it does not exist (`stored` None); the clock and the save data of the
   * slot and number are read; the text of the entry's timestamp becomes the
   * time in milliseconds and that of its signature the signature of the MD5
   * digest of the save data followed by the user id, the rest of the file
   * being copied; the result is what is written back. Each step's error is
   * returned as it happens, so the file is written only when every step before
   * the write succeeds.
   */
  method UpdateMetadata<E>(saveDirName: string, slot: u8, num: u8, stored: Option<seq<Event>>, fx: Effects<E>,
                           readSave: string -> Result<seq<u8>, E>, md5: seq<u8> -> seq<u8>)
    returns (r: Result<seq<Event>, E>)
    requires |saveDirName| >= 5
    ensures stored.None? && fx.create.Some? ==> r == Err(fx.create.value)
    ensures (stored.Some? || fx.create.None?) && fx.open.Some? ==> r == Err(fx.open.value)
    ensures Opened(stored, fx) && fx.clock.Err? ==> r == Err(fx.clock.error)
    ensures Opened(stored, fx) && fx.clock.Ok? && readSave(SaveFileName(slot, num)).Err? ==>
      r == Err(readSave(SaveFileName(slot, num)).error)
    ensures Opened(stored, fx) && fx.clock.Ok? && readSave(SaveFileName(slot, num)).Ok? && fx.write.Some? ==>
      r == Err(fx.write.value)
    ensures r.Ok? <==> Opened(stored, fx) && fx.clock.Ok? && readSave(SaveFileName(slot, num)).Ok? && fx.write.None?
    ensures r.Ok? ==>
      var digest := md5(readSave(SaveFileName(slot, num)).value + Utf8(UserId(saveDirName)));
      r.value == Rewrite(stored.GetOr(TemplateEvents()), slot, num, NatToString(fx.clock.value), Signature(digest))
  {
    var events: seq<Event>;
    match stored {
      case Some(es) =>
        events := es;
      case None =>
        if fx.create.Some? {
          return Err(fx.create.value);
        }
        events := TemplateEvents();
    }
    var userId := UserId(saveDirName);
    if fx.open.Some? {
      return Err(fx.open.value);
    }
    if fx.clock.Err? {
      return Err(fx.clock.error);
    }
    var timestamp := NatToString(fx.clock.value);
    var saveData := readSave(SaveFileName(slot, num));
    if saveData.Err? {
      return Err(saveData.error);
    }
    var signature := Signature(md5(saveData.value + Utf8(userId)));
    var written := UpdateEvents(events, slot, num, timestamp, signature);
    if fx.write.Some? {
      return Err(fx.write.value);
    }
    r := Ok(written);
  }
}
