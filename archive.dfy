/**
 * Entry lookup in a mod archive (core/src/iro/archive.rs): entry paths are
 * stored as UTF-16 little-endian bytes, decoded as section 2.2 of RFC 2781
 * describes, and the first entry whose decoded path equals the wanted name
 * is the one found.
 *
 * Reading an entry's bytes and deserialising `mod.xml` are parameters.
 */
module Archive {
  import opened Wrappers
  import opened Ints

  /** The error of the archive library for a path that is not UTF-16. */
  datatype Error = InvalidUtf16(message: string)

  const UnevenBytes := "uneven bytes"
  const NotConvertible := "bytes in u16 cannot be converted to string"
  const ModXmlName := "mod.xml"

  /** An entry of the archive's table: its path as stored; offsets and sizes stay with the archive library. */
  datatype IroEntry = IroEntry(path: seq<u8>)

  /* ---------- UTF-16 ---------- */

  predicate IsHighSurrogate(u: u16) {
    0xD800 <= u <= 0xDBFF
  }

  predicate IsLowSurrogate(u: u16) {
    0xDC00 <= u <= 0xDFFF
  }

  /** `chunks(2)` read with `u16::from_le_bytes`; an odd count has no such reading. */
  function Units(bytes: seq<u8>): (r: Option<seq<u16>>)
    ensures r.Some? <==> |bytes| % 2 == 0
    ensures r.Some? ==> |r.value| * 2 == |bytes|
    ensures r.Some? ==> forall i :: 0 <= i < |r.value| ==> r.value[i] == U16FromLe(bytes[2 * i], bytes[2 * i + 1])
    decreases |bytes|
  {
    if |bytes| == 0 then Some([])
    else if |bytes| == 1 then None
    else
      match Units(bytes[2..])
      case None => None
      case Some(rest) => Some([U16FromLe(bytes[0], bytes[1])] + rest)
  }

  /** `String::from_utf16`: a unit outside the surrogates is a character; a high surrogate followed by a low one is one character; any other surrogate fails. */
  function DecodeUtf16(us: seq<u16>): (r: Option<string>)
    decreases |us|
  {
    if us == [] then Some([])
    else if IsHighSurrogate(us[0]) then
      if |us| >= 2 && IsLowSurrogate(us[1]) then
        match DecodeUtf16(us[2..])
        case None => None
        case Some(rest) => Some([(0x1_0000 + (us[0] as int - 0xD800) * 0x400 + (us[1] as int - 0xDC00)) as char] + rest)
      else None
    else if IsLowSurrogate(us[0]) then None
    else
      match DecodeUtf16(us[1..])
      case None => None
      case Some(rest) => Some([us[0] as char] + rest)
  }

  /** `parse_utf16`: an odd number of bytes and an unpaired surrogate are errors, each with its message. */
  function ParseUtf16(bytes: seq<u8>): (r: Result<string, Error>)
    ensures |bytes| % 2 == 1 ==> r == Err(InvalidUtf16(UnevenBytes))
    ensures |bytes| % 2 == 0 ==> (r.Ok? <==> DecodeUtf16(Units(bytes).value).Some?)
    ensures |bytes| % 2 == 0 && r.Ok? ==> r.value == DecodeUtf16(Units(bytes).value).value
    ensures |bytes| % 2 == 0 && r.Err? ==> r.error == InvalidUtf16(NotConvertible)
  {
    match Units(bytes)
    case None => Err(InvalidUtf16(UnevenBytes))
    case Some(us) =>
      match DecodeUtf16(us)
      case None => Err(InvalidUtf16(NotConvertible))
      case Some(s) => Ok(s)
  }

  /* ---------- The inverse: encoding ---------- */

  /** The UTF-16 units of one character: itself below 0x10000, a surrogate pair above. */
  function EncodeChar(c: char): (r: seq<u16>)
    ensures |r| == 1 <==> (c as int) < 0x1_0000
    ensures |r| == 1 ==> !IsHighSurrogate(r[0]) && !IsLowSurrogate(r[0])
    ensures |r| == 2 ==> IsHighSurrogate(r[0]) && IsLowSurrogate(r[1])
    ensures |r| == 1 || |r| == 2
  {
    var v := c as int;
    if v < 0x1_0000 then [v]
    else [0xD800 + (v - 0x1_0000) / 0x400, 0xDC00 + (v - 0x1_0000) % 0x400]
  }

  /** The UTF-16 units of a string. */
  function EncodeUtf16(s: string): seq<u16>
    decreases |s|
  {
    if s == [] then [] else EncodeChar(s[0]) + EncodeUtf16(s[1..])
  }

  /** The little-endian bytes of units. */
  function LeBytes(us: seq<u16>): (r: seq<u8>)
    ensures |r| == 2 * |us|
    decreases |us|
  {
    if us == [] then [] else U16ToLe(us[0]) + LeBytes(us[1..])
  }

  /** The units of little-endian bytes are the units they were written from. */
  lemma {:induction false} UnitsOfLeBytes(us: seq<u16>)
    ensures Units(LeBytes(us)) == Some(us)
    decreases |us|
  {
    if us != [] {
      var b := LeBytes(us);
      var pair := U16ToLe(us[0]);
      UnitsOfLeBytes(us[1..]);
      assert b == pair + LeBytes(us[1..]);
      assert b[0] == pair[0] && b[1] == pair[1];
      assert b[2..] == LeBytes(us[1..]);
      assert U16FromLe(b[0], b[1]) == us[0];
      assert us == [us[0]] + us[1..];
    }
  }

  /** Two bytes read as a unit are written back as the same two bytes. */
  lemma LePair(b0: u8, b1: u8)
    ensures U16ToLe(U16FromLe(b0, b1)) == [b0, b1]
  {
    var v := U16FromLe(b0, b1);
    assert v == b0 + 0x100 * b1;
    assert v / 0x100 == b1 && v % 0x100 == b0 by {
      DivModUnique(v, b1, b0);
    }
  }

  /** Division by 256 is determined by any quotient and remainder in range. */
  lemma DivModUnique(v: int, q: int, r: int)
    requires 0 <= r < 0x100 && v == q * 0x100 + r
    ensures v / 0x100 == q && v % 0x100 == r
  {
  }

  /** Writing the units of even bytes gives the bytes back. */
  lemma {:induction false} LeBytesOfUnits(bytes: seq<u8>)
    requires |bytes| % 2 == 0
    ensures LeBytes(Units(bytes).value) == bytes
    decreases |bytes|
  {
    if bytes != [] {
      LeBytesOfUnits(bytes[2..]);
      var us := Units(bytes).value;
      assert us[1..] == Units(bytes[2..]).value;
      LePair(bytes[0], bytes[1]);
      assert bytes == [bytes[0], bytes[1]] + bytes[2..];
    }
  }

  /** Decoding the encoding of a character followed by more units decodes the rest after it. */
  lemma DecodeEncodeChar(c: char, rest: seq<u16>)
    ensures DecodeUtf16(EncodeChar(c) + rest) ==
      match DecodeUtf16(rest)
      case None => None
      case Some(t) => Some([c] + t)
  {
    var e := EncodeChar(c);
    var us := e + rest;
    if |e| == 1 {
      assert us[1..] == rest;
    } else {
      assert us[2..] == rest;
      var v := c as int - 0x1_0000;
      assert (v / 0x400) * 0x400 + v % 0x400 == v;
    }
  }

  /** Decoding inverts encoding: every string survives the round trip. */
  lemma {:induction false} DecodeEncode(s: string)
    ensures DecodeUtf16(EncodeUtf16(s)) == Some(s)
    decreases |s|
  {
    if s != [] {
      DecodeEncode(s[1..]);
      DecodeEncodeChar(s[0], EncodeUtf16(s[1..]));
      assert s == [s[0]] + s[1..];
    }
  }

  /** Encoding inverts decoding: units that decode are the encoding of what they decode to. */
  lemma {:induction false} EncodeDecode(us: seq<u16>)
    requires DecodeUtf16(us).Some?
    ensures EncodeUtf16(DecodeUtf16(us).value) == us
    decreases |us|
  {
    if us != [] {
      var s := DecodeUtf16(us).value;
      if IsHighSurrogate(us[0]) {
        EncodeDecode(us[2..]);
        assert s[1..] == DecodeUtf16(us[2..]).value;
        assert us == [us[0], us[1]] + us[2..];
      } else {
        EncodeDecode(us[1..]);
        assert s[1..] == DecodeUtf16(us[1..]).value;
        assert us == [us[0]] + us[1..];
      }
    }
  }

  /** A path written as UTF-16 little-endian reads back as itself. */
  lemma ParseEncoded(s: string)
    ensures ParseUtf16(LeBytes(EncodeUtf16(s))) == Ok(s)
  {
    UnitsOfLeBytes(EncodeUtf16(s));
    DecodeEncode(s);
  }

  /** Bytes that read as a path are that path written as UTF-16 little-endian: two byte strings never read as the same path. */
  lemma ParseInjective(a: seq<u8>, b: seq<u8>)
    requires ParseUtf16(a).Ok? && ParseUtf16(a) == ParseUtf16(b)
    ensures a == b
  {
    LeBytesOfUnits(a);
    LeBytesOfUnits(b);
    EncodeDecode(Units(a).value);
    EncodeDecode(Units(b).value);
  }

  /** An unpaired surrogate is refused whatever follows it: a low surrogate first, or a high one not followed by a low one. */
  lemma UnpairedSurrogate(u: u16, v: u16, rest: seq<u16>)
    ensures IsLowSurrogate(u) ==> DecodeUtf16([u] + rest) == None
    ensures IsHighSurrogate(u) && !IsLowSurrogate(v) ==> DecodeUtf16([u, v] + rest) == None
    ensures IsHighSurrogate(u) ==> DecodeUtf16([u]) == None
  {
  }

  /* ---------- Lookup ---------- */

  /** The entry `search_file` finds: the index of the first entry named `name`, the error of the first entry before it that does not decode. */
  function FindEntry(entries: seq<IroEntry>, name: string): Result<Option<nat>, Error>
    decreases |entries|
  {
    if entries == [] then Ok(None)
    else
      match ParseUtf16(entries[0].path)
      case Err(e) => Err(e)
      case Ok(p) =>
        if p == name then Ok(Some(0))
        else
          match FindEntry(entries[1..], name)
          case Err(e) => Err(e)
          case Ok(None) => Ok(None)
          case Ok(Some(i)) => Ok(Some(i + 1))
  }

  /** `search_file`: the entries are decoded in order until one fails or one matches. */
  method SearchFile(entries: seq<IroEntry>, fileName: string) returns (r: Result<Option<nat>, Error>)
    ensures r == FindEntry(entries, fileName)
  {
    var i := 0;
    while i < |entries|
      invariant 0 <= i <= |entries|
      invariant FindEntry(entries, fileName) == Shifted(FindEntry(entries[i..], fileName), i)
    {
      var path := ParseUtf16(entries[i].path);
      assert entries[i..][1..] == entries[i + 1..];
      if path.Err? {
        return Err(path.error);
      }
      if path.value == fileName {
        return Ok(Some(i));
      }
      ShiftedStep(FindEntry(entries[i + 1..], fileName), i);
      i := i + 1;
    }
    assert entries[i..] == [];
    r := Ok(None);
  }

  /** A lookup result on a suffix starting at `k`, as an index into the whole. */
  function Shifted(r: Result<Option<nat>, Error>, k: nat): Result<Option<nat>, Error> {
    match r
    case Err(e) => Err(e)
    case Ok(None) => Ok(None)
    case Ok(Some(i)) => Ok(Some(i + k))
  }

  lemma ShiftedStep(r: Result<Option<nat>, Error>, k: nat)
    ensures Shifted(Shifted(r, 1), k) == Shifted(r, k + 1)
  {
  }

  /** Every entry before `k` decodes, to a path other than `name`. */
  predicate DecodedBefore(entries: seq<IroEntry>, name: string, k: nat)
    requires k <= |entries|
  {
    forall j :: 0 <= j < k ==> ParseUtf16(entries[j].path).Ok? && ParseUtf16(entries[j].path).value != name
  }

  /** Passing an entry that decodes to another path extends `DecodedBefore` by one. */
  lemma DecodedBeforeCons(entries: seq<IroEntry>, name: string, k: nat)
    requires 0 < |entries| && k < |entries|
    requires ParseUtf16(entries[0].path).Ok? && ParseUtf16(entries[0].path).value != name
    requires DecodedBefore(entries[1..], name, k)
    ensures DecodedBefore(entries, name, k + 1)
  {
    forall j | 0 <= j < k + 1
      ensures ParseUtf16(entries[j].path).Ok? && ParseUtf16(entries[j].path).value != name
    {
      if j > 0 {
        assert entries[j] == entries[1..][j - 1];
      }
    }
  }

  /** A found index names the first entry whose path decodes to the name; every entry before it decodes to another path. */
  lemma {:induction false} FindEntryFound(entries: seq<IroEntry>, name: string)
    ensures var r := FindEntry(entries, name);
      r.Ok? && r.value.Some? ==>
        r.value.value < |entries| && ParseUtf16(entries[r.value.value].path) == Ok(name) && DecodedBefore(entries, name, r.value.value)
    decreases |entries|
  {
    var r := FindEntry(entries, name);
    if entries != [] && r.Ok? && r.value.Some? && r.value.value > 0 {
      FindEntryFound(entries[1..], name);
      DecodedBeforeCons(entries, name, r.value.value - 1);
      assert entries[r.value.value] == entries[1..][r.value.value - 1];
    }
  }

  /** Nothing is found, without error, exactly when every entry decodes and none to the name. */
  lemma {:induction false} FindEntryNone(entries: seq<IroEntry>, name: string)
    ensures FindEntry(entries, name) == Ok(None) <==> DecodedBefore(entries, name, |entries|)
    decreases |entries|
  {
    if entries != [] {
      FindEntryNone(entries[1..], name);
      if FindEntry(entries, name) == Ok(None) {
        DecodedBeforeCons(entries, name, |entries| - 1);
      }
      if DecodedBefore(entries, name, |entries|) {
        assert DecodedBefore(entries[1..], name, |entries| - 1) by {
          forall j | 0 <= j < |entries| - 1
            ensures ParseUtf16(entries[1..][j].path).Ok? && ParseUtf16(entries[1..][j].path).value != name
          {
            assert entries[1..][j] == entries[j + 1];
          }
        }
      }
    }
  }

  /** An error is the decoding error of the first entry that does not decode, every entry before it decoding to another path. */
  lemma {:induction false} FindEntryError(entries: seq<IroEntry>, name: string)
    ensures var r := FindEntry(entries, name);
      r.Err? ==> exists k :: 0 <= k < |entries| && ParseUtf16(entries[k].path) == Err(r.error) && DecodedBefore(entries, name, k)
    decreases |entries|
  {
    var r := FindEntry(entries, name);
    if entries != [] && r.Err? {
      var p := ParseUtf16(entries[0].path);
      if p.Err? {
        assert ParseUtf16(entries[0].path) == Err(r.error) && DecodedBefore(entries, name, 0);
      } else {
        var tail := entries[1..];
        FindEntryError(tail, name);
        var k :| 0 <= k < |tail| && ParseUtf16(tail[k].path) == Err(r.error) && DecodedBefore(tail, name, k);
        DecodedBeforeCons(entries, name, k);
        assert entries[k + 1] == tail[k];
      }
    }
  }

  /**
   * `unpack_mod_xml`: when the lookup of `mod.xml` fails or finds nothing the
   * result is Ok(None); otherwise the entry is read and deserialised, and a
   * failure of either is the result.
   */
  method UnpackModXml<M, E>(entries: seq<IroEntry>, read: nat -> Result<seq<u8>, E>, parse: seq<u8> -> Result<M, E>)
    returns (r: Result<Option<M>, E>)
    ensures !(FindEntry(entries, ModXmlName).Ok? && FindEntry(entries, ModXmlName).value.Some?) ==> r == Ok(None)
    ensures FindEntry(entries, ModXmlName).Ok? && FindEntry(entries, ModXmlName).value.Some? ==>
      var bytes := read(FindEntry(entries, ModXmlName).value.value);
      && (bytes.Err? ==> r == Err(bytes.error))
      && (bytes.Ok? && parse(bytes.value).Err? ==> r == Err(parse(bytes.value).error))
      && (bytes.Ok? && parse(bytes.value).Ok? ==> r == Ok(Some(parse(bytes.value).value)))
  {
    var found := SearchFile(entries, ModXmlName);
    if found.Ok? && found.value.Some? {
      var bytes := read(found.value.value);
      if bytes.Err? {
        return Err(bytes.error);
      }
      var modInfo := parse(bytes.value);
      if modInfo.Err? {
        return Err(modInfo.error);
      }
      return Ok(Some(modInfo.value));
    }
    r := Ok(None);
  }

  /** A bad path before `mod.xml` hides it: the archive then reads as having no mod description. */
  lemma BadPathHidesModXml(bad: seq<u8>, rest: seq<IroEntry>)
    requires ParseUtf16(bad).Err?
    ensures FindEntry([IroEntry(bad)] + rest, ModXmlName) == Err(ParseUtf16(bad).error)
  {
  }
}
