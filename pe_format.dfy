/**
 * Reading the version resource of a PE image and the large-address-aware
 * patch of a 32-bit PE executable (core/src/pe_format.rs).
 *
 * The PE parser (pelite) is reduced to the header fields the patch touches:
 * the DOS header's `e_lfanew` at 0x3C, the "PE\0\0" signature, the COFF
 * `Characteristics` word at `e_lfanew + 22` and the PE32 optional header,
 * whose `CheckSum` field sits at `e_lfanew + 88` (sections 3.3 and 3.4 of the
 * Microsoft PE/COFF specification). The image checksum is a parameter.
 */
module PeFormat {
  import opened Wrappers
  import opened Ints

  datatype Error = IoError | PeliteError | PeliteFindError | NoVersion

  /** `IMAGE_FILE_LARGE_ADDRESS_AWARE`, bit 5 of the COFF characteristics. */
  const LargeAddressAware := 0x20

  const CharacteristicsOffset := 22
  const ChecksumOffset := 88

  /** A little-endian `u16` at `off`. */
  function ReadU16(b: seq<u8>, off: nat): u16
    requires off + 2 <= |b|
  {
    U16FromLe(b[off], b[off + 1])
  }

  /** A little-endian `u32` at `off`. */
  function ReadU32(b: seq<u8>, off: nat): u32
    requires off + 4 <= |b|
  {
    U32FromLe(b[off], b[off + 1], b[off + 2], b[off + 3])
  }

  /** The DOS header's `e_lfanew`: where the NT headers start. */
  function ELfanew(b: seq<u8>): u32
    requires |b| >= 0x40
  {
    ReadU32(b, 0x3C)
  }

  /**
   * The bytes parse as a PE32 image: "MZ" magic, NT headers after the 64-byte
   * DOS header, the "PE\0\0" signature, the PE32 optional-header magic 0x10B,
   * and room for the header fields up to and including `CheckSum`.
   */
  predicate IsPe32(b: seq<u8>) {
    |b| >= 0x40 && b[0] == 0x4D && b[1] == 0x5A
    && var e := ELfanew(b) as nat;
       0x40 <= e && e + ChecksumOffset + 4 <= |b|
       && b[e] == 0x50 && b[e + 1] == 0x45 && b[e + 2] == 0 && b[e + 3] == 0
       && ReadU16(b, e + 24) == 0x10B
  }

  /** `FileHeader.Characteristics`. */
  function Characteristics(b: seq<u8>): u16
    requires IsPe32(b)
  {
    ReadU16(b, ELfanew(b) as nat + CharacteristicsOffset)
  }

  /** The `CheckSum` field of the optional header. */
  function StoredChecksum(b: seq<u8>): u32
    requires IsPe32(b)
  {
    ReadU32(b, ELfanew(b) as nat + ChecksumOffset)
  }

  /** `characteristics & IMAGE_FILE_LARGE_ADDRESS_AWARE != 0`: bit 5 is set. */
  predicate HasLargeAddressAware(c: u16) {
    (c / LargeAddressAware) % 2 == 1
  }

  /** `characteristics | IMAGE_FILE_LARGE_ADDRESS_AWARE`: OR with a single bit adds it when it is clear. */
  function WithLargeAddressAware(c: u16): u16 {
    if HasLargeAddressAware(c) then c else c + LargeAddressAware
  }

  /** The OR sets the flag, keeps the bits below and above it, and changes nothing when the flag was set. */
  lemma WithLargeAddressAwareBits(c: u16)
    ensures HasLargeAddressAware(WithLargeAddressAware(c))
    ensures WithLargeAddressAware(c) % LargeAddressAware == c % LargeAddressAware
    ensures WithLargeAddressAware(c) / (2 * LargeAddressAware) == c / (2 * LargeAddressAware)
    ensures WithLargeAddressAware(c) == c <==> HasLargeAddressAware(c)
  {
  }

  /** The bytes after seeking to `off` and writing `w` over what was there. */
  function WriteBytes(b: seq<u8>, off: nat, w: seq<u8>): seq<u8>
    requires off + |w| <= |b|
  {
    b[..off] + w + b[off + |w|..]
  }

  /** The write keeps the length, puts `w` at `off` and leaves every other byte alone. */
  lemma WriteBytesAt(b: seq<u8>, off: nat, w: seq<u8>)
    requires off + |w| <= |b|
    ensures |WriteBytes(b, off, w)| == |b|
    ensures forall i :: 0 <= i < |b| && !(off <= i < off + |w|) ==> WriteBytes(b, off, w)[i] == b[i]
    ensures forall i :: 0 <= i < |w| ==> WriteBytes(b, off, w)[off + i] == w[i]
  {
  }

  /** The file after the first write: the OR-ed characteristics, little-endian, at `e_lfanew + 22`. */
  function CharacteristicsWritten(b: seq<u8>): seq<u8>
    requires IsPe32(b)
  {
    WriteBytes(b, ELfanew(b) as nat + CharacteristicsOffset, U16ToLe(WithLargeAddressAware(Characteristics(b))))
  }

  /** The first write keeps every header field the parser looks at, so the file still parses. */
  lemma CharacteristicsWrittenParses(b: seq<u8>)
    requires IsPe32(b)
    ensures IsPe32(CharacteristicsWritten(b))
    ensures ELfanew(CharacteristicsWritten(b)) == ELfanew(b)
    ensures Characteristics(CharacteristicsWritten(b)) == WithLargeAddressAware(Characteristics(b))
  {
    var e := ELfanew(b) as nat;
    var b1 := CharacteristicsWritten(b);
    WriteBytesAt(b, e + CharacteristicsOffset, U16ToLe(WithLargeAddressAware(Characteristics(b))));
    assert b1[0x3C..0x40] == b[0x3C..0x40];
    assert ELfanew(b1) == ELfanew(b);
  }

  /**
   * The whole patch: the characteristics write, then the checksum of the file
   * as it is after that write, little-endian, at `e_lfanew + 88`.
   */
  function Patched(b: seq<u8>, checksum: seq<u8> -> u32): seq<u8>
    requires IsPe32(b)
  {
    var b1 := CharacteristicsWritten(b);
    WriteBytes(b1, ELfanew(b) as nat + ChecksumOffset, U32ToLe(checksum(b1)))
  }

  /**
   * The patched file is a PE32 image with the flag set (so patching it again
   * reports `Ok(false)` and writes nothing), its characteristics are the old
   * ones OR-ed with the flag, and its checksum field holds the checksum of the
   * file as it stood after the characteristics write.
   */
  lemma PatchedFields(b: seq<u8>, checksum: seq<u8> -> u32)
    requires IsPe32(b)
    ensures IsPe32(Patched(b, checksum))
    ensures ELfanew(Patched(b, checksum)) == ELfanew(b)
    ensures Characteristics(Patched(b, checksum)) == WithLargeAddressAware(Characteristics(b))
    ensures HasLargeAddressAware(Characteristics(Patched(b, checksum)))
    ensures StoredChecksum(Patched(b, checksum)) == checksum(CharacteristicsWritten(b))
  {
    CharacteristicsWrittenParses(b);
    WithLargeAddressAwareBits(Characteristics(b));
    var b1 := CharacteristicsWritten(b);
    var p := Patched(b, checksum);
    WriteBytesAt(b1, ELfanew(b) as nat + ChecksumOffset, U32ToLe(checksum(b1)));
    assert p[0x3C..0x40] == b1[0x3C..0x40];
  }

  /** Only `[e_lfanew+22, e_lfanew+24)` and `[e_lfanew+88, e_lfanew+92)` differ; the length is kept. */
  lemma PatchedFrame(b: seq<u8>, checksum: seq<u8> -> u32)
    requires IsPe32(b)
    ensures |Patched(b, checksum)| == |b|
    ensures forall i :: 0 <= i < |b|
                        && !(ELfanew(b) as nat + CharacteristicsOffset <= i < ELfanew(b) as nat + CharacteristicsOffset + 2)
                        && !(ELfanew(b) as nat + ChecksumOffset <= i < ELfanew(b) as nat + ChecksumOffset + 4)
                        ==> Patched(b, checksum)[i] == b[i]
  {
    var b1 := CharacteristicsWritten(b);
    WriteBytesAt(b, ELfanew(b) as nat + CharacteristicsOffset, U16ToLe(WithLargeAddressAware(Characteristics(b))));
    WriteBytesAt(b1, ELfanew(b) as nat + ChecksumOffset, U32ToLe(checksum(b1)));
  }

  /** Seek to `off` and write `w` in place. */
  method WriteAt(file: array<u8>, off: nat, w: seq<u8>)
    requires off + |w| <= file.Length
    modifies file
    ensures file[..] == WriteBytes(old(file[..]), off, w)
  {
    for k := 0 to |w|
      invariant file[..] == old(file[..])[..off] + w[..k] + old(file[..])[off + k..]
    {
      file[off + k] := w[k];
    }
  }

  /**
   * What `pe_patch_4bg` returns and what the file then holds. `writable`
   * stands for the first open for writing; `reopened` for the opens after the
   * first write, the mapping for the checksum and the second open for writing;
   * `checksum` is pelite's `check_sum` of a parsed image. When a later open
   * fails, the first write stays in the file.
   */
  function PatchOutcome(b: seq<u8>, writable: bool, reopened: bool, checksum: seq<u8> -> u32): (Result<bool, Error>, seq<u8>) {
    if !IsPe32(b) then (Err(PeliteError), b)
    else if HasLargeAddressAware(Characteristics(b)) then (Ok(false), b)
    else if !writable then (Err(IoError), b)
    else if !reopened then (Err(IoError), CharacteristicsWritten(b))
    else (Ok(true), Patched(b, checksum))
  }

  /**
   * The file is written only by a successful patch or by a patch whose later
   * opens fail after the first write; once a patch has succeeded, patching the
   * result again reports `Ok(false)` and leaves it as it is.
   */
  lemma PatchIdempotent(b: seq<u8>, writable: bool, reopened: bool, checksum: seq<u8> -> u32)
    ensures PatchOutcome(b, writable, reopened, checksum).0 != Ok(true) && PatchOutcome(b, writable, reopened, checksum).1 != b ==>
              IsPe32(b) && PatchOutcome(b, writable, reopened, checksum) == (Err(IoError), CharacteristicsWritten(b))
    ensures PatchOutcome(b, writable, reopened, checksum).0.Ok? ==>
              var p := PatchOutcome(b, writable, reopened, checksum).1;
              forall w: bool, o: bool :: PatchOutcome(p, w, o, checksum) == (Ok(false), p)
  {
    if IsPe32(b) && !HasLargeAddressAware(Characteristics(b)) && writable && reopened {
      PatchedFields(b, checksum);
    }
  }

  /**
   * A failure after the first write leaves the flag set and the old checksum
   * in place, and returns an error; every later run then sees the flag,
   * reports `Ok(false)` and never writes the checksum.
   */
  lemma {:induction false} StaleChecksum(b: seq<u8>, checksum: seq<u8> -> u32)
    requires IsPe32(b) && !HasLargeAddressAware(Characteristics(b))
    ensures var (r, f) := PatchOutcome(b, true, false, checksum);
      && r == Err(IoError)
      && IsPe32(f)
      && HasLargeAddressAware(Characteristics(f))
      && StoredChecksum(f) == StoredChecksum(b)
      && forall w: bool, o: bool :: PatchOutcome(f, w, o, checksum) == (Ok(false), f)
  {
    var e := ELfanew(b) as nat;
    var f := CharacteristicsWritten(b);
    CharacteristicsWrittenParses(b);
    WithLargeAddressAwareBits(Characteristics(b));
    WriteBytesAt(b, e + CharacteristicsOffset, U16ToLe(WithLargeAddressAware(Characteristics(b))));
    assert f[e + ChecksumOffset..e + ChecksumOffset + 4] == b[e + ChecksumOffset..e + ChecksumOffset + 4];
  }

  /** `pe_patch_4bg` on the file's bytes: two seek-and-write steps on the array. */
  method PePatch4gb(file: array<u8>, writable: bool, reopened: bool, checksum: seq<u8> -> u32) returns (r: Result<bool, Error>)
    modifies file
    ensures (r, file[..]) == PatchOutcome(old(file[..]), writable, reopened, checksum)
  {
    var b := file[..];
    if !IsPe32(b) {
      return Err(PeliteError);
    }
    if HasLargeAddressAware(Characteristics(b)) {
      return Ok(false);
    }
    var e := ELfanew(b) as nat;
    var characteristics := WithLargeAddressAware(Characteristics(b));
    if !writable {
      return Err(IoError);
    }
    WriteAt(file, e + CharacteristicsOffset, U16ToLe(characteristics));
    // The file is mapped and parsed again; the write left its headers valid.
    var b1 := file[..];
    assert b1 == CharacteristicsWritten(b);
    if !reopened {
      return Err(IoError);
    }
    CharacteristicsWrittenParses(b);
    var sum := checksum(b1);
    WriteAt(file, e + ChecksumOffset, U32ToLe(sum));
    assert file[..] == Patched(b, checksum);
    return Ok(true);
  }

  /** `VS_FIXEDFILEINFO.dwProductVersion`, as four 16-bit parts. */
  datatype VsVersion = VsVersion(major: u16, minor: u16, patch: u16, build: u16)

  /**
   * The version resource as pelite hands it over: the (key, value) strings in
   * visiting order, already decoded from UTF-16, and the fixed file info.
   */
  datatype VersionResource = VersionResource(strings: seq<(string, string)>, fixed: Option<VsVersion>)

  datatype VersionInfo = VersionInfo(productVersion: VsVersion, productName: Option<string>, originalFilename: Option<string>)

  predicate Qualifies(entry: (string, string), key: string) {
    entry.0 == key && entry.1 != ""
  }

  /** The first non-empty value stored under `key`. */
  function FirstNonEmpty(strings: seq<(string, string)>, key: string): Option<string> {
    if strings == [] then None
    else if Qualifies(strings[0], key) then Some(strings[0].1)
    else FirstNonEmpty(strings[1..], key)
  }

  /** None exactly when no entry qualifies; otherwise the value of the earliest qualifying entry. */
  lemma {:induction false} FirstNonEmptySpec(strings: seq<(string, string)>, key: string)
    ensures FirstNonEmpty(strings, key).None? <==> forall j :: 0 <= j < |strings| ==> !Qualifies(strings[j], key)
    ensures FirstNonEmpty(strings, key).Some? ==>
              exists i :: 0 <= i < |strings| && Qualifies(strings[i], key) && FirstNonEmpty(strings, key).value == strings[i].1
                          && forall j :: 0 <= j < i ==> !Qualifies(strings[j], key)
  {
    if strings != [] && !Qualifies(strings[0], key) {
      FirstNonEmptySpec(strings[1..], key);
      assert forall j :: 1 <= j < |strings| ==> strings[j] == strings[1..][j - 1];
      if FirstNonEmpty(strings, key).Some? {
        var i :| 0 <= i < |strings[1..]| && Qualifies(strings[1..][i], key) && FirstNonEmpty(strings, key).value == strings[1..][i].1
                 && forall j :: 0 <= j < i ==> !Qualifies(strings[1..][j], key);
        assert Qualifies(strings[i + 1], key);
      }
    }
  }

  /** Seeing one more entry changes the answer only while nothing has qualified yet. */
  lemma {:induction false} FirstNonEmptySnoc(strings: seq<(string, string)>, entry: (string, string), key: string)
    ensures FirstNonEmpty(strings + [entry], key)
            == if FirstNonEmpty(strings, key).Some? then FirstNonEmpty(strings, key)
               else if Qualifies(entry, key) then Some(entry.1) else None
  {
    if strings != [] {
      assert (strings + [entry])[1..] == strings[1..] + [entry];
      FirstNonEmptySnoc(strings[1..], entry, key);
    }
  }

  /**
   * `pe_version_info`: the visitor keeps the first non-empty "ProductName" and
   * the first non-empty "OriginalFilename"; missing fixed info is `NoVersion`.
   */
  method PeVersionInfo(resource: Result<VersionResource, Error>) returns (r: Result<VersionInfo, Error>)
    ensures resource.Err? ==> r == Err(resource.error)
    ensures resource.Ok? && resource.value.fixed.None? ==> r == Err(NoVersion)
    ensures resource.Ok? && resource.value.fixed.Some? ==>
              r == Ok(VersionInfo(resource.value.fixed.value,
                                  FirstNonEmpty(resource.value.strings, "ProductName"),
                                  FirstNonEmpty(resource.value.strings, "OriginalFilename")))
  {
    if resource.Err? {
      return Err(resource.error);
    }
    var strings := resource.value.strings;
    var productName: Option<string> := None;
    var originalFilename: Option<string> := None;
    for k := 0 to |strings|
      invariant productName == FirstNonEmpty(strings[..k], "ProductName")
      invariant originalFilename == FirstNonEmpty(strings[..k], "OriginalFilename")
    {
      var (name, str) := strings[k];
      FirstNonEmptySnoc(strings[..k], strings[k], "ProductName");
      FirstNonEmptySnoc(strings[..k], strings[k], "OriginalFilename");
      assert strings[..k + 1] == strings[..k] + [strings[k]];
      if name == "ProductName" && str != "" && productName.None? {
        productName := Some(str);
      } else if name == "OriginalFilename" && str != "" && originalFilename.None? {
        originalFilename := Some(str);
      }
    }
    assert strings[..|strings|] == strings;
    match resource.value.fixed {
      case Some(info) => return Ok(VersionInfo(info, productName, originalFilename));
      case None => return Err(NoVersion);
    }
  }
}
