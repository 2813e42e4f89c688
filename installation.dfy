/**
 * Detection of an FF8 installation (core/src/game/installation.rs): the edition
 * and language from marker files, the launcher-executable rule, the
 * version/publisher fingerprint read from fixed offsets of the executable, the
 * per-edition executable names and configuration directories, and the search
 * over the Steam libraries.
 */
module Installation {
  import opened Wrappers
  import opened Ints
  import opened Paths
  import opened Text
  import opened Decimal
  import Steam

  datatype Edition = Standard | Steam | Remastered

  datatype Version = Unknown | V100 | V120 | V120NV

  datatype Publisher = EaJp | EaUs | EidosDe | EidosFr | EidosIt | EidosSp | EidosUk

  datatype Installation = Installation(
    appPath: Path,
    exeName: string,
    edition: Edition,
    version: Option<(Version, Publisher)>,
    language: string,
    configPath: Path)

  datatype FromExeError = NotFound | LauncherSelected

  /** Why reading the executable failed: it could not be opened, or it ended before the word sought. */
  datatype ReadError = CannotOpen | UnexpectedEof

  /** `get_app_id`: the enum discriminant, which is the Steam app id of the two Steam editions. */
  function AppId(e: Edition): (id: nat)
    ensures e.Standard? <==> id == 0
  {
    match e
    case Standard => 0
    case Steam => 39150
    case Remastered => 1026680
  }

  lemma AppIdInjective(a: Edition, b: Edition)
    ensures AppId(a) == AppId(b) <==> a == b
  {
  }

  /** `exe_path`. */
  function ExePath(inst: Installation): Path {
    Join(inst.appPath, inst.exeName)
  }

  /*
   * Version fingerprint.
   */

  /** Seeking to `offset` and `read_exact` of 4 bytes, read as a little-endian word. */
  function ReadWordAt(bytes: seq<u8>, offset: nat): (r: Option<u32>)
    ensures r.Some? <==> offset + 4 <= |bytes|
  {
    if offset + 4 <= |bytes| then
      Some(U32FromLe(bytes[offset], bytes[offset + 1], bytes[offset + 2], bytes[offset + 3]))
    else None
  }

  /** One row of the fingerprint table: the words at 0x1004 and 0x1404 and what they identify. */
  datatype Signature = Signature(check1: u32, check2: u32, version: Version, publisher: Publisher)

  /** The twelve fingerprints with a fixed answer, in the order they are tried. */
  const Signatures: seq<Signature> := [
    Signature(0x3885048D, 0x159618, V120, EaUs),
    Signature(0x3885048D, 0x1597C8, V120NV, EaUs),
    Signature(0x1085048D, 0x159B48, V120, EidosFr),
    Signature(0x1085048D, 0x159CF8, V120NV, EidosFr),
    Signature(0xA885048D, 0x159C48, V120, EidosDe),
    Signature(0xA885048D, 0x159DF8, V120NV, EidosDe),
    Signature(0x8085048D, 0x159C38, V120, EidosSp),
    Signature(0x8085048D, 0x159DE8, V120NV, EidosSp),
    Signature(0xB885048D, 0x159BC8, V120, EidosIt),
    Signature(0xB885048D, 0x159D78, V120NV, EidosIt),
    Signature(0x2885048D, 0x159598, V120, EidosUk),
    Signature(0x2885048D, 0x159748, V120NV, EidosUk)
  ]

  /** The Japanese edition's pair, which needs a third word (at 0x1010) to tell the two versions apart. */
  const EaJpCheck1: u32 := 0x1B6E9CC
  const EaJpCheck2: u32 := 0x7C8DFFC9
  const EaJpNvCheck3: u32 := 0x24AC

  datatype Classification = Known(version: Version, publisher: Publisher) | NeedsThirdWord | Unmatched

  /** The if-chain of `get_version_from_exe` on the first two words. */
  function ClassifyPair(w1: u32, w2: u32): Classification {
    if w1 == 0x3885048D && w2 == 0x159618 then Known(V120, EaUs)
    else if w1 == 0x3885048D && w2 == 0x1597C8 then Known(V120NV, EaUs)
    else if w1 == 0x1085048D && w2 == 0x159B48 then Known(V120, EidosFr)
    else if w1 == 0x1085048D && w2 == 0x159CF8 then Known(V120NV, EidosFr)
    else if w1 == 0xA885048D && w2 == 0x159C48 then Known(V120, EidosDe)
    else if w1 == 0xA885048D && w2 == 0x159DF8 then Known(V120NV, EidosDe)
    else if w1 == 0x8085048D && w2 == 0x159C38 then Known(V120, EidosSp)
    else if w1 == 0x8085048D && w2 == 0x159DE8 then Known(V120NV, EidosSp)
    else if w1 == 0xB885048D && w2 == 0x159BC8 then Known(V120, EidosIt)
    else if w1 == 0xB885048D && w2 == 0x159D78 then Known(V120NV, EidosIt)
    else if w1 == 0x2885048D && w2 == 0x159598 then Known(V120, EidosUk)
    else if w1 == 0x2885048D && w2 == 0x159748 then Known(V120NV, EidosUk)
    else if w1 == EaJpCheck1 && w2 == EaJpCheck2 then NeedsThirdWord
    else Unmatched
  }

  /** Some table row carries this pair. */
  predicate InTable(w1: u32, w2: u32) {
    exists i :: 0 <= i < |Signatures| && Signatures[i].check1 == w1 && Signatures[i].check2 == w2
  }

  /** Each listed pair gets exactly its row's answer. */
  lemma ListedPairsKnown()
    ensures forall i :: 0 <= i < |Signatures| ==>
      ClassifyPair(Signatures[i].check1, Signatures[i].check2) == Known(Signatures[i].version, Signatures[i].publisher)
  {
  }

  /**
   * The if-chain is the table: the pairs answered directly are exactly the
   * listed ones, the Japanese pair asks for the third word, and every other
   * pair is unmatched.
   */
  lemma ClassifyPairIsTable(w1: u32, w2: u32)
    ensures ClassifyPair(w1, w2).Known? <==> InTable(w1, w2)
    ensures ClassifyPair(w1, w2).NeedsThirdWord? <==> w1 == EaJpCheck1 && w2 == EaJpCheck2
    ensures ClassifyPair(w1, w2).Unmatched? <==> !InTable(w1, w2) && !(w1 == EaJpCheck1 && w2 == EaJpCheck2)
  {
    ListedPairsKnown();
    if ClassifyPair(w1, w2).Known? {
      var s0, s1, s2, s3 := Signatures[0], Signatures[1], Signatures[2], Signatures[3];
      var s4, s5, s6, s7 := Signatures[4], Signatures[5], Signatures[6], Signatures[7];
      var s8, s9, s10, s11 := Signatures[8], Signatures[9], Signatures[10], Signatures[11];
    }
  }

  /** The table's pairs are all distinct, so the order the chain tries them in does not matter. */
  lemma SignaturesDistinct()
    ensures forall i, j :: 0 <= i < j < |Signatures| ==>
      (Signatures[i].check1, Signatures[i].check2) != (Signatures[j].check1, Signatures[j].check2)
    ensures !InTable(EaJpCheck1, EaJpCheck2)
  {
  }

  /** The fingerprint of an executable's bytes: the reads at 0x1004 and 0x1404, then the chain, then 0x1010 when needed. */
  function VersionOfBytes(bytes: seq<u8>): (r: Result<Option<(Version, Publisher)>, ReadError>)
    ensures r.Err? <==> |bytes| < 0x1408
    ensures r.Err? ==> r.error == UnexpectedEof
    ensures r.Ok? && r.value.Some? ==> r.value.value.0 in {V120, V120NV}
  {
    match ReadWordAt(bytes, 0x1004)
    case None => Err(UnexpectedEof)
    case Some(w1) =>
      match ReadWordAt(bytes, 0x1404)
      case None => Err(UnexpectedEof)
      case Some(w2) =>
        match ClassifyPair(w1, w2)
        case Known(v, p) => Ok(Some((v, p)))
        case Unmatched => Ok(None)
        case NeedsThirdWord =>
          match ReadWordAt(bytes, 0x1010)
          case None => Err(UnexpectedEof)
          case Some(w3) => Ok(Some((if w3 == EaJpNvCheck3 then V120NV else V120, EaJp)))
  }

  /** `get_version_from_exe`: open the file, then fingerprint its bytes. */
  function GetVersionFromExe(fs: FileSystem, exePath: Path): (r: Result<Option<(Version, Publisher)>, ReadError>)
    ensures r == Err(CannotOpen) <==> exePath !in fs.files
    ensures exePath in fs.files ==> r == VersionOfBytes(fs.files[exePath].bytes)
  {
    match ReadBytes(fs, exePath)
    case None => Err(CannotOpen)
    case Some(bytes) => VersionOfBytes(bytes)
  }

  /** An executable carrying a listed fingerprint is identified as that row says. */
  lemma VersionOfListedExe(bytes: seq<u8>, s: Signature)
    requires |bytes| >= 0x1408 && s in Signatures
    requires ReadWordAt(bytes, 0x1004) == Some(s.check1) && ReadWordAt(bytes, 0x1404) == Some(s.check2)
    ensures VersionOfBytes(bytes) == Ok(Some((s.version, s.publisher)))
  {
    ListedPairsKnown();
  }

  /** An executable whose pair is in no row and is not the Japanese pair is not identified, and that is not an error. */
  lemma VersionOfUnlistedExe(bytes: seq<u8>)
    requires |bytes| >= 0x1408
    requires !InTable(ReadWordAt(bytes, 0x1004).value, ReadWordAt(bytes, 0x1404).value)
    requires (ReadWordAt(bytes, 0x1004).value, ReadWordAt(bytes, 0x1404).value) != (EaJpCheck1, EaJpCheck2)
    ensures VersionOfBytes(bytes) == Ok(None)
  {
    ClassifyPairIsTable(ReadWordAt(bytes, 0x1004).value, ReadWordAt(bytes, 0x1404).value);
  }

  /** The Japanese pair: the word at 0x1010 decides, 0x24AC meaning the NV build; that read cannot fail. */
  lemma VersionOfEaJpExe(bytes: seq<u8>)
    requires |bytes| >= 0x1408
    requires ReadWordAt(bytes, 0x1004) == Some(EaJpCheck1) && ReadWordAt(bytes, 0x1404) == Some(EaJpCheck2)
    ensures VersionOfBytes(bytes) ==
      Ok(Some((if ReadWordAt(bytes, 0x1010).value == EaJpNvCheck3 then V120NV else V120, EaJp)))
  {
  }

  /*
   * Language.
   */

  /** `get_steam_edition_lang`: the contents of `lang.dat`, ASCII-uppercased. */
  function GetSteamEditionLang(fs: FileSystem, appPath: Path): (r: Option<string>)
    ensures r.Some? <==> ReadToString(fs, Join(appPath, "lang.dat")).Some?
    ensures r.Some? ==> var text := ReadToString(fs, Join(appPath, "lang.dat")).value;
      |r.value| == |text| && forall i :: 0 <= i < |text| ==> r.value[i] == AsciiUpperChar(text[i])
  {
    match ReadToString(fs, Join(appPath, "lang.dat"))
    case None => None
    case Some(text) => Some(ToAsciiUppercase(text))
  }

  /** The directory prefix searched for in `Data/main.fl`. */
  const LangMarker := "ff8\\data\\"

  /**
   * `get_standard_edition_lang` on the text of `main.fl`, as written: the three
   * characters after the first marker, cut to two when the third is a backslash.
   * The slice panics when fewer than three characters follow the marker; `None`
   * stands for that panic.
   */
  function StandardLangAsWritten(contents: string): Option<string> {
    match IndexOf(contents, LangMarker)
    case None => Some("eng")
    case Some(idx) =>
      if idx + 12 > |contents| then None
      else
        var lang := contents[idx + 9..idx + 12];
        if lang[2] == '\\' then Some(contents[idx + 9..idx + 11]) else Some(lang)
  }

  /** A `main.fl` whose marker is followed by a two-letter language and nothing else makes it panic. */
  lemma StandardLangAsWrittenPanics()
    ensures StandardLangAsWritten("c:\\ff8\\data\\fr") == None
  {
    var c := "c:\\ff8\\data\\fr";
    assert c[3..12] == LangMarker;
    assert c[0..9][0] != LangMarker[0];
    assert c[1..10][0] != LangMarker[0];
    assert c[2..11][0] != LangMarker[0];
  }

  /**
   * The language as evidently intended: the (at most three) characters after
   * the first marker, without a trailing backslash, "eng" when there is no
   * marker. It never fails.
   */
  function StandardLang(contents: string): string {
    match IndexOf(contents, LangMarker)
    case None => "eng"
    case Some(idx) =>
      var end := if idx + 12 <= |contents| then idx + 12 else |contents|;
      var lang := contents[idx + 9..end];
      if |lang| > 0 && lang[|lang| - 1] == '\\' then lang[..|lang| - 1] else lang
  }

  lemma StandardLangShape(contents: string)
    ensures IndexOf(contents, LangMarker).None? ==> StandardLang(contents) == "eng"
    ensures IndexOf(contents, LangMarker).Some? ==> var start := IndexOf(contents, LangMarker).value + 9;
      var r := StandardLang(contents);
      |r| <= 3 && r <= contents[start..]
  {
  }

  /** Wherever the code as written returns a language, the corrected reading returns the same one. */
  lemma StandardLangAgrees(contents: string)
    requires StandardLangAsWritten(contents).Some?
    ensures StandardLang(contents) == StandardLangAsWritten(contents).value
  {
  }

  /** `get_standard_edition_lang`: fails only when `Data/main.fl` cannot be read as text. */
  function GetStandardEditionLang(fs: FileSystem, appPath: Path): (r: Option<string>)
    ensures r.Some? <==> ReadToString(fs, Join(Join(appPath, "Data"), "main.fl")).Some?
    ensures r.Some? ==> r.value == StandardLang(ReadToString(fs, Join(Join(appPath, "Data"), "main.fl")).value)
  {
    match ReadToString(fs, Join(Join(appPath, "Data"), "main.fl"))
    case None => None
    case Some(text) => Some(StandardLang(text))
  }

  /*
   * Configuration directory (the unix variant: inside the Proton prefix of the app).
   */

  /** `../../compatdata/{app id}` beside the app directory. */
  function CompatData(e: Edition, appPath: Path): Path {
    Join(Join(Join(Join(appPath, ".."), ".."), "compatdata"), NatToString(AppId(e)))
  }

  function JoinAll(p: Path, names: seq<string>): Path
    decreases |names|
  {
    if names == [] then p else JoinAll(Join(p, names[0]), names[1..])
  }

  /** The components below the Proton prefix where each Steam edition keeps its configuration. */
  function ConfigTail(e: Edition): seq<string> {
    match e
    case Standard => []
    case Steam => ["pfx", "drive_c", "users", "steamuser", "My Documents", "Square Enix", "FINAL FANTASY VIII Steam"]
    case Remastered =>
      ["pfx", "drive_c", "users", "steamuser", "My Documents", "My Games", "FINAL FANTASY VIII Remastered", "game_data"]
  }

  /** `get_config_path` on unix: the app directory itself, or the edition's directory inside its Proton prefix. */
  function ConfigPath(e: Edition, appPath: Path): Path {
    if e.Standard? then appPath else JoinAll(CompatData(e, appPath), ConfigTail(e))
  }

  /** The two Steam editions keep their configuration under different Proton prefixes. */
  lemma CompatDataDistinct(appPath: Path)
    ensures CompatData(Steam, appPath) != CompatData(Remastered, appPath)
  {
    var base := Join(Join(Join(appPath, ".."), ".."), "compatdata");
    var a := NatToString(39150);
    var b := NatToString(1026680);
    assert |a| == 5 && |b| == 7;
    assert base != "" && base[|base| - 1] != '/';
    assert CompatData(Steam, appPath) == base + "/" + a;
    assert CompatData(Remastered, appPath) == base + "/" + b;
  }

  /*
   * Constructors.
   */

  /** The launcher names that must not be taken for the game (compared lower-cased). */
  predicate IsLauncherName(name: string) {
    var lower := ToAsciiLowercase(name);
    Contains(lower, "launcher") || Contains(lower, "chocobo")
  }

  /** The name of the Steam edition's executable for a language. */
  function SteamExeName(language: string): string {
    "FF8_" + language + ".exe"
  }

  /** Edition and language as `from_exe_path` detects them: Steam when `lang.dat` is readable. */
  function DetectEditionLang(fs: FileSystem, appPath: Path): (r: (Edition, string))
    ensures r.0.Steam? <==> GetSteamEditionLang(fs, appPath).Some?
    ensures r.0.Steam? ==> r.1 == GetSteamEditionLang(fs, appPath).value
    ensures !r.0.Steam? ==> r.0.Standard? && r.1 == GetStandardEditionLang(fs, appPath).GetOr("eng")
  {
    match GetSteamEditionLang(fs, appPath)
    case Some(lang) => (Steam, lang)
    case None => (Standard, GetStandardEditionLang(fs, appPath).GetOr("eng"))
  }

  /** `from_exe_path`. */
  function FromExePath(fs: FileSystem, exePath: Path): (r: Result<Installation, FromExeError>)
    ensures r == Err(NotFound) <==> !Exists(fs, exePath)
    ensures r.Ok? ==>
      && r.value.appPath == Parent(exePath)
      && (r.value.edition, r.value.language) == DetectEditionLang(fs, Parent(exePath))
      && r.value.version == GetVersionFromExe(fs, ExePath(r.value)).UnwrapOr(None)
      && r.value.configPath == ConfigPath(r.value.edition, r.value.appPath)
    ensures Exists(fs, exePath) && !IsLauncherName(FileName(exePath)) ==>
      r.Ok? && r.value.exeName == FileName(exePath)
    ensures Exists(fs, exePath) && IsLauncherName(FileName(exePath)) ==>
      var (edition, language) := DetectEditionLang(fs, Parent(exePath));
      (r.Ok? <==> edition.Steam? && Exists(fs, Join(Parent(exePath), SteamExeName(language)))) &&
      (r.Ok? ==> r.value.exeName == SteamExeName(language)) &&
      (r.Err? ==> r.error == LauncherSelected)
  {
    if !Exists(fs, exePath) then Err(NotFound)
    else
      var appPath := Parent(exePath);
      var (edition, language) := DetectEditionLang(fs, appPath);
      var exeName := FileName(exePath);
      if IsLauncherName(exeName) && !edition.Steam? then Err(LauncherSelected)
      else
        var exeName := if IsLauncherName(exeName) then SteamExeName(language) else exeName;
        if IsLauncherName(FileName(exePath)) && !Exists(fs, Join(appPath, exeName)) then Err(LauncherSelected)
        else
          var version := GetVersionFromExe(fs, Join(appPath, exeName)).UnwrapOr(None);
          Ok(Installation(appPath, exeName, edition, version, language, ConfigPath(edition, appPath)))
  }

  /** An installation built from an executable points back at an existing executable. */
  lemma FromExePathExeExists(fs: FileSystem, exePath: Path)
    requires FromExePath(fs, exePath).Ok?
    requires exePath != "" && exePath[|exePath| - 1] != '/' && !HasDoubleSlash(exePath)
    ensures Exists(fs, ExePath(FromExePath(fs, exePath).value))
  {
    if !IsLauncherName(FileName(exePath)) {
      JoinSplit(exePath);
    }
  }

  /** The language `from_directory` uses: the edition's marker file, else eng/en; the remaster is always en. */
  function DirectoryLanguage(fs: FileSystem, appPath: Path, e: Edition): string {
    match e
    case Standard => GetStandardEditionLang(fs, appPath).GetOr("eng")
    case Steam => GetSteamEditionLang(fs, appPath).GetOr("en")
    case Remastered => "en"
  }

  /** The executable `from_directory` expects for an edition. */
  function DirectoryExeName(e: Edition, language: string): string {
    match e
    case Standard => "FF8.exe"
    case Steam => SteamExeName(language)
    case Remastered => "FFVIII.exe"
  }

  /** `from_directory`. */
  function FromDirectory(fs: FileSystem, appPath: Path, e: Edition): Option<Installation> {
    var language := DirectoryLanguage(fs, appPath, e);
    var exeName := DirectoryExeName(e, language);
    var version := GetVersionFromExe(fs, Join(appPath, exeName)).UnwrapOr(None);
    if !Exists(fs, Join(appPath, exeName)) then None
    else Some(Installation(appPath, exeName, e, version, language, ConfigPath(e, appPath)))
  }

  /**
   * `from_directory` finds an installation exactly when the edition's executable
   * exists, and then records the edition's language, executable, version
   * (None when unreadable) and configuration directory.
   */
  lemma FromDirectorySpec(fs: FileSystem, appPath: Path, e: Edition)
    ensures var r := FromDirectory(fs, appPath, e);
      && (r.Some? <==> Exists(fs, Join(appPath, DirectoryExeName(e, DirectoryLanguage(fs, appPath, e)))))
      && (r.Some? ==>
        && r.value.edition == e && r.value.appPath == appPath
        && r.value.language == DirectoryLanguage(fs, appPath, e)
        && r.value.exeName == DirectoryExeName(e, r.value.language)
        && Exists(fs, ExePath(r.value))
        && r.value.version == GetVersionFromExe(fs, ExePath(r.value)).UnwrapOr(None)
        && r.value.configPath == ConfigPath(e, appPath))
  {
  }

  /** The app name each Steam edition is installed under. */
  function SteamAppName(e: Edition): string
    requires !e.Standard?
  {
    if e.Steam? then "FINAL FANTASY VIII" else "FINAL FANTASY VIII Remastered"
  }

  /** `search_steam_edition` / `search_remastered_edition` on unix. */
  function SearchEdition(fs: FileSystem, steam: Option<Steam.Steam>, e: Edition): (r: Option<Installation>)
    requires !e.Standard?
    ensures r.Some? ==> r.value.edition == e && Exists(fs, ExePath(r.value))
    ensures steam.None? ==> r.None?
  {
    match steam
    case None => None
    case Some(s) =>
      match Steam.FindApp(fs, s, AppId(e), SteamAppName(e))
      case None => None
      case Some(appPath) =>
        FromDirectorySpec(fs, appPath, e);
        FromDirectory(fs, appPath, e)
  }

  function Found<T>(o: Option<T>): seq<T> {
    if o.Some? then [o.value] else []
  }

  /** What `search` collects on unix: the Steam edition first, then the remaster, each when found. */
  function SearchResult(fs: FileSystem, steam: Option<Steam.Steam>): seq<Installation> {
    Found(SearchEdition(fs, steam, Steam)) + Found(SearchEdition(fs, steam, Remastered))
  }

  /** `search` on unix, pushing onto a vector. */
  method Search(fs: FileSystem, steam: Option<Steam.Steam>) returns (installations: seq<Installation>)
    ensures installations == SearchResult(fs, steam)
  {
    var steamFound := SearchEdition(fs, steam, Steam);
    var remasterFound := SearchEdition(fs, steam, Remastered);
    assert SearchResult(fs, steam) == Found(steamFound) + Found(remasterFound);
    installations := [];
    if steamFound.Some? {
      installations := installations + [steamFound.value];
    }
    assert installations == Found(steamFound);
    if remasterFound.Some? {
      installations := installations + [remasterFound.value];
    }
  }

  /**
   * Every installation found has an existing executable; there are at most two,
   * the Steam edition before the remaster; without a Steam client there are none.
   */
  lemma SearchResultShape(fs: FileSystem, steam: Option<Steam.Steam>)
    ensures var r := SearchResult(fs, steam);
      && |r| <= 2
      && (forall i :: 0 <= i < |r| ==> Exists(fs, ExePath(r[i])) && !r[i].edition.Standard?)
      && (|r| == 2 ==> r[0].edition.Steam? && r[1].edition.Remastered?)
      && (steam.None? ==> r == [])
  {
    var steamFound := SearchEdition(fs, steam, Steam);
    var remasterFound := SearchEdition(fs, steam, Remastered);
    var r := Found(steamFound) + Found(remasterFound);
    assert SearchResult(fs, steam) == r;
    forall i | 0 <= i < |r|
      ensures Exists(fs, ExePath(r[i])) && !r[i].edition.Standard?
    {
      if i == 0 && steamFound.Some? {
        assert r[i] == steamFound.value;
      } else {
        assert r[i] == remasterFound.value;
      }
    }
  }
}
