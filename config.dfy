/**
 * The launcher's own settings (core/src/config.rs): a TOML document holding
 * the selected executable, the update channel and the interface language,
 * read through the typed getters and written in place by the setters.
 */
module Config {
  import opened Wrappers
  import opened Ints
  import opened Paths
  import opened Toml
  import Inst = Installation

  const ExePathKey := "exe_path"
  const UpdateChannelKey := "update_channel"
  const LanguageKey := "language"

  datatype UpdateChannel = Stable | Beta | Alpha

  /** `update_channel as i64`: the declared discriminant. */
  function Ordinal(c: UpdateChannel): (n: i64)
    ensures 0 <= n <= 2
  {
    match c
    case Stable => 0
    case Beta => 1
    case Alpha => 2
  }

  /** The channel a stored integer stands for: 0, 1 and 2 by discriminant, anything else Stable. */
  function ChannelOf(n: i64): (c: UpdateChannel)
    ensures c.Beta? <==> n == 1
    ensures c.Alpha? <==> n == 2
    ensures c.Stable? <==> n != 1 && n != 2
  {
    if n == 1 then Beta else if n == 2 then Alpha else Stable
  }

  /** Storing a channel's discriminant and reading it back gives the channel. */
  lemma ChannelOfOrdinal(c: UpdateChannel)
    ensures ChannelOf(Ordinal(c)) == c
  {
  }

  /** The installation a settings document names (see `Config.Installation`). */
  function InstallationIn(doc: Document, fs: FileSystem): Result<Option<Inst.Installation>, Error> {
    match GetString(doc, ExePathKey, "")
    case Err(e) => Err(e)
    case Ok(exePath) =>
      if exePath == "" then Ok(None)
      else
        match Inst.FromExePath(fs, exePath)
        case Ok(inst) => Ok(Some(inst))
        case Err(_) => Err(DoesNotExist(ExePathKey))
  }

  /** The update channel a settings document holds (see `Config.UpdateChannel`). */
  function UpdateChannelIn(doc: Document): Result<UpdateChannel, Error> {
    match GetInteger(doc, UpdateChannelKey, 0)
    case Err(e) => Err(e)
    case Ok(n) => Ok(ChannelOf(n))
  }

  class Config {
    var inner: Document

    /** `Config::new` and `Config::default`: an empty document. */
    constructor ()
      ensures inner == map[]
    {
      inner := map[];
    }

    /** `Config::from_file`, given the document parsed from the file. */
    constructor FromDocument(doc: Document)
      ensures inner == doc
    {
      inner := doc;
    }

    /**
     * `installation`: no executable when `exe_path` is absent or empty; the
     * installation built from it otherwise, any failure of which is reported
     * as the key not existing.
     */
    function Installation(fs: FileSystem): (r: Result<Option<Inst.Installation>, Error>)
      reads this
      ensures GetString(inner, ExePathKey, "").Err? ==> r == Err(GetString(inner, ExePathKey, "").error)
      ensures r == Ok(None) <==> GetString(inner, ExePathKey, "") == Ok("")
      ensures GetString(inner, ExePathKey, "").Ok? && GetString(inner, ExePathKey, "").value != "" ==>
        var found := Inst.FromExePath(fs, GetString(inner, ExePathKey, "").value);
        (found.Ok? ==> r == Ok(Some(found.value))) && (found.Err? ==> r == Err(DoesNotExist(ExePathKey)))
    {
      InstallationIn(inner, fs)
    }

    /** `set_installation`: stores the executable path as a string; no other key changes. */
    method SetInstallation(inst: Inst.Installation)
      modifies this
      ensures inner == old(inner)[ExePathKey := Value(Str(Inst.ExePath(inst)))]
    {
      inner := inner[ExePathKey := Value(Str(Inst.ExePath(inst)))];
    }

    /** `update_channel`: Stable when absent; a type error propagates. */
    function UpdateChannel(): (r: Result<UpdateChannel, Error>)
      reads this
      ensures UpdateChannelKey !in inner ==> r == Ok(Stable)
      ensures r.Err? <==> GetInteger(inner, UpdateChannelKey, 0).Err?
      ensures r.Ok? && UpdateChannelKey in inner ==>
        var n := inner[UpdateChannelKey].v.i;
        inner[UpdateChannelKey].Value? && inner[UpdateChannelKey].v.Integer?
        && (r.value == Stable <==> n != 1 && n != 2) && (r.value == Beta <==> n == 1)
    {
      UpdateChannelIn(inner)
    }

    /** `set_update_channel`: stores the discriminant; reading the channel back gives it. */
    method SetUpdateChannel(c: UpdateChannel)
      modifies this
      ensures inner == old(inner)[UpdateChannelKey := Value(Integer(Ordinal(c)))]
      ensures UpdateChannel() == Ok(c)
    {
      inner := inner[UpdateChannelKey := Value(Integer(Ordinal(c)))];
      ChannelOfOrdinal(c);
    }

    /** `language`: "" when absent. */
    function Language(): (r: Result<string, Error>)
      reads this
      ensures LanguageKey !in inner ==> r == Ok("")
      ensures r == GetString(inner, LanguageKey, "")
    {
      GetString(inner, LanguageKey, "")
    }

    /** `set_language`: reading the language back gives it. */
    method SetLanguage(lang: string)
      modifies this
      ensures inner == old(inner)[LanguageKey := Value(Str(lang))]
      ensures Language() == Ok(lang)
    {
      inner := inner[LanguageKey := Value(Str(lang))];
    }
  }

  /**
   * An installation found from a well-formed executable path other than a
   * launcher, once stored with `set_installation`, reads back as itself.
   */
  lemma InstallationReadBack(doc: Document, fs: FileSystem, exePath: Path)
    requires exePath != [] && exePath[|exePath| - 1] != '/' && !HasDoubleSlash(exePath)
    requires !Inst.IsLauncherName(FileName(exePath))
    requires Inst.FromExePath(fs, exePath).Ok?
    requires ExePathKey in doc && doc[ExePathKey] == Value(Str(Inst.ExePath(Inst.FromExePath(fs, exePath).value)))
    ensures InstallationIn(doc, fs) == Ok(Some(Inst.FromExePath(fs, exePath).value))
  {
    JoinSplit(exePath);
  }
}
