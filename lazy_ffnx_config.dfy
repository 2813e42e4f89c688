/**
 * The interface's cache of the enhancement runtime's settings
 * (gui/src/lazy_ffnx_config.rs): the file is loaded on first use, written
 * back by `save` and forgotten by `save` and `clear`.
 *
 * Reading and writing the file are parameters: `loaded` is what
 * `FfnxConfig::from_file` would return at this moment, `written` what
 * `save_to_file` would return.
 */
module LazyFfnxConfig {
  import opened Wrappers
  import opened Ints
  import opened Paths
  import opened Toml
  import F = FfnxConfig

  datatype FileError = IoError | TomlError

  const ConfigFileName := "FFNx.toml"

  class LazyFfnxConfig {
    var config: F.FfnxConfig?
    const configPath: Path

    /** `LazyFfnxConfig::new`: nothing cached; the file is `FFNx.toml` in the runtime's directory. */
    constructor (ffnxDir: Path)
      ensures config == null
      ensures configPath == Join(ffnxDir, ConfigFileName)
    {
      config := null;
      configPath := Join(ffnxDir, ConfigFileName);
    }

    /**
     * `get`: loads the file only when nothing is cached, an unreadable or
     * malformed file giving an empty document; a cached configuration is
     * returned as it is.
     */
    method Get(loaded: Result<Document, FileError>) returns (c: F.FfnxConfig)
      modifies this
      ensures config == c
      ensures old(config) != null ==> c == old(config) && c.inner == old(config.inner)
      ensures old(config) == null ==> fresh(c) && c.inner == loaded.UnwrapOr(map[])
    {
      if config == null {
        var loadedConfig := new F.FfnxConfig.FromDocument(loaded.UnwrapOr(map[]));
        config := loadedConfig;
      }
      c := config;
    }

    /** `get_bool`: the stored boolean, or the default on any lookup error. */
    method GetBool(loaded: Result<Document, FileError>, key: string, default: bool) returns (b: bool)
      modifies this
      ensures config != null
      ensures old(config) != null ==> config == old(config) && config.inner == old(config.inner)
      ensures old(config) == null ==> fresh(config) && config.inner == loaded.UnwrapOr(map[])
      ensures b == BoolOrDefault(config.inner, key, default)
    {
      var c := Get(loaded);
      b := match c.GetBool(key, default) case Ok(v) => v case Err(_) => default;
    }

    /** `get_int`: the stored integer narrowed with `as i32`, or the default on any lookup error. */
    method GetInt(loaded: Result<Document, FileError>, key: string, default: i32) returns (n: i32)
      modifies this
      ensures config != null
      ensures old(config) != null ==> config == old(config) && config.inner == old(config.inner)
      ensures old(config) == null ==> fresh(config) && config.inner == loaded.UnwrapOr(map[])
      ensures n == IntOrDefault(config.inner, key, default)
    {
      var c := Get(loaded);
      n := match c.GetInt(key, default) case Ok(v) => I64AsI32(v) case Err(_) => default;
    }

    /**
     * `save`: with nothing cached, nothing is written and the result is Ok.
     * Otherwise the cached document is handed to the writer (`document`);
     * success forgets the cache, failure returns the error and keeps it.
     */
    method Save(written: Result<(), FileError>) returns (r: Result<(), FileError>, document: Option<Document>)
      modifies this
      ensures old(config) == null ==> r == Ok(()) && document == None && config == null
      ensures old(config) != null ==> document == Some(old(config.inner))
      ensures old(config) != null && written.Ok? ==> r == Ok(()) && config == null
      ensures old(config) != null && written.Err? ==> r == written && config == old(config)
    {
      document := None;
      if config != null {
        document := Some(config.inner);
        if written.Err? {
          return Err(written.error), document;
        }
      }
      Clear();
      r := Ok(());
    }

    /** `clear`: forgets the cached configuration. */
    method Clear()
      modifies this
      ensures config == null
    {
      config := null;
    }
  }

  /** What `get_bool` returns for a document. */
  function BoolOrDefault(doc: Document, key: string, default: bool): (b: bool)
    ensures key !in doc ==> b == default
    ensures key in doc && doc[key] == Value(Boolean(!default)) ==> b == !default
    ensures b != default ==> key in doc && doc[key] == Value(Boolean(b))
  {
    GetBoolean(doc, key, default).UnwrapOr(default)
  }

  /** What `get_int` returns for a document. */
  function IntOrDefault(doc: Document, key: string, default: i32): (n: i32)
    ensures key !in doc ==> n == default
    ensures n != default ==>
      key in doc && doc[key].Value? && doc[key].v.Integer? && (n - doc[key].v.i) % 0x1_0000_0000 == 0
  {
    match GetInteger(doc, key, default) case Ok(v) => I64AsI32(v) case Err(_) => default
  }

  /** A stored integer that fits in 32 bits reads back unchanged; one that does not wraps. */
  lemma IntOrDefaultWraps(doc: Document, key: string, default: i32, v: i64)
    requires key in doc && doc[key] == Value(Integer(v))
    ensures -0x8000_0000 <= v < 0x8000_0000 ==> IntOrDefault(doc, key, default) == v
    ensures v == 0x8000_0000 ==> IntOrDefault(doc, key, default) == -0x8000_0000
  {
  }

  /** A value of another type reads as the default, like an absent key. */
  lemma WrongTypeIsDefault(doc: Document, key: string, db: bool, di: i32)
    requires key in doc && doc[key].Value? && doc[key].v.Str?
    ensures BoolOrDefault(doc, key, db) == db
    ensures IntOrDefault(doc, key, di) == di
  {
  }
}
