/**
 * The enhancement runtime's settings file (core/src/game/ffnx_config.rs): a
 * TOML document read through typed getters and written in place.
 */
module FfnxConfig {
  import opened Wrappers
  import opened Ints
  import opened Toml

  const AppPathKey := "app_path"
  const FullscreenKey := "fullscreen"

  /*
   * The other settings the interface reads and writes, under the names the
   * runtime's settings file uses (`window_size_x` and its variants are
   * spelled out in gui/src/worker_loop.rs).
   */
  const RendererBackendKey := "renderer_backend"
  const BorderlessKey := "borderless"
  const EnableVsyncKey := "enable_vsync"
  const EnableAntialiasingKey := "enable_antialiasing"
  const EnableAnisotropicKey := "enable_anisotropic"
  const EnableBilinearKey := "enable_bilinear"
  const Ff8UseGamepadIconsKey := "ff8_use_gamepad_icons"
  const RefreshRateKey := "refresh_rate"
  const InternalResolutionScaleKey := "internal_resolution_scale"
  const WindowSizeXKey := "window_size_x"
  const WindowSizeYKey := "window_size_y"
  const WindowSizeXFullscreenKey := "window_size_x_fullscreen"
  const WindowSizeYFullscreenKey := "window_size_y_fullscreen"
  const WindowSizeXWindowKey := "window_size_x_window"
  const WindowSizeYWindowKey := "window_size_y_window"

  class FfnxConfig {
    var inner: Document

    /** `FfnxConfig::new` and `FfnxConfig::default`: an empty document. */
    constructor ()
      ensures inner == map[]
    {
      inner := map[];
    }

    /** `FfnxConfig::from_file`, given the document parsed from the file. */
    constructor FromDocument(doc: Document)
      ensures inner == doc
    {
      inner := doc;
    }

    /** `app_path`: "" when absent, a type error when not a string. */
    function AppPath(): (r: Result<string, Error>)
      reads this
      ensures AppPathKey !in inner ==> r == Ok("")
      ensures r.Err? <==> AppPathKey in inner && !(inner[AppPathKey].Value? && inner[AppPathKey].v.Str?)
      ensures r.Ok? && AppPathKey in inner ==> inner[AppPathKey] == Value(Str(r.value))
    {
      GetString(inner, AppPathKey, "")
    }

    /** `set_app_path`: the string reads back, and no other key changes. */
    method SetAppPath(value: string)
      modifies this
      ensures inner == old(inner)[AppPathKey := Value(Str(value))]
      ensures AppPath() == Ok(value)
      ensures Fullscreen() == old(Fullscreen())
    {
      inner := inner[AppPathKey := Value(Str(value))];
    }

    /** `fullscreen`: true when absent, a type error when not a boolean. */
    function Fullscreen(): (r: Result<bool, Error>)
      reads this
      ensures FullscreenKey !in inner ==> r == Ok(true)
      ensures r.Err? <==> FullscreenKey in inner && !(inner[FullscreenKey].Value? && inner[FullscreenKey].v.Boolean?)
      ensures r.Ok? && FullscreenKey in inner ==> inner[FullscreenKey] == Value(Boolean(r.value))
    {
      GetBoolean(inner, FullscreenKey, true)
    }

    /**
     * `set_fullscreen`: the value is stored as a string, so the boolean getter
     * no longer reads it.
     */
    method SetFullscreen(value: string)
      modifies this
      ensures inner == old(inner)[FullscreenKey := Value(Str(value))]
      ensures Fullscreen() == Err(WrongTypeError(FullscreenKey, "Boolean"))
      ensures AppPath() == old(AppPath())
    {
      inner := inner[FullscreenKey := Value(Str(value))];
    }

    /*
     * The typed setters the settings page uses (`set_bool`, `set_int` and
     * `set_string`, called from gui/src/worker_loop.rs): each stores one
     * value under its key and changes no other key.
     */
    method SetBool(key: string, value: bool)
      modifies this
      ensures inner == old(inner)[key := Value(Boolean(value))]
    {
      inner := inner[key := Value(Boolean(value))];
    }

    method SetInt(key: string, value: i64)
      modifies this
      ensures inner == old(inner)[key := Value(Integer(value))]
    {
      inner := inner[key := Value(Integer(value))];
    }

    method SetString(key: string, value: string)
      modifies this
      ensures inner == old(inner)[key := Value(Str(value))]
    {
      inner := inner[key := Value(Str(value))];
    }

    /** `get_bool` as the lazy cache calls it: `get_boolean` on the document. */
    function GetBool(key: string, default: bool): (r: Result<bool, Error>)
      reads this
      ensures key !in inner ==> r == Ok(default)
      ensures r.Ok? && key in inner ==> inner[key] == Value(Boolean(r.value))
    {
      GetBoolean(inner, key, default)
    }

    /** `get_int` as the lazy cache calls it: `get_integer` on the document. */
    function GetInt(key: string, default: i64): (r: Result<i64, Error>)
      reads this
      ensures key !in inner ==> r == Ok(default)
      ensures r.Ok? && key in inner ==> inner[key] == Value(Integer(r.value))
    {
      GetInteger(inner, key, default)
    }
  }

  /** A fresh configuration reads the defaults: an empty application path and fullscreen. */
  lemma NewDefaults(c: FfnxConfig)
    requires c.inner == map[]
    ensures c.AppPath() == Ok("") && c.Fullscreen() == Ok(true)
  {
  }
}
