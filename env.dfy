/**
 * Where the launcher keeps its files (core/src/game/env.rs): next to the
 * executable when a `mumba.toml` sits there, otherwise in the user's cache,
 * data and configuration directories, each falling back to the executable's
 * directory when it cannot be created.
 *
 * The executable's path, the platform's base directories and the outcome of
 * creating a directory are parameters.
 */
module Env {
  import opened Wrappers
  import opened Paths

  /** The kinds of I/O failure `create_dir` tells apart. */
  datatype IoErrorKind = AlreadyExists | OtherKind(code: int)

  /** The per-user base directories (`directories::BaseDirs`). */
  datatype BaseDirs = BaseDirs(cacheDir: Path, dataDir: Path, configDir: Path)

  datatype Env = Env(
    cacheDir: Path, dataDir: Path, configPath: Path,
    mumbaDir: Path, ffnxDir: Path, logPath: Path)

  const ConfigFileName := "mumba.toml"
  const AppDirName := "mumba"
  const GameDirName := "game"
  const LauncherFileName := "ff8_launcher.exe"
  const SystemLauncherPath := "/var/lib/mumba/ff8_launcher.exe"
  const DefaultExePath := "./mumba"

  /** `create_dir`: creating a directory that already exists is a success. */
  function CreateDir(create: Path -> Result<(), IoErrorKind>, p: Path): (r: Result<(), IoErrorKind>)
    ensures r.Ok? <==> create(p).Ok? || create(p).error.AlreadyExists?
    ensures r.Err? ==> r.error == create(p).error
  {
    match create(p)
    case Ok(()) => Ok(())
    case Err(AlreadyExists) => Ok(())
    case Err(e) => Err(e)
  }

  /** `add_app_dir`. */
  function AddAppDir(p: Path): Path {
    Join(p, AppDirName)
  }

  /** `{program}.log`. */
  function LogFileName(programName: string): string {
    programName + ".log"
  }

  /**
   * One `create_dir(&d).and(Ok(d)).or_else(|_| create_dir(&f).and(Ok(f)))?`:
   * the preferred directory when it can be created, else the fallback, else
   * the fallback's error.
   */
  function Settle(create: Path -> Result<(), IoErrorKind>, preferred: Path, fallback: Path): (r: Result<Path, IoErrorKind>)
    ensures CreateDir(create, preferred).Ok? ==> r == Ok(preferred)
    ensures CreateDir(create, preferred).Err? && CreateDir(create, fallback).Ok? ==> r == Ok(fallback)
    ensures r.Err? <==> CreateDir(create, preferred).Err? && CreateDir(create, fallback).Err?
    ensures r.Err? ==> r.error == CreateDir(create, fallback).error
  {
    match CreateDir(create, preferred)
    case Ok(()) => Ok(preferred)
    case Err(_) =>
      match CreateDir(create, fallback)
      case Ok(()) => Ok(fallback)
      case Err(e) => Err(e)
  }

  /** The directory holding the executable: `current_exe` (or `./mumba` when unknown) without its file name. */
  function ExeDir(currentExe: Option<Path>): Path {
    Parent(currentExe.GetOr(DefaultExePath))
  }

  /** The preferred directory of each kind: under the base directory when known, the executable's directory otherwise. */
  function Preferred(baseDirs: Option<BaseDirs>, exeDir: Path, pick: BaseDirs -> Path): Path {
    match baseDirs
    case Some(d) => AddAppDir(pick(d))
    case None => exeDir
  }

  /**
   * `Env::new`. A local installation keeps everything next to the executable,
   * creates nothing and cannot fail. Elsewhere each of the cache, data and
   * configuration directories is the preferred one when it can be created and
   * the executable's directory otherwise; the runtime lives in `data/game`,
   * the log in `data`, the settings in `config/mumba.toml`; and the call fails
   * exactly when some directory can be created neither where preferred nor
   * next to the executable.
   */
  function New(
    fs: FileSystem, currentExe: Option<Path>, baseDirs: Option<BaseDirs>,
    create: Path -> Result<(), IoErrorKind>, programName: string): (r: Result<Env, IoErrorKind>)
    ensures Exists(fs, Join(ExeDir(currentExe), ConfigFileName)) ==>
      var d := ExeDir(currentExe);
      r.Ok? && r.value.cacheDir == d && r.value.dataDir == d && r.value.mumbaDir == d
      && r.value.ffnxDir == d && r.value.configPath == Join(d, ConfigFileName)
      && r.value.logPath == Join(d, programName + ".log")
    ensures !Exists(fs, Join(ExeDir(currentExe), ConfigFileName)) ==>
      var d := ExeDir(currentExe);
      var cache := Preferred(baseDirs, d, (b: BaseDirs) => b.cacheDir);
      var data := Preferred(baseDirs, d, (b: BaseDirs) => b.dataDir);
      var config := Preferred(baseDirs, d, (b: BaseDirs) => b.configDir);
      && (r.Err? <==>
           CreateDir(create, d).Err? &&
           (CreateDir(create, cache).Err? || CreateDir(create, data).Err? || CreateDir(create, config).Err?))
      && (r.Ok? ==>
           && r.value.cacheDir == (if CreateDir(create, cache).Ok? then cache else d)
           && r.value.dataDir == (if CreateDir(create, data).Ok? then data else d)
           && r.value.configPath == Join(if CreateDir(create, config).Ok? then config else d, ConfigFileName)
           && r.value.mumbaDir == d
           && r.value.ffnxDir == Join(r.value.dataDir, GameDirName)
           && r.value.logPath == Join(r.value.dataDir, programName + ".log")
           && CreateDir(create, r.value.cacheDir).Ok? && CreateDir(create, r.value.dataDir).Ok?)
  {
    var exeDir := ExeDir(currentExe);
    var configPath := Join(exeDir, ConfigFileName);
    if Exists(fs, configPath) then
      Ok(Env(exeDir, exeDir, configPath, exeDir, exeDir, Join(exeDir, LogFileName(programName))))
    else
      var (cache, data, config) :=
        match baseDirs
        case Some(d) => (AddAppDir(d.cacheDir), AddAppDir(d.dataDir), AddAppDir(d.configDir))
        case None => (exeDir, exeDir, exeDir);
      match Settle(create, cache, exeDir)
      case Err(e) => Err(e)
      case Ok(cacheDir) =>
        match Settle(create, data, exeDir)
        case Err(e) => Err(e)
        case Ok(dataDir) =>
          match Settle(create, config, exeDir)
          case Err(e) => Err(e)
          case Ok(configDir) =>
            Ok(Env(cacheDir, dataDir, Join(configDir, ConfigFileName), exeDir,
                   Join(dataDir, GameDirName), Join(dataDir, LogFileName(programName))))
  }

  /** `get_resource_launcher_path`: the copy next to the launcher, else the system-wide one. */
  function ResourceLauncherPath(fs: FileSystem, env: Env): (p: Path)
    ensures Exists(fs, Join(env.mumbaDir, LauncherFileName)) ==> p == Join(env.mumbaDir, LauncherFileName)
    ensures !Exists(fs, Join(env.mumbaDir, LauncherFileName)) ==> p == SystemLauncherPath
  {
    var local := Join(env.mumbaDir, LauncherFileName);
    if Exists(fs, local) then local else SystemLauncherPath
  }
}
