/**
 * Paths and the file system as the launcher sees them. A path is the text of
 * a `PathBuf` with '/' as separator; the file system is a map from path to
 * file data plus a set of directories, and `exists()` is membership in either.
 * Rust's `Path` reads components and ignores a trailing separator; `Parent`
 * and `FileName` split at the last '/', so they agree with it on paths that
 * do not end with a separator, which is what `SplitJoin` and `JoinSplit` state.
 */
module Paths {
  import opened Wrappers
  import opened Ints

  type Path = string

  /** `Path::join` of one relative component: a separator is added unless the path is empty or already ends with one. */
  function Join(p: Path, name: string): Path {
    if p == "" then name
    else if p[|p| - 1] == '/' then p + name
    else p + "/" + name
  }

  /** Index of the last separator, if any. */
  function LastSlash(p: Path): (r: Option<nat>)
    ensures r.None? ==> '/' !in p
    ensures r.Some? ==> r.value < |p| && p[r.value] == '/' && '/' !in p[r.value + 1..]
    decreases |p|
  {
    if p == [] then None
    else if p[|p| - 1] == '/' then Some(|p| - 1)
    else
      var r := LastSlash(p[..|p| - 1]);
      assert p[..|p| - 1] + [p[|p| - 1]] == p;
      if r.Some? then
        assert p[r.value + 1..] == p[..|p| - 1][r.value + 1..] + [p[|p| - 1]];
        r
      else r
  }

  /** `Path::parent` through `unwrap_or_default`: the root and a bare name have none, so the empty path. */
  function Parent(p: Path): Path {
    match LastSlash(p)
    case None => ""
    case Some(i) => if p == "/" then "" else if i == 0 then "/" else p[..i]
  }

  /** `Path::file_name`: the component after the last separator. */
  function FileName(p: Path): string {
    match LastSlash(p)
    case None => p
    case Some(i) => p[i + 1..]
  }

  /** A path that does not end with a separator (the root and the empty path aside). */
  predicate NoTrailingSlash(p: Path) {
    p == "" || p == "/" || p[|p| - 1] != '/'
  }

  /** A path joined from a directory and a plain name splits back into the two. */
  lemma SplitJoin(p: Path, name: string)
    requires name != "" && '/' !in name && NoTrailingSlash(p)
    ensures Parent(Join(p, name)) == p && FileName(Join(p, name)) == name
  {
    var j := Join(p, name);
    if p == "/" {
      assert j == "/" + name;
      assert j[0] == '/' && j[1..] == name;
    } else if p != "" {
      var k := |p|;
      assert j[k] == '/';
      assert j[k + 1..] == name;
      assert j[..k] == p;
    }
  }

  /** Two separators in a row. */
  predicate HasDoubleSlash(p: Path) {
    exists i :: 0 < i < |p| && p[i - 1] == '/' && p[i] == '/'
  }

  /** A path splits into a parent and a name that join back into it, when it has a name and no empty component. */
  lemma JoinSplit(p: Path)
    requires p != [] && p[|p| - 1] != '/' && !HasDoubleSlash(p)
    ensures Join(Parent(p), FileName(p)) == p
  {
    match LastSlash(p)
    case None =>
    case Some(i) =>
      if i == 0 {
        assert "/" + p[1..] == p;
      } else {
        assert p[i - 1] != '/';
        assert p[..i] + "/" + p[i + 1..] == p;
      }
  }

  /** A file: its bytes, and its text when the bytes are valid UTF-8. */
  datatype FileData = FileData(bytes: seq<u8>, text: Option<string>)

  datatype FileSystem = FileSystem(files: map<Path, FileData>, dirs: set<Path>)

  /** `Path::exists`. */
  predicate Exists(fs: FileSystem, p: Path) {
    p in fs.files || p in fs.dirs
  }

  /** `std::fs::read_to_string`: fails when the file is absent or not valid UTF-8. */
  function ReadToString(fs: FileSystem, p: Path): Option<string> {
    if p in fs.files then fs.files[p].text else None
  }

  /** Opening a file and reading its bytes: fails when the file is absent. */
  function ReadBytes(fs: FileSystem, p: Path): Option<seq<u8>> {
    if p in fs.files then Some(fs.files[p].bytes) else None
  }
}
