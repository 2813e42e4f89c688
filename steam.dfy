/**
 * Steam library lookup (core/src/steam.rs): which library folder holds an app,
 * where the app's directory is, and the renumbering of the library index keys
 * of `libraryfolders.vdf` before deserialisation.
 */
module Steam {
  import opened Wrappers
  import opened Paths
  import opened Decimal

  /** One entry of the library index: its path and the ids (with sizes) of the apps it holds. */
  datatype Library = Library(path: Path, apps: map<nat, nat>)

  /** The Steam client: its root and, when the index could be read, its libraries in order. */
  datatype Steam = Steam(libraryFolders: Option<seq<Library>>, path: Path)

  /** Index of the first library, in order, that lists `appId`. */
  function FirstLibraryWith(libs: seq<Library>, appId: nat): (r: Option<nat>)
    ensures r.Some? ==> r.value < |libs| && appId in libs[r.value].apps
    ensures r.Some? ==> forall j :: 0 <= j < r.value ==> appId !in libs[j].apps
    ensures r.None? <==> forall j :: 0 <= j < |libs| ==> appId !in libs[j].apps
  {
    if |libs| == 0 then None
    else if appId in libs[0].apps then Some(0)
    else match FirstLibraryWith(libs[1..], appId)
      case None => None
      case Some(i) => Some(i + 1)
  }

  /** `find_app_in_library_folders`: a for-loop over the libraries with an early return. */
  method FindAppInLibraryFolders(libs: seq<Library>, appId: nat) returns (r: Option<Path>)
    ensures r.None? <==> forall j :: 0 <= j < |libs| ==> appId !in libs[j].apps
    ensures r.Some? ==> exists i :: 0 <= i < |libs| && r.value == libs[i].path && appId in libs[i].apps &&
                                    forall j :: 0 <= j < i ==> appId !in libs[j].apps
    ensures r == (match FirstLibraryWith(libs, appId) case None => None case Some(i) => Some(libs[i].path))
  {
    for k := 0 to |libs|
      invariant forall j :: 0 <= j < k ==> appId !in libs[j].apps
    {
      if appId in libs[k].apps {
        return Some(libs[k].path);
      }
    }
    return None;
  }

  /** The directory under which `find_app` looks: the first library listing the app, else the Steam root. */
  function AppBase(steam: Steam, appId: nat): (base: Path)
    ensures steam.libraryFolders.None? ==> base == steam.path
    ensures steam.libraryFolders.Some? && FirstLibraryWith(steam.libraryFolders.value, appId).None? ==> base == steam.path
    ensures steam.libraryFolders.Some? && FirstLibraryWith(steam.libraryFolders.value, appId).Some? ==>
      base == steam.libraryFolders.value[FirstLibraryWith(steam.libraryFolders.value, appId).value].path
  {
    match steam.libraryFolders
    case None => steam.path
    case Some(libs) =>
      match FirstLibraryWith(libs, appId)
      case None => steam.path
      case Some(i) => libs[i].path
  }

  /** `find_app`: `base/steamapps/common/app_name`, only when that directory exists. */
  function FindApp(fs: FileSystem, steam: Steam, appId: nat, appName: string): (r: Option<Path>)
    ensures r.Some? <==> Exists(fs, Join(Join(Join(AppBase(steam, appId), "steamapps"), "common"), appName))
    ensures r.Some? ==> r.value == Join(Join(Join(AppBase(steam, appId), "steamapps"), "common"), appName)
  {
    var appPath := Join(Join(Join(AppBase(steam, appId), "steamapps"), "common"), appName);
    if Exists(fs, appPath) then Some(appPath) else None
  }

  /*
   * The renumbering loop of `list_library_folders`. The parsed VDF object maps
   * each key to the values stored under it (a key repeated in the file keeps
   * every value, in order). The loop moves the keys "0", "1", ... in increasing
   * order into "libraries", taking the last value of each, and stops at the
   * first missing index.
   */

  type VdfObj<V> = map<string, seq<V>>

  const LibrariesKey := "libraries"

  /** What the parser guarantees: every key present holds at least one value (`pop().unwrap()` relies on it). */
  predicate WellFormed<V>(obj: VdfObj<V>) {
    forall k :: k in obj ==> |obj[k]| > 0
  }

  function LibrariesOf<V>(obj: VdfObj<V>): seq<V> {
    if LibrariesKey in obj then obj[LibrariesKey] else []
  }

  /** The index keys "0" .. "n-1". */
  function IndexKeys(n: nat): set<string> {
    set i | 0 <= i < n :: NatToString(i)
  }

  /** The index keys "0" .. "n-1" are all present. */
  predicate IndicesPresent<V>(obj: VdfObj<V>, n: nat) {
    forall i :: 0 <= i < n ==> NatToString(i) in obj
  }

  /** The last value stored under index key `i`. */
  function LastAt<V>(obj: VdfObj<V>, i: nat): V
    requires WellFormed(obj) && NatToString(i) in obj
  {
    obj[NatToString(i)][|obj[NatToString(i)]| - 1]
  }

  /** The last values under "0" .. "n-1", in index order. */
  function MovedValues<V>(obj: VdfObj<V>, n: nat): (r: seq<V>)
    requires WellFormed(obj) && IndicesPresent(obj, n)
    ensures |r| == n
  {
    if n == 0 then [] else MovedValues(obj, n - 1) + [LastAt(obj, n - 1)]
  }

  lemma {:induction false} MovedValuesAt<V>(obj: VdfObj<V>, n: nat, j: nat)
    requires WellFormed(obj) && IndicesPresent(obj, n) && j < n
    ensures MovedValues(obj, n)[j] == LastAt(obj, j)
  {
    if j < n - 1 {
      MovedValuesAt(obj, n - 1, j);
    }
  }

  /**
   * The object once the first `n` index keys have been moved: those keys are
   * gone, "libraries" ends with their last values in index order, and every
   * other key is as it was. With nothing moved the object is unchanged.
   */
  function Moved<V>(obj: VdfObj<V>, n: nat): VdfObj<V>
    requires WellFormed(obj) && IndicesPresent(obj, n)
  {
    if n == 0 then obj
    else (map k | k in obj.Keys - IndexKeys(n) :: obj[k])[LibrariesKey := LibrariesOf(obj) + MovedValues(obj, n)]
  }

  /**
   * After moving `n` keys, "libraries" keeps what it held and then lists the
   * last value of "0", "1", ... "n-1" in that order; no index key below `n` is left.
   */
  lemma MovedLibrariesInOrder<V>(obj: VdfObj<V>, n: nat)
    requires WellFormed(obj) && IndicesPresent(obj, n)
    ensures |LibrariesOf(Moved(obj, n))| == |LibrariesOf(obj)| + n
    ensures LibrariesOf(Moved(obj, n))[..|LibrariesOf(obj)|] == LibrariesOf(obj)
    ensures forall j :: 0 <= j < n ==> LibrariesOf(Moved(obj, n))[|LibrariesOf(obj)| + j] == LastAt(obj, j)
    ensures forall j :: 0 <= j < n ==> NatToString(j) !in Moved(obj, n)
  {
    forall j | 0 <= j < n
      ensures LibrariesOf(Moved(obj, n))[|LibrariesOf(obj)| + j] == LastAt(obj, j)
      ensures NatToString(j) !in Moved(obj, n)
    {
      MovedValuesAt(obj, n, j);
      InIndexKeys(j, n);
      IndexKeyNotLibraries(j);
    }
  }

  /** Termination measure of the loop: each step removes an index key, and adds "libraries" at most once. */
  function Weight<V>(obj: VdfObj<V>): nat {
    |obj| + (if LibrariesKey in obj then 0 else 1)
  }

  lemma IndexKeyNotLibraries(i: nat)
    ensures NatToString(i) != LibrariesKey
  {
    assert LibrariesKey[0] == 'l';
  }

  /** An index key is one of the first `n` exactly when its index is below `n`. */
  lemma InIndexKeys(i: nat, n: nat)
    ensures NatToString(i) in IndexKeys(n) <==> i < n
  {
    if NatToString(i) in IndexKeys(n) {
      var j :| 0 <= j < n && NatToString(j) == NatToString(i);
      NatToStringInjective(i, j);
    }
  }

  /** Moving one more index key extends the moved prefix by one. */
  lemma MovedStep<V>(obj: VdfObj<V>, n: nat)
    requires WellFormed(obj) && IndicesPresent(obj, n + 1)
    ensures WellFormed(Moved(obj, n))
    ensures NatToString(n) in Moved(obj, n) && Moved(obj, n)[NatToString(n)] == obj[NatToString(n)]
    ensures var m := Moved(obj, n); var key := NatToString(n);
      Moved(obj, n + 1) == (m - {key})[LibrariesKey := LibrariesOf(m) + [m[key][|m[key]| - 1]]]
  {
    var key := NatToString(n);
    IndexKeyNotLibraries(n);
    InIndexKeys(n, n);
    var m := Moved(obj, n);
    var lhs := Moved(obj, n + 1);
    var rhs := (m - {key})[LibrariesKey := LibrariesOf(m) + [m[key][|m[key]| - 1]]];
    assert IndexKeys(n + 1) == IndexKeys(n) + {key};
    assert LibrariesOf(m) == LibrariesOf(obj) + MovedValues(obj, n);
    assert lhs.Keys == rhs.Keys;
    forall k | k in lhs ensures lhs[k] == rhs[k] {
    }
  }

  /**
   * `list_library_folders`' loop, on the parsed object. It stops at the first
   * missing index `count`, and the object is then `Moved(obj, count)`.
   */
  method RenumberLibraries<V>(obj: VdfObj<V>) returns (r: VdfObj<V>, count: nat)
    requires WellFormed(obj)
    ensures IndicesPresent(obj, count) && NatToString(count) !in obj
    ensures r == Moved(obj, count)
  {
    r := obj;
    var index := 0;
    while NatToString(index) in r
      invariant IndicesPresent(obj, index)
      invariant r == Moved(obj, index)
      invariant WellFormed(r)
      decreases Weight(r)
    {
      var library := r[NatToString(index)];
      assert NatToString(index) in obj by {
        InIndexKeys(index, index);
        IndexKeyNotLibraries(index);
      }
      MovedStep(obj, index);
      r := r - {NatToString(index)};
      var existing := if LibrariesKey in r then r[LibrariesKey] else [];
      r := r[LibrariesKey := existing + [library[|library| - 1]]];
      index := index + 1;
    }
    count := index;
    assert NatToString(count) !in obj by {
      InIndexKeys(count, count);
      IndexKeyNotLibraries(count);
    }
  }
}
