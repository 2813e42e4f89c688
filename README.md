# mumba, modelled in Dafny

mumba is a launcher for the PC release of Final Fantasy VIII. It finds an installed copy of the game:

- the 2000 retail edition;
- the Steam edition;
- the Remastered edition.

It identifies the edition, version, publisher and language of that copy. It then installs and configures the FFNx runtime next to it, patches the executables the runtime loads, and starts the game.

This project models the launcher's core and proves properties of that model:

- **Detection.** Finding the installation (`Installation`, `Steam`) and fingerprinting the executable (`Installation.VersionOfBytes`).
- **FFNx runtime.**
  - reading the runtime's version from its marker library (`FfnxInstallation`, `Ffnx`);
  - choosing a release on GitHub (`GitHub`);
  - the large-address-aware patch of a PE image (`PeFormat`).
- **Settings documents.**
  - the TOML getters (`Toml`);
  - mumba's own settings (`Config`);
  - FFNx's `FFNx.toml` (`FfnxConfig`);
  - the settings page's lazily loaded copy of that file (`LazyFfnxConfig`).
- **Game files.**
  - the controller layout `ff8input.cfg` (`InputConfigFile`);
  - the `.iro` mod archive's path table (`Archive`);
  - the Remaster's save metadata file (`Metadata`);
  - where the launcher keeps its files (`Env`).
- **Settings page.**
  - the display-mode lists (`Screen`);
  - how the settings page fills its widgets (`UiHelper`);
  - the worker thread that drives the setup wizard, installs the game and FFNx, serves the settings page and launches the game (`WorkerLoop`).

The model has four shapes:

- A pure function of the Rust code becomes a Dafny function with a contract.
- A loop becomes a method with invariants, proved against a function.
- An object whose methods change its fields becomes a class:
  - `Config.Config`;
  - `FfnxConfig.FfnxConfig`;
  - `LazyFfnxConfig.LazyFfnxConfig`.
- The large-address-aware patch works in place on an `array<u8>`.

Everything outside the process becomes a parameter. The file system is a map from paths to file contents. The other outside effects are values the caller supplies, and `## Left out` lists each one:

- the network;
- the clock;
- the user interface thread;
- the operating system's answers.

Shared helper modules:

- `Wrappers`: `Option` and `Result`.
- `Ints`: the Rust integer casts the code uses.
- `Decimal`: decimal rendering.
- `Text`: ASCII case and substring search.
- `Paths`: paths joined with `/`, and a file system as a map.
- `Sorting`: an insertion sort with its specification.

## Model

| member | source | states |
|---|---|---|
| Archive.Units | core/src/iro/archive.rs:39-43 | The bytes are read as little-endian 16-bit units exactly when their count is even, and each unit is the pair of bytes at its position |
| Archive.ParseUtf16 | core/src/iro/archive.rs:38-48 | An odd byte count and an unpaired surrogate are the two errors. Otherwise the result is the UTF-16 decoding of the units |
| Archive.UnitsOfLeBytes | core/src/iro/archive.rs:39-43 | Units written little-endian read back as the same units |
| Archive.LeBytesOfUnits | core/src/iro/archive.rs:39-43 | An even byte string is the little-endian writing of its own units |
| Archive.DecodeEncode | core/src/iro/archive.rs:45-47 | Every string survives encoding to UTF-16 and decoding back (section 2 of RFC 2781) |
| Archive.EncodeDecode | core/src/iro/archive.rs:45-47 | Units that decode are exactly the encoding of what they decode to, so the decoding is injective |
| Archive.ParseEncoded | core/src/iro/archive.rs:38-48 | A path written as UTF-16 little-endian parses back as itself |
| Archive.ParseInjective | core/src/iro/archive.rs:38-48 | Two byte strings that parse to the same path are equal |
| Archive.UnpairedSurrogate | core/src/iro/archive.rs:45-47 | A lone low surrogate, or a high surrogate not followed by a low one, is refused whatever follows |
| Archive.SearchFile | core/src/iro/archive.rs:83-96 | The loop over the entries returns what the lookup specification gives: the first matching index, the first decoding error, or nothing |
| Archive.FindEntryFound | core/src/iro/archive.rs:87-92 | A found index is the first entry whose path decodes to the name, and every entry before it decodes to another path |
| Archive.FindEntryNone | core/src/iro/archive.rs:87-95 | Nothing is found, without error, exactly when every entry decodes and none decodes to the name |
| Archive.FindEntryError | core/src/iro/archive.rs:87-92 | An error is the error of the first entry that fails to decode, and every entry before it decodes to another path |
| Archive.UnpackModXml | core/src/iro/archive.rs:50-62 | A failed or empty lookup of `mod.xml` gives Ok(None). Otherwise a read failure or a parse failure is the result, and success is the parsed description |
| Archive.BadPathHidesModXml | core/src/iro/archive.rs:50-62 | An entry with an undecodable path placed before `mod.xml` makes the archive read as having no mod description |
| Config.Ordinal | core/src/config.rs:20-24 | A channel's discriminant is 0, 1 or 2 |
| Config.ChannelOf | core/src/config.rs:64-73 | A stored integer means Beta exactly when it is 1, Alpha exactly when 2, and Stable for every other value |
| Config.ChannelOfOrdinal | core/src/config.rs:64-77 | Storing a channel's discriminant and reading it back gives the channel |
| Config.Config.constructor | core/src/config.rs:31-35 | A new settings document is empty |
| Config.Config.FromDocument | core/src/config.rs:37-41 | The settings hold the document parsed from the file |
| Config.Config.Installation | core/src/config.rs:47-56 | A missing or empty `exe_path` means no installation, and a type error propagates. A non-empty path gives the installation built from it, and any failure to build it is reported as the key not existing |
| Config.Config.SetInstallation | core/src/config.rs:58-62 | Stores the installation's executable path as a string under `exe_path` and changes no other key |
| Config.Config.UpdateChannel | core/src/config.rs:64-73 | Stable when absent; a wrong type is an error; a stored integer reads as the channel `ChannelOf` gives |
| Config.Config.SetUpdateChannel | core/src/config.rs:75-77 | Stores the discriminant under `update_channel`, and reading the channel back gives the channel that was set |
| Config.Config.Language | core/src/config.rs:79-85 | The language is "" when absent, and otherwise what the string getter reads under `language` |
| Config.Config.SetLanguage | core/src/config.rs:87-89 | Reading the language back gives the one that was set |
| Config.InstallationReadBack | core/src/config.rs:47-62 | An installation found from a well-formed executable path other than a launcher, once stored, reads back as the same installation |
| Env.CreateDir | core/src/game/env.rs:71-77 | Creating a directory succeeds exactly when the creation succeeds or the directory already exists, and otherwise keeps the creation's error |
| Env.Settle | core/src/game/env.rs:49-58 | Gives the preferred directory when it can be created, else the fallback. It fails, with the fallback's error, exactly when neither can be created |
| Env.New | core/src/game/env.rs:14-69 | A local installation keeps everything next to the executable and cannot fail. Otherwise each directory is the preferred one or the executable's directory. The call fails exactly when a directory and its fallback both fail. The runtime directory is `game` under the data directory, and the log is `{program}.log` there |
| Env.ResourceLauncherPath | core/src/game/env.rs:83-90 | Gives the launcher copy beside mumba when it exists, and the system-wide copy otherwise |
| Ffnx.IsInstalled | core/src/game/ffnx.rs:27-46 | Probes `AF3DN.P` for Steam and `eax.dll` otherwise. Gives the dotted product version when the probe succeeds, and None for any failure |
| Ffnx.FindLastStableVersionOnGithub | core/src/game/ffnx.rs:48-64 | The address names the last tag, or 1.19.1 when the lookup fails, and the edition's build |
| Ffnx.IsInstalledAgrees | core/src/game/ffnx.rs:27-46 | This detection and `FfnxInstallation.FromDirectory` probe the same library and give the same version |
| Ffnx.UrlAgrees | core/src/game/ffnx.rs:48-64 | This address builder and the one in `FfnxInstallation` give the same address |
| FfnxConfig.FfnxConfig.constructor | core/src/game/ffnx_config.rs:13-17 | A new FFNx configuration is an empty document |
| FfnxConfig.FfnxConfig.FromDocument | core/src/game/ffnx_config.rs:19-23 | The configuration holds the parsed document |
| FfnxConfig.FfnxConfig.AppPath | core/src/game/ffnx_config.rs:29-31 | `app_path` is "" when absent. It is an error exactly when the stored value is not a string, and otherwise it is the stored string |
| FfnxConfig.FfnxConfig.SetAppPath | core/src/game/ffnx_config.rs:33-35 | The path reads back, and `fullscreen` reads as before |
| FfnxConfig.FfnxConfig.Fullscreen | core/src/game/ffnx_config.rs:37-39 | `fullscreen` is true when absent. It is an error exactly when the stored value is not a boolean, and otherwise it is the stored boolean |
| FfnxConfig.FfnxConfig.SetFullscreen | core/src/game/ffnx_config.rs:41-43 | The value is stored as a string, so the boolean getter then reports a type error, and `app_path` reads as before |
| FfnxConfig.FfnxConfig.SetBool | gui/src/worker_loop.rs:137-139 | Stores one boolean under its key and changes no other key |
| FfnxConfig.FfnxConfig.SetInt | gui/src/worker_loop.rs:140-192 | Stores one integer under its key and changes no other key |
| FfnxConfig.FfnxConfig.SetString | gui/src/worker_loop.rs:193-195 | Stores one string under its key and changes no other key |
| FfnxConfig.FfnxConfig.GetBool | gui/src/lazy_ffnx_config.rs:28-36 | The default when absent, and otherwise a boolean actually stored under the key |
| FfnxConfig.FfnxConfig.GetInt | gui/src/lazy_ffnx_config.rs:38-46 | The default when absent, and otherwise an integer actually stored under the key |
| FfnxConfig.NewDefaults | core/src/game/ffnx_config.rs:13-39 | A new configuration reads an empty application path and fullscreen |
| FfnxInstallation.Marker | core/src/game/ffnx_installation.rs:25-29 | The marker library is `AF3DN.P` for Steam and `eax.dll` otherwise, a plain file name inside the runtime's directory |
| FfnxInstallation.FromDirectory | core/src/game/ffnx_installation.rs:24-45 | A readable marker gives its dotted product version. A missing marker gives nothing. Any other failure gives nothing and a warning |
| FfnxInstallation.FindLastStableVersionOnGithub | core/src/game/ffnx_installation.rs:48-69 | The address is built from the tag returned beside it. That tag is the lookup's result, or 1.19.1 when the lookup fails |
| FfnxInstallation.VersionStringInjective | core/src/game/ffnx_installation.rs:32-37 | Equal version strings mean equal major, minor and patch |
| FfnxInstallation.VersionStringParts | core/src/game/ffnx_installation.rs:32-37 | The version string splits at its dots into the three numbers' decimal forms |
| FfnxInstallation.DownloadUrlInjective | core/src/game/ffnx_installation.rs:55-68 | Two addresses are equal only for the same tag and the same build |
| FfnxInstallation.FallbackUrl | core/src/game/ffnx_installation.rs:52-53 | A failed lookup gives tag 1.19.1 and that tag's address |
| GitHub.VisitSeq | core/src/github.rs:51-88 | The loop returns the fold's result: the last prerelease, the latest candidate by date (also as `latest_not_recent`), or the date-parse error |
| GitHub.FoldErrSticky | core/src/github.rs:58-72 | Once a date fails to parse, the releases after it do not change the result |
| GitHub.LastPrerelease | core/src/github.rs:59-60 | The index found is a prerelease and no later release is one |
| GitHub.FoldEmpty | core/src/github.rs:55-87 | An empty list yields no latest release and no prerelease |
| GitHub.FoldFails | core/src/github.rs:62-72 | The loop fails exactly when there are two or more candidates and one of their dates does not parse |
| GitHub.FoldPrerelease | core/src/github.rs:59-60 | The prerelease kept is the last one in the list, whether or not it is a draft |
| GitHub.FoldLatest | core/src/github.rs:61-79 | The latest release kept is a candidate whose date is at least every candidate's, and strictly later than every earlier candidate's: the newest, the earliest among equal dates |
| Installation.AppId | core/src/game/installation.rs:295-297 | The app id is 0 exactly for the retail edition |
| Installation.AppIdInjective | core/src/game/installation.rs:295-297 | Distinct editions have distinct app ids |
| Installation.ReadWordAt | core/src/game/installation.rs:202-208 | A 4-byte read at an offset succeeds exactly when the file is long enough |
| Installation.ListedPairsKnown | core/src/game/installation.rs:210-233 | Each listed pair of words is identified as its row's version and publisher |
| Installation.ClassifyPairIsTable | core/src/game/installation.rs:210-246 | The if-chain answers directly exactly for the listed pairs, asks for a third word only for the Japanese pair, and leaves every other pair unidentified |
| Installation.SignaturesDistinct | core/src/game/installation.rs:210-234 | The listed pairs are pairwise distinct, and the Japanese pair is not one of them |
| Installation.VersionOfBytes | core/src/game/installation.rs:198-247 | Fingerprinting fails only on a file too short for the reads, and then with an end-of-file error. A result names version 1.2 or 1.2 NV |
| Installation.GetVersionFromExe | core/src/game/installation.rs:198-247 | Fails to open exactly when the file is missing, and otherwise fingerprints the file's bytes |
| Installation.VersionOfListedExe | core/src/game/installation.rs:202-233 | An executable carrying a listed fingerprint is identified as that row says |
| Installation.VersionOfUnlistedExe | core/src/game/installation.rs:244-246 | An executable with an unlisted pair is unidentified, which is not an error |
| Installation.VersionOfEaJpExe | core/src/game/installation.rs:234-243 | For the Japanese pair, the word at 0x1010 decides: 0x24AC means the NV build |
| Installation.GetSteamEditionLang | core/src/game/installation.rs:193-196 | Succeeds exactly when `lang.dat` reads as text, and gives its characters ASCII-uppercased |
| Installation.StandardLangShape | core/src/game/installation.rs:176-191 | The language is "eng" without the marker, and otherwise a prefix of at most three characters of the text after the marker |
| Installation.GetStandardEditionLang | core/src/game/installation.rs:176-191 | Fails only when `Data/main.fl` cannot be read as text. Otherwise it gives the language read with the corrected slice `StandardLang`, which agrees with the source wherever the source does not panic |
| Installation.StandardLangAsWrittenPanics | core/src/game/installation.rs:181 | As written, a `main.fl` ending two letters after the marker makes the three-character slice panic |
| Installation.StandardLangAgrees | core/src/game/installation.rs:179-189 | Wherever the code as written returns a language, the corrected reading returns the same one |
| Installation.CompatDataDistinct | core/src/game/installation.rs:264-293 | The two Steam editions keep their configuration under different Proton prefixes |
| Installation.DetectEditionLang | core/src/game/installation.rs:71-77 | Steam exactly when `lang.dat` is readable, with its language. Otherwise the retail edition, with the `main.fl` language read by the corrected slice, or "eng" |
| Installation.FromExePath | core/src/game/installation.rs:61-109 | NotFound exactly when the file is missing. A launcher name is accepted only for Steam when `FF8_{lang}.exe` exists beside it, and is otherwise LauncherSelected. A success records the detected edition, language (the corrected slice for the retail edition), version and configuration path |
| Installation.FromExePathExeExists | core/src/game/installation.rs:61-109 | An installation built from an executable points at an existing executable |
| Installation.FromDirectorySpec | core/src/game/installation.rs:111-148 | An installation is found exactly when the edition's executable exists. It records the edition's language (the corrected slice for the retail edition), executable name, version (None when unreadable) and configuration directory |
| Installation.SearchEdition | core/src/game/installation.rs:338-369 | A Steam library hit gives an installation of that edition with an existing executable, and there is none without a Steam client |
| Installation.Search | core/src/game/installation.rs:154-174 | The vector pushed to is exactly the search result |
| Installation.SearchResultShape | core/src/game/installation.rs:154-174 | At most two installations are found, the Steam edition before the Remaster, each with an existing executable, and none without a Steam client |
| LazyFfnxConfig.LazyFfnxConfig.constructor | gui/src/lazy_ffnx_config.rs:13-18 | Nothing is cached, and the file is `FFNx.toml` in the runtime's directory |
| LazyFfnxConfig.LazyFfnxConfig.Get | gui/src/lazy_ffnx_config.rs:20-26 | A cached configuration is returned untouched. Otherwise the file is loaded, and an unreadable or malformed file gives an empty document |
| LazyFfnxConfig.LazyFfnxConfig.GetBool | gui/src/lazy_ffnx_config.rs:28-36 | Loads as `get` does, and returns the stored boolean or the default on any lookup error |
| LazyFfnxConfig.LazyFfnxConfig.GetInt | gui/src/lazy_ffnx_config.rs:38-46 | Loads as `get` does, and returns the stored integer narrowed with `as i32` or the default |
| LazyFfnxConfig.LazyFfnxConfig.Save | gui/src/lazy_ffnx_config.rs:48-53 | With nothing cached, nothing is written and the result is Ok. Otherwise the cached document is written; success forgets the cache, and failure returns the error and keeps it |
| LazyFfnxConfig.LazyFfnxConfig.Clear | gui/src/lazy_ffnx_config.rs:55-57 | The cache is forgotten |
| LazyFfnxConfig.BoolOrDefault | gui/src/lazy_ffnx_config.rs:28-36 | The default when absent or not a boolean; a result other than the default is the stored boolean |
| LazyFfnxConfig.IntOrDefault | gui/src/lazy_ffnx_config.rs:38-46 | The default when absent; a result other than the default is the stored integer modulo 2^32 |
| LazyFfnxConfig.IntOrDefaultWraps | gui/src/lazy_ffnx_config.rs:41-42 | A stored integer that fits in 32 bits reads back unchanged, and 2^31 wraps to -2^31 |
| LazyFfnxConfig.WrongTypeIsDefault | gui/src/lazy_ffnx_config.rs:28-46 | A value of another type reads as the default, like an absent key |
| PeFormat.WithLargeAddressAwareBits | core/src/pe_format.rs:94-95 | The OR sets the large-address-aware bit, keeps every other bit, and changes nothing when the bit was set |
| PeFormat.WriteBytesAt | core/src/pe_format.rs:100-102 | A seek-and-write keeps the length, puts the bytes at the offset and leaves every other byte alone |
| PeFormat.CharacteristicsWrittenParses | core/src/pe_format.rs:100-106 | After the first write the file still parses as a PE32 image, with the same header offset |
| PeFormat.PatchedFields | core/src/pe_format.rs:92-114 | The patched file is a PE32 image with the flag set and the other characteristics kept. Its checksum field holds the checksum of the file after the first write |
| PeFormat.PatchedFrame | core/src/pe_format.rs:92-114 | Only the characteristics and checksum fields change, and the length is kept |
| PeFormat.WriteAt | core/src/pe_format.rs:100-102 | The array afterwards is the seek-and-write of the bytes at the offset |
| PeFormat.PatchIdempotent | core/src/pe_format.rs:77-117 | The file changes only when the patch succeeds, or when an open after the first write fails and leaves that write in place. Patching a patched file again reports Ok(false) and writes nothing, whatever the opens do |
| PeFormat.StaleChecksum | core/src/pe_format.rs:84-117 | When an open after the first write fails, the error is returned with the flag set and the old checksum kept, and every later patch reports Ok(false) without writing the checksum |
| PeFormat.PePatch4gb | core/src/pe_format.rs:77-117 | An unparsable file is an error and is untouched. A file already flagged gives Ok(false) and is untouched. A failed first open for writing is an error with the file untouched. A failed open after the first write is an error with only the flag written. Otherwise the array becomes the patched image and the result is Ok(true) |
| PeFormat.FirstNonEmptySpec | core/src/pe_format.rs:57-65 | The value kept is None exactly when no entry has the key and a non-empty value, and otherwise is the earliest such value |
| PeFormat.FirstNonEmptySnoc | core/src/pe_format.rs:57-65 | A later entry changes the kept value only while nothing has been kept |
| PeFormat.PeVersionInfo | core/src/pe_format.rs:42-75 | The visitor loop keeps the first non-empty product name and original file name. Missing fixed information gives NoVersion, and a resource error propagates |
| Steam.FirstLibraryWith | core/src/steam.rs:69-80 | The index found is a library that lists the app and no earlier library does; nothing is found exactly when no library lists it |
| Steam.FindAppInLibraryFolders | core/src/steam.rs:69-80 | The loop with early return gives the path of the first library listing the app, or nothing |
| Steam.AppBase | core/src/steam.rs:46-59 | The base is the first library listing the app, or the Steam root when none does |
| Steam.FindApp | core/src/steam.rs:46-66 | The app's path is `steamapps/common/{name}` under that base, and is given only when that directory exists |
| Steam.MovedValues | core/src/steam.rs:96-103 | The moved values are the last value under each index key, in index order |
| Steam.MovedLibrariesInOrder | core/src/steam.rs:95-103 | After moving n keys, "libraries" keeps what it held followed by the last value of "0" to "n-1", and no index key below n remains |
| Steam.MovedStep | core/src/steam.rs:97-103 | Moving one more index key extends the moved prefix by that key's last value |
| Steam.RenumberLibraries | core/src/steam.rs:95-103 | The loop stops at the first missing index and leaves the object with every index key below it moved to "libraries", in order |
| Toml.GetString | core/src/toml.rs:40-56 | The default when absent. An error exactly when the value is not a string, and the error names the key and whether a value was there. Otherwise the stored string |
| Toml.GetBoolean | core/src/toml.rs:58-70 | The default when absent. An error exactly when the value is not a boolean, with the matching error. Otherwise the stored boolean |
| Toml.GetInteger | core/src/toml.rs:72-84 | The default when absent. An error exactly when the value is not an integer, with the matching error. Otherwise the stored integer |
| Toml.SetThenGet | core/src/toml.rs:40-84 | A value written under a key reads back through the matching getter, whatever the default |
| Toml.SetOtherKey | core/src/toml.rs:40-84 | Writing one key leaves what every getter reads under every other key unchanged |
| InputConfigFile.NewByEdition | core/src/game/input_config.rs:15-28 | Every edition gets the same keyboard row. The retail joystick row goes to the Standard edition and to no other, so two editions share a joystick row exactly when both or neither is Standard |
| InputConfigFile.LinesConcat | core/src/game/input_config.rs:39 | The successive `read_line` results, put back together, are exactly the file text |
| InputConfigFile.LinesComplete | core/src/game/input_config.rs:39-42 | No read is empty before the end of the file, and every read but the last ends at its first line break |
| InputConfigFile.LinesOfConcat | core/src/game/input_config.rs:39 | Complete lines written one after another are read back one by one |
| InputConfigFile.SkipNonDigitsSpec | core/src/game/input_config.rs:46-51 | The start of a number is the first digit at or after the position, or the end |
| InputConfigFile.RunEndSpec | core/src/game/input_config.rs:46-52 | A number runs over digits only, up to the first non-digit or the end |
| InputConfigFile.ScanLine | core/src/game/input_config.rs:43-88 | The character loop over one buffer yields exactly the scan specification: a first number in 1..14 closed by a non-digit, then a second number of at most 255, else the line is skipped |
| InputConfigFile.FillEmpty | core/src/game/input_config.rs:34-37 | With no binding read, every slot of both rows is 0 |
| InputConfigFile.FillSnoc | core/src/game/input_config.rs:90-96 | One more binding overwrites one slot, in the keyboard row for the first 14 bindings and in the joystick row after |
| InputConfigFile.WrittenInPlaceIsFill | core/src/game/input_config.rs:90-96 | Writing the bindings one by one into zeroed rows leaves each slot with the code last bound to it, or 0 |
| InputConfigFile.AsWrittenOutcome | core/src/game/input_config.rs:38-105 | As written, the loop ends at the 28th binding or at the end of the file, and the result is an `InvalidData` error exactly when 28 bindings were counted, else the rows filled so far |
| InputConfigFile.Outcome | core/src/game/input_config.rs:38-105 | With the check the error message describes, fewer than 28 bindings is the `InvalidData` error and 28 bindings give the rows they fill |
| InputConfigFile.ReadAsWritten | core/src/game/input_config.rs:38-105 | The reading loop as written, over the successive reads into a buffer that is never cleared, returns the as-written outcome |
| InputConfigFile.FromFileAsWritten | core/src/game/input_config.rs:30-106 | An error opening or reading the file is returned as is. Otherwise the result is the as-written reading of its text |
| InputConfigFile.Read | core/src/game/input_config.rs:38-105 | The reading loop with the buffer cleared before each read returns the corrected outcome |
| InputConfigFile.FromFile | core/src/game/input_config.rs:30-106 | An error opening or reading the file is returned as is. Otherwise the result is the corrected reading of its text |
| InputConfigFile.LabelsPlain | core/src/game/input_config.rs:118-131 | The row labels hold no digit and no line break, so they never disturb the scan |
| InputConfigFile.ScanWritten | core/src/game/input_config.rs:46-88 | A line "<n>. <label><code>" after digit-free text scans as the binding its two numbers spell |
| InputConfigFile.ScanRowLine | core/src/game/input_config.rs:118-131 | Every row line `Display::fmt` writes, after digit-free text, scans as the binding of its own slot and code |
| InputConfigFile.RowLineIsLine | core/src/game/input_config.rs:118-131 | Every row line written is one complete line |
| InputConfigFile.DisplayLinesAreLines | core/src/game/input_config.rs:116-147 | `Display::fmt` writes 30 lines, each one complete |
| InputConfigFile.LinesOfDisplay | core/src/game/input_config.rs:116-147 | Reading the written text line by line gives back the 30 lines written |
| InputConfigFile.CollectAppend | core/src/game/input_config.rs:38-97 | The bindings read from two groups of lines are those of the first group, then those of the second |
| InputConfigFile.CollectEntries | core/src/game/input_config.rs:38-97 | Lines that each scan as one binding yield exactly those bindings, in order |
| InputConfigFile.AcceptedRow | core/src/game/input_config.rs:118-131 | The 14 written lines of a row read back as that row's bindings, slot `i + 1` with the row's `i`-th code |
| InputConfigFile.HeadersSkip | core/src/game/input_config.rs:117-132 | The "Keyboard" and "Joystick" header lines carry no binding |
| InputConfigFile.LastWriteRow | core/src/game/input_config.rs:90-94 | After a written row's first bindings, each of those slots holds the row's own code |
| InputConfigFile.FillRows | core/src/game/input_config.rs:90-94 | The bindings of two written rows fill the keyboard and joystick rows back to the originals |
| InputConfigFile.AcceptedDisplay | core/src/game/input_config.rs:116-147 | The written text carries the keyboard row's bindings, then the joystick row's |
| InputConfigFile.DisplayRoundTrip | core/src/game/input_config.rs:30-147 | The corrected reader gives back exactly the configuration `Display::fmt` wrote |
| InputConfigFile.ScanExtend | core/src/game/input_config.rs:39-72 | Once the buffer holds a binding closed by a non-digit, reading more text into it does not change what the scan finds |
| InputConfigFile.CollectGrowingRepeats | core/src/game/input_config.rs:38-97 | Once a growing buffer has settled on a binding, every later read yields that same binding |
| InputConfigFile.CollectGrowingCount | core/src/game/input_config.rs:38-97 | A first line without a binding, then a settled one: every read from the second on counts a binding |
| InputConfigFile.AsWrittenRepeats | core/src/game/input_config.rs:38-97 | As written, after its first binding the reader sees that binding again on every read |
| InputConfigFile.DisplayHead | core/src/game/input_config.rs:117-118 | The written text opens with the keyboard header, then the first keyboard binding |
| InputConfigFile.HeadSettles | core/src/game/input_config.rs:39-118 | The header and first row line settle the as-written scan on slot 1's binding for good |
| InputConfigFile.AsWrittenHeaded | core/src/game/input_config.rs:38-97 | Text that opens like a written file counts a binding on every read after the first |
| InputConfigFile.DisplayReadAsWritten | core/src/game/input_config.rs:30-147 | As written, the reader rejects with `InvalidData` every file that `Display::fmt` writes |
| Metadata.UserId | launcher/src/metadata.rs:21 | The user id is what follows the first five characters of the save directory's name |
| Metadata.SignatureAsWritten | launcher/src/metadata.rs:39 | As written, the signature exists exactly when the raw digest is well-formed UTF-8, and then it is the digest bytes themselves |
| Metadata.SignatureAsWrittenPanics | launcher/src/metadata.rs:39 | A digest whose first byte is 0xFF makes the as-written signature panic |
| Metadata.HexValue | launcher/src/metadata.rs:39 | Each hexadecimal digit character has a value below 16 that writes back as that same character |
| Metadata.Signature | launcher/src/metadata.rs:35-39 | The corrected signature is two lowercase hexadecimal digits per digest byte |
| Metadata.SignatureInjective | launcher/src/metadata.rs:35-39 | Distinct digests give distinct signatures, so the signature identifies the saved data |
| Metadata.Rewrite | launcher/src/metadata.rs:41-115 | One event is written for each event read |
| Metadata.UpdateEvents | launcher/src/metadata.rs:41-115 | The event loop writes exactly the rewrite of the events read |
| Metadata.SlotEntries | launcher/src/metadata.rs:134-383 | The template lists saves `from` to 30 of a slot, one entry each, in order |
| Metadata.RewriteAt | launcher/src/metadata.rs:41-115 | Each written event is the read one, rewritten under the flags the events before it leave |
| Metadata.OnlyTargetTextChanges | launcher/src/metadata.rs:76-110 | Only text inside the target entry changes: inside its timestamp it becomes the time, inside its signature the signature, and nothing else differs |
| Metadata.WithoutTextUnchanged | launcher/src/metadata.rs:92-113 | Events without text are written back unchanged |
| Metadata.FlagsAfterAppend | launcher/src/metadata.rs:41-91 | The flags after two runs of events are those of the first run carried through the second |
| Metadata.GameEntryUpdated | launcher/src/metadata.rs:43-110 | In the entry of the saved slot and number, the timestamp's text becomes the time and the signature's text the signature, whatever came before; missing attributes count as 0 |
| Metadata.OtherEntryKept | launcher/src/metadata.rs:43-110 | The timestamp text of any other game entry is copied unchanged |
| Metadata.TemplateShape | launcher/src/metadata.rs:134-385 | The created file holds 61 entries: saves 1 to 30 of slot 1, then of slot 2, then the chocobo game |
| Metadata.TemplateEntryUnique | launcher/src/metadata.rs:134-385 | Each save of slots 1 and 2 has exactly one entry in the created file, at its own position, and the chocobo game exactly one, last |
| Metadata.TemplateUnchanged | launcher/src/metadata.rs:17-115 | The created file has no text to rewrite, so the loop writes it back as it is |
| Metadata.NoTextInEntries | launcher/src/metadata.rs:134-385 | Entries as the template writes them carry no text |
| Metadata.SaveFileNameInjective | launcher/src/metadata.rs:122-132 | Distinct saves of slots 1 and 2 are read from distinct files |
| Metadata.SaveFileNameNotChoco | launcher/src/metadata.rs:122-132 | No save of slots 1 and 2 is read from the chocobo game's file |
| Metadata.FlagsAfterRewrite | launcher/src/metadata.rs:41-115 | Rewriting keeps every tag, so the flags after the written events equal those after the read ones |
| Metadata.LastUpdateWins | launcher/src/metadata.rs:11-120 | Updating an already updated file gives what the last update alone would, so repeating an update changes nothing more |
| Metadata.Utf8Ascii | launcher/src/metadata.rs:35-38 | An ASCII user id is encoded one byte per character, each its own code |
| Metadata.UpdateMetadata | launcher/src/metadata.rs:11-120 | Each step's error is returned in the source's order: creating the missing file, opening it, the clock, reading the save data, writing the result. Only when all succeed is the file, or the template when there was none, rewritten with the time in milliseconds and the corrected signature of the MD5 digest of the save data followed by the user id |
| Screen.FindSize | core/src/screen.rs:35-38 | The index found is the first resolution of that size, and none is found exactly when no resolution has it |
| Screen.Position | core/src/screen.rs:29-40 | The index of the first resolution of the wanted size, a zero width or height standing for the current resolution's size; none when no resolution has that size |
| Screen.RefreshRatesLen | core/src/screen.rs:42-46 | A count exactly when the position is inside the list, and then it is that resolution's number of rates |
| Screen.FindFreq | core/src/screen.rs:54-58 | The index found is the first occurrence of the rate, and none is found exactly when the rate is absent |
| Screen.RefreshRatePosition | core/src/screen.rs:48-60 | None past the end of the list. Otherwise the first index of the wanted rate in that resolution's rates, a zero rate standing for the current mode's first rate; none exactly when it is absent |
| Screen.LeU32TotalOrder | core/src/screen.rs:152 | The order on rates is total, reflexive, antisymmetric and transitive |
| Screen.LexLeRefl | core/src/screen.rs:152 | Every list of rates is ordered before or with itself |
| Screen.LexLeAntisym | core/src/screen.rs:152 | Two rate lists each ordered before the other are equal |
| Screen.LexLeTrans | core/src/screen.rs:152 | The lexicographic order on rate lists is transitive |
| Screen.LexLeTotal | core/src/screen.rs:152 | Any two rate lists are ordered one way or the other |
| Screen.LeResolutionTotalOrder | core/src/screen.rs:152 | The derived order on resolutions is total, so the sorted list is unique |
| Screen.ListScreensResolutionsWindows | core/src/screen.rs:63-158 | The current resolution is the one the device loop found, and the list is the sort of the gathered resolutions |
| Screen.MergeModes | core/src/screen.rs:105-146 | The mode loop merges exactly the offered modes, in order, into the list |
| Screen.AddRate | core/src/screen.rs:127-134 | Adding an absent rate and sorting keeps the rates ascending and distinct, with exactly the old rates and the new one |
| Screen.MergeNewSize | core/src/screen.rs:136-142 | A mode of a new size keeps the list well formed and adds exactly its size and rate |
| Screen.WithRateWellFormed | core/src/screen.rs:127-134 | Adding an absent rate to one resolution keeps the list well formed |
| Screen.WithRateRates | core/src/screen.rs:127-134 | Adding a rate to one resolution adds exactly that size and rate |
| Screen.MergeKnownSize | core/src/screen.rs:124-135 | A mode of a known size keeps the list well formed and adds exactly its rate to that size |
| Screen.MergeSpec | core/src/screen.rs:124-142 | Every merge step keeps the list well formed and adds exactly the mode's size and rate |
| Screen.MergeAllSpec | core/src/screen.rs:105-146 | Merging modes from nothing gives a well-formed list that offers a rate at a size exactly when some mode had them |
| Screen.MergeAllAppend | core/src/screen.rs:67-150 | Merging two runs of modes one after the other is merging them together |
| Screen.GatherIsMergeAll | core/src/screen.rs:67-150 | The device loop's list is the merge of every read device's offered modes |
| Screen.OfferedModesSpec | core/src/screen.rs:110-123 | A mode is offered exactly when it is one of the device's modes, at 32 bits per pixel or more, with the current mode's ratio |
| Screen.WindowsResolutions | core/src/screen.rs:63-158 | The Windows list is sorted, every resolution has non-empty ascending distinct rates, and a size offers a rate exactly when a mode of an active primary device had them |
| Screen.GatherStopped | core/src/screen.rs:86-95 | Once a device's current mode cannot be read, later devices change nothing |
| Screen.DedupRates | core/src/screen.rs:220-242 | The de-duplication loop keeps each non-zero rate once, in order of first occurrence |
| Screen.ParseXrandr | core/src/screen.rs:169-262 | The current resolution is the one the line loop found, and the list is the sort of the kept modes |
| Screen.ListScreensResolutionsUnix | core/src/screen.rs:161-166 | An empty screen when `xrandr` cannot be run or read; otherwise its parsed output |
| Screen.ListScreensResolutionsUnixGui | gui/src/screen.rs:156-161 | The settings program enumerates nothing on unix, so no size is ever found |
| Screen.UniqueFreqsSpec | core/src/screen.rs:220-242 | The rates of a mode line contain no zero and no repeat, and are exactly its non-zero rates |
| Screen.UniqueFreqsOfUnique | core/src/screen.rs:220-242 | Distinct non-zero rates pass unchanged, so de-duplicating twice is de-duplicating once |
| Screen.XrandrKept | core/src/screen.rs:203-254 | Every kept mode is at least 640x480 with distinct non-zero rates, and modes are kept only once a current size is known |
| Screen.XrandrRatio | core/src/screen.rs:203-254 | When the screen lines agree on the current size, every kept mode has its aspect ratio |
| Screen.XrandrPrimaryBlock | core/src/screen.rs:203-254 | A primary line followed by mode lines adds the kept ones among them, in order |
| Screen.XrandrOutsideBlock | core/src/screen.rs:203-254 | Mode lines outside a primary block add nothing |
| Screen.XrandrResolutions | core/src/screen.rs:169-262 | The unix list is a sorted permutation of the kept modes, each at least 640x480 with distinct non-zero rates, and empty when no current size was reported |
| UiHelper.LastIndex | gui/src/ui_helper.rs:143 | The last index of a non-empty list, and 0 for an empty one |
| UiHelper.CurrentResolutionIndex | gui/src/ui_helper.rs:132-144 | The selected resolution is a valid index of a non-empty list, and 0 for an empty one |
| UiHelper.SettingsAsWritten | gui/src/ui_helper.rs:122-187 | As written, a windowed setting with a non-zero stored width and no `_window` height shows the stored width as the window height |
| UiHelper.Settings | gui/src/ui_helper.rs:122-187 | Corrected, a windowed setting with a non-zero stored height and no `_window` height shows the stored height |
| UiHelper.SetFfnxConfig | gui/src/ui_helper.rs:122-187 | The settings file is loaded into the cache on first use, a cached document is reused as it is, and the record shown is the corrected `Settings` of the cached document |
| UiHelper.RatesAt | gui/src/ui_helper.rs:83-88 | The rates of the resolution at the selected index, and none when the index is negative or past the end |
| UiHelper.SetResolutions | gui/src/ui_helper.rs:77-104 | One "WxH" label per resolution, in order, and one "F Hz" label per rate of the selected resolution, in order |
| UiHelper.SetRefreshRates | gui/src/ui_helper.rs:106-120 | One "F Hz" label per rate, in order |
| UiHelper.ResolutionLabelInjective | gui/src/ui_helper.rs:81 | Equal resolution labels mean equal sizes |
| UiHelper.RateLabelParse | gui/src/ui_helper.rs:89-109 | A rate label is the rate's decimal digits followed by " Hz", and reads back as the rate |
| UiHelper.DistinctLabels | gui/src/ui_helper.rs:78-82 | A screen whose sizes are distinct gets a resolution list without a repeated label |
| UiHelper.EmptyFileDefaults | gui/src/ui_helper.rs:122-187 | An empty settings file shows fullscreen, no border, vsync, anisotropic filtering, no bilinear filtering, gamepad icons, renderer, anti-aliasing and scale 0, and a 640x480 window |
| UiHelper.WindowSizeFallback | gui/src/ui_helper.rs:126-179 | Without `_window` keys the window is 640x480 when fullscreen, and otherwise the stored size with 640 or 480 standing in for a zero |
| UiHelper.CurrentResolutionChosen | gui/src/ui_helper.rs:132-144 | The selected resolution has the stored fullscreen size, the current size standing in for zero, and is the last one when no resolution has that size |
| UiHelper.CurrentRefreshRateChosen | gui/src/ui_helper.rs:156-161 | The selected rate index points at the stored rate, the current mode's first standing in for zero, and is 0 when the selected resolution lacks it |
| UiHelper.WindowHeightFromWidth | gui/src/ui_helper.rs:131 | A windowed 800x600 setting shows an 800x800 window as written, and 800x600 once corrected |
| WorkerLoop.StoredInt | gui/src/worker_loop.rs:155-181 | The integer read back is the one stored under the key when an integer is stored there, and 0 exactly when none is |
| WorkerLoop.ResolutionAt | gui/src/worker_loop.rs:142-204 | A resolution exactly when the index, taken as an unsigned size, is inside the list, and then the one at that index |
| WorkerLoop.CurrentResolutionStored | gui/src/worker_loop.rs:141-171 | Choosing a resolution stores its size as the fullscreen size, and as the size too when fullscreen; windowed, the size becomes the remembered window size. An out-of-range index stores 0x0. Only those four keys change |
| WorkerLoop.WindowSizeStored | gui/src/worker_loop.rs:172-188 | Setting a window size remembers it under `_window`; the key itself takes it when windowed and the fullscreen size when fullscreen. Only those two keys change |
| WorkerLoop.IntSettingStored | gui/src/worker_loop.rs:140-192 | Any other integer key is stored as given, and `current_resolution` itself is never stored |
| WorkerLoop.ChosenModeShownBack | gui/src/worker_loop.rs:140-209 | After a resolution and one of its rates are chosen, the settings page shows that resolution and that rate, when sizes are distinct and the rate is listed once and is not zero |
| WorkerLoop.ModeShown | gui/src/worker_loop.rs:166-208 | Settings holding a listed mode's size as the fullscreen size, and its rate, show that mode |
| WorkerLoop.WindowSizeShownBack | gui/src/worker_loop.rs:172-188 | The window size set from the interface is the one the settings page shows back, in either mode |
| WorkerLoop.PatchName | gui/src/worker_loop.rs:355-367 | A 1.02 patch name exactly for a game at version 1.00 |
| WorkerLoop.PatchesByPublisher | gui/src/worker_loop.rs:355-370 | The US and UK editions share one patch and address; every other publisher has its own |
| WorkerLoop.Do | gui/src/worker_loop.rs:289-434 | After a required action fails nothing more is done. Otherwise the action is taken, and it ends the installation exactly when it is required and fails |
| WorkerLoop.Acquire | gui/src/worker_loop.rs:300-332 | Finding or downloading the runtime keeps the actions consistent with the world, and takes only downloads |
| WorkerLoop.ExeStage | gui/src/worker_loop.rs:342-350 | Replacing the Steam launcher and copying the executable keep the actions consistent and as expected |
| WorkerLoop.BinkStage | gui/src/worker_loop.rs:352-393 | The patch or `binkw32.dll` step keeps the actions consistent and as expected |
| WorkerLoop.EaxStage | gui/src/worker_loop.rs:394-416 | The sound library step keeps the actions consistent and as expected |
| WorkerLoop.InputStage | gui/src/worker_loop.rs:417-431 | The controls file step keeps the actions consistent and as expected |
| WorkerLoop.InstallOutcome | gui/src/worker_loop.rs:289-434 | Installing succeeds exactly when every required action succeeds, the last being the 4 GB patch. It fails on the first required action that fails, or when the downloaded runtime is still not found |
| WorkerLoop.InstallConsistent | gui/src/worker_loop.rs:289-434 | The actions taken, with the failure that ended them, are consistent with the world |
| WorkerLoop.InstallActions | gui/src/worker_loop.rs:334-431 | The 1.02 patch is downloaded only for a 2000 edition at 1.00 without `binkw32.dll`, from its publisher's address, and never fails the installation. On Steam every action is required. The settings written are those read, with the overlays off |
| WorkerLoop.SetupSpec | gui/src/worker_loop.rs:436-477 | A game is returned exactly when the executable gives an installation and the settings holding it, the channel and the language are written. A failure keeps the settings file and shows an error |
| WorkerLoop.RunSetup | gui/src/worker_loop.rs:436-477 | Setting up through the launcher's settings object gives the setup specification |
| WorkerLoop.SetupRemembered | gui/src/worker_loop.rs:228-477 | After a setup, the next start finds the chosen game and channel in the settings without showing the setup page, and reads back the chosen language |
| WorkerLoop.SetupPage | gui/src/worker_loop.rs:479-498 | The setup page ends on a Setup that succeeded, with its channel, or at the first Quit. It waits for good only when the channel closes with no Quit left |
| WorkerLoop.SetupStep | gui/src/worker_loop.rs:480-496 | One message: a successful Setup chooses the game its executable gives, Quit and only Quit quits, anything else keeps the page |
| WorkerLoop.GoToSetupPage | gui/src/worker_loop.rs:479-498 | The message loop of the setup page gives the page's specification |
| WorkerLoop.RetrieveFfnx | gui/src/worker_loop.rs:500-523 | Retrying installation through the setup page reads only messages that exist |
| WorkerLoop.RetrieveFfnxInstallation | gui/src/worker_loop.rs:500-523 | The retry loop gives the retry specification |
| WorkerLoop.RetrieveFfnxDone | gui/src/worker_loop.rs:500-523 | The runtime is ready only after an installation that succeeded, for the game and channel reported, in that game's runtime directory; installing read the settings file the worker last wrote there when it knows of one, else the one found there at start |
| WorkerLoop.RetrieveInstallation | gui/src/worker_loop.rs:228-261 | A game found without reading a message is the one in the launcher's settings. Otherwise it was chosen by a successful Setup, the user quit, or the channel closed with no Quit |
| WorkerLoop.Cleared | gui/src/worker_loop.rs:224 | After every message the task text is cleared |
| WorkerLoop.SaveSpec | gui/src/lazy_ffnx_config.rs:48-53 | No cache: nothing happens. A written cache becomes the file and is dropped. A failed write keeps the cache and the file, with an error shown |
| WorkerLoop.Edit | gui/src/worker_loop.rs:131-221 | An edit changes only the interface and the cache. Cancel drops the cache, launching the other executable keeps it, and every other edit leaves a cache |
| WorkerLoop.Persist | gui/src/worker_loop.rs:95-220 | A save never changes the game, the runtime, the cache's directory or the launcher's settings. ConfigureFfnx shows the corrected `Settings` record |
| WorkerLoop.NextStop | gui/src/worker_loop.rs:78-223 | The next stop lies between the current index and the end of the messages |
| WorkerLoop.NextStopFirst | gui/src/worker_loop.rs:78-223 | It is the first Setup or Quit from the index on, or the end when there is none |
| WorkerLoop.Serve | gui/src/worker_loop.rs:78-225 | Serving stops at the first Setup or Quit, or when the channel closes, just after that message, with the game and the cache's directory unchanged |
| WorkerLoop.ServeStep | gui/src/worker_loop.rs:78-225 | A message that is not a stop is handled, the task text cleared, and serving goes on |
| WorkerLoop.ServeAtStop | gui/src/worker_loop.rs:80-222 | At a stop, or with the channel closed, serving changes nothing |
| WorkerLoop.EditsKeepFile | gui/src/worker_loop.rs:131-221 | Serving messages that never save leaves the settings file as it was |
| WorkerLoop.ReadySetup | gui/src/worker_loop.rs:80-94 | A failed setup stops the worker and reads nothing more. Quitting or waiting on the setup page stop it with the game unchanged. Otherwise the game is ready again, for a successful installation. When the new runtime is in the cache's directory, installing read the settings saved there since the cache was made, and the file holds those with the overlays off; elsewhere the cache's file is unchanged |
| WorkerLoop.ReadySetupKeepsSaves | gui/src/worker_loop.rs:334-341 | A setup into the cache's runtime directory keeps every saved setting other than the four overlays, the fullscreen flag among them |
| WorkerLoop.OverlaysOnly | gui/src/worker_loop.rs:334-341 | Turning the four overlays off keeps every other setting, present or absent, as it was |
| WorkerLoop.ReadyLoop | gui/src/worker_loop.rs:78-225 | Serving with a successfully installed runtime only ever switches to another successfully installed one |
| WorkerLoop.RunReadyInstalled | gui/src/worker_loop.rs:44-226 | Whenever the worker serves the settings, the runtime it serves them for was installed successfully |
| WorkerLoop.PersistSaves | gui/src/worker_loop.rs:95-220 | ConfigureFfnx and UpdateGame write the settings as loaded before the upgrade, and LaunchGame writes them with `app_path` set. Once written, the document is the file and the cache is dropped; otherwise it stays cached and the error is shown. ConfigureFfnx shows the corrected settings record derived from it |
| WorkerLoop.EditedSettingSaved | gui/src/worker_loop.rs:137-220 | A flag edited and then saved with ConfigureFfnx is in the written file and reads back as set |
| WorkerLoop.ApplyInt | gui/src/worker_loop.rs:140-192 | The cached configuration changes by the integer setting's rules |
| WorkerLoop.ApplyRefreshRate | gui/src/worker_loop.rs:196-209 | The cached configuration gets the chosen resolution's chosen rate, or 0 |
| WorkerLoop.SaveCache | gui/src/lazy_ffnx_config.rs:48-53 | Saving the cache object behaves as the save specification |
| WorkerLoop.HandleEdit | gui/src/worker_loop.rs:131-221 | An edit on the cache object behaves as its specification |
| WorkerLoop.HandlePersist | gui/src/worker_loop.rs:95-220 | A save on the cache object behaves as its specification, ConfigureFfnx showing the corrected settings record |
| WorkerLoop.HandleMessage | gui/src/worker_loop.rs:95-221 | Any message but Setup and Quit, on the cache object, behaves as its specification |
| WorkerLoop.ServeMessages | gui/src/worker_loop.rs:78-225 | The message loop on the cache object serves as specified |
| WorkerLoop.SetupWhileReady | gui/src/worker_loop.rs:80-94 | A Setup while ready behaves as its specification |
| WorkerLoop.ServeUntilExit | gui/src/worker_loop.rs:78-225 | The loop once ready, on the cache object, behaves as its specification |
| WorkerLoop.Run | gui/src/worker_loop.rs:44-226 | The worker finds the game, gets its runtime ready, shows the corrected settings record through a cache and serves messages, as the run specification describes |

## Left out

- File contents are strings or byte sequences in a map. Opening, reading, writing, copying and renaming files are looked up in that map, or they are outcomes the caller supplies.
- The network is not modelled: the GitHub release list, downloads of the runtime and of the 1.02 patches, and the zip extraction. The release list reaches the fold already deserialised, and a download is an action whose success the world decides.
- Timestamp parsing (jiff) is the parameter `parse` of the release fold, and it may fail.
- PE parsing (pelite) is reduced to the header fields the patch touches. The image checksum is a function parameter. The version-resource walk of `pe_version_info` is reduced to the fold over the strings it visits.
- MD5 and the system clock in the metadata rewrite are parameters. The XML reader and writer become a sequence of events, so the writer's two-space indentation is not modelled.
- Metadata.UpdateMetadata: the panics on a malformed attribute or a non-numeric slot number (launcher/src/metadata.rs:45-63) are not modelled; absent attributes count as 0, as in the source. A save directory name shorter than five characters is excluded by a precondition, where the source panics.
- Windows display enumeration and running `xrandr` are not modelled; they become their results. An `xrandr` line reaches the model already classified by the source's regular expressions, with its rates already rounded from `f32`.
- Screen.SameRatio: `Fraction` equality is stated as equality of the cross products, which is what equality of the reduced fractions means.
- The lookups in gui/src/screen.rs (24-55) and its Windows enumeration (58-153) repeat those of core/src/screen.rs line for line, so `Screen` models them once. The one difference, the empty screen on unix, is `Screen.ListScreensResolutionsUnixGui`.
- UiHelper.SetFfnxConfig requires the current mode to have a rate. Both enumerations give it one, and `refresh_rate_position` would panic otherwise (core/src/screen.rs:51).
- WorkerLoop: list lengths are assumed below 2^63, so a negative index cast to `usize` never lands inside a list.
- Slices in the source use byte offsets, and the model uses character offsets. They agree on the ASCII text these files hold. This covers `from_file`'s `line[number_start..i]`, `main.fl`'s language slice and the user id's `[5..]`.
- The user interface thread (slint) is not modelled. The values the worker posts are the model's results: page, task text, game-ready flag, settings record, labels and refresh rates. Posts that only display something are not modelled: `set_game_exe_path`, `set_update_channel`, and the executables that `retrieve_installation` lists from `Installation::search` (gui/src/worker_loop.rs:242-256).
- Log messages are not modelled.
- The message channel is a finite sequence. When it closes on the setup page, the source keeps waiting for ever. The model ends there with the explicit outcomes `Spins` and `Waiting`.
- The worker calls operations that do not exist in the core files shown, because they come from another revision:
  - `find_version_on_github`, `download`, `exe_path`, `launch_game` and a one-argument `replace_launcher`;
  - `set_bool`, `set_int`, `set_string`, `get_bool` and `get_int` on the runtime's settings;
  - the `window_size_*` and other setting keys.

  They are modelled as actions decided by the world, or as the typed TOML getters and assignments of `Toml`.
- `install_game_and_ffnx` is modelled through its provisioning calls: the download, copy, rename, `create_dir_all`, launcher replacement and patch steps. Each is an action the world lets succeed or fail. What they do to the disk is left out.
- What `upgrade_ffnx` leaves in the runtime's settings file is the world's `upgradeLeaves`. The outcomes of launching the game and the other executable are the world's `launchGame` and `launchCw`.
- The detection a setup runs is the world's `detect`. `WorkerLoop.Detects` ties it to `Installation.FromExePath` where a lemma needs that.
- `InputConfig::to_file` writes the text of `Display::fmt`, which is modelled; creating the file is not.
- The pinned expected output in core/tests/game/input_config.rs:6-73 is not restated. Its rows follow from `InputConfigFile.DisplayLinesAreLines` and the row-line lemmas.
- `IroArchive::from_path` and `unpack_all` (core/src/iro/archive.rs:26-36,64-81) read and write files entry by entry. Only the path table and the entry lookup they rely on are modelled. The deserialisation of `mod.xml` is a parameter.
- The VDF parsing of `libraryfolders.vdf` and Steam's own location are not modelled. The renumbering of the library keys that precedes the parsing is modelled.
- The platform base directories and the current executable's path in `Env::new` are parameters.
- The Windows-only parts of `installation.rs` are not modelled: registry lookups and `search_original_version`.
- Installation.GetStandardEditionLang: reads the language with the corrected `StandardLang`. When fewer than three characters follow the `ff8\data\` marker in `main.fl`, the source panics on the slice (core/src/game/installation.rs:181) and the model gives the shorter language. `StandardLangAsWritten` models the panic, as the Findings table states.
- Installation.DetectEditionLang: takes the retail language from `GetStandardEditionLang`, so it gives the corrected language where `from_exe_path` panics.
- Installation.FromExePath: returns an installation where the source panics on a short `main.fl` tail, because its language is the corrected one.
- Installation.FromDirectorySpec: states `from_directory` with the corrected retail language. `Installation.FromDirectory` returns an installation where the source panics on a short `main.fl` tail.
- Metadata.UpdateMetadata: writes the corrected hexadecimal `Signature`. The source writes the digest bytes as UTF-8 text, and panics when they are not valid UTF-8 (launcher/src/metadata.rs:39), as `SignatureAsWritten` states. Decoding UTF-8 into text is not modelled.
- UiHelper.SetFfnxConfig: shows the corrected `Settings`. When the window is not fullscreen and there are no `_window` keys, the source takes the window height from the width (gui/src/ui_helper.rs:131). `SettingsAsWritten` and `WindowHeightFromWidth` model that.
- WorkerLoop.Persist: ConfigureFfnx shows the corrected settings record of `UiHelper.SetFfnxConfig`, not the as-written height.
- WorkerLoop.PersistSaves: the record ConfigureFfnx shows is the corrected one, not the as-written height.
- WorkerLoop.HandlePersist: ConfigureFfnx goes through `UiHelper.SetFfnxConfig` and shows the corrected record.
- WorkerLoop.Run: the records it shows come from `UiHelper.SetFfnxConfig`, with the corrected height.
- WorkerLoop.ReadySetup: only the settings file in the cache's runtime directory is followed as the worker writes it. A later setup into another runtime directory reads the file found there at start, not what an earlier setup or an UpdateGame left there.
- Config.SetInstallation: a path that is not valid Unicode, where `to_str` fails, cannot occur, because paths are strings.

## Findings

| source | as written | input that shows it | evidently intended | confidence | as-written member | corrected member |
|---|---|---|---|---|---|---|
| core/src/game/input_config.rs:39 | `read_line` appends to a buffer that is never cleared, so every scan starts again at the top of the file and sees the first binding again | the text `Keyboard\r\n1. "Select" 32\r\n2. "Exit" 45\r\n`: the third read binds slot 1 again, and slot 2 is never set | each line scanned on its own | not executed; high | InputConfigFile.FromFileAsWritten, InputConfigFile.AsWrittenRepeats | InputConfigFile.FromFile, InputConfigFile.DisplayRoundTrip |
| core/src/game/input_config.rs:98-102 | the result is an error once 28 bindings are counted, although the message says the file needs 28 | any file `Display::fmt` writes, for example the one for `InputConfig::new(Standard)` | an error when fewer than 28 bindings are found | not executed; high | InputConfigFile.DisplayReadAsWritten | InputConfigFile.Outcome, InputConfigFile.DisplayRoundTrip |
| core/src/game/installation.rs:181 | the language is sliced as the three bytes after the marker, which panics when fewer follow | a `main.fl` whose text is `c:\ff8\data\fr` | at most three characters, without a trailing backslash | not executed; medium | Installation.StandardLangAsWritten, Installation.StandardLangAsWrittenPanics | Installation.StandardLang, Installation.StandardLangAgrees |
| gui/src/ui_helper.rs:131 | the window height is taken from the stored width | `fullscreen = false`, `window_size_x = 800`, `window_size_y = 600`, no `_window` keys: an 800x800 window is shown | the stored height | not executed; high | UiHelper.SettingsAsWritten, UiHelper.WindowHeightFromWidth | UiHelper.Settings |
| launcher/src/metadata.rs:39 | the raw MD5 digest is taken as UTF-8 text with `unwrap`, which panics for most digests | any save whose digest starts with the byte 0xFF | the digest in hexadecimal | not executed; medium | Metadata.SignatureAsWritten, Metadata.SignatureAsWrittenPanics | Metadata.Signature, Metadata.SignatureInjective |
