# Webcamoid Windows packaging rules, in Dafny

This project models the rules inside webcamoid's Windows packaging script,
`ports/deploy/deploy_posix_windows.py`, and proves properties of them. The
script stages an install tree for a MinGW cross build and then turns it into
a portable ZIP archive and, when the Qt Installer Framework is present, an
installer. Within that script the model covers:

- the two clean-up passes over the staged tree: build byproducts
  (`removeUnneededFiles`) and Qt debug DLLs (`removeDebugs`). Module
  `Cleanup` models them as a `StagingTree` class whose set of files the
  methods shrink.
- the naming part of `prepare`: the MinGW library path, the installer's
  applications directory, its target directory and file name (`Naming`,
  `WindowsDeploy.Deploy.Prepare`);
- `solvedepsLibs`: gathering the scanned and extra DLLs, sorting them, copying
  each into `bin` and recording it in `dependencies` (`WindowsDeploy`);
- the output parsers of `searchPackageFor` for pacman, dpkg and rpm, and the
  order in which the three are tried (`Provenance`);
- the lines `writeBuildInfo` writes to `share/build-info.txt` (`BuildInfo`,
  `WindowsDeploy.Deploy.WriteBuildInfo`);
- the `.bat` launcher of `createLauncher` (`Launcher`);
- the unit choice of `hrSize` (`SizeFormat`);
- the archive names of `createPortable` (`Portable`);
- which packaging jobs `package()` starts (`WindowsDeploy.PackagingJobs`).

The Python semantics these rules rely on are defined once, in `PyStr`,
`PyPath` and `Ordering`:

- `PyStr` covers `str.strip` over CPython's whitespace set, `split(sep)`,
  `split()`, `replace(pat, '')`, `str(n)` for n ≥ 0 and `int(str)`.
- `PyPath` covers `posixpath.join`, `basename` and `splitext`.
- `Ordering` covers the `<` order on `str` and `sorted()` of a set, the latter
  as a method proved against a specification function.

Child processes are given as their results. `Proc` holds an exit status and
the decoded standard output. `run` maps an argument vector to the finished
process. `whereBin` maps a program name to its path, or `""`. The dependency
scanner and `allDependencies` are parameters too.

## Model

| member | source | states |
|---|---|---|
| `Cleanup.WithinWalk` | ports/deploy/deploy_posix_windows.py:82 | `os.walk` reaches every subdirectory `os.path.join(path, sub)`, even when `path` ends in `/`. An empty path reaches nothing. |
| `Cleanup.RuntimeFilesKept` | ports/deploy/deploy_posix_windows.py:82-85 | A name ending in `.dll`, `.exe` or `.qml` never matches the byproduct suffixes. |
| `Cleanup.StagingTree.RemoveUnneededFiles` | ports/deploy/deploy_posix_windows.py:79-91 | The new tree is the old one minus exactly the files under `path` whose names end in `.a`, `.static.prl`, `.pdb` or `.lib`. Every other file stays. |
| `Cleanup.DebugName` | ports/deploy/deploy_posix_windows.py:170-172 | Computes the debug sibling's name: `d` inserted before the extension that `splitext` finds. `DllDebugName`, `DebugNameShape` and `LibraryNameOfDebugName` state what it gives for a `.dll` name. |
| `Cleanup.DllDebugName` | ports/deploy/deploy_posix_windows.py:170-172 | For `N.dll` the debug name is `Nd.dll`. When `N` is only dots, `splitext` sees no extension and the name is `N.dlld`. |
| `Cleanup.LibraryNameOfDebugName` | ports/deploy/deploy_posix_windows.py:170-172 | The `.dll` name can be read back from its debug name, so no information is lost. |
| `Cleanup.DebugNameInjective` | ports/deploy/deploy_posix_windows.py:170-172 | Two different `.dll` names never share a debug name. |
| `Cleanup.DebugFilesShape` | ports/deploy/deploy_posix_windows.py:165-175 | Every file chosen for deletion exists and lies under the Qt directory. It sits next to the `.dll` it was derived from, is a different file, and is named `...d.dll` (or `....dlld`). |
| `Cleanup.StagingTree.RemoveDebugs` | ports/deploy/deploy_posix_windows.py:165-178 | The new tree is the old one minus exactly the existing debug siblings of the `.dll` files under `libQtInstallDir`. |
| `Naming.AppsDir` | ports/deploy/deploy_posix_windows.py:104-110 | Computes the applications directory from the IFW version and the architecture, or `ValueError` where `int()` rejects the major part. It has three outcomes: `AppsDirWithoutIFW` states the empty version, `AppsDirByMajor` a numeric major part and `AppsDirRejectsWord` a rejected one. |
| `Naming.AppsDirByMajor` | ports/deploy/deploy_posix_windows.py:104-110 | For an IFW version `M`, `M.x` or `M.x.y`, the applications directory is `@ApplicationsDir@` when `M < 3`. Otherwise it is `@ApplicationsDirX86@` for 32-bit and `@ApplicationsDirX64@` for 64-bit. |
| `Naming.AppsDirWithoutIFW` | ports/deploy/deploy_posix_windows.py:104-105 | Without an IFW version the directory is `@ApplicationsDir@` for either architecture. |
| `Naming.AppsDirRejectsWord` | ports/deploy/deploy_posix_windows.py:104 | A version whose first character is an ASCII letter, lower or upper case, makes `int()` raise `ValueError`. |
| `Naming.InstallerFileNameArch` | ports/deploy/deploy_posix_windows.py:113-117 | The installer name starts with `program-` and ends with `-win32.exe` or `-win64.exe`, matching the architecture. |
| `Naming.PackageNamesDiffer` | ports/deploy/deploy_posix_windows.py:397-402 | The portable archive's name never equals an installer name. |
| `WindowsDeploy.Deploy.constructor` | ports/deploy/deploy_posix_windows.py:35-76 | Package and install directories are derived from the build directory. The program is `webcamoid`. The target is 64-bit exactly when the Qt binaries path holds `x86_64`. Nothing is staged yet. |
| `WindowsDeploy.Deploy.Prepare` | ports/deploy/deploy_posix_windows.py:97-117 | Sets the MinGW path for the architecture. Then either sets the target directory and the installer path from the chosen applications directory, or raises `ValueError` with both left unchanged. |
| `WindowsDeploy.CollectDeps` | ports/deploy/deploy_posix_windows.py:139-155 | Computes the gathered set of paths. `CollectDepsMembers` says exactly which paths it holds, and `GatherDeps` is proved to compute it. |
| `WindowsDeploy.CollectDepsMembers` | ports/deploy/deploy_posix_windows.py:139-155 | A path is gathered iff the scanner reported it, or it is an extra DLL `whereBin` found, or it is a dependency of one. |
| `WindowsDeploy.GatherDeps` | ports/deploy/deploy_posix_windows.py:139-155 | The gathering loops compute exactly `CollectDeps`. |
| `WindowsDeploy.SolvedLibraries` | ports/deploy/deploy_posix_windows.py:139-157 | The sorted list is strictly ascending, with no duplicates, and holds exactly the gathered paths. |
| `WindowsDeploy.DestinationShape` | ports/deploy/deploy_posix_windows.py:160 | A library is copied to `binaryInstallDir/basename(dep)`, and the copy keeps the base name. |
| `WindowsDeploy.StageAll` | ports/deploy/deploy_posix_windows.py:159-162 | Computes the install tree's copies after copying the libraries in order. `StageAllLatest`, `StageAllKeys` and `StageAllElsewhere` state what it holds, and `CopyLibraries` is proved to produce it. |
| `WindowsDeploy.StageAllLatest` | ports/deploy/deploy_posix_windows.py:159-162 | After the copies, a library sits at its destination unless a later library went to the same destination. |
| `WindowsDeploy.StageAllKeys` | ports/deploy/deploy_posix_windows.py:159-162 | Copying creates exactly the destinations of the libraries. |
| `WindowsDeploy.StageAllElsewhere` | ports/deploy/deploy_posix_windows.py:159-162 | A file at a place no library is copied to is left as it was. |
| `WindowsDeploy.Deploy.CopyLibraries` | ports/deploy/deploy_posix_windows.py:159-163 | Appends the libraries to `dependencies` in order and stages each copy. |
| `WindowsDeploy.Deploy.SolveDepsLibs` | ports/deploy/deploy_posix_windows.py:138-163 | `dependencies` grows by the sorted gathered set, and the copies are exactly those of that list, in that order. |
| `Ordering.Sort` | ports/deploy/deploy_posix_windows.py:157 | `sorted()` of a set returns its sorted sequence. |
| `Ordering.SortedSeqSpec` | ports/deploy/deploy_posix_windows.py:343 | The sorted sequence of a set is strictly ascending, holds every element once, and has the set's size. |
| `Ordering.SortedUnique` | ports/deploy/deploy_posix_windows.py:343 | A strictly ascending sequence is determined by its elements, so the output order depends on the set alone. |
| `Provenance.ParsePacman` | ports/deploy/deploy_posix_windows.py:190-200 | The answer is empty iff pacman failed or its output has fewer than two space-separated tokens. |
| `Provenance.PacmanOwner` | ports/deploy/deploy_posix_windows.py:193-200 | The output `... name version` followed by a newline yields `name version`. |
| `Provenance.DpkgPackageOfQuery` | ports/deploy/deploy_posix_windows.py:213 | `package:arch: path` yields the package name before the first colon. |
| `Provenance.FirstVersionLine` | ports/deploy/deploy_posix_windows.py:223-229 | No line is found iff no stripped line starts with `Version:`. A found line starts with `Version:`. |
| `Provenance.ParseDpkgStatus` | ports/deploy/deploy_posix_windows.py:215-229 | Computes the dpkg answer from `dpkg -s`: `""` on failure or without a `Version:` line, `package version` from the first one, `IndexError` when that line has no value. `DpkgStatusVersion` and `DpkgVersionWithoutValue` state these cases. |
| `Provenance.DpkgStatusVersion` | ports/deploy/deploy_posix_windows.py:215-229 | A status report whose first `Version:` line is `Version: v` yields `package v`. |
| `Provenance.DpkgVersionWithoutValue` | ports/deploy/deploy_posix_windows.py:222-227 | In any successful report whose first `Version:` line has only whitespace after the colon, whatever lines come before and after it, `line.split()[1]` raises `IndexError`. |
| `Provenance.ParseRpm` | ports/deploy/deploy_posix_windows.py:237-242 | The answer is stripped, and empty when rpm failed. `RpmAnswer` states what it is when rpm succeeds. |
| `Provenance.RpmAnswer` | ports/deploy/deploy_posix_windows.py:237-242 | When rpm succeeds, the answer is its output without the surrounding whitespace: for any whitespace `pre` and `post` around a stripped `t`, the answer is exactly `t`. |
| `Provenance.SearchPackageFor` | ports/deploy/deploy_posix_windows.py:180-244 | Computes a lookup: pacman if found, else dpkg, else rpm, else `""`. `NoPackageManager`, `PacmanFirst`, `DpkgBeforeRpm` and `OnlyDpkgRaises` state this order and where it can raise. |
| `Provenance.NoPackageManager` | ports/deploy/deploy_posix_windows.py:180-244 | With no package manager on the host, every lookup answers `""`. |
| `Provenance.PacmanFirst` | ports/deploy/deploy_posix_windows.py:182-200 | When pacman is found, only its answer for the path matters. |
| `Provenance.DpkgBeforeRpm` | ports/deploy/deploy_posix_windows.py:202-229 | When pacman is absent and dpkg is found, rpm is never consulted. |
| `Provenance.OnlyDpkgRaises` | ports/deploy/deploy_posix_windows.py:180-244 | A lookup can raise only in the dpkg branch, and only `IndexError`. |
| `BuildInfo.CommitHash` | ports/deploy/deploy_posix_windows.py:246-259 | The hash is stripped, and empty when git cannot start or fails. `CommitHashAnswer` states what it is when git succeeds. |
| `BuildInfo.CommitHashAnswer` | ports/deploy/deploy_posix_windows.py:246-259 | When git succeeds, the hash is its output without the surrounding whitespace: for any whitespace `pre` and `post` around a stripped `h`, the hash is exactly `h`. |
| `BuildInfo.OrUnknown` | ports/deploy/deploy_posix_windows.py:286-287 | The recorded value is never empty: an empty one becomes `Unknown`. |
| `BuildInfo.NonEmptyLines` | ports/deploy/deploy_posix_windows.py:298-300 | Keeps exactly the non-empty lines, in order. |
| `BuildInfo.HostLinesOfRelease` | ports/deploy/deploy_posix_windows.py:294-300 | Release text made of non-empty, newline-terminated lines is copied line for line. |
| `BuildInfo.BuildInfoFile` | ports/deploy/deploy_posix_windows.py:272-348 | Computes the lines of `share/build-info.txt` and whether the method completes. `BuildInfoOpening`, `BuildInfoPackages` and `BuildInfoWithoutPackageManager` state its content, and `WriteBuildInfo` is proved to produce it. |
| `BuildInfo.BuildInfoOpening` | ports/deploy/deploy_posix_windows.py:284-303 | The file opens with `Commit hash: ` and the hash, or `Unknown` when it is empty. A blank line, the non-empty host lines and another blank line follow. |
| `BuildInfo.BuildInfoPackages` | ports/deploy/deploy_posix_windows.py:307-348 | After a complete run the Wine line holds the stripped Wine output, even when empty. The Windows line falls back to `Unknown`. The package lines are strictly ascending and non-empty, and are exactly the answers some bundled library got. |
| `BuildInfo.FoundPackagesMembers` | ports/deploy/deploy_posix_windows.py:335-341 | A package is listed iff some dependency's lookup answered it. |
| `BuildInfo.BuildInfoWithoutPackageManager` | ports/deploy/deploy_posix_windows.py:333-348 | Without any package manager the run completes, keeps the commit, host and Wine sections, and writes no package line. |
| `WindowsDeploy.HostSection` | ports/deploy/deploy_posix_windows.py:298-300 | The host loop writes exactly the non-empty lines. |
| `WindowsDeploy.LookupPackages` | ports/deploy/deploy_posix_windows.py:335-341 | The package loop raises iff some lookup raises. Otherwise it collects exactly the non-empty answers. |
| `WindowsDeploy.Deploy.AppendLines` | ports/deploy/deploy_posix_windows.py:345-348 | The package lines are appended in order. |
| `WindowsDeploy.Deploy.WriteBuildInfo` | ports/deploy/deploy_posix_windows.py:272-348 | The file's lines, and whether the method finishes, are those of `BuildInfoFile`. Sections come in order: commit, host, Wine, Windows, packages. The method stops after the host section when Wine cannot start, and before the packages when a lookup raises. |
| `Launcher.LauncherPathShape` | ports/deploy/deploy_posix_windows.py:351 | The launcher is `root/program.bat`, and its base name is `program.bat`. |
| `Launcher.WindowsSeparatorsSpec` | ports/deploy/deploy_posix_windows.py:353 | Every `/` of the QML path becomes `\` and every other character stays. |
| `Launcher.SeparatorsRoundTrip` | ports/deploy/deploy_posix_windows.py:353 | For a path without `\`, the converted path has no `/`, and converting back gives the original path. |
| `Launcher.StartCommand` | ports/deploy/deploy_posix_windows.py:367-371 | Computes the `start` line. `StartCommandQuoting` states how it splits at its double quotes. |
| `Launcher.StartCommandQuoting` | ports/deploy/deploy_posix_windows.py:367-371 | When no name holds `"`, splitting the `start` line at the quotes yields exactly its fields. The quoted fields are the program, the plugin directory, the QML directory and the configuration directory. |
| `Launcher.LauncherLines` | ports/deploy/deploy_posix_windows.py:355-371 | Computes the lines of the batch file. `LauncherRunsOneCommand` states that only the last one runs anything. |
| `Launcher.LauncherRunsOneCommand` | ports/deploy/deploy_posix_windows.py:355-371 | The batch file has 12 lines. Only the last one runs anything. The others are blank, `@echo off` or remarks. |
| `SizeFormat.HrSize` | ports/deploy/deploy_posix_windows.py:374-383 | Computes the size text from the exact exponent: bytes, a unit from KiB to TiB, or an error. `HrSizeRanges`, `HrSizeSmall` and `HrSizeLarge` state its ranges. |
| `SizeFormat.Exponent` | ports/deploy/deploy_posix_windows.py:375 | The exponent `i` satisfies `1024^i <= size < 1024^(i+1)`. |
| `SizeFormat.ExponentUnique` | ports/deploy/deploy_posix_windows.py:375 | Only that exponent brackets the size. |
| `SizeFormat.HrSizeRanges` | ports/deploy/deploy_posix_windows.py:374-383 | With the exact exponent: below 1 KiB the size is printed in bytes. Up to below 1024 TiB the unit matches the exponent and the mantissa lies in [1, 1024). From 1024 TiB on, the lookup raises `IndexError`. |
| `SizeFormat.MantissaBounds` | ports/deploy/deploy_posix_windows.py:381 | The mantissa `size / 1024^i` lies in [1, 1024). |
| `SizeFormat.HrSizeSmall` | ports/deploy/deploy_posix_windows.py:375-378 | 1023 bytes give `1023 B`, and 1024 bytes give 1 KiB. |
| `SizeFormat.HrSizeLarge` | ports/deploy/deploy_posix_windows.py:380-383 | With the exact exponent, 1024^4 and 1024^5 - 1 are TiB, and 1024^5 raises `IndexError`. The floating-point exponent differs at some of these sizes (see `SizeFormat.HrSize` under "Left out"). |
| `Portable.ArchiveNameRelative` | ports/deploy/deploy_posix_windows.py:408-412 | The intended archive name of `root/rel` is `program/rel`. |
| `Portable.ArchiveNameInjective` | ports/deploy/deploy_posix_windows.py:408-412 | The intended names of different files differ. |
| `Portable.ArchiveNameAsWritten` | ports/deploy/deploy_posix_windows.py:411-412 | Computes the name the script stores a file under, with every occurrence of `root/` removed. `AsWrittenAgrees` and `AsWrittenCollides` relate it to the intended `ArchiveName`. |
| `Portable.AsWrittenAgrees` | ports/deploy/deploy_posix_windows.py:411-412 | The script's name is the intended one when the relative path does not contain the root again. |
| `Portable.AsWrittenCollides` | ports/deploy/deploy_posix_windows.py:411-412 | With root `/r`, the script stores both `/r/a/r/b` and `/r/ab` as `webcamoid/ab`. |
| `WindowsDeploy.PackagingJobs` | ports/deploy/deploy_posix_windows.py:431-437 | The portable job always runs first. The installer job runs iff the IFW tool was found. No job appears twice. |

## Left out

- Child processes are not run. `make install`, git, Wine, pacman, dpkg and rpm are
  given as their results (`Proc`, `Option<Proc>`). So are `whereBin`, the
  dependency scanner, `allDependencies`, the qmake queries, `detectVersion`
  and the IFW version. The `LC_ALL=C` assignment in `searchPackageFor` is not modelled.
- Filesystem: the tree is a set of `(directory, name)` entries, and deletion removes them
  from the set. A copy into `bin` is an update of a destination-to-source
  map. The build-info file is a sequence of lines, and the `/etc` release files are
  one input string. `makedirs` and the console output are not modelled.
- `prepare` steps other than the naming branch are not modelled: `makeInstall`,
  `detectStrip`, `solvedepsQml`, `solvedepsPlugins`, `writeQtConf` and
  `stripSymbols` are external helpers. The order in which `prepare` calls the
  modelled steps is not stated.
- `createLauncher`: the `relpath` results are inputs, and the batch file is its list of lines.
- `createPortable`, `createAppInstaller`, `createInstaller`, `printPackageInfo`
  and `sha256sum`: ZIP writing, hashing and output are left out. Only the
  archive names and the package file names are modelled.
- `package()`: the threads and the lock are left out. Only the job list is modelled.
- SizeFormat.HrSize: the exponent is the exact integer logarithm. The code computes
  `math.log(size) // math.log(1024)` in IEEE double arithmetic, which differs near
  exact powers of 1024. For 1024^3 it gives 2.0, so 1 GiB prints as `1024.00 MiB`.
  For 1024^5 - 1 it gives 5.0, so `units[i - 1]` raises `IndexError` one byte early.
  `HrSizeRanges` and `HrSizeLarge` hold for the exact exponent only. The two-decimal
  rounding of the mantissa is not modelled either: `Scaled` carries the exact size,
  exponent and unit instead.
- Output decoding: `stdout.decode()` is taken to give the string the
  model works on. dpkg splits the bytes at `:` before decoding, which is the
  same for UTF-8 output because `:` is ASCII.
- PyStr.ParseInt: `int()` also accepts non-ASCII decimal digits. The model
  accepts ASCII digits, underscores, surrounding whitespace and a sign.
- `writeBuildInfo` does not guard the two Wine probes, and dpkg's
  `line.split()[1]` can raise `IndexError`. The model lets both end the method,
  and `WriteBuildInfo` reports `completed == false`. An empty Wine version is
  written as it is; only the Windows version falls back to `Unknown`.
- BuildInfo.BuildInfoPackages: each package answer is one element of the line sequence.
  An rpm answer can hold a newline (one line per owning package), because only its ends
  are stripped. Such an element is then several physical lines of the file, and the
  strict ascending order is stated for the elements, not for the physical lines.
- AppsDirRejectsWord: stated for a first character that is an ASCII letter. `int()`
  rejects every other letter as well, but the lemma does not state it.
- The install tree appears twice: `Cleanup.StagingTree.files` holds the files the
  clean-up passes delete, and `WindowsDeploy.Deploy.staged` holds the copies
  `solvedepsLibs` makes into `bin`. The model does not relate the two, and
  `RemoveDebugs` takes `libQtInstallDir` as a parameter instead of reading it
  from the deployment object.

## Findings

| source | as written | input that shows it | evidently intended | confidence | as-written member | corrected member |
|---|---|---|---|---|---|---|
| ports/deploy/deploy_posix_windows.py:411-412 | The archive name deletes every occurrence of `rootInstallDir + "/"` in the walked path, not only the leading one. | With install root `/r`, the files `/r/a/r/b` and `/r/ab` are both stored as `webcamoid/ab`. | Store each path relative to the install root under `webcamoid/`, so distinct files get distinct names. | not executed | `Portable.AsWrittenCollides` | `Portable.ArchiveNameInjective` |
