/** The Windows deployment object: its names, the libraries it copies into
    `bin`, the build-info file it writes and the packages it builds. */
module WindowsDeploy {
  import opened PyStr
  import opened PyPath
  import opened Ordering
  import opened Provenance
  import opened Naming
  import opened BuildInfo

  /** Libraries loaded at run time that the dependency scanner cannot see. */
  const ExtraDeps: seq<string> :=
    ["libeay32.dll", "ssleay32.dll", "libEGL.dll", "libGLESv2.dll",
     "D3DCompiler_43.dll", "D3DCompiler_46.dll", "D3DCompiler_47.dll"]

  /** The paths `solvedepsLibs` gathers after looking up `extras`: the
      scanned ones, plus each extra library found on the host and everything
      it depends on. */
  function CollectDeps(scanned: set<string>, extras: seq<string>, whereBin: string -> string,
                       allDeps: string -> seq<string>): set<string>
  {
    if extras == [] then scanned
    else
      var acc := CollectDeps(scanned, extras[..|extras| - 1], whereBin, allDeps);
      var path := whereBin(extras[|extras| - 1]);
      if path != "" then acc + {path} + (set d | d in allDeps(path)) else acc
  }

  /** Found extra libraries are added with their own dependencies; extra
      libraries missing on the host add nothing. */
  lemma {:induction false} CollectDepsMembers(scanned: set<string>, extras: seq<string>,
                                              whereBin: string -> string,
                                              allDeps: string -> seq<string>, x: string)
    ensures x in CollectDeps(scanned, extras, whereBin, allDeps) <==>
      x in scanned
      || exists k :: 0 <= k < |extras| && whereBin(extras[k]) != ""
                     && (x == whereBin(extras[k]) || x in allDeps(whereBin(extras[k])))
  {
    if extras != [] {
      var init := extras[..|extras| - 1];
      CollectDepsMembers(scanned, init, whereBin, allDeps, x);
      assert forall k :: 0 <= k < |init| ==> init[k] == extras[k];
    }
  }

  /** Where `solvedepsLibs` copies a library: `bin` under its own name. */
  function Destination(binaryInstallDir: string, dep: string): string
  {
    Join(binaryInstallDir, Basename(dep))
  }

  lemma DestinationShape(binaryInstallDir: string, dep: string)
    requires binaryInstallDir != [] && binaryInstallDir[|binaryInstallDir| - 1] != '/'
    ensures Destination(binaryInstallDir, dep) == binaryInstallDir + "/" + Basename(dep)
    ensures Basename(Destination(binaryInstallDir, dep)) == Basename(dep)
  {
    BasenameSpec(dep);
    JoinPlain(binaryInstallDir, Basename(dep));
  }

  /** The copies made in order: destination to source, a later copy to the
      same destination replacing an earlier one. */
  function StageAll(staged: map<string, string>, binaryInstallDir: string, deps: seq<string>): map<string, string>
  {
    if deps == [] then staged
    else
      var d := deps[|deps| - 1];
      StageAll(staged, binaryInstallDir, deps[..|deps| - 1])[Destination(binaryInstallDir, d) := d]
  }

  /** A library ends up at its destination unless a later one is copied to
      the same place. */
  lemma {:induction false} StageAllLatest(staged: map<string, string>, binaryInstallDir: string,
                                          deps: seq<string>, k: nat)
    requires k < |deps|
    requires forall j :: k < j < |deps| ==>
               Destination(binaryInstallDir, deps[j]) != Destination(binaryInstallDir, deps[k])
    ensures Destination(binaryInstallDir, deps[k]) in StageAll(staged, binaryInstallDir, deps)
    ensures StageAll(staged, binaryInstallDir, deps)[Destination(binaryInstallDir, deps[k])] == deps[k]
  {
    if k < |deps| - 1 {
      var init := deps[..|deps| - 1];
      assert init[k] == deps[k];
      StageAllLatest(staged, binaryInstallDir, init, k);
    }
  }

  /** Copying adds the destinations of the libraries and nothing else. */
  lemma {:induction false} StageAllKeys(staged: map<string, string>, binaryInstallDir: string,
                                        deps: seq<string>, t: string)
    ensures t in StageAll(staged, binaryInstallDir, deps) <==>
      t in staged || exists k :: 0 <= k < |deps| && Destination(binaryInstallDir, deps[k]) == t
  {
    if deps != [] {
      var init := deps[..|deps| - 1];
      StageAllKeys(staged, binaryInstallDir, init, t);
      assert forall k :: 0 <= k < |init| ==> init[k] == deps[k];
    }
  }

  /** A destination no library maps to keeps what it held. */
  lemma {:induction false} StageAllElsewhere(staged: map<string, string>, binaryInstallDir: string,
                                             deps: seq<string>, t: string)
    requires t in staged
    requires forall k :: 0 <= k < |deps| ==> Destination(binaryInstallDir, deps[k]) != t
    ensures t in StageAll(staged, binaryInstallDir, deps)
    ensures StageAll(staged, binaryInstallDir, deps)[t] == staged[t]
  {
    if deps != [] {
      var init := deps[..|deps| - 1];
      assert forall k :: 0 <= k < |init| ==> init[k] == deps[k];
      StageAllElsewhere(staged, binaryInstallDir, init, t);
    }
  }

  /** The libraries `solvedepsLibs` appends: every gathered path once, in
      ascending order. */
  lemma SolvedLibraries(scanned: set<string>, whereBin: string -> string, allDeps: string -> seq<string>)
    ensures var r := SortedSeq(CollectDeps(scanned, ExtraDeps, whereBin, allDeps));
      StrictlySorted(r)
      && forall x :: x in r <==>
           x in scanned
           || exists k :: 0 <= k < |ExtraDeps| && whereBin(ExtraDeps[k]) != ""
                          && (x == whereBin(ExtraDeps[k]) || x in allDeps(whereBin(ExtraDeps[k])))
  {
    SortedSeqSpec(CollectDeps(scanned, ExtraDeps, whereBin, allDeps));
    forall x {
      CollectDepsMembers(scanned, ExtraDeps, whereBin, allDeps, x);
    }
  }

  /** The threads `package()` starts. */
  datatype Job = PortableJob | InstallerJob

  function PackagingJobs(qtIFW: string): (jobs: seq<Job>)
    ensures |jobs| >= 1 && jobs[0] == PortableJob
    ensures InstallerJob in jobs <==> qtIFW != ""
    ensures forall i, j :: 0 <= i < j < |jobs| ==> jobs[i] != jobs[j]
  {
    if qtIFW != "" then [PortableJob, InstallerJob] else [PortableJob]
  }

  /** The gathering loop of `solvedepsLibs`: each extra library `whereBin`
      finds is added with its own dependencies. */
  method GatherDeps(scanned: set<string>, extras: seq<string>, whereBin: string -> string,
                    allDeps: string -> seq<string>) returns (deps: set<string>)
    ensures deps == CollectDeps(scanned, extras, whereBin, allDeps)
  {
    deps := scanned;
    var i := 0;
    while i < |extras|
      invariant 0 <= i <= |extras|
      invariant deps == CollectDeps(scanned, extras[..i], whereBin, allDeps)
    {
      var path := whereBin(extras[i]);
      assert extras[..i + 1][..i] == extras[..i];
      if path != "" {
        deps := deps + {path};
        var more := allDeps(path);
        var j := 0;
        while j < |more|
          invariant 0 <= j <= |more|
          invariant deps == CollectDeps(scanned, extras[..i], whereBin, allDeps) + {path}
                            + (set d | d in more[..j])
        {
          assert more[..j + 1] == more[..j] + [more[j]];
          deps := deps + {more[j]};
          j := j + 1;
        }
        assert more[..j] == more;
      }
      i := i + 1;
    }
    assert extras[..i] == extras;
  }

  /** The host-section loop of `writeBuildInfo`: the non-empty lines. */
  method HostSection(lines: seq<string>) returns (r: seq<string>)
    ensures r == NonEmptyLines(lines)
  {
    r := [];
    var i := 0;
    while i < |lines|
      invariant 0 <= i <= |lines|
      invariant r == NonEmptyLines(lines[..i])
    {
      NonEmptyLinesAppend(lines[..i], [lines[i]]);
      assert lines[..i + 1] == lines[..i] + [lines[i]];
      if |lines[i]| > 0 {
        r := r + [lines[i]];
      }
      i := i + 1;
    }
    assert lines[..i] == lines;
  }

  /** The package loop of `writeBuildInfo`: the non-empty answers of
      `searchPackageFor`, or `None` when a lookup raises. */
  method LookupPackages(deps: seq<string>, whereBin: string -> string, run: seq<string> -> Proc)
    returns (packages: Option<set<string>>)
    ensures packages.None? <==> !LookupsSucceed(deps, whereBin, run)
    ensures packages.Some? ==> packages.value == FoundPackages(deps, whereBin, run)
  {
    var found: set<string> := {};
    var k := 0;
    while k < |deps|
      invariant 0 <= k <= |deps|
      invariant LookupsSucceed(deps[..k], whereBin, run)
      invariant found == FoundPackages(deps[..k], whereBin, run)
    {
      var packageInfo := SearchPackageFor(deps[k], whereBin, run);
      LookupStep(deps, k, found, whereBin, run);
      if packageInfo.Raise? {
        return None;
      }
      if |packageInfo.value| > 0 {
        found := found + {packageInfo.value};
      }
      k := k + 1;
    }
    assert deps[..k] == deps;
    packages := Some(found);
  }

  class Deploy {
    const programName: string
    const programVersion: string
    const pkgsDir: string
    const rootInstallDir: string
    const binaryInstallDir: string
    const targetArch: Arch
    const qtIFWVersion: string
    /** `binarySolver.sysBinsPath`. */
    var sysBinsPath: seq<string>
    var installerTargetDir: string
    var outPackage: string
    /** The libraries copied into `bin`, in copy order. */
    var dependencies: seq<string>
    /** The copies into the install tree: destination to source. */
    var staged: map<string, string>
    /** The lines of `share/build-info.txt`. */
    var buildInfo: seq<string>

    /** The program version and the Qt Installer Framework version are read
        by code this model does not cover and come in as parameters. */
    constructor (buildDir: string, qtInstallBins: string, programVersion: string, qtIFWVersion: string)
      ensures programName == "webcamoid"
      ensures pkgsDir == Join(buildDir, "ports/deploy/packages_auto/windows")
      ensures rootInstallDir == Join(Join(buildDir, "ports/deploy/temp_priv"), "webcamoid")
      ensures binaryInstallDir == Join(rootInstallDir, "bin")
      ensures targetArch == TargetArch(qtInstallBins)
      ensures this.programVersion == programVersion && this.qtIFWVersion == qtIFWVersion
      ensures dependencies == [] && staged == map[] && buildInfo == []
    {
      var installDir := Join(buildDir, "ports/deploy/temp_priv");
      pkgsDir := Join(buildDir, "ports/deploy/packages_auto/windows");
      programName := "webcamoid";
      rootInstallDir := Join(installDir, "webcamoid");
      binaryInstallDir := Join(Join(installDir, "webcamoid"), "bin");
      this.programVersion := programVersion;
      this.qtIFWVersion := qtIFWVersion;
      targetArch := TargetArch(qtInstallBins);
      sysBinsPath := [];
      installerTargetDir := "";
      outPackage := "";
      dependencies := [];
      staged := map[];
      buildInfo := [];
    }

    /** The naming part of `prepare()`: the MinGW library path, then the
        installer's target directory and file name; an IFW version whose
        major part `int()` rejects raises `ValueError` before either is set. */
    method Prepare() returns (error: Option<PyError>)
      modifies this`sysBinsPath, this`installerTargetDir, this`outPackage
      ensures sysBinsPath == SysBinsPath(targetArch)
      ensures AppsDir(qtIFWVersion, targetArch).Raise? ==>
        error == Some(AppsDir(qtIFWVersion, targetArch).error)
        && installerTargetDir == old(installerTargetDir) && outPackage == old(outPackage)
      ensures AppsDir(qtIFWVersion, targetArch).Ok? ==>
        error == None
        && installerTargetDir == InstallerTargetDir(AppsDir(qtIFWVersion, targetArch).value, programName)
        && outPackage == Join(pkgsDir, InstallerFileName(programName, programVersion, targetArch))
    {
      sysBinsPath := SysBinsPath(targetArch);
      var appsDir := AppsDir(qtIFWVersion, targetArch);
      if appsDir.Raise? {
        return Some(appsDir.error);
      }
      installerTargetDir := InstallerTargetDir(appsDir.value, programName);
      outPackage := Join(pkgsDir, InstallerFileName(programName, programVersion, targetArch));
      error := None;
    }

    /** `solvedepsLibs()`: gather the scanned libraries and the extra ones
        found on the host, sort them, copy each into `bin` and record it. */
    method SolveDepsLibs(scanned: set<string>, whereBin: string -> string, allDeps: string -> seq<string>)
      modifies this`dependencies, this`staged
      ensures dependencies == old(dependencies) + SortedSeq(CollectDeps(scanned, ExtraDeps, whereBin, allDeps))
      ensures staged == StageAll(old(staged), binaryInstallDir,
                                 SortedSeq(CollectDeps(scanned, ExtraDeps, whereBin, allDeps)))
    {
      var deps := GatherDeps(scanned, ExtraDeps, whereBin, allDeps);
      var sorted := Sort(deps);
      CopyLibraries(sorted);
    }

    /** The copy loop of `solvedepsLibs`: each library into `bin`, recorded in
        `dependencies` in the same order. */
    method CopyLibraries(deps: seq<string>)
      modifies this`dependencies, this`staged
      ensures dependencies == old(dependencies) + deps
      ensures staged == StageAll(old(staged), binaryInstallDir, deps)
    {
      var k := 0;
      while k < |deps|
        invariant 0 <= k <= |deps|
        invariant dependencies == old(dependencies) + deps[..k]
        invariant staged == StageAll(old(staged), binaryInstallDir, deps[..k])
      {
        var dep := deps[k];
        var depPath := Destination(binaryInstallDir, dep);
        assert deps[..k + 1][..k] == deps[..k];
        staged := staged[depPath := dep];
        dependencies := dependencies + [dep];
        k := k + 1;
      }
      assert deps[..k] == deps;
    }

    /** Writes `lines` to the end of the build-info file, one at a time. */
    method AppendLines(lines: seq<string>)
      modifies this`buildInfo
      ensures buildInfo == old(buildInfo) + lines
    {
      var j := 0;
      while j < |lines|
        invariant 0 <= j <= |lines|
        invariant buildInfo == old(buildInfo) + lines[..j]
      {
        assert lines[..j + 1] == lines[..j] + [lines[j]];
        buildInfo := buildInfo + [lines[j]];
        j := j + 1;
      }
      assert lines[..j] == lines;
    }

    /** `writeBuildInfo()`: commit, host, Wine and package sections, in that
        order. Returns whether the method ran to its end. */
    method WriteBuildInfo(git: Option<Proc>, sysInfo: string, wine: Option<(Proc, Proc)>,
                          whereBin: string -> string, run: seq<string> -> Proc)
      returns (completed: bool)
      modifies this`buildInfo
      ensures Written(buildInfo, completed) == BuildInfoFile(git, sysInfo, wine, dependencies, whereBin, run)
    {
      var commitHash := CommitHash(git);
      if |commitHash| < 1 {
        commitHash := "Unknown";
      }
      buildInfo := ["Commit hash: " + commitHash, ""];
      var host := HostSection(Split(sysInfo, '\n'));
      buildInfo := buildInfo + host;
      buildInfo := buildInfo + [""];
      assert commitHash == OrUnknown(CommitHash(git));
      assert buildInfo == HeadLines(git, sysInfo);
      BuildInfoFileEnds(git, sysInfo, wine, dependencies, whereBin, run);
      if wine.None? {
        return false;
      }
      var (wineVersion, windowsVersion) := wine.value;
      buildInfo := buildInfo + ["Wine Version: " + Strip(wineVersion.stdout)];
      var fakeWindowsVersion := Strip(windowsVersion.stdout);
      if |fakeWindowsVersion| < 1 {
        fakeWindowsVersion := "Unknown";
      }
      buildInfo := buildInfo + ["Windows Version: " + fakeWindowsVersion, ""];
      assert buildInfo == HeadLines(git, sysInfo) + WineLines(wineVersion, windowsVersion);
      var packages := LookupPackages(dependencies, whereBin, run);
      if packages.None? {
        return false;
      }
      var sorted := Sort(packages.value);
      AppendLines(sorted);
      completed := true;
    }
  }
}
