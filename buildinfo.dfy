/** `writeBuildInfo`: the lines of `share/build-info.txt`, which records the
    commit, the build host, the Wine setup and the host packages that
    provided the bundled libraries. */
module BuildInfo {
  import opened PyStr
  import opened Ordering
  import opened Provenance

  /** `commitHash()`: `git rev-parse HEAD`, stripped; `""` when git cannot be
      started (`None`) or fails. */
  function CommitHash(git: Option<Proc>): (r: string)
    ensures Trimmed(r)
    ensures git.None? || git.value.returncode != 0 ==> r == ""
  {
    match git
    case None => ""
    case Some(p) =>
      StripIsTrimmed(p.stdout);
      if p.returncode != 0 then "" else Strip(p.stdout)
  }

  /** The hash is git's output without the surrounding whitespace. */
  lemma CommitHashAnswer(pre: string, h: string, post: string)
    requires AllSpace(pre) && AllSpace(post) && Trimmed(h)
    ensures CommitHash(Some(Proc(0, pre + h + post))) == h
  {
    StripAround(pre, h, post);
  }

  /** An empty value is recorded as `Unknown`. */
  function OrUnknown(s: string): (r: string)
    ensures r != []
    ensures r == s || (s == [] && r == "Unknown")
  {
    if |s| < 1 then "Unknown" else s
  }

  /** The non-empty lines, in order. */
  function NonEmptyLines(lines: seq<string>): (r: seq<string>)
    ensures |r| <= |lines|
    ensures forall x :: x in r <==> x in lines && x != []
  {
    if lines == [] then []
    else
      var rest := NonEmptyLines(lines[1..]);
      assert forall x :: x in lines <==> x == lines[0] || x in lines[1..];
      if lines[0] != [] then [lines[0]] + rest else rest
  }

  lemma {:induction false} NonEmptyLinesAppend(a: seq<string>, b: seq<string>)
    ensures NonEmptyLines(a + b) == NonEmptyLines(a) + NonEmptyLines(b)
  {
    if a != [] {
      NonEmptyLinesAppend(a[1..], b);
      assert (a + b)[1..] == a[1..] + b;
    } else {
      assert a + b == b;
    }
  }

  lemma {:induction false} NonEmptyLinesKeep(lines: seq<string>)
    requires forall k :: 0 <= k < |lines| ==> lines[k] != []
    ensures NonEmptyLines(lines) == lines
  {
    if lines != [] {
      NonEmptyLinesKeep(lines[1..]);
    }
  }

  /** The host section: the non-empty lines of text of the release files under `/etc`. */
  function HostLines(sysInfo: string): seq<string>
  {
    NonEmptyLines(Split(sysInfo, '\n'))
  }

  /** Release files made of non-empty lines, each ending in a newline, are
      copied line for line. */
  lemma HostLinesOfRelease(lines: seq<string>)
    requires |lines| >= 1
    requires forall k :: 0 <= k < |lines| ==> lines[k] != [] && '\n' !in lines[k]
    ensures HostLines(JoinWith(lines, '\n') + "\n") == lines
  {
    var text := JoinWith(lines, '\n');
    assert text + "\n" == text + ['\n'] + [];
    SplitAppend(text, [], '\n');
    SplitJoin(lines, '\n');
    NonEmptyLinesAppend(lines, [[]]);
    NonEmptyLinesKeep(lines);
    assert NonEmptyLines([[]]) == [];
  }

  /** The host packages of the bundled libraries: every non-empty answer of
      `searchPackageFor`. */
  function FoundPackages(deps: seq<string>, whereBin: string -> string, run: seq<string> -> Proc): set<string>
  {
    set d | d in deps && SearchPackageFor(d, whereBin, run).Ok? && SearchPackageFor(d, whereBin, run).value != []
          :: SearchPackageFor(d, whereBin, run).value
  }

  /** No lookup raised. */
  predicate LookupsSucceed(deps: seq<string>, whereBin: string -> string, run: seq<string> -> Proc)
  {
    forall k :: 0 <= k < |deps| ==> SearchPackageFor(deps[k], whereBin, run).Ok?
  }

  /** One more lookup: it either raises or adds its answer when non-empty. */
  lemma LookupOneMore(deps: seq<string>, d: string, whereBin: string -> string, run: seq<string> -> Proc)
    ensures LookupsSucceed(deps + [d], whereBin, run) <==>
      LookupsSucceed(deps, whereBin, run) && SearchPackageFor(d, whereBin, run).Ok?
    ensures var a := SearchPackageFor(d, whereBin, run);
      a.Ok? ==> FoundPackages(deps + [d], whereBin, run)
                == FoundPackages(deps, whereBin, run) + (if a.value != [] then {a.value} else {})
  {
    var e := deps + [d];
    assert forall k :: 0 <= k < |deps| ==> e[k] == deps[k];
    assert e[|deps|] == d;
    assert forall x :: x in e <==> x in deps || x == d;
  }

  /** One turn of the package loop: a raising lookup makes the whole run
      raise; otherwise the first `k + 1` lookups succeed and their answers are
      the earlier ones plus this one when non-empty. */
  lemma LookupStep(deps: seq<string>, k: nat, found: set<string>,
                   whereBin: string -> string, run: seq<string> -> Proc)
    requires k < |deps|
    requires LookupsSucceed(deps[..k], whereBin, run)
    requires found == FoundPackages(deps[..k], whereBin, run)
    ensures var a := SearchPackageFor(deps[k], whereBin, run);
      (a.Raise? ==> !LookupsSucceed(deps, whereBin, run))
      && (a.Ok? ==> LookupsSucceed(deps[..k + 1], whereBin, run)
                    && FoundPackages(deps[..k + 1], whereBin, run)
                       == found + (if a.value != [] then {a.value} else {}))
  {
    var pre, d := deps[..k], deps[k];
    if SearchPackageFor(d, whereBin, run).Ok? {
      assert deps[..k + 1] == pre + [d];
      LookupOneMore(pre, d, whereBin, run);
    }
  }

  /** The sections up to the blank line after the host section. */
  function HeadLines(git: Option<Proc>, sysInfo: string): seq<string>
  {
    ["Commit hash: " + OrUnknown(CommitHash(git)), ""] + HostLines(sysInfo) + [""]
  }

  /** The two Wine lines and the blank line after them. */
  function WineLines(wineVersion: Proc, windowsVersion: Proc): seq<string>
  {
    ["Wine Version: " + Strip(wineVersion.stdout),
     "Windows Version: " + OrUnknown(Strip(windowsVersion.stdout)),
     ""]
  }

  /** What is in the file when `writeBuildInfo` returns or raises, and whether
      it returned. `wine` is `None` when Wine cannot be started: the Wine
      probes are not guarded, so the exception ends the method after the host
      section. A dpkg lookup that raises ends it before any package line. */
  datatype Written = Written(lines: seq<string>, completed: bool)

  ghost function BuildInfoFile(git: Option<Proc>, sysInfo: string, wine: Option<(Proc, Proc)>,
                               deps: seq<string>, whereBin: string -> string,
                               run: seq<string> -> Proc): Written
  {
    var head := HeadLines(git, sysInfo);
    match wine
    case None => Written(head, false)
    case Some((v, w)) =>
      if !LookupsSucceed(deps, whereBin, run) then Written(head + WineLines(v, w), false)
      else Written(head + WineLines(v, w) + SortedSeq(FoundPackages(deps, whereBin, run)), true)
  }

  /** The three ways `writeBuildInfo` ends, section by section. */
  lemma BuildInfoFileEnds(git: Option<Proc>, sysInfo: string, wine: Option<(Proc, Proc)>,
                          deps: seq<string>, whereBin: string -> string, run: seq<string> -> Proc)
    ensures wine.None? ==>
      BuildInfoFile(git, sysInfo, wine, deps, whereBin, run) == Written(HeadLines(git, sysInfo), false)
    ensures wine.Some? && !LookupsSucceed(deps, whereBin, run) ==>
      BuildInfoFile(git, sysInfo, wine, deps, whereBin, run)
      == Written(HeadLines(git, sysInfo) + WineLines(wine.value.0, wine.value.1), false)
    ensures wine.Some? && LookupsSucceed(deps, whereBin, run) ==>
      BuildInfoFile(git, sysInfo, wine, deps, whereBin, run)
      == Written(HeadLines(git, sysInfo) + WineLines(wine.value.0, wine.value.1)
                 + SortedSeq(FoundPackages(deps, whereBin, run)), true)
  {
  }

  /** The file always opens with the commit line, `Unknown` standing for a
      missing hash, then a blank line and the host lines. */
  lemma BuildInfoOpening(git: Option<Proc>, sysInfo: string, wine: Option<(Proc, Proc)>,
                         deps: seq<string>, whereBin: string -> string, run: seq<string> -> Proc)
    ensures var f := BuildInfoFile(git, sysInfo, wine, deps, whereBin, run);
      var h := HostLines(sysInfo);
      |f.lines| >= 3 + |h|
      && f.lines[0] == "Commit hash: " + (if CommitHash(git) == [] then "Unknown" else CommitHash(git))
      && f.lines[1] == []
      && f.lines[2..2 + |h|] == h
      && f.lines[2 + |h|] == []
      && (forall k :: 2 <= k < 2 + |h| ==> f.lines[k] != [])
  {
    var f := BuildInfoFile(git, sysInfo, wine, deps, whereBin, run);
    var head := HeadLines(git, sysInfo);
    var h := HostLines(sysInfo);
    assert f.lines[..|head|] == head;
    assert head[2..2 + |h|] == h;
    forall k | 2 <= k < 2 + |h|
      ensures f.lines[k] != []
    {
      assert f.lines[k] == h[k - 2];
      assert h[k - 2] in h;
    }
  }

  /** After a complete run the file ends with the package section: every
      package once, in ascending order, none empty, and exactly the answers
      some bundled library got. */
  lemma BuildInfoPackages(git: Option<Proc>, sysInfo: string, v: Proc, w: Proc,
                          deps: seq<string>, whereBin: string -> string, run: seq<string> -> Proc)
    requires LookupsSucceed(deps, whereBin, run)
    ensures var f := BuildInfoFile(git, sysInfo, Some((v, w)), deps, whereBin, run);
      var n := |HeadLines(git, sysInfo)| + 3;
      var pkgs := f.lines[n..];
      f.completed
      && f.lines[n - 3] == "Wine Version: " + Strip(v.stdout)
      && f.lines[n - 2] == "Windows Version: " + OrUnknown(Strip(w.stdout))
      && StrictlySorted(pkgs)
      && (forall x :: x in pkgs ==> x != [])
      && (forall x :: x in pkgs <==>
            exists k :: 0 <= k < |deps| && SearchPackageFor(deps[k], whereBin, run) == Ok(x) && x != [])
  {
    var f := BuildInfoFile(git, sysInfo, Some((v, w)), deps, whereBin, run);
    var head := HeadLines(git, sysInfo);
    var found := FoundPackages(deps, whereBin, run);
    var pkgs := SortedSeq(found);
    assert f.lines == head + WineLines(v, w) + pkgs;
    assert f.lines[|head| + 3..] == pkgs;
    SortedSeqSpec(found);
    forall x {
      FoundPackagesMembers(deps, whereBin, run, x);
    }
  }

  /** A package is listed exactly when some bundled library's lookup answered
      it. */
  lemma FoundPackagesMembers(deps: seq<string>, whereBin: string -> string, run: seq<string> -> Proc, x: string)
    ensures x in FoundPackages(deps, whereBin, run) <==>
      exists k :: 0 <= k < |deps| && SearchPackageFor(deps[k], whereBin, run) == Ok(x) && x != []
  {
    if x in FoundPackages(deps, whereBin, run) {
      var d :| d in deps && SearchPackageFor(d, whereBin, run) == Ok(x) && x != [];
      var k :| 0 <= k < |deps| && deps[k] == d;
    }
  }

  /** Without any package manager on the host the file still records the
      commit, host and Wine sections, and no package line. */
  lemma BuildInfoWithoutPackageManager(git: Option<Proc>, sysInfo: string, v: Proc, w: Proc,
                                       deps: seq<string>, whereBin: string -> string,
                                       run: seq<string> -> Proc)
    requires whereBin("pacman") == "" && whereBin("dpkg") == "" && whereBin("rpm") == ""
    ensures BuildInfoFile(git, sysInfo, Some((v, w)), deps, whereBin, run)
            == Written(HeadLines(git, sysInfo) + WineLines(v, w), true)
  {
    forall k | 0 <= k < |deps|
      ensures SearchPackageFor(deps[k], whereBin, run) == Ok("")
    {
      NoPackageManager(deps[k], whereBin, run);
    }
    var found := FoundPackages(deps, whereBin, run);
    assert found == {};
    assert SortedSeq(found) == [];
  }
}
