/** `searchPackageFor`: which host package installed a file, asked of pacman,
    dpkg or rpm, whichever is found first, as a `"name version"` string or
    `""`. Child processes are given as a function from the argument vector
    to the finished process. */
module Provenance {
  import opened PyStr

  /** A finished child process: its exit status and its decoded standard
      output. */
  datatype Proc = Proc(returncode: int, stdout: string)

  /** `pacman -Qo path`: the last two space-separated tokens of the output,
      stripped and joined by one space; `""` on failure or when there are
      fewer than two tokens. */
  function ParsePacman(p: Proc): (r: string)
    ensures r == "" <==> p.returncode != 0 || ' ' !in p.stdout
  {
    if p.returncode != 0 then ""
    else
      var info := Split(p.stdout, ' ');
      SplitPieces(p.stdout, ' ');
      if |info| < 2 then ""
      else Strip(info[|info| - 2]) + " " + Strip(info[|info| - 1])
  }

  /** The space-separated tokens of pacman's answer end with the name and
      the version with its newline. */
  lemma PacmanTokens(head: string, name: string, last: string)
    requires ' ' !in name && ' ' !in last
    ensures Split(head + " " + name + " " + last, ' ') == Split(head, ' ') + [name, last]
  {
    assert head + " " + name + " " + last == head + [' '] + (name + [' '] + last);
    SplitAppend(head, name + [' '] + last, ' ');
    SplitAppend(name, last, ' ');
    SplitNoSep(name, ' ');
    SplitNoSep(last, ' ');
  }

  /** pacman's answer `<path> is owned by <name> <version>` gives
      `"<name> <version>"`. */
  lemma PacmanOwner(head: string, name: string, version: string)
    requires name != [] && NoSpace(name)
    requires version != [] && NoSpace(version)
    ensures ParsePacman(Proc(0, head + " " + name + " " + version + "\n")) == name + " " + version
  {
    var last := version + "\n";
    assert ' ' !in name && ' ' !in version;
    assert ' ' !in last;
    PacmanTokens(head, name, last);
    assert head + " " + name + " " + version + "\n" == head + " " + name + " " + last;
    StripTrimmed(name);
    StripAround([], version, "\n");
    assert [] + version + "\n" == last;
  }

  /** `dpkg -S path` prints `package:arch: path`: the package is the stripped
      text before the first colon. */
  function DpkgPackageName(out: string): string
  {
    Strip(Split(out, ':')[0])
  }

  lemma DpkgPackageOfQuery(package: string, rest: string)
    requires Trimmed(package) && ':' !in package
    ensures DpkgPackageName(package + ":" + rest) == package
  {
    SplitAppend(package, rest, ':');
    SplitNoSep(package, ':');
    StripTrimmed(package);
  }

  /** The first line which, once stripped, starts with `Version:`. */
  function FirstVersionLine(lines: seq<string>): (r: Option<string>)
    ensures r.None? <==> forall i :: 0 <= i < |lines| ==> !StartsWith(Strip(lines[i]), "Version:")
    ensures r.Some? ==> StartsWith(r.value, "Version:")
  {
    if lines == [] then None
    else if StartsWith(Strip(lines[0]), "Version:") then Some(Strip(lines[0]))
    else
      var r := FirstVersionLine(lines[1..]);
      assert forall i :: 1 <= i < |lines| ==> lines[i] == lines[1..][i - 1];
      r
  }

  lemma {:induction false} FirstVersionLineAt(lines: seq<string>, i: nat)
    requires i < |lines| && StartsWith(Strip(lines[i]), "Version:")
    requires forall j :: 0 <= j < i ==> !StartsWith(Strip(lines[j]), "Version:")
    ensures FirstVersionLine(lines) == Some(Strip(lines[i]))
  {
    if i > 0 {
      var rest := lines[1..];
      assert forall j :: 0 <= j < i - 1 ==> rest[j] == lines[j + 1];
      assert rest[i - 1] == lines[i];
      FirstVersionLineAt(rest, i - 1);
    }
  }

  /** `dpkg -s package`: the package name, a space and the second word of the
      first `Version:` line; `""` on failure or without such a line. A
      `Version:` line holding a single word makes Python raise `IndexError`. */
  function ParseDpkgStatus(package: string, p: Proc): Result<string>
  {
    if p.returncode != 0 then Ok("")
    else
      match FirstVersionLine(Split(p.stdout, '\n'))
      case None => Ok("")
      case Some(line) =>
        var w := Words(line);
        if |w| < 2 then Raise(IndexError) else Ok(package + " " + Strip(w[1]))
  }

  lemma VersionLineHasNoNewline(v: string)
    requires NoSpace(v)
    ensures '\n' !in "Version: " + v
  {
    var line := "Version: " + v;
    assert forall i :: 9 <= i < |line| ==> line[i] == v[i - 9];
  }

  lemma VersionLineIsStripped(v: string)
    requires v != [] && NoSpace(v)
    ensures Strip("Version: " + v) == "Version: " + v
  {
    assert Trimmed("Version: " + v);
    StripTrimmed("Version: " + v);
  }

  lemma VersionLineWords(v: string)
    requires v != [] && NoSpace(v)
    ensures Words("Version: " + v) == ["Version:", v]
  {
    assert "Version: " + v == "Version:" + ([' '] + v);
    WordsOfTwo("Version:", v);
  }

  /** A report of newline-free lines, of which `line` is the first that
      starts with `Version:` once stripped, gives back that stripped line. */
  lemma FirstVersionLineOfReport(before: seq<string>, line: string, after: seq<string>)
    requires forall k :: 0 <= k < |before| ==> '\n' !in before[k] && !StartsWith(Strip(before[k]), "Version:")
    requires forall k :: 0 <= k < |after| ==> '\n' !in after[k]
    requires '\n' !in line && StartsWith(Strip(line), "Version:")
    ensures FirstVersionLine(Split(JoinWith(before + [line] + after, '\n'), '\n')) == Some(Strip(line))
  {
    var lines := before + [line] + after;
    ReportLines(before, line, after);
    assert lines[|before|] == line;
    assert forall j :: 0 <= j < |before| ==> lines[j] == before[j];
    FirstVersionLineAt(lines, |before|);
  }

  /** Splitting the report at newlines gives back its lines. */
  lemma ReportLines(before: seq<string>, line: string, after: seq<string>)
    requires forall k :: 0 <= k < |before| ==> '\n' !in before[k]
    requires forall k :: 0 <= k < |after| ==> '\n' !in after[k]
    requires '\n' !in line
    ensures Split(JoinWith(before + [line] + after, '\n'), '\n') == before + [line] + after
  {
    var lines := before + [line] + after;
    assert forall k :: 0 <= k < |lines| ==> '\n' !in lines[k] by {
      forall k | 0 <= k < |lines|
        ensures '\n' !in lines[k]
      {
        if k < |before| {
          assert lines[k] == before[k];
        } else if k > |before| {
          assert lines[k] == after[k - |before| - 1];
        }
      }
    }
    SplitJoin(lines, '\n');
  }

  /** A status report whose first `Version:` line is `Version: v` yields
      `"package v"`. */
  lemma DpkgStatusVersion(package: string, before: seq<string>, v: string, after: seq<string>)
    requires forall k :: 0 <= k < |before| ==> '\n' !in before[k] && !StartsWith(Strip(before[k]), "Version:")
    requires forall k :: 0 <= k < |after| ==> '\n' !in after[k]
    requires v != [] && NoSpace(v)
    ensures ParseDpkgStatus(package, Proc(0, JoinWith(before + ["Version: " + v] + after, '\n')))
            == Ok(package + " " + v)
  {
    var line := "Version: " + v;
    VersionLineHasNoNewline(v);
    VersionLineIsStripped(v);
    VersionLineWords(v);
    assert StartsWith(line, "Version:");
    FirstVersionLineOfReport(before, line, after);
    StripTrimmed(v);
  }

  /** A bare `Version:` line, with at most whitespace after the colon,
      strips to `Version:`, which is a single word. */
  lemma BareVersionLine(ws: string)
    requires AllSpace(ws) && '\n' !in ws
    ensures '\n' !in "Version:" + ws
    ensures Strip("Version:" + ws) == "Version:"
    ensures Words("Version:") == ["Version:"]
  {
    var v: string := "Version:";
    var line := v + ws;
    forall i | 0 <= i < |line|
      ensures line[i] != '\n'
    {
      if i >= |v| {
        assert line[i] == ws[i - |v|];
      }
    }
    assert Trimmed(v);
    StripAround([], v, ws);
    assert [] + v + ws == line;
    WordsOfLast([], v);
    assert [] + v == v;
  }

  /** When the first `Version:` line has no value, `line.split()[1]` raises. */
  lemma DpkgVersionWithoutValue(package: string, before: seq<string>, ws: string, after: seq<string>)
    requires forall k :: 0 <= k < |before| ==> '\n' !in before[k] && !StartsWith(Strip(before[k]), "Version:")
    requires forall k :: 0 <= k < |after| ==> '\n' !in after[k]
    requires AllSpace(ws) && '\n' !in ws
    ensures ParseDpkgStatus(package, Proc(0, JoinWith(before + ["Version:" + ws] + after, '\n')))
            == Raise(IndexError)
  {
    BareVersionLine(ws);
    assert StartsWith("Version:", "Version:");
    FirstVersionLineOfReport(before, "Version:" + ws, after);
  }

  /** `rpm -qf path`: the stripped output, or `""` on failure. */
  function ParseRpm(p: Proc): (r: string)
    ensures Trimmed(r)
    ensures p.returncode != 0 ==> r == ""
  {
    StripIsTrimmed(p.stdout);
    if p.returncode != 0 then "" else Strip(p.stdout)
  }

  /** rpm's answer is its output without the surrounding whitespace. */
  lemma RpmAnswer(pre: string, t: string, post: string)
    requires AllSpace(pre) && AllSpace(post) && Trimmed(t)
    ensures ParseRpm(Proc(0, pre + t + post)) == t
  {
    StripAround(pre, t, post);
  }

  /** `searchPackageFor(path)`: pacman, then dpkg, then rpm, the first that
      `whereBin` finds answering; `""` when none is found. */
  function SearchPackageFor(path: string, whereBin: string -> string, run: seq<string> -> Proc): Result<string>
  {
    var pacman := whereBin("pacman");
    if |pacman| > 0 then
      Ok(ParsePacman(run([pacman, "-Qo", path])))
    else
      var dpkg := whereBin("dpkg");
      if |dpkg| > 0 then
        var query := run([dpkg, "-S", path]);
        if query.returncode != 0 then Ok("")
        else
          var package := DpkgPackageName(query.stdout);
          ParseDpkgStatus(package, run([dpkg, "-s", package]))
      else
        var rpm := whereBin("rpm");
        if |rpm| > 0 then Ok(ParseRpm(run([rpm, "-qf", path]))) else Ok("")
  }

  /** With no package manager on the host every lookup answers `""`. */
  lemma NoPackageManager(path: string, whereBin: string -> string, run: seq<string> -> Proc)
    requires whereBin("pacman") == "" && whereBin("dpkg") == "" && whereBin("rpm") == ""
    ensures SearchPackageFor(path, whereBin, run) == Ok("")
  {
  }

  /** When pacman is found, dpkg and rpm are never consulted: only pacman's
      answer for this path matters. */
  lemma PacmanFirst(path: string, w1: string -> string, r1: seq<string> -> Proc,
                    w2: string -> string, r2: seq<string> -> Proc)
    requires w1("pacman") != "" && w1("pacman") == w2("pacman")
    requires r1([w1("pacman"), "-Qo", path]) == r2([w2("pacman"), "-Qo", path])
    ensures SearchPackageFor(path, w1, r1) == SearchPackageFor(path, w2, r2)
  {
  }

  /** When pacman is absent and dpkg found, rpm is never consulted. */
  lemma DpkgBeforeRpm(path: string, w1: string -> string, w2: string -> string, run: seq<string> -> Proc)
    requires w1("pacman") == "" && w2("pacman") == ""
    requires w1("dpkg") != "" && w1("dpkg") == w2("dpkg")
    ensures SearchPackageFor(path, w1, run) == SearchPackageFor(path, w2, run)
  {
  }

  /** Only the dpkg branch can raise; the others always answer. */
  lemma OnlyDpkgRaises(path: string, whereBin: string -> string, run: seq<string> -> Proc)
    requires SearchPackageFor(path, whereBin, run).Raise?
    ensures whereBin("pacman") == "" && whereBin("dpkg") != ""
    ensures SearchPackageFor(path, whereBin, run).error == IndexError
  {
  }
}
