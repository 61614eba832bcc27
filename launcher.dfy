/** `createLauncher`: the batch file that starts the program with its plugin,
    QML and configuration directories given relative to the batch file. */
module Launcher {
  import opened PyStr
  import opened PyPath

  /** The batch file sits in the install root and is named after the program. */
  function LauncherPath(rootInstallDir: string, programName: string): string
  {
    Join(rootInstallDir, programName) + ".bat"
  }

  lemma LauncherPathShape(rootInstallDir: string, programName: string)
    requires rootInstallDir != [] && rootInstallDir[|rootInstallDir| - 1] != '/'
    requires '/' !in programName
    ensures LauncherPath(rootInstallDir, programName) == rootInstallDir + "/" + programName + ".bat"
    ensures Basename(LauncherPath(rootInstallDir, programName)) == programName + ".bat"
  {
    var b := programName + ".bat";
    assert '/' !in b by {
      assert forall i :: |programName| <= i < |b| ==> b[i] != '/';
    }
    JoinPlain(rootInstallDir, b);
    JoinPlain(rootInstallDir, programName);
    assert rootInstallDir + "/" + programName + ".bat" == rootInstallDir + "/" + b;
  }

  /** `p.replace('/', '\\')`. */
  function WindowsSeparators(p: string): (r: string)
    ensures |r| == |p|
  {
    if p == [] then [] else [if p[0] == '/' then '\\' else p[0]] + WindowsSeparators(p[1..])
  }

  /** Each `/` became a `\` and every other character stayed. */
  lemma {:induction false} WindowsSeparatorsSpec(p: string)
    ensures forall i :: 0 <= i < |p| ==>
      WindowsSeparators(p)[i] == (if p[i] == '/' then '\\' else p[i])
  {
    if p != [] {
      WindowsSeparatorsSpec(p[1..]);
      var r := WindowsSeparators(p);
      assert forall i :: 1 <= i < |p| ==> r[i] == WindowsSeparators(p[1..])[i - 1];
    }
  }

  /** The inverse replacement. */
  function PosixSeparators(p: string): (r: string)
    ensures |r| == |p|
  {
    if p == [] then [] else [if p[0] == '\\' then '/' else p[0]] + PosixSeparators(p[1..])
  }

  /** A relative path without backslashes survives the conversion: it can be
      read back from the batch file. */
  lemma {:induction false} SeparatorsRoundTrip(p: string)
    requires '\\' !in p
    ensures '/' !in WindowsSeparators(p)
    ensures PosixSeparators(WindowsSeparators(p)) == p
  {
    if p != [] {
      SeparatorsRoundTrip(p[1..]);
      assert WindowsSeparators(p)[1..] == WindowsSeparators(p[1..]);
    }
  }

  /** The `start` line: the program in `bin`, the plugins under `libDir`,
      the QML directory with Windows separators, the configuration directory.
      `libDir` is written as `relpath` gave it. The literals are cut at the
      double quotes; the text is the one `createLauncher` writes. */
  function StartCommand(programName: string, libDir: string, qmlDir: string): string
  {
    "start /b \"\" "
    + "\"%~dp0bin\\" + programName + "\" -p "
    + "\"%~dp0" + libDir + "\\avkys" + "\" -q "
    + "\"%~dp0" + WindowsSeparators(qmlDir) + "\" -c "
    + "\"%~dp0share\\config" + "\""
  }

  /** The text between the quotes of the `start` line, in order. */
  function CommandFields(programName: string, libDir: string, qmlDir: string): seq<string>
  {
    ["start /b ", "", " ", "%~dp0bin\\" + programName, " -p ", "%~dp0" + libDir + "\\avkys",
     " -q ", "%~dp0" + WindowsSeparators(qmlDir), " -c ", "%~dp0share\\config", ""]
  }

  /** `'"'.join(f[..k + 1])`, built left to right as the line is written. */
  function QuotedUpTo(f: seq<string>, k: nat): string
    requires k < |f|
  {
    if k == 0 then f[0] else QuotedUpTo(f, k - 1) + ['"'] + f[k]
  }

  lemma {:induction false} SplitQuotedUpTo(f: seq<string>, k: nat)
    requires k < |f|
    requires forall i :: 0 <= i <= k ==> '"' !in f[i]
    ensures Split(QuotedUpTo(f, k), '"') == f[..k + 1]
  {
    SplitNoSep(f[k], '"');
    if k > 0 {
      SplitQuotedUpTo(f, k - 1);
      SplitAppend(QuotedUpTo(f, k - 1), f[k], '"');
      assert f[..k + 1] == f[..k] + [f[k]];
    }
  }

  lemma QuotedHead(f: seq<string>)
    requires |f| == 11 && f[0] == "start /b " && f[1] == [] && f[2] == " "
    ensures QuotedUpTo(f, 2) == "start /b \"\" "
  {
    assert QuotedUpTo(f, 1) == "start /b \"";
  }

  /** The `start` line up to the plugin directory. */
  lemma QuotedThroughPlugins(programName: string, libDir: string, qmlDir: string)
    ensures QuotedUpTo(CommandFields(programName, libDir, qmlDir), 5)
            == "start /b \"\" " + "\"%~dp0bin\\" + programName + "\" -p "
               + "\"%~dp0" + libDir + "\\avkys"
  {
    var f := CommandFields(programName, libDir, qmlDir);
    var p0 := "start /b \"\" ";
    QuotedHead(f);
    var p3 := p0 + "\"%~dp0bin\\" + programName;
    assert QuotedUpTo(f, 3) == p3 by {
      assert p0 + ['"'] + f[3] == p3;
    }
    var p4 := p3 + "\" -p ";
    assert QuotedUpTo(f, 4) == p4;
    var p5 := p4 + "\"%~dp0" + libDir + "\\avkys";
    assert p4 + ['"'] + f[5] == p5;
  }

  /** The rest of the `start` line, after the plugin directory. */
  lemma QuotedAfterPlugins(f: seq<string>, prefix: string, qmlDir: string)
    requires |f| == 11 && QuotedUpTo(f, 5) == prefix
    requires f[6] == " -q " && f[7] == "%~dp0" + WindowsSeparators(qmlDir)
    requires f[8] == " -c " && f[9] == "%~dp0share\\config" && f[10] == ""
    ensures QuotedUpTo(f, 10)
            == prefix + "\" -q " + "\"%~dp0" + WindowsSeparators(qmlDir) + "\" -c "
               + "\"%~dp0share\\config" + "\""
  {
    var w := WindowsSeparators(qmlDir);
    var p6 := prefix + "\" -q ";
    assert QuotedUpTo(f, 6) == p6;
    var p7 := p6 + "\"%~dp0" + w;
    assert QuotedUpTo(f, 7) == p7 by {
      assert p6 + ['"'] + f[7] == p7;
    }
    var p8 := p7 + "\" -c ";
    assert QuotedUpTo(f, 8) == p8;
    var p9 := p8 + "\"%~dp0share\\config";
    assert QuotedUpTo(f, 9) == p9;
    assert QuotedUpTo(f, 10) == p9 + "\"";
  }

  lemma StartCommandIsQuoted(programName: string, libDir: string, qmlDir: string)
    ensures StartCommand(programName, libDir, qmlDir)
            == QuotedUpTo(CommandFields(programName, libDir, qmlDir), 10)
  {
    var f := CommandFields(programName, libDir, qmlDir);
    QuotedThroughPlugins(programName, libDir, qmlDir);
    QuotedAfterPlugins(f, QuotedUpTo(f, 5), qmlDir);
  }

  /** No field of the `start` line holds a double quote when no name does. */
  lemma FieldsHaveNoQuote(programName: string, libDir: string, qmlDir: string)
    requires '"' !in programName && '"' !in libDir && '"' !in qmlDir
    ensures forall k :: 0 <= k < 11 ==> '"' !in CommandFields(programName, libDir, qmlDir)[k]
  {
    var f := CommandFields(programName, libDir, qmlDir);
    WindowsSeparatorsSpec(qmlDir);
    var w := WindowsSeparators(qmlDir);
    assert '"' !in w by {
      assert forall i :: 0 <= i < |w| ==> w[i] == '\\' || w[i] == qmlDir[i];
    }
    forall k | 0 <= k < 11
      ensures '"' !in f[k]
    {
      if k == 3 {
        assert forall i :: 9 <= i < |f[3]| ==> f[3][i] == programName[i - 9];
      } else if k == 5 {
        assert forall i :: 5 <= i < 5 + |libDir| ==> f[5][i] == libDir[i - 5];
      } else if k == 7 {
        assert forall i :: 5 <= i < |f[7]| ==> f[7][i] == w[i - 5];
      }
    }
  }

  /** When no name holds a double quote, splitting the line at its double
      quotes gives exactly the intended fields: the quoted ones are the
      program path, the plugin directory, the QML directory and the
      configuration directory. */
  lemma StartCommandQuoting(programName: string, libDir: string, qmlDir: string)
    requires '"' !in programName && '"' !in libDir && '"' !in qmlDir
    ensures Split(StartCommand(programName, libDir, qmlDir), '"')
            == CommandFields(programName, libDir, qmlDir)
  {
    var f := CommandFields(programName, libDir, qmlDir);
    FieldsHaveNoQuote(programName, libDir, qmlDir);
    StartCommandIsQuoted(programName, libDir, qmlDir);
    SplitQuotedUpTo(f, 10);
    assert f[..11] == f;
  }

  /** A remark line of the batch file. */
  function Remark(text: string): string
  {
    "rem " + text
  }

  /** The lines of the batch file, each written with a trailing newline. */
  function LauncherLines(programName: string, libDir: string, qmlDir: string): seq<string>
  {
    ["@echo off",
     "",
     Remark("Default values: desktop | angle | software"),
     Remark("set QT_OPENGL=angle"),
     "",
     Remark("Default values: d3d11 | d3d9 | warp"),
     Remark("set QT_ANGLE_PLATFORM=d3d11"),
     "",
     Remark("Default values: software | d3d12 | openvg"),
     Remark("set QT_QUICK_BACKEND=\"\""),
     "",
     StartCommand(programName, libDir, qmlDir)]
  }

  /** Only the last line runs anything: the others are blank, `@echo off` or
      remarks, which is why the environment overrides stay commented out. */
  lemma LauncherRunsOneCommand(programName: string, libDir: string, qmlDir: string)
    ensures var lines := LauncherLines(programName, libDir, qmlDir);
      |lines| == 12
      && (forall i :: 0 <= i < 11 ==>
            lines[i] == [] || lines[i] == "@echo off" || StartsWith(lines[i], "rem "))
      && StartsWith(lines[11], "start /b ")
  {
    var lines := LauncherLines(programName, libDir, qmlDir);
    forall i | 0 <= i < 11
      ensures lines[i] == [] || lines[i] == "@echo off" || StartsWith(lines[i], "rem ")
    {
      if i in {2, 3, 5, 6, 8, 9} {
        assert lines[i][..4] == "rem ";
      }
    }
    StartCommandPrefix(programName, libDir, qmlDir);
  }

  lemma StartCommandPrefix(programName: string, libDir: string, qmlDir: string)
    ensures StartsWith(StartCommand(programName, libDir, qmlDir), "start /b ")
  {
    var c := StartCommand(programName, libDir, qmlDir);
    var head: string := "start /b \"\" ";
    assert c == head + c[|head|..];
    assert head[..9] == "start /b ";
  }
}
