/** `createPortable`: the name under which each file and directory of the
    install tree is stored in the portable ZIP archive. */
module Portable {
  import opened PyStr
  import opened PyPath

  /** The archive name as the script computes it: `str.replace` deletes EVERY
      occurrence of `rootInstallDir + "/"` in the path, not only the leading
      one. */
  function ArchiveNameAsWritten(programName: string, rootInstallDir: string, filePath: string): string
  {
    Join(programName, RemoveAll(filePath, rootInstallDir + "/"))
  }

  /** The intended archive name: the path relative to the install root, under
      a top directory named after the program. */
  function ArchiveName(programName: string, rootInstallDir: string, filePath: string): string
  {
    var prefix := rootInstallDir + "/";
    Join(programName, if prefix <= filePath then filePath[|prefix|..] else filePath)
  }

  /** `os.walk` yields paths `rootInstallDir/rel` with `rel` relative; the
      archive stores them as `programName/rel`. */
  lemma ArchiveNameRelative(programName: string, rootInstallDir: string, rel: string)
    requires programName != [] && programName[|programName| - 1] != '/'
    requires rel != [] && rel[0] != '/'
    ensures ArchiveName(programName, rootInstallDir, rootInstallDir + "/" + rel) == programName + "/" + rel
  {
    var prefix := rootInstallDir + "/";
    var p := rootInstallDir + "/" + rel;
    assert p == prefix + rel;
    assert prefix <= p;
    assert p[|prefix|..] == rel;
  }

  /** Different files of the tree get different archive names. */
  lemma ArchiveNameInjective(programName: string, rootInstallDir: string, rel1: string, rel2: string)
    requires programName != [] && programName[|programName| - 1] != '/'
    requires rel1 != [] && rel1[0] != '/'
    requires rel2 != [] && rel2[0] != '/'
    requires ArchiveName(programName, rootInstallDir, rootInstallDir + "/" + rel1)
             == ArchiveName(programName, rootInstallDir, rootInstallDir + "/" + rel2)
    ensures rel1 == rel2
  {
    ArchiveNameRelative(programName, rootInstallDir, rel1);
    ArchiveNameRelative(programName, rootInstallDir, rel2);
    var n1 := programName + "/" + rel1;
    var n2 := programName + "/" + rel2;
    assert rel1 == n1[|programName| + 1..];
    assert rel2 == n2[|programName| + 1..];
  }

  /** The script's name is the intended one whenever the relative path does
      not itself contain the install root followed by a separator. */
  lemma AsWrittenAgrees(programName: string, rootInstallDir: string, rel: string)
    requires !Contains(rel, rootInstallDir + "/")
    ensures ArchiveNameAsWritten(programName, rootInstallDir, rootInstallDir + "/" + rel)
            == ArchiveName(programName, rootInstallDir, rootInstallDir + "/" + rel)
  {
    var prefix := rootInstallDir + "/";
    var p := rootInstallDir + "/" + rel;
    assert p == prefix + rel;
    assert prefix <= p;
    assert p[|prefix|..] == rel;
  }

  /** With the install root `/r`, the files `/r/a/r/b` and `/r/ab` are both
      stored as `webcamoid/ab` by the script, where the intended names are
      `webcamoid/a/r/b` and `webcamoid/ab`. */
  lemma AsWrittenCollides()
    ensures ArchiveNameAsWritten("webcamoid", "/r", "/r/a/r/b") == "webcamoid/ab"
    ensures ArchiveNameAsWritten("webcamoid", "/r", "/r/ab") == "webcamoid/ab"
    ensures ArchiveName("webcamoid", "/r", "/r/a/r/b") == "webcamoid/a/r/b"
    ensures ArchiveName("webcamoid", "/r", "/r/ab") == "webcamoid/ab"
  {
    var pat := "/r/";
    assert "/r" + "/" == pat;
    assert Join("webcamoid", "ab") == "webcamoid/ab";
    assert RemoveAll("b", pat) == "b";
    assert RemoveAll("/r/b", pat) == "b";
    assert RemoveAll("a/r/b", pat) == "ab";
    assert RemoveAll("/r/a/r/b", pat) == "ab";
    assert RemoveAll("ab", pat) == "ab";
    assert RemoveAll("/r/ab", pat) == "ab";
    ArchiveNameRelative("webcamoid", "/r", "a/r/b");
    ArchiveNameRelative("webcamoid", "/r", "ab");
  }
}
