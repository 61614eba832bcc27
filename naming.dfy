/** The names `prepare` and `createPortable` compute: the host library path,
    the installer's target directory and the two package file names. */
module Naming {
  import opened PyStr
  import opened PyPath

  /** `targetArch`: `'32bit'` or `'64bit'`. */
  datatype Arch = Bits32 | Bits64

  /** 64-bit exactly when the Qt binaries directory mentions `x86_64`. */
  function TargetArch(qtInstallBins: string): Arch
  {
    if Contains(qtInstallBins, "x86_64") then Bits64 else Bits32
  }

  /** The architecture tag in package names. */
  function ArchTag(arch: Arch): string
  {
    if arch == Bits32 then "win32" else "win64"
  }

  /** `binarySolver.sysBinsPath`: where the MinGW runtime libraries live. */
  function SysBinsPath(arch: Arch): seq<string>
  {
    if arch == Bits32 then ["/usr/i686-w64-mingw32/bin"] else ["/usr/x86_64-w64-mingw32/bin"]
  }

  /** The installer's applications directory: the generic one for an unknown
      Qt Installer Framework or one older than 3, the architecture-specific one
      otherwise; a major version that `int()` rejects raises `ValueError`. */
  function AppsDir(qtIFWVersion: string, arch: Arch): Result<string>
  {
    if qtIFWVersion == "" then Ok("@ApplicationsDir@")
    else
      match ParseInt(Split(qtIFWVersion, '.')[0])
      case None => Raise(ValueError)
      case Some(major) =>
        if major < 3 then Ok("@ApplicationsDir@")
        else if arch == Bits32 then Ok("@ApplicationsDirX86@")
        else Ok("@ApplicationsDirX64@")
  }

  /** Without the Qt Installer Framework the generic directory is used, for
      either architecture. */
  lemma AppsDirWithoutIFW(arch: Arch)
    ensures AppsDir("", arch) == Ok("@ApplicationsDir@")
  {
  }

  /** For a version `M`, `M.x` or `M.x.y` the choice depends on `M` alone. */
  lemma AppsDirByMajor(major: nat, tail: string, arch: Arch)
    requires tail == [] || tail[0] == '.'
    ensures AppsDir(NatToString(major) + tail, arch)
            == Ok(if major < 3 then "@ApplicationsDir@"
                  else if arch == Bits32 then "@ApplicationsDirX86@"
                  else "@ApplicationsDirX64@")
  {
    var m := NatToString(major);
    assert '.' !in m by {
      assert forall i :: 0 <= i < |m| ==> IsDigit(m[i]);
    }
    if tail == [] {
      assert m + tail == m;
      SplitNoSep(m, '.');
    } else {
      assert m + tail == m + ['.'] + tail[1..];
      SplitAppend(m, tail[1..], '.');
      SplitNoSep(m, '.');
    }
    ParseIntOfNatToString(major);
  }

  /** A version string that starts with an ASCII letter makes `int()` raise. */
  lemma AppsDirRejectsWord(qtIFWVersion: string, arch: Arch)
    requires qtIFWVersion != []
    requires 'a' <= qtIFWVersion[0] <= 'z' || 'A' <= qtIFWVersion[0] <= 'Z'
    ensures AppsDir(qtIFWVersion, arch) == Raise(ValueError)
  {
    var v := qtIFWVersion;
    var p := Split(v, '.')[0];
    assert p != [] && p[0] == v[0];
    var l := StripLeft(p);
    assert l == p;
    StripRightSpec(p);
    var t := StripRight(p);
    assert t != [] && t[0] == v[0];
    assert Strip(p) == t;
    assert !WellFormedDigits(t);
  }

  /** `installerTargetDir`. */
  function InstallerTargetDir(appsDir: string, programName: string): string
  {
    appsDir + "/" + programName
  }

  /** The installer's file name, `{program}-{version}-{win32|win64}.exe`. */
  function InstallerFileName(programName: string, version: string, arch: Arch): string
  {
    programName + "-" + version + "-" + ArchTag(arch) + ".exe"
  }

  /** The portable archive's file name, `{program}-portable-{version}-{arch}.zip`. */
  function PortableFileName(programName: string, version: string, arch: Arch): string
  {
    programName + "-portable-" + version + "-" + ArchTag(arch) + ".zip"
  }

  /** The installer name ends in the tag of its architecture, so the tag
      tells the two builds apart. */
  lemma InstallerFileNameArch(programName: string, version: string, arch: Arch)
    ensures var n := InstallerFileName(programName, version, arch);
      EndsWith(n, if arch == Bits32 then "-win32.exe" else "-win64.exe")
      && StartsWith(n, programName + "-")
  {
    var head := programName + "-" + version;
    var suffix := if arch == Bits32 then "-win32.exe" else "-win64.exe";
    var n := head + suffix;
    assert InstallerFileName(programName, version, arch) == n;
    assert n[|head|..] == suffix;
    assert n[..|programName| + 1] == head[..|programName| + 1] == programName + "-";
  }

  /** The installer and the portable archive never share a file name. */
  lemma PackageNamesDiffer(p1: string, v1: string, a1: Arch, p2: string, v2: string, a2: Arch)
    ensures InstallerFileName(p1, v1, a1) != PortableFileName(p2, v2, a2)
  {
    var i := InstallerFileName(p1, v1, a1);
    var z := PortableFileName(p2, v2, a2);
    assert i[|i| - 1] == 'e';
    assert z[|z| - 1] == 'p';
  }
}
