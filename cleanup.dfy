/** Deleting files from the staged install tree: build byproducts
    (`removeUnneededFiles`) and Qt debug libraries (`removeDebugs`). */
module Cleanup {
  import opened PyStr
  import opened PyPath

  /** A regular file as `os.walk` reports it: the directory it sits in and
      its name within that directory. */
  datatype FileEntry = FileEntry(dir: string, name: string)

  /** Names as `os.walk` lists them never hold a `/` and are never empty. */
  predicate WellNamed(files: set<FileEntry>)
  {
    forall e :: e in files ==> e.name != [] && '/' !in e.name
  }

  /** The directories `os.walk(root)` visits: `root` itself and every
      directory below it, named by `os.path.join(root, ...)`. `os.walk('')`
      visits nothing. */
  predicate Within(dir: string, root: string)
  {
    root != [] && (dir == root || Join(root, "") <= dir)
  }

  /** A trailing `/` on the walked path still reaches its subdirectories, and
      an empty path reaches nothing. */
  lemma WithinWalk(root: string, sub: string, dir: string)
    requires root != [] && sub != [] && '/' !in sub
    ensures Within(Join(root, sub), root)
    ensures !Within(dir, "")
  {
    assert Join(root, sub) == Join(root, "") + sub;
  }

  /** Static archives, static `.prl` files, debug databases and import
      libraries are not needed at run time. */
  predicate IsUnneeded(name: string)
  {
    EndsWith(name, ".a") || EndsWith(name, ".static.prl")
    || EndsWith(name, ".pdb") || EndsWith(name, ".lib")
  }

  /** The files `removeUnneededFiles(root)` collects. */
  function UnneededFiles(files: set<FileEntry>, root: string): set<FileEntry>
  {
    set e | e in files && Within(e.dir, root) && IsUnneeded(e.name)
  }

  /** Run-time files (libraries, executables, QML sources) are never taken
      for byproducts. */
  lemma RuntimeFilesKept(name: string)
    requires EndsWith(name, ".dll") || EndsWith(name, ".exe") || EndsWith(name, ".qml")
    ensures !IsUnneeded(name)
  {
    var n := |name|;
    assert name[n - 4] == '.';
    assert name[n - 1] != 'a' && name[n - 1] != 'b';
    assert name[n - 1] == 'l' ==> name[n - 2] == 'l' || name[n - 2] == 'm';
  }

  /** The debug variant of a library name: `d` goes in front of the
      extension. */
  function DebugName(name: string): string
  {
    var (stem, ext) := SplitExt(name);
    stem + "d" + ext
  }

  predicate AllDots(s: string)
  {
    forall i :: 0 <= i < |s| ==> s[i] == '.'
  }

  /** For `N.dll` the debug name is `Nd.dll`; when `N` is only dots,
      `os.path.splitext` sees no extension and the name just gains a `d`. */
  lemma DllDebugName(name: string)
    requires EndsWith(name, ".dll") && '/' !in name
    ensures var stem := name[..|name| - 4];
      DebugName(name) == if AllDots(stem) then name + "d" else stem + "d.dll"
  {
    var n := |name|;
    assert name[n - 4..] == ".dll";
    assert name[n - 4] == '.' && name[n - 3] == 'd' && name[n - 2] == 'l' && name[n - 1] == 'l';
    var dot := LastIndex(name, '.');
    assert dot == n - 4;
    var slash := LastIndex(name, '/');
    assert slash == -1;
    var stem := name[..n - 4];
    if AllDots(stem) {
      assert !exists k :: slash < k < dot && name[k] != '.' by {
        forall k | slash < k < dot ensures name[k] == '.' {
          assert name[k] == stem[k];
        }
      }
      assert SplitExt(name) == (name, []);
    } else {
      var k :| 0 <= k < |stem| && stem[k] != '.';
      assert name[k] == stem[k];
      assert SplitExt(name) == (stem, name[n - 4..]);
      assert stem + "d" + ".dll" == stem + "d.dll";
    }
  }

  /** Reads the library name back from a debug name. */
  function LibraryName(debug: string): string
  {
    if debug != [] && debug[|debug| - 1] == 'd' then debug[..|debug| - 1]
    else if |debug| >= 5 then debug[..|debug| - 5] + ".dll"
    else debug
  }

  /** The library name can be read back from its debug name. */
  lemma LibraryNameOfDebugName(name: string)
    requires EndsWith(name, ".dll") && '/' !in name
    ensures LibraryName(DebugName(name)) == name
  {
    DllDebugName(name);
    var stem := name[..|name| - 4];
    var d := DebugName(name);
    assert name == stem + ".dll";
    if AllDots(stem) {
      assert d == name + "d";
      assert d[..|d| - 1] == name;
    } else {
      assert d == stem + "d.dll";
      assert d[..|d| - 5] == stem;
    }
  }

  /** Two different `.dll` names never share a debug name. */
  lemma DebugNameInjective(a: string, b: string)
    requires EndsWith(a, ".dll") && '/' !in a
    requires EndsWith(b, ".dll") && '/' !in b
    requires DebugName(a) == DebugName(b)
    ensures a == b
  {
    LibraryNameOfDebugName(a);
    LibraryNameOfDebugName(b);
  }

  /** The debug files `removeDebugs` collects: for each `.dll` among `scanned`
      under `root`, its debug sibling when that sibling is `present`. */
  function DebugFiles(scanned: set<FileEntry>, present: set<FileEntry>, root: string): set<FileEntry>
  {
    set e | e in scanned && Within(e.dir, root) && EndsWith(e.name, ".dll")
              && FileEntry(e.dir, DebugName(e.name)) in present
            :: FileEntry(e.dir, DebugName(e.name))
  }

  /** Every file `removeDebugs` deletes exists, sits next to the `.dll` it was
      derived from, and is named `...d.dll` (or `....dlld` for a name made of
      dots only); a library is never taken for its own debug variant. */
  lemma DebugFilesShape(files: set<FileEntry>, root: string, c: FileEntry)
    requires WellNamed(files)
    requires c in DebugFiles(files, files, root)
    ensures c in files && Within(c.dir, root)
    ensures EndsWith(c.name, "d.dll") || EndsWith(c.name, ".dlld")
    ensures exists e :: e in files && e != c && e.dir == c.dir && EndsWith(e.name, ".dll")
                        && DebugName(e.name) == c.name
  {
    var e :| e in files && Within(e.dir, root) && EndsWith(e.name, ".dll")
             && FileEntry(e.dir, DebugName(e.name)) in files
             && c == FileEntry(e.dir, DebugName(e.name));
    DebugNameShape(e.name);
  }

  /** A debug name is one character longer than its library's name and ends
      in `d.dll`, or in `.dlld` for a stem made only of dots. */
  lemma DebugNameShape(name: string)
    requires EndsWith(name, ".dll") && '/' !in name
    ensures |DebugName(name)| == |name| + 1
    ensures EndsWith(DebugName(name), "d.dll") || EndsWith(DebugName(name), ".dlld")
  {
    DllDebugName(name);
    var d := DebugName(name);
    var stem := name[..|name| - 4];
    if AllDots(stem) {
      assert d[|d| - 5..] == ".dlld" by {
        assert name[|name| - 4..] == ".dll";
      }
    } else {
      assert d[|d| - 5..] == "d.dll";
    }
  }

  /** The staged install tree: the set of regular files on disk. */
  class StagingTree {
    var files: set<FileEntry>

    constructor (files: set<FileEntry>)
      ensures this.files == files
    {
      this.files := files;
    }

    /** `removeUnneededFiles(path)`: collect the byproducts under `path`,
        then delete them; nothing else is removed. */
    method RemoveUnneededFiles(path: string)
      modifies this
      ensures files == old(files) - UnneededFiles(old(files), path)
      ensures forall e :: e in old(files) ==>
                (e in files <==> !(Within(e.dir, path) && IsUnneeded(e.name)))
    {
      var afiles: set<FileEntry> := {};
      var pending := files;
      while pending != {}
        invariant pending <= files
        invariant afiles == UnneededFiles(files - pending, path)
        decreases pending
      {
        var e :| e in pending;
        if Within(e.dir, path) && IsUnneeded(e.name) {
          afiles := afiles + {e};
        }
        pending := pending - {e};
      }
      assert files - pending == files;
      ghost var before := files;
      var todo := afiles;
      while todo != {}
        invariant todo <= afiles
        invariant files == before - (afiles - todo)
        decreases todo
      {
        var f :| f in todo;
        files := files - {f};
        todo := todo - {f};
      }
    }

    /** `removeDebugs()`: for every `.dll` under `libQtInstallDir`, delete its
        debug sibling when one exists; nothing else is removed. */
    method RemoveDebugs(libQtInstallDir: string)
      modifies this
      ensures files == old(files) - DebugFiles(old(files), old(files), libQtInstallDir)
    {
      var dbgFiles: set<FileEntry> := {};
      var pending := files;
      while pending != {}
        invariant pending <= files
        invariant dbgFiles == DebugFiles(files - pending, files, libQtInstallDir)
        decreases pending
      {
        var e :| e in pending;
        if Within(e.dir, libQtInstallDir) && EndsWith(e.name, ".dll") {
          var dbgFile := FileEntry(e.dir, DebugName(e.name));
          if dbgFile in files {
            dbgFiles := dbgFiles + {dbgFile};
          }
        }
        pending := pending - {e};
      }
      assert files - pending == files;
      ghost var before := files;
      var todo := dbgFiles;
      while todo != {}
        invariant todo <= dbgFiles
        invariant files == before - (dbgFiles - todo)
        decreases todo
      {
        var f :| f in todo;
        files := files - {f};
        todo := todo - {f};
      }
    }
  }
}
