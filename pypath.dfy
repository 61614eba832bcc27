/** The `posixpath` functions the packaging script relies on. */
module PyPath {
  import opened PyStr

  /** `s.rfind(c)`: the last index holding `c`, or -1. */
  function LastIndex(s: string, c: char): (i: int)
    ensures -1 <= i < |s|
    ensures i >= 0 ==> s[i] == c
    ensures forall j :: i < j < |s| ==> s[j] != c
  {
    if s == [] then -1
    else if s[|s| - 1] == c then |s| - 1
    else LastIndex(s[..|s| - 1], c)
  }

  /** `os.path.join(a, b)`. */
  function Join(a: string, b: string): string
  {
    if b != [] && b[0] == '/' then b
    else if a == [] || a[|a| - 1] == '/' then a + b
    else a + "/" + b
  }

  /** `os.path.basename(p)`: what follows the last `/`. */
  function Basename(p: string): string
  {
    p[LastIndex(p, '/') + 1..]
  }

  /** The base name holds no `/`, ends the path, and is preceded by a `/`
      unless it is the whole path. */
  lemma BasenameSpec(p: string)
    ensures '/' !in Basename(p)
    ensures EndsWith(p, Basename(p))
    ensures |Basename(p)| < |p| ==> p[|p| - |Basename(p)| - 1] == '/'
  {
    var i := LastIndex(p, '/');
    var r := p[i + 1..];
    assert Basename(p) == r;
    BasenameNoSlash(p, i);
    assert |p| - |r| == i + 1;
    assert p[|p| - |r|..] == r;
  }

  lemma BasenameNoSlash(p: string, i: int)
    requires i == LastIndex(p, '/')
    ensures '/' !in p[i + 1..]
  {
    var r := p[i + 1..];
    forall j | 0 <= j < |r|
      ensures r[j] != '/'
    {
      assert r[j] == p[i + 1 + j];
    }
  }

  /** `os.path.splitext(p)`: the extension starts at the last dot of the last
      component, unless only dots precede it in that component. */
  function SplitExt(p: string): (string, string)
  {
    var sepIndex := LastIndex(p, '/');
    var dotIndex := LastIndex(p, '.');
    if dotIndex > sepIndex && exists k :: sepIndex < k < dotIndex && p[k] != '.' then
      (p[..dotIndex], p[dotIndex..])
    else
      (p, [])
  }

  /** Joining a plain name under a plain directory puts one `/` between them. */
  lemma JoinPlain(a: string, b: string)
    requires a != [] && a[|a| - 1] != '/'
    requires '/' !in b
    ensures Join(a, b) == a + "/" + b
    ensures Basename(Join(a, b)) == b
  {
    var p := a + "/" + b;
    var i := LastIndex(p, '/');
    assert p[|a|] == '/';
    assert forall j :: |a| < j < |p| ==> p[j] == b[j - |a| - 1];
    assert i == |a|;
    assert p[i + 1..] == b;
  }
}
