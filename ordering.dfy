/** Python's ordering of `str` values and the built-in `sorted()` applied to a
    set of strings. */
module Ordering {

  /** `a < b` on Python strings: code point by code point, a proper prefix
      coming first. */
  predicate Less(a: string, b: string)
    decreases |a|
  {
    b != [] && (a == [] || (if a[0] == b[0] then Less(a[1..], b[1..]) else a[0] < b[0]))
  }

  lemma {:induction false} LessIrreflexive(a: string)
    ensures !Less(a, a)
  {
    if a != [] {
      LessIrreflexive(a[1..]);
    }
  }

  lemma {:induction false} LessTransitive(a: string, b: string, c: string)
    requires Less(a, b) && Less(b, c)
    ensures Less(a, c)
  {
    if a != [] && a[0] == b[0] && b[0] == c[0] {
      LessTransitive(a[1..], b[1..], c[1..]);
    }
  }

  lemma {:induction false} LessTotal(a: string, b: string)
    requires a != b
    ensures Less(a, b) || Less(b, a)
  {
    if a != [] && b != [] && a[0] == b[0] {
      assert a == [a[0]] + a[1..] && b == [b[0]] + b[1..];
      LessTotal(a[1..], b[1..]);
    }
  }

  lemma LessAsymmetric(a: string, b: string)
    requires Less(a, b)
    ensures !Less(b, a)
  {
    if Less(b, a) {
      LessTransitive(a, b, a);
      LessIrreflexive(a);
    }
  }

  /** Ascending with no repeated element. */
  predicate StrictlySorted(r: seq<string>)
  {
    forall i, j :: 0 <= i < j < |r| ==> Less(r[i], r[j])
  }

  predicate IsLeast(m: string, s: set<string>)
  {
    m in s && forall y :: y in s && y != m ==> Less(m, y)
  }

  lemma {:induction false} LeastExists(s: set<string>)
    requires s != {}
    ensures exists m :: IsLeast(m, s)
    decreases s
  {
    var x :| x in s;
    if s != {x} {
      LeastExists(s - {x});
      var m :| IsLeast(m, s - {x});
      if Less(x, m) {
        forall y | y in s && y != x
          ensures Less(x, y)
        {
          if y != m {
            LessTransitive(x, m, y);
          }
        }
        assert IsLeast(x, s);
      } else {
        LessTotal(x, m);
        assert IsLeast(m, s);
      }
    } else {
      assert IsLeast(x, s);
    }
  }

  lemma LeastUnique(m: string, n: string, s: set<string>)
    requires IsLeast(m, s) && IsLeast(n, s)
    ensures m == n
  {
    if m != n {
      LessAsymmetric(m, n);
    }
  }

  /** `sorted(s)` for a set of strings. */
  ghost function SortedSeq(s: set<string>): seq<string>
    decreases s
  {
    if s == {} then []
    else
      LeastExists(s);
      var m :| IsLeast(m, s);
      [m] + SortedSeq(s - {m})
  }

  lemma SortedSeqHead(s: set<string>, m: string)
    requires IsLeast(m, s)
    ensures SortedSeq(s) == [m] + SortedSeq(s - {m})
  {
    LeastExists(s);
    var n :| IsLeast(n, s) && SortedSeq(s) == [n] + SortedSeq(s - {n});
    LeastUnique(m, n, s);
  }

  /** `sorted(s)` lists every element of `s` once, in ascending order. */
  lemma {:induction false} SortedSeqSpec(s: set<string>)
    ensures StrictlySorted(SortedSeq(s))
    ensures forall x :: x in SortedSeq(s) <==> x in s
    ensures |SortedSeq(s)| == |s|
    decreases s
  {
    if s != {} {
      LeastExists(s);
      var m :| IsLeast(m, s);
      SortedSeqHead(s, m);
      SortedSeqSpec(s - {m});
      LeastThenSorted(m, s - {m}, SortedSeq(s - {m}));
    }
  }

  /** Putting a value below every element in front of a strictly sorted
      sequence keeps it strictly sorted. */
  lemma LeastThenSorted(m: string, rest: set<string>, t: seq<string>)
    requires StrictlySorted(t)
    requires forall x :: x in t <==> x in rest
    requires forall y :: y in rest ==> Less(m, y)
    ensures StrictlySorted([m] + t)
  {
    var r := [m] + t;
    forall i, j | 0 <= i < j < |r|
      ensures Less(r[i], r[j])
    {
      assert r[j] == t[j - 1];
      if i > 0 {
        assert r[i] == t[i - 1];
      }
    }
  }

  /** A strictly sorted sequence is determined by its elements: the copy order
      depends on the set alone. */
  lemma {:induction false} SortedUnique(a: seq<string>, s: set<string>)
    requires StrictlySorted(a)
    requires forall x :: x in a <==> x in s
    ensures a == SortedSeq(s)
    decreases |a|
  {
    if a == [] {
      assert s == {};
    } else {
      var m := a[0];
      forall y | y in s && y != m
        ensures Less(m, y)
      {
        var j :| 0 <= j < |a| && a[j] == y;
      }
      SortedSeqHead(s, m);
      forall x
        ensures x in a[1..] <==> x in s - {m}
      {
        if x in a[1..] {
          var j :| 1 <= j < |a| && a[j] == x;
          LessIrreflexive(m);
        }
        if x in s - {m} {
          var j :| 0 <= j < |a| && a[j] == x;
        }
      }
      SortedUnique(a[1..], s - {m});
    }
  }

  /** The least element of a non-empty set. */
  method Least(s: set<string>) returns (m: string)
    requires s != {}
    ensures IsLeast(m, s)
  {
    m :| m in s;
    var rest := s - {m};
    while rest != {}
      invariant rest <= s && m in s && m !in rest
      invariant forall y :: y in s - rest && y != m ==> Less(m, y)
      decreases rest
    {
      var y :| y in rest;
      if Less(y, m) {
        forall z | z in s - rest && z != m
          ensures Less(y, z)
        {
          LessTransitive(y, m, z);
        }
        m := y;
      } else if y != m {
        LessTotal(y, m);
      }
      rest := rest - {y};
    }
  }

  /** Python's `sorted()` on a set of strings. */
  method Sort(s: set<string>) returns (r: seq<string>)
    ensures r == SortedSeq(s)
  {
    r := [];
    var rest := s;
    while rest != {}
      invariant rest <= s
      invariant r + SortedSeq(rest) == SortedSeq(s)
      decreases rest
    {
      var m := Least(rest);
      SortedSeqHead(rest, m);
      r := r + [m];
      rest := rest - {m};
    }
  }
}
