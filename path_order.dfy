/** The order `list.sort()` puts POSIX `pathlib` paths in: Python compares
    two paths component by component, and two components code point by code
    point, case sensitive; a proper prefix comes first. `SortPaths` is a sort
    by that order. (Windows paths compare case-folded components instead.) */
module PathOrder {
  import opened Paths

  /** Python's `<=` on strings: lexicographic by code point. */
  predicate StrLe(a: string, b: string)
    decreases |a|
  {
    |a| == 0 || (|b| > 0 && (a[0] < b[0] || (a[0] == b[0] && StrLe(a[1..], b[1..]))))
  }

  /** Python's `<=` on paths: lexicographic by component, each component
      compared with `StrLe`. */
  predicate PathLe(a: Path, b: Path)
    decreases |a|
  {
    |a| == 0 ||
    (|b| > 0 && ((a[0] != b[0] && StrLe(a[0], b[0])) || (a[0] == b[0] && PathLe(a[1..], b[1..]))))
  }

  lemma {:induction false} StrLeTotal(a: string, b: string)
    ensures StrLe(a, b) || StrLe(b, a)
    decreases |a|
  {
    if |a| > 0 && |b| > 0 && a[0] == b[0] {
      StrLeTotal(a[1..], b[1..]);
    }
  }

  lemma {:induction false} StrLeAntisymmetric(a: string, b: string)
    requires StrLe(a, b) && StrLe(b, a)
    ensures a == b
    decreases |a|
  {
    if |a| > 0 {
      StrLeAntisymmetric(a[1..], b[1..]);
      assert a == [a[0]] + a[1..] && b == [b[0]] + b[1..];
    }
  }

  lemma {:induction false} StrLeTransitive(a: string, b: string, c: string)
    requires StrLe(a, b) && StrLe(b, c)
    ensures StrLe(a, c)
    decreases |a|
  {
    if |a| > 0 && a[0] == b[0] && b[0] == c[0] {
      StrLeTransitive(a[1..], b[1..], c[1..]);
    }
  }

  lemma {:induction false} PathLeTotal(a: Path, b: Path)
    ensures PathLe(a, b) || PathLe(b, a)
    decreases |a|
  {
    if |a| > 0 && |b| > 0 {
      if a[0] == b[0] {
        PathLeTotal(a[1..], b[1..]);
      } else {
        StrLeTotal(a[0], b[0]);
      }
    }
  }

  lemma {:induction false} PathLeReflexive(a: Path)
    ensures PathLe(a, a)
    decreases |a|
  {
    if |a| > 0 {
      PathLeReflexive(a[1..]);
    }
  }

  lemma {:induction false} PathLeAntisymmetric(a: Path, b: Path)
    requires PathLe(a, b) && PathLe(b, a)
    ensures a == b
    decreases |a|
  {
    if |a| > 0 {
      if a[0] != b[0] {
        StrLeAntisymmetric(a[0], b[0]);
      }
      PathLeAntisymmetric(a[1..], b[1..]);
      assert a == [a[0]] + a[1..] && b == [b[0]] + b[1..];
    }
  }

  lemma {:induction false} PathLeTransitive(a: Path, b: Path, c: Path)
    requires PathLe(a, b) && PathLe(b, c)
    ensures PathLe(a, c)
    decreases |a|
  {
    if |a| > 0 {
      if a[0] == b[0] && b[0] == c[0] {
        PathLeTransitive(a[1..], b[1..], c[1..]);
      } else if a[0] != b[0] && b[0] != c[0] {
        StrLeTransitive(a[0], b[0], c[0]);
        if a[0] == c[0] {
          StrLeAntisymmetric(a[0], b[0]);
        }
      }
    }
  }

  /** Every earlier path is at most every later one. */
  predicate Sorted(s: seq<Path>)
  {
    forall i, j :: 0 <= i < j < |s| ==> PathLe(s[i], s[j])
  }

  /** Places `x` into the sorted `s` before the first element it does not
      exceed. */
  function Insert(x: Path, s: seq<Path>): (r: seq<Path>)
    requires Sorted(s)
    ensures Sorted(r)
    ensures multiset(r) == multiset(s) + multiset{x}
  {
    if s == [] then [x]
    else if PathLe(x, s[0]) then
      InsertFirst(x, s);
      [x] + s
    else
      var rest := Insert(x, s[1..]);
      PathLeTotal(x, s[0]);
      InsertLater(x, s, rest);
      [s[0]] + rest
  }

  lemma InsertFirst(x: Path, s: seq<Path>)
    requires Sorted(s) && s != [] && PathLe(x, s[0])
    ensures Sorted([x] + s)
  {
    forall j | 0 < j < |s| ensures PathLe(x, s[j]) {
      PathLeTransitive(x, s[0], s[j]);
    }
  }

  lemma InsertLater(x: Path, s: seq<Path>, rest: seq<Path>)
    requires Sorted(s) && s != [] && PathLe(s[0], x)
    requires Sorted(rest) && multiset(rest) == multiset(s[1..]) + multiset{x}
    ensures Sorted([s[0]] + rest)
    ensures multiset([s[0]] + rest) == multiset(s) + multiset{x}
  {
    assert s == [s[0]] + s[1..];
    forall j | 0 <= j < |rest| ensures PathLe(s[0], rest[j]) {
      assert rest[j] in multiset(rest);
      if rest[j] != x {
        assert rest[j] in multiset(s[1..]);
        var i :| 0 <= i < |s[1..]| && s[1..][i] == rest[j];
        assert s[i + 1] == rest[j];
      }
    }
  }

  /** `list.sort()` on paths: the same paths, in ascending order. */
  function SortPaths(s: seq<Path>): (r: seq<Path>)
    ensures Sorted(r)
    ensures multiset(r) == multiset(s)
  {
    if s == [] then []
    else
      assert s == [s[0]] + s[1..];
      Insert(s[0], SortPaths(s[1..]))
  }

  /** The first element of a sorted sequence is at most each of its elements. */
  lemma SortedHeadLeast(s: seq<Path>, x: Path)
    requires Sorted(s) && x in s
    ensures PathLe(s[0], x)
  {
    var i :| 0 <= i < |s| && s[i] == x;
    if i == 0 {
      PathLeReflexive(x);
    }
  }

  lemma SameHeadSameTail(r: seq<Path>, s: seq<Path>)
    requires r != [] && s != [] && r[0] == s[0]
    requires multiset(r) == multiset(s)
    ensures multiset(r[1..]) == multiset(s[1..])
  {
    assert r == [r[0]] + r[1..] && s == [s[0]] + s[1..];
    assert multiset(r) == multiset{r[0]} + multiset(r[1..]);
    assert multiset(s) == multiset{s[0]} + multiset(s[1..]);
    assert multiset(r[1..]) == multiset(r) - multiset{r[0]};
    assert multiset(s[1..]) == multiset(s) - multiset{s[0]};
  }

  /** A sorted arrangement of a collection of paths is unique, so any stable or
      unstable sort by this order (Python's included) gives `SortPaths`'s
      answer. */
  lemma {:induction false} SortedUnique(r: seq<Path>, s: seq<Path>)
    requires Sorted(r) && Sorted(s)
    requires multiset(r) == multiset(s)
    ensures r == s
    decreases |r|
  {
    if r == [] {
      assert |s| == |multiset(s)|;
    } else {
      assert r[0] in multiset(s) && s != [];
      assert s[0] in multiset(r);
      SortedHeadLeast(s, r[0]);
      SortedHeadLeast(r, s[0]);
      PathLeAntisymmetric(r[0], s[0]);
      SameHeadSameTail(r, s);
      SortedUnique(r[1..], s[1..]);
      assert r == [r[0]] + r[1..] && s == [s[0]] + s[1..];
    }
  }
}
