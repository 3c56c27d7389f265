/** `group_batches` and `title_for_group`: how the discovered files are cut
    into posts of at most `post_size` images, and what each post is called. */
module Batching {
  import opened Paths

  /** The files of one post, in upload order. */
  type Batch = seq<Path>

  /** The `--group-by` choices: one directory per post, or the whole list cut
      into runs regardless of directories. */
  datatype GroupBy = ByFolder | Flat

  /** The `--title-from` choices. */
  datatype TitleFrom = FolderName | FileStem | Auto

  /** `group_batches` either returns the batches or raises the `ValueError`
      that `range()` raises for a zero step. */
  datatype Result<T> = Ok(value: T) | Err(message: string)

  const ZeroStepMessage := "range() arg 3 must not be zero"

  function Min(a: int, b: int): int
  {
    if a <= b then a else b
  }

  /** The posts of a batching, concatenated. */
  function Flatten(bs: seq<Batch>): (r: seq<Path>)
  {
    if bs == [] then [] else bs[0] + Flatten(bs[1..])
  }

  lemma {:induction false} FlattenAppend(a: seq<Batch>, b: seq<Batch>)
    ensures Flatten(a + b) == Flatten(a) + Flatten(b)
  {
    if a != [] {
      assert (a + b)[1..] == a[1..] + b;
      FlattenAppend(a[1..], b);
    } else {
      assert a + b == b;
    }
  }

  /** A file is in the concatenation exactly when it is in one of the posts. */
  lemma {:induction false} FlattenMembers(bs: seq<Batch>, f: Path)
    ensures f in Flatten(bs) <==> exists k :: 0 <= k < |bs| && f in bs[k]
  {
    if bs != [] {
      FlattenMembers(bs[1..], f);
      if f in Flatten(bs[1..]) {
        var k :| 0 <= k < |bs[1..]| && f in bs[1..][k];
        assert f in bs[k + 1];
      }
      if exists k :: 0 <= k < |bs| && f in bs[k] {
        var k :| 0 <= k < |bs| && f in bs[k];
        if k > 0 { assert f in bs[1..][k - 1]; }
      }
    }
  }

  // ---------------------------------------------------------------------
  // Cutting one list into runs of `n`: `lst[i:i + n] for i in range(0, len(lst), n)`

  /** The slices `lst[i:i+n]`, `lst[i+n:i+2n]`, ... up to the end of `lst`;
      Python clamps a slice that runs past the end. */
  function ChunksFrom(lst: seq<Path>, i: nat, n: int): seq<Batch>
    requires n > 0
    decreases |lst| - i
  {
    if i >= |lst| then [] else [lst[i..Min(i + n, |lst|)]] + ChunksFrom(lst, i + n, n)
  }

  function Chunks(lst: seq<Path>, n: int): seq<Batch>
    requires n > 0
  {
    ChunksFrom(lst, 0, n)
  }

  /** Every run holds between one and `n` files. */
  predicate RunsWithin(c: seq<Batch>, n: int)
  {
    forall k :: 0 <= k < |c| ==> 0 < |c[k]| <= n
  }

  /** Every run but the last holds exactly `n` files. */
  predicate AllButLastFull(c: seq<Batch>, n: int)
  {
    forall k :: 0 <= k < |c| - 1 ==> |c[k]| == n
  }

  /** Cutting from position `i` on and concatenating the runs gives back
      `lst[i..]`. */
  lemma {:induction false} ChunksFromFlatten(lst: seq<Path>, i: nat, n: int)
    requires n > 0 && i <= |lst|
    ensures Flatten(ChunksFrom(lst, i, n)) == lst[i..]
    decreases |lst| - i
  {
    if i < |lst| {
      var j := Min(i + n, |lst|);
      var c := ChunksFrom(lst, i, n);
      assert c[0] == lst[i..j] && c[1..] == ChunksFrom(lst, i + n, n);
      if i + n < |lst| {
        ChunksFromFlatten(lst, i + n, n);
        assert lst[i..] == lst[i..j] + lst[j..];
      } else {
        assert lst[i..] == lst[i..j];
      }
    }
  }

  /** Every run is non-empty and at most `n` long, and every run but the last
      is exactly `n` long. */
  lemma {:induction false} ChunksFromRuns(lst: seq<Path>, i: nat, n: int)
    requires n > 0
    ensures RunsWithin(ChunksFrom(lst, i, n), n)
    ensures AllButLastFull(ChunksFrom(lst, i, n), n)
    decreases |lst| - i
  {
    if i < |lst| {
      var c := ChunksFrom(lst, i, n);
      var rest := ChunksFrom(lst, i + n, n);
      ChunksFromRuns(lst, i + n, n);
      assert c == [c[0]] + rest;
      assert 0 < |c[0]| <= n;
      assert rest != [] ==> |c[0]| == n;
      forall k | 1 <= k < |c| ensures 0 < |c[k]| <= n && (k < |c| - 1 ==> |c[k]| == n) {
        assert c[k] == rest[k - 1];
      }
    }
  }

  /** There are ceil((|lst| - i) / n) runs. */
  lemma {:induction false} ChunksFromCount(lst: seq<Path>, i: nat, n: int)
    requires n > 0 && i <= |lst|
    ensures (|ChunksFrom(lst, i, n)| - 1) * n < |lst| - i <= |ChunksFrom(lst, i, n)| * n
    decreases |lst| - i
  {
    if i < |lst| {
      var r := |ChunksFrom(lst, i + n, n)|;
      assert |ChunksFrom(lst, i, n)| == r + 1;
      if i + n < |lst| {
        ChunksFromCount(lst, i + n, n);
        assert (r + 1) * n == r * n + n;
        assert (r - 1) * n == r * n - n;
      } else {
        assert r == 0;
      }
    }
  }

  /** `Chunks` in the terms the uploader promises: runs of at most `n`
      non-empty files, all full but the last, ceil(|lst| / n) of them, and
      their concatenation is the list itself. */
  lemma ChunksShape(lst: seq<Path>, n: int)
    requires n > 0
    ensures Flatten(Chunks(lst, n)) == lst
    ensures RunsWithin(Chunks(lst, n), n)
    ensures AllButLastFull(Chunks(lst, n), n)
    ensures (|Chunks(lst, n)| - 1) * n < |lst| <= |Chunks(lst, n)| * n
    ensures lst == [] <==> Chunks(lst, n) == []
  {
    ChunksFromFlatten(lst, 0, n);
    ChunksFromRuns(lst, 0, n);
    ChunksFromCount(lst, 0, n);
  }

  /** A file is in some run exactly when it is in the list. */
  lemma ChunksMembers(lst: seq<Path>, n: int, f: Path)
    requires n > 0
    ensures f in lst <==> exists k :: 0 <= k < |Chunks(lst, n)| && f in Chunks(lst, n)[k]
  {
    ChunksShape(lst, n);
    FlattenMembers(Chunks(lst, n), f);
  }

  // ---------------------------------------------------------------------
  // The folder policy: a dict from parent directory to its files, in
  // insertion order, then each directory's list cut into runs.

  /** The files whose parent is `d`, in input order: the list that
      `by_dir.setdefault(f.parent, []).append(f)` builds for `d`. */
  function Members(files: seq<Path>, d: Path): seq<Path>
  {
    if files == [] then []
    else
      var last := files[|files| - 1];
      Members(files[..|files| - 1], d) + (if Parent(last) == d then [last] else [])
  }

  /** A file is among `d`'s members exactly when it is one of the files and
      `d` is its parent. */
  lemma {:induction false} MembersIn(files: seq<Path>, d: Path, f: Path)
    ensures f in Members(files, d) <==> f in files && Parent(f) == d
  {
    if files != [] {
      var init := files[..|files| - 1];
      var last := files[|files| - 1];
      assert files == init + [last];
      MembersIn(init, d, f);
    }
  }

  /** Adding one file at the end adds it to its own directory's list only. */
  lemma MembersSnoc(files: seq<Path>, f: Path, d: Path)
    ensures Members(files + [f], d) == Members(files, d) + (if Parent(f) == d then [f] else [])
  {
    assert (files + [f])[..|files + [f]| - 1] == files;
  }

  /** The parent directories of `files`, each once, in order of first
      appearance: the key order of the `by_dir` dict. */
  function Parents(files: seq<Path>): seq<Path>
  {
    if files == [] then []
    else
      var ps := Parents(files[..|files| - 1]);
      var p := Parent(files[|files| - 1]);
      if p in ps then ps else ps + [p]
  }

  /** No directory is listed twice. */
  predicate Distinct(ds: seq<Path>)
  {
    forall i, j :: 0 <= i < j < |ds| ==> ds[i] != ds[j]
  }

  lemma {:induction false} ParentsDistinct(files: seq<Path>)
    ensures Distinct(Parents(files))
  {
    if files != [] {
      ParentsDistinct(files[..|files| - 1]);
    }
  }

  /** A directory is listed exactly when some file lies directly in it. */
  lemma {:induction false} ParentsIn(files: seq<Path>, d: Path)
    ensures d in Parents(files) <==> exists m :: 0 <= m < |files| && Parent(files[m]) == d
  {
    if files != [] {
      var init := files[..|files| - 1];
      ParentsIn(init, d);
      if exists m :: 0 <= m < |files| && Parent(files[m]) == d {
        var m :| 0 <= m < |files| && Parent(files[m]) == d;
        if m < |init| {
          assert init[m] == files[m];
        }
      }
      if exists m :: 0 <= m < |init| && Parent(init[m]) == d {
        var m :| 0 <= m < |init| && Parent(init[m]) == d;
        assert files[m] == init[m];
      }
    }
  }

  /** A directory that holds none of the files has no members. */
  lemma {:induction false} MembersOfAbsentParent(files: seq<Path>, d: Path)
    requires d !in Parents(files)
    ensures Members(files, d) == []
  {
    if files != [] {
      MembersOfAbsentParent(files[..|files| - 1], d);
    }
  }

  /** Directories come in the order in which their first file comes: when the
      `m`-th file lies in the `j`-th directory, some earlier file lies in the
      `i`-th directory, for every `i < j`. */
  lemma {:induction false} ParentsInFirstAppearanceOrder(files: seq<Path>, i: nat, j: nat, m: nat)
    requires j < |Parents(files)| && i < j
    requires m < |files| && Parent(files[m]) == Parents(files)[j]
    ensures exists m' :: 0 <= m' < m && Parent(files[m']) == Parents(files)[i]
  {
    var init := files[..|files| - 1];
    var ps0 := Parents(init);
    var ps := Parents(files);
    assert i < |ps0| && ps[i] == ps0[i];
    if m < |init| {
      assert init[m] == files[m];
      ParentsIn(init, Parent(init[m]));
      assert j < |ps0| && ps[j] == ps0[j];
      ParentsInFirstAppearanceOrder(init, i, j, m);
      var m' :| 0 <= m' < m && Parent(init[m']) == ps0[i];
      assert files[m'] == init[m'];
    } else if j < |ps0| {
      // the last file's directory was opened by an earlier file, which comes
      // after a file of the `i`-th directory
      ParentsIn(init, ps0[j]);
      var m0 :| 0 <= m0 < |init| && Parent(init[m0]) == ps0[j];
      ParentsInFirstAppearanceOrder(init, i, j, m0);
      var m' :| 0 <= m' < m0 && Parent(init[m']) == ps0[i];
      assert files[m'] == init[m'];
    } else {
      // the last file opened the `j`-th directory; the `i`-th was opened
      // before it
      ParentsIn(init, ps0[i]);
      var m0 :| 0 <= m0 < |init| && Parent(init[m0]) == ps0[i];
      assert files[m0] == init[m0];
    }
  }

  /** The runs of each directory in `ds`, directory after directory. */
  function ChunkEach(files: seq<Path>, ds: seq<Path>, n: int): seq<Batch>
    requires n > 0
  {
    if ds == [] then []
    else ChunkEach(files, ds[..|ds| - 1], n) + Chunks(Members(files, ds[|ds| - 1]), n)
  }

  /** The members of each directory in `ds`, directory after directory. */
  function Grouped(files: seq<Path>, ds: seq<Path>): seq<Path>
  {
    if ds == [] then [] else Grouped(files, ds[..|ds| - 1]) + Members(files, ds[|ds| - 1])
  }

  /** The batches of the folder policy for a positive `post_size`. */
  function FolderBatches(files: seq<Path>, n: int): seq<Batch>
    requires n > 0
  {
    ChunkEach(files, Parents(files), n)
  }

  lemma {:induction false} FlattenChunkEach(files: seq<Path>, ds: seq<Path>, n: int)
    requires n > 0
    ensures Flatten(ChunkEach(files, ds, n)) == Grouped(files, ds)
  {
    if ds != [] {
      var d := ds[|ds| - 1];
      FlattenChunkEach(files, ds[..|ds| - 1], n);
      FlattenAppend(ChunkEach(files, ds[..|ds| - 1], n), Chunks(Members(files, d), n));
      ChunksShape(Members(files, d), n);
    }
  }

  /** A post of the folder policy: one to `n` files of the input, all in the
      directory of the first. */
  predicate FolderRun(b: Batch, files: seq<Path>, n: int)
  {
    && 0 < |b| <= n
    && forall f :: f in b ==> f in files && Parent(f) == Parent(b[0])
  }

  /** A file of a run is a file of the list that was cut. */
  lemma ChunkElement(lst: seq<Path>, n: int, k: nat, f: Path)
    requires n > 0 && k < |Chunks(lst, n)| && f in Chunks(lst, n)[k]
    ensures f in lst
  {
    ChunksMembers(lst, n, f);
  }

  /** Every run of `ChunkEach` is a `FolderRun` of one of the directories in
      `ds`. */
  lemma {:induction false} ChunkEachRuns(files: seq<Path>, ds: seq<Path>, n: int)
    requires n > 0
    ensures forall k :: 0 <= k < |ChunkEach(files, ds, n)| ==>
      FolderRun(ChunkEach(files, ds, n)[k], files, n) && Parent(ChunkEach(files, ds, n)[k][0]) in ds
  {
    if ds != [] {
      var init := ds[..|ds| - 1];
      var d := ds[|ds| - 1];
      ChunkEachRuns(files, init, n);
      var a := ChunkEach(files, init, n);
      var lst := Members(files, d);
      var b := Chunks(lst, n);
      ChunksShape(lst, n);
      var c := a + b;
      forall k | 0 <= k < |c|
        ensures FolderRun(c[k], files, n) && Parent(c[k][0]) in ds
      {
        if k < |a| {
          assert c[k] == a[k];
          assert FolderRun(a[k], files, n) && Parent(a[k][0]) in init;
        } else {
          var kb := k - |a|;
          assert c[k] == b[kb];
          assert RunsWithin(b, n);
          assert 0 < |b[kb]| <= n;
          forall f | f in b[kb] ensures f in files && Parent(f) == d {
            ChunkElement(lst, n, kb, f);
            MembersIn(files, d, f);
          }
          assert b[kb][0] in b[kb];
        }
      }
    }
  }

  /** With `ds` free of repetitions, adding one file adds it once to the
      grouping if its directory is among `ds`, and not at all otherwise. */
  lemma {:induction false} GroupedSnoc(files: seq<Path>, f: Path, ds: seq<Path>)
    requires Distinct(ds)
    ensures multiset(Grouped(files + [f], ds)) ==
            multiset(Grouped(files, ds)) + (if Parent(f) in ds then multiset{f} else multiset{})
  {
    if ds != [] {
      var init := ds[..|ds| - 1];
      var d := ds[|ds| - 1];
      assert Distinct(init);
      GroupedSnoc(files, f, init);
      MembersSnoc(files, f, d);
      var x := if Parent(f) in ds then multiset{f} else multiset{};
      var xi := if Parent(f) in init then multiset{f} else multiset{};
      var y := if Parent(f) == d then multiset{f} else multiset{};
      DistinctLast(ds, Parent(f));
      var g1, g0 := Grouped(files + [f], init), Grouped(files, init);
      var m1, m0 := Members(files + [f], d), Members(files, d);
      assert multiset(m1) == multiset(m0) + y;
      MultisetOfConcats(g1, g0, m1, m0, xi, y);
      assert Grouped(files + [f], ds) == g1 + m1;
      assert Grouped(files, ds) == g0 + m0;
    }
  }

  lemma MultisetOfConcats(a1: seq<Path>, a0: seq<Path>, b1: seq<Path>, b0: seq<Path>, x: multiset<Path>, y: multiset<Path>)
    requires multiset(a1) == multiset(a0) + x
    requires multiset(b1) == multiset(b0) + y
    ensures multiset(a1 + b1) == multiset(a0 + b0) + (x + y)
  {
    calc {
      multiset(a1 + b1);
      multiset(a1) + multiset(b1);
      (multiset(a0) + x) + (multiset(b0) + y);
      (multiset(a0) + multiset(b0)) + (x + y);
      multiset(a0 + b0) + (x + y);
    }
  }

  /** In a list without repetitions, a directory is either among all but the
      last entries or is the last one, never both. */
  lemma DistinctLast(ds: seq<Path>, p: Path)
    requires Distinct(ds) && ds != []
    ensures p in ds <==> p in ds[..|ds| - 1] || p == ds[|ds| - 1]
    ensures !(p in ds[..|ds| - 1] && p == ds[|ds| - 1])
  {
    assert ds == ds[..|ds| - 1] + [ds[|ds| - 1]];
    var init := ds[..|ds| - 1];
    if p == ds[|ds| - 1] {
      forall i | 0 <= i < |init| ensures init[i] != p {
        assert ds[i] != ds[|ds| - 1];
      }
    }
  }

  /** The folder policy loses no file and repeats none: grouping by directory
      is a permutation of the input. */
  lemma {:induction false} GroupedIsPermutation(files: seq<Path>)
    ensures multiset(Grouped(files, Parents(files))) == multiset(files)
  {
    if files != [] {
      var init := files[..|files| - 1];
      var f := files[|files| - 1];
      assert files == init + [f];
      GroupedIsPermutation(init);
      var ps0 := Parents(init);
      ParentsDistinct(init);
      GroupedSnoc(init, f, ps0);
      if Parent(f) !in ps0 {
        var p := Parent(f);
        var ps := ps0 + [p];
        assert ps[..|ps| - 1] == ps0;
        MembersOfAbsentParent(init, p);
        MembersSnoc(init, f, p);
        assert Grouped(files, ps) == Grouped(files, ps0) + Members(files, p);
      }
    }
  }

  /** What the folder policy promises for a positive `post_size`: every batch
      holds between one and `post_size` files of a single directory, all taken
      from the input, and together the batches hold every input file exactly
      as often as the input does. */
  lemma FolderBatchesShape(files: seq<Path>, n: int)
    requires n > 0
    ensures var c := FolderBatches(files, n);
      && multiset(Flatten(c)) == multiset(files)
      && forall k :: 0 <= k < |c| ==> FolderRun(c[k], files, n)
  {
    FlattenChunkEach(files, Parents(files), n);
    GroupedIsPermutation(files);
    ChunkEachRuns(files, Parents(files), n);
  }

  /** When every file sits in one directory, the folder policy cuts the list
      exactly as the flat policy does. */
  lemma {:induction false} SingleFolderIsFlat(files: seq<Path>, d: Path, n: int)
    requires n > 0 && files != []
    requires forall f :: f in files ==> Parent(f) == d
    ensures FolderBatches(files, n) == Chunks(files, n)
  {
    ParentsOfOneFolder(files, d);
    MembersAreAll(files, d);
    assert [d][..0] == [];
    assert ChunkEach(files, [d], n) == [] + Chunks(files, n);
  }

  lemma {:induction false} ParentsOfOneFolder(files: seq<Path>, d: Path)
    requires files != []
    requires forall f :: f in files ==> Parent(f) == d
    ensures Parents(files) == [d]
  {
    var init := files[..|files| - 1];
    var last := files[|files| - 1];
    assert last in files;
    if init != [] {
      assert forall f :: f in init ==> f in files;
      ParentsOfOneFolder(init, d);
    }
  }

  lemma {:induction false} MembersAreAll(files: seq<Path>, d: Path)
    requires forall f :: f in files ==> Parent(f) == d
    ensures Members(files, d) == files
  {
    if files != [] {
      var init := files[..|files| - 1];
      assert files == init + [files[|files| - 1]];
      MembersAreAll(init, d);
    }
  }

  /** Forty-five images of one directory with `post_size` 20 make three posts
      of 20, 20 and 5 images, in discovery order. */
  lemma FortyFiveInOneFolder(files: seq<Path>, d: Path)
    requires |files| == 45
    requires forall f :: f in files ==> Parent(f) == d
    ensures var c := FolderBatches(files, 20);
      |c| == 3 && c[0] == files[..20] && c[1] == files[20..40] && c[2] == files[40..]
  {
    SingleFolderIsFlat(files, d, 20);
    assert ChunksFrom(files, 40, 20) == [files[40..45]] + ChunksFrom(files, 60, 20);
    assert ChunksFrom(files, 20, 20) == [files[20..40]] + ChunksFrom(files, 40, 20);
    assert ChunksFrom(files, 0, 20) == [files[0..20]] + ChunksFrom(files, 20, 20);
  }

  // ---------------------------------------------------------------------
  // `group_batches` itself

  /** What `group_batches` returns. A zero `post_size` makes `range()` raise;
      under the folder policy only once there is a directory to cut, under
      the flat policy always. A negative `post_size` makes every `range()`
      empty, hence no batches. */
  function GroupBatchesSpec(files: seq<Path>, groupBy: GroupBy, n: int): Result<seq<Batch>>
  {
    match groupBy
    case ByFolder =>
      if files == [] then Ok([])
      else if n == 0 then Err(ZeroStepMessage)
      else if n < 0 then Ok([])
      else Ok(FolderBatches(files, n))
    case Flat =>
      if n == 0 then Err(ZeroStepMessage)
      else if n < 0 then Ok([])
      else Ok(Chunks(files, n))
  }

  /** The first loop of the folder branch: `by_dir.setdefault(f.parent,
      []).append(f)` for every file. `dirs` lists the dict's keys in insertion
      order, which is the order `by_dir.items()` visits them in. */
  method IndexByParent(files: seq<Path>) returns (dirs: seq<Path>, byDir: map<Path, seq<Path>>)
    ensures dirs == Parents(files)
    ensures forall d :: d in byDir <==> d in dirs
    ensures forall d :: d in byDir ==> byDir[d] == Members(files, d)
  {
    byDir := map[];
    dirs := [];
    for i := 0 to |files|
      invariant dirs == Parents(files[..i])
      invariant forall d :: d in byDir <==> d in dirs
      invariant forall d :: d in byDir ==> byDir[d] == Members(files[..i], d)
    {
      var f := files[i];
      assert files[..i + 1] == files[..i] + [f];
      forall d | d in byDir ensures Members(files[..i + 1], d) == Members(files[..i], d) + (if Parent(f) == d then [f] else []) {
        MembersSnoc(files[..i], f, d);
      }
      if Parent(f) in byDir {
        byDir := byDir[Parent(f) := byDir[Parent(f)] + [f]];
      } else {
        MembersOfAbsentParent(files[..i], Parent(f));
        MembersSnoc(files[..i], f, Parent(f));
        byDir := byDir[Parent(f) := [f]];
        dirs := dirs + [Parent(f)];
      }
    }
    assert files[..|files|] == files;
  }

  /** The inner loop of the folder branch: appends `lst[k:k + n]` for every
      `k` in `range(0, len(lst), n)`. */
  method AppendRuns(groups: seq<Batch>, lst: seq<Path>, n: int) returns (out: seq<Batch>)
    requires n > 0
    ensures out == groups + Chunks(lst, n)
  {
    out := groups;
    var k := 0;
    while k < |lst|
      invariant 0 <= k
      invariant out + ChunksFrom(lst, k, n) == groups + Chunks(lst, n)
      decreases |lst| - k
    {
      var run := lst[k..Min(k + n, |lst|)];
      assert ChunksFrom(lst, k, n) == [run] + ChunksFrom(lst, k + n, n);
      out := out + [run];
      k := k + n;
    }
  }

  /** The second loop of the folder branch: for each directory, in the
      dict's order, append the runs of its files. A zero `post_size` raises
      at the first directory; a negative one appends nothing. */
  method CutRuns(files: seq<Path>, dirs: seq<Path>, byDir: map<Path, seq<Path>>, postSize: int)
    returns (r: Result<seq<Batch>>)
    requires forall d :: d in dirs ==> d in byDir && byDir[d] == Members(files, d)
    ensures dirs == [] ==> r == Ok([])
    ensures dirs != [] && postSize == 0 ==> r == Err(ZeroStepMessage)
    ensures postSize < 0 ==> r == Ok([])
    ensures postSize > 0 ==> r == Ok(ChunkEach(files, dirs, postSize))
  {
    var groups: seq<Batch> := [];
    for j := 0 to |dirs|
      invariant postSize > 0 ==> groups == ChunkEach(files, dirs[..j], postSize)
      invariant postSize <= 0 ==> groups == []
      invariant j > 0 ==> postSize != 0
    {
      if postSize == 0 {
        return Err(ZeroStepMessage);
      }
      if postSize > 0 {
        groups := AppendRuns(groups, byDir[dirs[j]], postSize);
        assert dirs[..j + 1][..j] == dirs[..j];
      }
    }
    assert dirs[..|dirs|] == dirs;
    r := Ok(groups);
  }

  /** `group_batches`: the folder branch builds the directory dict in one pass
      and then appends the runs of each directory in the dict's order; the flat
      branch is the list comprehension. */
  method GroupBatches(files: seq<Path>, groupBy: GroupBy, postSize: int) returns (r: Result<seq<Batch>>)
    ensures r == GroupBatchesSpec(files, groupBy, postSize)
  {
    if groupBy == ByFolder {
      var dirs, byDir := IndexByParent(files);
      assert files != [] ==> dirs != [] by {
        if files != [] { ParentsIn(files, Parent(files[0])); }
      }
      r := CutRuns(files, dirs, byDir, postSize);
    } else {
      r := if postSize == 0 then Err(ZeroStepMessage)
           else if postSize < 0 then Ok([])
           else Ok(Chunks(files, postSize));
    }
  }

  /** For a positive `post_size`, under either policy: batching succeeds,
      every batch holds between one and `post_size` files of the input, and
      the batches together are a permutation of the input; under the flat
      policy they are the input itself, in order, and all batches but the
      last are full. No input gives no batches. */
  lemma GroupBatchesShape(files: seq<Path>, groupBy: GroupBy, n: int)
    requires n > 0
    ensures GroupBatchesSpec(files, groupBy, n).Ok?
    ensures var c := GroupBatchesSpec(files, groupBy, n).value;
      && multiset(Flatten(c)) == multiset(files)
      && (files == [] <==> c == [])
      && (forall k :: 0 <= k < |c| ==> 0 < |c[k]| <= n && forall f :: f in c[k] ==> f in files)
      && (groupBy == Flat ==> Flatten(c) == files && forall k :: 0 <= k < |c| - 1 ==> |c[k]| == n)
      && (groupBy == ByFolder ==> forall k :: 0 <= k < |c| ==> forall f :: f in c[k] ==> Parent(f) == Parent(c[k][0]))
  {
    ChunksShape(files, n);
    if groupBy == ByFolder && files != [] {
      FolderBatchesShape(files, n);
      var c := FolderBatches(files, n);
      assert |multiset(Flatten(c))| > 0;
      assert Flatten([]) == [];
      assert c != [];
    }
    var c := GroupBatchesSpec(files, groupBy, n).value;
    forall k, f | 0 <= k < |c| && f in c[k] ensures f in files {
      FlattenMembers(c, f);
      assert f in multiset(Flatten(c));
    }
  }

  // ---------------------------------------------------------------------
  // `title_for_group`

  /** The post title: the first file's directory name, the first file's
      stem, or a label with the current time (`now`, formatted as
      `%Y-%m-%d %H:%M`, is an input). */
  function TitleForGroup(group: Batch, titleFrom: TitleFrom, now: string): (t: string)
    requires titleFrom != Auto ==> |group| > 0
    ensures titleFrom == FileStem ==> t + Suffix(Name(group[0])) == Name(group[0])
    ensures titleFrom == Auto ==> t == "Civitai upload " + now
  {
    match titleFrom
    case FolderName => Name(Parent(group[0]))
    case FileStem => Stem(Name(group[0]))
    case Auto => "Civitai upload " + now
  }

  /** Under the folder policy a folder-named title is the directory name of
      every file of the batch, not only of the first. */
  lemma FolderTitleNamesEveryFile(files: seq<Path>, n: int, k: nat, now: string)
    requires n > 0 && k < |FolderBatches(files, n)|
    ensures var b := FolderBatches(files, n)[k];
      |b| > 0 && forall f :: f in b ==> TitleForGroup(b, FolderName, now) == Name(Parent(f))
  {
    FolderBatchesShape(files, n);
  }
}
