/** `discover_images`: keep the regular files of a recursive walk whose
    lower-cased suffix is an allowed extension, then sort them. The walk itself
    (`rglob`) is an input. */
module Discovery {
  import opened Paths
  import opened PathOrder

  /** One item produced by walking the upload root: its path, and whether it
      is a regular file (`Path.is_file`). */
  datatype Entry = Entry(path: Path, isFile: bool)

  /** The paths of the walk's regular files that `keep` accepts, in walk
      order. */
  function FilesWhere(walk: seq<Entry>, keep: Path -> bool): (r: seq<Path>)
    ensures |r| <= |walk|
  {
    if walk == [] then []
    else
      var last := walk[|walk| - 1];
      FilesWhere(walk[..|walk| - 1], keep) + (if last.isFile && keep(last.path) then [last.path] else [])
  }

  lemma {:induction false} FilesWhereMembers(walk: seq<Entry>, keep: Path -> bool, p: Path)
    ensures p in FilesWhere(walk, keep) <==> Entry(p, true) in walk && keep(p)
  {
    if walk != [] {
      var init := walk[..|walk| - 1];
      FilesWhereMembers(init, keep, p);
      assert walk == init + [walk[|walk| - 1]];
    }
  }

  /** The walk's items that discovery keeps, in walk order. */
  function Eligible(walk: seq<Entry>): (r: seq<Path>)
    ensures |r| <= |walk|
  {
    FilesWhere(walk, IsImage)
  }

  /** A path is kept exactly when the walk reported it as a regular file and
      its suffix is an allowed extension. */
  lemma EligibleMembers(walk: seq<Entry>, p: Path)
    ensures p in Eligible(walk) <==> Entry(p, true) in walk && IsImage(p)
  {
    FilesWhereMembers(walk, IsImage, p);
  }

  /** The filter loop appends the kept files in walk order; `files.sort()`
      then orders them. */
  method DiscoverImages(walk: seq<Entry>) returns (files: seq<Path>)
    ensures Sorted(files)
    ensures multiset(files) == multiset(Eligible(walk))
    ensures forall p :: p in files <==> Entry(p, true) in walk && IsImage(p)
  {
    files := [];
    for i := 0 to |walk|
      invariant files == Eligible(walk[..i])
    {
      assert walk[..i + 1][..i] == walk[..i];
      if walk[i].isFile && IsImage(walk[i].path) {
        files := files + [walk[i].path];
      }
    }
    assert walk[..|walk|] == walk;
    var kept := files;
    files := SortPaths(files);
    forall p ensures p in files <==> Entry(p, true) in walk && IsImage(p) {
      EligibleMembers(walk, p);
      assert p in files <==> p in multiset(kept);
    }
  }
}
