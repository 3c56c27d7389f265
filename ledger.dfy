/** The local dedupe ledger: the SQLite table `uploads`, reduced to what the
    uploader reads and writes, a map from a file's SHA-256 digest to the path
    it was first recorded with; and the filter that drops files whose digest
    is already there. */
module LedgerStore {
  import opened Paths

  /** The hex SHA-256 digest of a file's bytes. Hashing is not modelled:
      callers pass `sha256_file` as a function from path to digest, which
      assumes a file's bytes do not change during a run. */
  type Digest = string

  /** The table after `INSERT OR IGNORE (d, p)` on the unique `sha256`
      column: the digest is present afterwards, a digest already present keeps
      the path it had, and no other digest's row changes. */
  function Recorded(rows: map<Digest, Path>, d: Digest, p: Path): (r: map<Digest, Path>)
    ensures d in r
    ensures d in rows ==> r[d] == rows[d]
    ensures d !in rows ==> r[d] == p
    ensures forall e :: e in rows ==> e in r && r[e] == rows[e]
    ensures forall e :: e != d ==> (e in r <==> e in rows)
  {
    if d in rows then rows else rows[d := p]
  }

  /** Recording a digest a second time, with any path, changes nothing. */
  lemma RecordingTwiceKeepsFirstPath(rows: map<Digest, Path>, d: Digest, p: Path, q: Path)
    ensures Recorded(Recorded(rows, d, p), d, q) == Recorded(rows, d, p)
  {
  }

  /** The open ledger connection. */
  class Ledger {
    /** The `uploads` rows: digest to the path first recorded with it. */
    var rows: map<Digest, Path>

    /** `init_db`: opens the ledger with the rows earlier runs left in it. */
    constructor (existing: map<Digest, Path>)
      ensures rows == existing
    {
      rows := existing;
    }

    /** `already_uploaded`: whether a row with this digest exists. */
    method AlreadyUploaded(d: Digest) returns (found: bool)
      ensures found <==> d in rows
    {
      found := d in rows;
    }

    /** `mark_uploaded`: insert the row unless the digest is already there. */
    method MarkUploaded(d: Digest, p: Path)
      modifies this
      ensures rows == Recorded(old(rows), d, p)
      ensures d in rows
    {
      if d !in rows {
        rows := rows[d := p];
      }
    }
  }

  // ---------------------------------------------------------------------
  // The dedupe filter

  /** The files whose digest is not in `rows`, in their original order. */
  function Unrecorded(files: seq<Path>, rows: map<Digest, Path>, digest: Path -> Digest): (r: seq<Path>)
    ensures |r| <= |files|
  {
    if files == [] then []
    else
      var last := files[|files| - 1];
      Unrecorded(files[..|files| - 1], rows, digest) + (if digest(last) in rows then [] else [last])
  }

  /** A file survives the filter exactly when it is one of the input files and
      its digest is not recorded. */
  lemma {:induction false} UnrecordedMembers(files: seq<Path>, rows: map<Digest, Path>, digest: Path -> Digest, f: Path)
    ensures f in Unrecorded(files, rows, digest) <==> f in files && digest(f) !in rows
  {
    if files != [] {
      var init := files[..|files| - 1];
      UnrecordedMembers(init, rows, digest, f);
      assert files == init + [files[|files| - 1]];
    }
  }

  /** The filter keeps order: filtering two lists one after the other is
      filtering their concatenation. */
  lemma {:induction false} UnrecordedAppend(a: seq<Path>, b: seq<Path>, rows: map<Digest, Path>, digest: Path -> Digest)
    ensures Unrecorded(a + b, rows, digest) == Unrecorded(a, rows, digest) + Unrecorded(b, rows, digest)
    decreases |b|
  {
    if b != [] {
      var init := b[..|b| - 1];
      assert (a + b)[..|a + b| - 1] == a + init;
      assert (a + b)[|a + b| - 1] == b[|b| - 1];
      UnrecordedAppend(a, init, rows, digest);
    } else {
      assert a + b == a;
    }
  }

  /** With nothing recorded for any of them, every file survives, in order. */
  lemma {:induction false} UnrecordedWhenNoneKnown(files: seq<Path>, rows: map<Digest, Path>, digest: Path -> Digest)
    requires forall f :: f in files ==> digest(f) !in rows
    ensures Unrecorded(files, rows, digest) == files
  {
    if files != [] {
      var init := files[..|files| - 1];
      UnrecordedWhenNoneKnown(init, rows, digest);
      assert files == init + [files[|files| - 1]];
    }
  }

  /** With every digest recorded, nothing survives. */
  lemma UnrecordedWhenAllKnown(files: seq<Path>, rows: map<Digest, Path>, digest: Path -> Digest)
    requires forall f :: f in files ==> digest(f) in rows
    ensures Unrecorded(files, rows, digest) == []
  {
    var r := Unrecorded(files, rows, digest);
    if r != [] {
      UnrecordedMembers(files, rows, digest, r[0]);
      assert false;
    }
  }

  /** Two different files with the same bytes both survive a filter over a
      ledger that lacks their digest: nothing is recorded while filtering. */
  lemma SameContentBothSurvive(files: seq<Path>, rows: map<Digest, Path>, digest: Path -> Digest, f: Path, g: Path)
    requires f in files && g in files && f != g
    requires digest(f) == digest(g) && digest(f) !in rows
    ensures f in Unrecorded(files, rows, digest) && g in Unrecorded(files, rows, digest)
  {
    UnrecordedMembers(files, rows, digest, f);
    UnrecordedMembers(files, rows, digest, g);
  }

  /** The dedupe loop: keep each file whose digest the ledger does not hold.
      The ledger is only read. */
  method DedupFilter(ledger: Ledger, files: seq<Path>, digest: Path -> Digest) returns (filtered: seq<Path>)
    ensures filtered == Unrecorded(files, ledger.rows, digest)
  {
    filtered := [];
    for i := 0 to |files|
      invariant filtered == Unrecorded(files[..i], ledger.rows, digest)
    {
      assert files[..i + 1][..i] == files[..i];
      var known := ledger.AlreadyUploaded(digest(files[i]));
      if !known {
        filtered := filtered + [files[i]];
      }
    }
    assert files[..|files|] == files;
  }

  // ---------------------------------------------------------------------
  // Recording a published batch

  /** Some file of `files` has digest `d`. */
  predicate HasDigest(files: seq<Path>, digest: Path -> Digest, d: Digest)
  {
    exists f :: f in files && digest(f) == d
  }

  /** The table after `mark_uploaded` for each file of `files`, in order. */
  function RecordAll(rows: map<Digest, Path>, files: seq<Path>, digest: Path -> Digest): (r: map<Digest, Path>)
    ensures forall e :: e in rows ==> e in r && r[e] == rows[e]
  {
    if files == [] then rows
    else
      var last := files[|files| - 1];
      Recorded(RecordAll(rows, files[..|files| - 1], digest), digest(last), last)
  }

  /** After recording a batch, a digest is present exactly when it was before
      or it is the digest of one of the batch's files. */
  lemma {:induction false} RecordAllKeys(rows: map<Digest, Path>, files: seq<Path>, digest: Path -> Digest, d: Digest)
    ensures d in RecordAll(rows, files, digest) <==> d in rows || HasDigest(files, digest, d)
  {
    if files != [] {
      var init := files[..|files| - 1];
      var last := files[|files| - 1];
      RecordAllKeys(rows, init, digest, d);
      assert files == init + [last];
      if d !in rows && d != digest(last) && HasDigest(files, digest, d) {
        var f :| f in files && digest(f) == d;
        assert f in init;
      }
    }
  }

  /** A new digest is recorded with the first file of the batch that has it. */
  lemma {:induction false} RecordAllFirstPath(rows: map<Digest, Path>, files: seq<Path>, digest: Path -> Digest, i: nat)
    requires i < |files| && digest(files[i]) !in rows
    requires forall k :: 0 <= k < i ==> digest(files[k]) != digest(files[i])
    ensures digest(files[i]) in RecordAll(rows, files, digest)
    ensures RecordAll(rows, files, digest)[digest(files[i])] == files[i]
    decreases |files|
  {
    var init := files[..|files| - 1];
    var d := digest(files[i]);
    if i < |init| {
      RecordAllFirstPath(rows, init, digest, i);
      RecordAllKeys(rows, init, digest, d);
    } else {
      RecordAllKeys(rows, init, digest, d);
    }
  }
}
