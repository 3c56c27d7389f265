/** The run coordinator: post each batch in turn, count the posts that
    returned true, and record the files of each such post in the ledger.
    An exception that escapes a post is not caught anywhere in the run, so it
    ends the run at that batch. */
module Run {
  import opened Paths
  import opened PathOrder
  import opened Discovery
  import opened Batching
  import Tags
  import opened LedgerStore
  import opened PostFlow

  /** How the loop ended: every batch was posted and `successTotal` of them
      returned true, or batch `atBatch` (counted from 0) raised `error` after
      `successTotal` earlier batches had returned true. */
  datatype RunReport =
    | Completed(successTotal: nat)
    | Aborted(atBatch: nat, successTotal: nat, error: PostError)

  /** What the post of each batch returns when the site behaves as `env`
      says for that batch. */
  function Outcomes(dryRun: bool, env: nat -> Remote): nat -> Outcome
  {
    (k: nat) => PostOutcome(dryRun, env(k))
  }

  /** Batch `k`'s post returned true. */
  predicate Published(outcomes: nat -> Outcome, k: nat)
  {
    outcomes(k) == Returned(true)
  }

  /** `success_total` after the first `n` batches. */
  function Successes(outcomes: nat -> Outcome, n: nat): (c: nat)
    ensures c <= n
  {
    if n == 0 then 0
    else Successes(outcomes, n - 1) + (if Published(outcomes, n - 1) then 1 else 0)
  }

  /** The numbers below `n` that satisfy `ok`. */
  function Hits(ok: nat -> bool, n: nat): set<nat>
  {
    set k: nat | k < n && ok(k)
  }

  /** Number `n - 1` joins the set exactly when it satisfies `ok`. */
  lemma HitsStep(ok: nat -> bool, n: nat)
    requires n > 0
    ensures |Hits(ok, n)| == |Hits(ok, n - 1)| + (if ok(n - 1) then 1 else 0)
  {
    var before := Hits(ok, n - 1);
    assert n - 1 !in before;
    if ok(n - 1) {
      assert Hits(ok, n) == before + {n - 1};
    } else {
      assert Hits(ok, n) == before;
    }
  }

  /** The batches among the first `n` whose post returned true. */
  function PublishedBatches(outcomes: nat -> Outcome, n: nat): set<nat>
  {
    Hits((k: nat) => Published(outcomes, k), n)
  }

  /** `success_total` is the number of batches whose post returned true. */
  lemma {:induction false} SuccessesCountPublished(outcomes: nat -> Outcome, n: nat)
    ensures Successes(outcomes, n) == |PublishedBatches(outcomes, n)|
  {
    if n > 0 {
      SuccessesCountPublished(outcomes, n - 1);
      HitsStep((k: nat) => Published(outcomes, k), n);
    }
  }

  /** The first of `count` batches whose post raises, or `count` when none
      does. */
  function FirstRaise(outcomes: nat -> Outcome, count: nat): (k: nat)
    ensures k <= count
    ensures forall j :: 0 <= j < k ==> outcomes(j).Returned?
    ensures k < count ==> outcomes(k).Raised?
  {
    if count == 0 then 0
    else
      var k := FirstRaise(outcomes, count - 1);
      if k < count - 1 then k
      else if outcomes(count - 1).Raised? then count - 1
      else count
  }

  /** Once batch `i` is the first to raise, it stays the first however many
      batches follow. */
  lemma FirstRaiseStays(outcomes: nat -> Outcome, i: nat, count: nat)
    requires FirstRaise(outcomes, i) == i < count
    requires outcomes(i).Raised?
    ensures FirstRaise(outcomes, count) == i
  {
  }

  /** The report of the loop over `count` batches. */
  function RunOutcome(outcomes: nat -> Outcome, count: nat): RunReport
  {
    var k := FirstRaise(outcomes, count);
    if k < count then Aborted(k, Successes(outcomes, k), outcomes(k).error)
    else Completed(Successes(outcomes, count))
  }

  /** The ledger after the first `n` batches: each batch that returned true
      has all its files recorded, in order. Rows already present never
      change. */
  function LedgerAfter(rows: map<Digest, Path>, batches: seq<Batch>, outcomes: nat -> Outcome,
                       digest: Path -> Digest, n: nat): (r: map<Digest, Path>)
    requires n <= |batches|
    ensures forall e :: e in rows ==> e in r && r[e] == rows[e]
  {
    if n == 0 then rows
    else
      var before := LedgerAfter(rows, batches, outcomes, digest, n - 1);
      if Published(outcomes, n - 1) then RecordAll(before, batches[n - 1], digest) else before
  }

  /** After the first `n` batches a digest is in the ledger exactly when it
      was there before the run or it belongs to a file of a batch whose post
      returned true: files of failed posts are never recorded. */
  lemma {:induction false} LedgerAfterKeys(rows: map<Digest, Path>, batches: seq<Batch>,
                                           outcomes: nat -> Outcome, digest: Path -> Digest, n: nat, d: Digest)
    requires n <= |batches|
    ensures d in LedgerAfter(rows, batches, outcomes, digest, n) <==>
      d in rows || exists k :: 0 <= k < n && Published(outcomes, k) && HasDigest(batches[k], digest, d)
  {
    if n > 0 {
      LedgerAfterKeys(rows, batches, outcomes, digest, n - 1, d);
      var before := LedgerAfter(rows, batches, outcomes, digest, n - 1);
      if Published(outcomes, n - 1) {
        RecordAllKeys(before, batches[n - 1], digest, d);
      }
    }
  }

  /** The inner loop of a successful post: `mark_uploaded` for every file of
      the batch. */
  method RecordBatch(ledger: Ledger, batch: Batch, digest: Path -> Digest)
    modifies ledger
    ensures ledger.rows == RecordAll(old(ledger.rows), batch, digest)
  {
    for j := 0 to |batch|
      invariant ledger.rows == RecordAll(old(ledger.rows), batch[..j], digest)
    {
      assert batch[..j + 1][..j] == batch[..j];
      ledger.MarkUploaded(digest(batch[j]), batch[j]);
    }
    assert batch[..|batch|] == batch;
  }

  /** One pass of the batch loop: title the batch, post it, and when the post
      returns true record every file of the batch in the ledger, if there is
      one. */
  method PostBatch(ledger: Ledger?, batch: Batch, titleFrom: TitleFrom, now: string, tags: seq<string>,
                   dryRun: bool, remote: Remote, digest: Path -> Digest)
    returns (outcome: Outcome)
    requires |batch| > 0
    modifies ledger
    ensures outcome == PostOutcome(dryRun, remote)
    ensures ledger != null ==>
      ledger.rows == if outcome == Returned(true) then RecordAll(old(ledger.rows), batch, digest) else old(ledger.rows)
  {
    var title := TitleForGroup(batch, titleFrom, now);
    var trace;
    outcome, trace := UploadOnePost(batch, title, tags, dryRun, remote);
    if outcome.Returned? && outcome.published && ledger != null {
      RecordBatch(ledger, batch, digest);
    }
  }

  /** The batch loop. `ledger` is null under `--skip-hashes`; `env(k)` is
      what the site does during batch `k`; `now` is the formatted time used
      by automatic titles. Batches come from `group_batches`, so none is
      empty. */
  method RunBatches(ledger: Ledger?, batches: seq<Batch>, titleFrom: TitleFrom, now: string,
                    tags: seq<string>, dryRun: bool, env: nat -> Remote, digest: Path -> Digest)
    returns (report: RunReport)
    requires forall k :: 0 <= k < |batches| ==> |batches[k]| > 0
    modifies ledger
    ensures report == RunOutcome(Outcomes(dryRun, env), |batches|)
    ensures ledger != null ==>
      ledger.rows == LedgerAfter(old(ledger.rows), batches, Outcomes(dryRun, env), digest,
                                 FirstRaise(Outcomes(dryRun, env), |batches|))
  {
    ghost var outcomes := Outcomes(dryRun, env);
    var successTotal := 0;
    for i := 0 to |batches|
      invariant FirstRaise(outcomes, i) == i
      invariant successTotal == Successes(outcomes, i)
      invariant ledger != null ==> ledger.rows == LedgerAfter(old(ledger.rows), batches, outcomes, digest, i)
    {
      var outcome := PostBatch(ledger, batches[i], titleFrom, now, tags, dryRun, env(i), digest);
      assert outcomes(i) == outcome;
      if outcome.Raised? {
        FirstRaiseStays(outcomes, i, |batches|);
        report := Aborted(i, successTotal, outcome.error);
        return;
      }
      if outcome.published {
        successTotal := successTotal + 1;
      }
    }
    report := Completed(successTotal);
  }

  // ---------------------------------------------------------------------
  // Properties of a run

  /** A dry run in which no post raises reports every batch as posted and
      records every file of every batch. */
  lemma DryRunRecordsEveryFile(rows: map<Digest, Path>, batches: seq<Batch>, env: nat -> Remote, digest: Path -> Digest)
    requires forall k :: 0 <= k < |batches| ==> PostOutcome(true, env(k)).Returned?
    ensures RunOutcome(Outcomes(true, env), |batches|) == Completed(|batches|)
    ensures forall k, f :: 0 <= k < |batches| && f in batches[k] ==>
      digest(f) in LedgerAfter(rows, batches, Outcomes(true, env), digest, |batches|)
  {
    var outcomes := Outcomes(true, env);
    forall k | 0 <= k < |batches|
      ensures Published(outcomes, k)
    {
      DryRunReturnsTrue(env(k));
    }
    AllPublishedCount(outcomes, |batches|);
    forall k, f | 0 <= k < |batches| && f in batches[k]
      ensures digest(f) in LedgerAfter(rows, batches, outcomes, digest, |batches|)
    {
      assert HasDigest(batches[k], digest, digest(f));
      LedgerAfterKeys(rows, batches, outcomes, digest, |batches|, digest(f));
    }
  }

  /** When every post returns true, `success_total` is the number of
      batches. */
  lemma {:induction false} AllPublishedCount(outcomes: nat -> Outcome, n: nat)
    requires forall k :: 0 <= k < n ==> Published(outcomes, k)
    ensures Successes(outcomes, n) == n
    ensures FirstRaise(outcomes, n) == n
  {
    if n > 0 {
      AllPublishedCount(outcomes, n - 1);
      assert Published(outcomes, n - 1);
    }
  }

  /** The run is idempotent: after a run in which every post returned true,
      filtering the same files against the ledger leaves nothing, so a
      second run uploads nothing. */
  lemma NothingPendingAfterFullSuccess(files: seq<Path>, rows: map<Digest, Path>, groupBy: GroupBy, postSize: int,
                                       outcomes: nat -> Outcome, digest: Path -> Digest)
    requires postSize > 0
    requires var batches := GroupBatchesSpec(Unrecorded(files, rows, digest), groupBy, postSize).value;
      forall k :: 0 <= k < |batches| ==> Published(outcomes, k)
    ensures GroupBatchesSpec(Unrecorded(files, rows, digest), groupBy, postSize).Ok?
    ensures var batches := GroupBatchesSpec(Unrecorded(files, rows, digest), groupBy, postSize).value;
      Unrecorded(files, LedgerAfter(rows, batches, outcomes, digest, |batches|), digest) == []
  {
    var pending := Unrecorded(files, rows, digest);
    GroupBatchesShape(pending, groupBy, postSize);
    var batches := GroupBatchesSpec(pending, groupBy, postSize).value;
    var after := LedgerAfter(rows, batches, outcomes, digest, |batches|);
    forall f | f in files
      ensures digest(f) in after
    {
      if digest(f) !in rows {
        UnrecordedMembers(files, rows, digest, f);
        assert f in multiset(Flatten(batches));
        FlattenMembers(batches, f);
        var k :| 0 <= k < |batches| && f in batches[k];
        assert HasDigest(batches[k], digest, digest(f));
        LedgerAfterKeys(rows, batches, outcomes, digest, |batches|, digest(f));
      }
    }
    UnrecordedWhenAllKnown(files, after, digest);
  }

  // ---------------------------------------------------------------------
  // The whole upload command

  /** How the upload command ends: nothing new to upload, no saved session
      (exit status 2), `post_size` zero (`range()` raises), or the batch
      loop ran. */
  datatype Finish =
    | NothingNew
    | NoSession
    | BadPostSize(message: string)
    | Ran(batches: seq<Batch>, report: RunReport)

  /** The files still to upload: the sorted images of the walk, without those
      whose digest the ledger holds (all of them under `--skip-hashes`). */
  function Pending(walk: seq<Entry>, rows: map<Digest, Path>, useLedger: bool, digest: Path -> Digest): seq<Path>
  {
    var found := SortPaths(Eligible(walk));
    if useLedger then Unrecorded(found, rows, digest) else found
  }

  /** The upload path of `main_async`: discover, drop known files, stop when
      none are left or there is no saved session, batch, and run the loop.
      The walk of the folder, the saved session's presence, the clock and
      the site's behaviour are inputs. */
  method UploadFolder(walk: seq<Entry>, ledger: Ledger?, digest: Path -> Digest, haveSession: bool,
                      groupBy: GroupBy, postSize: int, titleFrom: TitleFrom, now: string,
                      rawTags: string, dryRun: bool, env: nat -> Remote)
    returns (finish: Finish)
    modifies ledger
    ensures var pending := Pending(walk, if ledger == null then map[] else old(ledger.rows), ledger != null, digest);
      && (finish == NothingNew <==> pending == [])
      && (finish == NoSession <==> pending != [] && !haveSession)
      && (finish.BadPostSize? <==> pending != [] && haveSession && postSize == 0)
      && (finish.Ran? ==>
            Ok(finish.batches) == GroupBatchesSpec(pending, groupBy, postSize) &&
            finish.report == RunOutcome(Outcomes(dryRun, env), |finish.batches|))
    ensures ledger != null && !finish.Ran? ==> ledger.rows == old(ledger.rows)
    ensures ledger != null && finish.Ran? ==>
      ledger.rows == LedgerAfter(old(ledger.rows), finish.batches, Outcomes(dryRun, env), digest,
                                 FirstRaise(Outcomes(dryRun, env), |finish.batches|))
  {
    ghost var pending := Pending(walk, if ledger == null then map[] else ledger.rows, ledger != null, digest);
    var tags := Tags.ParseTags(rawTags);
    var files := DiscoverImages(walk);
    SortedUnique(files, SortPaths(Eligible(walk)));
    if ledger != null {
      files := DedupFilter(ledger, files, digest);
    }
    assert files == pending;
    if files == [] {
      return NothingNew;
    }
    if !haveSession {
      return NoSession;
    }
    var grouped := GroupBatches(files, groupBy, postSize);
    if grouped.Err? {
      return BadPostSize(grouped.message);
    }
    var batches := grouped.value;
    BatchesAreNonEmpty(files, groupBy, postSize);
    var report := RunBatches(ledger, batches, titleFrom, now, tags, dryRun, env, digest);
    finish := Ran(batches, report);
  }

  /** Batching fails only for a zero `post_size`, and every batch it makes
      holds at least one file. */
  lemma BatchesAreNonEmpty(files: seq<Path>, groupBy: GroupBy, postSize: int)
    requires files != []
    ensures GroupBatchesSpec(files, groupBy, postSize).Err? <==> postSize == 0
    ensures GroupBatchesSpec(files, groupBy, postSize).Ok? ==>
      forall k :: 0 <= k < |GroupBatchesSpec(files, groupBy, postSize).value| ==>
        |GroupBatchesSpec(files, groupBy, postSize).value[k]| > 0
  {
    if postSize > 0 {
      GroupBatchesShape(files, groupBy, postSize);
    }
  }
}
