# Civitai bulk uploader: a verified model of the upload core

`civitai_bulk_uploader.py` publishes folders of images to Civitai as posts.
It works in six steps:

1. It walks the upload root and keeps the files whose lower-cased suffix is
   `.png`, `.jpg`, `.jpeg` or `.webp`, sorted by path (`discover_images`).
2. Unless `--skip-hashes` is given, it drops every file whose SHA-256
   digest is already in a local SQLite ledger (`already_uploaded`).
3. It cuts what is left into posts of at most `post_size` images, per
   directory or as one flat list (`group_batches`), and names each post
   (`title_for_group`).
4. It drives the post editor in a browser for each batch:
   - navigation, attempted up to three times
   - the title, the tags and the file upload
   - a wait for thumbnails, with a network-idle fallback
   - the Publish click and a URL check, with one extra click
   (`open_post_editor`, `upload_one_post`).
5. Unless `--skip-hashes` is given, it records the digests of every batch
   whose post returned true (`mark_uploaded`).
6. It prints how many posts succeeded.

The Dafny modules follow the program's parts:

| file | module | models |
|---|---|---|
| `paths.dfy` | `Paths` | paths as component sequences; `name`, `parent`, `suffix`, `stem`, ASCII `lower`; the image test |
| `path_order.dfy` | `PathOrder` | the order `list.sort()` puts paths in, and a sort proved to produce it |
| `discovery.dfy` | `Discovery` | `discover_images` over a given walk of the root |
| `batching.dfy` | `Batching` | `group_batches` (the folder dict, `range()` with its zero-step error) and `title_for_group` |
| `tags.dfy` | `Tags` | the `--tags` parse: `str.split(",")`, `str.strip()` over Python's whitespace, the filter |
| `ledger.dfy` | `LedgerStore` | the `uploads` table as a map from digest to path, the `Ledger` connection class, the dedupe loop |
| `post_flow.dfy` | `PostFlow` | `open_post_editor` with its retry, `upload_one_post` step by step, the confirmation URL test |
| `run.dfy` | `Run` | the batch loop of `main_async`, the ledger writes, and the whole upload command |

Everything outside the program becomes an input. That covers:

- the folder walk;
- the digest function (`sha256_file`, passed as a function from path to
  digest);
- whether a saved session exists;
- the formatted clock;
- what the site does at each step of each post. This is a `Remote` value per
  post: navigation results per attempt, fill, tag, upload and click results,
  and the URLs seen.

`upload_one_post` is proved against a closed-form outcome `PostOutcome`. The
batch loop is proved against `RunOutcome` and `LedgerAfter`, which are
defined over the per-batch outcomes.

In these places the code does something a reader may not expect, and the
model follows the code:

- An exception that escapes `upload_one_post` is not caught by `main_async`.
  That means navigation failing three times, or the network-idle wait at line
  327 timing out. The exception ends the whole run at that batch (`Aborted`),
  rather than failing one batch and going on.
- On such an exception the page is not closed (`pageCloses == 0`). Only the
  `return` paths close it.
- A page without a file input is not a failure: the `RuntimeError` is caught
  at line 317, and the post goes on to publish.
- A failing tag ends the tag loop, because the `try` is around the whole loop.
  Later tags are not typed, but the post goes on.
- The Publish step has no back-off. There is one extra click, and only when
  the first click landed and the URL did not confirm.
- `--concurrency` is parsed but never used: batches run one after another.

## Model

| member | source | states |
|---|---|---|
| Paths.Suffix | civitai_bulk_uploader.py:160 | `suffix` is non-empty exactly when the name has a dot strictly inside it and does not end in a dot; it is then the end of the name from its last dot on (a dot followed by dot-free text), shorter than the name. |
| Paths.Stem | civitai_bulk_uploader.py:181 | `stem` followed by `suffix` gives back the file name. |
| Paths.Lower | civitai_bulk_uploader.py:160 | Lower-casing keeps the length and lower-cases each character. |
| Paths.UpperCaseExtensionsAccepted | civitai_bulk_uploader.py:160 | `x.PNG` and `b.Jpeg` are images: the extension is compared lower-cased. |
| Paths.DotFilesAndTrailingDotsRejected | civitai_bulk_uploader.py:160 | A file named `.png` and a file `x.png.` are not images. |
| PathOrder.PathLeTotal | civitai_bulk_uploader.py:162 | Any two paths are comparable under the sort's order. |
| PathOrder.PathLeAntisymmetric | civitai_bulk_uploader.py:162 | Two paths that are each at most the other are equal. |
| PathOrder.PathLeTransitive | civitai_bulk_uploader.py:162 | The path order is transitive. |
| PathOrder.Insert | civitai_bulk_uploader.py:162 | Inserting into a sorted list keeps it sorted and adds exactly that one path. |
| PathOrder.SortPaths | civitai_bulk_uploader.py:162 | `files.sort()` gives a sorted permutation of its input. |
| PathOrder.SortedUnique | civitai_bulk_uploader.py:162 | Two sorted arrangements of the same paths are equal, so the sort's result is determined by its input. |
| Discovery.EligibleMembers | civitai_bulk_uploader.py:159-161 | A path is kept exactly when the walk reports it as a regular file and its lower-cased suffix is an allowed extension. |
| Discovery.DiscoverImages | civitai_bulk_uploader.py:157-163 | The result is sorted, is a permutation of the kept files, and holds a path exactly when it is an image file of the walk. |
| Batching.FlattenMembers | civitai_bulk_uploader.py:165-175 | A file is in the concatenated posts exactly when it is in one of them. |
| Batching.ChunksShape | civitai_bulk_uploader.py:175 | The flat cut concatenates back to the list. Every run has 1 to `post_size` files, all but the last are full, and there are ceil(len / post_size) runs. |
| Batching.ChunksMembers | civitai_bulk_uploader.py:175 | A file is in some run exactly when it is in the list. |
| Batching.MembersIn | civitai_bulk_uploader.py:168-169 | A directory's list in `by_dir` holds exactly the files whose parent it is. |
| Batching.ParentsDistinct | civitai_bulk_uploader.py:168-170 | The dict's keys are distinct. |
| Batching.ParentsIn | civitai_bulk_uploader.py:168-170 | A directory is a key exactly when some file lies directly in it. |
| Batching.ParentsInFirstAppearanceOrder | civitai_bulk_uploader.py:168-171 | Directories are visited in the order their first file appears. |
| Batching.GroupedIsPermutation | civitai_bulk_uploader.py:166-174 | Regrouping the files directory by directory loses and repeats nothing. |
| Batching.FolderBatchesShape | civitai_bulk_uploader.py:166-174 | The folder policy's posts are a permutation of the input. Each post has 1 to `post_size` files of the input, all in one directory. |
| Batching.SingleFolderIsFlat | civitai_bulk_uploader.py:165-175 | With one directory, the folder policy cuts exactly as the flat policy does. |
| Batching.FortyFiveInOneFolder | civitai_bulk_uploader.py:166-174 | 45 images of one folder with `post_size` 20 make posts of 20, 20 and 5, in order. |
| Batching.IndexByParent | civitai_bulk_uploader.py:167-169 | The `setdefault` loop builds a dict whose keys, in insertion order, are the parents in first-appearance order. Each key maps to that directory's files in input order. |
| Batching.AppendRuns | civitai_bulk_uploader.py:171-172 | The inner loop appends exactly the runs of one directory's list. |
| Batching.CutRuns | civitai_bulk_uploader.py:170-173 | The per-directory loop raises for a zero `post_size` once there is a directory, appends nothing for a negative one, and otherwise appends every directory's runs in dict order. |
| Batching.GroupBatches | civitai_bulk_uploader.py:165-175 | `group_batches` returns what `GroupBatchesSpec` gives. That covers the `range()` zero-step error (folder: only when there are files; flat: always) and no batches for a negative size. |
| Batching.GroupBatchesShape | civitai_bulk_uploader.py:165-175 | For a positive size, batching succeeds and is a permutation of the input. Every batch holds 1 to `post_size` input files; none exist for no input. Flat batches are the input in order, all full but the last. Folder batches lie in one directory. |
| Batching.TitleForGroup | civitai_bulk_uploader.py:177-182 | A file-stem title plus the first file's suffix is the first file's name. The automatic title is the fixed label with the formatted time. |
| Batching.FolderTitleNamesEveryFile | civitai_bulk_uploader.py:177-179 | Under the folder policy, a folder title names the directory of every file in the post. |
| Tags.Split | civitai_bulk_uploader.py:392 | `split(",")` gives at least one piece and no piece holds a comma. |
| Tags.JoinSplit | civitai_bulk_uploader.py:392 | Joining the pieces with the separator gives back the string. |
| Tags.SplitJoin | civitai_bulk_uploader.py:392 | Splitting a join of separator-free pieces gives back the pieces. |
| Tags.Lead | civitai_bulk_uploader.py:392 | Counts exactly the leading whitespace. |
| Tags.Trail | civitai_bulk_uploader.py:392 | Counts exactly the trailing whitespace. |
| Tags.Strip | civitai_bulk_uploader.py:392 | `strip()` gives the slice between the leading and trailing whitespace. That slice is empty or starts and ends with non-whitespace. |
| Tags.StripEmptyWhenBlank | civitai_bulk_uploader.py:392 | A piece strips to nothing exactly when it is all whitespace, which is when `if t.strip()` drops it. |
| Tags.StripIdempotent | civitai_bulk_uploader.py:290 | Stripping a stripped tag again changes nothing. |
| Tags.StripKeepsOut | civitai_bulk_uploader.py:392 | Stripping adds no character. |
| Tags.ParseTags | civitai_bulk_uploader.py:392 | Every parsed tag is non-empty, unpadded and comma-free, and there are at most as many tags as pieces. |
| Tags.CleanTagStripsToItself | civitai_bulk_uploader.py:290 | A parsed tag strips to itself. |
| Tags.ParseJoinedTags | civitai_bulk_uploader.py:392 | Clean tags written comma-separated parse back to the same tags in the same order. |
| Tags.CleanMembers | civitai_bulk_uploader.py:392 | A tag comes out of the filter exactly when it is the non-empty strip of one of the pieces. |
| Tags.CleanAppend | civitai_bulk_uploader.py:392 | The filter keeps order: it distributes over concatenation of the pieces. |
| Tags.SplitConcat | civitai_bulk_uploader.py:392 | `split(",")` of two strings joined by a comma is the split of the first followed by the split of the second. |
| Tags.ParseTagsMembers | civitai_bulk_uploader.py:392 | A tag is parsed exactly when it is the non-empty `strip()` of one of the comma-separated pieces. |
| Tags.ParseTagsConcat | civitai_bulk_uploader.py:392 | The tags of `a + "," + b` are the tags of `a` followed by the tags of `b`, so each non-blank piece yields its stripped text in input order. |
| Tags.ParseTagsExample | civitai_bulk_uploader.py:392 | `" a, ,b,,"` parses to `a`, `b`. |
| LedgerStore.Recorded | civitai_bulk_uploader.py:152-155 | `INSERT OR IGNORE` on the unique digest column: the digest is present afterwards, an existing row keeps its path, and no other row changes. |
| LedgerStore.RecordingTwiceKeepsFirstPath | civitai_bulk_uploader.py:152-155 | Recording a digest again, with any path, changes nothing. |
| LedgerStore.Ledger.constructor | civitai_bulk_uploader.py:131-145 | `init_db` opens the ledger with the rows earlier runs left. |
| LedgerStore.Ledger.AlreadyUploaded | civitai_bulk_uploader.py:147-150 | True exactly when a row with that digest exists. |
| LedgerStore.Ledger.MarkUploaded | civitai_bulk_uploader.py:152-155 | The new table is `Recorded(old table, digest, path)`. |
| LedgerStore.UnrecordedMembers | civitai_bulk_uploader.py:426-431 | A file survives the dedupe exactly when it is an input file whose digest is not recorded. |
| LedgerStore.UnrecordedAppend | civitai_bulk_uploader.py:426-431 | The dedupe keeps order: filtering a concatenation is concatenating the filtered parts. |
| LedgerStore.UnrecordedWhenNoneKnown | civitai_bulk_uploader.py:426-431 | With no digest recorded, every file survives, in order. |
| LedgerStore.UnrecordedWhenAllKnown | civitai_bulk_uploader.py:426-431 | With every digest recorded, nothing survives. |
| LedgerStore.SameContentBothSurvive | civitai_bulk_uploader.py:426-431 | Two files with the same new content both survive, because the filter writes nothing. |
| LedgerStore.DedupFilter | civitai_bulk_uploader.py:424-431 | The dedupe loop returns `Unrecorded(files, ledger rows, digest)` and only reads the ledger. |
| LedgerStore.RecordAll | civitai_bulk_uploader.py:458-459 | Marking a batch keeps every existing row. |
| LedgerStore.RecordAllKeys | civitai_bulk_uploader.py:458-459 | After marking a batch, a digest is present exactly when it was before or belongs to a file of the batch. |
| LedgerStore.RecordAllFirstPath | civitai_bulk_uploader.py:458-459 | A new digest is recorded with the first file of the batch that has it. |
| PostFlow.EditorUrlIsNotPostUrl | civitai_bulk_uploader.py:354 | The editor's own URL does not match the confirmation pattern. |
| PostFlow.PublishedUrlsConfirm | civitai_bulk_uploader.py:354-358 | A post URL and its `/edit` page both match the confirmation pattern. |
| PostFlow.OpenPostEditor | civitai_bulk_uploader.py:259-264 | Navigation makes one to three attempts, each only after the earlier ones failed. It opens the editor exactly when the last attempt succeeded, and gives up only after three. |
| PostFlow.EnterTags | civitai_bulk_uploader.py:285-295 | The tag loop types the first tags, each stripped, in order, and stops at the first failing step or at the end. |
| PostFlow.SetInputFiles | civitai_bulk_uploader.py:301-318 | File inputs are tried in index order until one accepts the files. Each earlier input failed, and no input at all is not an error. |
| PostFlow.Publish | civitai_bulk_uploader.py:347-382 | Published exactly when the first click landed and the post URL showed after it, or after a landed second click. The second click happens exactly when the first landed but did not confirm. |
| PostFlow.UploadOnePost | civitai_bulk_uploader.py:266-386 | The outcome is `PostOutcome`: it raises when navigation fails three times or the fallback wait fails; a dry run returns true; otherwise it returns the Publish verdict. Once the editor opens, the attempt count is that of the first navigation that succeeded. A raise means no Publish click; when the editor never opens nothing on the form is touched, and when the network-idle fallback fails the title was filled exactly once. In a real run that returns, there is a second click exactly when the first landed and its URL did not confirm. It bounds the title fills (at least one once the editor opens) and closes the page on every return and never after an exception. Once the editor opens, tags and inputs go as the loops promise. |
| PostFlow.OutcomeIgnoresFormSteps | civitai_bulk_uploader.py:281-335 | Title, tag and upload results never change the outcome. |
| PostFlow.PublishedMeansConfirmed | civitai_bulk_uploader.py:347-386 | A real run returns true only after a landed click and a matching URL. |
| PostFlow.StuckOnEditorIsNotPublished | civitai_bulk_uploader.py:354-382 | A page that stays on the editor is never reported published. |
| PostFlow.DryRunReturnsTrue | civitai_bulk_uploader.py:342-345 | A dry run that does not raise returns true. |
| PostFlow.ParsedTagsTypedUnchanged | civitai_bulk_uploader.py:289-290 | Tags from the `--tags` parse are typed unchanged by the second `strip()`. |
| Run.Successes | civitai_bulk_uploader.py:450-457 | `success_total` after `n` batches is at most `n`. |
| Run.SuccessesCountPublished | civitai_bulk_uploader.py:450-457 | `success_total` equals the number of batches whose post returned true. |
| Run.FirstRaise | civitai_bulk_uploader.py:451-455 | The first batch whose post raises: every earlier one returned. |
| Run.FirstRaiseStays | civitai_bulk_uploader.py:451-455 | The first raising batch stays first however many batches follow. |
| Run.LedgerAfter | civitai_bulk_uploader.py:456-459 | The run never changes a row that was there before it. |
| Run.LedgerAfterKeys | civitai_bulk_uploader.py:450-459 | After the loop, a digest is in the ledger exactly when it was there before or belongs to a batch whose post returned true. Files of failed posts are never recorded. |
| Run.RecordBatch | civitai_bulk_uploader.py:458-459 | The `mark_uploaded` loop leaves the table as `RecordAll` of the batch. |
| Run.PostBatch | civitai_bulk_uploader.py:452-459 | One batch: its outcome is `PostOutcome`. The ledger records the batch exactly when the post returned true. |
| Run.RunBatches | civitai_bulk_uploader.py:449-461 | The report is `RunOutcome`: completed with the success count, or aborted at the first raising batch. The ledger is `LedgerAfter` up to that batch. |
| Run.DryRunRecordsEveryFile | civitai_bulk_uploader.py:342-345 | A dry run with no exception reports every batch as posted and records every file's digest. |
| Run.AllPublishedCount | civitai_bulk_uploader.py:450-457 | When every post returns true, nothing raises and `success_total` is the number of batches. |
| Run.NothingPendingAfterFullSuccess | civitai_bulk_uploader.py:423-459 | After a run in which every post returned true, the same files filtered against the new ledger leave nothing, so a second run posts nothing. |
| Run.BatchesAreNonEmpty | civitai_bulk_uploader.py:165-175 | For a non-empty file list, batching fails only for a zero `post_size`, and every batch holds a file. |
| Run.UploadFolder | civitai_bulk_uploader.py:419-461 | The upload command stops when no file is new or no session exists, and fails batching for a zero `post_size`. Otherwise it runs the loop over `group_batches` of the pending files. The ledger changes only in the loop. |

## Left out

- Browser automation is not modelled: Playwright, page selectors, keyboard
  events, screenshots, tracing and `do_login`. Each remote step is one boolean
  or URL in `Remote`.
- `wait_for_timeout`, `new_page`, `inputs.count()` and `page.close()` are
  taken never to fail. The fills inside `fill()` and `click()` are their
  boolean results.
- Timing is not modelled: the pauses, the random jitter, the publish and
  thumbnail timeouts, and the retry's exponential back-off. Each wait is its
  outcome.
- `sha256_file` is a function parameter. File reads, their errors, and files
  that change during a run are not modelled.
- The SQLite schema beyond the digest and path columns is not modelled: the
  `id` and `posted_at` columns, commits, and a corrupt database file.
- `rglob` is an input list of entries. Symlinks and unreadable directories
  are not modelled.
- The command-line interface is not modelled: `parse_args`, the `--pause`
  parse, the `--dir` checks that exit with status 2, and `--login`. The
  concurrency flag is unused in the code.
- Output is not modelled: logging, `DebugLogger`, and the final printed
  count. The count is `successTotal` in the report.
- Paths.Lower: lower-cases ASCII letters only. That is exact for the
  allowed-extension test, because no other character lower-cases to one of
  `.`, `p`, `n`, `g`, `j`, `e`, `w`, `b`.
- Paths.Suffix: follows the `pathlib` rule of Python 3.13 and earlier, under
  which a name that ends in a dot has no suffix.
- PostFlow.Publish: both URL waits (lines 358 and 372) search the URL for the
  pattern rather than anchoring it. The pattern is reduced to "`/posts/`
  followed by a digit somewhere in the URL", which is what an unanchored
  search decides. `IsDigit` accepts only `0`-`9`, while `\d` in a Python
  string pattern matches any Unicode decimal digit; the two agree because
  browsers report URLs in ASCII, with other characters percent-encoded.
- PathOrder.PathLe: the order and equality of POSIX `pathlib` paths, case
  sensitive and code point by code point. Windows paths compare and hash
  case-folded components, so there `a.png` sorts before `B.png`; that
  comparison is not modelled.
- Run.RunBatches: one formatted time `now` titles every batch, while the
  source calls `time.strftime` once per batch (line 182). Titles never steer
  the flow, so only automatic titles of a run that crosses a minute differ.
- PostFlow.UploadOnePost: the images and title are passed to the page but do
  not affect the flow, so the trace does not record them.
