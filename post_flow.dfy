/** `upload_one_post` and the retried `open_post_editor`, as a sequence of
    steps whose remote outcomes are inputs. Every browser call that can fail
    is one field of `Remote`; the method replays the function's branches over
    those outcomes and reports what it did in a `Trace`. */
module PostFlow {
  import opened Paths
  import Tags

  /** `@retry(stop=stop_after_attempt(3))` on `open_post_editor`. */
  const MaxNavigationAttempts: nat := 3

  /** `SELECTORS["editor_url"]`, the page a new post starts on. */
  const EditorUrl: string := "https://civitai.com/posts/create"

  /** Whether step `k` of a run of attempts succeeds: attempts past the end of
      the recorded outcomes fail. */
  predicate Succeeds(outcomes: seq<bool>, k: nat)
  {
    k < |outcomes| && outcomes[k]
  }

  /** What the site and the browser do during one post, step by step.
      `navigation[k]`: the `k`-th `goto` of the editor succeeds.
      `firstFill`, `secondFill`: the title fills at the start and after upload.
      `tagSteps[k]`: filling tag `k` and pressing Enter succeed.
      `inputs[k]`: `set_input_files` on the `k`-th file input succeeds; the
      length is the number of file inputs on the page.
      `thumbnails`: a thumbnail appears in time; `networkIdle`: the fallback
      wait for network idle returns instead of raising.
      `firstClick`, `secondClick`: the two Publish clicks; `firstUrl`,
      `secondUrl`: the page's URL when each wait for the post URL ends. */
  datatype Remote = Remote(
    navigation: seq<bool>,
    firstFill: bool,
    tagSteps: seq<bool>,
    inputs: seq<bool>,
    thumbnails: bool,
    networkIdle: bool,
    secondFill: bool,
    firstClick: bool,
    firstUrl: string,
    secondClick: bool,
    secondUrl: string)

  /** What one call did: navigation attempts, title fills, the tags typed
      into the tag box and confirmed, file inputs tried, whether the files
      were accepted, Publish clicks, and how often the page was closed. */
  datatype Trace = Trace(
    navAttempts: nat,
    titleFills: nat,
    confirmedTags: seq<string>,
    inputsTried: nat,
    uploaded: bool,
    publishClicks: nat,
    pageCloses: nat)

  /** The exceptions that escape `upload_one_post`: the navigation retries
      run out, or the network-idle fallback after a missing thumbnail times
      out (it is not inside a `try`). */
  datatype PostError = EditorUnreachable | NetworkIdleTimeout

  /** A call either returns its boolean or raises. */
  datatype Outcome = Returned(published: bool) | Raised(error: PostError)

  // ---------------------------------------------------------------------
  // The confirmation URL

  predicate IsDigit(c: char)
  {
    '0' <= c <= '9'
  }

  /** `/posts/` starts at index `i` of `u` and a digit follows it. */
  predicate PostIdAt(u: string, i: int)
  {
    0 <= i && i + 8 <= |u| && u[i..i + 7] == "/posts/" && IsDigit(u[i + 7])
  }

  /** Whether the confirmation pattern (any prefix, `/posts/`, one or more
      digits, an optional `/edit`) is found in the URL. Playwright searches
      rather than anchors, so the optional `/edit` and any digits after the
      first never decide the match: it holds exactly when `/posts/` is
      followed by a digit somewhere in the URL. */
  predicate IsPostUrl(u: string)
  {
    exists i :: 0 <= i < |u| && PostIdAt(u, i)
  }

  /** The editor's own address does not confirm a publish: it holds no digit
      at all, so a page that stays on the editor never counts as published. */
  lemma EditorUrlIsNotPostUrl()
    ensures !IsPostUrl(EditorUrl)
  {
    assert forall k :: 0 <= k < |EditorUrl| ==> !IsDigit(EditorUrl[k]);
  }

  /** A published post's address, and its edit page, confirm. */
  lemma PublishedUrlsConfirm()
    ensures IsPostUrl("https://civitai.com/posts/123456")
    ensures IsPostUrl("https://civitai.com/posts/7/edit")
  {
    assert PostIdAt("https://civitai.com/posts/123456", 19);
    assert PostIdAt("https://civitai.com/posts/7/edit", 19);
  }

  // ---------------------------------------------------------------------
  // Opening the editor

  /** `open_post_editor` under its retry decorator: attempt navigation until
      one attempt succeeds or three have failed. It reports whether the
      editor reached and how many attempts were made; the attempts before the
      last all failed, and the last one decides. */
  method OpenPostEditor(navigation: seq<bool>) returns (reached: bool, attempts: nat)
    ensures 1 <= attempts <= MaxNavigationAttempts
    ensures forall k :: 0 <= k < attempts - 1 ==> !Succeeds(navigation, k)
    ensures reached <==> Succeeds(navigation, attempts - 1)
    ensures !reached ==> attempts == MaxNavigationAttempts
  {
    reached := false;
    attempts := 0;
    while attempts < MaxNavigationAttempts && !reached
      invariant attempts <= MaxNavigationAttempts
      invariant forall k :: 0 <= k < attempts - 1 ==> !Succeeds(navigation, k)
      invariant reached ==> attempts >= 1 && Succeeds(navigation, attempts - 1)
      invariant !reached ==> forall k :: 0 <= k < attempts ==> !Succeeds(navigation, k)
    {
      reached := Succeeds(navigation, attempts);
      attempts := attempts + 1;
    }
  }

  /** Whether any of the three navigation attempts succeeds. */
  predicate EditorOpens(navigation: seq<bool>)
  {
    exists k :: 0 <= k < MaxNavigationAttempts && Succeeds(navigation, k)
  }

  // ---------------------------------------------------------------------
  // The whole post

  /** The result of `upload_one_post` in closed form: the editor must open and
      the upload wait must not raise; a dry run then succeeds; otherwise the
      first Publish click must land, and the post URL must show up after it
      or after the one retried click. */
  function PostOutcome(dryRun: bool, env: Remote): Outcome
  {
    if !EditorOpens(env.navigation) then Raised(EditorUnreachable)
    else if !env.thumbnails && !env.networkIdle then Raised(NetworkIdleTimeout)
    else if dryRun then Returned(true)
    else if !env.firstClick then Returned(false)
    else Returned(IsPostUrl(env.firstUrl) || (env.secondClick && IsPostUrl(env.secondUrl)))
  }

  /** The tag loop typed `confirmed`: the first tags, each stripped, in
      order, each step succeeding; it stopped at the first failing step or
      at the end. */
  predicate TagsTyped(tags: seq<string>, tagSteps: seq<bool>, confirmed: seq<string>)
  {
    |confirmed| <= |tags| &&
    confirmed == Tags.StripEach(tags[..|confirmed|]) &&
    (forall k :: 0 <= k < |confirmed| ==> Succeeds(tagSteps, k)) &&
    (|confirmed| < |tags| ==> !Succeeds(tagSteps, |confirmed|))
  }

  /** The input loop tried the first `tried` file inputs, in index order, and
      stopped at the first that accepted the files or at the last input. */
  predicate InputsTried(inputs: seq<bool>, tried: nat, uploaded: bool)
  {
    tried <= |inputs| &&
    (forall k :: 0 <= k < tried - 1 ==> !inputs[k]) &&
    (uploaded <==> tried > 0 && inputs[tried - 1]) &&
    (!uploaded ==> tried == |inputs|)
  }

  /** The tag loop, inside one `try`: fill the stripped tag and press Enter
      for each tag, until a step raises. */
  method EnterTags(tags: seq<string>, tagSteps: seq<bool>) returns (confirmed: seq<string>)
    ensures TagsTyped(tags, tagSteps, confirmed)
  {
    confirmed := [];
    var n := 0;
    while n < |tags| && Succeeds(tagSteps, n)
      invariant n <= |tags| && |confirmed| == n
      invariant confirmed == Tags.StripEach(tags[..n])
      invariant forall k :: 0 <= k < n ==> Succeeds(tagSteps, k)
    {
      assert tags[..n + 1][..n] == tags[..n];
      confirmed := confirmed + [Tags.Strip(tags[n])];
      n := n + 1;
    }
  }

  /** The upload loop: offer the files to each file input in index order and
      stop at the first that takes them. A page with no file input raises
      inside the `try` and is caught, so it is not an error. */
  method SetInputFiles(inputs: seq<bool>) returns (tried: nat, uploaded: bool)
    ensures InputsTried(inputs, tried, uploaded)
  {
    uploaded := false;
    tried := 0;
    while tried < |inputs| && !uploaded
      invariant tried <= |inputs|
      invariant forall k :: 0 <= k < tried - 1 ==> !inputs[k]
      invariant uploaded <==> tried > 0 && inputs[tried - 1]
    {
      uploaded := inputs[tried];
      tried := tried + 1;
    }
  }

  /** The publish phase of a real run: click Publish and wait for the post
      URL; when it does not show, click once more and wait again. A failed
      first click ends the attempt. */
  method Publish(env: Remote) returns (published: bool, clicks: nat)
    ensures published <==> env.firstClick && (IsPostUrl(env.firstUrl) || (env.secondClick && IsPostUrl(env.secondUrl)))
    ensures 1 <= clicks <= 2
    ensures clicks == 2 <==> env.firstClick && !IsPostUrl(env.firstUrl)
  {
    clicks := 1;
    if !env.firstClick {
      return false, clicks;
    }
    published := IsPostUrl(env.firstUrl);
    if !published {
      clicks := 2;
      if env.secondClick {
        published := IsPostUrl(env.secondUrl);
      }
    }
  }

  /** `upload_one_post`. The images and the title are handed to the page but
      never decide the flow. */
  method UploadOnePost(images: seq<Path>, title: string, tags: seq<string>, dryRun: bool, env: Remote)
    returns (r: Outcome, t: Trace)
    ensures r == PostOutcome(dryRun, env)
    // navigation: at most three attempts, all three when the editor never opens
    ensures 1 <= t.navAttempts <= MaxNavigationAttempts
    ensures r == Raised(EditorUnreachable) ==> t.navAttempts == MaxNavigationAttempts
    ensures r != Raised(EditorUnreachable) ==>
      Succeeds(env.navigation, t.navAttempts - 1) && forall k :: 0 <= k < t.navAttempts - 1 ==> !Succeeds(env.navigation, k)
    // the page is closed once on every return, and never when an exception escapes
    ensures t.pageCloses == (if r.Returned? then 1 else 0)
    // at most two Publish clicks; none in a dry run; no retry after a failed first click
    ensures t.publishClicks <= 2
    ensures dryRun ==> t.publishClicks == 0
    ensures !dryRun && r.Returned? ==> t.publishClicks >= 1
    ensures !env.firstClick ==> t.publishClicks <= 1
    ensures t.publishClicks == 2 ==> env.firstClick && !IsPostUrl(env.firstUrl)
    ensures !dryRun && r.Returned? ==> (t.publishClicks == 2 <==> env.firstClick && !IsPostUrl(env.firstUrl))
    // an escaping exception leaves before the Publish phase, so no post exists
    ensures r.Raised? ==> t.publishClicks == 0
    // the editor never opened: the form was not touched; the network-idle
    // fallback failed: only the first title fill happened
    ensures r == Raised(EditorUnreachable) ==> t.titleFills == 0 && t.confirmedTags == [] && t.inputsTried == 0 && !t.uploaded
    ensures r == Raised(NetworkIdleTimeout) ==> t.titleFills == 1
    // the title is filled at most twice, the second time only after a failed first fill
    ensures t.titleFills <= 2
    ensures r != Raised(EditorUnreachable) ==> t.titleFills >= 1
    ensures t.titleFills == 2 ==> !env.firstFill
    ensures r.Returned? && !env.firstFill ==> t.titleFills == 2
    // once the editor is open, tags are typed and file inputs tried as the loops promise
    ensures r != Raised(EditorUnreachable) ==> TagsTyped(tags, env.tagSteps, t.confirmedTags)
    ensures r != Raised(EditorUnreachable) ==> InputsTried(env.inputs, t.inputsTried, t.uploaded)
  {
    t := Trace(0, 0, [], 0, false, 0, 0);
    var reached, navAttempts := OpenPostEditor(env.navigation);
    t := t.(navAttempts := navAttempts);
    if !reached {
      r := Raised(EditorUnreachable);
      return;
    }
    assert EditorOpens(env.navigation) by {
      assert 0 <= navAttempts - 1 < MaxNavigationAttempts && Succeeds(env.navigation, navAttempts - 1);
    }

    var titleOk := env.firstFill;
    t := t.(titleFills := 1);

    var confirmed := EnterTags(tags, env.tagSteps);
    t := t.(confirmedTags := confirmed);

    var tried, uploaded := SetInputFiles(env.inputs);
    t := t.(inputsTried := tried, uploaded := uploaded);

    // thumbnails, or else the network-idle wait, which is outside any `try`
    if !env.thumbnails && !env.networkIdle {
      r := Raised(NetworkIdleTimeout);
      return;
    }

    if !titleOk {
      titleOk := env.secondFill;
      t := t.(titleFills := 2);
    }

    if dryRun {
      t := t.(pageCloses := 1);
      r := Returned(true);
      return;
    }

    var published, clicks := Publish(env);
    t := t.(publishClicks := clicks, pageCloses := 1);
    r := Returned(published);
  }

  // ---------------------------------------------------------------------
  // Properties of the outcome

  /** Neither the title fills, the tags nor the file upload decide the
      outcome: two sites that differ only in those give the same result. */
  lemma OutcomeIgnoresFormSteps(dryRun: bool, a: Remote, b: Remote)
    requires a.navigation == b.navigation && a.thumbnails == b.thumbnails && a.networkIdle == b.networkIdle
    requires a.firstClick == b.firstClick && a.firstUrl == b.firstUrl
    requires a.secondClick == b.secondClick && a.secondUrl == b.secondUrl
    ensures PostOutcome(dryRun, a) == PostOutcome(dryRun, b)
  {
  }

  /** A post is reported published only after a Publish click and a post URL
      seen after a click that landed. */
  lemma PublishedMeansConfirmed(env: Remote)
    requires PostOutcome(false, env) == Returned(true)
    ensures env.firstClick
    ensures IsPostUrl(env.firstUrl) || (env.secondClick && IsPostUrl(env.secondUrl))
  {
  }

  /** When the page stays on the editor after both clicks, the post is not
      reported published. */
  lemma StuckOnEditorIsNotPublished(env: Remote)
    requires env.firstUrl == EditorUrl && env.secondUrl == EditorUrl
    ensures PostOutcome(false, env) != Returned(true)
  {
    EditorUrlIsNotPostUrl();
  }

  /** A dry run that reaches the end returns true. */
  lemma DryRunReturnsTrue(env: Remote)
    requires PostOutcome(true, env).Returned?
    ensures PostOutcome(true, env) == Returned(true)
  {
  }

  /** Tags that came out of the `--tags` parse are typed in unchanged: the
      second strip is a no-op on them. */
  lemma ParsedTagsTypedUnchanged(raw: string, n: nat)
    requires n <= |Tags.ParseTags(raw)|
    ensures Tags.StripEach(Tags.ParseTags(raw)[..n]) == Tags.ParseTags(raw)[..n]
  {
    var tags := Tags.ParseTags(raw)[..n];
    forall k | 0 <= k < n
      ensures Tags.StripEach(tags)[k] == tags[k]
    {
      Tags.StripEachPointwise(tags, k);
      Tags.CleanTagStripsToItself(tags[k]);
    }
  }
}
