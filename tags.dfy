/** The `--tags` option: `[t.strip() for t in args.tags.split(",") if t.strip()]`,
    with Python's `str.split` on one separator and `str.strip` with no
    argument written out. */
module Tags {

  /** The characters Python's `str.isspace` accepts, which `str.strip()`
      removes from both ends. */
  predicate IsSpace(c: char)
  {
    ('\t' <= c <= '\r') || ('\U{1c}' <= c <= ' ') || c == '\U{85}' || c == '\U{a0}' ||
    c == '\U{1680}' || ('\U{2000}' <= c <= '\U{200a}') || c == '\U{2028}' || c == '\U{2029}' ||
    c == '\U{202f}' || c == '\U{205f}' || c == '\U{3000}'
  }

  // ---------------------------------------------------------------------
  // `str.split(sep)` and its inverse `sep.join(parts)`

  /** `s.split(sep)`: the pieces between separators, including empty ones;
      there is always at least one piece. */
  function Split(s: string, sep: char): (parts: seq<string>)
    ensures |parts| >= 1
    ensures forall k :: 0 <= k < |parts| ==> sep !in parts[k]
    decreases |s|
  {
    if s == [] then [""]
    else if s[0] == sep then [""] + Split(s[1..], sep)
    else
      var rest := Split(s[1..], sep);
      [[s[0]] + rest[0]] + rest[1..]
  }

  /** `sep.join(parts)`. */
  function Join(parts: seq<string>, sep: char): string
  {
    if parts == [] then ""
    else if |parts| == 1 then parts[0]
    else parts[0] + [sep] + Join(parts[1..], sep)
  }

  /** Joining the pieces again gives back the string that was split. */
  lemma {:induction false} JoinSplit(s: string, sep: char)
    ensures Join(Split(s, sep), sep) == s
    decreases |s|
  {
    if s != [] {
      var rest := Split(s[1..], sep);
      JoinSplit(s[1..], sep);
      if s[0] == sep {
        assert ([""] + rest)[1..] == rest;
      } else {
        var parts := [[s[0]] + rest[0]] + rest[1..];
        if |rest| > 1 {
          assert parts[1..] == rest[1..];
          assert Join(rest, sep) == rest[0] + [sep] + Join(rest[1..], sep);
        }
        assert s == [s[0]] + s[1..];
      }
    }
  }

  /** A string without the separator is a single piece. */
  lemma {:induction false} SplitWithoutSeparator(p: string, sep: char)
    requires sep !in p
    ensures Split(p, sep) == [p]
    decreases |p|
  {
    if p != [] {
      SplitWithoutSeparator(p[1..], sep);
      assert p == [p[0]] + p[1..];
    }
  }

  /** A first piece without the separator, then the separator, splits off as
      one piece. */
  lemma {:induction false} SplitAfterPiece(p: string, sep: char, t: string)
    requires sep !in p
    ensures Split(p + [sep] + t, sep) == [p] + Split(t, sep)
    decreases |p|
  {
    if p == [] {
      assert p + [sep] + t == [sep] + t;
      assert ([sep] + t)[1..] == t;
    } else {
      var s := p + [sep] + t;
      assert s[0] == p[0] && s[1..] == p[1..] + [sep] + t;
      SplitAfterPiece(p[1..], sep, t);
      assert p == [p[0]] + p[1..];
    }
  }

  /** Splitting a join gives back the pieces, provided none of them holds the
      separator and there is at least one. */
  lemma {:induction false} SplitJoin(parts: seq<string>, sep: char)
    requires |parts| >= 1
    requires forall k :: 0 <= k < |parts| ==> sep !in parts[k]
    ensures Split(Join(parts, sep), sep) == parts
    decreases |parts|
  {
    if |parts| == 1 {
      SplitWithoutSeparator(parts[0], sep);
    } else {
      SplitJoin(parts[1..], sep);
      SplitAfterPiece(parts[0], sep, Join(parts[1..], sep));
      assert parts == [parts[0]] + parts[1..];
    }
  }

  // ---------------------------------------------------------------------
  // `str.strip()`

  /** The number of whitespace characters `s` starts with. */
  function Lead(s: string): (i: nat)
    ensures i <= |s|
    ensures forall k :: 0 <= k < i ==> IsSpace(s[k])
    ensures i < |s| ==> !IsSpace(s[i])
  {
    if s == [] || !IsSpace(s[0]) then 0 else 1 + Lead(s[1..])
  }

  /** The number of whitespace characters `s` ends with. */
  function Trail(s: string): (j: nat)
    ensures j <= |s|
    ensures forall k :: |s| - j <= k < |s| ==> IsSpace(s[k])
    ensures j < |s| ==> !IsSpace(s[|s| - 1 - j])
  {
    if s == [] || !IsSpace(s[|s| - 1]) then 0 else 1 + Trail(s[..|s| - 1])
  }

  /** `s.strip()`: `s` without the whitespace at either end. The result is a
      slice of `s` whose two ends are not whitespace, and everything cut off
      is whitespace. */
  function Strip(s: string): (r: string)
    ensures r == [] || (!IsSpace(r[0]) && !IsSpace(r[|r| - 1]))
    ensures r != [] ==> Lead(s) < |s| - Trail(s) && r == s[Lead(s)..|s| - Trail(s)]
  {
    var i := Lead(s);
    if i == |s| then []
    else
      assert |s| - Trail(s) > i;
      s[i..|s| - Trail(s)]
  }

  /** Stripping leaves nothing exactly when the string is all whitespace. */
  lemma StripEmptyWhenBlank(s: string)
    ensures Strip(s) == [] <==> forall k :: 0 <= k < |s| ==> IsSpace(s[k])
  {
    if Lead(s) < |s| {
      assert !IsSpace(s[Lead(s)]);
    }
  }

  /** Stripping twice strips no more than stripping once, so the second
      `tag.strip()` before each tag is filled in changes nothing. */
  lemma StripIdempotent(s: string)
    ensures Strip(Strip(s)) == Strip(s)
  {
    var r := Strip(s);
    if r != [] {
      assert Lead(r) == 0 && Trail(r) == 0;
      assert r[0..|r|] == r;
    }
  }

  /** A stripped piece holds no character the piece did not hold. */
  lemma StripKeepsOut(s: string, c: char)
    requires c !in s
    ensures c !in Strip(s)
  {
  }

  /** Each string of `ss` stripped, in order. */
  function StripEach(ss: seq<string>): (r: seq<string>)
    ensures |r| == |ss|
  {
    if ss == [] then [] else StripEach(ss[..|ss| - 1]) + [Strip(ss[|ss| - 1])]
  }

  lemma {:induction false} StripEachPointwise(ss: seq<string>, k: int)
    requires 0 <= k < |ss|
    ensures StripEach(ss)[k] == Strip(ss[k])
  {
    if k < |ss| - 1 {
      StripEachPointwise(ss[..|ss| - 1], k);
    }
  }

  // ---------------------------------------------------------------------
  // The tag list

  /** What one piece contributes to the tag list: its strip, unless that is
      empty. */
  function Kept(piece: string): (tags: seq<string>)
    ensures |tags| <= 1
  {
    if Strip(piece) == [] then [] else [Strip(piece)]
  }

  /** The stripped pieces that are not empty, in order. */
  function Clean(pieces: seq<string>): (tags: seq<string>)
    ensures |tags| <= |pieces|
  {
    if pieces == [] then [] else Kept(pieces[0]) + Clean(pieces[1..])
  }

  /** A tag as the uploader sends it: not empty, not padded with whitespace,
      and without a comma. */
  predicate IsCleanTag(t: string)
  {
    t != [] && !IsSpace(t[0]) && !IsSpace(t[|t| - 1]) && ',' !in t
  }

  /** The tags of `--tags`: every one is clean, and there are at most as many
      as comma-separated pieces. */
  function ParseTags(raw: string): (tags: seq<string>)
    ensures |tags| <= |Split(raw, ',')|
    ensures forall k :: 0 <= k < |tags| ==> IsCleanTag(tags[k])
  {
    CleanTagsAreClean(Split(raw, ','));
    Clean(Split(raw, ','))
  }

  lemma {:induction false} CleanTagsAreClean(pieces: seq<string>)
    requires forall k :: 0 <= k < |pieces| ==> ',' !in pieces[k]
    ensures forall k :: 0 <= k < |Clean(pieces)| ==> IsCleanTag(Clean(pieces)[k])
  {
    if pieces != [] {
      CleanTagsAreClean(pieces[1..]);
      StripKeepsOut(pieces[0], ',');
    }
  }

  /** A tag comes out of the filter exactly when it is the non-empty strip of
      one of the pieces. */
  lemma {:induction false} CleanMembers(pieces: seq<string>, t: string)
    ensures t in Clean(pieces) <==> t != [] && exists k :: 0 <= k < |pieces| && t == Strip(pieces[k])
  {
    if pieces != [] {
      var rest := pieces[1..];
      CleanMembers(rest, t);
      if t != [] && exists k :: 0 <= k < |pieces| && t == Strip(pieces[k]) {
        var k :| 0 <= k < |pieces| && t == Strip(pieces[k]);
        if k > 0 {
          assert t == Strip(rest[k - 1]);
        }
      }
      if t in Clean(rest) {
        var k :| 0 <= k < |rest| && t == Strip(rest[k]);
        assert t == Strip(pieces[k + 1]);
      }
    }
  }

  /** The filter keeps order: filtering two lists of pieces one after the
      other is filtering their concatenation. */
  lemma CleanAppend(a: seq<string>, b: seq<string>)
    ensures Clean(a + b) == Clean(a) + Clean(b)
  {
    CleanIsFlatMap(a + b);
    CleanIsFlatMap(a);
    CleanIsFlatMap(b);
    FlatMapAppend(Kept, a, b);
  }

  /** Each element mapped to a list, the lists joined in order. */
  function FlatMap<T, U>(f: T -> seq<U>, s: seq<T>): seq<U>
  {
    if s == [] then [] else f(s[0]) + FlatMap(f, s[1..])
  }

  lemma {:induction false} FlatMapAppend<T, U>(f: T -> seq<U>, a: seq<T>, b: seq<T>)
    ensures FlatMap(f, a + b) == FlatMap(f, a) + FlatMap(f, b)
  {
    if a == [] {
      assert a + b == b;
    } else {
      assert (a + b)[0] == a[0] && (a + b)[1..] == a[1..] + b;
      FlatMapAppend(f, a[1..], b);
    }
  }

  /** The filter keeps, piece by piece, what each piece contributes. */
  lemma {:induction false} CleanIsFlatMap(pieces: seq<string>)
    ensures Clean(pieces) == FlatMap(Kept, pieces)
  {
    if pieces != [] {
      CleanIsFlatMap(pieces[1..]);
    }
  }

  /** Splitting at a separator placed between two strings splits each of
      them. */
  lemma {:induction false} SplitConcat(a: string, sep: char, b: string)
    ensures Split(a + [sep] + b, sep) == Split(a, sep) + Split(b, sep)
    decreases |a|
  {
    var s := a + [sep] + b;
    if a == [] {
      assert s == [sep] + b && s[1..] == b;
    } else {
      assert s[0] == a[0] && s[1..] == a[1..] + [sep] + b;
      SplitConcat(a[1..], sep, b);
    }
  }

  /** A tag is parsed exactly when it is the non-empty strip of one of the
      comma-separated pieces. */
  lemma ParseTagsMembers(raw: string, t: string)
    ensures t in ParseTags(raw) <==>
      t != [] && exists k :: 0 <= k < |Split(raw, ',')| && t == Strip(Split(raw, ',')[k])
  {
    var pieces := Split(raw, ',');
    assert ParseTags(raw) == Clean(pieces);
    CleanMembers(pieces, t);
    if t in ParseTags(raw) {
      var k :| 0 <= k < |pieces| && t == Strip(pieces[k]);
      assert t != [] && 0 <= k < |Split(raw, ',')| && t == Strip(Split(raw, ',')[k]);
    }
  }

  /** The tags of two comma-joined option values are the tags of the first
      followed by the tags of the second, in order. */
  lemma ParseTagsConcat(a: string, b: string)
    ensures ParseTags(a + "," + b) == ParseTags(a) + ParseTags(b)
  {
    SplitConcat(a, ',', b);
    CleanAppend(Split(a, ','), Split(b, ','));
  }

  /** A clean tag strips to itself. */
  lemma CleanTagStripsToItself(t: string)
    requires IsCleanTag(t)
    ensures Strip(t) == t
  {
    assert Lead(t) == 0 && Trail(t) == 0;
    assert t[0..|t|] == t;
  }

  lemma {:induction false} CleanOfCleanTags(tags: seq<string>)
    requires forall k :: 0 <= k < |tags| ==> IsCleanTag(tags[k])
    ensures Clean(tags) == tags
  {
    if tags != [] {
      CleanTagStripsToItself(tags[0]);
      CleanOfCleanTags(tags[1..]);
      assert tags == [tags[0]] + tags[1..];
    }
  }

  /** Writing clean tags comma-separated and parsing them gives back the same
      tags in the same order. */
  lemma ParseJoinedTags(tags: seq<string>)
    requires forall k :: 0 <= k < |tags| ==> IsCleanTag(tags[k])
    ensures ParseTags(Join(tags, ',')) == tags
  {
    if tags == [] {
      assert Split("", ',') == [""];
      assert Strip("") == [];
    } else {
      SplitJoin(tags, ',');
      CleanOfCleanTags(tags);
    }
  }

  /** Empty pieces and pieces of whitespace give no tag: `" a, ,b,,"` gives
      `a` and `b`. */
  lemma ParseTagsExample()
    ensures ParseTags(" a, ,b,,") == ["a", "b"]
  {
    ExampleSplit();
    ExampleStrips();
    CleanExample(" a", " ", "b", "");
  }

  lemma ExampleSplit()
    ensures Split(" a, ,b,,", ',') == [" a", " ", "b", "", ""]
  {
    var pieces := [" a", " ", "b", "", ""];
    assert Join(pieces[3..], ',') == "," by {
      assert pieces[3..][1..] == [""];
    }
    assert Join(pieces[2..], ',') == "b,," by {
      assert pieces[2..][1..] == pieces[3..];
    }
    assert Join(pieces[1..], ',') == " ,b,," by {
      assert pieces[1..][1..] == pieces[2..];
    }
    assert Join(pieces, ',') == " a, ,b,,";
    SplitJoin(pieces, ',');
  }

  lemma CleanExample(a: string, blank: string, b: string, empty: string)
    requires Strip(a) == "a" && Strip(blank) == [] && Strip(b) == "b" && Strip(empty) == []
    ensures Clean([a, blank, b, empty, empty]) == ["a", "b"]
  {
    var ps := [a, blank, b, empty, empty];
    assert Clean(ps[4..]) == [] by {
      assert ps[4..][0] == empty && ps[4..][1..] == [];
    }
    assert Clean(ps[3..]) == [] by {
      assert ps[3..][0] == empty && ps[3..][1..] == ps[4..];
    }
    assert Clean(ps[2..]) == ["b"] by {
      assert ps[2..][0] == b && ps[2..][1..] == ps[3..];
    }
    assert Clean(ps[1..]) == ["b"] by {
      assert ps[1..][0] == blank && ps[1..][1..] == ps[2..];
    }
    assert ps[0] == a;
    assert Clean(ps) == [Strip(a)] + Clean(ps[1..]);
    assert [Strip(a)] + ["b"] == ["a", "b"];
  }

  lemma ExampleStrips()
    ensures Strip(" a") == "a" && Strip(" ") == [] && Strip("b") == "b" && Strip("") == []
  {
    assert Lead(" a") == 1 && Trail(" a") == 0;
    assert Lead(" ") == 1;
    assert Lead("b") == 0 && Trail("b") == 0;
  }
}
