/** Paths as sequences of components, and the few `pathlib` notions the
    uploader relies on: the final component, the parent, the suffix and the
    stem, and the test that decides whether a file is an image to upload. */
module Paths {

  /** An absolute path below the filesystem root, one string per component:
      `/r/a/x.png` is `["r", "a", "x.png"]`; the root itself is `[]`. */
  type Path = seq<string>

  /** The file extensions the uploader accepts, compared lower-cased. */
  const AllowedExtensions: set<string> := {".png", ".jpg", ".jpeg", ".webp"}

  /** `PurePath.name`: the final component, empty for the root. */
  function Name(p: Path): string
  {
    if p == [] then "" else p[|p| - 1]
  }

  /** `PurePath.parent`: the path without its final component; the root is
      its own parent. */
  function Parent(p: Path): Path
  {
    if p == [] then [] else p[..|p| - 1]
  }

  /** `str.rfind`: the index of the last `c` in `s`, or -1 when there is none. */
  function RFind(s: string, c: char): (i: int)
    ensures -1 <= i < |s|
    ensures i >= 0 ==> s[i] == c
    ensures forall k :: i < k < |s| ==> s[k] != c
  {
    if s == [] then -1
    else if s[|s| - 1] == c then |s| - 1
    else RFind(s[..|s| - 1], c)
  }

  /** `PurePath.suffix` of a file name: from the last dot on, provided that dot
      is neither the first nor the last character; otherwise empty. */
  function Suffix(name: string): (s: string)
    ensures s == "" || (|s| >= 2 && s[0] == '.' && '.' !in s[1..])
    ensures |s| <= |name| && name[|name| - |s|..] == s
    ensures s != "" ==> |s| < |name|
    ensures s != "" <==> name != [] && name[|name| - 1] != '.' && exists i :: 0 < i < |name| - 1 && name[i] == '.'
  {
    var i := RFind(name, '.');
    if 0 < i < |name| - 1 then name[i..] else ""
  }

  /** `PurePath.stem` of a file name: the name without its suffix. */
  function Stem(name: string): (t: string)
    ensures t + Suffix(name) == name
  {
    var i := RFind(name, '.');
    if 0 < i < |name| - 1 then name[..i] else name
  }

  /** `str.lower` on one character, restricted to ASCII letters. */
  function LowerChar(c: char): char
  {
    if 'A' <= c <= 'Z' then (c as int + 32) as char else c
  }

  /** `str.lower`, restricted to ASCII letters. */
  function Lower(s: string): (r: string)
    ensures |r| == |s|
    ensures forall k :: 0 <= k < |s| ==> r[k] == LowerChar(s[k])
  {
    if s == [] then [] else [LowerChar(s[0])] + Lower(s[1..])
  }

  /** The discovery test: the lower-cased suffix of the path's name is one of
      the allowed extensions. */
  predicate IsImage(p: Path)
  {
    Lower(Suffix(Name(p))) in AllowedExtensions
  }

  /** The letter case of the extension does not matter: `x.PNG` and `x.Jpeg`
      are images. */
  lemma UpperCaseExtensionsAccepted()
    ensures IsImage(["r", "a", "x.PNG"])
    ensures IsImage(["r", "b.Jpeg"])
  {
    UpperCasePng();
    MixedCaseJpeg();
  }

  lemma UpperCasePng()
    ensures Lower(Suffix("x.PNG")) == ".png"
  {
    assert RFind("x.", '.') == 1;
    assert RFind("x.PNG", '.') == 1 by {
      assert "x.PNG"[..4] == "x.PN" && "x.PN"[..3] == "x.P" && "x.P"[..2] == "x.";
    }
    assert Suffix("x.PNG") == ".PNG";
    assert Lower(".PNG") == ".png";
  }

  lemma MixedCaseJpeg()
    ensures Lower(Suffix("b.Jpeg")) == ".jpeg"
  {
    assert RFind("b.", '.') == 1;
    assert RFind("b.Jpeg", '.') == 1 by {
      assert "b.Jpeg"[..5] == "b.Jpe" && "b.Jpe"[..4] == "b.Jp" && "b.Jp"[..3] == "b.J" && "b.J"[..2] == "b.";
    }
    assert Suffix("b.Jpeg") == ".Jpeg";
    assert Lower(".Jpeg") == ".jpeg";
  }

  /** A hidden file called `.png` has no suffix, and neither has a name that
      ends in a dot, so neither is an image. */
  lemma DotFilesAndTrailingDotsRejected()
    ensures !IsImage(["r", ".png"])
    ensures !IsImage(["r", "x.png."])
  {
    assert RFind(".png", '.') == 0 by {
      assert ".png"[..3] == ".pn" && ".pn"[..2] == ".p" && ".p"[..1] == ".";
    }
    assert Suffix(".png") == "";
    assert Lower("") == "";
    assert RFind("x.png.", '.') == 5;
    assert Suffix("x.png.") == "";
  }
}
