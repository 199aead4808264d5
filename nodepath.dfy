/**
 * The part of Node's POSIX `path.extname` that the server uses to keep the
 * original file's extension: trailing slashes are ignored, the base name is
 * what follows the last remaining '/', and the extension runs from the last
 * '.' of the base name to its end. There is no extension when the base name
 * has no '.', when its only relevant '.' is its first character (".bashrc"),
 * or when the base name is "..".
 */
module NodePath {
  import opened Text

  function LastIndexOf(s: string, c: char): (i: int)
    ensures -1 <= i < |s|
    ensures i == -1 <==> c !in s
    ensures 0 <= i ==> s[i] == c && c !in s[i + 1..]
    decreases |s|
  {
    if s == [] then -1
    else if s[|s| - 1] == c then |s| - 1
    else
      var i := LastIndexOf(s[..|s| - 1], c);
      assert s == s[..|s| - 1] + [s[|s| - 1]];
      i
  }

  /** `p` without the '/' characters at its end. */
  function TrimTrailingSlashes(p: string): (t: string)
    ensures StartsWith(p, t)
    ensures t == [] || t[|t| - 1] != '/'
    ensures forall i :: |t| <= i < |p| ==> p[i] == '/'
    decreases |p|
  {
    if p != [] && p[|p| - 1] == '/' then TrimTrailingSlashes(p[..|p| - 1]) else p
  }

  /** The last path component, trailing slashes ignored. */
  function BaseName(p: string): (b: string)
    ensures '/' !in b
    ensures EndsWith(TrimTrailingSlashes(p), b)
  {
    var t := TrimTrailingSlashes(p);
    t[LastIndexOf(t, '/') + 1..]
  }

  /** The base name is the whole trimmed path, or the part after its last '/'. */
  lemma BaseNameIsLastComponent(p: string)
    ensures var t, b := TrimTrailingSlashes(p), BaseName(p);
      |b| == |t| || t[|t| - |b| - 1] == '/'
  {
    var t := TrimTrailingSlashes(p);
    var i := LastIndexOf(t, '/');
    assert |t| - |BaseName(p)| - 1 == i;
  }

  /** `path.extname(p)` */
  function ExtName(p: string): (e: string)
    ensures e == [] || (e[0] == '.' && '.' !in e[1..])
    ensures '/' !in e
    ensures EndsWith(BaseName(p), e)
    ensures e != [] ==> |e| < |BaseName(p)|
  {
    var b := BaseName(p);
    var i := LastIndexOf(b, '.');
    if i <= 0 || b == ".." then [] else b[i..]
  }

  lemma LastIndexOfSplit(a: string, c: char, b: string)
    requires c !in b
    ensures LastIndexOf(a + [c] + b, c) == |a|
  {
    var s := a + [c] + b;
    var i := LastIndexOf(s, c);
    assert s[|a|] == c;
    assert s[|a| + 1..] == b;
  }

  lemma BaseNameOfPlain(p: string)
    requires '/' !in p
    ensures BaseName(p) == p
  {
    assert p == [] || p[|p| - 1] in p;
    assert TrimTrailingSlashes(p) == p;
  }

  /** With a non-empty stem, `stem.ext` is ".." only for the stem "." and no extension. */
  lemma DotDotName(stem: string, ext: string)
    requires stem != []
    ensures stem + "." + ext == ".." ==> stem == "." && ext == []
  {
    var p := stem + "." + ext;
    if p == ".." {
      assert |stem| == 1 && |ext| == 0;
      assert stem == [p[0]] && p[0] == ".."[0];
    }
  }

  /** A base name `stem.ext` whose stem is not empty has extension ".ext". */
  lemma ExtNameOfStem(stem: string, ext: string)
    requires stem != [] && '/' !in stem
    requires '.' !in ext && '/' !in ext
    requires !(stem == "." && ext == [])
    ensures ExtName(stem + "." + ext) == "." + ext
  {
    var p := stem + ['.'] + ext;
    assert "." == ['.'];
    assert '/' !in p;
    BaseNameOfPlain(p);
    LastIndexOfSplit(stem, '.', ext);
    DotDotName(stem, ext);
    assert p[|stem|..] == ['.'] + ext;
  }

  /** A plain name keeps its extension. */
  lemma ExtNameOfPhoto()
    ensures ExtName("photo.png") == ".png"
  {
    ExtNameOfStem("photo", "png");
    assert "photo" + "." + "png" == "photo.png";
  }

  /** Of a double extension only the last one is kept. */
  lemma ExtNameOfArchive()
    ensures ExtName("archive.tar.gz") == ".gz"
  {
    ExtNameOfStem("archive.tar", "gz");
    assert "archive.tar" + "." + "gz" == "archive.tar.gz";
  }

  /** A dotfile has no extension. */
  lemma ExtNameOfDotfile(rest: string)
    requires '.' !in rest && '/' !in rest
    ensures ExtName("." + rest) == ""
  {
    var p := ['.'] + rest;
    assert "." + rest == p;
    LastIndexOfSplit([], '.', rest);
    assert p[|p| - 1] != '/';
    BaseNameOfPlain(p);
  }
}
