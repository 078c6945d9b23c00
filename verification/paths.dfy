/** The two `os.path` operations the pipeline uses, with POSIX separators:
    `join(a, b)` and the extension half of `splitext(p)`. */
module Paths {

  /** `os.path.join(a, b)`: an absolute `b` replaces `a`; otherwise a
      separator is inserted unless `a` is empty or already ends in one. */
  function Join(a: string, b: string): (r: string)
    ensures |b| > 0 && b[0] == '/' ==> r == b
    ensures (|b| == 0 || b[0] != '/') ==> |b| <= |r| && r[|r| - |b|..] == b
  {
    if |b| > 0 && b[0] == '/' then b
    else if |a| == 0 || a[|a| - 1] == '/' then a + b
    else a + "/" + b
  }

  /** For a relative name and a directory without a trailing separator, the
      joined path is the directory, one separator, then the name. */
  lemma JoinRelative(dir: string, name: string)
    requires |dir| > 0 && dir[|dir| - 1] != '/'
    requires |name| == 0 || name[0] != '/'
    ensures Join(dir, name) == dir + "/" + name
    ensures Join(dir, name)[..|dir| + 1] == dir + "/"
  {
  }

  /** `s.rfind(c)` for one character: the last index holding `c`, or -1. */
  function LastIndexOf(s: string, c: char): (r: int)
    ensures -1 <= r < |s|
    ensures r >= 0 ==> s[r] == c
    ensures forall j :: r < j < |s| ==> s[j] != c
  {
    if |s| == 0 then -1
    else if s[|s| - 1] == c then |s| - 1
    else LastIndexOf(s[..|s| - 1], c)
  }

  /** The extension `os.path.splitext(p)[1]` returns: from the last dot of
      the final path component to the end, unless that component has
      nothing but dots before it (".bashrc" has no extension). */
  function Extension(p: string): (ext: string)
    ensures ext == [] || (ext[0] == '.' && |ext| <= |p| && ext == p[|p| - |ext|..])
    ensures forall i :: 0 <= i < |ext| ==> ext[i] != '/'
    ensures forall i :: 1 <= i < |ext| ==> ext[i] != '.'
  {
    var sepIndex := LastIndexOf(p, '/');
    var dotIndex := LastIndexOf(p, '.');
    if dotIndex > sepIndex && exists k :: sepIndex < k < dotIndex && p[k] != '.'
    then p[dotIndex..]
    else []
  }

  /** A final component `stem.e` whose stem ends in an ordinary character
      has extension `.e`, whatever directories precede it. */
  lemma ExtensionOfDotted(stem: string, e: string)
    requires |stem| > 0 && stem[|stem| - 1] != '.' && stem[|stem| - 1] != '/'
    requires forall i :: 0 <= i < |e| ==> e[i] != '.' && e[i] != '/'
    ensures Extension(stem + "." + e) == "." + e
  {
    var p := stem + "." + e;
    var dot := |stem|;
    assert p[dot] == '.';
    assert forall j :: dot < j < |p| ==> p[j] == e[j - dot - 1];
    var dotIndex := LastIndexOf(p, '.');
    assert dotIndex == dot;
    var sepIndex := LastIndexOf(p, '/');
    assert sepIndex < dot - 1 by {
      assert p[dot - 1] == stem[|stem| - 1];
    }
    assert p[dot - 1] != '.';
    assert p[dotIndex..] == "." + e;
  }
}
