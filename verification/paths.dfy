/** POSIX path helpers as `os.path` computes them. */
module Paths {
  import opened Text

  /** Index of the last occurrence of `c` in `s`, or -1. */
  function LastIndexOf(s: string, c: char): (i: int)
    ensures -1 <= i < |s|
    ensures i >= 0 ==> s[i] == c
    ensures forall k :: i < k < |s| ==> s[k] != c
    decreases |s|
  {
    if |s| == 0 then -1
    else if s[|s| - 1] == c then |s| - 1
    else LastIndexOf(s[..|s| - 1], c)
  }

  /** `os.path.join(a, b)`: an absolute `b` replaces `a`; otherwise one `/` separates them. */
  function Join(a: string, b: string): string {
    if |b| > 0 && b[0] == '/' then b
    else if |a| == 0 || a[|a| - 1] == '/' then a + b
    else a + "/" + b
  }

  /** Joining keeps the last character of a non-empty name. */
  lemma JoinLast(a: string, b: string)
    requires |b| > 0
    ensures |Join(a, b)| > 0 && Join(a, b)[|Join(a, b)| - 1] == b[|b| - 1]
  {
    if !(|b| > 0 && b[0] == '/') {
      if |a| == 0 || a[|a| - 1] == '/' {
        assert (a + b)[|a + b| - 1] == b[|b| - 1];
      } else {
        assert (a + "/" + b)[|a + "/" + b| - 1] == b[|b| - 1];
      }
    }
  }

  function Join3(a: string, b: string, c: string): string {
    Join(Join(a, b), c)
  }

  function RStripSlashes(s: string): string
    decreases |s|
  {
    if |s| > 0 && s[|s| - 1] == '/' then RStripSlashes(s[..|s| - 1]) else s
  }

  predicate AllSlashes(s: string) {
    forall i :: 0 <= i < |s| ==> s[i] == '/'
  }

  /** `os.path.dirname(p)`: everything up to the last `/`, trailing slashes
      removed unless nothing but slashes is left. */
  function Dirname(p: string): string {
    var head := p[..LastIndexOf(p, '/') + 1];
    if |head| > 0 && !AllSlashes(head) then RStripSlashes(head) else head
  }

  /** The extension `os.path.splitext(p)[1]`: from the last dot of the last
      component, provided that component has a non-dot character before it. */
  function Extension(p: string): string {
    var sepIndex := LastIndexOf(p, '/');
    var dotIndex := LastIndexOf(p, '.');
    if dotIndex > sepIndex && exists k :: sepIndex < k < dotIndex && p[k] != '.' then p[dotIndex..]
    else ""
  }

  /** A plain relative component joined under a directory. */
  lemma JoinPlain(a: string, b: string)
    requires |a| > 0 && a[|a| - 1] != '/'
    requires |b| == 0 || b[0] != '/'
    ensures Join(a, b) == a + "/" + b
  {
  }

  /** Joining different relative names under the same directory gives
      different paths. */
  lemma JoinInjective(a: string, b1: string, b2: string)
    requires |b1| > 0 && b1[0] != '/' && |b2| > 0 && b2[0] != '/'
    requires b1 != b2
    ensures Join(a, b1) != Join(a, b2)
  {
    var p := if |a| == 0 || a[|a| - 1] == '/' then a else a + "/";
    assert Join(a, b1) == p + b1 && Join(a, b2) == p + b2;
    assert (p + b1)[|p|..] == b1 && (p + b2)[|p|..] == b2;
  }

  /** `dirname(join(d, name)) == d` for a slash-free name and a directory
      without a trailing slash. */
  lemma DirnameOfJoin(d: string, name: string)
    requires |d| > 0 && d[|d| - 1] != '/'
    requires '/' !in name
    ensures Dirname(Join(d, name)) == d
  {
    var p := d + "/" + name;
    assert Join(d, name) == p by {
      assert |name| == 0 || name[0] != '/';
    }
    var i := LastIndexOf(p, '/');
    assert p[|d|] == '/';
    assert forall k :: |d| < k < |p| ==> p[k] == name[k - |d| - 1];
    assert i == |d|;
    var head := p[..i + 1];
    assert head == d + "/";
    assert head[|head| - 1] == '/' && head[..|head| - 1] == d;
    assert !AllSlashes(head) by {
      assert head[|d| - 1] == d[|d| - 1];
    }
    assert RStripSlashes(head) == RStripSlashes(d);
  }

  /** The extension of `stem + "." + ext` is `"." + ext` when the stem ends in
      an ordinary character and `ext` holds neither dot nor slash. */
  lemma ExtensionOfSuffix(stem: string, ext: string)
    requires |stem| > 0 && stem[|stem| - 1] != '/' && stem[|stem| - 1] != '.'
    requires '.' !in ext && '/' !in ext
    ensures Extension(stem + "." + ext) == "." + ext
  {
    var p := stem + "." + ext;
    var dotIndex := LastIndexOf(p, '.');
    assert p[|stem|] == '.';
    assert forall k :: |stem| < k < |p| ==> p[k] == ext[k - |stem| - 1];
    assert dotIndex == |stem|;
    var sepIndex := LastIndexOf(p, '/');
    assert p[|stem| - 1] == stem[|stem| - 1];
    assert sepIndex < |stem| - 1;
    assert p[|stem| - 1] != '.';
    assert p[dotIndex..] == "." + ext;
  }
}
