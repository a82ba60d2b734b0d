// The Python 2 `posixpath` functions the clip tool uses to derive its shapefile path:
// basename, dirname, splitext and join, over '/'-separated byte strings.

module Paths {
  import opened Text

  /** s.rfind(c): the last index holding c, or -1. */
  function RFind(s: string, c: char): (r: int)
    ensures -1 <= r < |s|
    ensures r >= 0 ==> s[r] == c
    ensures forall j :: r < j < |s| ==> s[j] != c
  {
    if |s| == 0 then -1
    else if s[|s| - 1] == c then |s| - 1
    else RFind(s[..|s| - 1], c)
  }

  predicate AllSlashes(s: string) {
    forall i :: 0 <= i < |s| ==> s[i] == '/'
  }

  /** s.rstrip('/'). */
  function RStripSlashes(s: string): (r: string)
    ensures |r| <= |s| && r == s[..|r|]
    ensures forall i :: |r| <= i < |s| ==> s[i] == '/'
    ensures |r| > 0 ==> r[|r| - 1] != '/'
  {
    if |s| > 0 && s[|s| - 1] == '/' then RStripSlashes(s[..|s| - 1]) else s
  }

  /** os.path.basename: the text after the last '/'. */
  function Basename(p: string): (r: string)
    ensures '/' !in r
    ensures EndsWith(p, r)
    ensures |r| == |p| || p[|p| - |r| - 1] == '/'
  {
    var i := RFind(p, '/') + 1;
    assert forall x :: x in p[i..] ==> x != '/';
    p[i..]
  }

  /** os.path.dirname: the text up to the last '/', with trailing slashes removed unless
      it consists of slashes only. The path is the dirname, a run of slashes, then the
      basename; that run is as long as it can be unless the dirname is slashes only. */
  function Dirname(p: string): (r: string)
    ensures StartsWith(p, r) && |r| + |Basename(p)| <= |p|
    ensures AllSlashes(p[|r|..|p| - |Basename(p)|])
    ensures AllSlashes(r) ==> r == p[..|p| - |Basename(p)|]
    ensures !AllSlashes(r) ==> r[|r| - 1] != '/'
  {
    var head := p[..RFind(p, '/') + 1];
    assert |p| - |Basename(p)| == |head|;
    if |head| > 0 && !AllSlashes(head) then
      var i :| 0 <= i < |head| && head[i] != '/';
      var r := RStripSlashes(head);
      assert i < |r|;
      assert p[|r|..|head|] == head[|r|..];
      r
    else head
  }

  /** The root of os.path.splitext: the text before the last '.' of the last path
      component, unless every character before that dot is itself a dot (a leading-dot
      name such as ".profile" has no extension). */
  function Stem(p: string): (r: string)
    ensures StartsWith(p, r)
    ensures |r| < |p| ==> |r| == RFind(p, '.') && exists j :: RFind(p, '/') < j < |r| && p[j] != '.'
    ensures RFind(p, '.') > RFind(p, '/') && (exists j :: RFind(p, '/') < j < RFind(p, '.') && p[j] != '.') ==>
      |r| < |p|
  {
    var sepIndex, dotIndex := RFind(p, '/'), RFind(p, '.');
    if dotIndex > sepIndex && exists j :: sepIndex < j < dotIndex && p[j] != '.' then p[..dotIndex]
    else p
  }

  /** os.path.join(a, b): `b` when it is absolute, otherwise `b` appended to `a` with one
      '/' between them unless `a` is empty or already ends with '/'. */
  function PathJoin(a: string, b: string): (r: string)
    ensures StartsWith(b, "/") ==> r == b
    ensures !StartsWith(b, "/") && (a == "" || a[|a| - 1] == '/') ==> r == a + b
    ensures !StartsWith(b, "/") && a != "" && a[|a| - 1] != '/' ==> r == a + "/" + b
    ensures !StartsWith(b, "/") ==> EndsWith(r, b) && StartsWith(r, a)
  {
    if StartsWith(b, "/") then b
    else if a == "" || a[|a| - 1] == '/' then a + b
    else a + "/" + b
  }

  /** Appending text without '/' does not move the last '/'. */
  lemma {:induction false} RFindAppend(a: string, f: string)
    requires '/' !in f
    ensures RFind(a + f, '/') == RFind(a, '/')
    decreases |f|
  {
    if |f| == 0 {
      assert a + f == a;
    } else {
      var s := a + f;
      assert s[|s| - 1] == f[|f| - 1] && f[|f| - 1] in f;
      assert s[..|s| - 1] == a + f[..|f| - 1];
      assert forall x :: x in f[..|f| - 1] ==> x in f;
      RFindAppend(a, f[..|f| - 1]);
    }
  }

  /** What dirname can return: nothing, a run of slashes, or text not ending in '/'. */
  lemma DirnameShape(p: string)
    ensures var d := Dirname(p); AllSlashes(d) || d[|d| - 1] != '/'
  {
    var head := p[..RFind(p, '/') + 1];
    if |head| > 0 && !AllSlashes(head) {
      var i :| 0 <= i < |head| && head[i] != '/';
      assert i < |RStripSlashes(head)|;
    }
  }

  /** Joining a '/'-free file name onto a directory name and splitting the result again
      gives back the file name and the directory name. */
  lemma {:induction false} JoinSplit(p: string, f: string)
    requires |f| > 0 && '/' !in f
    ensures var j := PathJoin(Dirname(p), f); Basename(j) == f && Dirname(j) == Dirname(p)
  {
    var d := Dirname(p);
    DirnameShape(p);
    assert !StartsWith(f, "/") by { assert f[0] in f; }
    var j := PathJoin(d, f);
    if d == "" {
      assert j == f;
      RFindAppend("", f);
      assert "" + f == f;
    } else if d[|d| - 1] == '/' {
      assert j == d + f;
      RFindAppend(d, f);
      assert j[..|d|] == d;
      assert AllSlashes(d);
    } else {
      var h := d + "/";
      assert j == h + f;
      RFindAppend(h, f);
      assert RFind(h, '/') == |d|;
      assert j[..|h|] == h;
      assert h[|d|] == '/' && !AllSlashes(h);
      var r := RStripSlashes(h);
      assert RStripSlashes(h) == RStripSlashes(d);
    }
  }
}
