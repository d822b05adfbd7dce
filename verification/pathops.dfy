/**
 * The three os.path operations the sync layout relies on (POSIX flavour):
 * join, basename, and the "has a directory part" test `dirname(p) != ''`.
 */
module PathOps {

  /** os.path.join(a, b): an absolute b wins; otherwise a separator is inserted unless a is empty or ends in one. */
  function Join(a: string, b: string): string
  {
    if |b| > 0 && b[0] == '/' then b
    else if a == "" || a[|a| - 1] == '/' then a + b
    else a + "/" + b
  }

  /** os.path.dirname(p) is empty exactly when p contains no separator. */
  predicate HasDirPart(p: string)
  {
    '/' in p
  }

  /** os.path.basename(p): everything after the last separator. */
  function BaseName(p: string): (r: string)
    ensures '/' !in r
    ensures |r| <= |p| && r == p[|p| - |r|..]
    ensures |r| < |p| ==> p[|p| - |r| - 1] == '/'
    ensures !HasDirPart(p) ==> r == p
  {
    if p == [] then []
    else if p[|p| - 1] == '/' then []
    else
      var init := p[..|p| - 1];
      assert p == init + [p[|p| - 1]];
      BaseName(init) + [p[|p| - 1]]
  }

  /** Appending a suffix that does not start with a separator appends it to the joined path. */
  lemma {:induction false} JoinAppend(a: string, b: string, s: string)
    requires |s| > 0 && s[0] != '/'
    ensures Join(a, b + s) == Join(a, b) + s
  {
    if |b| > 0 {
      assert (b + s)[0] == b[0];
    } else {
      assert b + s == s;
    }
  }

  /** A separator-free name placed after a directory prefix is that path's basename. */
  lemma {:induction false} BaseNameAfterDir(d: string, f: string)
    requires d == [] || d[|d| - 1] == '/'
    requires '/' !in f
    ensures BaseName(d + f) == f
  {
    if f == [] {
      assert d + f == d;
    } else {
      var p := d + f;
      var init, last := f[..|f| - 1], f[|f| - 1];
      assert last != '/' by { assert last == f[|f| - 1]; }
      assert p[|p| - 1] == last;
      assert p[..|p| - 1] == d + init;
      assert '/' !in init by { assert forall k :: 0 <= k < |init| ==> init[k] == f[k]; }
      BaseNameAfterDir(d, init);
      assert BaseName(p) == BaseName(d + init) + [last];
      assert f == init + [last];
    }
  }
}
