/** POSIX path strings as `os.path` treats them, with '/' as the only
    separator. */
module Paths {
  import opened Text

  type Path = string

  /** `os.path.join(a, b)`: an absolute `b` replaces `a`; otherwise a single
      separator is inserted unless `a` is empty or already ends with one. */
  function Join(a: Path, b: Path): Path
  {
    if |b| > 0 && b[0] == '/' then b
    else if a == [] || a[|a| - 1] == '/' then a + b
    else a + "/" + b
  }

  /** `os.path.basename(p)`: everything after the last separator. */
  function BaseName(p: Path): (r: Path)
    ensures '/' !in r && IsSuffix(r, p)
  {
    if p == [] || p[|p| - 1] == '/' then [] else BaseName(p[..|p| - 1]) + [p[|p| - 1]]
  }

  /** The part of `p` up to and including its last separator. */
  function Head(p: Path): Path
  {
    p[..|p| - |BaseName(p)|]
  }

  function RStripSlashes(p: Path): Path
  {
    if p != [] && p[|p| - 1] == '/' then RStripSlashes(p[..|p| - 1]) else p
  }

  /** The proper ancestors of `p` that `os.makedirs(p)` makes sure exist:
      every non-empty prefix that ends just before a separator. */
  function Ancestors(p: Path): set<Path>
  {
    set i | 0 < i < |p| && p[i] == '/' :: p[..i]
  }

  lemma {:induction false} BaseNameAfterSeparator(x: Path, b: Path)
    requires x == [] || x[|x| - 1] == '/'
    requires '/' !in b
    ensures BaseName(x + b) == b
    decreases |b|
  {
    if b != [] {
      var b' := b[..|b| - 1];
      assert (x + b)[..|x + b| - 1] == x + b';
      BaseNameAfterSeparator(x, b');
    } else {
      assert x + b == x;
    }
  }

  /** Joining a plain name onto a directory yields a path whose last
      component is that name and whose parent is that directory. */
  lemma JoinPlacesInside(a: Path, b: Path)
    requires b != [] && '/' !in b
    ensures BaseName(Join(a, b)) == b
    ensures RStripSlashes(Head(Join(a, b))) == RStripSlashes(a)
    ensures IsPrefix(a, Join(a, b))
  {
    var r := Join(a, b);
    if a == [] || a[|a| - 1] == '/' {
      BaseNameAfterSeparator(a, b);
      assert Head(r) == a;
    } else {
      var x := a + "/";
      assert r == x + b;
      BaseNameAfterSeparator(x, b);
      assert Head(r) == x;
      assert x[..|x| - 1] == a;
    }
  }

  /** A prefix that a separator follows is an ancestor, and so are its own
      ancestors. */
  lemma AncestorOfExtension(p: Path, q: Path)
    requires p != [] && |p| < |q| && q[..|p|] == p && q[|p|] == '/'
    ensures p in Ancestors(q)
    ensures Ancestors(p) <= Ancestors(q)
  {
    forall a | a in Ancestors(p) ensures a in Ancestors(q) {
      var i :| 0 < i < |p| && p[i] == '/' && a == p[..i];
      assert q[i] == '/' && q[..i] == a;
    }
  }
}
