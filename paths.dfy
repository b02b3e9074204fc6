/**
 * Filesystem paths as strings, with pathlib's `/` operator and `relative_to`.
 * Only POSIX absolute paths ("/...") are distinguished; pathlib's normalisation
 * (collapsing "//", dropping "." segments) is not modelled.
 */
module Paths {

  type Path = string

  predicate IsAbsolute(p: string) {
    |p| > 0 && p[0] == '/'
  }

  /** `Path(a) / b`: an absolute right operand replaces the left one. */
  function Join(a: Path, b: string): (r: Path)
    ensures !IsAbsolute(b) ==> |r| == |a| + 1 + |b| && r[..|a|] == a && r[|a|] == '/' && r[|a| + 1..] == b
    ensures IsAbsolute(b) ==> r == b
  {
    if IsAbsolute(b) then b else a + "/" + b
  }

  /** `relpath(p, root)` of milestone_lock.py: `p` relative to `root`, or `p` unchanged. */
  function RelPath(p: Path, root: Path): Path {
    var prefix := root + "/";
    if |prefix| <= |p| && p[..|prefix|] == prefix then p[|prefix|..] else p
  }

  /** Recording a path under the root relative to it and joining it back gives the same path. */
  lemma RelPathJoin(root: Path, x: string)
    requires !IsAbsolute(x)
    ensures RelPath(Join(root, x), root) == x
    ensures Join(root, RelPath(Join(root, x), root)) == Join(root, x)
  {
    var p := Join(root, x);
    assert p[..|root + "/"|] == root + "/";
  }

  /** `(a / b) / c == a / "b/c"` for relative, non-empty `b` and relative `c`. */
  lemma JoinAssoc(a: Path, b: string, c: string)
    requires b != [] && !IsAbsolute(b) && !IsAbsolute(c)
    ensures Join(Join(a, b), c) == Join(a, b + "/" + c)
  {
  }

  lemma JoinInjective(a: Path, b: string, c: string)
    requires !IsAbsolute(b) && !IsAbsolute(c) && Join(a, b) == Join(a, c)
    ensures b == c
  {
    assert b == Join(a, b)[|a| + 1..];
  }

  lemma JoinLeftInjective(a: Path, a': Path, b: string)
    requires !IsAbsolute(b) && Join(a, b) == Join(a', b)
    ensures a == a'
  {
    assert |a| == |a'|;
    assert a == Join(a, b)[..|a|];
  }

  /** Index of the last '/' in `p`, or -1. */
  function LastSlash(p: Path): (i: int)
    ensures -1 <= i < |p|
    ensures 0 <= i ==> p[i] == '/'
    ensures forall j :: i < j < |p| ==> p[j] != '/'
  {
    if p == [] then -1
    else if p[|p| - 1] == '/' then |p| - 1
    else LastSlash(p[..|p| - 1])
  }

  /** `Path(p).parent` for a path without a trailing '/'. */
  function Parent(p: Path): Path {
    var i := LastSlash(p);
    if i < 0 then "." else if i == 0 then "/" else p[..i]
  }

  lemma ParentJoin(a: Path, b: string)
    requires a != [] && a != "/" && !IsAbsolute(b) && '/' !in b
    ensures Parent(Join(a, b)) == a
  {
    var p := Join(a, b);
    assert p[|a|] == '/';
    assert LastSlash(p) == |a| by {
      forall j | |a| < j < |p| ensures p[j] != '/' {
        assert p[j] == b[j - |a| - 1];
      }
      LastSlashIs(p, |a|);
    }
  }

  lemma LastSlashIs(p: Path, i: int)
    requires 0 <= i < |p| && p[i] == '/'
    requires forall j :: i < j < |p| ==> p[j] != '/'
    ensures LastSlash(p) == i
  {
  }
}
