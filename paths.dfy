/**
 * `pathlib` paths as sequences of name components, with the `name`, `suffix` and `stem`
 * rules of Python's `PurePath` and the prefix test behind `relative_to`.
 */
module Paths {
  import opened Text

  type Path = seq<string>

  /** `path.name`: the last component, or "" for the root. */
  function Name(p: Path): string { if |p| == 0 then "" else p[|p| - 1] }

  /** `path.parent`: all components but the last (the empty path is its own parent). */
  function Parent(p: Path): (r: Path)
    ensures |p| > 0 ==> r + [Name(p)] == p
    ensures |p| == 0 ==> r == []
  {
    if |p| == 0 then [] else p[..|p| - 1]
  }

  /** `p / child` */
  function Child(p: Path, child: string): (r: Path)
    ensures |r| == |p| + 1 && Name(r) == child && r[..|p|] == p
  {
    p + [child]
  }

  /** Index of the last '.' in `s`, or -1 (`str.rfind('.')`). */
  function LastDot(s: string): (i: int)
    ensures -1 <= i < |s|
    ensures i >= 0 ==> s[i] == '.'
    ensures forall k :: i < k < |s| ==> s[k] != '.'
  {
    if |s| == 0 then -1
    else if s[|s| - 1] == '.' then |s| - 1
    else LastDot(s[..|s| - 1])
  }

  /** A name has a suffix when its last '.' is neither the first nor the last character. */
  predicate HasSuffix(name: string)
  {
    var i := LastDot(name);
    0 < i < |name| - 1
  }

  /** `PurePath.suffix`: from the last '.' on, or "". */
  function Suffix(name: string): (r: string)
    ensures HasSuffix(name) ==> |r| >= 2 && r[0] == '.' && EndsWith(name, r) && '.' !in r[1..]
    ensures !HasSuffix(name) ==> r == ""
  {
    if HasSuffix(name) then name[LastDot(name)..] else ""
  }

  /** `PurePath.stem`: the name without its suffix. */
  function Stem(name: string): (r: string)
    ensures |r| > 0 || |name| == 0
  {
    if HasSuffix(name) then name[..LastDot(name)] else name
  }

  /** The stem and the suffix together give back the name. */
  lemma StemSuffix(name: string)
    ensures Stem(name) + Suffix(name) == name
  {
  }

  /** A non-empty stem followed by a dot-free extension is split back into the two. */
  lemma {:induction false} SuffixOfDotted(stem: string, ext: string)
    requires |stem| > 0 && |ext| > 0 && '.' !in ext
    ensures Suffix(stem + "." + ext) == "." + ext
    ensures Stem(stem + "." + ext) == stem
  {
    var name := stem + "." + ext;
    assert name[..|stem| + 1] == stem + ".";
    LastDotOfTail(stem + ".", ext);
    assert LastDot(name) == |stem|;
    assert name[|stem|..] == "." + ext;
  }

  lemma {:induction false} LastDotOfTail(a: string, b: string)
    requires |a| > 0 && a[|a| - 1] == '.' && '.' !in b
    ensures LastDot(a + b) == |a| - 1
    decreases |b|
  {
    if |b| == 0 {
      assert a + b == a;
    } else {
      assert (a + b)[..|a + b| - 1] == a + b[..|b| - 1];
      assert b[|b| - 1] in b;
      LastDotOfTail(a, b[..|b| - 1]);
    }
  }

  /** `child.relative_to(base)` succeeds exactly when `base` is a prefix of `child`. */
  predicate Within(child: Path, base: Path)
  {
    |base| <= |child| && child[..|base|] == base
  }

  /**
   * The components of a POSIX path string: the '/'-separated parts without the empty
   * and "." parts `pathlib` collapses.
   */
  function Parse(s: string): (p: Path)
    ensures forall k :: 0 <= k < |p| ==> p[k] != "" && p[k] != "." && '/' !in p[k]
  {
    Components(Split(s, '/'))
  }

  function Components(parts: seq<string>): (p: Path)
    requires forall k :: 0 <= k < |parts| ==> '/' !in parts[k]
    ensures forall k :: 0 <= k < |p| ==> p[k] != "" && p[k] != "." && '/' !in p[k]
    ensures |p| <= |parts|
  {
    if |parts| == 0 then []
    else if parts[0] == "" || parts[0] == "." then Components(parts[1..])
    else [parts[0]] + Components(parts[1..])
  }

  /** `path.as_posix()` of a relative path. */
  function AsPosix(p: Path): string { Join(p, "/") }
}
