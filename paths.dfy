/** POSIX paths as Node's `path` module treats them, for normalised absolute
    paths: a path is the list of its segments below `/`. */
module Paths {
  import opened Strings

  type Path = seq<string>

  predicate ValidSegment(x: string) {
    x != "" && x != "." && x != ".." && '/' !in x
  }

  /** A normalised absolute path: no empty, `.` or `..` segment. */
  predicate ValidPath(p: Path) {
    forall i :: 0 <= i < |p| ==> ValidSegment(p[i])
  }

  /** One segment of a relative path applied to a base: `.` and empty
      segments are skipped, `..` goes up (never above `/`). */
  function Step(base: Path, seg: string): Path {
    if seg == "" || seg == "." then base
    else if seg == ".." then (if base == [] then [] else base[..|base| - 1])
    else base + [seg]
  }

  /** `path.join(base, ...)` of a normalised absolute base and the
      segments of the rest: the concatenation, normalised. */
  function Resolve(base: Path, rel: seq<string>): Path
    decreases |rel|
  {
    if rel == [] then base else Resolve(Step(base, rel[0]), rel[1..])
  }

  /** `path.join(base, s)` for one string argument. */
  function Join(base: Path, s: string): Path {
    Resolve(base, Split(s, '/'))
  }

  /** `path.join(base, name)` for a constant name without a separator. */
  function Child(base: Path, name: string): Path {
    Resolve(base, [name])
  }

  /** `n` times `..`. */
  function Dots(n: nat): (r: seq<string>)
    ensures |r| == n
  {
    if n == 0 then [] else [".."] + Dots(n - 1)
  }

  /** The number of leading segments two paths share. */
  function CommonPrefixLength(a: Path, b: Path): (k: nat)
    ensures k <= |a| && k <= |b|
  {
    if a == [] || b == [] || a[0] != b[0] then 0
    else 1 + CommonPrefixLength(a[1..], b[1..])
  }

  /** `path.relative(from, to)`: up to the common ancestor, then down. */
  function Relative(from: Path, to: Path): seq<string> {
    var k := CommonPrefixLength(from, to);
    Dots(|from| - k) + to[k..]
  }

  /** `path.basename(p)`: the last segment, empty for `/`. */
  function Basename(p: Path): string {
    if p == [] then "" else p[|p| - 1]
  }

  /** `s.lastIndexOf(c)`. */
  function LastIndexOf(s: string, c: char): (r: int)
    ensures -1 <= r < |s|
  {
    LastIndexBefore(s, c, |s|)
  }

  /** The last index below `n` holding `c`, or -1. */
  function LastIndexBefore(s: string, c: char, n: nat): (r: int)
    requires n <= |s|
    ensures -1 <= r < n
  {
    if n == 0 then -1
    else if s[n - 1] == c then n - 1
    else LastIndexBefore(s, c, n - 1)
  }

  /** `path.extname` of a base name: from its last `.` to the end, except
      that a name without a dot, one whose only leading dot is its last dot
      (`.bashrc`) and `..` have none. */
  function Extname(name: string): string {
    var d := LastIndexOf(name, '.');
    if d <= 0 || name == ".." then "" else name[d..]
  }

  /** `path.basename` of a path string, computed as node does: trailing
      slashes are skipped, and the name runs back from there to the slash
      before it (or to the start). */
  function BasenameOfString(s: string): string {
    var e := EndBeforeSlashes(s, |s|);
    s[LastIndexBefore(s, '/', e) + 1..e]
  }

  /** `path.extname` of a whole path string, read off the string as node
      does: the extension of the base name that ends before any trailing
      slashes; `Extname` of that base name, by `ExtnameOfPathIsExtname`. */
  function ExtnameOfPath(s: string): string {
    var e := EndBeforeSlashes(s, |s|);
    var b := LastIndexBefore(s, '/', e);
    var d := LastIndexBefore(s, '.', e);
    if d <= b + 1 || (e - b == 3 && s[b + 1] == '.' && s[b + 2] == '.') then "" else s[d..e]
  }

  /** The end of `s[..n]` once its trailing slashes are dropped. */
  function EndBeforeSlashes(s: string, n: nat): (e: nat)
    requires n <= |s|
    ensures e <= n
  {
    if n > 0 && s[n - 1] == '/' then EndBeforeSlashes(s, n - 1) else n
  }

  /** The string form of an absolute path. */
  function AbsoluteString(p: Path): string {
    "/" + JoinWith(p, "/")
  }

  /** The string form of a relative path (`""` for the same directory). */
  function RelativeString(rel: seq<string>): string {
    JoinWith(rel, "/")
  }

  // ---------------------------------------------------------------------
  // Properties

  /** Resolving segments free of separators onto a normalised path gives a
      normalised path. */
  lemma {:induction false} ResolveValid(base: Path, rel: seq<string>)
    requires ValidPath(base) && forall i :: 0 <= i < |rel| ==> '/' !in rel[i]
    ensures ValidPath(Resolve(base, rel))
    decreases |rel|
  {
    if rel != [] {
      ResolveValid(Step(base, rel[0]), rel[1..]);
    }
  }

  /** Every segment of `Dots(n)` is `..`. */
  lemma {:induction false} DotsAreParents(n: nat)
    ensures forall i :: 0 <= i < n ==> Dots(n)[i] == ".."
  {
    if n > 0 {
      DotsAreParents(n - 1);
    }
  }

  /** The first `k` segments agree and the next ones (if any) differ. */
  lemma {:induction false} CommonPrefix(a: Path, b: Path)
    ensures var k := CommonPrefixLength(a, b);
            && a[..k] == b[..k]
            && (k < |a| && k < |b| ==> a[k] != b[k])
  {
    if a != [] && b != [] && a[0] == b[0] {
      CommonPrefix(a[1..], b[1..]);
      var k := CommonPrefixLength(a, b);
      assert a[..k] == [a[0]] + a[1..][..k - 1];
      assert b[..k] == [b[0]] + b[1..][..k - 1];
    }
  }

  /** The search below `n` finds the last occurrence there, or -1 when
      there is none. */
  lemma {:induction false} LastIndexBeforeFinds(s: string, c: char, n: nat)
    requires n <= |s|
    ensures var r := LastIndexBefore(s, c, n);
            && (r >= 0 ==> s[r] == c)
            && forall j :: r < j < n ==> s[j] != c
  {
    if n > 0 && s[n - 1] != c {
      LastIndexBeforeFinds(s, c, n - 1);
    }
  }

  lemma {:induction false} ResolveAppend(base: Path, rel: seq<string>)
    requires ValidPath(rel)
    ensures Resolve(base, rel) == base + rel
    decreases |rel|
  {
    if rel != [] {
      ResolveAppend(base + [rel[0]], rel[1..]);
      assert base + [rel[0]] + rel[1..] == base + rel;
    }
  }

  /** A leading `..` goes up one segment (and stays at `/`). */
  lemma ResolveUp(base: Path, rel: seq<string>)
    ensures Resolve(base, [".."] + rel) == Resolve(if base == [] then [] else base[..|base| - 1], rel)
  {
    assert ([".."] + rel)[0] == ".." && ([".."] + rel)[1..] == rel;
  }

  lemma {:induction false} ResolveDots(base: Path, n: nat, rest: seq<string>)
    requires ValidPath(rest)
    ensures Resolve(base, Dots(n) + rest) == base[..if n <= |base| then |base| - n else 0] + rest
  {
    if n == 0 {
      assert Dots(0) + rest == rest;
      assert base[..|base|] == base;
      ResolveAppend(base, rest);
    } else {
      assert Dots(n) + rest == [".."] + (Dots(n - 1) + rest);
      ResolveUp(base, Dots(n - 1) + rest);
      var up := if base == [] then [] else base[..|base| - 1];
      ResolveDots(up, n - 1, rest);
      assert up[..if n - 1 <= |up| then |up| - (n - 1) else 0]
          == base[..if n <= |base| then |base| - n else 0];
    }
  }


  /** `path.join(from, path.relative(from, to))` is `to`. */
  lemma JoinRelative(from: Path, to: Path)
    requires ValidPath(from) && ValidPath(to)
    ensures Resolve(from, Relative(from, to)) == to
  {
    var k := CommonPrefixLength(from, to);
    CommonPrefix(from, to);
    assert ValidPath(to[k..]);
    ResolveDots(from, |from| - k, to[k..]);
    assert to[..k] + to[k..] == to;
  }

  /** A directory below `from` is reached by its own extra segments. */
  lemma RelativeBelow(from: Path, to: Path)
    requires |from| <= |to| && to[..|from|] == from
    ensures Relative(from, to) == to[|from|..]
  {
    assert forall i :: 0 <= i < |from| ==> from[i] == to[i];
    CommonPrefix(from, to);
  }

  /** For a name without a separator, `Child` is `Join`. */
  lemma ChildIsJoin(base: Path, name: string)
    requires '/' !in name
    ensures Child(base, name) == Join(base, name)
  {
    SplitNoSeparator(name, '/');
  }

  /** Joining a plain file name onto a directory adds one segment. */
  lemma JoinName(dir: Path, name: string)
    requires ValidSegment(name)
    ensures Join(dir, name) == dir + [name]
  {
    SplitNoSeparator(name, '/');
    ResolveAppend(dir, [name]);
  }

  /** Below `n`, the last `c` is at `r`: the search finds it. */
  lemma {:induction false} LastIndexBeforeAt(s: string, c: char, n: nat, r: nat)
    requires r < n <= |s| && s[r] == c
    requires forall j :: r < j < n ==> s[j] != c
    ensures LastIndexBefore(s, c, n) == r
  {
    if r < n - 1 {
      LastIndexBeforeAt(s, c, n - 1, r);
    }
  }

  /** Below `n` there is no `c`: the search finds nothing. */
  lemma {:induction false} LastIndexBeforeNone(s: string, c: char, n: nat)
    requires n <= |s|
    requires forall j :: 0 <= j < n ==> s[j] != c
    ensures LastIndexBefore(s, c, n) == -1
  {
    if n > 0 {
      LastIndexBeforeNone(s, c, n - 1);
    }
  }

  /** Reading the extension off the whole path is taking the extension of
      its base name. */
  lemma ExtnameOfPathIsExtname(s: string)
    ensures ExtnameOfPath(s) == Extname(BasenameOfString(s))
  {
    var e := EndBeforeSlashes(s, |s|);
    var b := LastIndexBefore(s, '/', e);
    var d := LastIndexBefore(s, '.', e);
    var name := s[b + 1..e];
    assert name == BasenameOfString(s);
    LastIndexBeforeFinds(s, '.', e);
    if d > b {
      assert forall j :: d - (b + 1) < j < |name| ==> name[j] == s[j + b + 1];
      LastIndexBeforeAt(name, '.', |name|, d - (b + 1));
      if d > b + 1 && !(e - b == 3 && s[b + 1] == '.' && s[b + 2] == '.') {
        assert name != "..";
        assert name[d - (b + 1)..] == s[d..e];
      }
    } else {
      assert forall j :: 0 <= j < |name| ==> name[j] == s[j + b + 1];
      LastIndexBeforeNone(name, '.', |name|);
    }
  }

  /** The extension of `stem.ext` for a non-empty stem and a dot-free `ext`. */
  lemma ExtnameOfDotted(stem: string, ext: string)
    requires stem != [] && '.' !in ext
    requires stem + "." + ext != ".."
    ensures Extname(stem + "." + ext) == "." + ext
  {
    var name := stem + "." + ext;
    assert name[|stem|] == '.';
    assert forall j :: |stem| < j < |name| ==> name[j] == ext[j - |stem| - 1];
    LastIndexBeforeAt(name, '.', |name|, |stem|);
    assert name[|stem|..] == "." + ext;
  }

  /** A name whose only dot is its first character has no extension. */
  lemma ExtnameOfDotfile(ext: string)
    requires '.' !in ext
    ensures Extname("." + ext) == ""
  {
    var name := "." + ext;
    assert forall j :: 0 < j < |name| ==> name[j] == ext[j - 1];
    LastIndexBeforeAt(name, '.', |name|, 0);
  }
}
