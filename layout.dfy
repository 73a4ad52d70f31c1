/** Where `compile` puts things: the build directory in the project's cache,
    the output file name, and the include paths derived from
    `melc -where`. */
module Layout {
  import opened Outcomes
  import opened Strings
  import opened Paths

  const CacheDir := ".cache"
  const ToolName := "webpack-reason-loader"
  const JsLibSegment := "lib/melange/js/melange"
  const DomLibSegment := "lib/melange/dom/melange"
  const BeltLibSegment := "lib/melange/belt/melange"

  /** `join(join(projectRoot, ".cache", "webpack-reason-loader"),
      relative(projectRoot, parentDir))`. */
  function BuildPath(root: Path, dir: Path): Path {
    var cachePath := Child(Child(root, CacheDir), ToolName);
    Join(cachePath, RelativeString(Relative(root, dir)))
  }

  /** `basename(file).replace(".re", ".js")`. */
  function OutputFileName(file: Path): string {
    ReplaceFirst(Basename(file), ".re", ".js")
  }

  /** `getMelangeLibPaths`: `melc -where` split at the platform's path
      delimiter. */
  function MelangeLibPaths(where: string, delimiter: char): seq<string> {
    Split(where, delimiter)
  }

  /** The include paths `[stdlib, js, dom, belt]`; `None` when `melc -where`
      lists fewer than two paths, where the source fails on `undefined`. */
  function IncludePaths(where: string, delimiter: char): (r: Option<seq<string>>)
    ensures r.Some? ==> |r.value| == 4
  {
    var parts := MelangeLibPaths(where, delimiter);
    if |parts| < 2 then None
    else
      var js := parts[1];
      Some([parts[0], js, ReplaceFirst(js, JsLibSegment, DomLibSegment),
            ReplaceFirst(js, JsLibSegment, BeltLibSegment)])
  }

  // ---------------------------------------------------------------------
  // Properties of the build path

  lemma CacheBase(root: Path)
    requires ValidPath(root)
    ensures Child(Child(root, CacheDir), ToolName) == root + [CacheDir, ToolName]
  {
    assert [CacheDir][1..] == [] && [ToolName][1..] == [];
    assert Child(root, CacheDir) == Resolve(Step(root, CacheDir), []) == root + [CacheDir];
    assert Child(root + [CacheDir], ToolName) == Resolve(Step(root + [CacheDir], ToolName), []);
  }

  lemma RelativeStringRoundTrip(base: Path, rel: seq<string>)
    requires forall i :: 0 <= i < |rel| ==> rel[i] != "" && '/' !in rel[i]
    ensures Join(base, RelativeString(rel)) == Resolve(base, rel)
  {
    if rel == [] {
      assert RelativeString(rel) == "";
      assert Split("", '/') == [""];
      assert Resolve(base, [""]) == Resolve(Step(base, ""), []);
    } else {
      SplitJoin(rel, '/');
    }
  }

  /** The build directory in closed form: `k` segments shared with the root,
      `n` levels up from the root; each level up removes one segment from
      the end of `<root>/.cache/webpack-reason-loader`. */
  lemma BuildPathClosedForm(root: Path, dir: Path)
    requires ValidPath(root) && ValidPath(dir)
    ensures var k := CommonPrefixLength(root, dir);
            var n := |root| - k;
            var base := root + [CacheDir, ToolName];
            BuildPath(root, dir) == base[..if n <= |base| then |base| - n else 0] + dir[k..]
  {
    var k := CommonPrefixLength(root, dir);
    var n := |root| - k;
    var rel := Relative(root, dir);
    RelativeSegments(root, dir);
    var cache := Child(Child(root, CacheDir), ToolName);
    CacheBase(root);
    RelativeStringRoundTrip(cache, rel);
    assert BuildPath(root, dir) == Resolve(cache, rel);
    assert ValidPath(dir[k..]);
    ResolveDots(root + [CacheDir, ToolName], n, dir[k..]);
  }

  /** Every segment of a relative path between normalised paths is `..` or
      a segment of the target: none is empty or holds a separator. */
  lemma RelativeSegments(from: Path, to: Path)
    requires ValidPath(to)
    ensures var rel := Relative(from, to);
            forall i :: 0 <= i < |rel| ==> rel[i] != "" && '/' !in rel[i]
  {
    var k := CommonPrefixLength(from, to);
    var n := |from| - k;
    var rel := Relative(from, to);
    DotsAreParents(n);
    forall i | 0 <= i < |rel| ensures rel[i] != "" && '/' !in rel[i] {
      if i < n {
        assert rel[i] == "..";
      } else {
        assert rel[i] == to[k + i - n];
      }
    }
  }

  /** For a directory inside the project the build directory is the same
      relative directory under `<root>/.cache/webpack-reason-loader`. */
  lemma BuildPathBelowRoot(root: Path, dir: Path)
    requires ValidPath(root) && ValidPath(dir)
    requires |root| <= |dir| && dir[..|root|] == root
    ensures BuildPath(root, dir) == root + [CacheDir, ToolName] + dir[|root|..]
  {
    BuildPathClosedForm(root, dir);
    assert forall i :: 0 <= i < |root| ==> root[i] == dir[i];
    var k := CommonPrefixLength(root, dir);
    CommonPrefix(root, dir);
    assert k == |root|;
    var base := root + [CacheDir, ToolName];
    assert base[..|base| - 0] == base;
  }

  /** Different directories of the project get different build directories. */
  lemma BuildPathInjective(root: Path, dir1: Path, dir2: Path)
    requires ValidPath(root) && ValidPath(dir1) && ValidPath(dir2)
    requires |root| <= |dir1| && dir1[..|root|] == root
    requires |root| <= |dir2| && dir2[..|root|] == root
    requires BuildPath(root, dir1) == BuildPath(root, dir2)
    ensures dir1 == dir2
  {
    BuildPathBelowRoot(root, dir1);
    BuildPathBelowRoot(root, dir2);
    var base := root + [CacheDir, ToolName];
    assert dir1[|root|..] == BuildPath(root, dir1)[|base|..];
    assert dir2[|root|..] == BuildPath(root, dir2)[|base|..];
    assert dir1 == dir1[..|root|] + dir1[|root|..];
    assert dir2 == dir2[..|root|] + dir2[|root|..];
  }

  /** A source directory two or more levels outside the project root is
      given a build directory outside the cache: the `..` segments climb out
      of `.cache/webpack-reason-loader` into the root's ancestors (for root
      `/p/app` and directory `/q`, the build directory is `/p/app/q`). */
  lemma BuildPathOutsideRoot(root: Path, dir: Path)
    requires ValidPath(root) && ValidPath(dir)
    requires |root| - CommonPrefixLength(root, dir) >= 2
    ensures var k := CommonPrefixLength(root, dir);
            BuildPath(root, dir) == root[..k + 2] + dir[k..]
  {
    BuildPathClosedForm(root, dir);
    var k := CommonPrefixLength(root, dir);
    var base := root + [CacheDir, ToolName];
    assert |base| - (|root| - k) == k + 2;
    assert base[..k + 2] == root[..k + 2];
  }

  // ---------------------------------------------------------------------
  // Properties of the output name

  /** A Reason file `<stem>.re` compiles to `<stem>.js` when `.re` does not
      occur earlier in its name. */
  lemma OutputOfReasonFile(dir: Path, stem: string)
    requires forall j :: !OccursAt(stem, ".re", j)
    ensures OutputFileName(dir + [stem + ".re"]) == stem + ".js"
  {
    var name := stem + ".re" + "";
    assert name == stem + ".re";
    forall j | 0 <= j < |stem| ensures !OccursAt(name, ".re", j) {
      if j + 3 <= |stem| {
        assert name[j..j + 3] == stem[j..j + 3];
        assert !OccursAt(stem, ".re", j);
      } else if j + 2 == |stem| {
        assert name[j..j + 3][2] == '.' != ".re"[2];
      } else {
        assert name[j..j + 3][1] == '.' != ".re"[1];
      }
    }
    FirstOccurrenceAtJoin(stem, ".re", "");
    ReplaceFirstAt(name, ".re", ".js", |stem|);
    assert name[..|stem|] == stem;
  }

  /** A name in which `.re` does not occur, such as `Foo.ml`, is its own
      output name. */
  lemma OutputWithoutReUnchanged(dir: Path, name: string)
    requires forall j :: !OccursAt(name, ".re", j)
    ensures OutputFileName(dir + [name]) == name
  {
    ReplaceFirstAbsent(name, ".re", ".js");
  }

  /** Only the first `.re` is replaced, wherever it is. */
  lemma OutputReplacesFirstOnly()
    ensures OutputFileName(["src", "a.resolve.re"]) == "a.jssolve.re"
  {
    var name := "a.resolve.re";
    assert name[0] == 'a';
    assert !OccursAt(name, ".re", 0);
    assert OccursAt(name, ".re", 1);
    assert FirstOccurrence(name, ".re", 1);
    assert name[..1] + ".js" + name[4..] == "a.jssolve.re";
  }

  // ---------------------------------------------------------------------
  // Properties of the include paths

  /** `getMelangeLibPaths` loses nothing: the parts hold no delimiter, and
      joining them with it gives back the `melc -where` output. */
  lemma MelangeLibPathsRoundTrip(where: string, delimiter: char)
    ensures var parts := MelangeLibPaths(where, delimiter);
            && |parts| >= 1
            && (forall i :: 0 <= i < |parts| ==> delimiter !in parts[i])
            && JoinWith(parts, [delimiter]) == where
  {
    SplitPiecesFree(where, delimiter);
    JoinSplit(where, delimiter);
  }

  /** The paths are defined exactly when the delimiter occurs in the
      `melc -where` output. */
  lemma IncludePathsDefined(where: string, delimiter: char)
    ensures IncludePaths(where, delimiter).Some? <==> delimiter in where
  {
    SplitCount(where, delimiter);
  }

  /** For `melc -where` printing the paths `xs`, the include paths are the
      first two and the second with its first `lib/melange/js/melange`
      replaced by the dom and the belt directories. */
  lemma IncludePathsOfList(xs: seq<string>, delimiter: char)
    requires |xs| >= 2
    requires forall i :: 0 <= i < |xs| ==> delimiter !in xs[i]
    ensures IncludePaths(JoinWith(xs, [delimiter]), delimiter)
         == Some([xs[0], xs[1], ReplaceFirst(xs[1], JsLibSegment, DomLibSegment),
                  ReplaceFirst(xs[1], JsLibSegment, BeltLibSegment)])
  {
    SplitJoin(xs, delimiter);
  }

  /** The dom and belt paths differ from the js path only at its first
      `lib/melange/js/melange`. */
  lemma SiblingLibraries(where: string, delimiter: char, u: string, v: string)
    requires IncludePaths(where, delimiter).Some?
    requires IncludePaths(where, delimiter).value[1] == u + JsLibSegment + v
    requires forall j :: 0 <= j < |u| ==> !OccursAt(u + JsLibSegment + v, JsLibSegment, j)
    ensures IncludePaths(where, delimiter).value[2] == u + DomLibSegment + v
    ensures IncludePaths(where, delimiter).value[3] == u + BeltLibSegment + v
  {
    var js := u + JsLibSegment + v;
    FirstOccurrenceAtJoin(u, JsLibSegment, v);
    ReplaceFirstAt(js, JsLibSegment, DomLibSegment, |u|);
    ReplaceFirstAt(js, JsLibSegment, BeltLibSegment, |u|);
    assert js[..|u|] == u && js[|u| + |JsLibSegment|..] == v;
  }
}
