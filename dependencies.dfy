/** Reading the one-line output of `ocamldep` and choosing, for each module
    it names, the source file in the same directory. */
module Dependencies {
  import opened Strings
  import opened Paths

  const CmoSuffix := ".cmo"

  /** `.map((x) => x.replace(".cmo", ""))`. */
  function StripCmo(tokens: seq<string>): (r: seq<string>)
    ensures |r| == |tokens|
  {
    if tokens == [] then [] else [ReplaceFirst(tokens[0], CmoSuffix, "")] + StripCmo(tokens[1..])
  }

  /** `.filter((a) => a !== "")`. */
  function NonEmpty(tokens: seq<string>): seq<string> {
    if tokens == [] then []
    else if tokens[0] == "" then NonEmpty(tokens[1..])
    else [tokens[0]] + NonEmpty(tokens[1..])
  }

  /** The module names in the text after the target's colon. */
  function Tokens(text: string): seq<string> {
    NonEmpty(StripCmo(Split(Trim(text), ' ')))
  }

  /** The parse in `compileDependenciesInThisDir`: split at `:`, and when
      there is a second piece read the module names from it. */
  function ParseDependencies(out: string): seq<string> {
    var parts := Split(out, ':');
    if |parts| > 1 then Tokens(parts[1]) else []
  }

  /** `<m>.re` when that file exists in the directory, `<m>.ml` otherwise. */
  function ResolveModule(fileExists: Path -> bool, dir: Path, m: string): (r: string)
    ensures r == m + ".re" || r == m + ".ml"
    ensures r == m + ".re" <==> fileExists(Join(dir, m + ".re"))
  {
    assert (m + ".ml")[|m| + 1] != (m + ".re")[|m| + 1];
    if fileExists(Join(dir, m + ".re")) then m + ".re" else m + ".ml"
  }

  function ResolveAll(fileExists: Path -> bool, dir: Path, modules: seq<string>): (r: seq<string>)
    ensures |r| == |modules|
  {
    if modules == [] then [] else [ResolveModule(fileExists, dir, modules[0])] + ResolveAll(fileExists, dir, modules[1..])
  }

  // ---------------------------------------------------------------------
  // Properties

  /** `.cmo` is stripped from each token, in place. */
  lemma {:induction false} StripCmoAt(tokens: seq<string>)
    ensures forall i :: 0 <= i < |tokens| ==> StripCmo(tokens)[i] == ReplaceFirst(tokens[i], CmoSuffix, "")
  {
    if tokens != [] {
      StripCmoAt(tokens[1..]);
    }
  }

  /** The filter keeps no empty token, and drops nothing from a list
      without one. */
  lemma {:induction false} NonEmptyFilters(tokens: seq<string>)
    ensures forall i :: 0 <= i < |NonEmpty(tokens)| ==> NonEmpty(tokens)[i] != ""
    ensures (forall i :: 0 <= i < |tokens| ==> tokens[i] != "") ==> NonEmpty(tokens) == tokens
  {
    if tokens != [] {
      NonEmptyFilters(tokens[1..]);
    }
  }

  /** The filter keeps every non-empty token as often as it occurs, and no
      empty one. */
  lemma {:induction false} NonEmptyCounts(tokens: seq<string>)
    ensures multiset(NonEmpty(tokens)) == multiset(tokens)["" := 0]
  {
    if tokens != [] {
      var t, rest := tokens[0], tokens[1..];
      NonEmptyCounts(rest);
      assert tokens == [t] + rest;
      assert multiset(tokens) == multiset{t} + multiset(rest);
      if t == "" {
        assert NonEmpty(tokens) == NonEmpty(rest);
      } else {
        assert NonEmpty(tokens) == [t] + NonEmpty(rest);
        assert multiset(tokens)["" := 0] == multiset{t} + multiset(rest)["" := 0];
      }
    }
  }

  /** The filter works token by token: filtering a concatenation filters
      each part, so the kept tokens stay in their order. */
  lemma {:induction false} NonEmptyAppend(a: seq<string>, b: seq<string>)
    ensures NonEmpty(a + b) == NonEmpty(a) + NonEmpty(b)
  {
    if a != [] {
      assert (a + b)[0] == a[0] && (a + b)[1..] == a[1..] + b;
      NonEmptyAppend(a[1..], b);
    } else {
      assert a + b == b;
    }
  }

  /** No module name read from the output is empty. */
  lemma ParsedNamesNonEmpty(out: string)
    ensures forall i :: 0 <= i < |ParseDependencies(out)| ==> ParseDependencies(out)[i] != ""
  {
    var parts := Split(out, ':');
    if |parts| > 1 {
      NonEmptyFilters(StripCmo(Split(Trim(parts[1]), ' ')));
    }
  }

  /** Each module is resolved on its own, in order. */
  lemma {:induction false} ResolveAllAt(fileExists: Path -> bool, dir: Path, modules: seq<string>)
    ensures forall i :: 0 <= i < |modules| ==>
              ResolveAll(fileExists, dir, modules)[i] == ResolveModule(fileExists, dir, modules[i])
  {
    if modules != [] {
      ResolveAllAt(fileExists, dir, modules[1..]);
    }
  }

  /** `CmoNames` appends `.cmo` to each name. */
  lemma {:induction false} CmoNamesAt(modules: seq<string>)
    ensures forall i :: 0 <= i < |modules| ==> CmoNames(modules)[i] == modules[i] + CmoSuffix
  {
    if modules != [] {
      CmoNamesAt(modules[1..]);
    }
  }

  /** Without a colon there are no dependencies. */
  lemma NoColonNoDependencies(out: string)
    requires ':' !in out
    ensures ParseDependencies(out) == []
  {
    SplitNoSeparator(out, ':');
  }

  /** Nothing but white space after the colon, as `ocamldep -one-line`
      prints for a file without dependencies (`Foo.cmo :`), gives no
      dependencies. */
  lemma NothingAfterColon(a: string, b: string)
    requires ':' !in a && AllWhitespace(b)
    ensures ParseDependencies(a + ":" + b) == []
  {
    assert a + ":" + b == a + [':'] + b;
    SplitAtFirst(a, ':', b);
    assert forall i :: 0 <= i < |b| ==> b[i] != ':';
    SplitNoSeparator(b, ':');
    assert Split(a + ":" + b, ':')[1] == b;
    assert b + "" == b;
    TrimAfterWhitespace(b, "");
    assert Split("", ' ') == [""];
    assert IndexOf("", CmoSuffix).None?;
    assert StripCmo([""]) == [""];
  }

  /** The trimmed listing of a file without dependencies. */
  lemma MainWithoutDependencies()
    ensures ParseDependencies("Main.cmo :") == []
  {
    NothingAfterColon("Main.cmo ", "");
    assert "Main.cmo " + ":" + "" == "Main.cmo :";
  }

  /** Only the text between the first and the second colon is read. */
  lemma ParseReadsSecondPiece(a: string, b: string, c: string)
    requires ':' !in a && ':' !in b
    ensures ParseDependencies(a + ":" + b) == Tokens(b)
    ensures ParseDependencies(a + ":" + b + ":" + c) == Tokens(b)
  {
    SplitAtFirst(a, ':', b);
    SplitNoSeparator(b, ':');
    SplitAtFirst(a, ':', b + ":" + c);
    SplitAtFirst(b, ':', c);
    assert a + ":" + b + ":" + c == a + [':'] + (b + [':'] + c);
  }

  /** A name `ocamldep` can print for a module: non-empty, without dots,
      blanks, colons or other white space. */
  predicate ModuleName(m: string) {
    m != "" && forall i :: 0 <= i < |m| ==> m[i] != '.' && m[i] != ':' && !IsWhitespace(m[i])
  }

  function CmoNames(modules: seq<string>): (r: seq<string>)
    ensures |r| == |modules|
  {
    if modules == [] then [] else [modules[0] + CmoSuffix] + CmoNames(modules[1..])
  }

  /** The line `ocamldep -one-line` prints for a target and its modules. */
  function DependencyLine(target: string, modules: seq<string>): string {
    target + ": " + JoinWith(CmoNames(modules), " ")
  }

  lemma StripOneCmo(m: string)
    requires ModuleName(m)
    ensures ReplaceFirst(m + CmoSuffix, CmoSuffix, "") == m
  {
    var s := m + CmoSuffix + "";
    assert s == m + CmoSuffix;
    forall j | 0 <= j < |m| ensures !OccursAt(s, CmoSuffix, j) {
      assert s[j] == m[j];
    }
    FirstOccurrenceAtJoin(m, CmoSuffix, "");
    ReplaceFirstAt(s, CmoSuffix, "", |m|);
    assert s[..|m|] == m;
  }

  lemma {:induction false} JoinedNamesTrimmed(names: seq<string>)
    requires |names| >= 1
    requires forall i :: 0 <= i < |names| ==> (|names[i]| >= 1 && !IsWhitespace(names[i][0])
                                                 && !IsWhitespace(names[i][|names[i]| - 1]))
    ensures Trimmed(JoinWith(names, " ")) && JoinWith(names, " ") != []
  {
    if |names| > 1 {
      JoinedNamesTrimmed(names[1..]);
    }
  }

  /** The module names read from the blank-separated `.cmo` names. */
  lemma {:induction false} TokensOfCmoNames(modules: seq<string>)
    requires forall i :: 0 <= i < |modules| ==> ModuleName(modules[i])
    ensures Tokens(" " + JoinWith(CmoNames(modules), " ")) == modules
  {
    var names := CmoNames(modules);
    var joined := JoinWith(names, " ");
    CmoNamesAt(modules);
    if modules == [] {
      TrimAfterWhitespace(" ", "");
      assert " " + joined == " " + "";
      assert Split("", ' ') == [""];
      assert StripCmo([""]) == [ReplaceFirst("", CmoSuffix, "")];
      ReplaceFirstAbsent("", CmoSuffix, "");
      assert ReplaceFirst("", CmoSuffix, "") == "";
    } else {
      forall i | 0 <= i < |names|
        ensures ' ' !in names[i] && |names[i]| >= 1
        ensures !IsWhitespace(names[i][0]) && !IsWhitespace(names[i][|names[i]| - 1])
      {
        assert names[i] == modules[i] + CmoSuffix;
        assert names[i][|names[i]| - 1] == 'o';
        assert names[i][0] == modules[i][0];
      }
      JoinedNamesTrimmed(names);
      TrimAfterWhitespace(" ", joined);
      SplitJoin(names, ' ');
      forall i | 0 <= i < |names| ensures ReplaceFirst(names[i], CmoSuffix, "") == modules[i] {
        StripOneCmo(modules[i]);
      }
      StripCmoAt(names);
      assert StripCmo(names) == modules;
      NonEmptyFilters(modules);
    }
  }

  /** Reading back the line printed for a list of modules gives that list,
      in order; an empty list prints `target: ` and reads back as none. */
  lemma ParseDependencyLine(target: string, modules: seq<string>)
    requires ':' !in target
    requires forall i :: 0 <= i < |modules| ==> ModuleName(modules[i])
    ensures ParseDependencies(DependencyLine(target, modules)) == modules
  {
    var names := CmoNames(modules);
    var joined := JoinWith(names, " ");
    CmoNamesAt(modules);
    forall i | 0 <= i < |names| ensures ':' !in names[i] {
      assert names[i] == modules[i] + CmoSuffix;
    }
    NoColonJoin(names);
    assert DependencyLine(target, modules) == target + ":" + (" " + joined);
    ParseReadsSecondPiece(target, " " + joined, "");
    TokensOfCmoNames(modules);
  }

  lemma NoColonJoin(names: seq<string>)
    requires forall i :: 0 <= i < |names| ==> ':' !in names[i]
    ensures ':' !in JoinWith(names, " ")
  {
  }

  /** Analyzer output `Main.cmo: Foo.cmo Bar.cmo` names `Foo` then `Bar`. */
  lemma MainFooBar()
    ensures ParseDependencies("Main.cmo: Foo.cmo Bar.cmo") == ["Foo", "Bar"]
  {
    assert ModuleName("Foo");
    assert ModuleName("Bar");
    assert "Foo" + CmoSuffix == "Foo.cmo" && "Bar" + CmoSuffix == "Bar.cmo";
    assert CmoNames(["Foo", "Bar"]) == ["Foo.cmo", "Bar.cmo"];
    assert JoinWith(["Foo.cmo", "Bar.cmo"], " ") == "Foo.cmo Bar.cmo";
    assert DependencyLine("Main.cmo", ["Foo", "Bar"]) == "Main.cmo: Foo.cmo Bar.cmo";
    ParseDependencyLine("Main.cmo", ["Foo", "Bar"]);
  }

  /** `Foo` and `Bar` are each resolved to their `.re` file when present
      and to their `.ml` file otherwise, in order. */
  lemma ResolveFooBar(fileExists: Path -> bool, dir: Path)
    ensures var files := ResolveAll(fileExists, dir, ["Foo", "Bar"]);
            && |files| == 2
            && files[0] == (if fileExists(Join(dir, "Foo.re")) then "Foo.re" else "Foo.ml")
            && files[1] == (if fileExists(Join(dir, "Bar.re")) then "Bar.re" else "Bar.ml")
  {
    assert "Foo" + ".re" == "Foo.re" && "Foo" + ".ml" == "Foo.ml";
    assert "Bar" + ".re" == "Bar.re" && "Bar" + ".ml" == "Bar.ml";
    ResolveAllAt(fileExists, dir, ["Foo", "Bar"]);
  }
}
