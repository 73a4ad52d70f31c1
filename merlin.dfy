/** The `.merlin` editor configuration the loader keeps per source
    directory: source/build directory pairs, compiler flags and packages. */
module Merlin {
  import opened Strings

  /** One `{S, B}` entry: a source directory and its build directory. */
  datatype SourcePair = SourcePair(S: string, B: string)

  /** The value of a configuration record. `files` is a JavaScript `Set` of
      object literals; a fresh literal is never already present, so the set
      behaves as a list that only grows. `pkgs` is a `Set` of strings, kept
      in insertion order. */
  datatype MerlinConfig = MerlinConfig(files: seq<SourcePair>, flags: seq<string>, pkgs: seq<string>)

  const StarterFlags: seq<string> := ["-ppx melppx"]
  const StarterPkgs: seq<string> := ["melange", "melange.js", "melange.dom", "melange.belt"]
  const StarterConfig := MerlinConfig([], StarterFlags, StarterPkgs)

  /** What one compile does to a record: one more source/build pair and the
      include flags appended to the flags. */
  function AddCompile(m: MerlinConfig, pair: SourcePair, includeFlags: seq<string>): MerlinConfig {
    m.(files := m.files + [pair], flags := m.flags + includeFlags)
  }

  function PairEntries(files: seq<SourcePair>): (r: seq<string>)
    ensures |r| == |files|
  {
    if files == [] then [] else ["S " + files[0].S + "\nB " + files[0].B] + PairEntries(files[1..])
  }

  function FlagEntries(flags: seq<string>): (r: seq<string>)
    ensures |r| == |flags|
  {
    if flags == [] then [] else ["FLG " + flags[0]] + FlagEntries(flags[1..])
  }

  function PkgLine(pkgs: seq<string>): string {
    "PKG " + JoinWith(pkgs, " ")
  }

  /** `renderMerlinFile`: one entry per pair, one per flag, then the
      package line, joined by newlines. */
  function RenderMerlin(m: MerlinConfig): string {
    JoinWith(PairEntries(m.files) + FlagEntries(m.flags) + [PkgLine(m.pkgs)], "\n")
  }

  // ---------------------------------------------------------------------
  // The grammar of the rendered file, line by line

  function PairLines(files: seq<SourcePair>): (r: seq<string>)
    ensures |r| == 2 * |files|
  {
    if files == [] then [] else ["S " + files[0].S, "B " + files[0].B] + PairLines(files[1..])
  }

  /** One `FLG` line per flag, in order. */
  lemma {:induction false} FlagEntriesAt(flags: seq<string>)
    ensures forall i :: 0 <= i < |flags| ==> FlagEntries(flags)[i] == "FLG " + flags[i]
  {
    if flags != [] {
      FlagEntriesAt(flags[1..]);
    }
  }

  /** Pair `i` gives lines `2 i` (`S`) and `2 i + 1` (`B`). */
  lemma {:induction false} PairLinesAt(files: seq<SourcePair>)
    ensures var r := PairLines(files);
            forall i :: 0 <= i < |files| ==> r[2 * i] == "S " + files[i].S && r[2 * i + 1] == "B " + files[i].B
  {
    if files != [] {
      PairLinesAt(files[1..]);
      var rest := PairLines(files[1..]);
      var r := PairLines(files);
      assert forall i :: 1 <= i < |files| ==> r[2 * i] == rest[2 * (i - 1)] && r[2 * i + 1] == rest[2 * (i - 1) + 1];
    }
  }

  /** The lines of a `.merlin` file: `S`/`B` per pair in insertion order,
      `FLG` per flag in order (duplicates kept), one final `PKG` line. */
  function MerlinLines(m: MerlinConfig): seq<string> {
    PairLines(m.files) + FlagEntries(m.flags) + [PkgLine(m.pkgs)]
  }

  predicate NoNewline(s: string) {
    '\n' !in s
  }

  /** No directory, flag or package name holds a line break. */
  predicate SingleLineFields(m: MerlinConfig) {
    && (forall i :: 0 <= i < |m.files| ==> NoNewline(m.files[i].S) && NoNewline(m.files[i].B))
    && (forall i :: 0 <= i < |m.flags| ==> NoNewline(m.flags[i]))
    && (forall i :: 0 <= i < |m.pkgs| ==> NoNewline(m.pkgs[i]))
  }

  lemma {:induction false} PairEntriesAreLines(files: seq<SourcePair>, rest: seq<string>)
    requires |rest| >= 1
    ensures JoinWith(PairEntries(files) + rest, "\n") == JoinWith(PairLines(files) + rest, "\n")
  {
    if files != [] {
      var s, b := "S " + files[0].S, "B " + files[0].B;
      var entries := PairEntries(files[1..]) + rest;
      var lines := PairLines(files[1..]) + rest;
      PairEntriesAreLines(files[1..], rest);
      assert "S " + files[0].S + "\nB " + files[0].B == s + "\n" + b;
      assert PairEntries(files) + rest == [s + "\n" + b] + entries;
      assert PairLines(files) + rest == [s] + ([b] + lines);
      JoinWithCons(s + "\n" + b, entries, "\n");
      JoinWithCons(b, lines, "\n");
      JoinWithCons(s, [b] + lines, "\n");
    }
  }

  lemma NoNewlineJoin(xs: seq<string>, sep: string)
    requires NoNewline(sep) && forall i :: 0 <= i < |xs| ==> NoNewline(xs[i])
    ensures NoNewline(JoinWith(xs, sep))
  {
  }

  /** Splitting the rendered file at line breaks gives exactly the lines of
      the grammar: `2 * |files| + |flags| + 1` of them. */
  lemma RenderMerlinLines(m: MerlinConfig)
    requires SingleLineFields(m)
    ensures Split(RenderMerlin(m), '\n') == MerlinLines(m)
    ensures |Split(RenderMerlin(m), '\n')| == 2 * |m.files| + |m.flags| + 1
  {
    var rest := FlagEntries(m.flags) + [PkgLine(m.pkgs)];
    PairEntriesAreLines(m.files, rest);
    assert PairEntries(m.files) + FlagEntries(m.flags) + [PkgLine(m.pkgs)] == PairEntries(m.files) + rest;
    assert MerlinLines(m) == PairLines(m.files) + rest;
    NoNewlineJoin(m.pkgs, " ");
    PairLinesAt(m.files);
    FlagEntriesAt(m.flags);
    var lines := MerlinLines(m);
    forall i | 0 <= i < |lines| ensures '\n' !in lines[i] {
      if i < 2 * |m.files| {
        assert lines[i] == PairLines(m.files)[i];
        if i % 2 == 0 {
          assert lines[i] == "S " + m.files[i / 2].S;
        } else {
          assert lines[i] == "B " + m.files[i / 2].B;
        }
      } else if i < 2 * |m.files| + |m.flags| {
        assert lines[i] == "FLG " + m.flags[i - 2 * |m.files|];
      } else {
        assert lines[i] == PkgLine(m.pkgs);
      }
    }
    SplitJoin(lines, '\n');
  }

  /** One mutable configuration record (`starterMerlinFile` and whatever
      the registry holds). */
  class MerlinFile {
    var files: seq<SourcePair>
    var flags: seq<string>
    var pkgs: seq<string>

    function Config(): MerlinConfig
      reads this
    {
      MerlinConfig(files, flags, pkgs)
    }

    /** The starter template: no pairs, `-ppx melppx`, the four melange
        packages. */
    constructor Starter()
      ensures Config() == StarterConfig
    {
      files := [];
      flags := StarterFlags;
      pkgs := StarterPkgs;
    }

    /** `files.add({S, B})`. */
    method AddFile(pair: SourcePair)
      modifies this
      ensures files == old(files) + [pair]
      ensures flags == old(flags) && pkgs == old(pkgs)
    {
      files := files + [pair];
    }

    /** `flags = flags.concat(extra)`. */
    method ConcatFlags(extra: seq<string>)
      modifies this
      ensures flags == old(flags) + extra
      ensures files == old(files) && pkgs == old(pkgs)
    {
      flags := flags + extra;
    }
  }
}
