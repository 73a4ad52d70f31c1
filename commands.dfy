/** The command lines the loader hands to the shell: the include-flag base
    shared by both tools, the compiler command and the dependency-listing
    command. */
module Commands {
  import opened Strings
  import Paths

  const PpxFlag := "-ppx melppx"
  const PpFlag := "-pp \"refmt --print binary\""

  /** The two concrete syntaxes, told apart by the input's extension. */
  datatype Syntax = Reason | OCaml

  /** `/.rei?$/` matches `x` at index `i`. The dot of the pattern is not
      escaped, so it stands for any character but a line terminator. */
  predicate MatchesAt(x: string, i: int) {
    && 0 <= i && i + 3 <= |x|
    && !IsLineTerminator(x[i]) && x[i + 1] == 'r' && x[i + 2] == 'e'
    && (i + 3 == |x| || (i + 4 == |x| && x[i + 3] == 'i'))
  }

  predicate IsLineTerminator(c: char) {
    c == '\n' || c == '\r' || c == '\U{2028}' || c == '\U{2029}'
  }

  /** What `/.rei?$/.test(ext)` means: the pattern matches at some index. */
  predicate RegexTest(ext: string) {
    exists i | 0 <= i < |ext| :: MatchesAt(ext, i)
  }

  /** `/.rei?$/.test(ext)`, decided at the end of `ext`, the only place the
      anchored pattern can match: a character other than a line terminator
      followed by `re` or `rei`. */
  predicate IsReasonExtension(ext: string) {
    var n := |ext|;
    || (n >= 3 && !IsLineTerminator(ext[n - 3]) && ext[n - 2] == 'r' && ext[n - 1] == 'e')
    || (n >= 4 && !IsLineTerminator(ext[n - 4]) && ext[n - 3] == 'r' && ext[n - 2] == 'e' && ext[n - 1] == 'i')
  }

  /** The syntax chosen from `path.extname(input)`. */
  function SyntaxOf(input: string): Syntax {
    if IsReasonExtension(Paths.ExtnameOfPath(input)) then Reason else OCaml
  }

  function PpOf(syntax: Syntax): string {
    if syntax == Reason then PpFlag else ""
  }

  function ImplOf(syntax: Syntax, input: string): string {
    if syntax == Reason then "-impl " + input else ""
  }

  /** `-I <path>` with the path trimmed. */
  function IncludeFlag(p: string): string {
    "-I " + Trim(p)
  }

  /** `includePaths.map((p) => "-I " + p.trim())`. */
  function IncludeFlags(paths: seq<string>): (r: seq<string>)
    ensures |r| == |paths|
  {
    if paths == [] then [] else [IncludeFlag(paths[0])] + IncludeFlags(paths[1..])
  }

  /** `CommonCompilerCommand.render`. */
  function CommonRender(cmd: string, includePaths: seq<string>): string {
    cmd + " " + JoinWith(IncludeFlags(includePaths), " ") + " " + PpxFlag
  }

  /** `MelcCommand.render(input, output)`. */
  function MelcRender(melc: string, includePaths: seq<string>, dependencies: seq<string>,
                      input: string, output: string): string
  {
    var syntax := SyntaxOf(input);
    var deps := if |dependencies| > 0 then "-I ." else "";
    CommonRender(melc, includePaths) + " " + PpOf(syntax) + " " + ImplOf(syntax, input)
      + " " + deps + " -o " + output
  }

  /** `OCamlDepCommand.render(input)`. */
  function OcamldepRender(cmd: string, includePaths: seq<string>, input: string): string {
    var syntax := SyntaxOf(input);
    CommonRender(cmd, includePaths) + " -bytecode -one-line " + PpOf(syntax)
      + " -ml-synonym .re -mli-synonym .rei " + ImplOf(syntax, input)
  }

  // ---------------------------------------------------------------------
  // Properties

  /** One flag per include path, in order. */
  lemma {:induction false} IncludeFlagsAt(paths: seq<string>)
    ensures forall i :: 0 <= i < |paths| ==> IncludeFlags(paths)[i] == IncludeFlag(paths[i])
  {
    if paths != [] {
      IncludeFlagsAt(paths[1..]);
    }
  }

  /** The test at the end agrees with the regular expression's meaning. */
  lemma ReasonTestIsRegex(ext: string)
    ensures RegexTest(ext) <==> IsReasonExtension(ext)
  {
    var n := |ext|;
    if IsReasonExtension(ext) {
      if n >= 3 && !IsLineTerminator(ext[n - 3]) && ext[n - 2] == 'r' && ext[n - 1] == 'e' {
        assert MatchesAt(ext, n - 3);
      } else {
        assert MatchesAt(ext, n - 4);
      }
    }
  }

  /** The regular expression accepts `.re` and `.rei` and rejects `.ml`,
      `.mli` and no extension; because its dot is unescaped it also accepts
      any extension ending in a character and `re`. */
  lemma ReasonExtensions()
    ensures RegexTest(".re") && RegexTest(".rei")
    ensures !RegexTest(".ml") && !RegexTest(".mli") && !RegexTest("")
    ensures RegexTest(".pre") && RegexTest(".core")
  {
    ReasonTestIsRegex(".re");
    ReasonTestIsRegex(".rei");
    ReasonTestIsRegex(".ml");
    ReasonTestIsRegex(".mli");
    ReasonTestIsRegex("");
    ReasonTestIsRegex(".pre");
    ReasonTestIsRegex(".core");
  }

  /** The base command is the space-joined list of its words: the command,
      one `-I` flag per include path in order, then `-ppx melppx`; with no
      include paths the empty flag list leaves two spaces. */
  lemma CommonRenderWords(cmd: string, includePaths: seq<string>)
    ensures includePaths != [] ==>
      CommonRender(cmd, includePaths) == JoinWith([cmd] + IncludeFlags(includePaths) + [PpxFlag], " ")
    ensures includePaths == [] ==> CommonRender(cmd, includePaths) == cmd + "  " + PpxFlag
  {
    if includePaths != [] {
      var flags := IncludeFlags(includePaths);
      JoinWithAppend([cmd], flags, " ");
      JoinWithAppend([cmd] + flags, [PpxFlag], " ");
    }
  }

  /** The compiler command adds `-I .` exactly when there are dependencies:
      otherwise the two commands are the same text without it. */
  lemma MelcDependencyFlag(melc: string, includePaths: seq<string>, dependencies: seq<string>,
                           input: string, output: string)
    ensures var syntax := SyntaxOf(input);
            var before := CommonRender(melc, includePaths) + " " + PpOf(syntax) + " "
                          + ImplOf(syntax, input) + " ";
            var after := " -o " + output;
            && MelcRender(melc, includePaths, dependencies, input, output)
               == before + (if |dependencies| > 0 then "-I ." else "") + after
            && MelcRender(melc, includePaths, [], input, output) == before + after
  {
  }

  /** A file of OCaml syntax is not named by its own compiler command: the
      command is the same for every such input (only the output differs). */
  lemma OCamlCommandOmitsInput(melc: string, includePaths: seq<string>, dependencies: seq<string>,
                               input1: string, input2: string, output: string)
    requires SyntaxOf(input1) == OCaml && SyntaxOf(input2) == OCaml
    ensures MelcRender(melc, includePaths, dependencies, input1, output)
         == MelcRender(melc, includePaths, dependencies, input2, output)
  {
  }

  /** The dependency-listing command of a Reason file with no include paths,
      as the loader issues it. */
  lemma OcamldepReasonCommand(cmd: string, input: string)
    requires SyntaxOf(input) == Reason
    ensures OcamldepRender(cmd, [], input)
         == cmd + "  " + PpxFlag + " -bytecode -one-line " + PpFlag
            + " -ml-synonym .re -mli-synonym .rei " + "-impl " + input
  {
    CommonRenderWords(cmd, []);
  }
}
