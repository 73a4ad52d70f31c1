# reason-loader in Dafny

A Dafny model of `index.js`, the webpack loader that compiles one Reason or
OCaml source file to JavaScript with Melange. The model covers four parts of
the loader:

- **Command rendering.** `CommonCompilerCommand`, `MelcCommand` and
  `OCamlDepCommand` render their command strings (module `Commands`).
- **Dependency parsing and resolution.** `compileDependenciesInThisDir` parses
  the one-line `target: Dep.cmo …` output of `ocamldep` and maps each module
  to `<m>.re` or `<m>.ml` (module `Dependencies`).
- **Path derivation in `compile`.** This covers the build directory under
  `.cache/webpack-reason-loader`, the output file name, and the four include
  paths derived from `melc -where` (module `Layout`). Node's `path` functions
  live in module `Paths`. JavaScript's `split`, `trim`, `join` and first-match
  `replace` live in module `Strings`.
- **The `.merlin` accumulator.** `MerlinFileMap` and the one shared
  `starterMerlinFile` object are modelled, as is `renderMerlinFile` (module
  `Merlin`).

Module `Loader` holds the recursive `compile` itself.

- **The class `ReasonLoader`.** It holds the loader's module-level state:
  - the registry, as a map from directory to `MerlinFile` object;
  - the starter object;
  - a trace of the effects on the outside world: directory creation, shell
    runs and `.merlin` writes.
- **`Valid()`.** Its invariant says that every registered record is the
  starter object itself. This is the aliasing of the source:
  `getMerlinFileForParentDir` hands out the starter rather than a copy, so all
  directories share one record.
- **The specification functions.** The methods that run `compile` and its
  parts are each proved equal to one of them (`CompileSpec`,
  `DependenciesSpec`, `CompileEachSpec`, …). The registry methods
  `GetMerlinFileForParentDir` and `UpdateMerlinFile` instead state their
  result and the new state directly. The specification functions are
  mutually recursive pure functions on a `LoaderState` value: the registered
  directories, the value of the shared record, and the trace.
- **Module `LoaderProperties`.** It proves properties about those functions.

The shell, `fs.existsSync`, the platform's path delimiter and the artifact
that `melc` writes are given by an `Env` value:

- `exec(cwd, cmd)` returns the output or the failure;
- `fileExists` is the existence test;
- `delimiter` is the path delimiter;
- `readFile` gives the artifact's contents.

The source recurses without a cycle check. The model bounds the nesting depth
of compiles by `fuel`, and a compile that reaches the bound ends in
`OutOfFuel`.

Four behaviours of the code are easy to miss, and the model keeps them:

- **One record for all directories.** Every directory that has no record yet
  gets the one `starterMerlinFile` object. So all directories share one
  record, and each `.merlin` lists the pairs and flags of every directory
  compiled so far.
- **Output file name.** The code replaces the first `.re` anywhere in the
  base name, so `a.resolve.re` becomes `a.jssolve.re`. A `.ml` name is left
  unchanged.
- **Repeated compiles.** Nothing remembers what was compiled. A dependency is
  compiled again every time some file lists it.
- **Reason syntax test.** The test `/.rei?$/` has an unescaped dot, so
  `.pre` and `.core` count as Reason syntax.

## Model

| member | source | states |
|---|---|---|
| Strings.TrimIsSlice | index.js:6 | `trim` removes white space from the two ends only: the result is a slice of the input with only white space around it |
| Strings.TrimTrimmed | index.js:6 | the result of `trim` starts and ends with a character that is not white space, and a string already like that is unchanged |
| Strings.SplitPiecesFree | index.js:84 | no piece of `split(c)` holds `c` |
| Strings.JoinSplit | index.js:10 | joining the pieces of `split(c)` with `c` gives back the string |
| Strings.SplitJoin | index.js:84-89 | splitting a join of separator-free pieces gives back the pieces |
| Strings.ReplaceFirstAt | index.js:90 | `replace` with a string pattern replaces exactly its first occurrence |
| Strings.ReplaceFirstAbsent | index.js:141 | without an occurrence of the pattern, `replace` changes nothing |
| Paths.ResolveValid | index.js:137 | `path.join` of segments without separators onto a normalised path gives a normalised path |
| Paths.JoinRelative | index.js:135-137 | `path.join(from, path.relative(from, to))` is `to` |
| Paths.RelativeBelow | index.js:135 | `path.relative` of a directory below `from` is the directory's extra segments |
| Paths.ChildIsJoin | index.js:197 | for a name without a separator, such as `.merlin`, the one-segment join the model uses is `path.join` of that name |
| Paths.JoinName | index.js:103 | joining a plain file name onto the directory appends it as exactly one segment |
| Paths.ExtnameOfPathIsExtname | index.js:54 | `path.extname` of a path string is the extension of its base name |
| Paths.ExtnameOfDotted | index.js:54 | the extension of `stem.ext`, for a non-empty stem and a dot-free `ext`, is `.ext` |
| Paths.ExtnameOfDotfile | index.js:54 | a name whose only dot is its first character (`.bashrc`) has no extension |
| Commands.CommonRender | index.js:40-45 | `CommonCompilerCommand.render`; its word structure is stated by `CommonRenderWords` |
| Commands.SyntaxOf | index.js:54 | the syntax chosen from `path.extname`; `ReasonTestIsRegex` shows it is the regex test |
| Commands.MelcRender | index.js:53-61 | `MelcCommand.render`; `MelcDependencyFlag` and `OCamlCommandOmitsInput` state its shape |
| Commands.OcamldepRender | index.js:68-76 | `OCamlDepCommand.render`; `OcamldepReasonCommand` gives its text for a Reason file |
| Commands.IncludeFlagsAt | index.js:41-43 | flag `i` is `-I ` followed by the trimmed include path `i`, one flag per path, in order |
| Commands.ReasonTestIsRegex | index.js:54 | `/.rei?$/` matches somewhere in the extension iff the extension ends in a character other than a line terminator followed by `re` or `rei` (both directions) |
| Commands.ReasonExtensions | index.js:54 | `.re` and `.rei` are Reason syntax; `.ml`, `.mli` and no extension are not; with the unescaped dot, `.pre` and `.core` are too |
| Commands.CommonRenderWords | index.js:40-45 | the base render is the command, the include flags and `-ppx melppx` joined by single spaces; with no include paths it is the command, two spaces, `-ppx melppx` |
| Commands.MelcDependencyFlag | index.js:53-61 | the `melc` command carries `-I .` exactly when the dependency list is non-empty, and otherwise is the same command; it always ends in ` -o <output>` |
| Commands.OCamlCommandOmitsInput | index.js:53-61 | for a file not in Reason syntax neither `-pp` nor `-impl` is emitted, so the command does not depend on the input path at all |
| Commands.OcamldepReasonCommand | index.js:68-76 | the `ocamldep` command for a Reason file with no include paths, word for word: `-bytecode -one-line`, the `refmt` preprocessor, the `.re`/`.rei` synonyms, `-impl <file>` |
| Dependencies.ParseDependencies | index.js:84-91 | the parse of the listing; `ParseDependencyLine` is its round trip, and `NoColonNoDependencies`, `NothingAfterColon` and `ParseReadsSecondPiece` give its edge cases |
| Dependencies.StripCmoAt | index.js:90 | token `i` of the split keeps its place and loses its first `.cmo` only |
| Dependencies.NonEmptyFilters | index.js:91 | the filter leaves no empty name, and leaves a list without empty names unchanged |
| Dependencies.NonEmptyCounts | index.js:91 | the filter keeps every non-empty token as many times as it occurs, and drops every empty one |
| Dependencies.NonEmptyAppend | index.js:91 | filtering a concatenation filters each part, so the kept tokens stay in their order |
| Dependencies.ParsedNamesNonEmpty | index.js:84-91 | no parsed module name is empty |
| Dependencies.NoColonNoDependencies | index.js:84-86 | output without a `:` has no dependencies |
| Dependencies.NothingAfterColon | index.js:84-91 | output with only white space after its colon, as `ocamldep` prints for a file without dependencies, has no dependencies |
| Dependencies.MainWithoutDependencies | index.js:84-91 | `Main.cmo :` parses to no dependencies |
| Dependencies.ParseReadsSecondPiece | index.js:84-91 | only the text between the first and the second `:` is read |
| Dependencies.StripOneCmo | index.js:90 | removing the first `.cmo` from `<m>.cmo` gives back the module name `m` |
| Dependencies.TokensOfCmoNames | index.js:87-91 | trimming, splitting at spaces, stripping `.cmo` and dropping empties recovers the module names from ` M1.cmo M2.cmo …` in order |
| Dependencies.ParseDependencyLine | index.js:84-91 | round trip: parsing the `ocamldep` line `target: M1.cmo … Mn.cmo` gives back `[M1, …, Mn]` |
| Dependencies.MainFooBar | index.js:84-91 | `Main.cmo: Foo.cmo Bar.cmo` parses to `["Foo", "Bar"]` |
| Dependencies.ResolveModule | index.js:93-99 | a module resolves to `<m>.re` or `<m>.ml`, and to `<m>.re` exactly when that file exists in the directory |
| Dependencies.ResolveAllAt | index.js:92-99 | resolution keeps the order and the number of the module names, entry by entry |
| Dependencies.ResolveFooBar | index.js:92-99 | `Foo` and `Bar` resolve, in that order, to their `.re` file when it exists and to their `.ml` file otherwise |
| Layout.MelangeLibPaths | index.js:9-11 | `getMelangeLibPaths`; `MelangeLibPathsRoundTrip` states what it keeps |
| Layout.MelangeLibPathsRoundTrip | index.js:9-11 | the parts hold no delimiter, there is at least one, and joining them with the delimiter gives back the `melc -where` output |
| Layout.IncludePaths | index.js:145-163 | when defined, there are exactly four include paths |
| Layout.IncludePathsDefined | index.js:146-157 | the include paths are defined iff the `melc -where` output contains the delimiter, that is, has a second part; otherwise the source fails on `undefined` |
| Layout.IncludePathsOfList | index.js:145-163 | for `melc -where` output listing `p0, p1, …`, the include paths are `[p0, p1, dom, belt]`, where dom and belt are `p1` with its first `lib/melange/js/melange` replaced |
| Layout.SiblingLibraries | index.js:152-157 | when the js path is `u + lib/melange/js/melange + v` with no earlier occurrence, the dom and belt paths are `u + lib/melange/dom/melange + v` and `u + lib/melange/belt/melange + v` |
| Layout.BuildPath | index.js:134-137 | the build path; `BuildPathClosedForm`, `BuildPathBelowRoot`, `BuildPathInjective` and `BuildPathOutsideRoot` characterise it |
| Layout.OutputFileName | index.js:141 | the output file name; `OutputOfReasonFile`, `OutputWithoutReUnchanged` and `OutputReplacesFirstOnly` characterise it |
| Layout.CacheBase | index.js:136 | the cache directory is the project root followed by `.cache` and `webpack-reason-loader` |
| Layout.RelativeStringRoundTrip | index.js:135-137 | joining the rendered relative path onto a base resolves its segments against that base |
| Layout.BuildPathClosedForm | index.js:134-137 | the build path is the cache directory, with one segment removed for each `..` of the relative path, followed by the part of the source directory below the common prefix |
| Layout.BuildPathBelowRoot | index.js:134-137 | for a directory inside the project root, the build path is the cache directory followed by the directory's segments below the root |
| Layout.BuildPathInjective | index.js:134-137 | two directories inside the root with the same build path are the same directory |
| Layout.BuildPathOutsideRoot | index.js:134-137 | for a directory that leaves the root by two or more levels, the `..` segments climb out of `.cache/webpack-reason-loader`, and the build path is the first `k + 2` root segments followed by the directory below the common prefix `k` |
| Layout.OutputOfReasonFile | index.js:141 | `<stem>.re`, where the stem holds no `.re`, gives `<stem>.js` |
| Layout.OutputWithoutReUnchanged | index.js:141 | a base name without `.re` (such as `<m>.ml`) is the output name unchanged |
| Layout.OutputReplacesFirstOnly | index.js:141 | only the first `.re` is replaced: `a.resolve.re` gives `a.jssolve.re` |
| Merlin.RenderMerlin | index.js:25-33 | `renderMerlinFile`; `RenderMerlinLines` states the lines it produces |
| Merlin.FlagEntriesAt | index.js:30 | one `FLG <flag>` entry per flag, in order, duplicates kept |
| Merlin.PairLinesAt | index.js:26-29 | pair `i` gives line `2i`, `S <dir>`, and line `2i+1`, `B <build dir>`, in insertion order |
| Merlin.PairEntriesAreLines | index.js:26-32 | joining the `S …\nB …` entries with newlines is joining the separate `S` and `B` lines |
| Merlin.RenderMerlinLines | index.js:25-33 | splitting the rendered file at newlines gives exactly the `S`/`B` lines, the `FLG` lines and one final `PKG` line: `2·pairs + flags + 1` lines, no trailing newline |
| Merlin.MerlinFile.Starter | index.js:14-18 | the starter record has no pairs, the flag `-ppx melppx` and the four melange packages |
| Merlin.MerlinFile.AddFile | index.js:189-192 | `files.add` appends the pair, with no deduplication, and leaves the flags and packages alone |
| Merlin.MerlinFile.ConcatFlags | index.js:193-195 | the new flags are the old flags followed by the extra ones; pairs and packages are unchanged |
| Loader.RunTool | index.js:5-7 | `tool` succeeds exactly when the command does; on success its value is the command's output trimmed; on failure it carries the command's diagnostic |
| Loader.RunToolTrimmed | index.js:5-7 | what `tool` returns has no white space at either end, and output without any comes back unchanged |
| Loader.ReasonLoader.constructor | index.js:13-18 | an empty registry, a fresh starter record, an empty trace |
| Loader.ReasonLoader.GetMerlinFileForParentDir | index.js:19-24 | the registered record when there is one, otherwise the starter object itself, not a copy; under the invariant it is always the starter |
| Loader.ReasonLoader.UpdateMerlinFile | index.js:188-200 | the shared record gains the pair and the flags, the rendered new record is written to `<dir>/.merlin`, the directory is registered, and every entry still aliases the starter |
| Loader.ReasonLoader.Compile | index.js:114-202 | outcome and new state are those of `CompileSpec`; a successful compile leaves its directory registered to the starter object |
| Loader.ReasonLoader.Prepare | index.js:131-163 | creates the build directory and runs `melc -where`, in that order, and returns the include paths or the failure |
| Loader.ReasonLoader.CompileWithIncludePaths | index.js:181-201 | dependencies first; an unfinished dependency ends the compile with its outcome; otherwise the file's own compile follows |
| Loader.ReasonLoader.RunCompiler | index.js:186-201 | outcome and new state are those of `FinishSpec`: the `melc` run in the build directory, then on success the `.merlin` update and the artifact read |
| Loader.ReasonLoader.CompileDependenciesInThisDir | index.js:79-112 | outcome and new state are those of `DependenciesSpec`: list with `ocamldep` in the directory, parse, resolve, compile each, return the module names |
| Loader.ReasonLoader.CompileEach | index.js:100-109 | the loop over the resolved files is `CompileEachSpec`: each compile runs to its end on the state the previous one left, and the first exception ends the loop |
| Loader.CompileSpec | index.js:114-202 | `compile` as a function of the state; `CompileGrows`, `CompileDoneIsFinish` and `SelfDependencyNeverFinishes` are proved about it |
| Loader.FinishSpec | index.js:186-201 | the end of `compile`; `FinishRecord`, `FinishEffects` and `FinishGrows` are proved about it |
| Loader.DependenciesSpec | index.js:79-112 | `compileDependenciesInThisDir` as a function of the state; `DependenciesStart`, `LeafDependencies` and `DependenciesGrows` are proved about it |
| Loader.CompileEachSpec | index.js:100-109 | the `forEach` over the dependencies; `CompileEachGrows` is proved about it |
| LoaderProperties.CompileGrows | index.js:114-202 | whatever its outcome, a compile only adds: registered directories, trace events after the old ones, pairs and flags after the old ones; packages unchanged |
| LoaderProperties.DependenciesGrows | index.js:79-112 | the same for `compileDependenciesInThisDir` |
| LoaderProperties.CompileEachGrows | index.js:100-109 | the same for the loop over the dependencies |
| LoaderProperties.FinishGrows | index.js:186-201 | the same for the file's own compiler run |
| LoaderProperties.DependenciesStart | index.js:80-83 | the first new effect of `compileDependenciesInThisDir` is the `ocamldep` run in the directory, before any dependency is compiled |
| LoaderProperties.LeafDependencies | index.js:84-111 | when the listing names no module, the result is no modules, and the listing is the only effect |
| LoaderProperties.LeafListing | index.js:80-111 | a listing `<target>:` with nothing after the colon makes the file a leaf: no modules, and the listing is the only effect |
| LoaderProperties.CompileDoneIsFinish | index.js:181-201 | a compile that returns the artifact had its include paths and all its dependencies compiled, and then ran its own compile on the state they left |
| LoaderProperties.FinishRecord | index.js:188-200 | a successful compile registers the directory, adds exactly the pair (directory, build directory), appends `-I <trim(p)>` for the four include paths in order, and keeps the packages |
| LoaderProperties.FinishEffects | index.js:186-201 | the `melc` run in the build directory comes first; on success the artifact read from `<build dir>/<output name>` is returned, and the rendered record is written to `<dir>/.merlin` as the last effect; on failure nothing else happens |
| LoaderProperties.SelfDependencyNeverFinishes | index.js:100-109 | a file whose listing names itself first is compiled again inside its own compile: whatever the nesting bound, its compile never finishes, from any state |

## Left out

- The shell, `fs.existsSync`, `fs.readFileSync`, and the platform's path delimiter are parameters of `Env`. The commands are recorded as strings, not interpreted.
- `fs.mkdirSync` and `fs.writeFileSync` are trace events that always succeed. Their failures, and a failure of the final `fs.readFileSync`, are not modelled.
- The output of the `melc` compile run is discarded by the source and is not modelled. Only its success or failure matters.
- The loader's `_source` argument and the webpack `this` context are left out. The model passes `resource`, `context` and `rootContext` as the parameters `file`, `dir` and `root`.
- Paths are absolute POSIX paths given as lists of segments. Windows separators, drive letters and non-normalised inputs are not modelled.
- Loader.ReasonLoader.Compile: the nesting depth is bounded by `fuel`, because the source recurses without a cycle check. Where the source would recurse deeper, or overflow the stack on a cycle, the model returns `OutOfFuel`. No lemma states that a larger bound gives the same result once a compile finishes.
- The `.merlin` packages are a JavaScript `Set` that nothing modifies, so they are kept as a list in insertion order.
- The record's `files` set is also a list. Each `add` inserts a fresh object literal, so the set never deduplicates.
