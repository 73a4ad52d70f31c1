/** The loader's `compile`: for one source file, compile its dependencies in
    the same directory depth-first, run the compiler, fold the directory's
    pair and include flags into the `.merlin` record and write it out.

    The shell, the file system's existence test and the artifact read are
    given by an `Env`; every effect on the outside world is appended to a
    trace. `fuel` bounds the nesting depth of compiles, since the source
    recurses without a cycle check. */
module Loader {
  import opened Outcomes
  import opened Strings
  import opened Paths
  import opened Commands
  import opened Merlin
  import opened Dependencies
  import opened Layout

  const Melc := "esy melc"
  const Ocamldep := "esy ocamldep"
  const WhereCommand := Melc + " -where"
  const MerlinFileName := ".merlin"

  /** Which of the three shell invocations an event is. */
  datatype Invocation = WhereQuery | DependencyListing | Compilation

  datatype Event =
    | MakeDir(dir: Path)
    | Run(invocation: Invocation, cwd: Option<Path>, cmd: string)
    | WriteFile(file: Path, content: string)

  datatype Error =
    | CommandFailed(cmd: string, diagnostic: string)  // a non-zero exit, thrown by execSync
    | MissingJsLibPath                                // `melc -where` listed one path only

  /** How a compile ends: with the artifact's text, with an exception, or
      with the nesting bound reached. */
  datatype Outcome<T> = Done(value: T) | Failed(error: Error) | OutOfFuel {
    function Abandon<U>(): (r: Outcome<U>)
      requires !Done?
      ensures !r.Done? && r.Failed? == Failed? && (Failed? ==> r.error == error)
    {
      if Failed? then Failed(error) else OutOfFuel
    }
  }

  /** The outside world: the shell (working directory, command; `None` is
      the process's own directory), `fs.existsSync`, the platform's path
      delimiter and the contents of the artifacts the compiler writes. */
  datatype Env = Env(
    exec: (Option<Path>, string) -> Result<string, string>,
    fileExists: Path -> bool,
    delimiter: char,
    readFile: Path -> string)

  /** The loader's state: the directories registered in `MerlinFileMap`, the
      value of the one record they all share, and the trace of effects. */
  datatype LoaderState = LoaderState(registered: set<Path>, record: MerlinConfig, trace: seq<Event>)

  /** `tool`: run a command and trim its output. */
  function RunTool(env: Env, cwd: Option<Path>, cmd: string): (r: Result<string, string>)
    ensures r.Success? == env.exec(cwd, cmd).Success?
    ensures r.Success? ==> r.value == Trim(env.exec(cwd, cmd).value)
    ensures r.Failure? ==> r.error == env.exec(cwd, cmd).error
  {
    match env.exec(cwd, cmd)
    case Success(out) => Success(Trim(out))
    case Failure(e) => Failure(e)
  }

  /** What `tool` returns has no white space at either end, and output
      that has none comes back unchanged. */
  lemma RunToolTrimmed(env: Env, cwd: Option<Path>, cmd: string)
    ensures var r := RunTool(env, cwd, cmd);
            && (r.Success? ==> Trimmed(r.value))
            && (env.exec(cwd, cmd).Success? && Trimmed(env.exec(cwd, cmd).value) ==> r == env.exec(cwd, cmd))
  {
    if env.exec(cwd, cmd).Success? {
      TrimTrimmed(env.exec(cwd, cmd).value);
    }
  }

  function Append(s: LoaderState, e: Event): LoaderState {
    s.(trace := s.trace + [e])
  }

  /** The `.merlin` pair a compile in `dir` adds. */
  function PairFor(root: Path, dir: Path): SourcePair {
    SourcePair(AbsoluteString(dir), AbsoluteString(BuildPath(root, dir)))
  }

  /** `compile` of `file` in directory `dir` under project root `root`,
      within the nesting bound. */
  function CompileSpec(env: Env, s: LoaderState, file: Path, dir: Path, root: Path, fuel: nat)
    : (Outcome<string>, LoaderState)
    decreases fuel, 2, 0
  {
    if fuel == 0 then (OutOfFuel, s) else PrepareSpec(env, s, file, dir, root, fuel)
  }

  /** The start of `compile`: create the build directory, query
      `melc -where` and derive the include paths, then go on. */
  function PrepareSpec(env: Env, s: LoaderState, file: Path, dir: Path, root: Path, fuel: nat)
    : (Outcome<string>, LoaderState)
    requires fuel > 0
    decreases fuel, 1, 0
  {
    var includePaths := IncludePathsOutcome(env);
    var s1 := PreparedState(s, dir, root);
    if !includePaths.Done? then (includePaths.Abandon(), s1)
    else BuildSpec(env, s1, file, dir, root, includePaths.value, fuel)
  }

  /** The rest of `compile` once the include paths are known: compile the
      dependencies first, then the file itself. */
  function BuildSpec(env: Env, s: LoaderState, file: Path, dir: Path, root: Path,
                     includePaths: seq<string>, fuel: nat): (Outcome<string>, LoaderState)
    requires fuel > 0
    decreases fuel, 0, 0
  {
    var deps := DependenciesOfSpec(env, s, file, dir, root, fuel - 1);
    if !deps.0.Done? then (deps.0.Abandon(), deps.1)
    else FinishSpec(env, deps.1, file, dir, root, includePaths, deps.0.value)
  }

  /** The start of `compile`: create the build directory and query
      `melc -where`; these two effects happen whatever the answer. */
  function PreparedState(s: LoaderState, dir: Path, root: Path): LoaderState {
    Append(Append(s, MakeDir(BuildPath(root, dir))), Run(WhereQuery, None, WhereCommand))
  }

  /** The include paths derived from the output of `melc -where`, or the
      exception that ends the compile. */
  function IncludePathsOutcome(env: Env): Outcome<seq<string>> {
    var where := RunTool(env, None, WhereCommand);
    if where.Failure? then Failed(CommandFailed(WhereCommand, where.error))
    else
      var includePaths := IncludePaths(where.value, env.delimiter);
      if includePaths.None? then Failed(MissingJsLibPath)
      else Done(includePaths.value)
  }

  /** The end of `compile`, once the dependencies are compiled: run the
      compiler in the build directory, update and write the `.merlin`
      record, and read the artifact back. */
  function FinishSpec(env: Env, s: LoaderState, file: Path, dir: Path, root: Path,
                      includePaths: seq<string>, modules: seq<string>): (Outcome<string>, LoaderState)
  {
    var buildPath := BuildPath(root, dir);
    var outputFileName := OutputFileName(file);
    var cmd := MelcRender(Melc, includePaths, modules, AbsoluteString(file), outputFileName);
    var s1 := Append(s, Run(Compilation, Some(buildPath), cmd));
    var run := env.exec(Some(buildPath), cmd);
    if run.Failure? then (Failed(CommandFailed(cmd, run.error)), s1)
    else
      var record := AddCompile(s1.record, PairFor(root, dir), IncludeFlags(includePaths));
      var s2 := s1.(registered := s1.registered + {dir}, record := record);
      (Done(env.readFile(Join(buildPath, outputFileName))),
       Append(s2, WriteFile(Child(dir, MerlinFileName), RenderMerlin(record))))
  }

  /** The call of `compileDependenciesInThisDir` in `compile`, with the
      file named relative to its directory. */
  function DependenciesOfSpec(env: Env, s: LoaderState, file: Path, dir: Path, root: Path, fuel: nat)
    : (Outcome<seq<string>>, LoaderState)
    decreases fuel, 5, 0
  {
    DependenciesSpec(env, s, RelativeString(Relative(dir, file)), dir, root, fuel)
  }

  /** `compileDependenciesInThisDir`: list the file's dependencies and
      compile each, in order; the module names are the result. */
  function DependenciesSpec(env: Env, s: LoaderState, fileName: string, dir: Path, root: Path, fuel: nat)
    : (Outcome<seq<string>>, LoaderState)
    decreases fuel, 4, 0
  {
    var cmd := OcamldepRender(Ocamldep, [], fileName);
    var s1 := Append(s, Run(DependencyListing, Some(dir), cmd));
    var out := RunTool(env, Some(dir), cmd);
    if out.Failure? then (Failed(CommandFailed(cmd, out.error)), s1)
    else
      var dependencies := ParseDependencies(out.value);
      var each := CompileEachSpec(env, s1, ResolveAll(env.fileExists, dir, dependencies), 0, dir, root, fuel);
      if each.0.Done? then (Done(dependencies), each.1) else (each.0.Abandon(), each.1)
  }

  /** The `forEach` over the resolved files from index `i` on: each compile
      finishes before the next starts, and an exception ends the loop. */
  function CompileEachSpec(env: Env, s: LoaderState, files: seq<string>, i: nat, dir: Path, root: Path, fuel: nat)
    : (Outcome<()>, LoaderState)
    requires i <= |files|
    decreases fuel, 3, |files| - i
  {
    if i == |files| then (Done(()), s)
    else
      var first := CompileSpec(env, s, Join(dir, files[i]), dir, root, fuel);
      if first.0.Done? then CompileEachSpec(env, first.1, files, i + 1, dir, root, fuel)
      else (first.0.Abandon(), first.1)
  }

  /** The module-level state of the loader: `MerlinFileMap`,
      `starterMerlinFile`, and the trace of effects. */
  class ReasonLoader {
    var merlinFiles: map<Path, MerlinFile>
    const starter: MerlinFile
    var trace: seq<Event>

    /** Every registered record is the starter object itself. */
    ghost predicate Valid()
      reads this
    {
      forall d :: d in merlinFiles ==> merlinFiles[d] == starter
    }

    function Snapshot(): LoaderState
      reads this, starter
    {
      LoaderState(merlinFiles.Keys, starter.Config(), trace)
    }

    constructor ()
      ensures Valid() && fresh(starter)
      ensures Snapshot() == LoaderState({}, StarterConfig, [])
    {
      merlinFiles := map[];
      starter := new MerlinFile.Starter();
      trace := [];
    }

    /** `getMerlinFileForParentDir`: the registered record, or else the
        shared starter object itself (not a copy). */
    method GetMerlinFileForParentDir(dir: Path) returns (r: MerlinFile)
      ensures dir in merlinFiles ==> r == merlinFiles[dir]
      ensures dir !in merlinFiles ==> r == starter
      ensures Valid() ==> r == starter
    {
      if dir in merlinFiles {
        r := merlinFiles[dir];
      } else {
        r := starter;
      }
    }

    /** Append one effect to the trace. */
    method Log(e: Event)
      modifies this
      ensures merlinFiles == old(merlinFiles) && trace == old(trace) + [e]
    {
      trace := trace + [e];
    }

    /** Lines 188-200 of `compile`: fold the pair and the include flags into
        the directory's record, write the rendered record to the directory's
        `.merlin`, and register the record under the directory. */
    method UpdateMerlinFile(dir: Path, pair: SourcePair, includeFlags: seq<string>)
      requires Valid()
      modifies this, starter
      ensures Valid()
      ensures var record := AddCompile(old(Snapshot()).record, pair, includeFlags);
              Snapshot() == LoaderState(old(Snapshot()).registered + {dir}, record,
                                        old(trace) + [WriteFile(Child(dir, MerlinFileName), RenderMerlin(record))])
    {
      var merlinFile := GetMerlinFileForParentDir(dir);
      merlinFile.AddFile(pair);
      merlinFile.ConcatFlags(includeFlags);
      trace := trace + [WriteFile(Child(dir, MerlinFileName), RenderMerlin(merlinFile.Config()))];
      merlinFiles := merlinFiles[dir := merlinFile];
    }

    method Compile(env: Env, file: Path, dir: Path, root: Path, fuel: nat) returns (res: Outcome<string>)
      requires Valid()
      modifies this, starter
      ensures Valid()
      ensures (res, Snapshot()) == CompileSpec(env, old(Snapshot()), file, dir, root, fuel)
      ensures res.Done? ==> dir in merlinFiles && merlinFiles[dir] == starter
      decreases fuel, 2, 0
    {
      if fuel == 0 {
        return OutOfFuel;
      }
      ghost var s0 := Snapshot();
      var includePaths := Prepare(env, dir, root);
      ghost var s1 := PreparedState(s0, dir, root);
      assert Snapshot() == s1;
      if !includePaths.Done? {
        return includePaths.Abandon();
      }
      res := CompileWithIncludePaths(env, file, dir, root, includePaths.value, fuel);
    }

    /** Lines 181-201 of `compile`. */
    method CompileWithIncludePaths(env: Env, file: Path, dir: Path, root: Path,
                                   includePaths: seq<string>, fuel: nat) returns (res: Outcome<string>)
      requires Valid() && fuel > 0
      modifies this, starter
      ensures Valid()
      ensures (res, Snapshot()) == BuildSpec(env, old(Snapshot()), file, dir, root, includePaths, fuel)
      ensures res.Done? ==> dir in merlinFiles && merlinFiles[dir] == starter
      decreases fuel, 0, 0
    {
      var fileName := RelativeString(Relative(dir, file));
      var modules := CompileDependenciesInThisDir(env, fileName, dir, root, fuel - 1);
      if !modules.Done? {
        return modules.Abandon();
      }
      res := RunCompiler(env, file, dir, root, includePaths, modules.value);
    }

    /** Lines 133-163 of `compile`. */
    method Prepare(env: Env, dir: Path, root: Path) returns (res: Outcome<seq<string>>)
      modifies this
      ensures merlinFiles == old(merlinFiles)
      ensures trace == old(trace) + [MakeDir(BuildPath(root, dir)), Run(WhereQuery, None, WhereCommand)]
      ensures res == IncludePathsOutcome(env)
    {
      var buildPath := BuildPath(root, dir);
      Log(MakeDir(buildPath));
      var where := RunTool(env, None, WhereCommand);
      Log(Run(WhereQuery, None, WhereCommand));
      if where.Failure? {
        return Failed(CommandFailed(WhereCommand, where.error));
      }
      var includePaths := IncludePaths(where.value, env.delimiter);
      if includePaths.None? {
        return Failed(MissingJsLibPath);
      }
      res := Done(includePaths.value);
    }

    /** Lines 186-201 of `compile`. */
    method RunCompiler(env: Env, file: Path, dir: Path, root: Path,
                       includePaths: seq<string>, modules: seq<string>) returns (res: Outcome<string>)
      requires Valid()
      modifies this, starter
      ensures Valid()
      ensures (res, Snapshot()) == FinishSpec(env, old(Snapshot()), file, dir, root, includePaths, modules)
      ensures res.Done? ==> dir in merlinFiles && merlinFiles[dir] == starter
    {
      var buildPath := BuildPath(root, dir);
      var outputFileName := OutputFileName(file);
      var cmd := MelcRender(Melc, includePaths, modules, AbsoluteString(file), outputFileName);
      Log(Run(Compilation, Some(buildPath), cmd));
      var run := env.exec(Some(buildPath), cmd);
      if run.Failure? {
        return Failed(CommandFailed(cmd, run.error));
      }
      UpdateMerlinFile(dir, PairFor(root, dir), IncludeFlags(includePaths));
      res := Done(env.readFile(Join(buildPath, outputFileName)));
    }

    method CompileDependenciesInThisDir(env: Env, fileName: string, dir: Path, root: Path, fuel: nat)
      returns (res: Outcome<seq<string>>)
      requires Valid()
      modifies this, starter
      ensures Valid()
      ensures (res, Snapshot()) == DependenciesSpec(env, old(Snapshot()), fileName, dir, root, fuel)
      decreases fuel, 4, 0
    {
      var cmd := OcamldepRender(Ocamldep, [], fileName);
      var out := RunTool(env, Some(dir), cmd);
      Log(Run(DependencyListing, Some(dir), cmd));
      if out.Failure? {
        return Failed(CommandFailed(cmd, out.error));
      }
      var dependencies := ParseDependencies(out.value);
      var files := ResolveAll(env.fileExists, dir, dependencies);
      var each := CompileEach(env, files, dir, root, fuel);
      if !each.Done? {
        return each.Abandon();
      }
      res := Done(dependencies);
    }

    /** The `forEach` of `compileDependenciesInThisDir`: compile each
        resolved file of `dir` in turn, stopping at the first exception. */
    method CompileEach(env: Env, files: seq<string>, dir: Path, root: Path, fuel: nat)
      returns (res: Outcome<()>)
      requires Valid()
      modifies this, starter
      ensures Valid()
      ensures (res, Snapshot()) == CompileEachSpec(env, old(Snapshot()), files, 0, dir, root, fuel)
      decreases fuel, 3, 0
    {
      ghost var start := Snapshot();
      var i := 0;
      while i < |files|
        invariant 0 <= i <= |files|
        invariant Valid()
        invariant CompileEachSpec(env, start, files, 0, dir, root, fuel)
               == CompileEachSpec(env, Snapshot(), files, i, dir, root, fuel)
      {
        var r := Compile(env, Join(dir, files[i]), dir, root, fuel);
        if !r.Done? {
          return r.Abandon();
        }
        i := i + 1;
      }
      res := Done(());
    }
  }
}
