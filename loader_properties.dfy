/** Properties of `compile` as a whole: what a run can do to the loader's
    state, what a successful compile leaves behind, the order of effects,
    and compiles that never finish. */
module LoaderProperties {
  import opened Outcomes
  import opened Strings
  import opened Paths
  import opened Commands
  import opened Merlin
  import opened Dependencies
  import opened Layout
  import opened Loader

  // ---------------------------------------------------------------------
  // The state only grows

  /** `t` is `s` with things added: more registered directories, more
      effects after the old ones, more pairs and flags after the old ones,
      and the same packages. */
  predicate Grows(s: LoaderState, t: LoaderState) {
    && s.registered <= t.registered
    && s.trace <= t.trace
    && s.record.files <= t.record.files
    && s.record.flags <= t.record.flags
    && s.record.pkgs == t.record.pkgs
  }

  lemma GrowsTransitive(a: LoaderState, b: LoaderState, c: LoaderState)
    requires Grows(a, b) && Grows(b, c)
    ensures Grows(a, c)
  {
  }

  /** Nothing a compile does removes a directory from the registry, an
      effect from the trace, a pair or a flag from the shared record, or
      changes its packages; this holds whether it ends in success, an
      exception or the nesting bound. */
  lemma {:induction false} CompileGrows(env: Env, s: LoaderState, file: Path, dir: Path, root: Path, fuel: nat)
    ensures Grows(s, CompileSpec(env, s, file, dir, root, fuel).1)
    decreases fuel, 2, 0
  {
    if fuel > 0 {
      PrepareGrows(env, s, file, dir, root, fuel);
    }
  }

  lemma {:induction false} PrepareGrows(env: Env, s: LoaderState, file: Path, dir: Path, root: Path, fuel: nat)
    requires fuel > 0
    ensures Grows(s, PrepareSpec(env, s, file, dir, root, fuel).1)
    decreases fuel, 1, 0
  {
    var includePaths := IncludePathsOutcome(env);
    var s1 := PreparedState(s, dir, root);
    assert Grows(s, s1);
    if includePaths.Done? {
      BuildGrows(env, s1, file, dir, root, includePaths.value, fuel);
      GrowsTransitive(s, s1, PrepareSpec(env, s, file, dir, root, fuel).1);
    }
  }

  lemma {:induction false} BuildGrows(env: Env, s: LoaderState, file: Path, dir: Path, root: Path,
                                      includePaths: seq<string>, fuel: nat)
    requires fuel > 0
    ensures Grows(s, BuildSpec(env, s, file, dir, root, includePaths, fuel).1)
    decreases fuel, 0, 0
  {
    DependenciesOfGrows(env, s, file, dir, root, fuel - 1);
    var deps := DependenciesOfSpec(env, s, file, dir, root, fuel - 1);
    if deps.0.Done? {
      BuildDoneGrows(env, s, file, dir, root, includePaths, fuel);
    }
  }

  /** The step of `BuildGrows` once the dependencies are compiled. */
  lemma BuildDoneGrows(env: Env, s: LoaderState, file: Path, dir: Path, root: Path,
                       includePaths: seq<string>, fuel: nat)
    requires fuel > 0
    requires DependenciesOfSpec(env, s, file, dir, root, fuel - 1).0.Done?
    requires Grows(s, DependenciesOfSpec(env, s, file, dir, root, fuel - 1).1)
    ensures Grows(s, BuildSpec(env, s, file, dir, root, includePaths, fuel).1)
  {
    var deps := DependenciesOfSpec(env, s, file, dir, root, fuel - 1);
    FinishGrows(env, deps.1, file, dir, root, includePaths, deps.0.value);
    GrowsTransitive(s, deps.1, FinishSpec(env, deps.1, file, dir, root, includePaths, deps.0.value).1);
  }

  lemma FinishGrows(env: Env, s: LoaderState, file: Path, dir: Path, root: Path,
                    includePaths: seq<string>, modules: seq<string>)
    ensures Grows(s, FinishSpec(env, s, file, dir, root, includePaths, modules).1)
  {
  }

  lemma {:induction false} DependenciesOfGrows(env: Env, s: LoaderState, file: Path, dir: Path, root: Path, fuel: nat)
    ensures Grows(s, DependenciesOfSpec(env, s, file, dir, root, fuel).1)
    decreases fuel, 5, 0
  {
    DependenciesGrows(env, s, RelativeString(Relative(dir, file)), dir, root, fuel);
  }

  lemma {:induction false} DependenciesGrows(env: Env, s: LoaderState, fileName: string, dir: Path, root: Path, fuel: nat)
    ensures Grows(s, DependenciesSpec(env, s, fileName, dir, root, fuel).1)
    decreases fuel, 4, 0
  {
    var cmd := OcamldepRender(Ocamldep, [], fileName);
    var s1 := Append(s, Run(DependencyListing, Some(dir), cmd));
    var out := RunTool(env, Some(dir), cmd);
    if out.Success? {
      var files := ResolveAll(env.fileExists, dir, ParseDependencies(out.value));
      CompileEachGrows(env, s1, files, 0, dir, root, fuel);
      GrowsTransitive(s, s1, DependenciesSpec(env, s, fileName, dir, root, fuel).1);
    }
  }

  lemma {:induction false} CompileEachGrows(env: Env, s: LoaderState, files: seq<string>, i: nat,
                                            dir: Path, root: Path, fuel: nat)
    requires i <= |files|
    ensures Grows(s, CompileEachSpec(env, s, files, i, dir, root, fuel).1)
    decreases fuel, 3, |files| - i
  {
    if i < |files| {
      var first := CompileSpec(env, s, Join(dir, files[i]), dir, root, fuel);
      CompileGrows(env, s, Join(dir, files[i]), dir, root, fuel);
      if first.0.Done? {
        CompileEachGrows(env, first.1, files, i + 1, dir, root, fuel);
        GrowsTransitive(s, first.1, CompileEachSpec(env, s, files, i, dir, root, fuel).1);
      }
    }
  }

  // ---------------------------------------------------------------------
  // What a compile leaves behind

  /** `compileDependenciesInThisDir` lists the dependencies before it
      compiles any of them: its first effect is the `ocamldep` run. */
  lemma DependenciesStart(env: Env, s: LoaderState, fileName: string, dir: Path, root: Path, fuel: nat)
    ensures var t := DependenciesSpec(env, s, fileName, dir, root, fuel).1;
            && |t.trace| > |s.trace|
            && t.trace[..|s.trace| + 1] == s.trace + [Run(DependencyListing, Some(dir), OcamldepRender(Ocamldep, [], fileName))]
  {
    var cmd := OcamldepRender(Ocamldep, [], fileName);
    var s1 := Append(s, Run(DependencyListing, Some(dir), cmd));
    var out := RunTool(env, Some(dir), cmd);
    if out.Success? {
      var files := ResolveAll(env.fileExists, dir, ParseDependencies(out.value));
      CompileEachGrows(env, s1, files, 0, dir, root, fuel);
      var t := DependenciesSpec(env, s, fileName, dir, root, fuel).1;
      assert s1.trace <= t.trace;
      assert t.trace[..|s1.trace|] == s1.trace;
    }
  }

  /** A file whose `ocamldep` line names no module (no colon, or nothing
      after it) has no dependencies: the listing is the only effect, and
      nothing else is compiled. */
  lemma LeafDependencies(env: Env, s: LoaderState, fileName: string, dir: Path, root: Path, fuel: nat)
    requires var out := RunTool(env, Some(dir), OcamldepRender(Ocamldep, [], fileName));
             out.Success? && ParseDependencies(out.value) == []
    ensures DependenciesSpec(env, s, fileName, dir, root, fuel)
         == (Done([]), Append(s, Run(DependencyListing, Some(dir), OcamldepRender(Ocamldep, [], fileName))))
  {
  }

  /** The listing `Foo.cmo :` that `ocamldep` prints for a file without
      dependencies makes it a leaf. */
  lemma LeafListing(env: Env, s: LoaderState, fileName: string, dir: Path, root: Path, fuel: nat, target: string)
    requires var out := RunTool(env, Some(dir), OcamldepRender(Ocamldep, [], fileName));
             out.Success? && out.value == target + ":" && ':' !in target
    ensures DependenciesSpec(env, s, fileName, dir, root, fuel)
         == (Done([]), Append(s, Run(DependencyListing, Some(dir), OcamldepRender(Ocamldep, [], fileName))))
  {
    assert target + ":" == target + ":" + "";
    NothingAfterColon(target, "");
    LeafDependencies(env, s, fileName, dir, root, fuel);
  }

  /** A compile that returns the artifact has compiled all its dependencies
      first; what is left is the file's own compiler run and `.merlin`
      update, on the state the dependencies left. */
  lemma CompileDoneIsFinish(env: Env, s: LoaderState, file: Path, dir: Path, root: Path, fuel: nat)
    requires CompileSpec(env, s, file, dir, root, fuel).0.Done?
    ensures fuel > 0 && IncludePathsOutcome(env).Done?
    ensures var deps := DependenciesOfSpec(env, PreparedState(s, dir, root), file, dir, root, fuel - 1);
            && deps.0.Done?
            && CompileSpec(env, s, file, dir, root, fuel)
               == FinishSpec(env, deps.1, file, dir, root, IncludePathsOutcome(env).value, deps.0.value)
  {
    BuildDoneIsFinish(env, PreparedState(s, dir, root), file, dir, root, IncludePathsOutcome(env).value, fuel);
  }

  lemma BuildDoneIsFinish(env: Env, s: LoaderState, file: Path, dir: Path, root: Path,
                          includePaths: seq<string>, fuel: nat)
    requires fuel > 0 && BuildSpec(env, s, file, dir, root, includePaths, fuel).0.Done?
    ensures var deps := DependenciesOfSpec(env, s, file, dir, root, fuel - 1);
            && deps.0.Done?
            && BuildSpec(env, s, file, dir, root, includePaths, fuel)
               == FinishSpec(env, deps.1, file, dir, root, includePaths, deps.0.value)
  {
  }

  /** One successful compiler run adds to the shared record exactly one
      pair, the directory and its build directory, appends the include
      flags to its flags, keeps its packages, and registers the
      directory. */
  lemma FinishRecord(env: Env, s: LoaderState, file: Path, dir: Path, root: Path,
                     includePaths: seq<string>, modules: seq<string>)
    requires FinishSpec(env, s, file, dir, root, includePaths, modules).0.Done?
    ensures var t := FinishSpec(env, s, file, dir, root, includePaths, modules).1;
            && t.registered == s.registered + {dir}
            && t.record.files == s.record.files + [SourcePair(AbsoluteString(dir), AbsoluteString(BuildPath(root, dir)))]
            && t.record.flags == s.record.flags + IncludeFlags(includePaths)
            && t.record.pkgs == s.record.pkgs
  {
  }

  /** The effects of the file's own compile: the compiler runs in the build
      directory, and on success the directory's `.merlin` is written with
      the updated record and the artifact is read from the build directory;
      on failure nothing else happens and the record is left alone. */
  lemma FinishEffects(env: Env, s: LoaderState, file: Path, dir: Path, root: Path,
                      includePaths: seq<string>, modules: seq<string>)
    ensures var r := FinishSpec(env, s, file, dir, root, includePaths, modules);
            var buildPath := BuildPath(root, dir);
            var run := Run(Compilation, Some(buildPath),
                           MelcRender(Melc, includePaths, modules, AbsoluteString(file), OutputFileName(file)));
            && !r.0.OutOfFuel?
            && (r.0.Done? ==> && r.0.value == env.readFile(Join(buildPath, OutputFileName(file)))
                              && r.1.trace == s.trace + [run, WriteFile(Child(dir, MerlinFileName), RenderMerlin(r.1.record))])
            && (r.0.Failed? ==> r.1 == Append(s, run))
  {
  }

  // ---------------------------------------------------------------------
  // No cycle check

  /** The file's own dependency listing succeeds and names, first, a module
      that resolves to the file itself. */
  predicate ListsItselfFirst(env: Env, file: Path, dir: Path) {
    var out := RunTool(env, Some(dir), OcamldepRender(Ocamldep, [], RelativeString(Relative(dir, file))));
    && out.Success?
    && var files := ResolveAll(env.fileExists, dir, ParseDependencies(out.value));
       |files| > 0 && Join(dir, files[0]) == file
  }

  /** The compile of `file` from state `t` does not finish within `fuel`. */
  ghost predicate CompileStopped(env: Env, t: LoaderState, file: Path, dir: Path, root: Path, fuel: nat) {
    CompileSpec(env, t, file, dir, root, fuel).0 == OutOfFuel
  }

  /** Within the bound `fuel`, no compile of `file` finishes, from any state. */
  ghost predicate CompilesStuck(env: Env, file: Path, dir: Path, root: Path, fuel: nat) {
    forall t: LoaderState :: CompileStopped(env, t, file, dir, root, fuel)
  }

  /** Compiling the dependencies of `file` from state `t` does not finish
      within `fuel`. */
  ghost predicate DependenciesStopped(env: Env, t: LoaderState, file: Path, dir: Path, root: Path, fuel: nat) {
    DependenciesOfSpec(env, t, file, dir, root, fuel).0 == OutOfFuel
  }

  /** Within the bound `fuel`, compiling the dependencies of `file` never
      finishes, from any state. */
  ghost predicate DependenciesStuck(env: Env, file: Path, dir: Path, root: Path, fuel: nat) {
    forall t: LoaderState :: DependenciesStopped(env, t, file, dir, root, fuel)
  }

  /** A file that lists itself as its first dependency is compiled again
      inside its own compile, without end: whatever the bound, no compile of
      it finishes. */
  lemma SelfDependencyNeverFinishes(env: Env, file: Path, dir: Path, root: Path, fuel: nat)
    requires IncludePathsOutcome(env).Done? && ListsItselfFirst(env, file, dir)
    ensures CompilesStuck(env, file, dir, root, fuel)
  {
    SelfDependencySteps(env, file, dir, root);
    StuckAtEveryBound(env, file, dir, root, fuel);
  }

  /** Each bound at which such a file is stuck is followed by another. */
  lemma SelfDependencySteps(env: Env, file: Path, dir: Path, root: Path)
    requires IncludePathsOutcome(env).Done? && ListsItselfFirst(env, file, dir)
    ensures forall n: nat {:trigger CompilesStuck(env, file, dir, root, n)} ::
              0 < n && CompilesStuck(env, file, dir, root, n - 1) ==> CompilesStuck(env, file, dir, root, n)
  {
    forall n: nat | 0 < n && CompilesStuck(env, file, dir, root, n - 1)
      ensures CompilesStuck(env, file, dir, root, n)
    {
      SelfDependenciesStuck(env, file, dir, root, n - 1);
      CompilesStuckWithDependencies(env, file, dir, root, n);
    }
  }

  /** Induction on the bound: stuck with no fuel, and stuck with one more
      whenever stuck with `n - 1`. */
  lemma {:induction false} StuckAtEveryBound(env: Env, file: Path, dir: Path, root: Path, fuel: nat)
    requires forall n: nat {:trigger CompilesStuck(env, file, dir, root, n)} ::
               0 < n && CompilesStuck(env, file, dir, root, n - 1) ==> CompilesStuck(env, file, dir, root, n)
    ensures CompilesStuck(env, file, dir, root, fuel)
    decreases fuel
  {
    if fuel == 0 {
      NothingFinishesWithoutFuel(env, file, dir, root);
    } else {
      StuckAtEveryBound(env, file, dir, root, fuel - 1);
    }
  }

  lemma NothingFinishesWithoutFuel(env: Env, file: Path, dir: Path, root: Path)
    ensures CompilesStuck(env, file, dir, root, 0)
  {
    forall t: LoaderState ensures CompileStopped(env, t, file, dir, root, 0) {
    }
  }

  /** The step through the dependency listing: the file's own compile is the
      first one its dependencies start. */
  lemma SelfDependenciesStuck(env: Env, file: Path, dir: Path, root: Path, fuel: nat)
    requires ListsItselfFirst(env, file, dir) && CompilesStuck(env, file, dir, root, fuel)
    ensures DependenciesStuck(env, file, dir, root, fuel)
  {
    var fileName := RelativeString(Relative(dir, file));
    forall t: LoaderState ensures DependenciesStopped(env, t, file, dir, root, fuel) {
      assert CompileStopped(env, Append(t, Run(DependencyListing, Some(dir), OcamldepRender(Ocamldep, [], fileName))),
                            file, dir, root, fuel);
      DependenciesStopWithFirst(env, t, fileName, dir, root, fuel);
    }
  }

  lemma CompilesStuckWithDependencies(env: Env, file: Path, dir: Path, root: Path, fuel: nat)
    requires fuel > 0 && IncludePathsOutcome(env).Done? && DependenciesStuck(env, file, dir, root, fuel - 1)
    ensures CompilesStuck(env, file, dir, root, fuel)
  {
    forall t: LoaderState ensures CompileStopped(env, t, file, dir, root, fuel) {
      CompileStopsWithDependencies(env, t, file, dir, root, fuel);
    }
  }

  /** When compiling the dependencies does not finish, neither does the
      compile of the file that needs them. */
  lemma CompileStopsWithDependencies(env: Env, s: LoaderState, file: Path, dir: Path, root: Path, fuel: nat)
    requires fuel > 0 && IncludePathsOutcome(env).Done?
    requires DependenciesStopped(env, PreparedState(s, dir, root), file, dir, root, fuel - 1)
    ensures CompileStopped(env, s, file, dir, root, fuel)
  {
    BuildStopsWithDependencies(env, PreparedState(s, dir, root), file, dir, root, IncludePathsOutcome(env).value, fuel);
  }

  lemma BuildStopsWithDependencies(env: Env, s: LoaderState, file: Path, dir: Path, root: Path,
                                   includePaths: seq<string>, fuel: nat)
    requires fuel > 0 && DependenciesOfSpec(env, s, file, dir, root, fuel - 1).0 == OutOfFuel
    ensures BuildSpec(env, s, file, dir, root, includePaths, fuel).0 == OutOfFuel
  {
  }

  /** When compiling the first listed dependency does not finish, neither
      does compiling the dependencies. */
  lemma DependenciesStopWithFirst(env: Env, s: LoaderState, fileName: string, dir: Path, root: Path, fuel: nat)
    requires var cmd := OcamldepRender(Ocamldep, [], fileName);
             var out := RunTool(env, Some(dir), cmd);
             && out.Success?
             && var files := ResolveAll(env.fileExists, dir, ParseDependencies(out.value));
                && |files| > 0
                && CompileStopped(env, Append(s, Run(DependencyListing, Some(dir), cmd)), Join(dir, files[0]), dir, root, fuel)
    ensures DependenciesSpec(env, s, fileName, dir, root, fuel).0 == OutOfFuel
  {
    var cmd := OcamldepRender(Ocamldep, [], fileName);
    var s1 := Append(s, Run(DependencyListing, Some(dir), cmd));
    var files := ResolveAll(env.fileExists, dir, ParseDependencies(RunTool(env, Some(dir), cmd).value));
    assert CompileEachSpec(env, s1, files, 0, dir, root, fuel).0 == OutOfFuel;
  }
}
