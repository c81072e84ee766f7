/** What the staged pipeline of module Sema guarantees: the session stays
    well formed, library files are parsed in input order before the main file
    is checked, a partial-module load error stops everything before type
    checking, whole-module checks run only at the end, and the standard
    library, REPL and code-completion paths behave as the frontend intends. */
module SemaFacts {
  import opened FrontendTypes
  import opened Inputs
  import opened Sema

  /** The library file parseLibraryFile leaves for buffer `b`. */
  function LibraryFileFor(cfg: SemaConfig, b: BufferId): SourceFile
  {
    SourceFile(LibraryFile, Some(b), ParsingFlagFor(cfg, Some(b)), ImportsResolved)
  }

  /** The library files for `bs`, in order. */
  function LibraryFiles(cfg: SemaConfig, bs: seq<BufferId>): (r: seq<SourceFile>)
    ensures |r| == |bs|
  {
    if bs == [] then [] else LibraryFiles(cfg, bs[..|bs| - 1]) + [LibraryFileFor(cfg, bs[|bs| - 1])]
  }

  /** Every library file is import-resolved and holds its buffer. */
  lemma {:induction false} LibraryFileAt(cfg: SemaConfig, bs: seq<BufferId>, k: nat)
    requires k < |bs|
    ensures LibraryFiles(cfg, bs)[k] == LibraryFileFor(cfg, bs[k])
    decreases |bs|
  {
    if k < |bs| - 1 {
      LibraryFileAt(cfg, bs[..|bs| - 1], k);
    }
  }

  /** `b` extends `a`. */
  predicate Extends(a: seq<Event>, b: seq<Event>)
  {
    |a| <= |b| && b[..|a|] == a
  }

  /** The per-file actions of the type-checking loop. */
  predicate IsLoopAction(a: FileAction)
  {
    a == BindExtensions || a == TypeCheck || a == PCMacro || a == PlaygroundTransform
  }

  /** A transform that only runs on an error-free AST. */
  predicate IsTransform(a: FileAction)
  {
    a == PCMacro || a == PlaygroundTransform || a == DebuggerTestingTransform
  }

  lemma LibraryFilesAppend(cfg: SemaConfig, bs: seq<BufferId>, b: BufferId)
    ensures LibraryFiles(cfg, bs + [b]) == LibraryFiles(cfg, bs) + [LibraryFileFor(cfg, b)]
  {
    assert (bs + [b])[..|bs + [b]| - 1] == bs;
  }

  lemma LibraryParsedAppends(s: Session, cfg: SemaConfig, b: BufferId)
    ensures LibraryParsed(s, cfg, b).files == s.files + [LibraryFileFor(cfg, b)]
  {
  }

  /** One step of the library loop: a non-main buffer adds its library file. */
  lemma LibrariesParsedStep(s: Session, cfg: SemaConfig, bufs: seq<BufferId>)
    requires bufs != []
    ensures var init, b := bufs[..|bufs| - 1], bufs[|bufs| - 1];
            LibrariesParsed(s, cfg, bufs).files
            == LibrariesParsed(s, cfg, init).files + (if Some(b) == cfg.inputs.mainBuffer then [] else [LibraryFileFor(cfg, b)])
  {
    var init, b := bufs[..|bufs| - 1], bufs[|bufs| - 1];
    if Some(b) != cfg.inputs.mainBuffer {
      LibraryParsedAppends(LibrariesParsed(s, cfg, init), cfg, b);
    }
  }

  /** The library loop creates one import-resolved library file per non-main
      source buffer, in the order of the buffers, after the existing files. */
  lemma {:induction false} LibraryFilesInOrder(s: Session, cfg: SemaConfig, bufs: seq<BufferId>)
    ensures LibrariesParsed(s, cfg, bufs).files
            == s.files + LibraryFiles(cfg, LibraryBuffers(bufs, cfg.inputs.mainBuffer))
    decreases |bufs|
  {
    var main := cfg.inputs.mainBuffer;
    if bufs == [] {
      assert LibraryBuffers(bufs, main) == [];
    } else {
      var init, b := bufs[..|bufs| - 1], bufs[|bufs| - 1];
      LibraryFilesInOrder(s, cfg, init);
      LibrariesParsedStep(s, cfg, bufs);
      var libs := LibraryBuffers(init, main);
      if Some(b) != main {
        assert LibraryBuffers(bufs, main) == libs + [b];
        LibraryFilesAppend(cfg, libs, b);
      } else {
        assert LibraryBuffers(bufs, main) == libs;
      }
    }
  }

  /** What the type-checking loop may do between `s` and `r`: append only
      per-file loop actions on existing files, none of the transforms once an
      error has been raised, and leave the module flags alone. */
  predicate LoopEvents(s: Session, r: Session)
  {
    && Extends(s.events, r.events)
    && (forall k :: |s.events| <= k < |r.events| ==>
          r.events[k].FileEvent? && IsLoopAction(r.events[k].action) && r.events[k].file < |s.files|
          && (s.hadError ==> !IsTransform(r.events[k].action)))
    && r.hasResolvedImports == s.hasResolvedImports && r.implicitImportNames == s.implicitImportNames
    && r.silModuleCreated == s.silModuleCreated
  }

  lemma TypeCheckStepEvents(s: Session, cfg: SemaConfig, eng: Engines, limit: ASTStage, i: nat)
    requires i < |s.files|
    ensures LoopEvents(s, TypeCheckStep(s, cfg, eng, limit, i))
  {
  }

  lemma LoopEventsCompose(a: Session, m: Session, r: Session)
    requires LoopEvents(a, m) && LoopEvents(m, r)
    requires |m.files| == |a.files| && (a.hadError ==> m.hadError)
    ensures LoopEvents(a, r)
  {
    forall k | |a.events| <= k < |r.events|
      ensures r.events[k].FileEvent? && IsLoopAction(r.events[k].action) && r.events[k].file < |a.files|
              && (a.hadError ==> !IsTransform(r.events[k].action))
    {
      if k < |m.events| {
        assert r.events[k] == m.events[k];
      }
    }
  }

  /** The type-checking loop only asks for per-file loop actions on existing
      files, and none of the transforms once an error has been raised. */
  lemma {:induction false} TypeCheckedEachEvents(s: Session, cfg: SemaConfig, eng: Engines, limit: ASTStage, files: seq<nat>)
    requires forall i :: 0 <= i < |files| ==> files[i] < |s.files|
    ensures LoopEvents(s, TypeCheckedEach(s, cfg, eng, limit, files))
    decreases |files|
  {
    if files != [] {
      var init := files[..|files| - 1];
      TypeCheckedEachEvents(s, cfg, eng, limit, init);
      var prev := TypeCheckedEach(s, cfg, eng, limit, init);
      TypeCheckStepEvents(prev, cfg, eng, limit, files[|files| - 1]);
      LoopEventsCompose(s, prev, TypeCheckedEach(s, cfg, eng, limit, files));
    }
  }

  /** parsePartialModulesAndLibraryFiles loads every partial module, in order,
      and then import-resolves each new library file: nothing else is asked of
      the engines, and no file that existed before is touched. */
  lemma PartialModulesAndLibrariesEvents(s: Session, cfg: SemaConfig)
    ensures var r := PartialModulesAndLibrariesParsed(s, cfg);
            var n := PartialModuleCount(cfg);
            && Extends(s.events + LoadEvents(n), r.events)
            && (forall k :: |s.events| + n <= k < |r.events| ==>
                  r.events[k].FileEvent? && r.events[k].action == ImportResolution && r.events[k].file >= |s.files|)
            && r.files == s.files + LibraryFiles(cfg, LibraryBuffers(cfg.inputs.sourceBuffers, cfg.inputs.mainBuffer))
            && r.hadError == s.hadError && r.implicitImportNames == s.implicitImportNames
  {
    var loaded := PartialsLoaded(s, PartialModuleCount(cfg));
    LibraryFilesInOrder(loaded, cfg, cfg.inputs.sourceBuffers);
  }

  /** A partial module that fails to load stops parseAndCheckTypesUpTo after
      parsing: every library file is still parsed and import-resolved, but the
      main file is not checked, imports are not marked resolved, nothing is
      type-checked and finishTypeChecking does not run. */
  lemma LoadErrorStopsBeforeTypeChecking(s: Session, cfg: SemaConfig, eng: Engines, limit: ASTStage)
    requires ReadyToCheck(s, cfg, limit) && HadLoadError(eng, PartialModuleCount(cfg))
    ensures var r := CheckedTypesUpTo(s, cfg, eng, limit);
            && r.hasResolvedImports == s.hasResolvedImports
            && r.files == s.files + LibraryFiles(cfg, LibraryBuffers(cfg.inputs.sourceBuffers, cfg.inputs.mainBuffer))
            && (forall k :: |s.events| <= k < |r.events| ==>
                  r.events[k].LoadPartialModule? || (r.events[k].FileEvent? && r.events[k].action == ImportResolution))
            && CheckImplementationOnlyImports !in r.events[|s.events|..]
  {
    var p := PartialModulesAndLibrariesParsed(s, cfg);
    LoadErrorKeepsParse(s, cfg, eng, limit);
    PartialModulesAndLibrariesEvents(s, cfg);
    ParsedEvents(s, cfg);
    forall e | e in p.events[|s.events|..] ensures e != CheckImplementationOnlyImports {
      var k :| |s.events| <= k < |p.events| && p.events[k] == e;
    }
  }

  /** On a load error parseAndCheckTypesUpTo ends right after parsing. */
  lemma LoadErrorKeepsParse(s: Session, cfg: SemaConfig, eng: Engines, limit: ASTStage)
    requires ReadyToCheck(s, cfg, limit) && HadLoadError(eng, PartialModuleCount(cfg))
    ensures var r, p := CheckedTypesUpTo(s, cfg, eng, limit), PartialModulesAndLibrariesParsed(s, cfg);
            r.events == p.events && r.files == p.files && r.hasResolvedImports == p.hasResolvedImports
  {
  }

  /** The actions parseAndTypeCheckMainFileUpTo may ask for. */
  predicate IsMainAction(a: FileAction)
  {
    a == TypeCheck || a == ImportResolution || a == ParseSIL || a == DebuggerTestingTransform
  }

  /** The action that first processes the main file: type checking for a
      primary main file checked up to TypeChecked, import resolution otherwise. */
  function MainFileFirstAction(cfg: SemaConfig, limit: ASTStage): FileAction
  {
    if MainIsPrimary(cfg) && limit == TypeChecked then TypeCheck else ImportResolution
  }

  /** parseAndTypeCheckMainFileUpTo works on the main file only, starting
      with its type checking or import resolution, and skips the
      debugger-testing transform once an error has been raised. */
  lemma MainFileEvents(s: Session, cfg: SemaConfig, eng: Engines, limit: ASTStage)
    requires |s.files| > 0 && limit != Unprocessed
    requires s.silModuleCreated ==> MainIsPrimary(cfg) && limit == TypeChecked
    ensures var r := MainFileCheckedUpTo(s, cfg, eng, limit);
            && Extends(s.events, r.events) && |r.events| > |s.events|
            && r.events[|s.events|] == FileEvent(MainFileFirstAction(cfg, limit), 0)
            && (forall k :: |s.events| <= k < |r.events| ==>
                  r.events[k].FileEvent? && r.events[k].file == 0 && IsMainAction(r.events[k].action)
                  && (s.hadError ==> r.events[k].action != DebuggerTestingTransform))
            && r.hasResolvedImports == s.hasResolvedImports && r.implicitImportNames == s.implicitImportNames
            && r.silModuleCreated == s.silModuleCreated
  {
  }

  /** From index `from` on, only per-file engine calls other than the
      whole-module check, and none of the transforms when `hadError`. */
  predicate PerFileEventsFrom(from: nat, evs: seq<Event>, hadError: bool)
  {
    forall k :: from <= k < |evs| ==>
      evs[k].FileEvent? && evs[k].action != WholeModuleTypeCheck && (hadError ==> !IsTransform(evs[k].action))
  }

  /** Extending per-file calls with more per-file calls. */
  lemma PerFileCompose(a: seq<Event>, b: seq<Event>, c: seq<Event>, h: bool, h2: bool)
    requires Extends(a, b) && PerFileEventsFrom(|a|, b, h)
    requires Extends(b, c) && PerFileEventsFrom(|b|, c, h2) && (h ==> h2)
    ensures Extends(a, c) && PerFileEventsFrom(|a|, c, h)
  {
    forall k | |a| <= k < |c|
      ensures c[k].FileEvent? && c[k].action != WholeModuleTypeCheck && (h ==> !IsTransform(c[k].action))
    {
      if k < |b| {
        assert c[k] == b[k];
      }
    }
  }

  /** The main file's calls and the loop's calls are per-file calls. */
  lemma MainFilePerFile(s: Session, cfg: SemaConfig, eng: Engines, limit: ASTStage)
    requires |s.files| > 0 && limit != Unprocessed
    requires s.silModuleCreated ==> MainIsPrimary(cfg) && limit == TypeChecked
    ensures var r := MainFileCheckedUpTo(s, cfg, eng, limit);
            Extends(s.events, r.events) && PerFileEventsFrom(|s.events|, r.events, s.hadError)
  {
    MainFileEvents(s, cfg, eng, limit);
  }

  lemma LoopPerFile(s: Session, r: Session)
    requires LoopEvents(s, r)
    ensures Extends(s.events, r.events) && PerFileEventsFrom(|s.events|, r.events, s.hadError)
  {
  }

  /** Up to finishTypeChecking only per-file engine calls are made, none of
      the transforms once an error has been raised, and the module ends up
      marked as having resolved its imports. */
  lemma FilesCheckedEvents(s: Session, cfg: SemaConfig, eng: Engines, limit: ASTStage)
    requires limit != Unprocessed && WellFormed(s, cfg)
    requires cfg.inputs.mainBuffer.Some? ==> |s.files| > 0
    requires s.silModuleCreated ==> MainIsPrimary(cfg) && limit == TypeChecked
    ensures var r := FilesChecked(s, cfg, eng, limit);
            && Extends(s.events, r.events) && PerFileEventsFrom(|s.events|, r.events, s.hadError)
            && r.hasResolvedImports && r.implicitImportNames == s.implicitImportNames
            && r.silModuleCreated == s.silModuleCreated && |r.files| == |s.files|
  {
    var s3 := if cfg.inputs.mainBuffer.Some? then MainFileCheckedUpTo(s, cfg, eng, limit) else s;
    if cfg.inputs.mainBuffer.Some? {
      MainFileEvents(s, cfg, eng, limit);
      MainFilePerFile(s, cfg, eng, limit);
    }
    SameFileListKeepsWellFormed(s, s3, cfg);
    var s4 := s3.(hasResolvedImports := true);
    var toCheck := FilesToTypeCheck(s3, cfg);
    TypeCheckedEachEvents(s4, cfg, eng, limit, toCheck);
    var r := TypeCheckedEach(s4, cfg, eng, limit, toCheck);
    LoopPerFile(s4, r);
    PerFileCompose(s.events, s3.events, r.events, s.hadError, s3.hadError);
  }

  /** The engine-call facts of the rest of parseAndCheckTypesUpTo, from `a`
      on: the implementation-only import check runs exactly when the limit is
      TypeChecked, as the last call, right after the whole-module checks of
      every file in whole-module mode; no whole-module check runs otherwise;
      and no transform runs when `hadError`. */
  predicate FinishedEventsFrom(a: seq<Event>, r: seq<Event>, cfg: SemaConfig, limit: ASTStage, n: nat, hadError: bool)
  {
    && Extends(a, r)
    && (CheckImplementationOnlyImports in r[|a|..] <==> limit == TypeChecked)
    && (limit == TypeChecked ==>
          |FinishEvents(cfg, n)| <= |r| && r[|r| - |FinishEvents(cfg, n)|..] == FinishEvents(cfg, n))
    && (forall k :: |a| <= k < |r| && r[k].FileEvent? && r[k].action == WholeModuleTypeCheck
          ==> cfg.wholeModule && limit == TypeChecked)
    && (hadError ==> forall k :: |a| <= k < |r| && r[k].FileEvent? ==> !IsTransform(r[k].action))
  }

  lemma FinishAppended(a: seq<Event>, c: seq<Event>, cfg: SemaConfig, n: nat, h: bool)
    requires Extends(a, c) && PerFileEventsFrom(|a|, c, h)
    ensures FinishedEventsFrom(a, c + FinishEvents(cfg, n), cfg, TypeChecked, n, h)
  {
    var fin := FinishEvents(cfg, n);
    var r := c + fin;
    assert r[|a|..] == c[|a|..] + fin;
    assert fin[|fin| - 1] == CheckImplementationOnlyImports;
    forall k | |a| <= k < |r| && r[k].FileEvent? ensures !IsTransform(r[k].action) || !h {
      if k < |c| {
        assert r[k] == c[k];
      } else {
        assert r[k] == fin[k - |c|];
      }
    }
  }

  lemma NothingFinished(a: seq<Event>, c: seq<Event>, cfg: SemaConfig, n: nat, h: bool)
    requires Extends(a, c) && PerFileEventsFrom(|a|, c, h)
    ensures FinishedEventsFrom(a, c, cfg, ImportsResolved, n, h)
  {
    forall e | e in c[|a|..] ensures e != CheckImplementationOnlyImports {
      var k :| |a| <= k < |c| && c[k] == e;
    }
  }

  lemma TypesCheckedSplits(s: Session, cfg: SemaConfig, eng: Engines, limit: ASTStage)
    requires limit != Unprocessed && WellFormed(s, cfg)
    requires cfg.inputs.mainBuffer.Some? ==> |s.files| > 0
    requires s.silModuleCreated ==> MainIsPrimary(cfg) && limit == TypeChecked
    ensures var r, c := TypesChecked(s, cfg, eng, limit), FilesChecked(s, cfg, eng, limit);
            && r.events == c.events + (if limit == TypeChecked then FinishEvents(cfg, |c.files|) else [])
            && r.files == c.files && r.hadError == c.hadError && r.hasResolvedImports == c.hasResolvedImports
            && r.implicitImportNames == c.implicitImportNames && r.silModuleCreated == c.silModuleCreated
  {
  }

  /** Past a clean parse, the rest of parseAndCheckTypesUpTo ends with
      finishTypeChecking exactly when the limit is TypeChecked. */
  lemma TypesCheckedEvents(s: Session, cfg: SemaConfig, eng: Engines, limit: ASTStage)
    requires limit != Unprocessed && WellFormed(s, cfg)
    requires cfg.inputs.mainBuffer.Some? ==> |s.files| > 0
    requires s.silModuleCreated ==> MainIsPrimary(cfg) && limit == TypeChecked
    ensures var r := TypesChecked(s, cfg, eng, limit);
            && FinishedEventsFrom(s.events, r.events, cfg, limit, |r.files|, s.hadError)
            && r.hasResolvedImports && r.implicitImportNames == s.implicitImportNames
            && r.silModuleCreated == s.silModuleCreated && |r.files| == |s.files|
  {
    FilesCheckedEvents(s, cfg, eng, limit);
    TypesCheckedSplits(s, cfg, eng, limit);
    var c := FilesChecked(s, cfg, eng, limit);
    if limit == TypeChecked {
      FinishAppended(s.events, c.events, cfg, |c.files|, s.hadError);
    } else {
      NothingFinished(s.events, c.events, cfg, |c.files|, s.hadError);
    }
  }

  /** From index `from` on, only partial-module loads and import resolution. */
  predicate ParseEventsFrom(from: nat, evs: seq<Event>)
  {
    forall k :: from <= k < |evs| ==>
      evs[k].LoadPartialModule? || (evs[k].FileEvent? && evs[k].action == ImportResolution)
  }

  lemma FinishedAfterParse(a: seq<Event>, b: seq<Event>, c: seq<Event>, cfg: SemaConfig, limit: ASTStage, n: nat, h: bool, h2: bool)
    requires Extends(a, b) && ParseEventsFrom(|a|, b)
    requires FinishedEventsFrom(b, c, cfg, limit, n, h2) && (h ==> h2)
    ensures FinishedEventsFrom(a, c, cfg, limit, n, h)
  {
    assert c[|a|..] == b[|a|..] + c[|b|..];
    forall e | e in b[|a|..] ensures e != CheckImplementationOnlyImports {
      var k :| |a| <= k < |b| && b[k] == e;
    }
    forall k | |a| <= k < |c| && c[k].FileEvent? ensures (c[k].action == WholeModuleTypeCheck ==> cfg.wholeModule && limit == TypeChecked) && (h ==> !IsTransform(c[k].action)) {
      if k < |b| {
        assert c[k] == b[k];
      }
    }
  }

  /** parseAndCheckTypesUpTo after parsing: the code-completion error is
      raised, and the rest runs unless a partial module failed to load. */
  lemma CheckedTypesUpToSplits(s: Session, cfg: SemaConfig, eng: Engines, limit: ASTStage)
    requires ReadyToCheck(s, cfg, limit)
    ensures var p := PartialModulesAndLibrariesParsed(s, cfg);
            var q := CodeCompletionDiagnosed(p, cfg);
            && q.events == p.events && q.files == p.files && q.hadError == (p.hadError || cfg.codeCompletion)
            && SameFileList(p, q) && q.hasResolvedImports == p.hasResolvedImports
            && q.implicitImportNames == p.implicitImportNames && q.silModuleCreated == p.silModuleCreated
            && WellFormed(q, cfg) && (cfg.inputs.mainBuffer.Some? ==> |q.files| > 0)
            && (q.silModuleCreated ==> MainIsPrimary(cfg) && limit == TypeChecked)
            && CheckedTypesUpTo(s, cfg, eng, limit)
               == if HadLoadError(eng, PartialModuleCount(cfg)) then q else TypesChecked(q, cfg, eng, limit)
  {
  }

  /** The engine calls of parseAndCheckTypesUpTo: after a clean parse the
      implementation-only import check runs exactly when the limit is
      TypeChecked, last, after the whole-module checks of every file in
      whole-module mode; whole-module checks run in no other case; and in
      code completion, or after an earlier error, no transform runs. */
  lemma CleanParseFinishes(s: Session, cfg: SemaConfig, eng: Engines, limit: ASTStage)
    requires ReadyToCheck(s, cfg, limit) && !HadLoadError(eng, PartialModuleCount(cfg))
    ensures var r := CheckedTypesUpTo(s, cfg, eng, limit);
            FinishedEventsFrom(s.events, r.events, cfg, limit, |r.files|, s.hadError || cfg.codeCompletion)
  {
    CheckedTypesUpToSplits(s, cfg, eng, limit);
    ParsedEvents(s, cfg);
    var p := PartialModulesAndLibrariesParsed(s, cfg);
    var q := CodeCompletionDiagnosed(p, cfg);
    TypesCheckedEvents(q, cfg, eng, limit);
    var r := TypesChecked(q, cfg, eng, limit);
    FinishedAfterParse(s.events, q.events, r.events, cfg, limit, |r.files|, s.hadError || cfg.codeCompletion, q.hadError);
  }

  /** parsePartialModulesAndLibraryFiles only loads partial modules and
      resolves imports. */
  lemma ParsedEvents(s: Session, cfg: SemaConfig)
    ensures var p := PartialModulesAndLibrariesParsed(s, cfg);
            && Extends(s.events, p.events) && ParseEventsFrom(|s.events|, p.events)
            && forall k :: |s.events| <= k < |p.events| && p.events[k].FileEvent? ==> p.events[k].file >= |s.files|
  {
    PartialModulesAndLibrariesEvents(s, cfg);
    LoadsThenResolution(s.events, PartialModuleCount(cfg), PartialModulesAndLibrariesParsed(s, cfg).events, |s.files|);
  }

  lemma LoadsThenResolution(a: seq<Event>, n: nat, c: seq<Event>, m: nat)
    requires Extends(a + LoadEvents(n), c)
    requires forall k :: |a| + n <= k < |c| ==> c[k].FileEvent? && c[k].action == ImportResolution && c[k].file >= m
    ensures Extends(a, c) && ParseEventsFrom(|a|, c)
    ensures forall k :: |a| <= k < |c| && c[k].FileEvent? ==> c[k].file >= m
  {
    assert c[..|a|] == (a + LoadEvents(n))[..|a|];
    forall k | |a| <= k < |c| ensures c[k].LoadPartialModule? || (c[k].FileEvent? && c[k].action == ImportResolution) {
      if k < |a| + n {
        assert c[k] == (a + LoadEvents(n))[k];
      }
    }
  }

  lemma ExtendsTransitive(a: seq<Event>, b: seq<Event>, c: seq<Event>)
    requires Extends(a, b) && Extends(b, c)
    ensures Extends(a, c) && forall k :: 0 <= k < |b| ==> c[k] == b[k]
  {
    assert c[..|a|] == c[..|b|][..|a|];
  }

  /** The type-checking loop comes after the main file. */
  lemma FilesCheckedAfterMain(s: Session, cfg: SemaConfig, eng: Engines, limit: ASTStage)
    requires limit != Unprocessed && WellFormed(s, cfg)
    requires cfg.inputs.mainBuffer.Some? && |s.files| > 0
    requires s.silModuleCreated ==> MainIsPrimary(cfg) && limit == TypeChecked
    ensures var m, c := MainFileCheckedUpTo(s, cfg, eng, limit), FilesChecked(s, cfg, eng, limit);
            Extends(m.events, c.events) && c.files[0].stage != Unprocessed
  {
    var m := MainFileCheckedUpTo(s, cfg, eng, limit);
    SameFileListKeepsWellFormed(s, m, cfg);
    var m4 := m.(hasResolvedImports := true);
    TypeCheckedEachEvents(m4, cfg, eng, limit, FilesToTypeCheck(m, cfg));
  }

  /** Library files are parsed before the main file is checked: the
      partial-module loads and the library files' import resolution never
      touch the main file, the module's first file, and the first engine call
      after them type-checks a primary main file, or resolves its imports. */
  lemma MainFileCheckedAfterLibraries(s: Session, cfg: SemaConfig, eng: Engines, limit: ASTStage)
    requires ReadyToCheck(s, cfg, limit) && cfg.inputs.mainBuffer.Some?
    requires !HadLoadError(eng, PartialModuleCount(cfg))
    ensures var p, r := PartialModulesAndLibrariesParsed(s, cfg), CheckedTypesUpTo(s, cfg, eng, limit);
            && (forall k :: |s.events| <= k < |p.events| && p.events[k].FileEvent? ==> p.events[k].file > 0)
            && Extends(p.events, r.events) && |r.events| > |p.events|
            && r.events[|p.events|] == FileEvent(MainFileFirstAction(cfg, limit), 0)
            && r.files[0].stage != Unprocessed
  {
    CheckedTypesUpToSplits(s, cfg, eng, limit);
    ParsedEvents(s, cfg);
    var p := PartialModulesAndLibrariesParsed(s, cfg);
    var q := CodeCompletionDiagnosed(p, cfg);
    var m := MainFileCheckedUpTo(q, cfg, eng, limit);
    MainFileEvents(q, cfg, eng, limit);
    FilesCheckedAfterMain(q, cfg, eng, limit);
    TypesCheckedSplits(q, cfg, eng, limit);
    var c := FilesChecked(q, cfg, eng, limit);
    var r := TypesChecked(q, cfg, eng, limit);
    assert Extends(c.events, r.events);
    ExtendsTransitive(m.events, c.events, r.events);
    ExtendsTransitive(q.events, m.events, r.events);
  }

  lemma SameFileListTransitive(a: Session, b: Session, c: Session)
    requires SameFileList(a, b) && SameFileList(b, c)
    ensures SameFileList(a, c)
  {
  }

  /** The rest of parseAndCheckTypesUpTo changes file stages only. */
  lemma TypesCheckedSameFileList(s: Session, cfg: SemaConfig, eng: Engines, limit: ASTStage)
    requires limit != Unprocessed && WellFormed(s, cfg)
    requires cfg.inputs.mainBuffer.Some? ==> |s.files| > 0
    requires s.silModuleCreated ==> MainIsPrimary(cfg) && limit == TypeChecked
    ensures SameFileList(s, TypesChecked(s, cfg, eng, limit))
  {
    var s3 := if cfg.inputs.mainBuffer.Some? then MainFileCheckedUpTo(s, cfg, eng, limit) else s;
    var s4 := s3.(hasResolvedImports := true);
    var c := TypeCheckedEach(s4, cfg, eng, limit, FilesToTypeCheck(s3, cfg));
    SameFileListKeepsWellFormed(s, s3, cfg);
    SameFileListTransitive(s, s4, c);
    TypesCheckedSplits(s, cfg, eng, limit);
  }

  /** parseAndCheckTypesUpTo keeps the session well formed: every file it
      creates gets the parsing flag of the primary/whole-module rule and is
      recorded as a primary source file exactly when its buffer is primary. */
  lemma CheckedTypesUpToKeepsWellFormed(s: Session, cfg: SemaConfig, eng: Engines, limit: ASTStage)
    requires ReadyToCheck(s, cfg, limit)
    ensures WellFormed(CheckedTypesUpTo(s, cfg, eng, limit), cfg)
  {
    CheckedTypesUpToSplits(s, cfg, eng, limit);
    var q := CodeCompletionDiagnosed(PartialModulesAndLibrariesParsed(s, cfg), cfg);
    if !HadLoadError(eng, PartialModuleCount(cfg)) {
      TypesCheckedSameFileList(q, cfg, eng, limit);
      SameFileListKeepsWellFormed(q, TypesChecked(q, cfg, eng, limit), cfg);
    }
  }

  /** With every file but the main one already past Unprocessed, all files
      are past it once the main file has been processed. */
  lemma MainFileStages(s: Session, cfg: SemaConfig, eng: Engines, limit: ASTStage)
    requires limit != Unprocessed
    requires cfg.inputs.mainBuffer.Some? ==> |s.files| > 0
    requires s.silModuleCreated ==> MainIsPrimary(cfg) && limit == TypeChecked
    requires forall k :: (if cfg.inputs.mainBuffer.Some? then 1 else 0) <= k < |s.files| ==> s.files[k].stage != Unprocessed
    ensures var s3 := if cfg.inputs.mainBuffer.Some? then MainFileCheckedUpTo(s, cfg, eng, limit) else s;
            forall k :: 0 <= k < |s3.files| ==> s3.files[k].stage != Unprocessed
  {
  }

  /** ... and once the files to type-check have been processed. */
  lemma FilesCheckedResolvesAll(s: Session, cfg: SemaConfig, eng: Engines, limit: ASTStage)
    requires limit != Unprocessed && WellFormed(s, cfg)
    requires cfg.inputs.mainBuffer.Some? ==> |s.files| > 0
    requires s.silModuleCreated ==> MainIsPrimary(cfg) && limit == TypeChecked
    requires forall k :: (if cfg.inputs.mainBuffer.Some? then 1 else 0) <= k < |s.files| ==> s.files[k].stage != Unprocessed
    ensures var c := FilesChecked(s, cfg, eng, limit);
            forall k :: 0 <= k < |c.files| ==> c.files[k].stage != Unprocessed
  {
    var s3 := if cfg.inputs.mainBuffer.Some? then MainFileCheckedUpTo(s, cfg, eng, limit) else s;
    MainFileStages(s, cfg, eng, limit);
    SameFileListKeepsWellFormed(s, s3, cfg);
    assert forall k :: 0 <= k < |s3.files| ==> StageRank(s3.files[k].stage) >= 1;
  }

  /** The type-checking loop beyond ImportsResolved leaves every listed file
      TypeChecked and every other file at the stage it had; at
      ImportsResolved it changes no stage. */
  lemma {:induction false} TypeCheckedEachStages(s: Session, cfg: SemaConfig, eng: Engines, limit: ASTStage, files: seq<nat>)
    requires forall i :: 0 <= i < |files| ==> files[i] < |s.files|
    ensures var r := TypeCheckedEach(s, cfg, eng, limit, files);
            forall k :: 0 <= k < |s.files| ==>
              r.files[k].stage == (if limit != ImportsResolved && k in files then TypeChecked else s.files[k].stage)
    decreases |files|
  {
    if files != [] {
      var init, last := files[..|files| - 1], files[|files| - 1];
      TypeCheckedEachStages(s, cfg, eng, limit, init);
      assert files == init + [last];
    }
  }

  /** The stage a file ends at: TypeChecked at the TypeChecked limit when
      it is checked (every file in whole-module mode, otherwise a file with a
      primary buffer), ImportsResolved otherwise. */
  predicate StageFollowsMode(f: SourceFile, cfg: SemaConfig, limit: ASTStage)
  {
    f.stage == if limit == TypeChecked && (cfg.wholeModule || IsPrimaryBuffer(cfg, f.buffer)) then TypeChecked else ImportsResolved
  }

  /** Import-resolved, or already where StageFollowsMode puts it. */
  predicate StageBelowMode(f: SourceFile, cfg: SemaConfig, limit: ASTStage)
  {
    f.stage == ImportsResolved || (f.stage == TypeChecked && StageFollowsMode(f, cfg, limit))
  }

  /** The type-checking loop over the files forEachFileToTypeCheck yields
      brings every import-resolved file to the stage of StageFollowsMode. */
  lemma LoopStagesFollowMode(s: Session, cfg: SemaConfig, eng: Engines, limit: ASTStage)
    requires limit != Unprocessed && WellFormed(s, cfg)
    requires forall k :: 0 <= k < |s.files| ==> StageBelowMode(s.files[k], cfg, limit)
    ensures var c := TypeCheckedEach(s.(hasResolvedImports := true), cfg, eng, limit, FilesToTypeCheck(s, cfg));
            forall k :: 0 <= k < |c.files| ==> StageFollowsMode(c.files[k], cfg, limit)
  {
    var files := FilesToTypeCheck(s, cfg);
    var s4 := s.(hasResolvedImports := true);
    TypeCheckedEachStages(s4, cfg, eng, limit, files);
    var c := TypeCheckedEach(s4, cfg, eng, limit, files);
    forall k | 0 <= k < |c.files| ensures StageFollowsMode(c.files[k], cfg, limit) {
      assert c.files[k].buffer == s.files[k].buffer;
      if cfg.wholeModule {
        assert files[k] == k;
      } else {
        assert k in files <==> IsPrimaryBuffer(cfg, s.files[k].buffer);
      }
    }
  }

  /** After a clean parse in which every file but the fresh main file is
      import-resolved, every file ends at the stage of StageFollowsMode. */
  lemma FilesCheckedStages(s: Session, cfg: SemaConfig, eng: Engines, limit: ASTStage)
    requires limit != Unprocessed && WellFormed(s, cfg)
    requires cfg.inputs.mainBuffer.Some? ==>
               |s.files| > 0 && s.files[0].buffer == cfg.inputs.mainBuffer && s.files[0].stage == Unprocessed
    requires s.silModuleCreated ==> MainIsPrimary(cfg) && limit == TypeChecked
    requires forall k :: (if cfg.inputs.mainBuffer.Some? then 1 else 0) <= k < |s.files| ==> s.files[k].stage == ImportsResolved
    ensures var c := FilesChecked(s, cfg, eng, limit);
            forall k :: 0 <= k < |c.files| ==> StageFollowsMode(c.files[k], cfg, limit)
  {
    var s3 := if cfg.inputs.mainBuffer.Some? then MainFileCheckedUpTo(s, cfg, eng, limit) else s;
    SameFileListKeepsWellFormed(s, s3, cfg);
    forall k | 0 <= k < |s3.files| ensures StageBelowMode(s3.files[k], cfg, limit) {
      if k == 0 && cfg.inputs.mainBuffer.Some? {
        assert s3.files[0].buffer == cfg.inputs.mainBuffer;
      } else {
        assert s3.files[k].stage == s.files[k].stage;
      }
    }
    LoopStagesFollowMode(s3, cfg, eng, limit);
    assert FilesChecked(s, cfg, eng, limit)
           == TypeCheckedEach(s3.(hasResolvedImports := true), cfg, eng, limit, FilesToTypeCheck(s3, cfg));
  }

  /** Which files parseAndCheckTypesUpTo type-checks. With no partial-module
      load error and a fresh main file, at the TypeChecked limit every file
      of the module ends TypeChecked in whole-module mode, and otherwise a
      file ends TypeChecked exactly when its buffer is primary; every other
      file, and every file at the ImportsResolved limit, ends
      import-resolved. */
  lemma CheckedFilesFollowMode(s: Session, cfg: SemaConfig, eng: Engines, limit: ASTStage)
    requires ReadyToCheck(s, cfg, limit) && !HadLoadError(eng, PartialModuleCount(cfg))
    requires cfg.inputs.mainBuffer.Some? ==> s.files[0].buffer == cfg.inputs.mainBuffer && s.files[0].stage == Unprocessed
    ensures var r := CheckedTypesUpTo(s, cfg, eng, limit);
            forall k :: 0 <= k < |r.files| ==> StageFollowsMode(r.files[k], cfg, limit)
  {
    CheckedTypesUpToSplits(s, cfg, eng, limit);
    ParsedLibrariesImportResolved(s, cfg);
    var q := CodeCompletionDiagnosed(PartialModulesAndLibrariesParsed(s, cfg), cfg);
    FilesCheckedStages(q, cfg, eng, limit);
    TypesCheckedSplits(q, cfg, eng, limit);
  }

  /** parsePartialModulesAndLibraryFiles keeps the existing files and leaves
      every library file it adds import-resolved. */
  lemma ParsedLibrariesImportResolved(s: Session, cfg: SemaConfig)
    ensures var p := PartialModulesAndLibrariesParsed(s, cfg);
            && p.files[..|s.files|] == s.files
            && forall k :: |s.files| <= k < |p.files| ==> p.files[k].stage == ImportsResolved
  {
    PartialModulesAndLibrariesEvents(s, cfg);
    var p := PartialModulesAndLibrariesParsed(s, cfg);
    var libs := LibraryBuffers(cfg.inputs.sourceBuffers, cfg.inputs.mainBuffer);
    forall k | |s.files| <= k < |p.files| ensures p.files[k].stage == ImportsResolved {
      assert p.files[k] == LibraryFiles(cfg, libs)[k - |s.files|];
      LibraryFileAt(cfg, libs, k - |s.files|);
    }
  }

  /** performSemaUpTo on a module that is neither a REPL nor stopped by the
      standard library or a partial-module load error type-checks every file
      in whole-module mode and otherwise exactly the primary ones, when its
      limit is TypeChecked; the other files end import-resolved. */
  lemma SemaFilesFollowMode(s: Session, cfg: SemaConfig, eng: Engines, limit: ASTStage)
    requires limit != Unprocessed && Fresh(s) && SILModeReady(cfg, limit)
    requires !StdlibFails(cfg, eng) && cfg.inputKind != SwiftREPL && !HadLoadError(eng, PartialModuleCount(cfg))
    ensures var r := SemaUpTo(s, cfg, eng, limit);
            forall k :: 0 <= k < |r.files| ==> StageFollowsMode(r.files[k], cfg, limit)
  {
    var s3 := WithOnoneSupport(Prelude(s, cfg), cfg);
    assert s3.files == [];
    MainFileAddedReady(s3, cfg, limit);
    CheckedFilesFollowMode(MainFileAdded(s3, cfg), cfg, eng, limit);
  }

  /** The module is marked as having resolved its imports exactly when no
      partial module failed to load, and only once every source file is past
      Unprocessed. */
  lemma ResolvedImportsOnlyWhenAllResolved(s: Session, cfg: SemaConfig, eng: Engines, limit: ASTStage)
    requires ReadyToCheck(s, cfg, limit) && !s.hasResolvedImports
    ensures var r := CheckedTypesUpTo(s, cfg, eng, limit);
            && (r.hasResolvedImports <==> !HadLoadError(eng, PartialModuleCount(cfg)))
            && (r.hasResolvedImports ==> forall k :: 0 <= k < |r.files| ==> r.files[k].stage != Unprocessed)
  {
    CheckedTypesUpToSplits(s, cfg, eng, limit);
    ParsedFilesResolved(s, cfg);
    var q := CodeCompletionDiagnosed(PartialModulesAndLibrariesParsed(s, cfg), cfg);
    if !HadLoadError(eng, PartialModuleCount(cfg)) {
      FilesCheckedResolvesAll(q, cfg, eng, limit);
      FilesCheckedEvents(q, cfg, eng, limit);
      TypesCheckedSplits(q, cfg, eng, limit);
    }
  }

  /** The library files parsed are past Unprocessed. */
  lemma ParsedFilesResolved(s: Session, cfg: SemaConfig)
    ensures var p := PartialModulesAndLibrariesParsed(s, cfg);
            forall k :: |s.files| <= k < |p.files| ==> p.files[k].stage != Unprocessed
  {
    PartialModulesAndLibrariesEvents(s, cfg);
    var p := PartialModulesAndLibrariesParsed(s, cfg);
    var libs := LibraryBuffers(cfg.inputs.sourceBuffers, cfg.inputs.mainBuffer);
    forall k | |s.files| <= k < |p.files| ensures p.files[k].stage != Unprocessed {
      assert p.files[k] == LibraryFiles(cfg, libs)[k - |s.files|];
      LibraryFileAt(cfg, libs, k - |s.files|);
    }
  }

  /** The engine calls of parseAndCheckTypesUpTo: finishTypeChecking runs
      exactly when no partial module failed to load and the limit is
      TypeChecked, and then its calls (the whole-module checks of every file
      in whole-module mode, then the implementation-only import check) are
      the last ones; whole-module checks run in no other case; and in code
      completion no transform runs. */
  lemma FinishTypeCheckingOnlyAtTypeChecked(s: Session, cfg: SemaConfig, eng: Engines, limit: ASTStage)
    requires ReadyToCheck(s, cfg, limit)
    ensures var r, clean := CheckedTypesUpTo(s, cfg, eng, limit), !HadLoadError(eng, PartialModuleCount(cfg));
            && Extends(s.events, r.events)
            && (CheckImplementationOnlyImports in r.events[|s.events|..] <==> clean && limit == TypeChecked)
            && (clean && limit == TypeChecked ==>
                  |FinishEvents(cfg, |r.files|)| <= |r.events|
                  && r.events[|r.events| - |FinishEvents(cfg, |r.files|)|..] == FinishEvents(cfg, |r.files|))
            && (forall k :: |s.events| <= k < |r.events| && r.events[k].FileEvent? && r.events[k].action == WholeModuleTypeCheck
                  ==> cfg.wholeModule && clean && limit == TypeChecked)
            && (cfg.codeCompletion ==>
                  forall k :: |s.events| <= k < |r.events| && r.events[k].FileEvent? ==> !IsTransform(r.events[k].action))
  {
    if HadLoadError(eng, PartialModuleCount(cfg)) {
      LoadErrorStopsBeforeTypeChecking(s, cfg, eng, limit);
      LoadErrorKeepsParse(s, cfg, eng, limit);
      ParsedEvents(s, cfg);
    } else {
      CleanParseFinishes(s, cfg, eng, limit);
    }
  }

  /** parseAndCheckTypesUpTo keeps the implicit imports, the SIL module and
      the kind and buffer of every file that existed before it. */
  lemma CheckedTypesUpToFrame(s: Session, cfg: SemaConfig, eng: Engines, limit: ASTStage)
    requires ReadyToCheck(s, cfg, limit)
    ensures var r := CheckedTypesUpTo(s, cfg, eng, limit);
            && r.implicitImportNames == s.implicitImportNames && r.silModuleCreated == s.silModuleCreated
            && |r.files| >= |s.files|
            && forall k :: 0 <= k < |s.files| ==> r.files[k].kind == s.files[k].kind && r.files[k].buffer == s.files[k].buffer
  {
    CheckedTypesUpToSplits(s, cfg, eng, limit);
    PartialModulesAndLibrariesEvents(s, cfg);
    var q := CodeCompletionDiagnosed(PartialModulesAndLibrariesParsed(s, cfg), cfg);
    assert forall k :: 0 <= k < |s.files| ==> q.files[k] == s.files[k];
    if !HadLoadError(eng, PartialModuleCount(cfg)) {
      TypesCheckedEvents(q, cfg, eng, limit);
      TypesCheckedSameFileList(q, cfg, eng, limit);
    }
  }

  /** performSemaUpTo keeps the main module's session well formed. */
  lemma SemaUpToKeepsWellFormed(s: Session, cfg: SemaConfig, eng: Engines, limit: ASTStage)
    requires limit != Unprocessed && Fresh(s) && SILModeReady(cfg, limit)
    ensures WellFormed(SemaUpTo(s, cfg, eng, limit), cfg)
  {
    var s3 := WithOnoneSupport(Prelude(s, cfg), cfg);
    assert WellFormed(s3, cfg);
    if !StdlibFails(cfg, eng) {
      if cfg.inputKind == SwiftREPL {
        FileCreatedKeepsWellFormed(s3, cfg, REPLFile, None);
        SameFileListKeepsWellFormed(FileCreated(s3, cfg, REPLFile, None), REPLFileCreated(s3, cfg), cfg);
      } else {
        MainFileAddedReady(s3, cfg, limit);
        CheckedTypesUpToKeepsWellFormed(MainFileAdded(s3, cfg), cfg, eng, limit);
      }
    }
  }

  /** A standard library that is imported implicitly but missing or failed to
      load stops performSemaUpTo before any file exists: only the SIL module
      (in SIL mode) and the library request reach the engines, SwiftOnoneSupport
      is not added, and a missing library is diagnosed as an error. */
  lemma StdlibFailureStopsSema(s: Session, cfg: SemaConfig, eng: Engines, limit: ASTStage)
    requires limit != Unprocessed && Fresh(s) && SILModeReady(cfg, limit) && StdlibFails(cfg, eng)
    ensures var r := SemaUpTo(s, cfg, eng, limit);
            && r.files == [] && !r.hasResolvedImports
            && r.events == s.events + (if cfg.inputKind == SIL then [CreateSILModule] else []) + [LoadStdlib]
            && r.implicitImportNames == s.implicitImportNames
            && (eng.stdlib == StdlibMissing ==> r.hadError && r.diags == s.diags + [StdlibNotFound])
            && (eng.stdlib == StdlibFailedToLoad ==> r.diags == s.diags)
  {
  }

  /** A REPL gets one empty file, without a buffer and already TypeChecked,
      and nothing is parsed or type-checked. */
  lemma REPLGetsOneCheckedFile(s: Session, cfg: SemaConfig, eng: Engines, limit: ASTStage)
    requires limit != Unprocessed && Fresh(s) && SILModeReady(cfg, limit)
    requires cfg.inputKind == SwiftREPL && !StdlibFails(cfg, eng)
    ensures var r := SemaUpTo(s, cfg, eng, limit);
            && r.files == [SourceFile(REPLFile, None, ParsingFlagFor(cfg, None), TypeChecked)]
            && r.events == s.events + (if cfg.imports.importStdlib then [LoadStdlib] else [])
            && !r.hasResolvedImports
  {
  }

  /** Once the standard library is available, SwiftOnoneSupport is added to
      the implicit imports exactly when it should be, and nothing else is. */
  lemma OnoneSupportImportedWhenItShould(s: Session, cfg: SemaConfig, eng: Engines, limit: ASTStage)
    requires limit != Unprocessed && Fresh(s) && SILModeReady(cfg, limit) && !StdlibFails(cfg, eng)
    ensures SemaUpTo(s, cfg, eng, limit).implicitImportNames
            == s.implicitImportNames + (if ShouldImplicitlyImportSwiftOnoneSupportModule(cfg.imports) then [SwiftOnoneSupport] else [])
  {
    var s3 := WithOnoneSupport(Prelude(s, cfg), cfg);
    if cfg.inputKind != SwiftREPL {
      MainFileAddedReady(s3, cfg, limit);
      CheckedTypesUpToFrame(MainFileAdded(s3, cfg), cfg, eng, limit);
    }
  }

  /** The main file is the module's first file, and the SIL module exists
      exactly in SIL mode. */
  lemma MainFileIsFirst(s: Session, cfg: SemaConfig, eng: Engines, limit: ASTStage)
    requires limit != Unprocessed && Fresh(s) && SILModeReady(cfg, limit) && !StdlibFails(cfg, eng)
    requires cfg.inputKind != SwiftREPL
    ensures var r := SemaUpTo(s, cfg, eng, limit);
            && (r.silModuleCreated <==> cfg.inputKind == SIL)
            && (cfg.inputs.mainBuffer.Some? ==>
                  |r.files| > 0 && r.files[0].kind == cfg.mainFileKind && r.files[0].buffer == cfg.inputs.mainBuffer)
  {
    var s3 := WithOnoneSupport(Prelude(s, cfg), cfg);
    MainFileAddedReady(s3, cfg, limit);
    CheckedTypesUpToFrame(MainFileAdded(s3, cfg), cfg, eng, limit);
  }

  /** One more file of the type-checking loop. */
  lemma TypeCheckedEachStep(s: Session, cfg: SemaConfig, eng: Engines, limit: ASTStage, files: seq<nat>, i: nat)
    requires forall j :: 0 <= j < |files| ==> files[j] < |s.files|
    requires i < |files|
    ensures files[i] < |TypeCheckedEach(s, cfg, eng, limit, files[..i]).files|
    ensures TypeCheckedEach(s, cfg, eng, limit, files[..i + 1])
            == TypeCheckStep(TypeCheckedEach(s, cfg, eng, limit, files[..i]), cfg, eng, limit, files[i])
  {
    assert files[..i + 1][..i] == files[..i];
  }

  /** The calls for files 0, ..., k are those for 0, ..., k - 1 and one for k. */
  lemma RangeEventsStep(action: FileAction, k: nat)
    ensures FileEvents(action, Range(k + 1)) == FileEvents(action, Range(k)) + [FileEvent(action, k)]
  {
    assert Range(k + 1)[..k] == Range(k);
  }
}
