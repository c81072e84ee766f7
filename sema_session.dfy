/** The compiler instance's main module as the pipeline drives it: the
    methods of performSemaUpTo and its steps, each proved to leave exactly the
    session the corresponding function of module Sema describes. */
module SemaDriver {
  import opened FrontendTypes
  import opened Inputs
  import opened Sema
  import SemaFacts

  /** The delayed whole-module checks of finishTypeChecking, one per source
      file of a module of n files, in file order. */
  method WholeModuleChecks(n: nat) returns (checks: seq<Event>)
    ensures checks == FileEvents(WholeModuleTypeCheck, Range(n))
  {
    checks := [];
    var k := 0;
    while k < n
      invariant 0 <= k <= n
      invariant checks == FileEvents(WholeModuleTypeCheck, Range(k))
    {
      SemaFacts.RangeEventsStep(WholeModuleTypeCheck, k);
      checks := checks + [FileEvent(WholeModuleTypeCheck, k)];
      k := k + 1;
    }
  }

  class SemaSession {
    var files: seq<SourceFile>
    var primarySourceFiles: seq<nat>
    var codeCompletionFile: Option<nat>
    var hasResolvedImports: bool
    var silModuleCreated: bool
    var implicitImportNames: seq<string>
    var events: seq<Event>
    var diags: seq<Diag>
    var hadError: bool

    /** The session these fields hold. */
    ghost function Snapshot(): Session
      reads this
    {
      Session(files, primarySourceFiles, codeCompletionFile, hasResolvedImports, silModuleCreated,
              implicitImportNames, events, diags, hadError)
    }

    /** A main module with no files, and the implicit imports named on the
        command line. */
    constructor (importNames: seq<string>)
      ensures Snapshot() == Session([], [], None, false, false, importNames, [], [], false)
      ensures Fresh(Snapshot())
    {
      files := [];
      primarySourceFiles := [];
      codeCompletionFile := None;
      hasResolvedImports := false;
      silModuleCreated := false;
      implicitImportNames := importNames;
      events := [];
      diags := [];
      hadError := false;
    }

    /** createSourceFileForMainModule. */
    method CreateSourceFileForMainModule(cfg: SemaConfig, kind: SourceFileKind, buffer: Option<BufferId>)
      modifies this
      ensures Snapshot() == FileCreated(old(Snapshot()), cfg, kind, buffer)
    {
      var index := |files|;
      files := files + [SourceFile(kind, buffer, ParsingFlagFor(cfg, buffer), Unprocessed)];
      if IsPrimaryBuffer(cfg, buffer) {
        primarySourceFiles := primarySourceFiles + [index];
      }
      if IsCodeCompletionBuffer(cfg, buffer) {
        codeCompletionFile := Some(index);
      }
    }

    /** performImportResolution on file i. */
    method PerformImportResolution(i: nat)
      requires i < |files|
      modifies this
      ensures Snapshot() == ImportsResolvedIn(old(Snapshot()), i)
    {
      var f := files[i];
      if f.stage != TypeChecked {
        files := files[i := f.(stage := ImportsResolved)];
      }
      events := events + [FileEvent(ImportResolution, i)];
    }

    /** performTypeChecking on file i. */
    method PerformTypeChecking(eng: Engines, i: nat)
      requires i < |files|
      modifies this
      ensures Snapshot() == TypeCheckedIn(old(Snapshot()), eng, i)
    {
      var f := files[i];
      files := files[i := f.(stage := TypeChecked)];
      events := events + [FileEvent(TypeCheck, i)];
      if f.buffer.Some? && f.buffer.value in eng.erroneousBuffers {
        hadError := true;
      }
    }

    /** An engine call on file i that changes nothing the pipeline tracks. */
    method Perform(action: FileAction, i: nat)
      modifies this
      ensures Snapshot() == EngineCalled(old(Snapshot()), action, i)
    {
      events := events + [FileEvent(action, i)];
    }

    /** parseLibraryFile. */
    method ParseLibraryFile(cfg: SemaConfig, b: BufferId)
      modifies this
      ensures Snapshot() == LibraryParsed(old(Snapshot()), cfg, b)
    {
      CreateSourceFileForMainModule(cfg, LibraryFile, Some(b));
      PerformImportResolution(|files| - 1);
    }

    /** parsePartialModulesAndLibraryFiles: every partial module is loaded,
        then every source buffer but the main one is parsed as a library
        file; the result says whether a partial module failed to load. */
    method ParsePartialModulesAndLibraryFiles(cfg: SemaConfig, eng: Engines) returns (hadLoadError: bool)
      modifies this
      ensures Snapshot() == PartialModulesAndLibrariesParsed(old(Snapshot()), cfg)
      ensures hadLoadError <==> HadLoadError(eng, PartialModuleCount(cfg))
    {
      hadLoadError := LoadPartialModules(eng, |cfg.inputs.partialModules|);
      ParseLibraryFiles(cfg);
    }

    /** The first loop of parsePartialModulesAndLibraryFiles: partial modules
        0 .. n - 1 are loaded in order, and loading goes on after a failure. */
    method LoadPartialModules(eng: Engines, n: nat) returns (hadLoadError: bool)
      modifies this`events
      ensures Snapshot() == PartialsLoaded(old(Snapshot()), n)
      ensures hadLoadError <==> HadLoadError(eng, n)
    {
      ghost var s0 := Snapshot();
      hadLoadError := false;
      var i := 0;
      while i < n
        invariant 0 <= i <= n
        invariant Snapshot() == PartialsLoaded(s0, i)
        invariant hadLoadError <==> HadLoadError(eng, i)
      {
        events := events + [LoadPartialModule(i)];
        if i in eng.partialLoadFails {
          hadLoadError := true;
        }
        i := i + 1;
      }
    }

    /** The second loop of parsePartialModulesAndLibraryFiles: every source
        buffer but the main one becomes a library file, in order. */
    method ParseLibraryFiles(cfg: SemaConfig)
      modifies this
      ensures Snapshot() == LibrariesParsed(old(Snapshot()), cfg, cfg.inputs.sourceBuffers)
    {
      ghost var s0 := Snapshot();
      var bufs := cfg.inputs.sourceBuffers;
      var j := 0;
      while j < |bufs|
        invariant 0 <= j <= |bufs|
        invariant Snapshot() == LibrariesParsed(s0, cfg, bufs[..j])
      {
        assert bufs[..j + 1][..j] == bufs[..j];
        if Some(bufs[j]) != cfg.inputs.mainBuffer {
          ParseLibraryFile(cfg, bufs[j]);
        }
        j := j + 1;
      }
      assert bufs[..j] == bufs;
    }

    /** parseAndTypeCheckMainFileUpTo for the main file, file 0. */
    method ParseAndTypeCheckMainFileUpTo(cfg: SemaConfig, eng: Engines, limit: ASTStage)
      requires |files| > 0 && limit != Unprocessed
      requires silModuleCreated ==> MainIsPrimary(cfg) && limit == TypeChecked
      modifies this
      ensures Snapshot() == MainFileCheckedUpTo(old(Snapshot()), cfg, eng, limit)
    {
      var mainIsPrimary := cfg.wholeModule || IsPrimaryBuffer(cfg, cfg.inputs.mainBuffer);
      if mainIsPrimary && limit == TypeChecked {
        PerformTypeChecking(eng, 0);
      } else {
        PerformImportResolution(0);
      }
      if silModuleCreated {
        Perform(ParseSIL, 0);
      }
      if mainIsPrimary && !hadError && cfg.debuggerTestingTransform {
        Perform(DebuggerTestingTransform, 0);
      }
    }

    /** The callback of parseAndCheckTypesUpTo for file i. */
    method TypeCheckOne(cfg: SemaConfig, eng: Engines, limit: ASTStage, i: nat)
      requires i < |files|
      modifies this
      ensures Snapshot() == TypeCheckStep(old(Snapshot()), cfg, eng, limit, i)
    {
      if limit == ImportsResolved {
        Perform(BindExtensions, i);
      } else {
        PerformTypeChecking(eng, i);
        if !hadError && cfg.pcMacro {
          Perform(PCMacro, i);
        }
        if !hadError && cfg.playgroundTransform {
          Perform(PlaygroundTransform, i);
        }
      }
    }

    /** forEachFileToTypeCheck with that callback: every source file in
        whole-module mode, otherwise the primary source files in order. */
    method TypeCheckFiles(cfg: SemaConfig, eng: Engines, limit: ASTStage)
      requires WellFormed(Snapshot(), cfg)
      modifies this
      ensures Snapshot() == TypeCheckedEach(old(Snapshot()), cfg, eng, limit, FilesToTypeCheck(old(Snapshot()), cfg))
    {
      ghost var s0 := Snapshot();
      var toCheck := if cfg.wholeModule then Range(|files|) else primarySourceFiles;
      assert toCheck == FilesToTypeCheck(s0, cfg);
      var i := 0;
      while i < |toCheck|
        invariant 0 <= i <= |toCheck|
        invariant Snapshot() == TypeCheckedEach(s0, cfg, eng, limit, toCheck[..i])
        invariant |files| == |s0.files|
      {
        SemaFacts.TypeCheckedEachStep(s0, cfg, eng, limit, toCheck, i);
        TypeCheckOne(cfg, eng, limit, toCheck[i]);
        i := i + 1;
      }
      assert toCheck[..i] == toCheck;
    }

    /** finishTypeChecking. */
    method FinishTypeChecking(cfg: SemaConfig)
      modifies this`events
      ensures Snapshot() == TypeCheckingFinished(old(Snapshot()), cfg)
    {
      var checks: seq<Event> := [];
      if cfg.wholeModule {
        checks := WholeModuleChecks(|files|);
      }
      events := events + (checks + [CheckImplementationOnlyImports]);
    }

    /** The part of parseAndCheckTypesUpTo after a clean parse. */
    method CheckFilesUpTo(cfg: SemaConfig, eng: Engines, limit: ASTStage)
      requires limit != Unprocessed && WellFormed(Snapshot(), cfg)
      requires cfg.inputs.mainBuffer.Some? ==> |files| > 0
      requires silModuleCreated ==> MainIsPrimary(cfg) && limit == TypeChecked
      requires forall k :: (if cfg.inputs.mainBuffer.Some? then 1 else 0) <= k < |files| ==> files[k].stage != Unprocessed
      modifies this
      ensures Snapshot() == TypesChecked(old(Snapshot()), cfg, eng, limit)
    {
      CheckFiles(cfg, eng, limit);
      if limit == ImportsResolved {
        return;
      }
      FinishTypeChecking(cfg);
    }

    /** The main file, the check that every file has had its imports resolved
        before the module is marked so, and the files to type-check. */
    method CheckFiles(cfg: SemaConfig, eng: Engines, limit: ASTStage)
      requires limit != Unprocessed && WellFormed(Snapshot(), cfg)
      requires cfg.inputs.mainBuffer.Some? ==> |files| > 0
      requires silModuleCreated ==> MainIsPrimary(cfg) && limit == TypeChecked
      requires forall k :: (if cfg.inputs.mainBuffer.Some? then 1 else 0) <= k < |files| ==> files[k].stage != Unprocessed
      modifies this
      ensures Snapshot() == FilesChecked(old(Snapshot()), cfg, eng, limit)
    {
      CheckMainFile(cfg, eng, limit);
      hasResolvedImports := true;
      TypeCheckFiles(cfg, eng, limit);
    }

    /** The main file, when there is one, up to `limit`; afterwards no file is
        left unprocessed, which the frontend asserts before it marks the
        module's imports resolved. */
    method CheckMainFile(cfg: SemaConfig, eng: Engines, limit: ASTStage)
      requires limit != Unprocessed && WellFormed(Snapshot(), cfg)
      requires cfg.inputs.mainBuffer.Some? ==> |files| > 0
      requires silModuleCreated ==> MainIsPrimary(cfg) && limit == TypeChecked
      requires forall k :: (if cfg.inputs.mainBuffer.Some? then 1 else 0) <= k < |files| ==> files[k].stage != Unprocessed
      modifies this
      ensures Snapshot() == if cfg.inputs.mainBuffer.Some? then MainFileCheckedUpTo(old(Snapshot()), cfg, eng, limit)
                            else old(Snapshot())
      ensures WellFormed(Snapshot(), cfg)
    {
      ghost var s0 := Snapshot();
      if cfg.inputs.mainBuffer.Some? {
        ParseAndTypeCheckMainFileUpTo(cfg, eng, limit);
      }
      SemaFacts.MainFileStages(s0, cfg, eng, limit);
      assert forall k :: 0 <= k < |files| ==> files[k].stage != Unprocessed;
      SameFileListKeepsWellFormed(s0, Snapshot(), cfg);
    }

    /** parseAndCheckTypesUpTo. */
    method ParseAndCheckTypesUpTo(cfg: SemaConfig, eng: Engines, limit: ASTStage)
      requires ReadyToCheck(Snapshot(), cfg, limit)
      modifies this
      ensures Snapshot() == CheckedTypesUpTo(old(Snapshot()), cfg, eng, limit)
    {
      ghost var s0 := Snapshot();
      SemaFacts.CheckedTypesUpToSplits(s0, cfg, eng, limit);
      var hadLoadError := ParsePartialModulesAndLibraryFiles(cfg, eng);
      if cfg.codeCompletion {
        diags := diags + [ErrorDoingCodeCompletion];
        hadError := true;
      }
      assert Snapshot() == CodeCompletionDiagnosed(PartialModulesAndLibrariesParsed(s0, cfg), cfg);
      if hadLoadError {
        return;
      }
      SemaFacts.ParsedFilesResolved(s0, cfg);
      CheckFilesUpTo(cfg, eng, limit);
    }

    /** loadStdlib: false, after diagnosing a missing library, when the
        standard library is missing or failed to load. */
    method LoadStandardLibrary(eng: Engines) returns (ok: bool)
      modifies this
      ensures ok <==> eng.stdlib == StdlibLoaded
      ensures var requested := old(Snapshot()).(events := old(events) + [LoadStdlib]);
              Snapshot() == if ok then requested else StdlibFailed(requested, eng)
    {
      events := events + [LoadStdlib];
      if eng.stdlib == StdlibMissing {
        diags := diags + [StdlibNotFound];
        hadError := true;
        return false;
      }
      return eng.stdlib == StdlibLoaded;
    }

    /** The start of performSemaUpTo: the SIL module for SIL input, the
        standard library when it is imported implicitly (false when that
        fails), and SwiftOnoneSupport when it should be imported. */
    method SetUpImplicitImports(cfg: SemaConfig, eng: Engines) returns (ok: bool)
      modifies this
      ensures ok <==> !StdlibFails(cfg, eng)
      ensures Snapshot() == if ok then WithOnoneSupport(Prelude(old(Snapshot()), cfg), cfg)
                            else StdlibFailed(Prelude(old(Snapshot()), cfg), eng)
    {
      ghost var s0 := Snapshot();
      if cfg.inputKind == SIL {
        events := events + [CreateSILModule];
        silModuleCreated := true;
      }
      if cfg.imports.importStdlib {
        ok := LoadStandardLibrary(eng);
        if !ok {
          return;
        }
      }
      ok := true;
      assert Snapshot() == Prelude(s0, cfg);
      if ShouldImplicitlyImportSwiftOnoneSupportModule(cfg.imports) {
        implicitImportNames := implicitImportNames + [SwiftOnoneSupport];
      }
    }

    /** performSemaUpTo. */
    method PerformSemaUpTo(cfg: SemaConfig, eng: Engines, limit: ASTStage)
      requires limit != Unprocessed && Fresh(Snapshot()) && SILModeReady(cfg, limit)
      modifies this
      ensures Snapshot() == SemaUpTo(old(Snapshot()), cfg, eng, limit)
    {
      var ok := SetUpImplicitImports(cfg, eng);
      if !ok {
        return;
      }
      ghost var s3 := Snapshot();
      if cfg.inputKind == SwiftREPL {
        CreateSourceFileForMainModule(cfg, REPLFile, None);
        files := files[|files| - 1 := files[|files| - 1].(stage := TypeChecked)];
        return;
      }
      if cfg.inputs.mainBuffer.Some? {
        CreateSourceFileForMainModule(cfg, cfg.mainFileKind, cfg.inputs.mainBuffer);
      }
      assert Snapshot() == MainFileAdded(s3, cfg);
      MainFileAddedReady(s3, cfg, limit);
      ParseAndCheckTypesUpTo(cfg, eng, limit);
    }
  }
}
