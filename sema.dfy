/** The staged semantic-analysis pipeline of the frontend (performSemaUpTo and
    the steps it drives): partial modules are loaded, library files parsed
    and import-resolved, the main file checked last, then the files to
    type-check are checked and the whole-module checks run. The module loader,
    parser and type checker are engines outside this model: their calls are
    recorded as events, and their outcomes are inputs (Engines). */
module Sema {
  import opened FrontendTypes
  import opened Inputs

  /** The processing stage of a source file, in increasing order. */
  datatype ASTStage = Unprocessed | ImportsResolved | TypeChecked

  datatype SourceFileKind = LibraryFile | MainFile | REPLFile | SILFile | InterfaceFile

  /** The parsing option chosen for a new source file. */
  datatype ParsingFlag = DisableDelayedBodies | SuppressWarnings

  /** A source file of the main module; the REPL file has no buffer. */
  datatype SourceFile = SourceFile(kind: SourceFileKind, buffer: Option<BufferId>, flag: ParsingFlag, stage: ASTStage)

  /** What an engine is asked to do with one source file (by its index in the
      main module's file list). */
  datatype FileAction =
    | ImportResolution
    | TypeCheck
    | BindExtensions
    | PCMacro
    | PlaygroundTransform
    | DebuggerTestingTransform
    | ParseSIL
    | WholeModuleTypeCheck

  /** The calls the pipeline makes into the engines, in order. */
  datatype Event =
    | CreateSILModule
    | LoadStdlib
    | LoadPartialModule(index: nat)
    | FileEvent(action: FileAction, file: nat)
    | CheckImplementationOnlyImports

  datatype StdlibStatus = StdlibLoaded | StdlibMissing | StdlibFailedToLoad

  /** The engines' outcomes: whether the standard library loads, which partial
      modules fail to load (by index), and which buffers fail to type-check. */
  datatype Engines = Engines(stdlib: StdlibStatus, partialLoadFails: set<nat>, erroneousBuffers: set<BufferId>)

  /** The implicit-import options: whether the standard library is imported
      implicitly, and what decides whether SwiftOnoneSupport is too. */
  datatype ImportOptions = ImportOptions(importStdlib: bool, shouldOptimize: bool, trackSystemDeps: bool, actionGeneratesSIL: bool)

  /** The invocation as the pipeline reads it, and the outcome of input setup.
      `wholeModule` is the invocation's whole-module mode, which also decides
      whether whole-module checking is delayed to the end. */
  datatype SemaConfig = SemaConfig(
    inputKind: InputFileKind,
    mainFileKind: SourceFileKind,
    imports: ImportOptions,
    wholeModule: bool,
    codeCompletion: bool,
    pcMacro: bool,
    playgroundTransform: bool,
    debuggerTestingTransform: bool,
    inputs: InputState)

  /** The state the pipeline updates: the main module's source files, the
      primary source files (as file indices, in record order), the file
      holding the completion point, the module's resolved-imports flag, the
      SIL module, the implicit import list, the engine calls, the diagnostics
      raised and whether any error has been raised. */
  datatype Session = Session(
    files: seq<SourceFile>,
    primarySourceFiles: seq<nat>,
    codeCompletionFile: Option<nat>,
    hasResolvedImports: bool,
    silModuleCreated: bool,
    implicitImportNames: seq<string>,
    events: seq<Event>,
    diags: seq<Diag>,
    hadError: bool)

  const SwiftOnoneSupport: string := "SwiftOnoneSupport"

  /** shouldImplicityImportSwiftOnoneSupportModule: only unoptimized builds
      that import the standard library, and then only when system dependencies
      are tracked or the action produces SIL. */
  function ShouldImplicitlyImportSwiftOnoneSupportModule(o: ImportOptions): (r: bool)
    ensures r ==> o.importStdlib && !o.shouldOptimize
    ensures o.importStdlib && !o.shouldOptimize ==> (r <==> o.trackSystemDeps || o.actionGeneratesSIL)
  {
    if !o.importStdlib then false
    else if o.shouldOptimize then false
    else o.trackSystemDeps || o.actionGeneratesSIL
  }

  predicate IsPrimaryBuffer(cfg: SemaConfig, buffer: Option<BufferId>)
  {
    buffer.Some? && buffer.value in cfg.inputs.primaryBuffers
  }

  predicate IsCodeCompletionBuffer(cfg: SemaConfig, buffer: Option<BufferId>)
  {
    buffer.Some? && cfg.inputs.codeCompletionPoint.Some? && buffer.value == cfg.inputs.codeCompletionPoint.value.buffer
  }

  /** The parsing flag of a new file: delayed body parsing is disabled for
      primaries and in whole-module mode, otherwise warnings are suppressed. */
  function ParsingFlagFor(cfg: SemaConfig, buffer: Option<BufferId>): ParsingFlag
  {
    if IsPrimaryBuffer(cfg, buffer) || cfg.wholeModule then DisableDelayedBodies else SuppressWarnings
  }

  /** Each file's parsing flag follows the primary/whole-module rule. */
  predicate FlagsFollowRule(files: seq<SourceFile>, cfg: SemaConfig)
  {
    forall k :: 0 <= k < |files| ==>
      (files[k].flag == DisableDelayedBodies <==> cfg.wholeModule || IsPrimaryBuffer(cfg, files[k].buffer))
  }

  /** The primary source files are exactly the files with primary buffers. */
  predicate PrimariesRecorded(files: seq<SourceFile>, primaries: seq<nat>, cfg: SemaConfig)
  {
    && (forall i :: 0 <= i < |primaries| ==> primaries[i] < |files| && IsPrimaryBuffer(cfg, files[primaries[i]].buffer))
    && (forall k :: 0 <= k < |files| && IsPrimaryBuffer(cfg, files[k].buffer) ==> k in primaries)
  }

  predicate StrictlyIncreasing(xs: seq<nat>)
  {
    forall i, j :: 0 <= i < j < |xs| ==> xs[i] < xs[j]
  }

  /** The completion file, if any, holds the completion buffer. */
  predicate CompletionFileHolds(files: seq<SourceFile>, cc: Option<nat>, cfg: SemaConfig)
  {
    cc.Some? ==> cc.value < |files| && IsCodeCompletionBuffer(cfg, files[cc.value].buffer)
  }

  /** The session facts every pipeline step keeps: each file's parsing flag
      follows the primary/whole-module rule, the primary source files are
      exactly the files with primary buffers, in the order they were created,
      and the completion file, if any, holds the completion buffer. */
  predicate WellFormed(s: Session, cfg: SemaConfig)
  {
    && FlagsFollowRule(s.files, cfg)
    && PrimariesRecorded(s.files, s.primarySourceFiles, cfg)
    && StrictlyIncreasing(s.primarySourceFiles)
    && CompletionFileHolds(s.files, s.codeCompletionFile, cfg)
  }

  /** Two sessions with the same files up to their stages and the same
      primary and completion bookkeeping. */
  predicate SameFileList(a: Session, b: Session)
  {
    && |a.files| == |b.files|
    && (forall k :: 0 <= k < |a.files| ==>
          a.files[k].buffer == b.files[k].buffer && a.files[k].flag == b.files[k].flag && a.files[k].kind == b.files[k].kind)
    && a.primarySourceFiles == b.primarySourceFiles
    && a.codeCompletionFile == b.codeCompletionFile
  }

  lemma SameFileListKeepsWellFormed(a: Session, b: Session, cfg: SemaConfig)
    requires WellFormed(a, cfg) && SameFileList(a, b)
    ensures WellFormed(b, cfg)
  {
  }

  /** createSourceFileForMainModule: appends a new unprocessed file with its
      parsing flag, records it as a primary source file when its buffer is
      primary, and as the completion file when it holds the completion buffer. */
  function FileCreated(s: Session, cfg: SemaConfig, kind: SourceFileKind, buffer: Option<BufferId>): (r: Session)
    ensures |r.files| == |s.files| + 1 && r.files[..|s.files|] == s.files && r.files[|s.files|].stage == Unprocessed
    ensures r.files[|s.files|].buffer == buffer && r.files[|s.files|].kind == kind
    ensures r.events == s.events && r.diags == s.diags && r.hadError == s.hadError
    ensures r.implicitImportNames == s.implicitImportNames
  {
    var index := |s.files|;
    s.(files := s.files + [SourceFile(kind, buffer, ParsingFlagFor(cfg, buffer), Unprocessed)],
       primarySourceFiles := if IsPrimaryBuffer(cfg, buffer) then s.primarySourceFiles + [index] else s.primarySourceFiles,
       codeCompletionFile := if IsCodeCompletionBuffer(cfg, buffer) then Some(index) else s.codeCompletionFile)
  }

  /** A new file keeps the session well formed: its flag follows the rule,
      and it is appended to the primary source files, after every earlier
      one, exactly when its buffer is primary. */
  lemma FileCreatedKeepsWellFormed(s: Session, cfg: SemaConfig, kind: SourceFileKind, buffer: Option<BufferId>)
    requires WellFormed(s, cfg)
    ensures WellFormed(FileCreated(s, cfg, kind, buffer), cfg)
  {
    var r := FileCreated(s, cfg, kind, buffer);
    var f := SourceFile(kind, buffer, ParsingFlagFor(cfg, buffer), Unprocessed);
    assert r.files == s.files + [f];
    var p := IsPrimaryBuffer(cfg, buffer);
    assert r.primarySourceFiles == if p then s.primarySourceFiles + [|s.files|] else s.primarySourceFiles;
    PrimaryAppended(s.files, s.primarySourceFiles, f, cfg);
    assert CompletionFileHolds(r.files, r.codeCompletionFile, cfg);
  }

  /** Appending a file keeps the primary bookkeeping when its index is
      recorded exactly if its buffer is primary. */
  lemma PrimaryAppended(files: seq<SourceFile>, primaries: seq<nat>, f: SourceFile, cfg: SemaConfig)
    requires PrimariesRecorded(files, primaries, cfg) && StrictlyIncreasing(primaries)
    ensures var ps := if IsPrimaryBuffer(cfg, f.buffer) then primaries + [|files|] else primaries;
            PrimariesRecorded(files + [f], ps, cfg) && StrictlyIncreasing(ps)
  {
    var r := files + [f];
    var ps := if IsPrimaryBuffer(cfg, f.buffer) then primaries + [|files|] else primaries;
    forall k | 0 <= k < |r| && IsPrimaryBuffer(cfg, r[k].buffer) ensures k in ps {
      if k < |files| {
        assert files[k] == r[k];
        assert k in primaries;
      } else {
        assert ps[|ps| - 1] == k;
      }
    }
    forall i | 0 <= i < |ps| ensures ps[i] < |r| && IsPrimaryBuffer(cfg, r[ps[i]].buffer) {
      if i < |primaries| {
        assert ps[i] == primaries[i];
        assert r[ps[i]] == files[ps[i]];
      }
    }
  }

  /** An engine call on one file that changes nothing the pipeline tracks. */
  function EngineCalled(s: Session, action: FileAction, i: nat): Session
  {
    s.(events := s.events + [FileEvent(action, i)])
  }

  /** performImportResolution: the file reaches at least ImportsResolved. */
  function ImportsResolvedIn(s: Session, i: nat): (r: Session)
    requires i < |s.files|
    ensures SameFileList(s, r) && r.files[i].stage != Unprocessed
    ensures forall k :: 0 <= k < |s.files| && k != i ==> r.files[k] == s.files[k]
  {
    var f := s.files[i];
    s.(files := s.files[i := f.(stage := if f.stage == TypeChecked then TypeChecked else ImportsResolved)],
       events := s.events + [FileEvent(ImportResolution, i)])
  }

  /** performTypeChecking: the file becomes TypeChecked, and an error is
      raised when its buffer does not type-check. */
  function TypeCheckedIn(s: Session, eng: Engines, i: nat): (r: Session)
    requires i < |s.files|
    ensures SameFileList(s, r) && r.files[i].stage == TypeChecked
    ensures forall k :: 0 <= k < |s.files| && k != i ==> r.files[k] == s.files[k]
    ensures s.hadError ==> r.hadError
  {
    var f := s.files[i];
    s.(files := s.files[i := f.(stage := TypeChecked)],
       events := s.events + [FileEvent(TypeCheck, i)],
       hadError := s.hadError || (f.buffer.Some? && f.buffer.value in eng.erroneousBuffers))
  }

  /** The engine calls for loading the first n partial modules, in order. */
  function LoadEvents(n: nat): (r: seq<Event>)
    ensures |r| == n
    ensures forall k :: 0 <= k < n ==> r[k] == LoadPartialModule(k)
  {
    if n == 0 then [] else LoadEvents(n - 1) + [LoadPartialModule(n - 1)]
  }

  /** Whether any of the first n partial modules fails to load. */
  predicate HadLoadError(eng: Engines, n: nat)
  {
    exists i :: 0 <= i < n && i in eng.partialLoadFails
  }

  /** The buffers parsed as library files: every source-code buffer except
      the main one, in order. */
  function LibraryBuffers(bufs: seq<BufferId>, main: Option<BufferId>): (r: seq<BufferId>)
    ensures forall b :: b in r <==> b in bufs && Some(b) != main
    ensures |r| <= |bufs|
  {
    if bufs == [] then []
    else
      var last := bufs[|bufs| - 1];
      LibraryBuffers(bufs[..|bufs| - 1], main) + (if Some(last) == main then [] else [last])
  }

  /** parseLibraryFile: a new library file, import-resolved. */
  function LibraryParsed(s: Session, cfg: SemaConfig, b: BufferId): (r: Session)
    ensures WellFormed(s, cfg) ==> WellFormed(r, cfg)
  {
    var s1 := FileCreated(s, cfg, LibraryFile, Some(b));
    if WellFormed(s, cfg) then
      FileCreatedKeepsWellFormed(s, cfg, LibraryFile, Some(b));
      SameFileListKeepsWellFormed(s1, ImportsResolvedIn(s1, |s.files|), cfg);
      ImportsResolvedIn(s1, |s.files|)
    else ImportsResolvedIn(s1, |s.files|)
  }

  /** The library loop of parsePartialModulesAndLibraryFiles over `bufs`. */
  function LibrariesParsed(s: Session, cfg: SemaConfig, bufs: seq<BufferId>): (r: Session)
    ensures WellFormed(s, cfg) ==> WellFormed(r, cfg)
    ensures |r.files| >= |s.files| && r.files[..|s.files|] == s.files
    ensures r.silModuleCreated == s.silModuleCreated && r.hasResolvedImports == s.hasResolvedImports
    ensures |r.events| >= |s.events| && r.events[..|s.events|] == s.events
    ensures forall k :: |s.events| <= k < |r.events| ==>
              r.events[k].FileEvent? && r.events[k].action == ImportResolution && r.events[k].file >= |s.files|
    ensures r.hadError == s.hadError && r.diags == s.diags && r.implicitImportNames == s.implicitImportNames
    decreases |bufs|
  {
    if bufs == [] then s
    else
      var prev := LibrariesParsed(s, cfg, bufs[..|bufs| - 1]);
      var b := bufs[|bufs| - 1];
      if Some(b) == cfg.inputs.mainBuffer then prev else LibraryParsed(prev, cfg, b)
  }

  lemma SameFileListKeepsWellFormedIf(a: Session, b: Session, cfg: SemaConfig)
    requires SameFileList(a, b)
    ensures WellFormed(a, cfg) ==> WellFormed(b, cfg)
  {
    if WellFormed(a, cfg) {
      SameFileListKeepsWellFormed(a, b, cfg);
    }
  }

  /** The partial-module loop of parsePartialModulesAndLibraryFiles: every
      partial module is loaded, in order, even after one fails. */
  function PartialsLoaded(s: Session, n: nat): Session
  {
    s.(events := s.events + LoadEvents(n))
  }

  /** Whether the main file counts as primary: in whole-module mode, or when
      its buffer is a primary buffer. */
  predicate MainIsPrimary(cfg: SemaConfig)
  {
    cfg.wholeModule || IsPrimaryBuffer(cfg, cfg.inputs.mainBuffer)
  }

  /** parseAndTypeCheckMainFileUpTo for the main file, the module's first
      file: type-checked when it is primary and the limit is TypeChecked,
      otherwise only import-resolved (which the SIL mode never allows); then
      its SIL is parsed in SIL mode, and the debugger-testing transform runs on
      a primary main file while no error has been raised. */
  function MainFileCheckedUpTo(s: Session, cfg: SemaConfig, eng: Engines, limit: ASTStage): (r: Session)
    requires |s.files| > 0 && limit != Unprocessed
    requires s.silModuleCreated ==> MainIsPrimary(cfg) && limit == TypeChecked
    ensures SameFileList(s, r) && r.files[0].stage != Unprocessed
    ensures r.files[0].stage == (if (MainIsPrimary(cfg) && limit == TypeChecked) || s.files[0].stage == TypeChecked
                                 then TypeChecked else ImportsResolved)
    ensures forall k :: 0 < k < |s.files| ==> r.files[k] == s.files[k]
    ensures s.hadError ==> r.hadError
  {
    var s1 := if MainIsPrimary(cfg) && limit == TypeChecked then TypeCheckedIn(s, eng, 0) else ImportsResolvedIn(s, 0);
    var s2 := if s.silModuleCreated then EngineCalled(s1, ParseSIL, 0) else s1;
    if MainIsPrimary(cfg) && !s2.hadError && cfg.debuggerTestingTransform then EngineCalled(s2, DebuggerTestingTransform, 0)
    else s2
  }

  /** 0, 1, ..., n - 1. */
  function Range(n: nat): (r: seq<nat>)
    ensures |r| == n && forall k :: 0 <= k < n ==> r[k] == k
  {
    if n == 0 then [] else Range(n - 1) + [n - 1]
  }

  /** forEachFileToTypeCheck: every source file of the module in whole-module
      mode, otherwise the primary source files in the order they were
      recorded. */
  function FilesToTypeCheck(s: Session, cfg: SemaConfig): (r: seq<nat>)
    ensures WellFormed(s, cfg) ==> forall i :: 0 <= i < |r| ==> r[i] < |s.files|
  {
    if cfg.wholeModule then Range(|s.files|) else s.primarySourceFiles
  }

  /** The callback of parseAndCheckTypesUpTo for one file: extensions are
      bound when the limit is ImportsResolved; otherwise the file is
      type-checked, and the PC-macro and playground transforms run while no
      error has been raised. */
  function TypeCheckStep(s: Session, cfg: SemaConfig, eng: Engines, limit: ASTStage, i: nat): (r: Session)
    requires i < |s.files|
    ensures SameFileList(s, r)
    ensures r.files[i].stage == (if limit == ImportsResolved then s.files[i].stage else TypeChecked)
    ensures forall k :: 0 <= k < |s.files| && k != i ==> r.files[k] == s.files[k]
    ensures forall k :: 0 <= k < |s.files| ==> StageRank(r.files[k].stage) >= StageRank(s.files[k].stage)
    ensures s.hadError ==> r.hadError
  {
    if limit == ImportsResolved then EngineCalled(s, BindExtensions, i)
    else
      var s1 := TypeCheckedIn(s, eng, i);
      var s2 := if !s1.hadError && cfg.pcMacro then EngineCalled(s1, PCMacro, i) else s1;
      if !s2.hadError && cfg.playgroundTransform then EngineCalled(s2, PlaygroundTransform, i) else s2
  }

  function StageRank(stage: ASTStage): nat
  {
    match stage
    case Unprocessed => 0
    case ImportsResolved => 1
    case TypeChecked => 2
  }

  /** The type-checking loop over `files`, in order. */
  function TypeCheckedEach(s: Session, cfg: SemaConfig, eng: Engines, limit: ASTStage, files: seq<nat>): (r: Session)
    requires forall i :: 0 <= i < |files| ==> files[i] < |s.files|
    ensures SameFileList(s, r)
    ensures forall k :: 0 <= k < |s.files| ==> StageRank(r.files[k].stage) >= StageRank(s.files[k].stage)
    ensures s.hadError ==> r.hadError
    decreases |files|
  {
    if files == [] then s
    else
      var prev := TypeCheckedEach(s, cfg, eng, limit, files[..|files| - 1]);
      TypeCheckStep(prev, cfg, eng, limit, files[|files| - 1])
  }

  /** One engine call per listed file. */
  function FileEvents(action: FileAction, files: seq<nat>): (r: seq<Event>)
    ensures |r| == |files| && forall k :: 0 <= k < |files| ==> r[k] == FileEvent(action, files[k])
  {
    if files == [] then [] else FileEvents(action, files[..|files| - 1]) + [FileEvent(action, files[|files| - 1])]
  }

  /** The engine calls of finishTypeChecking for a module of n files: the
      delayed whole-module checks of every source file (whole-module mode
      only), then the implementation-only import check. */
  function FinishEvents(cfg: SemaConfig, n: nat): seq<Event>
  {
    (if cfg.wholeModule then FileEvents(WholeModuleTypeCheck, Range(n)) else []) + [CheckImplementationOnlyImports]
  }

  /** finishTypeChecking. */
  function TypeCheckingFinished(s: Session, cfg: SemaConfig): Session
  {
    s.(events := s.events + FinishEvents(cfg, |s.files|))
  }

  /** The number of partial modules input setup produced. */
  function PartialModuleCount(cfg: SemaConfig): nat
  {
    |cfg.inputs.partialModules|
  }

  /** What parsePartialModulesAndLibraryFiles leaves behind: partial modules
      loaded, then the library files parsed. */
  function PartialModulesAndLibrariesParsed(s: Session, cfg: SemaConfig): (r: Session)
    ensures WellFormed(s, cfg) ==> WellFormed(r, cfg)
    ensures |r.files| >= |s.files| && r.files[..|s.files|] == s.files
    ensures r.silModuleCreated == s.silModuleCreated && r.hasResolvedImports == s.hasResolvedImports
  {
    var loaded := PartialsLoaded(s, PartialModuleCount(cfg));
    SameFileListKeepsWellFormedIf(s, loaded, cfg);
    LibrariesParsed(loaded, cfg, cfg.inputs.sourceBuffers)
  }

  /** In code completion at least one error is raised before type checking,
      so the AST context counts as erroneous. */
  function CodeCompletionDiagnosed(s: Session, cfg: SemaConfig): Session
  {
    if cfg.codeCompletion then s.(diags := s.diags + [ErrorDoingCodeCompletion], hadError := true) else s
  }

  /** What must hold when parseAndCheckTypesUpTo starts: the main file, when
      there is one, is already the module's only file, and the SIL mode
      always type-checks a primary main file. */
  predicate ReadyToCheck(s: Session, cfg: SemaConfig, limit: ASTStage)
  {
    && limit != Unprocessed
    && |s.files| == (if cfg.inputs.mainBuffer.Some? then 1 else 0)
    && (s.silModuleCreated ==> MainIsPrimary(cfg) && limit == TypeChecked)
    && WellFormed(s, cfg)
  }

  /** The part of parseAndCheckTypesUpTo after a load-error-free parse, up
      to finishTypeChecking: the main file, the module's resolved-imports
      flag, and the files to type-check. */
  function FilesChecked(s: Session, cfg: SemaConfig, eng: Engines, limit: ASTStage): (r: Session)
    requires limit != Unprocessed && WellFormed(s, cfg)
    requires cfg.inputs.mainBuffer.Some? ==> |s.files| > 0
    requires s.silModuleCreated ==> MainIsPrimary(cfg) && limit == TypeChecked
  {
    var s3 := if cfg.inputs.mainBuffer.Some? then MainFileCheckedUpTo(s, cfg, eng, limit) else s;
    SameFileListKeepsWellFormed(s, s3, cfg);
    TypeCheckedEach(s3.(hasResolvedImports := true), cfg, eng, limit, FilesToTypeCheck(s3, cfg))
  }

  /** The rest of parseAndCheckTypesUpTo, with finishTypeChecking beyond
      ImportsResolved. */
  function TypesChecked(s: Session, cfg: SemaConfig, eng: Engines, limit: ASTStage): (r: Session)
    requires limit != Unprocessed && WellFormed(s, cfg)
    requires cfg.inputs.mainBuffer.Some? ==> |s.files| > 0
    requires s.silModuleCreated ==> MainIsPrimary(cfg) && limit == TypeChecked
  {
    var checked := FilesChecked(s, cfg, eng, limit);
    if limit == ImportsResolved then checked else TypeCheckingFinished(checked, cfg)
  }

  /** parseAndCheckTypesUpTo: partial modules and library files, the
      code-completion error, and a stop on a load error before anything is
      type-checked. */
  function CheckedTypesUpTo(s: Session, cfg: SemaConfig, eng: Engines, limit: ASTStage): (r: Session)
    requires ReadyToCheck(s, cfg, limit)
  {
    var parsed := CodeCompletionDiagnosed(PartialModulesAndLibrariesParsed(s, cfg), cfg);
    if HadLoadError(eng, PartialModuleCount(cfg)) then parsed
    else TypesChecked(parsed, cfg, eng, limit)
  }

  /** The session of a main module that has no files yet. */
  predicate Fresh(s: Session)
  {
    && s.files == [] && s.primarySourceFiles == [] && s.codeCompletionFile.None?
    && !s.hasResolvedImports && !s.silModuleCreated
  }

  /** What SIL input demands of performSemaUpTo: a single source buffer that
      is the main buffer, checked as a primary up to TypeChecked. */
  predicate SILModeReady(cfg: SemaConfig, limit: ASTStage)
  {
    cfg.inputKind == SIL ==>
      && |cfg.inputs.sourceBuffers| == 1 && cfg.inputs.mainBuffer.Some?
      && MainIsPrimary(cfg) && limit == TypeChecked
  }

  /** The empty REPL file: created without a buffer and marked TypeChecked. */
  function REPLFileCreated(s: Session, cfg: SemaConfig): (r: Session)
    ensures |r.files| == |s.files| + 1 && r.files[..|s.files|] == s.files
  {
    var s1 := FileCreated(s, cfg, REPLFile, None);
    s1.(files := s1.files[|s.files| := s1.files[|s.files|].(stage := TypeChecked)])
  }

  /** The start of performSemaUpTo: the SIL module in SIL mode, then the
      request for the standard library when it is imported implicitly. */
  function Prelude(s: Session, cfg: SemaConfig): (r: Session)
    ensures r.files == s.files && r.primarySourceFiles == s.primarySourceFiles
    ensures r.codeCompletionFile == s.codeCompletionFile && r.hasResolvedImports == s.hasResolvedImports
    ensures r.silModuleCreated <==> s.silModuleCreated || cfg.inputKind == SIL
  {
    var s1 := if cfg.inputKind == SIL then s.(events := s.events + [CreateSILModule], silModuleCreated := true) else s;
    if cfg.imports.importStdlib then s1.(events := s1.events + [LoadStdlib]) else s1
  }

  /** loadStdlib fails: the library is imported implicitly and is missing or
      failed to load. */
  predicate StdlibFails(cfg: SemaConfig, eng: Engines)
  {
    cfg.imports.importStdlib && eng.stdlib != StdlibLoaded
  }

  /** A missing standard library is diagnosed; one that failed to load was
      diagnosed by the loader. */
  function StdlibFailed(s: Session, eng: Engines): Session
  {
    if eng.stdlib == StdlibMissing then s.(diags := s.diags + [StdlibNotFound], hadError := true) else s
  }

  /** SwiftOnoneSupport joins the implicit imports when it should. */
  function WithOnoneSupport(s: Session, cfg: SemaConfig): (r: Session)
    ensures r.files == s.files && r.primarySourceFiles == s.primarySourceFiles
    ensures r.codeCompletionFile == s.codeCompletionFile && r.silModuleCreated == s.silModuleCreated
  {
    if ShouldImplicitlyImportSwiftOnoneSupportModule(cfg.imports)
    then s.(implicitImportNames := s.implicitImportNames + [SwiftOnoneSupport]) else s
  }

  /** addMainFileToModule, when there is a main buffer. */
  function MainFileAdded(s: Session, cfg: SemaConfig): (r: Session)
    ensures WellFormed(s, cfg) ==> WellFormed(r, cfg)
  {
    if cfg.inputs.mainBuffer.Some? then
      if WellFormed(s, cfg) then
        FileCreatedKeepsWellFormed(s, cfg, cfg.mainFileKind, cfg.inputs.mainBuffer);
        FileCreated(s, cfg, cfg.mainFileKind, cfg.inputs.mainBuffer)
      else FileCreated(s, cfg, cfg.mainFileKind, cfg.inputs.mainBuffer)
    else s
  }

  /** performSemaUpTo: in SIL mode the SIL module is created first; the
      standard library is loaded when imported implicitly, and its absence or
      failure stops everything; SwiftOnoneSupport joins the implicit imports
      when it should; a REPL gets its empty file and stops; otherwise the main
      file becomes the module's first file and parseAndCheckTypesUpTo runs. */
  function SemaUpTo(s: Session, cfg: SemaConfig, eng: Engines, limit: ASTStage): (r: Session)
    requires limit != Unprocessed && Fresh(s) && SILModeReady(cfg, limit)
  {
    var s2 := Prelude(s, cfg);
    if StdlibFails(cfg, eng) then StdlibFailed(s2, eng)
    else
      var s3 := WithOnoneSupport(s2, cfg);
      if cfg.inputKind == SwiftREPL then REPLFileCreated(s3, cfg)
      else
        MainFileAddedReady(s3, cfg, limit);
        CheckedTypesUpTo(MainFileAdded(s3, cfg), cfg, eng, limit)
  }

  /** With no files yet, adding the main file leaves the session ready for
      parseAndCheckTypesUpTo. */
  lemma MainFileAddedReady(s: Session, cfg: SemaConfig, limit: ASTStage)
    requires s.files == [] && s.primarySourceFiles == [] && s.codeCompletionFile.None?
    requires limit != Unprocessed && (s.silModuleCreated ==> MainIsPrimary(cfg) && limit == TypeChecked)
    ensures ReadyToCheck(MainFileAdded(s, cfg), cfg, limit)
  {
    assert WellFormed(s, cfg);
  }
}
