/** The module-loader chain: the forced loading mode read from the
    SWIFT_FORCE_MODULE_LOADING environment variable, and the fixed order in
    which setUpModuleLoaders registers loaders with the AST context. Loader
    construction is abstracted: the source loader and the memory-buffer loader
    always construct, the Clang importer's construction outcome is an input. */
module Loaders {
  import opened FrontendTypes

  datatype ModuleLoadingMode = PreferInterface | PreferSerialized | OnlyInterface | OnlySerialized

  /** A registered loader, with the loading mode it was created with. */
  datatype ModuleLoader =
    | SourceLoader(libraryEvolution: bool)
    | MemoryBufferLoader(mode: ModuleLoadingMode)
    | ModuleInterfaceLoader(mode: ModuleLoadingMode)
    | SerializedModuleLoader(mode: ModuleLoadingMode)
    | ClangImporter

  /** The environment-variable spellings that select each mode; the "parseable"
      spellings are the legacy names of the interface modes. */
  function Spellings(mode: ModuleLoadingMode): set<string>
  {
    match mode
    case PreferInterface => {"prefer-interface", "prefer-parseable"}
    case PreferSerialized => {"prefer-serialized"}
    case OnlyInterface => {"only-interface", "only-parseable"}
    case OnlySerialized => {"only-serialized"}
  }

  /** Every string that names some mode. */
  function RecognizedSpellings(): set<string>
  {
    Spellings(PreferInterface) + Spellings(PreferSerialized) + Spellings(OnlyInterface) + Spellings(OnlySerialized)
  }

  /** The loading mode for the value of SWIFT_FORCE_MODULE_LOADING (None when
      the variable is unset). */
  function ParseLoadingMode(forced: Option<string>): (r: Result<ModuleLoadingMode, Diag>)
    ensures forced.None? ==> r == Ok(PreferSerialized)
    ensures forced.Some? && r.Ok? ==> forced.value in Spellings(r.value)
    ensures forced.Some? && r.Err? ==> forced.value !in RecognizedSpellings()
                                       && r.error == UnknownForcedModuleLoadingMode(forced.value)
  {
    match forced
    case None => Ok(PreferSerialized)
    case Some(v) =>
      if v == "prefer-interface" || v == "prefer-parseable" then Ok(PreferInterface)
      else if v == "prefer-serialized" then Ok(PreferSerialized)
      else if v == "only-interface" || v == "only-parseable" then Ok(OnlyInterface)
      else if v == "only-serialized" then Ok(OnlySerialized)
      else
        Err(UnknownForcedModuleLoadingMode(v))
  }

  /** Every spelling of a mode selects exactly that mode, so no spelling is
      shared between two modes. */
  lemma SpellingSelectsMode(mode: ModuleLoadingMode, value: string)
    requires value in Spellings(mode)
    ensures ParseLoadingMode(Some(value)) == Ok(mode)
  {
  }

  /** The inputs that decide the loader chain. */
  datatype LoaderConfig = LoaderConfig(
    sourceImport: bool,
    libraryEvolution: bool,
    memoryBufferImporter: bool,
    forcedMode: Option<string>,
    clangImporterCreated: bool)

  /** Precedence of a loader in the chain: a smaller rank is consulted first. */
  function Rank(l: ModuleLoader): nat
  {
    match l
    case SourceLoader(_) => 0
    case MemoryBufferLoader(_) => 1
    case ModuleInterfaceLoader(_) => 2
    case SerializedModuleLoader(_) => 3
    case ClangImporter => 4
  }

  /** Loaders appear in strictly increasing precedence rank. */
  predicate InPrecedenceOrder(ls: seq<ModuleLoader>)
  {
    forall i, j :: 0 <= i < j < |ls| ==> Rank(ls[i]) < Rank(ls[j])
  }

  /** The loaders registered before the loading mode is read. */
  function SourceLoaders(cfg: LoaderConfig): seq<ModuleLoader>
  {
    if cfg.sourceImport then [SourceLoader(cfg.libraryEvolution)] else []
  }

  /** The loaders registered after the mode has been read and before the
      Clang importer is created. */
  function MemoryLoaders(cfg: LoaderConfig, mode: ModuleLoadingMode): seq<ModuleLoader>
  {
    if cfg.memoryBufferImporter then [MemoryBufferLoader(mode)] else []
  }

  /** The loaders registered once the Clang importer exists. */
  function TailLoaders(mode: ModuleLoadingMode): seq<ModuleLoader>
  {
    (if mode != OnlySerialized then [ModuleInterfaceLoader(mode)] else [])
      + [SerializedModuleLoader(mode), ClangImporter]
  }

  /** What setUpModuleLoaders registers and raises: the loaders appended (also
      on failure, where the ones added before the failure stay registered) and
      the diagnostic of a failure. */
  datatype LoaderSetupOutcome = LoaderSetupOutcome(added: seq<ModuleLoader>, failure: Option<Diag>)

  /** setUpModuleLoaders once the environment variable has been parsed into
      `parsed`. */
  function LoaderSetupFor(cfg: LoaderConfig, parsed: Result<ModuleLoadingMode, Diag>): (r: LoaderSetupOutcome)
    ensures r.failure.None? <==> parsed.Ok? && cfg.clangImporterCreated
    ensures r.failure.None? ==> |r.added| >= 2 && r.added[|r.added| - 1] == ClangImporter
    ensures parsed.Err? ==> r.failure == Some(parsed.error) && r.added == SourceLoaders(cfg)
    ensures parsed.Ok? && !cfg.clangImporterCreated ==>
              r.failure == Some(ClangImporterCreateFail)
              && r.added == SourceLoaders(cfg) + MemoryLoaders(cfg, parsed.value)
  {
    match parsed
    case Err(d) => LoaderSetupOutcome(SourceLoaders(cfg), Some(d))
    case Ok(mode) =>
      var head := SourceLoaders(cfg) + MemoryLoaders(cfg, mode);
      if !cfg.clangImporterCreated then
        LoaderSetupOutcome(head, Some(ClangImporterCreateFail))
      else
        LoaderSetupOutcome(head + TailLoaders(mode), None)
  }

  function LoaderSetup(cfg: LoaderConfig): LoaderSetupOutcome
  {
    LoaderSetupFor(cfg, ParseLoadingMode(cfg.forcedMode))
  }

  /** The registered loaders are always in precedence order, so on success
      the Clang importer, registered last, appears exactly once, and on failure
      it does not appear at all. */
  lemma LoaderChainInPrecedenceOrder(cfg: LoaderConfig, parsed: Result<ModuleLoadingMode, Diag>)
    ensures InPrecedenceOrder(LoaderSetupFor(cfg, parsed).added)
    ensures ClangImporter in LoaderSetupFor(cfg, parsed).added <==> LoaderSetupFor(cfg, parsed).failure.None?
  {
    if parsed.Ok? {
      HeadLoadersOrdered(cfg, parsed.value);
      if cfg.clangImporterCreated {
        FullChainOrdered(cfg, parsed.value);
      }
    }
  }

  /** A Clang importer that cannot be created stops setUpModuleLoaders before
      any loader of Swift modules on disk is registered: neither the
      interface loader nor the serialized-module loader nor the importer
      itself is in the chain. */
  lemma ClangFailureStopsBeforeDiskLoaders(cfg: LoaderConfig, mode: ModuleLoadingMode)
    requires !cfg.clangImporterCreated
    ensures var added := LoaderSetupFor(cfg, Ok(mode)).added;
            forall l :: l in added ==> !l.ModuleInterfaceLoader? && !l.SerializedModuleLoader? && l != ClangImporter
  {
    HeadLoadersOrdered(cfg, mode);
  }

  /** The loaders registered before the Clang importer rank below it. */
  lemma HeadLoadersOrdered(cfg: LoaderConfig, mode: ModuleLoadingMode)
    ensures InPrecedenceOrder(SourceLoaders(cfg) + MemoryLoaders(cfg, mode))
    ensures forall x :: x in SourceLoaders(cfg) + MemoryLoaders(cfg, mode) ==> Rank(x) <= 1
  {
    OrderedConcat(SourceLoaders(cfg), MemoryLoaders(cfg, mode));
  }

  /** The loaders registered after the Clang importer is created are in
      precedence order, rank above the others and end with the importer. */
  lemma TailLoadersOrdered(mode: ModuleLoadingMode)
    ensures InPrecedenceOrder(TailLoaders(mode))
    ensures forall y :: y in TailLoaders(mode) ==> Rank(y) >= 2
    ensures |TailLoaders(mode)| > 0 && TailLoaders(mode)[|TailLoaders(mode)| - 1] == ClangImporter
  {
    var tail := TailLoaders(mode);
    if mode == OnlySerialized {
      assert tail == [SerializedModuleLoader(mode), ClangImporter];
    } else {
      assert tail == [ModuleInterfaceLoader(mode), SerializedModuleLoader(mode), ClangImporter];
    }
  }

  /** The complete chain is in precedence order and the Clang importer is only
      its last element. */
  lemma FullChainOrdered(cfg: LoaderConfig, mode: ModuleLoadingMode)
    ensures var chain := SourceLoaders(cfg) + MemoryLoaders(cfg, mode) + TailLoaders(mode);
            && InPrecedenceOrder(chain)
            && forall i :: 0 <= i < |chain| - 1 ==> chain[i] != ClangImporter
  {
    var head := SourceLoaders(cfg) + MemoryLoaders(cfg, mode);
    var tail := TailLoaders(mode);
    HeadLoadersOrdered(cfg, mode);
    TailLoadersOrdered(mode);
    OrderedConcat(head, tail);
    var chain := head + tail;
    assert chain[|chain| - 1] == ClangImporter;
    forall i | 0 <= i < |chain| - 1 ensures chain[i] != ClangImporter {
      assert Rank(chain[i]) < Rank(chain[|chain| - 1]);
    }
  }

  /** Two chains in precedence order whose ranks do not overlap concatenate
      into a chain in precedence order. */
  lemma OrderedConcat(a: seq<ModuleLoader>, b: seq<ModuleLoader>)
    requires InPrecedenceOrder(a) && InPrecedenceOrder(b)
    requires forall x, y :: x in a && y in b ==> Rank(x) < Rank(y)
    ensures InPrecedenceOrder(a + b)
  {
    forall i, j | 0 <= i < j < |a + b| ensures Rank((a + b)[i]) < Rank((a + b)[j]) {
      if j < |a| {
      } else if i >= |a| {
        assert (a + b)[i] == b[i - |a|] && (a + b)[j] == b[j - |a|];
      } else {
        assert (a + b)[i] in a && (a + b)[j] in b;
      }
    }
  }

  /** On success the interface loader is registered exactly when the mode is
      not OnlySerialized, the serialized loader always, the source and
      memory-buffer loaders exactly when enabled, and every Swift loader
      carries the mode that was read. */
  lemma SuccessfulChainFollowsMode(cfg: LoaderConfig, mode: ModuleLoadingMode)
    requires cfg.clangImporterCreated
    ensures var added := LoaderSetupFor(cfg, Ok(mode)).added;
            && (ModuleInterfaceLoader(mode) in added <==> mode != OnlySerialized)
            && SerializedModuleLoader(mode) in added
            && (SourceLoader(cfg.libraryEvolution) in added <==> cfg.sourceImport)
            && (MemoryBufferLoader(mode) in added <==> cfg.memoryBufferImporter)
  {
    var src, mem, tail := SourceLoaders(cfg), MemoryLoaders(cfg, mode), TailLoaders(mode);
    var added := LoaderSetupFor(cfg, Ok(mode)).added;
    assert added == src + mem + tail;
    assert ModuleInterfaceLoader(mode) !in src + mem;
    assert SourceLoader(cfg.libraryEvolution) !in mem + tail;
    assert MemoryBufferLoader(mode) !in src + tail;
  }

  /** The AST context's list of module loaders. */
  class LoaderRegistry {
    var loaders: seq<ModuleLoader>
    var diags: seq<Diag>

    constructor ()
      ensures loaders == [] && diags == []
    {
      loaders := [];
      diags := [];
    }

    /** setUpModuleLoaders: appends the loaders in their fixed order; returns
        true on failure, after raising the one diagnostic. */
    method SetUpModuleLoaders(cfg: LoaderConfig) returns (failed: bool)
      modifies this
      ensures loaders == old(loaders) + LoaderSetup(cfg).added
      ensures failed <==> LoaderSetup(cfg).failure.Some?
      ensures diags == old(diags) + (if failed then [LoaderSetup(cfg).failure.value] else [])
    {
      ghost var before := loaders;
      if cfg.sourceImport {
        loaders := loaders + [SourceLoader(cfg.libraryEvolution)];
      }
      assert loaders == before + SourceLoaders(cfg);
      var parsed := ParseLoadingMode(cfg.forcedMode);
      assert LoaderSetup(cfg) == LoaderSetupFor(cfg, parsed);
      if parsed.Err? {
        assert LoaderSetup(cfg) == LoaderSetupOutcome(SourceLoaders(cfg), Some(parsed.error));
        diags := diags + [parsed.error];
        return true;
      }
      var mode := parsed.value;
      if cfg.memoryBufferImporter {
        loaders := loaders + [MemoryBufferLoader(mode)];
      }
      assert loaders == before + (SourceLoaders(cfg) + MemoryLoaders(cfg, mode));
      if !cfg.clangImporterCreated {
        assert LoaderSetup(cfg) == LoaderSetupOutcome(SourceLoaders(cfg) + MemoryLoaders(cfg, mode), Some(ClangImporterCreateFail));
        diags := diags + [ClangImporterCreateFail];
        return true;
      }
      assert LoaderSetup(cfg) == LoaderSetupOutcome(SourceLoaders(cfg) + MemoryLoaders(cfg, mode) + TailLoaders(mode), None);
      AddTailLoaders(mode);
      return false;
    }

    /** The loaders setUpModuleLoaders registers once the Clang importer
        exists: the interface loader unless only serialized modules are
        wanted, the serialized-module loader, and the Clang importer last. */
    method AddTailLoaders(mode: ModuleLoadingMode)
      modifies this`loaders
      ensures loaders == old(loaders) + TailLoaders(mode)
    {
      if mode != OnlySerialized {
        loaders := loaders + [ModuleInterfaceLoader(mode)];
      }
      loaders := loaders + [SerializedModuleLoader(mode)];
      loaders := loaders + [ClangImporter];
    }
  }
}
