# Swift frontend: compiler-instance setup, staged semantic analysis, SIL processing

This project models the core of the Swift compiler frontend's
`CompilerInstance` (lib/Frontend/Frontend.cpp). It also models the
delayed-declaration slot of the parser's persistent state
(lib/Parse/PersistentParserState.cpp). It covers:

- **Setup before parsing.**
  - Loading virtual-file-system overlays (`Overlays`).
  - Choosing and registering module loaders in precedence order (`Loaders`).
  - Registering the code-completion buffer and the input files, and picking
    the main buffer and the primary buffers (`Inputs`).
  - Finding a serialized module's `.swiftsourceinfo` and `.swiftdoc`
    companions (`Sidecars`, on the path helpers in `Paths`).
- **Staged semantic analysis** (`performSemaUpTo` and everything it drives).
  - Decision functions on immutable values are in `Sema`; the stateful
    driver, a class whose methods follow those functions, is in `SemaDriver`.
  - Ordering, stage and bookkeeping facts about the pipeline are in
    `SemaFacts`.
- **Mandatory and optimizing SIL pass sequencing** (`SILProcessing`).
  - The passes are recorded as a trace of steps.
- **The parser's delayed-declaration slot** (`ParserState`).
  - Set and restore, with locations stored as 32-bit buffer offsets and
    `~0U` standing for "no previous location".

**Modelling conventions.**
- Each stateful class exposes a ghost `State()` or `Snapshot()` value. Each
  method ensures that the new value is a specification function of the old
  one. The lemmas about those functions carry the properties.
- The module loader, parser, type checker, SIL optimizer and file system sit
  outside the model and are inputs:
  - a file system is a map from paths to contents or errors;
  - an `Engines` value says which partial modules fail to load, whether the
    standard library loads, and which buffers type-check with errors;
  - a `PassOutcomes` value says whether the diagnostic or ownership passes
    fail.
- Calls into those engines are recorded as events, so properties about
  ordering can be stated.

## Model

| member | source | states |
|---|---|---|
| Overlays.OverlayLoad | lib/Frontend/Frontend.cpp:357-377 | An overlay loads iff its file is readable and holds a valid overlay. An unreadable file yields the cannot-open diagnostic with the read error. A readable but invalid file yields the invalid-overlay diagnostic. |
| Overlays.OneDiagnosticPerFailedOverlay | lib/Frontend/Frontend.cpp:379-398 | Overlay setup emits exactly one diagnostic per failing overlay. It emits none iff every overlay loads. |
| Overlays.EveryFailedOverlayDiagnosed | lib/Frontend/Frontend.cpp:384-388 | Every overlay that fails contributes its own diagnostic, even after an earlier failure, because the loop does not stop. |
| Overlays.LoadedOverlaysAreTheSucceedingOnes | lib/Frontend/Frontend.cpp:384-395 | The overlays pushed are exactly the succeeding files. When all succeed, all are pushed in order. |
| Overlays.OverlaySetup.SetUpVirtualFileSystemOverlays | lib/Frontend/Frontend.cpp:379-398 | Returns failure iff some overlay fails, and appends every overlay diagnostic. The source manager's file system is replaced by the overlay only when nothing failed and there is at least one overlay; otherwise it is unchanged. |
| Loaders.ParseLoadingMode | lib/Frontend/Frontend.cpp:454-474 | With no forced mode the result is prefer-serialized. A recognised spelling selects its mode. Any other value is an error carrying the unknown-mode diagnostic for that value. |
| Loaders.SpellingSelectsMode | lib/Frontend/Frontend.cpp:456-468 | Each of the six accepted spellings, including the legacy "parseable" ones, selects its mode. |
| Loaders.LoaderSetupFor | lib/Frontend/Frontend.cpp:447-518 | Setup succeeds iff the forced mode parses and the Clang importer is created. On success the chain ends with the Clang importer. On a bad mode only the source loader (if any) was added, and the diagnostic is returned. When the Clang importer cannot be created, the failure is the importer-creation diagnostic and only the source and memory-buffer loaders were added. |
| Loaders.ClangFailureStopsBeforeDiskLoaders | lib/Frontend/Frontend.cpp:484-493 | When the Clang importer cannot be created, setup returns before the interface loader, the serialized-module loader or the importer is added. |
| Loaders.LoaderChainInPrecedenceOrder | lib/Frontend/Frontend.cpp:447-518 | Whatever the outcome, loaders are added in precedence order: source, memory buffer, interface, serialized, Clang. The Clang importer is present iff setup succeeded. |
| Loaders.HeadLoadersOrdered | lib/Frontend/Frontend.cpp:448-482 | The source loader and the memory-buffer loader come first and in that order. |
| Loaders.TailLoadersOrdered | lib/Frontend/Frontend.cpp:495-515 | The interface, serialized and Clang loaders follow in order. Clang comes last. |
| Loaders.FullChainOrdered | lib/Frontend/Frontend.cpp:447-518 | The complete chain is in precedence order, and the Clang importer appears only in the last position. |
| Loaders.SuccessfulChainFollowsMode | lib/Frontend/Frontend.cpp:447-518 | On success the interface loader is added iff the mode is not only-serialized. The serialized loader is always added. The source loader is added iff source import is enabled. The memory-buffer loader is added iff that importer is enabled. |
| Loaders.LoaderRegistry.SetUpModuleLoaders | lib/Frontend/Frontend.cpp:447-518 | Appends exactly the specified loader chain to the context's loaders. Returns failure iff setup fails, and records that failure's single diagnostic. |
| Loaders.LoaderRegistry.AddTailLoaders | lib/Frontend/Frontend.cpp:495-515 | Appends the interface (unless only-serialized), serialized and Clang loaders. |
| Inputs.CodeCompletionBufferAdded | lib/Frontend/Frontend.cpp:520-532 | With no completion point nothing changes. Otherwise a copy of the buffer gets the next ID, is listed as a source-code buffer and becomes the completion point. Main, primaries, partial modules and diagnostics are untouched. |
| Inputs.BufferRecorded | lib/Frontend/Frontend.cpp:595-623 | Recording an input keeps the input state valid and never changes the main buffer, the primaries or the completion point. |
| Inputs.ReadFailureIsRecorded | lib/Frontend/Frontend.cpp:595-608 | Recording fails iff the input has no in-memory buffer, its path is not registered, and the file cannot be read. The failure adds exactly one open-input-file diagnostic. |
| Inputs.RegisteredPathIsReused | lib/Frontend/Frontend.cpp:597-602 | A file input whose path is already registered reuses that buffer ID and changes nothing. |
| Inputs.SerializedInputIsPartialModule | lib/Frontend/Frontend.cpp:612-615 | A serialized module becomes one more partial module. No buffer or source-code ID is added. |
| Inputs.SourceInputGetsFreshBuffer | lib/Frontend/Frontend.cpp:616-622 | A source input gets the next buffer ID, which is appended to the source-code buffer list. Its contents are not a serialized module. |
| Inputs.InputSetUp | lib/Frontend/Frontend.cpp:575-593 | The input fails iff recording fails. The main-buffer assertion fires iff a second "main.swift" arrives. A Swift "main.swift" becomes the main buffer, and a primary input adds its buffer to the primaries. A non-source outcome changes neither. |
| Inputs.AllInputsSetUp | lib/Frontend/Frontend.cpp:554-557 | Setting up the inputs in order only extends the source-buffer list, the diagnostics and the partial modules. Every new partial module is serialized, and the completion point is kept. |
| Inputs.CodeCompletionPrimary | lib/Frontend/Frontend.cpp:559-564 | A completion buffer that is not already primary becomes the only primary. The "re-setting" assertion fails iff other primaries exist. Nothing else changes. |
| Inputs.SingleInputMain | lib/Frontend/Frontend.cpp:566-570 | The main buffer is inferred iff none was set, there is exactly one source-code buffer, and the input kind treats a single input as main. The inferred main is that buffer. |
| Inputs.InputsSetUpPreservesValid | lib/Frontend/Frontend.cpp:549-573 | The whole of input setup keeps IDs dense and in range, and keeps the primaries and main among them. |
| Inputs.SetupStopsAtFirstFailure | lib/Frontend/Frontend.cpp:554-557 | After the first failing input, later inputs have no effect. |
| Inputs.FailureIsDiagnosed | lib/Frontend/Frontend.cpp:554-557 | When setup fails, the last diagnostic is the open-input-file error for one of the inputs. |
| Inputs.InputFailureIsDiagnosed | lib/Frontend/Frontend.cpp:575-579 | A failing input leaves its open-input-file diagnostic last. |
| Inputs.NoMainFileKeepsMain | lib/Frontend/Frontend.cpp:584-588 | Without a "main.swift" input, per-input setup never sets the main buffer. |
| Inputs.MainInferredFromSingleInput | lib/Frontend/Frontend.cpp:534-573 | With no main set and no "main.swift", setup ends with a main buffer iff exactly one source buffer exists and the kind is Swift, interface or SIL. That buffer is then the main. |
| Inputs.CodeCompletionBufferIsPrimary | lib/Frontend/Frontend.cpp:549-564 | With a completion point and no primary inputs, the completion buffer (the first new ID) is the only primary after setup. |
| Inputs.NoPrimaryInputsKeepPrimaries | lib/Frontend/Frontend.cpp:590-592 | Inputs not marked primary never add primaries. |
| Inputs.CompilerInputs.SetUpCodeCompletionBuffer | lib/Frontend/Frontend.cpp:520-532 | Returns the new buffer's ID iff there is a completion point. The state becomes the specified state. |
| Inputs.CompilerInputs.GetRecordedBufferID | lib/Frontend/Frontend.cpp:595-623 | Returns the recorded ID only for source buffers, and sets `failed` iff recording failed. The state becomes the specified state. |
| Inputs.CompilerInputs.SetUpForInput | lib/Frontend/Frontend.cpp:575-593 | New state and status are those of the per-input specification. |
| Inputs.CompilerInputs.SetUpInputs | lib/Frontend/Frontend.cpp:549-573 | New state and status are those of the whole-setup specification: completion buffer, inputs in order, completion primary, then main inference. |
| Sidecars.CompanionSuffixes | lib/Frontend/Frontend.cpp:651-675 | The companion extensions are ".swiftsourceinfo" and ".swiftdoc". The project subdirectory is "Project/". |
| Sidecars.SourceInfoCandidates | lib/Frontend/Frontend.cpp:651-659 | Both source-info candidates are the input's stem with ".swiftsourceinfo". One is in the input's directory, the other in its "Project/" subdirectory, and the two paths differ. |
| Sidecars.ProjectSubdirectory | lib/Frontend/Frontend.cpp:655-659 | Moving a file name into "Project/" keeps the name and extends the directory by exactly that component. |
| Sidecars.DocCandidate | lib/Frontend/Frontend.cpp:670-675 | The documentation candidate is the input's stem with ".swiftdoc", in the same directory. |
| Sidecars.OpenModuleSourceInfo | lib/Frontend/Frontend.cpp:651-668 | The "Project/" candidate wins when readable, then the plain candidate. The result is absent iff neither can be read. |
| Sidecars.OpenModuleDoc | lib/Frontend/Frontend.cpp:670-689 | A readable doc file yields its contents. A missing file yields "present but empty" with no diagnostic. Any other read error is a failure with an open-input-file diagnostic for the doc path. |
| Sidecars.GetInputBuffersIfPresent | lib/Frontend/Frontend.cpp:625-649 | An in-memory input is copied with no companions. An unreadable file fails with one diagnostic. Source contents carry no companions. A serialized module carries the source-info lookup's result, and it carries the doc file's contents iff the doc file is readable. A doc file that exists but cannot be opened yields exactly its open-error diagnostic, and the module is still returned. Otherwise there is no diagnostic. |
| Sema.ShouldImplicitlyImportSwiftOnoneSupportModule | lib/Frontend/Frontend.cpp:742-765 | SwiftOnoneSupport is imported only for unoptimized builds that import the standard library. Then it is imported iff system dependencies are tracked or the action generates SIL. |
| Sema.FileCreated | lib/Frontend/Frontend.cpp:1079-1109 | Creating a source file appends exactly one unprocessed file with the given kind and buffer. Events, diagnostics, the error flag and the implicit imports are unchanged. |
| Sema.FileCreatedKeepsWellFormed | lib/Frontend/Frontend.cpp:1084-1106 | After creation, each file's parsing flag still follows the rule: delayed bodies are disabled for primaries and in whole-module mode, warnings are suppressed otherwise. The primary source files are still exactly the primary-buffer files in creation order, and the completion file still holds the completion buffer. |
| Sema.PrimaryAppended | lib/Frontend/Frontend.cpp:201-208 | Recording a primary source file on creation keeps the primary list exact and strictly increasing. |
| Sema.LibraryBuffers | lib/Frontend/Frontend.cpp:1003-1007 | The library buffers are exactly the source-code buffers other than the main buffer. |
| Sema.LibraryParsed | lib/Frontend/Frontend.cpp:975-985 | Parsing one library file keeps the session well formed. |
| Sema.LibrariesParsed | lib/Frontend/Frontend.cpp:1002-1007 | The library loop keeps the session well formed and only appends files. Its events are import resolutions of the new files only. Flags, diagnostics and imports are untouched. |
| Sema.MainFileCheckedUpTo | lib/Frontend/Frontend.cpp:1011-1047 | Main-file processing leaves every other file alone. It type-checks the main file when the main file is primary and the limit is TypeChecked. Otherwise it only resolves the main file's imports, unless the file was already type-checked. An earlier error stays set. |
| Sema.FilesToTypeCheck | lib/Frontend/Frontend.cpp:1058-1067 | The files to type-check (all files in whole-module mode, the primary source files otherwise) are valid file indices. |
| Sema.TypeCheckStep | lib/Frontend/Frontend.cpp:946-965 | One per-file step keeps the file list and leaves every other file unchanged. Beyond ImportsResolved the file becomes TypeChecked. At ImportsResolved (binding extensions) its stage stays as it was. An earlier error stays set. |
| Sema.TypeCheckedEach | lib/Frontend/Frontend.cpp:946-965 | The per-file loop keeps the file list, never moves a stage backwards, and keeps an earlier error. |
| Sema.PartialModulesAndLibrariesParsed | lib/Frontend/Frontend.cpp:987-1009 | Loading partial modules and parsing library files keeps the session well formed and only appends files. |
| Sema.REPLFileCreated | lib/Frontend/Frontend.cpp:802-813 | The REPL path appends exactly one file. |
| Sema.Prelude | lib/Frontend/Frontend.cpp:783-794 | The prelude touches no files. The SIL module exists afterwards iff it did before or the input is SIL. |
| Sema.WithOnoneSupport | lib/Frontend/Frontend.cpp:795-798 | Adding the implicit import touches no files and no SIL module. |
| Sema.MainFileAdded | lib/Frontend/Frontend.cpp:908-913 | Adding the main file keeps the session well formed. |
| Sema.MainFileAddedReady | lib/Frontend/Frontend.cpp:815-817 | After the main file is added to a fresh module, the session meets what parse-and-check needs: well formed, and the main file is first. |
| SemaFacts.LibraryFilesInOrder | lib/Frontend/Frontend.cpp:1002-1007 | Library files are appended one per non-main source buffer, in buffer order. |
| SemaFacts.TypeCheckedEachStages | lib/Frontend/Frontend.cpp:946-965 | Beyond ImportsResolved the per-file loop makes every listed file TypeChecked and leaves every unlisted file at its stage. At ImportsResolved no stage changes. |
| SemaFacts.TypeCheckedEachEvents | lib/Frontend/Frontend.cpp:946-965 | The per-file loop's events are per-file calls on existing files. The PC macro and playground transforms run only while no error has been raised. |
| SemaFacts.PartialModulesAndLibrariesEvents | lib/Frontend/Frontend.cpp:987-1009 | Every partial module is loaded first, in order. Then each new library file gets an import resolution. The files appended are the library files in buffer order. |
| SemaFacts.LoadErrorStopsBeforeTypeChecking | lib/Frontend/Frontend.cpp:919-928 | After a partial-module load error, only loads and library import resolutions happen. Imports are not marked resolved, and no whole-module finish runs. |
| SemaFacts.LoadErrorKeepsParse | lib/Frontend/Frontend.cpp:919-928 | After a load error, files and events are exactly those of the parse phase. |
| SemaFacts.CheckedTypesUpToSplits | lib/Frontend/Frontend.cpp:919-928 | In code-completion mode one error diagnostic is added, which marks the context erroneous. The rest of the pipeline stops at a load error and otherwise continues. |
| SemaFacts.MainFileEvents | lib/Frontend/Frontend.cpp:1011-1047 | The main file gets type checking when it is primary and the limit is TypeChecked, and import resolution otherwise. Every later event concerns file 0. The debugger-testing transform never runs after an error. |
| SemaFacts.FilesCheckedEvents | lib/Frontend/Frontend.cpp:934-965 | Main-file processing and the per-file loop only append per-file events, and imports end up marked resolved. |
| SemaFacts.TypesCheckedEvents | lib/Frontend/Frontend.cpp:967-972 | The whole-module checks and the implementation-only-import check are appended iff the limit is TypeChecked. |
| SemaFacts.CleanParseFinishes | lib/Frontend/Frontend.cpp:915-973 | Without a load error the event log is parse events, then per-file events, then (at TypeChecked only) the finish events. |
| SemaFacts.ParsedEvents | lib/Frontend/Frontend.cpp:987-1009 | Parse-phase events never touch a file that existed before the phase. |
| SemaFacts.FilesCheckedAfterMain | lib/Frontend/Frontend.cpp:930-946 | The per-file loop runs after the main file is processed, and the main file stays past Unprocessed. |
| SemaFacts.MainFileCheckedAfterLibraries | lib/Frontend/Frontend.cpp:930-936 | The main file is processed only after every library file was parsed and resolved. Its first event comes right after the parse phase. |
| SemaFacts.TypesCheckedSameFileList | lib/Frontend/Frontend.cpp:934-972 | Type checking adds and removes no files. |
| SemaFacts.CheckedTypesUpToKeepsWellFormed | lib/Frontend/Frontend.cpp:915-973 | Parse-and-check keeps the session well formed. |
| SemaFacts.MainFileStages | lib/Frontend/Frontend.cpp:938-943 | When the main file is checked, every file is past Unprocessed, which is the source's all-files assertion. |
| SemaFacts.LoopStagesFollowMode | lib/Frontend/Frontend.cpp:946-965 | The loop over forEachFileToTypeCheck's files leaves every file TypeChecked at the TypeChecked limit when it is checked, and import-resolved otherwise. In whole-module mode every file is checked; otherwise exactly the files with primary buffers are. |
| SemaFacts.FilesCheckedStages | lib/Frontend/Frontend.cpp:938-965 | After a clean parse with a fresh main file, main-file processing followed by the loop leaves every file at that stage. |
| SemaFacts.CheckedFilesFollowMode | lib/Frontend/Frontend.cpp:915-973 | After a clean parse, at the TypeChecked limit, every file ends TypeChecked in whole-module mode. Otherwise a file ends TypeChecked iff its buffer is primary. Every other file, and every file at the ImportsResolved limit, ends import-resolved. |
| SemaFacts.ParsedLibrariesImportResolved | lib/Frontend/Frontend.cpp:975-1009 | Parsing partial modules and library files keeps the existing files. Every library file it adds is import-resolved. |
| SemaFacts.SemaFilesFollowMode | lib/Frontend/Frontend.cpp:775-820 | For a module that is not a REPL, and is stopped neither by the standard library nor by a partial-module load error, performSemaUpTo leaves every file at the same stage as parse-and-check does. |
| SemaFacts.FilesCheckedResolvesAll | lib/Frontend/Frontend.cpp:938-944 | When the module is marked as having resolved imports, every file is at least ImportsResolved. |
| SemaFacts.ResolvedImportsOnlyWhenAllResolved | lib/Frontend/Frontend.cpp:927-944 | The module's resolved-imports flag is set iff no partial module failed to load. When set, every file's imports are resolved. |
| SemaFacts.ParsedFilesResolved | lib/Frontend/Frontend.cpp:983-984 | Every library file parsed is past Unprocessed. |
| SemaFacts.FinishTypeCheckingOnlyAtTypeChecked | lib/Frontend/Frontend.cpp:967-972 | The implementation-only-import check runs iff there was no load error and the limit is TypeChecked. The finish events then end the log. Whole-module checks only occur in whole-module mode. In code-completion mode no transform runs. |
| SemaFacts.CheckedTypesUpToFrame | lib/Frontend/Frontend.cpp:915-973 | Parse-and-check keeps the implicit imports, the SIL module, and the kind and buffer of every existing file. |
| SemaFacts.SemaUpToKeepsWellFormed | lib/Frontend/Frontend.cpp:775-820 | Semantic analysis from a fresh module ends well formed. |
| SemaFacts.StdlibFailureStopsSema | lib/Frontend/Frontend.cpp:790-794 | If the standard library is missing or fails to load, no file is created. The only events are the SIL module (for SIL input) and the load attempt. A missing library adds the not-found error; a failed load adds nothing. |
| SemaFacts.REPLGetsOneCheckedFile | lib/Frontend/Frontend.cpp:802-813 | REPL input yields exactly one buffer-less REPL file, marked TypeChecked, and no other engine call. |
| SemaFacts.OnoneSupportImportedWhenItShould | lib/Frontend/Frontend.cpp:795-798 | SwiftOnoneSupport is appended to the implicit imports iff the import decision says so. |
| SemaFacts.MainFileIsFirst | lib/Frontend/Frontend.cpp:815-817 | Outside the REPL, the SIL module exists iff the input is SIL, and a main buffer yields a first file of the main-file kind on that buffer. |
| SemaDriver.WholeModuleChecks | lib/Frontend/Frontend.cpp:1070-1074 | The loop produces one whole-module check per source file, in file order. |
| SemaDriver.SemaSession.CreateSourceFileForMainModule | lib/Frontend/Frontend.cpp:1079-1109 | The session becomes the file-creation specification applied to its old state. |
| SemaDriver.SemaSession.ParseLibraryFile | lib/Frontend/Frontend.cpp:975-985 | The session becomes its old state with one library file created and resolved. |
| SemaDriver.SemaSession.ParsePartialModulesAndLibraryFiles | lib/Frontend/Frontend.cpp:987-1009 | Returns the load-error flag. The session follows the parse-phase specification. |
| SemaDriver.SemaSession.LoadPartialModules | lib/Frontend/Frontend.cpp:991-1000 | Loads every partial module in order, and reports an error iff one failed. |
| SemaDriver.SemaSession.ParseLibraryFiles | lib/Frontend/Frontend.cpp:1002-1007 | Parses each non-main source buffer in order, following the library-loop specification. |
| SemaDriver.SemaSession.ParseAndTypeCheckMainFileUpTo | lib/Frontend/Frontend.cpp:1011-1047 | The session follows the main-file specification. |
| SemaDriver.SemaSession.TypeCheckOne | lib/Frontend/Frontend.cpp:946-965 | The session follows one per-file step. |
| SemaDriver.SemaSession.TypeCheckFiles | lib/Frontend/Frontend.cpp:1058-1067 | Visits the files to type-check in order. The session follows the per-file loop's specification. |
| SemaDriver.SemaSession.FinishTypeChecking | lib/Frontend/Frontend.cpp:1069-1077 | Appends the whole-module checks (in whole-module mode) and then the implementation-only-import check. |
| SemaDriver.SemaSession.CheckFilesUpTo | lib/Frontend/Frontend.cpp:934-972 | Main file, per-file loop, and the finish only at TypeChecked, as specified. |
| SemaDriver.SemaSession.CheckFiles | lib/Frontend/Frontend.cpp:934-965 | Main file, resolved-imports flag, then the per-file loop, as specified. |
| SemaDriver.SemaSession.CheckMainFile | lib/Frontend/Frontend.cpp:934-943 | Processes the main file when there is one. Every file is then past Unprocessed, which is proved in place of the source's assertion. |
| SemaDriver.SemaSession.ParseAndCheckTypesUpTo | lib/Frontend/Frontend.cpp:915-973 | The session follows the parse-and-check specification. |
| SemaDriver.SemaSession.LoadStandardLibrary | lib/Frontend/Frontend.cpp:835-852 | Succeeds iff the standard library loads. Only a missing library adds the not-found error. |
| SemaDriver.SemaSession.SetUpImplicitImports | lib/Frontend/Frontend.cpp:783-798 | Succeeds iff the standard library is not required or loads. On success SwiftOnoneSupport is added as decided; on failure the session stops there. |
| SemaDriver.SemaSession.PerformSemaUpTo | lib/Frontend/Frontend.cpp:775-820 | The session follows the whole semantic-analysis specification. |
| SILProcessing.MandatoryPassChoice | lib/Frontend/Frontend.cpp:1179-1193 | Merge-modules runs no diagnostic pass. Otherwise the diagnostic passes run unless skipped, in which case only the ownership eliminator runs. |
| SILProcessing.MandatoryPasses | lib/Frontend/Frontend.cpp:1179-1197 | Only mandatory steps run, failing iff the chosen pass fails. Linking all from the current module happens iff nothing failed and partial modules are merged. |
| SILProcessing.Optimizations | lib/Frontend/Frontend.cpp:1201-1228 | Merge-modules or an unoptimized build runs only the Onone passes. Otherwise the prepare passes run first, then the file pipeline iff a pipeline file is named, else the default pipeline. The prespecialization check runs iff completeness checking, ObjC interop and emit-object all hold. |
| SILProcessing.Processing | lib/Frontend/Frontend.cpp:1241-1264 | Processing fails iff the mandatory passes fail, and then runs nothing after them. On success the run is the mandatory steps, a verification, exactly the steps of performSILOptimizations, and a final verification. |
| SILProcessing.VerifiesTwiceUnlessMandatoryFails | lib/Frontend/Frontend.cpp:1241-1264 | The module is verified exactly twice on success, and never when the mandatory passes fail. |
| SILProcessing.MandatoryFailureStopsProcessing | lib/Frontend/Frontend.cpp:1242-1243 | A mandatory failure leaves only mandatory steps and no verification. |
| SILProcessing.SuccessfulRunOrder | lib/Frontend/Frontend.cpp:1241-1264 | On success the order is the mandatory steps, verify, exactly the optimization steps performSILOptimizations chose, then verify as the last step. |
| SILProcessing.MergeModulesRunsNoDiagnostics | lib/Frontend/Frontend.cpp:1181-1184 | Merge-modules never fails the mandatory passes, and runs neither diagnostics nor the ownership eliminator. |
| SILProcessing.SkippedDiagnosticsStillEliminateOwnership | lib/Frontend/Frontend.cpp:1185-1193 | With diagnostics skipped, the ownership eliminator runs first. Processing fails iff it fails. |
| SILProcessing.OnoneOnlyRunsOnonePasses | lib/Frontend/Frontend.cpp:1204-1209 | Under merge-modules or without optimization, the only optimization step is the Onone pipeline. |
| ParserState.LocOffsetInBuffer | lib/Parse/PersistentParserState.cpp:35-36 | A location's offset is stored as an `unsigned` (below 2^32). For a buffer shorter than 2^32 it is the exact distance from the buffer start. |
| ParserState.PrevOffset | lib/Parse/PersistentParserState.cpp:37-39 | The previous offset is `~0U` for an invalid location, else the location's buffer offset. |
| ParserState.PrevOffsetSentinel | lib/Parse/PersistentParserState.cpp:37-39 | For buffers shorter than `~0U` bytes, the stored previous offset is `~0U` iff there was no previous location. |
| ParserState.SentinelCollidesInHugeBuffer | lib/Parse/PersistentParserState.cpp:37-39 | In a buffer of `~0U` bytes, a location at offset `~0U` is stored exactly like "no previous location". |
| ParserState.PersistentParserState.SetCodeCompletionDelayedDeclState | lib/Parse/PersistentParserState.cpp:29-44 | Requires the slot to be empty (only one declaration can be delayed). Fills it with the kind, flags, context, current scope, the body range's two offsets and the previous offset. |
| ParserState.PersistentParserState.RestoreCodeCompletionDelayedDeclState | lib/Parse/PersistentParserState.cpp:46-52 | Overwrites the slot, whether full or not, with the other state under the current scope. |
| ParserState.Restored | lib/Parse/PersistentParserState.cpp:46-52 | A restored state keeps kind, flags, parent context and all three offsets. Only the scope is replaced. |
| ParserState.StoredOffsetsLocateRange | lib/Parse/PersistentParserState.cpp:29-44 | For buffers shorter than `~0U` bytes, the stored offsets locate the body range and the previous location again: the slot loses no information. |

## Left out

- **Statistics, tracing and argument handling.** Statistics tracers, `countStatsPostSILOpt`, `performSILInstCountIfNeeded`, LLVM argument setup, the PCH hash and diagnostic-verifier setup. They do not affect what is modelled.
- **Other driver entry points.** `performParseOnly`, `emitSwiftRanges`, the primary-specific output paths and module freeing are outside the modelled core.
- **The file system.** It is a finite map from paths to contents or a read error.
  - Standard input ("-"), real paths and YAML parsing of overlays are not modelled.
  - Overlay validity is a predicate on the file's bytes.
  - The overlaid file system is a value recording the base and the overlay list.
- **Path helpers.** The `llvm::sys::path` helpers are not part of this model. `Paths` gives a POSIX version with '/' separators, and `replace_extension` keeps everything up to the last dot of the file name (so "a/.." becomes "a/." plus the new extension, as in LLVM).
- Sidecars.SourceInfoPathWithProjectDir: keeps a doubled separator in front of the file name ("a//m.swiftmodule" gives "a//Project/m.swiftsourceinfo"), where `remove_filename` collapses it ("a/Project/m.swiftsourceinfo"). Both strings name the same file on a POSIX file system, but the model's file system compares paths as strings.
- **Buffer IDs.** The source manager's buffers are numbered densely from 0 here, while the real source manager starts at 1. Only distinctness and order matter to the properties.
- **Environment and Clang importer.** The environment variable SWIFT_FORCE_MODULE_LOADING is an input (`Option<string>`). Clang-importer creation is a boolean input. The module cache paths and loader options passed to each loader are left out.
- **Implicit imports.** The import list is modelled as names. `ImplicitImports`, `importUnderlyingModule`, `importBridgingHeader`, `getImplicitlyImportedModules` and `addAdditionalInitialImportsTo` are left out; they resolve names to modules through engines outside this model.
- **Main-file warning toggle.** The main file's temporary warning suppression (setSuppressWarnings around its processing) is not modelled, because it restores the previous value before returning.
- **Main-module registration.** Registering the main module in `LoadedModules` is not modelled.
- **Error state.** The context's error state is modelled as a flag in the session. The engines raise it when a buffer is erroneous, and the pipeline raises it on the not-found and code-completion diagnostics.
- **Standard-library load failure.** The assertion in `loadStdlib` that a failed load was already diagnosed is not modelled. A failed load is taken as already diagnosed and adds nothing.
- **Whole-module settings.** Whole-module compilation and the type checker's `DelayWholeModuleChecking` option are modelled by one input, `wholeModule`. The model does not cover a configuration where they differ.
- Sema.FileCreated: does not model the "multiple code completion files" assertion. A second file on the completion buffer would replace the recorded completion file.
- SemaDriver.SemaSession.PerformSemaUpTo: the source's assertions are preconditions, not failure paths.
  - `limit != Unprocessed` stands for the assertion at lib/Frontend/Frontend.cpp:776, which holds in every input mode.
  - `SILModeReady` stands for the SIL-mode assertions. Two are at lib/Frontend/Frontend.cpp:784-786: exactly one source buffer, and a main buffer. The assertion "Should perform type checking for SIL" at lib/Frontend/Frontend.cpp:1031 adds that the main file is primary and the limit is TypeChecked.
  - `Fresh` requires the pipeline to start from a main module with no files. The source's callers guarantee this; it is not an assertion.
- ParserState.PersistentParserState.SetCodeCompletionDelayedDeclState: the "only one decl can be delayed" assertion is a precondition. The source manager is reduced to buffer extents. Scope bookkeeping is an opaque saved-scope value, and the declaration context is an opaque number.
- **Engines.** The type checker, module loader, SIL parser, SIL optimizer and SIL verifier are not modelled. Their outcomes are inputs (`Engines`, `PassOutcomes`), and their calls are events or trace steps.
