/** Input setup: the code-completion buffer, the per-input classification into
    source buffers and serialized partial modules, and the designation of the
    main and primary buffers (setUpInputs and its helpers). */
module Inputs {
  import opened FrontendTypes
  import opened Paths
  import opened Sidecars

  /** The buffer and offset of a code-completion request. */
  datatype CodeCompletionPoint = CodeCompletionPoint(buffer: MemoryBuffer, offset: nat)

  /** Where the source manager records the completion point. */
  datatype CompletionLocation = CompletionLocation(buffer: BufferId, offset: nat)

  /** What input setup consults and does not change: the file system, the
      serialized-module sniff and the invocation's input kind. */
  datatype InputEnv = InputEnv(fs: FileSystem, isSerializedAST: Bytes -> bool, inputKind: InputFileKind)

  /** The fields input setup updates: the source manager's buffers (the buffer
      with ID i is buffers[i]) and identifier table, and the compiler
      instance's main buffer, primary buffers, source-code buffer list and
      partial modules, plus the diagnostics raised. */
  datatype InputState = InputState(
    buffers: seq<MemoryBuffer>,
    idents: map<string, BufferId>,
    codeCompletionPoint: Option<CompletionLocation>,
    mainBuffer: Option<BufferId>,
    primaryBuffers: set<BufferId>,
    sourceBuffers: seq<BufferId>,
    partialModules: seq<ModuleBuffers>,
    diags: seq<Diag>)

  /** Every recorded buffer ID names an existing buffer, and the source-code
      buffer list is strictly increasing, so it never lists a buffer twice. */
  predicate Valid(st: InputState)
  {
    && (forall k :: k in st.idents ==> st.idents[k] < |st.buffers|)
    && (forall i :: 0 <= i < |st.sourceBuffers| ==> st.sourceBuffers[i] < |st.buffers|)
    && (forall i, j :: 0 <= i < j < |st.sourceBuffers| ==> st.sourceBuffers[i] < st.sourceBuffers[j])
    && (st.mainBuffer.Some? ==> st.mainBuffer.value < |st.buffers|)
    && (forall id :: id in st.primaryBuffers ==> id < |st.buffers|)
    && (st.codeCompletionPoint.Some? ==> st.codeCompletionPoint.value.buffer < |st.buffers|)
  }

  /** The state before any input is set up. */
  function Initial(): (r: InputState)
    ensures Valid(r)
  {
    InputState([], map[], None, None, {}, [], [], [])
  }

  /** The internal assertions of input setup. */
  datatype Assertion =
    | ReSettingMainBufferID     // a second main.swift buffer
    | ReSettingPrimaryBufferID  // a completion buffer besides another primary

  /** The outcome of a setup step: success, failure (the source's `true`
      return), or a failed internal assertion. */
  datatype Status = Success | Failure | AssertionFailure(assertion: Assertion)

  datatype SetupStep = SetupStep(st: InputState, status: Status)

  /** The source manager's addNewSourceBuffer: the buffer gets the next ID,
      |buffers|, and its identifier is mapped to it. */
  function BufferAdded(st: InputState, buf: MemoryBuffer): (r: InputState)
    ensures Valid(st) ==> Valid(r)
  {
    st.(buffers := st.buffers + [buf], idents := st.idents[buf.identifier := |st.buffers|])
  }

  /** setUpCodeCompletionBuffer: a copy of the completion buffer becomes a
      new source buffer, listed as an input source-code buffer and marked as
      holding the completion point; without a completion point nothing
      changes. */
  function CodeCompletionBufferAdded(st: InputState, cc: Option<CodeCompletionPoint>): (r: InputState)
    ensures Valid(st) ==> Valid(r)
    ensures cc.None? ==> r == st
    ensures cc.Some? ==> && r.buffers == st.buffers + [cc.value.buffer]
                         && r.sourceBuffers == st.sourceBuffers + [|st.buffers|]
                         && r.codeCompletionPoint == Some(CompletionLocation(|st.buffers|, cc.value.offset))
    ensures r.mainBuffer == st.mainBuffer && r.primaryBuffers == st.primaryBuffers
            && r.partialModules == st.partialModules && r.diags == st.diags
  {
    match cc
    case None => st
    case Some(point) =>
      var id := |st.buffers|;
      BufferAdded(st, point.buffer).(sourceBuffers := st.sourceBuffers + [id],
                                     codeCompletionPoint := Some(CompletionLocation(id, point.offset)))
  }

  /** What getRecordedBufferID reports for one input: the read failed, the
      input is a serialized module (no source buffer), or its source buffer. */
  datatype Recorded = RecordFailed | NotSourceBuffer | SourceBuffer(id: BufferId)

  datatype RecordStep = RecordStep(st: InputState, outcome: Recorded)

  /** getRecordedBufferID: a path input whose identifier is already registered
      reuses that buffer; otherwise the input's buffers are looked up, and a
      serialized module goes to the partial modules while anything else
      becomes a fresh source buffer, appended to the source-code buffer list. */
  function BufferRecorded(st: InputState, env: InputEnv, input: InputFile): (r: RecordStep)
    ensures Valid(st) ==> Valid(r.st)
    ensures r.st.mainBuffer == st.mainBuffer && r.st.primaryBuffers == st.primaryBuffers
            && r.st.codeCompletionPoint == st.codeCompletionPoint
  {
    if input.buffer.None? && input.file in st.idents then
      RecordStep(st, SourceBuffer(st.idents[input.file]))
    else
      var lookup := GetInputBuffersIfPresent(env.fs, env.isSerializedAST, input);
      var st1 := st.(diags := st.diags + lookup.diags);
      match lookup.buffers
      case None => RecordStep(st1, RecordFailed)
      case Some(b) =>
        if env.isSerializedAST(b.moduleBuffer.contents) then
          RecordStep(st1.(partialModules := st.partialModules + [b]), NotSourceBuffer)
        else
          var id := |st.buffers|;
          RecordStep(BufferAdded(st1, b.moduleBuffer).(sourceBuffers := st.sourceBuffers + [id]), SourceBuffer(id))
  }

  /** A path input that cannot be read, and whose path is not registered,
      fails with exactly one diagnostic and changes nothing else. */
  lemma ReadFailureIsRecorded(st: InputState, env: InputEnv, input: InputFile)
    ensures BufferRecorded(st, env, input).outcome.RecordFailed?
            <==> input.buffer.None? && input.file !in st.idents && ReadFile(env.fs, input.file).Unreadable?
    ensures BufferRecorded(st, env, input).outcome.RecordFailed?
            ==> BufferRecorded(st, env, input).st
                == st.(diags := st.diags + [ErrorOpenInputFile(input.file, ReadFile(env.fs, input.file).error)])
  {
  }

  /** A path input whose identifier is registered reuses that buffer and
      changes nothing. */
  lemma RegisteredPathIsReused(st: InputState, env: InputEnv, input: InputFile)
    requires input.buffer.None? && input.file in st.idents
    ensures BufferRecorded(st, env, input) == RecordStep(st, SourceBuffer(st.idents[input.file]))
  {
  }

  /** A serialized module becomes one more partial module and never a source
      buffer. */
  lemma SerializedInputIsPartialModule(st: InputState, env: InputEnv, input: InputFile)
    requires BufferRecorded(st, env, input).outcome.NotSourceBuffer?
    ensures var r := BufferRecorded(st, env, input).st;
            && r.buffers == st.buffers && r.sourceBuffers == st.sourceBuffers
            && |r.partialModules| == |st.partialModules| + 1
            && r.partialModules[..|st.partialModules|] == st.partialModules
            && env.isSerializedAST(r.partialModules[|st.partialModules|].moduleBuffer.contents)
  {
  }

  /** Any other input gets the next buffer ID, appended to the source-code
      buffer list, unless its path was already registered. */
  lemma SourceInputGetsFreshBuffer(st: InputState, env: InputEnv, input: InputFile)
    requires BufferRecorded(st, env, input).outcome.SourceBuffer?
    requires !(input.buffer.None? && input.file in st.idents)
    ensures var r := BufferRecorded(st, env, input);
            && r.outcome.id == |st.buffers| && |r.st.buffers| == |st.buffers| + 1
            && r.st.sourceBuffers == st.sourceBuffers + [r.outcome.id]
            && r.st.partialModules == st.partialModules
            && !env.isSerializedAST(r.st.buffers[r.outcome.id].contents)
  {
  }

  /** An input designates the main buffer by name only when the inputs are
      Swift source. */
  predicate IsMainFile(env: InputEnv, input: InputFile)
  {
    env.inputKind == Swift && FileName(input.file) == MainFileName
  }

  const MainFileName: string := "main.swift"

  /** setUpForInput: records the input's buffer; a Swift source buffer named
      main.swift becomes the main buffer (a second one trips the assertion
      against re-setting it), and a primary input's buffer becomes primary. */
  function InputSetUp(st: InputState, env: InputEnv, input: InputFile): (r: SetupStep)
    ensures Valid(st) ==> Valid(r.st)
    ensures r.status.Failure? <==> BufferRecorded(st, env, input).outcome.RecordFailed?
    ensures r.status.AssertionFailure?
            <==> IsMainFile(env, input) && BufferRecorded(st, env, input).outcome.SourceBuffer? && st.mainBuffer.Some?
    ensures r.status.Success? && BufferRecorded(st, env, input).outcome.SourceBuffer?
            ==> var id := BufferRecorded(st, env, input).outcome.id;
                && r.st.mainBuffer == (if IsMainFile(env, input) then Some(id) else st.mainBuffer)
                && r.st.primaryBuffers == st.primaryBuffers + (if input.isPrimary then {id} else {})
    ensures !BufferRecorded(st, env, input).outcome.SourceBuffer?
            ==> r.st.mainBuffer == st.mainBuffer && r.st.primaryBuffers == st.primaryBuffers
    ensures r.st.sourceBuffers == BufferRecorded(st, env, input).st.sourceBuffers
            && r.st.partialModules == BufferRecorded(st, env, input).st.partialModules
            && r.st.diags == BufferRecorded(st, env, input).st.diags
  {
    var rec := BufferRecorded(st, env, input);
    match rec.outcome
    case RecordFailed => SetupStep(rec.st, Failure)
    case NotSourceBuffer => SetupStep(rec.st, Success)
    case SourceBuffer(id) =>
      if IsMainFile(env, input) && rec.st.mainBuffer.Some? then
        SetupStep(rec.st, AssertionFailure(ReSettingMainBufferID))
      else
        var st1 := if IsMainFile(env, input) then rec.st.(mainBuffer := Some(id)) else rec.st;
        var st2 := if input.isPrimary then st1.(primaryBuffers := st1.primaryBuffers + {id}) else st1;
        SetupStep(st2, Success)
  }

  /** The loop of setUpInputs over every input, in order, stopping at the
      first input that does not succeed. */
  function AllInputsSetUp(st: InputState, env: InputEnv, inputs: seq<InputFile>): (r: SetupStep)
    ensures Valid(st) ==> Valid(r.st)
    ensures st.sourceBuffers <= r.st.sourceBuffers && st.diags <= r.st.diags
    ensures st.partialModules <= r.st.partialModules
    ensures forall k :: |st.partialModules| <= k < |r.st.partialModules|
                        ==> env.isSerializedAST(r.st.partialModules[k].moduleBuffer.contents)
    ensures r.st.codeCompletionPoint == st.codeCompletionPoint
    decreases |inputs|
  {
    if inputs == [] then SetupStep(st, Success)
    else
      var first := InputSetUp(st, env, inputs[0]);
      if !first.status.Success? then first
      else AllInputsSetUp(first.st, env, inputs[1..])
  }

  /** shouldTreatSingleInputAsMain: the input kinds for which a single source
      buffer is the main file. */
  predicate ShouldTreatSingleInputAsMain(kind: InputFileKind)
  {
    match kind
    case Swift | SwiftModuleInterface | SIL => true
    case SwiftLibrary | SwiftREPL | LLVM | NoInputKind => false
  }

  /** The code-completion buffer becomes the primary buffer when it is not
      already one; if some other buffer is primary, the assertion against
      re-setting the primary buffer fails. */
  function CodeCompletionPrimary(st: InputState, ccId: Option<BufferId>): (r: SetupStep)
    ensures r.status.AssertionFailure?
            <==> ccId.Some? && ccId.value !in st.primaryBuffers && st.primaryBuffers != {}
    ensures r.status.Success? && ccId.Some? ==> ccId.value in r.st.primaryBuffers
    ensures r.st.primaryBuffers != st.primaryBuffers
            ==> ccId.Some? && st.primaryBuffers == {} && r.st.primaryBuffers == {ccId.value}
    ensures r.st == st.(primaryBuffers := r.st.primaryBuffers)
    ensures Valid(st) && (ccId.Some? ==> ccId.value < |st.buffers|) ==> Valid(r.st)
  {
    if ccId.Some? && ccId.value !in st.primaryBuffers then
      if st.primaryBuffers != {} then SetupStep(st, AssertionFailure(ReSettingPrimaryBufferID))
      else SetupStep(st.(primaryBuffers := {ccId.value}), Success)
    else SetupStep(st, Success)
  }

  /** When no main buffer was named and there is exactly one source-code
      buffer of a kind that stands alone, that buffer is the main buffer. */
  function SingleInputMain(st: InputState, kind: InputFileKind): (r: InputState)
    ensures Valid(st) ==> Valid(r)
    ensures r == st.(mainBuffer := r.mainBuffer)
    ensures r.mainBuffer != st.mainBuffer
            <==> st.mainBuffer.None? && |st.sourceBuffers| == 1 && ShouldTreatSingleInputAsMain(kind)
    ensures r.mainBuffer != st.mainBuffer ==> r.mainBuffer == Some(st.sourceBuffers[0])
  {
    if st.mainBuffer.None? && |st.sourceBuffers| == 1 && ShouldTreatSingleInputAsMain(kind) then
      st.(mainBuffer := Some(st.sourceBuffers[0]))
    else st
  }

  /** The ID the code-completion buffer gets when one is requested. */
  function CodeCompletionId(st: InputState, cc: Option<CodeCompletionPoint>): Option<BufferId>
  {
    if cc.Some? then Some(|st.buffers|) else None
  }

  /** setUpInputs: the code-completion buffer first, then every input, then
      the primary fallback for the completion buffer and the single-input
      main inference. */
  function InputsSetUp(st: InputState, env: InputEnv, cc: Option<CodeCompletionPoint>, inputs: seq<InputFile>): (r: SetupStep)
  {
    var all := AllInputsSetUp(CodeCompletionBufferAdded(st, cc), env, inputs);
    if !all.status.Success? then all
    else
      var primary := CodeCompletionPrimary(all.st, CodeCompletionId(st, cc));
      if !primary.status.Success? then primary
      else SetupStep(SingleInputMain(primary.st, env.inputKind), Success)
  }

  /** Input setup keeps every recorded buffer ID valid and the source-code
      buffer list free of duplicates. */
  lemma InputsSetUpPreservesValid(st: InputState, env: InputEnv, cc: Option<CodeCompletionPoint>, inputs: seq<InputFile>)
    requires Valid(st)
    ensures Valid(InputsSetUp(st, env, cc, inputs).st)
  {
    var st1 := CodeCompletionBufferAdded(st, cc);
    var all := AllInputsSetUp(st1, env, inputs);
    if all.status.Success? && cc.Some? {
      var id := |st.buffers|;
      assert st1.sourceBuffers[|st1.sourceBuffers| - 1] == id;
      assert all.st.sourceBuffers[|st1.sourceBuffers| - 1] == id;
    }
  }

  /** Inputs after the first one that does not succeed are never looked at. */
  lemma {:induction false} SetupStopsAtFirstFailure(st: InputState, env: InputEnv, inputs: seq<InputFile>, rest: seq<InputFile>)
    requires !AllInputsSetUp(st, env, inputs).status.Success?
    ensures AllInputsSetUp(st, env, inputs + rest) == AllInputsSetUp(st, env, inputs)
    decreases |inputs|
  {
    assert inputs != [];
    assert (inputs + rest)[0] == inputs[0];
    var first := InputSetUp(st, env, inputs[0]);
    if first.status.Success? {
      assert (inputs + rest)[1..] == inputs[1..] + rest;
      SetupStopsAtFirstFailure(first.st, env, inputs[1..], rest);
    }
  }

  /** The paths of the inputs, in order. */
  function Files(inputs: seq<InputFile>): (r: seq<string>)
    ensures |r| == |inputs|
    decreases |inputs|
  {
    if inputs == [] then [] else [inputs[0].file] + Files(inputs[1..])
  }

  /** The last diagnostic is a read error of one of `paths`. */
  predicate EndsWithReadErrorOf(d: seq<Diag>, paths: seq<string>)
  {
    d != [] && d[|d| - 1].ErrorOpenInputFile? && d[|d| - 1].path in paths
  }

  /** A failed setup ends with the read error of one of the inputs. */
  lemma {:induction false} FailureIsDiagnosed(st: InputState, env: InputEnv, inputs: seq<InputFile>)
    requires AllInputsSetUp(st, env, inputs).status.Failure?
    ensures EndsWithReadErrorOf(AllInputsSetUp(st, env, inputs).st.diags, Files(inputs))
    decreases |inputs|
  {
    assert inputs != [];
    var first := InputSetUp(st, env, inputs[0]);
    if first.status.Success? {
      FailureIsDiagnosed(first.st, env, inputs[1..]);
      TailFailureIsDiagnosed(st, env, inputs);
    } else {
      HeadFailureIsDiagnosed(st, env, inputs);
    }
  }

  /** A failure at the first input is diagnosed with that input's path. */
  lemma HeadFailureIsDiagnosed(st: InputState, env: InputEnv, inputs: seq<InputFile>)
    requires inputs != [] && InputSetUp(st, env, inputs[0]).status.Failure?
    ensures EndsWithReadErrorOf(AllInputsSetUp(st, env, inputs).st.diags, Files(inputs))
  {
    var d := InputSetUp(st, env, inputs[0]).st.diags;
    assert AllInputsSetUp(st, env, inputs).st.diags == d;
    InputFailureIsDiagnosed(st, env, inputs[0]);
    assert Files(inputs)[0] == inputs[0].file;
  }

  /** A failure after a successful first input is diagnosed as the rest of
      the inputs diagnose it. */
  lemma TailFailureIsDiagnosed(st: InputState, env: InputEnv, inputs: seq<InputFile>)
    requires inputs != [] && InputSetUp(st, env, inputs[0]).status.Success?
    requires EndsWithReadErrorOf(AllInputsSetUp(InputSetUp(st, env, inputs[0]).st, env, inputs[1..]).st.diags, Files(inputs[1..]))
    ensures EndsWithReadErrorOf(AllInputsSetUp(st, env, inputs).st.diags, Files(inputs))
  {
    var d := AllInputsSetUp(InputSetUp(st, env, inputs[0]).st, env, inputs[1..]).st.diags;
    assert AllInputsSetUp(st, env, inputs).st.diags == d;
    assert Files(inputs) == [inputs[0].file] + Files(inputs[1..]);
  }

  /** An input that fails leaves the read error of its own path last. */
  lemma InputFailureIsDiagnosed(st: InputState, env: InputEnv, input: InputFile)
    requires InputSetUp(st, env, input).status.Failure?
    ensures var d := InputSetUp(st, env, input).st.diags;
            d != [] && d[|d| - 1] == ErrorOpenInputFile(input.file, ReadFile(env.fs, input.file).error)
  {
    ReadFailureIsRecorded(st, env, input);
  }

  /** Without a main.swift input the inputs leave the main buffer alone. */
  lemma {:induction false} NoMainFileKeepsMain(st: InputState, env: InputEnv, inputs: seq<InputFile>)
    requires forall i :: 0 <= i < |inputs| ==> !IsMainFile(env, inputs[i])
    ensures AllInputsSetUp(st, env, inputs).st.mainBuffer == st.mainBuffer
    decreases |inputs|
  {
    if inputs != [] {
      var first := InputSetUp(st, env, inputs[0]);
      if first.status.Success? {
        forall i | 0 <= i < |inputs[1..]| ensures !IsMainFile(env, inputs[1..][i]) {
          assert inputs[1..][i] == inputs[i + 1];
        }
        NoMainFileKeepsMain(first.st, env, inputs[1..]);
      }
    }
  }

  /** Without a main.swift input, a successful setup has a main buffer exactly
      when there is a single source-code buffer of a kind that stands alone,
      and then it is that buffer. */
  lemma MainInferredFromSingleInput(st: InputState, env: InputEnv, cc: Option<CodeCompletionPoint>, inputs: seq<InputFile>)
    requires st.mainBuffer.None?
    requires forall i :: 0 <= i < |inputs| ==> !IsMainFile(env, inputs[i])
    requires InputsSetUp(st, env, cc, inputs).status.Success?
    ensures var r := InputsSetUp(st, env, cc, inputs).st;
            && (r.mainBuffer.Some? <==> |r.sourceBuffers| == 1 && ShouldTreatSingleInputAsMain(env.inputKind))
            && (r.mainBuffer.Some? ==> r.mainBuffer.value == r.sourceBuffers[0])
  {
    NoMainFileKeepsMain(CodeCompletionBufferAdded(st, cc), env, inputs);
  }

  /** A successful setup with a code-completion point makes the completion
      buffer primary, and it is the only primary buffer when no input was
      primary. */
  lemma {:induction false} CodeCompletionBufferIsPrimary(st: InputState, env: InputEnv, cc: Option<CodeCompletionPoint>, inputs: seq<InputFile>)
    requires cc.Some? && st.primaryBuffers == {}
    requires InputsSetUp(st, env, cc, inputs).status.Success?
    requires forall i :: 0 <= i < |inputs| ==> !inputs[i].isPrimary
    ensures InputsSetUp(st, env, cc, inputs).st.primaryBuffers == {|st.buffers|}
  {
    NoPrimaryInputsKeepPrimaries(CodeCompletionBufferAdded(st, cc), env, inputs);
  }

  /** Inputs none of which is primary leave the primary buffers alone. */
  lemma {:induction false} NoPrimaryInputsKeepPrimaries(st: InputState, env: InputEnv, inputs: seq<InputFile>)
    requires forall i :: 0 <= i < |inputs| ==> !inputs[i].isPrimary
    ensures AllInputsSetUp(st, env, inputs).st.primaryBuffers == st.primaryBuffers
    decreases |inputs|
  {
    if inputs != [] {
      var first := InputSetUp(st, env, inputs[0]);
      if first.status.Success? {
        forall i | 0 <= i < |inputs[1..]| ensures !inputs[1..][i].isPrimary {
          assert inputs[1..][i] == inputs[i + 1];
        }
        NoPrimaryInputsKeepPrimaries(first.st, env, inputs[1..]);
      }
    }
  }

  /** The compiler instance's input fields, together with the source
      manager's buffer table they refer to. */
  class CompilerInputs {
    var buffers: seq<MemoryBuffer>
    var idents: map<string, BufferId>
    var codeCompletionPoint: Option<CompletionLocation>
    var mainBuffer: Option<BufferId>
    var primaryBuffers: set<BufferId>
    var sourceBuffers: seq<BufferId>
    var partialModules: seq<ModuleBuffers>
    var diags: seq<Diag>

    ghost function State(): InputState
      reads this
    {
      InputState(buffers, idents, codeCompletionPoint, mainBuffer, primaryBuffers, sourceBuffers, partialModules, diags)
    }

    constructor ()
      ensures State() == Initial()
    {
      buffers, idents, codeCompletionPoint := [], map[], None;
      mainBuffer, primaryBuffers, sourceBuffers := None, {}, [];
      partialModules, diags := [], [];
    }

    /** The source manager's addNewSourceBuffer. */
    method AddNewSourceBuffer(buf: MemoryBuffer) returns (id: BufferId)
      modifies this
      ensures id == |old(buffers)|
      ensures State() == BufferAdded(old(State()), buf)
    {
      id := |buffers|;
      buffers := buffers + [buf];
      idents := idents[buf.identifier := id];
    }

    method SetUpCodeCompletionBuffer(cc: Option<CodeCompletionPoint>) returns (ccId: Option<BufferId>)
      modifies this
      ensures ccId == CodeCompletionId(old(State()), cc)
      ensures State() == CodeCompletionBufferAdded(old(State()), cc)
    {
      ccId := None;
      if cc.Some? {
        var id := AddNewSourceBuffer(cc.value.buffer);
        ccId := Some(id);
        sourceBuffers := sourceBuffers + [id];
        codeCompletionPoint := Some(CompletionLocation(id, cc.value.offset));
      }
    }

    /** getRecordedBufferID: the buffer ID of a source input, None for a
        serialized module, and `failed` when the input could not be read. */
    method GetRecordedBufferID(env: InputEnv, input: InputFile) returns (bufferId: Option<BufferId>, failed: bool)
      modifies this
      ensures var step := BufferRecorded(old(State()), env, input);
              && State() == step.st
              && failed == step.outcome.RecordFailed?
              && bufferId == (if step.outcome.SourceBuffer? then Some(step.outcome.id) else None)
    {
      failed := false;
      if input.buffer.None? && input.file in idents {
        return Some(idents[input.file]), false;
      }
      var lookup := GetInputBuffersIfPresent(env.fs, env.isSerializedAST, input);
      diags := diags + lookup.diags;
      if lookup.buffers.None? {
        return None, true;
      }
      var b := lookup.buffers.value;
      if env.isSerializedAST(b.moduleBuffer.contents) {
        partialModules := partialModules + [b];
        return None, false;
      }
      var id := AddNewSourceBuffer(b.moduleBuffer);
      sourceBuffers := sourceBuffers + [id];
      bufferId := Some(id);
    }

    method SetUpForInput(env: InputEnv, input: InputFile) returns (status: Status)
      modifies this
      ensures SetupStep(State(), status) == InputSetUp(old(State()), env, input)
    {
      var bufferId, failed := GetRecordedBufferID(env, input);
      if failed {
        return Failure;
      }
      if bufferId.None? {
        return Success;
      }
      if IsMainFile(env, input) {
        if mainBuffer.Some? {
          return AssertionFailure(ReSettingMainBufferID);
        }
        mainBuffer := bufferId;
      }
      if input.isPrimary {
        primaryBuffers := primaryBuffers + {bufferId.value};
      }
      return Success;
    }

    method SetUpInputs(env: InputEnv, cc: Option<CodeCompletionPoint>, inputs: seq<InputFile>) returns (status: Status)
      modifies this
      ensures SetupStep(State(), status) == InputsSetUp(old(State()), env, cc, inputs)
    {
      var ccId := SetUpCodeCompletionBuffer(cc);
      ghost var afterCompletion := State();
      var i := 0;
      while i < |inputs|
        invariant 0 <= i <= |inputs|
        invariant AllInputsSetUp(afterCompletion, env, inputs) == AllInputsSetUp(State(), env, inputs[i..])
      {
        status := SetUpForInput(env, inputs[i]);
        if !status.Success? {
          return;
        }
        i := i + 1;
      }
      if ccId.Some? && ccId.value !in primaryBuffers {
        if primaryBuffers != {} {
          return AssertionFailure(ReSettingPrimaryBufferID);
        }
        primaryBuffers := primaryBuffers + {ccId.value};
      }
      if mainBuffer.None? && |sourceBuffers| == 1 && ShouldTreatSingleInputAsMain(env.inputKind) {
        mainBuffer := Some(sourceBuffers[0]);
      }
      return Success;
    }
  }
}
