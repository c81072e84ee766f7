/** The parser state that persists across parses: a single slot holding the
    declaration whose parsing was delayed for code completion.  Source
    locations are absolute positions in the source manager; the slot keeps
    them as 32-bit offsets into the buffer they belong to.  The scope
    bookkeeping is an opaque snapshot of the current scope. */
module ParserState {
  import opened FrontendTypes

  /** Number of values of a C++ `unsigned`. */
  const U32Modulus: nat := 0x1_0000_0000

  /** `~0U`: the offset stored when there is no previous location. */
  const NoPreviousOffset: nat := 0xFFFF_FFFF

  datatype CodeCompletionDelayedDeclKind = TopLevelCodeDecl | Decl | FunctionBody

  /** An absolute source location; `Invalid` is the null location. */
  datatype SourceLoc = Invalid | Loc(pos: nat)

  datatype SourceRange = SourceRange(start: SourceLoc, end: SourceLoc)

  /** Where a buffer's text begins and how long it is, in absolute positions. */
  datatype BufferSpan = BufferSpan(start: nat, length: nat)

  /** The source manager, reduced to the extent of each buffer. */
  type SourceManager = map<BufferId, BufferSpan>

  /** An opaque saved scope, as taken by the scope bookkeeping. */
  type SavedScope = nat

  datatype DelayedDeclState = DelayedDeclState(
    kind: CodeCompletionDelayedDeclKind,
    flags: nat,
    parentContext: nat,
    scope: SavedScope,
    startOffset: nat,
    endOffset: nat,
    prevOffset: nat)

  /** A valid location that lies within (or just past the end of) the buffer. */
  predicate InBuffer(sm: SourceManager, buffer: BufferId, loc: SourceLoc)
  {
    buffer in sm && loc.Loc? && sm[buffer].start <= loc.pos <= sm[buffer].start + sm[buffer].length
  }

  /** The source manager's offset of a location in a buffer, as an `unsigned`. */
  function LocOffsetInBuffer(sm: SourceManager, buffer: BufferId, loc: SourceLoc): (r: nat)
    requires InBuffer(sm, buffer, loc)
    ensures r < U32Modulus
    ensures sm[buffer].length < U32Modulus ==> sm[buffer].start + r == loc.pos
  {
    (loc.pos - sm[buffer].start) % U32Modulus
  }

  /** The stored previous offset: the sentinel for an invalid location,
      otherwise the location's offset in the buffer. */
  function PrevOffset(sm: SourceManager, buffer: BufferId, previous: SourceLoc): (r: nat)
    requires previous.Loc? ==> InBuffer(sm, buffer, previous)
    ensures r < U32Modulus
    ensures previous.Invalid? ==> r == NoPreviousOffset
  {
    if previous.Loc? then LocOffsetInBuffer(sm, buffer, previous) else NoPreviousOffset
  }

  /** The sentinel is unambiguous for buffers shorter than `~0U` bytes: the
      stored previous offset is `~0U` exactly when there was no previous
      location. */
  lemma PrevOffsetSentinel(sm: SourceManager, buffer: BufferId, previous: SourceLoc)
    requires previous.Loc? ==> InBuffer(sm, buffer, previous)
    requires buffer in sm && sm[buffer].length < NoPreviousOffset
    ensures PrevOffset(sm, buffer, previous) == NoPreviousOffset <==> previous.Invalid?
  {
    if previous.Loc? {
      assert previous.pos - sm[buffer].start < NoPreviousOffset;
    }
  }

  /** In a buffer of 4 GiB or more, a previous location at offset `~0U` is
      stored as the sentinel, so it reads back as "no previous location". */
  lemma SentinelCollidesInHugeBuffer()
    ensures var sm: SourceManager := map[0 := BufferSpan(0, NoPreviousOffset)];
            PrevOffset(sm, 0, Loc(NoPreviousOffset)) == PrevOffset(sm, 0, Invalid)
  {
  }

  class PersistentParserState {
    /** The single delayed-declaration slot. */
    var codeCompletionDelayedDeclStat: Option<DelayedDeclState>
    /** The scope the parser is currently in, as `saveCurrentScope` saves it. */
    var currentScope: SavedScope

    constructor (scope: SavedScope)
      ensures codeCompletionDelayedDeclStat.None? && currentScope == scope
    {
      codeCompletionDelayedDeclStat := None;
      currentScope := scope;
    }

    /** setCodeCompletionDelayedDeclState: only one declaration can be
        delayed, so the slot must be empty; the body range and the previous
        location become offsets in `bufferID`, with `~0U` for a missing
        previous location. */
    method SetCodeCompletionDelayedDeclState(
      sm: SourceManager, bufferID: BufferId, kind: CodeCompletionDelayedDeclKind,
      flags: nat, parentContext: nat, bodyRange: SourceRange, previousLoc: SourceLoc)
      requires codeCompletionDelayedDeclStat.None?
      requires InBuffer(sm, bufferID, bodyRange.start) && InBuffer(sm, bufferID, bodyRange.end)
      requires previousLoc.Loc? ==> InBuffer(sm, bufferID, previousLoc)
      modifies this`codeCompletionDelayedDeclStat
      ensures codeCompletionDelayedDeclStat == Some(DelayedDeclState(
                kind, flags, parentContext, currentScope,
                LocOffsetInBuffer(sm, bufferID, bodyRange.start),
                LocOffsetInBuffer(sm, bufferID, bodyRange.end),
                PrevOffset(sm, bufferID, previousLoc)))
    {
      var startOffset := LocOffsetInBuffer(sm, bufferID, bodyRange.start);
      var endOffset := LocOffsetInBuffer(sm, bufferID, bodyRange.end);
      var prevOffset := NoPreviousOffset;
      if previousLoc.Loc? {
        prevOffset := LocOffsetInBuffer(sm, bufferID, previousLoc);
      }
      codeCompletionDelayedDeclStat := Some(DelayedDeclState(
        kind, flags, parentContext, currentScope, startOffset, endOffset, prevOffset));
    }

    /** restoreCodeCompletionDelayedDeclState: overwrites the slot, full or
        not, with a copy of `other` whose scope is a fresh snapshot of the
        current one. */
    method RestoreCodeCompletionDelayedDeclState(other: DelayedDeclState)
      modifies this`codeCompletionDelayedDeclStat
      ensures codeCompletionDelayedDeclStat == Some(Restored(other, currentScope))
    {
      codeCompletionDelayedDeclStat := Some(DelayedDeclState(
        other.kind, other.flags, other.parentContext, currentScope,
        other.startOffset, other.endOffset, other.prevOffset));
    }
  }

  /** The state `restore` installs: `other` with the scope replaced. */
  function Restored(other: DelayedDeclState, scope: SavedScope): (r: DelayedDeclState)
    ensures r.kind == other.kind && r.flags == other.flags && r.parentContext == other.parentContext
    ensures r.startOffset == other.startOffset && r.endOffset == other.endOffset
    ensures r.prevOffset == other.prevOffset && r.scope == scope
  {
    other.(scope := scope)
  }

  /** The offsets `set` stores locate the body range and the previous
      location again, for buffers shorter than `~0U` bytes. */
  lemma StoredOffsetsLocateRange(sm: SourceManager, bufferID: BufferId, bodyRange: SourceRange, previousLoc: SourceLoc)
    requires InBuffer(sm, bufferID, bodyRange.start) && InBuffer(sm, bufferID, bodyRange.end)
    requires previousLoc.Loc? ==> InBuffer(sm, bufferID, previousLoc)
    requires sm[bufferID].length < NoPreviousOffset
    ensures sm[bufferID].start + LocOffsetInBuffer(sm, bufferID, bodyRange.start) == bodyRange.start.pos
    ensures sm[bufferID].start + LocOffsetInBuffer(sm, bufferID, bodyRange.end) == bodyRange.end.pos
    ensures PrevOffset(sm, bufferID, previousLoc) != NoPreviousOffset ==>
              previousLoc.Loc? && sm[bufferID].start + PrevOffset(sm, bufferID, previousLoc) == previousLoc.pos
  {
    PrevOffsetSentinel(sm, bufferID, previousLoc);
  }
}
