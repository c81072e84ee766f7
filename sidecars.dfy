/** Opening an input and the companion files of a serialized module: the
    .swiftdoc file next to it, and the .swiftsourceinfo file in the "Project"
    directory next to it or, failing that, next to it. */
module Sidecars {
  import opened FrontendTypes
  import opened Paths

  /** File-type extensions of the two companion files. */
  const SourceInfoExtension: string := "swiftsourceinfo"
  const DocExtension: string := "swiftdoc"

  /** The directory that holds project-only companion files. */
  const ProjectDirectory: string := "Project"

  /** The .swiftsourceinfo file next to the module file. */
  function SourceInfoPathWithoutProjectDir(file: string): string
  {
    ReplaceExtension(file, SourceInfoExtension)
  }

  /** The .swiftsourceinfo file in the Project directory next to the module file. */
  function SourceInfoPathWithProjectDir(file: string): string
  {
    var sibling := SourceInfoPathWithoutProjectDir(file);
    DirPrefix(sibling) + ProjectDirectory + [Separator] + FileName(sibling)
  }

  function DocPath(file: string): string
  {
    ReplaceExtension(file, DocExtension)
  }

  /** The suffixes the two companion files get after the module's stem. */
  lemma CompanionSuffixes()
    ensures ExtensionSuffix(SourceInfoExtension) == ".swiftsourceinfo"
    ensures ExtensionSuffix(DocExtension) == ".swiftdoc"
    ensures ProjectDirectory + [Separator] == "Project/"
  {
  }

  /** Both source-info candidates carry the module's stem with the
      .swiftsourceinfo extension; one sits in the module's directory, the other
      in its Project subdirectory, so they are different paths. */
  lemma SourceInfoCandidates(file: string)
    ensures DirPrefix(SourceInfoPathWithoutProjectDir(file)) == DirPrefix(file)
    ensures FileName(SourceInfoPathWithoutProjectDir(file)) == Stem(FileName(file)) + ".swiftsourceinfo"
    ensures DirPrefix(SourceInfoPathWithProjectDir(file)) == DirPrefix(file) + "Project/"
    ensures FileName(SourceInfoPathWithProjectDir(file)) == Stem(FileName(file)) + ".swiftsourceinfo"
    ensures SourceInfoPathWithProjectDir(file) != SourceInfoPathWithoutProjectDir(file)
  {
    CompanionSuffixes();
    var sibling := SourceInfoPathWithoutProjectDir(file);
    ReplaceExtensionKeepsDirectory(file, SourceInfoExtension);
    ProjectSubdirectory(sibling);
  }

  /** Placing a path's file name in the Project subdirectory of its directory. */
  lemma ProjectSubdirectory(p: string)
    ensures var moved := DirPrefix(p) + ProjectDirectory + [Separator] + FileName(p);
            && DirPrefix(moved) == DirPrefix(p) + ProjectDirectory + [Separator]
            && FileName(moved) == FileName(p)
            && |moved| == |p| + |ProjectDirectory| + 1
  {
    PathSplits(p);
    var dir := DirPrefix(p) + ProjectDirectory + [Separator];
    DirectoryPath(dir);
    AppendToFileName(dir, FileName(p));
  }

  /** The .swiftdoc file sits next to the module file, with the module's stem. */
  lemma DocCandidate(file: string)
    ensures DirPrefix(DocPath(file)) == DirPrefix(file)
    ensures FileName(DocPath(file)) == Stem(FileName(file)) + ".swiftdoc"
  {
    CompanionSuffixes();
    ReplaceExtensionKeepsDirectory(file, DocExtension);
  }

  /** openModuleSourceInfo: the contents of the first candidate that opens,
      the Project directory first; None when neither opens. */
  function OpenModuleSourceInfo(fs: FileSystem, file: string): (r: Option<Bytes>)
    ensures ReadFile(fs, SourceInfoPathWithProjectDir(file)).Readable?
            ==> r == Some(ReadFile(fs, SourceInfoPathWithProjectDir(file)).contents)
    ensures ReadFile(fs, SourceInfoPathWithProjectDir(file)).Unreadable?
            && ReadFile(fs, SourceInfoPathWithoutProjectDir(file)).Readable?
            ==> r == Some(ReadFile(fs, SourceInfoPathWithoutProjectDir(file)).contents)
    ensures r.None? <==> ReadFile(fs, SourceInfoPathWithProjectDir(file)).Unreadable?
                         && ReadFile(fs, SourceInfoPathWithoutProjectDir(file)).Unreadable?
  {
    match ReadFile(fs, SourceInfoPathWithProjectDir(file))
    case Readable(c) => Some(c)
    case Unreadable(_) =>
      match ReadFile(fs, SourceInfoPathWithoutProjectDir(file))
      case Readable(c) => Some(c)
      case Unreadable(_) => None
  }

  /** openModuleDoc: Ok(Some(contents)) when the .swiftdoc file opens, Ok(None)
      (an empty buffer, not an error) when it does not exist, and the
      diagnostic for any other open error. */
  function OpenModuleDoc(fs: FileSystem, file: string): (r: Result<Option<Bytes>, Diag>)
    ensures r == Ok(None) <==> ReadFile(fs, DocPath(file)) == Unreadable(NoSuchFileOrDirectory)
    ensures r.Ok? && r.value.Some? <==> ReadFile(fs, DocPath(file)).Readable?
    ensures r.Ok? && r.value.Some? ==> r.value.value == ReadFile(fs, DocPath(file)).contents
    ensures r.Err? ==> ReadFile(fs, DocPath(file)).Unreadable?
                       && ReadFile(fs, DocPath(file)).error != NoSuchFileOrDirectory
                       && r.error == ErrorOpenInputFile(DocPath(file), ReadFile(fs, DocPath(file)).error)
  {
    match ReadFile(fs, DocPath(file))
    case Readable(c) => Ok(Some(c))
    case Unreadable(e) =>
      if e == NoSuchFileOrDirectory then Ok(None)
      else Err(ErrorOpenInputFile(DocPath(file), e))
  }

  /** A source buffer: its identifier (the path it was read from, for a file)
      and its contents. */
  datatype MemoryBuffer = MemoryBuffer(identifier: string, contents: Bytes)

  /** One frontend input: a path, optionally with its contents already in
      memory, and whether it is a primary input. */
  datatype InputFile = InputFile(file: string, buffer: Option<MemoryBuffer>, isPrimary: bool)

  /** The module buffer of an input and, for a serialized module read from
      disk, its companion buffers. */
  datatype ModuleBuffers = ModuleBuffers(
    moduleBuffer: MemoryBuffer,
    moduleDocBuffer: Option<Bytes>,
    moduleSourceInfoBuffer: Option<Bytes>)

  /** The buffers found for an input (None on a read failure) and the
      diagnostics raised on the way. */
  datatype BufferLookup = BufferLookup(buffers: Option<ModuleBuffers>, diags: seq<Diag>)

  /** getInputBuffersIfPresent: an in-memory input is copied as it is; a path
      is read, and a serialized module read from disk also gets its .swiftdoc
      and .swiftsourceinfo companions (the documentation looked up first). A
      .swiftdoc file that exists but cannot be opened raises its diagnostic
      and the module is still returned, without documentation. */
  function GetInputBuffersIfPresent(fs: FileSystem, isSerializedAST: Bytes -> bool, input: InputFile): (r: BufferLookup)
    ensures input.buffer.Some? ==> r == BufferLookup(Some(ModuleBuffers(input.buffer.value, None, None)), [])
    ensures r.buffers.None? <==> input.buffer.None? && ReadFile(fs, input.file).Unreadable?
    ensures r.buffers.None? ==> r.diags == [ErrorOpenInputFile(input.file, ReadFile(fs, input.file).error)]
    ensures r.buffers.Some? && input.buffer.None?
            ==> r.buffers.value.moduleBuffer == MemoryBuffer(input.file, ReadFile(fs, input.file).contents)
    ensures r.buffers.Some? && !isSerializedAST(r.buffers.value.moduleBuffer.contents)
            ==> r.buffers.value.moduleDocBuffer.None? && r.buffers.value.moduleSourceInfoBuffer.None? && r.diags == []
    ensures r.buffers.Some? && input.buffer.None? && isSerializedAST(r.buffers.value.moduleBuffer.contents)
            ==> r.buffers.value.moduleSourceInfoBuffer == OpenModuleSourceInfo(fs, input.file)
                && (r.buffers.value.moduleDocBuffer.Some? <==> ReadFile(fs, DocPath(input.file)).Readable?)
                && (r.buffers.value.moduleDocBuffer.Some?
                    ==> r.buffers.value.moduleDocBuffer.value == ReadFile(fs, DocPath(input.file)).contents)
                && r.diags == (var doc := ReadFile(fs, DocPath(input.file));
                               if doc.Unreadable? && doc.error != NoSuchFileOrDirectory
                               then [ErrorOpenInputFile(DocPath(input.file), doc.error)] else [])
  {
    if input.buffer.Some? then
      BufferLookup(Some(ModuleBuffers(input.buffer.value, None, None)), [])
    else
      match ReadFile(fs, input.file)
      case Unreadable(e) => BufferLookup(None, [ErrorOpenInputFile(input.file, e)])
      case Readable(c) =>
        var moduleBuffer := MemoryBuffer(input.file, c);
        if !isSerializedAST(c) then BufferLookup(Some(ModuleBuffers(moduleBuffer, None, None)), [])
        else
          var doc := OpenModuleDoc(fs, input.file);
          var sourceInfo := OpenModuleSourceInfo(fs, input.file);
          BufferLookup(
            Some(ModuleBuffers(moduleBuffer, if doc.Ok? then doc.value else None, sourceInfo)),
            if doc.Err? then [doc.error] else [])
  }
}
