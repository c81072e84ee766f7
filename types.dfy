/** Values shared by the frontend model: optional and fallible results, the
    input kinds, the file-system capability and the diagnostics the frontend
    raises. */
module FrontendTypes {

  datatype Option<+T> = None | Some(value: T)

  datatype Result<+T, +E> = Ok(value: T) | Err(error: E)

  /** Raw file contents. */
  type Bytes = seq<bv8>

  /** A source-manager buffer identifier. */
  type BufferId = nat

  /** The global kind of the frontend's inputs (InputFileKind). */
  datatype InputFileKind =
    | NoInputKind
    | Swift
    | SwiftLibrary
    | SwiftREPL
    | SwiftModuleInterface
    | SIL
    | LLVM

  /** The error codes the model distinguishes when a file cannot be read. */
  datatype IOError = NoSuchFileOrDirectory | PermissionDenied | IsADirectory | OtherIOError

  /** What reading one path yields. */
  datatype FileEntry = Readable(contents: Bytes) | Unreadable(error: IOError)

  /** The file system as seen through the source manager: a path that is not
      a key does not exist. */
  type FileSystem = map<string, FileEntry>

  function ReadFile(fs: FileSystem, path: string): FileEntry
  {
    if path in fs then fs[path] else Unreadable(NoSuchFileOrDirectory)
  }

  /** The diagnostics this core raises; every one of them is an error. */
  datatype Diag =
    | CannotOpenFile(path: string, error: IOError)
    | InvalidVfsOverlayFile(path: string)
    | UnknownForcedModuleLoadingMode(value: string)
    | ClangImporterCreateFail
    | ErrorOpenInputFile(path: string, error: IOError)
    | StdlibNotFound
    | ErrorDoingCodeCompletion
}
