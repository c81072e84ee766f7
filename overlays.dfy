/** Virtual-file-system overlays: every listed overlay description is loaded
    through the base file system, and the overlay file system replaces the
    source manager's file system only when there was at least one overlay and
    none of them failed. The YAML format of an overlay is abstracted by the
    predicate `isValidOverlay`. */
module Overlays {
  import opened FrontendTypes

  /** The file system the source manager reads through: the real one, or an
      overlay file system stacked on a base with the listed overlay files
      pushed in order. */
  datatype FileSystemView = RealFileSystem | Overlaid(base: FileSystemView, layers: seq<string>)

  /** loadAndValidateVFSOverlay for one overlay file: None when the file was
      read and parsed as an overlay, otherwise the one diagnostic it raises. */
  function OverlayLoad(fs: FileSystem, isValidOverlay: Bytes -> bool, file: string): (r: Option<Diag>)
    ensures r == None <==> ReadFile(fs, file).Readable? && isValidOverlay(ReadFile(fs, file).contents)
    ensures r.Some? && ReadFile(fs, file).Unreadable? ==> r.value == CannotOpenFile(file, ReadFile(fs, file).error)
    ensures r.Some? && ReadFile(fs, file).Readable? ==> r.value == InvalidVfsOverlayFile(file)
  {
    match ReadFile(fs, file)
    case Unreadable(e) => Some(CannotOpenFile(file, e))
    case Readable(c) => if isValidOverlay(c) then None else Some(InvalidVfsOverlayFile(file))
  }

  predicate OverlayFails(fs: FileSystem, isValidOverlay: Bytes -> bool, file: string)
  {
    OverlayLoad(fs, isValidOverlay, file).Some?
  }

  /** The diagnostics raised while loading `files` in order. */
  function OverlayDiags(fs: FileSystem, isValidOverlay: Bytes -> bool, files: seq<string>): seq<Diag>
  {
    if files == [] then []
    else
      var last := files[|files| - 1];
      OverlayDiags(fs, isValidOverlay, files[..|files| - 1])
        + (if OverlayFails(fs, isValidOverlay, last) then [OverlayLoad(fs, isValidOverlay, last).value] else [])
  }

  /** The overlay files that were pushed onto the overlay file system, in order. */
  function LoadedOverlays(fs: FileSystem, isValidOverlay: Bytes -> bool, files: seq<string>): seq<string>
  {
    if files == [] then []
    else
      var last := files[|files| - 1];
      LoadedOverlays(fs, isValidOverlay, files[..|files| - 1])
        + (if OverlayFails(fs, isValidOverlay, last) then [] else [last])
  }

  /** The overlay files that failed, in order. */
  function FailedOverlays(fs: FileSystem, isValidOverlay: Bytes -> bool, files: seq<string>): seq<string>
  {
    if files == [] then []
    else
      var last := files[|files| - 1];
      FailedOverlays(fs, isValidOverlay, files[..|files| - 1])
        + (if OverlayFails(fs, isValidOverlay, last) then [last] else [])
  }

  /** Each failing overlay raises exactly one diagnostic and each diagnostic
      comes from a failing overlay. */
  lemma {:induction false} OneDiagnosticPerFailedOverlay(fs: FileSystem, isValidOverlay: Bytes -> bool, files: seq<string>)
    ensures |OverlayDiags(fs, isValidOverlay, files)| == |FailedOverlays(fs, isValidOverlay, files)|
    ensures OverlayDiags(fs, isValidOverlay, files) == []
            <==> forall i :: 0 <= i < |files| ==> !OverlayFails(fs, isValidOverlay, files[i])
  {
    if files != [] {
      var init := files[..|files| - 1];
      OneDiagnosticPerFailedOverlay(fs, isValidOverlay, init);
      forall i | 0 <= i < |init| ensures init[i] == files[i] { }
    }
  }

  /** An overlay that fails is diagnosed even when an earlier one failed too:
      every listed overlay is attempted. */
  lemma {:induction false} EveryFailedOverlayDiagnosed(fs: FileSystem, isValidOverlay: Bytes -> bool, files: seq<string>, i: nat)
    requires i < |files| && OverlayFails(fs, isValidOverlay, files[i])
    ensures OverlayLoad(fs, isValidOverlay, files[i]).value in OverlayDiags(fs, isValidOverlay, files)
  {
    var init := files[..|files| - 1];
    if i < |files| - 1 {
      assert init[i] == files[i];
      EveryFailedOverlayDiagnosed(fs, isValidOverlay, init, i);
    }
  }

  /** When no overlay fails, every listed overlay is pushed, in order; an
      overlay that fails is never pushed. */
  lemma {:induction false} LoadedOverlaysAreTheSucceedingOnes(fs: FileSystem, isValidOverlay: Bytes -> bool, files: seq<string>)
    ensures (forall i :: 0 <= i < |files| ==> !OverlayFails(fs, isValidOverlay, files[i]))
            ==> LoadedOverlays(fs, isValidOverlay, files) == files
    ensures forall f :: f in LoadedOverlays(fs, isValidOverlay, files) ==> f in files && !OverlayFails(fs, isValidOverlay, f)
  {
    if files != [] {
      var init := files[..|files| - 1];
      LoadedOverlaysAreTheSucceedingOnes(fs, isValidOverlay, init);
      assert init + [files[|files| - 1]] == files;
    }
  }

  /** The source manager's file-system state, as setUpVirtualFileSystemOverlays
      updates it. */
  class OverlaySetup {
    var fileSystem: FileSystemView
    var diags: seq<Diag>

    constructor (base: FileSystemView)
      ensures fileSystem == base && diags == []
    {
      fileSystem := base;
      diags := [];
    }

    /** Loads every overlay in `overlayFiles`, reporting whether any failed;
        installs the overlay file system only when all of them loaded and
        there was at least one. */
    method SetUpVirtualFileSystemOverlays(overlayFiles: seq<string>, fs: FileSystem, isValidOverlay: Bytes -> bool)
      returns (hadAnyFailure: bool)
      modifies this
      ensures hadAnyFailure <==> exists i :: 0 <= i < |overlayFiles| && OverlayFails(fs, isValidOverlay, overlayFiles[i])
      ensures diags == old(diags) + OverlayDiags(fs, isValidOverlay, overlayFiles)
      ensures fileSystem == if !hadAnyFailure && |overlayFiles| > 0 then Overlaid(old(fileSystem), overlayFiles)
                            else old(fileSystem)
    {
      var pushed: seq<string> := [];
      hadAnyFailure := false;
      var hasOverlays := false;
      var i := 0;
      while i < |overlayFiles|
        invariant 0 <= i <= |overlayFiles|
        invariant hasOverlays <==> i > 0
        invariant hadAnyFailure <==> exists j :: 0 <= j < i && OverlayFails(fs, isValidOverlay, overlayFiles[j])
        invariant diags == old(diags) + OverlayDiags(fs, isValidOverlay, overlayFiles[..i])
        invariant pushed == LoadedOverlays(fs, isValidOverlay, overlayFiles[..i])
        invariant fileSystem == old(fileSystem)
      {
        var file := overlayFiles[i];
        assert overlayFiles[..i + 1][..i] == overlayFiles[..i];
        hasOverlays := true;
        var failure := OverlayLoad(fs, isValidOverlay, file);
        if failure.Some? {
          diags := diags + [failure.value];
          hadAnyFailure := true;
        } else {
          pushed := pushed + [file];
        }
        i := i + 1;
      }
      assert overlayFiles[..i] == overlayFiles;
      if !hadAnyFailure && hasOverlays {
        LoadedOverlaysAreTheSucceedingOnes(fs, isValidOverlay, overlayFiles);
        fileSystem := Overlaid(fileSystem, pushed);
      }
    }
  }
}
