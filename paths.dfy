/** The part of LLVM's path library the sidecar lookup relies on, over
    '/'-separated paths: the file-name component, the directory part in front
    of it, and extension replacement. */
module Paths {
  import opened FrontendTypes

  const Separator: char := '/'

  /** The path up to and including its last separator ("" when there is none). */
  function DirPrefix(p: string): string
  {
    if p == [] then []
    else if p[|p| - 1] == Separator then p
    else DirPrefix(p[..|p| - 1])
  }

  /** The last component of the path: everything after the last separator. */
  function FileName(p: string): string
  {
    if p == [] then []
    else if p[|p| - 1] == Separator then []
    else FileName(p[..|p| - 1]) + [p[|p| - 1]]
  }

  /** A path is its directory part followed by its file name, and the file
      name holds no separator. */
  lemma {:induction false} PathSplits(p: string)
    ensures DirPrefix(p) + FileName(p) == p
    ensures Separator !in FileName(p)
    ensures DirPrefix(p) == [] || DirPrefix(p)[|DirPrefix(p)| - 1] == Separator
  {
    if p != [] && p[|p| - 1] != Separator {
      var init := p[..|p| - 1];
      PathSplits(init);
      assert DirPrefix(init) + FileName(init) + [p[|p| - 1]] == p;
    }
  }

  /** Appending separator-free text extends the file name and keeps the
      directory part. */
  lemma {:induction false} AppendToFileName(a: string, b: string)
    requires Separator !in b
    ensures DirPrefix(a + b) == DirPrefix(a)
    ensures FileName(a + b) == FileName(a) + b
  {
    if b != [] {
      var init := b[..|b| - 1];
      assert (a + b)[..|a + b| - 1] == a + init;
      assert (a + b)[|a + b| - 1] == b[|b| - 1];
      AppendToFileName(a, init);
      assert init + [b[|b| - 1]] == b;
    } else {
      assert a + b == a;
    }
  }

  /** A path that is empty or ends in a separator is its own directory part
      and has an empty file name. */
  lemma DirectoryPath(d: string)
    requires d == [] || d[|d| - 1] == Separator
    ensures DirPrefix(d) == d && FileName(d) == []
  {
  }

  /** Index of the last '.' in `name`, if any. */
  function LastDot(name: string): (r: Option<nat>)
    ensures r.Some? ==> r.value < |name| && name[r.value] == '.'
    ensures r.Some? ==> forall k :: r.value < k < |name| ==> name[k] != '.'
    ensures r.None? ==> forall k :: 0 <= k < |name| ==> name[k] != '.'
  {
    if name == [] then None
    else if name[|name| - 1] == '.' then Some(|name| - 1)
    else LastDot(name[..|name| - 1])
  }

  /** The file name without its extension: everything before its last '.',
      or all of it when it has no '.'. */
  function Stem(name: string): (r: string)
    ensures |r| <= |name| && r == name[..|r|]
  {
    match LastDot(name)
    case None => name
    case Some(k) => name[..k]
  }

  /** What replace_extension appends after the stem: `ext`, with a '.' in
      front unless it already starts with one. */
  function ExtensionSuffix(ext: string): string
  {
    (if |ext| > 0 && ext[0] != '.' then "." else "") + ext
  }

  /** replace_extension: the extension of the file name is dropped and the
      new one appended. */
  function ReplaceExtension(p: string, ext: string): string
  {
    DirPrefix(p) + Stem(FileName(p)) + ExtensionSuffix(ext)
  }

  /** A separator-free name placed in a directory is that path's file name. */
  lemma NameInDirectory(p: string, name: string)
    requires Separator !in name
    ensures DirPrefix(DirPrefix(p) + name) == DirPrefix(p)
    ensures FileName(DirPrefix(p) + name) == name
  {
    PathSplits(p);
    DirectoryPath(DirPrefix(p));
    AppendToFileName(DirPrefix(p), name);
  }

  /** The stem of a file name holds no separator. */
  lemma StemHasNoSeparator(p: string)
    ensures Separator !in Stem(FileName(p))
  {
    PathSplits(p);
    var stem := Stem(FileName(p));
    forall k | 0 <= k < |stem| ensures stem[k] != Separator {
      assert stem[k] == FileName(p)[k];
    }
  }

  lemma SuffixHasNoSeparator(ext: string)
    requires Separator !in ext
    ensures Separator !in ExtensionSuffix(ext)
  {
    if |ext| > 0 && ext[0] != '.' {
      assert ExtensionSuffix(ext) == ['.'] + ext;
    } else {
      assert ExtensionSuffix(ext) == ext;
    }
  }

  /** Replacing the extension keeps the directory and changes only the file
      name, which becomes the stem followed by the new extension. */
  lemma ReplaceExtensionKeepsDirectory(p: string, ext: string)
    requires Separator !in ext
    ensures DirPrefix(ReplaceExtension(p, ext)) == DirPrefix(p)
    ensures FileName(ReplaceExtension(p, ext)) == Stem(FileName(p)) + ExtensionSuffix(ext)
  {
    var stem, suffix := Stem(FileName(p)), ExtensionSuffix(ext);
    StemHasNoSeparator(p);
    SuffixHasNoSeparator(ext);
    assert Separator !in stem + suffix;
    assert ReplaceExtension(p, ext) == DirPrefix(p) + (stem + suffix);
    NameInDirectory(p, stem + suffix);
  }
}
