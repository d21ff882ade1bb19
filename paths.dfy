/** Path manipulation as Rust's `std::path` does it, on '/'-separated strings. */
module Paths {
  import opened Common
  import opened Strings

  const Separator: char := '/'

  /** `PathBuf::join` of a relative file name. */
  function Join(dir: string, name: string): string {
    dir + [Separator] + name
  }

  /** `Path::file_name`: the last component. */
  function FileName(path: string): (name: string)
    ensures Separator !in name
    ensures |name| <= |path| && path[|path| - |name|..] == name
    ensures |name| < |path| ==> path[|path| - |name| - 1] == Separator
  {
    match LastIndexOf(path, Separator)
    case None => path
    case Some(i) => path[i + 1..]
  }

  /** The name after a directory prefix (empty, or ending in a separator) is the file name. */
  lemma FileNameAfterDir(dir: string, name: string)
    requires dir == [] || dir[|dir| - 1] == Separator
    requires Separator !in name
    ensures FileName(dir + name) == name
  {
    if dir != [] {
      var d := dir[..|dir| - 1];
      assert dir + name == d + [Separator] + name;
      LastIndexOfAfter(d, Separator, name);
      assert (d + [Separator] + name)[|d| + 1..] == name;
    } else {
      assert dir + name == name;
    }
  }

  lemma FileNameOfJoin(dir: string, name: string)
    requires Separator !in name
    ensures FileName(Join(dir, name)) == name
  {
    FileNameAfterDir(dir + [Separator], name);
  }

  /** `Path::extension`: the text after the last '.', unless that '.' starts the name. */
  function Extension(name: string): (e: Option<string>)
    ensures e.Some? ==> '.' !in e.value && |e.value| < |name|
    ensures e.Some? ==> name == FileStem(name) + "." + e.value
  {
    if name == ".." then None
    else match LastIndexOf(name, '.')
      case None => None
      case Some(i) =>
        if i == 0 then None
        else
          assert name == name[..i] + "." + name[i + 1..];
          Some(name[i + 1..])
  }

  /** `Path::file_stem`: the name without its extension. */
  function FileStem(name: string): (stem: string)
    ensures stem <= name
  {
    match LastIndexOf(name, '.')
    case None => name
    case Some(i) => if i == 0 || name == ".." then name else name[..i]
  }

  /** `Path::with_extension` for a non-empty extension. */
  function WithExtension(path: string, ext: string): (r: string)
    requires ext != ""
  {
    var name := FileName(path);
    path[..|path| - |name|] + (FileStem(name) + "." + ext)
  }

  lemma FileNameOfWithExtension(path: string, ext: string)
    requires ext != "" && Separator !in ext
    ensures FileName(WithExtension(path, ext)) == FileStem(FileName(path)) + "." + ext
  {
    var name := FileName(path);
    var dir := path[..|path| - |name|];
    StemOfFileName(name);
    DirOfFileName(path);
    FileNameAfterDir(dir, FileStem(name) + "." + ext);
  }

  lemma StemOfFileName(name: string)
    requires Separator !in name
    ensures Separator !in FileStem(name)
  {
    var stem := FileStem(name);
    assert forall k :: 0 <= k < |stem| ==> stem[k] == name[k];
  }

  /** What precedes the file name is empty or ends in a separator. */
  lemma DirOfFileName(path: string)
    ensures var dir := path[..|path| - |FileName(path)|];
            dir == [] || dir[|dir| - 1] == Separator
  {
  }

  /** Adding an extension to an executable's path never names the executable itself. */
  lemma WithExtensionDiffers(path: string, ext: string)
    requires ext != "" && Separator !in ext && '.' in ext
    ensures FileName(WithExtension(path, ext)) != FileName(path)
    ensures WithExtension(path, ext) != path
  {
    FileNameOfWithExtension(path, ext);
    RenamedDiffers(FileName(path), ext);
  }

  /** A name with a new extension containing a '.' is never the name it came from. */
  lemma RenamedDiffers(name: string, ext: string)
    requires ext != "" && '.' in ext
    ensures FileStem(name) + "." + ext != name
  {
    var stem := FileStem(name);
    var renamed := stem + "." + ext;
    match Extension(name)
    case None =>
      assert stem == name by {
        match LastIndexOf(name, '.')
        case None =>
        case Some(i) =>
      }
      assert |renamed| > |name|;
    case Some(x) =>
      assert renamed[|stem| + 1..] == ext;
      assert name[|stem| + 1..] == x;
  }
}
