/** Unix path handling as Rust's `std::path` does it: `PathBuf::push`/`Path::join`,
    `Path::file_name` and `Path::extension`. Paths are strings; the separator is '/'. */
module Paths {
  import opened Wrappers
  import opened Strings

  predicate IsAbsolute(p: string) {
    |p| > 0 && p[0] == '/'
  }

  /** `base.join(rel)` (equivalently `base.push(rel)`): an absolute `rel` replaces `base`;
      otherwise a separator is inserted unless `base` is empty or already ends with one. */
  function Join(base: string, rel: string): string {
    if IsAbsolute(rel) then rel
    else if |base| > 0 && base[|base| - 1] != '/' then base + "/" + rel
    else base + rel
  }

  /** The joined path ends with `rel`; a relative `rel` comes after `base` and at most one
      inserted separator, and there is a separator between them unless `base` is empty. */
  lemma JoinProperties(base: string, rel: string)
    ensures IsAbsolute(rel) ==> Join(base, rel) == rel
    ensures EndsWith(Join(base, rel), rel)
    ensures !IsAbsolute(rel) ==>
      var r := Join(base, rel);
      StartsWith(r, base) && |base| <= |r| - |rel| <= |base| + 1
    ensures !IsAbsolute(rel) && base != [] ==> Join(base, rel)[|Join(base, rel)| - |rel| - 1] == '/'
  {
  }

  /** Index of the last occurrence of `c` in `s`, or -1. */
  function LastIndexOf(s: string, c: char): (k: int)
    ensures -1 <= k < |s|
    ensures k >= 0 ==> s[k] == c
    ensures forall j :: k < j < |s| ==> s[j] != c
  {
    if s == [] then -1
    else if s[|s| - 1] == c then |s| - 1
    else LastIndexOf(s[..|s| - 1], c)
  }

  /** The path without its trailing separators. */
  function TrimTrailingSeparators(p: string): (q: string)
    ensures StartsWith(p, q)
    ensures q == [] || q[|q| - 1] != '/'
    ensures forall j :: |q| <= j < |p| ==> p[j] == '/'
  {
    if p != [] && p[|p| - 1] == '/' then TrimTrailingSeparators(p[..|p| - 1]) else p
  }

  /** `Path::file_name`: the last component when it is a normal one. Trailing and repeated
      separators are ignored, and so is a "." component that is not the first. */
  function FileName(p: string): (r: Option<string>)
    ensures r.Some? ==> r.value != [] && r.value != "." && r.value != ".."
    ensures r.Some? ==> forall j :: 0 <= j < |r.value| ==> r.value[j] != '/'
    decreases |p|
  {
    var q := TrimTrailingSeparators(p);
    if q == [] then None
    else
      var k := LastIndexOf(q, '/');
      var segment := q[k + 1..];
      if segment == ".." then None
      else if segment == "." then (if k < 0 then None else FileName(q[..k]))
      else Some(segment)
  }

  /** `Path::extension`: what follows the last '.' of the file name, unless the name has
      no '.', or its only '.' is the first character (a hidden file such as ".mp3"). */
  function Extension(p: string): (r: Option<string>)
    ensures r.Some? ==> FileName(p).Some? && EndsWith(FileName(p).value, "." + r.value)
    ensures r.Some? ==> forall j :: 0 <= j < |r.value| ==> r.value[j] != '.'
  {
    match FileName(p)
    case None => None
    case Some(name) =>
      var k := LastIndexOf(name, '.');
      if k <= 0 then None else Some(name[k + 1..])
  }

  lemma LastIndexAt(s: string, c: char, k: nat)
    requires k < |s| && s[k] == c
    requires forall j :: k < j < |s| ==> s[j] != c
    ensures LastIndexOf(s, c) == k
  {
  }

  /** A name after a directory part that ends with a separator, or after no directory part
      at all, is the file name of the whole path. */
  lemma FileNameAfterDirectory(dir: string, name: string)
    requires dir == [] || dir[|dir| - 1] == '/'
    requires name != [] && name != "." && name != ".."
    requires forall j :: 0 <= j < |name| ==> name[j] != '/'
    ensures FileName(dir + name) == Some(name)
  {
    var p := dir + name;
    assert p[|p| - 1] == name[|name| - 1];
    assert TrimTrailingSeparators(p) == p;
    assert forall j :: |dir| <= j < |p| ==> p[j] == name[j - |dir|];
    if dir == [] {
      assert p == name;
      PlainFileName(name);
    } else {
      LastIndexAt(p, '/', |dir| - 1);
      assert p[|dir|..] == name;
    }
  }

  /** `folder.join(name)` for a plain name has that name as its file name, whatever the
      folder. */
  lemma FileNameOfJoin(folder: string, name: string)
    requires name != [] && name != "." && name != ".."
    requires forall j :: 0 <= j < |name| ==> name[j] != '/'
    ensures FileName(Join(folder, name)) == Some(name)
  {
    assert !IsAbsolute(name);
    if |folder| > 0 && folder[|folder| - 1] != '/' {
      assert Join(folder, name) == (folder + "/") + name;
      FileNameAfterDirectory(folder + "/", name);
    } else {
      FileNameAfterDirectory(folder, name);
    }
  }

  /** The extension is read off the file name alone. */
  lemma SameFileNameSameExtension(p: string, q: string)
    requires FileName(p) == FileName(q)
    ensures Extension(p) == Extension(q)
  {
  }

  /** So `folder.join(name)` has the name's own extension. */
  lemma ExtensionOfJoin(folder: string, name: string)
    requires name != [] && name != "." && name != ".."
    requires forall j :: 0 <= j < |name| ==> name[j] != '/'
    ensures FileName(Join(folder, name)) == Some(name)
    ensures Extension(Join(folder, name)) == Extension(name)
  {
    PlainFileName(name);
    FileNameOfJoin(folder, name);
    SameFileNameSameExtension(Join(folder, name), name);
  }

  /** A file name taken on its own, with no separator in it and not "." or "..", is its own
      file name, and its extension is the part after its last dot. */
  lemma PlainFileName(name: string)
    requires name != [] && name != "." && name != ".."
    requires forall j :: 0 <= j < |name| ==> name[j] != '/'
    ensures FileName(name) == Some(name)
  {
    assert TrimTrailingSeparators(name) == name;
    assert LastIndexOf(name, '/') == -1;
    assert name[0..] == name;
  }

  /** The extension read off a known file name and the position of its last dot. */
  lemma ExtensionOfName(p: string, name: string, k: int)
    requires FileName(p) == Some(name) && LastIndexOf(name, '.') == k
    ensures k <= 0 ==> Extension(p) == None
    ensures k > 0 ==> Extension(p) == Some(name[k + 1..])
  {
  }
}
