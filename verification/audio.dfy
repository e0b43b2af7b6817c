/** src/services/audio.rs: which files count as audio, the per-folder sorted listing of
    them, and the folder list updates. Directory contents are a map from folder path to the
    entries `read_dir` yields; a folder missing from the map is one `read_dir` fails on. */
module Audio {
  import opened Wrappers
  import opened Strings
  import opened Paths
  import opened AppConfig

  const AudioExtensions: set<string> := {"mp3", "wav", "ogg", "flac", "m4a", "aac"}

  /** `is_audio_file`: the extension, lower-cased, is one of the six audio extensions. */
  predicate IsAudioFile(path: string) {
    match Extension(path)
    case None => false
    case Some(e) => AsciiLower(e) in AudioExtensions
  }

  // ---------------------------------------------------------------------------------------
  // Extensions of plain file names

  predicate NoSeparatorOrDot(s: string) {
    forall i :: 0 <= i < |s| ==> s[i] != '/' && s[i] != '.'
  }

  predicate NoSeparator(s: string) {
    forall i :: 0 <= i < |s| ==> s[i] != '/'
  }

  /** `base.ext` is a plain name: not empty, not "." or "..", and with no separator. */
  lemma NameWithExtensionIsPlain(base: string, ext: string)
    requires base != [] && NoSeparator(base)
    requires ext != [] && NoSeparatorOrDot(ext)
    ensures var name := base + "." + ext;
      name != [] && name != "." && name != ".." && NoSeparator(name)
  {
    var front := base + ".";
    var name := front + ext;
    assert forall j :: 0 <= j < |base| ==> name[j] == base[j];
    assert forall j :: |front| <= j < |name| ==> name[j] == ext[j - |front|];
    assert name[|base|] == '.';
    assert |name| >= 3;
  }

  lemma DotThenNoDot(base: string, ext: string)
    requires NoSeparatorOrDot(ext)
    ensures (base + "." + ext)[|base|] == '.'
    ensures forall j :: |base| < j < |base + "." + ext| ==> (base + "." + ext)[j] != '.'
    ensures (base + "." + ext)[|base| + 1..] == ext
  {
    var front := base + ".";
    var name := front + ext;
    assert forall j :: |front| <= j < |name| ==> name[j] == ext[j - |front|];
    assert name[|front|..] == ext;
  }

  lemma NameWithExtensionLastDot(base: string, ext: string)
    requires NoSeparatorOrDot(ext)
    ensures LastIndexOf(base + "." + ext, '.') == |base|
  {
    DotThenNoDot(base, ext);
    LastIndexAt(base + "." + ext, '.', |base|);
  }

  /** `base.ext` has the extension `ext`; `base` may hold dots of its own, as in
      "01.intro.mp3". */
  lemma NameWithExtension(base: string, ext: string)
    requires base != [] && NoSeparator(base)
    requires ext != [] && NoSeparatorOrDot(ext)
    ensures Extension(base + "." + ext) == Some(ext)
  {
    var name := base + "." + ext;
    NameWithExtensionIsPlain(base, ext);
    PlainFileName(name);
    NameWithExtensionLastDot(base, ext);
    DotThenNoDot(base, ext);
    ExtensionOfName(name, name, |base|);
  }

  /** The path of the entry `base.ext` in `folder`, `folder.join(name)`, has the extension
      `ext`. */
  lemma PathExtension(folder: string, base: string, ext: string)
    requires base != [] && NoSeparator(base)
    requires ext != [] && NoSeparatorOrDot(ext)
    ensures Extension(Join(folder, base + "." + ext)) == Some(ext)
  {
    NameWithExtensionIsPlain(base, ext);
    ExtensionOfJoin(folder, base + "." + ext);
    NameWithExtension(base, ext);
  }

  /** The check ignores case: the entry `base.ext` of any folder is an audio file exactly
      when `ext` lower-cases to one of the six audio extensions. */
  lemma AudioFileByExtension(folder: string, base: string, ext: string)
    requires base != [] && NoSeparator(base)
    requires ext != [] && NoSeparatorOrDot(ext)
    ensures IsAudioFile(Join(folder, base + "." + ext)) <==> AsciiLower(ext) in AudioExtensions
  {
    PathExtension(folder, base, ext);
  }

  lemma LowerMp3()
    ensures AsciiLower("MP3") == "mp3"
  {
  }

  /** An entry named "x.MP3" is an audio file. */
  lemma UpperCaseMp3(folder: string, base: string)
    requires base != [] && NoSeparator(base)
    ensures IsAudioFile(Join(folder, base + "." + "MP3"))
  {
    AudioFileByExtension(folder, base, "MP3");
    LowerMp3();
  }

  /** A regular file `base.ext` is kept in its folder's listing exactly when `ext`
      lower-cases to one of the six audio extensions. */
  lemma KeptByExtension(folder: string, base: string, ext: string)
    requires base != [] && NoSeparator(base)
    requires ext != [] && NoSeparatorOrDot(ext)
    ensures Keeps(folder, Entry(base + "." + ext, Some(RegularFile))) <==> AsciiLower(ext) in AudioExtensions
  {
    AudioFileByExtension(folder, base, ext);
  }

  /** A name without a dot has no extension. */
  lemma NameWithoutDot(name: string)
    requires name != [] && NoSeparatorOrDot(name)
    ensures Extension(name) == None
  {
    assert name[0] != '.';
    assert name != "." && name != "..";
    PlainFileName(name);
    assert LastIndexOf(name, '.') == -1;
    ExtensionOfName(name, name, -1);
  }

  /** A hidden file such as ".mp3" has no extension. */
  lemma HiddenName(ext: string)
    requires ext != [] && NoSeparatorOrDot(ext)
    ensures Extension("." + ext) == None
  {
    var name := "." + ext;
    assert name != "." && name != ".." by {
      assert name[1] == ext[0];
    }
    assert forall j :: 0 <= j < |name| ==> name[j] != '/' by {
      forall j | 0 <= j < |name| ensures name[j] != '/' {
        if j > 0 { assert name[j] == ext[j - 1]; }
      }
    }
    PlainFileName(name);
    assert forall j :: 0 < j < |name| ==> name[j] == ext[j - 1];
    LastIndexAt(name, '.', 0);
    ExtensionOfName(name, name, 0);
  }

  /** An entry whose name has no dot, such as "song", is not an audio file. */
  lemma NoExtensionIsNotAudio(folder: string, name: string)
    requires name != [] && NoSeparatorOrDot(name)
    ensures !IsAudioFile(Join(folder, name))
  {
    assert name[0] != '.';
    assert name != "." && name != "..";
    ExtensionOfJoin(folder, name);
    NameWithoutDot(name);
  }

  /** An entry with a hidden name such as ".mp3" is not an audio file. */
  lemma HiddenFileIsNotAudio(folder: string, ext: string)
    requires ext != [] && NoSeparatorOrDot(ext)
    ensures !IsAudioFile(Join(folder, "." + ext))
  {
    var name := "." + ext;
    assert name != "." && name != ".." by {
      assert name[1] == ext[0];
    }
    assert forall j :: 0 < j < |name| ==> name[j] == ext[j - 1];
    ExtensionOfJoin(folder, name);
    HiddenName(ext);
  }

  // ---------------------------------------------------------------------------------------
  // Sorting names in `String` order

  predicate Sorted(s: seq<string>) {
    forall i, j :: 0 <= i < j < |s| ==> LexLe(s[i], s[j])
  }

  predicate AllAtLeast(s: seq<string>, m: string) {
    forall i :: 0 <= i < |s| ==> LexLe(m, s[i])
  }

  /** Put `x` before the first entry of `t` it is not above. */
  function InsertName(x: string, t: seq<string>): (r: seq<string>)
    ensures multiset(r) == multiset(t) + multiset{x}
  {
    if t == [] || LexLe(x, t[0]) then [x] + t
    else
      assert t == [t[0]] + t[1..];
      [t[0]] + InsertName(x, t[1..])
  }

  /** `Vec<String>::sort`. */
  function SortNames(s: seq<string>): (r: seq<string>)
    ensures multiset(r) == multiset(s)
  {
    if s == [] then []
    else
      assert s == [s[0]] + s[1..];
      InsertName(s[0], SortNames(s[1..]))
  }

  lemma {:induction false} InsertAllAtLeast(x: string, t: seq<string>, m: string)
    requires AllAtLeast(t, m) && LexLe(m, x)
    ensures AllAtLeast(InsertName(x, t), m)
  {
    if !(t == [] || LexLe(x, t[0])) {
      InsertAllAtLeast(x, t[1..], m);
    }
  }

  lemma {:induction false} InsertNameSorted(x: string, t: seq<string>)
    requires Sorted(t)
    ensures Sorted(InsertName(x, t))
  {
    if t == [] {
    } else if LexLe(x, t[0]) {
      forall j | 0 <= j < |t| ensures LexLe(x, t[j]) {
        if j > 0 { LexLeTransitive(x, t[0], t[j]); }
      }
    } else {
      LexLeTotal(x, t[0]);
      InsertNameSorted(x, t[1..]);
      assert AllAtLeast(t[1..], t[0]);
      InsertAllAtLeast(x, t[1..], t[0]);
    }
  }

  /** The sorted names are in ascending order. */
  lemma {:induction false} SortNamesSorted(s: seq<string>)
    ensures Sorted(SortNames(s))
  {
    if s != [] {
      SortNamesSorted(s[1..]);
      InsertNameSorted(s[0], SortNames(s[1..]));
    }
  }

  /** Two ascending orders of the same names are the same sequence, so the listing does not
      depend on how the library sorts. */
  lemma {:induction false} SortedUnique(a: seq<string>, b: seq<string>)
    requires Sorted(a) && Sorted(b) && multiset(a) == multiset(b)
    ensures a == b
    decreases |a|
  {
    if a != [] {
      assert |b| == |a| by {
        assert |multiset(a)| == |a| && |multiset(b)| == |b|;
      }
      assert a[0] in multiset(b);
      var k :| 0 <= k < |b| && b[k] == a[0];
      assert b[0] in multiset(a);
      var l :| 0 <= l < |a| && a[l] == b[0];
      assert k == 0 || LexLe(b[0], a[0]);
      assert l == 0 || LexLe(a[0], b[0]);
      if k != 0 && l != 0 {
        LexLeAntisymmetric(a[0], b[0]);
      }
      assert a[0] == b[0];
      assert a == [a[0]] + a[1..];
      assert b == [b[0]] + b[1..];
      assert multiset(a) == multiset{a[0]} + multiset(a[1..]);
      assert multiset(b) == multiset{b[0]} + multiset(b[1..]);
      assert multiset(a[1..]) == multiset(a) - multiset{a[0]};
      assert multiset(b[1..]) == multiset(b) - multiset{b[0]};
      forall i, j | 0 <= i < j < |a| - 1 ensures LexLe(a[1..][i], a[1..][j]) {
        assert a[1..][i] == a[i + 1] && a[1..][j] == a[j + 1];
      }
      forall i, j | 0 <= i < j < |b| - 1 ensures LexLe(b[1..][i], b[1..][j]) {
        assert b[1..][i] == b[i + 1] && b[1..][j] == b[j + 1];
      }
      SortedUnique(a[1..], b[1..]);
    }
  }

  // ---------------------------------------------------------------------------------------
  // list_audio_files

  datatype FileKind = RegularFile | OtherKind

  /** One item of a `read_dir` listing: an entry that could not be read, or a name with its
      file type (`None` when asking for the type failed). */
  datatype DirEntry = BrokenEntry | Entry(name: string, kind: Option<FileKind>)

  /** Whether the listing of `folder` keeps the entry. */
  predicate Keeps(folder: string, e: DirEntry) {
    e.Entry? && e.kind == Some(RegularFile) && IsAudioFile(Join(folder, e.name))
  }

  /** The kept names, in `read_dir` order. */
  function AudioNames(folder: string, entries: seq<DirEntry>): seq<string> {
    if entries == [] then []
    else
      var e := entries[|entries| - 1];
      AudioNames(folder, entries[..|entries| - 1]) + (if Keeps(folder, e) then [e.name] else [])
  }

  /** Every kept name comes from an entry the listing keeps. */
  lemma {:induction false} AudioNamesKept(folder: string, entries: seq<DirEntry>)
    ensures forall n :: n in AudioNames(folder, entries) ==> exists e :: e in entries && Keeps(folder, e) && e.name == n
  {
    if entries != [] {
      var front := entries[..|entries| - 1];
      var e := entries[|entries| - 1];
      AudioNamesKept(folder, front);
      forall n | n in AudioNames(folder, entries)
        ensures exists e' :: e' in entries && Keeps(folder, e') && e'.name == n
      {
        if n in AudioNames(folder, front) {
          var e' :| e' in front && Keeps(folder, e') && e'.name == n;
          assert e' in entries;
        } else {
          assert e in entries && Keeps(folder, e) && e.name == n;
        }
      }
    }
  }

  /** The list stored for one folder. */
  function Listing(folder: string, dirs: map<string, seq<DirEntry>>): seq<string> {
    if folder in dirs then SortNames(AudioNames(folder, dirs[folder])) else []
  }

  /** Every list is ascending and holds only regular files that pass `is_audio_file`. */
  lemma ListingProperties(folder: string, dirs: map<string, seq<DirEntry>>)
    ensures Sorted(Listing(folder, dirs))
    ensures forall n :: n in Listing(folder, dirs) ==>
      folder in dirs && exists e :: e in dirs[folder] && e == Entry(n, Some(RegularFile)) && IsAudioFile(Join(folder, n))
  {
    if folder in dirs {
      var names := AudioNames(folder, dirs[folder]);
      SortNamesSorted(names);
      AudioNamesKept(folder, dirs[folder]);
      forall n | n in Listing(folder, dirs)
        ensures exists e :: e in dirs[folder] && e == Entry(n, Some(RegularFile)) && IsAudioFile(Join(folder, n))
      {
        assert n in multiset(SortNames(names));
        assert n in names;
      }
    }
  }

  /** The entry loop of `list_audio_files` for one folder: the names of the regular files
      that pass `is_audio_file`, in `read_dir` order. */
  method AudioFilesIn(folder: string, entries: seq<DirEntry>) returns (files: seq<string>)
    ensures files == AudioNames(folder, entries)
  {
    files := [];
    for j := 0 to |entries|
      invariant files == AudioNames(folder, entries[..j])
    {
      assert entries[..j + 1][..j] == entries[..j];
      var e := entries[j];
      if e.Entry? && e.kind == Some(RegularFile) && IsAudioFile(Join(folder, e.name)) {
        files := files + [e.name];
      }
    }
    assert entries[..|entries|] == entries;
  }

  /** `list_audio_files`: for each audio folder, its audio files in ascending order; a
      folder named twice is listed once. */
  method ListAudioFiles(store: ConfigStore, home: Option<string>, dirs: map<string, seq<DirEntry>>)
    returns (byDir: map<string, seq<string>>)
    ensures forall f :: f in byDir <==> f in AudioFolderPaths(store.current.audioFolders, home)
    ensures forall f :: f in byDir ==> byDir[f] == Listing(f, dirs)
  {
    var folders := store.GetAudioFolders(home);
    byDir := map[];
    for i := 0 to |folders|
      invariant forall f :: f in byDir <==> f in folders[..i]
      invariant forall f :: f in byDir ==> byDir[f] == Listing(f, dirs)
    {
      var folder := folders[i];
      var files := [];
      if folder in dirs {
        files := AudioFilesIn(folder, dirs[folder]);
      }
      files := SortNames(files);
      byDir := byDir[folder := files];
      assert folders[..i + 1] == folders[..i] + [folder];
    }
    assert folders[..|folders|] == folders;
  }

  /** `add_folder`: exactly `add_audio_folder`. */
  method AddFolder(store: ConfigStore, dir: string, writeOk: bool) returns (r: Result<Unit, string>)
    modifies store
    ensures r == Ok(Unit)
    ensures store.current == old(store.current).(audioFolders := WithFolder(old(store.current.audioFolders), dir))
    ensures dir in old(store.current.audioFolders) ==> store.file == old(store.file)
    ensures dir !in old(store.current.audioFolders) && writeOk ==> store.file == Stored(store.current)
    ensures dir !in old(store.current.audioFolders) && !writeOk ==> store.file == old(store.file)
  {
    r := store.AddAudioFolder(dir, writeOk);
  }

  /** `remove_folder`: exactly `remove_audio_folder`. */
  method RemoveFolder(store: ConfigStore, dir: string, writeOk: bool) returns (r: Result<Unit, string>)
    modifies store
    ensures r == Ok(Unit)
    ensures store.current == old(store.current).(audioFolders := Without(old(store.current.audioFolders), dir))
    ensures writeOk ==> store.file == Stored(store.current)
    ensures !writeOk ==> store.file == old(store.file)
  {
    r := store.RemoveAudioFolder(dir, writeOk);
  }
}
