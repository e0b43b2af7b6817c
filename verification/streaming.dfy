/** src/routes/streaming.rs, `/stream/play`: the file is looked up in the audio folders in
    their configured order, the first folder holding it wins, and the response carries its
    bytes with a content type chosen from the exact extension. The file system is a map from
    path to what reading the file gives; a path is present in the map exactly when it exists. */
module Streaming {
  import opened Wrappers
  import opened Strings
  import opened Paths
  import opened AppConfig
  import Audio

  const OctetStream: string := "application/octet-stream"

  /** The four extensions `get_content_type` knows, with their media types; the match is on
      the extension exactly as written. */
  const MediaTypes: map<string, string> :=
    map["mp3" := "audio/mpeg", "wav" := "audio/wav", "ogg" := "audio/ogg", "flac" := "audio/flac"]

  /** The media type for an extension, as `get_content_type` matches it. */
  function ContentTypeOf(ext: Option<string>): (r: string)
    ensures ext.Some? && ext.value in MediaTypes ==> r == MediaTypes[ext.value]
    ensures !(ext.Some? && ext.value in MediaTypes) ==> r == OctetStream
  {
    match ext
    case Some("mp3") => "audio/mpeg"
    case Some("wav") => "audio/wav"
    case Some("ogg") => "audio/ogg"
    case Some("flac") => "audio/flac"
    case _ => OctetStream
  }

  /** `get_content_type`. */
  function GetContentType(path: string): string {
    ContentTypeOf(Extension(path))
  }

  lemma MediaTypeKeys(e: string)
    requires e in MediaTypes
    ensures e == "mp3" || e == "wav" || e == "ogg" || e == "flac"
  {
  }

  lemma LowerCaseKeys(e: string)
    requires e == "mp3" || e == "wav" || e == "ogg" || e == "flac"
    ensures AsciiLower(e) == e
  {
    if e == "mp3" {
      AsciiLowerUnchanged("mp3");
    } else if e == "wav" {
      AsciiLowerUnchanged("wav");
    } else if e == "ogg" {
      AsciiLowerUnchanged("ogg");
    } else {
      AsciiLowerUnchanged("flac");
    }
  }

  /** The four extensions are audio extensions, already in lower case. */
  lemma MediaTypeExtensions(e: string)
    requires e in MediaTypes
    ensures AsciiLower(e) == e && e in Audio.AudioExtensions
  {
    MediaTypeKeys(e);
    LowerCaseKeys(e);
  }

  /** A file served with an audio media type is one the audio listing also accepts. */
  lemma AudioTypeIsAudioFile(path: string)
    requires GetContentType(path) != OctetStream
    ensures Audio.IsAudioFile(path)
  {
    var ext := Extension(path);
    assert ext.Some? && ext.value in MediaTypes;
    MediaTypeExtensions(ext.value);
  }

  lemma UpperCaseMp3Type()
    ensures ContentTypeOf(Some("MP3")) == OctetStream
  {
    assert "MP3" !in MediaTypes;
  }

  /** The match is case-sensitive: the file "x.MP3" is served as application/octet-stream,
      although the audio listing accepts it. */
  lemma UpperCaseServedAsOctets(folder: string, base: string)
    requires base != [] && Audio.NoSeparator(base)
    ensures GetContentType(Join(folder, base + "." + "MP3")) == OctetStream
  {
    Audio.PathExtension(folder, base, "MP3");
    UpperCaseMp3Type();
  }

  /** A file whose name has no dot is served as application/octet-stream. */
  lemma NoExtensionServedAsOctets(folder: string, name: string)
    requires name != [] && Audio.NoSeparatorOrDot(name)
    ensures GetContentType(Join(folder, name)) == OctetStream
  {
    assert name[0] != '.';
    assert name != "." && name != "..";
    ExtensionOfJoin(folder, name);
    Audio.NameWithoutDot(name);
  }

  // ---------------------------------------------------------------------------------------
  // stream_audio

  /** What reading a file gives: its bytes, or the text of the I/O error. */
  type FileSystem = map<string, Result<seq<byte>, string>>

  datatype HttpResponse =
    | Found(contentType: string, body: seq<byte>)
    | ServerError(error: string)
    | NotFound(error: string)

  const FileNotFound: string := "File not found"
  const ReadFailedPrefix: string := "Failed to read file: "

  /** The paths tried for `file`: each folder joined with it, in order. */
  function Candidates(folders: seq<string>, file: string): (r: seq<string>)
    ensures |r| == |folders|
  {
    if folders == [] then [] else [Join(folders[0], file)] + Candidates(folders[1..], file)
  }

  lemma {:induction false} CandidateAt(folders: seq<string>, file: string, i: nat)
    requires i < |folders|
    ensures Candidates(folders, file)[i] == Join(folders[i], file)
  {
    if i > 0 {
      CandidateAt(folders[1..], file, i - 1);
    }
  }

  /** The position of the first path that exists. */
  function FirstHit(paths: seq<string>, existing: set<string>): (r: Option<nat>)
    ensures r.Some? ==> r.value < |paths| && paths[r.value] in existing
    ensures r.Some? ==> forall j :: 0 <= j < r.value ==> paths[j] !in existing
    ensures r.None? <==> forall j :: 0 <= j < |paths| ==> paths[j] !in existing
  {
    if paths == [] then None
    else if paths[0] in existing then Some(0)
    else
      match FirstHit(paths[1..], existing)
      case None => None
      case Some(k) => Some(k + 1)
  }

  /** The first existing path is the one at `i` when nothing before it exists. */
  lemma FirstHitAt(paths: seq<string>, existing: set<string>, i: nat)
    requires i < |paths| && paths[i] in existing
    requires forall j :: 0 <= j < i ==> paths[j] !in existing
    ensures FirstHit(paths, existing) == Some(i)
  {
  }

  /** The response for `file` given the folders searched. */
  function Respond(folders: seq<string>, file: string, fs: FileSystem): HttpResponse {
    var paths := Candidates(folders, file);
    match FirstHit(paths, fs.Keys)
    case None => NotFound(FileNotFound)
    case Some(k) =>
      match fs[paths[k]]
      case Ok(bytes) => Found(GetContentType(paths[k]), bytes)
      case Err(e) => ServerError(ReadFailedPrefix + e)
  }

  /** What the response says about the folders: "File not found" exactly when no folder
      holds the file; otherwise the body is the file found in one of them, or the read error
      is reported. */
  lemma {:induction false} RespondCases(folders: seq<string>, file: string, fs: FileSystem)
    ensures var resp := Respond(folders, file, fs);
      && (resp.NotFound? <==> forall f :: f in folders ==> Join(f, file) !in fs)
      && (resp.NotFound? ==> resp.error == FileNotFound)
      && (resp.Found? ==>
            exists f :: f in folders && Join(f, file) in fs
              && fs[Join(f, file)] == Ok(resp.body) && resp.contentType == GetContentType(Join(f, file)))
      && (resp.ServerError? ==> StartsWith(resp.error, ReadFailedPrefix))
  {
    var paths := Candidates(folders, file);
    var resp := Respond(folders, file, fs);
    match FirstHit(paths, fs.Keys)
    case None =>
      forall f | f in folders ensures Join(f, file) !in fs {
        var j :| 0 <= j < |folders| && folders[j] == f;
        CandidateAt(folders, file, j);
      }
    case Some(k) =>
      CandidateAt(folders, file, k);
      assert folders[k] in folders;
      if resp.ServerError? {
        assert resp.error == ReadFailedPrefix + fs[paths[k]].error;
      }
  }

  /** Folder `i` is the first, in configured order, that holds `file`. */
  predicate FirstHolder(folders: seq<string>, file: string, fs: FileSystem, i: nat) {
    i < |folders| && Join(folders[i], file) in fs
    && forall j :: 0 <= j < i ==> Join(folders[j], file) !in fs
  }

  /** The response comes from the first folder holding the file: its bytes with the media
      type of its path, or "Failed to read file: " followed by the read error. */
  lemma RespondFromFirstHolder(folders: seq<string>, file: string, fs: FileSystem, i: nat)
    requires FirstHolder(folders, file, fs, i)
    ensures var path := Join(folders[i], file);
      && (fs[path].Ok? ==> Respond(folders, file, fs) == Found(GetContentType(path), fs[path].value))
      && (fs[path].Err? ==> Respond(folders, file, fs) == ServerError(ReadFailedPrefix + fs[path].error))
  {
    var paths := Candidates(folders, file);
    forall j | 0 <= j <= i ensures paths[j] == Join(folders[j], file) {
      CandidateAt(folders, file, j);
    }
    FirstHitAt(paths, fs.Keys, i);
  }

  /** An absolute file name replaces every folder it is joined to, so the file is served
      from wherever it names, whatever the audio folders are. */
  lemma AbsoluteFileIgnoresFolders(folders: seq<string>, file: string, fs: FileSystem)
    requires folders != [] && IsAbsolute(file)
    ensures file !in fs ==> Respond(folders, file, fs) == NotFound(FileNotFound)
    ensures file in fs && fs[file].Ok? ==> Respond(folders, file, fs) == Found(GetContentType(file), fs[file].value)
    ensures file in fs && fs[file].Err? ==> Respond(folders, file, fs) == ServerError(ReadFailedPrefix + fs[file].error)
  {
    var paths := Candidates(folders, file);
    forall j | 0 <= j < |folders| ensures paths[j] == file {
      CandidateAt(folders, file, j);
    }
    if file in fs {
      assert FirstHit(paths, fs.Keys) == Some(0);
    }
  }

  /** The search loop of `stream_audio`: join each folder with the file name, in order,
      and stop at the first path that exists. */
  method FindFile(folders: seq<string>, file: string, fs: FileSystem) returns (found: Option<string>)
    ensures found.None? <==> FirstHit(Candidates(folders, file), fs.Keys).None?
    ensures found.Some? ==> found.value == Candidates(folders, file)[FirstHit(Candidates(folders, file), fs.Keys).value]
  {
    ghost var paths := Candidates(folders, file);
    ghost var existing := fs.Keys;
    found := None;
    var i := 0;
    while i < |folders|
      invariant 0 <= i <= |folders|
      invariant forall j :: 0 <= j < i ==> paths[j] !in existing
      decreases |folders| - i
    {
      var path := Join(folders[i], file);
      CandidateAt(folders, file, i);
      if path in fs {
        FirstHitAt(paths, existing, i);
        found := Some(path);
        break;
      }
      i := i + 1;
    }
  }

  /** `stream_audio`: search the audio folders, stop at the first hit, then read it. */
  method StreamAudio(store: ConfigStore, home: Option<string>, file: string, fs: FileSystem)
    returns (resp: HttpResponse)
    ensures resp == Respond(AudioFolderPaths(store.current.audioFolders, home), file, fs)
  {
    var folders := store.GetAudioFolders(home);
    var found := FindFile(folders, file, fs);
    match found
    case None =>
      resp := NotFound(FileNotFound);
    case Some(p) =>
      match fs[p]
      case Ok(bytes) =>
        resp := Found(GetContentType(p), bytes);
      case Err(e) =>
        resp := ServerError(ReadFailedPrefix + e);
  }
}
