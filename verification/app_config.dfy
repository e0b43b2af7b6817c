/** src/config.rs: the application settings, `~/` expansion, and the process-wide current
    settings together with the file they are saved to. The home directory is a parameter
    (`None` when it cannot be found), and the settings file is a value the model holds. */
module AppConfig {
  import opened Wrappers
  import opened Strings
  import opened Paths

  datatype Config = Config(uploadFolder: string, downloadFolder: string, audioFolders: seq<string>)

  /** `Config::default()`. */
  const DefaultConfig: Config := Config("~/noplacelike/uploads", "~/Downloads", [])

  /** The folder used when no audio folder is configured. */
  const DefaultAudioFolder: string := "~/noplacelike/audio"

  const ConfigFileName: string := ".noplacelikeconfig.json"

  /** The directory `~` stands for: the home directory, or "." when there is none. */
  function HomeOr(home: Option<string>): string {
    home.GetOr(".")
  }

  /** `expand_path`: a leading "~/" is replaced by the home directory, joined as a path with
      the rest; anything else, "~" and "~name" included, is taken as it is. */
  function ExpandPath(p: string, home: Option<string>): (r: string)
    ensures !StartsWith(p, "~/") ==> r == p
    ensures StartsWith(p, "~/") ==> EndsWith(r, p[2..])
    ensures StartsWith(p, "~/") && !IsAbsolute(p[2..]) ==> StartsWith(r, HomeOr(home))
    ensures StartsWith(p, "~/") && IsAbsolute(p[2..]) ==> r == p[2..]
  {
    if StartsWith(p, "~/") then
      JoinProperties(HomeOr(home), p[2..]);
      Join(HomeOr(home), p[2..])
    else p
  }

  /** `get_config_path`. */
  function ConfigPath(home: Option<string>): (r: string)
    ensures StartsWith(r, HomeOr(home)) && EndsWith(r, ConfigFileName)
  {
    JoinProperties(HomeOr(home), ConfigFileName);
    Join(HomeOr(home), ConfigFileName)
  }

  /** When `~` stands for a directory that does not itself begin with '~', expanding an
      expanded path changes nothing more. */
  lemma ExpandPathIdempotent(p: string, home: Option<string>)
    requires HomeOr(home) != [] && HomeOr(home)[0] != '~'
    ensures ExpandPath(ExpandPath(p, home), home) == ExpandPath(p, home)
  {
    var r := ExpandPath(p, home);
    if StartsWith(p, "~/") {
      if IsAbsolute(p[2..]) {
        assert r[0] == '/';
      } else {
        assert r[0] == HomeOr(home)[0];
      }
      assert !StartsWith(r, "~/");
    }
  }

  /** The audio folders `get_audio_folders` hands out: each configured folder expanded, in
      order, or the expanded default folder alone when none is configured. */
  function AudioFolderPaths(folders: seq<string>, home: Option<string>): (r: seq<string>)
    ensures folders == [] ==> r == [ExpandPath(DefaultAudioFolder, home)]
    ensures folders != [] ==> |r| == |folders| && forall i :: 0 <= i < |r| ==> r[i] == ExpandPath(folders[i], home)
  {
    if folders == [] then [ExpandPath(DefaultAudioFolder, home)] else ExpandAll(folders, home)
  }

  function ExpandAll(folders: seq<string>, home: Option<string>): (r: seq<string>)
    ensures |r| == |folders| && forall i :: 0 <= i < |r| ==> r[i] == ExpandPath(folders[i], home)
  {
    if folders == [] then [] else [ExpandPath(folders[0], home)] + ExpandAll(folders[1..], home)
  }

  // ---------------------------------------------------------------------------------------
  // The audio folder list as a set-like sequence

  /** `add_audio_folder`'s effect on the list: append unless already present. */
  function WithFolder(folders: seq<string>, f: string): (r: seq<string>)
    ensures f in r
    ensures forall x :: x in r <==> x in folders || x == f
    ensures f in folders ==> r == folders
    ensures f !in folders ==> r == folders + [f]
  {
    if f in folders then folders else folders + [f]
  }

  /** `retain(|x| x != f)`: every occurrence of `f` dropped, the rest kept in order. */
  function Without(folders: seq<string>, f: string): (r: seq<string>)
    ensures |r| <= |folders|
    ensures forall x :: x in r <==> x in folders && x != f
  {
    if folders == [] then []
    else (if folders[0] == f then [] else [folders[0]]) + Without(folders[1..], f)
  }

  /** Removing a folder that is not in the list changes nothing. */
  lemma {:induction false} WithoutAbsent(folders: seq<string>, f: string)
    requires f !in folders
    ensures Without(folders, f) == folders
  {
    if folders != [] {
      WithoutAbsent(folders[1..], f);
      assert [folders[0]] + folders[1..] == folders;
    }
  }

  /** Removal works piecewise, so the folders that stay keep their relative order. */
  lemma {:induction false} WithoutAppend(a: seq<string>, b: seq<string>, f: string)
    ensures Without(a + b, f) == Without(a, f) + Without(b, f)
  {
    if a == [] {
      assert a + b == b;
    } else {
      assert (a + b)[1..] == a[1..] + b;
      WithoutAppend(a[1..], b, f);
    }
  }

  /** Removing twice is removing once. */
  lemma {:induction false} WithoutIdempotent(folders: seq<string>, f: string)
    ensures Without(Without(folders, f), f) == Without(folders, f)
  {
    WithoutAbsent(Without(folders, f), f);
  }

  /** Adding then removing a folder is the same as removing it. */
  lemma WithoutWithFolder(folders: seq<string>, f: string)
    ensures Without(WithFolder(folders, f), f) == Without(folders, f)
  {
    if f !in folders {
      WithoutAppend(folders, [f], f);
      assert Without([f], f) == [];
      assert Without(folders, f) + [] == Without(folders, f);
    }
  }

  /** Adding twice is adding once. */
  lemma WithFolderIdempotent(folders: seq<string>, f: string)
    ensures WithFolder(WithFolder(folders, f), f) == WithFolder(folders, f)
  {
  }

  // ---------------------------------------------------------------------------------------
  // The global settings and the settings file

  /** What the settings file holds, as far as `load_config` can tell: nothing, something it
      cannot read or cannot parse, or a stored configuration. */
  datatype ConfigFile = Absent | Unreadable | Malformed | Stored(config: Config)

  /** The global `CONFIG` and the settings file on disk. */
  class ConfigStore {
    var current: Config
    var file: ConfigFile

    /** The global starts as the default settings. */
    constructor(file: ConfigFile)
      ensures current == DefaultConfig && this.file == file
    {
      current := DefaultConfig;
      this.file := file;
    }

    /** `save_config`: the global always becomes `c`; the file holds `c` only when the
        write succeeds (`writeOk`), and is left as it was otherwise. */
    method SaveConfig(c: Config, writeOk: bool)
      modifies this
      ensures current == c
      ensures writeOk ==> file == Stored(c)
      ensures !writeOk ==> file == old(file)
    {
      current := c;
      if writeOk {
        file := Stored(c);
      }
    }

    /** `load_config`: a stored configuration becomes the global one and is returned;
        otherwise the default is saved and returned. */
    method LoadConfig(writeOk: bool) returns (c: Config)
      modifies this
      ensures old(file).Stored? ==> c == old(file).config && file == old(file)
      ensures !old(file).Stored? ==> c == DefaultConfig
      ensures !old(file).Stored? && writeOk ==> file == Stored(DefaultConfig)
      ensures !old(file).Stored? && !writeOk ==> file == old(file)
      ensures current == c
    {
      match file
      case Stored(stored) =>
        current := stored;
        c := stored;
      case _ =>
        c := DefaultConfig;
        SaveConfig(c, writeOk);
    }

    /** A configuration that was saved successfully is the one loaded next; after a failed
        write the load finds the file as it was before. */
    method SaveThenLoad(c: Config, writeOk: bool) returns (loaded: Config)
      modifies this
      ensures writeOk ==> loaded == c && current == c && file == Stored(c)
      ensures !writeOk && old(file).Stored? ==> loaded == old(file).config && current == loaded
      ensures !writeOk && !old(file).Stored? ==> loaded == DefaultConfig && current == loaded
      ensures !writeOk ==> file == old(file)
    {
      SaveConfig(c, writeOk);
      loaded := LoadConfig(writeOk);
    }

    /** `update_config`: save and hand the settings back. */
    method UpdateConfig(c: Config, writeOk: bool) returns (r: Config)
      modifies this
      ensures r == c && current == c
      ensures writeOk ==> file == Stored(c)
      ensures !writeOk ==> file == old(file)
    {
      SaveConfig(c, writeOk);
      r := c;
    }

    /** `ensure_upload_folder`: the expanded upload folder (creating it is not modelled). */
    method EnsureUploadFolder(home: Option<string>) returns (p: string)
      ensures p == ExpandPath(current.uploadFolder, home)
    {
      p := ExpandPath(current.uploadFolder, home);
    }

    /** `get_audio_folders`: one expanded path per configured folder, in order, or the
        expanded default folder alone when none is configured. */
    method GetAudioFolders(home: Option<string>) returns (folders: seq<string>)
      ensures current.audioFolders != [] ==>
        |folders| == |current.audioFolders|
        && forall i :: 0 <= i < |folders| ==> folders[i] == ExpandPath(current.audioFolders[i], home)
      ensures current.audioFolders == [] ==> folders == [ExpandPath(DefaultAudioFolder, home)]
      ensures folders == AudioFolderPaths(current.audioFolders, home)
    {
      folders := [];
      var i := 0;
      while i < |current.audioFolders|
        invariant 0 <= i <= |current.audioFolders|
        invariant |folders| == i
        invariant forall j :: 0 <= j < i ==> folders[j] == ExpandPath(current.audioFolders[j], home)
      {
        folders := folders + [ExpandPath(current.audioFolders[i], home)];
        i := i + 1;
      }
      if folders == [] {
        folders := folders + [ExpandPath(DefaultAudioFolder, home)];
      }
    }

    /** `add_audio_folder`: append the folder and save, unless it is already listed; the
        result is always `Ok`. */
    method AddAudioFolder(f: string, writeOk: bool) returns (r: Result<Unit, string>)
      modifies this
      ensures r == Ok(Unit)
      ensures current == old(current).(audioFolders := WithFolder(old(current.audioFolders), f))
      ensures f in old(current.audioFolders) ==> file == old(file)
      ensures f !in old(current.audioFolders) && writeOk ==> file == Stored(current)
      ensures f !in old(current.audioFolders) && !writeOk ==> file == old(file)
    {
      var c := current;
      if f !in c.audioFolders {
        c := c.(audioFolders := c.audioFolders + [f]);
        SaveConfig(c, writeOk);
      }
      r := Ok(Unit);
    }

    /** `remove_audio_folder`: drop every occurrence and save; the result is always `Ok`. */
    method RemoveAudioFolder(f: string, writeOk: bool) returns (r: Result<Unit, string>)
      modifies this
      ensures r == Ok(Unit)
      ensures current == old(current).(audioFolders := Without(old(current.audioFolders), f))
      ensures writeOk ==> file == Stored(current)
      ensures !writeOk ==> file == old(file)
    {
      var c := current;
      c := c.(audioFolders := Without(c.audioFolders, f));
      SaveConfig(c, writeOk);
      r := Ok(Unit);
    }

    /** Adding the same folder twice leaves the settings as adding it once. */
    method AddTwice(f: string, writeOk: bool)
      modifies this
      ensures current == old(current).(audioFolders := WithFolder(old(current.audioFolders), f))
      ensures f in old(current.audioFolders) ==> file == old(file)
      ensures f !in old(current.audioFolders) && writeOk ==> file == Stored(current)
      ensures f !in old(current.audioFolders) && !writeOk ==> file == old(file)
    {
      var r1 := AddAudioFolder(f, writeOk);
      var r2 := AddAudioFolder(f, writeOk);
    }
  }
}
