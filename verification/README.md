# noplacelike core, modelled in Dafny

noplacelike is a small LAN server. A phone or another computer opens it in a browser to
share a clipboard, upload and download files, and stream audio. This project models the
parts of it that hold logic:

- **WebSocket clipboard hub** (`ws_hub.dfy`, `ws_codec.dfy`):
  - `ClipboardState` is the registry every connection shares. It holds the last clipboard
    text and the set of connected client ids.
  - Each connection is a session with its own id, the time of its last heartbeat and a
    stopped flag.
  - A session handles Ping, Pong, Text, Binary and Close frames, and runs a periodic
    heartbeat check.
  - `WsMessage` is written to the wire as serde's adjacently tagged JSON
    (`{"type":"Clipboard","data":"…"}`). A decoder for that JSON is proved to invert the
    encoder.
- **Settings** (`app_config.dfy`):
  - `~/` expansion.
  - The process-wide current settings and the settings file.
  - Saving and loading.
  - The audio-folder list: add, remove, and expansion with a default folder.
- **Command line** (`cli.dfy`): the `--host` / `--port` argument loop of `main`.
- **Start-up banner** (`server.rs` → `server.dfy`, `sorting.dfy`):
  - The announced addresses, stably sorted with the local-network ones first.
  - The heading and URL printed for each address.
- **Audio** (`audio.dfy`, `streaming.dfy`):
  - Which files count as audio.
  - The sorted per-folder listing.
  - The `/stream/play` lookup: the first folder holding the file wins, and the media type
    comes from the extension.
- **Shared clipboard cell** (`clipboard.dfy`): `SharedClipboard`, a handle whose clones
  all see one text cell, with the operating-system clipboard as an input.

`paths.dfy` and `strings.dfy` model the Rust standard-library behaviour the code relies
on:
- `PathBuf::push` / `Path::join`.
- `Path::file_name` and `Path::extension` on Unix paths.
- `Display` of unsigned integers.
- `String` ordering.

`str::parse::<u16>`, which `main` uses for the port, is modelled in `cli.dfy`.

Effects outside the program are inputs to the model:
- **Time** is a number of whole seconds.
- **The home directory** is an `Option<string>`.
- **The machine's own address** is a `Result`.
- **The file system** is a map from path to what reading the file gives. A path is in
  the map exactly when it exists.
- **Directory listings** are a map from folder to its entries.
- **Settings-file writes** are a flag saying whether the write succeeds.
- **The system clipboard** is a value saying whether it opens and what reading it gives.
- **Outbound WebSocket traffic** is the list of frames a call returns.

**Where the code and its description differ, the model follows the code.** The comments in
the handler say a clipboard update is broadcast "to all other clients"
(src/routes/ws.rs:151) and "to all clients including this one" (src/routes/ws.rs:156). The
handler (src/routes/ws.rs:149-158) instead:
- stores the text;
- asks the registry for the client list and never uses it;
- sends the update back to the sender only.

`WsHub.Session.Handle` returns that unused list as `peers` and sends nothing to it.

The hub is also not reachable from the server as written. `run_server`
(src/server.rs:21-35) never mounts `ws_scope()`. The shared data it registers is a
`Mutex<String>` (src/server.rs:15), not a `ClipboardState`. The model describes the
handler's behaviour once it is mounted with a `ClipboardState`.

## Model

| member | source | states |
|---|---|---|
| WsHub.ClipboardState.constructor | src/routes/ws.rs:24-29 | the registry starts with the given text and no clients |
| WsHub.ClipboardState.UpdateContent | src/routes/ws.rs:31-38 | the content becomes `s` and the client set is unchanged; the returned ids are exactly the registered clients, each listed once |
| WsHub.ClipboardState.RegisterClient | src/routes/ws.rs:40-50 | `id` joins the client set and no other member changes; the content is unchanged and is returned |
| WsHub.ClipboardState.UnregisterClient | src/routes/ws.rs:52-55 | `id` leaves the client set; an absent id leaves the set as it was; the content is unchanged |
| WsHub.ClipboardState.GetCurrentContent | src/routes/ws.rs:57-60 | returns the stored content and changes nothing |
| WsHub.IdCounter.FetchAdd | src/routes/ws.rs:11 | returns the counter's value and advances it by one; the id was never handed out before, so no two sessions share one |
| WsHub.Session.constructor | src/routes/ws.rs:105-111 | a new session gets a fresh id from the counter, the current time as its last heartbeat, and is not stopped |
| WsHub.Session.Started | src/routes/ws.rs:83-95 | registers the session's id, leaves the content unchanged, and sends exactly one `Clipboard(content)` frame |
| WsHub.Session.Stopping | src/routes/ws.rs:97-101 | unregisters the session's id |
| WsHub.Elapsed | src/routes/ws.rs:118 | seconds since the last heartbeat, zero when the clock reads earlier, as `duration_since` saturates |
| WsHub.Session.HeartbeatTick | src/routes/ws.rs:114-127 | more than 30 s since the last heartbeat: unregister, stop, send nothing; 30 s or less: exactly one empty ping and no other change |
| WsHub.Session.HandleText | src/routes/ws.rs:142-176 | Connect and Heartbeat refresh the heartbeat and send nothing; Clipboard(s) stores `s`, echoes exactly one `Clipboard(s)` frame to the sender and lists the registered clients; Sync sends the stored text and changes nothing; an undecodable text gets exactly one "Invalid message format" error frame; the client set and stopped flag are untouched |
| WsHub.Session.HandleOther | src/routes/ws.rs:133-189 | Ping is answered by a pong with the same payload; Ping and Pong refresh the heartbeat; Binary gets exactly one "Binary messages not supported" error frame; Close unregisters, stops and sends a close frame with the peer's reason; every other input sends nothing and changes nothing; only Close touches the registry |
| WsHub.Session.Handle | src/routes/ws.rs:133-189 | the frame handler: the cases above, with text frames decoded by `WsCodec.Decode`; the content changes only on a text Clipboard message; nothing but Close stops the session or changes the client set |
| WsHub.Session.CloseThenStop | src/routes/ws.rs:181-186 | a Close frame followed by the actor's stop removes the id once, as a single unregister would |
| WsHub.Session.TimeoutThenStop | src/routes/ws.rs:118-122 | a heartbeat timeout followed by the actor's stop removes the id once, as a single unregister would |
| WsHub.ErrorFrameText | src/routes/ws.rs:171-179 | the error frame for a detail with no character JSON escapes is `{"type":"error","data":"<detail>"}`, the literal text the handler writes |
| WsHub.ErrorFrameIsNoMessage | src/routes/ws.rs:171-179 | an error frame never decodes as a `WsMessage`, since "error" names no variant |
| WsHub.PayloadDecodes | src/routes/ws.rs:153-165 | a peer decoding a text frame gets back the message that was sent, and nothing for an error report |
| WsCodec.DecodeEncode | src/routes/ws.rs:71-78 | decoding the JSON written for any message gives the message back |
| WsCodec.DecodeEncodeClipboard | src/routes/ws.rs:71-78 | `{"type":"Clipboard","data":<escaped text>}` decodes to `Clipboard(text)` for every text, control characters and quotes included |
| WsCodec.DecodeEncodeUnit | src/routes/ws.rs:71-78 | a unit variant is written as `{"type":"<name>"}` with no data field and decodes back to itself |
| WsCodec.EncodeInjective | src/routes/ws.rs:71-78 | different messages are written as different JSON texts |
| WsCodec.EscapeIsStringBody | src/routes/ws.rs:71-78 | escaped text holds no raw control character, and every quote in it is preceded by a backslash |
| WsCodec.ParseEscaped | src/routes/ws.rs:71-78 | an escaped text followed by a closing quote reads back as the text, and parsing resumes right after the quote |
| AppConfig.ExpandPath | src/config.rs:35-43 | a path starting with `~/` becomes the home directory (or "." without one) joined with the rest; an absolute rest replaces it; every other path, "~" and "~name" included, is returned unchanged |
| AppConfig.ExpandPathIdempotent | src/config.rs:35-43 | when the home directory does not itself start with `~`, expanding an expanded path changes nothing |
| AppConfig.ConfigPath | src/config.rs:29-33 | the settings file lies under the home directory (or ".") and is named `.noplacelikeconfig.json` |
| AppConfig.AudioFolderPaths | src/config.rs:115-138 | one expanded path per configured folder, in order; exactly `[expand("~/noplacelike/audio")]` when none is configured |
| AppConfig.WithFolder | src/config.rs:140-148 | the folder list after an add contains the folder; it is unchanged when the folder was already listed and otherwise has it appended |
| AppConfig.WithFolderIdempotent | src/config.rs:140-148 | adding the same folder twice equals adding it once |
| AppConfig.Without | src/config.rs:150-156 | the folder list after a remove holds exactly the other folders and is no longer |
| AppConfig.WithoutAbsent | src/config.rs:150-156 | removing a folder that is not listed changes nothing |
| AppConfig.WithoutAppend | src/config.rs:150-156 | removal works piecewise over concatenation, so the remaining folders keep their order |
| AppConfig.WithoutIdempotent | src/config.rs:150-156 | removing twice equals removing once |
| AppConfig.WithoutWithFolder | src/config.rs:140-156 | adding and then removing a folder equals removing it |
| AppConfig.ConfigStore.constructor | src/config.rs:14-27 | the global settings start as the default: uploads in "~/noplacelike/uploads", downloads in "~/Downloads", no audio folders |
| AppConfig.ConfigStore.SaveConfig | src/config.rs:74-99 | the global settings become `c` whether or not the write succeeds; the file holds `c` only after a successful write |
| AppConfig.ConfigStore.LoadConfig | src/config.rs:45-72 | stored settings that read and parse become the global settings and are returned; otherwise the default settings are saved and returned |
| AppConfig.ConfigStore.SaveThenLoad | src/config.rs:45-99 | after a successful write the next load returns the saved settings and the file holds them; after a failed write the file is unchanged and the load returns what it held before, or the default when it held no stored settings |
| AppConfig.ConfigStore.UpdateConfig | src/config.rs:101-104 | saves `c` and returns it |
| AppConfig.ConfigStore.EnsureUploadFolder | src/config.rs:106-113 | returns the expanded upload folder of the current settings |
| AppConfig.ConfigStore.GetAudioFolders | src/config.rs:115-138 | the loop returns one expanded path per configured folder, in order, or the expanded default folder alone |
| AppConfig.ConfigStore.AddAudioFolder | src/config.rs:140-148 | always `Ok`; appends and saves only when the folder is absent, and otherwise changes nothing |
| AppConfig.ConfigStore.RemoveAudioFolder | src/config.rs:150-156 | always `Ok`; drops every occurrence, keeps the rest in order, and saves |
| AppConfig.ConfigStore.AddTwice | src/config.rs:140-148 | two adds of the same folder leave the settings and the file as one add does |
| Cli.ParseU16 | src/main.rs:28 | `str::parse::<u16>`: succeeds exactly on an optional '+' followed by one or more digits whose value is below 65536 |
| Cli.ParseU16Dec | src/main.rs:28 | every port written in decimal parses back to itself |
| Cli.ParseArgs | src/main.rs:12-35 | the loop's host and port are those the argument list selects, and the port is a u16 |
| Cli.DefaultsWithoutFlags | src/main.rs:13-14 | without `--host` or `--port` the endpoint is 0.0.0.0:8000 |
| Cli.HostValueConsumed | src/main.rs:20-25 | the value after `--host` becomes the host even when it looks like a flag, and is not read again |
| Cli.LastHostWins | src/main.rs:20-25 | a later `--host v` overrides everything before it |
| Cli.LastPortWins | src/main.rs:26-31 | a later `--port v` overrides everything before it; a value that is not a u16 gives 8000, not the earlier port |
| Cli.TrailingFlagIgnored | src/main.rs:20-31 | a `--host` or `--port` in the last position, with no value after it, is ignored |
| Cli.NoFlagsNoChange | src/main.rs:32 | arguments that are not flags are skipped |
| Cli.ScanAppend | src/main.rs:17-35 | after a prefix with no flag left waiting for its value, the rest of the arguments is read afresh |
| Server.V4Rank | src/server.rs:87-98 | the sort key of an IPv4 address: 0 for 192.168/16, 1 for 10/8, 2 for 172/8, 3 otherwise |
| Server.GetAllIps | src/server.rs:70-101 | the list always contains 127.0.0.1; the local address is added only when it is not loopback, so there are one or two entries; the list is ordered by rank and equal ranks keep their insertion order |
| StableSort.SortBySorted | src/server.rs:87-98 | `sort_by_key` orders by non-decreasing key |
| StableSort.SortByStable | src/server.rs:87 | `sort_by_key` keeps entries with equal keys in their original order |
| Server.LabelRank | src/server.rs:50-56 | "Local Network" goes exactly to non-loopback addresses of rank 0 or 1, "Other" to those of rank 2 or 3, so 172.* is "Other" |
| Server.V4Label | src/server.rs:50-56 | by octets: 127/8 gets "Localhost", 192.168/16 and 10/8 get "Local Network", every other address gets "Other" |
| Server.UrlPort | src/server.rs:48 | the URL is "http://", the address text, ':' and the decimal port, which reads back as the port |
| Server.Banners | src/server.rs:47-58 | one banner per address, in order, each with the address's heading and URL |
| Server.PrintServerInfo | src/server.rs:41-68 | a banner for each address `get_all_ips` returns, in its order; the addresses are 127.0.0.1 and the local address when that is not loopback, otherwise 127.0.0.1 alone; equal ranks keep the order 127.0.0.1 then the local address |
| Streaming.ContentTypeOf | src/routes/streaming.rs:110-121 | mp3, wav, ogg and flac map to audio/mpeg, audio/wav, audio/ogg and audio/flac; anything else, and no extension, maps to application/octet-stream |
| Streaming.MediaTypeExtensions | src/routes/streaming.rs:113-116 | the four served extensions are lower-case audio extensions |
| Streaming.AudioTypeIsAudioFile | src/routes/streaming.rs:110-121 | a file served with an audio media type is one the audio listing accepts |
| Streaming.UpperCaseServedAsOctets | src/routes/streaming.rs:111-120 | the match is case-sensitive: `folder.join("<base>.MP3")` is served as application/octet-stream, for every folder and every base name without a separator |
| Streaming.NoExtensionServedAsOctets | src/routes/streaming.rs:111-120 | `folder.join(name)` for a name with no dot is served as application/octet-stream |
| Paths.JoinProperties | src/routes/streaming.rs:72 | `folder.join(file)` ends with the file name; a relative name follows the folder after one separator; an absolute name replaces the folder |
| Streaming.CandidateAt | src/routes/streaming.rs:71-72 | the i-th path tried is the i-th folder joined with the file name |
| Streaming.FirstHit | src/routes/streaming.rs:70-77 | the first path that exists and none before it; none exactly when no path exists |
| Streaming.FindFile | src/routes/streaming.rs:69-77 | the search loop stops at the first folder, in configured order, whose joined path exists, and finds nothing exactly when none does |
| Streaming.RespondCases | src/routes/streaming.rs:80-100 | "File not found" exactly when no folder holds the file; a success carries the bytes of the file in some folder that holds it, with the media type of its path; any other answer is an error starting "Failed to read file: " |
| Streaming.RespondFromFirstHolder | src/routes/streaming.rs:70-95 | when folder i is the first that holds the file, a readable file gives its bytes with the media type of that path, and a read error e gives exactly "Failed to read file: " followed by e |
| Streaming.AbsoluteFileIgnoresFolders | src/routes/streaming.rs:71-100 | an absolute file name is served from the path it names, whatever the audio folders are |
| Streaming.StreamAudio | src/routes/streaming.rs:64-101 | the response is the one the first hit among the expanded audio folders determines |
| Paths.Extension | src/services/audio.rs:40 | an extension is what follows the last '.' of the file name and contains no '.' |
| Paths.FileNameOfJoin | src/services/audio.rs:20 | a folder joined with a plain name (not empty, "." or "..", no separator) has that name as its file name |
| Paths.ExtensionOfJoin | src/services/audio.rs:20 | the extension of a folder joined with a plain name is the extension of the name |
| Audio.NameWithExtension | src/services/audio.rs:40 | `base.ext` has extension `ext`, for any base without a separator (dots included) and any extension without a dot |
| Audio.PathExtension | src/services/audio.rs:20-40 | the entry path `folder.join("<base>.<ext>")` has extension `ext` |
| Audio.AudioFileByExtension | src/services/audio.rs:39-47 | the entry path `folder.join("<base>.<ext>")` is an audio file exactly when `ext` lower-cased is one of mp3, wav, ogg, flac, m4a or aac |
| Audio.KeptByExtension | src/services/audio.rs:16-28 | a regular file named `<base>.<ext>` is kept in the folder's listing exactly when `ext` lower-cased is an audio extension |
| Audio.UpperCaseMp3 | src/services/audio.rs:42 | the check ignores case: `folder.join("<base>.MP3")` is an audio file |
| Audio.NoExtensionIsNotAudio | src/services/audio.rs:39-47 | `folder.join(name)` for a name with no dot, such as "song", is not an audio file |
| Audio.HiddenFileIsNotAudio | src/services/audio.rs:39-47 | `folder.join(".<ext>")`, a hidden name such as ".mp3", has no extension and is not an audio file |
| Audio.SortNames | src/services/audio.rs:30 | `files.sort()` keeps exactly the same names |
| Audio.SortNamesSorted | src/services/audio.rs:30 | sorted names are in ascending `String` order |
| Audio.SortedUnique | src/services/audio.rs:30 | two ascending orders of the same names are equal, so the listing does not depend on the sort algorithm |
| Audio.AudioNamesKept | src/services/audio.rs:16-28 | every listed name comes from an entry that is a regular file and passes `is_audio_file` |
| Audio.AudioFilesIn | src/services/audio.rs:16-28 | the entry loop keeps the regular files that pass `is_audio_file`, in directory order |
| Audio.ListingProperties | src/services/audio.rs:12-31 | each folder's list is ascending and holds only regular audio files found in that folder |
| Audio.ListAudioFiles | src/services/audio.rs:8-36 | one map entry per audio folder path, and no other; a repeated folder gives one entry; each entry is that folder's sorted audio listing |
| Audio.AddFolder | src/services/audio.rs:50-52 | exactly the effect of `add_audio_folder` |
| Audio.RemoveFolder | src/services/audio.rs:55-57 | exactly the effect of `remove_audio_folder` |
| Clipboard.SharedClipboard.constructor | src/services/clipboard.rs:12-16 | a new clipboard is a fresh cell holding the empty text |
| Clipboard.Default | src/services/clipboard.rs:64-68 | `default()` is a new, empty clipboard |
| Clipboard.NewIsEmpty | src/services/clipboard.rs:12-16 | a new clipboard reads back as `Ok("")` |
| Clipboard.SharedClipboard.Clone | src/services/clipboard.rs:5-8 | a clone is a new handle on the same cell |
| Clipboard.SharedClipboard.Set | src/services/clipboard.rs:19-35 | the cell takes the text, and the result is `Ok` whatever happens to the system clipboard |
| Clipboard.SharedClipboard.Get | src/services/clipboard.rs:38-42 | returns `Ok` with the cell's text and changes nothing |
| Clipboard.SetThenGet | src/services/clipboard.rs:19-42 | what is set is what is read back, every time it is read |
| Clipboard.ClonesShare | src/services/clipboard.rs:5-8 | a text set through a clone is read through the original, and the other way round |
| Clipboard.SharedClipboard.GetFromSystem | src/services/clipboard.rs:45-53 | succeeds exactly when the system clipboard opens and reads, with its text; otherwise "Failed to access system clipboard: " or "Failed to get system clipboard: " and the cause |
| Clipboard.SharedClipboard.SyncFromSystem | src/services/clipboard.rs:56-61 | on success the cell takes the system text; on failure the error is returned and the cell is unchanged |

## Left out

- Concurrency is not modelled:
  - the actix actor runtime;
  - the `run_interval` timer;
  - the `Arc`/`Mutex` sharing and the atomic counter.
  One caller is modelled. Each registry call is one atomic step, and the caller drives the heartbeat tick and passes in the time.
- Time is modelled in whole seconds. `Instant` has sub-second resolution, so a gap between 30 and 31 seconds is not distinguished.
- WsHub.IdCounter.FetchAdd: does not model the wrap-around of the `usize` counter after 2^64 connections. Ids are unbounded naturals.
- Clipboard.SharedClipboard.Set: does not model the "Lock error" result of a poisoned mutex. No lock exists in a one-caller model.
- Clipboard.SharedClipboard.Get: does not model the "Lock error" result, for the same reason.
- Clipboard.SharedClipboard.Set: the write to the system clipboard is not modelled. Its outcome never changes the result or the cell, and its only trace is a printed message.
- `ClipboardState::update_content` and the other registry calls do not model `lock().unwrap()` panics.
- WsCodec.Decode: accepts member values that are strings or `null` only. A frame with a number, boolean, array or object value, even under a key serde ignores, decodes to `None`. serde_json may accept such a frame. The two-element array form serde also reads for an adjacently tagged enum (`["Clipboard","x"]`, `["Sync",null]`) is not modelled either: the model answers it with "Invalid message format" where the source would handle the message.
- The fallback texts the handler uses if serialisation fails are not modelled. Serialising a `WsMessage` cannot fail, so those branches cannot run.
- Outbound text frames carry a `TextPayload` rather than a string. Their wire text is `WsHub.PayloadText`: `Encode` for messages and the literal error object for errors.
- Printing is not modelled:
  - the messages printed to standard error;
  - the "Starting" line;
  - the QR codes printed by `qr2term`.
  The banner list stands for what `print_server_info` prints.
- `fs::create_dir_all` in `save_config`, `ensure_upload_folder` and `get_audio_folders` is not modelled. Its failures are only printed and never change a result.
- The settings file's JSON format is not modelled. The file is a value: absent, unreadable, malformed, or holding stored settings. A write either stores the settings completely or leaves the file unchanged. Partial writes are not modelled.
- `home_dir()` and `local_ip()` are inputs, not calls.
- IPv6 addresses are kept as their display text. Only `::1` counts as loopback. Other IPv6 loopback spellings and the rank of IPv6 texts beyond their prefixes are not modelled.
- The `list_audio` route (src/routes/streaming.rs:32-62) is not modelled. It is the same directory walk without the audio filter or the sort, and it has no logic of its own.
- File and folder names that are not valid UTF-8 are not modelled. All paths are strings, so the `to_str()` failures that skip such entries never occur.
- A directory that exists where a file is expected is modelled as a map entry whose read fails. `path.exists()` is true for it, and `File::open` or `read_to_end` fails.
- `File::open` failing and `read_to_end` failing are modelled as one read error.
- Audio.IsAudioFile: lower-cases the extension by ASCII only, where Rust's `to_lowercase` is Unicode-aware. The decision is the same. The only characters outside ASCII whose lower case contains an ASCII letter are the Kelvin sign, which becomes 'k', and U+0130, which becomes 'i' followed by U+0307. None of mp3, wav, ogg, flac, m4a or aac contains 'k' or 'i'.
- The HTTP routes and handlers are not modelled: api, admin and ui routes, templates, and the files service. `run_server` is not modelled either.
