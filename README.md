# Standee-Server settings store, in Dafny

A model of the state behind the Flask server of a kiosk greeting device
(`app.py`). The server keeps six setting files under `settings/`
(`greeting.txt`, `mode.txt`, `audio_mode.txt`, `background_music_flag.txt`,
`detection_status.txt`, `latest_message.txt`), two asset directories
(`greeting_audio/`, `background_music/`) and one process-lifetime flag,
`should_start`. Each HTTP route checks its input and then overwrites one
file or the flag, or only reads.

- `text.dfy` (module `Text`): Python's `str.strip()` (with the exact set of
  characters `str.isspace()` accepts), the universal-newline translation of a
  text-mode read, and the lower-casing used by two checks.
- `store.dfy` (module `Store`): the state as a value (`State`: the setting
  files as a map whose keys are the files that exist, the two directories as
  maps from name to bytes, the flag); every write route as a `Write` request
  and `Apply`, which gives the new state and the status code; `Run` for a
  sequence of writes; `Initialized`/`Booted` for start-up; and the read routes
  `CheckStart`, `GetMessage`, `GetMode`, `GetBgMusic`, `GetGreetingMp3`,
  `PlayTts`, `GetDetectionStatus` and `SyncFiles` as functions of the state,
  with `ReadFile` for `read_file` and `ReadStripped` for every read of a
  setting file.
- `app.dfy` (module `App`): the running server as a class, `App.Server`, whose
  fields are the files, the directories and the flag. The constructor runs the
  start-up loop (`CreateMissingFiles`); each write route is a method that
  changes the fields in place, and its contract ties the new state and the
  status code to `Store.Apply`. `Valid()` (every setting file exists) holds
  from start-up on. The read routes are the `Store` functions applied to
  `Current()`.
- `properties.dfy` (module `Properties`): the lemmas.

The main consequence proved: start-up creates every missing setting file
empty, and no route deletes one, so the defaults of `read_file` in
`/play-tts`, `/detection-status` and `/sync-files` can never be returned,
and `/get-mode` and `/get-bg-music` can never answer 404. No route writes
`greeting.txt` or `audio_mode.txt`, so a missing `greeting.txt` reads as
`""`, not `Hello! Welcome.`, for the life of the process.

Behaviour of the code worth knowing, which the model keeps:
- No route checks `mode` against `tts`/`mp3`: `/set-mode` stores any
  non-blank text (`SetModeHasNoEnumCheck`).
- There is no route that writes `audio_mode.txt` (no `/set-audio-mode`) and
  none that writes `greeting.txt`.
- `/sync-files` takes `message` from `greeting.txt`, not from
  `latest_message.txt`, so `/set-message` never shows in it.
- The named uploads reject a missing file part or an empty file name, not an
  empty payload; an empty file with a name is saved.
- `/start-bg-music` stores the stripped body as the flag without normalising
  it to `true`/`false`; only `/background-music-flag` normalises.
- Setting files are read in text mode, so a carriage return stored by
  `/set-message`, `/set-mode` or `/start-bg-music` reads back as a line feed:
  a message `a\rb` is answered as `a\nb` (`CarriageReturnReadsAsNewline`).

## Model

| member | source | states |
|---|---|---|
| `Text.Strip` | app.py:76 | the result is empty exactly when the input is all whitespace, and otherwise starts and ends with a non-whitespace character |
| `Text.StripIgnoresPadding` | app.py:43 | whitespace added before or after a string does not change its stripped form |
| `Text.StripKeepsTrimmed` | app.py:43 | a string with no whitespace at either end is unchanged by stripping |
| `Text.StripIdempotent` | app.py:76-88 | stripping twice (once on write, once on read) gives what stripping once gives |
| `Text.UniversalNewlines` | app.py:43 | a text-mode read leaves no carriage return, and changes nothing in text that has none |
| `Text.NewlinesKeepTrimmed` | app.py:43 | text stored stripped is still stripped after the newline translation, so reading it back and stripping again gives just the translation |
| `Text.Mp3SuffixIsCaseInsensitive` | app.py:171 | a name passes the `.mp3` check exactly when its last four characters are `.`, `m`/`M`, `p`/`P`, `3` |
| `Text.HasMp3Suffix` | app.py:171 | definition of `name.lower().endswith('.mp3')`; characterised by `Mp3SuffixIsCaseInsensitive` |
| `Store.ReadStripped` | app.py:43 | reading a setting file gives a stripped string with no carriage return, and exactly `strip()` of the contents when they hold no carriage return |
| `Store.ReadFile` | app.py:42-43 | `read_file` returns the default exactly for a missing file, and otherwise the file read and stripped |
| `Store.SaveNamed` | app.py:116-122 | a named upload answers 400 exactly when there is no file part or its name is empty, 500 exactly when the sanitised name is not a plain file name, and 200 otherwise; on 200 the bytes are saved under the sanitised name; otherwise the directory is unchanged |
| `Store.SaysTrue` | app.py:157 | definition of `str(enabled).lower() == "true"`; characterised by `SaysTrueIsCaseInsensitive` |
| `Store.FlagText` | app.py:156-158 | the toggle has a flag to write exactly when the body is a JSON object, and the flag is `true` or `false` |
| `Store.Apply` | app.py:57-182 | every write route answers 200, 400 or 500, and one that does not answer 200 writes nothing |
| `Store.Initialized` | app.py:32-35 | after the start-up loop every setting file exists; one that was missing is empty, one that existed keeps its contents |
| `Store.Booted` | app.py:28-55 | a freshly started process has every setting file, the directories as they were, and `should_start` false |
| `Store.CheckStart` | app.py:63-66 | definition of `/check-start`; specified by `StartIsLatch` and `DefaultsUnreachableAfterBoot` |
| `Store.GetMessage` | app.py:84-92 | `/get-message` answers a stripped string, and `""` when the file is missing |
| `Store.GetMode` | app.py:105-112 | `/get-mode` answers 200 exactly when `mode.txt` exists, with a stripped string, and 404 otherwise |
| `Store.GetBgMusic` | app.py:133-141 | `/get-bg-music` answers 200 exactly when the flag file exists, with a stripped string, and 404 otherwise |
| `Store.GetGreetingMp3` | app.py:184-192 | a fetch succeeds exactly for a plain name that is stored, with the stored bytes; a plain name that is not stored is 404, and `.` and `..` are 500 |
| `Store.PlayTts` | app.py:202-205 | `/play-tts` answers a stripped string, and `Hello! Welcome.` when `greeting.txt` is missing |
| `Store.GetDetectionStatus` | app.py:207-209 | `/detection-status` answers a stripped string, and `off` when the file is missing |
| `Store.SyncFiles` | app.py:211-219 | definition of the `/sync-files` snapshot; specified by `SyncAgreesWithRoutes` |
| `App.CreateMissingFiles` | app.py:33-35 | the start-up loop over the six files produces exactly `Initialized(disk)` |
| `App.Server.Boot` | app.py:28-55 | a new process has every setting file, the directories as they were on disk, and `should_start` false |
| `App.Server.WriteFile` | app.py:38-40 | `write_file` replaces the whole contents of one setting file and changes nothing else |
| `App.Server.Start` | app.py:57-61 | `/start` sets the flag and answers 200, as `Apply` of `Start` |
| `App.Server.Stop` | app.py:68-71 | `/stop` writes `off` to the detection status, as `Apply` of `Stop` |
| `App.Server.SetMessage` | app.py:73-82 | `/set-message` answers 400 for a blank body, else stores the stripped body, as `Apply` of `SetMessage` |
| `App.Server.SetMode` | app.py:94-103 | `/set-mode` answers 400 for a blank body, else stores the stripped body, as `Apply` of `SetMode` |
| `App.Server.UploadAudio` | app.py:114-122 | `/upload-audio` saves under the sanitised name in the greeting directory, as `Apply` of `UploadAudio` |
| `App.Server.StartBgMusic` | app.py:124-131 | `/start-bg-music` stores the stripped body as the flag file, as `Apply` of `StartBgMusic` |
| `App.Server.UploadBackground` | app.py:143-151 | `/upload-background` saves under the sanitised name in the music directory, as `Apply` of `UploadBackground` |
| `App.Server.ToggleBackgroundMusic` | app.py:153-161 | `/background-music-flag` writes `true` or `false`, or answers 500, as `Apply` of `ToggleBackgroundMusic` |
| `App.Server.UploadGreetingMp3` | app.py:163-182 | `/upload-greeting-mp3` applies the three 400 checks and saves under the fixed name, as `Apply` of `UploadGreetingMp3` |
| `Properties.ReadBackStored` | app.py:38-43 | a body stored stripped reads back as its newline translation, and exactly as stored when it has no carriage return |
| `Properties.InitializationIdempotent` | app.py:32-35 | running the start-up loop over what a previous run left changes no file |
| `Properties.RestartOnlyClearsFlag` | app.py:54-55 | once every file exists, a restart loses the start flag and nothing else |
| `Properties.ApplyFrame` | app.py:68-182 | each write route changes at most its own setting file; no route targets `greeting.txt` or `audio_mode.txt`; every file that existed still exists |
| `Properties.ApplyTouches` | app.py:57-182 | only the uploads change an asset directory, each its own, and only `/start` changes the start flag, which it sets |
| `Properties.SetMessageThenGetMessage` | app.py:73-92 | `/set-message` answers 400 exactly for a blank body and then writes nothing; otherwise `/get-message` returns the stripped body with line breaks read back as `\n`, which is the stripped body itself when it has no carriage return |
| `Properties.CarriageReturnReadsAsNewline` | app.py:73-92 | a message `a\rb` is accepted and `/get-message` answers `a\nb` |
| `Properties.SetModeThenGetMode` | app.py:94-112 | `/set-mode` answers 400 exactly for a blank body and then writes nothing; otherwise `/get-mode` returns the stripped body with line breaks read back as `\n` |
| `Properties.SetModeHasNoEnumCheck` | app.py:97-101 | a mode outside `tts`/`mp3` is accepted and read back |
| `Properties.SaysTrueIsCaseInsensitive` | app.py:157 | `str(enabled).lower() == "true"` holds exactly for the boolean `True` and for the four-letter strings `t`/`T`, `r`/`R`, `u`/`U`, `e`/`E` |
| `Properties.SaysTrueExamples` | app.py:157 | `True`, `TRUE` and `tRuE` count as enabled; `False`, `" true"`, `yes` and numbers do not |
| `Properties.FlagTextFollowsEnabled` | app.py:156-158 | the toggle writes `true` exactly when the `enabled` key is present and says true; a missing key writes `false` |
| `Properties.ToggleWritesTrueOrFalse` | app.py:153-161 | `/background-music-flag` writes exactly `true` or `false`, `true` exactly when `str(enabled).lower()` is `true`, `false` for a missing key; a non-object body answers 500 and writes nothing; `/get-bg-music` returns the word written |
| `Properties.StartBgMusicStoresAnyText` | app.py:124-141 | `/start-bg-music` always answers 200 and `/get-bg-music` then returns the stripped body, whatever it is, with line breaks read back as `\n` |
| `Properties.StopThenDetectionStatus` | app.py:68-71 | after `/stop`, `/detection-status` answers `off` |
| `Properties.StartIsLatch` | app.py:55-66 | `/start` makes `/check-start` true, and a second `/start` changes nothing |
| `Properties.UploadGreetingMp3Gate` | app.py:163-189 | the upload answers 400 exactly for no file part, an empty name, or a name not ending in `.mp3` in any case, and then writes nothing; otherwise the fixed name serves the new bytes and every other name is unchanged |
| `Properties.Mp3SuffixExamples` | app.py:171 | which file names pass the case-insensitive `.mp3` check |
| `Properties.LastGreetingUploadWins` | app.py:173-174 | after two accepted greeting uploads the fixed name serves the second |
| `Properties.NeverStoredIsNotFound` | app.py:184-189 | a plain name that was never saved answers 404 |
| `Properties.UploadAudioStoresUnderSanitizedName` | app.py:114-122 | always 200, 400 or 500: 400 exactly for no file or an empty name, 500 exactly when the sanitised name is not a plain file name, no write unless 200, and on 200 only the sanitised name changes and serves the bytes |
| `Properties.UploadBackgroundStoresUnderSanitizedName` | app.py:143-151 | the same for the background directory, which leaves the greeting directory alone |
| `Properties.SyncIgnoresSetMessage` | app.py:211-219 | `/sync-files` takes `message` from `greeting.txt`: it equals `/play-tts` and `/set-message` never changes the snapshot |
| `Properties.SyncAgreesWithRoutes` | app.py:211-219 | each field of the snapshot is what the single-file route answers, where it answers 200, and `tts`/`false` where `/get-mode`/`/get-bg-music` would answer 404 |
| `Properties.SyncAfterOneWrite` | app.py:211-219 | after `/stop`, `/set-mode` or `/start-bg-music`, only the matching field of the snapshot changes, to what the written text reads back as |
| `Properties.ThreeWritesFiles` | app.py:68-131 | after `/stop`, an accepted `/set-mode` and `/start-bg-music`, the three files hold `off`, the stripped mode and the stripped flag, and the others are as before |
| `Properties.SyncAfterThreeFiles` | app.py:211-219 | once those three files are overwritten, the snapshot shows what each reads back as, with `message` and `audio_mode` as before |
| `Properties.SyncAfterWrites` | app.py:211-219 | the snapshot after `/stop`, `/set-mode` and `/start-bg-music` holds `off`, the stripped mode and the stripped flag (line breaks read back as `\n`), with the other fields as before |
| `Properties.RunFrame` | app.py:68-182 | over any sequence of writes, `greeting.txt` and `audio_mode.txt` keep what they held, files that existed still exist, and the start flag is set exactly when it was set or some write was `/start` |
| `Properties.ReadsIgnoreDefaults` | app.py:202-219 | once every setting file exists, every `read_file` result is independent of its default and `/get-mode`, `/get-bg-music` answer 200 |
| `Properties.ServerReadsIgnoreDefaults` | app.py:202-219 | the same for the running server, whose every setting file exists from start-up on |
| `Properties.DefaultsUnreachableAfterBoot` | app.py:202-219 | after start-up and any writes, every `read_file` result is independent of its default, `/get-mode` and `/get-bg-music` never answer 404, a `greeting.txt` or `audio_mode.txt` missing at start-up reads as `""`, and `/check-start` is true exactly when `/start` was called |

## Left out

- Flask routing, JSON shaping, CORS, logging, the `/` route and the `/next`
  and `/previous` acknowledgements, which touch no state. Only status codes
  and the values read are kept.
- Real file-system I/O and directory creation: files and directories are
  maps. Writes store the text as given, as text-mode writes do on POSIX,
  where `\n` is the line separator; reads apply the universal-newline
  translation. A read or write failure of the medium, which the handlers turn into
  500, is not modelled; the 500 answers that follow deterministically from
  the inputs are (a body that is not a JSON object, a save to a name that
  names a directory, a fetch of `.` or `..`).
- UTF-8 decoding of request bodies and JSON parsing: inputs arrive decoded
  (`body: string`, `json: Option<Json>` with `None` for a body that is not JSON).
- werkzeug's `secure_filename` is the uninterpreted `sanitize` parameter; a
  sanitised name containing `/` is modelled as a failing save, which
  `secure_filename` never produces.
- `send_file`: `/get-greeting-mp3` returns the stored bytes.
- Python's `lower()` beyond ASCII letters: both comparisons are against ASCII
  constants that no other character lower-cases into.
- Concurrency between requests: the model is sequential, one route at a time.
