/** The state behind the Flask handlers of app.py, as values: six setting
    files under the settings directory, two asset directories and the
    process-lifetime start flag. Every route that writes is one `Write`
    request and `Apply` gives the state and status code it leaves; every
    route that only reads is a function of the state. */
module Store {
  import opened Text

  datatype Option<T> = None | Some(value: T)

  /** One byte of an uploaded file. */
  newtype Byte = b: int | 0 <= b < 256

  type Bytes = seq<Byte>

  /** The six setting files, in the order app.py creates them. */
  datatype Setting =
    | Greeting             // greeting.txt
    | Mode                 // mode.txt
    | AudioMode            // audio_mode.txt
    | BackgroundMusicFlag  // background_music_flag.txt
    | DetectionStatus      // detection_status.txt
    | LatestMessage        // latest_message.txt

  const AllSettings: seq<Setting> :=
    [Greeting, Mode, AudioMode, BackgroundMusicFlag, DetectionStatus, LatestMessage]

  /** The start-up loop's list names every setting. */
  lemma EverySettingListed()
    ensures forall s: Setting :: s in AllSettings
  {
    forall s: Setting ensures s in AllSettings {
      match s
      case Greeting => assert AllSettings[0] == s;
      case Mode => assert AllSettings[1] == s;
      case AudioMode => assert AllSettings[2] == s;
      case BackgroundMusicFlag => assert AllSettings[3] == s;
      case DetectionStatus => assert AllSettings[4] == s;
      case LatestMessage => assert AllSettings[5] == s;
    }
  }

  /** The setting files on disk: a setting is a key exactly when its file exists. */
  type Files = map<Setting, string>

  /** An asset directory: file name to contents. */
  type Bucket = map<string, Bytes>

  /** Every setting file exists, though possibly empty. */
  ghost predicate AllExist(files: Files) {
    forall s: Setting :: s in files
  }

  /** Everything the handlers read or write. */
  datatype State = State(
    files: Files,
    greetingAudio: Bucket,      // settings/greeting_audio
    backgroundMusic: Bucket,    // settings/background_music
    shouldStart: bool)

  /** The file part of a multipart upload: the client's file name and the bytes. */
  datatype Upload = Upload(filename: string, content: Bytes)

  /** A JSON body as Python's `json` module decodes it. */
  datatype Json =
    | JNull
    | JBool(b: bool)
    | JNumber(text: string)
    | JString(s: string)
    | JArray(items: seq<Json>)
    | JObject(fields: map<string, Json>)

  /** The routes that write, with their already-decoded inputs. */
  datatype Write =
    | Start                                     // POST /start
    | Stop                                      // POST /stop
    | SetMessage(body: string)                  // POST /set-message
    | SetMode(body: string)                     // POST /set-mode
    | UploadAudio(file: Option<Upload>)         // POST /upload-audio
    | StartBgMusic(body: string)                // POST /start-bg-music
    | UploadBackground(file: Option<Upload>)    // POST /upload-background
    | ToggleBackgroundMusic(json: Option<Json>) // POST /background-music-flag (None: not JSON)
    | UploadGreetingMp3(file: Option<Upload>)   // POST /upload-greeting-mp3

  /** The new state and the HTTP status code a write route answers with. */
  datatype Outcome = Outcome(state: State, status: int)

  /** What a read route answers: a value, or an error status code. */
  datatype Reply<T> = Ok(value: T) | Err(status: int)

  /** The one name every accepted `/upload-greeting-mp3` upload is saved under. */
  const FixedGreetingName := "greetingaudio.mp3"

  /** A name that `directory / name` turns into a file directly inside the
      directory. The empty name, `.` and `..` name a directory, and a name
      with a separator names a file in a sub-directory, which does not exist. */
  predicate IsPlainName(name: string) {
    name != "" && name != "." && name != ".." && '/' !in name
  }

  /** `open(path).read().strip()` and `path.read_text().strip()`: the file is
      read in text mode, so line breaks come back as `\n`, and then stripped.
      Text without a carriage return reads back as its `strip()`. */
  function ReadStripped(contents: string): (r: string)
    ensures IsTrimmed(r) && '\r' !in r
    ensures '\r' !in contents ==> r == Strip(contents)
  {
    var text := UniversalNewlines(contents);
    StripKeepsOut(text, '\r');
    Strip(text)
  }

  /** `read_file(path, default)`: the file read and stripped, or the default
      when the file does not exist. */
  function ReadFile(files: Files, s: Setting, default: string): (r: string)
    ensures s in files ==> IsTrimmed(r) && ('\r' !in files[s] ==> r == Strip(files[s]))
    ensures s !in files ==> r == default
  {
    if s in files then ReadStripped(files[s]) else default
  }

  /** `file.save(directory / secure_filename(file.filename))` behind `if file:`
      in `/upload-audio` and `/upload-background`. A FileStorage is false when
      its file name is empty, so both a missing file part and an empty name
      answer 400. Saving to a name that is not a plain file name raises, which
      the handler does not catch: 500. */
  function SaveNamed(bucket: Bucket, sanitize: string -> string, file: Option<Upload>): (r: (Bucket, int))
    ensures r.1 == 200 ==> file.Some? && r.0 == bucket[sanitize(file.value.filename) := file.value.content]
    ensures r.1 != 200 ==> r.0 == bucket
    ensures r.1 == 400 <==> file.None? || file.value.filename == ""
    ensures r.1 == 500 <==> file.Some? && file.value.filename != "" && !IsPlainName(sanitize(file.value.filename))
    ensures r.1 in {200, 400, 500}
  {
    if file.Some? && file.value.filename != "" then
      var name := sanitize(file.value.filename);
      if IsPlainName(name) then (bucket[name := file.value.content], 200) else (bucket, 500)
    else
      (bucket, 400)
  }

  /** Whether `str(v).lower() == "true"` in Python. `str` gives `True` and
      `False` for booleans and the string itself for a string; for `None`,
      a number, a list or a dict it gives `None`, digits, or text that starts
      with a bracket, none of which lower-cases to `true`. */
  predicate SaysTrue(v: Json) {
    match v
    case JBool(b) => b
    case JString(s) => AsciiLower(s) == "true"
    case _ => false
  }

  /** The text `/background-music-flag` writes, or None when the handler fails:
      the body is not JSON, or it is JSON that has no `.get` (not an object). */
  function FlagText(json: Option<Json>): (r: Option<string>)
    ensures r.Some? <==> json.Some? && json.value.JObject?
    ensures r.Some? ==> r.value == "true" || r.value == "false"
  {
    match json
    case Some(JObject(fields)) =>
      var enabled := if "enabled" in fields then fields["enabled"] else JString("false");
      Some(if SaysTrue(enabled) then "true" else "false")
    case _ => None
  }

  /** What one write route does to the state, and the status code it answers. */
  function Apply(st: State, w: Write, sanitize: string -> string): (o: Outcome)
    ensures o.status in {200, 400, 500}
    ensures o.status != 200 ==> o.state == st
  {
    match w
    case Start =>
      Outcome(st.(shouldStart := true), 200)
    case Stop =>
      Outcome(st.(files := st.files[DetectionStatus := "off"]), 200)
    case SetMessage(body) =>
      var msg := Strip(body);
      if msg == "" then Outcome(st, 400)
      else Outcome(st.(files := st.files[LatestMessage := msg]), 200)
    case SetMode(body) =>
      var mode := Strip(body);
      if mode == "" then Outcome(st, 400)
      else Outcome(st.(files := st.files[Mode := mode]), 200)
    case UploadAudio(file) =>
      var (bucket, status) := SaveNamed(st.greetingAudio, sanitize, file);
      Outcome(st.(greetingAudio := bucket), status)
    case StartBgMusic(body) =>
      Outcome(st.(files := st.files[BackgroundMusicFlag := Strip(body)]), 200)
    case UploadBackground(file) =>
      var (bucket, status) := SaveNamed(st.backgroundMusic, sanitize, file);
      Outcome(st.(backgroundMusic := bucket), status)
    case ToggleBackgroundMusic(json) =>
      var flag := FlagText(json);
      if flag.None? then Outcome(st, 500)
      else Outcome(st.(files := st.files[BackgroundMusicFlag := flag.value]), 200)
    case UploadGreetingMp3(file) =>
      if file.None? || file.value.filename == "" || !HasMp3Suffix(file.value.filename) then
        Outcome(st, 400)
      else
        Outcome(st.(greetingAudio := st.greetingAudio[FixedGreetingName := file.value.content]), 200)
  }

  /** The state after a sequence of write routes; read routes leave it alone. */
  function Run(st: State, ws: seq<Write>, sanitize: string -> string): State
    decreases |ws|
  {
    if ws == [] then st else Run(Apply(st, ws[0], sanitize).state, ws[1..], sanitize)
  }

  /** The setting files after the start-up loop: a file that was missing now
      exists and is empty, and a file that existed keeps its contents. */
  function Initialized(disk: Files): (files: Files)
    ensures AllExist(files)
    ensures forall s :: s in disk ==> files[s] == disk[s]
    ensures forall s :: s !in disk ==> files[s] == ""
  {
    EverySettingListed();
    map s | s in AllSettings :: if s in disk then disk[s] else ""
  }

  /** The state of a freshly started process over what is on disk: the start
      flag is false and the asset directories hold what they held. */
  function Booted(disk: Files, greetingAudio: Bucket, backgroundMusic: Bucket): (st: State)
    ensures AllExist(st.files) && !st.shouldStart
    ensures st.greetingAudio == greetingAudio && st.backgroundMusic == backgroundMusic
  {
    State(Initialized(disk), greetingAudio, backgroundMusic, false)
  }

  // The read routes.

  /** GET /check-start */
  function CheckStart(st: State): bool {
    st.shouldStart
  }

  /** GET /get-message: the stripped message, or "" when the file is missing. */
  function GetMessage(st: State): (r: string)
    ensures IsTrimmed(r)
    ensures LatestMessage !in st.files ==> r == ""
  {
    ReadFile(st.files, LatestMessage, "")
  }

  /** GET /get-mode: the stripped mode, or 404 when the file is missing. */
  function GetMode(st: State): (r: Reply<string>)
    ensures r.Ok? <==> Mode in st.files
    ensures r.Ok? ==> IsTrimmed(r.value)
    ensures r.Err? ==> r.status == 404
  {
    if Mode in st.files then Ok(ReadStripped(st.files[Mode])) else Err(404)
  }

  /** GET /get-bg-music: the stripped flag, or 404 when the file is missing. */
  function GetBgMusic(st: State): (r: Reply<string>)
    ensures r.Ok? <==> BackgroundMusicFlag in st.files
    ensures r.Ok? ==> IsTrimmed(r.value)
    ensures r.Err? ==> r.status == 404
  {
    if BackgroundMusicFlag in st.files then Ok(ReadStripped(st.files[BackgroundMusicFlag])) else Err(404)
  }

  /** GET /get-greeting-mp3/<name>. Flask hands over one non-empty path
      segment. `.` and `..` name existing directories, which pass the
      existence check and then cannot be sent: 500. */
  function GetGreetingMp3(st: State, name: string): (r: Reply<Bytes>)
    requires name != "" && '/' !in name
    ensures r.Ok? <==> IsPlainName(name) && name in st.greetingAudio
    ensures r.Ok? ==> r.value == st.greetingAudio[name]
    ensures r.Err? ==> r.status == (if IsPlainName(name) then 404 else 500)
  {
    if name == "." || name == ".." then Err(500)
    else if name in st.greetingAudio then Ok(st.greetingAudio[name])
    else Err(404)
  }

  /** POST /play-tts */
  function PlayTts(st: State): (r: string)
    ensures IsTrimmed(r)
    ensures Greeting !in st.files ==> r == "Hello! Welcome."
  {
    ReadFile(st.files, Greeting, "Hello! Welcome.")
  }

  /** GET /detection-status */
  function GetDetectionStatus(st: State): (r: string)
    ensures IsTrimmed(r)
    ensures DetectionStatus !in st.files ==> r == "off"
  {
    ReadFile(st.files, DetectionStatus, "off")
  }

  /** The body of GET /sync-files. */
  datatype Sync = Sync(
    detectionStatus: string,
    message: string,
    mode: string,
    audioMode: string,
    backgroundMusicFlag: string)

  /** GET /sync-files: five independent reads, each with its own default. */
  function SyncFiles(st: State): Sync
  {
    Sync(
      ReadFile(st.files, DetectionStatus, "off"),
      ReadFile(st.files, Greeting, "Hello! Welcome."),
      ReadFile(st.files, Mode, "tts"),
      ReadFile(st.files, AudioMode, "wired"),
      ReadFile(st.files, BackgroundMusicFlag, "false"))
  }
}
