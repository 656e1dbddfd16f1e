/** The Flask application of app.py as one object: the setting files and the
    two asset directories it writes in place, and the module-level
    `should_start` flag. Each write route is a method that checks its input
    and then overwrites one file or the flag; its contract ties the new
    state to `Store.Apply`. The read routes are the functions of `Store`
    applied to `Current()`. */
module App {
  import opened Text
  import opened Store

  /** The loop that runs when app.py is imported: every setting file that
      does not exist is created empty, and every file that does exist is
      left as it is. */
  method CreateMissingFiles(disk: Files) returns (files: Files)
    ensures files == Initialized(disk)
  {
    files := disk;
    var i := 0;
    while i < |AllSettings|
      invariant 0 <= i <= |AllSettings|
      invariant forall s :: s in disk ==> s in files && files[s] == disk[s]
      invariant forall s :: s in files && s !in disk ==> files[s] == ""
      invariant forall j :: 0 <= j < i ==> AllSettings[j] in files
    {
      var f := AllSettings[i];
      if f !in files {
        files := files[f := ""];
      }
      i := i + 1;
    }
    EverySettingListed();
  }

  class Server {
    var files: Files
    var greetingAudio: Bucket
    var backgroundMusic: Bucket
    var shouldStart: bool
    /** werkzeug's `secure_filename`, a library function this model does not look into. */
    const sanitize: string -> string

    /** After start-up every setting file exists. */
    ghost predicate Valid()
      reads this
    {
      AllExist(files)
    }

    /** The state the read routes see. */
    function Current(): State
      reads this
    {
      State(files, greetingAudio, backgroundMusic, shouldStart)
    }

    /** Importing app.py over what is already on disk: the directories exist,
        the missing setting files are created empty, and `should_start` is
        false. */
    constructor Boot(disk: Files, greeting: Bucket, background: Bucket, sanitize: string -> string)
      ensures Valid()
      ensures Current() == Booted(disk, greeting, background)
      ensures this.sanitize == sanitize
    {
      var created := CreateMissingFiles(disk);
      files := created;
      greetingAudio := greeting;
      backgroundMusic := background;
      shouldStart := false;
      this.sanitize := sanitize;
    }

    /** `write_file` and `Path.write_text`: replace the whole contents of one
        setting file, creating it if it is missing. */
    method WriteFile(s: Setting, data: string)
      requires Valid()
      modifies this
      ensures Valid()
      ensures files == old(files)[s := data]
      ensures greetingAudio == old(greetingAudio) && backgroundMusic == old(backgroundMusic)
      ensures shouldStart == old(shouldStart)
    {
      files := files[s := data];
    }

    /** POST /start */
    method Start() returns (status: int)
      requires Valid()
      modifies this
      ensures Valid()
      ensures Outcome(Current(), status) == Apply(old(Current()), Write.Start, sanitize)
    {
      shouldStart := true;
      status := 200;
    }

    /** POST /stop */
    method Stop() returns (status: int)
      requires Valid()
      modifies this
      ensures Valid()
      ensures Outcome(Current(), status) == Apply(old(Current()), Write.Stop, sanitize)
    {
      WriteFile(DetectionStatus, "off");
      status := 200;
    }

    /** POST /set-message */
    method SetMessage(body: string) returns (status: int)
      requires Valid()
      modifies this
      ensures Valid()
      ensures Outcome(Current(), status) == Apply(old(Current()), Write.SetMessage(body), sanitize)
    {
      var msg := Strip(body);
      if msg == "" {
        return 400;
      }
      WriteFile(LatestMessage, msg);
      status := 200;
    }

    /** POST /set-mode */
    method SetMode(body: string) returns (status: int)
      requires Valid()
      modifies this
      ensures Valid()
      ensures Outcome(Current(), status) == Apply(old(Current()), Write.SetMode(body), sanitize)
    {
      var mode := Strip(body);
      if mode == "" {
        return 400;
      }
      WriteFile(Mode, mode);
      status := 200;
    }

    /** POST /upload-audio */
    method UploadAudio(file: Option<Upload>) returns (status: int)
      requires Valid()
      modifies this
      ensures Valid()
      ensures Outcome(Current(), status) == Apply(old(Current()), Write.UploadAudio(file), sanitize)
    {
      if file.None? || file.value.filename == "" {
        return 400;
      }
      var name := sanitize(file.value.filename);
      if !IsPlainName(name) {
        return 500;
      }
      greetingAudio := greetingAudio[name := file.value.content];
      status := 200;
    }

    /** POST /start-bg-music */
    method StartBgMusic(body: string) returns (status: int)
      requires Valid()
      modifies this
      ensures Valid()
      ensures Outcome(Current(), status) == Apply(old(Current()), Write.StartBgMusic(body), sanitize)
    {
      var mode := Strip(body);
      WriteFile(BackgroundMusicFlag, mode);
      status := 200;
    }

    /** POST /upload-background */
    method UploadBackground(file: Option<Upload>) returns (status: int)
      requires Valid()
      modifies this
      ensures Valid()
      ensures Outcome(Current(), status) == Apply(old(Current()), Write.UploadBackground(file), sanitize)
    {
      if file.None? || file.value.filename == "" {
        return 400;
      }
      var name := sanitize(file.value.filename);
      if !IsPlainName(name) {
        return 500;
      }
      backgroundMusic := backgroundMusic[name := file.value.content];
      status := 200;
    }

    /** POST /background-music-flag */
    method ToggleBackgroundMusic(json: Option<Json>) returns (status: int)
      requires Valid()
      modifies this
      ensures Valid()
      ensures Outcome(Current(), status) == Apply(old(Current()), Write.ToggleBackgroundMusic(json), sanitize)
    {
      if !(json.Some? && json.value.JObject?) {
        return 500;
      }
      var fields := json.value.fields;
      var enabled := if "enabled" in fields then fields["enabled"] else JString("false");
      WriteFile(BackgroundMusicFlag, if SaysTrue(enabled) then "true" else "false");
      status := 200;
    }

    /** POST /upload-greeting-mp3 */
    method UploadGreetingMp3(file: Option<Upload>) returns (status: int)
      requires Valid()
      modifies this
      ensures Valid()
      ensures Outcome(Current(), status) == Apply(old(Current()), Write.UploadGreetingMp3(file), sanitize)
    {
      if file.None? {
        return 400;
      }
      if file.value.filename == "" {
        return 400;
      }
      if !HasMp3Suffix(file.value.filename) {
        return 400;
      }
      greetingAudio := greetingAudio[FixedGreetingName := file.value.content];
      status := 200;
    }
  }
}
