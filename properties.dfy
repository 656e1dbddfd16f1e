/** What the routes of app.py promise about each other: write-then-read round
    trips, which file each write may touch, the start latch, and what
    start-up implies for the read routes' defaults. */
module Properties {
  import opened Text
  import opened Store
  import opened App

  /** The setting file a write route may overwrite, if any. */
  function Target(w: Write): Option<Setting> {
    match w
    case Stop => Some(DetectionStatus)
    case SetMessage(_) => Some(LatestMessage)
    case SetMode(_) => Some(Mode)
    case StartBgMusic(_) => Some(BackgroundMusicFlag)
    case ToggleBackgroundMusic(_) => Some(BackgroundMusicFlag)
    case _ => None
  }

  /** Setting `s` exists in `after` exactly when it existed in `before`, with the same contents. */
  ghost predicate SameFile(before: Files, after: Files, s: Setting) {
    (s in after <==> s in before) && (s in before ==> after[s] == before[s])
  }

  /** A body a handler stored stripped reads back as its newline translation,
      and exactly as stored when it has no carriage return. */
  lemma ReadBackStored(body: string)
    ensures ReadStripped(Strip(body)) == UniversalNewlines(Strip(body))
    ensures '\r' !in body ==> ReadStripped(Strip(body)) == Strip(body)
  {
    NewlinesKeepTrimmed(Strip(body));
    if '\r' !in body {
      StripKeepsOut(body, '\r');
    }
  }

  /** A trimmed word with no carriage return reads back exactly as written. */
  lemma ReadBackWord(word: string)
    requires IsTrimmed(word) && '\r' !in word
    ensures ReadStripped(word) == word
  {
    StripKeepsTrimmed(word);
  }

  /** The words /background-music-flag writes read back unchanged. */
  lemma FlagWordsReadBack()
    ensures ReadStripped("true") == "true" && ReadStripped("false") == "false"
  {
    TrueReadsBack();
    FalseReadsBack();
  }

  lemma TrueReadsBack()
    ensures ReadStripped("true") == "true"
  {
    ReadBackWord("true");
  }

  lemma FalseReadsBack()
    ensures ReadStripped("false") == "false"
  {
    ReadBackWord("false");
  }

  /** The word /stop writes reads back unchanged. */
  lemma OffReadsBack()
    ensures ReadStripped("off") == "off"
  {
    ReadBackWord("off");
  }

  // Start-up and restart.

  /** Starting the process again over the files the last run left changes
      no setting file. */
  lemma InitializationIdempotent(disk: Files)
    ensures Initialized(Initialized(disk)) == Initialized(disk)
  {
    var once := Initialized(disk);
    assert Initialized(once).Keys == once.Keys;
  }

  /** A restart loses the start flag and nothing else. */
  lemma RestartOnlyClearsFlag(st: State)
    requires AllExist(st.files)
    ensures Booted(st.files, st.greetingAudio, st.backgroundMusic) == st.(shouldStart := false)
  {
    assert Initialized(st.files).Keys == st.files.Keys;
  }

  // One write route.

  /** Each write route overwrites at most its own setting file, and every
      file that existed still exists. No route has greeting.txt or
      audio_mode.txt as its target. */
  lemma ApplyFrame(st: State, w: Write, sanitize: string -> string)
    ensures var after := Apply(st, w, sanitize).state;
      forall s :: Target(w) != Some(s) ==> SameFile(st.files, after.files, s)
    ensures Target(w) != Some(Greeting) && Target(w) != Some(AudioMode)
    ensures AllExist(st.files) ==> AllExist(Apply(st, w, sanitize).state.files)
  {
    var after := Apply(st, w, sanitize).state;
    match w
    case Start =>
    case Stop =>
      assert after.files == st.files[DetectionStatus := "off"];
    case SetMessage(body) =>
      assert after.files == st.files || after.files == st.files[LatestMessage := Strip(body)];
    case SetMode(body) =>
      assert after.files == st.files || after.files == st.files[Mode := Strip(body)];
    case UploadAudio(_) =>
      assert after.files == st.files;
    case StartBgMusic(body) =>
      assert after.files == st.files[BackgroundMusicFlag := Strip(body)];
    case UploadBackground(_) =>
      assert after.files == st.files;
    case ToggleBackgroundMusic(json) =>
      assert after.files == st.files
        || (FlagText(json).Some? && after.files == st.files[BackgroundMusicFlag := FlagText(json).value]);
    case UploadGreetingMp3(_) =>
      assert after.files == st.files;
  }

  /** Only the uploads touch an asset directory, each its own, and only
      /start touches the start flag. */
  lemma ApplyTouches(st: State, w: Write, sanitize: string -> string)
    ensures var after := Apply(st, w, sanitize).state;
      (!w.UploadAudio? && !w.UploadGreetingMp3? ==> after.greetingAudio == st.greetingAudio)
      && (!w.UploadBackground? ==> after.backgroundMusic == st.backgroundMusic)
      && after.shouldStart == (st.shouldStart || w.Start?)
  {
    match w
    case Start =>
    case Stop =>
    case SetMessage(_) =>
    case SetMode(_) =>
    case UploadAudio(_) =>
    case StartBgMusic(_) =>
    case UploadBackground(_) =>
    case ToggleBackgroundMusic(_) =>
    case UploadGreetingMp3(_) =>
  }

  /** POST /set-message: a body that is blank after stripping answers 400 and
      writes nothing; any other body is stored stripped, and GET /get-message
      then returns the stripped body with its line breaks read back as `\n`,
      which is exactly the stripped body when it has no carriage return. */
  lemma SetMessageThenGetMessage(st: State, body: string, sanitize: string -> string)
    ensures var o := Apply(st, Write.SetMessage(body), sanitize);
      (o.status == 400 <==> IsBlank(body))
      && (o.status == 400 ==> o.state == st)
      && (o.status != 400 ==> o.status == 200 && GetMessage(o.state) == UniversalNewlines(Strip(body)))
      && (o.status == 200 && '\r' !in body ==> GetMessage(o.state) == Strip(body))
  {
    ReadBackStored(body);
  }

  /** A carriage return in a message comes back from GET /get-message as a
      line feed, because the file is read in text mode. */
  lemma CarriageReturnReadsAsNewline(st: State, sanitize: string -> string)
    ensures var o := Apply(st, Write.SetMessage("a\rb"), sanitize);
      o.status == 200 && GetMessage(o.state) == "a\nb"
  {
    StripKeepsTrimmed("a\rb");
    assert UniversalNewlines("b") == "b";
    assert UniversalNewlines("\rb") == "\n" + UniversalNewlines("b");
    assert UniversalNewlines("a\rb") == "a" + UniversalNewlines("\rb");
    SetMessageThenGetMessage(st, "a\rb", sanitize);
  }

  /** POST /set-mode: a blank body answers 400 and writes nothing; any other
      body, whatever it says, is stored stripped and GET /get-mode returns it,
      with its line breaks read back as `\n`. */
  lemma SetModeThenGetMode(st: State, body: string, sanitize: string -> string)
    ensures var o := Apply(st, Write.SetMode(body), sanitize);
      (o.status == 400 <==> IsBlank(body))
      && (o.status == 400 ==> o.state == st)
      && (o.status != 400 ==> o.status == 200 && GetMode(o.state) == Ok(UniversalNewlines(Strip(body))))
      && (o.status == 200 && '\r' !in body ==> GetMode(o.state) == Ok(Strip(body)))
  {
    ReadBackStored(body);
  }

  /** No route checks the mode against `tts` and `mp3`: any other word is
      accepted and read back. */
  lemma SetModeHasNoEnumCheck(st: State, sanitize: string -> string)
    ensures var o := Apply(st, Write.SetMode(" karaoke\n"), sanitize);
      o.status == 200 && GetMode(o.state) == Ok("karaoke")
  {
    KaraokeStripped();
    SetModeThenGetMode(st, " karaoke\n", sanitize);
  }

  /** The body used above strips to `karaoke`, which reads back unchanged. */
  lemma KaraokeStripped()
    ensures Strip(" karaoke\n") == "karaoke" && UniversalNewlines("karaoke") == "karaoke"
  {
    assert '\r' !in "karaoke";
    StripKeepsTrimmed("karaoke");
    assert " karaoke\n" == " " + "karaoke" + "\n";
    StripIgnoresPadding(" ", "karaoke", "\n");
  }

  /** `str(enabled).lower() == "true"` holds for the boolean `True` and for
      exactly the strings that spell `true` in any mix of cases. */
  lemma SaysTrueIsCaseInsensitive(v: Json)
    ensures SaysTrue(v) <==>
      v == JBool(true)
      || (v.JString? && |v.s| == 4 && v.s[0] in "tT" && v.s[1] in "rR" && v.s[2] in "uU" && v.s[3] in "eE")
  {
    if v.JString? {
      AsciiLowerEquals(v.s, "true");
    }
  }

  /** Which JSON values switch the background music on. */
  lemma SaysTrueExamples()
    ensures SaysTrue(JBool(true)) && !SaysTrue(JBool(false))
    ensures SaysTrue(JString("TRUE")) && SaysTrue(JString("tRuE"))
    ensures !SaysTrue(JString(" true")) && !SaysTrue(JString("yes")) && !SaysTrue(JNumber("1"))
  {
    SaysTrueIsCaseInsensitive(JString("TRUE"));
    SaysTrueIsCaseInsensitive(JString("tRuE"));
    SaysTrueIsCaseInsensitive(JString(" true"));
    SaysTrueIsCaseInsensitive(JString("yes"));
  }

  /** POST /background-music-flag writes exactly `true` or `false`, `true`
      exactly when `str(enabled).lower()` is `true`, and `false` when the key
      is missing; a body that is not a JSON object answers 500 and writes
      nothing. GET /get-bg-music then returns the written word. */
  lemma ToggleWritesTrueOrFalse(st: State, json: Option<Json>, sanitize: string -> string)
    ensures var o := Apply(st, Write.ToggleBackgroundMusic(json), sanitize);
      (o.status == 200 <==> json.Some? && json.value.JObject?)
      && (o.status != 200 ==> o.status == 500 && o.state == st)
      && (o.status == 200 ==>
            var flag := o.state.files[BackgroundMusicFlag];
            var fields := json.value.fields;
            (flag == "true" || flag == "false")
            && (flag == "true" <==> "enabled" in fields && SaysTrue(fields["enabled"]))
            && GetBgMusic(o.state) == Ok(flag))
  {
    var o := Apply(st, Write.ToggleBackgroundMusic(json), sanitize);
    var f := FlagText(json);
    assert o == if f.None? then Outcome(st, 500)
                else Outcome(st.(files := st.files[BackgroundMusicFlag := f.value]), 200);
    if f.Some? {
      FlagTextFollowsEnabled(json);
      FlagWordsReadBack();
      assert GetBgMusic(o.state) == Ok(ReadStripped(f.value));
    }
  }

  /** The flag text is `true` exactly when the `enabled` key is present and
      says true; a missing key counts as `"false"`. */
  lemma FlagTextFollowsEnabled(json: Option<Json>)
    requires json.Some? && json.value.JObject?
    ensures var fields := json.value.fields;
      FlagText(json).value == "true" <==> "enabled" in fields && SaysTrue(fields["enabled"])
  {
  }

  /** POST /start-bg-music does not normalise: it stores whatever the stripped
      body is, even an empty one, and GET /get-bg-music returns it, with its
      line breaks read back as `\n`. */
  lemma StartBgMusicStoresAnyText(st: State, body: string, sanitize: string -> string)
    ensures var o := Apply(st, Write.StartBgMusic(body), sanitize);
      o.status == 200 && GetBgMusic(o.state) == Ok(UniversalNewlines(Strip(body)))
      && ('\r' !in body ==> GetBgMusic(o.state) == Ok(Strip(body)))
  {
    var o := Apply(st, Write.StartBgMusic(body), sanitize);
    var after := st.(files := st.files[BackgroundMusicFlag := Strip(body)]);
    assert o == Outcome(after, 200);
    assert GetBgMusic(after) == Ok(ReadStripped(Strip(body)));
    ReadBackStored(body);
  }

  /** POST /stop, then GET /detection-status answers `off`. */
  lemma StopThenDetectionStatus(st: State, sanitize: string -> string)
    ensures GetDetectionStatus(Apply(st, Write.Stop, sanitize).state) == "off"
  {
    OffReadsBack();
  }

  /** /start is a latch: it sets the flag, a second /start changes nothing,
      and /check-start is a function of the state, so it cannot clear it. */
  lemma StartIsLatch(st: State, sanitize: string -> string)
    ensures var once := Apply(st, Write.Start, sanitize).state;
      CheckStart(once) && Apply(once, Write.Start, sanitize).state == once
  {
  }

  /** The `.mp3` gate of POST /upload-greeting-mp3: no file part, an empty
      file name or a name that does not end in `.mp3` in any case answers
      400 and writes nothing; otherwise the bytes replace whatever was saved
      under `greetingaudio.mp3`, and GET /get-greeting-mp3 returns them. */
  lemma UploadGreetingMp3Gate(st: State, file: Option<Upload>, sanitize: string -> string)
    ensures var o := Apply(st, Write.UploadGreetingMp3(file), sanitize);
      (o.status == 400 <==> file.None? || file.value.filename == "" || !HasMp3Suffix(file.value.filename))
      && (o.status == 400 ==> o.state == st)
      && (o.status != 400 ==>
            o.status == 200
            && GetGreetingMp3(o.state, FixedGreetingName) == Ok(file.value.content)
            && o.state.greetingAudio == st.greetingAudio[FixedGreetingName := file.value.content])
  {
  }

  /** Which names pass the `.mp3` gate. */
  lemma Mp3SuffixExamples()
    ensures HasMp3Suffix("greeting.MP3") && HasMp3Suffix("song.Mp3") && HasMp3Suffix(".mp3")
    ensures !HasMp3Suffix("song.mp3.wav") && !HasMp3Suffix("mp3") && !HasMp3Suffix("song.wav")
  {
    Mp3SuffixIsCaseInsensitive("greeting.MP3");
    Mp3SuffixIsCaseInsensitive("song.Mp3");
    Mp3SuffixIsCaseInsensitive(".mp3");
    Mp3SuffixIsCaseInsensitive("song.mp3.wav");
    Mp3SuffixIsCaseInsensitive("song.wav");
  }

  /** Two accepted greeting uploads: the last one wins. */
  lemma LastGreetingUploadWins(st: State, a: Upload, b: Upload, sanitize: string -> string)
    requires a.filename != "" && HasMp3Suffix(a.filename)
    requires b.filename != "" && HasMp3Suffix(b.filename)
    ensures var after := Run(st, [Write.UploadGreetingMp3(Some(a)), Write.UploadGreetingMp3(Some(b))], sanitize);
      GetGreetingMp3(after, FixedGreetingName) == Ok(b.content)
  {
    var mid := Apply(st, Write.UploadGreetingMp3(Some(a)), sanitize).state;
    var last := Apply(mid, Write.UploadGreetingMp3(Some(b)), sanitize).state;
    assert Run(st, [Write.UploadGreetingMp3(Some(a)), Write.UploadGreetingMp3(Some(b))], sanitize)
        == Run(mid, [Write.UploadGreetingMp3(Some(b))], sanitize);
    assert Run(mid, [Write.UploadGreetingMp3(Some(b))], sanitize) == Run(last, [], sanitize);
  }

  /** GET /get-greeting-mp3 of a plain name that was never saved answers 404. */
  lemma NeverStoredIsNotFound(st: State, name: string)
    requires IsPlainName(name) && name !in st.greetingAudio
    ensures GetGreetingMp3(st, name) == Err(404)
  {
  }

  /** POST /upload-audio and /upload-background: no file part or an empty file
      name answers 400, a sanitised name that is not a plain file name
      answers 500, and both write nothing; otherwise the bytes are saved under
      the sanitised name (replacing the greeting track if that name is
      `greetingaudio.mp3`), and only that entry of that directory changes. */
  lemma UploadAudioStoresUnderSanitizedName(st: State, file: Option<Upload>, sanitize: string -> string)
    ensures var o := Apply(st, Write.UploadAudio(file), sanitize);
      o.status in {200, 400, 500}
      && (o.status == 400 <==> file.None? || file.value.filename == "")
      && (o.status == 500 <==> file.Some? && file.value.filename != "" && !IsPlainName(sanitize(file.value.filename)))
      && (o.status != 200 ==> o.state == st)
      && (o.status == 200 ==>
            var name := sanitize(file.value.filename);
            GetGreetingMp3(o.state, name) == Ok(file.value.content)
            && o.state.greetingAudio == st.greetingAudio[name := file.value.content])
  {
  }

  /** The background directory takes the same named uploads. */
  lemma UploadBackgroundStoresUnderSanitizedName(st: State, file: Option<Upload>, sanitize: string -> string)
    ensures var o := Apply(st, Write.UploadBackground(file), sanitize);
      o.status in {200, 400, 500}
      && (o.status == 400 <==> file.None? || file.value.filename == "")
      && (o.status == 500 <==> file.Some? && file.value.filename != "" && !IsPlainName(sanitize(file.value.filename)))
      && (o.status != 200 ==> o.state == st)
      && (o.status == 200 ==>
            o.state.backgroundMusic == st.backgroundMusic[sanitize(file.value.filename) := file.value.content]
            && o.state.greetingAudio == st.greetingAudio)
  {
  }

  /** /sync-files takes `message` from greeting.txt, not latest_message.txt:
      POST /set-message never shows in it, and it agrees with /play-tts. */
  lemma SyncIgnoresSetMessage(st: State, body: string, sanitize: string -> string)
    ensures SyncFiles(Apply(st, Write.SetMessage(body), sanitize).state) == SyncFiles(st)
    ensures SyncFiles(st).message == PlayTts(st)
  {
    var after := Apply(st, Write.SetMessage(body), sanitize).state;
    ApplyFrame(st, Write.SetMessage(body), sanitize);
    assert after.files == st.files || after.files == st.files[LatestMessage := Strip(body)];
  }

  /** Each field of the /sync-files snapshot is what the single-file route
      for that file answers, wherever that route answers 200; `message` is
      what /play-tts reads. Where /get-mode or /get-bg-music would answer
      404, the snapshot shows `tts` or `false` instead. */
  lemma SyncAgreesWithRoutes(st: State)
    ensures var r := SyncFiles(st);
      r.detectionStatus == GetDetectionStatus(st) && r.message == PlayTts(st)
      && (if GetMode(st).Ok? then r.mode == GetMode(st).value else r.mode == "tts")
      && (if GetBgMusic(st).Ok? then r.backgroundMusicFlag == GetBgMusic(st).value
          else r.backgroundMusicFlag == "false")
      && (AudioMode !in st.files ==> r.audioMode == "wired")
  {
  }

  /** /sync-files after /stop, /set-mode and /start-bg-music sees each write,
      and the other two fields as they were. */
  lemma SyncAfterWrites(st: State, mode: string, flag: string, sanitize: string -> string)
    requires !IsBlank(mode)
    ensures var after := Run(st, [Write.Stop, Write.SetMode(mode), Write.StartBgMusic(flag)], sanitize);
      SyncFiles(after) == Sync("off", SyncFiles(st).message, UniversalNewlines(Strip(mode)),
                               SyncFiles(st).audioMode, UniversalNewlines(Strip(flag)))
  {
    var after := Run(st, [Write.Stop, Write.SetMode(mode), Write.StartBgMusic(flag)], sanitize);
    ThreeWritesFiles(st, mode, flag, sanitize);
    SyncAfterThreeFiles(st, after, "off", Strip(mode), Strip(flag));
    ReadBackStored(mode);
    ReadBackStored(flag);
    OffReadsBack();
  }

  /** The setting files after /stop, /set-mode and /start-bg-music. */
  lemma ThreeWritesFiles(st: State, mode: string, flag: string, sanitize: string -> string)
    requires !IsBlank(mode)
    ensures Run(st, [Write.Stop, Write.SetMode(mode), Write.StartBgMusic(flag)], sanitize).files
      == st.files[DetectionStatus := "off"][Mode := Strip(mode)][BackgroundMusicFlag := Strip(flag)]
  {
    var s1 := Apply(st, Write.Stop, sanitize).state;
    var s2 := Apply(s1, Write.SetMode(mode), sanitize).state;
    WritesOneFile(st, Write.Stop, "off", sanitize);
    WritesOneFile(s1, Write.SetMode(mode), Strip(mode), sanitize);
    WritesOneFile(s2, Write.StartBgMusic(flag), Strip(flag), sanitize);
    RunThree(st, Write.Stop, Write.SetMode(mode), Write.StartBgMusic(flag), sanitize);
  }

  /** The snapshot once detection_status.txt, mode.txt and
      background_music_flag.txt have been overwritten. */
  lemma SyncAfterThreeFiles(st: State, after: State, status: string, mode: string, flag: string)
    requires after.files == st.files[DetectionStatus := status][Mode := mode][BackgroundMusicFlag := flag]
    ensures SyncFiles(after) == Sync(ReadStripped(status), SyncFiles(st).message, ReadStripped(mode),
                                     SyncFiles(st).audioMode, ReadStripped(flag))
  {
    assert after.files[DetectionStatus] == status && after.files[Mode] == mode;
    assert after.files[BackgroundMusicFlag] == flag;
    assert SameFile(st.files, after.files, Greeting) && SameFile(st.files, after.files, AudioMode);
  }

  /** /sync-files after one route that writes `text` to its target: the
      field read from that file changes to what `text` reads back as, and no
      other field changes. */
  lemma SyncAfterOneWrite(st: State, w: Write, text: string, sanitize: string -> string)
    requires w.Stop? || w.SetMode? || w.StartBgMusic?
    requires Apply(st, w, sanitize).status == 200
    requires Apply(st, w, sanitize).state.files == st.files[Target(w).value := text]
    ensures var before, after := SyncFiles(st), SyncFiles(Apply(st, w, sanitize).state);
      after == (match w
                case Stop => before.(detectionStatus := ReadStripped(text))
                case SetMode(_) => before.(mode := ReadStripped(text))
                case _ => before.(backgroundMusicFlag := ReadStripped(text)))
  {
  }

  /** /stop, an accepted /set-mode and /start-bg-music each overwrite their
      own file with `text` and nothing else. */
  lemma WritesOneFile(st: State, w: Write, text: string, sanitize: string -> string)
    requires w == Write.Stop ==> text == "off"
    requires w.SetMode? ==> !IsBlank(w.body) && text == Strip(w.body)
    requires w.StartBgMusic? ==> text == Strip(w.body)
    requires w.Stop? || w.SetMode? || w.StartBgMusic?
    ensures Apply(st, w, sanitize) == Outcome(st.(files := st.files[Target(w).value := text]), 200)
  {
  }

  /** Three write routes in a row. */
  lemma RunThree(st: State, a: Write, b: Write, c: Write, sanitize: string -> string)
    ensures Run(st, [a, b, c], sanitize)
      == Apply(Apply(Apply(st, a, sanitize).state, b, sanitize).state, c, sanitize).state
  {
    var s1 := Apply(st, a, sanitize).state;
    var s2 := Apply(s1, b, sanitize).state;
    assert [a, b, c][1..] == [b, c];
    assert [b, c][1..] == [c];
    assert Run(s2, [c], sanitize) == Run(Apply(s2, c, sanitize).state, [], sanitize);
  }

  // Sequences of write routes.

  /** Over any sequence of write routes: greeting.txt and audio_mode.txt keep
      what they held, every file that existed still exists, and the start flag
      is set exactly when it was set before or some route was /start. */
  lemma {:induction false} RunFrame(st: State, ws: seq<Write>, sanitize: string -> string)
    ensures var after := Run(st, ws, sanitize);
      SameFile(st.files, after.files, Greeting)
      && SameFile(st.files, after.files, AudioMode)
      && (AllExist(st.files) ==> AllExist(after.files))
      && (after.shouldStart <==> st.shouldStart || Write.Start in ws)
    decreases |ws|
  {
    if ws != [] {
      var next := Apply(st, ws[0], sanitize).state;
      ApplyFrame(st, ws[0], sanitize);
      ApplyTouches(st, ws[0], sanitize);
      RunFrame(next, ws[1..], sanitize);
      assert Write.Start in ws <==> ws[0] == Write.Start || Write.Start in ws[1..] by {
        assert ws == [ws[0]] + ws[1..];
      }
    }
  }

  /** Once every setting file exists, no read route falls back on its
      default: every `read_file` result is the same whatever the default,
      and /get-mode and /get-bg-music answer 200. */
  lemma ReadsIgnoreDefaults(st: State)
    requires AllExist(st.files)
    ensures forall s: Setting, d1: string, d2: string :: ReadFile(st.files, s, d1) == ReadFile(st.files, s, d2)
    ensures GetMode(st).Ok? && GetBgMusic(st).Ok?
  {
  }

  /** The running server keeps every setting file, so its read routes never
      fall back on a default. */
  lemma ServerReadsIgnoreDefaults(srv: Server)
    requires srv.Valid()
    ensures forall s: Setting, d1: string, d2: string ::
      ReadFile(srv.Current().files, s, d1) == ReadFile(srv.Current().files, s, d2)
    ensures GetMode(srv.Current()).Ok? && GetBgMusic(srv.Current()).Ok?
  {
    ReadsIgnoreDefaults(srv.Current());
  }

  /** After start-up every setting file exists, so no read route ever falls
      back on its default: the defaults of /play-tts, /detection-status and
      /sync-files are unreachable, and /get-mode and /get-bg-music never
      answer 404. A greeting.txt or audio_mode.txt that was missing at start-up
      reads as "" for the life of the process, because no route writes either. */
  lemma DefaultsUnreachableAfterBoot(
    disk: Files, greeting: Bucket, background: Bucket, ws: seq<Write>, sanitize: string -> string)
    ensures var st := Run(Booted(disk, greeting, background), ws, sanitize);
      (forall s: Setting, d1: string, d2: string :: ReadFile(st.files, s, d1) == ReadFile(st.files, s, d2))
      && GetMode(st).Ok? && GetBgMusic(st).Ok?
      && (Greeting !in disk ==> PlayTts(st) == "" && SyncFiles(st).message == "")
      && (AudioMode !in disk ==> SyncFiles(st).audioMode == "")
      && (CheckStart(st) <==> Write.Start in ws)
  {
    var st := Run(Booted(disk, greeting, background), ws, sanitize);
    RunFrame(Booted(disk, greeting, background), ws, sanitize);
    ReadsIgnoreDefaults(st);
  }
}
