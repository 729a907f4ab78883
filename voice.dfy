/** `VoiceAssistant`: the in-memory conversation window, the voice-activity
    recording loop, the request sent for each spoken command, the voice the
    reply is spoken in, and the status messages a voice command posts. The
    OpenAI calls, the microphone and the screen are parameters: the reply text
    (or `None` when the call raises), the voice-activity decision for each
    10 ms frame, the transcription and the screenshot. */
module Voice {
  import opened Common
  import Settings
  import opened Conversation

  const MAX_HISTORY_LENGTH: nat := 10
  /** `int(silence_duration / frame_duration)` with the defaults 500 and 10. */
  const SILENT_FRAMES_TO_STOP: nat := 50
  /** `int(max_duration / frame_duration)` with the defaults 20000 and 10. */
  const MAX_FRAMES: nat := 2000

  /** The coaching instructions sent first in every request; their wording
      is not modelled. */
  const SYSTEM_PROMPT: string := "productivity coach instructions"
  const SYSTEM_MESSAGE: Message := Message("system", SYSTEM_PROMPT)

  // ---------------------------------------------------------------------
  // Voice-activity recording

  /** The number of non-speech frames at the end of `s`. */
  function TrailingSilence(s: seq<bool>): (n: nat)
    ensures n <= |s|
    ensures forall i :: |s| - n <= i < |s| ==> !s[i]
    ensures n < |s| ==> s[|s| - 1 - n]
  {
    if |s| == 0 then 0
    else if s[|s| - 1] then 0
    else 1 + TrailingSilence(s[..|s| - 1])
  }

  /** Recording stops once speech has been heard and more than 50 silent
      frames follow the last speech frame. */
  predicate Stops(s: seq<bool>)
  {
    true in s && TrailingSilence(s) > SILENT_FRAMES_TO_STOP
  }

  /** Recording has not stopped at any point while reading `s`. */
  ghost predicate NeverStopped(s: seq<bool>)
  {
    !Stops(s) && (|s| == 0 || NeverStopped(s[..|s| - 1]))
  }

  lemma {:induction false} NeverStoppedPrefixes(s: seq<bool>, n: nat)
    requires n <= |s| && NeverStopped(s[..n])
    ensures forall k :: 0 <= k <= n ==> !Stops(s[..k])
  {
    if n > 0 {
      assert s[..n][..n - 1] == s[..n - 1];
      NeverStoppedPrefixes(s, n - 1);
    }
  }

  /** The frames kept in the audio buffer: every frame from the first speech
      frame on. */
  function Kept(s: seq<bool>): seq<nat>
  {
    if |s| == 0 then [] else Kept(s[..|s| - 1]) + (if true in s then [|s| - 1] else [])
  }

  function FirstSpeech(s: seq<bool>): (k: nat)
    requires true in s
    ensures k < |s| && s[k]
    ensures forall j :: 0 <= j < k ==> !s[j]
  {
    if s[0] then 0 else 1 + FirstSpeech(s[1..])
  }

  /** The indices `lo`, ..., `hi - 1`. */
  function Range(lo: nat, hi: nat): (r: seq<nat>)
    ensures |r| == if lo <= hi then hi - lo else 0
    ensures forall i :: 0 <= i < |r| ==> r[i] == lo + i
    decreases hi
  {
    if hi <= lo then [] else Range(lo, hi - 1) + [hi - 1]
  }

  lemma SnocFrame(s: seq<bool>, b: bool)
    ensures TrailingSilence(s + [b]) == if b then 0 else TrailingSilence(s) + 1
    ensures (true in s + [b]) <==> (true in s) || b
    ensures Kept(s + [b]) == Kept(s) + (if true in s + [b] then [|s|] else [])
    ensures NeverStopped(s + [b]) <==> NeverStopped(s) && !Stops(s + [b])
  {
    assert (s + [b])[..|s|] == s;
  }

  /** Reading frame `i` extends what was heard by one frame. */
  lemma StepFrame(frames: seq<bool>, i: nat)
    requires i < |frames|
    ensures TrailingSilence(frames[..i + 1]) == if frames[i] then 0 else TrailingSilence(frames[..i]) + 1
    ensures (true in frames[..i + 1]) <==> (true in frames[..i]) || frames[i]
    ensures Kept(frames[..i + 1]) == Kept(frames[..i]) + (if true in frames[..i + 1] then [i] else [])
    ensures NeverStopped(frames[..i + 1]) <==> NeverStopped(frames[..i]) && !Stops(frames[..i + 1])
  {
    assert frames[..i + 1] == frames[..i] + [frames[i]];
    SnocFrame(frames[..i], frames[i]);
  }

  /** No leading silence is kept: the buffer is exactly the frames from the
      first speech frame to the last frame read, and empty without speech. */
  lemma {:induction false} KeptFromFirstSpeech(s: seq<bool>)
    ensures Kept(s) == if true in s then Range(FirstSpeech(s), |s|) else []
  {
    if |s| > 0 {
      var p := s[..|s| - 1];
      assert s == p + [s[|s| - 1]];
      KeptFromFirstSpeech(p);
      if true in p {
        var a, b := FirstSpeech(s), FirstSpeech(p);
        assert s[b];
        assert a <= b;
        assert p[a];
        assert a == b;
      } else if s[|s| - 1] {
        assert forall j :: 0 <= j < |s| - 1 ==> !s[j] by {
          forall j | 0 <= j < |s| - 1
            ensures !s[j]
          {
            assert p[j] == s[j];
          }
        }
        assert FirstSpeech(s) == |s| - 1;
      }
    }
  }

  // ---------------------------------------------------------------------
  // The conversation window

  /** The in-memory history: the system message, then at most ten turns. */
  predicate ValidHistory(h: seq<Message>)
  {
    1 <= |h| <= MAX_HISTORY_LENGTH + 1 && h[0] == SYSTEM_MESSAGE
  }

  /** The turns `load_conversation_history` restores: the latest ten rows,
      oldest first. */
  function LatestRows(rows: seq<Message>): (r: seq<Message>)
    ensures |r| == Min(MAX_HISTORY_LENGTH, |rows|)
    ensures r == rows[|rows| - |r|..]
  {
    rows[|rows| - Min(MAX_HISTORY_LENGTH, |rows|)..]
  }

  /** A message as sent to the chat API. */
  datatype Content = Text(text: string) | TextWithImage(caption: string, imageBase64: string)
  datatype OutMessage = OutMessage(role: string, content: Content)

  function ToOut(m: Message): OutMessage
  {
    OutMessage(m.role, Text(m.content))
  }

  function MapOut(h: seq<Message>): (r: seq<OutMessage>)
    ensures |r| == |h|
    ensures forall i :: 0 <= i < |h| ==> r[i] == ToOut(h[i])
  {
    seq(|h|, i requires 0 <= i < |h| => ToOut(h[i]))
  }

  /** A screenshot is attached when one was captured and is non-empty. */
  predicate HasScreenshot(screenshot: Option<string>)
  {
    screenshot.Some? && screenshot.value != ""
  }

  /** The messages `generate_response` sends: the system message, the
      history entries at positions 1 to 9, and the new user turn, carrying the
      screenshot when there is one. */
  function Request(h: seq<Message>, text: string, screenshot: Option<string>): (r: seq<OutMessage>)
    requires |h| >= 1
    ensures |r| == Min(MAX_HISTORY_LENGTH, |h|) + 1
    ensures forall i :: 0 <= i < |r| - 1 ==> r[i] == ToOut(h[i])
    ensures r[|r| - 1] == OutMessage("user", if HasScreenshot(screenshot) then TextWithImage(text, screenshot.value) else Text(text))
  {
    var window := [h[0]] + h[1..Min(MAX_HISTORY_LENGTH, |h|)];
    MapOut(window) + [OutMessage("user", if HasScreenshot(screenshot) then TextWithImage(text, screenshot.value) else Text(text))]
  }

  /** The history part of a request is the oldest ten entries of the window;
      so once the window is full its newest turn is not sent. */
  lemma RequestHistoryPart(h: seq<Message>, text: string, screenshot: Option<string>)
    requires |h| >= 1
    ensures var r := Request(h, text, screenshot);
      r[..|r| - 1] == MapOut(h[..Min(MAX_HISTORY_LENGTH, |h|)])
    ensures |h| <= MAX_HISTORY_LENGTH ==>
      var r := Request(h, text, screenshot); r[..|r| - 1] == MapOut(h)
  {
    var r := Request(h, text, screenshot);
    assert r[..|r| - 1] == MapOut(h[..Min(MAX_HISTORY_LENGTH, |h|)]);
    if |h| <= MAX_HISTORY_LENGTH {
      assert h[..|h|] == h;
    }
  }

  /** The trim at the end of `generate_response`. */
  function Trim(h: seq<Message>): seq<Message>
    requires |h| >= 1
  {
    if |h| > MAX_HISTORY_LENGTH + 1 then h[..1] + h[|h| - MAX_HISTORY_LENGTH..] else h
  }

  /** Appending a reply and trimming keeps the window valid, keeps the reply
      as the newest turn, and drops only the oldest turn when full. */
  lemma AppendAndTrim(h: seq<Message>, reply: Message)
    requires ValidHistory(h)
    ensures var t := Trim(h + [reply]);
      && ValidHistory(t)
      && t[|t| - 1] == reply
      && (|h| <= MAX_HISTORY_LENGTH ==> t == h + [reply])
      && (|h| == MAX_HISTORY_LENGTH + 1 ==> t == [h[0]] + h[2..] + [reply])
  {
    var h1 := h + [reply];
    if |h| == MAX_HISTORY_LENGTH + 1 {
      assert h1[..1] == [h[0]];
      assert h1[|h1| - MAX_HISTORY_LENGTH..] == h[2..] + [reply];
    }
  }

  /** The voice `text_to_speech` speaks in, or `None` when it skips empty
      text: the `AI_VOICE` setting if it names one of the six voices, else
      "onyx". */
  function ChooseVoice(text: string, settings: Option<Settings.Dict>): (r: Option<string>)
    ensures r.None? <==> text == ""
    ensures r.Some? ==> r.value in Settings.VALID_VOICES
    ensures r.Some? && Settings.IsValidVoice(Settings.Get(settings, "AI_VOICE", JStr("onyx"))) ==>
      r.value == Settings.Get(settings, "AI_VOICE", JStr("onyx")).s
    ensures r.Some? && !Settings.IsValidVoice(Settings.Get(settings, "AI_VOICE", JStr("onyx"))) ==>
      r.value == "onyx"
  {
    if text == "" then None
    else
      var v := Settings.Get(settings, "AI_VOICE", JStr("onyx"));
      if Settings.IsValidVoice(v) then Some(v.s) else Some("onyx")
  }

  // ---------------------------------------------------------------------
  // A voice command

  /** The status line `update_user_feedback` shows. */
  datatype Status =
    | Listening        // "Listening..."
    | NoSpeech         // "No speech detected. Try again."
    | Thinking         // "Thinking..."
    | LookingAtScreen  // "Looking at screen..."
    | Speaking         // "Speaking..."
    | TrySpeakingAgain // "Try speaking again."
    | ErrorCheckLog    // "Error. Check log."
    | PressToTalk      // "Press to Talk"

  /** The status messages a voice command posts, in the order they are
      posted; `heard` is what the recording returned (or that it raised). */
  function Feedback(heard: Outcome<bool>, transcription: string, vision: bool): seq<Status>
  {
    match heard
    case Raised => [Listening, ErrorCheckLog, PressToTalk]
    case Returned(false) => [Listening, NoSpeech, PressToTalk]
    case Returned(true) =>
      if transcription == "" then [Listening, Thinking, TrySpeakingAgain, PressToTalk]
      else [Listening, Thinking] + (if vision then [LookingAtScreen] else [])
           + [Speaking, PressToTalk, PressToTalk]
  }

  /** Every path starts by listening and leaves the button reading "Press to
      Talk"; the screen is looked at, and a reply spoken, only for a command
      that was heard and transcribed. */
  lemma FeedbackPaths(heard: Outcome<bool>, transcription: string, vision: bool)
    ensures var f := Feedback(heard, transcription, vision);
      && |f| >= 3 && f[0] == Listening && f[|f| - 1] == PressToTalk
      && (Speaking in f <==> heard == Returned(true) && transcription != "")
      && (LookingAtScreen in f <==> heard == Returned(true) && transcription != "" && vision)
      && (ErrorCheckLog in f <==> heard.Raised?)
  {
  }

  class VoiceAssistant {
    var conversationHistory: seq<Message>
    const db: ConversationDatabase

    predicate Valid()
      reads this
    {
      ValidHistory(conversationHistory)
    }

    /** `__init__`: open the database and load the window from it. */
    constructor (database: ConversationDatabase)
      ensures db == database
      ensures Valid()
      ensures db.tableExists ==> conversationHistory == [SYSTEM_MESSAGE] + LatestRows(db.rows)
    {
      db := database;
      conversationHistory := [SYSTEM_MESSAGE];
      new;
      var _ := LoadConversationHistory();
    }

    /** `load_conversation_history`: the system message, then the latest ten
        stored turns in the order they were written. */
    method LoadConversationHistory() returns (raised: bool)
      requires Valid()
      modifies this`conversationHistory
      ensures Valid()
      ensures raised <==> !db.tableExists
      ensures conversationHistory ==
        if raised then old(conversationHistory) else [SYSTEM_MESSAGE] + LatestRows(db.rows)
    {
      var history := db.GetConversationHistory(MAX_HISTORY_LENGTH);
      if history.Raised? {
        return true;
      }
      var rows := history.value;
      conversationHistory := [SYSTEM_MESSAGE];
      var i := 0;
      while i < |rows|
        invariant 0 <= i <= |rows|
        invariant conversationHistory == [SYSTEM_MESSAGE] + Reverse(rows)[..i]
      {
        assert Reverse(rows)[..i + 1] == Reverse(rows)[..i] + [rows[|rows| - 1 - i]];
        conversationHistory := conversationHistory + [rows[|rows| - 1 - i]];
        i := i + 1;
      }
      assert Reverse(rows)[..i] == Reverse(rows);
      NewestFirstReversed(db.rows, MAX_HISTORY_LENGTH);
      raised := false;
    }

    /** `record_audio_vad`: read 10 ms frames until speech has been followed by
        more than 50 silent frames, or 2000 frames have been read. `frames`
        holds the voice-activity decision for each frame the stream can
        deliver; reading past its end raises inside the `try`, which returns
        False. Returns the outcome, the number of frames read and the indices
        of the frames kept in the buffer. */
    method RecordAudioVad(frames: seq<bool>, maxInputChannels: int, saveOk: bool)
      returns (r: Outcome<bool>, framesRead: nat, kept: seq<nat>)
      ensures r.Raised? <==> maxInputChannels < 1
      ensures r.Raised? ==> framesRead == 0 && kept == []
      ensures r.Returned? ==>
        && framesRead <= MAX_FRAMES && framesRead <= |frames|
        && (forall k :: 0 <= k < framesRead ==> !Stops(frames[..k]))
        && (Stops(frames[..framesRead]) || framesRead == MAX_FRAMES || framesRead == |frames|)
        && kept == Kept(frames[..framesRead])
        && (r.value <==>
              (Stops(frames[..framesRead]) || framesRead == MAX_FRAMES)
              && true in frames[..framesRead] && saveOk)
    {
      if maxInputChannels < 1 {
        return Raised, 0, [];
      }
      framesRead := 0;
      kept := [];
      var silentFrames: nat := 0;
      var speechFrames: nat := 0;
      while framesRead < MAX_FRAMES
        invariant framesRead <= MAX_FRAMES && framesRead <= |frames|
        invariant silentFrames == TrailingSilence(frames[..framesRead])
        invariant speechFrames > 0 <==> true in frames[..framesRead]
        invariant kept == Kept(frames[..framesRead])
        invariant NeverStopped(frames[..framesRead])
      {
        if framesRead >= |frames| {
          NeverStoppedPrefixes(frames, framesRead);
          return Returned(false), framesRead, kept;
        }
        var isSpeech := frames[framesRead];
        StepFrame(frames, framesRead);
        ghost var before := framesRead;
        framesRead := framesRead + 1;
        if isSpeech {
          kept := kept + [framesRead - 1];
          silentFrames := 0;
          speechFrames := speechFrames + 1;
        } else {
          silentFrames := silentFrames + 1;
          if speechFrames > 0 {
            kept := kept + [framesRead - 1];
          }
        }
        if silentFrames > SILENT_FRAMES_TO_STOP && speechFrames > 0 {
          NeverStoppedPrefixes(frames, before);
          break;
        }
      }
      if framesRead == MAX_FRAMES && !Stops(frames[..framesRead]) {
        NeverStoppedPrefixes(frames, framesRead);
      }
      r := Returned(speechFrames > 0 && saveOk);
    }

    /** `generate_response`: log the user turn, send the request, log and keep
        the reply, trim the window. The user turn is logged but never kept in
        memory; an API failure (`reply == None`) returns "" with the user turn
        logged and the window unchanged. */
    method GenerateResponse(text: string, screenshot: Option<string>, reply: Option<string>)
      returns (response: string, request: Option<seq<OutMessage>>)
      requires Valid()
      modifies this`conversationHistory, db`rows
      ensures Valid()
      ensures request == if db.tableExists then Some(Request(old(conversationHistory), text, screenshot)) else None
      ensures response == if db.tableExists && reply.Some? then reply.value else ""
      ensures db.rows == old(db.rows) +
        if !db.tableExists then []
        else [Message("user", text)] + (if reply.Some? then [Message("assistant", reply.value)] else [])
      ensures conversationHistory ==
        if db.tableExists && reply.Some?
        then Trim(old(conversationHistory) + [Message("assistant", reply.value)])
        else old(conversationHistory)
    {
      var window := [conversationHistory[0]] + conversationHistory[1..Min(MAX_HISTORY_LENGTH, |conversationHistory|)];
      var raised := db.AddMessage("user", text);
      if raised {
        return "", None;
      }
      var messages := MapOut(window) + [OutMessage("user", Text(text))];
      if HasScreenshot(screenshot) {
        messages := messages[..|messages| - 1] + [OutMessage("user", TextWithImage(text, screenshot.value))];
      }
      request := Some(messages);
      if reply.None? {
        return "", request;
      }
      // The table exists, so this insert succeeds.
      raised := db.AddMessage("assistant", reply.value);
      AppendAndTrim(conversationHistory, Message("assistant", reply.value));
      conversationHistory := conversationHistory + [Message("assistant", reply.value)];
      if |conversationHistory| > MAX_HISTORY_LENGTH + 1 {
        conversationHistory := conversationHistory[..1] + conversationHistory[|conversationHistory| - MAX_HISTORY_LENGTH..];
      }
      response := reply.value;
    }

    /** The reply to a transcribed command: `generate_response`, then
        `text_to_speech` of what it returned. */
    method Respond(transcription: string, screenshot: Option<string>, reply: Option<string>,
                   settings: Option<Settings.Dict>)
      returns (request: Option<seq<OutMessage>>, voice: Option<string>)
      requires Valid()
      modifies this`conversationHistory, db`rows
      ensures Valid()
      ensures request == if db.tableExists then Some(Request(old(conversationHistory), transcription, screenshot)) else None
      ensures db.rows == old(db.rows) +
        if !db.tableExists then []
        else [Message("user", transcription)] + (if reply.Some? then [Message("assistant", reply.value)] else [])
      ensures conversationHistory ==
        if db.tableExists && reply.Some?
        then Trim(old(conversationHistory) + [Message("assistant", reply.value)])
        else old(conversationHistory)
      ensures voice == ChooseVoice(if db.tableExists && reply.Some? then reply.value else "", settings)
    {
      var response;
      response, request := GenerateResponse(transcription, screenshot, reply);
      voice := ChooseVoice(response, settings);
    }

    /** `handle_voice_command`'s background task: record, transcribe, look at
        the screen when `AI_SCREEN_VISION` is truthy, ask for a reply and speak
        it. Returns what the recording gave, the status messages posted, the
        request sent (if any), the voice the reply was spoken in (if any) and
        whether the talk button is enabled again, as the `finally` block does
        on every path. */
    method HandleVoiceCommand(frames: seq<bool>, maxInputChannels: int, saveOk: bool,
                              transcription: string, settings: Option<Settings.Dict>,
                              screenshot: Option<string>, reply: Option<string>)
      returns (heard: Outcome<bool>, feedback: seq<Status>,
               request: Option<seq<OutMessage>>, voice: Option<string>, talkEnabled: bool)
      requires Valid()
      modifies this`conversationHistory, db`rows
      ensures Valid()
      ensures talkEnabled && |feedback| > 0 && feedback[|feedback| - 1] == PressToTalk
      ensures heard.Raised? <==> maxInputChannels < 1
      ensures var vision := Truthy(Settings.Get(settings, "AI_SCREEN_VISION", JBool(false)));
        && feedback == Feedback(heard, transcription, vision)
        && request == (if heard == Returned(true) && transcription != "" && db.tableExists
                       then Some(Request(old(conversationHistory), transcription, if vision then screenshot else None))
                       else None)
      ensures heard != Returned(true) || transcription == "" ==>
        conversationHistory == old(conversationHistory) && db.rows == old(db.rows) && voice.None?
      ensures heard == Returned(true) && transcription != "" ==>
        && db.rows == old(db.rows) +
             (if !db.tableExists then []
              else [Message("user", transcription)] + (if reply.Some? then [Message("assistant", reply.value)] else []))
        && conversationHistory ==
             (if db.tableExists && reply.Some?
              then Trim(old(conversationHistory) + [Message("assistant", reply.value)])
              else old(conversationHistory))
        && voice == ChooseVoice(if db.tableExists && reply.Some? then reply.value else "", settings)
      ensures voice.Some? ==> voice.value in Settings.VALID_VOICES
    {
      request := None;
      voice := None;
      feedback := [Listening];
      var framesRead, kept;
      heard, framesRead, kept := RecordAudioVad(frames, maxInputChannels, saveOk);
      if heard.Raised? {
        feedback := feedback + [ErrorCheckLog, PressToTalk];
        talkEnabled := true;
        return;
      }
      if !heard.value {
        feedback := feedback + [NoSpeech, PressToTalk];
        talkEnabled := true;
        return;
      }
      feedback := feedback + [Thinking];
      if transcription != "" {
        var shot: Option<string> := None;
        var vision := Settings.Get(settings, "AI_SCREEN_VISION", JBool(false));
        if Truthy(vision) {
          feedback := feedback + [LookingAtScreen];
          shot := screenshot;
        }
        feedback := feedback + [Speaking];
        request, voice := Respond(transcription, shot, reply, settings);
        feedback := feedback + [PressToTalk];
      } else {
        feedback := feedback + [TrySpeakingAgain];
      }
      feedback := feedback + [PressToTalk];
      talkEnabled := true;
    }
  }
}
