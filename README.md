# Pomodoro AI — a Dafny model of the timer, settings, voice assistant and device picker

Pomodoro AI is a Tk desktop timer. Focus sessions alternate with short breaks.
Every fourth focus session completes a work cycle and leads to a long break.
A voice assistant records a spoken question, sends it with a short chat
history (and optionally a screenshot) to a chat model, and speaks the reply.
Settings live in a JSON file.

This project models the logic of that program:

- **The timer** (`pomodoro.py`).
  - `PomodoroSpec` describes it as a state machine over values. Every call to
    `pomodoro_timer()` inside a handler is one immediate tick, so
    `Timer`, `SwitchMode`, `StartBreak`, `StartPomodoro` and `StartLongBreak`
    call each other recursively.
  - `Pomodoro.PomodoroApp` is the object with the same fields. Each of its
    handlers is proved to move it exactly as the matching function moves its
    abstract state.
  - Also covered: the `MM:SS` display text (`Display`) and the resolution of
    the audio-device settings.
- **Settings** (`utils/settings.py`), in `Settings`:
  - the store of the in-memory map and the file;
  - load, validate, save, get and update;
  - the settings window's apply-and-save loop.
- **The voice assistant** (`utils/voice_assistant.py`), in `Voice`, with the
  message log of `utils/database.py` in `Conversation`:
  - the conversation window and the request sent for each command;
  - the voice-activity recording loop;
  - the voice chosen for speech;
  - the status messages a voice command posts.
- **The audio test window** (`testing/testaudio.py`), in `AudioDevices`:
  - the de-duplicated output-device list;
  - the choice of device a test tone is played on.

The outside world enters as parameters:

- whether a file write succeeds;
- the chat reply, or `None` when the API call raises;
- the voice-activity decision for each 10 ms audio frame;
- the transcription and the screenshot;
- the device list and the system default device.

A Python exception is an `Outcome` of `Raised`, or a `raised` flag. In every
handler modelled, only UI updates follow an exception, so the model stops
with the state reached at that point.

Session lengths (`Config`) are the `FOCUS_TIME`, `BREAK_TIME` and
`LONG_BREAK_TIME` settings times 60. No code in the app writes those keys, so
each reload yields the same lengths. Beyond the source's own promises, the
model proves the following:

- in every reachable state, breaks are at most the completed work sessions in
  focus mode and strictly fewer during a short break (the long break, where
  the work sessions are cleared, is not constrained). Hence the "four
  breaks" reset in `switch_mode` is dead code while the settings store is
  sound (`OperationsKeepReachable`, `BreakLimitUnreachable`);
- the device a test tone plays on is the one the refreshed list keeps under
  the default device's name (`ToneUsesListedDevice`);
- the recording buffer is exactly the frames from the first speech frame on
  (`KeptFromFirstSpeech`).

Behaviour worth knowing that the model keeps as written:

- While the timer runs, the Start button is bound to Pause (pomodoro.py:561),
  so `start_pomodoro` meets a running timer only through `skip_break`'s call
  at pomodoro.py:446. There it starts nothing, but the settings reload still
  rewinds the clock to a full focus session (`StartWhileRunningRewinds`).
- `start_pomodoro` never sets `is_focus_time`, so `StartPomodoro` and
  `StartFromIdleRuns` keep whatever mode they are given. The program only
  binds Start in focus mode (after a reset at pomodoro.py:600, and at the end
  of a long break at pomodoro.py:685). Pause is unavailable during breaks,
  because the button is disabled at pomodoro.py:472 and 669. The model's
  `Pause` and `StartPomodoro` are also defined on states the program never
  reaches, such as a paused break.
- `generate_response` sends history entries 1 to 9 only. Once the window holds
  ten turns, the newest of them is left out of the request
  (`RequestHistoryPart`).
- The user turn is logged to the database but never kept in the in-memory
  window. Only replies are appended (`GenerateResponse`).
- When the settings map has no `AI_VOICE` key, persisting the cycle count
  raises. The timer is then left stopped in focus mode. The in-memory map
  keeps the new count, but the file is not written
  (`FocusEndWithBrokenStoreStops`).
- Muting sets the flag and then raises: `VoiceAssistant` has no
  `stop_audio_playback` (pomodoro.py:716). `HandleToggleMute` reports this as
  `raised`.
- Nothing in `pomodoro.py` calls `play_audio`, the only audio path that
  reads `is_muted` (`PlayAudio`). The assistant's speech is played by
  `play_audio_from_stream` (utils/voice_assistant.py:259-266), which ignores
  the flag, so in the program muting silences nothing.
- `VoiceAssistant` also has no `set_volume`, which the constructor calls at
  pomodoro.py:52. See "Findings" for the related `update_audio_devices`.

## Model

| member | source | states |
|---|---|---|
| Display.Decimal | pomodoro.py:537-540 | Python's `str` of a natural number: a non-empty string of digits, exactly one digit iff the number is below 10 |
| Display.Pad2 | pomodoro.py:540 | the `:02` field: all digits, at least two, exactly two iff the value is below 100 |
| Display.FormatTime | pomodoro.py:537-540 | the display text has at least five characters, with the ':' third from the end |
| Display.DecimalRoundTrip | pomodoro.py:537-540 | reading back the decimal text of n gives n |
| Display.Pad2Value | pomodoro.py:540 | zero padding does not change the value that is read back |
| Display.DisplayReadsBack | pomodoro.py:537-540 | the text splits into a minutes field of 2 or more digits and a 2-digit seconds field below 60; minutes*60 + seconds equals the input |
| Settings.DefaultSettings | utils/settings.py:117-122 | the defaults are exactly USER_NAME, PROFESSION and AI_VOICE = "alloy", with their values |
| Settings.DefaultsAreValid | utils/settings.py:85-122 | the default settings pass validation |
| Settings.Validate | utils/settings.py:85-90 | raises iff the map is None or lacks AI_VOICE; otherwise true iff AI_VOICE is one of the six voices |
| Settings.Save | utils/settings.py:92-105 | the map is never changed; the file changes only when valid and the write succeeds; validation errors propagate; True iff valid, written and the callback did not raise; the callback runs iff valid, written and given |
| Settings.WithDefaults | utils/settings.py:68-71 | the map becomes the defaults; the file holds them iff the write succeeds |
| Settings.Load | utils/settings.py:73-83 | a missing or unparseable file yields the defaults; a parsed file's content replaces the map; a missing file is created with the defaults |
| Settings.Get | utils/settings.py:107-111 | the stored value when the key is present; the default when the key is absent or the map is None |
| Settings.Update | utils/settings.py:113-115 | raises on None; otherwise only key k changes and its value becomes v |
| Settings.GetAfterUpdate | utils/settings.py:107-115 | reading a key after updating it gives the new value; other keys read as before |
| Settings.KeysToSendSnoc | utils/settings.py:183-187 | an entry adds an API key to the keys handed over iff it is api_key, non-empty and not the placeholder |
| Settings.ApplyEntry | utils/settings.py:182-189 | no contract of its own: one pass of the apply loop; `RaisedStops` and `KeysToSendSnoc` state its effect |
| Settings.ApplyEntries | utils/settings.py:180-189 | no contract of its own: the reference definition of the apply loop; `ApplyEntriesSendsKeys`, `ApplyEntriesCopies` and `ApplyEntriesRaises` state what it computes |
| Settings.KeysToSend | utils/settings.py:183-187 | no contract of its own: the independent definition of the keys handed over, which `ApplyEntriesSendsKeys` ties to the loop |
| Settings.ApplyEntriesSendsKeys | utils/settings.py:180-189 | on a loaded map the loop never raises; exactly the qualifying api_key values are handed over, in order; api_key in the map is left as it was |
| Settings.LastValueIsLast | utils/settings.py:182-189 | the value a key ends with is that of its last entry |
| Settings.LastValueAbsent | utils/settings.py:182-189 | a key with no entry keeps no value from the entries |
| Settings.ApplyEntriesCopies | utils/settings.py:180-189 | every key other than api_key ends with the string of its last entry, or keeps its old value when it has no entry |
| Settings.ApplyEntriesRaises | utils/settings.py:180-189 | with a None map the loop raises iff some entry is not api_key |
| Settings.RaisedStops | utils/settings.py:180-189 | once an update has raised, later entries change nothing |
| Settings.SettingsManager.constructor | utils/settings.py:59-63 | a new manager starts from an empty map and loads at once |
| Settings.SettingsManager.SettingsExist | utils/settings.py:65-66 | true iff the settings file exists |
| Settings.SettingsManager.CreateDefaultSettings | utils/settings.py:68-71 | the new store is the defaults, saved when the write succeeds |
| Settings.SettingsManager.LoadSettings | utils/settings.py:73-83 | the new store is the one `Load` gives |
| Settings.SettingsManager.ValidateSettings | utils/settings.py:85-90 | the same verdict as `Validate`, on the current map |
| Settings.SettingsManager.SaveSettings | utils/settings.py:92-105 | the new store and the result are those `Save` gives |
| Settings.SettingsManager.GetSetting | utils/settings.py:107-111 | the same value as `Get` |
| Settings.SettingsManager.UpdateSetting | utils/settings.py:113-115 | raises iff the map is None; otherwise only key k changes; the file is untouched |
| Settings.ApplyAndSaveSettings | utils/settings.py:180-198 | the keys handed over and the map are those of `ApplyEntries`; if no update raised, the result is the save with the app's callback |
| PomodoroSpec.PersistCycles | pomodoro.py:636-637 | persisting the cycle count raises iff the map is None or lacks AI_VOICE; otherwise the map holds the new count and the file is written iff the voice is valid and the write succeeds |
| PomodoroSpec.Timer | pomodoro.py:611-624 | a tick keeps the timer state valid: remaining time not negative, fewer than 4 work and 4 break sessions |
| PomodoroSpec.SwitchMode | pomodoro.py:626-656 | switching mode keeps the timer state valid |
| PomodoroSpec.CompleteCycle | pomodoro.py:632-640 | completing a cycle keeps the timer state valid |
| PomodoroSpec.StartBreak | pomodoro.py:451-477 | starting a break keeps the timer state valid |
| PomodoroSpec.StartPomodoro | pomodoro.py:557-575 | starting keeps the timer state valid |
| PomodoroSpec.StartLongBreak | pomodoro.py:658-674 | starting a long break keeps the timer state valid |
| PomodoroSpec.Resume | pomodoro.py:585-592 | raises iff no pause has saved a time; otherwise the new state is valid |
| PomodoroSpec.SkipBreak | pomodoro.py:422-449 | skipping keeps the timer state valid |
| PomodoroSpec.Ticks | pomodoro.py:611-618 | any number of ticks keeps the timer state valid |
| PomodoroSpec.TickCountsDown | pomodoro.py:612-616 | a running tick with time left lowers the remaining time by one, sets progress to maximum minus remaining, and changes nothing else |
| PomodoroSpec.TickWhileStoppedChangesNothing | pomodoro.py:611-624 | a tick on a stopped timer changes nothing |
| PomodoroSpec.TickAtZeroDispatches | pomodoro.py:617-624 | at zero a break with no work sessions ends as a long break (stopped, focus, full focus time, counters cleared, cycles kept); otherwise the mode switches |
| PomodoroSpec.EndLongBreak | pomodoro.py:676-690 | no contract of its own: the end of a long break; `TickAtZeroDispatches` states its result (stopped, focus, full focus time, counters cleared, cycles kept) |
| PomodoroSpec.CountdownReachesZero | pomodoro.py:612-616 | k ticks from remaining time r (with k ≤ r) leave r − k on the clock with progress at maximum − (r − k) and nothing else changed |
| PomodoroSpec.FocusEndEntersShortBreak | pomodoro.py:626-647 | ending one of the first three focus sessions counts it and starts a running short break, already ticked once; breaks, cycles and settings are unchanged |
| PomodoroSpec.FocusEndCompletesCycle | pomodoro.py:626-641 | ending the fourth focus session adds a cycle, clears the work counter, stores the count in the settings (and the file when the voice is valid and the write succeeds), and starts a running long break |
| PomodoroSpec.FocusEndWithBrokenStoreStops | pomodoro.py:634-637 | when saving the count raises, the timer stays stopped in focus mode with the cycle counted; the file is unchanged; an existing map keeps the count |
| PomodoroSpec.BreakEndStartsFocus | pomodoro.py:648-656 | ending a short break below the limit counts it and starts a running focus session, already ticked once; work sessions and cycles are unchanged |
| PomodoroSpec.BreakEndAtLimitResets | pomodoro.py:650-652 | the fourth break ends in a reset: stopped, focus mode, full focus time, counters cleared, cycles kept |
| PomodoroSpec.ResetLandsIdle | pomodoro.py:594-609 | reset stops in focus mode with a full focus session, clears `is_resuming` and both session counters, and keeps the cycle count and the settings |
| PomodoroSpec.Reset | pomodoro.py:594-609 | no contract of its own: `ResetLandsIdle` states its result |
| PomodoroSpec.PauseThenResume | pomodoro.py:577-592 | resuming after a pause restores exactly the paused time and ticks; with time left the timer runs one second lower |
| PomodoroSpec.PauseIsIdempotent | pomodoro.py:577-583 | pausing twice is the same as pausing once |
| PomodoroSpec.Pause | pomodoro.py:577-583 | no contract of its own: stop and save the remaining time; `PauseThenResume` and `PauseIsIdempotent` state its meaning |
| PomodoroSpec.StartWhileRunningRewinds | pomodoro.py:557-559 | `start_pomodoro` on a running timer, which only `skip_break` does (pomodoro.py:446), only resets the remaining time to the focus length |
| PomodoroSpec.SkipBreakEntersFocus | pomodoro.py:422-449 | skip is a no-op unless the app is in a running break; otherwise it leaves the timer running in a fresh focus session with the break counter cleared and the work counter and cycles kept |
| PomodoroSpec.ToggleMuteTwiceRestores | pomodoro.py:706-713 | toggling twice restores the state; the toggle raises exactly when it mutes |
| PomodoroSpec.ToggleMute | pomodoro.py:706-716 | no contract of its own: flip the flag, and raise when muting; `ToggleMuteTwiceRestores` states its meaning |
| PomodoroSpec.PersistKeepsSound | pomodoro.py:636-637 | with AI_VOICE present, persisting the count does not raise and keeps the store sound |
| PomodoroSpec.TimerKeepsReachable | pomodoro.py:611-624 | a tick keeps the timer valid, keeps breaks at most the completed work sessions in focus mode and strictly fewer in a short break, and keeps the settings sound |
| PomodoroSpec.SwitchKeepsReachable | pomodoro.py:626-656 | switching mode keeps that invariant |
| PomodoroSpec.BreakKeepsReachable | pomodoro.py:451-477 | starting a break keeps that invariant |
| PomodoroSpec.StartKeepsReachable | pomodoro.py:557-575 | starting keeps that invariant |
| PomodoroSpec.LongBreakKeepsReachable | pomodoro.py:658-674 | a long break entered with the work counter cleared restores that invariant |
| PomodoroSpec.OperationsKeepReachable | pomodoro.py:557-624 | every tick and button (start, pause, resume, reset, skip, mute) keeps that invariant |
| PomodoroSpec.BreakLimitUnreachable | pomodoro.py:648-652 | in a reachable state a short break always has fewer than three breaks behind it, so the break limit is never hit |
| PomodoroSpec.Initial | pomodoro.py:36-64 | the app starts stopped in focus mode with a full focus session, in a valid state that satisfies the invariant |
| PomodoroSpec.Reload | pomodoro.py:101-111 | no contract of its own: the corrected reload, which rewinds `remaining_time` to the focus length and changes nothing else; its effect is stated through `StartWhileRunningRewinds` and every handler lemma |
| PomodoroSpec.ResolveDevice | pomodoro.py:479-491 | resolution raises iff the setting is a truthy non-string; a falsy setting or "System Default" keeps the current device |
| PomodoroSpec.ResolveDeviceByIndex | pomodoro.py:483-484 | a setting that is a decimal numeral selects the device with that index |
| PomodoroSpec.ResolveDeviceByName | pomodoro.py:483-484 | any other non-empty string selects by name |
| PomodoroSpec.ResolveDeviceIdempotent | pomodoro.py:479-491 | resolving twice gives the same device as resolving once |
| PomodoroSpec.ReloadAsWritten | pomodoro.py:101-111 | the reload as written always raises |
| PomodoroSpec.StartAsWrittenNeverRuns | pomodoro.py:557-559 | as written, Start on a stopped timer leaves it stopped and only rewinds the clock |
| PomodoroSpec.StartPomodoroAsWritten | pomodoro.py:557-559 | no contract of its own: `start_pomodoro` as written, where the raising reload leaves only the clock rewound; `StartAsWrittenNeverRuns` states its result |
| PomodoroSpec.SwitchModeAsWritten | pomodoro.py:626-628 | no contract of its own: `switch_mode` as written, where the raising reload leaves the running flag and the mode untouched |
| PomodoroSpec.TimerAsWritten | pomodoro.py:611-624 | no contract of its own: `pomodoro_timer` over the as-written `switch_mode` |
| PomodoroSpec.FocusEndAsWrittenFreezes | pomodoro.py:611-628 | from a running focus state at zero, which the program as written never reaches (see "Findings"), the timer stays running in focus mode with a full focus session on the clock, its session uncounted and the store untouched |
| PomodoroSpec.StartFromIdleRuns | pomodoro.py:557-575 | with the reload returning, Start on a stopped timer runs a full focus session already ticked once, in the current mode, with `is_resuming` cleared |
| Pomodoro.PomodoroApp.constructor | pomodoro.py:36-64 | the new app's state is the initial state over the loaded settings |
| Pomodoro.PomodoroApp.ReloadUserSettings | pomodoro.py:101-111 | the object moves as `Reload` |
| Pomodoro.PomodoroApp.UpdateAudioDevices | pomodoro.py:479-491 | input, then output, are resolved as `ResolveDevice` says from the settings; a raise leaves the later slot unchanged |
| Pomodoro.PomodoroApp.PersistCycles | pomodoro.py:636-637 | the settings store moves as `PersistCycles` |
| Pomodoro.PomodoroApp.Tick | pomodoro.py:611-624 | the object moves as `Timer` |
| Pomodoro.PomodoroApp.SwitchMode | pomodoro.py:626-656 | the object moves as `SwitchMode` |
| Pomodoro.PomodoroApp.FocusEnded | pomodoro.py:629-645 | once reloaded and stopped at the end of a focus session, the object moves as `SwitchMode` |
| Pomodoro.PomodoroApp.BreakEnded | pomodoro.py:646-656 | once reloaded and stopped at the end of a break, the object moves as `SwitchMode` |
| Pomodoro.PomodoroApp.CompleteCycle | pomodoro.py:632-640 | the object moves as `CompleteCycle` |
| Pomodoro.PomodoroApp.StartBreak | pomodoro.py:451-477 | the object moves as `StartBreak` |
| Pomodoro.PomodoroApp.StartPomodoro | pomodoro.py:557-575 | the object moves as `StartPomodoro` |
| Pomodoro.PomodoroApp.StartLongBreak | pomodoro.py:658-674 | the object moves as `StartLongBreak` |
| Pomodoro.PomodoroApp.EndLongBreak | pomodoro.py:676-694 | the object moves as `EndLongBreak` |
| Pomodoro.PomodoroApp.PausePomodoro | pomodoro.py:577-583 | the object moves as `Pause` |
| Pomodoro.PomodoroApp.ResumePomodoro | pomodoro.py:585-592 | raises with nothing changed iff no time was saved; otherwise the object moves as `Resume` |
| Pomodoro.PomodoroApp.ResetPomodoro | pomodoro.py:594-609 | the object moves as `Reset` |
| Pomodoro.PomodoroApp.SkipBreak | pomodoro.py:422-449 | the object moves as `SkipBreak` |
| Pomodoro.PomodoroApp.HandleToggleMute | pomodoro.py:706-716 | the mute flag flips; the call raises exactly when it mutes |
| Pomodoro.PomodoroApp.PlayAudio | pomodoro.py:498-502 | audio plays iff the app is not muted (no caller in the program uses this path) |
| Conversation.NewestFirst | utils/database.py:34-39 | the query returns min(limit, number of rows) rows, newest first |
| Conversation.NewestFirstReversed | utils/database.py:34-39 | reversing the query result gives the latest rows in the order they were written |
| Conversation.Reverse | utils/voice_assistant.py:40-64 | the reversal of the queried rows: same length, element i is element n-1-i of the input |
| Conversation.ConversationDatabase.constructor | utils/database.py:6-10 | a new database holds the stored rows if the table exists |
| Conversation.ConversationDatabase.CreateTable | utils/database.py:17-25 | afterwards the table exists and no row has changed |
| Conversation.ConversationDatabase.AddMessage | utils/database.py:27-32 | raises iff the table is missing; otherwise exactly one row is appended |
| Conversation.ConversationDatabase.GetConversationHistory | utils/database.py:34-39 | raises iff the table is missing; otherwise returns `NewestFirst` of the rows |
| Conversation.ConversationDatabase.ClearHistory | utils/database.py:41-46 | raises iff the table is missing; otherwise no rows remain |
| Voice.TrailingSilence | utils/voice_assistant.py:133-140 | the silent-frame counter: the number of non-speech frames at the end, preceded by a speech frame if any |
| Voice.Stops | utils/voice_assistant.py:133-140 | no contract of its own: the stop test, speech heard and more than 50 trailing silent frames; `RecordAudioVad` stops at its first point |
| Voice.Kept | utils/voice_assistant.py:133-140 | no contract of its own: the buffer as the loop builds it; `KeptFromFirstSpeech` states what it holds |
| Voice.FirstSpeech | utils/voice_assistant.py:133-140 | the first speech frame: it is speech and every frame before it is not |
| Voice.NeverStoppedPrefixes | utils/voice_assistant.py:120-158 | if recording has not stopped after any of the first n frames, no prefix of them meets the stop condition |
| Voice.StepFrame | utils/voice_assistant.py:120-140 | reading one more frame updates the silent-frame counter, the speech flag, the buffer and the not-yet-stopped condition as the loop body does |
| Voice.KeptFromFirstSpeech | utils/voice_assistant.py:133-140 | the buffer is exactly the frames from the first speech frame to the last frame read, and empty when there was no speech |
| Voice.LatestRows | utils/voice_assistant.py:40-64 | the restored turns are the last min(10, rows) rows, oldest first |
| Voice.Request | utils/voice_assistant.py:182-208 | the request is the first min(10, window) entries of the window and then the user turn; the turn carries text plus image iff a non-empty screenshot is given |
| Voice.RequestHistoryPart | utils/voice_assistant.py:182-190 | the history part of a request is the window's first ten entries; all of a window of at most ten |
| Voice.AppendAndTrim | utils/voice_assistant.py:219-224 | appending a reply and trimming keeps at most 11 messages with the system message first and the reply last; a full window drops only its oldest turn |
| Voice.Trim | utils/voice_assistant.py:223-224 | no contract of its own: the trim; `AppendAndTrim` states its effect |
| Voice.ChooseVoice | utils/voice_assistant.py:234-244 | empty text is not spoken; the voice is the AI_VOICE setting when it is one of the six voices, otherwise "onyx" |
| Voice.FeedbackPaths | utils/voice_assistant.py:270-318 | every path starts with "Listening..." and ends with "Press to Talk"; "Speaking..." is shown iff speech was heard and transcribed; "Looking at screen..." iff, in addition, the vision setting is truthy; "Error. Check log." iff recording raised |
| Voice.Feedback | utils/voice_assistant.py:270-318 | no contract of its own: the status messages of each path; `FeedbackPaths` states their shape |
| Voice.VoiceAssistant.constructor | utils/voice_assistant.py:32-38 | a new assistant's window is valid and, when the table exists, is the system message plus the latest ten rows |
| Voice.VoiceAssistant.LoadConversationHistory | utils/voice_assistant.py:40-64 | raises iff the table is missing; otherwise the window is the system message plus the latest ten rows in written order, at most 11 messages |
| Voice.VoiceAssistant.RecordAudioVad | utils/voice_assistant.py:110-161 | fewer than 1 input channel raises; otherwise at most 2000 frames are read, recording stops at the first point where speech has been followed by more than 50 silent frames, the buffer holds the frames from the first speech frame on, and the result is true iff the recording ended normally with speech and the file was saved |
| Voice.VoiceAssistant.GenerateResponse | utils/voice_assistant.py:179-231 | the request sent, the log (user turn, then reply), the reply returned (or "" on failure) and the new window, which is the old one plus the reply, trimmed; the window stays valid |
| Voice.VoiceAssistant.Respond | utils/voice_assistant.py:297-300 | `generate_response` then `text_to_speech`: the request, log and window of `GenerateResponse`; the voice is `ChooseVoice` of the reply, or none when the reply failed |
| Voice.VoiceAssistant.HandleVoiceCommand | utils/voice_assistant.py:270-318 | on every path the `finally` block re-enables the talk button and the label ends at "Press to Talk"; the status messages are `Feedback`'s; a request is sent iff speech was heard, transcribed and the table exists, with the screenshot only when vision is on; for such a command, the log gains the user turn and, given a reply, the assistant turn; the window is the old one plus the reply, trimmed; the voice is `ChooseVoice` of the reply (nothing for an empty or failed one); otherwise nothing is logged, kept or spoken |
| AudioDevices.BestIndex | testing/testaudio.py:68-72 | the kept device position is within the list |
| AudioDevices.Names | testing/testaudio.py:66-74 | no contract of its own: the names the refresh lists, output devices only, in first-appearance order; `NamesListOutputsOnce` and `NamesOnlyGrow` state its meaning and `RefreshDeviceList` lists exactly it |
| AudioDevices.NamesListOutputsOnce | testing/testaudio.py:66-74 | every listed name appears once; a name is listed iff some device with it has output channels |
| AudioDevices.NamesOnlyGrow | testing/testaudio.py:68-74 | later devices never move a listed name: the list for a prefix is a prefix of the full list |
| AudioDevices.BestIndexIsFirstMaximum | testing/testaudio.py:66-72 | the kept device for a name is an output device of that name with the most channels, the earliest on ties; none iff no output device has that name |
| AudioDevices.KeepsBestSnoc | testing/testaudio.py:66-72 | one pass of the de-duplication loop keeps the dictionary holding exactly the listed names, each mapped to the device `BestIndex` keeps |
| AudioDevices.DeviceCombobox.constructor | testing/testaudio.py:62-80 | a new chooser is empty with the given selection |
| AudioDevices.RefreshDeviceList | testing/testaudio.py:62-80 | the chooser lists `Names` of the devices and selects the default's name; the dictionary maps each listed name to its kept device |
| AudioDevices.Candidates | testing/testaudio.py:39 | every candidate has the selected name and output channels |
| AudioDevices.FirstMax | testing/testaudio.py:46 | the chosen candidate is one of them and has the most channels |
| AudioDevices.Shape | testing/testaudio.py:52-53 | the tone is widened to one column per channel iff the count exceeds 1 |
| AudioDevices.PlayToneChoice | testing/testaudio.py:28-53 | the selection always becomes the default device's name; the tone shape follows the chosen channel count |
| AudioDevices.CandidatesMatchBest | testing/testaudio.py:39-72 | there are no candidates iff the list keeps no device for the name; otherwise the chosen candidate is the kept device |
| AudioDevices.ToneUsesListedDevice | testing/testaudio.py:28-77 | the tone plays on the device the list keeps under the default name, or on the default index and channel count when there is none |
| AudioDevices.PlayTone | testing/testaudio.py:20-53 | the choice is `PlayToneChoice` of the previous selection; the chooser now selects the default name and its list is unchanged |

## Left out

- Tk widgets, labels, button states, colours and the `MM:SS` label update are not modelled, except the talk button re-enabled by `handle_voice_command`, which is `HandleVoiceCommand`'s `talkEnabled` result. `FormatTime` is the text that would be shown.
- Threads and `master.after` scheduling are not modelled. Each call of `Tick` is one scheduled tick. Two tick chains can coexist when a pause is followed by a resume within the same second; that case is concurrency and is not modelled.
- The OpenAI calls (transcription, chat, speech) are parameters, as is `utils/ai_utils.py`. The quote fetch runs in a thread whose exceptions are caught, so it never changes timer state. pomodoro.py:523 passes three arguments to a method taking two; that call always fails and is caught.
- Audio I/O, webrtcvad and the screenshot (capture, PNG encoding, float-ratio resize) are not modelled. The voice-activity decisions and the screenshot text are inputs.
- `APIKeyManager` (Fernet encryption and key files) is not modelled. The apply loop returns the keys it would hand over. Note that `InvalidToken` is referenced without being imported.
- `play_sound`, `sd.stop()`, logging and the `timer` decorator are not modelled: they are output only.
- `update_focus_length` and `update_break_length` (pomodoro.py:405-419) are not modelled, and neither is `update_timer_settings` (pomodoro.py:542-551). The first two are never bound to a variable trace and the third is never called, so none of them can run.
- `SettingsWindow` layout and `reinitialize_ai_utils` are not modelled. The callback is reduced to "raises or not".
- `int()` of a setting that is not a number is not modelled. `Config` takes lengths as natural numbers, and negative or non-integer minutes are out of scope.
- JSON objects and arrays as setting values are not modelled. `Json` has only scalars.
- Settings.Load: a settings file whose top level is not an object (a list or a number) is not modelled. `FileContent` holds a dictionary, `null`, or an unparseable file. On such a file the source raises at `.get` or at a subscript.
- Python's `str.isdigit` accepts non-ASCII digits. `ResolveDevice` accepts only '0' to '9'.
- ConversationDatabase: rows are ordered by insertion. SQLite orders by a timestamp with one-second resolution, so the order of rows written in the same second is unspecified in the source.
- `ConversationDatabase.close` and the per-thread connections are not modelled.
- Voice.VoiceAssistant.constructor: when the table is missing, the source's constructor raises. The model keeps the window at the system message instead.
- Voice.VoiceAssistant.GenerateResponse: the second insert is not checked for failure, because the table exists after the first insert succeeds. A reply whose content is `None` is not modelled.
- Settings.Save: a failed write is modelled as leaving the file unchanged. In the source, `open('w')` (utils/settings.py:97) truncates the file before `json.dump`, so a write that fails after the open leaves the file empty or partial. `WithDefaults` inherits this.
- Pomodoro.PomodoroApp.ReloadUserSettings: the corrected reload leaves out the call to `update_audio_devices`. Devices are resolved by the separate `UpdateAudioDevices`. `ResolveDeviceIdempotent` shows that re-running it with unchanged settings changes nothing.
- Pomodoro.PomodoroApp.constructor: it takes the loaded settings, the stored cycle count and the default devices as arguments. It does not model the crash at pomodoro.py:52 (`set_volume` does not exist). Nor does it model the device update at line 53, `self.update_audio_devices()`: with line 52 fixed, it would raise in turn at pomodoro.py:494.
- The system prompt's wording is not modelled. `SYSTEM_MESSAGE` stands for it.

## Findings

| source | as written | input that shows it | evidently intended | confidence | as-written member | corrected member |
|---|---|---|---|---|---|---|
| pomodoro.py:494 | `reload_user_settings` ends in `update_audio_devices`, which calls `self.voice_assistant.update_audio_devices`; `VoiceAssistant` defines no such method, so every reload raises `AttributeError` right after `remaining_time` is reset, and `start_pomodoro`, `reset_pomodoro`, `switch_mode` and `start_break` stop there | constructing `PomodoroApp`: pomodoro.py:53 calls `update_audio_devices`, which raises at line 494 (once the `set_volume` crash at line 52 is removed). The same raise makes every later Start leave a stopped timer stopped, with only its clock rewound | the reload returns and the handler goes on, so Start runs a focus session | high (not executed) | PomodoroSpec.StartAsWrittenNeverRuns | PomodoroSpec.StartFromIdleRuns |
| pomodoro.py:627 | in `switch_mode` the failing reload comes before `self.running = False` (pomodoro.py:628), and it is reached from the branch of `pomodoro_timer` that schedules no further call | none in the program as written: the timer never runs there, because `start_pomodoro` (pomodoro.py:558) and `start_break` (pomodoro.py:452) raise at the reload before setting `running`, and Resume is bound only after that reload (pomodoro.py:561, 580). This is a latent ordering defect: whenever the reload raises from a running focus session at zero, the timer stays running with a full focus session on the clock, uncounted, and no tick follows | `running = False` comes first, so the timer stops; with the reload returning, the session is counted and a short break starts | low (not executed; latent) | PomodoroSpec.FocusEndAsWrittenFreezes | PomodoroSpec.FocusEndEntersShortBreak |
