/** The session timer of `PomodoroApp` as a state machine over values. Every
    operation that enters a session runs one tick at once, exactly as the
    source's `pomodoro_timer()` call at the end of each entry method does, so
    the functions below are mutually recursive; the class in `Pomodoro` is
    proved to follow them. */
module PomodoroSpec {
  import opened Common
  import Settings
  import Display

  const MAX_WORK_SESSIONS: nat := 4
  const MAX_BREAK_SESSIONS: nat := 4
  const WORK_CYCLES_KEY: string := "WORK_CYCLES_COMPLETED"

  /** Session lengths in seconds: `FOCUS_TIME`, `BREAK_TIME` and
      `LONG_BREAK_TIME` minutes times 60. No method of the app writes these
      three keys, so every settings reload yields the same lengths. */
  datatype Config = Config(focusLength: nat, shortBreak: nat, longBreakLength: nat)

  /** The timer fields of `PomodoroApp`, the progress bar's `maximum` and
      `value`, and the settings store the app persists its cycle count to. */
  datatype TimerState = TimerState(
    running: bool,
    isFocusTime: bool,
    remainingTime: int,
    pausedTime: Option<int>,        // None until the first pause
    isResuming: bool,
    workSessionsCompleted: nat,
    breakSessionsCompleted: nat,
    workCyclesCompleted: int,
    isMuted: bool,
    progressMaximum: int,
    progressValue: int,
    store: Settings.Store)

  /** Holds in every state the app can reach. */
  predicate Valid(t: TimerState)
  {
    && t.remainingTime >= 0
    && (t.pausedTime.Some? ==> t.pausedTime.value >= 0)
    && t.workSessionsCompleted < MAX_WORK_SESSIONS
    && t.breakSessionsCompleted < MAX_BREAK_SESSIONS
  }

  /** Decreases along every chain of immediate ticks: ending a focus session
      enters a break, and ending a break counts one more break session. */
  function Measure(t: TimerState): nat
    requires Valid(t)
  {
    2 * (MAX_BREAK_SESSIONS - t.breakSessionsCompleted) + (if t.isFocusTime then 1 else 0)
  }

  /** `reload_user_settings`: `initialize_timing` sets `remaining_time` back
      to the focus length. (As written the method then raises; see
      `ReloadAsWritten`.) */
  function Reload(c: Config, t: TimerState): TimerState
  {
    t.(remainingTime := c.focusLength)
  }

  /** `settings_manager.update_setting(WORK_CYCLES_COMPLETED, n)` followed by
      `save_settings()`; the second component says whether either raised. */
  function PersistCycles(st: Settings.Store, cycles: int, writeOk: bool): (r: (Settings.Store, bool))
    ensures r.1 <==> st.settings.None? || "AI_VOICE" !in st.settings.value
    ensures !r.1 ==> r.0.settings == Some(st.settings.value[WORK_CYCLES_KEY := JInt(cycles)])
    ensures r.0.file ==
      if !r.1 && Settings.IsValidVoice(st.settings.value["AI_VOICE"]) && writeOk
      then Some(Settings.Parsed(r.0.settings)) else st.file
  {
    match Settings.Update(st.settings, WORK_CYCLES_KEY, JInt(cycles))
    case Raised => (st, true)
    case Returned(m) =>
      var saved := Settings.Save(st.(settings := Some(m)), writeOk, Settings.NoCallback);
      (saved.0, saved.1.Raised?)
  }

  /** `pomodoro_timer`: one tick. */
  function Timer(c: Config, t: TimerState, writeOk: bool): (r: TimerState)
    requires Valid(t)
    ensures Valid(r)
    decreases Measure(t), 3
  {
    if t.remainingTime > 0 && t.running then
      t.(remainingTime := t.remainingTime - 1,
         progressValue := t.progressMaximum - (t.remainingTime - 1))
    else if t.running then
      if !t.isFocusTime && t.workSessionsCompleted == 0 then EndLongBreak(c, t)
      else SwitchMode(c, t, writeOk)
    else t
  }

  /** `switch_mode`. */
  function SwitchMode(c: Config, t: TimerState, writeOk: bool): (r: TimerState)
    requires Valid(t)
    ensures Valid(r)
    decreases Measure(t), 2
  {
    var t1 := Reload(c, t).(running := false);
    if t1.isFocusTime then
      var work := t1.workSessionsCompleted + 1;
      if work >= MAX_WORK_SESSIONS then
        CompleteCycle(c, t1, writeOk)
      else
        StartBreak(c, t1.(isFocusTime := false, remainingTime := c.shortBreak, workSessionsCompleted := work), writeOk)
    else
      var breaks := t1.breakSessionsCompleted + 1;
      if breaks >= MAX_BREAK_SESSIONS then Reset(c, t1)
      else
        StartPomodoro(c, t1.(isFocusTime := true, remainingTime := c.focusLength, breakSessionsCompleted := breaks), writeOk)
  }

  /** The fourth focus session of a cycle has ended: count the cycle, clear
      the work counter, persist the count and start the long break. A raise
      while persisting leaves the timer stopped. */
  function CompleteCycle(c: Config, t: TimerState, writeOk: bool): (r: TimerState)
    requires Valid(t) && t.isFocusTime
    ensures Valid(r)
    decreases Measure(t), 1
  {
    var t2 := t.(workCyclesCompleted := t.workCyclesCompleted + 1, workSessionsCompleted := 0);
    var persisted := PersistCycles(t2.store, t2.workCyclesCompleted, writeOk);
    var t3 := t2.(store := persisted.0);
    if persisted.1 then t3 else StartLongBreak(c, t3, writeOk)
  }

  /** `start_break`. */
  function StartBreak(c: Config, t: TimerState, writeOk: bool): (r: TimerState)
    requires Valid(t)
    ensures Valid(r)
    decreases Measure(t), 4
  {
    var t1 := Reload(c, t);
    var t2 := if t1.running && t1.isFocusTime then t1.(running := false, isFocusTime := false) else t1;
    Timer(c, t2.(running := true, remainingTime := c.shortBreak,
                 progressMaximum := c.shortBreak, progressValue := 0), writeOk)
  }

  /** `start_pomodoro`: a no-op apart from the reload when already running. */
  function StartPomodoro(c: Config, t: TimerState, writeOk: bool): (r: TimerState)
    requires Valid(t)
    ensures Valid(r)
    decreases Measure(t), 4
  {
    var t1 := Reload(c, t);
    if !t1.running then
      var t2 := t1.(running := true, isResuming := false);
      Timer(c, t2.(progressMaximum := c.focusLength, progressValue := 0), writeOk)
    else t1
  }

  /** `start_long_break`. */
  function StartLongBreak(c: Config, t: TimerState, writeOk: bool): (r: TimerState)
    requires Valid(t) && t.isFocusTime
    ensures Valid(r)
    decreases Measure(t), 0
  {
    Timer(c, t.(isFocusTime := false, remainingTime := c.longBreakLength,
                progressMaximum := c.longBreakLength, progressValue := 0, running := true), writeOk)
  }

  /** `end_long_break`. */
  function EndLongBreak(c: Config, t: TimerState): (r: TimerState)
  {
    t.(running := false, isFocusTime := true, remainingTime := c.focusLength,
       progressMaximum := c.focusLength, progressValue := 0,
       workSessionsCompleted := 0, breakSessionsCompleted := 0)
  }

  /** `pause_pomodoro`. */
  function Pause(t: TimerState): TimerState
  {
    t.(running := false, pausedTime := Some(t.remainingTime))
  }

  /** `resume_pomodoro`: reading `paused_time` before any pause raises. */
  function Resume(c: Config, t: TimerState, writeOk: bool): (r: Outcome<TimerState>)
    requires Valid(t)
    ensures r.Raised? <==> t.pausedTime.None?
    ensures r.Returned? ==> Valid(r.value)
  {
    match t.pausedTime
    case None => Raised
    case Some(p) => Returned(Timer(c, t.(remainingTime := p, running := true), writeOk))
  }

  /** `reset_pomodoro`. */
  function Reset(c: Config, t: TimerState): TimerState
  {
    Reload(c, t).(running := false, isFocusTime := true, remainingTime := c.focusLength,
                  isResuming := false, progressValue := 0,
                  workSessionsCompleted := 0, breakSessionsCompleted := 0)
  }

  /** `skip_break`: only a running break can be skipped; the new focus session
      is entered through `start_pomodoro`, which finds the timer running. */
  function SkipBreak(c: Config, t: TimerState, writeOk: bool): (r: TimerState)
    requires Valid(t)
    ensures Valid(r)
  {
    if !t.isFocusTime && t.running then
      StartPomodoro(c, t.(breakSessionsCompleted := 0, isFocusTime := true, remainingTime := c.focusLength,
                          progressMaximum := c.focusLength, progressValue := 0), writeOk)
    else t
  }

  /** `handle_toggle_mute`: the flag flips; muting then calls
      `voice_assistant.stop_audio_playback`, which `VoiceAssistant` does not
      define, so muting raises (the second component). */
  function ToggleMute(t: TimerState): (r: (TimerState, bool))
  {
    var t1 := t.(isMuted := !t.isMuted);
    (t1, t1.isMuted)
  }

  /** `n` ticks in a row. */
  function Ticks(c: Config, t: TimerState, n: nat, writeOk: bool): (r: TimerState)
    requires Valid(t)
    ensures Valid(r)
    decreases n
  {
    if n == 0 then t else Ticks(c, Timer(c, t, writeOk), n - 1, writeOk)
  }

  // ---------------------------------------------------------------------
  // One tick

  lemma TickCountsDown(c: Config, t: TimerState, writeOk: bool)
    requires Valid(t) && t.running && t.remainingTime > 0
    ensures var r := Timer(c, t, writeOk);
      && r.remainingTime == t.remainingTime - 1 >= 0
      && r.progressValue == r.progressMaximum - r.remainingTime
      && r == t.(remainingTime := r.remainingTime, progressValue := r.progressValue)
  {
  }

  lemma TickWhileStoppedChangesNothing(c: Config, t: TimerState, writeOk: bool)
    requires Valid(t) && !t.running
    ensures Timer(c, t, writeOk) == t
  {
  }

  /** A tick at zero ends a long break (a break with no completed work
      sessions) and otherwise switches mode. */
  lemma TickAtZeroDispatches(c: Config, t: TimerState, writeOk: bool)
    requires Valid(t) && t.running && t.remainingTime == 0
    ensures var r := Timer(c, t, writeOk);
      if !t.isFocusTime && t.workSessionsCompleted == 0 then
        && !r.running && r.isFocusTime && r.remainingTime == c.focusLength
        && r.workSessionsCompleted == 0 && r.breakSessionsCompleted == 0
        && r.workCyclesCompleted == t.workCyclesCompleted && r.store == t.store
      else r == SwitchMode(c, t, writeOk)
  {
  }

  /** Counting down from `remainingTime` takes exactly that many ticks and
      leaves the session running at zero with a full progress bar; the next
      tick is the one that ends the session. */
  lemma {:induction false} CountdownReachesZero(c: Config, t: TimerState, k: nat, writeOk: bool)
    requires Valid(t) && t.running && 0 < k <= t.remainingTime
    ensures Ticks(c, t, k, writeOk) ==
      t.(remainingTime := t.remainingTime - k, progressValue := t.progressMaximum - (t.remainingTime - k))
    decreases k
  {
    var t1 := Timer(c, t, writeOk);
    if k > 1 {
      CountdownReachesZero(c, t1, k - 1, writeOk);
    }
  }

  // ---------------------------------------------------------------------
  // Ending sessions

  /** Ending one of the first three focus sessions of a cycle enters a running
      short break, which has already ticked once. */
  lemma FocusEndEntersShortBreak(c: Config, t: TimerState, writeOk: bool)
    requires Valid(t) && t.running && t.isFocusTime && t.remainingTime == 0
    requires t.workSessionsCompleted + 1 < MAX_WORK_SESSIONS && c.shortBreak > 0
    ensures var r := Timer(c, t, writeOk);
      && r.running && !r.isFocusTime
      && r.workSessionsCompleted == t.workSessionsCompleted + 1
      && r.breakSessionsCompleted == t.breakSessionsCompleted
      && r.workCyclesCompleted == t.workCyclesCompleted
      && r.remainingTime == c.shortBreak - 1
      && r.progressMaximum == c.shortBreak && r.progressValue == 1
      && r.store == t.store
  {
    var t1 := Reload(c, t).(running := false);
    var tb := t1.(isFocusTime := false, remainingTime := c.shortBreak,
                  workSessionsCompleted := t.workSessionsCompleted + 1);
    var t3 := tb.(running := true, remainingTime := c.shortBreak, progressMaximum := c.shortBreak, progressValue := 0);
    assert SwitchMode(c, t, writeOk) == StartBreak(c, tb, writeOk);
    assert StartBreak(c, tb, writeOk) == Timer(c, t3, writeOk);
  }

  /** Ending the fourth focus session completes a work cycle: the counter
      restarts, the cycle count goes up by one and is persisted, and a running
      long break begins (already ticked once). */
  lemma FocusEndCompletesCycle(c: Config, t: TimerState, writeOk: bool)
    requires Valid(t) && t.running && t.isFocusTime && t.remainingTime == 0
    requires t.workSessionsCompleted + 1 == MAX_WORK_SESSIONS && c.longBreakLength > 0
    requires t.store.settings.Some? && "AI_VOICE" in t.store.settings.value
    ensures var r := Timer(c, t, writeOk);
      && r.running && !r.isFocusTime
      && r.workSessionsCompleted == 0
      && r.workCyclesCompleted == t.workCyclesCompleted + 1
      && r.breakSessionsCompleted == t.breakSessionsCompleted
      && r.remainingTime == c.longBreakLength - 1
      && r.progressMaximum == c.longBreakLength && r.progressValue == 1
      && r.store.settings == Some(t.store.settings.value[WORK_CYCLES_KEY := JInt(t.workCyclesCompleted + 1)])
      && r.store.file == (if Settings.IsValidVoice(t.store.settings.value["AI_VOICE"]) && writeOk
                          then Some(Settings.Parsed(r.store.settings)) else t.store.file)
  {
    var t1 := Reload(c, t).(running := false);
    var t2 := t1.(workCyclesCompleted := t.workCyclesCompleted + 1, workSessionsCompleted := 0);
    var persisted := PersistCycles(t2.store, t2.workCyclesCompleted, writeOk);
    var t3 := t2.(store := persisted.0);
    var t4 := t3.(isFocusTime := false, remainingTime := c.longBreakLength,
                  progressMaximum := c.longBreakLength, progressValue := 0, running := true);
    assert !persisted.1;
    assert SwitchMode(c, t, writeOk) == StartLongBreak(c, t3, writeOk);
    assert StartLongBreak(c, t3, writeOk) == Timer(c, t4, writeOk);
  }

  /** When the store cannot persist the cycle count (no map, or no `AI_VOICE`
      to validate), the exception stops `switch_mode` before the long break:
      the timer is left stopped in focus mode, the file is not written, but an
      existing in-memory map keeps the new count. */
  lemma FocusEndWithBrokenStoreStops(c: Config, t: TimerState, writeOk: bool)
    requires Valid(t) && t.running && t.isFocusTime && t.remainingTime == 0
    requires t.workSessionsCompleted + 1 == MAX_WORK_SESSIONS
    requires t.store.settings.None? || "AI_VOICE" !in t.store.settings.value
    ensures var r := Timer(c, t, writeOk);
      && !r.running && r.isFocusTime && r.remainingTime == c.focusLength
      && r.workSessionsCompleted == 0 && r.workCyclesCompleted == t.workCyclesCompleted + 1
      && r.store.file == t.store.file
      && r.store.settings == (if t.store.settings.None? then None
                              else Some(t.store.settings.value[WORK_CYCLES_KEY := JInt(t.workCyclesCompleted + 1)]))
  {
    assert PersistCycles(t.store, t.workCyclesCompleted + 1, writeOk).1;
    assert Timer(c, t, writeOk) == SwitchMode(c, t, writeOk);
  }

  /** Ending a short break starts the next focus session, already ticked once. */
  lemma BreakEndStartsFocus(c: Config, t: TimerState, writeOk: bool)
    requires Valid(t) && t.running && !t.isFocusTime && t.remainingTime == 0
    requires t.workSessionsCompleted > 0 && t.breakSessionsCompleted + 1 < MAX_BREAK_SESSIONS
    requires c.focusLength > 0
    ensures var r := Timer(c, t, writeOk);
      && r.running && r.isFocusTime && !r.isResuming
      && r.breakSessionsCompleted == t.breakSessionsCompleted + 1
      && r.workSessionsCompleted == t.workSessionsCompleted
      && r.workCyclesCompleted == t.workCyclesCompleted
      && r.remainingTime == c.focusLength - 1
      && r.progressMaximum == c.focusLength && r.progressValue == 1
  {
    var t1 := Reload(c, t).(running := false);
    var tf := t1.(isFocusTime := true, remainingTime := c.focusLength,
                  breakSessionsCompleted := t.breakSessionsCompleted + 1);
    var t3 := tf.(running := true, isResuming := false, progressMaximum := c.focusLength, progressValue := 0);
    assert SwitchMode(c, t, writeOk) == StartPomodoro(c, tf, writeOk);
    assert StartPomodoro(c, tf, writeOk) == Timer(c, t3, writeOk);
  }

  /** Ending the fourth break of a run resets the timer. */
  lemma BreakEndAtLimitResets(c: Config, t: TimerState, writeOk: bool)
    requires Valid(t) && t.running && !t.isFocusTime && t.remainingTime == 0
    requires t.workSessionsCompleted > 0 && t.breakSessionsCompleted + 1 == MAX_BREAK_SESSIONS
    ensures var r := Timer(c, t, writeOk);
      && !r.running && r.isFocusTime && r.remainingTime == c.focusLength
      && r.workSessionsCompleted == 0 && r.breakSessionsCompleted == 0
      && r.workCyclesCompleted == t.workCyclesCompleted
  {
  }

  // ---------------------------------------------------------------------
  // Buttons

  /** `reset_pomodoro` from any state stops in focus mode with a full focus
      session and cleared session counters; the cycle count is kept. */
  lemma ResetLandsIdle(c: Config, t: TimerState)
    ensures var r := Reset(c, t);
      && !r.running && r.isFocusTime && r.remainingTime == c.focusLength && !r.isResuming
      && r.workSessionsCompleted == 0 && r.breakSessionsCompleted == 0
      && r.workCyclesCompleted == t.workCyclesCompleted && r.store == t.store
  {
  }

  /** Resuming restores exactly the time saved by the pause, then ticks. */
  lemma PauseThenResume(c: Config, t: TimerState, writeOk: bool)
    requires Valid(t)
    ensures Resume(c, Pause(t), writeOk) ==
      Returned(Timer(c, t.(running := true, pausedTime := Some(t.remainingTime)), writeOk))
    ensures t.remainingTime > 0 ==>
      && Resume(c, Pause(t), writeOk).value.running
      && Resume(c, Pause(t), writeOk).value.remainingTime == t.remainingTime - 1
  {
  }

  lemma PauseIsIdempotent(t: TimerState)
    ensures Pause(Pause(t)) == Pause(t)
  {
  }

  /** Pressing start while the timer runs does not start anything, but the
      settings reload still rewinds the clock to a full focus session. */
  lemma StartWhileRunningRewinds(c: Config, t: TimerState, writeOk: bool)
    requires Valid(t) && t.running
    ensures StartPomodoro(c, t, writeOk) == t.(remainingTime := c.focusLength)
  {
  }

  /** Skipping acts only on a running break; it keeps the timer running in a
      fresh focus session and clears only the break counter. */
  lemma SkipBreakEntersFocus(c: Config, t: TimerState, writeOk: bool)
    requires Valid(t)
    ensures var r := SkipBreak(c, t, writeOk);
      if t.isFocusTime || !t.running then r == t
      else
        && r.running && r.isFocusTime && r.remainingTime == c.focusLength
        && r.breakSessionsCompleted == 0
        && r.workSessionsCompleted == t.workSessionsCompleted
        && r.workCyclesCompleted == t.workCyclesCompleted
        && r.progressMaximum == c.focusLength && r.progressValue == 0
  {
  }

  lemma ToggleMuteTwiceRestores(t: TimerState)
    ensures ToggleMute(ToggleMute(t).0).0 == t
    ensures ToggleMute(t).1 <==> !t.isMuted
  {
  }

  // ---------------------------------------------------------------------
  // The break limit is never reached while the store is sound

  /** The settings store can persist the cycle count without raising. */
  predicate StoreSound(st: Settings.Store)
  {
    st.settings.Some? && "AI_VOICE" in st.settings.value
  }

  /** Breaks against completed work sessions: in focus mode at most as many,
      during a short break (work sessions > 0) strictly fewer. During the long
      break, where the work sessions are cleared, it says nothing. */
  predicate Coupled(t: TimerState)
  {
    && (t.isFocusTime ==> t.breakSessionsCompleted <= t.workSessionsCompleted)
    && (!t.isFocusTime && t.workSessionsCompleted > 0 ==> t.breakSessionsCompleted < t.workSessionsCompleted)
  }

  predicate Reachable(t: TimerState)
  {
    Valid(t) && Coupled(t) && StoreSound(t.store)
  }

  lemma PersistKeepsSound(st: Settings.Store, cycles: int, writeOk: bool)
    requires StoreSound(st)
    ensures !PersistCycles(st, cycles, writeOk).1 && StoreSound(PersistCycles(st, cycles, writeOk).0)
  {
  }

  lemma {:induction false} TimerKeepsReachable(c: Config, t: TimerState, writeOk: bool)
    requires Reachable(t)
    ensures Reachable(Timer(c, t, writeOk))
    decreases Measure(t), 3
  {
    if t.remainingTime > 0 && t.running {
    } else if t.running {
      if !t.isFocusTime && t.workSessionsCompleted == 0 {
      } else {
        SwitchKeepsReachable(c, t, writeOk);
      }
    }
  }

  lemma {:induction false} SwitchKeepsReachable(c: Config, t: TimerState, writeOk: bool)
    requires Reachable(t) && (t.isFocusTime || t.workSessionsCompleted > 0)
    ensures Reachable(SwitchMode(c, t, writeOk))
    decreases Measure(t), 2
  {
    var t1 := Reload(c, t).(running := false);
    if t1.isFocusTime {
      var work := t1.workSessionsCompleted + 1;
      if work >= MAX_WORK_SESSIONS {
        var t2 := t1.(workCyclesCompleted := t1.workCyclesCompleted + 1, workSessionsCompleted := 0);
        PersistKeepsSound(t2.store, t2.workCyclesCompleted, writeOk);
        var t3 := t2.(store := PersistCycles(t2.store, t2.workCyclesCompleted, writeOk).0);
        LongBreakKeepsReachable(c, t3, writeOk);
      } else {
        BreakKeepsReachable(c, t1.(isFocusTime := false, remainingTime := c.shortBreak, workSessionsCompleted := work), writeOk);
      }
    } else {
      var breaks := t1.breakSessionsCompleted + 1;
      if breaks < MAX_BREAK_SESSIONS {
        StartKeepsReachable(c, t1.(isFocusTime := true, remainingTime := c.focusLength, breakSessionsCompleted := breaks), writeOk);
      }
    }
  }

  /** `start_break` is entered only from `switch_mode`, in break mode. */
  lemma {:induction false} BreakKeepsReachable(c: Config, t: TimerState, writeOk: bool)
    requires Reachable(t) && !t.isFocusTime
    ensures Reachable(StartBreak(c, t, writeOk))
    decreases Measure(t), 4
  {
    TimerKeepsReachable(c, Reload(c, t).(running := true, remainingTime := c.shortBreak,
                                         progressMaximum := c.shortBreak, progressValue := 0), writeOk);
  }

  lemma {:induction false} StartKeepsReachable(c: Config, t: TimerState, writeOk: bool)
    requires Reachable(t)
    ensures Reachable(StartPomodoro(c, t, writeOk))
    decreases Measure(t), 4
  {
    var t1 := Reload(c, t);
    if !t1.running {
      TimerKeepsReachable(c, t1.(running := true, isResuming := false, progressMaximum := c.focusLength, progressValue := 0), writeOk);
    }
  }

  lemma {:induction false} LongBreakKeepsReachable(c: Config, t: TimerState, writeOk: bool)
    requires Valid(t) && StoreSound(t.store) && t.isFocusTime && t.workSessionsCompleted == 0
    ensures Reachable(StartLongBreak(c, t, writeOk))
    decreases Measure(t), 1
  {
    TimerKeepsReachable(c, t.(isFocusTime := false, remainingTime := c.longBreakLength,
                              progressMaximum := c.longBreakLength, progressValue := 0, running := true), writeOk);
  }

  /** Every button and every tick keeps the timer reachable. */
  lemma OperationsKeepReachable(c: Config, t: TimerState, writeOk: bool)
    requires Reachable(t)
    ensures Reachable(Timer(c, t, writeOk))
    ensures Reachable(StartPomodoro(c, t, writeOk))
    ensures Reachable(Pause(t))
    ensures Resume(c, t, writeOk).Returned? ==> Reachable(Resume(c, t, writeOk).value)
    ensures Reachable(Reset(c, t))
    ensures Reachable(SkipBreak(c, t, writeOk))
    ensures Reachable(ToggleMute(t).0)
  {
    TimerKeepsReachable(c, t, writeOk);
    StartKeepsReachable(c, t, writeOk);
    if t.pausedTime.Some? {
      TimerKeepsReachable(c, t.(remainingTime := t.pausedTime.value, running := true), writeOk);
    }
    if !t.isFocusTime && t.running {
      StartKeepsReachable(c, t.(breakSessionsCompleted := 0, isFocusTime := true, remainingTime := c.focusLength,
                                progressMaximum := c.focusLength, progressValue := 0), writeOk);
    }
  }

  /** So while the store is sound, the `max_break_sessions` reset branch of
      `switch_mode` is never taken: a break that ends by switching mode
      always has fewer than three breaks behind it. */
  lemma BreakLimitUnreachable(t: TimerState)
    requires Reachable(t) && !t.isFocusTime && t.workSessionsCompleted > 0
    ensures t.breakSessionsCompleted + 1 < MAX_BREAK_SESSIONS
  {
  }

  // ---------------------------------------------------------------------
  // The app's start-up state

  /** `__init__`: stopped in focus mode with a full focus session. */
  function Initial(c: Config, cycles: int, store: Settings.Store): (t: TimerState)
    ensures Valid(t) && Coupled(t)
    ensures !t.running && t.isFocusTime && t.remainingTime == c.focusLength
  {
    TimerState(false, true, c.focusLength, None, false, 0, 0, cycles, false, c.focusLength, 0, store)
  }

  // ---------------------------------------------------------------------
  // Audio-device settings (`update_audio_devices`)

  /** A device given by index or by name, as `sounddevice` accepts it. */
  datatype DeviceRef = DeviceIndex(index: int) | DeviceName(name: string)

  /** `update_audio_devices`, for one direction: a falsy setting or "System
      Default" keeps the current device (the source assigns the slot to
      itself); a string of digits selects by index, any other string by name;
      a non-string setting raises on `.isdigit()`. */
  function ResolveDevice(setting: Json, current: DeviceRef): (r: Outcome<DeviceRef>)
    ensures r.Raised? <==> Truthy(setting) && !setting.JStr?
    ensures !Truthy(setting) || setting == JStr("System Default") ==> r == Returned(current)
  {
    if !Truthy(setting) || setting == JStr("System Default") then Returned(current)
    else match setting
      case JStr(s) => if Display.AllDigits(s) then Returned(DeviceIndex(Display.ValueOf(s))) else Returned(DeviceName(s))
      case _ => Raised
  }

  lemma ResolveDeviceByIndex(n: nat, current: DeviceRef)
    ensures ResolveDevice(JStr(Display.Decimal(n)), current) == Returned(DeviceIndex(n))
  {
    Display.DecimalRoundTrip(n);
  }

  lemma ResolveDeviceByName(s: string, i: nat, current: DeviceRef)
    requires i < |s| && !Display.IsDigit(s[i]) && s != "System Default"
    ensures ResolveDevice(JStr(s), current) == Returned(DeviceName(s))
  {
  }

  /** Resolving twice gives what resolving once gives, so re-running it on
      every settings reload (which never changes the device keys) is harmless. */
  lemma ResolveDeviceIdempotent(setting: Json, current: DeviceRef)
    ensures ResolveDevice(setting, current).Returned? ==>
      ResolveDevice(setting, ResolveDevice(setting, current).value) == ResolveDevice(setting, current)
  {
  }

  // ---------------------------------------------------------------------
  // The settings reload as written

  /** `reload_user_settings` as written: after `initialize_timing` has reset
      `remaining_time`, `update_audio_devices` calls
      `self.voice_assistant.update_audio_devices`, which `VoiceAssistant` does
      not define, so it always raises (second component). */
  function ReloadAsWritten(c: Config, t: TimerState): (r: (TimerState, bool))
    ensures r.1
  {
    (t.(remainingTime := c.focusLength), true)
  }

  /** `start_pomodoro` as written: the reload on its first line raises, so
      nothing after it runs. */
  function StartPomodoroAsWritten(c: Config, t: TimerState): TimerState
  {
    ReloadAsWritten(c, t).0
  }

  /** As written, Start never starts a stopped timer: it only rewinds the
      clock. */
  lemma StartAsWrittenNeverRuns(c: Config, t: TimerState)
    requires !t.running
    ensures StartPomodoroAsWritten(c, t) == t.(remainingTime := c.focusLength)
    ensures !StartPomodoroAsWritten(c, t).running
  {
  }

  /** `switch_mode` as written: the reload on its first line raises before
      `self.running = False`, so nothing after it runs. */
  function SwitchModeAsWritten(c: Config, t: TimerState): TimerState
  {
    ReloadAsWritten(c, t).0
  }

  /** `pomodoro_timer` as written: the countdown branch is the only one that
      schedules the next call. */
  function TimerAsWritten(c: Config, t: TimerState): TimerState
  {
    if t.remainingTime > 0 && t.running then
      t.(remainingTime := t.remainingTime - 1,
         progressValue := t.progressMaximum - (t.remainingTime - 1))
    else if t.running then
      if !t.isFocusTime && t.workSessionsCompleted == 0 then EndLongBreak(c, t)
      else SwitchModeAsWritten(c, t)
    else t
  }

  /** As written, a focus session that reaches zero is not counted and does
      not become a break: the timer is left running with a full session on
      the clock, and since the raising call came from the branch of
      `pomodoro_timer` that schedules nothing, no tick ever follows. */
  lemma FocusEndAsWrittenFreezes(c: Config, t: TimerState)
    requires t.running && t.isFocusTime && t.remainingTime == 0
    ensures var r := TimerAsWritten(c, t);
      && r.running && r.isFocusTime && r.remainingTime == c.focusLength
      && r.workSessionsCompleted == t.workSessionsCompleted
      && r.workCyclesCompleted == t.workCyclesCompleted
      && r.store == t.store
  {
  }

  /** With the reload returning normally, Start on a stopped timer starts a
      full focus session and has already ticked once. */
  lemma StartFromIdleRuns(c: Config, t: TimerState, writeOk: bool)
    requires Valid(t) && !t.running && c.focusLength > 0
    ensures var r := StartPomodoro(c, t, writeOk);
      && r.running && !r.isResuming
      && r.isFocusTime == t.isFocusTime
      && r.remainingTime == c.focusLength - 1
      && r.progressMaximum == c.focusLength && r.progressValue == 1
  {
  }
}
