/** `PomodoroApp`: the timer fields live on the object and every button
    handler and tick updates them in place. Each method is proved to move the
    object exactly as the matching function of `PomodoroSpec` moves its
    abstract state, so the lemmas proved there are about this class. */
module Pomodoro {
  import opened Common
  import Settings
  import S = PomodoroSpec

  class PomodoroApp {
    var running: bool
    var isFocusTime: bool
    var remainingTime: int
    var pausedTime: Option<int>
    var isResuming: bool
    var workSessionsCompleted: nat
    var breakSessionsCompleted: nat
    var workCyclesCompleted: int
    var isMuted: bool
    var progressMaximum: int
    var progressValue: int
    var inputDevice: S.DeviceRef
    var outputDevice: S.DeviceRef
    const config: S.Config
    const settingsManager: Settings.SettingsManager

    function Abstract(): S.TimerState
      reads this, settingsManager
    {
      S.TimerState(running, isFocusTime, remainingTime, pausedTime, isResuming,
                   workSessionsCompleted, breakSessionsCompleted, workCyclesCompleted,
                   isMuted, progressMaximum, progressValue, settingsManager.Abstract())
    }

    /** `__init__` once the settings are loaded: stopped, in focus mode, a full
        focus session on the clock, the stored cycle count, the system's
        default audio devices. */
    constructor (c: S.Config, manager: Settings.SettingsManager, cycles: int,
                 defaultInput: S.DeviceRef, defaultOutput: S.DeviceRef)
      ensures config == c && settingsManager == manager
      ensures Abstract() == S.Initial(c, cycles, manager.Abstract())
      ensures inputDevice == defaultInput && outputDevice == defaultOutput
    {
      config := c;
      settingsManager := manager;
      running := false;
      isFocusTime := true;
      remainingTime := c.focusLength;
      pausedTime := None;
      isResuming := false;
      workSessionsCompleted := 0;
      breakSessionsCompleted := 0;
      workCyclesCompleted := cycles;
      isMuted := false;
      progressMaximum := c.focusLength;
      progressValue := 0;
      inputDevice := defaultInput;
      outputDevice := defaultOutput;
    }

    /** `reload_user_settings`, returning normally (see `S.ReloadAsWritten`). */
    method ReloadUserSettings()
      modifies this
      ensures Abstract() == S.Reload(config, old(Abstract()))
      ensures inputDevice == old(inputDevice) && outputDevice == old(outputDevice)
    {
      remainingTime := config.focusLength;
    }

    /** `update_audio_devices` up to the call into the voice assistant: the
        input slot is resolved first, so a bad output setting leaves the new
        input device in place. */
    method UpdateAudioDevices() returns (raised: bool)
      modifies this`inputDevice, this`outputDevice
      ensures var inR := S.ResolveDevice(Settings.Get(settingsManager.settings, "INPUT_DEVICE", JNull), old(inputDevice));
              var outR := S.ResolveDevice(Settings.Get(settingsManager.settings, "OUTPUT_DEVICE", JNull), old(outputDevice));
        && (raised <==> inR.Raised? || outR.Raised?)
        && inputDevice == (if inR.Returned? then inR.value else old(inputDevice))
        && outputDevice == (if inR.Returned? && outR.Returned? then outR.value else old(outputDevice))
    {
      var inSetting := settingsManager.GetSetting("INPUT_DEVICE", JNull);
      var inR := S.ResolveDevice(inSetting, inputDevice);
      if inR.Raised? {
        return true;
      }
      inputDevice := inR.value;
      var outSetting := settingsManager.GetSetting("OUTPUT_DEVICE", JNull);
      var outR := S.ResolveDevice(outSetting, outputDevice);
      if outR.Raised? {
        return true;
      }
      outputDevice := outR.value;
      raised := false;
    }

    /** The two settings-manager calls in `switch_mode` that persist the
        cycle count. */
    method PersistCycles(writeOk: bool) returns (raised: bool)
      modifies settingsManager
      ensures (settingsManager.Abstract(), raised) ==
        S.PersistCycles(old(settingsManager.Abstract()), workCyclesCompleted, writeOk)
    {
      raised := settingsManager.UpdateSetting(S.WORK_CYCLES_KEY, JInt(workCyclesCompleted));
      if raised {
        return;
      }
      var saved := settingsManager.SaveSettings(writeOk, Settings.NoCallback);
      raised := saved.Raised?;
    }

    /** `pomodoro_timer`: one tick; the next is scheduled by the caller's
        clock. */
    method Tick(writeOk: bool)
      requires S.Valid(Abstract())
      modifies this, settingsManager
      ensures Abstract() == S.Timer(config, old(Abstract()), writeOk)
      ensures inputDevice == old(inputDevice) && outputDevice == old(outputDevice)
      decreases S.Measure(Abstract()), 4
    {
      if remainingTime > 0 && running {
        remainingTime := remainingTime - 1;
        progressValue := progressMaximum - remainingTime;
      } else if running {
        if !isFocusTime && workSessionsCompleted == 0 {
          EndLongBreak();
        } else {
          SwitchMode(writeOk);
        }
      }
    }

    /** `switch_mode`. */
    method SwitchMode(writeOk: bool)
      requires S.Valid(Abstract())
      modifies this, settingsManager
      ensures Abstract() == S.SwitchMode(config, old(Abstract()), writeOk)
      ensures inputDevice == old(inputDevice) && outputDevice == old(outputDevice)
      decreases S.Measure(Abstract()), 3
    {
      ReloadUserSettings();
      running := false;
      if isFocusTime {
        FocusEnded(writeOk);
      } else {
        BreakEnded(writeOk);
      }
    }

    /** The focus half of `switch_mode`, once the settings are reloaded and
        the timer stopped. */
    method FocusEnded(writeOk: bool)
      requires S.Valid(Abstract()) && isFocusTime && !running && remainingTime == config.focusLength
      modifies this, settingsManager
      ensures Abstract() == S.SwitchMode(config, old(Abstract()), writeOk)
      ensures inputDevice == old(inputDevice) && outputDevice == old(outputDevice)
      decreases S.Measure(Abstract()), 2
    {
      var work := workSessionsCompleted + 1;
      if work >= S.MAX_WORK_SESSIONS {
        CompleteCycle(writeOk);
        return;
      }
      workSessionsCompleted := work;
      isFocusTime := false;
      remainingTime := config.shortBreak;
      StartBreak(writeOk);
    }

    /** The break half of `switch_mode`, once the settings are reloaded and
        the timer stopped. */
    method BreakEnded(writeOk: bool)
      requires S.Valid(Abstract()) && !isFocusTime && !running && remainingTime == config.focusLength
      modifies this, settingsManager
      ensures Abstract() == S.SwitchMode(config, old(Abstract()), writeOk)
      ensures inputDevice == old(inputDevice) && outputDevice == old(outputDevice)
      decreases S.Measure(Abstract()), 2
    {
      var breaks := breakSessionsCompleted + 1;
      if breaks >= S.MAX_BREAK_SESSIONS {
        ResetPomodoro();
        return;
      }
      breakSessionsCompleted := breaks;
      isFocusTime := true;
      remainingTime := config.focusLength;
      StartPomodoro(writeOk);
    }

    /** The full-cycle branch of `switch_mode`. */
    method CompleteCycle(writeOk: bool)
      requires S.Valid(Abstract()) && isFocusTime
      modifies this, settingsManager
      ensures Abstract() == S.CompleteCycle(config, old(Abstract()), writeOk)
      ensures inputDevice == old(inputDevice) && outputDevice == old(outputDevice)
      decreases S.Measure(Abstract()), 1
    {
      workCyclesCompleted := workCyclesCompleted + 1;
      workSessionsCompleted := 0;
      var raised := PersistCycles(writeOk);
      if raised {
        return;
      }
      StartLongBreak(writeOk);
    }

    /** `start_break`. */
    method StartBreak(writeOk: bool)
      requires S.Valid(Abstract())
      modifies this, settingsManager
      ensures Abstract() == S.StartBreak(config, old(Abstract()), writeOk)
      ensures inputDevice == old(inputDevice) && outputDevice == old(outputDevice)
      decreases S.Measure(Abstract()), 5
    {
      ReloadUserSettings();
      if running && isFocusTime {
        running := false;
        isFocusTime := false;
      }
      running := true;
      remainingTime := config.shortBreak;
      progressMaximum := config.shortBreak;
      progressValue := 0;
      Tick(writeOk);
    }

    /** `start_pomodoro`. */
    method StartPomodoro(writeOk: bool)
      requires S.Valid(Abstract())
      modifies this, settingsManager
      ensures Abstract() == S.StartPomodoro(config, old(Abstract()), writeOk)
      ensures inputDevice == old(inputDevice) && outputDevice == old(outputDevice)
      decreases S.Measure(Abstract()), 5
    {
      ReloadUserSettings();
      if !running {
        running := true;
        if isResuming {
          isResuming := false;
        }
        progressMaximum := config.focusLength;
        progressValue := 0;
        Tick(writeOk);
      }
    }

    /** `start_long_break`. */
    method StartLongBreak(writeOk: bool)
      requires S.Valid(Abstract()) && isFocusTime
      modifies this, settingsManager
      ensures Abstract() == S.StartLongBreak(config, old(Abstract()), writeOk)
      ensures inputDevice == old(inputDevice) && outputDevice == old(outputDevice)
      decreases S.Measure(Abstract()), 0
    {
      isFocusTime := false;
      remainingTime := config.longBreakLength;
      progressMaximum := config.longBreakLength;
      progressValue := 0;
      running := true;
      Tick(writeOk);
    }

    /** `end_long_break`. */
    method EndLongBreak()
      modifies this
      ensures Abstract() == S.EndLongBreak(config, old(Abstract()))
      ensures inputDevice == old(inputDevice) && outputDevice == old(outputDevice)
    {
      running := false;
      isFocusTime := true;
      remainingTime := config.focusLength;
      progressMaximum := config.focusLength;
      progressValue := 0;
      workSessionsCompleted := 0;
      breakSessionsCompleted := 0;
    }

    /** `pause_pomodoro`. */
    method PausePomodoro()
      modifies this
      ensures Abstract() == S.Pause(old(Abstract()))
      ensures inputDevice == old(inputDevice) && outputDevice == old(outputDevice)
    {
      running := false;
      pausedTime := Some(remainingTime);
    }

    /** `resume_pomodoro`; `raised` when no pause ever stored `paused_time`. */
    method ResumePomodoro(writeOk: bool) returns (raised: bool)
      requires S.Valid(Abstract())
      modifies this, settingsManager
      ensures var r := S.Resume(config, old(Abstract()), writeOk);
        && (raised <==> r.Raised?)
        && Abstract() == (if raised then old(Abstract()) else r.value)
      ensures inputDevice == old(inputDevice) && outputDevice == old(outputDevice)
    {
      if pausedTime.None? {
        return true;
      }
      remainingTime := pausedTime.value;
      running := true;
      Tick(writeOk);
      raised := false;
    }

    /** `reset_pomodoro`. */
    method ResetPomodoro()
      modifies this
      ensures Abstract() == S.Reset(config, old(Abstract()))
      ensures inputDevice == old(inputDevice) && outputDevice == old(outputDevice)
    {
      ReloadUserSettings();
      running := false;
      isFocusTime := true;
      remainingTime := config.focusLength;
      isResuming := false;
      progressValue := 0;
      workSessionsCompleted := 0;
      breakSessionsCompleted := 0;
    }

    /** `skip_break`. */
    method SkipBreak(writeOk: bool)
      requires S.Valid(Abstract())
      modifies this, settingsManager
      ensures Abstract() == S.SkipBreak(config, old(Abstract()), writeOk)
      ensures inputDevice == old(inputDevice) && outputDevice == old(outputDevice)
    {
      if !isFocusTime && running {
        breakSessionsCompleted := 0;
        isFocusTime := true;
        remainingTime := config.focusLength;
        progressMaximum := config.focusLength;
        progressValue := 0;
        StartPomodoro(writeOk);
      }
    }

    /** `handle_toggle_mute`; `raised` when muting reaches the missing
        `stop_audio_playback`. */
    method HandleToggleMute() returns (raised: bool)
      modifies this
      ensures (Abstract(), raised) == S.ToggleMute(old(Abstract()))
      ensures inputDevice == old(inputDevice) && outputDevice == old(outputDevice)
    {
      isMuted := !isMuted;
      raised := isMuted;
    }

    /** `play_audio`: playback happens exactly when not muted. */
    method PlayAudio() returns (played: bool)
      ensures played <==> !isMuted
    {
      played := !isMuted;
    }
  }
}
