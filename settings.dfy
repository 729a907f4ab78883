/** `SettingsManager` and `SettingsWindow.apply_and_save_settings`: a string-keyed
    map of JSON values held in memory, and the JSON file it is persisted to. */
module Settings {
  import opened Common

  type Dict = map<string, Json>

  const VALID_VOICES: set<string> := {"alloy", "echo", "fable", "onyx", "nova", "shimmer"}

  /** What the API-key entry shows while a key is already stored. */
  const PLACEHOLDER: string := "**********************"

  /** The settings file: absent (`None`), or present and either parsed by
      `json.load` (a JSON `null` parses to `None`) or unparseable. */
  datatype FileContent = Parsed(content: Option<Dict>) | Unparseable

  /** The in-memory `settings` attribute and the settings file. */
  datatype Store = Store(settings: Option<Dict>, file: Option<FileContent>)

  /** The callback argument of `save_settings`; `raises` says whether calling it raises. */
  datatype Callback = NoCallback | Callback(raises: bool)

  /** What `save_settings` returns, and whether it ran the callback. */
  datatype SaveResult = SaveResult(ok: bool, callbackRan: bool)

  /** The outcome of `apply_and_save_settings`'s loop over the entries. */
  datatype ApplyResult = ApplyResult(settings: Option<Dict>, keysSent: seq<string>, raised: bool)

  function DefaultSettings(): (d: Dict)
    ensures d.Keys == {"USER_NAME", "PROFESSION", "AI_VOICE"}
    ensures d["USER_NAME"] == JStr("Default User") && d["PROFESSION"] == JStr("Default Profession")
    ensures d["AI_VOICE"] == JStr("alloy")
  {
    map["USER_NAME" := JStr("Default User"),
        "PROFESSION" := JStr("Default Profession"),
        "AI_VOICE" := JStr("alloy")]
  }

  predicate IsValidVoice(v: Json)
  {
    v.JStr? && v.s in VALID_VOICES
  }

  /** `validate_settings`: indexing `AI_VOICE` raises when the map is `None` or lacks the key. */
  function Validate(settings: Option<Dict>): (r: Outcome<bool>)
    ensures r.Raised? <==> settings.None? || "AI_VOICE" !in settings.value
    ensures r.Returned? ==> (r.value <==> IsValidVoice(settings.value["AI_VOICE"]))
  {
    if settings.None? || "AI_VOICE" !in settings.value then Raised
    else Returned(IsValidVoice(settings.value["AI_VOICE"]))
  }

  /** `save_settings(callback)`: validation runs outside the `try`, so its
      exception escapes; a failed write or a raising callback returns False. */
  function Save(st: Store, writeOk: bool, cb: Callback): (r: (Store, Outcome<SaveResult>))
    ensures r.0.settings == st.settings
    ensures r.0.file == st.file || (Validate(st.settings) == Returned(true) && writeOk)
    ensures r.1.Raised? <==> Validate(st.settings).Raised?
    ensures r.1.Returned? && r.1.value.ok <==>
      Validate(st.settings) == Returned(true) && writeOk && (cb.NoCallback? || !cb.raises)
    ensures r.1.Returned? && r.1.value.callbackRan <==>
      Validate(st.settings) == Returned(true) && writeOk && cb.Callback?
    ensures r.1.Returned? && (r.1.value.ok || r.1.value.callbackRan) ==> r.0.file == Some(Parsed(st.settings))
  {
    match Validate(st.settings)
    case Raised => (st, Raised)
    case Returned(valid) =>
      if !valid || !writeOk then (st, Returned(SaveResult(false, false)))
      else
        var written := st.(file := Some(Parsed(st.settings)));
        match cb
        case NoCallback => (written, Returned(SaveResult(true, false)))
        case Callback(raises) => (written, Returned(SaveResult(!raises, true)))
  }

  lemma DefaultsAreValid()
    ensures Validate(Some(DefaultSettings())) == Returned(true)
  {
  }

  /** `create_default_settings`: replace the whole map by the defaults, then save. */
  function WithDefaults(st: Store, writeOk: bool): (r: Store)
    ensures r.settings == Some(DefaultSettings())
    ensures r.file == if writeOk then Some(Parsed(Some(DefaultSettings()))) else st.file
  {
    DefaultsAreValid();
    Save(st.(settings := Some(DefaultSettings())), writeOk, NoCallback).0
  }

  /** `load_settings`: a missing file is first created from the defaults; a file
      that cannot be opened or parsed leaves the defaults in memory. */
  function Load(st: Store, writeOk: bool): (r: Store)
    ensures st.file.None? || st.file == Some(Unparseable) ==> r.settings == Some(DefaultSettings())
    ensures st.file.Some? && st.file.value.Parsed? ==> r == st.(settings := st.file.value.content)
    ensures st.file.None? && writeOk ==> r.file == Some(Parsed(Some(DefaultSettings())))
  {
    var st1 := if st.file.None? then WithDefaults(st, writeOk) else st;
    match st1.file
    case None => WithDefaults(st1, writeOk)
    case Some(Unparseable) => WithDefaults(st1, writeOk)
    case Some(Parsed(c)) => st1.(settings := c)
  }

  /** `get_setting(key, default)`. */
  function Get(settings: Option<Dict>, key: string, default: Json): (v: Json)
    ensures settings.Some? && key in settings.value ==> v == settings.value[key]
    ensures settings.None? || key !in settings.value ==> v == default
  {
    if settings.None? then default
    else if key in settings.value then settings.value[key] else default
  }

  /** `update_setting(key, value)`: item assignment, which raises on `None`. */
  function Update(settings: Option<Dict>, key: string, value: Json): (r: Outcome<Dict>)
    ensures r.Raised? <==> settings.None?
    ensures r.Returned? ==> r.value.Keys == settings.value.Keys + {key} && r.value[key] == value
    ensures r.Returned? ==> forall k :: k in settings.value && k != key ==> r.value[k] == settings.value[k]
  {
    if settings.None? then Raised else Returned(settings.value[key := value])
  }

  lemma GetAfterUpdate(d: Dict, key: string, value: Json, other: string, default: Json)
    ensures Update(Some(d), key, value).Returned?
    ensures Get(Some(Update(Some(d), key, value).value), key, default) == value
    ensures other != key ==>
      Get(Some(Update(Some(d), key, value).value), other, default) == Get(Some(d), other, default)
  {
  }

  /** Whether an API-key entry is handed to the credential store. */
  predicate SendsKey(value: string)
  {
    value != PLACEHOLDER && value != ""
  }

  /** One iteration of `apply_and_save_settings`'s loop. */
  function ApplyEntry(p: ApplyResult, key: string, value: string): ApplyResult
  {
    if key == "api_key" then
      if SendsKey(value) then p.(keysSent := p.keysSent + [value]) else p
    else
      match Update(p.settings, key, JStr(value))
      case Raised => p.(raised := true)
      case Returned(m) => p.(settings := Some(m))
  }

  /** The loop over the entries, in order, stopping at the first exception. */
  function ApplyEntries(settings: Option<Dict>, entries: seq<(string, string)>): ApplyResult
  {
    if entries == [] then ApplyResult(settings, [], false)
    else
      var p := ApplyEntries(settings, entries[..|entries| - 1]);
      if p.raised then p else ApplyEntry(p, entries[|entries| - 1].0, entries[|entries| - 1].1)
  }

  /** The API keys the entries carry that pass the placeholder rule, in order. */
  function KeysToSend(entries: seq<(string, string)>): seq<string>
  {
    if entries == [] then []
    else (if entries[0].0 == "api_key" && SendsKey(entries[0].1) then [entries[0].1] else [])
         + KeysToSend(entries[1..])
  }

  lemma {:induction false} KeysToSendSnoc(entries: seq<(string, string)>, e: (string, string))
    ensures KeysToSend(entries + [e]) ==
      KeysToSend(entries) + (if e.0 == "api_key" && SendsKey(e.1) then [e.1] else [])
  {
    if entries != [] {
      assert (entries + [e])[1..] == entries[1..] + [e];
      KeysToSendSnoc(entries[1..], e);
    } else {
      assert entries + [e] == [e];
    }
  }

  /** With a settings map present nothing raises, the credential store receives
      exactly the non-placeholder, non-empty API keys, and `api_key` never
      enters the map. */
  lemma {:induction false} ApplyEntriesSendsKeys(d: Dict, entries: seq<(string, string)>)
    ensures var r := ApplyEntries(Some(d), entries);
      && !r.raised && r.settings.Some?
      && r.keysSent == KeysToSend(entries)
      && ("api_key" in r.settings.value <==> "api_key" in d)
      && ("api_key" in d ==> r.settings.value["api_key"] == d["api_key"])
  {
    if entries != [] {
      var init := entries[..|entries| - 1];
      ApplyEntriesSendsKeys(d, init);
      KeysToSendSnoc(init, entries[|entries| - 1]);
      assert init + [entries[|entries| - 1]] == entries;
    }
  }

  /** The value of the last entry carrying `key`, if any. */
  function LastValue(entries: seq<(string, string)>, key: string): Option<string>
  {
    if entries == [] then None
    else if entries[|entries| - 1].0 == key then Some(entries[|entries| - 1].1)
    else LastValue(entries[..|entries| - 1], key)
  }

  /** `LastValue` picks the entry with no later entry of the same key. */
  lemma {:induction false} LastValueIsLast(entries: seq<(string, string)>, key: string, i: nat)
    requires i < |entries| && entries[i].0 == key
    requires forall j :: i < j < |entries| ==> entries[j].0 != key
    ensures LastValue(entries, key) == Some(entries[i].1)
  {
    if i < |entries| - 1 {
      LastValueIsLast(entries[..|entries| - 1], key, i);
    }
  }

  lemma {:induction false} LastValueAbsent(entries: seq<(string, string)>, key: string)
    requires forall j :: 0 <= j < |entries| ==> entries[j].0 != key
    ensures LastValue(entries, key) == None
  {
    if entries != [] {
      LastValueAbsent(entries[..|entries| - 1], key);
    }
  }

  /** Every key other than `api_key` ends up holding, as a string, the value of
      the last entry that names it; keys no entry names keep their values. */
  lemma {:induction false} ApplyEntriesCopies(d: Dict, entries: seq<(string, string)>, key: string)
    requires key != "api_key"
    ensures var r := ApplyEntries(Some(d), entries);
      r.settings.Some? &&
      match LastValue(entries, key)
      case Some(v) => key in r.settings.value && r.settings.value[key] == JStr(v)
      case None => (key in r.settings.value <==> key in d) &&
                   (key in d ==> r.settings.value[key] == d[key])
  {
    if entries != [] {
      var init := entries[..|entries| - 1];
      ApplyEntriesCopies(d, init, key);
      ApplyEntriesSendsKeys(d, init);
    }
  }

  /** Without a settings map, the first entry other than `api_key` raises. */
  lemma {:induction false} ApplyEntriesRaises(entries: seq<(string, string)>)
    ensures var r := ApplyEntries(None, entries);
      r.settings.None? &&
      (r.raised <==> exists i :: 0 <= i < |entries| && entries[i].0 != "api_key")
  {
    if entries != [] {
      var init := entries[..|entries| - 1];
      ApplyEntriesRaises(init);
      var r0 := ApplyEntries(None, init);
      if !r0.raised && entries[|entries| - 1].0 == "api_key" {
        forall i | 0 <= i < |entries| ensures entries[i].0 == "api_key" {
          if i < |entries| - 1 { assert entries[i] == init[i]; }
        }
      }
      if r0.raised {
        var i :| 0 <= i < |init| && init[i].0 != "api_key";
        assert entries[i] == init[i];
      }
    }
  }

  /** `SettingsManager`: the `settings` attribute and the file it reads and writes. */
  class SettingsManager {
    var settings: Option<Dict>
    var file: Option<FileContent>

    function Abstract(): Store
      reads this
    {
      Store(settings, file)
    }

    /** `__init__`: start from an empty map and load at once. The callback the
        constructor stores is never read by any method, so it is not kept. */
    constructor (initialFile: Option<FileContent>, writeOk: bool)
      ensures Abstract() == Load(Store(Some(map[]), initialFile), writeOk)
    {
      settings := Some(map[]);
      file := initialFile;
      new;
      LoadSettings(writeOk);
    }

    method SettingsExist() returns (exists_: bool)
      ensures exists_ <==> file.Some?
    {
      exists_ := file.Some?;
    }

    method CreateDefaultSettings(writeOk: bool)
      modifies this
      ensures Abstract() == WithDefaults(old(Abstract()), writeOk)
    {
      settings := Some(DefaultSettings());
      var _ := SaveSettings(writeOk, NoCallback);
    }

    method LoadSettings(writeOk: bool)
      modifies this
      ensures Abstract() == Load(old(Abstract()), writeOk)
    {
      if file.None? {
        CreateDefaultSettings(writeOk);
      }
      match file
      case Some(Parsed(c)) =>
        settings := c;
      case _ =>
        CreateDefaultSettings(writeOk);
    }

    method ValidateSettings() returns (r: Outcome<bool>)
      ensures r.Raised? <==> settings.None? || "AI_VOICE" !in settings.value
      ensures r.Returned? ==> (r.value <==> IsValidVoice(settings.value["AI_VOICE"]))
    {
      if settings.None? || "AI_VOICE" !in settings.value {
        return Raised;
      }
      r := Returned(IsValidVoice(settings.value["AI_VOICE"]));
    }

    method SaveSettings(writeOk: bool, cb: Callback) returns (r: Outcome<SaveResult>)
      modifies this
      ensures (Abstract(), r) == Save(old(Abstract()), writeOk, cb)
    {
      var valid := ValidateSettings();
      if valid.Raised? {
        return Raised;
      }
      if !valid.value {
        return Returned(SaveResult(false, false));
      }
      if !writeOk {
        return Returned(SaveResult(false, false));
      }
      file := Some(Parsed(settings));
      match cb
      case NoCallback =>
        r := Returned(SaveResult(true, false));
      case Callback(raises) =>
        r := Returned(SaveResult(!raises, true));
    }

    method GetSetting(key: string, default: Json) returns (v: Json)
      ensures settings.Some? && key in settings.value ==> v == settings.value[key]
      ensures settings.None? || key !in settings.value ==> v == default
    {
      if settings.None? {
        return default;
      }
      v := if key in settings.value then settings.value[key] else default;
    }

    method UpdateSetting(key: string, value: Json) returns (raised: bool)
      modifies this
      ensures raised <==> old(settings).None?
      ensures file == old(file)
      ensures !raised ==> settings == Some(old(settings).value[key := value])
      ensures raised ==> settings == old(settings)
    {
      if settings.None? {
        return true;
      }
      settings := Some(settings.value[key := value]);
      raised := false;
    }
  }

  /** `SettingsWindow.apply_and_save_settings`: copy every entry but `api_key`
      into the map, hand the API key to the credential store unless it is empty
      or the placeholder, then save with `reinitialize_ai_utils` as callback.
      Returns the keys handed to the credential store, in order. */
  method ApplyAndSaveSettings(manager: SettingsManager, entries: seq<(string, string)>,
                              writeOk: bool, callbackRaises: bool)
    returns (keysSent: seq<string>, saved: Outcome<SaveResult>)
    modifies manager
    ensures var a := ApplyEntries(old(manager.settings), entries);
      && keysSent == a.keysSent
      && (a.raised ==> saved.Raised? && manager.Abstract() == old(manager.Abstract()).(settings := a.settings))
      && (!a.raised ==>
            (manager.Abstract(), saved) ==
            Save(old(manager.Abstract()).(settings := a.settings), writeOk, Callback(callbackRaises)))
  {
    keysSent := [];
    var i := 0;
    while i < |entries|
      invariant 0 <= i <= |entries|
      invariant manager.file == old(manager.file)
      invariant ApplyEntries(old(manager.settings), entries[..i]) == ApplyResult(manager.settings, keysSent, false)
    {
      assert entries[..i + 1][..i] == entries[..i];
      var (key, value) := entries[i];
      if key == "api_key" {
        if value != PLACEHOLDER && value != "" {
          keysSent := keysSent + [value];
        }
      } else {
        var raised := manager.UpdateSetting(key, JStr(value));
        if raised {
          assert ApplyEntries(old(manager.settings), entries[..i + 1]).raised;
          RaisedStops(old(manager.settings), entries, i + 1);
          return keysSent, Raised;
        }
      }
      i := i + 1;
    }
    assert entries[..i] == entries;
    saved := manager.SaveSettings(writeOk, Callback(callbackRaises));
  }

  /** Once the loop has raised, later entries change nothing. */
  lemma {:induction false} RaisedStops(settings: Option<Dict>, entries: seq<(string, string)>, n: nat)
    requires n <= |entries|
    requires ApplyEntries(settings, entries[..n]).raised
    ensures ApplyEntries(settings, entries) == ApplyEntries(settings, entries[..n])
    decreases |entries| - n
  {
    if n < |entries| {
      assert entries[..n + 1][..n] == entries[..n];
      RaisedStops(settings, entries, n + 1);
    } else {
      assert entries[..n] == entries;
    }
  }
}
