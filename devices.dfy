/** The output-device list of the audio test window: `refresh_device_list`
    collapses the devices `sounddevice` reports into one entry per name, and
    `play_tone` picks the device a test tone is played on. The device query
    and the system default are inputs. */
module AudioDevices {
  import opened Common

  /** One entry of `sd.query_devices()`. */
  datatype DeviceInfo = DeviceInfo(index: int, name: string, maxOutputChannels: int)

  predicate IsOutputNamed(d: DeviceInfo, name: string)
  {
    d.name == name && d.maxOutputChannels > 0
  }

  /** The names `refresh_device_list` lists: the names of output devices, in
      the order each first appears. */
  function Names(s: seq<DeviceInfo>): seq<string>
  {
    if |s| == 0 then []
    else
      var p := Names(s[..|s| - 1]);
      var d := s[|s| - 1];
      if d.maxOutputChannels > 0 && d.name !in p then p + [d.name] else p
  }

  /** The position of the device `refresh_device_list` keeps for `name`: a
      later device replaces the kept one only with strictly more channels. */
  function BestIndex(s: seq<DeviceInfo>, name: string): (r: Option<nat>)
    ensures r.Some? ==> r.value < |s|
  {
    if |s| == 0 then None
    else
      var p := BestIndex(s[..|s| - 1], name);
      var d := s[|s| - 1];
      if IsOutputNamed(d, name) && (p.None? || d.maxOutputChannels > s[p.value].maxOutputChannels)
      then Some(|s| - 1) else p
  }

  lemma SnocDevice(s: seq<DeviceInfo>, d: DeviceInfo, name: string)
    ensures Names(s + [d]) == if d.maxOutputChannels > 0 && d.name !in Names(s) then Names(s) + [d.name] else Names(s)
    ensures var p := BestIndex(s, name);
      BestIndex(s + [d], name) ==
        if IsOutputNamed(d, name) && (p.None? || d.maxOutputChannels > s[p.value].maxOutputChannels)
        then Some(|s|) else p
    ensures Candidates(s + [d], name) == Candidates(s, name) + (if IsOutputNamed(d, name) then [d] else [])
  {
    assert (s + [d])[..|s|] == s;
  }

  /** Each name is listed once, and exactly the names of output devices are
      listed. */
  lemma {:induction false} NamesListOutputsOnce(s: seq<DeviceInfo>)
    ensures forall i, j :: 0 <= i < j < |Names(s)| ==> Names(s)[i] != Names(s)[j]
    ensures forall n :: n in Names(s) <==> exists k :: 0 <= k < |s| && IsOutputNamed(s[k], n)
  {
    if |s| > 0 {
      var p := s[..|s| - 1];
      assert s == p + [s[|s| - 1]];
      SnocDevice(p, s[|s| - 1], "");
      NamesListOutputsOnce(p);
      forall n | n in Names(s)
        ensures exists k :: 0 <= k < |s| && IsOutputNamed(s[k], n)
      {
        if n in Names(p) {
          var k :| 0 <= k < |p| && IsOutputNamed(p[k], n);
          assert s[k] == p[k];
        } else {
          assert IsOutputNamed(s[|s| - 1], n);
        }
      }
      forall n | exists k :: 0 <= k < |s| && IsOutputNamed(s[k], n)
        ensures n in Names(s)
      {
        var k :| 0 <= k < |s| && IsOutputNamed(s[k], n);
        if k < |p| {
          assert p[k] == s[k];
        }
      }
    }
  }

  /** Later devices never move a listed name: the list for a prefix of the
      devices is a prefix of the list for all of them. */
  lemma {:induction false} NamesOnlyGrow(s: seq<DeviceInfo>, t: seq<DeviceInfo>)
    ensures Names(s) <= Names(s + t)
    decreases |t|
  {
    if |t| > 0 {
      var u := t[..|t| - 1];
      assert s + t == (s + u) + [t[|t| - 1]];
      SnocDevice(s + u, t[|t| - 1], "");
      NamesOnlyGrow(s, u);
    } else {
      assert s + t == s;
    }
  }

  /** The kept device for a name is an output device of that name with the
      most channels, the earliest such one on ties; there is none exactly when
      no output device has that name. */
  lemma {:induction false} BestIndexIsFirstMaximum(s: seq<DeviceInfo>, name: string)
    ensures BestIndex(s, name).None? <==> forall k :: 0 <= k < |s| ==> !IsOutputNamed(s[k], name)
    ensures BestIndex(s, name).Some? ==>
      var b := BestIndex(s, name).value;
      && IsOutputNamed(s[b], name)
      && (forall k :: 0 <= k < |s| && IsOutputNamed(s[k], name) ==> s[k].maxOutputChannels <= s[b].maxOutputChannels)
      && (forall k :: 0 <= k < b && IsOutputNamed(s[k], name) ==> s[k].maxOutputChannels < s[b].maxOutputChannels)
  {
    if |s| > 0 {
      var p := s[..|s| - 1];
      assert s == p + [s[|s| - 1]];
      SnocDevice(p, s[|s| - 1], name);
      BestIndexIsFirstMaximum(p, name);
      forall k | 0 <= k < |p|
        ensures s[k] == p[k]
      {
      }
    }
  }

  /** The device chooser's list and its selected entry. */
  class DeviceCombobox {
    var values: seq<string>
    var selection: string

    constructor (initialSelection: string)
      ensures values == [] && selection == initialSelection
    {
      values := [];
      selection := initialSelection;
    }
  }

  /** `unique` is the dictionary `refresh_device_list` has built from `s`:
      one entry per listed name, holding the device `BestIndex` keeps. */
  ghost predicate KeepsBest(unique: map<string, DeviceInfo>, s: seq<DeviceInfo>)
  {
    && (forall n :: n in unique <==> n in Names(s))
    && (forall n :: n !in unique ==> BestIndex(s, n).None?)
    && (forall n :: n in unique ==> BestIndex(s, n).Some? && unique[n] == s[BestIndex(s, n).value])
  }

  /** One pass of the loop in `refresh_device_list` keeps the dictionary in
      step with the devices seen so far. */
  lemma KeepsBestSnoc(unique: map<string, DeviceInfo>, s: seq<DeviceInfo>, d: DeviceInfo, next: map<string, DeviceInfo>)
    requires KeepsBest(unique, s)
    requires next == if d.maxOutputChannels > 0 && (d.name !in unique || d.maxOutputChannels > unique[d.name].maxOutputChannels)
                     then unique[d.name := d] else unique
    ensures KeepsBest(next, s + [d])
  {
    forall n {
      SnocDevice(s, d, n);
    }
  }

  /** `refresh_device_list`: list one name per output device, keeping for each
      the device with the most channels, and select the default device's name.
      Returns the `unique_devices` dictionary. */
  method RefreshDeviceList(combobox: DeviceCombobox, devices: seq<DeviceInfo>, defaultInfo: DeviceInfo)
    returns (unique: map<string, DeviceInfo>)
    modifies combobox
    ensures combobox.values == Names(devices)
    ensures combobox.selection == defaultInfo.name
    ensures forall n :: n in unique <==> n in Names(devices)
    ensures forall n :: n in unique ==>
      BestIndex(devices, n).Some? && unique[n] == devices[BestIndex(devices, n).value]
  {
    var names: seq<string> := [];
    unique := map[];
    for i := 0 to |devices|
      invariant names == Names(devices[..i])
      invariant KeepsBest(unique, devices[..i])
    {
      var device := devices[i];
      assert devices[..i + 1] == devices[..i] + [device];
      SnocDevice(devices[..i], device, "");
      ghost var before := unique;
      if device.maxOutputChannels > 0 {
        if device.name in unique {
          if device.maxOutputChannels > unique[device.name].maxOutputChannels {
            unique := unique[device.name := device];
          }
        } else {
          unique := unique[device.name := device];
          names := names + [device.name];
        }
      }
      KeepsBestSnoc(before, devices[..i], device, unique);
    }
    assert devices[..|devices|] == devices;
    combobox.values := names;
    combobox.selection := defaultInfo.name;
  }

  /** The devices `play_tone` considers for a name, in query order. */
  function Candidates(s: seq<DeviceInfo>, name: string): (c: seq<DeviceInfo>)
    ensures forall x :: x in c ==> IsOutputNamed(x, name)
  {
    if |s| == 0 then []
    else Candidates(s[..|s| - 1], name) + (if IsOutputNamed(s[|s| - 1], name) then [s[|s| - 1]] else [])
  }

  /** `max(candidates, key=max_output_channels)`: the first candidate with
      the most channels. */
  function FirstMax(c: seq<DeviceInfo>): (d: DeviceInfo)
    requires |c| > 0
    ensures d in c
    ensures forall x :: x in c ==> x.maxOutputChannels <= d.maxOutputChannels
  {
    if |c| == 1 then c[0]
    else
      var m := FirstMax(c[..|c| - 1]);
      assert forall x :: x in c ==> x in c[..|c| - 1] || x == c[|c| - 1];
      if c[|c| - 1].maxOutputChannels > m.maxOutputChannels then c[|c| - 1] else m
  }

  /** How the tone is shaped: one column, or copied into one column per
      channel when the device has more than one. */
  datatype ToneShape = Mono | Columns(count: int)

  /** What `play_tone` settles on: the selected name, the device index and
      channel count it plays on, and the tone's shape. */
  datatype ToneChoice = ToneChoice(selection: string, deviceIndex: int, channels: int, shape: ToneShape)

  function Shape(channels: int): (r: ToneShape)
    ensures r.Columns? <==> channels > 1
    ensures r.Columns? ==> r.count == channels
  {
    if channels > 1 then Columns(channels) else Mono
  }

  /** `play_tone`'s choice: the selection is replaced by the default device's
      name whenever it differs, so the tone always goes to a device of the
      default's name, or to the default index itself when no output device of
      that name is listed. */
  function PlayToneChoice(devices: seq<DeviceInfo>, selected: string, defaultIndex: int, defaultInfo: DeviceInfo): (r: ToneChoice)
    ensures r.selection == defaultInfo.name
    ensures r.shape == Shape(r.channels)
  {
    var name := if selected != defaultInfo.name then defaultInfo.name else selected;
    var candidates := Candidates(devices, name);
    if |candidates| == 0 then ToneChoice(name, defaultIndex, defaultInfo.maxOutputChannels, Shape(defaultInfo.maxOutputChannels))
    else
      var d := FirstMax(candidates);
      ToneChoice(name, d.index, d.maxOutputChannels, Shape(d.maxOutputChannels))
  }

  lemma {:induction false} CandidatesMatchBest(s: seq<DeviceInfo>, name: string)
    ensures |Candidates(s, name)| == 0 <==> BestIndex(s, name).None?
    ensures |Candidates(s, name)| > 0 ==> FirstMax(Candidates(s, name)) == s[BestIndex(s, name).value]
  {
    if |s| > 0 {
      var p := s[..|s| - 1];
      var d := s[|s| - 1];
      assert s == p + [d];
      SnocDevice(p, d, name);
      CandidatesMatchBest(p, name);
      var cp := Candidates(p, name);
      if IsOutputNamed(d, name) {
        var c := cp + [d];
        if |cp| > 0 {
          assert c[..|c| - 1] == cp;
          var m := FirstMax(cp);
          assert m == p[BestIndex(p, name).value];
          assert FirstMax(c) == if d.maxOutputChannels > m.maxOutputChannels then d else m;
        } else {
          assert FirstMax(c) == d;
        }
      } else {
        assert Candidates(s, name) == cp;
      }
    }
  }

  /** The device a test tone plays on is the device `refresh_device_list`
      keeps under the default device's name, or the default index when that
      name is not listed. */
  lemma ToneUsesListedDevice(devices: seq<DeviceInfo>, selected: string, defaultIndex: int, defaultInfo: DeviceInfo)
    ensures var r := PlayToneChoice(devices, selected, defaultIndex, defaultInfo);
      var b := BestIndex(devices, defaultInfo.name);
      && (b.None? ==> r.deviceIndex == defaultIndex && r.channels == defaultInfo.maxOutputChannels)
      && (b.Some? ==> r.deviceIndex == devices[b.value].index && r.channels == devices[b.value].maxOutputChannels)
  {
    CandidatesMatchBest(devices, defaultInfo.name);
  }

  /** `play_tone`, as far as the chooser and the device choice go. */
  method PlayTone(combobox: DeviceCombobox, devices: seq<DeviceInfo>, defaultIndex: int, defaultInfo: DeviceInfo)
    returns (choice: ToneChoice)
    modifies combobox
    ensures choice == PlayToneChoice(devices, old(combobox.selection), defaultIndex, defaultInfo)
    ensures combobox.selection == defaultInfo.name && combobox.values == old(combobox.values)
  {
    choice := PlayToneChoice(devices, combobox.selection, defaultIndex, defaultInfo);
    if combobox.selection != defaultInfo.name {
      combobox.selection := defaultInfo.name;
    }
  }
}
