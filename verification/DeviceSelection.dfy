/** The choice of a recording device by probing (ConfigureAudioCaptureDevice in module/pushclient.cpp, Linux branch). */
module DeviceSelection {
  import opened Common
  import opened StringEscape

  /** What the audio device module answers for one index, each time it is asked. */
  datatype Device = Device(named: bool, name: string, guid: string, selectable: bool, available: bool)

  function Lower(c: char): char {
    if 'A' <= c <= 'Z' then (c as int + 32) as char else c
  }

  function AsciiLower(s: string): string {
    if s == "" then "" else [Lower(s[0])] + AsciiLower(s[1..])
  }

  predicate Contains(s: string, part: string) {
    IsAt(s, part, 0) || (s != "" && Contains(s[1..], part))
  }

  lemma {:induction false} ContainsIff(s: string, part: string)
    ensures Contains(s, part) <==> exists i :: IsAt(s, part, i)
  {
    if s != "" {
      ContainsIff(s[1..], part);
      if i: nat :| IsAt(s[1..], part, i) {
        IsAtSuffix(s, part, 1, i);
        assert IsAt(s, part, 1 + i);
      }
      if i: nat :| i > 0 && IsAt(s, part, i) {
        IsAtSuffix(s, part, 1, i - 1);
        assert IsAt(s[1..], part, i - 1);
      }
    }
  }

  predicate LooksLikeSystemLoopbackDevice(d: Device) {
    var name, guid := AsciiLower(d.name), AsciiLower(d.guid);
    Contains(name, "monitor") || Contains(name, "loopback") || Contains(guid, "monitor") || Contains(guid, "loopback")
  }

  predicate Usable(d: Device) {
    d.named && d.selectable && d.available
  }

  predicate UsableLoopback(d: Device) {
    Usable(d) && LooksLikeSystemLoopbackDevice(d)
  }

  /** The lowest usable loopback device, or the lowest usable device when there is no loopback at all. */
  predicate IsBest(ds: seq<Device>, i: nat) {
    && i < |ds| && Usable(ds[i])
    && (forall j | 0 <= j < i :: !UsableLoopback(ds[j]))
    && (!UsableLoopback(ds[i]) ==>
          && (forall j | 0 <= j < |ds| :: !UsableLoopback(ds[j]))
          && (forall j | 0 <= j < i :: !Usable(ds[j])))
  }

  class AudioDeviceModule {
    const devices: seq<Device>
    const initSucceeds: bool
    const initRecordingSucceeds: bool
    var selected: Option<nat>

    constructor (devices: seq<Device>, initSucceeds: bool, initRecordingSucceeds: bool)
      ensures this.devices == devices && this.initSucceeds == initSucceeds
      ensures this.initRecordingSucceeds == initRecordingSucceeds && selected == None
    {
      this.devices, this.initSucceeds, this.initRecordingSucceeds := devices, initSucceeds, initRecordingSucceeds;
      selected := None;
    }

    method SetRecordingDevice(index: nat) returns (ok: bool)
      requires index < |devices|
      modifies this
      ensures ok == devices[index].selectable
      ensures selected == if ok then Some(index) else old(selected)
    {
      ok := devices[index].selectable;
      if ok {
        selected := Some(index);
      }
    }

    /** Answers for the device that is selected at the moment. */
    method RecordingIsAvailable() returns (available: bool)
      ensures available <==> selected.Some? && selected.value < |devices| && devices[selected.value].available
    {
      available := selected.Some? && selected.value < |devices| && devices[selected.value].available;
    }
  }

  /** The lowest usable device, or None. */
  ghost predicate IsFallback(ds: seq<Device>, end: nat, i: Option<nat>)
    requires end <= |ds|
  {
    match i
    case None => forall j | 0 <= j < end :: !Usable(ds[j])
    case Some(f) => f < end && Usable(ds[f]) && forall j | 0 <= j < f :: !Usable(ds[j])
  }

  /** Selecting an index and then asking whether the selected device is available. */
  method Probe(adm: AudioDeviceModule, index: nat) returns (usable: bool)
    requires index < |adm.devices|
    modifies adm
    ensures usable <==> Usable(adm.devices[index])
  {
    usable := false;
    if adm.devices[index].named {
      var chosen := adm.SetRecordingDevice(index);
      if chosen {
        usable := adm.RecordingIsAvailable();
      }
    }
  }

  /** The search leaves at the first usable loopback device and remembers the first usable device. */
  method Search(adm: AudioDeviceModule) returns (loopback: Option<nat>, fallback: Option<nat>)
    modifies adm
    ensures var ds := adm.devices; var end := if loopback.Some? then loopback.value else |ds|;
            && end <= |ds|
            && (forall j | 0 <= j < end :: !UsableLoopback(ds[j]))
            && (loopback.Some? ==> end < |ds| && UsableLoopback(ds[end]))
            && (loopback.None? ==> IsFallback(ds, end, fallback))
  {
    loopback, fallback := None, None;
    var index := 0;
    while index < |adm.devices|
      invariant index <= |adm.devices|
      invariant forall j | 0 <= j < index :: !UsableLoopback(adm.devices[j])
      invariant IsFallback(adm.devices, index, fallback)
    {
      var usable := Probe(adm, index);
      if usable {
        if fallback.None? {
          fallback := Some(index);
        }
        if LooksLikeSystemLoopbackDevice(adm.devices[index]) {
          loopback := Some(index);
          return;
        }
      }
      index := index + 1;
    }
  }

  /** Probing selects other devices along the way; the final selection does not depend on that. */
  method ConfigureAudioCaptureDevice(adm: AudioDeviceModule?) returns (ok: bool)
    modifies adm
    ensures ok <==> (adm != null && adm.initSucceeds && adm.initRecordingSucceeds
                     && exists d :: d in adm.devices && d.named && d.selectable && d.available)
    ensures ok ==> adm.selected.Some? && IsBest(adm.devices, adm.selected.value)
  {
    if adm == null || !adm.initSucceeds || adm.devices == [] {
      return false;
    }
    var loopback, fallback := Search(adm);
    var best := if loopback.None? then fallback else loopback;
    if best.None? {
      return false;
    }
    assert adm.devices[best.value] in adm.devices && Usable(adm.devices[best.value]);
    var chosen := adm.SetRecordingDevice(best.value);
    if !chosen {
      return false;
    }
    var available := adm.RecordingIsAvailable();
    if !available {
      return false;
    }
    ok := adm.initRecordingSucceeds;
  }

  /** There is at most one best device. */
  lemma BestIsUnique(ds: seq<Device>, i: nat, j: nat)
    requires IsBest(ds, i) && IsBest(ds, j)
    ensures i == j
  {
  }

  // ---------------------------------------------------------------- the heuristic, told without lower-casing

  const CAPITALS := "ABCDEFGHIJKLMNOPQRSTUVWXYZ"
  const SMALLS := "abcdefghijklmnopqrstuvwxyz"

  /** c is the small letter d or its capital. */
  ghost predicate IsLetter(c: char, d: char) {
    c == d || exists k :: 0 <= k < 26 && CAPITALS[k] == c && SMALLS[k] == d
  }

  /** The word, in small letters, occurs somewhere in s, in any mixture of cases. */
  ghost predicate Mentions(s: string, word: string) {
    exists i :: 0 <= i <= |s| - |word| && MentionsAt(s, word, i)
  }

  ghost predicate MentionsAt(s: string, word: string, i: nat)
    requires i + |word| <= |s|
  {
    forall k | 0 <= k < |word| :: IsLetter(s[i + k], word[k])
  }

  lemma Alphabets(k: nat)
    requires k < 26
    ensures CAPITALS[k] as int == 65 + k && SMALLS[k] as int == 97 + k
  {
  }

  lemma IsLetterIff(c: char, d: char)
    requires 'a' <= d <= 'z'
    ensures IsLetter(c, d) <==> Lower(c) == d
  {
    forall k: nat | k < 26
      ensures CAPITALS[k] as int == 65 + k && SMALLS[k] as int == 97 + k
    {
      Alphabets(k);
    }
    if 'A' <= c <= 'Z' {
      assert CAPITALS[c as int - 65] == c;
    }
  }

  lemma {:induction false} LowerAt(s: string)
    ensures |AsciiLower(s)| == |s| && forall i | 0 <= i < |s| :: AsciiLower(s)[i] == Lower(s[i])
  {
    if s != "" {
      LowerAt(s[1..]);
    }
  }

  predicate Small(word: string) {
    forall k | 0 <= k < |word| :: 'a' <= word[k] <= 'z'
  }

  lemma WindowIff(s: string, word: string, i: nat)
    requires i + |word| <= |s|
    ensures IsAt(s, word, i) <==> forall k | 0 <= k < |word| :: s[i + k] == word[k]
  {
    var window := s[i..i + |word|];
    assert forall k | 0 <= k < |word| :: window[k] == s[i + k];
  }

  lemma LettersIff(s: string, word: string, i: nat)
    requires i + |word| <= |s| && Small(word)
    ensures MentionsAt(s, word, i) <==> forall k | 0 <= k < |word| :: Lower(s[i + k]) == word[k]
  {
    forall k | 0 <= k < |word|
      ensures IsLetter(s[i + k], word[k]) <==> Lower(s[i + k]) == word[k]
    {
      IsLetterIff(s[i + k], word[k]);
    }
  }

  lemma MentionsAtIff(s: string, word: string, i: nat)
    requires i + |word| <= |s| && Small(word)
    ensures |AsciiLower(s)| == |s|
    ensures MentionsAt(s, word, i) <==> IsAt(AsciiLower(s), word, i)
  {
    LowerAt(s);
    LettersIff(s, word, i);
    WindowIff(AsciiLower(s), word, i);
  }

  lemma MentionsIff(s: string, word: string)
    requires Small(word)
    ensures Mentions(s, word) <==> Contains(AsciiLower(s), word)
  {
    LowerAt(s);
    ContainsIff(AsciiLower(s), word);
    if Mentions(s, word) {
      var i: nat :| i <= |s| - |word| && MentionsAt(s, word, i);
      MentionsAtIff(s, word, i);
    }
    if i: nat :| IsAt(AsciiLower(s), word, i) {
      MentionsAtIff(s, word, i);
    }
  }

  /** A device counts as a loopback iff its name or id mentions "monitor" or "loopback", in whatever case. */
  lemma LooksLikeLoopbackIff(d: Device)
    ensures LooksLikeSystemLoopbackDevice(d) <==>
            Mentions(d.name, "monitor") || Mentions(d.name, "loopback") ||
            Mentions(d.guid, "monitor") || Mentions(d.guid, "loopback")
  {
    MentionsIff(d.name, "monitor");
    MentionsIff(d.name, "loopback");
    MentionsIff(d.guid, "monitor");
    MentionsIff(d.guid, "loopback");
  }

  ghost predicate Answers(d: Device) {
    d.named && d.selectable && d.available
  }

  ghost predicate AnswersAsLoopback(d: Device) {
    Answers(d) && (Mentions(d.name, "monitor") || Mentions(d.name, "loopback") ||
                   Mentions(d.guid, "monitor") || Mentions(d.guid, "loopback"))
  }

  /** The device to select: the first answering loopback if there is one, else the first answering device. */
  lemma BestIff(ds: seq<Device>, i: nat)
    requires i < |ds|
    ensures IsBest(ds, i) <==>
            if exists d :: d in ds && AnswersAsLoopback(d) then
              AnswersAsLoopback(ds[i]) && forall j | 0 <= j < i :: !AnswersAsLoopback(ds[j])
            else Answers(ds[i]) && forall j | 0 <= j < i :: !Answers(ds[j])
  {
    forall d
      ensures UsableLoopback(d) <==> AnswersAsLoopback(d)
    {
      LooksLikeLoopbackIff(d);
    }
  }

  /** A monitor of an output is preferred to a microphone before it. */
  lemma MonitorBeatsMicrophone(mic: Device, monitor: Device)
    requires Answers(mic) && !AnswersAsLoopback(mic)
    requires Answers(monitor) && monitor.name == "Monitor of Built-in Audio"
    ensures IsBest([mic, monitor], 1)
  {
    assert forall k | 0 <= k < 7 :: IsLetter(monitor.name[k], "monitor"[k]) by {
      assert CAPITALS[12] == 'M' && SMALLS[12] == 'm';
    }
    assert MentionsAt(monitor.name, "monitor", 0);
    assert monitor in [mic, monitor] && AnswersAsLoopback(monitor);
    BestIff([mic, monitor], 1);
  }
}
