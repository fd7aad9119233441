/**
  What reaches the caller of the recording module (module/pulse_loopback_audio_device_module.cpp), told by
  the calls alone: no audio without a callback, nothing at all without Init, and the parameters of the
  constructor and of SetStereoRecording. All of it for every interleaving.
*/
module PulseLaws {
  import opened Common
  import opened PulseCapture
  import opened PulseRestart

  // ---------------------------------------------------------------- callbacks

  /** The callback pointer is set. */
  function Registered(h: History): bool {
    if h.Made? then false
    else
      match h.action
      case Calls(RegisterAudioCallback(present)) => present
      case _ => Registered(h.before)
  }

  predicate TakesSnapshot(h: History) {
    h.Then? && h.action.LoopActs? && Now(h.before).loop.Loop? && Now(h.before).loop.at == Snapshot
  }

  /** Whether a callback was registered when a loop last copied the pointers under the lock. */
  function SeenBySnapshot(h: History): bool {
    if h.Made? then false
    else if TakesSnapshot(h) then Registered(h.before)
    else SeenBySnapshot(h.before)
  }

  predicate PastSnapshot(p: Place) {
    p in {Check, Read, Deliver}
  }

  /** The module's and the loop's copies of the callback pointer are what the calls say. */
  predicate CallbackKept(m: Module, registered: bool, seen: bool) {
    && m.callback == registered
    && (m.loop.Loop? && PastSnapshot(m.loop.at) ==> m.loop.callback == seen)
    && (m.loop.Loop? && m.loop.at == Deliver ==> seen)
  }

  lemma CallCallback(m: Module, c: Call, registered: bool, seen: bool)
    requires MayCall(m, c) && CallbackKept(m, registered, seen)
    ensures CallbackKept(Called(m, c), if c.RegisterAudioCallback? then c.present else registered, seen)
  {
  }

  lemma InitCallback(m: Module, ok: bool, registered: bool, seen: bool)
    requires InInit(m.control) && CallbackKept(m, registered, seen)
    ensures CallbackKept(InitStep(m, ok), registered, seen)
  {
  }

  lemma StartCallback(m: Module, registered: bool, seen: bool)
    requires InStart(m.control) && CallbackKept(m, registered, seen)
    ensures CallbackKept(StartStep(m), registered, seen)
  {
  }

  lemma StopCallback(m: Module, registered: bool, seen: bool)
    requires InStop(m.control) && CallbackKept(m, registered, seen)
    ensures CallbackKept(StopStep(m), registered, seen)
  {
  }

  lemma TopCallback(m: Module, registered: bool, seen: bool)
    requires m.loop.Loop? && AtTop(m.loop.at) && CallbackKept(m, registered, seen)
    ensures CallbackKept(TopStep(m), registered, if m.loop.at == Snapshot then registered else seen)
  {
  }

  lemma BodyCallback(m: Module, ok: bool, registered: bool, seen: bool)
    requires Active(m) && !AtTop(m.loop.at) && CallbackKept(m, registered, seen)
    ensures CallbackKept(BodyStep(m, ok), registered, seen)
  {
    BodyKeepsLocals(m, ok);
  }

  lemma {:induction false} CallbacksKept(h: History)
    requires IsHistory(h)
    ensures CallbackKept(Now(h), Registered(h), SeenBySnapshot(h))
  {
    if h.Then? {
      CallbacksKept(h.before);
      var m, registered, seen := Now(h.before), Registered(h.before), SeenBySnapshot(h.before);
      match h.action
      case Calls(c) => CallCallback(m, c, registered, seen);
      case ControlActs(ok) =>
        if InInit(m.control) {
          InitCallback(m, ok, registered, seen);
        } else if InStart(m.control) {
          StartCallback(m, registered, seen);
        } else {
          StopCallback(m, registered, seen);
        }
      case LoopActs(ok) =>
        if AtTop(m.loop.at) {
          TopCallback(m, registered, seen);
        } else {
          BodyCallback(m, ok, registered, seen);
        }
    }
  }

  /**
    After a successful read the loop delivers the chunk iff a callback was registered when it last copied the
    pointers; otherwise it goes on to the next turn. After a failed read it ends.
  */
  lemma ReadLeadsToDeliveryIff(h: History)
    requires IsHistory(h) && h.Then? && h.action.LoopActs? && Now(h.before).loop.at == Read
    ensures h.after.loop.Loop? && h.after.delivered == Now(h.before).delivered
    ensures h.after.loop.at ==
            if !h.action.ok then Exit else if SeenBySnapshot(h.before) then Deliver else Test
  {
    CallbacksKept(h.before);
    HistoriesAreSound(h.before);
    assert h.after == BodyStep(Now(h.before), h.action.ok);
  }

  /** Audio is delivered only by a loop that saw a callback, and then exactly one chunk at a time. */
  lemma DeliversIff(h: History)
    requires IsHistory(h) && h.Then?
    ensures |h.after.delivered| ==
            |Now(h.before).delivered| +
              if h.action.LoopActs? && Now(h.before).loop.at == Deliver then 1 else 0
    ensures h.after.delivered != Now(h.before).delivered ==> SeenBySnapshot(h.before)
  {
    CallbacksKept(h.before);
    HistoriesAreSound(h.before);
    NextEffects(Now(h.before), h.action, h.after);
  }

  predicate NeverRegisters(h: History) {
    h.Then? ==> NeverRegisters(h.before) && h.action != Calls(RegisterAudioCallback(true))
  }

  lemma {:induction false} NeverSeen(h: History)
    requires NeverRegisters(h)
    ensures !Registered(h) && !SeenBySnapshot(h)
  {
    if h.Then? {
      NeverSeen(h.before);
    }
  }

  /** Without a registered callback no audio is delivered, however the threads interleave. */
  lemma {:induction false} SilentWithoutCallback(h: History)
    requires IsHistory(h) && NeverRegisters(h)
    ensures Now(h).delivered == []
  {
    if h.Then? {
      SilentWithoutCallback(h.before);
      NeverSeen(h.before);
      DeliversIff(h);
    }
  }

  // ---------------------------------------------------------------- initialisation

  predicate NeverInits(h: History) {
    h.Then? ==> NeverInits(h.before) && h.action != Calls(Init)
  }

  predicate Untouched(m: Module) {
    && !m.initialized && !m.recordingInitialized && m.stream.None? && !m.recording && !m.joinable
    && m.loop.NoLoop? && m.delivered == []
    && !m.control.InitOpen? && !InStart(m.control) && !m.control.StopJoin? && !m.control.Terminated?
  }

  lemma UntouchedCall(m: Module, c: Call)
    requires Untouched(m) && MayCall(m, c) && c != Init
    ensures Untouched(Called(m, c))
  {
  }

  lemma UntouchedControl(m: Module, ok: bool)
    requires Untouched(m) && !ControlBlocked(m)
    ensures Untouched(ControlStep(m, ok))
  {
  }

  /** Before Init no call opens the stream, sets a flag or starts a thread. */
  lemma {:induction false} NothingWithoutInit(h: History)
    requires IsHistory(h) && NeverInits(h)
    ensures Untouched(Now(h))
  {
    if h.Then? {
      NothingWithoutInit(h.before);
      match h.action
      case Calls(c) => UntouchedCall(Now(h.before), c);
      case ControlActs(ok) => UntouchedControl(Now(h.before), ok);
      case LoopActs(_) =>
    }
  }

  /** Since the latest call the control thread has tried to open the stream, and it has opened one. */
  function Tried(h: History): bool {
    h.Then? && !h.action.Calls? &&
    (Tried(h.before) || (h.action.ControlActs? && Now(h.before).control.InitOpen?))
  }

  function Opened(h: History): bool {
    h.Then? && !h.action.Calls? &&
    (Opened(h.before) ||
     (h.action.ControlActs? && Now(h.before).control.InitOpen? && Now(h.before).stream.None? && h.action.ok))
  }

  /** A loop lives, and StartRecording goes on, only while both flags are set. */
  predicate Flagged(m: Module) {
    && (m.recordingInitialized ==> m.initialized)
    && (Active(m) || InStart(m.control) ==> m.recordingInitialized)
    && (m.control.InitOpen? ==> m.initialized)
  }

  lemma FlaggedCall(m: Module, c: Call)
    requires Flagged(m) && MayCall(m, c)
    ensures Flagged(Called(m, c))
  {
  }

  lemma FlaggedInit(m: Module, ok: bool)
    requires Flagged(m) && InInit(m.control)
    ensures Flagged(InitStep(m, ok))
  {
  }

  lemma FlaggedStart(m: Module)
    requires Flagged(m) && InStart(m.control)
    ensures Flagged(StartStep(m))
  {
  }

  lemma FlaggedStop(m: Module)
    requires Sound(m) && Flagged(m) && InStop(m.control)
    ensures Flagged(StopStep(m))
  {
  }

  lemma FlaggedLoop(m: Module, ok: bool)
    requires Flagged(m) && !LoopBlocked(m)
    ensures Flagged(LoopStep(m, ok))
  {
    LoopKeeps(m, ok);
  }

  /** In every interleaving a capture loop is alive only while the module is initialised for recording. */
  lemma {:induction false} LoopNeedsInit(h: History)
    requires IsHistory(h)
    ensures Flagged(Now(h))
  {
    if h.Then? {
      var m := Now(h.before);
      LoopNeedsInit(h.before);
      HistoriesAreSound(h.before);
      match h.action
      case Calls(c) => FlaggedCall(m, c);
      case LoopActs(ok) => FlaggedLoop(m, ok);
      case ControlActs(ok) =>
        if InInit(m.control) {
          FlaggedInit(m, ok);
        } else if InStart(m.control) {
          FlaggedStart(m);
        } else {
          FlaggedStop(m);
        }
    }
  }

  /** What InitRecording, alone or inside StartRecording, comes to. */
  predicate InitResult(m: Module, m0: Module, tried: bool, gained: bool) {
    && (tried <==> m0.initialized && !m0.recordingInitialized)
    && (gained ==> tried && m0.stream.None?)
    && (m.recordingInitialized <==> m0.recordingInitialized || (tried && (m0.stream.Some? || gained)))
    && (if gained then m.stream == Some(m0.handles) else m.stream == m0.stream)
  }

  predicate InitUnderWay(m: Module, m0: Module, tried: bool, gained: bool) {
    if InInit(m.control) then
      && m.initialized == m0.initialized && m.recordingInitialized == m0.recordingInitialized
      && m.stream == m0.stream && m.handles == m0.handles
      && !tried && !gained
      && (m.control.InitOpen? ==> m.initialized && !m.recordingInitialized)
      && (m.control.start ==> !m0.recordingInitialized)
    else
      (m.control.Idle? || InStart(m.control) || m.control.Terminated?) && InitResult(m, m0, tried, gained)
  }

  lemma LockUnderWay(m: Module, ok: bool, m0: Module)
    requires m.control.InitLock? && InitUnderWay(m, m0, false, false)
    ensures InitUnderWay(InitStep(m, ok), m0, false, false)
  {
  }

  lemma TestUnderWay(m: Module, ok: bool, m0: Module)
    requires Sound(m) && Flagged(m) && m.control.InitTest? && InitUnderWay(m, m0, false, false)
    ensures InitUnderWay(InitStep(m, ok), m0, false, false)
  {
    assert !m.recordingInitialized ==> !m.recording;
  }

  lemma OpenUnderWay(m: Module, ok: bool, m0: Module)
    requires m.control.InitOpen? && InitUnderWay(m, m0, false, false)
    ensures InitUnderWay(InitStep(m, ok), m0, true, m.stream.None? && ok)
  {
  }

  lemma StartUnderWay(m: Module, m0: Module, tried: bool, gained: bool)
    requires InStart(m.control) && InitUnderWay(m, m0, tried, gained) && m.fault.None? && Sound(m)
    ensures InitUnderWay(StartStep(m), m0, tried, gained)
  {
  }

  lemma TopKeepsHandles(m: Module)
    requires m.loop.Loop? && AtTop(m.loop.at)
    ensures TopStep(m).handles == m.handles
  {
  }

  lemma BodyKeepsHandles(m: Module, ok: bool)
    requires Active(m) && !AtTop(m.loop.at)
    ensures BodyStep(m, ok).handles == m.handles
  {
  }

  lemma LoopUnderWay(m: Module, ok: bool, m0: Module, tried: bool, gained: bool)
    requires !LoopBlocked(m) && InitUnderWay(m, m0, tried, gained)
    ensures InitUnderWay(LoopStep(m, ok), m0, tried, gained)
  {
    LoopKeeps(m, ok);
    if AtTop(m.loop.at) {
      TopKeepsHandles(m);
    } else {
      BodyKeepsHandles(m, ok);
    }
  }

  lemma CallUnderWay(m: Module, c: Call)
    requires Flagged(m) && MayCall(m, c) && (c.InitRecording? || c.StartRecording?)
    ensures InitUnderWay(Called(m, c), m, false, false)
  {
  }

  lemma {:induction false} InitsUnderWay(h: History)
    requires IsHistory(h) && (LatestIs(h, InitRecording) || LatestIs(h, StartRecording))
    ensures InitUnderWay(Now(h), AtCall(h), Tried(h), Opened(h))
  {
    var m := Now(h.before);
    LoopNeedsInit(h.before);
    HistoriesAreSound(h.before);
    match h.action
    case Calls(c) => CallUnderWay(m, c);
    case LoopActs(ok) =>
      InitsUnderWay(h.before);
      LoopUnderWay(m, ok, AtCall(h), Tried(h), Opened(h));
    case ControlActs(ok) =>
      InitsUnderWay(h.before);
      if m.control.InitLock? {
        LockUnderWay(m, ok, AtCall(h));
      } else if m.control.InitTest? {
        TestUnderWay(m, ok, AtCall(h));
      } else if m.control.InitOpen? {
        OpenUnderWay(m, ok, AtCall(h));
      } else {
        StartUnderWay(m, AtCall(h), Tried(h), Opened(h));
      }
  }

  /**
    When InitRecording or StartRecording has returned: it tried to open the stream iff Init had been called
    and the flag was not set; the flag is set iff it was before, or it tried and a stream was open or could
    be opened; and a stream that was open is kept.
  */
  lemma InitRecordingSucceedsIff(h: History)
    requires IsHistory(h) && (Returned(h, InitRecording) || Returned(h, StartRecording))
    ensures var m, m0 := Now(h), AtCall(h);
            && (Tried(h) <==> m0.initialized && !m0.recordingInitialized)
            && (m.recordingInitialized <==> m0.recordingInitialized || (Tried(h) && (m0.stream.Some? || Opened(h))))
            && (m.stream.Some? <==> m0.stream.Some? || Opened(h))
            && (m0.stream.Some? ==> m.stream == m0.stream)
  {
    InitsUnderWay(h);
  }

  // ---------------------------------------------------------------- parameters

  /** The channel count by the latest SetStereoRecording, or else the constructor. */
  function ChannelsAsked(h: History): nat {
    if h.Made? then if h.channels == 0 then 2 else h.channels
    else
      match h.action
      case Calls(SetStereoRecording(enable)) => if enable then 2 else 1
      case _ => ChannelsAsked(h.before)
  }

  function RateAsked(h: History): int {
    match h
    case Made(rate, _) => if rate <= 0 then 48000 else rate
    case Then(before, _, _) => RateAsked(before)
  }

  lemma CallParameters(m: Module, c: Call)
    requires MayCall(m, c)
    ensures Called(m, c).channels ==
            if c == SetStereoRecording(true) then 2 else if c == SetStereoRecording(false) then 1 else m.channels
  {
  }

  /** Rate, channel count and buffer length are what the calls say: ten milliseconds, rounded down. */
  lemma {:induction false} ParametersFollowTheCalls(h: History)
    requires IsHistory(h)
    ensures Now(h).rate == RateAsked(h) && Now(h).channels == ChannelsAsked(h)
    ensures Now(h).frames == RateAsked(h) / 100
  {
    if h.Then? {
      ParametersFollowTheCalls(h.before);
      NextEffects(Now(h.before), h.action, h.after);
      if h.action.Calls? {
        CallParameters(Now(h.before), h.action.call);
      }
    }
  }

  /** The duration of a chunk is the exact quotient rounded down; it is ten milliseconds iff 100 divides the rate. */
  lemma ChunkNanosIs(rate: int)
    requires rate > 0
    ensures ChunkNanos(rate) * rate <= (rate / 100) * 1_000_000_000 < (ChunkNanos(rate) + 1) * rate
    ensures ChunkNanos(rate) == 10_000_000 <==> rate % 100 == 0
    ensures ChunkNanos(rate) == 0 <==> rate < 100
  {
    var n := (rate / 100) * 1_000_000_000;
    assert n == 10_000_000 * (rate - rate % 100);
    QuotientFacts(n, rate, 10_000_000);
  }

  lemma QuotientFacts(n: int, d: int, top: int)
    requires 0 <= n <= top * d && d > 0
    ensures n / d * d <= n < (n / d + 1) * d
    ensures n / d == top <==> n == top * d
    ensures n / d == 0 <==> n < d
  {
    var q := n / d;
    assert q * d == n - n % d;
    if q > top {
      MulLess(top, q, d);
    } else if q < top {
      MulLess(q, top, d);
    }
    if q > 0 {
      MulLess(0, q, d);
    }
  }

  lemma MulLess(a: int, b: int, d: int)
    requires a < b && d > 0
    ensures (a + 1) * d <= b * d
  {
  }
}
