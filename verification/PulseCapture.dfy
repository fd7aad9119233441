/**
  The PulseAudio recording module (module/pulse_loopback_audio_device_module.cpp) as two threads
  that interleave: a control thread calling the public methods one at a time, and the capture loop.
  Each step is one access to shared state, one wait, or one call into PulseAudio.
*/
module PulseCapture {
  import opened Common

  /** How StopRecording was reached: called directly, from Terminate, or from the destructor. */
  datatype After = Return | ThenTerminate | ThenDestroy

  /** Where the control thread is. The start flag says that InitRecording was called by StartRecording. */
  datatype Control =
    | Idle
    | InitLock(start: bool)
    | InitTest(start: bool)
    | InitOpen(start: bool)
    | StartExchange
    | StartSpawn
    | StopExchange(after: After)
    | StopJoin(after: After)
    | StopLock(after: After)
    | StopClose(after: After)
    | ClearFlags(after: After)
    | Destroyed
    | Terminated

  datatype Place = Begin | Test | Lock | Snapshot | Check | Read | Deliver | Exit | Finished

  /** The capture loop with its locals; base is the channel count it started with. */
  datatype Loop =
    | NoLoop
    | Loop(at: Place, held: Option<nat>, callback: bool, samples: nat, count: nat, base: nat)

  datatype Owner = Free | ByControl | ByLoop

  /** What one audio callback was given: buffer size, samples per channel, channels. */
  datatype Chunk = Chunk(count: nat, samples: nat, channels: nat)

  datatype Fault = UseAfterFree | TwoLoops

  /** The constructor replaces a non-positive rate. */
  type Rate = r: int | 0 < r witness 48000

  datatype Module = Module(
    rate: Rate,
    channels: nat,
    frames: nat,
    initialized: bool,
    recordingInitialized: bool,
    recording: bool,
    callback: bool,
    stream: Option<nat>,
    handles: nat,
    mutex: Owner,
    joinable: bool,
    control: Control,
    loop: Loop,
    delivered: seq<Chunk>,
    fault: Option<Fault>)

  const INT32_MAX := 0x7FFF_FFFF
  const INT64_MAX := 0x7FFF_FFFF_FFFF_FFFF
  const NANOS_PER_SEC := 1_000_000_000
  const NANOS_PER_MILLI := 1_000_000

  function Constructed(rate: int, channels: nat): Module {
    var r: Rate := if rate > 0 then rate else 48000;
    Module(r, if channels > 0 then channels else 2, r / 100, false, false, false, false, None, 0,
           Free, false, Idle, NoLoop, [], None)
  }

  // ---------------------------------------------------------------- the control thread

  datatype Call =
    | Init
    | InitRecording
    | StartRecording
    | StopRecording
    | Terminate
    | Destroy
    | SetStereoRecording(enable: bool)
    | RegisterAudioCallback(present: bool)

  predicate MayCall(m: Module, c: Call) {
    m.control.Idle? && (c.RegisterAudioCallback? ==> m.mutex.Free?)
  }

  function Called(m: Module, c: Call): Module
    requires MayCall(m, c)
  {
    match c
    case Init => m.(initialized := true)
    case InitRecording => m.(control := InitLock(false))
    case StartRecording => m.(control := if m.recordingInitialized then StartExchange else InitLock(true))
    case StopRecording => m.(control := StopExchange(Return))
    case Terminate => m.(control := StopExchange(ThenTerminate))
    case Destroy => m.(control := StopExchange(ThenDestroy))
    case SetStereoRecording(enable) => m.(channels := if enable then 2 else 1, frames := m.rate / 100)
    case RegisterAudioCallback(present) => m.(callback := present)
  }

  predicate ControlBlocked(m: Module) {
    match m.control
    case InitLock(_) => !m.mutex.Free?
    case StopLock(_) => !m.mutex.Free?
    case StopJoin(_) => m.joinable && m.loop.Loop? && !m.loop.at.Finished?
    case Idle => true
    case Destroyed => true
    case Terminated => true
    case _ => false
  }

  function InitDone(m: Module, start: bool): Module {
    m.(mutex := Free, control := if start then StartExchange else Idle)
  }

  predicate InInit(c: Control) {
    c.InitLock? || c.InitTest? || c.InitOpen?
  }

  predicate InStart(c: Control) {
    c.StartExchange? || c.StartSpawn?
  }

  predicate InStop(c: Control) {
    c.StopExchange? || c.StopJoin? || c.StopLock? || c.StopClose? || c.ClearFlags?
  }

  /** InitRecording; ok decides whether pa_simple_new succeeds. */
  function InitStep(m: Module, ok: bool): Module
    requires InInit(m.control)
  {
    match m.control
    case InitLock(start) => m.(mutex := ByControl, control := InitTest(start))
    case InitTest(start) =>
      if !m.initialized || m.recording then m.(mutex := Free, control := Idle)
      else if m.recordingInitialized then InitDone(m, start)
      else m.(control := InitOpen(start))
    case InitOpen(start) =>
      if m.stream.Some? then InitDone(m.(recordingInitialized := true), start)
      else if ok then
        InitDone(m.(recordingInitialized := true, stream := Some(m.handles), handles := m.handles + 1), start)
      else m.(mutex := Free, control := Idle)
  }

  /** The rest of StartRecording. Assigning a new thread over a joinable one ends the process. */
  function StartStep(m: Module): Module
    requires InStart(m.control)
  {
    match m.control
    case StartExchange => if m.recording then m.(control := Idle) else m.(recording := true, control := StartSpawn)
    case StartSpawn =>
      if m.joinable then m.(control := Terminated)
      else if Active(m) then m.(fault := Some(TwoLoops))
      else m.(joinable := true, loop := Loop(Begin, None, false, 0, 0, 0), control := Idle)
  }

  /** StopRecording, and what Terminate and the destructor do after it. */
  function StopStep(m: Module): Module
    requires InStop(m.control)
  {
    match m.control
    case StopExchange(after) =>
      if m.recording then m.(recording := false, control := StopJoin(after)) else m.(control := StopLock(after))
    case StopJoin(after) =>
      m.(joinable := false, loop := if m.joinable then NoLoop else m.loop, control := StopLock(after))
    case StopLock(after) => m.(mutex := ByControl, control := StopClose(after))
    case StopClose(after) =>
      m.(stream := None, mutex := Free, control := if after.Return? then Idle else ClearFlags(after))
    case ClearFlags(after) =>
      m.(initialized := false, recordingInitialized := false,
         control := if !after.ThenDestroy? then Idle else if m.joinable then Terminated else Destroyed)
  }

  function ControlStep(m: Module, ok: bool): Module
    requires !ControlBlocked(m)
  {
    if InInit(m.control) then InitStep(m, ok)
    else if InStart(m.control) then StartStep(m)
    else StopStep(m)
  }

  // ---------------------------------------------------------------- the capture loop

  /** A loop exists and has not yet made its last access to the module. */
  predicate Active(m: Module) {
    m.loop.Loop? && !m.loop.at.Finished?
  }

  predicate LoopBlocked(m: Module) {
    !Active(m) || (m.loop.at.Lock? && !m.mutex.Free?) || m.control.Terminated? || m.control.Destroyed?
  }

  /** The local stream pointer no longer denotes the open stream. */
  predicate Dangling(m: Module)
    requires m.loop.Loop?
  {
    m.loop.held.Some? && m.loop.held != m.stream
  }

  predicate AtTop(p: Place) {
    p.Begin? || p.Test? || p.Lock? || p.Snapshot?
  }

  function TopStep(m: Module): Module
    requires m.loop.Loop? && AtTop(m.loop.at)
  {
    var l := m.loop;
    match l.at
    case Begin => m.(loop := l.(at := Test, samples := m.frames, count := m.frames * m.channels, base := m.channels))
    case Test => m.(loop := l.(at := if m.recording then Lock else Exit))
    case Lock => m.(mutex := ByLoop, loop := l.(at := Snapshot))
    case Snapshot => m.(mutex := Free, loop := l.(at := Check, held := m.stream, callback := m.callback))
  }

  /** ok decides whether pa_simple_read succeeds. */
  function BodyStep(m: Module, ok: bool): Module
    requires Active(m) && !AtTop(m.loop.at)
  {
    var l := m.loop;
    match l.at
    case Check => m.(loop := l.(at := if l.held.None? then Exit else Read))
    case Read =>
      if Dangling(m) then m.(fault := Some(UseAfterFree))
      else m.(loop := l.(at := if !ok then Exit else if l.callback then Deliver else Test))
    case Deliver =>
      if Dangling(m) then m.(fault := Some(UseAfterFree))
      else m.(loop := l.(at := Test), delivered := m.delivered + [Chunk(l.count, l.samples, m.channels)])
    case Exit => m.(recording := false, loop := l.(at := Finished))
  }

  function LoopStep(m: Module, ok: bool): Module
    requires !LoopBlocked(m)
  {
    if AtTop(m.loop.at) then TopStep(m) else BodyStep(m, ok)
  }

  // ---------------------------------------------------------------- interleavings

  datatype Action = Calls(call: Call) | ControlActs(ok: bool) | LoopActs(ok: bool)

  predicate Next(m: Module, a: Action, m': Module) {
    match a
    case Calls(c) => MayCall(m, c) && m' == Called(m, c)
    case ControlActs(ok) => !ControlBlocked(m) && m' == ControlStep(m, ok)
    case LoopActs(ok) => !LoopBlocked(m) && m' == LoopStep(m, ok)
  }

  datatype History = Made(rate: int, channels: nat) | Then(before: History, action: Action, after: Module)

  function Now(h: History): Module {
    match h
    case Made(rate, channels) => Constructed(rate, channels)
    case Then(_, _, after) => after
  }

  predicate IsHistory(h: History) {
    h.Then? ==> IsHistory(h.before) && Next(Now(h.before), h.action, h.after)
  }

  // ---------------------------------------------------------------- what a step can change

  /** The parts of a step that the theorems below depend on. */
  predicate Effects(m: Module, a: Action, m': Module) {
    && AudioEffects(m, a, m')
    && LoopEffects(m, a, m'.loop)
    && ControlEffects(m, a, m'.control)
  }

  predicate AudioEffects(m: Module, a: Action, m': Module) {
    && m'.rate == m.rate
    && (if a.Calls? && a.call.SetStereoRecording? then m'.frames == m.rate / 100
        else m'.frames == m.frames && m'.channels == m.channels)
    && m'.delivered ==
      (if Delivers(m, a) then m.delivered + [Chunk(m.loop.count, m.loop.samples, m.channels)] else m.delivered)
    && (m.stream.Some? && m'.stream != m.stream ==> a.ControlActs? && m.control.StopClose?)
  }

  predicate Delivers(m: Module, a: Action) {
    a.LoopActs? && m.loop.Loop? && m.loop.at.Deliver? && !Dangling(m)
  }

  predicate LoopEffects(m: Module, a: Action, l: Loop) {
    match a
    case Calls(_) => l == m.loop
    case ControlActs(_) => l == m.loop || l.NoLoop? || (m.control.StartSpawn? && l.at.Begin?)
    case LoopActs(_) =>
      && Active(m) && l.Loop? && !l.at.Begin?
      && if m.loop.at.Begin? then l.samples == m.frames && l.count == m.frames * m.channels && l.base == m.channels
         else l.samples == m.loop.samples && l.count == m.loop.count && l.base == m.loop.base
  }

  predicate ControlEffects(m: Module, a: Action, c: Control) {
    match a
    case Calls(call) => m.control.Idle? && (call != StartRecording ==> !InStart(c) && (InInit(c) ==> !c.start))
    case ControlActs(_) =>
      && (c.StartExchange? ==> InInit(m.control) && m.control.start)
      && (c.StartSpawn? ==> InStart(m.control))
      && (InInit(c) ==> InInit(m.control) && c.start == m.control.start)
    case LoopActs(_) => c == m.control
  }

  lemma InitEffects(m: Module, ok: bool)
    requires InInit(m.control)
    ensures Effects(m, ControlActs(ok), InitStep(m, ok))
  {
  }

  lemma StartEffects(m: Module, ok: bool)
    requires InStart(m.control)
    ensures Effects(m, ControlActs(ok), StartStep(m))
  {
  }

  lemma StopEffects(m: Module, ok: bool)
    requires InStop(m.control)
    ensures Effects(m, ControlActs(ok), StopStep(m))
  {
  }

  lemma TopEffects(m: Module, ok: bool)
    requires m.loop.Loop? && AtTop(m.loop.at)
    ensures Effects(m, LoopActs(ok), TopStep(m))
  {
  }

  lemma BodyAudio(m: Module, ok: bool)
    requires Active(m) && !AtTop(m.loop.at)
    ensures AudioEffects(m, LoopActs(ok), BodyStep(m, ok))
  {
  }

  lemma BodyLoop(m: Module, ok: bool)
    requires Active(m) && !AtTop(m.loop.at)
    ensures LoopEffects(m, LoopActs(ok), BodyStep(m, ok).loop)
    ensures ControlEffects(m, LoopActs(ok), BodyStep(m, ok).control)
  {
    BodyKeepsLocals(m, ok);
  }

  lemma BodyKeepsLocals(m: Module, ok: bool)
    requires Active(m) && !AtTop(m.loop.at)
    ensures BodyStep(m, ok).control == m.control
    ensures BodyStep(m, ok).loop.Loop? && !BodyStep(m, ok).loop.at.Begin?
    ensures BodyStep(m, ok).loop == m.loop.(at := BodyStep(m, ok).loop.at)
  {
    match m.loop.at
    case Check =>
    case Read =>
    case Deliver =>
    case Exit =>
  }

  lemma CallEffects(m: Module, c: Call)
    requires MayCall(m, c)
    ensures Effects(m, Calls(c), Called(m, c))
  {
  }

  lemma ControlActsEffects(m: Module, ok: bool)
    requires !ControlBlocked(m)
    ensures Effects(m, ControlActs(ok), ControlStep(m, ok))
  {
    if InInit(m.control) {
      InitEffects(m, ok);
    } else if InStart(m.control) {
      StartEffects(m, ok);
    } else {
      StopEffects(m, ok);
    }
  }

  lemma LoopActsEffects(m: Module, ok: bool)
    requires !LoopBlocked(m)
    ensures Effects(m, LoopActs(ok), LoopStep(m, ok))
  {
    if AtTop(m.loop.at) {
      TopEffects(m, ok);
    } else {
      BodyAudio(m, ok);
      BodyLoop(m, ok);
    }
  }

  lemma NextEffects(m: Module, a: Action, m': Module)
    requires Next(m, a, m')
    ensures Effects(m, a, m')
  {
    match a
    case Calls(c) => CallEffects(m, c);
    case ControlActs(ok) => ControlActsEffects(m, ok);
    case LoopActs(ok) => LoopActsEffects(m, ok);
  }

  // ---------------------------------------------------------------- the invariant

  predicate Holding(m: Module) {
    m.loop.Loop? && (m.loop.at.Check? || m.loop.at.Read? || m.loop.at.Deliver?) && m.loop.held.Some?
  }

  /** Places of the control thread that no capture loop can overlap. */
  predicate Alone(c: Control) {
    c.InitOpen? || c.StartSpawn? || c.StopLock? || c.StopClose? || c.ClearFlags? || c.Destroyed?
  }

  predicate Sound(m: Module) {
    && m.fault.None?
    && (m.joinable <==> m.loop.Loop?)
    && (m.mutex.ByControl? <==> m.control.InitTest? || m.control.InitOpen? || m.control.StopClose?)
    && (m.mutex.ByLoop? <==> m.loop.Loop? && m.loop.at.Snapshot?)
    && (!m.control.Terminated? ==> (m.recording <==> (Active(m) && !m.control.StopJoin?) || m.control.StartSpawn?))
    && (Alone(m.control) || m.control.Terminated? ==> !Active(m))
    && (Holding(m) ==> m.stream == m.loop.held)
    && (m.stream.Some? ==> m.stream.value < m.handles)
  }

  lemma SoundCall(m: Module, c: Call)
    requires Sound(m) && MayCall(m, c)
    ensures Sound(Called(m, c))
  {
  }

  lemma SoundInit(m: Module, ok: bool)
    requires Sound(m) && InInit(m.control) && !ControlBlocked(m)
    ensures Sound(InitStep(m, ok))
  {
  }

  lemma SoundStart(m: Module)
    requires Sound(m) && InStart(m.control)
    ensures Sound(StartStep(m))
  {
  }

  lemma SoundStop(m: Module)
    requires Sound(m) && InStop(m.control) && !ControlBlocked(m)
    ensures Sound(StopStep(m))
  {
  }

  lemma SoundTop(m: Module)
    requires Sound(m) && !LoopBlocked(m) && AtTop(m.loop.at)
    ensures Sound(TopStep(m))
  {
  }

  lemma SoundUse(m: Module, ok: bool)
    requires Sound(m) && !LoopBlocked(m) && (m.loop.at.Check? || m.loop.at.Read? || m.loop.at.Deliver?)
    ensures Sound(BodyStep(m, ok))
  {
  }

  lemma SoundExit(m: Module, ok: bool)
    requires Sound(m) && !LoopBlocked(m) && m.loop.at.Exit?
    ensures Sound(BodyStep(m, ok))
  {
  }

  lemma SoundNext(m: Module, a: Action, m': Module)
    requires Sound(m) && Next(m, a, m')
    ensures Sound(m')
  {
    match a
    case Calls(c) => SoundCall(m, c);
    case ControlActs(ok) =>
      if InInit(m.control) {
        SoundInit(m, ok);
      } else if InStart(m.control) {
        SoundStart(m);
      } else {
        SoundStop(m);
      }
    case LoopActs(ok) =>
      if AtTop(m.loop.at) {
        SoundTop(m);
      } else if m.loop.at.Exit? {
        SoundExit(m, ok);
      } else {
        SoundUse(m, ok);
      }
  }

  lemma {:induction false} HistoriesAreSound(h: History)
    requires IsHistory(h)
    ensures Sound(Now(h))
  {
    if h.Then? {
      HistoriesAreSound(h.before);
      SoundNext(Now(h.before), h.action, h.after);
    }
  }

  lemma OnlyStopFrees(m: Module, a: Action, m': Module)
    requires Sound(m) && Effects(m, a, m')
    ensures m.stream.Some? && m'.stream != m.stream ==> !Active(m)
  {
  }

  /**
    In every interleaving: no freed stream is used and no second loop starts, a stream the loop holds is
    the open one, and the step that frees the stream finds no loop alive.
  */
  lemma StreamOutlivesItsUse(h: History)
    requires IsHistory(h)
    ensures Now(h).fault.None?
    ensures Holding(Now(h)) ==> Now(h).stream == Now(h).loop.held
    ensures h.Then? && Now(h.before).stream.Some? && h.after.stream != Now(h.before).stream ==> !Active(Now(h.before))
  {
    HistoriesAreSound(h);
    if h.Then? {
      HistoriesAreSound(h.before);
      NextEffects(Now(h.before), h.action, h.after);
      OnlyStopFrees(Now(h.before), h.action, h.after);
    }
  }

  // ---------------------------------------------------------------- stopping always succeeds

  /** How many more steps of its own a loop needs once recording_ is false. */
  function StepsLeft(p: Place): nat {
    match p
    case Finished => 0
    case Exit => 1
    case Test => 2
    case Begin => 3
    case Deliver => 3
    case Read => 4
    case Check => 5
    case Snapshot => 6
    case Lock => 7
  }

  /**
    While StopRecording waits for the thread, the loop is never blocked and each of its steps, whatever
    the reads return, brings it closer to its end: the join cannot deadlock.
  */
  lemma JoinMakesProgress(h: History, ok: bool)
    requires IsHistory(h) && Now(h).control.StopJoin? && Active(Now(h))
    ensures !LoopBlocked(Now(h))
    ensures var m := LoopStep(Now(h), ok);
            m.control == Now(h).control && m.loop.Loop? && StepsLeft(m.loop.at) < StepsLeft(Now(h).loop.at)
  {
    HistoriesAreSound(h);
    WaitingLoopAdvances(Now(h), ok);
  }

  lemma WaitingLoopAdvances(m: Module, ok: bool)
    requires Sound(m) && m.control.StopJoin? && Active(m)
    ensures !LoopBlocked(m)
    ensures LoopStep(m, ok).control == m.control && LoopStep(m, ok).loop.Loop?
    ensures StepsLeft(LoopStep(m, ok).loop.at) < StepsLeft(m.loop.at)
  {
    assert !m.recording && (m.loop.at.Lock? ==> m.mutex.Free?);
    if AtTop(m.loop.at) {
      WaitingTopAdvances(m);
    } else {
      WaitingBodyAdvances(m, ok);
    }
  }

  lemma WaitingTopAdvances(m: Module)
    requires m.loop.Loop? && AtTop(m.loop.at) && !m.recording
    ensures TopStep(m).control == m.control && TopStep(m).loop.Loop?
    ensures StepsLeft(TopStep(m).loop.at) < StepsLeft(m.loop.at)
  {
  }

  lemma WaitingBodyAdvances(m: Module, ok: bool)
    requires Active(m) && !AtTop(m.loop.at) && (Holding(m) ==> m.stream == m.loop.held)
    ensures BodyStep(m, ok).control == m.control && BodyStep(m, ok).loop.Loop?
    ensures StepsLeft(BodyStep(m, ok).loop.at) < StepsLeft(m.loop.at)
  {
    match m.loop.at
    case Check =>
    case Read => assert !Dangling(m);
    case Deliver => assert !Dangling(m);
    case Exit =>
  }

  // ---------------------------------------------------------------- chunk sizes and durations

  /** The channel count is only changed while no loop is alive. */
  predicate SteadyChannels(h: History) {
    h.Then? ==>
      && SteadyChannels(h.before)
      && (h.action.Calls? && h.action.call.SetStereoRecording? ==> !Active(Now(h.before)))
  }

  /** Past its first step a loop has a buffer for base channels of a hundredth of a second each. */
  predicate Sized(m: Module) {
    && m.frames == m.rate / 100
    && (Active(m) && !m.loop.at.Begin? ==> m.loop.samples == m.frames && m.loop.count == m.loop.samples * m.loop.base)
  }

  predicate Whole(c: Chunk) {
    c.count == c.samples * c.channels
  }

  lemma SizedNext(m: Module, a: Action, m': Module)
    requires Sized(m) && Effects(m, a, m')
    ensures Sized(m')
  {
  }

  lemma {:induction false} HistoriesAreSized(h: History)
    requires IsHistory(h)
    ensures Sized(Now(h))
  {
    if h.Then? {
      HistoriesAreSized(h.before);
      NextEffects(Now(h.before), h.action, h.after);
      SizedNext(Now(h.before), h.action, h.after);
    }
  }

  /** A delivered chunk is as long as it claims iff the channel count is the one its
      loop started with, or it is empty. */
  lemma ChunkWholeIff(h: History)
    requires IsHistory(h) && h.Then? && h.after.delivered != Now(h.before).delivered
    ensures var m, n := Now(h.before), |h.after.delivered|;
            && n == |m.delivered| + 1 && h.after.delivered[..n - 1] == m.delivered && m.loop.Loop?
            && (Whole(h.after.delivered[n - 1]) <==> m.loop.base == m.channels || m.frames == 0)
  {
    HistoriesAreSized(h.before);
    NextEffects(Now(h.before), h.action, h.after);
    ChunkStep(Now(h.before), h.action, h.after);
  }

  lemma ChunkStep(m: Module, a: Action, m': Module)
    requires Sized(m) && Effects(m, a, m') && m'.delivered != m.delivered
    ensures m.loop.Loop? && m.loop.samples == m.frames
    ensures var c := Chunk(m.loop.count, m.loop.samples, m.channels);
            m'.delivered == m.delivered + [c] && (Whole(c) <==> m.loop.base == m.channels || m.frames == 0)
  {
  }

  predicate BaseCurrent(m: Module) {
    Active(m) && !m.loop.at.Begin? ==> m.loop.base == m.channels
  }

  lemma BaseNext(m: Module, a: Action, m': Module)
    requires BaseCurrent(m) && Effects(m, a, m') && (a.Calls? && a.call.SetStereoRecording? ==> !Active(m))
    ensures BaseCurrent(m')
  {
  }

  lemma {:induction false} BaseIsCurrent(h: History)
    requires IsHistory(h) && SteadyChannels(h)
    ensures BaseCurrent(Now(h))
  {
    if h.Then? {
      BaseIsCurrent(h.before);
      NextEffects(Now(h.before), h.action, h.after);
      BaseNext(Now(h.before), h.action, h.after);
    }
  }

  /** If channels change only between loops, every chunk ever delivered is whole. */
  lemma {:induction false} SteadyChannelsDeliverWholeChunks(h: History)
    requires IsHistory(h) && SteadyChannels(h)
    ensures forall c | c in Now(h).delivered :: Whole(c) && c.samples == Now(h).rate / 100
  {
    if h.Then? {
      SteadyChannelsDeliverWholeChunks(h.before);
      var m := Now(h.before);
      BaseIsCurrent(h.before);
      HistoriesAreSized(h.before);
      NextEffects(m, h.action, h.after);
      if h.after.delivered != m.delivered {
        ChunkStep(m, h.action, h.after);
        assert m.loop.base == m.channels;
      }
    }
  }

  function ChunkNanos(rate: int): int
    requires rate > 0
  {
    (rate / 100) * NANOS_PER_SEC / rate
  }

  /** For every positive sample rate the 64-bit product fits, and the reported delay is 10 ms
      iff 100 divides the rate. */
  lemma ChunkDurationFits(rate: int)
    requires 0 < rate <= INT32_MAX
    ensures 0 <= (rate / 100) * NANOS_PER_SEC <= INT64_MAX
    ensures 0 <= ChunkNanos(rate) <= 10_000_000
    ensures ChunkNanos(rate) / NANOS_PER_MILLI == 10 <==> rate % 100 == 0
  {
  }

}
