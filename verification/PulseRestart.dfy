/**
  How recordings end and start again (module/pulse_loopback_audio_device_module.cpp): what a
  StopRecording leaves behind, and when the process ends because the std::thread object is
  assigned over, or destroyed, while it is still joinable. All of it for every interleaving.
*/
module PulseRestart {
  import opened Common
  import opened PulseCapture

  predicate Extends(later: History, h: History) {
    later == h || (later.Then? && Extends(later.before, h))
  }

  // ---------------------------------------------------------------- what one step leaves alone

  lemma TopKeeps(m: Module)
    requires m.loop.Loop? && AtTop(m.loop.at)
    ensures var m' := TopStep(m);
            && m'.control == m.control && m'.stream == m.stream && m'.joinable == m.joinable
            && m'.initialized == m.initialized && m'.recordingInitialized == m.recordingInitialized
  {
  }

  lemma BodyKeeps(m: Module, ok: bool)
    requires Active(m) && !AtTop(m.loop.at)
    ensures var m' := BodyStep(m, ok);
            && m'.control == m.control && m'.stream == m.stream && m'.joinable == m.joinable
            && m'.initialized == m.initialized && m'.recordingInitialized == m.recordingInitialized
  {
    BodyKeepsLocals(m, ok);
  }

  /** The loop never touches the flags of initialisation, the stream pointer or the thread object. */
  lemma LoopKeeps(m: Module, ok: bool)
    requires !LoopBlocked(m)
    ensures var m' := LoopStep(m, ok);
            && m'.control == m.control && m'.stream == m.stream && m'.joinable == m.joinable
            && m'.initialized == m.initialized && m'.recordingInitialized == m.recordingInitialized
  {
    if AtTop(m.loop.at) {
      TopKeeps(m);
    } else {
      BodyKeeps(m, ok);
    }
  }

  /** When the loop makes its last access. */
  lemma LoopFinishesIff(m: Module, ok: bool)
    requires Sound(m) && !LoopBlocked(m)
    ensures LoopStep(m, ok).loop.Loop? && (LoopStep(m, ok).loop.at.Finished? <==> m.loop.at.Exit?)
  {
    if !AtTop(m.loop.at) {
      BodyKeepsLocals(m, ok);
    }
  }

  // ---------------------------------------------------------------- a loop that ended by itself

  /** The thread object belongs to a loop that has ended, and nobody is about to join it. */
  predicate Doomed(m: Module) {
    m.joinable && m.loop.Loop? && m.loop.at.Finished? && !m.control.StopJoin? && !m.control.Destroyed?
  }

  /** Where a joinable thread object ends the process: it is assigned over, or destroyed. */
  predicate LosesThread(c: Control) {
    c.StartSpawn? || c == ClearFlags(ThenDestroy)
  }

  lemma DoomedInit(m: Module, ok: bool)
    requires Sound(m) && Doomed(m) && InInit(m.control)
    ensures Doomed(InitStep(m, ok)) && InitStep(m, ok).delivered == m.delivered
  {
  }

  lemma DoomedStart(m: Module)
    requires Sound(m) && Doomed(m) && InStart(m.control)
    ensures Doomed(StartStep(m)) && StartStep(m).delivered == m.delivered
  {
  }

  lemma DoomedStop(m: Module)
    requires Sound(m) && Doomed(m) && InStop(m.control)
    ensures Doomed(StopStep(m)) && StopStep(m).delivered == m.delivered
  {
  }

  lemma DoomedNext(m: Module, a: Action, m': Module)
    requires Sound(m) && Doomed(m) && Next(m, a, m')
    ensures Doomed(m') && m'.delivered == m.delivered
  {
    if a.ControlActs? {
      if InInit(m.control) {
        DoomedInit(m, a.ok);
      } else if InStart(m.control) {
        DoomedStart(m);
      } else {
        DoomedStop(m);
      }
    }
  }

  /** Nothing the control thread can call mends it, and no audio is delivered any more. */
  lemma {:induction false} DoomIsForever(h: History, later: History)
    requires IsHistory(h) && Doomed(Now(h)) && IsHistory(later) && Extends(later, h)
    ensures Doomed(Now(later)) && Now(later).delivered == Now(h).delivered
  {
    if later != h {
      DoomIsForever(h, later.before);
      HistoriesAreSound(later.before);
      DoomedNext(Now(later.before), later.action, later.after);
    }
  }

  lemma NotDoomedByInit(m: Module, ok: bool)
    requires InInit(m.control) && !Doomed(m)
    ensures !Doomed(InitStep(m, ok))
  {
  }

  lemma NotDoomedByStart(m: Module)
    requires InStart(m.control) && !Doomed(m) && Sound(m)
    ensures !Doomed(StartStep(m))
  {
  }

  lemma NotDoomedByStop(m: Module)
    requires InStop(m.control) && !Doomed(m) && !ControlBlocked(m) && Sound(m)
    ensures !Doomed(StopStep(m))
  {
  }

  lemma NotDoomedByControl(m: Module, ok: bool)
    requires Sound(m) && !ControlBlocked(m) && !Doomed(m)
    ensures !Doomed(ControlStep(m, ok))
  {
    if InInit(m.control) {
      NotDoomedByInit(m, ok);
    } else if InStart(m.control) {
      NotDoomedByStart(m);
    } else {
      NotDoomedByStop(m);
    }
  }

  lemma DoomedByLoopIff(m: Module, ok: bool)
    requires Sound(m) && !LoopBlocked(m)
    ensures Doomed(LoopStep(m, ok)) <==> m.loop.at.Exit? && !m.control.StopJoin?
  {
    LoopKeeps(m, ok);
    LoopFinishesIff(m, ok);
  }

  /** It comes about exactly when the loop ends while StopRecording is not waiting for it. */
  lemma DoomArisesIff(h: History)
    requires IsHistory(h) && h.Then? && !Doomed(Now(h.before))
    ensures Doomed(h.after) <==>
            h.action.LoopActs? && Now(h.before).loop.at.Exit? && !Now(h.before).control.StopJoin?
  {
    var m := Now(h.before);
    HistoriesAreSound(h.before);
    match h.action
    case Calls(c) => CallKeepsDoom(m, c);
    case ControlActs(ok) => NotDoomedByControl(m, ok);
    case LoopActs(ok) => DoomedByLoopIff(m, ok);
  }

  lemma CallKeepsDoom(m: Module, c: Call)
    requires MayCall(m, c)
    ensures Doomed(Called(m, c)) <==> Doomed(m)
    ensures !Called(m, c).control.Terminated?
  {
  }

  lemma EndsByStart(m: Module)
    requires Sound(m) && InStart(m.control)
    ensures StartStep(m).control.Terminated? <==> m.control.StartSpawn? && m.joinable
  {
  }

  lemma EndsByStop(m: Module)
    requires InStop(m.control)
    ensures StopStep(m).control.Terminated? <==> m.control == ClearFlags(ThenDestroy) && m.joinable
  {
  }

  lemma EndsByControlIff(m: Module, ok: bool)
    requires Sound(m) && !ControlBlocked(m)
    ensures ControlStep(m, ok).control.Terminated? <==> LosesThread(m.control) && Doomed(m)
  {
    if InInit(m.control) {
      assert !InitStep(m, ok).control.Terminated?;
    } else if InStart(m.control) {
      EndsByStart(m);
    } else {
      EndsByStop(m);
    }
  }

  /**
    In every interleaving: a step ends the process iff it assigns over, or destroys, the thread object of a
    loop that ended by itself.
  */
  lemma ProcessEndsIff(h: History)
    requires IsHistory(h) && h.Then? && !Now(h.before).control.Terminated?
    ensures h.after.control.Terminated? <==>
            h.action.ControlActs? && LosesThread(Now(h.before).control) && Doomed(Now(h.before))
  {
    var m := Now(h.before);
    HistoriesAreSound(h.before);
    match h.action
    case Calls(c) => CallKeepsDoom(m, c);
    case LoopActs(ok) => LoopKeeps(m, ok);
    case ControlActs(ok) => EndsByControlIff(m, ok);
  }

  /** So the process only ever ends by a loop that ended while no StopRecording was waiting for it. */
  lemma {:induction false} EndedProcessWasDoomed(h: History)
    requires IsHistory(h) && Now(h).control.Terminated?
    ensures Doomed(Now(h))
  {
    if Now(h.before).control.Terminated? {
      EndedProcessWasDoomed(h.before);
    } else {
      ProcessEndsIff(h);
    }
    HistoriesAreSound(h.before);
    DoomedNext(Now(h.before), h.action, h.after);
  }

  // ---------------------------------------------------------------- whole calls

  /** The history up to and including the latest call of the control thread. */
  function LatestCall(h: History): History {
    if h.Made? || h.action.Calls? then h else LatestCall(h.before)
  }

  predicate LatestIs(h: History, c: Call) {
    LatestCall(h).Then? && LatestCall(h).action == Calls(c)
  }

  /** The module as the latest call found it. */
  function AtCall(h: History): Module
    requires LatestCall(h).Then?
  {
    Now(LatestCall(h).before)
  }

  /** StartRecording has just made its exchange on recording_. */
  predicate StartExchanged(h: History) {
    h.Then? && h.action.ControlActs? && Now(h.before).control.StartExchange?
  }

  /**
    What StartRecording does once it is past InitRecording, by the state it finds at its exchange: return
    at once if a loop is alive; end the process if one ended by itself; otherwise start one.
  */
  lemma StartTerminatesIff(h: History, later: History)
    requires IsHistory(h) && StartExchanged(h)
    requires IsHistory(later) && later.Then? && later.before == h
    ensures h.after.control.Idle? <==> Active(Now(h.before))
    ensures !Active(Now(h.before)) ==>
              && later.action.ControlActs?
              && (later.after.control.Terminated? <==> Doomed(Now(h.before)))
              && (Active(later.after) <==> !Doomed(Now(h.before)))
  {
    HistoriesAreSound(h.before);
    assert h.after == StartStep(Now(h.before));
  }

  /** The destructor has just made its exchange on recording_. */
  predicate DestroyExchanged(h: History) {
    h.Then? && h.action.ControlActs? && Now(h.before).control == StopExchange(ThenDestroy)
  }

  /** The rest of a destructor that will not end the process. */
  predicate Ending(m: Module) {
    && !Doomed(m)
    && (m.control.Destroyed? ||
        m.control in {StopJoin(ThenDestroy), StopLock(ThenDestroy), StopClose(ThenDestroy), ClearFlags(ThenDestroy)})
  }

  lemma EndingStop(m: Module)
    requires Sound(m) && Ending(m) && InStop(m.control) && !ControlBlocked(m)
    ensures Ending(StopStep(m))
  {
    NotDoomedByStop(m);
  }

  lemma EndingNext(m: Module, a: Action, m': Module)
    requires Sound(m) && Ending(m) && Next(m, a, m')
    ensures Ending(m')
  {
    match a
    case Calls(_) => assert false;
    case ControlActs(_) => EndingStop(m);
    case LoopActs(ok) =>
      LoopKeeps(m, ok);
      assert m.control.StopJoin?;
  }

  lemma {:induction false} EndingStays(h: History, later: History)
    requires IsHistory(h) && Ending(Now(h)) && IsHistory(later) && Extends(later, h)
    ensures Ending(Now(later))
  {
    if later != h {
      EndingStays(h, later.before);
      HistoriesAreSound(later.before);
      EndingNext(Now(later.before), later.action, later.after);
    }
  }

  /** The destructor ends the process iff at its exchange the loop had ended by itself; else it completes. */
  lemma DestroyTerminatesIff(h: History, later: History)
    requires IsHistory(h) && DestroyExchanged(h) && IsHistory(later) && Extends(later, h)
    ensures Now(later).control.Terminated? ==> Doomed(Now(h.before))
    ensures Now(later).control.Destroyed? ==> !Doomed(Now(h.before))
  {
    var m := Now(h.before);
    HistoriesAreSound(h.before);
    if Doomed(m) {
      DoomedNext(m, h.action, h.after);
      DoomIsForever(h, later);
    } else {
      NotDoomedByStop(m);
      EndingStays(h, later);
    }
  }

  // ---------------------------------------------------------------- a start in a doomed module

  /** Where a StartRecording can be that was called in a doomed module; flag is recording_initialized_ then. */
  predicate DoomedCall(m: Module, flag: bool) {
    && Doomed(m)
    && (flag ==> m.recordingInitialized)
    && (if m.control.Idle? || InInit(m.control) then !m.recordingInitialized
        else (InStart(m.control) || m.control.Terminated?) && m.recordingInitialized)
    && (InInit(m.control) ==> m.control.start)
  }

  lemma DoomedCallInit(m: Module, ok: bool, flag: bool)
    requires Sound(m) && DoomedCall(m, flag) && InInit(m.control)
    ensures DoomedCall(InitStep(m, ok), flag)
  {
    DoomedInit(m, ok);
  }

  lemma DoomedCallStart(m: Module, flag: bool)
    requires Sound(m) && DoomedCall(m, flag) && InStart(m.control)
    ensures DoomedCall(StartStep(m), flag)
  {
    DoomedStart(m);
  }

  lemma {:induction false} DoomedCallStays(h: History)
    requires IsHistory(h) && LatestIs(h, StartRecording) && Doomed(AtCall(h))
    ensures DoomedCall(Now(h), AtCall(h).recordingInitialized)
  {
    var m := Now(h.before);
    if !h.action.Calls? {
      DoomedCallStays(h.before);
      HistoriesAreSound(h.before);
      if InInit(m.control) {
        DoomedCallInit(m, h.action.ok, AtCall(h).recordingInitialized);
      } else {
        DoomedCallStart(m, AtCall(h).recordingInitialized);
      }
    }
  }

  /**
    A StartRecording called after a loop ended by itself returns iff its InitRecording fails; otherwise it
    ends the process, and so it always does if recording_initialized_ was set.
  */
  lemma DoomedStartTerminatesIff(h: History)
    requires IsHistory(h) && LatestIs(h, StartRecording) && Doomed(AtCall(h))
    requires Now(h).control.Idle? || Now(h).control.Terminated?
    ensures Now(h).control.Terminated? <==> Now(h).recordingInitialized
    ensures AtCall(h).recordingInitialized ==> Now(h).control.Terminated?
  {
    DoomedCallStays(h);
  }

  // ---------------------------------------------------------------- what StopRecording leaves behind

  /** What the call under way has done so far to the flag and the stream, compared with m0 before the call. */
  predicate CallProgress(m: Module, c: Call, m0: Module) {
    match m.control
    case InitLock(start) => Inits(start, c) && SameInit(m, m0) && (start ==> !m0.recordingInitialized)
    case InitTest(start) => Inits(start, c) && SameInit(m, m0) && (start ==> !m0.recordingInitialized)
    case InitOpen(start) => Inits(start, c) && SameInit(m, m0) && !m0.recordingInitialized
    case StartExchange => c == StartRecording && StartStream(m, m0)
    case StartSpawn => c == StartRecording && StartStream(m, m0)
    case StopExchange(after) => Stops(after, c) && SameInit(m, m0)
    case StopJoin(after) => Stops(after, c) && SameInit(m, m0)
    case StopLock(after) => Stops(after, c) && SameInit(m, m0)
    case StopClose(after) => Stops(after, c) && SameInit(m, m0)
    case ClearFlags(after) => Stops(after, c) && c != StopRecording && m.stream.None?
    case Idle => CallDone(m, c, m0)
    case Destroyed => c == Destroy && Cleared(m) && !m.joinable
    case Terminated => true
  }

  /** What the stopping calls leave behind when they have returned. */
  predicate CallDone(m: Module, c: Call, m0: Module) {
    && (c == StopRecording ==>
          !Active(m) && m.stream.None? &&
          m.initialized == m0.initialized && m.recordingInitialized == m0.recordingInitialized)
    && (c == Terminate ==> !Active(m) && Cleared(m))
    && c != Destroy
  }

  predicate Cleared(m: Module) {
    m.stream.None? && !m.initialized && !m.recordingInitialized
  }

  predicate SameInit(m: Module, m0: Module) {
    m.initialized == m0.initialized && m.recordingInitialized == m0.recordingInitialized && m.stream == m0.stream
  }

  predicate Inits(start: bool, c: Call) {
    c == if start then StartRecording else InitRecording
  }

  predicate StartStream(m: Module, m0: Module) {
    m.stream.Some? <==> m0.stream.Some? || !m0.recordingInitialized
  }

  predicate Stops(after: After, c: Call) {
    match after
    case Return => c == StopRecording
    case ThenTerminate => c == Terminate
    case ThenDestroy => c == Destroy
  }

  lemma ProgressInit(m: Module, ok: bool, c: Call, m0: Module)
    requires InInit(m.control) && CallProgress(m, c, m0)
    ensures CallProgress(InitStep(m, ok), c, m0)
  {
  }

  lemma ProgressStart(m: Module, c: Call, m0: Module)
    requires InStart(m.control) && CallProgress(m, c, m0)
    ensures CallProgress(StartStep(m), c, m0)
  {
  }

  lemma ProgressStop(m: Module, c: Call, m0: Module)
    requires Sound(m) && InStop(m.control) && CallProgress(m, c, m0)
    ensures CallProgress(StopStep(m), c, m0)
  {
    match m.control
    case StopExchange(after) =>
    case StopJoin(after) =>
    case StopLock(after) =>
    case StopClose(after) => assert !Active(m);
    case ClearFlags(after) => assert !Active(m);
  }

  lemma ProgressCall(m0: Module, c: Call)
    requires MayCall(m0, c)
    ensures CallProgress(Called(m0, c), c, m0)
  {
  }

  lemma ProgressLoop(m: Module, ok: bool, c: Call, m0: Module)
    requires !LoopBlocked(m) && CallProgress(m, c, m0)
    ensures CallProgress(LoopStep(m, ok), c, m0)
  {
    LoopKeeps(m, ok);
  }

  lemma {:induction false} CallsProgress(h: History)
    requires IsHistory(h) && LatestCall(h).Then?
    ensures LatestCall(h).action.Calls? && CallProgress(Now(h), LatestCall(h).action.call, AtCall(h))
  {
    var m := Now(h.before);
    if h.action.Calls? {
      ProgressCall(m, h.action.call);
    } else {
      CallsProgress(h.before);
      var c := LatestCall(h).action.call;
      if h.action.LoopActs? {
        ProgressLoop(m, h.action.ok, c, AtCall(h));
      } else if InInit(m.control) {
        ProgressInit(m, h.action.ok, c, AtCall(h));
      } else if InStart(m.control) {
        ProgressStart(m, c, AtCall(h));
      } else {
        HistoriesAreSound(h.before);
        ProgressStop(m, c, AtCall(h));
      }
    }
  }

  lemma {:induction false} BusyHasCall(h: History)
    requires IsHistory(h) && !Now(h).control.Idle?
    ensures LatestCall(h).Then?
  {
    if !h.action.Calls? {
      if h.action.LoopActs? {
        LoopKeeps(Now(h.before), h.action.ok);
      }
      BusyHasCall(h.before);
    }
  }

  /** The call made last is c, and it has returned. */
  predicate Returned(h: History, c: Call) {
    LatestIs(h, c) && Now(h).control.Idle?
  }

  /** From its call to its return StopRecording closes the stream and leaves both initialisation flags as they were. */
  lemma StopKeepsTheFlag(h: History)
    requires IsHistory(h) && Returned(h, StopRecording)
    ensures Now(h).recordingInitialized == AtCall(h).recordingInitialized
    ensures Now(h).initialized == AtCall(h).initialized
    ensures Now(h).stream.None? && !Now(h).recording && !Active(Now(h))
  {
    CallsProgress(h);
    HistoriesAreSound(h);
  }

  /** Terminate also clears both flags, whether or not anything was recording. */
  lemma TerminateClearsAll(h: History)
    requires IsHistory(h) && Returned(h, Terminate)
    ensures !Now(h).initialized && !Now(h).recordingInitialized
    ensures Now(h).stream.None? && !Now(h).recording && !Active(Now(h))
  {
    CallsProgress(h);
    HistoriesAreSound(h);
  }

  /** A destructor that completes has freed the stream, cleared both flags and left no loop and no thread. */
  lemma DestroyLeavesNothing(h: History)
    requires IsHistory(h) && Now(h).control.Destroyed?
    ensures LatestIs(h, Destroy) && Now(h).stream.None? && !Now(h).initialized && !Now(h).recordingInitialized
    ensures !Active(Now(h)) && !Now(h).recording && !Now(h).joinable
  {
    BusyHasCall(h);
    CallsProgress(h);
    HistoriesAreSound(h);
  }

  /** A loop is started with an open stream iff one was open at the call or InitRecording had to run in it. */
  lemma StartFindsStreamIff(h: History)
    requires IsHistory(h) && Now(h).control.StartSpawn?
    ensures LatestIs(h, StartRecording)
    ensures Now(h).stream.Some? <==> AtCall(h).stream.Some? || !AtCall(h).recordingInitialized
  {
    BusyHasCall(h);
    CallsProgress(h);
  }

  // ---------------------------------------------------------------- silence after StopRecording

  /** later extends h without a call of StartRecording in between. */
  predicate NoStartSince(later: History, h: History) {
    later == h || (later.Then? && NoStartSince(later.before, h) && later.action != Calls(StartRecording))
  }

  predicate Stopped(m: Module) {
    && !Active(m)
    && !InStart(m.control)
    && (InInit(m.control) ==> !m.control.start)
  }

  lemma StoppedNext(m: Module, a: Action, m': Module)
    requires Stopped(m) && Effects(m, a, m') && a != Calls(StartRecording)
    ensures Stopped(m') && m'.delivered == m.delivered
  {
  }

  /** Between the return of StopRecording and the next StartRecording no audio callback happens. */
  lemma {:induction false} SilentAfterStop(h: History, later: History)
    requires IsHistory(h) && Returned(h, StopRecording) && IsHistory(later) && NoStartSince(later, h)
    ensures Now(later).delivered == Now(h).delivered
    ensures Stopped(Now(later))
  {
    if later == h {
      StopKeepsTheFlag(h);
    } else {
      SilentAfterStop(h, later.before);
      NextEffects(Now(later.before), later.action, later.after);
      StoppedNext(Now(later.before), later.action, later.after);
    }
  }

  // ---------------------------------------------------------------- starting again

  /** later extends h, and neither Terminate nor the destructor was called in between. */
  predicate NoTerminateSince(later: History, h: History) {
    later == h ||
    (later.Then? && NoTerminateSince(later.before, h) && later.action !in {Calls(Terminate), Calls(Destroy)})
  }

  predicate Clears(c: Control) {
    c.Destroyed? || c.ClearFlags? || (InStop(c) && c.after != Return)
  }

  /** The flag is set, so InitRecording is skipped; no stream is open, so a loop has nothing to read. */
  predicate Stuck(m: Module) {
    && m.recordingInitialized && m.stream.None?
    && !m.control.InitOpen? && !Clears(m.control)
    && (m.loop.Loop? ==> !m.loop.at.Read? && !m.loop.at.Deliver? && (m.loop.at.Check? ==> m.loop.held.None?))
  }

  lemma StuckCall(m: Module, c: Call)
    requires Stuck(m) && MayCall(m, c) && c != Terminate && c != Destroy
    ensures Stuck(Called(m, c)) && Called(m, c).delivered == m.delivered
  {
  }

  lemma StuckInit(m: Module, ok: bool)
    requires Stuck(m) && InInit(m.control)
    ensures Stuck(InitStep(m, ok)) && InitStep(m, ok).delivered == m.delivered
  {
  }

  lemma StuckStart(m: Module)
    requires Stuck(m) && InStart(m.control)
    ensures Stuck(StartStep(m)) && StartStep(m).delivered == m.delivered
  {
  }

  lemma StuckStop(m: Module)
    requires Stuck(m) && InStop(m.control)
    ensures Stuck(StopStep(m)) && StopStep(m).delivered == m.delivered
  {
  }

  lemma StuckTop(m: Module)
    requires Stuck(m) && m.loop.Loop? && AtTop(m.loop.at)
    ensures Stuck(TopStep(m)) && TopStep(m).delivered == m.delivered
  {
  }

  lemma StuckBody(m: Module, ok: bool)
    requires Stuck(m) && Active(m) && !AtTop(m.loop.at)
    ensures Stuck(BodyStep(m, ok)) && BodyStep(m, ok).delivered == m.delivered
  {
    BodyKeeps(m, ok);
  }

  lemma StuckNext(m: Module, a: Action, m': Module)
    requires Stuck(m) && Next(m, a, m') && a !in {Calls(Terminate), Calls(Destroy)}
    ensures Stuck(m') && m'.delivered == m.delivered
  {
    match a
    case Calls(c) => StuckCall(m, c);
    case ControlActs(ok) =>
      if InInit(m.control) {
        StuckInit(m, ok);
      } else if InStart(m.control) {
        StuckStart(m);
      } else {
        StuckStop(m);
      }
    case LoopActs(ok) =>
      if AtTop(m.loop.at) {
        StuckTop(m);
      } else {
        StuckBody(m, ok);
      }
  }

  lemma {:induction false} StuckStays(h: History, later: History)
    requires IsHistory(h) && Stuck(Now(h)) && IsHistory(later) && NoTerminateSince(later, h)
    ensures Stuck(Now(later)) && Now(later).delivered == Now(h).delivered
  {
    if later != h {
      StuckStays(h, later.before);
      StuckNext(Now(later.before), later.action, later.after);
    }
  }

  lemma StopLeavesStuck(h: History)
    requires IsHistory(h) && Returned(h, StopRecording) && AtCall(h).recordingInitialized
    ensures Stuck(Now(h))
  {
    StopKeepsTheFlag(h);
  }

  /**
    Once a StopRecording returns that was called with recording_initialized_ set, no audio is ever delivered
    before Terminate: however often recording is started again, and however the threads interleave.
  */
  lemma RestartAfterStopNeverCaptures(h: History, later: History)
    requires IsHistory(h) && Returned(h, StopRecording) && IsHistory(later) && NoTerminateSince(later, h)
    ensures AtCall(h).recordingInitialized ==>
              Now(later).delivered == Now(h).delivered && Now(later).recordingInitialized && Now(later).stream.None?
  {
    if AtCall(h).recordingInitialized {
      StopLeavesStuck(h);
      StuckStays(h, later);
    }
  }

  /** How many steps of its own a loop without a stream has left at most. */
  function StepsWithoutStream(p: Place): nat {
    match p
    case Begin => 6
    case Test => 5
    case Lock => 4
    case Snapshot => 3
    case Exit => 1
    case Finished => 0
    case _ => 2
  }

  lemma StuckLoopAdvances(m: Module, ok: bool)
    requires Stuck(m) && !LoopBlocked(m)
    ensures LoopStep(m, ok).loop.Loop?
    ensures StepsWithoutStream(LoopStep(m, ok).loop.at) < StepsWithoutStream(m.loop.at)
  {
    if !AtTop(m.loop.at) {
      BodyKeepsLocals(m, ok);
    }
  }

  /**
    The loop of such a restart soon ends by itself, each of its steps bringing it closer to that; unless a
    StopRecording is waiting for it then, the module is doomed.
  */
  lemma RestartedLoopEnds(h: History, later: History, ok: bool)
    requires IsHistory(h) && Returned(h, StopRecording) && IsHistory(later) && NoTerminateSince(later, h)
    requires AtCall(h).recordingInitialized && !LoopBlocked(Now(later))
    ensures var m := LoopStep(Now(later), ok);
            && m.loop.Loop? && StepsWithoutStream(m.loop.at) < StepsWithoutStream(Now(later).loop.at)
            && (m.loop.at.Finished? ==> Doomed(m) || m.control.StopJoin?)
  {
    StopLeavesStuck(h);
    StuckStays(h, later);
    HistoriesAreSound(later);
    StuckLoopAdvances(Now(later), ok);
    LoopFinishesIff(Now(later), ok);
    DoomedByLoopIff(Now(later), ok);
    LoopKeeps(Now(later), ok);
  }
}
