/**
  Concrete runs of the recording module: the failures whose exact conditions are proved in
  PulseRestart.dfy and PulseCapture.dfy do happen.
*/
module PulseRuns {
  import opened Common
  import opened PulseCapture
  import opened PulseRestart

  function CallsOf(h: History): seq<Call> {
    if h.Made? then [] else CallsOf(h.before) + if h.action.Calls? then [h.action.call] else []
  }

  /** The history with one more call. */
  function Calling(h: History, c: Call): (r: History)
    requires IsHistory(h) && MayCall(Now(h), c)
    ensures IsHistory(r) && CallsOf(r) == CallsOf(h) + [c] && LatestCall(r) == r
  {
    Then(h, Calls(c), Called(Now(h), c))
  }

  /** The history with one more step of the control thread. */
  function Controlled(h: History, ok: bool): (r: History)
    requires IsHistory(h) && !ControlBlocked(Now(h))
    ensures IsHistory(r) && CallsOf(r) == CallsOf(h) && LatestCall(r) == LatestCall(h)
  {
    Then(h, ControlActs(ok), ControlStep(Now(h), ok))
  }

  /** The history with one more step of the loop. */
  function Looped(h: History, ok: bool): (r: History)
    requires IsHistory(h) && !LoopBlocked(Now(h))
    ensures IsHistory(r) && CallsOf(r) == CallsOf(h) && LatestCall(r) == LatestCall(h)
  {
    Then(h, LoopActs(ok), LoopStep(Now(h), ok))
  }

  /** A stereo module that has just started to record, with a callback registered. */
  const RECORDING := Module(48000, 2, 480, true, true, true, true, Some(0), 1, Free, true, Idle,
                            Loop(Begin, None, false, 0, 0, 0), [], None)

  /** RegisterAudioCallback, Init and StartRecording. */
  lemma UpToRecording() returns (h: History)
    ensures IsHistory(h) && Now(h) == RECORDING && CallsOf(h) == [RegisterAudioCallback(true), Init, StartRecording]
  {
    h := Calling(Made(48000, 2), RegisterAudioCallback(true));
    h := Calling(h, Init);
    h := Calling(h, StartRecording);
    h := Controlled(h, true);
    h := Controlled(h, true);
    h := Controlled(h, true);
    h := Controlled(h, true);
    h := Controlled(h, true);
  }

  const READING := RECORDING.(loop := Loop(Read, Some(0), true, 480, 960, 2))

  /** Up to where the loop is about to read its first chunk. */
  lemma UpToReading() returns (h: History)
    ensures IsHistory(h) && Now(h) == READING
  {
    h := UpToRecording();
    h := Looped(h, true);
    h := Looped(h, true);
    h := Looped(h, true);
    assert Now(h) == RECORDING.(mutex := ByLoop, loop := Loop(Snapshot, None, false, 480, 960, 2));
    h := Looped(h, true);
    h := Looped(h, true);
  }

  /** SetStereoRecording(false) during a read: a buffer for two channels is handed over as one channel. */
  lemma TornChunkIsDelivered() returns (h: History)
    ensures IsHistory(h) && Now(h).delivered == [Chunk(960, 480, 1)]
    ensures !Whole(Now(h).delivered[0])
  {
    h := UpToReading();
    h := Calling(h, SetStereoRecording(false));
    h := Looped(h, true);
    h := Looped(h, true);
  }

  const FAILED := READING.(loop := READING.loop.(at := Exit))

  /** Up to where a read has failed and the loop is about to clear recording_. */
  lemma UpToFailure() returns (h: History)
    ensures IsHistory(h) && Now(h) == FAILED
  {
    h := UpToReading();
    h := Looped(h, false);
  }

  /**
    StartRecording, called while recording, loses the race against a failing read: the process ends, although
    no loop had ended by itself when it was called.
  */
  lemma RacingStartEndsProcess() returns (h: History)
    ensures IsHistory(h) && LatestIs(h, StartRecording) && Now(h).control.Terminated?
    ensures AtCall(h).recording && Active(AtCall(h))
  {
    h := UpToFailure();
    h := Calling(h, StartRecording);
    h := Looped(h, true);
    h := Controlled(h, true);
    h := Controlled(h, true);
  }

  const UNJOINED := FAILED.(recording := false, control := StopLock(ThenDestroy),
                            loop := FAILED.loop.(at := Finished))

  lemma UpToUnjoined() returns (h: History)
    ensures IsHistory(h) && LatestIs(h, Destroy) && AtCall(h) == FAILED && Now(h) == UNJOINED
  {
    h := UpToFailure();
    h := Calling(h, Destroy);
    h := Looped(h, true);
    h := Controlled(h, true);
  }

  lemma DestroyCloses()
    ensures StopStep(UNJOINED) == UNJOINED.(mutex := ByControl, control := StopClose(ThenDestroy))
    ensures StopStep(UNJOINED.(mutex := ByControl, control := StopClose(ThenDestroy))) ==
            UNJOINED.(stream := None, control := ClearFlags(ThenDestroy))
    ensures StopStep(UNJOINED.(stream := None, control := ClearFlags(ThenDestroy))).control.Terminated?
  {
  }

  /** The same race between the destructor and a failing read. */
  lemma RacingDestroyEndsProcess() returns (h: History)
    ensures IsHistory(h) && LatestIs(h, Destroy) && Now(h).control.Terminated?
    ensures AtCall(h).recording && Active(AtCall(h))
  {
    h := UpToUnjoined();
    DestroyCloses();
    h := Controlled(h, true);
    assert Now(h) == UNJOINED.(mutex := ByControl, control := StopClose(ThenDestroy));
    h := Controlled(h, true);
    assert Now(h) == UNJOINED.(stream := None, control := ClearFlags(ThenDestroy));
    h := Controlled(h, true);
  }

  const JOINING := RECORDING.(recording := false, control := StopJoin(Return),
                              loop := Loop(Finished, None, false, 480, 960, 2))

  /** StopRecording right after the start, up to where it has waited for the loop. */
  lemma UpToJoining() returns (h: History)
    ensures IsHistory(h) && LatestIs(h, StopRecording) && Now(h) == JOINING
    ensures CallsOf(h) == [RegisterAudioCallback(true), Init, StartRecording, StopRecording]
  {
    h := UpToRecording();
    h := Calling(h, StopRecording);
    h := Controlled(h, true);
    h := Looped(h, true);
    h := Looped(h, true);
    h := Looped(h, true);
  }

  const STOPPED := RECORDING.(recording := false, stream := None, joinable := false, loop := NoLoop)

  /** It returns with the flag still set. */
  lemma UpToStopped() returns (h: History)
    ensures IsHistory(h) && Returned(h, StopRecording) && Now(h) == STOPPED
    ensures CallsOf(h) == [RegisterAudioCallback(true), Init, StartRecording, StopRecording]
  {
    h := UpToJoining();
    h := Controlled(h, true);
    h := Controlled(h, true);
    assert Now(h) == JOINING.(joinable := false, loop := NoLoop, mutex := ByControl, control := StopClose(Return));
    h := Controlled(h, true);
  }

  const RESTARTED := STOPPED.(recording := true, joinable := true, loop := Loop(Begin, None, false, 0, 0, 0))

  lemma UpToRestarted() returns (h: History)
    ensures IsHistory(h) && Now(h) == RESTARTED
    ensures CallsOf(h) == [RegisterAudioCallback(true), Init, StartRecording, StopRecording, StartRecording]
  {
    h := UpToStopped();
    h := Calling(h, StartRecording);
    h := Controlled(h, true);
    h := Controlled(h, true);
  }

  const EMPTY_HANDED := RESTARTED.(loop := Loop(Check, None, true, 480, 960, 2))

  /** Up to where the restarted loop has found no stream. */
  lemma UpToEmptyHanded() returns (h: History)
    ensures IsHistory(h) && Now(h) == EMPTY_HANDED
    ensures CallsOf(h) == [RegisterAudioCallback(true), Init, StartRecording, StopRecording, StartRecording]
  {
    h := UpToRestarted();
    h := Looped(h, true);
    h := Looped(h, true);
    h := Looped(h, true);
    h := Looped(h, true);
  }

  const RAN_OUT := RESTARTED.(recording := false, loop := Loop(Finished, None, true, 480, 960, 2))

  lemma UpToRanOut() returns (h: History)
    ensures IsHistory(h) && Now(h) == RAN_OUT
    ensures CallsOf(h) == [RegisterAudioCallback(true), Init, StartRecording, StopRecording, StartRecording]
  {
    h := UpToEmptyHanded();
    h := Looped(h, true);
    h := Looped(h, true);
  }

  /** Recording is started, stopped, and started twice again: the process ends without one callback. */
  lemma SecondRestartEndsProcess() returns (h: History)
    ensures IsHistory(h) && Now(h).control.Terminated? && Now(h).delivered == []
    ensures CallsOf(h) ==
            [RegisterAudioCallback(true), Init, StartRecording, StopRecording, StartRecording, StartRecording]
  {
    h := UpToRanOut();
    h := Calling(h, StartRecording);
    h := Controlled(h, true);
    h := Controlled(h, true);
  }

  const REOPENED := STOPPED.(recording := true, stream := Some(1), handles := 2, joinable := true,
                             loop := Loop(Begin, None, false, 0, 0, 0))

  /** After the StopRecording, Terminate and Init make the next StartRecording work again. */
  lemma UpToReopened() returns (h: History)
    ensures IsHistory(h) && Now(h) == REOPENED
    ensures CallsOf(h) ==
            [RegisterAudioCallback(true), Init, StartRecording, StopRecording, Terminate, Init, StartRecording]
  {
    h := UpToTerminated();
    h := Calling(h, Init);
    h := Calling(h, StartRecording);
    h := Controlled(h, true);
    h := Controlled(h, true);
    h := Controlled(h, true);
    h := Controlled(h, true);
    h := Controlled(h, true);
  }

  const TERMINATING := STOPPED.(mutex := ByControl, control := StopClose(ThenTerminate))

  lemma UpToTerminating() returns (h: History)
    ensures IsHistory(h) && Now(h) == TERMINATING
    ensures CallsOf(h) == [RegisterAudioCallback(true), Init, StartRecording, StopRecording, Terminate]
  {
    h := UpToStopped();
    h := Calling(h, Terminate);
    h := Controlled(h, true);
    h := Controlled(h, true);
  }

  const CLEARING := STOPPED.(control := ClearFlags(ThenTerminate))

  lemma TerminateCloses()
    ensures StopStep(TERMINATING) == CLEARING
    ensures StopStep(CLEARING) == STOPPED.(initialized := false, recordingInitialized := false)
  {
  }

  lemma UpToTerminated() returns (h: History)
    ensures IsHistory(h) && Now(h) == STOPPED.(initialized := false, recordingInitialized := false)
    ensures CallsOf(h) == [RegisterAudioCallback(true), Init, StartRecording, StopRecording, Terminate]
  {
    h := UpToTerminating();
    TerminateCloses();
    h := Controlled(h, true);
    assert Now(h) == CLEARING;
    h := Controlled(h, true);
  }

  /** So the Terminate that RestartAfterStopNeverCaptures excludes is what a caller needs to capture again. */
  lemma TerminateLetsCaptureAgain() returns (h: History)
    ensures IsHistory(h) && Now(h).delivered == [Chunk(960, 480, 2)]
    ensures CallsOf(h) ==
            [RegisterAudioCallback(true), Init, StartRecording, StopRecording, Terminate, Init, StartRecording]
  {
    h := UpToReopened();
    h := Looped(h, true);
    h := Looped(h, true);
    h := Looped(h, true);
    h := Looped(h, true);
    assert Now(h) == REOPENED.(loop := Loop(Check, Some(1), true, 480, 960, 2));
    h := Looped(h, true);
    h := Looped(h, true);
    h := Looped(h, true);
  }
}
