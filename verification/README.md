# Verification of the desktop streaming demo

A Dafny 4.11 model of the logic in this repository, with proofs. `dafny verify dfyconfig.toml` checks everything.

The model follows six parts of the repository.

- **The signaling protocol.** `SignalingTables.dfy` says what one event does to the four tables of the server;
  `SignalingServer.dfy` is the server object with its mutable tables, proved against that. `SignalingInvariants.dfy`
  and `SignalingDelivery.dfy` are about whole runs of the server with any clients. `NativeSender.dfy` is the native
  client object, and `SignalingSystem.dfy`, `SignalingLog.dfy`, `SignalingTraffic.dfy`, `SignalingReports.dfy` and
  `SignalingShipped.dfy` put server, native senders, web pages and arbitrary other clients together over one in-order
  channel per socket and direction.
- **JSON Pointer text.** `StringEscape.dfy` is the in-place replacement loop and the two escaping functions,
  `JsonPointer.dfy` the pointer printer and parser and the array index syntax.
- **Diagnostic paths.** `JsonDiagnostics.dfy` is the walk up the parent links that prints the path of a value, and
  the checked lookup that follows a path down, over heap objects with parent pointers.
- **The recording module.** `PulseCapture.dfy` is a control thread and a capture loop that interleave freely;
  `PulseRestart.dfy` says how recordings end and start again, `PulseLaws.dfy` what callers see of callbacks,
  initialisation and parameters, and `PulseRuns.dfy` holds the runs in which it goes wrong.
- **The ordered map.** `OrderedMap.dfy` is the vector with its shifting erase loops.
- **The choice of the recording device.** `DeviceSelection.dfy`.

## What the clients have to keep

The session table and the socket index of the server are meant to be inverse to each other, but each event updates
them separately. Three things are proved about that.

- Whatever the clients do, the tables stay coherent, a message is forwarded only to the socket that the latest accepted
  request for its id joined with the speaker, and a session that was reported closed stays silent.
- The index is exactly the inverse of the session table throughout a run if and only if no event is a `DoubleBooking`:
  a request that is about to be accepted from a socket already in a session. Sending no request while bound
  (`DisciplineA`) is enough. `TwoRequestsStrandASender` is a run in which one receiver requests twice and leaves a
  sender bound to nobody.
- Every session's sender stays indexed under its session throughout a run if and only if no event of the run is one of
  two (`UnmapsSender`): the accepted request of a socket that is the sender of a session, or a disconnect that ends a
  session whose receiver is the sender of another one. Then no sender is shared. Sharing itself happens if and only if a
  socket is handed out while it is still the sender of a session. The server's comment that a sender carries one session
  at a time (tools/signaling_server.cpp:113) depends on this; `RequestingSenderIsShared` is a run in which two sessions
  share a sender. Both runs without double booking and runs in which no socket both announces itself and requests
  (`DisciplineB`) are safe.

The native sender and the web page of this repository need no such assumption (`SignalingShipped.dfy`): in a system
without other clients there is never a double booking and senders are never shared. A page may even repeat its request
on one socket, when its button is pressed again while an earlier socket is still connecting, but always with one id.

## Where the code does not do what one might expect

- The path that an exception prints leads back to its value if and only if no object key on the way contains the NUL
  character, because keys pass through a C string (`DiagnosticTextLeadsBackIff`, `NulKeyLosesTheWay`).
- `StopRecording` closes the stream but leaves `recording_initialized_` set, so `StartRecording` no longer opens one: until
  `Terminate` no audio is delivered, however often recording is started and however the threads interleave
  (`RestartAfterStopNeverCaptures`). The loop of the restart ends by itself (`RestartedLoopEnds`), and the
  `StartRecording` after that ends the process (`SecondRestartEndsProcess` is the run).
- A loop that ends while no `StopRecording` is waiting for it leaves a joinable thread that nothing ever joins
  (`DoomArisesIff`, `DoomIsForever`). The process ends if and only if such a thread is assigned over or destroyed
  (`ProcessEndsIff`). This can hit a `StartRecording` or a destructor that is called while recording is still under way
  (`RacingStartEndsProcess`, `RacingDestroyEndsProcess`).
- A chunk is handed over with the channel count of the moment, while its size was fixed when the loop started
  (`ChunkWholeIff`; `TornChunkIsDelivered` is such a run).

## Model

| member | source | states |
|---|---|---|
| SignalingServerObject.SignalingServer.OnNewConnection | tools/signaling_server.cpp:41-55 | a waiting connection becomes known to the server and nothing else changes; without one nothing happens |
| SignalingServerObject.SignalingServer.OnTextMessage | tools/signaling_server.cpp:57-93 | one frame is exactly one step of the server relation; anything but announcements, requests, offers, answers, candidates and errors changes nothing and is sent nowhere |
| SignalingServerObject.SignalingServer.HandleRequest | tools/signaling_server.cpp:95-136 | for every order in which the ready set is visited, some free sender other than the requester is bound, or the right error is returned and no table changes |
| SignalingServerObject.SignalingServer.ForwardSessionMessage | tools/signaling_server.cpp:138-165 | the message goes to the other end of its session, or an error goes back |
| SignalingServerObject.SignalingServer.OnDisconnected | tools/signaling_server.cpp:167-193 | the socket leaves all tables with its session, the other end is told, and weak pointers to it become null |
| SignalingInvariants.EveryRunIsCoherent | tools/signaling_server.cpp:127-190 | for every client behaviour: each index entry names an existing session of which the socket is an end, indexed and ready sockets are connected, no session has one socket at both ends |
| SignalingInvariants.PairedUnlessDoubleBooking | tools/signaling_server.cpp:104-132 | one step keeps index and sessions inverse if and only if it is not the accepted request of a bound socket |
| SignalingInvariants.PairedThroughoutIff | tools/signaling_server.cpp:95-193 | in every state of a run each session has two distinct connected ends, the index holds exactly those, and it has twice as many entries as there are sessions, if and only if no event of the run is a double booking |
| SignalingInvariants.DisciplineAKeepsPairing | tools/signaling_server.cpp:95-193 | this holds throughout every run in which no socket requests while it is bound |
| SignalingInvariants.PairedMeansInverse | tools/signaling_server.cpp:225-226 | the index maps a socket to an id if and only if the socket is an end of that session |
| SignalingInvariants.DisconnectTellsTheSurvivor | tools/signaling_server.cpp:174-190 | without double booking the disconnect of a bound socket notifies exactly the one survivor exactly once, and an unbound one notifies nobody |
| SignalingInvariants.RequestActsIffAcceptable | tools/signaling_server.cpp:98-125 | a request changes the tables if and only if its id is non-empty and fresh and a ready socket other than the requester is in no session; then such a socket is sent the request itself, otherwise the requester gets an error |
| SignalingDelivery.RequestRefusedIff | tools/signaling_server.cpp:95-125 | each reason for refusing a request is given exactly under its own condition: empty id, id in use, no free sender; and otherwise a free sender gets the request |
| SignalingDelivery.ForwardRefusedIff | tools/signaling_server.cpp:138-162 | each reason for not passing a message on is given exactly under its own condition: no such session; speaker not an end of it or other end gone |
| SignalingDelivery.OtherFramesGoNowhere | tools/signaling_server.cpp:57-93 | frames that are no messages and messages of other types change nothing and are sent nowhere |
| SignalingInvariants.AcceptThenReceiverLeaves | tools/signaling_server.cpp:127-193 | an accepted request followed by the disconnect of its receiver restores both tables and leaves the sender ready and free |
| SignalingInvariants.DisciplineBKeepsSendersExclusive | tools/signaling_server.cpp:110-132 | under discipline B, even with repeated requests: no shared sender, each sender connected and mapped to its session, ready = sessions + idle ready, and no session or index entry without a connected announcer |
| SignalingInvariants.MappedUnlessUnmapped | tools/signaling_server.cpp:110-193 | one step keeps every session's sender indexed under its session if and only if it is neither the accepted request of such a sender nor the end of a session whose receiver is such a sender |
| SignalingInvariants.MappedThroughoutIff | tools/signaling_server.cpp:110-193 | every session's sender is connected and indexed under its session in every state of a run if and only if no event of the run is one of these two |
| SignalingInvariants.NoDoubleBookingNeverUnmaps | tools/signaling_server.cpp:104-132 | runs without double booking contain neither of them |
| SignalingInvariants.DisciplineBNeverShares | tools/signaling_server.cpp:110-132 | under discipline B senders are mapped and never shared in every state of the run |
| SignalingInvariants.RequestKeepsExclusiveIff | tools/signaling_server.cpp:110-119 | whichever order the ready set is visited in, an accepted request leaves no sender shared if and only if no free ready socket is still the sender of a session |
| SignalingInvariants.ExclusiveThroughoutIff | tools/signaling_server.cpp:110-132 | no sender is ever in two sessions of a run if and only if none is handed out while it is the sender of a session |
| SignalingInvariants.NeverUnmappedNeverShared | tools/signaling_server.cpp:110-132 | a run that leaves every sender mapped hands out none twice |
| SignalingInvariants.TwoRequestsStrandASender | tools/signaling_server.cpp:127-190 | for any two ids, a run in which a receiver requests twice and leaves, after which the first sender is bound to nobody and eligible for nobody |
| SignalingInvariants.RequestingSenderIsShared | tools/signaling_server.cpp:110-119 | a run in which a sender requests and, once that session has ended, is handed out a second time while its first session lasts |
| SignalingDelivery.ForwardsOnlyToTheJoinedPeer | tools/signaling_server.cpp:138-165 | over every run, a message is delivered only to the socket joined with the speaker by the latest accepted request for its id; all others get an error; no table changes |
| SignalingDelivery.ForwardsExactlyToTheOpenPeer | tools/signaling_server.cpp:138-165 | without double booking a message reaches y if and only if the latest accepted request for its id joined speaker and y and neither has left since |
| SignalingDelivery.SilentAfterPeerDisconnected | tools/signaling_server.cpp:174-202 | after peer-disconnected for an id, nobody is sent anything under that id until a new request for it is accepted |
| NativeSender.SignalingClient.OnTextMessageReceived | module/signaling_client.cpp:32-121 | answers and candidates reach the client of their id, requests store a client or send the set-up error; a text that does not parse is ignored, JSON that is no object leaves with exception 306 and a field of the wrong type with 302, changing nothing |
| SignalingTraffic.ReadyIffAnnounced | module/signaling_client.cpp:23-30 | in every history a socket can be handed out to receivers if and only if the server has heard its announcement since it joined |
| SignalingTraffic.PostedKeepsOrder | module/signaling_client.cpp:128-156 | every offer and candidate that WebRTC produces reaches the wire in order and exactly once, except those still queued for the Qt thread, and nothing else of the kind does |
| SignalingTraffic.UpChannelKeepsOrder | tools/signaling_server.cpp:57-93 | what the server has taken from a client followed by what waits for it is what the client said: in order, exactly once |
| SignalingSystem.NativeSenderKnowsTheId | module/signaling_client.cpp:62-120 | in every history each answer or candidate a native sender takes names an id whose request it took before, and the id is unknown only if that request's set-up failed |
| SignalingSystem.OffersNameStoredClients | module/signaling_client.cpp:86-102 | every offer on the wire names a stored client, and a native sender never requests |
| SignalingSystem.FailedSetupStoresNothing | module/signaling_client.cpp:76-100 | a request whose set-up fails stores and queues nothing and puts exactly one error on the wire, under the id of the request and with the reason of the failure |
| SignalingLog.TableIsWhatWasTaken | module/signaling_client.cpp:62-119 | the client table holds exactly the ids of requests taken with successful set-up, each with the answers and candidates taken since, in order |
| SignalingLog.ChannelKeepsOrder | module/signaling_client.cpp:32-121 | what a native sender has taken followed by what waits for it is what the server addressed to it: in order, exactly once |
| SignalingTraffic.TakenComesFromTheAsker | tools/signaling_server.cpp:138-165 | for every client behaviour, each offer, answer, candidate or error a native sender takes under an id was said by the socket whose request for that id it had taken last before |
| SignalingTraffic.ForwardedIsWhatWasHeard | tools/signaling_server.cpp:138-165 | what the server passes on is, word for word, the frame it has just taken from the speaker |
| SignalingTraffic.AnswersComeFromTheAsker | module/signaling_client.cpp:62-120 | end to end, every answer and candidate in a native sender's table for an id was said by the socket that asked it for that id |
| SignalingSystem.AddressedExactly | tools/signaling_server.cpp:195-219 | each client is sent exactly its own messages, as often as the server produced them |
| SignalingReports.NativeIsReadyIff | module/signaling_client.cpp:23-30 | only a native sender that has announced itself can be handed out, and it can once no announcement of it is waiting |
| SignalingReports.IgnoredOnlyAfterFailure | module/signaling_client.cpp:62-120 | an answer or candidate a native sender takes comes after a request for its id in what it took, and is ignored only if the set-up of such a request failed |
| SignalingReports.ErrorsAreTheFailures | module/signaling_client.cpp:73-100 | the errors a native sender puts on the wire are exactly its failed set-ups, in order, each under the id of its request and with its reason |
| SignalingReports.FailureReachesTheAsker | tools/signaling_server.cpp:138-165 | an error the server takes from a native sender reports one of its failed set-ups and, while its session has both ends, reaches exactly the socket that asked for that id |
| SignalingShipped.ShippedClientsKeepBothDisciplines | web/receiver.html:299-329 | with native senders and web pages only: index and sessions inverse, each session joins a native sender and a page, no sender shared, ready count adds up |
| SignalingShipped.ShippedRunsNeverDoubleBook | web/receiver.html:299-329 | the server's part of every history of the shipped system is a run without double booking, so the theorems about such runs apply |
| StringEscape.ReplaceSubstring | 3rd/include/nlohmann/detail/string_escape.hpp:31-40 | for every string, non-empty pattern and replacement the loop ends with the left-to-right replacement of non-overlapping occurrences |
| StringEscape.ReplacedLength | 3rd/include/nlohmann/detail/string_escape.hpp:31-40 | the result is longer by the number of replacements times the difference in length |
| StringEscape.Escape | 3rd/include/nlohmann/detail/string_escape.hpp:50-55 | the two passes in this order give each '~' as "~0", each '/' as "~1" and every other character unchanged |
| StringEscape.Unescape | 3rd/include/nlohmann/detail/string_escape.hpp:65-69 | the two passes in this order read each "~1" as '/' and each "~0" as '~' exactly once |
| StringEscape.EscapeIsCharwise | 3rd/include/nlohmann/detail/string_escape.hpp:50-55 | the two passes escape each character on its own |
| StringEscape.EscapeOfEach | 3rd/include/nlohmann/detail/string_escape.hpp:50-55 | '~' becomes "~0", '/' becomes "~1", any other character stays, and escaping distributes over concatenation |
| StringEscape.UnescapeDecodes | 3rd/include/nlohmann/detail/string_escape.hpp:65-69 | the two passes decode each escape exactly once, on every string |
| StringEscape.UnescapeUndoesEscape | 3rd/include/nlohmann/detail/string_escape.hpp:50-69 | unescape(escape(s)) == s for every string, section 4 of RFC 6901 |
| StringEscape.EscapeUndoesUnescapeIff | 3rd/include/nlohmann/detail/string_escape.hpp:50-69 | escape(unescape(t)) == t if and only if t is a reference token of section 3 of RFC 6901, and these are exactly the image of escape |
| StringEscape.PassOrderMatters | 3rd/include/nlohmann/detail/string_escape.hpp:47-62 | with the passes of either function swapped the round trip fails |
| JsonPointer.ToString | 3rd/include/nlohmann/detail/json_pointer.hpp:68-76 | the text is each token escaped and preceded by a slash |
| JsonPointer.Split | 3rd/include/nlohmann/detail/json_pointer.hpp:666-724 | the search loop yields the unescaped stretches between slashes, or error 107 or 108 |
| JsonPointer.CheckToken | 3rd/include/nlohmann/detail/json_pointer.hpp:703-716 | a stretch passes if and only if each tilde in it is followed by 0 or 1 |
| JsonPointer.ParseUndoesPrint | 3rd/include/nlohmann/detail/json_pointer.hpp:62-76 | parsing the printed form gives back every list of tokens |
| JsonPointer.PrintUndoesParseIff | 3rd/include/nlohmann/detail/json_pointer.hpp:666-724 | a text is accepted if and only if it is a JSON Pointer by section 3 of RFC 6901, and printing the result gives the text back |
| JsonPointer.ParseErrorsIff | 3rd/include/nlohmann/detail/json_pointer.hpp:676-716 | error 107 if and only if a non-empty text does not start with a slash, 108 if and only if it does and some tilde is not followed by 0 or 1 |
| JsonPointer.ArrayIndexIff | 3rd/include/nlohmann/detail/json_pointer.hpp:214-249 | a token is read as index i if and only if it is the decimal form of i and i is below the largest size |
| JsonPointer.ArrayIndexErrorsIff | 3rd/include/nlohmann/detail/json_pointer.hpp:214-249 | errors 106, 109, 404 and 410 each exactly under its own condition; 410 only for the largest 64-bit number |
| JsonPointer.DecimalDigits | 3rd/include/nlohmann/detail/exceptions.hpp:91 | the decimal form of an index, digit by digit |
| JsonDiagnostics.Diagnostics | 3rd/include/nlohmann/detail/exceptions.hpp:77-135 | nothing is printed exactly for a null pointer and for the root; for every other value the pointer to it in round brackets and a space |
| JsonDiagnostics.GetChecked | 3rd/include/nlohmann/detail/json_pointer.hpp:422-464 | the loop resolves the tokens from the root, or stops with the number of the first error |
| JsonDiagnostics.ChildErrorsIff | 3rd/include/nlohmann/detail/json_pointer.hpp:422-462 | one step down fails with 401, 402, 403 or 404, or with an index error, each exactly under its own condition |
| JsonDiagnostics.FirstErrorDecides | 3rd/include/nlohmann/detail/json_pointer.hpp:422-464 | a lookup fails with an error if and only if the tokens before some token lead to a value and that token gives this error there |
| JsonDiagnostics.PrintedPathReachesIff | 3rd/include/nlohmann/detail/exceptions.hpp:81-122 | in every parent-linked tree the printed tokens lead from the root to exactly that value if and only if no key on the way contains NUL |
| JsonDiagnostics.DiagnosticTextLeadsBackIff | 3rd/include/nlohmann/detail/exceptions.hpp:124-135 | the printed text without its brackets always parses; its tokens are the true ones, and reach the value, if and only if no key on the way contains NUL |
| JsonDiagnostics.NulKeyTree | 3rd/include/nlohmann/json.hpp:686-705 | a parent-linked tree with such a key exists |
| JsonDiagnostics.NulKeyLosesTheWay | 3rd/include/nlohmann/detail/exceptions.hpp:98-108 | below the key "a", NUL, "b" the printed path is "a" and resolving it fails with error 403 |
| PulseCapture.StreamOutlivesItsUse | module/pulse_loopback_audio_device_module.cpp:246-263 | in every interleaving no freed stream is used, no second loop starts, and the stream is freed only when no loop is alive |
| PulseRestart.SilentAfterStop | module/pulse_loopback_audio_device_module.cpp:246-263 | between the return of StopRecording and the next StartRecording no audio callback happens |
| PulseCapture.JoinMakesProgress | module/pulse_loopback_audio_device_module.cpp:255-258 | while StopRecording waits, the loop is never blocked and every step of it brings it closer to its end |
| PulseRestart.ProcessEndsIff | module/pulse_loopback_audio_device_module.cpp:231-263 | in every interleaving a step ends the process if and only if it assigns over, or destroys, the thread object of a loop that ended by itself |
| PulseRestart.DoomArisesIff | module/pulse_loopback_audio_device_module.cpp:553-608 | such a thread is left behind exactly when the loop makes its last step while no StopRecording is waiting for it |
| PulseRestart.DoomIsForever | module/pulse_loopback_audio_device_module.cpp:246-263 | no later call joins it, and no audio is delivered any more |
| PulseRestart.EndedProcessWasDoomed | module/pulse_loopback_audio_device_module.cpp:231-244 | in every history the process has ended that way only after such a loop |
| PulseRestart.StartTerminatesIff | module/pulse_loopback_audio_device_module.cpp:231-244 | by what StartRecording finds at its exchange, whatever runs beside it: it returns at once if and only if a loop is alive; otherwise its next step ends the process if a loop ended by itself, and starts a loop if not |
| PulseRestart.DestroyTerminatesIff | module/pulse_loopback_audio_device_module.cpp:55-58 | a destructor that finishes ends the process if and only if at its exchange the loop had ended by itself |
| PulseRestart.DoomedStartTerminatesIff | module/pulse_loopback_audio_device_module.cpp:231-244 | a StartRecording called after a loop ended by itself returns if and only if its InitRecording fails, and never if recording_initialized_ was set |
| PulseRestart.StartFindsStreamIff | module/pulse_loopback_audio_device_module.cpp:187-244 | a loop is started with an open stream if and only if one was open at the call of StartRecording or InitRecording had to run in it |
| PulseRestart.StopKeepsTheFlag | module/pulse_loopback_audio_device_module.cpp:246-263 | from its call to its return StopRecording closes the stream and leaves both initialisation flags as it found them |
| PulseRestart.TerminateClearsAll | module/pulse_loopback_audio_device_module.cpp:83-90 | when Terminate returns the stream is closed, both flags are clear and no loop is alive, whether or not anything was recording |
| PulseRestart.DestroyLeavesNothing | module/pulse_loopback_audio_device_module.cpp:55-58 | a destructor that completes leaves no stream, no flag, no loop and no joinable thread |
| PulseLaws.ReadLeadsToDeliveryIff | module/pulse_loopback_audio_device_module.cpp:575-602 | after a successful read a chunk is delivered if and only if a callback was registered when the loop last copied the pointers; after a failed read the loop ends |
| PulseLaws.DeliversIff | module/pulse_loopback_audio_device_module.cpp:583-602 | audio is delivered one chunk at a time and only by a loop that saw a callback |
| PulseLaws.SilentWithoutCallback | module/pulse_loopback_audio_device_module.cpp:583-586 | without a registered callback no audio is delivered in any history |
| PulseLaws.NothingWithoutInit | module/pulse_loopback_audio_device_module.cpp:187-209 | before Init no call opens the stream, sets a flag or starts a thread |
| PulseLaws.LoopNeedsInit | module/pulse_loopback_audio_device_module.cpp:187-244 | in every interleaving a loop is alive only while both initialisation flags are set |
| PulseLaws.InitRecordingSucceedsIff | module/pulse_loopback_audio_device_module.cpp:187-244 | InitRecording, alone or in StartRecording, tries to open the stream if and only if Init was called and the flag is not set, sets the flag if and only if a stream was open or could be opened, and keeps an open stream |
| PulseLaws.ParametersFollowTheCalls | module/pulse_loopback_audio_device_module.cpp:44-53 | rate, channel count and buffer length are what the constructor and the latest SetStereoRecording ask for, with the defaults for zero and negative values |
| PulseLaws.ChunkNanosIs | module/pulse_loopback_audio_device_module.cpp:555-557 | the chunk duration is the exact quotient rounded down: ten milliseconds if and only if 100 divides the rate, zero if and only if the rate is below 100 |
| PulseRestart.RestartAfterStopNeverCaptures | module/pulse_loopback_audio_device_module.cpp:231-263 | after a StopRecording called with recording_initialized_ set, no audio is delivered in any later history without Terminate or the destructor |
| PulseRestart.RestartedLoopEnds | module/pulse_loopback_audio_device_module.cpp:562-578 | each step of a loop started after that brings it closer to its end, and its end leaves a thread nothing will join unless a StopRecording is waiting |
| PulseRuns.SecondRestartEndsProcess | module/pulse_loopback_audio_device_module.cpp:231-263 | a run of Init, StartRecording, StopRecording, StartRecording, StartRecording that ends the process without a callback |
| PulseRuns.TerminateLetsCaptureAgain | module/pulse_loopback_audio_device_module.cpp:231-263 | a run in which Terminate and Init after the StopRecording make audio flow again |
| PulseRuns.RacingStartEndsProcess | module/pulse_loopback_audio_device_module.cpp:231-244 | a run in which StartRecording, called while a loop records, ends the process because a read fails meanwhile |
| PulseRuns.RacingDestroyEndsProcess | module/pulse_loopback_audio_device_module.cpp:246-263 | the same race for the destructor |
| PulseRuns.TornChunkIsDelivered | module/pulse_loopback_audio_device_module.cpp:553-608 | a run in which a buffer for two channels is delivered as one channel |
| PulseCapture.ChunkWholeIff | module/pulse_loopback_audio_device_module.cpp:553-608 | a delivered chunk has samples per channel times channels samples if and only if the channel count is that of the start of its loop, or it is empty |
| PulseCapture.SteadyChannelsDeliverWholeChunks | module/pulse_loopback_audio_device_module.cpp:465-471 | if channels change only between loops, every chunk ever delivered is whole |
| PulseCapture.ChunkDurationFits | module/pulse_loopback_audio_device_module.cpp:555-557 | for every positive 32-bit rate the product fits 64 bits, a chunk lasts at most 10 ms, and the delay reported is 10 ms if and only if 100 divides the rate |
| OrderedMap.VectorMap.Emplace | 3rd/include/nlohmann/ordered_map.hpp:54-65 | a new key is appended, a known key changes nothing; the position of the key is returned |
| OrderedMap.VectorMap.Insert | 3rd/include/nlohmann/ordered_map.hpp:329-340 | the same as emplace, for an entry |
| OrderedMap.VectorMap.Subscript | 3rd/include/nlohmann/ordered_map.hpp:82-85 | the slot of the key, appended with the default value if it was missing |
| OrderedMap.VectorMap.At | 3rd/include/nlohmann/ordered_map.hpp:106-117 | the value of the key, or the out-of-range error if and only if it is missing |
| OrderedMap.VectorMap.Find | 3rd/include/nlohmann/ordered_map.hpp:286-296 | the position of the key, or the end |
| OrderedMap.VectorMap.Count | 3rd/include/nlohmann/ordered_map.hpp:260-270 | 1 if the key is present, else 0 |
| OrderedMap.VectorMap.Write | 3rd/include/nlohmann/ordered_map.hpp:82-117 | writing through the reference that operator[] or at returns changes the value of that key only |
| OrderedMap.VectorMap.Erase | 3rd/include/nlohmann/ordered_map.hpp:162-179 | shifting in place leaves prefix plus suffix around the key; the count erased is returned |
| OrderedMap.VectorMap.EraseRange | 3rd/include/nlohmann/ordered_map.hpp:207-258 | shifting in place leaves prefix plus suffix around the range; the index of first is returned |
| OrderedMap.LookupsReadTheMap | 3rd/include/nlohmann/ordered_map.hpp:106-322 | lookups in the vector agree with the abstract map and its order |
| OrderedMap.ApplyRefines | 3rd/include/nlohmann/ordered_map.hpp:54-258 | one operation on the vector keeps keys unique and is the same operation on a map with its insertion order |
| OrderedMap.LookupAfterOp | 3rd/include/nlohmann/ordered_map.hpp:54-258 | what is under any key after an operation, told from what was there before: the first insertion wins, other keys are not touched |
| OrderedMap.OrderAfterOp | 3rd/include/nlohmann/ordered_map.hpp:54-258 | a new key comes last and the others never change places |
| OrderedMap.EveryRunRefinesOrderedMap | 3rd/include/nlohmann/ordered_map.hpp:54-341 | so does every legal sequence of operations from the empty map |
| DeviceSelection.ConfigureAudioCaptureDevice | module/pushclient.cpp:891-1000 | it succeeds if and only if initialising works and some device is usable, and then the lowest usable loopback device is selected, or the lowest usable device if there is no loopback |
| DeviceSelection.Search | module/pushclient.cpp:913-952 | the probing loop stops at the lowest usable loopback device, or remembers the lowest usable device |
| DeviceSelection.BestIsUnique | module/pushclient.cpp:954-957 | at most one device is the one to select |
| DeviceSelection.ContainsIff | module/pushclient.cpp:73-83 | the substring test of the loopback heuristic holds if and only if the word occurs somewhere |
| DeviceSelection.LooksLikeLoopbackIff | module/pushclient.cpp:73-83 | a device counts as a loopback if and only if its name or id mentions "monitor" or "loopback", in whatever case |
| DeviceSelection.BestIff | module/pushclient.cpp:913-957 | the selected device is the first answering loopback if there is one, else the first answering device |

## Left out

- The texts of message types and error messages: the kinds and reasons of the model stand for them.
- Return codes of the recording module: calls are followed through the state they leave.
- Qt sockets, JSON text parsing and printing, logging and the user interface: a message is a type, an id and an opaque body; a malformed text is one kind of frame.
- NativeSender.SignalingClient.OnTextMessageReceived: says which exception leaves the handler on JSON of an unexpected shape, not what the program does then; in `SignalingSystem.dfy` the bodies of messages are well formed.
- WebRTC itself: set-up of a push client is an outcome given from outside; a client's callbacks may come at any time after its set-up succeeded and may also never come.
- Delivery of frames still in a channel when its socket disconnects: the model drops them.
- Deletion of a disconnected socket object is assumed to happen before the next event; the event loop may run other handlers before a deferred deletion, and weak pointers to the socket are then still set in them.
- The handler of a received message is one atomic step in the class SignalingClient; `SignalingSystem.dfy` splits it after Init, where callbacks may already be queued.
- PulseCapture.StreamOutlivesItsUse: the recording module is modelled on values, one atomic access per step, not as a class, because a Dafny method cannot be interleaved with another thread; a single control thread is assumed.
- The data race on channels_ and frames_per_buffer_ between SetStereoRecording and the loop is modelled as atomic reads and writes; microphone level, latency and capture time stamps are not modelled.
- JsonDiagnostics.Diagnostics: models the build without byte positions; the tree is given with a depth for every node, and how json.hpp (assert_invariant, set_parents) maintains the parent links is not modelled.
- JsonPointer.ArrayIndexIff: assumes a 64-bit size type.
- get_unchecked, contains, flatten and unflatten of JSON pointers: variants of the lookup that is modelled.
- OrderedMap.EveryRunRefinesOrderedMap: covers emplace, insert (which is emplace), operator[], writes through references and both erasures from the empty map; the constructors from ranges and lists copy without removing duplicates and are not modelled, nor is the destruction and relocation of entries.
- The non-Linux branch of ConfigureAudioCaptureDevice, a device module whose answers change between calls, and more than 32767 devices.
- Video capture, codec preferences, RTP statistics, playout, volume and mute functions: short loops and constants that would only add easy members.
