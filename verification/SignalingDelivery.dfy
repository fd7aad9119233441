/**
  Who gets which message, told only by what the clients did and what the server
  visibly sent: the tables do not appear in the history functions below.
*/
module SignalingDelivery {
  import opened Common
  import opened SignalingTables
  import opened SignalingInvariants

  datatype Ends2 = Ends2(sender: Socket, receiver: Socket)

  /** The newest event is a request for id that the server passed on. */
  predicate Accepts(run: Run, id: string) {
    && run.Then? && IsRequest(run.event) && run.event.frame.msg.id == id
    && |run.sent| == 1 && run.sent[0].msg == run.event.frame.msg
  }

  /** The two sockets joined by the latest accepted request for id. */
  function LatestEnds(run: Run, id: string): Option<Ends2> {
    if run.Start? then None
    else if Accepts(run, id) then Some(Ends2(run.sent[0].to, run.event.socket))
    else LatestEnds(run.before, id)
  }

  /** The same, until one of the two disconnects. */
  function OpenEnds(run: Run, id: string): Option<Ends2> {
    if run.Start? then None
    else if Accepts(run, id) then Some(Ends2(run.sent[0].to, run.event.socket))
    else
      var e := OpenEnds(run.before, id);
      if e.Some? && run.event.Disconnected? && run.event.socket in {e.value.sender, e.value.receiver} then None else e
  }

  function Opposite(e: Option<Ends2>, x: Socket): Option<Socket> {
    if e.None? then None
    else if e.value.sender == x then Some(e.value.receiver)
    else if e.value.receiver == x then Some(e.value.sender)
    else None
  }

  lemma AcceptedStep(run: Run, id: string)
    requires IsRun(run) && run.Then?
    ensures Accepts(run, id) ==>
              && id != "" && id !in Now(run.before).sessions
              && Eligible(Now(run.before), run.event.socket, run.sent[0].to)
              && run.after == Bind(Now(run.before), run.sent[0].to, run.event.socket, id)
    ensures !Accepts(run, id) && id in run.after.sessions && !run.event.Disconnected? ==>
              id in Now(run.before).sessions && run.after.sessions[id] == Now(run.before).sessions[id]
  {
  }

  // ---------------------------------------------------------------- any clients

  ghost predicate Tracked(b: Binding, e: Option<Ends2>) {
    && e.Some? && e.value.sender != e.value.receiver
    && b.sender in {None, Some(e.value.sender)}
    && b.receiver in {None, Some(e.value.receiver)}
  }

  lemma {:induction false} SessionsFollowLatestRequest(run: Run, id: string)
    requires IsRun(run) && id in Now(run).sessions
    ensures Tracked(Now(run).sessions[id], LatestEnds(run, id))
  {
    AcceptedStep(run, id);
    if !Accepts(run, id) {
      if run.event.Disconnected? {
        EveryRunIsCoherent(run.before);
        DisconnectSessions(Now(run.before), run.event.socket);
      }
      SessionsFollowLatestRequest(run.before, id);
    }
  }

  /**
    Whatever the clients do, a forwarded message goes only to the socket that the latest accepted
    request for its id joined with the speaker; anybody else is answered with an error.
  */
  lemma ForwardsOnlyToTheJoinedPeer(run: Run)
    requires IsRun(run) && run.Then? && run.event.Received? && run.event.frame.Json?
    requires run.event.frame.msg.kind in {Offer, Answer, Candidate, Error}
    ensures run.after == Now(run.before)
    ensures |run.sent| == 1
    ensures var x, m, e := run.event.socket, run.event.frame.msg, run.sent[0];
            if e.msg.id == "" then e.to == x && e.msg.kind.Error?
            else e.msg == m && Some(e.to) == Opposite(LatestEnds(run.before, m.id), x)
  {
    var m := run.event.frame.msg;
    if m.id in Now(run.before).sessions {
      SessionsFollowLatestRequest(run.before, m.id);
    }
  }

  /** Frames that are no messages, and messages of all remaining kinds, go nowhere and change nothing. */
  lemma OtherFramesGoNowhere(t: Tables, x: Socket, f: Frame, t': Tables, sent: seq<Envelope>)
    requires Step(t, Received(x, f), t', sent)
    requires f.Malformed? || f.msg.kind !in {SenderReady, Request, Offer, Answer, Candidate, Error}
    ensures t' == t && sent == []
  {
  }

  // ---------------------------------------------------------------- refusals

  /** An error message of the server. */
  function Refusal(x: Socket, reason: Reason): seq<Envelope> {
    [Envelope(x, Message(Error, "", Failure(reason)))]
  }

  /** Each reason for which a message is not passed on, by its own condition. */
  lemma ForwardRefusedIff(run: Run)
    requires IsRun(run) && run.Then? && run.event.Received? && run.event.frame.Json?
    requires run.event.frame.msg.kind in {Offer, Answer, Candidate, Error}
    ensures var t, x, id := Now(run.before), run.event.socket, run.event.frame.msg.id;
            && (run.sent == Refusal(x, UnknownSession(id)) <==> id !in t.sessions)
            && (run.sent == Refusal(x, PeerNotConnected(id)) <==>
                  && id in t.sessions
                  && !(t.sessions[id].sender == Some(x) && t.sessions[id].receiver.Some?)
                  && !(t.sessions[id].receiver == Some(x) && t.sessions[id].sender.Some?))
  {
    EveryRunIsCoherent(run.before);
  }

  /** Each reason for which a request is refused, by its own condition; otherwise a free sender gets it. */
  lemma RequestRefusedIff(run: Run)
    requires IsRun(run) && run.Then? && run.event.Received? && run.event.frame.Json?
    requires run.event.frame.msg.kind == Request
    ensures var t, x, m := Now(run.before), run.event.socket, run.event.frame.msg;
            && (run.sent == Refusal(x, MissingId) <==> m.id == "")
            && (run.sent == Refusal(x, SessionExists(m.id)) <==> m.id in t.sessions)
            && (run.sent == Refusal(x, NoSenderReady) <==>
                  m.id != "" && m.id !in t.sessions && forall s | s in t.ready :: s == x || s in t.index)
            && ((exists s :: s in t.ready && s != x && s !in t.index && run.sent == [Envelope(s, m)]) <==>
                  m.id != "" && m.id !in t.sessions && exists s :: s in t.ready && s != x && s !in t.index)
  {
    EveryRunIsCoherent(run.before);
    var t, x, m := Now(run.before), run.event.socket, run.event.frame.msg;
    forall s
      ensures Eligible(t, x, s) <==> s in t.ready && s != x && s !in t.index
    {
    }
  }

  // ---------------------------------------------------------------- runs without double booking

  lemma {:induction false} OpenSessions(run: Run, id: string)
    requires IsRun(run) && NoDoubleBooking(run)
    ensures id in Now(run).sessions <==> OpenEnds(run, id).Some?
    ensures id in Now(run).sessions ==>
              Now(run).sessions[id] ==
               Binding(Some(OpenEnds(run, id).value.sender), Some(OpenEnds(run, id).value.receiver))
  {
    if run.Then? {
      OpenSessions(run.before, id);
      AcceptedStep(run, id);
      if run.event.Disconnected? {
        ClosedByDisconnect(run, id);
      }
    }
  }

  lemma ClosedByDisconnect(run: Run, id: string)
    requires IsRun(run) && NoDoubleBooking(run) && run.Then? && run.event.Disconnected?
    ensures var t, x := Now(run.before), run.event.socket;
            && (id in run.after.sessions <==> id in t.sessions && !Endpoint(t.sessions[id], x))
            && (id in run.after.sessions ==> run.after.sessions[id] == t.sessions[id])
  {
    var t, x := Now(run.before), run.event.socket;
    PairedThroughoutIff(run.before);
    PairedMeansInverse(t, x, id);
    if x in t.index {
      DisconnectBound(t, x);
    } else {
      UnboundDisconnect(t, x);
    }
  }

  /**
    Without double booking the router is exact: x's message under id reaches y iff the latest accepted
    request for id joined x and y and neither has disconnected since.
  */
  lemma ForwardsExactlyToTheOpenPeer(run: Run, y: Socket)
    requires IsRun(run) && NoDoubleBooking(run) && run.Then? && run.event.Received? && run.event.frame.Json?
    requires run.event.frame.msg.kind in {Offer, Answer, Candidate, Error} && run.event.frame.msg.id != ""
    ensures var x, m := run.event.socket, run.event.frame.msg;
            run.sent == [Envelope(y, m)] <==> Opposite(OpenEnds(run.before, m.id), x) == Some(y)
  {
    OpenSessions(run.before, run.event.frame.msg.id);
  }

  // ---------------------------------------------------------------- silence after the end

  /** later extends run and no request for id has been accepted in between. */
  ghost predicate QuietSince(later: Run, run: Run, id: string) {
    later == run || (later.Then? && QuietSince(later.before, run, id) && !Accepts(later, id))
  }

  lemma ClosedStaysSilent(run: Run, id: string)
    requires IsRun(run) && run.Then? && id != "" && id !in Now(run.before).sessions && !Accepts(run, id)
    ensures id !in run.after.sessions
    ensures forall e | e in run.sent :: e.msg.id != id
  {
  }

  lemma NoticeClosesTheSession(run: Run, y: Socket, id: string)
    requires IsRun(run) && run.Then? && PeerDisconnectedTo(y, id) in run.sent
    ensures id != "" && id !in run.after.sessions
  {
  }

  /** After peer-disconnected for id, nobody is sent anything under id until id is requested anew. */
  lemma {:induction false} SilentAfterPeerDisconnected(run: Run, later: Run, y: Socket, id: string)
    requires IsRun(run) && run.Then? && Envelope(y, Message(PeerDisconnected, id, Payload(""))) in run.sent
    requires IsRun(later) && QuietSince(later, run, id)
    ensures id !in Now(later).sessions
    ensures later != run ==> forall e | e in later.sent :: e.msg.id != id
  {
    NoticeClosesTheSession(run, y, id);
    if later != run {
      SilentAfterPeerDisconnected(run, later.before, y, id);
      ClosedStaysSilent(later, id);
    }
  }
}
