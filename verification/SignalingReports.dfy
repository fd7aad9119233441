/**
  What a native sender reports: its announcement makes it eligible, and each failed set-up is reported
  once, under the id of its request, to the socket that asked.
*/
module SignalingReports {
  import opened Common
  import opened SignalingTables
  import opened SignalingInvariants
  import opened NativeSender
  import opened SignalingSystem
  import opened SignalingLog
  import opened SignalingTraffic

  type History = SignalingSystem.History

  predicate IsNative(h: History, x: Socket) {
    x in SignalingSystem.Now(h).peers && SignalingSystem.Now(h).peers[x].role.Native?
  }

  // ---------------------------------------------------------------- announcements

  /** Socket x has announced itself since it joined. */
  function Announced(h: History, x: Socket): bool {
    if h.Begun? then false
    else
      match h.action
      case Join(y, _) => y != x && Announced(h.before, x)
      case Announce(y) => y == x || Announced(h.before, x)
      case _ => Announced(h.before, x)
  }

  ghost predicate SaysReady(fs: seq<Frame>) {
    exists f :: f in fs && f.Json? && f.msg.kind == SenderReady
  }

  lemma OnlyAnnouncementsSayReady(p: Peer, a: Action, p': Peer)
    requires PeerStep(p, a, p') && p.role.Native? && BooksSound(p.role)
    ensures SaysReady(Said(p, a)) <==> a.Announce?
  {
    if a.Announce? {
      assert Json(READY_MESSAGE) in Said(p, a);
    }
  }

  lemma {:induction false} AnnouncedIffSaid(h: History, x: Socket)
    requires SignalingSystem.IsHistory(h) && IsNative(h, x)
    ensures Announced(h, x) <==> SaysReady(Spoken(h, x))
  {
    if h.Then? && !(h.action.Join? && h.action.socket == x) {
      var s := SignalingSystem.Now(h.before);
      HistoriesAreSound(h.before);
      OwnStep(s, h.action, h.after, x);
      AnnouncedIffSaid(h.before, x);
      if Own(h.action) && h.action.socket == x {
        assert PeerSound(s.server, x, s.peers[x]);
        OnlyAnnouncementsSayReady(s.peers[x], h.action, h.after.peers[x]);
        assert Spoken(h, x) == Spoken(h.before, x) + Said(s.peers[x], h.action);
      } else {
        assert Spoken(h, x) == Spoken(h.before, x);
      }
    }
  }

  /** Only a native sender that announced itself can be handed out, and it can once no announcement is waiting. */
  lemma NativeIsReadyIff(h: History, x: Socket)
    requires SignalingSystem.IsHistory(h) && IsNative(h, x)
    ensures x in SignalingSystem.Now(h).server.ready ==> Announced(h, x)
    ensures Announced(h, x) && !SaysReady(SignalingSystem.Now(h).peers[x].up) ==>
              x in SignalingSystem.Now(h).server.ready
  {
    ReadyIffAnnounced(h, x);
    UpChannelKeepsOrder(h, x);
    AnnouncedIffSaid(h, x);
    assert SaysReady(Spoken(h, x)) <==> SaysReady(Heard(h, x)) || SaysReady(SignalingSystem.Now(h).peers[x].up);
  }

  // ---------------------------------------------------------------- the books and the log

  predicate Requests(e: Entry, id: string) {
    e.msg.kind == Request && e.msg.id == id
  }

  ghost predicate TookRequest(log: seq<Entry>, id: string) {
    exists e :: e in log && Requests(e, id)
  }

  ghost predicate TookFailing(log: seq<Entry>, id: string) {
    exists e :: e in log && Requests(e, id) && e.outcome != InitOk
  }

  ghost predicate BooksAgree(role: Role, log: seq<Entry>)
    requires role.Native?
  {
    && (forall id :: id in role.handled <==> TookRequest(log, id))
    && (forall id :: id in role.failed <==> TookFailing(log, id))
  }

  lemma BooksStep(p: Peer, a: Action, p': Peer, log: seq<Entry>)
    requires PeerStep(p, a, p') && p.role.Native? && BooksAgree(p.role, log)
    ensures p'.role.Native?
    ensures BooksAgree(p'.role, if a.Dequeue? then log + [Entry(p.down[0], a.outcome)] else log)
  {
    if a.Dequeue? {
      var e := Entry(p.down[0], a.outcome);
      assert forall d :: d in log + [e] <==> d in log || d == e;
      forall id
        ensures id in p'.role.handled <==> TookRequest(log + [e], id)
        ensures id in p'.role.failed <==> TookFailing(log + [e], id)
      {
        TookSnoc(log, e, id);
      }
    }
  }

  lemma TookSnoc(log: seq<Entry>, e: Entry, id: string)
    ensures TookRequest(log + [e], id) <==> TookRequest(log, id) || Requests(e, id)
    ensures TookFailing(log + [e], id) <==> TookFailing(log, id) || (Requests(e, id) && e.outcome != InitOk)
  {
    assert forall d :: d in log + [e] <==> d in log || d == e;
    assert e in log + [e];
  }

  lemma {:induction false} BooksAreTheLog(h: History, x: Socket)
    requires SignalingSystem.IsHistory(h) && IsNative(h, x)
    ensures BooksAgree(SignalingSystem.Now(h).peers[x].role, Log(h, x))
  {
    if h.Then? && !(h.action.Join? && h.action.socket == x) {
      var s := SignalingSystem.Now(h.before);
      HistoriesAreSound(h.before);
      OwnStep(s, h.action, h.after, x);
      BooksAreTheLog(h.before, x);
      if Own(h.action) && h.action.socket == x {
        BooksStep(s.peers[x], h.action, h.after.peers[x], Log(h.before, x));
      }
    }
  }

  /**
    An answer or candidate that a native sender takes comes after a request for its id in what it has
    taken; it is ignored only if the set-up of such a request failed.
  */
  lemma IgnoredOnlyAfterFailure(h: History)
    requires SignalingSystem.IsHistory(h) && h.Then? && h.action.Dequeue?
    ensures var x := h.action.socket; IsNative(h.before, x) && SignalingSystem.Now(h.before).peers[x].down != []
    ensures var x := h.action.socket; var p := SignalingSystem.Now(h.before).peers[x]; var m := p.down[0];
            m.kind in {Answer, Candidate} ==>
              && TookRequest(Log(h.before, x), m.id)
              && (m.id !in p.role.sender.clients ==> TookFailing(Log(h.before, x), m.id))
  {
    NativeSenderKnowsTheId(h);
    BooksAreTheLog(h.before, h.action.socket);
  }

  // ---------------------------------------------------------------- failures

  /** What a native sender has to report about one message it took, and about all of them. */
  function Complaint(e: Entry): seq<Message> {
    if e.msg.kind != Request || e.outcome == InitOk then []
    else [Message(Error, e.msg.id, Failure(if e.outcome == NoCapture then CaptureUnavailable else SenderInitFailed))]
  }

  function Complaints(log: seq<Entry>): seq<Message> {
    if log == [] then [] else Complaints(log[..|log| - 1]) + Complaint(log[|log| - 1])
  }

  function ErrorOf(f: Frame): seq<Message> {
    if f.Json? && f.msg.kind == Error then [f.msg] else []
  }

  function ErrorsIn(fs: seq<Frame>): seq<Message> {
    if fs == [] then [] else ErrorsIn(fs[..|fs| - 1]) + ErrorOf(fs[|fs| - 1])
  }

  lemma ErrorsSnoc(fs: seq<Frame>, f: Frame)
    ensures ErrorsIn(fs + [f]) == ErrorsIn(fs) + ErrorOf(f)
  {
    assert (fs + [f])[..|fs|] == fs;
  }

  lemma ComplaintsSnoc(log: seq<Entry>, e: Entry)
    ensures Complaints(log + [e]) == Complaints(log) + Complaint(e)
  {
    assert (log + [e])[..|log|] == log;
  }

  /** A native sender puts at most one frame on the wire at a time, an error only for a failed set-up. */
  lemma OwnStepErrors(p: Peer, a: Action, p': Peer)
    requires PeerStep(p, a, p') && p.role.Native? && BooksSound(p.role)
    ensures |Said(p, a)| <= 1
    ensures (if Said(p, a) == [] then [] else ErrorOf(Said(p, a)[0])) ==
            if a.Dequeue? then Complaint(Entry(p.down[0], a.outcome)) else []
  {
  }

  lemma OwnStepReports(h: History, x: Socket, p: Peer, p': Peer)
    requires h.Then? && Own(h.action) && h.action.socket == x && x in SignalingSystem.Now(h.before).peers
    requires p == SignalingSystem.Now(h.before).peers[x] && PeerStep(p, h.action, p')
    requires p.role.Native? && BooksSound(p.role)
    requires ErrorsIn(Spoken(h.before, x)) == Complaints(Log(h.before, x))
    ensures ErrorsIn(Spoken(h, x)) == Complaints(Log(h, x))
  {
    OwnStepErrors(p, h.action, p');
    var before, said := Spoken(h.before, x), Said(p, h.action);
    if said == [] {
      assert Spoken(h, x) == before;
    } else {
      assert Spoken(h, x) == before + [said[0]];
      ErrorsSnoc(before, said[0]);
    }
    if h.action.Dequeue? {
      ComplaintsSnoc(Log(h.before, x), Entry(p.down[0], h.action.outcome));
    }
  }

  /** The errors a native sender puts on the wire are exactly its failed set-ups, in order, under their ids. */
  lemma {:induction false} ErrorsAreTheFailures(h: History, x: Socket)
    requires SignalingSystem.IsHistory(h) && IsNative(h, x)
    ensures ErrorsIn(Spoken(h, x)) == Complaints(Log(h, x))
  {
    if h.Then? && !(h.action.Join? && h.action.socket == x) {
      var s := SignalingSystem.Now(h.before);
      HistoriesAreSound(h.before);
      OwnStep(s, h.action, h.after, x);
      ErrorsAreTheFailures(h.before, x);
      if Own(h.action) && h.action.socket == x {
        assert PeerSound(s.server, x, s.peers[x]);
        OwnStepReports(h, x, s.peers[x], h.after.peers[x]);
      } else {
        assert Spoken(h, x) == Spoken(h.before, x);
      }
    }
  }

  lemma {:induction false} ErrorIsIn(fs: seq<Frame>, m: Message)
    requires Json(m) in fs && m.kind == Error
    ensures m in ErrorsIn(fs)
  {
    var front, last := fs[..|fs| - 1], fs[|fs| - 1];
    if last != Json(m) {
      assert fs == front + [last];
      ErrorIsIn(front, m);
    }
  }

  /**
    End to end: an error that the server takes from a native sender reports one of its failed set-ups, and
    while that session has its receiver it reaches exactly the socket that asked for the id.
  */
  lemma FailureReachesTheAsker(h: History, m: Message)
    requires SignalingSystem.IsHistory(h) && h.Then? && h.action.Serve? && IsNative(h.before, h.action.socket)
    requires SignalingSystem.Now(h.before).peers[h.action.socket].up[0] == Json(m) && m.kind == Error
    ensures var x := h.action.socket; m in Complaints(Log(h.before, x))
    ensures var x, t := h.action.socket, SignalingSystem.Now(h.before).server;
            m.id in t.sessions && t.sessions[m.id].sender == Some(x) && t.sessions[m.id].receiver.Some? ==>
              && LatestAsker(Traffic(h.before, x), m.id) == t.sessions[m.id].receiver
              && h.action.sent == [Envelope(t.sessions[m.id].receiver.value, m)]
  {
    var x, s := h.action.socket, SignalingSystem.Now(h.before);
    HistoriesAreSound(h.before);
    UpChannelKeepsOrder(h.before, x);
    assert s.peers[x].up[0] in Spoken(h.before, x);
    ErrorIsIn(Spoken(h.before, x), m);
    ErrorsAreTheFailures(h.before, x);
    TrafficComesFromAskers(h.before, x);
    assert AskerIsReceiver(s.server, x, m.id, LatestAsker(Traffic(h.before, x), m.id));
    assert Coherent(s.server);
  }
}
