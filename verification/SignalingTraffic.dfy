/**
  Where messages come from: what a client says reaches the server in order, what WebRTC hands to a
  native sender reaches the wire in order, and whatever is forwarded to a native sender under an id
  was said by the socket whose request for that id it was sent last.
*/
module SignalingTraffic {
  import opened Common
  import opened SignalingTables
  import opened SignalingInvariants
  import opened NativeSender
  import opened SignalingSystem
  import opened SignalingLog

  type History = SignalingSystem.History

  // ---------------------------------------------------------------- from a client to the server

  /** The frames a peer puts on the wire in one action of its own. */
  function Said(p: Peer, a: Action): seq<Frame> {
    match a
    case Announce(_) => [Json(READY_MESSAGE)]
    case Dequeue(_, outcome) =>
      if p.role.Native? && p.down != [] then
        var out := Begin(p.role.sender, p.down[0], outcome).1;
        if out == [] then [] else [Json(out[0])]
      else []
    case RunPosted(_) =>
      if p.role.Native? && p.role.sender.posted != [] then [Json(p.role.sender.posted[0])] else []
    case Speak(_, f) => [f]
    case _ => []
  }

  /** Everything socket x has put on the wire since it joined. */
  function Spoken(h: History, x: Socket): seq<Frame> {
    if h.Begun? then []
    else
      match h.action
      case Join(y, _) => if y == x then [] else Spoken(h.before, x)
      case Leave(_, _) => Spoken(h.before, x)
      case Serve(_, _) => Spoken(h.before, x)
      case _ =>
        var s := SignalingSystem.Now(h.before);
        Spoken(h.before, x) + if h.action.socket == x && x in s.peers then Said(s.peers[x], h.action) else []
  }

  /** Everything the server has taken from socket x since it joined. */
  function Heard(h: History, x: Socket): seq<Frame> {
    if h.Begun? then []
    else
      match h.action
      case Join(y, _) => if y == x then [] else Heard(h.before, x)
      case Serve(y, _) =>
        var s := SignalingSystem.Now(h.before);
        Heard(h.before, x) + if y == x && x in s.peers && s.peers[x].up != [] then [s.peers[x].up[0]] else []
      case _ => Heard(h.before, x)
  }

  lemma SaidGoesUp(p: Peer, a: Action, p': Peer)
    requires PeerStep(p, a, p')
    ensures p'.up == p.up + Said(p, a)
  {
  }

  /** The channel towards the server of one peer before and after a step. */
  lemma UpOf(s: System, a: Action, s': System, x: Socket)
    requires Sound(s) && SignalingSystem.Next(s, a, s') && x in s'.peers && !(a.Join? && a.socket == x)
    ensures x in s.peers
    ensures if a.Serve? && a.socket == x then s.peers[x].up != [] && s'.peers[x].up == s.peers[x].up[1..]
            else if a.Join? || a.Leave? || a.Serve? || a.socket != x then s'.peers[x].up == s.peers[x].up
            else s'.peers[x].up == s.peers[x].up + Said(s.peers[x], a)
  {
    match a
    case Join(_, _) =>
    case Leave(_, _) =>
    case Serve(_, _) =>
    case _ =>
      var p' :| PeerStep(s.peers[a.socket], a, p') && s'.peers == s.peers[a.socket := p'];
      SaidGoesUp(s.peers[a.socket], a, p');
  }

  /** In order and exactly once: what the server has taken and what waits for it is what the client said. */
  lemma {:induction false} UpChannelKeepsOrder(h: History, x: Socket)
    requires SignalingSystem.IsHistory(h) && x in SignalingSystem.Now(h).peers
    ensures Heard(h, x) + SignalingSystem.Now(h).peers[x].up == Spoken(h, x)
  {
    if h.Then? && !(h.action.Join? && h.action.socket == x) {
      HistoriesAreSound(h.before);
      UpOf(SignalingSystem.Now(h.before), h.action, h.after, x);
      UpChannelKeepsOrder(h.before, x);
    }
  }

  predicate IsReadyFrame(f: Frame) {
    f.Json? && f.msg.kind.SenderReady?
  }

  /** Who becomes ready in one step. */
  lemma ReadyOf(s: System, a: Action, s': System, x: Socket)
    requires Sound(s) && SignalingSystem.Next(s, a, s') && x in s'.peers && !(a.Join? && a.socket == x)
    ensures x in s'.server.ready <==>
            x in s.server.ready || (a.Serve? && a.socket == x && IsReadyFrame(s.peers[x].up[0]))
  {
  }

  /** A socket can be handed out to receivers iff the server has heard its announcement since it joined. */
  lemma {:induction false} ReadyIffAnnounced(h: History, x: Socket)
    requires SignalingSystem.IsHistory(h) && x in SignalingSystem.Now(h).peers
    ensures x in SignalingSystem.Now(h).server.ready <==> exists f :: f in Heard(h, x) && IsReadyFrame(f)
  {
    if h.Then? {
      HistoriesAreSound(h.before);
      if h.action.Join? && h.action.socket == x {
        assert Heard(h, x) == [] && x !in SignalingSystem.Now(h.before).server.ready;
      } else {
        var s := SignalingSystem.Now(h.before);
        UpOf(s, h.action, h.after, x);
        ReadyOf(s, h.action, h.after, x);
        ReadyIffAnnounced(h.before, x);
        if h.action.Serve? && h.action.socket == x {
          assert Heard(h, x) == Heard(h.before, x) + [s.peers[x].up[0]];
        } else {
          assert Heard(h, x) == Heard(h.before, x);
        }
      }
    }
  }

  // ---------------------------------------------------------------- from WebRTC to the wire

  /** The messages that the callbacks of the clients of x have produced since it joined. */
  function CalledBack(h: History, x: Socket): seq<Message> {
    if h.Begun? then []
    else
      match h.action
      case Join(y, _) => if y == x then [] else CalledBack(h.before, x)
      case CallBack(y, m) => CalledBack(h.before, x) + if y == x then [m] else []
      case _ => CalledBack(h.before, x)
  }

  /** The offers and candidates among some frames. */
  function Negotiation(fs: seq<Frame>): seq<Message> {
    if fs == [] then []
    else
      var f := fs[|fs| - 1];
      Negotiation(fs[..|fs| - 1]) + if f.Json? && (f.msg.kind.Offer? || f.msg.kind.Candidate?) then [f.msg] else []
  }

  lemma NegotiationOne(fs: seq<Frame>, f: Frame)
    ensures Negotiation(fs + [f]) ==
            Negotiation(fs) + if f.Json? && (f.msg.kind.Offer? || f.msg.kind.Candidate?) then [f.msg] else []
  {
    assert (fs + [f])[..|fs|] == fs;
  }

  predicate Own(a: Action) {
    !a.Join? && !a.Leave? && !a.Serve?
  }

  lemma OwnStep(s: System, a: Action, s': System, x: Socket)
    requires Sound(s) && SignalingSystem.Next(s, a, s') && x in s'.peers && !(a.Join? && a.socket == x)
    ensures x in s.peers
    ensures if Own(a) && a.socket == x then PeerStep(s.peers[x], a, s'.peers[x])
            else s'.peers[x].role == s.peers[x].role
  {
    match a
    case Join(_, _) =>
    case Leave(_, _) =>
    case Serve(_, _) =>
    case _ =>
  }

  lemma OwnStepPosts(p: Peer, a: Action, p': Peer, fs: seq<Frame>)
    requires PeerStep(p, a, p') && p.role.Native? && BooksSound(p.role)
    ensures p'.role.Native?
    ensures Negotiation(fs + Said(p, a)) + p'.role.sender.posted ==
            Negotiation(fs) + p.role.sender.posted + if a.CallBack? then [a.msg] else []
  {
    if |Said(p, a)| == 1 {
      NegotiationOne(fs, Said(p, a)[0]);
    } else {
      assert fs + Said(p, a) == fs;
    }
  }

  /**
    Every offer and candidate that WebRTC produces reaches the wire in order and exactly once, except those
    still queued for the Qt thread; and nothing else of the kind does.
  */
  lemma {:induction false} PostedKeepsOrder(h: History, x: Socket)
    requires SignalingSystem.IsHistory(h) && x in SignalingSystem.Now(h).peers
    requires SignalingSystem.Now(h).peers[x].role.Native?
    ensures Negotiation(Spoken(h, x)) + SignalingSystem.Now(h).peers[x].role.sender.posted == CalledBack(h, x)
  {
    if h.Then? && !(h.action.Join? && h.action.socket == x) {
      var s := SignalingSystem.Now(h.before);
      HistoriesAreSound(h.before);
      OwnStep(s, h.action, h.after, x);
      PostedKeepsOrder(h.before, x);
      if Own(h.action) && h.action.socket == x {
        assert PeerSound(s.server, x, s.peers[x]);
        OwnStepPosts(s.peers[x], h.action, h.after.peers[x], Spoken(h.before, x));
        assert Spoken(h, x) == Spoken(h.before, x) + Said(s.peers[x], h.action);
        assert CalledBack(h, x) == CalledBack(h.before, x) + if h.action.CallBack? then [h.action.msg] else [];
      } else {
        assert Spoken(h, x) == Spoken(h.before, x) && CalledBack(h, x) == CalledBack(h.before, x);
      }
    }
  }

  // ---------------------------------------------------------------- who said what a native sender hears

  /** A message put into a channel by the server, and the socket whose event it was serving then. */
  datatype Delivery = Delivery(msg: Message, from: Socket)

  function Tagged(ms: seq<Message>, from: Socket): seq<Delivery> {
    seq(|ms|, i requires 0 <= i < |ms| => Delivery(ms[i], from))
  }

  /** Everything addressed to socket x since it joined. */
  function Traffic(h: History, x: Socket): seq<Delivery> {
    if h.Begun? then []
    else
      match h.action
      case Join(y, _) => if y == x then [] else Traffic(h.before, x)
      case Leave(y, sent) => Traffic(h.before, x) + Tagged(Addressed(sent, x), y)
      case Serve(y, sent) => Traffic(h.before, x) + Tagged(Addressed(sent, x), y)
      case _ => Traffic(h.before, x)
  }

  lemma {:induction false} TrafficIsWhatWasSent(h: History, x: Socket)
    ensures |Traffic(h, x)| == |SentTo(h, x)|
    ensures forall k | 0 <= k < |SentTo(h, x)| :: Traffic(h, x)[k].msg == SentTo(h, x)[k]
  {
    if h.Then? {
      TrafficIsWhatWasSent(h.before, x);
    }
  }

  /** The requester of the latest request for id in the traffic. */
  function LatestAsker(tr: seq<Delivery>, id: string): Option<Socket> {
    if tr == [] then None
    else
      var d := tr[|tr| - 1];
      if d.msg.kind.Request? && d.msg.id == id then Some(d.from) else LatestAsker(tr[..|tr| - 1], id)
  }

  /** A message that only the router passes on: the server's own errors carry no id. */
  predicate Forwarded(m: Message) {
    Forwardable(m.kind) && (m.kind.Error? ==> m.id != "")
  }

  ghost predicate FromAsker(tr: seq<Delivery>, k: nat)
    requires k < |tr|
  {
    Forwarded(tr[k].msg) ==> LatestAsker(tr[..k], tr[k].msg.id) == Some(tr[k].from)
  }

  ghost predicate AllFromAskers(tr: seq<Delivery>) {
    forall k | 0 <= k < |tr| :: FromAsker(tr, k)
  }

  lemma AskerAppend(tr: seq<Delivery>, d: Delivery, id: string)
    ensures LatestAsker(tr + [d], id) ==
            if d.msg.kind.Request? && d.msg.id == id then Some(d.from) else LatestAsker(tr, id)
  {
    assert (tr + [d])[..|tr|] == tr;
  }

  lemma AllFromAskersAppend(tr: seq<Delivery>, d: Delivery)
    requires AllFromAskers(tr) && (Forwarded(d.msg) ==> LatestAsker(tr, d.msg.id) == Some(d.from))
    ensures AllFromAskers(tr + [d])
  {
    forall k | 0 <= k < |tr + [d]|
      ensures FromAsker(tr + [d], k)
    {
      if k < |tr| {
        assert FromAsker(tr, k) && (tr + [d])[..k] == tr[..k];
      } else {
        assert (tr + [d])[..k] == tr;
      }
    }
  }

  /** If x is the sender of the session, its other end is still the requester, or gone. */
  ghost predicate AskerIsReceiver(t: Tables, x: Socket, id: string, asker: Option<Socket>) {
    id in t.sessions && t.sessions[id].sender == Some(x) ==>
      asker.Some? && t.sessions[id].receiver in {None, asker}
  }

  ghost predicate AskersReceive(t: Tables, x: Socket, tr: seq<Delivery>) {
    forall id :: AskerIsReceiver(t, x, id, LatestAsker(tr, id))
  }

  lemma DisconnectKeepsAskers(t: Tables, y: Socket, x: Socket, tr: seq<Delivery>)
    requires Coherent(t) && AskersReceive(t, x, tr)
    ensures AskersReceive(Disconnect(t, y), x, tr)
  {
    DisconnectSessions(t, y);
    forall id
      ensures AskerIsReceiver(Disconnect(t, y), x, id, LatestAsker(tr, id))
    {
      assert AskerIsReceiver(t, x, id, LatestAsker(tr, id));
    }
  }

  lemma {:induction false} PlainTraffic(tr: seq<Delivery>, ms: seq<Message>, from: Socket)
    requires AllFromAskers(tr)
    requires forall m | m in ms :: !Forwarded(m) && !m.kind.Request?
    ensures AllFromAskers(tr + Tagged(ms, from))
    ensures forall id :: LatestAsker(tr + Tagged(ms, from), id) == LatestAsker(tr, id)
  {
    if ms == [] {
      assert tr + Tagged(ms, from) == tr;
    } else {
      var front, d := ms[..|ms| - 1], Delivery(ms[|ms| - 1], from);
      PlainTraffic(tr, front, from);
      assert tr + Tagged(ms, from) == tr + Tagged(front, from) + [d];
      AllFromAskersAppend(tr + Tagged(front, from), d);
      forall id
        ensures LatestAsker(tr + Tagged(ms, from), id) == LatestAsker(tr, id)
      {
        AskerAppend(tr + Tagged(front, from), d, id);
      }
    }
  }

  lemma LeaveKeepsAskers(t: Tables, y: Socket, x: Socket, tr: seq<Delivery>)
    requires Coherent(t) && AskersReceive(t, x, tr) && AllFromAskers(tr)
    ensures var tr' := tr + Tagged(Addressed(DisconnectSent(t, y), x), y);
            AskersReceive(Disconnect(t, y), x, tr') && AllFromAskers(tr')
  {
    AddressedComeFromSent(DisconnectSent(t, y), x);
    PlainTraffic(tr, Addressed(DisconnectSent(t, y), x), y);
    DisconnectKeepsAskers(t, y, x, tr);
  }

  lemma BindKeepsAskers(t: Tables, s: Socket, r: Socket, m: Message, x: Socket, tr: seq<Delivery>)
    requires AskersReceive(t, x, tr) && AllFromAskers(tr) && m.kind.Request?
    ensures var tr' := tr + Tagged(Addressed([Envelope(s, m)], x), r);
            AskersReceive(Bind(t, s, r, m.id), x, tr') && AllFromAskers(tr')
  {
    var tr' := tr + Tagged(Addressed([Envelope(s, m)], x), r);
    AddressedOne(Envelope(s, m), x);
    assert tr' == if s == x then tr + [Delivery(m, r)] else tr;
    if s == x {
      AllFromAskersAppend(tr, Delivery(m, r));
    }
    forall id
      ensures AskerIsReceiver(Bind(t, s, r, m.id), x, id, LatestAsker(tr', id))
    {
      assert AskerIsReceiver(t, x, id, LatestAsker(tr, id));
      AskerAppend(tr, Delivery(m, r), id);
    }
  }

  /** What is forwarded to a socket that is no receiver comes from the requester. */
  lemma ForwardKeepsAskers(t: Tables, y: Socket, m: Message, x: Socket, tr: seq<Delivery>)
    requires AskersReceive(t, x, tr) && AllFromAskers(tr) && Forwardable(m.kind)
    requires forall id | id in t.sessions :: t.sessions[id].receiver != Some(x)
    ensures var tr' := tr + Tagged(Addressed(ForwardSent(t, y, m), x), y);
            AskersReceive(t, x, tr') && AllFromAskers(tr')
  {
    var e := ForwardSent(t, y, m)[0];
    AddressedOne(e, x);
    var tr' := tr + Tagged(Addressed([e], x), y);
    assert ForwardSent(t, y, m) == [e];
    assert tr' == if e.to == x then tr + [Delivery(e.msg, y)] else tr;
    if e.to == x {
      assert AskerIsReceiver(t, x, m.id, LatestAsker(tr, m.id));
      AllFromAskersAppend(tr, Delivery(e.msg, y));
      forall id
        ensures AskerIsReceiver(t, x, id, LatestAsker(tr', id))
      {
        assert AskerIsReceiver(t, x, id, LatestAsker(tr, id));
        AskerAppend(tr, Delivery(e.msg, y), id);
      }
    }
  }

  lemma ReceiveKeepsAskers(t: Tables, y: Socket, f: Frame, t': Tables, sent: seq<Envelope>, x: Socket,
                           tr: seq<Delivery>)
    requires Step(t, Received(y, f), t', sent) && AskersReceive(t, x, tr) && AllFromAskers(tr)
    requires forall id | id in t.sessions :: t.sessions[id].receiver != Some(x)
    ensures var tr' := tr + Tagged(Addressed(sent, x), y); AskersReceive(t', x, tr') && AllFromAskers(tr')
  {
    if f.Json? && Forwardable(f.msg.kind) {
      ForwardKeepsAskers(t, y, f.msg, x, tr);
    } else if f.Json? && f.msg.kind.Request? && Acceptable(t, y, f.msg.id) {
      var s :| Eligible(t, y, s) && t' == Bind(t, s, y, f.msg.id) && sent == [Envelope(s, f.msg)];
      BindKeepsAskers(t, s, y, f.msg, x, tr);
    } else {
      AddressedComeFromSent(sent, x);
      PlainTraffic(tr, Addressed(sent, x), y);
      forall id
        ensures AskerIsReceiver(t', x, id, LatestAsker(tr, id))
      {
        assert AskerIsReceiver(t, x, id, LatestAsker(tr, id));
      }
    }
  }

  lemma NoReceiver(s: System, x: Socket)
    requires Sound(s) && x in s.peers && s.peers[x].role.Native?
    ensures forall id | id in s.server.sessions :: s.server.sessions[id].receiver != Some(x)
  {
    assert PeerSound(s.server, x, s.peers[x]);
    forall id | id in s.server.sessions
      ensures s.server.sessions[id].receiver != Some(x)
    {
      assert SessionSound(s.server.sessions[id], id, x, s.peers[x]);
    }
  }

  lemma NewSocketHasNoSession(s: System, x: Socket, s': System, role: Role)
    requires Sound(s) && SignalingSystem.Next(s, Join(x, role), s')
    ensures AskersReceive(s'.server, x, [])
  {
    forall id
      ensures AskerIsReceiver(s'.server, x, id, None)
    {
      assert id in s.server.sessions ==> EndsConnected(s.server, s.server.sessions[id]);
    }
  }

  lemma {:induction false} TrafficComesFromAskers(h: History, x: Socket)
    requires SignalingSystem.IsHistory(h) && x in SignalingSystem.Now(h).peers
    requires SignalingSystem.Now(h).peers[x].role.Native?
    ensures AskersReceive(SignalingSystem.Now(h).server, x, Traffic(h, x)) && AllFromAskers(Traffic(h, x))
  {
    if h.Then? {
      var s := SignalingSystem.Now(h.before);
      HistoriesAreSound(h.before);
      if h.action.Join? && h.action.socket == x {
        NewSocketHasNoSession(s, x, h.after, h.action.role);
      } else {
        OwnStep(s, h.action, h.after, x);
        TrafficComesFromAskers(h.before, x);
        TrafficStep(h, x);
      }
    }
  }

  lemma TrafficStep(h: History, x: Socket)
    requires SignalingSystem.IsHistory(h) && h.Then? && Sound(SignalingSystem.Now(h.before))
    requires var s := SignalingSystem.Now(h.before); x in s.peers && s.peers[x].role.Native?
    requires !(h.action.Join? && h.action.socket == x)
    requires AskersReceive(SignalingSystem.Now(h.before).server, x, Traffic(h.before, x))
    requires AllFromAskers(Traffic(h.before, x))
    ensures AskersReceive(h.after.server, x, Traffic(h, x)) && AllFromAskers(Traffic(h, x))
  {
    var s := SignalingSystem.Now(h.before);
    match h.action
    case Leave(y, _) => LeaveKeepsAskers(s.server, y, x, Traffic(h.before, x));
    case Serve(y, sent) =>
      NoReceiver(s, x);
      ReceiveKeepsAskers(s.server, y, s.peers[y].up[0], h.after.server, sent, x, Traffic(h.before, x));
    case Join(_, _) =>
      forall id
        ensures AskerIsReceiver(h.after.server, x, id, LatestAsker(Traffic(h, x), id))
      {
        assert AskerIsReceiver(s.server, x, id, LatestAsker(Traffic(h.before, x), id));
      }
    case _ =>
  }

  /**
    Whatever the other clients do: each offer, answer, candidate or error that a native sender has taken
    under an id was said by the socket whose request for that id it had taken last before.
  */
  lemma TakenComesFromTheAsker(h: History, x: Socket, k: nat)
    requires SignalingSystem.IsHistory(h) && x in SignalingSystem.Now(h).peers
    requires SignalingSystem.Now(h).peers[x].role.Native? && k < |Log(h, x)|
    ensures k < |Traffic(h, x)| && Traffic(h, x)[k].msg == Log(h, x)[k].msg
    ensures Forwarded(Log(h, x)[k].msg) ==>
              LatestAsker(Traffic(h, x)[..k], Log(h, x)[k].msg.id) == Some(Traffic(h, x)[k].from)
  {
    ChannelKeepsOrder(h, x);
    TrafficIsWhatWasSent(h, x);
    TrafficComesFromAskers(h, x);
    assert SentTo(h, x)[k] == Messages(Log(h, x))[k];
    assert FromAsker(Traffic(h, x), k);
  }

  lemma SentIsHead(t: Tables, y: Socket, f: Frame, t': Tables, sent: seq<Envelope>, e: Envelope)
    requires Step(t, Received(y, f), t', sent) && e in sent && (Forwarded(e.msg) || e.msg.kind.Request?)
    ensures f == Json(e.msg)
  {
  }

  /** The router passes messages on word for word: what it delivers is the very frame it has just heard. */
  lemma ForwardedIsWhatWasHeard(h: History, x: Socket, m: Message)
    requires SignalingSystem.IsHistory(h) && h.Then? && h.action.Serve? && m in Addressed(h.action.sent, x)
    requires Forwarded(m) || m.kind.Request?
    ensures var y := h.action.socket; Heard(h, y) == Heard(h.before, y) + [Json(m)]
  {
    AddressedComeFromSent(h.action.sent, x);
    var s, y := SignalingSystem.Now(h.before), h.action.socket;
    SentIsHead(s.server, y, s.peers[y].up[0], h.after.server, h.action.sent, Envelope(x, m));
  }

  lemma {:induction false} CollectedWasTaken(log: seq<Entry>, id: string, kind: Kind, b: Body) returns (k: nat)
    requires b in Collected(log, id, kind)
    ensures k < |log| && log[k].msg == Message(kind, id, b)
  {
    var older, e := log[..|log| - 1], log[|log| - 1];
    if b in Collected(older, id, kind) {
      k := CollectedWasTaken(older, id, kind, b);
    } else {
      k := |log| - 1;
    }
  }

  /** Message k of the log of x was said by the socket that had asked x for its session. */
  ghost predicate SaidByAsker(h: History, x: Socket, k: nat) {
    && k < |Log(h, x)| && k < |Traffic(h, x)| && Traffic(h, x)[k].msg == Log(h, x)[k].msg
    && LatestAsker(Traffic(h, x)[..k], Log(h, x)[k].msg.id) == Some(Traffic(h, x)[k].from)
  }

  /** End to end: every answer or candidate in a sender's table for id was said by the socket that asked it for id. */
  lemma AnswersComeFromTheAsker(h: History, x: Socket, id: string, b: Body) returns (k: nat)
    requires SignalingSystem.IsHistory(h) && x in SignalingSystem.Now(h).peers
    requires SignalingSystem.Now(h).peers[x].role.Native?
    requires var n := SignalingSystem.Now(h).peers[x].role.sender;
             n.starting != Some(id) && id in n.clients && (b in n.clients[id].answers || b in n.clients[id].candidates)
    ensures SaidByAsker(h, x, k)
    ensures Log(h, x)[k].msg in {Message(Answer, id, b), Message(Candidate, id, b)}
  {
    TableIsWhatWasTaken(h, x);
    var n := SignalingSystem.Now(h).peers[x].role.sender;
    assert AgreesOn(n, Log(h, x), id);
    k := CollectedWasTaken(Log(h, x), id, if b in n.clients[id].answers then Answer else Candidate, b);
    TakenComesFromTheAsker(h, x, k);
  }
}
