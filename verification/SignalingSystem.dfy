/**
  The whole system: the server, native senders (module/signaling_client.cpp), web receivers
  (web/receiver.html) and arbitrary other clients, joined by one in-order channel per
  socket and direction. Any number of clients may come and go.
*/
module SignalingSystem {
  import opened Common
  import opened SignalingTables
  import opened SignalingInvariants
  import opened NativeSender

  /**
    A native sender carries, besides its state, the ids of the requests it has taken from its
    channel (handled) and of those it answered with a set-up error (failed).
  */
  datatype Role =
    | Native(sender: Sender, handled: set<string>, failed: set<string>)
    | Web(asked: Option<string>)
    | Other

  datatype Peer = Peer(role: Role, up: seq<Frame>, down: seq<Message>)

  datatype System = System(server: Tables, peers: map<Socket, Peer>)

  datatype Action =
    | Join(socket: Socket, role: Role)
    | Leave(socket: Socket, sent: seq<Envelope>)
    | Serve(socket: Socket, sent: seq<Envelope>)
    | Announce(socket: Socket)
    | Dequeue(socket: Socket, outcome: Outcome)
    | Store(socket: Socket)
    | CallBack(socket: Socket, msg: Message)
    | RunPosted(socket: Socket)
    | Speak(socket: Socket, frame: Frame)
    | Listen(socket: Socket)

  const BOOT := System(EMPTY, map[])

  function Addressed(sent: seq<Envelope>, x: Socket): seq<Message> {
    if sent == [] then [] else (if sent[0].to == x then [sent[0].msg] else []) + Addressed(sent[1..], x)
  }

  function Deliver(peers: map<Socket, Peer>, sent: seq<Envelope>): map<Socket, Peer> {
    map x | x in peers :: peers[x].(down := peers[x].down + Addressed(sent, x))
  }

  predicate Initial(role: Role) {
    role in {Native(IDLE_SENDER, {}, {}), Web(None), Other}
  }

  predicate IsRequestFrame(f: Frame) {
    f.Json? && f.msg.kind.Request?
  }

  /**
    A page speaks first by requesting. The id it asked for stays the same while its socket is open, and a
    second open handler may repeat the request on the same socket.
  */
  predicate PageMaySay(asked: Option<string>, f: Frame) {
    f.Json? &&
    if f.msg.kind.Request? then asked in {None, Some(f.msg.id)}
    else asked.Some? && (f.msg.kind.Answer? || f.msg.kind.Candidate?)
  }

  function AfterSaying(asked: Option<string>, f: Frame): Option<string>
    requires PageMaySay(asked, f)
  {
    if f.msg.kind.Request? then Some(f.msg.id) else asked
  }

  /** The native sender takes the head of its channel; handlers do not nest. */
  function Taken(p: Peer, outcome: Outcome): Peer
    requires p.role.Native? && p.down != []
  {
    var m := p.down[0];
    var (n, out) := Begin(p.role.sender, m, outcome);
    var handled := if m.kind.Request? then p.role.handled + {m.id} else p.role.handled;
    var failed := if m.kind.Request? && !outcome.InitOk? then p.role.failed + {m.id} else p.role.failed;
    Peer(Native(n, handled, failed), p.up + (if out == [] then [] else [Json(out[0])]), p.down[1..])
  }

  ghost predicate PeerStep(p: Peer, a: Action, p': Peer) {
    match a
    case Announce(_) => p.role.Native? && p' == p.(up := p.up + [Json(READY_MESSAGE)])
    case Dequeue(_, outcome) =>
      p.role.Native? && p.role.sender.starting.None? && p.down != [] && p' == Taken(p, outcome)
    case Store(_) =>
      p.role.Native? && p.role.sender.starting.Some? && p' == p.(role := p.role.(sender := Finish(p.role.sender)))
    case CallBack(_, m) =>
      p.role.Native? && Callback(p.role.sender, m) &&
      p' == p.(role := p.role.(sender := Posted(p.role.sender, m)))
    case RunPosted(_) =>
      p.role.Native? && p.role.sender.starting.None? && p.role.sender.posted != [] &&
      p' == p.(role := p.role.(sender := Flushed(p.role.sender)),
               up := p.up + [Json(p.role.sender.posted[0])])
    case Speak(_, f) =>
      (p.role.Other? && p' == p.(up := p.up + [f])) ||
      (p.role.Web? && PageMaySay(p.role.asked, f) &&
       p' == p.(role := Web(AfterSaying(p.role.asked, f)), up := p.up + [f]))
    case Listen(_) => !p.role.Native? && p.down != [] && p' == p.(down := p.down[1..])
    case _ => false
  }

  function Popped(peers: map<Socket, Peer>, x: Socket): map<Socket, Peer>
    requires x in peers && peers[x].up != []
  {
    peers[x := peers[x].(up := peers[x].up[1..])]
  }

  ghost predicate Next(s: System, a: Action, s': System) {
    match a
    case Join(x, role) =>
      Initial(role) && Step(s.server, Connected(x), s'.server, []) && s'.peers == s.peers[x := Peer(role, [], [])]
    case Leave(x, sent) =>
      x in s.peers && Step(s.server, Disconnected(x), s'.server, sent) && s'.peers == Deliver(s.peers - {x}, sent)
    case Serve(x, sent) =>
      && x in s.peers && s.peers[x].up != []
      && Step(s.server, Received(x, s.peers[x].up[0]), s'.server, sent)
      && s'.peers == Deliver(Popped(s.peers, x), sent)
    case _ =>
      a.socket in s.peers && s'.server == s.server &&
      exists p' :: PeerStep(s.peers[a.socket], a, p') && s'.peers == s.peers[a.socket := p']
  }

  /** A history of the whole system, newest action last. */
  datatype History = Begun | Then(before: History, action: Action, after: System)

  function Now(h: History): System {
    if h.Begun? then BOOT else h.after
  }

  ghost predicate IsHistory(h: History) {
    h.Then? ==> IsHistory(h.before) && Next(Now(h.before), h.action, h.after)
  }

  // ---------------------------------------------------------------- what holds for every client mix

  /** Ids of the requests still waiting in a channel. */
  function Pending(q: seq<Message>): set<string> {
    if q == [] then {} else (if q[0].kind.Request? then {q[0].id} else {}) + Pending(q[1..])
  }

  /** Each answer or candidate in q comes after a request for its id, or that request is in h. */
  predicate Covered(h: set<string>, q: seq<Message>)
    decreases q
  {
    q == [] ||
    if q[0].kind.Request? then Covered(h + {q[0].id}, q[1..])
    else (q[0].kind.Answer? || q[0].kind.Candidate? ==> q[0].id in h) && Covered(h, q[1..])
  }

  lemma {:induction false} PendingConcat(q: seq<Message>, more: seq<Message>)
    ensures Pending(q + more) == Pending(q) + Pending(more)
  {
    if q == [] {
      assert q + more == more;
    } else {
      PendingConcat(q[1..], more);
      assert (q + more)[1..] == q[1..] + more;
    }
  }

  lemma {:induction false} CoveredConcat(h: set<string>, q: seq<Message>, more: seq<Message>)
    requires Covered(h, q) && Covered(h + Pending(q), more)
    ensures Covered(h, q + more)
    decreases q
  {
    if q == [] {
      assert q + more == more && h + {} == h;
    } else {
      var h1 := if q[0].kind.Request? then h + {q[0].id} else h;
      assert h1 + Pending(q[1..]) == h + Pending(q);
      CoveredConcat(h1, q[1..], more);
      assert (q + more)[1..] == q[1..] + more;
    }
  }

  /** The part of the invariant that concerns one peer and the tables. */
  ghost predicate PeerSound(t: Tables, x: Socket, p: Peer) {
    p.role.Native? ==>
      && BooksSound(p.role)
      && WireSound(p.role, p.up)
      && Covered(p.role.handled, p.down)
      && (forall id | id in t.sessions :: SessionSound(t.sessions[id], id, x, p))
  }

  /** Every handled request gave a client, is giving one, or failed; queued sends name known ids. */
  predicate BooksSound(role: Role)
    requires role.Native?
  {
    && role.handled <= Known(role.sender) + role.failed
    && (forall m | m in role.sender.posted :: m.id in Known(role.sender) && (m.kind.Offer? || m.kind.Candidate?))
  }

  /** A native sender never requests, and its offers name ids in its client table. */
  predicate WireSound(role: Role, up: seq<Frame>)
    requires role.Native?
  {
    forall f | f in up :: !IsRequestFrame(f) && (f.Json? && f.msg.kind.Offer? ==> f.msg.id in role.sender.clients)
  }

  ghost predicate SessionSound(b: Binding, id: string, x: Socket, p: Peer)
    requires p.role.Native?
  {
    && b.receiver != Some(x)
    && (b.sender == Some(x) ==> id in p.role.handled + Pending(p.down))
  }

  ghost predicate Sound(s: System) {
    && Coherent(s.server)
    && s.peers.Keys == s.server.sockets
    && forall x | x in s.peers :: PeerSound(s.server, x, s.peers[x])
  }

  lemma {:induction false} AddressedComeFromSent(sent: seq<Envelope>, x: Socket)
    ensures forall m | m in Addressed(sent, x) :: Envelope(x, m) in sent
  {
    if sent != [] {
      AddressedComeFromSent(sent[1..], x);
    }
  }

  /** Each client is sent exactly its own envelopes, as often as they occur. */
  lemma {:induction false} AddressedExactly(sent: seq<Envelope>, x: Socket, m: Message)
    ensures multiset(Addressed(sent, x))[m] == multiset(sent)[Envelope(x, m)]
  {
    if sent != [] {
      AddressedExactly(sent[1..], x, m);
      assert sent == [sent[0]] + sent[1..];
    }
  }

  lemma AddressedOne(e: Envelope, x: Socket)
    ensures Addressed([e], x) == if e.to == x then [e.msg] else []
  {
  }

  lemma {:induction false} NothingToCover(h: set<string>, q: seq<Message>)
    requires forall m | m in q :: !m.kind.Request? && !m.kind.Answer? && !m.kind.Candidate?
    ensures Covered(h, q) && Pending(q) == {}
  {
    if q != [] {
      NothingToCover(h, q[1..]);
    }
  }

  /** What the server sends to a native sender in one turn is covered by its books and channel. */
  lemma ServerTurnCovered(t: Tables, ev: Event, t': Tables, sent: seq<Envelope>, x: Socket, p: Peer)
    requires Coherent(t) && Step(t, ev, t', sent) && p.role.Native? && PeerSound(t, x, p)
    ensures Covered(p.role.handled + Pending(p.down), Addressed(sent, x))
  {
  }

  lemma ServerTurnSessions(t: Tables, ev: Event, t': Tables, sent: seq<Envelope>, x: Socket, p: Peer, id: string)
    requires Coherent(t) && Step(t, ev, t', sent) && p.role.Native? && PeerSound(t, x, p)
    requires IsRequest(ev) ==> ev.socket != x
    requires id in t'.sessions
    ensures SessionSound(t'.sessions[id], id, x, p.(down := p.down + Addressed(sent, x)))
  {
    PendingConcat(p.down, Addressed(sent, x));
    if id in t.sessions {
      assert SessionSound(t.sessions[id], id, x, p);
      if ev.Disconnected? {
        DisconnectSessions(t, ev.socket);
      }
    } else if t'.sessions[id].sender == Some(x) {
      AddressedOne(sent[0], x);
    }
  }

  lemma ServerTurnKeepsPeer(t: Tables, ev: Event, t': Tables, sent: seq<Envelope>, x: Socket, p: Peer)
    requires Coherent(t) && Step(t, ev, t', sent) && PeerSound(t, x, p)
    requires p.role.Native? && IsRequest(ev) ==> ev.socket != x
    ensures PeerSound(t', x, p.(down := p.down + Addressed(sent, x)))
  {
    if p.role.Native? {
      ServerTurnCovered(t, ev, t', sent, x, p);
      CoveredConcat(p.role.handled, p.down, Addressed(sent, x));
      forall id | id in t'.sessions
        ensures SessionSound(t'.sessions[id], id, x, p.(down := p.down + Addressed(sent, x)))
      {
        ServerTurnSessions(t, ev, t', sent, x, p, id);
      }
    }
  }

  lemma TakenSound(t: Tables, x: Socket, p: Peer, outcome: Outcome)
    requires p.role.Native? && p.role.sender.starting.None? && p.down != [] && PeerSound(t, x, p)
    ensures PeerSound(t, x, Taken(p, outcome))
  {
  }

  lemma PeerStepSound(t: Tables, x: Socket, p: Peer, a: Action, p': Peer)
    requires PeerSound(t, x, p) && PeerStep(p, a, p')
    ensures PeerSound(t, x, p')
  {
    if a.Dequeue? {
      TakenSound(t, x, p, a.outcome);
    } else if p.role.Native? {
      forall id | id in t.sessions
        ensures SessionSound(t.sessions[id], id, x, p')
      {
        assert SessionSound(t.sessions[id], id, x, p);
      }
    }
  }

  lemma ServerActionSound(s: System, ev: Event, t': Tables, sent: seq<Envelope>, peers: map<Socket, Peer>, s': System)
    requires Sound(s) && Step(s.server, ev, t', sent) && s' == System(t', Deliver(peers, sent))
    requires peers.Keys == t'.sockets
    requires forall x | x in peers :: PeerSound(s.server, x, peers[x])
    requires IsRequest(ev) ==> ev.socket in peers && !peers[ev.socket].role.Native?
    ensures Sound(s')
  {
    CoherentStep(s.server, ev, t', sent);
    forall x | x in s'.peers
      ensures PeerSound(t', x, s'.peers[x])
    {
      ServerTurnKeepsPeer(s.server, ev, t', sent, x, peers[x]);
    }
  }

  lemma JoinSound(s: System, x: Socket, role: Role, s': System)
    requires Sound(s) && Next(s, Join(x, role), s')
    ensures Sound(s')
  {
  }

  lemma ServeSound(s: System, x: Socket, sent: seq<Envelope>, s': System)
    requires Sound(s) && Next(s, Serve(x, sent), s')
    ensures Sound(s')
  {
    var p := s.peers[x];
    assert p.up[0] in p.up && PeerSound(s.server, x, p);
    assert PeerSound(s.server, x, Popped(s.peers, x)[x]);
    ServerActionSound(s, Received(x, p.up[0]), s'.server, sent, Popped(s.peers, x), s');
  }

  lemma SoundNext(s: System, a: Action, s': System)
    requires Sound(s) && Next(s, a, s')
    ensures Sound(s')
  {
    match a
    case Join(x, role) => JoinSound(s, x, role, s');
    case Leave(x, sent) => ServerActionSound(s, Disconnected(x), s'.server, sent, s.peers - {x}, s');
    case Serve(x, sent) => ServeSound(s, x, sent, s');
    case _ =>
      var p' :| PeerStep(s.peers[a.socket], a, p') && s'.peers == s.peers[a.socket := p'];
      PeerStepSound(s.server, a.socket, s.peers[a.socket], a, p');
  }

  lemma {:induction false} HistoriesAreSound(h: History)
    requires IsHistory(h)
    ensures Sound(Now(h))
  {
    if h.Then? {
      HistoriesAreSound(h.before);
      SoundNext(Now(h.before), h.action, h.after);
    }
  }

  /**
    In every history each answer or candidate that a native sender takes from its channel names an id
    whose request it has already taken; the id is unknown to it only if that request's set-up failed.
  */
  lemma NativeSenderKnowsTheId(h: History)
    requires IsHistory(h) && h.Then? && h.action.Dequeue?
    ensures var p := Now(h.before).peers[h.action.socket];
            && p.role.Native? && p.down != []
            && (p.down[0].kind.Answer? || p.down[0].kind.Candidate? ==>
                  && p.down[0].id in p.role.handled
                  && (p.down[0].id !in p.role.sender.clients ==> p.down[0].id in p.role.failed))
  {
    HistoriesAreSound(h.before);
    var x := h.action.socket;
    assert PeerSound(Now(h.before).server, x, Now(h.before).peers[x]);
  }

  /** Every offer on its way from a native sender names an id in its client table. */
  lemma OffersNameStoredClients(h: History, x: Socket)
    requires IsHistory(h) && x in Now(h).peers && Now(h).peers[x].role.Native?
    ensures forall f | f in Now(h).peers[x].up && f.Json? && f.msg.kind.Offer? ::
              f.msg.id in Now(h).peers[x].role.sender.clients
    ensures forall f | f in Now(h).peers[x].up :: !IsRequestFrame(f)
  {
    HistoriesAreSound(h);
    assert PeerSound(Now(h).server, x, Now(h).peers[x]);
  }

  /** A request answered with a set-up error stores nothing, queues nothing and puts one error on the wire. */
  lemma FailedSetupStoresNothing(p: Peer, a: Action, p': Peer)
    requires PeerStep(p, a, p') && a.Dequeue? && p.down[0].kind.Request? && !a.outcome.InitOk?
    ensures p'.role.sender == p.role.sender
    ensures var reason := if a.outcome.NoCapture? then CaptureUnavailable else SenderInitFailed;
            p'.up == p.up + [Json(Message(Error, p.down[0].id, Failure(reason)))]
    ensures p'.role.failed == p.role.failed + {p.down[0].id}
  {
  }
}
