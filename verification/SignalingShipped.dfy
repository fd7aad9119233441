/**
  The two clients the repository ships, the native sender and the web page, never cause a double
  booking and keep discipline B by themselves: in a system without other clients the tables are always paired
  and senders are never shared, with no assumption left about what the clients do.
*/
module SignalingShipped {
  import opened Common
  import opened SignalingTables
  import opened SignalingInvariants
  import opened NativeSender
  import opened SignalingSystem

  function Natives(peers: map<Socket, Peer>): set<Socket> {
    set x | x in peers && peers[x].role.Native?
  }

  /** All requests of a page carry the one id it asked for, and that is the only session it can be in. */
  predicate PageSound(t: Tables, x: Socket, p: Peer) {
    p.role.Web? ==>
      && (forall f | f in p.up ::
            f.Json? && !f.msg.kind.SenderReady? && (f.msg.kind.Request? ==> p.role.asked == Some(f.msg.id)))
      && (x in t.index ==> p.role.asked == Some(t.index[x]))
  }

  ghost predicate Tidy(s: System) {
    && Sound(s)
    && Paired(s.server)
    && Owned(s.server, Natives(s.peers))
    && PagesSound(s.server, s.peers)
  }

  ghost predicate PagesSound(t: Tables, peers: map<Socket, Peer>) {
    forall x | x in peers :: PageSound(t, x, peers[x])
  }

  /** Nobody but native senders and pages ever joins. */
  ghost predicate OnlyShipped(h: History) {
    h.Then? ==> OnlyShipped(h.before) && (h.action.Join? ==> !h.action.role.Other?)
  }

  ghost predicate NoOthers(s: System) {
    forall x | x in s.peers :: !s.peers[x].role.Other?
  }

  lemma OwnedByOther(t: Tables, S: set<Socket>, S': set<Socket>)
    requires Owned(t, S) && t.ready <= S' && (S' - S) !! t.sockets
    ensures Owned(t, S')
  {
  }

  /** Only a ready sender and the requester can enter the index, the latter under the id it names. */
  lemma NewlyIndexed(t: Tables, ev: Event, t': Tables, sent: seq<Envelope>, y: Socket)
    requires Coherent(t) && Step(t, ev, t', sent) && y in t'.index
    ensures
      || (y in t.index && t'.index[y] == t.index[y])
      || y in t.ready
      || (IsRequest(ev) && y == ev.socket && t'.index[y] == ev.frame.msg.id)
  {
  }

  lemma NativesDeliver(peers: map<Socket, Peer>, sent: seq<Envelope>)
    ensures Natives(Deliver(peers, sent)) == Natives(peers)
  {
  }

  lemma NativesUpdate(peers: map<Socket, Peer>, x: Socket, p: Peer)
    requires x in peers && p.role.Native? == peers[x].role.Native?
    ensures Natives(peers[x := p]) == Natives(peers)
  {
  }

  lemma NativesLeave(peers: map<Socket, Peer>, x: Socket)
    ensures Natives(peers - {x}) == Natives(peers) - {x}
  {
  }

  lemma PagesDeliver(t: Tables, peers: map<Socket, Peer>, sent: seq<Envelope>)
    requires PagesSound(t, peers)
    ensures PagesSound(t, Deliver(peers, sent))
  {
  }

  /** What the server may be asked to do next respects the roles and never books a socket twice. */
  lemma ServedRoles(s: System, x: Socket)
    requires Tidy(s) && NoOthers(s) && x in s.peers && s.peers[x].up != []
    ensures var ev := Received(x, s.peers[x].up[0]);
            RespectsRoles(ev, Natives(s.peers)) && !DoubleBooking(s.server, ev)
  {
    var p := s.peers[x];
    assert p.up[0] in p.up && PageSound(s.server, x, p) && PeerSound(s.server, x, p);
    assert x in s.server.index ==> Filed(s.server, x);
  }

  lemma ServeTables(s: System, x: Socket, t': Tables, sent: seq<Envelope>)
    requires Tidy(s) && NoOthers(s) && x in s.peers && s.peers[x].up != []
    requires Step(s.server, Received(x, s.peers[x].up[0]), t', sent)
    ensures Paired(t') && Owned(t', Natives(s.peers))
  {
    ServedRoles(s, x);
    PairedUnlessDoubleBooking(s.server, Received(x, s.peers[x].up[0]), t', sent);
    OwnedStep(s.server, Received(x, s.peers[x].up[0]), t', sent, Natives(s.peers));
  }

  lemma ServePages(s: System, x: Socket, t': Tables, sent: seq<Envelope>)
    requires Tidy(s) && x in s.peers && s.peers[x].up != []
    requires Step(s.server, Received(x, s.peers[x].up[0]), t', sent)
    ensures PagesSound(t', Popped(s.peers, x))
  {
    var popped := Popped(s.peers, x);
    forall y | y in popped
      ensures PageSound(t', y, popped[y])
    {
      assert PageSound(s.server, y, s.peers[y]);
      if popped[y].role.Web? && y in t'.index {
        assert s.peers[x].up[0] in s.peers[x].up;
        NewlyIndexed(s.server, Received(x, s.peers[x].up[0]), t', sent, y);
      }
    }
  }

  lemma ServeTidy(s: System, x: Socket, sent: seq<Envelope>, s': System)
    requires Tidy(s) && NoOthers(s) && Next(s, Serve(x, sent), s')
    ensures Tidy(s')
  {
    SoundNext(s, Serve(x, sent), s');
    ServeTables(s, x, s'.server, sent);
    ServePages(s, x, s'.server, sent);
    NativesUpdate(s.peers, x, Popped(s.peers, x)[x]);
    NativesDeliver(Popped(s.peers, x), sent);
    PagesDeliver(s'.server, Popped(s.peers, x), sent);
  }

  lemma LeaveOwned(t: Tables, x: Socket, S: set<Socket>)
    requires Owned(t, S) && x in t.sockets
    ensures Owned(Disconnect(t, x), S - {x})
  {
    OwnedStep(t, Disconnected(x), Disconnect(t, x), DisconnectSent(t, x), S);
    OwnedByOther(Disconnect(t, x), S, S - {x});
  }

  lemma LeaveTables(s: System, x: Socket, t': Tables, sent: seq<Envelope>)
    requires Tidy(s) && Step(s.server, Disconnected(x), t', sent)
    ensures Paired(t') && Owned(t', Natives(s.peers - {x}))
  {
    PairedUnlessDoubleBooking(s.server, Disconnected(x), t', sent);
    LeaveOwned(s.server, x, Natives(s.peers));
    NativesLeave(s.peers, x);
  }

  lemma LeavePages(s: System, x: Socket, t': Tables)
    requires Tidy(s) && forall y | y in t'.index :: y in s.server.index && t'.index[y] == s.server.index[y]
    ensures PagesSound(t', s.peers - {x})
  {
    forall y | y in s.peers - {x}
      ensures PageSound(t', y, (s.peers - {x})[y])
    {
      assert PageSound(s.server, y, s.peers[y]);
    }
  }

  lemma LeaveTidy(s: System, x: Socket, sent: seq<Envelope>, s': System)
    requires Tidy(s) && Next(s, Leave(x, sent), s')
    ensures Tidy(s')
  {
    SoundNext(s, Leave(x, sent), s');
    LeaveTables(s, x, s'.server, sent);
    LeavePages(s, x, s'.server);
    NativesDeliver(s.peers - {x}, sent);
    PagesDeliver(s'.server, s.peers - {x}, sent);
  }

  lemma JoinTables(s: System, x: Socket, t': Tables, S': set<Socket>)
    requires Tidy(s) && Step(s.server, Connected(x), t', []) && Natives(s.peers) <= S' <= Natives(s.peers) + {x}
    ensures Paired(t') && Owned(t', S')
  {
    PairedUnlessDoubleBooking(s.server, Connected(x), t', []);
    assert (S' - Natives(s.peers)) !! s.server.sockets;
    OwnedByOther(s.server, Natives(s.peers), S');
    OwnedStep(s.server, Connected(x), t', [], S');
  }

  lemma JoinPages(s: System, x: Socket, role: Role, t': Tables)
    requires Tidy(s) && Step(s.server, Connected(x), t', []) && Initial(role)
    ensures PagesSound(t', s.peers[x := Peer(role, [], [])])
  {
  }

  lemma JoinTidy(s: System, x: Socket, role: Role, s': System)
    requires Tidy(s) && Next(s, Join(x, role), s')
    ensures Tidy(s')
  {
    SoundNext(s, Join(x, role), s');
    JoinPages(s, x, role, s'.server);
    JoinTables(s, x, s'.server, Natives(s'.peers));
  }

  lemma LocalPages(t: Tables, peers: map<Socket, Peer>, a: Action, p': Peer)
    requires a.socket in peers && PagesSound(t, peers) && PeerStep(peers[a.socket], a, p')
             && !peers[a.socket].role.Other?
    ensures PagesSound(t, peers[a.socket := p'])
  {
  }

  lemma LocalTidy(s: System, a: Action, s': System)
    requires Tidy(s) && NoOthers(s) && Next(s, a, s') && !a.Join? && !a.Leave? && !a.Serve?
    ensures Tidy(s')
  {
    SoundNext(s, a, s');
    var p' :| PeerStep(s.peers[a.socket], a, p') && s'.peers == s.peers[a.socket := p'];
    NativesUpdate(s.peers, a.socket, p');
    LocalPages(s.server, s.peers, a, p');
  }

  lemma NoOthersNext(s: System, a: Action, s': System)
    requires NoOthers(s) && Next(s, a, s') && (a.Join? ==> !a.role.Other?)
    ensures NoOthers(s')
  {
    match a
    case Join(_, _) =>
    case Leave(_, _) =>
    case Serve(_, _) =>
    case _ =>
  }

  lemma TidyNext(s: System, a: Action, s': System)
    requires Tidy(s) && NoOthers(s) && Next(s, a, s')
    ensures Tidy(s')
  {
    if a.Join? {
      JoinTidy(s, a.socket, a.role, s');
    } else if a.Leave? {
      LeaveTidy(s, a.socket, a.sent, s');
    } else if a.Serve? {
      ServeTidy(s, a.socket, a.sent, s');
    } else {
      LocalTidy(s, a, s');
    }
  }

  lemma {:induction false} ShippedHistoriesAreTidy(h: History)
    requires IsHistory(h) && OnlyShipped(h)
    ensures Tidy(SignalingSystem.Now(h)) && NoOthers(SignalingSystem.Now(h))
  {
    if h.Then? {
      ShippedHistoriesAreTidy(h.before);
      TidyNext(SignalingSystem.Now(h.before), h.action, h.after);
      NoOthersNext(SignalingSystem.Now(h.before), h.action, h.after);
    } else {
      assert Natives(BOOT.peers) == {} && Idle(EMPTY) == {};
    }
  }

  /**
    With the shipped clients alone, in every reachable state: the index is the inverse of the session
    table, each session joins a native sender and a page, and no sender is in two sessions.
  */
  lemma ShippedClientsKeepBothDisciplines(h: History)
    requires IsHistory(h) && OnlyShipped(h)
    ensures var s := SignalingSystem.Now(h); var t := s.server;
            && Paired(t)
            && |t.ready| == |t.sessions| + |Idle(t)|
            && (forall id | id in t.sessions :: JoinsSenderAndPage(s, t.sessions[id]))
            && (forall i, j | i in t.sessions && j in t.sessions && t.sessions[i].sender == t.sessions[j].sender ::
                i == j)
  {
    ShippedHistoriesAreTidy(h);
    var s := SignalingSystem.Now(h);
    OwnedMeansExclusive(s.server, Natives(s.peers));
    forall id | id in s.server.sessions
      ensures JoinsSenderAndPage(s, s.server.sessions[id])
    {
      assert Held(s.server, Natives(s.peers), id) && Mirrored(s.server, id);
    }
  }

  // ---------------------------------------------------------------- the server's own view of a history

  /** The run of the server that a history of the whole system contains. */
  function ServerRun(h: History): Run {
    if h.Begun? then Start
    else
      var r := ServerRun(h.before);
      match h.action
      case Join(x, _) => Run.Then(r, Connected(x), [], h.after.server)
      case Leave(x, sent) => Run.Then(r, Disconnected(x), sent, h.after.server)
      case Serve(x, sent) =>
        var s := SignalingSystem.Now(h.before);
        if x in s.peers && s.peers[x].up != [] then Run.Then(r, Received(x, s.peers[x].up[0]), sent, h.after.server)
        else r
      case _ => r
  }

  lemma {:induction false} ServerRunIsRun(h: History)
    requires IsHistory(h)
    ensures IsRun(ServerRun(h)) && SignalingInvariants.Now(ServerRun(h)) == SignalingSystem.Now(h).server
  {
    if h.Then? {
      ServerRunIsRun(h.before);
    }
  }

  /** So every theorem about runs without double booking speaks about the shipped system, without assumption. */
  lemma {:induction false} ShippedRunsNeverDoubleBook(h: History)
    requires IsHistory(h) && OnlyShipped(h)
    ensures IsRun(ServerRun(h)) && NoDoubleBooking(ServerRun(h))
  {
    ServerRunIsRun(h);
    if h.Then? {
      ShippedRunsNeverDoubleBook(h.before);
      ServerRunIsRun(h.before);
      ShippedHistoriesAreTidy(h.before);
      if h.action.Serve? {
        ServedRoles(SignalingSystem.Now(h.before), h.action.socket);
      }
    }
  }

  predicate JoinsSenderAndPage(s: System, b: Binding) {
    && b.sender.Some? && b.sender.value in s.peers && s.peers[b.sender.value].role.Native?
    && b.receiver.Some? && b.receiver.value in s.peers && s.peers[b.receiver.value].role.Web?
  }
}
