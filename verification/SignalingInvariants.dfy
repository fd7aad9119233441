/**
  What the session tables of the signaling server satisfy in every run: for any clients,
  without double booking (discipline A is enough), and for clients that never both announce
  and request (discipline B).
*/
module SignalingInvariants {
  import opened Common
  import opened SignalingTables

  /** A run, newest event last: what happened, what the server sent, and the tables afterwards. */
  datatype Run = Start | Then(before: Run, event: Event, sent: seq<Envelope>, after: Tables)

  function Now(run: Run): Tables {
    if run.Start? then EMPTY else run.after
  }

  ghost predicate IsRun(run: Run) {
    run.Then? ==> IsRun(run.before) && Step(Now(run.before), run.event, run.after, run.sent)
  }

  // ---------------------------------------------------------------- any clients

  /** Holds whatever the clients do. */
  ghost predicate Coherent(t: Tables) {
    && t.ready <= t.sockets
    && t.index.Keys <= t.sockets
    && "" !in t.sessions
    && (forall x | x in t.index :: Filed(t, x))
    && (forall id | id in t.sessions :: EndsConnected(t, t.sessions[id]))
  }

  ghost predicate Filed(t: Tables, x: Socket)
    requires x in t.index
  {
    t.index[x] in t.sessions && Endpoint(t.sessions[t.index[x]], x)
  }

  ghost predicate EndsConnected(t: Tables, b: Binding) {
    && Ends(b) <= t.sockets
    && (b.sender.Some? ==> b.sender != b.receiver)
  }

  lemma CoherentAfterBind(t: Tables, s: Socket, r: Socket, id: string)
    requires Coherent(t) && Eligible(t, r, s) && r in t.sockets && id != "" && id !in t.sessions
    ensures Coherent(Bind(t, s, r, id))
  {
  }

  /** The session that the disconnect of x takes away; the others only forget x. */
  lemma DisconnectSessions(t: Tables, x: Socket)
    requires Coherent(t)
    ensures x in t.index ==> TakenId(t, x) == t.index[x] && TakenBinding(t, x) == t.sessions[t.index[x]]
    ensures Disconnect(t, x).sessions == ForgetAll(if x in t.index then t.sessions - {t.index[x]} else t.sessions, x)
  {
  }

  lemma FiledAfterDisconnect(t: Tables, x: Socket, y: Socket)
    requires Coherent(t) && y in Disconnect(t, x).index
    ensures Filed(Disconnect(t, x), y)
  {
  }

  lemma EndsAfterDisconnect(t: Tables, x: Socket, i: string)
    requires Coherent(t) && i in Disconnect(t, x).sessions
    ensures EndsConnected(Disconnect(t, x), Disconnect(t, x).sessions[i])
  {
  }

  lemma CoherentAfterDisconnect(t: Tables, x: Socket)
    requires Coherent(t) && x in t.sockets
    ensures Coherent(Disconnect(t, x))
  {
    var t' := Disconnect(t, x);
    forall y | y in t'.index
      ensures Filed(t', y)
    {
      FiledAfterDisconnect(t, x, y);
    }
    forall i | i in t'.sessions
      ensures EndsConnected(t', t'.sessions[i])
    {
      EndsAfterDisconnect(t, x, i);
    }
  }

  lemma CoherentStep(t: Tables, ev: Event, t': Tables, sent: seq<Envelope>)
    requires Coherent(t) && Step(t, ev, t', sent)
    ensures Coherent(t')
  {
    if ev.Disconnected? {
      CoherentAfterDisconnect(t, ev.socket);
    } else if t'.sessions != t.sessions {
      var r, m := ev.socket, ev.frame.msg;
      var s :| Eligible(t, r, s) && t' == Bind(t, s, r, m.id) && sent == [Envelope(s, m)];
      CoherentAfterBind(t, s, r, m.id);
    } else if !IsRequest(ev) {
      SameSessions(t, t');
    }
  }

  /** Connecting sockets or announcing senders keeps a coherent pair of tables coherent. */
  lemma SameSessions(t: Tables, t': Tables)
    requires Coherent(t) && t'.sessions == t.sessions && t'.index == t.index
    requires t.sockets <= t'.sockets && t'.ready <= t'.sockets
    ensures Coherent(t')
  {
  }

  lemma {:induction false} EveryRunIsCoherent(run: Run)
    requires IsRun(run)
    ensures Coherent(Now(run))
  {
    if run.Then? {
      EveryRunIsCoherent(run.before);
      CoherentStep(Now(run.before), run.event, run.after, run.sent);
    }
  }

  // ---------------------------------------------------------------- double booking and discipline A

  /** Every session has both ends and the index has exactly these two entries for it. */
  ghost predicate Paired(t: Tables) {
    && Coherent(t)
    && AllMirrored(t)
    && |t.index| == 2 * |t.sessions|
  }

  ghost predicate AllMirrored(t: Tables) {
    forall id | id in t.sessions :: Mirrored(t, id)
  }

  ghost predicate Mirrored(t: Tables, id: string)
    requires id in t.sessions
  {
    var b := t.sessions[id];
    && b.sender.Some? && b.sender.value in t.index && t.index[b.sender.value] == id
    && b.receiver.Some? && b.receiver.value in t.index && t.index[b.receiver.value] == id
  }

  /** A bound socket asks for, and is about to get, a second session. */
  ghost predicate DoubleBooking(t: Tables, ev: Event) {
    IsRequest(ev) && ev.socket in t.index && Acceptable(t, ev.socket, ev.frame.msg.id)
  }

  ghost predicate NoDoubleBooking(run: Run) {
    run.Then? ==> NoDoubleBooking(run.before) && !DoubleBooking(Now(run.before), run.event)
  }

  /** No socket sends a request while the index has it in a session. */
  ghost predicate DisciplineA(run: Run) {
    run.Then? ==>
      DisciplineA(run.before) && (IsRequest(run.event) ==> run.event.socket !in Now(run.before).index)
  }

  /** Paired in every state of the run. */
  ghost predicate PairedThroughout(run: Run) {
    Paired(Now(run)) && (run.Then? ==> PairedThroughout(run.before))
  }

  lemma PairedMeansInverse(t: Tables, x: Socket, id: string)
    requires Paired(t)
    ensures x in t.index && t.index[x] == id <==> id in t.sessions && Endpoint(t.sessions[id], x)
  {
  }

  lemma MirroredAfterBind(t: Tables, s: Socket, r: Socket, id: string)
    requires AllMirrored(t) && s != r && s !in t.index && r !in t.index
    ensures AllMirrored(Bind(t, s, r, id))
  {
  }

  lemma CountAfterBind(t: Tables, s: Socket, r: Socket, id: string)
    requires s != r && s !in t.index && r !in t.index && id !in t.sessions
    ensures |Bind(t, s, r, id).index| == |t.index| + 2 && |Bind(t, s, r, id).sessions| == |t.sessions| + 1
  {
  }

  lemma PairedAfterBind(t: Tables, s: Socket, r: Socket, id: string)
    requires Paired(t) && Eligible(t, r, s) && r in t.sockets && r !in t.index && id != "" && id !in t.sessions
    ensures Paired(Bind(t, s, r, id))
  {
    CoherentAfterBind(t, s, r, id);
    MirroredAfterBind(t, s, r, id);
    CountAfterBind(t, s, r, id);
  }

  /** In paired tables the disconnect of a bound socket removes its session and both index entries. */
  lemma DisconnectBound(t: Tables, x: Socket)
    requires Paired(t) && x in t.index
    ensures var t' := Disconnect(t, x); var id := t.index[x]; var b := t.sessions[id];
            && Partner(b, x).Some?
            && t'.sessions == t.sessions - {id}
            && t'.index == t.index - {x, Partner(b, x).value}
            && DisconnectSent(t, x) == [PeerDisconnectedTo(Partner(b, x).value, id)]
  {
  }

  lemma NobodyElse(t: Tables, x: Socket)
    requires Paired(t)
    ensures forall i | i in t.sessions :: (x in t.index && i == t.index[x]) || Forget(t.sessions[i], x) == t.sessions[i]
  {
  }

  /** Taking one session and its two index entries out leaves the rest mirrored. */
  lemma MirroredWithout(t: Tables, t': Tables, id: string, x: Socket, y: Socket)
    requires AllMirrored(t) && id in t.sessions && t.index.Keys >= {x, y} && t.index[x] == id && t.index[y] == id
    requires t'.sessions == t.sessions - {id} && t'.index == t.index - {x, y}
    ensures AllMirrored(t')
  {
  }

  lemma CountWithout(t: Tables, t': Tables, id: string, x: Socket, y: Socket)
    requires id in t.sessions && x in t.index && y in t.index && x != y
    requires t'.sessions == t.sessions - {id} && t'.index == t.index - {x, y}
    ensures |t'.index| == |t.index| - 2 && |t'.sessions| == |t.sessions| - 1
  {
  }

  lemma SameMirrored(t: Tables, t': Tables)
    requires Paired(t) && t'.sessions == t.sessions && t'.index == t.index && Coherent(t')
    ensures Paired(t')
  {
  }

  lemma ForgetNothing(sessions: map<string, Binding>, x: Socket)
    requires forall i | i in sessions :: Forget(sessions[i], x) == sessions[i]
    ensures ForgetAll(sessions, x) == sessions
  {
  }

  lemma TakeNothing(t: Tables, x: Socket)
    requires x !in t.index
    ensures Disconnect(t, x).sessions == ForgetAll(t.sessions, x) && Disconnect(t, x).index == t.index
    ensures DisconnectSent(t, x) == []
  {
  }

  lemma UnboundDisconnect(t: Tables, x: Socket)
    requires Paired(t) && x !in t.index
    ensures Disconnect(t, x).sessions == t.sessions && Disconnect(t, x).index == t.index
    ensures DisconnectSent(t, x) == []
  {
    NobodyElse(t, x);
    ForgetNothing(t.sessions, x);
    TakeNothing(t, x);
  }

  lemma MirroredAfterDisconnect(t: Tables, x: Socket)
    requires Paired(t) && x in t.index
    ensures AllMirrored(Disconnect(t, x)) && |Disconnect(t, x).index| == 2 * |Disconnect(t, x).sessions|
  {
    BoundPair(t, x);
    DisconnectBound(t, x);
    var y := Partner(t.sessions[t.index[x]], x).value;
    MirroredWithout(t, Disconnect(t, x), t.index[x], x, y);
    CountWithout(t, Disconnect(t, x), t.index[x], x, y);
  }

  lemma PairedAfterDisconnect(t: Tables, x: Socket)
    requires Paired(t) && x in t.sockets
    ensures Paired(Disconnect(t, x))
  {
    var t' := Disconnect(t, x);
    CoherentAfterDisconnect(t, x);
    if x in t.index {
      MirroredAfterDisconnect(t, x);
    } else {
      UnboundDisconnect(t, x);
      SameMirrored(t, t');
    }
  }

  lemma BoundPair(t: Tables, x: Socket)
    requires Paired(t) && x in t.index
    ensures var b := t.sessions[t.index[x]];
            && Partner(b, x).Some? && Partner(b, x).value in t.sockets && Partner(b, x).value != x
            && Partner(b, x).value in t.index && t.index[Partner(b, x).value] == t.index[x]
  {
  }

  /** Exactly one kind of event can break the pairing: the accepted request of a bound socket. */
  lemma PairedUnlessDoubleBooking(t: Tables, ev: Event, t': Tables, sent: seq<Envelope>)
    requires Paired(t) && Step(t, ev, t', sent)
    ensures Paired(t') <==> !DoubleBooking(t, ev)
  {
    if ev.Disconnected? {
      PairedAfterDisconnect(t, ev.socket);
    } else if IsRequest(ev) && Acceptable(t, ev.socket, ev.frame.msg.id) {
      var r, id := ev.socket, ev.frame.msg.id;
      var s :| Eligible(t, r, s) && t' == Bind(t, s, r, id) && sent == [Envelope(s, ev.frame.msg)];
      if r in t.index {
        var i0 := t.index[r];
        assert Mirrored(t, i0) && i0 != id;
        assert t'.sessions[i0] == t.sessions[i0] && t'.index[r] == id;
        assert !Mirrored(t', i0);
      } else {
        PairedAfterBind(t, s, r, id);
      }
    } else {
      CoherentStep(t, ev, t', sent);
      SameMirrored(t, t');
    }
  }

  /** The index is the inverse of the session table throughout a run iff no event of it books a socket twice. */
  lemma {:induction false} PairedThroughoutIff(run: Run)
    requires IsRun(run)
    ensures PairedThroughout(run) <==> NoDoubleBooking(run)
  {
    if run.Then? {
      PairedThroughoutIff(run.before);
      if PairedThroughout(run.before) {
        PairedUnlessDoubleBooking(Now(run.before), run.event, run.after, run.sent);
      }
    }
  }

  /** Discipline A is enough. */
  lemma {:induction false} DisciplineAKeepsPairing(run: Run)
    requires IsRun(run) && DisciplineA(run)
    ensures NoDoubleBooking(run) && PairedThroughout(run)
  {
    if run.Then? {
      DisciplineAKeepsPairing(run.before);
    }
    PairedThroughoutIff(run);
  }

  /** Each disconnect of a bound socket tells the one survivor, once; an unbound one tells nobody. */
  lemma DisconnectTellsTheSurvivor(run: Run)
    requires IsRun(run) && NoDoubleBooking(run) && run.Then? && run.event.Disconnected?
    ensures var t, x := Now(run.before), run.event.socket;
            if x in t.index then
              && t.index[x] in t.sessions
              && Partner(t.sessions[t.index[x]], x).Some?
              && Partner(t.sessions[t.index[x]], x).value in run.after.sockets
              && run.sent == [Envelope(Partner(t.sessions[t.index[x]], x).value,
                                       Message(PeerDisconnected, t.index[x], Payload("")))]
            else run.sent == []
  {
    PairedThroughoutIff(run.before);
    var t, x := Now(run.before), run.event.socket;
    if x in t.index {
      BoundPair(t, x);
      DisconnectBound(t, x);
    } else {
      UnboundDisconnect(t, x);
    }
  }

  /** A request acts iff its id is usable and a free sender other than the requester exists. */
  lemma RequestActsIffAcceptable(t: Tables, r: Socket, m: Message, t': Tables, sent: seq<Envelope>)
    requires m.kind.Request? && Step(t, Received(r, Json(m)), t', sent)
    ensures t' != t <==> m.id != "" && m.id !in t.sessions && exists s :: s in t.ready && s != r && s !in t.index
    ensures |sent| == 1 && (t' == t <==> sent[0].to == r && sent[0].msg.kind == Error)
    ensures t' != t ==> && t'.sockets == t.sockets && t'.ready == t.ready && sent[0].msg == m
                        && sent[0].to in t.ready && sent[0].to != r && sent[0].to !in t.index
  {
    assert forall s :: Eligible(t, r, s) <==> s in t.ready && s != r && s !in t.index;
  }

  lemma BindThenRemove(t: Tables, s: Socket, r: Socket, id: string)
    requires s !in t.index && r !in t.index && id !in t.sessions
    ensures Bind(t, s, r, id).sessions - {id} == t.sessions && Bind(t, s, r, id).index - {r, s} == t.index
  {
  }

  /** Accepting a request and losing its receiver gives the tables back and frees the sender. */
  lemma AcceptThenReceiverLeaves(t: Tables, r: Socket, m: Message, t1: Tables, sent1: seq<Envelope>,
                                 t2: Tables, sent2: seq<Envelope>)
    requires Paired(t) && r !in t.index
    requires m.kind.Request? && Step(t, Received(r, Json(m)), t1, sent1) && Acceptable(t, r, m.id)
    requires Step(t1, Disconnected(r), t2, sent2)
    ensures t2 == t.(sockets := t.sockets - {r}, ready := t.ready - {r})
    ensures sent1 == [Envelope(sent1[0].to, m)] && sent2 == [PeerDisconnectedTo(sent1[0].to, m.id)]
    ensures sent1[0].to in t2.ready && sent1[0].to !in t2.index
  {
    var s :| Eligible(t, r, s) && t1 == Bind(t, s, r, m.id) && sent1 == [Envelope(s, m)];
    PairedAfterBind(t, s, r, m.id);
    DisconnectBound(t1, r);
    BindThenRemove(t, s, r, m.id);
  }

  // ---------------------------------------------------------------- discipline B

  function Idle(t: Tables): set<Socket> {
    set s | s in t.ready && s !in t.index
  }

  /** S contains every socket that announces itself and no socket that requests. */
  ghost predicate Owned(t: Tables, S: set<Socket>) {
    && Coherent(t)
    && t.ready <= S
    && AllHeld(t, S)
    && |t.ready| == |t.sessions| + |Idle(t)|
  }

  ghost predicate AllHeld(t: Tables, S: set<Socket>) {
    forall id | id in t.sessions :: Held(t, S, id)
  }

  ghost predicate Held(t: Tables, S: set<Socket>, id: string)
    requires id in t.sessions
  {
    var b := t.sessions[id];
    && b.sender.Some? && b.sender.value in t.ready
    && b.sender.value in t.index && t.index[b.sender.value] == id
    && (b.receiver.Some? ==> b.receiver.value !in S)
  }

  ghost predicate RespectsRoles(ev: Event, S: set<Socket>) {
    && (IsAnnouncement(ev) ==> ev.socket in S)
    && (IsRequest(ev) ==> ev.socket !in S)
  }

  function Announcers(run: Run): set<Socket> {
    if run.Start? then {}
    else Announcers(run.before) + if IsAnnouncement(run.event) then {run.event.socket} else {}
  }

  function Requesters(run: Run): set<Socket> {
    if run.Start? then {}
    else Requesters(run.before) + if IsRequest(run.event) then {run.event.socket} else {}
  }

  /** No socket of the run both announces itself and requests. */
  ghost predicate DisciplineB(run: Run) {
    Announcers(run) !! Requesters(run)
  }

  lemma HeldAfterBind(t: Tables, s: Socket, r: Socket, id: string, S: set<Socket>)
    requires AllHeld(t, S) && t.ready <= S && Eligible(t, r, s) && r !in S
    ensures AllHeld(Bind(t, s, r, id), S)
  {
  }

  lemma IdleAfterBind(t: Tables, s: Socket, r: Socket, id: string)
    requires Eligible(t, r, s) && r !in t.ready && id !in t.sessions
    ensures |Idle(Bind(t, s, r, id))| == |Idle(t)| - 1 && |Bind(t, s, r, id).sessions| == |t.sessions| + 1
  {
    var t' := Bind(t, s, r, id);
    assert t'.sessions.Keys == t.sessions.Keys + {id};
    assert s in Idle(t) && Idle(t') == Idle(t) - {s};
  }

  lemma OwnedAfterBind(t: Tables, s: Socket, r: Socket, id: string, S: set<Socket>)
    requires Owned(t, S) && Eligible(t, r, s) && r in t.sockets && r !in S && id != "" && id !in t.sessions
    ensures Owned(Bind(t, s, r, id), S)
  {
    CoherentAfterBind(t, s, r, id);
    HeldAfterBind(t, s, r, id, S);
    IdleAfterBind(t, s, r, id);
  }

  /** A bound socket is either the sender of its session or the non-announcing receiver. */
  lemma BoundRole(t: Tables, x: Socket, S: set<Socket>)
    requires Owned(t, S) && x in t.index
    ensures t.index[x] in t.sessions && Endpoint(t.sessions[t.index[x]], x) && Held(t, S, t.index[x])
    ensures t.sessions[t.index[x]].sender == Some(x) <==> x in t.ready
    ensures t.sessions[t.index[x]].sender != t.sessions[t.index[x]].receiver
  {
  }

  lemma HeldAfterDisconnect(t: Tables, x: Socket, S: set<Socket>)
    requires Owned(t, S)
    ensures AllHeld(Disconnect(t, x), S)
  {
    forall i | i in Disconnect(t, x).sessions
      ensures Held(Disconnect(t, x), S, i)
    {
      HeldStays(t, x, S, i);
    }
  }

  lemma HeldStays(t: Tables, x: Socket, S: set<Socket>, i: string)
    requires Owned(t, S) && i in Disconnect(t, x).sessions
    ensures Held(Disconnect(t, x), S, i)
  {
    DisconnectSessions(t, x);
    assert i in t.sessions && Held(t, S, i);
    if x in t.index {
      BoundRole(t, x, S);
      assert i != t.index[x];
    } else {
      TakeNothing(t, x);
    }
  }

  lemma IdleWithoutUnbound(t: Tables, x: Socket)
    requires Coherent(t) && x !in t.index && |t.ready| == |t.sessions| + |Idle(t)|
    ensures var t' := Disconnect(t, x); |t'.ready| == |t'.sessions| + |Idle(t')|
  {
    var t' := Disconnect(t, x);
    TakeNothing(t, x);
    ForgetKeepsCount(t.sessions, x);
    IdleShrinks(t, t', x);
  }

  lemma ForgetKeepsCount(sessions: map<string, Binding>, x: Socket)
    ensures |ForgetAll(sessions, x)| == |sessions|
  {
    assert ForgetAll(sessions, x).Keys == sessions.Keys;
  }

  lemma IdleShrinks(t: Tables, t': Tables, x: Socket)
    requires x !in t.index && t'.ready == t.ready - {x} && t'.index == t.index
    ensures |t'.ready| - |Idle(t')| == |t.ready| - |Idle(t)|
  {
    assert Idle(t') == Idle(t) - {x};
  }

  /** Dropping x with its session {s, r}: either the sender leaves, or it becomes idle again. */
  lemma IdleWithoutBound(t: Tables, t': Tables, id: string, s: Socket, gone: set<Socket>)
    requires id in t.sessions && s in t.ready && s in t.index && s in gone && gone * t.ready == {s}
    requires t'.sessions.Keys == t.sessions.Keys - {id} && t'.index == t.index - gone
    requires t'.ready == t.ready || t'.ready == t.ready - {s}
    requires |t.ready| == |t.sessions| + |Idle(t)|
    ensures |t'.ready| == |t'.sessions| + |Idle(t')|
  {
    assert |t'.sessions.Keys| == |t.sessions.Keys| - 1;
    if t'.ready == t.ready {
      assert Idle(t') == Idle(t) + {s};
    } else {
      assert Idle(t') == Idle(t);
    }
  }

  lemma BoundTake(t: Tables, x: Socket, S: set<Socket>)
    requires Owned(t, S) && x in t.index
    ensures var id := t.index[x]; var t' := Disconnect(t, x);
            && id in t.sessions && t.sessions[id].sender.Some?
            && var s := t.sessions[id].sender.value; var gone := Ends(t.sessions[id]);
               && s in t.ready && s in t.index && s in gone && gone * t.ready == {s}
               && t'.sessions.Keys == t.sessions.Keys - {id} && t'.index == t.index - gone
               && (t'.ready == t.ready || t'.ready == t.ready - {s})
  {
  }

  lemma IdleAfterDisconnect(t: Tables, x: Socket, S: set<Socket>)
    requires Owned(t, S)
    ensures var t' := Disconnect(t, x); |t'.ready| == |t'.sessions| + |Idle(t')|
  {
    if x in t.index {
      BoundTake(t, x, S);
      var b := t.sessions[t.index[x]];
      IdleWithoutBound(t, Disconnect(t, x), t.index[x], b.sender.value, Ends(b));
    } else {
      IdleWithoutUnbound(t, x);
    }
  }

  lemma IdleAfterAnnouncement(t: Tables, x: Socket)
    requires x in t.index ==> x in t.ready
    ensures var t' := t.(ready := t.ready + {x}); |t'.ready| - |Idle(t')| == |t.ready| - |Idle(t)|
  {
    var t' := t.(ready := t.ready + {x});
    if x in t.ready {
      assert t' == t;
    } else {
      assert Idle(t') == Idle(t) + {x};
    }
  }

  lemma AnnouncementTally(t: Tables, x: Socket, S: set<Socket>)
    requires Owned(t, S) && x in S
    ensures var t' := t.(ready := t.ready + {x}); AllHeld(t', S) && |t'.ready| == |t'.sessions| + |Idle(t')|
  {
    var t' := t.(ready := t.ready + {x});
    if x in t.index {
      BoundRole(t, x, S);
    }
    IdleAfterAnnouncement(t, x);
    forall i | i in t'.sessions
      ensures Held(t', S, i)
    {
      assert Held(t, S, i);
    }
  }

  lemma NewSocketTally(t: Tables, x: Socket, S: set<Socket>)
    requires Owned(t, S)
    ensures var t' := t.(sockets := t.sockets + {x}); AllHeld(t', S) && |t'.ready| == |t'.sessions| + |Idle(t')|
  {
  }

  lemma OwnedStep(t: Tables, ev: Event, t': Tables, sent: seq<Envelope>, S: set<Socket>)
    requires Owned(t, S) && Step(t, ev, t', sent) && RespectsRoles(ev, S)
    ensures Owned(t', S)
  {
    CoherentStep(t, ev, t', sent);
    if ev.Disconnected? {
      HeldAfterDisconnect(t, ev.socket, S);
      IdleAfterDisconnect(t, ev.socket, S);
    } else if ev.Connected? {
      NewSocketTally(t, ev.socket, S);
    } else if IsAnnouncement(ev) {
      AnnouncementTally(t, ev.socket, S);
    } else if IsRequest(ev) && Acceptable(t, ev.socket, ev.frame.msg.id) {
      var r, id := ev.socket, ev.frame.msg.id;
      var s :| Eligible(t, r, s) && t' == Bind(t, s, r, id) && sent == [Envelope(s, ev.frame.msg)];
      OwnedAfterBind(t, s, r, id, S);
    }
  }

  lemma {:induction false} OwnedInRun(run: Run, S: set<Socket>)
    requires IsRun(run) && Announcers(run) <= S && Requesters(run) !! S
    ensures Owned(Now(run), S)
  {
    if run.Then? {
      OwnedInRun(run.before, S);
      OwnedStep(Now(run.before), run.event, run.after, run.sent, S);
    }
  }

  ghost predicate SenderMapped(t: Tables, id: string)
    requires id in t.sessions
  {
    var s := t.sessions[id].sender;
    s.Some? && s.value in t.sockets && s.value in t.index && t.index[s.value] == id
  }

  /** Senders are never shared, the ready count adds up, and no sender means no session at all. */
  lemma DisciplineBKeepsSendersExclusive(run: Run)
    requires IsRun(run) && DisciplineB(run)
    ensures var t := Now(run);
            && (forall i, j | i in t.sessions && j in t.sessions && t.sessions[i].sender == t.sessions[j].sender ::
                i == j)
            && (forall i | i in t.sessions :: SenderMapped(t, i))
            && |t.ready| == |t.sessions| + |Idle(t)|
            && (t.sockets !! Announcers(run) ==> t.sessions == map[] && t.index == map[])
  {
    OwnedInRun(run, Announcers(run));
    OwnedMeansExclusive(Now(run), Announcers(run));
  }

  lemma OwnedMeansExclusive(t: Tables, S: set<Socket>)
    requires Owned(t, S)
    ensures forall i, j | i in t.sessions && j in t.sessions && t.sessions[i].sender == t.sessions[j].sender :: i == j
    ensures forall i | i in t.sessions :: SenderMapped(t, i)
    ensures t.sockets !! S ==> t.sessions == map[] && t.index == map[]
  {
  }

  // ---------------------------------------------------------------- one session at a time, exactly

  /** Every session's sender is connected and indexed under it; so no sender is in two sessions. */
  ghost predicate AllSendersMapped(t: Tables) {
    Coherent(t) && forall id | id in t.sessions :: SenderMapped(t, id)
  }

  ghost predicate SendsIn(t: Tables, x: Socket) {
    exists id :: id in t.sessions && t.sessions[id].sender == Some(x)
  }

  /** The receiver of the session that the disconnect of x will end. */
  function EndedReceiver(t: Tables, x: Socket): Option<Socket> {
    if x in t.index && t.index[x] in t.sessions then t.sessions[t.index[x]].receiver else None
  }

  /**
    The two events that take a sender out of the index while its session lasts: its own accepted request, and
    the end of another session that it is the receiver of.
  */
  ghost predicate UnmapsSender(t: Tables, ev: Event) {
    if ev.Disconnected? then
      var r := EndedReceiver(t, ev.socket);
      r.Some? && SendsIn(t, r.value)
    else
      IsRequest(ev) && SendsIn(t, ev.socket) && Acceptable(t, ev.socket, ev.frame.msg.id)
  }

  lemma MappedMeansExclusive(t: Tables)
    requires AllSendersMapped(t)
    ensures forall i, j | i in t.sessions && j in t.sessions && t.sessions[i].sender == t.sessions[j].sender :: i == j
  {
    forall i, j | i in t.sessions && j in t.sessions && t.sessions[i].sender == t.sessions[j].sender
      ensures i == j
    {
      assert SenderMapped(t, i) && SenderMapped(t, j);
    }
  }

  lemma MappedAfterBindIff(t: Tables, s: Socket, r: Socket, id: string)
    requires AllSendersMapped(t) && Eligible(t, r, s) && r in t.sockets && id != "" && id !in t.sessions
    ensures AllSendersMapped(Bind(t, s, r, id)) <==> !SendsIn(t, r)
  {
    var t' := Bind(t, s, r, id);
    CoherentAfterBind(t, s, r, id);
    if SendsIn(t, r) {
      var i :| i in t.sessions && t.sessions[i].sender == Some(r);
      assert t'.sessions[i] == t.sessions[i] && !SenderMapped(t', i);
    } else {
      forall i | i in t'.sessions
        ensures SenderMapped(t', i)
      {
        assert i != id ==> SenderMapped(t, i);
      }
    }
  }

  lemma SenderAfterDisconnect(t: Tables, x: Socket, i: string)
    requires AllSendersMapped(t) && i in Disconnect(t, x).sessions
    ensures i in t.sessions && t.sessions[i].sender.Some?
    ensures var s := t.sessions[i].sender.value;
            && s != x && Disconnect(t, x).sessions[i].sender == Some(s)
            && (SenderMapped(Disconnect(t, x), i) <==> EndedReceiver(t, x) != Some(s))
  {
    DisconnectSessions(t, x);
    assert SenderMapped(t, i);
  }

  lemma MappedAfterDisconnectIff(t: Tables, x: Socket)
    requires AllSendersMapped(t) && x in t.sockets
    ensures AllSendersMapped(Disconnect(t, x)) <==> !UnmapsSender(t, Disconnected(x))
  {
    var t' := Disconnect(t, x);
    CoherentAfterDisconnect(t, x);
    if UnmapsSender(t, Disconnected(x)) {
      var r := EndedReceiver(t, x).value;
      var i :| i in t.sessions && t.sessions[i].sender == Some(r);
      ReceiverSendsElsewhere(t, x, i);
      SenderAfterDisconnect(t, x, i);
    } else {
      forall i | i in t'.sessions
        ensures SenderMapped(t', i)
      {
        SenderAfterDisconnect(t, x, i);
      }
    }
  }

  /** The receiver of the ending session can only be the sender of another one, which stays. */
  lemma ReceiverSendsElsewhere(t: Tables, x: Socket, i: string)
    requires AllSendersMapped(t) && i in t.sessions && t.sessions[i].sender.Some?
    requires EndedReceiver(t, x) == t.sessions[i].sender
    ensures i in Disconnect(t, x).sessions
  {
    DisconnectSessions(t, x);
    assert SenderMapped(t, i) && Filed(t, x) && EndsConnected(t, t.sessions[t.index[x]]);
  }

  /** One step keeps every sender mapped to its session iff it is neither of the two. */
  lemma MappedUnlessUnmapped(t: Tables, ev: Event, t': Tables, sent: seq<Envelope>)
    requires AllSendersMapped(t) && Step(t, ev, t', sent)
    ensures AllSendersMapped(t') <==> !UnmapsSender(t, ev)
  {
    if ev.Disconnected? {
      MappedAfterDisconnectIff(t, ev.socket);
    } else if IsRequest(ev) && Acceptable(t, ev.socket, ev.frame.msg.id) {
      var r, id := ev.socket, ev.frame.msg.id;
      var s :| Eligible(t, r, s) && t' == Bind(t, s, r, id) && sent == [Envelope(s, ev.frame.msg)];
      MappedAfterBindIff(t, s, r, id);
    } else {
      CoherentStep(t, ev, t', sent);
      SameMapped(t, t');
    }
  }

  lemma SameMapped(t: Tables, t': Tables)
    requires AllSendersMapped(t) && Coherent(t')
    requires t'.sessions == t.sessions && t'.index == t.index && t.sockets <= t'.sockets
    ensures AllSendersMapped(t')
  {
    forall i | i in t'.sessions
      ensures SenderMapped(t', i)
    {
      assert SenderMapped(t, i);
    }
  }

  ghost predicate NeverUnmaps(run: Run) {
    run.Then? ==> NeverUnmaps(run.before) && !UnmapsSender(Now(run.before), run.event)
  }

  ghost predicate MappedThroughout(run: Run) {
    AllSendersMapped(Now(run)) && (run.Then? ==> MappedThroughout(run.before))
  }

  /** Every session's sender is mapped to it throughout a run iff no event of the run is one of the two. */
  lemma {:induction false} MappedThroughoutIff(run: Run)
    requires IsRun(run)
    ensures MappedThroughout(run) <==> NeverUnmaps(run)
  {
    if run.Then? {
      MappedThroughoutIff(run.before);
      if MappedThroughout(run.before) {
        MappedUnlessUnmapped(Now(run.before), run.event, run.after, run.sent);
      }
    }
  }

  lemma PairedSender(t: Tables, x: Socket)
    requires Paired(t) && SendsIn(t, x)
    ensures x in t.index && t.index[x] in t.sessions && t.sessions[t.index[x]].sender == Some(x)
  {
    var i :| i in t.sessions && t.sessions[i].sender == Some(x);
    PairedMeansInverse(t, x, i);
  }

  lemma PairedReceiver(t: Tables, x: Socket)
    requires Paired(t) && EndedReceiver(t, x).Some?
    ensures !SendsIn(t, EndedReceiver(t, x).value)
  {
    var r := EndedReceiver(t, x).value;
    PairedMeansInverse(t, r, t.index[x]);
    if SendsIn(t, r) {
      PairedSender(t, r);
      assert false;
    }
  }

  lemma PairedNeverUnmaps(t: Tables, ev: Event)
    requires Paired(t) && !DoubleBooking(t, ev)
    ensures !UnmapsSender(t, ev)
  {
    if EndedReceiver(t, ev.socket).Some? {
      PairedReceiver(t, ev.socket);
    }
    if SendsIn(t, ev.socket) {
      PairedSender(t, ev.socket);
    }
  }

  /** Runs without double booking are among them. */
  lemma {:induction false} NoDoubleBookingNeverUnmaps(run: Run)
    requires IsRun(run) && NoDoubleBooking(run)
    ensures NeverUnmaps(run)
  {
    if run.Then? {
      NoDoubleBookingNeverUnmaps(run.before);
      PairedThroughoutIff(run.before);
      PairedNeverUnmaps(Now(run.before), run.event);
    }
  }

  lemma OwnedRoles(t: Tables, S: set<Socket>, x: Socket)
    requires Owned(t, S)
    ensures SendsIn(t, x) ==> x in S
    ensures EndedReceiver(t, x).Some? ==> EndedReceiver(t, x).value !in S
  {
    if SendsIn(t, x) {
      var i :| i in t.sessions && t.sessions[i].sender == Some(x);
      assert Held(t, S, i);
    }
    if x in t.index {
      BoundRole(t, x, S);
    }
  }

  lemma OwnedNeverUnmaps(t: Tables, ev: Event, S: set<Socket>)
    requires Owned(t, S) && RespectsRoles(ev, S)
    ensures !UnmapsSender(t, ev)
  {
    OwnedRoles(t, S, ev.socket);
    var r := EndedReceiver(t, ev.socket);
    if r.Some? {
      OwnedRoles(t, S, r.value);
    }
  }

  lemma {:induction false} RolesNeverUnmap(run: Run, S: set<Socket>)
    requires IsRun(run) && Announcers(run) <= S && Requesters(run) !! S
    ensures NeverUnmaps(run)
  {
    if run.Then? {
      RolesNeverUnmap(run.before, S);
      OwnedInRun(run.before, S);
      OwnedNeverUnmaps(Now(run.before), run.event, S);
    }
  }

  // ---------------------------------------------------------------- sharing itself

  ghost predicate Exclusive(t: Tables) {
    forall i, j | i in t.sessions && j in t.sessions && t.sessions[i].sender.Some? &&
                  t.sessions[i].sender == t.sessions[j].sender :: i == j
  }

  /** A free ready socket is still the sender of a session. */
  ghost predicate CanShare(t: Tables, r: Socket) {
    exists s :: s in t.ready && Eligible(t, r, s) && SendsIn(t, s)
  }

  /** A request keeps senders exclusive, whichever order the ready set is visited in, iff no free one still serves. */
  lemma RequestKeepsExclusiveIff(t: Tables, r: Socket, id: string)
    requires Exclusive(t) && id !in t.sessions
    ensures (forall s | s in t.ready && Eligible(t, r, s) :: Exclusive(Bind(t, s, r, id))) <==> !CanShare(t, r)
  {
    forall s | s in t.ready && Eligible(t, r, s)
      ensures Exclusive(Bind(t, s, r, id)) <==> !SendsIn(t, s)
    {
      BindExclusiveIff(t, s, r, id);
    }
  }

  lemma BindExclusiveIff(t: Tables, s: Socket, r: Socket, id: string)
    requires Exclusive(t) && id !in t.sessions
    ensures Exclusive(Bind(t, s, r, id)) <==> !SendsIn(t, s)
  {
    var t' := Bind(t, s, r, id);
    if SendsIn(t, s) {
      var i :| i in t.sessions && t.sessions[i].sender == Some(s);
      assert t'.sessions[i] == t.sessions[i] && t'.sessions[id].sender == Some(s);
    }
  }

  /** The newest event handed out a socket that was still the sender of a session. */
  ghost predicate HandsOutServing(run: Run) {
    && run.Then? && IsRequest(run.event) && Acceptable(Now(run.before), run.event.socket, run.event.frame.msg.id)
    && exists e :: e in run.sent && SendsIn(Now(run.before), e.to)
  }

  ghost predicate NeverHandsOutServing(run: Run) {
    !HandsOutServing(run) && (run.Then? ==> NeverHandsOutServing(run.before))
  }

  ghost predicate ExclusiveThroughout(run: Run) {
    Exclusive(Now(run)) && (run.Then? ==> ExclusiveThroughout(run.before))
  }

  lemma DisconnectKeepsExclusive(t: Tables, x: Socket)
    requires Coherent(t) && Exclusive(t)
    ensures Exclusive(Disconnect(t, x))
  {
    DisconnectSessions(t, x);
  }

  lemma ExclusiveStepIff(run: Run)
    requires IsRun(run) && run.Then? && Exclusive(Now(run.before))
    ensures Exclusive(run.after) <==> !HandsOutServing(run)
  {
    var t, ev := Now(run.before), run.event;
    if ev.Disconnected? {
      EveryRunIsCoherent(run.before);
      DisconnectKeepsExclusive(t, ev.socket);
    } else if IsRequest(ev) && Acceptable(t, ev.socket, ev.frame.msg.id) {
      var r, id := ev.socket, ev.frame.msg.id;
      var s :| Eligible(t, r, s) && run.after == Bind(t, s, r, id) && run.sent == [Envelope(s, ev.frame.msg)];
      BindExclusiveIff(t, s, r, id);
      assert run.sent[0] in run.sent;
    }
  }

  /** No sender is ever shared in a run iff none is handed out while it is the sender of a session. */
  lemma {:induction false} ExclusiveThroughoutIff(run: Run)
    requires IsRun(run)
    ensures ExclusiveThroughout(run) <==> NeverHandsOutServing(run)
  {
    if run.Then? {
      ExclusiveThroughoutIff(run.before);
      if ExclusiveThroughout(run.before) {
        ExclusiveStepIff(run);
      }
    }
  }

  lemma MappedNeverHandsOut(run: Run)
    requires IsRun(run) && run.Then? && AllSendersMapped(Now(run.before))
    ensures !HandsOutServing(run)
  {
    var t := Now(run.before);
    forall s | SendsIn(t, s)
      ensures s in t.index
    {
      var i :| i in t.sessions && t.sessions[i].sender == Some(s);
      assert SenderMapped(t, i);
    }
  }

  /** Sharing takes an unmapped sender: a run that unmaps none shares none. */
  lemma {:induction false} NeverUnmappedNeverShared(run: Run)
    requires IsRun(run) && NeverUnmaps(run)
    ensures NeverHandsOutServing(run)
  {
    if run.Then? {
      NeverUnmappedNeverShared(run.before);
      MappedThroughoutIff(run.before);
      MappedNeverHandsOut(run);
    }
  }

  /** Discipline B is enough for both. */
  lemma DisciplineBNeverShares(run: Run)
    requires IsRun(run) && DisciplineB(run)
    ensures MappedThroughout(run) && ExclusiveThroughout(run)
  {
    RolesNeverUnmap(run, Announcers(run));
    MappedThroughoutIff(run);
    NeverUnmappedNeverShared(run);
    ExclusiveThroughoutIff(run);
  }

  // ---------------------------------------------------------------- why discipline A is needed

  function Say(k: Kind, id: string): Frame {
    Json(Message(k, id, Payload("")))
  }

  /** Two senders 1 and 2; receiver 3 requests a and b and disconnects. */
  function TwoRequestEvents(a: string, b: string): seq<Event> {
    [Connected(1), Received(1, Say(SenderReady, "")), Connected(3), Received(3, Say(Request, a)),
     Connected(2), Received(2, Say(SenderReady, "")), Received(3, Say(Request, b)), Disconnected(3)]
  }

  function SecondReady(a: string): Tables {
    Tables({1, 2, 3}, {1, 2}, map[a := Binding(Some(1), Some(3))], map[1 := a, 3 := a])
  }

  function BothBound(a: string, b: string): Tables {
    Bind(SecondReady(a), 2, 3, b)
  }

  lemma Stranded(a: string, b: string)
    requires a != "" && b != "" && a != b
    ensures Disconnect(BothBound(a, b), 3).sessions == map[a := Binding(Some(1), None)]
    ensures Disconnect(BothBound(a, b), 3).index == map[1 := a]
  {
  }

  function Events(run: Run): seq<Event> {
    if run.Start? then [] else Events(run.before) + [run.event]
  }

  lemma LogConnect(run: Run, x: Socket) returns (run': Run)
    requires IsRun(run) && x !in Now(run).sockets
    ensures IsRun(run') && Events(run') == Events(run) + [Connected(x)]
    ensures Now(run') == Now(run).(sockets := Now(run).sockets + {x})
  {
    run' := Then(run, Connected(x), [], Now(run).(sockets := Now(run).sockets + {x}));
  }

  lemma LogReady(run: Run, x: Socket) returns (run': Run)
    requires IsRun(run) && x in Now(run).sockets
    ensures IsRun(run') && Events(run') == Events(run) + [Received(x, Say(SenderReady, ""))]
    ensures Now(run') == Now(run).(ready := Now(run).ready + {x})
  {
    run' := Then(run, Received(x, Say(SenderReady, "")), [], Now(run).(ready := Now(run).ready + {x}));
  }

  lemma LogRequest(run: Run, s: Socket, r: Socket, id: string) returns (run': Run)
    requires IsRun(run) && r in Now(run).sockets && Eligible(Now(run), r, s) && id != "" && id !in Now(run).sessions
    ensures IsRun(run') && Events(run') == Events(run) + [Received(r, Say(Request, id))]
    ensures Now(run') == Bind(Now(run), s, r, id)
  {
    var m := Message(Request, id, Payload(""));
    run' := Then(run, Received(r, Json(m)), [Envelope(s, m)], Bind(Now(run), s, r, id));
  }

  lemma UpToSecondReady(a: string) returns (run: Run)
    requires a != ""
    ensures IsRun(run) && Now(run) == SecondReady(a)
    ensures Events(run) == [Connected(1), Received(1, Say(SenderReady, "")), Connected(3), Received(3, Say(Request, a)),
                            Connected(2), Received(2, Say(SenderReady, ""))]
  {
    run := UpToFirstSession(a);
    run := LogConnect(run, 2);
    run := LogReady(run, 2);
    assert Now(run).sockets == SecondReady(a).sockets;
  }

  lemma UpToFirstSession(a: string) returns (run: Run)
    requires a != ""
    ensures IsRun(run) && Now(run) == Tables({1, 3}, {1}, map[a := Binding(Some(1), Some(3))], map[1 := a, 3 := a])
    ensures Events(run) == [Connected(1), Received(1, Say(SenderReady, "")), Connected(3), Received(3, Say(Request, a))]
  {
    run := UpToFirstReady();
    run := LogRequest(run, 1, 3, a);
    assert Now(run).sessions == map[a := Binding(Some(1), Some(3))] && Now(run).index == map[1 := a, 3 := a];
  }

  lemma UpToFirstReady() returns (run: Run)
    ensures IsRun(run) && Now(run) == Tables({1, 3}, {1}, map[], map[])
    ensures Events(run) == [Connected(1), Received(1, Say(SenderReady, "")), Connected(3)]
  {
    run := LogConnect(Start, 1);
    run := LogReady(run, 1);
    run := LogConnect(run, 3);
    assert Now(run).sockets == {1, 3} && Now(run).ready == {1};
  }

  /** For any two ids the run strands the first session: sender 1 stays bound to nobody and can serve no one. */
  lemma TwoRequestsStrandASender(a: string, b: string) returns (run: Run)
    requires a != "" && b != "" && a != b
    ensures IsRun(run) && Events(run) == TwoRequestEvents(a, b)
    ensures var t := Now(run);
            && t.sessions == map[a := Binding(Some(1), None)] && t.index == map[1 := a]
            && !Paired(t)
            && forall r: Socket :: !Eligible(t, r, 1)
  {
    run := UpToSecondReady(a);
    run := LogRequest(run, 2, 3, b);
    var t := BothBound(a, b);
    run := Then(run, Disconnected(3), DisconnectSent(t, 3), Disconnect(t, 3));
    Stranded(a, b);
    assert !Mirrored(Now(run), a);
  }

  // ---------------------------------------------------------------- why discipline B is needed

  /** As before up to the two ready senders; then sender 1 requests b, sender 2 leaves and receiver 4 requests c. */
  function SenderRequestEvents(a: string, b: string, c: string): seq<Event> {
    [Connected(1), Received(1, Say(SenderReady, "")), Connected(3), Received(3, Say(Request, a)),
     Connected(2), Received(2, Say(SenderReady, "")), Received(1, Say(Request, b)), Disconnected(2),
     Connected(4), Received(4, Say(Request, c))]
  }

  function AfterSenderLeft(a: string): Tables {
    Tables({1, 3}, {1}, map[a := Binding(Some(1), Some(3))], map[3 := a])
  }

  lemma SenderForgotten(a: string, b: string)
    requires a != "" && b != "" && a != b
    ensures Disconnect(Bind(SecondReady(a), 2, 1, b), 2) == AfterSenderLeft(a)
  {
    var t := Bind(SecondReady(a), 2, 1, b);
    assert t.index == map[1 := b, 3 := a, 2 := b];
    assert t.sessions - {b} == SecondReady(a).sessions;
    assert Disconnect(t, 2).index == map[3 := a];
    assert Disconnect(t, 2).sessions == SecondReady(a).sessions;
    assert Disconnect(t, 2).sockets == {1, 3} && Disconnect(t, 2).ready == {1};
  }

  /** A sender that itself requests can be handed out again while it still serves: two sessions share it. */
  lemma RequestingSenderIsShared(a: string, b: string, c: string) returns (run: Run)
    requires a != "" && b != "" && c != "" && a != b && a != c
    ensures IsRun(run) && Events(run) == SenderRequestEvents(a, b, c)
    ensures Now(run).sessions == map[a := Binding(Some(1), Some(3)), c := Binding(Some(1), Some(4))]
  {
    run := UpToSecondReady(a);
    run := LogRequest(run, 2, 1, b);
    var t := Now(run);
    run := Then(run, Disconnected(2), DisconnectSent(t, 2), Disconnect(t, 2));
    SenderForgotten(a, b);
    run := LogConnect(run, 4);
    run := LogRequest(run, 1, 4, c);
  }
}
