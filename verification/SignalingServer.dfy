/** The server object of tools/signaling_server.cpp with its four mutable tables. */
module SignalingServerObject {
  import opened Common
  import opened SignalingTables

  class SignalingServer {
    var sockets: set<Socket>
    var readySenders: set<Socket>
    var sessions: map<string, Binding>
    var socketToSession: map<Socket, string>

    function View(): Tables
      reads this
    {
      Tables(sockets, readySenders, sessions, socketToSession)
    }

    constructor ()
      ensures View() == EMPTY
    {
      sockets, readySenders, sessions, socketToSession := {}, {}, map[], map[];
    }

    /** `pending` is None when the event fires but no connection is waiting. */
    method OnNewConnection(pending: Option<Socket>)
      requires pending.Some? ==> pending.value !in sockets
      modifies this
      ensures pending.None? ==> View() == old(View())
      ensures pending.Some? ==> Step(old(View()), Connected(pending.value), View(), [])
    {
      if pending.None? {
        return;
      }
      sockets := sockets + {pending.value};
    }

    method OnTextMessage(socket: Socket, frame: Frame) returns (sent: seq<Envelope>)
      requires socket in sockets
      modifies this
      ensures Step(old(View()), Received(socket, frame), View(), sent)
      ensures frame.Malformed? || frame.msg.kind !in {SenderReady, Request, Offer, Answer, Candidate, Error} ==>
                View() == old(View()) && sent == []
    {
      sent := [];
      if frame.Malformed? {
        return;
      }
      var m := frame.msg;
      if m.kind.SenderReady? {
        readySenders := readySenders + {socket};
      } else if m.kind.Request? {
        sent := HandleRequest(socket, m);
      } else if m.kind.Offer? || m.kind.Answer? || m.kind.Candidate? || m.kind.Error? {
        sent := ForwardSessionMessage(socket, m);
      }
    }

    /** The sender search visits the unordered set in any order. */
    method HandleRequest(receiver: Socket, m: Message) returns (sent: seq<Envelope>)
      modifies this
      ensures RequestStep(old(View()), receiver, m, View(), sent)
    {
      if m.id == "" {
        return [ErrorTo(receiver, MissingId)];
      }
      if m.id in sessions {
        return [ErrorTo(receiver, SessionExists(m.id))];
      }
      var selected: Option<Socket> := None;
      var rest := readySenders;
      while rest != {}
        invariant rest <= readySenders
        invariant selected.None?
        invariant forall c | c in readySenders - rest :: !Eligible(View(), receiver, c)
        decreases |rest|
      {
        var candidate :| candidate in rest;
        if candidate != receiver && candidate !in socketToSession {
          selected := Some(candidate);
          break;
        }
        rest := rest - {candidate};
      }
      if selected.None? {
        return [ErrorTo(receiver, NoSenderReady)];
      }
      assert Eligible(View(), receiver, selected.value);
      sessions := sessions[m.id := Binding(selected, Some(receiver))];
      socketToSession := socketToSession[selected.value := m.id];
      socketToSession := socketToSession[receiver := m.id];
      sent := [Envelope(selected.value, m)];
    }

    method ForwardSessionMessage(socket: Socket, m: Message) returns (sent: seq<Envelope>)
      ensures sent == ForwardSent(View(), socket, m)
    {
      if m.id == "" || m.id !in sessions {
        return [ErrorTo(socket, UnknownSession(m.id))];
      }
      var binding := sessions[m.id];
      var target: Option<Socket> := None;
      if binding.sender == Some(socket) {
        target := binding.receiver;
      } else if binding.receiver == Some(socket) {
        target := binding.sender;
      }
      if target.None? {
        return [ErrorTo(socket, PeerNotConnected(m.id))];
      }
      sent := [Envelope(target.value, m)];
    }

    method OnDisconnected(socket: Socket) returns (sent: seq<Envelope>)
      requires socket in sockets
      modifies this
      ensures Step(old(View()), Disconnected(socket), View(), sent)
    {
      sent := [];
      readySenders := readySenders - {socket};
      sockets := sockets - {socket};
      var sessionId := if socket in socketToSession then socketToSession[socket] else "";
      socketToSession := socketToSession - {socket};
      if sessionId != "" {
        var binding := if sessionId in sessions then sessions[sessionId] else Binding(None, None);
        sessions := sessions - {sessionId};
        if binding.sender.Some? {
          socketToSession := socketToSession - {binding.sender.value};
          if binding.sender.value != socket {
            sent := sent + [PeerDisconnectedTo(binding.sender.value, sessionId)];
          }
        }
        if binding.receiver.Some? {
          socketToSession := socketToSession - {binding.receiver.value};
          if binding.receiver.value != socket {
            sent := sent + [PeerDisconnectedTo(binding.receiver.value, sessionId)];
          }
        }
      }
      DeleteLater(socket);
    }

    /** Destroys the socket object before the next event: every weak pointer to it becomes null. */
    method DeleteLater(socket: Socket)
      modifies this`sessions
      ensures sessions == ForgetAll(old(sessions), socket)
    {
      sessions := map id | id in sessions :: Forget(sessions[id], socket);
    }
  }
}
