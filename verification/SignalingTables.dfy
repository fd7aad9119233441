/**
  What one event does to the four tables of the signaling server
  (tools/signaling_server.cpp), as functions and relations on values.
  The class SignalingServer in SignalingServer.dfy is proved against them.
*/
module SignalingTables {
  import opened Common

  type Socket = nat

  datatype Kind = SenderReady | Request | Offer | Answer | Candidate | Error | PeerDisconnected | Unsupported

  /** Why an error message was sent; it stands for the text of the message. */
  datatype Reason =
    | MissingId
    | SessionExists(id: string)
    | NoSenderReady
    | UnknownSession(id: string)
    | PeerNotConnected(id: string)
    | CaptureUnavailable
    | SenderInitFailed

  datatype Body = Payload(text: string) | Failure(reason: Reason)

  /** A JSON object reduced to its type, its id ("" when absent) and everything else. */
  datatype Message = Message(kind: Kind, id: string, body: Body)

  /** A text frame: not a JSON object, or one message. */
  datatype Frame = Malformed | Json(msg: Message)

  datatype Envelope = Envelope(to: Socket, msg: Message)

  /** Both ends are weak pointers: they turn to None when their socket object dies. */
  datatype Binding = Binding(sender: Option<Socket>, receiver: Option<Socket>)

  datatype Tables = Tables(
    sockets: set<Socket>,
    ready: set<Socket>,
    sessions: map<string, Binding>,
    index: map<Socket, string>)

  const EMPTY := Tables({}, {}, map[], map[])

  datatype Event =
    | Connected(socket: Socket)
    | Received(socket: Socket, frame: Frame)
    | Disconnected(socket: Socket)

  function ErrorTo(x: Socket, reason: Reason): Envelope {
    Envelope(x, Message(Error, "", Failure(reason)))
  }

  function PeerDisconnectedTo(x: Socket, id: string): Envelope {
    Envelope(x, Message(PeerDisconnected, id, Payload("")))
  }

  predicate Forwardable(k: Kind) {
    k.Offer? || k.Answer? || k.Candidate? || k.Error?
  }

  predicate IsRequest(ev: Event) {
    ev.Received? && ev.frame.Json? && ev.frame.msg.kind.Request?
  }

  predicate IsAnnouncement(ev: Event) {
    ev.Received? && ev.frame.Json? && ev.frame.msg.kind.SenderReady?
  }

  predicate Endpoint(b: Binding, x: Socket) {
    b.sender == Some(x) || b.receiver == Some(x)
  }

  /** s may be handed to the requester r. */
  predicate Eligible(t: Tables, r: Socket, s: Socket) {
    s in t.ready && s != r && s !in t.index
  }

  predicate Acceptable(t: Tables, r: Socket, id: string) {
    id != "" && id !in t.sessions && exists s :: s in t.ready && Eligible(t, r, s)
  }

  function Bind(t: Tables, s: Socket, r: Socket, id: string): Tables {
    t.(sessions := t.sessions[id := Binding(Some(s), Some(r))], index := t.index[s := id][r := id])
  }

  function RequestError(t: Tables, id: string): Reason {
    if id == "" then MissingId
    else if id in t.sessions then SessionExists(id)
    else NoSenderReady
  }

  ghost predicate RequestStep(t: Tables, r: Socket, m: Message, t': Tables, sent: seq<Envelope>) {
    if Acceptable(t, r, m.id) then
      exists s :: Eligible(t, r, s) && t' == Bind(t, s, r, m.id) && sent == [Envelope(s, m)]
    else
      t' == t && sent == [ErrorTo(r, RequestError(t, m.id))]
  }

  /** The other end of a session as seen from x. */
  function Partner(b: Binding, x: Socket): Option<Socket> {
    if b.sender == Some(x) then b.receiver
    else if b.receiver == Some(x) then b.sender
    else None
  }

  function ForwardSent(t: Tables, x: Socket, m: Message): seq<Envelope> {
    if m.id == "" || m.id !in t.sessions then
      [ErrorTo(x, UnknownSession(m.id))]
    else
      match Partner(t.sessions[m.id], x)
      case None => [ErrorTo(x, PeerNotConnected(m.id))]
      case Some(y) => [Envelope(y, m)]
  }

  /** What the weak pointers look like once the object x is gone. */
  function Forget(b: Binding, x: Socket): Binding {
    Binding(if b.sender == Some(x) then None else b.sender,
            if b.receiver == Some(x) then None else b.receiver)
  }

  function ForgetAll(sessions: map<string, Binding>, x: Socket): map<string, Binding> {
    map id | id in sessions :: Forget(sessions[id], x)
  }

  /** The id and binding that the disconnect handler takes out of the tables. */
  function TakenId(t: Tables, x: Socket): string {
    if x in t.index then t.index[x] else ""
  }

  function TakenBinding(t: Tables, x: Socket): Binding {
    var id := TakenId(t, x);
    if id != "" && id in t.sessions then t.sessions[id] else Binding(None, None)
  }

  function Ends(b: Binding): set<Socket> {
    (if b.sender.Some? then {b.sender.value} else {}) + (if b.receiver.Some? then {b.receiver.value} else {})
  }

  function Disconnect(t: Tables, x: Socket): Tables {
    Tables(t.sockets - {x},
           t.ready - {x},
           ForgetAll(if TakenId(t, x) == "" then t.sessions else t.sessions - {TakenId(t, x)}, x),
           t.index - {x} - Ends(TakenBinding(t, x)))
  }

  function Notice(end: Option<Socket>, x: Socket, id: string): seq<Envelope> {
    if end.Some? && end.value != x then [PeerDisconnectedTo(end.value, id)] else []
  }

  function DisconnectSent(t: Tables, x: Socket): seq<Envelope> {
    var b := TakenBinding(t, x);
    Notice(b.sender, x, TakenId(t, x)) + Notice(b.receiver, x, TakenId(t, x))
  }

  ghost predicate ReceiveStep(t: Tables, x: Socket, f: Frame, t': Tables, sent: seq<Envelope>) {
    match f
    case Malformed => t' == t && sent == []
    case Json(m) =>
      if m.kind.SenderReady? then t' == t.(ready := t.ready + {x}) && sent == []
      else if m.kind.Request? then RequestStep(t, x, m, t', sent)
      else if Forwardable(m.kind) then t' == t && sent == ForwardSent(t, x, m)
      else t' == t && sent == []
  }

  /** One turn of the server's event loop. */
  ghost predicate Step(t: Tables, ev: Event, t': Tables, sent: seq<Envelope>) {
    match ev
    case Connected(x) => x !in t.sockets && t' == t.(sockets := t.sockets + {x}) && sent == []
    case Received(x, f) => x in t.sockets && ReceiveStep(t, x, f, t', sent)
    case Disconnected(x) => x in t.sockets && t' == Disconnect(t, x) && sent == DisconnectSent(t, x)
  }
}
