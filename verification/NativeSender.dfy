/**
  The native sender of module/signaling_client.cpp: what a received message, a WebRTC
  callback and the Qt event loop do to its clients and to what it sends.
*/
module NativeSender {
  import opened Common
  import opened SignalingTables

  /** A push client, reduced to the negotiation messages handed to it. */
  datatype RtcClient = RtcClient(answers: seq<Body>, candidates: seq<Body>)

  const FRESH := RtcClient([], [])

  /** How handling a request turns out; push-client set-up itself is outside the model. */
  datatype Outcome = NoCapture | InitFailed | InitOk

  /**
    clients: by session id. starting: the id whose Init has succeeded inside the handler that is
    still running. posted: sends queued for the Qt thread by WebRTC callbacks.
  */
  datatype Sender = Sender(clients: map<string, RtcClient>, starting: Option<string>, posted: seq<Message>)

  const IDLE_SENDER := Sender(map[], None, [])

  const READY_MESSAGE := Message(SenderReady, "", Payload(""))

  function SetupError(id: string, outcome: Outcome): Message
    requires !outcome.InitOk?
  {
    Message(Error, id, Failure(if outcome.NoCapture? then CaptureUnavailable else SenderInitFailed))
  }

  /** Ids that have a client or are about to get one. */
  function Known(n: Sender): set<string> {
    n.clients.Keys + if n.starting.Some? then {n.starting.value} else {}
  }

  /** The handler up to the point where Init has returned. */
  function Begin(n: Sender, m: Message, outcome: Outcome): (Sender, seq<Message>) {
    if m.kind.Answer? && m.id in n.clients then
      var c := n.clients[m.id];
      (n.(clients := n.clients[m.id := c.(answers := c.answers + [m.body])]), [])
    else if m.kind.Candidate? && m.id in n.clients then
      var c := n.clients[m.id];
      (n.(clients := n.clients[m.id := c.(candidates := c.candidates + [m.body])]), [])
    else if m.kind.Request? then
      if outcome.InitOk? then (n.(starting := Some(m.id)), []) else (n, [SetupError(m.id, outcome)])
    else (n, [])
  }

  /** The rest of the handler: the started client goes into the table, replacing an older one. */
  function Finish(n: Sender): Sender {
    if n.starting.Some? then n.(clients := n.clients[n.starting.value := FRESH], starting := None) else n
  }

  /** What queueing a message, and sending the oldest queued one, leave behind. */
  function Posted(n: Sender, m: Message): Sender {
    n.(posted := n.posted + [m])
  }

  function Flushed(n: Sender): Sender
    requires n.posted != []
  {
    n.(posted := n.posted[1..])
  }

  /** A WebRTC callback of a client that exists, possibly while the handler that made it still runs. */
  predicate Callback(n: Sender, m: Message) {
    (m.kind.Offer? || m.kind.Candidate?) && m.id in Known(n)
  }

  /**
    A received text: not JSON; JSON but no object; an object in which a field that the handler reads has
    another type; or a message. Only the parser runs under a catch, so the two in the middle throw.
  */
  datatype Text = Unparsable | NotAnObject | IllTyped | Object(msg: Message)

  class SignalingClient {
    var clients: map<string, RtcClient>
    var posted: seq<Message>

    function View(): Sender
      reads this
    {
      Sender(clients, None, posted)
    }

    constructor ()
      ensures View() == IDLE_SENDER
    {
      clients, posted := map[], [];
    }

    method OnConnected() returns (sent: seq<Message>)
      ensures sent == [READY_MESSAGE]
    {
      sent := [READY_MESSAGE];
    }

    method OnTextMessageReceived(text: Text, outcome: Outcome) returns (sent: seq<Message>, thrown: Option<nat>)
      modifies this
      ensures thrown == Some(306) <==> text.NotAnObject?
      ensures thrown == Some(302) <==> text.IllTyped?
      ensures thrown == None <==> text.Unparsable? || text.Object?
      ensures !text.Object? ==> View() == old(View()) && sent == []
      ensures text.Object? ==> var (n, out) := Begin(old(View()), text.msg, outcome); View() == Finish(n) && sent == out
    {
      sent, thrown := [], None;
      if text.Unparsable? {
        return;
      }
      if text.NotAnObject? {
        return [], Some(306);
      }
      if text.IllTyped? {
        return [], Some(302);
      }
      var m := text.msg;
      if m.kind.Answer? {
        if m.id in clients {
          var c := clients[m.id];
          clients := clients[m.id := c.(answers := c.answers + [m.body])];
        }
      } else if m.kind.Request? {
        if outcome.NoCapture? {
          return [SetupError(m.id, outcome)], None;
        }
        var client := FRESH;
        if outcome.InitFailed? {
          return [SetupError(m.id, outcome)], None;
        }
        clients := clients[m.id := client];
      } else if m.kind.Candidate? {
        if m.id !in clients {
          return;
        }
        var c := clients[m.id];
        clients := clients[m.id := c.(candidates := c.candidates + [m.body])];
      }
    }

    /** onLocalSdp and onLocalIce: never send directly, only queue for the Qt thread. */
    method Post(m: Message)
      requires Callback(View(), m)
      modifies this`posted
      ensures View() == Posted(old(View()), m)
    {
      posted := posted + [m];
    }

    method RunPosted() returns (sent: seq<Message>)
      requires posted != []
      modifies this`posted
      ensures View() == Flushed(old(View())) && sent == [old(posted)[0]]
    {
      sent := [posted[0]];
      posted := posted[1..];
    }
  }
}
