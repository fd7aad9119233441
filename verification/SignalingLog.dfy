/**
  What a native sender ends up with, told from the messages alone: its channel loses, duplicates
  and reorders nothing, and its client table is a function of the messages taken so far.
*/
module SignalingLog {
  import opened Common
  import opened SignalingTables
  import opened NativeSender
  import opened SignalingSystem

  /** A message taken from the channel and how its set-up turned out, if it was a request. */
  datatype Entry = Entry(msg: Message, outcome: Outcome)

  /** What socket x has taken since it joined. */
  function Log(h: History, x: Socket): seq<Entry> {
    if h.Begun? then []
    else match h.action
      case Join(y, _) => if y == x then [] else Log(h.before, x)
      case Dequeue(y, outcome) =>
        var s := Now(h.before);
        if y == x && x in s.peers && s.peers[x].down != [] then Log(h.before, x) + [Entry(s.peers[x].down[0], outcome)]
        else Log(h.before, x)
      case _ => Log(h.before, x)
  }

  /** What the server has addressed to socket x since it joined. */
  function SentTo(h: History, x: Socket): seq<Message> {
    if h.Begun? then []
    else match h.action
      case Join(y, _) => if y == x then [] else SentTo(h.before, x)
      case Leave(_, sent) => SentTo(h.before, x) + Addressed(sent, x)
      case Serve(_, sent) => SentTo(h.before, x) + Addressed(sent, x)
      case _ => SentTo(h.before, x)
  }

  function Messages(log: seq<Entry>): seq<Message> {
    seq(|log|, i requires 0 <= i < |log| => log[i].msg)
  }

  predicate Creates(e: Entry, id: string) {
    e.msg.kind.Request? && e.outcome.InitOk? && e.msg.id == id
  }

  predicate HasClient(log: seq<Entry>, id: string) {
    log != [] && (Creates(log[|log| - 1], id) || HasClient(log[..|log| - 1], id))
  }

  /** Bodies of the messages of one kind for id, since the last request that gave it a client. */
  function Collected(log: seq<Entry>, id: string, kind: Kind): seq<Body> {
    if log == [] then []
    else
      var older, e := log[..|log| - 1], log[|log| - 1];
      if Creates(e, id) then []
      else Collected(older, id, kind)
           + if e.msg.kind == kind && e.msg.id == id && HasClient(older, id) then [e.msg.body] else []
  }

  function ClientFrom(log: seq<Entry>, id: string): RtcClient {
    RtcClient(Collected(log, id, Answer), Collected(log, id, Candidate))
  }

  /** The table agrees with the log, except for the client that is being set up right now. */
  ghost predicate Agrees(n: Sender, log: seq<Entry>) {
    && (n.starting.Some? ==> HasClient(log, n.starting.value) && ClientFrom(log, n.starting.value) == FRESH)
    && forall id | n.starting != Some(id) :: AgreesOn(n, log, id)
  }

  ghost predicate AgreesOn(n: Sender, log: seq<Entry>, id: string) {
    && (id in n.clients <==> HasClient(log, id))
    && (id in n.clients ==> n.clients[id] == ClientFrom(log, id))
  }

  lemma LocalStepAgrees(p: Peer, a: Action, p': Peer, log: seq<Entry>)
    requires PeerStep(p, a, p') && p.role.Native? && Agrees(p.role.sender, log)
    ensures p'.role.Native?
    ensures Agrees(p'.role.sender, if a.Dequeue? then log + [Entry(p.down[0], a.outcome)] else log)
  {
  }

  /** Nothing but its own steps changes the role of a connected peer. */
  lemma RoleOf(s: System, a: Action, s': System, x: Socket)
    requires Sound(s) && Next(s, a, s') && x in s'.peers
    ensures (a.Join? && a.socket == x) || (x in s.peers &&
              (s'.peers[x].role == s.peers[x].role || (a.socket == x && PeerStep(s.peers[x], a, s'.peers[x]))))
    ensures a.Dequeue? && a.socket == x ==> x in s.peers && PeerStep(s.peers[x], a, s'.peers[x])
  {
  }

  /**
    When a native sender is between handlers, its table holds exactly the ids for which it took a request
    whose set-up succeeded, each with the answers and candidates taken for it since, in order.
  */
  lemma {:induction false} TableIsWhatWasTaken(h: History, x: Socket)
    requires IsHistory(h) && x in Now(h).peers && Now(h).peers[x].role.Native?
    ensures Agrees(Now(h).peers[x].role.sender, Log(h, x))
  {
    if h.Then? {
      var s := Now(h.before);
      HistoriesAreSound(h.before);
      RoleOf(s, h.action, h.after, x);
      if h.action.Join? && h.action.socket == x {
        assert h.after.peers[x].role.sender == IDLE_SENDER;
        assert forall id :: AgreesOn(IDLE_SENDER, [], id);
      } else if h.action.socket == x && PeerStep(s.peers[x], h.action, h.after.peers[x]) {
        TableIsWhatWasTaken(h.before, x);
        LocalStepAgrees(s.peers[x], h.action, h.after.peers[x], Log(h.before, x));
      } else {
        TableIsWhatWasTaken(h.before, x);
      }
    }
  }

  /** The channel of one native sender before and after a step. */
  lemma DownOf(s: System, a: Action, s': System, x: Socket)
    requires Sound(s) && Next(s, a, s') && x in s'.peers && s'.peers[x].role.Native?
    requires !(a.Join? && a.socket == x)
    ensures x in s.peers && s.peers[x].role.Native?
    ensures if a.Dequeue? && a.socket == x then s.peers[x].down != [] && s'.peers[x].down == s.peers[x].down[1..]
            else if a.Leave? || a.Serve? then s'.peers[x].down == s.peers[x].down + Addressed(a.sent, x)
            else s'.peers[x].down == s.peers[x].down
  {
  }

  /** In order and exactly once: taken messages followed by waiting ones are what the server sent. */
  lemma {:induction false} ChannelKeepsOrder(h: History, x: Socket)
    requires IsHistory(h) && x in Now(h).peers && Now(h).peers[x].role.Native?
    ensures Messages(Log(h, x)) + Now(h).peers[x].down == SentTo(h, x)
  {
    if h.Then? && !(h.action.Join? && h.action.socket == x) {
      HistoriesAreSound(h.before);
      DownOf(Now(h.before), h.action, h.after, x);
      ChannelKeepsOrder(h.before, x);
      ChannelStep(h, x);
    }
  }

  lemma ChannelStep(h: History, x: Socket)
    requires h.Then? && !(h.action.Join? && h.action.socket == x)
    requires x in Now(h.before).peers && x in h.after.peers
    requires Messages(Log(h.before, x)) + Now(h.before).peers[x].down == SentTo(h.before, x)
    requires var a, down, down' := h.action, Now(h.before).peers[x].down, h.after.peers[x].down;
             if a.Dequeue? && a.socket == x then down != [] && down' == down[1..]
             else if a.Leave? || a.Serve? then down' == down + Addressed(a.sent, x)
             else down' == down
    ensures Messages(Log(h, x)) + h.after.peers[x].down == SentTo(h, x)
  {
  }
}
