/**
 * One heartbeat exchange: src/heartbeat/HeartbeatLoop.cpp. The transport is an oracle that answers
 * each call; a received payload is either a decoded message or a parse error.
 */
module HeartbeatLoop {
  import opened Text
  import opened FailoverDecision

  datatype PeerConfig = PeerConfig(id: string, address: string)

  datatype HeartbeatMessage = HeartbeatMessage(nodeId: string, priority: int, healthy: bool, state: NodeState)

  /** Every refusal of the parser has a text. */
  type ErrorText = s: string | s != "" witness "?"

  datatype Parsed = Message(message: HeartbeatMessage) | Unparsable(error: ErrorText)

  datatype Datagram = Datagram(peerAddress: string, payload: Parsed)

  datatype SendResult = SendResult(sent: bool, peerAddress: string, error: string)

  datatype ReceiveResult = ReceiveResult(datagram: Option<Datagram>, timedOut: bool, timeoutMs: int, error: string)

  /** What the transport answers to one exchange: one answer per configured peer, then one receive. */
  datatype TransportAnswers = TransportAnswers(sends: seq<SendResult>, receive: ReceiveResult)

  datatype SendObservation = SendObservation(peerId: string, peerAddress: string, sent: bool, error: string)

  datatype ReceiveObservation =
    ReceiveObservation(attempted: bool, timedOut: bool, timeoutMs: int, peerAddress: string,
                       peerStatus: Option<PeerStatus>, error: string)

  /** `outgoing` is what was handed to the transport: address and message, in order. */
  datatype Exchange =
    Exchange(outgoing: seq<(string, HeartbeatMessage)>, sends: seq<SendObservation>, receive: ReceiveObservation)

  function PeerStatusFromHeartbeat(m: HeartbeatMessage): PeerStatus {
    PeerStatus(m.nodeId, m.priority, m.healthy, true, m.state)
  }

  function Outgoing(local: LocalNodeStatus): HeartbeatMessage {
    HeartbeatMessage(local.nodeId, local.priority, local.healthy, local.state)
  }

  function Received(r: ReceiveResult): ReceiveObservation {
    match r.datagram
    case None => ReceiveObservation(true, r.timedOut, r.timeoutMs, "", None, r.error)
    case Some(d) =>
      match d.payload
      case Unparsable(error) => ReceiveObservation(true, r.timedOut, r.timeoutMs, d.peerAddress, None, error)
      case Message(m) =>
        ReceiveObservation(true, r.timedOut, r.timeoutMs, d.peerAddress, Some(PeerStatusFromHeartbeat(m)), r.error)
  }

  function ExchangeOnce(local: LocalNodeStatus, peers: seq<PeerConfig>, answers: TransportAnswers): Exchange
    requires |answers.sends| == |peers|
  {
    Exchange(
      seq(|peers|, i requires 0 <= i < |peers| => (peers[i].address, Outgoing(local))),
      seq(|peers|, i requires 0 <= i < |peers| && |answers.sends| == |peers| =>
        SendObservation(peers[i].id, answers.sends[i].peerAddress, answers.sends[i].sent, answers.sends[i].error)),
      Received(answers.receive))
  }

  /** One send per configured peer, in order, and exactly one receive. */
  method RunHeartbeatLoopOnce(local: LocalNodeStatus, peers: seq<PeerConfig>, answers: TransportAnswers)
    returns (result: Exchange)
    requires |answers.sends| == |peers|
    ensures result == ExchangeOnce(local, peers, answers)
  {
    var payload := Outgoing(local);
    var outgoing: seq<(string, HeartbeatMessage)> := [];
    var sends: seq<SendObservation> := [];
    for i := 0 to |peers|
      invariant outgoing == ExchangeOnce(local, peers, answers).outgoing[..i]
      invariant sends == ExchangeOnce(local, peers, answers).sends[..i]
    {
      var sent := answers.sends[i];
      outgoing := outgoing + [(peers[i].address, payload)];
      sends := sends + [SendObservation(peers[i].id, sent.peerAddress, sent.sent, sent.error)];
    }

    var received := answers.receive;
    var receive := ReceiveObservation(true, received.timedOut, received.timeoutMs, "", None, received.error);
    if received.datagram.Some? {
      receive := receive.(peerAddress := received.datagram.value.peerAddress);
      match received.datagram.value.payload {
        case Unparsable(error) => receive := receive.(error := error);
        case Message(m) => receive := receive.(peerStatus := Some(PeerStatusFromHeartbeat(m)));
      }
    }
    result := Exchange(outgoing, sends, receive);
  }

  predicate SendFailed(x: Exchange) {
    exists s <- x.sends :: !s.sent || s.error != ""
  }

  // ---------------------------------------------------------------- from sender to receiver

  /**
   * One message goes to each peer's address, in order, and whoever receives it sees the sender's own status:
   * its id, priority, health and state, as a heartbeat seen.
   */
  lemma SentIsReceived(local: LocalNodeStatus, peers: seq<PeerConfig>, answers: TransportAnswers, i: nat,
                       receiver: LocalNodeStatus, others: seq<PeerConfig>, arriving: TransportAnswers, origin: string)
    requires |answers.sends| == |peers| && i < |peers| && |arriving.sends| == |others|
    requires var sent := ExchangeOnce(local, peers, answers).outgoing;
      i < |sent| ==> arriving.receive.datagram == Some(Datagram(origin, Message(sent[i].1)))
    ensures var sent := ExchangeOnce(local, peers, answers).outgoing;
      |sent| == |peers| && sent[i].0 == peers[i].address
    ensures var received := ExchangeOnce(receiver, others, arriving).receive;
      && received.peerStatus == Some(PeerStatus(local.nodeId, local.priority, local.healthy, true, local.state))
      && received.peerAddress == origin && received.error == arriving.receive.error
  {
  }

  /** What an exchange reports of the transport's answers; a datagram that does not parse brings its own error. */
  lemma ExchangeReports(local: LocalNodeStatus, peers: seq<PeerConfig>, answers: TransportAnswers)
    requires |answers.sends| == |peers|
    ensures var x, r := ExchangeOnce(local, peers, answers), answers.receive;
      && |x.sends| == |peers|
      && (forall i :: 0 <= i < |peers| ==>
            x.sends[i] == SendObservation(peers[i].id, answers.sends[i].peerAddress, answers.sends[i].sent, answers.sends[i].error))
      && x.receive.attempted && x.receive.timedOut == r.timedOut && x.receive.timeoutMs == r.timeoutMs
      && (x.receive.peerStatus.Some? <==> r.datagram.Some? && r.datagram.value.payload.Message?)
      && (x.receive.error != "" <==> r.error != "" || (r.datagram.Some? && r.datagram.value.payload.Unparsable?))
  {
  }
}
