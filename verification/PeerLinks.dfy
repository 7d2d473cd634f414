/** From one daemon to another: what a running node tells of itself, by heartbeat and by beacon, and what arrives. */
module PeerLinks {
  import opened Text
  import opened FailoverDecision
  import opened HeartbeatLoop
  import opened Config
  import opened DaemonLifecycle
  import opened KeyOrder
  import opened Beacons
  import opened PeerTables
  import opened DaemonMachine
  import opened DaemonRuns
  import opened PeerHistory
  import opened QuorumRuns
  import opened DiscoveryRuns

  // ---------------------------------------------------------------- what a node knows of itself

  /** Before pass `k`: whether the latest pass that ran its iteration found this node to own the VIP. */
  predicate FoundOwner(q: Request, inputs: seq<Input>, k: nat)
    requires k <= |inputs|
  {
    k > 0 &&
    if inputs[k - 1].shutdownInLifecycle then FoundOwner(q, inputs, k - 1)
    else q.config.vip.address != "" && inputs[k - 1].platform.probe.success && inputs[k - 1].platform.probe.localOwner
  }

  /** The status is this node's own, healthy, and master exactly if the node last found itself the owner. */
  lemma {:induction false} OwnStatusIs(q: Request, inputs: seq<Input>, k: nat)
    requires InputsFit(q, inputs) && k <= |inputs| && At(q, inputs, k).exit.None?
    ensures At(q, inputs, k).localStatus
         == LocalNodeStatus(q.config.nodeId, q.config.priority, true, if FoundOwner(q, inputs, k) then Master else Backup)
  {
    hide At, Step, LifecycleOf;
    StartsAtZero(q, inputs);
    if k > 0 {
      var s, input := At(q, inputs, k - 1), inputs[k - 1];
      PassJGoesOn(q, inputs, k - 1, k);
      OwnStatusIs(q, inputs, k - 1);
      PassRecordsBroadcasts(q, s, input);
      StatusAfterPass(q, s, input);
    }
  }

  lemma StatusAfterPass(q: Request, s: LoopState, input: Input)
    requires InputFits(q, input) && !LifecycleOf(q, s, input).finalState.Faulted?
    ensures var r := LifecycleOf(q, s, input);
      var owner := q.config.vip.address != "" && input.platform.probe.success && input.platform.probe.localOwner;
      && (r.iterationRan <==> !input.shutdownInLifecycle)
      && (r.iterationRan ==>
            StatusAfter(r) == LocalNodeStatus(q.config.nodeId, q.config.priority, true, if owner then Master else Backup))
  {
    hide PeersOfPass, Lifecycle, Valid;
    var lq := LifecycleRequestOf(q, s, input);
    IterationRunsIff(lq, input.platform);
    if !input.shutdownInLifecycle && q.config.vip.address != "" {
      if !input.platform.probe.success { FailedProbe(lq, input.platform); }
      ProbeDecides(lq, input.platform);
    }
  }

  // ---------------------------------------------------------------- by heartbeat

  /** A due pass hands one message to every configured peer, in order. */
  lemma DuePassSends(q: Request, inputs: seq<Input>, k: nat, i: nat)
    requires InputsFit(q, inputs) && k < |inputs| && BeatAt(q, inputs, k).due && i < |q.config.peers|
    ensures BeatAt(q, inputs, k).exchange.Some?
    ensures var sent := BeatAt(q, inputs, k).exchange.value.outgoing; |sent| == |q.config.peers| && sent[i].0 == q.config.peers[i].address
  {
    hide At, Expired, Remember, ConfiguredPeerHeard, SendFailed, Received;
  }

  /**
   * Heartbeats: if what a pass of one daemon hands over for one of its peers is the datagram that a due pass of
   * another daemon receives, and the sender is configured there, then the receiver holds, and decides on, the
   * sender's status: healthy, seen, and master exactly if the sender last found itself the owner.
   */
  lemma HeartbeatArrives(q: Request, inputs: seq<Input>, j: nat, i: nat, other: Request, others: seq<Input>, k: nat, origin: string)
    requires InputsFit(q, inputs) && Starts(q, inputs, j) && BeatAt(q, inputs, j).due && i < |q.config.peers|
    requires InputsFit(other, others) && Reaches(other, others, k) && BeatAt(other, others, k).due
    requires (exists p <- other.config.peers :: p.id == q.config.nodeId) && other.config.heartbeatTimeoutMs > 0
    requires var x := BeatAt(q, inputs, j).exchange;
      x.Some? && i < |x.value.outgoing|
      ==> others[k].transport.receive.datagram == Some(Datagram(origin, Message(x.value.outgoing[i].1)))
    ensures var status := PeerStatus(q.config.nodeId, q.config.priority, true, true, if FoundOwner(q, inputs, j) then Master else Backup);
      && q.config.nodeId in LiveAt(other, others, k)
      && LiveAt(other, others, k)[q.config.nodeId] == RecentPeer(status, ElapsedAt(other, others, k))
      && status in PeersAt(other, others, k)
    ensures At(other, others, k + 1).recent == LiveAt(other, others, k)
  {
    hide At, Step, RunBeat, ExchangeOnce, FoundOwner, ActivePeerStatuses, DiscoveredAt, Heard;
    NextPassKeepsLive(other, others, k);
    OwnStatusIs(q, inputs, j);
    DuePassSends(q, inputs, j, i);
    var s := At(q, inputs, j);
    DueExchange(q, s, inputs[j]);
    SentIsReceived(s.localStatus, q.config.peers, inputs[j].transport, i,
                   At(other, others, k).localStatus, other.config.peers, others[k].transport, origin);
    DueExchange(other, At(other, others, k), others[k]);
    ConfiguredIsHeard(other, BeatAt(other, others, k), q.config.nodeId);
    BeatUpdatesMap(other, At(other, others, k), others[k], q.config.nodeId);
    PeersAreLiveThenDiscovered(other, others, k);
    LiveIsListed(LiveAt(other, others, k), q.config.nodeId);
  }

  lemma ConfiguredIsHeard(q: Request, beat: Beat, id: string)
    requires !beat.fault && beat.receive.peerStatus.Some? && beat.receive.peerStatus.value.nodeId == id
    requires exists p <- q.config.peers :: p.id == id
    ensures Heard(q, beat) == beat.receive.peerStatus
  {
  }

  lemma DueExchange(q: Request, s: LoopState, input: Input)
    requires InputFits(q, input) && RunBeat(q, s, input).due
    ensures RunBeat(q, s, input).exchange == Some(ExchangeOnce(s.localStatus, q.config.peers, input.transport))
    ensures RunBeat(q, s, input).receive == ExchangeOnce(s.localStatus, q.config.peers, input.transport).receive
  {
    hide Expired, Remember, ConfiguredPeerHeard, SendFailed, Received;
  }

  lemma LiveIsListed(m: RecentPeers, id: string)
    requires id in m
    ensures m[id].status in ActivePeerStatuses(m)
  {
    hide Values;
    ValueIsListed(Statuses(m), id);
  }

  lemma ValueIsListed<T>(m: map<string, T>, id: string)
    requires id in m
    ensures m[id] in Values(m)
  {
    hide Values;
    ValuesCount(m, m[id]);
    assert id in Holders(m, m[id]);
  }

  lemma NextPassKeepsLive(q: Request, inputs: seq<Input>, k: nat)
    requires InputsFit(q, inputs) && Reaches(q, inputs, k)
    ensures At(q, inputs, k + 1).recent == LiveAt(q, inputs, k)
  {
    hide RunBeat, LifecycleOf, DiscoverIfActive, PeersOfPass, Record, EffectiveStepMs, WarmsUp;
  }

  // ---------------------------------------------------------------- by beacon

  lemma SentBeacon(q: Request, s: LoopState, drained: seq<string>, payload: string)
    requires DiscoverIfActive(q, s, drained).1 == [payload]
    ensures var b := MakeBeacon(q, s.localStatus, (s.discovery.seqNo + 1) % 0x1_0000_0000_0000_0000);
      DiscoveryActive(q) && payload == SignBeacon(b, q.discovery.secret)
  {
    hide SignBeacon, MakeBeacon, Ingest, Pruned;
  }

  lemma MadeBeacon(q: Request, local: LocalNodeStatus, number: nat)
    requires Sendable(q) && INT_MIN <= q.config.priority <= INT_MAX && number <= UINT64_MAX
    requires local.nodeId == q.config.nodeId && local.priority == q.config.priority
    ensures var b := MakeBeacon(q, local, number);
      && Representable(b) && WellFormed(b) && (b.mac != "" || b.nodeId != "") && b.cluster == q.config.discovery.cluster
      && b.nodeId == local.nodeId && b.priority == local.priority && b.healthy == local.healthy && b.state == local.state
      && IdentityOf(b) == OwnIdentity(q) != ""
  {
    hide Clean;
  }

  lemma CleanBeaconIsTaken(b: Beacon, q: Request, other: Request)
    requires Representable(b) && WellFormed(b) && (b.mac != "" || b.nodeId != "") && b.cluster == q.config.discovery.cluster
    requires other.discovery.secret == q.discovery.secret && other.config.discovery.cluster == q.config.discovery.cluster
    requires other.discovery.selfMac != IdentityOf(b)
    ensures Taken(other, SignBeacon(b, q.discovery.secret)) == Some(b)
  {
    hide SignBeacon, Verify, WellFormed;
    BeaconRoundTrip(b, q.discovery.secret);
  }

  /** The beacon drained last in a pass is the latest of its identity there. */
  lemma LastDrainedIsLatest(q: Request, inputs: seq<Input>, k: nat, b: Beacon)
    requires InputsFit(q, inputs) && k < |inputs| && inputs[k].drained != []
    requires Taken(q, inputs[k].drained[|inputs[k].drained| - 1]) == Some(b)
    ensures Latest(LogAt(q, inputs, k + 1), IdentityOf(b)) == Some(Entry(b, ElapsedAt(q, inputs, k)))
  {
    hide Taken, ElapsedAt;
    var drained, atMs := inputs[k].drained, ElapsedAt(q, inputs, k);
    var front := LogAt(q, inputs, k) + EventsOf(q, drained[..|drained| - 1], atMs);
    assert EventsOf(q, drained, atMs) == EventsOf(q, drained[..|drained| - 1], atMs) + [ObserveEvent(b, atMs)];
    var log := LogAt(q, inputs, k + 1);
    assert log[..|log| - 1] == front + [ObserveEvent(b, atMs)];
  }

  /**
   * Beacons: what a pass of one daemon broadcasts, if it is the last payload that a pass of another daemon of the
   * same cluster and secret drains, is in that pass a peer with the sender's status, as by heartbeat. The sender's
   * strings hold no newline and its identity is not the receiver's.
   */
  lemma BeaconArrives(q: Request, inputs: seq<Input>, j: nat, other: Request, others: seq<Input>, k: nat, payload: string)
    requires InputsFit(q, inputs) && Starts(q, inputs, j) && Sendable(q) && INT_MIN <= q.config.priority <= INT_MAX
    requires DiscoverIfActive(q, At(q, inputs, j), inputs[j].drained).1 == [payload]
    requires InputsFit(other, others) && Reaches(other, others, k) && DiscoveryActive(other)
    requires others[k].drained != [] && others[k].drained[|others[k].drained| - 1] == payload
    requires other.discovery.secret == q.discovery.secret && other.config.discovery.cluster == q.config.discovery.cluster
    requires other.discovery.selfMac != OwnIdentity(q) && other.config.discovery.timeoutMs >= 0
    ensures var status := PeerStatus(q.config.nodeId, q.config.priority, true, true, if FoundOwner(q, inputs, j) then Master else Backup);
      status in DiscoveredAt(other, others, k) && status in PeersAt(other, others, k)
  {
    var s := At(q, inputs, j);
    hide At, Step, SignBeacon, Taken, DiscoverIfActive, LogAt, Latest, RunBeat, FoundOwner, Sendable, OwnIdentity, IdentityOf,
         DiscoveredAt, MakeBeacon, Representable, WellFormed, InputsFit;
    OwnStatusIs(q, inputs, j);
    SentBeacon(q, s, inputs[j].drained, payload);
    var number := (s.discovery.seqNo + 1) % 0x1_0000_0000_0000_0000;
    var b := MakeBeacon(q, s.localStatus, number);
    MadeBeacon(q, s.localStatus, number);
    CleanBeaconIsTaken(b, q, other);
    LastDrainedIsLatest(other, others, k, b);
    BeaconIsListed(other, others, k, b);
    PeersAreLiveThenDiscovered(other, others, k);
  }

  lemma BeaconIsListed(q: Request, inputs: seq<Input>, k: nat, b: Beacon)
    requires InputsFit(q, inputs) && k < |inputs| && At(q, inputs, k).exit.None? && DiscoveryActive(q)
    requires Latest(LogAt(q, inputs, k + 1), IdentityOf(b)) == Some(Entry(b, ElapsedAt(q, inputs, k)))
    requires IdentityOf(b) != "" && IdentityOf(b) != q.discovery.selfMac && q.config.discovery.timeoutMs >= 0
    ensures PeerStatus(b.nodeId, b.priority, b.healthy, true, b.state) in DiscoveredAt(q, inputs, k)
  {
    hide At, DiscoverIfActive, LogAt, Latest, Values;
    DiscoveredPeersRefineHistory(q, inputs, k, IdentityOf(b));
    var c, s := q.config.discovery, At(q, inputs, k);
    var roster := DiscoverIfActive(q, s, inputs[k].drained).0.roster;
    ValueIsListed(ActiveStatuses(roster, s.elapsedMs, c.timeoutMs, q.discovery.selfMac), IdentityOf(b));
  }
}
