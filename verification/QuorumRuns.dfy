/** The quorum gate over whole runs of the daemon loop: what it counts, when the count is right, who can pass. */
module QuorumRuns {
  import opened Text
  import opened Sets
  import opened FailoverDecision
  import opened HeartbeatLoop
  import opened Config
  import opened DaemonLifecycle
  import opened KeyOrder
  import opened PeerTables
  import opened DaemonMachine
  import opened DaemonRuns
  import opened PeerHistory

  /** The peer list that the decision of pass `k` receives. */
  function PeersAt(q: Request, inputs: seq<Input>, k: nat): seq<PeerStatus>
    requires InputsFit(q, inputs) && k < |inputs|
  {
    PeersOfPass(q, At(q, inputs, k), inputs[k])
  }

  predicate GateRefuses(q: Request, inputs: seq<Input>, k: nat)
    requires InputsFit(q, inputs) && k < |inputs|
  {
    QuorumRefused(PeersAt(q, inputs, k), ElectionPolicyFromConfig(q.config))
  }

  predicate WantsMasterAt(q: Request, inputs: seq<Input>, k: nat)
    requires InputsFit(q, inputs) && k < |inputs|
  {
    Completes(q, inputs, k) && WantsMaster(LifecycleAt(q, inputs, k).decision.value.action)
  }

  predicate StillRuns(q: Request, inputs: seq<Input>, k: nat)
    requires InputsFit(q, inputs)
  {
    k < |inputs| && At(q, inputs, k).exit.None? && q.config.heartbeatTimeoutMs > 0
  }

  /** The roster part of the list; empty without discovery. */
  function DiscoveredAt(q: Request, inputs: seq<Input>, k: nat): seq<PeerStatus>
    requires InputsFit(q, inputs) && k < |inputs|
  {
    var s, c := At(q, inputs, k), q.config.discovery;
    if DiscoveryActive(q) then
      ActivePeersOf(DiscoverIfActive(q, s, inputs[k].drained).0.roster, s.elapsedMs, c.timeoutMs, q.discovery.selfMac)
    else []
  }

  lemma PeersAreLiveThenDiscovered(q: Request, inputs: seq<Input>, k: nat)
    requires InputsFit(q, inputs) && k < |inputs|
    ensures PeersAt(q, inputs, k) == ActivePeerStatuses(LiveAt(q, inputs, k)) + DiscoveredAt(q, inputs, k)
  {
    hide At, RunBeat, DiscoverIfActive, ActivePeerStatuses, ActivePeersOf;
  }

  /** What a pass decides depends on its list and on whether the host owns the VIP, not on the warmup gate. */
  lemma PassDecides(q: Request, inputs: seq<Input>, k: nat)
    requires InputsFit(q, inputs) && k < |inputs|
    ensures var s, input := At(q, inputs, k), inputs[k];
      var owner := ProbedOwner(input.platform.probe);
      var decision := Decide(LocalStatusFromOwnership(q.config, true, owner), PeersAt(q, inputs, k), ElectionPolicyFromConfig(q.config));
      && DecisionFor(LifecycleRequestOf(q, s, input), owner) == decision
      && (IdlePass(q, s, input) <==> Planned(decision.action, owner) == [])
      && (Completes(q, inputs, k) ==> LifecycleAt(q, inputs, k).decision == Some(decision))
  {
    hide At, PeersOfPass, LifecycleWith, RunBeat, Decide;
    var lq := LifecycleRequestOf(q, At(q, inputs, k), inputs[k]);
    var decision := DecisionFor(lq, ProbedOwner(inputs[k].platform.probe));
    if Completes(q, inputs, k) { CompletedDecision(lq, inputs[k].platform, decision); }
  }

  /** A pass that the gate refuses never ends in wanting the VIP. */
  lemma RefusedPassNeverWantsMaster(q: Request, inputs: seq<Input>, k: nat)
    requires InputsFit(q, inputs) && k < |inputs| && GateRefuses(q, inputs, k)
    ensures !WantsMasterAt(q, inputs, k)
  {
    hide At, PeersAt, QuorumRefused, LifecycleAt, BeatAt, DecisionFor;
    PassDecides(q, inputs, k);
  }

  // ---------------------------------------------------------------- counting ids

  lemma {:induction false} FewerIdsThanPeers(peers: seq<PeerConfig>)
    ensures |set p | p in peers :: p.id| <= |peers|
  {
    if peers != [] {
      var front, last := peers[..|peers| - 1], peers[|peers| - 1];
      FewerIdsThanPeers(front);
      assert peers == front + [last];
      assert (set p | p in peers :: p.id) == (set p | p in front :: p.id) + {last.id};
    }
  }

  /** With distinct ids the cluster size is the number of configured nodes. */
  lemma {:induction false} DistinctPeersCounted(peers: seq<PeerConfig>)
    requires forall a, b :: 0 <= a < b < |peers| ==> peers[a].id != peers[b].id
    ensures |set p | p in peers :: p.id| == |peers|
  {
    if peers != [] {
      var front, last := peers[..|peers| - 1], peers[|peers| - 1];
      DistinctPeersCounted(front);
      assert peers == front + [last];
      assert last.id !in set p | p in front :: p.id;
      assert (set p | p in peers :: p.id) == (set p | p in front :: p.id) + {last.id};
    }
  }

  lemma OwnIdIsNotConfigured(c: Config)
    requires DistinctIds(c)
    ensures c.nodeId !in PeerIds(c)
  {
  }

  lemma ClusterSizeIsNodeCount(c: Config)
    requires DistinctIds(c)
    ensures |{c.nodeId} + PeerIds(c)| == ClusterSize(c)
  {
    DistinctPeersCounted(c.peers);
    OwnIdIsNotConfigured(c);
  }

  /** The nodes a peer list names. */
  function NodesIn(peers: seq<PeerStatus>): set<string> { set p | p in peers :: p.nodeId }

  predicate NoNodeTwice(peers: seq<PeerStatus>) {
    forall a, b :: 0 <= a < b < |peers| ==> peers[a].nodeId != peers[b].nodeId
  }

  lemma LastNodeIsNew(front: seq<PeerStatus>, last: PeerStatus)
    ensures NoNodeTwice(front + [last]) <==> NoNodeTwice(front) && last.nodeId !in NodesIn(front)
  {
    var peers := front + [last];
    if last.nodeId in NodesIn(front) {
      var a :| 0 <= a < |front| && front[a].nodeId == last.nodeId;
      assert peers[a].nodeId == peers[|front|].nodeId;
    } else {
      forall a | 0 <= a < |front| ensures front[a].nodeId != last.nodeId { assert front[a] in front; }
    }
    if NoNodeTwice(peers) {
      forall a, b | 0 <= a < b < |front| ensures front[a].nodeId != front[b].nodeId {
        assert peers[a] == front[a] && peers[b] == front[b];
      }
    }
  }

  lemma {:induction false} NodesInCount(peers: seq<PeerStatus>)
    ensures |NodesIn(peers)| <= |peers| && (|NodesIn(peers)| == |peers| <==> NoNodeTwice(peers))
  {
    if peers != [] {
      var front, last := peers[..|peers| - 1], peers[|peers| - 1];
      NodesInCount(front);
      assert peers == front + [last];
      assert NodesIn(peers) == NodesIn(front) + {last.nodeId};
      LastNodeIsNew(front, last);
      hide NodesIn, NoNodeTwice;
    }
  }

  lemma {:induction false} NoNodeTwiceInConcat(a: seq<PeerStatus>, b: seq<PeerStatus>)
    ensures NodesIn(a + b) == NodesIn(a) + NodesIn(b)
    ensures NoNodeTwice(a + b) <==> NoNodeTwice(a) && NoNodeTwice(b) && NodesIn(a) !! NodesIn(b)
  {
    if b == [] {
      assert a + b == a;
    } else {
      var front, last := b[..|b| - 1], b[|b| - 1];
      assert b == front + [last] && a + b == (a + front) + [last];
      NoNodeTwiceInConcat(a, front);
      LastNodeIsNew(front, last);
      LastNodeIsNew(a + front, last);
      hide NoNodeTwice;
      assert NodesIn(b) == NodesIn(front) + {last.nodeId};
      assert NodesIn(a + b) == NodesIn(a + front) + {last.nodeId};
    }
  }

  // ---------------------------------------------------------------- what the gate counts

  /** Every listed status counts as seen. */
  lemma ListedPeersAreSeen(q: Request, inputs: seq<Input>, k: nat)
    requires InputsFit(q, inputs) && StillRuns(q, inputs, k)
    ensures forall p <- PeersAt(q, inputs, k) :: p.heartbeatSeen
    ensures ObservedMembers(PeersAt(q, inputs, k)) == 1 + |PeersAt(q, inputs, k)|
  {
    PeersAreLiveThenDiscovered(q, inputs, k);
    forall p <- ActivePeerStatuses(LiveAt(q, inputs, k)) ensures p.heartbeatSeen { LiveStatusIsSeen(q, inputs, k, p); }
    forall p <- DiscoveredAt(q, inputs, k) ensures p.heartbeatSeen { DiscoveredStatusIsSeen(q, inputs, k, p); }
    hide PeersAt, LiveAt, DiscoveredAt, ActivePeerStatuses, At;
    AllSeenPeersAreCounted(PeersAt(q, inputs, k));
  }

  lemma LiveStatusIsSeen(q: Request, inputs: seq<Input>, k: nat, p: PeerStatus)
    requires InputsFit(q, inputs) && StillRuns(q, inputs, k) && p in ActivePeerStatuses(LiveAt(q, inputs, k))
    ensures p.heartbeatSeen
  {
    hide At, LiveAt, Values;
    var live := LiveAt(q, inputs, k);
    ValuesAreTheValues(Statuses(live), p);
    var id :| id in Statuses(live) && Statuses(live)[id] == p;
    assert id in live;
    LivePeersAreConfigured(q, inputs, k, id);
  }

  lemma DiscoveredStatusIsSeen(q: Request, inputs: seq<Input>, k: nat, p: PeerStatus)
    requires InputsFit(q, inputs) && k < |inputs| && p in DiscoveredAt(q, inputs, k)
    ensures p.heartbeatSeen
  {
    hide At, DiscoverIfActive, Values, Fresh, IsSelf;
    var s, c := At(q, inputs, k), q.config.discovery;
    var roster := DiscoverIfActive(q, s, inputs[k].drained).0.roster;
    ValuesAreTheValues(ActiveStatuses(roster, s.elapsedMs, c.timeoutMs, q.discovery.selfMac), p);
  }

  /** The heartbeat part of the list names each live peer once. */
  lemma LiveListNamesLivePeers(q: Request, inputs: seq<Input>, k: nat)
    requires InputsFit(q, inputs) && StillRuns(q, inputs, k)
    ensures var live, listed := LiveAt(q, inputs, k), ActivePeerStatuses(LiveAt(q, inputs, k));
      NodesIn(listed) == live.Keys && |listed| == |live| && NoNodeTwice(listed)
  {
    var live := LiveAt(q, inputs, k);
    forall id <- live ensures live[id].status.nodeId == id { LivePeersAreConfigured(q, inputs, k, id); }
    hide At, LiveAt;
    KeyedStatusesNameKeys(live);
  }

  lemma KeyedStatusesNameKeys(live: RecentPeers)
    requires forall id <- live :: live[id].status.nodeId == id
    ensures NodesIn(ActivePeerStatuses(live)) == live.Keys && |ActivePeerStatuses(live)| == |live|
    ensures NoNodeTwice(ActivePeerStatuses(live))
  {
    hide Values, NoNodeTwice;
    var statuses := Statuses(live);
    assert statuses.Keys == live.Keys;
    forall id ensures id in NodesIn(Values(statuses)) <==> id in live.Keys {
      if id in live { ValuesAreTheValues(statuses, statuses[id]); }
      if id in NodesIn(Values(statuses)) {
        var p :| p in Values(statuses) && p.nodeId == id;
        ValuesAreTheValues(statuses, p);
      }
    }
    NodesInCount(Values(statuses));
  }

  /** The nodes that pass `k` has word of, itself included. */
  function ViewAt(q: Request, inputs: seq<Input>, k: nat): set<string>
    requires InputsFit(q, inputs) && k < |inputs|
  {
    {q.config.nodeId} + NodesIn(PeersAt(q, inputs, k))
  }

  /** No discovered node is named twice, is live by heartbeat too, or is this node; nor is a live peer this node. */
  predicate NobodyCountedTwice(q: Request, inputs: seq<Input>, k: nat)
    requires InputsFit(q, inputs) && k < |inputs|
  {
    var live, discovered := LiveAt(q, inputs, k).Keys, DiscoveredAt(q, inputs, k);
    && NoNodeTwice(discovered) && NodesIn(discovered) !! live
    && q.config.nodeId !in NodesIn(discovered) && q.config.nodeId !in live
  }

  /**
   * In every reachable state, with discovery or without, the gate's count is the number of nodes the pass has
   * word of exactly when nobody is counted twice; otherwise it is too high.
   */
  lemma CountIsRightIffNobodyCountedTwice(q: Request, inputs: seq<Input>, k: nat)
    requires InputsFit(q, inputs) && StillRuns(q, inputs, k)
    ensures ObservedMembers(PeersAt(q, inputs, k)) >= |ViewAt(q, inputs, k)|
    ensures ObservedMembers(PeersAt(q, inputs, k)) == |ViewAt(q, inputs, k)| <==> NobodyCountedTwice(q, inputs, k)
  {
    hide At, LiveAt, DiscoveredAt, NoNodeTwice, NodesIn, ActivePeerStatuses;
    PeersAreLiveThenDiscovered(q, inputs, k);
    ListedPeersAreSeen(q, inputs, k);
    LiveListNamesLivePeers(q, inputs, k);
    NoNodeTwiceInConcat(ActivePeerStatuses(LiveAt(q, inputs, k)), DiscoveredAt(q, inputs, k));
    hide PeersAt;
    NodesInCount(PeersAt(q, inputs, k));
    CountWithOwn(q.config.nodeId, NodesIn(PeersAt(q, inputs, k)));
  }

  lemma CountWithOwn(own: string, others: set<string>)
    ensures |{own} + others| == |others| + if own in others then 0 else 1
  {
    if own in others { assert {own} + others == others; }
  }

  /** Without discovery and with distinct ids nobody is, and no stranger is listed. */
  lemma HeartbeatsCountRight(q: Request, inputs: seq<Input>, k: nat)
    requires InputsFit(q, inputs) && StillRuns(q, inputs, k) && !DiscoveryActive(q) && DistinctIds(q.config)
    ensures NobodyCountedTwice(q, inputs, k)
    ensures ViewAt(q, inputs, k) == {q.config.nodeId} + LiveAt(q, inputs, k).Keys <= {q.config.nodeId} + PeerIds(q.config)
  {
    hide At, LiveAt, PeerIds, DistinctIds, ActivePeerStatuses;
    PeersAreLiveThenDiscovered(q, inputs, k);
    assert PeersAt(q, inputs, k) == ActivePeerStatuses(LiveAt(q, inputs, k));
    LiveListNamesLivePeers(q, inputs, k);
    OwnIdIsNotConfigured(q.config);
    forall id <- LiveAt(q, inputs, k) ensures id in PeerIds(q.config) { LivePeersAreConfigured(q, inputs, k, id); }
  }

  /** Without discovery the gate counts this node and its live peers, and never more than the cluster. */
  lemma ObservedCountIsSound(q: Request, inputs: seq<Input>, k: nat)
    requires InputsFit(q, inputs) && StillRuns(q, inputs, k) && !DiscoveryActive(q)
    ensures ObservedMembers(PeersAt(q, inputs, k)) == 1 + |LiveAt(q, inputs, k)| <= ClusterSize(q.config)
  {
    forall id <- LiveAt(q, inputs, k) ensures id in PeerIds(q.config) { LivePeersAreConfigured(q, inputs, k, id); }
    hide At, LiveAt, ActivePeerStatuses, ObservedMembers;
    PeersAreLiveThenDiscovered(q, inputs, k);
    assert PeersAt(q, inputs, k) == ActivePeerStatuses(LiveAt(q, inputs, k));
    ListedPeersAreSeen(q, inputs, k);
    LiveListNamesLivePeers(q, inputs, k);
    SubsetSize(LiveAt(q, inputs, k).Keys, PeerIds(q.config));
    FewerIdsThanPeers(q.config.peers);
  }

  /** With discovery it counts this node, every live peer and every active roster entry. */
  lemma GateCountsEveryEntry(q: Request, inputs: seq<Input>, k: nat)
    requires InputsFit(q, inputs) && StillRuns(q, inputs, k)
    ensures ObservedMembers(PeersAt(q, inputs, k)) == 1 + |LiveAt(q, inputs, k)| + |DiscoveredAt(q, inputs, k)|
  {
    hide At, LiveAt, DiscoveredAt, ActivePeerStatuses, ObservedMembers;
    PeersAreLiveThenDiscovered(q, inputs, k);
    ListedPeersAreSeen(q, inputs, k);
    LiveListNamesLivePeers(q, inputs, k);
  }

  // ---------------------------------------------------------------- disjoint views

  /** Nobody is counted twice and every node that is counted belongs to the cluster `nodes`. */
  predicate CountsMembersOnly(q: Request, inputs: seq<Input>, k: nat, nodes: set<string>)
    requires InputsFit(q, inputs) && k < |inputs|
  {
    NobodyCountedTwice(q, inputs, k) && ViewAt(q, inputs, k) <= nodes
  }

  /**
   * In every reachable state, with discovery or without, the gate counts the members of the cluster that the pass
   * has word of, each once, exactly when nobody is counted twice and no stranger is; otherwise it counts more.
   */
  lemma CountIsMembersIff(q: Request, inputs: seq<Input>, k: nat, nodes: set<string>)
    requires InputsFit(q, inputs) && StillRuns(q, inputs, k)
    ensures ObservedMembers(PeersAt(q, inputs, k)) >= |ViewAt(q, inputs, k) * nodes|
    ensures ObservedMembers(PeersAt(q, inputs, k)) == |ViewAt(q, inputs, k) * nodes| <==> CountsMembersOnly(q, inputs, k, nodes)
  {
    hide At, PeersAt, ViewAt, NobodyCountedTwice, ObservedMembers;
    CountIsRightIffNobodyCountedTwice(q, inputs, k);
    var view := ViewAt(q, inputs, k);
    SubsetSize(view * nodes, view);
    if view <= nodes { assert view * nodes == view; }
  }

  /**
   * Two nodes, in any reachable states, that have word of disjoint parts of the cluster never both pass their
   * gates, nor do both want the VIP, when their thresholds add up to more than the cluster, nobody is counted
   * twice and only members are counted. With discovery each of the last two can fail (`CountIsMembersIff` says
   * exactly when), and then so does this.
   */
  lemma DisjointViewsNeverBothPass(qa: Request, ia: seq<Input>, ka: nat, qb: Request, ib: seq<Input>, kb: nat, nodes: set<string>)
    requires InputsFit(qa, ia) && StillRuns(qa, ia, ka) && InputsFit(qb, ib) && StillRuns(qb, ib, kb)
    requires CountsMembersOnly(qa, ia, ka, nodes) && CountsMembersOnly(qb, ib, kb, nodes)
    requires var a, b := ElectionPolicyFromConfig(qa.config), ElectionPolicyFromConfig(qb.config);
      a.requireQuorum && b.requireQuorum && QuorumThreshold(a) + QuorumThreshold(b) > |nodes|
    requires ViewAt(qa, ia, ka) !! ViewAt(qb, ib, kb)
    ensures GateRefuses(qa, ia, ka) || GateRefuses(qb, ib, kb)
    ensures !WantsMasterAt(qa, ia, ka) || !WantsMasterAt(qb, ib, kb)
  {
    hide At, ViewAt, PeersAt, NobodyCountedTwice, ObservedMembers, QuorumThreshold, WantsMasterAt;
    CountIsRightIffNobodyCountedTwice(qa, ia, ka);
    CountIsRightIffNobodyCountedTwice(qb, ib, kb);
    SubsetSize(ViewAt(qa, ia, ka) + ViewAt(qb, ib, kb), nodes);
    if GateRefuses(qa, ia, ka) { RefusedPassNeverWantsMaster(qa, ia, ka); } else { RefusedPassNeverWantsMaster(qb, ib, kb); }
  }

  /** Without discovery two nodes of one cluster always count right, so disjoint views are enough. */
  lemma DisjointHeartbeatViewsNeverBothPass(qa: Request, ia: seq<Input>, ka: nat, qb: Request, ib: seq<Input>, kb: nat)
    requires InputsFit(qa, ia) && StillRuns(qa, ia, ka) && InputsFit(qb, ib) && StillRuns(qb, ib, kb)
    requires !DiscoveryActive(qa) && !DiscoveryActive(qb) && DistinctIds(qa.config) && DistinctIds(qb.config)
    requires {qa.config.nodeId} + PeerIds(qa.config) == {qb.config.nodeId} + PeerIds(qb.config)
    requires var a, b := ElectionPolicyFromConfig(qa.config), ElectionPolicyFromConfig(qb.config);
      a.requireQuorum && b.requireQuorum && QuorumThreshold(a) + QuorumThreshold(b) > ClusterSize(qa.config)
    requires ViewAt(qa, ia, ka) !! ViewAt(qb, ib, kb)
    ensures GateRefuses(qa, ia, ka) || GateRefuses(qb, ib, kb)
    ensures !WantsMasterAt(qa, ia, ka) || !WantsMasterAt(qb, ib, kb)
  {
    hide StillRuns, ViewAt, NobodyCountedTwice, GateRefuses, QuorumThreshold, WantsMasterAt, PeerIds, DistinctIds,
         ClusterSize;
    HeartbeatsCountRight(qa, ia, ka);
    HeartbeatsCountRight(qb, ib, kb);
    ClusterSizeIsNodeCount(qa.config);
    DisjointViewsNeverBothPass(qa, ia, ka, qb, ib, kb, {qa.config.nodeId} + PeerIds(qa.config));
  }

  lemma AutomaticThresholdsOverlap(c: Config)
    requires DistinctIds(c) && c.election.quorumSize <= 0
    ensures 2 * QuorumThreshold(ElectionPolicyFromConfig(c)) > |{c.nodeId} + PeerIds(c)|
  {
    ClusterSizeIsNodeCount(c);
    AutomaticThresholdIsLeastMajority(ElectionPolicyFromConfig(c));
    assert ElectionPolicyFromConfig(c).clusterSize == |c.peers| + 1;
  }

  /** With automatic quorum and at least one configured peer, a lone node never satisfies the rule: it fences. */
  lemma LoneNodeNeedsExplicitQuorumOfOne(c: Config)
    requires c.election.quorumSize == 0
    ensures QuorumThreshold(ElectionPolicyFromConfig(c)) <= 1 <==> c.peers == []
  {
    assert ElectionPolicyFromConfig(c).clusterSize == |c.peers| + 1;
  }
}
