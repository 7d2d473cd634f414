/** One node's decision from what it observes: src/core/FailoverDecision.{hpp,cpp}. */
module FailoverDecision {
  import opened Text
  import opened Election

  datatype NodeState = Backup | Candidate | Master | Fault

  datatype LocalNodeStatus = LocalNodeStatus(nodeId: string, priority: int, healthy: bool, state: NodeState)

  datatype PeerStatus =
    PeerStatus(nodeId: string, priority: int, healthy: bool, heartbeatSeen: bool, state: NodeState)

  datatype FailoverAction = StayBackup | BecomeMaster | StayMaster | BecomeBackup | EnterFault

  /** The source's reason strings, one constructor for each. */
  datatype Reason =
    | LocalUnhealthy
    | QuorumLost(observed: int, need: int)
    | NoQuorum(observed: int, need: int)
    | LocalRemainsHighest
    | DeferToExistingMaster
    | LocalIsHighest
    | IncumbentRetainsVip
    | PeerIsHighest
    | PeerRemainsHighest

  datatype Decision = Decision(action: FailoverAction, selectedMaster: Option<string>, reason: Reason)

  datatype ElectionPolicy = ElectionPolicy(requireQuorum: bool, quorumSize: int, clusterSize: int, preempt: bool)

  predicate WantsMaster(action: FailoverAction) { action.BecomeMaster? || action.StayMaster? }

  predicate WantsBackup(action: FailoverAction) { action.BecomeBackup? || action.StayBackup? }

  function QuorumThreshold(policy: ElectionPolicy): int {
    if policy.quorumSize > 0 then policy.quorumSize
    else
      var size := if policy.clusterSize > 0 then policy.clusterSize else 1;
      size / 2 + 1
  }

  /** The automatic threshold is the least strict majority of the configured cluster. */
  lemma AutomaticThresholdIsLeastMajority(policy: ElectionPolicy)
    requires policy.quorumSize <= 0 && policy.clusterSize >= 1
    ensures forall t :: 2 * t > policy.clusterSize <==> t >= QuorumThreshold(policy)
  {
    assert QuorumThreshold(policy) == policy.clusterSize / 2 + 1;
  }

  function ObservedMembers(peers: seq<PeerStatus>): (n: nat)
    ensures n >= 1
  {
    if peers == [] then 1
    else ObservedMembers(peers[..|peers| - 1]) + if peers[|peers| - 1].heartbeatSeen then 1 else 0
  }

  method ObservedClusterMembers(peers: seq<PeerStatus>) returns (observed: int)
    ensures observed == ObservedMembers(peers)
  {
    observed := 1;
    for i := 0 to |peers|
      invariant observed == ObservedMembers(peers[..i])
    {
      assert peers[..i + 1][..i] == peers[..i];
      if peers[i].heartbeatSeen { observed := observed + 1; }
    }
    assert peers[..|peers|] == peers;
  }

  lemma {:induction false} AllSeenPeersAreCounted(peers: seq<PeerStatus>)
    requires forall p <- peers :: p.heartbeatSeen
    ensures ObservedMembers(peers) == 1 + |peers|
  {
    if peers != [] { AllSeenPeersAreCounted(peers[..|peers| - 1]); }
  }

  predicate IsLive(p: PeerStatus) { p.healthy && p.heartbeatSeen }

  predicate IsHealthyMaster(p: PeerStatus) { IsLive(p) && p.state.Master? }

  /** The first observed, healthy peer that advertises itself as master, if any. */
  function HealthyPeerMaster(peers: seq<PeerStatus>): (r: Option<string>)
    ensures r.None? <==> forall p <- peers :: !IsHealthyMaster(p)
    ensures r.Some? ==> exists p <- peers :: IsHealthyMaster(p) && p.nodeId == r.value
  {
    if peers == [] then None
    else if IsHealthyMaster(peers[0]) then Some(peers[0].nodeId)
    else HealthyPeerMaster(peers[1..])
  }

  predicate PeerIsHealthyMaster(peers: seq<PeerStatus>, nodeId: string) {
    exists p <- peers :: p.nodeId == nodeId && IsHealthyMaster(p)
  }

  function LocalCandidate(local: LocalNodeStatus): CandidateNode {
    CandidateNode(local.nodeId, local.priority, true)
  }

  function PeerCandidate(peer: PeerStatus): CandidateNode {
    CandidateNode(peer.nodeId, peer.priority, true)
  }

  /** The local node followed by every live peer, in the order the peers are listed. */
  function Candidates(local: LocalNodeStatus, peers: seq<PeerStatus>): (cs: seq<CandidateNode>)
    ensures forall c :: c in cs <==> c == LocalCandidate(local) || exists p <- peers :: IsLive(p) && c == PeerCandidate(p)
  {
    if peers == [] then [LocalCandidate(local)]
    else
      var last := peers[|peers| - 1];
      assert peers == peers[..|peers| - 1] + [last];
      Candidates(local, peers[..|peers| - 1]) + if IsLive(last) then [PeerCandidate(last)] else []
  }

  /** `winner.value()` in the source is safe: the healthy local node is always a candidate. */
  function Selected(local: LocalNodeStatus, peers: seq<PeerStatus>): (w: CandidateNode)
    ensures ChooseHighestPriorityHealthyNode(Candidates(local, peers)) == Some(w)
  {
    NoWinnerIffNobodyHealthy(Candidates(local, peers));
    assert LocalCandidate(local) in Candidates(local, peers);
    ChooseHighestPriorityHealthyNode(Candidates(local, peers)).value
  }

  predicate QuorumRefused(peers: seq<PeerStatus>, policy: ElectionPolicy) {
    policy.requireQuorum && ObservedMembers(peers) < QuorumThreshold(policy)
  }

  function Decide(local: LocalNodeStatus, peers: seq<PeerStatus>, policy: ElectionPolicy): Decision {
    if !local.healthy then Decision(EnterFault, None, LocalUnhealthy)
    else if QuorumRefused(peers, policy) then
      var observed, need := ObservedMembers(peers), QuorumThreshold(policy);
      if local.state.Master? then Decision(BecomeBackup, None, QuorumLost(observed, need))
      else Decision(StayBackup, None, NoQuorum(observed, need))
    else
      var selected := Selected(local, peers).nodeId;
      if selected == local.nodeId then
        if local.state.Master? then Decision(StayMaster, Some(selected), LocalRemainsHighest)
        else if !policy.preempt && HealthyPeerMaster(peers).Some? then
          Decision(StayBackup, HealthyPeerMaster(peers), DeferToExistingMaster)
        else Decision(BecomeMaster, Some(selected), LocalIsHighest)
      else if local.state.Master? then
        if !policy.preempt && !PeerIsHealthyMaster(peers, selected) then
          Decision(StayMaster, Some(local.nodeId), IncumbentRetainsVip)
        else Decision(BecomeBackup, Some(selected), PeerIsHighest)
      else Decision(StayBackup, Some(selected), PeerRemainsHighest)
  }

  /** The imperative form: the candidate vector is filled by a loop over the peers. */
  method DecideFailoverAction(local: LocalNodeStatus, peers: seq<PeerStatus>, policy: ElectionPolicy)
    returns (decision: Decision)
    ensures decision == Decide(local, peers, policy)
  {
    if !local.healthy {
      return Decision(EnterFault, None, LocalUnhealthy);
    }
    if policy.requireQuorum {
      var observed := ObservedClusterMembers(peers);
      var threshold := QuorumThreshold(policy);
      if observed < threshold {
        if local.state.Master? {
          return Decision(BecomeBackup, None, QuorumLost(observed, threshold));
        }
        return Decision(StayBackup, None, NoQuorum(observed, threshold));
      }
    }

    var candidates := [LocalCandidate(local)];
    for i := 0 to |peers|
      invariant candidates == Candidates(local, peers[..i])
    {
      assert peers[..i + 1][..i] == peers[..i];
      if !peers[i].healthy || !peers[i].heartbeatSeen { continue; }
      candidates := candidates + [PeerCandidate(peers[i])];
    }
    assert peers[..|peers|] == peers;
    ghost var w := Selected(local, peers);

    var winner := ChooseHighestPriorityHealthyNode(candidates);
    var selected := winner.value;
    if selected.nodeId == local.nodeId {
      if local.state.Master? {
        return Decision(StayMaster, Some(selected.nodeId), LocalRemainsHighest);
      }
      if !policy.preempt {
        var master := HealthyPeerMaster(peers);
        if master.Some? {
          return Decision(StayBackup, master, DeferToExistingMaster);
        }
      }
      return Decision(BecomeMaster, Some(selected.nodeId), LocalIsHighest);
    }
    if local.state.Master? {
      if !policy.preempt && !PeerIsHealthyMaster(peers, selected.nodeId) {
        return Decision(StayMaster, Some(local.nodeId), IncumbentRetainsVip);
      }
      return Decision(BecomeBackup, Some(selected.nodeId), PeerIsHighest);
    }
    return Decision(StayBackup, Some(selected.nodeId), PeerRemainsHighest);
  }

  /** The action is a matter of which peers are seen and how many: never of their order. */
  lemma ActionIgnoresPeerOrder(local: LocalNodeStatus, a: seq<PeerStatus>, b: seq<PeerStatus>, policy: ElectionPolicy)
    requires forall p :: p in a <==> p in b
    requires policy.requireQuorum ==> ObservedMembers(a) == ObservedMembers(b)
    ensures Decide(local, a, policy).action == Decide(local, b, policy).action
  {
    assert forall c :: c in Candidates(local, a) <==> c in Candidates(local, b) by {
      forall c ensures c in Candidates(local, a) <==> c in Candidates(local, b) {
        assert (exists p <- a :: IsLive(p) && c == PeerCandidate(p)) <==> (exists p <- b :: IsLive(p) && c == PeerCandidate(p));
      }
    }
    ElectionDependsOnlyOnTheSet(Candidates(local, a), Candidates(local, b));
  }

  /** A node only ever claims the VIP from backup and only ever gives it up from master. */
  lemma ActionFitsState(local: LocalNodeStatus, peers: seq<PeerStatus>, policy: ElectionPolicy)
    ensures var action := Decide(local, peers, policy).action;
      && (action.EnterFault? <==> !local.healthy)
      && (action.StayMaster? || action.BecomeBackup? ==> local.state.Master?)
      && (action.StayBackup? || action.BecomeMaster? ==> !local.state.Master?)
  {
  }

  /** With no peer in sight the node claims the VIP exactly when a lone node satisfies the quorum rule. */
  lemma IsolatedNodeDecision(local: LocalNodeStatus, policy: ElectionPolicy)
    requires local.healthy
    ensures WantsMaster(Decide(local, [], policy).action) <==> !policy.requireQuorum || QuorumThreshold(policy) <= 1
  {
    WinnerIsUniqueMaximum(Candidates(local, []), Selected(local, []));
  }

  /** Whoever is named as master is this node or a live peer; nobody is named without quorum. */
  lemma SelectedMasterIsLive(local: LocalNodeStatus, peers: seq<PeerStatus>, policy: ElectionPolicy)
    ensures var d := Decide(local, peers, policy);
      && (d.selectedMaster.None? <==> !local.healthy || QuorumRefused(peers, policy))
      && (d.selectedMaster.Some? ==>
            d.selectedMaster.value == local.nodeId || exists p <- peers :: IsLive(p) && p.nodeId == d.selectedMaster.value)
  {
    WinnerIsUniqueMaximum(Candidates(local, peers), Selected(local, peers));
  }

  // ---------------------------------------------------------------- the decision by rank

  /** The peers that are healthy and were heard, in the order listed. */
  function WithoutDead(peers: seq<PeerStatus>): (living: seq<PeerStatus>)
    ensures forall p :: p in living <==> p in peers && p.healthy && p.heartbeatSeen
  {
    if peers == [] then []
    else if peers[0].healthy && peers[0].heartbeatSeen then [peers[0]] + WithoutDead(peers[1..])
    else WithoutDead(peers[1..])
  }

  lemma {:induction false} FirstMasterIsLiving(peers: seq<PeerStatus>)
    ensures HealthyPeerMaster(WithoutDead(peers)) == HealthyPeerMaster(peers)
  {
    if peers != [] {
      FirstMasterIsLiving(peers[1..]);
      if peers[0].healthy && peers[0].heartbeatSeen {
        assert WithoutDead(peers)[1..] == WithoutDead(peers[1..]);
      }
    }
  }

  lemma SameElection(local: LocalNodeStatus, peers: seq<PeerStatus>)
    ensures Selected(local, WithoutDead(peers)) == Selected(local, peers)
  {
    var living := WithoutDead(peers);
    hide WithoutDead, Candidates, ChooseHighestPriorityHealthyNode;
    forall c ensures c in Candidates(local, peers) <==> c in Candidates(local, living) {
      assert (exists p <- peers :: IsLive(p) && c == PeerCandidate(p)) <==> (exists p <- living :: IsLive(p) && c == PeerCandidate(p));
    }
    ElectionDependsOnlyOnTheSet(Candidates(local, peers), Candidates(local, living));
  }

  lemma SameMasters(peers: seq<PeerStatus>, id: string)
    ensures PeerIsHealthyMaster(peers, id) <==> PeerIsHealthyMaster(WithoutDead(peers), id)
  {
    hide WithoutDead;
  }

  /** An unhealthy or unheard peer counts at the gate at most: beyond it, striking it out changes nothing. */
  lemma DeadPeersDoNotMatter(local: LocalNodeStatus, peers: seq<PeerStatus>, policy: ElectionPolicy)
    requires !QuorumRefused(peers, policy) && !QuorumRefused(WithoutDead(peers), policy)
    ensures Decide(local, peers, policy) == Decide(local, WithoutDead(peers), policy)
  {
    hide QuorumRefused, WithoutDead, Selected, HealthyPeerMaster, PeerIsHealthyMaster;
    FirstMasterIsLiving(peers);
    SameElection(local, peers);
    SameMasters(peers, Selected(local, peers).nodeId);
  }

  /** The places of the list whose peer was heard, healthy or not. */
  function SeenAt(peers: seq<PeerStatus>): set<int> { set i | 0 <= i < |peers| && peers[i].heartbeatSeen }

  /** The gate counts this node and every peer that was heard. */
  lemma {:induction false} ObservedMembersAreSeen(peers: seq<PeerStatus>)
    ensures ObservedMembers(peers) == 1 + |SeenAt(peers)|
  {
    hide SeenAt;
    if peers == [] {
      NothingSeen();
    } else {
      ObservedMembersAreSeen(peers[..|peers| - 1]);
      LastSeen(peers[..|peers| - 1], peers[|peers| - 1]);
      assert peers == peers[..|peers| - 1] + [peers[|peers| - 1]];
    }
  }

  lemma NothingSeen()
    ensures SeenAt([]) == {}
  {
  }

  lemma LastSeen(front: seq<PeerStatus>, last: PeerStatus)
    ensures |SeenAt(front + [last])| == |SeenAt(front)| + if last.heartbeatSeen then 1 else 0
  {
    assert SeenAt(front + [last]) == SeenAt(front) + if last.heartbeatSeen then {|front|} else {};
  }

  /** What the quorum rule asks for, written out: an explicit size, or else a strict majority. */
  predicate GatePassed(peers: seq<PeerStatus>, policy: ElectionPolicy) {
    policy.requireQuorum ==>
      1 + |SeenAt(peers)| >= if policy.quorumSize > 0 then policy.quorumSize
                             else if policy.clusterSize > 0 then policy.clusterSize / 2 + 1 else 1
  }

  predicate Above(priority: int, id: string, otherPriority: int, otherId: string) {
    priority > otherPriority || (priority == otherPriority && Less(id, otherId))
  }

  /** `id` with `priority` is this node or a peer that is healthy and was heard, and none of these is above it. */
  ghost predicate Top(local: LocalNodeStatus, peers: seq<PeerStatus>, id: string, priority: int) {
    && ((id == local.nodeId && priority == local.priority)
        || exists p <- peers :: p.healthy && p.heartbeatSeen && p.nodeId == id && p.priority == priority)
    && !Above(local.priority, local.nodeId, priority, id)
    && forall p <- peers :: p.healthy && p.heartbeatSeen ==> !Above(p.priority, p.nodeId, priority, id)
  }

  lemma GateIsQuorumRule(peers: seq<PeerStatus>, policy: ElectionPolicy)
    ensures GatePassed(peers, policy) <==> !QuorumRefused(peers, policy)
  {
    ObservedMembersAreSeen(peers);
  }

  lemma SelectedIsTop(local: LocalNodeStatus, peers: seq<PeerStatus>, id: string, priority: int)
    ensures Top(local, peers, id, priority) <==> Selected(local, peers) == CandidateNode(id, priority, true)
  {
    var cs, w := Candidates(local, peers), CandidateNode(id, priority, true);
    WinnerIsUniqueMaximum(cs, w);
    if Top(local, peers, id, priority) {
      forall c <- cs ensures c == w || RanksBelow(c, w) {
        HealthyCandidatesAreRanked(c, w);
      }
    } else if w in cs && forall c <- cs :: c == w || RanksBelow(c, w) {
      forall c <- cs ensures !Above(c.priority, c.nodeId, priority, id) {
        ComparatorIsStrictWeakOrder(c, w, w);
      }
      assert LocalCandidate(local) in cs;
      forall p <- peers | p.healthy && p.heartbeatSeen ensures !Above(p.priority, p.nodeId, priority, id) {
        assert IsLive(p) && PeerCandidate(p) in cs;
      }
    }
  }

  /**
   * The whole decision by rank. Past the gate a healthy node goes by the top of itself and the peers that are
   * healthy and were heard. If that is itself, it takes or keeps the VIP, unless it is no master, preemption is off
   * and one of those peers is master. If it is another node, it stays or becomes backup, unless it is master,
   * preemption is off and the other is none.
   */
  lemma DecisionByRank(local: LocalNodeStatus, peers: seq<PeerStatus>, policy: ElectionPolicy, id: string, priority: int)
    requires local.healthy && GatePassed(peers, policy) && Top(local, peers, id, priority)
    ensures var d := Decide(local, peers, policy);
      var defers := !policy.preempt && exists p <- peers :: p.healthy && p.heartbeatSeen && p.state.Master?;
      var retains := !policy.preempt && !exists p <- peers :: p.healthy && p.heartbeatSeen && p.state.Master? && p.nodeId == id;
      && d.action == (if id == local.nodeId then
                        if local.state.Master? then StayMaster else if defers then StayBackup else BecomeMaster
                      else if local.state.Master? then if retains then StayMaster else BecomeBackup
                      else StayBackup)
      && (if id == local.nodeId && !local.state.Master? && defers then
            exists p <- peers :: p.healthy && p.heartbeatSeen && p.state.Master? && d.selectedMaster == Some(p.nodeId)
          else d.selectedMaster == Some(if local.state.Master? && retains then local.nodeId else id))
      && d.reason == match d.action
                     case BecomeMaster => LocalIsHighest
                     case StayMaster => if id == local.nodeId then LocalRemainsHighest else IncumbentRetainsVip
                     case StayBackup => if id == local.nodeId then DeferToExistingMaster else PeerRemainsHighest
                     case _ => PeerIsHighest
  {
    hide GatePassed, QuorumRefused, Top;
    GateIsQuorumRule(peers, policy);
    SelectedIsTop(local, peers, id, priority);
    assert forall p <- peers :: IsHealthyMaster(p) <==> p.healthy && p.heartbeatSeen && p.state.Master?;
    assert PeerIsHealthyMaster(peers, id) <==> exists p <- peers :: p.healthy && p.heartbeatSeen && p.state.Master? && p.nodeId == id;
  }

  /** Refused by the gate, a master gives up the VIP and any other node stays backup; the count and the demand are reported. */
  lemma RefusedDecision(local: LocalNodeStatus, peers: seq<PeerStatus>, policy: ElectionPolicy)
    requires local.healthy && !GatePassed(peers, policy)
    ensures var d, observed := Decide(local, peers, policy), 1 + |SeenAt(peers)|;
      var need := if policy.quorumSize > 0 then policy.quorumSize else if policy.clusterSize > 0 then policy.clusterSize / 2 + 1 else 1;
      d == if local.state.Master? then Decision(BecomeBackup, None, QuorumLost(observed, need))
           else Decision(StayBackup, None, NoQuorum(observed, need))
  {
    ObservedMembersAreSeen(peers);
  }

  lemma SomebodyIsTop(local: LocalNodeStatus, peers: seq<PeerStatus>)
    ensures exists id, priority :: Top(local, peers, id, priority)
  {
    hide Top;
    var w := Selected(local, peers);
    WinnerIsUniqueMaximum(Candidates(local, peers), w);
    SelectedIsTop(local, peers, w.nodeId, w.priority);
  }

  /** Which nodes want the VIP at all. */
  lemma WantsMasterIff(local: LocalNodeStatus, peers: seq<PeerStatus>, policy: ElectionPolicy)
    ensures WantsMaster(Decide(local, peers, policy).action) <==>
      && local.healthy && GatePassed(peers, policy)
      && exists id, priority :: Top(local, peers, id, priority)
           && if id == local.nodeId then
                local.state.Master? || policy.preempt || forall p <- peers :: !(p.healthy && p.heartbeatSeen && p.state.Master?)
              else
                && local.state.Master? && !policy.preempt
                && forall p <- peers :: p.healthy && p.heartbeatSeen && p.state.Master? ==> p.nodeId != id
  {
    SomebodyIsTop(local, peers);
    GateIsQuorumRule(peers, policy);
    hide Top, GatePassed, QuorumRefused;
    if local.healthy && GatePassed(peers, policy) {
      forall id, priority | Top(local, peers, id, priority)
        ensures Selected(local, peers) == CandidateNode(id, priority, true)
      {
        SelectedIsTop(local, peers, id, priority);
      }
      var id, priority :| Top(local, peers, id, priority);
      DecisionByRank(local, peers, policy, id, priority);
    }
  }

  /**
   * A backup claims the VIP when the gate lets it, every peer that is healthy and was heard ranks below it, and
   * preemption is on or none of these is master. Peers that are dead may have any priority and state.
   */
  lemma BestBackupClaims(local: LocalNodeStatus, peers: seq<PeerStatus>, policy: ElectionPolicy)
    requires local.healthy && !local.state.Master? && GatePassed(peers, policy)
    requires policy.preempt || forall p <- peers :: p.healthy && p.heartbeatSeen ==> !p.state.Master?
    requires forall p <- peers :: p.healthy && p.heartbeatSeen ==>
               p.priority < local.priority || (p.priority == local.priority && (p.nodeId == local.nodeId || Less(local.nodeId, p.nodeId)))
    ensures Decide(local, peers, policy) == Decision(BecomeMaster, Some(local.nodeId), LocalIsHighest)
  {
    LessIrreflexive(local.nodeId);
    forall p <- peers | p.healthy && p.heartbeatSeen ensures !Above(p.priority, p.nodeId, local.priority, local.nodeId) {
      if Less(p.nodeId, local.nodeId) && Less(local.nodeId, p.nodeId) {
        LessTransitive(p.nodeId, local.nodeId, p.nodeId);
        LessIrreflexive(p.nodeId);
      }
    }
    assert Top(local, peers, local.nodeId, local.priority);
    hide Top, GatePassed;
    DecisionByRank(local, peers, policy, local.nodeId, local.priority);
  }

  /** A backup that sees a better live peer stays backup. */
  lemma BetterPeerKeepsBackup(local: LocalNodeStatus, peers: seq<PeerStatus>, policy: ElectionPolicy, better: PeerStatus)
    requires local.healthy && !local.state.Master?
    requires better in peers && IsLive(better) && better.priority > local.priority && better.nodeId != local.nodeId
    requires forall p <- peers :: p.nodeId != local.nodeId
    ensures Decide(local, peers, policy).action == StayBackup
  {
    hide QuorumRefused;
    var w := Selected(local, peers);
    WinnerIsUniqueMaximum(Candidates(local, peers), w);
    assert PeerCandidate(better) in Candidates(local, peers);
  }
}
