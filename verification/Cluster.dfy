/**
 * The election of src/core lifted to a cluster that partitions and heals: in each round every node
 * decides at once from the nodes of its own block, and the VIP's owners are the nodes that want it.
 */
module Cluster {
  import opened Text
  import opened Election
  import opened FailoverDecision
  import opened Sets

  /** Configured nodes, from id to priority. A map, so ids are distinct. */
  type Nodes = map<string, int>

  function StateOf(owners: set<string>, id: string): NodeState {
    if id in owners then Master else Backup
  }

  /** The daemon reports itself healthy in every iteration (src/runtime/DaemonRuntime.cpp:509). */
  function LocalStatus(nodes: Nodes, owners: set<string>, id: string): LocalNodeStatus
    requires id in nodes
  {
    LocalNodeStatus(id, nodes[id], true, StateOf(owners, id))
  }

  function StatusAsPeer(nodes: Nodes, owners: set<string>, id: string): PeerStatus
    requires id in nodes
  {
    PeerStatus(id, nodes[id], true, true, StateOf(owners, id))
  }

  /** `peers` lists the other members of `block`, each once and truthfully, in any order. */
  ghost predicate SeesExactly(nodes: Nodes, owners: set<string>, block: set<string>, id: string, peers: seq<PeerStatus>)
    requires block <= nodes.Keys
  {
    && (forall p <- peers :: p.nodeId in block && p.nodeId != id && p == StatusAsPeer(nodes, owners, p.nodeId))
    && (forall j <- block :: j != id ==> StatusAsPeer(nodes, owners, j) in peers)
    && (forall a, b :: 0 <= a < b < |peers| ==> peers[a] != peers[b])
  }

  /** Who can hear whom in one round, and the peer list each node ends up with. */
  datatype Round = Round(blockOf: map<string, set<string>>, viewOf: map<string, seq<PeerStatus>>)

  ghost predicate IsPartition(nodes: Nodes, blockOf: map<string, set<string>>) {
    && blockOf.Keys == nodes.Keys
    && (forall i <- nodes :: i in blockOf[i] && blockOf[i] <= nodes.Keys)
    && (forall i <- nodes, j <- blockOf[i] :: j in nodes && blockOf[j] == blockOf[i])
  }

  ghost predicate SeesItsBlock(nodes: Nodes, owners: set<string>, r: Round, id: string) {
    && id in r.blockOf && id in r.viewOf && r.blockOf[id] <= nodes.Keys
    && SeesExactly(nodes, owners, r.blockOf[id], id, r.viewOf[id])
  }

  ghost predicate ValidRound(nodes: Nodes, owners: set<string>, r: Round) {
    && IsPartition(nodes, r.blockOf)
    && r.viewOf.Keys == nodes.Keys
    && forall i {:trigger SeesItsBlock(nodes, owners, r, i)} :: i in nodes ==> SeesItsBlock(nodes, owners, r, i)
  }

  ghost predicate ForCluster(nodes: Nodes, policy: ElectionPolicy) { policy.clusterSize == |nodes| }

  function NodeDecision(nodes: Nodes, owners: set<string>, policy: ElectionPolicy, r: Round, id: string): Decision
    requires id in nodes && id in r.viewOf
  {
    Decide(LocalStatus(nodes, owners, id), r.viewOf[id], policy)
  }

  function NextOwners(nodes: Nodes, owners: set<string>, policy: ElectionPolicy, r: Round): (next: set<string>)
    requires r.viewOf.Keys == nodes.Keys
    ensures next <= nodes.Keys
  {
    set id | id in nodes && WantsMaster(NodeDecision(nodes, owners, policy, r, id).action)
  }

  // ---------------------------------------------------------------- ranking inside a block

  predicate Outranks(nodes: Nodes, i: string, j: string)
    requires i in nodes && j in nodes
  {
    nodes[i] > nodes[j] || (nodes[i] == nodes[j] && Less(i, j))
  }

  ghost predicate IsTop(nodes: Nodes, block: set<string>, t: string)
    requires block <= nodes.Keys
  {
    t in block && forall j <- block :: j != t ==> Outranks(nodes, t, j)
  }

  lemma {:induction false} TopExists(nodes: Nodes, block: set<string>)
    requires block <= nodes.Keys && block != {}
    ensures exists t :: IsTop(nodes, block, t)
  {
    var i :| i in block;
    if block != {i} {
      var rest := block - {i};
      TopExists(nodes, rest);
      var t :| IsTop(nodes, rest, t);
      LessTotal(i, t);
      if Outranks(nodes, i, t) {
        forall j <- block | j != i ensures Outranks(nodes, i, j) {
          if j != t {
            assert Outranks(nodes, t, j);
            if nodes[i] == nodes[t] == nodes[j] { LessTransitive(i, t, j); }
          }
        }
        assert IsTop(nodes, block, i);
      } else {
        assert IsTop(nodes, block, t);
      }
    } else {
      assert IsTop(nodes, block, i);
    }
  }

  lemma TopIsUnique(nodes: Nodes, block: set<string>, t: string, u: string)
    requires block <= nodes.Keys && IsTop(nodes, block, t) && IsTop(nodes, block, u)
    ensures t == u
  {
    if t != u && Less(t, u) && Less(u, t) { LessTransitive(t, u, t); LessIrreflexive(t); }
  }

  ghost function Top(nodes: Nodes, block: set<string>): (t: string)
    requires block <= nodes.Keys && block != {}
    ensures IsTop(nodes, block, t)
  {
    TopExists(nodes, block);
    var t :| IsTop(nodes, block, t); t
  }

  /** Every member of a block selects the block's top-ranked node, whatever order its peers come in. */
  lemma MembersSelectTop(nodes: Nodes, owners: set<string>, block: set<string>, id: string, peers: seq<PeerStatus>)
    requires block <= nodes.Keys && id in block && SeesExactly(nodes, owners, block, id, peers)
    ensures Selected(LocalStatus(nodes, owners, id), peers).nodeId == Top(nodes, block)
  {
    var local, t := LocalStatus(nodes, owners, id), Top(nodes, block);
    var w := CandidateNode(t, nodes[t], true);
    var cs := Candidates(local, peers);
    assert w in cs by {
      if t != id { assert StatusAsPeer(nodes, owners, t) in peers; }
    }
    WinnerIsUniqueMaximum(cs, w);
  }

  // ---------------------------------------------------------------- counting

  lemma {:induction false} DistinctPeersCount(ids: set<string>, peers: seq<PeerStatus>)
    requires forall p <- peers :: p.nodeId in ids
    requires forall j <- ids :: exists p <- peers :: p.nodeId == j
    requires forall a, b :: 0 <= a < b < |peers| ==> peers[a].nodeId != peers[b].nodeId
    ensures |peers| == |ids|
  {
    if peers == [] {
      assert forall j <- ids :: exists p <- peers :: p.nodeId == j;
      assert ids == {};
    } else {
      var last := peers[|peers| - 1];
      var front := peers[..|peers| - 1];
      assert peers == front + [last];
      forall j <- ids - {last.nodeId} ensures exists p <- front :: p.nodeId == j {
        var p :| p in peers && p.nodeId == j;
        assert p in front;
      }
      DistinctPeersCount(ids - {last.nodeId}, front);
    }
  }

  /** Quorum counts the block itself: one for the node and one for each other member. */
  lemma ObservesItsBlock(nodes: Nodes, owners: set<string>, block: set<string>, id: string, peers: seq<PeerStatus>)
    requires block <= nodes.Keys && id in block && SeesExactly(nodes, owners, block, id, peers)
    ensures ObservedMembers(peers) == |block|
  {
    AllSeenPeersAreCounted(peers);
    forall j <- block - {id} ensures exists p <- peers :: p.nodeId == j {
      assert StatusAsPeer(nodes, owners, j) in peers;
    }
    DistinctPeersCount(block - {id}, peers);
  }

  // ---------------------------------------------------------------- one round

  predicate Quorate(policy: ElectionPolicy, block: set<string>) {
    policy.requireQuorum ==> |block| >= QuorumThreshold(policy)
  }

  /** Who owns the VIP inside `block` after a round, given who owned it before. */
  ghost function BlockOwners(nodes: Nodes, owners: set<string>, policy: ElectionPolicy, block: set<string>): (after: set<string>)
    requires block <= nodes.Keys && block != {}
    ensures after <= block
  {
    var top := Top(nodes, block);
    if !Quorate(policy, block) then {}
    else if policy.preempt || owners * block == {} || top in owners then {top}
    else owners * block
  }

  lemma MemberDecision(nodes: Nodes, owners: set<string>, policy: ElectionPolicy, block: set<string>, id: string,
                       peers: seq<PeerStatus>)
    requires block <= nodes.Keys && id in block && SeesExactly(nodes, owners, block, id, peers)
    ensures WantsMaster(Decide(LocalStatus(nodes, owners, id), peers, policy).action)
       <==> id in BlockOwners(nodes, owners, policy, block)
  {
    var top := Top(nodes, block);
    MembersSelectTop(nodes, owners, block, id, peers);
    ObservesItsBlock(nodes, owners, block, id, peers);
    assert PeerIsHealthyMaster(peers, top) <==> top != id && top in owners by {
      if top != id && top in owners { assert IsHealthyMaster(StatusAsPeer(nodes, owners, top)); }
    }
    if HealthyPeerMaster(peers).None? {
      forall j <- owners * block ensures j == id {
        if j != id {
          var p := StatusAsPeer(nodes, owners, j);
          assert p in peers && IsHealthyMaster(p);
        }
      }
    } else {
      var p :| p in peers && IsHealthyMaster(p);
      assert p.nodeId in owners * block;
    }
  }

  /**
   * The exact outcome of a round, block by block, for every policy. In particular a non-preemptive
   * dual master is resolved only when the top-ranked node is itself one of the masters.
   */
  lemma RoundOutcome(nodes: Nodes, owners: set<string>, policy: ElectionPolicy, r: Round, id: string)
    requires ValidRound(nodes, owners, r) && id in nodes
    ensures NextOwners(nodes, owners, policy, r) * r.blockOf[id] == BlockOwners(nodes, owners, policy, r.blockOf[id])
  {
    var block := r.blockOf[id];
    forall j <- block ensures j in NextOwners(nodes, owners, policy, r) <==> j in BlockOwners(nodes, owners, policy, block) {
      assert SeesItsBlock(nodes, owners, r, j);
      MemberDecision(nodes, owners, policy, block, j, r.viewOf[j]);
    }
  }

  /** The automatic threshold, or an explicit one that is a strict majority of the cluster. */
  predicate MajorityQuorum(nodes: Nodes, policy: ElectionPolicy) {
    policy.requireQuorum && 2 * QuorumThreshold(policy) > |nodes|
  }

  lemma AutomaticQuorumIsMajority(nodes: Nodes, policy: ElectionPolicy)
    requires ForCluster(nodes, policy) && policy.requireQuorum && policy.quorumSize <= 0
    ensures MajorityQuorum(nodes, policy)
  {
    assert 2 * (|nodes| / 2 + 1) > |nodes|;
  }

  ghost predicate HasQuorateBlock(nodes: Nodes, policy: ElectionPolicy, blockOf: map<string, set<string>>, id: string) {
    id in nodes && id in blockOf && Quorate(policy, blockOf[id])
  }

  /** A block that passes the quorum gate, if the partition has one. */
  ghost function QuorateBlock(nodes: Nodes, policy: ElectionPolicy, blockOf: map<string, set<string>>): (b: Option<set<string>>)
    requires IsPartition(nodes, blockOf)
    ensures b.Some? ==> b.value <= nodes.Keys && b.value != {} && Quorate(policy, b.value)
    ensures b.Some? ==> exists id :: HasQuorateBlock(nodes, policy, blockOf, id) && b.value == blockOf[id]
    ensures b.None? ==> forall id <- nodes :: !Quorate(policy, blockOf[id])
  {
    if exists id :: HasQuorateBlock(nodes, policy, blockOf, id) then
      var id :| HasQuorateBlock(nodes, policy, blockOf, id);
      assert id in blockOf[id];
      Some(blockOf[id])
    else
      assert forall id <- nodes :: Quorate(policy, blockOf[id]) ==> HasQuorateBlock(nodes, policy, blockOf, id);
      None
  }

  /** Under a majority quorum it is the only one: two majorities share a node, and blocks that meet are equal. */
  lemma QuorateBlockIsUnique(nodes: Nodes, policy: ElectionPolicy, blockOf: map<string, set<string>>, id: string)
    requires IsPartition(nodes, blockOf) && MajorityQuorum(nodes, policy)
    requires id in nodes && Quorate(policy, blockOf[id])
    ensures QuorateBlock(nodes, policy, blockOf) == Some(blockOf[id])
  {
    assert HasQuorateBlock(nodes, policy, blockOf, id);
    var j :| HasQuorateBlock(nodes, policy, blockOf, j) && QuorateBlock(nodes, policy, blockOf).value == blockOf[j];
    assert HasQuorateBlock(nodes, policy, blockOf, j);
    MajoritiesMeet(blockOf[id], blockOf[j], nodes.Keys);
    var k :| k in blockOf[id] * blockOf[j];
    assert blockOf[k] == blockOf[id] && blockOf[k] == blockOf[j];
  }

  /** The whole cluster's owners after a round: those of the quorate block, or nobody. */
  ghost function OwnersAfter(nodes: Nodes, owners: set<string>, policy: ElectionPolicy, blockOf: map<string, set<string>>): set<string>
    requires IsPartition(nodes, blockOf)
  {
    match QuorateBlock(nodes, policy, blockOf)
    case None => {}
    case Some(block) => BlockOwners(nodes, owners, policy, block)
  }

  lemma MajorityRound(nodes: Nodes, owners: set<string>, policy: ElectionPolicy, r: Round)
    requires ValidRound(nodes, owners, r) && MajorityQuorum(nodes, policy)
    ensures NextOwners(nodes, owners, policy, r) == OwnersAfter(nodes, owners, policy, r.blockOf)
  {
    hide NextOwners, Top, Quorate, MajorityQuorum, QuorateBlock, SeesItsBlock;
    forall id <- nodes
      ensures id in NextOwners(nodes, owners, policy, r) <==> id in OwnersAfter(nodes, owners, policy, r.blockOf)
    {
      var block := r.blockOf[id];
      RoundOutcome(nodes, owners, policy, r, id);
      assert id in NextOwners(nodes, owners, policy, r) <==> id in BlockOwners(nodes, owners, policy, block);
      if Quorate(policy, block) {
        QuorateBlockIsUnique(nodes, policy, r.blockOf, id);
      } else {
        NotInQuorateBlock(nodes, policy, r.blockOf, id);
      }
    }
    assert OwnersAfter(nodes, owners, policy, r.blockOf) <= nodes.Keys;
  }

  lemma NotInQuorateBlock(nodes: Nodes, policy: ElectionPolicy, blockOf: map<string, set<string>>, id: string)
    requires IsPartition(nodes, blockOf) && id in nodes && !Quorate(policy, blockOf[id])
    ensures var b := QuorateBlock(nodes, policy, blockOf); b.Some? ==> id !in b.value
  {
    var b := QuorateBlock(nodes, policy, blockOf);
    if b.Some? {
      var j :| HasQuorateBlock(nodes, policy, blockOf, j) && b.value == blockOf[j];
      assert HasQuorateBlock(nodes, policy, blockOf, j);
    }
  }

  // ---------------------------------------------------------------- whole runs

  ghost predicate IsStep(nodes: Nodes, policy: ElectionPolicy, before: set<string>, r: Round, after: set<string>) {
    ValidRound(nodes, before, r) && after == NextOwners(nodes, before, policy, r)
  }

  /** `history[k]` is the owner set before round `k`; rounds partition the nodes as they please. */
  ghost predicate IsRun(nodes: Nodes, policy: ElectionPolicy, rounds: seq<Round>, history: seq<set<string>>) {
    && |history| == |rounds| + 1
    && forall k :: 0 <= k < |rounds| ==> IsStep(nodes, policy, history[k], rounds[k], history[k + 1])
  }

  lemma PreemptiveStep(nodes: Nodes, policy: ElectionPolicy, before: set<string>, r: Round, after: set<string>)
    requires IsStep(nodes, policy, before, r, after) && MajorityQuorum(nodes, policy) && policy.preempt
    ensures after == match QuorateBlock(nodes, policy, r.blockOf)
                     case None => {}
                     case Some(block) => {Top(nodes, block)}
    ensures |after| <= 1
  {
    MajorityRound(nodes, before, policy, r);
  }

  lemma DisplacedMasterReleases(nodes: Nodes, policy: ElectionPolicy, before: set<string>, r: Round, after: set<string>,
                                id: string)
    requires IsStep(nodes, policy, before, r, after) && id in nodes && id in before && id !in after
    ensures NodeDecision(nodes, before, policy, r, id).action.BecomeBackup?
  {
    assert !WantsMaster(NodeDecision(nodes, before, policy, r, id).action);
  }

  /**
   * Preemptive election with a majority quorum, from ANY initial owners: after every round the owner
   * is the top-ranked node of the quorate block, or nobody when no block is quorate; and every other
   * old master decided to become backup.
   */
  lemma PreemptiveRunSafety(nodes: Nodes, policy: ElectionPolicy, rounds: seq<Round>, history: seq<set<string>>, k: nat)
    requires IsRun(nodes, policy, rounds, history) && k < |rounds|
    requires MajorityQuorum(nodes, policy) && policy.preempt
    ensures IsStep(nodes, policy, history[k], rounds[k], history[k + 1])
    ensures history[k + 1] == match QuorateBlock(nodes, policy, rounds[k].blockOf)
                              case None => {}
                              case Some(block) => {Top(nodes, block)}
    ensures |history[k + 1]| <= 1
    ensures forall id <- nodes :: id in history[k] && id !in history[k + 1] ==>
              NodeDecision(nodes, history[k], policy, rounds[k], id).action.BecomeBackup?
  {
    PreemptiveStep(nodes, policy, history[k], rounds[k], history[k + 1]);
    forall id <- nodes | id in history[k] && id !in history[k + 1]
      ensures NodeDecision(nodes, history[k], policy, rounds[k], id).action.BecomeBackup?
    {
      DisplacedMasterReleases(nodes, policy, history[k], rounds[k], history[k + 1], id);
    }
  }

  /** The non-preemptive rule: the incumbent if it is in the quorate block, else that block's top, else nobody. */
  ghost function IncumbentRule(nodes: Nodes, policy: ElectionPolicy, before: set<string>, blockOf: map<string, set<string>>): set<string>
    requires IsPartition(nodes, blockOf)
  {
    match QuorateBlock(nodes, policy, blockOf)
    case None => {}
    case Some(block) => if before * block != {} then before else {Top(nodes, block)}
  }

  lemma SingleOwnerStep(nodes: Nodes, policy: ElectionPolicy, before: set<string>, r: Round, after: set<string>)
    requires IsStep(nodes, policy, before, r, after) && MajorityQuorum(nodes, policy) && !policy.preempt && |before| <= 1
    ensures after == IncumbentRule(nodes, policy, before, r.blockOf) && |after| <= 1
  {
    MajorityRound(nodes, before, policy, r);
    match QuorateBlock(nodes, policy, r.blockOf)
    case None =>
    case Some(block) =>
      if o :| o in before * block {
        SubsetSize({o}, before);
        assert before == {o};
        assert before * block == {o};
      }
  }

  /**
   * Non-preemptive election with a majority quorum: a run that starts with at most one owner never
   * has two, and each of its rounds obeys the incumbent rule.
   */
  lemma {:induction false} NonPreemptiveRunSafety(nodes: Nodes, policy: ElectionPolicy, rounds: seq<Round>,
                                                  history: seq<set<string>>, k: nat)
    requires IsRun(nodes, policy, rounds, history) && k <= |rounds|
    requires MajorityQuorum(nodes, policy) && !policy.preempt && |history[0]| <= 1
    ensures |history[k]| <= 1
    ensures k < |rounds| ==>
              && IsStep(nodes, policy, history[k], rounds[k], history[k + 1])
              && history[k + 1] == IncumbentRule(nodes, policy, history[k], rounds[k].blockOf)
  {
    hide MajorityQuorum, ValidRound, NextOwners, IncumbentRule;
    if k > 0 {
      NonPreemptiveRunSafety(nodes, policy, rounds, history, k - 1);
      SingleOwnerStep(nodes, policy, history[k - 1], rounds[k - 1], history[k]);
    }
    if k < |rounds| {
      assert IsStep(nodes, policy, history[k], rounds[k], history[k + 1]);
      SingleOwnerStep(nodes, policy, history[k], rounds[k], history[k + 1]);
    }
  }

  lemma IncumbentHasBlock(nodes: Nodes, owners: set<string>, r: Round, incumbent: string)
    requires ValidRound(nodes, owners, r) && incumbent in nodes
    ensures IsPartition(nodes, r.blockOf) && incumbent in r.blockOf && incumbent in r.blockOf[incumbent]
  {
    hide SeesItsBlock;
  }

  /** Ownership leaves an incumbent exactly in the rounds whose partition takes the quorum from its block. */
  lemma IncumbentLosesOnlyWithItsQuorum(nodes: Nodes, policy: ElectionPolicy, before: set<string>, r: Round,
                                        after: set<string>, incumbent: string)
    requires IsStep(nodes, policy, before, r, after) && MajorityQuorum(nodes, policy) && !policy.preempt
    requires incumbent in nodes && before == {incumbent}
    ensures after != before <==> !Quorate(policy, r.blockOf[incumbent])
  {
    hide ValidRound, NextOwners, MajorityQuorum, Quorate, IsPartition, Top, QuorateBlock;
    IncumbentHasBlock(nodes, before, r, incumbent);
    SingleOwnerStep(nodes, policy, before, r, after);
    if Quorate(policy, r.blockOf[incumbent]) {
      QuorateBlockIsUnique(nodes, policy, r.blockOf, incumbent);
      assert incumbent in before * r.blockOf[incumbent];
    } else {
      NotInQuorateBlock(nodes, policy, r.blockOf, incumbent);
    }
  }

  // ---------------------------------------------------------------- convergence

  lemma BlockSettles(nodes: Nodes, owners: set<string>, policy: ElectionPolicy, block: set<string>, after: set<string>)
    requires block <= nodes.Keys && block != {}
    requires after * block == BlockOwners(nodes, owners, policy, block)
    ensures BlockOwners(nodes, after, policy, block) == after * block
  {
    var top := Top(nodes, block);
    if top in after { assert top in after * block; }
  }

  /**
   * One round is enough: whatever the policy and the owners, as long as the partition then stays as it
   * is, further rounds change nothing, not even with several quorate blocks and several owners.
   */
  lemma StablePartitionSettlesInOneRound(nodes: Nodes, owners: set<string>, policy: ElectionPolicy, first: Round, second: Round)
    requires ValidRound(nodes, owners, first) && ValidRound(nodes, NextOwners(nodes, owners, policy, first), second)
    requires first.blockOf == second.blockOf
    ensures NextOwners(nodes, NextOwners(nodes, owners, policy, first), policy, second) == NextOwners(nodes, owners, policy, first)
  {
    hide ValidRound, NextOwners;
    EveryNodeSees(nodes, owners, first);
    var after := NextOwners(nodes, owners, policy, first);
    EveryNodeSees(nodes, after, second);
    forall id <- nodes ensures id in NextOwners(nodes, after, policy, second) <==> id in after {
      NodeSettles(nodes, owners, policy, first, second, id);
    }
  }

  ghost predicate EveryNodeListed(nodes: Nodes, r: Round) { r.viewOf.Keys == nodes.Keys }

  lemma EveryNodeSees(nodes: Nodes, owners: set<string>, r: Round)
    requires ValidRound(nodes, owners, r)
    ensures EveryNodeListed(nodes, r)
  {
    hide SeesItsBlock, IsPartition;
  }

  lemma OwnBlock(nodes: Nodes, owners: set<string>, r: Round, id: string)
    requires ValidRound(nodes, owners, r) && id in nodes
    ensures id in r.blockOf && id in r.blockOf[id] && r.blockOf[id] <= nodes.Keys && r.viewOf.Keys == nodes.Keys
  {
    hide SeesItsBlock;
  }

  lemma NodeSettles(nodes: Nodes, owners: set<string>, policy: ElectionPolicy, first: Round, second: Round, id: string)
    requires ValidRound(nodes, owners, first) && ValidRound(nodes, NextOwners(nodes, owners, policy, first), second)
    requires first.blockOf == second.blockOf && id in nodes
    ensures id in NextOwners(nodes, NextOwners(nodes, owners, policy, first), policy, second)
       <==> id in NextOwners(nodes, owners, policy, first)
  {
    hide ValidRound, NextOwners, BlockOwners;
    OwnBlock(nodes, owners, first, id);
    var block := first.blockOf[id];
    var after := NextOwners(nodes, owners, policy, first);
    RoundOutcome(nodes, owners, policy, first, id);
    OwnBlock(nodes, after, second, id);
    RoundOutcome(nodes, after, policy, second, id);
    BlockSettles(nodes, owners, policy, block, after);
    var again := NextOwners(nodes, after, policy, second);
    assert again * block == after * block;
    assert (id in again <==> id in again * block) && (id in after <==> id in after * block);
  }

  // ---------------------------------------------------------------- complete views, no quorum

  /**
   * One block holding every node and no quorum rule. Masters never drop to none; an extra master is
   * shed exactly when election is preemptive or the top-ranked node is itself a master.
   */
  lemma CompleteViewRound(nodes: Nodes, owners: set<string>, policy: ElectionPolicy, r: Round)
    requires ValidRound(nodes, owners, r) && nodes.Keys != {} && owners <= nodes.Keys && !policy.requireQuorum
    requires forall id <- nodes :: r.blockOf[id] == nodes.Keys
    ensures var top, next := Top(nodes, nodes.Keys), NextOwners(nodes, owners, policy, r);
      && next == (if policy.preempt || owners == {} || top in owners then {top} else owners)
      && next != {}
      && (|owners| > 1 ==> (|next| < |owners| <==> policy.preempt || top in owners))
  {
    hide NextOwners, Top, ValidRound;
    EveryNodeSees(nodes, owners, r);
    var id :| id in nodes;
    RoundOutcome(nodes, owners, policy, r, id);
    assert owners * nodes.Keys == owners;
    assert NextOwners(nodes, owners, policy, r) * nodes.Keys == NextOwners(nodes, owners, policy, r);
  }

  // ---------------------------------------------------------------- how much quorum is enough

  lemma {:induction false} SubsetOfSize(all: set<string>, n: nat) returns (part: set<string>)
    requires n <= |all|
    ensures part <= all && |part| == n
  {
    if n == 0 { return {}; }
    var x :| x in all;
    var rest := SubsetOfSize(all - {x}, n - 1);
    part := rest + {x};
  }

  lemma {:induction false} ListView(nodes: Nodes, owners: set<string>, block: set<string>, id: string)
    returns (peers: seq<PeerStatus>)
    requires block <= nodes.Keys
    ensures SeesExactly(nodes, owners, block, id, peers)
    decreases |block|
  {
    if j :| j in block && j != id {
      var rest := ListView(nodes, owners, block - {j}, id);
      peers := rest + [StatusAsPeer(nodes, owners, j)];
      forall i <- block | i != id ensures StatusAsPeer(nodes, owners, i) in peers {
        if i != j { assert StatusAsPeer(nodes, owners, i) in rest; }
      }
    } else {
      peers := [];
    }
  }

  ghost predicate HasView(nodes: Nodes, owners: set<string>, block: set<string>, id: string, peers: seq<PeerStatus>) {
    block <= nodes.Keys && SeesExactly(nodes, owners, block, id, peers)
  }

  /** Every partition can be realised as a round: the peer lists exist. */
  lemma RoundForPartition(nodes: Nodes, owners: set<string>, blockOf: map<string, set<string>>) returns (r: Round)
    requires IsPartition(nodes, blockOf)
    ensures r.blockOf == blockOf && ValidRound(nodes, owners, r)
  {
    forall id <- nodes ensures exists peers :: HasView(nodes, owners, blockOf[id], id, peers) {
      var peers := ListView(nodes, owners, blockOf[id], id);
      assert HasView(nodes, owners, blockOf[id], id, peers);
    }
    r := Round(blockOf, map id | id in nodes :: var peers :| HasView(nodes, owners, blockOf[id], id, peers); peers);
  }

  /** The least number of nodes that a block needs to pass the gate. */
  function GateSize(policy: ElectionPolicy): (n: nat)
    ensures n >= 1
  {
    if policy.requireQuorum then QuorumThreshold(policy) else 1
  }

  lemma QuorateIffGateSize(policy: ElectionPolicy, block: set<string>)
    requires block != {}
    ensures Quorate(policy, block) <==> |block| >= GateSize(policy)
  {
  }

  /** Splitting the nodes in two: `part` and the rest. */
  function SplitAt(nodes: Nodes, part: set<string>): map<string, set<string>> {
    map id | id in nodes :: if id in part then part else nodes.Keys - part
  }

  lemma QuorateBlockHasOwner(nodes: Nodes, owners: set<string>, policy: ElectionPolicy, r: Round, id: string)
    requires ValidRound(nodes, owners, r) && id in nodes && Quorate(policy, r.blockOf[id])
    ensures NextOwners(nodes, owners, policy, r) * r.blockOf[id] != {}
  {
    hide NextOwners, Quorate, ValidRound;
    OwnBlock(nodes, owners, r, id);
    RoundOutcome(nodes, owners, policy, r, id);
  }

  /** Two blocks that both pass the gate end up with an owner each. */
  lemma TwoOwnersBelowMajority(nodes: Nodes, owners: set<string>, policy: ElectionPolicy) returns (r: Round)
    requires 2 * GateSize(policy) <= |nodes|
    ensures ValidRound(nodes, owners, r) && |NextOwners(nodes, owners, policy, r)| > 1
  {
    hide NextOwners, ValidRound, GateSize, Quorate;
    var a := SubsetOfSize(nodes.Keys, GateSize(policy));
    var b := nodes.Keys - a;
    assert |b| >= GateSize(policy);
    r := RoundForPartition(nodes, owners, SplitAt(nodes, a));
    var i, j :| i in a && j in b;
    QuorateIffGateSize(policy, a);
    QuorateIffGateSize(policy, b);
    EveryNodeSees(nodes, owners, r);
    QuorateBlockHasOwner(nodes, owners, policy, r, i);
    QuorateBlockHasOwner(nodes, owners, policy, r, j);
    var next := NextOwners(nodes, owners, policy, r);
    var x, y :| x in next * a && y in next * b;
    SubsetSize({x, y}, next);
  }

  /** The node itself and everybody it outranks. */
  function Below(nodes: Nodes, t: string): set<string>
    requires t in nodes
  {
    set id | id in nodes && (id == t || Outranks(nodes, t, id))
  }

  /**
   * Masters that a non-preemptive election leaves side by side: `t` is not one of them, outranks at
   * least two, and enough nodes to pass the gate are ranked at or below `t`.
   */
  predicate Stalemate(nodes: Nodes, owners: set<string>, policy: ElectionPolicy, t: string) {
    && t in nodes && t !in owners
    && |Below(nodes, t)| >= GateSize(policy) && |owners * Below(nodes, t)| > 1
  }

  lemma StalemateKeepsMasters(nodes: Nodes, owners: set<string>, policy: ElectionPolicy, t: string) returns (r: Round)
    requires !policy.preempt && Stalemate(nodes, owners, policy, t)
    ensures ValidRound(nodes, owners, r) && |NextOwners(nodes, owners, policy, r)| > 1
  {
    hide NextOwners, ValidRound, GateSize, Quorate;
    var block := Below(nodes, t);
    r := RoundForPartition(nodes, owners, SplitAt(nodes, block));
    EveryNodeSees(nodes, owners, r);
    RoundOutcome(nodes, owners, policy, r, t);
    QuorateIffGateSize(policy, block);
    TopIsUnique(nodes, block, Top(nodes, block), t);
    assert BlockOwners(nodes, owners, policy, block) == owners * block;
    SubsetSize(owners * block, NextOwners(nodes, owners, policy, r));
  }

  lemma StalemateBehindTwoOwners(nodes: Nodes, owners: set<string>, policy: ElectionPolicy, block: set<string>)
    requires block <= nodes.Keys && block != {} && |BlockOwners(nodes, owners, policy, block)| > 1
    ensures !policy.preempt && Stalemate(nodes, owners, policy, Top(nodes, block))
  {
    var t := Top(nodes, block);
    var below := Below(nodes, t);
    QuorateIffGateSize(policy, block);
    hide Top, GateSize, Quorate;
    assert block <= below;
    SubsetSize(block, below);
    SubsetSize(owners * block, owners * below);
  }

  /** With a strict majority only one block decides, and it shows a stalemate if it has two owners. */
  lemma TwoOwnersAtMajority(nodes: Nodes, owners: set<string>, policy: ElectionPolicy, r: Round)
    requires ValidRound(nodes, owners, r) && 2 * GateSize(policy) > |nodes|
    requires |NextOwners(nodes, owners, policy, r)| > 1
    ensures !policy.preempt && exists t :: Stalemate(nodes, owners, policy, t)
  {
    hide NextOwners, ValidRound, BlockOwners, Quorate, Stalemate;
    EveryNodeSees(nodes, owners, r);
    var next := NextOwners(nodes, owners, policy, r);
    var x, y := TwoMembers(next);
    SubsetSize(next, nodes.Keys);
    var block := SharedBlock(nodes, owners, policy, r, x, y);
    RoundOutcome(nodes, owners, policy, r, x);
    SubsetSize({x, y}, next * block);
    StalemateBehindTwoOwners(nodes, owners, policy, block);
  }

  /** Two owners after a round with a majority gate were in the same block. */
  lemma SharedBlock(nodes: Nodes, owners: set<string>, policy: ElectionPolicy, r: Round, x: string, y: string)
    returns (block: set<string>)
    requires ValidRound(nodes, owners, r) && 2 * GateSize(policy) > |nodes|
    requires r.viewOf.Keys == nodes.Keys
    requires x in NextOwners(nodes, owners, policy, r) && y in NextOwners(nodes, owners, policy, r)
    ensures x in nodes && x in r.blockOf && r.blockOf[x] == block
    ensures block <= nodes.Keys && x in block && y in block
  {
    block := OwnersBlockIsQuorate(nodes, owners, policy, r, x);
    var other := OwnersBlockIsQuorate(nodes, owners, policy, r, y);
    MajoritiesMeet(block, other, nodes.Keys);
    var z :| z in block * other;
    assert r.blockOf[z] == block && r.blockOf[z] == other;
  }

  lemma OwnersBlockIsQuorate(nodes: Nodes, owners: set<string>, policy: ElectionPolicy, r: Round, x: string)
    returns (block: set<string>)
    requires ValidRound(nodes, owners, r) && r.viewOf.Keys == nodes.Keys && x in NextOwners(nodes, owners, policy, r)
    ensures x in nodes && x in r.blockOf && r.blockOf[x] == block && x in block && block <= nodes.Keys
    ensures |block| >= GateSize(policy)
  {
    hide ValidRound, NextOwners, GateSize, Quorate;
    OwnBlock(nodes, owners, r, x);
    block := r.blockOf[x];
    RoundOutcome(nodes, owners, policy, r, x);
    assert x in NextOwners(nodes, owners, policy, r) * block;
    QuorateIffGateSize(policy, block);
  }

  ghost predicate TwoOwnersAfter(nodes: Nodes, owners: set<string>, policy: ElectionPolicy, r: Round) {
    ValidRound(nodes, owners, r) && |NextOwners(nodes, owners, policy, r)| > 1
  }

  /**
   * Exactly when a round can leave two owners, for every policy and all previous owners: when two
   * disjoint blocks can pass the gate, or, without preemption, when two old masters can be left side
   * by side under a better node that is no master.
   */
  lemma SplitBrainIff(nodes: Nodes, owners: set<string>, policy: ElectionPolicy)
    ensures (exists r :: TwoOwnersAfter(nodes, owners, policy, r))
       <==> 2 * GateSize(policy) <= |nodes| || (!policy.preempt && exists t :: Stalemate(nodes, owners, policy, t))
  {
    hide ValidRound, NextOwners, GateSize, Stalemate;
    if 2 * GateSize(policy) <= |nodes| {
      var r := TwoOwnersBelowMajority(nodes, owners, policy);
      assert TwoOwnersAfter(nodes, owners, policy, r);
    } else {
      if !policy.preempt && exists t :: Stalemate(nodes, owners, policy, t) {
        var t :| Stalemate(nodes, owners, policy, t);
        var r := StalemateKeepsMasters(nodes, owners, policy, t);
        assert TwoOwnersAfter(nodes, owners, policy, r);
      }
      if r :| TwoOwnersAfter(nodes, owners, policy, r) {
        TwoOwnersAtMajority(nodes, owners, policy, r);
      }
    }
  }

  /** From at most one owner, or with preemption, a strict majority is both enough and necessary. */
  lemma SplitBrainIffQuorumBelowMajority(nodes: Nodes, owners: set<string>, policy: ElectionPolicy)
    requires policy.preempt || |owners| <= 1
    ensures (exists r :: TwoOwnersAfter(nodes, owners, policy, r)) <==> 2 * GateSize(policy) <= |nodes|
  {
    SplitBrainIff(nodes, owners, policy);
    forall t ensures |owners| <= 1 ==> !Stalemate(nodes, owners, policy, t) {
      if t in nodes { SubsetSize(owners * Below(nodes, t), owners); }
    }
  }
}
