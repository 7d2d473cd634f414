/**
 * Running daemons as the nodes of a cluster: once the lists that their passes receive are complete and truthful,
 * the rounds of Cluster are what they do.
 */
module ClusterRuns {
  import opened FailoverDecision
  import opened Config
  import opened DaemonLifecycle
  import opened DaemonMachine
  import opened DaemonRuns
  import opened QuorumRuns
  import opened Sets
  import C = Cluster

  /** The daemon of node `id`, whose probe knows whether the node owns the VIP, completes pass `k`. */
  ghost predicate ActsAs(q: Request, inputs: seq<Input>, k: nat, nodes: C.Nodes, owners: set<string>, id: string) {
    && InputsFit(q, inputs) && k < |inputs| && Completes(q, inputs, k)
    && id in nodes && q.config.nodeId == id && q.config.priority == nodes[id]
    && inputs[k].platform.probe.success && inputs[k].platform.probe.localOwner == (id in owners)
  }

  /**
   * A pass that sees exactly its block, whatever way its list came about, wants the VIP if and only if its node is
   * among the owners that the block has after a round.
   */
  lemma PassFollowsBlock(q: Request, inputs: seq<Input>, k: nat, nodes: C.Nodes, owners: set<string>, block: set<string>, id: string)
    requires ActsAs(q, inputs, k, nodes, owners, id)
    requires block <= nodes.Keys && id in block && C.SeesExactly(nodes, owners, block, id, PeersAt(q, inputs, k))
    ensures WantsMasterAt(q, inputs, k) <==> id in C.BlockOwners(nodes, owners, ElectionPolicyFromConfig(q.config), block)
  {
    hide At, PeersAt, Completes, LifecycleAt, DecisionFor, IdlePass, Decide, C.BlockOwners, C.SeesExactly, C.Top;
    PassDecides(q, inputs, k);
    C.MemberDecision(nodes, owners, ElectionPolicyFromConfig(q.config), block, id, PeersAt(q, inputs, k));
  }

  /** One node's daemon and the pass it is in. */
  datatype Member = Member(q: Request, inputs: seq<Input>, k: nat)

  ghost predicate TakesPart(nodes: C.Nodes, owners: set<string>, policy: ElectionPolicy, r: C.Round, id: string, m: Member) {
    && ActsAs(m.q, m.inputs, m.k, nodes, owners, id)
    && ElectionPolicyFromConfig(m.q.config) == policy
    && id in r.viewOf && PeersAt(m.q, m.inputs, m.k) == r.viewOf[id]
  }

  ghost predicate DaemonRound(nodes: C.Nodes, owners: set<string>, policy: ElectionPolicy, r: C.Round, members: map<string, Member>) {
    && C.ValidRound(nodes, owners, r) && members.Keys == nodes.Keys
    && forall id :: id in members ==> TakesPart(nodes, owners, policy, r, id, members[id])
  }

  /** One pass of every daemon is a round: those that want the VIP are exactly the next owners. */
  lemma DaemonsMakeRound(nodes: C.Nodes, owners: set<string>, policy: ElectionPolicy, r: C.Round, members: map<string, Member>, id: string)
    requires DaemonRound(nodes, owners, policy, r, members) && id in nodes
    ensures C.EveryNodeListed(nodes, r) && InputsFit(members[id].q, members[id].inputs) && members[id].k < |members[id].inputs|
    ensures WantsMasterAt(members[id].q, members[id].inputs, members[id].k) <==> id in C.NextOwners(nodes, owners, policy, r)
  {
    hide At, PeersAt, Completes, WantsMasterAt, Decide, C.BlockOwners, C.SeesExactly, C.Top, C.NextOwners,
         C.IsPartition, InputsFit;
    var m := members[id];
    assert TakesPart(nodes, owners, policy, r, id, m);
    assert C.SeesItsBlock(nodes, owners, r, id);
    C.EveryNodeSees(nodes, owners, r);
    C.OwnBlock(nodes, owners, r, id);
    C.RoundOutcome(nodes, owners, policy, r, id);
    PassFollowsBlock(m.q, m.inputs, m.k, nodes, owners, r.blockOf[id], id);
    assert id in C.NextOwners(nodes, owners, policy, r) <==> id in C.NextOwners(nodes, owners, policy, r) * r.blockOf[id];
  }

  /** With a manager that really acts, the hosts that own the VIP after the pass are exactly the next owners. */
  lemma HostsFollowRound(nodes: C.Nodes, owners: set<string>, policy: ElectionPolicy, r: C.Round, members: map<string, Member>, id: string,
                         ownedAtStart: bool)
    requires DaemonRound(nodes, owners, policy, r, members) && id in nodes
    requires var m := members[id];
      InputsFit(m.q, m.inputs) && m.k < |m.inputs| && HonestPlatform(m.q, m.inputs, m.k, ownedAtStart)
    ensures C.EveryNodeListed(nodes, r)
    ensures HostAt(members[id].q, members[id].inputs, members[id].k + 1, ownedAtStart) <==> id in C.NextOwners(nodes, owners, policy, r)
  {
    hide At, PeersAt, Completes, LifecycleAt, HostAt, HonestPlatform, C.NextOwners, C.ValidRound, InputsFit;
    var m := members[id];
    assert TakesPart(nodes, owners, policy, r, id, m);
    DaemonsMakeRound(nodes, owners, policy, r, members, id);
    OwnershipTracksDecision(m.q, m.inputs, m.k, ownedAtStart);
  }

  /** So with preemption and a majority threshold, real daemons with complete views never want the VIP twice. */
  lemma DaemonsClaimOnce(nodes: C.Nodes, owners: set<string>, policy: ElectionPolicy, r: C.Round, members: map<string, Member>, i: string, j: string)
    requires DaemonRound(nodes, owners, policy, r, members) && C.MajorityQuorum(nodes, policy)
    requires policy.preempt || |owners| <= 1
    requires i in nodes && j in nodes && TakesPart(nodes, owners, policy, r, i, members[i]) && TakesPart(nodes, owners, policy, r, j, members[j])
    requires WantsMasterAt(members[i].q, members[i].inputs, members[i].k) && WantsMasterAt(members[j].q, members[j].inputs, members[j].k)
    ensures i == j
  {
    hide At, PeersAt, WantsMasterAt, C.NextOwners, C.ValidRound, C.MajorityQuorum, TakesPart, InputsFit,
         C.QuorateBlock, C.IncumbentRule;
    DaemonsMakeRound(nodes, owners, policy, r, members, i);
    DaemonsMakeRound(nodes, owners, policy, r, members, j);
    var next := C.NextOwners(nodes, owners, policy, r);
    assert C.IsStep(nodes, policy, owners, r, next);
    if policy.preempt {
      C.PreemptiveStep(nodes, policy, owners, r, next);
    } else {
      C.SingleOwnerStep(nodes, policy, owners, r, next);
    }
    SubsetSize({i, j}, next);
  }
}
