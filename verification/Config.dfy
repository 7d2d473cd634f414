/** The parts of src/config/Config.hpp that the daemon loop reads. */
module Config {
  import opened FailoverDecision
  import opened HeartbeatLoop

  datatype VipConfig = VipConfig(address: string, interface: string)

  datatype ElectionConfig = ElectionConfig(requireQuorum: bool, preempt: bool, quorumSize: int)

  datatype DiscoveryConfig = DiscoveryConfig(enabled: bool, cluster: string, intervalMs: int, timeoutMs: int)

  datatype Config = Config(
    nodeId: string,
    priority: int,
    vip: VipConfig,
    heartbeatBind: string,
    heartbeatIntervalMs: int,
    heartbeatTimeoutMs: int,
    healthIntervalMs: int,
    election: ElectionConfig,
    allowNetworkMutation: bool,
    discovery: DiscoveryConfig,
    peers: seq<PeerConfig>)

  /** The rules of Config::validate that concern these parts. */
  predicate Valid(c: Config) {
    && c.nodeId != "" && c.priority > 0
    && (c.vip.address == "" <==> c.vip.interface == "")
    && c.heartbeatBind != "" && c.heartbeatIntervalMs > 0 && c.heartbeatTimeoutMs > 0
    && c.healthIntervalMs > 0
    && (forall p <- c.peers :: p.id != "" && p.address != "")
    && 0 <= c.election.quorumSize <= |c.peers| + 1
    && (c.discovery.enabled ==> c.discovery.cluster != "" && c.discovery.intervalMs > 0 && c.discovery.timeoutMs > 0)
  }

  /**
   * What Config::validate does not check and the quorum claims need: peer ids are distinct and none
   * of them is this node's own.
   */
  ghost predicate DistinctIds(c: Config) {
    && (forall p <- c.peers :: p.id != c.nodeId)
    && (forall a, b :: 0 <= a < b < |c.peers| ==> c.peers[a].id != c.peers[b].id)
  }

  function PeerIds(c: Config): set<string> { set p | p in c.peers :: p.id }

  predicate PeerIsConfigured(c: Config, id: string) { exists p <- c.peers :: p.id == id }

  function ClusterSize(c: Config): nat { |c.peers| + 1 }

  function ElectionPolicyFromConfig(c: Config): ElectionPolicy {
    ElectionPolicy(c.election.requireQuorum, c.election.quorumSize, ClusterSize(c), c.election.preempt)
  }

  function LocalStatusFromOwnership(c: Config, healthy: bool, vipOwner: bool): LocalNodeStatus {
    LocalNodeStatus(c.nodeId, c.priority, healthy, if vipOwner then Master else Backup)
  }
}
