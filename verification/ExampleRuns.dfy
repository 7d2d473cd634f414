/**
 * Concrete runs with discovery that end with a host owning the VIP although its daemon has word of too few
 * members. Each has two passes and a manager that really acts in both: the first pass hears nobody and is idle,
 * the second hears what the example is about.
 */
module ExampleRuns {
  import opened Text
  import opened FailoverDecision
  import opened HeartbeatLoop
  import opened Config
  import opened DaemonLifecycle
  import opened Schedule
  import opened KeyOrder
  import opened Beacons
  import opened PeerTables
  import opened DaemonMachine
  import opened DaemonRuns
  import opened PeerHistory
  import opened QuorumRuns
  import opened QuorumReach
  import opened TurnRuns

  // ---------------------------------------------------------------- a pass that takes in one beacon

  function SingleStatus(heard: Option<PeerStatus>): seq<PeerStatus> {
    match heard
    case None => []
    case Some(status) => [status]
  }

  lemma ValuesOfOne<T>(key: string, value: T)
    ensures Values(map[key := value]) == [value]
  {
    hide Values, IsLeast;
    var m := map[key := value];
    LeastIsKey(m.Keys);
    FirstValue(m);
    assert m - {key} == map[];
    NoValues<T>();
  }

  /** A due pass without a fault that starts with an empty map keeps the peer it hears. */
  lemma BeatListsPeer(q: Request, s: LoopState, input: Input, heard: Option<PeerStatus>)
    requires InputFits(q, input) && s.recent == map[] && q.config.heartbeatTimeoutMs > 0
    requires Due(s.heartbeat, s.elapsedMs, q.config.heartbeatIntervalMs) && !RunBeat(q, s, input).fault
    requires ConfiguredPeerHeard(q.config, Received(input.transport.receive)) == heard
    ensures ActivePeerStatuses(RunBeat(q, s, input).recent) == SingleStatus(heard)
    ensures RunBeat(q, s, input).recent.Keys == if heard.Some? then {heard.value.nodeId} else {}
  {
    hide ConfiguredPeerHeard, Received, SendFailed, Values;
    var recent := RunBeat(q, s, input).recent;
    match heard {
      case None =>
        assert recent == map[] && Statuses(recent) == map[];
        NoValues<PeerStatus>();
      case Some(status) =>
        assert recent == map[status.nodeId := RecentPeer(status, s.elapsedMs)];
        assert Statuses(recent) == map[status.nodeId := status];
        ValuesOfOne(status.nodeId, status);
    }
  }

  /** `payload` is a beacon that the node `q` takes in. */
  ghost predicate Carries(q: Request, payload: string, b: Beacon) {
    && payload == SignBeacon(b, q.discovery.secret) && WellFormed(b) && b.cluster == q.config.discovery.cluster
    && IdentityOf(b) != "" && IdentityOf(b) != q.discovery.selfMac
  }

  lemma DiscoveryListsBeacon(q: Request, s: LoopState, payload: string, b: Beacon)
    requires DiscoveryActive(q) && s.discovery.roster == map[] && q.config.discovery.timeoutMs >= 0 && Carries(q, payload, b)
    ensures var roster := DiscoverIfActive(q, s, [payload]).0.roster;
      ActivePeersOf(roster, s.elapsedMs, q.config.discovery.timeoutMs, q.discovery.selfMac) == [PeerStatusFromBeacon(b)]
  {
    hide SignBeacon, Verify, PeerStatusFromBeacon, Values;
    BeaconRoundTrip(b, q.discovery.secret);
    assert [payload][..0] == [] && [payload][0] == payload;
    var roster := DiscoverIfActive(q, s, [payload]).0.roster;
    assert Ingest(q, map[], [], s.elapsedMs) == map[];
    assert roster == map[IdentityOf(b) := Entry(b, s.elapsedMs)];
    assert ActiveStatuses(roster, s.elapsedMs, q.config.discovery.timeoutMs, q.discovery.selfMac)
        == map[IdentityOf(b) := PeerStatusFromBeacon(b)];
    ValuesOfOne(IdentityOf(b), PeerStatusFromBeacon(b));
  }

  /** Nothing heard, nothing known: nobody is listed, and the roster stays empty. */
  lemma QuietDiscovery(q: Request, s: LoopState)
    requires s.discovery.roster == map[]
    ensures DiscoverIfActive(q, s, []).0.roster == map[]
    ensures ActivePeersOf(map[], s.elapsedMs, q.config.discovery.timeoutMs, q.discovery.selfMac) == []
  {
    NobodyActive(s.elapsedMs, q.config.discovery.timeoutMs, q.discovery.selfMac);
  }

  // ---------------------------------------------------------------- two passes

  /** A daemon that runs until shutdown, may really act, and needs at least one other node. */
  ghost predicate Prepared(q: Request) {
    && Valid(q.config) && q.config.election.requireQuorum && q.config.election.preempt && RealMutationRequested(q)
    && QuorumThreshold(ElectionPolicyFromConfig(q.config)) >= 2
    && q.config.vip.address != "" && q.options.runUntilShutdown && q.initialState.Stopped?
  }

  /** A steady pass of a manager that really acts, on a host that does not own the VIP. */
  ghost predicate RealPass(q: Request, inputs: seq<Input>, k: nat) {
    && InputsFit(q, inputs) && k < |inputs| && Steady(q, inputs[k]) && FixedManager(q, inputs[k].platform)
    && inputs[k].platform.probe == ProbeAnswer(true, false, "")
  }

  ghost predicate Hears(q: Request, input: Input, heard: Option<PeerStatus>) {
    ConfiguredPeerHeard(q.config, Received(input.transport.receive)) == heard
  }

  /**
   * Two real passes, each with a heartbeat due: the first hears nobody, the second one peer or none and one
   * beacon, neither of a better node, and for the gate they are enough.
   */
  ghost predicate Scene(q: Request, inputs: seq<Input>, heard: Option<PeerStatus>, b: Beacon) {
    && Prepared(q) && |inputs| == 2 && RealPass(q, inputs, 0) && RealPass(q, inputs, 1)
    && DiscoveryActive(q) && q.config.discovery.timeoutMs >= 0 && q.discovery.selfMac != ""
    && q.config.heartbeatIntervalMs <= EffectiveStepMs(q.options)
    && Hears(q, inputs[0], None) && inputs[0].drained == []
    && Hears(q, inputs[1], heard) && |inputs[1].drained| == 1 && Carries(q, inputs[1].drained[0], b)
    && (heard.Some? ==> heard.value.priority < q.config.priority)
    && (b.priority < q.config.priority || (b.priority == q.config.priority && b.nodeId == q.config.nodeId))
    && 2 + |SingleStatus(heard)| >= QuorumThreshold(ElectionPolicyFromConfig(q.config))
  }

  lemma SceneStarts(q: Request, inputs: seq<Input>, heard: Option<PeerStatus>, b: Beacon)
    requires Scene(q, inputs, heard, b)
    ensures InputsFit(q, inputs) && Uninterrupted(q, inputs, 0)
    ensures var s := At(q, inputs, 0); s.recent == map[] && s.discovery.roster == map[] && s.heartbeat == IDLE
  {
  }

  lemma RealPassHasNoFault(q: Request, inputs: seq<Input>, k: nat, s: LoopState)
    requires RealPass(q, inputs, k)
    ensures InputFits(q, inputs[k]) && !RunBeat(q, s, inputs[k]).fault
  {
    hide Steady, RunBeat, FixedManager;
    CleanBeatHasNoFault(q, s, inputs[k]);
  }

  /** Alone, a backup that needs another node is refused and idle. */
  lemma LonePassIsIdle(q: Request, inputs: seq<Input>, k: nat)
    requires Prepared(q) && RealPass(q, inputs, k) && PeersAt(q, inputs, k) == []
    ensures IdlePass(q, At(q, inputs, k), inputs[k])
  {
    hide At, PeersAt, IdlePass, Steady, FixedManager, InputsFit, Valid, RealMutationRequested, QuorumThreshold;
    PassDecides(q, inputs, k);
    NobodyObserved();
  }

  lemma NobodyObserved()
    ensures ObservedMembers([]) == 1
  {
  }

  lemma RealPassContinues(q: Request, inputs: seq<Input>, k: nat)
    requires Prepared(q) && RealPass(q, inputs, k) && Uninterrupted(q, inputs, k)
    requires k == 0 ==> IdlePass(q, At(q, inputs, k), inputs[k])
    ensures Uninterrupted(q, inputs, k + 1) && Completes(q, inputs, k)
    ensures IdlePass(q, At(q, inputs, k), inputs[k]) ==> LifecycleAt(q, inputs, k).vipOperations == []
  {
    hide At, IdlePass, Steady, FixedManager, InputsFit, RealMutationRequested, QuorumThreshold, LifecycleAt, Completes;
    FixedManagerIsFavourable(q, inputs, k);
    FavourablePassGoesOn(q, inputs, k);
  }

  /** What the next pass starts from. */
  lemma PassHandsOver(q: Request, inputs: seq<Input>, k: nat)
    requires InputsFit(q, inputs) && k < |inputs| && Uninterrupted(q, inputs, k + 1)
    ensures At(q, inputs, k + 1).recent == LiveAt(q, inputs, k)
    ensures At(q, inputs, k + 1).discovery == DiscoverIfActive(q, At(q, inputs, k), inputs[k].drained).0
  {
    hide At, Step, RunBeat, LifecycleOf, DiscoverIfActive;
    PassJGoesOn(q, inputs, k, k + 1);
    PassGoesOn(q, At(q, inputs, k), inputs[k]);
  }

  lemma RealPassIsConsistent(q: Request, inputs: seq<Input>, k: nat)
    requires Prepared(q) && RealPass(q, inputs, k) && k <= 1 && Uninterrupted(q, inputs, k)
    requires forall j :: 0 <= j < k ==> LifecycleAt(q, inputs, j).vipOperations == []
    ensures ConsistentPlatform(q, inputs, k, false) && HonestPlatform(q, inputs, k, false)
  {
    hide At, HostAt, LifecycleAt, Steady, InputsFit;
    IdleRunMovesNothing(q, inputs, k, false);
  }

  // ---------------------------------------------------------------- the first pass

  lemma FirstPassListsNobody(q: Request, inputs: seq<Input>, heard: Option<PeerStatus>, b: Beacon)
    requires Scene(q, inputs, heard, b)
    ensures InputsFit(q, inputs) && PeersAt(q, inputs, 0) == [] && LiveAt(q, inputs, 0) == map[]
    ensures DiscoverIfActive(q, At(q, inputs, 0), inputs[0].drained).0.roster == map[]
  {
    hide At, RunBeat, DiscoverIfActive, ActivePeerStatuses, ActivePeersOf, Steady, FixedManager, Carries, RealPass;
    SceneStarts(q, inputs, heard, b);
    RealPassHasNoFault(q, inputs, 0, At(q, inputs, 0));
    BeatListsPeer(q, At(q, inputs, 0), inputs[0], None);
    assert LiveAt(q, inputs, 0) == map[];
    QuietDiscovery(q, At(q, inputs, 0));
    PeersAreLiveThenDiscovered(q, inputs, 0);
  }

  /** The gate refuses, so the first pass is idle and the second begins with nobody known. */
  lemma FirstPassIsIdle(q: Request, inputs: seq<Input>, heard: Option<PeerStatus>, b: Beacon)
    requires Scene(q, inputs, heard, b)
    ensures InputsFit(q, inputs) && Uninterrupted(q, inputs, 1) && LifecycleAt(q, inputs, 0).vipOperations == []
    ensures ConsistentPlatform(q, inputs, 0, false)
    ensures At(q, inputs, 1).recent == map[] && At(q, inputs, 1).discovery.roster == map[]
  {
    hide At, Prepared, RealPass, PeersAt, LiveAt, DiscoverIfActive, IdlePass, Completes, LifecycleAt,
         ConsistentPlatform, HonestPlatform, Uninterrupted, Hears, Carries, SingleStatus, QuorumThreshold,
         DiscoveryActive, InputsFit, EffectiveStepMs;
    SceneStarts(q, inputs, heard, b);
    FirstPassListsNobody(q, inputs, heard, b);
    LonePassIsIdle(q, inputs, 0);
    RealPassContinues(q, inputs, 0);
    PassHandsOver(q, inputs, 0);
    RealPassIsConsistent(q, inputs, 0);
  }

  // ---------------------------------------------------------------- the second pass

  lemma SecondBeatIsDue(q: Request, inputs: seq<Input>, heard: Option<PeerStatus>, b: Beacon)
    requires Scene(q, inputs, heard, b) && InputsFit(q, inputs) && Uninterrupted(q, inputs, 1)
    ensures var s := At(q, inputs, 1); Due(s.heartbeat, s.elapsedMs, q.config.heartbeatIntervalMs)
    ensures StillRuns(q, inputs, 1)
  {
    var interval, step := q.config.heartbeatIntervalMs, EffectiveStepMs(q.options);
    assert TimerAt(interval, step, 0) == IDLE && TimerAt(interval, step, 1) == Timer(true, 0);
    hide At, Steady, FixedManager, Carries;
    ClockAndTimers(q, inputs, 1);
  }

  /** The list of the second pass: the peer heard, if any, and the beacon. */
  lemma SecondPassLists(q: Request, inputs: seq<Input>, heard: Option<PeerStatus>, b: Beacon)
    requires Scene(q, inputs, heard, b)
    ensures InputsFit(q, inputs) && StillRuns(q, inputs, 1)
    ensures PeersAt(q, inputs, 1) == SingleStatus(heard) + [PeerStatusFromBeacon(b)]
    ensures DiscoveredAt(q, inputs, 1) == [PeerStatusFromBeacon(b)]
    ensures LiveAt(q, inputs, 1).Keys == if heard.Some? then {heard.value.nodeId} else {}
  {
    hide At, RunBeat, DiscoverIfActive, ActivePeerStatuses, ActivePeersOf, Steady, FixedManager, Carries, RealPass,
         SingleStatus, PeerStatusFromBeacon, Due;
    FirstPassIsIdle(q, inputs, heard, b);
    SecondBeatIsDue(q, inputs, heard, b);
    var s, input := At(q, inputs, 1), inputs[1];
    RealPassHasNoFault(q, inputs, 1, s);
    BeatListsPeer(q, s, input, heard);
    DiscoveryListsBeacon(q, s, input.drained[0], b);
    assert input.drained == [input.drained[0]];
    PeersAreLiveThenDiscovered(q, inputs, 1);
  }

  lemma NodesOfTwo(heard: Option<PeerStatus>, last: PeerStatus)
    ensures NodesIn(SingleStatus(heard) + [last]) == NodesIn(SingleStatus(heard)) + {last.nodeId}
    ensures |SingleStatus(heard) + [last]| == |SingleStatus(heard)| + 1
    ensures forall p <- SingleStatus(heard) + [last] :: p == last || heard == Some(p)
  {
    NoNodeTwiceInConcat(SingleStatus(heard), [last]);
    assert last in [last];
  }

  /** Enough listed entries, none of them better than this backup: it decides to become master. */
  lemma ListedPassClaims(q: Request, inputs: seq<Input>, k: nat)
    requires Prepared(q) && RealPass(q, inputs, k) && StillRuns(q, inputs, k)
    requires 1 + |PeersAt(q, inputs, k)| >= QuorumThreshold(ElectionPolicyFromConfig(q.config))
    requires forall p <- PeersAt(q, inputs, k) ::
               p.priority < q.config.priority || (p.priority == q.config.priority && p.nodeId == q.config.nodeId)
    ensures DecisionFor(LifecycleRequestOf(q, At(q, inputs, k), inputs[k]), false).action == BecomeMaster
    ensures Completes(q, inputs, k) ==> WantsMasterAt(q, inputs, k)
  {
    hide At, PeersAt, IdlePass, Steady, FixedManager, InputsFit, Valid, RealMutationRequested, QuorumThreshold,
         DecisionFor, Completes, LifecycleAt, Decide, GatePassed;
    PassDecides(q, inputs, k);
    ListedPeersAreSeen(q, inputs, k);
    GateIsQuorumRule(PeersAt(q, inputs, k), ElectionPolicyFromConfig(q.config));
    BestBackupClaims(LocalStatusFromOwnership(q.config, true, false), PeersAt(q, inputs, k), ElectionPolicyFromConfig(q.config));
  }

  /** The nodes that the second pass has word of. */
  function ViewOf(q: Request, heard: Option<PeerStatus>, b: Beacon): set<string> {
    {q.config.nodeId, b.nodeId} + NodesIn(SingleStatus(heard))
  }

  lemma SecondPassClaims(q: Request, inputs: seq<Input>, heard: Option<PeerStatus>, b: Beacon)
    requires Scene(q, inputs, heard, b)
    ensures InputsFit(q, inputs) && StillRuns(q, inputs, 1) && ViewAt(q, inputs, 1) == ViewOf(q, heard, b)
    ensures Completes(q, inputs, 1) ==> WantsMasterAt(q, inputs, 1)
  {
    hide At, PeersAt, Prepared, RealPass, Carries, SingleStatus, NodesIn, QuorumThreshold, StillRuns, DecisionFor,
         Completes, WantsMasterAt, Hears, DiscoveryActive, InputsFit, EffectiveStepMs, DiscoveredAt, LiveAt;
    SecondPassLists(q, inputs, heard, b);
    NodesOfTwo(heard, PeerStatusFromBeacon(b));
    assert {q.config.nodeId} + (NodesIn(SingleStatus(heard)) + {b.nodeId}) == ViewOf(q, heard, b);
    ListedPassClaims(q, inputs, 1);
  }

  /**
   * In the second pass of a run whose manager really acts and whose probe is truthful, the daemon has word of
   * `view` only, needs `need` nodes, and takes the VIP all the same.
   */
  ghost predicate TakesVipFromView(q: Request, inputs: seq<Input>, view: set<string>, need: int) {
    && |inputs| == 2 && InputsFit(q, inputs) && Valid(q.config) && RealMutationRequested(q) && q.discovery.selfMac != ""
    && ConsistentPlatform(q, inputs, 0, false) && ConsistentPlatform(q, inputs, 1, false)
    && FixedManager(q, inputs[0].platform) && FixedManager(q, inputs[1].platform)
    && StillRuns(q, inputs, 1) && QuorumThreshold(ElectionPolicyFromConfig(q.config)) == need
    && ViewAt(q, inputs, 1) == view && WantsMasterAt(q, inputs, 1) && HostAt(q, inputs, 2, false)
  }

  lemma SceneTakesVip(q: Request, inputs: seq<Input>, heard: Option<PeerStatus>, b: Beacon, need: int)
    requires Scene(q, inputs, heard, b) && QuorumThreshold(ElectionPolicyFromConfig(q.config)) == need
    ensures TakesVipFromView(q, inputs, ViewOf(q, heard, b), need)
  {
    hide At, PeersAt, ViewAt, ViewOf, HostAt, LifecycleAt, IdlePass, Completes, Uninterrupted, ConsistentPlatform,
         HonestPlatform, QuorumThreshold, StillRuns, Valid, RealMutationRequested, Steady, FixedManager, Carries,
         Hears, WantsMasterAt;
    FirstPassIsIdle(q, inputs, heard, b);
    SecondPassClaims(q, inputs, heard, b);
    RealPassContinues(q, inputs, 1);
    RealPassIsConsistent(q, inputs, 1);
    OwnershipTracksDecision(q, inputs, 1, false);
    ClaimingPassWants(q, inputs, 1);
  }

  lemma ClaimingPassWants(q: Request, inputs: seq<Input>, k: nat)
    requires InputsFit(q, inputs) && k < |inputs| && WantsMasterAt(q, inputs, k)
    ensures Completes(q, inputs, k) && WantsMaster(LifecycleAt(q, inputs, k).decision.value.action)
  {
    hide At, LifecycleAt, Reaches;
  }

  // ---------------------------------------------------------------- scenes

  /** A preemptive node of priority 100 with automatic quorum and discovery that may really act. */
  function ExampleRequest(nodeId: string, peers: seq<PeerConfig>, selfMac: string): Request {
    Request(Config(nodeId, 100, VipConfig("10.0.0.50/24", "eth0"), "0.0.0.0:7000", 1000, 3000, 5000,
                   ElectionConfig(true, true, 0), true, DiscoveryConfig(true, "lan", 1000, 3000), peers),
            Options(false, 0, true, 0, 1000, 0), DiscoveryContext(true, selfMac, "secret"), Stopped, false)
  }

  function ExampleInput(peers: seq<PeerConfig>, received: Option<Datagram>, drained: seq<string>): Input {
    var answer := OperationAnswer(true, false, "");
    Input(false, TransportAnswers(seq(|peers|, _ => SendResult(true, "", "")), ReceiveResult(received, false, 0, "")),
          drained, false, PlatformAnswers(ProbeAnswer(true, false, ""), answer, answer, answer))
  }

  function ExampleBeacon(nodeId: string, mac: string, priority: int): Beacon {
    Beacon("lan", nodeId, mac, priority, "0.0.0.0:7000", true, Backup, 1)
  }

  predicate NamedPeers(peers: seq<PeerConfig>) {
    forall i :: 0 <= i < |peers| ==> peers[i].id != "" && peers[i].address != ""
  }

  lemma NothingReceived(c: Config)
    ensures ConfiguredPeerHeard(c, Received(ReceiveResult(None, false, 0, ""))) == None
    ensures Received(ReceiveResult(None, false, 0, "")).error == ""
  {
  }

  /** What makes an example a scene. */
  lemma ExampleIsScene(nodeId: string, peers: seq<PeerConfig>, selfMac: string, received: Option<Datagram>, heard: Option<PeerStatus>, b: Beacon)
    returns (q: Request, inputs: seq<Input>)
    requires nodeId != "" && selfMac != "" && NamedPeers(peers) && peers != []
    requires b == ExampleBeacon(b.nodeId, b.mac, b.priority) && Clean(b.nodeId) && Clean(b.mac) && INT_MIN <= b.priority <= INT_MAX
    requires IdentityOf(b) != "" && IdentityOf(b) != selfMac
    requires ConfiguredPeerHeard(ExampleRequest(nodeId, peers, selfMac).config, Received(ReceiveResult(received, false, 0, ""))) == heard
    requires Received(ReceiveResult(received, false, 0, "")).error == ""
    requires heard.Some? ==> heard.value.priority < 100
    requires b.priority < 100 || (b.priority == 100 && b.nodeId == nodeId)
    requires 2 + |SingleStatus(heard)| >= (|peers| + 1) / 2 + 1
    ensures q == ExampleRequest(nodeId, peers, selfMac) && Scene(q, inputs, heard, b)
    ensures QuorumThreshold(ElectionPolicyFromConfig(q.config)) == (|peers| + 1) / 2 + 1
  {
    hide SignBeacon, ConfiguredPeerHeard, Received, SingleStatus, IdentityOf;
    q := ExampleRequest(nodeId, peers, selfMac);
    inputs := [ExampleInput(peers, None, []), ExampleInput(peers, received, [SignBeacon(b, "secret")])];
    ExampleIsPrepared(nodeId, peers, selfMac);
    NothingReceived(q.config);
    assert Clean("lan") && Clean("0.0.0.0:7000");
    ExamplePassIsReal(q, peers, None, []);
    ExamplePassIsReal(q, peers, received, [SignBeacon(b, "secret")]);
    assert inputs[1].drained == [SignBeacon(b, "secret")];
    hide Prepared, Steady, FixedManager, QuorumThreshold;
    assert RealPass(q, inputs, 0) && RealPass(q, inputs, 1);
    assert Carries(q, inputs[1].drained[0], b);
  }

  lemma ExampleIsPrepared(nodeId: string, peers: seq<PeerConfig>, selfMac: string)
    requires nodeId != "" && NamedPeers(peers) && peers != []
    ensures var q := ExampleRequest(nodeId, peers, selfMac);
      Prepared(q) && QuorumThreshold(ElectionPolicyFromConfig(q.config)) == (|peers| + 1) / 2 + 1
  {
    forall p <- peers ensures p.id != "" && p.address != "" {
      var i :| 0 <= i < |peers| && peers[i] == p;
    }
  }

  lemma ExamplePassIsReal(q: Request, peers: seq<PeerConfig>, received: Option<Datagram>, drained: seq<string>)
    requires peers == q.config.peers && RealMutationRequested(q) && Received(ReceiveResult(received, false, 0, "")).error == ""
    ensures var input := ExampleInput(peers, received, drained);
      InputFits(q, input) && Steady(q, input) && FixedManager(q, input.platform) && input.platform.probe == ProbeAnswer(true, false, "")
  {
    hide Received;
  }

  // ---------------------------------------------------------------- what goes wrong

  lemma FromPeerTwo(c: Config) returns (datagram: Datagram)
    requires |c.peers| > 0 && c.peers[0].id == "n2"
    ensures ConfiguredPeerHeard(c, Received(ReceiveResult(Some(datagram), false, 0, ""))) == Some(PeerStatus("n2", 1, true, true, Backup))
    ensures Received(ReceiveResult(Some(datagram), false, 0, "")).error == ""
  {
    datagram := Datagram("b", Message(HeartbeatMessage("n2", 1, true, Backup)));
    assert c.peers[0] in c.peers;
  }

  /** Heard by heartbeat and by beacon, one peer counts as two: in a cluster of five, two nodes are a majority. */
  lemma OnePeerCountedTwicePassesGate() returns (q: Request, inputs: seq<Input>)
    ensures DistinctIds(q.config) && ClusterSize(q.config) == 5
    ensures TakesVipFromView(q, inputs, {"n1", "n2"}, 3)
  {
    hide TakesVipFromView, ConfiguredPeerHeard, Received, SignBeacon, Scene, QuorumThreshold, InputsFit;
    var peers := [PeerConfig("n2", "b"), PeerConfig("n3", "c"), PeerConfig("n4", "d"), PeerConfig("n5", "e")];
    var heard := PeerStatus("n2", 1, true, true, Backup);
    var datagram := FromPeerTwo(ExampleRequest("n1", peers, "m1").config);
    var b := ExampleBeacon("n2", "m2", 1);
    q, inputs := ExampleIsScene("n1", peers, "m1", Some(datagram), Some(heard), b);
    SceneTakesVip(q, inputs, Some(heard), b, 3);
    assert NodesIn([heard]) == {"n2"};
    assert ViewOf(q, Some(heard), b) == {"n1", "n2"};
  }

  /** A beacon of a foreign MAC that names this node counts as a further one: alone it is a majority of three. */
  lemma OwnNamePassesGate() returns (q: Request, inputs: seq<Input>)
    ensures DistinctIds(q.config) && ClusterSize(q.config) == 3
    ensures TakesVipFromView(q, inputs, {"n1"}, 2)
  {
    hide TakesVipFromView, ConfiguredPeerHeard, Received, SignBeacon, Scene, QuorumThreshold, InputsFit;
    var peers := [PeerConfig("n2", "b"), PeerConfig("n3", "c")];
    var b := ExampleBeacon("n1", "m9", 100);
    NothingReceived(ExampleRequest("n1", peers, "m1").config);
    q, inputs := ExampleIsScene("n1", peers, "m1", None, None, b);
    SceneTakesVip(q, inputs, None, b, 2);
    assert ViewOf(q, None, b) == {"n1"};
  }

  /** One node of three that has heard of one stranger only. */
  lemma StrangerPasses(nodeId: string, peers: seq<PeerConfig>, selfMac: string, stranger: string, mac: string)
    returns (q: Request, inputs: seq<Input>)
    requires nodeId != "" && selfMac != "" && NamedPeers(peers) && |peers| == 2
    requires nodeId != stranger && Clean(stranger) && Clean(mac) && mac != "" && mac != selfMac
    ensures q == ExampleRequest(nodeId, peers, selfMac)
    ensures TakesVipFromView(q, inputs, {nodeId, stranger}, 2) && NobodyCountedTwice(q, inputs, 1)
  {
    hide TakesVipFromView, ConfiguredPeerHeard, Received, SignBeacon, Clean, NobodyCountedTwice, Scene,
         QuorumThreshold, InputsFit;
    var b := ExampleBeacon(stranger, mac, 1);
    NothingReceived(ExampleRequest(nodeId, peers, selfMac).config);
    q, inputs := ExampleIsScene(nodeId, peers, selfMac, None, None, b);
    SceneTakesVip(q, inputs, None, b, 2);
    assert ViewOf(q, None, b) == {nodeId, stranger};
    StrangerIsCountedOnce(q, inputs, b);
  }

  lemma StrangerIsCountedOnce(q: Request, inputs: seq<Input>, b: Beacon)
    requires Scene(q, inputs, None, b) && b.nodeId != q.config.nodeId
    ensures InputsFit(q, inputs) && |inputs| == 2 && NobodyCountedTwice(q, inputs, 1)
  {
    hide At, PeersAt, LiveAt, DiscoveredAt, StillRuns, Prepared, RealPass, Carries, Hears;
    SecondPassLists(q, inputs, None, b);
    OneNodeIsNotTwice(PeerStatusFromBeacon(b));
  }

  lemma OneNodeIsNotTwice(p: PeerStatus)
    ensures NoNodeTwice([p]) && NodesIn([p]) == {p.nodeId}
  {
  }

  /**
   * Strangers count as members, because the cluster size counts configured peers only: two nodes of a cluster
   * of three, each with word of a different stranger and of nobody else, both end up owning the VIP, although
   * nobody is counted twice and their views are disjoint.
   */
  lemma StrangersMakeTwoMasters() returns (qa: Request, a: seq<Input>, qb: Request, b: seq<Input>)
    ensures DistinctIds(qa.config) && DistinctIds(qb.config)
    ensures {qa.config.nodeId} + PeerIds(qa.config) == {"n1", "n2", "n3"} == {qb.config.nodeId} + PeerIds(qb.config)
    ensures TakesVipFromView(qa, a, {"n1", "x1"}, 2) && NobodyCountedTwice(qa, a, 1)
    ensures TakesVipFromView(qb, b, {"n2", "x2"}, 2) && NobodyCountedTwice(qb, b, 1)
  {
    hide TakesVipFromView, NobodyCountedTwice;
    var peersA, peersB := [PeerConfig("n2", "b"), PeerConfig("n3", "c")], [PeerConfig("n1", "a"), PeerConfig("n3", "c")];
    qa, a := StrangerPasses("n1", peersA, "m1", "x1", "m3");
    qb, b := StrangerPasses("n2", peersB, "m2", "x2", "m3");
    assert peersA[0] in peersA && peersA[1] in peersA && peersB[0] in peersB && peersB[1] in peersB;
  }

  // ---------------------------------------------------------------- what goes right

  /**
   * A run for the theorem on alternating operations: one manager that really acts in every pass, a truthful
   * probe, an idle warmup pass, and a takeover when the gate opens.
   */
  lemma RealTakeover() returns (q: Request, inputs: seq<Input>, k: nat)
    ensures InputsFit(q, inputs) && |inputs| == k + 1 && RealMutationRequested(q) && At(q, inputs, k + 1).exit.None?
    ensures forall i :: 0 <= i <= k ==> ConsistentPlatform(q, inputs, i, false) && FixedManager(q, inputs[i].platform)
    ensures HostAt(q, inputs, k + 1, false) && RealPart(At(q, inputs, k + 1).history.vipOperations) != []
  {
    hide At, HostAt, RealPart, ConsistentPlatform, FixedManager, QuorumThreshold, PerTimeout;
    var peers := [PeerConfig("n2", "b"), PeerConfig("n3", "c")];
    var example := ExampleRequest("n1", peers, "m1");
    q := example.(config := example.config.(discovery := DiscoveryConfig(false, "", 0, 0)));
    ExampleIsPrepared("n1", peers, "m1");
    assert ElectionPolicyFromConfig(q.config) == ElectionPolicyFromConfig(example.config);
    assert q.config.peers[0].id == "n2" && q.config.peers[1].id == "n3";
    assert DistinctIds(q.config);
    var plan := Plan([peers[0]], 1, 99, false);
    assert plan.peers[0] in q.config.peers;
    inputs, k := GatheringTakesVip(q, plan);
  }
}
