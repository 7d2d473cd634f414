/**
 * `runDaemonRuntimeLoop` of src/runtime/DaemonRuntime.cpp as a state machine: one step per pass of
 * the loop, driven by what the environment answers in that pass. Histories are complete here; the
 * bounded vectors the loop really keeps are in DaemonLoop.
 */
module DaemonMachine {
  import opened Text
  import opened FailoverDecision
  import opened HeartbeatLoop
  import opened Config
  import opened DaemonLifecycle
  import opened Schedule
  import opened KeyOrder
  import opened Beacons
  import opened PeerTables

  datatype Options = Options(
    dryRun: bool,
    maxIterations: nat,
    runUntilShutdown: bool,
    interIterationDelayMs: int,
    logicalIterationElapsedMs: int,
    maxRecordedObservations: nat)

  datatype DiscoveryContext = DiscoveryContext(hasTransport: bool, selfMac: string, secret: string)

  datatype Request = Request(
    config: Config,
    options: Options,
    discovery: DiscoveryContext,
    initialState: LifecycleState,
    configPrevalidated: bool)

  /** What the environment answers in one pass of the loop. */
  datatype Input = Input(
    shutdownAtTop: bool,
    transport: TransportAnswers,
    drained: seq<string>,
    shutdownInLifecycle: bool,
    platform: PlatformAnswers)

  /** Logical milliseconds that one iteration adds to the clock. */
  function EffectiveStepMs(o: Options): (step: nat) {
    var elapsed := if o.logicalIterationElapsedMs > 0 then o.logicalIterationElapsedMs else o.interIterationDelayMs;
    if elapsed > 0 then elapsed else 0
  }

  predicate RealMutationRequested(q: Request) { !q.options.dryRun && q.config.allowNetworkMutation }

  predicate DiscoveryActive(q: Request) { q.config.discovery.enabled && q.discovery.hasTransport }

  // ---------------------------------------------------------------- the peer map

  datatype RecentPeer = RecentPeer(status: PeerStatus, lastSeenMs: int)

  type RecentPeers = map<string, RecentPeer>

  function Expired(m: RecentPeers, elapsedMs: int, timeoutMs: int): RecentPeers {
    map id | id in m && elapsedMs - m[id].lastSeenMs < timeoutMs :: m[id]
  }

  function Statuses(m: RecentPeers): map<string, PeerStatus> { map id | id in m :: m[id].status }

  /** The statuses of the live peers, in the order of their ids. */
  function ActivePeerStatuses(m: RecentPeers): seq<PeerStatus> { Values(Statuses(m)) }

  // ---------------------------------------------------------------- state

  datatype DiscoveryState = DiscoveryState(roster: Roster, timer: Timer, seqNo: nat)

  datatype ScheduleObservation = ScheduleObservation(iterationIndex: nat, elapsedMs: int, intervalMs: int, due: bool)

  datatype ReceiveStateObservation =
    ReceiveStateObservation(iterationIndex: nat, elapsedMs: int, receive: ReceiveObservation)

  datatype DecisionObservation =
    DecisionObservation(iterationIndex: nat, elapsedMs: int, local: LocalNodeStatus, peers: seq<PeerStatus>, decision: Decision)

  datatype History = History(
    vipOperations: seq<VipOperation>,
    healthSchedules: seq<ScheduleObservation>,
    sendSchedules: seq<ScheduleObservation>,
    sends: seq<SendObservation>,
    receives: seq<ReceiveStateObservation>,
    decisions: seq<DecisionObservation>,
    broadcasts: seq<string>)

  datatype StopReason = MaxIterations | ShutdownRequested | LifecycleFaulted

  datatype Exit = Exit(finalState: LifecycleState, reason: StopReason)

  datatype LoopState = LoopState(
    index: nat,
    iterationsRan: nat,
    current: LifecycleState,
    elapsedMs: int,
    heartbeat: Timer,
    health: Timer,
    recent: RecentPeers,
    localStatus: LocalNodeStatus,
    warmedUp: bool,
    discovery: DiscoveryState,
    history: History,
    exit: Option<Exit>)

  const NO_HISTORY := History([], [], [], [], [], [], [])

  const NO_STATUS := LocalNodeStatus("", 0, false, Backup)

  /** Before the first pass; the loop may be over before it starts. */
  function Init(q: Request, shutdownAtStart: bool): LoopState {
    LoopState(0, 0, q.initialState, 0, IDLE, IDLE, map[], LocalStatusFromOwnership(q.config, true, false), false,
              DiscoveryState(map[], IDLE, 0), NO_HISTORY,
              if shutdownAtStart then Some(Exit(Stopped, ShutdownRequested))
              else if !q.configPrevalidated && !Valid(q.config) then Some(Exit(Faulted, LifecycleFaulted))
              else if !q.options.runUntilShutdown && q.options.maxIterations == 0 then Some(Exit(q.initialState, MaxIterations))
              else None)
  }

  // ---------------------------------------------------------------- the heartbeat part of a pass

  datatype Beat = Beat(due: bool, timer: Timer, exchange: Option<Exchange>, receive: ReceiveObservation, fault: bool, recent: RecentPeers)

  predicate InputFits(q: Request, input: Input) { |input.transport.sends| == |q.config.peers| }

  function NotAttempted(q: Request): ReceiveObservation {
    ReceiveObservation(false, false, q.config.heartbeatTimeoutMs, "", None, "")
  }

  /** The valid heartbeat of a configured peer that an exchange brought, if any. */
  function ConfiguredPeerHeard(c: Config, receive: ReceiveObservation): Option<PeerStatus> {
    if receive.peerStatus.Some? && PeerIsConfigured(c, receive.peerStatus.value.nodeId) then receive.peerStatus else None
  }

  function Remember(m: RecentPeers, heard: Option<PeerStatus>, elapsedMs: int): RecentPeers {
    match heard
    case None => m
    case Some(status) => m[status.nodeId := RecentPeer(status, elapsedMs)]
  }

  function RunBeat(q: Request, s: LoopState, input: Input): Beat
    requires InputFits(q, input)
  {
    var c := q.config;
    var before := Expired(s.recent, s.elapsedMs, c.heartbeatTimeoutMs);
    if Due(s.heartbeat, s.elapsedMs, c.heartbeatIntervalMs) then
      var x := ExchangeOnce(s.localStatus, c.peers, input.transport);
      var fault := RealMutationRequested(q) && (SendFailed(x) || x.receive.error != "");
      Beat(true, Timer(true, s.elapsedMs), Some(x), x.receive, fault,
           if fault then before
           else Expired(Remember(before, ConfiguredPeerHeard(c, x.receive), s.elapsedMs), s.elapsedMs, c.heartbeatTimeoutMs))
    else
      Beat(false, s.heartbeat, None, NotAttempted(q), false, Expired(before, s.elapsedMs, c.heartbeatTimeoutMs))
  }

  /** The peer a pass takes in; a pass that ends in a transport fault takes in nobody. */
  function Heard(q: Request, beat: Beat): Option<PeerStatus> {
    if beat.fault then None else ConfiguredPeerHeard(q.config, beat.receive)
  }

  // ---------------------------------------------------------------- the discovery part of a pass

  /** Folds the verified beacons of other nodes into the roster. */
  function Ingest(q: Request, roster: Roster, payloads: seq<string>, elapsedMs: int): Roster {
    if payloads == [] then roster
    else
      var before := Ingest(q, roster, payloads[..|payloads| - 1], elapsedMs);
      match Verify(payloads[|payloads| - 1], q.discovery.secret, q.config.discovery.cluster)
      case Rejected(_) => before
      case Verified(b) => if IdentityOf(b) != q.discovery.selfMac then Observed(before, b, elapsedMs) else before
  }

  function MakeBeacon(q: Request, local: LocalNodeStatus, seqNo: nat): Beacon {
    Beacon(q.config.discovery.cluster, if local.nodeId == "" then q.config.nodeId else local.nodeId, q.discovery.selfMac,
           local.priority, q.config.heartbeatBind, local.healthy, local.state, seqNo)
  }

  function Discover(q: Request, s: LoopState, drained: seq<string>): (DiscoveryState, seq<string>) {
    var d, c := s.discovery, q.config.discovery;
    var roster := Pruned(Ingest(q, d.roster, drained, s.elapsedMs), s.elapsedMs, c.timeoutMs);
    if Due(d.timer, s.elapsedMs, c.intervalMs) then
      var seqNo := (d.seqNo + 1) % 0x1_0000_0000_0000_0000;
      (DiscoveryState(roster, Timer(true, s.elapsedMs), seqNo),
       [SignBeacon(MakeBeacon(q, s.localStatus, seqNo), q.discovery.secret)])
    else (DiscoveryState(roster, d.timer, d.seqNo), [])
  }

  function DiscoverIfActive(q: Request, s: LoopState, drained: seq<string>): (DiscoveryState, seq<string>) {
    if DiscoveryActive(q) then Discover(q, s, drained) else (s.discovery, [])
  }

  /** The peers handed to the decision: heartbeat peers, then discovered ones, with no deduplication. */
  function PeersSeen(q: Request, recent: RecentPeers, roster: Roster, elapsedMs: int): seq<PeerStatus> {
    ActivePeerStatuses(recent)
    + if DiscoveryActive(q) then ActivePeersOf(roster, elapsedMs, q.config.discovery.timeoutMs, q.discovery.selfMac) else []
  }

  // ---------------------------------------------------------------- the lifecycle part of a pass

  /** Real mutation is held back until the warmup heartbeat cycle has succeeded. */
  function GatedConfig(q: Request, warmedUp: bool): Config {
    if RealMutationRequested(q) && !warmedUp then q.config.(allowNetworkMutation := false) else q.config
  }

  function PeersOfPass(q: Request, s: LoopState, input: Input): seq<PeerStatus>
    requires InputFits(q, input)
  {
    PeersSeen(q, RunBeat(q, s, input).recent, DiscoverIfActive(q, s, input.drained).0.roster, s.elapsedMs)
  }

  function LifecycleRequestOf(q: Request, s: LoopState, input: Input): LifecycleRequest
    requires InputFits(q, input)
  {
    LifecycleRequest(GatedConfig(q, s.warmedUp), q.options.dryRun, s.current, input.shutdownInLifecycle, true, true,
                     PeersOfPass(q, s, input))
  }

  function LifecycleOf(q: Request, s: LoopState, input: Input): LifecycleResult
    requires InputFits(q, input)
  {
    Lifecycle(LifecycleRequestOf(q, s, input), input.platform)
  }

  predicate WarmsUp(beat: Beat) { beat.due && beat.receive.attempted && beat.receive.error == "" }

  // ---------------------------------------------------------------- a pass

  function SendsOf(beat: Beat): seq<SendObservation> { if beat.exchange.Some? then beat.exchange.value.sends else [] }

  function SendScheduleOf(q: Request, s: LoopState, beat: Beat): ScheduleObservation {
    ScheduleObservation(s.iterationsRan, s.elapsedMs, q.config.heartbeatIntervalMs, beat.due)
  }

  function HealthScheduleOf(q: Request, s: LoopState): ScheduleObservation {
    ScheduleObservation(s.iterationsRan, s.elapsedMs, q.config.healthIntervalMs,
                        Due(s.health, s.elapsedMs, q.config.healthIntervalMs))
  }

  function StatusAfter(r: LifecycleResult): LocalNodeStatus {
    if r.localStatus.Some? then r.localStatus.value else NO_STATUS
  }

  function DecisionOf(q: Request, s: LoopState, peers: seq<PeerStatus>, r: LifecycleResult): DecisionObservation {
    var local := LocalStatusFromOwnership(q.config, StatusAfter(r).healthy, r.vipOwner);
    DecisionObservation(s.iterationsRan, s.elapsedMs, local, peers, Decide(local, peers, ElectionPolicyFromConfig(q.config)))
  }

  /** A transport failure before real mutation ends the loop without running the lifecycle. */
  function TransportFault(q: Request, s: LoopState, beat: Beat): LoopState {
    s.(heartbeat := beat.timer, recent := beat.recent,
       history := s.history.(sends := s.history.sends + SendsOf(beat),
                             sendSchedules := s.history.sendSchedules + [SendScheduleOf(q, s, beat)],
                             receives := s.history.receives
                                         + [ReceiveStateObservation(s.iterationsRan, s.elapsedMs, beat.receive)]),
       exit := Some(Exit(Faulted, LifecycleFaulted)))
  }

  /** What the lifecycle's result adds to the histories. */
  function Record(q: Request, s: LoopState, beat: Beat, peers: seq<PeerStatus>, broadcasts: seq<string>, r: LifecycleResult): History {
    var h := s.history.(sends := s.history.sends + SendsOf(beat),
                        broadcasts := s.history.broadcasts + broadcasts,
                        vipOperations := s.history.vipOperations + r.vipOperations);
    if !r.iterationRan then h
    else
      h.(healthSchedules := h.healthSchedules + [HealthScheduleOf(q, s)],
         sendSchedules := h.sendSchedules + [SendScheduleOf(q, s, beat)],
         receives := h.receives + [ReceiveStateObservation(s.iterationsRan, s.elapsedMs, beat.receive)],
         decisions := h.decisions + if r.finalState.Faulted? then [] else [DecisionOf(q, s, peers, r)])
  }

  /** The state after the lifecycle returned `r`. */
  function Advance(q: Request, s: LoopState, beat: Beat, discovery: DiscoveryState, history: History, r: LifecycleResult): LoopState {
    var ran := s.(current := r.finalState, heartbeat := beat.timer, recent := beat.recent, discovery := discovery,
                  localStatus := if r.iterationRan then StatusAfter(r) else s.localStatus,
                  health := if r.iterationRan then Tick(s.health, s.elapsedMs, q.config.healthIntervalMs) else s.health,
                  iterationsRan := s.iterationsRan + if r.iterationRan then 1 else 0,
                  history := history);
    if r.finalState.Faulted? then ran.(exit := Some(Exit(Faulted, LifecycleFaulted)))
    else
      var warm := ran.(warmedUp := s.warmedUp || (RealMutationRequested(q) && WarmsUp(beat)));
      if !q.options.runUntilShutdown && s.index + 1 == q.options.maxIterations then
        warm.(exit := Some(Exit(r.finalState, MaxIterations)))
      else
        warm.(index := s.index + 1,
              elapsedMs := s.elapsedMs + if r.iterationRan then EffectiveStepMs(q.options) else 0)
  }

  function Step(q: Request, s: LoopState, input: Input): LoopState
    requires InputFits(q, input)
  {
    if s.exit.Some? then s
    else if input.shutdownAtTop then s.(exit := Some(Exit(Stopped, ShutdownRequested)))
    else
      var beat := RunBeat(q, s, input);
      if beat.fault then TransportFault(q, s, beat)
      else
        var (discovery, broadcasts) := DiscoverIfActive(q, s, input.drained);
        var r := LifecycleOf(q, s, input);
        Advance(q, s, beat, discovery, Record(q, s, beat, PeersOfPass(q, s, input), broadcasts, r), r)
  }

  // ---------------------------------------------------------------- runs

  predicate InputsFit(q: Request, inputs: seq<Input>) { forall i :: 0 <= i < |inputs| ==> InputFits(q, inputs[i]) }

  /** The state before pass `k`. */
  function At(q: Request, inputs: seq<Input>, k: nat): LoopState
    requires InputsFit(q, inputs) && k <= |inputs|
  {
    if k == 0 then Init(q, false) else Step(q, At(q, inputs, k - 1), inputs[k - 1])
  }

  /** Pass `k` starts: the loop is not over and no shutdown is seen at its top. */
  predicate Starts(q: Request, inputs: seq<Input>, k: nat)
    requires InputsFit(q, inputs)
  {
    k < |inputs| && At(q, inputs, k).exit.None? && !inputs[k].shutdownAtTop
  }

  function BeatAt(q: Request, inputs: seq<Input>, k: nat): Beat
    requires InputsFit(q, inputs) && k < |inputs|
  {
    RunBeat(q, At(q, inputs, k), inputs[k])
  }

  function LifecycleAt(q: Request, inputs: seq<Input>, k: nat): LifecycleResult
    requires InputsFit(q, inputs) && k < |inputs|
  {
    LifecycleOf(q, At(q, inputs, k), inputs[k])
  }

  /** Pass `k` gets as far as the lifecycle. */
  predicate Reaches(q: Request, inputs: seq<Input>, k: nat)
    requires InputsFit(q, inputs)
  {
    Starts(q, inputs, k) && !BeatAt(q, inputs, k).fault
  }

  /** Pass `k` runs a full iteration that takes a decision and does not fault. */
  predicate Completes(q: Request, inputs: seq<Input>, k: nat)
    requires InputsFit(q, inputs)
  {
    Reaches(q, inputs, k) && Completed(LifecycleAt(q, inputs, k))
  }
}
