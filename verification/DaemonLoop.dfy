/**
 * The loop of src/runtime/DaemonRuntime.cpp as it runs: variables updated in place, result vectors
 * bounded by `max_recorded_observations`. Every pass is proved to be a step of DaemonMachine, and every
 * bounded vector to be the most recent part of the full history.
 */
module DaemonLoop {
  import opened Text
  import opened FailoverDecision
  import opened HeartbeatLoop
  import opened Config
  import opened DaemonLifecycle
  import opened Schedule
  import opened KeyOrder
  import opened Beacons
  import opened PeerTables
  import opened DaemonMachine

  // ---------------------------------------------------------------- bounded observation vectors

  /** The last `max` elements; everything when `max` is 0. */
  function Window<T>(history: seq<T>, max: nat): (w: seq<T>)
    ensures |w| == if max == 0 || |history| <= max then |history| else max
    ensures forall i :: 0 <= i < |w| ==> w[i] == history[|history| - |w| + i]
  {
    if max == 0 || |history| <= max then history else history[|history| - max..]
  }

  /** One push and at most one erase from the front keep exactly the window. */
  method PushObservation<T>(observations: seq<T>, observation: T, max: nat, ghost history: seq<T>) returns (kept: seq<T>)
    requires observations == Window(history, max)
    ensures kept == Window(history + [observation], max)
  {
    kept := observations + [observation];
    if max > 0 && |kept| > max {
      kept := kept[1..];
    }
  }

  method AppendObservations<T>(observations: seq<T>, added: seq<T>, max: nat, ghost history: seq<T>) returns (kept: seq<T>)
    requires observations == Window(history, max)
    ensures kept == Window(history + added, max)
  {
    kept := observations;
    assert history + added[..0] == history;
    for i := 0 to |added|
      invariant kept == Window(history + added[..i], max)
    {
      kept := PushObservation(kept, added[i], max, history + added[..i]);
      assert history + added[..i] + [added[i]] == history + added[..i + 1];
    }
    assert added[..|added|] == added;
  }

  // ---------------------------------------------------------------- the loop

  class DaemonLoop {
    const q: Request
    const discoveryPeers: PeerTable

    var index: nat
    var iterationsRan: nat
    var currentState: LifecycleState
    var elapsedMs: int
    var heartbeat: Timer
    var health: Timer
    var recentPeers: RecentPeers
    var localStatus: LocalNodeStatus
    var warmupComplete: bool
    var discoveryTimer: Timer
    var discoverySeq: nat
    var exit: Option<Exit>

    /** The recorded vectors, and the histories they are windows of. */
    var recorded: History
    ghost var history: History

    /** The abstract state this object holds. */
    ghost function State(): LoopState
      reads this, discoveryPeers
    {
      LoopState(index, iterationsRan, currentState, elapsedMs, heartbeat, health, recentPeers, localStatus, warmupComplete,
                DiscoveryState(discoveryPeers.entries, discoveryTimer, discoverySeq), history, exit)
    }

    /** Each recorded vector is the window of its history. */
    ghost predicate RecordsMatch()
      reads this
    {
      Windows(recorded, history, q.options.maxRecordedObservations)
    }

    constructor (q: Request, shutdownAtStart: bool)
      ensures this.q == q && fresh(discoveryPeers)
      ensures State() == Init(q, shutdownAtStart) && RecordsMatch()
    {
      this.q := q;
      discoveryPeers := new PeerTable();
      index, iterationsRan, currentState, elapsedMs := 0, 0, q.initialState, 0;
      heartbeat, health, discoveryTimer, discoverySeq := IDLE, IDLE, IDLE, 0;
      recentPeers, warmupComplete := map[], false;
      localStatus := LocalStatusFromOwnership(q.config, true, false);
      recorded, history := NO_HISTORY, NO_HISTORY;
      exit := if shutdownAtStart then Some(Exit(Stopped, ShutdownRequested))
              else if !q.configPrevalidated && !Valid(q.config) then Some(Exit(Faulted, LifecycleFaulted))
              else if !q.options.runUntilShutdown && q.options.maxIterations == 0 then Some(Exit(q.initialState, MaxIterations))
              else None;
    }

    /** Erases the peers whose last heartbeat is a timeout old or older, one visit per entry. */
    method ExpirePeers()
      modifies this`recentPeers
      ensures recentPeers == Expired(old(recentPeers), elapsedMs, q.config.heartbeatTimeoutMs)
    {
      var unvisited := recentPeers.Keys;
      while unvisited != {}
        invariant unvisited <= old(recentPeers.Keys)
        invariant recentPeers == map id | id in old(recentPeers)
          && (id in unvisited || elapsedMs - old(recentPeers)[id].lastSeenMs < q.config.heartbeatTimeoutMs) :: old(recentPeers)[id]
        decreases |unvisited|
      {
        var id := Least(unvisited);
        unvisited := unvisited - {id};
        if elapsedMs - recentPeers[id].lastSeenMs >= q.config.heartbeatTimeoutMs {
          recentPeers := recentPeers - {id};
        }
      }
    }

    /** Collects the statuses of the live peers in the order of their ids. */
    method CollectStatuses() returns (peers: seq<PeerStatus>)
      ensures peers == ActivePeerStatuses(recentPeers)
    {
      hide IsLeast, ActivePeerStatuses;
      peers := [];
      var rest := recentPeers;
      while rest != map[]
        invariant peers + ActivePeerStatuses(rest) == ActivePeerStatuses(recentPeers)
        decreases |rest|
      {
        var id := Least(rest.Keys);
        LeastIsKey(rest.Keys);
        FirstStatus(rest);
        peers := peers + [rest[id].status];
        rest := rest - {id};
      }
      NoStatuses();
    }

    /** The heartbeat part of a pass: sweep, exchange if due, remember the peer heard, sweep again. */
    method Heartbeat(input: Input) returns (beat: Beat)
      requires InputFits(q, input)
      modifies this`heartbeat, this`recentPeers
      ensures beat == RunBeat(q, old(State()), input)
      ensures heartbeat == beat.timer && recentPeers == beat.recent
    {
      ExpirePeers();
      var due := Due(heartbeat, elapsedMs, q.config.heartbeatIntervalMs);
      var receive := NotAttempted(q);
      var exchange: Option<Exchange> := None;
      if due {
        heartbeat := Timer(true, elapsedMs);
        var x := RunHeartbeatLoopOnce(localStatus, q.config.peers, input.transport);
        exchange, receive := Some(x), x.receive;
        if RealMutationRequested(q) && (SendFailed(x) || receive.error != "") {
          return Beat(due, heartbeat, exchange, receive, true, recentPeers);
        }
        if receive.peerStatus.Some? && PeerIsConfigured(q.config, receive.peerStatus.value.nodeId) {
          var heard := receive.peerStatus.value;
          recentPeers := recentPeers[heard.nodeId := RecentPeer(heard, elapsedMs)];
        }
      }
      hide SendFailed, PeerIsConfigured, ExchangeOnce, Expired;
      ExpirePeers();
      beat := Beat(due, heartbeat, exchange, receive, false, recentPeers);
    }

    /** The discovery part of a pass: ingest verified beacons of other nodes, broadcast when due, prune. */
    method Discovery(drained: seq<string>) returns (sent: seq<string>)
      requires DiscoveryActive(q)
      modifies discoveryPeers, this`discoveryTimer, this`discoverySeq
      ensures (DiscoveryState(discoveryPeers.entries, discoveryTimer, discoverySeq), sent) == Discover(q, old(State()), drained)
    {
      hide Verify, SignBeacon, Observed, Pruned;
      ghost var start := discoveryPeers.entries;
      for i := 0 to |drained|
        invariant discoveryPeers.entries == Ingest(q, start, drained[..i], elapsedMs)
        invariant discoveryTimer == old(discoveryTimer) && discoverySeq == old(discoverySeq)
      {
        assert drained[..i + 1][..i] == drained[..i];
        var verified := VerifySignedBeacon(drained[i], q.discovery.secret, q.config.discovery.cluster);
        if verified.Verified? && IdentityOf(verified.beacon) != q.discovery.selfMac {
          discoveryPeers.Observe(verified.beacon, elapsedMs);
        }
      }
      assert drained[..|drained|] == drained;
      sent := [];
      if Due(discoveryTimer, elapsedMs, q.config.discovery.intervalMs) {
        discoveryTimer := Timer(true, elapsedMs);
        discoverySeq := (discoverySeq + 1) % 0x1_0000_0000_0000_0000;
        sent := [SignBeacon(MakeBeacon(q, localStatus, discoverySeq), q.discovery.secret)];
      }
      discoveryPeers.Prune(elapsedMs, q.config.discovery.timeoutMs);
    }

    /** Heartbeat peers first, then discovered ones. */
    method CollectPeers() returns (peers: seq<PeerStatus>)
      ensures peers == PeersSeen(q, recentPeers, discoveryPeers.entries, elapsedMs)
    {
      hide ActivePeerStatuses, ActivePeersOf;
      peers := CollectStatuses();
      if DiscoveryActive(q) {
        var discovered := discoveryPeers.ActivePeers(elapsedMs, q.config.discovery.timeoutMs, q.discovery.selfMac);
        peers := peers + discovered;
      }
    }

    // -------------------------------------------------------------- recording

    method RecordSends(beat: Beat)
      requires RecordsMatch()
      modifies this`recorded, this`history
      ensures RecordsMatch() && history == old(history).(sends := old(history).sends + SendsOf(beat))
    {
      var sends := AppendObservations(recorded.sends, SendsOf(beat), q.options.maxRecordedObservations, history.sends);
      recorded := recorded.(sends := sends);
      history := history.(sends := history.sends + SendsOf(beat));
    }

    /** The send schedule and the receive state of a pass. */
    method RecordBeat(beat: Beat, schedule: ScheduleObservation, receive: ReceiveStateObservation)
      requires RecordsMatch()
      modifies this`recorded, this`history
      ensures RecordsMatch()
      ensures history == old(history).(sendSchedules := old(history).sendSchedules + [schedule],
                                       receives := old(history).receives + [receive])
    {
      var max := q.options.maxRecordedObservations;
      var schedules := PushObservation(recorded.sendSchedules, schedule, max, history.sendSchedules);
      var receives := PushObservation(recorded.receives, receive, max, history.receives);
      recorded := recorded.(sendSchedules := schedules, receives := receives);
      history := history.(sendSchedules := history.sendSchedules + [schedule], receives := history.receives + [receive]);
    }

    method RecordOperations(operations: seq<VipOperation>)
      requires RecordsMatch()
      modifies this`recorded, this`history
      ensures RecordsMatch() && history == old(history).(vipOperations := old(history).vipOperations + operations)
    {
      var kept := AppendObservations(recorded.vipOperations, operations, q.options.maxRecordedObservations, history.vipOperations);
      recorded := recorded.(vipOperations := kept);
      history := history.(vipOperations := history.vipOperations + operations);
    }

    method RecordDecision(observation: DecisionObservation)
      requires RecordsMatch()
      modifies this`recorded, this`history
      ensures RecordsMatch() && history == old(history).(decisions := old(history).decisions + [observation])
    {
      var kept := PushObservation(recorded.decisions, observation, q.options.maxRecordedObservations, history.decisions);
      recorded := recorded.(decisions := kept);
      history := history.(decisions := history.decisions + [observation]);
    }

    /** Broadcasts leave the host and are recorded nowhere; only the history knows them. */
    ghost method NoteBroadcasts(broadcasts: seq<string>)
      requires RecordsMatch()
      modifies this`history
      ensures RecordsMatch() && history == old(history).(broadcasts := old(history).broadcasts + broadcasts)
    {
      history := history.(broadcasts := history.broadcasts + broadcasts);
    }

    /** The health schedule: evaluated and recorded only here, once per iteration that ran. */
    method EvaluateHealth()
      requires RecordsMatch()
      modifies this`health, this`recorded, this`history
      ensures RecordsMatch() && health == Tick(old(health), elapsedMs, q.config.healthIntervalMs)
      ensures history == old(history).(healthSchedules := old(history).healthSchedules + [HealthScheduleOf(q, old(State()))])
    {
      var due := Due(health, elapsedMs, q.config.healthIntervalMs);
      if due {
        health := Timer(true, elapsedMs);
      }
      var observation := ScheduleObservation(iterationsRan, elapsedMs, q.config.healthIntervalMs, due);
      var kept := PushObservation(recorded.healthSchedules, observation, q.options.maxRecordedObservations, history.healthSchedules);
      recorded := recorded.(healthSchedules := kept);
      history := history.(healthSchedules := history.healthSchedules + [observation]);
    }

    /** What a finished lifecycle call changes besides the loop's control flow. */
    method AbsorbLifecycle(beat: Beat, peers: seq<PeerStatus>, r: LifecycleResult, ghost s: LoopState, ghost broadcasts: seq<string>)
      requires RecordsMatch()
      requires s.iterationsRan == iterationsRan && s.elapsedMs == elapsedMs && s.health == health && s.localStatus == localStatus
      requires history == s.history.(sends := s.history.sends + SendsOf(beat), broadcasts := s.history.broadcasts + broadcasts)
      modifies this`localStatus, this`health, this`iterationsRan, this`recorded, this`history
      ensures RecordsMatch() && history == Record(q, s, beat, peers, broadcasts, r)
      ensures localStatus == (if r.iterationRan then StatusAfter(r) else s.localStatus)
      ensures health == (if r.iterationRan then Tick(s.health, s.elapsedMs, q.config.healthIntervalMs) else s.health)
      ensures iterationsRan == s.iterationsRan + (if r.iterationRan then 1 else 0)
    {
      hide Windows, Decide, Tick, Due, SendsOf;
      RecordOperations(r.vipOperations);
      if r.iterationRan {
        localStatus := StatusAfter(r);
        EvaluateHealth();
        RecordBeat(beat, ScheduleObservation(iterationsRan, elapsedMs, q.config.heartbeatIntervalMs, beat.due),
                   ReceiveStateObservation(iterationsRan, elapsedMs, beat.receive));
        if !r.finalState.Faulted? {
          var local := LocalStatusFromOwnership(q.config, localStatus.healthy, r.vipOwner);
          var decision := DecideFailoverAction(local, peers, ElectionPolicyFromConfig(q.config));
          RecordDecision(DecisionObservation(iterationsRan, elapsedMs, local, peers, decision));
        }
        iterationsRan := iterationsRan + 1;
      }
    }

    // -------------------------------------------------------------- a pass and a run

    /** The end of a pass, after the lifecycle returned `r`: absorb it, then stop or move on. */
    method FinishPass(beat: Beat, peers: seq<PeerStatus>, r: LifecycleResult, ghost s: LoopState, ghost broadcasts: seq<string>)
      requires RecordsMatch() && exit.None?
      requires State() == s.(heartbeat := beat.timer, recent := beat.recent, discovery := State().discovery,
                             history := s.history.(sends := s.history.sends + SendsOf(beat),
                                                   broadcasts := s.history.broadcasts + broadcasts))
      modifies this
      ensures RecordsMatch()
      ensures State() == Advance(q, s, beat, old(State()).discovery, Record(q, s, beat, peers, broadcasts, r), r)
    {
      hide Record, Windows, SendsOf, StatusAfter, Tick, EffectiveStepMs, WarmsUp, RealMutationRequested;
      currentState := r.finalState;
      AbsorbLifecycle(beat, peers, r, s, broadcasts);
      if r.finalState.Faulted? {
        exit := Some(Exit(Faulted, LifecycleFaulted));
      } else {
        MoveOn(beat, r);
      }
    }

    /** After a pass without a fault: warmup, the iteration limit, the logical clock. */
    method MoveOn(beat: Beat, r: LifecycleResult)
      requires exit.None?
      modifies this`warmupComplete, this`exit, this`elapsedMs, this`index
      ensures warmupComplete == (old(warmupComplete) || (RealMutationRequested(q) && WarmsUp(beat)))
      ensures var last := !q.options.runUntilShutdown && old(index) + 1 == q.options.maxIterations;
        && exit == (if last then Some(Exit(r.finalState, MaxIterations)) else None)
        && index == old(index) + (if last then 0 else 1)
        && elapsedMs == old(elapsedMs) + (if !last && r.iterationRan then EffectiveStepMs(q.options) else 0)
    {
      hide EffectiveStepMs, WarmsUp, RealMutationRequested;
      if RealMutationRequested(q) && WarmsUp(beat) {
        warmupComplete := true;
      }
      if !q.options.runUntilShutdown && index + 1 == q.options.maxIterations {
        exit := Some(Exit(r.finalState, MaxIterations));
        return;
      }
      if r.iterationRan {
        elapsedMs := elapsedMs + EffectiveStepMs(q.options);
      }
      index := index + 1;
    }

    /** A send or receive error before real mutation: record the exchange and stop. */
    method StopOnTransportFault(beat: Beat, ghost s: LoopState)
      requires RecordsMatch()
      requires State() == s.(heartbeat := beat.timer, recent := beat.recent,
                             history := s.history.(sends := s.history.sends + SendsOf(beat)))
      modifies this`exit, this`recorded, this`history
      ensures RecordsMatch() && State() == TransportFault(q, s, beat)
    {
      hide Windows, SendsOf;
      RecordBeat(beat, ScheduleObservation(iterationsRan, elapsedMs, q.config.heartbeatIntervalMs, beat.due),
                 ReceiveStateObservation(iterationsRan, elapsedMs, beat.receive));
      exit := Some(Exit(Faulted, LifecycleFaulted));
    }

    /** Discovery runs only when it is configured and has a transport. */
    method DiscoverPeers(drained: seq<string>, ghost s: LoopState) returns (broadcasts: seq<string>)
      requires RecordsMatch()
      requires s.discovery == State().discovery && s.elapsedMs == elapsedMs && s.localStatus == localStatus
      modifies discoveryPeers, this`discoveryTimer, this`discoverySeq, this`history
      ensures (State().discovery, broadcasts) == DiscoverIfActive(q, s, drained)
      ensures RecordsMatch() && history == old(history).(broadcasts := old(history).broadcasts + broadcasts)
    {
      hide Discover, Windows;
      broadcasts := [];
      if DiscoveryActive(q) {
        DiscoverIgnoresHeartbeats(q, s, State(), drained);
        broadcasts := Discovery(drained);
      }
      NoteBroadcasts(broadcasts);
    }

    /** The part of a pass after the heartbeats: discovery, the lifecycle, and what follows from it. */
    method DecideAndFinish(input: Input, beat: Beat, ghost s: LoopState)
      requires InputFits(q, input) && RecordsMatch() && exit.None? && beat == RunBeat(q, s, input)
      requires State() == s.(heartbeat := beat.timer, recent := beat.recent,
                             history := s.history.(sends := s.history.sends + SendsOf(beat)))
      modifies this, discoveryPeers
      ensures RecordsMatch()
      ensures var (discovery, broadcasts) := DiscoverIfActive(q, s, input.drained);
        var r := LifecycleOf(q, s, input);
        State() == Advance(q, s, beat, discovery, Record(q, s, beat, PeersOfPass(q, s, input), broadcasts, r), r)
    {
      hide RunBeat, DiscoverIfActive, Lifecycle, Record, Windows, PeersSeen, SendsOf, Advance, GatedConfig;
      var broadcasts := DiscoverPeers(input.drained, s);
      var peers := CollectPeers();
      assert peers == PeersOfPass(q, s, input);
      var r := RunDaemonLifecycleOnce(LifecycleRequest(GatedConfig(q, warmupComplete), q.options.dryRun, currentState,
                                                       input.shutdownInLifecycle, true, true, peers), input.platform);
      assert r == LifecycleOf(q, s, input);
      FinishPass(beat, peers, r, s, broadcasts);
    }

    /** One pass of the loop. */
    method Iterate(input: Input)
      requires InputFits(q, input) && RecordsMatch() && exit.None?
      modifies this, discoveryPeers
      ensures State() == Step(q, old(State()), input) && RecordsMatch()
    {
      hide RunBeat, DiscoverIfActive, LifecycleOf, PeersOfPass, Record, Windows, SendsOf, Advance, TransportFault;
      ghost var s := State();
      if input.shutdownAtTop {
        exit := Some(Exit(Stopped, ShutdownRequested));
        return;
      }
      var beat := Heartbeat(input);
      RecordSends(beat);
      if beat.fault {
        StopOnTransportFault(beat, s);
        return;
      }
      DecideAndFinish(input, beat, s);
    }

    /** Runs passes until the loop is over or the inputs are used up. */
    method Run(inputs: seq<Input>)
      requires InputsFit(q, inputs) && RecordsMatch() && State() == Init(q, false)
      modifies this, discoveryPeers
      ensures State() == At(q, inputs, |inputs|) && RecordsMatch()
    {
      hide Step, Windows;
      var k := 0;
      while k < |inputs| && exit.None?
        invariant k <= |inputs| && State() == At(q, inputs, k) && RecordsMatch()
      {
        Iterate(inputs[k]);
        k := k + 1;
      }
      if k < |inputs| { OverIsOver(q, inputs, k, |inputs|); }
    }
  }

  /** Once the loop is over nothing changes any more. */
  lemma {:induction false} OverIsOver(q: Request, inputs: seq<Input>, j: nat, k: nat)
    requires InputsFit(q, inputs) && j <= k <= |inputs| && At(q, inputs, j).exit.Some?
    ensures At(q, inputs, k) == At(q, inputs, j)
    decreases k - j
  {
    hide RunBeat, LifecycleOf, DiscoverIfActive, PeersOfPass, TransportFault, Advance, Record;
    if j < k { OverIsOver(q, inputs, j, k - 1); }
  }

  ghost predicate Windows(recorded: History, history: History, max: nat) {
    && recorded.vipOperations == Window(history.vipOperations, max)
    && recorded.healthSchedules == Window(history.healthSchedules, max)
    && recorded.sendSchedules == Window(history.sendSchedules, max)
    && recorded.sends == Window(history.sends, max)
    && recorded.receives == Window(history.receives, max)
    && recorded.decisions == Window(history.decisions, max)
  }

  /** Discovery looks at the roster, the clock and the local status only. */
  lemma DiscoverIgnoresHeartbeats(q: Request, s: LoopState, t: LoopState, drained: seq<string>)
    requires s.discovery == t.discovery && s.elapsedMs == t.elapsedMs && s.localStatus == t.localStatus
    ensures Discover(q, s, drained) == Discover(q, t, drained)
  {
    hide Ingest, Pruned, SignBeacon, MakeBeacon, Due;
  }

  lemma FirstStatus(m: RecentPeers)
    requires m != map[]
    ensures var id := Least(m.Keys);
      id in m && ActivePeerStatuses(m) == [m[id].status] + ActivePeerStatuses(m - {id})
  {
    hide IsLeast, Values;
    LeastIsKey(m.Keys);
    var id := Least(m.Keys);
    assert Statuses(m).Keys == m.Keys;
    assert Statuses(m) - {id} == Statuses(m - {id});
    FirstValue(Statuses(m));
  }

  lemma NoStatuses()
    ensures ActivePeerStatuses(map[]) == []
  {
    assert Statuses(map[]) == map[];
  }
}
