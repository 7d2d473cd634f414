/** What a run of the daemon loop leaves in its records: the schedules, the exchanges, the decisions, the broadcasts. */
module RunRecords {
  import opened Text
  import opened FailoverDecision
  import opened HeartbeatLoop
  import opened Config
  import opened DaemonLifecycle
  import opened Schedule
  import opened DaemonMachine
  import opened DaemonRuns
  import opened QuorumRuns
  import opened DiscoveryRuns
  import opened Beacons
  import opened PeerTables

  // ---------------------------------------------------------------- one pass

  /** A pass that ran its iteration and does not end the loop adds one entry to each record kept per iteration. */
  lemma PassRecords(q: Request, s: LoopState, input: Input)
    requires InputFits(q, input) && s.exit.None? && Step(q, s, input).exit.None? && LifecycleOf(q, s, input).iterationRan
    ensures var h, after, beat := s.history, Step(q, s, input).history, RunBeat(q, s, input);
      && after.healthSchedules == h.healthSchedules + [HealthScheduleOf(q, s)]
      && after.sendSchedules == h.sendSchedules + [SendScheduleOf(q, s, beat)]
      && after.receives == h.receives + [ReceiveStateObservation(s.iterationsRan, s.elapsedMs, beat.receive)]
      && after.decisions == h.decisions + [DecisionOf(q, s, PeersOfPass(q, s, input), LifecycleOf(q, s, input))]
      && after.sends == h.sends + SendsOf(beat)
  {
    hide RunBeat, LifecycleOf, DiscoverIfActive, PeersOfPass, DecisionOf, EffectiveStepMs, Tick, WarmsUp, SendsOf;
  }

  /**
   * The loop evaluates the decision a second time for its record. What it records is what the lifecycle decided,
   * on the same status, unless no VIP is configured: then a decision is recorded although none was taken.
   */
  lemma RecordedDecisionIsTaken(q: Request, inputs: seq<Input>, k: nat)
    requires InputsFit(q, inputs) && Reaches(q, inputs, k)
    requires LifecycleAt(q, inputs, k).iterationRan && !LifecycleAt(q, inputs, k).finalState.Faulted?
    ensures var r := LifecycleAt(q, inputs, k);
      var recorded := DecisionOf(q, At(q, inputs, k), PeersAt(q, inputs, k), r);
      && r.localStatus == Some(recorded.local)
      && (if q.config.vip.address != "" then r.decision == Some(recorded.decision)
          else r.decision.None? && recorded.local.state.Backup?)
  {
    hide At, RunBeat, PeersOfPass, Lifecycle, Decide;
    var lq := LifecycleRequestOf(q, At(q, inputs, k), inputs[k]);
    IterationRunsIff(lq, inputs[k].platform);
    if q.config.vip.address != "" {
      if !inputs[k].platform.probe.success { FailedProbe(lq, inputs[k].platform); }
      ProbeDecides(lq, inputs[k].platform);
    }
  }

  // ---------------------------------------------------------------- a run

  /** The passes before `k` in which a task with this interval is due. */
  ghost function DuePasses(intervalMs: int, stepMs: nat, k: nat): set<nat>
    requires intervalMs > 0
  {
    set i: nat | i < k && DueInIteration(intervalMs, stepMs, i)
  }

  ghost predicate RecordsFit(q: Request, inputs: seq<Input>, k: nat, h: History)
    requires InputsFit(q, inputs) && k <= |inputs| && Valid(q.config)
  {
    var c, step := q.config, EffectiveStepMs(q.options);
    && |h.healthSchedules| == |h.sendSchedules| == |h.receives| == |h.decisions| == k
    && (forall i :: 0 <= i < k ==>
          && h.healthSchedules[i] == ScheduleObservation(i, i * step, c.healthIntervalMs, DueInIteration(c.healthIntervalMs, step, i))
          && h.sendSchedules[i] == ScheduleObservation(i, i * step, c.heartbeatIntervalMs, DueInIteration(c.heartbeatIntervalMs, step, i))
          && h.receives[i] == ReceiveStateObservation(i, i * step, BeatAt(q, inputs, i).receive)
          && h.receives[i].receive.attempted == DueInIteration(c.heartbeatIntervalMs, step, i)
          && (!h.receives[i].receive.attempted ==>
                h.receives[i].receive == ReceiveObservation(false, false, c.heartbeatTimeoutMs, "", None, ""))
          && h.decisions[i] == DecisionOf(q, At(q, inputs, i), PeersAt(q, inputs, i), LifecycleAt(q, inputs, i))
          && h.decisions[i].iterationIndex == i && h.decisions[i].elapsedMs == i * step)
    && |h.sends| == |DuePasses(c.heartbeatIntervalMs, step, k)| * |c.peers|
    && |h.broadcasts| == if DiscoveryActive(q) then |DuePasses(c.discovery.intervalMs, step, k)| else 0
  }

  /**
   * In every uninterrupted run each pass has left one health schedule, one send schedule, one receive state and one
   * decision, with its number and its time on the logical clock; each pass in which heartbeats are due has sent one
   * to every peer, and each in which a beacon is due has broadcast one.
   */
  lemma {:induction false} RecordsInClosedForm(q: Request, inputs: seq<Input>, k: nat)
    requires InputsFit(q, inputs) && Uninterrupted(q, inputs, k) && Valid(q.config) && !q.initialState.Faulted?
    ensures RecordsFit(q, inputs, k, At(q, inputs, k).history)
  {
    hide At, Step, RunBeat, LifecycleOf, DiscoverIfActive, EffectiveStepMs, DueInIteration, Valid, RecordsFit;
    if k == 0 {
      NothingRecorded(q, inputs);
    } else {
      PassJGoesOn(q, inputs, k - 1, k);
      RecordsInClosedForm(q, inputs, k - 1);
      RecordsGrow(q, inputs, k - 1);
    }
  }

  lemma NothingRecorded(q: Request, inputs: seq<Input>)
    requires InputsFit(q, inputs) && Valid(q.config)
    ensures RecordsFit(q, inputs, 0, At(q, inputs, 0).history)
  {
    hide DueInIteration, EffectiveStepMs;
    assert DuePasses(q.config.heartbeatIntervalMs, EffectiveStepMs(q.options), 0) == {};
    if DiscoveryActive(q) { assert DuePasses(q.config.discovery.intervalMs, EffectiveStepMs(q.options), 0) == {}; }
  }

  lemma OneMorePass(intervalMs: int, stepMs: nat, k: nat)
    requires intervalMs > 0
    ensures |DuePasses(intervalMs, stepMs, k + 1)|
         == |DuePasses(intervalMs, stepMs, k)| + if DueInIteration(intervalMs, stepMs, k) then 1 else 0
  {
    hide DueInIteration;
    assert DuePasses(intervalMs, stepMs, k + 1)
        == DuePasses(intervalMs, stepMs, k) + if DueInIteration(intervalMs, stepMs, k) then {k} else {};
  }

  lemma SentCount(q: Request, s: LoopState, input: Input)
    requires InputFits(q, input)
    ensures |SendsOf(RunBeat(q, s, input))| == if RunBeat(q, s, input).due then |q.config.peers| else 0
    ensures RunBeat(q, s, input).receive.attempted == RunBeat(q, s, input).due
    ensures !RunBeat(q, s, input).due ==>
              RunBeat(q, s, input).receive == ReceiveObservation(false, false, q.config.heartbeatTimeoutMs, "", None, "")
  {
    hide Expired, Remember, ConfiguredPeerHeard, SendFailed;
  }

  lemma BroadcastCount(q: Request, s: LoopState, drained: seq<string>)
    ensures |DiscoverIfActive(q, s, drained).1|
         == if DiscoveryActive(q) && Due(s.discovery.timer, s.elapsedMs, q.config.discovery.intervalMs) then 1 else 0
  {
    hide SignBeacon, MakeBeacon, Ingest, Pruned;
  }

  lemma RecordsGrow(q: Request, inputs: seq<Input>, k: nat)
    requires InputsFit(q, inputs) && Uninterrupted(q, inputs, k + 1) && Valid(q.config) && !q.initialState.Faulted?
    requires Uninterrupted(q, inputs, k) && RecordsFit(q, inputs, k, At(q, inputs, k).history)
    ensures RecordsFit(q, inputs, k + 1, At(q, inputs, k + 1).history)
  {
    hide At, Step, RunBeat, LifecycleOf, DiscoverIfActive, EffectiveStepMs, DueInIteration, PeersOfPass, Due, DuePasses;
    var s, input, c, step := At(q, inputs, k), inputs[k], q.config, EffectiveStepMs(q.options);
    PassJGoesOn(q, inputs, k, k + 1);
    NeverFaultedWhileRunning(q, inputs, k);
    IterationRuns(q, s, input);
    ClockAndTimers(q, inputs, k);
    SchedulesInClosedForm(q, inputs, k);
    PassRecords(q, s, input);
    PassRecordsBroadcasts(q, s, input);
    SentCount(q, s, input);
    BroadcastCount(q, s, input.drained);
    OneMorePass(c.heartbeatIntervalMs, step, k);
    if DiscoveryActive(q) { OneMorePass(c.discovery.intervalMs, step, k); }
    OneMore(|DuePasses(c.heartbeatIntervalMs, step, k)|, |c.peers|);
  }

  lemma OneMore(a: nat, b: nat)
    ensures (a + 1) * b == a * b + b
  {
  }
}
