/**
 * How a pass of the daemon loop ends, read off what the transport, the probe and the manager answer in it, and
 * what that means for runs.
 */
module PassOutcomes {
  import opened Text
  import opened HeartbeatLoop
  import opened Config
  import opened DaemonLifecycle
  import opened Schedule
  import opened DaemonMachine
  import opened DaemonRuns
  import DaemonLoop

  // ---------------------------------------------------------------- transport faults

  /** Some send was not sent or has an error, or the receive has an error or a datagram that does not parse. */
  predicate TransportFails(t: TransportAnswers) {
    || (exists i :: 0 <= i < |t.sends| && (!t.sends[i].sent || t.sends[i].error != ""))
    || t.receive.error != ""
    || (t.receive.datagram.Some? && t.receive.datagram.value.payload.Unparsable?)
  }

  /** A heartbeat exchange faults exactly when it is due, real mutation is requested, and the transport fails. */
  lemma TransportFaultIff(q: Request, s: LoopState, input: Input)
    requires InputFits(q, input)
    ensures RunBeat(q, s, input).fault <==>
      && (!s.heartbeat.wasDue || s.elapsedMs - s.heartbeat.lastDueMs >= q.config.heartbeatIntervalMs)
      && !q.options.dryRun && q.config.allowNetworkMutation
      && TransportFails(input.transport)
  {
    hide Expired, Remember, ConfiguredPeerHeard;
    ExchangeReports(s.localStatus, q.config.peers, input.transport);
    hide ExchangeOnce, Received;
    SendFailedIff(q, s, input);
  }

  lemma SendFailedIff(q: Request, s: LoopState, input: Input)
    requires InputFits(q, input)
    ensures SendFailed(ExchangeOnce(s.localStatus, q.config.peers, input.transport)) <==>
      exists i :: 0 <= i < |input.transport.sends| && (!input.transport.sends[i].sent || input.transport.sends[i].error != "")
  {
    hide Received;
    var sends := input.transport.sends;
    var x := ExchangeOnce(s.localStatus, q.config.peers, input.transport);
    assert forall i :: 0 <= i < |sends| ==> x.sends[i].sent == sends[i].sent && x.sends[i].error == sends[i].error;
    if i :| 0 <= i < |sends| && (!sends[i].sent || sends[i].error != "") {
      assert x.sends[i] in x.sends;
    }
  }

  /**
   * Then the loop ends as faulted in that pass: the exchange is recorded, and no VIP operation, decision,
   * broadcast or health check is added to the records.
   */
  lemma TransportFaultStopsLoop(q: Request, s: LoopState, input: Input)
    requires InputFits(q, input) && s.exit.None? && !input.shutdownAtTop
    requires !s.heartbeat.wasDue || s.elapsedMs - s.heartbeat.lastDueMs >= q.config.heartbeatIntervalMs
    requires !q.options.dryRun && q.config.allowNetworkMutation && TransportFails(input.transport)
    ensures var after := Step(q, s, input);
      && after.exit == Some(Exit(Faulted, LifecycleFaulted))
      && after.iterationsRan == s.iterationsRan && after.localStatus == s.localStatus && after.discovery == s.discovery
      && after.history.vipOperations == s.history.vipOperations && after.history.decisions == s.history.decisions
      && after.history.broadcasts == s.history.broadcasts && after.history.healthSchedules == s.history.healthSchedules
      && |after.history.sends| == |s.history.sends| + |q.config.peers|
      && |after.history.receives| == |s.history.receives| + 1
  {
    TransportFaultIff(q, s, input);
    hide Expired, Remember, ConfiguredPeerHeard, TransportFails, DiscoverIfActive, LifecycleOf, PeersOfPass, SendFailed, Received;
  }

  /** A run of a daemon that may act for real ends, for good and without another VIP operation, when its transport fails. */
  lemma TransportFaultEndsRun(q: Request, inputs: seq<Input>, k: nat, n: nat)
    requires InputsFit(q, inputs) && Uninterrupted(q, inputs, k) && k < n <= |inputs|
    requires Valid(q.config) && !q.initialState.Faulted? && !inputs[k].shutdownAtTop
    requires DueInIteration(q.config.heartbeatIntervalMs, EffectiveStepMs(q.options), k)
    requires !q.options.dryRun && q.config.allowNetworkMutation && TransportFails(inputs[k].transport)
    ensures At(q, inputs, n).exit == Some(Exit(Faulted, LifecycleFaulted))
    ensures var before, after := At(q, inputs, k).history, At(q, inputs, n).history;
      after.vipOperations == before.vipOperations && after.decisions == before.decisions && after.broadcasts == before.broadcasts
  {
    hide At, Step, RunBeat, TransportFails, Valid, EffectiveStepMs, DueInIteration, Uninterrupted;
    var s, input := At(q, inputs, k), inputs[k];
    StillGoing(q, inputs, k);
    SchedulesInClosedForm(q, inputs, k);
    BeatIsDueIff(q, s, input);
    TransportFaultStopsLoop(q, s, input);
    NextState(q, inputs, k);
    DaemonLoop.OverIsOver(q, inputs, k + 1, n);
  }

  lemma StillGoing(q: Request, inputs: seq<Input>, k: nat)
    requires InputsFit(q, inputs) && Uninterrupted(q, inputs, k)
    ensures At(q, inputs, k).exit.None?
  {
  }

  lemma BeatIsDueIff(q: Request, s: LoopState, input: Input)
    requires InputFits(q, input)
    ensures RunBeat(q, s, input).due <==>
      !s.heartbeat.wasDue || s.elapsedMs - s.heartbeat.lastDueMs >= q.config.heartbeatIntervalMs
  {
    hide Expired, Remember, ConfiguredPeerHeard, ExchangeOnce, SendFailed;
  }

  /** As long as such a run goes on, no exchange of it has failed. */
  lemma RunHadCleanTransport(q: Request, inputs: seq<Input>, j: nat, k: nat)
    requires InputsFit(q, inputs) && j < k <= |inputs| && At(q, inputs, k).exit.None? && BeatAt(q, inputs, j).due
    requires !q.options.dryRun && q.config.allowNetworkMutation
    ensures !TransportFails(inputs[j].transport)
  {
    hide At, RunBeat, Step, LifecycleOf, TransportFails;
    PassJGoesOn(q, inputs, j, k);
    BeatIsDueIff(q, At(q, inputs, j), inputs[j]);
    TransportFaultIff(q, At(q, inputs, j), inputs[j]);
  }

  /** The warmup flag comes on in a pass that the loop survives exactly if real mutation is requested and heartbeats are due. */
  lemma WarmupIff(q: Request, s: LoopState, input: Input)
    requires InputFits(q, input) && s.exit.None? && Step(q, s, input).exit.None?
    ensures var due := !s.heartbeat.wasDue || s.elapsedMs - s.heartbeat.lastDueMs >= q.config.heartbeatIntervalMs;
      Step(q, s, input).warmedUp == (s.warmedUp || (!q.options.dryRun && q.config.allowNetworkMutation && due))
  {
    hide Step, RunBeat, LifecycleOf, WarmsUp;
    PassGoesOn(q, s, input);
    BeatIsDueIff(q, s, input);
    if RealMutationRequested(q) { DueBeatWarms(q, s, input); }
  }

  lemma DueBeatWarms(q: Request, s: LoopState, input: Input)
    requires InputFits(q, input) && RealMutationRequested(q) && !RunBeat(q, s, input).fault
    ensures WarmsUp(RunBeat(q, s, input)) <==> RunBeat(q, s, input).due
  {
    hide Expired, Remember, ConfiguredPeerHeard, SendFailed;
  }

  // ---------------------------------------------------------------- when a loop starts and stops

  /** A loop makes its first pass exactly if no shutdown came first, the configuration is valid and the limit is not 0. */
  lemma LoopStartsIff(q: Request, shutdownAtStart: bool)
    ensures var s := Init(q, shutdownAtStart);
      && (s.exit.None? <==> !shutdownAtStart && (q.configPrevalidated || Valid(q.config))
                            && (q.options.runUntilShutdown || q.options.maxIterations > 0))
      && (shutdownAtStart ==> s.exit == Some(Exit(Stopped, ShutdownRequested)))
      && (!shutdownAtStart && !q.configPrevalidated && !Valid(q.config) ==> s.exit == Some(Exit(Faulted, LifecycleFaulted)))
      && s.localStatus.nodeId == q.config.nodeId && s.localStatus.priority == q.config.priority
      && s.localStatus.healthy && s.localStatus.state.Backup?
  {
    hide Valid;
  }

  /** A shutdown seen at the top of a pass ends the loop there and changes nothing else. */
  lemma ShutdownStopsLoop(q: Request, inputs: seq<Input>, k: nat)
    requires InputsFit(q, inputs) && k < |inputs| && At(q, inputs, k).exit.None? && inputs[k].shutdownAtTop
    ensures At(q, inputs, k + 1) == At(q, inputs, k).(exit := Some(Exit(Stopped, ShutdownRequested)))
  {
    hide RunBeat, DiscoverIfActive, LifecycleOf, PeersOfPass, Advance, Record, TransportFault;
  }

  lemma {:induction false} RunningWithinLimit(q: Request, inputs: seq<Input>, k: nat)
    requires InputsFit(q, inputs) && k <= |inputs| && At(q, inputs, k).exit.None?
    ensures At(q, inputs, k).index == k && (q.options.runUntilShutdown || k < q.options.maxIterations)
  {
    hide At, Step, RunBeat, LifecycleOf, Valid;
    StartsAtZero(q, inputs);
    if k > 0 {
      PassJGoesOn(q, inputs, k - 1, k);
      RunningWithinLimit(q, inputs, k - 1);
      PassGoesOn(q, At(q, inputs, k - 1), inputs[k - 1]);
      NotTheLastPass(q, At(q, inputs, k - 1), inputs[k - 1]);
    }
  }

  lemma NotTheLastPass(q: Request, s: LoopState, input: Input)
    requires InputFits(q, input) && s.exit.None? && !input.shutdownAtTop
    requires !RunBeat(q, s, input).fault && !LifecycleOf(q, s, input).finalState.Faulted?
    ensures Step(q, s, input).exit == if !q.options.runUntilShutdown && s.index + 1 == q.options.maxIterations
                                      then Some(Exit(LifecycleOf(q, s, input).finalState, MaxIterations)) else None
  {
    hide RunBeat, LifecycleOf, DiscoverIfActive, PeersOfPass, EffectiveStepMs, Tick, WarmsUp, Record;
  }

  /**
   * A pass without shutdown or fault ends the loop exactly if it is the last that the limit allows, and its
   * final state is then the lifecycle's.
   */
  lemma LimitStopsLoopIff(q: Request, inputs: seq<Input>, k: nat)
    requires InputsFit(q, inputs) && Reaches(q, inputs, k) && !LifecycleAt(q, inputs, k).finalState.Faulted?
    ensures At(q, inputs, k + 1).exit
         == if !q.options.runUntilShutdown && k + 1 == q.options.maxIterations
            then Some(Exit(LifecycleAt(q, inputs, k).finalState, MaxIterations)) else None
  {
    hide At, Step, RunBeat, LifecycleOf;
    RunningWithinLimit(q, inputs, k);
    NotTheLastPass(q, At(q, inputs, k), inputs[k]);
    NextState(q, inputs, k);
  }

  /** The clock of a run: the logical step if there is one, else the delay between passes, and it never goes back. */
  lemma ClockFollowsOptions(q: Request, inputs: seq<Input>, k: nat)
    requires InputsFit(q, inputs) && Uninterrupted(q, inputs, k) && !q.initialState.Faulted?
    ensures var o, elapsedMs := q.options, At(q, inputs, k).elapsedMs;
      && (o.logicalIterationElapsedMs > 0 ==> elapsedMs == k * o.logicalIterationElapsedMs)
      && (o.logicalIterationElapsedMs <= 0 && o.interIterationDelayMs > 0 ==> elapsedMs == k * o.interIterationDelayMs)
      && (o.logicalIterationElapsedMs <= 0 && o.interIterationDelayMs <= 0 ==> elapsedMs == 0)
  {
    hide At;
    ClockAndTimers(q, inputs, k);
  }

  /**
   * A shutdown seen only inside the lifecycle costs the pass its iteration: the clock stands still, and no operation,
   * decision or schedule is recorded.
   */
  lemma ShutdownInLifecycleIsIdle(q: Request, inputs: seq<Input>, k: nat)
    requires InputsFit(q, inputs) && Reaches(q, inputs, k) && inputs[k].shutdownInLifecycle && !At(q, inputs, k).current.Faulted?
    ensures var s, after := At(q, inputs, k), At(q, inputs, k + 1);
      && after.elapsedMs == s.elapsedMs && after.iterationsRan == s.iterationsRan && after.localStatus == s.localStatus
      && after.health == s.health && after.current.Stopped?
      && after.history.vipOperations == s.history.vipOperations && after.history.decisions == s.history.decisions
      && after.history.healthSchedules == s.history.healthSchedules && after.history.receives == s.history.receives
  {
    hide At, Step, RunBeat, PeersOfPass, Lifecycle, Valid;
    var s, input := At(q, inputs, k), inputs[k];
    NextState(q, inputs, k);
    IterationRunsIff(LifecycleRequestOf(q, s, input), input.platform);
    UnranPass(q, s, input);
  }

  lemma UnranPass(q: Request, s: LoopState, input: Input)
    requires InputFits(q, input) && s.exit.None? && !input.shutdownAtTop && !RunBeat(q, s, input).fault
    requires var r := LifecycleOf(q, s, input); !r.iterationRan && r.vipOperations == [] && r.finalState.Stopped?
    ensures var after := Step(q, s, input);
      && after.elapsedMs == s.elapsedMs && after.iterationsRan == s.iterationsRan && after.localStatus == s.localStatus
      && after.health == s.health && after.current.Stopped?
      && after.history.vipOperations == s.history.vipOperations && after.history.decisions == s.history.decisions
      && after.history.healthSchedules == s.history.healthSchedules && after.history.receives == s.history.receives
  {
    hide RunBeat, LifecycleOf, DiscoverIfActive, PeersOfPass, EffectiveStepMs, Tick, WarmsUp, DecisionOf;
    assert s.history.vipOperations + [] == s.history.vipOperations;
  }

  // ---------------------------------------------------------------- failed probes

  /** A pass whose iteration faults still leaves its schedules, its exchange and its broadcast in the records. */
  lemma FaultedPassStops(q: Request, s: LoopState, input: Input)
    requires InputFits(q, input) && s.exit.None? && !input.shutdownAtTop && !RunBeat(q, s, input).fault
    requires LifecycleOf(q, s, input).finalState.Faulted?
    ensures var h, after, ran := s.history, Step(q, s, input), if LifecycleOf(q, s, input).iterationRan then 1 else 0;
      && after.exit == Some(Exit(Faulted, LifecycleFaulted)) && after.history.decisions == h.decisions
      && after.history.broadcasts == h.broadcasts + DiscoverIfActive(q, s, input.drained).1
      && |after.history.healthSchedules| == |h.healthSchedules| + ran && |after.history.sendSchedules| == |h.sendSchedules| + ran
      && |after.history.receives| == |h.receives| + ran
  {
    hide RunBeat, LifecycleOf, DiscoverIfActive, PeersOfPass, EffectiveStepMs, Tick, WarmsUp, DecisionOf;
  }

  /**
   * Outside dry runs a pass whose probe fails ends the loop as faulted, without a decision and without any
   * VIP operation, whatever the manager would have answered.
   */
  lemma FailedProbeStopsLoop(q: Request, inputs: seq<Input>, k: nat)
    requires InputsFit(q, inputs) && Reaches(q, inputs, k) && LifecycleAt(q, inputs, k).iterationRan
    requires !q.options.dryRun && q.config.vip.address != "" && !inputs[k].platform.probe.success
    ensures At(q, inputs, k + 1).exit == Some(Exit(Faulted, LifecycleFaulted))
    ensures At(q, inputs, k + 1).history.vipOperations == At(q, inputs, k).history.vipOperations
    ensures At(q, inputs, k + 1).history.decisions == At(q, inputs, k).history.decisions
  {
    hide At, Step, RunBeat, PeersOfPass, Lifecycle;
    var s, input := At(q, inputs, k), inputs[k];
    FailedProbe(LifecycleRequestOf(q, s, input), input.platform);
    FaultedPassStops(q, s, input);
    PassRecordsOperations(q, s, input);
    NextState(q, inputs, k);
  }

  lemma StepOperations(q: Request, s: LoopState, input: Input)
    requires InputFits(q, input)
    ensures var after := Step(q, s, input).history.vipOperations;
      after == s.history.vipOperations
      || (s.exit.None? && !input.shutdownAtTop && !RunBeat(q, s, input).fault
          && after == s.history.vipOperations + LifecycleOf(q, s, input).vipOperations)
  {
    hide RunBeat, LifecycleOf, DiscoverIfActive, PeersOfPass, DecisionOf, EffectiveStepMs, Tick, WarmsUp, StatusAfter;
  }

  lemma OperatingIterationRan(q: LifecycleRequest, answers: PlatformAnswers)
    requires Lifecycle(q, answers).vipOperations != []
    ensures Lifecycle(q, answers).iterationRan && q.config.vip.address != "" && Lifecycle(q, answers).decision.Some?
    ensures !Lifecycle(q, answers).decision.value.action.EnterFault?
  {
    hide LifecycleWith, DecisionFor;
    IterationRunsIff(q, answers);
    LifecycleShape(q, answers, DecisionFor(q, ProbedOwner(answers.probe)));
  }

  /** A manager acted for real although a dry run was asked for, or failed: the iteration faults. */
  lemma DryRunOperations(lq: LifecycleRequest, answers: PlatformAnswers)
    requires lq.dryRun || !lq.config.allowNetworkMutation
    ensures Lifecycle(lq, answers).finalState.Faulted? || RealPart(Lifecycle(lq, answers).vipOperations) == []
  {
    hide Lifecycle, RealPart;
    var r := Lifecycle(lq, answers);
    if r.vipOperations != [] && !r.finalState.Faulted? {
      OperatingIterationRan(lq, answers);
      FaultIffRejected(lq, answers);
      assert forall op <- r.vipOperations :: op.answer.dryRun;
    }
    if !r.finalState.Faulted? { RealPartOfUniform(r.vipOperations, true); }
  }

  /**
   * No pass whose probe failed brings a real operation into the log of a run, unless it is a dry run whose
   * manager acts for real all the same; the loop then ends as faulted.
   */
  lemma FailedProbeAddsNothingReal(q: Request, inputs: seq<Input>, k: nat)
    requires InputsFit(q, inputs) && k < |inputs| && !inputs[k].platform.probe.success
    ensures var before, after := At(q, inputs, k).history.vipOperations, At(q, inputs, k + 1).history.vipOperations;
      && (!q.options.dryRun ==> after == before)
      && (RealPart(after) == RealPart(before) || At(q, inputs, k + 1).exit == Some(Exit(Faulted, LifecycleFaulted)))
  {
    hide At, Step, RunBeat, PeersOfPass, Lifecycle, RealPart;
    var s, input := At(q, inputs, k), inputs[k];
    var lq, r := LifecycleRequestOf(q, s, input), LifecycleOf(q, s, input);
    NextState(q, inputs, k);
    StepOperations(q, s, input);
    assert s.history.vipOperations + [] == s.history.vipOperations;
    if At(q, inputs, k + 1).history.vipOperations != s.history.vipOperations {
      OperatingIterationRan(lq, input.platform);
      FailedProbe(lq, input.platform);
      DryRunOperations(lq, input.platform);
      if r.finalState.Faulted? {
        FaultedPassStops(q, s, input);
      } else {
        RealPartConcat(s.history.vipOperations, r.vipOperations);
        assert RealPart(s.history.vipOperations) + [] == RealPart(s.history.vipOperations);
      }
    }
  }

  /** A run that is a dry run, or not allowed to mutate, moves nothing as long as it goes on. */
  lemma {:induction false} OnlyRealMutationMoves(q: Request, inputs: seq<Input>, k: nat, ownedAtStart: bool)
    requires InputsFit(q, inputs) && k <= |inputs| && At(q, inputs, k).exit.None?
    requires q.options.dryRun || !q.config.allowNetworkMutation
    ensures RealPart(At(q, inputs, k).history.vipOperations) == []
    ensures HostAt(q, inputs, k, ownedAtStart) == ownedAtStart
  {
    hide At, Step, RunBeat, LifecycleOf, RealPart;
    StartsAtZero(q, inputs);
    if k > 0 {
      var s, input := At(q, inputs, k - 1), inputs[k - 1];
      PassJGoesOn(q, inputs, k - 1, k);
      OnlyRealMutationMoves(q, inputs, k - 1, ownedAtStart);
      PassGoesOn(q, s, input);
      PassStaysDry(q, s, input);
      var ops := LifecycleOf(q, s, input).vipOperations;
      RealPartConcat(s.history.vipOperations, ops);
      HostAfterConcat(ownedAtStart, s.history.vipOperations, ops);
      DryOperationsMoveNothing(ops, ownedAtStart);
    } else {
      NothingIsReal();
    }
  }

  lemma NothingIsReal()
    ensures RealPart([]) == []
  {
  }

  lemma PassStaysDry(q: Request, s: LoopState, input: Input)
    requires InputFits(q, input) && (q.options.dryRun || !q.config.allowNetworkMutation)
    requires !LifecycleOf(q, s, input).finalState.Faulted?
    ensures RealPart(LifecycleOf(q, s, input).vipOperations) == []
    ensures forall op <- LifecycleOf(q, s, input).vipOperations :: op.answer.dryRun
  {
    hide PeersOfPass, Lifecycle, RealPart;
    var lq := LifecycleRequestOf(q, s, input);
    DryRunOperations(lq, input.platform);
    hide RunBeat;
    DryRunMovesNothing(lq, input.platform, false);
  }
}
