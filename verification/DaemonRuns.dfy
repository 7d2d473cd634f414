/** What holds in every run of the daemon loop: clock, schedules, warmup and the VIP. */
module DaemonRuns {
  import opened FailoverDecision
  import opened HeartbeatLoop
  import opened Config
  import opened DaemonLifecycle
  import opened Schedule
  import opened DaemonMachine

  // ---------------------------------------------------------------- one pass, then the next

  /** How the next state comes about when the loop goes on after a pass. */
  lemma PassGoesOn(q: Request, s: LoopState, input: Input)
    requires InputFits(q, input) && s.exit.None? && Step(q, s, input).exit.None?
    ensures var next, beat, r := Step(q, s, input), RunBeat(q, s, input), LifecycleOf(q, s, input);
      && !input.shutdownAtTop && !beat.fault && !r.finalState.Faulted?
      && next.index == s.index + 1 && next.current == r.finalState
      && next.heartbeat == beat.timer && next.recent == beat.recent
      && next.health == (if r.iterationRan then Tick(s.health, s.elapsedMs, q.config.healthIntervalMs) else s.health)
      && next.discovery == DiscoverIfActive(q, s, input.drained).0
      && next.warmedUp == (s.warmedUp || (RealMutationRequested(q) && WarmsUp(beat)))
      && next.iterationsRan == s.iterationsRan + (if r.iterationRan then 1 else 0)
      && next.elapsedMs == s.elapsedMs + (if r.iterationRan then EffectiveStepMs(q.options) else 0)
      && next.history.vipOperations == s.history.vipOperations + r.vipOperations
  {
    hide RunBeat, LifecycleOf, DiscoverIfActive, PeersOfPass, DecisionOf, EffectiveStepMs, Tick, WarmsUp;
  }

  lemma {:induction false} EarlierPassesGoOn(q: Request, inputs: seq<Input>, j: nat, k: nat)
    requires InputsFit(q, inputs) && j <= k <= |inputs| && At(q, inputs, k).exit.None?
    ensures At(q, inputs, j).exit.None?
    decreases k - j
  {
    hide RunBeat, LifecycleOf, DiscoverIfActive, PeersOfPass, TransportFault, DecisionOf, Advance, Record;
    if j < k { EarlierPassesGoOn(q, inputs, j, k - 1); }
  }

  /** `PassGoesOn` for pass `j` of a run that is still going before pass `k`. */
  lemma PassJGoesOn(q: Request, inputs: seq<Input>, j: nat, k: nat)
    requires InputsFit(q, inputs) && j < k <= |inputs| && At(q, inputs, k).exit.None?
    ensures At(q, inputs, j).exit.None? && At(q, inputs, j + 1).exit.None?
    ensures At(q, inputs, j + 1) == Step(q, At(q, inputs, j), inputs[j]) && InputFits(q, inputs[j])
    ensures Reaches(q, inputs, j) && !LifecycleAt(q, inputs, j).finalState.Faulted?
  {
    hide RunBeat, LifecycleOf, DiscoverIfActive, PeersOfPass, TransportFault, DecisionOf, Advance, Record, Step;
    EarlierPassesGoOn(q, inputs, j, k);
    EarlierPassesGoOn(q, inputs, j + 1, k);
    PassGoesOn(q, At(q, inputs, j), inputs[j]);
  }

  // ---------------------------------------------------------------- clock and schedules

  /** Every pass before `k` ran its iteration; only a shutdown seen inside the lifecycle prevents that. */
  predicate Uninterrupted(q: Request, inputs: seq<Input>, k: nat)
    requires InputsFit(q, inputs)
  {
    k <= |inputs| && At(q, inputs, k).exit.None? && forall j :: 0 <= j < k ==> !inputs[j].shutdownInLifecycle
  }

  lemma IterationRuns(q: Request, s: LoopState, input: Input)
    requires InputFits(q, input) && !s.current.Faulted? && !input.shutdownInLifecycle
    ensures LifecycleOf(q, s, input).iterationRan
  {
    hide PeersOfPass, DecisionFor, GatedConfig;
  }

  lemma {:induction false} NeverFaultedWhileRunning(q: Request, inputs: seq<Input>, k: nat)
    requires InputsFit(q, inputs) && k <= |inputs| && At(q, inputs, k).exit.None? && !q.initialState.Faulted?
    ensures !At(q, inputs, k).current.Faulted?
  {
    hide Step, RunBeat, LifecycleOf;
    if k > 0 {
      PassJGoesOn(q, inputs, k - 1, k);
      PassGoesOn(q, At(q, inputs, k - 1), inputs[k - 1]);
    }
  }

  /** The logical clock, and all three schedules, advance in lockstep with the passes. */
  lemma {:induction false} ClockAndTimers(q: Request, inputs: seq<Input>, k: nat)
    requires InputsFit(q, inputs) && Uninterrupted(q, inputs, k) && !q.initialState.Faulted?
    ensures var s, step := At(q, inputs, k), EffectiveStepMs(q.options);
      && s.index == s.iterationsRan == k && s.elapsedMs == k * step
      && s.heartbeat == TimerAt(q.config.heartbeatIntervalMs, step, k)
      && s.health == TimerAt(q.config.healthIntervalMs, step, k)
      && (DiscoveryActive(q) ==> s.discovery.timer == TimerAt(q.config.discovery.intervalMs, step, k))
  {
    hide At, Step, LifecycleOf, EffectiveStepMs, TimerAt, RunBeat, DiscoverIfActive;
    StartsAtZero(q, inputs);
    if k > 0 {
      var s, step := At(q, inputs, k - 1), EffectiveStepMs(q.options);
      PassJGoesOn(q, inputs, k - 1, k);
      ClockAndTimers(q, inputs, k - 1);
      NeverFaultedWhileRunning(q, inputs, k - 1);
      IterationRuns(q, s, inputs[k - 1]);
      PassGoesOn(q, s, inputs[k - 1]);
      TimersTick(q, s, inputs[k - 1]);
      TimerStep(q.config.heartbeatIntervalMs, step, k);
      TimerStep(q.config.healthIntervalMs, step, k);
      TimerStep(q.config.discovery.intervalMs, step, k);
      assert k * step == (k - 1) * step + step;
    }
  }

  lemma StartsAtZero(q: Request, inputs: seq<Input>)
    requires InputsFit(q, inputs)
    ensures At(q, inputs, 0) == Init(q, false)
    ensures forall interval, step :: TimerAt(interval, step, 0) == IDLE
  {
  }

  lemma TimerStep(intervalMs: int, stepMs: int, k: nat)
    requires k > 0
    ensures TimerAt(intervalMs, stepMs, k) == Tick(TimerAt(intervalMs, stepMs, k - 1), (k - 1) * stepMs, intervalMs)
  {
  }

  lemma TimersTick(q: Request, s: LoopState, input: Input)
    requires InputFits(q, input)
    ensures RunBeat(q, s, input).timer == Tick(s.heartbeat, s.elapsedMs, q.config.heartbeatIntervalMs)
    ensures DiscoveryActive(q) ==>
              DiscoverIfActive(q, s, input.drained).0.timer == Tick(s.discovery.timer, s.elapsedMs, q.config.discovery.intervalMs)
  {
  }

  /** Iteration `k` is due iff `k` is a multiple of ceil(interval / step): heartbeats, health and beacons alike. */
  lemma SchedulesInClosedForm(q: Request, inputs: seq<Input>, k: nat)
    requires InputsFit(q, inputs) && Uninterrupted(q, inputs, k) && k < |inputs| && !q.initialState.Faulted?
    requires Valid(q.config)
    ensures var s, step, c := At(q, inputs, k), EffectiveStepMs(q.options), q.config;
      && (BeatAt(q, inputs, k).due <==> DueInIteration(c.heartbeatIntervalMs, step, k))
      && (Due(s.health, s.elapsedMs, c.healthIntervalMs) <==> DueInIteration(c.healthIntervalMs, step, k))
      && (DiscoveryActive(q) ==>
            (Due(s.discovery.timer, s.elapsedMs, c.discovery.intervalMs) <==> DueInIteration(c.discovery.intervalMs, step, k)))
  {
    var s, step, c := At(q, inputs, k), EffectiveStepMs(q.options), q.config;
    ClockAndTimers(q, inputs, k);
    assert BeatAt(q, inputs, k).due == Due(s.heartbeat, s.elapsedMs, c.heartbeatIntervalMs);
    hide At, BeatAt, EffectiveStepMs, Uninterrupted, DueInIteration, Due, TimerAt;
    DueInClosedForm(c.heartbeatIntervalMs, step, k);
    DueInClosedForm(c.healthIntervalMs, step, k);
    if DiscoveryActive(q) { DueInClosedForm(c.discovery.intervalMs, step, k); }
  }

  // ---------------------------------------------------------------- warmup

  /** In a real-mutation run the warmup flag is off before the first pass and on before every later one. */
  lemma {:induction false} WarmupTakesOnePass(q: Request, inputs: seq<Input>, k: nat)
    requires InputsFit(q, inputs) && k <= |inputs| && At(q, inputs, k).exit.None? && RealMutationRequested(q)
    ensures At(q, inputs, k).warmedUp <==> k > 0
  {
    hide At, Step, LifecycleOf, RunBeat, DiscoverIfActive;
    StartsAtZero(q, inputs);
    if k > 0 {
      PassJGoesOn(q, inputs, k - 1, k);
      WarmupTakesOnePass(q, inputs, k - 1);
      PassGoesOn(q, At(q, inputs, k - 1), inputs[k - 1]);
      if k == 1 { FirstBeatWarmsUp(q, inputs[0]); }
    }
  }

  /** The first heartbeat cycle is always due, and a transport error would have faulted it. */
  lemma FirstBeatWarmsUp(q: Request, input: Input)
    requires InputFits(q, input) && RealMutationRequested(q) && !RunBeat(q, Init(q, false), input).fault
    ensures WarmsUp(RunBeat(q, Init(q, false), input))
  {
  }

  /** So exactly the first pass hands the lifecycle a configuration that demands dry runs. */
  lemma GateIsShutInFirstPassOnly(q: Request, inputs: seq<Input>, k: nat)
    requires InputsFit(q, inputs) && Reaches(q, inputs, k) && RealMutationRequested(q)
    ensures RequireDryRun(LifecycleRequestOf(q, At(q, inputs, k), inputs[k])) <==> k == 0
  {
    WarmupTakesOnePass(q, inputs, k);
    hide At, PeersOfPass, RunBeat;
  }

  /** Any real-mutation run whose first pass does not fault recorded only dry runs there and moved nothing. */
  lemma FirstPassIsDry(q: Request, inputs: seq<Input>, ownsVip: bool)
    requires InputsFit(q, inputs) && Reaches(q, inputs, 0) && RealMutationRequested(q)
    requires !LifecycleAt(q, inputs, 0).finalState.Faulted?
    ensures forall op <- LifecycleAt(q, inputs, 0).vipOperations :: op.answer.dryRun
    ensures HostAfter(ownsVip, LifecycleAt(q, inputs, 0).vipOperations) == ownsVip
  {
    GateIsShutInFirstPassOnly(q, inputs, 0);
    DryRunMovesNothing(LifecycleRequestOf(q, At(q, inputs, 0), inputs[0]), inputs[0].platform, ownsVip);
  }

  predicate RealAnswers(p: PlatformAnswers) { !p.add.dryRun && !p.announce.dryRun && !p.remove.dryRun }

  /** The first operation of a demanded dry run is rejected when the manager really acts. */
  lemma RealManagerFailsDryRun(q: LifecycleRequest, answers: PlatformAnswers, decision: Decision)
    requires RequireDryRun(q) && RealAnswers(answers) && NotRun(q).None? && q.config.vip.address != "" && answers.probe.success
    requires !decision.action.EnterFault?
    ensures LifecycleWith(q, answers, decision).finalState.Faulted? <==> Planned(decision.action, answers.probe.localOwner) != []
  {
    PerformedPlans(answers, RequireDryRun(q));
  }

  /**
   * The gate detects, it does not prevent: with a manager that really mutates, the first pass of a
   * real-mutation run survives exactly when its decision calls for no VIP operation.
   */
  lemma RealManagerSurvivesWarmupIffIdle(q: Request, inputs: seq<Input>)
    requires InputsFit(q, inputs) && Reaches(q, inputs, 0) && RealMutationRequested(q)
    requires !q.initialState.Faulted? && !inputs[0].shutdownInLifecycle && q.config.vip.address != ""
    requires inputs[0].platform.probe.success && RealAnswers(inputs[0].platform)
    ensures var lq, owner := LifecycleRequestOf(q, At(q, inputs, 0), inputs[0]), inputs[0].platform.probe.localOwner;
      LifecycleAt(q, inputs, 0).finalState.Faulted? <==> Planned(DecisionFor(lq, owner).action, owner) != []
  {
    var lq, owner := LifecycleRequestOf(q, At(q, inputs, 0), inputs[0]), inputs[0].platform.probe.localOwner;
    GateIsShutInFirstPassOnly(q, inputs, 0);
    hide PeersOfPass, RunBeat;
    assert NotRun(lq).None? && lq.config.vip.address != "" && lq.localHealthy;
    HealthyNodeNeverFaults(lq, owner);
    hide Decide, DecisionFor, GatedConfig;
    RealManagerFailsDryRun(lq, inputs[0].platform, DecisionFor(lq, owner));
  }

  lemma HealthyNodeNeverFaults(lq: LifecycleRequest, owner: bool)
    requires lq.localHealthy
    ensures !DecisionFor(lq, owner).action.EnterFault?
  {
    ActionFitsState(LocalStatusFromOwnership(lq.config, lq.localHealthy, owner), lq.peers, ElectionPolicyFromConfig(lq.config));
  }

  // ---------------------------------------------------------------- progress

  /** The manager accepts whatever it is asked, as a dry run where one is demanded. */
  predicate Obliging(p: PlatformAnswers, dry: bool) {
    && p.add.success && p.announce.success && p.remove.success
    && (dry ==> p.add.dryRun && p.announce.dryRun && p.remove.dryRun)
  }

  /** Neither a shutdown nor the probe nor, before real mutation, the transport gives a reason to stop. */
  predicate Steady(q: Request, input: Input)
    requires InputFits(q, input)
  {
    && !input.shutdownAtTop && !input.shutdownInLifecycle && input.platform.probe.success
    && (RealMutationRequested(q) ==>
         && (forall i :: 0 <= i < |q.config.peers| ==> input.transport.sends[i].sent && input.transport.sends[i].error == "")
         && Received(input.transport.receive).error == "")
  }

  /** The decision of a pass in state `s` calls for no VIP operation. */
  predicate IdlePass(q: Request, s: LoopState, input: Input)
    requires InputFits(q, input)
  {
    var owner := ProbedOwner(input.platform.probe);
    Planned(DecisionFor(LifecycleRequestOf(q, s, input), owner).action, owner) == []
  }

  /** Whether pass `k` must be a dry run. */
  predicate DryRunDemanded(q: Request, k: nat) { !RealMutationRequested(q) || k == 0 }

  /** Pass `k` is steady, and the manager obliges if it is called at all. */
  predicate Favourable(q: Request, inputs: seq<Input>, k: nat)
    requires InputsFit(q, inputs) && k < |inputs|
  {
    && Steady(q, inputs[k])
    && (IdlePass(q, At(q, inputs, k), inputs[k]) || Obliging(inputs[k].platform, DryRunDemanded(q, k)))
  }

  lemma CleanBeatHasNoFault(q: Request, s: LoopState, input: Input)
    requires InputFits(q, input) && Steady(q, input)
    ensures !RunBeat(q, s, input).fault
  {
    hide Expired, Remember, ConfiguredPeerHeard, Received;
    var x := ExchangeOnce(s.localStatus, q.config.peers, input.transport);
    assert forall i :: 0 <= i < |x.sends| ==> x.sends[i].sent == input.transport.sends[i].sent && x.sends[i].error == input.transport.sends[i].error;
  }

  lemma ObligingMeansAccepted(lq: LifecycleRequest, answers: PlatformAnswers, decision: Decision)
    requires NotRun(lq).None? && lq.config.vip.address != "" && answers.probe.success && !decision.action.EnterFault?
    requires Obliging(answers, RequireDryRun(lq))
    ensures Completed(LifecycleWith(lq, answers, decision))
  {
    PerformedPlans(answers, RequireDryRun(lq));
  }

  lemma IdleMeansCompleted(lq: LifecycleRequest, answers: PlatformAnswers, decision: Decision)
    requires NotRun(lq).None? && lq.config.vip.address != "" && answers.probe.success && !decision.action.EnterFault?
    requires Planned(decision.action, ProbedOwner(answers.probe)) == []
    ensures Completed(LifecycleWith(lq, answers, decision)) && LifecycleWith(lq, answers, decision).vipOperations == []
  {
    PerformedPlans(answers, RequireDryRun(lq));
  }

  lemma FavourablePassCompletes(q: Request, s: LoopState, input: Input, k: nat)
    requires InputFits(q, input) && Steady(q, input) && q.config.vip.address != "" && !s.current.Faulted?
    requires IdlePass(q, s, input) || Obliging(input.platform, DryRunDemanded(q, k))
    requires RealMutationRequested(q) ==> (s.warmedUp <==> k > 0)
    ensures Completed(LifecycleOf(q, s, input)) && LifecycleOf(q, s, input).finalState.Stopped?
    ensures IdlePass(q, s, input) ==> LifecycleOf(q, s, input).vipOperations == []
  {
    hide PeersOfPass, Received;
    var lq := LifecycleRequestOf(q, s, input);
    var owner := ProbedOwner(input.platform.probe);
    HealthyNodeNeverFaults(lq, owner);
    hide Decide, DecisionFor;
    if IdlePass(q, s, input) {
      IdleMeansCompleted(lq, input.platform, DecisionFor(lq, owner));
    } else {
      ObligingMeansAccepted(lq, input.platform, DecisionFor(lq, owner));
    }
  }

  /**
   * Progress: the loop stops for a shutdown, a limit or a fault and for nothing else. As long as the
   * environment is favourable every pass runs and completes, from any initial state that is not a fault.
   */
  lemma {:induction false} FavourableRunGoesOn(q: Request, inputs: seq<Input>, n: nat)
    requires InputsFit(q, inputs) && n <= |inputs| && q.options.runUntilShutdown && !q.initialState.Faulted?
    requires q.config.vip.address != "" && (q.configPrevalidated || Valid(q.config))
    requires forall k :: 0 <= k < n ==> Favourable(q, inputs, k)
    ensures Uninterrupted(q, inputs, n) && forall k :: 0 <= k < n ==> Completes(q, inputs, k)
  {
    hide At, Favourable, Uninterrupted, Completes;
    if n == 0 {
      StartIsUninterrupted(q, inputs);
    } else {
      FavourableRunGoesOn(q, inputs, n - 1);
      FavourablePassGoesOn(q, inputs, n - 1);
    }
  }

  lemma StartIsUninterrupted(q: Request, inputs: seq<Input>)
    requires InputsFit(q, inputs) && q.options.runUntilShutdown && (q.configPrevalidated || Valid(q.config))
    ensures Uninterrupted(q, inputs, 0)
  {
  }

  lemma FavourablePassGoesOn(q: Request, inputs: seq<Input>, k: nat)
    requires InputsFit(q, inputs) && k < |inputs| && q.options.runUntilShutdown && !q.initialState.Faulted?
    requires q.config.vip.address != "" && Favourable(q, inputs, k) && Uninterrupted(q, inputs, k)
    ensures Uninterrupted(q, inputs, k + 1) && Completes(q, inputs, k)
    ensures IdlePass(q, At(q, inputs, k), inputs[k]) ==> LifecycleAt(q, inputs, k).vipOperations == []
  {
    hide At, Step, RunBeat, LifecycleOf, Received, Obliging, IdlePass;
    var s, input := At(q, inputs, k), inputs[k];
    NeverFaultedWhileRunning(q, inputs, k);
    if RealMutationRequested(q) { WarmupTakesOnePass(q, inputs, k); }
    CleanBeatHasNoFault(q, s, input);
    FavourablePassCompletes(q, s, input, k);
    CompletedPassGoesOn(q, s, input);
    NextState(q, inputs, k);
  }

  lemma NextState(q: Request, inputs: seq<Input>, k: nat)
    requires InputsFit(q, inputs) && k < |inputs|
    ensures At(q, inputs, k + 1) == Step(q, At(q, inputs, k), inputs[k])
  {
    hide Step;
  }

  lemma CompletedPassGoesOn(q: Request, s: LoopState, input: Input)
    requires InputFits(q, input) && s.exit.None? && !input.shutdownAtTop && q.options.runUntilShutdown
    requires !RunBeat(q, s, input).fault && !LifecycleOf(q, s, input).finalState.Faulted?
    ensures Step(q, s, input).exit.None?
  {
    hide RunBeat, LifecycleOf, DiscoverIfActive, PeersOfPass, EffectiveStepMs, Tick, WarmsUp, Record;
  }

  // ---------------------------------------------------------------- the VIP over whole runs

  /** Whether this host owns the VIP before pass `k`, given whether it did at the start. */
  function HostAt(q: Request, inputs: seq<Input>, k: nat, ownedAtStart: bool): bool
    requires InputsFit(q, inputs) && k <= |inputs|
  {
    HostAfter(ownedAtStart, At(q, inputs, k).history.vipOperations)
  }

  /** In pass `k` the probe tells the truth about the host and the manager really acts. */
  predicate HonestPlatform(q: Request, inputs: seq<Input>, k: nat, ownedAtStart: bool)
    requires InputsFit(q, inputs) && k < |inputs|
  {
    && inputs[k].platform.probe.success && inputs[k].platform.probe.localOwner == HostAt(q, inputs, k, ownedAtStart)
    && RealAnswers(inputs[k].platform)
  }

  lemma PassRecordsOperations(q: Request, s: LoopState, input: Input)
    requires InputFits(q, input) && s.exit.None? && !input.shutdownAtTop && !RunBeat(q, s, input).fault
    ensures Step(q, s, input).history.vipOperations == s.history.vipOperations + LifecycleOf(q, s, input).vipOperations
  {
    hide RunBeat, LifecycleOf, DiscoverIfActive, PeersOfPass, DecisionOf, EffectiveStepMs, Tick, WarmsUp;
  }

  lemma {:induction false} PerformedAnswers(plan: seq<OperationType>, answers: PlatformAnswers, requireDryRun: bool)
    ensures forall op <- Performed(plan, answers, requireDryRun) :: op == Answer(op.kind, answers)
  {
    if plan != [] { PerformedAnswers(plan[1..], answers, requireDryRun); }
  }

  lemma OperationsAreAnswers(q: LifecycleRequest, answers: PlatformAnswers, decision: Decision)
    ensures forall op <- LifecycleWith(q, answers, decision).vipOperations :: op == Answer(op.kind, answers)
  {
    hide Answer, LifecycleWith, Performed, AllAccepted, Planned, RequireDryRun;
    LifecycleShape(q, answers, decision);
    PerformedAnswers(Planned(decision.action, ProbedOwner(answers.probe)), answers, RequireDryRun(q));
  }

  /**
   * Ownership tracks decisions: with an honest platform, after every pass that completes the host
   * owns the VIP exactly when that pass's decision wants master.
   */
  lemma OwnershipTracksDecision(q: Request, inputs: seq<Input>, k: nat, ownedAtStart: bool)
    requires InputsFit(q, inputs) && Completes(q, inputs, k) && HonestPlatform(q, inputs, k, ownedAtStart)
    ensures HostAt(q, inputs, k + 1, ownedAtStart) == WantsMaster(LifecycleAt(q, inputs, k).decision.value.action)
  {
    var s, input := At(q, inputs, k), inputs[k];
    var lq, r := LifecycleRequestOf(q, s, input), LifecycleOf(q, s, input);
    PassRecordsOperations(q, s, input);
    OperationsAreAnswers(lq, input.platform, DecisionFor(lq, ProbedOwner(input.platform.probe)));
    hide Decide, DecisionFor, RunBeat, PeersOfPass, GatedConfig;
    assert AllReal(r.vipOperations);
    OwnershipFollowsDecision(lq, input.platform, HostAt(q, inputs, k, ownedAtStart));
    HostAfterConcat(ownedAtStart, s.history.vipOperations, r.vipOperations);
    assert At(q, inputs, k + 1) == Step(q, s, input);
  }

  /**
   * A manager whose dry-run option is fixed at construction, as src/platform/linux/LinuxVipManager.cpp:82
   * has it, and whose operations succeed.
   */
  predicate FixedManager(q: Request, p: PlatformAnswers) {
    var answer := OperationAnswer(true, !RealMutationRequested(q), "");
    p.add == p.announce == p.remove == answer
  }

  /** Such a manager is favourable in every steady pass but a warmup pass that calls it for real. */
  lemma FixedManagerIsFavourable(q: Request, inputs: seq<Input>, k: nat)
    requires InputsFit(q, inputs) && k < |inputs| && Steady(q, inputs[k]) && FixedManager(q, inputs[k].platform)
    requires k == 0 && RealMutationRequested(q) ==> IdlePass(q, At(q, inputs, k), inputs[k])
    ensures Favourable(q, inputs, k)
  {
    hide At, IdlePass, Steady, RealMutationRequested;
  }

  /** As long as every pass is idle, the log stays empty and the host as it was. */
  lemma {:induction false} IdleRunMovesNothing(q: Request, inputs: seq<Input>, k: nat, ownedAtStart: bool)
    requires InputsFit(q, inputs) && k <= |inputs| && At(q, inputs, k).exit.None?
    requires forall j :: 0 <= j < k ==> LifecycleAt(q, inputs, j).vipOperations == []
    ensures At(q, inputs, k).history.vipOperations == [] && HostAt(q, inputs, k, ownedAtStart) == ownedAtStart
  {
    hide At, Step, RunBeat, LifecycleOf;
    StartsAtZero(q, inputs);
    if k > 0 {
      PassJGoesOn(q, inputs, k - 1, k);
      IdleRunMovesNothing(q, inputs, k - 1, ownedAtStart);
      PassGoesOn(q, At(q, inputs, k - 1), inputs[k - 1]);
    }
  }

  // ---------------------------------------------------------------- the operation log

  /** Add/Announce pairs and Removes strictly alternate, beginning as fits a host that does or does not own the VIP. */
  predicate Alternates(kinds: seq<OperationType>, ownsVip: bool) {
    if kinds == [] then true
    else if ownsVip then kinds[0] == Remove && Alternates(kinds[1..], false)
    else |kinds| >= 2 && kinds[0] == Add && kinds[1] == Announce && Alternates(kinds[2..], true)
  }

  /** Whether the host owns the VIP after an alternating log. */
  function OwnsAfter(kinds: seq<OperationType>, ownsVip: bool): bool
    requires Alternates(kinds, ownsVip)
  {
    if kinds == [] then ownsVip
    else if ownsVip then OwnsAfter(kinds[1..], false)
    else OwnsAfter(kinds[2..], true)
  }

  lemma {:induction false} AlternationContinues(a: seq<OperationType>, b: seq<OperationType>, ownsVip: bool)
    requires Alternates(a, ownsVip) && Alternates(b, OwnsAfter(a, ownsVip))
    ensures Alternates(a + b, ownsVip) && OwnsAfter(a + b, ownsVip) == OwnsAfter(b, OwnsAfter(a, ownsVip))
    decreases |a|
  {
    if a == [] {
      assert a + b == b;
    } else if ownsVip {
      assert (a + b)[1..] == a[1..] + b;
      AlternationContinues(a[1..], b, false);
    } else {
      assert (a + b)[2..] == a[2..] + b;
      AlternationContinues(a[2..], b, true);
    }
  }

  lemma ActionAlternates(action: FailoverAction, ownsVip: bool)
    requires FitsOwner(action, ownsVip) && !action.EnterFault?
    ensures Alternates(KindsFor(action), ownsVip) && OwnsAfter(KindsFor(action), ownsVip) == WantsMaster(action)
  {
    assert KindsFor(action)[|KindsFor(action)|..] == [];
  }

  lemma KindsConcat(a: seq<VipOperation>, b: seq<VipOperation>)
    ensures Kinds(a + b) == Kinds(a) + Kinds(b)
  {
  }

  /** A pass that reaches the lifecycle without faulting either decides and completes, or does nothing. */
  lemma UndecidedPassDoesNothing(lq: LifecycleRequest, answers: PlatformAnswers, decision: Decision)
    requires LifecycleWith(lq, answers, decision).decision.None?
    ensures LifecycleWith(lq, answers, decision).vipOperations == []
  {
    hide LifecycleWith, Performed, AllAccepted, Planned, RequireDryRun;
    LifecycleShape(lq, answers, decision);
  }

  lemma DecidedPassRan(lq: LifecycleRequest, answers: PlatformAnswers, decision: Decision)
    requires LifecycleWith(lq, answers, decision).decision.Some?
    ensures LifecycleWith(lq, answers, decision).iterationRan
  {
    hide LifecycleWith, Performed, AllAccepted, Planned, RequireDryRun;
    LifecycleShape(lq, answers, decision);
  }

  /** The operations that were no dry runs. */
  function RealPart(ops: seq<VipOperation>): seq<VipOperation> {
    if ops == [] then []
    else RealPart(ops[..|ops| - 1]) + if ops[|ops| - 1].answer.dryRun then [] else [ops[|ops| - 1]]
  }

  lemma {:induction false} RealPartConcat(a: seq<VipOperation>, b: seq<VipOperation>)
    ensures RealPart(a + b) == RealPart(a) + RealPart(b)
  {
    if b == [] {
      assert a + b == a;
    } else {
      var last := b[|b| - 1];
      assert (a + b)[..|a + b| - 1] == a + b[..|b| - 1];
      RealPartConcat(a, b[..|b| - 1]);
    }
  }

  lemma {:induction false} RealPartOfUniform(ops: seq<VipOperation>, dry: bool)
    requires forall op <- ops :: op.answer.dryRun == dry
    ensures RealPart(ops) == if dry then [] else ops
  {
    if ops != [] { RealPartOfUniform(ops[..|ops| - 1], dry); }
  }

  predicate DryAnswers(p: PlatformAnswers) { p.add.dryRun && p.announce.dryRun && p.remove.dryRun }

  /** In pass `k` the probe tells the truth, and the manager either really acts or only pretends to. */
  predicate ConsistentPlatform(q: Request, inputs: seq<Input>, k: nat, ownedAtStart: bool)
    requires InputsFit(q, inputs) && k < |inputs|
  {
    && inputs[k].platform.probe.success && inputs[k].platform.probe.localOwner == HostAt(q, inputs, k, ownedAtStart)
    && (RealAnswers(inputs[k].platform) || DryAnswers(inputs[k].platform))
  }

  /** What one pass of a manager that really acts adds to an alternating log. */
  lemma RealPassAlternates(q: Request, inputs: seq<Input>, k: nat, ownedAtStart: bool)
    requires InputsFit(q, inputs) && Reaches(q, inputs, k) && !LifecycleAt(q, inputs, k).finalState.Faulted?
    requires HonestPlatform(q, inputs, k, ownedAtStart)
    ensures var owned, kinds := HostAt(q, inputs, k, ownedAtStart), Kinds(LifecycleAt(q, inputs, k).vipOperations);
      && Alternates(kinds, owned)
      && OwnsAfter(kinds, owned) == HostAt(q, inputs, k + 1, ownedAtStart)
  {
    var s, input, owned := At(q, inputs, k), inputs[k], HostAt(q, inputs, k, ownedAtStart);
    var lq, r := LifecycleRequestOf(q, s, input), LifecycleOf(q, s, input);
    assert At(q, inputs, k + 1) == Step(q, s, input);
    var d := DecisionFor(lq, ProbedOwner(input.platform.probe));
    PassRecordsOperations(q, s, input);
    hide Decide, DecisionFor, RunBeat, PeersOfPass, GatedConfig, Step, At, LifecycleWith, Alternates, OwnsAfter, Kinds;
    if r.decision.Some? {
      DecidedPassRan(lq, input.platform, d);
      OperationsMatchAction(lq, input.platform);
      CompletedOwner(lq, input.platform, d);
      OwnershipTracksDecision(q, inputs, k, ownedAtStart);
      ActionAlternates(r.decision.value.action, owned);
    } else {
      UndecidedPassDoesNothing(lq, input.platform, d);
      NothingAlternates(owned);
      assert s.history.vipOperations + [] == s.history.vipOperations;
    }
  }

  lemma NothingAlternates(ownsVip: bool)
    ensures Kinds([]) == [] && Alternates([], ownsVip) && OwnsAfter([], ownsVip) == ownsVip
  {
  }

  lemma CompletedOwner(lq: LifecycleRequest, answers: PlatformAnswers, decision: Decision)
    requires LifecycleWith(lq, answers, decision).decision.Some?
    ensures LifecycleWith(lq, answers, decision).vipOwner == ProbedOwner(answers.probe)
  {
    hide LifecycleWith, Performed, AllAccepted, Planned, RequireDryRun;
    LifecycleShape(lq, answers, decision);
  }

  lemma PassOperationsAreAnswers(q: Request, inputs: seq<Input>, k: nat)
    requires InputsFit(q, inputs) && k < |inputs|
    ensures forall op <- LifecycleAt(q, inputs, k).vipOperations :: op == Answer(op.kind, inputs[k].platform)
  {
    hide At, PeersOfPass, DecisionFor, LifecycleWith, GatedConfig;
    var lq := LifecycleRequestOf(q, At(q, inputs, k), inputs[k]);
    OperationsAreAnswers(lq, inputs[k].platform, DecisionFor(lq, ProbedOwner(inputs[k].platform.probe)));
  }

  /** A pretended pass adds nothing real and moves nothing. */
  lemma DryPassAddsNothing(q: Request, inputs: seq<Input>, k: nat, ownedAtStart: bool)
    requires InputsFit(q, inputs) && Reaches(q, inputs, k) && DryAnswers(inputs[k].platform)
    ensures RealPart(LifecycleAt(q, inputs, k).vipOperations) == []
    ensures HostAt(q, inputs, k + 1, ownedAtStart) == HostAt(q, inputs, k, ownedAtStart)
  {
    hide At, RunBeat, LifecycleOf, Step;
    var ops := LifecycleAt(q, inputs, k).vipOperations;
    PassOperationsAreAnswers(q, inputs, k);
    RealPartOfUniform(ops, true);
    DryOperationsMoveNothing(ops, HostAt(q, inputs, k, ownedAtStart));
    PassRecordsOperations(q, At(q, inputs, k), inputs[k]);
    HostAfterConcat(ownedAtStart, At(q, inputs, k).history.vipOperations, ops);
    NextState(q, inputs, k);
  }

  lemma RealPassIsAllReal(q: Request, inputs: seq<Input>, k: nat)
    requires InputsFit(q, inputs) && k < |inputs| && RealAnswers(inputs[k].platform)
    ensures RealPart(LifecycleAt(q, inputs, k).vipOperations) == LifecycleAt(q, inputs, k).vipOperations
  {
    hide LifecycleAt;
    PassOperationsAreAnswers(q, inputs, k);
    RealPartOfUniform(LifecycleAt(q, inputs, k).vipOperations, false);
  }

  lemma PassAlternates(q: Request, inputs: seq<Input>, k: nat, ownedAtStart: bool)
    requires InputsFit(q, inputs) && Reaches(q, inputs, k) && !LifecycleAt(q, inputs, k).finalState.Faulted?
    requires ConsistentPlatform(q, inputs, k, ownedAtStart)
    ensures var owned, kinds := HostAt(q, inputs, k, ownedAtStart), Kinds(RealPart(LifecycleAt(q, inputs, k).vipOperations));
      && Alternates(kinds, owned)
      && OwnsAfter(kinds, owned) == HostAt(q, inputs, k + 1, ownedAtStart)
  {
    hide At, LifecycleAt, BeatAt, HostAt, Alternates, OwnsAfter, Kinds, RealPart;
    if RealAnswers(inputs[k].platform) {
      RealPassIsAllReal(q, inputs, k);
      RealPassAlternates(q, inputs, k, ownedAtStart);
    } else {
      DryPassAddsNothing(q, inputs, k, ownedAtStart);
      NothingAlternates(HostAt(q, inputs, k, ownedAtStart));
    }
  }

  /**
   * Over every run in which the probe is truthful and the manager in each pass really acts or only
   * pretends to, the operations that were real alternate, and their end tells who owns the VIP.
   */
  lemma {:induction false} OperationLogAlternates(q: Request, inputs: seq<Input>, k: nat, ownedAtStart: bool)
    requires InputsFit(q, inputs) && k <= |inputs| && At(q, inputs, k).exit.None?
    requires forall j :: 0 <= j < k ==> ConsistentPlatform(q, inputs, j, ownedAtStart)
    ensures var kinds := Kinds(RealPart(At(q, inputs, k).history.vipOperations));
      Alternates(kinds, ownedAtStart) && OwnsAfter(kinds, ownedAtStart) == HostAt(q, inputs, k, ownedAtStart)
  {
    hide At, Step, RunBeat, LifecycleOf, Alternates, OwnsAfter, Kinds, ConsistentPlatform;
    StartsAtZero(q, inputs);
    NothingAlternates(ownedAtStart);
    if k > 0 {
      var s := At(q, inputs, k - 1);
      PassJGoesOn(q, inputs, k - 1, k);
      OperationLogAlternates(q, inputs, k - 1, ownedAtStart);
      PassAlternates(q, inputs, k - 1, ownedAtStart);
      PassRecordsOperations(q, s, inputs[k - 1]);
      var ops := LifecycleAt(q, inputs, k - 1).vipOperations;
      RealPartConcat(s.history.vipOperations, ops);
      KindsConcat(RealPart(s.history.vipOperations), RealPart(ops));
      AlternationContinues(Kinds(RealPart(s.history.vipOperations)), Kinds(RealPart(ops)), ownedAtStart);
    }
  }
}
