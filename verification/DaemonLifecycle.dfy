/** One lifecycle iteration: `runDaemonLifecycleOnce` in src/runtime/DaemonRuntime.cpp. */
module DaemonLifecycle {
  import opened Text
  import opened FailoverDecision
  import opened Config

  datatype LifecycleState = Stopped | Running | Faulted

  datatype OperationType = Add | Remove | Announce

  datatype OperationAnswer = OperationAnswer(success: bool, dryRun: bool, error: string)

  datatype VipOperation = VipOperation(kind: OperationType, answer: OperationAnswer)

  datatype ProbeAnswer = ProbeAnswer(success: bool, localOwner: bool, error: string)

  /** What the ownership probe and the VIP manager answer if this iteration calls them. */
  datatype PlatformAnswers =
    PlatformAnswers(probe: ProbeAnswer, add: OperationAnswer, announce: OperationAnswer, remove: OperationAnswer)

  datatype Detail =
    | NoDetail
    | CannotStartFaulted
    | ConfigValidationFailed
    | ShutdownReason
    | Unconfigured
    | ProbeFailed(error: string)
    | DecisionEnteredFault
    | UnexpectedRealOperation
    | OperationFailed(error: string)
    | DryRunCompleted
    | GateKeptDryRun
    | RealCompleted

  datatype LifecycleRequest = LifecycleRequest(
    config: Config,
    dryRun: bool,
    initialState: LifecycleState,
    shutdownRequested: bool,
    configPrevalidated: bool,
    localHealthy: bool,
    peers: seq<PeerStatus>)

  datatype LifecycleResult = LifecycleResult(
    initialState: LifecycleState,
    finalState: LifecycleState,
    started: bool,
    iterationRan: bool,
    stopped: bool,
    vipOperations: seq<VipOperation>,
    vipOwnerKnown: bool,
    vipOwner: bool,
    localStatus: Option<LocalNodeStatus>,
    decision: Option<Decision>,
    detail: Detail)

  function RequireDryRun(q: LifecycleRequest): bool { q.dryRun || !q.config.allowNetworkMutation }

  // ---------------------------------------------------------------- the operations of one iteration

  /** The operations a decision calls for on a host that does or does not hold the VIP. */
  function Planned(action: FailoverAction, vipOwner: bool): seq<OperationType> {
    if WantsMaster(action) && !vipOwner then [Add, Announce]
    else if WantsBackup(action) && vipOwner then [Remove]
    else []
  }

  function Answer(kind: OperationType, answers: PlatformAnswers): VipOperation {
    match kind
    case Add => VipOperation(Add, answers.add)
    case Announce => VipOperation(Announce, answers.announce)
    case Remove => VipOperation(Remove, answers.remove)
  }

  predicate Accepted(op: VipOperation, requireDryRun: bool) {
    (requireDryRun ==> op.answer.dryRun) && op.answer.success
  }

  /** The planned operations, up to and including the first one that is not accepted. */
  function Performed(plan: seq<OperationType>, answers: PlatformAnswers, requireDryRun: bool): seq<VipOperation> {
    if plan == [] then []
    else
      var op := Answer(plan[0], answers);
      [op] + if Accepted(op, requireDryRun) then Performed(plan[1..], answers, requireDryRun) else []
  }

  lemma PerformedPlans(answers: PlatformAnswers, requireDryRun: bool)
    ensures Performed([], answers, requireDryRun) == []
    ensures Performed([Remove], answers, requireDryRun) == [Answer(Remove, answers)]
    ensures Performed([Add, Announce], answers, requireDryRun) ==
              if Accepted(Answer(Add, answers), requireDryRun) then [Answer(Add, answers), Answer(Announce, answers)]
              else [Answer(Add, answers)]
  {
    assert [Add, Announce][1..] == [Announce] && [Announce][1..] == [] && [Remove][1..] == [];
    assert Performed([Announce], answers, requireDryRun) == [Answer(Announce, answers)];
  }

  /** Performing stops at the first rejection, so the last operation tells whether all were accepted. */
  predicate AllAccepted(ops: seq<VipOperation>, requireDryRun: bool) {
    ops == [] || Accepted(ops[|ops| - 1], requireDryRun)
  }

  lemma {:induction false} AllAcceptedMeansEach(plan: seq<OperationType>, answers: PlatformAnswers, requireDryRun: bool)
    ensures var ops := Performed(plan, answers, requireDryRun);
      && (AllAccepted(ops, requireDryRun) <==> forall op <- ops :: Accepted(op, requireDryRun))
      && forall i :: 0 <= i < |ops| - 1 ==> Accepted(ops[i], requireDryRun)
  {
    if plan != [] { AllAcceptedMeansEach(plan[1..], answers, requireDryRun); }
  }

  function RejectionDetail(op: VipOperation, requireDryRun: bool): Detail {
    if requireDryRun && !op.answer.dryRun then UnexpectedRealOperation else OperationFailed(op.answer.error)
  }

  function CompletionDetail(dryRun: bool, ops: seq<VipOperation>): Detail {
    if dryRun then DryRunCompleted
    else if forall op <- ops :: op.answer.dryRun then GateKeptDryRun
    else RealCompleted
  }

  // ---------------------------------------------------------------- the iteration

  function Initial(q: LifecycleRequest): LifecycleResult {
    LifecycleResult(q.initialState, q.initialState, false, false, false, [], false, false, None, None, NoDetail)
  }

  /** Whether the iteration's body runs at all, and the result if it does not. */
  function NotRun(q: LifecycleRequest): Option<LifecycleResult> {
    if q.initialState.Faulted? then Some(Initial(q).(detail := CannotStartFaulted))
    else if !q.configPrevalidated && !Valid(q.config) then
      Some(Initial(q).(finalState := Faulted, detail := ConfigValidationFailed))
    else if q.shutdownRequested then Some(Initial(q).(finalState := Stopped, stopped := true, detail := ShutdownReason))
    else None
  }

  function Started(q: LifecycleRequest): LifecycleResult {
    Initial(q).(started := q.initialState.Stopped?, iterationRan := true)
  }

  /** A failed probe leaves ownership unknown, which counts as not owning. */
  function ProbedOwner(probe: ProbeAnswer): bool { probe.success && probe.localOwner }

  function DecisionFor(q: LifecycleRequest, vipOwner: bool): Decision {
    Decide(LocalStatusFromOwnership(q.config, q.localHealthy, vipOwner), q.peers, ElectionPolicyFromConfig(q.config))
  }

  function Decided(q: LifecycleRequest, probe: ProbeAnswer, decision: Decision): LifecycleResult {
    Started(q).(vipOwnerKnown := probe.success, vipOwner := ProbedOwner(probe),
                localStatus := Some(LocalStatusFromOwnership(q.config, q.localHealthy, ProbedOwner(probe))),
                decision := Some(decision))
  }

  /** Carries out the decision recorded in `r`. */
  function Conclude(q: LifecycleRequest, answers: PlatformAnswers, r: LifecycleResult): LifecycleResult
    requires r.decision.Some?
  {
    var action := r.decision.value.action;
    if action.EnterFault? then r.(finalState := Faulted, detail := DecisionEnteredFault)
    else
      var ops := Performed(Planned(action, r.vipOwner), answers, RequireDryRun(q));
      if AllAccepted(ops, RequireDryRun(q)) then
        r.(vipOperations := ops, finalState := Stopped, stopped := true, detail := CompletionDetail(q.dryRun, ops))
      else
        r.(vipOperations := ops, finalState := Faulted, detail := RejectionDetail(ops[|ops| - 1], RequireDryRun(q)))
  }

  /** The iteration, given the decision that is taken if it gets that far. */
  function LifecycleWith(q: LifecycleRequest, answers: PlatformAnswers, decision: Decision): LifecycleResult {
    if NotRun(q).Some? then NotRun(q).value
    else if q.config.vip.address == "" then
      Started(q).(localStatus := Some(LocalStatusFromOwnership(q.config, q.localHealthy, false)),
                  finalState := Stopped, detail := Unconfigured)
    else if !answers.probe.success && !q.dryRun then
      Started(q).(finalState := Faulted, detail := ProbeFailed(answers.probe.error))
    else Conclude(q, answers, Decided(q, answers.probe, decision))
  }

  function Lifecycle(q: LifecycleRequest, answers: PlatformAnswers): LifecycleResult {
    LifecycleWith(q, answers, DecisionFor(q, ProbedOwner(answers.probe)))
  }

  /** Appends the operation's result and says whether the iteration may go on. */
  method RecordVipOperation(result: LifecycleResult, op: VipOperation, requireDryRun: bool)
    returns (next: LifecycleResult, goOn: bool)
    ensures goOn <==> Accepted(op, requireDryRun)
    ensures next.vipOperations == result.vipOperations + [op]
    ensures next == if goOn then result.(vipOperations := next.vipOperations)
                    else result.(vipOperations := next.vipOperations, finalState := Faulted,
                                 detail := RejectionDetail(op, requireDryRun))
  {
    next := result.(vipOperations := result.vipOperations + [op]);
    if requireDryRun && !op.answer.dryRun {
      return next.(finalState := Faulted, detail := UnexpectedRealOperation), false;
    }
    if !op.answer.success {
      return next.(finalState := Faulted, detail := OperationFailed(op.answer.error)), false;
    }
    goOn := true;
  }

  method RunDaemonLifecycleOnce(q: LifecycleRequest, answers: PlatformAnswers) returns (result: LifecycleResult)
    ensures result == Lifecycle(q, answers)
  {
    result := Initial(q);
    if q.initialState.Faulted? {
      return result.(detail := CannotStartFaulted);
    }
    if !q.configPrevalidated && !Valid(q.config) {
      return result.(finalState := Faulted, detail := ConfigValidationFailed);
    }
    if q.shutdownRequested {
      return result.(finalState := Stopped, stopped := true, detail := ShutdownReason);
    }
    result := result.(started := q.initialState.Stopped?, iterationRan := true);
    if q.config.vip.address == "" {
      return result.(localStatus := Some(LocalStatusFromOwnership(q.config, q.localHealthy, false)),
                     finalState := Stopped, detail := Unconfigured);
    }

    if !answers.probe.success {
      if !q.dryRun {
        return result.(finalState := Faulted, detail := ProbeFailed(answers.probe.error));
      }
    } else {
      result := result.(vipOwnerKnown := true, vipOwner := answers.probe.localOwner);
    }
    var local := LocalStatusFromOwnership(q.config, q.localHealthy, result.vipOwner);
    var decision := DecideFailoverAction(local, q.peers, ElectionPolicyFromConfig(q.config));
    result := result.(localStatus := Some(local), decision := Some(decision));
    result := CarryOut(q, answers, result);
  }

  /** Calls the VIP manager as the action demands, stopping at the first operation that is not accepted. */
  method Operate(decided: LifecycleResult, action: FailoverAction, answers: PlatformAnswers, requireDryRun: bool)
    returns (result: LifecycleResult, goOn: bool)
    requires decided.vipOperations == []
    ensures result.vipOperations == Performed(Planned(action, decided.vipOwner), answers, requireDryRun)
    ensures goOn <==> AllAccepted(result.vipOperations, requireDryRun)
    ensures result == if goOn then decided.(vipOperations := result.vipOperations)
                      else decided.(vipOperations := result.vipOperations, finalState := Faulted,
                                    detail := RejectionDetail(result.vipOperations[|result.vipOperations| - 1], requireDryRun))
  {
    PerformedPlans(answers, requireDryRun);
    result, goOn := decided, true;
    if WantsMaster(action) && !decided.vipOwner {
      result, goOn := RecordVipOperation(result, VipOperation(Add, answers.add), requireDryRun);
      if goOn {
        result, goOn := RecordVipOperation(result, VipOperation(Announce, answers.announce), requireDryRun);
      }
    } else if WantsBackup(action) && decided.vipOwner {
      result, goOn := RecordVipOperation(result, VipOperation(Remove, answers.remove), requireDryRun);
    }
  }

  method CarryOut(q: LifecycleRequest, answers: PlatformAnswers, decided: LifecycleResult) returns (result: LifecycleResult)
    requires decided.decision.Some? && decided.vipOperations == []
    ensures result == Conclude(q, answers, decided)
  {
    var action := decided.decision.value.action;
    if action.EnterFault? {
      return decided.(finalState := Faulted, detail := DecisionEnteredFault);
    }
    var goOn: bool;
    result, goOn := Operate(decided, action, answers, q.dryRun || !q.config.allowNetworkMutation);
    if goOn {
      result := result.(detail := CompletionDetail(q.dryRun, result.vipOperations), finalState := Stopped, stopped := true);
    }
  }

  // ---------------------------------------------------------------- what an iteration does to the host

  /** The one case analysis of an iteration that everything below rests on. */
  lemma LifecycleShape(q: LifecycleRequest, answers: PlatformAnswers, decision: Decision)
    ensures var r, owner := LifecycleWith(q, answers, decision), ProbedOwner(answers.probe);
      var ops := Performed(Planned(decision.action, owner), answers, RequireDryRun(q));
      && (r.decision.None? ==> r.vipOperations == [])
      && (r.decision.Some? ==> r.decision.value == decision && r.iterationRan && r.vipOwner == owner)
      && (r.iterationRan && !r.finalState.Faulted? ==>
            r.localStatus == Some(LocalStatusFromOwnership(q.config, q.localHealthy, r.vipOwner)))
      && (r.vipOperations == [] || r.vipOperations == ops)
      && (r.decision.Some? && !r.finalState.Faulted? ==> !decision.action.EnterFault? && r.vipOperations == ops)
      && (!r.finalState.Faulted? && r.vipOperations == ops ==> r.vipOperations == [] || AllAccepted(ops, RequireDryRun(q)))
      && (r.decision.Some? && !decision.action.EnterFault? ==>
            r.vipOperations == ops && (r.finalState.Faulted? <==> !AllAccepted(ops, RequireDryRun(q))))
  {
    hide Conclude, Performed, AllAccepted, Planned, Valid, LocalStatusFromOwnership, RequireDryRun;
    ConclusionShape(q, answers, Decided(q, answers.probe, decision));
  }

  lemma ConclusionShape(q: LifecycleRequest, answers: PlatformAnswers, decided: LifecycleResult)
    requires decided.decision.Some? && decided.vipOperations == []
    ensures var r, ops := Conclude(q, answers, decided),
                          Performed(Planned(decided.decision.value.action, decided.vipOwner), answers, RequireDryRun(q));
      && r.decision == decided.decision && r.iterationRan == decided.iterationRan && r.vipOwner == decided.vipOwner
      && r.localStatus == decided.localStatus
      && (r.vipOperations == [] || r.vipOperations == ops)
      && (!decided.decision.value.action.EnterFault? ==> r.vipOperations == ops)
      && (!r.finalState.Faulted? <==> !decided.decision.value.action.EnterFault? && AllAccepted(ops, RequireDryRun(q)))
  {
    hide Performed, AllAccepted, Planned, CompletionDetail, RejectionDetail, RequireDryRun;
  }

  // ---------------------------------------------------------------- which iterations decide, and which fault

  /** When the body of an iteration runs, and what is left untouched when it does not, or when no VIP is configured. */
  lemma IterationRunsIff(q: LifecycleRequest, answers: PlatformAnswers)
    ensures var r := Lifecycle(q, answers);
      && (r.iterationRan <==> !q.initialState.Faulted? && (q.configPrevalidated || Valid(q.config)) && !q.shutdownRequested)
      && (r.started <==> r.iterationRan && q.initialState.Stopped?)
      && (!r.iterationRan || q.config.vip.address == "" ==> r.decision.None? && r.vipOperations == [] && !r.vipOwner)
      && (!r.iterationRan ==>
            && r.localStatus.None?
            && r.finalState == if !q.initialState.Faulted? && (q.configPrevalidated || Valid(q.config)) then Stopped else Faulted)
      && (r.iterationRan && q.config.vip.address == "" ==>
            r.finalState.Stopped? && r.localStatus == Some(LocalNodeStatus(q.config.nodeId, q.config.priority, q.localHealthy, Backup)))
  {
    hide Valid, DecisionFor;
    ConcludedRan(q, answers, Decided(q, answers.probe, DecisionFor(q, ProbedOwner(answers.probe))));
    hide Conclude;
  }

  lemma ConcludedRan(q: LifecycleRequest, answers: PlatformAnswers, decided: LifecycleResult)
    requires decided.decision.Some?
    ensures Conclude(q, answers, decided).iterationRan == decided.iterationRan && Conclude(q, answers, decided).started == decided.started
  {
    hide Performed, AllAccepted, Planned, CompletionDetail, RejectionDetail, RequireDryRun;
  }

  /**
   * A failed probe faults the iteration before any decision or operation. In a dry run it goes on instead, as
   * on a host that does not own the VIP, with ownership reported as unknown.
   */
  lemma FailedProbe(q: LifecycleRequest, answers: PlatformAnswers)
    requires Lifecycle(q, answers).iterationRan && q.config.vip.address != "" && !answers.probe.success
    ensures var r := Lifecycle(q, answers);
      if q.dryRun then r == Lifecycle(q, answers.(probe := ProbeAnswer(true, false, ""))).(vipOwnerKnown := false)
      else
        && r.finalState.Faulted? && r.detail == ProbeFailed(answers.probe.error)
        && r.decision.None? && r.localStatus.None? && r.vipOperations == []
  {
    hide Valid, DecisionFor, Performed, AllAccepted;
    PerformedIgnoresProbe(q, answers, ProbeAnswer(true, false, ""));
  }

  lemma PerformedIgnoresProbe(q: LifecycleRequest, answers: PlatformAnswers, probe: ProbeAnswer)
    ensures forall action, owner ::
              Performed(Planned(action, owner), answers, RequireDryRun(q))
              == Performed(Planned(action, owner), answers.(probe := probe), RequireDryRun(q))
  {
    PerformedPlans(answers, RequireDryRun(q));
    PerformedPlans(answers.(probe := probe), RequireDryRun(q));
  }

  /** An iteration that gets past the probe decides on the status that the probe reports, under the configured policy. */
  lemma ProbeDecides(q: LifecycleRequest, answers: PlatformAnswers)
    requires Lifecycle(q, answers).iterationRan && q.config.vip.address != "" && (answers.probe.success || q.dryRun)
    ensures var r, c := Lifecycle(q, answers), q.config;
      var owner := answers.probe.success && answers.probe.localOwner;
      var local := LocalNodeStatus(c.nodeId, c.priority, q.localHealthy, if owner then Master else Backup);
      && r.vipOwner == owner && r.vipOwnerKnown == answers.probe.success && r.localStatus == Some(local)
      && r.decision == Some(Decide(local, q.peers, ElectionPolicy(c.election.requireQuorum, c.election.quorumSize,
                                                                  |c.peers| + 1, c.election.preempt)))
  {
    hide Valid, Decide, Performed, AllAccepted, Planned, CompletionDetail, RejectionDetail, RequireDryRun;
  }

  /**
   * An iteration whose decision is no fault itself faults exactly when the manager fails, or acts for real although
   * a dry run is asked for or mutation is not allowed; and then that operation is the last one.
   */
  lemma FaultIffRejected(q: LifecycleRequest, answers: PlatformAnswers)
    requires Lifecycle(q, answers).decision.Some? && !Lifecycle(q, answers).decision.value.action.EnterFault?
    ensures var r := Lifecycle(q, answers);
      && (r.finalState.Faulted? <==> exists op <- r.vipOperations ::
            !op.answer.success || (!op.answer.dryRun && (q.dryRun || !q.config.allowNetworkMutation)))
      && (forall i :: 0 <= i < |r.vipOperations| - 1 ==>
            var op := r.vipOperations[i];
            op.answer.success && (q.dryRun || !q.config.allowNetworkMutation ==> op.answer.dryRun))
  {
    hide LifecycleWith, Performed, AllAccepted, Planned, DecisionFor, Accepted;
    var decision, owner := DecisionFor(q, ProbedOwner(answers.probe)), ProbedOwner(answers.probe);
    LifecycleShape(q, answers, decision);
    AllAcceptedMeansEach(Planned(decision.action, owner), answers, RequireDryRun(q));
    AcceptedMeans(Lifecycle(q, answers).vipOperations, q);
  }

  /** The detail of an iteration that carried its decision out, or of the operation that stopped it. */
  lemma DetailOfIteration(q: LifecycleRequest, answers: PlatformAnswers)
    requires Lifecycle(q, answers).decision.Some? && !Lifecycle(q, answers).decision.value.action.EnterFault?
    ensures var r := Lifecycle(q, answers);
      if !r.finalState.Faulted? then
        && (r.detail == DryRunCompleted <==> q.dryRun)
        && (r.detail == RealCompleted <==> !q.dryRun && exists op <- r.vipOperations :: !op.answer.dryRun)
        && (r.detail == GateKeptDryRun <==> !q.dryRun && forall op <- r.vipOperations :: op.answer.dryRun)
      else
        && r.vipOperations != []
        && var last := r.vipOperations[|r.vipOperations| - 1].answer;
           r.detail == if !last.dryRun && (q.dryRun || !q.config.allowNetworkMutation) then UnexpectedRealOperation
                       else OperationFailed(last.error)
  {
    hide DecisionFor, LifecycleWith, Conclude, Performed, Planned;
    var decision := DecisionFor(q, ProbedOwner(answers.probe));
    LifecycleShape(q, answers, decision);
    DecidedConcludes(q, answers, decision);
    DetailOfConclusion(q, answers, Decided(q, answers.probe, decision));
  }

  lemma DecidedConcludes(q: LifecycleRequest, answers: PlatformAnswers, decision: Decision)
    requires LifecycleWith(q, answers, decision).decision.Some?
    ensures LifecycleWith(q, answers, decision) == Conclude(q, answers, Decided(q, answers.probe, decision))
  {
    hide Conclude, LocalStatusFromOwnership, Valid;
  }

  lemma DetailOfConclusion(q: LifecycleRequest, answers: PlatformAnswers, decided: LifecycleResult)
    requires decided.decision.Some? && !decided.decision.value.action.EnterFault? && decided.vipOperations == []
    ensures var r, demanded := Conclude(q, answers, decided), RequireDryRun(q);
      && r.decision == decided.decision
      && (if r.finalState.Faulted? then
            r.vipOperations != [] && r.detail == RejectionDetail(r.vipOperations[|r.vipOperations| - 1], demanded)
          else r.detail == CompletionDetail(q.dryRun, r.vipOperations))
  {
    hide Performed, Planned, Accepted, CompletionDetail, RejectionDetail, RequireDryRun;
  }

  lemma AcceptedMeans(ops: seq<VipOperation>, q: LifecycleRequest)
    ensures forall op <- ops :: Accepted(op, RequireDryRun(q))
                           <==> op.answer.success && (q.dryRun || !q.config.allowNetworkMutation ==> op.answer.dryRun)
  {
  }

  /** A real, successful Add or Remove moves the VIP; announcements and dry runs do not. */
  function HostAfterOne(ownsVip: bool, op: VipOperation): bool {
    if !op.answer.success || op.answer.dryRun then ownsVip
    else match op.kind
      case Add => true
      case Remove => false
      case Announce => ownsVip
  }

  function HostAfter(ownsVip: bool, ops: seq<VipOperation>): bool {
    if ops == [] then ownsVip else HostAfterOne(HostAfter(ownsVip, ops[..|ops| - 1]), ops[|ops| - 1])
  }

  lemma {:induction false} HostAfterConcat(ownsVip: bool, a: seq<VipOperation>, b: seq<VipOperation>)
    ensures HostAfter(ownsVip, a + b) == HostAfter(HostAfter(ownsVip, a), b)
  {
    if b == [] {
      assert a + b == a;
    } else {
      assert (a + b)[..|a + b| - 1] == a + b[..|b| - 1];
      HostAfterConcat(ownsVip, a, b[..|b| - 1]);
    }
  }

  predicate AllReal(ops: seq<VipOperation>) { forall op <- ops :: !op.answer.dryRun }

  function Kinds(ops: seq<VipOperation>): seq<OperationType> {
    seq(|ops|, i requires 0 <= i < |ops| => ops[i].kind)
  }

  /** The iteration got as far as a decision and did not fault. */
  predicate Completed(r: LifecycleResult) { r.iterationRan && r.decision.Some? && !r.finalState.Faulted? }

  predicate FitsOwner(action: FailoverAction, owner: bool) {
    match action
    case StayMaster => owner
    case BecomeBackup => owner
    case StayBackup => !owner
    case BecomeMaster => !owner
    case EnterFault => true
  }

  function KindsFor(action: FailoverAction): seq<OperationType> {
    match action
    case BecomeMaster => [Add, Announce]
    case BecomeBackup => [Remove]
    case _ => []
  }

  lemma PerformedKinds(action: FailoverAction, owner: bool, answers: PlatformAnswers, requireDryRun: bool)
    requires FitsOwner(action, owner)
    requires AllAccepted(Performed(Planned(action, owner), answers, requireDryRun), requireDryRun)
    ensures Kinds(Performed(Planned(action, owner), answers, requireDryRun)) ==
              if action.EnterFault? then [] else KindsFor(action)
  {
    PerformedPlans(answers, requireDryRun);
  }

  lemma DecisionFitsOwner(q: LifecycleRequest, owner: bool)
    ensures FitsOwner(DecisionFor(q, owner).action, owner)
  {
    ActionFitsState(LocalStatusFromOwnership(q.config, q.localHealthy, owner), q.peers, ElectionPolicyFromConfig(q.config));
  }

  /** Becoming master is exactly Add then Announce, becoming backup exactly Remove, staying is nothing. */
  lemma OperationsMatchAction(q: LifecycleRequest, answers: PlatformAnswers)
    requires Completed(Lifecycle(q, answers))
    ensures var r := Lifecycle(q, answers);
      && FitsOwner(r.decision.value.action, r.vipOwner)
      && !r.decision.value.action.EnterFault?
      && Kinds(r.vipOperations) == KindsFor(r.decision.value.action)
      && forall op <- r.vipOperations :: Accepted(op, RequireDryRun(q))
  {
    DecisionFitsOwner(q, ProbedOwner(answers.probe));
    CompletedShape(q, answers, DecisionFor(q, ProbedOwner(answers.probe)));
  }

  lemma CompletedShape(q: LifecycleRequest, answers: PlatformAnswers, decision: Decision)
    requires Completed(LifecycleWith(q, answers, decision)) && FitsOwner(decision.action, ProbedOwner(answers.probe))
    ensures var r := LifecycleWith(q, answers, decision);
      && r.decision == Some(decision) && r.vipOwner == ProbedOwner(answers.probe) && !decision.action.EnterFault?
      && Kinds(r.vipOperations) == KindsFor(decision.action)
      && forall op <- r.vipOperations :: Accepted(op, RequireDryRun(q))
  {
    hide LifecycleWith, Performed, Planned, Kinds, KindsFor, Accepted, FitsOwner;
    var owner := ProbedOwner(answers.probe);
    LifecycleShape(q, answers, decision);
    PerformedKinds(decision.action, owner, answers, RequireDryRun(q));
    AllAcceptedMeansEach(Planned(decision.action, owner), answers, RequireDryRun(q));
  }

  lemma KindsMoveHost(ops: seq<VipOperation>, action: FailoverAction, ownsVip: bool)
    requires Kinds(ops) == KindsFor(action) && FitsOwner(action, ownsVip) && !action.EnterFault?
    requires forall op <- ops :: op.answer.success && !op.answer.dryRun
    ensures HostAfter(ownsVip, ops) == WantsMaster(action)
  {
    assert |ops| == |KindsFor(action)|;
    if |ops| == 2 {
      assert ops[0].kind == Kinds(ops)[0] && ops[1].kind == Kinds(ops)[1];
      assert ops[..1][..0] == [];
      assert HostAfter(ownsVip, ops[..1]);
    }
    if |ops| == 1 {
      assert ops[0].kind == Kinds(ops)[0];
      assert ops[..0] == [];
    }
  }

  /**
   * With a truthful probe and a manager that really acts, an iteration that does not fault leaves the
   * host owning the VIP exactly when its decision wants master.
   */
  lemma OwnershipFollowsDecision(q: LifecycleRequest, answers: PlatformAnswers, ownsVip: bool)
    requires Completed(Lifecycle(q, answers))
    requires answers.probe.success && answers.probe.localOwner == ownsVip
    requires AllReal(Lifecycle(q, answers).vipOperations)
    ensures var r := Lifecycle(q, answers);
      HostAfter(ownsVip, r.vipOperations) == WantsMaster(r.decision.value.action)
  {
    OperationsMatchAction(q, answers);
    var r := Lifecycle(q, answers);
    CompletedKnowsOwner(q, answers);
    hide Lifecycle, Kinds, KindsFor, FitsOwner, WantsMaster, HostAfter;
    KindsMoveHost(r.vipOperations, r.decision.value.action, ownsVip);
  }

  lemma CompletedKnowsOwner(q: LifecycleRequest, answers: PlatformAnswers)
    requires Completed(Lifecycle(q, answers))
    ensures Lifecycle(q, answers).vipOwner == ProbedOwner(answers.probe)
  {
    hide DecisionFor, LifecycleWith, Performed, AllAccepted, Planned;
    LifecycleShape(q, answers, DecisionFor(q, ProbedOwner(answers.probe)));
  }

  /** An iteration that must be a dry run and does not fault leaves the host as it was. */
  lemma DryRunMovesNothing(q: LifecycleRequest, answers: PlatformAnswers, ownsVip: bool)
    requires RequireDryRun(q) && !Lifecycle(q, answers).finalState.Faulted?
    ensures forall op <- Lifecycle(q, answers).vipOperations :: op.answer.dryRun
    ensures HostAfter(ownsVip, Lifecycle(q, answers).vipOperations) == ownsVip
  {
    AcceptedUnlessFaulted(q, answers, DecisionFor(q, ProbedOwner(answers.probe)));
    DryOperationsMoveNothing(Lifecycle(q, answers).vipOperations, ownsVip);
  }

  lemma AcceptedUnlessFaulted(q: LifecycleRequest, answers: PlatformAnswers, decision: Decision)
    requires !LifecycleWith(q, answers, decision).finalState.Faulted?
    ensures forall op <- LifecycleWith(q, answers, decision).vipOperations :: Accepted(op, RequireDryRun(q))
  {
    hide LifecycleWith, Performed, Accepted, Planned;
    LifecycleShape(q, answers, decision);
    AllAcceptedMeansEach(Planned(decision.action, ProbedOwner(answers.probe)), answers, RequireDryRun(q));
  }

  lemma {:induction false} DryOperationsMoveNothing(ops: seq<VipOperation>, ownsVip: bool)
    requires forall op <- ops :: op.answer.dryRun
    ensures HostAfter(ownsVip, ops) == ownsVip
  {
    if ops != [] { DryOperationsMoveNothing(ops[..|ops| - 1], ownsVip); }
  }
}
