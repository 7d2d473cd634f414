/**
 * Runs in which peers are heard one after the other: in each heartbeat period the next one. They use the same
 * fixed manager in every pass. Each due pass receives at most one datagram, so no run gathers peers faster.
 */
module TurnRuns {
  import opened Text
  import opened FailoverDecision
  import opened HeartbeatLoop
  import opened Config
  import opened DaemonLifecycle
  import opened Schedule
  import opened KeyOrder
  import opened DaemonMachine
  import opened DaemonRuns
  import opened PeerHistory
  import opened QuorumRuns

  /** A daemon that can run for ever and decides on heartbeats alone. */
  ghost predicate Runnable(q: Request) {
    && Valid(q.config) && DistinctIds(q.config) && !q.initialState.Faulted? && EffectiveStepMs(q.options) > 0
    && q.options.runUntilShutdown && q.config.vip.address != "" && !DiscoveryActive(q)
  }

  predicate Timed(q: Request) {
    q.config.heartbeatIntervalMs > 0 && q.config.heartbeatTimeoutMs > 0 && EffectiveStepMs(q.options) > 0
  }

  lemma RunnableIsTimed(q: Request)
    requires Runnable(q)
    ensures Timed(q) && !DiscoveryActive(q)
  {
  }

  /** How many heartbeat periods a timeout lasts. */
  function PerTimeout(q: Request): (n: nat)
    requires Timed(q)
    ensures n >= 1
  {
    PositiveProduct(PeriodSteps(q), EffectiveStepMs(q.options));
    CeilDivIsLeast(q.config.heartbeatTimeoutMs, PeriodSteps(q) * EffectiveStepMs(q.options), 0);
    CeilDiv(q.config.heartbeatTimeoutMs, PeriodSteps(q) * EffectiveStepMs(q.options))
  }

  /** Whose turn it is from period `start` on, the priority they report, and whether this host owns the VIP. */
  datatype Plan = Plan(peers: seq<PeerConfig>, start: nat, rank: int, owner: bool)

  ghost predicate Fits(q: Request, plan: Plan) {
    && (forall t :: 0 <= t < |plan.peers| ==> plan.peers[t] in q.config.peers)
    && (forall s, t :: 0 <= s < t < |plan.peers| ==> plan.peers[s].id != plan.peers[t].id)
  }

  function StatusOf(plan: Plan, t: nat): PeerStatus
    requires t < |plan.peers|
  {
    PeerStatus(plan.peers[t].id, plan.rank, true, true, Backup)
  }

  /** The pass in which turn `t` is heard. */
  function TurnPass(q: Request, plan: Plan, t: nat): nat
    requires Timed(q)
  {
    (plan.start + t) * PeriodSteps(q)
  }

  function TurnAt(q: Request, plan: Plan, i: nat): (turn: Option<nat>)
    requires Timed(q)
    ensures turn.Some? ==> turn.value < |plan.peers|
  {
    var t := i / PeriodSteps(q) - plan.start;
    if 0 <= t < |plan.peers| then Some(t) else None
  }

  function FromTurn(plan: Plan, turn: Option<nat>): Option<Datagram>
    requires turn.Some? ==> turn.value < |plan.peers|
  {
    match turn
    case None => None
    case Some(t) => Some(Datagram(plan.peers[t].address, Message(HeartbeatMessage(plan.peers[t].id, plan.rank, true, Backup))))
  }

  function TurnInput(q: Request, plan: Plan, i: nat): (input: Input)
    requires Timed(q)
    ensures InputFits(q, input)
  {
    var answer := OperationAnswer(true, !RealMutationRequested(q), "");
    Input(false,
          TransportAnswers(seq(|q.config.peers|, _ => SendResult(true, "", "")),
                           ReceiveResult(FromTurn(plan, TurnAt(q, plan, i)), false, 0, "")),
          [], false, PlatformAnswers(ProbeAnswer(true, plan.owner, ""), answer, answer, answer))
  }

  function TurnRun(q: Request, plan: Plan, n: nat): (inputs: seq<Input>)
    requires Timed(q)
    ensures |inputs| == n && InputsFit(q, inputs)
    ensures forall i :: 0 <= i < n ==> inputs[i] == TurnInput(q, plan, i)
  {
    seq(n, i requires 0 <= i => TurnInput(q, plan, i))
  }

  lemma TurnIsSteady(q: Request, plan: Plan, i: nat)
    requires Timed(q)
    ensures var input := TurnInput(q, plan, i);
      Steady(q, input) && FixedManager(q, input.platform) && input.platform.probe == ProbeAnswer(true, plan.owner, "")
  {
    hide PeriodSteps, TurnAt;
  }

  /** A turn run goes on as long as it is idle; only pass 0 and, then, nothing else could stop it. */
  lemma TurnRunContinues(q: Request, plan: Plan, n: nat, k: nat)
    requires Runnable(q) && Timed(q) && k < n && Uninterrupted(q, TurnRun(q, plan, n), k)
    requires k == 0 && RealMutationRequested(q) ==> IdlePass(q, At(q, TurnRun(q, plan, n), k), TurnRun(q, plan, n)[k])
    ensures Uninterrupted(q, TurnRun(q, plan, n), k + 1) && Completes(q, TurnRun(q, plan, n), k)
    ensures IdlePass(q, At(q, TurnRun(q, plan, n), k), TurnRun(q, plan, n)[k]) ==> LifecycleAt(q, TurnRun(q, plan, n), k).vipOperations == []
  {
    hide At, TurnInput, Favourable, Completes, TurnRun, IdlePass, LifecycleAt, Timed, Steady, FixedManager,
         RealMutationRequested;
    var inputs := TurnRun(q, plan, n);
    TurnIsSteady(q, plan, k);
    FixedManagerIsFavourable(q, inputs, k);
    FavourablePassGoesOn(q, inputs, k);
  }

  // ---------------------------------------------------------------- what is heard

  lemma BeatHears(q: Request, s: LoopState, input: Input)
    requires InputFits(q, input) && !RunBeat(q, s, input).fault
    ensures Heard(q, RunBeat(q, s, input))
         == if RunBeat(q, s, input).due then ConfiguredPeerHeard(q.config, Received(input.transport.receive)) else None
  {
    hide SendFailed, Expired, Received;
  }

  lemma TurnBrings(q: Request, plan: Plan, i: nat)
    requires Timed(q) && Fits(q, plan)
    ensures ConfiguredPeerHeard(q.config, Received(TurnInput(q, plan, i).transport.receive))
         == match TurnAt(q, plan, i) case None => None case Some(t) => Some(StatusOf(plan, t))
  {
    hide PeriodSteps, TurnAt;
    if TurnAt(q, plan, i).Some? { assert plan.peers[TurnAt(q, plan, i).value] in q.config.peers; }
  }

  /** Exactly the first pass of a turn hears the peer whose turn it is. */
  lemma HeardInTurn(q: Request, plan: Plan, n: nat, i: nat)
    requires Runnable(q) && Timed(q) && Fits(q, plan) && i < n && Ticking(q, TurnRun(q, plan, n), i)
    ensures HeardAt(q, TurnRun(q, plan, n), i)
         == if i % PeriodSteps(q) != 0 || TurnAt(q, plan, i).None? then None else Some(StatusOf(plan, TurnAt(q, plan, i).value))
  {
    var inputs := TurnRun(q, plan, n);
    SchedulesInClosedForm(q, inputs, i);
    hide At, RunBeat, TurnInput, TurnRun, LifecycleOf, ConfiguredPeerHeard, Received, Steady, TurnAt, Fits;
    TurnIsSteady(q, plan, i);
    CleanBeatHasNoFault(q, At(q, inputs, i), inputs[i]);
    TurnBrings(q, plan, i);
    BeatHears(q, At(q, inputs, i), inputs[i]);
  }

  lemma TurnStarts(turn: nat, period: nat)
    requires period > 0
    ensures turn * period / period == turn && turn * period % period == 0
  {
    DivModUnique(turn * period, period, turn, 0);
  }

  lemma TurnIsHeard(q: Request, plan: Plan, n: nat, t: nat)
    requires Runnable(q) && Timed(q) && Fits(q, plan) && t < |plan.peers|
    requires TurnPass(q, plan, t) < n && Ticking(q, TurnRun(q, plan, n), TurnPass(q, plan, t))
    ensures HeardFrom(q, TurnRun(q, plan, n), TurnPass(q, plan, t), plan.peers[t].id)
  {
    hide At, TurnRun, HeardAt, Ticking, PeriodSteps, Runnable, Fits;
    TurnStarts(plan.start + t, PeriodSteps(q));
    HeardInTurn(q, plan, n, TurnPass(q, plan, t));
  }

  /** A peer heard less than a timeout ago is live. */
  lemma RecentlyHeardIsLive(q: Request, inputs: seq<Input>, j: nat, k: nat, id: string)
    requires InputsFit(q, inputs) && Ticking(q, inputs, k) && j <= k && HeardFrom(q, inputs, j, id)
    requires (k - j) * EffectiveStepMs(q.options) < q.config.heartbeatTimeoutMs
    ensures id in LiveAt(q, inputs, k)
  {
    hide At, LiveAt, HeardAt, HeardFrom, EffectiveStepMs, Ticking, ElapsedAt;
    TickingPrefix(q, inputs, k, k);
    PeerMapRefinesHistory(q, inputs, k, id);
    var last, step := LastHeard(q, inputs, k, id), EffectiveStepMs(q.options);
    assert last >= j;
    TickingPrefix(q, inputs, last, k);
    ElapsedIsSteps(q, inputs, last);
    ElapsedIsSteps(q, inputs, k);
    LaterIsYounger(j, last, k, step);
  }

  lemma LaterIsYounger(j: nat, last: nat, k: nat, step: nat)
    requires j <= last <= k
    ensures k * step - last * step <= (k - j) * step
  {
    assert k * step - last * step == (k - last) * step;
    assert (k - last) * step <= (k - j) * step;
  }

  /** Turns that began less than a timeout's worth of periods before pass `k` are live in it. */
  lemma TurnIsLive(q: Request, plan: Plan, n: nat, k: nat, t: nat, last: nat)
    requires Runnable(q) && Timed(q) && Fits(q, plan) && t <= last && t < |plan.peers| && last < t + PerTimeout(q)
    requires TurnPass(q, plan, t) <= k <= TurnPass(q, plan, last) && k < n && Ticking(q, TurnRun(q, plan, n), k)
    ensures plan.peers[t].id in LiveAt(q, TurnRun(q, plan, n), k)
  {
    hide At, LiveAt, TurnRun, HeardFrom, EffectiveStepMs, PeriodSteps, Ticking, Runnable, Fits;
    var j := TurnPass(q, plan, t);
    TickingPrefix(q, TurnRun(q, plan, n), j, k);
    TurnIsHeard(q, plan, n, t);
    PositiveProduct(PeriodSteps(q), EffectiveStepMs(q.options));
    CeilDivIsLeast(q.config.heartbeatTimeoutMs, PeriodSteps(q) * EffectiveStepMs(q.options), last - t);
    TurnDistance(plan.start + last, plan.start + t, PeriodSteps(q), EffectiveStepMs(q.options), k);
    RecentlyHeardIsLive(q, TurnRun(q, plan, n), j, k, plan.peers[t].id);
  }

  lemma TurnDistance(last: nat, turn: nat, period: nat, step: nat, k: nat)
    requires turn <= last && turn * period <= k <= last * period
    ensures (k - turn * period) * step <= (last - turn) * (period * step)
  {
    assert last * period - turn * period == (last - turn) * period;
    assert (k - turn * period) * step <= ((last - turn) * period) * step;
    assert ((last - turn) * period) * step == (last - turn) * (period * step);
  }

  /** Whoever is live has had a turn. */
  lemma LiveHadTurn(q: Request, plan: Plan, n: nat, k: nat, id: string) returns (t: nat)
    requires Runnable(q) && Timed(q) && Fits(q, plan) && k < n && Ticking(q, TurnRun(q, plan, n), k)
    requires id in LiveAt(q, TurnRun(q, plan, n), k)
    ensures t < |plan.peers| && TurnPass(q, plan, t) <= k
    ensures plan.peers[t].id == id && LiveAt(q, TurnRun(q, plan, n), k)[id].status == StatusOf(plan, t)
  {
    hide At, LiveAt, TurnRun, HeardAt, EffectiveStepMs, PeriodSteps, Ticking, Runnable, Fits, ElapsedAt;
    var inputs := TurnRun(q, plan, n);
    TickingPrefix(q, inputs, k, k);
    PeerMapRefinesHistory(q, inputs, k, id);
    var j := LastHeard(q, inputs, k, id);
    TickingPrefix(q, inputs, j, k);
    HeardInTurn(q, plan, n, j);
    t := TurnAt(q, plan, j).value;
    assert j == PeriodSteps(q) * (j / PeriodSteps(q)) + j % PeriodSteps(q);
  }

  /** The list of a pass holds nothing but the statuses of turns that have begun. */
  lemma ListedHadTurn(q: Request, plan: Plan, n: nat, k: nat, p: PeerStatus) returns (t: nat)
    requires Runnable(q) && Timed(q) && Fits(q, plan) && k < n && Ticking(q, TurnRun(q, plan, n), k)
    requires p in PeersAt(q, TurnRun(q, plan, n), k)
    ensures t < |plan.peers| && TurnPass(q, plan, t) <= k && p == StatusOf(plan, t)
  {
    hide At, LiveAt, TurnRun, Ticking, Runnable, Timed, Fits, Values;
    RunnableIsTimed(q);
    var inputs := TurnRun(q, plan, n);
    PeersAreLiveThenDiscovered(q, inputs, k);
    ValuesAreTheValues(Statuses(LiveAt(q, inputs, k)), p);
    var id :| id in Statuses(LiveAt(q, inputs, k)) && Statuses(LiveAt(q, inputs, k))[id] == p;
    t := LiveHadTurn(q, plan, n, k, id);
  }

  /** A live peer's status is on the list. */
  lemma LiveIsListed(q: Request, inputs: seq<Input>, k: nat, id: string)
    requires InputsFit(q, inputs) && k < |inputs| && id in LiveAt(q, inputs, k)
    ensures LiveAt(q, inputs, k)[id].status in PeersAt(q, inputs, k)
  {
    hide At, LiveAt, Values;
    PeersAreLiveThenDiscovered(q, inputs, k);
    var statuses := Statuses(LiveAt(q, inputs, k));
    assert statuses[id] == LiveAt(q, inputs, k)[id].status;
    ValuesAreTheValues(statuses, statuses[id]);
  }
}
