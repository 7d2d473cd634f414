/**
 * Which daemons can reach their quorum by heartbeats, and when two of them can want the VIP unknown to each
 * other. Each due pass receives at most one datagram, so the number of live peers is bounded; the bound is
 * attained, and with it the exact conditions follow.
 */
module QuorumReach {
  import opened Sets
  import opened FailoverDecision
  import opened HeartbeatLoop
  import opened Config
  import opened DaemonLifecycle
  import opened Schedule
  import opened DaemonMachine
  import opened DaemonRuns
  import opened PeerHistory
  import opened QuorumRuns
  import opened TurnRuns

  function Min(a: nat, b: nat): nat { if a < b then a else b }

  /** The most peers that can be live at once: all of them, or one for each due pass within a timeout. */
  function LiveLimit(q: Request): (n: nat)
    requires Timed(q)
  {
    Min(|q.config.peers|, PerTimeout(q))
  }

  /** No run ever has more live peers, nor a higher count. */
  lemma LiveLimitHolds(q: Request, inputs: seq<Input>, k: nat)
    requires InputsFit(q, inputs) && Ticking(q, inputs, k) && Timed(q) && !DiscoveryActive(q)
    ensures |LiveAt(q, inputs, k)| <= LiveLimit(q)
    ensures ObservedMembers(PeersAt(q, inputs, k)) == 1 + |LiveAt(q, inputs, k)|
  {
    hide At, LiveAt, PeersAt, ObservedMembers;
    TickingPrefix(q, inputs, k, k);
    LivePeerBound(q, inputs, k);
    ObservedCountIsSound(q, inputs, k);
  }

  // ---------------------------------------------------------------- the limit is attained

  /** All turns at once, each reporting a better node: the daemon stays backup throughout. */
  function BetterPeers(q: Request, n: nat): Plan
    requires n <= |q.config.peers|
  {
    Plan(q.config.peers[..n], 0, q.config.priority + 1, n == 0)
  }

  lemma ConfiguredPlanFits(q: Request, n: nat)
    requires Runnable(q) && n <= |q.config.peers|
    ensures Fits(q, BetterPeers(q, n))
  {
  }

  /** With no peer at all the owner stays master, and with a better live peer a backup stays backup. */
  lemma BetterPeersKeepIdle(q: Request, n: nat, size: nat, k: nat)
    requires Runnable(q) && Timed(q) && n <= LiveLimit(q) && (n == 0 ==> q.config.peers == [])
    requires k < size && k <= TurnPass(q, BetterPeers(q, n), if n == 0 then 0 else n - 1)
    requires Ticking(q, TurnRun(q, BetterPeers(q, n), size), k)
    ensures var inputs := TurnRun(q, BetterPeers(q, n), size); IdlePass(q, At(q, inputs, k), inputs[k])
  {
    hide At, LiveAt, TurnRun, Ticking, Decide, IdlePass, PeersAt, PeriodSteps, PerTimeout;
    var plan := BetterPeers(q, n);
    var inputs := TurnRun(q, plan, size);
    ConfiguredPlanFits(q, n);
    PassDecides(q, inputs, k);
    TurnIsSteady(q, plan, k);
    var local := LocalStatusFromOwnership(q.config, true, plan.owner);
    if n == 0 {
      NobodyListed(q, plan, size, k);
      IsolatedNodeDecision(local, ElectionPolicyFromConfig(q.config));
      ActionFitsState(local, [], ElectionPolicyFromConfig(q.config));
      LoneConfigSuffices(q.config);
    } else {
      TurnIsLive(q, plan, size, k, 0, n - 1);
      var t := LiveHadTurn(q, plan, size, k, plan.peers[0].id);
      LiveIsListed(q, inputs, k, plan.peers[0].id);
      ForeignPeersListed(q, plan, size, k);
      BetterPeerKeepsBackup(local, PeersAt(q, inputs, k), ElectionPolicyFromConfig(q.config), StatusOf(plan, t));
    }
  }

  lemma LoneConfigSuffices(c: Config)
    requires Valid(c) && c.peers == []
    ensures QuorumThreshold(ElectionPolicyFromConfig(c)) <= 1
  {
    assert ElectionPolicyFromConfig(c).clusterSize == 1;
  }

  lemma NobodyListed(q: Request, plan: Plan, size: nat, k: nat)
    requires Runnable(q) && Timed(q) && Fits(q, plan) && plan.peers == [] && k < size && Ticking(q, TurnRun(q, plan, size), k)
    ensures PeersAt(q, TurnRun(q, plan, size), k) == []
  {
    hide At, PeersAt, TurnRun, Ticking, Runnable, Timed, Fits;
    var peers := PeersAt(q, TurnRun(q, plan, size), k);
    if peers != [] {
      var t := ListedHadTurn(q, plan, size, k, peers[0]);
    }
  }

  /** Every listed peer is another node, with the priority of the plan, and no master. */
  lemma ForeignPeersListed(q: Request, plan: Plan, size: nat, k: nat)
    requires Runnable(q) && Timed(q) && Fits(q, plan) && k < size && Ticking(q, TurnRun(q, plan, size), k)
    ensures forall p <- PeersAt(q, TurnRun(q, plan, size), k) ::
              p.nodeId != q.config.nodeId && p.priority == plan.rank && IsLive(p) && !IsHealthyMaster(p)
  {
    hide At, PeersAt, TurnRun, Ticking;
    forall p <- PeersAt(q, TurnRun(q, plan, size), k)
      ensures p.nodeId != q.config.nodeId && p.priority == plan.rank && IsLive(p) && !IsHealthyMaster(p)
    {
      var t := ListedHadTurn(q, plan, size, k, p);
      assert plan.peers[t] in q.config.peers;
    }
  }

  lemma {:induction false} BetterPeersRunGoesOn(q: Request, n: nat, size: nat, k: nat)
    requires Runnable(q) && Timed(q) && n <= LiveLimit(q) && (n == 0 ==> q.config.peers == [])
    requires k < size && k <= TurnPass(q, BetterPeers(q, n), if n == 0 then 0 else n - 1)
    ensures Ticking(q, TurnRun(q, BetterPeers(q, n), size), k) && Completes(q, TurnRun(q, BetterPeers(q, n), size), k)
  {
    hide At, TurnRun, PerTimeout, IdlePass, Completes, TurnPass, PeriodSteps;
    var inputs := TurnRun(q, BetterPeers(q, n), size);
    if k == 0 {
      TurnRunStarts(q, inputs);
    } else {
      BetterPeersRunGoesOn(q, n, size, k - 1);
      hide Ticking;
      BetterPeersKeepIdle(q, n, size, k - 1);
      IdleStep(q, BetterPeers(q, n), size, k - 1);
    }
    BetterPeersKeepIdle(q, n, size, k);
    hide Ticking;
    IdleStep(q, BetterPeers(q, n), size, k);
  }

  lemma TurnRunStarts(q: Request, inputs: seq<Input>)
    requires Runnable(q) && InputsFit(q, inputs) && inputs != []
    ensures Ticking(q, inputs, 0)
  {
  }

  /** An idle pass of a turn run completes and leads to the next. */
  lemma IdleStep(q: Request, plan: Plan, size: nat, k: nat)
    requires Runnable(q) && Timed(q) && k < size && Ticking(q, TurnRun(q, plan, size), k)
    requires IdlePass(q, At(q, TurnRun(q, plan, size), k), TurnRun(q, plan, size)[k])
    ensures Completes(q, TurnRun(q, plan, size), k) && LifecycleAt(q, TurnRun(q, plan, size), k).vipOperations == []
    ensures k + 1 < size ==> Ticking(q, TurnRun(q, plan, size), k + 1)
  {
    hide At, TurnRun, IdlePass, Completes, LifecycleAt;
    TurnRunContinues(q, plan, size, k);
  }

  /** The limit is attained: in some run a completing pass has that many live peers. */
  lemma LiveLimitIsAttained(q: Request) returns (inputs: seq<Input>, k: nat)
    requires Runnable(q) && Timed(q)
    ensures InputsFit(q, inputs) && Ticking(q, inputs, k) && Completes(q, inputs, k)
    ensures forall i :: 0 <= i < |inputs| ==> FixedManager(q, inputs[i].platform)
    ensures |LiveAt(q, inputs, k)| == LiveLimit(q)
  {
    hide At, LiveAt, TurnRun, Completes, Ticking, Runnable, PeriodSteps, EffectiveStepMs, FixedManager, PerTimeout;
    var n := LiveLimit(q);
    var plan := BetterPeers(q, n);
    k := TurnPass(q, plan, if n == 0 then 0 else n - 1);
    inputs := TurnRun(q, plan, k + 1);
    forall i | 0 <= i < |inputs| ensures FixedManager(q, inputs[i].platform) { TurnIsSteady(q, plan, i); }
    BetterPeersRunGoesOn(q, n, k + 1, k);
    RunnableIsTimed(q);
    LiveLimitHolds(q, inputs, k);
    ConfiguredPlanFits(q, n);
    if n > 0 { AllTurnsLive(q, plan, k + 1, k); }
  }

  /** By the last turn everybody is live, if all turns fit into one timeout. */
  lemma AllTurnsLive(q: Request, plan: Plan, size: nat, k: nat)
    requires Runnable(q) && Timed(q) && Fits(q, plan) && 0 < |plan.peers| <= PerTimeout(q)
    requires k == TurnPass(q, plan, |plan.peers| - 1) < size && Ticking(q, TurnRun(q, plan, size), k)
    ensures |LiveAt(q, TurnRun(q, plan, size), k)| >= |plan.peers|
  {
    hide At, LiveAt, TurnRun, Ticking, Runnable, Timed, TurnPass, PeriodSteps, EffectiveStepMs, PerTimeout, Fits;
    TurnIdsCounted(q, plan);
    var ids := set p | p in plan.peers :: p.id;
    forall id <- ids ensures id in LiveAt(q, TurnRun(q, plan, size), k) {
      var p :| p in plan.peers && p.id == id;
      var t :| 0 <= t < |plan.peers| && plan.peers[t] == p;
      TurnsAreOrdered(q, plan, t, |plan.peers| - 1);
      TurnIsLive(q, plan, size, k, t, |plan.peers| - 1);
    }
    SubsetSize(ids, LiveAt(q, TurnRun(q, plan, size), k).Keys);
  }

  lemma TurnIdsCounted(q: Request, plan: Plan)
    requires Fits(q, plan)
    ensures |set p | p in plan.peers :: p.id| == |plan.peers|
  {
    DistinctPeersCounted(plan.peers);
  }

  lemma TurnsAreOrdered(q: Request, plan: Plan, s: nat, t: nat)
    requires Timed(q) && s <= t
    ensures TurnPass(q, plan, s) <= TurnPass(q, plan, t)
    ensures s < t ==> TurnPass(q, plan, s) < TurnPass(q, plan, t)
  {
    hide PeriodSteps;
    MultiplesAreOrdered(plan.start + s, plan.start + t, PeriodSteps(q));
  }

  lemma MultiplesAreOrdered(a: nat, b: nat, m: nat)
    requires a <= b && m >= 1
    ensures a * m <= b * m && (a < b ==> a * m < b * m)
  {
    var d := b - a;
    assert (a + d) * m == a * m + d * m;
    if d > 0 { NonzeroMultipleIsLarge(m, d); }
  }

  ghost predicate GateOpensIn(q: Request, inputs: seq<Input>, k: nat) {
    InputsFit(q, inputs) && Ticking(q, inputs, k) && !GateRefuses(q, inputs, k)
  }

  /**
   * Exactly which daemons can ever pass their own quorum gate on heartbeats: those whose threshold is at most
   * one more than the live limit. For all others every pass of every run is refused, even if every node is up
   * and every heartbeat is delivered.
   */
  lemma QuorumIsReachableIff(q: Request)
    requires Runnable(q) && Timed(q) && q.config.election.requireQuorum
    ensures (exists inputs, k :: GateOpensIn(q, inputs, k))
       <==> QuorumThreshold(ElectionPolicyFromConfig(q.config)) <= 1 + LiveLimit(q)
  {
    hide At, LiveAt, PeersAt, Ticking, LiveLimit, ObservedMembers, QuorumThreshold, Runnable;
    RunnableIsTimed(q);
    if QuorumThreshold(ElectionPolicyFromConfig(q.config)) <= 1 + LiveLimit(q) {
      var inputs, k := LiveLimitIsAttained(q);
      LiveLimitHolds(q, inputs, k);
      assert GateOpensIn(q, inputs, k);
    } else {
      forall inputs, k ensures !GateOpensIn(q, inputs, k) {
        if GateOpensIn(q, inputs, k) { LargeClusterIsRefused(q, inputs, k); }
      }
    }
  }

  /** Beyond the limit every pass is refused, and no pass that completes wants the VIP. */
  lemma LargeClusterIsRefused(q: Request, inputs: seq<Input>, k: nat)
    requires InputsFit(q, inputs) && Ticking(q, inputs, k) && Timed(q) && !DiscoveryActive(q) && q.config.election.requireQuorum
    requires QuorumThreshold(ElectionPolicyFromConfig(q.config)) > 1 + LiveLimit(q)
    ensures GateRefuses(q, inputs, k) && !WantsMasterAt(q, inputs, k)
  {
    hide At, LiveAt, PeersAt, LiveLimit, ObservedMembers, QuorumThreshold, WantsMasterAt;
    LiveLimitHolds(q, inputs, k);
    RefusedPassNeverWantsMaster(q, inputs, k);
  }

  // ---------------------------------------------------------------- two claims unknown to each other

  /** In pass `k` the daemon wants the VIP without having word of `other`. */
  ghost predicate ClaimsUnheard(q: Request, other: string, inputs: seq<Input>, k: nat) {
    InputsFit(q, inputs) && Ticking(q, inputs, k) && WantsMasterAt(q, inputs, k) && other !in ViewAt(q, inputs, k)
  }

  /** The most peers that can be live while one configured peer is not. */
  function UnheardLimit(q: Request): nat
    requires Timed(q) && q.config.peers != []
  {
    Min(|q.config.peers| - 1, PerTimeout(q))
  }

  lemma UnheardLimitHolds(q: Request, other: string, inputs: seq<Input>, k: nat)
    requires Runnable(q) && Timed(q) && other in PeerIds(q.config) && q.config.election.requireQuorum
    requires ClaimsUnheard(q, other, inputs, k)
    ensures q.config.peers != [] && QuorumThreshold(ElectionPolicyFromConfig(q.config)) <= 1 + UnheardLimit(q)
  {
    hide At, LiveAt, PeersAt, ObservedMembers, QuorumThreshold, WantsMasterAt, Ticking, PerTimeout, PeerIds;
    SomePeerConfigured(q.config, other);
    RunnableIsTimed(q);
    TickingClock(q, inputs, k);
    LiveLimitHolds(q, inputs, k);
    if GateRefuses(q, inputs, k) { RefusedPassNeverWantsMaster(q, inputs, k); }
    TickingPrefix(q, inputs, k, k);
    HeartbeatsCountRight(q, inputs, k);
    LiveWithoutOther(q, other, inputs, k);
  }

  lemma SomePeerConfigured(c: Config, id: string)
    requires id in PeerIds(c)
    ensures c.peers != []
  {
  }

  lemma LiveWithoutOther(q: Request, other: string, inputs: seq<Input>, k: nat)
    requires InputsFit(q, inputs) && StillRuns(q, inputs, k) && other in PeerIds(q.config) && other !in LiveAt(q, inputs, k)
    ensures |LiveAt(q, inputs, k)| <= |q.config.peers| - 1
  {
    forall id <- LiveAt(q, inputs, k) ensures id in PeerIds(q.config) { LivePeersAreConfigured(q, inputs, k, id); }
    hide At, LiveAt;
    FewerIdsThanPeers(q.config.peers);
    SubsetSize(LiveAt(q, inputs, k).Keys, PeerIds(q.config) - {other});
  }

  /** The configured peers but `other`. */
  function Without(peers: seq<PeerConfig>, other: string): (rest: seq<PeerConfig>)
    ensures forall t :: 0 <= t < |rest| ==> rest[t] in peers && rest[t].id != other
  {
    if peers == [] then []
    else
      var front, last := peers[..|peers| - 1], peers[|peers| - 1];
      assert peers == front + [last];
      Without(front, other) + if last.id == other then [] else [last]
  }

  lemma {:induction false} WithoutOne(peers: seq<PeerConfig>, other: string)
    requires forall a, b :: 0 <= a < b < |peers| ==> peers[a].id != peers[b].id
    ensures |Without(peers, other)| >= |peers| - 1
    ensures (forall p <- peers :: p.id != other) ==> |Without(peers, other)| == |peers|
    ensures forall s, t :: 0 <= s < t < |Without(peers, other)| ==> Without(peers, other)[s].id != Without(peers, other)[t].id
  {
    if peers != [] {
      var front, last := peers[..|peers| - 1], peers[|peers| - 1];
      assert peers == front + [last];
      WithoutOne(front, other);
      var rest := Without(front, other);
      forall t | 0 <= t < |rest| ensures rest[t].id != last.id {
        var a :| 0 <= a < |front| && front[a] == rest[t];
        assert peers[a].id != peers[|peers| - 1].id;
      }
    }
  }

  /** As many turns as the threshold needs, after a first period alone, each reporting a worse node. */
  function WorsePeers(q: Request, other: string, n: nat): Plan
    requires n <= |Without(q.config.peers, other)|
  {
    Plan(Without(q.config.peers, other)[..n], 1, q.config.priority - 1, n == 0)
  }

  /** The pass that claims: the last turn, or at once when a lone node suffices. */
  function ClaimPass(q: Request, plan: Plan): nat
    requires Timed(q)
  {
    if plan.peers == [] then 0 else TurnPass(q, plan, |plan.peers| - 1)
  }

  lemma WorsePlanFits(q: Request, other: string, n: nat)
    requires Runnable(q) && n <= |Without(q.config.peers, other)|
    ensures Fits(q, WorsePeers(q, other, n))
  {
    WithoutOne(q.config.peers, other);
  }

  /** `plan` gathers exactly the peers that the threshold still needs, within one timeout. */
  ghost predicate Gathers(q: Request, plan: Plan) {
    && Runnable(q) && Timed(q) && Fits(q, plan) && q.config.election.requireQuorum
    && plan.start == 1 && plan.rank < q.config.priority && (plan.owner <==> plan.peers == [])
    && |plan.peers| <= PerTimeout(q) && QuorumThreshold(ElectionPolicyFromConfig(q.config)) == |plan.peers| + 1
  }

  /** Before the last turn the gate refuses, so the backup stays idle. */
  lemma GatheringIsIdle(q: Request, plan: Plan, size: nat, k: nat)
    requires Gathers(q, plan) && k < ClaimPass(q, plan) < size && Ticking(q, TurnRun(q, plan, size), k)
    ensures var inputs := TurnRun(q, plan, size); IdlePass(q, At(q, inputs, k), inputs[k])
  {
    hide At, LiveAt, TurnRun, Ticking, IdlePass, PeersAt, PeriodSteps, PerTimeout, Runnable, Fits, ObservedMembers,
         QuorumThreshold, TurnPass;
    var inputs := TurnRun(q, plan, size);
    RunnableIsTimed(q);
    LiveLimitHolds(q, inputs, k);
    FewerTurnsLive(q, plan, size, k);
    PassDecides(q, inputs, k);
    TurnIsSteady(q, plan, k);
  }

  lemma FewerTurnsLive(q: Request, plan: Plan, size: nat, k: nat)
    requires Runnable(q) && Timed(q) && Fits(q, plan) && plan.peers != []
    requires k < size && k < TurnPass(q, plan, |plan.peers| - 1) && Ticking(q, TurnRun(q, plan, size), k)
    ensures |LiveAt(q, TurnRun(q, plan, size), k)| <= |plan.peers| - 1
  {
    hide At, LiveAt, TurnRun, Ticking, Runnable, Timed, TurnPass, PeriodSteps, Fits;
    var live, first := LiveAt(q, TurnRun(q, plan, size), k), plan.peers[..|plan.peers| - 1];
    forall id <- live ensures id in (set p | p in first :: p.id) {
      var t := LiveHadTurn(q, plan, size, k, id);
      if t == |plan.peers| - 1 { assert false; }
      assert first[t] in first;
    }
    FewerIdsThanPeers(first);
    SubsetSize(live.Keys, set p | p in first :: p.id);
  }

  lemma {:induction false} GatheringGoesOn(q: Request, plan: Plan, size: nat, k: nat)
    requires Gathers(q, plan) && k <= ClaimPass(q, plan) < size
    ensures Ticking(q, TurnRun(q, plan, size), k)
    ensures forall i :: 0 <= i < k ==> LifecycleAt(q, TurnRun(q, plan, size), i).vipOperations == []
  {
    hide At, TurnRun, IdlePass, LifecycleAt, ClaimPass, Timed, Runnable, Fits, PerTimeout, QuorumThreshold;
    var inputs := TurnRun(q, plan, size);
    if k == 0 {
      TurnRunStarts(q, inputs);
    } else {
      GatheringGoesOn(q, plan, size, k - 1);
      hide Ticking;
      GatheringIsIdle(q, plan, size, k - 1);
      IdleStep(q, plan, size, k - 1);
    }
  }

  /** In the last turn the gate opens; the best node present claims, or stays master if it owns the VIP. */
  lemma GatheredDecides(q: Request, plan: Plan, size: nat, k: nat)
    requires Gathers(q, plan) && k == ClaimPass(q, plan) < size && Ticking(q, TurnRun(q, plan, size), k)
    ensures var inputs := TurnRun(q, plan, size);
      var action := DecisionFor(LifecycleRequestOf(q, At(q, inputs, k), inputs[k]), plan.owner).action;
      && action == (if plan.owner then StayMaster else BecomeMaster)
      && (IdlePass(q, At(q, inputs, k), inputs[k]) <==> plan.owner)
  {
    hide At, LiveAt, TurnRun, Ticking, Decide, IdlePass, PeersAt, PeriodSteps, PerTimeout, Runnable, Fits,
         ObservedMembers, QuorumThreshold, TurnPass, DecisionFor, GatePassed;
    var inputs := TurnRun(q, plan, size);
    var local, policy := LocalStatusFromOwnership(q.config, true, plan.owner), ElectionPolicyFromConfig(q.config);
    RunnableIsTimed(q);
    PassDecides(q, inputs, k);
    TurnIsSteady(q, plan, k);
    if plan.owner {
      NobodyListed(q, plan, size, k);
      IsolatedNodeDecision(local, policy);
      ActionFitsState(local, [], policy);
    } else {
      AllTurnsLive(q, plan, size, k);
      LiveLimitHolds(q, inputs, k);
      ForeignPeersListed(q, plan, size, k);
      GateIsQuorumRule(PeersAt(q, inputs, k), policy);
      BestBackupClaims(local, PeersAt(q, inputs, k), policy);
    }
  }

  /**
   * A run of a fixed manager with a truthful probe that is idle until its last pass and then wants the VIP,
   * having heard of exactly the peers that the threshold needs.
   */
  lemma GatheringClaims(q: Request, plan: Plan) returns (inputs: seq<Input>, k: nat)
    requires Gathers(q, plan)
    ensures InputsFit(q, inputs) && |inputs| == k + 1 && Ticking(q, inputs, k) && WantsMasterAt(q, inputs, k)
    ensures At(q, inputs, k + 1).exit.None?
    ensures forall i :: 0 <= i <= k ==> ConsistentPlatform(q, inputs, i, plan.owner) && FixedManager(q, inputs[i].platform)
    ensures forall id <- LiveAt(q, inputs, k) :: exists t :: 0 <= t < |plan.peers| && plan.peers[t].id == id
  {
    hide At, LiveAt, TurnRun, Ticking, DecisionFor, IdlePass, TurnPass, PeriodSteps, PerTimeout, Runnable, Fits,
         QuorumThreshold, ConsistentPlatform, FixedManager, LifecycleAt, WantsMasterAt;
    k := ClaimPass(q, plan);
    inputs := TurnRun(q, plan, k + 1);
    GatheringGoesOn(q, plan, k + 1, k);
    GatheredDecides(q, plan, k + 1, k);
    ClaimIsNoWarmup(q, plan);
    LastPassClaims(q, plan, k + 1, k);
    forall i | 0 <= i <= k ensures ConsistentPlatform(q, inputs, i, plan.owner) && FixedManager(q, inputs[i].platform) {
      GatheringIsConsistent(q, plan, k + 1, i);
    }
    forall id <- LiveAt(q, inputs, k) ensures exists t :: 0 <= t < |plan.peers| && plan.peers[t].id == id {
      var t := LiveHadTurn(q, plan, k + 1, k, id);
    }
  }

  lemma ClaimIsNoWarmup(q: Request, plan: Plan)
    requires Timed(q) && plan.start == 1
    ensures ClaimPass(q, plan) == 0 <==> plan.peers == []
  {
    if plan.peers != [] { MultiplesAreOrdered(0, |plan.peers|, PeriodSteps(q)); }
  }

  lemma LastPassClaims(q: Request, plan: Plan, size: nat, k: nat)
    requires Gathers(q, plan) && k == ClaimPass(q, plan) && k < size && Ticking(q, TurnRun(q, plan, size), k)
    requires k == 0 <==> plan.owner
    requires var inputs := TurnRun(q, plan, size);
      var action := DecisionFor(LifecycleRequestOf(q, At(q, inputs, k), inputs[k]), plan.owner).action;
      WantsMaster(action) && (IdlePass(q, At(q, inputs, k), inputs[k]) <==> plan.owner)
    ensures var inputs := TurnRun(q, plan, size); WantsMasterAt(q, inputs, k) && Uninterrupted(q, inputs, k + 1)
  {
    hide At, TurnRun, IdlePass, Completes, LifecycleAt, DecisionFor, PeersAt, PerTimeout, QuorumThreshold, ClaimPass,
         WantsMaster;
    TurnRunContinues(q, plan, size, k);
    PassDecides(q, TurnRun(q, plan, size), k);
    TurnIsSteady(q, plan, k);
  }

  lemma GatheringIsConsistent(q: Request, plan: Plan, size: nat, i: nat)
    requires Gathers(q, plan) && i <= ClaimPass(q, plan) < size
    ensures var inputs := TurnRun(q, plan, size); ConsistentPlatform(q, inputs, i, plan.owner) && FixedManager(q, inputs[i].platform)
  {
    hide At, TurnRun, LifecycleAt, ClaimPass, TurnInput, HostAt, RealMutationRequested;
    GatheringGoesOn(q, plan, size, i);
    IdleRunMovesNothing(q, TurnRun(q, plan, size), i, plan.owner);
    TurnIsSteady(q, plan, i);
  }

  /** If it may really act, the VIP moves here with that pass, by operations that are no dry runs. */
  lemma GatheringTakesVip(q: Request, plan: Plan) returns (inputs: seq<Input>, k: nat)
    requires Gathers(q, plan) && !plan.owner && RealMutationRequested(q)
    ensures InputsFit(q, inputs) && |inputs| == k + 1 && At(q, inputs, k + 1).exit.None?
    ensures forall i :: 0 <= i <= k ==> ConsistentPlatform(q, inputs, i, false) && FixedManager(q, inputs[i].platform)
    ensures HostAt(q, inputs, k + 1, false) && RealPart(At(q, inputs, k + 1).history.vipOperations) != []
  {
    hide At, HostAt, Ticking, Gathers, RealPart, Alternates, OwnsAfter, Kinds, LifecycleAt, Completes,
         ConsistentPlatform, FixedManager, RealMutationRequested;
    inputs, k := GatheringClaims(q, plan);
    FixedIsHonest(q, inputs, k, false);
    OwnershipTracksDecision(q, inputs, k, false);
    OperationLogAlternates(q, inputs, k + 1, false);
    NothingAlternates(false);
  }

  lemma FixedIsHonest(q: Request, inputs: seq<Input>, k: nat, ownedAtStart: bool)
    requires InputsFit(q, inputs) && k < |inputs| && RealMutationRequested(q)
    requires ConsistentPlatform(q, inputs, k, ownedAtStart) && FixedManager(q, inputs[k].platform)
    ensures HonestPlatform(q, inputs, k, ownedAtStart)
  {
    hide HostAt;
  }

  lemma UnheardClaimExists(q: Request, other: string) returns (inputs: seq<Input>, k: nat)
    requires Runnable(q) && Timed(q) && other in PeerIds(q.config) && q.config.election.requireQuorum && q.config.peers != []
    requires QuorumThreshold(ElectionPolicyFromConfig(q.config)) <= 1 + UnheardLimit(q)
    ensures ClaimsUnheard(q, other, inputs, k)
  {
    hide At, LiveAt, Ticking, WantsMasterAt, PerTimeout, QuorumThreshold, PeerIds, ConsistentPlatform, FixedManager;
    ThresholdIsPositive(ElectionPolicyFromConfig(q.config));
    WithoutOne(q.config.peers, other);
    var n := QuorumThreshold(ElectionPolicyFromConfig(q.config)) - 1;
    var plan := WorsePeers(q, other, n);
    WorsePlanFits(q, other, n);
    hide Runnable, Fits;
    inputs, k := GatheringClaims(q, plan);
    TickingPrefix(q, inputs, k, k);
    OtherIsUnheard(q, other, plan, inputs, k);
  }

  lemma ThresholdIsPositive(policy: ElectionPolicy)
    ensures QuorumThreshold(policy) >= 1
  {
  }

  lemma OtherIsUnheard(q: Request, other: string, plan: Plan, inputs: seq<Input>, k: nat)
    requires Runnable(q) && InputsFit(q, inputs) && StillRuns(q, inputs, k) && other in PeerIds(q.config)
    requires forall t :: 0 <= t < |plan.peers| ==> plan.peers[t].id != other
    requires forall id <- LiveAt(q, inputs, k) :: exists t :: 0 <= t < |plan.peers| && plan.peers[t].id == id
    ensures other !in ViewAt(q, inputs, k)
  {
    hide At, LiveAt, PeersAt, ViewAt, PeerIds;
    RunnableIsTimed(q);
    HeartbeatsCountRight(q, inputs, k);
    OwnIdIsNotConfigured(q.config);
  }

  /**
   * Exactly when two daemons of one cluster can both want the VIP without having word of each other, whatever
   * their quorum sizes: when each threshold can be met by the other nodes. A majority gate does not prevent it,
   * since views that miss each other may still share members.
   */
  lemma BothCanClaimUnheardIff(qa: Request, qb: Request)
    requires Runnable(qa) && Timed(qa) && Runnable(qb) && Timed(qb)
    requires qa.config.election.requireQuorum && qb.config.election.requireQuorum
    requires qb.config.nodeId in PeerIds(qa.config) && qa.config.nodeId in PeerIds(qb.config)
    requires qa.config.peers != [] && qb.config.peers != []
    ensures (exists ia, ka, ib, kb :: ClaimsUnheard(qa, qb.config.nodeId, ia, ka) && ClaimsUnheard(qb, qa.config.nodeId, ib, kb))
       <==> && QuorumThreshold(ElectionPolicyFromConfig(qa.config)) <= 1 + UnheardLimit(qa)
            && QuorumThreshold(ElectionPolicyFromConfig(qb.config)) <= 1 + UnheardLimit(qb)
  {
    hide ClaimsUnheard, QuorumThreshold, UnheardLimit, Runnable, Timed, PeerIds;
    var a, b := qa.config.nodeId, qb.config.nodeId;
    if QuorumThreshold(ElectionPolicyFromConfig(qa.config)) <= 1 + UnheardLimit(qa)
       && QuorumThreshold(ElectionPolicyFromConfig(qb.config)) <= 1 + UnheardLimit(qb) {
      var ia, ka := UnheardClaimExists(qa, b);
      var ib, kb := UnheardClaimExists(qb, a);
      assert ClaimsUnheard(qa, b, ia, ka) && ClaimsUnheard(qb, a, ib, kb);
    }
    if ia, ka, ib, kb :| ClaimsUnheard(qa, b, ia, ka) && ClaimsUnheard(qb, a, ib, kb) {
      UnheardLimitHolds(qa, b, ia, ka);
      UnheardLimitHolds(qb, a, ib, kb);
    }
  }

  /** The automatic threshold rules it out exactly in clusters of two, or where the live limit is too low. */
  lemma AutomaticThresholdUnheard(q: Request)
    requires Timed(q) && q.config.peers != [] && q.config.election.quorumSize <= 0
    ensures QuorumThreshold(ElectionPolicyFromConfig(q.config)) <= 1 + UnheardLimit(q)
       <==> |q.config.peers| >= 2 && (|q.config.peers| + 1) / 2 <= PerTimeout(q)
  {
    hide PerTimeout;
    assert ElectionPolicyFromConfig(q.config).clusterSize == |q.config.peers| + 1;
  }
}
