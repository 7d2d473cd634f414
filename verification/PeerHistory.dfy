/** The expiring peer map of the daemon loop against the history of what was received. */
module PeerHistory {
  import opened Text
  import opened FailoverDecision
  import opened HeartbeatLoop
  import opened Config
  import opened DaemonLifecycle
  import opened Schedule
  import opened DaemonMachine
  import opened DaemonRuns

  /** The valid heartbeat of a configured peer received in pass `k`, if any: at most one, and only in due passes. */
  function HeardAt(q: Request, inputs: seq<Input>, k: nat): Option<PeerStatus>
    requires InputsFit(q, inputs) && k < |inputs|
  {
    Heard(q, BeatAt(q, inputs, k))
  }

  predicate HeardFrom(q: Request, inputs: seq<Input>, k: nat, id: string)
    requires InputsFit(q, inputs) && k < |inputs|
  {
    HeardAt(q, inputs, k).Some? && HeardAt(q, inputs, k).value.nodeId == id
  }

  /** The last pass up to and including `k` that heard from `id`; -1 when none did. */
  function LastHeard(q: Request, inputs: seq<Input>, k: int, id: string): (j: int)
    requires InputsFit(q, inputs) && -1 <= k < |inputs|
    ensures -1 <= j <= k && (j >= 0 ==> HeardFrom(q, inputs, j, id))
    ensures forall i :: j < i <= k ==> !HeardFrom(q, inputs, i, id)
    decreases k + 1
  {
    if k < 0 then -1 else if HeardFrom(q, inputs, k, id) then k else LastHeard(q, inputs, k - 1, id)
  }

  function ElapsedAt(q: Request, inputs: seq<Input>, k: nat): int
    requires InputsFit(q, inputs) && k <= |inputs|
  {
    At(q, inputs, k).elapsedMs
  }

  /** The live peers that the decision of pass `k` sees. */
  function LiveAt(q: Request, inputs: seq<Input>, k: nat): RecentPeers
    requires InputsFit(q, inputs) && k < |inputs|
  {
    BeatAt(q, inputs, k).recent
  }

  // ---------------------------------------------------------------- the map in one pass

  /** Two expiry sweeps and one update leave: the peer just heard, and whoever was there and is young enough. */
  lemma BeatUpdatesMap(q: Request, s: LoopState, input: Input, id: string)
    requires InputFits(q, input) && q.config.heartbeatTimeoutMs > 0
    ensures var beat, timeout := RunBeat(q, s, input), q.config.heartbeatTimeoutMs;
      var heard := Heard(q, beat);
      if heard.Some? && heard.value.nodeId == id then
        id in beat.recent && beat.recent[id] == RecentPeer(heard.value, s.elapsedMs)
      else
        && (id in beat.recent <==> id in s.recent && s.elapsedMs - s.recent[id].lastSeenMs < timeout)
        && (id in beat.recent ==> beat.recent[id] == s.recent[id])
  {
    hide SendFailed, PeerIsConfigured, Received;
  }

  lemma ClockNeverGoesBack(q: Request, s: LoopState, input: Input)
    requires InputFits(q, input)
    ensures Step(q, s, input).elapsedMs >= s.elapsedMs
  {
    hide RunBeat, LifecycleOf, DiscoverIfActive, PeersOfPass, DecisionOf, Tick, WarmsUp, Record;
  }

  lemma {:induction false} ClockIsMonotone(q: Request, inputs: seq<Input>, j: nat, k: nat)
    requires InputsFit(q, inputs) && j <= k <= |inputs|
    ensures ElapsedAt(q, inputs, j) <= ElapsedAt(q, inputs, k)
    decreases k - j
  {
    hide Step;
    if j < k {
      ClockIsMonotone(q, inputs, j, k - 1);
      ClockNeverGoesBack(q, At(q, inputs, k - 1), inputs[k - 1]);
    }
  }

  // ---------------------------------------------------------------- the map over a run

  /** What the map must hold for `id` in pass `k`, read off the receive history alone. */
  ghost predicate MatchesHistory(q: Request, inputs: seq<Input>, k: nat, id: string, m: RecentPeers)
    requires InputsFit(q, inputs) && k < |inputs|
  {
    var j := LastHeard(q, inputs, k, id);
    && (id in m <==> j >= 0 && ElapsedAt(q, inputs, k) - ElapsedAt(q, inputs, j) < q.config.heartbeatTimeoutMs)
    && (id in m ==> m[id] == RecentPeer(HeardAt(q, inputs, j).value, ElapsedAt(q, inputs, j)))
  }

  /**
   * At each decision the map holds, for every id, exactly the status of the latest valid heartbeat of
   * that configured peer, if its age is strictly below the timeout.
   */
  lemma {:induction false} PeerMapRefinesHistory(q: Request, inputs: seq<Input>, k: nat, id: string)
    requires InputsFit(q, inputs) && k < |inputs| && At(q, inputs, k).exit.None? && q.config.heartbeatTimeoutMs > 0
    ensures MatchesHistory(q, inputs, k, id, LiveAt(q, inputs, k))
  {
    hide At, Step, RunBeat, LifecycleOf, DiscoverIfActive, Heard;
    MapStartsEmpty(q, inputs);
    if k > 0 {
      PassJGoesOn(q, inputs, k - 1, k);
      PassGoesOn(q, At(q, inputs, k - 1), inputs[k - 1]);
      PeerMapRefinesHistory(q, inputs, k - 1, id);
    }
    HistoryStep(q, inputs, k, id);
  }

  lemma HistoryStep(q: Request, inputs: seq<Input>, k: nat, id: string)
    requires InputsFit(q, inputs) && k < |inputs| && q.config.heartbeatTimeoutMs > 0
    requires k == 0 ==> At(q, inputs, 0).recent == map[]
    requires k > 0 ==> At(q, inputs, k).recent == LiveAt(q, inputs, k - 1) && MatchesHistory(q, inputs, k - 1, id, LiveAt(q, inputs, k - 1))
    ensures MatchesHistory(q, inputs, k, id, LiveAt(q, inputs, k))
  {
    hide At, Step, RunBeat, Heard;
    BeatUpdatesMap(q, At(q, inputs, k), inputs[k], id);
    if k > 0 { ClockIsMonotone(q, inputs, k - 1, k); }
  }

  lemma MapStartsEmpty(q: Request, inputs: seq<Input>)
    requires InputsFit(q, inputs)
    ensures At(q, inputs, 0).recent == map[]
  {
  }

  // ---------------------------------------------------------------- who can be live

  /** Every live entry is a configured peer, kept under its own id and counted as seen. */
  lemma LivePeersAreConfigured(q: Request, inputs: seq<Input>, k: nat, id: string)
    requires InputsFit(q, inputs) && k < |inputs| && At(q, inputs, k).exit.None? && q.config.heartbeatTimeoutMs > 0
    requires id in LiveAt(q, inputs, k)
    ensures var status := LiveAt(q, inputs, k)[id].status;
      id in PeerIds(q.config) && status.nodeId == id && status.heartbeatSeen
  {
    PeerMapRefinesHistory(q, inputs, k, id);
    HeardIsConfigured(q, At(q, inputs, LastHeard(q, inputs, k, id)), inputs[LastHeard(q, inputs, k, id)]);
  }

  lemma HeardIsConfigured(q: Request, s: LoopState, input: Input)
    requires InputFits(q, input)
    ensures var heard := Heard(q, RunBeat(q, s, input));
      heard.Some? ==> RunBeat(q, s, input).due && heard.value.nodeId in PeerIds(q.config) && heard.value.heartbeatSeen
  {
    hide SendFailed, Expired;
    var heard := Heard(q, RunBeat(q, s, input));
    if heard.Some? {
      var p :| p in q.config.peers && p.id == heard.value.nodeId;
      assert p.id in PeerIds(q.config);
    }
  }

  // ---------------------------------------------------------------- how many peers can be live

  lemma UninterruptedPrefix(q: Request, inputs: seq<Input>, j: nat, k: nat)
    requires InputsFit(q, inputs) && Uninterrupted(q, inputs, k) && j <= k
    ensures Uninterrupted(q, inputs, j)
  {
    EarlierPassesGoOn(q, inputs, j, k);
  }

  /** The heartbeat period as the loop can keep it: the interval rounded up to whole clock steps. */
  function PeriodSteps(q: Request): (m: nat)
    requires q.config.heartbeatIntervalMs > 0 && EffectiveStepMs(q.options) > 0
    ensures m >= 1
  {
    CeilDivIsLeast(q.config.heartbeatIntervalMs, EffectiveStepMs(q.options), 1);
    CeilDiv(q.config.heartbeatIntervalMs, EffectiveStepMs(q.options))
  }

  predicate Ticking(q: Request, inputs: seq<Input>, k: nat)
    requires InputsFit(q, inputs)
  {
    && k < |inputs| && Uninterrupted(q, inputs, k) && Valid(q.config) && !q.initialState.Faulted?
    && EffectiveStepMs(q.options) > 0
  }

  /** A pass that heard a peer was due, at a whole number of clock steps. */
  lemma HearingPassIsDue(q: Request, inputs: seq<Input>, j: nat)
    requires InputsFit(q, inputs) && Ticking(q, inputs, j) && HeardAt(q, inputs, j).Some?
    ensures j % PeriodSteps(q) == 0
  {
    HeardIsConfigured(q, At(q, inputs, j), inputs[j]);
    SchedulesInClosedForm(q, inputs, j);
  }

  lemma ElapsedIsSteps(q: Request, inputs: seq<Input>, k: nat)
    requires InputsFit(q, inputs) && Ticking(q, inputs, k)
    ensures ElapsedAt(q, inputs, k) == k * EffectiveStepMs(q.options)
  {
    ClockAndTimers(q, inputs, k);
  }

  lemma TickingPrefix(q: Request, inputs: seq<Input>, j: nat, k: nat)
    requires InputsFit(q, inputs) && Ticking(q, inputs, k) && j <= k
    ensures Ticking(q, inputs, j) && At(q, inputs, k).exit.None? && q.config.heartbeatTimeoutMs > 0
  {
    UninterruptedPrefix(q, inputs, j, k);
  }

  /** A live peer was last heard in a due pass that is recent enough. */
  lemma LastHeardPass(q: Request, inputs: seq<Input>, k: nat, id: string)
    requires InputsFit(q, inputs) && Ticking(q, inputs, k) && id in LiveAt(q, inputs, k)
    ensures var j, step := LastHeard(q, inputs, k, id), EffectiveStepMs(q.options);
      && 0 <= j <= k && HeardFrom(q, inputs, j, id)
      && j % PeriodSteps(q) == 0 && (k - j) * step < q.config.heartbeatTimeoutMs
      && LiveAt(q, inputs, k)[id].lastSeenMs == j * step
  {
    hide At, LiveAt, HeardAt, EffectiveStepMs, Ticking, ElapsedAt, PeriodSteps;
    TickingPrefix(q, inputs, k, k);
    PeerMapRefinesHistory(q, inputs, k, id);
    var j, step := LastHeard(q, inputs, k, id), EffectiveStepMs(q.options);
    TickingPrefix(q, inputs, j, k);
    ElapsedIsSteps(q, inputs, j);
    ElapsedIsSteps(q, inputs, k);
    HearingPassIsDue(q, inputs, j);
    assert (k - j) * step == k * step - j * step;
  }

  lemma {:induction false} InjectionBound(ids: set<string>, slot: map<string, int>, low: int, n: nat)
    requires ids <= slot.Keys
    requires forall id <- ids :: low < slot[id] <= low + n
    requires forall i <- ids, j <- ids :: slot[i] == slot[j] ==> i == j
    ensures |ids| <= n
  {
    if n == 0 {
      assert ids == {};
    } else if id :| id in ids && slot[id] == low + n {
      InjectionBound(ids - {id}, slot, low, n - 1);
    } else {
      InjectionBound(ids, slot, low, n - 1);
    }
  }

  /** `j` is `age` periods before the latest due pass, and that is less than the timeout. */
  lemma SlotBound(k: nat, j: nat, m: nat, step: nat, timeoutMs: int)
    requires m >= 1 && step >= 1 && timeoutMs > 0 && j <= k && j % m == 0 && (k - j) * step < timeoutMs
    ensures m * step >= 1
    ensures k / m - CeilDiv(timeoutMs, m * step) < j / m <= k / m
  {
    var a, t := k / m, j / m;
    assert j == m * t && k == m * a + k % m;
    assert m * step >= 1;
    var age := a - t;
    assert m * age <= k - j by { assert m * a - m * t == m * (a - t); }
    if age < 0 { NonzeroMultipleIsLarge(m, age); }
    assert (m * age) * step <= (k - j) * step;
    assert age * (m * step) == (m * age) * step;
    CeilDivIsLeast(timeoutMs, m * step, age);
  }

  /**
   * Each due pass refreshes at most one peer, so live peers were last seen in distinct due passes and at
   * most ceil(timeout / effective period) of them can be live at once, however many are configured.
   */
  lemma LivePeerBound(q: Request, inputs: seq<Input>, k: nat)
    requires InputsFit(q, inputs) && Ticking(q, inputs, k)
    ensures PeriodSteps(q) * EffectiveStepMs(q.options) > 0
    ensures |LiveAt(q, inputs, k)| <= CeilDiv(q.config.heartbeatTimeoutMs, PeriodSteps(q) * EffectiveStepMs(q.options))
  {
    var live, step, m, timeout := LiveAt(q, inputs, k), EffectiveStepMs(q.options), PeriodSteps(q), q.config.heartbeatTimeoutMs;
    PositiveProduct(m, step);
    var n := CeilDiv(timeout, m * step);
    CeilDivIsLeast(timeout, m * step, 0);
    hide LiveAt, EffectiveStepMs, PeriodSteps, CeilDiv, Ticking;
    var slot := map id | id in live :: LastHeard(q, inputs, k, id) / m;
    forall id <- live ensures k / m - n < slot[id] <= k / m {
      LastHeardPass(q, inputs, k, id);
      SlotBound(k, LastHeard(q, inputs, k, id), m, step, timeout);
    }
    forall i <- live, j <- live | slot[i] == slot[j] ensures i == j {
      LastHeardPass(q, inputs, k, i);
      LastHeardPass(q, inputs, k, j);
      SameMultiple(LastHeard(q, inputs, k, i), LastHeard(q, inputs, k, j), m);
    }
    InjectionBound(live.Keys, slot, k / m - n, n);
  }

  lemma PositiveProduct(a: nat, b: nat)
    requires a > 0 && b > 0
    ensures a * b > 0
  {
  }

  lemma SameMultiple(i: nat, j: nat, m: nat)
    requires m >= 1 && i % m == 0 && j % m == 0 && i / m == j / m
    ensures i == j
  {
    assert i == m * (i / m) && j == m * (j / m);
  }

  // ---------------------------------------------------------------- failover and fencing

  lemma TickingClock(q: Request, inputs: seq<Input>, k: nat)
    requires InputsFit(q, inputs) && Ticking(q, inputs, k)
    ensures k < |inputs| && EffectiveStepMs(q.options) > 0 && q.config.heartbeatIntervalMs > 0 && q.config.heartbeatTimeoutMs > 0
  {
    hide At;
  }

  /** Silence for a full timeout empties the map. */
  lemma SilenceEmptiesMap(q: Request, inputs: seq<Input>, j: int, k: nat)
    requires InputsFit(q, inputs) && Ticking(q, inputs, k) && -1 <= j <= k
    requires forall i :: j < i <= k ==> HeardAt(q, inputs, i).None?
    requires j >= 0 ==> k >= j + CeilDiv(q.config.heartbeatTimeoutMs, EffectiveStepMs(q.options))
    ensures LiveAt(q, inputs, k) == map[]
  {
    hide At, LiveAt, HeardAt, Ticking, EffectiveStepMs;
    TickingClock(q, inputs, k);
    if j >= 0 { CeilDivIsLeast(q.config.heartbeatTimeoutMs, EffectiveStepMs(q.options), k - j); }
    forall id ensures id !in LiveAt(q, inputs, k) {
      if id in LiveAt(q, inputs, k) { SilentPeerIsGone(q, inputs, j, k, id); }
    }
  }

  lemma SilentPeerIsGone(q: Request, inputs: seq<Input>, j: int, k: nat, id: string)
    requires InputsFit(q, inputs) && Ticking(q, inputs, k) && -1 <= j <= k && id in LiveAt(q, inputs, k)
    requires j >= 0 ==> (k - j) * EffectiveStepMs(q.options) >= q.config.heartbeatTimeoutMs
    ensures exists i :: j < i <= k && HeardAt(q, inputs, i).Some?
  {
    hide At, LiveAt, HeardAt, EffectiveStepMs, Ticking, PeriodSteps;
    TickingClock(q, inputs, k);
    LastHeardPass(q, inputs, k, id);
    var last, step := LastHeard(q, inputs, k, id), EffectiveStepMs(q.options);
  }

  lemma AloneWithoutPeers(q: Request, s: LoopState, input: Input)
    requires InputFits(q, input) && !DiscoveryActive(q) && RunBeat(q, s, input).recent == map[]
    ensures PeersOfPass(q, s, input) == []
  {
    hide RunBeat;
    assert Statuses(map[]) == map[];
  }

  /**
   * Bounded failover and self-fencing. If pass `j` heard the last heartbeat (or j == -1 and there never
   * was one), then from ceil(timeout / step) passes later on, every pass that completes leaves this host
   * owning the VIP when a lone node satisfies the quorum rule, and not owning it otherwise.
   */
  lemma FailoverOrFencing(q: Request, inputs: seq<Input>, j: int, k: nat, ownedAtStart: bool)
    requires InputsFit(q, inputs) && Ticking(q, inputs, k) && -1 <= j <= k && !DiscoveryActive(q)
    requires forall i :: j < i <= k ==> HeardAt(q, inputs, i).None?
    requires j >= 0 ==> k >= j + CeilDiv(q.config.heartbeatTimeoutMs, EffectiveStepMs(q.options))
    requires Completes(q, inputs, k) && HonestPlatform(q, inputs, k, ownedAtStart)
    ensures HostAt(q, inputs, k + 1, ownedAtStart)
       <==> !q.config.election.requireQuorum || QuorumThreshold(ElectionPolicyFromConfig(q.config)) <= 1
  {
    SilenceEmptiesMap(q, inputs, j, k);
    AloneWithoutPeers(q, At(q, inputs, k), inputs[k]);
    OwnershipTracksDecision(q, inputs, k, ownedAtStart);
    hide At, RunBeat, PeersOfPass, LifecycleOf, Ticking, HostAt, HonestPlatform, Decide;
    DecisionWithoutPeers(q, At(q, inputs, k), inputs[k]);
  }

  /** What a completed pass decides when it sees nobody. */
  lemma DecisionWithoutPeers(q: Request, s: LoopState, input: Input)
    requires InputFits(q, input) && PeersOfPass(q, s, input) == [] && Completed(LifecycleOf(q, s, input))
    ensures WantsMaster(LifecycleOf(q, s, input).decision.value.action)
       <==> !q.config.election.requireQuorum || QuorumThreshold(ElectionPolicyFromConfig(q.config)) <= 1
  {
    hide PeersOfPass, Decide, WantsMaster, QuorumThreshold, LifecycleWith;
    var lq := LifecycleRequestOf(q, s, input);
    var owner := ProbedOwner(input.platform.probe);
    CompletedDecision(lq, input.platform, DecisionFor(lq, owner));
    IsolatedNodeDecision(LocalStatusFromOwnership(lq.config, true, owner), ElectionPolicyFromConfig(q.config));
  }

  lemma CompletedDecision(lq: LifecycleRequest, answers: PlatformAnswers, decision: Decision)
    requires Completed(LifecycleWith(lq, answers, decision))
    ensures LifecycleWith(lq, answers, decision).decision == Some(decision)
  {
    hide LifecycleWith, Performed, AllAccepted, Planned, RequireDryRun;
    LifecycleShape(lq, answers, decision);
  }
}
