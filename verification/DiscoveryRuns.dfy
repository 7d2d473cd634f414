/** LAN discovery over whole runs of the daemon loop: what a node sends, and what it makes of what it hears. */
module DiscoveryRuns {
  import opened Text
  import opened FailoverDecision
  import opened DaemonLifecycle
  import opened Beacons
  import opened PeerTables
  import opened DaemonMachine
  import opened DaemonRuns
  import opened Schedule
  import opened PeerHistory

  // ---------------------------------------------------------------- what is heard

  /** The beacon that a payload contributes: verified, and not this node's own. */
  function Taken(q: Request, payload: string): Option<Beacon> {
    match Verify(payload, q.discovery.secret, q.config.discovery.cluster)
    case Rejected(_) => None
    case Verified(b) => if IdentityOf(b) != q.discovery.selfMac then Some(b) else None
  }

  function EventsOf(q: Request, drained: seq<string>, atMs: int): seq<Event> {
    if drained == [] then []
    else
      EventsOf(q, drained[..|drained| - 1], atMs)
      + match Taken(q, drained[|drained| - 1])
        case None => []
        case Some(b) => [ObserveEvent(b, atMs)]
  }

  /** Everything discovery heard in the passes before `k`, and when it pruned. */
  function LogAt(q: Request, inputs: seq<Input>, k: nat): seq<Event>
    requires InputsFit(q, inputs) && k <= |inputs|
  {
    if k == 0 then []
    else
      var atMs := ElapsedAt(q, inputs, k - 1);
      LogAt(q, inputs, k - 1) + EventsOf(q, inputs[k - 1].drained, atMs) + [PruneEvent(atMs)]
  }

  lemma {:induction false} IngestReplaysEvents(q: Request, log: seq<Event>, drained: seq<string>, atMs: int, timeoutMs: int)
    ensures Replay(log + EventsOf(q, drained, atMs), timeoutMs) == Ingest(q, Replay(log, timeoutMs), drained, atMs)
  {
    hide Verify, Observed, Pruned;
    if drained == [] {
      assert log + [] == log;
    } else {
      var front, last := drained[..|drained| - 1], drained[|drained| - 1];
      IngestReplaysEvents(q, log, front, atMs, timeoutMs);
      if Taken(q, last).Some? {
        var all := log + EventsOf(q, drained, atMs);
        assert all == (log + EventsOf(q, front, atMs)) + [ObserveEvent(Taken(q, last).value, atMs)];
        assert all[..|all| - 1] == log + EventsOf(q, front, atMs);
      } else {
        assert EventsOf(q, front, atMs) + [] == EventsOf(q, front, atMs);
      }
    }
  }

  lemma PruneReplays(log: seq<Event>, atMs: int, timeoutMs: int)
    ensures Replay(log + [PruneEvent(atMs)], timeoutMs) == Pruned(Replay(log, timeoutMs), atMs, timeoutMs)
  {
    hide Pruned;
    assert (log + [PruneEvent(atMs)])[..|log|] == log;
  }

  /** Before pass `k` the roster is what the log of the earlier passes leaves. */
  lemma {:induction false} RosterReplaysLog(q: Request, inputs: seq<Input>, k: nat)
    requires InputsFit(q, inputs) && k <= |inputs| && At(q, inputs, k).exit.None? && DiscoveryActive(q)
    ensures At(q, inputs, k).discovery.roster == Replay(LogAt(q, inputs, k), q.config.discovery.timeoutMs)
  {
    hide At, Step, RunBeat, LifecycleOf, DiscoverIfActive, Replay, LogAt;
    RosterStartsEmpty(q, inputs);
    if k > 0 {
      PassJGoesOn(q, inputs, k - 1, k);
      RosterReplaysLog(q, inputs, k - 1);
      PassGoesOn(q, At(q, inputs, k - 1), inputs[k - 1]);
      PassReplays(q, inputs, k - 1);
    }
  }

  lemma RosterStartsEmpty(q: Request, inputs: seq<Input>)
    requires InputsFit(q, inputs)
    ensures At(q, inputs, 0).discovery.roster == Replay(LogAt(q, inputs, 0), q.config.discovery.timeoutMs)
  {
  }

  lemma PassReplays(q: Request, inputs: seq<Input>, k: nat)
    requires InputsFit(q, inputs) && k < |inputs| && DiscoveryActive(q)
    requires At(q, inputs, k).discovery.roster == Replay(LogAt(q, inputs, k), q.config.discovery.timeoutMs)
    ensures DiscoverIfActive(q, At(q, inputs, k), inputs[k].drained).0.roster
         == Replay(LogAt(q, inputs, k + 1), q.config.discovery.timeoutMs)
  {
    hide At, Replay, Ingest, Pruned, EventsOf, SignBeacon;
    var log, atMs, timeoutMs := LogAt(q, inputs, k), ElapsedAt(q, inputs, k), q.config.discovery.timeoutMs;
    IngestReplaysEvents(q, log, inputs[k].drained, atMs, timeoutMs);
    PruneReplays(log + EventsOf(q, inputs[k].drained, atMs), atMs, timeoutMs);
  }

  lemma {:induction false} EventsAreNow(q: Request, drained: seq<string>, atMs: int, i: nat)
    requires i < |EventsOf(q, drained, atMs)|
    ensures EventsOf(q, drained, atMs)[i].atMs == atMs
    ensures EventsOf(q, drained, atMs)[i].ObserveEvent? && IdentityOf(EventsOf(q, drained, atMs)[i].beacon) != q.discovery.selfMac
  {
    hide Verify;
    var front := EventsOf(q, drained[..|drained| - 1], atMs);
    if i < |front| { EventsAreNow(q, drained[..|drained| - 1], atMs, i); }
  }

  lemma {:induction false} LogIsChronological(q: Request, inputs: seq<Input>, k: nat, nowMs: int)
    requires InputsFit(q, inputs) && k <= |inputs| && (k > 0 ==> ElapsedAt(q, inputs, k - 1) <= nowMs)
    ensures Chronological(LogAt(q, inputs, k), nowMs)
  {
    hide ElapsedAt, EventsOf, Chronological;
    NothingIsChronological(nowMs);
    if k > 0 {
      var atMs := ElapsedAt(q, inputs, k - 1);
      if k > 1 { ClockIsMonotone(q, inputs, k - 2, k - 1); }
      LogIsChronological(q, inputs, k - 1, atMs);
      var before, events := LogAt(q, inputs, k - 1), EventsOf(q, inputs[k - 1].drained, atMs);
      forall i | 0 <= i < |events| ensures events[i].atMs == atMs { EventsAreNow(q, inputs[k - 1].drained, atMs, i); }
      MoreIsChronological(before, events, atMs, nowMs);
    }
  }

  lemma NothingIsChronological(nowMs: int)
    ensures Chronological([], nowMs)
  {
  }

  lemma MoreIsChronological(before: seq<Event>, events: seq<Event>, atMs: int, nowMs: int)
    requires Chronological(before, atMs) && atMs <= nowMs
    requires forall i :: 0 <= i < |events| ==> events[i].atMs == atMs
    ensures Chronological(before + events + [PruneEvent(atMs)], nowMs)
  {
    var log := before + events + [PruneEvent(atMs)];
    forall i | 0 <= i < |log| ensures log[i].atMs <= atMs && (i >= |before| ==> log[i].atMs == atMs) {
      if |before| <= i < |before| + |events| { assert log[i] == events[i - |before|]; }
    }
    assert forall i :: 0 <= i < |before| ==> log[i] == before[i];
  }

  /**
   * At each decision the discovered peers are exactly the latest verified beacon of each foreign identity
   * that any earlier or the same pass heard, if its age does not exceed the timeout.
   */
  lemma DiscoveredPeersRefineHistory(q: Request, inputs: seq<Input>, k: nat, id: string)
    requires InputsFit(q, inputs) && k < |inputs| && At(q, inputs, k).exit.None? && DiscoveryActive(q)
    ensures var c, now := q.config.discovery, ElapsedAt(q, inputs, k);
      var roster := DiscoverIfActive(q, At(q, inputs, k), inputs[k].drained).0.roster;
      var active, latest := ActiveStatuses(roster, now, c.timeoutMs, q.discovery.selfMac), Latest(LogAt(q, inputs, k + 1), id);
      && PeersOfPass(q, At(q, inputs, k), inputs[k]) ==
           ActivePeerStatuses(LiveAt(q, inputs, k)) + ActivePeersOf(roster, now, c.timeoutMs, q.discovery.selfMac)
      && (id in active <==> id != "" && id != q.discovery.selfMac && latest.Some? && now - latest.value.lastSeenMs <= c.timeoutMs)
      && (id in active ==>
            var b := latest.value.beacon; active[id] == PeerStatus(b.nodeId, b.priority, b.healthy, true, b.state))
  {
    hide At, DiscoverIfActive, Replay, LogAt, Latest, ActiveStatuses, RunBeat, ActivePeerStatuses, Chronological;
    RosterReplaysLog(q, inputs, k);
    PassReplays(q, inputs, k);
    LogIsChronological(q, inputs, k + 1, ElapsedAt(q, inputs, k));
    ActivePeersRefineLog(LogAt(q, inputs, k + 1), q.config.discovery.timeoutMs, ElapsedAt(q, inputs, k), q.discovery.selfMac, id);
  }

  // ---------------------------------------------------------------- what is sent

  /** The local status between passes is this node's own, healthy, as master or backup. */
  predicate IsOwnStatus(q: Request, local: LocalNodeStatus) {
    && local.nodeId == q.config.nodeId && local.priority == q.config.priority && local.healthy
    && (local.state.Master? || local.state.Backup?)
  }

  predicate IsOwnBeacon(q: Request, b: Beacon, number: nat) {
    && b.cluster == q.config.discovery.cluster && b.nodeId == q.config.nodeId && b.mac == q.discovery.selfMac
    && b.priority == q.config.priority && b.address == q.config.heartbeatBind && b.healthy
    && (b.state.Master? || b.state.Backup?) && b.seqNo == number % 0x1_0000_0000_0000_0000
  }

  /** `payload` is this node's signed beacon with sequence number `number`. */
  ghost predicate IsOwnPayload(q: Request, payload: string, number: nat) {
    exists b :: IsOwnBeacon(q, b, number) && payload == SignBeacon(b, q.discovery.secret)
  }

  ghost predicate OwnBroadcasts(q: Request, sent: seq<string>) {
    forall i :: 0 <= i < |sent| ==> IsOwnPayload(q, sent[i], i + 1)
  }

  lemma PassRecordsBroadcasts(q: Request, s: LoopState, input: Input)
    requires InputFits(q, input) && s.exit.None? && Step(q, s, input).exit.None?
    ensures Step(q, s, input).history.broadcasts == s.history.broadcasts + DiscoverIfActive(q, s, input.drained).1
    ensures Step(q, s, input).localStatus
         == if LifecycleOf(q, s, input).iterationRan then StatusAfter(LifecycleOf(q, s, input)) else s.localStatus
  {
    hide RunBeat, LifecycleOf, DiscoverIfActive, PeersOfPass, DecisionOf, EffectiveStepMs, Tick, WarmsUp, StatusAfter;
  }

  lemma LifecycleKeepsOwnStatus(q: Request, s: LoopState, input: Input)
    requires InputFits(q, input) && LifecycleOf(q, s, input).iterationRan && !LifecycleOf(q, s, input).finalState.Faulted?
    ensures IsOwnStatus(q, StatusAfter(LifecycleOf(q, s, input)))
  {
    hide PeersOfPass, DecisionFor, LifecycleWith, Performed, AllAccepted, Planned, RequireDryRun;
    var lq := LifecycleRequestOf(q, s, input);
    LifecycleShape(lq, input.platform, DecisionFor(lq, ProbedOwner(input.platform.probe)));
  }

  /** One pass sends at most one beacon, the next in number. */
  lemma PassSendsOwnBeacon(q: Request, s: LoopState, drained: seq<string>, sent: nat)
    requires IsOwnStatus(q, s.localStatus) && s.discovery.seqNo == sent % 0x1_0000_0000_0000_0000
    ensures var (d, broadcasts) := DiscoverIfActive(q, s, drained);
      && d.seqNo == (sent + |broadcasts|) % 0x1_0000_0000_0000_0000 && |broadcasts| <= 1
      && (|broadcasts| == 1 ==> IsOwnPayload(q, broadcasts[0], sent + 1))
  {
    hide SignBeacon, Ingest, Pruned;
    var next := (s.discovery.seqNo + 1) % 0x1_0000_0000_0000_0000;
    assert next == (sent + 1) % 0x1_0000_0000_0000_0000;
    assert IsOwnBeacon(q, MakeBeacon(q, s.localStatus, next), sent + 1);
  }

  lemma {:induction false} NumberingWhileRunning(q: Request, inputs: seq<Input>, k: nat)
    requires InputsFit(q, inputs) && k <= |inputs| && At(q, inputs, k).exit.None?
    ensures var s := At(q, inputs, k);
      && IsOwnStatus(q, s.localStatus) && s.discovery.seqNo == |s.history.broadcasts| % 0x1_0000_0000_0000_0000
      && OwnBroadcasts(q, s.history.broadcasts)
  {
    hide At, Step, RunBeat, LifecycleOf, DiscoverIfActive, IsOwnPayload;
    StartsAtZero(q, inputs);
    if k > 0 {
      var s, input := At(q, inputs, k - 1), inputs[k - 1];
      PassJGoesOn(q, inputs, k - 1, k);
      NumberingWhileRunning(q, inputs, k - 1);
      PassGoesOn(q, s, input);
      PassRecordsBroadcasts(q, s, input);
      PassSendsOwnBeacon(q, s, input.drained, |s.history.broadcasts|);
      if LifecycleOf(q, s, input).iterationRan { LifecycleKeepsOwnStatus(q, s, input); }
    }
  }

  /** A pass sends what discovery sends or nothing, whether or not the loop ends in it. */
  lemma StepBroadcasts(q: Request, s: LoopState, input: Input)
    requires InputFits(q, input)
    ensures var after := Step(q, s, input).history.broadcasts;
      after == s.history.broadcasts
      || (s.exit.None? && after == s.history.broadcasts + DiscoverIfActive(q, s, input.drained).1)
  {
    hide RunBeat, LifecycleOf, DiscoverIfActive, PeersOfPass, DecisionOf, EffectiveStepMs, Tick, WarmsUp, StatusAfter;
  }

  /**
   * In every run, also in its last pass, the beacons sent are this node's own, signed, and numbered 1, 2, 3
   * and so on.
   */
  lemma {:induction false} BroadcastsAreNumbered(q: Request, inputs: seq<Input>, k: nat)
    requires InputsFit(q, inputs) && k <= |inputs|
    ensures OwnBroadcasts(q, At(q, inputs, k).history.broadcasts)
  {
    hide At, Step, RunBeat, LifecycleOf, DiscoverIfActive, IsOwnPayload;
    StartsAtZero(q, inputs);
    if k > 0 {
      var s, input := At(q, inputs, k - 1), inputs[k - 1];
      BroadcastsAreNumbered(q, inputs, k - 1);
      NextState(q, inputs, k - 1);
      StepBroadcasts(q, s, input);
      if s.exit.None? {
        NumberingWhileRunning(q, inputs, k - 1);
        PassSendsOwnBeacon(q, s, input.drained, |s.history.broadcasts|);
      }
    }
  }

  /** The strings of the configuration that go into a beacon have no newlines, and one of them is an identity. */
  predicate Sendable(q: Request) {
    && Clean(q.config.discovery.cluster) && Clean(q.config.nodeId) && Clean(q.discovery.selfMac) && Clean(q.config.heartbeatBind)
    && (q.discovery.selfMac != "" || q.config.nodeId != "")
  }

  function OwnIdentity(q: Request): string { if q.discovery.selfMac != "" then q.discovery.selfMac else q.config.nodeId }

  lemma OwnBeaconIsTakenIn(q: Request, b: Beacon, number: nat, other: Request)
    requires IsOwnBeacon(q, b, number) && INT_MIN <= q.config.priority <= INT_MAX
    requires other.discovery.secret == q.discovery.secret && other.config.discovery.cluster == q.config.discovery.cluster
    ensures var taken := Taken(other, SignBeacon(b, q.discovery.secret));
      taken.Some? && IsOwnBeacon(q, taken.value, number) <==> Sendable(q) && other.discovery.selfMac != OwnIdentity(q)
  {
    hide SignBeacon, Verify, ParsedFields, SerializeFields, Clean;
    BeaconRoundTrip(b, q.discovery.secret);
    SignedBeaconIsChecked(b, q.discovery.secret, q.config.discovery.cluster);
    if !WellFormed(b) { UncleanIsLost(b); }
  }

  /**
   * From one daemon to another: every beacon that a run sends is taken in as what it is, with this node's id,
   * priority and the beacon's number, by exactly those nodes of the same cluster and secret that have another
   * identity, provided that the strings of the configuration hold no newline.
   */
  lemma BroadcastsAreTakenIn(q: Request, inputs: seq<Input>, k: nat, i: nat, other: Request)
    requires InputsFit(q, inputs) && k <= |inputs| && INT_MIN <= q.config.priority <= INT_MAX
    requires i < |At(q, inputs, k).history.broadcasts|
    requires other.discovery.secret == q.discovery.secret && other.config.discovery.cluster == q.config.discovery.cluster
    ensures var taken := Taken(other, At(q, inputs, k).history.broadcasts[i]);
      taken.Some? && IsOwnBeacon(q, taken.value, i + 1) <==> Sendable(q) && other.discovery.selfMac != OwnIdentity(q)
  {
    hide At, SignBeacon, Verify, Sendable, OwnIdentity;
    BroadcastsAreNumbered(q, inputs, k);
    var payload := At(q, inputs, k).history.broadcasts[i];
    assert IsOwnPayload(q, payload, i + 1);
    var b :| IsOwnBeacon(q, b, i + 1) && payload == SignBeacon(b, q.discovery.secret);
    assert IsOwnBeacon(q, b, i + 1);
    OwnBeaconIsTakenIn(q, b, i + 1, other);
  }

  /**
   * A beacon of its own that comes back is not taken in. The daemon's identity is never empty: main.cpp falls
   * back from the MAC to the node id (src/main.cpp:326), which Config::validate requires.
   */
  lemma OwnBroadcastIsIgnored(q: Request, inputs: seq<Input>, k: nat, i: nat)
    requires InputsFit(q, inputs) && k <= |inputs| && INT_MIN <= q.config.priority <= INT_MAX
    requires i < |At(q, inputs, k).history.broadcasts|
    requires Sendable(q) && q.discovery.selfMac != ""
    ensures Taken(q, At(q, inputs, k).history.broadcasts[i]) == None
  {
    hide At, SignBeacon, Verify, Clean;
    BroadcastsAreNumbered(q, inputs, k);
    var payload := At(q, inputs, k).history.broadcasts[i];
    assert IsOwnPayload(q, payload, i + 1);
    var b :| IsOwnBeacon(q, b, i + 1) && payload == SignBeacon(b, q.discovery.secret);
    assert IsOwnBeacon(q, b, i + 1);
    BeaconRoundTrip(b, q.discovery.secret);
  }
}
