# EasyFailover: a verified model

EasyFailover moves a virtual IP (VIP) between hosts. Each host runs a daemon that exchanges heartbeats,
elects a master among the nodes it sees, and adds, announces or removes the VIP accordingly. This project
models the daemon's decision core, its loop, LAN discovery and the configuration write path, and proves
properties of them. `dafny verify dfyconfig.toml` covers the whole project (Dafny 4.11).

| files | what they model |
|---|---|
| `Election`, `FailoverDecision` | the election and one node's decision: quorum, preemption, incumbents |
| `Cluster` | the same decision taken by N nodes at once, round after round, under arbitrary partitions |
| `Schedule`, `HeartbeatLoop`, `Config`, `DaemonLifecycle` | the parts of one pass of the daemon loop |
| `DaemonMachine`, `DaemonLoop` | the loop as a state machine, and as it runs: variables updated in place, bounded records |
| `DaemonRuns`, `PassOutcomes`, `RunRecords`, `PeerHistory` | what holds in every run: clock, warmup, faults and stops, VIP ownership, operation log, records, live peers, failover |
| `QuorumRuns`, `TurnRuns`, `QuorumReach`, `ExampleRuns` | the quorum gate over whole runs: what it counts, when that is right, who can pass it; constructed and concrete runs |
| `ClusterRuns` | running daemons with complete views as the nodes of `Cluster` |
| `KeyOrder`, `PeerTables`, `Decimal`, `Beacons`, `DiscoveryRuns` | the discovery roster, the signed beacon format, and both over whole runs |
| `PeerLinks` | from one running daemon to another: the status sent, by heartbeat and by beacon, and what arrives |
| `Fips180`, `Sha256Loops`, `Hmac` | SHA-256 and HMAC, the loops against FIPS 180-4 and RFC 2104 |
| `JsonStrings`, `ApiToken`, `ConfigFile`, `ConfigApply` | the authenticated configuration write, from request body to file |
| `Text`, `Sets` | strings and options, counting in finite sets |

Code that changes state step by step is modelled by classes, methods and loops, each proved equal to a
function; the theorems are about those functions and about runs of them. What the environment answers
(transport, ownership probe, VIP manager, file system, TOML loader) is a parameter of every theorem, so a
run of inputs stands for every behaviour of the environment, including a process killed at any call.

## Assumptions

- Node ids are pairwise distinct and no peer id is the node's own (`Config.DistinctIds`). `Config::validate`
  (src/config/Config.cpp:182-199) does not check this; the counting theorems that need it say so.
- Time is logical: `elapsed_ms` grows by a fixed step per iteration (src/runtime/DaemonRuntime.cpp:204-209, 570-572).
- The loop reports itself healthy in every iteration (src/runtime/DaemonRuntime.cpp:509), so every cluster
  node is healthy.
- The quorum theorems over loop states say whether they need discovery to be off. With discovery on the count
  can be wrong and strangers count as members (below). `QuorumRuns.CountIsRightIffNobodyCountedTwice` and
  `QuorumRuns.CountIsMembersIff` give the exact conditions, with discovery and without.
- Cluster rounds are synchronous: all nodes of a block see each other truthfully and decide at once.
- The premises of the run theorems can be met: `DaemonRuns.FavourableRunGoesOn` gives runs of any length in which
  every pass completes, and `Cluster.RoundForPartition` a round for every partition. `ExampleRuns.RealTakeover` and
  `QuorumReach.LiveLimitIsAttained` use a manager whose dry-run option is fixed for the whole run, as
  `LinuxVipManager` has it; their warmup pass is idle.

## What the proofs show about the code

- A non-preemptive dual master is resolved only if the top-ranked node is itself a master. The comment at
  src/core/FailoverDecision.cpp:122-125 reads as if it always were; `Cluster.RoundOutcome` and
  `Cluster.CompleteViewRound` give the exact outcome.
- A gate that at most half of the cluster can pass admits two owners under every policy and from any previous
  owners. A larger one admits none new: with preemption, or from at most one owner, two owners never arise.
  Without preemption two old masters can stay side by side under a better node that is no master; the exact
  condition is `Cluster.SplitBrainIff`.
- The loop receives at most one datagram per due cycle (src/heartbeat/HeartbeatLoop.cpp:27), which bounds the
  number of live peers whatever the cluster size. A daemon can ever pass its own quorum gate on heartbeats
  exactly if its threshold is at most one more than that bound (`QuorumReach.QuorumIsReachableIff`).
- A majority threshold separates views that are disjoint, not views that miss each other: two heartbeat-only
  daemons of a cluster of three or more can both want the VIP while each has word of the other nodes only
  (`QuorumReach.BothCanClaimUnheardIff` says exactly when; `ClusterRuns.DaemonsClaimOnce` shows that complete views
  exclude it).
- With discovery active the quorum count can be wrong in two ways. A node can be counted twice, heard both ways or
  named by a beacon of another MAC (`ExampleRuns.OnePeerCountedTwicePassesGate`, `ExampleRuns.OwnNamePassesGate`;
  exact condition in `QuorumRuns.CountIsRightIffNobodyCountedTwice`). And strangers count as members, because
  `cluster_size` counts configured peers only (src/runtime/DaemonRuntime.cpp:183) while discovery lists whoever
  has the secret: the count is that of the members exactly under the condition of `QuorumRuns.CountIsMembersIff`,
  and without it two hosts with disjoint views can both take the VIP (`ExampleRuns.StrangersMakeTwoMasters`).
- A beacon whose strings hold a newline, which `Config::validate` accepts, does not come back as it was sent
  (`Beacons.BeaconRoundTrip`).
- The warmup gate detects a manager that mutates for real, after the fact; it does not prevent the call
  (`DaemonRuns.RealManagerSurvivesWarmupIffIdle`).
- Both constant-time comparisons cast a length difference to 32 bits, so they are equality exactly up to
  lengths that agree modulo 2^32 (`Hmac.FoldedEqualIsEquality`, `Hmac.LongStringComparesEqualToPrefix`,
  `ApiToken.TokenAcceptedIsEquality`, `ApiToken.LongTokenIsAccepted`).
- A configured token that begins with a blank can never be presented: the file is trimmed at its end only,
  the header on both sides (`ApiToken.PresentedTokenArrivesIffTrimmed`).
- A configuration can be replaced without a backup if the existence check itself fails
  (`ConfigFile.BackupHoldsReplacedText`), and the backup is never flushed to disk.
- Surrogate pairs, which RFC 8259 allows in `\u` escapes, are refused, and nothing else of it is
  (`JsonStrings.JsonTextIsReadIffNoSurrogate`);
  a refused value reads as empty.
- Without a VIP configured the loop records a decision in every pass although the lifecycle takes none
  (`RunRecords.RecordedDecisionIsTaken`).

## Model

| member | source | states |
|---|---|---|
| `Election.ComparatorIsStrictWeakOrder` | src/core/Election.cpp:12-26 | The comparator is irreflexive, asymmetric and transitive, and so is incomparability: what `std::max_element` demands of it. |
| `Text.LessByFirstDifference` | src/core/Election.cpp:25-25 | The order of ids: after a common prefix the one that ends first, or has the smaller byte, is less. |
| `Election.ScanMaxIsFirstMaximum` | src/core/Election.cpp:11-26 | The left-to-right scan returns the first element that no element of the list beats. |
| `Election.WinnerIsUniqueMaximum` | src/core/Election.cpp:7-33 | A candidate wins if and only if it is in the list, healthy, and every other healthy candidate has a lower priority, or the same priority and a greater id, or is the same candidate. |
| `Election.NoWinnerIffNobodyHealthy` | src/core/Election.cpp:28-33 | There is no winner exactly when no candidate is healthy. |
| `Election.ElectionDependsOnlyOnTheSet` | src/core/Election.cpp:7-33 | Reordering or repeating candidates never changes the winner. |
| `FailoverDecision.AutomaticThresholdIsLeastMajority` | src/core/FailoverDecision.cpp:10-16 | With no explicit size the threshold is the least strict majority of the configured cluster. |
| `FailoverDecision.ObservedClusterMembers` | src/core/FailoverDecision.cpp:18-26 | The counting loop returns one for this node and one for each peer with a heartbeat seen. |
| `FailoverDecision.ObservedMembersAreSeen` | src/core/FailoverDecision.cpp:18-26 | That number is one more than the number of list places whose heartbeat was seen, healthy or not. |
| `FailoverDecision.DecideFailoverAction` | src/core/FailoverDecision.cpp:54-140 | The candidate loop and the branches compute `Decide`, with action, selected master and reason, for every status, peer list and policy. |
| `FailoverDecision.DecisionByRank` | src/core/FailoverDecision.cpp:82-139 | Past the gate the whole decision, with action, selected master and reason, follows from which of this node and the peers that are healthy and were heard ranks highest, who of these is master, and preemption. |
| `FailoverDecision.WantsMasterIff` | src/core/FailoverDecision.cpp:54-140 | A node wants the VIP if and only if it is healthy, the gate is passed, and it is the top of itself and the peers that are healthy and were heard while no master makes it defer, or it is the non-preempted incumbent under a top that is no master. |
| `FailoverDecision.RefusedDecision` | src/core/FailoverDecision.cpp:65-80 | Without quorum a healthy master becomes backup, any other healthy node stays backup, and the reason carries the count and the threshold. |
| `FailoverDecision.DeadPeersDoNotMatter` | src/core/FailoverDecision.cpp:31-48 | Removing every peer that is unhealthy or was not heard changes nothing of the decision, unless it changes whether the gate is passed. |
| `FailoverDecision.ActionIgnoresPeerOrder` | src/core/FailoverDecision.cpp:54-140 | The action depends on which peers are listed and how many are seen, never on their order. |
| `FailoverDecision.ActionFitsState` | src/core/FailoverDecision.cpp:57-139 | EnterFault exactly for an unhealthy node; StayMaster and BecomeBackup only from Master, StayBackup and BecomeMaster only from another state. |
| `FailoverDecision.SelectedMasterIsLive` | src/core/FailoverDecision.cpp:65-140 | A master is named exactly when the node is healthy and quorum is not refused, and it is this node or a live peer. |
| `FailoverDecision.IsolatedNodeDecision` | src/core/FailoverDecision.cpp:65-103 | With no peers the node wants the VIP exactly when quorum is off or a threshold of one suffices. |
| `FailoverDecision.BestBackupClaims` | src/core/FailoverDecision.cpp:86-119 | A healthy node that is no master claims the VIP when the gate is passed, every peer that is healthy and was heard ranks below it, and preemption is on or none of these is master; the other peers may have any priority and state. |
| `FailoverDecision.BetterPeerKeepsBackup` | src/core/FailoverDecision.cpp:86-139 | A healthy backup that sees a live peer of higher priority stays backup, whatever the gate says. |
| `Cluster.MembersSelectTop` | src/core/Election.cpp:7-33 | Every member of a partition block selects the same top-ranked node of the block, in whatever order its peers are listed. |
| `Cluster.RoundOutcome` | src/core/FailoverDecision.cpp:54-140 | For every policy and partition, the exact owners that a block has after a round: nobody without quorum; the top-ranked node with preemption, with no previous master, or when it is itself a master; otherwise the previous masters of the block. |
| `Cluster.AutomaticQuorumIsMajority` | src/core/FailoverDecision.cpp:10-16 | The automatic threshold of an N-node cluster is more than half of N. |
| `Cluster.QuorateBlockIsUnique` | src/core/FailoverDecision.cpp:65-80 | Under a majority threshold at most one block of a partition passes the quorum gate. |
| `Cluster.MajorityRound` | src/core/FailoverDecision.cpp:65-140 | Under a majority threshold the owners of the whole cluster after a round are those of the one quorate block, or nobody. |
| `Cluster.PreemptiveRunSafety` | src/core/FailoverDecision.cpp:65-140 | In every run of any length, over any sequence of partitions, with preemption and a majority threshold: after each round the owner is the top-ranked node of the majority block if there is one, and nobody otherwise. |
| `Cluster.DisplacedMasterReleases` | src/core/FailoverDecision.cpp:65-80 | In such a round every old master that does not stay owner decides BecomeBackup. |
| `Cluster.NonPreemptiveRunSafety` | src/core/FailoverDecision.cpp:105-130 | Without preemption, from at most one owner, every run keeps at most one owner, and each round the owner is the incumbent if it is in the majority block, else the top-ranked node of that block, else nobody. |
| `Cluster.IncumbentLosesOnlyWithItsQuorum` | src/core/FailoverDecision.cpp:105-130 | Without preemption, ownership leaves the incumbent in a round exactly when its block fails the quorum gate. |
| `Cluster.StablePartitionSettlesInOneRound` | src/core/FailoverDecision.cpp:54-140 | For every policy, a second round under an unchanged partition changes no owner: the protocol converges in one round. |
| `Cluster.CompleteViewRound` | src/core/FailoverDecision.cpp:98-139 | With one block and no quorum rule, the exact next master set; masters never drop to none, and of several masters one is shed exactly when preemption is on or the top-ranked node is a master. |
| `Cluster.SplitBrainIff` | src/core/FailoverDecision.cpp:65-130 | For every policy, cluster and set of previous owners: some partition leaves two owners after one round if and only if twice the gate size does not exceed the number of nodes, or preemption is off and a stalemate exists: a node that is no master outranks two masters, and enough nodes to pass the gate rank at or below it. |
| `Cluster.SplitBrainIffQuorumBelowMajority` | src/core/FailoverDecision.cpp:10-16 | With preemption, or from at most one owner, two owners can arise exactly when twice the gate size does not exceed the number of nodes. |
| `Cluster.RoundForPartition` | src/core/FailoverDecision.cpp:54-140 | Every partition of every cluster occurs: peer lists that show each node exactly its block exist. |
| `ClusterRuns.PassFollowsBlock` | src/runtime/DaemonRuntime.cpp:490-519 | A pass of the daemon loop that sees exactly its block and completes wants the VIP if and only if its node is among the owners that the block has after a round. |
| `ClusterRuns.DaemonsMakeRound` | src/runtime/DaemonRuntime.cpp:490-519 | One pass of every daemon, each seeing exactly its block, is a round of the cluster: those that want the VIP are exactly the next owners. |
| `ClusterRuns.HostsFollowRound` | src/runtime/DaemonRuntime.cpp:311-347 | With truthful probes and managers that really act, the hosts that own the VIP after that pass are exactly the next owners. |
| `ClusterRuns.DaemonsClaimOnce` | src/runtime/DaemonRuntime.cpp:490-519 | So under a majority threshold, with preemption or at most one previous owner, no two such daemons want the VIP. |
| `Schedule.DueIffMultipleOfPeriod` | src/runtime/DaemonRuntime.cpp:66-95 | With a positive clock step, pass k is due exactly when k is a multiple of the interval divided by the step, rounded up. |
| `Schedule.StoppedClockIsDueOnce` | src/runtime/DaemonRuntime.cpp:66-95 | With a clock that stands still only pass 0 is due. |
| `HeartbeatLoop.RunHeartbeatLoopOnce` | src/heartbeat/HeartbeatLoop.cpp:7-51 | One send of the local status per configured peer in order, one observation for each, and exactly one receive: a decoded message becomes a seen peer, a parse error replaces the receive error. |
| `HeartbeatLoop.SentIsReceived` | src/heartbeat/HeartbeatLoop.cpp:13-51 | What an exchange hands over goes to each peer's address in order, and an exchange that receives it reports the sender's own id, priority, health and state as a heartbeat seen. |
| `HeartbeatLoop.ExchangeReports` | src/heartbeat/HeartbeatLoop.cpp:22-48 | What the transport answered to each send and to the receive is reported as it is; a datagram that does not parse always counts as a receive error. |
| `DaemonLifecycle.RecordVipOperation` | src/runtime/DaemonRuntime.cpp:17-38 | The operation is always appended; the iteration goes on exactly if it succeeded and is a dry run where one is required, and faults otherwise with the matching detail. |
| `DaemonLifecycle.RunDaemonLifecycleOnce` | src/runtime/DaemonRuntime.cpp:240-348 | The step-by-step iteration computes `Lifecycle`, with all its early returns, for every request and every answer of probe and manager. |
| `DaemonLifecycle.IterationRunsIff` | src/runtime/DaemonRuntime.cpp:256-289 | The iteration runs if and only if the state is no fault, the configuration is valid or prevalidated and no shutdown is requested; otherwise, or without a VIP, it decides nothing and calls nothing. |
| `DaemonLifecycle.FailedProbe` | src/runtime/DaemonRuntime.cpp:294-310 | After a failed probe the iteration faults before any decision or operation; in a dry run it does what it would on a host that does not own the VIP, with ownership unknown. |
| `DaemonLifecycle.ProbeDecides` | src/runtime/DaemonRuntime.cpp:294-314 | Past the probe, the decision taken is the one for this node's status as the probe reports it, under the configured policy. |
| `DaemonLifecycle.FaultIffRejected` | src/runtime/DaemonRuntime.cpp:17-38 | An iteration whose decision is no fault faults if and only if an operation fails, or is real although a dry run is asked for or mutation is not allowed; that operation is the last. |
| `DaemonLifecycle.DetailOfIteration` | src/runtime/DaemonRuntime.cpp:164-178 | Which detail a finished iteration reports: dry run, kept dry by the gate, or real; or what was wrong with its last operation. |
| `DaemonLifecycle.AllAcceptedMeansEach` | src/runtime/DaemonRuntime.cpp:324-344 | Operations stop at the first rejection, so an iteration that goes on had every single one accepted. |
| `DaemonLifecycle.OperationsMatchAction` | src/runtime/DaemonRuntime.cpp:311-347 | In an iteration that completes, BecomeMaster performed exactly Add then Announce, BecomeBackup exactly Remove, Stay actions nothing, all accepted. |
| `DaemonLifecycle.OwnershipFollowsDecision` | src/runtime/DaemonRuntime.cpp:292-347 | With a truthful probe and operations that really act, an iteration that completes leaves the host owning the VIP exactly when its decision wants master. |
| `DaemonLifecycle.DryRunMovesNothing` | src/runtime/DaemonRuntime.cpp:17-38 | An iteration that must be a dry run and does not fault has only dry-run operations and leaves the host as it was. |
| `DaemonLoop.PushObservation` | src/runtime/DaemonRuntime.cpp:41-48 | One push and at most one erase keep exactly the most recent observations of the full history, all of them when the limit is 0. |
| `DaemonLoop.AppendObservations` | src/runtime/DaemonRuntime.cpp:51-57 | Appending one by one keeps the window of the extended history. |
| `DaemonLoop.DaemonLoop.constructor` | src/runtime/DaemonRuntime.cpp:350-407 | A new loop is in the initial state, already over on an early shutdown, an invalid unvalidated config or zero iterations. |
| `DaemonLoop.DaemonLoop.ExpirePeers` | src/runtime/DaemonRuntime.cpp:107-117 | The erasing sweep leaves exactly the entries whose age is strictly below the timeout. |
| `DaemonLoop.DaemonLoop.CollectStatuses` | src/runtime/DaemonRuntime.cpp:119-128 | The visit returns the status of each live peer once, in the order of the ids. |
| `DaemonLoop.DaemonLoop.Heartbeat` | src/runtime/DaemonRuntime.cpp:420-464 | Sweep, exchange when due, fault or remember the peer heard, sweep again: timer, map and receive state are those of `RunBeat`. |
| `DaemonLoop.DaemonLoop.Discovery` | src/runtime/DaemonRuntime.cpp:468-489 | Verified beacons of others enter the roster, a beacon with the next sequence number is signed and sent when due, old entries go. |
| `DaemonLoop.DaemonLoop.CollectPeers` | src/runtime/DaemonRuntime.cpp:490-495 | Heartbeat peers first, then discovered ones, nothing removed. |
| `DaemonLoop.DaemonLoop.AbsorbLifecycle` | src/runtime/DaemonRuntime.cpp:516-548 | Which records a finished lifecycle call adds, and what it changes of local status, health schedule and iteration count. |
| `DaemonLoop.DaemonLoop.Iterate` | src/runtime/DaemonRuntime.cpp:409-573 | One pass over the mutable state is one step of the state machine, for every state and every answer of the environment, and the bounded records stay windows of the full history. |
| `DaemonLoop.DaemonLoop.Run` | src/runtime/DaemonRuntime.cpp:350-576 | The whole loop reaches, over any sequence of inputs, the state that the machine reaches. |
| `DaemonLoop.OverIsOver` | src/runtime/DaemonRuntime.cpp:409-576 | Once the loop has returned nothing changes any more. |
| `PassOutcomes.TransportFaultIff` | src/runtime/DaemonRuntime.cpp:443-456 | A heartbeat exchange faults if and only if it is due, the run is no dry run and may mutate, and some send was not sent or has an error, or the receive has an error or a datagram that does not parse. |
| `PassOutcomes.TransportFaultStopsLoop` | src/runtime/DaemonRuntime.cpp:445-456 | In any state of the loop such a pass ends it as faulted: the exchange is recorded, and nothing is added to VIP operations, decisions, broadcasts or health checks. |
| `PassOutcomes.TransportFaultEndsRun` | src/runtime/DaemonRuntime.cpp:445-456 | The same over runs, for every later pass. |
| `PassOutcomes.RunHadCleanTransport` | src/runtime/DaemonRuntime.cpp:216-222 | As long as a run that may really mutate goes on, no exchange of it has failed. |
| `PassOutcomes.FailedProbeStopsLoop` | src/runtime/DaemonRuntime.cpp:297-304 | Outside dry runs a pass whose probe fails ends the loop as faulted without a decision or an operation, whatever the manager would answer. |
| `PassOutcomes.FailedProbeAddsNothingReal` | src/runtime/DaemonRuntime.cpp:297-310 | No pass of any run whose probe failed adds a real operation to the log, unless a manager really acts in a dry run, which ends the loop as faulted; outside dry runs it adds no operation at all. |
| `PassOutcomes.OnlyRealMutationMoves` | src/runtime/DaemonRuntime.cpp:291-292 | A dry run, or a run that may not mutate, has no real operation in its log and leaves the VIP where it was, as long as it goes on. |
| `PassOutcomes.LoopStartsIff` | src/runtime/DaemonRuntime.cpp:370-411 | A first pass is made if and only if there is no shutdown, the configuration is valid or prevalidated, and the limit is not 0. |
| `PassOutcomes.LimitStopsLoopIff` | src/runtime/DaemonRuntime.cpp:556-565 | In every run a pass without shutdown or fault ends the loop if and only if it is the last that the limit allows. |
| `PassOutcomes.ShutdownStopsLoop` | src/runtime/DaemonRuntime.cpp:413-418 | A shutdown seen at the top of a pass ends the loop there and changes nothing else. |
| `PassOutcomes.ShutdownInLifecycleIsIdle` | src/runtime/DaemonRuntime.cpp:270-275 | A shutdown seen only inside the lifecycle costs the pass its iteration: clock, status and records stay as they are. |
| `DaemonRuns.ClockAndTimers` | src/runtime/DaemonRuntime.cpp:409-573 | In every uninterrupted run, before pass k the index and iteration count are k, the clock is k steps, and the three timers are those of k evaluations. |
| `PassOutcomes.ClockFollowsOptions` | src/runtime/DaemonRuntime.cpp:204-209 | The step is the logical step if it is positive, else the delay between passes if that is, else 0. |
| `DaemonRuns.SchedulesInClosedForm` | src/runtime/DaemonRuntime.cpp:66-95 | Heartbeats, health checks and beacons are due in pass k exactly when k is a multiple of the rounded-up quotient of interval and step. |
| `RunRecords.RecordsInClosedForm` | src/runtime/DaemonRuntime.cpp:521-551 | In every uninterrupted run each pass has left one entry in each schedule, receive and decision record, numbered and timed; each due pass has sent one heartbeat per peer, each due beacon was broadcast once, and nothing else was sent. |
| `RunRecords.RecordedDecisionIsTaken` | src/runtime/DaemonRuntime.cpp:187-202 | The decision that the loop evaluates a second time for its record is the one the lifecycle took; without a VIP one is recorded although none was taken. |
| `DaemonRuns.WarmupTakesOnePass` | src/runtime/DaemonRuntime.cpp:497-502 | In a real-mutation run the warmup flag is off before pass 0 and on before every later pass. |
| `PassOutcomes.WarmupIff` | src/runtime/DaemonRuntime.cpp:497-503 | A pass that the loop survives ends the warmup if and only if real mutation is requested and heartbeats were due. |
| `DaemonRuns.GateIsShutInFirstPassOnly` | src/runtime/DaemonRuntime.cpp:497-512 | The lifecycle is told to require dry runs in pass 0 and in no later pass. |
| `DaemonRuns.FirstPassIsDry` | src/runtime/DaemonRuntime.cpp:497-519 | A real-mutation run whose pass 0 does not fault performed only dry runs there and moved nothing. |
| `DaemonRuns.RealManagerSurvivesWarmupIffIdle` | src/runtime/DaemonRuntime.cpp:17-38 | With a manager that really mutates, pass 0 faults exactly when its decision calls for an operation: the gate detects such a manager, it does not prevent the call. |
| `DaemonRuns.FavourableRunGoesOn` | src/runtime/DaemonRuntime.cpp:409-573 | Progress: without shutdowns, limits, transport errors or probe failures, and with a manager that obliges or is not called, every pass of every run completes and the loop goes on. |
| `DaemonRuns.OwnershipTracksDecision` | src/runtime/DaemonRuntime.cpp:311-347 | In every run, after each pass that completes with an honest platform the host owns the VIP exactly when the decision of that pass wants master. |
| `DaemonRuns.OperationLogAlternates` | src/runtime/DaemonRuntime.cpp:516-519 | Over every run whose probe is truthful and whose manager in each pass really acts or only pretends to, dry warmup passes included, the real Add/Announce pairs and Removes strictly alternate, and their end tells who owns the VIP. |
| `ExampleRuns.RealTakeover` | src/runtime/DaemonRuntime.cpp:497-519 | Such a run: one manager that really acts in every pass, an idle warmup pass, real operations when the gate opens, and the host ends up owning the VIP. |
| `PeerHistory.BeatUpdatesMap` | src/runtime/DaemonRuntime.cpp:420-464 | After a pass the map holds the peer just heard, and otherwise exactly the previous entries younger than the timeout, unchanged. |
| `PeerLinks.OwnStatusIs` | src/runtime/DaemonRuntime.cpp:521-522 | In every run the status that goes out is this node's own, healthy, and master exactly if the latest pass that ran found it the owner. |
| `PeerLinks.HeartbeatArrives` | src/runtime/DaemonRuntime.cpp:443-463 | From run to run: if what one daemon's pass hands over is what another daemon's due pass receives, and the sender is configured there, then that daemon keeps and decides on the sender's status, master exactly if the sender's latest pass that ran found it the owner. |
| `PeerHistory.PeerMapRefinesHistory` | src/runtime/DaemonRuntime.cpp:456-464 | At each decision the map holds, for every id, exactly the status of the last valid heartbeat of that configured peer, if it is younger than the timeout. |
| `PeerHistory.LivePeersAreConfigured` | src/runtime/DaemonRuntime.cpp:102-128 | Every live entry is a configured id, kept under its own node id and counted as seen. |
| `PeerHistory.LivePeerBound` | src/heartbeat/HeartbeatLoop.cpp:27-50 | At most one peer is refreshed per due pass, so no more than the timeout divided by the effective heartbeat period, rounded up, are ever live. |
| `PeerHistory.SilenceEmptiesMap` | src/runtime/DaemonRuntime.cpp:107-117 | Once the last heartbeat is a timeout old, rounded up to passes, no peer is live. |
| `PeerHistory.FailoverOrFencing` | src/runtime/DaemonRuntime.cpp:107-117 | From that pass on, every pass that completes leaves the host owning the VIP exactly if a lone node satisfies the quorum rule: bounded failover, or bounded self-fencing. |
| `QuorumRuns.PeersAreLiveThenDiscovered` | src/runtime/DaemonRuntime.cpp:490-495 | The list that the decision of a pass receives is the live heartbeat peers followed by the discovered ones, which are none without discovery. |
| `QuorumRuns.RefusedPassNeverWantsMaster` | src/core/FailoverDecision.cpp:65-80 | A pass whose list the gate refuses never completes wanting the VIP. |
| `QuorumRuns.ObservedCountIsSound` | src/core/FailoverDecision.cpp:18-26 | Without discovery, in every reachable state the gate counts one plus the live peers, and never more than the cluster size. |
| `QuorumRuns.GateCountsEveryEntry` | src/runtime/DaemonRuntime.cpp:490-495 | With discovery it counts one, plus every live heartbeat peer, plus every active roster entry. |
| `QuorumRuns.CountIsRightIffNobodyCountedTwice` | src/runtime/DaemonRuntime.cpp:490-495 | In every reachable state, with discovery or without, the count is the number of nodes the pass has word of if and only if no discovered node is named twice, is live by heartbeat too or is this node, and no live peer is this node; otherwise it is too high. |
| `QuorumRuns.CountIsMembersIff` | src/runtime/DaemonRuntime.cpp:180-185 | In every reachable state the gate counts the cluster members that the pass has word of, each once, if and only if nobody is counted twice and no stranger is listed; otherwise it counts more. |
| `QuorumRuns.HeartbeatsCountRight` | src/runtime/DaemonRuntime.cpp:102-128 | Without discovery and with distinct ids that condition always holds, and only configured nodes are listed. |
| `QuorumRuns.DisjointViewsNeverBothPass` | src/core/FailoverDecision.cpp:65-80 | Two nodes in any reachable states, with discovery or without, that have word of disjoint node sets never both pass the gate nor both want the VIP, when their thresholds add up to more than the cluster, nobody is counted twice and only members are listed. |
| `QuorumRuns.DisjointHeartbeatViewsNeverBothPass` | src/core/FailoverDecision.cpp:65-80 | Without discovery the last two conditions are always met. |
| `QuorumRuns.AutomaticThresholdsOverlap` | src/core/FailoverDecision.cpp:10-16 | Automatic thresholds always add up to more than the cluster. |
| `QuorumRuns.LoneNodeNeedsExplicitQuorumOfOne` | src/core/FailoverDecision.cpp:10-16 | Under the automatic threshold a lone node satisfies the rule only if no peer is configured. |
| `QuorumReach.LiveLimitHolds` | src/heartbeat/HeartbeatLoop.cpp:27-50 | No run has more live peers than the smaller of the peer count and the rounded-up quotient of timeout and effective period, and the gate counts exactly one more than the live peers. |
| `QuorumReach.LiveLimitIsAttained` | src/heartbeat/HeartbeatLoop.cpp:27-50 | For every runnable configuration some run, with one manager whose dry-run option is fixed, completes a pass with exactly that many live peers. |
| `TurnRuns.HeardInTurn` | src/heartbeat/HeartbeatLoop.cpp:27-50 | In the runs that show it, exactly the first pass of a turn hears the peer whose turn it is. |
| `QuorumReach.QuorumIsReachableIff` | src/runtime/DaemonRuntime.cpp:420-464 | A runnable daemon without discovery can ever pass its own quorum gate if and only if its threshold is at most one more than that limit. |
| `QuorumReach.LargeClusterIsRefused` | src/runtime/DaemonRuntime.cpp:420-464 | Beyond the limit every pass of every run is refused and none that completes wants the VIP, however healthy the cluster. |
| `QuorumReach.BothCanClaimUnheardIff` | src/core/FailoverDecision.cpp:65-80 | Two runnable heartbeat-only daemons of one cluster can both want the VIP without having word of each other if and only if each threshold is at most one more than the peers that can be live besides the other; a majority threshold does not rule it out. |
| `QuorumReach.AutomaticThresholdUnheard` | src/core/FailoverDecision.cpp:10-16 | The automatic threshold is met that way exactly in clusters of at least three whose timeout leaves time to hear enough peers. |
| `QuorumReach.GatheringTakesVip` | src/runtime/DaemonRuntime.cpp:311-347 | Such a claim by a daemon that may really act, with a fixed manager and a truthful probe: every earlier pass is idle and the VIP moves to the host with real operations. |
| `ExampleRuns.OnePeerCountedTwicePassesGate` | src/runtime/DaemonRuntime.cpp:490-495 | A run that fails: one peer heard by heartbeat and by beacon makes two of five nodes a majority, and the host takes the VIP with real operations. |
| `ExampleRuns.OwnNamePassesGate` | src/runtime/DaemonRuntime.cpp:466-495 | A run that fails: a beacon of a foreign MAC that names this node makes it a majority of three alone, and the host takes the VIP. |
| `ExampleRuns.StrangersMakeTwoMasters` | src/runtime/DaemonRuntime.cpp:180-185 | Two runs that fail: two nodes of a cluster of three, each with word of a different unconfigured node only, both take the VIP with real operations, though nobody is counted twice and their views are disjoint. |
| `PeerTables.PeerTable.Observe` | src/discovery/PeerTable.cpp:9-15 | The entry of the beacon's identity becomes this beacon at this time; a beacon without identity changes nothing. |
| `PeerTables.PeerTable.ActivePeers` | src/discovery/PeerTable.cpp:17-31 | The visit lists each entry that is not this node and not older than the timeout once. |
| `PeerTables.PeerTable.Prune` | src/discovery/PeerTable.cpp:33-41 | The erasing sweep leaves exactly the entries not older than the timeout. |
| `PeerTables.TableTracksLog` | src/discovery/PeerTable.cpp:5-41 | After any log of observations and prunings in order of time, an entry is the latest observation of its identity, and a missing one was never observed or is too old. |
| `PeerTables.ActivePeersRefineLog` | src/discovery/PeerTable.cpp:17-31 | The active peers are exactly the latest fresh beacon of each identity other than this node. |
| `PeerTables.ActivePeersCount` | src/discovery/PeerTable.cpp:17-31 | As a multiset: each status is listed once per identity that the log reports as it. |
| `PeerTables.PruneIsInvisible` | src/discovery/PeerTable.cpp:33-41 | Pruning changes no answer given at that time or later. |
| `DiscoveryRuns.RosterReplaysLog` | src/runtime/DaemonRuntime.cpp:468-489 | In every run the roster is what replaying all verified foreign beacons and prunings of the earlier passes leaves. |
| `DiscoveryRuns.DiscoveredPeersRefineHistory` | src/runtime/DaemonRuntime.cpp:466-495 | At each decision the discovered peers are exactly the latest verified beacon of each foreign identity heard so far, if not older than the timeout, listed after the heartbeat peers. |
| `DiscoveryRuns.BroadcastsAreNumbered` | src/runtime/DaemonRuntime.cpp:477-488 | In every run, its last pass included, the beacons sent are this node's own, signed, with its id and priority, and numbered 1, 2, 3 and so on modulo 2^64. |
| `DiscoveryRuns.BroadcastsAreTakenIn` | src/runtime/DaemonRuntime.cpp:224-236 | From one daemon to another of the same cluster and secret: each beacon sent is taken in as what it is if and only if the sender's strings hold no newline, it has an identity, and the receiver has another one. |
| `PeerLinks.BeaconArrives` | src/runtime/DaemonRuntime.cpp:466-495 | The same by beacon: a broadcast that another daemon of the cluster drains last in a pass is a discovered peer of that pass with that status. |
| `DiscoveryRuns.OwnBroadcastIsIgnored` | src/runtime/DaemonRuntime.cpp:472-475 | A beacon of its own that comes back is never taken in by a daemon with an identity. |
| `Decimal.FromCharsUndoesToString` | src/discovery/Beacon.cpp:46-80 | Reading the decimal text of any integer in range back gives that integer, whatever the variable held before. |
| `Decimal.FromCharsReads` | src/discovery/Beacon.cpp:75-78 | Reading stops at the first character that is no digit, and a number out of range leaves the variable as it was. |
| `Decimal.NoDigitsNoChange` | src/discovery/Beacon.cpp:75-78 | So does a text that begins with no digit, after a minus sign for signed types. |
| `Beacons.ParseFields` | src/discovery/Beacon.cpp:46-80 | The position-walking loop computes the fields of the block and the beacon made of them. |
| `Beacons.FieldsAreFirstLines` | src/discovery/Beacon.cpp:46-67 | For any block at all: a field is the rest of the first line that begins with its name and an equals sign, and empty when there is none. |
| `Beacons.ParseUndoesSerialize` | src/discovery/Beacon.cpp:31-80 | Parsing the serialized fields of any beacon gives that beacon if and only if none of its strings holds a newline; values may contain `=`, priorities may be negative. |
| `Beacons.SerializeIsInjective` | src/discovery/Beacon.cpp:31-43 | Two such beacons with the same field block are equal, so a signature covers the whole beacon. |
| `Beacons.SerializedText` | src/discovery/Beacon.cpp:31-43 | The field block of every beacon, line by line, with the names of the states. |
| `Beacons.StateRoundTrip` | src/discovery/Beacon.cpp:16-29 | Printing and parsing a node state gives it back; any other text reads as backup. |
| `Beacons.VerifySignedBeacon` | src/discovery/Beacon.cpp:95-125 | The trimming and comparing steps compute `Verify`, with the first matching rejection, for every wire text. |
| `Beacons.VerifiedIffAcceptable` | src/discovery/Beacon.cpp:95-125 | A wire text is accepted as a beacon if and only if it splits into a block and its own signature, with at most one final newline, and the block has the version, the cluster and an identity. |
| `Beacons.UnsignedIsRejected` | src/discovery/Beacon.cpp:95-112 | The signature is missing exactly when no line begins with `sig=` after the first, and mismatches exactly when there is one but no block that it signs; nothing else is looked at before. |
| `Beacons.OtherVersionIsRejected` | src/discovery/Beacon.cpp:82-115 | A correctly signed block that does not begin with the version line is refused as of another version. |
| `Beacons.BeaconRoundTrip` | src/discovery/Beacon.cpp:89-125 | Verifying what was signed, with the same secret and cluster, gives back the same beacon if and only if its strings hold no newline and it has an identity; any other cluster rejects it then. |
| `Sha256Loops.Sha256Ctx.Transform` | src/discovery/Hmac.cpp:30-65 | Message schedule and rotating variables update the eight words to the compression of section 6.2.2 of FIPS 180-4. |
| `Sha256Loops.TailCompletesPadding` | src/discovery/Hmac.cpp:75-92 | Full blocks plus the one- or two-block tail are the padded message of section 5.1.1 of FIPS 180-4. |
| `Sha256Loops.PaddedTail` | src/discovery/Hmac.cpp:75-84 | The tail buffer written in place is that tail. |
| `Sha256Loops.Sha256Raw` | src/discovery/Hmac.cpp:67-97 | The blockwise loop and the byte-writing loop return the SHA-256 digest of FIPS 180-4 of every message. |
| `Fips180.RoundConstantsAreCubeRoots` | src/discovery/Hmac.cpp:12-20 | Each round constant is the first 32 bits of the fractional part of the cube root of the prime at its place, as section 4.2.2 of FIPS 180-4 has it. |
| `Fips180.InitialIsSquareRoots` | src/discovery/Hmac.cpp:27-28 | The initial hash value comes from the square roots of the first eight primes: section 5.3.3. |
| `Fips180.PaddingIsInjective` | src/discovery/Hmac.cpp:75-84 | Different messages shorter than 2^61 bytes are padded differently. |
| `Hmac.KeyBlock` | src/discovery/Hmac.cpp:116-127 | Keys longer than a block are hashed, all are filled up with zeros: section 2 of RFC 2104. |
| `Hmac.HmacSha256Hex` | src/discovery/Hmac.cpp:116-143 | The loops compute the hexadecimal HMAC-SHA-256 of RFC 2104 for every key and message. |
| `Hmac.ToHex` | src/discovery/Hmac.cpp:99-108 | Two lower-case digits per byte, high one first. |
| `Hmac.HexAt` | src/discovery/Hmac.cpp:99-108 | Byte by byte: the digits of the high and the low half, from `0123456789abcdef`. |
| `Hmac.HexIsInjective` | src/discovery/Hmac.cpp:99-108 | Different byte strings print differently. |
| `Hmac.ConstantTimeEquals` | src/discovery/Hmac.cpp:145-153 | Accepts exactly equal bytes over the shorter length and lengths equal modulo 2^32. |
| `Hmac.FoldedEqualIsEquality` | src/discovery/Hmac.cpp:145-153 | That is equality for all strings shorter than 2^32 bytes. |
| `Hmac.LongStringComparesEqualToPrefix` | src/discovery/Hmac.cpp:145-153 | It is not for longer ones: 2^32 more bytes compare equal to the prefix. |
| `JsonStrings.JsonString` | src/api/LocalApi.cpp:68-108 | The printing loop gives the quoted, escaped text. |
| `JsonStrings.EscapedIsClean` | src/api/LocalApi.cpp:68-108 | Printed text has no control byte, and every quote in it follows a backslash. |
| `JsonStrings.ControlsAreNumbered` | src/api/LocalApi.cpp:68-108 | Control characters without a short escape are printed as `\u00` and two lower-case digits. |
| `JsonStrings.OthersArePrinted` | src/api/LocalApi.cpp:68-108 | Characters with a short escape are printed by it, all others that are no control as they are. |
| `JsonStrings.PrintedTextIsJson` | src/api/LocalApi.cpp:68-108 | Between its quotes, printed text is a character sequence of section 7 of RFC 8259, for every text. |
| `JsonStrings.ParseJsonStringValue` | src/api/LocalApi.cpp:201-297 | The search and the decoding loop compute the value of the key, or the empty string for every malformed body. |
| `JsonStrings.ValueAfterKey` | src/api/LocalApi.cpp:203-219 | Where the key occurs first, the text after the next colon is its value, with any of the four JSON blanks in between. |
| `JsonStrings.NoQuoteNoValue` | src/api/LocalApi.cpp:213-218 | If anything but a quote follows there, the key has no value. |
| `JsonStrings.NibbleIsPosition` | src/api/LocalApi.cpp:260-271 | The value of a hexadecimal digit is its position in `0123456789abcdef` or in `0123456789ABCDEF`; no other character is one. |
| `JsonStrings.ShortEscapesAreRead` | src/api/LocalApi.cpp:233-254 | Each of the eight short escapes is read as the character that section 7 of RFC 8259 gives it, and besides `\u` no other is accepted. |
| `JsonStrings.DecodeUndoesEscaped` | src/api/LocalApi.cpp:223-297 | Decoding the escaped form of any text, up to its closing quote, gives the text, whatever follows. |
| `JsonStrings.FormatFirstRoundTrip` | src/api/LocalApi.cpp:201-297 | From an object with the format first, parsing gives back exactly the configuration text and the format, for every text. |
| `JsonStrings.ConfigFirstRoundTrip` | src/api/LocalApi.cpp:201-297 | The same with the configuration first: no text in it can be taken for the format key in a way that changes the result. |
| `JsonStrings.FormatKeyComesLate` | src/api/LocalApi.cpp:201-215 | The search for the format key never stops inside the configuration text, at most on its last seven bytes with the closing quote. |
| `JsonStrings.Utf8IsTheEncoding` | src/api/LocalApi.cpp:279-288 | The bytes written for a code point are its UTF-8 encoding under sections 3 and 4 of RFC 3629, and no other bytes are. |
| `JsonStrings.UnicodeEscapesAreUtf8` | src/api/LocalApi.cpp:255-290 | A text after `\u` is read as a character if and only if its next four characters are hexadecimal digits of either case that spell it and it is no surrogate; its bytes are then the UTF-8 encoding of that character. |
| `JsonStrings.JsonTextIsReadIffNoSurrogate` | src/api/LocalApi.cpp:221-297 | Every character sequence of section 7 of RFC 8259 is accepted if and only if none of its escapes names a surrogate. |
| `JsonStrings.DecodeGoesOn` | src/api/LocalApi.cpp:221-297 | Decoding is a homomorphism: what follows a decoded text is decoded as it would be alone. |
| `ApiToken.ParseBearerToken` | src/api/LocalApi.cpp:589-616 | Scheme in any case, one space, blanks trimmed on both sides, nothing else accepted. |
| `ApiToken.BearerHeaderIff` | src/api/LocalApi.cpp:589-616 | A header carries a token if and only if it is `bearer` in any mixture of cases, one space, and that token with blanks around it. |
| `ApiToken.PresentedTokenArrivesIffTrimmed` | src/api/LocalApi.cpp:569-616 | A token presented after `Bearer ` is read back exactly if it is not empty and neither begins nor ends with a blank. |
| `ApiToken.ConstantTimeTokenEquals` | src/api/LocalApi.cpp:554-567 | Accepts exactly the expected bytes in front and lengths equal modulo 2^32. |
| `ApiToken.TokenAcceptedIsEquality` | src/api/LocalApi.cpp:554-567 | That is equality for tokens shorter than 2^32 bytes. |
| `ApiToken.LongTokenIsAccepted` | src/api/LocalApi.cpp:554-567 | It is not for longer ones: the expected token followed by 2^32 more bytes is accepted too. |
| `ConfigFile.FileSystem.WriteAll` | src/api/LocalApi.cpp:513-528 | The write loop leaves exactly the part of the text that the answers accepted, in order and without gaps. |
| `ConfigFile.FileSystem.AtomicWriteConfigWithBackup` | src/api/LocalApi.cpp:477-550 | The sequence of calls computes `Persist` for every script of answers, including those that kill the process at any call. |
| `ConfigFile.PersistIsAllOrNothing` | src/api/LocalApi.cpp:473-550 | Wherever the run stops, the target is the old file or the complete new one; success means the new one, reported failure the old one. |
| `ConfigFile.PowerLossIsAllOrNothing` | src/api/LocalApi.cpp:530-547 | After a power loss at any point, what is read is something that could have been read before, or the complete new text. |
| `ConfigFile.SyncedSuccessIsFinal` | src/api/LocalApi.cpp:537-549 | After a success whose directory sync worked, a power loss leaves the new text and nothing else. |
| `ConfigFile.FailureCleansUp` | src/api/LocalApi.cpp:488-528 | A reported failure leaves no temporary file that could be removed, and as the backup the old one or the first part of the text to be replaced. |
| `ConfigFile.BackupHoldsReplacedText` | src/api/LocalApi.cpp:488-494 | After a success the backup holds the replaced text exactly if the existence check was answered or the backup held that text before; a backup just made is not flushed. |
| `ConfigFile.ShortWritesAddUp` | src/api/LocalApi.cpp:513-528 | The write loop completes if and only if some failure-free prefix of the answers adds up to the whole text, whatever the interruptions. |
| `ConfigFile.PersistSucceedsIff` | src/api/LocalApi.cpp:477-550 | Success exactly when every call that matters succeeds and the process survives to the end; the directory sync may fail. |
| `ConfigApply.BuildLocalApiConfigApplyResult` | src/api/LocalApi.cpp:815-910 | The branch chain and its file effect compute `Apply`. |
| `ConfigApply.WritesIff` | src/api/LocalApi.cpp:815-884 | A request reaches the disk with a text if and only if it presents the token, is at most 1 MiB, names the format toml, and carries that text, which is not empty, loads and validates, and a path is configured. |
| `ConfigApply.RefusalIff` | src/api/LocalApi.cpp:835-880 | Which refusal a request with the token gets: too large, fields missing, format unknown, not loadable, not valid, in that order. |
| `ConfigApply.UnauthenticatedBodyIsIgnored` | src/api/LocalApi.cpp:819-833 | Without the token the reply is 401 if no token is presented and 403 otherwise, and it is the same for every body. |
| `ConfigApply.StatusOfReply` | src/api/LocalApi.cpp:796-910 | The HTTP status of every reply, from the request: 401, 403, 400, 200 or 500. |
| `ConfigApply.ApplyIsAllOrNothing` | src/api/LocalApi.cpp:815-910 | For every request, script and disk: the target is the old file or the complete text of the request, new exactly under the reply Applied, old under every other reply. |
| `ConfigApply.AppliedIff` | src/api/LocalApi.cpp:884-910 | The reply is Applied exactly when the request is one to write and the file protocol succeeds. |
| `ConfigApply.ClientTextReachesDisk` | src/api/LocalApi.cpp:815-910 | End to end: the text a client prints into either form of the body is, byte for byte, what the file holds once the reply says Applied. |

## Left out

- TOML parsing and printing (configuration and heartbeat payloads): library code; heartbeats are decoded records or parse errors (whose texts are never empty, src/heartbeat/HeartbeatMessage.cpp:34-36), and `ConfigApply` takes the loader and validator as a function.
- `Config::validate` beyond the fields the loop reads, and the texts of its errors.
- Sockets, endpoint parsing, process execution, health commands, interface lookup: the environment's answers.
- `LinuxVipManager` and the other platform backends: answers of the VIP manager. Whether an operation is a dry run is part of the answer.
- Real time, thread scheduling and signal delivery: a shutdown is seen at the top of a pass or inside the lifecycle, as the input says.
- HTTP parsing and serving, status and event builders, audit text, log formatting, onboarding, dashboard, packaging: only easy members.
- Human-readable reasons and details: one constructor for each text; the texts themselves are not modelled.
- The result observer of the loop and the recorded validation errors.
- Widths of `int`, `std::int64_t` clocks and counters: unbounded here, except the beacon sequence number, the 32-bit words of SHA-256, the 64-bit message length and the lengths folded by the comparisons.
- The unhealthy branch in runs: the loop never reports itself unhealthy, and EnterFault returns before any VIP operation, so no claim is made that an unhealthy owner releases the VIP.
- When the views of N loops become complete: a loop refreshes one peer per due cycle, so its view of a block is complete only after several cycles. `ClusterRuns` says what passes with complete views do, not when they come about.
- HeartbeatLoop.RunHeartbeatLoopOnce: the message is handed over as a record, because its TOML text is library code; the parser's own refusals (an empty id, a priority that is not positive, which no valid configuration has) are parse errors of the environment.
- PeerTables.PeerTable.ActivePeers: visits in key order, because the order of `std::unordered_map` is unspecified; `PeerTables.ActivePeersCount` states the result as a multiset, free of order.
- DaemonLoop.DaemonLoop.ExpirePeers: visits in key order like `std::map`; iterator validity is not modelled.
- JsonStrings.ParseJsonStringValue: shifts and masks on code points are written as the divisions and remainders they compute; `std::string_view::find` is a function.
- ApiToken.ParseBearerToken: `std::tolower` in the C locale; running time is not modelled for either comparison.
- ConfigFile.FileSystem.AtomicWriteConfigWithBackup: the random name of the temporary file is taken to be unused, `close` has no effect, and a directory that cannot be opened counts as one that is not synced.
- ConfigFile.BackupHoldsReplacedText: about the running system only; nothing is claimed of the backup after a power loss, because the code does not flush it.
