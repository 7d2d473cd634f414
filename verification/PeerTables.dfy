/** The discovery roster: src/discovery/PeerTable.cpp. */
module PeerTables {
  import opened Text
  import opened FailoverDecision
  import opened Beacons
  import opened KeyOrder

  datatype Entry = Entry(beacon: Beacon, lastSeenMs: int)

  type Roster = map<string, Entry>

  /** The MAC, or the node id when there is none. */
  function IdentityOf(b: Beacon): string { if b.mac != "" then b.mac else b.nodeId }

  function Observed(r: Roster, b: Beacon, nowMs: int): Roster {
    if IdentityOf(b) == "" then r else r[IdentityOf(b) := Entry(b, nowMs)]
  }

  predicate Fresh(e: Entry, nowMs: int, timeoutMs: int) { nowMs - e.lastSeenMs <= timeoutMs }

  function Pruned(r: Roster, nowMs: int, timeoutMs: int): Roster {
    map id | id in r && Fresh(r[id], nowMs, timeoutMs) :: r[id]
  }

  predicate IsSelf(id: string, self: string) { self != "" && id == self }

  /** What each active peer is reported as, by identity. */
  function ActiveStatuses(r: Roster, nowMs: int, timeoutMs: int, self: string): map<string, PeerStatus> {
    map id | id in r && !IsSelf(id, self) && Fresh(r[id], nowMs, timeoutMs) :: PeerStatusFromBeacon(r[id].beacon)
  }

  function ActivePeersOf(r: Roster, nowMs: int, timeoutMs: int, self: string): seq<PeerStatus> {
    Values(ActiveStatuses(r, nowMs, timeoutMs, self))
  }

  class PeerTable {
    var entries: Roster

    constructor ()
      ensures entries == map[]
    {
      entries := map[];
    }

    method Observe(b: Beacon, nowMs: int)
      modifies this
      ensures entries == Observed(old(entries), b, nowMs)
    {
      var key := IdentityOf(b);
      if key == "" { return; }
      entries := entries[key := Entry(b, nowMs)];
    }

    /** Visits every entry, skipping this node itself and entries that are too old. */
    method ActivePeers(nowMs: int, timeoutMs: int, self: string) returns (peers: seq<PeerStatus>)
      ensures peers == ActivePeersOf(entries, nowMs, timeoutMs, self)
    {
      hide ActivePeersOf, IsLeast, PeerStatusFromBeacon;
      peers := [];
      var rest := entries;
      while rest != map[]
        invariant peers + ActivePeersOf(rest, nowMs, timeoutMs, self) == ActivePeersOf(entries, nowMs, timeoutMs, self)
        decreases |rest|
      {
        var key := Least(rest.Keys);
        LeastIsKey(rest.Keys);
        var entry := rest[key];
        SkipOrTake(rest, nowMs, timeoutMs, self);
        rest := rest - {key};
        if IsSelf(key, self) { continue; }
        if nowMs - entry.lastSeenMs > timeoutMs { continue; }
        peers := peers + [PeerStatusFromBeacon(entry.beacon)];
      }
      NobodyActive(nowMs, timeoutMs, self);
    }

    /** Erases the entries that are too old, one visit per entry. */
    method Prune(nowMs: int, timeoutMs: int)
      modifies this
      ensures entries == Pruned(old(entries), nowMs, timeoutMs)
    {
      var unvisited := entries.Keys;
      while unvisited != {}
        invariant unvisited <= old(entries.Keys)
        invariant entries == map id | id in old(entries) && (id in unvisited || Fresh(old(entries)[id], nowMs, timeoutMs)) :: old(entries)[id]
        decreases |unvisited|
      {
        var key := Least(unvisited);
        unvisited := unvisited - {key};
        if nowMs - entries[key].lastSeenMs > timeoutMs {
          entries := entries - {key};
        }
      }
    }
  }

  lemma NobodyActive(nowMs: int, timeoutMs: int, self: string)
    ensures ActivePeersOf(map[], nowMs, timeoutMs, self) == []
  {
    assert ActiveStatuses(map[], nowMs, timeoutMs, self) == map[];
  }

  lemma SkipOrTake(r: Roster, nowMs: int, timeoutMs: int, self: string)
    requires r != map[]
    ensures var key := Least(r.Keys);
      ActivePeersOf(r, nowMs, timeoutMs, self) ==
        (if !IsSelf(key, self) && Fresh(r[key], nowMs, timeoutMs) then [PeerStatusFromBeacon(r[key].beacon)] else [])
        + ActivePeersOf(r - {key}, nowMs, timeoutMs, self)
  {
    hide Values, Fresh, IsSelf, IsLeast, PeerStatusFromBeacon, Less;
    var key := Least(r.Keys);
    LeastIsKey(r.Keys);
    var all, rest := ActiveStatuses(r, nowMs, timeoutMs, self), ActiveStatuses(r - {key}, nowMs, timeoutMs, self);
    assert rest == all - {key};
    if key in all {
      LeastOfSubset(all.Keys, r.Keys);
      FirstValue(all);
    } else {
      assert all - {key} == all;
    }
  }

  // ---------------------------------------------------------------- the table against a log

  datatype Event = ObserveEvent(beacon: Beacon, atMs: int) | PruneEvent(atMs: int)

  /** The table after a log of observations and prunings, all with one timeout. */
  function Replay(log: seq<Event>, timeoutMs: int): Roster {
    if log == [] then map[]
    else
      var before := Replay(log[..|log| - 1], timeoutMs);
      match log[|log| - 1]
      case ObserveEvent(b, t) => Observed(before, b, t)
      case PruneEvent(t) => Pruned(before, t, timeoutMs)
  }

  /** The latest observation of an identity in the log; prunings are ignored. */
  function Latest(log: seq<Event>, id: string): Option<Entry> {
    if log == [] then None
    else
      match log[|log| - 1]
      case ObserveEvent(b, t) =>
        if IdentityOf(b) == id then Some(Entry(b, t)) else Latest(log[..|log| - 1], id)
      case PruneEvent(_) => Latest(log[..|log| - 1], id)
  }

  /** Times never go back, and none is after `nowMs`. */
  predicate Chronological(log: seq<Event>, nowMs: int) {
    && (forall i, j :: 0 <= i < j < |log| ==> log[i].atMs <= log[j].atMs)
    && (forall i :: 0 <= i < |log| ==> log[i].atMs <= nowMs)
  }

  lemma {:induction false} TableTracksLog(log: seq<Event>, timeoutMs: int, nowMs: int, id: string)
    requires Chronological(log, nowMs) && id != ""
    ensures var r := Replay(log, timeoutMs);
      && (id in r ==> Latest(log, id) == Some(r[id]))
      && (id !in r ==> Latest(log, id).None? || nowMs - Latest(log, id).value.lastSeenMs > timeoutMs)
  {
    if log != [] {
      var front, last := log[..|log| - 1], log[|log| - 1];
      TableTracksLog(front, timeoutMs, last.atMs, id);
    }
  }

  lemma {:induction false} OnlyNamedEntries(log: seq<Event>, timeoutMs: int)
    ensures "" !in Replay(log, timeoutMs)
  {
    if log != [] { OnlyNamedEntries(log[..|log| - 1], timeoutMs); }
  }

  /** The active peers are exactly the latest fresh beacon of each identity other than this node's own. */
  lemma ActivePeersRefineLog(log: seq<Event>, timeoutMs: int, nowMs: int, self: string, id: string)
    requires Chronological(log, nowMs)
    ensures var active, latest := ActiveStatuses(Replay(log, timeoutMs), nowMs, timeoutMs, self), Latest(log, id);
      && (id in active <==> id != "" && id != self && latest.Some? && nowMs - latest.value.lastSeenMs <= timeoutMs)
      && (id in active ==>
            var b := latest.value.beacon; active[id] == PeerStatus(b.nodeId, b.priority, b.healthy, true, b.state))
  {
    OnlyNamedEntries(log, timeoutMs);
    if id != "" { TableTracksLog(log, timeoutMs, nowMs, id); }
  }

  /** The latest beacon of `id` is fresh, is not this node's own and projects to `p`. */
  predicate ReportedAs(log: seq<Event>, timeoutMs: int, nowMs: int, self: string, id: string, p: PeerStatus) {
    && id != "" && !IsSelf(id, self)
    && Latest(log, id).Some? && Fresh(Latest(log, id).value, nowMs, timeoutMs)
    && PeerStatusFromBeacon(Latest(log, id).value.beacon) == p
  }

  ghost function ReportedIds(log: seq<Event>, timeoutMs: int, nowMs: int, self: string, ids: set<string>, p: PeerStatus): set<string> {
    set id | id in ids && ReportedAs(log, timeoutMs, nowMs, self, id, p)
  }

  /** As a multiset: a status is listed once for every identity that the log reports as it. */
  lemma ActivePeersCount(log: seq<Event>, timeoutMs: int, nowMs: int, self: string, ids: set<string>, p: PeerStatus)
    requires Chronological(log, nowMs)
    requires forall id :: ReportedAs(log, timeoutMs, nowMs, self, id, p) ==> id in ids
    ensures multiset(ActivePeersOf(Replay(log, timeoutMs), nowMs, timeoutMs, self))[p]
         == |ReportedIds(log, timeoutMs, nowMs, self, ids, p)|
  {
    hide Chronological, ActiveStatuses, Values;
    var active := ActiveStatuses(Replay(log, timeoutMs), nowMs, timeoutMs, self);
    ValuesCount(active, p);
    forall id ensures ReportedAs(log, timeoutMs, nowMs, self, id, p) <==> id in active && active[id] == p {
      ActivePeersRefineLog(log, timeoutMs, nowMs, self, id);
    }
    hide ReportedAs;
    assert ReportedIds(log, timeoutMs, nowMs, self, ids, p) == Holders(active, p);
  }

  /** Pruning is only housekeeping: it changes no answer given at that time or later. */
  lemma PruneIsInvisible(r: Roster, pruneMs: int, nowMs: int, timeoutMs: int, self: string)
    requires pruneMs <= nowMs
    ensures ActiveStatuses(Pruned(r, pruneMs, timeoutMs), nowMs, timeoutMs, self) == ActiveStatuses(r, nowMs, timeoutMs, self)
  {
  }
}
