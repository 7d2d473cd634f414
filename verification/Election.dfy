/** Priority election: src/core/Election.cpp. */
module Election {
  import opened Text

  datatype CandidateNode = CandidateNode(nodeId: string, priority: int, healthy: bool)

  /** The comparator handed to std::max_element: `left` ranks strictly below `right`. */
  predicate RanksBelow(left: CandidateNode, right: CandidateNode) {
    if !left.healthy && right.healthy then true
    else if left.healthy && !right.healthy then false
    else if !left.healthy && !right.healthy then false
    else if left.priority != right.priority then left.priority < right.priority
    else Less(right.nodeId, left.nodeId)
  }

  /** Where std::max_element's left-to-right scan of the first `n` candidates stands. */
  function ScanMax(candidates: seq<CandidateNode>, n: nat): (largest: nat)
    requires 0 < n <= |candidates|
    ensures largest < n
  {
    if n == 1 then 0
    else
      var sofar := ScanMax(candidates, n - 1);
      if RanksBelow(candidates[sofar], candidates[n - 1]) then n - 1 else sofar
  }

  function ChooseHighestPriorityHealthyNode(candidates: seq<CandidateNode>): Option<CandidateNode> {
    if candidates == [] then None
    else
      var winner := candidates[ScanMax(candidates, |candidates|)];
      if winner.healthy then Some(winner) else None
  }

  /** The comparator is a strict weak order, which is what std::max_element demands of it. */
  lemma ComparatorIsStrictWeakOrder(a: CandidateNode, b: CandidateNode, c: CandidateNode)
    ensures !RanksBelow(a, a)
    ensures RanksBelow(a, b) ==> !RanksBelow(b, a)
    ensures RanksBelow(a, b) && RanksBelow(b, c) ==> RanksBelow(a, c)
    ensures RanksBelow(a, b) ==> RanksBelow(a, c) || RanksBelow(c, b)
  {
    LessIrreflexive(a.nodeId);
    if Less(a.nodeId, b.nodeId) && Less(b.nodeId, a.nodeId) { LessTransitive(a.nodeId, b.nodeId, a.nodeId); }
    if Less(c.nodeId, b.nodeId) && Less(b.nodeId, a.nodeId) { LessTransitive(c.nodeId, b.nodeId, a.nodeId); }
    LessTotal(a.nodeId, c.nodeId);
    LessTotal(b.nodeId, c.nodeId);
    if Less(b.nodeId, a.nodeId) && Less(a.nodeId, c.nodeId) { LessTransitive(b.nodeId, a.nodeId, c.nodeId); }
  }

  /** Two distinct healthy candidates are never tied. */
  lemma HealthyCandidatesAreRanked(a: CandidateNode, b: CandidateNode)
    requires a.healthy && b.healthy
    ensures a == b || RanksBelow(a, b) || RanksBelow(b, a)
  {
    LessTotal(a.nodeId, b.nodeId);
  }

  /** The scan ends on the first of the maximal candidates. */
  lemma {:induction false} ScanMaxIsFirstMaximum(candidates: seq<CandidateNode>, n: nat)
    requires 0 < n <= |candidates|
    ensures var m := ScanMax(candidates, n);
      && (forall i :: 0 <= i < n ==> !RanksBelow(candidates[m], candidates[i]))
      && (forall i :: 0 <= i < m ==> RanksBelow(candidates[i], candidates[m]))
  {
    var m := ScanMax(candidates, n);
    ComparatorIsStrictWeakOrder(candidates[m], candidates[m], candidates[m]);
    if n > 1 {
      ScanMaxIsFirstMaximum(candidates, n - 1);
      var sofar := ScanMax(candidates, n - 1);
      forall i | 0 <= i < n - 1
        ensures !RanksBelow(candidates[m], candidates[i])
        ensures m == n - 1 ==> RanksBelow(candidates[i], candidates[m])
      {
        ComparatorIsStrictWeakOrder(candidates[sofar], candidates[n - 1], candidates[i]);
        ComparatorIsStrictWeakOrder(candidates[n - 1], candidates[i], candidates[sofar]);
      }
    }
  }

  /** The election picks exactly the healthy candidate that outranks every other one. */
  lemma WinnerIsUniqueMaximum(candidates: seq<CandidateNode>, w: CandidateNode)
    ensures ChooseHighestPriorityHealthyNode(candidates) == Some(w)
       <==> w in candidates && w.healthy && forall c <- candidates :: c == w || RanksBelow(c, w)
  {
    if candidates != [] {
      var m := ScanMax(candidates, |candidates|);
      ScanMaxIsFirstMaximum(candidates, |candidates|);
      if candidates[m].healthy {
        forall c <- candidates ensures c == candidates[m] || RanksBelow(c, candidates[m]) {
          if c.healthy { HealthyCandidatesAreRanked(c, candidates[m]); }
        }
        ComparatorIsStrictWeakOrder(w, candidates[m], w);
      }
    }
  }

  lemma NoWinnerIffNobodyHealthy(candidates: seq<CandidateNode>)
    ensures ChooseHighestPriorityHealthyNode(candidates).None? <==> forall c <- candidates :: !c.healthy
  {
    if candidates != [] { ScanMaxIsFirstMaximum(candidates, |candidates|); }
  }

  /** Reordering or repeating candidates never changes the outcome: only the candidate set matters. */
  lemma ElectionDependsOnlyOnTheSet(a: seq<CandidateNode>, b: seq<CandidateNode>)
    requires forall c :: c in a <==> c in b
    ensures ChooseHighestPriorityHealthyNode(a) == ChooseHighestPriorityHealthyNode(b)
  {
    match ChooseHighestPriorityHealthyNode(a)
    case Some(w) =>
      WinnerIsUniqueMaximum(a, w);
      WinnerIsUniqueMaximum(b, w);
    case None =>
      NoWinnerIffNobodyHealthy(a);
      NoWinnerIffNobodyHealthy(b);
  }
}
