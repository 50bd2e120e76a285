/** The simulation as it runs: node states whose counters are updated pod by pod,
    proved to compute the functions of Packer. */
module Binpack {
  import opened Basics
  import opened Constraints
  import opened Sorting
  import opened Packer

  /** A node plus what the simulation has placed on it so far. */
  class NodeState {
    const node: Node
    var usedCPU: int
    var usedMem: int
    var usedExt: map<string, int>
    var podCount: int
    var placed: seq<Pod>

    /** The running counters agree with the pods placed. */
    ghost predicate Valid()
      reads this
    {
      && usedCPU == SumCPU(placed)
      && usedMem == SumMem(placed)
      && (forall r :: Quantity(usedExt, r) == SumExt(placed, r))
      && podCount == |placed|
    }

    function View(): Slot
      reads this
    {
      Slot(node, placed)
    }

    constructor (n: Node)
      ensures Valid() && View() == Slot(n, [])
    {
      node := n;
      usedCPU, usedMem, usedExt, podCount, placed := 0, 0, map[], 0, [];
    }

    /** The node-level predicates, read off the running counters. */
    function LocalRefusal(pod: Pod): (r: Option<string>)
      requires Valid()
      reads this
      ensures r == LocalVerdict(View(), pod)
    {
      if node.allocCPU - node.reservedCPU - usedCPU < pod.cpu then Some(INSUFFICIENT_CPU)
      else if node.allocMem - node.reservedMem - usedMem < pod.mem then Some(INSUFFICIENT_MEMORY)
      else if exists r | r in pod.ext ::
          Quantity(node.allocExt, r) - Quantity(node.reservedExt, r) - Quantity(usedExt, r) < pod.ext[r]
      then Some(INSUFFICIENT_EXTENDED)
      else if node.maxPods > 0 && node.reservedPods + podCount + 1 > node.maxPods then Some(POD_CAPACITY)
      else if !Tolerates(pod.tolerations, node.taints) then Some(UNTOLERATED_TAINT)
      else if !MatchesNodeSelector(pod.nodeSelector, node.labels) then Some(NODE_SELECTOR_MISMATCH)
      else if pod.affinity.Some? && pod.affinity.value.requiredNodeAffinity != []
              && !MatchesNodeAffinity(pod.affinity.value.requiredNodeAffinity, node.name, node.labels)
      then Some(NODE_AFFINITY_MISMATCH)
      else None
    }

    /** Charges a pod to the node. */
    method Assign(pod: Pod)
      requires Valid()
      modifies this
      ensures Valid() && placed == old(placed) + [pod]
    {
      SumsAppend(placed, pod);
      usedCPU := usedCPU + pod.cpu;
      usedMem := usedMem + pod.mem;
      podCount := podCount + 1;
      var todo := pod.ext.Keys;
      while todo != {}
        invariant todo <= pod.ext.Keys
        invariant placed == old(placed) && usedCPU == old(usedCPU) + pod.cpu
        invariant usedMem == old(usedMem) + pod.mem && podCount == old(podCount) + 1
        invariant forall r :: Quantity(usedExt, r) == SumExt(placed, r)
                    + if r in pod.ext && r !in todo then pod.ext[r] else 0
      {
        var r :| r in todo;
        usedExt := usedExt[r := Quantity(usedExt, r) + pod.ext[r]];
        todo := todo - {r};
      }
      placed := placed + [pod];
    }
  }

  function Views(states: seq<NodeState>): (s: seq<Slot>)
    reads states
    ensures |s| == |states|
    ensures forall i :: 0 <= i < |states| ==> s[i] == states[i].View()
  {
    seq(|states|, i requires 0 <= i < |states| reads states => states[i].View())
  }

  /** Counts the occupants of every topology domain that some node carries. */
  method CountDomains(c: SpreadConstraint, pod: Pod, all: seq<Slot>) returns (counts: map<string, nat>)
    ensures counts.Keys == Domains(all, c.topologyKey)
    ensures forall d :: d in counts ==> counts[d] == DomainCount(all, c.topologyKey, d, Counted(c, pod))
  {
    counts := map[];
    var f := Counted(c, pod);
    for i := 0 to |all|
      invariant counts.Keys == Domains(all[..i], c.topologyKey)
      invariant forall d :: DomainCount(all[..i], c.topologyKey, d, f) == if d in counts then counts[d] else 0
    {
      var domain := TopologyValue(all[i].node, c.topologyKey);
      assert all[..i + 1] == all[..i] + [all[i]];
      DomainsAppend(all[..i], all[i], c.topologyKey);
      if domain.Some? {
        var n := CountIf(all[i].placed, f);
        var seen := if domain.value in counts then counts[domain.value] else 0;
        counts := counts[domain.value := seen + n];
      }
    }
    assert all[..|all|] == all;
  }

  lemma DomainsAppend(slots: seq<Slot>, last: Slot, key: string)
    ensures Domains(slots + [last], key) == Domains(slots, key)
              + if TopologyValue(last.node, key).Some? then {TopologyValue(last.node, key).value} else {}
  {
    var all := slots + [last];
    forall d | d in Domains(slots, key) ensures d in Domains(all, key) {
      var i :| 0 <= i < |slots| && TopologyValue(slots[i].node, key) == Some(d);
      assert all[i] == slots[i];
    }
    if TopologyValue(last.node, key).Some? {
      assert all[|slots|] == last;
    }
  }

  /** Enforces every DoNotSchedule constraint with a per-domain count and its minimum. */
  method SatisfiesSpread(pod: Pod, node: Node, all: seq<Slot>) returns (ok: bool)
    requires exists i :: 0 <= i < |all| && all[i].node == node
    ensures ok == AllSpreadAllow(pod, node, all)
  {
    for k := 0 to |pod.spread|
      invariant forall j :: 0 <= j < k ==> SpreadAllows(pod.spread[j], pod, node, all)
    {
      var c := pod.spread[k];
      if c.whenUnsatisfiable != "DoNotSchedule" {
        continue;
      }
      var here := TopologyValue(node, c.topologyKey);
      if here.None? {
        assert !SpreadAllows(pod.spread[k], pod, node, all);
        return false;
      }
      var counts := CountDomains(c, pod, all);
      assert here.value in counts;
      var projected := counts[here.value] + 1;
      var minCount := projected;
      var todo := counts.Keys - {here.value};
      while todo != {}
        invariant todo <= counts.Keys - {here.value}
        invariant minCount <= projected
        invariant minCount == projected || exists d :: d in counts && d != here.value && counts[d] == minCount
        invariant forall d :: d in counts && d != here.value && d !in todo ==> minCount <= counts[d]
      {
        var d :| d in todo;
        if counts[d] < minCount {
          minCount := counts[d];
        }
        todo := todo - {d};
      }
      if c.minDomains.Some? && c.minDomains.value > 0 && |counts.Keys| < c.minDomains.value {
        minCount := 0;
      }
      assert SpreadAllows(c, pod, node, all) <==> projected - minCount <= c.maxSkew;
      if projected - minCount > c.maxSkew {
        assert !SpreadAllows(pod.spread[k], pod, node, all);
        return false;
      }
    }
    ok := true;
  }

  /** Evaluates every hard predicate for one node and pod: the node's own first. */
  method Admits(state: NodeState, pod: Pod, all: seq<NodeState>) returns (reason: Option<string>)
    requires state.Valid() && state in all
    ensures reason == Verdict(state.View(), pod, Views(all))
  {
    reason := state.LocalRefusal(pod);
    if reason.Some? {
      return;
    }
    var slots := Views(all);
    if !AntiAffinityAllows(pod, state.node, slots) {
      return Some(POD_ANTI_AFFINITY);
    }
    assert exists i :: 0 <= i < |slots| && slots[i].node == state.node by {
      var i :| 0 <= i < |all| && all[i] == state;
      assert slots[i].node == state.node;
    }
    var spreadOk := SatisfiesSpread(pod, state.node, slots);
    return if spreadOk then None else Some(TOPOLOGY_SPREAD);
  }

  /** The most frequent reason, whatever order the vote map is walked in. */
  method DominantReason(votes: multiset<string>) returns (best: string)
    requires votes != multiset{}
    ensures best == Dominant(votes)
  {
    best := "";
    var bestCount: int := -1;
    var reasons := set r | r in votes;
    var todo := reasons;
    while todo != {}
      invariant todo <= reasons
      invariant bestCount == -1 ==> best == "" && todo == reasons
      invariant bestCount != -1 ==> best in votes && bestCount == votes[best]
      invariant bestCount != -1 ==> forall q :: q in votes && q !in todo && q != best ==>
                  votes[q] < votes[best] || (votes[q] == votes[best] && LexLess(best, q))
      invariant bestCount != -1 ==> best !in todo
    {
      var r :| r in todo;
      if bestCount != -1 {
        LexTotal(r, best);
        forall q | LexLess(r, best) && LexLess(best, q) ensures LexLess(r, q) {
          LexTransitive(r, best, q);
        }
      }
      if votes[r] > bestCount || (votes[r] == bestCount && LexLess(r, best)) {
        best, bestCount := r, votes[r];
      }
      todo := todo - {r};
    }
    ghost var some :| some in votes;
    assert some in reasons;
    DominantUnique(votes, best, Dominant(votes));
  }

  /** The distinct unmodelled constraints over all pods, sorted. */
  method CollectIndeterminate(pods: seq<Pod>) returns (reasons: seq<string>)
    ensures reasons == IndeterminateReasons(pods)
  {
    reasons := [];
    var seen := {};
    for i := 0 to |pods|
      invariant reasons == CollectReasons(pods[..i])
      invariant forall r :: r in seen <==> r in reasons
    {
      var pod := pods[i];
      assert pods[..i + 1][..i] == pods[..i];
      for j := 0 to |pod.unmodelled|
        invariant reasons == AddNew(CollectReasons(pods[..i]), pod.unmodelled[..j])
        invariant forall r :: r in seen <==> r in reasons
      {
        var reason := pod.unmodelled[j];
        assert pod.unmodelled[..j + 1][..j] == pod.unmodelled[..j];
        if reason !in seen {
          seen := seen + {reason};
          reasons := reasons + [reason];
        }
      }
      assert pod.unmodelled[..|pod.unmodelled|] == pod.unmodelled;
    }
    assert pods[..|pods|] == pods;
    reasons := StableSort(reasons, LexLess);
  }

  /** Walks the nodes in order up to the first that admits the pod, tallying refusals. */
  method Probe(states: seq<NodeState>, pod: Pod) returns (chosen: nat, votes: multiset<string>)
    requires forall s :: s in states ==> s.Valid()
    ensures chosen == FirstFit(Views(states), pod, 0)
    ensures votes == Votes(Views(states), pod, chosen)
  {
    votes := multiset{};
    chosen := 0;
    ghost var slots := Views(states);
    assert Votes(slots, pod, 0) == multiset{};
    FirstFitEnds(slots, pod);
    hide Verdict, FirstFit, Votes, Views;
    var searching := chosen < |states|;
    while searching
      invariant chosen <= |states| && (searching ==> chosen < |states|)
      invariant Views(states) == slots && forall s :: s in states ==> s.Valid()
      invariant votes == Votes(slots, pod, chosen)
      invariant FirstFit(slots, pod, 0) == FirstFit(slots, pod, chosen)
      invariant !searching ==> FirstFit(slots, pod, chosen) == chosen
      decreases |states| - chosen, searching
    {
      var reason := Admits(states[chosen], pod, states);
      assert Views(states) == slots && reason == Verdict(slots[chosen], pod, slots);
      AdmittedStops(slots, pod, chosen);
      match reason
      case None =>
        searching := false;
      case Some(r) =>
        RefusalSkips(slots, pod, chosen);
        votes := votes + multiset{r};
        chosen := chosen + 1;
        searching := chosen < |states|;
    }
  }

  lemma AdmittedStops(slots: seq<Slot>, pod: Pod, i: nat)
    requires i < |slots|
    ensures Verdict(slots[i], pod, slots).None? ==> FirstFit(slots, pod, i) == i
  {
    hide Verdict;
  }

  lemma FirstFitEnds(slots: seq<Slot>, pod: Pod)
    ensures FirstFit(slots, pod, |slots|) == |slots|
  {
  }

  lemma RefusalSkips(slots: seq<Slot>, pod: Pod, i: nat)
    requires i < |slots| && Verdict(slots[i], pod, slots).Some?
    ensures FirstFit(slots, pod, i) == FirstFit(slots, pod, i + 1)
    ensures Votes(slots, pod, i + 1) == Votes(slots, pod, i) + multiset{Verdict(slots[i], pod, slots).value}
  {
  }

  /** Offers one pod to the nodes; the first that admits it is charged. */
  method PlacePod(states: seq<NodeState>, pod: Pod) returns (chosen: nat, votes: multiset<string>)
    requires forall s :: s in states ==> s.Valid()
    requires Distinct(states)
    modifies states
    ensures forall s :: s in states ==> s.Valid()
    ensures chosen == FirstFit(old(Views(states)), pod, 0)
    ensures votes == Votes(old(Views(states)), pod, chosen)
    ensures Views(states) == if chosen == |states| then old(Views(states))
                             else old(Views(states))[chosen :=
                               Slot(states[chosen].node, old(states[chosen].placed) + [pod])]
  {
    chosen, votes := Probe(states, pod);
    if chosen < |states| {
      states[chosen].Assign(pod);
      forall j | 0 <= j < |states| && j != chosen ensures states[j].View() == old(states[j].View()) {
        assert states[j] != states[chosen];
      }
    }
  }

  method NewStates(nodes: seq<Node>) returns (states: seq<NodeState>)
    ensures fresh(states) && Distinct(states)
    ensures forall s :: s in states ==> s.Valid()
    ensures Views(states) == EmptySlots(nodes)
  {
    states := [];
    for i := 0 to |nodes|
      invariant |states| == i && fresh(states) && Distinct(states)
      invariant forall j :: 0 <= j < i ==> states[j].Valid() && states[j].View() == Slot(nodes[j], [])
    {
      var s := new NodeState(nodes[i]);
      states := states + [s];
    }
  }

  /** The placement loop, from any state of the nodes. */
  method PackAll(states: seq<NodeState>, ordered: seq<Pod>)
    returns (assignments: map<string, string>, unplaced: seq<Rejection>)
    requires states != [] && Distinct(states)
    requires forall s :: s in states ==> s.Valid()
    modifies states
    ensures forall s :: s in states ==> s.Valid()
    ensures PackState(Views(states), assignments, unplaced) == Pack(old(Views(states)), ordered)
  {
    hide Verdict, Votes;
    ghost var start := Views(states);
    assignments, unplaced := map[], [];
    for i := 0 to |ordered|
      invariant forall s :: s in states ==> s.Valid()
      invariant PackState(Views(states), assignments, unplaced) == Pack(start, ordered[..i])
    {
      var pod := ordered[i];
      ghost var st := Pack(start, ordered[..i]);
      assert Pack(start, ordered[..i + 1]) == PlaceOne(st, pod) by {
        assert ordered[..i + 1][..i] == ordered[..i];
      }
      var chosen, votes := PlacePod(states, pod);
      if chosen < |states| {
        assignments := assignments[Key(pod) := states[chosen].node.name];
      } else {
        VotesTotal(st.slots, pod, |states|);
        var reason := DominantReason(votes);
        unplaced := unplaced + [Rejection(Key(pod), reason, votes)];
      }
    }
    assert ordered[..|ordered|] == ordered;
  }

  /** The simulation over fresh node states computes exactly Packer.Fit. */
  method RunFit(nodes: seq<Node>, pods: seq<Pod>) returns (result: Placement)
    ensures result == Fit(nodes, pods)
  {
    var reasons := CollectIndeterminate(pods);
    if nodes == [] {
      return Placement(map[], RejectAll(pods), reasons);
    }
    var states := NewStates(nodes);
    var assignments, unplaced := PackAll(states, SortedForPacking(pods));
    return Placement(assignments, unplaced, reasons);
  }
}
