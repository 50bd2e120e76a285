/** The placement simulation as a function: which node admits a pod, and what a
    first-fit pass over a list of pods leaves behind. */
module Packer {
  import opened Basics
  import opened Constraints
  import opened Sorting

  datatype Node = Node(
    name: string, labels: map<string, string>, taints: seq<Taint>,
    allocCPU: int, allocMem: int, allocExt: map<string, int>,
    maxPods: int,  // zero means unknown: the cap is not enforced
    reservedCPU: int, reservedMem: int, reservedExt: map<string, int>, reservedPods: int)

  datatype Pod = Pod(
    namespace: string, name: string, labels: map<string, string>,
    cpu: int, mem: int, ext: map<string, int>,
    nodeSelector: map<string, string>, tolerations: seq<Toleration>, affinity: Option<Affinity>,
    spread: seq<SpreadConstraint>, unmodelled: seq<string>)

  /** A node together with the pods placed on it so far. */
  datatype Slot = Slot(node: Node, placed: seq<Pod>)

  datatype Rejection = Rejection(podKey: string, reason: string, votes: multiset<string>)

  datatype Placement = Placement(
    assignments: map<string, string>, unplaced: seq<Rejection>, indeterminateReasons: seq<string>)
  {
    predicate Indeterminate() { indeterminateReasons != [] }
  }

  const INSUFFICIENT_CPU := "insufficient_cpu"
  const INSUFFICIENT_MEMORY := "insufficient_memory"
  const INSUFFICIENT_EXTENDED := "insufficient_extended_resource"
  const POD_CAPACITY := "node_pod_capacity"
  const UNTOLERATED_TAINT := "untolerated_taint"
  const NODE_SELECTOR_MISMATCH := "node_selector"
  const NODE_AFFINITY_MISMATCH := "node_affinity"
  const POD_ANTI_AFFINITY := "pod_anti_affinity"
  const TOPOLOGY_SPREAD := "topology_spread"
  const NO_NODES := "no_candidate_nodes"

  function Key(p: Pod): string {
    p.namespace + "/" + p.name
  }

  // ----- capacity bookkeeping -----

  function SumCPU(placed: seq<Pod>): int {
    if placed == [] then 0 else SumCPU(placed[..|placed| - 1]) + placed[|placed| - 1].cpu
  }

  function SumMem(placed: seq<Pod>): int {
    if placed == [] then 0 else SumMem(placed[..|placed| - 1]) + placed[|placed| - 1].mem
  }

  function SumExt(placed: seq<Pod>, resource: string): int {
    if placed == [] then 0
    else SumExt(placed[..|placed| - 1], resource) + Quantity(placed[|placed| - 1].ext, resource)
  }

  function FreeCPU(s: Slot): int { s.node.allocCPU - s.node.reservedCPU - SumCPU(s.placed) }

  function FreeMem(s: Slot): int { s.node.allocMem - s.node.reservedMem - SumMem(s.placed) }

  function FreeExt(s: Slot, resource: string): int {
    Quantity(s.node.allocExt, resource) - Quantity(s.node.reservedExt, resource) - SumExt(s.placed, resource)
  }

  lemma SumsAppend(placed: seq<Pod>, pod: Pod)
    ensures SumCPU(placed + [pod]) == SumCPU(placed) + pod.cpu
    ensures SumMem(placed + [pod]) == SumMem(placed) + pod.mem
    ensures forall r :: SumExt(placed + [pod], r) == SumExt(placed, r) + Quantity(pod.ext, r)
  {
    assert (placed + [pod])[..|placed|] == placed;
  }

  // ----- predicates that look at one node only -----

  /** The reason one node on its own refuses a pod, in the order the checks run. */
  function LocalVerdict(s: Slot, pod: Pod): Option<string> {
    if FreeCPU(s) < pod.cpu then Some(INSUFFICIENT_CPU)
    else if FreeMem(s) < pod.mem then Some(INSUFFICIENT_MEMORY)
    else if exists r | r in pod.ext :: FreeExt(s, r) < pod.ext[r] then Some(INSUFFICIENT_EXTENDED)
    else if s.node.maxPods > 0 && s.node.reservedPods + |s.placed| + 1 > s.node.maxPods then Some(POD_CAPACITY)
    else StaticVerdict(s.node, pod)
  }

  /** The part of the local verdict that no placement changes. */
  function StaticVerdict(node: Node, pod: Pod): Option<string> {
    if !Tolerates(pod.tolerations, node.taints) then Some(UNTOLERATED_TAINT)
    else if !MatchesNodeSelector(pod.nodeSelector, node.labels) then Some(NODE_SELECTOR_MISMATCH)
    else if pod.affinity.Some? && pod.affinity.value.requiredNodeAffinity != []
            && !MatchesNodeAffinity(pod.affinity.value.requiredNodeAffinity, node.name, node.labels)
    then Some(NODE_AFFINITY_MISMATCH)
    else None
  }

  // ----- predicates that look at every node -----

  /** A node's topology domain; the hostname key falls back to the node's name. */
  function TopologyValue(node: Node, key: string): Option<string> {
    if key in node.labels then Some(node.labels[key])
    else if key == "kubernetes.io/hostname" then Some(node.name)
    else None
  }

  function AntiAffinityTerms(pod: Pod): seq<PodAffinityTerm> {
    if pod.affinity.Some? then pod.affinity.value.requiredPodAntiAffinity else []
  }

  /** A term without namespaces is scoped to the pod's own. */
  predicate InScope(term: PodAffinityTerm, pod: Pod, occupant: Pod) {
    if term.namespaces == [] then occupant.namespace == pod.namespace
    else occupant.namespace in term.namespaces
  }

  predicate Repels(term: PodAffinityTerm, pod: Pod, occupant: Pod) {
    Key(occupant) != Key(pod) && InScope(term, pod, occupant) && SelectorMatches(term.labelSelector, occupant.labels)
  }

  predicate TermAllows(term: PodAffinityTerm, pod: Pod, node: Node, all: seq<Slot>) {
    var domain := TopologyValue(node, term.topologyKey);
    && domain.Some?
    && forall i | 0 <= i < |all| && TopologyValue(all[i].node, term.topologyKey) == domain ::
         forall o | o in all[i].placed :: !Repels(term, pod, o)
  }

  predicate AntiAffinityAllows(pod: Pod, node: Node, all: seq<Slot>) {
    forall t | t in AntiAffinityTerms(pod) :: TermAllows(t, pod, node, all)
  }

  function CountIf(placed: seq<Pod>, f: Pod -> bool): nat {
    if placed == [] then 0
    else CountIf(placed[..|placed| - 1], f) + if f(placed[|placed| - 1]) then 1 else 0
  }

  predicate InDomain(node: Node, key: string, domain: string) {
    TopologyValue(node, key) == Some(domain)
  }

  /** How many pods satisfying `f` sit in one topology domain. */
  function DomainCount(slots: seq<Slot>, key: string, domain: string, f: Pod -> bool): nat {
    if slots == [] then 0
    else
      var last := slots[|slots| - 1];
      DomainCount(slots[..|slots| - 1], key, domain, f)
      + if InDomain(last.node, key, domain) then CountIf(last.placed, f) else 0
  }

  function Domains(slots: seq<Slot>, key: string): set<string> {
    set i | 0 <= i < |slots| && TopologyValue(slots[i].node, key).Some? ::
      TopologyValue(slots[i].node, key).value
  }

  /** The occupants a spread constraint of `pod` counts. */
  function Counted(c: SpreadConstraint, pod: Pod): Pod -> bool {
    o => Key(o) != Key(pod) && o.namespace == pod.namespace && SelectorMatches(c.labelSelector, o.labels)
  }

  predicate TooFewDomains(c: SpreadConstraint, domains: set<string>) {
    c.minDomains.Some? && c.minDomains.value > 0 && |domains| < c.minDomains.value
  }

  /** One DoNotSchedule constraint admits the node: with the pod added, its domain stays
      within MaxSkew of every other domain, or of zero when there are too few domains. */
  predicate SpreadAllows(c: SpreadConstraint, pod: Pod, node: Node, all: seq<Slot>) {
    c.whenUnsatisfiable == "DoNotSchedule" ==>
      var here := TopologyValue(node, c.topologyKey);
      && here.Some?
      && var f := Counted(c, pod);
         var projected := DomainCount(all, c.topologyKey, here.value, f) + 1;
         if TooFewDomains(c, Domains(all, c.topologyKey)) then projected <= c.maxSkew
         else
           && 0 <= c.maxSkew
           && forall d | d in Domains(all, c.topologyKey) && d != here.value ::
                projected - DomainCount(all, c.topologyKey, d, f) <= c.maxSkew
  }

  predicate AllSpreadAllow(pod: Pod, node: Node, all: seq<Slot>) {
    forall c | c in pod.spread :: SpreadAllows(c, pod, node, all)
  }

  /** None when the node admits the pod, otherwise the first failing predicate. */
  function Verdict(s: Slot, pod: Pod, all: seq<Slot>): Option<string> {
    var local := LocalVerdict(s, pod);
    if local.Some? then local
    else if !AntiAffinityAllows(pod, s.node, all) then Some(POD_ANTI_AFFINITY)
    else if !AllSpreadAllow(pod, s.node, all) then Some(TOPOLOGY_SPREAD)
    else None
  }

  // ----- one first-fit pass -----

  /** The first node from `from` on that admits the pod, or the node count. */
  function FirstFit(slots: seq<Slot>, pod: Pod, from: nat): (i: nat)
    requires from <= |slots|
    ensures from <= i <= |slots|
    ensures i < |slots| ==> Verdict(slots[i], pod, slots) == None
    ensures forall j :: from <= j < i ==> Verdict(slots[j], pod, slots).Some?
    decreases |slots| - from
  {
    if from == |slots| || Verdict(slots[from], pod, slots) == None then from
    else FirstFit(slots, pod, from + 1)
  }

  /** The refusals of the first `n` nodes, counted by reason. */
  function Votes(slots: seq<Slot>, pod: Pod, n: nat): multiset<string>
    requires n <= |slots|
  {
    if n == 0 then multiset{}
    else
      match Verdict(slots[n - 1], pod, slots)
      case None => Votes(slots, pod, n - 1)
      case Some(reason) => Votes(slots, pod, n - 1) + multiset{reason}
  }

  /** Nodes that all refuse a pod cast one vote each. */
  lemma {:induction false} VotesTotal(slots: seq<Slot>, pod: Pod, n: nat)
    requires n <= |slots| && forall j :: 0 <= j < n ==> Verdict(slots[j], pod, slots).Some?
    ensures |Votes(slots, pod, n)| == n
  {
    if n == 0 {
    } else {
      assert Verdict(slots[n - 1], pod, slots).Some?;
      VotesTotal(slots, pod, n - 1);
    }
  }

  /** The reason with the most votes, the lexically least one on a tie. */
  ghost predicate IsDominant(votes: multiset<string>, r: string) {
    r in votes && forall q :: q in votes && q != r ==>
      votes[q] < votes[r] || (votes[q] == votes[r] && LexLess(r, q))
  }

  lemma {:induction false} FindDominant(votes: multiset<string>) returns (r: string)
    requires votes != multiset{}
    ensures IsDominant(votes, r)
    decreases |votes|
  {
    var x :| x in votes;
    var rest := votes[x := 0];
    if rest == multiset{} {
      forall q | q in votes ensures q == x {
        assert q == x || q in rest;
      }
      r := x;
    } else {
      assert votes == rest + multiset{}[x := votes[x]];
      var best := FindDominant(rest);
      LexTotal(x, best);
      r := if votes[x] > votes[best] || (votes[x] == votes[best] && LexLess(x, best)) then x else best;
      forall q | q in votes && q != r
        ensures votes[q] < votes[r] || (votes[q] == votes[r] && LexLess(r, q))
      {
        assert q == x || q in rest;
        if q != x && q != best && LexLess(best, q) && LexLess(x, best) {
          LexTransitive(x, best, q);
        }
      }
    }
  }

  lemma DominantExists(votes: multiset<string>)
    requires votes != multiset{}
    ensures exists r :: IsDominant(votes, r)
  {
    var r := FindDominant(votes);
  }

  lemma DominantUnique(votes: multiset<string>, r: string, q: string)
    requires IsDominant(votes, r) && IsDominant(votes, q)
    ensures r == q
  {
    if r != q {
      LexIrreflexive(r);
      assert LexLess(r, q) && LexLess(q, r);
      LexTransitive(r, q, r);
      assert false;
    }
  }

  ghost function Dominant(votes: multiset<string>): (r: string)
    ensures votes != multiset{} ==> IsDominant(votes, r)
  {
    if votes == multiset{} then NO_NODES
    else
      DominantExists(votes);
      var r :| IsDominant(votes, r);
      r
  }

  /** What a pass has done after some of its pods. */
  datatype PackState = PackState(slots: seq<Slot>, assignments: map<string, string>, unplaced: seq<Rejection>)

  ghost function PlaceOne(st: PackState, pod: Pod): PackState {
    var i := FirstFit(st.slots, pod, 0);
    if i < |st.slots| then
      var s := st.slots[i];
      PackState(st.slots[i := Slot(s.node, s.placed + [pod])], st.assignments[Key(pod) := s.node.name], st.unplaced)
    else
      var votes := Votes(st.slots, pod, |st.slots|);
      PackState(st.slots, st.assignments, st.unplaced + [Rejection(Key(pod), Dominant(votes), votes)])
  }

  ghost function Pack(slots: seq<Slot>, pods: seq<Pod>): PackState {
    if pods == [] then PackState(slots, map[], [])
    else PlaceOne(Pack(slots, pods[..|pods| - 1]), pods[|pods| - 1])
  }

  function EmptySlots(nodes: seq<Node>): (s: seq<Slot>)
    ensures |s| == |nodes|
    ensures forall i :: 0 <= i < |nodes| ==> s[i] == Slot(nodes[i], [])
  {
    seq(|nodes|, i requires 0 <= i < |nodes| => Slot(nodes[i], []))
  }

  // ----- the whole simulation -----

  /** Largest memory first, then largest CPU, then the pod key. */
  predicate PodBefore(a: Pod, b: Pod) {
    if a.mem != b.mem then a.mem > b.mem
    else if a.cpu != b.cpu then a.cpu > b.cpu
    else LexLess(Key(a), Key(b))
  }

  function SortedForPacking(pods: seq<Pod>): seq<Pod> {
    StableSort(pods, PodBefore)
  }

  /** The distinct unmodelled constraints, in order of first appearance. */
  function CollectReasons(pods: seq<Pod>): (r: seq<string>)
    ensures Distinct(r)
  {
    if pods == [] then [] else AddNew(CollectReasons(pods[..|pods| - 1]), pods[|pods| - 1].unmodelled)
  }

  function IndeterminateReasons(pods: seq<Pod>): seq<string> {
    StableSort(CollectReasons(pods), LexLess)
  }

  function RejectAll(pods: seq<Pod>): (r: seq<Rejection>)
    ensures |r| == |pods|
    ensures forall i :: 0 <= i < |pods| ==> r[i] == Rejection(Key(pods[i]), NO_NODES, multiset{})
  {
    seq(|pods|, i requires 0 <= i < |pods| => Rejection(Key(pods[i]), NO_NODES, multiset{}))
  }

  ghost function Fit(nodes: seq<Node>, pods: seq<Pod>): Placement {
    var reasons := IndeterminateReasons(pods);
    if nodes == [] then Placement(map[], RejectAll(pods), reasons)
    else
      var st := Pack(EmptySlots(nodes), SortedForPacking(pods));
      Placement(st.assignments, st.unplaced, reasons)
  }
}
