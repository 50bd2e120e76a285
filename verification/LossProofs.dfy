/** How far the survival gate reaches on unequal nodes: it tries the loss of the largest one,
    and that decides the others only where the largest one can stand in for them. */
module LossProofs {
  import opened Basics
  import opened Constraints
  import opened Sorting
  import opened Packer
  import opened PackingProofs
  import opened SurvivalProofs
  import opened Usage
  import opened Capacity
  import opened CapacityProofs
  import opened SmallPools

  // ----- one roomy node is enough -----

  /** A pod's requests are not negative. */
  ghost predicate Weighty(p: Pod) {
    p.cpu >= 0 && p.mem >= 0 && forall r :: Quantity(p.ext, r) >= 0
  }

  /** Node `n` alone could hold all of the pods, however they are ordered. */
  ghost predicate RoomForAll(n: Node, pods: seq<Pod>) {
    && n.reservedCPU + SumCPU(pods) <= n.allocCPU && n.reservedMem + SumMem(pods) <= n.allocMem
    && (n.maxPods > 0 ==> n.reservedPods + |pods| <= n.maxPods)
    && forall p :: p in pods ==>
         && NodeLocal(p) && StaticVerdict(n, p) == None && Weighty(p)
         && (forall r :: r in p.ext ==> Quantity(n.reservedExt, r) + SumExt(pods, r) <= Quantity(n.allocExt, r))
  }

  /** What a node holds never exceeds what has been offered so far. */
  ghost predicate Lighter(placed: seq<Pod>, offered: seq<Pod>) {
    && SumCPU(placed) <= SumCPU(offered) && SumMem(placed) <= SumMem(offered) && |placed| <= |offered|
    && forall r :: SumExt(placed, r) <= SumExt(offered, r)
  }

  lemma {:induction false} NonNegativeSums(pods: seq<Pod>, more: seq<Pod>)
    requires forall p :: p in more ==> Weighty(p)
    ensures Lighter(pods, pods + more)
  {
    if more == [] {
      assert pods + more == pods;
    } else {
      var n := |more| - 1;
      assert forall p :: p in more[..n] ==> p in more;
      assert more[n] in more;
      NonNegativeSums(pods, more[..n]);
      SumsAppend(pods + more[..n], more[n]);
      assert pods + more == pods + more[..n] + [more[n]];
    }
  }

  lemma {:induction false} KeepsUp(nodes: seq<Node>, k: nat, pods: seq<Pod>, j: nat)
    requires k < |nodes| && RoomForAll(nodes[k], pods) && j <= |pods|
    ensures var st := Pack(EmptySlots(nodes), pods[..j]);
            |st.slots| == |nodes| && st.slots[k].node == nodes[k] && st.unplaced == [] && Lighter(st.slots[k].placed, pods[..j])
  {
    if j == 0 {
      assert pods[..0] == [];
    } else {
      hide RoomForAll, PlaceOne, Lighter, FirstFit, Verdict, Votes;
      KeepsUp(nodes, k, pods, j - 1);
      var st := Pack(EmptySlots(nodes), pods[..j - 1]);
      assert pods[..j] == pods[..j - 1] + [pods[j - 1]] && pods[..j][..j - 1] == pods[..j - 1];
      Ahead(nodes[k], pods, j);
      RoomyAdmits(st.slots, k, pods, j);
      StepKeepsUp(st, pods[j - 1], k, pods[..j - 1]);
    }
  }

  lemma Ahead(n: Node, pods: seq<Pod>, j: nat)
    requires RoomForAll(n, pods) && j <= |pods|
    ensures Lighter(pods[..j], pods)
  {
    assert pods == pods[..j] + pods[j..];
    hide Lighter;
    NonNegativeSums(pods[..j], pods[j..]);
  }

  lemma StepKeepsUp(st: PackState, pod: Pod, k: nat, offered: seq<Pod>)
    requires k < |st.slots| && Lighter(st.slots[k].placed, offered) && Weighty(pod)
    requires FirstFit(st.slots, pod, 0) < |st.slots|
    ensures var next := PlaceOne(st, pod);
            && |next.slots| == |st.slots| && next.slots[k].node == st.slots[k].node && next.unplaced == st.unplaced
            && Lighter(next.slots[k].placed, offered + [pod])
  {
    SumsAppend(st.slots[k].placed, pod);
    SumsAppend(offered, pod);
    hide SumCPU, SumMem, SumExt, FirstFit, Votes, Dominant;
  }

  lemma RoomyAdmits(slots: seq<Slot>, k: nat, pods: seq<Pod>, j: nat)
    requires k < |slots| && RoomForAll(slots[k].node, pods) && 1 <= j <= |pods|
    requires Lighter(slots[k].placed, pods[..j - 1]) && Lighter(pods[..j], pods)
    requires pods[..j] == pods[..j - 1] + [pods[j - 1]]
    ensures FirstFit(slots, pods[j - 1], 0) < |slots|
    ensures Weighty(pods[j - 1])
  {
    var p := pods[j - 1];
    assert p in pods;
    SumsAppend(pods[..j - 1], p);
    hide SumCPU, SumMem, SumExt, StaticVerdict;
    forall r | r in p.ext ensures FreeExt(slots[k], r) >= p.ext[r] {
      assert SumExt(pods[..j], r) == SumExt(pods[..j - 1], r) + Quantity(p.ext, r);
    }
    assert LocalVerdict(slots[k], p) == None;
    LocalVerdictDecides(slots[k], p, slots);
    hide LocalVerdict, Verdict;
  }

  /** A list of nodes of which one alone has room for everything takes everything. */
  lemma RoomyNodeTakesAll(nodes: seq<Node>, k: nat, pods: seq<Pod>)
    requires k < |nodes| && RoomForAll(nodes[k], SortedForPacking(pods))
    ensures PlacesAll(nodes, pods)
  {
    var ordered := SortedForPacking(pods);
    KeepsUp(nodes, k, ordered, |ordered|);
    assert ordered[..|ordered|] == ordered;
  }

  // ----- when the largest node stands for the other -----

  /** `w` offers at least the net room of `x` and refuses no pod at all that `x` accepts. */
  ghost predicate CanReplace(w: Node, x: Node) {
    && w.allocCPU - w.reservedCPU >= x.allocCPU - x.reservedCPU
    && w.allocMem - w.reservedMem >= x.allocMem - x.reservedMem
    && (forall r :: Quantity(w.allocExt, r) >= Quantity(x.allocExt, r))
    && MoreSlots(w, x)
    && (forall p: Pod :: StaticVerdict(x, p) == None ==> StaticVerdict(w, p) == None)
  }

  predicate MoreSlots(w: Node, x: Node) {
    w.maxPods > 0 ==> x.maxPods > 0 && w.maxPods - w.reservedPods >= x.maxPods - x.reservedPods
  }

  /** The node can take a pod that asks for nothing, and offers no negative resource. */
  ghost predicate Usable(n: Node) {
    && n.reservedCPU <= n.allocCPU && n.reservedMem <= n.allocMem
    && (n.maxPods > 0 ==> n.reservedPods < n.maxPods)
    && n.reservedExt == map[] && forall r :: Quantity(n.allocExt, r) >= 0
  }

  /** A workload that packs on two nodes, and without node `w`, survives the loss of the
      other node as well. */
  ghost predicate Covered(nodes: seq<Node>, w: nat, toPlace: seq<Pod>)
    requires |nodes| == 2 && w < 2
  {
    DistinctKeys(toPlace) && PlacesAll(nodes, toPlace) && PlacesAll([nodes[1 - w]], toPlace) ==>
      SurvivableWithout(nodes, 1 - w, toPlace)
  }

  /** Trying one loss of two covers the other, for every workload, if and only if the node
      that was tried can replace the one that was not. */
  lemma CoveredExactly(nodes: seq<Node>, w: nat)
    requires |nodes| == 2 && w < 2 && Usable(nodes[1 - w]) && nodes[w].reservedExt == map[]
    ensures (forall toPlace: seq<Pod> :: Covered(nodes, w, toPlace)) <==> CanReplace(nodes[w], nodes[1 - w])
  {
    hide Covered, CanReplace, Usable;
    if CanReplace(nodes[w], nodes[1 - w]) {
      forall toPlace: seq<Pod> ensures Covered(nodes, w, toPlace) {
        ReplaceableCovered(nodes, w, toPlace);
      }
    } else {
      var pods := Betrayal(nodes[w], nodes[1 - w]);
      BetrayalUncovered(nodes, w, pods);
    }
  }

  lemma OtherOfTwo<T>(s: seq<T>, w: nat)
    requires |s| == 2 && w < 2
    ensures RemoveAt(s, w) == [s[1 - w]]
  {
  }

  lemma ReplacesDominate(w: Node, x: Node, pods: seq<Pod>)
    requires CanReplace(w, x) && Usable(x) && w.reservedExt == map[]
    ensures Dominates(w, x, pods)
  {
    hide StaticVerdict;
  }

  lemma ReplaceableCovered(nodes: seq<Node>, w: nat, toPlace: seq<Pod>)
    requires |nodes| == 2 && w < 2 && CanReplace(nodes[w], nodes[1 - w])
    requires Usable(nodes[1 - w]) && nodes[w].reservedExt == map[]
    ensures Covered(nodes, w, toPlace)
  {
    ReplacesDominate(nodes[w], nodes[1 - w], toPlace);
    OtherOfTwo(nodes, w);
    hide Dominates, CanReplace, Usable, PlacesAll, ValidOn, RemoveAt;
    if PlacesAll([nodes[1 - w]], toPlace) {
      var slots := SurvivesOtherLoss(nodes, w, 1 - w, toPlace);
    }
  }

  // ----- workloads that betray a smaller node -----

  ghost predicate Reorders(a: seq<Pod>, b: seq<Pod>) {
    multiset(a) == multiset(b)
  }

  /** However the pods are put on it, the node is overcommitted or refuses one. */
  ghost predicate NoHome(n: Node, pods: seq<Pod>) {
    forall placed: seq<Pod> :: Reorders(placed, pods) ==> !SoundSlot(Slot(n, placed))
  }

  ghost predicate Betrays(w: Node, x: Node, pods: seq<Pod>) {
    DistinctKeys(pods) && RoomForAll(x, SortedForPacking(pods)) && NoHome(w, pods)
  }

  lemma BetrayalUncovered(nodes: seq<Node>, w: nat, pods: seq<Pod>)
    requires |nodes| == 2 && w < 2 && Betrays(nodes[w], nodes[1 - w], pods)
    ensures !Covered(nodes, w, pods)
  {
    hide RoomForAll, NoHome, SortedForPacking;
    RoomyNodeTakesAll(nodes, 1 - w, pods);
    RoomyNodeTakesAll([nodes[1 - w]], 0, pods);
    OtherOfTwo(nodes, 1 - w);
    hide PlacesAll, RemoveAt, ValidOn, DistinctKeys;
    NowhereToGo(nodes[w], pods);
  }

  lemma NowhereToGo(w: Node, pods: seq<Pod>)
    requires NoHome(w, pods)
    ensures forall slots: seq<Slot> :: !ValidOn(slots, multiset([w]), multiset(pods))
  {
    forall slots: seq<Slot> ensures !ValidOn(slots, multiset([w]), multiset(pods)) {
      if multiset(NodesOf(slots)) == multiset([w]) {
        OnlySlot(slots, w);
        assert slots[0] == Slot(w, slots[0].placed);
        assert Reorders(slots[0].placed, pods) ==> !SoundSlot(slots[0]);
      }
    }
  }

  lemma OnlySlot(slots: seq<Slot>, w: Node)
    requires multiset(NodesOf(slots)) == multiset([w])
    ensures |slots| == 1 && slots[0].node == w && AllPlaced(slots) == multiset(slots[0].placed)
  {
    assert |multiset(NodesOf(slots))| == 1;
    assert NodesOf(slots)[0] in multiset(NodesOf(slots));
    assert slots[..0] == [];
  }

  /** A pod that tolerates every taint. */
  function Asking(cpu: int, mem: int, ext: map<string, int>): Pod {
    Pod("app", "probe", map[], cpu, mem, ext, map[], [Toleration("", "Exists", "", "")], None, [], [])
  }

  lemma AskingIsPlain(cpu: int, mem: int, ext: map<string, int>, n: Node)
    ensures var p := Asking(cpu, mem, ext);
            NodeLocal(p) && StaticVerdict(n, p) == None
            && p.cpu == cpu && p.mem == mem && p.ext == ext
  {
    var p := Asking(cpu, mem, ext);
    assert p.tolerations[0] in p.tolerations;
    assert forall t :: Covers(p.tolerations[0], t);
  }

  lemma OnePodFacts(p: Pod)
    ensures SortedForPacking([p]) == [p] && DistinctKeys([p])
    ensures SumCPU([p]) == p.cpu && SumMem([p]) == p.mem && forall r :: SumExt([p], r) == Quantity(p.ext, r)
    ensures forall placed: seq<Pod> :: Reorders(placed, [p]) ==> placed == [p]
  {
    assert StableSort([p], PodBefore) == [p] by {
      assert [p][1..] == [];
    }
    OnePodSums(p);
    forall placed: seq<Pod> | Reorders(placed, [p]) ensures placed == [p] {
      assert |placed| == |multiset(placed)| == 1;
      assert placed[0] in multiset(placed);
    }
  }

  lemma OnePodSums(p: Pod)
    ensures SumCPU([p]) == p.cpu && SumMem([p]) == p.mem && forall r :: SumExt([p], r) == Quantity(p.ext, r)
  {
    var none: seq<Pod> := [];
    SumsAppend(none, p);
    assert SumCPU(none) == 0 && SumMem(none) == 0 && forall r :: SumExt(none, r) == 0;
    hide SumCPU, SumMem, SumExt;
    assert none + [p] == [p];
  }

  lemma OneProbe(w: Node, x: Node, p: Pod)
    requires Usable(x) && w.reservedExt == map[] && NodeLocal(p) && Weighty(p) && StaticVerdict(x, p) == None
    requires x.reservedCPU + p.cpu <= x.allocCPU && x.reservedMem + p.mem <= x.allocMem
    requires forall r :: r in p.ext ==> p.ext[r] <= Quantity(x.allocExt, r)
    requires || w.reservedCPU + p.cpu > w.allocCPU || w.reservedMem + p.mem > w.allocMem
             || StaticVerdict(w, p) != None
             || exists r :: r in p.ext && p.ext[r] > Quantity(w.allocExt, r)
    ensures Betrays(w, x, [p])
  {
    OnePodFacts(p);
    hide SortedForPacking, DistinctKeys, SumCPU, SumMem, SumExt, NodeLocal, StaticVerdict;
    assert p in [p];
    forall placed: seq<Pod> | Reorders(placed, [p]) ensures !SoundSlot(Slot(w, placed)) {
      assert placed == [p];
    }
  }

  /** Pods without requests, told apart by the length of their names. */
  function Crowd(k: nat): (pods: seq<Pod>)
    ensures |pods| == k && forall i :: 0 <= i < k ==> pods[i] == Asking(0, 0, map[]).(name := seq(i, _ => 'x'))
  {
    seq(k, i requires 0 <= i => Asking(0, 0, map[]).(name := seq(i, _ => 'x')))
  }

  lemma {:induction false} WeightlessSums(pods: seq<Pod>)
    requires forall p :: p in pods ==> p.cpu == 0 && p.mem == 0 && p.ext == map[]
    ensures SumCPU(pods) == 0 && SumMem(pods) == 0
  {
    if pods == [] {
    } else {
      var n := |pods| - 1;
      assert pods[n] in pods;
      assert forall p :: p in pods[..n] ==> p in pods;
      WeightlessSums(pods[..n]);
    }
  }

  lemma CrowdBetrays(w: Node, x: Node)
    requires Usable(x) && !MoreSlots(w, x)
    ensures Betrays(w, x, Crowd(Max(w.maxPods - w.reservedPods, 0) + 1))
  {
    var k := Max(w.maxPods - w.reservedPods, 0) + 1;
    var pods := Crowd(k);
    CrowdKeys(k);
    CrowdFits(x, k);
    hide SortedForPacking, DistinctKeys, Crowd, RoomForAll;
    forall placed: seq<Pod> | Reorders(placed, pods) ensures !SoundSlot(Slot(w, placed)) {
      assert |placed| == |multiset(placed)| == k;
      hide *;
    }
  }

  lemma CrowdFits(x: Node, k: nat)
    requires Usable(x) && (x.maxPods > 0 ==> x.reservedPods + k <= x.maxPods)
    ensures RoomForAll(x, SortedForPacking(Crowd(k)))
  {
    SortingKeeps(Crowd(k));
    var ordered := SortedForPacking(Crowd(k));
    forall p | p in ordered
      ensures NodeLocal(p) && StaticVerdict(x, p) == None && Weighty(p) && p.cpu == 0 && p.mem == 0 && p.ext == map[]
    {
      CrowdMember(k, p, x);
    }
    hide SortedForPacking, NodeLocal, StaticVerdict, Crowd, Weighty;
    WeightlessSums(ordered);
    hide SumCPU, SumMem, SumExt;
  }

  lemma CrowdMember(k: nat, p: Pod, x: Node)
    requires p in Crowd(k)
    ensures NodeLocal(p) && StaticVerdict(x, p) == None && Weighty(p) && p.cpu == 0 && p.mem == 0 && p.ext == map[]
  {
    AskingIsPlain(0, 0, map[], x);
  }

  lemma CrowdKeys(k: nat)
    ensures DistinctKeys(Crowd(k))
  {
    var pods := Crowd(k);
    forall i, j | 0 <= i < j < k ensures Key(pods[i]) != Key(pods[j]) {
      assert |Key(pods[i])| == |pods[i].namespace| + 1 + i && |Key(pods[j])| == |pods[j].namespace| + 1 + j;
      assert pods[i].namespace == pods[j].namespace;
    }
  }

  /** The pod reduced to what a node checks once and for all. */
  function Stripped(p: Pod): Pod {
    p.(cpu := 0, mem := 0, ext := map[], spread := [],
       affinity := if p.affinity.None? then None
                   else Some(p.affinity.value.(requiredPodAntiAffinity := [])))
  }

  lemma StrippedKeepsVerdict(p: Pod, n: Node)
    ensures StaticVerdict(n, Stripped(p)) == StaticVerdict(n, p)
    ensures NodeLocal(Stripped(p)) && Weighty(Stripped(p))
    ensures Stripped(p).cpu == 0 && Stripped(p).mem == 0 && Stripped(p).ext == map[]
  {
  }

  /** A node that cannot replace another is given away by some workload. */
  lemma Betrayal(w: Node, x: Node) returns (pods: seq<Pod>)
    requires Usable(x) && w.reservedExt == map[] && !CanReplace(w, x)
    ensures Betrays(w, x, pods)
  {
    var freeCPU, freeMem := x.allocCPU - x.reservedCPU, x.allocMem - x.reservedMem;
    if w.allocCPU - w.reservedCPU < freeCPU {
      pods := [Asking(freeCPU, 0, map[])];
      AskingIsPlain(freeCPU, 0, map[], x);
      hide StaticVerdict, NodeLocal, Asking, Betrays;
      OneProbe(w, x, pods[0]);
    } else if w.allocMem - w.reservedMem < freeMem {
      pods := [Asking(0, freeMem, map[])];
      AskingIsPlain(0, freeMem, map[], x);
      hide StaticVerdict, NodeLocal, Asking, Betrays;
      OneProbe(w, x, pods[0]);
    } else if !MoreSlots(w, x) {
      pods := Crowd(Max(w.maxPods - w.reservedPods, 0) + 1);
      hide Betrays;
      CrowdBetrays(w, x);
    } else if r :| Quantity(w.allocExt, r) < Quantity(x.allocExt, r) {
      var ext := map[r := Quantity(x.allocExt, r)];
      pods := [Asking(0, 0, ext)];
      AskingIsPlain(0, 0, ext, x);
      hide StaticVerdict, NodeLocal, Asking, Betrays;
      assert r in pods[0].ext;
      OneProbe(w, x, pods[0]);
    } else {
      var p: Pod :| StaticVerdict(x, p) == None && StaticVerdict(w, p) != None;
      pods := [Stripped(p)];
      StrippedKeepsVerdict(p, x);
      StrippedKeepsVerdict(p, w);
      hide StaticVerdict, NodeLocal, Stripped, Betrays;
      OneProbe(w, x, pods[0]);
    }
  }

  // ----- the gate -----

  /** If the gate passes on the pool's two nodes with some workload, the workload survives
      the loss of the node that the gate did not drop. */
  ghost predicate Reaches(pool: Pool, toPlace: seq<Pod>)
    requires |pool.placeable| == 2
  {
    DistinctKeys(toPlace) && Gate(pool.(toPlace := toPlace), 2) ==>
      SurvivableWithout(SimNodes(pool, pool.placeable), 1 - WorstIndex(pool.placeable), toPlace)
  }

  /** The survival gate drops the largest node only. On two nodes it covers the loss of the
      other one, for every workload, if and only if the largest can replace it. */
  lemma GateReachesExactly(pool: Pool)
    requires |pool.placeable| == 2 && pool.cfg.surviveNodeLoss
    requires Usable(SimNode(pool, pool.placeable[1 - WorstIndex(pool.placeable)]))
    ensures var w := WorstIndex(pool.placeable);
            (forall toPlace: seq<Pod> :: Reaches(pool, toPlace))
            <==> CanReplace(SimNode(pool, pool.placeable[w]), SimNode(pool, pool.placeable[1 - w]))
  {
    var w, nodes := WorstIndex(pool.placeable), SimNodes(pool, pool.placeable);
    assert nodes[w].reservedExt == map[];
    hide *;
    CoveredExactly(nodes, w);
    forall toPlace: seq<Pod> ensures Reaches(pool, toPlace) <==> Covered(nodes, w, toPlace) {
      SameQuestion(pool, toPlace);
    }
  }

  lemma SameQuestion(pool: Pool, toPlace: seq<Pod>)
    requires |pool.placeable| == 2 && pool.cfg.surviveNodeLoss
    ensures Reaches(pool, toPlace) <==> Covered(SimNodes(pool, pool.placeable), WorstIndex(pool.placeable), toPlace)
  {
    hide Gate, PlacesAll, SurvivableWithout, WorstIndex, SimNode, DistinctKeys;
    GateOnTwo(pool, toPlace);
  }

  /** What the gate checks on two nodes. */
  lemma GateOnTwo(pool: Pool, toPlace: seq<Pod>)
    requires |pool.placeable| == 2 && pool.cfg.surviveNodeLoss
    ensures var nodes := SimNodes(pool, pool.placeable);
            Gate(pool.(toPlace := toPlace), 2)
            <==> PlacesAll(nodes, toPlace) && PlacesAll([nodes[1 - WorstIndex(pool.placeable)]], toPlace)
  {
    hide Fit, WorstIndex, SimNode;
    var w, given := WorstIndex(pool.placeable), pool.(toPlace := toPlace);
    assert pool.placeable[..2] == pool.placeable;
    OtherOfTwo(pool.placeable, w);
    forall n ensures SimNode(given, n) == SimNode(pool, n) {
      SameNode(given, pool, n);
    }
    assert SimNodes(given, pool.placeable) == SimNodes(pool, pool.placeable);
    assert SimNodes(given, [pool.placeable[1 - w]]) == [SimNodes(pool, pool.placeable)[1 - w]] by {
      SameNode(given, pool, pool.placeable[1 - w]);
    }
    hide SimNodes;
  }

  lemma SameNode(a: Pool, b: Pool, n: ModelNode)
    requires a == b.(toPlace := a.toPlace)
    ensures SimNode(a, n) == SimNode(b, n)
  {
  }

  // ----- an input on which the largest loss decides nothing -----

  const ROOMIER := ModelNode("a", "workers", map[], [], false, true, 1000, 10000, map[], 0)
  const FASTER := ModelNode("b", "workers", map[], [], false, true, 8000, 9000, map[], 0)
  const BUSY := ModelPod("app", "web", "b", "Running", map[], Controller("ReplicaSet"), 4000, 1000,
                         map[], map[], [], None, [], [])

  /** Two nodes, the larger in memory with little CPU, and one pod that only the other can
      run: the gate passes, the verdict calls two nodes safe, and losing the node that the
      gate did not drop leaves the pod nowhere to go. */
  lemma LargestLossMisleads() returns (pool: Pool)
    ensures pool == PoolOf([ROOMIER, FASTER], map["a" := [], "b" := [BUSY]], UsageSet(map[], HISTORICAL_P95), Config(1, true, 10, 0))
    ensures pool.placeable == [ROOMIER, FASTER] && WorstIndex(pool.placeable) == 0
    ensures Gate(pool, 2) && DerivedFrom(pool, SearchFrom(pool, 1)) == 2
    ensures !SurvivableWithout(SimNodes(pool, pool.placeable), 1, pool.toPlace)
  {
    var usage, cfg := UsageSet(map[], HISTORICAL_P95), Config(1, true, 10, 0);
    var byNode := map[ROOMIER.name := [], FASTER.name := [BUSY]];
    pool := PoolOf([ROOMIER, FASTER], byNode, usage, cfg);
    MisleadingPod(usage, cfg, byNode);
    hide *;
    TwoNodePool(ROOMIER, FASTER, [], BUSY, usage, cfg);
    MisleadingNodes(pool);
    OnlyTheOther(pool, SimNode(pool, ROOMIER), SimNode(pool, FASTER), SimPod(BUSY, usage, cfg));
  }

  lemma MisleadingPod(usage: UsageSet, cfg: Config, byNode: PodsByNode)
    requires usage.pods == map[] && byNode == map[ROOMIER.name := [], FASTER.name := [BUSY]]
    ensures InOrder(ROOMIER, FASTER, PinnedHosts([ROOMIER, FASTER], byNode)) && BUSY.Relocatable()
    ensures var q := SimPod(BUSY, usage, cfg);
            && q.cpu == 4000 && q.mem == 1000 && q.ext == map[] && q.unmodelled == []
            && NodeLocal(q) && Weighty(q) && forall n: Node :: n.taints == [] ==> StaticVerdict(n, q) == None
  {
    SizeWithoutReadings(BUSY, usage, cfg);
    hide Sized;
    assert !BUSY.Pinned();
  }

  lemma MisleadingNodes(pool: Pool)
    requires pool.placeable == [ROOMIER, FASTER] && pool.daemon == NOTHING && pool.pinned == map[]
    requires pool.cfg.headroomPercent == 10
    ensures var a, b := SimNode(pool, ROOMIER), SimNode(pool, FASTER);
            && SimNodes(pool, pool.placeable) == [a, b] && WorstIndex(pool.placeable) == 0
            && a.allocCPU == 900 && b.allocCPU == 7200 && b.allocMem == 8100
            && a.reservedCPU == b.reservedCPU == b.reservedMem == 0
            && b.maxPods == 0 && b.taints == [] && b.reservedExt == map[]
  {
    assert !Bigger(FASTER, ROOMIER) && Bigger(ROOMIER, FASTER);
    hide WorstIndex;
  }

  lemma OnlyTheOther(pool: Pool, a: Node, b: Node, q: Pod)
    requires |pool.placeable| == 2 && SimNodes(pool, pool.placeable) == [a, b] && pool.cfg.surviveNodeLoss
    requires pool.toPlace == [q] && WorstIndex(pool.placeable) == 0 && pool.stranded == 0 && q.unmodelled == []
    requires Weighty(q) && NodeLocal(q) && StaticVerdict(b, q) == None && b.reservedExt == q.ext == map[]
    requires b.reservedCPU + q.cpu <= b.allocCPU && b.reservedMem + q.mem <= b.allocMem && b.maxPods == 0
    requires a.reservedCPU + q.cpu > a.allocCPU
    ensures Gate(pool, 2) && DerivedFrom(pool, SearchFrom(pool, 1)) == 2
    ensures !SurvivableWithout([a, b], 1, [q])
  {
    assert q in [q] && !SomeUnmodelled([q]);
    OneTakesOneDoesNot(a, b, q);
    hide RoomForAll, NoHome, SortedForPacking, NodeLocal, StaticVerdict, SomeUnmodelled;
    RoomyNodeTakesAll([a, b], 1, [q]);
    RoomyNodeTakesAll([b], 0, [q]);
    NoGateOnOne(pool);
    hide PlacesAll, WorstIndex, Gate;
    GateOnTwo(pool, [q]);
    SearchMeaning(pool, 1);
    hide SearchFrom;
    OtherOfTwo([a, b], 1);
    NowhereToGo(a, [q]);
    assert pool.(toPlace := [q]) == pool;
  }

  lemma OneTakesOneDoesNot(a: Node, b: Node, q: Pod)
    requires Weighty(q) && NodeLocal(q) && StaticVerdict(b, q) == None && b.reservedExt == q.ext == map[]
    requires b.reservedCPU + q.cpu <= b.allocCPU && b.reservedMem + q.mem <= b.allocMem && b.maxPods == 0
    requires a.reservedCPU + q.cpu > a.allocCPU
    ensures RoomForAll(b, SortedForPacking([q])) && NoHome(a, [q])
  {
    OnePodFacts(q);
    hide NodeLocal, StaticVerdict, Weighty, SumCPU, SumMem, SumExt, SortedForPacking;
    assert q in [q];
  }

  /** With the gate on, one node is never enough for a workload that has pods. */
  lemma NoGateOnOne(pool: Pool)
    requires pool.placeable != [] && pool.cfg.surviveNodeLoss && pool.toPlace != []
    ensures !Gate(pool, 1)
  {
    assert WithoutWorst(pool.placeable[..1]) == [];
  }
}
