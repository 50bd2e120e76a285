/** Extended resources, such as GPUs: what the placement guarantees about them, and the
    room it does not know to be taken. */
module ExtendedProofs {
  import opened Basics
  import opened Constraints
  import opened Sorting
  import opened Packer
  import opened PackingProofs
  import opened Usage
  import opened Capacity
  import opened VerdictProofs
  import opened SmallPools

  // ----- what the assignments put on one node -----

  /** The demand for one resource of the pods assigned to a node. */
  function AssignedExt(pods: seq<Pod>, assignments: map<string, string>, name: string, r: string): int {
    if pods == [] then 0
    else AssignedExt(pods[..|pods| - 1], assignments, name, r) + ExtCost(pods[|pods| - 1], assignments, name, r)
  }

  function ExtCost(p: Pod, assignments: map<string, string>, name: string, r: string): int {
    if AssignedTo(assignments, Key(p), name) then Quantity(p.ext, r) else 0
  }

  lemma {:induction false} ExtUnchanged(
    pods: seq<Pod>, before: map<string, string>, after: map<string, string>, name: string, r: string)
    requires forall p :: p in pods ==> AssignedTo(before, Key(p), name) == AssignedTo(after, Key(p), name)
    ensures AssignedExt(pods, before, name, r) == AssignedExt(pods, after, name, r)
  {
    if pods == [] {
    } else {
      ExtUnchanged(pods[..|pods| - 1], before, after, name, r);
      assert pods[|pods| - 1] in pods;
    }
  }

  lemma ExtStep(st: PackState, pod: Pod, i: nat, r: string)
    requires i < |st.slots| && DistinctSlotNames(st.slots) && Key(pod) !in st.assignments
    ensures SumExt(PlaceOne(st, pod).slots[i].placed, r)
            == SumExt(st.slots[i].placed, r) + ExtCost(pod, PlaceOne(st, pod).assignments, st.slots[i].node.name, r)
  {
    var k, next := FirstFit(st.slots, pod, 0), PlaceOne(st, pod);
    assert k < |st.slots| && k != i ==> st.slots[k].node.name != st.slots[i].node.name;
    PlacedOrNot(st, pod);
    hide FirstFit, PlaceOne, Key, DistinctSlotNames, SumExt;
    if k == i {
      SumsAppend(st.slots[k].placed, pod);
      assert next.slots[i] == Slot(st.slots[i].node, st.slots[i].placed + [pod]);
    } else {
      assert next.slots[i] == st.slots[i];
    }
  }

  lemma {:induction false} ExtIsPlaced(nodes: seq<Node>, pods: seq<Pod>, i: nat, r: string)
    requires DistinctKeys(pods) && DistinctSlotNames(EmptySlots(nodes)) && i < |nodes|
    ensures |Pack(EmptySlots(nodes), pods).slots| == |nodes|
    ensures AssignedExt(pods, Pack(EmptySlots(nodes), pods).assignments, nodes[i].name, r)
            == SumExt(Pack(EmptySlots(nodes), pods).slots[i].placed, r)
  {
    PackKeepsNodes(EmptySlots(nodes), pods);
    if pods == [] {
    } else {
      var n := |pods| - 1;
      var st, next := Pack(EmptySlots(nodes), pods[..n]), Pack(EmptySlots(nodes), pods);
      ExtIsPlaced(nodes, pods[..n], i, r);
      LastUntouched(EmptySlots(nodes), pods);
      PackKeepsNodes(EmptySlots(nodes), pods[..n]);
      LastKeyFresh(pods);
      forall p | p in pods[..n]
        ensures AssignedTo(st.assignments, Key(p), nodes[i].name) == AssignedTo(next.assignments, Key(p), nodes[i].name)
      {
        assert KnownKey(pods[..n], Key(p));
      }
      ExtUnchanged(pods[..n], st.assignments, next.assignments, nodes[i].name, r);
      ExtStep(st, pods[n], i, r);
    }
  }

  lemma {:induction false} ExtRemove(s: seq<Pod>, j: nat, a: map<string, string>, name: string, r: string)
    requires j < |s|
    ensures AssignedExt(s, a, name, r) == AssignedExt(RemoveAt(s, j), a, name, r) + ExtCost(s[j], a, name, r)
  {
    var n := |s| - 1;
    if j == n {
      assert RemoveAt(s, j) == s[..n];
    } else {
      ExtRemove(s[..n], j, a, name, r);
      assert RemoveAt(s, j) == RemoveAt(s[..n], j) + [s[n]];
      assert (RemoveAt(s[..n], j) + [s[n]])[..n - 1] == RemoveAt(s[..n], j);
    }
  }

  lemma {:induction false} ExtReorder(a: seq<Pod>, b: seq<Pod>, assignments: map<string, string>, name: string, r: string)
    requires multiset(a) == multiset(b)
    ensures AssignedExt(a, assignments, name, r) == AssignedExt(b, assignments, name, r)
  {
    SameElements(a, b);
    if a == [] {
    } else {
      var n := |a| - 1;
      assert a[n] in a;
      assert a[n] in b;
      var j :| 0 <= j < |b| && b[j] == a[n];
      ExtRemove(a, n, assignments, name, r);
      ExtRemove(b, j, assignments, name, r);
      RemoveAtMultiset(a, n);
      RemoveAtMultiset(b, j);
      ExtReorder(RemoveAt(a, n), RemoveAt(b, j), assignments, name, r);
    }
  }

  // ----- the guarantee -----

  /** Some pod assigned to the node asks for the resource. */
  ghost predicate Asks(pods: seq<Pod>, assignments: map<string, string>, name: string, r: string) {
    exists p :: p in pods && AssignedTo(assignments, Key(p), name) && r in p.ext
  }

  /** Where a pod asks for a resource, the node's pods together stay within what the node
      offers beyond its reservation. */
  lemma AssignedExtFits(nodes: seq<Node>, pods: seq<Pod>, k: nat, r: string)
    requires DistinctKeys(pods) && DistinctSlotNames(EmptySlots(nodes)) && k < |nodes|
    ensures var a := Fit(nodes, pods).assignments;
            Asks(pods, a, nodes[k].name, r) ==>
              Quantity(nodes[k].reservedExt, r) + AssignedExt(pods, a, nodes[k].name, r) <= Quantity(nodes[k].allocExt, r)
  {
    var ordered, a := SortedForPacking(pods), Fit(nodes, pods).assignments;
    assert a == Pack(EmptySlots(nodes), ordered).assignments;
    SortingKeeps(pods);
    OrderProofs.DistinctKeysReorder(pods, ordered);
    hide Fit, SortedForPacking;
    if Asks(pods, a, nodes[k].name, r) {
      var p :| p in pods && AssignedTo(a, Key(p), nodes[k].name) && r in p.ext;
      ExtReorder(ordered, pods, a, nodes[k].name, r);
      ExtIsPlaced(nodes, ordered, k, r);
      AskerSits(nodes, ordered, k, p);
      assert AllSound(EmptySlots(nodes)) by {
        EmptyIsSound(nodes);
      }
      PackSound(EmptySlots(nodes), ordered);
      PackKeepsNodes(EmptySlots(nodes), ordered);
      hide Pack, AssignedExt, SumExt;
      assert ExtFits(Pack(EmptySlots(nodes), ordered).slots[k], p);
    }
  }

  lemma AskerSits(nodes: seq<Node>, pods: seq<Pod>, k: nat, p: Pod)
    requires DistinctKeys(pods) && DistinctSlotNames(EmptySlots(nodes)) && k < |nodes| && p in pods
    requires AssignedTo(Pack(EmptySlots(nodes), pods).assignments, Key(p), nodes[k].name)
    ensures |Pack(EmptySlots(nodes), pods).slots| == |nodes| && p in Pack(EmptySlots(nodes), pods).slots[k].placed
  {
    var o :| 0 <= o < |pods| && pods[o] == p;
    EveryPodAccounted(EmptySlots(nodes), pods, o);
    PackKeepsNodes(EmptySlots(nodes), pods);
    hide Pack;
    var st := Pack(EmptySlots(nodes), pods);
    var i :| 0 <= i < |st.slots| && p in st.slots[i].placed && st.slots[i].node.name == nodes[k].name;
    assert EmptySlots(nodes)[i].node == nodes[i] && EmptySlots(nodes)[k].node == nodes[k];
    assert i == k;
  }

  // ----- what the reservation leaves out -----

  /** The demand for one resource of a node's DaemonSet and pinned pods. */
  function ResidentExt(pods: seq<ModelPod>, r: string): int {
    if pods == [] then 0
    else
      var last := pods[|pods| - 1];
      ResidentExt(pods[..|pods| - 1], r) + if last.Relocatable() then 0 else Quantity(last.reqExt, r)
  }

  /** Whatever is placed on the node, its residents' demand included, stays within what it
      offers of a resource that the placed pods ask for. */
  ghost predicate ExtKept(pool: Pool, n: ModelNode, residents: seq<ModelPod>, r: string) {
    forall pods: seq<Pod> :: DistinctKeys(pods) && Asks(pods, OnOne(pool, n, pods).assignments, n.name, r) ==>
      ResidentExt(residents, r) + AssignedExt(pods, OnOne(pool, n, pods).assignments, n.name, r) <= Quantity(n.allocExt, r)
  }

  ghost function OnOne(pool: Pool, n: ModelNode, pods: seq<Pod>): Placement {
    FitNodes(pool.(toPlace := pods), [n])
  }

  /** The node can still take a pod that needs no CPU and no memory. */
  ghost predicate Open(pool: Pool, n: ModelNode) {
    var s := SimNode(pool, n);
    && s.reservedCPU <= s.allocCPU && s.reservedMem <= s.allocMem
    && (s.maxPods > 0 ==> s.reservedPods < s.maxPods)
  }

  /** The engine reserves no extended resource for DaemonSet and pinned pods. A node's
      offer of one is safe from every workload if and only if they ask for none of it. */
  lemma ExtKeptExactly(pool: Pool, n: ModelNode, residents: seq<ModelPod>, r: string)
    requires Open(pool, n) && Quantity(n.allocExt, r) >= 0
    ensures ExtKept(pool, n, residents, r) <==> ResidentExt(residents, r) <= 0
  {
    if ResidentExt(residents, r) <= 0 {
      forall pods: seq<Pod> | DistinctKeys(pods) && Asks(pods, OnOne(pool, n, pods).assignments, n.name, r)
        ensures ResidentExt(residents, r) + AssignedExt(pods, OnOne(pool, n, pods).assignments, n.name, r)
                <= Quantity(n.allocExt, r)
      {
        OneNodeExtFits(pool, n, pods, r);
      }
    } else {
      TakesAll(pool, n, r);
    }
  }

  lemma OneNodeExtFits(pool: Pool, n: ModelNode, pods: seq<Pod>, r: string)
    requires DistinctKeys(pods) && Asks(pods, OnOne(pool, n, pods).assignments, n.name, r)
    ensures AssignedExt(pods, OnOne(pool, n, pods).assignments, n.name, r) <= Quantity(n.allocExt, r)
  {
    var nodes := SimNodes(pool.(toPlace := pods), [n]);
    assert nodes[0].name == n.name && nodes[0].reservedExt == map[] && nodes[0].allocExt == n.allocExt;
    hide Fit, AssignedExt;
    AssignedExtFits(nodes, pods, 0, r);
  }

  /** A pod that tolerates every taint and asks for the whole of one resource. */
  function Greedy(r: string, quantity: int): Pod {
    Pod("app", "greedy", map[], 0, 0, map[r := quantity], map[], [Toleration("", "Exists", "", "")], None, [], [])
  }

  lemma TakesAll(pool: Pool, n: ModelNode, r: string)
    requires Open(pool, n) && Quantity(n.allocExt, r) >= 0
    ensures var pods := [Greedy(r, Quantity(n.allocExt, r))];
            && DistinctKeys(pods) && Asks(pods, OnOne(pool, n, pods).assignments, n.name, r)
            && AssignedExt(pods, OnOne(pool, n, pods).assignments, n.name, r) == Quantity(n.allocExt, r)
  {
    var p := Greedy(r, Quantity(n.allocExt, r));
    var nodes := SimNodes(pool.(toPlace := [p]), [n]);
    assert nodes[0] == SimNode(pool, n) && nodes[0].name == n.name;
    GreedyFits(SimNode(pool, n), r, Quantity(n.allocExt, r));
    assert NodeLocal(p) && p.ext == map[r := Quantity(n.allocExt, r)];
    hide LocalVerdict, NodeLocal, Greedy, Fit, SimNode, Open;
    OnePodFits(nodes, p);
    OnlyAssigned(p, n.name, r);
    assert p in [p];
  }

  lemma GreedyFits(node: Node, r: string, quantity: int)
    requires node.reservedCPU <= node.allocCPU && node.reservedMem <= node.allocMem
    requires node.maxPods > 0 ==> node.reservedPods < node.maxPods
    requires node.reservedExt == map[] && Quantity(node.allocExt, r) == quantity
    ensures LocalVerdict(Slot(node, []), Greedy(r, quantity)) == None
  {
    var p := Greedy(r, quantity);
    assert p.tolerations[0] in p.tolerations;
    assert forall t :: Covers(p.tolerations[0], t);
  }

  lemma OnlyAssigned(p: Pod, name: string, r: string)
    ensures AssignedExt([p], map[Key(p) := name], name, r) == Quantity(p.ext, r)
  {
    var none: seq<Pod>, seat := [], map[Key(p) := name];
    assert ExtCost(p, seat, name, r) == Quantity(p.ext, r);
    hide *;
    LastAssignedExt(none, p, seat, name, r);
    NoneAssignedExt(seat, name, r);
    assert none + [p] == [p];
  }

  lemma NoneAssignedExt(assignments: map<string, string>, name: string, r: string)
    ensures AssignedExt([], assignments, name, r) == 0
  {
  }

  lemma LastAssignedExt(pods: seq<Pod>, last: Pod, assignments: map<string, string>, name: string, r: string)
    ensures AssignedExt(pods + [last], assignments, name, r)
            == AssignedExt(pods, assignments, name, r) + ExtCost(last, assignments, name, r)
  {
    hide ExtCost;
    assert (pods + [last])[..|pods|] == pods;
  }

  // ----- a GPU promised twice -----

  const GPU := "nvidia.com/gpu"

  /** Two nodes with one GPU each: a bare pod holds the first node's, a movable pod the
      second's. The verdict gives the second node back and moves its pod onto the first,
      whose only GPU is then asked for twice. */
  lemma GpuPromisedTwice() returns (nodes: seq<ModelNode>, byNode: PodsByNode, usage: UsageSet, cfg: Config)
    ensures |nodes| == 2 && nodes[0].allocExt == map[GPU := 1]
    ensures var pool := PoolOf(nodes, byNode, usage, cfg);
            var v := VerdictOf("workers", pool, HISTORICAL_P95);
            && v.minimumSafeNodes == 1 && v.removableNodes == 1 && v.actionable
            && pool.placeable == nodes
            && ResidentExt(PodsOn(byNode, nodes[0].name), GPU)
               + AssignedExt(pool.toPlace, FitNodes(pool, [nodes[0]]).assignments, nodes[0].name, GPU) == 2
  {
    var a := ModelNode("a", "workers", map[], [], false, true, 1000, 1000, map[GPU := 1], 0);
    var b := a.(name := "b");
    var held := ModelPod("ops", "train", "a", "Running", map[], NoOwner, 100, 100, map[GPU := 1], map[], [], None, [], []);
    var p := ModelPod("app", "infer", "b", "Running", map[], Controller("ReplicaSet"), 100, 100, map[GPU := 1],
                      map[], [], None, [], []);
    nodes, byNode, usage, cfg := [a, b], OnTwo(a, b, [held], p), UsageSet(map[], HISTORICAL_P95), Config(1, false, 0, 0);
    FirstHostPinned(a, b, held, p);
    SizeWithoutReadings(p, usage, cfg);
    SizeWithoutReadings(held, usage, cfg);
    assert Example(a, b, [held], p, usage, cfg) by {
      hide Sized, PinnedHosts, OnTwo;
    }
    GpuAssigned(a, b, held, p, usage, cfg);
  }

  lemma FirstHostPinned(a: ModelNode, b: ModelNode, held: ModelPod, p: ModelPod)
    requires a.name != b.name && held.Pinned() && p.Relocatable()
    ensures PinnedHosts([a, b], OnTwo(a, b, [held], p)) == {a.name}
  {
    var byNode := OnTwo(a, b, [held], p);
    assert PodsOn(byNode, a.name)[0].Pinned() && !p.Pinned();
    assert [a, b][0] == a;
  }

  lemma GpuAssigned(a: ModelNode, b: ModelNode, held: ModelPod, p: ModelPod, usage: UsageSet, cfg: Config)
    requires Example(a, b, [held], p, usage, cfg) && cfg.Floor() == 1 && !cfg.surviveNodeLoss && a.name != b.name
    requires held.reqExt == map[GPU := 1] && p.reqExt == map[GPU := 1]
    ensures var pool, byNode := PoolOf([a, b], OnTwo(a, b, [held], p), usage, cfg), OnTwo(a, b, [held], p);
            var v := VerdictOf("workers", pool, HISTORICAL_P95);
            && v.minimumSafeNodes == 1 && v.removableNodes == 1 && v.actionable && pool.placeable == [a, b]
            && ResidentExt(PodsOn(byNode, a.name), GPU)
               + AssignedExt(pool.toPlace, FitNodes(pool, [a]).assignments, a.name, GPU) == 2
  {
    var pool := PoolOf([a, b], OnTwo(a, b, [held], p), usage, cfg);
    assert !held.Relocatable() && PodsOn(OnTwo(a, b, [held], p), a.name) == [held];
    OneResident(held, GPU);
    ExampleFirstNode(pool, a, b, [held], p, usage, cfg);
    ExampleShrinks(a, b, [held], p, usage, cfg);
    OnlyAssigned(SimPod(p, usage, cfg), a.name, GPU);
    hide PoolOf, SimPod, VerdictOf, FitNodes, OnTwo, Example, LocalVerdict, NodeLocal, AssignedExt, ResidentExt;
  }

  lemma OneResident(held: ModelPod, r: string)
    requires !held.Relocatable()
    ensures ResidentExt([held], r) == Quantity(held.reqExt, r)
  {
    var none: seq<ModelPod> := [];
    LastResident(none, held, r);
    assert ResidentExt(none, r) == 0;
    hide *;
    assert none + [held] == [held];
  }

  lemma LastResident(pods: seq<ModelPod>, last: ModelPod, r: string)
    ensures ResidentExt(pods + [last], r) == ResidentExt(pods, r) + if last.Relocatable() then 0 else Quantity(last.reqExt, r)
  {
    assert (pods + [last])[..|pods|] == pods;
  }
}
