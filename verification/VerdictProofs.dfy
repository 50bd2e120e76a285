/** A found node count really carries the pool: on every node that receives a pod, the raw
    requests of its DaemonSet pods, pinned pods and assigned pods fit. */
module VerdictProofs {
  import opened Sorting
  import opened Packer
  import opened PackingProofs
  import opened Usage
  import opened Capacity
  import opened CapacityProofs
  import OrderProofs

  /** Component-wise at most. */
  ghost predicate Below(a: Footprint, b: Footprint) {
    a.cpu <= b.cpu && a.mem <= b.mem && a.pods <= b.pods
  }

  predicate AssignedTo(assignments: map<string, string>, key: string, name: string) {
    key in assignments && assignments[key] == name
  }

  /** The raw requests of the pods assigned to one node. */
  function RawLoad(pods: seq<ModelPod>, assignments: map<string, string>, name: string): Footprint {
    if pods == [] then NOTHING
    else
      var last := pods[|pods| - 1];
      RawLoad(pods[..|pods| - 1], assignments, name).Plus(
        if AssignedTo(assignments, PodKey(last), name) then Footprint(last.reqCPU, last.reqMem, 1) else NOTHING)
  }

  /** The simulated footprint of the pods assigned to one node. */
  function SimLoad(pods: seq<Pod>, assignments: map<string, string>, name: string): Footprint {
    if pods == [] then NOTHING
    else SimLoad(pods[..|pods| - 1], assignments, name).Plus(SimCost(pods[|pods| - 1], assignments, name))
  }

  function SimCost(p: Pod, assignments: map<string, string>, name: string): Footprint {
    if AssignedTo(assignments, Key(p), name) then Footprint(p.cpu, p.mem, 1) else NOTHING
  }

  /** The raw requests of a host's unevictable pods. */
  function PinnedRaw(pods: seq<ModelPod>): Footprint {
    if pods == [] then NOTHING
    else
      var last := pods[|pods| - 1];
      PinnedRaw(pods[..|pods| - 1]).Plus(if last.Pinned() then Footprint(last.reqCPU, last.reqMem, 1) else NOTHING)
  }

  // ----- the simulated load is what the pass placed -----

  lemma {:induction false} LoadUnchanged(pods: seq<Pod>, before: map<string, string>, after: map<string, string>, name: string)
    requires forall p :: p in pods ==> AssignedTo(before, Key(p), name) == AssignedTo(after, Key(p), name)
    ensures SimLoad(pods, before, name) == SimLoad(pods, after, name)
  {
    if pods == [] {
    } else {
      LoadUnchanged(pods[..|pods| - 1], before, after, name);
      assert pods[|pods| - 1] in pods;
    }
  }

  ghost predicate DistinctSlotNames(slots: seq<Slot>) {
    forall i, j :: 0 <= i < j < |slots| ==> slots[i].node.name != slots[j].node.name
  }

  function PlacedFootprint(s: Slot): Footprint {
    Footprint(SumCPU(s.placed), SumMem(s.placed), |s.placed|)
  }

  /** With distinct node names and pod keys, the reported assignments account for exactly
      what sits on each node. */
  lemma {:induction false} LoadIsPlaced(nodes: seq<Node>, pods: seq<Pod>, i: nat)
    requires DistinctKeys(pods) && DistinctSlotNames(EmptySlots(nodes)) && i < |nodes|
    ensures |Pack(EmptySlots(nodes), pods).slots| == |nodes|
    ensures SimLoad(pods, Pack(EmptySlots(nodes), pods).assignments, nodes[i].name)
            == PlacedFootprint(Pack(EmptySlots(nodes), pods).slots[i])
  {
    PackKeepsNodes(EmptySlots(nodes), pods);
    if pods == [] {
    } else {
      var n := |pods| - 1;
      var st, next := Pack(EmptySlots(nodes), pods[..n]), Pack(EmptySlots(nodes), pods);
      LoadIsPlaced(nodes, pods[..n], i);
      LastUntouched(EmptySlots(nodes), pods);
      PackKeepsNodes(EmptySlots(nodes), pods[..n]);
      LastKeyFresh(pods);
      forall p | p in pods[..n]
        ensures AssignedTo(st.assignments, Key(p), nodes[i].name) == AssignedTo(next.assignments, Key(p), nodes[i].name)
      {
        assert KnownKey(pods[..n], Key(p));
      }
      LoadUnchanged(pods[..n], st.assignments, next.assignments, nodes[i].name);
      StepLoad(st, pods[n], i);
    }
  }

  lemma StepLoad(st: PackState, pod: Pod, i: nat)
    requires i < |st.slots| && DistinctSlotNames(st.slots) && Key(pod) !in st.assignments
    ensures PlacedFootprint(PlaceOne(st, pod).slots[i])
            == PlacedFootprint(st.slots[i]).Plus(SimCost(pod, PlaceOne(st, pod).assignments, st.slots[i].node.name))
  {
    var k, next := FirstFit(st.slots, pod, 0), PlaceOne(st, pod);
    assert k < |st.slots| && k != i ==> st.slots[k].node.name != st.slots[i].node.name;
    PlacedOrNot(st, pod);
    hide FirstFit, PlaceOne, Key, DistinctSlotNames, PlacedFootprint;
    if k == i {
      PlacedOne(st.slots[k], pod);
      assert next.slots[i] == Slot(st.slots[i].node, st.slots[i].placed + [pod]);
      assert SimCost(pod, next.assignments, st.slots[i].node.name) == Footprint(pod.cpu, pod.mem, 1);
    } else {
      assert next.slots[i] == st.slots[i];
      assert SimCost(pod, next.assignments, st.slots[i].node.name) == NOTHING;
    }
  }

  lemma PlacedOne(s: Slot, pod: Pod)
    ensures PlacedFootprint(Slot(s.node, s.placed + [pod])) == PlacedFootprint(s).Plus(Footprint(pod.cpu, pod.mem, 1))
  {
    SumsAppend(s.placed, pod);
  }

  lemma PlacedOrNot(st: PackState, pod: Pod)
    ensures var k, next := FirstFit(st.slots, pod, 0), PlaceOne(st, pod);
            if k < |st.slots| then
              && next.slots == st.slots[k := Slot(st.slots[k].node, st.slots[k].placed + [pod])]
              && next.assignments == st.assignments[Key(pod) := st.slots[k].node.name]
            else next.slots == st.slots && next.assignments == st.assignments
  {
  }

  lemma {:induction false} LoadRemove(s: seq<Pod>, j: nat, a: map<string, string>, name: string)
    requires j < |s|
    ensures SimLoad(s, a, name) == SimLoad(RemoveAt(s, j), a, name).Plus(SimCost(s[j], a, name))
  {
    var n := |s| - 1;
    if j == n {
      assert RemoveAt(s, j) == s[..n];
    } else {
      LoadRemove(s[..n], j, a, name);
      assert RemoveAt(s, j) == RemoveAt(s[..n], j) + [s[n]];
      assert (RemoveAt(s[..n], j) + [s[n]])[..n - 1] == RemoveAt(s[..n], j);
    }
  }

  lemma {:induction false} LoadReorder(a: seq<Pod>, b: seq<Pod>, assignments: map<string, string>, name: string)
    requires multiset(a) == multiset(b)
    ensures SimLoad(a, assignments, name) == SimLoad(b, assignments, name)
  {
    SameElements(a, b);
    if a == [] {
    } else {
      var n := |a| - 1;
      assert a[n] in a;
      assert a[n] in b;
      var j :| 0 <= j < |b| && b[j] == a[n];
      LoadRemove(a, n, assignments, name);
      LoadRemove(b, j, assignments, name);
      RemoveAtMultiset(a, n);
      RemoveAtMultiset(b, j);
      LoadReorder(RemoveAt(a, n), RemoveAt(b, j), assignments, name);
    }
  }

  // ----- raw requests stay below what was charged -----

  lemma SizedCovers(p: ModelPod, usage: UsageSet, cfg: Config)
    ensures p.reqCPU <= Sized(p, usage, cfg).0 && p.reqMem <= Sized(p, usage, cfg).1
  {
  }

  lemma {:induction false} RawBelowSim(pods: seq<ModelPod>, usage: UsageSet, cfg: Config, a: map<string, string>, name: string)
    ensures Below(RawLoad(pods, a, name), SimLoad(SimPods(pods, usage, cfg), a, name))
  {
    if pods == [] {
    } else {
      var n := |pods| - 1;
      SizedCovers(pods[n], usage, cfg);
      hide Sized;
      RawBelowSim(pods[..n], usage, cfg, a, name);
      assert SimPods(pods, usage, cfg)[..n] == SimPods(pods[..n], usage, cfg);
    }
  }

  lemma {:induction false} DaemonBelowMax(nodes: seq<ModelNode>, byNode: PodsByNode, i: nat)
    requires i < |nodes|
    ensures Below(DaemonOn(PodsOn(byNode, nodes[i].name)), DaemonMax(nodes, byNode))
  {
    if i < |nodes| - 1 {
      DaemonBelowMax(nodes[..|nodes| - 1], byNode, i);
    }
  }

  lemma ChargeOne(prev: map<string, Footprint>, name: string, last: ModelPod, usage: UsageSet, cfg: Config,
                  base: Footprint, raw: Footprint, other: string)
    requires Below(base.Plus(raw), FootprintOf(prev, name))
    ensures var next := if last.Pinned() then prev[name := FootprintOf(prev, name).Plus(PinnedCost(last, usage, cfg))] else prev;
            && (other != name ==> FootprintOf(next, other) == FootprintOf(prev, other))
            && Below(base.Plus(raw.Plus(if last.Pinned() then Footprint(last.reqCPU, last.reqMem, 1) else NOTHING)),
                     FootprintOf(next, name))
  {
    SizedCovers(last, usage, cfg);
    hide Sized;
  }

  lemma {:induction false} AddPinnedCharges(
    m: map<string, Footprint>, name: string, pods: seq<ModelPod>, usage: UsageSet, cfg: Config, other: string)
    ensures other != name ==>
              FootprintOf(AddPinned(m, name, pods, usage, cfg), other) == FootprintOf(m, other)
    ensures Below(FootprintOf(m, name).Plus(PinnedRaw(pods)), FootprintOf(AddPinned(m, name, pods, usage, cfg), name))
  {
    if pods == [] {
    } else {
      var n := |pods| - 1;
      AddPinnedCharges(m, name, pods[..n], usage, cfg, other);
      ChargeOne(AddPinned(m, name, pods[..n], usage, cfg), name, pods[n], usage, cfg, FootprintOf(m, name), PinnedRaw(pods[..n]), other);
      hide PinnedCost, Below, FootprintOf;
    }
  }

  ghost predicate DistinctNames(nodes: seq<ModelNode>) {
    DistinctBy(nodes, (n: ModelNode) => n.name)
  }

  lemma {:induction false} UnseenHost(nodes: seq<ModelNode>, byNode: PodsByNode, usage: UsageSet, cfg: Config, name: string)
    requires forall i :: 0 <= i < |nodes| ==> nodes[i].name != name
    ensures FootprintOf(PinnedByHost(nodes, byNode, usage, cfg), name) == NOTHING
  {
    if nodes == [] {
    } else {
      var n := |nodes| - 1;
      forall i | 0 <= i < n ensures nodes[..n][i].name != name {
        assert nodes[..n][i] == nodes[i];
      }
      UnseenHost(nodes[..n], byNode, usage, cfg, name);
      AddPinnedCharges(PinnedByHost(nodes[..n], byNode, usage, cfg), nodes[n].name,
                       PodsOn(byNode, nodes[n].name), usage, cfg, name);
    }
  }

  lemma {:induction false} PinnedCharged(nodes: seq<ModelNode>, byNode: PodsByNode, usage: UsageSet, cfg: Config, i: nat)
    requires DistinctNames(nodes) && i < |nodes|
    ensures Below(PinnedRaw(PodsOn(byNode, nodes[i].name)),
                  FootprintOf(PinnedByHost(nodes, byNode, usage, cfg), nodes[i].name))
  {
    hide AddPinned, PinnedRaw, PodsOn;
    var n := |nodes| - 1;
    var prev := PinnedByHost(nodes[..n], byNode, usage, cfg);
    if i < n {
      assert DistinctNames(nodes[..n]);
      PinnedCharged(nodes[..n], byNode, usage, cfg, i);
    } else {
      UnseenHost(nodes[..n], byNode, usage, cfg, nodes[n].name);
    }
    AddPinnedCharges(prev, nodes[n].name, PodsOn(byNode, nodes[n].name), usage, cfg, nodes[i].name);
  }

  // ----- the searched nodes come from the pool -----

  lemma PlaceableFromPool(nodes: seq<ModelNode>, byNode: PodsByNode, usage: UsageSet, cfg: Config, k: nat) returns (i: nat)
    requires k < |PoolOf(nodes, byNode, usage, cfg).placeable|
    ensures i < |nodes| && nodes[i] == PoolOf(nodes, byNode, usage, cfg).placeable[k] && nodes[i].Schedulable()
  {
    var sorted := SortedNodes(nodes, PinnedHosts(nodes, byNode));
    var j := PlaceableIsSubsequence(sorted, k);
    SortKeepsElements(nodes, NodeOrder(PinnedHosts(nodes, byNode)));
    assert sorted[j] in nodes;
    i :| 0 <= i < |nodes| && nodes[i] == sorted[j];
  }

  lemma PlaceableNamesDistinct(nodes: seq<ModelNode>, byNode: PodsByNode, usage: UsageSet, cfg: Config)
    requires DistinctNames(nodes)
    ensures DistinctNames(PoolOf(nodes, byNode, usage, cfg).placeable)
  {
    var hosts := PinnedHosts(nodes, byNode);
    var sorted := SortedNodes(nodes, hosts);
    SortKeepsElements(nodes, NodeOrder(hosts));
    DistinctByReorder(nodes, sorted, (n: ModelNode) => n.name);
    var p := PlaceableOf(sorted);
    forall i, j | 0 <= i < j < |p| ensures p[i].name != p[j].name {
      var k := PlaceableIsSubsequence(sorted, i);
      var l := PlaceableIsSubsequence(sorted, j);
      if l <= k {
        PlaceableMonotone(sorted, l, k);
        assert false;
      }
    }
  }

  // ----- verdict soundness -----

  /** What a node of the pool carries under a placement, in raw requests. */
  function Carried(nodes: seq<ModelNode>, byNode: PodsByNode, f: Placement, name: string): Footprint {
    DaemonOn(PodsOn(byNode, name)).Plus(PinnedRaw(PodsOn(byNode, name)))
      .Plus(RawLoad(Movable(nodes, byNode), f.assignments, name))
  }

  /** The capacity the verdict may rely on: allocatable minus the withheld headroom. */
  ghost predicate WithinHeadroom(load: Footprint, n: ModelNode, cfg: Config) {
    && load.cpu <= Withhold(n.allocCPU, cfg.Headroom())
    && load.mem <= Withhold(n.allocMem, cfg.Headroom())
    && (n.maxPods > 0 ==> load.pods <= n.maxPods)
  }

  lemma ReceivingSlotFits(pool: Pool, retained: seq<ModelNode>, k: nat)
    requires DistinctKeys(pool.toPlace) && DistinctNames(retained) && k < |retained|
    ensures var load := SimLoad(pool.toPlace, FitNodes(pool, retained).assignments, retained[k].name);
            var own := FootprintOf(pool.pinned, retained[k].name);
            load.pods > 0 ==> WithinHeadroom(pool.daemon.Plus(own).Plus(load), retained[k], pool.cfg)
  {
    var nodes := SimNodes(pool, retained);
    assert DistinctSlotNames(EmptySlots(nodes)) by {
      hide FitNodes, SoundSlot;
    }
    assert nodes[k].name == retained[k].name;
    hide *;
    var slot := SeatOf(nodes, pool.toPlace, k);
    SoundSlotFits(pool, retained[k], slot);
    FitsTheNodes(pool, retained);
  }

  lemma FitsTheNodes(pool: Pool, retained: seq<ModelNode>)
    ensures FitNodes(pool, retained) == Fit(SimNodes(pool, retained), pool.toPlace)
  {
  }

  /** The sound final slot of a node, holding exactly what the placement assigns to it. */
  lemma SeatOf(nodes: seq<Node>, pods: seq<Pod>, k: nat) returns (slot: Slot)
    requires DistinctKeys(pods) && DistinctSlotNames(EmptySlots(nodes)) && k < |nodes|
    ensures SoundSlot(slot) && slot.node == nodes[k]
    ensures SimLoad(pods, Fit(nodes, pods).assignments, nodes[k].name) == PlacedFootprint(slot)
  {
    var ordered := SortedForPacking(pods);
    assert Fit(nodes, pods).assignments == Pack(EmptySlots(nodes), ordered).assignments;
    SortingKeeps(pods);
    hide Fit, Pack, SortedForPacking, SoundSlot, PlacedFootprint, SimLoad;
    OrderProofs.DistinctKeysReorder(pods, ordered);
    LoadReorder(ordered, pods, Fit(nodes, pods).assignments, nodes[k].name);
    LoadIsPlaced(nodes, ordered, k);
    assert AllSound(EmptySlots(nodes)) by {
      EmptyIsSound(nodes);
    }
    PackSound(EmptySlots(nodes), ordered);
    PackKeepsNodes(EmptySlots(nodes), ordered);
    slot := Pack(EmptySlots(nodes), ordered).slots[k];
  }

  lemma EmptyIsSound(nodes: seq<Node>)
    ensures AllSound(EmptySlots(nodes))
  {
  }

  lemma SoundSlotFits(pool: Pool, n: ModelNode, slot: Slot)
    requires SoundSlot(slot) && slot.node == SimNode(pool, n)
    ensures var load := PlacedFootprint(slot);
            load.pods > 0 ==> WithinHeadroom(pool.daemon.Plus(FootprintOf(pool.pinned, n.name)).Plus(load), n, pool.cfg)
  {
  }

  /** On every one of the first `n` placeable nodes that receives a pod, the raw requests
      of its DaemonSet pods, its pinned pods and the pods assigned to it stay within its
      allocatable capacity less the headroom, and within its pod cap. */
  lemma CountedNodesFit(nodes: seq<ModelNode>, byNode: PodsByNode, usage: UsageSet, cfg: Config, n: nat, k: nat)
    requires DistinctNames(nodes) && DistinctKeys(SimPods(Movable(nodes, byNode), usage, cfg))
    requires k < n <= |PoolOf(nodes, byNode, usage, cfg).placeable|
    ensures var pool := PoolOf(nodes, byNode, usage, cfg);
            var f := FitNodes(pool, pool.placeable[..n]);
            RawLoad(Movable(nodes, byNode), f.assignments, pool.placeable[k].name).pods > 0 ==>
              WithinHeadroom(Carried(nodes, byNode, f, pool.placeable[k].name), pool.placeable[k], cfg)
  {
    hide FitNodes, RawLoad, SimLoad, DaemonOn, DaemonMax, PinnedByHost, PinnedRaw, Movable, SimPods;
    hide SortedNodes, PlaceableOf, StrandedOf, PinnedHosts, PodsOn, Withhold, SimNodes;
    var pool := PoolOf(nodes, byNode, usage, cfg);
    var retained := pool.placeable[..n];
    var a := FitNodes(pool, retained).assignments;
    PlaceableNamesDistinct(nodes, byNode, usage, cfg);
    var i := PlaceableFromPool(nodes, byNode, usage, cfg, k);
    assert nodes[i] == retained[k];
    ReceivingSlotFits(pool, retained, k);
    RawBelowSim(Movable(nodes, byNode), usage, cfg, a, nodes[i].name);
    RawCountsSim(Movable(nodes, byNode), usage, cfg, a, nodes[i].name);
    DaemonBelowMax(nodes, byNode, i);
    PinnedCharged(nodes, byNode, usage, cfg, i);
  }

  lemma {:induction false} RawCountsSim(pods: seq<ModelPod>, usage: UsageSet, cfg: Config, a: map<string, string>, name: string)
    ensures RawLoad(pods, a, name).pods == SimLoad(SimPods(pods, usage, cfg), a, name).pods
  {
    if pods == [] {
    } else {
      var n := |pods| - 1;
      RawCountsSim(pods[..n], usage, cfg, a, name);
      assert SimPods(pods, usage, cfg)[..n] == SimPods(pods[..n], usage, cfg);
    }
  }

  lemma {:induction false} MovableHolds(nodes: seq<ModelNode>, byNode: PodsByNode, i: nat, p: ModelPod)
    requires i < |nodes| && p in PodsOn(byNode, nodes[i].name) && p.Relocatable()
    ensures p in Movable(nodes, byNode)
  {
    if i < |nodes| - 1 {
      MovableHolds(nodes[..|nodes| - 1], byNode, i, p);
    } else {
      MovableOnHolds(PodsOn(byNode, nodes[i].name), p);
    }
  }

  lemma {:induction false} MovableOnHolds(pods: seq<ModelPod>, p: ModelPod)
    requires p in pods && p.Relocatable()
    ensures p in MovableOn(pods)
  {
    if p != pods[|pods| - 1] {
      assert pods == pods[..|pods| - 1] + [pods[|pods| - 1]];
      MovableOnHolds(pods[..|pods| - 1], p);
    }
  }

  /** A placement without rejections assigns every pod to one of the nodes given. */
  lemma FitSeats(pool: Pool, retained: seq<ModelNode>, j: nat) returns (k: nat)
    requires DistinctKeys(pool.toPlace) && j < |pool.toPlace|
    requires FitNodes(pool, retained).unplaced == []
    ensures Key(pool.toPlace[j]) in FitNodes(pool, retained).assignments
    ensures k < |retained| && retained[k].name == FitNodes(pool, retained).assignments[Key(pool.toPlace[j])]
  {
    hide Verdict;
    var sims, ordered := SimNodes(pool, retained), SortedForPacking(pool.toPlace);
    var sim := pool.toPlace[j];
    SortingKeeps(pool.toPlace);
    OrderProofs.DistinctKeysReorder(pool.toPlace, ordered);
    assert sim in ordered;
    var o :| 0 <= o < |ordered| && ordered[o] == sim;
    var st := Pack(EmptySlots(sims), ordered);
    EveryPodAccounted(EmptySlots(sims), ordered, o);
    PackKeepsNodes(EmptySlots(sims), ordered);
    k :| 0 <= k < |st.slots| && sim in st.slots[k].placed && st.slots[k].node.name == st.assignments[Key(sim)];
  }

  ghost predicate SeatedWithin(pool: Pool, n: nat, key: string)
    requires n <= |pool.placeable|
  {
    var f := FitNodes(pool, pool.placeable[..n]);
    key in f.assignments && exists k :: 0 <= k < n && pool.placeable[k].name == f.assignments[key]
                                        && pool.placeable[k].Schedulable()
  }

  /** A full placement on the first `n` schedulable nodes seats every relocatable pod there. */
  lemma FullPlacementSeats(nodes: seq<ModelNode>, byNode: PodsByNode, usage: UsageSet, cfg: Config, n: nat, i: nat, p: ModelPod)
    requires DistinctKeys(SimPods(Movable(nodes, byNode), usage, cfg))
    requires i < |nodes| && p in PodsOn(byNode, nodes[i].name) && p.Relocatable()
    requires n <= |PoolOf(nodes, byNode, usage, cfg).placeable|
    requires var pool := PoolOf(nodes, byNode, usage, cfg); FitNodes(pool, pool.placeable[..n]).unplaced == []
    ensures SeatedWithin(PoolOf(nodes, byNode, usage, cfg), n, PodKey(p))
  {
    var pool := PoolOf(nodes, byNode, usage, cfg);
    hide FitNodes;
    MovableHolds(nodes, byNode, i, p);
    var j :| 0 <= j < |Movable(nodes, byNode)| && Movable(nodes, byNode)[j] == p;
    var k := FitSeats(pool, pool.placeable[..n], j);
    var from := PlaceableFromPool(nodes, byNode, usage, cfg, k);
    assert pool.placeable[..n][k] == pool.placeable[k];
  }

  /** When the search finds `n`, every relocatable pod on the pool's nodes is assigned to
      one of the first `n` schedulable nodes. */
  lemma EveryPodHasANode(nodes: seq<ModelNode>, byNode: PodsByNode, usage: UsageSet, cfg: Config, n: nat, i: nat, p: ModelPod)
    requires DistinctKeys(SimPods(Movable(nodes, byNode), usage, cfg))
    requires i < |nodes| && p in PodsOn(byNode, nodes[i].name) && p.Relocatable()
    ensures SearchFrom(PoolOf(nodes, byNode, usage, cfg), 1) == Found(n) ==>
              && n <= |PoolOf(nodes, byNode, usage, cfg).placeable|
              && SeatedWithin(PoolOf(nodes, byNode, usage, cfg), n, PodKey(p))
  {
    hide PoolOf, SearchFrom, FitNodes, SeatedWithin, SimPods, Movable;
    SearchMeaning(PoolOf(nodes, byNode, usage, cfg), 1);
    if SearchFrom(PoolOf(nodes, byNode, usage, cfg), 1) == Found(n) {
      FullPlacementSeats(nodes, byNode, usage, cfg, n, i, p);
    }
  }

  // ----- what a release rests on -----

  /** The first `n` schedulable nodes carry the pool's whole movable workload within
      headroom, and still place it after losing the worst of them when survival is asked. */
  ghost predicate SafeSize(nodes: seq<ModelNode>, byNode: PodsByNode, usage: UsageSet, cfg: Config, n: nat) {
    var pool := PoolOf(nodes, byNode, usage, cfg);
    && 1 <= n <= |pool.placeable|
    && AllSeated(nodes, byNode, pool, n)
    && (forall k :: 0 <= k < n ==> Comfortable(nodes, byNode, usage, cfg, n, k))
    && (cfg.surviveNodeLoss ==> FitNodes(pool, WithoutWorst(pool.placeable[..n])).unplaced == [])
  }

  ghost predicate AllSeated(nodes: seq<ModelNode>, byNode: PodsByNode, pool: Pool, n: nat)
    requires n <= |pool.placeable|
  {
    forall i, p :: 0 <= i < |nodes| && p in PodsOn(byNode, nodes[i].name) && p.Relocatable() ==>
      SeatedWithin(pool, n, PodKey(p))
  }

  ghost predicate Comfortable(nodes: seq<ModelNode>, byNode: PodsByNode, usage: UsageSet, cfg: Config, n: nat, k: nat)
    requires k < n <= |PoolOf(nodes, byNode, usage, cfg).placeable|
  {
    var pool := PoolOf(nodes, byNode, usage, cfg);
    var f := FitNodes(pool, pool.placeable[..n]);
    RawLoad(Movable(nodes, byNode), f.assignments, pool.placeable[k].name).pods > 0 ==>
      WithinHeadroom(Carried(nodes, byNode, f, pool.placeable[k].name), pool.placeable[k], cfg)
  }

  /** A verdict that gives back any node rests on a safe size no larger than what it keeps,
      stranded pinned hosts set aside. */
  lemma ReleaseIsSound(name: string, nodes: seq<ModelNode>, byNode: PodsByNode, usage: UsageSet, cfg: Config, fidelity: string)
    returns (n: nat)
    requires DistinctNames(nodes) && DistinctKeys(SimPods(Movable(nodes, byNode), usage, cfg))
    ensures var pool := PoolOf(nodes, byNode, usage, cfg);
            var v := VerdictOf(name, pool, fidelity);
            v.removableNodes > 0 ==> n + pool.stranded <= v.minimumSafeNodes && SafeSize(nodes, byNode, usage, cfg, n)
  {
    n := SizeBehind(name, PoolOf(nodes, byNode, usage, cfg), fidelity);
    hide *;
    FoundIsSafe(nodes, byNode, usage, cfg, n);
  }

  lemma SizeBehind(name: string, pool: Pool, fidelity: string) returns (n: nat)
    ensures var v := VerdictOf(name, pool, fidelity);
            v.removableNodes > 0 ==> SearchFrom(pool, 1) == Found(n) && n + pool.stranded <= v.minimumSafeNodes
  {
    hide SearchFrom, ObstacleBelow;
    n := if SearchFrom(pool, 1).Found? then SearchFrom(pool, 1).n else 0;
  }

  lemma FoundIsSafe(nodes: seq<ModelNode>, byNode: PodsByNode, usage: UsageSet, cfg: Config, n: nat)
    requires DistinctNames(nodes) && DistinctKeys(SimPods(Movable(nodes, byNode), usage, cfg))
    ensures SearchFrom(PoolOf(nodes, byNode, usage, cfg), 1) == Found(n) ==> SafeSize(nodes, byNode, usage, cfg, n)
  {
    var pool := PoolOf(nodes, byNode, usage, cfg);
    assert pool.cfg == cfg;
    SearchMeaning(pool, 1);
    hide PoolOf, SearchFrom, FitNodes, AllSeated, Comfortable, SimPods, Movable, DistinctNames;
    if SearchFrom(pool, 1) == Found(n) {
      SeatsAll(nodes, byNode, usage, cfg, n);
      forall k | 0 <= k < n ensures Comfortable(nodes, byNode, usage, cfg, n, k) {
        NodeIsComfortable(nodes, byNode, usage, cfg, n, k);
      }
    }
  }

  lemma SeatsAll(nodes: seq<ModelNode>, byNode: PodsByNode, usage: UsageSet, cfg: Config, n: nat)
    requires DistinctKeys(SimPods(Movable(nodes, byNode), usage, cfg))
    requires n <= |PoolOf(nodes, byNode, usage, cfg).placeable|
    requires var pool := PoolOf(nodes, byNode, usage, cfg); FitNodes(pool, pool.placeable[..n]).unplaced == []
    ensures AllSeated(nodes, byNode, PoolOf(nodes, byNode, usage, cfg), n)
  {
    hide PoolOf, FitNodes, SeatedWithin, SimPods, Movable;
    forall i, p | 0 <= i < |nodes| && p in PodsOn(byNode, nodes[i].name) && p.Relocatable()
      ensures SeatedWithin(PoolOf(nodes, byNode, usage, cfg), n, PodKey(p))
    {
      FullPlacementSeats(nodes, byNode, usage, cfg, n, i, p);
    }
  }

  lemma NodeIsComfortable(nodes: seq<ModelNode>, byNode: PodsByNode, usage: UsageSet, cfg: Config, n: nat, k: nat)
    requires DistinctNames(nodes) && DistinctKeys(SimPods(Movable(nodes, byNode), usage, cfg))
    requires k < n <= |PoolOf(nodes, byNode, usage, cfg).placeable|
    ensures Comfortable(nodes, byNode, usage, cfg, n, k)
  {
    CountedNodesFit(nodes, byNode, usage, cfg, n, k);
  }
}
