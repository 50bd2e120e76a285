/** Pools of two nodes worked out in full, for the inputs that show where a promise fails. */
module SmallPools {
  import opened Basics
  import opened Sorting
  import opened Packer
  import opened PackingProofs
  import opened Usage
  import opened Capacity
  import opened CapacityProofs
  import opened VerdictProofs

  /** A movable pod with no scheduling constraints. */
  ghost predicate Plain(p: ModelPod) {
    && p.Relocatable() && p.nodeSelector == map[] && p.affinity.None? && p.spread == [] && p.unmodelled == []
  }

  lemma PlainFits(node: Node, p: Pod)
    requires node.taints == [] && node.maxPods == 0
    requires p.nodeSelector == map[] && p.affinity.None?
    requires node.reservedCPU + p.cpu <= node.allocCPU && node.reservedMem + p.mem <= node.allocMem
    requires forall r :: r in p.ext ==> Quantity(node.reservedExt, r) + p.ext[r] <= Quantity(node.allocExt, r)
    ensures LocalVerdict(Slot(node, []), p) == None
  {
  }

  /** The packer's answer for one pod that its first node admits. */
  lemma OnePodFits(nodes: seq<Node>, p: Pod)
    requires nodes != [] && NodeLocal(p) && LocalVerdict(Slot(nodes[0], []), p) == None
    ensures Fit(nodes, [p]).unplaced == [] && Fit(nodes, [p]).assignments == map[Key(p) := nodes[0].name]
  {
    var slots := EmptySlots(nodes);
    LocalVerdictDecides(slots[0], p, slots);
    assert FirstFit(slots, p, 0) == 0;
    assert StableSort([p], PodBefore) == [p] by {
      assert [p][1..] == [];
    }
    assert [p][..0] == [];
    assert Pack(slots, [p]) == PlaceOne(Pack(slots, []), p);
  }

  /** Two schedulable nodes in the order the search takes them. */
  ghost predicate InOrder(a: ModelNode, b: ModelNode, hosts: set<string>) {
    a.Schedulable() && b.Schedulable() && a.name != b.name && !NodeBefore(hosts, b, a)
  }

  lemma SortTwo(a: ModelNode, b: ModelNode, hosts: set<string>)
    requires InOrder(a, b, hosts)
    ensures SortedNodes([a, b], hosts) == [a, b]
    ensures PlaceableOf([a, b]) == [a, b] && StrandedOf([a, b], hosts) == 0
  {
    assert [a, b][1..] == [b] && [b][1..] == [];
    assert StableSort([b], NodeOrder(hosts)) == [b];
    assert [a, b][..1] == [a] && [a][..0] == [];
    assert PlaceableOf([a]) == [a] && StrandedOf([a], hosts) == 0;
  }

  lemma MovableOnTwo(a: ModelNode, b: ModelNode, byNode: PodsByNode)
    ensures Movable([a, b], byNode) == MovableOn(PodsOn(byNode, a.name)) + MovableOn(PodsOn(byNode, b.name))
  {
    hide MovableOn;
    assert [a, b][..1] == [a] && [a][..0] == [];
    assert Movable([a], byNode) == MovableOn(PodsOn(byNode, a.name));
  }

  lemma DaemonOnTwo(a: ModelNode, b: ModelNode, byNode: PodsByNode)
    requires DaemonOn(PodsOn(byNode, a.name)) == NOTHING && DaemonOn(PodsOn(byNode, b.name)) == NOTHING
    ensures DaemonMax([a, b], byNode) == NOTHING
  {
    hide DaemonOn;
    assert [a, b][..1] == [a] && [a][..0] == [];
    assert DaemonMax([a], byNode) == NOTHING;
  }

  lemma PinnedOnTwo(a: ModelNode, b: ModelNode, byNode: PodsByNode, usage: UsageSet, cfg: Config)
    ensures PinnedByHost([a, b], byNode, usage, cfg)
            == AddPinned(AddPinned(map[], a.name, PodsOn(byNode, a.name), usage, cfg),
                         b.name, PodsOn(byNode, b.name), usage, cfg)
  {
    hide AddPinned;
    assert [a, b][..1] == [a] && [a][..0] == [];
    assert PinnedByHost([a], byNode, usage, cfg) == AddPinned(map[], a.name, PodsOn(byNode, a.name), usage, cfg);
  }

  lemma LastPod(pods: seq<ModelPod>, last: ModelPod, m: map<string, Footprint>, name: string, usage: UsageSet, cfg: Config)
    ensures MovableOn(pods + [last]) == MovableOn(pods) + if last.Relocatable() then [last] else []
    ensures DaemonOn(pods + [last])
            == DaemonOn(pods).Plus(if last.Daemon() then Footprint(last.reqCPU, last.reqMem, 1) else NOTHING)
    ensures var prev := AddPinned(m, name, pods, usage, cfg);
            AddPinned(m, name, pods + [last], usage, cfg)
            == if last.Pinned() then prev[name := FootprintOf(prev, name).Plus(PinnedCost(last, usage, cfg))] else prev
  {
    hide PinnedCost;
    assert (pods + [last])[..|pods|] == pods;
  }

  lemma OnlyPod(p: ModelPod, m: map<string, Footprint>, name: string, usage: UsageSet, cfg: Config)
    requires !p.Daemon()
    ensures MovableOn([p]) == (if p.Relocatable() then [p] else []) && DaemonOn([p]) == NOTHING
    ensures AddPinned(m, name, [p], usage, cfg)
            == if p.Pinned() then m[name := FootprintOf(m, name).Plus(PinnedCost(p, usage, cfg))] else m
  {
    hide *;
    LastPod([], p, m, name, usage, cfg);
    NoPods(m, name, usage, cfg);
    assert [] + [p] == [p];
    assert DaemonOn([p]) == NOTHING.Plus(NOTHING);
  }

  lemma NoPods(m: map<string, Footprint>, name: string, usage: UsageSet, cfg: Config)
    ensures MovableOn([]) == [] && DaemonOn([]) == NOTHING && AddPinned(m, name, [], usage, cfg) == m
    ensures NOTHING.Plus(NOTHING) == NOTHING && NOTHING.Join(NOTHING) == NOTHING
  {
  }

  /** What the engine makes of one movable pod on the second node and, at most, one pinned
      pod on the first. */
  lemma TwoNodePool(a: ModelNode, b: ModelNode, onA: seq<ModelPod>, moving: ModelPod, usage: UsageSet, cfg: Config)
    requires InOrder(a, b, PinnedHosts([a, b], map[a.name := onA, b.name := [moving]]))
    requires moving.Relocatable() && (onA == [] || (|onA| == 1 && onA[0].Pinned()))
    ensures var pool := PoolOf([a, b], map[a.name := onA, b.name := [moving]], usage, cfg);
            && pool.placeable == [a, b] && pool.stranded == 0 && pool.size == 2
            && pool.toPlace == [SimPod(moving, usage, cfg)] && pool.daemon == NOTHING && pool.cfg == cfg
            && pool.pinned == if onA == [] then map[] else map[a.name := PinnedCost(onA[0], usage, cfg)]
    ensures Movable([a, b], map[a.name := onA, b.name := [moving]]) == [moving]
  {
    hide Movable, DaemonMax, PinnedByHost, SortedNodes, PlaceableOf, StrandedOf, PinnedHosts, SimPod, PinnedCost;
    SortTwo(a, b, PinnedHosts([a, b], map[a.name := onA, b.name := [moving]]));
    TwoNodePods(a, b, onA, moving, usage, cfg);
    hide NodeBefore;
    assert SimPods([moving], usage, cfg) == [SimPod(moving, usage, cfg)];
  }

  lemma TwoNodePods(a: ModelNode, b: ModelNode, onA: seq<ModelPod>, moving: ModelPod, usage: UsageSet, cfg: Config)
    requires a.name != b.name && moving.Relocatable() && (onA == [] || (|onA| == 1 && onA[0].Pinned()))
    ensures var nodes, byNode := [a, b], map[a.name := onA, b.name := [moving]];
            && Movable(nodes, byNode) == [moving] && DaemonMax(nodes, byNode) == NOTHING
            && PinnedByHost(nodes, byNode, usage, cfg)
               == if onA == [] then map[] else map[a.name := PinnedCost(onA[0], usage, cfg)]
  {
    var byNode := map[a.name := onA, b.name := [moving]];
    assert PodsOn(byNode, a.name) == onA && PodsOn(byNode, b.name) == [moving];
    AtMostPinned(onA, a.name, usage, cfg);
    OnlyPod(moving, AddPinned(map[], a.name, onA, usage, cfg), b.name, usage, cfg);
    assert !moving.Pinned();
    hide *;
    MovableOnTwo(a, b, byNode);
    DaemonOnTwo(a, b, byNode);
    PinnedOnTwo(a, b, byNode, usage, cfg);
    assert [] + [moving] == [moving];
  }

  lemma AtMostPinned(pods: seq<ModelPod>, name: string, usage: UsageSet, cfg: Config)
    requires pods == [] || (|pods| == 1 && pods[0].Pinned())
    ensures MovableOn(pods) == [] && DaemonOn(pods) == NOTHING
    ensures AddPinned(map[], name, pods, usage, cfg) == if pods == [] then map[] else map[name := PinnedCost(pods[0], usage, cfg)]
  {
    if pods == [] {
      NoPods(map[], name, usage, cfg);
    } else {
      assert pods == [pods[0]];
      assert FootprintOf(map[], name).Plus(PinnedCost(pods[0], usage, cfg)) == PinnedCost(pods[0], usage, cfg) by {
        hide PinnedCost;
      }
      hide *;
      OnlyPod(pods[0], map[], name, usage, cfg);
    }
  }

  /** With one pod that the first node admits and a floor of one, a pool keeps one node. */
  lemma OnePodShrinks(name: string, pool: Pool, p: Pod)
    requires pool.toPlace == [p] && p.unmodelled == [] && NodeLocal(p) && pool.placeable != []
    requires LocalVerdict(Slot(SimNode(pool, pool.placeable[0]), []), p) == None
    requires !pool.cfg.surviveNodeLoss && pool.cfg.Floor() == 1 && pool.stranded == 0 && pool.size >= 1
    ensures var v := VerdictOf(name, pool, HISTORICAL_P95);
            v.minimumSafeNodes == 1 && v.removableNodes == pool.size - 1 && v.actionable
  {
    OnePodFits(SimNodes(pool, pool.placeable[..1]), p);
    assert Gate(pool, 1);
    assert !SomeUnmodelled(pool.toPlace);
    SearchMeaning(pool, 1);
    hide SearchFrom, ObstacleBelow, FitNodes, Fit;
    assert SearchFrom(pool, 1) == Found(1);
  }

  // ----- the example pools -----

  function OnTwo(a: ModelNode, b: ModelNode, onA: seq<ModelPod>, p: ModelPod): PodsByNode {
    map[a.name := onA, b.name := [p]]
  }

  /** The first node takes the second one's only pod, as the engine sizes and reserves. */
  ghost predicate Roomy(a: ModelNode, onA: seq<ModelPod>, p: ModelPod, usage: UsageSet, cfg: Config) {
    var size, own := Sized(p, usage, cfg), if onA == [] then NOTHING else PinnedCost(onA[0], usage, cfg);
    && a.taints == [] && a.maxPods == 0
    && own.cpu + size.0 <= Withhold(a.allocCPU, cfg.Headroom()) && own.mem + size.1 <= Withhold(a.allocMem, cfg.Headroom())
    && forall r :: r in p.reqExt ==> p.reqExt[r] <= Quantity(a.allocExt, r)
  }

  ghost predicate Example(a: ModelNode, b: ModelNode, onA: seq<ModelPod>, p: ModelPod, usage: UsageSet, cfg: Config) {
    && InOrder(a, b, PinnedHosts([a, b], OnTwo(a, b, onA, p)))
    && Plain(p) && (onA == [] || (|onA| == 1 && onA[0].Pinned())) && Roomy(a, onA, p, usage, cfg)
  }

  lemma ExampleFirstNode(pool: Pool, a: ModelNode, b: ModelNode, onA: seq<ModelPod>, p: ModelPod, usage: UsageSet, cfg: Config)
    requires Example(a, b, onA, p, usage, cfg) && pool == PoolOf([a, b], OnTwo(a, b, onA, p), usage, cfg)
    ensures pool.placeable == [a, b] && pool.stranded == 0 && pool.size == 2 && pool.cfg == cfg
    ensures pool.toPlace == [SimPod(p, usage, cfg)]
    ensures var q := SimPod(p, usage, cfg);
            NodeLocal(q) && q.unmodelled == [] && Key(q) == PodKey(p) && q.ext == p.reqExt
            && LocalVerdict(Slot(SimNode(pool, a), []), q) == None
  {
    TwoNodePool(a, b, onA, p, usage, cfg);
    hide PoolOf, PinnedHosts, Movable, Sized, PinnedCost, Withhold;
    PlainFits(SimNode(pool, a), SimPod(p, usage, cfg));
  }

  /** With one node kept, the pod is assigned to it; with a floor of one the other is released. */
  lemma ExampleShrinks(a: ModelNode, b: ModelNode, onA: seq<ModelPod>, p: ModelPod, usage: UsageSet, cfg: Config)
    requires Example(a, b, onA, p, usage, cfg)
    ensures var pool := PoolOf([a, b], OnTwo(a, b, onA, p), usage, cfg);
            && pool.placeable == [a, b] && FitNodes(pool, [a]).assignments == map[PodKey(p) := a.name]
            && (cfg.Floor() == 1 && !cfg.surviveNodeLoss ==>
                  var v := VerdictOf("workers", pool, HISTORICAL_P95);
                  v.minimumSafeNodes == 1 && v.removableNodes == 1 && v.actionable)
    ensures Movable([a, b], OnTwo(a, b, onA, p)) == [p]
  {
    var pool := PoolOf([a, b], OnTwo(a, b, onA, p), usage, cfg);
    TwoNodePool(a, b, onA, p, usage, cfg);
    ExampleFirstNode(pool, a, b, onA, p, usage, cfg);
    hide Example, PoolOf, SimPod, Movable, VerdictOf, Fit, LocalVerdict, NodeLocal, SimNode;
    var q := SimPod(p, usage, cfg);
    assert SimNodes(pool, [a])[0] == SimNode(pool, a);
    OnePodFits(SimNodes(pool, [a]), q);
    if cfg.Floor() == 1 && !cfg.surviveNodeLoss {
      OnePodShrinks("workers", pool, q);
    }
    assert SimNode(pool, a).name == a.name by {
      NodeKeepsName(pool, a);
    }
  }

  lemma NodeKeepsName(pool: Pool, a: ModelNode)
    ensures SimNode(pool, a).name == a.name
  {
  }

  lemma OneAssigned(p: ModelPod, name: string)
    ensures RawLoad([p], map[PodKey(p) := name], name) == Footprint(p.reqCPU, p.reqMem, 1)
  {
    var none: seq<ModelPod>, seated := [], map[PodKey(p) := name];
    var cost := Footprint(p.reqCPU, p.reqMem, 1);
    assert AssignedTo(seated, PodKey(p), name) && NOTHING.Plus(cost) == cost;
    hide *;
    LastAssigned(none, p, seated, name);
    NoneAssigned(seated, name);
    assert none + [p] == [p];
  }

  lemma NoneAssigned(assignments: map<string, string>, name: string)
    ensures RawLoad([], assignments, name) == NOTHING
  {
  }

  lemma LastAssigned(pods: seq<ModelPod>, last: ModelPod, assignments: map<string, string>, name: string)
    ensures RawLoad(pods + [last], assignments, name)
            == RawLoad(pods, assignments, name).Plus(
                 if AssignedTo(assignments, PodKey(last), name) then Footprint(last.reqCPU, last.reqMem, 1) else NOTHING)
  {
    hide AssignedTo;
    assert (pods + [last])[..|pods|] == pods;
  }

  /** Without readings a pod is sized by its request. */
  lemma SizeWithoutReadings(p: ModelPod, usage: UsageSet, cfg: Config)
    requires usage.pods == map[] && p.reqCPU >= 0 && p.reqMem >= 0
    ensures Sized(p, usage, cfg) == (p.reqCPU, p.reqMem)
  {
    assert 0 * Max(cfg.UsageHeadroom(), 0) == 0;
  }
}
