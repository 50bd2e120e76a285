/** What a drain leaves of a capacity verdict. The verdict is about the largest nodes first,
    the drained node is the least loaded one: when the nodes left still hold the workload. */
module DrainProofs {
  import opened Basics
  import opened Sorting
  import opened Packer
  import opened PackingProofs
  import opened SurvivalProofs
  import opened ReplayProofs
  import opened Usage
  import opened Capacity
  import opened CapacityProofs
  import opened SmallPools
  import opened LossProofs
  import Cordon
  import CordonProtocol
  import D = Drain

  /** If the gate passes at `n` nodes and one more is there, draining any of the first `n`
      leaves room for the whole workload, under every predicate, where the extra node can
      stand in for the drained one. */
  lemma DrainReadmits(pool: Pool, n: nat, x: nat)
    requires x < n < |pool.placeable| && Gate(pool, n)
    requires var kept := SimNodes(pool, pool.placeable[..n + 1]);
             Dominates(kept[n], kept[x], pool.toPlace) && StandsIn(RemoveAt(kept, n), x, kept[n])
    ensures ReadmittedWithout(SimNodes(pool, pool.placeable[..n + 1]), x, pool.toPlace)
  {
    var retained := pool.placeable[..n + 1];
    PrefixPlaces(pool, n);
    hide Gate, Dominates, StandsIn, RemoveAt, PlacesAll, SimNodes;
    ReadmitOtherLoss(SimNodes(pool, retained), n, x, pool.toPlace);
  }

  lemma PrefixPlaces(pool: Pool, n: nat)
    requires 1 <= n < |pool.placeable| && Gate(pool, n)
    ensures var kept := SimNodes(pool, pool.placeable[..n + 1]);
            |kept| == n + 1 && RemoveAt(kept, n) != [] && PlacesAll(RemoveAt(kept, n), pool.toPlace)
  {
    hide Fit, SimNode;
    var retained := pool.placeable[..n + 1];
    assert RemoveAt(retained, n) == pool.placeable[..n];
    SimNodesRemove(pool, retained, n);
    hide SimNodes;
  }

  /** So on interchangeable nodes with one to spare, draining any of them leaves that room. */
  lemma AnyDrainReadmits(pool: Pool, n: nat)
    requires 1 <= n < |pool.placeable| && Gate(pool, n)
    requires var kept := SimNodes(pool, pool.placeable[..n + 1]); Homogeneous(kept, pool.toPlace) && Interchangeable(kept)
    ensures var kept := SimNodes(pool, pool.placeable[..n + 1]);
            forall x :: 0 <= x < |kept| ==> ReadmittedWithout(kept, x, pool.toPlace)
  {
    PrefixPlaces(pool, n);
    hide Gate, Homogeneous, Interchangeable, RemoveAt, PlacesAll, SimNodes;
    AnyLossReadmitted(SimNodes(pool, pool.placeable[..n + 1]), n, pool.toPlace);
  }

  /** If the first of two nodes holds a workload, the second alone can hold it as well. */
  ghost predicate DrainCovered(pool: Pool, toPlace: seq<Pod>)
    requires |pool.placeable| == 2
  {
    DistinctKeys(toPlace) && Gate(pool.(toPlace := toPlace), 1) ==>
      SurvivableWithout(SimNodes(pool, pool.placeable), 0, toPlace)
  }

  /** With a verdict that keeps one of two nodes, draining the one it is about is safe for
      every workload if and only if the other can replace it. */
  lemma DrainCoveredExactly(pool: Pool)
    requires |pool.placeable| == 2 && !pool.cfg.surviveNodeLoss && LossProofs.Usable(SimNode(pool, pool.placeable[0]))
    ensures (forall toPlace: seq<Pod> :: DrainCovered(pool, toPlace))
            <==> CanReplace(SimNode(pool, pool.placeable[1]), SimNode(pool, pool.placeable[0]))
  {
    var nodes := SimNodes(pool, pool.placeable);
    assert nodes[1].reservedExt == map[];
    hide *;
    if CanReplace(nodes[1], nodes[0]) {
      forall toPlace: seq<Pod> ensures DrainCovered(pool, toPlace) {
        ReplacesDominate(nodes[1], nodes[0], toPlace);
        GateOnFirst(pool, toPlace);
        FirstHolds(pool, nodes, toPlace);
      }
    } else {
      var pods := Betrayal(nodes[1], nodes[0]);
      BetrayalDrained(pool, nodes, pods);
    }
  }

  lemma GateOnFirst(pool: Pool, toPlace: seq<Pod>)
    requires |pool.placeable| == 2 && !pool.cfg.surviveNodeLoss
    ensures Gate(pool.(toPlace := toPlace), 1) <==> PlacesAll([SimNodes(pool, pool.placeable)[0]], toPlace)
  {
    hide Fit, SimNode;
    var given := pool.(toPlace := toPlace);
    assert pool.placeable[..1] == [pool.placeable[0]];
    SameNode(given, pool, pool.placeable[0]);
    assert SimNodes(given, pool.placeable[..1]) == [SimNodes(pool, pool.placeable)[0]];
  }

  lemma FirstHolds(pool: Pool, nodes: seq<Node>, toPlace: seq<Pod>)
    requires |pool.placeable| == 2 == |nodes| && nodes == SimNodes(pool, pool.placeable)
    requires Gate(pool.(toPlace := toPlace), 1) <==> PlacesAll([nodes[0]], toPlace)
    requires Dominates(nodes[1], nodes[0], toPlace)
    ensures DrainCovered(pool, toPlace)
  {
    hide Gate, PlacesAll, Dominates, SimNodes, ValidOn, RemoveAt;
    OtherOfTwo(nodes, 1);
    if PlacesAll([nodes[0]], toPlace) && DistinctKeys(toPlace) {
      var slots := SurvivesOtherLoss(nodes, 1, 0, toPlace);
    }
  }

  lemma BetrayalDrained(pool: Pool, nodes: seq<Node>, pods: seq<Pod>)
    requires |pool.placeable| == 2 == |nodes| && nodes == SimNodes(pool, pool.placeable) && !pool.cfg.surviveNodeLoss
    requires Betrays(nodes[1], nodes[0], pods)
    ensures !DrainCovered(pool, pods)
  {
    hide RoomForAll, NoHome, SortedForPacking, SimNodes, Gate;
    GateOnFirst(pool, pods);
    RoomyNodeTakesAll([nodes[0]], 0, pods);
    OtherOfTwo(nodes, 0);
    hide PlacesAll, RemoveAt, ValidOn, DistinctKeys;
    NowhereToGo(nodes[1], pods);
  }

  // ----- a drain the verdict does not cover -----

  const LARGE := ModelNode("a", "workers", map[], [], false, true, 4000, 8000, map[], 0)
  const SMALL := ModelNode("b", "workers", map[], [], false, true, 1000, 4000, map[], 0)
  const ALMOST := ModelPod("shop", "web", "a", "Running", map[], Controller("ReplicaSet"), 950, 100, map[], map[], [], None, [], [])
  const LIVE_ALMOST := D.LivePod("shop", "web", "a", 950, 100, false, false, [D.OwnerRef("ReplicaSet", true)], false, map[])
  const LIVE_NODES := map["a" := Cordon.NodeRec("workers", true, 4000, 8000, false, None, None, None, None),
                          "b" := Cordon.NodeRec("workers", true, 1000, 4000, false, None, None, None, None)]

  /** A pod of 950 millicores on a node of 4000, beside an empty one of 1000: the verdict keeps
      one node, the nudger drains the larger, and with ten percent held back the node left
      does not hold the pod. */
  lemma DrainedAgainstGate(opts: D.Options) returns (pool: Pool)
    requires opts.selfNamespace == "cluster-optimizer"
    ensures pool == PoolOf([LARGE, SMALL], map["a" := [ALMOST], "b" := []], UsageSet(map[], HISTORICAL_P95), Config(1, false, 10, 0))
    ensures pool.placeable == [LARGE, SMALL]
    ensures var v := VerdictOf("workers", pool, HISTORICAL_P95);
            v.minimumSafeNodes == 1 && v.actionable
            && D.Chosen(LIVE_NODES, [LIVE_ALMOST], map["workers" := D.Gate(v.actionable, v.minimumSafeNodes)], opts, map[], "a")
    ensures FitNodes(pool, [SMALL]).unplaced != []
  {
    pool := LargeFirst();
    var q := pool.toPlace[0];
    AlmostFits(pool, q);
    hide *;
    OnePodShrinks("workers", pool, q);
    DrainsTheLarge(opts);
    SmallIsTooSmall(pool, q);
  }

  lemma LargeFirst() returns (pool: Pool)
    ensures pool == PoolOf([LARGE, SMALL], map["a" := [ALMOST], "b" := []], UsageSet(map[], HISTORICAL_P95), Config(1, false, 10, 0))
    ensures pool.placeable == [LARGE, SMALL] && pool.stranded == 0 && pool.size == 2 && pool.cfg == Config(1, false, 10, 0)
    ensures pool.daemon == NOTHING && pool.pinned == map[] && |pool.toPlace| == 1
    ensures var q := pool.toPlace[0];
            q.cpu == 950 && q.mem == 100 && q.ext == map[] && q.unmodelled == [] && NodeLocal(q) && Weighty(q)
            && q.nodeSelector == map[] && q.affinity.None?
  {
    var usage, cfg := UsageSet(map[], HISTORICAL_P95), Config(1, false, 10, 0);
    pool := PoolOf([LARGE, SMALL], map["a" := [ALMOST], "b" := []], usage, cfg);
    AlmostSized(usage, cfg);
    assert ALMOST.Relocatable() && LARGE.Schedulable() && SMALL.Schedulable() && LARGE.name == "a" && SMALL.name == "b";
    assert !NodeBefore({}, SMALL, LARGE);
    hide *;
    MovingOnFirst(LARGE, SMALL, ALMOST, usage, cfg);
  }

  /** What the engine makes of two nodes with one movable pod on the first. */
  lemma MovingOnFirst(a: ModelNode, b: ModelNode, p: ModelPod, usage: UsageSet, cfg: Config)
    requires a.Schedulable() && b.Schedulable() && a.name != b.name && !NodeBefore({}, b, a) && p.Relocatable()
    ensures var pool := PoolOf([a, b], map[a.name := [p], b.name := []], usage, cfg);
            && pool.placeable == [a, b] && pool.stranded == 0 && pool.size == 2 && pool.cfg == cfg
            && pool.daemon == NOTHING && pool.pinned == map[] && pool.toPlace == [SimPod(p, usage, cfg)]
  {
    var byNode := map[a.name := [p], b.name := []];
    AloneOnFirst(a, b, p, [], usage, cfg, byNode);
    hide NodeBefore, SimPod, Movable, DaemonMax, PinnedByHost, SortedNodes, PlaceableOf, StrandedOf, PinnedHosts;
    SortTwo(a, b, PinnedHosts([a, b], byNode));
    assert SimPods([p], usage, cfg) == [SimPod(p, usage, cfg)];
  }

  lemma AlmostSized(usage: UsageSet, cfg: Config)
    requires usage.pods == map[]
    ensures var q := SimPod(ALMOST, usage, cfg);
            q.cpu == 950 && q.mem == 100 && q.ext == map[] && q.unmodelled == [] && NodeLocal(q) && Weighty(q)
            && q.nodeSelector == map[] && q.affinity.None?
  {
    SizeWithoutReadings(ALMOST, usage, cfg);
    hide Sized;
  }

  lemma AloneOnFirst(a: ModelNode, b: ModelNode, p: ModelPod, none: seq<ModelPod>, usage: UsageSet, cfg: Config, byNode: PodsByNode)
    requires byNode == map[a.name := [p], b.name := none] && none == [] && a.name != b.name && p.Relocatable()
    ensures PinnedHosts([a, b], byNode) == {}
    ensures Movable([a, b], byNode) == [p] && DaemonMax([a, b], byNode) == NOTHING
    ensures PinnedByHost([a, b], byNode, usage, cfg) == map[]
  {
    assert !p.Pinned() && !p.Daemon();
    JoinNone(p, none);
    hide *;
    NobodyPinned(a, b, p, none, byNode);
    PodsOnTwo(a, b, [p], none, byNode);
    OnePodOnly(p, a.name, usage, cfg);
    NoPodsAtAll(none, b.name, usage, cfg);
    MovableOnTwo(a, b, byNode);
    DaemonOnTwo(a, b, byNode);
    PinnedOnTwo(a, b, byNode, usage, cfg);
  }

  lemma JoinNone(p: ModelPod, none: seq<ModelPod>)
    requires none == []
    ensures [p] + none == [p]
  {
  }

  lemma OnePodOnly(p: ModelPod, name: string, usage: UsageSet, cfg: Config)
    requires p.Relocatable()
    ensures MovableOn([p]) == [p] && DaemonOn([p]) == NOTHING && AddPinned(map[], name, [p], usage, cfg) == map[]
  {
    assert !p.Pinned() && !p.Daemon();
    hide MovableOn, DaemonOn, AddPinned;
    OnlyPod(p, map[], name, usage, cfg);
  }

  lemma NoPodsAtAll(none: seq<ModelPod>, name: string, usage: UsageSet, cfg: Config)
    requires none == []
    ensures MovableOn(none) == none && DaemonOn(none) == NOTHING && AddPinned(map[], name, none, usage, cfg) == map[]
  {
  }

  lemma PodsOnTwo(a: ModelNode, b: ModelNode, onA: seq<ModelPod>, onB: seq<ModelPod>, byNode: PodsByNode)
    requires byNode == map[a.name := onA, b.name := onB] && a.name != b.name
    ensures PodsOn(byNode, a.name) == onA && PodsOn(byNode, b.name) == onB
  {
  }

  lemma NobodyPinned(a: ModelNode, b: ModelNode, p: ModelPod, none: seq<ModelPod>, byNode: PodsByNode)
    requires byNode == map[a.name := [p], b.name := none] && none == [] && a.name != b.name && p.Relocatable()
    ensures PinnedHosts([a, b], byNode) == {}
  {
    assert !p.Pinned() && !HostsPinned([p]) && !HostsPinned(none);
    hide HostsPinned;
  }

  lemma AlmostFits(pool: Pool, q: Pod)
    requires pool.placeable == [LARGE, SMALL] && pool.daemon == NOTHING && pool.pinned == map[] && pool.cfg == Config(1, false, 10, 0)
    requires q.cpu == 950 && q.mem == 100 && q.ext == map[] && q.nodeSelector == map[] && q.affinity.None?
    ensures LocalVerdict(Slot(SimNode(pool, pool.placeable[0]), []), q) == None
    ensures !pool.cfg.surviveNodeLoss && pool.cfg.Floor() == 1
    ensures SimNode(pool, SMALL).allocCPU == 900 && SimNode(pool, SMALL).reservedCPU == 0
  {
    PlainFits(SimNode(pool, LARGE), q);
  }

  lemma SmallIsTooSmall(pool: Pool, q: Pod)
    requires pool.toPlace == [q] && q.cpu == 950 && SimNode(pool, SMALL).allocCPU == 900 && SimNode(pool, SMALL).reservedCPU == 0
    ensures FitNodes(pool, [SMALL]).unplaced != []
  {
    var b := SimNode(pool, SMALL);
    assert SimNodes(pool, [SMALL]) == [b];
    OnePodFacts(q);
    hide SimNode, SimNodes, SumCPU, SumMem, SumExt, Fit, ValidOn, SortedForPacking, DistinctKeys;
    assert NoHome(b, [q]);
    hide NoHome;
    NowhereToGo(b, [q]);
    if PlacesAll([b], [q]) {
      var slots := FitIsValid([b], [q]);
    }
  }

  lemma DrainsTheLarge(opts: D.Options)
    requires opts.selfNamespace == "cluster-optimizer"
    ensures D.Chosen(LIVE_NODES, [LIVE_ALMOST], map["workers" := D.Gate(true, 1)], opts, map[], "a")
  {
    var self := opts.selfNamespace;
    AlmostBound(self);
    var nodes, pods := LIVE_NODES, [LIVE_ALMOST];
    assert D.Candidate(nodes, pods, map["workers" := D.Gate(true, 1)], opts, "a") by {
      BothSchedulable(opts.cooldown, opts.now);
      hide D.Bound, D.Movers;
    }
    hide D.Bound, D.Movers, D.Candidate;
    assert !D.BudgetBlocked([LIVE_ALMOST], map[]);
    AlmostAbsorbed(self);
    hide D.CanAbsorb, D.BudgetBlocked, D.Stuck;
    forall n | D.Candidate(nodes, pods, map["workers" := D.Gate(true, 1)], opts, n) && n != "a"
      ensures D.PassedOver(nodes, pods, map[], self, n)
    {
      D.CandidateIsNode(nodes, pods, map["workers" := D.Gate(true, 1)], opts, n);
      assert n == "b";
    }
  }

  lemma BothSchedulable(cooldown: int, now: int)
    ensures CordonProtocol.Drainable(LIVE_NODES, "a", 1, cooldown, now)
  {
    assert CordonProtocol.SchedulableIn(LIVE_NODES, "workers") == {"a", "b"};
  }

  lemma AlmostBound(self: string)
    requires self == "cluster-optimizer"
    ensures D.Bound([LIVE_ALMOST], "b") == D.Room(0, 0) && D.Movers([LIVE_ALMOST], "b", self) == []
    ensures D.Movers([LIVE_ALMOST], "a", self) == [LIVE_ALMOST] && !D.HostsTool([LIVE_ALMOST], "a", self)
  {
    assert [LIVE_ALMOST][1..] == [] && self[0] == 'c' && LIVE_ALMOST.namespace[0] == 's';
    assert LIVE_ALMOST.owners[0].controller;
  }

  lemma AlmostAbsorbed(self: string)
    requires self == "cluster-optimizer"
    ensures D.CanAbsorb(LIVE_NODES, [LIVE_ALMOST], self, "a")
  {
    AlmostBound(self);
    OneMoved(LIVE_ALMOST, "b");
    hide D.Bound, D.Movers, D.MovedCPU, D.MovedMem;
    assert D.AbsorbedBy(LIVE_NODES, [LIVE_ALMOST], self, "a", ["b"]);
  }

  lemma OneMoved(p: D.LivePod, n: string)
    ensures D.MovedCPU([p], [n], n) == p.cpu && D.MovedMem([p], [n], n) == p.mem
  {
    assert [p][..0] == [] && [n][..0] == [];
  }
}
