/** What the configured headroom is worth: the promised share of every node stays free
    exactly when the percentage is below one hundred. */
module HeadroomProofs {
  import opened Basics
  import opened Packer
  import opened PackingProofs
  import opened Usage
  import opened Capacity
  import opened VerdictProofs
  import opened SmallPools

  /** The capacity a headroom percentage promises to leave usable. */
  function Promised(value: int, percent: int): int {
    GoDiv(value * (100 - percent), 100)
  }

  /** A percentage of a positive capacity is withheld as promised exactly below one hundred. */
  lemma WithholdExactly(value: int, percent: int)
    requires value > 0 && percent > 0
    ensures Withhold(value, percent) == Promised(value, percent) <==> percent < 100
  {
    if percent >= 100 {
      NothingLeft(value, percent);
    }
  }

  lemma NothingLeft(value: int, percent: int)
    requires value > 0 && percent >= 100
    ensures Promised(value, percent) <= 0
  {
    NonPositiveProduct(value, 100 - percent);
  }

  lemma NonPositiveProduct(a: int, b: int)
    requires a > 0 && b <= 0
    ensures a * b <= 0
  {
  }

  ghost predicate WithinPromise(load: Footprint, n: ModelNode, cfg: Config) {
    && load.cpu <= Promised(n.allocCPU, cfg.Headroom()) && load.mem <= Promised(n.allocMem, cfg.Headroom())
    && (n.maxPods > 0 ==> load.pods <= n.maxPods)
  }

  /** The `k`th of the first `n` placeable nodes receives a pod of a well-formed pool. */
  ghost predicate Receives(nodes: seq<ModelNode>, byNode: PodsByNode, usage: UsageSet, cfg: Config, n: int, k: int) {
    && DistinctNames(nodes) && DistinctKeys(SimPods(Movable(nodes, byNode), usage, cfg))
    && 0 <= k < n <= |PoolOf(nodes, byNode, usage, cfg).placeable|
    && RawLoad(Movable(nodes, byNode), LoadedFit(nodes, byNode, usage, cfg, n).assignments,
               PoolOf(nodes, byNode, usage, cfg).placeable[k].name).pods > 0
  }

  ghost function LoadedFit(nodes: seq<ModelNode>, byNode: PodsByNode, usage: UsageSet, cfg: Config, n: int): Placement
    requires 0 <= n <= |PoolOf(nodes, byNode, usage, cfg).placeable|
  {
    FitNodes(PoolOf(nodes, byNode, usage, cfg), PoolOf(nodes, byNode, usage, cfg).placeable[..n])
  }

  ghost predicate KeepsPromise(nodes: seq<ModelNode>, byNode: PodsByNode, usage: UsageSet, cfg: Config, n: int, k: int)
    requires 0 <= k < n <= |PoolOf(nodes, byNode, usage, cfg).placeable|
  {
    var node := PoolOf(nodes, byNode, usage, cfg).placeable[k];
    WithinPromise(Carried(nodes, byNode, LoadedFit(nodes, byNode, usage, cfg, n), node.name), node, cfg)
  }

  /** No node that receives a pod is ever loaded into its headroom. */
  ghost predicate HeadroomKept(cfg: Config) {
    forall nodes: seq<ModelNode>, byNode: PodsByNode, usage: UsageSet, n: int, k: int ::
      Receives(nodes, byNode, usage, cfg, n, k) ==> KeepsPromise(nodes, byNode, usage, cfg, n, k)
  }

  /** The promise holds of every pool if and only if the percentage is below one hundred;
      the configuration lets larger ones through, and they withhold nothing. */
  lemma HeadroomKeptExactly(cfg: Config)
    ensures HeadroomKept(cfg) <==> cfg.Headroom() < 100
  {
    if cfg.Headroom() < 100 {
      forall nodes: seq<ModelNode>, byNode: PodsByNode, usage: UsageSet, n: int, k: int |
        Receives(nodes, byNode, usage, cfg, n, k)
        ensures KeepsPromise(nodes, byNode, usage, cfg, n, k)
      {
        KeptBelowHundred(nodes, byNode, usage, cfg, n, k);
      }
    } else {
      var nodes, byNode := BrokenAtHundred(cfg);
    }
  }

  lemma KeptBelowHundred(nodes: seq<ModelNode>, byNode: PodsByNode, usage: UsageSet, cfg: Config, n: int, k: int)
    requires cfg.Headroom() < 100
    ensures Receives(nodes, byNode, usage, cfg, n, k) ==> KeepsPromise(nodes, byNode, usage, cfg, n, k)
  {
    if !Receives(nodes, byNode, usage, cfg, n, k) {
      return;
    }
    hide FitNodes, PoolOf, Carried, RawLoad, SimPods, Movable, WithinHeadroom, WithinPromise, DistinctKeys, DistinctNames;
    CountedNodesFit(nodes, byNode, usage, cfg, n, k);
    var node := PoolOf(nodes, byNode, usage, cfg).placeable[k];
    PromiseOf(Carried(nodes, byNode, LoadedFit(nodes, byNode, usage, cfg, n), node.name), node, cfg);
  }

  lemma PromiseOf(load: Footprint, n: ModelNode, cfg: Config)
    requires cfg.Headroom() < 100 && WithinHeadroom(load, n, cfg)
    ensures WithinPromise(load, n, cfg)
  {
  }

  function NodeNamed(name: string): ModelNode {
    ModelNode(name, "workers", map[], [], false, true, 1000, 1000, map[], 0)
  }

  function HalfANode(): ModelPod {
    ModelPod("app", "web", "b", "Running", map[], Controller("ReplicaSet"), 500, 500, map[], map[], [], None, [], [])
  }

  const NO_USAGE := UsageSet(map[], HISTORICAL_P95)

  lemma HalfANodeExample(cfg: Config)
    requires cfg.Headroom() >= 100
    ensures Example(NodeNamed("a"), NodeNamed("b"), [], HalfANode(), NO_USAGE, cfg)
  {
    var a, b, p := NodeNamed("a"), NodeNamed("b"), HalfANode();
    NobodyPinned(a, b, p);
    SizeWithoutReadings(p, NO_USAGE, cfg);
    hide Sized, PinnedHosts;
    assert LexLess("a", "b") && !LexLess("b", "a");
  }

  lemma NobodyPinned(a: ModelNode, b: ModelNode, p: ModelPod)
    requires a.name != b.name && p.Relocatable()
    ensures PinnedHosts([a, b], OnTwo(a, b, [], p)) == {}
  {
    assert !p.Pinned();
  }

  /** With headroom of a hundred percent or more, a node promised to stay empty is given the
      only pod of its pool. */
  lemma BrokenAtHundred(cfg: Config) returns (nodes: seq<ModelNode>, byNode: PodsByNode)
    requires cfg.Headroom() >= 100
    ensures Receives(nodes, byNode, NO_USAGE, cfg, 1, 0) && !KeepsPromise(nodes, byNode, NO_USAGE, cfg, 1, 0)
    ensures cfg.Floor() == 1 && !cfg.surviveNodeLoss ==>
              var v := VerdictOf("workers", PoolOf(nodes, byNode, NO_USAGE, cfg), HISTORICAL_P95);
              v.minimumSafeNodes == 1 && v.removableNodes == 1 && v.actionable
  {
    var a, b, p := NodeNamed("a"), NodeNamed("b"), HalfANode();
    nodes, byNode := [a, b], OnTwo(a, b, [], p);
    HalfANodeExample(cfg);
    assert a.name != b.name && a.allocCPU == 1000 && p.reqCPU == 500;
    assert byNode[a.name] == [] by {
      hide NodeNamed, HalfANode;
    }
    hide NodeNamed, HalfANode, OnTwo, VerdictOf;
    ExampleShrinks(a, b, [], p, NO_USAGE, cfg);
    PromiseBroken(a, b, byNode, p, NO_USAGE, cfg);
  }

  /** A node given a pod of more than nothing, when nothing of it may be used. */
  lemma PromiseBroken(a: ModelNode, b: ModelNode, byNode: PodsByNode, p: ModelPod, usage: UsageSet, cfg: Config)
    requires cfg.Headroom() >= 100 && a.name != b.name && a.allocCPU > 0 && p.reqCPU > 0
    requires a.name in byNode && byNode[a.name] == [] && Movable([a, b], byNode) == [p]
    requires var pool := PoolOf([a, b], byNode, usage, cfg);
             pool.placeable == [a, b] && FitNodes(pool, [a]).assignments == map[PodKey(p) := a.name]
    ensures Receives([a, b], byNode, usage, cfg, 1, 0) && !KeepsPromise([a, b], byNode, usage, cfg, 1, 0)
  {
    EmptyHost(byNode, a.name);
    OneAssigned(p, a.name);
    NothingLeft(a.allocCPU, cfg.Headroom());
    hide PoolOf, FitNodes, RawLoad, Movable, SimPods, DaemonOn, PinnedRaw, DistinctKeys, Promised;
    assert [a, b][..1] == [a] && DistinctNames([a, b]);
    OneKey(SimPods([p], usage, cfg));
  }

  lemma OneKey(pods: seq<Pod>)
    requires |pods| == 1
    ensures DistinctKeys(pods)
  {
  }

  lemma EmptyHost(byNode: PodsByNode, name: string)
    requires name in byNode && byNode[name] == []
    ensures DaemonOn(PodsOn(byNode, name)) == NOTHING && PinnedRaw(PodsOn(byNode, name)) == NOTHING
  {
  }

  /** With headroom 100 and a floor of one, such a pool gives a node back, while the one it
      keeps would run at half of an allocatable of which nothing may be used. */
  lemma HeadroomIgnored() returns (nodes: seq<ModelNode>, byNode: PodsByNode, cfg: Config)
    ensures cfg == Config(1, false, 100, 0)
    ensures var v := VerdictOf("workers", PoolOf(nodes, byNode, NO_USAGE, cfg), HISTORICAL_P95);
            v.minimumSafeNodes == 1 && v.removableNodes == 1 && v.actionable
    ensures Receives(nodes, byNode, NO_USAGE, cfg, 1, 0) && !KeepsPromise(nodes, byNode, NO_USAGE, cfg, 1, 0)
  {
    cfg := Config(1, false, 100, 0);
    nodes, byNode := BrokenAtHundred(cfg);
  }
}
