/** How a pool's numbers and its status fit together, and where two promises of the
    documentation stop holding. */
module ClassificationProofs {
  import opened Basics
  import opened Sorting
  import opened Packer
  import opened Usage
  import opened Capacity
  import opened CapacityProofs
  import opened VerdictProofs

  lemma {:induction false} StrandedWithPlaceable(nodes: seq<ModelNode>, hosts: set<string>)
    ensures |PlaceableOf(nodes)| + StrandedOf(nodes, hosts) <= |nodes|
  {
    if nodes == [] {
    } else {
      StrandedWithPlaceable(nodes[..|nodes| - 1], hosts);
    }
  }

  lemma PoolSizes(nodes: seq<ModelNode>, byNode: PodsByNode, usage: UsageSet, cfg: Config)
    ensures var pool := PoolOf(nodes, byNode, usage, cfg);
            |pool.placeable| + pool.stranded <= pool.size
  {
    var hosts := PinnedHosts(nodes, byNode);
    SortKeepsElements(nodes, NodeOrder(hosts));
    StrandedWithPlaceable(SortedNodes(nodes, hosts), hosts);
  }

  /** The statuses partition the pools by what can be released and why not more; an
      indeterminate pool releases nothing and is never actionable. */
  lemma StatusPartition(name: string, nodes: seq<ModelNode>, byNode: PodsByNode, usage: UsageSet, cfg: Config, fidelity: string)
    ensures var pool := PoolOf(nodes, byNode, usage, cfg);
            var v := VerdictOf(name, pool, fidelity);
            && v.currentNodes == |nodes|
            && v.derivedMinimum <= v.currentNodes
            && (v.status == IndeterminateStatus <==> pool.placeable != [] && SomeUnmodelled(pool.toPlace))
            && (v.status == IndeterminateStatus ==> v.removableNodes == 0 && !v.actionable)
            && (v.status != IndeterminateStatus ==>
                  && v.currentNodes == v.minimumSafeNodes + v.removableNodes
                  && v.removableNodes >= 0
                  && (v.status == Fits <==> v.removableNodes > 0)
                  && (v.status == AtFloor <==> v.removableNodes == 0 && v.derivedMinimum < v.currentNodes)
                  && (v.status == AtMinimum <==> v.removableNodes == 0 && v.derivedMinimum == v.currentNodes)
                  && v.minimumSafeNodes >= Min(v.derivedMinimum, v.currentNodes)
                  && v.minimumSafeNodes >= Min(cfg.Floor(), v.currentNodes)
                  && (v.actionable <==> Actionable(fidelity)))
  {
    var pool := PoolOf(nodes, byNode, usage, cfg);
    PoolSizes(nodes, byNode, usage, cfg);
    SearchMeaning(pool, 1);
    hide SearchFrom, ObstacleBelow, Gate, PlaceableOf, StrandedOf, SimPods, Movable, DaemonMax, PinnedByHost, SortedNodes;
  }

  // ----- unmodelled pods without a schedulable node -----

  lemma NothingSchedulable(name: string, nodes: seq<ModelNode>, byNode: PodsByNode, usage: UsageSet, cfg: Config)
    requires forall i :: 0 <= i < |nodes| ==> !nodes[i].Schedulable()
    ensures VerdictOf(name, PoolOf(nodes, byNode, usage, cfg), HISTORICAL_P95).actionable
    ensures VerdictOf(name, PoolOf(nodes, byNode, usage, cfg), HISTORICAL_P95).removableNodes == 0
  {
    var pool := PoolOf(nodes, byNode, usage, cfg);
    if pool.placeable != [] {
      var i := PlaceableFromPool(nodes, byNode, usage, cfg, 0);
      assert false;
    }
    StatusPartition(name, nodes, byNode, usage, cfg, HISTORICAL_P95);
    hide ObstacleBelow, PlaceableOf, StrandedOf, SimPods, Movable, DaemonMax, PinnedByHost, SortedNodes;
    assert SearchFrom(pool, 1) == Exhausted;
  }

  /** An unmodelled constraint is documented to force its pool to indeterminate. It does so
      exactly when the pool has a schedulable node (StatusPartition); otherwise the search
      never runs and the verdict, which releases nothing, is even actionable. */
  lemma UnmodelledButActionable() returns (nodes: seq<ModelNode>, byNode: PodsByNode, usage: UsageSet, cfg: Config)
    ensures SomeUnmodelled(PoolOf(nodes, byNode, usage, cfg).toPlace)
    ensures VerdictOf("workers", PoolOf(nodes, byNode, usage, cfg), HISTORICAL_P95).status != IndeterminateStatus
    ensures VerdictOf("workers", PoolOf(nodes, byNode, usage, cfg), HISTORICAL_P95).actionable
    ensures VerdictOf("workers", PoolOf(nodes, byNode, usage, cfg), HISTORICAL_P95).removableNodes == 0
  {
    var pod := ModelPod("app", "db", "node-1", "Running", map[], Controller("StatefulSet"), 100, 100, map[],
                        map[], [], None, [], ["volume_node_affinity"]);
    nodes := [ModelNode("node-1", "workers", map[], [], true, true, 4000, 8192, map[], 0)];
    byNode := map["node-1" := [pod]];
    usage, cfg := UsageSet(map[], HISTORICAL_P95), Config(1, false, 0, 0);
    MovableHolds(nodes, byNode, 0, pod);
    var pool := PoolOf(nodes, byNode, usage, cfg);
    var j :| 0 <= j < |Movable(nodes, byNode)| && Movable(nodes, byNode)[j] == pod;
    assert pool.toPlace[j].unmodelled != [];
    NothingSchedulable("workers", nodes, byNode, usage, cfg);
    StatusPartition("workers", nodes, byNode, usage, cfg, HISTORICAL_P95);
  }

  // ----- pinned hosts -----

  /** Pinned hosts come first: a prefix of the searched nodes holds only pinned hosts or
      every schedulable one. */
  lemma PinnedHostsFirst(nodes: seq<ModelNode>, byNode: PodsByNode, usage: UsageSet, cfg: Config, n: nat)
    requires n <= |PoolOf(nodes, byNode, usage, cfg).placeable|
    ensures var p, hosts := PoolOf(nodes, byNode, usage, cfg).placeable, PinnedHosts(nodes, byNode);
            || (forall i :: 0 <= i < n ==> p[i].name in hosts)
            || (forall i :: n <= i < |p| ==> p[i].name !in hosts)
  {
    var p, hosts := PoolOf(nodes, byNode, usage, cfg).placeable, PinnedHosts(nodes, byNode);
    PoolPlaceableSorted(nodes, byNode, usage, cfg);
    forall i, j | 0 <= i < n <= j < |p| ensures p[i].name in hosts || p[j].name !in hosts {
      assert !NodeOrder(hosts)(p[j], p[i]);
    }
  }

  function NamesIn(nodes: seq<ModelNode>, hosts: set<string>): set<string> {
    set i | 0 <= i < |nodes| && nodes[i].name in hosts :: nodes[i].name
  }

  function UsableHosts(nodes: seq<ModelNode>, hosts: set<string>): nat {
    if nodes == [] then 0
    else
      var last := nodes[|nodes| - 1];
      UsableHosts(nodes[..|nodes| - 1], hosts) + if last.Schedulable() && last.name in hosts then 1 else 0
  }

  lemma {:induction false} HostsCounted(nodes: seq<ModelNode>, hosts: set<string>)
    requires DistinctNames(nodes)
    ensures |NamesIn(nodes, hosts)| == StrandedOf(nodes, hosts) + UsableHosts(nodes, hosts)
    ensures UsableHosts(nodes, hosts) <= |PlaceableOf(nodes)|
  {
    if nodes == [] {
    } else {
      var n := |nodes| - 1;
      var front, name := NamesIn(nodes[..n], hosts), nodes[n].name;
      assert DistinctNames(nodes[..n]);
      HostsCounted(nodes[..n], hosts);
      assert name !in front;
      NamesInLast(nodes, hosts);
    }
  }

  lemma NamesInLast(nodes: seq<ModelNode>, hosts: set<string>)
    requires nodes != []
    ensures NamesIn(nodes, hosts) == NamesIn(nodes[..|nodes| - 1], hosts)
              + if nodes[|nodes| - 1].name in hosts then {nodes[|nodes| - 1].name} else {}
  {
    var n := |nodes| - 1;
    forall h | h in NamesIn(nodes[..n], hosts) ensures h in NamesIn(nodes, hosts) {
      var i :| 0 <= i < n && nodes[..n][i].name == h;
      assert nodes[i].name == h;
    }
    forall h | h in NamesIn(nodes, hosts) && h != nodes[n].name ensures h in NamesIn(nodes[..n], hosts) {
      var i :| 0 <= i < |nodes| && nodes[i].name == h;
      assert nodes[..n][i].name == h;
    }
  }

  /** The pinned hosts of a snapshot's pool are its stranded ones plus some of the nodes
      the search works over. */
  lemma PinnedHostCounts(nodes: seq<ModelNode>, byNode: PodsByNode, usage: UsageSet, cfg: Config)
    requires DistinctNames(nodes)
    ensures var pool := PoolOf(nodes, byNode, usage, cfg);
            pool.stranded <= pool.pinnedHosts <= pool.size && MovableHosts(pool) <= |pool.placeable|
  {
    var hosts := PinnedHosts(nodes, byNode);
    var sorted := SortedNodes(nodes, hosts);
    SortKeepsElements(nodes, NodeOrder(hosts));
    DistinctByReorder(nodes, sorted, (n: ModelNode) => n.name);
    HostsCounted(sorted, hosts);
    PoolSizes(nodes, byNode, usage, cfg);
    forall h | h in hosts ensures h in NamesIn(sorted, hosts) {
      var i :| 0 <= i < |nodes| && nodes[i].name == h;
      assert nodes[i] in sorted;
      var k :| 0 <= k < |sorted| && sorted[k] == nodes[i];
    }
    assert NamesIn(sorted, hosts) == hosts;
  }

  /** The schedulable pinned hosts of a pool. */
  function MovableHosts(pool: Pool): int {
    pool.pinnedHosts - pool.stranded
  }

  /** Pinned hosts are documented as nodes that can never be drained, yet the verdict may
      fall below their number. A determinate verdict keeps room for all of them exactly
      when the configured floor does, or the gate refuses every count smaller than the
      number of schedulable ones. */
  lemma KeepsPinnedHostsExactly(
    name: string, nodes: seq<ModelNode>, byNode: PodsByNode, usage: UsageSet, cfg: Config, fidelity: string)
    requires DistinctNames(nodes)
    ensures MovableHosts(PoolOf(nodes, byNode, usage, cfg)) <= |PoolOf(nodes, byNode, usage, cfg).placeable|
    ensures var pool := PoolOf(nodes, byNode, usage, cfg);
            var v := VerdictOf(name, pool, fidelity);
            v.status != IndeterminateStatus ==>
              (v.minimumSafeNodes >= pool.pinnedHosts
               <==> cfg.Floor() >= pool.pinnedHosts
                    || forall k :: 1 <= k < MovableHosts(pool) ==> !Gate(pool, k))
  {
    var pool := PoolOf(nodes, byNode, usage, cfg);
    PinnedHostCounts(nodes, byNode, usage, cfg);
    SearchMeaning(pool, 1);
    hide SearchFrom, ObstacleBelow, Gate, PlaceableOf, StrandedOf, SimPods, Movable, DaemonMax, PinnedByHost, SortedNodes;
    var search := SearchFrom(pool, 1);
    if search.Found? && search.n < MovableHosts(pool) {
      assert Gate(pool, search.n);
    }
  }

  /** The verdict of a pool, given some workload, keeps at least as many nodes as host
      something pinned. */
  ghost predicate KeepsHosts(name: string, pool: Pool, fidelity: string, toPlace: seq<Pod>) {
    var v := VerdictOf(name, pool.(toPlace := toPlace), fidelity);
    v.status != IndeterminateStatus ==> v.minimumSafeNodes >= pool.pinnedHosts
  }

  /** Room for every pinned host is guaranteed whatever the pool's movable workload if and
      only if the configured floor covers them all, or at most one of them is schedulable. */
  lemma HostsKeptExactly(
    name: string, nodes: seq<ModelNode>, byNode: PodsByNode, usage: UsageSet, cfg: Config, fidelity: string)
    requires DistinctNames(nodes)
    ensures var pool := PoolOf(nodes, byNode, usage, cfg);
            (forall toPlace: seq<Pod> :: KeepsHosts(name, pool, fidelity, toPlace))
            <==> cfg.Floor() >= pool.pinnedHosts || MovableHosts(pool) <= 1
  {
    var pool := PoolOf(nodes, byNode, usage, cfg);
    PinnedHostCounts(nodes, byNode, usage, cfg);
    assert pool.cfg == cfg;
    hide PoolOf, KeepsHosts;
    if cfg.Floor() >= pool.pinnedHosts || MovableHosts(pool) <= 1 {
      forall toPlace: seq<Pod> ensures KeepsHosts(name, pool, fidelity, toPlace) {
        HostsCovered(name, pool, fidelity, toPlace);
      }
    } else {
      IdleReleasesHosts(name, pool, fidelity);
    }
  }

  lemma HostsCovered(name: string, pool: Pool, fidelity: string, toPlace: seq<Pod>)
    requires pool.pinnedHosts <= pool.size
    requires pool.cfg.Floor() >= pool.pinnedHosts || MovableHosts(pool) <= 1
    ensures KeepsHosts(name, pool, fidelity, toPlace)
  {
    SearchMeaning(pool.(toPlace := toPlace), 1);
    hide SearchFrom, ObstacleBelow, Gate;
  }

  /** With nothing to move, one schedulable node is enough for the search. */
  lemma IdleReleasesHosts(name: string, pool: Pool, fidelity: string)
    requires pool.cfg.Floor() < pool.pinnedHosts && 1 < MovableHosts(pool) <= |pool.placeable|
    ensures !KeepsHosts(name, pool, fidelity, [])
  {
    var idle := pool.(toPlace := []);
    NothingToPlaceFits(idle, idle.placeable[..1]);
    NothingToPlaceFits(idle, WithoutWorst(idle.placeable[..1]));
    assert Gate(idle, 1) && !SomeUnmodelled(idle.toPlace);
    SearchMeaning(idle, 1);
    hide SearchFrom, ObstacleBelow, Gate;
    assert SearchFrom(idle, 1) == Found(1);
  }

  lemma NothingToPlaceFits(pool: Pool, retained: seq<ModelNode>)
    requires pool.toPlace == []
    ensures FitNodes(pool, retained).unplaced == []
  {
  }

  lemma {:induction false} AllPlaceable(nodes: seq<ModelNode>, hosts: set<string>)
    requires forall n :: n in nodes ==> n.Schedulable()
    ensures PlaceableOf(nodes) == nodes && StrandedOf(nodes, hosts) == 0
  {
    if nodes == [] {
    } else {
      AllPlaceable(nodes[..|nodes| - 1], hosts);
      assert nodes[|nodes| - 1] in nodes;
    }
  }

  /** A pool of schedulable nodes with nothing to relocate shrinks to a floor of one. */
  lemma IdlePoolShrinks(name: string, nodes: seq<ModelNode>, byNode: PodsByNode, usage: UsageSet, cfg: Config)
    requires nodes != [] && forall n :: n in nodes ==> n.Schedulable()
    requires Movable(nodes, byNode) == [] && !cfg.surviveNodeLoss && cfg.Floor() == 1
    ensures var v := VerdictOf(name, PoolOf(nodes, byNode, usage, cfg), HISTORICAL_P95);
            v.minimumSafeNodes == 1 && v.removableNodes == |nodes| - 1 && v.actionable
  {
    hide VerdictOf, SearchFrom, FitNodes;
    var hosts := PinnedHosts(nodes, byNode);
    SortKeepsElements(nodes, NodeOrder(hosts));
    AllPlaceable(SortedNodes(nodes, hosts), hosts);
    OneNodeSuffices(name, PoolOf(nodes, byNode, usage, cfg));
  }

  /** Two schedulable nodes, each hosting a bare pod and nothing else, with a floor of one:
      the verdict releases one of them. */
  lemma PinnedHostReleased() returns (nodes: seq<ModelNode>, byNode: PodsByNode, usage: UsageSet, cfg: Config)
    ensures var pool := PoolOf(nodes, byNode, usage, cfg);
            && pool.pinnedHosts == 2 && pool.size == 2
            && VerdictOf("workers", pool, HISTORICAL_P95).minimumSafeNodes == 1
            && VerdictOf("workers", pool, HISTORICAL_P95).removableNodes == 1
            && VerdictOf("workers", pool, HISTORICAL_P95).actionable
  {
    hide VerdictOf;
    var a := ModelNode("a", "workers", map[], [], false, true, 4000, 8192, map[], 0);
    var b := a.(name := "b");
    var pod := ModelPod("ops", "bare", "a", "Running", map[], NoOwner, 100, 100, map[], map[], [], None, [], []);
    nodes := [a, b];
    byNode := map["a" := [pod], "b" := [pod.(nodeName := "b")]];
    usage, cfg := UsageSet(map[], HISTORICAL_P95), Config(1, false, 0, 0);
    assert PodsOn(byNode, "a")[0].Pinned() && PodsOn(byNode, "b")[0].Pinned();
    TwoPinnedHosts(nodes, byNode, a, b);
    NothingMovable(nodes, byNode);
    IdlePoolShrinks("workers", nodes, byNode, usage, cfg);
  }

  lemma TwoPinnedHosts(nodes: seq<ModelNode>, byNode: PodsByNode, a: ModelNode, b: ModelNode)
    requires nodes == [a, b] && a.name != b.name
    requires HostsPinned(PodsOn(byNode, a.name)) && HostsPinned(PodsOn(byNode, b.name))
    ensures PinnedHosts(nodes, byNode) == {a.name, b.name}
  {
    assert nodes[0] == a && nodes[1] == b;
  }

  lemma {:induction false} NothingMovableOn(pods: seq<ModelPod>)
    requires forall p :: p in pods ==> !p.Relocatable()
    ensures MovableOn(pods) == []
  {
    if pods == [] {
    } else {
      NothingMovableOn(pods[..|pods| - 1]);
      assert pods[|pods| - 1] in pods;
    }
  }

  lemma {:induction false} NothingMovable(nodes: seq<ModelNode>, byNode: PodsByNode)
    requires forall n, p :: n in nodes && p in PodsOn(byNode, n.name) ==> !p.Relocatable()
    ensures Movable(nodes, byNode) == []
  {
    if nodes == [] {
    } else {
      var k := |nodes| - 1;
      assert nodes[k] in nodes;
      NothingMovable(nodes[..k], byNode);
      NothingMovableOn(PodsOn(byNode, nodes[k].name));
    }
  }

  lemma OneNodeSuffices(name: string, pool: Pool)
    requires pool.toPlace == [] && pool.placeable != [] && !pool.cfg.surviveNodeLoss
    requires pool.stranded == 0 && pool.cfg.Floor() == 1 && pool.size >= 1
    ensures var v := VerdictOf(name, pool, HISTORICAL_P95);
            v.minimumSafeNodes == 1 && v.removableNodes == pool.size - 1 && v.actionable
  {
    NothingToPlaceFits(pool, pool.placeable[..1]);
    SearchMeaning(pool, 1);
    assert !SomeUnmodelled(pool.toPlace);
    assert Gate(pool, 1);
    hide SearchFrom, ObstacleBelow, FitNodes;
    assert SearchFrom(pool, 1) == Found(1);
  }
}
