/** What a pool verdict promises: the search result is an exact threshold, a found count
    really hosts the pool's pods, and the numbers fit together. */
module CapacityProofs {
  import opened Basics
  import opened Sorting
  import opened Packer
  import opened PackingProofs
  import opened SurvivalProofs
  import opened Usage
  import opened Capacity
  import OrderProofs
  import TopologyProofs

  // ----- the search result -----

  ghost predicate SomeUnmodelled(pods: seq<Pod>) {
    exists i :: 0 <= i < |pods| && pods[i].unmodelled != []
  }

  lemma AnswerMeaning(pool: Pool, n: nat)
    requires n <= |pool.placeable|
    ensures SomeUnmodelled(pool.toPlace) ==> AnswerAt(pool, n).Some? && AnswerAt(pool, n).value.Unknown?
    ensures !SomeUnmodelled(pool.toPlace) ==>
              AnswerAt(pool, n) == if Gate(pool, n) then Some(Found(n)) else None
  {
    hide Fit;
    OrderProofs.IndeterminateExactly(SimNodes(pool, pool.placeable[..n]), pool.toPlace);
    OrderProofs.IndeterminateExactly(SimNodes(pool, WithoutWorst(pool.placeable[..n])), pool.toPlace);
  }

  /** The upward search returns the least passing count, reports exhaustion exactly when no
      count passes, and is undecided exactly when a pod is unmodelled and some node is
      schedulable. */
  lemma {:induction false} SearchMeaning(pool: Pool, from: nat)
    requires 1 <= from <= |pool.placeable| + 1
    ensures match SearchFrom(pool, from)
            case Found(n) => from <= n <= |pool.placeable| && Gate(pool, n)
                             && forall k :: from <= k < n ==> !Gate(pool, k)
            case Exhausted => forall k :: from <= k <= |pool.placeable| ==> !Gate(pool, k)
            case Unknown(_) => true
    ensures SearchFrom(pool, from).Unknown? <==> from <= |pool.placeable| && SomeUnmodelled(pool.toPlace)
    decreases |pool.placeable| + 1 - from
  {
    hide AnswerAt, Gate;
    if from > |pool.placeable| {
    } else {
      AnswerMeaning(pool, from);
      SearchMeaning(pool, from + 1);
    }
  }

  ghost predicate UpwardClosed(pool: Pool) {
    forall k, m :: 1 <= k <= m <= |pool.placeable| && Gate(pool, k) ==> Gate(pool, m)
  }

  /** For an upward-closed gate the count found is its exact threshold. */
  lemma ThresholdOf(pool: Pool, n: nat)
    requires UpwardClosed(pool) && SearchFrom(pool, 1) == Found(n)
    ensures 1 <= n <= |pool.placeable|
    ensures forall k :: 1 <= k <= |pool.placeable| ==> (Gate(pool, k) <==> k >= n)
  {
    hide Gate;
    SearchMeaning(pool, 1);
  }

  lemma MorePlaceableFit(pool: Pool, shorter: seq<ModelNode>, longer: seq<ModelNode>)
    requires AllNodeLocal(pool.toPlace) && shorter <= longer
    requires FitNodes(pool, shorter).unplaced == []
    ensures FitNodes(pool, longer).unplaced == []
  {
    var extra := SimNodes(pool, longer[|shorter|..]);
    assert SimNodes(pool, longer) == SimNodes(pool, shorter) + extra;
    MoreNodesStillFit(SimNodes(pool, shorter), extra, pool.toPlace);
  }

  /** With node-local constraints only and no survival gate, the count found is the exact
      threshold: every smaller prefix fails, every larger one succeeds. */
  lemma ExactThreshold(pool: Pool, n: nat)
    requires AllNodeLocal(pool.toPlace) && !pool.cfg.surviveNodeLoss && SearchFrom(pool, 1) == Found(n)
    ensures forall k :: 1 <= k <= |pool.placeable| ==> (Gate(pool, k) <==> k >= n)
  {
    forall k, m | 1 <= k <= m <= |pool.placeable| && Gate(pool, k) ensures Gate(pool, m) {
      MorePlaceableFit(pool, pool.placeable[..k], pool.placeable[..m]);
    }
    ThresholdOf(pool, n);
  }

  // ----- the survival gate -----

  /** Largest first, as the sort leaves a pool without pinned hosts. */
  ghost predicate LargestFirst(nodes: seq<ModelNode>) {
    forall i, j :: 0 <= i < j < |nodes| ==> !Bigger(nodes[j], nodes[i])
  }

  lemma DropsTheFirst(nodes: seq<ModelNode>)
    requires LargestFirst(nodes) && nodes != []
    ensures WithoutWorst(nodes) == nodes[1..]
  {
    if |nodes| > 1 {
      var w := WorstIndex(nodes);
      assert Bigger(nodes[w], nodes[0]) ==> w == 0;
      assert RemoveAt(nodes, 0) == nodes[1..];
    }
  }

  lemma SurvivorsGrow(pool: Pool, k: nat, m: nat)
    requires AllNodeLocal(pool.toPlace) && LargestFirst(pool.placeable) && 1 <= k <= m <= |pool.placeable|
    requires FitNodes(pool, WithoutWorst(pool.placeable[..k])).unplaced == []
    ensures FitNodes(pool, WithoutWorst(pool.placeable[..m])).unplaced == []
  {
    hide FitNodes, AllNodeLocal, WithoutWorst;
    DropsTheFirst(pool.placeable[..k]);
    DropsTheFirst(pool.placeable[..m]);
    MorePlaceableFit(pool, pool.placeable[..k][1..], pool.placeable[..m][1..]);
  }

  /** Largest first, the survivors of growing counts are prefixes of one list, so the
      two-part gate is upward closed and the search returns its exact threshold. */
  lemma SurvivalThreshold(pool: Pool, n: nat)
    requires AllNodeLocal(pool.toPlace) && LargestFirst(pool.placeable) && SearchFrom(pool, 1) == Found(n)
    ensures forall k :: 1 <= k <= |pool.placeable| ==> (Gate(pool, k) <==> k >= n)
  {
    hide FitNodes, WithoutWorst, SearchFrom;
    forall k, m | 1 <= k <= m <= |pool.placeable| && Gate(pool, k) ensures Gate(pool, m) {
      MorePlaceableFit(pool, pool.placeable[..k], pool.placeable[..m]);
      if pool.cfg.surviveNodeLoss {
        SurvivorsGrow(pool, k, m);
      }
    }
    ThresholdOf(pool, n);
  }

  lemma NodeOrderIsStrictWeak(hosts: set<string>)
    ensures StrictWeak(NodeOrder(hosts))
  {
    LexIsStrictWeak();
  }

  lemma {:induction false} PlaceableIsSubsequence(nodes: seq<ModelNode>, i: nat) returns (k: nat)
    requires i < |PlaceableOf(nodes)|
    ensures i <= k < |nodes| && PlaceableOf(nodes)[i] == nodes[k] && nodes[k].Schedulable()
    ensures i == |PlaceableOf(nodes[..k])|
  {
    var n := |nodes| - 1;
    if i < |PlaceableOf(nodes[..n])| {
      k := PlaceableIsSubsequence(nodes[..n], i);
      assert nodes[..n][..k] == nodes[..k];
    } else {
      k := n;
      PlaceableShorter(nodes[..n]);
    }
  }

  lemma {:induction false} PlaceableShorter(nodes: seq<ModelNode>)
    ensures |PlaceableOf(nodes)| <= |nodes|
  {
    if nodes == [] {
    } else {
      PlaceableShorter(nodes[..|nodes| - 1]);
    }
  }

  lemma {:induction false} PlaceablePrefix(nodes: seq<ModelNode>, k: nat)
    requires k <= |nodes|
    ensures PlaceableOf(nodes[..k]) <= PlaceableOf(nodes)
  {
    if k < |nodes| {
      PlaceablePrefix(nodes[..|nodes| - 1], k);
      assert nodes[..|nodes| - 1][..k] == nodes[..k];
    } else {
      assert nodes[..k] == nodes;
    }
  }

  lemma PlaceableMonotone(nodes: seq<ModelNode>, a: nat, b: nat)
    requires a <= b <= |nodes|
    ensures |PlaceableOf(nodes[..a])| <= |PlaceableOf(nodes[..b])|
  {
    PlaceablePrefix(nodes[..b], a);
    assert nodes[..b][..a] == nodes[..a];
  }

  /** Filtering a sorted list keeps it sorted. */
  lemma PlaceableSorted(nodes: seq<ModelNode>, hosts: set<string>)
    requires Sorted(nodes, NodeOrder(hosts))
    ensures Sorted(PlaceableOf(nodes), NodeOrder(hosts))
  {
    var p := PlaceableOf(nodes);
    forall i, j | 0 <= i < j < |p| ensures !NodeOrder(hosts)(p[j], p[i]) {
      var k := PlaceableIsSubsequence(nodes, i);
      var l := PlaceableIsSubsequence(nodes, j);
      if l <= k {
        PlaceableMonotone(nodes, l, k);
        assert false;
      }
    }
  }

  lemma PoolPlaceableSorted(nodes: seq<ModelNode>, byNode: PodsByNode, usage: UsageSet, cfg: Config)
    ensures Sorted(PoolOf(nodes, byNode, usage, cfg).placeable, NodeOrder(PinnedHosts(nodes, byNode)))
  {
    var hosts := PinnedHosts(nodes, byNode);
    NodeOrderIsStrictWeak(hosts);
    SortSorts(nodes, NodeOrder(hosts));
    PlaceableSorted(SortedNodes(nodes, hosts), hosts);
  }

  /** A pool without pinned hosts is searched largest first. */
  lemma UnpinnedIsLargestFirst(nodes: seq<ModelNode>, byNode: PodsByNode, usage: UsageSet, cfg: Config)
    requires PinnedHosts(nodes, byNode) == {}
    ensures LargestFirst(PoolOf(nodes, byNode, usage, cfg).placeable)
  {
    var p := PoolOf(nodes, byNode, usage, cfg).placeable;
    PoolPlaceableSorted(nodes, byNode, usage, cfg);
    forall i, j | 0 <= i < j < |p| ensures !Bigger(p[j], p[i]) {
      assert !NodeOrder({})(p[j], p[i]);
    }
  }

  /** Without pinned hosts the count found for a snapshot's pool is an exact threshold,
      with or without the survival gate. */
  lemma UnpinnedThreshold(nodes: seq<ModelNode>, byNode: PodsByNode, usage: UsageSet, cfg: Config, n: nat)
    requires PinnedHosts(nodes, byNode) == {}
    requires var pool := PoolOf(nodes, byNode, usage, cfg);
             AllNodeLocal(pool.toPlace) && SearchFrom(pool, 1) == Found(n)
    ensures var pool := PoolOf(nodes, byNode, usage, cfg);
            forall k :: 1 <= k <= |pool.placeable| ==> (Gate(pool, k) <==> k >= n)
  {
    hide SearchFrom, Gate;
    UnpinnedIsLargestFirst(nodes, byNode, usage, cfg);
    SurvivalThreshold(PoolOf(nodes, byNode, usage, cfg), n);
  }

  /** Passing the survival gate in a pool whose retained nodes are interchangeable means a
      valid assignment survives the loss of any single retained node. */
  lemma GateSurvivesAnyLoss(pool: Pool, n: nat)
    requires 1 < n <= |pool.placeable| && pool.cfg.surviveNodeLoss && Gate(pool, n)
    requires Homogeneous(SimNodes(pool, pool.placeable[..n]), pool.toPlace)
    ensures forall x :: 0 <= x < n ==> SurvivableWithout(SimNodes(pool, pool.placeable[..n]), x, pool.toPlace)
  {
    var retained := pool.placeable[..n];
    var w := WorstIndex(retained);
    assert PlacesAll(SimNodes(pool, RemoveAt(retained, w)), pool.toPlace) by {
      hide Fit;
    }
    SimNodesRemove(pool, retained, w);
    hide *;
    HomogeneousSurvivesAnyLoss(SimNodes(pool, retained), w, pool.toPlace);
  }

  lemma SimNodesRemove(pool: Pool, retained: seq<ModelNode>, w: nat)
    requires w < |retained|
    ensures SimNodes(pool, RemoveAt(retained, w)) == RemoveAt(SimNodes(pool, retained), w)
  {
    hide SimNode;
  }

  // ----- the anti-affinity floor -----

  lemma WithoutWorstSize(retained: seq<ModelNode>)
    requires retained != []
    ensures |WithoutWorst(retained)| == |retained| - 1
  {
  }

  /** `k` pods that repel each other need `k` nodes, one more to survive a loss. */
  lemma AntiAffinityFloor(pool: Pool, ns: string, term: Constraints.PodAffinityTerm, n: nat)
    requires DistinctKeys(pool.toPlace) && TopologyProofs.TermCoversNamespace(ns, term)
    requires SearchFrom(pool, 1) == Found(n)
    ensures TopologyProofs.RepelledPods(pool.toPlace, ns, term) <= n
    ensures pool.cfg.surviveNodeLoss ==> TopologyProofs.RepelledPods(pool.toPlace, ns, term) + 1 <= n
  {
    SearchMeaning(pool, 1);
    var retained := pool.placeable[..n];
    TopologyProofs.AntiAffinityNeedsDomains(SimNodes(pool, retained), pool.toPlace, ns, term);
    if pool.cfg.surviveNodeLoss {
      var rest := WithoutWorst(retained);
      WithoutWorstSize(retained);
      TopologyProofs.AntiAffinityNeedsDomains(SimNodes(pool, rest), pool.toPlace, ns, term);
    }
  }

  /** ... so a determinate verdict never goes below them (or the pool's size). */
  lemma VerdictKeepsAntiAffinityFloor(name: string, pool: Pool, fidelity: string, ns: string, term: Constraints.PodAffinityTerm)
    requires DistinctKeys(pool.toPlace) && TopologyProofs.TermCoversNamespace(ns, term)
    requires VerdictOf(name, pool, fidelity).status != IndeterminateStatus
    ensures VerdictOf(name, pool, fidelity).minimumSafeNodes
            >= Min(TopologyProofs.RepelledPods(pool.toPlace, ns, term), pool.size)
  {
    hide SearchFrom, ObstacleBelow;
    var search := SearchFrom(pool, 1);
    if search.Found? {
      AntiAffinityFloor(pool, ns, term, search.n);
    }
  }
}
