/** What a released node rests on, from the snapshot alone: its nodes, its pods, its readings
    and the configuration. */
module SnapshotProofs {
  import opened Basics
  import opened Sorting
  import opened Packer
  import opened PackingProofs
  import opened Usage
  import opened Capacity
  import opened CapacityProofs
  import opened VerdictProofs
  import opened CapacityEngine
  import opened DemandProofs
  import opened AdmissionProofs

  function HeldBack(cfg: Config): int {
    if cfg.headroomPercent > 0 then cfg.headroomPercent else 10
  }

  /** The load leaves the node's headroom free and keeps to its pod cap. From a hundred
      percent on nothing is held back. */
  ghost predicate Carries(m: ModelNode, load: Footprint, cfg: Config) {
    && (m.maxPods > 0 ==> load.pods <= m.maxPods)
    && (if HeldBack(cfg) < 100
        then (m.allocCPU >= 0 ==> 100 * load.cpu <= m.allocCPU * (100 - HeldBack(cfg)))
             && (m.allocMem >= 0 ==> 100 * load.mem <= m.allocMem * (100 - HeldBack(cfg)))
        else load.cpu <= m.allocCPU && load.mem <= m.allocMem)
  }

  lemma CarriesWithin(load: Footprint, m: ModelNode, cfg: Config)
    requires WithinHeadroom(load, m, cfg)
    ensures Carries(m, load, cfg)
  {
    var h := HeldBack(cfg);
    assert cfg.Headroom() == h;
    HoldsBack(m.allocCPU, h);
    HoldsBack(m.allocMem, h);
    hide Withhold;
  }

  lemma HoldsBack(value: int, h: int)
    requires h > 0
    ensures h < 100 && value >= 0 ==> 100 * Withhold(value, h) <= value * (100 - h)
    ensures h >= 100 ==> Withhold(value, h) == value
  {
    if h < 100 && value >= 0 {
      ProductNatural(value, 100 - h);
    }
  }

  /** The pod has a seat on one of the kept nodes, and that node's taints, labels and name
      suit it. */
  ghost predicate Seated(p: ModelPod, kept: seq<ModelNode>, to: map<string, string>) {
    var key := p.namespace + "/" + p.name;
    key in to && exists k :: 0 <= k < |kept| && kept[k].name == to[key] && Suits(kept[k], p)
  }

  ghost predicate Suits(m: ModelNode, p: ModelPod) {
    Borne(m.taints, p.tolerations) && Selected(m.labels, p.nodeSelector) && Attracted(m.name, m.labels, p.affinity)
  }

  /** On the kept nodes of a pool every running pod that has a controller is seated, and no
      node that receives one is asked for more than it can carry. */
  ghost predicate SafeOn(pool: seq<ModelNode>, pods: seq<ModelPod>, usage: UsageSet, cfg: Config, kept: seq<ModelNode>, to: map<string, string>) {
    && (forall p :: p in pods && Running(p) && InPool(pool, p.nodeName) && p.owner.Controller? ==> Seated(p, kept, to))
    && (forall k :: 0 <= k < |kept| && Totals(ArrivingAll(pods, pool, to, kept[k].name, usage, cfg)).pods > 0 ==>
          Carries(kept[k], Burden(pods, pool, to, kept[k].name, usage, cfg), cfg))
  }

  ghost predicate AreOf(kept: seq<ModelNode>, pool: seq<ModelNode>) {
    forall k :: 0 <= k < |kept| ==> IsOf(kept[k], pool)
  }

  ghost predicate IsOf(m: ModelNode, pool: seq<ModelNode>) {
    exists i :: 0 <= i < |pool| && pool[i] == m
  }

  lemma {:induction false} GroupHolds(pods: seq<ModelPod>, p: ModelPod)
    requires p in pods && Running(p)
    ensures p in PodsOn(GroupPods(pods), p.nodeName)
  {
    var n := |pods| - 1;
    var front := pods[..n];
    assert pods == front + [pods[n]];
    GroupSnoc(front, pods[n]);
    if p in front {
      GroupHolds(front, p);
    }
    hide GroupPods;
  }

  /** A full placement on some of a pool's nodes is safe. */
  lemma PlacementIsSafe(pool: seq<ModelNode>, pods: seq<ModelPod>, usage: UsageSet, cfg: Config, kept: seq<ModelNode>)
    requires DistinctNames(pool) && DistinctNames(kept) && AreOf(kept, pool) && ReadingsAreNatural(usage)
    requires DistinctKeys(SimPods(Movable(pool, GroupPods(pods)), usage, cfg))
    requires FitNodes(PoolOf(pool, GroupPods(pods), usage, cfg), kept).unplaced == []
    ensures SafeOn(pool, pods, usage, cfg, kept, FitNodes(PoolOf(pool, GroupPods(pods), usage, cfg), kept).assignments)
  {
    var to := FitNodes(PoolOf(pool, GroupPods(pods), usage, cfg), kept).assignments;
    hide FitNodes, PoolOf, GroupPods, SimPods, Movable, DistinctNames, DistinctKeys, Burden, ArrivingAll, Totals, Seated, Carries, WithinHeadroom;
    forall p | p in pods && Running(p) && InPool(pool, p.nodeName) && p.owner.Controller? ensures Seated(p, kept, to) {
      PodIsSeated(pool, pods, usage, cfg, kept, p);
    }
    forall k | 0 <= k < |kept| && Totals(ArrivingAll(pods, pool, to, kept[k].name, usage, cfg)).pods > 0
      ensures Carries(kept[k], Burden(pods, pool, to, kept[k].name, usage, cfg), cfg)
    {
      var i :| 0 <= i < |pool| && pool[i] == kept[k];
      BurdenFits(pool, pods, usage, cfg, kept, k, i);
      CarriesWithin(Burden(pods, pool, to, kept[k].name, usage, cfg), kept[k], cfg);
    }
  }

  lemma PodIsSeated(pool: seq<ModelNode>, pods: seq<ModelPod>, usage: UsageSet, cfg: Config, kept: seq<ModelNode>, p: ModelPod)
    requires p in pods && Running(p) && InPool(pool, p.nodeName) && p.owner.Controller?
    requires DistinctKeys(SimPods(Movable(pool, GroupPods(pods)), usage, cfg))
    requires FitNodes(PoolOf(pool, GroupPods(pods), usage, cfg), kept).unplaced == []
    ensures Seated(p, kept, FitNodes(PoolOf(pool, GroupPods(pods), usage, cfg), kept).assignments)
  {
    var byNode := GroupPods(pods);
    var given := PoolOf(pool, byNode, usage, cfg);
    PoolParts(pool, byNode, usage, cfg);
    GroupHolds(pods, p);
    var i :| 0 <= i < |pool| && pool[i].name == p.nodeName;
    assert p.Relocatable();
    MovableHolds(pool, byNode, i, p);
    var j :| 0 <= j < |Movable(pool, byNode)| && Movable(pool, byNode)[j] == p;
    assert given.toPlace[j] == SimPod(p, usage, cfg);
    var k := FitSeats(given, kept, j);
    SeatSuits(given, kept, p, usage, cfg);
  }

  lemma SeatSuits(pool: Pool, kept: seq<ModelNode>, p: ModelPod, usage: UsageSet, cfg: Config)
    requires DistinctKeys(pool.toPlace) && SimPod(p, usage, cfg) in pool.toPlace
    requires Key(SimPod(p, usage, cfg)) in FitNodes(pool, kept).assignments
    ensures Seated(p, kept, FitNodes(pool, kept).assignments)
  {
    var q := SimPod(p, usage, cfg);
    hide DistinctKeys, Fit, Borne, Selected, Attracted;
    AssignedIsAdmitted(SimNodes(pool, kept), pool.toPlace, q);
    var k :| 0 <= k < |SimNodes(pool, kept)| && SimNodes(pool, kept)[k].name == Fit(SimNodes(pool, kept), pool.toPlace).assignments[Key(q)]
             && Welcome(SimNodes(pool, kept)[k], q);
    assert Suits(kept[k], p);
  }

  // ----- pods stay distinct -----

  ghost predicate DistinctPods(pods: seq<ModelPod>) {
    forall i, j :: 0 <= i < j < |pods| ==> PodKey(pods[i]) != PodKey(pods[j])
  }

  /** Pods of the snapshot that run on the node. */
  ghost predicate RunOn(on: seq<ModelPod>, pods: seq<ModelPod>, name: string) {
    DistinctPods(on) && forall p :: p in on ==> p in pods && p.nodeName == name
  }

  lemma DistinctSnoc(pods: seq<ModelPod>, p: ModelPod)
    requires DistinctPods(pods) && forall q :: q in pods ==> PodKey(q) != PodKey(p)
    ensures DistinctPods(pods + [p])
  {
    hide PodKey;
  }

  lemma {:induction false} GroupsRunThere(pods: seq<ModelPod>, name: string)
    requires DistinctPods(pods)
    ensures RunOn(PodsOn(GroupPods(pods), name), pods, name)
  {
    hide PodKey;
    if pods == [] {
    } else {
      var n := |pods| - 1;
      var front, p := pods[..n], pods[n];
      assert pods == front + [p];
      GroupsRunThere(front, name);
      GroupSnoc(front, p);
      var on := PodsOn(GroupPods(front), name);
      hide GroupPods;
      forall q | q in on ensures PodKey(q) != PodKey(p) {
        var i :| 0 <= i < n && pods[i] == q;
      }
      DistinctSnoc(on, p);
    }
  }

  lemma {:induction false} MovableOnDistinct(on: seq<ModelPod>)
    requires DistinctPods(on)
    ensures DistinctPods(MovableOn(on)) && forall p :: p in MovableOn(on) ==> p in on
  {
    hide PodKey;
    if on == [] {
    } else {
      var n := |on| - 1;
      assert on == on[..n] + [on[n]];
      MovableOnDistinct(on[..n]);
      var front := MovableOn(on[..n]);
      assert front + [] == front;
      forall q | q in front ensures PodKey(q) != PodKey(on[n]) {
        var i :| 0 <= i < n && on[i] == q;
      }
      DistinctSnoc(front, on[n]);
    }
  }

  lemma DistinctJoin(a: seq<ModelPod>, b: seq<ModelPod>)
    requires DistinctPods(a) && DistinctPods(b) && forall p, q :: p in a && q in b ==> PodKey(p) != PodKey(q)
    ensures DistinctPods(a + b)
  {
    hide PodKey;
    var s := a + b;
    forall i, j | 0 <= i < j < |s| ensures PodKey(s[i]) != PodKey(s[j]) {
      if i < |a| <= j {
        assert s[i] in a && s[j] in b;
      }
    }
  }

  /** In a snapshot of distinct pods no pod is placed twice. */
  lemma {:induction false} MovableDistinct(members: seq<ModelNode>, pods: seq<ModelPod>)
    requires DistinctNames(members) && DistinctPods(pods)
    ensures DistinctPods(Movable(members, GroupPods(pods)))
    ensures forall p :: p in Movable(members, GroupPods(pods)) ==> p in pods && InPool(members, p.nodeName)
  {
    hide PodKey, GroupPods, MovableOn;
    if members == [] {
    } else {
      var n := |members| - 1;
      var last := members[n];
      var on := PodsOn(GroupPods(pods), last.name);
      LastIsNew(members);
      MovableDistinct(members[..n], pods);
      GroupsRunThere(pods, last.name);
      MovableOnDistinct(on);
      var front, rest := Movable(members[..n], GroupPods(pods)), MovableOn(on);
      assert Movable(members, GroupPods(pods)) == front + rest;
      forall p, q | p in front && q in rest ensures PodKey(p) != PodKey(q) {
        assert p.nodeName != q.nodeName;
        if PodKey(p) == PodKey(q) {
          SamePod(pods, p, q);
        }
      }
      DistinctJoin(front, rest);
      forall p | p in front + rest ensures p in pods && InPool(members, p.nodeName) {
        InPoolSnoc(members, p.nodeName);
      }
    }
  }

  lemma SamePod(pods: seq<ModelPod>, p: ModelPod, q: ModelPod)
    requires DistinctPods(pods) && p in pods && q in pods && PodKey(p) == PodKey(q)
    ensures p == q
  {
    hide PodKey;
    var i :| 0 <= i < |pods| && pods[i] == p;
    var j :| 0 <= j < |pods| && pods[j] == q;
    assert i < j || j < i || i == j;
  }

  lemma SimKeysDistinct(members: seq<ModelNode>, pods: seq<ModelPod>, usage: UsageSet, cfg: Config)
    requires DistinctNames(members) && DistinctPods(pods)
    ensures DistinctKeys(SimPods(Movable(members, GroupPods(pods)), usage, cfg))
  {
    MovableDistinct(members, pods);
    var moving := Movable(members, GroupPods(pods));
    hide Movable, GroupPods, Sized;
    assert forall p :: Key(SimPod(p, usage, cfg)) == PodKey(p);
    hide PodKey, Key, SimPod;
  }

  // ----- the verdict -----

  /** The nodes of one pool, in snapshot order. */
  function OfPool(nodes: seq<ModelNode>, name: string): seq<ModelNode> {
    if nodes == [] then []
    else if nodes[0].pool == name then [nodes[0]] + OfPool(nodes[1..], name) else OfPool(nodes[1..], name)
  }

  lemma {:induction false} OfPoolSnoc(nodes: seq<ModelNode>, n: ModelNode, name: string)
    ensures OfPool(nodes + [n], name) == OfPool(nodes, name) + if n.pool == name then [n] else []
  {
    if nodes == [] {
      assert [] + [n] == [n] && [n][1..] == [];
    } else {
      OfPoolSnoc(nodes[1..], n, name);
      assert (nodes + [n])[1..] == nodes[1..] + [n];
    }
  }

  lemma {:induction false} PoolIs(nodes: seq<ModelNode>, name: string)
    ensures PoolNodes(nodes, name) == OfPool(nodes, name)
    ensures forall m :: m in OfPool(nodes, name) <==> m in nodes && m.pool == name
  {
    if nodes == [] {
    } else {
      var n := |nodes| - 1;
      assert nodes == nodes[..n] + [nodes[n]];
      PoolIs(nodes[..n], name);
      OfPoolSnoc(nodes[..n], nodes[n], name);
      hide OfPool;
    }
  }

  /** Nodes of the pool that are ready and not cordoned, no two of one name. */
  ghost predicate KeptOf(kept: seq<ModelNode>, nodes: seq<ModelNode>, name: string) {
    && (forall m :: m in kept ==> m in nodes && m.pool == name && m.ready && !m.unschedulable)
    && forall i, j :: 0 <= i < j < |kept| ==> kept[i].name != kept[j].name
  }

  /** One of the kept nodes, none larger in memory and then CPU, can be lost: the others are
      still safe. */
  ghost predicate SurvivesLoss(pool: seq<ModelNode>, pods: seq<ModelPod>, usage: UsageSet, cfg: Config, kept: seq<ModelNode>) {
    && (|kept| == 1 ==> forall p :: p in pods && Running(p) && InPool(pool, p.nodeName) ==> !p.owner.Controller?)
    && (|kept| > 1 ==>
          exists w, to :: 0 <= w < |kept| && SafeWithout(pool, pods, usage, cfg, kept, w, to)
                          && forall m :: m in kept ==> m.allocMem < kept[w].allocMem
                                                       || (m.allocMem == kept[w].allocMem && m.allocCPU <= kept[w].allocCPU))
  }

  ghost predicate SafeWithout(pool: seq<ModelNode>, pods: seq<ModelPod>, usage: UsageSet, cfg: Config, kept: seq<ModelNode>, w: nat,
                              to: map<string, string>)
    requires w < |kept|
  {
    SafeOn(pool, pods, usage, cfg, kept[..w] + kept[w + 1..], to)
  }

  /** A verdict that gives back any node of a pool rests on nodes it can keep: schedulable ones
      of the pool, no more than it keeps, on which the pool's running, controlled pods are all
      seated within what each node carries at observed demand; and, where survival is asked
      for, so they are after losing the largest of them. */
  lemma ReleaseRestsOnDemand(name: string, nodes: seq<ModelNode>, pods: seq<ModelPod>, usage: UsageSet, cfg: Config)
    returns (kept: seq<ModelNode>, to: map<string, string>)
    requires DistinctNames(OfPool(nodes, name)) && DistinctPods(pods) && ReadingsAreNatural(usage)
    ensures VerdictFor(name, nodes, pods, usage, cfg).removableNodes > 0 ==>
              && 1 <= |kept| <= VerdictFor(name, nodes, pods, usage, cfg).minimumSafeNodes < |OfPool(nodes, name)|
              && KeptOf(kept, nodes, name) && SafeOn(OfPool(nodes, name), pods, usage, cfg, kept, to)
              && (cfg.surviveNodeLoss ==> SurvivesLoss(OfPool(nodes, name), pods, usage, cfg, kept))
  {
    PoolIs(nodes, name);
    var members := OfPool(nodes, name);
    SimKeysDistinct(members, pods, usage, cfg);
    var byNode := GroupPods(pods);
    var pool := PoolOf(members, byNode, usage, cfg);
    PoolSizes(members, byNode, usage, cfg);
    var n := SizeBehind(name, pool, ReportedFidelity(usage));
    var v := VerdictFor(name, nodes, pods, usage, cfg);
    VerdictForIs(name, nodes, pods, usage, cfg, members);
    if v.removableNodes <= 0 {
      kept, to := [], map[];
      return;
    }
    SearchMeaning(pool, 1);
    hide *;
    kept := FirstKept(members, byNode, usage, cfg, n);
    KeptAreMembers(members, nodes, name, kept);
    GateParts(pool, n);
    PlacementIsSafe(members, pods, usage, cfg, kept);
    to := FitNodes(pool, kept).assignments;
    if cfg.surviveNodeLoss {
      LossIsSafe(members, pods, usage, cfg, kept);
    }
  }

  lemma PoolSizes(nodes: seq<ModelNode>, byNode: PodsByNode, usage: UsageSet, cfg: Config)
    ensures PoolOf(nodes, byNode, usage, cfg).size == |nodes| && PoolOf(nodes, byNode, usage, cfg).cfg == cfg
  {
  }

  lemma VerdictForIs(name: string, nodes: seq<ModelNode>, pods: seq<ModelPod>, usage: UsageSet, cfg: Config, members: seq<ModelNode>)
    requires PoolNodes(nodes, name) == members
    ensures var v := VerdictFor(name, nodes, pods, usage, cfg);
            && v == VerdictOf(name, PoolOf(members, GroupPods(pods), usage, cfg), ReportedFidelity(usage))
            && (v.removableNodes > 0 ==> v.minimumSafeNodes < |members|)
  {
    hide SearchFrom, ObstacleBelow, GroupPods;
  }

  /** The first `n` placeable nodes of a pool. */
  lemma FirstKept(members: seq<ModelNode>, byNode: PodsByNode, usage: UsageSet, cfg: Config, n: nat) returns (kept: seq<ModelNode>)
    requires n <= |PoolOf(members, byNode, usage, cfg).placeable| && DistinctNames(members)
    ensures kept == PoolOf(members, byNode, usage, cfg).placeable[..n] && |kept| == n
    ensures DistinctNames(kept) && AreOf(kept, members) && forall m :: m in kept ==> m.Schedulable()
  {
    var pool := PoolOf(members, byNode, usage, cfg);
    kept := pool.placeable[..n];
    hide PoolOf, DistinctNames;
    PlaceableNamesDistinct(members, byNode, usage, cfg);
    DistinctPrefix(pool.placeable, n);
    forall k | 0 <= k < n
      ensures kept[k].Schedulable() && IsOf(kept[k], members)
    {
      var i := PlaceableFromPool(members, byNode, usage, cfg, k);
    }
  }

  lemma DistinctPrefix(nodes: seq<ModelNode>, n: nat)
    requires n <= |nodes| && DistinctNames(nodes)
    ensures DistinctNames(nodes[..n])
  {
  }

  lemma KeptAreMembers(members: seq<ModelNode>, nodes: seq<ModelNode>, name: string, kept: seq<ModelNode>)
    requires forall m :: m in members <==> m in nodes && m.pool == name
    requires DistinctNames(kept) && AreOf(kept, members) && forall m :: m in kept ==> m.Schedulable()
    ensures KeptOf(kept, nodes, name)
  {
    forall m | m in kept ensures m in nodes && m.pool == name && m.ready && !m.unschedulable {
      var k :| 0 <= k < |kept| && kept[k] == m;
      var i :| 0 <= i < |members| && members[i] == kept[k];
      assert m in members;
    }
  }

  lemma GateParts(pool: Pool, n: nat)
    requires n <= |pool.placeable| && Gate(pool, n)
    ensures FitNodes(pool, pool.placeable[..n]).unplaced == []
    ensures pool.cfg.surviveNodeLoss ==> FitNodes(pool, WithoutWorst(pool.placeable[..n])).unplaced == []
  {
  }

  lemma LossIsSafe(members: seq<ModelNode>, pods: seq<ModelPod>, usage: UsageSet, cfg: Config, kept: seq<ModelNode>)
    requires DistinctNames(members) && DistinctNames(kept) && AreOf(kept, members) && ReadingsAreNatural(usage) && kept != []
    requires DistinctKeys(SimPods(Movable(members, GroupPods(pods)), usage, cfg))
    requires FitNodes(PoolOf(members, GroupPods(pods), usage, cfg), WithoutWorst(kept)).unplaced == []
    ensures SurvivesLoss(members, pods, usage, cfg, kept)
  {
    var pool := PoolOf(members, GroupPods(pods), usage, cfg);
    var left := WithoutWorst(kept);
    hide FitNodes, PoolOf, GroupPods, SimPods, Movable, DistinctNames, DistinctKeys, SafeOn;
    if |kept| == 1 {
      hide WithoutWorst, AreOf;
      forall p | p in pods && Running(p) && InPool(members, p.nodeName) ensures !p.owner.Controller? {
        if p.owner.Controller? {
          PodIsSeated(members, pods, usage, cfg, left, p);
        }
      }
    } else {
      var w := WorstIndex(kept);
      RemainderOf(kept, members, w);
      PlacementIsSafe(members, pods, usage, cfg, left);
      assert SafeWithout(members, pods, usage, cfg, kept, w, FitNodes(pool, left).assignments);
      forall m | m in kept
        ensures m.allocMem < kept[w].allocMem || (m.allocMem == kept[w].allocMem && m.allocCPU <= kept[w].allocCPU)
      {
        var j :| 0 <= j < |kept| && kept[j] == m;
        assert !Bigger(kept[j], kept[w]);
      }
    }
  }

  lemma RemainderOf(kept: seq<ModelNode>, members: seq<ModelNode>, w: nat)
    requires w < |kept| && DistinctNames(kept) && AreOf(kept, members)
    ensures DistinctNames(RemoveAt(kept, w)) && AreOf(RemoveAt(kept, w), members) && RemoveAt(kept, w) == kept[..w] + kept[w + 1..]
  {
    var left := RemoveAt(kept, w);
    assert forall k :: 0 <= k < |left| ==> left[k] == kept[if k < w then k else k + 1];
    assert DistinctNames(left);
    hide DistinctNames;
    forall k | 0 <= k < |left| ensures IsOf(left[k], members) {
      var j := if k < w then k else k + 1;
      assert IsOf(kept[j], members);
    }
  }

  /** A verdict can be acted on exactly when the pool's search was answered and the usage
      behind it spans time; an absent fidelity is reported as "none". */
  lemma ActionableExactly(name: string, nodes: seq<ModelNode>, pods: seq<ModelPod>, usage: UsageSet, cfg: Config)
    ensures var v := VerdictFor(name, nodes, pods, usage, cfg);
            v.actionable <==> !v.status.IndeterminateStatus? && SpansTime(usage.fidelity)
    ensures VerdictFor(name, nodes, pods, usage, cfg).usageFidelity == if usage.fidelity == "" then "none" else usage.fidelity
  {
    var pool := PoolOf(PoolNodes(nodes, name), GroupPods(pods), usage, cfg);
    FidelityKept(usage);
    hide PoolOf, GroupPods, PoolNodes;
    VerdictFlags(name, pool, ReportedFidelity(usage));
    hide VerdictOf, ReportedFidelity;
  }

  lemma FidelityKept(usage: UsageSet)
    ensures Actionable(ReportedFidelity(usage)) <==> SpansTime(usage.fidelity)
    ensures ReportedFidelity(usage) == if usage.fidelity == "" then "none" else usage.fidelity
  {
  }

  lemma VerdictFlags(name: string, pool: Pool, fidelity: string)
    ensures var v := VerdictOf(name, pool, fidelity);
            v.usageFidelity == fidelity && (v.actionable <==> !v.status.IndeterminateStatus? && Actionable(fidelity))
  {
    hide SearchFrom, ObstacleBelow, Actionable;
  }

  function FloorOf(cfg: Config): int {
    if cfg.floor > 0 then cfg.floor else 2
  }

  function Smaller(a: int, b: int): int {
    if a <= b then a else b
  }

  /** The sizes a verdict states: what it keeps is what the search derived, raised to the floor
      but to no more than the pool has; the rest is removable; an unanswered search releases
      and keeps nothing in numbers. */
  lemma SizesExactly(name: string, nodes: seq<ModelNode>, pods: seq<ModelPod>, usage: UsageSet, cfg: Config)
    ensures var v, n := VerdictFor(name, nodes, pods, usage, cfg), |OfPool(nodes, name)|;
            && v.pool == name && v.currentNodes == n && v.configuredFloor == FloorOf(cfg)
            && (if v.status.IndeterminateStatus?
                then v.minimumSafeNodes == 0 && v.removableNodes == 0 && v.derivedMinimum == 0
                else v.minimumSafeNodes == Smaller(n, Larger(v.derivedMinimum, FloorOf(cfg)))
                     && v.removableNodes == n - v.minimumSafeNodes)
  {
    PoolIs(nodes, name);
    var members := OfPool(nodes, name);
    PoolSizes(members, GroupPods(pods), usage, cfg);
    hide PoolOf, GroupPods, PoolNodes, OfPool, SearchFrom, ObstacleBelow;
  }

  /** What a verdict names as holding the pool: its floor when that is what raised the size;
      otherwise what stands in the way one node lower. */
  lemma BindingExactly(name: string, pool: Pool, fidelity: string)
    ensures var v := VerdictOf(name, pool, fidelity);
            && (v.status.AtFloor? ==> v.blockers == [] && v.binding == FloorBinds(FloorOf(pool.cfg)))
            && (v.status.Fits? || v.status.AtMinimum? ==>
                  v.blockers == ObstacleBelow(pool, v.minimumSafeNodes).blockers
                  && v.binding == ObstacleBelow(pool, v.minimumSafeNodes).binding)
            && (v.status.IndeterminateStatus? ==>
                  v.blockers == [] && v.binding == UnmodelledBinds(v.indeterminateReasons) && !v.actionable)
  {
    hide SearchFrom, ObstacleBelow;
  }

  lemma {:induction false} GroupOnly(pods: seq<ModelPod>, name: string, p: ModelPod)
    ensures p in PodsOn(GroupPods(pods), name) <==> p in pods && Running(p) && p.nodeName == name
  {
    if pods == [] {
    } else {
      var n := |pods| - 1;
      assert pods == pods[..n] + [pods[n]];
      GroupOnly(pods[..n], name, p);
      GroupSnoc(pods[..n], pods[n]);
      hide GroupPods;
    }
  }

  /** The names of the pool's nodes that host a running pod which neither has a controller nor
      belongs to a DaemonSet. */
  ghost predicate HostsUncontrolled(members: seq<ModelNode>, pods: seq<ModelPod>, name: string) {
    && InPool(members, name)
    && exists i :: 0 <= i < |pods| && Running(pods[i]) && pods[i].nodeName == name
                   && !pods[i].owner.Controller? && !pods[i].owner.DaemonSet?
  }

  lemma HostsExactly(members: seq<ModelNode>, pods: seq<ModelPod>, name: string)
    ensures name in PinnedHosts(members, GroupPods(pods)) <==> HostsUncontrolled(members, pods, name)
  {
    var on := PodsOn(GroupPods(pods), name);
    forall p ensures p in on <==> p in pods && Running(p) && p.nodeName == name {
      GroupOnly(pods, name, p);
    }
    hide GroupPods;
    if i :| 0 <= i < |pods| && Running(pods[i]) && pods[i].nodeName == name && !pods[i].owner.Controller? && !pods[i].owner.DaemonSet? {
      assert pods[i] in on;
      var j :| 0 <= j < |on| && on[j] == pods[i];
      assert on[j].Pinned();
    }
    if HostsPinned(on) {
      var j :| 0 <= j < |on| && on[j].Pinned();
      assert on[j] in on && on[j] in pods;
      var i :| 0 <= i < |pods| && pods[i] == on[j];
    }
    assert HostsPinned(on) <==> exists i :: 0 <= i < |pods| && Running(pods[i]) && pods[i].nodeName == name
                                            && !pods[i].owner.Controller? && !pods[i].owner.DaemonSet?;
    hide HostsPinned;
  }

  /** The verdict counts those hosts. */
  lemma ImmovableExactly(name: string, nodes: seq<ModelNode>, pods: seq<ModelPod>, usage: UsageSet, cfg: Config, hosts: set<string>)
    requires forall h :: h in hosts <==> HostsUncontrolled(OfPool(nodes, name), pods, h)
    ensures VerdictFor(name, nodes, pods, usage, cfg).immovableNodes == |hosts|
  {
    PoolIs(nodes, name);
    var members := OfPool(nodes, name);
    forall h ensures h in PinnedHosts(members, GroupPods(pods)) <==> h in hosts {
      HostsExactly(members, pods, h);
    }
    assert PinnedHosts(members, GroupPods(pods)) == hosts;
    hide PinnedHosts, GroupPods, PoolNodes, OfPool, SearchFrom, ObstacleBelow;
  }

  /** The search takes hosts of uncontrolled pods first, then the most memory, then the most
      CPU, then the name. */
  ghost predicate SearchedFirst(a: ModelNode, b: ModelNode, members: seq<ModelNode>, pods: seq<ModelPod>) {
    var hostA, hostB := HostsUncontrolled(members, pods, a.name), HostsUncontrolled(members, pods, b.name);
    || (hostA && !hostB)
    || (hostA == hostB
        && (a.allocMem > b.allocMem
            || (a.allocMem == b.allocMem
                && (a.allocCPU > b.allocCPU || (a.allocCPU == b.allocCPU && !LexLess(b.name, a.name))))))
  }

  lemma SearchOrder(members: seq<ModelNode>, pods: seq<ModelPod>, usage: UsageSet, cfg: Config, i: nat, j: nat)
    requires i < j < |PoolOf(members, GroupPods(pods), usage, cfg).placeable|
    ensures var nodes := PoolOf(members, GroupPods(pods), usage, cfg).placeable;
            SearchedFirst(nodes[i], nodes[j], members, pods)
  {
    var hosts := PinnedHosts(members, GroupPods(pods));
    var nodes := PoolOf(members, GroupPods(pods), usage, cfg).placeable;
    var sorted := SortedNodes(members, hosts);
    HostsExactly(members, pods, nodes[i].name);
    HostsExactly(members, pods, nodes[j].name);
    NodeOrderIsStrictWeak(hosts);
    SortSorts(members, NodeOrder(hosts));
    var k := PlaceableIsSubsequence(sorted, i);
    var l := PlaceableIsSubsequence(sorted, j);
    if l <= k {
      PlaceableMonotone(sorted, l, k);
      assert false;
    }
    assert !NodeBefore(hosts, sorted[l], sorted[k]);
    hide PinnedHosts, GroupPods, PoolOf, HostsUncontrolled;
  }
}
