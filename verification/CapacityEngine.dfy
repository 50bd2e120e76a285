/** The per-pool analysis as it runs: accumulating loops, the upward search and the
    verdict, proved to compute the functions of Capacity. */
module CapacityEngine {
  import opened Basics
  import opened Sorting
  import opened Packer
  import opened Usage
  import opened Capacity
  import Binpack

  method FindPinnedHosts(nodes: seq<ModelNode>, byNode: PodsByNode) returns (hosts: set<string>)
    ensures hosts == PinnedHosts(nodes, byNode)
  {
    hosts := {};
    for i := 0 to |nodes|
      invariant forall h :: h in hosts <==>
                  exists j :: 0 <= j < i && HostsPinned(PodsOn(byNode, nodes[j].name)) && nodes[j].name == h
    {
      if HostsPinned(PodsOn(byNode, nodes[i].name)) {
        hosts := hosts + {nodes[i].name};
      }
    }
  }

  /** One scan over the pool's pods: what to place, and what is charged where. */
  method Accumulate(nodes: seq<ModelNode>, byNode: PodsByNode, usage: UsageSet, cfg: Config)
    returns (toPlace: seq<Pod>, daemon: Footprint, pinned: map<string, Footprint>)
    ensures toPlace == SimPods(Movable(nodes, byNode), usage, cfg)
    ensures daemon == DaemonMax(nodes, byNode)
    ensures pinned == PinnedByHost(nodes, byNode, usage, cfg)
  {
    toPlace, daemon, pinned := [], NOTHING, map[];
    for i := 0 to |nodes|
      invariant toPlace == SimPods(Movable(nodes[..i], byNode), usage, cfg)
      invariant daemon == DaemonMax(nodes[..i], byNode)
      invariant pinned == PinnedByHost(nodes[..i], byNode, usage, cfg)
    {
      assert nodes[..i + 1][..i] == nodes[..i];
      var nodeDaemon;
      toPlace, nodeDaemon, pinned := ScanNode(nodes[i].name, PodsOn(byNode, nodes[i].name), toPlace, pinned, usage, cfg);
      daemon := daemon.Join(nodeDaemon);
    }
    assert nodes[..|nodes|] == nodes;
  }

  method ScanNode(name: string, pods: seq<ModelPod>, toPlace0: seq<Pod>, pinned0: map<string, Footprint>,
                  usage: UsageSet, cfg: Config)
    returns (toPlace: seq<Pod>, daemon: Footprint, pinned: map<string, Footprint>)
    ensures toPlace == toPlace0 + SimPods(MovableOn(pods), usage, cfg)
    ensures daemon == DaemonOn(pods)
    ensures pinned == AddPinned(pinned0, name, pods, usage, cfg)
  {
    ScanStart(name, pods, pinned0, usage, cfg);
    hide AddPinned, MovableOn, DaemonOn, SimPods, SimPod, PinnedCost, ModelPod.Pinned;
    var mine: seq<Pod> := [];
    daemon, pinned := NOTHING, pinned0;
    for j := 0 to |pods|
      invariant mine == SimPods(MovableOn(pods[..j]), usage, cfg)
      invariant daemon == DaemonOn(pods[..j])
      invariant pinned == AddPinned(pinned0, name, pods[..j], usage, cfg)
    {
      var pod := pods[j];
      ScanStep(name, pods, j, pinned0, usage, cfg);
      if pod.Daemon() {
        daemon := daemon.Plus(Footprint(pod.reqCPU, pod.reqMem, 1));
      } else if !pod.Relocatable() {
        pinned := pinned[name := FootprintOf(pinned, name).Plus(PinnedCost(pod, usage, cfg))];
      } else {
        mine := mine + [SimPod(pod, usage, cfg)];
      }
    }
    assert pods[..|pods|] == pods;
    toPlace := toPlace0 + mine;
  }

  lemma ScanStart(name: string, pods: seq<ModelPod>, pinned0: map<string, Footprint>, usage: UsageSet, cfg: Config)
    ensures SimPods(MovableOn(pods[..0]), usage, cfg) == [] && DaemonOn(pods[..0]) == NOTHING
    ensures AddPinned(pinned0, name, pods[..0], usage, cfg) == pinned0
  {
  }

  lemma ScanStep(name: string, pods: seq<ModelPod>, j: nat, pinned0: map<string, Footprint>, usage: UsageSet, cfg: Config)
    requires j < |pods|
    ensures SimPods(MovableOn(pods[..j + 1]), usage, cfg)
            == SimPods(MovableOn(pods[..j]), usage, cfg) + if pods[j].Relocatable() then [SimPod(pods[j], usage, cfg)] else []
    ensures DaemonOn(pods[..j + 1])
            == DaemonOn(pods[..j]).Plus(if pods[j].Daemon() then Footprint(pods[j].reqCPU, pods[j].reqMem, 1) else NOTHING)
    ensures var prev := AddPinned(pinned0, name, pods[..j], usage, cfg);
            AddPinned(pinned0, name, pods[..j + 1], usage, cfg)
            == if !pods[j].Relocatable() && !pods[j].Daemon() then prev[name := FootprintOf(prev, name).Plus(PinnedCost(pods[j], usage, cfg))] else prev
  {
    assert pods[..j + 1][..j] == pods[..j];
    assert MovableOn(pods[..j + 1]) == MovableOn(pods[..j]) + if pods[j].Relocatable() then [pods[j]] else [];
  }

  method SplitPlaceable(sorted: seq<ModelNode>, hosts: set<string>) returns (placeable: seq<ModelNode>, stranded: nat)
    ensures placeable == PlaceableOf(sorted) && stranded == StrandedOf(sorted, hosts)
  {
    placeable, stranded := [], 0;
    for i := 0 to |sorted|
      invariant placeable == PlaceableOf(sorted[..i]) && stranded == StrandedOf(sorted[..i], hosts)
    {
      assert sorted[..i + 1][..i] == sorted[..i];
      if sorted[i].Schedulable() {
        placeable := placeable + [sorted[i]];
      } else if sorted[i].name in hosts {
        stranded := stranded + 1;
      }
    }
    assert sorted[..|sorted|] == sorted;
  }

  lemma WithoutAt<T>(s: seq<T>, i: nat)
    requires i < |s|
    ensures RemoveAt(s, i) == s[..i] + s[i + 1..]
  {
  }

  lemma WorstStep(retained: seq<ModelNode>, i: nat)
    requires 0 < i < |retained|
    ensures var w := WorstIndex(retained[..i]);
            WorstIndex(retained[..i + 1]) == if Bigger(retained[i], retained[w]) then i else w
  {
    assert retained[..i + 1][..i] == retained[..i];
  }

  /** The retained set minus the node whose loss costs the most capacity. */
  method DropWorst(retained: seq<ModelNode>) returns (out: seq<ModelNode>)
    ensures out == WithoutWorst(retained)
  {
    if |retained| <= 1 {
      return [];
    }
    var worst := 0;
    assert WorstIndex(retained[..1]) == 0;
    hide WorstIndex, RemoveAt;
    for i := 1 to |retained|
      invariant worst < i && worst == WorstIndex(retained[..i])
    {
      WorstStep(retained, i);
      if retained[i].allocMem != retained[worst].allocMem {
        if retained[i].allocMem > retained[worst].allocMem {
          worst := i;
        }
      } else if retained[i].allocCPU > retained[worst].allocCPU {
        worst := i;
      }
    }
    assert retained[..|retained|] == retained;
    WithoutAt(retained, worst);
    out := retained[..worst] + retained[worst + 1..];
  }

  method RunFitNodes(pool: Pool, retained: seq<ModelNode>) returns (f: Placement)
    ensures f == FitNodes(pool, retained)
  {
    f := Binpack.RunFit(SimNodes(pool, retained), pool.toPlace);
  }

  /** Puts the question for one node count: an answer, or "one more node". */
  method TryCount(pool: Pool, n: nat) returns (answer: Option<Search>)
    requires 1 <= n <= |pool.placeable|
    ensures answer == AnswerAt(pool, n)
  {
    var placement := RunFitNodes(pool, pool.placeable[..n]);
    if placement.Indeterminate() {
      return Some(Unknown(placement.indeterminateReasons));
    }
    if placement.unplaced != [] {
      return None;
    }
    if pool.cfg.surviveNodeLoss {
      var rest := DropWorst(pool.placeable[..n]);
      var survivor := RunFitNodes(pool, rest);
      if survivor.Indeterminate() {
        return Some(Unknown(survivor.indeterminateReasons));
      }
      if survivor.unplaced != [] {
        return None;
      }
    }
    return Some(Found(n));
  }

  /** Searches upward for the least number of placeable nodes that passes the gate. */
  method RunSearch(pool: Pool) returns (found: Search)
    ensures found == SearchFrom(pool, 1)
  {
    hide AnswerAt;
    for n := 1 to |pool.placeable| + 1
      invariant SearchFrom(pool, 1) == SearchFrom(pool, n)
    {
      var answer := TryCount(pool, n);
      if answer.Some? {
        return answer.value;
      }
    }
    return Exhausted;
  }

  ghost predicate Grouped(byReason: map<string, Blocker>, unplaced: seq<Rejection>) {
    && (forall r :: r in byReason <==> r in BlockingReasons(unplaced))
    && (forall r :: BlockerFor(unplaced, r) == BlockerIn(byReason, r))
  }

  function BlockerIn(byReason: map<string, Blocker>, reason: string): Blocker {
    if reason in byReason then byReason[reason] else Blocker(reason, 0, [])
  }

  method GroupRejections(unplaced: seq<Rejection>) returns (byReason: map<string, Blocker>)
    ensures forall r :: r in byReason <==> r in BlockingReasons(unplaced)
    ensures forall r :: r in byReason ==> byReason[r] == BlockerFor(unplaced, r)
  {
    byReason := map[];
    assert Grouped(byReason, unplaced[..0]);
    for i := 0 to |unplaced|
      invariant Grouped(byReason, unplaced[..i])
    {
      GroupedStep(byReason, unplaced, i);
      var reason := unplaced[i].reason;
      var b := if reason in byReason then byReason[reason] else Blocker(reason, 0, []);
      var examples := if |b.examples| < 3 then b.examples + [unplaced[i].podKey] else b.examples;
      byReason := byReason[reason := Blocker(reason, b.pods + 1, examples)];
    }
    assert unplaced[..|unplaced|] == unplaced;
    assert forall r :: r in byReason ==> BlockerFor(unplaced, r) == BlockerIn(byReason, r);
  }

  lemma GroupedStep(byReason: map<string, Blocker>, unplaced: seq<Rejection>, i: nat)
    requires i < |unplaced| && Grouped(byReason, unplaced[..i])
    ensures var reason := unplaced[i].reason;
            var b := if reason in byReason then byReason[reason] else Blocker(reason, 0, []);
            var examples := if |b.examples| < 3 then b.examples + [unplaced[i].podKey] else b.examples;
            Grouped(byReason[reason := Blocker(reason, b.pods + 1, examples)], unplaced[..i + 1])
  {
    hide BlockerFor, BlockingReasons;
    RejectionStep(unplaced, i);
    var reason := unplaced[i].reason;
    var b := if reason in byReason then byReason[reason] else Blocker(reason, 0, []);
    var examples := if |b.examples| < 3 then b.examples + [unplaced[i].podKey] else b.examples;
    var next := byReason[reason := Blocker(reason, b.pods + 1, examples)];
    forall r ensures BlockerFor(unplaced[..i + 1], r) == BlockerIn(next, r) {
      assert BlockerFor(unplaced[..i], r) == BlockerIn(byReason, r);
    }
  }

  lemma RejectionStep(unplaced: seq<Rejection>, i: nat)
    requires i < |unplaced|
    ensures forall r :: r in BlockingReasons(unplaced[..i + 1]) <==> r in BlockingReasons(unplaced[..i]) || r == unplaced[i].reason
    ensures forall r :: BlockerFor(unplaced[..i + 1], r)
                        == WithRejection(BlockerFor(unplaced[..i], r), r, unplaced[i])
  {
    var longer := unplaced[..i + 1];
    assert longer[..i] == unplaced[..i] && longer[i] == unplaced[i];
    var before, after := BlockingReasons(unplaced[..i]), BlockingReasons(longer);
    assert after == AddNew(before, [unplaced[i].reason]);
    forall r ensures r in after <==> r in before || r == unplaced[i].reason {
      assert r in [unplaced[i].reason] <==> r == unplaced[i].reason;
    }
    forall r ensures BlockerFor(longer, r) == WithRejection(BlockerFor(unplaced[..i], r), r, unplaced[i]) {
    }
  }

  /** Groups rejections by reason and ranks the groups, whatever order the map is walked in. */
  method RankBlockers(unplaced: seq<Rejection>) returns (out: seq<Blocker>)
    ensures out == SummarizeBlockers(unplaced)
  {
    var byReason := GroupRejections(unplaced);
    out := [];
    ghost var names: seq<string> := [];
    var todo := byReason.Keys;
    while todo != {}
      invariant todo <= byReason.Keys
      invariant Distinct(names) && forall r :: r in names <==> r in byReason && r !in todo
      invariant out == BlockersFor(unplaced, names)
    {
      var r :| r in todo;
      out := out + [byReason[r]];
      names := names + [r];
      todo := todo - {r};
    }
    BlockerRankUnique(unplaced, names);
    out := StableSort(out, BlockerBefore);
  }

  lemma {:induction false} BlockerNamesItsReason(unplaced: seq<Rejection>, reason: string)
    ensures BlockerFor(unplaced, reason).reason == reason
  {
    if unplaced == [] {
    } else {
      BlockerNamesItsReason(unplaced[..|unplaced| - 1], reason);
    }
  }

  /** The keys rejected for one reason, in the order of the rejections. */
  function RejectedFor(unplaced: seq<Rejection>, reason: string): seq<string> {
    if unplaced == [] then []
    else if unplaced[0].reason == reason then [unplaced[0].podKey] + RejectedFor(unplaced[1..], reason)
    else RejectedFor(unplaced[1..], reason)
  }

  lemma {:induction false} RejectedSnoc(unplaced: seq<Rejection>, r: Rejection, reason: string)
    ensures RejectedFor(unplaced + [r], reason) == RejectedFor(unplaced, reason) + if r.reason == reason then [r.podKey] else []
  {
    if unplaced == [] {
      assert [] + [r] == [r] && [r][1..] == [];
    } else {
      RejectedSnoc(unplaced[1..], r, reason);
      assert (unplaced + [r])[1..] == unplaced[1..] + [r];
    }
  }

  /** A blocker counts every rejection for its reason, and shows the first three. */
  lemma {:induction false} BlockerExactly(unplaced: seq<Rejection>, reason: string)
    ensures var all := RejectedFor(unplaced, reason);
            BlockerFor(unplaced, reason) == Blocker(reason, |all|, if |all| <= 3 then all else all[..3])
  {
    if unplaced == [] {
    } else {
      var n := |unplaced| - 1;
      assert unplaced == unplaced[..n] + [unplaced[n]];
      BlockerExactly(unplaced[..n], reason);
      RejectedSnoc(unplaced[..n], unplaced[n], reason);
      hide RejectedFor;
    }
  }

  /** Blockers are ranked by how many pods they reject, then by name. */
  lemma RankedByPods(unplaced: seq<Rejection>, i: nat, j: nat)
    requires i < j < |SummarizeBlockers(unplaced)|
    ensures var a, b := SummarizeBlockers(unplaced)[i], SummarizeBlockers(unplaced)[j];
            a.pods > b.pods || (a.pods == b.pods && !LexLess(b.reason, a.reason))
  {
    BlockerOrderIsStrictWeak();
    SortSorts(BlockersFor(unplaced, BlockingReasons(unplaced)), BlockerBefore);
    hide BlockersFor, LexLess;
    assert !BlockerBefore(SummarizeBlockers(unplaced)[j], SummarizeBlockers(unplaced)[i]);
  }

  lemma BlockerOrderIsStrictWeak()
    ensures StrictWeak(BlockerBefore)
  {
    LexIsStrictWeak();
  }

  lemma SameBlockers(unplaced: seq<Rejection>, names: seq<string>, others: seq<string>, x: Blocker)
    requires forall r :: r in names <==> r in others
    requires x in BlockersFor(unplaced, names)
    ensures x in BlockersFor(unplaced, others)
  {
    hide BlockerFor;
    var i :| 0 <= i < |names| && BlockersFor(unplaced, names)[i] == x;
    assert names[i] in others;
    var j :| 0 <= j < |others| && others[j] == names[i];
    assert BlockersFor(unplaced, others)[j] == x;
  }

  lemma BlockersSeparate(unplaced: seq<Rejection>, names: seq<string>, x: Blocker, y: Blocker)
    requires x in BlockersFor(unplaced, names) && y in BlockersFor(unplaced, names) && x != y
    ensures BlockerBefore(x, y) || BlockerBefore(y, x)
  {
    var a := BlockersFor(unplaced, names);
    var k :| 0 <= k < |a| && a[k] == x;
    var l :| 0 <= l < |a| && a[l] == y;
    BlockerNamesItsReason(unplaced, names[k]);
    BlockerNamesItsReason(unplaced, names[l]);
    LexTotal(x.reason, y.reason);
  }

  /** Ranking does not depend on the order the groups are collected in. */
  lemma BlockerRankUnique(unplaced: seq<Rejection>, names: seq<string>)
    requires Distinct(names) && forall r :: r in names <==> r in BlockingReasons(unplaced)
    ensures StableSort(BlockersFor(unplaced, names), BlockerBefore) == SummarizeBlockers(unplaced)
  {
    hide BlockerFor, BlockersFor, BlockingReasons, BlockerBefore, StrictWeak, StableSort;
    var others := BlockingReasons(unplaced);
    var a, b := BlockersFor(unplaced, names), BlockersFor(unplaced, others);
    DistinctBlockers(unplaced, names);
    DistinctBlockers(unplaced, others);
    forall x ensures x in a <==> x in b {
      if x in a {
        SameBlockers(unplaced, names, others, x);
      }
      if x in b {
        SameBlockers(unplaced, others, names, x);
      }
    }
    DistinctMultiset(a, b);
    BlockerOrderIsStrictWeak();
    SortSorts(a, BlockerBefore);
    SortSorts(b, BlockerBefore);
    SortKeepsElements(a, BlockerBefore);
    SortKeepsElements(b, BlockerBefore);
    var sa := StableSort(a, BlockerBefore);
    forall i, j | 0 <= i < |sa| && 0 <= j < |sa| && sa[i] != sa[j]
      ensures BlockerBefore(sa[i], sa[j]) || BlockerBefore(sa[j], sa[i])
    {
      BlockersSeparate(unplaced, names, sa[i], sa[j]);
    }
    SortedUnique(sa, StableSort(b, BlockerBefore), BlockerBefore);
  }

  lemma DistinctBlockers(unplaced: seq<Rejection>, names: seq<string>)
    requires Distinct(names)
    ensures Distinct(BlockersFor(unplaced, names))
  {
    forall i, j | 0 <= i < j < |names|
      ensures BlockersFor(unplaced, names)[i] != BlockersFor(unplaced, names)[j]
    {
      BlockerNamesItsReason(unplaced, names[i]);
      BlockerNamesItsReason(unplaced, names[j]);
    }
  }

  /** One pool's verdict, assigned step by step. */
  method AnalyzePool(name: string, nodes: seq<ModelNode>, byNode: PodsByNode, usage: UsageSet, cfg: Config)
    returns (verdict: PoolVerdict)
    ensures verdict == VerdictOf(name, PoolOf(nodes, byNode, usage, cfg), ReportedFidelity(usage))
  {
    var hosts := FindPinnedHosts(nodes, byNode);
    var sorted := SortedNodes(nodes, hosts);
    var toPlace, daemon, pinned := Accumulate(nodes, byNode, usage, cfg);
    var placeable, stranded := SplitPlaceable(sorted, hosts);
    var pool := Pool(placeable, stranded, |nodes|, |hosts|, toPlace, daemon, pinned, cfg);
    verdict := Conclude(name, pool, ReportedFidelity(usage));
  }

  /** Re-runs the simulation one node below the recommendation and ranks what stops it. */
  method ProbeBelow(pool: Pool, minimum: int) returns (blockers: seq<Blocker>, binding: Binding)
    ensures Obstacle(blockers, binding) == ObstacleBelow(pool, minimum)
  {
    hide FitNodes, SummarizeBlockers;
    blockers, binding := [], LowerBoundReason(pool.cfg);
    var probeCount := minimum - 1 - pool.stranded;
    if probeCount > |pool.placeable| {
      probeCount := |pool.placeable|;
    }
    if probeCount > 0 {
      var probe := RunFitNodes(pool, pool.placeable[..probeCount]);
      if probe.Indeterminate() {
        binding := UnmodelledBelow;
      } else if probe.unplaced != [] {
        blockers := RankBlockers(probe.unplaced);
        binding := if |blockers| > 0 then ReasonBinds(blockers[0].reason) else NothingBinds;
      }
    }
  }

  /** A predicate is named as binding exactly when the workload, fully modelled, does not
      fit one node lower; and then no predicate rejects more pods there. */
  lemma BindingMeans(pool: Pool, minimum: int)
    ensures var count := Min(minimum - 1 - pool.stranded, |pool.placeable|);
            var o := ObstacleBelow(pool, minimum);
            (o.binding.ReasonBinds? || o.blockers != [])
            <==> (count > 0 && (var f := FitNodes(pool, pool.placeable[..count]); !f.Indeterminate() && f.unplaced != []))
    ensures var count := Min(minimum - 1 - pool.stranded, |pool.placeable|);
            var o := ObstacleBelow(pool, minimum);
            o.binding.ReasonBinds? ==>
              var unplaced := FitNodes(pool, pool.placeable[..count]).unplaced;
              && o.blockers == SummarizeBlockers(unplaced) && o.blockers != [] && o.binding.reason == o.blockers[0].reason
              && forall reason :: BlockerFor(unplaced, reason).pods <= BlockerFor(unplaced, o.binding.reason).pods
    ensures var count := Min(minimum - 1 - pool.stranded, |pool.placeable|);
            var o := ObstacleBelow(pool, minimum);
            !o.binding.ReasonBinds? ==>
              o.binding == if count > 0 && FitNodes(pool, pool.placeable[..count]).Indeterminate() then UnmodelledBelow
                           else if pool.cfg.surviveNodeLoss then SurvivalBinds
                           else FloorBinds(if pool.cfg.floor > 0 then pool.cfg.floor else 2)
  {
    var count := ProbeCount(pool, minimum);
    if count > 0 {
      var unplaced := FitNodes(pool, pool.placeable[..count]).unplaced;
      hide FitNodes, BlockerFor, SummarizeBlockers;
      if unplaced != [] {
        TopBlocker(unplaced);
      }
    }
  }

  /** The first ranked blocker rejects at least as many pods as any other predicate. */
  lemma TopBlocker(unplaced: seq<Rejection>)
    requires unplaced != []
    ensures SummarizeBlockers(unplaced) != []
    ensures var top := SummarizeBlockers(unplaced)[0].reason;
            forall reason :: BlockerFor(unplaced, reason).pods <= BlockerFor(unplaced, top).pods
  {
    var names := BlockingReasons(unplaced);
    var all := BlockersFor(unplaced, names);
    var ranked := SummarizeBlockers(unplaced);
    assert unplaced[0].reason in names;
    BlockerOrderIsStrictWeak();
    SortSorts(all, BlockerBefore);
    SortKeepsElements(all, BlockerBefore);
    assert ranked[0] in all;
    var t :| 0 <= t < |all| && all[t] == ranked[0];
    BlockerNamesItsReason(unplaced, names[t]);
    hide BlockerFor, SummarizeBlockers, BlockingReasons;
    forall reason ensures BlockerFor(unplaced, reason).pods <= BlockerFor(unplaced, ranked[0].reason).pods {
      if reason in names {
        var k :| 0 <= k < |names| && names[k] == reason;
        assert all[k] in ranked;
        var m :| 0 <= m < |ranked| && ranked[m] == all[k];
        assert m > 0 ==> !BlockerBefore(ranked[m], ranked[0]);
      } else {
        UnnamedBlocksNothing(unplaced, reason);
      }
    }
  }

  lemma {:induction false} UnnamedBlocksNothing(unplaced: seq<Rejection>, reason: string)
    requires reason !in BlockingReasons(unplaced)
    ensures BlockerFor(unplaced, reason).pods == 0
  {
    if unplaced == [] {
    } else {
      UnnamedBlocksNothing(unplaced[..|unplaced| - 1], reason);
    }
  }

  method Conclude(name: string, pool: Pool, fidelity: string) returns (verdict: PoolVerdict)
    ensures verdict == VerdictOf(name, pool, fidelity)
  {
    hide SearchFrom, ObstacleBelow;
    verdict := PoolVerdict(name, pool.size, 0, 0, IndeterminateStatus, 0, pool.cfg.Floor(), [], NothingBinds, [],
                           pool.pinnedHosts, fidelity, false);
    var search := RunSearch(pool);
    if search.Unknown? {
      return verdict.(indeterminateReasons := search.reasons, binding := UnmodelledBinds(search.reasons));
    }
    var derived := if search.Found? then search.n + pool.stranded else pool.size;
    var minimum: int := derived;
    if pool.cfg.Floor() > minimum {
      minimum := pool.cfg.Floor();
    }
    if minimum > pool.size {
      minimum := pool.size;
    }
    verdict := verdict.(derivedMinimum := derived, minimumSafeNodes := minimum, removableNodes := pool.size - minimum);
    if verdict.removableNodes > 0 {
      verdict := verdict.(status := Fits);
    } else if derived < pool.size {
      verdict := verdict.(status := AtFloor, binding := FloorBinds(pool.cfg.Floor()));
    } else {
      verdict := verdict.(status := AtMinimum);
    }
    if verdict.status != AtFloor {
      var blockers, binding := ProbeBelow(pool, minimum);
      verdict := verdict.(blockers := blockers, binding := binding);
    }
    verdict := verdict.(actionable := Actionable(fidelity));
  }

  // ----- the whole cluster -----

  datatype Report = Report(
    pools: seq<PoolVerdict>, currentNodes: nat, minimumSafeNodes: int, removableNodes: int,
    usageFidelity: string, surviveNodeLoss: bool, actionable: bool)

  function PoolNodes(nodes: seq<ModelNode>, name: string): seq<ModelNode> {
    if nodes == [] then []
    else
      var last := nodes[|nodes| - 1];
      PoolNodes(nodes[..|nodes| - 1], name) + if last.pool == name then [last] else []
  }

  function PoolNames(nodes: seq<ModelNode>): (r: seq<string>)
    ensures Distinct(r)
    ensures forall i :: 0 <= i < |nodes| ==> nodes[i].pool in r
  {
    if nodes == [] then [] else AddNew(PoolNames(nodes[..|nodes| - 1]), [nodes[|nodes| - 1].pool])
  }

  /** Active pods that run somewhere, by node name. */
  function GroupPods(pods: seq<ModelPod>): PodsByNode {
    if pods == [] then map[]
    else
      var prev, last := GroupPods(pods[..|pods| - 1]), pods[|pods| - 1];
      if !last.Active() || last.nodeName == "" then prev
      else prev[last.nodeName := PodsOn(prev, last.nodeName) + [last]]
  }

  ghost function VerdictFor(name: string, nodes: seq<ModelNode>, pods: seq<ModelPod>, usage: UsageSet, cfg: Config)
    : PoolVerdict
  {
    VerdictOf(name, PoolOf(PoolNodes(nodes, name), GroupPods(pods), usage, cfg), ReportedFidelity(usage))
  }

  ghost function Verdicts(names: seq<string>, nodes: seq<ModelNode>, pods: seq<ModelPod>, usage: UsageSet, cfg: Config)
    : (r: seq<PoolVerdict>)
    ensures |r| == |names|
    ensures forall i :: 0 <= i < |names| ==> r[i] == VerdictFor(names[i], nodes, pods, usage, cfg)
  {
    seq(|names|, i requires 0 <= i < |names| => VerdictFor(names[i], nodes, pods, usage, cfg))
  }

  function SortedPoolNames(nodes: seq<ModelNode>): seq<string> {
    StableSort(PoolNames(nodes), LexLess)
  }

  method GroupNodes(nodes: seq<ModelNode>) returns (byPool: map<string, seq<ModelNode>>)
    ensures forall name :: name in byPool <==> name in PoolNames(nodes)
    ensures forall name :: name in byPool ==> byPool[name] == PoolNodes(nodes, name)
  {
    byPool := map[];
    assert PoolNames([]) == [] && forall name :: PoolNodes([], name) == [];
    hide PoolNames, PoolNodes;
    for i := 0 to |nodes|
      invariant forall name :: name in byPool <==> name in PoolNames(nodes[..i])
      invariant forall name :: PoolNodes(nodes[..i], name) == if name in byPool then byPool[name] else []
    {
      PoolStep(nodes, i);
      var p := nodes[i].pool;
      byPool := byPool[p := (if p in byPool then byPool[p] else []) + [nodes[i]]];
    }
    assert nodes[..|nodes|] == nodes;
  }

  lemma PoolStep(nodes: seq<ModelNode>, i: nat)
    requires i < |nodes|
    ensures forall name :: name in PoolNames(nodes[..i + 1]) <==> name in PoolNames(nodes[..i]) || name == nodes[i].pool
    ensures forall name :: PoolNodes(nodes[..i + 1], name)
                           == PoolNodes(nodes[..i], name) + if nodes[i].pool == name then [nodes[i]] else []
  {
    assert nodes[..i + 1][..i] == nodes[..i];
  }

  method GroupActivePods(pods: seq<ModelPod>) returns (byNode: PodsByNode)
    ensures byNode == GroupPods(pods)
  {
    byNode := map[];
    for i := 0 to |pods|
      invariant byNode == GroupPods(pods[..i])
    {
      assert pods[..i + 1][..i] == pods[..i];
      var pod := pods[i];
      if !pod.Active() || pod.nodeName == "" {
        continue;
      }
      byNode := byNode[pod.nodeName := PodsOn(byNode, pod.nodeName) + [pod]];
    }
    assert pods[..|pods|] == pods;
  }

  /** The pool names in sorted order, whatever order the map is walked in. */
  method ListPools(byPool: map<string, seq<ModelNode>>, nodes: seq<ModelNode>) returns (names: seq<string>)
    requires forall name :: name in byPool <==> name in PoolNames(nodes)
    ensures names == SortedPoolNames(nodes)
  {
    names := [];
    var todo := byPool.Keys;
    while todo != {}
      invariant todo <= byPool.Keys
      invariant Distinct(names) && forall n :: n in names <==> n in byPool && n !in todo
    {
      var n :| n in todo;
      names := names + [n];
      todo := todo - {n};
    }
    SortedNamesUnique(names, PoolNames(nodes));
    names := StableSort(names, LexLess);
  }

  /** The pools analysed are those some node is in, each once, in name order. */
  lemma PoolNamesExactly(nodes: seq<ModelNode>)
    ensures forall name :: name in SortedPoolNames(nodes) <==> exists i :: 0 <= i < |nodes| && nodes[i].pool == name
    ensures forall i, j :: 0 <= i < j < |SortedPoolNames(nodes)| ==> LexLess(SortedPoolNames(nodes)[i], SortedPoolNames(nodes)[j])
  {
    var names, sorted := PoolNames(nodes), SortedPoolNames(nodes);
    OnlyPools(nodes);
    SortKeepsElements(names, LexLess);
    LexIsStrictWeak();
    SortSorts(names, LexLess);
    hide PoolNames, SortedPoolNames, StrictWeak;
    forall i, j | 0 <= i < j < |sorted| ensures LexLess(sorted[i], sorted[j]) {
      assert !LexLess(sorted[j], sorted[i]);
      NoRepeat(names, sorted, i, j);
      LexTotal(sorted[i], sorted[j]);
    }
  }

  lemma {:induction false} OnlyPools(nodes: seq<ModelNode>)
    ensures forall name :: name in PoolNames(nodes) <==> exists i :: 0 <= i < |nodes| && nodes[i].pool == name
  {
    if nodes == [] {
    } else {
      var n := |nodes| - 1;
      OnlyPools(nodes[..n]);
      assert forall i :: 0 <= i < n ==> nodes[..n][i] == nodes[i];
    }
  }

  lemma NoRepeat(names: seq<string>, sorted: seq<string>, i: nat, j: nat)
    requires Distinct(names) && multiset(sorted) == multiset(names) && i < j < |sorted|
    ensures sorted[i] != sorted[j]
  {
    DistinctByReorder(names, sorted, (s: string) => s);
  }

  /** Analyses every pool, in name order, and adds the verdicts up. */
  method Analyze(nodes: seq<ModelNode>, pods: seq<ModelPod>, usage: UsageSet, cfg: Config) returns (report: Report)
    ensures report.pools == Verdicts(SortedPoolNames(nodes), nodes, pods, usage, cfg)
    ensures report.currentNodes == |nodes|
    ensures report.currentNodes == report.minimumSafeNodes + report.removableNodes
    ensures report.removableNodes == SumRemovable(report.pools)
    ensures report.actionable <==> forall v :: v in report.pools ==> v.actionable
    ensures report.surviveNodeLoss == cfg.surviveNodeLoss && report.usageFidelity == ReportedFidelity(usage)
  {
    var byPool := GroupNodes(nodes);
    var byNode := GroupActivePods(pods);
    var names := ListPools(byPool, nodes);
    SortKeepsElements(PoolNames(nodes), LexLess);
    report := AddPools(names, byPool, byNode, nodes, pods, usage, cfg);
    var extra := CountUnknown(report.pools);
    report := report.(minimumSafeNodes := report.minimumSafeNodes + extra);
    SumsBalance(names, nodes, pods, usage, cfg);
    PoolsPartition(names, nodes, pods, usage, cfg);
  }

  ghost predicate AddsUp(report: Report) {
    && report.currentNodes == SumCurrent(report.pools)
    && report.minimumSafeNodes == SumMinimum(report.pools)
    && report.removableNodes == SumRemovable(report.pools)
    && (report.actionable <==> forall v :: v in report.pools ==> v.actionable)
  }

  method AddPools(names: seq<string>, byPool: map<string, seq<ModelNode>>, byNode: PodsByNode,
                  nodes: seq<ModelNode>, pods: seq<ModelPod>, usage: UsageSet, cfg: Config) returns (report: Report)
    requires byNode == GroupPods(pods)
    requires forall name :: name in names ==> name in byPool && byPool[name] == PoolNodes(nodes, name)
    ensures report.pools == Verdicts(names, nodes, pods, usage, cfg)
    ensures AddsUp(report)
    ensures report.surviveNodeLoss == cfg.surviveNodeLoss && report.usageFidelity == ReportedFidelity(usage)
  {
    hide VerdictOf;
    report := Report([], 0, 0, 0, ReportedFidelity(usage), cfg.surviveNodeLoss, true);
    for i := 0 to |names|
      invariant report.pools == Verdicts(names[..i], nodes, pods, usage, cfg)
      invariant report.usageFidelity == ReportedFidelity(usage) && report.surviveNodeLoss == cfg.surviveNodeLoss
      invariant AddsUp(report)
    {
      var verdict := AnalyzePool(names[i], byPool[names[i]], byNode, usage, cfg);
      VerdictsAppend(names, i, nodes, pods, usage, cfg);
      report := AddVerdict(report, verdict);
    }
    assert names[..|names|] == names;
  }

  lemma VerdictsAppend(names: seq<string>, i: nat, nodes: seq<ModelNode>, pods: seq<ModelPod>, usage: UsageSet, cfg: Config)
    requires i < |names|
    ensures Verdicts(names[..i + 1], nodes, pods, usage, cfg)
            == Verdicts(names[..i], nodes, pods, usage, cfg) + [VerdictFor(names[i], nodes, pods, usage, cfg)]
  {
    hide *;
  }

  method AddVerdict(report: Report, verdict: PoolVerdict) returns (r: Report)
    requires AddsUp(report)
    ensures AddsUp(r) && r.pools == report.pools + [verdict]
    ensures r.surviveNodeLoss == report.surviveNodeLoss && r.usageFidelity == report.usageFidelity
  {
    SumsAppendVerdict(report.pools, verdict);
    r := report.(pools := report.pools + [verdict],
      currentNodes := report.currentNodes + verdict.currentNodes,
      minimumSafeNodes := report.minimumSafeNodes + verdict.minimumSafeNodes,
      removableNodes := report.removableNodes + verdict.removableNodes,
      actionable := report.actionable && verdict.actionable);
  }

  /** An indeterminate pool contributes its current count: it cannot be claimed to shrink. */
  method CountUnknown(pools: seq<PoolVerdict>) returns (extra: nat)
    ensures extra == SumUnknown(pools)
  {
    extra := 0;
    for i := 0 to |pools|
      invariant extra == SumUnknown(pools[..i])
    {
      assert pools[..i + 1][..i] == pools[..i];
      if pools[i].status == IndeterminateStatus {
        extra := extra + pools[i].currentNodes;
      }
    }
    assert pools[..|pools|] == pools;
  }

  function SumCurrent(pools: seq<PoolVerdict>): nat {
    if pools == [] then 0 else SumCurrent(pools[..|pools| - 1]) + pools[|pools| - 1].currentNodes
  }

  function SumMinimum(pools: seq<PoolVerdict>): int {
    if pools == [] then 0 else SumMinimum(pools[..|pools| - 1]) + pools[|pools| - 1].minimumSafeNodes
  }

  function SumRemovable(pools: seq<PoolVerdict>): int {
    if pools == [] then 0 else SumRemovable(pools[..|pools| - 1]) + pools[|pools| - 1].removableNodes
  }

  /** The current size of every indeterminate pool. */
  function SumUnknown(pools: seq<PoolVerdict>): nat {
    if pools == [] then 0
    else
      var last := pools[|pools| - 1];
      SumUnknown(pools[..|pools| - 1]) + if last.status == IndeterminateStatus then last.currentNodes else 0
  }

  lemma SumsAppendVerdict(pools: seq<PoolVerdict>, v: PoolVerdict)
    ensures SumCurrent(pools + [v]) == SumCurrent(pools) + v.currentNodes
    ensures SumMinimum(pools + [v]) == SumMinimum(pools) + v.minimumSafeNodes
    ensures SumRemovable(pools + [v]) == SumRemovable(pools) + v.removableNodes
  {
    assert (pools + [v])[..|pools|] == pools;
  }

  /** Current = minimum + removable, the pool itself counting as the minimum when nothing
      is known. */
  ghost predicate Balanced(v: PoolVerdict) {
    v.currentNodes == v.minimumSafeNodes + v.removableNodes
                      + if v.status == IndeterminateStatus then v.currentNodes else 0
  }

  lemma VerdictBalanced(name: string, pool: Pool, fidelity: string)
    ensures Balanced(VerdictOf(name, pool, fidelity)) && VerdictOf(name, pool, fidelity).currentNodes == pool.size
  {
    hide SearchFrom, ObstacleBelow;
  }

  lemma VerdictForBalanced(name: string, nodes: seq<ModelNode>, pods: seq<ModelPod>, usage: UsageSet, cfg: Config)
    ensures var v := VerdictFor(name, nodes, pods, usage, cfg);
            Balanced(v) && v.currentNodes == |PoolNodes(nodes, name)|
  {
    hide VerdictOf, Balanced;
    VerdictBalanced(name, PoolOf(PoolNodes(nodes, name), GroupPods(pods), usage, cfg), ReportedFidelity(usage));
  }

  lemma {:induction false} BalancedSums(vs: seq<PoolVerdict>)
    requires forall v :: v in vs ==> Balanced(v)
    ensures SumCurrent(vs) == SumMinimum(vs) + SumUnknown(vs) + SumRemovable(vs)
  {
    if vs == [] {
    } else {
      BalancedSums(vs[..|vs| - 1]);
      assert vs[|vs| - 1] in vs;
    }
  }

  lemma SumsBalance(names: seq<string>, nodes: seq<ModelNode>, pods: seq<ModelPod>, usage: UsageSet, cfg: Config)
    ensures var vs := Verdicts(names, nodes, pods, usage, cfg);
            SumCurrent(vs) == SumMinimum(vs) + SumUnknown(vs) + SumRemovable(vs)
  {
    hide *;
    var vs := Verdicts(names, nodes, pods, usage, cfg);
    forall v | v in vs ensures Balanced(v) {
      var i :| 0 <= i < |vs| && vs[i] == v;
      VerdictForBalanced(names[i], nodes, pods, usage, cfg);
    }
    BalancedSums(vs);
  }

  function SumSizes(names: seq<string>, nodes: seq<ModelNode>): nat {
    if names == [] then 0 else SumSizes(names[..|names| - 1], nodes) + |PoolNodes(nodes, names[|names| - 1])|
  }

  lemma {:induction false} OneMoreNode(names: seq<string>, nodes: seq<ModelNode>)
    requires Distinct(names) && nodes != []
    ensures SumSizes(names, nodes) == SumSizes(names, nodes[..|nodes| - 1])
              + if nodes[|nodes| - 1].pool in names then 1 else 0
  {
    if names == [] {
    } else {
      var n := |names| - 1;
      OneMoreNode(names[..n], nodes);
      assert names == names[..n] + [names[n]];
    }
  }

  /** The pools partition the nodes. */
  lemma {:induction false} SizesAddUp(names: seq<string>, nodes: seq<ModelNode>)
    requires Distinct(names) && forall i :: 0 <= i < |nodes| ==> nodes[i].pool in names
    ensures SumSizes(names, nodes) == |nodes|
  {
    if nodes == [] {
      NoNodesNoSizes(names);
    } else {
      SizesAddUp(names, nodes[..|nodes| - 1]);
      OneMoreNode(names, nodes);
    }
  }

  lemma {:induction false} NoNodesNoSizes(names: seq<string>)
    ensures SumSizes(names, []) == 0
  {
    if names == [] {
    } else {
      NoNodesNoSizes(names[..|names| - 1]);
    }
  }

  lemma {:induction false} CurrentIsSizes(vs: seq<PoolVerdict>, names: seq<string>, nodes: seq<ModelNode>)
    requires |vs| == |names| && forall i :: 0 <= i < |vs| ==> vs[i].currentNodes == |PoolNodes(nodes, names[i])|
    ensures SumCurrent(vs) == SumSizes(names, nodes)
  {
    if names == [] {
    } else {
      CurrentIsSizes(vs[..|vs| - 1], names[..|names| - 1], nodes);
    }
  }

  /** Every node is counted in exactly one pool. */
  lemma PoolsPartition(names: seq<string>, nodes: seq<ModelNode>, pods: seq<ModelPod>, usage: UsageSet, cfg: Config)
    requires names == SortedPoolNames(nodes)
    ensures SumCurrent(Verdicts(names, nodes, pods, usage, cfg)) == |nodes|
  {
    SortKeepsElements(PoolNames(nodes), LexLess);
    forall i, j | 0 <= i < j < |names| ensures names[i] != names[j] {
      DistinctCount(PoolNames(nodes), names[i]);
      if names[i] == names[j] {
        RepeatsCounted(names, i, j);
        assert false;
      }
    }
    SizesAddUp(names, nodes);
    var vs := Verdicts(names, nodes, pods, usage, cfg);
    hide *;
    forall i | 0 <= i < |vs| ensures vs[i].currentNodes == |PoolNodes(nodes, names[i])| {
      VerdictForBalanced(names[i], nodes, pods, usage, cfg);
    }
    CurrentIsSizes(vs, names, nodes);
  }
}
