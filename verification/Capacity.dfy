/** The minimum-node verdict of one pool as a function of the snapshot. */
module Capacity {
  import opened Basics
  import opened Constraints
  import opened Sorting
  import opened Packer
  import opened Usage

  datatype ModelNode = ModelNode(
    name: string, pool: string, labels: map<string, string>, taints: seq<Taint>,
    unschedulable: bool, ready: bool,
    allocCPU: int, allocMem: int, allocExt: map<string, int>, maxPods: int)
  {
    predicate Schedulable() { ready && !unschedulable }
  }

  /** The kind of a pod's controlling owner, as far as it matters: none, a DaemonSet, the
      node itself (a mirror pod), or any other controller. */
  datatype Owner = NoOwner | DaemonSet | MirrorOf | Controller(kind: string)

  datatype ModelPod = ModelPod(
    namespace: string, name: string, nodeName: string, phase: string, labels: map<string, string>,
    owner: Owner, reqCPU: int, reqMem: int, reqExt: map<string, int>,
    nodeSelector: map<string, string>, tolerations: seq<Toleration>, affinity: Option<Affinity>,
    spread: seq<SpreadConstraint>, unmodelled: seq<string>)
  {
    predicate Active() { phase != "Succeeded" && phase != "Failed" }

    predicate Daemon() { owner.DaemonSet? }

    /** Evicting the pod would make it run elsewhere rather than vanish. */
    predicate Relocatable() { owner.Controller? }

    /** Bare and mirror pods: never placed, but they occupy their host. */
    predicate Pinned() { !Relocatable() && !Daemon() }
  }

  datatype Config = Config(floor: int, surviveNodeLoss: bool, headroomPercent: int, usageHeadroomPercent: int)
  {
    function Floor(): (r: int) ensures r > 0 { if floor > 0 then floor else 2 }
    function Headroom(): (r: int) ensures r > 0 { if headroomPercent > 0 then headroomPercent else 10 }
    function UsageHeadroom(): (r: int) ensures r > 0 {
      if usageHeadroomPercent > 0 then usageHeadroomPercent else 20
    }
  }

  datatype Footprint = Footprint(cpu: int, mem: int, pods: int)
  {
    function Plus(f: Footprint): Footprint { Footprint(cpu + f.cpu, mem + f.mem, pods + f.pods) }
    function Join(f: Footprint): Footprint { Footprint(Max(cpu, f.cpu), Max(mem, f.mem), Max(pods, f.pods)) }
  }

  const NOTHING := Footprint(0, 0, 0)

  function FootprintOf(m: map<string, Footprint>, name: string): Footprint {
    if name in m then m[name] else NOTHING
  }

  type PodsByNode = map<string, seq<ModelPod>>

  function PodsOn(byNode: PodsByNode, name: string): seq<ModelPod> {
    if name in byNode then byNode[name] else []
  }

  // ----- what a pool's pods cost -----

  function PodKey(p: ModelPod): string {
    p.namespace + "/" + p.name
  }

  function Sized(p: ModelPod, usage: UsageSet, cfg: Config): (int, int) {
    Effective(p.reqCPU, p.reqMem, usage.Get(PodKey(p)), usage.fidelity, cfg.UsageHeadroom())
  }

  /** A pod as a placement unit, sized by the more demanding of request and usage. */
  function SimPod(p: ModelPod, usage: UsageSet, cfg: Config): Pod {
    var size := Sized(p, usage, cfg);
    Pod(p.namespace, p.name, p.labels, size.0, size.1, p.reqExt,
        p.nodeSelector, p.tolerations, p.affinity, p.spread, p.unmodelled)
  }

  function DaemonOn(pods: seq<ModelPod>): Footprint {
    if pods == [] then NOTHING
    else
      var last := pods[|pods| - 1];
      DaemonOn(pods[..|pods| - 1]).Plus(if last.Daemon() then Footprint(last.reqCPU, last.reqMem, 1) else NOTHING)
  }

  function PinnedCost(p: ModelPod, usage: UsageSet, cfg: Config): Footprint {
    Footprint(Sized(p, usage, cfg).0, Sized(p, usage, cfg).1, 1)
  }

  function AddPinned(m: map<string, Footprint>, name: string, pods: seq<ModelPod>, usage: UsageSet, cfg: Config)
    : map<string, Footprint>
  {
    if pods == [] then m
    else
      var prev := AddPinned(m, name, pods[..|pods| - 1], usage, cfg);
      var last := pods[|pods| - 1];
      if last.Pinned() then prev[name := FootprintOf(prev, name).Plus(PinnedCost(last, usage, cfg))] else prev
  }

  function MovableOn(pods: seq<ModelPod>): seq<ModelPod> {
    if pods == [] then []
    else
      var last := pods[|pods| - 1];
      MovableOn(pods[..|pods| - 1]) + if last.Relocatable() then [last] else []
  }

  /** The worst DaemonSet footprint of any node: every node will get it eventually. */
  function DaemonMax(nodes: seq<ModelNode>, byNode: PodsByNode): Footprint {
    if nodes == [] then NOTHING
    else DaemonMax(nodes[..|nodes| - 1], byNode).Join(DaemonOn(PodsOn(byNode, nodes[|nodes| - 1].name)))
  }

  /** What each host's unevictable pods occupy. */
  function PinnedByHost(nodes: seq<ModelNode>, byNode: PodsByNode, usage: UsageSet, cfg: Config): map<string, Footprint> {
    if nodes == [] then map[]
    else
      var name := nodes[|nodes| - 1].name;
      AddPinned(PinnedByHost(nodes[..|nodes| - 1], byNode, usage, cfg), name, PodsOn(byNode, name), usage, cfg)
  }

  /** The relocatable pods of the pool, node by node. */
  function Movable(nodes: seq<ModelNode>, byNode: PodsByNode): seq<ModelPod> {
    if nodes == [] then []
    else Movable(nodes[..|nodes| - 1], byNode) + MovableOn(PodsOn(byNode, nodes[|nodes| - 1].name))
  }

  function SimPods(pods: seq<ModelPod>, usage: UsageSet, cfg: Config): (r: seq<Pod>)
    ensures |r| == |pods|
    ensures forall i :: 0 <= i < |pods| ==> r[i] == SimPod(pods[i], usage, cfg)
  {
    seq(|pods|, i requires 0 <= i < |pods| => SimPod(pods[i], usage, cfg))
  }

  // ----- which nodes the search works over -----

  predicate HostsPinned(pods: seq<ModelPod>) {
    exists i | 0 <= i < |pods| :: pods[i].Pinned()
  }

  function PinnedHosts(nodes: seq<ModelNode>, byNode: PodsByNode): set<string> {
    set i | 0 <= i < |nodes| && HostsPinned(PodsOn(byNode, nodes[i].name)) :: nodes[i].name
  }

  /** Pinned hosts first, then most memory, then most CPU, then the name. */
  predicate NodeBefore(hosts: set<string>, a: ModelNode, b: ModelNode) {
    if (a.name in hosts) != (b.name in hosts) then a.name in hosts
    else if a.allocMem != b.allocMem then a.allocMem > b.allocMem
    else if a.allocCPU != b.allocCPU then a.allocCPU > b.allocCPU
    else LexLess(a.name, b.name)
  }

  function NodeOrder(hosts: set<string>): (ModelNode, ModelNode) -> bool {
    (a, b) => NodeBefore(hosts, a, b)
  }

  function SortedNodes(nodes: seq<ModelNode>, hosts: set<string>): seq<ModelNode> {
    StableSort(nodes, NodeOrder(hosts))
  }

  function PlaceableOf(nodes: seq<ModelNode>): seq<ModelNode> {
    if nodes == [] then []
    else
      var last := nodes[|nodes| - 1];
      PlaceableOf(nodes[..|nodes| - 1]) + if last.Schedulable() then [last] else []
  }

  /** Unusable nodes that host something unevictable. */
  function StrandedOf(nodes: seq<ModelNode>, hosts: set<string>): nat {
    if nodes == [] then 0
    else
      var last := nodes[|nodes| - 1];
      StrandedOf(nodes[..|nodes| - 1], hosts) + if !last.Schedulable() && last.name in hosts then 1 else 0
  }

  // ----- the search -----

  /** Everything the search over one pool needs. */
  datatype Pool = Pool(
    placeable: seq<ModelNode>, stranded: nat, size: nat, pinnedHosts: nat,
    toPlace: seq<Pod>, daemon: Footprint, pinned: map<string, Footprint>, cfg: Config)

  function PoolOf(nodes: seq<ModelNode>, byNode: PodsByNode, usage: UsageSet, cfg: Config): Pool {
    var hosts := PinnedHosts(nodes, byNode);
    var sorted := SortedNodes(nodes, hosts);
    Pool(PlaceableOf(sorted), StrandedOf(sorted, hosts), |nodes|, |hosts|,
         SimPods(Movable(nodes, byNode), usage, cfg),
         DaemonMax(nodes, byNode), PinnedByHost(nodes, byNode, usage, cfg), cfg)
  }

  /** Holds back a percentage; out-of-range percentages hold back nothing. */
  function Withhold(value: int, percent: int): int {
    if percent <= 0 || percent >= 100 then value else GoDiv(value * (100 - percent), 100)
  }

  function SimNode(pool: Pool, n: ModelNode): Node {
    var pinned := FootprintOf(pool.pinned, n.name);
    Node(n.name, n.labels, n.taints,
         Withhold(n.allocCPU, pool.cfg.Headroom()), Withhold(n.allocMem, pool.cfg.Headroom()), n.allocExt,
         n.maxPods,
         pool.daemon.cpu + pinned.cpu, pool.daemon.mem + pinned.mem, map[], pool.daemon.pods + pinned.pods)
  }

  function SimNodes(pool: Pool, retained: seq<ModelNode>): (r: seq<Node>)
    ensures |r| == |retained|
    ensures forall i :: 0 <= i < |retained| ==> r[i] == SimNode(pool, retained[i])
  {
    seq(|retained|, i requires 0 <= i < |retained| => SimNode(pool, retained[i]))
  }

  ghost function FitNodes(pool: Pool, retained: seq<ModelNode>): Placement {
    Fit(SimNodes(pool, retained), pool.toPlace)
  }

  predicate Bigger(a: ModelNode, b: ModelNode) {
    a.allocMem > b.allocMem || (a.allocMem == b.allocMem && a.allocCPU > b.allocCPU)
  }

  /** The first node than which none is bigger. */
  function WorstIndex(retained: seq<ModelNode>): (w: nat)
    requires retained != []
    ensures w < |retained|
    ensures forall j :: 0 <= j < |retained| ==> !Bigger(retained[j], retained[w])
    ensures forall j :: 0 <= j < w ==> Bigger(retained[w], retained[j])
  {
    var n := |retained| - 1;
    if n == 0 then 0
    else
      var w := WorstIndex(retained[..n]);
      assert forall j :: 0 <= j < n ==> retained[j] == retained[..n][j];
      if Bigger(retained[n], retained[w]) then n else w
  }

  function WithoutWorst(retained: seq<ModelNode>): seq<ModelNode> {
    if |retained| <= 1 then [] else RemoveAt(retained, WorstIndex(retained))
  }

  /** The two-part gate on keeping the first `n` placeable nodes. */
  ghost predicate Gate(pool: Pool, n: nat)
    requires n <= |pool.placeable|
  {
    && FitNodes(pool, pool.placeable[..n]).unplaced == []
    && (pool.cfg.surviveNodeLoss ==> FitNodes(pool, WithoutWorst(pool.placeable[..n])).unplaced == [])
  }

  datatype Search = Found(n: nat) | Exhausted | Unknown(reasons: seq<string>)

  /** The answer at `n` nodes, or None when one more node must be tried. */
  ghost function AnswerAt(pool: Pool, n: nat): Option<Search>
    requires n <= |pool.placeable|
  {
    var f := FitNodes(pool, pool.placeable[..n]);
    var survivor := FitNodes(pool, WithoutWorst(pool.placeable[..n]));
    if f.Indeterminate() then Some(Unknown(f.indeterminateReasons))
    else if f.unplaced != [] then None
    else if pool.cfg.surviveNodeLoss && survivor.Indeterminate() then Some(Unknown(survivor.indeterminateReasons))
    else if pool.cfg.surviveNodeLoss && survivor.unplaced != [] then None
    else Some(Found(n))
  }

  ghost function SearchFrom(pool: Pool, n: nat): Search
    requires n >= 1
    decreases |pool.placeable| + 1 - n
  {
    if n > |pool.placeable| then Exhausted
    else
      match AnswerAt(pool, n)
      case Some(answer) => answer
      case None => SearchFrom(pool, n + 1)
  }

  // ----- the verdict -----

  datatype Status = Fits | AtMinimum | AtFloor | IndeterminateStatus

  datatype Blocker = Blocker(reason: string, pods: nat, examples: seq<string>)

  /** What the verdict names as holding the pool at its size. */
  datatype Binding =
    | NothingBinds
    | UnmodelledBinds(reasons: seq<string>)  // why the pool is indeterminate
    | UnmodelledBelow  // an unmodelled constraint one node lower
    | FloorBinds(floor: int)
    | SurvivalBinds
    | ReasonBinds(reason: string)  // the predicate that rejects most pods one node lower

  datatype PoolVerdict = PoolVerdict(
    pool: string, currentNodes: nat, minimumSafeNodes: int, removableNodes: int, status: Status,
    derivedMinimum: nat, configuredFloor: int, blockers: seq<Blocker>, binding: Binding,
    indeterminateReasons: seq<string>, immovableNodes: nat, usageFidelity: string, actionable: bool)

  /** The rejections naming one reason: how many, and the first three pods. */
  function BlockerFor(unplaced: seq<Rejection>, reason: string): Blocker {
    if unplaced == [] then Blocker(reason, 0, [])
    else WithRejection(BlockerFor(unplaced[..|unplaced| - 1], reason), reason, unplaced[|unplaced| - 1])
  }

  function WithRejection(b: Blocker, reason: string, rejection: Rejection): Blocker {
    if rejection.reason != reason then b
    else Blocker(reason, b.pods + 1, if |b.examples| < 3 then b.examples + [rejection.podKey] else b.examples)
  }

  function BlockingReasons(unplaced: seq<Rejection>): (r: seq<string>)
    ensures Distinct(r)
    ensures forall i :: 0 <= i < |unplaced| ==> unplaced[i].reason in r
  {
    if unplaced == [] then []
    else AddNew(BlockingReasons(unplaced[..|unplaced| - 1]), [unplaced[|unplaced| - 1].reason])
  }

  /** Most-blocking first, then the reason's name. */
  predicate BlockerBefore(a: Blocker, b: Blocker) {
    if a.pods != b.pods then a.pods > b.pods else LexLess(a.reason, b.reason)
  }

  function BlockersFor(unplaced: seq<Rejection>, reasons: seq<string>): (r: seq<Blocker>)
    ensures |r| == |reasons|
    ensures forall i :: 0 <= i < |reasons| ==> r[i] == BlockerFor(unplaced, reasons[i])
  {
    seq(|reasons|, i requires 0 <= i < |reasons| => BlockerFor(unplaced, reasons[i]))
  }

  function SummarizeBlockers(unplaced: seq<Rejection>): seq<Blocker> {
    StableSort(BlockersFor(unplaced, BlockingReasons(unplaced)), BlockerBefore)
  }

  /** What holds a pool whose workload would fit into fewer nodes. */
  function LowerBoundReason(cfg: Config): Binding {
    if cfg.surviveNodeLoss then SurvivalBinds else FloorBinds(cfg.Floor())
  }

  datatype Obstacle = Obstacle(blockers: seq<Blocker>, binding: Binding)

  /** How many schedulable nodes are left one node below the recommendation. */
  function ProbeCount(pool: Pool, minimumSafe: int): int {
    Min(minimumSafe - 1 - pool.stranded, |pool.placeable|)
  }

  /** What stops a pool that is not merely held by its floor from going one node lower. */
  ghost function ObstacleBelow(pool: Pool, minimumSafe: int): Obstacle {
    var count := ProbeCount(pool, minimumSafe);
    if count <= 0 then Obstacle([], LowerBoundReason(pool.cfg))
    else
      var probe := FitNodes(pool, pool.placeable[..count]);
      if probe.Indeterminate() then Obstacle([], UnmodelledBelow)
      else if probe.unplaced == [] then Obstacle([], LowerBoundReason(pool.cfg))
      else
        var blockers := SummarizeBlockers(probe.unplaced);
        Obstacle(blockers, if blockers == [] then NothingBinds else ReasonBinds(blockers[0].reason))
  }

  function ReportedFidelity(usage: UsageSet): string {
    if usage.fidelity == "" then NO_FIDELITY else usage.fidelity
  }

  function DerivedFrom(pool: Pool, search: Search): nat {
    if search.Found? then search.n + pool.stranded else pool.size
  }

  ghost function VerdictOf(name: string, pool: Pool, fidelity: string): PoolVerdict {
    var search := SearchFrom(pool, 1);
    if search.Unknown? then
      PoolVerdict(name, pool.size, 0, 0, IndeterminateStatus, 0, pool.cfg.Floor(), [],
                  UnmodelledBinds(search.reasons), search.reasons, pool.pinnedHosts, fidelity, false)
    else
      var derived := DerivedFrom(pool, search);
      var minimum := Min(Max(derived, pool.cfg.Floor()), pool.size);
      var removable := pool.size - minimum;
      var status := if removable > 0 then Fits else if derived < pool.size then AtFloor else AtMinimum;
      var obstacle := if status == AtFloor then Obstacle([], FloorBinds(pool.cfg.Floor()))
                      else ObstacleBelow(pool, minimum);
      PoolVerdict(name, pool.size, minimum, removable, status, derived, pool.cfg.Floor(),
                  obstacle.blockers, obstacle.binding, [], pool.pinnedHosts, fidelity, Actionable(fidelity))
  }
}
