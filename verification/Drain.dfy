/** One consolidation pass: repair stale cordons, gate every pool on its capacity verdict,
    simulate moving a candidate's pods, then cordon and evict at most one node. */
module Drain {
  import opened Basics
  import opened Cordon
  import opened CordonProtocol
  import opened HaltSwitch
  import Constraints

  datatype OwnerRef = OwnerRef(kind: string, controller: bool)

  datatype LivePod = LivePod(
    namespace: string, name: string, nodeName: string, cpu: int, mem: int,
    finished: bool, terminating: bool, owners: seq<OwnerRef>, mirror: bool, labels: map<string, string>)
  {
    predicate Occupies(node: string) { !finished && !terminating && nodeName != "" && nodeName == node }
  }

  /** Some controller would recreate the pod elsewhere, and none is a DaemonSet. */
  predicate Relocatable(p: LivePod) {
    && !p.mirror
    && (exists o | o in p.owners :: o.controller)
    && (forall o | o in p.owners :: o.controller ==> o.kind != "DaemonSet")
  }

  /** A node's requests, whether it hosts the tool itself, and its other pods. */
  datatype Load = Load(cpu: int, mem: int, hostsSelf: bool, pods: seq<LivePod>)

  function LoadOf(pods: seq<LivePod>, node: string, selfNamespace: string): Load {
    if pods == [] then Load(0, 0, false, [])
    else AddPod(LoadOf(pods[..|pods| - 1], node, selfNamespace), pods[|pods| - 1], node, selfNamespace)
  }

  function AddPod(l: Load, p: LivePod, node: string, selfNamespace: string): Load {
    if !p.Occupies(node) then l
    else if selfNamespace != "" && p.namespace == selfNamespace then Load(l.cpu + p.cpu, l.mem + p.mem, true, l.pods)
    else Load(l.cpu + p.cpu, l.mem + p.mem, l.hostsSelf, l.pods + [p])
  }

  method ScanPods(pods: seq<LivePod>, nodes: map<string, NodeRec>, selfNamespace: string) returns (loads: map<string, Load>)
    ensures loads.Keys == nodes.Keys
    ensures forall n :: n in nodes ==> loads[n] == LoadOf(pods, n, selfNamespace)
  {
    loads := map n | n in nodes :: Load(0, 0, false, []);
    for i := 0 to |pods|
      invariant loads.Keys == nodes.Keys
      invariant forall n :: n in nodes ==> loads[n] == LoadOf(pods[..i], n, selfNamespace)
    {
      assert pods[..i + 1][..i] == pods[..i];
      var p := pods[i];
      if p.finished || p.terminating || p.nodeName == "" || p.nodeName !in nodes {
        continue;
      }
      loads := loads[p.nodeName := AddPod(loads[p.nodeName], p, p.nodeName, selfNamespace)];
    }
    assert pods[..|pods|] == pods;
  }

  function RelocatablePods(pods: seq<LivePod>): seq<LivePod> {
    if pods == [] then []
    else RelocatablePods(pods[..|pods| - 1]) + if Relocatable(pods[|pods| - 1]) then [pods[|pods| - 1]] else []
  }

  // ----- what a node's load is -----

  /** The requests of every pod bound to the node that is neither finished nor terminating,
      the tool's own included. */
  function Bound(pods: seq<LivePod>, n: string): Room {
    if pods == [] then Room(0, 0)
    else
      var p, rest := pods[0], Bound(pods[1..], n);
      if p.nodeName == n && n != "" && !p.finished && !p.terminating then Room(rest.cpu + p.cpu, rest.mem + p.mem) else rest
  }

  /** Those of the pods that draining the node would move: not the tool's own, not a mirror
      pod, with a controller, and with none that is a DaemonSet. */
  function Movers(pods: seq<LivePod>, n: string, selfNamespace: string): seq<LivePod> {
    if pods == [] then []
    else
      var p, rest := pods[0], Movers(pods[1..], n, selfNamespace);
      if p.nodeName == n && n != "" && !p.finished && !p.terminating
         && (selfNamespace == "" || p.namespace != selfNamespace) && !p.mirror
         && (exists i :: 0 <= i < |p.owners| && p.owners[i].controller)
         && (forall i :: 0 <= i < |p.owners| && p.owners[i].controller ==> p.owners[i].kind != "DaemonSet")
      then [p] + rest else rest
  }

  /** One of those pods is in the tool's own namespace. */
  ghost predicate HostsTool(pods: seq<LivePod>, n: string, selfNamespace: string) {
    && selfNamespace != "" && n != ""
    && exists i :: 0 <= i < |pods| && pods[i].namespace == selfNamespace && pods[i].nodeName == n
                   && !pods[i].finished && !pods[i].terminating
  }

  lemma {:induction false} BoundSnoc(pods: seq<LivePod>, p: LivePod, n: string)
    ensures Bound(pods + [p], n)
            == (var all := Bound(pods, n);
                if p.nodeName == n && n != "" && !p.finished && !p.terminating then Room(all.cpu + p.cpu, all.mem + p.mem) else all)
  {
    if pods == [] {
      assert [] + [p] == [p] && [p][1..] == [];
    } else {
      BoundSnoc(pods[1..], p, n);
      assert (pods + [p])[1..] == pods[1..] + [p];
    }
  }

  lemma {:induction false} MoversSnoc(pods: seq<LivePod>, p: LivePod, n: string, selfNamespace: string)
    ensures Movers(pods + [p], n, selfNamespace) == Movers(pods, n, selfNamespace) + Movers([p], n, selfNamespace)
  {
    if pods == [] {
      assert [] + [p] == [p];
    } else {
      MoversSnoc(pods[1..], p, n, selfNamespace);
      assert (pods + [p])[1..] == pods[1..] + [p];
    }
  }

  lemma OneMover(p: LivePod, n: string, selfNamespace: string)
    ensures Movers([p], n, selfNamespace)
            == if p.Occupies(n) && !(selfNamespace != "" && p.namespace == selfNamespace) && Relocatable(p) then [p] else []
  {
    assert [p][1..] == [];
  }

  lemma RelocatableSnoc(pods: seq<LivePod>, p: LivePod)
    ensures RelocatablePods(pods + [p]) == RelocatablePods(pods) + if Relocatable(p) then [p] else []
  {
    assert (pods + [p])[..|pods|] == pods;
  }

  /** A node's load is what is bound to it; it hosts the tool exactly when one of those pods
      is in the tool's namespace; and its relocatable pods are the movers. */
  lemma LoadIsBound(pods: seq<LivePod>, n: string, selfNamespace: string)
    ensures var l := LoadOf(pods, n, selfNamespace);
            && Room(l.cpu, l.mem) == Bound(pods, n)
            && RelocatablePods(l.pods) == Movers(pods, n, selfNamespace)
            && (l.hostsSelf <==> HostsTool(pods, n, selfNamespace))
  {
    hide *;
    LoadIsRoom(pods, n, selfNamespace);
    LoadHoldsMovers(pods, n, selfNamespace);
    LoadKnowsTool(pods, n, selfNamespace);
  }

  lemma {:induction false} LoadIsRoom(pods: seq<LivePod>, n: string, selfNamespace: string)
    ensures var l := LoadOf(pods, n, selfNamespace); Room(l.cpu, l.mem) == Bound(pods, n)
  {
    if pods == [] {
    } else {
      var k := |pods| - 1;
      assert pods == pods[..k] + [pods[k]];
      LoadIsRoom(pods[..k], n, selfNamespace);
      BoundSnoc(pods[..k], pods[k], n);
      hide Bound;
    }
  }

  lemma {:induction false} LoadHoldsMovers(pods: seq<LivePod>, n: string, selfNamespace: string)
    ensures RelocatablePods(LoadOf(pods, n, selfNamespace).pods) == Movers(pods, n, selfNamespace)
  {
    if pods == [] {
    } else {
      var k := |pods| - 1;
      assert pods == pods[..k] + [pods[k]];
      LoadHoldsMovers(pods[..k], n, selfNamespace);
      MoversSnoc(pods[..k], pods[k], n, selfNamespace);
      OneMover(pods[k], n, selfNamespace);
      RelocatableSnoc(LoadOf(pods[..k], n, selfNamespace).pods, pods[k]);
      hide Movers, RelocatablePods, Relocatable;
    }
  }

  lemma {:induction false} LoadKnowsTool(pods: seq<LivePod>, n: string, selfNamespace: string)
    ensures LoadOf(pods, n, selfNamespace).hostsSelf <==> HostsTool(pods, n, selfNamespace)
  {
    if pods == [] {
    } else {
      var k := |pods| - 1;
      LoadKnowsTool(pods[..k], n, selfNamespace);
      assert forall i :: 0 <= i < k ==> pods[..k][i] == pods[i];
      assert HostsTool(pods, n, selfNamespace)
             <==> (HostsTool(pods[..k], n, selfNamespace)
                   || (pods[k].Occupies(n) && selfNamespace != "" && pods[k].namespace == selfNamespace));
      hide HostsTool;
    }
  }

  // ----- pool health -----

  datatype Health = Health(schedulable: nat, unusable: nat, reapedRecently: bool)

  const UNSEEN := Health(0, 0, false)

  function HealthOf(pools: map<string, Health>, pool: string): Health {
    if pool in pools then pools[pool] else UNSEEN
  }

  ghost predicate HealthOver(nodes: map<string, NodeRec>, seen: set<string>, pool: string, h: Health, cooldown: int, now: int) {
    && h.schedulable == |SchedulableIn(nodes, pool) * seen|
    && h.unusable == |UnusableIn(nodes, pool) * seen|
    && (h.reapedRecently <==> SomeReaped(nodes, seen, pool, cooldown, now))
  }

  function UnusableIn(nodes: map<string, NodeRec>, pool: string): set<string> {
    set n | n in nodes && nodes[n].pool == pool && !nodes[n].Schedulable()
  }

  ghost predicate SomeReaped(nodes: map<string, NodeRec>, seen: set<string>, pool: string, cooldown: int, now: int) {
    exists n :: n in seen && InPool(nodes, n, pool) && InCooldown(nodes[n], cooldown, now)
  }

  ghost predicate AllHealth(nodes: map<string, NodeRec>, seen: set<string>, pools: map<string, Health>, cooldown: int, now: int) {
    forall pool :: HealthOver(nodes, seen, pool, HealthOf(pools, pool), cooldown, now)
  }

  /** A pool's counters after one more of its nodes. */
  function Tally(h: Health, rec: NodeRec, cooldown: int, now: int): Health {
    Health(if rec.Schedulable() then h.schedulable + 1 else h.schedulable,
           if rec.Schedulable() then h.unusable else h.unusable + 1,
           h.reapedRecently || InCooldown(rec, cooldown, now))
  }

  /** Counts every pool's usable and unusable nodes, in any node order. */
  method PoolHealth(nodes: map<string, NodeRec>, cooldown: int, now: int) returns (pools: map<string, Health>)
    ensures AllHealth(nodes, nodes.Keys, pools, cooldown, now)
  {
    pools := map[];
    var todo := nodes.Keys;
    ghost var seen: set<string> := {};
    HealthStart(nodes, cooldown, now);
    hide AllHealth, Tally, HealthOf;
    while todo != {}
      invariant todo <= nodes.Keys && seen == nodes.Keys - todo
      invariant AllHealth(nodes, seen, pools, cooldown, now)
    {
      var n :| n in todo;
      var rec := nodes[n];
      HealthStep(nodes, seen, n, pools, cooldown, now);
      pools := pools[rec.pool := Tally(HealthOf(pools, rec.pool), rec, cooldown, now)];
      todo := todo - {n};
      seen := seen + {n};
    }
    assert seen == nodes.Keys;
  }

  lemma HealthStart(nodes: map<string, NodeRec>, cooldown: int, now: int)
    ensures AllHealth(nodes, {}, map[], cooldown, now)
  {
    assert forall pool :: SchedulableIn(nodes, pool) * {} == {} && UnusableIn(nodes, pool) * {} == {};
  }

  lemma HealthStep(nodes: map<string, NodeRec>, seen: set<string>, n: string, pools: map<string, Health>, cooldown: int, now: int)
    requires n in nodes && n !in seen && AllHealth(nodes, seen, pools, cooldown, now)
    ensures var pool := nodes[n].pool;
            AllHealth(nodes, seen + {n}, pools[pool := Tally(HealthOf(pools, pool), nodes[n], cooldown, now)], cooldown, now)
  {
    hide HealthOver, Tally;
    var next := pools[nodes[n].pool := Tally(HealthOf(pools, nodes[n].pool), nodes[n], cooldown, now)];
    forall pool ensures HealthOver(nodes, seen + {n}, pool, HealthOf(next, pool), cooldown, now) {
      HealthGrows(nodes, seen, n, pool, HealthOf(pools, pool), cooldown, now);
    }
  }

  lemma HealthGrows(nodes: map<string, NodeRec>, seen: set<string>, n: string, pool: string, h: Health, cooldown: int, now: int)
    requires n in nodes && n !in seen && HealthOver(nodes, seen, pool, h, cooldown, now)
    ensures nodes[n].pool != pool ==> HealthOver(nodes, seen + {n}, pool, h, cooldown, now)
    ensures nodes[n].pool == pool ==>
              HealthOver(nodes, seen + {n}, pool, Tally(h, nodes[n], cooldown, now), cooldown, now)
  {
    CountsGrow(nodes, seen, n, pool);
    ReapedGrows(nodes, seen, n, pool, cooldown, now);
    hide SchedulableIn, UnusableIn, SomeReaped, InCooldown;
  }

  lemma CountsGrow(nodes: map<string, NodeRec>, seen: set<string>, n: string, pool: string)
    requires n in nodes && n !in seen
    ensures |SchedulableIn(nodes, pool) * (seen + {n})| == |SchedulableIn(nodes, pool) * seen|
              + if nodes[n].pool == pool && nodes[n].Schedulable() then 1 else 0
    ensures |UnusableIn(nodes, pool) * (seen + {n})| == |UnusableIn(nodes, pool) * seen|
              + if nodes[n].pool == pool && !nodes[n].Schedulable() then 1 else 0
  {
    MemberCounts(SchedulableIn(nodes, pool), seen, n);
    MemberCounts(UnusableIn(nodes, pool), seen, n);
  }

  lemma MemberCounts(s: set<string>, seen: set<string>, n: string)
    requires n !in seen
    ensures |s * (seen + {n})| == |s * seen| + if n in s then 1 else 0
  {
    assert s * (seen + {n}) == if n in s then s * seen + {n} else s * seen;
  }

  lemma ReapedGrows(nodes: map<string, NodeRec>, seen: set<string>, n: string, pool: string, cooldown: int, now: int)
    requires n in nodes && n !in seen
    ensures SomeReaped(nodes, seen + {n}, pool, cooldown, now)
            <==> SomeReaped(nodes, seen, pool, cooldown, now) || (nodes[n].pool == pool && InCooldown(nodes[n], cooldown, now))
  {
    hide InCooldown;
    assert InPool(nodes, n, pool) <==> nodes[n].pool == pool;
  }

  // ----- the packing simulation -----

  datatype Room = Room(cpu: int, mem: int)

  function MovedCPU(pods: seq<LivePod>, to: seq<string>, node: string): int
    requires |to| == |pods|
  {
    if pods == [] then 0
    else
      var n := |pods| - 1;
      MovedCPU(pods[..n], to[..n], node) + if to[n] == node then pods[n].cpu else 0
  }

  function MovedMem(pods: seq<LivePod>, to: seq<string>, node: string): int
    requires |to| == |pods|
  {
    if pods == [] then 0
    else
      var n := |pods| - 1;
      MovedMem(pods[..n], to[..n], node) + if to[n] == node then pods[n].mem else 0
  }

  /** Every pod has a destination, and every destination has room for all it receives. */
  ghost predicate Absorbs(free: map<string, Room>, pods: seq<LivePod>, to: seq<string>) {
    && |to| == |pods|
    && (forall i :: 0 <= i < |to| ==> to[i] in free)
    && (forall n :: n in to ==> MovedCPU(pods, to, n) <= free[n].cpu && MovedMem(pods, to, n) <= free[n].mem)
  }

  ghost predicate RoomLeft(free: map<string, Room>, room: map<string, Room>, pods: seq<LivePod>, to: seq<string>) {
    && |to| == |pods| && room.Keys == free.Keys
    && forall n :: n in free ==>
         room[n] == Room(free[n].cpu - MovedCPU(pods, to, n), free[n].mem - MovedMem(pods, to, n))
  }

  lemma MoveOne(pods: seq<LivePod>, to: seq<string>, p: LivePod, dest: string)
    requires |to| == |pods|
    ensures forall n :: MovedCPU(pods + [p], to + [dest], n) == MovedCPU(pods, to, n) + if n == dest then p.cpu else 0
    ensures forall n :: MovedMem(pods + [p], to + [dest], n) == MovedMem(pods, to, n) + if n == dest then p.mem else 0
  {
    assert (pods + [p])[..|pods|] == pods && (to + [dest])[..|to|] == to;
  }

  /** Finds some node with room for one pod, walking the map in any order. */
  method FindRoom(room: map<string, Room>, p: LivePod) returns (dest: Option<string>)
    ensures dest.Some? ==> dest.value in room && room[dest.value].cpu >= p.cpu && room[dest.value].mem >= p.mem
    ensures dest.None? ==> forall n :: n in room ==> room[n].cpu < p.cpu || room[n].mem < p.mem
  {
    var todo := room.Keys;
    while todo != {}
      invariant todo <= room.Keys
      invariant forall n :: n in room && n !in todo ==> room[n].cpu < p.cpu || room[n].mem < p.mem
    {
      var n :| n in todo;
      if room[n].cpu >= p.cpu && room[n].mem >= p.mem {
        return Some(n);
      }
      todo := todo - {n};
    }
    return None;
  }

  /** A placed prefix, within every node's free room, after which no node can host the next pod. */
  ghost predicate DeadEnd(free: map<string, Room>, pods: seq<LivePod>, to: seq<string>) {
    && |to| < |pods| && Absorbs(free, pods[..|to|], to)
    && forall n :: n in free ==>
         || free[n].cpu - MovedCPU(pods[..|to|], to, n) < pods[|to|].cpu
         || free[n].mem - MovedMem(pods[..|to|], to, n) < pods[|to|].mem
  }

  /** Greedy packing in any order: success yields an assignment, failure a dead end. */
  method SimulatePacking(free: map<string, Room>, pods: seq<LivePod>) returns (fits: bool)
    ensures fits ==> exists to: seq<string> :: Absorbs(free, pods, to)
    ensures !fits ==> exists to: seq<string> :: DeadEnd(free, pods, to)
  {
    var room := free;
    ghost var to: seq<string> := [];
    for i := 0 to |pods|
      invariant |to| == i && Absorbs(free, pods[..i], to)
      invariant RoomLeft(free, room, pods[..i], to)
    {
      var dest := FindRoom(room, pods[i]);
      if dest.None? {
        assert DeadEnd(free, pods, to);
        return false;
      }
      var n := dest.value;
      assert pods[..i + 1] == pods[..i] + [pods[i]];
      MoveOne(pods[..i], to, pods[i], n);
      room := room[n := Room(room[n].cpu - pods[i].cpu, room[n].mem - pods[i].mem)];
      to := to + [n];
    }
    assert pods[..|pods|] == pods;
    return true;
  }

  // ----- disruption budgets -----

  /** A disruption budget: evictions it still allows, and its label selector if it has one. */
  datatype Budget = Budget(allowed: int, selector: Option<Constraints.LabelSelector>)

  /** The budgets of each namespace; None where they cannot be read. */
  type Budgets = map<string, Option<seq<Budget>>>

  /** Only the listed labels are compared, and there must be some; expressions are not read. */
  predicate Selects(labels: map<string, string>, s: Constraints.LabelSelector) {
    s.matchLabels != map[] && forall k :: k in s.matchLabels ==> Label(labels, k) == s.matchLabels[k]
  }

  predicate Exhausts(b: Budget, p: LivePod) {
    b.allowed <= 0 && b.selector.Some? && Selects(p.labels, b.selector.value)
  }

  /** Evicting one of the pods would run into an exhausted or unreadable budget. */
  predicate BudgetBlocked(pods: seq<LivePod>, budgets: Budgets) {
    exists p | p in pods :: PodBlocked(p, budgets)
  }

  predicate PodBlocked(p: LivePod, budgets: Budgets) {
    p.namespace in budgets
    && (budgets[p.namespace].None? || exists b | b in budgets[p.namespace].value :: Exhausts(b, p))
  }

  function InNamespace(pods: seq<LivePod>, namespace: string): seq<LivePod> {
    if pods == [] then []
    else
      var last := pods[|pods| - 1];
      InNamespace(pods[..|pods| - 1], namespace) + if last.namespace == namespace then [last] else []
  }

  lemma {:induction false} InNamespaceHolds(pods: seq<LivePod>, namespace: string, p: LivePod)
    ensures p in InNamespace(pods, namespace) <==> p in pods && p.namespace == namespace
  {
    if pods == [] {
    } else {
      InNamespaceHolds(pods[..|pods| - 1], namespace, p);
      assert pods == pods[..|pods| - 1] + [pods[|pods| - 1]];
    }
  }

  method GroupByNamespace(pods: seq<LivePod>) returns (groups: map<string, seq<LivePod>>)
    ensures forall ns :: InNamespace(pods, ns) == if ns in groups then groups[ns] else []
  {
    groups := map[];
    assert forall ns :: InNamespace([], ns) == [];
    hide InNamespace;
    for i := 0 to |pods|
      invariant forall ns :: InNamespace(pods[..i], ns) == if ns in groups then groups[ns] else []
    {
      NamespaceStep(pods, i);
      var ns := pods[i].namespace;
      groups := groups[ns := (if ns in groups then groups[ns] else []) + [pods[i]]];
    }
    assert pods[..|pods|] == pods;
  }

  lemma NamespaceStep(pods: seq<LivePod>, i: nat)
    requires i < |pods|
    ensures forall ns :: InNamespace(pods[..i + 1], ns)
                         == InNamespace(pods[..i], ns) + if pods[i].namespace == ns then [pods[i]] else []
  {
    assert pods[..i + 1][..i] == pods[..i];
  }

  /** Checks each namespace's budgets against its pods, in any namespace order; a budget
      list that cannot be read counts as blocking. */
  method CheckBudgets(pods: seq<LivePod>, budgets: Budgets) returns (blocked: bool)
    ensures blocked <==> BudgetBlocked(pods, budgets)
  {
    var groups := GroupByNamespace(pods);
    assert forall p :: p in pods ==> p.namespace in groups by {
      forall p | p in pods ensures p.namespace in groups {
        InNamespaceHolds(pods, p.namespace, p);
      }
    }
    var todo := groups.Keys;
    while todo != {}
      invariant todo <= groups.Keys
      invariant forall p :: p in pods && p.namespace !in todo ==> !PodBlocked(p, budgets)
    {
      var ns :| ns in todo;
      var members := groups[ns];
      assert forall p :: p in members <==> p in pods && p.namespace == ns by {
        forall p ensures p in members <==> p in pods && p.namespace == ns {
          InNamespaceHolds(pods, ns, p);
        }
      }
      if ns in budgets && members != [] {
        if budgets[ns].None? {
          assert members[0] in members && PodBlocked(members[0], budgets);
          return true;
        }
        var hit := AnyExhausted(budgets[ns].value, members);
        if hit {
          return true;
        }
      }
      todo := todo - {ns};
    }
    return false;
  }

  method AnyExhausted(list: seq<Budget>, pods: seq<LivePod>) returns (hit: bool)
    ensures hit <==> exists p, b :: p in pods && b in list && Exhausts(b, p)
  {
    for i := 0 to |list|
      invariant forall p, b :: p in pods && b in list[..i] ==> !Exhausts(b, p)
    {
      if list[i].allowed > 0 || list[i].selector.None? {
        continue;
      }
      for j := 0 to |pods|
        invariant forall p :: p in pods[..j] ==> !Exhausts(list[i], p)
      {
        if Selects(pods[j].labels, list[i].selector.value) {
          assert Exhausts(list[i], pods[j]);
          return true;
        }
      }
    }
    return false;
  }

  /** The pods a budget is for: those that have every listed label and meet every expression.
      An empty selector is for every pod of the namespace. */
  predicate MeantFor(labels: map<string, string>, s: Constraints.LabelSelector) {
    && (forall k :: k in s.matchLabels ==> k in labels && labels[k] == s.matchLabels[k])
    && forall e :: e in s.matchExpressions ==> Meets(labels, e)
  }

  predicate Meets(labels: map<string, string>, e: Constraints.SelectorRequirement) {
    match e.operator
    case "In" => e.key in labels && labels[e.key] in e.values
    case "NotIn" => e.key !in labels || labels[e.key] !in e.values
    case "Exists" => e.key in labels
    case "DoesNotExist" => e.key !in labels
    case _ => false
  }

  /** Every pod an exhausted budget is for keeps the node, if and only if the selector lists a
      label or its expressions leave no pod at all. */
  lemma BudgetHonouredExactly(s: Constraints.LabelSelector)
    ensures (forall p: LivePod :: MeantFor(p.labels, s) ==> Exhausts(Budget(0, Some(s)), p))
            <==> s.matchLabels != map[] || forall labels: map<string, string> :: !MeantFor(labels, s)
  {
    if s.matchLabels == map[] {
      forall labels: map<string, string> | MeantFor(labels, s)
        ensures exists p: LivePod :: MeantFor(p.labels, s) && !Exhausts(Budget(0, Some(s)), p)
      {
        var p := LivePod("shop", "web", "a", 0, 0, false, false, [], false, labels);
        assert !Exhausts(Budget(0, Some(s)), p);
      }
    }
  }

  /** A selector without expressions is read as it is meant if and only if it lists a label
      and asks for no empty value. */
  lemma SelectorReadExactly(s: Constraints.LabelSelector)
    requires s.matchExpressions == []
    ensures (forall labels: map<string, string> :: Selects(labels, s) <==> MeantFor(labels, s))
            <==> s.matchLabels != map[] && forall k :: k in s.matchLabels ==> s.matchLabels[k] != ""
  {
    if s.matchLabels == map[] {
      assert MeantFor(map[], s) && !Selects(map[], s);
    } else if k :| k in s.matchLabels && s.matchLabels[k] == "" {
      var labels := map l | l in s.matchLabels && l != k :: s.matchLabels[l];
      assert k !in labels;
      assert Selects(labels, s) && !MeantFor(labels, s);
    }
  }

  // ----- conservation -----

  function TotalMoved(pods: seq<LivePod>, to: seq<string>, nodes: seq<string>): Room
    requires |to| == |pods|
  {
    if nodes == [] then Room(0, 0)
    else
      var rest, n := TotalMoved(pods, to, nodes[..|nodes| - 1]), nodes[|nodes| - 1];
      Room(rest.cpu + MovedCPU(pods, to, n), rest.mem + MovedMem(pods, to, n))
  }

  function TotalRequests(pods: seq<LivePod>): Room {
    if pods == [] then Room(0, 0)
    else
      var rest, p := TotalRequests(pods[..|pods| - 1]), pods[|pods| - 1];
      Room(rest.cpu + p.cpu, rest.mem + p.mem)
  }

  lemma {:induction false} TotalMovedOne(pods: seq<LivePod>, to: seq<string>, p: LivePod, dest: string, nodes: seq<string>)
    requires |to| == |pods| && Distinct(nodes)
    ensures TotalMoved(pods + [p], to + [dest], nodes)
            == (var before := TotalMoved(pods, to, nodes);
                if dest in nodes then Room(before.cpu + p.cpu, before.mem + p.mem) else before)
  {
    MoveOne(pods, to, p, dest);
    if nodes == [] {
    } else {
      var n := |nodes| - 1;
      assert nodes == nodes[..n] + [nodes[n]];
      TotalMovedOne(pods, to, p, dest, nodes[..n]);
    }
  }

  lemma {:induction false} NothingMoved(nodes: seq<string>)
    ensures TotalMoved([], [], nodes) == Room(0, 0)
  {
    if nodes == [] {
    } else {
      NothingMoved(nodes[..|nodes| - 1]);
    }
  }

  /** What the destinations receive together is exactly what the drained node gives up. */
  lemma {:induction false} RequestsConserved(pods: seq<LivePod>, to: seq<string>, nodes: seq<string>)
    requires |to| == |pods| && Distinct(nodes) && forall i :: 0 <= i < |to| ==> to[i] in nodes
    ensures TotalMoved(pods, to, nodes) == TotalRequests(pods)
  {
    if pods == [] {
      NothingMoved(nodes);
    } else {
      var n := |pods| - 1;
      RequestsConserved(pods[..n], to[..n], nodes);
      TotalMovedOne(pods[..n], to[..n], pods[n], to[n], nodes);
      assert pods[..n] + [pods[n]] == pods && to[..n] + [to[n]] == to;
      assert to[n] in nodes;
    }
  }

  // ----- candidates -----

  /** The part of a pool's capacity verdict the pass consumes. */
  datatype Gate = Gate(actionable: bool, minimumSafe: int)

  datatype Options = Options(live: bool, selfNamespace: string, ttl: int, cooldown: int, run: string, now: int)

  /** A node the pass may empty: schedulable, not the tool's own, in a healthy pool whose
      verdict is actionable and has a node to spare. */
  ghost predicate Candidate(nodes: map<string, NodeRec>, pods: seq<LivePod>, verdicts: map<string, Gate>, opts: Options, n: string) {
    && n in nodes && nodes[n].pool in verdicts && verdicts[nodes[n].pool].actionable
    && Drainable(nodes, n, verdicts[nodes[n].pool].minimumSafe, opts.cooldown, opts.now)
    && !HostsTool(pods, n, opts.selfNamespace)
  }

  method FindCandidates(nodes: map<string, NodeRec>, pods: seq<LivePod>, loads: map<string, Load>,
                        verdicts: map<string, Gate>, opts: Options) returns (candidates: set<string>, schedulable: nat)
    requires loads.Keys == nodes.Keys && forall n :: n in nodes ==> loads[n] == LoadOf(pods, n, opts.selfNamespace)
    ensures forall n :: n in candidates <==> Candidate(nodes, pods, verdicts, opts, n)
    ensures schedulable == |set n | n in nodes && nodes[n].Schedulable()|
  {
    LoadsAreBound(nodes, pods, loads, opts.selfNamespace);
    hide LoadOf, RelocatablePods, Bound, Movers, HostsTool, HealthOver;
    var pools := PoolHealth(nodes, opts.cooldown, opts.now);
    candidates, schedulable := {}, 0;
    var todo := nodes.Keys;
    assert SchedulableBeyond(nodes, todo) == {};
    while todo != {}
      invariant todo <= nodes.Keys
      invariant forall n :: n in candidates <==> n !in todo && Candidate(nodes, pods, verdicts, opts, n)
      invariant schedulable == |SchedulableBeyond(nodes, todo)|
    {
      var n :| n in todo;
      var rec := nodes[n];
      CountNext(nodes, todo, n);
      hide SchedulableBeyond;
      todo := todo - {n};
      hide Candidate;
      UnreadyIsNone(nodes, pods, verdicts, opts, n);
      if rec.Schedulable() {
        schedulable := schedulable + 1;
        var h := HealthOf(pools, rec.pool);
        assert HealthOver(nodes, nodes.Keys, rec.pool, h, opts.cooldown, opts.now);
        GatesDecide(nodes, pods, verdicts, opts, n, h);
        if !loads[n].hostsSelf && rec.pool in verdicts && verdicts[rec.pool].actionable && h.unusable == 0
           && h.schedulable > verdicts[rec.pool].minimumSafe && !h.reapedRecently {
          candidates := candidates + {n};
        }
      }
    }
    assert SchedulableBeyond(nodes, todo) == set m | m in nodes && nodes[m].Schedulable();
  }

  function SchedulableBeyond(nodes: map<string, NodeRec>, todo: set<string>): set<string> {
    set n | n in nodes && n !in todo && nodes[n].Schedulable()
  }

  lemma CountNext(nodes: map<string, NodeRec>, todo: set<string>, n: string)
    requires n in nodes && n in todo
    ensures |SchedulableBeyond(nodes, todo - {n})| == |SchedulableBeyond(nodes, todo)| + if nodes[n].Schedulable() then 1 else 0
  {
    if nodes[n].Schedulable() {
      assert SchedulableBeyond(nodes, todo - {n}) == SchedulableBeyond(nodes, todo) + {n};
    } else {
      assert SchedulableBeyond(nodes, todo - {n}) == SchedulableBeyond(nodes, todo);
    }
  }

  /** The gates of one schedulable node, read off its pool's health. */
  lemma GatesDecide(nodes: map<string, NodeRec>, pods: seq<LivePod>, verdicts: map<string, Gate>, opts: Options, n: string, h: Health)
    requires n in nodes && nodes[n].Schedulable()
    requires HealthOver(nodes, nodes.Keys, nodes[n].pool, h, opts.cooldown, opts.now)
    ensures var pool := nodes[n].pool;
            Candidate(nodes, pods, verdicts, opts, n)
            <==> (!HostsTool(pods, n, opts.selfNamespace) && pool in verdicts && verdicts[pool].actionable && h.unusable == 0
                  && h.schedulable > verdicts[pool].minimumSafe && !h.reapedRecently)
  {
    hide HostsTool;
    HealthDecides(nodes, nodes[n].pool, h, opts.cooldown, opts.now);
    hide PoolClear, HealthOver, SchedulableIn;
  }

  lemma UnreadyIsNone(nodes: map<string, NodeRec>, pods: seq<LivePod>, verdicts: map<string, Gate>, opts: Options, n: string)
    ensures Candidate(nodes, pods, verdicts, opts, n) ==> n in nodes && nodes[n].Schedulable()
  {
  }

  lemma HealthDecides(nodes: map<string, NodeRec>, pool: string, h: Health, cooldown: int, now: int)
    requires HealthOver(nodes, nodes.Keys, pool, h, cooldown, now)
    ensures PoolClear(nodes, pool, cooldown, now) <==> h.unusable == 0 && !h.reapedRecently
    ensures h.schedulable == |SchedulableIn(nodes, pool)| && h.unusable == |UnusableIn(nodes, pool)|
  {
    assert SchedulableIn(nodes, pool) * nodes.Keys == SchedulableIn(nodes, pool);
    assert UnusableIn(nodes, pool) * nodes.Keys == UnusableIn(nodes, pool);
    assert PoolClear(nodes, pool, cooldown, now) ==> UnusableIn(nodes, pool) == {};
    assert forall n :: InPool(nodes, n, pool) && !nodes[n].Schedulable() ==> n in UnusableIn(nodes, pool);
  }

  /** Least requested CPU first, then memory. */
  predicate Lighter(a: Load, b: Load) {
    if a.cpu != b.cpu then a.cpu < b.cpu else a.mem < b.mem
  }

  lemma {:induction false} LightestExists(loads: map<string, Load>, s: set<string>) returns (least: string)
    requires s != {} && s <= loads.Keys
    ensures least in s && forall n :: n in s ==> !Lighter(loads[n], loads[least])
  {
    var x :| x in s;
    if s - {x} == {} {
      least := x;
    } else {
      var rest := LightestExists(loads, s - {x});
      least := if Lighter(loads[x], loads[rest]) then x else rest;
    }
    forall n | n in s ensures !Lighter(loads[n], loads[least]) {
      assert n == x || n in s - {x};
    }
  }

  /** Where a drained node's pods may go: every other schedulable node's free room. */
  function RoomBeside(nodes: map<string, NodeRec>, loads: map<string, Load>, candidate: string): map<string, Room>
    requires loads.Keys == nodes.Keys
  {
    map n | n in nodes && n != candidate && nodes[n].Schedulable() ::
      Room(nodes[n].allocCPU - loads[n].cpu, nodes[n].allocMem - loads[n].mem)
  }

  /** Moving the candidate's relocatable pods is possible: some assignment keeps each
      receiving schedulable node within its allocatable CPU and memory. */
  ghost predicate CanAbsorb(nodes: map<string, NodeRec>, pods: seq<LivePod>, selfNamespace: string, candidate: string) {
    exists to: seq<string> :: AbsorbedBy(nodes, pods, selfNamespace, candidate, to)
  }

  ghost predicate AbsorbedBy(nodes: map<string, NodeRec>, pods: seq<LivePod>, selfNamespace: string, candidate: string, to: seq<string>) {
    var moving := Movers(pods, candidate, selfNamespace);
    && |to| == |moving|
    && forall n :: n in to ==>
         && n in nodes && n != candidate && nodes[n].ready && !nodes[n].unschedulable
         && Bound(pods, n).cpu + MovedCPU(moving, to, n) <= nodes[n].allocCPU
         && Bound(pods, n).mem + MovedMem(moving, to, n) <= nodes[n].allocMem
  }

  /** Some partial assignment, itself within every receiving node's allocatable, leaves a
      next pod that no other schedulable node can host. */
  ghost predicate Stuck(nodes: map<string, NodeRec>, pods: seq<LivePod>, selfNamespace: string, candidate: string) {
    exists to: seq<string> :: StuckAfter(nodes, pods, selfNamespace, candidate, to)
  }

  ghost predicate StuckAfter(nodes: map<string, NodeRec>, pods: seq<LivePod>, selfNamespace: string, candidate: string, to: seq<string>) {
    var moving := Movers(pods, candidate, selfNamespace);
    && |to| < |moving|
    && (forall n :: n in to ==> n in nodes && n != candidate && nodes[n].ready && !nodes[n].unschedulable)
    && (forall n :: n in nodes && n != candidate && nodes[n].ready && !nodes[n].unschedulable ==>
          var free := FreeOn(nodes, pods, n);
          && (n in to ==> MovedCPU(moving[..|to|], to, n) <= free.cpu && MovedMem(moving[..|to|], to, n) <= free.mem)
          && (free.cpu - MovedCPU(moving[..|to|], to, n) < moving[|to|].cpu
              || free.mem - MovedMem(moving[..|to|], to, n) < moving[|to|].mem))
  }

  function FreeOn(nodes: map<string, NodeRec>, pods: seq<LivePod>, n: string): Room
    requires n in nodes
  {
    var bound := Bound(pods, n);
    Room(nodes[n].allocCPU - bound.cpu, nodes[n].allocMem - bound.mem)
  }

  /** The only grounds on which a candidate is not drained. */
  ghost predicate PassedOver(nodes: map<string, NodeRec>, pods: seq<LivePod>, budgets: Budgets, selfNamespace: string, n: string) {
    || Movers(pods, n, selfNamespace) == []
    || BudgetBlocked(Movers(pods, n, selfNamespace), budgets)
    || Stuck(nodes, pods, selfNamespace, n)
  }

  ghost predicate Picked(nodes: map<string, NodeRec>, pods: seq<LivePod>, budgets: Budgets, selfNamespace: string, t: string) {
    && !BudgetBlocked(Movers(pods, t, selfNamespace), budgets)
    && Movers(pods, t, selfNamespace) != []
    && CanAbsorb(nodes, pods, selfNamespace, t)
  }

  /** One candidate's simulation, with the outcome read as an assignment or a dead end. */
  method TryCandidate(nodes: map<string, NodeRec>, pods: seq<LivePod>, loads: map<string, Load>, candidate: string,
                      budgets: Budgets, selfNamespace: string) returns (chosen: bool)
    requires loads.Keys == nodes.Keys && forall n :: n in nodes ==> loads[n] == LoadOf(pods, n, selfNamespace)
    requires candidate in nodes
    ensures chosen ==> Picked(nodes, pods, budgets, selfNamespace, candidate)
    ensures !chosen ==> PassedOver(nodes, pods, budgets, selfNamespace, candidate)
  {
    hide LoadOf, MovedCPU, MovedMem, RelocatablePods, Bound, Movers, HostsTool;
    LoadsAreBound(nodes, pods, loads, selfNamespace);
    var moving := RelocatablePods(loads[candidate].pods);
    if moving == [] {
      return false;
    }
    var free := RoomBeside(nodes, loads, candidate);
    var fits := SimulatePacking(free, moving);
    if !fits {
      ghost var to :| DeadEnd(free, moving, to);
      assert StuckAfter(nodes, pods, selfNamespace, candidate, to);
      return false;
    }
    ghost var to :| Absorbs(free, moving, to);
    assert AbsorbedBy(nodes, pods, selfNamespace, candidate, to);
    var blocked := CheckBudgets(moving, budgets);
    return !blocked;
  }

  lemma LoadsAreBound(nodes: map<string, NodeRec>, pods: seq<LivePod>, loads: map<string, Load>, selfNamespace: string)
    requires loads.Keys == nodes.Keys && forall n :: n in nodes ==> loads[n] == LoadOf(pods, n, selfNamespace)
    ensures forall n :: n in nodes ==>
              && Room(loads[n].cpu, loads[n].mem) == Bound(pods, n)
              && RelocatablePods(loads[n].pods) == Movers(pods, n, selfNamespace)
              && (loads[n].hostsSelf <==> HostsTool(pods, n, selfNamespace))
  {
    hide LoadOf, RelocatablePods, Bound, Movers, HostsTool;
    forall n | n in nodes
      ensures Room(loads[n].cpu, loads[n].mem) == Bound(pods, n)
      ensures RelocatablePods(loads[n].pods) == Movers(pods, n, selfNamespace)
      ensures loads[n].hostsSelf <==> HostsTool(pods, n, selfNamespace)
    {
      LoadIsBound(pods, n, selfNamespace);
    }
  }

  /** The first candidate, lightest first and ties in any order, whose pods are movable and
      not blocked by a disruption budget. */
  method PickTarget(nodes: map<string, NodeRec>, pods: seq<LivePod>, loads: map<string, Load>, candidates: set<string>,
                    budgets: Budgets, selfNamespace: string) returns (target: Option<string>)
    requires loads.Keys == nodes.Keys && forall n :: n in nodes ==> loads[n] == LoadOf(pods, n, selfNamespace)
    requires candidates <= nodes.Keys
    ensures target.Some? ==>
              && target.value in candidates && Picked(nodes, pods, budgets, selfNamespace, target.value)
              && forall n :: n in candidates && Lighter(loads[n], loads[target.value]) ==>
                   PassedOver(nodes, pods, budgets, selfNamespace, n)
    ensures target.None? ==> forall n :: n in candidates ==> PassedOver(nodes, pods, budgets, selfNamespace, n)
  {
    hide PassedOver;
    hide Picked;
    hide LoadOf;
    var todo := candidates;
    while todo != {}
      invariant todo <= candidates
      invariant forall n :: n in candidates && n !in todo ==> PassedOver(nodes, pods, budgets, selfNamespace, n)
    {
      ghost var least := LightestExists(loads, todo);
      var candidate :| candidate in todo && forall n :: n in todo ==> !Lighter(loads[n], loads[candidate]);
      var chosen := TryCandidate(nodes, pods, loads, candidate, budgets, selfNamespace);
      if chosen {
        return Some(candidate);
      }
      todo := todo - {candidate};
    }
    return None;
  }

  // ----- the pass -----

  /** Which calls after the reap fail, what the budgets say, and what another client turns
      the chosen node into before the pass reads it back. */
  datatype PassFaults = PassFaults(
    reap: Faults, listNodes: bool, listPods: bool, getTarget: bool, claim: bool,
    targetEdit: Option<NodeRec>, budgets: Budgets, evictions: set<string>)

  datatype PassResult = PassResult(
    halted: bool, target: Option<string>, cordoned: bool, attempted: seq<LivePod>, evicted: nat, evictionErrors: nat)

  const NO_PASS := PassResult(false, None, false, [], 0, 0)

  ghost function Refusals(pods: seq<LivePod>, refused: set<string>): nat {
    |set i | 0 <= i < |pods| && pods[i].namespace + "/" + pods[i].name in refused|
  }

  /** Asks for every pod's eviction once; a refused eviction does not stop the others. */
  method EvictAll(pods: seq<LivePod>, refused: set<string>) returns (evicted: nat, errors: nat)
    ensures evicted + errors == |pods|
    ensures errors == Refusals(pods, refused)
    ensures errors == |set i | 0 <= i < |pods| && pods[i].namespace + "/" + pods[i].name in refused|
  {
    evicted, errors := 0, 0;
    for i := 0 to |pods|
      invariant evicted + errors == i
      invariant errors == |set k | 0 <= k < i && pods[k].namespace + "/" + pods[k].name in refused|
    {
      ghost var before := set k | 0 <= k < i && pods[k].namespace + "/" + pods[k].name in refused;
      ghost var after := set k | 0 <= k < i + 1 && pods[k].namespace + "/" + pods[k].name in refused;
      if pods[i].namespace + "/" + pods[i].name in refused {
        assert after == before + {i};
        errors := errors + 1;
      } else {
        assert after == before;
        evicted := evicted + 1;
      }
    }
  }

  /** The nodes after the repair phase of a pass. */
  function Repaired(nodes: map<string, NodeRec>, opts: Options, faults: Faults): map<string, NodeRec> {
    ReapAll(nodes, opts.live, opts.run, opts.ttl, opts.now, faults)
  }

  /** The pass has a verdict and could read the nodes and the pods. */
  ghost predicate Observed(verdicts: Option<map<string, Gate>>, faults: PassFaults) {
    verdicts.Some? && !faults.listNodes && !faults.listPods
  }

  /** The drained node is a candidate, its pods fit elsewhere, and every lighter candidate
      had grounds to be passed over. */
  ghost predicate Chosen(nodes: map<string, NodeRec>, pods: seq<LivePod>, verdicts: map<string, Gate>, opts: Options,
                         budgets: Budgets, t: string) {
    && Candidate(nodes, pods, verdicts, opts, t)
    && Picked(nodes, pods, budgets, opts.selfNamespace, t)
    && forall n :: Candidate(nodes, pods, verdicts, opts, n)
                   && (Bound(pods, n).cpu < Bound(pods, t).cpu
                       || (Bound(pods, n).cpu == Bound(pods, t).cpu && Bound(pods, n).mem < Bound(pods, t).mem)) ==>
         PassedOver(nodes, pods, budgets, opts.selfNamespace, n)
  }

  /** The gates of a candidate, in the fields of nodes, verdict and pods. */
  lemma CandidateExactly(nodes: map<string, NodeRec>, pods: seq<LivePod>, verdicts: map<string, Gate>, opts: Options, n: string)
    ensures Candidate(nodes, pods, verdicts, opts, n)
            <==> (n in nodes && nodes[n].pool in verdicts && verdicts[nodes[n].pool].actionable
                  && !HostsTool(pods, n, opts.selfNamespace)
                  && (forall m :: m in nodes && nodes[m].pool == nodes[n].pool ==> nodes[m].ready && !nodes[m].unschedulable)
                  && (forall m :: m in nodes && nodes[m].pool == nodes[n].pool && nodes[m].reapedAt.Some? && opts.cooldown > 0 ==>
                        nodes[m].reapedAt.value.At? && opts.now >= nodes[m].reapedAt.value.time + opts.cooldown)
                  && |set m | m in nodes && nodes[m].pool == nodes[n].pool| > verdicts[nodes[n].pool].minimumSafe)
  {
    hide HostsTool;
    if n in nodes {
      var pool := nodes[n].pool;
      assert InPool(nodes, n, pool);
      assert forall m :: InPool(nodes, m, pool) <==> m in nodes && nodes[m].pool == pool;
      if forall m :: InPool(nodes, m, pool) ==> nodes[m].Schedulable() {
        assert SchedulableIn(nodes, pool) == set m | m in nodes && nodes[m].pool == pool;
      }
    }
  }

  /** When the budgets stand in the way of evicting some of the pods. */
  lemma BlockedExactly(pods: seq<LivePod>, budgets: Budgets)
    ensures BudgetBlocked(pods, budgets)
            <==> (exists i :: 0 <= i < |pods| && pods[i].namespace in budgets
                              && (budgets[pods[i].namespace].None?
                                  || exists b :: b in budgets[pods[i].namespace].value && b.allowed <= 0 && b.selector.Some?
                                                 && b.selector.value.matchLabels != map[]
                                                 && forall k :: k in b.selector.value.matchLabels ==>
                                                      b.selector.value.matchLabels[k]
                                                      == if k in pods[i].labels then pods[i].labels[k] else ""))
  {
    forall p | p in pods
      ensures PodBlocked(p, budgets)
              <==> (p.namespace in budgets
                    && (budgets[p.namespace].None?
                        || exists b :: b in budgets[p.namespace].value && b.allowed <= 0 && b.selector.Some?
                                       && b.selector.value.matchLabels != map[]
                                       && forall k :: k in b.selector.value.matchLabels ==>
                                            b.selector.value.matchLabels[k] == if k in p.labels then p.labels[k] else ""))
    {
    }
    hide PodBlocked;
  }

  ghost predicate NothingToDrain(nodes: map<string, NodeRec>, pods: seq<LivePod>, verdicts: map<string, Gate>, opts: Options,
                                 budgets: Budgets) {
    || |set n | n in nodes && nodes[n].Schedulable()| < 2
    || forall n :: Candidate(nodes, pods, verdicts, opts, n) ==> PassedOver(nodes, pods, budgets, opts.selfNamespace, n)
  }

  /** The read-only middle of a pass: scan, candidates, simulation. */
  method ChooseTarget(nodes: map<string, NodeRec>, pods: seq<LivePod>, verdicts: map<string, Gate>, opts: Options,
                      budgets: Budgets) returns (target: Option<string>)
    ensures target.Some? ==> Chosen(nodes, pods, verdicts, opts, budgets, target.value)
    ensures target.None? ==> NothingToDrain(nodes, pods, verdicts, opts, budgets)
  {
    hide PassedOver;
    hide Picked;
    hide Candidate;
    hide LoadOf;
    Sorting.SubsetSize((set n | n in nodes && nodes[n].Schedulable()), nodes.Keys);
    if |nodes| < 2 {
      return None;
    }
    var loads := ScanPods(pods, nodes, opts.selfNamespace);
    var candidates, schedulable := FindCandidates(nodes, pods, loads, verdicts, opts);
    if schedulable < 2 || candidates == {} {
      return None;
    }
    forall n | n in candidates ensures n in nodes {
      CandidateIsNode(nodes, pods, verdicts, opts, n);
    }
    target := PickTarget(nodes, pods, loads, candidates, budgets, opts.selfNamespace);
    LoadsAreBound(nodes, pods, loads, opts.selfNamespace);
    hide Bound, Movers, RelocatablePods, HostsTool;
    forall n | Candidate(nodes, pods, verdicts, opts, n) ensures n in nodes {
      CandidateIsNode(nodes, pods, verdicts, opts, n);
    }
  }

  lemma CandidateIsNode(nodes: map<string, NodeRec>, pods: seq<LivePod>, verdicts: map<string, Gate>, opts: Options, n: string)
    requires Candidate(nodes, pods, verdicts, opts, n)
    ensures n in nodes && nodes[n].Schedulable() && nodes[n].pool in verdicts
  {
  }

  /** The chosen node as the pass reads it back. */
  function ReadBack(nodes: map<string, NodeRec>, t: string, faults: PassFaults): NodeRec
    requires t in nodes
  {
    if faults.targetEdit.Some? then faults.targetEdit.value else nodes[t]
  }

  /** The pass writes a cordon: live, with a target it can read, not cordoned meanwhile. */
  predicate Claims(nodes: map<string, NodeRec>, opts: Options, target: Option<string>, faults: PassFaults) {
    opts.live && target.Some? && target.value in nodes && !faults.getTarget && !faults.claim
    && !ReadBack(nodes, target.value, faults).unschedulable
  }

  /** The nodes after the pass, from those after its repair phase. */
  function AfterClaim(nodes: map<string, NodeRec>, opts: Options, target: Option<string>, faults: PassFaults): map<string, NodeRec> {
    if !opts.live || target.None? || target.value !in nodes then nodes
    else
      var t := target.value;
      var seen := ReadBack(nodes, t, faults);
      nodes[t := if Claims(nodes, opts, target, faults) then Claimed(seen, opts.run, opts.now) else seen]
  }

  /** Everything one pass does to the nodes, and why. */
  ghost predicate PassEffect(before: map<string, NodeRec>, after: map<string, NodeRec>, pods: seq<LivePod>,
                             verdicts: Option<map<string, Gate>>, opts: Options, halted: bool, faults: PassFaults,
                             target: Option<string>, cordoned: bool) {
    var repaired := Repaired(before, opts, faults.reap);
    if halted then after == before && target.None? && !cordoned
    else
      && after == AfterClaim(repaired, opts, target, faults)
      && (cordoned <==> Claims(repaired, opts, target, faults))
      && (target.None? ==> !Observed(verdicts, faults) || NothingToDrain(repaired, pods, verdicts.value, opts, faults.budgets))
      && (target.Some? ==> Observed(verdicts, faults) && Chosen(repaired, pods, verdicts.value, opts, faults.budgets, target.value))
  }

  /** The writing end of a live pass: read the target back, cordon it unless it is cordoned
      already, and evict. */
  method ClaimAndEvict(api: ApiServer, pods: seq<LivePod>, opts: Options, faults: PassFaults, target: string)
    returns (result: PassResult)
    requires api.Valid() && opts.live && target in api.nodes && api.nodes[target].Schedulable()
    modifies api`nodes
    ensures api.Valid() && !result.halted && result.target == Some(target)
    ensures api.nodes == AfterClaim(old(api.nodes), opts, Some(target), faults)
    ensures result.cordoned <==> Claims(old(api.nodes), opts, Some(target), faults)
    ensures result.cordoned ==>
              var pool := old(api.nodes)[target].pool;
              |SchedulableIn(api.nodes, pool)| == |SchedulableIn(old(api.nodes), pool)| - 1
    ensures result.attempted ==
              if !faults.getTarget && (ReadBack(old(api.nodes), target, faults).unschedulable || !faults.claim)
              then Movers(pods, target, opts.selfNamespace) else []
    ensures result.evicted + result.evictionErrors == |result.attempted|
    ensures result.evictionErrors == Refusals(result.attempted, faults.evictions)
  {
    hide LoadOf, RelocatablePods;
    result := NO_PASS.(target := Some(target));
    ghost var nodes := api.nodes;
    if faults.targetEdit.Some? {
      var written := api.Update(target, faults.targetEdit.value, false);
    }
    var node := api.Get(target, faults.getTarget);
    if node.None? {
      return;
    }
    if !node.value.unschedulable {
      var ok := api.ClaimCordon(target, node.value, opts.run, opts.now, faults.claim);
      if !ok {
        return;
      }
      ClaimLeavesRest(nodes, target, node.value, opts.run, opts.now);
      result := result.(cordoned := true);
    }
    hide SchedulableIn;
    LoadIsBound(pods, target, opts.selfNamespace);
    hide Bound, Movers, HostsTool;
    var moving := RelocatablePods(LoadOf(pods, target, opts.selfNamespace).pods);
    var evicted, errors := EvictAll(moving, faults.evictions);
    result := result.(attempted := moving, evicted := evicted, evictionErrors := errors);
  }

  /** A whole pass: halt check, reap, verdict gate, simulation, claim, eviction. */
  method NudgePods(api: ApiServer, pods: seq<LivePod>, verdicts: Option<map<string, Gate>>, opts: Options,
                   halt: HaltConfig, haltKey: string, faults: PassFaults) returns (result: PassResult)
    requires api.Valid()
    modifies api`nodes
    ensures api.Valid()
    ensures result.halted <==> opts.live && Halted(halt, haltKey)
    ensures opts.live && (halt.ReadError? || (halt.Data? && haltKey in halt.entries && halt.entries[haltKey] == "true")) ==>
              result.halted && api.nodes == old(api.nodes) && result.attempted == []
    ensures halt.Missing? || (halt.Data? && (haltKey !in halt.entries || halt.entries[haltKey] != "true")) ==> !result.halted
    ensures PassEffect(old(api.nodes), api.nodes, pods, verdicts, opts, result.halted, faults, result.target, result.cordoned)
    ensures result.halted || !opts.live ==> api.nodes == old(api.nodes)
    ensures result.cordoned ==>
              var before, t := Repaired(old(api.nodes), opts, faults.reap), result.target.value;
              && t in before && before[t].pool in verdicts.value
              && |SchedulableIn(api.nodes, before[t].pool)| >= verdicts.value[before[t].pool].minimumSafe
    ensures result.attempted ==
              if !result.halted && opts.live && result.target.Some? && !faults.getTarget
                 && ((if faults.targetEdit.Some? then faults.targetEdit.value.unschedulable
                      else Repaired(old(api.nodes), opts, faults.reap)[result.target.value].unschedulable)
                     || !faults.claim)
              then Movers(pods, result.target.value, opts.selfNamespace) else []
    ensures result.evicted + result.evictionErrors == |result.attempted|
    ensures result.evictionErrors == Refusals(result.attempted, faults.evictions)
  {
    hide LoadOf, ReapAll, RelocatablePods, NothingToDrain, Chosen;
    result := NO_PASS;
    if opts.live {
      var halted := CheckHalt(halt, haltKey);
      if halted {
        return result.(halted := true);
      }
    }
    ghost var start := api.nodes;
    var reaped := api.ReapStaleCordons(opts.live, opts.run, opts.ttl, opts.now, faults.reap);
    DryRunReapsNothing(start, opts, faults.reap);
    var nodes := api.nodes;
    if verdicts.None? || faults.listNodes || faults.listPods {
      return;
    }
    var target := ChooseTarget(nodes, pods, verdicts.value, opts, faults.budgets);
    if target.None? {
      return;
    }
    ChosenIsCandidate(nodes, pods, verdicts.value, opts, faults.budgets, target.value);
    if !opts.live {
      return result.(target := target);
    }
    result := ClaimAndEvict(api, pods, opts, faults, target.value);
  }

  lemma ChosenIsCandidate(nodes: map<string, NodeRec>, pods: seq<LivePod>, verdicts: map<string, Gate>, opts: Options,
                          budgets: Budgets, t: string)
    requires Chosen(nodes, pods, verdicts, opts, budgets, t)
    ensures t in nodes && nodes[t].Schedulable() && nodes[t].pool in verdicts
    ensures Drainable(nodes, t, verdicts[nodes[t].pool].minimumSafe, opts.cooldown, opts.now)
  {
  }

  lemma DryRunReapsNothing(nodes: map<string, NodeRec>, opts: Options, faults: Faults)
    ensures !opts.live ==> Repaired(nodes, opts, faults) == nodes
  {
  }

  /** A claim takes exactly one node out of its pool's schedulable set, whatever the node
      looked like when it was read back. */
  lemma ClaimLeavesRest(nodes: map<string, NodeRec>, t: string, seen: NodeRec, run: string, now: int)
    requires t in nodes && nodes[t].Schedulable()
    ensures var after := nodes[t := Claimed(seen, run, now)];
            |SchedulableIn(after, nodes[t].pool)| == |SchedulableIn(nodes, nodes[t].pool)| - 1
  {
    var after := nodes[t := Claimed(seen, run, now)];
    assert SchedulableIn(after, nodes[t].pool) == SchedulableIn(nodes, nodes[t].pool) - {t};
    assert t in SchedulableIn(nodes, nodes[t].pool);
  }

  // ----- what a pass means, in the fields of its inputs -----

  /** Under some placement of the node's movers on other schedulable nodes, none of these is
      asked for more CPU or memory than it has. */
  ghost predicate Rehoused(nodes: map<string, NodeRec>, pods: seq<LivePod>, selfNamespace: string, t: string, to: seq<string>) {
    var moving := Movers(pods, t, selfNamespace);
    && |to| == |moving|
    && (forall i :: 0 <= i < |to| ==> to[i] in nodes && to[i] != t && nodes[to[i]].ready && !nodes[to[i]].unschedulable)
    && forall i :: 0 <= i < |to| ==>
         && Bound(pods, to[i]).cpu + Received(moving, to, to[i]).cpu <= nodes[to[i]].allocCPU
         && Bound(pods, to[i]).mem + Received(moving, to, to[i]).mem <= nodes[to[i]].allocMem
  }

  /** The requests of the pods sent to one node. */
  function Received(moving: seq<LivePod>, to: seq<string>, n: string): Room
    requires |to| == |moving|
  {
    if moving == [] then Room(0, 0)
    else
      var rest := Received(moving[1..], to[1..], n);
      if to[0] == n then Room(rest.cpu + moving[0].cpu, rest.mem + moving[0].mem) else rest
  }

  lemma {:induction false} ReceivedSnoc(moving: seq<LivePod>, to: seq<string>, p: LivePod, dest: string, n: string)
    requires |to| == |moving|
    ensures Received(moving + [p], to + [dest], n)
            == (var all := Received(moving, to, n); if dest == n then Room(all.cpu + p.cpu, all.mem + p.mem) else all)
  {
    if moving == [] {
      assert [] + [p] == [p] && [] + [dest] == [dest] && [p][1..] == [] && [dest][1..] == [];
    } else {
      ReceivedSnoc(moving[1..], to[1..], p, dest, n);
      assert (moving + [p])[1..] == moving[1..] + [p] && (to + [dest])[1..] == to[1..] + [dest];
    }
  }

  lemma {:induction false} MovedIsReceived(moving: seq<LivePod>, to: seq<string>, n: string)
    requires |to| == |moving|
    ensures Room(MovedCPU(moving, to, n), MovedMem(moving, to, n)) == Received(moving, to, n)
  {
    if moving == [] {
    } else {
      var k := |moving| - 1;
      assert moving == moving[..k] + [moving[k]] && to == to[..k] + [to[k]];
      MovedIsReceived(moving[..k], to[..k], n);
      ReceivedSnoc(moving[..k], to[..k], moving[k], to[k], n);
      hide Received;
    }
  }

  lemma AbsorbedIsRehoused(nodes: map<string, NodeRec>, pods: seq<LivePod>, selfNamespace: string, t: string, to: seq<string>)
    ensures AbsorbedBy(nodes, pods, selfNamespace, t, to) <==> Rehoused(nodes, pods, selfNamespace, t, to)
  {
    var moving := Movers(pods, t, selfNamespace);
    hide Movers, Bound, MovedCPU, MovedMem, Received;
    if |to| == |moving| {
      forall i | 0 <= i < |to|
        ensures Room(MovedCPU(moving, to, to[i]), MovedMem(moving, to, to[i])) == Received(moving, to, to[i])
      {
        MovedIsReceived(moving, to, to[i]);
      }
      assert forall n :: n in to <==> exists i :: 0 <= i < |to| && to[i] == n;
    }
  }

  /** The gates that make a node a drain source, as its pool, its verdict and its pods show them. */
  ghost predicate Source(nodes: map<string, NodeRec>, pods: seq<LivePod>, verdicts: map<string, Gate>, opts: Options, n: string) {
    && n in nodes && nodes[n].pool in verdicts && verdicts[nodes[n].pool].actionable
    && !HostsTool(pods, n, opts.selfNamespace)
    && (forall m :: m in nodes && nodes[m].pool == nodes[n].pool ==> nodes[m].ready && !nodes[m].unschedulable)
    && (forall m :: m in nodes && nodes[m].pool == nodes[n].pool && nodes[m].reapedAt.Some? && opts.cooldown > 0 ==>
          nodes[m].reapedAt.value.At? && opts.now >= nodes[m].reapedAt.value.time + opts.cooldown)
    && |set m | m in nodes && nodes[m].pool == nodes[n].pool| > verdicts[nodes[n].pool].minimumSafe
  }

  /** A budget list of one of the pods is unreadable, or holds an exhausted budget whose listed
      labels the pod has. */
  ghost predicate Refused(pods: seq<LivePod>, budgets: Budgets) {
    exists i :: 0 <= i < |pods| && pods[i].namespace in budgets
                && (budgets[pods[i].namespace].None?
                    || exists b :: b in budgets[pods[i].namespace].value && b.allowed <= 0 && b.selector.Some?
                                   && b.selector.value.matchLabels != map[]
                                   && forall k :: k in b.selector.value.matchLabels ==>
                                        b.selector.value.matchLabels[k] == if k in pods[i].labels then pods[i].labels[k] else "")
  }

  /** The grounds for passing a node over, of which the last is a dead end of the packing. */
  ghost predicate Unsuited(nodes: map<string, NodeRec>, pods: seq<LivePod>, budgets: Budgets, selfNamespace: string, n: string) {
    Movers(pods, n, selfNamespace) == [] || Refused(Movers(pods, n, selfNamespace), budgets) || Stuck(nodes, pods, selfNamespace, n)
  }

  /** A node is drained only with all gates passed, pods to move, no budget in the way and
      room elsewhere, and with every less loaded source unsuited. */
  lemma ChosenMeans(nodes: map<string, NodeRec>, pods: seq<LivePod>, verdicts: map<string, Gate>, opts: Options, budgets: Budgets, t: string)
    requires Chosen(nodes, pods, verdicts, opts, budgets, t)
    ensures Source(nodes, pods, verdicts, opts, t)
    ensures Movers(pods, t, opts.selfNamespace) != [] && !Refused(Movers(pods, t, opts.selfNamespace), budgets)
    ensures exists to :: Rehoused(nodes, pods, opts.selfNamespace, t, to)
    ensures forall n :: Source(nodes, pods, verdicts, opts, n)
                        && (Bound(pods, n).cpu < Bound(pods, t).cpu
                            || (Bound(pods, n).cpu == Bound(pods, t).cpu && Bound(pods, n).mem < Bound(pods, t).mem)) ==>
              Unsuited(nodes, pods, budgets, opts.selfNamespace, n)
  {
    hide Bound, Movers, AbsorbedBy, Rehoused, Stuck;
    SourcesAre(nodes, pods, verdicts, opts);
    RefusalsAre(budgets);
    hide Candidate, Source, BudgetBlocked, Refused;
    var to :| AbsorbedBy(nodes, pods, opts.selfNamespace, t, to);
    AbsorbedIsRehoused(nodes, pods, opts.selfNamespace, t, to);
  }

  lemma SourcesAre(nodes: map<string, NodeRec>, pods: seq<LivePod>, verdicts: map<string, Gate>, opts: Options)
    ensures forall n :: Candidate(nodes, pods, verdicts, opts, n) <==> Source(nodes, pods, verdicts, opts, n)
  {
    forall n ensures Candidate(nodes, pods, verdicts, opts, n) <==> Source(nodes, pods, verdicts, opts, n) {
      CandidateExactly(nodes, pods, verdicts, opts, n);
      hide Candidate, HostsTool;
    }
  }

  lemma RefusalsAre(budgets: Budgets)
    ensures forall pods :: BudgetBlocked(pods, budgets) <==> Refused(pods, budgets)
  {
    forall pods ensures BudgetBlocked(pods, budgets) <==> Refused(pods, budgets) {
      BlockedExactly(pods, budgets);
      hide BudgetBlocked;
    }
  }

  /** No node is drained only with fewer than two schedulable ones or every source unsuited. */
  lemma NothingMeans(nodes: map<string, NodeRec>, pods: seq<LivePod>, verdicts: map<string, Gate>, opts: Options, budgets: Budgets)
    requires NothingToDrain(nodes, pods, verdicts, opts, budgets)
    ensures || |set n | n in nodes && nodes[n].ready && !nodes[n].unschedulable| < 2
            || forall n :: Source(nodes, pods, verdicts, opts, n) ==> Unsuited(nodes, pods, budgets, opts.selfNamespace, n)
  {
    hide Bound, Movers, Stuck;
    SourcesAre(nodes, pods, verdicts, opts);
    RefusalsAre(budgets);
    assert (set n | n in nodes && nodes[n].Schedulable()) == set n | n in nodes && nodes[n].ready && !nodes[n].unschedulable;
    hide Candidate, Source, BudgetBlocked, Refused;
  }

  /** What a pass that was not halted wrote, node by node: nothing but its repairs, unless it
      could read its target back, found it uncordoned, and the write succeeded. */
  lemma PassMeans(before: map<string, NodeRec>, after: map<string, NodeRec>, pods: seq<LivePod>, verdicts: Option<map<string, Gate>>,
                  opts: Options, faults: PassFaults, target: Option<string>, cordoned: bool)
    requires PassEffect(before, after, pods, verdicts, opts, false, faults, target, cordoned)
    ensures var repaired := ReapAll(before, opts.live, opts.run, opts.ttl, opts.now, faults.reap);
            && after.Keys == before.Keys
            && (forall n :: n in before && !(opts.live && target == Some(n)) ==> after[n] == repaired[n])
            && (target.Some? ==> verdicts.Some? && !faults.listNodes && !faults.listPods && target.value in before
                                 && Chosen(repaired, pods, verdicts.value, opts, faults.budgets, target.value))
            && (target.None? ==> verdicts.None? || faults.listNodes || faults.listPods
                                 || NothingToDrain(repaired, pods, verdicts.value, opts, faults.budgets))
            && (opts.live && target.Some? ==>
                  var t := target.value;
                  var seen := if faults.targetEdit.Some? then faults.targetEdit.value else repaired[t];
                  && (cordoned <==> !faults.getTarget && !seen.unschedulable && !faults.claim)
                  && (if cordoned then after[t].unschedulable && after[t].byRun == Some(opts.run) && after[t].prior == Some("false")
                                       && after[t].cordonedAt == Some(At(opts.now - opts.now % 1_000_000_000)) && after[t].reapedAt == None
                      else after[t] == seen))
            && (!opts.live || target.None? ==> !cordoned)
  {
    hide ReapAll, NothingToDrain, Chosen;
    if target.Some? {
      ChosenIsCandidate(ReapAll(before, opts.live, opts.run, opts.ttl, opts.now, faults.reap), pods, verdicts.value, opts, faults.budgets, target.value);
      var t := target.value;
      var repaired := ReapAll(before, opts.live, opts.run, opts.ttl, opts.now, faults.reap);
      ClaimedExactly(ReadBack(repaired, t, faults), opts.run, opts.now);
    }
  }
}
