/** What a pool's verdict promises in observed demand, stated of the snapshot's own nodes,
    pods and readings. */
module DemandProofs {
  import opened Basics
  import opened Packer
  import opened PackingProofs
  import opened Usage
  import opened Capacity
  import opened VerdictProofs
  import opened CapacityEngine

  // ----- one pod's demand -----

  /** The fidelities that span time. */
  ghost predicate SpansTime(fidelity: string) {
    fidelity in {"historical_p95", "recommender", "sampled_rollup"}
  }

  function UsagePercent(cfg: Config): int {
    100 + if cfg.usageHeadroomPercent > 0 then cfg.usageHeadroomPercent else 20
  }

  function Larger(a: int, b: int): int {
    if a >= b then a else b
  }

  /** What a pod needs: its request or, where usage was observed over time, that usage with
      the usage headroom, whichever is more. */
  ghost function Demand(p: ModelPod, usage: UsageSet, cfg: Config): Footprint {
    var key := p.namespace + "/" + p.name;
    if SpansTime(usage.fidelity) && key in usage.pods then
      Footprint(Larger(p.reqCPU, usage.pods[key].cpu * UsagePercent(cfg) / 100),
                Larger(p.reqMem, usage.pods[key].mem * UsagePercent(cfg) / 100), 1)
    else Footprint(p.reqCPU, p.reqMem, 1)
  }

  ghost predicate ReadingsAreNatural(usage: UsageSet) {
    forall key :: key in usage.pods ==> usage.pods[key].cpu >= 0 && usage.pods[key].mem >= 0
  }

  lemma ScaledIs(v: int, percent: int)
    requires v >= 0 && percent >= 0
    ensures Scale(v, percent) == v * (100 + percent) / 100
  {
    ProductNatural(v, percent);
    var extra := v * percent;
    assert v * (100 + percent) == 100 * v + extra;
    assert Max(percent, 0) == percent;
  }

  lemma ProductNatural(a: int, b: int)
    requires a >= 0 && b >= 0
    ensures a * b >= 0
  {
  }

  /** The verdict sizes every pod by its demand. */
  lemma SizedByDemand(p: ModelPod, usage: UsageSet, cfg: Config)
    requires ReadingsAreNatural(usage) && p.reqCPU >= 0 && p.reqMem >= 0
    ensures Sized(p, usage, cfg) == (Demand(p, usage, cfg).cpu, Demand(p, usage, cfg).mem)
    ensures PinnedCost(p, usage, cfg) == Demand(p, usage, cfg)
  {
    var key := p.namespace + "/" + p.name;
    var reading := if key in usage.pods then usage.pods[key] else Reading(0, 0);
    assert usage.Get(PodKey(p)) == reading && 100 + cfg.UsageHeadroom() == UsagePercent(cfg);
    assert Actionable(usage.fidelity) <==> SpansTime(usage.fidelity);
    ScaledIs(reading.cpu, cfg.UsageHeadroom());
    ScaledIs(reading.mem, cfg.UsageHeadroom());
    EffectiveIs(p.reqCPU, p.reqMem, reading, usage.fidelity, cfg.UsageHeadroom());
    hide Scale, Effective;
  }

  lemma EffectiveIs(reqCPU: int, reqMem: int, reading: Reading, fidelity: string, percent: int)
    ensures Effective(reqCPU, reqMem, reading, fidelity, percent)
            == if Actionable(fidelity) then (Max(reqCPU, Scale(reading.cpu, percent)), Max(reqMem, Scale(reading.mem, percent)))
               else (reqCPU, reqMem)
  {
  }

  /** Even a pod without a natural request is sized by no less than its demand. */
  lemma DemandBelowSized(p: ModelPod, usage: UsageSet, cfg: Config)
    requires ReadingsAreNatural(usage)
    ensures Demand(p, usage, cfg).cpu <= Sized(p, usage, cfg).0 && Demand(p, usage, cfg).mem <= Sized(p, usage, cfg).1
    ensures Demand(p, usage, cfg).pods == 1
  {
    var key := p.namespace + "/" + p.name;
    var reading := if key in usage.pods then usage.pods[key] else Reading(0, 0);
    assert usage.Get(PodKey(p)) == reading && 100 + cfg.UsageHeadroom() == UsagePercent(cfg);
    assert Actionable(usage.fidelity) <==> SpansTime(usage.fidelity);
    ScaledIs(reading.cpu, cfg.UsageHeadroom());
    ScaledIs(reading.mem, cfg.UsageHeadroom());
    EffectiveIs(p.reqCPU, p.reqMem, reading, usage.fidelity, cfg.UsageHeadroom());
    hide Scale, Effective;
  }

  // ----- sums of footprints -----

  ghost function Totals(fs: seq<Footprint>): Footprint {
    if fs == [] then Footprint(0, 0, 0)
    else Footprint(fs[0].cpu + Totals(fs[1..]).cpu, fs[0].mem + Totals(fs[1..]).mem, fs[0].pods + Totals(fs[1..]).pods)
  }

  lemma {:induction false} TotalsSnoc(fs: seq<Footprint>, f: Footprint)
    ensures Totals(fs + [f]) == Totals(fs).Plus(f)
  {
    if fs == [] {
      assert [] + [f] == [f] && [f][1..] == [];
    } else {
      TotalsSnoc(fs[1..], f);
      assert (fs + [f])[1..] == fs[1..] + [f];
    }
  }

  // ----- what a node carries -----

  /** The pod runs somewhere and is not over. */
  ghost predicate Running(p: ModelPod) {
    p.phase != "Succeeded" && p.phase != "Failed" && p.nodeName != ""
  }

  ghost predicate InPool(nodes: seq<ModelNode>, name: string) {
    exists i :: 0 <= i < |nodes| && nodes[i].name == name
  }

  /** What a pod that does not move needs on the node `name`: a DaemonSet pod its request, a
      pod without a controller its demand. */
  ghost function Staying(p: ModelPod, name: string, usage: UsageSet, cfg: Config): Footprint {
    if !Running(p) || p.nodeName != name || p.owner.Controller? then Footprint(0, 0, 0)
    else if p.owner.DaemonSet? then Footprint(p.reqCPU, p.reqMem, 1)
    else Demand(p, usage, cfg)
  }

  /** What a pod of the pool that does move needs on the node it is assigned to. */
  ghost function Arriving(p: ModelPod, nodes: seq<ModelNode>, to: map<string, string>, name: string, usage: UsageSet, cfg: Config): Footprint {
    var key := p.namespace + "/" + p.name;
    if Running(p) && InPool(nodes, p.nodeName) && p.owner.Controller? && key in to && to[key] == name then Demand(p, usage, cfg)
    else Footprint(0, 0, 0)
  }

  ghost function StayingAll(pods: seq<ModelPod>, name: string, usage: UsageSet, cfg: Config): seq<Footprint> {
    seq(|pods|, i requires 0 <= i < |pods| => Staying(pods[i], name, usage, cfg))
  }

  ghost function ArrivingAll(pods: seq<ModelPod>, nodes: seq<ModelNode>, to: map<string, string>, name: string, usage: UsageSet, cfg: Config)
    : seq<Footprint>
  {
    seq(|pods|, i requires 0 <= i < |pods| => Arriving(pods[i], nodes, to, name, usage, cfg))
  }

  /** What node `name` of the pool carries once the movable pods are where they are assigned. */
  ghost function Burden(pods: seq<ModelPod>, nodes: seq<ModelNode>, to: map<string, string>, name: string, usage: UsageSet, cfg: Config): Footprint {
    Totals(StayingAll(pods, name, usage, cfg)).Plus(Totals(ArrivingAll(pods, nodes, to, name, usage, cfg)))
  }

  // ----- the residents -----

  lemma GroupSnoc(pods: seq<ModelPod>, p: ModelPod)
    ensures GroupPods(pods + [p])
            == if Running(p) then GroupPods(pods)[p.nodeName := PodsOn(GroupPods(pods), p.nodeName) + [p]] else GroupPods(pods)
  {
    assert (pods + [p])[..|pods|] == pods;
  }

  lemma StayingOne(p: ModelPod, usage: UsageSet, cfg: Config)
    requires ReadingsAreNatural(usage) && Running(p)
    ensures Below(Staying(p, p.nodeName, usage, cfg), Extra(p, usage, cfg))
  {
    DemandBelowSized(p, usage, cfg);
    if p.owner.Controller? {
      hide *;
      assert Below(Footprint(0, 0, 0), NOTHING.Plus(NOTHING)) by {
        NothingIsLeast();
      }
      StayingNothing(p, usage, cfg);
    } else {
      hide Demand, Sized;
    }
  }

  lemma NothingIsLeast()
    ensures Below(Footprint(0, 0, 0), NOTHING.Plus(NOTHING))
  {
  }

  lemma StayingNothing(p: ModelPod, usage: UsageSet, cfg: Config)
    requires p.owner.Controller?
    ensures Staying(p, p.nodeName, usage, cfg) == Footprint(0, 0, 0) && Extra(p, usage, cfg) == NOTHING.Plus(NOTHING)
  {
    hide Demand, PinnedCost;
  }

  lemma BelowAdds(a: Footprint, b: Footprint, c: Footprint, d: Footprint)
    requires Below(a, b) && Below(c, d)
    ensures Below(a.Plus(c), b.Plus(d))
  {
  }

  ghost function Charge(pods: seq<ModelPod>, usage: UsageSet, cfg: Config): Footprint {
    DaemonOn(pods).Plus(FootprintOf(AddPinned(map[], "", pods, usage, cfg), ""))
  }

  /** What one more pod adds to the fixed charges of a node. */
  function Extra(p: ModelPod, usage: UsageSet, cfg: Config): Footprint {
    (if p.Daemon() then Footprint(p.reqCPU, p.reqMem, 1) else NOTHING).Plus(if p.Pinned() then PinnedCost(p, usage, cfg) else NOTHING)
  }

  lemma ChargedSnoc(m: map<string, Footprint>, name: string, pods: seq<ModelPod>, p: ModelPod, usage: UsageSet, cfg: Config)
    ensures DaemonOn(pods + [p]).Plus(FootprintOf(AddPinned(m, name, pods + [p], usage, cfg), name))
            == DaemonOn(pods).Plus(FootprintOf(AddPinned(m, name, pods, usage, cfg), name)).Plus(Extra(p, usage, cfg))
  {
    assert (pods + [p])[..|pods|] == pods;
    hide PinnedCost;
  }

  lemma ChargeSnoc(pods: seq<ModelPod>, p: ModelPod, usage: UsageSet, cfg: Config)
    ensures Charge(pods + [p], usage, cfg) == Charge(pods, usage, cfg).Plus(Extra(p, usage, cfg))
  {
    ChargedSnoc(map[], "", pods, p, usage, cfg);
    hide Extra, DaemonOn, AddPinned, FootprintOf;
  }

  /** The DaemonSet footprint and the pinned charge of a node cover what its residents need. */
  lemma {:induction false} StayingBelowCharge(pods: seq<ModelPod>, name: string, usage: UsageSet, cfg: Config)
    requires ReadingsAreNatural(usage)
    ensures Below(Totals(StayingAll(pods, name, usage, cfg)), Charge(PodsOn(GroupPods(pods), name), usage, cfg))
  {
    if pods == [] {
    } else {
      var n := |pods| - 1;
      var front, p := pods[..n], pods[n];
      assert pods == front + [p];
      StayingBelowCharge(front, name, usage, cfg);
      GroupSnoc(front, p);
      var before, after := StayingAll(front, name, usage, cfg), StayingAll(pods, name, usage, cfg);
      assert after == before + [Staying(p, name, usage, cfg)];
      hide StayingAll;
      TotalsSnoc(before, Staying(p, name, usage, cfg));
      var on := PodsOn(GroupPods(front), name);
      hide GroupPods, Totals, Charge;
      if Running(p) && p.nodeName == name {
        ChargeSnoc(on, p, usage, cfg);
        StayingOne(p, usage, cfg);
        hide Staying, Running, Extra, Below;
        BelowAdds(Totals(before), Charge(on, usage, cfg), Staying(p, name, usage, cfg), Extra(p, usage, cfg));
      } else {
        assert Staying(p, name, usage, cfg) == Footprint(0, 0, 0);
      }
    }
  }

  /** The charge does not depend on where the pinned map starts. */
  lemma {:induction false} ChargeAnywhere(m: map<string, Footprint>, name: string, pods: seq<ModelPod>, usage: UsageSet, cfg: Config)
    ensures DaemonOn(pods).Plus(FootprintOf(AddPinned(m, name, pods, usage, cfg), name))
            == Charge(pods, usage, cfg).Plus(FootprintOf(m, name))
  {
    if pods == [] {
    } else {
      var n := |pods| - 1;
      assert pods == pods[..n] + [pods[n]];
      ChargeAnywhere(m, name, pods[..n], usage, cfg);
      ChargedSnoc(m, name, pods[..n], pods[n], usage, cfg);
      ChargeSnoc(pods[..n], pods[n], usage, cfg);
      hide Extra, Charge, DaemonOn, AddPinned, FootprintOf;
    }
  }

  // ----- the arrivals -----

  /** What one pod adds where it is assigned. */
  ghost function Share(p: ModelPod, to: map<string, string>, name: string, usage: UsageSet, cfg: Config): Footprint {
    if p.owner.Controller? && AssignedTo(to, PodKey(p), name) then Demand(p, usage, cfg) else NOTHING
  }

  ghost function Arrived(pods: seq<ModelPod>, to: map<string, string>, name: string, usage: UsageSet, cfg: Config): Footprint {
    if pods == [] then NOTHING
    else
      var p := pods[|pods| - 1];
      Arrived(pods[..|pods| - 1], to, name, usage, cfg).Plus(Share(p, to, name, usage, cfg))
  }

  /** The arrivals of a pool, node by node. */
  ghost function ArrivedFrom(nodes: seq<ModelNode>, byNode: PodsByNode, to: map<string, string>, name: string, usage: UsageSet, cfg: Config): Footprint {
    if nodes == [] then NOTHING
    else
      ArrivedFrom(nodes[..|nodes| - 1], byNode, to, name, usage, cfg)
      .Plus(Arrived(PodsOn(byNode, nodes[|nodes| - 1].name), to, name, usage, cfg))
  }

  lemma ArrivedSnoc(pods: seq<ModelPod>, p: ModelPod, to: map<string, string>, name: string, usage: UsageSet, cfg: Config)
    ensures Arrived(pods + [p], to, name, usage, cfg)
            == Arrived(pods, to, name, usage, cfg).Plus(Share(p, to, name, usage, cfg))
  {
    assert (pods + [p])[..|pods|] == pods;
    hide Share;
  }

  lemma InPoolSnoc(nodes: seq<ModelNode>, name: string)
    requires nodes != []
    ensures InPool(nodes, name) <==> InPool(nodes[..|nodes| - 1], name) || nodes[|nodes| - 1].name == name
  {
    var n := |nodes| - 1;
    if i :| 0 <= i < n && nodes[..n][i].name == name {
      assert nodes[i].name == name;
    }
    assert forall i :: 0 <= i < n ==> nodes[..n][i] == nodes[i];
  }

  /** One more running pod arrives once, from its own node. */
  lemma {:induction false} ArrivedGrows(nodes: seq<ModelNode>, byNode: PodsByNode, p: ModelPod, to: map<string, string>, name: string,
                                        usage: UsageSet, cfg: Config)
    requires DistinctNames(nodes)
    ensures var grown := byNode[p.nodeName := PodsOn(byNode, p.nodeName) + [p]];
            ArrivedFrom(nodes, grown, to, name, usage, cfg)
            == ArrivedFrom(nodes, byNode, to, name, usage, cfg).Plus(
                 if InPool(nodes, p.nodeName) then Share(p, to, name, usage, cfg) else NOTHING)
  {
    hide *;
    if nodes == [] {
      NobodyArrives(nodes, byNode, to, name, usage, cfg);
      NobodyArrives(nodes, byNode[p.nodeName := PodsOn(byNode, p.nodeName) + [p]], to, name, usage, cfg);
      EmptyPool(nodes, p.nodeName);
      NothingAdds();
    } else {
      var n := |nodes| - 1;
      var grown := byNode[p.nodeName := PodsOn(byNode, p.nodeName) + [p]];
      LastIsNew(nodes);
      ArrivedGrows(nodes[..n], byNode, p, to, name, usage, cfg);
      InPoolSnoc(nodes, p.nodeName);
      GrownOn(byNode, nodes[n].name, p, to, name, usage, cfg);
      ArrivedLast(nodes, byNode, to, name, usage, cfg);
      ArrivedLast(nodes, grown, to, name, usage, cfg);
      AddOnce(ArrivedFrom(nodes[..n], byNode, to, name, usage, cfg), Arrived(PodsOn(byNode, nodes[n].name), to, name, usage, cfg),
              Share(p, to, name, usage, cfg), InPool(nodes[..n], p.nodeName), nodes[n].name == p.nodeName);
    }
  }

  lemma LastIsNew(nodes: seq<ModelNode>)
    requires DistinctNames(nodes) && nodes != []
    ensures DistinctNames(nodes[..|nodes| - 1]) && !InPool(nodes[..|nodes| - 1], nodes[|nodes| - 1].name)
  {
  }

  lemma ArrivedLast(nodes: seq<ModelNode>, byNode: PodsByNode, to: map<string, string>, name: string, usage: UsageSet, cfg: Config)
    requires nodes != []
    ensures ArrivedFrom(nodes, byNode, to, name, usage, cfg)
            == ArrivedFrom(nodes[..|nodes| - 1], byNode, to, name, usage, cfg)
               .Plus(Arrived(PodsOn(byNode, nodes[|nodes| - 1].name), to, name, usage, cfg))
  {
  }

  lemma AddOnce(a: Footprint, b: Footprint, x: Footprint, inA: bool, inB: bool)
    requires !(inA && inB)
    ensures a.Plus(if inA then x else NOTHING).Plus(b.Plus(if inB then x else NOTHING))
            == a.Plus(b).Plus(if inA || inB then x else NOTHING)
  {
  }

  lemma GrownOn(byNode: PodsByNode, host: string, p: ModelPod, to: map<string, string>, name: string, usage: UsageSet, cfg: Config)
    ensures var grown := byNode[p.nodeName := PodsOn(byNode, p.nodeName) + [p]];
            Arrived(PodsOn(grown, host), to, name, usage, cfg)
            == Arrived(PodsOn(byNode, host), to, name, usage, cfg).Plus(
                 if host == p.nodeName then Share(p, to, name, usage, cfg) else NOTHING)
  {
    hide Arrived, Share;
    ArrivedSnoc(PodsOn(byNode, p.nodeName), p, to, name, usage, cfg);
  }

  lemma {:induction false} ArrivingIsArrived(pods: seq<ModelPod>, nodes: seq<ModelNode>, to: map<string, string>, name: string,
                                             usage: UsageSet, cfg: Config)
    requires DistinctNames(nodes)
    ensures Totals(ArrivingAll(pods, nodes, to, name, usage, cfg)) == ArrivedFrom(nodes, GroupPods(pods), to, name, usage, cfg)
  {
    if pods == [] {
      NobodyRuns(nodes, to, name, usage, cfg);
    } else {
      var n := |pods| - 1;
      var front, p := pods[..n], pods[n];
      assert pods == front + [p];
      ArrivingIsArrived(front, nodes, to, name, usage, cfg);
      GroupSnoc(front, p);
      var before, after := ArrivingAll(front, nodes, to, name, usage, cfg), ArrivingAll(pods, nodes, to, name, usage, cfg);
      assert after == before + [Arriving(p, nodes, to, name, usage, cfg)];
      TotalsSnoc(before, Arriving(p, nodes, to, name, usage, cfg));
      hide ArrivingAll, GroupPods, Totals, ArrivedFrom, Demand, DistinctNames, InPool;
      ArrivedGrows(nodes, GroupPods(front), p, to, name, usage, cfg);
    }
  }

  lemma NobodyArrives(nodes: seq<ModelNode>, byNode: PodsByNode, to: map<string, string>, name: string, usage: UsageSet, cfg: Config)
    requires nodes == []
    ensures ArrivedFrom(nodes, byNode, to, name, usage, cfg) == NOTHING
  {
  }

  lemma EmptyPool(nodes: seq<ModelNode>, name: string)
    requires nodes == []
    ensures !InPool(nodes, name)
  {
  }

  lemma NothingAdds()
    ensures NOTHING.Plus(NOTHING) == NOTHING
  {
  }

  lemma {:induction false} NobodyRuns(nodes: seq<ModelNode>, to: map<string, string>, name: string, usage: UsageSet, cfg: Config)
    ensures ArrivedFrom(nodes, map[], to, name, usage, cfg) == NOTHING
  {
    if nodes == [] {
    } else {
      NobodyRuns(nodes[..|nodes| - 1], to, name, usage, cfg);
    }
  }

  /** At most, with as many pods. */
  ghost predicate Within(a: Footprint, b: Footprint) {
    Below(a, b) && a.pods == b.pods
  }

  lemma WithinAdds(a: Footprint, b: Footprint, c: Footprint, d: Footprint)
    requires Within(a, b) && Within(c, d)
    ensures Within(a.Plus(c), b.Plus(d))
  {
  }

  lemma NothingWithin()
    ensures Within(NOTHING, NOTHING)
  {
  }

  lemma ShareWithinCost(p: ModelPod, to: map<string, string>, name: string, usage: UsageSet, cfg: Config)
    requires ReadingsAreNatural(usage) && p.owner.Controller?
    ensures Within(Share(p, to, name, usage, cfg), SimCost(SimPod(p, usage, cfg), to, name))
  {
    DemandBelowSized(p, usage, cfg);
    assert Key(SimPod(p, usage, cfg)) == PodKey(p);
    hide Demand, Sized, Key, PodKey;
  }

  lemma ShareOfOthers(p: ModelPod, to: map<string, string>, name: string, usage: UsageSet, cfg: Config)
    requires !p.owner.Controller?
    ensures Share(p, to, name, usage, cfg) == NOTHING
  {
  }

  lemma SimLoadSnoc(pods: seq<Pod>, p: Pod, to: map<string, string>, name: string)
    ensures SimLoad(pods + [p], to, name) == SimLoad(pods, to, name).Plus(SimCost(p, to, name))
  {
    assert (pods + [p])[..|pods|] == pods;
  }

  lemma {:induction false} SimLoadJoin(a: seq<Pod>, b: seq<Pod>, to: map<string, string>, name: string)
    ensures SimLoad(a + b, to, name) == SimLoad(a, to, name).Plus(SimLoad(b, to, name))
  {
    if b == [] {
      assert a + b == a;
    } else {
      var n := |b| - 1;
      assert a + b == (a + b[..n]) + [b[n]];
      SimLoadJoin(a, b[..n], to, name);
      SimLoadSnoc(a + b[..n], b[n], to, name);
      hide SimCost;
    }
  }

  ghost function SimOn(pods: seq<ModelPod>, to: map<string, string>, name: string, usage: UsageSet, cfg: Config): Footprint {
    SimLoad(SimPods(MovableOn(pods), usage, cfg), to, name)
  }

  lemma SimOnSnoc(pods: seq<ModelPod>, p: ModelPod, to: map<string, string>, name: string, usage: UsageSet, cfg: Config)
    ensures SimOn(pods + [p], to, name, usage, cfg)
            == SimOn(pods, to, name, usage, cfg).Plus(if p.owner.Controller? then SimCost(SimPod(p, usage, cfg), to, name) else NOTHING)
  {
    var sims := SimPods(MovableOn(pods), usage, cfg);
    hide SimPod, SimPods, MovableOn, SimLoad, SimCost;
    MovableSnoc(pods, p, usage, cfg);
    SimLoadSnoc(sims, SimPod(p, usage, cfg), to, name);
  }

  lemma MovableSnoc(pods: seq<ModelPod>, p: ModelPod, usage: UsageSet, cfg: Config)
    ensures var sims := SimPods(MovableOn(pods), usage, cfg);
            SimPods(MovableOn(pods + [p]), usage, cfg) == if p.owner.Controller? then sims + [SimPod(p, usage, cfg)] else sims
  {
    assert (pods + [p])[..|pods|] == pods;
    hide SimPod;
  }

  lemma {:induction false} ArrivedWithinSim(pods: seq<ModelPod>, to: map<string, string>, name: string, usage: UsageSet, cfg: Config)
    requires ReadingsAreNatural(usage)
    ensures Within(Arrived(pods, to, name, usage, cfg), SimOn(pods, to, name, usage, cfg))
  {
    if pods == [] {
    } else {
      var n := |pods| - 1;
      var front, p := pods[..n], pods[n];
      assert pods == front + [p];
      var cost := if p.owner.Controller? then SimCost(SimPod(p, usage, cfg), to, name) else NOTHING;
      hide *;
      ArrivedWithinSim(front, to, name, usage, cfg);
      ArrivedSnoc(front, p, to, name, usage, cfg);
      SimOnSnoc(front, p, to, name, usage, cfg);
      if p.owner.Controller? {
        ShareWithinCost(p, to, name, usage, cfg);
      } else {
        ShareOfOthers(p, to, name, usage, cfg);
        NothingWithin();
      }
      WithinAdds(Arrived(front, to, name, usage, cfg), SimOn(front, to, name, usage, cfg), Share(p, to, name, usage, cfg), cost);
    }
  }

  ghost function SimFrom(nodes: seq<ModelNode>, byNode: PodsByNode, to: map<string, string>, name: string, usage: UsageSet, cfg: Config): Footprint {
    SimLoad(SimPods(Movable(nodes, byNode), usage, cfg), to, name)
  }

  lemma SimFromLast(nodes: seq<ModelNode>, byNode: PodsByNode, to: map<string, string>, name: string, usage: UsageSet, cfg: Config)
    requires nodes != []
    ensures SimFrom(nodes, byNode, to, name, usage, cfg)
            == SimFrom(nodes[..|nodes| - 1], byNode, to, name, usage, cfg)
               .Plus(SimOn(PodsOn(byNode, nodes[|nodes| - 1].name), to, name, usage, cfg))
  {
    var n := |nodes| - 1;
    var front, on := Movable(nodes[..n], byNode), MovableOn(PodsOn(byNode, nodes[n].name));
    assert Movable(nodes, byNode) == front + on;
    hide SimPod, Movable, MovableOn;
    assert SimPods(front + on, usage, cfg) == SimPods(front, usage, cfg) + SimPods(on, usage, cfg);
    hide SimPods;
    SimLoadJoin(SimPods(front, usage, cfg), SimPods(on, usage, cfg), to, name);
    hide SimLoad;
  }

  lemma {:induction false} PoolWithinSim(nodes: seq<ModelNode>, byNode: PodsByNode, to: map<string, string>, name: string, usage: UsageSet, cfg: Config)
    requires ReadingsAreNatural(usage)
    ensures Within(ArrivedFrom(nodes, byNode, to, name, usage, cfg), SimFrom(nodes, byNode, to, name, usage, cfg))
  {
    if nodes == [] {
    } else {
      hide *;
      var n := |nodes| - 1;
      PoolWithinSim(nodes[..n], byNode, to, name, usage, cfg);
      ArrivedWithinSim(PodsOn(byNode, nodes[n].name), to, name, usage, cfg);
      ArrivedLast(nodes, byNode, to, name, usage, cfg);
      SimFromLast(nodes, byNode, to, name, usage, cfg);
      WithinAdds(ArrivedFrom(nodes[..n], byNode, to, name, usage, cfg), SimFrom(nodes[..n], byNode, to, name, usage, cfg),
                 Arrived(PodsOn(byNode, nodes[n].name), to, name, usage, cfg), SimOn(PodsOn(byNode, nodes[n].name), to, name, usage, cfg));
    }
  }

  /** In a pool of distinct names each host is charged for its own pods. */
  lemma {:induction false} HostCharge(nodes: seq<ModelNode>, byNode: PodsByNode, usage: UsageSet, cfg: Config, i: nat)
    requires DistinctNames(nodes) && i < |nodes|
    ensures DaemonOn(PodsOn(byNode, nodes[i].name)).Plus(FootprintOf(PinnedByHost(nodes, byNode, usage, cfg), nodes[i].name))
            == Charge(PodsOn(byNode, nodes[i].name), usage, cfg)
  {
    hide AddPinned, PodsOn, DaemonOn, Charge;
    var n := |nodes| - 1;
    var prev, last := PinnedByHost(nodes[..n], byNode, usage, cfg), nodes[n].name;
    if i < n {
      assert DistinctNames(nodes[..n]) && nodes[i].name != last;
      HostCharge(nodes[..n], byNode, usage, cfg, i);
      AddPinnedCharges(prev, last, PodsOn(byNode, last), usage, cfg, nodes[i].name);
    } else {
      UnseenHost(nodes[..n], byNode, usage, cfg, last);
      ChargeAnywhere(prev, last, PodsOn(byNode, last), usage, cfg);
      ChargePlusNothing(Charge(PodsOn(byNode, last), usage, cfg));
    }
  }

  lemma ChargePlusNothing(f: Footprint)
    ensures f.Plus(NOTHING) == f
  {
  }

  /** On every node of a placement that receives a pod, the burden stays within the
      allocatable capacity less the headroom, and within the pod cap. */
  lemma BurdenFits(nodes: seq<ModelNode>, pods: seq<ModelPod>, usage: UsageSet, cfg: Config, retained: seq<ModelNode>, k: nat, i: nat)
    requires DistinctNames(nodes) && DistinctNames(retained) && ReadingsAreNatural(usage)
    requires DistinctKeys(SimPods(Movable(nodes, GroupPods(pods)), usage, cfg))
    requires k < |retained| && i < |nodes| && nodes[i] == retained[k]
    ensures var to := FitNodes(PoolOf(nodes, GroupPods(pods), usage, cfg), retained).assignments;
            Totals(ArrivingAll(pods, nodes, to, retained[k].name, usage, cfg)).pods > 0 ==>
              WithinHeadroom(Burden(pods, nodes, to, retained[k].name, usage, cfg), retained[k], cfg)
  {
    var byNode := GroupPods(pods);
    var pool := PoolOf(nodes, byNode, usage, cfg);
    var to := FitNodes(pool, retained).assignments;
    var name := nodes[i].name;
    PoolParts(nodes, byNode, usage, cfg);
    hide *;
    ReceivingSlotFits(pool, retained, k);
    PoolWithinSim(nodes, byNode, to, name, usage, cfg);
    ArrivingIsArrived(pods, nodes, to, name, usage, cfg);
    StayingBelowCharge(pods, name, usage, cfg);
    HostCharge(nodes, byNode, usage, cfg, i);
    DaemonBelowMax(nodes, byNode, i);
    var arriving := Totals(ArrivingAll(pods, nodes, to, name, usage, cfg));
    var staying := Totals(StayingAll(pods, name, usage, cfg));
    var own := FootprintOf(pool.pinned, name);
    var sim := SimFrom(nodes, byNode, to, name, usage, cfg);
    AddUp(staying, arriving, DaemonOn(PodsOn(byNode, name)), pool.daemon, own, sim);
    SimFromIs(nodes, byNode, to, name, usage, cfg);
    BurdenIs(pods, nodes, to, name, usage, cfg);
    if arriving.pods > 0 {
      WithinCounts(arriving, sim);
      LessFits(staying.Plus(arriving), pool.daemon.Plus(own).Plus(sim), retained[k], cfg);
    }
  }

  lemma PoolParts(nodes: seq<ModelNode>, byNode: PodsByNode, usage: UsageSet, cfg: Config)
    ensures var pool := PoolOf(nodes, byNode, usage, cfg);
            pool.daemon == DaemonMax(nodes, byNode) && pool.pinned == PinnedByHost(nodes, byNode, usage, cfg)
            && pool.toPlace == SimPods(Movable(nodes, byNode), usage, cfg) && pool.cfg == cfg
  {
  }

  lemma AddUp(staying: Footprint, arriving: Footprint, daemon: Footprint, worst: Footprint, own: Footprint, sim: Footprint)
    requires Below(staying, daemon.Plus(own)) && Within(arriving, sim) && Below(daemon, worst)
    ensures Below(staying.Plus(arriving), worst.Plus(own).Plus(sim))
  {
  }

  lemma SimFromIs(nodes: seq<ModelNode>, byNode: PodsByNode, to: map<string, string>, name: string, usage: UsageSet, cfg: Config)
    ensures SimFrom(nodes, byNode, to, name, usage, cfg) == SimLoad(SimPods(Movable(nodes, byNode), usage, cfg), to, name)
  {
  }

  lemma BurdenIs(pods: seq<ModelPod>, nodes: seq<ModelNode>, to: map<string, string>, name: string, usage: UsageSet, cfg: Config)
    ensures Burden(pods, nodes, to, name, usage, cfg)
            == Totals(StayingAll(pods, name, usage, cfg)).Plus(Totals(ArrivingAll(pods, nodes, to, name, usage, cfg)))
  {
  }

  lemma WithinCounts(a: Footprint, b: Footprint)
    requires Within(a, b)
    ensures a.pods == b.pods
  {
  }

  lemma LessFits(load: Footprint, more: Footprint, n: ModelNode, cfg: Config)
    requires Below(load, more) && WithinHeadroom(more, n, cfg)
    ensures WithinHeadroom(load, n, cfg)
  {
  }
}
