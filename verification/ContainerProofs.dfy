/** What a planned trim does to the container it is patched onto. The planner reads the
    request of whole pods, so it lowers that container only under a condition. */
module ContainerProofs {
  import opened Basics
  import opened Tuning
  import opened Sidecars
  import opened Planner
  import opened Applier
  import opened HaltSwitch

  /** A container of a pod template, with its requests. */
  datatype Container = Container(name: string, cpu: nat, mem: nat)

  function OwnRequest(c: Container, rule: Rule): nat {
    if rule.CPUOverProvisioned? then c.cpu else c.mem
  }

  /** What one pod of the template requests. */
  function PodRequest(template: seq<Container>, rule: Rule): nat {
    if template == [] then 0
    else PodRequest(template[..|template| - 1], rule) + OwnRequest(template[|template| - 1], rule)
  }

  /** The snapshot's workload: the requests of all its pods that are not finished, summed
      over their containers, beside the number of replicas that are ready. */
  ghost predicate Collected(w: Workload, template: seq<Container>, pods: nat) {
    && (forall rule :: RequestOf(w, rule) == pods * PodRequest(template, rule))
    && |w.containers| == |template| && forall i :: 0 <= i < |template| ==> w.containers[i] == template[i].name
  }

  // ----- which containers a trim lowers -----

  /** What the planner takes for the current request of one replica. */
  function PerReady(template: seq<Container>, rule: Rule, pods: nat, ready: nat): nat
    requires ready >= 1
  {
    pods * PodRequest(template, rule) / ready
  }

  /** Whatever the usage, a plan under the policy proposes less than `own`. */
  ghost predicate Lowers(template: seq<Container>, rule: Rule, pods: nat, ready: nat, own: nat, p: Policy)
    requires p.Positive()
  {
    forall w: Workload :: Collected(w, template, pods) && w.replicas == ready && PlanTrim(w, rule, p).Some? ==>
      PlanTrim(w, rule, p).value < own
  }

  ghost predicate NeverLowers(template: seq<Container>, rule: Rule, pods: nat, ready: nat, own: nat, p: Policy)
    requires p.Positive()
  {
    forall w: Workload :: Collected(w, template, pods) && w.replicas == ready && PlanTrim(w, rule, p).Some? ==>
      PlanTrim(w, rule, p).value >= own
  }

  /** A workload of the template with the given usage per replica. */
  function Sample(template: seq<Container>, pods: nat, ready: nat, usage: nat): Workload {
    Workload("shop", "Deployment", "web", ready, seq(|template|, i requires 0 <= i < |template| => template[i].name),
             pods * PodRequest(template, CPUOverProvisioned), pods * PodRequest(template, MemoryOverProvisioned),
             Some(usage * ready), Some(usage * ready))
  }

  lemma SampleIsCollected(template: seq<Container>, pods: nat, ready: nat, usage: nat)
    ensures Collected(Sample(template, pods, ready, usage), template, pods)
  {
    SameMemory(template);
  }

  lemma {:induction false} SameMemory(template: seq<Container>)
    ensures PodRequest(template, MemoryBelowUsage) == PodRequest(template, MemoryOverProvisioned)
  {
    if template == [] {
    } else {
      SameMemory(template[..|template| - 1]);
    }
  }

  /** A plan is the proposal at the workload's figures per ready replica. */
  lemma PlanIsProposal(w: Workload, rule: Rule, p: Policy, template: seq<Container>, pods: nat, ready: nat)
    requires p.Positive() && Collected(w, template, pods) && w.replicas == ready >= 1
    ensures PlanTrim(w, rule, p).Some? ==>
              PerReady(template, rule, pods, ready) >= 2
              && Max(TrimOf(p, rule).floor, MinAllowed(PerReady(template, rule, pods, ready), p)) <= PlanTrim(w, rule, p).value
              && PlanTrim(w, rule, p).value < PerReady(template, rule, pods, ready)
  {
    var c := PerReady(template, rule, pods, ready);
    assert GoDiv(RequestOf(w, rule), w.replicas) == c;
    if PlanTrim(w, rule, p).Some? {
      TrimIsBounded(w, rule, p);
    }
    hide PerReady;
  }

  /** The least request the policy's cap leaves of `current`. */
  function MinAllowed(current: nat, p: Policy): int
    requires p.Positive()
  {
    current - GoDiv(current * p.maxTrimNum, p.maxTrimDen)
  }

  /** Without any usage the plan goes as low as floor and cap allow. */
  lemma IdlePlan(template: seq<Container>, rule: Rule, pods: nat, ready: nat, p: Policy)
    requires p.Positive() && ready >= 1
    requires var c := PerReady(template, rule, pods, ready); Max(TrimOf(p, rule).floor, MinAllowed(c, p)) < c
    ensures var c := PerReady(template, rule, pods, ready);
            PlanTrim(Sample(template, pods, ready, 0), rule, p) == Some(Max(TrimOf(p, rule).floor, MinAllowed(c, p)))
  {
    SampleIsCollected(template, pods, ready, 0);
    var w, c := Sample(template, pods, ready, 0), PerReady(template, rule, pods, ready);
    assert UsageOf(w, rule) == Some(0) && RequestOf(w, rule) == pods * PodRequest(template, rule);
    assert GoDiv(0, ready) == 0 && GoDiv(RequestOf(w, rule), ready) == c;
    PositiveShare(pods * PodRequest(template, rule), ready);
    assert 0 * p.headroomNum == 0 && GoDiv(0, p.headroomDen) == 0;
    hide PerReady, Sample, GoDiv, UsageOf, RequestOf;
  }

  lemma PositiveShare(total: nat, ready: nat)
    requires ready >= 1 && total / ready > 0
    ensures total > 0
  {
  }

  /** One unit less than `c` is a proposal under some policy. */
  lemma GentlePlan(template: seq<Container>, rule: Rule, pods: nat, ready: nat, p: Policy)
    requires ready >= 1 && PerReady(template, rule, pods, ready) >= 2
    requires var c := PerReady(template, rule, pods, ready); p == Policy("high", 3, true, 1, 1, 3, 2, 1, c, 1)
    ensures PlanTrim(Sample(template, pods, ready, 0), rule, p) == Some(PerReady(template, rule, pods, ready) - 1)
  {
    var c := PerReady(template, rule, pods, ready);
    assert GoDiv(c * 1, c) == 1;
    hide PerReady;
    IdlePlan(template, rule, pods, ready, p);
  }

  /** Every plan, for every usage and every positive policy, lowers the container if and only
      if it requests no less than the planner takes for the whole pod's request. */
  lemma LowersExactly(template: seq<Container>, rule: Rule, pods: nat, ready: nat, own: nat)
    requires ready >= 1
    ensures (forall p: Policy :: p.Positive() ==> Lowers(template, rule, pods, ready, own, p))
            <==> own >= PerReady(template, rule, pods, ready) || PerReady(template, rule, pods, ready) <= 1
  {
    var c := PerReady(template, rule, pods, ready);
    hide PerReady, PlanTrim, Sample;
    if own >= c || c <= 1 {
      forall p: Policy, w: Workload | p.Positive() && Collected(w, template, pods) && w.replicas == ready && PlanTrim(w, rule, p).Some?
        ensures PlanTrim(w, rule, p).value < own
      {
        PlanIsProposal(w, rule, p, template, pods, ready);
      }
    } else {
      var p := Policy("high", 3, true, 1, 1, 3, 2, 1, c, 1);
      GentlePlan(template, rule, pods, ready, p);
      SampleIsCollected(template, pods, ready, 0);
      SampleReady(template, pods, ready, 0);
      assert !Lowers(template, rule, pods, ready, own, p);
    }
  }

  lemma SampleReady(template: seq<Container>, pods: nat, ready: nat, usage: nat)
    ensures Sample(template, pods, ready, usage).replicas == ready
  {
  }

  /** Under a given policy, no plan lowers the container, whatever the usage, if and only if
      it requests no more than floor and cap leave of that figure. */
  lemma NeverLowersExactly(template: seq<Container>, rule: Rule, pods: nat, ready: nat, own: nat, p: Policy)
    requires ready >= 1 && p.Positive()
    requires var c := PerReady(template, rule, pods, ready); Max(TrimOf(p, rule).floor, MinAllowed(c, p)) < c
    ensures NeverLowers(template, rule, pods, ready, own, p)
            <==> own <= Max(TrimOf(p, rule).floor, MinAllowed(PerReady(template, rule, pods, ready), p))
  {
    hide PerReady, PlanTrim, Sample, MinAllowed;
    forall w: Workload | Collected(w, template, pods) && w.replicas == ready && PlanTrim(w, rule, p).Some?
      ensures PlanTrim(w, rule, p).value >= Max(TrimOf(p, rule).floor, MinAllowed(PerReady(template, rule, pods, ready), p))
    {
      PlanIsProposal(w, rule, p, template, pods, ready);
    }
    IdlePlan(template, rule, pods, ready, p);
    SampleIsCollected(template, pods, ready, 0);
    SampleReady(template, pods, ready, 0);
  }

  /** No container but the `k`-th requests any of the resource. */
  ghost predicate Alone(template: seq<Container>, k: nat, rule: Rule) {
    forall i :: 0 <= i < |template| && i != k ==> OwnRequest(template[i], rule) == 0
  }

  lemma {:induction false} NothingBeside(template: seq<Container>, rule: Rule)
    ensures PodRequest(template, rule) == 0 <==> forall i :: 0 <= i < |template| ==> OwnRequest(template[i], rule) == 0
  {
    if template == [] {
    } else {
      var n := |template| - 1;
      NothingBeside(template[..n], rule);
      assert forall i :: 0 <= i < n ==> template[..n][i] == template[i];
    }
  }

  lemma {:induction false} AloneIsWhole(template: seq<Container>, k: nat, rule: Rule)
    requires k < |template|
    ensures PodRequest(template, rule) >= OwnRequest(template[k], rule)
    ensures PodRequest(template, rule) == OwnRequest(template[k], rule) <==> Alone(template, k, rule)
  {
    var n := |template| - 1;
    assert forall i :: 0 <= i < n ==> template[..n][i] == template[i];
    if k == n {
      NothingBeside(template[..n], rule);
    } else {
      AloneIsWhole(template[..n], k, rule);
    }
  }

  /** With every pod ready, every plan for every usage and every positive policy lowers the
      container if and only if no other container requests any of the resource, or the whole
      pod requests too little for a plan. */
  lemma AloneExactly(template: seq<Container>, k: nat, rule: Rule, pods: nat)
    requires k < |template| && pods >= 1
    ensures (forall p: Policy :: p.Positive() ==> Lowers(template, rule, pods, pods, OwnRequest(template[k], rule), p))
            <==> Alone(template, k, rule) || PodRequest(template, rule) <= 1
  {
    AllReady(template, rule, pods);
    LowersExactly(template, rule, pods, pods, OwnRequest(template[k], rule));
    AloneIsWhole(template, k, rule);
    hide Lowers, Alone;
  }

  lemma AllReady(template: seq<Container>, rule: Rule, pods: nat)
    requires pods >= 1
    ensures PerReady(template, rule, pods, pods) == PodRequest(template, rule)
  {
    DivideProduct(PodRequest(template, rule), pods);
  }

  // ----- the patch -----

  /** The strategic merge: the container of that name takes the new figures. */
  function Patched(template: seq<Container>, a: PlannedAction): (r: seq<Container>)
    ensures |r| == |template|
    ensures forall i :: 0 <= i < |template| ==>
              r[i] == if template[i].name == a.container then PatchOne(template[i], a) else template[i]
  {
    seq(|template|, i requires 0 <= i < |template| =>
      if template[i].name == a.container then PatchOne(template[i], a) else template[i])
  }

  function PatchOne(c: Container, a: PlannedAction): Container {
    Container(c.name, if a.newCPU > 0 then a.newCPU else c.cpu, if a.newMem > 0 then a.newMem else c.mem)
  }

  /** The patch changes one container, in the action's resource only, to less than it had. */
  ghost predicate LowersOne(template: seq<Container>, a: PlannedAction) {
    exists k :: 0 <= k < |template| && LowersAt(template, a, k)
  }

  ghost predicate LowersAt(template: seq<Container>, a: PlannedAction, k: nat)
    requires k < |template|
  {
    var c := template[k];
    && c.name == a.container && Patched(template, a) == template[k := Patched(template, a)[k]]
    && Patched(template, a)[k] == (if a.rule.CPUOverProvisioned? then c.(cpu := Patched(template, a)[k].cpu)
                                   else c.(mem := Patched(template, a)[k].mem))
    && OwnRequest(Patched(template, a)[k], a.rule) < OwnRequest(c, a.rule)
  }

  ghost predicate DistinctNames(template: seq<Container>) {
    forall i, j :: 0 <= i < j < |template| ==> template[i].name != template[j].name
  }

  /** What a bounded trim does to a template that has its container: the figure it sets, and
      nothing else. */
  lemma PatchSets(template: seq<Container>, a: PlannedAction, k: nat, p: Policy)
    requires k < |template| && template[k].name == a.container && DistinctNames(template)
    requires p.Positive() && BoundedTrim(a, p) && IsTrimRule(a.rule)
    ensures OwnRequest(Patched(template, a)[k], a.rule) == After(a)
    ensures LowersAt(template, a, k) <==> After(a) < OwnRequest(template[k], a.rule)
    ensures Patched(template, a) == template[k := Patched(template, a)[k]]
  {
    forall i | 0 <= i < |template| && i != k ensures Patched(template, a)[i] == template[i] {
      assert template[i].name != template[k].name;
    }
    hide DistinctNames;
  }

  predicate IsTrimRule(rule: Rule) {
    !rule.MemoryBelowUsage?
  }

  // ----- from the findings to the template -----

  /** Where a snapshot's workloads run: their templates and pods, all ready. */
  datatype Deployed = Deployed(template: seq<Container>, pods: nat)

  ghost predicate Live(inp: Inputs, cluster: map<string, Deployed>) {
    forall key :: key in inp.workloads ==>
      && key in cluster && DistinctNames(cluster[key].template) && cluster[key].pods == inp.workloads[key].replicas
      && Collected(inp.workloads[key], cluster[key].template, cluster[key].pods)
  }

  /** No container but the named one requests any of the resource. */
  ghost predicate AloneNamed(template: seq<Container>, name: string, rule: Rule) {
    exists k :: 0 <= k < |template| && template[k].name == name && Alone(template, k, rule)
  }

  function FindingKey(f: Finding): string {
    f.namespace + "/" + f.workload
  }

  /** Every patch a run issues lowers the one container it names and changes nothing else of
      the template, where that container alone requests the resource and every pod is ready. */
  lemma PatchLowersContainer(findings: seq<Finding>, inp: Inputs, opts: Applier.Options, halt: HaltConfig, haltKey: string,
                             server: Server, a: PlannedAction, cluster: map<string, Deployed>)
    requires inp.policy.Positive() && a in PatchesFor(findings, inp, opts, halt, haltKey, server) && Live(inp, cluster)
    ensures exists f :: f in findings && Authorised(a, f, inp)
                        && (AloneNamed(cluster[FindingKey(f)].template, a.container, a.rule) ==>
                              LowersOne(cluster[FindingKey(f)].template, a))
  {
    EveryPatchAuthorised(findings, inp, opts, halt, haltKey, server, a);
    hide PatchesFor, BoundedTrim, LowersOne, C.ProviderManaged, TargetFor;
    var f :| f in findings && Authorised(a, f, inp);
    AuthorisedLowers(f, inp, a, cluster[FindingKey(f)]);
  }

  lemma AuthorisedLowers(f: Finding, inp: Inputs, a: PlannedAction, d: Deployed)
    requires inp.policy.Positive() && Authorised(a, f, inp) && BoundedTrim(a, inp.policy)
    requires var w := inp.workloads[FindingKey(f)]; d.pods == w.replicas && Collected(w, d.template, d.pods)
    requires DistinctNames(d.template)
    ensures AloneNamed(d.template, a.container, a.rule) ==> LowersOne(d.template, a)
  {
    hide BoundedTrim, C.ProviderManaged, TargetFor, PlanTrim, DistinctNames, LowersAt, Alone, Rank;
    var w := inp.workloads[FindingKey(f)];
    if AloneNamed(d.template, a.container, a.rule) {
      var k :| 0 <= k < |d.template| && d.template[k].name == a.container && Alone(d.template, k, a.rule);
      assert a.rule == f.rule;
      AloneIsWhole(d.template, k, a.rule);
      AllReady(d.template, a.rule, d.pods);
      PlanIsProposal(w, a.rule, inp.policy, d.template, d.pods, d.pods);
      PatchSets(d.template, a, k, inp.policy);
    }
  }

  /** One pass over a workload of the template takes the container where the capped trim of
      the whole pod's request takes it; the passes that follow are the iterates. */
  lemma PassIsNextOwn(w: Workload, rule: Rule, p: Policy, template: seq<Container>, k: nat, pods: nat)
    requires p.Positive() && pods == w.replicas >= 1 && Collected(w, template, pods) && k < |template|
    requires UsageOf(w, rule).Some?
    ensures var own := OwnRequest(template[k], rule);
            PodRequest(template, rule) >= own
            && NextOwn(GoDiv(UsageOf(w, rule).value, pods), own, PodRequest(template, rule) - own, TrimOf(p, rule))
               == if PlanTrim(w, rule, p).Some? then PlanTrim(w, rule, p).value else own
  {
    hide PodRequest, OwnRequest, ProposeRequest, PlanTrim;
    AloneIsWhole(template, k, rule);
    AllReady(template, rule, pods);
    assert GoDiv(RequestOf(w, rule), w.replicas) == PodRequest(template, rule);
    hide GoDiv, Collected;
    PlanAt(w, rule, p, PodRequest(template, rule));
  }

  /** The plan is the proposal at the figures per replica, whenever there is one. */
  lemma PlanAt(w: Workload, rule: Rule, p: Policy, current: nat)
    requires p.Positive() && w.replicas >= 1 && UsageOf(w, rule).Some? && current >= 0
    requires GoDiv(RequestOf(w, rule), w.replicas) == current
    ensures var r := ProposeRequest(GoDiv(UsageOf(w, rule).value, w.replicas), current, TrimOf(p, rule));
            PlanTrim(w, rule, p) == if r == 0 then None else Some(r)
  {
    ProposalBounds(GoDiv(UsageOf(w, rule).value, w.replicas), current, TrimOf(p, rule));
    hide ProposeRequest;
    if RequestOf(w, rule) <= 0 {
      assert current <= 0;
    }
  }

  const SIDECAR := [Container("app", 200, 64), Container("side", 800, 64)]
  const CROWDED := Workload("shop", "Deployment", "web", 1, ["app", "side"], 1000, 128, Some(100), None)
  const LENIENT := DEFAULT_POLICY.(minConfidence := "low")

  lemma SidecarTotals()
    ensures PodRequest(SIDECAR, CPUOverProvisioned) == 1000
    ensures PodRequest(SIDECAR, MemoryOverProvisioned) == 128 && PodRequest(SIDECAR, MemoryBelowUsage) == 128
  {
    assert SIDECAR[..1] == [Container("app", 200, 64)] && SIDECAR[..1][..0] == [];
    forall rule: Rule ensures PodRequest(SIDECAR, rule) == OwnRequest(SIDECAR[0], rule) + OwnRequest(SIDECAR[1], rule) {
      assert PodRequest(SIDECAR[..1], rule) == OwnRequest(SIDECAR[0], rule);
    }
  }

  /** A pod of 1000 millicores using 100, of which its container "app" requests 200: a live
      run on the analyzer's own finding patches "app" up to 500, and at the same usage the
      next passes to 650 and 725. */
  lemma SidecarRaised() returns (inp: Inputs, a: PlannedAction)
    ensures inp.policy == LENIENT && inp.workloads == map["shop/Deployment/web" := CROWDED]
    ensures Live(inp, map["shop/Deployment/web" := Deployed(SIDECAR, 1)])
    ensures PatchesFor(FindingsOf(CROWDED), inp, Applier.Options(true, true), Missing, "halt", Server(map[], {})) == [a]
    ensures a.container == "app" && SIDECAR[0].cpu == 200 && Patched(SIDECAR, a)[0].cpu == 500
    ensures IterateOwn(100, 200, 800, TrimOf(LENIENT, CPUOverProvisioned), 1) == 500
    ensures IterateOwn(100, 200, 800, TrimOf(LENIENT, CPUOverProvisioned), 3) == 725
  {
    var f := Finding(CPUOverProvisioned, "shop", "Deployment/web", 100, 1000, "low");
    inp := CrowdedInputs(f);
    a := ActionFor(CROWDED, f, "app", 500, 3, false);
    assert Patched(SIDECAR, a)[0].cpu == 500;
    CrowdedPlan(f, inp, a);
    CrowdedFinding();
    CrowdedLive(inp);
    SidecarLoop();
    hide *;
    OnePatch(f, inp, a);
  }

  function CrowdedInputs(f: Finding): (inp: Inputs)
    ensures inp.policy == LENIENT && inp.workloads == map["shop/Deployment/web" := CROWDED]
  {
    assert "shop" + "/" + "Deployment/web" == "shop/Deployment/web";
    OpenInputs(CROWDED, [f.rule], LENIENT, map[OccurrenceKey(f) := 3])
  }

  lemma CrowdedPlan(f: Finding, inp: Inputs, a: PlannedAction)
    requires f == Finding(CPUOverProvisioned, "shop", "Deployment/web", 100, 1000, "low") && inp == CrowdedInputs(f)
    requires a == ActionFor(CROWDED, f, "app", 500, 3, false)
    ensures Consider(f, inp) == Act(a)
  {
    assert PlanTrim(CROWDED, f.rule, LENIENT) == Some(500);
    assert Rank(f.confidence) >= Rank(LENIENT.minConfidence);
    hide PlanTrim, Consider, OccurrenceKey, Rank;
    assert Seen(inp, f) == 3;
    hide Seen;
    OpenActs(f, CROWDED, [f.rule], inp);
  }

  lemma CrowdedLive(inp: Inputs)
    requires inp.workloads == map["shop/Deployment/web" := CROWDED]
    ensures Live(inp, map["shop/Deployment/web" := Deployed(SIDECAR, 1)])
  {
    SidecarTotals();
    hide PodRequest;
    assert DistinctNames(SIDECAR) && CROWDED.containers[0] == SIDECAR[0].name && CROWDED.containers[1] == SIDECAR[1].name;
  }

  lemma CrowdedFinding()
    ensures FindingsOf(CROWDED) == [Finding(CPUOverProvisioned, "shop", "Deployment/web", 100, 1000, "low")]
  {
    assert "Deployment" + "/" + "web" == "Deployment/web";
    assert Fires(CPUOverProvisioned, 100, 1000);
  }

  lemma SidecarLoop()
    ensures IterateOwn(100, 200, 800, TrimOf(LENIENT, CPUOverProvisioned), 1) == 500
    ensures IterateOwn(100, 200, 800, TrimOf(LENIENT, CPUOverProvisioned), 3) == 725
  {
    var p := TrimOf(LENIENT, CPUOverProvisioned);
    assert NextOwn(100, 200, 800, p) == 500 && NextOwn(100, 500, 800, p) == 650 && NextOwn(100, 650, 800, p) == 725;
    assert IterateOwn(100, 200, 800, p, 0) == 200;
    hide NextOwn;
    assert IterateOwn(100, 200, 800, p, 1) == 500;
    assert IterateOwn(100, 200, 800, p, 2) == 650;
  }

  /** A plan of one action that passes the live gates is patched. */
  lemma OnePatch(f: Finding, inp: Inputs, a: PlannedAction)
    requires inp.policy.Positive() && Consider(f, inp) == Act(a)
    requires a.namespace == "shop" && a.kind == "Deployment" && a.name == "web" && !a.requiresOptIn && a.newCPU > 0
    ensures PatchesFor([f], inp, Applier.Options(true, true), Missing, "halt", Server(map[], {})) == [a]
  {
    var none: seq<Finding> := [];
    hide *;
    OneIssued(a);
    PlanSnoc(none, f, inp);
    assert none + [f] == [f];
    NothingYet(none, inp);
    LiveRun(f, inp, a);
  }

  lemma LiveRun(f: Finding, inp: Inputs, a: PlannedAction)
    requires inp.policy.Positive() && PlanFor([f], inp).actions == [a] && Issued([a], true, Server(map[], {})) == [a]
    ensures PatchesFor([f], inp, Applier.Options(true, true), Missing, "halt", Server(map[], {})) == [a]
  {
    hide PlanFor, Issued;
  }

  lemma NothingYet(none: seq<Finding>, inp: Inputs)
    requires none == [] && inp.policy.Positive()
    ensures PlanFor(none, inp) == Plan([], []) && inp.policy.maxActions > 0
    ensures forall f, a :: Append(Plan([], []), f, Act(a)).actions == [a]
  {
  }

  lemma OneIssued(a: PlannedAction)
    requires a.namespace == "shop" && a.kind == "Deployment" && a.name == "web" && !a.requiresOptIn && a.newCPU > 0
    ensures Issued([a], true, Server(map[], {})) == [a]
  {
    AppIsOurs();
    assert a.kind + "/" + a.name == "Deployment/web";
    hide C.ProviderManaged;
    assert Issues(a, true, Server(map[], {}));
    hide Issues;
    assert [a][..0] == [];
  }

  /** A rollout is enough: with one container and one of three pods ready, every plan the
      default limits allow raises it. */
  lemma RolloutRaises() returns (template: seq<Container>)
    ensures template == [Container("app", 400, 64)] && PerReady(template, CPUOverProvisioned, 3, 1) == 1200
    ensures NeverLowers(template, CPUOverProvisioned, 3, 1, 400, DEFAULT_POLICY)
    ensures PlanTrim(Sample(template, 3, 1, 100), CPUOverProvisioned, DEFAULT_POLICY) == Some(600)
  {
    template := [Container("app", 400, 64)];
    assert template[..0] == [] && PodRequest(template, CPUOverProvisioned) == 400;
    assert GoDiv(1200, 1) == 1200 && GoDiv(100 * 1, 1) == 100;
    hide PodRequest;
    NeverLowersExactly(template, CPUOverProvisioned, 3, 1, 400, DEFAULT_POLICY);
  }
}
