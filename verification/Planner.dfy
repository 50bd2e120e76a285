/** From findings to planned request trims, and from the plan to patches: every gate on the
    way, and what they authorise together. */
module Planner {
  import opened Basics
  import opened Tuning
  import C = Classifier

  datatype Policy = Policy(
    minConfidence: string, minOccurrences: int, requirePersistence: bool, cpuFloor: int, memFloor: int,
    headroomNum: int, headroomDen: int, maxTrimNum: int, maxTrimDen: int, maxActions: int)
  {
    predicate Positive() {
      cpuFloor > 0 && memFloor > 0 && headroomNum > 0 && headroomDen > 0 && maxTrimNum > 0 && maxTrimDen > 0
      && maxActions > 0
    }
  }

  const DEFAULT_POLICY := Policy("high", 3, true, 10, 32, 3, 2, 1, 2, 1)

  const ZERO_POLICY := Policy("", 0, false, 0, 0, 0, 0, 0, 0, 0)

  /** Unset or non-positive settings take their defaults. */
  function ApplyDefaults(p: Policy): (r: Policy)
    ensures r.Positive() && r.minConfidence != ""
    ensures p.Positive() && p.minConfidence != "" ==> r == p
    ensures r.minOccurrences == p.minOccurrences && r.requirePersistence == p.requirePersistence
    ensures !p.Positive() || p.minConfidence == "" ==> r != p
    ensures FilledFrom(r, p, DEFAULT_POLICY)
  {
    Policy(if p.minConfidence == "" then "high" else p.minConfidence, p.minOccurrences, p.requirePersistence,
           PositiveOr(p.cpuFloor, 10), PositiveOr(p.memFloor, 32),
           PositiveOr(p.headroomNum, 3), PositiveOr(p.headroomDen, 2),
           PositiveOr(p.maxTrimNum, 1), PositiveOr(p.maxTrimDen, 2), PositiveOr(p.maxActions, 1))
  }

  /** Every limit is the given one where that is positive, and the fallback's elsewhere. */
  ghost predicate FilledFrom(r: Policy, p: Policy, fallback: Policy) {
    && r.minConfidence == (if p.minConfidence == "" then fallback.minConfidence else p.minConfidence)
    && r.cpuFloor == PositiveOr(p.cpuFloor, fallback.cpuFloor) && r.memFloor == PositiveOr(p.memFloor, fallback.memFloor)
    && r.headroomNum == PositiveOr(p.headroomNum, fallback.headroomNum)
    && r.headroomDen == PositiveOr(p.headroomDen, fallback.headroomDen)
    && r.maxTrimNum == PositiveOr(p.maxTrimNum, fallback.maxTrimNum)
    && r.maxTrimDen == PositiveOr(p.maxTrimDen, fallback.maxTrimDen)
    && r.maxActions == PositiveOr(p.maxActions, fallback.maxActions)
  }

  function PositiveOr(value: int, fallback: int): int {
    if value <= 0 then fallback else value
  }

  function Rank(confidence: string): nat {
    match confidence
    case "low" => 1
    case "medium" => 2
    case "high" => 3
    case _ => 0
  }

  function RuleName(rule: Rule): string {
    match rule
    case MemoryBelowUsage => "memory-request-below-usage"
    case MemoryOverProvisioned => "memory-request-over-provisioned"
    case CPUOverProvisioned => "cpu-request-over-provisioned"
  }

  function TrimOf(p: Policy, rule: Rule): Trim {
    Trim(p.headroomNum, p.headroomDen, if rule.CPUOverProvisioned? then p.cpuFloor else p.memFloor,
         p.maxTrimNum, p.maxTrimDen)
  }

  /** A request for one container, beside the one the pod was read with; -1 leaves a
      resource alone. */
  datatype PlannedAction = PlannedAction(
    namespace: string, kind: string, name: string, container: string,
    currentCPU: int, newCPU: int, currentMem: int, newMem: int,
    rule: Rule, confidence: string, occurrences: int, requiresOptIn: bool)

  datatype SkipReason =
    | SkipManaged | SkipNoTarget | SkipConfidence | SkipNoPersistence | SkipOccurrences
    | SkipNoWorkload | SkipContainer | SkipNoTrim

  datatype Skipped = Skipped(finding: Finding, reason: SkipReason)

  datatype Plan = Plan(actions: seq<PlannedAction>, skipped: seq<Skipped>)

  /** What planning reads besides the findings. */
  datatype Inputs = Inputs(
    index: Option<C.Index>, workloads: map<string, Workload>, policy: Policy, occurrences: Option<map<string, int>>)

  function WorkloadKey(w: Workload): string {
    w.namespace + "/" + w.kind + "/" + w.name
  }

  function IndexWorkloads(ws: seq<Workload>): map<string, Workload> {
    if ws == [] then map[] else IndexWorkloads(ws[..|ws| - 1])[WorkloadKey(ws[|ws| - 1]) := ws[|ws| - 1]]
  }

  /** A workload is found under its namespace, kind and name; the last of that name counts. */
  lemma {:induction false} IndexExactly(ws: seq<Workload>, key: string)
    ensures key in IndexWorkloads(ws) <==> exists i :: 0 <= i < |ws| && Keyed(ws[i], key)
    ensures key in IndexWorkloads(ws) ==>
              exists i :: 0 <= i < |ws| && Keyed(ws[i], key) && IndexWorkloads(ws)[key] == ws[i]
                          && forall j :: i < j < |ws| ==> !Keyed(ws[j], key)
  {
    if ws == [] {
    } else {
      var n := |ws| - 1;
      IndexExactly(ws[..n], key);
      assert forall i :: 0 <= i < n ==> ws[..n][i] == ws[i];
      var front := IndexWorkloads(ws[..n]);
      assert WorkloadKey(ws[n]) == key <==> Keyed(ws[n], key);
      if !Keyed(ws[n], key) && key in front {
        var i :| 0 <= i < n && Keyed(ws[..n][i], key) && front[key] == ws[..n][i]
                 && forall j :: i < j < n ==> !Keyed(ws[..n][j], key);
        assert Keyed(ws[i], key);
        assert forall j :: i < j < |ws| ==> !Keyed(ws[j], key);
      }
    }
  }

  ghost predicate Keyed(w: Workload, key: string) {
    key == w.namespace + "/" + w.kind + "/" + w.name
  }

  /** A finding's key in the persistence layer; its parts are joined by NUL. */
  function OccurrenceKey(f: Finding): string {
    RuleName(f.rule) + ['\0'] + f.namespace + ['\0'] + f.workload
  }

  function Seen(inp: Inputs, f: Finding): int {
    if inp.occurrences.Some? && OccurrenceKey(f) in inp.occurrences.value
    then inp.occurrences.value[OccurrenceKey(f)] else 0
  }

  function TargetFor(index: C.Index, f: Finding): Option<C.Target> {
    C.Resolve(C.Present(index.byKey, C.Layers(index, f.namespace, f.workload)), RuleName(f.rule))
  }

  /** The container a target names, or the only one for a wildcard. */
  function TargetContainer(t: C.Target, w: Workload): Option<string> {
    if t.container != "*" then (if t.container == "" then None else Some(t.container))
    else if |w.containers| != 1 then None
    else Some(w.containers[0])
  }

  predicate IsTrim(f: Finding) {
    f.rule.MemoryOverProvisioned? || f.rule.CPUOverProvisioned?
  }

  function UsageOf(w: Workload, rule: Rule): Option<int> {
    if rule.CPUOverProvisioned? then w.usageCPU else w.usageMem
  }

  function RequestOf(w: Workload, rule: Rule): int {
    if rule.CPUOverProvisioned? then w.reqCPU else w.reqMem
  }

  /** The new per-replica request for the finding's resource, when there is a safe one. */
  function PlanTrim(w: Workload, rule: Rule, p: Policy): Option<int>
    requires p.Positive()
  {
    if w.replicas < 1 || UsageOf(w, rule).None? || RequestOf(w, rule) <= 0 then None
    else
      var usage, current := GoDiv(UsageOf(w, rule).value, w.replicas), GoDiv(RequestOf(w, rule), w.replicas);
      var proposed := ProposeRequest(usage, current, TrimOf(p, rule));
      if proposed <= 0 || proposed >= current then None else Some(proposed)
  }

  function ActionFor(w: Workload, f: Finding, container: string, proposed: int, seen: int, optIn: bool): PlannedAction
    requires w.replicas != 0
  {
    var current := GoDiv(RequestOf(w, f.rule), w.replicas);
    if f.rule.CPUOverProvisioned?
    then PlannedAction(w.namespace, w.kind, w.name, container, current, proposed, -1, -1, f.rule, f.confidence, seen, optIn)
    else PlannedAction(w.namespace, w.kind, w.name, container, -1, -1, current, proposed, f.rule, f.confidence, seen, optIn)
  }

  datatype Decision = Ignore | Skip(reason: SkipReason) | Act(action: PlannedAction)

  /** What planning does with one finding, gate by gate. */
  function Consider(f: Finding, inp: Inputs): Decision
    requires inp.policy.Positive()
  {
    if !IsTrim(f) then Ignore
    else if inp.index.None? || C.ProviderManaged(f.namespace, f.workload) then Skip(SkipManaged)
    else
      var target := TargetFor(inp.index.value, f);
      if target.None? then Skip(SkipNoTarget)
      else if Rank(f.confidence) < Rank(inp.policy.minConfidence) then Skip(SkipConfidence)
      else if inp.policy.requirePersistence && inp.occurrences.None? then Skip(SkipNoPersistence)
      else if Seen(inp, f) < inp.policy.minOccurrences then Skip(SkipOccurrences)
      else
        var key := f.namespace + "/" + f.workload;
        if key !in inp.workloads then Skip(SkipNoWorkload)
        else
          var w := inp.workloads[key];
          var container := TargetContainer(target.value, w);
          if container.None? then Skip(SkipContainer)
          else
            var proposed := PlanTrim(w, f.rule, inp.policy);
            if proposed.None? then Skip(SkipNoTrim)
            else Act(ActionFor(w, f, container.value, proposed.value, Seen(inp, f), target.value.requiresOptIn))
  }

  function Append(p: Plan, f: Finding, d: Decision): Plan {
    match d
    case Ignore => p
    case Skip(reason) => p.(skipped := p.skipped + [Skipped(f, reason)])
    case Act(action) => p.(actions := p.actions + [action])
  }

  /** Findings are taken in order until the action budget is used up. */
  function PlanFor(findings: seq<Finding>, inp: Inputs): Plan
    requires inp.policy.Positive()
  {
    if findings == [] then Plan([], [])
    else
      var prev := PlanFor(findings[..|findings| - 1], inp);
      if |prev.actions| >= inp.policy.maxActions then prev
      else Append(prev, findings[|findings| - 1], Consider(findings[|findings| - 1], inp))
  }

  lemma {:induction false} FullPlanStays(findings: seq<Finding>, inp: Inputs, n: nat)
    requires inp.policy.Positive() && n <= |findings|
    requires |PlanFor(findings[..n], inp).actions| >= inp.policy.maxActions
    ensures PlanFor(findings, inp) == PlanFor(findings[..n], inp)
  {
    if n == |findings| {
      assert findings[..n] == findings;
    } else {
      assert findings[..|findings| - 1][..n] == findings[..n];
      FullPlanStays(findings[..|findings| - 1], inp, n);
    }
  }

  /** The actions of the findings that are acted on, in their order. */
  function ActionsOf(findings: seq<Finding>, inp: Inputs): seq<PlannedAction>
    requires inp.policy.Positive()
  {
    if findings == [] then []
    else
      var rest := ActionsOf(findings[1..], inp);
      match Consider(findings[0], inp)
      case Act(a) => [a] + rest
      case _ => rest
  }

  lemma {:induction false} ActionsSnoc(findings: seq<Finding>, f: Finding, inp: Inputs)
    requires inp.policy.Positive()
    ensures ActionsOf(findings + [f], inp)
            == match Consider(f, inp) { case Act(a) => ActionsOf(findings, inp) + [a] case _ => ActionsOf(findings, inp) }
  {
    hide Consider;
    if findings == [] {
      assert [] + [f] == [f] && [f][1..] == [];
    } else {
      ActionsSnoc(findings[1..], f, inp);
      assert (findings + [f])[1..] == findings[1..] + [f];
    }
  }

  /** A plan holds the first of those actions, as many as the budget allows. */
  lemma {:induction false} PlanIsPrefix(findings: seq<Finding>, inp: Inputs)
    requires inp.policy.Positive()
    ensures var all := ActionsOf(findings, inp);
            PlanFor(findings, inp).actions == if |all| <= inp.policy.maxActions then all else all[..inp.policy.maxActions]
  {
    hide Consider;
    if findings == [] {
    } else {
      var n := |findings| - 1;
      assert findings == findings[..n] + [findings[n]];
      PlanIsPrefix(findings[..n], inp);
      ActionsSnoc(findings[..n], findings[n], inp);
      hide ActionsOf;
    }
  }

  /** One finding through the gates, in the order the planner asks. */
  method Evaluate(f: Finding, inp: Inputs) returns (d: Decision)
    requires inp.policy.Positive()
    ensures d == Consider(f, inp)
  {
    if !IsTrim(f) {
      return Ignore;
    }
    if inp.index.None? || C.ProviderManaged(f.namespace, f.workload) {
      return Skip(SkipManaged);
    }
    var target := C.EffectiveTarget(inp.index.value, RuleName(f.rule), f.namespace, f.workload);
    if target.None? {
      return Skip(SkipNoTarget);
    }
    if Rank(f.confidence) < Rank(inp.policy.minConfidence) {
      return Skip(SkipConfidence);
    }
    var seen := Seen(inp, f);
    if inp.policy.requirePersistence && inp.occurrences.None? {
      return Skip(SkipNoPersistence);
    }
    if seen < inp.policy.minOccurrences {
      return Skip(SkipOccurrences);
    }
    var key := f.namespace + "/" + f.workload;
    if key !in inp.workloads {
      return Skip(SkipNoWorkload);
    }
    var w := inp.workloads[key];
    var container := TargetContainer(target.value, w);
    if container.None? {
      return Skip(SkipContainer);
    }
    var proposed := PlanTrim(w, f.rule, inp.policy);
    if proposed.None? {
      return Skip(SkipNoTrim);
    }
    return Act(ActionFor(w, f, container.value, proposed.value, seen, target.value.requiresOptIn));
  }

  /** Appends actions and skips, and stops at the action budget. */
  method Build(findings: seq<Finding>, workloads: seq<Workload>, index: Option<C.Index>, policy: Policy,
               occurrences: Option<map<string, int>>) returns (plan: Plan)
    ensures plan == PlanFor(findings, Inputs(index, IndexWorkloads(workloads), ApplyDefaults(policy), occurrences))
  {
    var byName := IndexAll(workloads);
    var inp := Inputs(index, byName, ApplyDefaults(policy), occurrences);
    plan := Plan([], []);
    for i := 0 to |findings|
      invariant plan == PlanFor(findings[..i], inp) && |plan.actions| < inp.policy.maxActions
    {
      assert findings[..i + 1][..i] == findings[..i];
      var d := Evaluate(findings[i], inp);
      plan := Append(plan, findings[i], d);
      if |plan.actions| >= inp.policy.maxActions {
        FullPlanStays(findings, inp, i + 1);
        return;
      }
    }
    assert findings[..|findings|] == findings;
  }

  method IndexAll(ws: seq<Workload>) returns (byName: map<string, Workload>)
    ensures byName == IndexWorkloads(ws)
  {
    byName := map[];
    for i := 0 to |ws|
      invariant byName == IndexWorkloads(ws[..i])
    {
      assert ws[..i + 1][..i] == ws[..i];
      byName := byName[WorkloadKey(ws[i]) := ws[i]];
    }
    assert ws[..|ws|] == ws;
  }

  // ----- what a planned action has passed -----

  /** The resource an action changes, as current and proposed per-replica requests. */
  function Before(a: PlannedAction): int { if a.rule.CPUOverProvisioned? then a.currentCPU else a.currentMem }
  function After(a: PlannedAction): int { if a.rule.CPUOverProvisioned? then a.newCPU else a.newMem }
  function Other(a: PlannedAction): int { if a.rule.CPUOverProvisioned? then a.newMem else a.newCPU }

  /** Exactly one resource, its figure strictly below the one read, not below its floor, cut
      by at most the policy's share. */
  ghost predicate BoundedTrim(a: PlannedAction, p: Policy)
    requires p.Positive()
  {
    && Other(a) == -1
    && TrimOf(p, a.rule).floor <= After(a) < Before(a)
    && Before(a) - After(a) <= GoDiv(Before(a) * p.maxTrimNum, p.maxTrimDen)
  }

  /** The finding behind an action met every gate. */
  ghost predicate Authorised(a: PlannedAction, f: Finding, inp: Inputs) {
    && IsTrim(f) && a.rule == f.rule && a.confidence == f.confidence
    && inp.index.Some? && !C.ProviderManaged(f.namespace, f.workload)
    && TargetFor(inp.index.value, f).Some?
    && a.requiresOptIn == TargetFor(inp.index.value, f).value.requiresOptIn
    && Rank(f.confidence) >= Rank(inp.policy.minConfidence)
    && (inp.policy.requirePersistence ==> inp.occurrences.Some?)
    && a.occurrences == Seen(inp, f) && a.occurrences >= inp.policy.minOccurrences
    && (f.namespace + "/" + f.workload) in inp.workloads
    && var w := inp.workloads[f.namespace + "/" + f.workload];
       && a.namespace == w.namespace && a.kind == w.kind && a.name == w.name
       && TargetContainer(TargetFor(inp.index.value, f).value, w) == Some(a.container)
       && FiguresOf(a, w, inp.policy)
  }

  /** The action's figures are the workload's own: its request per ready replica, and what
      the policy proposes for that. */
  ghost predicate FiguresOf(a: PlannedAction, w: Workload, p: Policy) {
    && w.replicas >= 1 && Before(a) == GoDiv(RequestOf(w, a.rule), w.replicas)
    && p.Positive() && PlanTrim(w, a.rule, p) == Some(After(a))
  }

  lemma TrimIsBounded(w: Workload, rule: Rule, p: Policy)
    requires p.Positive() && PlanTrim(w, rule, p).Some?
    ensures w.replicas >= 1
    ensures var current := GoDiv(RequestOf(w, rule), w.replicas);
            && TrimOf(p, rule).floor <= PlanTrim(w, rule, p).value < current
            && current - PlanTrim(w, rule, p).value <= GoDiv(current * p.maxTrimNum, p.maxTrimDen)
  {
    ProposalBounds(GoDiv(UsageOf(w, rule).value, w.replicas), GoDiv(RequestOf(w, rule), w.replicas), TrimOf(p, rule));
  }

  lemma ActionPassedGates(f: Finding, inp: Inputs)
    requires inp.policy.Positive() && Consider(f, inp).Act?
    ensures Authorised(Consider(f, inp).action, f, inp) && BoundedTrim(Consider(f, inp).action, inp.policy)
  {
    hide PlanTrim, TargetFor, Seen, C.ProviderManaged, Rank;
    TrimIsBounded(inp.workloads[f.namespace + "/" + f.workload], f.rule, inp.policy);
  }

  /** The confidence gate can refuse a finding exactly when the policy names a confidence
      the tool knows; a misspelt minimum ranks zero and lets every finding through. */
  lemma ConfidenceGateExactly(f: Finding, inp: Inputs)
    requires inp.policy.Positive() && IsTrim(f)
    requires inp.index.Some? && !C.ProviderManaged(f.namespace, f.workload) && TargetFor(inp.index.value, f).Some?
    ensures (exists confidence :: Consider(f.(confidence := confidence), inp) == Skip(SkipConfidence))
            <==> inp.policy.minConfidence in {"low", "medium", "high"}
  {
    hide C.ProviderManaged, C.Resolve, Seen, PlanTrim;
    var weakest := f.(confidence := "");
    assert TargetFor(inp.index.value, weakest) == TargetFor(inp.index.value, f);
    if inp.policy.minConfidence in {"low", "medium", "high"} {
      assert Consider(f.(confidence := ""), inp) == Skip(SkipConfidence);
    }
  }

  // ----- the zero policy -----

  /** Filled in, the zero policy is the default policy without its persistence gates. */
  lemma ZeroFilledIn()
    ensures ApplyDefaults(ZERO_POLICY) == DEFAULT_POLICY.(minOccurrences := 0, requirePersistence := false)
  {
  }

  /** Whether recorded runs confirm a finding often enough for the default policy. */
  predicate Confirmed(f: Finding, inp: Inputs) {
    inp.occurrences.Some? && Seen(inp, f) >= DEFAULT_POLICY.minOccurrences
  }

  function Confirmable(findings: seq<Finding>, inp: Inputs): seq<Finding> {
    if findings == [] then []
    else
      var front, last := Confirmable(findings[..|findings| - 1], inp), findings[|findings| - 1];
      if Confirmed(last, inp) then front + [last] else front
  }

  /** On a confirmed finding the two policies decide alike; on any other the default does
      not act. */
  lemma PoliciesOnOne(f: Finding, inp: Inputs)
    requires inp.policy == ApplyDefaults(ZERO_POLICY)
    ensures var strict := inp.(policy := DEFAULT_POLICY);
            if Confirmed(f, inp) then Consider(f, strict) == Consider(f, inp) else !Consider(f, strict).Act?
    ensures Consider(f, inp).Act? ==> Consider(f, inp).action.occurrences == Seen(inp, f)
  {
    hide PlanTrim, TargetFor, Seen, C.ProviderManaged;
    var strict := inp.(policy := DEFAULT_POLICY);
    assert Seen(strict, f) == Seen(inp, f) by {
      SeenIgnoresPolicy(f, inp, strict);
    }
    var key := f.namespace + "/" + f.workload;
    if key in inp.workloads {
      SameTrim(inp.workloads[key], f.rule, inp.policy, DEFAULT_POLICY);
    }
  }

  /** The default policy plans what the zero policy plans for the confirmed findings alone. */
  lemma {:induction false} DefaultPlansConfirmed(findings: seq<Finding>, inp: Inputs)
    requires inp.policy == ApplyDefaults(ZERO_POLICY)
    ensures PlanFor(findings, inp.(policy := DEFAULT_POLICY)).actions == PlanFor(Confirmable(findings, inp), inp).actions
    ensures inp.occurrences.None? ==> PlanFor(findings, inp.(policy := DEFAULT_POLICY)).actions == []
  {
    if findings == [] {
      assert Confirmable(findings, inp) == [];
    } else {
      var n := |findings| - 1;
      DefaultPlansConfirmed(findings[..n], inp);
      DefaultPlanStep(findings[..n], Confirmable(findings[..n], inp), findings[n], inp);
      assert findings == findings[..n] + [findings[n]];
      hide PlanFor;
    }
  }

  lemma DefaultPlanStep(done: seq<Finding>, front: seq<Finding>, f: Finding, inp: Inputs)
    requires inp.policy == ApplyDefaults(ZERO_POLICY)
    requires PlanFor(done, inp.(policy := DEFAULT_POLICY)).actions == PlanFor(front, inp).actions
    ensures PlanFor(done + [f], inp.(policy := DEFAULT_POLICY)).actions
            == PlanFor(if Confirmed(f, inp) then front + [f] else front, inp).actions
    ensures inp.occurrences.None? ==>
              PlanFor(done + [f], inp.(policy := DEFAULT_POLICY)).actions == PlanFor(done, inp.(policy := DEFAULT_POLICY)).actions
  {
    hide Consider, PlanFor, Confirmed, ApplyDefaults;
    ZeroFilledIn();
    PoliciesOnOne(f, inp);
    PlanSnoc(done, f, inp.(policy := DEFAULT_POLICY));
    NeverWithoutRecords(f, inp);
    if Confirmed(f, inp) {
      PlanSnoc(front, f, inp);
    }
  }

  lemma NeverWithoutRecords(f: Finding, inp: Inputs)
    ensures inp.occurrences.None? ==> !Confirmed(f, inp)
  {
  }

  lemma PlanSnoc(front: seq<Finding>, f: Finding, inp: Inputs)
    requires inp.policy.Positive()
    ensures var prev := PlanFor(front, inp);
            PlanFor(front + [f], inp) == if |prev.actions| >= inp.policy.maxActions then prev else Append(prev, f, Consider(f, inp))
  {
    assert (front + [f])[..|front|] == front;
  }

  /** The first finding that passes every gate. */
  function FirstActing(findings: seq<Finding>, inp: Inputs): (r: Option<Finding>)
    requires inp.policy.Positive()
    ensures r.None? ==> forall f :: f in findings ==> !Consider(f, inp).Act?
    ensures r.Some? ==> exists i :: 0 <= i < |findings| && findings[i] == r.value && Consider(r.value, inp).Act?
                                    && forall j :: 0 <= j < i ==> !Consider(findings[j], inp).Act?
  {
    if findings == [] then None
    else if Consider(findings[0], inp).Act? then Some(findings[0])
    else FirstActing(findings[1..], inp)
  }

  /** The zero policy is documented as the most conservative. Its plan is the default's if and
      only if no finding passes its gates, or recorded runs confirm the first one that does. */
  lemma ZeroPlanExactly(findings: seq<Finding>, inp: Inputs)
    requires inp.policy == ApplyDefaults(ZERO_POLICY)
    ensures var first := FirstActing(findings, inp);
            PlanFor(findings, inp.(policy := DEFAULT_POLICY)).actions == PlanFor(findings, inp).actions
            <==> first.None? || Confirmed(first.value, inp)
  {
    PlansCompared(findings, inp);
    FirstIsPlanned(findings, inp);
    var first := FirstActing(findings, inp);
    if first.Some? {
      PoliciesOnOne(first.value, inp);
    }
    hide Consider, PlanFor, FirstActing;
  }

  /** With a budget of one the plan is the first acting finding's action. */
  lemma {:induction false} FirstIsPlanned(findings: seq<Finding>, inp: Inputs)
    requires inp.policy.Positive() && inp.policy.maxActions == 1
    ensures var first := FirstActing(findings, inp);
            PlanFor(findings, inp).actions == if first.None? then [] else [Consider(first.value, inp).action]
  {
    if findings == [] {
    } else {
      var n := |findings| - 1;
      FirstIsPlanned(findings[..n], inp);
      FirstActingSnoc(findings[..n], findings[n], inp);
      PlanSnoc(findings[..n], findings[n], inp);
      assert findings == findings[..n] + [findings[n]];
      hide Consider, PlanFor, FirstActing;
    }
  }

  lemma {:induction false} FirstActingSnoc(front: seq<Finding>, f: Finding, inp: Inputs)
    requires inp.policy.Positive()
    ensures var first := FirstActing(front, inp);
            FirstActing(front + [f], inp)
            == if first.Some? then first else if Consider(f, inp).Act? then Some(f) else None
  {
    hide Consider;
    if front == [] {
      assert [] + [f] == [f] && [f][1..] == [];
    } else {
      FirstActingSnoc(front[1..], f, inp);
      assert (front + [f])[1..] == front[1..] + [f];
    }
  }

  lemma {:induction false} PlansCompared(findings: seq<Finding>, inp: Inputs)
    requires inp.policy == ApplyDefaults(ZERO_POLICY)
    ensures var zero, strict := PlanFor(findings, inp).actions, PlanFor(findings, inp.(policy := DEFAULT_POLICY)).actions;
            && |zero| <= 1 && |strict| <= 1
            && (strict != [] ==> inp.occurrences.Some? && strict[0].occurrences >= DEFAULT_POLICY.minOccurrences)
            && (zero == [] ==> strict == [])
            && (zero != [] && inp.occurrences.Some? && zero[0].occurrences >= DEFAULT_POLICY.minOccurrences ==> strict == zero)
  {
    if findings == [] {
      assert PlanFor(findings, inp).actions == [];
    } else {
      var n := |findings| - 1;
      PlansCompared(findings[..n], inp);
      PoliciesOnOne(findings[n], inp);
      PlanSnoc(findings[..n], findings[n], inp);
      PlanSnoc(findings[..n], findings[n], inp.(policy := DEFAULT_POLICY));
      assert findings == findings[..n] + [findings[n]];
      hide Consider, PlanFor;
    }
  }

  /** Two findings on one workload, the second confirmed by three runs: the zero policy acts
      on the first, the default policy on the second. */
  lemma ZeroPlanDiverges() returns (findings: seq<Finding>, inp: Inputs)
    ensures inp.policy == ApplyDefaults(ZERO_POLICY) && |findings| == 2
    ensures var zero, strict := PlanFor(findings, inp).actions, PlanFor(findings, inp.(policy := DEFAULT_POLICY)).actions;
            && |zero| == 1 && zero[0].rule == MemoryOverProvisioned && zero[0].occurrences == 0
            && |strict| == 1 && strict[0].rule == CPUOverProvisioned && strict[0].occurrences == 3
  {
    var mem := Finding(MemoryOverProvisioned, "shop", "Deployment/web", 100, 1000, "high");
    var cpu := Finding(CPUOverProvisioned, "shop", "Deployment/web", 100, 1000, "high");
    var w := Workload("shop", "Deployment", "web", 1, ["app"], 1000, 1000, Some(100), Some(100));
    inp := OpenInputs(w, [mem.rule, cpu.rule], ApplyDefaults(ZERO_POLICY), map[OccurrenceKey(cpu) := 3]);
    findings := [mem, cpu];
    assert OccurrenceKey(mem)[0] == 'm' && OccurrenceKey(cpu)[0] == 'c';
    assert Seen(inp, mem) == 0 && Seen(inp, cpu) == 3;
    assert PlanTrim(w, mem.rule, inp.policy) == Some(500) && PlanTrim(w, cpu.rule, inp.policy) == Some(500);
    hide OccurrenceKey, RuleName, PlanTrim;
    OpenActs(mem, w, [mem.rule, cpu.rule], inp);
    OpenActs(cpu, w, [mem.rule, cpu.rule], inp);
    DivergeOnTwo(mem, cpu, inp);
  }

  /** A target that names the container "app" of the workload for the given rules. */
  function AppTarget(rules: seq<Rule>): C.Target {
    C.Target("", "shop", "Deployment/web", "", "", "", "app", RuleNames(rules), false)
  }

  function RuleNames(rules: seq<Rule>): (r: seq<string>)
    ensures |r| == |rules| && forall i :: 0 <= i < |rules| ==> r[i] == RuleName(rules[i])
  {
    seq(|rules|, i requires 0 <= i < |rules| => RuleName(rules[i]))
  }

  /** One workload with such a target, and recorded runs. */
  function OpenInputs(w: Workload, rules: seq<Rule>, p: Policy, seen: map<string, int>): Inputs {
    Inputs(Some(C.Index(map[("shop", "Deployment/web") := AppTarget(rules)], {})), map["shop" + "/" + "Deployment/web" := w],
           p, Some(seen))
  }

  /** With confidence and recorded runs to match, such a finding is acted on whenever a trim
      is available. */
  lemma OpenActs(f: Finding, w: Workload, rules: seq<Rule>, inp: Inputs)
    requires IsTrim(f) && f.rule in rules && f.namespace == "shop" && f.workload == "Deployment/web"
    requires inp.policy.Positive() && inp.occurrences.Some? && inp == OpenInputs(w, rules, inp.policy, inp.occurrences.value)
    requires Rank(f.confidence) >= Rank(inp.policy.minConfidence) && Seen(inp, f) >= inp.policy.minOccurrences
    requires PlanTrim(w, f.rule, inp.policy).Some?
    ensures w.replicas >= 1
    ensures Consider(f, inp) == Act(ActionFor(w, f, "app", PlanTrim(w, f.rule, inp.policy).value, Seen(inp, f), false))
  {
    hide *;
    AppIsOurs();
    OpenFields(f, w, rules, inp);
    PassesEveryGate(f, w, inp, AppTarget(rules));
  }

  lemma PassesEveryGate(f: Finding, w: Workload, inp: Inputs, t: C.Target)
    requires inp.policy.Positive() && inp.occurrences.Some? && IsTrim(f) && !C.ProviderManaged(f.namespace, f.workload)
    requires inp.index.Some? && TargetFor(inp.index.value, f) == Some(t) && t.container == "app" && !t.requiresOptIn
    requires f.namespace + "/" + f.workload in inp.workloads && inp.workloads[f.namespace + "/" + f.workload] == w
    requires Rank(f.confidence) >= Rank(inp.policy.minConfidence) && Seen(inp, f) >= inp.policy.minOccurrences
    requires PlanTrim(w, f.rule, inp.policy).Some?
    ensures w.replicas >= 1
    ensures Consider(f, inp) == Act(ActionFor(w, f, "app", PlanTrim(w, f.rule, inp.policy).value, Seen(inp, f), false))
  {
    TrimIsBounded(w, f.rule, inp.policy);
    hide C.ProviderManaged, TargetFor, PlanTrim, Seen, Rank;
  }

  lemma OpenFields(f: Finding, w: Workload, rules: seq<Rule>, inp: Inputs)
    requires f.rule in rules && f.namespace == "shop" && f.workload == "Deployment/web"
    requires inp.occurrences.Some? && inp == OpenInputs(w, rules, inp.policy, inp.occurrences.value)
    ensures inp.index.Some? && TargetFor(inp.index.value, f) == Some(AppTarget(rules))
    ensures AppTarget(rules).container == "app" && !AppTarget(rules).requiresOptIn
    ensures f.namespace + "/" + f.workload in inp.workloads && inp.workloads[f.namespace + "/" + f.workload] == w
  {
    hide TargetFor, RuleName, RuleNames;
    var i :| 0 <= i < |rules| && rules[i] == f.rule;
    assert RuleNames(rules)[i] == RuleName(f.rule);
    OnlyTarget(inp.index.value, f, AppTarget(rules));
  }

  lemma AppIsOurs()
    ensures !C.ProviderManaged("shop", "Deployment/web")
  {
  }

  lemma OnlyTarget(index: C.Index, f: Finding, t: C.Target)
    requires index == C.Index(map[(f.namespace, f.workload) := t], {}) && f.workload != "*"
    requires RuleName(f.rule) in t.supportedRules && t.namespace != "*"
    ensures TargetFor(index, f) == Some(t)
  {
    hide RuleName;
    var rule, keys := RuleName(f.rule), C.Layers(index, f.namespace, f.workload);
    assert keys == [(f.namespace, f.workload), (f.namespace, "*")];
    assert C.Present(index.byKey, keys) == [t] by {
      assert keys[..1] == [(f.namespace, f.workload)] && keys[..1][..0] == [];
      assert C.Present(index.byKey, keys[..1]) == [t];
    }
    hide C.Present, C.Layers, C.Resolve;
    C.OneLayer(t, rule);
  }

  lemma DivergeOnTwo(first: Finding, second: Finding, inp: Inputs)
    requires inp.policy == ApplyDefaults(ZERO_POLICY)
    requires Consider(first, inp).Act? && Consider(second, inp).Act?
    requires !Confirmed(first, inp) && Confirmed(second, inp)
    ensures PlanFor([first, second], inp).actions == [Consider(first, inp).action]
    ensures PlanFor([first, second], inp.(policy := DEFAULT_POLICY)).actions == [Consider(second, inp).action]
    ensures Consider(first, inp).action.occurrences == Seen(inp, first)
    ensures Consider(second, inp).action.occurrences == Seen(inp, second)
  {
    var strict := inp.(policy := DEFAULT_POLICY);
    PoliciesOnOne(first, inp);
    PoliciesOnOne(second, inp);
    PlanSnoc([], first, inp);
    PlanSnoc([first], second, inp);
    PlanSnoc([], first, strict);
    PlanSnoc([first], second, strict);
    assert [] + [first] == [first] && [first] + [second] == [first, second];
    assert PlanFor([], inp).actions == [] && PlanFor([], strict).actions == [];
    hide Consider, PlanFor, Confirmed;
  }

  lemma SeenIgnoresPolicy(f: Finding, a: Inputs, b: Inputs)
    requires a.occurrences == b.occurrences
    ensures Seen(a, f) == Seen(b, f)
  {
  }

  lemma SameTrim(w: Workload, rule: Rule, p: Policy, q: Policy)
    requires p.Positive() && q.Positive() && TrimOf(p, rule) == TrimOf(q, rule)
    ensures PlanTrim(w, rule, p) == PlanTrim(w, rule, q)
  {
    hide ProposeRequest;
  }

  // ----- the analyzer's own findings -----

  /** Every trim that the usage rules report is reported with low confidence. */
  lemma {:induction false} TrimsAreLow(ws: seq<Workload>, f: Finding)
    requires f in AllFindings(ws) && IsTrim(f)
    ensures f.confidence == "low"
  {
    hide Fires;
    var n := |ws| - 1;
    if f in AllFindings(ws[..n]) {
      TrimsAreLow(ws[..n], f);
    } else {
      assert f in FindingsOf(ws[n]);
    }
  }

  ghost predicate NothingPlanned(ws: seq<Workload>, inp: Inputs, p: Policy)
    requires p.Positive()
  {
    inp.policy == p ==> PlanFor(AllFindings(ws), inp).actions == []
  }

  /** Nothing the analyzer reports on usage is ever planned, whatever the cluster, its targets
      and its recorded runs, if and only if the policy asks for more than low confidence, as
      the default policy does. */
  lemma AnalyzerPlansExactly(p: Policy)
    requires p.Positive()
    ensures (forall ws: seq<Workload>, inp: Inputs :: NothingPlanned(ws, inp, p)) <==> p.minConfidence in {"medium", "high"}
  {
    if p.minConfidence in {"medium", "high"} {
      forall ws: seq<Workload>, inp: Inputs ensures NothingPlanned(ws, inp, p) {
        if inp.policy == p {
          LowNeverActs(AllFindings(ws), ws, inp);
        }
      }
    } else {
      var w, f := Trimmable(p);
      var inp := OpenInputs(w, [f.rule], p, map[OccurrenceKey(f) := Max(p.minOccurrences, 0)]);
      assert AllFindings([w]) == [f] by {
        assert [w][..0] == [] && AllFindings([]) == [];
      }
      assert Rank(f.confidence) >= Rank(p.minConfidence);
      hide OccurrenceKey, PlanTrim, OpenInputs, Rank, FindingsOf, Consider;
      assert Seen(inp, f) >= p.minOccurrences by {
        assert inp.occurrences == Some(map[OccurrenceKey(f) := Max(p.minOccurrences, 0)]);
      }
      OpenActs(f, w, [f.rule], inp);
      PlanSnoc([], f, inp);
      assert [] + [f] == [f] && PlanFor([], inp) == Plan([], []);
      assert !NothingPlanned([w], inp, p);
    }
  }

  lemma {:induction false} LowNeverActs(findings: seq<Finding>, ws: seq<Workload>, inp: Inputs)
    requires inp.policy.Positive() && inp.policy.minConfidence in {"medium", "high"}
    requires forall f :: f in findings ==> f in AllFindings(ws)
    ensures PlanFor(findings, inp).actions == []
  {
    if findings == [] {
    } else {
      var n := |findings| - 1;
      assert findings == findings[..n] + [findings[n]];
      LowNeverActs(findings[..n], ws, inp);
      PlanSnoc(findings[..n], findings[n], inp);
      assert !Consider(findings[n], inp).Act? by {
        if IsTrim(findings[n]) {
          TrimsAreLow(ws, findings[n]);
        }
        hide TargetFor, C.ProviderManaged, PlanTrim, AllFindings;
      }
      hide Consider, PlanFor, AllFindings;
    }
  }

  /** A workload that the analyzer reports and the policy would trim. */
  lemma Trimmable(p: Policy) returns (w: Workload, f: Finding)
    requires p.Positive()
    ensures FindingsOf(w) == [f] && IsTrim(f) && f.confidence == "low" && f.namespace == "shop" && f.workload == "Deployment/web"
    ensures PlanTrim(w, f.rule, p).Some?
  {
    var wanted := Max(GoDiv(p.headroomNum, p.headroomDen), p.cpuFloor);
    var request := wanted + p.maxTrimDen + 200;
    w := Workload("shop", "Deployment", "web", 1, ["app"], request, 0, Some(1), None);
    f := Finding(CPUOverProvisioned, "shop", Named(w), 1, request, "low");
    assert Fires(CPUOverProvisioned, 1, request);
    hide Fires;
    ProposalBounds(1, request, TrimOf(p, CPUOverProvisioned));
    assert GoDiv(1 * p.headroomNum, p.headroomDen) == GoDiv(p.headroomNum, p.headroomDen);
    ShareAtLeastOne(request, p.maxTrimNum, p.maxTrimDen);
    hide ProposeRequest;
  }

  lemma ShareAtLeastOne(request: nat, num: nat, den: nat)
    requires request >= den >= 1 && num >= 1
    ensures GoDiv(request * num, den) >= 1
  {
    MulMonotone(1, num, request);
    assert request * num == num * request;
  }

  ghost predicate Justified(a: PlannedAction, findings: seq<Finding>, inp: Inputs) {
    exists f :: f in findings && Authorised(a, f, inp)
  }

  /** Every planned action is justified by a finding that met every gate, carries that
      workload's own figures, and is a bounded trim of exactly one resource. */
  lemma {:induction false} PlannedActionsSafe(findings: seq<Finding>, inp: Inputs, a: PlannedAction)
    requires inp.policy.Positive() && a in PlanFor(findings, inp).actions
    ensures Justified(a, findings, inp) && BoundedTrim(a, inp.policy)
  {
    hide Consider, Authorised, BoundedTrim;
    var n := |findings| - 1;
    assert findings == findings[..n] + [findings[n]];
    if a in PlanFor(findings[..n], inp).actions {
      PlannedActionsSafe(findings[..n], inp, a);
      var f :| f in findings[..n] && Authorised(a, f, inp);
      assert f in findings;
    } else {
      ActionPassedGates(findings[n], inp);
      assert findings[n] in findings;
    }
  }

  function TrimFindings(findings: seq<Finding>): nat {
    if findings == [] then 0
    else TrimFindings(findings[..|findings| - 1]) + if IsTrim(findings[|findings| - 1]) then 1 else 0
  }

  /** A finding is ignored exactly when it is not about a trim. */
  lemma OneOutcome(f: Finding, inp: Inputs)
    requires inp.policy.Positive()
    ensures Consider(f, inp).Ignore? <==> !IsTrim(f)
  {
    hide C.ProviderManaged, TargetFor, PlanTrim, Seen;
  }

  /** The plan respects the action budget, and every trim finding visited became exactly
      one action or one skip; all of them are visited unless the budget is used up. */
  lemma {:induction false} PlanAccounts(findings: seq<Finding>, inp: Inputs) returns (visited: nat)
    requires inp.policy.Positive()
    ensures visited <= |findings|
    ensures var plan := PlanFor(findings, inp);
            && |plan.actions| <= inp.policy.maxActions
            && |plan.actions| + |plan.skipped| == TrimFindings(findings[..visited])
            && (visited < |findings| ==> |plan.actions| == inp.policy.maxActions)
  {
    if findings == [] {
      visited := 0;
    } else {
      var n := |findings| - 1;
      hide Consider, PlanFor, IsTrim;
      visited := PlanAccounts(findings[..n], inp);
      assert findings[..n][..visited] == findings[..visited];
      assert findings == findings[..n] + [findings[n]];
      PlanSnoc(findings[..n], findings[n], inp);
      if |PlanFor(findings[..n], inp).actions| < inp.policy.maxActions {
        OneOutcome(findings[n], inp);
        assert visited == n;
        visited := n + 1;
        assert findings[..n + 1] == findings;
        assert TrimFindings(findings) == TrimFindings(findings[..n]) + if IsTrim(findings[n]) then 1 else 0;
        hide TrimFindings;
      }
    }
  }
}
