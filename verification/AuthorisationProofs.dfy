/** What it takes for a finding to be acted on and patched, in the fields of the finding, the
    targets, the snapshot and the policy. */
module AuthorisationProofs {
  import opened Basics
  import opened HaltSwitch
  import opened Tuning
  import opened Planner
  import opened Applier

  // ----- what the tool must not touch -----

  const PLATFORM_NAMESPACES: set<string> :=
    {"cert-manager", "ingress-nginx", "kube-system", "kube-public", "kube-node-lease", "cluster-optimizer"}

  const PLATFORM_WORKLOADS: set<string> :=
    {"kube-proxy", "cilium", "cilium-operator", "csi-do-node", "csi-do-controller", "do-node-agent",
     "doks-telemetry-config-reloader", "doks-telemetry-fluent-bit", "konnectivity-agent", "hubble-relay",
     "hubble-ui", "coredns", "metrics-server", "cpc-bridge-proxy"}

  /** A namespace of the platform, by name or by pattern. */
  ghost predicate PlatformNamespace(ns: string) {
    || ns in PLATFORM_NAMESPACES
    || (exists rest :: ns == "kube-" + rest)
    || (exists rest :: ns == rest + "-system")
    || (exists rest :: ns == rest + "-operator")
  }

  /** The workload, as "Kind/name", has a name the platform reconciles. */
  ghost predicate PlatformWorkload(workload: string) {
    exists kind, name :: workload == kind + "/" + name && kind != "" && '/' !in kind && name in PLATFORM_WORKLOADS
  }

  lemma OffLimitsExactly(ns: string, workload: string)
    ensures C.ProviderManaged(ns, workload) <==> PlatformNamespace(ns) || PlatformWorkload(workload)
  {
    NamespaceExactly(ns);
    WorkloadExactly(workload);
    hide PlatformNamespace, PlatformWorkload, C.SplitName, C.HasSuffix;
  }

  lemma NamespaceExactly(ns: string)
    ensures PlatformNamespace(ns)
            <==> (ns in C.MANAGED_NAMESPACES || "kube-" <= ns || C.HasSuffix(ns, "-system") || C.HasSuffix(ns, "-operator"))
  {
    if "kube-" <= ns {
      assert ns == "kube-" + ns[5..];
    }
    if C.HasSuffix(ns, "-system") {
      assert ns == ns[..|ns| - 7] + "-system";
    }
    if C.HasSuffix(ns, "-operator") {
      assert ns == ns[..|ns| - 9] + "-operator";
    }
  }

  lemma WorkloadExactly(workload: string)
    ensures PlatformWorkload(workload) <==> C.SplitName(workload).Some? && C.SplitName(workload).value in C.MANAGED_NAMES
  {
    NamesNotEmpty();
    if C.SplitName(workload).Some? && C.SplitName(workload).value in C.MANAGED_NAMES {
      hide C.SlashAt;
      var i := C.SlashAt(workload, 0);
      FirstSlash(workload, 0);
      SplitsBack(workload, i);
      assert workload[..i] != "" && C.SplitName(workload).value == workload[i + 1..];
    }
    if PlatformWorkload(workload) {
      var kind, name :| workload == kind + "/" + name && kind != "" && '/' !in kind && name in PLATFORM_WORKLOADS;
      hide PlatformWorkload, C.SlashAt;
      SplitsAt(workload, kind, name);
    }
  }

  lemma SplitsBack(workload: string, i: nat)
    requires i < |workload| && workload[i] == '/' && forall k :: 0 <= k < i ==> workload[k] != '/'
    ensures workload == workload[..i] + "/" + workload[i + 1..] && '/' !in workload[..i]
  {
  }

  lemma SplitsAt(workload: string, kind: string, name: string)
    requires workload == kind + "/" + name && '/' !in kind
    ensures C.SlashAt(workload, 0) == |kind| && workload[|kind| + 1..] == name
  {
    FirstSlash(workload, 0);
    assert workload[|kind|] == '/';
    assert forall k :: 0 <= k < |kind| ==> workload[k] == kind[k] && kind[k] in kind;
  }

  lemma NamesNotEmpty()
    ensures "" !in C.MANAGED_NAMES
  {
  }

  lemma {:induction false} FirstSlash(s: string, from: nat)
    requires from <= |s|
    ensures forall k :: from <= k < C.SlashAt(s, from) ==> s[k] != '/'
    decreases |s| - from
  {
    if from == |s| || s[from] == '/' {
    } else {
      FirstSlash(s, from + 1);
    }
  }

  /** The gate stops exactly the platform's own: a trim finding on it is skipped as managed,
      and no other is, once there are targets. */
  lemma ManagedGateExactly(f: Finding, inp: Inputs)
    requires inp.policy.Positive() && IsTrim(f)
    ensures Consider(f, inp) == Skip(SkipManaged)
            <==> inp.index.None? || PlatformNamespace(f.namespace) || PlatformWorkload(f.workload)
  {
    OffLimitsExactly(f.namespace, f.workload);
    hide C.ProviderManaged, TargetFor, Seen, PlanTrim, Rank, PlatformNamespace, PlatformWorkload;
  }

  /** No action of a plan stems from a finding on the platform's own. */
  lemma PlansSparePlatform(findings: seq<Finding>, inp: Inputs, a: PlannedAction)
    requires inp.policy.Positive() && a in PlanFor(findings, inp).actions
    ensures exists f :: f in findings && Authorised(a, f, inp) && !PlatformNamespace(f.namespace) && !PlatformWorkload(f.workload)
  {
    PlannedActionsSafe(findings, inp, a);
    var f :| f in findings && Authorised(a, f, inp);
    OffLimitsExactly(f.namespace, f.workload);
    hide C.ProviderManaged, PlatformNamespace, PlatformWorkload;
  }

  /** The namespace carries the label that opts in, where the action needs it to. */
  ghost predicate LabelledIfNeeded(a: PlannedAction, server: Server) {
    a.requiresOptIn ==>
      && a.namespace in server.namespaceLabels
      && "cluster-optimizer.io/remediation" in server.namespaceLabels[a.namespace]
      && server.namespaceLabels[a.namespace]["cluster-optimizer.io/remediation"] == "enabled"
  }

  /** The switch is on: unreadable, or set to "true". */
  ghost predicate Stopped(halt: HaltConfig, key: string) {
    halt.ReadError? || (halt.Data? && key in halt.entries && halt.entries[key] == "true")
  }

  /** An action of whatever list is patched if and only if both live gates are set, nothing
      has stopped the run, its kind is known, it has a figure, it is not the platform's own,
      and its namespace is labelled where it must be. */
  lemma PatchedExactly(actions: seq<PlannedAction>, opts: Options, halt: HaltConfig, haltKey: string, server: Server, a: PlannedAction)
    ensures a in PatchesOf(actions, opts, halt, haltKey, server)
            <==> (a in actions && opts.autoApply && opts.autoApplyEnvSet && !Stopped(halt, haltKey)
                  && a.kind in {"Deployment", "DaemonSet", "StatefulSet"} && (a.newCPU > 0 || a.newMem > 0)
                  && !PlatformNamespace(a.namespace) && a.name !in PLATFORM_WORKLOADS && LabelledIfNeeded(a, server))
  {
    HaltByCase(actions, opts, halt, haltKey, server);
    IssuedExactly(actions, server, a);
    IssuesExactly(a, server);
    hide PatchesOf, Issued, Issues, PlatformNamespace, LabelledIfNeeded;
  }

  lemma {:induction false} IssuedExactly(actions: seq<PlannedAction>, server: Server, a: PlannedAction)
    ensures a in Issued(actions, true, server) <==> a in actions && Issues(a, true, server)
  {
    hide Issues;
    if actions == [] {
    } else {
      var n := |actions| - 1;
      assert actions == actions[..n] + [actions[n]];
      IssuedExactly(actions[..n], server, a);
    }
  }

  lemma IssuesExactly(a: PlannedAction, server: Server)
    ensures Issues(a, true, server)
            <==> (a.kind in {"Deployment", "DaemonSet", "StatefulSet"} && (a.newCPU > 0 || a.newMem > 0)
                  && !PlatformNamespace(a.namespace) && a.name !in PLATFORM_WORKLOADS && LabelledIfNeeded(a, server))
  {
    OffLimitsExactly(a.namespace, a.kind + "/" + a.name);
    if KnownKind(a.kind) {
      PlainKind(a.kind, a.name);
    }
    assert NamespaceAllows(a, server) <==> LabelledIfNeeded(a, server);
    hide C.ProviderManaged, PlatformNamespace, PlatformWorkload, NamespaceAllows, LabelledIfNeeded;
  }

  lemma PlainKind(kind: string, name: string)
    requires kind in {"Deployment", "DaemonSet", "StatefulSet"}
    ensures PlatformWorkload(kind + "/" + name) <==> name in PLATFORM_WORKLOADS
  {
    assert '/' !in kind && kind != "";
    if PlatformWorkload(kind + "/" + name) {
      var k, n :| kind + "/" + name == k + "/" + n && k != "" && '/' !in k && n in PLATFORM_WORKLOADS;
      hide PlatformWorkload;
      SplitsAt(kind + "/" + name, kind, name);
      SplitsAt(kind + "/" + name, k, n);
      assert n == name;
    }
  }

  // ----- when a finding is acted on -----

  /** The rule's identifier, as findings, targets and recorded runs spell it. */
  function RuleId(rule: Rule): string {
    if rule.CPUOverProvisioned? then "cpu-request-over-provisioned"
    else if rule.MemoryOverProvisioned? then "memory-request-over-provisioned"
    else "memory-request-below-usage"
  }

  /** Whether a target is on one of the finding's layers: its own, its namespace's, and the
      wildcards of a namespace that opted in. */
  ghost predicate OnLayer(index: C.Index, f: Finding, key: C.Key) {
    || key == (f.namespace, f.workload)
    || key == (f.namespace, "*")
    || (f.namespace in index.optedIn && (key == ("*", f.workload) || key == ("*", "*")))
  }

  ghost predicate Supported(index: C.Index, f: Finding) {
    exists key :: key in index.byKey && OnLayer(index, f, key) && RuleId(f.rule) in index.byKey[key].supportedRules
  }

  function ContainerAt(index: C.Index, key: C.Key): string {
    if key in index.byKey then index.byKey[key].container else ""
  }

  function Or(first: string, second: string): string {
    if first != "" then first else second
  }

  /** The container named by the most specific layer that names one. */
  function LayeredContainer(index: C.Index, f: Finding): string {
    Or(ContainerAt(index, (f.namespace, f.workload)),
       Or(ContainerAt(index, (f.namespace, "*")),
          if f.namespace in index.optedIn
          then Or(ContainerAt(index, ("*", f.workload)), ContainerAt(index, ("*", "*"))) else ""))
  }

  lemma {:induction false} PresentHolds(byKey: map<C.Key, C.Target>, keys: seq<C.Key>, t: C.Target)
    ensures t in C.Present(byKey, keys) <==> exists k :: k in keys && k in byKey && byKey[k] == t
  {
    if keys == [] {
    } else {
      var n := |keys| - 1;
      assert keys == keys[..n] + [keys[n]];
      PresentHolds(byKey, keys[..n], t);
    }
  }

  lemma LayersHold(index: C.Index, f: Finding, key: C.Key)
    ensures key in C.Layers(index, f.namespace, f.workload) <==> OnLayer(index, f, key)
  {
  }

  lemma TargetExists(index: C.Index, f: Finding)
    ensures TargetFor(index, f).Some? <==> Supported(index, f)
  {
    var keys := C.Layers(index, f.namespace, f.workload);
    var layers := C.Present(index.byKey, keys);
    assert RuleName(f.rule) == RuleId(f.rule) && RuleName(f.rule) != "";
    hide RuleName, RuleId, C.Present, C.Layers, OnLayer;
    if Supported(index, f) {
      var key :| key in index.byKey && OnLayer(index, f, key) && RuleId(f.rule) in index.byKey[key].supportedRules;
      LayersHold(index, f, key);
      PresentHolds(index.byKey, keys, index.byKey[key]);
      var i :| 0 <= i < |layers| && layers[i] == index.byKey[key];
      assert C.Supports(layers, RuleName(f.rule));
      C.FieldsAreLayered(layers, RuleName(f.rule), C.ContainerName);
    }
    if C.Supports(layers, RuleName(f.rule)) {
      var i :| 0 <= i < |layers| && RuleName(f.rule) in layers[i].supportedRules;
      PresentHolds(index.byKey, keys, layers[i]);
      var key :| key in keys && key in index.byKey && index.byKey[key] == layers[i];
      LayersHold(index, f, key);
    }
  }

  lemma ContainerIsLayered(index: C.Index, f: Finding)
    requires TargetFor(index, f).Some?
    ensures TargetFor(index, f).value.container == LayeredContainer(index, f)
  {
    var keys := C.Layers(index, f.namespace, f.workload);
    var layers := C.Present(index.byKey, keys);
    assert layers != [];
    C.FieldsAreLayered(layers, RuleName(f.rule), C.ContainerName);
    assert TargetFor(index, f) == C.Merged(layers, RuleName(f.rule));
    hide C.Merged, C.Resolve, RuleName;
    FirstOfLayers(index, f);
  }

  lemma FirstOfLayers(index: C.Index, f: Finding)
    ensures C.FirstNonEmpty(C.Present(index.byKey, C.Layers(index, f.namespace, f.workload)), C.ContainerName)
            == LayeredContainer(index, f)
  {
    hide C.Present, C.FirstNonEmpty, ContainerAt;
    var own: seq<C.Key> := [(f.namespace, f.workload), (f.namespace, "*")];
    assert own + [] == own;
    FourLayers(index, [], (f.namespace, f.workload), (f.namespace, "*"), ("*", f.workload), ("*", "*"));
  }

  lemma FourLayers(index: C.Index, none: seq<C.Key>, a: C.Key, b: C.Key, c: C.Key, d: C.Key)
    requires none == []
    ensures C.FirstNonEmpty(C.Present(index.byKey, [a, b]), C.ContainerName) == Or(ContainerAt(index, a), ContainerAt(index, b))
    ensures C.FirstNonEmpty(C.Present(index.byKey, [a, b] + [c, d]), C.ContainerName)
            == Or(ContainerAt(index, a), Or(ContainerAt(index, b), Or(ContainerAt(index, c), ContainerAt(index, d))))
  {
    NoLayers(index, none);
    hide C.Present, C.FirstNonEmpty, ContainerAt;
    NextLayer(index, none, a);
    NextLayer(index, [a], b);
    NextLayer(index, [a, b], c);
    NextLayer(index, [a, b, c], d);
    assert none + [a] == [a] && [a] + [b] == [a, b] && [a, b] + [c] == [a, b, c] && [a, b, c] + [d] == [a, b] + [c, d];
  }

  lemma NoLayers(index: C.Index, none: seq<C.Key>)
    requires none == []
    ensures C.FirstNonEmpty(C.Present(index.byKey, none), C.ContainerName) == ""
  {
  }

  lemma NextLayer(index: C.Index, keys: seq<C.Key>, key: C.Key)
    ensures C.FirstNonEmpty(C.Present(index.byKey, keys + [key]), C.ContainerName)
            == Or(C.FirstNonEmpty(C.Present(index.byKey, keys), C.ContainerName), ContainerAt(index, key))
  {
    var front := C.Present(index.byKey, keys);
    assert (keys + [key])[..|keys|] == keys;
    if key in index.byKey {
      C.FirstNonEmptyAppend(front, index.byKey[key], C.ContainerName);
      assert C.Present(index.byKey, keys + [key]) == front + [index.byKey[key]];
    } else {
      assert C.Present(index.byKey, keys + [key]) == front;
    }
  }

  /** The confidence asked for is met; an unknown one asks for nothing and meets nothing more. */
  ghost predicate Confident(confidence: string, minimum: string) {
    match minimum
    case "high" => confidence == "high"
    case "medium" => confidence == "high" || confidence == "medium"
    case "low" => confidence == "high" || confidence == "medium" || confidence == "low"
    case _ => true
  }

  /** In how many recorded runs the finding was seen. */
  function Runs(inp: Inputs, f: Finding): int {
    var key := RuleId(f.rule) + ['\0'] + f.namespace + ['\0'] + f.workload;
    if inp.occurrences.Some? && key in inp.occurrences.value then inp.occurrences.value[key] else 0
  }

  /** The policy lets the workload's per-replica request of the resource be lowered. */
  ghost predicate Trimmable(w: Workload, rule: Rule, p: Policy)
    requires p.Positive()
  {
    var cpu := rule.CPUOverProvisioned?;
    var usage, request := if cpu then w.usageCPU else w.usageMem, if cpu then w.reqCPU else w.reqMem;
    && w.replicas >= 1 && usage.Some? && request > 0
    && RoomToTrim(GoDiv(usage.value, w.replicas), request / w.replicas, if cpu then p.cpuFloor else p.memFloor,
                  p.headroomNum, p.headroomDen, p.maxTrimNum, p.maxTrimDen)
  }

  /** Usage with headroom and the floor stay below the request, and the cap is worth a unit. */
  ghost predicate RoomToTrim(u: int, c: int, floor: int, headroomNum: int, headroomDen: int, maxNum: int, maxDen: int)
    requires headroomDen > 0 && maxDen > 0
  {
    u >= 0 && floor < c && u * headroomNum / headroomDen < c && c * maxNum / maxDen >= 1
  }

  lemma TrimmableExactly(w: Workload, rule: Rule, p: Policy)
    requires p.Positive() && !rule.MemoryBelowUsage?
    ensures PlanTrim(w, rule, p).Some? <==> Trimmable(w, rule, p)
  {
    hide ProposeRequest, GoDiv, RoomToTrim;
    if w.replicas >= 1 && UsageOf(w, rule).Some? && RequestOf(w, rule) > 0 {
      Divides(RequestOf(w, rule), w.replicas);
      ProposedExactly(GoDiv(UsageOf(w, rule).value, w.replicas), RequestOf(w, rule) / w.replicas, TrimOf(p, rule));
    }
  }

  lemma Divides(total: int, parts: int)
    requires total >= 0 && parts >= 1
    ensures GoDiv(total, parts) == total / parts >= 0
  {
  }

  lemma ProposedExactly(u: int, c: int, p: Trim)
    requires p.Positive() && c >= 0
    ensures 0 < ProposeRequest(u, c, p) < c
            <==> RoomToTrim(u, c, p.floor, p.headroomNum, p.headroomDen, p.maxNum, p.maxDen)
  {
    ProposalBounds(u, c, p);
    ProductPositive(c, p.maxNum);
    assert GoDiv(c * p.maxNum, p.maxDen) == c * p.maxNum / p.maxDen >= 0;
    if u >= 0 {
      ProductPositive(u, p.headroomNum);
      assert GoDiv(u * p.headroomNum, p.headroomDen) == u * p.headroomNum / p.headroomDen;
    }
    hide ProposeRequest, GoDiv;
  }

  lemma ConfidentExactly(confidence: string, minimum: string)
    ensures Rank(confidence) >= Rank(minimum) <==> Confident(confidence, minimum)
  {
  }

  /** A finding is acted on if and only if every gate, spelled out, lets it through. */
  lemma ActsExactly(f: Finding, inp: Inputs)
    requires inp.policy.Positive()
    ensures Consider(f, inp).Act?
            <==> (!f.rule.MemoryBelowUsage? && inp.index.Some?
                  && !PlatformNamespace(f.namespace) && !PlatformWorkload(f.workload)
                  && Supported(inp.index.value, f) && Confident(f.confidence, inp.policy.minConfidence)
                  && (inp.policy.requirePersistence ==> inp.occurrences.Some?) && Runs(inp, f) >= inp.policy.minOccurrences
                  && f.namespace + "/" + f.workload in inp.workloads
                  && var w, container := inp.workloads[f.namespace + "/" + f.workload], LayeredContainer(inp.index.value, f);
                     container != "" && (container == "*" ==> |w.containers| == 1) && Trimmable(w, f.rule, inp.policy))
  {
    OffLimitsExactly(f.namespace, f.workload);
    ConfidentExactly(f.confidence, inp.policy.minConfidence);
    RunsExactly(f, inp);
    if inp.index.Some? {
      TargetExists(inp.index.value, f);
      if TargetFor(inp.index.value, f).Some? {
        ContainerIsLayered(inp.index.value, f);
      }
    }
    var key := f.namespace + "/" + f.workload;
    if key in inp.workloads && IsTrim(f) {
      TrimmableExactly(inp.workloads[key], f.rule, inp.policy);
    }
    hide C.ProviderManaged, TargetFor, Seen, PlanTrim, Rank, PlatformNamespace, PlatformWorkload, Supported, Confident, Runs,
      LayeredContainer, Trimmable, RoomToTrim;
  }

  lemma RunsExactly(f: Finding, inp: Inputs)
    ensures Seen(inp, f) == Runs(inp, f)
  {
  }

  /** The request per replica that the policy proposes: usage with headroom, but no less than
      the floor, nor than what the cap leaves of the current request. */
  function Proposed(u: int, c: int, floor: int, headroomNum: int, headroomDen: int, maxNum: int, maxDen: int): int
    requires headroomDen > 0 && maxDen > 0
  {
    var wanted, least := u * headroomNum / headroomDen, c - c * maxNum / maxDen;
    if wanted >= floor && wanted >= least then wanted else if floor >= least then floor else least
  }

  lemma ProposedIs(u: int, c: int, p: Trim)
    requires p.Positive() && c >= 0 && RoomToTrim(u, c, p.floor, p.headroomNum, p.headroomDen, p.maxNum, p.maxDen)
    ensures ProposeRequest(u, c, p) == Proposed(u, c, p.floor, p.headroomNum, p.headroomDen, p.maxNum, p.maxDen)
  {
    ProductPositive(c, p.maxNum);
    ProductPositive(u, p.headroomNum);
    assert GoDiv(c * p.maxNum, p.maxDen) == c * p.maxNum / p.maxDen;
    assert GoDiv(u * p.headroomNum, p.headroomDen) == u * p.headroomNum / p.headroomDen;
    hide GoDiv;
  }

  /** What the action on a finding says: the workload, the layered container, the request per
      replica and the proposal for it, and nothing about the other resource. */
  lemma ActionSays(f: Finding, inp: Inputs)
    requires inp.policy.Positive() && Consider(f, inp).Act?
    ensures var a, w, p := Consider(f, inp).action, inp.workloads[f.namespace + "/" + f.workload], inp.policy;
            var named := LayeredContainer(inp.index.value, f);
            && a.namespace == w.namespace && a.kind == w.kind && a.name == w.name
            && (if named == "*" then w.containers == [a.container] else a.container == named)
            && (if f.rule.CPUOverProvisioned?
                then a.currentMem == a.newMem == -1 && a.currentCPU == w.reqCPU / w.replicas
                     && a.newCPU == Proposed(GoDiv(w.usageCPU.value, w.replicas), a.currentCPU, p.cpuFloor,
                                             p.headroomNum, p.headroomDen, p.maxTrimNum, p.maxTrimDen)
                else a.currentCPU == a.newCPU == -1 && a.currentMem == w.reqMem / w.replicas
                     && a.newMem == Proposed(GoDiv(w.usageMem.value, w.replicas), a.currentMem, p.memFloor,
                                             p.headroomNum, p.headroomDen, p.maxTrimNum, p.maxTrimDen))
  {
    ActsExactly(f, inp);
    var w := inp.workloads[f.namespace + "/" + f.workload];
    FigureIs(w, f.rule, inp.policy);
    ContainerIsLayered(inp.index.value, f);
    hide C.ProviderManaged, TargetFor, Seen, PlanTrim, Rank, PlatformNamespace, PlatformWorkload, Supported, Confident, Runs,
      LayeredContainer, Trimmable, Proposed, GoDiv;
  }

  lemma FigureIs(w: Workload, rule: Rule, p: Policy)
    requires p.Positive() && !rule.MemoryBelowUsage? && Trimmable(w, rule, p)
    ensures var cpu := rule.CPUOverProvisioned?;
            var c := (if cpu then w.reqCPU else w.reqMem) / w.replicas;
            && GoDiv(RequestOf(w, rule), w.replicas) == c
            && PlanTrim(w, rule, p)
               == Some(Proposed(GoDiv(if cpu then w.usageCPU.value else w.usageMem.value, w.replicas), c,
                                if cpu then p.cpuFloor else p.memFloor, p.headroomNum, p.headroomDen, p.maxTrimNum, p.maxTrimDen))
  {
    TrimmableExactly(w, rule, p);
    Divides(RequestOf(w, rule), w.replicas);
    ProposedIs(GoDiv(UsageOf(w, rule).value, w.replicas), RequestOf(w, rule) / w.replicas, TrimOf(p, rule));
    hide ProposeRequest, GoDiv, RoomToTrim, Proposed;
  }
}
