/** Executing a plan: live gates, the halt switch, the second provider-managed check and
    the namespace label, with every patch recorded. */
module Applier {
  import opened HaltSwitch
  import opened Tuning
  import opened Planner

  datatype Options = Options(autoApply: bool, autoApplyEnvSet: bool)
  {
    predicate Live() { autoApply && autoApplyEnvSet }
  }

  /** What the API server answers: namespace labels that can be read, and patches that fail. */
  datatype Server = Server(namespaceLabels: map<string, map<string, string>>, failing: set<PlannedAction>)

  datatype OutcomeReason = NoReason | HaltActive | Protected | NotOptedIn | DryRunOnly

  datatype Outcome = Outcome(action: PlannedAction, applied: bool, reason: OutcomeReason, failed: bool)

  datatype ApplyResult = ApplyResult(dryRun: bool, halted: bool, outcomes: seq<Outcome>)

  predicate KnownKind(kind: string) {
    kind == "Deployment" || kind == "DaemonSet" || kind == "StatefulSet"
  }

  predicate ActionProtected(a: PlannedAction) {
    C.ProviderManaged(a.namespace, a.kind + "/" + a.name)
  }

  predicate NamespaceAllows(a: PlannedAction, server: Server) {
    a.requiresOptIn ==> a.namespace in server.namespaceLabels && C.OptedIn(server.namespaceLabels[a.namespace])
  }

  /** Whether the action reaches the API as a patch. */
  predicate Issues(a: PlannedAction, live: bool, server: Server) {
    live && !ActionProtected(a) && NamespaceAllows(a, server) && (a.newCPU > 0 || a.newMem > 0) && KnownKind(a.kind)
  }

  function Issued(actions: seq<PlannedAction>, live: bool, server: Server): seq<PlannedAction> {
    if actions == [] then []
    else
      var last := actions[|actions| - 1];
      Issued(actions[..|actions| - 1], live, server) + if Issues(last, live, server) then [last] else []
  }

  function OutcomeOf(a: PlannedAction, live: bool, server: Server): Outcome {
    if ActionProtected(a) then Outcome(a, false, Protected, false)
    else if !NamespaceAllows(a, server) then Outcome(a, false, NotOptedIn, false)
    else if !live then Outcome(a, false, DryRunOnly, false)
    else
      var ok := Issues(a, live, server) && a !in server.failing;
      Outcome(a, ok, NoReason, !ok)
  }

  function Outcomes(actions: seq<PlannedAction>, live: bool, server: Server): (r: seq<Outcome>)
    ensures |r| == |actions|
    ensures forall i :: 0 <= i < |actions| ==> r[i] == OutcomeOf(actions[i], live, server)
  {
    seq(|actions|, i requires 0 <= i < |actions| => OutcomeOf(actions[i], live, server))
  }

  /** The API's patch endpoint: every patch issued, in order. */
  class PatchLog {
    var patches: seq<PlannedAction>

    constructor ()
      ensures patches == []
    {
      patches := [];
    }

    /** Refuses empty patches and unknown kinds before anything is sent. */
    method PatchWorkload(a: PlannedAction, server: Server) returns (ok: bool)
      modifies this
      ensures patches == if (a.newCPU > 0 || a.newMem > 0) && KnownKind(a.kind) then old(patches) + [a] else old(patches)
      ensures ok <==> (a.newCPU > 0 || a.newMem > 0) && KnownKind(a.kind) && a !in server.failing
    {
      if a.newCPU <= 0 && a.newMem <= 0 {
        return false;
      }
      if !KnownKind(a.kind) {
        return false;
      }
      patches := patches + [a];
      ok := a !in server.failing;
    }
  }

  /** Walks the plan; patches are sent only live, unhalted and past both rechecks. */
  method Apply(log: PatchLog, actions: seq<PlannedAction>, opts: Options, halt: HaltConfig, haltKey: string, server: Server)
    returns (result: ApplyResult)
    modifies log
    ensures result.dryRun == !opts.Live() && (result.halted <==> opts.Live() && Halted(halt, haltKey))
    ensures !(opts.autoApply && opts.autoApplyEnvSet) ==> result.dryRun && !result.halted && log.patches == old(log.patches)
    ensures halt.ReadError? || (halt.Data? && haltKey in halt.entries && halt.entries[haltKey] == "true") ==>
              log.patches == old(log.patches) && (opts.autoApply && opts.autoApplyEnvSet ==> result.halted)
    ensures halt.Missing? || (halt.Data? && (haltKey !in halt.entries || halt.entries[haltKey] != "true")) ==> !result.halted
    ensures |result.outcomes| == |actions|
    ensures log.patches == old(log.patches) + PatchesOf(actions, opts, halt, haltKey, server)
    ensures result.halted ==>
              forall i :: 0 <= i < |actions| ==> result.outcomes[i] == Outcome(actions[i], false, HaltActive, false)
    ensures !result.halted ==> result.outcomes == Outcomes(actions, opts.Live(), server)
  {
    IdleIssuesNothing(actions, server);
    NoneYet(opts.Live(), server);
    hide Issues, OutcomeOf, Issued, Outcomes;
    var live := opts.autoApply && opts.autoApplyEnvSet;
    result := ApplyResult(!live, false, []);
    if live {
      var halted := CheckHalt(halt, haltKey);
      if halted {
        result := result.(halted := true);
        for i := 0 to |actions|
          invariant |result.outcomes| == i && result.halted && result.dryRun == !live
          invariant forall k :: 0 <= k < i ==> result.outcomes[k] == Outcome(actions[k], false, HaltActive, false)
        {
          result := result.(outcomes := result.outcomes + [Outcome(actions[i], false, HaltActive, false)]);
        }
        return;
      }
    }
    for i := 0 to |actions|
      invariant result.dryRun == !live && !result.halted
      invariant log.patches == old(log.patches) + Issued(actions[..i], live, server)
      invariant result.outcomes == Outcomes(actions[..i], live, server)
    {
      OneMore(actions, i, live, server);
      var outcome := ApplyOne(log, actions[i], live, server);
      result := result.(outcomes := result.outcomes + [outcome]);
    }
    assert actions[..|actions|] == actions;
  }

  lemma NoneYet(live: bool, server: Server)
    ensures Issued([], live, server) == [] && Outcomes([], live, server) == []
  {
  }

  lemma OneMore(actions: seq<PlannedAction>, i: nat, live: bool, server: Server)
    requires i < |actions|
    ensures Issued(actions[..i + 1], live, server)
            == Issued(actions[..i], live, server) + if Issues(actions[i], live, server) then [actions[i]] else []
    ensures Outcomes(actions[..i + 1], live, server) == Outcomes(actions[..i], live, server) + [OutcomeOf(actions[i], live, server)]
  {
    assert actions[..i + 1][..i] == actions[..i];
    hide Issues, OutcomeOf;
  }

  /** A dry run issues nothing. */
  lemma {:induction false} IdleIssuesNothing(actions: seq<PlannedAction>, server: Server)
    ensures Issued(actions, false, server) == []
  {
    if actions == [] {
    } else {
      IdleIssuesNothing(actions[..|actions| - 1], server);
    }
  }

  method ApplyOne(log: PatchLog, a: PlannedAction, live: bool, server: Server) returns (outcome: Outcome)
    modifies log
    ensures log.patches == old(log.patches) + if Issues(a, live, server) then [a] else []
    ensures outcome == OutcomeOf(a, live, server)
  {
    if C.ProviderManaged(a.namespace, a.kind + "/" + a.name) {
      return Outcome(a, false, Protected, false);
    }
    if a.requiresOptIn {
      if a.namespace !in server.namespaceLabels || !C.OptedIn(server.namespaceLabels[a.namespace]) {
        return Outcome(a, false, NotOptedIn, false);
      }
    }
    if !live {
      return Outcome(a, false, DryRunOnly, false);
    }
    var ok := log.PatchWorkload(a, server);
    return Outcome(a, ok, NoReason, !ok);
  }

  lemma {:induction false} IssuedMeetsGates(actions: seq<PlannedAction>, live: bool, server: Server, a: PlannedAction)
    requires a in Issued(actions, live, server)
    ensures a in actions && Issues(a, live, server)
  {
    hide Issues;
    var n := |actions| - 1;
    assert actions == actions[..n] + [actions[n]];
    if a in Issued(actions[..n], live, server) {
      IssuedMeetsGates(actions[..n], live, server, a);
    }
  }

  /** The patches one run over a list of actions sends to the server. */
  function PatchesOf(actions: seq<PlannedAction>, opts: Options, halt: HaltConfig, haltKey: string, server: Server)
    : seq<PlannedAction>
  {
    if opts.Live() && Halted(halt, haltKey) then [] else Issued(actions, opts.Live(), server)
  }

  /** The patches an execution of the planner's own plan sends to the server. */
  function PatchesFor(findings: seq<Finding>, inp: Inputs, opts: Options, halt: HaltConfig, haltKey: string, server: Server)
    : seq<PlannedAction>
    requires inp.policy.Positive()
  {
    PatchesOf(PlanFor(findings, inp).actions, opts, halt, haltKey, server)
  }

  /** Every patch issued for the planner's plan names one container and one resource, sets it
      below what its workload requests per ready replica and within floor and cap, stems from
      a finding that met the confidence, recurrence, target and not-provider-managed gates,
      and was sent with both live gates set, the halt switch clear, a known kind, the
      protected-name check repeated and, when a namespace wildcard authorised it, the
      namespace label re-read. */
  lemma EveryPatchAuthorised(findings: seq<Finding>, inp: Inputs, opts: Options, halt: HaltConfig, haltKey: string,
                             server: Server, a: PlannedAction)
    requires inp.policy.Positive() && a in PatchesFor(findings, inp, opts, halt, haltKey, server)
    ensures opts.autoApply && opts.autoApplyEnvSet && !Halted(halt, haltKey)
    ensures Justified(a, findings, inp) && BoundedTrim(a, inp.policy)
    ensures KnownKind(a.kind) && !C.ProviderManaged(a.namespace, a.kind + "/" + a.name)
    ensures a.requiresOptIn ==>
              a.namespace in server.namespaceLabels && C.OptedIn(server.namespaceLabels[a.namespace])
  {
    IssuedMeetsGates(PlanFor(findings, inp).actions, opts.Live(), server, a);
    PlannedActionsSafe(findings, inp, a);
  }

  /** The switch, case by case: an unreadable map or the value "true" lets no patch out; a
      missing map, a missing key and any other value let a live run proceed. */
  lemma HaltByCase(actions: seq<PlannedAction>, opts: Options, halt: HaltConfig, haltKey: string, server: Server)
    ensures !(opts.autoApply && opts.autoApplyEnvSet) ==> PatchesOf(actions, opts, halt, haltKey, server) == []
    ensures halt.ReadError? || (halt.Data? && haltKey in halt.entries && halt.entries[haltKey] == "true") ==>
              PatchesOf(actions, opts, halt, haltKey, server) == []
    ensures opts.autoApply && opts.autoApplyEnvSet
            && (halt.Missing? || (halt.Data? && (haltKey !in halt.entries || halt.entries[haltKey] != "true"))) ==>
              PatchesOf(actions, opts, halt, haltKey, server) == Issued(actions, true, server)
  {
    IdleIssuesNothing(actions, server);
  }

  /** What a run that is not halted reports of an action: patched, refused by the server, or
      the first ground on which nothing was sent. */
  lemma OutcomeExactly(a: PlannedAction, live: bool, server: Server)
    ensures var o := OutcomeOf(a, live, server);
            && o.action == a && (o.applied <==> Issues(a, live, server) && a !in server.failing)
            && (o.reason == Protected <==> C.ProviderManaged(a.namespace, a.kind + "/" + a.name))
            && (o.reason == NotOptedIn <==> !ActionProtected(a) && !NamespaceAllows(a, server))
            && (o.reason == DryRunOnly <==> !ActionProtected(a) && NamespaceAllows(a, server) && !live)
            && o.reason != HaltActive
            && (o.failed <==> o.reason == NoReason && !o.applied)
  {
    hide C.ProviderManaged, NamespaceAllows;
  }

  /** What the halt switch means for a live run: it is on exactly when no plan, whatever the
      cluster answers, gets a single patch out. */
  lemma HaltStopsExactly(halt: HaltConfig, haltKey: string, opts: Options)
    requires opts.Live()
    ensures Halted(halt, haltKey) <==>
              forall actions: seq<PlannedAction>, server: Server :: PatchesOf(actions, opts, halt, haltKey, server) == []
  {
    if !Halted(halt, haltKey) {
      var a := PlannedAction("shop", "Deployment", "web", "app", 200, 100, -1, -1, CPUOverProvisioned, "high", 3, false);
      var server := Server(map[], {});
      assert !ActionProtected(a) && Issues(a, true, server);
      assert [a][..0] == [] && Issued([a], true, server) == [a];
      assert PatchesOf([a], opts, halt, haltKey, server) == [a];
    }
  }

  lemma {:induction false} IssuedWithin(actions: seq<PlannedAction>, live: bool, server: Server)
    ensures |Issued(actions, live, server)| <= |actions|
  {
    if actions == [] {
    } else {
      IssuedWithin(actions[..|actions| - 1], live, server);
    }
  }

  /** At most the policy's number of patches leave a run. */
  lemma PatchesWithinBudget(findings: seq<Finding>, inp: Inputs, opts: Options, halt: HaltConfig, haltKey: string, server: Server)
    requires inp.policy.Positive()
    ensures |PatchesFor(findings, inp, opts, halt, haltKey, server)| <= inp.policy.maxActions
  {
    var visited := PlanAccounts(findings, inp);
    IssuedWithin(PlanFor(findings, inp).actions, opts.Live(), server);
  }
}
