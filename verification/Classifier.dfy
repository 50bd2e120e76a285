/** Which workloads the tool may touch: provider-managed names, and the layered resolution
    of remediation targets. */
module Classifier {
  import opened Basics

  datatype Target = Target(
    clusterId: string, namespace: string, workload: string,
    repository: string, manifestPath: string, instructionsPath: string, container: string,
    supportedRules: seq<string>, requiresOptIn: bool)

  // ----- provider-managed workloads -----

  const MANAGED_NAMESPACES: set<string> :=
    {"cert-manager", "ingress-nginx", "kube-system", "kube-public", "kube-node-lease", "cluster-optimizer"}

  const MANAGED_NAMES: set<string> :=
    {"kube-proxy", "cilium", "cilium-operator", "csi-do-node", "csi-do-controller", "do-node-agent",
     "doks-telemetry-config-reloader", "doks-telemetry-fluent-bit", "konnectivity-agent", "hubble-relay",
     "hubble-ui", "coredns", "metrics-server", "cpc-bridge-proxy"}

  predicate HasSuffix(s: string, suffix: string) {
    |suffix| <= |s| && s[|s| - |suffix|..] == suffix
  }

  function SlashAt(s: string, from: nat): (i: nat)
    requires from <= |s|
    ensures from <= i <= |s| && (i < |s| ==> s[i] == '/')
    decreases |s| - from
  {
    if from == |s| || s[from] == '/' then from else SlashAt(s, from + 1)
  }

  /** The name part of "Kind/name", when both parts are non-empty. */
  function SplitName(workload: string): Option<string> {
    var i := SlashAt(workload, 0);
    if i == 0 || i >= |workload| - 1 then None else Some(workload[i + 1..])
  }

  predicate ProviderManaged(namespace: string, workload: string) {
    || namespace in MANAGED_NAMESPACES
    || "kube-" <= namespace
    || HasSuffix(namespace, "-system")
    || HasSuffix(namespace, "-operator")
    || match SplitName(workload)
       case None => false
       case Some(name) => name in MANAGED_NAMES
  }

  // ----- the target index -----

  type Key = (string, string)

  datatype Index = Index(byKey: map<Key, Target>, optedIn: set<string>)

  const REMEDIATION_LABEL := "cluster-optimizer.io/remediation"

  predicate OptedIn(labels: map<string, string>) {
    Label(labels, REMEDIATION_LABEL) == "enabled"
  }

  predicate ForCluster(t: Target, clusterId: string) {
    t.clusterId == "" || t.clusterId == clusterId
  }

  /** Later entries for the same namespace and workload replace earlier ones. */
  function ByKey(clusterId: string, targets: seq<Target>): map<Key, Target> {
    if targets == [] then map[]
    else
      var prev, t := ByKey(clusterId, targets[..|targets| - 1]), targets[|targets| - 1];
      if ForCluster(t, clusterId) then prev[(t.namespace, t.workload) := t] else prev
  }

  method BuildIndex(clusterId: string, targets: seq<Target>, labels: map<string, map<string, string>>)
    returns (index: Index)
    ensures index.byKey == ByKey(clusterId, targets)
    ensures forall ns :: ns in index.optedIn <==> ns in labels && OptedIn(labels[ns])
  {
    var byKey: map<Key, Target> := map[];
    for i := 0 to |targets|
      invariant byKey == ByKey(clusterId, targets[..i])
    {
      assert targets[..i + 1][..i] == targets[..i];
      var t := targets[i];
      if t.clusterId != "" && t.clusterId != clusterId {
        continue;
      }
      byKey := byKey[(t.namespace, t.workload) := t];
    }
    assert targets[..|targets|] == targets;
    index := Index(byKey, set ns | ns in labels && OptedIn(labels[ns]));
  }

  /** The target an index holds for a namespace and workload is the last one listed for them
      that is for this cluster or for every cluster. */
  lemma {:induction false} ByKeyExactly(clusterId: string, targets: seq<Target>, key: Key)
    ensures key in ByKey(clusterId, targets)
            <==> exists i :: 0 <= i < |targets| && ListedFor(clusterId, targets[i], key)
    ensures key in ByKey(clusterId, targets) ==>
              exists i :: 0 <= i < |targets| && ListedFor(clusterId, targets[i], key) && ByKey(clusterId, targets)[key] == targets[i]
                          && forall j :: i < j < |targets| ==> !ListedFor(clusterId, targets[j], key)
  {
    if targets == [] {
    } else {
      var n := |targets| - 1;
      ByKeyExactly(clusterId, targets[..n], key);
      assert forall i :: 0 <= i < n ==> targets[..n][i] == targets[i];
      var front := ByKey(clusterId, targets[..n]);
      if ListedFor(clusterId, targets[n], key) {
        assert ByKey(clusterId, targets)[key] == targets[n];
      } else {
        assert key in ByKey(clusterId, targets) <==> key in front;
        if key in front {
          var i :| 0 <= i < n && ListedFor(clusterId, targets[..n][i], key) && front[key] == targets[..n][i]
                   && forall j :: i < j < n ==> !ListedFor(clusterId, targets[..n][j], key);
          assert ListedFor(clusterId, targets[i], key);
          assert forall j :: i < j < |targets| ==> !ListedFor(clusterId, targets[j], key);
        }
      }
    }
  }

  ghost predicate ListedFor(clusterId: string, t: Target, key: Key) {
    (t.clusterId == "" || t.clusterId == clusterId) && t.namespace == key.0 && t.workload == key.1
  }

  // ----- layered resolution -----

  /** Most specific first; namespace wildcards only for namespaces that opted in. */
  function Layers(index: Index, namespace: string, workload: string): seq<Key> {
    [(namespace, workload), (namespace, "*")]
    + if namespace in index.optedIn then [("*", workload), ("*", "*")] else []
  }

  /** The targets present along the layers. */
  function Present(byKey: map<Key, Target>, keys: seq<Key>): seq<Target> {
    if keys == [] then []
    else
      var last := keys[|keys| - 1];
      Present(byKey, keys[..|keys| - 1]) + if last in byKey then [byKey[last]] else []
  }

  function Fill(own: string, fallback: string): string {
    if own == "" then fallback else own
  }

  function MergeDefaults(t: Target, defaults: Target): Target {
    t.(repository := Fill(t.repository, defaults.repository),
       manifestPath := Fill(t.manifestPath, defaults.manifestPath),
       instructionsPath := Fill(t.instructionsPath, defaults.instructionsPath),
       container := Fill(t.container, defaults.container))
  }

  /** Walks the layers once, merging metadata and looking for a layer that supports the rule. */
  method EffectiveTarget(index: Index, rule: string, namespace: string, workload: string)
    returns (target: Option<Target>)
    ensures target == Resolve(Present(index.byKey, Layers(index, namespace, workload)), rule)
  {
    var keys := Layers(index, namespace, workload);
    var effective: Option<Target> := None;
    var supported := rule == "";
    NothingWalked(index.byKey, keys, rule);
    hide *;
    for i := 0 to |keys|
      invariant effective == Merged(Present(index.byKey, keys[..i]), rule)
      invariant supported == (rule == "" || Supports(Present(index.byKey, keys[..i]), rule))
    {
      PresentNext(index.byKey, keys, i);
      if keys[i] !in index.byKey {
        continue;
      }
      var t := index.byKey[keys[i]];
      WalkNext(Present(index.byKey, keys[..i]), t, rule, effective, supported);
      effective := Some(if effective.None? then t else MergeDefaults(effective.value, t));
      if rule in t.supportedRules && !supported {
        supported := true;
        if t.namespace == "*" {
          effective := Some(effective.value.(requiresOptIn := true));
        }
      }
    }
    assert keys[..|keys|] == keys;
    target := if supported then effective else None;
    ResolveIs(Present(index.byKey, keys), rule);
  }

  lemma NothingWalked(byKey: map<Key, Target>, keys: seq<Key>, rule: string)
    ensures Merged(Present(byKey, keys[..0]), rule) == None && !Supports(Present(byKey, keys[..0]), rule)
  {
  }

  lemma ResolveIs(targets: seq<Target>, rule: string)
    ensures Resolve(targets, rule) == if rule == "" || Supports(targets, rule) then Merged(targets, rule) else None
  {
  }

  /** One layer more on the walk. */
  lemma WalkNext(front: seq<Target>, t: Target, rule: string, effective: Option<Target>, supported: bool)
    requires effective == Merged(front, rule) && supported == (rule == "" || Supports(front, rule))
    ensures var merged := if effective.None? then t else MergeDefaults(effective.value, t);
            Merged(front + [t], rule)
            == Some(if rule in t.supportedRules && !supported && t.namespace == "*" then merged.(requiresOptIn := true) else merged)
    ensures (supported || rule in t.supportedRules) == (rule == "" || Supports(front + [t], rule))
  {
    MergedAppend(front, t, rule);
    hide Merged, Supports, MergeDefaults;
  }

  lemma PresentNext(byKey: map<Key, Target>, keys: seq<Key>, i: nat)
    requires i < |keys|
    ensures Present(byKey, keys[..i + 1])
            == if keys[i] in byKey then Present(byKey, keys[..i]) + [byKey[keys[i]]] else Present(byKey, keys[..i])
  {
    assert keys[..i + 1][..i] == keys[..i];
  }

  predicate Supports(targets: seq<Target>, rule: string) {
    exists i | 0 <= i < |targets| :: rule in targets[i].supportedRules
  }

  /** What the walk has merged after some layers. */
  function Merged(targets: seq<Target>, rule: string): Option<Target> {
    if targets == [] then None
    else
      var front, t := targets[..|targets| - 1], targets[|targets| - 1];
      var prev := Merged(front, rule);
      var merged := if prev.None? then t else MergeDefaults(prev.value, t);
      var first := rule != "" && rule in t.supportedRules && !Supports(front, rule);
      Some(if first && t.namespace == "*" then merged.(requiresOptIn := true) else merged)
  }

  lemma OneLayer(t: Target, rule: string)
    requires rule in t.supportedRules && t.namespace != "*"
    ensures Resolve([t], rule) == Some(t)
  {
    var none: seq<Target> := [];
    NoLayer(rule);
    assert Supports([t], rule) by {
      assert [t][0] == t;
    }
    hide Merged, Supports, MergeDefaults;
    MergedAppend(none, t, rule);
    assert none + [t] == [t];
  }

  lemma NoLayer(rule: string)
    ensures Merged([], rule) == None
  {
  }

  lemma MergedAppend(front: seq<Target>, t: Target, rule: string)
    ensures Merged(front + [t], rule)
            == (var prev := Merged(front, rule);
                var merged := if prev.None? then t else MergeDefaults(prev.value, t);
                if rule != "" && rule in t.supportedRules && !Supports(front, rule) && t.namespace == "*"
                then Some(merged.(requiresOptIn := true)) else Some(merged))
    ensures Supports(front + [t], rule) <==> Supports(front, rule) || rule in t.supportedRules
  {
    var all := front + [t];
    assert all[..|front|] == front;
    if Supports(front, rule) {
      var i :| 0 <= i < |front| && rule in front[i].supportedRules;
      assert rule in all[i].supportedRules;
    }
    assert all[|front|] == t;
  }

  function Resolve(targets: seq<Target>, rule: string): Option<Target> {
    if rule == "" || Supports(targets, rule) then Merged(targets, rule) else None
  }

  // ----- what the resolution means -----

  datatype Field = Repository | ManifestPath | InstructionsPath | ContainerName

  function Get(t: Target, f: Field): string {
    match f
    case Repository => t.repository
    case ManifestPath => t.manifestPath
    case InstructionsPath => t.instructionsPath
    case ContainerName => t.container
  }

  /** The first non-empty value of a field along the layers. */
  function FirstNonEmpty(targets: seq<Target>, f: Field): string {
    if targets == [] then ""
    else if Get(targets[0], f) != "" then Get(targets[0], f)
    else FirstNonEmpty(targets[1..], f)
  }

  lemma {:induction false} FirstNonEmptyAppend(targets: seq<Target>, t: Target, f: Field)
    ensures FirstNonEmpty(targets + [t], f) == Fill(FirstNonEmpty(targets, f), Get(t, f))
  {
    if targets == [] {
      assert FirstNonEmpty([t], f) == Fill("", Get(t, f)) by {
        assert [t][1..] == [];
      }
      assert [] + [t] == [t];
    } else {
      assert (targets + [t])[1..] == targets[1..] + [t];
      FirstNonEmptyAppend(targets[1..], t, f);
    }
  }

  /** Each metadata field of the effective target is the first non-empty one in specificity
      order, whatever layers exist. */
  lemma {:induction false} FieldsAreLayered(targets: seq<Target>, rule: string, f: Field)
    requires targets != []
    ensures Merged(targets, rule).Some? && Get(Merged(targets, rule).value, f) == FirstNonEmpty(targets, f)
  {
    var n := |targets| - 1;
    assert targets == targets[..n] + [targets[n]];
    FirstNonEmptyAppend(targets[..n], targets[n], f);
    if n == 0 {
    } else {
      FieldsAreLayered(targets[..n], rule, f);
    }
  }

  ghost predicate Unflagged(targets: seq<Target>) {
    forall i :: 0 <= i < |targets| ==> !targets[i].requiresOptIn
  }

  /** Namespace wildcards come after every namespace-specific layer. */
  ghost predicate WildcardsLast(targets: seq<Target>) {
    forall i, j :: 0 <= i < j < |targets| && targets[i].namespace == "*" ==> targets[j].namespace == "*"
  }

  ghost predicate SpecificSupport(targets: seq<Target>, rule: string) {
    exists i :: 0 <= i < |targets| && targets[i].namespace != "*" && rule in targets[i].supportedRules
  }

  lemma SupportsLast(targets: seq<Target>, rule: string)
    requires targets != []
    ensures Supports(targets, rule)
            <==> Supports(targets[..|targets| - 1], rule) || rule in targets[|targets| - 1].supportedRules
    ensures SpecificSupport(targets, rule)
            <==> SpecificSupport(targets[..|targets| - 1], rule)
                 || (targets[|targets| - 1].namespace != "*" && rule in targets[|targets| - 1].supportedRules)
  {
    var front := targets[..|targets| - 1];
    if SpecificSupport(front, rule) {
      var i :| 0 <= i < |front| && front[i].namespace != "*" && rule in front[i].supportedRules;
      assert targets[i].namespace != "*";
    }
    if Supports(front, rule) {
      var i :| 0 <= i < |front| && rule in front[i].supportedRules;
      assert rule in targets[i].supportedRules;
    }
    if SpecificSupport(targets, rule) {
      var i :| 0 <= i < |targets| && targets[i].namespace != "*" && rule in targets[i].supportedRules;
      assert i < |front| ==> front[i].namespace != "*" && rule in front[i].supportedRules;
    }
    if Supports(targets, rule) {
      var i :| 0 <= i < |targets| && rule in targets[i].supportedRules;
      assert i < |front| ==> rule in front[i].supportedRules;
    }
  }

  /** The namespace opt-in is required exactly when only namespace wildcards support the
      rule. */
  lemma {:induction false} OptInExactly(targets: seq<Target>, rule: string)
    requires rule != "" && targets != [] && Unflagged(targets) && WildcardsLast(targets)
    ensures Merged(targets, rule).Some?
    ensures Merged(targets, rule).value.requiresOptIn <==> Supports(targets, rule) && !SpecificSupport(targets, rule)
  {
    var n := |targets| - 1;
    SupportsLast(targets, rule);
    if n == 0 {
    } else {
      OptInExactly(targets[..n], rule);
    }
    if Supports(targets[..n], rule) && !SpecificSupport(targets[..n], rule) {
      var i :| 0 <= i < n && rule in targets[..n][i].supportedRules;
      assert targets[i].namespace == "*";
    }
  }

  /** Targets are stored under their own namespace. */
  ghost predicate Keyed(byKey: map<Key, Target>) {
    forall k :: k in byKey ==> byKey[k].namespace == k.0
  }

  lemma {:induction false} ByKeyIsKeyed(clusterId: string, targets: seq<Target>)
    ensures Keyed(ByKey(clusterId, targets))
    ensures Unflagged(targets) ==> forall k :: k in ByKey(clusterId, targets) ==> !ByKey(clusterId, targets)[k].requiresOptIn
  {
    if targets == [] {
    } else {
      assert Unflagged(targets) ==> Unflagged(targets[..|targets| - 1]);
      ByKeyIsKeyed(clusterId, targets[..|targets| - 1]);
    }
  }

  lemma LayersOrdered(index: Index, namespace: string, workload: string)
    requires Keyed(index.byKey) && namespace != "*"
    ensures WildcardsLast(Present(index.byKey, Layers(index, namespace, workload)))
    ensures (forall k :: k in index.byKey ==> !index.byKey[k].requiresOptIn) ==>
              Unflagged(Present(index.byKey, Layers(index, namespace, workload)))
  {
    var keys := Layers(index, namespace, workload);
    PresentOrdered(index, keys);
    var layers := Present(index.byKey, keys);
    if forall k :: k in index.byKey ==> !index.byKey[k].requiresOptIn {
      forall i | 0 <= i < |layers| ensures !layers[i].requiresOptIn {
        assert layers[i] in layers && StoredUnder(index, keys, layers[i]);
      }
    }
  }

  ghost predicate KeysOrdered(keys: seq<Key>) {
    forall i, j :: 0 <= i < j < |keys| && keys[i].0 == "*" ==> keys[j].0 == "*"
  }

  lemma {:induction false} PresentOrdered(index: Index, keys: seq<Key>)
    requires Keyed(index.byKey) && KeysOrdered(keys)
    ensures WildcardsLast(Present(index.byKey, keys))
    ensures forall t :: t in Present(index.byKey, keys) ==> StoredUnder(index, keys, t)
  {
    if keys == [] {
    } else {
      var n := |keys| - 1;
      assert keys == keys[..n] + [keys[n]];
      PresentOrdered(index, keys[..n]);
      var front := Present(index.byKey, keys[..n]);
      forall t | t in Present(index.byKey, keys) ensures StoredUnder(index, keys, t) {
        if t in front {
          var k :| k in keys[..n] && k in index.byKey && t == index.byKey[k];
          assert k in keys;
        } else {
          assert keys[n] in keys;
        }
      }
      if keys[n] in index.byKey {
        forall i | 0 <= i < |front| && front[i].namespace == "*" ensures keys[n].0 == "*" {
          assert front[i] in front;
          var k :| k in keys[..n] && k in index.byKey && front[i] == index.byKey[k];
          var j :| 0 <= j < n && keys[j] == k;
          assert keys[j].0 == "*";
        }
      }
    }
  }

  ghost predicate StoredUnder(index: Index, keys: seq<Key>, t: Target) {
    exists k :: k in keys && k in index.byKey && t == index.byKey[k]
  }

  function WithoutWildcards(targets: seq<Target>): seq<Target> {
    if targets == [] then []
    else
      var last := targets[|targets| - 1];
      WithoutWildcards(targets[..|targets| - 1]) + if last.namespace == "*" then [] else [last]
  }

  lemma ByKeyAppend(clusterId: string, targets: seq<Target>, t: Target)
    ensures ByKey(clusterId, targets + [t])
            == if ForCluster(t, clusterId) then ByKey(clusterId, targets)[(t.namespace, t.workload) := t]
               else ByKey(clusterId, targets)
  {
    assert (targets + [t])[..|targets|] == targets;
  }

  lemma {:induction false} WildcardsElsewhere(clusterId: string, targets: seq<Target>, k: Key)
    requires k.0 != "*"
    ensures k in ByKey(clusterId, targets) <==> k in ByKey(clusterId, WithoutWildcards(targets))
    ensures k in ByKey(clusterId, targets) ==>
              ByKey(clusterId, targets)[k] == ByKey(clusterId, WithoutWildcards(targets))[k]
  {
    if targets == [] {
    } else {
      var n := |targets| - 1;
      WildcardsElsewhere(clusterId, targets[..n], k);
      var rest := WithoutWildcards(targets[..n]);
      assert rest + [] == rest;
      ByKeyAppend(clusterId, rest, targets[n]);
    }
  }

  /** For a namespace that has not opted in, target files that differ only in their
      namespace-wildcard entries resolve every workload alike. */
  lemma WildcardsIrrelevantWithoutOptIn(
    clusterId: string, a: seq<Target>, b: seq<Target>, optedIn: set<string>, rule: string, namespace: string, workload: string)
    requires namespace != "*" && namespace !in optedIn && WithoutWildcards(a) == WithoutWildcards(b)
    ensures var ia, ib := Index(ByKey(clusterId, a), optedIn), Index(ByKey(clusterId, b), optedIn);
            Resolve(Present(ia.byKey, Layers(ia, namespace, workload)), rule)
            == Resolve(Present(ib.byKey, Layers(ib, namespace, workload)), rule)
  {
    var keys := [(namespace, workload), (namespace, "*")];
    forall k | k in keys
      ensures k in ByKey(clusterId, a) <==> k in ByKey(clusterId, b)
      ensures k in ByKey(clusterId, a) ==> ByKey(clusterId, a)[k] == ByKey(clusterId, b)[k]
    {
      WildcardsElsewhere(clusterId, a, k);
      WildcardsElsewhere(clusterId, b, k);
    }
    SamePresent(ByKey(clusterId, a), ByKey(clusterId, b), keys);
    assert Layers(Index(ByKey(clusterId, a), optedIn), namespace, workload) == keys;
  }

  lemma {:induction false} SamePresent(a: map<Key, Target>, b: map<Key, Target>, keys: seq<Key>)
    requires forall k :: k in keys ==> (k in a <==> k in b) && (k in a ==> a[k] == b[k])
    ensures Present(a, keys) == Present(b, keys)
  {
    if keys == [] {
    } else {
      assert keys == keys[..|keys| - 1] + [keys[|keys| - 1]];
      SamePresent(a, b, keys[..|keys| - 1]);
    }
  }

  /** For every classifier built from target files, an authorised rule needs the namespace
      label exactly when no namespace-specific target supports it. */
  lemma OptInForIndex(clusterId: string, targets: seq<Target>, optedIn: set<string>, rule: string, namespace: string, workload: string)
    requires rule != "" && namespace != "*" && Unflagged(targets)
    ensures var index := Index(ByKey(clusterId, targets), optedIn);
            var layers := Present(index.byKey, Layers(index, namespace, workload));
            match Resolve(layers, rule)
            case None => !Supports(layers, rule)
            case Some(t) => Supports(layers, rule)
                            && (t.requiresOptIn <==> !SpecificSupport(layers, rule))
                            && (t.requiresOptIn ==> namespace in optedIn)
  {
    var index := Index(ByKey(clusterId, targets), optedIn);
    var keys := Layers(index, namespace, workload);
    var layers := Present(index.byKey, keys);
    ByKeyIsKeyed(clusterId, targets);
    LayersOrdered(index, namespace, workload);
    if layers != [] {
      OptInExactly(layers, rule);
    }
    if Supports(layers, rule) && !SpecificSupport(layers, rule) {
      var i :| 0 <= i < |layers| && rule in layers[i].supportedRules;
      PresentOrdered(index, keys);
      assert layers[i] in layers;
      var k :| k in keys && k in index.byKey && layers[i] == index.byKey[k];
      assert layers[i].namespace == "*" && k.0 == "*";
    }
  }
}
