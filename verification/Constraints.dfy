/** The scheduling constraints a pod or node can carry, and the matching rules the
    simulator applies to them. */
module Constraints {
  import opened Basics

  datatype Taint = Taint(key: string, value: string, effect: string)

  datatype Toleration = Toleration(key: string, operator: string, value: string, effect: string)

  datatype SelectorRequirement = SelectorRequirement(key: string, operator: string, values: seq<string>)

  datatype NodeSelectorTerm = NodeSelectorTerm(
    matchExpressions: seq<SelectorRequirement>, matchFields: seq<SelectorRequirement>)

  datatype LabelSelector = LabelSelector(
    matchLabels: map<string, string>, matchExpressions: seq<SelectorRequirement>)

  datatype PodAffinityTerm = PodAffinityTerm(
    labelSelector: Option<LabelSelector>, namespaces: seq<string>, topologyKey: string)

  datatype SpreadConstraint = SpreadConstraint(
    maxSkew: int, topologyKey: string, whenUnsatisfiable: string,
    labelSelector: Option<LabelSelector>, minDomains: Option<int>)

  datatype Affinity = Affinity(
    requiredNodeAffinity: seq<NodeSelectorTerm>, requiredPodAntiAffinity: seq<PodAffinityTerm>)

  /** One toleration covers a taint: an empty effect covers all effects, and `Exists`
      with an empty key covers every taint. */
  predicate Covers(tol: Toleration, taint: Taint) {
    && (tol.effect == "" || tol.effect == taint.effect)
    && if tol.operator == "Exists" then tol.key == "" || tol.key == taint.key
       else if tol.operator == "" || tol.operator == "Equal" then tol.key == taint.key && tol.value == taint.value
       else false
  }

  /** Every taint that can block placement is covered; PreferNoSchedule cannot. */
  predicate Tolerates(tolerations: seq<Toleration>, taints: seq<Taint>) {
    forall t | t in taints ::
      t.effect == "PreferNoSchedule" || exists tol | tol in tolerations :: Covers(tol, t)
  }

  predicate MatchesNodeSelector(selector: map<string, string>, labels: map<string, string>) {
    forall key | key in selector :: Label(labels, key) == selector[key]
  }

  predicate IsDigits(s: string) {
    forall i | 0 <= i < |s| :: '0' <= s[i] <= '9'
  }

  function DigitsValue(s: string): int
    requires IsDigits(s)
  {
    if s == [] then 0 else DigitsValue(s[..|s| - 1]) * 10 + (s[|s| - 1] as int - '0' as int)
  }

  /** A base-10 64-bit integer with an optional sign; anything else is a parse error. */
  function ParseInt64(s: string): Option<int> {
    var negative := s != [] && s[0] == '-';
    var digits := if s != [] && (s[0] == '-' || s[0] == '+') then s[1..] else s;
    if digits == [] || !IsDigits(digits) then None
    else
      var v := if negative then -DigitsValue(digits) else DigitsValue(digits);
      if -0x8000_0000_0000_0000 <= v < 0x8000_0000_0000_0000 then Some(v) else None
  }

  predicate RequirementMatches(req: SelectorRequirement, value: string, present: bool) {
    match req.operator
    case "In" => present && value in req.values
    case "NotIn" => !present || value !in req.values
    case "Exists" => present
    case "DoesNotExist" => !present
    case "Gt" => present && req.values != [] && NumericallyBelow(req.values[0], value)
    case "Lt" => present && req.values != [] && NumericallyBelow(value, req.values[0])
    case "" => present && req.values != [] && value == req.values[0]
    case "Equals" => present && req.values != [] && value == req.values[0]
    case "Equal" => present && req.values != [] && value == req.values[0]
    case _ => false
  }

  predicate NumericallyBelow(a: string, b: string) {
    match (ParseInt64(a), ParseInt64(b))
    case (Some(x), Some(y)) => x < y
    case _ => false
  }

  predicate LabelMatches(req: SelectorRequirement, labels: map<string, string>) {
    RequirementMatches(req, Label(labels, req.key), req.key in labels)
  }

  /** Only `metadata.name` is a known node field. */
  predicate FieldMatches(req: SelectorRequirement, nodeName: string) {
    if req.key == "metadata.name" then RequirementMatches(req, nodeName, true)
    else RequirementMatches(req, "", false)
  }

  /** An empty term matches no node. */
  predicate TermMatches(term: NodeSelectorTerm, nodeName: string, labels: map<string, string>) {
    && (term.matchExpressions != [] || term.matchFields != [])
    && (forall e | e in term.matchExpressions :: LabelMatches(e, labels))
    && (forall f | f in term.matchFields :: FieldMatches(f, nodeName))
  }

  /** The required terms are alternatives. */
  predicate MatchesNodeAffinity(terms: seq<NodeSelectorTerm>, nodeName: string, labels: map<string, string>) {
    exists t | t in terms :: TermMatches(t, nodeName, labels)
  }

  /** A missing selector matches nothing; an empty one matches everything. */
  predicate SelectorMatches(selector: Option<LabelSelector>, labels: map<string, string>) {
    match selector
    case None => false
    case Some(s) =>
      && (forall key | key in s.matchLabels :: Label(labels, key) == s.matchLabels[key])
      && (forall e | e in s.matchExpressions :: LabelMatches(e, labels))
  }
}
