/** What an assignment promises about its node, and a rejection about every node, in the
    fields of pods and nodes. */
module AdmissionProofs {
  import opened Basics
  import opened Constraints
  import opened Sorting
  import opened Packer
  import opened PackingProofs
  import OrderProofs

  // ----- taints, selectors and affinity, spelled out -----

  /** The pod tolerates the taint: for its effect or any, and for its key and value, its key
      with any value, or every key. */
  ghost predicate Bears(tolerations: seq<Toleration>, t: Taint) {
    exists i :: 0 <= i < |tolerations| &&
      var tol := tolerations[i];
      && (tol.effect == "" || tol.effect == t.effect)
      && ((tol.operator == "Exists" && (tol.key == "" || tol.key == t.key))
          || ((tol.operator == "" || tol.operator == "Equal") && tol.key == t.key && tol.value == t.value))
  }

  /** Every taint of the node that is more than a preference is tolerated. */
  ghost predicate Borne(taints: seq<Taint>, tolerations: seq<Toleration>) {
    forall i :: 0 <= i < |taints| && taints[i].effect != "PreferNoSchedule" ==> Bears(tolerations, taints[i])
  }

  /** The node has every label the pod selects by; an empty value is also met by its absence. */
  ghost predicate Selected(labels: map<string, string>, selector: map<string, string>) {
    forall k :: k in selector ==> selector[k] == if k in labels then labels[k] else ""
  }

  /** What a decimal numeral denotes, digit by digit from the left. */
  function Numeral(digits: string): int
    requires forall i :: 0 <= i < |digits| ==> '0' <= digits[i] <= '9'
  {
    if digits == [] then 0 else (digits[0] as int - '0' as int) * Pow10(|digits| - 1) + Numeral(digits[1..])
  }

  function Pow10(k: nat): (r: nat)
    ensures r > 0
  {
    if k == 0 then 1 else 10 * Pow10(k - 1)
  }

  ghost predicate AllDigits(s: string) {
    s != "" && forall i :: 0 <= i < |s| ==> '0' <= s[i] <= '9'
  }

  /** A signed decimal numeral of a 64-bit integer. */
  ghost predicate Denotes(s: string, v: int) {
    && -0x8000_0000_0000_0000 <= v < 0x8000_0000_0000_0000
    && ((AllDigits(s) && v == Numeral(s))
        || (s != "" && s[0] == '+' && AllDigits(s[1..]) && v == Numeral(s[1..]))
        || (s != "" && s[0] == '-' && AllDigits(s[1..]) && v == -Numeral(s[1..])))
  }

  /** What a requirement asks of a label, operator by operator. */
  ghost predicate Asks(e: SelectorRequirement, present: bool, value: string) {
    if e.operator == "In" then present && value in e.values
    else if e.operator == "NotIn" then present ==> value !in e.values
    else if e.operator == "Exists" then present
    else if e.operator == "DoesNotExist" then !present
    else if e.operator == "Gt" then present && e.values != [] && exists v, w :: Denotes(value, v) && Denotes(e.values[0], w) && v > w
    else if e.operator == "Lt" then present && e.values != [] && exists v, w :: Denotes(value, v) && Denotes(e.values[0], w) && v < w
    else if e.operator in {"", "Equal", "Equals"} then present && e.values != [] && value == e.values[0]
    else false
  }

  ghost predicate AsksOfLabels(e: SelectorRequirement, labels: map<string, string>) {
    Asks(e, e.key in labels, if e.key in labels then labels[e.key] else "")
  }

  /** One required term: not empty, its expressions met by the labels and its fields by the
      node's name, the only field there is. */
  ghost predicate TermMet(term: NodeSelectorTerm, name: string, labels: map<string, string>) {
    && (term.matchExpressions != [] || term.matchFields != [])
    && (forall i :: 0 <= i < |term.matchExpressions| ==> AsksOfLabels(term.matchExpressions[i], labels))
    && (forall i :: 0 <= i < |term.matchFields| ==>
          Asks(term.matchFields[i], term.matchFields[i].key == "metadata.name",
               if term.matchFields[i].key == "metadata.name" then name else ""))
  }

  ghost predicate Attracted(name: string, labels: map<string, string>, affinity: Option<Affinity>) {
    affinity.Some? && affinity.value.requiredNodeAffinity != [] ==>
      exists i :: 0 <= i < |affinity.value.requiredNodeAffinity| && TermMet(affinity.value.requiredNodeAffinity[i], name, labels)
  }

  /** The node accepts the pod, as far as no other pod matters. */
  ghost predicate Welcome(n: Node, p: Pod) {
    && Borne(n.taints, p.tolerations) && Selected(n.labels, p.nodeSelector) && Attracted(n.name, n.labels, p.affinity)
  }

  // ----- numerals -----

  lemma {:induction false} NumeralSnoc(s: string, c: char)
    requires forall i :: 0 <= i < |s| ==> '0' <= s[i] <= '9'
    requires '0' <= c <= '9'
    ensures Numeral(s + [c]) == 10 * Numeral(s) + (c as int - '0' as int)
  {
    if s == [] {
      assert [] + [c] == [c] && [c][1..] == [];
    } else {
      NumeralSnoc(s[1..], c);
      assert (s + [c])[1..] == s[1..] + [c] && (s + [c])[0] == s[0];
      var d, p := s[0] as int - '0' as int, Pow10(|s| - 1);
      assert Pow10(|s|) == 10 * p;
      assert d * (10 * p) == 10 * (d * p);
    }
  }

  lemma {:induction false} DigitsDenote(s: string)
    requires forall i :: 0 <= i < |s| ==> '0' <= s[i] <= '9'
    ensures IsDigits(s) && DigitsValue(s) == Numeral(s)
  {
    if s == [] {
    } else {
      var n := |s| - 1;
      DigitsDenote(s[..n]);
      NumeralSnoc(s[..n], s[n]);
      assert s[..n] + [s[n]] == s;
    }
  }

  /** A string parses to the integer it denotes, and to none if it denotes none. */
  lemma ParseExactly(s: string, v: int)
    ensures ParseInt64(s) == Some(v) <==> Denotes(s, v)
  {
    if AllDigits(s) {
      DigitsDenote(s);
    }
    if s != "" && AllDigits(s[1..]) {
      DigitsDenote(s[1..]);
    }
    assert AllDigits(s) ==> s[0] != '-' && s[0] != '+';
    hide Numeral, DigitsValue;
  }

  lemma BelowExactly(a: string, b: string)
    ensures NumericallyBelow(a, b) <==> exists v, w :: Denotes(a, v) && Denotes(b, w) && v < w
  {
    hide ParseInt64, Denotes;
    if NumericallyBelow(a, b) {
      ParseExactly(a, ParseInt64(a).value);
      ParseExactly(b, ParseInt64(b).value);
    }
    if v, w :| Denotes(a, v) && Denotes(b, w) && v < w {
      ParseExactly(a, v);
      ParseExactly(b, w);
    }
  }

  lemma AsksExactly(e: SelectorRequirement, present: bool, value: string)
    ensures RequirementMatches(e, value, present) <==> Asks(e, present, value)
  {
    if e.values != [] {
      BelowExactly(e.values[0], value);
      BelowExactly(value, e.values[0]);
    }
    hide NumericallyBelow, Denotes;
  }

  // ----- the node-level verdict -----

  lemma BornExactly(taints: seq<Taint>, tolerations: seq<Toleration>)
    ensures Tolerates(tolerations, taints) <==> Borne(taints, tolerations)
  {
    forall t ensures Bears(tolerations, t) <==> exists tol | tol in tolerations :: Covers(tol, t) {
      if tol :| tol in tolerations && Covers(tol, t) {
        var i :| 0 <= i < |tolerations| && tolerations[i] == tol;
      }
      if Bears(tolerations, t) {
        var i :| 0 <= i < |tolerations| && Covers(tolerations[i], t);
        assert tolerations[i] in tolerations;
      }
    }
    hide Bears, Covers;
  }

  lemma TermExactly(term: NodeSelectorTerm, name: string, labels: map<string, string>)
    ensures TermMatches(term, name, labels) <==> TermMet(term, name, labels)
  {
    forall e ensures LabelMatches(e, labels) <==> AsksOfLabels(e, labels) {
      AsksExactly(e, e.key in labels, Label(labels, e.key));
    }
    forall f ensures FieldMatches(f, name) <==> Asks(f, f.key == "metadata.name", if f.key == "metadata.name" then name else "") {
      AsksExactly(f, f.key == "metadata.name", if f.key == "metadata.name" then name else "");
    }
    hide LabelMatches, FieldMatches, Asks, AsksOfLabels;
  }

  lemma AttractedExactly(name: string, labels: map<string, string>, affinity: Option<Affinity>)
    ensures Attracted(name, labels, affinity)
            <==> (affinity.Some? && affinity.value.requiredNodeAffinity != [] ==>
                    MatchesNodeAffinity(affinity.value.requiredNodeAffinity, name, labels))
  {
    forall t: NodeSelectorTerm ensures TermMatches(t, name, labels) <==> TermMet(t, name, labels) {
      TermExactly(t, name, labels);
    }
    hide TermMatches, TermMet;
  }

  /** The node-level rules, and the reason given when one of them refuses, in their order. */
  lemma StaticExactly(n: Node, p: Pod)
    ensures StaticVerdict(n, p) == None <==> Welcome(n, p)
    ensures StaticVerdict(n, p) == Some("untolerated_taint") <==> !Borne(n.taints, p.tolerations)
    ensures StaticVerdict(n, p) == Some("node_selector") <==> Borne(n.taints, p.tolerations) && !Selected(n.labels, p.nodeSelector)
    ensures StaticVerdict(n, p) == Some("node_affinity")
            <==> Borne(n.taints, p.tolerations) && Selected(n.labels, p.nodeSelector) && !Attracted(n.name, n.labels, p.affinity)
  {
    BornExactly(n.taints, p.tolerations);
    AttractedExactly(n.name, n.labels, p.affinity);
    assert MatchesNodeSelector(p.nodeSelector, n.labels) <==> Selected(n.labels, p.nodeSelector);
    hide Tolerates, MatchesNodeSelector, MatchesNodeAffinity, Borne, Selected, Attracted;
  }

  /** A label selector picks the pods with every listed label that meet every expression; an
      absent one picks none. */
  lemma SelectorExactly(selector: Option<LabelSelector>, labels: map<string, string>)
    ensures SelectorMatches(selector, labels)
            <==> Picks(selector, labels)
  {
    forall e ensures LabelMatches(e, labels) <==> AsksOfLabels(e, labels) {
      AsksExactly(e, e.key in labels, Label(labels, e.key));
    }
    hide LabelMatches, AsksOfLabels;
  }

  /** A node's domain for a topology key: its label, or for the hostname key its name. */
  lemma DomainExactly(n: Node, key: string, domain: string)
    ensures TopologyValue(n, key) == Some(domain)
            <==> (if key in n.labels then domain == n.labels[key] else key == "kubernetes.io/hostname" && domain == n.name)
  {
  }

  // ----- capacity, spelled out -----

  function At(m: map<string, int>, key: string): int {
    if key in m then m[key] else 0
  }

  /** The requests of the pods on a node, summed from the first one on. */
  function CPUOf(placed: seq<Pod>): int {
    if placed == [] then 0 else placed[0].cpu + CPUOf(placed[1..])
  }

  function MemOf(placed: seq<Pod>): int {
    if placed == [] then 0 else placed[0].mem + MemOf(placed[1..])
  }

  function ExtOf(placed: seq<Pod>, r: string): int {
    if placed == [] then 0 else At(placed[0].ext, r) + ExtOf(placed[1..], r)
  }

  lemma {:induction false} SumsSnoc(placed: seq<Pod>, p: Pod, r: string)
    ensures CPUOf(placed + [p]) == CPUOf(placed) + p.cpu && MemOf(placed + [p]) == MemOf(placed) + p.mem
    ensures ExtOf(placed + [p], r) == ExtOf(placed, r) + At(p.ext, r)
  {
    if placed == [] {
      assert [] + [p] == [p] && [p][1..] == [];
    } else {
      SumsSnoc(placed[1..], p, r);
      assert (placed + [p])[1..] == placed[1..] + [p];
    }
  }

  lemma {:induction false} SumsAre(placed: seq<Pod>, r: string)
    ensures SumCPU(placed) == CPUOf(placed) && SumMem(placed) == MemOf(placed) && SumExt(placed, r) == ExtOf(placed, r)
  {
    if placed == [] {
    } else {
      var n := |placed| - 1;
      assert placed == placed[..n] + [placed[n]];
      SumsAre(placed[..n], r);
      SumsSnoc(placed[..n], placed[n], r);
      hide CPUOf, MemOf, ExtOf;
    }
  }

  /** The node has room for one more pod, in CPU, memory, every extended resource the pod
      asks for, and pod slots; a cap of zero or less is none. */
  ghost predicate HasRoom(s: Slot, p: Pod) {
    && s.node.reservedCPU + CPUOf(s.placed) + p.cpu <= s.node.allocCPU
    && s.node.reservedMem + MemOf(s.placed) + p.mem <= s.node.allocMem
    && (forall r :: r in p.ext ==> At(s.node.reservedExt, r) + ExtOf(s.placed, r) + p.ext[r] <= At(s.node.allocExt, r))
    && (s.node.maxPods > 0 ==> s.node.reservedPods + |s.placed| + 1 <= s.node.maxPods)
  }

  /** A node on its own takes the pod exactly when it has room and welcomes it. */
  lemma LocalExactly(s: Slot, p: Pod)
    ensures LocalVerdict(s, p) == None <==> HasRoom(s, p) && Welcome(s.node, p)
  {
    StaticExactly(s.node, p);
    SumsAre(s.placed, "");
    forall r ensures FreeExt(s, r) == At(s.node.allocExt, r) - At(s.node.reservedExt, r) - ExtOf(s.placed, r) {
      SumsAre(s.placed, r);
    }
    hide StaticVerdict, Welcome, SumCPU, SumMem, SumExt, FreeExt, CPUOf, MemOf, ExtOf;
  }

  // ----- spread and anti-affinity, spelled out -----

  /** The node's domain for the key, if it has one. */
  ghost predicate InTopology(n: Node, key: string, domain: string) {
    if key in n.labels then domain == n.labels[key] else key == "kubernetes.io/hostname" && domain == n.name
  }

  ghost predicate Picks(selector: Option<LabelSelector>, labels: map<string, string>) {
    && selector.Some?
    && (forall k :: k in selector.value.matchLabels ==> selector.value.matchLabels[k] == if k in labels then labels[k] else "")
    && (forall i :: 0 <= i < |selector.value.matchExpressions| ==> AsksOfLabels(selector.value.matchExpressions[i], labels))
  }

  ghost predicate SamePodKey(a: Pod, b: Pod) {
    a.namespace + "/" + a.name == b.namespace + "/" + b.name
  }

  /** The pods of a list that a spread constraint of `p` counts: others of its namespace that
      the selector picks. */
  ghost function MatchesIn(placed: seq<Pod>, c: SpreadConstraint, p: Pod): nat {
    if placed == [] then 0
    else
      MatchesIn(placed[1..], c, p)
      + if !SamePodKey(placed[0], p) && placed[0].namespace == p.namespace && Picks(c.labelSelector, placed[0].labels) then 1 else 0
  }

  ghost function MatchesInDomain(slots: seq<Slot>, c: SpreadConstraint, p: Pod, domain: string): nat {
    if slots == [] then 0
    else
      MatchesInDomain(slots[1..], c, p, domain)
      + if InTopology(slots[0].node, c.topologyKey, domain) then MatchesIn(slots[0].placed, c, p) else 0
  }

  lemma {:induction false} MatchesSnoc(placed: seq<Pod>, o: Pod, c: SpreadConstraint, p: Pod)
    ensures MatchesIn(placed + [o], c, p)
            == MatchesIn(placed, c, p)
               + if !SamePodKey(o, p) && o.namespace == p.namespace && Picks(c.labelSelector, o.labels) then 1 else 0
  {
    hide Picks, SamePodKey;
    if placed == [] {
      assert [] + [o] == [o] && [o][1..] == [];
    } else {
      MatchesSnoc(placed[1..], o, c, p);
      assert (placed + [o])[1..] == placed[1..] + [o];
    }
  }

  lemma {:induction false} CountIsMatches(placed: seq<Pod>, c: SpreadConstraint, p: Pod)
    ensures CountIf(placed, Counted(c, p)) == MatchesIn(placed, c, p)
  {
    if placed == [] {
    } else {
      var n := |placed| - 1;
      var o := placed[n];
      assert placed == placed[..n] + [o];
      CountIsMatches(placed[..n], c, p);
      MatchesSnoc(placed[..n], o, c, p);
      SelectorExactly(c.labelSelector, o.labels);
      assert Counted(c, p)(o) <==> !SamePodKey(o, p) && o.namespace == p.namespace && Picks(c.labelSelector, o.labels);
      hide Picks, SamePodKey, MatchesIn, Counted, SelectorMatches;
    }
  }

  lemma {:induction false} DomainMatchesSnoc(slots: seq<Slot>, s: Slot, c: SpreadConstraint, p: Pod, domain: string)
    ensures MatchesInDomain(slots + [s], c, p, domain)
            == MatchesInDomain(slots, c, p, domain)
               + if InTopology(s.node, c.topologyKey, domain) then MatchesIn(s.placed, c, p) else 0
  {
    hide MatchesIn, InTopology;
    if slots == [] {
      assert [] + [s] == [s] && [s][1..] == [];
    } else {
      DomainMatchesSnoc(slots[1..], s, c, p, domain);
      assert (slots + [s])[1..] == slots[1..] + [s];
    }
  }

  lemma {:induction false} DomainCountIs(slots: seq<Slot>, c: SpreadConstraint, p: Pod, domain: string)
    ensures DomainCount(slots, c.topologyKey, domain, Counted(c, p)) == MatchesInDomain(slots, c, p, domain)
  {
    if slots == [] {
    } else {
      var n := |slots| - 1;
      assert slots == slots[..n] + [slots[n]];
      DomainCountIs(slots[..n], c, p, domain);
      DomainMatchesSnoc(slots[..n], slots[n], c, p, domain);
      CountIsMatches(slots[n].placed, c, p);
      DomainExactly(slots[n].node, c.topologyKey, domain);
      hide MatchesIn, MatchesInDomain, CountIf, Counted, TopologyValue;
    }
  }

  /** The domains of a key that some node is in. */
  ghost predicate IsDomain(slots: seq<Slot>, key: string, domain: string) {
    exists i :: 0 <= i < |slots| && InTopology(slots[i].node, key, domain)
  }

  lemma DomainsAre(slots: seq<Slot>, key: string, domain: string)
    ensures domain in Domains(slots, key) <==> IsDomain(slots, key, domain)
  {
    forall i | 0 <= i < |slots| ensures TopologyValue(slots[i].node, key) == Some(domain) <==> InTopology(slots[i].node, key, domain) {
      DomainExactly(slots[i].node, key, domain);
    }
    hide TopologyValue, InTopology;
  }

  /** One hard constraint lets the pod onto the node: the node is in a domain; with the pod
      counted in, that domain holds at most maxSkew more than any other, and where there are
      fewer domains than asked for, at most maxSkew in all. */
  ghost predicate Spread(c: SpreadConstraint, p: Pod, n: Node, slots: seq<Slot>, domains: set<string>) {
    c.whenUnsatisfiable == "DoNotSchedule" ==>
      exists here :: InTopology(n, c.topologyKey, here) &&
        var after := MatchesInDomain(slots, c, p, here) + 1;
        if c.minDomains.Some? && c.minDomains.value > 0 && |domains| < c.minDomains.value then after <= c.maxSkew
        else c.maxSkew >= 0 && forall d :: d in domains && d != here ==> after <= MatchesInDomain(slots, c, p, d) + c.maxSkew
  }

  lemma SpreadExactly(c: SpreadConstraint, p: Pod, n: Node, slots: seq<Slot>, domains: set<string>)
    requires forall d :: d in domains <==> IsDomain(slots, c.topologyKey, d)
    ensures SpreadAllows(c, p, n, slots) <==> Spread(c, p, n, slots, domains)
  {
    forall d ensures d in Domains(slots, c.topologyKey) <==> d in domains {
      DomainsAre(slots, c.topologyKey, d);
    }
    assert Domains(slots, c.topologyKey) == domains;
    forall d ensures DomainCount(slots, c.topologyKey, d, Counted(c, p)) == MatchesInDomain(slots, c, p, d) {
      DomainCountIs(slots, c, p, d);
    }
    forall d ensures TopologyValue(n, c.topologyKey) == Some(d) <==> InTopology(n, c.topologyKey, d) {
      DomainExactly(n, c.topologyKey, d);
    }
    hide Domains, DomainCount, Counted, MatchesInDomain, TopologyValue, InTopology, IsDomain;
  }

  /** A required term keeps the pod off: another pod in scope that the selector picks is on a
      node of the same domain; or the node has no domain. */
  ghost predicate Apart(t: PodAffinityTerm, p: Pod, n: Node, slots: seq<Slot>) {
    exists here :: InTopology(n, t.topologyKey, here) &&
      forall i, j :: 0 <= i < |slots| && 0 <= j < |slots[i].placed| && InTopology(slots[i].node, t.topologyKey, here) ==>
        var o := slots[i].placed[j];
        || SamePodKey(o, p) || !Picks(t.labelSelector, o.labels)
        || (if t.namespaces == [] then o.namespace != p.namespace else o.namespace !in t.namespaces)
  }

  lemma ApartExactly(t: PodAffinityTerm, p: Pod, n: Node, slots: seq<Slot>)
    ensures TermAllows(t, p, n, slots) <==> Apart(t, p, n, slots)
  {
    forall m: Node, d ensures TopologyValue(m, t.topologyKey) == Some(d) <==> InTopology(m, t.topologyKey, d) {
      DomainExactly(m, t.topologyKey, d);
    }
    forall o: Pod
      ensures Repels(t, p, o)
              <==> !(SamePodKey(o, p) || !Picks(t.labelSelector, o.labels)
                     || (if t.namespaces == [] then o.namespace != p.namespace else o.namespace !in t.namespaces))
    {
      SelectorExactly(t.labelSelector, o.labels);
      hide SelectorMatches, Picks;
    }
    hide Repels, TopologyValue, InTopology, SamePodKey, Picks;
    if Apart(t, p, n, slots) {
      var here :| InTopology(n, t.topologyKey, here) &&
        forall i, j :: 0 <= i < |slots| && 0 <= j < |slots[i].placed| && InTopology(slots[i].node, t.topologyKey, here) ==>
          !Repels(t, p, slots[i].placed[j]);
    }
  }

  ghost predicate AllDomains(domains: set<string>, slots: seq<Slot>, key: string) {
    forall d :: d in domains <==> IsDomain(slots, key, d)
  }

  ghost predicate SpreadOut(c: SpreadConstraint, p: Pod, n: Node, slots: seq<Slot>) {
    forall domains :: AllDomains(domains, slots, c.topologyKey) ==> Spread(c, p, n, slots, domains)
  }

  lemma SpreadOutExactly(c: SpreadConstraint, p: Pod, n: Node, slots: seq<Slot>)
    ensures SpreadAllows(c, p, n, slots) <==> SpreadOut(c, p, n, slots)
  {
    var all := Domains(slots, c.topologyKey);
    forall d ensures d in all <==> IsDomain(slots, c.topologyKey, d) {
      DomainsAre(slots, c.topologyKey, d);
    }
    assert AllDomains(all, slots, c.topologyKey);
    forall domains | AllDomains(domains, slots, c.topologyKey)
      ensures SpreadAllows(c, p, n, slots) <==> Spread(c, p, n, slots, domains)
    {
      SpreadExactly(c, p, n, slots, domains);
    }
    hide SpreadAllows, Spread, AllDomains;
  }

  /** A node admits a pod if and only if it has room, welcomes it, keeps every required
      anti-affinity term apart and satisfies every hard spread constraint. */
  lemma VerdictExactly(s: Slot, p: Pod, slots: seq<Slot>)
    ensures Verdict(s, p, slots) == None
            <==> (HasRoom(s, p) && Welcome(s.node, p)
                  && (p.affinity.Some? ==>
                        forall i :: 0 <= i < |p.affinity.value.requiredPodAntiAffinity| ==>
                          Apart(p.affinity.value.requiredPodAntiAffinity[i], p, s.node, slots))
                  && forall i :: 0 <= i < |p.spread| ==> SpreadOut(p.spread[i], p, s.node, slots))
  {
    LocalExactly(s, p);
    forall t ensures TermAllows(t, p, s.node, slots) <==> Apart(t, p, s.node, slots) {
      ApartExactly(t, p, s.node, slots);
    }
    forall c ensures SpreadAllows(c, p, s.node, slots) <==> SpreadOut(c, p, s.node, slots) {
      SpreadOutExactly(c, p, s.node, slots);
    }
    hide LocalVerdict, HasRoom, Welcome, TermAllows, Apart, SpreadAllows, SpreadOut;
  }

  // ----- assignments and rejections -----

  ghost predicate AdmittedBy(nodes: seq<Node>, name: string, p: Pod) {
    exists k :: 0 <= k < |nodes| && nodes[k].name == name && Welcome(nodes[k], p)
  }

  /** An assigned pod sits on a node whose taints it tolerates, whose labels it selects and
      whose affinity terms it meets. */
  lemma AssignedIsAdmitted(nodes: seq<Node>, pods: seq<Pod>, p: Pod)
    requires DistinctKeys(pods) && p in pods && Key(p) in Fit(nodes, pods).assignments
    ensures AdmittedBy(nodes, Fit(nodes, pods).assignments[Key(p)], p)
  {
    var ordered, slots := SortedForPacking(pods), EmptySlots(nodes);
    SortingKeeps(pods);
    OrderProofs.DistinctKeysReorder(pods, ordered);
    assert p in ordered;
    var o :| 0 <= o < |ordered| && ordered[o] == p;
    assert AllSound(slots);
    hide Verdict, StaticVerdict, Welcome;
    EveryPodAccounted(slots, ordered, o);
    PackSound(slots, ordered);
    PackKeepsNodes(slots, ordered);
    var st := Pack(slots, ordered);
    hide Pack;
    var k :| 0 <= k < |st.slots| && p in st.slots[k].placed && st.slots[k].node.name == st.assignments[Key(p)];
    assert SoundSlot(st.slots[k]);
    StaticExactly(nodes[k], p);
  }

  /** Every reason counted against a pod was given by some node in some state of the pass. */
  ghost predicate Caused(nodes: seq<Node>, r: Rejection, p: Pod) {
    forall reason :: reason in r.votes ==> Given(nodes, p, reason)
  }

  ghost predicate Given(nodes: seq<Node>, p: Pod, reason: string) {
    exists k, placed: seq<Pod>, all: seq<Slot> :: 0 <= k < |nodes| && Verdict(Slot(nodes[k], placed), p, all) == Some(reason)
  }

  lemma {:induction false} VotesAreGiven(nodes: seq<Node>, slots: seq<Slot>, p: Pod, n: nat)
    requires n <= |slots| == |nodes| && forall i :: 0 <= i < |slots| ==> slots[i].node == nodes[i]
    ensures forall reason :: reason in Votes(slots, p, n) ==> Given(nodes, p, reason)
  {
    hide Verdict;
    if n == 0 {
    } else {
      VotesAreGiven(nodes, slots, p, n - 1);
      if Verdict(slots[n - 1], p, slots).Some? {
        assert slots[n - 1] == Slot(nodes[n - 1], slots[n - 1].placed);
        assert Given(nodes, p, Verdict(slots[n - 1], p, slots).value);
      }
    }
  }

  lemma {:induction false} RejectionsAreCaused(nodes: seq<Node>, pods: seq<Pod>, i: nat) returns (j: nat)
    requires nodes != [] && i < |Pack(EmptySlots(nodes), pods).unplaced|
    ensures var r := Pack(EmptySlots(nodes), pods).unplaced[i];
            j < |pods| && Key(pods[j]) == r.podKey && Caused(nodes, r, pods[j])
  {
    hide Verdict;
    var n := |pods| - 1;
    var st := Pack(EmptySlots(nodes), pods[..n]);
    if i < |st.unplaced| {
      j := RejectionsAreCaused(nodes, pods[..n], i);
    } else {
      PackKeepsNodes(EmptySlots(nodes), pods[..n]);
      VotesAreGiven(nodes, st.slots, pods[n], |st.slots|);
      hide Votes, Given;
      j := n;
    }
  }

  /** A node-level refusal counted against a pod has its ground on some node: an untolerated
      taint, an unmet selector, unmet affinity. Where no node has that ground, no vote does. */
  lemma RejectedForCause(nodes: seq<Node>, pods: seq<Pod>, i: nat, p: Pod)
    requires nodes != [] && DistinctKeys(pods) && p in pods
    requires i < |Fit(nodes, pods).unplaced| && Fit(nodes, pods).unplaced[i].podKey == Key(p)
    ensures var votes := Fit(nodes, pods).unplaced[i].votes;
            && ("untolerated_taint" in votes ==> exists k :: 0 <= k < |nodes| && !Borne(nodes[k].taints, p.tolerations))
            && ("node_selector" in votes ==> exists k :: 0 <= k < |nodes| && !Selected(nodes[k].labels, p.nodeSelector))
            && ("node_affinity" in votes ==> exists k :: 0 <= k < |nodes| && !Attracted(nodes[k].name, nodes[k].labels, p.affinity))
  {
    var ordered := SortedForPacking(pods);
    SortingKeeps(pods);
    OrderProofs.DistinctKeysReorder(pods, ordered);
    var r := Pack(EmptySlots(nodes), ordered).unplaced[i];
    var j := RejectionsAreCaused(nodes, ordered, i);
    hide Pack, Fit, SortedForPacking;
    assert p in ordered;
    var o :| 0 <= o < |ordered| && ordered[o] == p;
    OneOfKey(ordered, o, j);
    GroundOf(nodes, p, "untolerated_taint");
    GroundOf(nodes, p, "node_selector");
    GroundOf(nodes, p, "node_affinity");
    hide Given, Borne, Selected, Attracted;
  }

  lemma OneOfKey(pods: seq<Pod>, i: nat, j: nat)
    requires DistinctKeys(pods) && i < |pods| && j < |pods| && Key(pods[i]) == Key(pods[j])
    ensures i == j
  {
    hide Key;
  }

  lemma GroundOf(nodes: seq<Node>, p: Pod, reason: string)
    ensures Given(nodes, p, reason) ==>
              && (reason == "untolerated_taint" ==> exists k :: 0 <= k < |nodes| && !Borne(nodes[k].taints, p.tolerations))
              && (reason == "node_selector" ==> exists k :: 0 <= k < |nodes| && !Selected(nodes[k].labels, p.nodeSelector))
              && (reason == "node_affinity" ==> exists k :: 0 <= k < |nodes| && !Attracted(nodes[k].name, nodes[k].labels, p.affinity))
  {
    hide Borne, Selected, Attracted;
    if Given(nodes, p, reason) {
      var k, placed: seq<Pod>, all: seq<Slot> :| 0 <= k < |nodes| && Verdict(Slot(nodes[k], placed), p, all) == Some(reason);
      StaticExactly(nodes[k], p);
      VerdictOfStatic(Slot(nodes[k], placed), p, all);
      hide Verdict, StaticVerdict;
    }
  }

  lemma VerdictOfStatic(s: Slot, p: Pod, all: seq<Slot>)
    ensures Verdict(s, p, all) in {Some("untolerated_taint"), Some("node_selector"), Some("node_affinity")} ==>
              Verdict(s, p, all) == StaticVerdict(s.node, p)
  {
    hide StaticVerdict, AntiAffinityAllows, AllSpreadAllow;
  }

  // ----- the order of packing -----

  /** Pods are packed largest memory first, then largest CPU, then by key. */
  lemma PackedLargestFirst(pods: seq<Pod>, i: nat, j: nat)
    requires i < j < |pods|
    ensures var ordered := SortedForPacking(pods);
            && multiset(ordered) == multiset(pods) && |ordered| == |pods|
            && var a, b := ordered[i], ordered[j];
               a.mem > b.mem || (a.mem == b.mem && (a.cpu > b.cpu || (a.cpu == b.cpu && !LexLess(Key(b), Key(a)))))
  {
    SortingKeeps(pods);
    OrderProofs.PodOrderIsStrictWeak();
    SortSorts(pods, PodBefore);
    hide Key, LexLess;
    assert !PodBefore(SortedForPacking(pods)[j], SortedForPacking(pods)[i]);
  }
}
