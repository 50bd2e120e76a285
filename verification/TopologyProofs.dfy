/** What the cross-node predicates keep over a whole pass: one pod of an anti-affinity
    group per domain, and a bounded skew for a spread group. */
module TopologyProofs {
  import opened Basics
  import opened Constraints
  import opened Packer
  import opened PackingProofs
  import OrderProofs
  import opened Sorting

  // ----- counting -----

  lemma CountAppend(placed: seq<Pod>, pod: Pod, f: Pod -> bool)
    ensures CountIf(placed + [pod], f) == CountIf(placed, f) + if f(pod) then 1 else 0
  {
    assert (placed + [pod])[..|placed|] == placed;
  }

  lemma {:induction false} CountAgrees(placed: seq<Pod>, f: Pod -> bool, g: Pod -> bool)
    requires forall p :: p in placed ==> f(p) == g(p)
    ensures CountIf(placed, f) == CountIf(placed, g)
  {
    if placed == [] {
    } else {
      CountAgrees(placed[..|placed| - 1], f, g);
      assert placed[|placed| - 1] in placed;
    }
  }

  lemma {:induction false} DomainCountAgrees(slots: seq<Slot>, key: string, d: string, f: Pod -> bool, g: Pod -> bool)
    requires forall i, p :: 0 <= i < |slots| && p in slots[i].placed ==> f(p) == g(p)
    ensures DomainCount(slots, key, d, f) == DomainCount(slots, key, d, g)
  {
    if slots == [] {
    } else {
      var n := |slots| - 1;
      forall i, p | 0 <= i < n && p in slots[..n][i].placed ensures f(p) == g(p) {
        assert p in slots[i].placed;
      }
      DomainCountAgrees(slots[..n], key, d, f, g);
      CountAgrees(slots[n].placed, f, g);
    }
  }

  /** Charging a pod to one node changes the count of that node's domain only. */
  lemma {:induction false} DomainCountPlace(slots: seq<Slot>, i: nat, pod: Pod, key: string, d: string, f: Pod -> bool)
    requires i < |slots|
    ensures DomainCount(slots[i := Slot(slots[i].node, slots[i].placed + [pod])], key, d, f)
            == DomainCount(slots, key, d, f) + if f(pod) && InDomain(slots[i].node, key, d) then 1 else 0
  {
    var n := |slots| - 1;
    var charged := Slot(slots[i].node, slots[i].placed + [pod]);
    DomainCountLast(slots[..n], slots[n], key, d, f);
    assert slots == slots[..n] + [slots[n]];
    if i == n {
      CountAppend(slots[i].placed, pod, f);
      hide DomainCount, CountIf, InDomain;
      DomainCountLast(slots[..n], charged, key, d, f);
      assert slots[i := charged] == slots[..n] + [charged];
    } else {
      hide DomainCount, CountIf, InDomain;
      DomainCountPlace(slots[..n], i, pod, key, d, f);
      DomainCountLast(slots[..n][i := charged], slots[n], key, d, f);
      assert slots[i := charged] == slots[..n][i := charged] + [slots[n]];
    }
  }

  lemma DomainCountLast(slots: seq<Slot>, last: Slot, key: string, d: string, f: Pod -> bool)
    ensures DomainCount(slots + [last], key, d, f)
            == DomainCount(slots, key, d, f) + if InDomain(last.node, key, d) then CountIf(last.placed, f) else 0
  {
    assert (slots + [last])[..|slots|] == slots;
  }

  lemma DomainsKept(a: seq<Slot>, b: seq<Slot>, key: string)
    requires |a| == |b| && forall i :: 0 <= i < |a| ==> a[i].node == b[i].node
    ensures Domains(a, key) == Domains(b, key)
  {
  }

  lemma {:induction false} NothingCounted(nodes: seq<Node>, key: string, d: string, f: Pod -> bool)
    ensures DomainCount(EmptySlots(nodes), key, d, f) == 0
  {
    if nodes == [] {
    } else {
      assert EmptySlots(nodes)[..|nodes| - 1] == EmptySlots(nodes[..|nodes| - 1]);
      NothingCounted(nodes[..|nodes| - 1], key, d, f);
    }
  }

  /** Every placed pod was offered. */
  lemma {:induction false} PlacedWasOffered(nodes: seq<Node>, pods: seq<Pod>, i: nat, p: Pod)
    requires i < |nodes|
    requires |Pack(EmptySlots(nodes), pods).slots| == |nodes| && p in Pack(EmptySlots(nodes), pods).slots[i].placed
    ensures p in pods
  {
    if pods == [] {
    } else {
      var n := |pods| - 1;
      PackKeepsNodes(EmptySlots(nodes), pods[..n]);
      var st := Pack(EmptySlots(nodes), pods[..n]);
      if p in st.slots[i].placed {
        PlacedWasOffered(nodes, pods[..n], i, p);
      } else {
        assert p == pods[n];
      }
    }
  }

  // ----- topology spread -----

  /** The pods one spread constraint is about: a namespace and a selector. */
  function SpreadGroup(ns: string, selector: Option<LabelSelector>): Pod -> bool {
    (p: Pod) => p.namespace == ns && SelectorMatches(selector, p.labels)
  }

  /** The constraint as every pod of its group carries it. */
  ghost predicate GroupCarries(pods: seq<Pod>, ns: string, c: SpreadConstraint) {
    forall i :: 0 <= i < |pods| && SpreadGroup(ns, c.labelSelector)(pods[i]) ==> c in pods[i].spread
  }

  function GroupCount(slots: seq<Slot>, ns: string, c: SpreadConstraint, d: string): nat {
    DomainCount(slots, c.topologyKey, d, SpreadGroup(ns, c.labelSelector))
  }

  /** Any two domains differ by at most MaxSkew, no member sits outside every domain, and
      with fewer domains than MinDomains no domain holds more than MaxSkew members. */
  ghost predicate SkewBounded(slots: seq<Slot>, ns: string, c: SpreadConstraint) {
    && (forall d, e :: d in Domains(slots, c.topologyKey) && e in Domains(slots, c.topologyKey) ==>
          GroupCount(slots, ns, c, d) - GroupCount(slots, ns, c, e) <= c.maxSkew)
    && (forall i, p :: 0 <= i < |slots| && p in slots[i].placed && SpreadGroup(ns, c.labelSelector)(p) ==>
          TopologyValue(slots[i].node, c.topologyKey).Some?)
    && (TooFewDomains(c, Domains(slots, c.topologyKey)) ==>
          forall d :: d in Domains(slots, c.topologyKey) ==> GroupCount(slots, ns, c, d) <= c.maxSkew)
  }

  ghost predicate KeyAbsent(slots: seq<Slot>, key: string) {
    forall i, p :: 0 <= i < |slots| && p in slots[i].placed ==> Key(p) != key
  }

  /** Without the incoming pod among the occupants, its constraint counts the group. */
  lemma CountedIsGroup(slots: seq<Slot>, pod: Pod, c: SpreadConstraint, d: string)
    requires KeyAbsent(slots, Key(pod))
    ensures DomainCount(slots, c.topologyKey, d, Counted(c, pod)) == GroupCount(slots, pod.namespace, c, d)
  {
    DomainCountAgrees(slots, c.topologyKey, d, Counted(c, pod), SpreadGroup(pod.namespace, c.labelSelector));
  }

  lemma AdmitKeepsSkew(slots: seq<Slot>, i: nat, pod: Pod, c: SpreadConstraint)
    requires i < |slots| && SkewBounded(slots, pod.namespace, c)
    requires c.whenUnsatisfiable == "DoNotSchedule"
    requires SpreadGroup(pod.namespace, c.labelSelector)(pod)
    requires SpreadAllows(c, pod, slots[i].node, slots)
    requires KeyAbsent(slots, Key(pod))
    ensures SkewBounded(slots[i := Slot(slots[i].node, slots[i].placed + [pod])], pod.namespace, c)
  {
    var next := slots[i := Slot(slots[i].node, slots[i].placed + [pod])];
    var key := c.topologyKey;
    DomainsKept(slots, next, key);
    var here := TopologyValue(slots[i].node, key).value;
    assert here in Domains(slots, key);
    forall d ensures GroupCount(next, pod.namespace, c, d)
                     == GroupCount(slots, pod.namespace, c, d) + if d == here then 1 else 0
    {
      DomainCountPlace(slots, i, pod, key, d, SpreadGroup(pod.namespace, c.labelSelector));
    }
    forall d ensures DomainCount(slots, key, d, Counted(c, pod)) == GroupCount(slots, pod.namespace, c, d) {
      CountedIsGroup(slots, pod, c, d);
    }
  }

  lemma OutsiderKeepsSkew(slots: seq<Slot>, i: nat, pod: Pod, ns: string, c: SpreadConstraint)
    requires i < |slots| && SkewBounded(slots, ns, c)
    requires !SpreadGroup(ns, c.labelSelector)(pod)
    ensures SkewBounded(slots[i := Slot(slots[i].node, slots[i].placed + [pod])], ns, c)
  {
    var next := slots[i := Slot(slots[i].node, slots[i].placed + [pod])];
    DomainsKept(slots, next, c.topologyKey);
    forall d ensures GroupCount(next, ns, c, d) == GroupCount(slots, ns, c, d) {
      DomainCountPlace(slots, i, pod, c.topologyKey, d, SpreadGroup(ns, c.labelSelector));
    }
  }

  lemma LastNotPlacedYet(nodes: seq<Node>, pods: seq<Pod>)
    requires pods != [] && DistinctKeys(pods)
    ensures |Pack(EmptySlots(nodes), pods[..|pods| - 1]).slots| == |nodes|
    ensures KeyAbsent(Pack(EmptySlots(nodes), pods[..|pods| - 1]).slots, Key(pods[|pods| - 1]))
  {
    var n := |pods| - 1;
    PackKeepsNodes(EmptySlots(nodes), pods[..n]);
    var st := Pack(EmptySlots(nodes), pods[..n]);
    forall j, p | 0 <= j < |nodes| && p in st.slots[j].placed ensures Key(p) != Key(pods[n]) {
      PlacedWasOffered(nodes, pods[..n], j, p);
      var k :| 0 <= k < n && pods[..n][k] == p;
      assert pods[k] == p;
    }
  }

  lemma AdmittedKeepsConstraint(s: Slot, pod: Pod, all: seq<Slot>, c: SpreadConstraint)
    requires Verdict(s, pod, all) == None && c in pod.spread
    ensures SpreadAllows(c, pod, s.node, all)
  {
  }

  /** If every pod of the group carries the constraint, the skew bound holds after every
      step of the pass (take `pods` to be any prefix of the packing order). */
  lemma {:induction false} PackKeepsSkew(nodes: seq<Node>, pods: seq<Pod>, ns: string, c: SpreadConstraint)
    requires c.whenUnsatisfiable == "DoNotSchedule" && c.maxSkew >= 0
    requires DistinctKeys(pods) && GroupCarries(pods, ns, c)
    ensures SkewBounded(Pack(EmptySlots(nodes), pods).slots, ns, c)
  {
    var slots := EmptySlots(nodes);
    if pods == [] {
      forall d ensures GroupCount(slots, ns, c, d) == 0 {
        NothingCounted(nodes, c.topologyKey, d, SpreadGroup(ns, c.labelSelector));
      }
    } else {
      hide Verdict, SpreadAllows, SkewBounded;
      var n := |pods| - 1;
      PackKeepsSkew(nodes, pods[..n], ns, c);
      LastNotPlacedYet(nodes, pods);
      var st := Pack(slots, pods[..n]);
      var i := FirstFit(st.slots, pods[n], 0);
      if i < |st.slots| {
        if SpreadGroup(ns, c.labelSelector)(pods[n]) {
          AdmittedKeepsConstraint(st.slots[i], pods[n], st.slots, c);
          AdmitKeepsSkew(st.slots, i, pods[n], c);
        } else {
          OutsiderKeepsSkew(st.slots, i, pods[n], ns, c);
        }
      }
    }
  }

  /** The skew bound over a whole simulation: it holds after each of its steps. */
  lemma FitKeepsSkew(nodes: seq<Node>, pods: seq<Pod>, ns: string, c: SpreadConstraint, k: nat)
    requires c.whenUnsatisfiable == "DoNotSchedule" && c.maxSkew >= 0
    requires DistinctKeys(pods) && GroupCarries(pods, ns, c) && k <= |SortedForPacking(pods)|
    ensures SkewBounded(Pack(EmptySlots(nodes), SortedForPacking(pods)[..k]).slots, ns, c)
  {
    hide SkewBounded;
    var ordered := SortedForPacking(pods);
    SortingKeeps(pods);
    SortKeepsDistinct(pods);
    forall i | 0 <= i < k && SpreadGroup(ns, c.labelSelector)(ordered[..k][i]) ensures c in ordered[..k][i].spread {
      assert ordered[i] in pods;
      var j :| 0 <= j < |pods| && pods[j] == ordered[i];
      assert SpreadGroup(ns, c.labelSelector)(pods[j]);
    }
    PackKeepsSkew(nodes, ordered[..k], ns, c);
  }

  // ----- required anti-affinity -----

  /** Pods of one namespace that carry a term and match its selector. */
  function AntiGroup(ns: string, term: PodAffinityTerm): Pod -> bool {
    (p: Pod) => p.namespace == ns && term in AntiAffinityTerms(p) && SelectorMatches(term.labelSelector, p.labels)
  }

  ghost predicate TermCoversNamespace(ns: string, term: PodAffinityTerm) {
    term.namespaces == [] || ns in term.namespaces
  }

  /** How many of the pods belong to the group. */
  function RepelledPods(pods: seq<Pod>, ns: string, term: PodAffinityTerm): nat {
    CountIf(pods, AntiGroup(ns, term))
  }

  /** Every member sits in some domain of the term's key, and no domain holds two. */
  ghost predicate OnePerDomain(slots: seq<Slot>, ns: string, term: PodAffinityTerm) {
    && (forall i, p :: 0 <= i < |slots| && p in slots[i].placed && AntiGroup(ns, term)(p) ==>
          TopologyValue(slots[i].node, term.topologyKey).Some?)
    && (forall d :: DomainCount(slots, term.topologyKey, d, AntiGroup(ns, term)) <= 1)
  }

  lemma {:induction false} NobodyCounted(placed: seq<Pod>, f: Pod -> bool)
    requires forall p :: p in placed ==> !f(p)
    ensures CountIf(placed, f) == 0
  {
    if placed == [] {
    } else {
      NobodyCounted(placed[..|placed| - 1], f);
      assert placed[|placed| - 1] in placed;
    }
  }

  lemma {:induction false} DomainFree(slots: seq<Slot>, key: string, d: string, f: Pod -> bool)
    requires forall i :: 0 <= i < |slots| && InDomain(slots[i].node, key, d) ==> forall p :: p in slots[i].placed ==> !f(p)
    ensures DomainCount(slots, key, d, f) == 0
  {
    if slots == [] {
    } else {
      var n := |slots| - 1;
      forall i | 0 <= i < n && InDomain(slots[..n][i].node, key, d)
        ensures forall p :: p in slots[..n][i].placed ==> !f(p)
      {
        assert slots[..n][i] == slots[i];
      }
      DomainFree(slots[..n], key, d, f);
      if InDomain(slots[n].node, key, d) {
        NobodyCounted(slots[n].placed, f);
      }
    }
  }

  lemma AdmitKeepsOnePerDomain(slots: seq<Slot>, i: nat, pod: Pod, ns: string, term: PodAffinityTerm)
    requires i < |slots| && OnePerDomain(slots, ns, term) && TermCoversNamespace(ns, term)
    requires AntiGroup(ns, term)(pod) ==> TermAllows(term, pod, slots[i].node, slots)
    requires KeyAbsent(slots, Key(pod))
    ensures OnePerDomain(slots[i := Slot(slots[i].node, slots[i].placed + [pod])], ns, term)
  {
    var f, key := AntiGroup(ns, term), term.topologyKey;
    var next := slots[i := Slot(slots[i].node, slots[i].placed + [pod])];
    forall d ensures DomainCount(next, key, d, f) <= 1 {
      DomainCountPlace(slots, i, pod, key, d, f);
      if f(pod) && InDomain(slots[i].node, key, d) {
        forall j | 0 <= j < |slots| && InDomain(slots[j].node, key, d)
          ensures forall p :: p in slots[j].placed ==> !f(p)
        {
          forall p | p in slots[j].placed ensures !f(p) {
            assert !Repels(term, pod, p);
          }
        }
        DomainFree(slots, key, d, f);
      }
    }
    forall j, p | 0 <= j < |next| && p in next[j].placed && f(p) ensures TopologyValue(next[j].node, key).Some? {
      if p !in slots[j].placed {
        assert p == pod && j == i;
      }
    }
  }

  lemma AdmittedKeepsTerm(s: Slot, pod: Pod, all: seq<Slot>, ns: string, term: PodAffinityTerm)
    requires Verdict(s, pod, all) == None
    ensures AntiGroup(ns, term)(pod) ==> TermAllows(term, pod, s.node, all)
  {
  }

  /** A pass never puts two members of an anti-affinity group into one domain. */
  lemma {:induction false} PackKeepsOnePerDomain(nodes: seq<Node>, pods: seq<Pod>, ns: string, term: PodAffinityTerm)
    requires DistinctKeys(pods) && TermCoversNamespace(ns, term)
    ensures OnePerDomain(Pack(EmptySlots(nodes), pods).slots, ns, term)
  {
    var slots := EmptySlots(nodes);
    if pods == [] {
      forall d ensures DomainCount(slots, term.topologyKey, d, AntiGroup(ns, term)) == 0 {
        NothingCounted(nodes, term.topologyKey, d, AntiGroup(ns, term));
      }
    } else {
      hide Verdict, TermAllows, OnePerDomain;
      var n := |pods| - 1;
      PackKeepsOnePerDomain(nodes, pods[..n], ns, term);
      LastNotPlacedYet(nodes, pods);
      var st := Pack(slots, pods[..n]);
      var i := FirstFit(st.slots, pods[n], 0);
      if i < |st.slots| {
        AdmittedKeepsTerm(st.slots[i], pods[n], st.slots, ns, term);
        AdmitKeepsOnePerDomain(st.slots, i, pods[n], ns, term);
      }
    }
  }

  // ----- the pigeonhole bound -----

  function TotalCount(slots: seq<Slot>, f: Pod -> bool): nat {
    if slots == [] then 0
    else TotalCount(slots[..|slots| - 1], f) + CountIf(slots[|slots| - 1].placed, f)
  }

  lemma {:induction false} TotalPlace(slots: seq<Slot>, i: nat, pod: Pod, f: Pod -> bool)
    requires i < |slots|
    ensures TotalCount(slots[i := Slot(slots[i].node, slots[i].placed + [pod])], f)
            == TotalCount(slots, f) + if f(pod) then 1 else 0
  {
    var n := |slots| - 1;
    var next := slots[i := Slot(slots[i].node, slots[i].placed + [pod])];
    CountAppend(slots[i].placed, pod, f);
    if i == n {
      assert next[..n] == slots[..n];
    } else {
      assert next[..n] == slots[..n][i := Slot(slots[i].node, slots[i].placed + [pod])];
      TotalPlace(slots[..n], i, pod, f);
    }
  }

  lemma {:induction false} EmptyTotal(nodes: seq<Node>, f: Pod -> bool)
    ensures TotalCount(EmptySlots(nodes), f) == 0
  {
    if nodes == [] {
    } else {
      assert EmptySlots(nodes)[..|nodes| - 1] == EmptySlots(nodes[..|nodes| - 1]);
      EmptyTotal(nodes[..|nodes| - 1], f);
    }
  }

  /** A pass that rejects nothing has placed every member of the group. */
  lemma {:induction false} FullPassPlacesGroup(nodes: seq<Node>, pods: seq<Pod>, f: Pod -> bool)
    requires Pack(EmptySlots(nodes), pods).unplaced == []
    ensures TotalCount(Pack(EmptySlots(nodes), pods).slots, f) == CountIf(pods, f)
  {
    if pods == [] {
      EmptyTotal(nodes, f);
    } else {
      var n := |pods| - 1;
      FullPassPlacesGroup(nodes, pods[..n], f);
      var st := Pack(EmptySlots(nodes), pods[..n]);
      TotalPlace(st.slots, FirstFit(st.slots, pods[n], 0), pods[n], f);
    }
  }

  /** The domains that hold a counted pod. */
  function Occupied(slots: seq<Slot>, key: string, f: Pod -> bool): set<string> {
    if slots == [] then {}
    else
      var last := slots[|slots| - 1];
      Occupied(slots[..|slots| - 1], key, f)
      + if TopologyValue(last.node, key).Some? && CountIf(last.placed, f) > 0
        then {TopologyValue(last.node, key).value} else {}
  }

  lemma {:induction false} OccupiedIsCounted(slots: seq<Slot>, key: string, f: Pod -> bool, d: string)
    ensures d in Occupied(slots, key, f) ==> DomainCount(slots, key, d, f) > 0 && d in Domains(slots, key)
  {
    if slots == [] {
    } else {
      var n := |slots| - 1;
      OccupiedIsCounted(slots[..n], key, f, d);
      if d in Occupied(slots[..n], key, f) {
        var i :| 0 <= i < n && TopologyValue(slots[..n][i].node, key) == Some(d);
        assert TopologyValue(slots[i].node, key) == Some(d);
      }
    }
  }

  lemma {:induction false} CountedSomewhere(placed: seq<Pod>, f: Pod -> bool)
    requires CountIf(placed, f) > 0
    ensures exists p :: p in placed && f(p)
  {
    if f(placed[|placed| - 1]) {
      assert placed[|placed| - 1] in placed;
    } else {
      CountedSomewhere(placed[..|placed| - 1], f);
      var p :| p in placed[..|placed| - 1] && f(p);
      assert p in placed;
    }
  }

  /** With at most one counted pod per domain, there are as many domains as pods. */
  lemma {:induction false} OneDomainEach(slots: seq<Slot>, key: string, f: Pod -> bool)
    requires forall d :: DomainCount(slots, key, d, f) <= 1
    requires forall i, p :: 0 <= i < |slots| && p in slots[i].placed && f(p) ==> TopologyValue(slots[i].node, key).Some?
    ensures |Occupied(slots, key, f)| == TotalCount(slots, f)
  {
    if slots == [] {
    } else {
      var n := |slots| - 1;
      var front, last := slots[..n], slots[n];
      forall d ensures DomainCount(front, key, d, f) <= 1 {
        assert DomainCount(slots, key, d, f) <= 1;
      }
      forall i, p | 0 <= i < n && p in front[i].placed && f(p) ensures TopologyValue(front[i].node, key).Some? {
        assert p in slots[i].placed;
      }
      OneDomainEach(front, key, f);
      if CountIf(last.placed, f) > 0 {
        CountedSomewhere(last.placed, f);
        assert slots[n] == last;
        var d := TopologyValue(last.node, key).value;
        assert DomainCount(slots, key, d, f) <= 1;
        OccupiedIsCounted(front, key, f, d);
      }
    }
  }

  lemma {:induction false} DomainsWithinNodes(slots: seq<Slot>, key: string)
    ensures |Domains(slots, key)| <= |slots|
  {
    if slots == [] {
    } else {
      var n := |slots| - 1;
      DomainsWithinNodes(slots[..n], key);
      var v := TopologyValue(slots[n].node, key);
      assert Domains(slots, key) <= Domains(slots[..n], key) + {if v.Some? then v.value else ""} by {
        forall d | d in Domains(slots, key)
          ensures d in Domains(slots[..n], key) + {if v.Some? then v.value else ""}
        {
          var i :| 0 <= i < |slots| && TopologyValue(slots[i].node, key) == Some(d);
          if i < n {
            assert slots[..n][i] == slots[i];
          }
        }
      }
      SubsetSize(Domains(slots, key), Domains(slots[..n], key) + {if v.Some? then v.value else ""});
    }
  }

  /** A full placement spreads `k` group members over `k` different domains, so it needs
      at least `k` domains and at least `k` nodes. */
  lemma AntiAffinityNeedsDomains(nodes: seq<Node>, pods: seq<Pod>, ns: string, term: PodAffinityTerm)
    requires DistinctKeys(pods) && TermCoversNamespace(ns, term)
    requires PlacesAll(nodes, pods)
    ensures RepelledPods(pods, ns, term) <= |Domains(EmptySlots(nodes), term.topologyKey)| <= |nodes|
  {
    var f, key := AntiGroup(ns, term), term.topologyKey;
    DomainsWithinNodes(EmptySlots(nodes), key);
    if nodes != [] {
      var ordered, slots := SortedForPacking(pods), EmptySlots(nodes);
      SortingKeeps(pods);
      SortKeepsDistinct(pods);
      PackKeepsOnePerDomain(nodes, ordered, ns, term);
      FullPassPlacesGroup(nodes, ordered, f);
      var after := Pack(slots, ordered).slots;
      OneDomainEach(after, key, f);
      PackKeepsNodes(slots, ordered);
      DomainsKept(after, slots, key);
      forall d | d in Occupied(after, key, f) ensures d in Domains(after, key) {
        OccupiedIsCounted(after, key, f, d);
      }
      SubsetSize(Occupied(after, key, f), Domains(after, key));
      CountReorder(pods, ordered, f);
    }
  }

  lemma SortKeepsDistinct(pods: seq<Pod>)
    requires DistinctKeys(pods)
    ensures DistinctKeys(SortedForPacking(pods))
  {
    SortingKeeps(pods);
    OrderProofs.DistinctKeysReorder(pods, SortedForPacking(pods));
  }

  lemma {:induction false} CountRemove(s: seq<Pod>, j: nat, f: Pod -> bool)
    requires j < |s|
    ensures CountIf(s, f) == CountIf(RemoveAt(s, j), f) + if f(s[j]) then 1 else 0
  {
    var n := |s| - 1;
    if j == n {
      assert RemoveAt(s, j) == s[..n];
    } else {
      CountRemove(s[..n], j, f);
      assert RemoveAt(s, j) == RemoveAt(s[..n], j) + [s[n]];
      CountAppend(RemoveAt(s[..n], j), s[n], f);
    }
  }

  /** The count of a multiset of pods does not depend on their order. */
  lemma {:induction false} CountReorder(a: seq<Pod>, b: seq<Pod>, f: Pod -> bool)
    requires multiset(a) == multiset(b)
    ensures CountIf(a, f) == CountIf(b, f)
  {
    SameElements(a, b);
    if a == [] {
    } else {
      var n := |a| - 1;
      assert a[n] in a;
      assert a[n] in b;
      var j :| 0 <= j < |b| && b[j] == a[n];
      CountRemove(b, j, f);
      CountRemove(a, n, f);
      RemoveAtMultiset(b, j);
      RemoveAtMultiset(a, n);
      CountReorder(RemoveAt(a, n), RemoveAt(b, j), f);
    }
  }
}
