/** Surviving a loss with every predicate in force: when the nodes stand alike in the
    topology, the pods can be admitted again, one by one, by the nodes that are left. */
module ReplayProofs {
  import opened Basics
  import opened Constraints
  import opened Sorting
  import opened Packer
  import opened PackingProofs
  import opened SurvivalProofs
  import opened Capacity
  import CapacityProofs

  // ----- admitting pods one by one on chosen nodes -----

  /** Empty nodes after the pods went, in order, to the chosen nodes. */
  function Replay(nodes: seq<Node>, pods: seq<Pod>, to: seq<nat>): (slots: seq<Slot>)
    requires |to| == |pods| && forall i :: 0 <= i < |to| ==> to[i] < |nodes|
    ensures |slots| == |nodes| && forall i :: 0 <= i < |nodes| ==> slots[i].node == nodes[i]
  {
    if pods == [] then EmptySlots(nodes)
    else
      var n := |pods| - 1;
      var prev := Replay(nodes, pods[..n], to[..n]);
      prev[to[n] := Slot(nodes[to[n]], prev[to[n]].placed + [pods[n]])]
  }

  /** At every step the chosen node admits the pod: every predicate, against all nodes. */
  ghost predicate Admissible(nodes: seq<Node>, pods: seq<Pod>, to: seq<nat>) {
    && |to| == |pods| && (forall i :: 0 <= i < |to| ==> to[i] < |nodes|)
    && (pods != [] ==>
          var n := |pods| - 1;
          var slots := Replay(nodes, pods[..n], to[..n]);
          Admissible(nodes, pods[..n], to[..n]) && Verdict(slots[to[n]], pods[n], slots) == None)
  }

  /** A full first-fit pass is such a sequence of admissions. */
  lemma {:induction false} PackReplays(nodes: seq<Node>, pods: seq<Pod>) returns (to: seq<nat>)
    requires Pack(EmptySlots(nodes), pods).unplaced == []
    ensures Admissible(nodes, pods, to) && Replay(nodes, pods, to) == Pack(EmptySlots(nodes), pods).slots
  {
    hide Verdict;
    if pods == [] {
      to := [];
    } else {
      var n := |pods| - 1;
      var st := Pack(EmptySlots(nodes), pods[..n]);
      var front := PackReplays(nodes, pods[..n]);
      PackKeepsNodes(EmptySlots(nodes), pods[..n]);
      var i := FirstFit(st.slots, pods[n], 0);
      to := front + [i];
      assert to[..n] == front;
    }
  }

  // ----- nodes that stand alike -----

  ghost predicate SameDomain(a: Node, b: Node, key: string) {
    TopologyValue(a, key) == TopologyValue(b, key)
  }

  /** `w` can take the place of node `k`: for every topology key it has a value if node `k`
      has one, and shares it with exactly the same other nodes. */
  ghost predicate StandsIn(nodes: seq<Node>, k: nat, w: Node)
    requires k < |nodes|
  {
    && (forall key :: TopologyValue(nodes[k], key).Some? == TopologyValue(w, key).Some?)
    && (forall key, j :: 0 <= j < |nodes| && j != k ==> (SameDomain(nodes[j], nodes[k], key) <==> SameDomain(nodes[j], w, key)))
  }

  /** The same occupants, with node `k` exchanged for `w`. */
  ghost predicate Exchanged(a: seq<Slot>, b: seq<Slot>, k: nat, w: Node) {
    && k < |a| == |b| && b[k] == Slot(w, a[k].placed) && StandsIn(NodesOf(a), k, w)
    && forall j :: 0 <= j < |a| && j != k ==> b[j] == a[j]
  }

  lemma {:induction false} SameDomainKept(a: seq<Slot>, b: seq<Slot>, k: nat, w: Node, i: nat, j: nat, key: string)
    requires Exchanged(a, b, k, w) && i < |a| && j < |a|
    ensures SameDomain(a[j].node, a[i].node, key) <==> SameDomain(b[j].node, b[i].node, key)
  {
    var nodes := NodesOf(a);
    assert nodes[i] == a[i].node && nodes[j] == a[j].node && nodes[k] == a[k].node;
    if i != k && j == k {
      assert SameDomain(nodes[i], nodes[k], key) <==> SameDomain(nodes[i], w, key);
    } else if i == k && j != k {
      assert SameDomain(nodes[j], nodes[k], key) <==> SameDomain(nodes[j], w, key);
    }
  }

  lemma {:induction false} DomainKept(a: seq<Slot>, b: seq<Slot>, k: nat, w: Node, i: nat, key: string)
    requires Exchanged(a, b, k, w) && i < |a|
    ensures TopologyValue(a[i].node, key).Some? == TopologyValue(b[i].node, key).Some?
  {
    assert NodesOf(a)[k] == a[k].node;
  }

  lemma {:induction false} SameCount(a: seq<Slot>, b: seq<Slot>, key: string, d: string, e: string, f: Pod -> bool)
    requires |a| == |b|
    requires forall j :: 0 <= j < |a| ==> a[j].placed == b[j].placed && (InDomain(a[j].node, key, d) <==> InDomain(b[j].node, key, e))
    ensures DomainCount(a, key, d, f) == DomainCount(b, key, e, f)
  {
    if a == [] {
    } else {
      SameCount(a[..|a| - 1], b[..|b| - 1], key, d, e, f);
    }
  }

  /** The count of a node's own domain does not change. */
  lemma {:induction false} OwnCountKept(a: seq<Slot>, b: seq<Slot>, k: nat, w: Node, i: nat, key: string, f: Pod -> bool)
    requires Exchanged(a, b, k, w) && i < |a| && TopologyValue(a[i].node, key).Some?
    ensures TopologyValue(b[i].node, key).Some?
    ensures DomainCount(a, key, TopologyValue(a[i].node, key).value, f) == DomainCount(b, key, TopologyValue(b[i].node, key).value, f)
  {
    DomainKept(a, b, k, w, i, key);
    hide TopologyValue;
    var d, e := TopologyValue(a[i].node, key).value, TopologyValue(b[i].node, key).value;
    forall j | 0 <= j < |a| ensures a[j].placed == b[j].placed && (InDomain(a[j].node, key, d) <==> InDomain(b[j].node, key, e)) {
      SameDomainKept(a, b, k, w, i, j, key);
    }
    SameCount(a, b, key, d, e, f);
  }

  /** Nor does the number of domains: either `w` shares node `k`'s domain with another node,
      or each of the two has a domain to itself. */
  lemma {:induction false} AsManyDomains(a: seq<Slot>, b: seq<Slot>, k: nat, w: Node, key: string)
    requires Exchanged(a, b, k, w)
    ensures |Domains(a, key)| == |Domains(b, key)|
  {
    DomainKept(a, b, k, w, k, key);
    var others := set j | 0 <= j < |a| && j != k && TopologyValue(a[j].node, key).Some? :: TopologyValue(a[j].node, key).value;
    DomainsSplit(a, k, key, others);
    DomainsSplit(b, k, key, others);
    if TopologyValue(a[k].node, key).Some? {
      var d, e := TopologyValue(a[k].node, key).value, TopologyValue(w, key).value;
      if d in others {
        var j :| 0 <= j < |a| && j != k && TopologyValue(a[j].node, key) == Some(d);
        SameDomainKept(a, b, k, w, k, j, key);
      }
      if e in others {
        var j :| 0 <= j < |a| && j != k && TopologyValue(a[j].node, key) == Some(e);
        SameDomainKept(a, b, k, w, k, j, key);
      }
    }
  }

  lemma {:induction false} DomainsSplit(slots: seq<Slot>, k: nat, key: string, others: set<string>)
    requires k < |slots|
    requires others == set j | 0 <= j < |slots| && j != k && TopologyValue(slots[j].node, key).Some? ::
                         TopologyValue(slots[j].node, key).value
    ensures Domains(slots, key) == others + if TopologyValue(slots[k].node, key).Some? then {TopologyValue(slots[k].node, key).value} else {}
  {
  }

  // ----- every predicate survives the exchange -----

  lemma {:induction false} TermKept(a: seq<Slot>, b: seq<Slot>, k: nat, w: Node, i: nat, pod: Pod, term: PodAffinityTerm)
    requires Exchanged(a, b, k, w) && i < |a| && TermAllows(term, pod, a[i].node, a)
    ensures TermAllows(term, pod, b[i].node, b)
  {
    DomainKept(a, b, k, w, i, term.topologyKey);
    forall j | 0 <= j < |b| && TopologyValue(b[j].node, term.topologyKey) == TopologyValue(b[i].node, term.topologyKey)
      ensures forall o :: o in b[j].placed ==> !Repels(term, pod, o)
    {
      SameDomainKept(a, b, k, w, i, j, term.topologyKey);
      assert b[j].placed == a[j].placed;
    }
  }

  lemma {:induction false} SpreadKept(a: seq<Slot>, b: seq<Slot>, k: nat, w: Node, i: nat, pod: Pod, c: SpreadConstraint)
    requires Exchanged(a, b, k, w) && i < |a| && SpreadAllows(c, pod, a[i].node, a)
    ensures SpreadAllows(c, pod, b[i].node, b)
  {
    if c.whenUnsatisfiable == "DoNotSchedule" {
      var key, f := c.topologyKey, Counted(c, pod);
      OwnCountKept(a, b, k, w, i, key, f);
      AsManyDomains(a, b, k, w, key);
      hide DomainCount, Exchanged;
      var here := TopologyValue(b[i].node, key).value;
      forall e | e in Domains(b, key) && e != here
        ensures exists d :: d in Domains(a, key) && d != TopologyValue(a[i].node, key).value
                            && DomainCount(a, key, d, f) == DomainCount(b, key, e, f)
      {
        OtherDomainKept(a, b, k, w, i, key, f, e);
      }
    }
  }

  lemma {:induction false} OtherDomainKept(a: seq<Slot>, b: seq<Slot>, k: nat, w: Node, i: nat, key: string, f: Pod -> bool, e: string)
    requires Exchanged(a, b, k, w) && i < |a| && TopologyValue(a[i].node, key).Some? && TopologyValue(b[i].node, key).Some?
    requires e in Domains(b, key) && e != TopologyValue(b[i].node, key).value
    ensures exists d :: d in Domains(a, key) && d != TopologyValue(a[i].node, key).value
                        && DomainCount(a, key, d, f) == DomainCount(b, key, e, f)
  {
    var j :| 0 <= j < |b| && TopologyValue(b[j].node, key) == Some(e);
    SameDomainKept(a, b, k, w, i, j, key);
    DomainKept(a, b, k, w, j, key);
    OwnCountKept(a, b, k, w, j, key, f);
    hide DomainCount, Exchanged;
    assert TopologyValue(a[j].node, key).value in Domains(a, key);
  }

  /** A node that dominates another on its own predicates admits what the other admits. */
  lemma {:induction false} LocalKept(s: Slot, w: Node, pod: Pod, pods: seq<Pod>)
    requires Dominates(w, s.node, pods) && pod in pods && LocalVerdict(s, pod) == None
    ensures LocalVerdict(Slot(w, s.placed), pod) == None
  {
    forall r | r in pod.ext ensures FreeExt(Slot(w, s.placed), r) >= pod.ext[r] {
      assert FreeExt(s, r) >= pod.ext[r];
    }
  }

  lemma {:induction false} VerdictKept(a: seq<Slot>, b: seq<Slot>, k: nat, w: Node, i: nat, pod: Pod, pods: seq<Pod>)
    requires Exchanged(a, b, k, w) && i < |a| && pod in pods && Dominates(w, a[k].node, pods)
    requires Verdict(a[i], pod, a) == None
    ensures Verdict(b[i], pod, b) == None
  {
    assert LocalVerdict(b[i], pod) == None by {
      if i == k {
        LocalKept(a[k], w, pod, pods);
      }
    }
    hide LocalVerdict, TermAllows, SpreadAllows, Exchanged;
    forall t | t in AntiAffinityTerms(pod) ensures TermAllows(t, pod, b[i].node, b) {
      TermKept(a, b, k, w, i, pod, t);
    }
    forall c | c in pod.spread ensures SpreadAllows(c, pod, b[i].node, b) {
      SpreadKept(a, b, k, w, i, pod, c);
    }
  }

  /** The whole sequence of admissions can be repeated with `w` in node `k`'s place. */
  lemma {:induction false} ReplayElsewhere(nodes: seq<Node>, k: nat, w: Node, order: seq<Pod>, to: seq<nat>, pods: seq<Pod>)
    requires k < |nodes| && StandsIn(nodes, k, w) && Dominates(w, nodes[k], pods)
    requires Admissible(nodes, order, to) && forall p :: p in order ==> p in pods
    ensures Admissible(nodes[k := w], order, to)
    ensures Exchanged(Replay(nodes, order, to), Replay(nodes[k := w], order, to), k, w)
  {
    var others := nodes[k := w];
    assert NodesOf(Replay(nodes, order, to)) == nodes;
    if order == [] {
    } else {
      var n := |order| - 1;
      ReplayElsewhere(nodes, k, w, order[..n], to[..n], pods);
      var a, b := Replay(nodes, order[..n], to[..n]), Replay(others, order[..n], to[..n]);
      assert order[n] in order;
      hide Verdict, Dominates, StandsIn;
      VerdictKept(a, b, k, w, to[n], order[n], pods);
    }
  }

  // ----- losing a node -----

  /** The pods can be admitted one by one by exactly the nodes left without `x`. */
  ghost predicate ReadmittedWithout(retained: seq<Node>, x: nat, pods: seq<Pod>)
    requires x < |retained|
  {
    exists nodes: seq<Node>, order: seq<Pod>, to: seq<nat> ::
      Readmits(nodes, order, to, multiset(RemoveAt(retained, x)), multiset(pods))
  }

  ghost predicate Readmits(nodes: seq<Node>, order: seq<Pod>, to: seq<nat>, left: multiset<Node>, pods: multiset<Pod>) {
    multiset(nodes) == left && multiset(order) == pods && Admissible(nodes, order, to)
  }

  /** If everything fits without `w`, and `w` dominates `x` and stands in for it among the
      rest, everything can be admitted again without `x`. */
  lemma {:induction false} ReadmitOtherLoss(retained: seq<Node>, w: nat, x: nat, pods: seq<Pod>)
    requires w < |retained| && x < |retained|
    requires PlacesAll(RemoveAt(retained, w), pods) && RemoveAt(retained, w) != []
    requires w != x ==>
               var k := if x < w then x else x - 1;
               k < |RemoveAt(retained, w)| && StandsIn(RemoveAt(retained, w), k, retained[w])
               && Dominates(retained[w], retained[x], pods)
    ensures ReadmittedWithout(retained, x, pods)
  {
    var nodes := RemoveAt(retained, w);
    var order, to := FullReplay(nodes, pods);
    hide Admissible, StandsIn, Dominates, RemoveAt;
    if x == w {
      assert Readmits(nodes, order, to, multiset(nodes), multiset(pods));
    } else {
      var k := if x < w then x else x - 1;
      SwapRemoved(retained, w, x, k);
      hide Replay, Exchanged;
      ReplayElsewhere(nodes, k, retained[w], order, to, pods);
      assert Readmits(nodes[k := retained[w]], order, to, multiset(RemoveAt(retained, x)), multiset(pods));
    }
  }

  lemma {:induction false} FullReplay(nodes: seq<Node>, pods: seq<Pod>) returns (order: seq<Pod>, to: seq<nat>)
    requires PlacesAll(nodes, pods) && nodes != []
    ensures Admissible(nodes, order, to) && multiset(order) == multiset(pods) && forall p :: p in order ==> p in pods
  {
    order := SortedForPacking(pods);
    SortingKeeps(pods);
    hide Admissible, Pack, SortedForPacking;
    to := PackReplays(nodes, order);
  }

  /** Nodes that differ, for each topology key, either all or not at all: the usual pool,
      where only the host name tells the nodes apart. */
  ghost predicate Interchangeable(nodes: seq<Node>) {
    forall key :: AlikeFor(nodes, key)
  }

  ghost predicate AlikeFor(nodes: seq<Node>, key: string) {
    || (forall i :: 0 <= i < |nodes| ==> TopologyValue(nodes[i], key).None?)
    || ((forall i :: 0 <= i < |nodes| ==> TopologyValue(nodes[i], key).Some?)
        && ((forall i, j :: 0 <= i < j < |nodes| ==> SameDomain(nodes[i], nodes[j], key))
            || (forall i, j :: 0 <= i < j < |nodes| ==> !SameDomain(nodes[i], nodes[j], key))))
  }

  lemma {:induction false} AnyStandsIn(retained: seq<Node>, w: nat, x: nat)
    requires w < |retained| && x < |retained| && w != x && Interchangeable(retained)
    ensures var k := if x < w then x else x - 1;
            k < |RemoveAt(retained, w)| && StandsIn(RemoveAt(retained, w), k, retained[w])
  {
    var nodes, k := RemoveAt(retained, w), if x < w then x else x - 1;
    assert nodes[k] == retained[x];
    hide TopologyValue, Interchangeable, SameDomain;
    forall key, j | 0 <= j < |nodes| && j != k
      ensures SameDomain(nodes[j], nodes[k], key) <==> SameDomain(nodes[j], retained[w], key)
    {
      var i := if j < w then j else j + 1;
      assert nodes[j] == retained[i];
      assert i != x && i != w;
      DomainsAgree(retained, key, i, x, w);
    }
    forall key ensures TopologyValue(nodes[k], key).Some? == TopologyValue(retained[w], key).Some? {
      BothHaveIt(retained, key, x, w);
    }
  }

  lemma {:induction false} DomainsAgree(nodes: seq<Node>, key: string, i: nat, x: nat, w: nat)
    requires i < |nodes| && x < |nodes| && w < |nodes| && i != x && i != w && Interchangeable(nodes)
    ensures SameDomain(nodes[i], nodes[x], key) <==> SameDomain(nodes[i], nodes[w], key)
  {
    hide TopologyValue;
    assert AlikeFor(nodes, key);
  }

  lemma {:induction false} BothHaveIt(nodes: seq<Node>, key: string, x: nat, w: nat)
    requires x < |nodes| && w < |nodes| && Interchangeable(nodes)
    ensures TopologyValue(nodes[x], key).Some? == TopologyValue(nodes[w], key).Some?
  {
    hide TopologyValue;
    assert AlikeFor(nodes, key);
  }

  /** In a pool whose nodes are interchangeable, packing after one particular loss means that
      after any single loss every pod can be admitted again, spread and anti-affinity
      included. */
  lemma {:induction false} AnyLossReadmitted(retained: seq<Node>, w: nat, pods: seq<Pod>)
    requires w < |retained| && |retained| > 1 && Homogeneous(retained, pods) && Interchangeable(retained)
    requires PlacesAll(RemoveAt(retained, w), pods)
    ensures forall x :: 0 <= x < |retained| ==> ReadmittedWithout(retained, x, pods)
  {
    forall x | 0 <= x < |retained| ensures ReadmittedWithout(retained, x, pods) {
      if x != w {
        AnyStandsIn(retained, w, x);
      }
      hide StandsIn, Interchangeable, PlacesAll;
      ReadmitOtherLoss(retained, w, x, pods);
    }
  }

  /** So the survival gate, passed on interchangeable nodes, covers the loss of any one of
      them under every predicate. */
  lemma {:induction false} GateReadmitsAnyLoss(pool: Pool, n: nat)
    requires 1 < n <= |pool.placeable| && pool.cfg.surviveNodeLoss && Gate(pool, n)
    requires var kept := SimNodes(pool, pool.placeable[..n]); Homogeneous(kept, pool.toPlace) && Interchangeable(kept)
    ensures forall x :: 0 <= x < n ==> ReadmittedWithout(SimNodes(pool, pool.placeable[..n]), x, pool.toPlace)
  {
    var retained := pool.placeable[..n];
    var w := WorstIndex(retained);
    assert PlacesAll(SimNodes(pool, RemoveAt(retained, w)), pool.toPlace) by {
      hide Fit;
    }
    CapacityProofs.SimNodesRemove(pool, retained, w);
    hide *;
    AnyLossReadmitted(SimNodes(pool, retained), w, pool.toPlace);
  }
}
