/** Why testing the loss of one dominating node covers the loss of any other: the lost
    node's pods can move, as a group, to the node the test left out. */
module SurvivalProofs {
  import opened Basics
  import opened Packer
  import opened PackingProofs
  import opened Sorting

  function NodesOf(slots: seq<Slot>): (r: seq<Node>)
    ensures |r| == |slots|
    ensures forall i :: 0 <= i < |slots| ==> r[i] == slots[i].node
  {
    seq(|slots|, i requires 0 <= i < |slots| => slots[i].node)
  }

  function AllPlaced(slots: seq<Slot>): multiset<Pod> {
    if slots == [] then multiset{}
    else AllPlaced(slots[..|slots| - 1]) + multiset(slots[|slots| - 1].placed)
  }

  /** An assignment of exactly these pods to exactly these nodes that breaks no capacity
      and no node-level constraint. */
  ghost predicate ValidOn(slots: seq<Slot>, nodes: multiset<Node>, pods: multiset<Pod>) {
    multiset(NodesOf(slots)) == nodes && AllPlaced(slots) == pods && AllSound(slots)
  }

  lemma {:induction false} AllPlacedUpdate(slots: seq<Slot>, i: nat, s: Slot)
    requires i < |slots|
    ensures AllPlaced(slots[i := s]) + multiset(slots[i].placed) == AllPlaced(slots) + multiset(s.placed)
  {
    var n := |slots| - 1;
    if i == n {
      assert slots[i := s][..n] == slots[..n];
    } else {
      assert slots[i := s][..n] == slots[..n][i := s];
      AllPlacedUpdate(slots[..n], i, s);
      var was, now := AllPlaced(slots[..n]), AllPlaced(slots[..n][i := s]);
      var last := multiset(slots[n].placed);
      assert (now + last) + multiset(slots[i].placed) == (now + multiset(slots[i].placed)) + last;
      assert (was + last) + multiset(s.placed) == (was + multiset(s.placed)) + last;
    }
  }

  lemma {:induction false} EmptyHoldsNothing(nodes: seq<Node>)
    ensures AllPlaced(EmptySlots(nodes)) == multiset{}
  {
    if nodes == [] {
    } else {
      assert EmptySlots(nodes)[..|nodes| - 1] == EmptySlots(nodes[..|nodes| - 1]);
      EmptyHoldsNothing(nodes[..|nodes| - 1]);
    }
  }

  lemma CancelSummand<T>(a: multiset<T>, b: multiset<T>, c: multiset<T>)
    requires a + c == b + c
    ensures a == b
  {
    forall x ensures a[x] == b[x] {
      assert (a + c)[x] == (b + c)[x];
    }
  }

  lemma LastMultiset<T>(s: seq<T>)
    requires s != []
    ensures multiset(s) == multiset(s[..|s| - 1]) + multiset{s[|s| - 1]}
  {
    assert s == s[..|s| - 1] + [s[|s| - 1]];
  }

  lemma SumAssociates<T>(a: multiset<T>, b: multiset<T>, c: multiset<T>)
    ensures (a + b) + c == a + (b + c)
  {
  }

  lemma PlaceOneAdds(st: PackState, pod: Pod)
    requires FirstFit(st.slots, pod, 0) < |st.slots|
    ensures AllPlaced(PlaceOne(st, pod).slots) == AllPlaced(st.slots) + multiset{pod}
  {
    var i := FirstFit(st.slots, pod, 0);
    var s := Slot(st.slots[i].node, st.slots[i].placed + [pod]);
    var held, after := multiset(st.slots[i].placed), AllPlaced(st.slots[i := s]);
    AllPlacedUpdate(st.slots, i, s);
    assert multiset(s.placed) == held + multiset{pod};
    assert after + held == (AllPlaced(st.slots) + multiset{pod}) + held;
    CancelSummand(after, AllPlaced(st.slots) + multiset{pod}, held);
  }

  /** A pass that rejects nothing has placed exactly the pods it was given. */
  lemma {:induction false} PlacedEverything(slots: seq<Slot>, pods: seq<Pod>)
    requires Pack(slots, pods).unplaced == []
    ensures AllPlaced(Pack(slots, pods).slots) == AllPlaced(slots) + multiset(pods)
  {
    if pods == [] {
    } else {
      var front, pod := pods[..|pods| - 1], pods[|pods| - 1];
      var st := Pack(slots, front);
      PlacedEverything(slots, front);
      PlaceOneAdds(st, pod);
      LastMultiset(pods);
      SumAssociates(AllPlaced(slots), multiset(front), multiset{pod});
    }
  }

  /** A placement with nothing left over is a valid assignment of all its pods. */
  lemma FitIsValid(nodes: seq<Node>, pods: seq<Pod>) returns (slots: seq<Slot>)
    requires PlacesAll(nodes, pods)
    ensures ValidOn(slots, multiset(nodes), multiset(pods))
    ensures NodesOf(slots) == nodes
  {
    if nodes == [] {
      slots := [];
    } else {
      var ordered := SortedForPacking(pods);
      slots := Pack(EmptySlots(nodes), ordered).slots;
      SortingKeeps(pods);
      PackSound(EmptySlots(nodes), ordered);
      PackKeepsNodes(EmptySlots(nodes), ordered);
      PlacedEverything(EmptySlots(nodes), ordered);
      EmptyHoldsNothing(nodes);
      assert NodesOf(slots) == nodes;
    }
  }

  /** `w` offers at least the net room of `x` and refuses no pod that `x` accepts. */
  ghost predicate Dominates(w: Node, x: Node, pods: seq<Pod>) {
    && w.allocCPU - w.reservedCPU >= x.allocCPU - x.reservedCPU
    && w.allocMem - w.reservedMem >= x.allocMem - x.reservedMem
    && (forall r :: Quantity(w.allocExt, r) - Quantity(w.reservedExt, r)
                    >= Quantity(x.allocExt, r) - Quantity(x.reservedExt, r))
    && (w.maxPods > 0 ==> x.maxPods > 0 && w.maxPods - w.reservedPods >= x.maxPods - x.reservedPods)
    && (forall p | p in pods :: StaticVerdict(x, p) == None ==> StaticVerdict(w, p) == None)
  }

  lemma HostsAll(s: Slot, w: Node, pods: seq<Pod>)
    requires SoundSlot(s) && Dominates(w, s.node, pods)
    requires forall p :: p in s.placed ==> p in pods
    ensures SoundSlot(Slot(w, s.placed))
  {
    var t := Slot(w, s.placed);
    if s.placed != [] {
      forall p | p in t.placed ensures StaticVerdict(w, p) == None && ExtFits(t, p) {
        assert ExtFits(s, p);
        forall r | r in p.ext
          ensures Quantity(w.reservedExt, r) + SumExt(t.placed, r) <= Quantity(w.allocExt, r)
        {
          assert Quantity(w.allocExt, r) - Quantity(w.reservedExt, r)
                 >= Quantity(s.node.allocExt, r) - Quantity(s.node.reservedExt, r);
        }
      }
    }
  }

  lemma {:induction false} PlacedIsMember(slots: seq<Slot>, i: nat, p: Pod)
    requires i < |slots| && p in slots[i].placed
    ensures p in AllPlaced(slots)
  {
    if i < |slots| - 1 {
      PlacedIsMember(slots[..|slots| - 1], i, p);
    }
  }

  /** Replacing a node by one that dominates it keeps an assignment valid. */
  lemma SwapNode(before: seq<Slot>, k: nat, w: Node, pods: seq<Pod>)
    requires k < |before| && AllSound(before) && AllPlaced(before) == multiset(pods)
    requires Dominates(w, before[k].node, pods)
    ensures var after := before[k := Slot(w, before[k].placed)];
            && AllSound(after) && AllPlaced(after) == multiset(pods)
            && NodesOf(after) == NodesOf(before)[k := w]
  {
    var after := before[k := Slot(w, before[k].placed)];
    AllPlacedUpdate(before, k, after[k]);
    CancelSummand(AllPlaced(after), AllPlaced(before), multiset(before[k].placed));
    forall p | p in before[k].placed ensures p in pods {
      PlacedIsMember(before, k, p);
      assert p in multiset(pods);
    }
    HostsAll(before[k], w, pods);
  }

  lemma UpdateMultiset<T>(s: seq<T>, k: nat, v: T)
    requires k < |s|
    ensures multiset(s[k := v]) == multiset(s) - multiset{s[k]} + multiset{v}
  {
  }

  /** Removing `w` and overwriting `x` by it leaves what removing `x` leaves. */
  lemma SwapRemoved<T>(s: seq<T>, w: nat, x: nat, k: nat)
    requires w < |s| && x < |s| && w != x
    requires k == if x < w then x else x - 1
    ensures k < |RemoveAt(s, w)| && RemoveAt(s, w)[k] == s[x]
    ensures multiset(RemoveAt(s, w)[k := s[w]]) == multiset(RemoveAt(s, x))
  {
    RemoveAtIndex(s, w, x);
    RemoveAtMultiset(s, w);
    RemoveAtMultiset(s, x);
    UpdateMultiset(RemoveAt(s, w), k, s[w]);
    assert s[w] in multiset(RemoveAt(s, x)) by {
      RemoveAtIndex(s, x, w);
    }
    ExchangeOne(multiset(s), s[w], s[x]);
  }

  lemma ExchangeOne<T>(m: multiset<T>, w: T, x: T)
    requires w in m && w in m - multiset{x}
    ensures m - multiset{w} - multiset{x} + multiset{w} == m - multiset{x}
  {
  }

  /** If everything fits without node `w`, then without any other node `x` that `w`
      dominates there is still a valid assignment: `x`'s pods move to `w`. */
  lemma SurvivesOtherLoss(retained: seq<Node>, w: nat, x: nat, pods: seq<Pod>) returns (slots: seq<Slot>)
    requires w < |retained| && x < |retained| && w != x
    requires PlacesAll(RemoveAt(retained, w), pods)
    requires Dominates(retained[w], retained[x], pods)
    ensures ValidOn(slots, multiset(RemoveAt(retained, x)), multiset(pods))
  {
    var before := FitIsValid(RemoveAt(retained, w), pods);
    var k := if x < w then x else x - 1;
    SwapRemoved(retained, w, x, k);
    assert before[k].node == NodesOf(before)[k];
    SwapNode(before, k, retained[w], pods);
    slots := before[k := Slot(retained[w], before[k].placed)];
  }

  lemma OtherLossSurvivable(retained: seq<Node>, w: nat, x: nat, pods: seq<Pod>)
    requires w < |retained| && x < |retained| && Homogeneous(retained, pods)
    requires PlacesAll(RemoveAt(retained, w), pods)
    ensures SurvivableWithout(retained, x, pods)
  {
    var slots;
    if x == w {
      slots := FitIsValid(RemoveAt(retained, w), pods);
    } else {
      slots := SurvivesOtherLoss(retained, w, x, pods);
    }
    assert ValidOn(slots, multiset(RemoveAt(retained, x)), multiset(pods));
  }

  /** Some valid assignment remains when node `x` is lost. */
  ghost predicate SurvivableWithout(retained: seq<Node>, x: nat, pods: seq<Pod>)
    requires x < |retained|
  {
    exists slots :: ValidOn(slots, multiset(RemoveAt(retained, x)), multiset(pods))
  }

  /** Any two nodes of the list offer the same room and accept the same pods. */
  ghost predicate Homogeneous(nodes: seq<Node>, pods: seq<Pod>) {
    forall i, j :: 0 <= i < |nodes| && 0 <= j < |nodes| ==> Dominates(nodes[i], nodes[j], pods)
  }

  /** In a homogeneous pool, surviving one particular loss is surviving every single loss. */
  lemma HomogeneousSurvivesAnyLoss(retained: seq<Node>, w: nat, pods: seq<Pod>)
    requires w < |retained| && Homogeneous(retained, pods)
    requires PlacesAll(RemoveAt(retained, w), pods)
    ensures forall x :: 0 <= x < |retained| ==> SurvivableWithout(retained, x, pods)
  {
    forall x | 0 <= x < |retained| ensures SurvivableWithout(retained, x, pods) {
      OtherLossSurvivable(retained, w, x, pods);
    }
  }
}
