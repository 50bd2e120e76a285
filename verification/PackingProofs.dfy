/** What every first-fit pass keeps: capacity, exactly-once accounting, stability under
    appended nodes, and the exchange argument behind the survival gate. */
module PackingProofs {
  import opened Basics
  import opened Packer

  ghost predicate DistinctKeys(pods: seq<Pod>) {
    Sorting.DistinctBy(pods, Key)
  }

  /** A node that received a pod stays within its allocatable capacity and pod cap, and
      satisfies the node-level constraints of every pod it hosts. */
  ghost predicate SoundSlot(s: Slot) {
    s.placed != [] ==>
      && s.node.reservedCPU + SumCPU(s.placed) <= s.node.allocCPU
      && s.node.reservedMem + SumMem(s.placed) <= s.node.allocMem
      && (s.node.maxPods > 0 ==> s.node.reservedPods + |s.placed| <= s.node.maxPods)
      && (forall p | p in s.placed :: StaticVerdict(s.node, p) == None && ExtFits(s, p))
  }

  ghost predicate ExtFits(s: Slot, p: Pod) {
    forall r | r in p.ext ::
      Quantity(s.node.reservedExt, r) + SumExt(s.placed, r) <= Quantity(s.node.allocExt, r)
  }

  ghost predicate AllSound(slots: seq<Slot>) {
    forall i :: 0 <= i < |slots| ==> SoundSlot(slots[i])
  }

  lemma AdmitKeepsSound(s: Slot, pod: Pod)
    requires SoundSlot(s) && LocalVerdict(s, pod) == None
    ensures SoundSlot(Slot(s.node, s.placed + [pod]))
  {
    var t := Slot(s.node, s.placed + [pod]);
    SumsAppend(s.placed, pod);
    forall p | p in t.placed ensures StaticVerdict(s.node, p) == None && ExtFits(t, p) {
      forall r | r in p.ext
        ensures Quantity(t.node.reservedExt, r) + SumExt(t.placed, r) <= Quantity(t.node.allocExt, r)
      {
        if r in pod.ext {
          assert FreeExt(s, r) >= pod.ext[r];
        } else {
          assert p in s.placed && ExtFits(s, p);
        }
      }
    }
  }

  /** Every step of a pass keeps every node sound. */
  lemma {:induction false} PackSound(slots: seq<Slot>, pods: seq<Pod>)
    requires AllSound(slots)
    ensures AllSound(Pack(slots, pods).slots)
  {
    if pods == [] {
    } else {
      var pod := pods[|pods| - 1];
      PackSound(slots, pods[..|pods| - 1]);
      var st := Pack(slots, pods[..|pods| - 1]);
      var i := FirstFit(st.slots, pod, 0);
      if i < |st.slots| {
        AdmitKeepsSound(st.slots[i], pod);
      }
    }
  }

  /** A pass never adds, drops or renames a node. */
  lemma {:induction false} PackKeepsNodes(slots: seq<Slot>, pods: seq<Pod>)
    ensures |Pack(slots, pods).slots| == |slots|
    ensures forall i :: 0 <= i < |slots| ==> Pack(slots, pods).slots[i].node == slots[i].node
  {
    if pods == [] {
    } else {
      PackKeepsNodes(slots, pods[..|pods| - 1]);
    }
  }

  // ----- accounting -----

  ghost predicate Rejected(st: PackState, key: string) {
    exists i :: 0 <= i < |st.unplaced| && st.unplaced[i].podKey == key
  }

  ghost predicate SitsOn(slots: seq<Slot>, p: Pod, name: string) {
    exists i :: 0 <= i < |slots| && p in slots[i].placed && slots[i].node.name == name
  }

  ghost predicate Accounted(st: PackState, p: Pod) {
    if Key(p) in st.assignments then !Rejected(st, Key(p)) && SitsOn(st.slots, p, st.assignments[Key(p)])
    else Rejected(st, Key(p))
  }

  ghost predicate FairVotes(st: PackState) {
    forall i :: 0 <= i < |st.unplaced| ==>
      |st.unplaced[i].votes| == |st.slots|
      && (st.slots != [] ==> IsDominant(st.unplaced[i].votes, st.unplaced[i].reason))
  }

  ghost predicate KnownKey(pods: seq<Pod>, key: string) {
    exists i :: 0 <= i < |pods| && Key(pods[i]) == key
  }

  lemma PlaceOneKeepsSeat(st: PackState, pod: Pod, p: Pod, name: string)
    requires SitsOn(st.slots, p, name)
    ensures SitsOn(PlaceOne(st, pod).slots, p, name)
  {
    var next := PlaceOne(st, pod).slots;
    var i :| 0 <= i < |st.slots| && p in st.slots[i].placed && st.slots[i].node.name == name;
    assert p in next[i].placed && next[i].node.name == name;
  }

  lemma PlaceOneAccounts(st: PackState, pod: Pod)
    requires Key(pod) !in st.assignments && !Rejected(st, Key(pod))
    ensures Accounted(PlaceOne(st, pod), pod)
  {
    var next := PlaceOne(st, pod);
    var i := FirstFit(st.slots, pod, 0);
    if i < |st.slots| {
      assert pod in next.slots[i].placed && next.slots[i].node.name == next.assignments[Key(pod)];
    } else {
      assert next.unplaced[|st.unplaced|].podKey == Key(pod);
    }
  }

  lemma PlaceOneKeepsAccount(st: PackState, pod: Pod, p: Pod)
    requires Key(p) != Key(pod) && Accounted(st, p)
    ensures Accounted(PlaceOne(st, pod), p)
  {
    var next := PlaceOne(st, pod);
    if Key(p) in st.assignments {
      PlaceOneKeepsSeat(st, pod, p, st.assignments[Key(p)]);
    } else {
      var i :| 0 <= i < |st.unplaced| && st.unplaced[i].podKey == Key(p);
      assert next.unplaced[i].podKey == Key(p);
    }
  }

  lemma LastKeyFresh(pods: seq<Pod>)
    requires pods != [] && DistinctKeys(pods)
    ensures !KnownKey(pods[..|pods| - 1], Key(pods[|pods| - 1]))
  {
  }

  /** Assigned and rejected keys are keys of the pods offered. */
  lemma {:induction false} OnlyOfferedKeys(slots: seq<Slot>, pods: seq<Pod>, key: string)
    requires key in Pack(slots, pods).assignments || Rejected(Pack(slots, pods), key)
    ensures KnownKey(pods, key)
  {
    var n := |pods| - 1;
    if key == Key(pods[n]) {
      assert Key(pods[n]) == key;
    } else {
      var st, next := Pack(slots, pods[..n]), Pack(slots, pods);
      if key !in next.assignments {
        var i :| 0 <= i < |next.unplaced| && next.unplaced[i].podKey == key;
        assert st.unplaced[i].podKey == key;
      }
      OnlyOfferedKeys(slots, pods[..n], key);
      var i :| 0 <= i < n && Key(pods[..n][i]) == key;
      assert Key(pods[i]) == key;
    }
  }

  lemma LastUntouched(slots: seq<Slot>, pods: seq<Pod>)
    requires pods != [] && DistinctKeys(pods)
    ensures var st := Pack(slots, pods[..|pods| - 1]);
            Key(pods[|pods| - 1]) !in st.assignments && !Rejected(st, Key(pods[|pods| - 1]))
  {
    var st, key := Pack(slots, pods[..|pods| - 1]), Key(pods[|pods| - 1]);
    LastKeyFresh(pods);
    if key in st.assignments || Rejected(st, key) {
      OnlyOfferedKeys(slots, pods[..|pods| - 1], key);
    }
  }

  /** With distinct pod keys every pod is exactly one of assigned (and then really sits on
      the node it is reported on) or rejected. */
  lemma {:induction false} EveryPodAccounted(slots: seq<Slot>, pods: seq<Pod>, i: nat)
    requires DistinctKeys(pods) && i < |pods|
    ensures Accounted(Pack(slots, pods), pods[i])
  {
    var n := |pods| - 1;
    var st := Pack(slots, pods[..n]);
    if i == n {
      LastUntouched(slots, pods);
      PlaceOneAccounts(st, pods[n]);
    } else {
      EveryPodAccounted(slots, pods[..n], i);
      PlaceOneKeepsAccount(st, pods[n], pods[i]);
    }
  }

  /** ... so assignments and rejections add up to the pods offered. */
  lemma {:induction false} AccountsAddUp(slots: seq<Slot>, pods: seq<Pod>)
    requires DistinctKeys(pods)
    ensures |Pack(slots, pods).assignments| + |Pack(slots, pods).unplaced| == |pods|
  {
    if pods == [] {
    } else {
      AccountsAddUp(slots, pods[..|pods| - 1]);
      LastUntouched(slots, pods);
    }
  }

  /** Every rejection was voted by every node, and names the winner of that vote. */
  lemma {:induction false} EveryRejectionVoted(slots: seq<Slot>, pods: seq<Pod>)
    ensures FairVotes(Pack(slots, pods))
  {
    PackKeepsNodes(slots, pods);
    if pods == [] {
    } else {
      var st := Pack(slots, pods[..|pods| - 1]);
      var pod := pods[|pods| - 1];
      EveryRejectionVoted(slots, pods[..|pods| - 1]);
      PackKeepsNodes(slots, pods[..|pods| - 1]);
      if FirstFit(st.slots, pod, 0) == |st.slots| {
        VotesTotal(st.slots, pod, |st.slots|);
      }
    }
  }

  // ----- appended nodes -----

  /** The pod has no constraint that looks beyond the candidate node. */
  ghost predicate NodeLocal(p: Pod) {
    AntiAffinityTerms(p) == [] && forall c | c in p.spread :: c.whenUnsatisfiable != "DoNotSchedule"
  }

  ghost predicate AllNodeLocal(pods: seq<Pod>) {
    forall i :: 0 <= i < |pods| ==> NodeLocal(pods[i])
  }

  lemma LocalVerdictDecides(s: Slot, pod: Pod, all: seq<Slot>)
    requires NodeLocal(pod)
    ensures Verdict(s, pod, all) == LocalVerdict(s, pod)
  {
  }

  /** Appending nodes leaves the original nodes' contents exactly as they were. */
  lemma {:induction false} PrefixStable(base: seq<Slot>, extra: seq<Slot>, pods: seq<Pod>)
    requires AllNodeLocal(pods)
    ensures |Pack(base, pods).slots| == |base|
    ensures Extends(Pack(base, pods), Pack(base + extra, pods))
  {
    PackKeepsNodes(base, pods);
    if pods == [] {
      assert (base + extra)[..|base|] == base;
    } else {
      var front, pod := pods[..|pods| - 1], pods[|pods| - 1];
      PrefixStable(base, extra, front);
      PrefixStep(Pack(base, front), Pack(base + extra, front), pod);
    }
  }

  ghost predicate Extends(small: PackState, big: PackState) {
    && |small.slots| <= |big.slots| && big.slots[..|small.slots|] == small.slots
    && forall key :: Rejected(big, key) ==> Rejected(small, key)
  }

  /** Nodes ahead of the appended ones answer as before, so the first fit among them is
      unchanged. */
  lemma FirstFitExtends(small: PackState, big: PackState, pod: Pod)
    requires NodeLocal(pod) && Extends(small, big)
    ensures var i := FirstFit(small.slots, pod, 0);
            if i < |small.slots| then FirstFit(big.slots, pod, 0) == i
            else FirstFit(big.slots, pod, 0) >= |small.slots|
  {
    forall j | 0 <= j < |small.slots|
      ensures small.slots[j] == big.slots[j]
      ensures Verdict(big.slots[j], pod, big.slots) == Verdict(small.slots[j], pod, small.slots)
    {
      assert small.slots[j] == big.slots[..|small.slots|][j];
      LocalVerdictDecides(small.slots[j], pod, small.slots);
      LocalVerdictDecides(big.slots[j], pod, big.slots);
    }
  }

  lemma RejectedExtends(small: PackState, big: PackState, pod: Pod, key: string)
    requires NodeLocal(pod) && Extends(small, big) && Rejected(PlaceOne(big, pod), key)
    ensures Rejected(PlaceOne(small, pod), key)
  {
    FirstFitExtends(small, big, pod);
    var nb, ns := PlaceOne(big, pod), PlaceOne(small, pod);
    var r :| 0 <= r < |nb.unplaced| && nb.unplaced[r].podKey == key;
    if r < |big.unplaced| {
      assert Rejected(big, key);
      var q :| 0 <= q < |small.unplaced| && small.unplaced[q].podKey == key;
      assert ns.unplaced[q].podKey == key;
    } else {
      assert ns.unplaced[|small.unplaced|].podKey == key;
    }
  }

  lemma PrefixStep(small: PackState, big: PackState, pod: Pod)
    requires NodeLocal(pod) && Extends(small, big)
    ensures Extends(PlaceOne(small, pod), PlaceOne(big, pod))
  {
    FirstFitExtends(small, big, pod);
    forall key | Rejected(PlaceOne(big, pod), key) ensures Rejected(PlaceOne(small, pod), key) {
      RejectedExtends(small, big, pod, key);
    }
  }

  /** A pod placed on the shorter node list is assigned to the same node on the longer. */
  lemma {:induction false} PrefixKeepsAssignments(base: seq<Slot>, extra: seq<Slot>, pods: seq<Pod>, key: string)
    requires AllNodeLocal(pods) && DistinctKeys(pods)
    requires key in Pack(base, pods).assignments
    ensures key in Pack(base + extra, pods).assignments
    ensures Pack(base + extra, pods).assignments[key] == Pack(base, pods).assignments[key]
  {
    if pods == [] {
    } else {
      var front, pod := pods[..|pods| - 1], pods[|pods| - 1];
      PrefixStable(base, extra, front);
      var small, big := Pack(base, front), Pack(base + extra, front);
      FirstFitExtends(small, big, pod);
      if key == Key(pod) {
        LastUntouched(base, pods);
        var i := FirstFit(small.slots, pod, 0);
        assert small.slots[i] == big.slots[..|base|][i];
      } else {
        PrefixKeepsAssignments(base, extra, front, key);
      }
    }
  }

  ghost predicate PlacesAll(nodes: seq<Node>, pods: seq<Pod>) {
    Fit(nodes, pods).unplaced == []
  }

  /** Enough nodes stay enough when more are appended. */
  lemma MoreNodesStillFit(nodes: seq<Node>, extra: seq<Node>, pods: seq<Pod>)
    requires AllNodeLocal(pods) && PlacesAll(nodes, pods)
    ensures PlacesAll(nodes + extra, pods)
  {
    var ordered := SortedForPacking(pods);
    SortingKeeps(pods);
    var all := nodes + extra;
    if nodes == [] {
      assert pods == [];
    } else {
      assert EmptySlots(all) == EmptySlots(nodes) + EmptySlots(extra);
      PrefixStable(EmptySlots(nodes), EmptySlots(extra), ordered);
      var big := Pack(EmptySlots(all), ordered);
      if big.unplaced != [] {
        assert Rejected(big, big.unplaced[0].podKey);
      }
    }
  }

  lemma SortingKeeps(pods: seq<Pod>)
    ensures |SortedForPacking(pods)| == |pods|
    ensures multiset(SortedForPacking(pods)) == multiset(pods)
    ensures forall p :: p in SortedForPacking(pods) <==> p in pods
    ensures AllNodeLocal(pods) ==> AllNodeLocal(SortedForPacking(pods))
  {
    Sorting.SortKeepsElements(pods, PodBefore);
    var sorted := SortedForPacking(pods);
    if AllNodeLocal(pods) {
      forall i | 0 <= i < |sorted| ensures NodeLocal(sorted[i]) {
        assert sorted[i] in pods;
      }
    }
  }

}
