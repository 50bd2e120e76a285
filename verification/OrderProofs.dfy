/** The simulation's answer does not depend on the order its pods are listed in. */
module OrderProofs {
  import opened Basics
  import opened Sorting
  import opened Packer
  import opened PackingProofs

  lemma PodOrderIsStrictWeak()
    ensures StrictWeak(PodBefore)
  {
    LexIsStrictWeak();
  }

  lemma PodOrderSeparates(pods: seq<Pod>)
    requires DistinctKeys(pods)
    ensures Separates(PodBefore, pods)
  {
    forall i, j | 0 <= i < |pods| && 0 <= j < |pods| && pods[i] != pods[j]
      ensures PodBefore(pods[i], pods[j]) || PodBefore(pods[j], pods[i])
    {
      assert Key(pods[i]) != Key(pods[j]) by {
        assert i < j || j < i;
      }
      LexTotal(Key(pods[i]), Key(pods[j]));
    }
  }

  lemma DistinctKeysReorder(a: seq<Pod>, b: seq<Pod>)
    requires DistinctKeys(a) && multiset(a) == multiset(b)
    ensures DistinctKeys(b)
  {
    DistinctByReorder(a, b, Key);
  }

  lemma SortIgnoresOrder(a: seq<Pod>, b: seq<Pod>)
    requires DistinctKeys(a) && multiset(a) == multiset(b)
    ensures SortedForPacking(a) == SortedForPacking(b)
  {
    PodOrderIsStrictWeak();
    SortSorts(a, PodBefore);
    SortSorts(b, PodBefore);
    SortKeepsElements(a, PodBefore);
    SortKeepsElements(b, PodBefore);
    DistinctKeysReorder(a, SortedForPacking(a));
    PodOrderSeparates(SortedForPacking(a));
    SortedUnique(SortedForPacking(a), SortedForPacking(b), PodBefore);
  }

  ghost predicate SomeCarries(pods: seq<Pod>, reason: string) {
    exists i :: 0 <= i < |pods| && reason in pods[i].unmodelled
  }

  lemma CarriesLast(pods: seq<Pod>, reason: string)
    requires pods != []
    ensures SomeCarries(pods, reason) <==>
              SomeCarries(pods[..|pods| - 1], reason) || reason in pods[|pods| - 1].unmodelled
  {
    var n := |pods| - 1;
    if SomeCarries(pods[..n], reason) {
      var i :| 0 <= i < n && reason in pods[..n][i].unmodelled;
      assert reason in pods[i].unmodelled;
    }
    if SomeCarries(pods, reason) {
      var i :| 0 <= i < |pods| && reason in pods[i].unmodelled;
      assert i < n ==> reason in pods[..n][i].unmodelled;
    }
  }

  /** The collected reasons are exactly the constraints some pod carries. */
  lemma {:induction false} CollectedExactly(pods: seq<Pod>, reason: string)
    ensures reason in CollectReasons(pods) <==> SomeCarries(pods, reason)
  {
    if pods == [] {
    } else {
      CollectedExactly(pods[..|pods| - 1], reason);
      CarriesLast(pods, reason);
    }
  }

  lemma ReasonsIgnoreOrder(a: seq<Pod>, b: seq<Pod>)
    requires multiset(a) == multiset(b)
    ensures IndeterminateReasons(a) == IndeterminateReasons(b)
  {
    SameElements(a, b);
    forall r ensures r in CollectReasons(a) <==> r in CollectReasons(b) {
      CollectedExactly(a, r);
      CollectedExactly(b, r);
      if i :| 0 <= i < |a| && r in a[i].unmodelled {
        assert a[i] in b;
        assert SomeCarries(b, r);
      }
      if i :| 0 <= i < |b| && r in b[i].unmodelled {
        assert b[i] in a;
        assert SomeCarries(a, r);
      }
    }
    SortedNamesUnique(CollectReasons(a), CollectReasons(b));
  }

  lemma RejectAllIgnoresOrder(a: seq<Pod>, b: seq<Pod>)
    requires DistinctKeys(a) && multiset(a) == multiset(b)
    ensures multiset(RejectAll(a)) == multiset(RejectAll(b))
  {
    DistinctKeysReorder(a, b);
    SameElements(a, b);
    forall r ensures r in RejectAll(a) <==> r in RejectAll(b) {
      if r in RejectAll(a) {
        var i :| 0 <= i < |a| && RejectAll(a)[i] == r;
        assert a[i] in b;
        var j :| 0 <= j < |b| && b[j] == a[i];
        assert RejectAll(b)[j] == r;
      }
      if r in RejectAll(b) {
        var i :| 0 <= i < |b| && RejectAll(b)[i] == r;
        assert b[i] in a;
        var j :| 0 <= j < |a| && a[j] == b[i];
        assert RejectAll(a)[j] == r;
      }
    }
    DistinctMultiset(RejectAll(a), RejectAll(b));
  }

  /** With distinct pod keys the whole placement is a function of the pods as a multiset;
      only with no nodes at all are the rejections listed in input order. */
  lemma FitIgnoresOrder(nodes: seq<Node>, a: seq<Pod>, b: seq<Pod>)
    requires DistinctKeys(a) && multiset(a) == multiset(b)
    ensures nodes != [] ==> Fit(nodes, a) == Fit(nodes, b)
    ensures Fit(nodes, a).assignments == Fit(nodes, b).assignments
    ensures Fit(nodes, a).indeterminateReasons == Fit(nodes, b).indeterminateReasons
    ensures multiset(Fit(nodes, a).unplaced) == multiset(Fit(nodes, b).unplaced)
  {
    ReasonsIgnoreOrder(a, b);
    SortIgnoresOrder(a, b);
    RejectAllIgnoresOrder(a, b);
  }

  /** A placement is indeterminate exactly when some pod carries an unmodelled constraint. */
  lemma IndeterminateExactly(nodes: seq<Node>, pods: seq<Pod>)
    ensures Fit(nodes, pods).Indeterminate() <==> exists i :: 0 <= i < |pods| && pods[i].unmodelled != []
  {
    var found := CollectReasons(pods);
    SortKeepsElements(found, LexLess);
    if found != [] {
      CollectedExactly(pods, found[0]);
    }
    if i :| 0 <= i < |pods| && pods[i].unmodelled != [] {
      CollectedExactly(pods, pods[i].unmodelled[0]);
      assert pods[i].unmodelled[0] in found;
    }
  }

  /** The reasons listed are those some pod carries, each once, in order. */
  lemma ReasonsExactly(nodes: seq<Node>, pods: seq<Pod>)
    ensures var reasons := Fit(nodes, pods).indeterminateReasons;
            && (forall r :: r in reasons <==> exists i :: 0 <= i < |pods| && r in pods[i].unmodelled)
            && forall i, j :: 0 <= i < j < |reasons| ==> LexLess(reasons[i], reasons[j])
  {
    var found, sorted := CollectReasons(pods), IndeterminateReasons(pods);
    assert Fit(nodes, pods).indeterminateReasons == sorted;
    forall r ensures r in found <==> exists i :: 0 <= i < |pods| && r in pods[i].unmodelled {
      CollectedExactly(pods, r);
    }
    SortKeepsElements(found, LexLess);
    LexIsStrictWeak();
    SortSorts(found, LexLess);
    hide CollectReasons, IndeterminateReasons, StrictWeak, Fit;
    DistinctByReorder(found, sorted, (s: string) => s);
    forall i, j | 0 <= i < j < |sorted| ensures LexLess(sorted[i], sorted[j]) {
      assert !LexLess(sorted[j], sorted[i]);
      LexTotal(sorted[i], sorted[j]);
    }
  }

  /** Every pod ends up exactly one of assigned or rejected, the two add up, and a
      rejection carries one vote per node and the winning reason. */
  lemma FitAccounts(nodes: seq<Node>, pods: seq<Pod>)
    requires DistinctKeys(pods)
    ensures var f := Fit(nodes, pods);
            && |f.assignments| + |f.unplaced| == |pods|
            && (forall p :: p in pods ==> (Key(p) in f.assignments <==> !RejectsKey(f, Key(p))))
            && (forall i :: 0 <= i < |f.unplaced| ==> |f.unplaced[i].votes| == |nodes|)
            && (nodes != [] ==> forall i :: 0 <= i < |f.unplaced| ==>
                                  IsDominant(f.unplaced[i].votes, f.unplaced[i].reason))
  {
    var f := Fit(nodes, pods);
    if nodes == [] {
      forall p | p in pods ensures RejectsKey(f, Key(p)) {
        var i :| 0 <= i < |pods| && pods[i] == p;
        assert f.unplaced[i].podKey == Key(p);
      }
    } else {
      var ordered, slots := SortedForPacking(pods), EmptySlots(nodes);
      SortingKeeps(pods);
      DistinctKeysReorder(pods, ordered);
      AccountsAddUp(slots, ordered);
      EveryRejectionVoted(slots, ordered);
      PackKeepsNodes(slots, ordered);
      forall p | p in pods ensures Key(p) in f.assignments <==> !RejectsKey(f, Key(p)) {
        var i :| 0 <= i < |ordered| && ordered[i] == p;
        EveryPodAccounted(slots, ordered, i);
      }
    }
  }

  ghost predicate RejectsKey(f: Placement, key: string) {
    exists i :: 0 <= i < |f.unplaced| && f.unplaced[i].podKey == key
  }
}
