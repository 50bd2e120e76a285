/** The library sorts the program calls, as a stable sort specified by its comparison. */
module Sorting {
  import opened Basics

  /** A comparison a sort may be called with: a strict weak order. */
  ghost predicate StrictWeak<T(!new)>(less: (T, T) -> bool) {
    && (forall x :: !less(x, x))
    && (forall x, y, z :: less(x, y) && less(y, z) ==> less(x, z))
    && (forall x, y, z :: !less(x, y) && !less(y, z) ==> !less(x, z))
  }

  /** No later element comes strictly before an earlier one. */
  ghost predicate Sorted<T>(s: seq<T>, less: (T, T) -> bool) {
    forall i, j :: 0 <= i < j < |s| ==> !less(s[j], s[i])
  }

  /** Puts `x` before the first element that is not strictly smaller than it. */
  function Insert<T>(x: T, s: seq<T>, less: (T, T) -> bool): seq<T> {
    if s == [] then [x]
    else if less(s[0], x) then [s[0]] + Insert(x, s[1..], less)
    else [x] + s
  }

  /** The stable sort of `s`: equal elements keep their order. */
  function StableSort<T>(s: seq<T>, less: (T, T) -> bool): seq<T> {
    if s == [] then [] else Insert(s[0], StableSort(s[1..], less), less)
  }

  lemma {:induction false} InsertKeepsElements<T>(x: T, s: seq<T>, less: (T, T) -> bool)
    ensures multiset(Insert(x, s, less)) == multiset{x} + multiset(s)
  {
    if s == [] {
    } else {
      assert s == [s[0]] + s[1..];
      if less(s[0], x) {
        InsertKeepsElements(x, s[1..], less);
      }
    }
  }

  lemma {:induction false} SortKeepsElements<T>(s: seq<T>, less: (T, T) -> bool)
    ensures multiset(StableSort(s, less)) == multiset(s)
    ensures |StableSort(s, less)| == |s|
    ensures forall x :: x in StableSort(s, less) <==> x in s
  {
    if s == [] {
    } else {
      assert s == [s[0]] + s[1..];
      SortKeepsElements(s[1..], less);
      InsertKeepsElements(s[0], StableSort(s[1..], less), less);
    }
    SameElements(StableSort(s, less), s);
  }

  lemma SameElements<T>(a: seq<T>, b: seq<T>)
    requires multiset(a) == multiset(b)
    ensures |a| == |b|
    ensures forall x :: x in a <==> x in b
  {
    assert |multiset(a)| == |multiset(b)|;
    forall x ensures x in a <==> x in b {
      assert x in a <==> x in multiset(a);
      assert x in b <==> x in multiset(b);
    }
  }

  lemma {:induction false} InsertSorted<T(!new)>(x: T, s: seq<T>, less: (T, T) -> bool)
    requires StrictWeak(less) && Sorted(s, less)
    ensures Sorted(Insert(x, s, less), less)
  {
    if s != [] && less(s[0], x) {
      var rest := Insert(x, s[1..], less);
      InsertSorted(x, s[1..], less);
      InsertKeepsElements(x, s[1..], less);
      SameElements(rest, [x] + s[1..]);
      forall k | 0 <= k < |rest| ensures !less(rest[k], s[0]) {
        assert rest[k] in [x] + s[1..];
      }
    }
  }

  /** The result is sorted for every strict weak order. */
  lemma {:induction false} SortSorts<T(!new)>(s: seq<T>, less: (T, T) -> bool)
    requires StrictWeak(less)
    ensures Sorted(StableSort(s, less), less)
  {
    if s == [] {
    } else {
      SortSorts(s[1..], less);
      InsertSorted(s[0], StableSort(s[1..], less), less);
    }
  }

  /** Whether the order tells any two different elements of `s` apart. */
  ghost predicate Separates<T>(less: (T, T) -> bool, s: seq<T>) {
    forall i, j :: 0 <= i < |s| && 0 <= j < |s| && s[i] != s[j] ==> less(s[i], s[j]) || less(s[j], s[i])
  }

  lemma SameHead<T>(a: seq<T>, b: seq<T>, less: (T, T) -> bool)
    requires a != [] && b != [] && multiset(a) == multiset(b)
    requires Sorted(a, less) && Sorted(b, less) && Separates(less, a)
    ensures a[0] == b[0]
  {
    SameElements(a, b);
    assert a[0] in a && b[0] in b;
    assert b[0] in a && a[0] in b;
    var i :| 0 <= i < |a| && a[i] == b[0];
    var j :| 0 <= j < |b| && b[j] == a[0];
    assert a[0] == b[0] || i > 0;
    assert a[0] == b[0] || j > 0;
  }

  lemma TailMultiset<T>(s: seq<T>)
    requires s != []
    ensures multiset(s[1..]) == multiset(s) - multiset{s[0]}
  {
    assert s == [s[0]] + s[1..];
  }

  lemma TailSorted<T>(s: seq<T>, less: (T, T) -> bool)
    requires s != [] && Sorted(s, less)
    ensures Sorted(s[1..], less)
  {
  }

  lemma TailSeparates<T>(s: seq<T>, less: (T, T) -> bool)
    requires s != [] && Separates(less, s)
    ensures Separates(less, s[1..])
  {
  }

  /** When the order separates the elements present, a multiset has one sorted list. */
  lemma {:induction false} SortedUnique<T>(a: seq<T>, b: seq<T>, less: (T, T) -> bool)
    requires multiset(a) == multiset(b)
    requires Sorted(a, less) && Sorted(b, less) && Separates(less, a)
    ensures a == b
  {
    assert |a| == |b| by {
      SameElements(a, b);
    }
    if a == [] {
    } else {
      assert a[0] == b[0] && a[1..] == b[1..] by {
        SameHead(a, b, less);
        TailMultiset(a);
        TailMultiset(b);
        TailSorted(a, less);
        TailSorted(b, less);
        TailSeparates(a, less);
        SortedUnique(a[1..], b[1..], less);
      }
      assert a == [a[0]] + a[1..] && b == [b[0]] + b[1..];
    }
  }

  lemma LexIsStrictWeak()
    ensures StrictWeak(LexLess)
  {
    forall x ensures !LexLess(x, x) {
      LexIrreflexive(x);
    }
    forall x, y, z | LexLess(x, y) && LexLess(y, z) ensures LexLess(x, z) {
      LexTransitive(x, y, z);
    }
    forall x, y, z | !LexLess(x, y) && !LexLess(y, z) ensures !LexLess(x, z) {
      LexNegTransitive(x, y, z);
    }
  }

  lemma LexNegTransitive(x: string, y: string, z: string)
    requires !LexLess(x, y) && !LexLess(y, z)
    ensures !LexLess(x, z)
  {
    LexTotal(x, y);
    LexTotal(y, z);
    if LexLess(x, z) {
      if x != y {
        LexTransitive(y, x, z);
      }
    }
  }

  /** Two duplicate-free lists of the same strings sort to the same list. */
  lemma SortedNamesUnique(a: seq<string>, b: seq<string>)
    requires Distinct(a) && Distinct(b)
    requires forall x :: x in a <==> x in b
    ensures StableSort(a, LexLess) == StableSort(b, LexLess)
  {
    var sa, sb := StableSort(a, LexLess), StableSort(b, LexLess);
    LexIsStrictWeak();
    SortSorts(a, LexLess);
    SortSorts(b, LexLess);
    SortKeepsElements(a, LexLess);
    SortKeepsElements(b, LexLess);
    DistinctMultiset(a, b);
    forall i, j | 0 <= i < |sa| && 0 <= j < |sa| && sa[i] != sa[j]
      ensures LexLess(sa[i], sa[j]) || LexLess(sa[j], sa[i])
    {
      LexTotal(sa[i], sa[j]);
    }
    SortedUnique(sa, sb, LexLess);
  }

  /** No two positions of `s` carry the same key. */
  ghost predicate DistinctBy<T>(s: seq<T>, key: T -> string) {
    forall i, j :: 0 <= i < j < |s| ==> key(s[i]) != key(s[j])
  }

  lemma RepeatsCounted<T>(s: seq<T>, i: nat, j: nat)
    requires i < j < |s| && s[i] == s[j]
    ensures multiset(s)[s[i]] >= 2
  {
    assert s == s[..i] + ([s[i]] + s[i + 1..]);
    assert s[j] == s[i + 1..][j - i - 1];
    assert s[i] in s[i + 1..];
  }

  /** Reordering keeps keys distinct. */
  lemma DistinctByReorder<T>(a: seq<T>, b: seq<T>, key: T -> string)
    requires DistinctBy(a, key) && multiset(a) == multiset(b)
    ensures DistinctBy(b, key)
  {
    assert Distinct(a);
    forall i, j | 0 <= i < j < |b| ensures key(b[i]) != key(b[j]) {
      SameElements(a, b);
      assert b[i] in b && b[j] in b;
      if b[i] == b[j] {
        RepeatsCounted(b, i, j);
        DistinctCount(a, b[i]);
        assert false;
      }
      var k :| 0 <= k < |a| && a[k] == b[i];
      var l :| 0 <= l < |a| && a[l] == b[j];
      assert k < l || l < k;
    }
  }

  lemma {:induction false} DistinctCount<T>(a: seq<T>, x: T)
    requires Distinct(a)
    ensures multiset(a)[x] == if x in a then 1 else 0
  {
    if a == [] {
    } else {
      assert a == [a[0]] + a[1..];
      DistinctCount(a[1..], x);
      if x == a[0] {
        assert x !in a[1..];
      }
    }
  }

  lemma DistinctMultiset<T>(a: seq<T>, b: seq<T>)
    requires Distinct(a) && Distinct(b)
    requires forall x :: x in a <==> x in b
    ensures multiset(a) == multiset(b)
  {
    forall x ensures multiset(a)[x] == multiset(b)[x] {
      DistinctCount(a, x);
      DistinctCount(b, x);
    }
  }

  function RemoveAt<T>(s: seq<T>, i: nat): seq<T>
    requires i < |s|
  {
    s[..i] + s[i + 1..]
  }

  lemma RemoveAtMultiset<T>(s: seq<T>, i: nat)
    requires i < |s|
    ensures multiset(RemoveAt(s, i)) == multiset(s) - multiset{s[i]}
  {
    assert s == s[..i] + ([s[i]] + s[i + 1..]);
  }

  lemma RemoveAtIndex<T>(s: seq<T>, i: nat, j: nat)
    requires i < |s| && j < |s| && i != j
    ensures |RemoveAt(s, i)| == |s| - 1
    ensures RemoveAt(s, i)[if j < i then j else j - 1] == s[j]
  {
  }

  lemma {:induction false} SubsetSize<T>(a: set<T>, b: set<T>)
    requires a <= b
    ensures |a| <= |b|
  {
    if a == {} {
    } else {
      var x :| x in a;
      SubsetSize(a - {x}, b - {x});
    }
  }
}
