/** Reclaiming node disk: choosing unreferenced images, largest first under a cap, and
    removing them against a runtime that may refuse. */
module ImageGC {
  import opened Sorting

  datatype Image = Image(id: string, tags: seq<string>, size: int)

  /** The resolved image reference and the name the pod spec used. */
  datatype Container = Container(imageRef: string, imageName: string)

  predicate Names(c: Container, s: string) {
    s != "" && (s == c.imageRef || s == c.imageName)
  }

  /** Some container refers to the image by its ID or one of its tags. */
  predicate Referenced(img: Image, containers: seq<Container>) {
    exists c | c in containers :: Names(c, img.id) || exists tag | tag in img.tags :: Names(c, tag)
  }

  function Unreferenced(images: seq<Image>, containers: seq<Container>): seq<Image> {
    if images == [] then []
    else
      var last := images[|images| - 1];
      Unreferenced(images[..|images| - 1], containers) + if Referenced(last, containers) then [] else [last]
  }

  function SumSizes(images: seq<Image>): int {
    if images == [] then 0 else images[0].size + SumSizes(images[1..])
  }

  predicate Larger(a: Image, b: Image) {
    a.size > b.size
  }

  // ----- the greedy choice -----

  lemma {:induction false} SumAppend(a: seq<Image>, x: Image)
    ensures SumSizes(a + [x]) == SumSizes(a) + x.size
  {
    if a == [] {
    } else {
      assert (a + [x])[1..] == a[1..] + [x];
      SumAppend(a[1..], x);
    }
  }

  /** Sizes add up: an image weighs its size, and two lists weigh what each does. */
  lemma {:induction false} SizesAdd(a: seq<Image>, b: seq<Image>, x: Image)
    ensures SumSizes([]) == 0 && SumSizes([x]) == x.size
    ensures SumSizes(a + b) == SumSizes(a) + SumSizes(b)
  {
    assert [x][1..] == [];
    if a == [] {
      assert a + b == b;
    } else {
      SizesAdd(a[1..], b, x);
      assert (a + b)[1..] == a[1..] + b;
    }
  }

  lemma {:induction false} SumRemove(s: seq<Image>, j: nat)
    requires j < |s|
    ensures SumSizes(s) == SumSizes(RemoveAt(s, j)) + s[j].size
  {
    if j == 0 {
      assert RemoveAt(s, 0) == s[1..];
    } else {
      SumRemove(s[1..], j - 1);
      assert RemoveAt(s, j) == [s[0]] + RemoveAt(s[1..], j - 1);
    }
  }

  lemma TailsBelow<T>(pick: multiset<T>, s: multiset<T>, p: T, h: T)
    requires pick <= s && p in pick && h in s && (p == h || h !in pick)
    ensures pick - multiset{p} <= s - multiset{h}
  {
  }

  lemma FirstIsLargest(sorted: seq<Image>, p: Image)
    requires Sorted(sorted, Larger) && p in sorted
    ensures p.size <= sorted[0].size
  {
    var k :| 0 <= k < |sorted| && sorted[k] == p;
    if k > 0 {
      assert !Larger(sorted[k], sorted[0]);
    }
  }

  /** The largest `k` of a list sorted largest first outweigh every other choice of `k`. */
  lemma {:induction false} LargestFirstIsBest(sorted: seq<Image>, pick: seq<Image>)
    requires Sorted(sorted, Larger) && multiset(pick) <= multiset(sorted)
    ensures |pick| <= |sorted|
    ensures SumSizes(pick) <= SumSizes(sorted[..|pick|])
  {
    SubMultisetSize(multiset(pick), multiset(sorted));
    if pick == [] {
    } else {
      var j := 0;
      if sorted[0] in pick {
        j :| 0 <= j < |pick| && pick[j] == sorted[0];
      }
      var rest := RemoveAt(pick, j);
      assert pick[j].size <= sorted[0].size && multiset(rest) <= multiset(sorted[1..]) by {
        assert pick[j] in multiset(pick);
        assert pick[j] in multiset(sorted);
        FirstIsLargest(sorted, pick[j]);
        RemoveAtMultiset(pick, j);
        TailMultiset(sorted);
        TailsBelow(multiset(pick), multiset(sorted), pick[j], sorted[0]);
      }
      SumRemove(pick, j);
      TailSorted(sorted, Larger);
      LargestFirstIsBest(sorted[1..], rest);
      assert sorted[..|pick|][1..] == sorted[1..][..|rest|];
    }
  }

  lemma {:induction false} SubMultisetSize<T>(a: multiset<T>, b: multiset<T>)
    requires a <= b
    ensures |a| <= |b|
  {
    assert b == a + (b - a);
  }

  // ----- the runtime -----

  /** The container runtime: the image IDs it holds, and those it refuses to remove. */
  class Runtime {
    var present: set<string>
    const refuses: set<string>

    constructor (ids: set<string>, refused: set<string>)
      ensures present == ids && refuses == refused
    {
      present, refuses := ids, refused;
    }

    method RemoveImage(id: string) returns (ok: bool)
      modifies this
      ensures ok == (id !in refuses)
      ensures present == if ok then old(present) - {id} else old(present)
    {
      ok := id !in refuses;
      if ok {
        present := present - {id};
      }
    }
  }

  datatype Options = Options(live: bool, maxRemovals: int)

  datatype GcResult = GcResult(
    skipped: bool, totalImages: nat, inUse: nat, candidates: nat, removed: nat, removalErrors: nat, reclaimed: int)

  const NOTHING_DONE := GcResult(false, 0, 0, 0, 0, 0, 0)

  function Taken(candidates: nat, maxRemovals: int): nat {
    if 0 < maxRemovals < candidates then maxRemovals else candidates
  }

  method Split(images: seq<Image>, containers: seq<Container>) returns (inUse: nat, candidates: seq<Image>)
    ensures candidates == Unreferenced(images, containers)
    ensures inUse + |candidates| == |images|
  {
    var names: set<string> := {};
    for i := 0 to |containers|
      invariant forall s :: s in names <==> exists k :: 0 <= k < i && Names(containers[k], s)
    {
      var c := containers[i];
      if c.imageRef != "" {
        names := names + {c.imageRef};
      }
      if c.imageName != "" {
        names := names + {c.imageName};
      }
    }
    inUse, candidates := 0, [];
    for i := 0 to |images|
      invariant candidates == Unreferenced(images[..i], containers)
      invariant inUse + |candidates| == i
    {
      assert images[..i + 1][..i] == images[..i];
      var used := ImageInUse(images[i], names);
      InUseIsReferenced(images[i], names, containers);
      if used {
        inUse := inUse + 1;
      } else {
        candidates := candidates + [images[i]];
      }
    }
    assert images[..|images|] == images;
  }

  method ImageInUse(img: Image, names: set<string>) returns (used: bool)
    ensures used <==> img.id in names || exists tag :: tag in img.tags && tag in names
  {
    if img.id in names {
      return true;
    }
    for i := 0 to |img.tags|
      invariant forall k :: 0 <= k < i ==> img.tags[k] !in names
    {
      if img.tags[i] in names {
        return true;
      }
    }
    return false;
  }

  lemma InUseIsReferenced(img: Image, names: set<string>, containers: seq<Container>)
    requires forall s :: s in names <==> exists k :: 0 <= k < |containers| && Names(containers[k], s)
    ensures (img.id in names || exists tag :: tag in img.tags && tag in names) <==> Referenced(img, containers)
  {
    if Referenced(img, containers) {
      var c :| c in containers && (Names(c, img.id) || exists tag | tag in img.tags :: Names(c, tag));
      var k :| 0 <= k < |containers| && containers[k] == c;
      if !Names(c, img.id) {
        var tag :| tag in img.tags && Names(c, tag);
        assert Names(containers[k], tag);
        assert tag in names;
      } else {
        assert Names(containers[k], img.id);
      }
    }
  }

  /** Largest first; which of two equal sizes comes first is left open. */
  method SortBySize(candidates: seq<Image>) returns (sorted: seq<Image>)
    ensures Sorted(sorted, Larger) && multiset(sorted) == multiset(candidates)
  {
    sorted := StableSort(candidates, Larger);
    SortSorts(candidates, Larger);
    SortKeepsElements(candidates, Larger);
  }

  /** The images whose removal the runtime accepted. */
  function Accepted(images: seq<Image>, refuses: set<string>): seq<Image> {
    if images == [] then []
    else
      var last := images[|images| - 1];
      Accepted(images[..|images| - 1], refuses) + if last.id in refuses then [] else [last]
  }

  function Ids(images: seq<Image>): set<string> {
    set img | img in images :: img.id
  }

  method RemoveAll(rt: Runtime, chosen: seq<Image>) returns (removed: nat, errors: nat, bytes: int)
    modifies rt
    ensures removed + errors == |chosen| && removed == |Accepted(chosen, rt.refuses)|
    ensures bytes == SumSizes(Accepted(chosen, rt.refuses))
    ensures rt.present == old(rt.present) - Ids(Accepted(chosen, rt.refuses))
  {
    removed, errors, bytes := 0, 0, 0;
    for i := 0 to |chosen|
      invariant removed + errors == i && removed == |Accepted(chosen[..i], rt.refuses)|
      invariant bytes == SumSizes(Accepted(chosen[..i], rt.refuses))
      invariant rt.present == old(rt.present) - Ids(Accepted(chosen[..i], rt.refuses))
    {
      assert chosen[..i + 1][..i] == chosen[..i];
      ghost var before := Accepted(chosen[..i], rt.refuses);
      var ok := rt.RemoveImage(chosen[i].id);
      if ok {
        SumAppend(before, chosen[i]);
        assert Ids(before + [chosen[i]]) == Ids(before) + {chosen[i].id};
        removed, bytes := removed + 1, bytes + chosen[i].size;
      } else {
        assert Accepted(chosen[..i + 1], rt.refuses) == before;
        errors := errors + 1;
      }
    }
    assert chosen[..|chosen|] == chosen;
  }

  /** Exactly the images the runtime does not refuse are accepted, each as often as listed. */
  lemma {:induction false} AcceptedExactly(images: seq<Image>, refuses: set<string>, img: Image)
    ensures multiset(Accepted(images, refuses))[img] == if img.id in refuses then 0 else multiset(images)[img]
  {
    if images == [] {
    } else {
      var n := |images| - 1;
      AcceptedExactly(images[..n], refuses, img);
      assert images == images[..n] + [images[n]];
      assert multiset(images) == multiset(images[..n]) + multiset{images[n]};
      var front := Accepted(images[..n], refuses);
      assert Accepted(images, refuses) == if images[n].id in refuses then front else front + [images[n]];
    }
  }

  lemma {:induction false} UnreferencedOnly(images: seq<Image>, containers: seq<Container>)
    ensures forall img :: img in Unreferenced(images, containers) ==> img in images && !Referenced(img, containers)
  {
    if images == [] {
    } else {
      UnreferencedOnly(images[..|images| - 1], containers);
      assert images == images[..|images| - 1] + [images[|images| - 1]];
    }
  }

  lemma {:induction false} AcceptedOnly(images: seq<Image>, refuses: set<string>)
    ensures forall img :: img in Accepted(images, refuses) ==> img in images && img.id !in refuses
  {
    if images == [] {
    } else {
      AcceptedOnly(images[..|images| - 1], refuses);
      assert images == images[..|images| - 1] + [images[|images| - 1]];
    }
  }

  ghost predicate DistinctIds(images: seq<Image>) {
    DistinctBy(images, (img: Image) => img.id)
  }

  /** A choice the cap admits: as many unreferenced images as the run takes. */
  ghost predicate Admissible(pick: seq<Image>, images: seq<Image>, containers: seq<Container>, maxRemovals: int) {
    var candidates := Unreferenced(images, containers);
    multiset(pick) <= multiset(candidates) && |pick| == Taken(|candidates|, maxRemovals)
  }

  lemma ChosenAdmissible(candidates: seq<Image>, sorted: seq<Image>, taken: nat)
    requires multiset(sorted) == multiset(candidates) && taken <= |sorted|
    ensures multiset(sorted[..taken]) <= multiset(candidates)
  {
    assert sorted == sorted[..taken] + sorted[taken..];
  }

  /** Selects the unreferenced images and, when live, removes them, largest first. */
  method Reclaim(rt: Runtime, images: seq<Image>, containers: seq<Container>, belowThreshold: bool, listFails: bool,
                 opts: Options) returns (result: GcResult, ghost chosen: seq<Image>)
    modifies rt
    ensures belowThreshold || listFails ==> rt.present == old(rt.present) && chosen == []
    ensures belowThreshold ==> result == NOTHING_DONE.(skipped := true)
    ensures !belowThreshold && listFails ==> result == NOTHING_DONE
    ensures !belowThreshold && !listFails ==>
              && result.totalImages == |images| && result.inUse + result.candidates == |images|
              && result.candidates == |Unreferenced(images, containers)|
              && Admissible(chosen, images, containers, opts.maxRemovals)
              && (forall pick :: Admissible(pick, images, containers, opts.maxRemovals) ==>
                    SumSizes(pick) <= SumSizes(chosen))
    ensures !belowThreshold && !listFails ==>
              && (opts.maxRemovals > 0 ==> |chosen| <= opts.maxRemovals)
              && (|chosen| < result.candidates ==> opts.maxRemovals > 0 && |chosen| == opts.maxRemovals)
    ensures !belowThreshold && !listFails && !opts.live ==>
              && rt.present == old(rt.present) && result.removed == 0 && result.removalErrors == 0
              && result.reclaimed == SumSizes(chosen)
    ensures !belowThreshold && !listFails && opts.live ==>
              && result.removed + result.removalErrors == |chosen|
              && result.removed == |Accepted(chosen, rt.refuses)|
              && result.reclaimed == SumSizes(Accepted(chosen, rt.refuses))
              && rt.present == old(rt.present) - Ids(Accepted(chosen, rt.refuses))
  {
    result, chosen := NOTHING_DONE, [];
    if belowThreshold {
      return result.(skipped := true), chosen;
    }
    if listFails {
      return;
    }
    var inUse, candidates := Split(images, containers);
    result := result.(totalImages := |images|, inUse := inUse, candidates := |candidates|);
    var sorted := SortBySize(candidates);
    SameElements(sorted, candidates);
    var taken := sorted;
    if opts.maxRemovals > 0 && |sorted| > opts.maxRemovals {
      taken := sorted[..opts.maxRemovals];
    }
    assert taken == sorted[..|taken|];
    chosen := taken;
    ChosenAdmissible(candidates, sorted, |taken|);
    forall pick | Admissible(pick, images, containers, opts.maxRemovals) ensures SumSizes(pick) <= SumSizes(chosen) {
      LargestFirstIsBest(sorted, pick);
    }
    if !opts.live {
      var bytes := TotalSize(taken);
      return result.(reclaimed := bytes), chosen;
    }
    var removed, errors, bytes := RemoveAll(rt, taken);
    result := result.(removed := removed, removalErrors := errors, reclaimed := bytes);
  }

  method TotalSize(images: seq<Image>) returns (bytes: int)
    ensures bytes == SumSizes(images)
  {
    bytes := 0;
    for i := 0 to |images|
      invariant bytes == SumSizes(images[..i])
    {
      SumAppend(images[..i], images[i]);
      assert images[..i + 1] == images[..i] + [images[i]];
      bytes := bytes + images[i].size;
    }
    assert images[..|images|] == images;
  }

  /** A container uses the image: it names its ID or one of its tags, as the reference it was
      resolved to or as the name in its pod. */
  ghost predicate Uses(c: Container, img: Image) {
    || (img.id != "" && (c.imageRef == img.id || c.imageName == img.id))
    || exists i :: 0 <= i < |img.tags| && img.tags[i] != "" && (c.imageRef == img.tags[i] || c.imageName == img.tags[i])
  }

  lemma ReferencedExactly(img: Image, containers: seq<Container>)
    ensures Referenced(img, containers) <==> exists i :: 0 <= i < |containers| && Uses(containers[i], img)
  {
    forall c ensures Uses(c, img) <==> Names(c, img.id) || exists tag | tag in img.tags :: Names(c, tag) {
      if tag :| tag in img.tags && Names(c, tag) {
        var i :| 0 <= i < |img.tags| && img.tags[i] == tag;
      }
      if i :| 0 <= i < |img.tags| && Names(c, img.tags[i]) {
        assert img.tags[i] in img.tags;
      }
    }
    hide Names, Uses;
    if c :| c in containers && (Names(c, img.id) || exists tag | tag in img.tags :: Names(c, tag)) {
      var i :| 0 <= i < |containers| && containers[i] == c;
      assert Uses(containers[i], img);
    }
    if i :| 0 <= i < |containers| && Uses(containers[i], img) {
      assert containers[i] in containers;
    }
  }

  /** The candidates are the images no container uses, each as often as it is listed. */
  lemma {:induction false} UnreferencedExactly(images: seq<Image>, containers: seq<Container>, img: Image)
    ensures multiset(Unreferenced(images, containers))[img]
            == if exists i :: 0 <= i < |containers| && Uses(containers[i], img) then 0 else multiset(images)[img]
  {
    ReferencedExactly(img, containers);
    hide Referenced, Uses;
    if images == [] {
    } else {
      var n := |images| - 1;
      UnreferencedExactly(images[..n], containers, img);
      assert images == images[..n] + [images[n]];
      assert multiset(images) == multiset(images[..n]) + multiset{images[n]};
      var front := Unreferenced(images[..n], containers);
      assert Unreferenced(images, containers) == if Referenced(images[n], containers) then front else front + [images[n]];
    }
  }

  /** With distinct image IDs, whatever the runtime refuses, an image some container
      references is still present after the choice has been removed. */
  lemma ReferencedSurvives(images: seq<Image>, containers: seq<Container>, maxRemovals: int, chosen: seq<Image>,
                           refuses: set<string>, present: set<string>, img: Image)
    requires DistinctIds(images) && img in images && (exists i :: 0 <= i < |containers| && Uses(containers[i], img)) && img.id in present
    requires Admissible(chosen, images, containers, maxRemovals)
    ensures img.id in present - Ids(Accepted(chosen, refuses))
  {
    ReferencedExactly(img, containers);
    if img.id in Ids(Accepted(chosen, refuses)) {
      var other :| other in Accepted(chosen, refuses) && other.id == img.id;
      AcceptedOnly(chosen, refuses);
      UnreferencedOnly(images, containers);
      assert other in multiset(chosen);
      assert other in multiset(Unreferenced(images, containers));
      assert other in Unreferenced(images, containers);
      SameIdSameImage(images, img, other);
      assert false;
    }
  }

  lemma SameIdSameImage(images: seq<Image>, a: Image, b: Image)
    requires DistinctIds(images) && a in images && b in images && a.id == b.id
    ensures a == b
  {
    var i :| 0 <= i < |images| && images[i] == a;
    var j :| 0 <= j < |images| && images[j] == b;
    assert i < j || j < i || i == j;
  }
}
