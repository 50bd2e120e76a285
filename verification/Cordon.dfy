/** Cordon ownership: the annotations a claim writes, and the reaper that reverses
    cordons that have outlived their time to live. */
module Cordon {
  import opened Basics
  import opened Sorting

  /** Instants and durations are nanoseconds; a time stamp keeps whole seconds. */
  const SECOND := 1_000_000_000

  function Truncate(t: int): (r: int)
    ensures r <= t < r + SECOND
    ensures r % SECOND == 0
  {
    t - t % SECOND
  }

  /** An RFC 3339 annotation (section 5.6 of RFC 3339), or one that does not parse. */
  datatype Stamp = At(time: int) | Unreadable(text: string)

  function Format(t: int): Stamp {
    At(Truncate(t))
  }

  /** A node object: spec and status fields, and the tool's four annotations. */
  datatype NodeRec = NodeRec(
    pool: string, ready: bool, allocCPU: int, allocMem: int, unschedulable: bool,
    cordonedAt: Option<Stamp>, byRun: Option<string>, prior: Option<string>, reapedAt: Option<Stamp>)
  {
    predicate Schedulable() { ready && !unschedulable }
    predicate Marked() { cordonedAt.Some? }
    function RunName(): string { if byRun.Some? then byRun.value else "" }
    function PriorUnschedulable(): bool { prior == Some("true") }
  }

  /** A claim: cordon and ownership in one object. */
  function Claimed(n: NodeRec, run: string, now: int): NodeRec {
    n.(cordonedAt := Some(Format(now)), byRun := Some(run),
       prior := Some(if n.unschedulable then "true" else "false"),
       reapedAt := None, unschedulable := true)
  }

  function ReapMarked(n: NodeRec, now: int): NodeRec {
    n.(cordonedAt := None, byRun := None, prior := None, reapedAt := Some(Format(now)))
  }

  function Released(n: NodeRec, now: int): NodeRec {
    ReapMarked(n.(unschedulable := n.PriorUnschedulable()), now)
  }

  /** What the reaper does with a node as listed. */
  datatype Decision = Leave | Hold | Strip | Release

  function Decide(listed: NodeRec, run: string, ttl: int, now: int): Decision {
    if !listed.Marked() || listed.RunName() == run then Leave
    else if !listed.unschedulable then Strip
    else
      match listed.cordonedAt.value
      case At(t) => if now - t < ttl then Hold else Release
      case Unreadable(_) => Release
  }

  function AfterReap(d: Decision, current: NodeRec, now: int): NodeRec {
    match d
    case Leave => current
    case Hold => current
    case Strip => ReapMarked(current, now)
    case Release => Released(current, now)
  }

  /** Reaped so recently that draining again would restart the loop. */
  predicate InCooldown(n: NodeRec, cooldown: int, now: int) {
    cooldown > 0 && n.reapedAt.Some?
    && match n.reapedAt.value
       case At(t) => now - t < cooldown
       case Unreadable(_) => true
  }

  // ----- laws of one node -----

  /** A claim followed by a release gives back the node as it was, plus the reap stamp. */
  lemma ClaimThenRelease(n: NodeRec, run: string, t1: int, t2: int)
    requires !n.Marked() && n.byRun.None? && n.prior.None?
    ensures Released(Claimed(n, run, t1), t2) == n.(reapedAt := Some(Format(t2)))
    ensures Claimed(n, run, t1).unschedulable && Claimed(n, run, t1).Marked()
  {
  }

  /** Whatever is still marked after the reaper saw a node is this run's own claim or a
      readable cordon younger than the time to live. */
  lemma NothingStaleRemains(n: NodeRec, run: string, ttl: int, now: int)
    ensures var after := AfterReap(Decide(n, run, ttl, now), n, now);
            after.Marked() ==>
              && after == n
              && (n.RunName() == run
                  || (n.unschedulable && n.cordonedAt.value.At? && now - n.cordonedAt.value.time < ttl))
  {
  }

  /** Deciding on the listed object but writing the one read back is safe for an unmarked
      node exactly when the listing did not show an expired cordon that has since been
      stripped by someone else; with unchanged markers it always is. */
  lemma UnmarkedLeftAlone(listed: NodeRec, current: NodeRec, run: string, ttl: int, now: int)
    requires !current.Marked()
    ensures AfterReap(Decide(listed, run, ttl, now), current, now).unschedulable == current.unschedulable
            <==> Decide(listed, run, ttl, now) != Release || current.unschedulable == current.PriorUnschedulable()
    ensures listed.cordonedAt == current.cordonedAt ==>
              AfterReap(Decide(listed, run, ttl, now), current, now) == current
  {
  }

  /** The race: between List and Get an operator removes the tool's expired markers and
      keeps the cordon as their own; the reaper lifts it. */
  lemma StrippedBetweenListAndGet() returns (listed: NodeRec, current: NodeRec)
    ensures current.unschedulable && !current.Marked() && listed.Marked()
    ensures !AfterReap(Decide(listed, "this-run", 1800 * SECOND, 7200 * SECOND), current, 7200 * SECOND).unschedulable
  {
    listed := NodeRec("workers", true, 4000, 8192, true, Some(At(0)), Some("dead-run"), Some("false"), None);
    current := listed.(cordonedAt := None, byRun := None, prior := None);
  }

  // ----- the API server and the calls against it -----

  /** Which calls of a pass fail, and which nodes another client rewrites after the listing
      and before the pass reads them back. */
  datatype Faults = Faults(list: bool, get: set<string>, put: set<string>, edits: map<string, NodeRec>)

  /** The object found when a listed node is read back. */
  function Seen(name: string, listed: NodeRec, faults: Faults): NodeRec {
    if name in faults.edits then faults.edits[name] else listed
  }

  /** The node objects, in the order a List returns them. */
  class ApiServer {
    var order: seq<string>
    var nodes: map<string, NodeRec>

    ghost predicate Valid()
      reads this
    {
      Distinct(order) && forall name :: name in order <==> name in nodes
    }

    constructor (listing: seq<string>, objects: map<string, NodeRec>)
      requires Distinct(listing) && forall name :: name in listing <==> name in objects
      ensures Valid() && order == listing && nodes == objects
    {
      order, nodes := listing, objects;
    }

    method Get(name: string, fails: bool) returns (r: Option<NodeRec>)
      requires Valid()
      ensures r == if fails || name !in nodes then None else Some(nodes[name])
    {
      r := if fails || name !in nodes then None else Some(nodes[name]);
    }

    /** Replaces the whole object or nothing. */
    method Update(name: string, obj: NodeRec, fails: bool) returns (ok: bool)
      requires Valid() && name in nodes
      modifies `nodes
      ensures Valid() && ok == !fails
      ensures nodes == if fails then old(nodes) else old(nodes)[name := obj]
    {
      ok := !fails;
      if ok {
        nodes := nodes[name := obj];
      }
    }

    /** Another client's write, if it makes one before the read. */
    method Interfere(name: string, faults: Faults)
      requires Valid()
      modifies `nodes
      ensures Valid()
      ensures nodes == if name in old(nodes) then old(nodes)[name := Seen(name, old(nodes)[name], faults)] else old(nodes)
    {
      if name in nodes && name in faults.edits {
        nodes := nodes[name := faults.edits[name]];
      }
    }

    /** Cordons a node and stamps ownership in one update. */
    method ClaimCordon(name: string, node: NodeRec, run: string, now: int, fails: bool) returns (ok: bool)
      requires Valid() && name in nodes
      modifies `nodes
      ensures Valid() && ok == !fails
      ensures nodes == if fails then old(nodes) else old(nodes)[name := Claimed(node, run, now)]
    {
      var obj := node;
      obj := obj.(cordonedAt := Some(Format(now)));
      obj := obj.(byRun := Some(run));
      obj := obj.(prior := Some(if obj.unschedulable then "true" else "false"));
      obj := obj.(reapedAt := None);
      obj := obj.(unschedulable := true);
      ok := Update(name, obj, fails);
    }

    /** Restores the pre-claim schedulability on a fresh copy of the node. */
    method ReleaseCordon(name: string, now: int, faults: Faults) returns (ok: bool)
      requires Valid()
      modifies `nodes
      ensures Valid() && (ok <==> name in old(nodes) && name !in faults.get && name !in faults.put)
      ensures name !in old(nodes) ==> nodes == old(nodes)
      ensures name in old(nodes) ==>
                var seen := Seen(name, old(nodes)[name], faults);
                nodes == old(nodes)[name := if ok then Released(seen, now) else seen]
    {
      Interfere(name, faults);
      var node := Get(name, name in faults.get);
      if node.None? {
        return false;
      }
      var obj := node.value.(unschedulable := node.value.PriorUnschedulable());
      ok := Update(name, ReapMarked(obj, now), name in faults.put);
    }

    /** Clears the markers of a node an operator has already uncordoned. */
    method StripMarkers(name: string, now: int, faults: Faults) returns (ok: bool)
      requires Valid()
      modifies `nodes
      ensures Valid() && (ok <==> name in old(nodes) && name !in faults.get && name !in faults.put)
      ensures name !in old(nodes) ==> nodes == old(nodes)
      ensures name in old(nodes) ==>
                var seen := Seen(name, old(nodes)[name], faults);
                nodes == old(nodes)[name := if ok then ReapMarked(seen, now) else seen]
    {
      Interfere(name, faults);
      var node := Get(name, name in faults.get);
      if node.None? {
        return false;
      }
      ok := Update(name, ReapMarked(node.value, now), name in faults.put);
    }

    /** One pass of the stale-cordon reaper over the listed nodes. */
    method ReapStaleCordons(live: bool, run: string, ttl: int, now: int, faults: Faults) returns (result: ReapResult)
      requires Valid()
      modifies `nodes
      ensures Valid()
      ensures nodes == ReapAll(old(nodes), live, run, ttl, now, faults)
      ensures ttl <= 0 || faults.list || !live ==> nodes == old(nodes)
      ensures result.listFailed <==> ttl > 0 && faults.list
      ensures ttl <= 0 ==> result == NO_REAP
      ensures ttl > 0 && faults.list ==> result == NO_REAP.(listFailed := true)
      ensures ttl > 0 && !faults.list ==>
                result == Summary(order, old(nodes), live, run, ttl, now, faults)
    {
      if ttl <= 0 {
        return NO_REAP;
      }
      if faults.list {
        return NO_REAP.(listFailed := true);
      }
      ghost var listed := nodes;
      result := ReapListed(live, run, ttl, now, faults);
      ReapSomeIsAll(listed, order, live, run, ttl, now, faults);
      result := ReapResult(StableSort(result.uncordoned, LexLess), StableSort(result.cleared, LexLess),
                           StableSort(result.held, LexLess), StableSort(result.errors, LexLess), false);
    }

    /** Walks the listed copies in order, writing to the live objects. */
    method ReapListed(live: bool, run: string, ttl: int, now: int, faults: Faults) returns (result: ReapResult)
      requires Valid() && ttl > 0 && !faults.list
      modifies `nodes
      ensures Valid()
      ensures nodes == ReapSome(old(nodes), order, live, run, ttl, now, faults)
      ensures result == Collected(order, old(nodes), live, run, ttl, now, faults)
    {
      var listed := nodes;
      result := NO_REAP;
      for i := 0 to |order|
        invariant Valid()
        invariant nodes == ReapSome(listed, order[..i], live, run, ttl, now, faults)
        invariant result == Collected(order[..i], listed, live, run, ttl, now, faults)
      {
        var name := order[i];
        ReapSomeStep(listed, order, i, live, run, ttl, now, faults);
        hide OutcomeOf, ReapSome, ReapedNode, Record;
        assert name in order;
        assert order[..i + 1][..i] == order[..i];
        result := ReapOne(name, listed[name], live, run, ttl, now, faults, result);
      }
      assert order[..|order|] == order;
    }

    method ReapOne(name: string, node: NodeRec, live: bool, run: string, ttl: int, now: int, faults: Faults,
                   soFar: ReapResult) returns (result: ReapResult)
      requires Valid() && name in nodes && nodes[name] == node && ttl > 0 && !faults.list
      modifies `nodes
      ensures Valid()
      ensures nodes == old(nodes)[name := ReapedNode(name, node, live, run, ttl, now, faults)]
      ensures result == Record(soFar, name, OutcomeOf(name, node, live, run, ttl, now, faults))
    {
      if !node.Marked() || node.RunName() == run {
        return soFar;
      }
      if !node.unschedulable {
        var ok := true;
        if live {
          ok := StripMarkers(name, now, faults);
        }
        return Record(soFar, name, if ok then WasCleared else WasFailed);
      }
      if node.cordonedAt.value.At? && now - node.cordonedAt.value.time < ttl {
        return Record(soFar, name, WasHeld);
      }
      var ok := true;
      if live {
        ok := ReleaseCordon(name, now, faults);
      }
      return Record(soFar, name, if ok then WasUncordoned else WasFailed);
    }
  }

  // ----- what a reap pass amounts to -----

  datatype ReapResult = ReapResult(
    uncordoned: seq<string>, cleared: seq<string>, held: seq<string>, errors: seq<string>, listFailed: bool)

  const NO_REAP := ReapResult([], [], [], [], false)

  datatype NodeOutcome = WasSkipped | WasUncordoned | WasCleared | WasHeld | WasFailed

  predicate WriteFails(name: string, faults: Faults) {
    name in faults.get || name in faults.put
  }

  function OutcomeOf(name: string, n: NodeRec, live: bool, run: string, ttl: int, now: int, faults: Faults): NodeOutcome {
    match Decide(n, run, ttl, now)
    case Leave => WasSkipped
    case Hold => WasHeld
    case Strip => if live && WriteFails(name, faults) then WasFailed else WasCleared
    case Release => if live && WriteFails(name, faults) then WasFailed else WasUncordoned
  }

  function ReapedNode(name: string, n: NodeRec, live: bool, run: string, ttl: int, now: int, faults: Faults): NodeRec {
    var d := Decide(n, run, ttl, now);
    if !live || d.Leave? || d.Hold? then n
    else
      var seen := Seen(name, n, faults);
      if WriteFails(name, faults) then seen else AfterReap(d, seen, now)
  }

  /** Every node is handled on its own; a dry run, a disabled or failed pass changes none. */
  function ReapAll(nodes: map<string, NodeRec>, live: bool, run: string, ttl: int, now: int, faults: Faults)
    : (r: map<string, NodeRec>)
    ensures r.Keys == nodes.Keys
  {
    if ttl <= 0 || faults.list then nodes
    else map name | name in nodes :: ReapedNode(name, nodes[name], live, run, ttl, now, faults)
  }

  function ReapSome(nodes: map<string, NodeRec>, names: seq<string>, live: bool, run: string, ttl: int, now: int, faults: Faults)
    : (r: map<string, NodeRec>)
    ensures r.Keys == nodes.Keys
  {
    map name | name in nodes ::
      if name in names then ReapedNode(name, nodes[name], live, run, ttl, now, faults) else nodes[name]
  }

  lemma ReapSomeStep(nodes: map<string, NodeRec>, names: seq<string>, i: nat,
                     live: bool, run: string, ttl: int, now: int, faults: Faults)
    requires i < |names| && Distinct(names) && names[i] in nodes
    ensures ReapSome(nodes, names[..i], live, run, ttl, now, faults)[names[i]] == nodes[names[i]]
    ensures ReapSome(nodes, names[..i + 1], live, run, ttl, now, faults)
            == ReapSome(nodes, names[..i], live, run, ttl, now, faults)[
                 names[i] := ReapedNode(names[i], nodes[names[i]], live, run, ttl, now, faults)]
  {
    hide ReapedNode;
    assert names[..i + 1] == names[..i] + [names[i]];
  }

  lemma ReapSomeIsAll(nodes: map<string, NodeRec>, names: seq<string>, live: bool, run: string, ttl: int, now: int, faults: Faults)
    requires ttl > 0 && !faults.list && forall name :: name in nodes ==> name in names
    ensures ReapSome(nodes, names, live, run, ttl, now, faults) == ReapAll(nodes, live, run, ttl, now, faults)
  {
  }

  function Record(r: ReapResult, name: string, o: NodeOutcome): ReapResult {
    match o
    case WasSkipped => r
    case WasUncordoned => r.(uncordoned := r.uncordoned + [name])
    case WasCleared => r.(cleared := r.cleared + [name])
    case WasHeld => r.(held := r.held + [name])
    case WasFailed => r.(errors := r.errors + [name])
  }

  function Collected(names: seq<string>, nodes: map<string, NodeRec>, live: bool, run: string, ttl: int, now: int, faults: Faults)
    : ReapResult
    requires forall name :: name in names ==> name in nodes
  {
    if names == [] then NO_REAP
    else
      var last := names[|names| - 1];
      Record(Collected(names[..|names| - 1], nodes, live, run, ttl, now, faults), last,
             OutcomeOf(last, nodes[last], live, run, ttl, now, faults))
  }

  function Summary(names: seq<string>, nodes: map<string, NodeRec>, live: bool, run: string, ttl: int, now: int, faults: Faults)
    : ReapResult
    requires forall name :: name in names ==> name in nodes
  {
    var r := Collected(names, nodes, live, run, ttl, now, faults);
    ReapResult(StableSort(r.uncordoned, LexLess), StableSort(r.cleared, LexLess),
               StableSort(r.held, LexLess), StableSort(r.errors, LexLess), false)
  }

  function Bucket(r: ReapResult, o: NodeOutcome): seq<string> {
    match o
    case WasSkipped => []
    case WasUncordoned => r.uncordoned
    case WasCleared => r.cleared
    case WasHeld => r.held
    case WasFailed => r.errors
  }

  /** The node carries a marker of another run. */
  ghost predicate Foreign(n: NodeRec, run: string) {
    n.cordonedAt.Some? && (if n.byRun.Some? then n.byRun.value else "") != run
  }

  /** Its cordon can be read and is younger than the time to live. */
  ghost predicate Young(n: NodeRec, ttl: int, now: int) {
    n.cordonedAt.Some? && n.cordonedAt.value.At? && now < n.cordonedAt.value.time + ttl
  }

  /** Under what a node is reported: nothing unless another run marked it; then whether an
      operator has lifted the cordon, whether it is young, and whether the writes succeed. */
  lemma OutcomeExactly(name: string, n: NodeRec, live: bool, run: string, ttl: int, now: int, faults: Faults)
    ensures var fails := live && (name in faults.get || name in faults.put);
            OutcomeOf(name, n, live, run, ttl, now, faults)
            == if !Foreign(n, run) then WasSkipped
               else if n.unschedulable && Young(n, ttl, now) then WasHeld
               else if fails then WasFailed
               else if n.unschedulable then WasUncordoned else WasCleared
  {
  }

  /** What became of a reported node, in its own fields: held and skipped nodes are as they
      were; an uncordoned one has the schedulability recorded by the claim; and one that was
      uncordoned or cleared has no marker left and the reap's stamp, cut to the second. */
  lemma ReapedExactly(name: string, n: NodeRec, run: string, ttl: int, now: int, faults: Faults)
    ensures var after, o := ReapedNode(name, n, true, run, ttl, now, faults), OutcomeOf(name, n, true, run, ttl, now, faults);
            var seen := if name in faults.edits then faults.edits[name] else n;
            match o
            case WasSkipped => after == n
            case WasHeld => after == n
            case WasFailed => after == seen
            case WasCleared => Unmarked(after, seen, now) && after.unschedulable == seen.unschedulable
            case WasUncordoned => Unmarked(after, seen, now) && (after.unschedulable <==> seen.prior == Some("true"))
    ensures ReapedNode(name, n, false, run, ttl, now, faults) == n
  {
  }

  /** No marker is left, the reap is stamped, and nothing but the cordon may have changed. */
  ghost predicate Unmarked(after: NodeRec, seen: NodeRec, now: int) {
    && after.cordonedAt == None && after.byRun == None && after.prior == None
    && after.reapedAt == Some(At(now - now % 1_000_000_000))
    && after.pool == seen.pool && after.ready == seen.ready && after.allocCPU == seen.allocCPU && after.allocMem == seen.allocMem
  }

  /** What a claim leaves: the cordon, the run, the schedulability it found, the stamp cut to
      the second, and nothing of an earlier reap. */
  lemma ClaimedExactly(n: NodeRec, run: string, now: int)
    ensures var c := Claimed(n, run, now);
            && c.unschedulable && c.cordonedAt == Some(At(now - now % 1_000_000_000)) && c.byRun == Some(run)
            && c.prior == Some(if n.unschedulable then "true" else "false") && c.reapedAt == None
            && c.pool == n.pool && c.ready == n.ready && c.allocCPU == n.allocCPU && c.allocMem == n.allocMem
  {
  }

  /** A listed node is reported exactly under what happened to it. */
  lemma {:induction false} ReportedExactly(
    names: seq<string>, nodes: map<string, NodeRec>, live: bool, run: string, ttl: int, now: int, faults: Faults,
    name: string, o: NodeOutcome)
    requires o != WasSkipped && forall n :: n in names ==> n in nodes
    ensures name in Bucket(Summary(names, nodes, live, run, ttl, now, faults), o)
            <==> name in names && OutcomeOf(name, nodes[name], live, run, ttl, now, faults) == o
  {
    var r := Collected(names, nodes, live, run, ttl, now, faults);
    CollectedExactly(names, nodes, live, run, ttl, now, faults, name, o);
    SortKeepsElements(Bucket(r, o), LexLess);
  }

  lemma {:induction false} CollectedExactly(
    names: seq<string>, nodes: map<string, NodeRec>, live: bool, run: string, ttl: int, now: int, faults: Faults,
    name: string, o: NodeOutcome)
    requires o != WasSkipped && forall n :: n in names ==> n in nodes
    ensures name in Bucket(Collected(names, nodes, live, run, ttl, now, faults), o)
            <==> name in names && OutcomeOf(name, nodes[name], live, run, ttl, now, faults) == o
  {
    if names == [] {
    } else {
      hide OutcomeOf, Bucket, Record;
      var n := |names| - 1;
      assert names == names[..n] + [names[n]];
      CollectedExactly(names[..n], nodes, live, run, ttl, now, faults, name, o);
      RecordedExactly(Collected(names[..n], nodes, live, run, ttl, now, faults), names[n],
                      OutcomeOf(names[n], nodes[names[n]], live, run, ttl, now, faults), name, o);
    }
  }

  lemma RecordedExactly(r: ReapResult, last: string, outcome: NodeOutcome, name: string, o: NodeOutcome)
    requires o != WasSkipped
    ensures name in Bucket(Record(r, last, outcome), o) <==> name in Bucket(r, o) || (name == last && outcome == o)
  {
  }

  /** After an error-free live pass with a positive time to live, no other run's expired or
      unreadable cordon is left, and nodes without markers are exactly as before. */
  lemma ErrorFreePassLeavesNothingStale(nodes: map<string, NodeRec>, run: string, ttl: int, now: int, faults: Faults, name: string)
    requires ttl > 0 && !faults.list && name in nodes && !WriteFails(name, faults)
    ensures var after := ReapAll(nodes, true, run, ttl, now, faults)[name];
            && (after.Marked() ==>
                  || after.RunName() == run
                  || (after.unschedulable && after.cordonedAt.value.At? && now - after.cordonedAt.value.time < ttl))
            && (!nodes[name].Marked() ==> after == nodes[name])
  {
    NothingStaleRemains(nodes[name], run, ttl, now);
  }

  /** A whole pass over a node whose markers are gone by the time it is read back: it keeps
      its schedulability exactly when the listing did not call for a release, or the release
      restores that very value. */
  lemma RaceExactly(nodes: map<string, NodeRec>, run: string, ttl: int, now: int, faults: Faults, name: string)
    requires ttl > 0 && !faults.list && name in nodes && !WriteFails(name, faults)
    requires name in faults.edits && !faults.edits[name].Marked()
    ensures var d, seen := Decide(nodes[name], run, ttl, now), faults.edits[name];
            var after := ReapAll(nodes, true, run, ttl, now, faults)[name];
            (d.Strip? || d.Release?) ==>
              (after.unschedulable == seen.unschedulable <==> d.Strip? || seen.unschedulable == seen.PriorUnschedulable())
  {
    UnmarkedLeftAlone(nodes[name], faults.edits[name], run, ttl, now);
  }
}
