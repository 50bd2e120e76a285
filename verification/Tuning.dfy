/** The request-tuning loops: when the analyzer reports a request, what target the reports
    lead to, and how repeated capped trims approach their target. */
module Tuning {
  import opened Basics

  // ----- firing conditions -----

  datatype Rule = MemoryBelowUsage | MemoryOverProvisioned | CPUOverProvisioned

  /** Whether a rule fires on one replica's observed usage and request. */
  predicate Fires(rule: Rule, usage: int, request: int) {
    match rule
    case MemoryBelowUsage => request > 0 && usage > GoDiv(request * 12, 10) && usage - request > 64
    case MemoryOverProvisioned => request > 0 && usage < GoDiv(request, 2) && request - usage > 128
    case CPUOverProvisioned => usage > 0 && request > 0 && usage < GoDiv(request, 5) && request - usage > 100
  }

  datatype Workload = Workload(
    namespace: string, kind: string, name: string, replicas: int, containers: seq<string>,
    reqCPU: int, reqMem: int, usageCPU: Option<int>, usageMem: Option<int>)

  /** The figures a finding's evidence carries, per replica. */
  datatype Finding = Finding(rule: Rule, namespace: string, workload: string, observed: int, request: int, confidence: string)

  function Named(w: Workload): string {
    w.kind + "/" + w.name
  }

  function FindingsOf(w: Workload): seq<Finding> {
    if w.replicas < 1 then []
    else
      (if w.usageMem.None? then []
       else
         var u, r := GoDiv(w.usageMem.value, w.replicas), GoDiv(w.reqMem, w.replicas);
         (if Fires(MemoryBelowUsage, u, r) then [Finding(MemoryBelowUsage, w.namespace, Named(w), u, r, "medium")] else [])
         + (if Fires(MemoryOverProvisioned, u, r)
            then [Finding(MemoryOverProvisioned, w.namespace, Named(w), u, r, "low")] else []))
      + (if w.usageCPU.None? then []
         else
           var u, r := GoDiv(w.usageCPU.value, w.replicas), GoDiv(w.reqCPU, w.replicas);
           if Fires(CPUOverProvisioned, u, r) then [Finding(CPUOverProvisioned, w.namespace, Named(w), u, r, "low")] else [])
  }

  function AllFindings(ws: seq<Workload>): seq<Finding> {
    if ws == [] then [] else AllFindings(ws[..|ws| - 1]) + FindingsOf(ws[|ws| - 1])
  }

  /** Walks the workloads appending a finding for every rule that fires. */
  method AnalyzeUsage(ws: seq<Workload>) returns (findings: seq<Finding>)
    ensures findings == AllFindings(ws)
  {
    findings := [];
    for i := 0 to |ws|
      invariant findings == AllFindings(ws[..i])
    {
      var w := ws[i];
      assert ws[..i + 1][..i] == ws[..i];
      ghost var before := findings;
      if w.replicas < 1 {
        continue;
      }
      if w.usageMem.Some? {
        var u, r := GoDiv(w.usageMem.value, w.replicas), GoDiv(w.reqMem, w.replicas);
        if Fires(MemoryBelowUsage, u, r) {
          findings := findings + [Finding(MemoryBelowUsage, w.namespace, Named(w), u, r, "medium")];
        }
        if Fires(MemoryOverProvisioned, u, r) {
          findings := findings + [Finding(MemoryOverProvisioned, w.namespace, Named(w), u, r, "low")];
        }
      }
      if w.usageCPU.Some? {
        var u, r := GoDiv(w.usageCPU.value, w.replicas), GoDiv(w.reqCPU, w.replicas);
        if Fires(CPUOverProvisioned, u, r) {
          findings := findings + [Finding(CPUOverProvisioned, w.namespace, Named(w), u, r, "low")];
        }
      }
      assert findings == before + FindingsOf(w);
    }
    assert ws[..|ws|] == ws;
  }

  /** When a rule fires, free of rounding: usage above six fifths of the request and more than
      64 MiB over it; at most half of it less a unit and more than 128 MiB under; or, of CPU,
      some usage, at most a fifth less a unit and more than 100 millicores under. */
  lemma FiresExactly(rule: Rule, u: int, r: int)
    ensures Fires(rule, u, r)
            <==> (r > 0 && match rule
                           case MemoryBelowUsage => 5 * u > 6 * r && u > r + 64
                           case MemoryOverProvisioned => 2 * (u + 1) <= r && u + 128 < r
                           case CPUOverProvisioned => u > 0 && 5 * (u + 1) <= r && u + 100 < r)
  {
  }

  /** A workload's findings: for each resource with a known usage, one for every rule that
      fires on the figures per replica, with the analyzer's confidence. */
  lemma FindingsExactly(w: Workload, f: Finding)
    ensures f in FindingsOf(w)
            <==> (w.replicas >= 1 && f.namespace == w.namespace && f.workload == w.kind + "/" + w.name
                  && (if f.rule.CPUOverProvisioned?
                      then w.usageCPU.Some? && f.observed == GoDiv(w.usageCPU.value, w.replicas) && f.request == GoDiv(w.reqCPU, w.replicas)
                      else w.usageMem.Some? && f.observed == GoDiv(w.usageMem.value, w.replicas) && f.request == GoDiv(w.reqMem, w.replicas))
                  && Fires(f.rule, f.observed, f.request)
                  && f.confidence == if f.rule.MemoryBelowUsage? then "medium" else "low")
  {
    hide Fires, GoDiv;
  }

  lemma {:induction false} AllFindingsExactly(ws: seq<Workload>, f: Finding)
    ensures f in AllFindings(ws) <==> exists i :: 0 <= i < |ws| && f in FindingsOf(ws[i])
  {
    hide FindingsOf;
    if ws == [] {
    } else {
      var n := |ws| - 1;
      AllFindingsExactly(ws[..n], f);
      assert forall i :: 0 <= i < n ==> ws[..n][i] == ws[i];
    }
  }

  // ----- the target a report leads to -----

  function RoundUp(value: nat, step: nat): (r: nat)
    ensures value <= r
    ensures step > 0 ==> r < value + step && r % step == 0
  {
    if step == 0 || value % step == 0 then value
    else
      NextMultiple(value, step);
      value + step - value % step
  }

  lemma NextMultiple(value: nat, step: nat)
    requires step > 0
    ensures (value + step - value % step) % step == 0
    ensures value % step < step
  {
    var q, r := value / step, value % step;
    assert value == q * step + r;
    assert value + step - r == (q + 1) * step;
    MultipleDivides(q + 1, step);
  }

  lemma {:induction false} MulMonotone(a: nat, b: nat, d: nat)
    requires a <= b
    ensures a * d <= b * d
  {
    if a >= b {
    } else {
      MulMonotone(a, b - 1, d);
      assert b * d == (b - 1) * d + d;
    }
  }

  lemma DivideProduct(t: nat, d: nat)
    requires d >= 1
    ensures t * d >= 0 && t * d / d == t
  {
    MulMonotone(0, t, d);
    var product := t * d;
    var q := product / d;
    assert product == q * d + product % d;
    assert (q + 1) * d == q * d + d && (t + 1) * d == product + d;
    if q < t {
      MulMonotone(q + 1, t, d);
    } else if q > t {
      MulMonotone(t + 1, q, d);
    }
  }

  lemma MultipleDivides(q: nat, d: nat)
    requires d > 0
    ensures q * d % d == 0
  {
    DivideProduct(q, d);
    assert q * d == (q * d / d) * d + q * d % d;
  }

  /** The request derived from a finding's figures (millicores or MiB). */
  function Target(rule: Rule, observed: nat, current: nat): nat {
    match rule
    case CPUOverProvisioned => RoundUp(Max(Min(Max(50, observed * 3), current * 70 / 100), 25), 5)
    case MemoryOverProvisioned => RoundUp(Min(Max(128, observed * 3 / 2), current * 80 / 100), 16)
    case MemoryBelowUsage => RoundUp(observed * 5 / 4, 16)
  }

  /** The target of a rule that fires is the least multiple of its step at or above the figure
      wanted: thrice the usage, but 50 at least; half as much again, but 128 at least and no
      more than four fifths of the request; a quarter more. */
  lemma TargetExactly(rule: Rule, u: nat, r: nat)
    requires Fires(rule, u, r)
    ensures var t, half := Target(rule, u, r), if u < 86 then 128 else 3 * u / 2;
            match rule
            case CPUOverProvisioned => t % 5 == 0 && var wanted := if u < 17 then 50 else 3 * u; wanted <= t < wanted + 5
            case MemoryOverProvisioned => t % 16 == 0 && var wanted := if 4 * r / 5 < half then 4 * r / 5 else half; wanted <= t < wanted + 16
            case MemoryBelowUsage => t % 16 == 0 && 5 * u / 4 <= t < 5 * u / 4 + 16
  {
  }

  lemma MemoryTrimQuiet(u: nat, r: nat)
    requires Fires(MemoryOverProvisioned, u, r)
    ensures var t := Target(MemoryOverProvisioned, u, r);
            u < t < r && !Fires(MemoryOverProvisioned, u, t) && !Fires(MemoryBelowUsage, u, t)
  {
  }

  lemma MemoryRaiseQuiet(u: nat, r: nat)
    requires Fires(MemoryBelowUsage, u, r)
    ensures var t := Target(MemoryBelowUsage, u, r);
            t >= u && t > r && !Fires(MemoryOverProvisioned, u, t) && !Fires(MemoryBelowUsage, u, t)
  {
  }

  lemma CPUTrimQuiet(u: nat, r: nat)
    requires Fires(CPUOverProvisioned, u, r)
    ensures var t := Target(CPUOverProvisioned, u, r);
            u < t < r && !Fires(CPUOverProvisioned, u, t)
  {
  }

  predicate SameResource(a: Rule, b: Rule) {
    a.CPUOverProvisioned? == b.CPUOverProvisioned?
  }

  /** The workload with one resource's request set to `t` on every replica. */
  function WithRequest(w: Workload, rule: Rule, t: int): Workload {
    if rule.CPUOverProvisioned? then w.(reqCPU := t * w.replicas) else w.(reqMem := t * w.replicas)
  }

  lemma PerReplicaExact(t: nat, replicas: int)
    requires replicas >= 1
    ensures GoDiv(t * replicas, replicas) == t
  {
    assert t * replicas / replicas == t by {
      DivideProduct(t, replicas);
    }
  }

  /** One-step quiescence in a pod of one container: applying the target of a finding leaves
      no rule of that resource firing at the same usage, so a recommendation neither recurs
      nor flips over. */
  lemma OneStepQuiet(w: Workload, f: Finding)
    ensures f in FindingsOf(w) && f.observed >= 0 ==> f.request > 0 && Silenced(w, f, 0)
  {
    if f in FindingsOf(w) && f.observed >= 0 {
      PerReplicaExact(Target(f.rule, f.observed, f.request), w.replicas);
      match f.rule {
        case MemoryBelowUsage => MemoryRaiseQuiet(f.observed, f.request);
        case MemoryOverProvisioned => MemoryTrimQuiet(f.observed, f.request);
        case CPUOverProvisioned => CPUTrimQuiet(f.observed, f.request);
      }
    }
  }

  /** The workload once the finding's target is written to one container of each replica,
      whose other containers request `rest`. */
  function Advised(w: Workload, f: Finding, rest: nat): Workload
    requires f.observed >= 0 && f.request >= 0
  {
    WithRequest(w, f.rule, Target(f.rule, f.observed, f.request) + rest)
  }

  /** With the finding's target applied, no rule on the same resource fires. */
  ghost predicate Silenced(w: Workload, f: Finding, rest: nat)
    requires f.observed >= 0 && f.request >= 0
  {
    forall g :: g in FindingsOf(Advised(w, f, rest)) ==> !SameResource(g.rule, f.rule)
  }

  // ----- the planner's capped trim -----

  /** The numbers of a policy that bound one trim. */
  datatype Trim = Trim(headroomNum: int, headroomDen: int, floor: int, maxNum: int, maxDen: int)
  {
    predicate Positive() { headroomNum > 0 && headroomDen > 0 && floor > 0 && maxNum > 0 && maxDen > 0 }
  }

  function ProposeRequest(usage: int, current: int, p: Trim): int
    requires p.headroomDen != 0 && p.maxDen != 0
  {
    if usage < 0 || current <= 0 then 0
    else
      var wanted := Max(GoDiv(usage * p.headroomNum, p.headroomDen), p.floor);
      if wanted >= current then 0
      else
        var minAllowed := current - GoDiv(current * p.maxNum, p.maxDen);
        var target := Max(Max(wanted, minAllowed), p.floor);
        if target >= current then 0 else target
  }

  /** Usage plus headroom, never below the floor. */
  function TrimTarget(usage: int, p: Trim): int
    requires p.headroomDen != 0
  {
    Max(GoDiv(usage * p.headroomNum, p.headroomDen), p.floor)
  }

  lemma ProductPositive(a: int, b: int)
    requires a >= 0 && b >= 0
    ensures a * b >= 0
  {
  }

  /** A proposal stays between the target and the current request and cuts no more than the
      policy's share; there is none exactly when the target is already met or the share
      of the current request rounds down to nothing. */
  lemma ProposalBounds(usage: int, current: int, p: Trim)
    requires p.Positive()
    ensures var r := ProposeRequest(usage, current, p);
            && (r != 0 ==> TrimTarget(usage, p) <= r < current && p.floor <= r
                           && current - r <= GoDiv(current * p.maxNum, p.maxDen))
            && (r == 0 <==> usage < 0 || current <= 0 || TrimTarget(usage, p) >= current
                            || GoDiv(current * p.maxNum, p.maxDen) == 0)
  {
    if usage >= 0 && current > 0 {
      ProductPositive(current, p.maxNum);
      assert current * p.maxNum / p.maxDen >= 0;
    }
  }

  /** The request after one planner pass at constant usage. */
  function NextRequest(usage: int, current: int, p: Trim): int
    requires p.headroomDen != 0 && p.maxDen != 0
  {
    var r := ProposeRequest(usage, current, p);
    if r == 0 then current else r
  }

  function Iterate(usage: int, current: int, p: Trim, passes: nat): int
    requires p.headroomDen != 0 && p.maxDen != 0
  {
    if passes == 0 then current else NextRequest(usage, Iterate(usage, current, p, passes - 1), p)
  }

  function Pow2(k: nat): (r: nat)
    ensures r > 0
  {
    if k == 0 then 1 else 2 * Pow2(k - 1)
  }

  function CeilDiv(c: nat, d: nat): (q: nat)
    requires d > 0
  {
    (c + d - 1) / d
  }

  /** The least `q` with `c <= q * d`. */
  lemma CeilDivExact(c: nat, d: nat, q: nat)
    requires d > 0
    ensures CeilDiv(c, d) <= q <==> c <= q * d
  {
    var e := (c + d - 1) / d;
    assert c + d - 1 == e * d + (c + d - 1) % d;
    if e <= q {
      MulMonotone(e, q, d);
    } else {
      MulMonotone(q + 1, e, d);
      assert (q + 1) * d == q * d + d;
    }
  }

  /** Halving twice is quartering, rounding up at each step included. */
  lemma CeilHalves(c: nat, d: nat)
    requires d > 0
    ensures CeilDiv(CeilDiv(c, d), 2) == CeilDiv(c, 2 * d)
  {
    var e, h, g := CeilDiv(c, d), CeilDiv(CeilDiv(c, d), 2), CeilDiv(c, 2 * d);
    CeilDivExact(e, 2, h);
    CeilDivExact(c, d, 2 * h);
    assert 2 * h * d == h * (2 * d);
    CeilDivExact(c, 2 * d, h);
    CeilDivExact(c, 2 * d, g);
    assert g * (2 * d) == 2 * g * d;
    CeilDivExact(c, d, 2 * g);
    CeilDivExact(e, 2, g);
  }

  function HalfCap(floor: int): Trim {
    Trim(3, 2, floor, 1, 2)
  }

  lemma HalfStep(usage: int, c: int, floor: int)
    requires usage >= 0 && floor > 0 && c >= TrimTarget(usage, HalfCap(floor))
    ensures NextRequest(usage, c, HalfCap(floor)) == Max(TrimTarget(usage, HalfCap(floor)), CeilDiv(c, 2))
  {
  }

  lemma CeilDivOne(c: nat)
    ensures CeilDiv(c, 1) == c
  {
  }

  /** Under the default cap of one half, `k` passes bring a request `c` above its target to
      exactly the larger of the target and c / 2^k rounded up. */
  lemma {:induction false} TrimConverges(usage: int, c: int, floor: int, k: nat)
    requires usage >= 0 && floor > 0 && c > TrimTarget(usage, HalfCap(floor))
    ensures Iterate(usage, c, HalfCap(floor), k) == Max(TrimTarget(usage, HalfCap(floor)), CeilDiv(c, Pow2(k)))
  {
    if k == 0 {
      CeilDivOne(c);
    } else {
      var t, prev := TrimTarget(usage, HalfCap(floor)), CeilDiv(c, Pow2(k - 1));
      TrimConverges(usage, c, floor, k - 1);
      HalfStep(usage, Max(t, prev), floor);
      CeilHalves(c, Pow2(k - 1));
    }
  }

  /** It has arrived after `k` passes exactly when the target times 2^k covers the start. */
  lemma TrimArrives(usage: int, c: int, floor: int, k: nat)
    requires usage >= 0 && floor > 0 && c > TrimTarget(usage, HalfCap(floor))
    ensures Iterate(usage, c, HalfCap(floor), k) == TrimTarget(usage, HalfCap(floor))
            <==> c <= TrimTarget(usage, HalfCap(floor)) * Pow2(k)
  {
    TrimConverges(usage, c, floor, k);
    CeilDivExact(c, Pow2(k), TrimTarget(usage, HalfCap(floor)));
  }

  /** For any positive policy a request above its target only falls, never past the target;
      it stops above the target exactly when the permitted share rounds down to nothing. */
  lemma {:induction false} TrimStaysAbove(usage: int, c: int, p: Trim, k: nat)
    requires p.Positive() && usage >= 0 && c >= TrimTarget(usage, p)
    ensures TrimTarget(usage, p) <= Iterate(usage, c, p, k) <= c
    ensures Iterate(usage, c, p, k + 1) == Iterate(usage, c, p, k)
            <==> Iterate(usage, c, p, k) == TrimTarget(usage, p)
                 || GoDiv(Iterate(usage, c, p, k) * p.maxNum, p.maxDen) == 0
  {
    if k == 0 {
    } else {
      TrimStaysAbove(usage, c, p, k - 1);
      ProposalBounds(usage, Iterate(usage, c, p, k - 1), p);
    }
    ProposalBounds(usage, Iterate(usage, c, p, k), p);
  }

  lemma {:induction false} TrimFalls(usage: int, c: int, p: Trim, k: nat)
    requires p.Positive() && usage >= 0 && c >= TrimTarget(usage, p)
    requires forall i :: 0 <= i < k ==> Iterate(usage, c, p, i + 1) != Iterate(usage, c, p, i)
    ensures Iterate(usage, c, p, k) <= c - k
  {
    if k == 0 {
    } else {
      TrimFalls(usage, c, p, k - 1);
      ProposalBounds(usage, Iterate(usage, c, p, k - 1), p);
      assert Iterate(usage, c, p, (k - 1) + 1) != Iterate(usage, c, p, k - 1);
    }
  }

  /** Every policy's trims come to rest within as many passes as the request has units. */
  lemma TrimSettles(usage: int, c: int, p: Trim)
    requires p.Positive() && usage >= 0 && c >= TrimTarget(usage, p)
    ensures exists k :: 0 <= k <= c && Iterate(usage, c, p, k + 1) == Iterate(usage, c, p, k)
  {
    TrimStaysAbove(usage, c, p, c + 1);
    if forall k :: 0 <= k <= c ==> Iterate(usage, c, p, k + 1) != Iterate(usage, c, p, k) {
      TrimFalls(usage, c, p, c + 1);
      assert false;
    }
  }

  /** The two loops agree: at no pass does the trimmed memory request fall below usage, and
      where the default trims stop the analyzer has nothing left to report. */
  lemma TrimAgreesWithAnalyzer(usage: nat, c: int, k: nat)
    requires c > TrimTarget(usage, HalfCap(32))
    ensures !Fires(MemoryBelowUsage, usage, Iterate(usage, c, HalfCap(32), k))
    ensures c <= TrimTarget(usage, HalfCap(32)) * Pow2(k) ==>
              !Fires(MemoryOverProvisioned, usage, Iterate(usage, c, HalfCap(32), k))
  {
    TrimStaysAbove(usage, c, HalfCap(32), k);
    TrimArrives(usage, c, 32, k);
  }

  /** The same for CPU with its floor of ten millicores. */
  lemma CPUTrimAgreesWithAnalyzer(usage: nat, c: int, k: nat)
    requires c > TrimTarget(usage, HalfCap(10)) && c <= TrimTarget(usage, HalfCap(10)) * Pow2(k)
    ensures !Fires(CPUOverProvisioned, usage, Iterate(usage, c, HalfCap(10), k))
  {
    TrimArrives(usage, c, 10, k);
  }
}
