/** Pods of several containers. The reports and the planner read the request of the whole
    pod and change that of one container: when this settles, and where. */
module Sidecars {
  import opened Basics
  import opened Tuning

  // ----- one report applied -----

  /** The report at usage `u` is applied to a container requesting `own` beside others that
      request `rest`, and no rule on the resource fires any more. */
  ghost predicate Quiet(rule: Rule, u: nat, own: nat, rest: nat) {
    Fires(rule, u, own + rest) ==> QuietAt(rule, u, Target(rule, u, own + rest) + rest)
  }

  predicate QuietAt(rule: Rule, u: int, request: int) {
    if rule.CPUOverProvisioned? then !Fires(CPUOverProvisioned, u, request)
    else !Fires(MemoryOverProvisioned, u, request) && !Fires(MemoryBelowUsage, u, request)
  }

  /** The pods in which a trim of the container is quiet whatever the usage. */
  predicate CalmTrim(rule: Rule, own: nat, rest: nat)
    requires !rule.MemoryBelowUsage?
  {
    if rule.CPUOverProvisioned? then rest <= 49 || own + rest <= (if rest <= 51 then 124 else 101)
    else rest == 0 || own + rest <= (if rest <= 16 then 141 else 128)
  }

  lemma TrimQuietExactly(rule: Rule, own: nat, rest: nat)
    requires !rule.MemoryBelowUsage?
    ensures (forall u: nat :: Quiet(rule, u, own, rest)) <==> CalmTrim(rule, own, rest)
  {
    if CalmTrim(rule, own, rest) {
      forall u: nat ensures Quiet(rule, u, own, rest) {
        CalmTrimIsQuiet(rule, u, own, rest);
      }
    } else if rule.CPUOverProvisioned? {
      assert !Quiet(rule, if rest <= 51 then 24 else 1, own, rest);
    } else {
      assert !Quiet(rule, 0, own, rest);
    }
  }

  lemma CalmTrimIsQuiet(rule: Rule, u: nat, own: nat, rest: nat)
    requires !rule.MemoryBelowUsage? && CalmTrim(rule, own, rest)
    ensures Quiet(rule, u, own, rest)
  {
  }

  /** The requests of the other containers beside which a rule's report, applied, is always
      quiet. */
  predicate CalmBeside(rule: Rule, rest: nat) {
    match rule
    case MemoryOverProvisioned => rest == 0
    case CPUOverProvisioned => rest <= 49
    case MemoryBelowUsage => rest <= 151 || 157 <= rest <= 161
  }

  /** A usage and a request of the container at which the report is not quiet. */
  function Noise(rule: Rule, rest: nat): (nat, nat) {
    match rule
    case MemoryOverProvisioned => (0, 160)
    case CPUOverProvisioned => if rest <= 51 then (24, 125) else (1, 102)
    case MemoryBelowUsage => (RaiseNoise(rest), 0)
  }

  /** Mostly the least usage above such a request; rounding to 16 asks for a little more. */
  function RaiseNoise(rest: nat): nat {
    if rest <= 153 then 219
    else if 162 <= rest <= 166 then 232
    else if 173 <= rest <= 178 then 244
    else if 189 <= rest <= 191 then 257
    else Max(rest + 65, rest * 12 / 10 + 1)
  }

  lemma NoiseIsLoud(rule: Rule, rest: nat)
    requires !CalmBeside(rule, rest)
    ensures Fires(rule, Noise(rule, rest).0, Noise(rule, rest).1 + rest)
    ensures !Quiet(rule, Noise(rule, rest).0, Noise(rule, rest).1, rest)
  {
    if rule.MemoryBelowUsage? {
      RaiseNoiseFires(rest);
      RaiseNoiseOvershoots(rest);
      hide RaiseNoise;
    }
  }

  lemma RaiseNoiseFires(rest: nat)
    requires rest >= 152 && !(157 <= rest <= 161)
    ensures Fires(MemoryBelowUsage, RaiseNoise(rest), rest)
  {
  }

  lemma RaiseNoiseOvershoots(rest: nat)
    requires rest >= 152 && !(157 <= rest <= 161)
    ensures var u := RaiseNoise(rest);
            Fires(MemoryOverProvisioned, u, Target(MemoryBelowUsage, u, rest) + rest)
  {
    var u := RaiseNoise(rest);
    if rest >= 224 {
      assert RoundUp(u * 5 / 4, 16) >= u * 5 / 4;
      assert u * 5 / 4 + rest >= 2 * u + 2 && u * 5 / 4 + rest - u > 128;
      hide RoundUp, RaiseNoise;
    }
  }

  lemma CalmIsQuiet(rule: Rule, u: nat, own: nat, rest: nat)
    requires CalmBeside(rule, rest)
    ensures Quiet(rule, u, own, rest)
  {
    if rule.MemoryBelowUsage? {
      CalmRaiseIsQuiet(u, own, rest);
    } else {
      CalmTrimIsQuiet(rule, u, own, rest);
    }
  }

  lemma CalmRaiseIsQuiet(u: nat, own: nat, rest: nat)
    requires CalmBeside(MemoryBelowUsage, rest)
    ensures Quiet(MemoryBelowUsage, u, own, rest)
  {
    if Fires(MemoryBelowUsage, u, own + rest) {
      var t := RoundUp(u * 5 / 4, 16);
      assert u >= rest + 65 && t >= u * 5 / 4;
      if u > 240 {
        assert t < u * 5 / 4 + 16;
        assert t + rest < 2 * u;
      } else {
        assert u * 5 / 4 <= 300;
        assert t <= 304;
      }
    }
  }

  /** A report applied to one container is quiet for every workload and every usage if and
      only if the other containers request little enough of the resource. */
  lemma QuietExactly(rule: Rule, rest: nat)
    ensures (forall w: Workload, f: Finding :: Reported(w, f, rule, rest) ==> Silenced(w, f, rest)) <==> CalmBeside(rule, rest)
  {
    if CalmBeside(rule, rest) {
      forall w: Workload, f: Finding | Reported(w, f, rule, rest) ensures Silenced(w, f, rest) {
        CalmIsQuiet(rule, f.observed, f.request - rest, rest);
        hide Quiet, CalmBeside;
        SilencedExactly(w, f, rest);
      }
    } else {
      var n := Noise(rule, rest);
      NoiseIsLoud(rule, rest);
      hide CalmBeside, Quiet, Noise;
      var w, f := Singleton(rule, n.0, n.1 + rest);
      SilencedExactly(w, f, rest);
    }
  }

  /** The analyzer reports `f` on a workload whose other containers request `rest`. */
  ghost predicate Reported(w: Workload, f: Finding, rule: Rule, rest: nat) {
    f in FindingsOf(w) && f.rule == rule && f.observed >= 0 && f.request >= rest
  }

  lemma SilencedExactly(w: Workload, f: Finding, rest: nat)
    requires Reported(w, f, f.rule, rest)
    ensures Silenced(w, f, rest) <==> Quiet(f.rule, f.observed, f.request - rest, rest)
  {
    hide Target, Fires, FindingsOf, GoDiv;
    ReportedFires(w, f);
    PerReplicaExact(Target(f.rule, f.observed, f.request) + rest, w.replicas);
    ReportsExactly(Advised(w, f, rest), f.rule);
  }

  lemma ReportedFires(w: Workload, f: Finding)
    requires f in FindingsOf(w)
    ensures w.replicas >= 1 && ObservedOf(w, f.rule) == Some(f.observed) && f.request == PerReplica(w, f.rule)
    ensures Fires(f.rule, f.observed, f.request)
  {
    hide Fires;
  }

  function ObservedOf(w: Workload, rule: Rule): Option<int>
    requires w.replicas >= 1
  {
    var total := if rule.CPUOverProvisioned? then w.usageCPU else w.usageMem;
    if total.None? then None else Some(GoDiv(total.value, w.replicas))
  }

  function PerReplica(w: Workload, rule: Rule): int
    requires w.replicas >= 1
  {
    GoDiv(if rule.CPUOverProvisioned? then w.reqCPU else w.reqMem, w.replicas)
  }

  /** A resource goes unreported exactly when its usage is unknown or its rules are quiet. */
  lemma ReportsExactly(w: Workload, rule: Rule)
    requires w.replicas >= 1
    ensures (forall g :: g in FindingsOf(w) ==> !SameResource(g.rule, rule))
            <==> (ObservedOf(w, rule).Some? ==> QuietAt(rule, ObservedOf(w, rule).value, PerReplica(w, rule)))
  {
    hide Fires;
    if ObservedOf(w, rule).Some? {
      var u, r := ObservedOf(w, rule).value, PerReplica(w, rule);
      var below, over := Finding(MemoryBelowUsage, w.namespace, Named(w), u, r, "medium"), Finding(MemoryOverProvisioned, w.namespace, Named(w), u, r, "low");
      var cpu := Finding(CPUOverProvisioned, w.namespace, Named(w), u, r, "low");
      if rule.CPUOverProvisioned? {
        assert Fires(CPUOverProvisioned, u, r) ==> cpu in FindingsOf(w);
      } else {
        assert Fires(MemoryBelowUsage, u, r) ==> below in FindingsOf(w);
        assert Fires(MemoryOverProvisioned, u, r) ==> over in FindingsOf(w);
      }
    }
  }

  /** A workload of one replica with the usage and request on the rule's resource. */
  lemma Singleton(rule: Rule, u: nat, request: nat) returns (w: Workload, f: Finding)
    requires Fires(rule, u, request)
    ensures f in FindingsOf(w) && f.rule == rule && f.observed == u && f.request == request
  {
    w := if rule.CPUOverProvisioned? then Workload("shop", "Deployment", "web", 1, ["app", "side"], request, 0, Some(u), None)
         else Workload("shop", "Deployment", "web", 1, ["app", "side"], 0, request, None, Some(u));
    var confidence := if rule.MemoryBelowUsage? then "medium" else "low";
    f := Finding(rule, "shop", Named(w), u, request, confidence);
  }

  /** A CPU report that is not quiet comes back unchanged for ever: the workload with the
      target applied is reported with the same target. */
  lemma CPUReportRecurs(w: Workload, f: Finding, rest: nat) returns (again: Finding)
    requires Reported(w, f, CPUOverProvisioned, rest) && !Silenced(w, f, rest)
    ensures var next := Advised(w, f, rest);
            && Reported(next, again, CPUOverProvisioned, rest)
            && Target(again.rule, again.observed, again.request) == Target(f.rule, f.observed, f.request)
            && Advised(next, again, rest) == next && !Silenced(next, again, rest)
  {
    hide Target, Fires, FindingsOf, GoDiv;
    var next := Advised(w, f, rest);
    again :| again in FindingsOf(next) && SameResource(again.rule, f.rule);
    ReportedFires(w, f);
    PerReplicaExact(Target(f.rule, f.observed, f.request) + rest, w.replicas);
    ReportedFires(next, again);
    SameTarget(f.observed, f.request, again.request);
  }

  /** While the CPU rule fires its target depends on the usage alone. */
  lemma SameTarget(u: nat, r: nat, s: nat)
    requires Fires(CPUOverProvisioned, u, r) && Fires(CPUOverProvisioned, u, s)
    ensures Target(CPUOverProvisioned, u, r) == Target(CPUOverProvisioned, u, s)
  {
  }

  /** Two containers of 1000 millicores using 100 between them: trimming one to the reported
      target of 300 leaves the pod at 1300, and the same report. */
  lemma ReportRecurs() returns (w: Workload, f: Finding)
    ensures Reported(w, f, CPUOverProvisioned, 1000) && f.request == 2000 && f.observed == 100
    ensures Target(f.rule, f.observed, f.request) == 300 && !Silenced(w, f, 1000)
  {
    w, f := Singleton(CPUOverProvisioned, 100, 2000);
    SilencedExactly(w, f, 1000);
  }

  // ----- the planner's capped trim, pass after pass -----

  /** The container's request after one planner pass that reads the whole pod's. */
  function NextOwn(usage: int, own: int, rest: nat, p: Trim): int
    requires p.headroomDen != 0 && p.maxDen != 0
  {
    var r := ProposeRequest(usage, own + rest, p);
    if r == 0 then own else r
  }

  function IterateOwn(usage: int, own: int, rest: nat, p: Trim, passes: nat): int
    requires p.headroomDen != 0 && p.maxDen != 0
  {
    if passes == 0 then own else NextOwn(usage, IterateOwn(usage, own, rest, p, passes - 1), rest, p)
  }

  /** `k` halvings of the way from `x` to `rest`, each rounded up. */
  function Toward(rest: int, x: int, k: nat): int {
    rest - (rest - x) / Pow2(k)
  }

  /** Dividing twice is dividing by the product, rounding down at each step included. */
  lemma HalveAgain(d: int, n: nat)
    requires n > 0
    ensures d / n / 2 == d / (2 * n)
  {
    var q, r := d / n, d % n;
    var h, b := q / 2, q % 2;
    assert d == q * n + r && q == 2 * h + b;
    assert q * n == h * (2 * n) + b * n;
    assert b == 0 || b == 1;
    QuotientIs(d, 2 * n, h, b * n + r);
  }

  lemma QuotientIs(d: int, n: nat, q: int, r: int)
    requires n > 0 && d == q * n + r && 0 <= r < n
    ensures d / n == q
  {
    var e := d / n;
    SameMultiple(q, e, n, r, d % n);
  }

  lemma SameMultiple(q: int, e: int, n: nat, r: int, s: int)
    requires q * n + r == e * n + s && 0 <= r < n && 0 <= s < n
    ensures q == e
  {
    assert (q - e) * n == s - r;
    if q > e {
      MulMonotone(1, q - e, n);
    } else if q < e {
      MulMonotone(1, e - q, n);
    }
  }

  lemma TowardNext(rest: int, x: int, k: nat)
    ensures Toward(rest, x, k + 1) == Halfway(rest, Toward(rest, x, k))
  {
    HalveAgain(rest - x, Pow2(k));
  }

  function Halfway(rest: int, x: int): int {
    rest - (rest - x) / 2
  }

  /** One pass takes the container halfway to the others' request, or to its target where
      that is more. */
  lemma OwnStep(usage: int, own: int, rest: nat, floor: int)
    requires usage >= 0 && floor > 0 && own >= TrimTarget(usage, HalfCap(floor))
    ensures NextOwn(usage, own, rest, HalfCap(floor)) == Max(TrimTarget(usage, HalfCap(floor)), Halfway(rest, own))
  {
  }

  /** Under the default cap of one half, `k` passes leave a container at exactly the larger
      of its target and the `k`-th halving of its distance to what the others request. */
  lemma {:induction false} OwnConverges(usage: int, own: int, rest: nat, floor: int, k: nat)
    requires usage >= 0 && floor > 0 && own >= TrimTarget(usage, HalfCap(floor))
    ensures IterateOwn(usage, own, rest, HalfCap(floor), k) == Max(TrimTarget(usage, HalfCap(floor)), Toward(rest, own, k))
  {
    var t := TrimTarget(usage, HalfCap(floor));
    if k == 0 {
    } else {
      OwnConverges(usage, own, rest, floor, k - 1);
      TowardNext(rest, own, k - 1);
      TowardStays(rest, own, k - 1, t);
      OwnStep(usage, Max(t, Toward(rest, own, k - 1)), rest, floor);
      hide Toward, TrimTarget, NextOwn;
    }
  }

  /** The way from `x` to `rest` keeps above what is below both. */
  lemma TowardStays(rest: int, x: int, k: nat, t: int)
    requires t <= x
    ensures t <= rest ==> t <= Toward(rest, x, k)
  {
    ShareShrinks(rest - x, Pow2(k));
  }

  lemma ShareShrinks(d: int, n: nat)
    requires n > 0
    ensures d / n <= Max(d, 0)
  {
    var q := d / n;
    assert d == q * n + d % n;
    if q > 0 {
      MulMonotone(1, n, q);
      assert n * q == q * n;
    }
  }

  /** Where the container comes to rest: at its target, or beside the others' request. */
  function Resting(usage: int, own: int, rest: nat, floor: int): int {
    Max(TrimTarget(usage, HalfCap(floor)), if own > rest then rest + 1 else rest)
  }

  lemma OwnSettles(usage: int, own: int, rest: nat, floor: int, k: nat)
    requires usage >= 0 && floor > 0 && own >= TrimTarget(usage, HalfCap(floor))
    requires Pow2(k) > Max(own - rest, rest - own)
    ensures IterateOwn(usage, own, rest, HalfCap(floor), k) == Resting(usage, own, rest, floor)
  {
    OwnConverges(usage, own, rest, floor, k);
    hide IterateOwn, TrimTarget;
    if own > rest {
      QuotientIs(rest - own, Pow2(k), -1, rest - own + Pow2(k));
    } else {
      QuotientIs(rest - own, Pow2(k), 0, rest - own);
    }
  }

  /** From some pass on the container's request is `v`. */
  ghost predicate SettlesAt(usage: int, own: int, rest: nat, floor: int, v: int) {
    exists n: nat :: SteadyFrom(n, usage, own, rest, floor, v)
  }

  ghost predicate SteadyFrom(n: nat, usage: int, own: int, rest: nat, floor: int, v: int) {
    forall k: nat :: k >= n ==> IterateOwn(usage, own, rest, HalfCap(floor), k) == v
  }

  lemma {:induction false} Pow2Exceeds(k: nat)
    ensures Pow2(k) > k
  {
    if k == 0 {
    } else {
      Pow2Exceeds(k - 1);
    }
  }

  lemma SettlesAtResting(usage: int, own: int, rest: nat, floor: int)
    requires usage >= 0 && floor > 0 && own >= TrimTarget(usage, HalfCap(floor))
    ensures SettlesAt(usage, own, rest, floor, Resting(usage, own, rest, floor))
  {
    var n := Max(own - rest, rest - own);
    forall k: nat | k >= n ensures IterateOwn(usage, own, rest, HalfCap(floor), k) == Resting(usage, own, rest, floor) {
      Pow2Exceeds(k);
      OwnSettles(usage, own, rest, floor, k);
    }
    assert SteadyFrom(n, usage, own, rest, floor, Resting(usage, own, rest, floor));
  }

  lemma SettlesOnce(usage: int, own: int, rest: nat, floor: int, v: int, w: int)
    requires SettlesAt(usage, own, rest, floor, v) && SettlesAt(usage, own, rest, floor, w)
    ensures v == w
  {
    var m: nat :| SteadyFrom(m, usage, own, rest, floor, v);
    var n: nat :| SteadyFrom(n, usage, own, rest, floor, w);
    var k := if m >= n then m else n;
    assert IterateOwn(usage, own, rest, HalfCap(floor), k) == v;
  }

  /** Repeated trims bring the container to its target, from every request above it, if and
      only if the other containers request less than that target. */
  lemma TargetReachedExactly(usage: int, rest: nat, floor: int)
    requires usage >= 0 && floor > 0
    ensures var t := TrimTarget(usage, HalfCap(floor));
            (forall own :: own >= t ==> SettlesAt(usage, own, rest, floor, t)) <==> rest < t
  {
    var t := TrimTarget(usage, HalfCap(floor));
    hide SettlesAt;
    if rest < t {
      forall own | own >= t ensures SettlesAt(usage, own, rest, floor, t) {
        SettlesAtResting(usage, own, rest, floor);
      }
    } else {
      SettlesAtResting(usage, rest + 1, rest, floor);
      if SettlesAt(usage, rest + 1, rest, floor, t) {
        SettlesOnce(usage, rest + 1, rest, floor, t, rest + 1);
      }
    }
  }

  /** A container that requests no less than its target, but less than the others do, is
      raised to their request by the passes that trim it. */
  lemma TrimRaises(usage: int, own: int, rest: nat, floor: int)
    requires usage >= 0 && floor > 0 && TrimTarget(usage, HalfCap(floor)) <= own < rest
    ensures SettlesAt(usage, own, rest, floor, rest)
    ensures rest - own >= 2 ==> IterateOwn(usage, own, rest, HalfCap(floor), 1) > own
  {
    SettlesAtResting(usage, own, rest, floor);
    OwnStep(usage, own, rest, floor);
    assert IterateOwn(usage, own, rest, HalfCap(floor), 0) == own;
    hide SettlesAt, NextOwn, TrimTarget;
  }

  function FloorOf(rule: Rule): int {
    if rule.CPUOverProvisioned? then 10 else 32
  }

  /** The two loops beside other containers: where the default trims come to rest, whatever
      the usage and the start, the analyzer has nothing left to trim if and only if the
      others request little enough. */
  lemma RestAgreesExactly(rule: Rule, rest: nat)
    requires !rule.MemoryBelowUsage?
    ensures (forall usage: nat, own: int :: own >= TrimTarget(usage, HalfCap(FloorOf(rule))) ==> !FiresAtRest(rule, usage, own, rest))
            <==> rest <= if rule.CPUOverProvisioned? then 50 else 63
  {
    if rule.CPUOverProvisioned? {
      if rest > 50 {
        assert FiresAtRest(rule, 1, rest + 1, rest);
      }
    } else if rest > 63 {
      assert FiresAtRest(rule, 0, rest + 1, rest);
    }
  }

  predicate FiresAtRest(rule: Rule, usage: nat, own: int, rest: nat) {
    Fires(rule, usage, Resting(usage, own, rest, FloorOf(rule)) + rest)
  }

  /** At no pass does the pod's memory request fall below its usage. */
  lemma NeverBelowUsage(usage: nat, own: int, rest: nat, k: nat)
    requires own >= TrimTarget(usage, HalfCap(32))
    ensures !Fires(MemoryBelowUsage, usage, IterateOwn(usage, own, rest, HalfCap(32), k) + rest)
  {
    OwnConverges(usage, own, rest, 32, k);
    hide IterateOwn, Toward;
  }
}
