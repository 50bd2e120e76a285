/** The cordon protocol as a transition system: passes that may stop between any two API
    writes, operators, readiness flips and the clock. */
module CordonProtocol {
  import opened Basics
  import opened Cordon

  datatype Settings = Settings(ttl: int, cooldown: int)

  /** Where a live, unhalted pass stands. */
  datatype Phase =
    | Reaping(listed: map<string, NodeRec>, todo: seq<string>)
    | Deciding
    | Chosen(target: string)

  datatype Pass = Pass(id: string, now: int, phase: Phase)

  /** One cordon the tool placed: the clock reading its pass works with, and the instant at
      which it was written. */
  datatype CordonRec = CordonRec(node: string, pool: string, time: int, written: int)

  /** `owned` and `operators` record who made each unschedulable node so; `log` lists the
      tool's cordons. None of them is visible to the protocol. */
  datatype State = State(
    nodes: map<string, NodeRec>, clock: int, pass: Option<Pass>, used: set<string>,
    owned: set<string>, operators: set<string>, log: seq<CordonRec>)

  datatype Action =
    | Tick(elapsed: nat)
    | Flip(name: string, ready: bool)
    | OperatorCordon(name: string)
    | OperatorUncordon(name: string)
    | IdlePass  // a dry-run, halted or refused pass: reads only
    | Start(id: string, listFails: bool, order: seq<string>)
    | ReapNext(fails: bool)
    | Choose(target: string, minimumSafe: int)
    | Claim(fails: bool)
    | Stop  // the pass returns or dies

  ghost predicate InPool(nodes: map<string, NodeRec>, name: string, pool: string) {
    name in nodes && nodes[name].pool == pool
  }

  /** The pool-level gates a drain candidate must clear. */
  ghost predicate PoolClear(nodes: map<string, NodeRec>, pool: string, cooldown: int, now: int) {
    && (forall n :: InPool(nodes, n, pool) ==> nodes[n].Schedulable())
    && (forall n :: InPool(nodes, n, pool) ==> !InCooldown(nodes[n], cooldown, now))
  }

  function SchedulableIn(nodes: map<string, NodeRec>, pool: string): set<string> {
    set n | n in nodes && nodes[n].pool == pool && nodes[n].Schedulable()
  }

  ghost predicate Drainable(nodes: map<string, NodeRec>, target: string, minimumSafe: int, cooldown: int, now: int) {
    && target in nodes && nodes[target].Schedulable()
    && PoolClear(nodes, nodes[target].pool, cooldown, now)
    && |SchedulableIn(nodes, nodes[target].pool)| > minimumSafe
  }

  ghost predicate Enabled(cfg: Settings, s: State, a: Action) {
    match a
    case Tick(_) => true
    case Flip(name, _) => name in s.nodes
    case OperatorCordon(name) => name in s.nodes && !s.nodes[name].Marked()
    case OperatorUncordon(name) => name in s.nodes
    case IdlePass => true
    case Start(id, _, order) =>
      s.pass.None? && id !in s.used && Distinct(order) && forall n :: n in order <==> n in s.nodes
    case ReapNext(_) => s.pass.Some? && s.pass.value.phase.Reaping? && s.pass.value.phase.todo != []
    case Choose(target, minimumSafe) =>
      && s.pass.Some?
      && (s.pass.value.phase.Deciding? || (s.pass.value.phase.Reaping? && s.pass.value.phase.todo == []))
      && Drainable(s.nodes, target, minimumSafe, cfg.cooldown, s.pass.value.now)
    case Claim(_) => s.pass.Some? && s.pass.value.phase.Chosen? && s.pass.value.phase.target in s.nodes
    case Stop => true
  }

  /** The reaper's next node: decided on the listed copy, written to the current one. */
  ghost function ReapStep(cfg: Settings, s: State, fails: bool): State
    requires s.pass.Some? && s.pass.value.phase.Reaping? && s.pass.value.phase.todo != []
  {
    var pass := s.pass.value;
    var name := pass.phase.todo[0];
    var rest := s.(pass := Some(pass.(phase := Reaping(pass.phase.listed, pass.phase.todo[1..]))));
    if fails || name !in s.nodes || name !in pass.phase.listed then rest
    else
      var d := Decide(pass.phase.listed[name], pass.id, cfg.ttl, pass.now);
      rest.(nodes := s.nodes[name := AfterReap(d, s.nodes[name], pass.now)],
            owned := if d == Release then s.owned - {name} else s.owned)
  }

  /** The claim re-reads the node; one cordoned in the meantime is not claimed. */
  ghost function ClaimStep(s: State, fails: bool): State
    requires s.pass.Some? && s.pass.value.phase.Chosen? && s.pass.value.phase.target in s.nodes
  {
    var pass := s.pass.value;
    var name := pass.phase.target;
    var n := s.nodes[name];
    if fails || n.unschedulable then s.(pass := None)
    else s.(pass := None, nodes := s.nodes[name := Claimed(n, pass.id, pass.now)],
            owned := s.owned + {name}, log := s.log + [CordonRec(name, n.pool, pass.now, s.clock)])
  }

  ghost function Step(cfg: Settings, s: State, a: Action): State {
    if !Enabled(cfg, s, a) then s
    else
      match a
      case Tick(elapsed) => s.(clock := s.clock + elapsed)
      case Flip(name, ready) => s.(nodes := s.nodes[name := s.nodes[name].(ready := ready)])
      case OperatorCordon(name) =>
        s.(nodes := s.nodes[name := s.nodes[name].(unschedulable := true)], operators := s.operators + {name})
      case OperatorUncordon(name) =>
        s.(nodes := s.nodes[name := s.nodes[name].(unschedulable := false)],
           operators := s.operators - {name}, owned := s.owned - {name})
      case IdlePass => s
      case Start(id, listFails, order) =>
        s.(used := s.used + {id},
           pass := Some(Pass(id, s.clock, if cfg.ttl <= 0 || listFails then Deciding else Reaping(s.nodes, order))))
      case ReapNext(fails) => ReapStep(cfg, s, fails)
      case Choose(target, _) => s.(pass := Some(s.pass.value.(phase := Chosen(target))))
      case Claim(fails) => ClaimStep(s, fails)
      case Stop => s.(pass := None)
  }

  /** Actions that are not enabled change nothing, so every list of actions is a run. */
  ghost function Exec(cfg: Settings, s: State, actions: seq<Action>): State {
    if actions == [] then s
    else Step(cfg, Exec(cfg, s, actions[..|actions| - 1]), actions[|actions| - 1])
  }

  ghost predicate Init(s: State) {
    && s.pass.None? && s.owned == {} && s.log == []
    && (forall n :: n in s.nodes ==>
          s.nodes[n].cordonedAt.None? && s.nodes[n].byRun.None? && s.nodes[n].prior.None? && s.nodes[n].reapedAt.None?)
    && s.operators == set n | n in s.nodes && s.nodes[n].unschedulable
  }

  // ----- ownership -----

  /** The markers are complete, and record that the node was schedulable before. */
  ghost predicate WellMarked(n: NodeRec) {
    if n.Marked() then n.byRun.Some? && n.prior == Some("false") else n.byRun.None? && n.prior.None?
  }

  ghost predicate SameMarkers(a: NodeRec, b: NodeRec) {
    a.cordonedAt == b.cordonedAt && a.byRun == b.byRun && a.prior == b.prior && a.pool == b.pool
  }

  /** A copy listed at the start of the pass still shows the node's markers, and never
      misses a cordon the node still has. */
  ghost predicate FreshEnough(listed: NodeRec, current: NodeRec) {
    SameMarkers(listed, current) && (current.Marked() && current.unschedulable ==> listed.unschedulable)
  }

  ghost predicate Attributed(s: State) {
    && (forall n :: n in s.owned ==> n in s.nodes && s.nodes[n].unschedulable && s.nodes[n].Marked())
    && (forall n :: n in s.operators ==> n in s.nodes && s.nodes[n].unschedulable && !s.nodes[n].Marked())
    && (forall n :: n in s.nodes && s.nodes[n].unschedulable ==> n in s.owned || n in s.operators)
    && (forall n :: n in s.nodes ==> WellMarked(s.nodes[n]))
  }

  ghost predicate ReaperInSync(cfg: Settings, s: State) {
    s.pass.Some? && s.pass.value.phase.Reaping? ==>
      var phase := s.pass.value.phase;
      && cfg.ttl > 0 && Distinct(phase.todo)
      && forall n :: n in phase.todo ==> n in s.nodes && n in phase.listed && FreshEnough(phase.listed[n], s.nodes[n])
  }

  ghost predicate Inv(cfg: Settings, s: State) {
    Attributed(s) && ReaperInSync(cfg, s)
  }

  lemma ReapKeepsInv(cfg: Settings, s: State, fails: bool)
    requires Inv(cfg, s) && Enabled(cfg, s, ReapNext(fails))
    ensures Inv(cfg, ReapStep(cfg, s, fails))
  {
    var pass := s.pass.value;
    var name := pass.phase.todo[0];
    assert pass.phase.todo == [name] + pass.phase.todo[1..];
    assert name in pass.phase.todo;
    assert FreshEnough(pass.phase.listed[name], s.nodes[name]) && WellMarked(s.nodes[name]);
    var next := ReapStep(cfg, s, fails);
    forall n | n in pass.phase.todo[1..] ensures next.nodes[n] == s.nodes[n] {
      assert n != name;
    }
  }

  lemma ClaimKeepsInv(cfg: Settings, s: State, fails: bool)
    requires Inv(cfg, s) && Enabled(cfg, s, Claim(fails))
    ensures Inv(cfg, ClaimStep(s, fails))
  {
  }

  lemma OperatorKeepsInv(cfg: Settings, s: State, a: Action)
    requires Inv(cfg, s) && Enabled(cfg, s, a) && (a.OperatorCordon? || a.OperatorUncordon? || a.Flip?)
    ensures Inv(cfg, Step(cfg, s, a))
  {
    hide Drainable, ReapStep, ClaimStep;
    var next := Step(cfg, s, a);
    assert Attributed(next) by {
      hide ReaperInSync, FreshEnough;
    }
    assert ReaperInSync(cfg, next) by {
      EditKeepsReaper(cfg, s, next, a.name);
    }
  }

  /** Editing an unmarked node, or making a node schedulable, leaves the listed copies fresh. */
  lemma EditKeepsReaper(cfg: Settings, s: State, next: State, name: string)
    requires ReaperInSync(cfg, s) && name in s.nodes && name in next.nodes
    requires next.pass == s.pass && next.nodes == s.nodes[name := next.nodes[name]]
    requires SameMarkers(s.nodes[name], next.nodes[name])
    requires s.nodes[name].Marked() && next.nodes[name].unschedulable ==> s.nodes[name].unschedulable
    ensures ReaperInSync(cfg, next)
  {
  }

  lemma OtherKeepsInv(cfg: Settings, s: State, a: Action)
    requires Inv(cfg, s) && Enabled(cfg, s, a)
    requires a.Tick? || a.IdlePass? || a.Start? || a.Choose? || a.Stop?
    ensures Inv(cfg, Step(cfg, s, a))
  {
    hide Drainable, ReapStep, ClaimStep;
  }

  lemma StepKeepsInv(cfg: Settings, s: State, a: Action)
    requires Inv(cfg, s)
    ensures Inv(cfg, Step(cfg, s, a))
  {
    hide Inv;
    if Enabled(cfg, s, a) {
      if a.ReapNext? {
        ReapKeepsInv(cfg, s, a.fails);
      } else if a.Claim? {
        ClaimKeepsInv(cfg, s, a.fails);
      } else if a.OperatorCordon? || a.OperatorUncordon? || a.Flip? {
        OperatorKeepsInv(cfg, s, a);
      } else {
        OtherKeepsInv(cfg, s, a);
      }
    }
  }

  /** At every state of every run, including every point at which a pass may die: a node
      the tool made unschedulable carries its complete marker, every other unschedulable
      node is an operator's and carries none, and no node is unschedulable unattributed. */
  lemma {:induction false} AlwaysAttributed(cfg: Settings, s: State, actions: seq<Action>)
    requires Init(s)
    ensures Inv(cfg, Exec(cfg, s, actions))
  {
    if actions == [] {
    } else {
      AlwaysAttributed(cfg, s, actions[..|actions| - 1]);
      StepKeepsInv(cfg, Exec(cfg, s, actions[..|actions| - 1]), actions[|actions| - 1]);
    }
  }

  /** No step of the tool makes an operator-cordoned node schedulable. */
  lemma OperatorCordonsStand(cfg: Settings, s: State, actions: seq<Action>, a: Action, n: string)
    requires Init(s) && n in Exec(cfg, s, actions).operators
    requires a != OperatorUncordon(n)
    ensures var next := Step(cfg, Exec(cfg, s, actions), a);
            n in next.nodes && next.nodes[n].unschedulable && !next.nodes[n].Marked()
  {
    AlwaysAttributed(cfg, s, actions);
    StepKeepsInv(cfg, Exec(cfg, s, actions), a);
  }

  // ----- the rate bound -----

  /** The earliest instant at which a cordon stamped at `t` and written at `w` may be reaped:
      it has been written, and its stamp has outlived the time to live. */
  function ReapableFrom(cfg: Settings, t: int, w: int): int {
    Max(w, Truncate(t) + cfg.ttl)
  }

  /** The earliest instant at which its pool may be cordoned again: the reap has happened,
      and the reap's stamp has outlived the cooldown. */
  function NextCordon(cfg: Settings, t: int, w: int): int {
    Max(ReapableFrom(cfg, t, w), Truncate(ReapableFrom(cfg, t, w)) + cfg.cooldown)
  }

  ghost predicate LastInPool(log: seq<CordonRec>, j: int) {
    0 <= j < |log| && forall k :: j < k < |log| ==> log[k].pool != log[j].pool
  }

  ghost predicate Standing(s: State, c: CordonRec) {
    c.node in s.nodes && s.nodes[c.node].unschedulable && s.nodes[c.node].cordonedAt == Some(Format(c.time))
  }

  ghost predicate Returned(cfg: Settings, s: State, c: CordonRec) {
    && c.node in s.nodes && !s.nodes[c.node].Marked() && cfg.ttl > 0
    && Reached(s, ReapableFrom(cfg, c.time, c.written))
    && s.nodes[c.node].reapedAt.Some? && s.nodes[c.node].reapedAt.value.At?
    && s.nodes[c.node].reapedAt.value.time >= Truncate(ReapableFrom(cfg, c.time, c.written))
  }

  /** The clock, and the pass that is running, have got to an instant. */
  ghost predicate Reached(s: State, t: int) {
    s.clock >= t && (s.pass.Some? ==> s.pass.value.now >= t)
  }

  /** A pool's latest cordon either still stands or was reaped, with the stamp to show it. */
  ghost predicate LatestAccounted(cfg: Settings, s: State) {
    forall j :: LastInPool(s.log, j) ==> AccountedFor(cfg, s, s.log[j])
  }

  ghost predicate AccountedFor(cfg: Settings, s: State, c: CordonRec) {
    InPool(s.nodes, c.node, c.pool) && (Standing(s, c) || Returned(cfg, s, c))
  }

  ghost predicate Spaced(cfg: Settings, log: seq<CordonRec>) {
    forall i, j :: 0 <= i < j < |log| && log[i].pool == log[j].pool ==>
      cfg.ttl > 0 && log[j].time >= NextCordon(cfg, log[i].time, log[i].written)
  }

  ghost predicate NotAfter(s: State, t: int) {
    && (forall j :: 0 <= j < |s.log| ==> s.log[j].time <= s.log[j].written <= t)
    && (forall n :: n in s.nodes && s.nodes[n].reapedAt.Some? && s.nodes[n].reapedAt.value.At? ==>
          s.nodes[n].reapedAt.value.time <= t)
  }

  ghost predicate Timely(s: State) {
    NotAfter(s, s.clock) && (s.pass.Some? ==> NotAfter(s, s.pass.value.now) && s.pass.value.now <= s.clock)
  }

  /** A chosen target's pool has waited long enough. */
  ghost predicate TargetWaited(cfg: Settings, s: State) {
    s.pass.Some? && s.pass.value.phase.Chosen? && s.pass.value.phase.target in s.nodes ==>
      forall j :: 0 <= j < |s.log| && s.log[j].pool == s.nodes[s.pass.value.phase.target].pool ==>
        cfg.ttl > 0 && s.pass.value.now >= NextCordon(cfg, s.log[j].time, s.log[j].written)
  }

  ghost predicate RateInv(cfg: Settings, s: State) {
    && Inv(cfg, s) && LatestAccounted(cfg, s) && Spaced(cfg, s.log) && Timely(s) && TargetWaited(cfg, s)
  }

  lemma {:induction false} LatestOf(log: seq<CordonRec>, i: nat) returns (j: nat)
    requires i < |log|
    ensures i <= j && LastInPool(log, j) && log[j].pool == log[i].pool
    decreases |log| - i
  {
    if k :| i < k < |log| && log[k].pool == log[i].pool {
      j := LatestOf(log, k);
    } else {
      j := i;
    }
  }

  lemma TruncateMonotone(a: int, b: int)
    requires a <= b
    ensures Truncate(a) <= Truncate(b)
  {
  }

  /** The reaper returns a standing cordon only once its stamp is old enough. */
  lemma ReapAccounts(cfg: Settings, s: State, fails: bool, c: CordonRec)
    requires Inv(cfg, s) && Enabled(cfg, s, ReapNext(fails)) && AccountedFor(cfg, s, c)
    requires c.time <= c.written <= s.pass.value.now <= s.clock
    ensures AccountedFor(cfg, ReapStep(cfg, s, fails), c)
  {
    var pass := s.pass.value;
    var name := pass.phase.todo[0];
    assert name in pass.phase.todo;
    assert WellMarked(s.nodes[name]);
    hide Attributed;
    if c.node == name && Standing(s, c) {
      if pass.now - Truncate(c.time) >= cfg.ttl {
        TruncateMonotone(ReapableFrom(cfg, c.time, c.written), pass.now);
      }
    }
  }

  lemma ReapKeepsRate(cfg: Settings, s: State, fails: bool)
    requires RateInv(cfg, s) && Enabled(cfg, s, ReapNext(fails))
    ensures RateInv(cfg, ReapStep(cfg, s, fails))
  {
    hide AccountedFor, Inv;
    ReapKeepsInv(cfg, s, fails);
    forall j | LastInPool(s.log, j) ensures AccountedFor(cfg, ReapStep(cfg, s, fails), s.log[j]) {
      ReapAccounts(cfg, s, fails, s.log[j]);
    }
  }

  lemma ChooseKeepsRate(cfg: Settings, s: State, a: Action)
    requires RateInv(cfg, s) && a.Choose? && Enabled(cfg, s, a)
    ensures RateInv(cfg, Step(cfg, s, a))
  {
    StepKeepsInv(cfg, s, a);
    var pool, now := s.nodes[a.target].pool, s.pass.value.now;
    forall i | 0 <= i < |s.log| && s.log[i].pool == pool
      ensures cfg.ttl > 0 && now >= NextCordon(cfg, s.log[i].time, s.log[i].written)
    {
      var j := LatestOf(s.log, i);
      var x := s.log[j].node;
      assert AccountedFor(cfg, s, s.log[j]);
      assert InPool(s.nodes, x, pool);
      assert Returned(cfg, s, s.log[j]);
      assert now >= NextCordon(cfg, s.log[j].time, s.log[j].written);
      if i < j {
        assert s.log[j].time >= NextCordon(cfg, s.log[i].time, s.log[i].written);
        assert now >= s.log[j].written;
      }
    }
  }

  lemma ClaimAccounts(cfg: Settings, s: State, c: CordonRec)
    requires Enabled(cfg, s, Claim(false)) && AccountedFor(cfg, s, c)
    requires c.pool != s.nodes[s.pass.value.phase.target].pool
    ensures AccountedFor(cfg, ClaimStep(s, false), c)
  {
  }

  lemma ClaimKeepsLatest(cfg: Settings, s: State)
    requires LatestAccounted(cfg, s) && Enabled(cfg, s, Claim(false))
    requires !s.nodes[s.pass.value.phase.target].unschedulable
    ensures LatestAccounted(cfg, ClaimStep(s, false))
  {
    var next, last := ClaimStep(s, false), |s.log|;
    var name := s.pass.value.phase.target;
    assert next.log[last] == CordonRec(name, s.nodes[name].pool, s.pass.value.now, s.clock);
    forall j | LastInPool(next.log, j) ensures AccountedFor(cfg, next, next.log[j]) {
      if j < last {
        assert next.log[j].pool != next.log[last].pool;
        forall k | j < k < |s.log| ensures s.log[k].pool != s.log[j].pool {
          assert next.log[k] == s.log[k];
        }
        assert LastInPool(s.log, j);
        ClaimAccounts(cfg, s, s.log[j]);
      }
    }
  }

  lemma ClaimKeepsRate(cfg: Settings, s: State, fails: bool)
    requires RateInv(cfg, s) && Enabled(cfg, s, Claim(fails))
    ensures RateInv(cfg, ClaimStep(s, fails))
  {
    hide Inv, LastInPool;
    StepKeepsInv(cfg, s, Claim(fails));
    if !fails && !s.nodes[s.pass.value.phase.target].unschedulable {
      hide AccountedFor;
      ClaimKeepsLatest(cfg, s);
      assert LatestAccounted(cfg, ClaimStep(s, fails));
    }
  }

  ghost predicate Background(a: Action) {
    a.Tick? || a.Flip? || a.OperatorCordon? || a.Start? || a.Stop?
  }

  lemma BackgroundAccounts(cfg: Settings, s: State, a: Action, c: CordonRec)
    requires AccountedFor(cfg, s, c) && Enabled(cfg, s, a) && Background(a)
    ensures AccountedFor(cfg, Step(cfg, s, a), c)
  {
  }

  lemma BackgroundTimely(cfg: Settings, s: State, a: Action)
    requires Timely(s) && TargetWaited(cfg, s) && Enabled(cfg, s, a) && Background(a)
    ensures Timely(Step(cfg, s, a)) && TargetWaited(cfg, Step(cfg, s, a))
    ensures Step(cfg, s, a).log == s.log
  {
  }

  lemma BackgroundKeepsRate(cfg: Settings, s: State, a: Action)
    requires RateInv(cfg, s) && Enabled(cfg, s, a) && Background(a)
    ensures RateInv(cfg, Step(cfg, s, a))
  {
    hide AccountedFor, Inv, Timely, TargetWaited;
    StepKeepsInv(cfg, s, a);
    BackgroundTimely(cfg, s, a);
    hide Step, Enabled;
    forall j | LastInPool(s.log, j) ensures AccountedFor(cfg, Step(cfg, s, a), s.log[j]) {
      BackgroundAccounts(cfg, s, a, s.log[j]);
    }
  }

  lemma StepKeepsRate(cfg: Settings, s: State, a: Action)
    requires RateInv(cfg, s) && !a.OperatorUncordon?
    ensures RateInv(cfg, Step(cfg, s, a))
  {
    hide RateInv;
    if Enabled(cfg, s, a) {
      if a.ReapNext? {
        ReapKeepsRate(cfg, s, a.fails);
      } else if a.Choose? {
        ChooseKeepsRate(cfg, s, a);
      } else if a.Claim? {
        ClaimKeepsRate(cfg, s, a.fails);
      } else if !a.IdlePass? {
        BackgroundKeepsRate(cfg, s, a);
      }
    }
  }

  ghost predicate NoUncordons(actions: seq<Action>) {
    forall i :: 0 <= i < |actions| ==> !actions[i].OperatorUncordon?
  }

  lemma {:induction false} AlwaysRate(cfg: Settings, s: State, actions: seq<Action>)
    requires Init(s) && NoUncordons(actions)
    ensures RateInv(cfg, Exec(cfg, s, actions))
  {
    if actions == [] {
      AlwaysAttributed(cfg, s, []);
      assert forall j :: !LastInPool(s.log, j);
    } else {
      var front := actions[..|actions| - 1];
      AlwaysRate(cfg, s, front);
      StepKeepsRate(cfg, Exec(cfg, s, front), actions[|actions| - 1]);
    }
  }

  /** Two cordons of one pool in a run without outside uncordons, the first one stamped at
      `t` and written at `w`. */
  ghost predicate Repeats(cfg: Settings, s: State, actions: seq<Action>, i: int, j: int, t: int, w: int) {
    var log := Exec(cfg, s, actions).log;
    && Init(s) && NoUncordons(actions) && 0 <= i < j < |log| && log[i].pool == log[j].pool
    && log[i].time == t && log[i].written == w
  }

  /** In every run without outside uncordons, a pool is cordoned again no earlier than
      NextCordon, in fact not even by a pass that starts earlier; with no positive time to
      live, never again. */
  lemma CordonRateBound(cfg: Settings, s: State, actions: seq<Action>, i: int, j: int, t: int, w: int)
    requires Repeats(cfg, s, actions, i, j, t, w)
    ensures var again := Exec(cfg, s, actions).log[j];
            cfg.ttl > 0 && again.written >= again.time >= NextCordon(cfg, t, w)
    ensures t <= w
  {
    AlwaysRate(cfg, s, actions);
  }

  lemma ExecAppend(cfg: Settings, s: State, actions: seq<Action>, a: Action)
    ensures Exec(cfg, s, actions + [a]) == Step(cfg, Exec(cfg, s, actions), a)
  {
    assert (actions + [a])[..|actions|] == actions;
  }

  lemma ExecTwo(cfg: Settings, s: State, a: Action, b: Action)
    ensures Exec(cfg, s, [a, b]) == Step(cfg, Step(cfg, s, a), b)
  {
    ExecAppend(cfg, s, [], a);
    ExecAppend(cfg, s, [a], b);
    assert [] + [a] == [a] && [a] + [b] == [a, b];
  }

  lemma ExecThree(cfg: Settings, s: State, a: Action, b: Action, c: Action)
    ensures Exec(cfg, s, [a, b, c]) == Step(cfg, Step(cfg, Step(cfg, s, a), b), c)
  {
    ExecTwo(cfg, s, a, b);
    ExecAppend(cfg, s, [a, b], c);
    assert [a, b] + [c] == [a, b, c];
  }

  lemma ExecFour(cfg: Settings, s: State, a: Action, b: Action, c: Action, d: Action)
    ensures Exec(cfg, s, [a, b, c, d]) == Step(cfg, Step(cfg, Step(cfg, Step(cfg, s, a), b), c), d)
  {
    hide Step;
    ExecThree(cfg, s, a, b, c);
    ExecAppend(cfg, s, [a, b, c], d);
    assert [a, b, c] + [d] == [a, b, c, d];
  }

  /** A pass over a one-node cluster that cordons it, writing some time after it started. */
  function CordonRun(run: string, delay: nat): seq<Action> {
    [Start(run, true, ["a"]), Choose("a", 0), Tick(delay), Claim(false)]
  }

  lemma FirstCordon(cfg: Settings, s: State, run: string, n: NodeRec, delay: nat)
    requires s.pass.None? && s.nodes == map["a" := n] && run !in s.used
    requires n.Schedulable() && !InCooldown(n, cfg.cooldown, s.clock)
    ensures Exec(cfg, s, CordonRun(run, delay))
            == s.(used := s.used + {run}, clock := s.clock + delay, nodes := map["a" := Claimed(n, run, s.clock)],
                  owned := s.owned + {"a"}, log := s.log + [CordonRec("a", n.pool, s.clock, s.clock + delay)])
  {
    hide Exec;
    ExecFour(cfg, s, Start(run, true, ["a"]), Choose("a", 0), Tick(delay), Claim(false));
    var s1 := Step(cfg, s, Start(run, true, ["a"]));
    assert s1 == s.(used := s.used + {run}, pass := Some(Pass(run, s.clock, Deciding)));
    assert "a" in SchedulableIn(s1.nodes, n.pool);
    assert Enabled(cfg, s1, Choose("a", 0));
    var s2 := Step(cfg, s1, Choose("a", 0));
    assert s2 == s1.(pass := Some(Pass(run, s.clock, Chosen("a"))));
    var s3 := Step(cfg, s2, Tick(delay));
    assert s3 == s2.(clock := s.clock + delay);
    assert Step(cfg, s3, Claim(false)).nodes == map["a" := Claimed(n, run, s.clock)];
  }

  lemma {:induction false} ExecConcat(cfg: Settings, s: State, first: seq<Action>, second: seq<Action>)
    ensures Exec(cfg, s, first + second) == Exec(cfg, Exec(cfg, s, first), second)
  {
    if second == [] {
      assert first + second == first;
    } else {
      var n := |second| - 1;
      ExecConcat(cfg, s, first, second[..n]);
      assert (first + second)[..|first| + n] == first + second[..n];
    }
  }

  // ----- the bound is reached -----

  lemma ExecFive(cfg: Settings, s: State, a: Action, b: Action, c: Action, d: Action, e: Action)
    ensures Exec(cfg, s, [a, b, c, d, e]) == Step(cfg, Step(cfg, Step(cfg, Step(cfg, Step(cfg, s, a), b), c), d), e)
  {
    hide Step;
    ExecFour(cfg, s, a, b, c, d);
    ExecAppend(cfg, s, [a, b, c, d], e);
    assert [a, b, c, d] + [e] == [a, b, c, d, e];
  }

  /** One reap of a one-node cluster as soon as its cordon may be reaped, then a wait. */
  function ReapRun(reapAt: nat, wait: nat): seq<Action> {
    [Tick(reapAt), Start("r2", false, ["a"]), ReapNext(false), Stop, Tick(wait)]
  }

  lemma ReapAndWait(cfg: Settings, s: State, n: NodeRec, t: int, early: nat, wait: nat) returns (next: State)
    requires cfg.ttl > 0 && s.pass.None? && s.used == {"r1"} && !n.unschedulable
    requires s.nodes == map["a" := Claimed(n, "r1", t)]
    requires s.clock + early == ReapableFrom(cfg, t, s.clock)
    ensures next == Exec(cfg, s, ReapRun(early, wait))
    ensures next.pass.None? && next.clock == s.clock + early + wait && "r3" !in next.used && next.log == s.log
    ensures next.nodes == map["a" := Released(Claimed(n, "r1", t), s.clock + early)]
  {
    hide Exec;
    ExecFive(cfg, s, Tick(early), Start("r2", false, ["a"]), ReapNext(false), Stop, Tick(wait));
    var r := s.clock + early;
    var s1 := Step(cfg, s, Tick(early));
    assert s1 == s.(clock := r);
    var s2 := Step(cfg, s1, Start("r2", false, ["a"]));
    assert s2 == s1.(used := {"r1", "r2"}, pass := Some(Pass("r2", r, Reaping(s.nodes, ["a"]))));
    assert Decide(s.nodes["a"], "r2", cfg.ttl, r) == Release;
    var s3 := Step(cfg, s2, ReapNext(false));
    assert s3.nodes == map["a" := Released(Claimed(n, "r1", t), r)];
    next := Step(cfg, Step(cfg, s3, Stop), Tick(wait));
  }

  /** The bound cannot be improved: for every positive time to live, clock reading and later
      write there is a run whose second cordon is written exactly then. */
  lemma BoundIsReached(cfg: Settings, t: int, w: int) returns (s: State, actions: seq<Action>)
    requires cfg.ttl > 0 && t <= w
    ensures Repeats(cfg, s, actions, 0, 1, t, w) && Exec(cfg, s, actions).log[1].written == NextCordon(cfg, t, w)
  {
    hide Exec;
    var early: nat, wait: nat := ReapableFrom(cfg, t, w) - w, NextCordon(cfg, t, w) - ReapableFrom(cfg, t, w);
    var n := NodeRec("workers", true, 4000, 8192, false, None, None, None, None);
    s := State(map["a" := n], t, None, {}, {}, {}, []);
    FirstCordon(cfg, s, "r1", n, w - t);
    var s1 := Exec(cfg, s, CordonRun("r1", w - t));
    var s2 := ReapAndWait(cfg, s1, n, t, early, wait);
    FirstCordon(cfg, s2, "r3", s2.nodes["a"], 0);
    ExecConcat(cfg, s, CordonRun("r1", w - t), ReapRun(early, wait));
    ExecConcat(cfg, s, CordonRun("r1", w - t) + ReapRun(early, wait), CordonRun("r3", 0));
    actions := CordonRun("r1", w - t) + ReapRun(early, wait) + CordonRun("r3", 0);
  }

  // ----- the promised distance -----

  /** The documented distance after an instant: time to live plus cooldown. */
  function PromisedAfter(cfg: Settings, w: int): int {
    w + cfg.ttl + Max(cfg.cooldown, 0)
  }

  /** Every later cordon of a pool whose cordon was stamped at `t` and written at `w` is
      written the documented distance after it. */
  ghost predicate PromiseKept(cfg: Settings, t: int, w: int) {
    forall s: State, actions: seq<Action>, i: int, j: int :: Repeats(cfg, s, actions, i, j, t, w) ==>
      Exec(cfg, s, actions).log[j].written >= PromisedAfter(cfg, w)
  }

  /** A cordon is stamped with the clock as its pass read it on starting, cut to the second.
      The documented distance between cordons is guaranteed for one written at `w` if and
      only if it was written at that very reading, on a whole second, and the time to live is
      whole seconds too, which matters only with a cooldown. */
  lemma PromiseExactly(cfg: Settings, t: int, w: int)
    requires cfg.ttl > 0 && t <= w
    ensures PromiseKept(cfg, t, w)
            <==> w == t && w % SECOND == 0 && (cfg.cooldown <= 0 || cfg.ttl % SECOND == 0)
  {
    PromiseArithmetic(cfg, t, w);
    if NextCordon(cfg, t, w) >= PromisedAfter(cfg, w) {
      forall s: State, actions: seq<Action>, i: int, j: int | Repeats(cfg, s, actions, i, j, t, w)
        ensures Exec(cfg, s, actions).log[j].written >= PromisedAfter(cfg, w)
      {
        CordonRateBound(cfg, s, actions, i, j, t, w);
      }
    } else {
      var s, actions := BoundIsReached(cfg, t, w);
    }
  }

  lemma PromiseArithmetic(cfg: Settings, t: int, w: int)
    requires cfg.ttl > 0 && t <= w
    ensures NextCordon(cfg, t, w) >= PromisedAfter(cfg, w)
            <==> w == t && w % SECOND == 0 && (cfg.cooldown <= 0 || cfg.ttl % SECOND == 0)
  {
    var r := ReapableFrom(cfg, t, w);
    WholeExactly(t);
    assert r <= w + cfg.ttl && (r == w + cfg.ttl <==> w == t && t % SECOND == 0);
    WholeExactly(r);
    if t % SECOND == 0 {
      WholeSum(t, cfg.ttl);
    }
    hide Truncate, ReapableFrom;
  }

  lemma WholeExactly(t: int)
    ensures Truncate(t) == t <==> t % SECOND == 0
  {
  }

  lemma WholeSum(a: int, b: int)
    requires a % SECOND == 0
    ensures (a + b) % SECOND == 0 <==> b % SECOND == 0
  {
  }

  /** How much the distance between two writes may fall short of the documented one, for a
      time to live of whole seconds such as the default. A write within the time to live
      loses what it is late after its stamp; a later one loses the whole time to live, and
      what the reap's own stamp drops from the cooldown. */
  function Shortfall(cfg: Settings, t: int, w: int): int {
    if w <= Truncate(t) + cfg.ttl then w - Truncate(t) else cfg.ttl + Min(w % SECOND, Max(cfg.cooldown, 0))
  }

  lemma WholeSecondArithmetic(cfg: Settings, t: int, w: int)
    requires cfg.ttl > 0 && cfg.ttl % SECOND == 0 && t <= w
    ensures NextCordon(cfg, t, w) == PromisedAfter(cfg, w) - Shortfall(cfg, t, w)
  {
    WholeSum(Truncate(t), cfg.ttl);
    WholeExactly(Truncate(t) + cfg.ttl);
  }

  lemma WholeSecondRateBound(cfg: Settings, s: State, actions: seq<Action>, i: int, j: int, t: int, w: int)
    requires Repeats(cfg, s, actions, i, j, t, w) && cfg.ttl % SECOND == 0
    ensures Exec(cfg, s, actions).log[j].written >= PromisedAfter(cfg, w) - Shortfall(cfg, t, w)
    ensures w == t ==> Shortfall(cfg, t, w) == t % SECOND < SECOND
    ensures Shortfall(cfg, t, w) < cfg.ttl + SECOND
  {
    CordonRateBound(cfg, s, actions, i, j, t, w);
    WholeSecondArithmetic(cfg, t, w);
  }

  /** And some run falls short by exactly that much. */
  lemma ShortfallIsReached(cfg: Settings, t: int, w: int) returns (s: State, actions: seq<Action>)
    requires cfg.ttl > 0 && cfg.ttl % SECOND == 0 && t <= w
    ensures Repeats(cfg, s, actions, 0, 1, t, w)
    ensures Exec(cfg, s, actions).log[1].written == PromisedAfter(cfg, w) - Shortfall(cfg, t, w)
  {
    s, actions := BoundIsReached(cfg, t, w);
    WholeSecondArithmetic(cfg, t, w);
  }
}
