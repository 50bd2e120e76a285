/** Nudger passes as runs of the cordon protocol: whatever sequence of passes, operator
    edits, readiness flips and waits a cluster goes through, the protocol has that run, so
    its invariants and its rate bound hold of the passes themselves. */
module DrainRuns {
  import opened Basics
  import opened Cordon
  import opened CordonProtocol
  import opened Drain

  // ----- one pass -----

  /** Nobody rewrites a node while the pass is under way. */
  predicate Undisturbed(faults: PassFaults) {
    faults.reap.edits == map[] && faults.targetEdit.None?
  }

  ghost predicate Lists(order: seq<string>, nodes: map<string, NodeRec>) {
    Distinct(order) && forall n :: n in order <==> n in nodes
  }

  /** The reaper's next `k` nodes. */
  function ReapSteps(order: seq<string>, faults: Faults, k: nat): seq<Action>
    requires k <= |order|
  {
    if k == 0 then [] else ReapSteps(order, faults, k - 1) + [ReapNext(WriteFails(order[k - 1], faults))]
  }

  /** The state after the reaper has handled the first `k` listed nodes. */
  ghost predicate ReapedTo(cfg: Settings, s: State, next: State, order: seq<string>, k: nat, run: string, faults: Faults)
    requires k <= |order|
  {
    && next.pass == Some(Pass(run, s.clock, Reaping(s.nodes, order[k..])))
    && next.nodes == ReapSome(s.nodes, order[..k], true, run, cfg.ttl, s.clock, faults)
    && next.clock == s.clock && next.used == s.used + {run} && next.operators == s.operators && next.log == s.log
  }

  lemma {:induction false} ReapStepsRun(cfg: Settings, s: State, order: seq<string>, run: string, faults: Faults, k: nat)
    requires cfg.ttl > 0 && !faults.list && faults.edits == map[]
    requires s.pass.None? && run !in s.used && Lists(order, s.nodes) && k <= |order|
    ensures ReapedTo(cfg, s, Exec(cfg, s, [Start(run, false, order)] + ReapSteps(order, faults, k)), order, k, run, faults)
  {
    var front := [Start(run, false, order)];
    if k == 0 {
      assert front + ReapSteps(order, faults, 0) == [] + front;
      ExecAppend(cfg, s, [], Start(run, false, order));
      assert order[0..] == order;
      assert ReapSome(s.nodes, order[..0], true, run, cfg.ttl, s.clock, faults) == s.nodes;
    } else {
      ReapStepsRun(cfg, s, order, run, faults, k - 1);
      var prev := Exec(cfg, s, front + ReapSteps(order, faults, k - 1));
      var a := ReapNext(WriteFails(order[k - 1], faults));
      assert front + ReapSteps(order, faults, k) == (front + ReapSteps(order, faults, k - 1)) + [a];
      ExecAppend(cfg, s, front + ReapSteps(order, faults, k - 1), a);
      hide Exec;
      ReapOneMore(cfg, s, prev, order, k, run, faults);
    }
  }

  lemma ReapOneMore(cfg: Settings, s: State, prev: State, order: seq<string>, k: nat, run: string, faults: Faults)
    requires cfg.ttl > 0 && !faults.list && faults.edits == map[]
    requires Lists(order, s.nodes) && 1 <= k <= |order| && ReapedTo(cfg, s, prev, order, k - 1, run, faults)
    ensures ReapedTo(cfg, s, Step(cfg, prev, ReapNext(WriteFails(order[k - 1], faults))), order, k, run, faults)
  {
    hide ReapSome, ReapedNode, Decide, AfterReap, WriteFails;
    var name := order[k - 1];
    assert order[k - 1..][0] == name && order[k - 1..][1..] == order[k..];
    assert name in order;
    ReapSomeStep(s.nodes, order, k - 1, true, run, cfg.ttl, s.clock, faults);
    ReapedWithoutEdits(name, s.nodes[name], run, cfg.ttl, s.clock, faults);
    assert prev.nodes[name] == s.nodes[name];
    assert prev.nodes[name := prev.nodes[name]] == prev.nodes;
  }

  lemma ReapedWithoutEdits(name: string, n: NodeRec, run: string, ttl: int, now: int, faults: Faults)
    requires faults.edits == map[]
    ensures ReapedNode(name, n, true, run, ttl, now, faults)
            == if WriteFails(name, faults) then n else AfterReap(Decide(n, run, ttl, now), n, now)
  {
  }

  /** What a pass leaves of a protocol state. */
  ghost predicate PassLands(s: State, next: State, repaired: map<string, NodeRec>, opts: Options,
                            target: Option<string>, faults: PassFaults, wrote: int, ended: int) {
    && next.pass.None? && next.nodes == AfterClaim(repaired, opts, target, faults)
    && next.clock == ended && s.used <= next.used <= s.used + {opts.run} && next.operators == s.operators
    && next.log == s.log + CordonsOf(repaired, opts, target, faults, wrote)
  }

  /** The cordon a pass adds to the log, if it claims a node. */
  function CordonsOf(repaired: map<string, NodeRec>, opts: Options, target: Option<string>, faults: PassFaults, wrote: int)
    : seq<CordonRec>
  {
    if Claims(repaired, opts, target, faults)
    then [CordonRec(target.value, repaired[target.value].pool, opts.now, wrote)] else []
  }

  /** The repair phase is a run that ends with the pass free to choose. */
  lemma RepairRun(cfg: Settings, s: State, order: seq<string>, opts: Options, faults: Faults)
    returns (actions: seq<Action>)
    requires opts.live && faults.edits == map[]
    requires cfg == Settings(opts.ttl, opts.cooldown) && opts.now == s.clock
    requires s.pass.None? && opts.run !in s.used && Lists(order, s.nodes)
    ensures NoUncordons(actions)
    ensures var next := Exec(cfg, s, actions);
            && next.pass.Some? && next.pass.value.now == s.clock && next.pass.value.id == opts.run
            && (next.pass.value.phase.Deciding? || (next.pass.value.phase.Reaping? && next.pass.value.phase.todo == []))
            && next.nodes == Repaired(s.nodes, opts, faults)
            && next.clock == s.clock && next.used == s.used + {opts.run} && next.operators == s.operators && next.log == s.log
  {
    if opts.ttl <= 0 || faults.list {
      actions := [Start(opts.run, faults.list, order)];
      ExecAppend(cfg, s, [], actions[0]);
      assert [] + [actions[0]] == actions;
    } else {
      actions := [Start(opts.run, false, order)] + ReapSteps(order, faults, |order|);
      ReapStepsRun(cfg, s, order, opts.run, faults, |order|);
      assert order[..|order|] == order;
      ReapSomeIsAll(s.nodes, order, true, opts.run, opts.ttl, opts.now, faults);
      StepsAreReaps(order, faults, |order|);
      hide Exec, ReapSome, ReapAll;
    }
  }

  lemma {:induction false} StepsAreReaps(order: seq<string>, faults: Faults, k: nat)
    requires k <= |order|
    ensures NoUncordons(ReapSteps(order, faults, k))
  {
    if k == 0 {
    } else {
      StepsAreReaps(order, faults, k - 1);
    }
  }

  /** Every undisturbed pass, under any failures, with any permitted target and taking any
      time before its claim and after it, is a run. */
  lemma PassIsRun(cfg: Settings, s: State, order: seq<string>, opts: Options, target: Option<string>, minimumSafe: int,
                  faults: PassFaults, wrote: int, ended: int) returns (actions: seq<Action>)
    requires opts.now <= wrote <= ended
    requires Undisturbed(faults) && cfg == Settings(opts.ttl, opts.cooldown) && opts.now == s.clock
    requires s.pass.None? && opts.run !in s.used && Lists(order, s.nodes)
    requires target.Some? ==>
               Drainable(Repaired(s.nodes, opts, faults.reap), target.value, minimumSafe, opts.cooldown, opts.now)
    ensures NoUncordons(actions)
    ensures PassLands(s, Exec(cfg, s, actions), Repaired(s.nodes, opts, faults.reap), opts, target, faults, wrote, ended)
  {
    if !opts.live {
      actions := [IdlePass, Tick(ended - opts.now)];
      ExecTwo(cfg, s, IdlePass, Tick(ended - opts.now));
      DryRunReapsNothing(s.nodes, opts, faults.reap);
    } else {
      var repair := RepairRun(cfg, s, order, opts, faults.reap);
      var mid := Exec(cfg, s, repair);
      hide Exec, ReapAll;
      var finish := FinishRun(cfg, s, mid, opts, target, minimumSafe, faults, wrote, ended);
      ExecConcat(cfg, s, repair, finish);
      actions := repair + finish;
    }
  }

  lemma FinishRun(cfg: Settings, s: State, mid: State, opts: Options, target: Option<string>, minimumSafe: int,
                  faults: PassFaults, wrote: int, ended: int) returns (finish: seq<Action>)
    requires opts.now <= wrote <= ended
    requires opts.live && Undisturbed(faults) && cfg == Settings(opts.ttl, opts.cooldown) && opts.now == s.clock
    requires mid.pass.Some? && mid.pass.value.now == s.clock && mid.pass.value.id == opts.run
    requires mid.pass.value.phase.Deciding? || (mid.pass.value.phase.Reaping? && mid.pass.value.phase.todo == [])
    requires mid.clock == s.clock && mid.used == s.used + {opts.run} && mid.operators == s.operators && mid.log == s.log
    requires target.Some? ==> Drainable(mid.nodes, target.value, minimumSafe, opts.cooldown, opts.now)
    ensures NoUncordons(finish)
    ensures PassLands(s, Exec(cfg, mid, finish), mid.nodes, opts, target, faults, wrote, ended)
  {
    if target.None? {
      finish := [Stop, Tick(ended - opts.now)];
      ExecTwo(cfg, mid, Stop, Tick(ended - opts.now));
    } else {
      var choose, claim := Choose(target.value, minimumSafe), Claim(faults.getTarget || faults.claim);
      var before, after := Tick(wrote - opts.now), Tick(ended - wrote);
      finish := [choose, before, claim, after];
      ExecFour(cfg, mid, choose, before, claim, after);
      hide Exec;
      assert Enabled(cfg, mid, choose) && target.value in mid.nodes && !mid.nodes[target.value].unschedulable;
      hide PoolClear, SchedulableIn;
      var chosen := Step(cfg, mid, choose);
      assert chosen == mid.(pass := Some(mid.pass.value.(phase := CordonProtocol.Chosen(target.value))));
      assert Step(cfg, chosen, before) == chosen.(clock := wrote);
      assert mid.nodes[target.value := mid.nodes[target.value]] == mid.nodes;
    }
  }

  // ----- any number of passes -----

  /** A cluster between passes: its nodes, the time, the run identifiers used so far and
      every cordon the tool has placed. */
  datatype World = World(nodes: map<string, NodeRec>, clock: int, used: set<string>, log: seq<CordonRec>)

  datatype Event =
    | Outside(a: Action)
    | Nudge(order: seq<string>, pods: seq<LivePod>, verdicts: Option<map<string, Gate>>, opts: Options,
            halted: bool, faults: PassFaults, target: Option<string>, cordoned: bool, wrote: int)

  predicate FromOutside(a: Action) {
    a.Tick? || a.Flip? || a.OperatorCordon? || a.OperatorUncordon?
  }

  ghost function StateOf(w: World): State {
    State(w.nodes, w.clock, None, w.used, {}, {}, w.log)
  }

  /** One event: the outside world acts, or a pass runs to its end with the effect its
      contract states. A pass takes time: it reads the clock some while after it was begun,
      writes its cordon later still and ends after that. */
  ghost predicate Moves(cfg: Settings, w: World, e: Event, v: World) {
    match e
    case Outside(a) =>
      && FromOutside(a)
      && var next := Step(cfg, StateOf(w), a); v == World(next.nodes, next.clock, w.used, w.log)
    case Nudge(order, pods, verdicts, opts, halted, faults, target, cordoned, wrote) =>
      && Undisturbed(faults) && cfg == Settings(opts.ttl, opts.cooldown)
      && w.clock <= opts.now <= wrote <= v.clock
      && opts.run !in w.used && Lists(order, w.nodes)
      && PassEffect(w.nodes, v.nodes, pods, verdicts, opts, halted, faults, target, cordoned)
      && v.used == w.used + {opts.run}
      && v.log == w.log + if cordoned && target.Some? && target.value in w.nodes
                          then [CordonRec(target.value, w.nodes[target.value].pool, opts.now, wrote)] else []
  }

  /** A history starts on a cluster the tool has never touched. */
  ghost predicate History(cfg: Settings, worlds: seq<World>, events: seq<Event>) {
    && |worlds| == |events| + 1
    && worlds[0].log == [] && Untouched(worlds[0].nodes)
    && forall k :: 0 <= k < |events| ==> Moves(cfg, worlds[k], events[k], worlds[k + 1])
  }

  ghost predicate Untouched(nodes: map<string, NodeRec>) {
    forall n :: n in nodes ==>
      nodes[n].cordonedAt.None? && nodes[n].byRun.None? && nodes[n].prior.None? && nodes[n].reapedAt.None?
  }

  predicate OperatorKeepsOff(events: seq<Event>) {
    forall k :: 0 <= k < |events| ==> !(events[k].Outside? && events[k].a.OperatorUncordon?)
  }

  ghost predicate Mirrors(s: State, w: World) {
    s.nodes == w.nodes && s.clock == w.clock && s.pass.None? && s.used <= w.used && s.log == w.log
  }

  lemma OutsideIsRun(cfg: Settings, s: State, w: World, e: Event, v: World) returns (actions: seq<Action>)
    requires e.Outside? && Mirrors(s, w) && Moves(cfg, w, e, v)
    ensures Mirrors(Exec(cfg, s, actions), v)
    ensures !e.a.OperatorUncordon? ==> NoUncordons(actions)
  {
    actions := [e.a];
    ExecAppend(cfg, s, [], e.a);
    assert [] + [e.a] == actions;
    hide Exec;
    assert Enabled(cfg, s, e.a) <==> Enabled(cfg, StateOf(w), e.a);
  }

  /** Repairing and claiming leave every node in its pool. */
  lemma RepairKeepsPools(nodes: map<string, NodeRec>, opts: Options, faults: Faults)
    requires faults.edits == map[]
    ensures Repaired(nodes, opts, faults).Keys == nodes.Keys
    ensures forall n :: n in nodes ==> Repaired(nodes, opts, faults)[n].pool == nodes[n].pool
  {
  }

  lemma NudgeIsRun(cfg: Settings, s: State, w: World, e: Event, v: World) returns (actions: seq<Action>)
    requires e.Nudge? && Mirrors(s, w) && Moves(cfg, w, e, v)
    ensures Mirrors(Exec(cfg, s, actions), v) && NoUncordons(actions)
  {
    var ready := s.(clock := e.opts.now);
    Wait(cfg, s, e.opts.now - w.clock);
    var rest: seq<Action>;
    if e.halted {
      rest := [Tick(v.clock - e.opts.now)];
      Wait(cfg, ready, v.clock - e.opts.now);
      hide *;
    } else {
      hide *;
      rest := LivePassIsRun(cfg, ready, w, e, v);
    }
    ExecConcat(cfg, s, [Tick(e.opts.now - w.clock)], rest);
    actions := [Tick(e.opts.now - w.clock)] + rest;
  }

  lemma Wait(cfg: Settings, s: State, d: nat)
    ensures Exec(cfg, s, [Tick(d)]) == s.(clock := s.clock + d)
  {
    ExecAppend(cfg, s, [], Tick(d));
    assert [] + [Tick(d)] == [Tick(d)];
  }

  lemma LivePassIsRun(cfg: Settings, s: State, w: World, e: Event, v: World) returns (actions: seq<Action>)
    requires e.Nudge? && !e.halted && Mirrors(s, w.(clock := e.opts.now)) && Moves(cfg, w, e, v)
    ensures Mirrors(Exec(cfg, s, actions), v) && NoUncordons(actions)
  {
    var repaired, minimumSafe := Repaired(w.nodes, e.opts, e.faults.reap), 0;
    if e.target.Some? {
      ChosenIsCandidate(repaired, e.pods, e.verdicts.value, e.opts, e.faults.budgets, e.target.value);
      minimumSafe := e.verdicts.value[repaired[e.target.value].pool].minimumSafe;
    }
    RepairKeepsPools(w.nodes, e.opts, e.faults.reap);
    hide Drain.Chosen, NothingToDrain, ReapAll, Drainable;
    actions := PassIsRun(cfg, s, e.order, e.opts, e.target, minimumSafe, e.faults, e.wrote, v.clock);
    hide Exec;
  }

  /** Every history of passes and outside events is a run of the protocol. */
  lemma {:induction false} HistoryIsRun(cfg: Settings, worlds: seq<World>, events: seq<Event>)
    returns (s: State, actions: seq<Action>)
    requires History(cfg, worlds, events)
    ensures Init(s) && Mirrors(Exec(cfg, s, actions), worlds[|events|])
    ensures OperatorKeepsOff(events) ==> NoUncordons(actions)
  {
    if events == [] {
      var w := worlds[0];
      s := State(w.nodes, w.clock, None, w.used, {}, set n | n in w.nodes && w.nodes[n].unschedulable, []);
      actions := [];
    } else {
      var n := |events| - 1;
      var front;
      s, front := HistoryIsRun(cfg, worlds[..|worlds| - 1], events[..n]);
      var e := events[n];
      assert Moves(cfg, worlds[n], e, worlds[n + 1]);
      var mid := Exec(cfg, s, front);
      hide Exec, Moves;
      var more;
      if e.Outside? {
        more := OutsideIsRun(cfg, mid, worlds[n], e, worlds[n + 1]);
      } else {
        more := NudgeIsRun(cfg, mid, worlds[n], e, worlds[n + 1]);
      }
      ExecConcat(cfg, s, front, more);
      actions := front + more;
    }
  }

  /** Rate bound of the passes themselves: whatever happens in between short of an outside
      uncordon, the writes of two passes that cordon in one pool are NextCordon apart. */
  lemma PassesKeepTheirDistance(cfg: Settings, worlds: seq<World>, events: seq<Event>, i: nat, j: nat)
    ensures History(cfg, worlds, events) && OperatorKeepsOff(events) ==>
              var log := worlds[|events|].log;
              i < j < |log| && log[i].pool == log[j].pool ==>
                cfg.ttl > 0 && log[j].written >= NextCordon(cfg, log[i].time, log[i].written)
  {
    if History(cfg, worlds, events) && OperatorKeepsOff(events) {
      var log := worlds[|events|].log;
      if i < j < |log| && log[i].pool == log[j].pool {
        var s, actions := HistoryIsRun(cfg, worlds, events);
        CordonRateBound(cfg, s, actions, i, j, log[i].time, log[i].written);
      }
    }
  }

  /** Ownership over the passes themselves: every marker in any history is complete and
      remembers a schedulable node, so lifting a marked cordon restores what was there. */
  lemma PassesStayAttributed(cfg: Settings, worlds: seq<World>, events: seq<Event>, n: string)
    ensures History(cfg, worlds, events) && n in worlds[|events|].nodes ==> WellMarked(worlds[|events|].nodes[n])
  {
    if History(cfg, worlds, events) && n in worlds[|events|].nodes {
      var s, actions := HistoryIsRun(cfg, worlds, events);
      AlwaysAttributed(cfg, s, actions);
    }
  }
}
