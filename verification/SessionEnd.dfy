/** The end of a session: what the destructor's removals achieve, and exactly when clearing the
    session pointer is safe while the thread monitor may still be making calls. */
module SessionEnd {
  import opened Options
  import opened RegistrySpec
  import opened Handshake
  import HandshakeRuns
  import opened Registry
  import opened RegistryRuns

  // ---------- The destructor's removals ----------

  /** Only removals are in flight, and those that are done have left no entry. */
  ghost predicate CellEmptying(c: Cell)
  {
    forall o :: o in c.ops ==> !c.ops[o].add && (c.ops[o].pc.Done? ==> c.entry.None?)
  }

  ghost predicate Emptying(s: State) { forall t :: t in s.cells ==> CellEmptying(s.cells[t]) }

  /** No addition starts in the run. */
  predicate OnlyRemovals(run: seq<Move>)
  {
    forall i :: 0 <= i < |run| && run[i].On? && run[i].step.Invoke? ==> !run[i].step.add
  }

  /** The threads for which a call returns in the run. */
  function Returned(run: seq<Move>): set<Tid>
  {
    if run == [] then {}
    else (if run[0].On? && run[0].step.Return? then {run[0].t} else {}) + Returned(run[1..])
  }

  /** A step that starts or ends a call or takes or gives back the entry. */
  predicate AtAnEnd(step: Step) { step.Invoke? || step.Return? || step.Skip? || step.Claim? || step.Finish? }

  lemma {:induction false} EndStepEmpties(session: bool, chosen: bool, c: Cell, step: Step)
    requires Enabled(session, chosen, c, step) && (step.Invoke? ==> !step.add) && AtAnEnd(step)
    ensures CellEmptying(c) ==>
              && CellEmptying(Do(session, chosen, c, step))
              && (Do(session, chosen, c, step).entry.Some? ==> c.entry.Some?)
              && (step.Return? ==> c.entry.None?)
  {
  }

  lemma {:induction false} InnerStepEmpties(session: bool, chosen: bool, c: Cell, step: Step)
    requires Enabled(session, chosen, c, step) && !AtAnEnd(step)
    ensures CellEmptying(c) ==>
              && CellEmptying(Do(session, chosen, c, step))
              && (Do(session, chosen, c, step).entry.Some? ==> c.entry.Some?)
              && (step.Return? ==> c.entry.None?)
  {
  }

  lemma {:induction false} StepEmpties(session: bool, chosen: bool, c: Cell, step: Step)
    requires Enabled(session, chosen, c, step) && (step.Invoke? ==> !step.add)
    ensures CellEmptying(c) ==>
              && CellEmptying(Do(session, chosen, c, step))
              && (Do(session, chosen, c, step).entry.Some? ==> c.entry.Some?)
              && (step.Return? ==> c.entry.None?)
  {
    hide Enabled, Do, CellEmptying;
    if AtAnEnd(step) { EndStepEmpties(session, chosen, c, step); } else { InnerStepEmpties(session, chosen, c, step); }
  }

  /** The same for the whole registry, when the thread's cell becomes `r`. */
  lemma {:induction false} PutEmpties(s: State, t: Tid, step: Step, r: Cell)
    requires Emptying(s)
    requires CellEmptying(CellOf(s, t)) ==>
               && CellEmptying(r)
               && (r.entry.Some? ==> CellOf(s, t).entry.Some?)
               && (step.Return? ==> CellOf(s, t).entry.None?)
    ensures Emptying(Put(s, t, r)) && Registered(Put(s, t, r)) <= Registered(s)
    ensures step.Return? ==> t !in Registered(s)
  {
    assert CellEmptying(CellOf(s, t));
  }

  lemma {:induction false} RunEmpties(sel: Tid -> bool, s: State, run: seq<Move>)
    requires Emptying(s) && CanRun(sel, s, run) && OnlyRemovals(run)
    ensures Registered(Exec(sel, s, run)) <= Registered(s) - Returned(run)
    decreases |run|
  {
    if run != [] {
      if run[0].On? {
        var t, step := run[0].t, run[0].step;
        StepEmpties(Session(s), sel(t), CellOf(s, t), step);
        PutEmpties(s, t, step, Do(Session(s), sel(t), CellOf(s, t), step));
      }
      RunEmpties(sel, Moved(sel, s, run[0]), run[1..]);
    }
  }

  /** An empty map: nothing is dispatched, and the session can be dropped. */
  lemma {:induction false} EmptyDrops(sel: Tid -> bool, s: State)
    requires AllInv(sel, s) && Registered(s) == {}
    ensures DropOk(s) && forall t :: t in s.cells ==> s.cells[t].entry.None? && s.cells[t].kernel.None?
  {
    forall t | t in s.cells
      ensures ResetOk(s.cells[t]) && s.cells[t].entry.None? && s.cells[t].kernel.None?
    {
      assert t !in Registered(s);
      HandshakeRuns.SignalsIdle(Session(s), sel(t), s.cells[t]);
    }
  }

  /** The session's destructor removes every registered thread by id. If no addition is in flight
      or interleaves and a removal of each thread returns, the map is empty and no
      thread is left dispatched, whatever else happens meanwhile. */
  lemma {:induction false} TeardownEmpties(sel: Tid -> bool, s: State, run: seq<Move>)
    requires AllInv(sel, s) && Session(s) && Emptying(s) && CanRun(sel, s, run) && Drop !in run
    requires OnlyRemovals(run) && Registered(s) <= Returned(run)
    ensures var r := Exec(sel, s, run);
            && Registered(r) == {} && (forall t :: t in r.cells ==> r.cells[t].entry.None? && r.cells[t].kernel.None?)
            && (r.stage.Locked? ==> CanMove(sel, r, Check)) && DropOk(r)
  {
    RunEmpties(sel, s, run);
    UndroppedLasts(sel, s, run);
    RunKeepsInv(sel, s, run);
    EmptyDrops(sel, Exec(sel, s, run));
  }

  // ---------- From the check to the drop ----------

  /** Between the check of the map and the drop of the session no addition is in flight: then
      the drop is safe. */
  lemma {:induction false} DropWithoutAdditions(sel: Tid -> bool, s: State, run: seq<Move>)
    requires AllInv(sel, s) && CanMove(sel, s, Check) && Emptying(s)
    requires CanRun(sel, Moved(sel, s, Check), run) && OnlyRemovals(run) && Drop !in run
    ensures DropOk(Exec(sel, Moved(sel, s, Check), run))
  {
    var c := Moved(sel, s, Check);
    assert Registered(c) == {};
    MoveKeepsInv(sel, s, Check);
    RunEmpties(sel, c, run);
    UndroppedLasts(sel, c, run);
    RunKeepsInv(sel, c, run);
    EmptyDrops(sel, Exec(sel, c, run));
  }

  /** No other thread has an entry. */
  ghost predicate Alone(s: State, t: Tid) { forall u :: u in s.cells && u != t ==> s.cells[u].entry.None? }

  /** A run of one thread's cell is a run of the registry in which nothing else happens. */
  lemma {:induction false} Lift(sel: Tid -> bool, s: State, t: Tid, steps: seq<Step>) returns (run: seq<Move>)
    requires HandshakeRuns.CanRun(Session(s), sel(t), CellOf(s, t), steps) && HandshakeRuns.ById(steps)
    requires !s.stage.Freed?
    requires HandshakeRuns.PlainRun(Session(s), sel(t), CellOf(s, t), steps) || Alone(s, t)
    ensures CanRun(sel, s, run) && |run| == |steps|
    ensures var r := Exec(sel, s, run);
            && r.stage == s.stage && CellOf(r, t) == HandshakeRuns.Exec(Session(s), sel(t), CellOf(s, t), steps)
            && (forall u :: u != t ==> CellOf(r, u) == CellOf(s, u))
    decreases |steps|
  {
    hide Enabled, Do;
    run := [];
    if steps != [] {
      var m := On(t, steps[0]);
      assert CanMove(sel, s, m);
      run := Lift(sel, Moved(sel, s, m), t, steps[1..]);
      run := [m] + run;
    }
  }

  /** Dropping the session, with the thread monitor alive and any calls by id in flight, is safe
      in all continuations, up to and including the freeing of the map, if and only if it does
      no harm to any single thread. */
  lemma {:induction false} DropSafeExactly(sel: Tid -> bool, s: State)
    requires AllInv(sel, s) && CanMove(sel, s, Drop)
    ensures var d := Moved(sel, s, Drop);
            (forall run :: CanRun(sel, d, run) ==> AllSafe(sel, Exec(sel, d, run))) <==> DropOk(s)
  {
    var d := Moved(sel, s, Drop);
    if DropOk(s) {
      MoveKeepsInv(sel, s, Drop);
      forall run | CanRun(sel, d, run) ensures AllSafe(sel, Exec(sel, d, run)) {
        DroppedOnce(sel, d, run);
        RunKeepsInv(sel, d, run);
        InvIsSafe(sel, Exec(sel, d, run));
      }
    } else {
      var t :| t in s.cells && !ResetOk(s.cells[t]);
      var steps := HandshakeRuns.HarmAfterReset(sel(t), s.cells[t]);
      var run := Lift(sel, d, t, steps);
      UnsafeCell(sel, Exec(sel, d, run), t);
    }
  }

  /** The plainest harm: with no call in flight, the map may be freed right after the drop, and
      that is safe if and only if no thread is dispatched. */
  lemma {:induction false} FreeSafeExactly(sel: Tid -> bool, s: State)
    requires AllInv(sel, s) && CanMove(sel, s, Drop) && Idle(s)
    ensures CanMove(sel, Moved(sel, s, Drop), Free)
    ensures AllSafe(sel, Moved(sel, Moved(sel, s, Drop), Free)) <==>
            forall t :: t in s.cells ==> s.cells[t].kernel.None?
    ensures DropOk(s) <==> forall t :: t in s.cells ==> s.cells[t].kernel.None?
  {
    var r := s.(stage := Dropped);
    forall t | t in s.cells ensures s.cells[t].ops == map[] && s.cells[t].signals == map[] {
      IdleCell(sel, s, t);
      HandshakeRuns.SignalsIdle(Session(s), sel(t), s.cells[t]);
    }
    assert forall t :: t in s.cells ==> !SwitchingOff(s.cells[t]);
    var f := Moved(sel, r, Free);
    if t :| t in s.cells && s.cells[t].kernel.Some? {
      UnsafeCell(sel, f, t);
    } else {
      MoveKeepsInv(sel, s, Drop);
      MoveKeepsInv(sel, r, Free);
      InvIsSafe(sel, f);
    }
  }

  lemma {:induction false} IdleCell(sel: Tid -> bool, s: State, t: Tid)
    requires AllInv(sel, s) && Idle(s) && t in s.cells
    ensures s.cells[t].ops == map[]
    ensures !(s.cells[t].entry.Some? && s.cells[t].entry.value.owner.Some?)
  {
    assert s.cells[t].ops.Keys == {};
  }

  lemma {:induction false} DroppedOnce(sel: Tid -> bool, s: State, run: seq<Move>)
    requires !Session(s) && CanRun(sel, s, run)
    ensures DropsOk(sel, s, run)
    decreases |run|
  {
    if run != [] { DroppedOnce(sel, Moved(sel, s, run[0]), run[1..]); }
  }

  lemma {:induction false} UnsafeCell(sel: Tid -> bool, s: State, t: Tid)
    requires !Safe(sel(t), CellOf(s, t))
    ensures !AllSafe(sel, s)
  {
    assert t in s.cells;
  }

  lemma {:induction false} RunAhead(sel: Tid -> bool, s: State, m: Move, run: seq<Move>)
    requires CanMove(sel, s, m) && CanRun(sel, Moved(sel, s, m), run)
    ensures CanRun(sel, s, [m] + run) && Exec(sel, s, [m] + run) == Exec(sel, Moved(sel, s, m), run)
  {
    assert ([m] + run)[1..] == run;
  }

  lemma {:induction false} RunOn(sel: Tid -> bool, s: State, run: seq<Move>, m: Move)
    requires CanRun(sel, s, run) && CanMove(sel, Exec(sel, s, run), m)
    ensures CanRun(sel, s, run + [m]) && Exec(sel, s, run + [m]) == Moved(sel, Exec(sel, s, run), m)
    decreases |run|
  {
    if run == [] {
      assert run + [m] == [m] + [];
      RunAhead(sel, s, m, []);
    } else {
      assert (run + [m])[0] == run[0] && (run + [m])[1..] == run[1..] + [m];
      RunOn(sel, Moved(sel, s, run[0]), run[1..], m);
    }
  }

  /** The harm can come about: the destructor finds the map empty, the thread monitor adds a new
      thread, and only then the session pointer is cleared. The thread stays dispatched without
      a session, and when the map is freed the kernel is left with a pointer into it. */
  lemma {:induction false} PollerBeatsDrop(sel: Tid -> bool, t: Tid) returns (run: seq<Move>)
    requires sel(t)
    ensures var s := State(Open, map[]);
            && Init(s) && CanRun(sel, s, run)
            && var r := Exec(sel, s, run);
               && r.stage.Dropped? && t in r.cells && Injecting(r.cells[t])
               && CanMove(sel, r, Free) && !AllSafe(sel, Moved(sel, r, Free))
  {
    var s := State(Open, map[]);
    var locked := Moved(sel, s, Lock);
    var checked := Moved(sel, locked, Check);
    var steps := HandshakeRuns.AddedReached();
    run := Lift(sel, checked, t, steps);
    var q := Exec(sel, checked, run);
    assert forall u :: u != t ==> CellOf(q, u) == IDLE;
    assert forall u :: u in q.cells ==> q.cells[u] == CellOf(q, u);
    RunOn(sel, checked, run, Drop);
    var r := Exec(sel, checked, run + [Drop]);
    assert r == q.(stage := Dropped);
    UnsafeCell(sel, Moved(sel, r, Free), t);
    RunAhead(sel, locked, Check, run + [Drop]);
    RunAhead(sel, s, Lock, [Check] + (run + [Drop]));
    run := [Lock] + ([Check] + (run + [Drop]));
  }

  // ---------- The order of the end ----------

  /** How far the destructor has come, as a number. */
  function StageNumber(s: State): nat
  {
    match s.stage case Open => 0 case Locked => 1 case Checked => 2 case Dropped => 3 case Freed => 4
  }

  /** The stages come one after the other; the map is found empty at the check, and no call is in
      flight when it is freed. */
  lemma {:induction false} StagesInOrder(sel: Tid -> bool, s: State, m: Move)
    requires CanMove(sel, s, m)
    ensures StageNumber(Moved(sel, s, m)) == StageNumber(s) + if m.On? then 0 else 1
    ensures StageNumber(s) == 1 && StageNumber(Moved(sel, s, m)) == 2 ==> Registered(s) == {}
    ensures StageNumber(Moved(sel, s, m)) == 4 && !m.On? ==> Idle(s)
    ensures Session(s) <==> StageNumber(s) <= 2
    ensures m.Lock? || m.Check? || m.Drop? ==> Moved(sel, s, m).cells == s.cells
    ensures m.On? ==> forall t :: t != m.t ==> CellOf(Moved(sel, s, m), t) == CellOf(s, t)
  {
  }

  ghost predicate NothingLeft(s: State)
  {
    s.stage.Freed? && forall t :: t in s.cells ==> s.cells[t].ops == map[] && s.cells[t].entry.None?
  }

  lemma {:induction false} NothingLeftStep(session: bool, chosen: bool, c: Cell, step: Step)
    requires Enabled(session, chosen, c, step) && !step.Invoke? && c.ops == map[] && c.entry.None? && c.signals == map[]
    ensures var r := Do(session, chosen, c, step); r.ops == map[] && r.entry.None?
  {
  }

  /** After the map is freed nobody calls and nothing is registered, in any continuation. */
  lemma {:induction false} NothingAfterFree(sel: Tid -> bool, s: State, run: seq<Move>)
    requires AllInv(sel, s) && NothingLeft(s) && CanRun(sel, s, run)
    ensures NothingLeft(Exec(sel, s, run))
    decreases |run|
  {
    hide Enabled, Do;
    if run != [] {
      var t, c := run[0].t, CellOf(s, run[0].t);
      CellIdle(sel, s, t);
      NothingLeftStep(Session(s), sel(t), c, run[0].step);
      MoveKeepsInv(sel, s, run[0]);
      NothingAfterFree(sel, Moved(sel, s, run[0]), run[1..]);
    }
  }

  lemma {:induction false} CellIdle(sel: Tid -> bool, s: State, t: Tid)
    requires AllInv(sel, s) && NothingLeft(s)
    ensures CellOf(s, t).ops == map[] && CellOf(s, t).entry.None? && CellOf(s, t).signals == map[]
  {
    assert Inv(Session(s), sel(t), CellOf(s, t));
    HandshakeRuns.SignalsIdle(Session(s), sel(t), CellOf(s, t));
  }

  lemma {:induction false} FreeLeavesNothing(sel: Tid -> bool, s: State)
    requires CanMove(sel, s, Free)
    ensures NothingLeft(Moved(sel, s, Free))
    ensures forall t :: t in s.cells ==> Moved(sel, s, Free).cells[t] == s.cells[t].(entry := None)
  {
  }
}
