/** The selector byte: a thread is trapped when the kernel dispatches its calls through its entry
    and the entry's byte is on. Nothing but disarming takes that away from a dispatched thread. */
module Trapping {
  import opened Options
  import opened RegistrySpec
  import opened Handshake
  import HandshakeRuns
  import IdReuse
  import Registry

  /** A dispatched thread traps, unless it is just being switched on. */
  ghost predicate Traps(c: Cell) { c.kernel.Some? && !IdReuse.Arming(c) ==> Injecting(c) }

  /** While the entry is being set up, and while a thread removes itself, its byte is off. */
  ghost predicate OffMeanwhile(c: Cell)
  {
    c.entry.Some? && c.entry.value.owner.Some? && c.entry.value.owner.value in c.ops ==>
      var e, op := c.entry.value, c.ops[c.entry.value.owner.value];
      && (op.add && e.since.None? ==> !e.on)
      && (!op.add && op.local && op.pc.Finishing? ==> !e.on)
  }

  lemma {:induction false} HandlerKeepsTraps(session: bool, chosen: bool, c: Cell, step: Step)
    requires Inv(session, chosen, c) && Traps(c) && Enabled(session, chosen, c, step) && IdReuse.ByHandler(step)
    ensures Traps(Do(session, chosen, c, step))
  {
    var r := Do(session, chosen, c, step);
    assert SignalOk(session, c, step.g);
    assert forall g :: g in c.signals ==> g == step.g;
    if step.HandlerPrctl? { assert c.signals[step.g].enable ==> InPhase(r, step.g, Dispatching); }
    assert InPhase(c, step.g, Dispatching) <==> step.HandlerArm?;
  }

  lemma {:induction false} HolderKeepsTraps(session: bool, chosen: bool, c: Cell, step: Step)
    requires Inv(session, chosen, c) && Traps(c) && Enabled(session, chosen, c, step)
    requires step.LocalPrctl? || step.LocalArm? || step.Claim? || step.Finish?
    ensures Traps(Do(session, chosen, c, step))
  {
    assert forall g :: g in c.signals ==> SignalOk(session, c, g);
  }

  lemma {:induction false} OtherKeepsTraps(session: bool, chosen: bool, c: Cell, step: Step)
    requires Inv(session, chosen, c) && Traps(c) && Enabled(session, chosen, c, step)
    requires !IdReuse.ByHandler(step) && !step.LocalPrctl? && !step.LocalArm? && !step.Claim? && !step.Finish?
    requires !step.Disarm?
    ensures Traps(Do(session, chosen, c, step))
  {
    var r := Do(session, chosen, c, step);
    assert forall g :: InPhase(r, g, Dispatching) ==> InPhase(c, g, Dispatching);
    assert forall g :: InPhase(c, g, Dispatching) && !step.Exit? ==> InPhase(r, g, Dispatching);
    if c.entry.Some? && c.entry.value.owner.Some? {
      var p := c.entry.value.owner.value;
      assert Holding(c.ops[p]);
      assert p in r.ops && (At(r, p, Pc.Arming) <==> At(c, p, Pc.Arming));
    }
  }

  /** Every step but disarming keeps a dispatched thread trapped. */
  lemma {:induction false} StepKeepsTraps(session: bool, chosen: bool, c: Cell, step: Step)
    requires Inv(session, chosen, c) && Traps(c) && Enabled(session, chosen, c, step) && !step.Disarm?
    ensures Traps(Do(session, chosen, c, step))
  {
    hide Inv, Enabled, Do, Traps;
    if IdReuse.ByHandler(step) {
      HandlerKeepsTraps(session, chosen, c, step);
    } else if step.LocalPrctl? || step.LocalArm? || step.Claim? || step.Finish? {
      HolderKeepsTraps(session, chosen, c, step);
    } else {
      OtherKeepsTraps(session, chosen, c, step);
    }
  }

  /** Disarming ends it and re-arming brings it back, with everything else as it was. */
  lemma {:induction false} DisarmAndRearm(session: bool, chosen: bool, c: Cell)
    requires Inv(session, chosen, c) && c.live && Unlocked(c)
    ensures !Injecting(Do(session, chosen, c, Disarm)) && Traps(Do(session, chosen, c, Rearm))
    ensures Injecting(c) ==> Do(session, chosen, Do(session, chosen, c, Disarm), Rearm) == c
  {
  }

  /** A call that finds nothing to do changes nothing but itself. */
  lemma {:induction false} RedundantChangesNothing(session: bool, chosen: bool, c: Cell, o: OpId)
    requires Enabled(session, chosen, c, Skip(o))
    ensures var r := Do(session, chosen, c, Skip(o));
            r == c.(ops := r.ops) && HandshakeRuns.OthersSame(c, r, o) && r.ops[o] == c.ops[o].(pc := Done(false))
  {
  }

  /** Who may change what: a thread's life only its start and its exit, what the kernel holds only
      the exit and the two switches, the signals only their own steps, and the selector byte goes
      on only by arming and off only by disarming or before a thread's own switch. */
  lemma {:induction false} OthersLeaveAlone(session: bool, chosen: bool, c: Cell, step: Step)
    requires Enabled(session, chosen, c, step)
    ensures var r := Do(session, chosen, c, step);
            && (!step.Spawn? && !step.Exit? ==> r.live == c.live && r.era == c.era)
            && (!step.Exit? && !step.HandlerPrctl? && !step.LocalPrctl? ==> r.kernel == c.kernel)
            && (!step.Send? && !step.Exit? && !IdReuse.ByHandler(step) ==> r.signals == c.signals)
            && (On(r) && !On(c) ==> step.Rearm? || step.HandlerArm? || step.LocalArm?)
            && (On(c) && !On(r) && r.entry.Some? ==> step.Disarm? || step.LocalPrctl?)
  {
  }

  predicate On(c: Cell) { c.entry.Some? && c.entry.value.on }

  lemma {:induction false} StepKeepsOff(session: bool, chosen: bool, c: Cell, step: Step)
    requires Inv(session, chosen, c) && OffMeanwhile(c) && Enabled(session, chosen, c, step)
    ensures OffMeanwhile(Do(session, chosen, c, step))
  {
  }

  // ---------- Over whole runs ----------

  ghost predicate TrapsAt(s: Registry.State, t: Tid)
  {
    Traps(Registry.CellOf(s, t)) && OffMeanwhile(Registry.CellOf(s, t))
  }

  lemma {:induction false} MoveKeepsTraps(sel: Tid -> bool, s: Registry.State, m: Registry.Move, t: Tid)
    requires Registry.AllInv(sel, s) && TrapsAt(s, t) && Registry.CanMove(sel, s, m) && m != Registry.On(t, Disarm)
    requires m.Drop? ==> Registry.DropOk(s)
    ensures TrapsAt(Registry.Moved(sel, s, m), t)
  {
    hide Enabled, Do, Traps, OffMeanwhile;
    match m
    case On(u, step) =>
      if u == t {
        var c := Registry.CellOf(s, t);
        CellInv(sel, s, t);
        StepKeepsTraps(Registry.Session(s), sel(t), c, step);
        StepKeepsOff(Registry.Session(s), sel(t), c, step);
      }
    case Free =>
      Registry.FreeKeepsInv(sel, s);
      var r := Registry.Moved(sel, s, m);
      CellInv(sel, r, t);
      NoEntryTraps(Registry.Session(r), sel(t), Registry.CellOf(r, t));
    case _ =>
  }

  lemma {:induction false} CellInv(sel: Tid -> bool, s: Registry.State, t: Tid)
    requires Registry.AllInv(sel, s)
    ensures Inv(Registry.Session(s), sel(t), Registry.CellOf(s, t))
  {
  }

  lemma {:induction false} NoEntryTraps(session: bool, chosen: bool, c: Cell)
    requires Inv(session, chosen, c) && c.entry.None?
    ensures Traps(c) && OffMeanwhile(c)
  {
  }

  lemma {:induction false} RunKeepsTraps(sel: Tid -> bool, s: Registry.State, run: seq<Registry.Move>, t: Tid)
    requires Registry.AllInv(sel, s) && TrapsAt(s, t) && Registry.CanRun(sel, s, run) && Registry.DropsOk(sel, s, run)
    requires Registry.On(t, Disarm) !in run
    ensures TrapsAt(Registry.Exec(sel, s, run), t)
    decreases |run|
  {
    hide TrapsAt, Registry.AllInv, Registry.CanMove, Registry.Moved;
    if run != [] {
      Registry.MoveKeepsInv(sel, s, run[0]);
      MoveKeepsTraps(sel, s, run[0], t);
      RunKeepsTraps(sel, Registry.Moved(sel, s, run[0]), run[1..], t);
    }
  }

  /** In every state that a session reaches: a live registered thread that nobody holds and that
      has not been disarmed traps if and only if it is the thread that was switched on, whatever
      redundant calls and other threads' calls there have been. */
  lemma {:induction false} TrapsAlways(sel: Tid -> bool, s: Registry.State, run: seq<Registry.Move>, t: Tid)
    requires Registry.Init(s) && Registry.CanRun(sel, s, run) && Registry.DropsOk(sel, s, run)
    requires Registry.On(t, Disarm) !in run
    requires var c := Registry.CellOf(Registry.Exec(sel, s, run), t); c.live && Unlocked(c)
    ensures var c := Registry.CellOf(Registry.Exec(sel, s, run), t);
            Injecting(c) <==> c.entry.value.since == Some(c.era)
  {
    assert Registry.AllInv(sel, s);
    var c0 := Registry.CellOf(s, t);
    assert c0.kernel.None? && c0.entry.None?;
    RunKeepsTraps(sel, s, run, t);
    IdReuse.DispatchedAlways(sel, s, run, t);
    Registry.RunKeepsInv(sel, s, run);
    var r := Registry.Exec(sel, s, run);
    UnlockedTraps(Registry.Session(r), sel(t), r.cells[t]);
  }

  lemma {:induction false} UnlockedTraps(session: bool, chosen: bool, c: Cell)
    requires Inv(session, chosen, c) && Traps(c) && Unlocked(c)
    ensures Injecting(c) <==> c.kernel == Some(c.entry.value.addr)
  {
    HandshakeRuns.SignalsIdle(session, chosen, c);
  }
}
