/** Registered and dispatched are not the same: a thread id can be given to a new thread while the
    entry of the old one is still in the map. Exactly the thread that was switched on through the
    entry is dispatched. */
module IdReuse {
  import opened Options
  import opened RegistrySpec
  import opened Handshake
  import HandshakeRuns
  import Registry

  /** A handler or a call of the thread itself is between switching dispatch on and arming it. */
  ghost predicate Arming(c: Cell)
  {
    || (exists g :: InPhase(c, g, Dispatching))
    || (c.entry.Some? && c.entry.value.owner.Some? && At(c, c.entry.value.owner.value, Pc.Arming))
  }

  /** A removal holds the entry. */
  predicate BeingRemoved(c: Cell)
  {
    c.entry.Some? && c.entry.value.owner.Some? && c.entry.value.owner.value in c.ops &&
    !c.ops[c.entry.value.owner.value].add
  }

  ghost predicate SinceOk(c: Cell)
  {
    c.entry.Some? ==>
      var e := c.entry.value;
      && (e.since.Some? ==> e.since.value <= c.era)
      && (c.kernel.Some? && !Arming(c) ==> e.since == Some(c.era))
      && (c.live && e.since == Some(c.era) && !BeingRemoved(c) ==> c.kernel.Some?)
  }

  /** A step of a handler. */
  predicate ByHandler(step: Step) { step.Deliver? || step.HandlerPrctl? || step.HandlerArm? || step.HandlerExit? }

  lemma {:induction false} HandlerKeepsSince(session: bool, chosen: bool, c: Cell, step: Step)
    requires Inv(session, chosen, c) && SinceOk(c) && Enabled(session, chosen, c, step) && ByHandler(step)
    ensures SinceOk(Do(session, chosen, c, step))
  {
    var r := Do(session, chosen, c, step);
    assert SignalOk(session, c, step.g);
    assert forall g :: g in c.signals ==> g == step.g;
    if step.HandlerPrctl? { assert c.signals[step.g].enable ==> InPhase(r, step.g, Dispatching); }
    assert InPhase(c, step.g, Dispatching) <==> step.HandlerArm?;
  }

  lemma {:induction false} ThreadKeepsSince(session: bool, chosen: bool, c: Cell, step: Step)
    requires Inv(session, chosen, c) && SinceOk(c) && Enabled(session, chosen, c, step)
    requires step.Spawn? || step.Exit? || step.Disarm? || step.Rearm?
    ensures SinceOk(Do(session, chosen, c, step))
  {
  }

  lemma {:induction false} AccessorKeepsSince(session: bool, chosen: bool, c: Cell, step: Step)
    requires Inv(session, chosen, c) && SinceOk(c) && Enabled(session, chosen, c, step)
    requires step.Claim? || step.Finish?
    ensures SinceOk(Do(session, chosen, c, step))
  {
    assert forall g :: g in c.signals ==> SignalOk(session, c, g);
  }

  lemma {:induction false} LocalKeepsSince(session: bool, chosen: bool, c: Cell, step: Step)
    requires Inv(session, chosen, c) && SinceOk(c) && Enabled(session, chosen, c, step)
    requires step.LocalPrctl? || step.LocalArm?
    ensures SinceOk(Do(session, chosen, c, step))
  {
  }

  lemma {:induction false} EdgeKeepsSince(session: bool, chosen: bool, c: Cell, step: Step)
    requires Inv(session, chosen, c) && SinceOk(c) && Enabled(session, chosen, c, step)
    requires step.Invoke? || step.Return? || step.Skip?
    ensures SinceOk(Do(session, chosen, c, step))
  {
    var r := Do(session, chosen, c, step);
    assert forall g :: InPhase(r, g, Dispatching) <==> InPhase(c, g, Dispatching);
    if c.entry.Some? && c.entry.value.owner.Some? {
      var p := c.entry.value.owner.value;
      assert Holding(c.ops[p]) && p != step.o && r.ops[p] == c.ops[p];
      assert At(r, p, Pc.Arming) <==> At(c, p, Pc.Arming);
    }
  }

  lemma {:induction false} SemKeepsSince(session: bool, chosen: bool, c: Cell, step: Step)
    requires Inv(session, chosen, c) && SinceOk(c) && Enabled(session, chosen, c, step)
    requires step.TakeSem? || step.AwaitAck? || step.RestoreSem?
    ensures SinceOk(Do(session, chosen, c, step))
  {
  }

  lemma {:induction false} SendKeepsSince(session: bool, chosen: bool, c: Cell, step: Step)
    requires Inv(session, chosen, c) && SinceOk(c) && Enabled(session, chosen, c, step)
    requires step.Send?
    ensures SinceOk(Do(session, chosen, c, step))
  {
  }

  lemma {:induction false} StepKeepsSince(session: bool, chosen: bool, c: Cell, step: Step)
    requires Inv(session, chosen, c) && SinceOk(c) && Enabled(session, chosen, c, step)
    ensures SinceOk(Do(session, chosen, c, step))
  {
    hide Inv, Enabled, Do, SinceOk;
    if ByHandler(step) {
      HandlerKeepsSince(session, chosen, c, step);
    } else if step.Spawn? || step.Exit? || step.Disarm? || step.Rearm? {
      ThreadKeepsSince(session, chosen, c, step);
    } else if step.Claim? || step.Finish? {
      AccessorKeepsSince(session, chosen, c, step);
    } else if step.LocalPrctl? || step.LocalArm? {
      LocalKeepsSince(session, chosen, c, step);
    } else if step.Invoke? || step.Return? || step.Skip? {
      EdgeKeepsSince(session, chosen, c, step);
    } else if step.Send? {
      SendKeepsSince(session, chosen, c, step);
    } else {
      SemKeepsSince(session, chosen, c, step);
    }
  }

  /** A live thread whose entry nobody holds is dispatched through it if and only if it is the
      very thread that was switched on through it. */
  lemma {:induction false} DispatchedExactly(session: bool, chosen: bool, c: Cell)
    requires Inv(session, chosen, c) && SinceOk(c) && Unlocked(c) && c.live
    ensures c.kernel == Some(c.entry.value.addr) <==> c.entry.value.since == Some(c.era)
  {
    HandshakeRuns.SignalsIdle(session, chosen, c);
  }

  // ---------- Over whole runs ----------

  ghost predicate AllSince(s: Registry.State) { forall t :: t in s.cells ==> SinceOk(s.cells[t]) }

  lemma {:induction false} RunKeepsSince(sel: Tid -> bool, s: Registry.State, run: seq<Registry.Move>)
    requires Registry.AllInv(sel, s) && AllSince(s) && Registry.CanRun(sel, s, run) && Registry.DropsOk(sel, s, run)
    ensures AllSince(Registry.Exec(sel, s, run))
    decreases |run|
  {
    hide Inv, Enabled, Do;
    if run != [] {
      Registry.MoveKeepsInv(sel, s, run[0]);
      MoveKeepsSince(sel, s, run[0]);
      RunKeepsSince(sel, Registry.Moved(sel, s, run[0]), run[1..]);
    }
  }

  lemma {:induction false} CellSince(sel: Tid -> bool, s: Registry.State, t: Tid)
    requires Registry.AllInv(sel, s) && AllSince(s)
    ensures Inv(Registry.Session(s), sel(t), Registry.CellOf(s, t)) && SinceOk(Registry.CellOf(s, t))
  {
  }

  lemma {:induction false} FreeKeepsSince(sel: Tid -> bool, s: Registry.State)
    requires Registry.CanMove(sel, s, Registry.Free)
    ensures AllSince(Registry.Moved(sel, s, Registry.Free))
  {
  }

  lemma {:induction false} MoveKeepsSince(sel: Tid -> bool, s: Registry.State, m: Registry.Move)
    requires Registry.AllInv(sel, s) && AllSince(s) && Registry.CanMove(sel, s, m)
    ensures AllSince(Registry.Moved(sel, s, m))
  {
    hide Enabled, Do, Inv, SinceOk;
    match m
    case On(t, step) =>
      CellSince(sel, s, t);
      StepKeepsSince(Registry.Session(s), sel(t), Registry.CellOf(s, t), step);
    case Free => FreeKeepsSince(sel, s);
    case _ =>
  }

  /** In every state that a session reaches: a registered live thread whose entry nobody holds is
      dispatched if and only if it is the thread that was switched on, and not one that got its
      id later. */
  lemma {:induction false} DispatchedAlways(sel: Tid -> bool, s: Registry.State, run: seq<Registry.Move>, t: Tid)
    requires Registry.Init(s) && Registry.CanRun(sel, s, run) && Registry.DropsOk(sel, s, run)
    requires var c := Registry.CellOf(Registry.Exec(sel, s, run), t); c.live && Unlocked(c)
    ensures var c := Registry.CellOf(Registry.Exec(sel, s, run), t);
            c.kernel == Some(c.entry.value.addr) <==> c.entry.value.since == Some(c.era)
  {
    assert Registry.AllInv(sel, s) && AllSince(s);
    Registry.RunKeepsInv(sel, s, run);
    RunKeepsSince(sel, s, run);
    var r := Registry.Exec(sel, s, run);
    DispatchedExactly(Registry.Session(r), sel(t), r.cells[t]);
  }

  // ---------- A thread that is never switched on ----------

  /** The entry is there, nobody holds it and nobody is about to remove it, and the thread is not
      dispatched. */
  ghost predicate Overlooked(c: Cell)
  {
    && Unlocked(c) && c.kernel.None? && c.signals == map[]
    && forall o :: o in c.ops ==> c.ops[o].add && !Holding(c.ops[o])
  }

  /** A thread is added, exits, and a new thread gets its id before anybody notices. */
  lemma {:induction false} OverlookedReached() returns (steps: seq<Step>)
    ensures HandshakeRuns.CanRun(true, true, IDLE, steps)
    ensures var r := HandshakeRuns.Exec(true, true, IDLE, steps); r.live && Overlooked(r)
  {
    steps := HandshakeRuns.AddedReached();
    var c := Do(true, true, HandshakeRuns.ADDED, Exit);
    var more := HandshakeRuns.RunOf(true, true, c, Spawn, []);
    more := HandshakeRuns.RunOf(true, true, HandshakeRuns.ADDED, Exit, more);
    steps := HandshakeRuns.RunAfter(true, true, IDLE, steps, more);
  }

  lemma {:induction false} OverlookedStep(session: bool, chosen: bool, c: Cell, step: Step)
    requires Overlooked(c) && Enabled(session, chosen, c, step) && (step.Invoke? ==> step.add)
    ensures Overlooked(Do(session, chosen, c, step))
  {
  }

  /** Such a thread is not switched on by any number of additions, by id or by itself: they find
      the entry and return. It takes a removal first. */
  lemma {:induction false} OverlookedStays(session: bool, chosen: bool, c: Cell, steps: seq<Step>)
    requires Overlooked(c) && HandshakeRuns.CanRun(session, chosen, c, steps)
    requires forall i :: 0 <= i < |steps| && steps[i].Invoke? ==> steps[i].add
    ensures Overlooked(HandshakeRuns.Exec(session, chosen, c, steps))
    decreases |steps|
  {
    hide Enabled, Do, Overlooked;
    if steps != [] {
      OverlookedStep(session, chosen, c, steps[0]);
      OverlookedStays(session, chosen, Do(session, chosen, c, steps[0]), steps[1..]);
    }
  }
}
