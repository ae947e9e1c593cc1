/** The enable/disable handshake of `ActiveSession`, for one thread id.

    A `Cell` holds everything that concerns one thread id: whether a thread with that
    id runs, its entry in the session's map, the selector pointer the kernel keeps for
    it, the control signals sent to it and the calls that have it as their target. Any
    number of calls run at once, each at its own program counter, next to signal
    delivery, handler execution, thread exit and reuse of the id. Module `Registry`
    puts the cells of all threads together.

    Pointers to a `ThdState` are raw addresses. Following one that is not the address
    of the entry, releasing a free semaphore and acknowledging one signal twice each
    set `fault`. */
module Handshake {
  import opened Options

  type Addr = nat
  type OpId = nat
  type SigId = nat

  /** `owner` is the call that holds the entry's accessor. `since` is for the proofs: the era of
      the thread that was switched on through this entry. */
  datatype Entry = Entry(addr: Addr, on: bool, sem: int, owner: Option<OpId>, since: Option<nat>)

  datatype Phase = Queued | Entered | Dispatching | Exiting

  datatype Signal = Signal(enable: bool, ptr: Addr, sender: OpId, phase: Phase)

  datatype Pc = Start | Claimed | Sending | Waiting | Restoring | Arming | Finishing | Done(changed: bool)

  /** Who released the semaphore for a signal: the handler, run by the thread that had the
      id in that era, or the sender on finding no such thread. */
  datatype Ack = NotYet | Handled(era: nat) | FoundDead

  /** One call: add or remove, by the thread itself (`local`) or by id. `st` is the
      reference to the entry's `ThdState` that the call keeps with the accessor. */
  datatype Op = Op(add: bool, local: bool, pc: Pc, st: Addr, ack: Ack)

  /** `era` counts the threads that have carried this id. */
  datatype Cell = Cell(
    live: bool,
    era: nat,
    entry: Option<Entry>,
    kernel: Option<Addr>,
    signals: map<SigId, Signal>,
    ops: map<OpId, Op>,
    fault: bool)

  datatype Step =
    | Spawn
    | Exit
    | Invoke(o: OpId, add: bool, local: bool)
    | Skip(o: OpId)
    | Claim(o: OpId, a: Addr)
    | TakeSem(o: OpId)
    | Send(o: OpId, g: SigId)
    | Deliver(g: SigId)
    | HandlerPrctl(g: SigId)
    | HandlerArm(g: SigId)
    | HandlerExit(g: SigId)
    | AwaitAck(o: OpId)
    | RestoreSem(o: OpId)
    | LocalPrctl(o: OpId)
    | LocalArm(o: OpId)
    | Finish(o: OpId)
    | Return(o: OpId)
    | Disarm
    | Rearm

  const IDLE := Cell(false, 0, None, None, map[], map[], false)

  // ---------- Steps ----------

  predicate At(c: Cell, o: OpId, pc: Pc) { o in c.ops && c.ops[o].pc == pc }

  predicate InPhase(c: Cell, g: SigId, p: Phase) { g in c.signals && c.signals[g].phase == p }

  /** The entry is there and nobody holds its accessor. */
  predicate Unlocked(c: Cell) { c.entry.Some? && c.entry.value.owner.None? }

  predicate PointsToEntry(c: Cell, a: Addr) { c.entry.Some? && c.entry.value.addr == a }

  /** An acquire goes through when the count is positive; a freed semaphore does not block. */
  predicate SemFree(c: Cell, a: Addr) { PointsToEntry(c, a) ==> c.entry.value.sem > 0 }

  /** `chosen` is the plan's selector applied to this thread id. */
  predicate Enabled(session: bool, chosen: bool, c: Cell, step: Step)
  {
    match step
    case Spawn => !c.live
    case Exit =>
      && c.live
      && (forall o :: o in c.ops ==> !c.ops[o].local)
      && (forall g :: g in c.signals ==> c.signals[g].phase == Queued)
    case Invoke(o, add, local) => o !in c.ops && (local ==> c.live && session)
    case Skip(o) => At(c, o, Start) && (if c.ops[o].add then !chosen || Unlocked(c) else c.entry.None?)
    case Claim(o, a) =>
      At(c, o, Start) && (if c.ops[o].add then chosen && c.entry.None? else Unlocked(c) && a == c.entry.value.addr)
    case TakeSem(o) => At(c, o, Claimed) && !c.ops[o].local && SemFree(c, c.ops[o].st)
    case Send(o, g) => At(c, o, Sending) && g !in c.signals
    case Deliver(g) => InPhase(c, g, Queued) && c.live
    case HandlerPrctl(g) => InPhase(c, g, Entered)
    case HandlerArm(g) => InPhase(c, g, Dispatching)
    case HandlerExit(g) => InPhase(c, g, Exiting)
    case AwaitAck(o) => At(c, o, Waiting) && SemFree(c, c.ops[o].st)
    case RestoreSem(o) => At(c, o, Restoring)
    case LocalPrctl(o) => At(c, o, Claimed) && c.ops[o].local
    case LocalArm(o) => At(c, o, Arming)
    case Finish(o) => At(c, o, Finishing)
    case Return(o) => o in c.ops && c.ops[o].pc.Done?
    case Disarm => c.live && Unlocked(c)
    case Rearm => c.live && Unlocked(c)
  }

  function Goto(c: Cell, o: OpId, pc: Pc): Cell
    requires o in c.ops
  { c.(ops := c.ops[o := c.ops[o].(pc := pc)]) }

  function ToPhase(c: Cell, g: SigId, p: Phase): Cell
    requires g in c.signals
  { c.(signals := c.signals[g := c.signals[g].(phase := p)]) }

  function Acquire(c: Cell, a: Addr): Cell
  {
    c.(entry := if PointsToEntry(c, a) then Some(c.entry.value.(sem := c.entry.value.sem - 1)) else c.entry,
       fault := c.fault || !PointsToEntry(c, a))
  }

  function Release(c: Cell, a: Addr): Cell
  {
    c.(entry := if PointsToEntry(c, a) then Some(c.entry.value.(sem := 1)) else c.entry,
       fault := c.fault || !PointsToEntry(c, a) || c.entry.value.sem != 0)
  }

  function SetOn(c: Cell, a: Addr, on: bool): Cell
  {
    c.(entry := if PointsToEntry(c, a) then Some(c.entry.value.(on := on)) else c.entry,
       fault := c.fault || !PointsToEntry(c, a))
  }

  function Arm(c: Cell, a: Addr): Cell
  {
    c.(entry := if PointsToEntry(c, a) then Some(c.entry.value.(on := true, since := Some(c.era))) else c.entry,
       fault := c.fault || !PointsToEntry(c, a))
  }

  function Acknowledge(c: Cell, o: OpId, how: Ack): Cell
  {
    c.(ops := if o in c.ops then c.ops[o := c.ops[o].(ack := how)] else c.ops,
       fault := c.fault || o !in c.ops || c.ops[o].ack != NotYet)
  }

  function DoClaim(c: Cell, o: OpId, a: Addr): Cell
    requires o in c.ops && (c.ops[o].add || c.entry.Some?)
  {
    var e := if c.ops[o].add then Entry(a, false, 1, Some(o), None) else c.entry.value.(owner := Some(o));
    c.(entry := Some(e), ops := c.ops[o := c.ops[o].(pc := Claimed, st := a)])
  }

  function DoSend(c: Cell, o: OpId, g: SigId): Cell
    requires o in c.ops
  {
    var op := c.ops[o];
    if c.live then Goto(c.(signals := c.signals[g := Signal(op.add, op.st, o, Queued)]), o, Waiting)
    else Acknowledge(Release(Goto(c, o, Waiting), op.st), o, FoundDead)
  }

  function DoHandlerPrctl(c: Cell, g: SigId): Cell
    requires g in c.signals
  {
    var sig := c.signals[g];
    ToPhase(c.(kernel := if sig.enable then Some(sig.ptr) else None), g, if sig.enable then Dispatching else Exiting)
  }

  function DoHandlerExit(c: Cell, g: SigId): Cell
    requires g in c.signals
  {
    Acknowledge(Release(c.(signals := c.signals - {g}), c.signals[g].ptr), c.signals[g].sender, Handled(c.era))
  }

  function DoLocalPrctl(c: Cell, o: OpId): Cell
    requires o in c.ops
  {
    var op := c.ops[o];
    Goto(SetOn(c, op.st, false).(kernel := if op.add then Some(op.st) else None), o,
         if op.add then Arming else Finishing)
  }

  function DoFinish(c: Cell, o: OpId): Cell
    requires o in c.ops
  {
    var e := if c.ops[o].add && c.entry.Some? then Some(c.entry.value.(owner := None)) else None;
    Goto(c.(entry := e), o, Done(true))
  }

  function Do(session: bool, chosen: bool, c: Cell, step: Step): (r: Cell)
    requires Enabled(session, chosen, c, step)
  {
    match step
    case Spawn => c.(live := true, era := c.era + 1)
    case Exit => c.(live := false, kernel := None, signals := map[])
    case Invoke(o, add, local) => c.(ops := c.ops[o := Op(add, local, Start, 0, NotYet)])
    case Skip(o) => Goto(c, o, Done(false))
    case Claim(o, a) => DoClaim(c, o, a)
    case TakeSem(o) => Goto(Acquire(c, c.ops[o].st), o, Sending)
    case Send(o, g) => DoSend(c, o, g)
    case Deliver(g) => ToPhase(c, g, if session then Entered else Exiting)
    case HandlerPrctl(g) => DoHandlerPrctl(c, g)
    case HandlerArm(g) => ToPhase(Arm(c, c.signals[g].ptr), g, Exiting)
    case HandlerExit(g) => DoHandlerExit(c, g)
    case AwaitAck(o) => Goto(Acquire(c, c.ops[o].st), o, Restoring)
    case RestoreSem(o) => Goto(Release(c, c.ops[o].st), o, Finishing)
    case LocalPrctl(o) => DoLocalPrctl(c, o)
    case LocalArm(o) => Goto(Arm(c, c.ops[o].st), o, Finishing)
    case Finish(o) => DoFinish(c, o)
    case Return(o) => c.(ops := c.ops - {o})
    case Disarm => SetOn(c, c.entry.value.addr, false)
    case Rearm => SetOn(c, c.entry.value.addr, true)
  }

  // ---------- What every step keeps ----------

  /** The call holds the accessor of the entry. */
  predicate Holding(op: Op) { !op.pc.Start? && !op.pc.Done? }

  /** The semaphore count that the owner's program counter stands for. */
  function SemAt(op: Op): int
  {
    match op.pc
    case Sending => 0
    case Waiting => if op.ack == NotYet then 0 else 1
    case Restoring => 0
    case _ => 1
  }

  predicate OpShape(op: Op)
  {
    match op.pc
    case Start => op.ack == NotYet
    case Claimed => op.ack == NotYet
    case Sending => !op.local && op.ack == NotYet
    case Waiting => !op.local
    case Restoring => !op.local && op.ack != NotYet
    case Arming => op.local && op.add
    case Finishing => op.local || op.ack != NotYet
    case Done(_) => true
  }

  ghost predicate OpsOk(c: Cell)
  {
    forall o :: o in c.ops ==>
      && OpShape(c.ops[o])
      && (c.ops[o].local ==> c.live || c.ops[o].pc.Done?)
      && (c.ops[o].ack.Handled? ==> c.ops[o].ack.era <= c.era)
      && (Holding(c.ops[o]) ==> c.entry.Some? && c.entry.value.owner == Some(o))
  }

  /** The thread's system calls trap: dispatch is on, through its own entry, and armed. */
  predicate Injecting(c: Cell)
  {
    c.entry.Some? && c.entry.value.on && c.kernel == Some(c.entry.value.addr)
  }

  /** A removal whose target has been switched off, as far as the call knows. */
  predicate SwitchedOff(op: Op) { !op.add && Holding(op) && (op.ack != NotYet || op.pc.Finishing?) }

  /** An addition whose target, still the same live thread, has been switched on. */
  predicate SwitchedOn(c: Cell, op: Op)
  {
    op.add && Holding(op) && c.live && (if op.local then op.pc.Finishing? else op.ack == Handled(c.era))
  }

  ghost predicate EntryOk(session: bool, c: Cell)
  {
    c.entry.Some? ==>
      var e := c.entry.value;
      match e.owner
      case None => e.sem == 1
      case Some(o) =>
        && o in c.ops && Holding(c.ops[o]) && c.ops[o].st == e.addr && e.sem == SemAt(c.ops[o])
        && (SwitchedOff(c.ops[o]) ==> c.kernel.None?)
        && (SwitchedOn(c, c.ops[o]) && session ==> Injecting(c))
        && (c.ops[o].pc.Arming? ==> c.kernel == Some(e.addr))
        && (c.ops[o].add && (c.ops[o].pc.Claimed? || c.ops[o].pc.Sending?) ==> c.kernel.None?)
        && (c.ops[o].pc.Waiting? && c.ops[o].ack == NotYet && c.signals == map[] ==> c.kernel.None?)
  }

  /** A signal in flight belongs to the call that holds the entry and points to that entry. */
  ghost predicate SignalOk(session: bool, c: Cell, g: SigId)
    requires g in c.signals
  {
    var sig := c.signals[g];
    && c.live
    && PointsToEntry(c, sig.ptr) && c.entry.value.owner == Some(sig.sender)
    && At(c, sig.sender, Waiting) && c.ops[sig.sender].ack == NotYet && c.ops[sig.sender].add == sig.enable
    && (sig.enable && (sig.phase == Queued || sig.phase == Entered) ==> c.kernel.None?)
    && (sig.phase == Dispatching ==> sig.enable && c.kernel == Some(sig.ptr))
    && (sig.phase == Exiting ==> if sig.enable then session ==> Injecting(c) else c.kernel.None?)
  }

  ghost predicate SignalsOk(session: bool, c: Cell)
  {
    && (forall g :: g in c.signals ==> SignalOk(session, c, g))
    && (forall g, h :: g in c.signals && h in c.signals ==> g == h)
  }

  /** A disable handler has found the session and is about to switch the thread off. */
  ghost predicate SwitchingOff(c: Cell) { exists g :: InPhase(c, g, Entered) && !c.signals[g].enable }

  /** No call by the thread itself is in flight. */
  predicate NoLocal(c: Cell) { forall o :: o in c.ops ==> !c.ops[o].local }

  /** Without a session nothing is dispatched, unless it is being switched off, and nothing is
      about to be dispatched. */
  ghost predicate QuietOk(c: Cell)
  {
    && (c.kernel.Some? ==> SwitchingOff(c))
    && NoLocal(c)
    && (forall g :: g in c.signals && c.signals[g].enable ==>
        c.signals[g].phase == Queued || c.signals[g].phase == Exiting)
  }

  /** Dropping the session does no harm to the thread: no enable handler is past its look at
      the session, and the thread is not dispatched, unless a disable handler has found the
      session already. */
  ghost predicate ResetOk(c: Cell)
  {
    && (forall g :: g in c.signals && c.signals[g].enable ==> c.signals[g].phase == Queued)
    && (c.kernel.Some? ==> SwitchingOff(c))
  }

  /** What a caller may rely on: no fault, a dispatched thread is live and the kernel's
      selector pointer is its own entry's, the entry is of a chosen thread, and its
      semaphore is 0 or 1 and free whenever nobody holds the entry. */
  ghost predicate Safe(chosen: bool, c: Cell)
  {
    && !c.fault
    && (c.kernel.Some? ==> c.live && PointsToEntry(c, c.kernel.value))
    && (c.entry.Some? ==> chosen && 0 <= c.entry.value.sem <= 1)
    && (Unlocked(c) ==> c.entry.value.sem == 1)
  }

  ghost predicate Inv(session: bool, chosen: bool, c: Cell)
  {
    && Safe(chosen, c) && OpsOk(c) && EntryOk(session, c) && SignalsOk(session, c) && (session || QuietOk(c))
  }

  lemma {:induction false} ThreadStep(session: bool, chosen: bool, c: Cell, step: Step)
    requires step.Spawn? || step.Exit? || step.Disarm? || step.Rearm?
    requires Inv(session, chosen, c) && Enabled(session, chosen, c, step)
    ensures Inv(session, chosen, Do(session, chosen, c, step))
  {
  }

  lemma {:induction false} InvokeStep(session: bool, chosen: bool, c: Cell, step: Step)
    requires step.Invoke?
    requires Inv(session, chosen, c) && Enabled(session, chosen, c, step)
    ensures Inv(session, chosen, Do(session, chosen, c, step))
  {
  }

  lemma {:induction false} ReturnStep(session: bool, chosen: bool, c: Cell, step: Step)
    requires step.Return?
    requires Inv(session, chosen, c) && Enabled(session, chosen, c, step)
    ensures Inv(session, chosen, Do(session, chosen, c, step))
  {
  }

  lemma {:induction false} SkipStep(session: bool, chosen: bool, c: Cell, step: Step)
    requires step.Skip?
    requires Inv(session, chosen, c) && Enabled(session, chosen, c, step)
    ensures Inv(session, chosen, Do(session, chosen, c, step))
  {
  }

  lemma {:induction false} AccessorStep(session: bool, chosen: bool, c: Cell, step: Step)
    requires step.Claim? || step.Finish?
    requires Inv(session, chosen, c) && Enabled(session, chosen, c, step)
    ensures Inv(session, chosen, Do(session, chosen, c, step))
  {
  }

  lemma {:induction false} AcquireStep(session: bool, chosen: bool, c: Cell, step: Step)
    requires step.TakeSem? || step.AwaitAck?
    requires Inv(session, chosen, c) && Enabled(session, chosen, c, step)
    ensures Inv(session, chosen, Do(session, chosen, c, step))
  {
  }

  lemma {:induction false} ReleaseStep(session: bool, chosen: bool, c: Cell, step: Step)
    requires step.RestoreSem?
    requires Inv(session, chosen, c) && Enabled(session, chosen, c, step)
    ensures Inv(session, chosen, Do(session, chosen, c, step))
  {
  }

  lemma {:induction false} SendStep(session: bool, chosen: bool, c: Cell, step: Step)
    requires step.Send?
    requires Inv(session, chosen, c) && Enabled(session, chosen, c, step)
    ensures Inv(session, chosen, Do(session, chosen, c, step))
  {
  }

  lemma {:induction false} DeliverStep(session: bool, chosen: bool, c: Cell, step: Step)
    requires step.Deliver?
    requires Inv(session, chosen, c) && Enabled(session, chosen, c, step)
    ensures Inv(session, chosen, Do(session, chosen, c, step))
  {
    assert step.g in Do(session, chosen, c, step).signals;
  }

  lemma {:induction false} PrctlStep(session: bool, chosen: bool, c: Cell, step: Step)
    requires step.HandlerPrctl?
    requires Inv(session, chosen, c) && Enabled(session, chosen, c, step)
    ensures Inv(session, chosen, Do(session, chosen, c, step))
  {
    assert step.g in Do(session, chosen, c, step).signals;
  }

  lemma {:induction false} HandlerEndStep(session: bool, chosen: bool, c: Cell, step: Step)
    requires step.HandlerArm? || step.HandlerExit?
    requires Inv(session, chosen, c) && Enabled(session, chosen, c, step)
    ensures Inv(session, chosen, Do(session, chosen, c, step))
  {
  }

  lemma {:induction false} LocalStep(session: bool, chosen: bool, c: Cell, step: Step)
    requires step.LocalPrctl? || step.LocalArm?
    requires Inv(session, chosen, c) && Enabled(session, chosen, c, step)
    ensures Inv(session, chosen, Do(session, chosen, c, step))
  {
  }

  /** Every enabled step keeps the invariant. */
  lemma {:induction false} StepKeepsInv(session: bool, chosen: bool, c: Cell, step: Step)
    requires Inv(session, chosen, c) && Enabled(session, chosen, c, step)
    ensures Inv(session, chosen, Do(session, chosen, c, step))
  {
    match step
    case Spawn => ThreadStep(session, chosen, c, step);
    case Exit => ThreadStep(session, chosen, c, step);
    case Disarm => ThreadStep(session, chosen, c, step);
    case Rearm => ThreadStep(session, chosen, c, step);
    case Invoke(_, _, _) => InvokeStep(session, chosen, c, step);
    case Return(_) => ReturnStep(session, chosen, c, step);
    case Skip(_) => SkipStep(session, chosen, c, step);
    case Claim(_, _) => AccessorStep(session, chosen, c, step);
    case Finish(_) => AccessorStep(session, chosen, c, step);
    case TakeSem(_) => AcquireStep(session, chosen, c, step);
    case AwaitAck(_) => AcquireStep(session, chosen, c, step);
    case RestoreSem(_) => ReleaseStep(session, chosen, c, step);
    case Send(_, _) => SendStep(session, chosen, c, step);
    case Deliver(_) => DeliverStep(session, chosen, c, step);
    case HandlerPrctl(_) => PrctlStep(session, chosen, c, step);
    case HandlerArm(_) => HandlerEndStep(session, chosen, c, step);
    case HandlerExit(_) => HandlerEndStep(session, chosen, c, step);
    case LocalPrctl(_) => LocalStep(session, chosen, c, step);
    case LocalArm(_) => LocalStep(session, chosen, c, step);
  }
}
