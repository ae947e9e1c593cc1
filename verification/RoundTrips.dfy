/** Adding a thread and removing it again, with nothing else going on: in between the thread traps,
    and afterwards everything is as it was. By the thread itself and by id it comes to the same. */
module RoundTrips {
  import opened Options
  import opened Handshake
  import opened HandshakeRuns

  /** A live thread without an entry, and nobody calling. */
  function Bare(era: nat): Cell { Cell(true, era, None, None, map[], map[], false) }

  /** The thread with an entry through which it is trapped. */
  function Trapped(era: nat, a: Addr): Cell
  {
    Cell(true, era, Some(Entry(a, true, 1, None, Some(era))), Some(a), map[], map[], false)
  }

  /** Call 0 is the only call, and has the entry. */
  function Held(era: nat, e: Entry, kernel: Option<Addr>, signals: map<SigId, Signal>, op: Op): Cell
  {
    Cell(true, era, Some(e.(owner := Some(0))), kernel, signals, map[0 := op], false)
  }

  /** The step leads from one cell to the other, with a session and for a chosen thread. */
  predicate Leads(c: Cell, step: Step, r: Cell)
  {
    Enabled(true, true, c, step) && Do(true, true, c, step) == r
  }

  lemma {:induction false} Going(c: Cell, step: Step, r: Cell, steps: seq<Step>) returns (run: seq<Step>)
    requires Leads(c, step, r) && CanRun(true, true, r, steps)
    ensures run == [step] + steps && CanRun(true, true, c, run)
    ensures Exec(true, true, c, run) == Exec(true, true, r, steps)
  {
    hide Enabled, Do, PlainRun, ById;
    run := RunOf(true, true, c, step, steps);
  }

  // ---------- The steps ----------

  lemma {:induction false} Starts(c: Cell, add: bool, local: bool)
    requires c.live && c.ops == map[]
    ensures Leads(c, Invoke(0, add, local), c.(ops := map[0 := Op(add, local, Start, 0, NotYet)]))
  {
  }

  lemma {:induction false} TakesNew(era: nat, a: Addr, local: bool)
    ensures var op := Op(true, local, Start, 0, NotYet);
            Leads(Bare(era).(ops := map[0 := op]), Claim(0, a),
                  Held(era, Entry(a, false, 1, None, None), None, map[], op.(pc := Claimed, st := a)))
  {
  }

  lemma {:induction false} TakesOld(era: nat, a: Addr, local: bool)
    ensures var op := Op(false, local, Start, 0, NotYet);
            Leads(Trapped(era, a).(ops := map[0 := op]), Claim(0, a),
                  Held(era, Entry(a, true, 1, None, Some(era)), Some(a), map[], op.(pc := Claimed, st := a)))
  {
  }

  lemma {:induction false} GivesBack(era: nat, e: Entry, kernel: Option<Addr>, op: Op)
    requires op.pc == Finishing
    ensures Leads(Held(era, e, kernel, map[], op), Finish(0),
                  Cell(true, era, if op.add then Some(e.(owner := None)) else None, kernel, map[],
                       map[0 := op.(pc := Done(true))], false))
  {
  }

  lemma {:induction false} Returns(c: Cell, op: Op)
    requires c.ops == map[0 := op] && op.pc.Done?
    ensures Leads(c, Return(0), c.(ops := map[]))
  {
  }

  /** The last two steps of a call. */
  lemma {:induction false} Ends(era: nat, e: Entry, kernel: Option<Addr>, op: Op) returns (steps: seq<Step>)
    requires op.pc == Finishing
    ensures var c := Held(era, e, kernel, map[], op);
            && CanRun(true, true, c, steps)
            && Exec(true, true, c, steps) ==
               Cell(true, era, if op.add then Some(e.(owner := None)) else None, kernel, map[], map[], false)
  {
    hide Leads;
    var c := Held(era, e, kernel, map[], op);
    var d := Cell(true, era, if op.add then Some(e.(owner := None)) else None, kernel, map[],
                  map[0 := op.(pc := Done(true))], false);
    GivesBack(era, e, kernel, op);
    Returns(d, op.(pc := Done(true)));
    steps := Going(d, Return(0), d.(ops := map[]), []);
    steps := Going(c, Finish(0), d, steps);
  }

  // ---------- By the thread itself ----------

  lemma {:induction false} Switches(era: nat, e: Entry, kernel: Option<Addr>, op: Op)
    requires op.local && op.pc == Claimed && op.st == e.addr
    ensures Leads(Held(era, e, kernel, map[], op), LocalPrctl(0),
                  Held(era, e.(on := false), if op.add then Some(e.addr) else None, map[],
                       op.(pc := if op.add then Arming else Finishing)))
  {
  }

  lemma {:induction false} Arms(era: nat, e: Entry, kernel: Option<Addr>, op: Op)
    requires op.pc == Arming && op.st == e.addr
    ensures Leads(Held(era, e, kernel, map[], op), LocalArm(0),
                  Held(era, e.(on := true, since := Some(era)), kernel, map[], op.(pc := Finishing)))
  {
  }

  lemma {:induction false} AddsItself(era: nat, a: Addr) returns (steps: seq<Step>)
    ensures CanRun(true, true, Bare(era), steps) && Exec(true, true, Bare(era), steps) == Trapped(era, a)
    ensures steps != [] && steps[0] == Invoke(0, true, true)
  {
    hide Leads, Enabled, Do;
    var op := Op(true, true, Start, 0, NotYet);
    var claimed := op.(pc := Claimed, st := a);
    var e, f := Entry(a, false, 1, None, None), Entry(a, true, 1, None, Some(era));
    Starts(Bare(era), true, true);
    TakesNew(era, a, true);
    Switches(era, e, None, claimed);
    Arms(era, e, Some(a), claimed.(pc := Arming));
    steps := Ends(era, f, Some(a), claimed.(pc := Finishing));
    var c2 := Held(era, e, None, map[], claimed);
    var c3 := Held(era, e, Some(a), map[], claimed.(pc := Arming));
    var c4 := Held(era, f, Some(a), map[], claimed.(pc := Finishing));
    assert e.(on := false) == e && e.(on := true, since := Some(era)) == f;
    steps := Going(c3, LocalArm(0), c4, steps);
    steps := Going(c2, LocalPrctl(0), c3, steps);
    steps := Going(Bare(era).(ops := map[0 := op]), Claim(0, a), c2, steps);
    steps := Going(Bare(era), Invoke(0, true, true), Bare(era).(ops := map[0 := op]), steps);
  }

  lemma {:induction false} RemovesItself(era: nat, a: Addr) returns (steps: seq<Step>)
    ensures CanRun(true, true, Trapped(era, a), steps) && Exec(true, true, Trapped(era, a), steps) == Bare(era)
    ensures steps != [] && steps[0] == Invoke(0, false, true)
  {
    hide Leads, Enabled, Do;
    var op := Op(false, true, Start, 0, NotYet);
    var claimed := op.(pc := Claimed, st := a);
    var e := Entry(a, true, 1, None, Some(era));
    Starts(Trapped(era, a), false, true);
    TakesOld(era, a, true);
    Switches(era, e, Some(a), claimed);
    steps := Ends(era, e.(on := false), None, claimed.(pc := Finishing));
    var c2 := Held(era, e, Some(a), map[], claimed);
    var c3 := Held(era, e.(on := false), None, map[], claimed.(pc := Finishing));
    steps := Going(c2, LocalPrctl(0), c3, steps);
    steps := Going(Trapped(era, a).(ops := map[0 := op]), Claim(0, a), c2, steps);
    steps := Going(Trapped(era, a), Invoke(0, false, true), Trapped(era, a).(ops := map[0 := op]), steps);
  }

  // ---------- By id ----------

  lemma {:induction false} TakesSem(era: nat, e: Entry, kernel: Option<Addr>, op: Op)
    requires !op.local && op.pc == Claimed && op.st == e.addr && e.sem == 1
    ensures Leads(Held(era, e, kernel, map[], op), TakeSem(0),
                  Held(era, e.(sem := 0), kernel, map[], op.(pc := Sending)))
  {
  }

  lemma {:induction false} Sends(era: nat, e: Entry, kernel: Option<Addr>, op: Op)
    requires op.pc == Sending
    ensures Leads(Held(era, e, kernel, map[], op), Send(0, 0),
                  Held(era, e, kernel, map[0 := Signal(op.add, op.st, 0, Queued)], op.(pc := Waiting)))
  {
  }

  lemma {:induction false} Enters(era: nat, e: Entry, kernel: Option<Addr>, sig: Signal, op: Op)
    requires sig.phase == Queued
    ensures Leads(Held(era, e, kernel, map[0 := sig], op), Deliver(0),
                  Held(era, e, kernel, map[0 := sig.(phase := Entered)], op))
  {
  }

  lemma {:induction false} HandlerSwitches(era: nat, e: Entry, kernel: Option<Addr>, sig: Signal, op: Op)
    requires sig.phase == Entered
    ensures Leads(Held(era, e, kernel, map[0 := sig], op), HandlerPrctl(0),
                  Held(era, e, if sig.enable then Some(sig.ptr) else None,
                       map[0 := sig.(phase := if sig.enable then Dispatching else Exiting)], op))
  {
  }

  lemma {:induction false} HandlerArms(era: nat, e: Entry, kernel: Option<Addr>, sig: Signal, op: Op)
    requires sig.phase == Dispatching && sig.ptr == e.addr
    ensures Leads(Held(era, e, kernel, map[0 := sig], op), HandlerArm(0),
                  Held(era, e.(on := true, since := Some(era)), kernel, map[0 := sig.(phase := Exiting)], op))
  {
  }

  lemma {:induction false} HandlerEnds(era: nat, e: Entry, kernel: Option<Addr>, sig: Signal, op: Op)
    requires sig.phase == Exiting && sig.ptr == e.addr && sig.sender == 0 && e.sem == 0 && op.ack == NotYet
    ensures Leads(Held(era, e, kernel, map[0 := sig], op), HandlerExit(0),
                  Held(era, e.(sem := 1), kernel, map[], op.(ack := Handled(era))))
  {
  }

  lemma {:induction false} Acquires(era: nat, e: Entry, kernel: Option<Addr>, op: Op)
    requires op.pc == Waiting && op.st == e.addr && e.sem == 1
    ensures Leads(Held(era, e, kernel, map[], op), AwaitAck(0),
                  Held(era, e.(sem := 0), kernel, map[], op.(pc := Restoring)))
  {
  }

  lemma {:induction false} Restores(era: nat, e: Entry, kernel: Option<Addr>, op: Op)
    requires op.pc == Restoring && op.st == e.addr && e.sem == 0
    ensures Leads(Held(era, e, kernel, map[], op), RestoreSem(0),
                  Held(era, e.(sem := 1), kernel, map[], op.(pc := Finishing)))
  {
  }

  /** A call by id from the end of its handler on. */
  lemma {:induction false} EndsById(era: nat, e: Entry, kernel: Option<Addr>, sig: Signal, op: Op)
    returns (steps: seq<Step>)
    requires sig.phase == Exiting && sig.ptr == e.addr && sig.sender == 0 && e.sem == 0
    requires op.pc == Waiting && op.ack == NotYet && op.st == e.addr
    ensures var c := Held(era, e, kernel, map[0 := sig], op);
            && CanRun(true, true, c, steps)
            && Exec(true, true, c, steps) ==
               Cell(true, era, if op.add then Some(e.(sem := 1, owner := None)) else None, kernel, map[], map[], false)
  {
    hide Leads, Enabled, Do;
    var acked := op.(ack := Handled(era));
    var up := e.(sem := 1);
    HandlerEnds(era, e, kernel, sig, op);
    Acquires(era, up, kernel, acked);
    Restores(era, up.(sem := 0), kernel, acked.(pc := Restoring));
    steps := Ends(era, up, kernel, acked.(pc := Finishing));
    assert up.(sem := 0).(sem := 1) == up;
    var c2 := Held(era, up, kernel, map[], acked);
    var c3 := Held(era, up.(sem := 0), kernel, map[], acked.(pc := Restoring));
    steps := Going(c3, RestoreSem(0), Held(era, up, kernel, map[], acked.(pc := Finishing)), steps);
    steps := Going(c2, AwaitAck(0), c3, steps);
    steps := Going(Held(era, e, kernel, map[0 := sig], op), HandlerExit(0), c2, steps);
  }

  /** A call by id up to the start of its handler. */
  lemma {:induction false} StartsById(era: nat, e: Entry, kernel: Option<Addr>, op: Op, steps: seq<Step>)
    returns (run: seq<Step>)
    requires !op.local && op.pc == Claimed && op.st == e.addr && e.sem == 1
    requires CanRun(true, true, Held(era, e.(sem := 0), kernel, map[0 := Signal(op.add, op.st, 0, Entered)],
                                     op.(pc := Waiting)), steps)
    ensures CanRun(true, true, Held(era, e, kernel, map[], op), run)
    ensures Exec(true, true, Held(era, e, kernel, map[], op), run) ==
            Exec(true, true, Held(era, e.(sem := 0), kernel, map[0 := Signal(op.add, op.st, 0, Entered)],
                                  op.(pc := Waiting)), steps)
  {
    hide Leads, Enabled, Do;
    var sig, down := Signal(op.add, op.st, 0, Queued), e.(sem := 0);
    TakesSem(era, e, kernel, op);
    Sends(era, down, kernel, op.(pc := Sending));
    Enters(era, down, kernel, sig, op.(pc := Waiting));
    var c1 := Held(era, down, kernel, map[], op.(pc := Sending));
    var c2 := Held(era, down, kernel, map[0 := sig], op.(pc := Waiting));
    var c3 := Held(era, down, kernel, map[0 := sig.(phase := Entered)], op.(pc := Waiting));
    run := Going(c2, Deliver(0), c3, steps);
    run := Going(c1, Send(0, 0), c2, run);
    run := Going(Held(era, e, kernel, map[], op), TakeSem(0), c1, run);
  }

  lemma {:induction false} AddsById(era: nat, a: Addr) returns (steps: seq<Step>)
    ensures CanRun(true, true, Bare(era), steps) && Exec(true, true, Bare(era), steps) == Trapped(era, a)
    ensures steps != [] && steps[0] == Invoke(0, true, false)
  {
    hide Leads, Enabled, Do;
    var op := Op(true, false, Start, 0, NotYet);
    var claimed := op.(pc := Claimed, st := a);
    var waiting := claimed.(pc := Waiting);
    var e := Entry(a, false, 1, None, None);
    var down, on := e.(sem := 0), Entry(a, true, 0, None, Some(era));
    var sig := Signal(true, a, 0, Entered);
    Starts(Bare(era), true, false);
    TakesNew(era, a, false);
    HandlerSwitches(era, down, None, sig, waiting);
    HandlerArms(era, down, Some(a), sig.(phase := Dispatching), waiting);
    steps := EndsById(era, on, Some(a), sig.(phase := Exiting), waiting);
    var c3 := Held(era, down, Some(a), map[0 := sig.(phase := Dispatching)], waiting);
    steps := Going(c3, HandlerArm(0), Held(era, on, Some(a), map[0 := sig.(phase := Exiting)], waiting), steps);
    steps := Going(Held(era, down, None, map[0 := sig], waiting), HandlerPrctl(0), c3, steps);
    steps := StartsById(era, e, None, claimed, steps);
    steps := Going(Bare(era).(ops := map[0 := op]), Claim(0, a), Held(era, e, None, map[], claimed), steps);
    steps := Going(Bare(era), Invoke(0, true, false), Bare(era).(ops := map[0 := op]), steps);
  }

  lemma {:induction false} RemovesById(era: nat, a: Addr) returns (steps: seq<Step>)
    ensures CanRun(true, true, Trapped(era, a), steps) && Exec(true, true, Trapped(era, a), steps) == Bare(era)
    ensures steps != [] && steps[0] == Invoke(0, false, false)
  {
    hide Leads, Enabled, Do;
    var op := Op(false, false, Start, 0, NotYet);
    var claimed := op.(pc := Claimed, st := a);
    var waiting := claimed.(pc := Waiting);
    var e := Entry(a, true, 1, None, Some(era));
    var down, sig := e.(sem := 0), Signal(false, a, 0, Entered);
    Starts(Trapped(era, a), false, false);
    TakesOld(era, a, false);
    HandlerSwitches(era, down, Some(a), sig, waiting);
    steps := EndsById(era, down, None, sig.(phase := Exiting), waiting);
    var c3 := Held(era, down, None, map[0 := sig.(phase := Exiting)], waiting);
    steps := Going(Held(era, down, Some(a), map[0 := sig], waiting), HandlerPrctl(0), c3, steps);
    steps := StartsById(era, e, Some(a), claimed, steps);
    steps := Going(Trapped(era, a).(ops := map[0 := op]), Claim(0, a), Held(era, e, Some(a), map[], claimed), steps);
    steps := Going(Trapped(era, a), Invoke(0, false, false), Trapped(era, a).(ops := map[0 := op]), steps);
  }

  /** A thread can be added, by itself or by id, and removed, by itself or by id, and is then as it
      was before; in between its calls trap. */
  lemma {:induction false} AddThenRemove(era: nat, a: Addr, addLocal: bool, removeLocal: bool)
    returns (adding: seq<Step>, removing: seq<Step>)
    ensures CanRun(true, true, Bare(era), adding)
    ensures var mid := Exec(true, true, Bare(era), adding);
            && Injecting(mid) && mid.ops == map[]
            && CanRun(true, true, mid, removing) && Exec(true, true, mid, removing) == Bare(era)
    ensures adding != [] && adding[0] == Invoke(0, true, addLocal)
    ensures removing != [] && removing[0] == Invoke(0, false, removeLocal)
  {
    hide Enabled, Do;
    if addLocal { adding := AddsItself(era, a); } else { adding := AddsById(era, a); }
    if removeLocal { removing := RemovesItself(era, a); } else { removing := RemovesById(era, a); }
  }
}
