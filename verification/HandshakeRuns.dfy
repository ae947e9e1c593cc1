/** Whole runs of one cell: what a call may rely on when it returns, exactly which calls
    can never return, and exactly when the session may be dropped. */
module HandshakeRuns {
  import opened Options
  import opened Handshake

  predicate CanRun(session: bool, chosen: bool, c: Cell, steps: seq<Step>)
    decreases |steps|
  {
    steps == [] ||
    (Enabled(session, chosen, c, steps[0]) && CanRun(session, chosen, Do(session, chosen, c, steps[0]), steps[1..]))
  }

  function Exec(session: bool, chosen: bool, c: Cell, steps: seq<Step>): (r: Cell)
    requires CanRun(session, chosen, c, steps)
    decreases |steps|
  {
    if steps == [] then c else Exec(session, chosen, Do(session, chosen, c, steps[0]), steps[1..])
  }

  lemma {:induction false} RunKeepsInv(session: bool, chosen: bool, c: Cell, steps: seq<Step>)
    requires Inv(session, chosen, c) && CanRun(session, chosen, c, steps)
    ensures Inv(session, chosen, Exec(session, chosen, c, steps))
    decreases |steps|
  {
    if steps != [] {
      StepKeepsInv(session, chosen, c, steps[0]);
      RunKeepsInv(session, chosen, Do(session, chosen, c, steps[0]), steps[1..]);
    }
  }

  /** A run goes one step further. */
  lemma {:induction false} RunOf(session: bool, chosen: bool, c: Cell, step: Step, steps: seq<Step>)
    returns (run: seq<Step>)
    requires Enabled(session, chosen, c, step)
    requires CanRun(session, chosen, Do(session, chosen, c, step), steps)
    ensures run == [step] + steps && CanRun(session, chosen, c, run)
    ensures Exec(session, chosen, c, run) == Exec(session, chosen, Do(session, chosen, c, step), steps)
    ensures Plain(c, step) && (steps == [] || PlainRun(session, chosen, Do(session, chosen, c, step), steps)) ==>
              PlainRun(session, chosen, c, run)
    ensures (step.Invoke? ==> !step.local) && (steps == [] || ById(steps)) ==> ById(run)
  {
    run := [step] + steps;
    assert run[1..] == steps;
  }

  /** No call by a thread for itself starts. */
  predicate ById(steps: seq<Step>) { forall i :: 0 <= i < |steps| && steps[i].Invoke? ==> !steps[i].local }

  /** A step that creates no entry. */
  predicate Plain(c: Cell, step: Step) { step.Claim? ==> c.entry.Some? }

  ghost predicate PlainRun(session: bool, chosen: bool, c: Cell, steps: seq<Step>)
    requires CanRun(session, chosen, c, steps)
    decreases |steps|
  {
    steps == [] || (Plain(c, steps[0]) && PlainRun(session, chosen, Do(session, chosen, c, steps[0]), steps[1..]))
  }

  /** A signal is in flight only while a call waits for its handler. */
  lemma {:induction false} SignalsIdle(session: bool, chosen: bool, c: Cell)
    requires Inv(session, chosen, c)
    requires c.entry.Some? && c.entry.value.owner.Some? ==> !At(c, c.entry.value.owner.value, Waiting)
    ensures c.signals == map[]
  {
    assert c.signals.Keys == {};
  }

  // ---------- What holds when a call is about to return ----------

  /** A call by id gets to its last step only after its signal's handler ended or no such
      thread was found, and by then no signal is in flight. An addition then leaves the
      thread trapping, if it is still the thread that ran the handler; a removal leaves it
      undispatched and takes the entry away. */
  lemma {:induction false} FinishDelivers(session: bool, chosen: bool, c: Cell, o: OpId)
    requires Inv(session, chosen, c) && Enabled(session, chosen, c, Finish(o))
    ensures c.ops[o].local || c.ops[o].ack != NotYet
    ensures c.signals == map[]
    ensures c.ops[o].add && session && c.live && (c.ops[o].local || c.ops[o].ack == Handled(c.era)) ==>
              Injecting(Do(session, chosen, c, Finish(o)))
    ensures !c.ops[o].add ==>
              Do(session, chosen, c, Finish(o)).kernel.None? && Do(session, chosen, c, Finish(o)).entry.None?
  {
    SignalsIdle(session, chosen, c);
  }

  /** A semaphore goes up only when a handler ends, when no thread is found, or when the
      call that holds the entry puts it back; the first two happen once for each signal. */
  lemma {:induction false} ReleasesAreAcknowledged(session: bool, chosen: bool, c: Cell, step: Step)
    requires Inv(session, chosen, c) && Enabled(session, chosen, c, step)
    requires c.entry.Some? && Do(session, chosen, c, step).entry.Some?
    requires Do(session, chosen, c, step).entry.value.sem > c.entry.value.sem
    ensures c.entry.value.owner.Some? && c.entry.value.sem == 0
    ensures var o := c.entry.value.owner.value;
            var r := Do(session, chosen, c, step);
            || step == RestoreSem(o)
            || (c.ops[o].ack == NotYet && o in r.ops && r.ops[o].ack == FoundDead && step.Send? && !c.live)
            || (c.ops[o].ack == NotYet && o in r.ops && r.ops[o].ack == Handled(c.era) && step.HandlerExit? && c.live)
  {
  }

  // ---------- Which calls are stuck ----------

  /** The thread accepted the call's signal and exited before running the handler. */
  ghost predicate Lost(c: Cell, o: OpId)
  {
    At(c, o, Waiting) && c.ops[o].ack == NotYet && (forall g :: g in c.signals ==> c.signals[g].sender != o)
  }

  /** A new thread that call 0, an addition by id, has just given an entry. */
  const CLAIMED := Cell(true, 1, Some(Entry(0, false, 1, Some(0), None)), None, map[],
                        map[0 := Op(true, false, Claimed, 0, NotYet)], false)

  lemma {:induction false} FromClaimed(steps: seq<Step>) returns (run: seq<Step>)
    requires CanRun(true, true, CLAIMED, steps) && ById(steps)
    ensures CanRun(true, true, IDLE, run) && ById(run)
    ensures Exec(true, true, IDLE, run) == Exec(true, true, CLAIMED, steps)
  {
    hide PlainRun, ById;
    var c1 := Do(true, true, IDLE, Spawn);
    var c2 := Do(true, true, c1, Invoke(0, true, false));
    assert Do(true, true, c2, Claim(0, 0)).ops == CLAIMED.ops;
    run := RunOf(true, true, c2, Claim(0, 0), steps);
    run := RunOf(true, true, c1, Invoke(0, true, false), run);
    run := RunOf(true, true, IDLE, Spawn, run);
  }

  /** A new thread is added by id and exits before its handler runs: the call is lost. */
  lemma {:induction false} LostReached() returns (steps: seq<Step>)
    ensures CanRun(true, true, IDLE, steps) && Lost(Exec(true, true, IDLE, steps), 0)
  {
    hide PlainRun, ById;
    var c1 := Do(true, true, CLAIMED, TakeSem(0));
    var c2 := Do(true, true, c1, Send(0, 0));
    steps := RunOf(true, true, c2, Exit, []);
    steps := RunOf(true, true, c1, Send(0, 0), steps);
    steps := RunOf(true, true, CLAIMED, TakeSem(0), steps);
    steps := FromClaimed(steps);
  }

  /** The new thread after its handler has armed it. */
  const ARMED := Cell(true, 1, Some(Entry(0, true, 0, Some(0), Some(1))), Some(0),
                      map[0 := Signal(true, 0, 0, Exiting)],
                      map[0 := Op(true, false, Waiting, 0, NotYet)], false)

  /** The new thread after the addition has returned. */
  const ADDED := Cell(true, 1, Some(Entry(0, true, 1, None, Some(1))), Some(0), map[], map[], false)

  lemma {:induction false} ArmedReturns() returns (steps: seq<Step>)
    ensures CanRun(true, true, ARMED, steps) && ById(steps)
    ensures Exec(true, true, ARMED, steps) == ADDED
  {
    hide PlainRun, ById;
    var c1 := Do(true, true, ARMED, HandlerExit(0));
    var c2 := Do(true, true, c1, AwaitAck(0));
    var c3 := Do(true, true, c2, RestoreSem(0));
    var c4 := Do(true, true, c3, Finish(0));
    assert Do(true, true, c4, Return(0)).ops == map[] && c1.signals == map[];
    steps := RunOf(true, true, c4, Return(0), []);
    steps := RunOf(true, true, c3, Finish(0), steps);
    steps := RunOf(true, true, c2, RestoreSem(0), steps);
    steps := RunOf(true, true, c1, AwaitAck(0), steps);
    steps := RunOf(true, true, ARMED, HandlerExit(0), steps);
  }

  lemma {:induction false} ClaimedArms(steps: seq<Step>) returns (run: seq<Step>)
    requires CanRun(true, true, ARMED, steps) && ById(steps)
    ensures CanRun(true, true, CLAIMED, run) && ById(run)
    ensures Exec(true, true, CLAIMED, run) == Exec(true, true, ARMED, steps)
  {
    hide PlainRun, ById;
    var c1 := Do(true, true, CLAIMED, TakeSem(0));
    var c2 := Do(true, true, c1, Send(0, 0));
    var c3 := Do(true, true, c2, Deliver(0));
    var c4 := Do(true, true, c3, HandlerPrctl(0));
    assert Do(true, true, c4, HandlerArm(0)).ops == ARMED.ops;
    assert Do(true, true, c4, HandlerArm(0)).signals == ARMED.signals;
    run := RunOf(true, true, c4, HandlerArm(0), steps);
    run := RunOf(true, true, c3, HandlerPrctl(0), run);
    run := RunOf(true, true, c2, Deliver(0), run);
    run := RunOf(true, true, c1, Send(0, 0), run);
    run := RunOf(true, true, CLAIMED, TakeSem(0), run);
  }

  /** The whole way of an addition by id on a new thread, undisturbed. */
  lemma {:induction false} AddedReached() returns (steps: seq<Step>)
    ensures CanRun(true, true, IDLE, steps) && ById(steps)
    ensures Exec(true, true, IDLE, steps) == ADDED
  {
    steps := ArmedReturns();
    steps := ClaimedArms(steps);
    steps := FromClaimed(steps);
  }

  /** A signal gets lost in one way only: the thread exits before it has taken the signal. */
  lemma {:induction false} LosesExactly(session: bool, chosen: bool, c: Cell, o: OpId, step: Step)
    requires Inv(session, chosen, c) && !Lost(c, o) && Enabled(session, chosen, c, step)
    ensures Lost(Do(session, chosen, c, step), o) <==>
            step.Exit? && exists g :: InPhase(c, g, Queued) && c.signals[g].sender == o
  {
    var r := Do(session, chosen, c, step);
    if step.Send? { assert step.o == o && c.live ==> step.g in r.signals; }
    if step.Deliver? || step.HandlerPrctl? || step.HandlerArm? { assert step.g in r.signals; }
  }

  lemma {:induction false} LostStays(session: bool, chosen: bool, c: Cell, o: OpId, step: Step)
    requires Inv(session, chosen, c) && Lost(c, o) && Enabled(session, chosen, c, step)
    ensures Lost(Do(session, chosen, c, step), o)
  {
    assert OpShape(c.ops[o]) && Holding(c.ops[o]);
  }

  function PhaseRank(p: Phase): nat
  {
    match p case Queued => 4 case Entered => 3 case Dispatching => 2 case Exiting => 1
  }

  /** How many steps a call that holds the entry still has to wait for. */
  ghost function Rank(c: Cell, o: OpId): nat
    requires o in c.ops
  {
    match c.ops[o].pc
    case Claimed => 10
    case Sending => 9
    case Waiting => if g :| g in c.signals && c.signals[g].sender == o then 3 + PhaseRank(c.signals[g].phase) else 3
    case Arming => 2
    case Restoring => 2
    case Finishing => 1
    case _ => 0
  }

  /** A step of the call or of the handler of its signal. */
  predicate Serves(c: Cell, o: OpId, step: Step)
  {
    match step
    case TakeSem(p) => p == o
    case Send(p, _) => p == o
    case AwaitAck(p) => p == o
    case RestoreSem(p) => p == o
    case LocalPrctl(p) => p == o
    case LocalArm(p) => p == o
    case Finish(p) => p == o
    case Deliver(g) => g in c.signals && c.signals[g].sender == o
    case HandlerPrctl(g) => g in c.signals && c.signals[g].sender == o
    case HandlerArm(g) => g in c.signals && c.signals[g].sender == o
    case HandlerExit(g) => g in c.signals && c.signals[g].sender == o
    case _ => false
  }

  /** The handler of a signal in flight always has a next step. */
  lemma {:induction false} HandlerProgress(session: bool, chosen: bool, c: Cell, o: OpId) returns (step: Step)
    requires Inv(session, chosen, c) && At(c, o, Waiting) && c.ops[o].ack == NotYet && !Lost(c, o)
    ensures Enabled(session, chosen, c, step) && Serves(c, o, step)
    ensures var r := Do(session, chosen, c, step);
            At(r, o, Waiting) && !Lost(r, o) && Rank(r, o) < Rank(c, o)
  {
    var g :| g in c.signals && c.signals[g].sender == o;
    assert SignalOk(session, c, g);
    step := match c.signals[g].phase
      case Queued => Deliver(g)
      case Entered => HandlerPrctl(g)
      case Dispatching => HandlerArm(g)
      case Exiting => HandlerExit(g);
    assert c.signals[g].phase != Exiting ==> g in Do(session, chosen, c, step).signals;
  }

  /** A call that holds the entry and has not lost its signal always has a next step. */
  lemma {:induction false} Progress(session: bool, chosen: bool, c: Cell, o: OpId) returns (step: Step)
    requires Inv(session, chosen, c) && o in c.ops && Holding(c.ops[o]) && !Lost(c, o)
    ensures Enabled(session, chosen, c, step) && Serves(c, o, step)
    ensures var r := Do(session, chosen, c, step);
            o in r.ops && (r.ops[o].pc.Done? || (Holding(r.ops[o]) && !Lost(r, o))) && Rank(r, o) < Rank(c, o)
  {
    var op := c.ops[o];
    match op.pc
    case Claimed =>
      step := if op.local then LocalPrctl(o) else TakeSem(o);
    case Sending =>
      SignalsIdle(session, chosen, c);
      step := Send(o, 0);
      if c.live { assert 0 in Do(session, chosen, c, step).signals; }
    case Waiting =>
      if op.ack == NotYet { step := HandlerProgress(session, chosen, c, o); } else { step := AwaitAck(o); }
    case Restoring => step := RestoreSem(o);
    case Arming => step := LocalArm(o);
    case Finishing => step := Finish(o);
  }

  /** The calls in flight are the same, and those other than `o` have not moved. */
  ghost predicate OthersSame(c: Cell, r: Cell, o: OpId)
  {
    r.ops.Keys == c.ops.Keys && forall p :: p in c.ops && p != o ==> r.ops[p] == c.ops[p]
  }

  lemma {:induction false} ServingMovesOne(session: bool, chosen: bool, c: Cell, o: OpId, step: Step)
    requires Inv(session, chosen, c) && Enabled(session, chosen, c, step) && Serves(c, o, step) && o in c.ops
    ensures OthersSame(c, Do(session, chosen, c, step), o)
  {
  }

  lemma {:induction false} Completes(session: bool, chosen: bool, c: Cell, o: OpId) returns (steps: seq<Step>)
    requires Inv(session, chosen, c) && o in c.ops && Holding(c.ops[o]) && !Lost(c, o)
    ensures CanRun(session, chosen, c, steps)
    ensures var r := Exec(session, chosen, c, steps);
            o in r.ops && r.ops[o].pc.Done? && OthersSame(c, r, o)
    decreases Rank(c, o)
  {
    var step := Progress(session, chosen, c, o);
    var r := Do(session, chosen, c, step);
    StepKeepsInv(session, chosen, c, step);
    ServingMovesOne(session, chosen, c, o, step);
    steps := [];
    if !r.ops[o].pc.Done? { steps := Completes(session, chosen, r, o); }
    steps := RunOf(session, chosen, c, step, steps);
  }

  lemma {:induction false} RankOfSignal(session: bool, chosen: bool, c: Cell, o: OpId, g: SigId)
    requires Inv(session, chosen, c) && g in c.signals && c.signals[g].sender == o && o in c.ops
    ensures Rank(c, o) == 3 + PhaseRank(c.signals[g].phase)
  {
    assert SignalOk(session, c, g);
  }

  /** No step takes a call that holds the entry further from its end, and every step of the
      call or its handler brings it nearer. */
  lemma {:induction false} StepRank(session: bool, chosen: bool, c: Cell, o: OpId, step: Step)
    requires Inv(session, chosen, c) && Enabled(session, chosen, c, step) && o in c.ops && Holding(c.ops[o])
    ensures var r := Do(session, chosen, c, step);
            && o in r.ops && (r.ops[o].pc.Done? || Holding(r.ops[o]))
            && Rank(r, o) + (if Serves(c, o, step) then 1 else 0) <= Rank(c, o)
  {
    var r := Do(session, chosen, c, step);
    StepKeepsInv(session, chosen, c, step);
    hide PhaseRank;
    PhaseRanks();
    if g :| g in r.signals && r.signals[g].sender == o {
      RankOfSignal(session, chosen, r, o, g);
      if g in c.signals { RankOfSignal(session, chosen, c, o, g); }
    }
    if g :| g in c.signals && c.signals[g].sender == o {
      RankOfSignal(session, chosen, c, o, g);
    }
  }

  lemma {:induction false} PhaseRanks()
    ensures PhaseRank(Queued) == 4 && PhaseRank(Entered) == 3 && PhaseRank(Dispatching) == 2 && PhaseRank(Exiting) == 1
  {
  }

  /** How many steps of the run serve the call. */
  ghost function Served(session: bool, chosen: bool, c: Cell, steps: seq<Step>, o: OpId): nat
    requires CanRun(session, chosen, c, steps)
    decreases |steps|
  {
    if steps == [] then 0
    else Served(session, chosen, Do(session, chosen, c, steps[0]), steps[1..], o) +
         if Serves(c, o, steps[0]) then 1 else 0
  }

  /** The call comes to its end in the run. */
  predicate EndsIn(session: bool, chosen: bool, c: Cell, steps: seq<Step>, o: OpId)
    requires CanRun(session, chosen, c, steps)
    decreases |steps|
  {
    || (o in c.ops && c.ops[o].pc.Done?)
    || (steps != [] && EndsIn(session, chosen, Do(session, chosen, c, steps[0]), steps[1..], o))
  }

  /** Whatever else happens in between: a call that holds the entry comes to its end in every
      run with ten steps of the call or its handler. By `Progress` such a step is possible
      until the end is reached or the signal is lost. */
  lemma {:induction false} ServedCallsEnd(session: bool, chosen: bool, c: Cell, steps: seq<Step>, o: OpId)
    requires Inv(session, chosen, c) && o in c.ops && Holding(c.ops[o]) && CanRun(session, chosen, c, steps)
    ensures Rank(c, o) <= 10
    ensures Served(session, chosen, c, steps, o) >= Rank(c, o) ==> EndsIn(session, chosen, c, steps, o)
    decreases |steps|
  {
    hide Serves, Enabled, Inv;
    RankBounds(c, o);
    if steps != [] {
      var r := Do(session, chosen, c, steps[0]);
      StepRank(session, chosen, c, o, steps[0]);
      StepKeepsInv(session, chosen, c, steps[0]);
      if Holding(r.ops[o]) { ServedCallsEnd(session, chosen, r, steps[1..], o); }
    }
  }

  lemma {:induction false} RankBounds(c: Cell, o: OpId)
    requires o in c.ops
    ensures Rank(c, o) <= 10 && (Holding(c.ops[o]) ==> Rank(c, o) > 0)
  {
  }

  ghost predicate CanReturn(session: bool, chosen: bool, c: Cell, o: OpId)
  {
    exists steps ::
      CanRun(session, chosen, c, steps) && o in Exec(session, chosen, c, steps).ops &&
      Exec(session, chosen, c, steps).ops[o].pc.Done?
  }

  /** The entry is held by a call that has lost its signal. */
  ghost predicate LostEntry(c: Cell)
  {
    c.entry.Some? && c.entry.value.owner.Some? && Lost(c, c.entry.value.owner.value)
  }

  /** A call that has lost its signal, or one that needs the entry such a call holds. */
  ghost predicate Stuck(chosen: bool, c: Cell, o: OpId)
  {
    Lost(c, o) || (At(c, o, Start) && LostEntry(c) && (c.ops[o].add ==> chosen))
  }

  lemma {:induction false} StuckStays(session: bool, chosen: bool, c: Cell, o: OpId, step: Step)
    requires Inv(session, chosen, c) && Stuck(chosen, c, o) && Enabled(session, chosen, c, step)
    ensures Stuck(chosen, Do(session, chosen, c, step), o)
  {
    var r := Do(session, chosen, c, step);
    if Lost(c, o) {
      LostStays(session, chosen, c, o, step);
    } else {
      var p := c.entry.value.owner.value;
      LostStays(session, chosen, c, p, step);
      StepKeepsInv(session, chosen, c, step);
      assert Holding(r.ops[p]);
    }
  }

  lemma {:induction false} StuckForever(session: bool, chosen: bool, c: Cell, o: OpId, steps: seq<Step>)
    requires Inv(session, chosen, c) && Stuck(chosen, c, o) && CanRun(session, chosen, c, steps)
    ensures Stuck(chosen, Exec(session, chosen, c, steps), o)
    decreases |steps|
  {
    if steps != [] {
      StuckStays(session, chosen, c, o, steps[0]);
      StepKeepsInv(session, chosen, c, steps[0]);
      StuckForever(session, chosen, Do(session, chosen, c, steps[0]), o, steps[1..]);
    }
  }

  /** A call that has not got hold of the entry, when it can be had or is not there. */
  lemma {:induction false} StartCompletes(session: bool, chosen: bool, c: Cell, o: OpId) returns (steps: seq<Step>)
    requires Inv(session, chosen, c) && At(c, o, Start) && (c.entry.None? || c.entry.value.owner.None?)
    ensures CanRun(session, chosen, c, steps)
    ensures var r := Exec(session, chosen, c, steps); o in r.ops && r.ops[o].pc.Done?
  {
    hide PlainRun, ById;
    var step := if Enabled(session, chosen, c, Skip(o)) then Skip(o)
                else Claim(o, if c.entry.Some? then c.entry.value.addr else 0);
    var r := Do(session, chosen, c, step);
    StepKeepsInv(session, chosen, c, step);
    steps := [];
    if !step.Skip? { steps := Completes(session, chosen, r, o); }
    steps := RunOf(session, chosen, c, step, steps);
  }

  lemma {:induction false} RunAfter(session: bool, chosen: bool, c: Cell, steps: seq<Step>, more: seq<Step>)
    returns (run: seq<Step>)
    requires CanRun(session, chosen, c, steps) && CanRun(session, chosen, Exec(session, chosen, c, steps), more)
    ensures CanRun(session, chosen, c, run)
    ensures Exec(session, chosen, c, run) == Exec(session, chosen, Exec(session, chosen, c, steps), more)
    decreases |steps|
  {
    hide PlainRun, ById, Enabled, Do;
    run := more;
    if steps != [] {
      run := RunAfter(session, chosen, Do(session, chosen, c, steps[0]), steps[1..], more);
      run := RunOf(session, chosen, c, steps[0], run);
    }
  }

  lemma {:induction false} OwnerGone(session: bool, chosen: bool, c: Cell, r: Cell, p: OpId)
    requires Inv(session, chosen, c) && Inv(session, chosen, r) && OthersSame(c, r, p)
    requires c.entry.Some? && c.entry.value.owner == Some(p) && p in r.ops && r.ops[p].pc.Done?
    ensures r.entry.None? || r.entry.value.owner.None?
  {
  }

  /** A call that waits for the entry while another call holds it and can still return. */
  lemma {:induction false} StartCompletesAfter(session: bool, chosen: bool, c: Cell, o: OpId) returns (steps: seq<Step>)
    requires Inv(session, chosen, c) && At(c, o, Start) && c.entry.Some? && c.entry.value.owner.Some? && !LostEntry(c)
    ensures CanRun(session, chosen, c, steps)
    ensures var r := Exec(session, chosen, c, steps); o in r.ops && r.ops[o].pc.Done?
  {
    hide Enabled, Do, PlainRun, ById;
    var p := c.entry.value.owner.value;
    steps := Completes(session, chosen, c, p);
    var r := Exec(session, chosen, c, steps);
    RunKeepsInv(session, chosen, c, steps);
    OwnerGone(session, chosen, c, r, p);
    var more := StartCompletes(session, chosen, r, o);
    steps := RunAfter(session, chosen, c, steps, more);
  }

  /** Any call can still return if and only if it has not lost its signal and does not need an
      entry that is held by one that has. */
  lemma {:induction false} StuckExactlyWhenLost(session: bool, chosen: bool, c: Cell, o: OpId)
    requires Inv(session, chosen, c) && o in c.ops
    ensures CanReturn(session, chosen, c, o) <==> !Stuck(chosen, c, o)
  {
    hide Inv, Enabled, Do;
    if Stuck(chosen, c, o) {
      forall steps | CanRun(session, chosen, c, steps)
        ensures !(o in Exec(session, chosen, c, steps).ops && Exec(session, chosen, c, steps).ops[o].pc.Done?)
      {
        StuckForever(session, chosen, c, o, steps);
      }
    } else {
      var steps := ReturnsUnstuck(session, chosen, c, o);
    }
  }

  lemma {:induction false} ReturnsUnstuck(session: bool, chosen: bool, c: Cell, o: OpId) returns (steps: seq<Step>)
    requires Inv(session, chosen, c) && o in c.ops && !Stuck(chosen, c, o)
    ensures CanRun(session, chosen, c, steps)
    ensures var r := Exec(session, chosen, c, steps); o in r.ops && r.ops[o].pc.Done?
  {
    hide Inv, Do, PlainRun, ById;
    steps := [];
    if Holding(c.ops[o]) {
      steps := Completes(session, chosen, c, o);
    } else if At(c, o, Start) {
      if c.entry.None? || c.entry.value.owner.None? {
        steps := StartCompletes(session, chosen, c, o);
      } else if LostEntry(c) {
        steps := SkipsUnchosen(session, chosen, c, o);
      } else {
        steps := StartCompletesAfter(session, chosen, c, o);
      }
    }
  }

  lemma {:induction false} SkipsUnchosen(session: bool, chosen: bool, c: Cell, o: OpId) returns (steps: seq<Step>)
    requires At(c, o, Start) && c.ops[o].add && !chosen
    ensures CanRun(session, chosen, c, steps)
    ensures var r := Exec(session, chosen, c, steps); o in r.ops && r.ops[o].pc.Done?
  {
    hide PlainRun, ById;
    steps := RunOf(session, chosen, c, Skip(o), []);
  }

  // ---------- When the session may be dropped ----------

  /** The last steps of an acknowledged removal free the entry, whatever the kernel holds. */
  lemma {:induction false} AcknowledgedRemovalEnds(chosen: bool, c: Cell, a: Addr, o: OpId) returns (steps: seq<Step>)
    requires PointsToEntry(c, a) && c.entry.value.sem == 1
    requires o in c.ops && c.ops[o] == Op(false, false, Waiting, a, Handled(c.era))
    ensures CanRun(false, chosen, c, steps) && PlainRun(false, chosen, c, steps) && ById(steps)
    ensures var r := Exec(false, chosen, c, steps); r.kernel == c.kernel && r.entry.None?
  {
    hide PlainRun, ById;
    var c1 := Do(false, chosen, c, AwaitAck(o));
    var c2 := Do(false, chosen, c1, RestoreSem(o));
    steps := RunOf(false, chosen, c2, Finish(o), []);
    steps := RunOf(false, chosen, c1, RestoreSem(o), steps);
    steps := RunOf(false, chosen, c, AwaitAck(o), steps);
  }

  /** A removal that has sent its signal, with the session gone: the handler skips the
      switch-off but acknowledges all the same, and the entry is freed. */
  lemma {:induction false} RemovalEndsWithoutSession(chosen: bool, c: Cell, a: Addr, o: OpId, g: SigId)
    returns (steps: seq<Step>)
    requires c.live && PointsToEntry(c, a) && c.entry.value.sem == 0
    requires o in c.ops && c.ops[o] == Op(false, false, Waiting, a, NotYet)
    requires g in c.signals && c.signals[g] == Signal(false, a, o, Queued)
    ensures CanRun(false, chosen, c, steps) && PlainRun(false, chosen, c, steps) && ById(steps)
    ensures var r := Exec(false, chosen, c, steps); r.kernel == c.kernel && r.entry.None?
  {
    hide PlainRun, ById;
    var c1 := Do(false, chosen, c, Deliver(g));
    var c2 := Do(false, chosen, c1, HandlerExit(g));
    steps := AcknowledgedRemovalEnds(chosen, c2, a, o);
    steps := RunOf(false, chosen, c1, HandlerExit(g), steps);
    steps := RunOf(false, chosen, c, Deliver(g), steps);
  }

  /** With the session gone, a removal that has not switched off its dispatched target frees
      the entry while the kernel still points to it. */
  lemma {:induction false} RemovalAfterReset(chosen: bool, c: Cell, o: OpId) returns (steps: seq<Step>)
    requires Inv(true, chosen, c) && c.kernel.Some? && !SwitchingOff(c)
    requires c.entry.value.owner == Some(o) && !c.ops[o].add && !c.ops[o].local
    ensures CanRun(false, chosen, c, steps) && PlainRun(false, chosen, c, steps) && ById(steps)
    ensures var r := Exec(false, chosen, c, steps); r.kernel.Some? && r.entry.None?
    decreases Rank(c, o)
  {
    hide PlainRun, ById;
    if c.ops[o].pc.Waiting? {
      var g :| g in c.signals;
      assert SignalOk(true, c, g);
      assert !InPhase(c, g, Entered);
      steps := RemovalEndsWithoutSession(chosen, c, c.entry.value.addr, o, g);
    } else {
      SignalsIdle(true, chosen, c);
      var step := if c.ops[o].pc.Claimed? then TakeSem(o) else Send(o, 0);
      var r := Do(true, chosen, c, step);
      StepKeepsInv(true, chosen, c, step);
      StepRank(true, chosen, c, o, step);
      steps := RemovalAfterReset(chosen, r, o);
      steps := RunOf(false, chosen, c, step, steps);
    }
  }

  /** A dispatched thread of whose entry nobody holds the accessor: a new removal is enough. */
  lemma {:induction false} NewRemovalAfterReset(chosen: bool, c: Cell) returns (steps: seq<Step>)
    requires Inv(true, chosen, c) && c.kernel.Some? && c.entry.value.owner.None?
    ensures CanRun(false, chosen, c, steps) && PlainRun(false, chosen, c, steps) && ById(steps)
    ensures var r := Exec(false, chosen, c, steps); r.kernel.Some? && r.entry.None?
  {
    hide PlainRun, ById;
    SignalsIdle(true, chosen, c);
    var o := FreshOp(c.ops.Keys);
    var c1 := Do(true, chosen, c, Invoke(o, false, false));
    StepKeepsInv(true, chosen, c, Invoke(o, false, false));
    var claim := Claim(o, c.entry.value.addr);
    var c2 := Do(true, chosen, c1, claim);
    StepKeepsInv(true, chosen, c1, claim);
    steps := RemovalAfterReset(chosen, c2, o);
    steps := RunOf(false, chosen, c1, claim, steps);
    steps := RunOf(false, chosen, c, Invoke(o, false, false), steps);
  }

  lemma {:induction false} FreshOp(os: set<OpId>) returns (o: OpId)
    ensures o !in os && forall p :: p in os ==> p < o
  {
    o := 0;
    if os != {} {
      var p :| p in os;
      var q := FreshOp(os - {p});
      o := if p < q then q else p + 1;
      assert forall x :: x in os ==> x == p || x in os - {p};
    }
  }

  /** A thread whose id has a lost signal is not dispatched. */
  lemma {:induction false} LostIsOff(session: bool, chosen: bool, c: Cell, o: OpId)
    requires Inv(session, chosen, c)
    ensures Lost(c, o) ==> c.kernel.None? && c.signals == map[]
  {
    if Lost(c, o) { LostHasNoSignals(session, chosen, c, o); }
  }

  lemma {:induction false} LostHasNoSignals(session: bool, chosen: bool, c: Cell, o: OpId)
    requires Inv(session, chosen, c) && Lost(c, o)
    ensures c.signals == map[]
  {
    assert c.entry.value.owner == Some(o);
    assert c.signals.Keys == {};
  }

  /** The next step of an addition that has dispatched its target or is about to: it needs no
      session any more and leaves the target dispatched. */
  lemma {:induction false} AdditionGoesOn(chosen: bool, c: Cell, o: OpId) returns (step: Step)
    requires Inv(true, chosen, c) && NoLocal(c) && !ResetOk(c)
    requires c.entry.Some? && c.entry.value.owner == Some(o) && c.ops[o].add
    ensures Enabled(true, chosen, c, step) && !step.Deliver? && !step.Claim? && !step.Invoke?
    ensures var r := Do(true, chosen, c, step);
            && r.kernel.Some? && NoLocal(r) && !ResetOk(r) && r.entry.Some?
            && (r.entry.value.owner.None? ||
                (r.entry.value.owner == Some(o) && r.ops[o].add && Rank(r, o) < Rank(c, o)))
  {
    LostIsOff(true, chosen, c, o);
    if !c.ops[o].pc.Waiting? { SignalsIdle(true, chosen, c); }
    step := Progress(true, chosen, c, o);
    var r := Do(true, chosen, c, step);
    StepKeepsInv(true, chosen, c, step);
    assert forall g :: g in c.signals ==> SignalOk(true, c, g);
    assert forall g :: g in r.signals ==> SignalOk(true, r, g);
  }

  /** Everything but the start of a handler and a thread's own call goes on as before when the
      session is gone. */
  lemma {:induction false} SameWithoutSession(chosen: bool, c: Cell, step: Step)
    requires Enabled(true, chosen, c, step) && !step.Deliver? && !(step.Invoke? && step.local)
    ensures Enabled(false, chosen, c, step) && Do(false, chosen, c, step) == Do(true, chosen, c, step)
  {
  }

  /** Without these conditions there is a run in which the kernel is left with a pointer to a
      freed entry. */
  lemma {:induction false} HarmAfterReset(chosen: bool, c: Cell) returns (steps: seq<Step>)
    requires Inv(true, chosen, c) && NoLocal(c) && !ResetOk(c)
    ensures CanRun(false, chosen, c, steps) && PlainRun(false, chosen, c, steps) && ById(steps)
    ensures !Safe(chosen, Exec(false, chosen, c, steps))
    decreases if c.entry.Some? && c.entry.value.owner.Some? && c.entry.value.owner.value in c.ops
              then 1 + Rank(c, c.entry.value.owner.value) else 0
  {
    hide Enabled, Do, PlainRun, ById;
    assert c.entry.Some?;
    if c.entry.value.owner.None? {
      SignalsIdle(true, chosen, c);
      steps := NewRemovalAfterReset(chosen, c);
    } else {
      var o := c.entry.value.owner.value;
      if c.ops[o].add {
        var step := AdditionGoesOn(chosen, c, o);
        StepKeepsInv(true, chosen, c, step);
        SameWithoutSession(chosen, c, step);
        steps := HarmAfterReset(chosen, Do(true, chosen, c, step));
        steps := RunOf(false, chosen, c, step, steps);
      } else {
        assert forall g :: g in c.signals ==> SignalOk(true, c, g);
        steps := RemovalAfterReset(chosen, c, o);
      }
    }
  }

  ghost predicate SafeForever(session: bool, chosen: bool, c: Cell)
  {
    forall steps :: CanRun(session, chosen, c, steps) ==> Safe(chosen, Exec(session, chosen, c, steps))
  }

  lemma {:induction false} ResetKeepsInv(chosen: bool, c: Cell)
    requires Inv(true, chosen, c) && NoLocal(c) && ResetOk(c)
    ensures Inv(false, chosen, c)
  {
  }

  /** Dropping the session, with any calls by id in flight, is safe for a thread if and only if
      `ResetOk` holds of it at that moment. */
  lemma {:induction false} ResetSafeExactly(chosen: bool, c: Cell)
    requires Inv(true, chosen, c) && NoLocal(c)
    ensures SafeForever(false, chosen, c) <==> ResetOk(c)
  {
    hide Inv, ResetOk, Safe, NoLocal;
    if ResetOk(c) {
      ResetKeepsInv(chosen, c);
      forall steps | CanRun(false, chosen, c, steps) ensures Safe(chosen, Exec(false, chosen, c, steps)) {
        RunKeepsInv(false, chosen, c, steps);
        InvIsSafe(false, chosen, Exec(false, chosen, c, steps));
      }
    } else {
      var steps := HarmAfterReset(chosen, c);
    }
  }

  lemma {:induction false} InvIsSafe(session: bool, chosen: bool, c: Cell)
    requires Inv(session, chosen, c)
    ensures Safe(chosen, c)
  {
  }
}
