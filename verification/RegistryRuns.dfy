/** What calls do to the registry over whole runs: in any interleaving, each taking effect
    once and at once, and one after the other, as the thread monitor makes them. */
module RegistryRuns {
  import opened Options
  import opened RegistrySpec
  import opened Handshake
  import opened Registry

  // ---------- Any interleaving ----------

  /** The call that takes effect in a move. */
  function TakenBy(s: State, m: Move): seq<Call>
  {
    if m.On? && Taken(CellOf(s, m.t), m.step).Some? then [CallOf(m.t, Taken(CellOf(s, m.t), m.step).value)] else []
  }

  /** The calls that take effect in a run, in the order in which they do. */
  function TakenIn(sel: Tid -> bool, s: State, run: seq<Move>): seq<Call>
    requires CanRun(sel, s, run)
    decreases |run|
  {
    if run == [] then [] else TakenBy(s, run[0]) + TakenIn(sel, Moved(sel, s, run[0]), run[1..])
  }

  lemma {:induction false} MoveApplies(sel: Tid -> bool, s: State, m: Move)
    requires AllInv(sel, s) && CanMove(sel, s, m) && !m.Free?
    ensures Registered(Moved(sel, s, m)) == ApplyAll(sel, Registered(s), TakenBy(s, m))
  {
    if m.On? {
      MoveRefines(sel, s, m.t, m.step);
      hide AllInv, CanMove, Moved, Do, Enabled, Refines;
      PutRefines(sel, s, m.t, m.step, Do(Session(s), sel(m.t), CellOf(s, m.t), m.step));
    }
  }

  /** The map is there all through the run, and a drop of the session did no harm. */
  ghost predicate Lasting(sel: Tid -> bool, s: State, run: seq<Move>)
    requires CanRun(sel, s, run)
  {
    Free !in run && DropsOk(sel, s, run)
  }

  /** However the calls interleave, the registered threads are what a plain set holds after
      the same calls, one by one, in the order in which they took effect. */
  lemma {:induction false} Linearizes(sel: Tid -> bool, s: State, run: seq<Move>)
    requires AllInv(sel, s) && CanRun(sel, s, run) && Lasting(sel, s, run)
    ensures Registered(Exec(sel, s, run)) == ApplyAll(sel, Registered(s), TakenIn(sel, s, run))
    decreases |run|
  {
    if run != [] {
      MoveApplies(sel, s, run[0]);
      MoveKeepsInv(sel, s, run[0]);
      Linearizes(sel, Moved(sel, s, run[0]), run[1..]);
      ApplyAllAppend(sel, Registered(s), TakenBy(s, run[0]), TakenIn(sel, Moved(sel, s, run[0]), run[1..]));
    }
  }

  /** The effect of a call in a move, if it has one there: the call, and whether the thread's
      registration changed. */
  function EffectIn(s: State, m: Move, r: State, t: Tid, o: OpId): seq<(Call, bool)>
  {
    if m.On? && m.t == t && TakesEffect(CellOf(s, t), m.step) == Some(o) && o in CellOf(s, t).ops
    then [(CallOf(t, CellOf(s, t).ops[o]), (t in Registered(r)) != (t in Registered(s)))]
    else []
  }

  /** The effects of a call in a run. */
  function EffectsIn(sel: Tid -> bool, s: State, run: seq<Move>, t: Tid, o: OpId): seq<(Call, bool)>
    requires CanRun(sel, s, run)
    decreases |run|
  {
    if run == [] then []
    else
      var r := Moved(sel, s, run[0]);
      EffectIn(s, run[0], r, t, o) + EffectsIn(sel, r, run[1..], t, o)
  }

  /** What is left to happen to a call `op` that becomes `last`: nothing if it has taken effect
      or still has not, and one effect otherwise. */
  function Due(t: Tid, op: Op, last: Op): seq<(Call, bool)>
  {
    if op.pc.Done? || EffectOf(op) != Pending || EffectOf(last) == Pending then []
    else [(CallOf(t, op), EffectOf(last).changed)]
  }

  lemma {:induction false} MoveDue(sel: Tid -> bool, s: State, m: Move, t: Tid, o: OpId)
    requires AllInv(sel, s) && CanMove(sel, s, m) && !m.Free? && m != On(t, Return(o))
    requires o in CellOf(s, t).ops
    ensures var r := Moved(sel, s, m);
            && o in CellOf(r, t).ops && CellOf(r, t).ops[o].add == CellOf(s, t).ops[o].add
            && (EffectOf(CellOf(s, t).ops[o]) != Pending ==>
                  EffectOf(CellOf(r, t).ops[o]) == EffectOf(CellOf(s, t).ops[o]))
            && EffectIn(s, m, r, t, o) == Due(t, CellOf(s, t).ops[o], CellOf(r, t).ops[o])
  {
    if m.On? {
      MoveRefines(sel, s, m.t, m.step);
      hide AllInv, CanMove, Do, Enabled;
      if m.t == t {
        var c, r := CellOf(s, t), Do(Session(s), sel(t), CellOf(s, t), m.step);
        assert o in r.ops.Keys;
        assert SameUnlessTaken(c, m.step, r, o);
        assert t in Registered(s) <==> c.entry.Some?;
      }
    }
  }

  /** Along any run, until it returns, a call has at most one effect; afterwards its outcome is
      fixed, and says whether the effect changed anything. */
  lemma {:induction false} EffectsDue(sel: Tid -> bool, s: State, run: seq<Move>, t: Tid, o: OpId)
    requires AllInv(sel, s) && CanRun(sel, s, run) && Lasting(sel, s, run)
    requires o in CellOf(s, t).ops && On(t, Return(o)) !in run
    ensures var r := Exec(sel, s, run);
            && o in CellOf(r, t).ops && CellOf(r, t).ops[o].add == CellOf(s, t).ops[o].add
            && (EffectOf(CellOf(s, t).ops[o]) != Pending ==>
                  EffectOf(CellOf(r, t).ops[o]) == EffectOf(CellOf(s, t).ops[o]))
            && EffectsIn(sel, s, run, t, o) == Due(t, CellOf(s, t).ops[o], CellOf(r, t).ops[o])
    decreases |run|
  {
    hide EffectOf, EffectIn, AllInv, CanMove, Moved;
    if run != [] {
      var r := Moved(sel, s, run[0]);
      MoveDue(sel, s, run[0], t, o);
      MoveKeepsInv(sel, s, run[0]);
      EffectsDue(sel, r, run[1..], t, o);
      DoneIsApplied(CellOf(r, t).ops[o]);
      DoneIsApplied(CellOf(s, t).ops[o]);
    }
  }

  lemma {:induction false} DoneIsApplied(op: Op)
    ensures op.pc.Done? ==> EffectOf(op) == Applied(op.pc.changed)
  {
  }

  /** Every call that returns has taken effect exactly once, between its start and its return,
      and knows whether it changed anything. */
  lemma {:induction false} ReturnedCallsTookEffect(sel: Tid -> bool, s: State, t: Tid, o: OpId, add: bool, local: bool,
                                                   run: seq<Move>)
    requires AllInv(sel, s) && CanMove(sel, s, On(t, Invoke(o, add, local)))
    requires var s' := Moved(sel, s, On(t, Invoke(o, add, local)));
             && CanRun(sel, s', run) && Lasting(sel, s', run) && On(t, Return(o)) !in run
             && CanMove(sel, Exec(sel, s', run), On(t, Return(o)))
    ensures var s' := Moved(sel, s, On(t, Invoke(o, add, local)));
            var op := CellOf(Exec(sel, s', run), t).ops[o];
            EffectsIn(sel, s', run, t, o) == [(if add then Add(t) else Remove(t), op.pc.changed)]
  {
    var s' := Moved(sel, s, On(t, Invoke(o, add, local)));
    MoveKeepsInv(sel, s, On(t, Invoke(o, add, local)));
    assert CellOf(s', t).ops[o] == Op(add, local, Start, 0, NotYet);
    EffectsDue(sel, s', run, t, o);
    DoneIsApplied(CellOf(Exec(sel, s', run), t).ops[o]);
  }

  // ---------- One call after the other ----------

  /** The call that a move starts. */
  function Started(m: Move): seq<Call>
  {
    if m.On? && m.step.Invoke? then [if m.step.add then Add(m.t) else Remove(m.t)] else []
  }

  /** The calls that a run starts, in order. */
  function CallsIn(run: seq<Move>): seq<Call>
  {
    if run == [] then [] else Started(run[0]) + CallsIn(run[1..])
  }

  /** The ids of the calls in flight on a thread, when `p` is the only call in flight. */
  function InFlight(p: Option<(Tid, OpId)>, t: Tid): set<OpId>
  {
    if p.Some? && p.value.0 == t then {p.value.1} else {}
  }

  ghost predicate OnlyCall(s: State, p: Option<(Tid, OpId)>)
  {
    && (p.Some? ==> p.value.0 in s.cells)
    && (forall t :: t in s.cells ==> s.cells[t].ops.Keys == InFlight(p, t))
  }

  ghost predicate Idle(s: State) { OnlyCall(s, None) }

  lemma {:induction false} NotIdle(s: State, p: Option<(Tid, OpId)>)
    requires OnlyCall(s, p) && p.Some?
    ensures !Idle(s)
  {
    assert p.value.1 in s.cells[p.value.0].ops.Keys;
  }

  /** Every call starts when no other is in flight. */
  ghost predicate Sequential(sel: Tid -> bool, s: State, run: seq<Move>)
    requires CanRun(sel, s, run)
    decreases |run|
  {
    run == [] || ((Started(run[0]) != [] ==> Idle(s)) && Sequential(sel, Moved(sel, s, run[0]), run[1..]))
  }

  /** The registry as it is once the call in flight, if any, has taken effect. */
  function Settled(sel: Tid -> bool, s: State, p: Option<(Tid, OpId)>): set<Tid>
  {
    if p.Some? && p.value.1 in CellOf(s, p.value.0).ops then
      var op := CellOf(s, p.value.0).ops[p.value.1];
      if EffectOf(op) == Pending then Apply(sel, Registered(s), CallOf(p.value.0, op)) else Registered(s)
    else Registered(s)
  }

  lemma {:induction false} PutOnly(s: State, t: Tid, c: Cell, p: Option<(Tid, OpId)>, q: Option<(Tid, OpId)>)
    requires OnlyCall(s, p) && c.ops.Keys == InFlight(q, t)
    requires q == p || (p.None? && q.value.0 == t) || (q.None? && p.value.0 == t)
    ensures OnlyCall(Put(s, t, c), q)
  {
  }

  /** A step that neither starts nor ends a call leaves the settled registry alone. */
  lemma {:induction false} QuietPut(sel: Tid -> bool, s: State, t: Tid, step: Step, r: Cell, p: Option<(Tid, OpId)>)
    requires OnlyCall(s, p) && !step.Invoke? && !step.Return?
    requires (CellOf(s, t).entry.Some? ==> sel(t)) && Refines(sel(t), CellOf(s, t), step, r)
    ensures OnlyCall(Put(s, t, r), p) && Settled(sel, Put(s, t, r), p) == Settled(sel, s, p)
  {
    hide Registered, Apply, EffectOf, TakesEffect;
    assert CellOf(s, t).ops.Keys == r.ops.Keys == InFlight(p, t);
    hide CallsAfter;
    PutOnly(s, t, r, p, p);
    PutRefines(sel, s, t, step, r);
    if p.Some? && p.value.0 == t {
      assert SameUnlessTaken(CellOf(s, t), step, r, p.value.1);
    }
  }

  /** A starting call is applied to the settled registry; an ending one has been already. */
  lemma {:induction false} EdgePut(sel: Tid -> bool, s: State, t: Tid, step: Step, r: Cell,
                                   p: Option<(Tid, OpId)>, q: Option<(Tid, OpId)>)
    requires OnlyCall(s, p)
    requires (CellOf(s, t).entry.Some? ==> sel(t)) && Refines(sel(t), CellOf(s, t), step, r)
    requires match step
             case Invoke(o, add, _) =>
               p == None && q == Some((t, o)) && o in r.ops && r.ops[o].add == add && EffectOf(r.ops[o]) == Pending
             case Return(o) => o in CellOf(s, t).ops && CellOf(s, t).ops[o].pc.Done? && q == None
             case _ => false
    ensures OnlyCall(Put(s, t, r), q)
    ensures Settled(sel, Put(s, t, r), q) == ApplyAll(sel, Settled(sel, s, p), Started(On(t, step)))
  {
    PutOnly(s, t, r, p, q);
    PutRefines(sel, s, t, step, r);
  }

  /** One move of a sequential run: the settled registry changes exactly when a call starts. */
  lemma {:induction false} SequentialMove(sel: Tid -> bool, s: State, m: Move, p: Option<(Tid, OpId)>)
    returns (q: Option<(Tid, OpId)>)
    requires AllInv(sel, s) && CanMove(sel, s, m) && OnlyCall(s, p) && !m.Free?
    requires Started(m) != [] ==> p == None
    ensures OnlyCall(Moved(sel, s, m), q)
    ensures Settled(sel, Moved(sel, s, m), q) == ApplyAll(sel, Settled(sel, s, p), Started(m))
  {
    q := p;
    if m.On? {
      var t, step := m.t, m.step;
      var r := Do(Session(s), sel(t), CellOf(s, t), step);
      MoveRefines(sel, s, t, step);
      if step.Invoke? || step.Return? {
        q := if step.Invoke? then Some((t, step.o)) else None;
        EdgePut(sel, s, t, step, r, p, q);
      } else {
        QuietPut(sel, s, t, step, r, p);
      }
    }
  }

  /** A run of calls one after the other ends with the registry that the calls, applied in
      order to a plain set, give. */
  lemma {:induction false} SequentialRun(sel: Tid -> bool, s: State, run: seq<Move>, p: Option<(Tid, OpId)>)
    requires AllInv(sel, s) && OnlyCall(s, p) && CanRun(sel, s, run) && Lasting(sel, s, run) && Sequential(sel, s, run)
    requires Idle(Exec(sel, s, run))
    ensures Registered(Exec(sel, s, run)) == ApplyAll(sel, Settled(sel, s, p), CallsIn(run))
    decreases |run|
  {
    if p.Some? { NotIdle(s, p); }
    if run != [] {
      var q := SequentialMove(sel, s, run[0], p);
      MoveKeepsInv(sel, s, run[0]);
      SequentialRun(sel, Moved(sel, s, run[0]), run[1..], q);
      ApplyAllAppend(sel, Settled(sel, s, p), Started(run[0]), CallsIn(run[1..]));
    }
  }

  lemma {:induction false} SequentialFromInit(sel: Tid -> bool, s: State, run: seq<Move>)
    requires Init(s) && CanRun(sel, s, run) && Lasting(sel, s, run) && Sequential(sel, s, run)
    requires Idle(Exec(sel, s, run))
    ensures Registered(Exec(sel, s, run)) == ApplyAll(sel, {}, CallsIn(run))
  {
    assert AllInv(sel, s);
    assert Registered(s) == {};
    SequentialRun(sel, s, run, None);
  }

  /** While the session is not dropped the map lasts. */
  lemma {:induction false} UndroppedLasts(sel: Tid -> bool, s: State, run: seq<Move>)
    requires CanRun(sel, s, run) && Session(s) && Drop !in run
    ensures Lasting(sel, s, run) && Session(Exec(sel, s, run))
    decreases |run|
  {
    if run != [] { UndroppedLasts(sel, Moved(sel, s, run[0]), run[1..]); }
  }

  // ---------- A thread that nobody adds ----------

  predicate StartsAddition(m: Move, t: Tid) { m.On? && m.t == t && m.step.Invoke? && m.step.add }

  predicate OnlyRemovalsOn(c: Cell) { forall o :: o in c.ops ==> !c.ops[o].add }

  lemma {:induction false} StepAddsNothing(session: bool, chosen: bool, c: Cell, step: Step)
    requires Enabled(session, chosen, c, step) && !(step.Invoke? && step.add)
    requires OnlyRemovalsOn(c) && c.entry.None?
    ensures OnlyRemovalsOn(Do(session, chosen, c, step)) && Do(session, chosen, c, step).entry.None?
  {
  }

  /** A thread that is not registered stays so until an addition of it starts. */
  lemma {:induction false} StaysOut(sel: Tid -> bool, s: State, run: seq<Move>, t: Tid)
    requires t !in Registered(s) && OnlyRemovalsOn(CellOf(s, t)) && CanRun(sel, s, run)
    requires forall i :: 0 <= i < |run| ==> !StartsAddition(run[i], t)
    ensures t !in Registered(Exec(sel, s, run))
    decreases |run|
  {
    hide Enabled, Do;
    if run != [] {
      assert !StartsAddition(run[0], t);
      if run[0].On? && run[0].t == t { StepAddsNothing(Session(s), sel(t), CellOf(s, t), run[0].step); }
      StaysOut(sel, Moved(sel, s, run[0]), run[1..], t);
    }
  }
}
