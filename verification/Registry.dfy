/** The session's map of threads: the cells of all thread ids side by side. The map,
    with any number of calls in flight, behaves as a plain set to which each call is
    applied in one indivisible step. */
module Registry {
  import opened Options
  import opened RegistrySpec
  import opened Handshake
  import HandshakeRuns

  /** How far the session's destructor has come. It takes the lock that shuts out the session's
      API, removes the registered threads, checks that the map is empty, clears the session
      pointer, and ends with the life of the map. The thread monitor goes on making calls by
      id until shortly before the map is freed. */
  datatype Stage = Open | Locked | Checked | Dropped | Freed

  datatype State = State(stage: Stage, cells: map<Tid, Cell>)

  datatype Move = On(t: Tid, step: Step) | Lock | Check | Drop | Free

  /** Handlers find the session. */
  predicate Session(s: State) { !s.stage.Dropped? && !s.stage.Freed? }

  function CellOf(s: State, t: Tid): Cell { if t in s.cells then s.cells[t] else IDLE }

  function Put(s: State, t: Tid, c: Cell): State { s.(cells := s.cells[t := c]) }

  /** The threads that have an entry. */
  function Registered(s: State): set<Tid> { set t | t in s.cells && s.cells[t].entry.Some? }

  /** No entry lives at this address. */
  predicate FreshAddr(s: State, a: Addr)
  {
    forall t :: t in s.cells && s.cells[t].entry.Some? ==> s.cells[t].entry.value.addr != a
  }

  predicate CanMove(sel: Tid -> bool, s: State, m: Move)
  {
    match m
    case On(t, step) =>
      && Enabled(Session(s), sel(t), CellOf(s, t), step)
      && (step.Claim? && CellOf(s, t).entry.None? ==> FreshAddr(s, step.a))
      && (step.Invoke? ==> if step.local then s.stage.Open? else !s.stage.Freed?)
    case Lock => s.stage.Open? && forall t :: t in s.cells ==> NoLocal(s.cells[t])
    case Check => s.stage.Locked? && Registered(s) == {}
    case Drop => s.stage.Checked?
    case Free => s.stage.Dropped? && forall t :: t in s.cells ==> s.cells[t].ops == map[]
  }

  function Moved(sel: Tid -> bool, s: State, m: Move): (r: State)
    requires CanMove(sel, s, m)
  {
    match m
    case On(t, step) => Put(s, t, Do(Session(s), sel(t), CellOf(s, t), step))
    case Lock => s.(stage := Locked)
    case Check => s.(stage := Checked)
    case Drop => s.(stage := Dropped)
    case Free => State(Freed, map t | t in s.cells :: s.cells[t].(entry := None))
  }

  predicate CanRun(sel: Tid -> bool, s: State, run: seq<Move>)
    decreases |run|
  {
    run == [] || (CanMove(sel, s, run[0]) && CanRun(sel, Moved(sel, s, run[0]), run[1..]))
  }

  /** The state after the whole run. */
  function Exec(sel: Tid -> bool, s: State, run: seq<Move>): (r: State)
    requires CanRun(sel, s, run)
    decreases |run|
  {
    if run == [] then s else Exec(sel, Moved(sel, s, run[0]), run[1..])
  }

  /** A new session: no entry, no call, no signal, nothing dispatched. */
  predicate Init(s: State)
  {
    s.stage.Open? && forall t :: t in s.cells ==> s.cells[t] == IDLE.(live := s.cells[t].live, era := s.cells[t].era)
  }

  // ---------- Safety over whole runs ----------

  predicate HasAddr(s: State, t: Tid, a: Addr) { t in s.cells && PointsToEntry(s.cells[t], a) }

  ghost predicate AllInv(sel: Tid -> bool, s: State)
  {
    && (forall t :: t in s.cells ==> Inv(Session(s), sel(t), s.cells[t]))
    && (forall t :: t in s.cells && !s.stage.Open? ==> NoLocal(s.cells[t]))
    && (forall t, u, a :: HasAddr(s, t, a) && HasAddr(s, u, a) ==> t == u)
  }

  /** Every thread's cell is safe, and no two entries share an address: the selector byte
      that the kernel reads for a dispatched thread is that of its own entry and no other. */
  ghost predicate AllSafe(sel: Tid -> bool, s: State)
  {
    && (forall t :: t in s.cells ==> Safe(sel(t), s.cells[t]))
    && (forall t, u | t in s.cells && u in s.cells && s.cells[t].kernel.Some? ::
          HasAddr(s, u, s.cells[t].kernel.value) <==> t == u)
  }

  /** Dropping the session does no harm to any thread. */
  ghost predicate DropOk(s: State) { forall t :: t in s.cells ==> ResetOk(s.cells[t]) }

  /** An entry keeps its address in every step, unless it is being created. */
  lemma {:induction false} AddressStays(session: bool, chosen: bool, c: Cell, step: Step)
    requires Inv(session, chosen, c) && Enabled(session, chosen, c, step)
    ensures var r := Do(session, chosen, c, step);
            r.entry.Some? ==>
              if c.entry.Some? then r.entry.value.addr == c.entry.value.addr
              else step.Claim? && r.entry.value.addr == step.a
  {
  }

  lemma {:induction false} StaysById(session: bool, chosen: bool, c: Cell, step: Step)
    requires NoLocal(c) && Enabled(session, chosen, c, step) && (step.Invoke? ==> !step.local)
    ensures NoLocal(Do(session, chosen, c, step))
  {
  }

  lemma {:induction false} PutKeepsInv(sel: Tid -> bool, s: State, t: Tid, c: Cell)
    requires AllInv(sel, s) && Inv(Session(s), sel(t), c) && (!s.stage.Open? ==> NoLocal(c))
    requires c.entry.Some? ==> HasAddr(s, t, c.entry.value.addr) || FreshAddr(s, c.entry.value.addr)
    ensures AllInv(sel, Put(s, t, c))
  {
    var r := Put(s, t, c);
    forall u, v, a | HasAddr(r, u, a) && HasAddr(r, v, a) ensures u == v {
      assert u != t ==> HasAddr(s, u, a);
      assert v != t ==> HasAddr(s, v, a);
    }
  }

  /** Every move keeps the invariant, the drop of the session as long as it does no harm to any
      thread. */
  lemma {:induction false} MoveKeepsInv(sel: Tid -> bool, s: State, m: Move)
    requires AllInv(sel, s) && CanMove(sel, s, m) && (m.Drop? ==> DropOk(s))
    ensures AllInv(sel, Moved(sel, s, m))
  {
    match m
    case On(t, step) =>
      var c := CellOf(s, t);
      assert Inv(Session(s), sel(t), c);
      StepKeepsInv(Session(s), sel(t), c, step);
      AddressStays(Session(s), sel(t), c, step);
      if !s.stage.Open? { StaysById(Session(s), sel(t), c, step); }
      PutKeepsInv(sel, s, t, Do(Session(s), sel(t), c, step));
    case Lock => SameAddresses(s, Moved(sel, s, m));
    case Check => SameAddresses(s, Moved(sel, s, m));
    case Drop => DropKeepsInv(sel, s);
    case Free => FreeKeepsInv(sel, s);
  }

  lemma {:induction false} SameAddresses(s: State, r: State)
    requires r.cells == s.cells
    ensures forall t, a :: HasAddr(r, t, a) <==> HasAddr(s, t, a)
  {
  }

  lemma {:induction false} DropKeepsInv(sel: Tid -> bool, s: State)
    requires AllInv(sel, s) && s.stage.Checked? && DropOk(s)
    ensures AllInv(sel, s.(stage := Dropped))
  {
    var r := s.(stage := Dropped);
    forall t | t in s.cells ensures Inv(false, sel(t), s.cells[t]) {
      HandshakeRuns.ResetKeepsInv(sel(t), s.cells[t]);
    }
    SameAddresses(s, r);
  }

  lemma {:induction false} FreeKeepsInv(sel: Tid -> bool, s: State)
    requires AllInv(sel, s) && CanMove(sel, s, Free)
    ensures AllInv(sel, Moved(sel, s, Free))
  {
    var r := Moved(sel, s, Free);
    forall t | t in r.cells ensures Inv(false, sel(t), r.cells[t]) && NoLocal(r.cells[t]) {
      HandshakeRuns.SignalsIdle(false, sel(t), s.cells[t]);
    }
    assert forall t, a :: !HasAddr(r, t, a);
  }

  /** At every drop of the session in the run, it does no harm. */
  ghost predicate DropsOk(sel: Tid -> bool, s: State, run: seq<Move>)
    requires CanRun(sel, s, run)
    decreases |run|
  {
    run == [] || ((run[0].Drop? ==> DropOk(s)) && DropsOk(sel, Moved(sel, s, run[0]), run[1..]))
  }

  lemma {:induction false} RunKeepsInv(sel: Tid -> bool, s: State, run: seq<Move>)
    requires AllInv(sel, s) && CanRun(sel, s, run) && DropsOk(sel, s, run)
    ensures AllInv(sel, Exec(sel, s, run))
    decreases |run|
  {
    if run != [] {
      MoveKeepsInv(sel, s, run[0]);
      RunKeepsInv(sel, Moved(sel, s, run[0]), run[1..]);
    }
  }

  lemma {:induction false} InvIsSafe(sel: Tid -> bool, s: State)
    requires AllInv(sel, s)
    ensures AllSafe(sel, s)
  {
    forall t, u | t in s.cells && u in s.cells && s.cells[t].kernel.Some?
      ensures HasAddr(s, u, s.cells[t].kernel.value) <==> t == u
    {
      assert HasAddr(s, t, s.cells[t].kernel.value);
    }
  }

  /** Whatever the interleaving, every state a session reaches is safe, unless a drop of the
      session did harm. `DropSafeExactly` says that this condition cannot be weakened. */
  lemma {:induction false} SafeAlways(sel: Tid -> bool, s: State, run: seq<Move>)
    requires Init(s) && CanRun(sel, s, run) && DropsOk(sel, s, run)
    ensures AllSafe(sel, Exec(sel, s, run))
  {
    assert AllInv(sel, s);
    RunKeepsInv(sel, s, run);
    InvIsSafe(sel, Exec(sel, s, run));
  }

  // ---------- Each call takes effect in one step ----------

  /** Seen from outside a call has not taken effect yet, or it has. */
  datatype Effect = Pending | Applied(changed: bool)

  function EffectOf(op: Op): Effect
  {
    match op.pc
    case Start => Pending
    case Done(changed) => Applied(changed)
    case _ => if op.add then Applied(true) else Pending
  }

  function CallOf(t: Tid, op: Op): Call { if op.add then Add(t) else Remove(t) }

  /** The call that takes effect in this step, if any: at a refused or idle attempt, at the
      insertion of the entry, or at its erasure. */
  function TakesEffect(c: Cell, step: Step): Option<OpId>
  {
    match step
    case Skip(o) => Some(o)
    case Claim(o, _) => if o in c.ops && c.ops[o].add then Some(o) else None
    case Finish(o) => if o in c.ops && !c.ops[o].add then Some(o) else None
    case _ => None
  }

  /** The calls in flight after a step. */
  function CallsAfter(c: Cell, step: Step): set<OpId>
  {
    match step
    case Invoke(o, _, _) => c.ops.Keys + {o}
    case Return(o) => c.ops.Keys - {o}
    case _ => c.ops.Keys
  }

  predicate SameUnlessTaken(c: Cell, step: Step, r: Cell, o: OpId)
    requires o in c.ops && o in r.ops
  {
    r.ops[o].add == c.ops[o].add && (TakesEffect(c, step) == Some(o) || EffectOf(r.ops[o]) == EffectOf(c.ops[o]))
  }

  /** The entry is there or not as the call that takes effect asks, and that call knows
      whether it changed anything. */
  predicate EffectOk(chosen: bool, c: Cell, step: Step, r: Cell)
  {
    match TakesEffect(c, step)
    case None => r.entry.Some? == c.entry.Some?
    case Some(o) =>
      && o in c.ops && o in r.ops
      && r.entry.Some? == (c.ops[o].add && (c.entry.Some? || chosen))
      && EffectOf(c.ops[o]) == Pending
      && EffectOf(r.ops[o]) == Applied(r.entry.Some? != c.entry.Some?)
  }

  /** What a step from `c` to `r` looks like from outside: at most one call takes effect,
      and no other call notices. */
  ghost predicate Refines(chosen: bool, c: Cell, step: Step, r: Cell)
  {
    && r.ops.Keys == CallsAfter(c, step)
    && EffectOk(chosen, c, step, r)
    && (forall o :: o in c.ops && o in r.ops ==> SameUnlessTaken(c, step, r, o))
  }

  lemma {:induction false} CallsStay(session: bool, chosen: bool, c: Cell, step: Step)
    requires Enabled(session, chosen, c, step)
    ensures Do(session, chosen, c, step).ops.Keys == CallsAfter(c, step)
  {
  }

  lemma {:induction false} OthersUntouched(session: bool, chosen: bool, c: Cell, step: Step, o: OpId)
    requires Enabled(session, chosen, c, step) && o in c.ops && o in Do(session, chosen, c, step).ops
    ensures SameUnlessTaken(c, step, Do(session, chosen, c, step), o)
  {
  }

  lemma {:induction false} EffectLands(session: bool, chosen: bool, c: Cell, step: Step)
    requires Inv(session, chosen, c) && Enabled(session, chosen, c, step)
    ensures EffectOk(chosen, c, step, Do(session, chosen, c, step))
  {
  }

  /** Every step is a step of the plain set. */
  lemma {:induction false} StepRefines(session: bool, chosen: bool, c: Cell, step: Step)
    requires Inv(session, chosen, c) && Enabled(session, chosen, c, step)
    ensures Refines(chosen, c, step, Do(session, chosen, c, step))
  {
    var r := Do(session, chosen, c, step);
    CallsStay(session, chosen, c, step);
    EffectLands(session, chosen, c, step);
    forall o | o in c.ops && o in r.ops ensures SameUnlessTaken(c, step, r, o) {
      OthersUntouched(session, chosen, c, step, o);
    }
  }

  /** The call that takes effect in this step, as it was before. */
  function Taken(c: Cell, step: Step): Option<Op>
  {
    match TakesEffect(c, step)
    case None => None
    case Some(o) => if o in c.ops then Some(c.ops[o]) else None
  }

  /** A step changes the set of registered threads exactly as the call that takes effect in
      it, applied to the set in one go, and not at all if no call takes effect. */
  lemma {:induction false} PutRefines(sel: Tid -> bool, s: State, t: Tid, step: Step, r: Cell)
    requires (CellOf(s, t).entry.Some? ==> sel(t)) && Refines(sel(t), CellOf(s, t), step, r)
    ensures var taken := Taken(CellOf(s, t), step);
            Registered(Put(s, t, r)) ==
            if taken.None? then Registered(s) else Apply(sel, Registered(s), CallOf(t, taken.value))
  {
    assert t in Registered(s) <==> CellOf(s, t).entry.Some?;
  }

  lemma {:induction false} MoveRefines(sel: Tid -> bool, s: State, t: Tid, step: Step)
    requires AllInv(sel, s) && CanMove(sel, s, On(t, step))
    ensures var r := Do(Session(s), sel(t), CellOf(s, t), step);
            && Moved(sel, s, On(t, step)) == Put(s, t, r)
            && Refines(sel(t), CellOf(s, t), step, r)
            && (CellOf(s, t).entry.Some? ==> sel(t))
  {
    assert Inv(Session(s), sel(t), CellOf(s, t));
    StepRefines(Session(s), sel(t), CellOf(s, t), step);
  }
}
