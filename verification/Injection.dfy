/** What happens to an intercepted system call: the decision to delay or fail it, the call
    made in its place, and the state in which the thread resumes. */
module Injection {
  import opened Options
  import opened ErrorTable
  import opened Machine

  const NGREG := 23
  const SYS_RT_SIGPROCMASK := 14
  const SYS_RT_SIGRETURN := 15
  const SYS_EXIT := 60
  const SIG_BLOCK := 0
  const SIG_SETMASK := 2

  // ---------- The call made in place of the intercepted one ----------

  /** A call as the kernel sees it: number and six arguments. */
  datatype Request = Request(nr: nat, args: seq<nat>)

  /** Section A.2.1 of the System V AMD64 ABI: the registers a system call is read from. */
  function View(regs: Reg -> nat): Request
  {
    Request(regs(RAX), [regs(RDI), regs(RSI), regs(RDX), regs(R10), regs(R8), regs(R9)])
  }

  /** The low 32 bits, as a signed number: the conversion of a register to `Syscall`. */
  function ToInt(x: nat): int
  {
    var low := x % 0x1_0000_0000;
    if low < 0x8000_0000 then low else low - 0x1_0000_0000
  }

  /** A signed number in a 64-bit register. */
  function ToWord(x: int): nat { x % WORD }

  predicate FitsInt(x: nat) { x < 0x8000_0000 || WORD - 0x8000_0000 <= x < WORD }

  lemma {:induction false} IntRoundTrip(x: nat)
    requires x < WORD
    ensures ToWord(ToInt(x)) == x <==> FitsInt(x)
  {
  }

  /** The registers saved in a context. */
  function RegsOf(g: seq<nat>): Reg -> nat
    requires |g| == NGREG
  { (r: Reg) => g[Slot(r)] }

  /** `syscall`: place the arguments in the kernel's registers. */
  function Placed(a1: nat, a2: nat, a3: nat, a4: nat, a5: nat, a6: nat, nr: int): Reg -> nat
  {
    var regs := (r: Reg) => 0;
    Set(Set(Set(Set(Set(Set(Set(regs, RAX, ToWord(nr)), RDI, a1), RSI, a2), RDX, a3), R10, a4), R8, a5), R9, a6)
  }

  /** The call that `continue_syscall` makes for a context. */
  function Continued(g: seq<nat>): Request
    requires |g| == NGREG
  {
    View(Placed(g[Slot(RDI)], g[Slot(RSI)], g[Slot(RDX)], g[Slot(R10)], g[Slot(R8)], g[Slot(R9)], ToInt(g[Slot(RAX)])))
  }

  /** The kernel sees what it would have seen from the thread itself if and only if the call
      number fits in an `int`. */
  lemma {:induction false} ContinuedIsDirect(g: seq<nat>)
    requires |g| == NGREG && g[Slot(RAX)] < WORD
    ensures Continued(g) == View(RegsOf(g)) <==> FitsInt(g[Slot(RAX)])
    ensures Continued(g).args == View(RegsOf(g)).args == [g[8], g[9], g[12], g[2], g[0], g[1]]
  {
    hide ToInt, ToWord, FitsInt;
    IntRoundTrip(g[Slot(RAX)]);
  }

  // ---------- The decision ----------

  datatype Probability = Probability(p: real, afterBias: real)

  datatype ActiveOutcome = ActiveOutcome(
    fail: Probability, delay: Probability, maxDelay: int, table: seq<Row>, eligible: seq<nat> -> bool)

  /** `CallOn` is a call made with the stack pointer set to `sp`. */
  datatype Effect = Sleep(us: nat) | Call(req: Request) | CallOn(req: Request, sp: nat) | DisarmSelf | SendRearm

  /** The random draws of one decision, in the order in which they are taken. */
  type Draws = ds: seq<real> | |ds| >= 5 witness [0.0, 0.0, 0.0, 0.0, 0.0]

  /** The range of the code's distribution. */
  predicate Unit(ds: Draws) { forall i :: 0 <= i < |ds| ==> 0.0 <= ds[i] < 1.0 }

  predicate DelayFires(o: ActiveOutcome, ds: Draws) { o.delay.p > 0.0 && ds[0] < o.delay.p }

  /** The largest delay that can be drawn: the plan's limit, converted to an `int`. */
  function DelayLimit(o: ActiveOutcome): int { ToInt(o.maxDelay % 0x1_0000_0000) }

  /** The delay is drawn from an empty range. */
  predicate EmptyRange(o: ActiveOutcome, ds: Draws) { DelayFires(o, ds) && DelayLimit(o) < 0 }

  predicate DelaysAfter(o: ActiveOutcome, ds: Draws)
  {
    DelayFires(o, ds) && o.delay.afterBias != 0.0 && ds[1] < o.delay.afterBias
  }

  /** How many draws the delay decision takes. */
  function DelayDraws(o: ActiveOutcome, ds: Draws): (n: nat)
    ensures n <= 2
  {
    if o.delay.p > 0.0 then if DelayFires(o, ds) then 2 else 1 else 0
  }

  predicate FailFires(o: ActiveOutcome, ds: Draws) { o.fail.p > 0.0 && ds[DelayDraws(o, ds)] < o.fail.p }

  /** The error drawn for a failure. */
  function Drawn(o: ActiveOutcome, ds: Draws): Option<int> { Pick(o.table, ErrorDraw(o, ds)) }

  function ErrorDraw(o: ActiveOutcome, ds: Draws): real { ds[DelayDraws(o, ds) + 1] }

  predicate FailsAfter(o: ActiveOutcome, ds: Draws)
  {
    FailFires(o, ds) && o.fail.afterBias != 0.0 && ds[DelayDraws(o, ds) + 2] < o.fail.afterBias
  }

  predicate FailsBefore(o: ActiveOutcome, ds: Draws)
  {
    FailFires(o, ds) && !FailsAfter(o, ds) && Drawn(o, ds).Some?
  }

  /** The end of the table is read as if it held an error. */
  predicate ReadsPastEnd(o: ActiveOutcome, ds: Draws) { FailsAfter(o, ds) && Drawn(o, ds).None? }

  /** The decision does something that the C++ standard leaves undefined. */
  predicate Undefined(o: ActiveOutcome, ds: Draws) { EmptyRange(o, ds) || ReadsPastEnd(o, ds) }

  predicate Injects(plan: map<int, ActiveOutcome>, g: seq<nat>)
    requires |g| == NGREG
  {
    ToInt(g[Slot(RAX)]) in plan && plan[ToInt(g[Slot(RAX)])].eligible(g)
  }

  /** What is done, in order, for a call that the plan covers. */
  function Effects(o: ActiveOutcome, ds: Draws, us: nat, req: Request): seq<Effect>
  {
    (if DelayFires(o, ds) && !DelaysAfter(o, ds) then [Sleep(us)] else []) +
    (if FailsBefore(o, ds) then [] else [Call(req)] + if DelaysAfter(o, ds) && us != 0 then [Sleep(us)] else [])
  }

  /** What the thread finds in RAX. */
  function Outcome(o: ActiveOutcome, ds: Draws, kernel: Request -> nat, req: Request): nat
  {
    if (FailsBefore(o, ds) || FailsAfter(o, ds)) && Drawn(o, ds).Some? &&
       (FailsBefore(o, ds) || Drawn(o, ds).value != 0)
    then ToWord(-Drawn(o, ds).value)
    else kernel(req)
  }

  method ContinueSyscall(gregs: array<nat>, kernel: Request -> nat) returns (req: Request)
    requires gregs.Length == NGREG
    modifies gregs
    ensures req == Continued(old(gregs[..]))
    ensures gregs[..] == old(gregs[..])[Slot(RAX) := kernel(req)]
  {
    req := View(Placed(gregs[Slot(RDI)], gregs[Slot(RSI)], gregs[Slot(RDX)], gregs[Slot(R10)],
                       gregs[Slot(R8)], gregs[Slot(R9)], ToInt(gregs[Slot(RAX)])));
    gregs[Slot(RAX)] := kernel(req);
  }

  method FailMaybe(gregs: array<nat>, plan: map<int, ActiveOutcome>, ds: Draws, us: nat, kernel: Request -> nat)
    returns (fx: seq<Effect>, undefined: bool)
    requires gregs.Length == NGREG
    modifies gregs
    ensures !Injects(plan, old(gregs[..])) ==>
              && !undefined && fx == [Call(Continued(old(gregs[..])))]
              && gregs[..] == old(gregs[..])[Slot(RAX) := kernel(Continued(old(gregs[..])))]
    ensures Injects(plan, old(gregs[..])) ==>
              var o, req := plan[ToInt(old(gregs[..])[Slot(RAX)])], Continued(old(gregs[..]));
              && undefined == Undefined(o, ds)
              && (!undefined ==> fx == Effects(o, ds, us, req) &&
                                 gregs[..] == old(gregs[..])[Slot(RAX) := Outcome(o, ds, kernel, req)])
  {
    hide Continued, View, Placed, ToInt, ToWord, LowerBound, DelayLimit;
    fx, undefined := [], false;
    var call := ToInt(gregs[Slot(RAX)]);
    if call !in plan || !plan[call].eligible(gregs[..]) {
      var req := ContinueSyscall(gregs, kernel);
      fx := [Call(req)];
      return;
    }
    var o := plan[call];
    var next, delayAfter := 0, 0;
    if o.delay.p > 0.0 {
      next := 1;
      if ds[0] < o.delay.p {
        var afterP := ds[1];
        next := 2;
        if DelayLimit(o) < 0 {
          undefined := true;
          return;
        }
        if o.delay.afterBias != 0.0 && afterP < o.delay.afterBias {
          delayAfter := us;
        } else {
          fx := [Sleep(us)];
        }
      }
    }
    var failWith := 0;
    if o.fail.p > 0.0 {
      if ds[next] < o.fail.p {
        var e := LowerBound(o.table, ds[next + 1]);
        var afterP := ds[next + 2];
        if o.fail.afterBias != 0.0 && afterP < o.fail.afterBias {
          if e == |o.table| {
            undefined := true;
            return;
          }
          failWith := o.table[e].err;
        } else if e < |o.table| {
          gregs[Slot(RAX)] := ToWord(-o.table[e].err);
          return;
        }
      }
    }
    var req := ContinueSyscall(gregs, kernel);
    fx := fx + [Call(req)];
    if delayAfter != 0 {
      fx := fx + [Sleep(delayAfter)];
    }
    if failWith != 0 {
      gregs[Slot(RAX)] := ToWord(-failWith);
    }
  }

  // ---------- What every decision keeps ----------

  function Calls(fx: seq<Effect>): nat
  {
    if fx == [] then 0 else Calls(fx[1..]) + if fx[0].Call? || fx[0].CallOn? then 1 else 0
  }

  function Sleeps(fx: seq<Effect>): nat
  {
    if fx == [] then 0 else Sleeps(fx[1..]) + if fx[0].Sleep? then 1 else 0
  }

  lemma {:induction false} CountTwo(a: Effect, b: Effect)
    ensures Calls([a]) == (if a.Call? || a.CallOn? then 1 else 0) && Sleeps([a]) == (if a.Sleep? then 1 else 0)
    ensures Calls([a, b]) == Calls([a]) + Calls([b]) && Sleeps([a, b]) == Sleeps([a]) + Sleeps([b])
  {
    assert [a, b][1..] == [b];
  }

  /** A limit that does not fit in an `int` is cut down, or leaves no range to draw from, as a
      negative one does; one far below 0 even leaves a range above it. */
  lemma {:induction false} DelayLimitExactly(o: ActiveOutcome)
    ensures DelayLimit(o) <= o.maxDelay <==> -0x8000_0000 <= o.maxDelay
    ensures DelayLimit(o) == o.maxDelay <==> -0x8000_0000 <= o.maxDelay < 0x8000_0000
    ensures DelayLimit(o) < 0 <==> o.maxDelay % 0x1_0000_0000 >= 0x8000_0000
  {
  }

  /** For every draw: the call is made, once, unless a failure fires before it; there is at
      most one sleep, of the drawn length, before the call or after it as chosen; and a chosen
      delay is dropped only if it was to come after a call that failed before. */
  lemma {:induction false} DecisionKeeps(o: ActiveOutcome, ds: Draws, us: nat, req: Request)
    requires DelayFires(o, ds) ==> us <= DelayLimit(o)
    ensures var fx := Effects(o, ds, us, req);
            && Calls(fx) == (if FailsBefore(o, ds) then 0 else 1)
            && Sleeps(fx) <= 1
            && (forall e :: e in fx ==> e == Call(req) || (e == Sleep(us) && us <= DelayLimit(o)))
            && (Sleep(us) in fx && Call(req) in fx ==> (fx == [Call(req), Sleep(us)] <==> DelaysAfter(o, ds)))
            && (DelayFires(o, ds) && Sleeps(fx) == 0 ==> DelaysAfter(o, ds) && (FailsBefore(o, ds) || us == 0))
            && (Sleeps(fx) == 1 ==> DelayFires(o, ds))
  {
    var fx := Effects(o, ds, us, req);
    assert fx == [] || fx == [Call(req)] || fx == [Sleep(us)] || fx == [Sleep(us), Call(req)] ||
        fx == [Call(req), Sleep(us)];
    CountTwo(Sleep(us), Call(req));
    CountTwo(Call(req), Sleep(us));
  }

  /** For a plan with positive errors and some sum of weights of at least 1: nothing is read
      past the table's end, a failure that fires always shows, as one of the planned errors
      negated, and without one the thread gets the kernel's result. */
  lemma {:induction false} FailureShows(o: ActiveOutcome, ws: seq<Weight>, ds: Draws, kernel: Request -> nat,
                                        req: Request)
    returns (i: nat)
    requires o.table == Table(ws, |ws|) && Reaches(ws, 1.0) && Unit(ds)
    requires forall i :: 0 <= i < |ws| ==> ws[i].err > 0
    ensures !ReadsPastEnd(o, ds)
    ensures FailFires(o, ds) ==> (FailsBefore(o, ds) <==> !FailsAfter(o, ds))
    ensures i < |ws| && Outcome(o, ds, kernel, req) == if FailFires(o, ds) then ToWord(-ws[i].err) else kernel(req)
  {
    hide Pick, Table;
    i := PickFrom(ws, ErrorDraw(o, ds));
  }

  /** Draws in which a failure fires, with the given draws for the error and for its side. */
  lemma {:induction false} FailingDraws(o: ActiveOutcome, p: real, side: real) returns (ds: Draws)
    requires 0.0 <= p < 1.0 && 0.0 <= side < 1.0 && o.fail.p > 0.0
    ensures Unit(ds) && FailFires(o, ds) && ErrorDraw(o, ds) == p
    ensures FailsAfter(o, ds) <==> o.fail.afterBias != 0.0 && side < o.fail.afterBias
  {
    ds := if o.delay.p > 0.0 then [0.0, 0.0, 0.0, p, side] else [0.0, p, side, 0.0, 0.0];
  }

  /** Which plans read the table past its end on some draws: those that fail some calls after
      they are made and have no sum of weights that reaches 1, among them plans without any
      weight. */
  lemma {:induction false} ReadsPastEndExactly(o: ActiveOutcome, ws: seq<Weight>)
    requires o.table == Table(ws, |ws|)
    ensures (exists ds: Draws :: Unit(ds) && ReadsPastEnd(o, ds)) <==>
            o.fail.p > 0.0 && o.fail.afterBias > 0.0 && !Reaches(ws, 1.0)
    ensures Positive(ws) ==> (Reaches(ws, 1.0) <==> Total(ws) >= 1.0)
  {
    hide Pick, Table;
    if o.fail.p > 0.0 && o.fail.afterBias > 0.0 && !Reaches(ws, 1.0) {
      var p := DrawBeyond(ws, |ws|);
      var ds := FailingDraws(o, p, 0.0);
      var k := PickFrom(ws, p);
      assert Unit(ds) && ReadsPastEnd(o, ds);
    }
    if ds: Draws :| Unit(ds) && ReadsPastEnd(o, ds) {
      var k := PickFrom(ws, ErrorDraw(o, ds));
    }
    AlwaysPicksExactly(ws);
  }

  /** A failure fires, nothing undefined happens, and the thread gets the kernel's result as if
      there had been none. */
  ghost predicate Silent(o: ActiveOutcome, ds: Draws)
  {
    && FailFires(o, ds) && !ReadsPastEnd(o, ds)
    && forall kernel: Request -> nat, req :: Outcome(o, ds, kernel, req) == kernel(req)
  }

  /** A failure goes unnoticed when its draw is beyond all errors, before the call, and when the
      error drawn is 0, after it. */
  lemma {:induction false} SilentIs(o: ActiveOutcome, ds: Draws)
    ensures Silent(o, ds) <==>
            FailFires(o, ds) && if FailsAfter(o, ds) then Drawn(o, ds) == Some(0) else Drawn(o, ds) == None
  {
    hide Drawn, ToWord, FailFires;
    var req := Request(0, []);
    if Silent(o, ds) && Drawn(o, ds).Some? {
      var kernel := (_: Request) => 1 + ToWord(-Drawn(o, ds).value);
      assert Outcome(o, ds, kernel, req) == kernel(req);
    }
  }

  /** Which plans let some of their failures go unnoticed: those that fail some calls before they
      are made and have no sum of weights that reaches 1, and those that fail some calls after
      they are made with an error 0 that some draw picks. */
  lemma {:induction false} SilentExactly(o: ActiveOutcome, ws: seq<Weight>)
    requires o.table == Table(ws, |ws|)
    ensures (exists ds: Draws :: Unit(ds) && Silent(o, ds)) <==>
            && o.fail.p > 0.0
            && (|| (o.fail.afterBias < 1.0 && !Reaches(ws, 1.0))
                || (o.fail.afterBias > 0.0 && exists i :: 0 <= i < |ws| && ws[i].err == 0 && Drawable(ws, i)))
  {
    hide Pick, Table, Silent, Drawable;
    PickedExactly(ws, 0);
    if o.fail.p > 0.0 && o.fail.afterBias < 1.0 && !Reaches(ws, 1.0) {
      var p := DrawBeyond(ws, |ws|);
      var ds := FailingDraws(o, p, if o.fail.afterBias < 0.0 then 0.0 else o.fail.afterBias);
      var k := PickFrom(ws, p);
      SilentIs(o, ds);
      assert Unit(ds) && Silent(o, ds);
    }
    if o.fail.p > 0.0 && o.fail.afterBias > 0.0 {
      if p :| 0.0 <= p < 1.0 && Pick(Table(ws, |ws|), p) == Some(0) {
        var ds := FailingDraws(o, p, 0.0);
        SilentIs(o, ds);
        assert Unit(ds) && Silent(o, ds);
      }
    }
    if ds: Draws :| Unit(ds) && Silent(o, ds) {
      SilentIs(o, ds);
      var k := PickFrom(ws, ErrorDraw(o, ds));
      SideDraw(o, ds);
    }
  }

  /** The draw that decides on the side of a failure. */
  lemma {:induction false} SideDraw(o: ActiveOutcome, ds: Draws)
    requires Unit(ds) && FailFires(o, ds)
    ensures o.fail.p > 0.0 && 0.0 <= ErrorDraw(o, ds) < 1.0
    ensures if FailsAfter(o, ds) then o.fail.afterBias > 0.0 else o.fail.afterBias < 1.0
  {
  }

  /** Which plans are undefined on some draws. */
  lemma {:induction false} UndefinedExactly(o: ActiveOutcome, ws: seq<Weight>)
    requires o.table == Table(ws, |ws|)
    ensures (exists ds: Draws :: Unit(ds) && Undefined(o, ds)) <==>
            || (o.delay.p > 0.0 && o.maxDelay % 0x1_0000_0000 >= 0x8000_0000)
            || (o.fail.p > 0.0 && o.fail.afterBias > 0.0 && !Reaches(ws, 1.0))
  {
    hide DelayLimit, ReadsPastEnd, Table, Reaches, FailsAfter;
    DelayLimitExactly(o);
    ReadsPastEndExactly(o, ws);
    var zero: Draws := [0.0, 0.0, 0.0, 0.0, 0.0];
    assert Unit(zero) && (o.delay.p > 0.0 ==> DelayFires(o, zero));
    if o.fail.p > 0.0 && o.fail.afterBias > 0.0 && !Reaches(ws, 1.0) {
      var ds: Draws :| Unit(ds) && ReadsPastEnd(o, ds);
      assert Undefined(o, ds);
    }
  }

  // ---------- The trap handler ----------

  /** A masking call that the handler neither makes nor answers. `member` is what
      `sigismember` gives for SIGSYS in the set that the thread passed. */
  predicate Dropped(g: seq<nat>, session: bool, member: int)
    requires |g| == NGREG
  {
    session && g[Slot(RAX)] == SYS_RT_SIGPROCMASK && (member == 0 || g[Slot(RDI)] !in {SIG_BLOCK, SIG_SETMASK})
  }

  /** The handler asks the plan what to do. */
  predicate Decides(g: seq<nat>, session: bool, plan: map<int, ActiveOutcome>)
    requires |g| == NGREG
  {
    session && g[Slot(RAX)] !in {SYS_RT_SIGPROCMASK, SYS_RT_SIGRETURN, SYS_EXIT} && Injects(plan, g)
  }

  datatype Response = Response(undefined: bool, fx: seq<Effect>, regs: seq<nat>)

  /** What the handler does for a context up to the restoring of it. */
  function Handled(g: seq<nat>, session: bool, plan: map<int, ActiveOutcome>, member: int,
                   ds: Draws, us: nat, kernel: Request -> nat): Response
    requires |g| == NGREG
  {
    var nr, req := g[Slot(RAX)], Continued(g);
    if Dropped(g, session, member) then Response(false, [], g)
    else if session && nr == SYS_RT_SIGPROCMASK then
      Response(false, [DisarmSelf, Call(req), SendRearm], g[Slot(RAX) := kernel(req)])
    else if nr == SYS_RT_SIGRETURN then Response(false, [CallOn(req, g[Slot(RSP)])], g)
    else if Decides(g, session, plan) then
      var o := plan[ToInt(nr)];
      Response(Undefined(o, ds), Effects(o, ds, us, req), g[Slot(RAX) := Outcome(o, ds, kernel, req)])
    else Response(false, [Call(req)], g[Slot(RAX) := kernel(req)])
  }

  /** `handle_sigsys` up to the restoring of the context. */
  method HandleSigsys(gregs: array<nat>, session: bool, plan: map<int, ActiveOutcome>, member: int,
                      ds: Draws, us: nat, kernel: Request -> nat)
    returns (fx: seq<Effect>, undefined: bool)
    requires gregs.Length == NGREG
    modifies gregs
    ensures var h := Handled(old(gregs[..]), session, plan, member, ds, us, kernel);
            undefined == h.undefined && (!undefined ==> fx == h.fx && gregs[..] == h.regs)
  {
    hide Continued, ToInt, Effects, Outcome, Undefined;
    fx, undefined := [], false;
    var nr := gregs[Slot(RAX)];
    if session && nr == SYS_RT_SIGPROCMASK {
      if member != 0 {
        var cmd := gregs[Slot(RDI)];
        if cmd == SIG_BLOCK || cmd == SIG_SETMASK {
          var req := ContinueSyscall(gregs, kernel);
          fx := [DisarmSelf, Call(req), SendRearm];
        }
      }
    } else if nr == SYS_RT_SIGRETURN {
      fx := [CallOn(Continued(gregs[..]), gregs[Slot(RSP)])];
    } else if session && nr != SYS_EXIT {
      fx, undefined := FailMaybe(gregs, plan, ds, us, kernel);
    } else {
      var req := ContinueSyscall(gregs, kernel);
      fx := [Call(req)];
    }
  }

  lemma {:induction false} CountThree(a: Effect, b: Effect, c: Effect)
    ensures Calls([a, b, c]) == Calls([a]) + Calls([b]) + Calls([c])
  {
    assert [a, b, c][1..] == [b, c];
    CountTwo(b, c);
  }

  predicate Delaying(g: seq<nat>, session: bool, plan: map<int, ActiveOutcome>, ds: Draws)
    requires |g| == NGREG
  {
    Decides(g, session, plan) && DelayFires(plan[ToInt(g[Slot(RAX)])], ds)
  }

  /** Unless the plan is undefined on the draws, the thread's call is made, once and with its
      arguments, or the plan fails it before it is made, if and only if it is not a masking call
      other than one that blocks SIGSYS. */
  lemma {:induction false} CallMadeExactly(g: seq<nat>, session: bool, plan: map<int, ActiveOutcome>, member: int,
                                           ds: Draws, us: nat, kernel: Request -> nat)
    requires |g| == NGREG
    requires Delaying(g, session, plan, ds) ==> us <= DelayLimit(plan[ToInt(g[Slot(RAX)])])
    ensures var h := Handled(g, session, plan, member, ds, us, kernel);
            var failed := Decides(g, session, plan) && FailsBefore(plan[ToInt(g[Slot(RAX)])], ds);
            && (h.undefined ==> !Dropped(g, session, member) && Undefined(plan[ToInt(g[Slot(RAX)])], ds))
            && (!h.undefined ==>
                  && (Calls(h.fx) == 1 || (Calls(h.fx) == 0 && failed) <==> !Dropped(g, session, member))
                  && (Calls(h.fx) == 0 <==> failed || Dropped(g, session, member))
                  && (forall e :: e in h.fx && (e.Call? || e.CallOn?) ==> e.req == Continued(g)))
  {
    hide Continued, ToInt, Effects, FailsBefore, Outcome, Undefined, DelayLimit;
    var req := Continued(g);
    CountThree(DisarmSelf, Call(req), SendRearm);
    CountTwo(DisarmSelf, SendRearm);
    CountTwo(Call(req), CallOn(req, g[Slot(RSP)]));
    if Decides(g, session, plan) { DecisionKeeps(plan[ToInt(g[Slot(RAX)])], ds, us, req); }
  }

  /** A dropped masking call: the thread resumes as after a call that returned 14, its own
      number, whatever the kernel would have said, and its mask is what it was. */
  lemma {:induction false} DroppedReturnsNumber(g: seq<nat>, session: bool, plan: map<int, ActiveOutcome>, member: int,
                                                ds: Draws, us: nat, kernel: Request -> nat, m: Cpu)
    requires |g| == NGREG && Dropped(g, session, member)
    requires ContextAt(m.mem, m.regs(RDI), Handled(g, session, plan, member, ds, us, kernel).regs)
    requires ContextClear(m.mem, m.regs(RDI))
    ensures Handled(g, session, plan, member, ds, us, kernel).fx == []
    ensures var r := Run(SYSFAIL_RESTORE, m);
            && r.regs(RAX) == SYS_RT_SIGPROCMASK && r.rip == g[SLOT_RIP]
            && ((forall q :: r.regs(q) == Direct(g, kernel, m.mem).regs(q)) <==>
                  kernel(View(RegsOf(g))) == SYS_RT_SIGPROCMASK)
  {
    hide Run, Load, Continued, View, ContextClear, AfterRestore, Saved;
    RestoreLoadsContext(m);
    var r := Run(SYSFAIL_RESTORE, m);
    forall q ensures r.regs(q) == g[Slot(q)] { assert Saved(m.mem, m.regs(RDI), Slot(q)) == g[Slot(q)]; }
    forall q ensures Slot(q) == Slot(RAX) <==> q == RAX {}
    assert r.regs(RAX) == SYS_RT_SIGPROCMASK;
  }

  /** The context `g` lies in memory at `base`. */
  ghost predicate ContextAt(mem: Memory, base: int, g: seq<nat>)
    requires |g| == NGREG
  {
    forall i :: 0 <= i <= SLOT_EFL ==> Saved(mem, base, i) == g[i]
  }

  /** A thread that makes its call itself: the kernel's result in RAX, everything else as it
      was when the call was made. */
  function Direct(g: seq<nat>, kernel: Request -> nat, mem: Memory): Cpu
    requires |g| == NGREG
  {
    Cpu(Set(RegsOf(g), RAX, kernel(View(RegsOf(g)))), g[SLOT_RIP], g[SLOT_EFL], mem)
  }

  /** Interception without injection is transparent. After the handler, memory is as the kernel
      left it but for the handler's own area. Then `sysfail_restore` resumes the thread in the
      state that a direct call would have given, but for that area and the 16 bytes below the
      stack pointer. */
  lemma {:induction false} PassThroughIsDirect(g: seq<nat>, session: bool, plan: map<int, ActiveOutcome>,
                                               member: int, ds: Draws, us: nat,
                                               kernel: Request -> nat, m: Cpu, mem: Memory, own: nat -> bool)
    requires |g| == NGREG && g[Slot(RAX)] < WORD && FitsInt(g[Slot(RAX)])
    requires !Dropped(g, session, member) && !Decides(g, session, plan) && g[Slot(RAX)] != SYS_RT_SIGRETURN
    requires ContextAt(m.mem, m.regs(RDI), Handled(g, session, plan, member, ds, us, kernel).regs)
    requires ContextClear(m.mem, m.regs(RDI))
    requires forall x :: 0 <= x < WORD && !own(x) ==> m.mem(x) == mem(x)
    ensures var r, d := Run(SYSFAIL_RESTORE, m), Direct(g, kernel, mem);
            && (forall q :: r.regs(q) == d.regs(q)) && r.rip == d.rip && r.flags == d.flags
            && (forall x | 0 <= x < WORD && !own(x) && Offset(x, g[Slot(RSP)] as int - 16) >= 16 ::
                r.mem(x) == d.mem(x))
  {
    hide Run, Load, Continued, View, FitsInt, ContextClear, AfterRestore, Offset, Saved;
    ContinuedIsDirect(g);
    RestoreLoadsContext(m);
    var base := m.regs(RDI);
    var r := Run(SYSFAIL_RESTORE, m);
    forall q ensures r.regs(q) == Direct(g, kernel, mem).regs(q) {
      assert Saved(m.mem, base, Slot(q)) == g[Slot(RAX) := kernel(Continued(g))][Slot(q)];
      assert Slot(q) == Slot(RAX) <==> q == RAX;
    }
    forall x | 0 <= x < WORD && !own(x) && Offset(x, g[Slot(RSP)] as int - 16) >= 16
      ensures r.mem(x) == mem(x)
    {
      assert Saved(m.mem, base, Slot(RSP)) == g[Slot(RSP)];
      RestoreFrame(m.mem, base, x);
    }
  }
}
