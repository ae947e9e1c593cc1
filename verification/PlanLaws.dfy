/** What the numbers of a plan mean for a thread: which draws delay and fail a call, on which side
    of it, and which calls are decided on at all. Everything is stated over what the thread sees,
    the effects and the result, and over the draws by their position. */
module PlanLaws {
  import opened Options
  import opened ErrorTable
  import opened Machine
  import opened Injection
  import SignalMask

  // ---------- Failures ----------

  /** A plan whose failures can all show: positive errors, and a sum of weights that reaches 1. */
  ghost predicate Sane(o: ActiveOutcome, ws: seq<Weight>)
  {
    o.table == Table(ws, |ws|) && Reaches(ws, 1.0) && forall i :: 0 <= i < |ws| ==> ws[i].err > 0
  }

  /** The thread gets something else than the kernel's result. */
  ghost predicate Seen(o: ActiveOutcome, ds: Draws)
  {
    exists kernel: Request -> nat, req :: Outcome(o, ds, kernel, req) != kernel(req)
  }

  /** The position of the draw that decides on a failure: the first one without a delay, the second
      one when a delay was drawn and did not come, the third one when it came. */
  function FailAt(o: ActiveOutcome, ds: Draws): (n: nat)
    ensures n <= 2
  {
    if o.delay.p <= 0.0 then 0 else if ds[0] < o.delay.p then 2 else 1
  }

  /** A failure shows exactly for deciding draws below its probability. It gives the error that the
      next draw picks, and the call is made exactly for draws, one further, below the bias. */
  lemma {:induction false} FailureExactly(o: ActiveOutcome, ws: seq<Weight>, ds: Draws, us: nat)
    requires Sane(o, ws) && Unit(ds) && (DelayFires(o, ds) ==> us <= DelayLimit(o))
    ensures Seen(o, ds) <==> ds[FailAt(o, ds)] < o.fail.p
    ensures Seen(o, ds) ==>
              var e := Pick(o.table, ds[FailAt(o, ds) + 1]);
              e.Some? && forall kernel, req :: Outcome(o, ds, kernel, req) == ToWord(-e.value)
    ensures forall req ::
              Calls(Effects(o, ds, us, req)) == 1 <==> !Seen(o, ds) || ds[FailAt(o, ds) + 2] < o.fail.afterBias
  {
    hide Pick, Table, Calls, Effects, ToWord;
    var k := PickFrom(ws, ds[FailAt(o, ds) + 1]);
    var kernel := (_: Request) => 1 + ToWord(-ws[k].err);
    var req := Request(0, []);
    assert Outcome(o, ds, kernel, req) == (if ds[FailAt(o, ds)] < o.fail.p then ToWord(-ws[k].err) else kernel(req));
    forall req ensures Calls(Effects(o, ds, us, req)) == if FailsBefore(o, ds) then 0 else 1 {
      DecisionKeeps(o, ds, us, req);
    }
  }

  /** Draws with given values at the deciding positions. */
  lemma {:induction false} DrawsAt(o: ActiveOutcome, x: real, p: real, side: real) returns (ds: Draws)
    requires 0.0 <= x < 1.0 && 0.0 <= p < 1.0 && 0.0 <= side < 1.0
    ensures Unit(ds) && ds[FailAt(o, ds)] == x && ds[FailAt(o, ds) + 1] == p && ds[FailAt(o, ds) + 2] == side
  {
    ds := if o.delay.p > 0.0 then [0.0, 0.0, x, p, side] else [x, p, side, 0.0, 0.0];
  }

  /** A draw that is not below a bound. */
  function AtLeast(b: real): (x: real)
    requires b < 1.0
    ensures 0.0 <= x < 1.0 && x >= b
  {
    if b < 0.0 then 0.0 else b
  }

  /** A plan fails every call if and only if its probability is at least 1, and some calls if and
      only if it is above 0. */
  lemma {:induction false} FailureThresholds(o: ActiveOutcome, ws: seq<Weight>)
    requires Sane(o, ws) && DelayLimit(o) >= 0
    ensures (forall ds: Draws :: Unit(ds) ==> Seen(o, ds)) <==> o.fail.p >= 1.0
    ensures (exists ds: Draws :: Unit(ds) && Seen(o, ds)) <==> o.fail.p > 0.0
  {
    hide Seen, Sane, DelayLimit;
    forall ds: Draws | Unit(ds) ensures Seen(o, ds) <==> ds[FailAt(o, ds)] < o.fail.p { FailureExactly(o, ws, ds, 0); }
    if o.fail.p < 1.0 { var ds := DrawsAt(o, AtLeast(o.fail.p), 0.0, 0.0); assert !Seen(o, ds); }
    if o.fail.p > 0.0 { var ds := DrawsAt(o, 0.0, 0.0, 0.0); assert Seen(o, ds); }
  }

  /** Its failures all come after the call if and only if the bias is at least 1, and all before it
      if and only if the bias is not above 0. */
  lemma {:induction false} SideThresholds(o: ActiveOutcome, ws: seq<Weight>, req: Request)
    requires Sane(o, ws) && DelayLimit(o) >= 0 && o.fail.p > 0.0
    ensures (forall ds: Draws :: Unit(ds) && Seen(o, ds) ==> Calls(Effects(o, ds, 0, req)) == 1) <==>
            o.fail.afterBias >= 1.0
    ensures (forall ds: Draws :: Unit(ds) && Seen(o, ds) ==> Calls(Effects(o, ds, 0, req)) == 0) <==>
            o.fail.afterBias <= 0.0
  {
    hide Seen, Sane, DelayLimit, Calls, Effects;
    forall ds: Draws | Unit(ds)
      ensures Seen(o, ds) <==> ds[FailAt(o, ds)] < o.fail.p
      ensures Calls(Effects(o, ds, 0, req)) == 1 <==> !Seen(o, ds) || ds[FailAt(o, ds) + 2] < o.fail.afterBias
      ensures Calls(Effects(o, ds, 0, req)) <= 1
    {
      FailureExactly(o, ws, ds, 0);
      DecisionKeeps(o, ds, 0, req);
    }
    if o.fail.afterBias < 1.0 {
      var ds := DrawsAt(o, 0.0, 0.0, AtLeast(o.fail.afterBias));
      assert Seen(o, ds);
    }
    var ds := DrawsAt(o, 0.0, 0.0, 0.0);
    assert Seen(o, ds);
  }

  // ---------- Delays ----------

  /** A delay comes exactly for first draws below its probability: before the call, unless the
      second draw is below the bias, and after it then, if the call is made. */
  lemma {:induction false} DelayExactly(o: ActiveOutcome, ds: Draws, us: nat, req: Request)
    requires Unit(ds) && us > 0 && (DelayFires(o, ds) ==> us <= DelayLimit(o))
    ensures var fx := Effects(o, ds, us, req);
            && (fx != [] && fx[0] == Sleep(us) <==> ds[0] < o.delay.p && ds[1] >= o.delay.afterBias)
            && (fx == [Call(req), Sleep(us)] <==> ds[0] < o.delay.p && ds[1] < o.delay.afterBias && Calls(fx) == 1)
            && (Sleeps(fx) == 1 <==> (fx != [] && fx[0] == Sleep(us)) || fx == [Call(req), Sleep(us)])
  {
    hide FailsBefore, DelayLimit;
    DecisionKeeps(o, ds, us, req);
    CountTwo(Sleep(us), Call(req));
    CountTwo(Call(req), Sleep(us));
  }

  /** A plan without failures delays every call if and only if the probability of a delay is at
      least 1, and some calls if and only if it is above 0. */
  lemma {:induction false} DelayThresholds(o: ActiveOutcome, us: nat, req: Request)
    requires o.fail.p <= 0.0 && 0 < us <= DelayLimit(o)
    ensures (forall ds: Draws :: Unit(ds) ==> Sleeps(Effects(o, ds, us, req)) == 1) <==> o.delay.p >= 1.0
    ensures (exists ds: Draws :: Unit(ds) && Sleeps(Effects(o, ds, us, req)) == 1) <==> o.delay.p > 0.0
  {
    hide DelayLimit, Effects, Sleeps, Calls;
    forall ds: Draws | Unit(ds) ensures Sleeps(Effects(o, ds, us, req)) == 1 <==> ds[0] < o.delay.p {
      DelayExactly(o, ds, us, req);
      DecisionKeeps(o, ds, us, req);
    }
    if o.delay.p < 1.0 {
      var ds: Draws := [AtLeast(o.delay.p), 0.0, 0.0, 0.0, 0.0];
      assert Unit(ds) && !(ds[0] < o.delay.p);
    }
    if o.delay.p > 0.0 {
      var ds: Draws := [0.0, 0.0, 0.0, 0.0, 0.0];
      assert Unit(ds) && ds[0] < o.delay.p;
    }
  }

  // ---------- Which calls are decided on ----------

  /** Numbers of calls with a branch of their own: rt_sigprocmask, rt_sigreturn and exit. */
  predicate Special(nr: nat) { nr == 14 || nr == 15 || nr == 60 }

  /** A call that the plan does not name, or that its predicate does not want, is passed through:
      made once as it is, and answered with the kernel's result. */
  lemma {:induction false} PassedThrough(g: seq<nat>, session: bool, plan: map<int, ActiveOutcome>, member: int,
                                         ds: Draws, us: nat, kernel: Request -> nat)
    requires |g| == NGREG
    requires var k := ToInt(g[13]); k !in plan || !plan[k].eligible(g)
    requires !Special(g[13])
    ensures Handled(g, session, plan, member, ds, us, kernel) ==
            Response(false, [Call(Continued(g))], g[13 := kernel(Continued(g))])
  {
  }

  /** Without a session every call but rt_sigreturn is passed through, and exit always is. */
  lemma {:induction false} AlwaysPassedThrough(g: seq<nat>, session: bool, plan: map<int, ActiveOutcome>, member: int,
                                               ds: Draws, us: nat, kernel: Request -> nat)
    requires |g| == NGREG && ((!session && g[13] != 15) || g[13] == 60)
    ensures Handled(g, session, plan, member, ds, us, kernel) ==
            Response(false, [Call(Continued(g))], g[13 := kernel(Continued(g))])
  {
  }

  /** Whatever the handler does, in the thread's context only the result changes. */
  lemma {:induction false} OnlyResultChanges(g: seq<nat>, session: bool, plan: map<int, ActiveOutcome>, member: int,
                                             ds: Draws, us: nat, kernel: Request -> nat)
    requires |g| == NGREG
    ensures var h := Handled(g, session, plan, member, ds, us, kernel);
            |h.regs| == NGREG && forall i :: 0 <= i < NGREG && i != 13 ==> h.regs[i] == g[i]
  {
  }

  /** A return from a signal handler is made on the thread's own stack, and changes no register. */
  lemma {:induction false} SigreturnOnOwnStack(g: seq<nat>, session: bool, plan: map<int, ActiveOutcome>, member: int,
                                               ds: Draws, us: nat, kernel: Request -> nat)
    requires |g| == NGREG && g[13] == 15
    ensures Handled(g, session, plan, member, ds, us, kernel) == Response(false, [CallOn(Continued(g), g[15])], g)
  {
  }

  /** A plan that fails one system call before it is made, always: with a session the call is not
      made, and gives a planned error, if and only if it is that call and wanted by the predicate. */
  lemma {:induction false} FailsExactlyThePlanned(g: seq<nat>, k: int, o: ActiveOutcome, ws: seq<Weight>, member: int,
                                                  ds: Draws, us: nat, kernel: Request -> nat)
    requires |g| == NGREG && !Special(g[13]) && Sane(o, ws) && Unit(ds)
    requires o.fail.p >= 1.0 && o.fail.afterBias <= 0.0 && o.delay.p <= 0.0
    ensures var h := Handled(g, true, map[k := o], member, ds, us, kernel);
            && !h.undefined
            && (Calls(h.fx) == 0 <==> ToInt(g[13]) == k && o.eligible(g))
            && (Calls(h.fx) == 0 ==> exists i :: 0 <= i < |ws| && h.regs == g[13 := ToWord(-ws[i].err)])
  {
    hide Continued, ToInt, Table, Pick, Calls, Effects, ToWord;
    var req := Continued(g);
    CountTwo(Call(req), Call(req));
    if ToInt(g[13]) == k && o.eligible(g) {
      FailureExactly(o, ws, ds, us);
      DecisionKeeps(o, ds, us, req);
      var i := PickFrom(ws, ds[1]);
      assert Outcome(o, ds, kernel, req) == ToWord(-ws[i].err);
    }
  }

  // ---------- Masking calls ----------

  /** The kernel's number for a way of masking. */
  function HowNumber(how: SignalMask.How): nat
  {
    match how case Block => 0 case Unblock => 1 case SetMask => 2
  }

  /** The handler does with a masking call what the model of signal masks has an armed thread do:
      it drops the call, or goes through disarming, the call and the re-arming signal. */
  lemma {:induction false} MaskingCalls(g: seq<nat>, plan: map<int, ActiveOutcome>, member: int, ds: Draws, us: nat,
                                        kernel: Request -> nat, t: SignalMask.Thread, how: SignalMask.How)
    requires |g| == NGREG && g[13] == 14 && g[8] == HowNumber(how) && t.armed
    ensures var h := Handled(g, true, plan, member, ds, us, kernel);
            && !h.undefined
            && if SignalMask.Drops(t, how, member != 0) then h.fx == [] && h.regs == g
               else h.fx == [DisarmSelf, Call(Continued(g)), SendRearm] && h.regs == g[13 := kernel(Continued(g))]
  {
  }

  /** By the numbers: a call that blocks SIGSYS or sets a mask with it is disarmed, made and
      followed by the re-arming signal, in this order; any other masking call is dropped. */
  lemma {:induction false} MaskingNumbers(g: seq<nat>, plan: map<int, ActiveOutcome>, member: int, ds: Draws, us: nat,
                                          kernel: Request -> nat)
    requires |g| == NGREG && g[13] == 14
    ensures var fx := Handled(g, true, plan, member, ds, us, kernel).fx;
            && (member != 0 && (g[8] == 0 || g[8] == 2) ==> fx == [DisarmSelf, Call(Continued(g)), SendRearm])
            && (member == 0 || (g[8] != 0 && g[8] != 2) ==> fx == [])
  {
  }
}
