/** Signal masks and the selector of one thread. While a thread blocks SIGSYS its system
    calls must not trap: the kernel kills a thread that traps with the signal blocked. The
    handler therefore disarms the selector before it lets a masking call through, and sends
    the thread a signal that re-arms it once it is delivered.

    Three things are up to the program: that it masks the control signals whenever it masks
    SIGSYS, that a thread adds itself only while it does not mask SIGSYS, and that no removal
    by id is carried out while the thread is on its way through the handler. Under these
    conditions, which are part of `Enabled`, no thread is harmed; and for each of them there is
    a theorem that breaking it once does harm. A signal a thread sends to itself is delivered,
    if it is not blocked, before the thread goes on. */
module SignalMask {
  /** Somebody else holds the entry's accessor while it is being enabled, disabled or erased. */
  datatype Entry = Absent | Enabling | On | Disabling | Erasing

  datatype How = Block | Unblock | SetMask

  /** On its way through the handler the thread is about to make a call that blocks SIGSYS;
      `control` says whether the control signals are in the same set. */
  datatype Pc = User | Trapped(how: How, control: bool) | Disarmed(how: How, control: bool) | Called

  datatype Thread = Thread(
    entry: Entry, armed: bool, sys: bool, ctl: bool, rearms: nat, pc: Pc, killed: bool, aborted: bool)

  datatype Step =
    | Mask(how: How, sigsys: bool, control: bool)
    | OtherCall
    | Disarm
    | CallThrough(ok: bool)
    | SendRearm
    | DeliverRearm
    | RemoteAdd
    | DeliverEnable
    | RemoteRemove
    | DeliverDisable
    | Erase
    | LocalAdd
    | LocalRemove

  /** Whether a signal is blocked after a call that the kernel carries out. */
  function Masked(blocked: bool, how: How, member: bool): bool
  {
    match how
    case Block => blocked || member
    case Unblock => blocked && !member
    case SetMask => member
  }

  /** The re-arming signal is about to be delivered. */
  predicate Due(t: Thread) { !t.ctl && t.rearms > 0 }

  predicate InHandler(t: Thread) { t.pc.Trapped? || t.pc.Disarmed? }

  /** The accessor of the thread's entry can be had, or found missing. */
  predicate Free(t: Thread) { t.entry == On || t.entry == Absent }

  /** The call leaves SIGSYS blocked only together with the control signals. */
  predicate Coupled(t: Thread, how: How, sigsys: bool, control: bool)
  {
    Masked(t.sys, how, sigsys) ==> Masked(t.ctl, how, control)
  }

  predicate Enabled(t: Thread, step: Step)
  {
    && !t.killed && !t.aborted
    && match step
       case Mask(how, sigsys, control) => t.pc == User && !Due(t) && Coupled(t, how, sigsys, control)
       case OtherCall => t.pc == User && !Due(t)
       case Disarm => t.pc.Trapped? && !Due(t) && Free(t)
       case CallThrough(_) => t.pc.Disarmed? && !Due(t)
       case SendRearm => t.pc == Called && !Due(t)
       case DeliverRearm => Due(t) && Free(t)
       case RemoteAdd => t.entry == Absent
       case DeliverEnable => t.entry == Enabling && !t.ctl
       case RemoteRemove => t.entry == On
       case DeliverDisable => t.entry == Disabling && !t.ctl && !InHandler(t)
       case Erase => t.entry == Erasing
       case LocalAdd => t.pc == User && t.entry == Absent && !t.sys && !Due(t)
       case LocalRemove => t.pc == User && t.entry == On && !Due(t)
  }

  /** A masking call that traps goes the handler's way if it blocks SIGSYS, and is dropped
      otherwise. */
  predicate Drops(t: Thread, how: How, sigsys: bool) { t.armed && !(sigsys && how != Unblock) }

  function MaskCall(t: Thread, how: How, sigsys: bool, control: bool): Thread
  {
    if !t.armed then t.(sys := Masked(t.sys, how, sigsys), ctl := Masked(t.ctl, how, control))
    else if t.sys then t.(killed := true)
    else if Drops(t, how, sigsys) then t
    else t.(pc := Trapped(how, control))
  }

  function Disable(t: Thread): Thread { t.(entry := Erasing, armed := false) }

  function Add(t: Thread): Thread { t.(entry := On, armed := true) }

  function Do(t: Thread, step: Step): Thread
    requires Enabled(t, step)
  {
    match step
    case Mask(how, sigsys, control) => MaskCall(t, how, sigsys, control)
    case OtherCall => t.(killed := t.armed && t.sys)
    case Disarm =>
      if t.entry == Absent then t.(aborted := true)
      else t.(armed := false, pc := Disarmed(t.pc.how, t.pc.control))
    case CallThrough(ok) =>
      if ok then t.(sys := true, ctl := Masked(t.ctl, t.pc.how, t.pc.control), pc := Called)
      else t.(pc := Called)
    case SendRearm => t.(rearms := t.rearms + 1, pc := User)
    case DeliverRearm => t.(rearms := t.rearms - 1, armed := t.armed || t.entry == On)
    case RemoteAdd => t.(entry := Enabling)
    case DeliverEnable => Add(t)
    case RemoteRemove => t.(entry := Disabling)
    case DeliverDisable => Disable(t)
    case Erase => t.(entry := Absent)
    case LocalAdd => Add(t)
    case LocalRemove => t.(entry := Absent, armed := false)
  }

  predicate CanRun(t: Thread, steps: seq<Step>)
    decreases |steps|
  {
    steps == [] || (Enabled(t, steps[0]) && CanRun(Do(t, steps[0]), steps[1..]))
  }

  function Exec(t: Thread, steps: seq<Step>): Thread
    requires CanRun(t, steps)
    decreases |steps|
  {
    if steps == [] then t else Exec(Do(t, steps[0]), steps[1..])
  }

  // ---------- What every step keeps ----------

  /** The thread lives, and its next system call will not kill it. */
  predicate Safe(t: Thread) { !t.killed && !t.aborted && !(t.armed && t.sys) }

  predicate Inv(t: Thread)
  {
    && Safe(t)
    && (t.sys ==> t.ctl)
    && (t.armed ==> t.entry == On || t.entry == Disabling)
    && (t.pc == User && t.entry == On && !t.armed ==> t.rearms > 0)
    && (InHandler(t) ==> (t.entry == On || t.entry == Disabling) && !t.sys && !Due(t))
    && (InHandler(t) ==> Masked(t.ctl, t.pc.how, t.pc.control))
    && (t.pc.Trapped? ==> t.armed)
    && (t.pc.Disarmed? ==> !t.armed)
  }

  lemma {:induction false} StepKeepsInv(t: Thread, step: Step)
    requires Inv(t) && Enabled(t, step)
    ensures Inv(Do(t, step))
  {
  }

  lemma {:induction false} RunKeepsInv(t: Thread, steps: seq<Step>)
    requires Inv(t) && CanRun(t, steps)
    ensures Inv(Exec(t, steps))
    decreases |steps|
  {
    if steps != [] {
      StepKeepsInv(t, steps[0]);
      RunKeepsInv(Do(t, steps[0]), steps[1..]);
    }
  }

  /** From a thread that has not been added, over every run: it is not killed and nothing
      aborts, the selector is never armed while SIGSYS is blocked, and an added thread out of
      the handler is armed or has a re-arming signal pending. */
  lemma {:induction false} NeverArmedWhileBlocked(t: Thread, steps: seq<Step>)
    requires t == Thread(Absent, false, t.sys, t.ctl, 0, User, false, false) && (t.sys ==> t.ctl) && CanRun(t, steps)
    ensures var r := Exec(t, steps); Safe(r) && (r.entry == On && r.pc == User ==> r.armed || r.rearms > 0)
  {
    RunKeepsInv(t, steps);
  }

  lemma {:induction false} RunOf(t: Thread, step: Step, steps: seq<Step>) returns (run: seq<Step>)
    requires Enabled(t, step) && CanRun(Do(t, step), steps)
    ensures run == [step] + steps && CanRun(t, run) && Exec(t, run) == Exec(Do(t, step), steps)
  {
    run := [step] + steps;
    assert run[1..] == steps;
  }

  /** Unmasking delivers a pending signal and arms the thread again. */
  lemma {:induction false} UnmaskRearms(t: Thread, how: How, sigsys: bool, control: bool)
    requires Inv(t) && t.entry == On && t.pc == User && t.sys
    requires !Masked(true, how, sigsys) && !Masked(true, how, control)
    ensures CanRun(t, [Mask(how, sigsys, control), DeliverRearm])
    ensures var r := Exec(t, [Mask(how, sigsys, control), DeliverRearm]); r.armed && !r.sys && !r.ctl
  {
    var t1 := Do(t, Mask(how, sigsys, control));
    var steps := RunOf(t1, DeliverRearm, []);
    steps := RunOf(t, Mask(how, sigsys, control), steps);
    assert steps == [Mask(how, sigsys, control), DeliverRearm];
  }

  /** The whole way of a blocking call: it traps, is disarmed and let through, and the thread
      goes on with the signals blocked, disarmed, and one more re-arming signal pending. */
  lemma {:induction false} BlockingCallDisarms(t: Thread, how: How, control: bool)
    requires Inv(t) && t.armed && t.entry == On && t.pc == User && !Due(t)
    requires how != Unblock && Coupled(t, how, true, control)
    ensures var steps := [Mask(how, true, control), Disarm, CallThrough(true), SendRearm];
            CanRun(t, steps) && Exec(t, steps) == t.(armed := false, sys := true, ctl := true, rearms := t.rearms + 1)
  {
    var t1 := Do(t, Mask(how, true, control));
    var t2 := Do(t1, Disarm);
    var t3 := Do(t2, CallThrough(true));
    var steps := RunOf(t3, SendRearm, []);
    steps := RunOf(t2, CallThrough(true), steps);
    steps := RunOf(t1, Disarm, steps);
    steps := RunOf(t, Mask(how, true, control), steps);
    assert steps == [Mask(how, true, control), Disarm, CallThrough(true), SendRearm];
  }

  /** A thread that adds and removes itself is armed in between, and afterwards as it was. */
  lemma {:induction false} AddAndRemoveItself(t: Thread)
    requires Inv(t) && t.entry == Absent && t.pc == User && !t.sys && !Due(t)
    ensures CanRun(t, [LocalAdd, LocalRemove]) && Do(t, LocalAdd).armed && Exec(t, [LocalAdd, LocalRemove]) == t
  {
    var steps := RunOf(Do(t, LocalAdd), LocalRemove, []);
    steps := RunOf(t, LocalAdd, steps);
    assert steps == [LocalAdd, LocalRemove];
  }

  /** A thread that is added and removed by id is armed in between, and afterwards as it was. */
  lemma {:induction false} AddAndRemoveById(t: Thread)
    requires Inv(t) && t.entry == Absent && !t.ctl
    ensures var adding, removing := [RemoteAdd, DeliverEnable], [RemoteRemove, DeliverDisable, Erase];
            && CanRun(t, adding) && Exec(t, adding) == Add(t)
            && CanRun(Add(t), removing) && Exec(Add(t), removing) == t
  {
    var steps := RunOf(Do(t, RemoteAdd), DeliverEnable, []);
    steps := RunOf(t, RemoteAdd, steps);
    assert steps == [RemoteAdd, DeliverEnable];
    RemoveById(t);
  }

  lemma {:induction false} RemoveById(t: Thread)
    requires Inv(t) && t.entry == Absent && !t.ctl
    ensures var removing := [RemoteRemove, DeliverDisable, Erase];
            CanRun(Add(t), removing) && Exec(Add(t), removing) == t
  {
    var t1 := Do(Add(t), RemoteRemove);
    var t2 := Do(t1, DeliverDisable);
    var steps := RunOf(t2, Erase, []);
    steps := RunOf(t1, DeliverDisable, steps);
    steps := RunOf(Add(t), RemoteRemove, steps);
    assert steps == [RemoteRemove, DeliverDisable, Erase];
  }

  /** Only masking calls change a mask, and only the re-arming signal's own steps change how many
      are pending. */
  lemma {:induction false} MasksStay(t: Thread, step: Step)
    requires Enabled(t, step)
    ensures !step.Mask? && !step.CallThrough? ==> Do(t, step).sys == t.sys && Do(t, step).ctl == t.ctl
    ensures !step.SendRearm? && !step.DeliverRearm? ==> Do(t, step).rearms == t.rearms
    ensures Do(t, step).armed && !t.armed ==> step.DeliverRearm? || step.DeliverEnable? || step.LocalAdd?
  {
  }

  /** If the kernel refuses the blocking call, the thread comes back armed and with its mask. */
  lemma {:induction false} RefusedCallRearms(t: Thread, how: How, control: bool)
    requires Inv(t) && t.armed && t.entry == On && t.pc == User && !t.ctl && t.rearms == 0
    requires how != Unblock && Coupled(t, how, true, control)
    ensures var steps := [Mask(how, true, control), Disarm, CallThrough(false), SendRearm, DeliverRearm];
            CanRun(t, steps) && Exec(t, steps) == t
  {
    var t1 := Do(t, Mask(how, true, control));
    var t2 := Do(t1, Disarm);
    var t3 := Do(t2, CallThrough(false));
    var t4 := Do(t3, SendRearm);
    var steps := RunOf(t4, DeliverRearm, []);
    steps := RunOf(t3, SendRearm, steps);
    steps := RunOf(t2, CallThrough(false), steps);
    steps := RunOf(t1, Disarm, steps);
    steps := RunOf(t, Mask(how, true, control), steps);
    assert steps == [Mask(how, true, control), Disarm, CallThrough(false), SendRearm, DeliverRearm];
  }

  /** What the three ways of masking do: a signal in the set is blocked, unblocked or set, and one
      that is not in it is left alone, or unblocked when the mask is set. */
  lemma {:induction false} MaskedMeans(blocked: bool)
    ensures Masked(blocked, Block, true) && Masked(blocked, SetMask, true) && !Masked(blocked, Unblock, true)
    ensures Masked(blocked, Block, false) == Masked(blocked, Unblock, false) == blocked
    ensures !Masked(blocked, SetMask, false)
  {
  }

  /** A thread dies at a call if and only if it is armed while it blocks SIGSYS. */
  lemma {:induction false} DiesExactly(t: Thread, how: How, sigsys: bool, control: bool)
    requires Enabled(t, OtherCall)
    ensures Do(t, OtherCall).killed <==> t.armed && t.sys
    ensures MaskCall(t, how, sigsys, control).killed <==> t.armed && t.sys
  {
  }

  // ---------- The three conditions ----------

  ghost predicate SafeForever(t: Thread) { forall steps :: CanRun(t, steps) ==> Safe(Exec(t, steps)) }

  lemma {:induction false} InvIsSafe(t: Thread)
    requires Inv(t)
    ensures SafeForever(t)
  {
    forall steps | CanRun(t, steps) ensures Safe(Exec(t, steps)) { RunKeepsInv(t, steps); }
  }

  lemma {:induction false} Harmed(t: Thread, steps: seq<Step>)
    requires CanRun(t, steps) && !Safe(Exec(t, steps))
    ensures !SafeForever(t)
  {
  }

  lemma {:induction false} HarmAhead(t: Thread, step: Step)
    requires Enabled(t, step) && !SafeForever(Do(t, step))
    ensures !SafeForever(t)
  {
    var steps :| CanRun(Do(t, step), steps) && !Safe(Exec(Do(t, step), steps));
    var run := RunOf(t, step, steps);
  }

  /** Adding the calling thread is safe if and only if it does not block SIGSYS. */
  lemma {:induction false} LocalAddSafeExactly(t: Thread)
    requires Inv(t) && t.entry == Absent && t.pc == User
    ensures SafeForever(Add(t)) <==> !t.sys
  {
    if t.sys { Harmed(Add(t), []); } else { InvIsSafe(Add(t)); }
  }

  /** A thread with SIGSYS blocked and the control signals not: it is armed sooner or later. */
  lemma {:induction false} UncoupledHarms(t: Thread)
    requires !t.killed && !t.aborted && t.sys && !t.ctl && !t.armed && !InHandler(t)
    requires t.entry == On ==> t.rearms > 0
    ensures !SafeForever(t)
    decreases match t.entry case On => 0 case Enabling => 0 case Absent => 1 case Erasing => 2 case Disabling => 3
  {
    hide SafeForever;
    var step := match t.entry
      case On => DeliverRearm
      case Enabling => DeliverEnable
      case Absent => RemoteAdd
      case Erasing => Erase
      case Disabling => DeliverDisable;
    if t.entry == On || t.entry == Enabling { Harmed(Do(t, step), []); } else { UncoupledHarms(Do(t, step)); }
    HarmAhead(t, step);
  }

  /** The same for a thread that is about to make such a call in the handler. */
  lemma {:induction false} UncoupledCallHarms(t: Thread)
    requires !t.killed && !t.aborted && t.entry == On && t.pc.Trapped? && !Due(t)
    requires !Masked(t.ctl, t.pc.how, t.pc.control)
    ensures !SafeForever(t)
  {
    hide SafeForever;
    var t1 := Do(t, Disarm);
    var t2 := Do(t1, CallThrough(true));
    if Due(t2) {
      UncoupledHarms(t2);
    } else {
      UncoupledHarms(Do(t2, SendRearm));
      HarmAhead(t2, SendRearm);
    }
    HarmAhead(t1, CallThrough(true));
    HarmAhead(t, Disarm);
  }

  /** A thread that traps while it is being removed waits, under the third condition, for an entry
      that the removal holds. */
  predicate Waits(t: Thread) { t.armed && t.entry == Disabling }

  lemma {:induction false} WaitingIsSafe(t: Thread)
    requires Safe(t) && t.entry == Disabling && t.pc.Trapped?
    ensures SafeForever(t)
  {
    forall steps | CanRun(t, steps) ensures Safe(Exec(t, steps)) { assert steps == []; }
  }

  /** A masking call is safe if and only if it is dropped, or leaves SIGSYS blocked only together
      with the control signals, or does not get through because the thread is being removed. */
  lemma {:induction false} MaskSafeExactly(t: Thread, how: How, sigsys: bool, control: bool)
    requires Inv(t) && t.pc == User && !Due(t)
    ensures SafeForever(MaskCall(t, how, sigsys, control)) <==>
            Drops(t, how, sigsys) || Coupled(t, how, sigsys, control) || Waits(t)
  {
    hide SafeForever;
    var r := MaskCall(t, how, sigsys, control);
    if Coupled(t, how, sigsys, control) {
      StepKeepsInv(t, Mask(how, sigsys, control));
      InvIsSafe(r);
    } else if Drops(t, how, sigsys) {
      InvIsSafe(r);
    } else if Waits(t) {
      WaitingIsSafe(r);
    } else if t.armed {
      UncoupledCallHarms(r);
    } else {
      UncoupledHarms(r);
    }
  }

  /** Switching a thread off for a removal by id is safe if and only if the thread is not in the
      handler before its call: there it finds no entry to disarm, or is added again and then
      blocks SIGSYS. */
  lemma {:induction false} RemovalSafeExactly(t: Thread)
    requires Inv(t) && t.entry == Disabling && !t.ctl
    ensures SafeForever(Disable(t)) <==> !InHandler(t)
  {
    hide SafeForever;
    var d := Disable(t);
    if !InHandler(t) {
      StepKeepsInv(t, DeliverDisable);
      InvIsSafe(d);
    } else {
      var e := Do(d, Erase);
      if t.pc.Trapped? {
        Harmed(Do(e, Disarm), []);
        HarmAhead(e, Disarm);
      } else {
        var e1 := Do(e, RemoteAdd);
        var e2 := Do(e1, DeliverEnable);
        Harmed(Do(e2, CallThrough(true)), []);
        HarmAhead(e2, CallThrough(true));
        HarmAhead(e1, DeliverEnable);
        HarmAhead(e, RemoteAdd);
      }
      HarmAhead(d, Erase);
    }
  }
}
