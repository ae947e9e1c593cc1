/** The life of a polling monitor: its constructor, its poll thread, rescans by other threads
    and its destructor, which share a mutex, a stop flag and a binary semaphore. Steps of all of
    them interleave; a scan is one step, made under the mutex. */
module MonitorLife {
  import opened Options
  import opened RegistrySpec
  import opened ThreadMonitor
  import MonitorRuns

  datatype Constructor = Starting | Awaiting | Returned

  datatype Poller = Unborn | Begun | Locking | Scanning | Scanned | Announced | Sleeping | Woken | Gone

  datatype Destructor = Idle | Stopping | Notified | Joining | Joined

  datatype Holder = ByPoller | ByRescan(scanned: bool) | ByDestructor

  /** `snaps` are the listings of all scans so far; `overflow` is set by a release of the
      semaphore when it is up already. */
  datatype Life = Life(
    ctor: Constructor, poller: Poller, dtor: Destructor, mutex: Option<Holder>,
    stop: bool, sem: nat, overflow: bool, mon: Mon, snaps: seq<seq<Tid>>)

  datatype Step =
    | StartPoller
    | ReportSelf
    | PollLock
    | PollScan(listing: seq<Tid>, after: Mon)
    | Announce
    | Sleep
    | Wake
    | LoopEnd
    | Return
    | RescanLock
    | RescanScan(listing: seq<Tid>, after: Mon)
    | RescanUnlock
    | StopLock
    | SetStop
    | StopUnlock
    | Join

  const NEWBORN := Life(Starting, Unborn, Idle, None, false, 0, false, Mon(0, map[], []), [])

  /** Rescans are calls of the session's API, over by the time the monitor is destroyed. */
  ghost predicate Enabled(s: Life, step: Step)
  {
    match step
    case StartPoller => s.ctor == Starting
    case ReportSelf => s.poller == Begun
    case PollLock => s.poller == Locking && s.mutex.None?
    case PollScan(listing, after) => s.poller == Scanning && Scans(s.mon, listing, after)
    case Announce => s.poller == Scanned
    case Sleep => s.poller == Announced
    case Wake => s.poller == Sleeping && s.mutex.None?
    case LoopEnd => s.poller == Woken
    case Return => s.ctor == Awaiting && s.sem > 0
    case RescanLock => s.ctor == Returned && s.dtor == Idle && s.mutex.None?
    case RescanScan(listing, after) => s.mutex == Some(ByRescan(false)) && Scans(s.mon, listing, after)
    case RescanUnlock => s.mutex == Some(ByRescan(true))
    case StopLock => s.ctor == Returned && s.dtor == Idle && s.mutex.None?
    case SetStop => s.dtor == Stopping
    case StopUnlock => s.dtor == Notified
    case Join => s.dtor == Joining && s.poller == Gone
  }

  function NextGen(m: Mon): Mon { m.(gen := Bump(m.gen)) }

  /** The semaphore is released after the loop's scan in generation 0. Waiting gives up the
      mutex, unless the stop flag is set already. */
  function Do(self: Tid, s: Life, step: Step): Life
  {
    match step
    case StartPoller => s.(ctor := Awaiting, poller := Begun)
    case ReportSelf => s.(poller := Locking, mon := Started(self))
    case PollLock => s.(poller := Scanning, mutex := Some(ByPoller))
    case PollScan(listing, after) => s.(poller := Scanned, mon := after, snaps := s.snaps + [listing])
    case Announce =>
      if s.mon.gen == 0 then s.(poller := Announced, sem := 1, overflow := s.overflow || s.sem > 0)
      else s.(poller := Announced)
    case Sleep => if s.stop then s.(poller := Woken) else s.(poller := Sleeping, mutex := None)
    case Wake => s.(poller := Woken, mutex := Some(ByPoller))
    case LoopEnd =>
      if s.stop then s.(poller := Gone, mutex := None, mon := NextGen(s.mon))
      else s.(poller := Scanning, mon := NextGen(s.mon))
    case Return => s.(ctor := Returned, sem := 0)
    case RescanLock => s.(mutex := Some(ByRescan(false)), mon := NextGen(s.mon))
    case RescanScan(listing, after) => s.(mutex := Some(ByRescan(true)), mon := after, snaps := s.snaps + [listing])
    case RescanUnlock => s.(mutex := None)
    case StopLock => s.(dtor := Stopping, mutex := Some(ByDestructor))
    case SetStop => s.(dtor := Notified, stop := true)
    case StopUnlock => s.(dtor := Joining, mutex := None)
    case Join => s.(dtor := Joined)
  }

  ghost predicate CanRun(self: Tid, s: Life, steps: seq<Step>)
    decreases |steps|
  {
    steps == [] || (Enabled(s, steps[0]) && CanRun(self, Do(self, s, steps[0]), steps[1..]))
  }

  function Exec(self: Tid, s: Life, steps: seq<Step>): Life
    decreases |steps|
  {
    if steps == [] then s else Exec(self, Do(self, s, steps[0]), steps[1..])
  }

  // ---------- What every step keeps ----------

  predicate Young(p: Poller) { p == Unborn || p == Begun || p == Locking }

  predicate HoldsMutex(p: Poller) { p == Scanning || p == Scanned || p == Announced || p == Woken }

  /** Who holds the mutex, and who has come how far. */
  predicate Control(s: Life)
  {
    && (s.mutex == Some(ByPoller) <==> HoldsMutex(s.poller))
    && (s.mutex == Some(ByDestructor) <==> s.dtor == Stopping || s.dtor == Notified)
    && (s.ctor == Starting <==> s.poller == Unborn)
    && (s.ctor != Returned ==> s.dtor == Idle)
    && (s.mutex.Some? && s.mutex.value.ByRescan? ==> s.ctor == Returned && s.dtor == Idle)
    && (s.stop <==> s.dtor == Notified || s.dtor == Joining || s.dtor == Joined)
    && (s.stop ==> s.poller == Sleeping || s.poller == Woken || s.poller == Gone)
    && (s.poller == Gone ==> s.stop)
    && (s.dtor == Joined ==> s.poller == Gone)
    && (Young(s.poller) ==> s.snaps == [] && s.sem == 0 && s.ctor != Returned)
    && (!Young(s.poller) && s.poller != Scanning ==> s.snaps != [])
    && (s.ctor == Returned || s.sem > 0 ==> s.snaps != [])
    && s.sem <= 1
  }

  /** The generation has been counted up for a scan that has not been made yet. */
  predicate Bumped(s: Life) { s.poller == Scanning || s.poller == Gone || s.mutex == Some(ByRescan(false)) }

  /** The scans so far are those of one polling monitor, whoever made them. */
  ghost predicate History(self: Tid, s: Life)
  {
    if s.snaps == [] then s.mon == if s.poller == Unborn || s.poller == Begun then Mon(0, map[], []) else Started(self)
    else exists q :: Polls(self, s.snaps, q) && s.mon == if Bumped(s) then NextGen(q) else q
  }

  lemma {:induction false} StepKeepsControl(self: Tid, s: Life, step: Step)
    requires Control(s) && Enabled(s, step)
    ensures Control(Do(self, s, step))
  {
    hide Scans;
  }

  lemma {:induction false} ScanKeepsHistory(self: Tid, s: Life, step: Step)
    requires Control(s) && History(self, s) && Enabled(s, step) && (step.PollScan? || step.RescanScan?)
    ensures History(self, Do(self, s, step))
  {
    hide Scans, Polls;
    var r := Do(self, s, step);
    assert r.mon == step.after && r.snaps == s.snaps + [step.listing] && !Bumped(r);
    if s.snaps == [] {
      PollOnce(self, step.listing, step.after);
      assert r.snaps == [step.listing];
    } else {
      var q :| Polls(self, s.snaps, q) && s.mon == NextGen(q);
      PollAgain(self, s.snaps, q, step.listing, step.after);
    }
  }

  lemma {:induction false} OtherKeepsHistory(self: Tid, s: Life, step: Step)
    requires Control(s) && History(self, s) && Enabled(s, step) && !step.PollScan? && !step.RescanScan?
    ensures History(self, Do(self, s, step))
  {
    hide Scans, Polls;
    var r := Do(self, s, step);
    assert r.snaps == s.snaps;
    if s.snaps != [] {
      var q :| Polls(self, s.snaps, q) && s.mon == if Bumped(s) then NextGen(q) else q;
      assert Polls(self, r.snaps, q) && r.mon == if Bumped(r) then NextGen(q) else q;
    }
  }

  lemma {:induction false} StepKeepsHistory(self: Tid, s: Life, step: Step)
    requires Control(s) && History(self, s) && Enabled(s, step)
    ensures History(self, Do(self, s, step))
  {
    hide Control, History, Enabled, Do;
    if step.PollScan? || step.RescanScan? {
      ScanKeepsHistory(self, s, step);
    } else {
      OtherKeepsHistory(self, s, step);
    }
  }

  lemma {:induction false} RunKeeps(self: Tid, s: Life, steps: seq<Step>)
    requires Control(s) && History(self, s) && CanRun(self, s, steps)
    ensures Control(Exec(self, s, steps)) && History(self, Exec(self, s, steps))
    decreases |steps|
  {
    if steps != [] {
      StepKeepsControl(self, s, steps[0]);
      StepKeepsHistory(self, s, steps[0]);
      RunKeeps(self, Do(self, s, steps[0]), steps[1..]);
    }
  }

  // ---------- Start ----------

  /** In every run: when the constructor has returned, the first scan has been made, and all
      scans up to then, by the loop or by rescans, are the history of one polling monitor. */
  lemma {:induction false} ReturnsAfterFirstScan(self: Tid, steps: seq<Step>)
    requires CanRun(self, NEWBORN, steps)
    ensures var s := Exec(self, NEWBORN, steps);
            && (s.ctor == Returned ==> s.snaps != [])
            && (s.snaps != [] ==> exists q :: Polls(self, s.snaps, q) && q.known == s.mon.known && q.log == s.mon.log)
  {
    RunKeeps(self, NEWBORN, steps);
  }

  /** In every run of at most 2^32 scans in which every listing has the poller: whenever nobody
      holds the mutex and the monitor is not being destroyed, exactly the threads of the last
      listing are known, with the current stamp, and the log is in order. */
  lemma {:induction false} UnlockedIsExact(self: Tid, steps: seq<Step>)
    requires CanRun(self, NEWBORN, steps)
    requires var s := Exec(self, NEWBORN, steps);
             && s.mutex.None? && s.snaps != [] && !s.stop && |s.snaps| <= GENERATIONS
             && forall i :: 0 <= i < |s.snaps| ==> self in s.snaps[i]
    ensures MonitorRuns.RunOk(self, Exec(self, NEWBORN, steps).snaps, Exec(self, NEWBORN, steps).mon)
  {
    hide Polls;
    RunKeeps(self, NEWBORN, steps);
    var s := Exec(self, NEWBORN, steps);
    MonitorRuns.PollRunOk(self, s.snaps, s.mon);
  }

  // ---------- Stop ----------

  lemma {:induction false} StopStep(self: Tid, s: Life, step: Step)
    requires Control(s) && s.stop && Enabled(s, step)
    ensures var r := Do(self, s, step);
            r.stop && r.snaps == s.snaps && r.mon.known == s.mon.known && r.mon.log == s.mon.log
  {
    hide Scans;
  }

  /** Once the stop flag is set no scan starts any more, of the loop or of a rescan, and no event
      is reported, in any continuation. */
  lemma {:induction false} NothingAfterStop(self: Tid, s: Life, steps: seq<Step>)
    requires Control(s) && s.stop && CanRun(self, s, steps)
    ensures var r := Exec(self, s, steps);
            r.stop && r.snaps == s.snaps && r.mon.known == s.mon.known && r.mon.log == s.mon.log
    decreases |steps|
  {
    if steps != [] {
      StopStep(self, s, steps[0]);
      StepKeepsControl(self, s, steps[0]);
      NothingAfterStop(self, Do(self, s, steps[0]), steps[1..]);
    }
  }

  /** How many steps are left of the destructor and the poll thread. */
  function Left(s: Life): nat
  {
    (match s.dtor case Idle => 4 case Stopping => 3 case Notified => 2 case Joining => 1 case Joined => 0) +
    (match s.poller case Sleeping => 2 case Woken => 1 case _ => 0)
  }

  /** After the stop flag is set every step brings the end nearer, and until the poll thread is
      joined there is always a next step: the loop ends and the destructor returns. */
  lemma {:induction false} StopEnds(self: Tid, s: Life)
    requires Control(s) && s.stop
    ensures forall step :: Enabled(s, step) ==> Left(Do(self, s, step)) < Left(s)
    ensures s.dtor != Joined ==> exists step :: Enabled(s, step)
  {
    hide Scans;
    if s.dtor == Notified {
      assert Enabled(s, StopUnlock);
    } else if s.poller == Sleeping {
      assert Enabled(s, Wake);
    } else if s.poller == Woken {
      assert Enabled(s, LoopEnd);
    } else if s.dtor == Joining {
      assert Enabled(s, Join);
    }
  }

  // ---------- Nobody is left waiting ----------

  /** A constructor that waits is going to be told: the semaphore is up, or the loop has not come
      to the end of its first scan. */
  predicate Told(s: Life)
  {
    s.ctor == Awaiting ==>
      s.sem == 1 || s.poller == Begun || s.poller == Locking ||
      (s.poller == Scanning && s.snaps == []) || (s.poller == Scanned && |s.snaps| == 1)
  }

  lemma {:induction false} StepKeepsTold(self: Tid, s: Life, step: Step)
    requires Control(s) && History(self, s) && Told(s) && Enabled(s, step)
    ensures Told(Do(self, s, step))
  {
    hide Scans, History;
    GenIsCount(self, s);
  }

  lemma {:induction false} RunKeepsTold(self: Tid, s: Life, steps: seq<Step>)
    requires Control(s) && History(self, s) && Told(s) && CanRun(self, s, steps)
    ensures Told(Exec(self, s, steps))
    decreases |steps|
  {
    if steps != [] {
      StepKeepsControl(self, s, steps[0]);
      StepKeepsHistory(self, s, steps[0]);
      StepKeepsTold(self, s, steps[0]);
      RunKeepsTold(self, Do(self, s, steps[0]), steps[1..]);
    }
  }

  /** How many steps the holder of the mutex is from giving it up. */
  function HoldLeft(s: Life): nat
  {
    match s.mutex
    case None => 0
    case Some(ByRescan(scanned)) => if scanned then 1 else 2
    case Some(ByDestructor) => if s.dtor == Notified then 1 else 2
    case Some(ByPoller) =>
      match s.poller case Woken => 5 case Scanning => 4 case Scanned => 3 case _ => 2
  }

  /** The next step of the holder of the mutex. */
  lemma {:induction false} HolderStep(self: Tid, s: Life) returns (step: Step)
    requires Control(s) && s.mutex.Some?
    ensures Enabled(s, step) && HoldLeft(Do(self, s, step)) < HoldLeft(s)
    ensures Do(self, s, step).ctor == s.ctor && (Do(self, s, step).stop <==> s.stop || step == SetStop)
  {
    hide Scans;
    var after := SomeScan(s.mon, [self]);
    step := match s.mutex.value
      case ByRescan(scanned) => if scanned then RescanUnlock else RescanScan([self], after)
      case ByDestructor => if s.dtor == Notified then StopUnlock else SetStop
      case ByPoller =>
        (match s.poller
         case Woken => LoopEnd
         case Scanning => PollScan([self], after)
         case Scanned => Announce
         case _ => Sleep);
  }

  /** Whoever holds the mutex gives it up. */
  lemma {:induction false} MutexComesFree(self: Tid, s: Life) returns (steps: seq<Step>)
    requires Control(s)
    ensures CanRun(self, s, steps)
    ensures var r := Exec(self, s, steps); r.mutex.None? && Control(r) && r.ctor == s.ctor
    decreases HoldLeft(s)
  {
    hide Enabled, Do, Control;
    steps := [];
    if s.mutex.Some? {
      var step := HolderStep(self, s);
      StepKeepsControl(self, s, step);
      steps := MutexComesFree(self, Do(self, s, step));
      steps := RunOf(self, s, step, steps);
    }
  }

  /** A rescan can be made whenever the mutex is free, until the monitor is destroyed. It takes the
      mutex, scans in the next generation, and gives the mutex back. */
  lemma {:induction false} RescanScans(self: Tid, s: Life, listing: seq<Tid>, after: Mon)
    requires s.ctor == Returned && s.dtor == Idle && s.mutex.None? && Scans(NextGen(s.mon), listing, after)
    ensures var steps := [RescanLock, RescanScan(listing, after), RescanUnlock];
            CanRun(self, s, steps) && Exec(self, s, steps) == s.(mon := after, snaps := s.snaps + [listing])
  {
    hide Scans;
    var s1 := Do(self, s, RescanLock);
    var s2 := Do(self, s1, RescanScan(listing, after));
    var steps := RunOf(self, s2, RescanUnlock, []);
    steps := RunOf(self, s1, RescanScan(listing, after), steps);
    steps := RunOf(self, s, RescanLock, steps);
    assert steps == [RescanLock, RescanScan(listing, after), RescanUnlock];
  }

  /** Once stopped, the monitor can be joined. */
  lemma {:induction false} StoppedJoins(self: Tid, s: Life) returns (steps: seq<Step>)
    requires Control(s) && s.stop
    ensures CanRun(self, s, steps) && Exec(self, s, steps).dtor == Joined
    decreases Left(s)
  {
    hide Enabled, Do, Control, Left;
    steps := [];
    if s.dtor != Joined {
      StopEnds(self, s);
      var step :| Enabled(s, step);
      StopStep(self, s, step);
      StepKeepsControl(self, s, step);
      steps := StoppedJoins(self, Do(self, s, step));
      steps := RunOf(self, s, step, steps);
    }
  }

  /** Once its constructor has returned, the monitor can always be destroyed. */
  lemma {:induction false} ReturnedJoins(self: Tid, s: Life) returns (steps: seq<Step>)
    requires Control(s) && s.ctor == Returned
    ensures CanRun(self, s, steps) && Exec(self, s, steps).dtor == Joined
  {
    steps := MutexComesFree(self, s);
    var r := Exec(self, s, steps);
    var more: seq<Step>;
    if r.stop {
      more := StoppedJoins(self, r);
    } else {
      more := FreeJoins(self, r);
    }
    steps := Chain(self, s, steps, more);
  }

  lemma {:induction false} FreeJoins(self: Tid, s: Life) returns (steps: seq<Step>)
    requires Control(s) && s.ctor == Returned && s.mutex.None? && !s.stop
    ensures CanRun(self, s, steps) && Exec(self, s, steps).dtor == Joined
  {
    var s1 := Do(self, s, StopLock);
    StepKeepsControl(self, s, StopLock);
    var s2 := Do(self, s1, SetStop);
    StepKeepsControl(self, s1, SetStop);
    steps := StoppedJoins(self, s2);
    steps := RunOf(self, s1, SetStop, steps);
    steps := RunOf(self, s, StopLock, steps);
  }

  /** How many steps a waiting constructor is from being told. */
  function TellLeft(s: Life): nat
  {
    if s.ctor == Starting then 6
    else if s.sem == 1 then 0
    else match s.poller case Begun => 5 case Locking => 4 case Scanning => 3 case _ => 1
  }

  lemma {:induction false} TellStep(self: Tid, s: Life) returns (step: Step)
    requires Control(s) && History(self, s) && Told(s) && s.ctor != Returned && TellLeft(s) > 0
    ensures Enabled(s, step) && TellLeft(Do(self, s, step)) < TellLeft(s) && Do(self, s, step).ctor != Returned
  {
    hide Scans, History;
    GenIsCount(self, s);
    var after := SomeScan(s.mon, [self]);
    step := if s.ctor == Starting then StartPoller
            else match s.poller
                 case Begun => ReportSelf
                 case Locking => PollLock
                 case Scanning => PollScan([self], after)
                 case _ => Announce;
  }

  /** The constructor can always return. */
  lemma {:induction false} ConstructorReturns(self: Tid, s: Life) returns (steps: seq<Step>)
    requires Control(s) && History(self, s) && Told(s)
    ensures CanRun(self, s, steps)
    ensures Exec(self, s, steps).ctor == Returned && Control(Exec(self, s, steps))
    decreases if s.ctor == Returned then 0 else 1 + TellLeft(s)
  {
    hide Do, Control, History, Told;
    steps := [];
    if s.ctor != Returned {
      var step := Return;
      if TellLeft(s) > 0 { step := TellStep(self, s); } else { ReadyReturns(self, s); }
      StepKeepsControl(self, s, step);
      StepKeepsHistory(self, s, step);
      StepKeepsTold(self, s, step);
      steps := ConstructorReturns(self, Do(self, s, step));
      steps := RunOf(self, s, step, steps);
    }
  }

  lemma {:induction false} ReadyReturns(self: Tid, s: Life)
    requires Control(s) && s.ctor != Returned && TellLeft(s) == 0
    ensures Enabled(s, Return) && Do(self, s, Return).ctor == Returned
  {
  }

  /** Nothing deadlocks: from every state that a monitor reaches, the constructor can return, and
      the destructor can after it. */
  lemma {:induction false} AlwaysEnds(self: Tid, steps: seq<Step>) returns (more: seq<Step>)
    requires CanRun(self, NEWBORN, steps)
    ensures CanRun(self, Exec(self, NEWBORN, steps), more)
    ensures Exec(self, Exec(self, NEWBORN, steps), more).dtor == Joined
  {
    RunKeeps(self, NEWBORN, steps);
    RunKeepsTold(self, NEWBORN, steps);
    var s := Exec(self, NEWBORN, steps);
    more := ConstructorReturns(self, s);
    var rest := ReturnedJoins(self, Exec(self, s, more));
    more := Chain(self, s, more, rest);
  }

  // ---------- The semaphore when the generations wrap ----------

  /** The round of generations to which scan number `n` belongs, counted from 0. */
  function Round(n: nat): nat { n / GENERATIONS }

  predicate Opens(n: nat) { n % GENERATIONS == 0 }

  /** How often the loop can have released the semaphore: once in every round. */
  function Rounds(s: Life): nat
  {
    if s.snaps == [] then 0
    else Round(|s.snaps| - 1) + if s.poller == Scanned && Opens(|s.snaps| - 1) then 0 else 1
  }

  function Acquired(s: Life): nat { if s.ctor == Returned then 1 else 0 }

  predicate SemOk(s: Life)
  {
    s.sem + Acquired(s) <= Rounds(s) && (s.overflow ==> |s.snaps| > GENERATIONS)
  }

  lemma {:induction false} NextRound(n: nat)
    ensures Round(0) == 0 && Opens(0)
    ensures Round(n + 1) == Round(n) + if Opens(n + 1) then 1 else 0
  {
  }

  lemma {:induction false} GenIsCount(self: Tid, s: Life)
    requires History(self, s)
    ensures s.snaps != [] && !Bumped(s) ==> s.mon.gen == (|s.snaps| - 1) % GENERATIONS
  {
    hide Polls;
    if s.snaps != [] {
      var q :| Polls(self, s.snaps, q) && s.mon == if Bumped(s) then NextGen(q) else q;
      PollsGen(self, s.snaps, q);
    }
  }

  /** A release of the semaphore when it is up needs a full round of generations, and two when
      the constructor has returned. */
  lemma {:induction false} OverflowNeedsRounds(self: Tid, s: Life, step: Step)
    requires Control(s) && History(self, s) && SemOk(s) && Enabled(s, step)
    ensures !s.overflow && Do(self, s, step).overflow ==>
              step == Announce && |s.snaps| > GENERATIONS * (1 + Acquired(s))
    ensures SemOk(Do(self, s, step))
  {
    if step == Announce { AnnounceKeepsSem(self, s); } else { QuietStepKeepsSem(self, s, step); }
  }

  lemma {:induction false} QuietStepKeepsSem(self: Tid, s: Life, step: Step)
    requires Control(s) && SemOk(s) && Enabled(s, step) && step != Announce
    ensures Do(self, s, step).overflow == s.overflow && SemOk(Do(self, s, step))
  {
    hide Scans, Round, Opens;
    NextRound(if s.snaps == [] then 0 else |s.snaps| - 1);
  }

  lemma {:induction false} AnnounceKeepsSem(self: Tid, s: Life)
    requires Control(s) && History(self, s) && SemOk(s) && Enabled(s, Announce)
    ensures !s.overflow && Do(self, s, Announce).overflow ==> |s.snaps| > GENERATIONS * (1 + Acquired(s))
    ensures SemOk(Do(self, s, Announce))
  {
    hide History, Round;
    GenIsCount(self, s);
    ManyRounds(|s.snaps| - 1, 1 + Acquired(s));
  }

  lemma {:induction false} ManyRounds(n: nat, k: nat)
    ensures Round(n) >= k ==> n >= GENERATIONS * k
  {
  }

  /** No run of at most 2^32 scans releases the semaphore when it is up. */
  lemma {:induction false} NoOverflow(self: Tid, s: Life, steps: seq<Step>)
    requires Control(s) && History(self, s) && SemOk(s) && CanRun(self, s, steps)
    ensures SemOk(Exec(self, s, steps))
    decreases |steps|
  {
    if steps != [] {
      OverflowNeedsRounds(self, s, steps[0]);
      StepKeepsControl(self, s, steps[0]);
      StepKeepsHistory(self, s, steps[0]);
      NoOverflow(self, Do(self, s, steps[0]), steps[1..]);
    }
  }

  // ---------- A run that does ----------

  lemma {:induction false} RunOf(self: Tid, s: Life, step: Step, steps: seq<Step>) returns (run: seq<Step>)
    requires Enabled(s, step) && CanRun(self, Do(self, s, step), steps)
    ensures CanRun(self, s, run) && Exec(self, s, run) == Exec(self, Do(self, s, step), steps) && run == [step] + steps
  {
    run := [step] + steps;
    assert run[1..] == steps;
  }

  lemma {:induction false} Chain(self: Tid, s: Life, steps: seq<Step>, more: seq<Step>) returns (run: seq<Step>)
    requires CanRun(self, s, steps) && CanRun(self, Exec(self, s, steps), more)
    ensures CanRun(self, s, run) && Exec(self, s, run) == Exec(self, Exec(self, s, steps), more)
    decreases |steps|
  {
    if steps == [] {
      run := more;
    } else {
      run := Chain(self, Do(self, s, steps[0]), steps[1..], more);
      run := RunOf(self, s, steps[0], run);
    }
  }

  lemma {:induction false} Listed(ts: set<Tid>) returns (r: seq<Tid>)
    ensures NoRepeats(r) && SetOf(r) == ts
  {
    r := [];
    if ts != {} {
      var t :| t in ts;
      var rest := Listed(ts - {t});
      assert forall i :: 0 <= i < |rest| ==> rest[i] in SetOf(rest);
      r := rest + [t];
      assert SetOf(r) == SetOf(rest) + {t};
    }
  }

  lemma {:induction false} SomeScan(m: Mon, listing: seq<Tid>) returns (after: Mon)
    ensures Scans(m, listing, after) && after.gen == m.gen
  {
    var gone := Listed(Stale(m, listing));
    after := Mon(m.gen, Marked(m, listing) - SetOf(gone),
                 m.log + Events(Fresh(m.known.Keys, listing), FoundKind(m.gen)) + Events(gone, Terminated));
    assert ScansTo(m, listing, gone, after);
  }

  predicate AllAre(snaps: seq<seq<Tid>>, listing: seq<Tid>) { forall i :: 0 <= i < |snaps| ==> snaps[i] == listing }

  /** The loop is about to scan, and nobody is stopping it. */
  predicate Loops(s: Life) { s.poller == Scanning && !s.stop }

  /** One turn of the poll loop with nothing else going on. */
  lemma {:induction false} Turn(self: Tid, s: Life, listing: seq<Tid>) returns (steps: seq<Step>)
    requires Loops(s)
    ensures CanRun(self, s, steps)
    ensures var r := Exec(self, s, steps);
            && Loops(r) && r.ctor == s.ctor && r.dtor == s.dtor && r.snaps == s.snaps + [listing]
            && r.mon.gen == Bump(s.mon.gen)
            && r.sem == (if s.mon.gen == 0 then 1 else s.sem)
            && r.overflow == (s.overflow || (s.mon.gen == 0 && s.sem > 0))
  {
    hide Scans;
    var after := SomeScan(s.mon, listing);
    var s1 := Do(self, s, PollScan(listing, after));
    var s2 := Do(self, s1, Announce);
    var s3 := Do(self, s2, Sleep);
    var s4 := Do(self, s3, Wake);
    steps := RunOf(self, s4, LoopEnd, []);
    steps := RunOf(self, s3, Wake, steps);
    steps := RunOf(self, s2, Sleep, steps);
    steps := RunOf(self, s1, Announce, steps);
    steps := RunOf(self, s, PollScan(listing, after), steps);
  }

  /** Turns of the loop up to the last generation of the round. */
  lemma {:induction false} RestOfRound(self: Tid, s: Life, listing: seq<Tid>, n: nat) returns (steps: seq<Step>)
    requires Loops(s) && 0 < s.mon.gen && n > 0 && s.mon.gen + n == GENERATIONS
    ensures CanRun(self, s, steps)
    ensures var r := Exec(self, s, steps);
            && Loops(r) && r.ctor == s.ctor && r.dtor == s.dtor && |r.snaps| == |s.snaps| + n
            && (AllAre(s.snaps, listing) ==> AllAre(r.snaps, listing))
            && r.mon.gen == 0 && r.sem == s.sem && r.overflow == s.overflow
    decreases n
  {
    hide Enabled, Do;
    steps := Turn(self, s, listing);
    if n > 1 {
      var more := RestOfRound(self, Exec(self, s, steps), listing, n - 1);
      steps := Chain(self, s, steps, more);
    }
  }

  /** Turns of the loop through a whole round of generations. */
  lemma {:induction false} FullRound(self: Tid, s: Life, listing: seq<Tid>) returns (steps: seq<Step>)
    requires Loops(s) && s.mon.gen == 0
    ensures CanRun(self, s, steps)
    ensures var r := Exec(self, s, steps);
            && Loops(r) && r.ctor == s.ctor && r.dtor == s.dtor && |r.snaps| == |s.snaps| + GENERATIONS
            && (AllAre(s.snaps, listing) ==> AllAre(r.snaps, listing))
            && r.mon.gen == 0 && r.sem == 1 && r.overflow == (s.overflow || s.sem > 0)
  {
    hide Enabled, Do;
    steps := Turn(self, s, listing);
    var more := RestOfRound(self, Exec(self, s, steps), listing, GENERATIONS - 1);
    steps := Chain(self, s, steps, more);
  }

  lemma {:induction false} Born(self: Tid) returns (steps: seq<Step>)
    ensures CanRun(self, NEWBORN, steps)
    ensures var r := Exec(self, NEWBORN, steps);
            Loops(r) && r.ctor == Awaiting && r.mon.gen == 0 && r.sem == 0 && !r.overflow && r.snaps == []
  {
    var s1 := Do(self, NEWBORN, StartPoller);
    var s2 := Do(self, s1, ReportSelf);
    steps := RunOf(self, s2, PollLock, []);
    steps := RunOf(self, s1, ReportSelf, steps);
    steps := RunOf(self, NEWBORN, StartPoller, steps);
  }

  /** The bound is sharp: a monitor that only polls, with its constructor returned in the first
      round, releases the semaphore when it is up after its scan number 2^33 + 1. */
  lemma {:induction false} OverflowReached(self: Tid) returns (steps: seq<Step>)
    ensures CanRun(self, NEWBORN, steps)
    ensures var r := Exec(self, NEWBORN, steps); r.ctor == Returned && r.overflow && |r.snaps| == 2 * GENERATIONS + 1
  {
    hide Enabled, Do;
    steps := Born(self);
    var more := FullRound(self, Exec(self, NEWBORN, steps), [self]);
    steps := Chain(self, NEWBORN, steps, more);
    more := Late(self, Exec(self, NEWBORN, steps));
    steps := Chain(self, NEWBORN, steps, more);
    more := FullRound(self, Exec(self, NEWBORN, steps), [self]);
    steps := Chain(self, NEWBORN, steps, more);
    more := Turn(self, Exec(self, NEWBORN, steps), [self]);
    steps := Chain(self, NEWBORN, steps, more);
  }

  lemma {:induction false} Late(self: Tid, s: Life) returns (steps: seq<Step>)
    requires s.ctor == Awaiting && s.sem > 0
    ensures CanRun(self, s, steps) && Exec(self, s, steps) == s.(ctor := Returned, sem := 0)
  {
    steps := RunOf(self, s, Return, []);
  }

  /** The wrap can do harm: a monitor that lists a thread in all generations of the first round
      and then no more still knows it after the first scan of the next one, and its last report
      of it is that it appeared. */
  lemma {:induction false} GoneAtWrapReached(self: Tid, t: Tid) returns (steps: seq<Step>)
    requires t != self
    ensures CanRun(self, NEWBORN, steps)
    ensures var r := Exec(self, NEWBORN, steps);
            && |r.snaps| == GENERATIONS + 1 && r.snaps[GENERATIONS - 1] == [self, t] && r.snaps[GENERATIONS] == [self]
            && t in r.mon.known && MonitorRuns.Up(r.mon.log, t)
  {
    hide Enabled, Do;
    steps := Born(self);
    var more := FullRound(self, Exec(self, NEWBORN, steps), [self, t]);
    steps := Chain(self, NEWBORN, steps, more);
    var s := Exec(self, NEWBORN, steps);
    RunKeeps(self, NEWBORN, steps);
    more := ScanAtWrap(self, s, t);
    steps := Chain(self, NEWBORN, steps, more);
  }

  lemma {:induction false} ScanAtWrap(self: Tid, s: Life, t: Tid) returns (steps: seq<Step>)
    requires t != self && Loops(s) && History(self, s) && |s.snaps| == GENERATIONS && AllAre(s.snaps, [self, t])
    ensures CanRun(self, s, steps)
    ensures var r := Exec(self, s, steps);
            r.snaps == s.snaps + [[self]] && t in r.mon.known && MonitorRuns.Up(r.mon.log, t)
  {
    hide Polls, Scans;
    var q :| Polls(self, s.snaps, q) && s.mon == NextGen(q);
    MonitorRuns.PollRunOk(self, s.snaps, q);
    var after := SomeScan(s.mon, [self]);
    WrapKeeps(self, s.snaps, q, after, t);
    steps := RunOf(self, s, PollScan([self], after), []);
  }

  lemma {:induction false} WrapKeeps(self: Tid, snaps: seq<seq<Tid>>, q: Mon, after: Mon, t: Tid)
    requires MonitorRuns.RunOk(self, snaps, q) && |snaps| == GENERATIONS && t != self
    requires AllAre(snaps, [self, t]) && Scans(NextGen(q), [self], after)
    ensures t in after.known && MonitorRuns.Up(after.log, t)
  {
    hide MonitorRuns.Up, ScansTo;
    var gone :| ScansTo(NextGen(q), [self], gone, after);
    MonitorRuns.WrapExactly(self, snaps, q, [self], gone, after);
    assert t in MonitorRuns.Last(snaps) && self in MonitorRuns.Last(snaps);
    NothingNew(NextGen(q), self, after);
  }

  lemma {:induction false} NothingNew(m: Mon, self: Tid, after: Mon)
    requires ScansTo(m, [self], [], after) && self in m.known
    ensures after.known.Keys == m.known.Keys && after.log == m.log
  {
    assert [self][..0] == [];
    assert Fresh(m.known.Keys, [self]) == [];
  }
}
