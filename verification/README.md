# A verified model of sysfail

Sysfail intercepts the system calls of chosen threads with Linux syscall-user-dispatch,
delays them or makes them fail according to a plan, and otherwise makes them on the
thread's behalf. This project models that library in Dafny 4.11 and proves what its
protocols keep over every run, what its tables and decisions compute on every input, and,
where an expected law does not hold of the code, exactly when it does.

`dafny verify dfyconfig.toml` checks everything.

| file | models |
|---|---|
| `RegistrySpec.dfy` | the registry of threads seen from outside: a set changed by add and remove calls |
| `Handshake.dfy` | the enable/disable handshake for one thread id, step by step, and its invariant |
| `HandshakeRuns.dfy` | what a returning call guarantees, which calls never return, when the session may be dropped |
| `Registry.dfy`, `RegistryRuns.dfy` | all threads together: safety, linearizability, sequential use |
| `RoundTrips.dfy` | adding and removing a thread, undisturbed, by itself and by id |
| `IdReuse.dfy` | which of the registered threads are dispatched, when thread ids are reused |
| `Trapping.dfy` | the selector byte: which dispatched threads trap |
| `SessionEnd.dfy` | the destructor: its removals, and when clearing the session pointer is safe |
| `ThreadMonitor.dfy`, `MonitorRuns.dfy` | the thread monitor's mark and sweep, whole runs of it, and the registry it drives |
| `MonitorLife.dfy` | the monitor's constructor, poll thread, rescans and destructor, interleaved |
| `ErrorTable.dfy` | the table of errors by cumulative weight |
| `Machine.dfy` | an x86-64 fragment and the instruction list of `sysfail_restore` |
| `Injection.dfy` | the failure and delay decision, the SIGSYS handler, transparency of interception |
| `PlanLaws.dfy` | what a plan's numbers mean for a thread: which calls fail or are delayed, and on which side |
| `Marshalling.dfy` | Go slice, C list, C++ maps, active plan |
| `SignalMask.dfy` | disarming and re-arming around calls that block SIGSYS |
| `Options.dfy` | the option type |

## How the concurrent part is modelled

A `Cell` holds everything about one thread id: whether a thread with that id runs, its map
entry with the selector byte and the semaphore, the pointer the kernel keeps, the control
signals sent to it and the calls that target it. Calls, handlers, thread exit and reuse of
the id interleave freely, one atomic action at a time. An entry's accessor is exclusive
ownership of the entry. Addresses of freed entries may be used again. A dereference of
anything but the thread's current entry, a release of a free semaphore and a second
acknowledgement of one signal raise `fault`, and the theorems say that no run does. A
thread that runs a call by id may exit in the middle of it, which the library's callers do
not do; the results therefore hold for more runs than can happen.

The session's destructor is a sequence of moves that interleave with everything else: it takes
the lock that shuts out the session's API, removes threads, checks that the map is empty, clears
the session pointer, and last frees the map. The thread monitor goes on making calls by id until
shortly before the map is freed.

The thread monitor is a class whose methods take the task listings as parameters and record
the handler's events. What happens while its poll loop waits (rescans by other threads, the
stop flag) is an input, so `Process` is proved for every interleaving that the mutex allows.

## What the code does not do

Laws that one would expect and that fail, each with its exact condition:

* Weights are documented as relative (include/sysfail.hh:103-107) but used as absolute
  cumulative probabilities: `ErrorTable.RelativeExactly`. If no sum of weights reaches 1, some
  failures do not show, and after-failures read past the table: `Injection.SilentExactly`,
  `Injection.ReadsPastEndExactly`. A planned error 0 does not show either after the call.
* A weight that is not positive overwrites an earlier error's row or takes draws from it:
  `ErrorTable.ZeroWeightErases`, `ErrorTable.TableIsLinearExactly`.
* A delay limit that does not fit in an `int` is cut down or leaves an empty range to draw from,
  as a negative one does:
  `Injection.DelayLimitExactly`, `Injection.UndefinedExactly`.
* `sysfail_restore` writes below the saved stack pointer, into the area that section 3.2.2 of
  the System V AMD64 ABI reserves for the interrupted function:
  `Machine.RedZoneKeptExactly`, `Machine.RedZoneLost`.
* A thread that accepts a control signal and exits before its handler runs leaves the caller
  waiting forever, holding the entry: `HandshakeRuns.LosesExactly`,
  `HandshakeRuns.StuckExactlyWhenLost`.
* Any later call that needs that entry waits forever as well, the destructor's removal among them.
* A thread that gets the id of a registered thread that has exited is not switched on, and no
  addition does so until a removal: `IdReuse.DispatchedAlways`, `IdReuse.OverlookedStays`.
* The destructor checks the map and clears the session pointer in two steps and without stopping
  the poller. A thread that the poller adds in between stays dispatched and the kernel is left
  with a pointer into freed memory: `SessionEnd.PollerBeatsDrop`. `SessionEnd.DropSafeExactly`
  says exactly when the second step is safe.
* After 2^32 generations the monitor's stamps wrap, and a thread gone at that moment is never
  reported: `MonitorRuns.WrapExactly`, `MonitorLife.GoneAtWrapReached`. The semaphore that
  tells of the first scan is released again in every round, in the third one while it is up:
  `MonitorLife.OverflowNeedsRounds`, `MonitorLife.OverflowReached`.
* An intercepted `rt_sigprocmask` that does not block SIGSYS is neither made nor answered, and
  the thread finds the call number as its result: `Injection.CallMadeExactly`,
  `Injection.DroppedReturnsNumber`.
* A call number that does not fit in an `int` is truncated: `Injection.ContinuedIsDirect`.
* A thread is killed at its next call if it adds itself while it blocks SIGSYS, or blocks SIGSYS
  without the control signals; and a removal by id that is carried out while the thread is in the
  trap handler makes it abort or die: `SignalMask.LocalAddSafeExactly`,
  `SignalMask.MaskSafeExactly`, `SignalMask.RemovalSafeExactly`.
* A Go outcome's errors arrive only if `NumErrors` is their number: `Marshalling.ErrorsArrive`. With
  0 they are all lost without notice; with less the Go side writes past an array
  (`Marshalling.BuildList`); with more, memory that was never written is read as errors and gets
  into the plan (`Marshalling.HeapShowsExactly`, `Marshalling.JunkArrives`).

## Model

| member | source | states |
|---|---|---|
| `Handshake.StepKeepsInv` | src/session.cc:147-242 | every action of every call, handler and thread keeps the handshake invariant: one owner per entry whose program counter determines the semaphore, at most one signal in flight and only for the owner, the kernel's pointer is the entry's own, an acknowledged removal has switched the thread off and an acknowledged addition has switched it on |
| `HandshakeRuns.RunKeepsInv` | src/session.cc:147-242 | the same over every run of one thread's cell |
| `HandshakeRuns.FinishDelivers` | src/session.cc:183-242 | a call gets to its last step only after its handler ended or no such thread was found, with no signal left in flight; an addition then leaves the thread trapping through its own entry, a removal leaves it undispatched and without entry |
| `HandshakeRuns.SignalsIdle` | src/session.cc:189-216 | a control signal is in flight only while the owner of the entry waits for it |
| `HandshakeRuns.ReleasesAreAcknowledged` | src/signal.cc:68-75 | a semaphore goes up only from 0 and only at the end of the handler, on finding no such thread, or when the owner puts it back; the first two acknowledge the owner's signal, once |
| `HandshakeRuns.LostReached` | src/session.cc:183-200 | a new thread that is added by id and exits before its handler runs loses the signal |
| `HandshakeRuns.LosesExactly` | src/session.cc:183-218 | a signal gets lost in a step if and only if the thread exits before it has taken the signal |
| `HandshakeRuns.StuckForever` | src/session.cc:183-218 | a call whose target exited with the signal undelivered waits in every continuation, and so does every call that needs the entry it holds |
| `HandshakeRuns.Completes` | src/session.cc:183-218 | any other call that holds an entry has a run that brings it to its end |
| `HandshakeRuns.StepRank` | src/session.cc:183-218 | no step of anybody takes a call that holds an entry further from its end, and each step of the call or its handler brings it nearer |
| `HandshakeRuns.Progress` | src/session.cc:183-218 | until it ends or loses its signal, a call that holds an entry or its handler has a step to make |
| `HandshakeRuns.ServedCallsEnd` | src/session.cc:183-218 | every run with ten steps of the call or its handler brings the call to its end, whatever else happens in between |
| `HandshakeRuns.StuckExactlyWhenLost` | src/session.cc:183-218 | any call can return if and only if it has not lost its signal and does not need an entry that is held by a call that has |
| `HandshakeRuns.RemovalAfterReset` | src/session.cc:349-358 | with the session gone, a removal that has not switched off its target yet frees the entry of a thread that stays dispatched |
| `HandshakeRuns.ResetSafeExactly` | src/session.cc:333-358 | clearing the session pointer, with any calls by id in flight, is safe for a thread in all continuations if and only if no enable handler is past its look at the session and the thread is not dispatched, unless a disable handler has found the session already |
| `RoundTrips.AddThenRemove` | src/session.cc:183-242 | a thread that is added, by itself or by id, traps, and is as before when it is then removed, by itself or by id |
| `Registry.MoveKeepsInv` | src/session.cc:183-242 | the invariant of all threads together, with distinct entry addresses, is kept by every move: all steps of all threads, lock, check and the freeing of the map, and the clearing of the session pointer when it harms no thread |
| `Registry.SafeAlways` | src/session.cc:147-242 | in every state a session reaches, unless the session pointer was cleared where that does harm: no use of freed memory and no double release, a dispatched thread is live and the kernel points to its own entry and to no other, only selected threads have entries, semaphores are 0 or 1 and free when nobody holds the entry |
| `Registry.StepRefines` | src/session.cc:183-242 | every action is, seen from outside, either nothing or the one action in which one call takes effect on the set, knowing whether it changed it, unnoticed by all other calls |
| `Registry.PutRefines` | src/session.cc:183-242 | the set of registered threads changes exactly as the call that takes effect says |
| `RegistryRuns.Linearizes` | src/session.cc:437-455 | however calls interleave, the registered threads are those of a plain set after the same calls in the order in which they took effect, as long as the map exists |
| `RegistryRuns.EffectsDue` | src/session.cc:183-242 | along any run a call takes effect at most once, and from then on its outcome is fixed and says whether the registration changed |
| `RegistryRuns.ReturnedCallsTookEffect` | src/session.cc:437-455 | every call that returns has taken effect exactly once, between its start and its return, and knows whether it changed anything |
| `RegistryRuns.SequentialRun` | src/session.cc:118-127 | calls made one after the other leave the set that applying them in order gives |
| `RegistryRuns.StaysOut` | src/session.cc:183-242 | a thread that is not registered stays so, in any interleaving, until an addition of it starts |
| `IdReuse.StepKeepsSince` | src/session.cc:147-242 | every step keeps the relation of dispatch, entry and the thread that was switched on |
| `IdReuse.DispatchedAlways` | src/session.cc:183-232 | in every state a session reaches, a registered live thread whose entry nobody holds is dispatched if and only if it is the thread that was switched on and not one that got its id later |
| `IdReuse.OverlookedReached` | src/session.cc:183-200 | a run in which a new thread with the id of a registered one is live and not dispatched |
| `IdReuse.OverlookedStays` | src/session.cc:186-187 | such a thread is not switched on by any number of additions, whatever happens, until a removal starts |
| `Trapping.StepKeepsTraps` | src/session.cc:147-242 | every step but disarming keeps a dispatched thread trapped, redundant calls included |
| `Trapping.DisarmAndRearm` | src/session.cc:129-145 | disarming ends it, re-arming brings it back, and the two together change nothing |
| `Trapping.RedundantChangesNothing` | src/session.cc:187-204 | a call that finds nothing to do changes nothing but its own state |
| `Trapping.OthersLeaveAlone` | src/session.cc:147-242 | which steps may change a thread's life, what the kernel holds, the signals and the selector byte, in each direction |
| `Trapping.StepKeepsOff` | src/session.cc:220-242 | the byte is off while an entry is set up and when a thread has switched itself off |
| `Trapping.TrapsAlways` | src/session.cc:147-242 | in every state a session reaches, a live registered thread that nobody holds and that has not been disarmed traps if and only if it is the thread that was switched on |
| `SessionEnd.RunEmpties` | src/session.cc:421-434 | while no addition starts, every thread for which a removal returns is gone and stays gone |
| `SessionEnd.TeardownEmpties` | src/session.cc:421-434 | the destructor's removals, if they return and no addition is in flight or interleaves, leave an empty map and no dispatched thread, so that the check passes and the session can be dropped |
| `SessionEnd.DropWithoutAdditions` | src/session.cc:432-433 | if no addition is in flight from the check to the clearing of the session pointer, the clearing is safe |
| `SessionEnd.DropSafeExactly` | src/session.cc:432-433 | clearing the session pointer, with the poller alive, is safe in all continuations up to the freeing of the map if and only if the condition of `HandshakeRuns.ResetSafeExactly` holds of every thread |
| `SessionEnd.FreeSafeExactly` | src/session.cc:421-435 | with no call in flight, clearing the pointer and freeing the map is safe if and only if no thread is dispatched |
| `SessionEnd.PollerBeatsDrop` | src/session.cc:432-433 | a run from a new session in which the poller adds a thread between the check and the clearing: the thread is dispatched without a session, and freeing the map leaves the kernel's pointer dangling |
| `SessionEnd.StagesInOrder` | src/session.cc:421-435 | lock, empty map, clearing and freeing come in this order, each leaving the threads alone, and no call is in flight at the freeing |
| `SessionEnd.FreeLeavesNothing` | src/session.cc:421-435 | the freeing takes all entries away and touches nothing else, so the kernel's pointers stay |
| `SessionEnd.NothingAfterFree` | src/session.cc:421-435 | after the map is freed nobody calls and nothing is registered, in any continuation |
| `ThreadMonitor.ThdMon.constructor` | src/thdmon.hh:38-53 | a new monitor is in generation 0 and knows no thread |
| `ThreadMonitor.ThdMon.Mark` | src/thdmon.cc:89-99 | reports the unknown listed threads once each, in listing order, and stamps the listed ones |
| `ThreadMonitor.ThdMon.CollectStale` | src/thdmon.cc:100-105 | collects exactly the known threads with an older stamp, without repetition |
| `ThreadMonitor.ThdMon.Sweep` | src/thdmon.cc:106-109 | reports and forgets them |
| `ThreadMonitor.ThdMon.ScanTasks` | src/thdmon.cc:88-110 | one scan as a relation of old state, listing and new state |
| `ThreadMonitor.ThdMon.RescanThreads` | src/thdmon.cc:112-119 | a rescan is a scan in the next generation when polling, in the same one otherwise |
| `ThreadMonitor.ThdMon.PollTurn` | src/thdmon.cc:75-84 | one turn of the loop: a scan, a release of the semaphore exactly in generation 0, the rescans during the wait |
| `ThreadMonitor.ThdMon.Process` | src/thdmon.cc:67-86 | the poll loop scans once before each wait and not after the stop flag is seen; its history is the schedule of all listings, rescans included, and the semaphore is released once for each of its scans in generation 0 |
| `ThreadMonitor.ReleasedOnce` | src/thdmon.cc:77-79 | in its first 2^32 scans the loop releases the semaphore once, after its first scan |
| `ThreadMonitor.BumpWraps` | src/thdmon.hh:51-52 | the generation counts through the 32-bit numbers and starts again |
| `ThreadMonitor.FreshIsDifference` | src/thdmon.cc:89-99 | the reported appearances are the listing minus the known threads, even if the listing repeats a thread |
| `ThreadMonitor.ScanExact` | src/thdmon.cc:88-110 | a scan leaves exactly the listed threads, all with the current stamp, if and only if every unlisted known thread has an older stamp; then terminations are the set difference |
| `MonitorLife.RunKeeps` | src/thdmon.cc:43-119 | over every interleaving of constructor, poll thread, rescans and destructor: mutual exclusion, and the scans so far are the history of one polling monitor |
| `MonitorLife.ReturnsAfterFirstScan` | src/thdmon.cc:43-54 | in every run the constructor returns only after the first scan was made |
| `MonitorLife.UnlockedIsExact` | src/thdmon.cc:67-119 | in every run of at most 2^32 scans, whenever nobody holds the mutex the known threads are those of the last listing and the log is in order |
| `MonitorLife.NothingAfterStop` | src/thdmon.cc:56-65 | once the stop flag is set no scan starts and no event is reported in any continuation |
| `MonitorLife.StopEnds` | src/thdmon.cc:56-86 | once the stop flag is set every step brings the end nearer and there is a next step until the poll thread is joined |
| `MonitorLife.MutexComesFree` | src/thdmon.cc:67-119 | from every state there is a run in which whoever holds the mutex has given it up |
| `MonitorLife.RescanScans` | src/thdmon.cc:112-119 | a rescan takes the free mutex, scans in the next generation and gives the mutex back |
| `MonitorLife.AlwaysEnds` | src/thdmon.cc:43-119 | from every state that a monitor reaches there is a run in which the constructor returns and then the destructor |
| `MonitorLife.OverflowNeedsRounds` | src/thdmon.cc:77-79 | the semaphore is released while it is up only after a full round of generations, and after two if the constructor has returned |
| `MonitorLife.NoOverflow` | src/thdmon.cc:77-79 | so not in any run of at most 2^32 scans |
| `MonitorLife.OverflowReached` | src/thdmon.cc:77-79 | and it is so released, after the constructor's return, at scan 2^33 + 1 of a monitor that only polls |
| `MonitorLife.GoneAtWrapReached` | src/thdmon.cc:100-105 | a run of 2^32 + 1 scans after which a thread that has gone is still known and reported as there |
| `MonitorRuns.PollRunOk` | src/thdmon.cc:67-110 | over any run of at most 2^32 scans with the poller always listed: known threads are the last listing with the current stamp, and the log of all events is ordered, balanced and of the right shape |
| `MonitorRuns.OrderlyAlternates` | src/thdmon.cc:88-110 | an orderly log alternates appearance and termination for every thread, appearance first |
| `MonitorRuns.PollEventsAlternate` | src/thdmon.cc:70-110 | alternation over the whole run, `Existing` only in the first scan, the poller reported once as itself, appearances minus terminations is the last listing's size minus one |
| `MonitorRuns.WrapExactly` | src/thdmon.hh:51-52 | the scan after a full round of generations sweeps nothing, and is exact if and only if no known thread has gone |
| `MonitorRuns.GoneAtWrapStaysKnown` | src/thdmon.cc:100-105 | a thread that has gone by then stays known and is never reported as terminated, in all later scans that do not list it |
| `MonitorRuns.NoneRun` | src/thdmon.cc:50-52 | without polling the generation stays 0, each thread is reported once and never as terminated |
| `MonitorRuns.CallsKeepUp` | src/session.cc:118-127 | the calls for any event log leave exactly the selected threads whose last event is an appearance |
| `MonitorRuns.PollingKeepsRegistry` | src/session.cc:118-127 | polling without manual calls keeps the registered threads equal to the selected threads of the last listing without the poller, in a safe state |
| `MonitorRuns.KnownStaysQuiet` | src/thdmon.cc:88-119 | a known thread gives no further event while every listing has it, and never without polling |
| `MonitorRuns.ManualRemovalSticks` | src/session.cc:442-455 | under the same conditions a known thread that was removed by hand is not registered again in any run of the registry that adds it only for events, whatever other calls interleave |
| `ErrorTable.BuildTable` | src/session.cc:57-68 | the constructor's loop builds the table of cumulative weights |
| `ErrorTable.TableRows` | src/session.cc:63-67 | the row of a sum is the last error that reaches it |
| `ErrorTable.RowFrom` | src/session.cc:63-67 | and the table has no other rows |
| `ErrorTable.PickFrom` | src/session.cc:283-284 | for any weights a draw picks, of the sums that reach it, the least, and of the errors with that sum the last |
| `ErrorTable.PickedExactly` | src/session.cc:283-284 | an error is picked by some draw in [0, 1) if and only if a sum of it is not negative, not equalled later, and above no sum of 1 or more |
| `ErrorTable.ZeroWeightErases` | src/session.cc:63-67 | a weight of 0 takes all draws from the error before it |
| `ErrorTable.MisplacedDraw` | src/session.cc:63-67 | a sum out of place takes a draw in [0, 1) from an earlier error |
| `ErrorTable.TableIsLinearExactly` | src/session.cc:57-68 | table and lookup equal a linear scan of running sums on every draw in [0, 1) if and only if each sum is negative, or above all earlier sums, or above the first sum of at least 1 |
| `ErrorTable.PickInterval` | src/session.cc:283-284 | each error is picked by exactly the draws between the previous sum and its own, the first by those up to its weight |
| `ErrorTable.LinearIsWalk` | src/session.cc:63-67 | the scan of running sums is, for any weights and draw, the walk along the weights laid end to end from 0 |
| `ErrorTable.SharesAreWeights` | src/session.cc:57-68 | positive weights that add up to 1 cut [0, 1) into consecutive pieces as long as the weights, and each error is picked by exactly its piece |
| `ErrorTable.AlwaysPicksExactly` | src/session.cc:283-296 | for any weights, every draw in [0, 1) picks an error if and only if some running sum is at least 1, which for climbing sums is the total |
| `ErrorTable.RelativeExactly` | include/sysfail.hh:103-107 | positive weights act as relative weights if and only if they add up to 1, or there is one of at least 1, or none |
| `Machine.LoadStored` | src/restore.S:52-66 | a pushed word is read back, in wrapping byte-addressed memory |
| `Machine.LittleEndian` | src/restore.S:34-66 | the byte at the lowest address of a word is the least significant one |
| `Machine.Processor.Execute` | src/restore.S:34-66 | executing an instruction list has the effect of its instructions in order |
| `Machine.RestoreListing` | src/restore.S:34-66 | the instruction list with its offsets, as written |
| `Machine.RunTail` | src/restore.S:52-66 | the pushes, the last loads, `popfq` and `ret` |
| `Machine.RestoreLoadsContext` | src/restore.S:34-66 | from any machine state all 16 registers, the flags and the program counter come from the context, if the words read after the pushes do not lie where those write |
| `Machine.RestoreFrame` | src/restore.S:52-58 | memory outside the 16 bytes below the saved stack pointer is unchanged |
| `Machine.RedZoneKeptExactly` | src/restore.S:52-58 | the routine leaves memory unchanged if and only if those bytes already hold the saved flags and program counter |
| `Machine.RedZoneLost` | src/restore.S:52-58 | for every context that lies elsewhere there is a value that the interrupted function may hold there and that the routine destroys |
| `Injection.ContinueSyscall` | src/session.cc:44-55 | one call with the saved arguments, its result in the saved RAX |
| `Injection.ContinuedIsDirect` | src/syscall.cc:19-50 | the kernel sees the thread's own call if and only if the call number fits in an `int`, and always its six arguments, in the order of section A.2.1 of the System V AMD64 ABI |
| `Injection.FailMaybe` | src/session.cc:253-306 | effects in order, final context and undefined behaviour, for every plan, context and sequence of draws |
| `Injection.DelayLimitExactly` | src/session.cc:271 | the largest delay is the plan's limit if and only if that fits in an `int`, it is not above the limit if and only if that is not below the range of `int`, and there is no range to draw from if and only if bit 31 of the limit is set |
| `Injection.DecisionKeeps` | src/session.cc:264-305 | one call unless a failure fires before it, at most one sleep within the limit and on the chosen side, a chosen delay dropped only as an after-delay of a call failed before |
| `Injection.FailureShows` | src/session.cc:280-305 | with positive errors and some sum of weights of at least 1 a failure that fires shows as a planned error negated, otherwise the kernel's result arrives |
| `Injection.ReadsPastEndExactly` | src/session.cc:282-287 | a plan reads past the table's end on some draws in [0, 1) if and only if it fails some calls after they are made and no sum of its weights reaches 1 |
| `Injection.SilentIs` | src/session.cc:280-305 | a failure goes unnoticed, whatever the kernel's result, if and only if its draw is beyond all errors and it comes before the call, or the error drawn is 0 and it comes after |
| `Injection.SilentExactly` | src/session.cc:280-305 | a plan lets some of its failures go unnoticed if and only if it fails some calls before they are made and no sum of its weights reaches 1, or fails some calls after they are made and some draw picks an error 0 |
| `Injection.UndefinedExactly` | src/session.cc:264-287 | a plan is undefined on some draws if and only if it reads past the table's end on some, or delays with a limit whose bit 31 is set |
| `Injection.HandleSigsys` | src/session.cc:369-408 | every branch of the handler does what `Handled` says: which calls are made, in which order with disarming and re-arming, and what the context holds then |
| `Injection.CallMadeExactly` | src/session.cc:381-406 | unless the plan is undefined on the draws, the thread's call is made once, with its arguments, or the plan fails it before it is made, if and only if it is not a masking call other than one that blocks SIGSYS |
| `Injection.DroppedReturnsNumber` | src/session.cc:381-391 | such a call is not made and the thread resumes with 14 as its result |
| `Injection.PassThroughIsDirect` | src/session.cc:402-409 | after the handler, if the plan does not decide on the call, `sysfail_restore` resumes the thread as a direct call would have, but for the handler's own memory and 16 bytes below the stack pointer |
| `PlanLaws.FailureExactly` | src/session.cc:264-305 | a failure shows exactly for deciding draws below its probability, gives the error that the next draw picks, and leaves the call made exactly for third draws below the bias |
| `PlanLaws.FailureThresholds` | src/session.cc:281-282 | a plan fails all calls if and only if the probability is at least 1, and some if and only if it is above 0 |
| `PlanLaws.SideThresholds` | src/session.cc:285-292 | all its failures come after the call if and only if the bias is at least 1, and all before it if and only if it is not above 0 |
| `PlanLaws.DelayExactly` | src/session.cc:267-278 | a delay comes exactly for first draws below its probability, before the call or, for second draws below the bias, after it |
| `PlanLaws.DelayThresholds` | src/session.cc:267-278 | a plan without failures delays all calls if and only if the probability is at least 1, and some if and only if it is above 0 |
| `PlanLaws.PassedThrough` | src/session.cc:257-261 | a call that the plan does not name or its predicate does not want is made once and answered with the kernel's result |
| `PlanLaws.AlwaysPassedThrough` | src/session.cc:402-406 | so is every call without a session, and exit always |
| `PlanLaws.FailsExactlyThePlanned` | src/session.cc:253-306 | a plan that always fails one call before it is made does so for that call when its predicate wants it, with a planned error, and for no other |
| `PlanLaws.OnlyResultChanges` | src/session.cc:369-408 | in the thread's context the handler changes the result and nothing else |
| `PlanLaws.SigreturnOnOwnStack` | src/session.cc:392-401 | a return from a signal handler is made on the thread's own stack |
| `PlanLaws.MaskingCalls` | src/session.cc:378-391 | the handler does with a masking call what `SignalMask` has an armed thread do |
| `PlanLaws.MaskingNumbers` | src/session.cc:378-391 | by the numbers: SIG_BLOCK and SIG_SETMASK with SIGSYS in the set are disarmed, made and re-armed in this order, every other masking call is dropped |
| `Marshalling.BuildList` | src/go/sysfail.go:239-285 | the built list has the slice's outcomes in order, each node linked to the next and the last to none; the first outcome with a custom predicate or too small a count of errors stops it, and nothing else |
| `Marshalling.CollectWeights` | src/cwrapper.cc:50-55 | the inner loop's map of weights |
| `Marshalling.ReadList` | src/cwrapper.cc:48-69 | the traversal of any finite chain ends, refuses exactly the invalid probabilities and keeps the first outcome of each call |
| `Marshalling.FirstNodeStays` | src/cwrapper.cc:68-69 | the first node for a system call gives its outcome |
| `Marshalling.NodeOf` | src/cwrapper.cc:68-69 | every outcome comes from the first node for its system call |
| `Marshalling.FirstWeightStays` | src/cwrapper.cc:50-55 | the first weight of an error is kept |
| `Marshalling.WeightFrom` | src/cwrapper.cc:50-55 | and no other |
| `Marshalling.StartSession` | src/go/sysfail.go:239-303 | the whole way from slice to active plan; it is refused if and only if an outcome has an unsupported predicate, fewer counted errors than it has, or a probability outside 0 to 1 |
| `Marshalling.AcceptableIs` | include/sysfail.hh:50-58 | the two sides' refusals together, over the fields of an outcome |
| `Marshalling.ErrorsArrive` | src/go/sysfail.go:265-279 | errors arrive as they are if and only if their count is right and their numbers fit in an `int` |
| `Marshalling.HeapShowsExactly` | src/go/sysfail.go:265-279 | what C reads is independent of unwritten memory if and only if the count is not above the number of errors |
| `Marshalling.JunkArrives` | src/cwrapper.cc:50-55 | with a larger count, a weight for a further error that lies in unwritten memory gets into the plan |
| `Marshalling.PlanArrives` | src/session.cc:77-81 | for any slice, each system call gets its first outcome with its probabilities, delay limit and eligibility, and the table of an ascending list that holds exactly the first weight of each error |
| `Marshalling.PlanCoversOnly` | src/session.cc:77-81 | the plan covers exactly the slice's system calls, as converted to `int` |
| `SignalMask.RunKeepsInv` | src/session.cc:129-145 | the invariant of selector, masks, entry and pending re-arming signals over every run, with additions and removals by the thread and by id |
| `SignalMask.NeverArmedWhileBlocked` | src/session.cc:129-145 | under the three conditions no run kills or aborts a thread or arms the selector while SIGSYS is blocked, and an added thread out of the handler is armed or has a re-arming signal pending |
| `SignalMask.BlockingCallDisarms` | src/session.cc:378-391 | a blocking call ends with the signals blocked, the selector disarmed and one more re-arming signal pending |
| `SignalMask.UnmaskRearms` | src/session.cc:360-367 | unmasking delivers it and arms the thread |
| `SignalMask.RefusedCallRearms` | src/session.cc:384-390 | if the kernel refuses the blocking call the thread comes back armed and as it was |
| `SignalMask.AddAndRemoveItself` | src/session.cc:220-242 | a thread that adds and removes itself is armed in between and then as it was |
| `SignalMask.AddAndRemoveById` | src/session.cc:183-218 | so is one that is added and removed by id |
| `SignalMask.MasksStay` | src/session.cc:129-145 | only masking calls change a mask, and only arming steps arm |
| `SignalMask.MaskedMeans` | src/session.cc:378-391 | what the three ways of masking do to a signal in the set and to one that is not |
| `SignalMask.DiesExactly` | src/session.cc:373-378 | a call kills a thread if and only if it is armed while it blocks SIGSYS |
| `SignalMask.LocalAddSafeExactly` | src/session.cc:220-232 | adding the calling thread is safe in all continuations if and only if it does not block SIGSYS |
| `SignalMask.MaskSafeExactly` | src/session.cc:378-391 | a masking call is safe in all continuations if and only if it is dropped, or leaves SIGSYS blocked only together with the control signals, or traps while a removal holds the thread's entry |
| `SignalMask.RemovalSafeExactly` | src/session.cc:129-137 | switching a thread off for a removal by id is safe in all continuations if and only if the thread is not in the trap handler before its masking call |

## Left out

- `prctl` failing, which throws on kernels without syscall-user-dispatch, and signal queueing errors other than ESRCH, which abort.
- `rearm` waiting for an entry in a handler that has interrupted the very disable handler it waits for, which hangs the thread.
- What the kernel does in `rt_sigreturn`, which depends on its signal frame; the handler's call and its stack pointer are modelled.
- Concurrent rescans without polling, which the library does not serialise; they are taken one at a time.
- Rescans after the monitor's destructor has begun; the session's lock has shut out its API by then.
- Privileged flag bits that `popfq` does not change in user mode, and floating-point and vector state across `sysfail_restore`.
- The text range that dispatch exempts, `/proc` parsing, logging and the invocation predicates of `inv_pred.cc`; eligibility is an arbitrary predicate.
- Floating-point rounding of weights, the random engine, real time and sleep accuracy; draws and the drawn delay are inputs.
- The internals of the concurrent map, futexes and condition variables; memory allocation failure and freeing on the Go side.
- `Marshalling.BuildList`: stops at the first write past an array and does not model what that write destroys.
- `SignalMask.NeverArmedWhileBlocked`: takes three conditions on the program for granted, each of which is shown to be needed by the theorem on it.
