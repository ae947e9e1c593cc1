/** Whole runs of the thread monitor: what its event log says about the listings it has
    seen, and what the registry becomes when the events are turned into calls. */
module MonitorRuns {
  import opened RegistrySpec
  import opened ThreadMonitor
  import Registry
  import RegistryRuns

  // ---------- Reading the log ----------

  predicate Appears(e: Event) { e.kind == Existing || e.kind == Spawned }

  /** The last event of the thread is an appearance. */
  function Up(log: seq<Event>, t: Tid): bool
  {
    if log == [] then false
    else if log[|log| - 1].tid == t then Appears(log[|log| - 1])
    else Up(log[..|log| - 1], t)
  }

  /** A thread appears only when it is not up and terminates only when it is. */
  predicate Orderly(log: seq<Event>)
  {
    log == [] ||
    var e, before := log[|log| - 1], log[..|log| - 1];
    Orderly(before) && (Appears(e) ==> !Up(before, e.tid)) && (e.kind == Terminated ==> Up(before, e.tid))
  }

  /** Appearances minus terminations. */
  function Net(log: seq<Event>): int
  {
    if log == [] then 0
    else
      var e := log[|log| - 1];
      Net(log[..|log| - 1]) + if Appears(e) then 1 else if e.kind == Terminated then -1 else 0
  }

  lemma {:induction false} LogOne(log: seq<Event>, e: Event)
    ensures forall t :: Up(log + [e], t) == (if e.tid == t then Appears(e) else Up(log, t))
    ensures Orderly(log + [e]) ==
            (Orderly(log) && (Appears(e) ==> !Up(log, e.tid)) && (e.kind == Terminated ==> Up(log, e.tid)))
    ensures Net(log + [e]) == Net(log) + if Appears(e) then 1 else if e.kind == Terminated then -1 else 0
  {
    assert (log + [e])[..|log|] == log;
  }

  /** Events of one kind for distinct threads, none of them in the state the kind leads to. */
  lemma {:induction false} LogMany(log: seq<Event>, ts: seq<Tid>, k: Kind)
    requires k != Self && NoRepeats(ts) && Orderly(log)
    requires forall t :: t in ts ==> Up(log, t) == (k == Terminated)
    ensures var r := log + Events(ts, k);
            && Orderly(r)
            && (forall t :: Up(r, t) == if t in ts then k != Terminated else Up(log, t))
            && Net(r) == Net(log) + if k == Terminated then -|ts| else |ts|
  {
    hide Up, Orderly, Net;
    if ts == [] {
      assert log + Events(ts, k) == log;
    } else {
      var t, before := ts[|ts| - 1], ts[..|ts| - 1];
      assert ts == before + [t];
      LogMany(log, before, k);
      EventsOne(before, t, k);
      assert log + Events(ts, k) == (log + Events(before, k)) + [Event(t, k)];
      LogOne(log + Events(before, k), Event(t, k));
    }
  }

  /** No event of the thread between the two positions. */
  predicate NoneBetween(log: seq<Event>, t: Tid, i: int, j: int)
    requires -1 <= i <= j <= |log|
  {
    forall k :: i < k < j ==> log[k].tid != t
  }

  lemma {:induction false} UpIsLast(log: seq<Event>, t: Tid, i: nat)
    requires i < |log| && log[i].tid == t && NoneBetween(log, t, i, |log|)
    ensures Up(log, t) == Appears(log[i])
    decreases |log|
  {
    if i < |log| - 1 {
      UpIsLast(log[..|log| - 1], t, i);
    }
  }

  lemma {:induction false} UpNever(log: seq<Event>, t: Tid)
    requires NoneBetween(log, t, -1, |log|)
    ensures !Up(log, t)
  {
    if log != [] { UpNever(log[..|log| - 1], t); }
  }

  lemma {:induction false} OrderlyPrefix(log: seq<Event>, n: nat)
    requires Orderly(log) && n <= |log|
    ensures Orderly(log[..n])
    decreases |log|
  {
    if n < |log| {
      OrderlyPrefix(log[..|log| - 1], n);
      assert log[..|log| - 1][..n] == log[..n];
    } else {
      assert log[..n] == log;
    }
  }

  /** The events of a thread alternate, an appearance first. */
  ghost predicate Alternates(log: seq<Event>, t: Tid)
  {
    && (forall j | 0 <= j < |log| && log[j].tid == t && NoneBetween(log, t, -1, j) :: Appears(log[j]))
    && (forall i, j | 0 <= i < j < |log| && log[i].tid == t && log[j].tid == t && NoneBetween(log, t, i, j) ::
          Appears(log[i]) != Appears(log[j]))
  }

  lemma {:induction false} OrderlyAlternates(log: seq<Event>, t: Tid)
    requires Orderly(log) && forall i :: 0 <= i < |log| && log[i].tid == t ==> log[i].kind != Self
    ensures Alternates(log, t)
  {
    forall j | 0 <= j < |log| && log[j].tid == t
      ensures Appears(log[j]) == !Up(log[..j], t)
    {
      OrderlyPrefix(log, j + 1);
      assert log[..j + 1][..j] == log[..j];
    }
    forall j | 0 <= j < |log| && log[j].tid == t && NoneBetween(log, t, -1, j) ensures Appears(log[j]) {
      UpNever(log[..j], t);
    }
    forall i, j | 0 <= i < j < |log| && log[i].tid == t && log[j].tid == t && NoneBetween(log, t, i, j)
      ensures Appears(log[i]) != Appears(log[j])
    {
      UpIsLast(log[..j], t, i);
    }
  }

  // ---------- A polling monitor ----------

  function Last(snaps: seq<seq<Tid>>): seq<Tid>
    requires snaps != []
  { snaps[|snaps| - 1] }

  /** The shape of the log: the poller first, then the `n` threads of the first scan. */
  ghost predicate Shape(self: Tid, n: nat, log: seq<Event>)
  {
    && |log| > n && log[0] == Event(self, Self)
    && (forall i :: 1 <= i < |log| ==>
          log[i].tid != self && log[i].kind != Self && (log[i].kind == Existing <==> i <= n))
  }

  ghost predicate RunOk(self: Tid, snaps: seq<seq<Tid>>, m: Mon)
  {
    && snaps != [] && m.gen == |snaps| - 1
    && m.known == (map t | t in SetOf(Last(snaps)) :: m.gen)
    && Orderly(m.log)
    && (forall t :: Up(m.log, t) <==> t in Last(snaps) && t != self)
    && Net(m.log) == |SetOf(Last(snaps))| - 1
    && Shape(self, |Fresh({self}, snaps[0])|, m.log)
  }

  lemma {:induction false} LengthIsCount(ts: seq<Tid>)
    requires NoRepeats(ts)
    ensures |SetOf(ts)| == |ts|
  {
    if ts != [] {
      var t, before := ts[|ts| - 1], ts[..|ts| - 1];
      LengthIsCount(before);
      assert t !in SetOf(before);
      assert SetOf(ts) == SetOf(before) + {t};
    }
  }

  lemma {:induction false} CountDifference(k: set<Tid>, l: set<Tid>)
    ensures |k| + |l - k| - |k - l| == |l|
  {
    assert k == (k - l) + (k * l);
    assert l == (l - k) + (k * l);
  }

  /** The log of an exact scan, in which the known threads are those that are up and the poller. */
  lemma {:induction false} ScanLog(self: Tid, m: Mon, listing: seq<Tid>, gone: seq<Tid>, r: Mon)
    requires ScansTo(m, listing, gone, r) && self in listing && self in m.known
    requires forall t :: t in m.known && t !in listing ==> m.known[t] < m.gen
    requires Orderly(m.log) && forall t :: Up(m.log, t) <==> t in m.known && t != self
    ensures Orderly(r.log) && forall t :: Up(r.log, t) <==> t in listing && t != self
    ensures Net(r.log) == Net(m.log) + |SetOf(listing)| - |m.known.Keys|
  {
    var found := Fresh(m.known.Keys, listing);
    FreshIsDifference(m.known.Keys, listing);
    assert forall t :: t in found <==> t in SetOf(found);
    assert forall t :: t in gone <==> t in SetOf(gone);
    assert forall t :: t in listing <==> t in SetOf(listing);
    LogMany(m.log, found, FoundKind(m.gen));
    LogMany(m.log + Events(found, FoundKind(m.gen)), gone, Terminated);
    LengthIsCount(found);
    LengthIsCount(gone);
    assert SetOf(gone) == m.known.Keys - SetOf(listing);
    CountDifference(m.known.Keys, SetOf(listing));
  }

  lemma {:induction false} ScanShape(self: Tid, n: nat, m: Mon, listing: seq<Tid>, gone: seq<Tid>, r: Mon)
    requires ScansTo(m, listing, gone, r) && self in listing && self in m.known && m.gen > 0
    requires Shape(self, n, m.log)
    ensures Shape(self, n, r.log)
  {
    FreshIsDifference(m.known.Keys, listing);
    var found := Fresh(m.known.Keys, listing);
    assert forall i :: 0 <= i < |found| ==> found[i] in SetOf(found);
    assert forall i :: 0 <= i < |gone| ==> gone[i] in SetOf(gone);
  }

  lemma {:induction false} FirstShape(self: Tid, listing: seq<Tid>, gone: seq<Tid>, r: Mon)
    requires ScansTo(Started(self), listing, gone, r)
    ensures Shape(self, |Fresh({self}, listing)|, r.log)
  {
    hide Fresh;
    assert Started(self).known.Keys == {self};
    var found := Fresh({self}, listing);
    FreshIsDifference({self}, listing);
    assert forall i :: 0 <= i < |found| ==> found[i] in SetOf(found);
    EmptySeq(gone);
  }

  lemma {:induction false} EmptySeq(ts: seq<Tid>)
    ensures ts == [] <==> SetOf(ts) == {}
  {
    if ts != [] { assert ts[0] in SetOf(ts); }
  }

  lemma {:induction false} NothingMissing(k: set<Tid>, l: set<Tid>)
    ensures k - l == {} <==> k <= l
  {
    if !(k <= l) {
      var t :| t in k && t !in l;
      assert t in k - l;
    }
  }

  lemma {:induction false} StartLog(self: Tid)
    ensures var log := Started(self).log; Orderly(log) && Net(log) == 0 && forall t :: !Up(log, t)
  {
    LogOne([], Event(self, Self));
    assert [] + [Event(self, Self)] == Started(self).log;
  }

  lemma {:induction false} FirstScan(self: Tid, listing: seq<Tid>, gone: seq<Tid>, r: Mon)
    requires ScansTo(Started(self), listing, gone, r) && self in listing
    ensures RunOk(self, [listing], r)
  {
    hide Up, Orderly, Net, Fresh, ScansTo, Shape;
    var m := Started(self);
    StartLog(self);
    ScanExact(m, listing, gone, r);
    ScanLog(self, m, listing, gone, r);
    FirstShape(self, listing, gone, r);
    assert m.known.Keys == {self};
  }

  lemma {:induction false} NextScan(self: Tid, snaps: seq<seq<Tid>>, m: Mon, listing: seq<Tid>, gone: seq<Tid>, r: Mon)
    requires RunOk(self, snaps, m) && self in Last(snaps) && self in listing && |snaps| < GENERATIONS
    requires ScansTo(m.(gen := Bump(m.gen)), listing, gone, r)
    ensures RunOk(self, snaps + [listing], r)
  {
    hide Up, Orderly, Net, Fresh, ScansTo, Shape;
    var q := m.(gen := Bump(m.gen));
    ScanExact(q, listing, gone, r);
    ScanLog(self, q, listing, gone, r);
    ScanShape(self, |Fresh({self}, snaps[0])|, q, listing, gone, r);
    assert m.known.Keys == SetOf(Last(snaps));
    assert q.gen == |snaps| && forall t :: t in q.known ==> q.known[t] < q.gen;
    assert Last(snaps + [listing]) == listing && (snaps + [listing])[0] == snaps[0];
  }

  /** A polling run of fewer than 2^32 generations with the poller in every listing: after
      each scan exactly the listed threads are known, all stamped with the current
      generation, and the log of all events so far has the right order, shape and balance. */
  lemma {:induction false} PollRunOk(self: Tid, snaps: seq<seq<Tid>>, m: Mon)
    requires Polls(self, snaps, m) && |snaps| <= GENERATIONS
    requires forall i :: 0 <= i < |snaps| ==> self in snaps[i]
    ensures RunOk(self, snaps, m)
    decreases |snaps|
  {
    hide RunOk, ScansTo;
    if |snaps| == 1 {
      var gone :| ScansTo(Started(self), snaps[0], gone, m);
      FirstScan(self, snaps[0], gone, m);
      assert snaps == [snaps[0]];
    } else {
      var before := snaps[..|snaps| - 1];
      var q :| Polls(self, before, q) && Scans(q.(gen := Bump(q.gen)), Last(snaps), m);
      PollRunOk(self, before, q);
      var gone :| ScansTo(q.(gen := Bump(q.gen)), Last(snaps), gone, m);
      NextScan(self, before, q, Last(snaps), gone, m);
      assert snaps == before + [Last(snaps)];
    }
  }

  /** Every thread's events alternate over a whole run, an appearance first, and the poller's
      own id is reported once, as itself. */
  lemma {:induction false} PollEventsAlternate(self: Tid, snaps: seq<seq<Tid>>, m: Mon, t: Tid)
    requires Polls(self, snaps, m) && |snaps| <= GENERATIONS
    requires forall i :: 0 <= i < |snaps| ==> self in snaps[i]
    ensures t != self ==> Alternates(m.log, t)
    ensures Shape(self, |Fresh({self}, snaps[0])|, m.log)
    ensures Net(m.log) == |SetOf(Last(snaps))| - 1
  {
    hide Polls, Up, Orderly, Net, Alternates, Fresh;
    PollRunOk(self, snaps, m);
    if t != self { OrderlyAlternates(m.log, t); }
  }

  /** The stamps after 2^32 generations start again at 0. The scan that wraps around keeps
      every known thread, so it is exact if and only if no known thread has gone. */
  lemma {:induction false} WrapExactly(self: Tid, snaps: seq<seq<Tid>>, m: Mon, listing: seq<Tid>, gone: seq<Tid>,
                                       r: Mon)
    requires RunOk(self, snaps, m) && |snaps| <= GENERATIONS && ScansTo(m.(gen := Bump(m.gen)), listing, gone, r)
    ensures r.known.Keys == SetOf(listing) <==> |snaps| < GENERATIONS || SetOf(Last(snaps)) <= SetOf(listing)
    ensures |snaps| == GENERATIONS ==> gone == []
  {
    hide Up, Orderly, Net, Fresh, ScansTo, Shape;
    var q := m.(gen := Bump(m.gen));
    ScanExact(q, listing, gone, r);
    assert q.known.Keys == SetOf(Last(snaps));
    if |snaps| < GENERATIONS {
      assert q.gen == |snaps|;
      assert Stale(q, listing) == q.known.Keys - SetOf(listing);
    } else {
      assert q.gen == 0;
      assert Stale(q, listing) == {};
      NothingMissing(q.known.Keys, SetOf(listing));
      EmptySeq(gone);
    }
  }

  /** The thread is known, and no event about it has come since position `n` of the log. */
  ghost predicate Quiet(m: Mon, t: Tid, n: nat)
  {
    t in m.known && n <= |m.log| && forall i :: n <= i < |m.log| ==> m.log[i].tid != t
  }

  /** A thread with the last stamp before the wrap is not swept by any later scan that does not
      list it: no generation is younger. */
  lemma {:induction false} LastStampStays(m: Mon, snaps: seq<seq<Tid>>, r: Mon, t: Tid)
    requires Goes(true, m, snaps, r) && t in m.known && m.known[t] == GENERATIONS - 1 && m.gen < GENERATIONS
    requires forall i :: 0 <= i < |snaps| ==> t !in snaps[i]
    ensures Quiet(r, t, |m.log|) && r.known[t] == GENERATIONS - 1 && r.gen < GENERATIONS
    decreases |snaps|
  {
    hide ScansTo;
    if snaps != [] {
      var before := snaps[..|snaps| - 1];
      var q :| Goes(true, m, before, q) && Scans(q.(gen := Bump(q.gen)), Last(snaps), r);
      LastStampStays(m, before, q, t);
      var gone :| ScansTo(q.(gen := Bump(q.gen)), Last(snaps), gone, r);
      LastStampScan(q.(gen := Bump(q.gen)), Last(snaps), gone, r, t, |m.log|);
    }
  }

  lemma {:induction false} LastStampScan(m: Mon, listing: seq<Tid>, gone: seq<Tid>, r: Mon, t: Tid, n: nat)
    requires ScansTo(m, listing, gone, r) && Quiet(m, t, n) && t !in listing
    requires m.known[t] == GENERATIONS - 1 && m.gen < GENERATIONS
    ensures Quiet(r, t, n) && r.known[t] == GENERATIONS - 1 && r.gen < GENERATIONS
  {
    FreshIsDifference(m.known.Keys, listing);
    var found := Fresh(m.known.Keys, listing);
    assert forall i :: 0 <= i < |found| ==> found[i] in SetOf(found);
    assert forall i :: 0 <= i < |gone| ==> gone[i] in SetOf(gone);
  }

  /** A thread that is gone at the wrap is never reported as terminated, and stays known, in all
      later scans until a thread with its id is listed again. */
  lemma {:induction false} GoneAtWrapStaysKnown(self: Tid, snaps: seq<seq<Tid>>, m: Mon, later: seq<seq<Tid>>,
                                                r: Mon, t: Tid)
    requires RunOk(self, snaps, m) && |snaps| == GENERATIONS && t in Last(snaps)
    requires Goes(true, m, later, r) && forall i :: 0 <= i < |later| ==> t !in later[i]
    ensures t in r.known && |m.log| <= |r.log| && forall i :: |m.log| <= i < |r.log| ==> r.log[i].tid != t
  {
    LastStampStays(m, later, r, t);
  }

  // ---------- A monitor that does not poll ----------

  /** All threads ever listed. */
  function Seen(snaps: seq<seq<Tid>>): set<Tid>
  {
    if snaps == [] then {} else Seen(snaps[..|snaps| - 1]) + SetOf(snaps[|snaps| - 1])
  }

  /** Without polling the generation stays 0: a thread is reported once, when it is first
      listed, and never as terminated. */
  ghost predicate NoneOk(snaps: seq<seq<Tid>>, m: Mon)
  {
    && m.gen == 0
    && m.known == (map t | t in Seen(snaps) :: 0)
    && (forall i :: 0 <= i < |m.log| ==> m.log[i].kind == Existing && m.log[i].tid in Seen(snaps))
    && (forall i, j :: 0 <= i < j < |m.log| ==> m.log[i].tid != m.log[j].tid)
  }

  lemma {:induction false} NoneScan(snaps: seq<seq<Tid>>, m: Mon, listing: seq<Tid>, gone: seq<Tid>, r: Mon)
    requires NoneOk(snaps, m) && ScansTo(m, listing, gone, r)
    ensures NoneOk(snaps + [listing], r)
  {
    hide Fresh;
    assert (snaps + [listing])[..|snaps|] == snaps;
    EmptySeq(gone);
    FreshIsDifference(m.known.Keys, listing);
    var found := Fresh(m.known.Keys, listing);
    assert forall i :: 0 <= i < |found| ==> found[i] in SetOf(found);
    assert r.log == m.log + Events(found, Existing);
  }

  lemma {:induction false} NoneRun(snaps: seq<seq<Tid>>, m: Mon)
    requires Goes(false, Mon(0, map[], []), snaps, m)
    ensures NoneOk(snaps, m)
    decreases |snaps|
  {
    hide ScansTo;
    if snaps != [] {
      var before := snaps[..|snaps| - 1];
      var q :| Goes(false, Mon(0, map[], []), before, q) && Scans(q, Last(snaps), m);
      NoneRun(before, q);
      var gone :| ScansTo(q, Last(snaps), gone, m);
      NoneScan(before, q, Last(snaps), gone, m);
      assert snaps == before + [Last(snaps)];
    }
  }

  // ---------- The registry that the events drive ----------

  /** The calls the session makes for the events: the poller's own event is ignored. */
  function CallsFor(log: seq<Event>): seq<Call>
  {
    if log == [] then []
    else
      var e := log[|log| - 1];
      CallsFor(log[..|log| - 1]) +
      match e.kind
      case Self => []
      case Existing => [Add(e.tid)]
      case Spawned => [Add(e.tid)]
      case Terminated => [Remove(e.tid)]
  }

  /** Whatever the events, the calls leave exactly the selected threads that are up. */
  lemma {:induction false} CallsKeepUp(sel: Tid -> bool, log: seq<Event>)
    requires forall i, j :: 0 <= i < |log| && 0 <= j < |log| && log[i].kind == Self && log[j].tid == log[i].tid ==>
        i == j
    ensures forall t :: t in ApplyAll(sel, {}, CallsFor(log)) <==> sel(t) && Up(log, t)
  {
    if log != [] {
      var e, before := log[|log| - 1], log[..|log| - 1];
      CallsKeepUp(sel, before);
      var cs := CallsFor(before);
      if Appears(e) {
        ApplyAllAppend(sel, {}, cs, [Add(e.tid)]);
      } else if e.kind == Terminated {
        ApplyAllAppend(sel, {}, cs, [Remove(e.tid)]);
      } else {
        assert cs + [] == cs;
        UpNever(before, e.tid);
      }
    }
  }

  lemma {:induction false} PollCalls(sel: Tid -> bool, self: Tid, snaps: seq<seq<Tid>>, m: Mon)
    requires RunOk(self, snaps, m)
    ensures ApplyAll(sel, {}, CallsFor(m.log)) == set t | t in Last(snaps) && t != self && sel(t)
  {
    hide Up, Orderly, Net, CallsFor, ApplyAll;
    CallsKeepUp(sel, m.log);
  }

  lemma {:induction false} InitHasSession(s: Registry.State)
    requires Registry.Init(s)
    ensures Registry.Session(s)
  {
  }

  lemma {:induction false} LastingDrops(sel: Tid -> bool, s: Registry.State, run: seq<Registry.Move>)
    requires Registry.CanRun(sel, s, run) && RegistryRuns.Lasting(sel, s, run)
    ensures Registry.DropsOk(sel, s, run)
  {
  }

  /** Polling without manual calls: when the calls for the events have all been made, one
      after the other, on a session that started empty, the registered threads are the
      selected threads of the last listing, without the poller. */
  lemma {:induction false} PollingKeepsRegistry(sel: Tid -> bool, self: Tid, snaps: seq<seq<Tid>>, m: Mon,
                                                s: Registry.State, run: seq<Registry.Move>)
    requires Polls(self, snaps, m) && |snaps| <= GENERATIONS
    requires forall i :: 0 <= i < |snaps| ==> self in snaps[i]
    requires Registry.Init(s) && Registry.CanRun(sel, s, run) && Registry.Drop !in run
    requires RegistryRuns.Sequential(sel, s, run)
    requires RegistryRuns.CallsIn(run) == CallsFor(m.log) && RegistryRuns.Idle(Registry.Exec(sel, s, run))
    ensures Registry.Registered(Registry.Exec(sel, s, run)) == set t | t in Last(snaps) && t != self && sel(t)
    ensures Registry.AllSafe(sel, Registry.Exec(sel, s, run))
  {
    hide *;
    PollRunOk(self, snaps, m);
    PollCalls(sel, self, snaps, m);
    InitHasSession(s);
    RegistryRuns.UndroppedLasts(sel, s, run);
    LastingDrops(sel, s, run);
    Registry.SafeAlways(sel, s, run);
    RegistryRuns.SequentialFromInit(sel, s, run);
  }

  // ---------- Threads removed by hand ----------

  lemma {:induction false} ScanStaysQuiet(m: Mon, listing: seq<Tid>, gone: seq<Tid>, r: Mon, t: Tid, n: nat)
    requires ScansTo(m, listing, gone, r) && Quiet(m, t, n) && (t in listing || m.gen == 0)
    ensures Quiet(r, t, n)
  {
    FreshIsDifference(m.known.Keys, listing);
    var found := Fresh(m.known.Keys, listing);
    assert forall i :: 0 <= i < |found| ==> found[i] in SetOf(found);
    assert forall i :: 0 <= i < |gone| ==> gone[i] in SetOf(gone);
  }

  /** A known thread gives no further event while every listing has it; without polling it
      never does. */
  lemma {:induction false} KnownStaysQuiet(polls: bool, m: Mon, snaps: seq<seq<Tid>>, r: Mon, t: Tid)
    requires Goes(polls, m, snaps, r) && t in m.known
    requires if polls then forall i :: 0 <= i < |snaps| ==> t in snaps[i] else m.gen == 0
    ensures Quiet(r, t, |m.log|) && (!polls ==> r.gen == 0)
    decreases |snaps|
  {
    if snaps != [] {
      var before := snaps[..|snaps| - 1];
      var q :| Goes(polls, m, before, q) && Scans(if polls then q.(gen := Bump(q.gen)) else q, Last(snaps), r);
      KnownStaysQuiet(polls, m, before, q, t);
      var q' := if polls then q.(gen := Bump(q.gen)) else q;
      var gone :| ScansTo(q', Last(snaps), gone, r);
      ScanStaysQuiet(q', Last(snaps), gone, r, t, |m.log|);
    }
  }

  /** Additions of the thread start only for one of these events. */
  ghost predicate AddsForEvents(run: seq<Registry.Move>, t: Tid, events: seq<Event>)
  {
    forall i :: 0 <= i < |run| && RegistryRuns.StartsAddition(run[i], t) ==>
        exists e :: e in events && e.tid == t && Appears(e)
  }

  /** A thread that the monitor knows and that was then removed by hand stays removed: while
      every listing has it, and without polling for the rest of the monitor's life, no run of the
      registry adds it for the later events, whatever calls for whatever threads interleave. */
  lemma {:induction false} ManualRemovalSticks(sel: Tid -> bool, polls: bool, m: Mon, snaps: seq<seq<Tid>>, r: Mon,
                                               t: Tid, s: Registry.State, run: seq<Registry.Move>)
    requires Goes(polls, m, snaps, r) && t in m.known
    requires if polls then forall i :: 0 <= i < |snaps| ==> t in snaps[i] else m.gen == 0
    requires t !in Registry.Registered(s) && RegistryRuns.OnlyRemovalsOn(Registry.CellOf(s, t))
    requires Registry.CanRun(sel, s, run) && |m.log| <= |r.log| && AddsForEvents(run, t, r.log[|m.log|..])
    ensures t !in Registry.Registered(Registry.Exec(sel, s, run))
  {
    KnownStaysQuiet(polls, m, snaps, r, t);
    var events := r.log[|m.log|..];
    forall e | e in events ensures e.tid != t {
      var i :| 0 <= i < |events| && events[i] == e;
      assert e == r.log[|m.log| + i];
    }
    RegistryRuns.StaysOut(sel, s, run, t);
  }
}
