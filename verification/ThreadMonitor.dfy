/** The thread monitor: generation-stamped mark and sweep over listings of the process's
    tasks. A scan marks the listed threads with the current generation, reports the ones
    it did not know, and sweeps the known threads whose stamp is older. */
module ThreadMonitor {
  import opened RegistrySpec

  datatype Kind = Self | Existing | Spawned | Terminated

  datatype Event = Event(tid: Tid, kind: Kind)

  /** `gen_t` is a 32-bit unsigned integer. */
  const GENERATIONS: nat := 0x1_0000_0000

  function Bump(gen: nat): nat { (gen + 1) % GENERATIONS }

  /** The monitor's state, with the events handed to its handler so far. */
  datatype Mon = Mon(gen: nat, known: map<Tid, nat>, log: seq<Event>)

  // ---------- What a scan does ----------

  function SetOf(listing: seq<Tid>): set<Tid> { set t | t in listing }

  ghost predicate NoRepeats(s: seq<Tid>) { forall i, j :: 0 <= i < j < |s| ==> s[i] != s[j] }

  /** The listed threads that are not known yet, each once, in the order of the listing. */
  function Fresh(known: set<Tid>, listing: seq<Tid>): seq<Tid>
  {
    if listing == [] then []
    else
      var t, before := listing[|listing| - 1], listing[..|listing| - 1];
      if t in known || t in before then Fresh(known, before) else Fresh(known, before) + [t]
  }

  function Events(ts: seq<Tid>, k: Kind): seq<Event> { seq(|ts|, i requires 0 <= i < |ts| => Event(ts[i], k)) }

  function FoundKind(gen: nat): Kind { if gen == 0 then Existing else Spawned }

  function Marked(m: Mon, listing: seq<Tid>): map<Tid, nat>
  {
    map t | t in m.known.Keys + SetOf(listing) :: if t in listing then m.gen else m.known[t]
  }

  /** The known threads that a scan sweeps away. */
  function Stale(m: Mon, listing: seq<Tid>): set<Tid>
  {
    set t | t in m.known && t !in listing && m.known[t] < m.gen
  }

  /** One scan, with the swept threads reported in the order `gone`. */
  ghost predicate ScansTo(m: Mon, listing: seq<Tid>, gone: seq<Tid>, r: Mon)
  {
    && NoRepeats(gone) && SetOf(gone) == Stale(m, listing)
    && r.gen == m.gen
    && r.known == Marked(m, listing) - SetOf(gone)
    && r.log == m.log + Events(Fresh(m.known.Keys, listing), FoundKind(m.gen)) + Events(gone, Terminated)
  }

  /** One scan; the map of known threads is swept in no particular order. */
  ghost predicate Scans(m: Mon, listing: seq<Tid>, r: Mon) { exists gone :: ScansTo(m, listing, gone, r) }

  lemma {:induction false} FreshIsDifference(known: set<Tid>, listing: seq<Tid>)
    ensures NoRepeats(Fresh(known, listing)) && SetOf(Fresh(known, listing)) == SetOf(listing) - known
  {
    if listing != [] {
      var t, before := listing[|listing| - 1], listing[..|listing| - 1];
      FreshIsDifference(known, before);
      var f := Fresh(known, before);
      assert forall i :: 0 <= i < |f| ==> f[i] in SetOf(f);
      assert SetOf(listing) == SetOf(before) + {t};
      assert SetOf(f + [t]) == SetOf(f) + {t};
    }
  }

  /** A scan is exact: afterwards precisely the listed threads are known, all with the
      current stamp, if and only if every known thread that is not listed has an older
      stamp. Then the reported appearances are the listing minus the known threads, and the
      reported terminations the known threads minus the listing, each thread once. */
  lemma {:induction false} ScanExact(m: Mon, listing: seq<Tid>, gone: seq<Tid>, r: Mon)
    requires ScansTo(m, listing, gone, r)
    ensures r.known == (map t | t in SetOf(listing) :: m.gen) <==>
            forall t :: t in m.known && t !in listing ==> m.known[t] < m.gen
    ensures r.known.Keys == SetOf(listing) <==> SetOf(gone) == m.known.Keys - SetOf(listing)
    ensures SetOf(Fresh(m.known.Keys, listing)) == SetOf(listing) - m.known.Keys
    ensures NoRepeats(Fresh(m.known.Keys, listing)) && NoRepeats(gone)
    ensures SetOf(gone) == Stale(m, listing) && r.gen == m.gen
  {
    FreshIsDifference(m.known.Keys, listing);
    if forall t :: t in m.known && t !in listing ==> m.known[t] < m.gen {
      assert r.known == (map t | t in SetOf(listing) :: m.gen);
    } else {
      var t :| t in m.known && t !in listing && m.known[t] >= m.gen;
      assert t in r.known && t !in SetOf(listing);
    }
  }

  // ---------- The class ----------

  /** What happens while the poll loop waits: on-demand rescans, each with its own listing,
      then a wake-up, with or without the stop flag set, and the listing the loop sees next. */
  datatype Wait = Wait(rescans: seq<seq<Tid>>, stop: bool, next: seq<Tid>)

  function FirstStop(waits: seq<Wait>): (k: nat)
    requires exists i :: 0 <= i < |waits| && waits[i].stop
    ensures k < |waits| && waits[k].stop && forall i :: 0 <= i < k ==> !waits[i].stop
  {
    if waits[0].stop then 0 else
      assert exists i :: 0 <= i < |waits[1..]| && waits[1..][i].stop by {
        var i :| 0 <= i < |waits| && waits[i].stop;
        assert waits[1..][i - 1].stop;
      }
      1 + FirstStop(waits[1..])
  }

  /** The listings of all scans of a polling monitor, in order, up to the given wait. */
  function Schedule(first: seq<Tid>, waits: seq<Wait>): seq<seq<Tid>>
  {
    if waits == [] then [first]
    else Schedule(first, waits[..|waits| - 1]) + waits[|waits| - 1].rescans + [waits[|waits| - 1].next]
  }

  /** How many of the loop's first `n` scans are made in generation 0: the scan before a wait
      comes after all scans scheduled up to then. */
  function FirstGenerations(first: seq<Tid>, waits: seq<Wait>, n: nat): nat
    requires n <= |waits|
  {
    if n == 0 then 0
    else FirstGenerations(first, waits, n - 1) +
         if (|Schedule(first, waits[..n - 1])| - 1) % GENERATIONS == 0 then 1 else 0
  }

  /** Further scans, each in the next generation when the monitor polls and all in the same
      one when it does not. */
  ghost predicate Goes(polls: bool, m: Mon, snaps: seq<seq<Tid>>, r: Mon)
    decreases |snaps|
  {
    if snaps == [] then r == m
    else exists q ::
      Goes(polls, m, snaps[..|snaps| - 1], q) &&
      Scans(if polls then q.(gen := Bump(q.gen)) else q, snaps[|snaps| - 1], r)
  }

  /** A polling monitor on thread `self` before its first scan. */
  function Started(self: Tid): Mon { Mon(0, map[self := 0], [Event(self, Self)]) }

  /** A polling monitor after scans of these listings, the first in generation 0 and each
      further one in the next generation. */
  ghost predicate Polls(self: Tid, snaps: seq<seq<Tid>>, r: Mon)
    decreases |snaps|
  {
    && snaps != []
    && if |snaps| == 1 then Scans(Started(self), snaps[0], r)
       else exists q ::
         Polls(self, snaps[..|snaps| - 1], q) && Scans(q.(gen := Bump(q.gen)), snaps[|snaps| - 1], r)
  }

  class ThdMon {
    var gen: nat
    var known: map<Tid, nat>
    var log: seq<Event>
    var released: nat

    function State(): Mon reads this { Mon(gen, known, log) }

    constructor ()
      ensures State() == Mon(0, map[], []) && released == 0
    {
      gen, known, log, released := 0, map[], [], 0;
    }

    /** First loop of a scan: report the unknown threads and stamp the listed ones. */
    method Mark(listing: seq<Tid>)
      modifies this`known, this`log
      ensures known == Marked(old(State()), listing)
      ensures log == old(log) + Events(Fresh(old(known).Keys, listing), FoundKind(gen))
    {
      hide Marked, Fresh, Events;
      MarkNone(this.State());
      ghost var m := State();
      for i := 0 to |listing|
        invariant known == Marked(m, listing[..i])
        invariant log == m.log + Events(Fresh(m.known.Keys, listing[..i]), FoundKind(gen))
      {
        var tid := listing[i];
        MarkOne(m, listing[..i], tid);
        assert listing[..i] + [tid] == listing[..i + 1];
        if tid !in known {
          EventsOne(Fresh(m.known.Keys, listing[..i]), tid, FoundKind(gen));
          log := log + [Event(tid, if gen == 0 then Existing else Spawned)];
        }
        known := known[tid := gen];
      }
      assert listing[..|listing|] == listing;
    }

    /** Second loop: collect the threads whose stamp is older, in whatever order. */
    method CollectStale() returns (toRemove: seq<Tid>)
      ensures NoRepeats(toRemove) && SetOf(toRemove) == set t | t in known && known[t] < gen
    {
      toRemove := [];
      var rest := known.Keys;
      while rest != {}
        invariant rest <= known.Keys
        invariant NoRepeats(toRemove) && SetOf(toRemove) == set t | t in known.Keys - rest && known[t] < gen
        decreases |rest|
      {
        var tid :| tid in rest;
        if known[tid] < gen {
          assert forall i :: 0 <= i < |toRemove| ==> toRemove[i] in SetOf(toRemove);
          assert SetOf(toRemove + [tid]) == SetOf(toRemove) + {tid};
          toRemove := toRemove + [tid];
        }
        rest := rest - {tid};
      }
    }

    /** Third loop: report and forget them. */
    method Sweep(toRemove: seq<Tid>)
      modifies this`known, this`log
      ensures known == old(known) - SetOf(toRemove) && log == old(log) + Events(toRemove, Terminated)
    {
      for i := 0 to |toRemove|
        invariant known == old(known) - SetOf(toRemove[..i])
        invariant log == old(log) + Events(toRemove[..i], Terminated)
      {
        assert SetOf(toRemove[..i + 1]) == SetOf(toRemove[..i]) + {toRemove[i]};
        log := log + [Event(toRemove[i], Terminated)];
        known := known - {toRemove[i]};
      }
      assert toRemove[..|toRemove|] == toRemove;
    }

    method ScanTasks(listing: seq<Tid>)
      modifies this`known, this`log
      ensures Scans(old(State()), listing, State())
    {
      ghost var m := State();
      Mark(listing);
      var toRemove := CollectStale();
      assert SetOf(toRemove) == Stale(m, listing);
      Sweep(toRemove);
      assert ScansTo(m, listing, toRemove, State());
    }

    /** An on-demand rescan; `polls` says whether the poll thread exists. */
    method RescanThreads(polls: bool, listing: seq<Tid>)
      modifies this`gen, this`known, this`log
      ensures Scans(if polls then old(State()).(gen := Bump(old(gen))) else old(State()), listing, State())
    {
      if polls { gen := Bump(gen); }
      ScanTasks(listing);
    }

    /** A rescan of a polling monitor is one more scan in its history. */
    method PollRescan(ghost self: Tid, ghost snaps: seq<seq<Tid>>, listing: seq<Tid>)
      requires Polls(self, snaps, State())
      modifies this`gen, this`known, this`log
      ensures Polls(self, snaps + [listing], State())
    {
      ghost var m := State();
      RescanThreads(true, listing);
      PollAgain(self, snaps, m, listing, State());
    }

    /** The rescans that get the mutex during one wait of the poll loop. */
    method Rescans(ghost self: Tid, ghost snaps: seq<seq<Tid>>, listings: seq<seq<Tid>>)
      requires Polls(self, snaps, State())
      modifies this`gen, this`known, this`log
      ensures Polls(self, snaps + listings, State())
    {
      hide Polls;
      assert snaps + listings[..0] == snaps;
      for i := 0 to |listings|
        invariant Polls(self, snaps + listings[..i], State())
      {
        PollRescan(self, snaps + listings[..i], listings[i]);
        assert snaps + listings[..i] + [listings[i]] == snaps + listings[..i + 1];
      }
      assert listings[..|listings|] == listings;
    }

    /** One turn of the poll loop: a scan, the release of the semaphore in generation 0, and the
        rescans that come while the loop waits. */
    method PollTurn(ghost self: Tid, ghost m: Mon, ghost snaps: seq<seq<Tid>>, listing: seq<Tid>,
                    rescans: seq<seq<Tid>>)
      requires if snaps == [] then State() == Started(self)
               else Polls(self, snaps, m) && State() == m.(gen := Bump(m.gen))
      modifies this
      ensures Polls(self, snaps + [listing] + rescans, State())
      ensures released == old(released) + if |snaps| % GENERATIONS == 0 then 1 else 0
    {
      hide Polls, Scans;
      ScanTasks(listing);
      if snaps == [] { PollOnce(self, listing, State()); } else { PollAgain(self, snaps, m, listing, State()); }
      assert snaps == [] ==> snaps + [listing] == [listing];
      PollsGen(self, snaps + [listing], State());
      if gen == 0 { released := released + 1; }
      Rescans(self, snaps + [listing], rescans);
    }

    /** The poll thread, from its start until it finds the stop flag set. The loop scans once
        before every wait and never after the flag is seen; `released` counts the releases of
        the semaphore for which the constructor of the monitor waits. */
    method Process(self: Tid, first: seq<Tid>, waits: seq<Wait>)
      requires State() == Mon(0, map[], []) && released == 0
      requires exists i :: 0 <= i < |waits| && waits[i].stop
      modifies this
      ensures var k := FirstStop(waits);
              && released == FirstGenerations(first, waits, k + 1)
              && exists m :: Polls(self, Schedule(first, waits[..k]) + waits[k].rescans, m) &&
                             known == m.known && log == m.log && gen == Bump(m.gen)
    {
      hide Polls, Schedule;
      known := known[self := gen];
      log := log + [Event(self, Self)];
      var run, i, listing := true, 0, first;
      ghost var m, snaps := State(), [];
      while run
        invariant 0 <= i <= FirstStop(waits) + 1
        invariant i == 0 ==> run && listing == first && State() == Started(self) && snaps == []
        invariant i > 0 ==> run == !waits[i - 1].stop && listing == waits[i - 1].next
        invariant i > 0 ==> snaps == Schedule(first, waits[..i - 1]) + waits[i - 1].rescans != []
        invariant i > 0 ==> Polls(self, snaps, m) && State() == m.(gen := Bump(m.gen))
        invariant released == FirstGenerations(first, waits, i)
        decreases |waits| - i
      {
        ScheduleOne(first, waits, i);
        PollTurn(self, m, snaps, listing, waits[i].rescans);
        snaps := snaps + [listing] + waits[i].rescans;
        run, listing := !waits[i].stop, waits[i].next;
        m := State();
        i := i + 1;
        gen := Bump(gen);
      }
    }
  }

  lemma {:induction false} ScheduleOne(first: seq<Tid>, waits: seq<Wait>, i: nat)
    requires i < |waits|
    ensures Schedule(first, waits[..i]) != []
    ensures Schedule(first, waits[..i]) ==
            if i == 0 then [first] else Schedule(first, waits[..i - 1]) + waits[i - 1].rescans + [waits[i - 1].next]
  {
    if i > 0 { assert waits[..i][..i - 1] == waits[..i - 1]; }
  }

  /** In the first 2^32 scans the loop releases the semaphore once, after its first scan. */
  lemma {:induction false} ReleasedOnce(first: seq<Tid>, waits: seq<Wait>, n: nat)
    requires 0 < n <= |waits| && |Schedule(first, waits[..n - 1])| <= 4294967296
    ensures FirstGenerations(first, waits, n) == 1
  {
    ScheduleOne(first, waits, n - 1);
    if n > 1 {
      ScheduleOne(first, waits, n - 2);
      ReleasedOnce(first, waits, n - 1);
    } else {
      assert waits[..0] == [];
    }
  }

  lemma {:induction false} PollOnce(self: Tid, first: seq<Tid>, r: Mon)
    requires Scans(Started(self), first, r)
    ensures Polls(self, [first], r)
  {
  }

  lemma {:induction false} PollAgain(self: Tid, snaps: seq<seq<Tid>>, q: Mon, listing: seq<Tid>, r: Mon)
    requires Polls(self, snaps, q) && Scans(q.(gen := Bump(q.gen)), listing, r)
    ensures Polls(self, snaps + [listing], r)
  {
    assert (snaps + [listing])[..|snaps|] == snaps;
  }

  /** The generation counts the scans. */
  lemma {:induction false} PollsGen(self: Tid, snaps: seq<seq<Tid>>, r: Mon)
    requires Polls(self, snaps, r)
    ensures r.gen == (|snaps| - 1) % GENERATIONS
    decreases |snaps|
  {
    hide Scans, Bump;
    if |snaps| == 1 {
      ScanSameGen(Started(self), snaps[0], r);
    } else {
      var q :| Polls(self, snaps[..|snaps| - 1], q) && Scans(q.(gen := Bump(q.gen)), snaps[|snaps| - 1], r);
      PollsGen(self, snaps[..|snaps| - 1], q);
      ScanSameGen(q.(gen := Bump(q.gen)), snaps[|snaps| - 1], r);
      BumpCounts(|snaps| - 2);
    }
  }

  /** The generation counts through all 32-bit numbers and then starts again at 0. */
  lemma {:induction false} BumpWraps(gen: nat)
    requires gen <= 4294967295
    ensures Bump(gen) == if gen == 4294967295 then 0 else gen + 1
  {
  }

  lemma {:induction false} BumpCounts(n: nat)
    ensures Bump(n % GENERATIONS) == (n + 1) % GENERATIONS
  {
  }

  lemma {:induction false} ScanSameGen(m: Mon, listing: seq<Tid>, r: Mon)
    requires Scans(m, listing, r)
    ensures r.gen == m.gen
  {
    hide Marked, Fresh, Events, Stale;
  }

  lemma {:induction false} MarkNone(m: Mon)
    ensures Marked(m, []) == m.known && Events(Fresh(m.known.Keys, []), FoundKind(m.gen)) == []
  {
  }

  lemma {:induction false} EventsOne(ts: seq<Tid>, t: Tid, k: Kind)
    ensures Events(ts + [t], k) == Events(ts, k) + [Event(t, k)]
  {
  }

  lemma {:induction false} MarkOne(m: Mon, listing: seq<Tid>, t: Tid)
    ensures Marked(m, listing + [t]) == Marked(m, listing)[t := m.gen]
    ensures Fresh(m.known.Keys, listing + [t]) ==
            if t in Marked(m, listing) then Fresh(m.known.Keys, listing) else Fresh(m.known.Keys, listing) + [t]
  {
    assert (listing + [t])[..|listing|] == listing;
    assert SetOf(listing + [t]) == SetOf(listing) + {t};
  }
}
