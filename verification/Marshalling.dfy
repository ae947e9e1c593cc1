/** How a plan travels from a Go slice through a C linked list into the maps of an active
    session, and what of it arrives. */
module Marshalling {
  import opened Options
  import opened ErrorTable
  import opened Injection

  datatype Result<+T> = Ok(value: T) | Err(error: Error)

  /** `Overflow`: the Go side has written past the end of an array. */
  datatype Error = CustomEligibilityNotSupported | InvalidProbability | Overflow

  datatype Eligibility = AlwaysEligible | CustomPredicate | NotStdInOutErr

  datatype GoOutcome = GoOutcome(
    syscall: int, fail: Probability, delay: Probability, maxDelay: nat,
    eligible: Eligibility, numErrors: nat, errors: seq<Weight>)

  const NULL: int := -1

  /** A node of the C list. `next` is the index of the next node in the array that holds them
      all; `eligible` is NULL for `AlwaysEligible`. */
  datatype CNode = CNode(
    next: int, syscall: int, fail: Probability, delay: Probability, maxDelay: nat,
    eligible: Eligibility, errors: seq<Weight>)

  /** A conversion to a 32-bit `int`. */
  function CInt(x: int): int { ToInt(x % 0x1_0000_0000) }

  /** What memory from `malloc` holds: of the array for outcome `i`, the element at `j`. */
  type Heap = (nat, nat) -> Weight

  /** The array of errors that C reads for an outcome. It is allocated and read for
      `NumErrors` elements but written for the length of the slice. */
  function CErrors(o: GoOutcome, heap: Heap, i: nat): seq<Weight>
  {
    seq(o.numErrors, j requires 0 <= j < o.numErrors =>
      if j < |o.errors| then Weight(CInt(o.errors[j].err), o.errors[j].w) else heap(i, j))
  }

  function Node(o: GoOutcome, heap: Heap, i: nat, next: int): CNode
  {
    CNode(next, CInt(o.syscall), o.fail, o.delay, o.maxDelay, o.eligible, CErrors(o, heap, i))
  }

  /** What stops the Go side at an outcome. */
  function Trouble(o: GoOutcome): Option<Error>
  {
    if o.eligible == CustomPredicate then Some(CustomEligibilityNotSupported)
    else if 0 < o.numErrors < |o.errors| then Some(Overflow)
    else None
  }

  /** The first outcome with trouble is `i`. */
  predicate FirstTrouble(outs: seq<GoOutcome>, i: nat, e: Error)
  {
    i < |outs| && Trouble(outs[i]) == Some(e) && forall j :: 0 <= j < i ==> Trouble(outs[j]) == None
  }

  /** `StartSession` up to the call into C. */
  method BuildList(outs: seq<GoOutcome>, heap: Heap) returns (r: Result<array<CNode>>)
    ensures r.Ok? <==> forall i :: 0 <= i < |outs| ==> Trouble(outs[i]) == None
    ensures r.Err? ==> exists i: nat :: FirstTrouble(outs, i, r.error)
    ensures r.Ok? ==> fresh(r.value) && r.value.Length == |outs|
    ensures r.Ok? ==> forall i :: 0 <= i < |outs| ==>
              r.value[i] == Node(outs[i], heap, i, if i + 1 < |outs| then i + 1 else NULL)
  {
    var never := Probability(0.0, 0.0);
    var nodes := new CNode[|outs|](_ => CNode(NULL, 0, never, never, 0, AlwaysEligible, []));
    var prev := NULL;
    for i := 0 to |outs|
      invariant prev == i - 1
      invariant forall j :: 0 <= j < i ==> Trouble(outs[j]) == None
      invariant forall j :: 0 <= j < i ==> nodes[j] == Node(outs[j], heap, j, if j + 1 < i then j + 1 else NULL)
    {
      var o := outs[i];
      if o.eligible == CustomPredicate {
        assert FirstTrouble(outs, i, CustomEligibilityNotSupported);
        return Err(CustomEligibilityNotSupported);
      }
      nodes[i] := CNode(nodes[i].next, CInt(o.syscall), o.fail, o.delay, o.maxDelay, o.eligible, []);
      if o.numErrors > 0 {
        if |o.errors| > o.numErrors {
          assert FirstTrouble(outs, i, Overflow);
          return Err(Overflow);
        }
        nodes[i] := nodes[i].(errors := CErrors(o, heap, i));
      }
      if prev != NULL {
        nodes[prev] := nodes[prev].(next := i);
      }
      nodes[i] := nodes[i].(next := NULL);
      prev := i;
    }
    r := Ok(nodes);
  }

  // ---------- The C++ side ----------

  datatype PlanOutcome = PlanOutcome(
    fail: Probability, delay: Probability, maxDelay: nat, weights: seq<Weight>, eligible: Eligibility)

  predicate ValidProbability(p: Probability) { 0.0 <= p.p <= 1.0 && 0.0 <= p.afterBias <= 1.0 }

  predicate ValidNode(n: CNode) { ValidProbability(n.fail) && ValidProbability(n.delay) }

  /** `std::map::insert`: a key that is there keeps its value. */
  function Insert(ws: seq<Weight>, w: Weight): seq<Weight>
  {
    if ws == [] || w.err < ws[0].err then [w] + ws
    else if w.err == ws[0].err then ws
    else [ws[0]] + Insert(ws[1..], w)
  }

  /** The weights after the first `n` errors of a node. */
  function WeightsOf(errors: seq<Weight>, n: nat): seq<Weight>
    requires n <= |errors|
  {
    if n == 0 then [] else Insert(WeightsOf(errors, n - 1), errors[n - 1])
  }

  function OutcomeOf(n: CNode): PlanOutcome
  {
    PlanOutcome(n.fail, n.delay, n.maxDelay, WeightsOf(n.errors, |n.errors|), n.eligible)
  }

  /** The map of outcomes after a list of nodes: the first node of a system call stays. */
  function OutcomesOf(ns: seq<CNode>): map<int, PlanOutcome>
  {
    if ns == [] then map[]
    else
      var n, m := ns[|ns| - 1], OutcomesOf(ns[..|ns| - 1]);
      if n.syscall in m then m else m[n.syscall := OutcomeOf(n)]
  }

  method CollectWeights(errors: seq<Weight>) returns (ws: seq<Weight>)
    ensures ws == WeightsOf(errors, |errors|)
  {
    ws := [];
    for i := 0 to |errors|
      invariant ws == WeightsOf(errors, i)
    {
      ws := Insert(ws, errors[i]);
    }
  }

  /** The nodes from `head` on are those at `path`, the last of them with no next. */
  ghost predicate Chain(nodes: seq<CNode>, head: int, path: seq<int>)
  {
    && (path == [] <==> head == NULL)
    && (path != [] ==> path[0] == head)
    && (forall i :: 0 <= i < |path| ==> 0 <= path[i] < |nodes|)
    && (forall i :: 0 <= i < |path| ==> nodes[path[i]].next == if i + 1 < |path| then path[i + 1] else NULL)
  }

  function Along(nodes: seq<CNode>, path: seq<int>): seq<CNode>
    requires forall i :: 0 <= i < |path| ==> 0 <= path[i] < |nodes|
  {
    seq(|path|, i requires 0 <= i < |path| => nodes[path[i]])
  }

  /** The traversal in `sysfail_start`. It follows `next` only; `path` is for the proof. */
  method ReadList(nodes: array<CNode>, head: int, ghost path: seq<int>) returns (r: Result<map<int, PlanOutcome>>)
    requires Chain(nodes[..], head, path)
    ensures r.Ok? <==> forall n :: n in Along(nodes[..], path) ==> ValidNode(n)
    ensures r.Ok? ==> r.value == OutcomesOf(Along(nodes[..], path))
    ensures r.Err? ==> r.error == InvalidProbability
  {
    ghost var ns := Along(nodes[..], path);
    var outcomes: map<int, PlanOutcome> := map[];
    var at := head;
    ghost var k := 0;
    while at != NULL
      invariant 0 <= k <= |path| && at == if k < |path| then path[k] else NULL
      invariant forall i :: 0 <= i < k ==> ValidNode(ns[i])
      invariant outcomes == OutcomesOf(ns[..k])
      decreases |path| - k
    {
      var n := nodes[at];
      assert nodes[..][path[k]].next == if k + 1 < |path| then path[k + 1] else NULL;
      assert n == ns[k] && ns[..k + 1][..k] == ns[..k];
      var ws := CollectWeights(n.errors);
      if !ValidProbability(n.fail) || !ValidProbability(n.delay) {
        assert ns == Along(nodes[..], path) && ns[k] in ns && !ValidNode(ns[k]);
        return Err(InvalidProbability);
      }
      if n.syscall !in outcomes {
        outcomes := outcomes[n.syscall := PlanOutcome(n.fail, n.delay, n.maxDelay, ws, n.eligible)];
      }
      at := n.next;
      k := k + 1;
    }
    assert ns[..k] == ns;
    r := Ok(outcomes);
  }

  /** `ActivePlan`: one active outcome for each of the plan's. `notStd` is the predicate on
      file descriptors that the Go library offers. */
  function Activate(m: map<int, PlanOutcome>, notStd: seq<nat> -> bool): map<int, ActiveOutcome>
  {
    map k | k in m ::
      ActiveOutcome(m[k].fail, m[k].delay, m[k].maxDelay, Table(m[k].weights, |m[k].weights|),
                    if m[k].eligible == NotStdInOutErr then notStd else _ => true)
  }

  // ---------- What arrives ----------

  /** The first node for a system call. */
  predicate FirstNode(ns: seq<CNode>, k: int, i: nat)
  {
    i < |ns| && ns[i].syscall == k && forall j :: 0 <= j < i ==> ns[j].syscall != k
  }

  /** The first node for a system call gives its outcome. */
  lemma {:induction false} FirstNodeStays(ns: seq<CNode>, k: int, i: nat)
    requires FirstNode(ns, k, i)
    ensures k in OutcomesOf(ns) && OutcomesOf(ns)[k] == OutcomeOf(ns[i])
  {
    var before := ns[..|ns| - 1];
    if i < |before| {
      FirstNodeStays(before, k, i);
    } else if k in OutcomesOf(before) {
      var j := NodeOf(before, k);
    }
  }

  /** Every outcome comes from a first node. */
  lemma {:induction false} NodeOf(ns: seq<CNode>, k: int) returns (i: nat)
    requires k in OutcomesOf(ns)
    ensures FirstNode(ns, k, i)
  {
    var before := ns[..|ns| - 1];
    if k in OutcomesOf(before) {
      i := NodeOf(before, k);
    } else {
      i := |ns| - 1;
      if j :| 0 <= j < i && ns[j].syscall == k {
        FirstOf(before, k, j);
      }
    }
  }

  lemma {:induction false} FirstOf(ns: seq<CNode>, k: int, j: nat)
    requires j < |ns| && ns[j].syscall == k
    ensures k in OutcomesOf(ns)
    decreases |ns|
  {
    var before := ns[..|ns| - 1];
    if j < |before| { FirstOf(before, k, j); }
  }

  /** The error has a weight among these. */
  predicate Weighs(ws: seq<Weight>, err: int) { exists v :: v in ws && v.err == err }

  lemma {:induction false} AscendingFront(head: Weight, ws: seq<Weight>)
    requires Ascending(ws) && forall v :: v in ws ==> head.err < v.err
    ensures Ascending([head] + ws)
  {
    var s := [head] + ws;
    forall i, j | 0 <= i < j < |s| ensures s[i].err < s[j].err {
      assert s[j] == ws[j - 1] && s[j] in ws;
      if i > 0 { assert s[i] == ws[i - 1]; }
    }
  }

  lemma {:induction false} AscendingTail(ws: seq<Weight>)
    requires Ascending(ws) && ws != []
    ensures Ascending(ws[1..]) && forall v :: v in ws[1..] ==> ws[0].err < v.err
  {
    forall i, j | 0 <= i < j < |ws[1..]| ensures ws[1..][i].err < ws[1..][j].err {
      assert ws[i + 1].err < ws[j + 1].err;
    }
  }

  lemma {:induction false} InsertKeepsOrder(ws: seq<Weight>, w: Weight)
    requires Ascending(ws)
    ensures Ascending(Insert(ws, w))
    ensures forall v :: v in Insert(ws, w) <==> v in ws || (v == w && !Weighs(ws, w.err))
  {
    hide Ascending;
    if ws == [] {
      AscendingFront(w, ws);
    } else {
      AscendingTail(ws);
      var rest := ws[1..];
      assert ws == [ws[0]] + rest;
      if w.err < ws[0].err {
        AscendingFront(w, ws);
      } else if w.err > ws[0].err {
        InsertKeepsOrder(rest, w);
        AscendingFront(ws[0], Insert(rest, w));
      } else {
        assert ws[0] in ws;
      }
    }
  }

  lemma {:induction false} InsertWeighs(ws: seq<Weight>, w: Weight, err: int)
    requires Ascending(ws)
    ensures Weighs(Insert(ws, w), err) <==> Weighs(ws, err) || err == w.err
  {
    hide Insert, Ascending;
    InsertKeepsOrder(ws, w);
    if v :| v in ws && v.err == err { assert v in Insert(ws, w); }
    if err == w.err && !Weighs(ws, err) { assert w in Insert(ws, w); }
  }

  lemma {:induction false} WeightsAscend(errors: seq<Weight>, n: nat)
    requires n <= |errors|
    ensures Ascending(WeightsOf(errors, n))
  {
    if n > 0 {
      WeightsAscend(errors, n - 1);
      InsertKeepsOrder(WeightsOf(errors, n - 1), errors[n - 1]);
    }
  }

  /** No error is lost. */
  lemma {:induction false} WeightsWeigh(errors: seq<Weight>, n: nat, i: nat)
    requires i < n <= |errors|
    ensures Weighs(WeightsOf(errors, n), errors[i].err)
    decreases n
  {
    hide Insert, Weighs, Ascending;
    WeightsAscend(errors, n - 1);
    InsertWeighs(WeightsOf(errors, n - 1), errors[n - 1], errors[i].err);
    if i < n - 1 { WeightsWeigh(errors, n - 1, i); }
  }

  /** The first weight given for an error. */
  predicate FirstWeight(errors: seq<Weight>, n: nat, i: nat)
    requires n <= |errors|
  {
    i < n && forall j :: 0 <= j < i ==> errors[j].err != errors[i].err
  }

  /** A weight is among the collected ones if it is the first given for its error. */
  lemma {:induction false} FirstWeightStays(errors: seq<Weight>, n: nat, i: nat)
    requires n <= |errors| && FirstWeight(errors, n, i)
    ensures errors[i] in WeightsOf(errors, n)
    decreases n
  {
    hide Insert, Ascending;
    var ws, w := WeightsOf(errors, n - 1), errors[n - 1];
    WeightsAscend(errors, n - 1);
    InsertKeepsOrder(ws, w);
    if i < n - 1 {
      FirstWeightStays(errors, n - 1, i);
    } else if u :| u in ws && u.err == w.err {
      var j := WeightFrom(errors, n - 1, u);
    }
  }

  /** And only then. */
  lemma {:induction false} WeightFrom(errors: seq<Weight>, n: nat, v: Weight) returns (i: nat)
    requires n <= |errors| && v in WeightsOf(errors, n)
    ensures FirstWeight(errors, n, i) && errors[i] == v
    decreases n
  {
    hide Insert, Ascending;
    var ws, w := WeightsOf(errors, n - 1), errors[n - 1];
    WeightsAscend(errors, n - 1);
    InsertKeepsOrder(ws, w);
    if v in ws {
      i := WeightFrom(errors, n - 1, v);
    } else {
      i := n - 1;
      forall j | 0 <= j < i ensures errors[j].err != w.err { WeightsWeigh(errors, n - 1, j); }
    }
  }

  // ---------- From one end to the other ----------

  /** The nodes that the Go side builds, in order. */
  function NodesOf(outs: seq<GoOutcome>, heap: Heap): seq<CNode>
  {
    seq(|outs|, i requires 0 <= i < |outs| => Node(outs[i], heap, i, if i + 1 < |outs| then i + 1 else NULL))
  }

  predicate ValidOutcome(o: GoOutcome) { ValidProbability(o.fail) && ValidProbability(o.delay) }

  /** The plan that a Go slice becomes: the list is built in the order of the slice and has no
      cycle, so its traversal ends, and nothing else goes wrong than a custom predicate, a
      count of errors below the number of errors, and a probability outside 0 to 1. */
  method StartSession(outs: seq<GoOutcome>, heap: Heap, notStd: seq<nat> -> bool)
    returns (r: Result<map<int, ActiveOutcome>>)
    ensures r.Ok? <==> forall i :: 0 <= i < |outs| ==> Trouble(outs[i]) == None && ValidOutcome(outs[i])
    ensures r.Ok? <==> forall i :: 0 <= i < |outs| ==> Acceptable(outs[i])
    ensures r.Ok? ==> r.value == Activate(OutcomesOf(NodesOf(outs, heap)), notStd)
    ensures r.Err? && r.error != InvalidProbability ==> exists i: nat :: FirstTrouble(outs, i, r.error)
    ensures r.Err? && r.error == InvalidProbability ==> forall i :: 0 <= i < |outs| ==> Trouble(outs[i]) == None
  {
    hide OutcomesOf, Trouble, Acceptable, ValidProbability;
    forall i | 0 <= i < |outs| ensures Acceptable(outs[i]) <==> Trouble(outs[i]) == None && ValidOutcome(outs[i]) {
      AcceptableIs(outs[i]);
    }
    var built := BuildList(outs, heap);
    if built.Err? {
      ghost var i: nat :| FirstTrouble(outs, i, built.error);
      TroubleIsNotProbability(outs[i]);
      return Err(built.error);
    }
    var nodes := built.value;
    ghost var path: seq<int> := seq(|outs|, i => i);
    assert Along(nodes[..], path) == NodesOf(outs, heap);
    var read := ReadList(nodes, if |outs| > 0 then 0 else NULL, path);
    if read.Err? {
      ghost var n :| n in NodesOf(outs, heap) && !ValidNode(n);
      ghost var i :| 0 <= i < |outs| && NodesOf(outs, heap)[i] == n;
      assert !ValidOutcome(outs[i]);
      return Err(read.error);
    }
    forall i | 0 <= i < |outs| ensures ValidOutcome(outs[i]) {
      assert NodesOf(outs, heap)[i] in NodesOf(outs, heap);
    }
    r := Ok(Activate(read.value, notStd));
  }

  /** An outcome that a plan may have: one of the two eligibilities that are supported, no more
      errors than counted unless none is counted, and all probabilities from 0 to 1. */
  predicate Acceptable(o: GoOutcome)
  {
    && (o.eligible == AlwaysEligible || o.eligible == NotStdInOutErr)
    && (o.numErrors == 0 || |o.errors| <= o.numErrors)
    && (forall x :: x in [o.fail.p, o.fail.afterBias, o.delay.p, o.delay.afterBias] ==> 0.0 <= x && x <= 1.0)
  }

  lemma {:induction false} AcceptableIs(o: GoOutcome)
    ensures Acceptable(o) <==> Trouble(o) == None && ValidOutcome(o)
  {
    var xs := [o.fail.p, o.fail.afterBias, o.delay.p, o.delay.afterBias];
    assert xs[0] in xs && xs[1] in xs && xs[2] in xs && xs[3] in xs;
  }

  lemma {:induction false} TroubleIsNotProbability(o: GoOutcome)
    ensures Trouble(o) != Some(InvalidProbability)
  {
  }

  predicate FitsCInt(x: int) { -0x8000_0000 <= x < 0x8000_0000 }

  lemma {:induction false} CIntSame(x: int)
    ensures CInt(x) == x <==> FitsCInt(x)
  {
  }

  /** The weights that reach the error table: in ascending order of errors, and exactly the
      first weight given for each error. */
  ghost predicate FirstWeights(errors: seq<Weight>, ws: seq<Weight>)
  {
    Ascending(ws) && forall v :: v in ws <==> exists x: nat :: FirstWeight(errors, |errors|, x) && errors[x] == v
  }

  lemma {:induction false} WeightsAreFirst(errors: seq<Weight>)
    ensures FirstWeights(errors, WeightsOf(errors, |errors|))
  {
    hide WeightsOf, Ascending;
    var ws := WeightsOf(errors, |errors|);
    WeightsAscend(errors, |errors|);
    forall v | v in ws ensures exists x: nat :: FirstWeight(errors, |errors|, x) && errors[x] == v {
      var x := WeightFrom(errors, |errors|, v);
    }
    forall v, x: nat | FirstWeight(errors, |errors|, x) && errors[x] == v ensures v in ws {
      FirstWeightStays(errors, |errors|, x);
    }
  }

  /** The errors of an outcome arrive as they are if and only if their count is right and their
      numbers fit in an `int`; with a count of 0 they are all lost. */
  lemma {:induction false} ErrorsArrive(o: GoOutcome, heap: Heap, i: nat)
    ensures CErrors(o, heap, i) == o.errors <==>
            o.numErrors == |o.errors| && forall k :: 0 <= k < |o.errors| ==> FitsCInt(o.errors[k].err)
  {
    hide CInt, FitsCInt;
    var es := CErrors(o, heap, i);
    if |es| == |o.errors| {
      forall k | 0 <= k < |o.errors| ensures es[k] == o.errors[k] <==> FitsCInt(o.errors[k].err) {
        CIntSame(o.errors[k].err);
        assert es[k] == Weight(CInt(o.errors[k].err), o.errors[k].w);
      }
    }
  }

  /** What C reads is independent of unwritten memory if and only if the count is not above the
      number of errors. */
  lemma {:induction false} HeapShowsExactly(o: GoOutcome, i: nat)
    ensures (forall h: Heap, h': Heap :: CErrors(o, h, i) == CErrors(o, h', i)) <==> o.numErrors <= |o.errors|
  {
    if o.numErrors > |o.errors| {
      var h: Heap := (_, _) => Weight(0, 0.0);
      var h': Heap := (_, _) => Weight(1, 0.0);
      assert CErrors(o, h, i)[|o.errors|] != CErrors(o, h', i)[|o.errors|];
    }
  }

  /** What arrives, for any slice: each system call gets its first outcome, with its
      probabilities, delay limit and eligibility, and a table of the first weights of its
      errors. */
  lemma {:induction false} PlanArrives(outs: seq<GoOutcome>, heap: Heap, notStd: seq<nat> -> bool, i: nat)
    returns (ws: seq<Weight>)
    requires i < |outs| && forall j :: 0 <= j < i ==> CInt(outs[j].syscall) != CInt(outs[i].syscall)
    ensures var plan, o, k := Activate(OutcomesOf(NodesOf(outs, heap)), notStd), outs[i], CInt(outs[i].syscall);
            && k in plan
            && plan[k].fail == o.fail && plan[k].delay == o.delay && plan[k].maxDelay == o.maxDelay
            && (forall g :: plan[k].eligible(g) <==> (o.eligible == NotStdInOutErr ==> notStd(g)))
            && plan[k].table == Table(ws, |ws|) && FirstWeights(CErrors(o, heap, i), ws)
  {
    hide OutcomesOf, CInt, Table, WeightsOf, FirstWeights, CErrors;
    var ns, o := NodesOf(outs, heap), outs[i];
    FirstNodeStays(ns, CInt(o.syscall), i);
    ws := WeightsOf(CErrors(o, heap, i), |CErrors(o, heap, i)|);
    WeightsAreFirst(CErrors(o, heap, i));
  }

  /** Unwritten memory gets into the plan: whatever weight for a further error lies behind the
      array's written part is in the list from which the table is made. */
  lemma {:induction false} JunkArrives(outs: seq<GoOutcome>, heap: Heap, notStd: seq<nat> -> bool, i: nat)
    returns (ws: seq<Weight>)
    requires i < |outs| && forall j :: 0 <= j < i ==> CInt(outs[j].syscall) != CInt(outs[i].syscall)
    requires outs[i].numErrors > |outs[i].errors|
    requires var w := heap(i, |outs[i].errors|);
             forall k :: 0 <= k < |outs[i].errors| ==> CInt(outs[i].errors[k].err) != w.err
    ensures var plan, k := Activate(OutcomesOf(NodesOf(outs, heap)), notStd), CInt(outs[i].syscall);
            && k in plan && plan[k].table == Table(ws, |ws|)
            && heap(i, |outs[i].errors|) in ws
  {
    hide OutcomesOf, CInt, Table;
    ws := PlanArrives(outs, heap, notStd, i);
    var es, x := CErrors(outs[i], heap, i), |outs[i].errors|;
    assert es[x] == heap(i, x) && FirstWeight(es, |es|, x);
  }

  lemma {:induction false} PlanCoversOnly(outs: seq<GoOutcome>, heap: Heap, notStd: seq<nat> -> bool, k: int)
    ensures k in Activate(OutcomesOf(NodesOf(outs, heap)), notStd) <==>
            exists i :: 0 <= i < |outs| && CInt(outs[i].syscall) == k
  {
    hide OutcomesOf, CInt, Table, WeightsOf, CErrors;
    var ns := NodesOf(outs, heap);
    if k in OutcomesOf(ns) {
      var i := NodeOf(ns, k);
      assert ns[i].syscall == CInt(outs[i].syscall);
    }
    if i :| 0 <= i < |outs| && CInt(outs[i].syscall) == k { FirstOf(ns, k, i); }
  }
}
