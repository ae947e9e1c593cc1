/** The table of errors by cumulative weight: how it is built, what a draw picks from it,
    and exactly when it does what the plan's weights say. */
module ErrorTable {
  import opened Options

  datatype Weight = Weight(err: int, w: real)

  /** A plan's weights, in the order in which a `std::map` by error number is traversed. */
  predicate Ascending(ws: seq<Weight>) { forall i, j :: 0 <= i < j < |ws| ==> ws[i].err < ws[j].err }

  /** A `std::map` from cumulative weight to error number, in key order. */
  datatype Row = Row(key: real, err: int)

  predicate Sorted(t: seq<Row>) { forall i, j :: 0 <= i < j < |t| ==> t[i].key < t[j].key }

  /** Insert or overwrite. */
  function Put(t: seq<Row>, key: real, err: int): seq<Row>
  {
    if t == [] || key < t[0].key then [Row(key, err)] + t
    else if key == t[0].key then [Row(key, err)] + t[1..]
    else [t[0]] + Put(t[1..], key, err)
  }

  /** The position of the first key that is not below `p`, or the end. */
  function LowerBound(t: seq<Row>, p: real): (k: nat)
    ensures k <= |t|
  {
    if t == [] || p <= t[0].key then 0 else 1 + LowerBound(t[1..], p)
  }

  function Pick(t: seq<Row>, p: real): Option<int>
  {
    var k := LowerBound(t, p);
    if k < |t| then Some(t[k].err) else None
  }

  /** The sum of the weights up to and including position `i`. */
  function Sum(ws: seq<Weight>, i: nat): real
    requires i < |ws|
  {
    if i == 0 then ws[0].w else Sum(ws, i - 1) + ws[i].w
  }

  function Total(ws: seq<Weight>): real { if ws == [] then 0.0 else Sum(ws, |ws| - 1) }

  /** The table after the first `n` weights. */
  function Table(ws: seq<Weight>, n: nat): seq<Row>
    requires n <= |ws|
  {
    if n == 0 then [] else Put(Table(ws, n - 1), Sum(ws, n - 1), ws[n - 1].err)
  }

  /** The loop of the `ActiveOutcome` constructor. */
  method BuildTable(ws: seq<Weight>) returns (t: seq<Row>)
    ensures t == Table(ws, |ws|)
  {
    var cumulative := 0.0;
    t := [];
    for i := 0 to |ws|
      invariant cumulative == (if i == 0 then 0.0 else Sum(ws, i - 1)) && t == Table(ws, i)
    {
      cumulative := cumulative + ws[i].w;
      t := Put(t, cumulative, ws[i].err);
    }
  }

  /** The reference: scan the weights in order and take the first error whose running sum
      reaches the draw. */
  function Linear(ws: seq<Weight>, p: real, i: nat): Option<int>
    requires i <= |ws|
    decreases |ws| - i
  {
    if i == |ws| then None
    else if p <= Sum(ws, i) then Some(ws[i].err)
    else Linear(ws, p, i + 1)
  }

  // ---------- The table as a sorted map ----------

  lemma {:induction false} SortedFront(head: Row, t: seq<Row>)
    requires Sorted(t) && forall r :: r in t ==> head.key < r.key
    ensures Sorted([head] + t)
  {
    var s := [head] + t;
    forall i, j | 0 <= i < j < |s| ensures s[i].key < s[j].key {
      assert s[j] == t[j - 1] && s[j] in t;
      if i > 0 { assert s[i] == t[i - 1]; }
    }
  }

  lemma {:induction false} SortedTail(t: seq<Row>)
    requires Sorted(t) && t != []
    ensures Sorted(t[1..]) && forall r :: r in t[1..] ==> t[0].key < r.key
  {
    forall i, j | 0 <= i < j < |t[1..]| ensures t[1..][i].key < t[1..][j].key {
      assert t[i + 1].key < t[j + 1].key;
    }
  }

  lemma {:induction false} PutSorts(t: seq<Row>, key: real, err: int)
    requires Sorted(t)
    ensures Sorted(Put(t, key, err))
    ensures forall r :: r in Put(t, key, err) <==> r == Row(key, err) || (r in t && r.key != key)
  {
    hide Sorted;
    if t == [] {
      SortedFront(Row(key, err), t);
    } else {
      SortedTail(t);
      var rest := t[1..];
      assert t == [t[0]] + rest;
      if key < t[0].key {
        SortedFront(Row(key, err), t);
      } else if key == t[0].key {
        SortedFront(Row(key, err), rest);
      } else {
        PutSorts(rest, key, err);
        SortedFront(t[0], Put(rest, key, err));
      }
    }
  }

  /** The rows of the table: for every sum that occurs, the last error that reaches it. */
  lemma {:induction false} TableRows(ws: seq<Weight>, n: nat, j: nat)
    requires j < n <= |ws|
    requires forall i :: j < i < n ==> Sum(ws, i) != Sum(ws, j)
    ensures Sorted(Table(ws, n)) && Row(Sum(ws, j), ws[j].err) in Table(ws, n)
    decreases n
  {
    TableSorted(ws, n - 1);
    PutSorts(Table(ws, n - 1), Sum(ws, n - 1), ws[n - 1].err);
    if j < n - 1 {
      assert Sum(ws, n - 1) != Sum(ws, j);
      TableRows(ws, n - 1, j);
    }
  }

  lemma {:induction false} TableSorted(ws: seq<Weight>, n: nat)
    requires n <= |ws|
    ensures Sorted(Table(ws, n))
  {
    if n > 0 {
      TableSorted(ws, n - 1);
      PutSorts(Table(ws, n - 1), Sum(ws, n - 1), ws[n - 1].err);
    }
  }

  lemma {:induction false} LowerBoundIsFirst(t: seq<Row>, p: real)
    ensures var k := LowerBound(t, p);
            (forall i :: 0 <= i < k ==> t[i].key < p) && (k < |t| ==> p <= t[k].key)
  {
    if t != [] && p > t[0].key { LowerBoundIsFirst(t[1..], p); }
  }

  // ---------- Exactly when the table is the linear scan ----------

  /** All weights after the first are positive. */
  predicate Climbs(ws: seq<Weight>) { forall i :: 1 <= i < |ws| ==> ws[i].w > 0.0 }

  lemma {:induction false} PutLast(t: seq<Row>, key: real, err: int)
    requires forall i :: 0 <= i < |t| ==> t[i].key < key
    ensures Put(t, key, err) == t + [Row(key, err)]
  {
    if t != [] { PutLast(t[1..], key, err); }
  }

  /** With climbing sums the table has one row per weight, in the plan's order. */
  lemma {:induction false} TableOfClimbing(ws: seq<Weight>, n: nat)
    requires Climbs(ws) && n <= |ws|
    ensures |Table(ws, n)| == n
    ensures forall i :: 0 <= i < n ==> Table(ws, n)[i] == Row(Sum(ws, i), ws[i].err)
    ensures forall i :: 0 <= i < n ==> Sum(ws, i) <= Sum(ws, n - 1)
  {
    hide Put;
    if n > 0 {
      TableOfClimbing(ws, n - 1);
      var t := Table(ws, n - 1);
      forall i | 0 <= i < n - 1 ensures t[i].key < Sum(ws, n - 1) {
        assert t[i].key == Sum(ws, i) <= Sum(ws, n - 2);
      }
      PutLast(t, Sum(ws, n - 1), ws[n - 1].err);
    }
  }

  lemma {:induction false} LinearIsFirst(ws: seq<Weight>, p: real, i: nat, k: nat)
    requires i <= k <= |ws|
    requires forall j :: i <= j < k ==> Sum(ws, j) < p
    requires k < |ws| ==> p <= Sum(ws, k)
    ensures Linear(ws, p, i) == if k < |ws| then Some(ws[k].err) else None
    decreases k - i
  {
    if i < k {
      assert Sum(ws, i) < p;
      LinearIsFirst(ws, p, i + 1, k);
    }
  }

  lemma {:induction false} ClimbingPicksLinearly(ws: seq<Weight>, p: real)
    requires Climbs(ws)
    ensures Pick(Table(ws, |ws|), p) == Linear(ws, p, 0)
  {
    TableOfClimbing(ws, |ws|);
    var t := Table(ws, |ws|);
    LowerBoundIsFirst(t, p);
    var k := LowerBound(t, p);
    forall j | 0 <= j < k ensures Sum(ws, j) < p { assert t[j].key < p; }
    if k < |ws| { assert t[k] == Row(Sum(ws, k), ws[k].err); }
    LinearIsFirst(ws, p, 0, k);
  }

  /** Every row of the table belongs to the last error that reaches its sum. */
  lemma {:induction false} RowFrom(ws: seq<Weight>, n: nat, r: Row) returns (j: nat)
    requires n <= |ws| && r in Table(ws, n)
    ensures j < n && r == Row(Sum(ws, j), ws[j].err)
    ensures forall i :: j < i < n ==> Sum(ws, i) != Sum(ws, j)
    decreases n
  {
    hide Put, Sorted;
    TableSorted(ws, n - 1);
    PutSorts(Table(ws, n - 1), Sum(ws, n - 1), ws[n - 1].err);
    if r == Row(Sum(ws, n - 1), ws[n - 1].err) {
      j := n - 1;
    } else {
      j := RowFrom(ws, n - 1, r);
    }
  }

  /** The last error whose sum is that of position `i`. */
  lemma {:induction false} LastAtSum(ws: seq<Weight>, i: nat, n: nat) returns (j: nat)
    requires i < n <= |ws|
    ensures i <= j < n && Sum(ws, j) == Sum(ws, i)
    ensures forall k :: j < k < n ==> Sum(ws, k) != Sum(ws, j)
    decreases n
  {
    if n - 1 == i || Sum(ws, n - 1) == Sum(ws, i) {
      j := n - 1;
    } else {
      j := LastAtSum(ws, i, n - 1);
    }
  }

  /** Some running sum reaches `p`. */
  ghost predicate Reaches(ws: seq<Weight>, p: real) { exists i :: 0 <= i < |ws| && p <= Sum(ws, i) }

  /** Of the sums that reach `p` the one at `k` is the least, and none after `k` equals it. */
  ghost predicate LeastReaching(ws: seq<Weight>, p: real, k: nat)
  {
    && k < |ws| && p <= Sum(ws, k)
    && (forall i :: 0 <= i < |ws| && p <= Sum(ws, i) ==> Sum(ws, k) <= Sum(ws, i))
    && (forall i :: k < i < |ws| ==> Sum(ws, i) != Sum(ws, k))
  }

  lemma {:induction false} SumBelowKey(ws: seq<Weight>, p: real, i: nat)
    requires i < |ws| && p <= Sum(ws, i)
    ensures var t := Table(ws, |ws|); LowerBound(t, p) < |t| && t[LowerBound(t, p)].key <= Sum(ws, i)
  {
    hide Table, LowerBound, Put;
    var t := Table(ws, |ws|);
    LowerBoundIsFirst(t, p);
    var j := LastAtSum(ws, i, |ws|);
    TableRows(ws, |ws|, j);
    var x :| 0 <= x < |t| && t[x] == Row(Sum(ws, j), ws[j].err);
    assert t[x].key >= p;
  }

  /** What a draw picks, for any weights: of the sums that reach it the least, and of the
      errors with that sum the last. */
  lemma {:induction false} PickFrom(ws: seq<Weight>, p: real) returns (k: nat)
    ensures Reaches(ws, p) ==> LeastReaching(ws, p, k) && Pick(Table(ws, |ws|), p) == Some(ws[k].err)
    ensures !Reaches(ws, p) ==> Pick(Table(ws, |ws|), p) == None
  {
    hide Table, LowerBound, Put;
    var t := Table(ws, |ws|);
    var x := LowerBound(t, p);
    LowerBoundIsFirst(t, p);
    forall i | 0 <= i < |ws| && p <= Sum(ws, i) ensures x < |t| && t[x].key <= Sum(ws, i) { SumBelowKey(ws, p, i); }
    k := 0;
    if x < |t| { k := RowFrom(ws, |ws|, t[x]); }
  }

  /** A weight of 0 takes all draws from the error before it. */
  lemma {:induction false} ZeroWeightErases(ws: seq<Weight>, i: nat, p: real)
    requires Ascending(ws) && 1 <= i < |ws| && ws[i].w == 0.0
    ensures Pick(Table(ws, |ws|), p) != Some(ws[i - 1].err)
  {
    hide Pick, Table;
    var k := PickFrom(ws, p);
    assert Sum(ws, i) == Sum(ws, i - 1);
  }

  /** Some draw picks the error at `i`: its sum is not negative and not taken over by a later
      error, and no smaller sum reaches 1. */
  predicate Drawable(ws: seq<Weight>, i: nat)
    requires i < |ws|
  {
    && Sum(ws, i) >= 0.0
    && (forall j :: i < j < |ws| ==> Sum(ws, j) != Sum(ws, i))
    && (forall j :: 0 <= j < |ws| && Sum(ws, j) < Sum(ws, i) ==> Sum(ws, j) < 1.0)
  }

  /** A draw up to the sum at `i` and above those of the first `n` sums that are smaller. */
  lemma {:induction false} DrawUpTo(ws: seq<Weight>, i: nat, n: nat) returns (p: real)
    requires i < |ws| && n <= |ws| && Drawable(ws, i)
    ensures 0.0 <= p < 1.0 && p <= Sum(ws, i)
    ensures forall j :: 0 <= j < n && Sum(ws, j) < Sum(ws, i) ==> Sum(ws, j) < p
  {
    p := 0.0;
    if n > 0 {
      p := DrawUpTo(ws, i, n - 1);
      var low, high := Sum(ws, n - 1), Sum(ws, i);
      if p <= low < high { p := (low + if high < 1.0 then high else 1.0) / 2.0; }
    }
  }

  /** Which errors can be injected at all. */
  lemma {:induction false} PickedExactly(ws: seq<Weight>, err: int)
    ensures (exists p :: 0.0 <= p < 1.0 && Pick(Table(ws, |ws|), p) == Some(err)) <==>
            (exists i :: 0 <= i < |ws| && ws[i].err == err && Drawable(ws, i))
  {
    hide Pick, Table;
    if p :| 0.0 <= p < 1.0 && Pick(Table(ws, |ws|), p) == Some(err) {
      var k := PickFrom(ws, p);
      assert Drawable(ws, k);
    }
    if i :| 0 <= i < |ws| && ws[i].err == err && Drawable(ws, i) {
      var p := DrawUpTo(ws, i, |ws|);
      var k := PickFrom(ws, p);
      assert k == i;
    }
  }

  /** What the linear scan finds: the first sum that reaches the draw. */
  lemma {:induction false} LinearFrom(ws: seq<Weight>, p: real, i: nat) returns (k: nat)
    requires i <= |ws|
    ensures i <= k <= |ws| && Linear(ws, p, i) == (if k < |ws| then Some(ws[k].err) else None)
    ensures (forall j :: i <= j < k ==> Sum(ws, j) < p) && (k < |ws| ==> p <= Sum(ws, k))
    decreases |ws| - i
  {
    if i == |ws| || p <= Sum(ws, i) { k := i; } else { k := LinearFrom(ws, p, i + 1); }
  }

  /** The first sum of at least 1. */
  predicate FirstFull(ws: seq<Weight>, f: nat)
  {
    f < |ws| && Sum(ws, f) >= 1.0 && forall j :: 0 <= j < f ==> Sum(ws, j) < 1.0
  }

  /** A sum that takes no draw from an earlier error: it is negative, or above all earlier
      sums, or above the first sum of at least 1. */
  ghost predicate InPlace(ws: seq<Weight>, i: nat)
    requires i < |ws|
  {
    || Sum(ws, i) < 0.0
    || (forall j :: 0 <= j < i ==> Sum(ws, j) < Sum(ws, i))
    || (exists f :: 0 <= f < i && FirstFull(ws, f) && Sum(ws, f) < Sum(ws, i))
  }

  lemma {:induction false} InPlacePicksLinearly(ws: seq<Weight>, p: real)
    requires 0.0 <= p < 1.0 && forall i :: 0 <= i < |ws| ==> InPlace(ws, i)
    ensures Pick(Table(ws, |ws|), p) == Linear(ws, p, 0)
  {
    hide Pick, Table;
    var first := LinearFrom(ws, p, 0);
    var k := PickFrom(ws, p);
    if first < |ws| {
      assert InPlace(ws, k) && first <= k && Sum(ws, k) <= Sum(ws, first);
    }
  }

  /** A draw above all of the first `n` sums. */
  lemma {:induction false} DrawBeyond(ws: seq<Weight>, n: nat) returns (p: real)
    requires n <= |ws| && forall j :: 0 <= j < n ==> Sum(ws, j) < 1.0
    ensures 0.0 <= p < 1.0 && forall j :: 0 <= j < n ==> Sum(ws, j) < p
  {
    p := 0.0;
    if n > 0 {
      p := DrawBeyond(ws, n - 1);
      if p <= Sum(ws, n - 1) { p := (Sum(ws, n - 1) + 1.0) / 2.0; }
    }
  }

  lemma {:induction false} FindFull(ws: seq<Weight>, j: nat) returns (f: nat)
    requires j < |ws| && Sum(ws, j) >= 1.0
    ensures f <= j && FirstFull(ws, f)
  {
    f := j;
    if i :| 0 <= i < j && Sum(ws, i) >= 1.0 { f := FindFull(ws, i); }
  }

  /** A sum out of place takes a draw of the code's range away from an earlier error. */
  lemma {:induction false} MisplacedDraw(ws: seq<Weight>, i: nat) returns (p: real)
    requires Ascending(ws) && i < |ws| && !InPlace(ws, i)
    ensures 0.0 <= p < 1.0 && Pick(Table(ws, |ws|), p) != Linear(ws, p, 0)
  {
    hide Pick, Table, Linear;
    var j :| 0 <= j < i && Sum(ws, j) >= Sum(ws, i);
    if Sum(ws, i) < 1.0 {
      p := Sum(ws, i);
    } else {
      var f := FindFull(ws, j);
      p := DrawBeyond(ws, f);
      assert Sum(ws, i) <= Sum(ws, f);
    }
    var first := LinearFrom(ws, p, 0);
    var k := PickFrom(ws, p);
    assert p <= Sum(ws, i);
    assert first < i && Sum(ws, i) <= Sum(ws, first);
    assert k != first;
  }

  /** Table and linear scan agree on every draw that the code takes if and only if every sum
      is in place. */
  lemma {:induction false} TableIsLinearExactly(ws: seq<Weight>)
    requires Ascending(ws)
    ensures (forall p :: 0.0 <= p < 1.0 ==> Pick(Table(ws, |ws|), p) == Linear(ws, p, 0)) <==>
            forall i :: 0 <= i < |ws| ==> InPlace(ws, i)
  {
    hide Pick, Table, Linear, InPlace, Ascending;
    if forall i :: 0 <= i < |ws| ==> InPlace(ws, i) {
      forall p | 0.0 <= p < 1.0 ensures Pick(Table(ws, |ws|), p) == Linear(ws, p, 0) { InPlacePicksLinearly(ws, p); }
    } else {
      var i :| 0 <= i < |ws| && !InPlace(ws, i);
      var p := MisplacedDraw(ws, i);
    }
  }

  // ---------- The share of each error ----------

  predicate Positive(ws: seq<Weight>) { forall i :: 0 <= i < |ws| ==> ws[i].w > 0.0 }

  /** The draws that pick the error at position `i` are the interval from the previous sum to
      its own: consecutive intervals, as long as the weights, without gap or overlap. */
  lemma {:induction false} PickInterval(ws: seq<Weight>, p: real, i: nat)
    requires Ascending(ws) && Climbs(ws) && i < |ws|
    ensures Pick(Table(ws, |ws|), p) == Some(ws[i].err) <==> (i == 0 || Sum(ws, i - 1) < p) && p <= Sum(ws, i)
    ensures i > 0 ==> Sum(ws, i) - Sum(ws, i - 1) == ws[i].w
    ensures i == 0 ==> Sum(ws, i) == ws[0].w
  {
    hide Table, LowerBound, Climbs;
    TableOfClimbing(ws, |ws|);
    var t := Table(ws, |ws|);
    LowerBoundIsFirst(t, p);
    var k := LowerBound(t, p);
    TableSorted(ws, |ws|);
    if k < |ws| { assert t[k] == Row(Sum(ws, k), ws[k].err); }
    assert t[i] == Row(Sum(ws, i), ws[i].err);
    if i > 0 { assert t[i - 1] == Row(Sum(ws, i - 1), ws[i - 1].err); }
  }

  /** The error that a draw falls to when the weights are laid end to end from 0: it goes on to
      the next one with what is left of the draw. No sums are taken. */
  function Walk(ws: seq<Weight>, p: real): Option<int>
  {
    if ws == [] then None else if p <= ws[0].w then Some(ws[0].err) else Walk(ws[1..], p - ws[0].w)
  }

  lemma {:induction false} TailSum(ws: seq<Weight>, i: nat)
    requires 0 < i < |ws|
    ensures Sum(ws, i) == ws[0].w + Sum(ws[1..], i - 1)
  {
    if i > 1 { TailSum(ws, i - 1); }
  }

  lemma {:induction false} TailLinear(ws: seq<Weight>, p: real, i: nat)
    requires 0 < i <= |ws|
    ensures Linear(ws, p, i) == Linear(ws[1..], p - ws[0].w, i - 1)
    decreases |ws| - i
  {
    if i < |ws| {
      TailSum(ws, i);
      TailLinear(ws, p, i + 1);
    }
  }

  /** For any weights and any draw, the linear scan of running sums is that walk. */
  lemma {:induction false} LinearIsWalk(ws: seq<Weight>, p: real)
    ensures Linear(ws, p, 0) == Walk(ws, p)
    decreases |ws|
  {
    if ws != [] {
      TailLinear(ws, p, 1);
      LinearIsWalk(ws[1..], p - ws[0].w);
    }
  }

  /** `cut` divides the range from 0 to 1 into pieces as long as the weights. */
  ghost predicate Cuts(ws: seq<Weight>, cut: seq<real>)
  {
    && |cut| == |ws| + 1 && cut[0] == 0.0 && cut[|ws|] == 1.0
    && forall i :: 0 <= i < |ws| ==> cut[i + 1] == cut[i] + ws[i].w
  }

  /** Positive weights that add up to 1 share out the draws: each error is picked by exactly the
      draws in a piece as long as its weight, and the pieces make up the whole range. */
  lemma {:induction false} SharesAreWeights(ws: seq<Weight>) returns (cut: seq<real>)
    requires Ascending(ws) && Positive(ws) && Total(ws) == 1.0
    ensures Cuts(ws, cut)
    ensures forall i, p | 0 <= i < |ws| && 0.0 <= p < 1.0 ::
              Pick(Table(ws, |ws|), p) == Some(ws[i].err) <==> (cut[i] < p || (i == 0 && p == 0.0)) && p <= cut[i + 1]
  {
    hide Pick, Table;
    cut := seq(|ws| + 1, j requires 0 <= j <= |ws| => if j == 0 then 0.0 else Sum(ws, j - 1));
    forall i | 0 <= i < |ws| ensures cut[i + 1] == cut[i] + ws[i].w {}
    forall i, p | 0 <= i < |ws| && 0.0 <= p < 1.0
      ensures Pick(Table(ws, |ws|), p) == Some(ws[i].err) <==> (cut[i] < p || (i == 0 && p == 0.0)) && p <= cut[i + 1]
    {
      PickInterval(ws, p, i);
    }
  }

  /** With positive weights the total is the largest sum. */
  lemma {:induction false} TotalDecides(ws: seq<Weight>, p: real)
    requires Climbs(ws)
    ensures Reaches(ws, p) <==> ws != [] && p <= Total(ws)
  {
    TableOfClimbing(ws, |ws|);
  }

  /** Every draw picks an error if and only if some sum is at least 1; for weights that climb
      this is the total. */
  lemma {:induction false} AlwaysPicksExactly(ws: seq<Weight>)
    ensures (forall p :: 0.0 <= p < 1.0 ==> Pick(Table(ws, |ws|), p).Some?) <==> Reaches(ws, 1.0)
    ensures Climbs(ws) ==> (Reaches(ws, 1.0) <==> Total(ws) >= 1.0)
  {
    hide Pick, Table, Climbs;
    if Reaches(ws, 1.0) {
      forall p | 0.0 <= p < 1.0 ensures Pick(Table(ws, |ws|), p).Some? { var k := PickFrom(ws, p); }
    } else {
      var p := DrawBeyond(ws, |ws|);
      var k := PickFrom(ws, p);
    }
    if Climbs(ws) { TotalDecides(ws, 1.0); }
  }

  /** What relative weights would mean: the draw is scaled to the total of the weights. */
  function Relative(ws: seq<Weight>, p: real): Option<int> { Linear(ws, p * Total(ws), 0) }

  lemma {:induction false} SumClimbs(ws: seq<Weight>, i: nat, j: nat)
    requires Positive(ws) && i < j < |ws|
    ensures 0.0 < Sum(ws, i) < Sum(ws, j)
    decreases j
  {
    if i > 0 { SumClimbs(ws, i - 1, i); }
    if i < j - 1 { SumClimbs(ws, i, j - 1); }
  }

  /** A draw above the total of the weights, and what scaling makes of it. */
  lemma {:induction false} DrawAbove(total: real) returns (p: real, q: real)
    requires 0.0 < total < 1.0
    ensures total < p < 1.0 && q == p * total && q <= total
  {
    p := (total + 1.0) / 2.0;
    q := p * total;
  }

  lemma {:induction false} Quotient(q: real, total: real) returns (p: real)
    requires 0.0 < q < total
    ensures 0.0 < p < 1.0 && p * total == q
  {
    p := q / total;
    assert p * total == q;
    assert (1.0 - p) * total == total - q;
    if p >= 1.0 { NonPositive(1.0 - p, total); }
  }

  lemma {:induction false} NonPositive(x: real, y: real)
    requires x <= 0.0 && y > 0.0
    ensures x * y <= 0.0
  {
  }

  /** A draw below the first weight that scaling lifts above it. */
  lemma {:induction false} DrawBelow(w: real, total: real) returns (p: real, q: real)
    requires 0.0 < w < total && total > 1.0
    ensures 0.0 <= p <= w && p < 1.0 && q == p * total && q > w
  {
    if w < 1.0 {
      p, q := w, w * total;
      assert w * (total - 1.0) > 0.0;
    } else {
      q := (w + total) / 2.0;
      p := Quotient(q, total);
    }
  }

  lemma {:induction false} LowTotalDiffers(ws: seq<Weight>, p: real, q: real)
    requires Positive(ws) && ws != [] && Total(ws) < p && q <= Total(ws)
    ensures Pick(Table(ws, |ws|), p) != Linear(ws, q, 0)
  {
    TotalDecides(ws, p);
    var k := PickFrom(ws, p);
    var first := LinearFrom(ws, q, 0);
    assert Sum(ws, |ws| - 1) >= q;
  }

  lemma {:induction false} HighTotalDiffers(ws: seq<Weight>, p: real, q: real)
    requires Ascending(ws) && Positive(ws) && |ws| > 1 && p <= Sum(ws, 0) < q
    ensures Pick(Table(ws, |ws|), p) != Linear(ws, q, 0)
  {
    PickInterval(ws, p, 0);
    var first := LinearFrom(ws, q, 0);
  }

  /** A draw on which absolute and relative weights differ when the total is not 1. */
  lemma {:induction false} NotRelative(ws: seq<Weight>) returns (p: real)
    requires Ascending(ws) && Positive(ws) && ws != [] && Total(ws) != 1.0 && (|ws| == 1 ==> Total(ws) < 1.0)
    ensures 0.0 <= p < 1.0 && Pick(Table(ws, |ws|), p) != Relative(ws, p)
  {
    hide Pick, Table, Linear, Relative;
    var q;
    if |ws| > 1 { SumClimbs(ws, 0, |ws| - 1); }
    if Total(ws) < 1.0 {
      p, q := DrawAbove(Total(ws));
      LowTotalDiffers(ws, p, q);
    } else {
      p, q := DrawBelow(Sum(ws, 0), Total(ws));
      HighTotalDiffers(ws, p, q);
    }
    RelativeScales(ws, p, q);
  }

  lemma {:induction false} RelativeScales(ws: seq<Weight>, p: real, q: real)
    requires q == p * Total(ws)
    ensures Relative(ws, p) == Linear(ws, q, 0)
  {
    hide Total, Linear;
  }

  /** The weights act as relative weights, as the API documents them, if and only if they add
      up to 1, or there is a single one of at least 1, or none. */
  lemma {:induction false} RelativeExactly(ws: seq<Weight>)
    requires Ascending(ws) && Positive(ws)
    ensures (forall p :: 0.0 <= p < 1.0 ==> Pick(Table(ws, |ws|), p) == Relative(ws, p)) <==>
            ws == [] || Total(ws) == 1.0 || (|ws| == 1 && Total(ws) >= 1.0)
  {
    if ws == [] || Total(ws) == 1.0 || (|ws| == 1 && Total(ws) >= 1.0) {
      forall p | 0.0 <= p < 1.0 ensures Pick(Table(ws, |ws|), p) == Relative(ws, p) {
        ClimbingPicksLinearly(ws, p);
        if Total(ws) == 1.0 {
          assert p * Total(ws) == p;
        } else if |ws| == 1 {
          assert p * Total(ws) <= Total(ws);
        }
      }
    } else {
      var p := NotRelative(ws);
    }
  }
}
