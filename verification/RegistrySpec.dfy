/** The registry of failure-injected threads, seen from outside: a plain set of
    thread ids that completed add and remove calls change one at a time. */
module RegistrySpec {
  type Tid = nat

  /** A call of the session API, whether made for the calling thread or by id. */
  datatype Call = Add(tid: Tid) | Remove(tid: Tid)

  function Apply(sel: Tid -> bool, reg: set<Tid>, c: Call): (r: set<Tid>)
  {
    match c
    case Add(t) => if sel(t) then reg + {t} else reg
    case Remove(t) => reg - {t}
  }

  /** The calls in order, the first one first. */
  function ApplyAll(sel: Tid -> bool, reg: set<Tid>, cs: seq<Call>): (r: set<Tid>)
    decreases |cs|
  {
    if cs == [] then reg else ApplyAll(sel, Apply(sel, reg, cs[0]), cs[1..])
  }

  lemma {:induction false} ApplyAllAppend(sel: Tid -> bool, reg: set<Tid>, cs: seq<Call>, ds: seq<Call>)
    ensures ApplyAll(sel, reg, cs + ds) == ApplyAll(sel, ApplyAll(sel, reg, cs), ds)
    decreases |cs|
  {
    if cs == [] {
      assert cs + ds == ds;
    } else {
      assert (cs + ds)[1..] == cs[1..] + ds;
      ApplyAllAppend(sel, Apply(sel, reg, cs[0]), cs[1..], ds);
    }
  }
}
