/** The part of an x86-64 processor that `sysfail_restore` uses, and that routine's
    instruction list. Memory is a wrapping array of 2^64 bytes, words are little-endian. */
module Machine {
  const WORD: nat := 0x1_0000_0000_0000_0000

  type Byte = b: nat | b < 256

  type Memory = nat -> Byte

  datatype Reg =
    | R8 | R9 | R10 | R11 | R12 | R13 | R14 | R15
    | RDI | RSI | RBP | RBX | RDX | RAX | RCX | RSP

  /** The place of a register in the saved context (`REG_R8` is 0 and so on). */
  function Slot(r: Reg): (s: nat)
    ensures s < 16
  {
    match r
    case R8 => 0 case R9 => 1 case R10 => 2 case R11 => 3 case R12 => 4 case R13 => 5 case R14 => 6 case R15 => 7
    case RDI => 8 case RSI => 9 case RBP => 10 case RBX => 11 case RDX => 12 case RAX => 13 case RCX => 14
    case RSP => 15
  }

  const SLOT_RIP := 16
  const SLOT_EFL := 17

  function Wrap(x: int): nat { x % WORD }

  // ---------- Words in memory ----------

  function Pow256(n: nat): nat { if n == 0 then 1 else 256 * Pow256(n - 1) }

  /** The byte at `i` places after address `a`. */
  function At(mem: Memory, a: int, i: nat): Byte { mem(Wrap(a + i)) }

  /** Bytes `i` to 7 of the word at `a`, least significant first. */
  function LoadFrom(mem: Memory, a: int, i: nat): nat
    requires i <= 8
    decreases 8 - i
  {
    if i == 8 then 0 else At(mem, a, i) + 256 * LoadFrom(mem, a, i + 1)
  }

  function Load(mem: Memory, a: int): nat { LoadFrom(mem, a, 0) }

  /** What is left of `v` above its `i` lowest bytes. */
  function Rest(v: nat, i: nat): nat { if i == 0 then v else Rest(v, i - 1) / 256 }

  function ByteOf(v: nat, i: nat): Byte { Rest(v, i) % 256 }

  /** How far `x` lies behind `a`, going up and around. */
  function Offset(x: int, a: int): nat { Wrap(x - a) }

  function Store(mem: Memory, a: int, v: nat): Memory
  {
    (x: nat) => if Offset(x, a) < 8 then ByteOf(v, Offset(x, a)) else mem(x)
  }

  lemma {:induction false} LoadBound(mem: Memory, a: int, i: nat)
    requires i <= 8
    ensures LoadFrom(mem, a, i) < Pow256(8 - i)
    decreases 8 - i
  {
    if i < 8 { LoadBound(mem, a, i + 1); }
  }

  lemma {:induction false} LoadIsWord(mem: Memory, a: int)
    ensures Load(mem, a) < WORD
  {
    LoadBound(mem, a, 0);
    assert Pow256(8) == 256 * 256 * 256 * 256 * Pow256(4);
  }

  /** Words are little-endian: the byte at the lowest address is the least significant one. */
  lemma {:induction false} LittleEndian(mem: Memory, a: int, v: nat)
    requires v < WORD
    ensures Load(mem, a) % 256 == mem(Wrap(a)) && Store(mem, a, v)(Wrap(a)) == v % 256
  {
    OffsetHere(a, 0);
    assert Load(mem, a) == At(mem, a, 0) + 256 * LoadFrom(mem, a, 1);
  }

  lemma {:induction false} LoadSame(mem: Memory, mem': Memory, a: int, i: nat)
    requires i <= 8 && forall k :: i <= k < 8 ==> At(mem', a, k) == At(mem, a, k)
    ensures LoadFrom(mem', a, i) == LoadFrom(mem, a, i)
    decreases 8 - i
  {
    if i < 8 { LoadSame(mem, mem', a, i + 1); }
  }

  /** The byte at `i` places after `a` is not among the `k` bytes from `b`. */
  predicate Misses(a: int, i: nat, b: int, k: nat) { Offset(Wrap(a + i), b) >= k }

  /** None of the 8 bytes from `a` is among the `k` bytes from `b`. */
  ghost predicate Apart(a: int, b: int, k: nat) { forall i :: 0 <= i < 8 ==> Misses(a, i, b, k) }

  /** A store does not reach a word that lies apart from it. */
  lemma {:induction false} LoadElsewhere(mem: Memory, a: int, v: nat, b: int)
    requires Apart(b, a, 8)
    ensures Load(Store(mem, a, v), b) == Load(mem, b)
  {
    forall i | 0 <= i < 8 ensures At(Store(mem, a, v), b, i) == At(mem, b, i) { assert Misses(b, i, a, 8); }
    LoadSame(mem, Store(mem, a, v), b, 0);
  }

  lemma {:induction false} RestBound(v: nat, i: nat)
    requires v < WORD && i <= 8
    ensures Rest(v, i) < Pow256(8 - i)
  {
    if i == 0 {
      assert Pow256(8) == 256 * 256 * 256 * 256 * Pow256(4);
    } else {
      RestBound(v, i - 1);
      assert Pow256(8 - (i - 1)) == 256 * Pow256(8 - i);
    }
  }

  lemma {:induction false} BytesMakeWord(mem: Memory, a: int, v: nat, i: nat)
    requires v < WORD && i <= 8 && forall k :: i <= k < 8 ==> At(mem, a, k) == ByteOf(v, k)
    ensures LoadFrom(mem, a, i) == Rest(v, i)
    decreases 8 - i
  {
    if i < 8 { BytesMakeWord(mem, a, v, i + 1); } else { RestBound(v, 8); }
  }

  lemma {:induction false} OffsetHere(a: int, i: nat)
    requires i < WORD
    ensures Offset(Wrap(a + i), a) == i
  {
    var q := (a + i) / WORD;
    assert Wrap(a + i) - a == i - WORD * q;
    assert (i - WORD * q) % WORD == i;
  }

  /** A word read back from where it was stored is the word. */
  lemma {:induction false} LoadStored(mem: Memory, a: int, v: nat)
    requires v < WORD
    ensures Load(Store(mem, a, v), a) == v
  {
    forall i | 0 <= i < 8 ensures At(Store(mem, a, v), a, i) == ByteOf(v, i) { OffsetHere(a, i); }
    BytesMakeWord(Store(mem, a, v), a, v, 0);
  }

  // ---------- Instructions ----------

  datatype Cpu = Cpu(regs: Reg -> nat, rip: nat, flags: nat, mem: Memory)

  /** `movq off(%rdi), dst`, `pushq src`, `popfq` and `ret`. */
  datatype Instr = MovFromRdi(off: nat, dst: Reg) | Push(src: Reg) | PopFlags | Ret

  function Set(regs: Reg -> nat, r: Reg, v: nat): Reg -> nat { (q: Reg) => if q == r then v else regs(q) }

  function Step(i: Instr, m: Cpu): Cpu
  {
    match i
    case MovFromRdi(off, dst) => m.(regs := Set(m.regs, dst, Load(m.mem, m.regs(RDI) + off)))
    case Push(src) =>
      var sp := Wrap(m.regs(RSP) - 8);
      m.(mem := Store(m.mem, sp, m.regs(src)), regs := Set(m.regs, RSP, sp))
    case PopFlags => m.(flags := Load(m.mem, m.regs(RSP)), regs := Set(m.regs, RSP, Wrap(m.regs(RSP) + 8)))
    case Ret => m.(rip := Load(m.mem, m.regs(RSP)), regs := Set(m.regs, RSP, Wrap(m.regs(RSP) + 8)))
  }

  function Run(prog: seq<Instr>, m: Cpu): Cpu
  {
    if prog == [] then m else Step(prog[|prog| - 1], Run(prog[..|prog| - 1], m))
  }

  /** The registers that the routine loads before it touches the stack. */
  const LOADS: seq<Reg> := [R8, R9, R10, R11, R12, R13, R14, R15, RSI, RBP, RBX, RDX, RCX, RSP]

  function LoadAll(rs: seq<Reg>): seq<Instr>
  {
    seq(|rs|, i requires 0 <= i < |rs| => MovFromRdi(8 * Slot(rs[i]), rs[i]))
  }

  const TAIL: seq<Instr> :=
    [MovFromRdi(128, RAX), Push(RAX), MovFromRdi(136, RAX), Push(RAX),
     MovFromRdi(104, RAX), MovFromRdi(64, RDI), PopFlags, Ret]

  const SYSFAIL_RESTORE: seq<Instr> := LoadAll(LOADS) + TAIL

  /** The routine as it is written: every load with its offset. */
  lemma {:induction false} RestoreListing()
    ensures SYSFAIL_RESTORE ==
            [MovFromRdi(0, R8), MovFromRdi(8, R9), MovFromRdi(16, R10), MovFromRdi(24, R11),
             MovFromRdi(32, R12), MovFromRdi(40, R13), MovFromRdi(48, R14), MovFromRdi(56, R15),
             MovFromRdi(72, RSI), MovFromRdi(80, RBP), MovFromRdi(88, RBX), MovFromRdi(96, RDX),
             MovFromRdi(112, RCX), MovFromRdi(120, RSP),
             MovFromRdi(128, RAX), Push(RAX), MovFromRdi(136, RAX), Push(RAX),
             MovFromRdi(104, RAX), MovFromRdi(64, RDI), PopFlags, Ret]
  {
  }

  /** A processor that executes a straight-line program instruction by instruction. */
  class Processor {
    var state: Cpu

    constructor (m: Cpu)
      ensures state == m
    {
      state := m;
    }

    method Execute(prog: seq<Instr>)
      modifies this
      ensures state == Run(prog, old(state))
    {
      for i := 0 to |prog|
        invariant state == Run(prog[..i], old(state))
      {
        assert prog[..i + 1][..i] == prog[..i];
        state := Step(prog[i], state);
      }
      assert prog[..|prog|] == prog;
    }
  }

  lemma {:induction false} RunAppend(p: seq<Instr>, q: seq<Instr>, m: Cpu)
    ensures Run(p + q, m) == Run(q, Run(p, m))
    decreases |q|
  {
    if q == [] {
      assert p + q == p;
    } else {
      assert (p + q)[..|p + q| - 1] == p + q[..|q| - 1];
      RunAppend(p, q[..|q| - 1], m);
    }
  }

  /** Loads off a base register that they do not change. */
  lemma {:induction false} RunLoads(rs: seq<Reg>, m: Cpu)
    requires RDI !in rs
    ensures var r := Run(LoadAll(rs), m);
            && r.mem == m.mem && r.rip == m.rip && r.flags == m.flags
            && forall q :: r.regs(q) == if q in rs then Load(m.mem, m.regs(RDI) + 8 * Slot(q)) else m.regs(q)
  {
    hide Load, Slot;
    if rs != [] {
      var before := rs[..|rs| - 1];
      assert LoadAll(rs)[..|rs| - 1] == LoadAll(before);
      assert forall q :: q in rs <==> q in before || q == rs[|rs| - 1];
      RunLoads(before, m);
    }
  }

  // ---------- The routine ----------

  /** The saved value of a register in the context at `base`. */
  function Saved(mem: Memory, base: int, slot: nat): nat { Load(mem, base + 8 * slot) }

  /** Memory after the routine: the return address and the flags lie below the saved stack
      pointer. */
  function AfterRestore(mem: Memory, base: int): Memory
  {
    var sp: int := Saved(mem, base, Slot(RSP));
    Store(Store(mem, Wrap(sp - 8), Saved(mem, base, SLOT_RIP)), Wrap(sp - 16), Saved(mem, base, SLOT_EFL))
  }

  /** What is read from the context after the first and after the second push does not lie
      where they write. */
  ghost predicate ContextClear(mem: Memory, base: int)
  {
    var sp: int := Saved(mem, base, Slot(RSP));
    && Apart(base + 136, Wrap(sp - 8), 8)
    && Apart(base + 104, Wrap(sp - 8), 8) && Apart(base + 104, Wrap(sp - 16), 8)
    && Apart(base + 64, Wrap(sp - 8), 8) && Apart(base + 64, Wrap(sp - 16), 8)
  }

  lemma {:induction false} WrapTwice(x: int, y: int)
    ensures Wrap(Wrap(x) + y) == Wrap(x + y)
  {
    var q := x / WORD;
    assert Wrap(x) + y == x + y - WORD * q;
  }

  lemma {:induction false} StackAddresses(sp: nat)
    requires sp < WORD
    ensures Wrap(Wrap(sp as int - 8) as int - 8) == Wrap(sp as int - 16)
    ensures Wrap(Wrap(sp as int - 16) + 8) == Wrap(sp as int - 8) && Wrap(Wrap(sp as int - 8) + 8) == sp
    ensures Apart(Wrap(sp as int - 8), Wrap(sp as int - 16), 8)
  {
    hide Offset;
    var hi, lo := Wrap(sp as int - 8), Wrap(sp as int - 16);
    assert Wrap(sp) == sp;
    hide Wrap;
    WrapTwice(sp as int - 8, -8);
    WrapTwice(sp as int - 8, 8);
    WrapTwice(sp as int - 16, 8);
    forall i | 0 <= i < 8 ensures Misses(hi, i, lo, 8) {
      OffsetHere(lo, 8 + i);
      WrapTwice(sp as int - 8, i);
      WrapTwice(sp as int - 16, 8 + i);
    }
  }

  /** Of the two words pushed below `sp`, each is read back where it was written. */
  lemma {:induction false} PushesStay(mem: Memory, sp: nat, v: nat, w: nat)
    requires v < WORD && w < WORD && sp < WORD
    ensures var hi, lo := Wrap(sp as int - 8), Wrap(sp as int - 16);
            var mem' := Store(Store(mem, hi, v), lo, w);
            Load(mem', lo) == w && Load(mem', hi) == v
  {
    hide Load, Store, Wrap, Apart;
    var hi, lo := Wrap(sp as int - 8), Wrap(sp as int - 16);
    LoadStored(Store(mem, hi, v), lo, w);
    LoadStored(mem, hi, v);
    StackAddresses(sp);
    LoadElsewhere(Store(mem, hi, v), lo, w, hi);
  }

  /** The instructions after the loads: with `sp` already in place they leave RAX, RDI, the
      flags and the program counter as saved and `sp` where it was. */
  lemma {:induction false} RunTail(m: Cpu, base: nat)
    requires m.regs(RDI) == base && m.regs(RSP) == Saved(m.mem, base, Slot(RSP)) && ContextClear(m.mem, base)
    ensures var r := Run(TAIL, m);
            && r.rip == Saved(m.mem, base, SLOT_RIP) && r.flags == Saved(m.mem, base, SLOT_EFL)
            && r.mem == AfterRestore(m.mem, base)
            && forall q :: r.regs(q) == if q == RAX || q == RDI then Saved(m.mem, base, Slot(q)) else m.regs(q)
  {
    hide Load, Store, Wrap, Apart, Run;
    var sp: nat := m.regs(RSP);
    var hi, lo := Wrap(sp as int - 8), Wrap(sp as int - 16);
    var rip, efl := Load(m.mem, base + 128), Load(m.mem, base + 136);
    LoadIsWord(m.mem, base + 128);
    LoadIsWord(m.mem, base + 136);
    LoadIsWord(m.mem, base + 120);
    LoadElsewhere(m.mem, hi, rip, base + 136);
    LoadElsewhere(m.mem, hi, rip, base + 104);
    LoadElsewhere(Store(m.mem, hi, rip), lo, efl, base + 104);
    LoadElsewhere(m.mem, hi, rip, base + 64);
    LoadElsewhere(Store(m.mem, hi, rip), lo, efl, base + 64);
    StackAddresses(sp);
    PushesStay(m.mem, sp, rip, efl);
    RunSplit(m);
  }

  /** The tail, instruction by instruction. */
  lemma {:induction false} RunSplit(m: Cpu)
    ensures Run(TAIL, m) ==
            Step(Ret, Step(PopFlags, Step(MovFromRdi(64, RDI), Step(MovFromRdi(104, RAX),
            Step(Push(RAX), Step(MovFromRdi(136, RAX), Step(Push(RAX), Step(MovFromRdi(128, RAX), m))))))))
  {
    hide Step;
    assert TAIL[..7][..6][..5][..4][..3][..2][..1][..0] == [];
    assert TAIL[..7][..6] == TAIL[..6] && TAIL[..6][..5] == TAIL[..5] && TAIL[..5][..4] == TAIL[..4];
    assert TAIL[..4][..3] == TAIL[..3] && TAIL[..3][..2] == TAIL[..2] && TAIL[..2][..1] == TAIL[..1];
    assert Run(TAIL[..1], m) == Step(TAIL[0], m);
    assert Run(TAIL[..2], m) == Step(TAIL[1], Run(TAIL[..1], m));
    assert Run(TAIL[..3], m) == Step(TAIL[2], Run(TAIL[..2], m));
    assert Run(TAIL[..4], m) == Step(TAIL[3], Run(TAIL[..3], m));
    assert Run(TAIL[..5], m) == Step(TAIL[4], Run(TAIL[..4], m));
    assert Run(TAIL[..6], m) == Step(TAIL[5], Run(TAIL[..5], m));
    assert Run(TAIL[..7], m) == Step(TAIL[6], Run(TAIL[..6], m));
  }

  /** `sysfail_restore`, from any state of the processor: all 16 registers, the flags and the
      program counter come from the context at RDI, and of memory only the 16 bytes below
      the saved stack pointer are written. */
  lemma {:induction false} RestoreLoadsContext(m: Cpu)
    requires ContextClear(m.mem, m.regs(RDI))
    ensures var base, r := m.regs(RDI), Run(SYSFAIL_RESTORE, m);
            && (forall q :: r.regs(q) == Saved(m.mem, base, Slot(q)))
            && r.rip == Saved(m.mem, base, SLOT_RIP) && r.flags == Saved(m.mem, base, SLOT_EFL)
            && r.mem == AfterRestore(m.mem, base)
  {
    hide Load, Run, Store, ContextClear;
    var base := m.regs(RDI);
    RunAppend(LoadAll(LOADS), TAIL, m);
    RunLoads(LOADS, m);
    var mid := Run(LoadAll(LOADS), m);
    assert mid.regs(RDI) == base && mid.regs(RSP) == Saved(m.mem, base, 15);
    RunTail(mid, base);
  }

  lemma {:induction false} OffsetWrap(x: int, a: int)
    ensures Offset(x, Wrap(a)) == Offset(x, a)
  {
    var q := a / WORD;
    assert x - Wrap(a) == x - a + WORD * q;
    assert (x - a + WORD * q) % WORD == (x - a) % WORD;
  }

  /** An address outside the 16 bytes below `sp` is outside each of the two words there. */
  lemma {:induction false} OutsideBoth(x: int, sp: int)
    requires Offset(x, sp - 16) >= 16
    ensures Offset(x, Wrap(sp - 8)) >= 8 && Offset(x, Wrap(sp - 16)) >= 8
  {
    OffsetWrap(x, sp - 8);
    OffsetWrap(x, sp - 16);
    var d, q := Offset(x, sp - 16), (x - (sp - 16)) / WORD;
    assert x - (sp - 8) == d - 8 + WORD * q;
    assert (d - 8 + WORD * q) % WORD == d - 8;
  }

  /** The bytes outside the 16 below the saved stack pointer are untouched. */
  lemma {:induction false} RestoreFrame(mem: Memory, base: int, x: nat)
    requires Offset(x, Saved(mem, base, Slot(RSP)) as int - 16) >= 16
    ensures AfterRestore(mem, base)(x) == mem(x)
  {
    hide Load, Offset, Wrap;
    OutsideBoth(x, Saved(mem, base, Slot(RSP)));
  }

  lemma {:induction false} KeptExactly(mem: Memory, base: int)
    ensures var sp: int := Saved(mem, base, Slot(RSP));
            (forall x :: 0 <= x < WORD ==> AfterRestore(mem, base)(x) == mem(x)) <==>
            Load(mem, Wrap(sp - 8)) == Saved(mem, base, SLOT_RIP) &&
            Load(mem, Wrap(sp - 16)) == Saved(mem, base, SLOT_EFL)
  {
    hide Load, Saved, Store, Wrap;
    var sp: nat := Saved(mem, base, Slot(RSP));
    var hi, lo := Wrap(sp as int - 8), Wrap(sp as int - 16);
    var v, w := Saved(mem, base, SLOT_RIP), Saved(mem, base, SLOT_EFL);
    SavedIsWord(mem, base, Slot(RSP));
    SavedIsWord(mem, base, SLOT_RIP);
    SavedIsWord(mem, base, SLOT_EFL);
    PushesStay(mem, sp, v, w);
    var mem' := AfterRestore(mem, base);
    if forall x :: 0 <= x < WORD ==> mem'(x) == mem(x) {
      SameBytesSameWord(mem, mem', hi);
      SameBytesSameWord(mem, mem', lo);
    } else if Load(mem, hi) == v && Load(mem, lo) == w {
      StoreOfLoaded(mem, hi, v);
      StoreOfLoaded(mem, lo, w);
      forall x | 0 <= x < WORD ensures mem'(x) == mem(x) { TwoStores(mem, hi, v, lo, w, x); }
    }
  }

  /** The 16 bytes are the top of the area that section 3.2.2 of the System V AMD64 ABI
      reserves for the interrupted function. The routine leaves memory as it is if and only
      if they already hold the saved flags and program counter. */
  lemma {:induction false} RedZoneKeptExactly(m: Cpu)
    requires ContextClear(m.mem, m.regs(RDI))
    ensures var base := m.regs(RDI);
            var sp: int := Saved(m.mem, base, Slot(RSP));
            (forall x :: 0 <= x < WORD ==> Run(SYSFAIL_RESTORE, m).mem(x) == m.mem(x)) <==>
            Load(m.mem, Wrap(sp - 8)) == Saved(m.mem, base, SLOT_RIP) &&
            Load(m.mem, Wrap(sp - 16)) == Saved(m.mem, base, SLOT_EFL)
  {
    hide Load, Run, Saved, AfterRestore, ContextClear, Wrap;
    RestoreLoadsContext(m);
    KeptExactly(m.mem, m.regs(RDI));
  }

  /** The whole context lies clear of the word at `a`. */
  ghost predicate WholeContextClear(base: int, a: int) { forall i :: 0 <= i <= SLOT_EFL ==> Apart(base + 8 * i, a, 8) }

  lemma {:induction false} ContextStays(mem: Memory, base: int, a: int, v: nat)
    requires WholeContextClear(base, a)
    ensures forall i :: 0 <= i <= SLOT_EFL ==> Saved(Store(mem, a, v), base, i) == Saved(mem, base, i)
  {
    hide Load, Store, Apart;
    forall i | 0 <= i <= SLOT_EFL ensures Saved(Store(mem, a, v), base, i) == Saved(mem, base, i) {
      LoadElsewhere(mem, a, v, base + 8 * i);
    }
  }

  /** Whatever the context, as long as it lies elsewhere: an interrupted function may hold a
      value below its stack pointer that the routine destroys. Only that word of memory is
      chosen; the context and the rest of memory are as given. */
  lemma {:induction false} RedZoneLost(m: Cpu) returns (m': Cpu)
    requires ContextClear(m.mem, m.regs(RDI))
    requires WholeContextClear(m.regs(RDI), Wrap(Saved(m.mem, m.regs(RDI), Slot(RSP)) as int - 8))
    ensures var base, hi := m.regs(RDI), Wrap(Saved(m.mem, m.regs(RDI), Slot(RSP)) as int - 8);
            && m'.regs == m.regs && (forall i :: 0 <= i <= SLOT_EFL ==> Saved(m'.mem, base, i) == Saved(m.mem, base, i))
            && (forall x | 0 <= x < WORD && Offset(x, hi) >= 8 :: m'.mem(x) == m.mem(x))
            && exists x :: 0 <= x < WORD && Offset(x, hi) < 8 && Run(SYSFAIL_RESTORE, m').mem(x) != m'.mem(x)
  {
    hide Load, Run, Saved, Wrap, Apart, Offset, ContextClear, WholeContextClear, Store;
    var base := m.regs(RDI);
    var hi := Wrap(Saved(m.mem, base, Slot(RSP)) as int - 8);
    var v := if Saved(m.mem, base, SLOT_RIP) == 0 then 1 else 0;
    m' := m.(mem := Store(m.mem, hi, v));
    LoadStored(m.mem, hi, v);
    ContextStays(m.mem, base, hi, v);
    StaysClear(m.mem, m'.mem, base);
    StoreFrame(m.mem, hi, v);
    LostAt(m', hi, v);
  }

  lemma {:induction false} StaysClear(mem: Memory, mem': Memory, base: int)
    requires ContextClear(mem, base) && Saved(mem', base, Slot(RSP)) == Saved(mem, base, Slot(RSP))
    ensures ContextClear(mem', base)
  {
    hide Saved, Apart, Wrap;
  }

  lemma {:induction false} StoreFrame(mem: Memory, a: int, v: nat)
    ensures forall x | 0 <= x < WORD && Offset(x, a) >= 8 :: Store(mem, a, v)(x) == mem(x)
  {
    hide Offset;
  }

  lemma {:induction false} LostAt(m: Cpu, hi: nat, v: nat)
    requires ContextClear(m.mem, m.regs(RDI)) && hi == Wrap(Saved(m.mem, m.regs(RDI), Slot(RSP)) as int - 8)
    requires Load(m.mem, hi) == v != Saved(m.mem, m.regs(RDI), SLOT_RIP)
    ensures exists x :: 0 <= x < WORD && Offset(x, hi) < 8 && Run(SYSFAIL_RESTORE, m).mem(x) != m.mem(x)
  {
    hide Load, Run, Saved, ContextClear, Wrap, Store, Offset;
    var base := m.regs(RDI);
    RestoreLoadsContext(m);
    var mem' := Run(SYSFAIL_RESTORE, m).mem;
    SavedIsWord(m.mem, base, Slot(RSP));
    SavedIsWord(m.mem, base, SLOT_RIP);
    SavedIsWord(m.mem, base, SLOT_EFL);
    PushesStay(m.mem, Saved(m.mem, base, Slot(RSP)), Saved(m.mem, base, SLOT_RIP), Saved(m.mem, base, SLOT_EFL));
    assert Load(mem', hi) != Load(m.mem, hi);
    DifferentWordDifferentByte(m.mem, mem', hi);
  }

  lemma {:induction false} DifferentWordDifferentByte(mem: Memory, mem': Memory, a: int)
    requires Load(mem', a) != Load(mem, a)
    ensures exists x :: 0 <= x < WORD && Offset(x, a) < 8 && mem'(x) != mem(x)
  {
    if forall x :: 0 <= x < WORD && Offset(x, a) < 8 ==> mem'(x) == mem(x) {
      forall k | 0 <= k < 8 ensures At(mem', a, k) == At(mem, a, k) { OffsetHere(a, k); }
      LoadSame(mem, mem', a, 0);
    }
  }

  lemma {:induction false} SavedIsWord(mem: Memory, base: int, slot: nat)
    ensures Saved(mem, base, slot) < WORD
  {
    LoadIsWord(mem, base + 8 * slot);
  }

  lemma {:induction false} SameBytesSameWord(mem: Memory, mem': Memory, a: int)
    requires forall x :: 0 <= x < WORD ==> mem'(x) == mem(x)
    ensures Load(mem', a) == Load(mem, a)
  {
    LoadSame(mem, mem', a, 0);
  }

  /** The bytes of a word that memory already holds. */
  lemma {:induction false} BytesOfLoaded(mem: Memory, a: int, v: nat, i: nat)
    requires i < 8 && v == Load(mem, a)
    ensures Rest(v, i) == LoadFrom(mem, a, i) && ByteOf(v, i) == At(mem, a, i)
  {
    hide At, Load;
    if i > 0 {
      BytesOfLoaded(mem, a, v, i - 1);
      assert LoadFrom(mem, a, i - 1) == At(mem, a, i - 1) + 256 * LoadFrom(mem, a, i);
    } else {
      LoadIsFrom0(mem, a);
    }
    assert LoadFrom(mem, a, i) == At(mem, a, i) + 256 * LoadFrom(mem, a, i + 1);
  }

  lemma {:induction false} LoadIsFrom0(mem: Memory, a: int)
    ensures Load(mem, a) == LoadFrom(mem, a, 0)
  {
  }

  lemma {:induction false} StoreOfLoaded(mem: Memory, a: int, v: nat)
    requires Load(mem, a) == v
    ensures forall x :: 0 <= x < WORD ==> Store(mem, a, v)(x) == mem(x)
  {
    hide Load, Rest, Wrap;
    forall x | 0 <= x < WORD ensures Store(mem, a, v)(x) == mem(x) {
      if Offset(x, a) < 8 {
        BytesOfLoaded(mem, a, v, Offset(x, a));
        OffsetBack(x, a);
      }
    }
  }

  lemma {:induction false} OffsetBack(x: nat, a: int)
    requires x < WORD
    ensures Wrap(a + Offset(x, a)) == x
  {
    var q := (x - a) / WORD;
    assert a + Offset(x, a) == x - WORD * q;
    assert (x - WORD * q) % WORD == x;
  }

  lemma {:induction false} TwoStores(mem: Memory, hi: int, v: nat, lo: int, w: nat, x: nat)
    requires x < WORD && Store(mem, hi, v)(x) == mem(x) && Store(mem, lo, w)(x) == mem(x)
    ensures Store(Store(mem, hi, v), lo, w)(x) == mem(x)
  {
  }
}
