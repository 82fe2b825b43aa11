/** Lowering an address computation to machine instructions: the offset is kept as a constant or as `A * x + B`
    while the indices are taken one by one (`MBasicBlock::acceptGetElementPtrInst`). */
module Gep {
  import opened Bits
  import opened IR

  // ----- Machine instructions -----

  datatype MOp = Imm(v: int) | VReg(r: nat)

  datatype MathOp = MAdd | MMul | MMull | MShl

  datatype MInst = MMath(op: MathOp, l: MOp, r: MOp, t: nat, width: nat) | MCopy(src: MOp, t: nat,
      width: nat) | MSXTW(src: MOp, t: nat)

  /** Contents of registers; a 32-bit result leaves the upper half zero. */
  type Regs = nat -> int

  ghost function Content(o: MOp, regs: Regs): int {
    match o
    case Imm(v) => v
    case VReg(r) => regs(r)
  }

  ghost function MathValue(op: MathOp, x: int, y: int): int {
    match op
    case MAdd => x + y
    case MMul => x * y
    case MMull => x * y
    case MShl => if y >= 0 then x * Pow2(y) else x
  }

  ghost function Narrow(x: int, width: nat): int {
    if width == 32 then Low(x) else x
  }

  ghost function Write(regs: Regs, t: nat, v: int): Regs {
    (r: nat) => if r == t then v else regs(r)
  }

  ghost function Exec(i: MInst, regs: Regs): Regs {
    match i
    case MMath(op, l, r, t, w) => Write(regs, t, Narrow(MathValue(op, Content(l, regs), Content(r, regs)), w))
    case MCopy(s, t, w) => Write(regs, t, Narrow(Content(s, regs), w))
    case MSXTW(s, t) => Write(regs, t, Wrap32(Content(s, regs)))
  }

  ghost function ExecAll(vec: seq<MInst>, regs: Regs): Regs {
    if vec == [] then regs else Exec(vec[|vec| - 1], ExecAll(vec[..|vec| - 1], regs))
  }

  /** A 64-bit immediate keeps its low 32 bits only. */
  function Immediate(x: int): int {
    Low(x)
  }

  // ----- Choosing a multiplication -----

  /** No multiplication by a constant 0, 1 or power of two, nor of two constants. */
  ghost predicate Chosen(i: MInst, l: MOp, r: MOp)
    requires l.Imm? || r.Imm?
  {
    var c := if l.Imm? then l.v else r.v;
    && (l.Imm? && r.Imm? ==> i.MCopy?)
    && (c == 0 || c == 1 ==> i.MCopy?)
    && (forall k: nat :: 0 < k < 31 && c == Pow2(k) ==> i.MCopy? || (i.MMath? && i.op == MShl))
  }

  lemma WrapSmall(c: int)
    requires 0 <= c < TWO_TO_THE_31
    ensures Wrap32(c) == c
  {
  }

  lemma PowerChosen(c: int, k: nat)
    requires k < 31 && c == Pow2(k)
    ensures Wrap32(c) == c && OneBit(c)
  {
    Pow2Values();
    hide Pow2, OneBit, Wrap32;
    SmallPower(k, 31);
    WrapSmall(c);
    LowSmall(c);
    PowerHasOneBit(c, k);
  }

  lemma ChosenIs(i: MInst, l: MOp, r: MOp, c: int)
    requires l.Imm? != r.Imm? && c == Wrap32(if l.Imm? then l.v else r.v)
    requires (c == 0 || c == 1 ==> i.MCopy?) && (OneBit(c) ==> i.MCopy? || (i.MMath? && i.op == MShl))
    ensures Chosen(i, l, r)
  {
    var d := if l.Imm? then l.v else r.v;
    WrapSmall(0);
    WrapSmall(1);
    hide Wrap32, OneBit, Pow2;
    forall k: nat | 0 < k < 31 && d == Pow2(k) ensures i.MCopy? || (i.MMath? && i.op == MShl) {
      PowerChosen(d, k);
    }
  }

  /** `MMathInst::createOptimizedNNegMul` with 32-bit operands: nothing, a move, a shift or a multiplication. */
  method CreateOptimizedNNegMul(l0: MOp, r0: MOp, t: nat) returns (i: MInst)
    ensures i.t == t
    ensures forall regs: Regs :: Low(Exec(i, regs)(t)) == Low(Content(l0, regs) * Content(r0, regs))
    ensures forall regs: Regs, r: nat :: r != t ==> Exec(i, regs)(r) == regs(r)
    ensures l0.VReg? || r0.VReg? ==> forall regs: Regs :: 0 <= Exec(i, regs)(t) < TWO_TO_THE_32
    ensures l0.Imm? || r0.Imm? ==> Chosen(i, l0, r0)
  {
    var l, r := l0, r0;
    if l.Imm? && r.Imm? {
      i := MCopy(Imm(Wrap32(Wrap32(l.v) * Wrap32(r.v))), t, 64);
      BothImmediate(l.v, r.v);
      return;
    }
    if l.Imm? {
      l, r := r, l;
    }
    hide *;
    if r.VReg? {
      i := MMath(MMul, l, r, t, 32);
      forall regs: Regs { MulWorks(MMul, l0, r0, l, r, t, regs); }
      forall regs: Regs, k: nat | k != t { OnlyTarget(i, regs, k); }
      return;
    }
    var c := Wrap32(r.v);
    if c == 0 {
      i := MCopy(Imm(0), t, 32);
      forall regs: Regs { ZeroWorks(l0, r0, l, r, t, regs); }
    } else if c == 1 {
      i := MCopy(l, t, 32);
      forall regs: Regs { OneWorks(l0, r0, l, r, t, regs); }
    } else if OneBit(c) {
      i := MMath(MShl, l, Imm(CountZeros(c)), t, 32);
      forall regs: Regs { ShiftWorks(l0, r0, l, r, c, t, regs); }
    } else if OneBit(Wrap32(c - 1)) {
      i := MMath(MMull, l, r, t, 32);
      forall regs: Regs { MulWorks(MMull, l0, r0, l, r, t, regs); }
    } else {
      i := MMath(MMul, l, r, t, 32);
      forall regs: Regs { MulWorks(MMul, l0, r0, l, r, t, regs); }
    }
    forall regs: Regs, k: nat | k != t { OnlyTarget(i, regs, k); }
    ChosenIs(i, l0, r0, c);
  }

  lemma BothImmediate(x: int, y: int)
    ensures Low(Wrap32(Wrap32(x) * Wrap32(y))) == Low(x * y)
  {
    WrapLow(Wrap32(x) * Wrap32(y));
    WrapLow(x);
    WrapLow(y);
    LowMul(Wrap32(x), Wrap32(y), x, y);
  }

  lemma OnlyTarget(i: MInst, regs: Regs, k: nat)
    requires k != i.t
    ensures Exec(i, regs)(k) == regs(k)
  {
  }

  lemma MulWorks(op: MathOp, l0: MOp, r0: MOp, l: MOp, r: MOp, t: nat, regs: Regs)
    requires ((l == l0 && r == r0) || (l == r0 && r == l0)) && (op == MMul || op == MMull)
    ensures var v := Exec(MMath(op, l, r, t, 32), regs)(t);
              Low(v) == Low(Content(l0, regs) * Content(r0, regs)) && 0 <= v < TWO_TO_THE_32
  {
    var x, y := Content(l, regs), Content(r, regs);
    LowLow(x * y);
    assert x * y == y * x;
    LowIs(x * y);
  }

  lemma ZeroWorks(l0: MOp, r0: MOp, l: MOp, r: MOp, t: nat, regs: Regs)
    requires ((l == l0 && r == r0) || (l == r0 && r == l0)) && r.Imm? && Wrap32(r.v) == 0
    ensures var v := Exec(MCopy(Imm(0), t, 32), regs)(t);
              Low(v) == Low(Content(l0, regs) * Content(r0, regs)) && 0 <= v < TWO_TO_THE_32
  {
    var x := Content(l, regs);
    WrapLow(r.v);
    LowMul(x, r.v, x, 0);
    assert x * 0 == 0 && x * r.v == r.v * x;
  }

  lemma OneWorks(l0: MOp, r0: MOp, l: MOp, r: MOp, t: nat, regs: Regs)
    requires ((l == l0 && r == r0) || (l == r0 && r == l0)) && r.Imm? && Wrap32(r.v) == 1
    ensures var v := Exec(MCopy(l, t, 32), regs)(t);
              Low(v) == Low(Content(l0, regs) * Content(r0, regs)) && 0 <= v < TWO_TO_THE_32
  {
    var x := Content(l, regs);
    WrapLow(r.v);
    LowMul(x, r.v, x, 1);
    assert x * 1 == x && x * r.v == r.v * x;
    LowLow(x);
    LowIs(x);
  }

  lemma ShiftWorks(l0: MOp, r0: MOp, l: MOp, r: MOp, c: int, t: nat, regs: Regs)
    requires ((l == l0 && r == r0) || (l == r0 && r == l0)) && r.Imm? && c == Wrap32(r.v) && c != 0 && OneBit(c)
    ensures var v := Exec(MMath(MShl, l, Imm(CountZeros(c)), t, 32), regs)(t);
            Low(v) == Low(Content(l0, regs) * Content(r0, regs)) && 0 <= v < TWO_TO_THE_32
  {
    var x := Content(l, regs);
    WrapLow(r.v);
    NotZeroLow(c);
    OneBitShifts(c);
    var p := Pow2(CountZeros(c));
    LowLow(c);
    LowMul(x, p, x, r.v);
    assert x * r.v == r.v * x;
    LowLow(x * p);
    LowIs(x * p);
  }

  lemma NotZeroLow(c: int)
    requires -TWO_TO_THE_31 <= c < TWO_TO_THE_31 && c != 0
    ensures Low(c) != 0
  {
  }

  // ----- The offset of an address -----

  /** The product of the lengths from dimension `i` on; `dimLen` ends with 1, for the element itself. */
  function LengthsFrom(dimLen: seq<nat>, i: nat): nat
    requires i <= |dimLen|
    decreases |dimLen| - i
  {
    if i == |dimLen| then 1 else dimLen[i] * LengthsFrom(dimLen, i + 1)
  }

  /** Row-major order: index `i` counts 4 bytes for every element of the dimensions from the `i`th length on. */
  function OffsetFrom(dimLen: seq<nat>, idx: seq<int>, i: nat): int
    requires |idx| <= |dimLen| && i <= |idx|
    decreases |idx| - i
  {
    if i == |idx| then 0 else idx[i] * (4 * LengthsFrom(dimLen, i)) + OffsetFrom(dimLen, idx, i + 1)
  }

  /** What one step of the loop multiplies by: the last index is scaled by all that is left. */
  function StepLength(dimLen: seq<nat>, n: nat, i: nat): nat
    requires i < n <= |dimLen|
  {
    if i == n - 1 then 4 * LengthsFrom(dimLen, i) else dimLen[i]
  }

  /** The offset of the first `i` indices, before the rest is multiplied in. */
  function Horner(dimLen: seq<nat>, idx: seq<int>, i: nat): int
    requires i <= |idx| <= |dimLen|
  {
    if i == 0 then 0 else (Horner(dimLen, idx, i - 1) + idx[i - 1]) * StepLength(dimLen, |idx|, i - 1)
  }

  /** Taking the indices one by one gives the offset in row-major order. */
  lemma {:induction false} HornerIsOffset(dimLen: seq<nat>, idx: seq<int>, i: nat)
    requires i < |idx| <= |dimLen|
    ensures Horner(dimLen, idx, |idx|) == Horner(dimLen, idx, i) * (4 * LengthsFrom(dimLen, i))
            + OffsetFrom(dimLen, idx, i)
    decreases |idx| - i
  {
    var h, k, p := Horner(dimLen, idx, i), idx[i], LengthsFrom(dimLen, i + 1);
    assert LengthsFrom(dimLen, i) == dimLen[i] * p;
    if i == |idx| - 1 {
      Distributes(h, k, 4 * LengthsFrom(dimLen, i));
      assert OffsetFrom(dimLen, idx, i + 1) == 0;
    } else {
      HornerIsOffset(dimLen, idx, i + 1);
      assert Horner(dimLen, idx, i + 1) == (h + k) * dimLen[i];
      Regroup(h, k, dimLen[i], p);
    }
  }

  lemma HornerTotal(dimLen: seq<nat>, idx: seq<int>)
    requires 0 < |idx| <= |dimLen|
    ensures Horner(dimLen, idx, |idx|) == OffsetFrom(dimLen, idx, 0)
  {
    HornerIsOffset(dimLen, idx, 0);
    var l := 4 * LengthsFrom(dimLen, 0);
    assert 0 * l == 0;
  }

  lemma Distributes(h: int, k: int, l: int)
    ensures (h + k) * l == h * l + k * l
  {
  }

  lemma Regroup(h: int, k: int, d: int, p: int)
    ensures ((h + k) * d) * (4 * p) == h * (4 * (d * p)) + k * (4 * (d * p))
  {
    var q := 4 * (d * p);
    assert ((h + k) * d) * (4 * p) == (h + k) * q by { Associate(h + k, d, p); }
    Distributes(h, k, q);
  }

  lemma Associate(x: int, d: int, p: int)
    ensures (x * d) * (4 * p) == x * (4 * (d * p))
  {
    assert (x * d) * (4 * p) == 4 * ((x * d) * p);
    assert (x * d) * p == x * (d * p);
    assert x * (4 * (d * p)) == 4 * (x * (d * p));
  }

  // ----- The accumulator -----

  /** A constant, or `A * x + B` with `x` in a register; `A` and `B` may be missing. */
  datatype Acc = Constant(c: int) | Linear(immA: Option<int>, operand: MOp, immB: Option<int>)

  ghost function AccValue(a: Acc, regs: Regs): int {
    match a
    case Constant(c) => c
    case Linear(immA, x, immB) =>
      (if immA.Some? then immA.value * Content(x, regs) else Content(x, regs)) + (if immB.Some? then immB.value else 0)
  }

  /** An index is a constant, or a register below the ones the lowering makes. */
  ghost predicate IndicesOk(ops: seq<MOp>, next: nat) {
    forall i :: 0 <= i < |ops| && ops[i].VReg? ==> ops[i].r < next
  }

  /** The 32-bit number an index stands for. */
  ghost function IndexValue(o: MOp, regs: Regs): int {
    if o.Imm? then o.v else Wrap32(regs(o.r))
  }

  ghost function Values(ops: seq<MOp>, regs: Regs): (r: seq<int>)
    ensures |r| == |ops| && forall i :: 0 <= i < |ops| ==> r[i] == IndexValue(ops[i], regs)
  {
    seq(|ops|, i requires 0 <= i < |ops| => IndexValue(ops[i], regs))
  }

  ghost predicate Unchanged(regs: Regs, regs': Regs, next: nat) {
    forall r: nat :: r < next ==> regs'(r) == regs(r)
  }

  ghost predicate AccOk(a: Acc, next: nat) {
    match a
    case Constant(c) => 0 <= c < TWO_TO_THE_32
    case Linear(_, x, _) => x.VReg? && x.r < next
  }

  /** Registers of 32 bits have nothing in their upper half. */
  ghost predicate Clean(regs: Regs, next: nat) {
    forall r: nat :: r < next ==> 0 <= regs(r) < TWO_TO_THE_32
  }

  /** What the instructions so far do: they leave old registers alone, keep registers clean, and the accumulator is
      congruent to `value`. */
  ghost predicate Holds(vec: seq<MInst>, a: Acc, next0: nat, next: nat, regs: Regs, value: int) {
    var regs' := ExecAll(vec, regs);
    next0 <= next && Unchanged(regs, regs', next0) && Clean(regs', next) && Low(AccValue(a, regs')) == Low(value)
  }

  /** The instructions write registers that were created for them. */
  predicate WritesNew(vec: seq<MInst>, next0: nat, next: nat) {
    forall k :: 0 <= k < |vec| ==> next0 <= vec[k].t < next
  }

  lemma WritesMore(vec: seq<MInst>, i: MInst, next0: nat, next: nat)
    requires WritesNew(vec, next0, next) && i.t == next >= next0
    ensures WritesNew(vec + [i], next0, next + 1)
  {
  }

  /** For every initial contents of the registers. */
  ghost predicate Accumulated(vec: seq<MInst>, a: Acc, next0: nat, next: nat, dimLen: seq<nat>, ops: seq<MOp>, i: nat)
    requires i <= |ops| <= |dimLen|
  {
    && AccOk(a, next) && next0 <= next && WritesNew(vec, next0, next)
    && forall regs: Regs :: Clean(regs, next0)
        ==> Holds(vec, a, next0, next, regs, Horner(dimLen, Values(ops, regs), i))
  }

  lemma ExecMore(vec: seq<MInst>, i: MInst, regs: Regs)
    ensures ExecAll(vec + [i], regs) == Exec(i, ExecAll(vec, regs))
  {
    assert (vec + [i])[..|vec|] == vec;
  }

  /** One more instruction, which writes the next register. */
  lemma HoldsMore(vec: seq<MInst>, a: Acc, a': Acc, next0: nat, next: nat, regs: Regs, value: int, value': int,
                  i: MInst)
    requires Holds(vec, a, next0, next, regs, value) && i.t == next
    requires var r := ExecAll(vec, regs);
             0 <= Exec(i, r)(next) < TWO_TO_THE_32 && Low(AccValue(a', Exec(i, r))) == Low(value')
    ensures Holds(vec + [i], a', next0, next + 1, regs, value')
  {
    ExecMore(vec, i, regs);
    var r := ExecAll(vec, regs);
    forall k: nat | k != next ensures Exec(i, r)(k) == r(k) { OnlyTarget(i, r, k); }
    hide Exec, ExecAll, AccValue;
  }

  lemma IndexLow(o: MOp, regs: Regs, regs': Regs, next: nat)
    requires o.VReg? ==> o.r < next
    requires Unchanged(regs, regs', next)
    ensures Low(Content(o, regs')) == Low(IndexValue(o, regs))
  {
    if o.VReg? { WrapLow(regs(o.r)); }
  }

  /** The accumulator with one more index added, as far as no instruction is needed. */
  function AddConstant(a: Acc, v: int): Acc {
    if v == 0 then a
    else
      match a
      case Constant(c) => Constant(Immediate(c + v))
      case Linear(immA, x, immB) => Linear(immA, x, if immB.None? then Some(v) else Some(Immediate(immB.value + v)))
  }

  lemma AddConstantValue(a: Acc, v: int, regs: Regs)
    ensures Low(AccValue(AddConstant(a, v), regs)) == Low(AccValue(a, regs) + v)
  {
    match a
    case Constant(c) =>
      LowLow(c + v);
    case Linear(immA, x, immB) =>
      if immB.Some? {
        var y := AccValue(Linear(immA, x, None), regs);
        LowLow(immB.value + v);
        LowAdd(y, Immediate(immB.value + v), y, immB.value + v);
      }
  }

  /** Multiplication by a length. */
  function Scale(a: Acc, len: nat): Acc {
    if len == 1 then a
    else
      match a
      case Constant(c) => Constant(Immediate(c * len))
      case Linear(immA, x, immB) =>
        Linear(Some(Immediate(if immA.None? then len else immA.value * len)), x, if immB.None? then None
            else Some(Immediate(immB.value * len)))
  }

  lemma ScaleValue(a: Acc, len: nat, regs: Regs)
    ensures Low(AccValue(Scale(a, len), regs)) == Low(AccValue(a, regs) * len)
  {
    if len == 1 {
      assert AccValue(a, regs) * len == AccValue(a, regs);
    } else if a.Constant? {
      LowLow(a.c * len);
    } else {
      var x := Content(a.operand, regs);
      var p := if a.immA.None? then 1 else a.immA.value;
      var b := if a.immB.None? then 0 else a.immB.value;
      assert AccValue(a, regs) == p * x + b;
      Distributes(p * x, b, len);
      assert (p * x) * len == (p * len) * x;
      LowLow(p * len);
      LowMul(Immediate(p * len), x, p * len, x);
      LowLow(b * len);
      assert a.immB.None? ==> b * len == 0;
      LowAdd(Immediate(p * len) * x, if a.immB.None? then 0 else Immediate(b * len), (p * len) * x, b * len);
      assert p == 1 ==> p * len == len;
    }
  }

  lemma ScaleOk(a: Acc, len: nat, v: int, next: nat)
    requires AccOk(a, next)
    ensures AccOk(Scale(a, len), next) && AccOk(AddConstant(a, v), next)
  {
    if a.Constant? {
      LowIs(a.c * len);
      LowIs(a.c + v);
    }
  }

  // ----- The loop -----

  /** A register index joins the accumulator: a pending multiplication comes first, then the sum. */
  method AddRegister(a: Acc, o: MOp, vec0: seq<MInst>, ghost next0: nat, next1: nat)
    returns (vec: seq<MInst>, a': Acc, next: nat)
    requires o.VReg? && o.r < next0 <= next1 && AccOk(a, next1) && WritesNew(vec0, next0, next1)
    ensures AccOk(a', next) && next1 <= next && WritesNew(vec, next0, next)
    ensures forall regs: Regs, value: int :: Clean(regs, next0) && Holds(vec0, a, next0, next1, regs, value) ==>
              Holds(vec, a', next0, next, regs, value + IndexValue(o, regs))
  {
    vec, a', next := vec0, a, next1;
    hide *;
    AccOkIs(a, next1);
    match a {
      case Constant(c) =>
        a' := Linear(None, o, Some(c));
        AccOkIs(a', next);
        forall regs: Regs, value: int | Clean(regs, next0) && Holds(vec0, a, next0, next1, regs, value)
          ensures Holds(vec, a', next0, next, regs, value + IndexValue(o, regs))
        {
          FromConstant(c, o, vec0, next0, next1, regs, value);
        }
      case Linear(immA, x, immB) =>
        var operand := x;
        if immA.Some? {
          var inst := CreateOptimizedNNegMul(Imm(immA.value), x, next);
          WritesMore(vec, inst, next0, next);
          vec := vec + [inst];
          operand := VReg(next);
          forall regs: Regs, value: int | Clean(regs, next0) && Holds(vec0, a, next0, next1, regs, value)
            ensures Holds(vec, Linear(None, operand, immB), next0, next + 1, regs, value)
          {
            MulPending(immA.value, x, immB, inst, vec0, next0, next1, regs, value);
          }
          next := next + 1;
        }
        ghost var vec1, next2, x1 := vec, next, operand;
        WritesMore(vec, MMath(MAdd, operand, o, next, 32), next0, next);
        vec := vec + [MMath(MAdd, operand, o, next, 32)];
        operand := VReg(next);
        next := next + 1;
        a' := Linear(None, operand, immB);
        AccOkIs(a', next);
        forall regs: Regs, value: int | Clean(regs, next0) && Holds(vec0, a, next0, next1, regs, value)
          ensures Holds(vec, a', next0, next, regs, value + IndexValue(o, regs))
        {
          AddPending(x1, immB, o, vec1, next0, next2, regs, value);
        }
    }
  }

  lemma AccOkIs(a: Acc, next: nat)
    ensures AccOk(Constant(0), next)
    ensures AccOk(a, next) <==> match a case Constant(c) => 0 <= c < TWO_TO_THE_32 case Linear(_, x, _) =>
              x.VReg? && x.r < next
  {
  }

  lemma FromConstant(c: int, o: MOp, vec: seq<MInst>, next0: nat, next: nat, regs: Regs, value: int)
    requires o.VReg? && o.r < next0 && Holds(vec, Constant(c), next0, next, regs, value)
    ensures Holds(vec, Linear(None, o, Some(c)), next0, next, regs, value + IndexValue(o, regs))
  {
    var r := ExecAll(vec, regs);
    hide ExecAll;
    IndexLow(o, regs, r, next0);
    LowAdd(Content(o, r), c, IndexValue(o, regs), value);
  }

  /** The multiplication of a pending `A * x` writes the next register. */
  lemma MulPending(p: int, x: MOp, immB: Option<int>, inst: MInst, vec: seq<MInst>, next0: nat, next: nat, regs: Regs,
                   value: int)
    requires x.VReg? && inst.t == next && Holds(vec, Linear(Some(p), x, immB), next0, next, regs, value)
    requires forall r: Regs ::
               Low(Exec(inst, r)(next)) == Low(Content(Imm(p), r) * Content(x, r))
                   && 0 <= Exec(inst, r)(next) < TWO_TO_THE_32
    ensures Holds(vec + [inst], Linear(None, VReg(next), immB), next0, next + 1, regs, value)
  {
    var r := ExecAll(vec, regs);
    var v, b := Exec(inst, r)(next), if immB.Some? then immB.value else 0;
    hide ExecAll, Exec;
    LowAdd(v, b, p * Content(x, r), b);
    HoldsMore(vec, Linear(Some(p), x, immB), Linear(None, VReg(next), immB), next0, next, regs, value, value, inst);
  }

  lemma AddPending(x: MOp, immB: Option<int>, o: MOp, vec: seq<MInst>, next0: nat, next: nat, regs: Regs, value: int)
    requires x.VReg? && o.VReg? && o.r < next0 && Holds(vec, Linear(None, x, immB), next0, next, regs, value)
    ensures Holds(vec + [MMath(MAdd, x, o, next, 32)], Linear(None, VReg(next), immB), next0, next + 1, regs,
              value + IndexValue(o, regs))
  {
    var r := ExecAll(vec, regs);
    var i := MMath(MAdd, x, o, next, 32);
    var b := if immB.Some? then immB.value else 0;
    var sum := Content(x, r) + Content(o, r);
    assert Exec(i, r)(next) == Low(sum);
    LowIs(sum);
    LowLow(sum);
    IndexLow(o, regs, r, next0);
    LowAdd(Content(x, r) + b, Content(o, r), value, IndexValue(o, regs));
    LowAdd(Low(sum), b, sum, b);
    hide ExecAll, Exec;
    HoldsMore(vec, Linear(None, x, immB), Linear(None, VReg(next), immB), next0, next, regs, value,
        value + IndexValue(o, regs), i);
  }

  /** A length of 0 makes everything before it vanish. */
  lemma Vanishes(vec: seq<MInst>, a: Acc, next0: nat, next: nat, regs: Regs, value: int)
    requires Holds(vec, a, next0, next, regs, value)
    ensures Holds(vec, Constant(0), next0, next, regs, 0)
  {
  }

  lemma Adds(vec: seq<MInst>, a: Acc, next0: nat, next: nat, regs: Regs, value: int, v: int)
    requires Holds(vec, a, next0, next, regs, value)
    ensures Holds(vec, AddConstant(a, v), next0, next, regs, value + v)
  {
    var r := ExecAll(vec, regs);
    hide ExecAll, AddConstant, AccValue;
    AddConstantValue(a, v, r);
    LowAdd(AccValue(a, r), v, value, v);
  }

  lemma Scales(vec: seq<MInst>, a: Acc, next0: nat, next: nat, regs: Regs, value: int, len: nat)
    requires Holds(vec, a, next0, next, regs, value)
    ensures Holds(vec, Scale(a, len), next0, next, regs, value * len)
  {
    var r := ExecAll(vec, regs);
    hide ExecAll, Scale, AccValue;
    ScaleValue(a, len, r);
    LowMul(AccValue(a, r), len, value, len);
  }

  lemma HornerStep(dimLen: seq<nat>, ops: seq<MOp>, regs: Regs, i: nat)
    requires i < |ops| <= |dimLen|
    ensures var idx := Values(ops, regs);
            Horner(dimLen, idx, i + 1) == (Horner(dimLen, idx, i) + IndexValue(ops[i], regs)) * StepLength(dimLen,
                |ops|, i)
    ensures dimLen[i] == 0 ==> StepLength(dimLen, |ops|, i) == 0
  {
  }

  /** The multiplier of one step, with all the lengths that are left for the last index. */
  method LengthOf(dimLen: seq<nat>, n: nat, i: nat) returns (len: nat)
    requires i < n <= |dimLen| && dimLen[|dimLen| - 1] == 1
    ensures len == StepLength(dimLen, n, i)
  {
    len := dimLen[i];
    if i == n - 1 {
      len := len * 4;
      var rs := |dimLen| - 1;
      var j := i + 1;
      assert LengthsFrom(dimLen, i) == dimLen[i] * LengthsFrom(dimLen, i + 1);
      Times4(dimLen[i], LengthsFrom(dimLen, i + 1));
      while j < rs
        invariant i + 1 <= j <= |dimLen| && len * LengthsFrom(dimLen, j) == StepLength(dimLen, n, i)
      {
        TimesAssociate(len, dimLen[j], LengthsFrom(dimLen, j + 1));
        len := len * dimLen[j];
        j := j + 1;
      }
      assert LengthsFrom(dimLen, j) == 1 by {
        if j == rs { assert LengthsFrom(dimLen, j) == dimLen[j] * LengthsFrom(dimLen, j + 1); }
      }
    }
  }

  lemma Times4(d: nat, p: nat)
    ensures (d * 4) * p == 4 * (d * p)
  {
  }

  lemma TimesAssociate(x: nat, y: nat, z: nat)
    ensures x * (y * z) == (x * y) * z
  {
  }

  /** One index. */
  method TakeIndex(dimLen: seq<nat>, ops: seq<MOp>, i: nat, vec0: seq<MInst>, a0: Acc, ghost next0: nat, next1: nat)
    returns (vec: seq<MInst>, a: Acc, next: nat)
    requires i < |ops| <= |dimLen| && dimLen[|dimLen| - 1] == 1 && IndicesOk(ops, next0)
    requires Accumulated(vec0, a0, next0, next1, dimLen, ops, i)
    ensures Accumulated(vec, a, next0, next, dimLen, ops, i + 1)
    ensures ops[i].Imm? && a0.Constant? ==> vec == vec0 && a.Constant?
  {
    vec, a, next := vec0, a0, next1;
    assert ops[i].VReg? ==> ops[i].r < next0;
    hide *;
    AccumulatedIs(vec0, a0, next0, next1, dimLen, ops, i);
    if dimLen[i] == 0 {
      a := Constant(0);
      VanishAll(dimLen, ops, i, vec0, a0, next0, next1);
      return;
    }
    if ops[i].Imm? {
      ScaleOk(a0, 1, ops[i].v, next1);
      a := AddConstant(a0, ops[i].v);
      forall regs: Regs, value: int | Clean(regs, next0) && Holds(vec0, a0, next0, next1, regs, value)
        ensures Holds(vec, a, next0, next, regs, value + IndexValue(ops[i], regs))
      {
        ImmediateValue(ops[i], regs);
        Adds(vec0, a0, next0, next1, regs, value, ops[i].v);
      }
    } else {
      vec, a, next := AddRegister(a0, ops[i], vec0, next0, next1);
    }
    ghost var a1 := a;
    var len := LengthOf(dimLen, |ops|, i);
    ScaleOk(a, len, 0, next);
    a := Scale(a, len);
    if ops[i].Imm? && a0.Constant? { StaysConstant(a0, ops[i].v, len); }
    forall regs: Regs | Clean(regs, next0)
      ensures Holds(vec, a, next0, next, regs, Horner(dimLen, Values(ops, regs), i + 1)) {
      var h := Horner(dimLen, Values(ops, regs), i);
      assert Holds(vec0, a0, next0, next1, regs, h);
      HornerStep(dimLen, ops, regs, i);
      Scales(vec, a1, next0, next, regs, h + IndexValue(ops[i], regs), len);
    }
    AccumulatedIs(vec, a, next0, next, dimLen, ops, i + 1);
  }

  lemma StaysConstant(a: Acc, v: int, len: nat)
    requires a.Constant?
    ensures Scale(AddConstant(a, v), len).Constant?
  {
  }

  lemma VanishAll(dimLen: seq<nat>, ops: seq<MOp>, i: nat, vec: seq<MInst>, a: Acc, next0: nat, next: nat)
    requires i < |ops| <= |dimLen| && dimLen[i] == 0 && Accumulated(vec, a, next0, next, dimLen, ops, i)
    ensures Accumulated(vec, Constant(0), next0, next, dimLen, ops, i + 1)
  {
    hide *;
    AccumulatedIs(vec, a, next0, next, dimLen, ops, i);
    AccOkIs(Constant(0), next);
    forall regs: Regs | Clean(regs, next0)
      ensures Holds(vec, Constant(0), next0, next, regs, Horner(dimLen, Values(ops, regs), i + 1)) {
      HornerStep(dimLen, ops, regs, i);
      Vanishes(vec, a, next0, next, regs, Horner(dimLen, Values(ops, regs), i));
      TimesZero(Horner(dimLen, Values(ops, regs), i) + IndexValue(ops[i], regs));
    }
    AccumulatedIs(vec, Constant(0), next0, next, dimLen, ops, i + 1);
  }

  lemma TimesZero(x: int)
    ensures x * 0 == 0
  {
  }

  lemma ImmediateValue(o: MOp, regs: Regs)
    requires o.Imm?
    ensures IndexValue(o, regs) == o.v
  {
  }

  lemma AccumulatedIs(vec: seq<MInst>, a: Acc, next0: nat, next: nat, dimLen: seq<nat>, ops: seq<MOp>, i: nat)
    requires i <= |ops| <= |dimLen|
    ensures Accumulated(vec, a, next0, next, dimLen, ops, i) <==>
              && AccOk(a, next) && next0 <= next && WritesNew(vec, next0, next)
              && forall regs: Regs :: Clean(regs, next0)
                  ==> Holds(vec, a, next0, next, regs, Horner(dimLen, Values(ops, regs), i))
  {
  }

  /** What the target register gets: the base itself, or the base plus an operand. */
  datatype Target = JustBase | BasePlus(o: MOp)

  ghost function Address(base: int, t: Target, regs: Regs): int {
    match t
    case JustBase => base
    case BasePlus(o) => base + Content(o, regs)
  }

  /** The sum of a pending `A * x + B`, in one register. */
  method Materialize(a: Acc, vec0: seq<MInst>, ghost next0: nat, next1: nat) returns (vec: seq<MInst>, x: MOp,
      next: nat)
    requires a.Linear? && AccOk(a, next1) && next0 <= next1 && WritesNew(vec0, next0, next1)
    ensures x.VReg? && x.r < next && next1 <= next && WritesNew(vec, next0, next)
    ensures forall regs: Regs, value: int :: Clean(regs, next0) && Holds(vec0, a, next0, next1, regs, value) ==>
              Holds(vec, Linear(None, x, None), next0, next, regs, value)
  {
    vec, x, next := vec0, a.operand, next1;
    AccOkIs(a, next1);
    hide *;
    if a.immA.Some? {
      var inst := CreateOptimizedNNegMul(Imm(a.immA.value), x, next);
      WritesMore(vec, inst, next0, next);
      vec := vec + [inst];
      forall regs: Regs, value: int | Clean(regs, next0) && Holds(vec0, a, next0, next1, regs, value)
        ensures Holds(vec, Linear(None, VReg(next), a.immB), next0, next + 1, regs, value)
      {
        MulPending(a.immA.value, x, a.immB, inst, vec0, next0, next1, regs, value);
      }
      x := VReg(next);
      next := next + 1;
    }
    if a.immB.Some? {
      ghost var vec1, x1, next2 := vec, x, next;
      WritesMore(vec, MMath(MAdd, Imm(a.immB.value), x, next, 32), next0, next);
      vec := vec + [MMath(MAdd, Imm(a.immB.value), x, next, 32)];
      x := VReg(next);
      next := next + 1;
      forall regs: Regs, value: int | Clean(regs, next0) && Holds(vec0, a, next0, next1, regs, value)
        ensures Holds(vec, Linear(None, x, None), next0, next, regs, value)
      {
        SumPending(x1, a.immB.value, vec1, next0, next2, regs, value);
      }
    }
  }

  lemma SumPending(x: MOp, b: int, vec: seq<MInst>, next0: nat, next: nat, regs: Regs, value: int)
    requires x.VReg? && Holds(vec, Linear(None, x, Some(b)), next0, next, regs, value)
    ensures Holds(vec + [MMath(MAdd, Imm(b), x, next, 32)], Linear(None, VReg(next), None), next0, next + 1, regs,
              value)
  {
    var r := ExecAll(vec, regs);
    var i := MMath(MAdd, Imm(b), x, next, 32);
    assert Exec(i, r)(next) == Low(b + Content(x, r));
    LowIs(b + Content(x, r));
    LowLow(b + Content(x, r));
    hide ExecAll, Exec;
    HoldsMore(vec, Linear(None, x, Some(b)), Linear(None, VReg(next), None), next0, next, regs, value, value, i);
  }

  /** What is added to the base: a register that was sign-extended holds a signed number, all else an unsigned one. */
  function Added(signExtend: bool, target: Target, offset: int): int {
    if signExtend && target.BasePlus? && target.o.VReg? then Wrap32(offset) else Low(offset)
  }

  /** What the lowered address is, for every contents of the registers, which the instructions leave as they were. */
  ghost predicate Addresses(dimLen: seq<nat>, ops: seq<MOp>, next0: nat, signExtend: bool, vec: seq<MInst>,
                            target: Target)
    requires |ops| <= |dimLen|
  {
    forall regs: Regs, base: int :: Clean(regs, next0) ==>
      var offset, address := OffsetFrom(dimLen, Values(ops, regs), 0), Address(base, target, ExecAll(vec, regs));
      address == base + Added(signExtend, target, offset) && Unchanged(regs, ExecAll(vec, regs), next0)
  }

  /** The address is the base plus the offset of the element in row-major order exactly when that fits. */
  lemma AddressIsExact(dimLen: seq<nat>, ops: seq<MOp>, next0: nat, signExtend: bool, vec: seq<MInst>, target: Target,
                       regs: Regs, base: int)
    requires |ops| <= |dimLen| && Addresses(dimLen, ops, next0, signExtend, vec, target) && Clean(regs, next0)
    ensures var offset, address := OffsetFrom(dimLen, Values(ops, regs), 0), Address(base, target, ExecAll(vec, regs));
            && (0 <= offset < TWO_TO_THE_31 ==> address == base + offset)
            && (address == base + offset <==>
                if signExtend && target.BasePlus? && target.o.VReg? then -TWO_TO_THE_31 <= offset < TWO_TO_THE_31
                else 0 <= offset < TWO_TO_THE_32)
  {
    var offset := OffsetFrom(dimLen, Values(ops, regs), 0);
    LowIs(offset);
    hide ExecAll, OffsetFrom, Values;
    if 0 <= offset < TWO_TO_THE_32 {
      LowSmall(offset);
    }
    assert -TWO_TO_THE_31 <= Wrap32(offset) < TWO_TO_THE_31;
    if -TWO_TO_THE_31 <= offset < TWO_TO_THE_31 {
      assert Wrap32(offset) == offset;
    }
  }

  /** `acceptGetElementPtrInst`: the instructions, and what is added to the base in the end. */
  method AcceptGetElementPtr(dimLen: seq<nat>, ops: seq<MOp>, next0: nat, signExtend: bool) returns (vec: seq<MInst>,
      target: Target, next: nat)
    requires 0 < |ops| <= |dimLen| && dimLen[|dimLen| - 1] == 1 && IndicesOk(ops, next0)
    ensures Addresses(dimLen, ops, next0, signExtend, vec, target)
    ensures next0 <= next && WritesNew(vec, next0, next)
    ensures target.BasePlus? && target.o.VReg? ==> target.o.r < next
    ensures (forall k :: 0 <= k < |ops| ==> ops[k].Imm?) ==> vec == []
  {
    vec, next := [], next0;
    var a := Constant(0);
    assert Accumulated(vec, a, next0, next, dimLen, ops, 0);
    hide *;
    for i := 0 to |ops|
      invariant Accumulated(vec, a, next0, next, dimLen, ops, i)
      invariant (forall k :: 0 <= k < i ==> ops[k].Imm?) ==> vec == [] && a.Constant?
    {
      vec, a, next := TakeIndex(dimLen, ops, i, vec, a, next0, next);
    }
    AccumulatedIs(vec, a, next0, next, dimLen, ops, |ops|);
    AccOkIs(a, next);
    if a.Constant? {
      target := if a.c == 0 then JustBase else BasePlus(Imm(a.c));
      forall regs: Regs, base: int | Clean(regs, next0)
        ensures Address(base, target, ExecAll(vec, regs)) == base
                + Added(signExtend, target, OffsetFrom(dimLen, Values(ops, regs), 0))
      {
        ConstantOffset(dimLen, ops, a.c, vec, next0, next, regs);
        AddressIs(base, target, ExecAll(vec, regs));
        AddedIs(signExtend, target, OffsetFrom(dimLen, Values(ops, regs), 0));
      }
      forall regs: Regs | Clean(regs, next0) ensures Unchanged(regs, ExecAll(vec, regs), next0) {
        HoldsUnchanged(vec, a, next0, next, regs, Horner(dimLen, Values(ops, regs), |ops|));
      }
    } else {
      ghost var vec1, next1 := vec, next;
      var x;
      vec, x, next := Materialize(a, vec, next0, next);
      forall regs: Regs | Clean(regs, next0)
        ensures var r := ExecAll(vec, regs);
                  0 <= r(x.r) < TWO_TO_THE_32 && r(x.r) == Low(OffsetFrom(dimLen, Values(ops, regs), 0))
        ensures Unchanged(regs, ExecAll(vec, regs), next0) && next0 <= next
      {
        assert Holds(vec1, a, next0, next1, regs, Horner(dimLen, Values(ops, regs), |ops|));
        RegisterOffset(dimLen, ops, x, vec, next0, next, regs);
        HoldsUnchanged(vec, Linear(None, x, None), next0, next, regs, Horner(dimLen, Values(ops, regs), |ops|));
      }
      target := BasePlus(x);
      ghost var vec2, next2 := vec, next;
      if signExtend {
        WritesMore(vec, MSXTW(x, next), next0, next);
        vec := vec + [MSXTW(x, next)];
        target := BasePlus(VReg(next));
        next := next + 1;
      }
      forall regs: Regs, base: int | Clean(regs, next0)
        ensures Address(base, target, ExecAll(vec, regs)) == base
                + Added(signExtend, target, OffsetFrom(dimLen, Values(ops, regs), 0))
      {
        AddedIs(signExtend, target, OffsetFrom(dimLen, Values(ops, regs), 0));
        AddressIs(base, target, ExecAll(vec, regs));
        Extended(x, next2, ExecAll(vec2, regs), OffsetFrom(dimLen, Values(ops, regs), 0));
        ExecMore(vec2, MSXTW(x, next2), regs);
      }
      forall regs: Regs | Clean(regs, next0) ensures Unchanged(regs, ExecAll(vec, regs), next0) {
        if signExtend { UnchangedMore(vec2, MSXTW(x, next2), next0, regs); }
      }
    }
    AddressesIs(dimLen, ops, next0, signExtend, vec, target);
  }

  lemma HoldsUnchanged(vec: seq<MInst>, a: Acc, next0: nat, next: nat, regs: Regs, value: int)
    requires Holds(vec, a, next0, next, regs, value)
    ensures Unchanged(regs, ExecAll(vec, regs), next0) && next0 <= next
  {
  }

  /** An instruction for a new register leaves the old ones alone. */
  lemma UnchangedMore(vec: seq<MInst>, i: MInst, next0: nat, regs: Regs)
    requires Unchanged(regs, ExecAll(vec, regs), next0) && next0 <= i.t
    ensures Unchanged(regs, ExecAll(vec + [i], regs), next0)
  {
    ExecMore(vec, i, regs);
    forall k: nat | k < next0 ensures Exec(i, ExecAll(vec, regs))(k) == ExecAll(vec, regs)(k) {
      OnlyTarget(i, ExecAll(vec, regs), k);
    }
    hide Exec, ExecAll;
  }

  lemma AddressesIs(dimLen: seq<nat>, ops: seq<MOp>, next0: nat, signExtend: bool, vec: seq<MInst>, target: Target)
    requires |ops| <= |dimLen|
    requires forall regs: Regs, base: int :: Clean(regs, next0) ==>
               var offset, address := OffsetFrom(dimLen, Values(ops, regs), 0), Address(base, target,
                   ExecAll(vec, regs));
               address == base + Added(signExtend, target, offset)
    requires forall regs: Regs :: Clean(regs, next0) ==> Unchanged(regs, ExecAll(vec, regs), next0)
    ensures Addresses(dimLen, ops, next0, signExtend, vec, target)
  {
  }

  lemma AddedIs(signExtend: bool, target: Target, offset: int)
    ensures Added(signExtend, target, offset) ==
            if signExtend && target.BasePlus? && target.o.VReg? then Wrap32(offset) else Low(offset)
  {
  }

  lemma AddressIs(base: int, t: Target, regs: Regs)
    ensures t.JustBase? ==> Address(base, t, regs) == base
    ensures t.BasePlus? && t.o.Imm? ==> Address(base, t, regs) == base + t.o.v
    ensures t.BasePlus? && t.o.VReg? ==> Address(base, t, regs) == base + regs(t.o.r)
  {
  }

  lemma Extended(x: MOp, t: nat, regs: Regs, offset: int)
    requires x.VReg? && regs(x.r) == Low(offset)
    ensures Exec(MSXTW(x, t), regs)(t) == Wrap32(offset)
  {
    var M := TWO_TO_THE_32;
    LowAdd(Low(offset), TWO_TO_THE_31, offset, TWO_TO_THE_31);
  }

  lemma ConstantOffset(dimLen: seq<nat>, ops: seq<MOp>, c: int, vec: seq<MInst>, next0: nat, next: nat, regs: Regs)
    requires 0 < |ops| <= |dimLen| && 0 <= c < TWO_TO_THE_32
    requires Holds(vec, Constant(c), next0, next, regs, Horner(dimLen, Values(ops, regs), |ops|))
    ensures c == Low(OffsetFrom(dimLen, Values(ops, regs), 0))
  {
    LowSmall(c);
    HornerTotal(dimLen, Values(ops, regs));
  }

  lemma RegisterOffset(dimLen: seq<nat>, ops: seq<MOp>, x: MOp, vec: seq<MInst>, next0: nat, next: nat, regs: Regs)
    requires 0 < |ops| <= |dimLen| && x.VReg? && x.r < next
    requires Holds(vec, Linear(None, x, None), next0, next, regs, Horner(dimLen, Values(ops, regs), |ops|))
    ensures var v := ExecAll(vec, regs)(x.r);
              0 <= v < TWO_TO_THE_32 && v == Low(OffsetFrom(dimLen, Values(ops, regs), 0))
  {
    var v := ExecAll(vec, regs)(x.r);
    assert AccValue(Linear(None, x, None), ExecAll(vec, regs)) == v && 0 <= v < TWO_TO_THE_32;
    hide Holds, Horner, OffsetFrom, ExecAll, Values;
    HornerTotal(dimLen, Values(ops, regs));
    LowSmall(v);
    HoldsLow(vec, Linear(None, x, None), next0, next, regs, Horner(dimLen, Values(ops, regs), |ops|));
  }

  lemma HoldsLow(vec: seq<MInst>, a: Acc, next0: nat, next: nat, regs: Regs, value: int)
    requires Holds(vec, a, next0, next, regs, value)
    ensures Low(AccValue(a, ExecAll(vec, regs))) == Low(value)
  {
  }

  // ----- The instruction that is lowered -----

  /** The strides of an address computation of the intermediate representation. */
  function StridesOf(dimLen: seq<nat>, n: nat): (r: seq<int>)
    requires n <= |dimLen|
    ensures |r| == n && forall i :: 0 <= i < n ==> r[i] == 4 * LengthsFrom(dimLen, i)
  {
    seq(n, i requires 0 <= i < n => 4 * LengthsFrom(dimLen, i))
  }

  /** The offset is the one the intermediate representation gives the instruction. */
  lemma {:induction false} OffsetIsGep(dimLen: seq<nat>, idx: seq<int>, vals: seq<Val>, i: nat)
    requires i <= |idx| == |vals| <= |dimLen| && forall k :: 0 <= k < |idx| ==> vals[k] == IntVal(idx[k])
    ensures Offset(StridesOf(dimLen, |idx|)[i..], vals[i..]) == OffsetFrom(dimLen, idx, i)
    decreases |idx| - i
  {
    var ss := StridesOf(dimLen, |idx|);
    if i < |idx| {
      OffsetIsGep(dimLen, idx, vals, i + 1);
      assert ss[i..][0] == ss[i] && vals[i..][0] == vals[i];
      assert ss[i..][1..] == ss[i + 1..] && vals[i..][1..] == vals[i + 1..];
      assert ss[i] * idx[i] == idx[i] * (4 * LengthsFrom(dimLen, i));
    }
  }
}
