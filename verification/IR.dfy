/** The intermediate representation the SSA passes work on, and its meaning.

    A function is a graph of basic blocks.  A block starts with phis, all read in parallel
    on the edge the run arrives by, continues with straight-line instructions and ends in one
    terminator.  Registers are instructions: a register is the value its defining instruction
    computed last.  A register that was never computed, or was computed from an undefined
    value, is undefined; a run is stuck only when undefined data decides something observable
    (a branch, a memory access, a call with effects, a returned value). */
module IR {

  datatype Option<+T> = None | Some(value: T)

  type Reg = nat
  type BlockId = nat
  type Slot = nat

  // ----- Values and pure operations -----

  datatype Val = IntVal(i: int) | BoolVal(b: bool)

  datatype Op = Add | Sub | Mul | Mull | SDiv | SRem | Shl | AShr | And
              | Lt | Le | Gt | Ge | Eq | Ne | Zext | Gep(strides: seq<int>)

  const TWO_TO_THE_31 := 0x8000_0000
  const TWO_TO_THE_32 := 0x1_0000_0000

  /** The 32-bit two's complement number congruent to `x`. */
  function Wrap32(x: int): int {
    (x + TWO_TO_THE_31) % TWO_TO_THE_32 - TWO_TO_THE_31
  }

  function Pow2(k: nat): (p: nat)
    ensures p >= 1
  {
    if k == 0 then 1 else 2 * Pow2(k - 1)
  }

  /** Division truncating toward zero. */
  function TruncDiv(x: int, y: int): int
    requires y != 0
  {
    if (x >= 0) == (y >= 0) then Abs(x) / Abs(y) else -(Abs(x) / Abs(y))
  }

  function Abs(x: int): nat {
    if x < 0 then -x else x
  }

  function TruncRem(x: int, y: int): int
    requires y != 0
  {
    x - y * TruncDiv(x, y)
  }

  /** Bitwise and of the lowest `bits` bits of two numbers in two's complement. */
  function BitAnd(x: int, y: int, bits: nat): nat
    decreases bits
  {
    if bits == 0 then 0
    else (x % 2) * (y % 2) + 2 * BitAnd(x / 2, y / 2, bits - 1)
  }

  function IntOp(op: Op, x: int, y: int): Option<Val> {
    match op
    case Add => Some(IntVal(Wrap32(x + y)))
    case Sub => Some(IntVal(Wrap32(x - y)))
    case Mul => Some(IntVal(Wrap32(x * y)))
    case Mull => Some(IntVal(Wrap32(x * y)))
    case SDiv => if y == 0 || (x == -TWO_TO_THE_31 && y == -1) then None else Some(IntVal(TruncDiv(x, y)))
    case SRem => if y == 0 || (x == -TWO_TO_THE_31 && y == -1) then None else Some(IntVal(TruncRem(x, y)))
    case Shl => if 0 <= y < 32 then Some(IntVal(Wrap32(x * Pow2(y)))) else None
    case AShr => if 0 <= y < 32 then Some(IntVal(x / Pow2(y))) else None
    case And => Some(IntVal(Wrap32(BitAnd(x, y, 32))))
    case Lt => Some(BoolVal(x < y))
    case Le => Some(BoolVal(x <= y))
    case Gt => Some(BoolVal(x > y))
    case Ge => Some(BoolVal(x >= y))
    case Eq => Some(BoolVal(x == y))
    case Ne => Some(BoolVal(x != y))
    case Zext => None
    case Gep(_) => None
  }

  /** The sum of the indices, each times its stride. */
  function Offset(strides: seq<int>, indices: seq<Val>): int
    requires |indices| == |strides| && forall k :: 0 <= k < |indices| ==> indices[k].IntVal?
  {
    if strides == [] then 0 else strides[0] * indices[0].i + Offset(strides[1..], indices[1..])
  }

  /** The value of an operation; nothing where the operation is undefined. */
  function Apply(op: Op, args: seq<Val>): Option<Val> {
    if op == Zext then
      if |args| == 1 && args[0].BoolVal? then Some(IntVal(if args[0].b then 1 else 0)) else None
    else if op.Gep? then
      if |args| == |op.strides| + 1 && forall k :: 0 <= k < |args| ==> args[k].IntVal? then
        Some(IntVal(args[0].i + Offset(op.strides, args[1..])))
      else None
    else if |args| == 2 && args[0].IntVal? && args[1].IntVal? then IntOp(op, args[0].i, args[1].i)
    else None
  }

  // ----- Syntax -----

  datatype Operand = Const(v: Val) | Reg(r: Reg)

  /** Where a load or store goes: a stack slot made by an alloca, or a computed address. */
  datatype Ptr = Local(slot: Slot) | Addr(a: Operand)

  datatype Instr =
    | Pure(dst: Reg, op: Op, args: seq<Operand>)
    | Load(dst: Reg, p: Ptr)
    | Store(value: Operand, p: Ptr)
    | Call(dst: Reg, callee: nat, args: seq<Operand>, effects: bool)
    | Alloca(slot: Slot, scalar: bool)

  datatype Phi = Phi(dst: Reg, pairs: seq<(Operand, BlockId)>)

  datatype Term = Br(target: BlockId) | CondBr(cond: Operand, ifTrue: BlockId,
      ifFalse: BlockId) | Ret(result: Option<Operand>)

  datatype Block = Block(phis: seq<Phi>, body: seq<Instr>, term: Term)

  datatype Function = Function(entry: BlockId, blocks: map<BlockId, Block>)

  function Defines(i: Instr): Option<Reg> {
    match i
    case Pure(d, _, _) => Some(d)
    case Load(d, _) => Some(d)
    case Call(d, _, _, _) => Some(d)
    case Store(_, _) => None
    case Alloca(_, _) => None
  }

  function PtrOperands(p: Ptr): seq<Operand> {
    if p.Addr? then [p.a] else []
  }

  function Operands(i: Instr): seq<Operand> {
    match i
    case Pure(_, _, args) => args
    case Load(_, p) => PtrOperands(p)
    case Store(v, p) => [v] + PtrOperands(p)
    case Call(_, _, args, _) => args
    case Alloca(_, _) => []
  }

  function TermOperands(t: Term): seq<Operand> {
    match t
    case Br(_) => []
    case CondBr(c, _, _) => [c]
    case Ret(r) => if r.Some? then [r.value] else []
  }

  function Successors(t: Term): seq<BlockId> {
    match t
    case Br(b) => [b]
    case CondBr(_, x, y) => if x == y then [x] else [x, y]
    case Ret(_) => []
  }

  function PhiOperands(p: Phi): seq<Operand> {
    seq(|p.pairs|, k requires 0 <= k < |p.pairs| => p.pairs[k].0)
  }

  /** An instruction of a function, by position. */
  datatype Ref = PhiRef(b: BlockId, k: nat) | BodyRef(b: BlockId, k: nat) | TermRef(b: BlockId)

  predicate IsRef(f: Function, x: Ref) {
    && x.b in f.blocks
    && (x.PhiRef? ==> x.k < |f.blocks[x.b].phis|)
    && (x.BodyRef? ==> x.k < |f.blocks[x.b].body|)
  }

  function AllRefs(f: Function): set<Ref> {
    (set b, k | b in f.blocks.Keys && 0 <= k < |f.blocks[b].phis| :: PhiRef(b, k))
    + (set b, k | b in f.blocks.Keys && 0 <= k < |f.blocks[b].body| :: BodyRef(b, k))
    + (set b | b in f.blocks.Keys :: TermRef(b))
  }

  lemma AllRefsExact(f: Function, x: Ref)
    ensures x in AllRefs(f) <==> IsRef(f, x)
  {
  }

  function RefDefines(f: Function, x: Ref): Option<Reg>
    requires IsRef(f, x)
  {
    match x
    case PhiRef(b, k) => Some(f.blocks[b].phis[k].dst)
    case BodyRef(b, k) => Defines(f.blocks[b].body[k])
    case TermRef(_) => None
  }

  function RefOperands(f: Function, x: Ref): seq<Operand>
    requires IsRef(f, x)
  {
    match x
    case PhiRef(b, k) => PhiOperands(f.blocks[b].phis[k])
    case BodyRef(b, k) => Operands(f.blocks[b].body[k])
    case TermRef(b) => TermOperands(f.blocks[b].term)
  }

  /** Static single assignment: no two instructions define the same register. */
  ghost predicate SingleAssignment(f: Function) {
    forall x, y :: IsRef(f, x) && IsRef(f, y) && RefDefines(f, x).Some? && RefDefines(f, x) == RefDefines(f, y)
        ==> x == y
  }

  /** The entry block and all targets of terminators are blocks of the function. */
  ghost predicate TargetsExist(f: Function) {
    && f.entry in f.blocks
    && forall b, x :: b in f.blocks && x in Successors(f.blocks[b].term) ==> x in f.blocks
  }

  // ----- Meaning -----

  type Env = Reg -> Option<Val>
  type Slots = Slot -> Option<Val>
  type Heap = map<int, Val>

  datatype Event = StoreEvent(addr: int, v: Val) | CallEvent(callee: nat, args: seq<Val>)

  datatype State = State(env: Env, slots: Slots, heap: Heap, trace: seq<Event>)

  /** What a callee returns and leaves in memory; callees without effects leave memory alone. */
  type Oracle = (nat, seq<Val>, Heap) -> (Val, Heap)

  ghost function Read(o: Operand, env: Env): Option<Val> {
    match o
    case Const(v) => Some(v)
    case Reg(r) => env(r)
  }

  ghost function ReadAll(os: seq<Operand>, env: Env): Option<seq<Val>> {
    if forall k :: 0 <= k < |os| ==> Read(os[k], env).Some? then
      Some(seq(|os|, k requires 0 <= k < |os| && Read(os[k], env).Some? => Read(os[k], env).value))
    else None
  }

  ghost function SetReg(env: Env, r: Reg, v: Option<Val>): Env {
    (x: nat) => if x == r then v else env(x)
  }

  ghost function HeapAt(h: Heap, a: int): Option<Val> {
    if a in h then Some(h[a]) else None
  }

  ghost function ApplyTo(op: Op, args: Option<seq<Val>>): Option<Val> {
    if args.Some? then Apply(op, args.value) else None
  }

  /** One instruction; nothing when it is stuck. */
  ghost function ExecInstr(w: Oracle, i: Instr, s: State): Option<State> {
    match i
    case Pure(d, op, args) => Some(s.(env := SetReg(s.env, d, ApplyTo(op, ReadAll(args, s.env)))))
    case Load(d, Local(v)) => Some(s.(env := SetReg(s.env, d, s.slots(v))))
    case Load(d, Addr(a)) =>
      var addr := Read(a, s.env);
      if addr.Some? && addr.value.IntVal? then Some(s.(env := SetReg(s.env, d, HeapAt(s.heap, addr.value.i)))) else None
    case Store(x, Local(v)) => Some(s.(slots := SetReg(s.slots, v, Read(x, s.env))))
    case Store(x, Addr(a)) =>
      var addr, v := Read(a, s.env), Read(x, s.env);
      if addr.Some? && addr.value.IntVal? && v.Some? then
        Some(s.(heap := s.heap[addr.value.i := v.value], trace := s.trace + [StoreEvent(addr.value.i, v.value)]))
      else None
    case Call(d, callee, args, effects) =>
      var vs := ReadAll(args, s.env);
      if !effects then
        Some(s.(env := SetReg(s.env, d, if vs.Some? then Some(w(callee, vs.value, s.heap).0) else None)))
      else if vs.Some? then
        var (v, h) := w(callee, vs.value, s.heap);
        Some(State(SetReg(s.env, d, Some(v)), s.slots, h, s.trace + [CallEvent(callee, vs.value)]))
      else None
    case Alloca(_, _) => Some(s)
  }

  ghost function ExecBody(w: Oracle, body: seq<Instr>, s: State): Option<State> {
    if body == [] then Some(s)
    else
      var s1 := ExecInstr(w, body[0], s);
      if s1.Some? then ExecBody(w, body[1..], s1.value) else None
  }

  /** The operand a phi takes when its block is entered from `from`. */
  function PhiChoice(pairs: seq<(Operand, BlockId)>, from: BlockId): Option<Operand> {
    if pairs == [] then None
    else if pairs[0].1 == from then Some(pairs[0].0)
    else PhiChoice(pairs[1..], from)
  }

  ghost function PhiValue(p: Phi, from: BlockId, env: Env): Option<Val> {
    var o := PhiChoice(p.pairs, from);
    if o.Some? then Read(o.value, env) else None
  }

  function FindPhi(phis: seq<Phi>, r: Reg): Option<Phi> {
    if phis == [] then None
    else if phis[0].dst == r then Some(phis[0])
    else FindPhi(phis[1..], r)
  }

  /** All phis of a block read their operands before any of them is written. */
  ghost function EnterEnv(phis: seq<Phi>, from: BlockId, env: Env): Env {
    (r: nat) =>
      var p := FindPhi(phis, r);
      if p.Some? then PhiValue(p.value, from, env) else env(r)
  }

  /** A run is about to take the edge `from -> b`, has returned, or is stuck. */
  datatype Config = Edge(from: BlockId, b: BlockId, s: State) | Done(result: Option<Val>, s: State) | Stuck

  ghost function Leave(t: Term, b: BlockId, s: State): Config {
    match t
    case Br(x) => Edge(b, x, s)
    case CondBr(c, x, y) =>
      var v := Read(c, s.env);
      if v.Some? && v.value.BoolVal? then Edge(b, if v.value.b then x else y, s) else Stuck
    case Ret(None) => Done(None, s)
    case Ret(Some(o)) =>
      var v := Read(o, s.env);
      if v.Some? then Done(v, s) else Stuck
  }

  /** Taking an edge: the phis of the target, its body, its terminator. */
  ghost function Step(w: Oracle, f: Function, c: Config): Config {
    match c
    case Edge(from, b, s) =>
      if b !in f.blocks then Stuck
      else
        var blk := f.blocks[b];
        var s1 := ExecBody(w, blk.body, s.(env := EnterEnv(blk.phis, from, s.env)));
        if s1.Some? then Leave(blk.term, b, s1.value) else Stuck
    case Done(_, _) => c
    case Stuck => c
  }

  ghost function Run(w: Oracle, f: Function, n: nat, c: Config): Config {
    if n == 0 then c else Step(w, f, Run(w, f, n - 1, c))
  }

  /** What can be seen of a run: the edges it takes, its memory, its trace, its result. */
  ghost predicate SameSeen(c: Config, d: Config) {
    match c
    case Edge(from, b, s) => d.Edge? && d.from == from && d.b == b && s.heap == d.s.heap && s.trace == d.s.trace
    case Done(r, s) => d.Done? && d.result == r && s.heap == d.s.heap && s.trace == d.s.trace
    case Stuck => d.Stuck?
  }

  /** The same, while the first run is not stuck. */
  ghost predicate SeenKept(c: Config, d: Config) {
    c.Stuck? || SameSeen(c, d)
  }

  lemma StepStays(w: Oracle, f: Function, c: Config)
    requires !c.Edge?
    ensures Step(w, f, c) == c
  {
  }

  // ----- Facts about reading -----

  lemma {:induction false} FindPhiIn(phis: seq<Phi>, r: Reg)
    ensures FindPhi(phis, r).Some? ==> exists k ::
              0 <= k < |phis| && phis[k] == FindPhi(phis, r).value && phis[k].dst == r
    ensures FindPhi(phis, r).None? ==> forall k :: 0 <= k < |phis| ==> phis[k].dst != r
  {
    if phis != [] && phis[0].dst != r {
      FindPhiIn(phis[1..], r);
      if FindPhi(phis[1..], r).Some? {
        var k :| 0 <= k < |phis[1..]| && phis[1..][k] == FindPhi(phis[1..], r).value;
        assert phis[k + 1] == phis[1..][k];
      } else {
        forall k | 0 <= k < |phis| ensures phis[k].dst != r {
          if k > 0 { assert phis[k] == phis[1..][k - 1]; }
        }
      }
    }
  }

  lemma {:induction false} PhiChoiceIn(pairs: seq<(Operand, BlockId)>, from: BlockId)
    ensures PhiChoice(pairs, from).Some? ==>
              exists k :: 0 <= k < |pairs| && pairs[k].1 == from && pairs[k].0 == PhiChoice(pairs, from).value
    ensures PhiChoice(pairs, from).None? <==> forall k :: 0 <= k < |pairs| ==> pairs[k].1 != from
  {
    if pairs != [] && pairs[0].1 != from {
      PhiChoiceIn(pairs[1..], from);
      forall k | 0 < k < |pairs| ensures pairs[k] == pairs[1..][k - 1] {}
      if PhiChoice(pairs[1..], from).Some? {
        var k :| 0 <= k < |pairs[1..]| && pairs[1..][k].1 == from
            && pairs[1..][k].0 == PhiChoice(pairs[1..], from).value;
        assert pairs[k + 1] == pairs[1..][k];
      }
    }
  }
}
