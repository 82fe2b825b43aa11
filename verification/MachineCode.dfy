/** Machine instructions: operands and two lists of operand positions, the ones an instruction defines
    and the ones it uses.  What an instruction does is a parameter, so the results hold for every
    instruction set. */
module MachineCode {
  import IR

  datatype Operand = VReg(id: nat) | Frame(index: nat) | Other(n: int)

  /** The shapes whose `replace` shortens the list of used positions; `Branch` ends a block. */
  datatype Kind = Plain | Math | Compare | MultiplyAdd | Branch | LoadFrame | StoreFrame

  datatype Instr = Instr(kind: Kind, op: nat, operands: seq<Operand>, defs: seq<nat>, uses: seq<nat>)

  // ----- Construction -----

  function NewLoad(reg: nat, slot: nat): Instr {
    Instr(LoadFrame, 0, [VReg(reg), Frame(slot)], [0], [1])
  }

  function NewStore(reg: nat, slot: nat): Instr {
    Instr(StoreFrame, 0, [VReg(reg), Frame(slot)], [], [0, 1])
  }

  function NewMath(op: nat, l: Operand, r: Operand, t: Operand): Instr {
    Instr(Math, op, [t, l, r], [0], if l == r then [1] else [1, 2])
  }

  function NewCompare(op: nat, l: Operand, r: Operand): Instr {
    Instr(Compare, op, [l, r], [], if l == r then [0] else [0, 1])
  }

  function NewMultiplyAdd(op: nat, t: Operand, l: Operand, r: Operand, s: Operand): Instr {
    Instr(MultiplyAdd, op, [t, l, r, s], [0],
          [1] + (if r != l then [2] else []) + (if s != r && s != l then [3] else []))
  }

  /** The positions the instruction reads when it executes. */
  function Reads(i: Instr): seq<nat> {
    match i.kind
    case Math => [1, 2]
    case Compare => [0, 1]
    case MultiplyAdd => [1, 2, 3]
    case LoadFrame => [1]
    case StoreFrame => [0, 1]
    case _ => i.uses
  }

  /** The operand count and the lists of positions each kind of instruction can have. */
  predicate WellShaped(i: Instr) {
    && (forall k :: 0 <= k < |i.defs| ==> i.defs[k] < |i.operands|)
    && match i.kind
       case Plain => InRange(i)
       case Branch => InRange(i) && i.defs == []
       case Math => |i.operands| == 3 && i.defs == [0] && (i.uses == [1] || i.uses == [1, 2])
       case Compare => |i.operands| == 2 && i.defs == [] && (i.uses == [0] || i.uses == [0, 1])
       case MultiplyAdd => |i.operands| == 4 && i.defs == [0]
           && (i.uses == [1] || i.uses == [1, 2] || i.uses == [1, 3] || i.uses == [1, 2, 3])
       case LoadFrame => |i.operands| == 2 && i.defs == [0] && i.uses == [1]
       case StoreFrame => |i.operands| == 2 && i.defs == [] && (i.uses == [0] || i.uses == [0, 1])
  }

  predicate InRange(i: Instr) {
    forall k :: 0 <= k < |i.uses| ==> i.uses[k] < |i.operands|
  }

  predicate HaveUseOf(i: Instr, o: Operand)
    requires WellShaped(i)
  {
    exists k :: 0 <= k < |i.uses| && i.operands[i.uses[k]] == o
  }

  predicate HaveDefOf(i: Instr, o: Operand)
    requires WellShaped(i)
  {
    exists k :: 0 <= k < |i.defs| && i.operands[i.defs[k]] == o
  }

  /** Every register the instruction reads is among the operands it says it uses. */
  predicate Accounted(i: Instr)
    requires WellShaped(i)
  {
    forall k :: 0 <= k < |Reads(i)| ==> i.operands[Reads(i)[k]].VReg? ==> HaveUseOf(i, i.operands[Reads(i)[k]])
  }

  /** No operand is listed as used twice. */
  predicate Lean(i: Instr)
    requires WellShaped(i)
  {
    forall k, l :: 0 <= k < l < |i.uses| ==> Differ(i, i.uses[k], i.uses[l])
  }

  predicate Differ(i: Instr, p: nat, q: nat) {
    p < |i.operands| && q < |i.operands| && i.operands[p] != i.operands[q]
  }

  // ----- Replacing an operand -----

  function Substitute(os: seq<Operand>, from: Operand, to: Operand): (r: seq<Operand>)
    ensures |r| == |os|
    ensures forall k :: 0 <= k < |os| ==> r[k] == if os[k] == from then to else os[k]
  {
    seq(|os|, k requires 0 <= k < |os| => if os[k] == from then to else os[k])
  }

  /** The used positions left after the operands became `os`.  For a multiply-add the operands
      compared are the target and the factors, not the factors and the addend. */
  function Shortened(kind: Kind, os: seq<Operand>, uses: seq<nat>): seq<nat> {
    match kind
    case Math =>
      if |uses| == 2 && |os| == 3 && os[1] == os[2] then uses[..1] else uses
    case Compare =>
      if |uses| == 2 && |os| == 2 && os[0] == os[1] then uses[..1] else uses
    case StoreFrame =>
      if |uses| == 2 && |os| == 2 && os[0] == os[1] then uses[..1] else uses
    case MultiplyAdd =>
      if |os| != 4 || |uses| == 1 then uses
      else if |uses| == 2 then (if os[0] == os[1] then uses[..1] else uses)
      else if |uses| == 3 && os[0] == os[1] then [uses[0], uses[2]]
      else if |uses| == 3 && (os[0] == os[2] || os[1] == os[2]) then uses[..2]
      else uses
    case _ => uses
  }

  function Replace(i: Instr, from: Operand, to: Operand): Instr {
    var os := Substitute(i.operands, from, to);
    i.(operands := os, uses := Shortened(i.kind, os, i.uses))
  }

  // ----- Meaning -----

  type Value = int

  datatype Next = Continue | Goto(block: nat) | Stop

  datatype Effect<W> = Effect(outs: seq<IR.Option<Value>>, world: W, next: Next)

  /** What an instruction sees: its opcode, its operands with the registers blanked out and the
      values at the positions it reads. */
  datatype Machine<!W> = Machine(
    spilled: set<nat>,
    sem: (nat, seq<Operand>, seq<IR.Option<Value>>, W) -> Effect<W>)

  /** Virtual registers, the slots only spill code touches, and everything else. */
  datatype MState<W> = MState(regs: map<nat, Value>, slots: map<nat, Value>, world: W)

  function Lookup(m: map<nat, Value>, r: nat): IR.Option<Value> {
    if r in m then IR.Some(m[r]) else IR.None
  }

  function Assign(m: map<nat, Value>, r: nat, v: IR.Option<Value>): map<nat, Value> {
    if v.Some? then m[r := v.value] else m - {r}
  }

  function Blank(o: Operand): Operand {
    if o.VReg? then VReg(0) else o
  }

  function Shape(os: seq<Operand>): (r: seq<Operand>)
    ensures |r| == |os|
  {
    seq(|os|, k requires 0 <= k < |os| => Blank(os[k]))
  }

  function Input(o: Operand, regs: map<nat, Value>): IR.Option<Value> {
    if o.VReg? then Lookup(regs, o.id) else IR.None
  }

  function Inputs(i: Instr, regs: map<nat, Value>): (r: seq<IR.Option<Value>>)
    requires WellShaped(i)
    ensures |r| == |Reads(i)|
  {
    seq(|Reads(i)|, k requires 0 <= k < |Reads(i)| => Input(i.operands[Reads(i)[k]], regs))
  }

  function Out(outs: seq<IR.Option<Value>>, k: nat): IR.Option<Value> {
    if k < |outs| then outs[k] else IR.None
  }

  /** The registers after the first `n` definitions have been written. */
  function Written(i: Instr, outs: seq<IR.Option<Value>>, regs: map<nat, Value>, n: nat): map<nat, Value>
    requires WellShaped(i) && n <= |i.defs|
  {
    if n == 0 then regs
    else
      var before := Written(i, outs, regs, n - 1);
      var o := i.operands[i.defs[n - 1]];
      if o.VReg? then Assign(before, o.id, Out(outs, n - 1)) else before
  }

  predicate IsSlotLoad<W>(m: Machine<W>, i: Instr) {
    i.kind.LoadFrame? && |i.operands| == 2 && i.operands[0].VReg? && i.operands[1].Frame?
    && i.operands[1].index in m.spilled
  }

  predicate IsSlotStore<W>(m: Machine<W>, i: Instr) {
    i.kind.StoreFrame? && |i.operands| == 2 && i.operands[0].VReg? && i.operands[1].Frame?
    && i.operands[1].index in m.spilled
  }

  function Step<W>(m: Machine<W>, i: Instr, s: MState<W>): (MState<W>, Next)
    requires WellShaped(i)
  {
    if IsSlotLoad(m, i) then
      (s.(regs := Assign(s.regs, i.operands[0].id, Lookup(s.slots, i.operands[1].index))), Continue)
    else if IsSlotStore(m, i) then
      (s.(slots := Assign(s.slots, i.operands[1].index, Lookup(s.regs, i.operands[0].id))), Continue)
    else
      var e := m.sem(i.op, Shape(i.operands), Inputs(i, s.regs), s.world);
      (MState(Written(i, e.outs, s.regs, |i.defs|), s.slots, e.world), if i.kind.Branch? then e.next else Continue)
  }

  predicate AllShaped(code: seq<Instr>) {
    forall k :: 0 <= k < |code| ==> WellShaped(code[k])
  }

  function RunList<W>(m: Machine<W>, code: seq<Instr>, s: MState<W>): (MState<W>, Next)
    requires AllShaped(code)
  {
    if code == [] then (s, Continue)
    else
      var r := Step(m, code[0], s);
      if r.1.Continue? then RunList(m, code[1..], r.0) else r
  }

  predicate BlocksShaped(f: seq<seq<Instr>>) {
    forall b :: 0 <= b < |f| ==> AllShaped(f[b])
  }

  /** The blocks a run enters, with what the world looks like at the end of each. */
  function Run<W>(m: Machine<W>, f: seq<seq<Instr>>, b: nat, s: MState<W>, fuel: nat): seq<(nat, W, Next)>
    requires BlocksShaped(f)
    decreases fuel
  {
    if fuel == 0 || b >= |f| then []
    else
      var r := RunList(m, f[b], s);
      [(b, r.0.world, r.1)] + (if r.1.Goto? then Run(m, f, r.1.block, r.0, fuel - 1) else [])
  }
}
