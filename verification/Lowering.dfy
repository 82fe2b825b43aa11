/** Lowering the syntax tree to blocks: what the visitor builds, as functions of what was built before. */
module Lowering {
  import opened IR
  import A = Ast
  import opened Builder

  // ----- Expressions -----

  function OpOf(op: A.MathOp): Op {
    match op
    case ADD => Op.Add
    case SUB => Op.Sub
    case MUL => Op.Mul
    case DIV => Op.SDiv
    case MOD => Op.SRem
  }

  function RelOf(op: A.RelOp): Op {
    match op
    case LT => Op.Lt
    case GT => Op.Gt
    case LE => Op.Le
    case GE => Op.Ge
  }

  /** The number of elements. */
  function Product(dims: seq<nat>): nat {
    if dims == [] then 1 else dims[0] * Product(dims[1..])
  }

  /** The distance in bytes between neighbours in each dimension. */
  function Strides(dims: seq<nat>): seq<int> {
    if dims == [] then [] else [4 * Product(dims[1..])] + Strides(dims[1..])
  }

  /** The strides of an access: through the array as a whole for an array, into it for a parameter. */
  function AccessStrides(x: A.Var, n: nat): seq<int>
    requires !x.Scalar?
  {
    var inner := Strides(x.dims);
    var used := if n <= |inner| then inner[..n] else inner;
    if x.Array? then [4 * Product(x.dims)] + used else used
  }

  function BaseOperand(x: A.Var, d: Reg): Operand
    requires !x.Scalar?
  {
    if x.Array? then Const(IntVal(x.base)) else Reg(d)
  }

  function AccessOperands(x: A.Var, d: Reg, os: seq<Operand>): seq<Operand>
    requires !x.Scalar?
  {
    if x.Array? then [Const(IntVal(x.base)), Const(IntVal(0))] + os else [Reg(d)] + os
  }

  /** The value of an expression and what was built for it. */
  function LowerExp(e: A.Exp, s: Build): (Build, Operand)
    decreases e, 0
  {
    match e
    case Num(i) => (s, Const(IntVal(i)))
    case RVal(x, idx) =>
      if x.Scalar? then (Define(s, Load(s.nextReg, Local(x.slot))), Reg(s.nextReg))
      else
        var (t, p) := LowerPointer(x, idx, s);
        if |idx| != |x.dims| then (t, p) else (Define(t, Load(t.nextReg, Addr(p))), Reg(t.nextReg))
    case Math(op, l, r) =>
      var (t, x) := LowerExp(l, s);
      var (u, y) := LowerExp(r, t);
      (Define(u, Pure(u.nextReg, OpOf(op), [x, y])), Reg(u.nextReg))
    case Neg(a) =>
      var (t, x) := LowerExp(a, s);
      (Define(t, Pure(t.nextReg, Sub, [Const(IntVal(0)), x])), Reg(t.nextReg))
    case Invoke(callee, args) =>
      var (t, os) := LowerExps(args, s);
      (Define(t, Call(t.nextReg, callee, os, true)), Reg(t.nextReg))
    case FromBool(c) =>
      var bbt, bbf := s.nextBlock, s.nextBlock + 1;
      var t := LowerCond(c, Create(Create(s)), bbt, bbf);
      var u := MoveTo(Branch(MoveTo(t, bbt), bbf), bbf);
      (AddPhi(u, CastPairs(Preds(t, bbf), bbt)), Reg(u.nextReg))
  }

  /** Zero from every block the condition was false in, one from `bbt`. */
  function CastPairs(preds: seq<BlockId>, bbt: BlockId): seq<(Operand, BlockId)> {
    if preds == [] then [(Const(IntVal(1)), bbt)] else [(Const(IntVal(0)), preds[0])] + CastPairs(preds[1..], bbt)
  }

  function LowerExps(es: seq<A.Exp>, s: Build): (Build, seq<Operand>)
    decreases es, 0
  {
    if es == [] then (s, [])
    else
      var (t, o) := LowerExp(es[0], s);
      var (u, os) := LowerExps(es[1..], t);
      (u, [o] + os)
  }

  /** The address of an array, a sub-array or an element. */
  function LowerPointer(x: A.Var, idx: seq<A.Exp>, s: Build): (Build, Operand)
    requires !x.Scalar?
    decreases idx, 1
  {
    var s1 := if x.Array? then s else Define(s, Load(s.nextReg, Local(x.slot)));
    var (t, os) := LowerExps(idx, s1);
    if idx == [] then (t, BaseOperand(x, s.nextReg))
    else (Define(t, Pure(t.nextReg, Gep(AccessStrides(x, |idx|)), AccessOperands(x, s.nextReg, os))), Reg(t.nextReg))
  }

  // ----- Conditions -----

  function Compare(op: Op, x: Operand, y: Operand, s: Build, bbt: BlockId, bbf: BlockId): Build {
    CondBranch(Define(s, Pure(s.nextReg, op, [x, y])), Reg(s.nextReg), bbt, bbf)
  }

  /** Jumps to `bbt` or `bbf`. */
  function LowerCond(c: A.Cond, s: Build, bbt: BlockId, bbf: BlockId): Build
    decreases c, 0
  {
    match c
    case Truth(b) => Branch(s, if b then bbt else bbf)
    case NonZero(e) =>
      var (t, x) := LowerExp(e, s);
      Compare(Ne, x, Const(IntVal(0)), t, bbt, bbf)
    case Logic(isOr, cs) => LowerLogic(isOr, cs, s, bbt, bbf)
    case Equal(same, l, r) =>
      var (t, x) := LowerExp(l, s);
      var (u, y) := LowerExp(r, t);
      Compare(if same then Eq else Ne, x, y, u, bbt, bbf)
    case Relation(op, l, r) =>
      var (t, x) := LowerExp(l, s);
      var (u, y) := LowerExp(r, t);
      Compare(RelOf(op), x, y, u, bbt, bbf)
    case Not(a) => LowerCond(a, s, bbf, bbt)
  }

  /** Every operand but the last gets a block to go on in when it does not decide. */
  function LowerLogic(isOr: bool, cs: seq<A.Cond>, s: Build, bbt: BlockId, bbf: BlockId): Build
    decreases cs, 0
  {
    if cs == [] then s
    else if |cs| == 1 then LowerCond(cs[0], s, bbt, bbf)
    else
      var rhs := s.nextBlock;
      var t := LowerCond(cs[0], Create(s), if isOr then bbt else rhs, if isOr then rhs else bbf);
      LowerLogic(isOr, cs[1..], MoveTo(t, rhs), bbt, bbf)
  }

  // ----- Statements -----

  /** Where break and continue go. */
  datatype Loop = Loop(next: BlockId, cond: BlockId)

  function LowerAssign(x: A.Var, idx: seq<A.Exp>, e: A.Exp, s: Build): Build {
    if x.Scalar? then
      var (t, o) := LowerExp(e, s);
      Emit(t, Store(o, Local(x.slot)))
    else
      var (t, p) := LowerPointer(x, idx, s);
      var (u, o) := LowerExp(e, t);
      Emit(u, Store(o, Addr(p)))
  }

  /** Goes on in `b` unless control has already gone elsewhere. */
  function Join(s: Build, b: BlockId): Build {
    if Open(s) then Branch(s, b) else s
  }

  /** Both arms meet in `bb`, unless neither gets there. */
  function Meet(v: Build, bb: BlockId): Build {
    if Preds(v, bb) == [] then Remove(v, bb) else MoveTo(v, bb)
  }

  function LowerStmt(st: A.Stmt, s: Build, loops: seq<Loop>): Build
    decreases st, 0
  {
    match st
    case Assign(x, idx, e) => LowerAssign(x, idx, e, s)
    case Declare(v, None) => s
    case Declare(v, Some(e)) => LowerAssign(A.Scalar(v), [], e, s)
    case If(c, yes, no) =>
      if no == [] then
        var bbt, bbf := s.nextBlock, s.nextBlock + 1;
        var t := LowerCond(c, Create(Create(s)), bbt, bbf);
        MoveTo(Join(LowerStmts(yes, MoveTo(t, bbt), loops), bbf), bbf)
      else
        var bbt, bbf, bb := s.nextBlock, s.nextBlock + 1, s.nextBlock + 2;
        var t := LowerCond(c, Create(Create(Create(s))), bbt, bbf);
        var u := Join(LowerStmts(yes, MoveTo(t, bbt), loops), bb);
        var v := Join(LowerStmts(no, MoveTo(u, bbf), loops), bb);
        Meet(v, bb)
    case While(c, body) =>
      var cond, next, enter := s.nextBlock, s.nextBlock + 1, s.nextBlock + 2;
      if body == [] then
        var t := MoveTo(Branch(Create(Create(s)), cond), cond);
        MoveTo(LowerCond(c, t, cond, next), next)
      else
        var t := MoveTo(Branch(Create(Create(Create(s))), cond), cond);
        var u := MoveTo(LowerCond(c, t, enter, next), enter);
        MoveTo(Join(LowerStmts(body, u, loops + [Loop(next, cond)]), cond), next)
    case Break => if loops == [] then s else Branch(s, loops[|loops| - 1].next)
    case Continue => if loops == [] then s else Branch(s, loops[|loops| - 1].cond)
    case Return(None) => Exit(s, None)
    case Return(Some(e)) =>
      var (t, o) := LowerExp(e, s);
      Exit(t, Some(o))
    case Scope(ss) => LowerStmts(ss, s, loops)
    case ExpStmt(e) => LowerExp(e, s).0
    case CondStmt(c) =>
      var bb := s.nextBlock;
      MoveTo(LowerCond(c, Create(s), bb, bb), bb)
  }

  /** Nothing is built for what follows a statement that does not go on. */
  function LowerStmts(ss: seq<A.Stmt>, s: Build, loops: seq<Loop>): Build
    decreases ss, 0
  {
    if ss == [] then s
    else
      var t := LowerStmt(ss[0], s, loops);
      if !Open(t) then t else LowerStmts(ss[1..], t, loops)
  }

  // ----- What is built is well formed -----

  ghost predicate Ready(s: Build) {
    Valid(s) && Open(s)
  }

  ghost predicate OperandOk(o: Operand, s: Build) {
    o.Reg? ==> o.r < s.nextReg
  }

  /** An expression ends in an open block, with its value in an old register. */
  ghost predicate ExpBuilt(s: Build, t: Build) {
    Ready(t) && Grown(s, t, {})
  }

  /** A condition ends in a terminated block. */
  ghost predicate CondBuilt(s: Build, t: Build) {
    Valid(t) && Grown(s, t, {}) && !Open(t)
  }

  ghost predicate StmtBuilt(s: Build, t: Build) {
    Valid(t) && Grown(s, t, {})
  }

  lemma GrownSeq(s: Build, t: Build, u: Build)
    requires Grown(s, t, {}) && Grown(t, u, {})
    ensures Grown(s, u, {})
  {
    GrownTrans(s, t, u, {}, {});
    var none: set<BlockId> := {};
    assert none + none == none;
  }

  /** `t` continues `s` while the blocks in `pend` wait. */
  lemma GrownPend(s: Build, t: Build, u: Build, pend: set<BlockId>)
    requires Grown(s, t, pend) && Grown(t, u, {})
    ensures Grown(s, u, pend)
  {
    GrownTrans(s, t, u, pend, {});
    var none: set<BlockId> := {};
    assert pend + none == pend;
  }

  lemma DefineBuilt(s: Build, t: Build, i: Instr)
    requires ExpBuilt(s, t)
    ensures ExpBuilt(s, Define(t, i)) && ExpBuilt(t, Define(t, i)) && OperandOk(Reg(t.nextReg), Define(t, i))
  {
    hide Valid, Grown;
    EmitGrown(t, i);
    GrownSeq(s, t, Define(t, i));
  }

  lemma BuiltSeq(s: Build, t: Build, u: Build)
    requires ExpBuilt(s, t) && ExpBuilt(t, u)
    ensures ExpBuilt(s, u) && t.nextReg <= u.nextReg
  {
    GrownSeq(s, t, u);
  }

  lemma BuiltSelf(s: Build)
    requires Ready(s)
    ensures ExpBuilt(s, s)
  {
    GrownSelf(s);
  }

  lemma {:induction false} ExpGrows(e: A.Exp, s: Build)
    requires Ready(s) && A.ProperExp(e)
    ensures ExpBuilt(s, LowerExp(e, s).0) && OperandOk(LowerExp(e, s).1, LowerExp(e, s).0)
    decreases e, 0
  {
    hide Ready, ExpBuilt, Define;
    BuiltSelf(s);
    match e
    case Num(_) =>
    case RVal(x, idx) =>
      if x.Scalar? {
        DefineBuilt(s, s, Load(s.nextReg, Local(x.slot)));
      } else {
        PointerGrows(x, idx, s);
        var (t, p) := LowerPointer(x, idx, s);
        DefineBuilt(s, t, Load(t.nextReg, Addr(p)));
      }
    case Math(op, l, r) =>
      ExpGrows(l, s);
      var (t, x) := LowerExp(l, s);
      BuiltReady(s, t);
      ExpGrows(r, t);
      var (u, y) := LowerExp(r, t);
      BuiltSeq(s, t, u);
      DefineBuilt(s, u, Pure(u.nextReg, OpOf(op), [x, y]));
    case Neg(a) =>
      ExpGrows(a, s);
      var (t, x) := LowerExp(a, s);
      DefineBuilt(s, t, Pure(t.nextReg, Sub, [Const(IntVal(0)), x]));
    case Invoke(callee, args) =>
      ExpsGrow(args, s);
      var (t, os) := LowerExps(args, s);
      DefineBuilt(s, t, Call(t.nextReg, callee, os, true));
    case FromBool(c) =>
      CastGrows(c, s);
  }

  lemma BuiltReady(s: Build, t: Build)
    requires ExpBuilt(s, t)
    ensures Ready(t)
  {
  }

  lemma {:induction false} ExpsGrow(es: seq<A.Exp>, s: Build)
    requires Ready(s) && A.ProperExps(es)
    ensures ExpBuilt(s, LowerExps(es, s).0) && |LowerExps(es, s).1| == |es|
    ensures forall k :: 0 <= k < |es| ==> OperandOk(LowerExps(es, s).1[k], LowerExps(es, s).0)
    decreases es, 0
  {
    hide Ready, ExpBuilt;
    BuiltSelf(s);
    if es != [] {
      ExpGrows(es[0], s);
      var (t, o) := LowerExp(es[0], s);
      BuiltReady(s, t);
      ExpsGrow(es[1..], t);
      BuiltSeq(s, t, LowerExps(es[1..], t).0);
    }
  }

  lemma {:induction false} PointerGrows(x: A.Var, idx: seq<A.Exp>, s: Build)
    requires Ready(s) && !x.Scalar? && A.ProperExps(idx)
    ensures ExpBuilt(s, LowerPointer(x, idx, s).0) && OperandOk(LowerPointer(x, idx, s).1, LowerPointer(x, idx, s).0)
    decreases idx, 1
  {
    hide Ready, ExpBuilt;
    BuiltSelf(s);
    var s1 := if x.Array? then s else Define(s, Load(s.nextReg, Local(x.slot)));
    if x.ArrayParam? {
      DefineBuilt(s, s, Load(s.nextReg, Local(x.slot)));
    }
    BuiltReady(s, s1);
    ExpsGrow(idx, s1);
    var (t, os) := LowerExps(idx, s1);
    BuiltSeq(s, s1, t);
    if idx != [] {
      DefineBuilt(s, t, Pure(t.nextReg, Gep(AccessStrides(x, |idx|)), AccessOperands(x, s.nextReg, os)));
    }
  }

  /** The blocks of a cast: what the condition built ends in `t`; the block of true comes next, then the
      block both meet in. */
  ghost predicate CastMoves(s: Build, t: Build, u: Build) {
    var bbt, bbf := s.nextBlock, s.nextBlock + 1;
    && Ready(MoveTo(t, bbt)) && u == MoveTo(Branch(MoveTo(t, bbt), bbf), bbf) && Ready(u) && Grown(s, u, {})
    && bbf !in s.blocks && t.cur in t.blocks && t.cur != bbt && t.cur != bbf && EdgeIn(u, bbt, bbf)
    && bbt in t.blocks && t.blocks[bbt] == EMPTY && u.blocks[bbf] == EMPTY && t.nextReg == u.nextReg
  }

  lemma CastStates(s: Build, t: Build)
    requires Ready(s) && CondBuilt(Create(Create(s)), t)
    ensures CastMoves(s, t, MoveTo(Branch(MoveTo(t, s.nextBlock), s.nextBlock + 1), s.nextBlock + 1))
  {
    hide Valid, Create, Branch, MoveTo, Grown, EdgeIn;
    var bbt, bbf := s.nextBlock, s.nextBlock + 1;
    TwoCreated(s);
    var s2 := Create(Create(s));
    GrownPend(s, s2, t, {bbt, bbf});
    GrownCur(s, t, {bbt, bbf});
    MoveGrown(s, t, {bbt, bbf}, bbt);
    CastStart(s, t);
    var t1 := MoveTo(t, bbt);
    BranchGrown(t1, bbf);
    var u := Branch(t1, bbf);
    GrownPend(s, t1, u, {bbf});
    CastEnd(s, t1, u);
  }

  lemma GrownCur(s: Build, t: Build, pend: set<BlockId>)
    requires Grown(s, t, pend)
    ensures t.cur in t.blocks && s.cur in s.blocks && s.nextReg <= t.nextReg && s.nextBlock <= t.nextBlock
    ensures forall b :: b in s.blocks ==> b in t.blocks
    ensures forall b :: b in pend ==> b in t.blocks && t.blocks[b] == EMPTY && b !in s.blocks && b != t.cur
  {
  }

  lemma CastStart(s: Build, t: Build)
    requires Grown(s, t, {s.nextBlock, s.nextBlock + 1})
             && Grown(s, MoveTo(t, s.nextBlock), {s.nextBlock, s.nextBlock + 1} - {s.nextBlock})
    ensures var t1 := MoveTo(t, s.nextBlock);
            && t1.cur == s.nextBlock && t1.nextReg == t.nextReg && t1.blocks == t.blocks
            && Grown(s, t1, {s.nextBlock + 1}) && s.nextBlock + 1 in t1.blocks && s.nextBlock in t.blocks
            && t.blocks[s.nextBlock] == EMPTY && t1.blocks[s.nextBlock + 1] == EMPTY
            && t.cur in t.blocks && t.cur != s.nextBlock && t.cur != s.nextBlock + 1
  {
    assert {s.nextBlock, s.nextBlock + 1} - {s.nextBlock} == {s.nextBlock + 1};
  }

  lemma CastEnd(s: Build, t1: Build, u: Build)
    requires Valid(u) && Grown(s, u, {s.nextBlock + 1}) && u.cur == t1.cur && u.blocks[u.cur].term.Some?
             && u.nextReg == t1.nextReg
    requires EdgeIn(u, t1.cur, s.nextBlock + 1)
    ensures var v := MoveTo(u, s.nextBlock + 1);
            && Ready(v) && Grown(s, v, {}) && v.blocks[s.nextBlock + 1] == EMPTY && EdgeIn(v, t1.cur, s.nextBlock + 1)
            && v.nextReg == u.nextReg && s.nextBlock + 1 !in s.blocks
  {
    MoveGrown(s, u, {s.nextBlock + 1}, s.nextBlock + 1);
    assert {s.nextBlock + 1} - {s.nextBlock + 1} == {};
  }

  lemma CreatedMore(s: Build, t: Build, pend: set<BlockId>)
    requires Ready(t) && Grown(s, t, pend)
    ensures var u := Create(t);
            && Ready(u) && Grown(s, u, pend + {t.nextBlock}) && u.cur == t.cur && u.blocks[t.cur] == t.blocks[t.cur]
            && t.nextBlock in u.blocks && t.nextBlock !in s.blocks && u.nextBlock == t.nextBlock + 1
            && forall b :: b in t.blocks ==> b in u.blocks
  {
    CreateGrown(t);
    GrownTrans(s, t, Create(t), pend, {t.nextBlock});
  }

  lemma TwoCreated(s: Build)
    requires Ready(s)
    ensures var t := Create(Create(s));
            && Ready(t) && Grown(s, t, {s.nextBlock, s.nextBlock + 1}) && t.cur == s.cur && t.cur in t.blocks
                && Here(t) == Here(s)
            && s.nextBlock in t.blocks && s.nextBlock + 1 in t.blocks && s.nextBlock !in s.blocks
                && s.nextBlock + 1 !in s.blocks
  {
    hide Grown, Create;
    GrownSelf(s);
    CreatedMore(s, s, {});
    CreatedMore(s, Create(s), {} + {s.nextBlock});
    assert {} + {s.nextBlock} + {s.nextBlock + 1} == {s.nextBlock, s.nextBlock + 1};
  }

  lemma ThreeCreated(s: Build)
    requires Ready(s)
    ensures var t := Create(Create(Create(s)));
            && Ready(t) && Grown(s, t, {s.nextBlock, s.nextBlock + 1, s.nextBlock + 2})
            && t.cur == s.cur && t.cur in t.blocks && Here(t) == Here(s)
            && (forall k :: s.nextBlock <= k < s.nextBlock + 3 ==> k in t.blocks && k !in s.blocks)
  {
    hide Grown, Create;
    TwoCreated(s);
    var two := {s.nextBlock, s.nextBlock + 1};
    TwoMore(s);
    CreatedMore(s, Create(Create(s)), two);
    assert two + {s.nextBlock + 2} == {s.nextBlock, s.nextBlock + 1, s.nextBlock + 2};
  }

  lemma TwoMore(s: Build)
    ensures Create(Create(s)).nextBlock == s.nextBlock + 2
  {
  }

  lemma CastEnds(s: Build, t: Build, u: Build, pairs: seq<(Operand, BlockId)>)
    requires CastMoves(s, t, u)
    ensures ExpBuilt(s, AddPhi(u, pairs)) && OperandOk(Reg(u.nextReg), AddPhi(u, pairs))
  {
    hide Valid;
    PhiGrown(s, u, {}, pairs);
  }

  lemma {:induction false} CastGrows(c: A.Cond, s: Build)
    requires Ready(s) && A.ProperCond(c)
    ensures ExpBuilt(s, LowerExp(A.FromBool(c), s).0)
            && OperandOk(LowerExp(A.FromBool(c), s).1, LowerExp(A.FromBool(c), s).0)
    decreases c, 1
  {
    hide Ready, Valid, Grown, CondBuilt, CastMoves, Create, Branch, MoveTo, AddPhi, CastPairs, Preds, Open;
    var bbt, bbf := s.nextBlock, s.nextBlock + 1;
    TwoCreated(s);
    CondGrows(c, Create(Create(s)), bbt, bbf);
    var t := LowerCond(c, Create(Create(s)), bbt, bbf);
    CastStates(s, t);
    var u := MoveTo(Branch(MoveTo(t, bbt), bbf), bbf);
    CastEnds(s, t, u, CastPairs(Preds(t, bbf), bbt));
  }

  lemma CompareGrows(op: Op, x: Operand, y: Operand, s: Build, t: Build, bbt: BlockId, bbf: BlockId)
    requires ExpBuilt(s, t) && bbt in s.blocks && bbf in s.blocks
    ensures CondBuilt(s, Compare(op, x, y, t, bbt, bbf))
  {
    var i := Pure(t.nextReg, op, [x, y]);
    DefineBuilt(s, t, i);
    var t1 := Define(t, i);
    assert bbt in t1.blocks && bbf in t1.blocks;
    hide Valid, Define;
    CondBranchGrown(t1, Reg(t.nextReg), bbt, bbf);
    GrownSeq(s, t1, CondBranch(t1, Reg(t.nextReg), bbt, bbf));
  }

  lemma {:induction false} CondGrows(c: A.Cond, s: Build, bbt: BlockId, bbf: BlockId)
    requires Ready(s) && A.ProperCond(c) && bbt in s.blocks && bbf in s.blocks
    ensures CondBuilt(s, LowerCond(c, s, bbt, bbf))
    decreases c, 0
  {
    hide Valid, Grown, Ready, ExpBuilt, CondBuilt, Compare, Branch;
    match c
    case Truth(b) =>
      TruthGrows(s, if b then bbt else bbf);
    case NonZero(e) =>
      ExpGrows(e, s);
      var (t, x) := LowerExp(e, s);
      CompareGrows(Ne, x, Const(IntVal(0)), s, t, bbt, bbf);
    case Logic(isOr, cs) =>
      LogicGrows(isOr, cs, s, bbt, bbf);
    case Equal(same, l, r) =>
      ExpGrows(l, s);
      var (t, x) := LowerExp(l, s);
      BuiltReady(s, t);
      ExpGrows(r, t);
      var (u, y) := LowerExp(r, t);
      BuiltSeq(s, t, u);
      CompareGrows(if same then Eq else Ne, x, y, s, u, bbt, bbf);
    case Relation(op, l, r) =>
      ExpGrows(l, s);
      var (t, x) := LowerExp(l, s);
      BuiltReady(s, t);
      ExpGrows(r, t);
      var (u, y) := LowerExp(r, t);
      BuiltSeq(s, t, u);
      CompareGrows(RelOf(op), x, y, s, u, bbt, bbf);
    case Not(a) =>
      CondGrows(a, s, bbf, bbt);
  }

  lemma TruthGrows(s: Build, x: BlockId)
    requires Ready(s) && x in s.blocks
    ensures CondBuilt(s, Branch(s, x))
  {
    BranchGrown(s, x);
  }

  lemma {:induction false} LogicGrows(isOr: bool, cs: seq<A.Cond>, s: Build, bbt: BlockId, bbf: BlockId)
    requires Ready(s) && cs != [] && A.ProperConds(cs) && bbt in s.blocks && bbf in s.blocks
    ensures CondBuilt(s, LowerLogic(isOr, cs, s, bbt, bbf))
    decreases cs, 0
  {
    hide Valid, Grown, Ready, CondBuilt, Create, MoveTo;
    if |cs| == 1 {
      CondGrows(cs[0], s, bbt, bbf);
    } else {
      var rhs := s.nextBlock;
      CreatedReady(s);
      var s1 := Create(s);
      var x, y := if isOr then bbt else rhs, if isOr then rhs else bbf;
      CondGrows(cs[0], s1, x, y);
      var t := LowerCond(cs[0], s1, x, y);
      LogicMoves(s, t, rhs);
      LogicGrows(isOr, cs[1..], MoveTo(t, rhs), bbt, bbf);
      CondSeq(s, MoveTo(t, rhs), LowerLogic(isOr, cs[1..], MoveTo(t, rhs), bbt, bbf));
    }
  }

  lemma CreatedReady(s: Build)
    requires Ready(s)
    ensures Ready(Create(s)) && s.nextBlock in Create(s).blocks && s.nextBlock !in s.blocks
    ensures forall b :: b in s.blocks ==> b in Create(s).blocks
  {
    CreateGrown(s);
  }

  lemma CondSeq(s: Build, t: Build, u: Build)
    requires Grown(s, t, {}) && CondBuilt(t, u)
    ensures CondBuilt(s, u)
  {
    GrownSeq(s, t, u);
  }

  /** The operand is done; the next one is looked at in the block made for it. */
  lemma LogicMoves(s: Build, t: Build, rhs: BlockId)
    requires Ready(s) && rhs == s.nextBlock && CondBuilt(Create(s), t)
    ensures Ready(MoveTo(t, rhs)) && Grown(s, MoveTo(t, rhs), {}) && t.cur != rhs && rhs in t.blocks
            && t.blocks[rhs] == EMPTY
    ensures forall b :: b in s.blocks ==> b in MoveTo(t, rhs).blocks
  {
    CreateGrown(s);
    hide Valid;
    GrownPend(s, Create(s), t, {rhs});
    MoveGrown(s, t, {rhs}, rhs);
    assert {rhs} - {rhs} == {};
  }

  // ----- What is built for statements is well formed -----

  ghost predicate LoopsOk(s: Build, loops: seq<Loop>) {
    forall k :: 0 <= k < |loops| ==> loops[k].next in s.blocks && loops[k].cond in s.blocks
  }

  lemma LoopsStay(s: Build, t: Build, pend: set<BlockId>, loops: seq<Loop>)
    requires LoopsOk(s, loops) && Grown(s, t, pend)
    ensures LoopsOk(t, loops)
  {
  }

  lemma StmtSeq(s: Build, t: Build, u: Build)
    requires Grown(s, t, {}) && StmtBuilt(t, u)
    ensures StmtBuilt(s, u)
  {
    GrownSeq(s, t, u);
  }

  lemma AssignGrows(x: A.Var, idx: seq<A.Exp>, e: A.Exp, s: Build)
    requires Ready(s) && A.ProperExps(idx) && A.ProperExp(e)
    ensures ExpBuilt(s, LowerAssign(x, idx, e, s))
  {
    hide Ready, ExpBuilt, LowerExp, LowerPointer;
    if x.Scalar? {
      ExpGrows(e, s);
      var (t, o) := LowerExp(e, s);
      EmitBuilt(s, t, Store(o, Local(x.slot)));
    } else {
      PointerGrows(x, idx, s);
      var (t, p) := LowerPointer(x, idx, s);
      BuiltReady(s, t);
      ExpGrows(e, t);
      var (u, o) := LowerExp(e, t);
      BuiltSeq(s, t, u);
      EmitBuilt(s, u, Store(o, Addr(p)));
    }
  }

  lemma EmitBuilt(s: Build, t: Build, i: Instr)
    requires ExpBuilt(s, t)
    ensures ExpBuilt(s, Emit(t, i)) && ExpBuilt(t, Emit(t, i))
  {
    hide Valid, Grown;
    EmitGrown(t, i);
    GrownSeq(s, t, Emit(t, i));
  }

  /** A path joins `b`, unless it has gone elsewhere. */
  lemma JoinGrows(s: Build, t: Build, pend: set<BlockId>, b: BlockId)
    requires Valid(t) && Grown(s, t, pend) && b in t.blocks
    ensures var u := Join(t, b);
            && Valid(u) && Grown(s, u, pend) && Grown(t, u, {}) && !Open(u) && u.cur == t.cur && u.nextReg == t.nextReg
            && (Open(t) ==> EdgeIn(u, t.cur, b)) && (!Open(t) ==> u == t)
  {
    if Open(t) {
      BranchGrown(t, b);
      GrownPend(s, t, Branch(t, b), pend);
    } else {
      GrownSelf(t);
    }
  }

  /** Moving on to a block that was put off. */
  lemma MoveOn(s: Build, t: Build, pend: set<BlockId>, b: BlockId, rest: set<BlockId>)
    requires Valid(t) && Grown(s, t, pend) && b in pend && !Open(t) && rest == pend - {b}
    ensures Ready(MoveTo(t, b)) && Grown(s, MoveTo(t, b), rest) && MoveTo(t, b).blocks == t.blocks
            && t.blocks[b] == EMPTY
  {
    MoveGrown(s, t, pend, b);
  }

  lemma {:induction false} StmtGrows(st: A.Stmt, s: Build, loops: seq<Loop>)
    requires Ready(s) && A.ProperStmt(st, loops != []) && LoopsOk(s, loops)
    ensures StmtBuilt(s, LowerStmt(st, s, loops))
    decreases st, 0
  {
    hide Valid, Grown, Ready, ExpBuilt, CondBuilt, StmtBuilt, LowerAssign, Branch, Exit, Create, MoveTo, Join, Open,
        LoopsOk;
    match st
    case Assign(x, idx, e) =>
      AssignGrows(x, idx, e, s);
      ExpIsStmt(s, LowerAssign(x, idx, e, s));
    case Declare(v, None) =>
      NothingBuilt(s);
    case Declare(v, Some(e)) =>
      AssignGrows(A.Scalar(v), [], e, s);
      ExpIsStmt(s, LowerAssign(A.Scalar(v), [], e, s));
    case If(c, yes, no) =>
      if no == [] { IfThenGrows(c, yes, s, loops); } else { IfElseGrows(c, yes, no, s, loops); }
    case While(c, body) =>
      if body == [] { EmptyWhileGrows(c, s); } else { WhileGrows(c, body, s, loops); }
    case Break =>
      JumpGrows(s, loops);
    case Continue =>
      JumpGrows(s, loops);
    case Return(None) =>
      ExitBuilt(s, s, None);
    case Return(Some(e)) =>
      ExpGrows(e, s);
      ExitBuilt(s, LowerExp(e, s).0, Some(LowerExp(e, s).1));
    case Scope(ss) =>
      StmtsGrow(ss, s, loops);
    case ExpStmt(e) =>
      ExpGrows(e, s);
      ExpIsStmt(s, LowerExp(e, s).0);
    case CondStmt(c) =>
      CreatedReady(s);
      CondGrows(c, Create(s), s.nextBlock, s.nextBlock);
      CondIsStmt(s, LowerCond(c, Create(s), s.nextBlock, s.nextBlock));
  }

  lemma ExpIsStmt(s: Build, t: Build)
    requires ExpBuilt(s, t)
    ensures StmtBuilt(s, t)
  {
  }

  lemma NothingBuilt(s: Build)
    requires Ready(s)
    ensures StmtBuilt(s, s)
  {
    GrownSelf(s);
  }

  lemma JumpGrows(s: Build, loops: seq<Loop>)
    requires Ready(s) && loops != [] && LoopsOk(s, loops)
    ensures StmtBuilt(s, Branch(s, loops[|loops| - 1].next)) && StmtBuilt(s, Branch(s, loops[|loops| - 1].cond))
  {
    BranchGrown(s, loops[|loops| - 1].next);
    BranchGrown(s, loops[|loops| - 1].cond);
  }

  lemma ExitBuilt(s: Build, t: Build, r: Option<Operand>)
    requires (s == t && Ready(s)) || ExpBuilt(s, t)
    ensures StmtBuilt(s, Exit(t, r))
  {
    GrownSelf(s);
    ExitGrown(t, r);
    hide Valid;
    GrownSeq(s, t, Exit(t, r));
  }

  lemma CondIsStmt(s: Build, t: Build)
    requires Ready(s) && CondBuilt(Create(s), t)
    ensures StmtBuilt(s, MoveTo(t, s.nextBlock))
  {
    LogicMoves(s, t, s.nextBlock);
  }

  /** The condition of a branching statement: the blocks made for it are still waiting. */
  lemma CondWaits(c: A.Cond, s: Build, s1: Build, pend: set<BlockId>, bbt: BlockId, bbf: BlockId)
    requires Ready(s1) && Grown(s, s1, pend) && A.ProperCond(c) && bbt in s1.blocks && bbf in s1.blocks
    ensures var t := LowerCond(c, s1, bbt, bbf);
            && Valid(t) && Grown(s, t, pend) && !Open(t) && Grown(s1, t, {})
  {
    hide Valid, Grown, Ready;
    CondGrows(c, s1, bbt, bbf);
    GrownPend(s, s1, LowerCond(c, s1, bbt, bbf), pend);
  }

  lemma {:induction false} IfThenGrows(c: A.Cond, yes: seq<A.Stmt>, s: Build, loops: seq<Loop>)
    requires Ready(s) && A.ProperCond(c) && A.ProperStmts(yes, loops != []) && LoopsOk(s, loops)
    ensures StmtBuilt(s, LowerStmt(A.If(c, yes, []), s, loops))
    decreases yes, 1
  {
    hide Valid, Grown, Ready, Create, MoveTo, Join, Open, LoopsOk;
    var bbt, bbf := s.nextBlock, s.nextBlock + 1;
    TwoCreated(s);
    var s2 := Create(Create(s));
    CondWaits(c, s, s2, {bbt, bbf}, bbt, bbf);
    var t := LowerCond(c, s2, bbt, bbf);
    MoveOn(s, t, {bbt, bbf}, bbt, {bbf});
    var t1 := MoveTo(t, bbt);
    BranchOff(s, t1, yes, loops, {bbf});
    var u := LowerStmts(yes, t1, loops);
    GrownCur(s, u, {bbf});
    JoinGrows(s, u, {bbf}, bbf);
    MoveOn(s, Join(u, bbf), {bbf}, bbf, {});
    ReadyIs(MoveTo(Join(u, bbf), bbf));
  }

  lemma ReadyIs(s: Build)
    requires Ready(s)
    ensures Valid(s) && Open(s)
  {
  }

  /** The statements of one arm, while the blocks in `pend` wait. */
  lemma {:induction false} BranchOff(s: Build, t: Build, ss: seq<A.Stmt>, loops: seq<Loop>, pend: set<BlockId>)
    requires Ready(t) && Grown(s, t, pend) && A.ProperStmts(ss, loops != []) && LoopsOk(s, loops)
    ensures var u := LowerStmts(ss, t, loops);
            Valid(u) && Grown(s, u, pend) && Grown(t, u, {})
    decreases ss, 0, 1
  {
    hide Grown, Ready, LoopsOk, LowerStmts, Valid;
    LoopsStay(s, t, pend, loops);
    StmtsGrow(ss, t, loops);
    GrownPend(s, t, LowerStmts(ss, t, loops), pend);
  }

  /** What is built up to the end of the first arm of an `if` with two. */
  ghost function FirstArm(c: A.Cond, yes: seq<A.Stmt>, s: Build, loops: seq<Loop>): Build {
    var bbt, bbf, bb := s.nextBlock, s.nextBlock + 1, s.nextBlock + 2;
    Join(LowerStmts(yes, MoveTo(LowerCond(c, Create(Create(Create(s))), bbt, bbf), bbt), loops), bb)
  }

  lemma {:induction false} FirstArmGrows(c: A.Cond, yes: seq<A.Stmt>, s: Build, loops: seq<Loop>)
    requires Ready(s) && A.ProperCond(c) && A.ProperStmts(yes, loops != []) && LoopsOk(s, loops)
    ensures var u := FirstArm(c, yes, s, loops);
            Valid(u) && Grown(s, u, {s.nextBlock + 1, s.nextBlock + 2}) && !Open(u)
    decreases yes, 1
  {
    hide Valid, Grown, Ready, Create, MoveTo, Join, Open, LoopsOk, LowerCond, LowerStmts;
    var bbt, bbf, bb := s.nextBlock, s.nextBlock + 1, s.nextBlock + 2;
    ThreeCreated(s);
    var s3 := Create(Create(Create(s)));
    CondWaits(c, s, s3, {bbt, bbf, bb}, bbt, bbf);
    var t := LowerCond(c, s3, bbt, bbf);
    MoveOn(s, t, {bbt, bbf, bb}, bbt, {bbf, bb});
    BranchOff(s, MoveTo(t, bbt), yes, loops, {bbf, bb});
    var u0 := LowerStmts(yes, MoveTo(t, bbt), loops);
    GrownCur(s, u0, {bbf, bb});
    JoinGrows(s, u0, {bbf, bb}, bb);
  }

  lemma MeetGrows(s: Build, v: Build, bb: BlockId)
    requires Valid(v) && Grown(s, v, {bb}) && !Open(v)
    ensures StmtBuilt(s, Meet(v, bb))
  {
    if Preds(v, bb) == [] {
      RemoveGrown(s, v, {bb}, bb);
      assert {bb} - {bb} == {};
    } else {
      MoveOn(s, v, {bb}, bb, {});
    }
  }

  lemma {:induction false} IfElseGrows(c: A.Cond, yes: seq<A.Stmt>, no: seq<A.Stmt>, s: Build, loops: seq<Loop>)
    requires Ready(s) && A.ProperCond(c) && A.ProperStmts(yes, loops != []) && A.ProperStmts(no, loops != [])
             && LoopsOk(s, loops)
    requires no != []
    ensures StmtBuilt(s, LowerStmt(A.If(c, yes, no), s, loops))
    decreases A.If(c, yes, no), -1
  {
    hide Valid, Grown, Ready, Create, MoveTo, Join, Open, LoopsOk, Meet, StmtBuilt;
    var bbf, bb := s.nextBlock + 1, s.nextBlock + 2;
    FirstArmGrows(c, yes, s, loops);
    var u := FirstArm(c, yes, s, loops);
    MoveOn(s, u, {bbf, bb}, bbf, {bb});
    BranchOff(s, MoveTo(u, bbf), no, loops, {bb});
    var v0 := LowerStmts(no, MoveTo(u, bbf), loops);
    GrownCur(s, v0, {bb});
    JoinGrows(s, v0, {bb}, bb);
    MeetGrows(s, Join(v0, bb), bb);
  }

  /** The block of the condition is entered by a branch of its own. */
  lemma LoopHead(s: Build, s1: Build, pend: set<BlockId>, cond: BlockId, rest: set<BlockId>)
    requires Ready(s1) && Grown(s, s1, pend) && cond in pend && rest == pend - {cond} && s1.cur == s.cur
    ensures var t := MoveTo(Branch(s1, cond), cond);
            && Ready(t) && Grown(s, t, rest) && t.cur == cond && cond in t.blocks && t.blocks[cond] == EMPTY
            && s1.cur in t.blocks && t.blocks[s1.cur].term == Some(Br(cond)) && t.blocks[s1.cur].body == Here(s1).body
            && (forall b :: b in s1.blocks ==> b in t.blocks)
  {
    BranchGrown(s1, cond);
    var t := Branch(s1, cond);
    GrownPend(s, s1, t, pend);
    MoveOn(s, t, pend, cond, rest);
  }

  lemma {:induction false} EmptyWhileGrows(c: A.Cond, s: Build)
    requires Ready(s) && A.ProperCond(c)
    ensures forall loops :: StmtBuilt(s, LowerStmt(A.While(c, []), s, loops))
  {
    hide Valid, Grown, Ready, Create, MoveTo, Open, Branch;
    var cond, next := s.nextBlock, s.nextBlock + 1;
    TwoCreated(s);
    var s2 := Create(Create(s));
    LoopHead(s, s2, {cond, next}, cond, {next});
    var t := MoveTo(Branch(s2, cond), cond);
    CondWaits(c, s, t, {next}, cond, next);
    var u := LowerCond(c, t, cond, next);
    MoveOn(s, u, {next}, next, {});
    ReadyIs(MoveTo(u, next));
  }

  lemma LoopsMore(s: Build, t: Build, pend: set<BlockId>, loops: seq<Loop>, next: BlockId, cond: BlockId)
    requires LoopsOk(s, loops) && Grown(s, t, pend) && next in t.blocks && cond in t.blocks
    ensures LoopsOk(t, loops + [Loop(next, cond)])
  {
  }

  /** What is built of a loop up to the start of its body. */
  ghost function LoopEntered(c: A.Cond, s: Build): Build {
    var cond, next, enter := s.nextBlock, s.nextBlock + 1, s.nextBlock + 2;
    MoveTo(LowerCond(c, MoveTo(Branch(Create(Create(Create(s))), cond), cond), enter, next), enter)
  }

  lemma LoopEnteredIs(c: A.Cond, s: Build)
    ensures LoopEntered(c, s) ==
            MoveTo(LowerCond(c, MoveTo(Branch(Create(Create(Create(s))), s.nextBlock), s.nextBlock), s.nextBlock + 2,
                s.nextBlock + 1), s.nextBlock + 2)
  {
    hide MoveTo, LowerCond, Create, Branch;
  }

  lemma WhileIs(c: A.Cond, body: seq<A.Stmt>, s: Build, loops: seq<Loop>)
    requires body != []
    ensures var cond, next := s.nextBlock, s.nextBlock + 1;
            LowerStmt(A.While(c, body), s, loops) ==
            MoveTo(Join(LowerStmts(body, LoopEntered(c, s), loops + [Loop(next, cond)]), cond), next)
  {
    hide MoveTo, Join, LowerStmts, LowerCond, Branch, Create;
  }

  lemma {:induction false} LoopEnteredGrows(c: A.Cond, s: Build)
    requires Ready(s) && A.ProperCond(c)
    ensures var u := LoopEntered(c, s);
            Ready(u) && Grown(s, u, {s.nextBlock + 1}) && s.nextBlock in u.blocks && s.nextBlock + 1 in u.blocks
    decreases c, 1
  {
    hide Valid, Grown, Ready, Create, MoveTo, Open, Branch;
    var cond, next, enter := s.nextBlock, s.nextBlock + 1, s.nextBlock + 2;
    ThreeCreated(s);
    var s3 := Create(Create(Create(s)));
    LoopHead(s, s3, {cond, next, enter}, cond, {next, enter});
    var t := MoveTo(Branch(s3, cond), cond);
    CondWaits(c, s, t, {next, enter}, enter, next);
    var t1 := LowerCond(c, t, enter, next);
    GrownCur(t, t1, {});
    MoveOn(s, t1, {next, enter}, enter, {next});
  }

  lemma {:induction false} WhileGrows(c: A.Cond, body: seq<A.Stmt>, s: Build, loops: seq<Loop>)
    requires Ready(s) && A.ProperCond(c) && A.ProperStmts(body, true) && LoopsOk(s, loops) && body != []
    ensures StmtBuilt(s, LowerStmt(A.While(c, body), s, loops))
    decreases body, 1
  {
    hide Valid, Grown, Ready, Create, MoveTo, Join, Open, LoopsOk, Branch;
    var cond, next := s.nextBlock, s.nextBlock + 1;
    LoopEnteredGrows(c, s);
    var u := LoopEntered(c, s);
    LoopsMore(s, u, {next}, loops, next, cond);
    StmtsGrow(body, u, loops + [Loop(next, cond)]);
    var v := LowerStmts(body, u, loops + [Loop(next, cond)]);
    StmtIs(u, v);
    GrownPend(s, u, v, {next});
    GrownCur(u, v, {});
    JoinGrows(s, v, {next}, cond);
    MoveOn(s, Join(v, cond), {next}, next, {});
    ReadyIs(MoveTo(Join(v, cond), next));
  }

  lemma StmtIs(s: Build, t: Build)
    requires StmtBuilt(s, t)
    ensures Valid(t) && Grown(s, t, {})
  {
  }

  lemma {:induction false} StmtsGrow(ss: seq<A.Stmt>, s: Build, loops: seq<Loop>)
    requires Ready(s) && A.ProperStmts(ss, loops != []) && LoopsOk(s, loops)
    ensures StmtBuilt(s, LowerStmts(ss, s, loops))
    decreases ss, 0, 0
  {
    hide Valid, Grown, Ready, LowerStmt, LoopsOk;
    if ss == [] {
      NothingBuilt(s);
    } else {
      StmtGrows(ss[0], s, loops);
      var t := LowerStmt(ss[0], s, loops);
      if Open(t) {
        LoopsStay(s, t, {}, loops);
        ReadyFrom(t);
        StmtsGrow(ss[1..], t, loops);
        StmtSeq(s, t, LowerStmts(ss[1..], t, loops));
      }
    }
  }

  lemma ReadyFrom(s: Build)
    requires Valid(s) && Open(s)
    ensures Ready(s)
  {
  }
}
