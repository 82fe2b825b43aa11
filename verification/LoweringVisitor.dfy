/** The visitor itself: it moves the insertion point of the builder and keeps stacks of jump targets
    (`AST2IRVisitor`).  Every visit builds what `Lowering` says and leaves the stacks as it found them. */
module LoweringVisitor {
  import opened IR
  import A = Ast
  import opened Builder
  import opened Lowering
  import opened LoweringFunction
  import LoweringRuns

  datatype Targets = Targets(trues: seq<BlockId>, falses: seq<BlockId>, nexts: seq<BlockId>, conds: seq<BlockId>)

  /** The stacks of a loop nest, outermost first. */
  ghost predicate Nest(ts: Targets, loops: seq<Loop>) {
    && |ts.nexts| == |ts.conds| == |loops|
    && forall k :: 0 <= k < |loops| ==> loops[k] == Loop(ts.nexts[k], ts.conds[k])
  }

  /** There are a current true target and a current false target, and both are blocks of the function. */
  ghost predicate CanBranch(s: Build, ts: Targets) {
    && ts.trues != [] && ts.falses != []
    && ts.trues[|ts.trues| - 1] in s.blocks && ts.falses[|ts.falses| - 1] in s.blocks
  }

  class AST2IRVisitor {
    var blocks: map<BlockId, Part>
    var cur: BlockId
    var preds: map<BlockId, seq<BlockId>>
    var nextBlock: nat
    var nextReg: nat
    var true_targets: seq<BlockId>
    var false_targets: seq<BlockId>
    var while_nexts: seq<BlockId>
    var while_conds: seq<BlockId>

    /** At the entry block of a function, whose arguments are in the first `args` registers. */
    constructor (args: nat)
      ensures Built() == Build(map[0 := EMPTY], 0, map[], 1, args) && Stacks() == Targets([], [], [], [])
    {
      blocks, cur, preds, nextBlock, nextReg := map[0 := EMPTY], 0, map[], 1, args;
      true_targets, false_targets, while_nexts, while_conds := [], [], [], [];
    }

    function Built(): Build
      reads this
    {
      Build(blocks, cur, preds, nextBlock, nextReg)
    }

    function Stacks(): Targets
      reads this
    {
      Targets(true_targets, false_targets, while_nexts, while_conds)
    }

    // ----- The builder -----

    method CreateBlock() returns (b: BlockId)
      modifies this`blocks, this`nextBlock
      ensures b == old(Built()).nextBlock && Built() == Create(old(Built()))
      ensures Stacks() == old(Stacks())
    {
      b := nextBlock;
      blocks := blocks[b := EMPTY];
      nextBlock := nextBlock + 1;
    }

    method SetInsertPoint(b: BlockId)
      modifies this`cur
      ensures Built() == MoveTo(old(Built()), b)
      ensures Stacks() == old(Stacks())
    {
      cur := b;
    }

    /** Appends to the block at the insertion point, which has no terminator yet. */
    method Append(i: Instr)
      requires Open(Built())
      modifies this`blocks
      ensures Built() == Emit(old(Built()), i)
      ensures Stacks() == old(Stacks())
    {
      blocks := blocks[cur := blocks[cur].(body := blocks[cur].body + [i])];
    }

    method AppendDefining(i: Instr) returns (o: Operand)
      requires Open(Built())
      modifies this`blocks, this`nextReg
      ensures Built() == Define(old(Built()), i) && o == Reg(old(Built()).nextReg)
      ensures Stacks() == old(Stacks())
    {
      o := Reg(nextReg);
      Append(i);
      nextReg := nextReg + 1;
    }

    method AddPredecessor(b: BlockId)
      modifies this`preds
      ensures Built() == AddPred(old(Built()), b)
      ensures Stacks() == old(Stacks())
    {
      preds := preds[b := (if b in preds then preds[b] else []) + [cur]];
    }

    method CreateBr(b: BlockId)
      requires Open(Built())
      modifies this`blocks, this`preds
      ensures Built() == Branch(old(Built()), b)
      ensures Stacks() == old(Stacks())
    {
      blocks := blocks[cur := blocks[cur].(term := Some(Br(b)))];
      AddPredecessor(b);
    }

    method CreateCondBr(o: Operand, bbt: BlockId, bbf: BlockId)
      requires Open(Built())
      modifies this`blocks, this`preds
      ensures Built() == CondBranch(old(Built()), o, bbt, bbf)
      ensures Stacks() == old(Stacks())
    {
      if bbt == bbf {
        CreateBr(bbt);
      } else {
        blocks := blocks[cur := blocks[cur].(term := Some(CondBr(o, bbt, bbf)))];
        AddPredecessor(bbt);
        AddPredecessor(bbf);
      }
    }

    method CreateRet(r: Option<Operand>)
      requires Open(Built())
      modifies this`blocks
      ensures Built() == Exit(old(Built()), r)
      ensures Stacks() == old(Stacks())
    {
      blocks := blocks[cur := blocks[cur].(term := Some(Ret(r)))];
    }

    method CreatePhi(pairs: seq<(Operand, BlockId)>) returns (o: Operand)
      requires Open(Built())
      modifies this`blocks, this`nextReg
      ensures Built() == AddPhi(old(Built()), pairs) && o == Reg(old(Built()).nextReg)
      ensures Stacks() == old(Stacks())
    {
      o := Reg(nextReg);
      blocks := blocks[cur := blocks[cur].(phis := blocks[cur].phis + [Phi(nextReg, pairs)])];
      nextReg := nextReg + 1;
    }

    method RemoveBlock(b: BlockId)
      modifies this`blocks
      ensures Built() == Remove(old(Built()), b)
      ensures Stacks() == old(Stacks())
    {
      blocks := blocks - {b};
    }

    // ----- Expressions -----

    method VisitExp(e: A.Exp) returns (o: Operand)
      requires Ready(Built()) && A.ProperExp(e)
      modifies this
      ensures (Built(), o) == LowerExp(e, old(Built())) && Stacks() == old(Stacks())
      ensures ExpBuilt(old(Built()), Built())
      decreases e, 0
    {
      ghost var s := Built();
      hide Valid, Grown, Open, Define;
      ExpGrows(e, s);
      match e {
        case Num(i) =>
          o := Const(IntVal(i));
        case RVal(x, idx) =>
          if x.Scalar? {
            ReadyIs(s);
            o := AppendDefining(Load(nextReg, Local(x.slot)));
          } else {
            o := VisitPointer(x, idx);
            if |idx| == |x.dims| {
              ReadyIs(Built());
              o := AppendDefining(Load(nextReg, Addr(o)));
            }
          }
        case Math(op, l, r) =>
          var x := VisitExp(l);
          var y := VisitExp(r);
          ReadyIs(Built());
          o := AppendDefining(Pure(nextReg, OpOf(op), [x, y]));
        case Neg(a) =>
          var x := VisitExp(a);
          ReadyIs(Built());
          o := AppendDefining(Pure(nextReg, Sub, [Const(IntVal(0)), x]));
        case Invoke(callee, args) =>
          var os := VisitExps(args);
          ReadyIs(Built());
          o := AppendDefining(Call(nextReg, callee, os, true));
        case FromBool(c) =>
          o := VisitCast(c);
      }
    }

    method VisitExps(es: seq<A.Exp>) returns (os: seq<Operand>)
      requires Ready(Built()) && A.ProperExps(es)
      modifies this
      ensures (Built(), os) == LowerExps(es, old(Built())) && Stacks() == old(Stacks())
      ensures ExpBuilt(old(Built()), Built())
      decreases es, 0
    {
      ghost var s := Built();
      hide Valid, Grown, Open;
      ExpsGrow(es, s);
      if es == [] {
        os := [];
      } else {
        var o := VisitExp(es[0]);
        os := VisitExps(es[1..]);
        os := [o] + os;
      }
    }

    method VisitPointer(x: A.Var, idx: seq<A.Exp>) returns (o: Operand)
      requires Ready(Built()) && !x.Scalar? && A.ProperExps(idx)
      modifies this
      ensures (Built(), o) == LowerPointer(x, idx, old(Built())) && Stacks() == old(Stacks())
      ensures ExpBuilt(old(Built()), Built())
      decreases idx, 1
    {
      ghost var s := Built();
      hide Valid, Grown, Open, Define;
      PointerGrows(x, idx, s);
      var base;
      var d := nextReg;
      if x.Array? {
        base := Const(IntVal(x.base));
      } else {
        BuiltSelf(s);
        DefineBuilt(s, s, Load(s.nextReg, Local(x.slot)));
        ReadyIs(s);
        base := AppendDefining(Load(nextReg, Local(x.slot)));
      }
      var os := VisitExps(idx);
      if idx == [] {
        o := base;
      } else {
        ReadyIs(Built());
        o := AppendDefining(Pure(nextReg, Gep(AccessStrides(x, |idx|)), AccessOperands(x, d, os)));
      }
    }

    /** A condition used as a number: the phi takes one value per block that branched to the false target. */
    method VisitCast(c: A.Cond) returns (o: Operand)
      requires Ready(Built()) && A.ProperCond(c)
      modifies this
      ensures (Built(), o) == LowerExp(A.FromBool(c), old(Built())) && Stacks() == old(Stacks())
      ensures ExpBuilt(old(Built()), Built())
      decreases c, 2
    {
      ghost var s := Built();
      hide *;
      CastGrows(c, s);
      var bbt, bbf := CreateTwo();
      VisitWith(c, bbt, bbf);
      ghost var t := Built();
      CastStates(s, t);
      CastReady(s, t);
      var pairs := Labels(PredecessorsOf(bbf), bbt);
      SetInsertPoint(bbt);
      CreateBr(bbf);
      SetInsertPoint(bbf);
      o := CreatePhi(pairs);
      CastLowered(c, s, t);
      assert Built() == LowerExp(A.FromBool(c), s).0;
      assert o == LowerExp(A.FromBool(c), s).1;
      PairIs(Built(), o, LowerExp(A.FromBool(c), s));
    }

    function PredecessorsOf(b: BlockId): (ps: seq<BlockId>)
      reads this
      ensures ps == Preds(Built(), b)
    {
      if b in preds then preds[b] else []
    }

    method CreateTwo() returns (a: BlockId, b: BlockId)
      requires Ready(Built())
      modifies this`blocks, this`nextBlock
      ensures a == old(nextBlock) && b == old(nextBlock) + 1 && a == old(Built()).nextBlock
      ensures Built() == Create(Create(old(Built()))) && Stacks() == old(Stacks())
      ensures Ready(Built()) && a in Built().blocks && b in Built().blocks
      ensures Grown(old(Built()), Built(), {a, b})
    {
      TwoCreated(Built());
      hide Ready, Grown;
      a := CreateBlock();
      b := CreateBlock();
    }

    // ----- Conditions -----

    method VisitCond(c: A.Cond)
      requires Ready(Built()) && A.ProperCond(c) && CanBranch(Built(), Stacks())
      modifies this
      ensures Built() == LowerCond(c, old(Built()), old(true_targets[|true_targets| - 1]),
                old(false_targets[|false_targets| - 1]))
      ensures Stacks() == old(Stacks()) && CondBuilt(old(Built()), Built())
      decreases c, 0
    {
      ghost var s, ts := Built(), Stacks();
      var bbt, bbf := true_targets[|true_targets| - 1], false_targets[|false_targets| - 1];
      CondGrows(c, s, bbt, bbf);
      hide Valid, Grown, Open, Define, Branch, CondBranch, Create, MoveTo, ExpBuilt, CondBuilt, Compare, LowerExp,
          LowerLogic;
      match c {
        case Truth(b) =>
          ReadyIs(s);
          if b { CreateBr(bbt); } else { CreateBr(bbf); }
        case NonZero(e) =>
          var x := VisitExp(e);
          VisitCompare(Ne, x, Const(IntVal(0)), bbt, bbf);
        case Logic(isOr, cs) =>
          VisitLogic(isOr, cs);
        case Equal(same, l, r) =>
          VisitOperands(c, l, r, if same then Eq else Ne, bbt, bbf);
        case Relation(op, l, r) =>
          VisitOperands(c, l, r, RelOf(op), bbt, bbf);
        case Not(a) =>
          VisitWith(a, bbf, bbt);
      }
    }

    /** The operands of the comparison `c` and the branch on it. */
    method VisitOperands(ghost c: A.Cond, l: A.Exp, r: A.Exp, op: Op, bbt: BlockId, bbf: BlockId)
      requires Ready(Built()) && A.ProperExp(l) && A.ProperExp(r) && l < c && r < c
      modifies this
      ensures var (t, x) := LowerExp(l, old(Built()));
              var (u, y) := LowerExp(r, t);
              Built() == Compare(op, x, y, u, bbt, bbf)
      ensures Stacks() == old(Stacks())
      decreases c, -1
    {
      hide Valid, Grown, Open, Compare, LowerExp, A.ProperExp;
      var x := VisitExp(l);
      var y := VisitExp(r);
      VisitCompare(op, x, y, bbt, bbf);
    }

    method VisitCompare(op: Op, x: Operand, y: Operand, bbt: BlockId, bbf: BlockId)
      requires Ready(Built())
      modifies this`blocks, this`preds, this`nextReg
      ensures Built() == Compare(op, x, y, old(Built()), bbt, bbf)
    {
      EmitGrown(Built(), Pure(nextReg, op, [x, y]));
      hide Valid, Grown;
      var o := AppendDefining(Pure(nextReg, op, [x, y]));
      CreateCondBr(o, bbt, bbf);
    }

    /** Visits a condition under targets of its own. */
    method VisitWith(c: A.Cond, bbt: BlockId, bbf: BlockId)
      requires Ready(Built()) && A.ProperCond(c) && bbt in Built().blocks && bbf in Built().blocks
      modifies this
      ensures Built() == LowerCond(c, old(Built()), bbt, bbf)
      ensures Stacks() == old(Stacks()) && CondBuilt(old(Built()), Built())
      decreases c, 1
    {
      ghost var ts := Stacks();
      hide LowerCond, CondBuilt, Ready, A.ProperCond;
      true_targets := true_targets + [bbt];
      false_targets := false_targets + [bbf];
      VisitCond(c);
      true_targets := true_targets[..|true_targets| - 1];
      false_targets := false_targets[..|false_targets| - 1];
      assert Stacks() == ts;
    }

    /** An operand that is not the last one: when it does not decide, control goes to `check_rhs`. */
    method VisitOperand(isOr: bool, c: A.Cond, check_rhs: BlockId)
      requires Ready(Built()) && A.ProperCond(c) && CanBranch(Built(), Stacks()) && check_rhs in Built().blocks
      modifies this
      ensures var bbt, bbf := old(true_targets[|true_targets| - 1]), old(false_targets[|false_targets| - 1]);
              Built() == LowerCond(c, old(Built()), if isOr then bbt else check_rhs, if isOr then check_rhs else bbf)
      ensures Stacks() == old(Stacks()) && CondBuilt(old(Built()), Built())
      decreases c, 1
    {
      ghost var ts := Stacks();
      hide LowerCond, CondBuilt, Ready, A.ProperCond;
      if isOr {
        false_targets := false_targets + [check_rhs];
        VisitCond(c);
        false_targets := false_targets[..|false_targets| - 1];
      } else {
        true_targets := true_targets + [check_rhs];
        VisitCond(c);
        true_targets := true_targets[..|true_targets| - 1];
      }
      assert Stacks() == ts;
    }

    /** All operands but the last fall through to a block of their own when they do not decide. */
    method VisitLogic(isOr: bool, cs: seq<A.Cond>)
      requires Ready(Built()) && cs != [] && A.ProperConds(cs) && CanBranch(Built(), Stacks())
      modifies this
      ensures Built() == LowerLogic(isOr, cs, old(Built()), old(true_targets[|true_targets| - 1]),
                old(false_targets[|false_targets| - 1]))
      ensures Stacks() == old(Stacks())
      decreases cs, 0
    {
      ghost var s, ts := Built(), Stacks();
      ghost var bbt, bbf := true_targets[|true_targets| - 1], false_targets[|false_targets| - 1];
      assert cs[0..] == cs;
      hide *;
      LogicStarts(isOr, cs, s, ts);
      var i := 0;
      while i < |cs| - 1
        invariant 0 <= i < |cs| && Stacks() == ts && LogicGoing(isOr, cs, i, s, Built(), ts)
      {
        VisitInner(isOr, cs, i, s);
        i := i + 1;
      }
      LogicEnds(isOr, cs, i, s, Built(), ts);
      TopsAre(this, bbt, bbf, ts);
      VisitCond(cs[i]);
    }

    method VisitInner(isOr: bool, cs: seq<A.Cond>, i: nat, ghost s: Build)
      requires i < |cs| - 1 && LogicGoing(isOr, cs, i, s, Built(), Stacks())
      modifies this
      ensures LogicGoing(isOr, cs, i + 1, s, Built(), Stacks()) && Stacks() == old(Stacks())
      decreases cs[i], 2
    {
      ghost var s1, ts := Built(), Stacks();
      hide *;
      LogicParts(isOr, cs, i, s, s1, ts);
      CreatedReady(s1);
      var check_rhs := CreateBlock();
      CreatedTargets(s1, ts);
      ghost var bbt, bbf := ts.trues[|ts.trues| - 1], ts.falses[|ts.falses| - 1];
      TopsAre(this, bbt, bbf, ts);
      VisitOperand(isOr, cs[i], check_rhs);
      LogicMoves(s1, Built(), check_rhs);
      LogicNext(isOr, cs, i, s, s1, Built(), ts);
      SetInsertPoint(check_rhs);
    }

    // ----- Statements -----

    method VisitAssign(x: A.Var, idx: seq<A.Exp>, e: A.Exp)
      requires Ready(Built()) && A.ProperExps(idx) && A.ProperExp(e)
      modifies this
      ensures Built() == LowerAssign(x, idx, e, old(Built())) && Stacks() == old(Stacks())
    {
      hide Valid, Grown, Open, LowerExp, LowerPointer;
      if x.Scalar? {
        var o := VisitExp(e);
        ReadyIs(Built());
        Append(Store(o, Local(x.slot)));
      } else {
        var p := VisitPointer(x, idx);
        var o := VisitExp(e);
        ReadyIs(Built());
        Append(Store(o, Addr(p)));
      }
    }

    /** Ends an arm: control joins `b` unless it has gone elsewhere. */
    method JoinAt(b: BlockId)
      requires cur in blocks
      modifies this`blocks, this`preds
      ensures Built() == Join(old(Built()), b) && Stacks() == old(Stacks())
    {
      if blocks[cur].term.None? {
        CreateBr(b);
      }
    }

    method VisitStmt(x: A.Stmt, ghost loops: seq<Loop>)
      requires Ready(Built()) && A.ProperStmt(x, loops != []) && LoopsOk(Built(), loops) && Nest(Stacks(), loops)
      modifies this
      ensures Built() == LowerStmt(x, old(Built()), loops) && Stacks() == old(Stacks())
      ensures StmtBuilt(old(Built()), Built())
      decreases x, 0
    {
      ghost var s := Built();
      hide Valid, Grown, Open, LoopsOk, StmtBuilt, Branch, Exit, LowerAssign, Create, MoveTo, Join, LowerCond, Ready;
      StmtGrows(x, s, loops);
      match x {
        case Assign(v, idx, e) =>
          VisitAssign(v, idx, e);
        case Declare(v, None) =>
        case Declare(v, Some(e)) =>
          VisitAssign(A.Scalar(v), [], e);
        case If(c, yes, no) =>
          if no == [] { VisitIfThen(c, yes, loops); } else { VisitIfElse(c, yes, no, loops); }
        case While(c, body) =>
          if body == [] { VisitEmptyWhile(c, loops); } else { VisitWhile(c, body, loops); }
        case Break =>
          ReadyIs(s);
          CreateBr(while_nexts[|while_nexts| - 1]);
        case Continue =>
          ReadyIs(s);
          CreateBr(while_conds[|while_conds| - 1]);
        case Return(None) =>
          ReadyIs(s);
          CreateRet(None);
        case Return(Some(e)) =>
          var o := VisitExp(e);
          ExpEnds(s, Built());
          CreateRet(Some(o));
        case Scope(ss) =>
          VisitStmts(ss, loops);
        case ExpStmt(e) =>
          var _ := VisitExp(e);
        case CondStmt(c) =>
          CreatedReady(s);
          var bb := CreateBlock();
          VisitWith(c, bb, bb);
          SetInsertPoint(bb);
      }
    }

    method VisitIfThen(c: A.Cond, yes: seq<A.Stmt>, ghost loops: seq<Loop>)
      requires Ready(Built()) && A.ProperCond(c) && A.ProperStmts(yes, loops != []) && LoopsOk(Built(), loops)
               && Nest(Stacks(), loops)
      modifies this
      ensures Built() == LowerStmt(A.If(c, yes, []), old(Built()), loops) && Stacks() == old(Stacks())
      decreases yes, 1
    {
      ghost var s, ts := Built(), Stacks();
      hide *;
      var bbt, bbf := CreateTwo();
      ghost var s2 := Built();
      VisitWith(c, bbt, bbf);
      ghost var t := Built();
      CondWaits(c, s, s2, {bbt, bbf}, bbt, bbf);
      MoveOn(s, t, {bbt, bbf}, bbt, {bbf});
      SetInsertPoint(bbt);
      LoopsStay(s, Built(), {bbf}, loops);
      VisitStmts(yes, loops);
      StmtIs(MoveTo(t, bbt), Built());
      GrownCur(MoveTo(t, bbt), Built(), {});
      CurIn(this);
      JoinAt(bbf);
      SetInsertPoint(bbf);
      IfThenIs(c, yes, s, loops);
    }

    method VisitIfElse(c: A.Cond, yes: seq<A.Stmt>, no: seq<A.Stmt>, ghost loops: seq<Loop>)
      requires Ready(Built()) && A.ProperCond(c) && A.ProperStmts(yes, loops != []) && A.ProperStmts(no, loops != [])
      requires LoopsOk(Built(), loops) && Nest(Stacks(), loops) && no != []
      modifies this
      ensures Built() == LowerStmt(A.If(c, yes, no), old(Built()), loops) && Stacks() == old(Stacks())
      decreases A.If(c, yes, no), -1
    {
      ghost var s, ts := Built(), Stacks();
      hide *;
      var bbt, bbf, bb := CreateThree();
      ghost var s3 := Built();
      VisitWith(c, bbt, bbf);
      ghost var t := Built();
      CondWaits(c, s, s3, {bbt, bbf, bb}, bbt, bbf);
      MoveOn(s, t, {bbt, bbf, bb}, bbt, {bbf, bb});
      SetInsertPoint(bbt);
      LoopsStay(s, Built(), {bbf, bb}, loops);
      VisitStmts(yes, loops);
      StmtIs(MoveTo(t, bbt), Built());
      GrownCur(MoveTo(t, bbt), Built(), {});
      CurIn(this);
      JoinAt(bb);
      FirstArmIs(c, yes, s, loops);
      FirstArmGrows(c, yes, s, loops);
      ghost var u := Built();
      MoveOn(s, u, {bbf, bb}, bbf, {bb});
      SetInsertPoint(bbf);
      LoopsStay(s, Built(), {bb}, loops);
      VisitStmts(no, loops);
      StmtIs(MoveTo(u, bbf), Built());
      GrownCur(MoveTo(u, bbf), Built(), {});
      CurIn(this);
      JoinAt(bb);
      IfElseIs(c, yes, no, s, loops);
      MeetIs(Built(), bb);
      if PredecessorsOf(bb) == [] {
        RemoveBlock(bb);
      } else {
        SetInsertPoint(bb);
      }
    }

    method CreateThree() returns (a: BlockId, b: BlockId, c: BlockId)
      requires Ready(Built())
      modifies this`blocks, this`nextBlock
      ensures var s := old(Built()); a == s.nextBlock && b == s.nextBlock + 1 && c == s.nextBlock + 2
      ensures Built() == Create(Create(Create(old(Built())))) && Stacks() == old(Stacks())
      ensures Ready(Built()) && a in Built().blocks && b in Built().blocks && c in Built().blocks
      ensures Grown(old(Built()), Built(), {a, b, c}) && Built().cur == old(Built()).cur
    {
      ThreeCreated(Built());
      hide Ready, Grown;
      a := CreateBlock();
      b := CreateBlock();
      c := CreateBlock();
    }

    method VisitEmptyWhile(c: A.Cond, ghost loops: seq<Loop>)
      requires Ready(Built()) && A.ProperCond(c)
      modifies this
      ensures Built() == LowerStmt(A.While(c, []), old(Built()), loops) && Stacks() == old(Stacks())
      decreases c, 2
    {
      ghost var s := Built();
      TwoCreated(s);
      hide *;
      var bb_cond, bb_next := CreateTwo();
      ghost var s2 := Built();
      LoopHead(s, s2, {bb_cond, bb_next}, bb_cond, {bb_next});
      ReadyIs(s2);
      CreateBr(bb_cond);
      SetInsertPoint(bb_cond);
      NextIn(s, Built(), bb_next);
      VisitWith(c, bb_cond, bb_next);
      SetInsertPoint(bb_next);
      EmptyWhileIs(c, s, loops);
    }

    method VisitWhile(c: A.Cond, body: seq<A.Stmt>, ghost loops: seq<Loop>)
      requires Ready(Built()) && A.ProperCond(c) && A.ProperStmts(body, true) && LoopsOk(Built(), loops)
               && Nest(Stacks(), loops)
      requires body != []
      modifies this
      ensures Built() == LowerStmt(A.While(c, body), old(Built()), loops) && Stacks() == old(Stacks())
      decreases A.While(c, body), -1
    {
      ghost var s, ts := Built(), Stacks();
      hide *;
      var bb_cond, bb_next, bb_while := CreateThree();
      ghost var s3 := Built();
      LoopHead(s, s3, {bb_cond, bb_next, bb_while}, bb_cond, {bb_next, bb_while});
      ReadyIs(s3);
      CreateBr(bb_cond);
      SetInsertPoint(bb_cond);
      VisitWith(c, bb_while, bb_next);
      SetInsertPoint(bb_while);
      LoopEnteredIs(c, s);
      LoopEnteredGrows(c, s);
      ghost var u := Built();
      LoopsMore(s, u, {bb_next}, loops, bb_next, bb_cond);
      VisitBody(body, bb_next, bb_cond, loops);
      StmtIs(u, Built());
      GrownCur(u, Built(), {});
      CurIn(this);
      JoinAt(bb_cond);
      SetInsertPoint(bb_next);
      WhileIs(c, body, s, loops);
    }

    /** The body of a loop, with the targets of break and continue pushed. */
    method VisitBody(body: seq<A.Stmt>, bb_next: BlockId, bb_cond: BlockId, ghost loops: seq<Loop>)
      requires Ready(Built()) && A.ProperStmts(body, true) && LoopsOk(Built(), loops + [Loop(bb_next, bb_cond)])
               && Nest(Stacks(), loops)
      modifies this
      ensures Built() == LowerStmts(body, old(Built()), loops + [Loop(bb_next, bb_cond)]) && Stacks() == old(Stacks())
      ensures StmtBuilt(old(Built()), Built())
      decreases body, 1
    {
      ghost var ts := Stacks();
      hide LowerStmts, StmtBuilt, Ready, A.ProperStmts, LoopsOk;
      while_nexts := while_nexts + [bb_next];
      while_conds := while_conds + [bb_cond];
      VisitStmts(body, loops + [Loop(bb_next, bb_cond)]);
      while_nexts := while_nexts[..|while_nexts| - 1];
      while_conds := while_conds[..|while_conds| - 1];
      assert Stacks() == ts;
    }

    /** `visitStmts`: stops after a statement that leaves the insertion point terminated. */
    method VisitStmts(ss: seq<A.Stmt>, ghost loops: seq<Loop>)
      requires Ready(Built()) && A.ProperStmts(ss, loops != []) && LoopsOk(Built(), loops) && Nest(Stacks(), loops)
      modifies this
      ensures Built() == LowerStmts(ss, old(Built()), loops) && Stacks() == old(Stacks())
      ensures StmtBuilt(old(Built()), Built())
      decreases ss, 0
    {
      ghost var s, ts := Built(), Stacks();
      assert ss[0..] == ss;
      StmtsGrow(ss, s, loops);
      hide *;
      var i := 0;
      while i < |ss|
        invariant 0 <= i <= |ss| && Stacks() == ts && Ready(Built()) && LoopsOk(Built(), loops)
                  && A.ProperStmts(ss[i..], loops != [])
        invariant LowerStmts(ss, s, loops) == LowerStmts(ss[i..], Built(), loops)
      {
        ghost var s1 := Built();
        RestProper(ss, i, loops != []);
        VisitStmt(ss[i], loops);
        StmtIs(s1, Built());
        GrownCur(s1, Built(), {});
        CurIn(this);
        StmtsNext(ss, i, s1, loops);
        OpenIs(Built());
        if blocks[cur].term.Some? {
          break;
        }
        ReadyFrom(Built());
        LoopsStay(s1, Built(), {}, loops);
        i := i + 1;
      }
      StmtsEnd(ss, i, loops);
    }

    /** Every parameter gets its argument. */
    method VisitParams(params: seq<Slot>)
      requires Built() == Build(map[0 := EMPTY], 0, map[], 1, |params|)
      modifies this`blocks
      ensures Built() == Start(params) && Stacks() == old(Stacks())
    {
      StoredNone(params);
      for k := 0 to |params|
        invariant Built() == Stored(params, k) && Stacks() == old(Stacks())
      {
        StoredReady(params, k);
        PassedMore(params, _ => None, _ => None, k + 1);
        hide *;
        ReadyIs(Built());
        Append(Store(Reg(k), Local(params[k])));
      }
    }

    /** A function definition. */
    method VisitFunction(params: seq<Slot>, body: seq<A.Stmt>, returnsVoid: bool) returns (f: Function)
      requires A.ProperStmts(body, false) && Stacks() == Targets([], [], [], [])
      requires Built() == Build(map[0 := EMPTY], 0, map[], 1, |params|)
      modifies this
      ensures f == LowerFunction(params, body, returnsVoid) && Stacks() == old(Stacks())
      ensures nextReg == LowerBody(params, body, returnsVoid).nextReg
      ensures forall w, from, st, fuel ::
                Ends(w, f, Edge(from, f.entry, st), fuel,
                     EvalFunction(w, params, body, returnsVoid, st.env, LoweringRuns.MemOf(st), fuel))
      ensures forall b :: b in Built().blocks ==> Built().blocks[b].term.Some?
    {
      VisitParams(params);
      StartReady(params);
      AllTerminated(params, body, returnsVoid);
      hide LowerStmts, Valid, Grown, Ready, Start;
      VisitStmts(body, []);
      StmtIs(Start(params), Built());
      GrownCur(Start(params), Built(), {});
      if blocks[cur].term.None? {
        CreateRet(if returnsVoid then None else Some(Const(IntVal(0))));
      }
      f := Finished(Built());
      forall w, from, st, fuel
        ensures Ends(w, f, Edge(from, f.entry, st), fuel,
                     EvalFunction(w, params, body, returnsVoid, st.env, LoweringRuns.MemOf(st), fuel))
      {
        hide *;
        LoweringPreservesMeaning(w, params, body, returnsVoid, from, st, fuel);
      }
    }
  }

  /** What the cast loop over the predecessors collects. */
  method Labels(preds: seq<BlockId>, bbt: BlockId) returns (pairs: seq<(Operand, BlockId)>)
    ensures pairs == CastPairs(preds, bbt)
  {
    pairs := [(Const(IntVal(1)), bbt)];
    var i := |preds|;
    assert preds[i..] == [];
    while i > 0
      invariant 0 <= i <= |preds| && pairs == CastPairs(preds[i..], bbt)
    {
      i := i - 1;
      assert preds[i..][1..] == preds[i + 1..];
      pairs := [(Const(IntVal(0)), preds[i])] + pairs;
    }
    assert preds[0..] == preds;
  }

  lemma CastLowered(c: A.Cond, s: Build, t: Build)
    requires t == LowerCond(c, Create(Create(s)), s.nextBlock, s.nextBlock + 1)
    ensures var u := MoveTo(Branch(MoveTo(t, s.nextBlock), s.nextBlock + 1), s.nextBlock + 1);
            LowerExp(A.FromBool(c), s) == (AddPhi(u, CastPairs(Preds(t, s.nextBlock + 1), s.nextBlock)), Reg(u.nextReg))
  {
    hide LowerCond, Branch, MoveTo, AddPhi, CastPairs, Preds, Create;
  }

  lemma PairIs(s: Build, o: Operand, p: (Build, Operand))
    requires p.0 == s && p.1 == o
    ensures p == (s, o)
  {
  }

  lemma CreatedTargets(s: Build, ts: Targets)
    requires CanBranch(s, ts)
    ensures CanBranch(Create(s), ts)
  {
  }

  /** The operands before the `i`th have been visited. */
  ghost predicate LogicGoing(isOr: bool, cs: seq<A.Cond>, i: nat, s: Build, t: Build, ts: Targets) {
    && i < |cs| && Ready(t) && A.ProperConds(cs[i..]) && CanBranch(t, ts)
    && LowerLogic(isOr, cs, s, ts.trues[|ts.trues| - 1], ts.falses[|ts.falses| - 1]) ==
       LowerLogic(isOr, cs[i..], t, ts.trues[|ts.trues| - 1], ts.falses[|ts.falses| - 1])
  }

  lemma LogicStarts(isOr: bool, cs: seq<A.Cond>, s: Build, ts: Targets)
    requires cs != [] && Ready(s) && A.ProperConds(cs) && CanBranch(s, ts)
    ensures LogicGoing(isOr, cs, 0, s, s, ts)
    ensures ts.trues != [] && ts.falses != []
  {
    assert cs[0..] == cs;
  }

  lemma LogicParts(isOr: bool, cs: seq<A.Cond>, i: nat, s: Build, t: Build, ts: Targets)
    requires LogicGoing(isOr, cs, i, s, t, ts)
    ensures i < |cs| && Ready(t) && A.ProperCond(cs[i]) && CanBranch(t, ts) && ts.trues != [] && ts.falses != []
  {
  }

  lemma LogicNext(isOr: bool, cs: seq<A.Cond>, i: nat, s: Build, t: Build, u: Build, ts: Targets)
    requires i < |cs| - 1 && LogicGoing(isOr, cs, i, s, t, ts) && Ready(MoveTo(u, t.nextBlock))
    requires forall b :: b in t.blocks ==> b in MoveTo(u, t.nextBlock).blocks
    requires ts.trues != [] && ts.falses != []
    requires var bbt, bbf := ts.trues[|ts.trues| - 1], ts.falses[|ts.falses| - 1];
             u == LowerCond(cs[i], Create(t), if isOr then bbt else t.nextBlock, if isOr then t.nextBlock else bbf)
    ensures LogicGoing(isOr, cs, i + 1, s, MoveTo(u, t.nextBlock), ts)
  {
    assert cs[i..][1..] == cs[i + 1..];
    hide Ready, LowerCond, Create;
  }

  lemma LogicEnds(isOr: bool, cs: seq<A.Cond>, i: nat, s: Build, t: Build, ts: Targets)
    requires LogicGoing(isOr, cs, i, s, t, ts) && i == |cs| - 1 && ts.trues != [] && ts.falses != []
    ensures Ready(t) && A.ProperCond(cs[i]) && CanBranch(t, ts)
    ensures var bbt, bbf := ts.trues[|ts.trues| - 1], ts.falses[|ts.falses| - 1];
            LowerLogic(isOr, cs, s, bbt, bbf) == LowerCond(cs[i], t, bbt, bbf)
  {
    hide Ready, LowerCond;
  }

  lemma TopsAre(v: AST2IRVisitor, bbt: BlockId, bbf: BlockId, ts: Targets)
    requires v.Stacks() == ts && ts.trues != [] && ts.falses != []
    requires bbt == ts.trues[|ts.trues| - 1] && bbf == ts.falses[|ts.falses| - 1]
    ensures v.true_targets != [] && v.false_targets != []
    ensures v.true_targets[|v.true_targets| - 1] == bbt && v.false_targets[|v.false_targets| - 1] == bbf
  {
  }

  lemma CastReady(s: Build, t: Build)
    requires CastMoves(s, t, MoveTo(Branch(MoveTo(t, s.nextBlock), s.nextBlock + 1), s.nextBlock + 1))
    ensures Open(MoveTo(t, s.nextBlock))
            && Open(MoveTo(Branch(MoveTo(t, s.nextBlock), s.nextBlock + 1), s.nextBlock + 1))
  {
  }

  lemma ExpEnds(s: Build, t: Build)
    requires ExpBuilt(s, t)
    ensures Open(t)
  {
  }

  lemma CurIn(v: AST2IRVisitor)
    ensures v.Built().cur == v.cur && v.Built().blocks == v.blocks
  {
  }

  lemma IfThenIs(c: A.Cond, yes: seq<A.Stmt>, s: Build, loops: seq<Loop>)
    ensures var bbt, bbf := s.nextBlock, s.nextBlock + 1;
            LowerStmt(A.If(c, yes, []), s, loops) ==
            MoveTo(Join(LowerStmts(yes, MoveTo(LowerCond(c, Create(Create(s)), bbt, bbf), bbt), loops), bbf), bbf)
  {
    hide MoveTo, Join, LowerStmts, LowerCond, Create;
  }

  lemma FirstArmIs(c: A.Cond, yes: seq<A.Stmt>, s: Build, loops: seq<Loop>)
    ensures var bbt, bbf, bb := s.nextBlock, s.nextBlock + 1, s.nextBlock + 2;
            FirstArm(c, yes, s, loops) ==
            Join(LowerStmts(yes, MoveTo(LowerCond(c, Create(Create(Create(s))), bbt, bbf), bbt), loops), bb)
  {
    hide MoveTo, Join, LowerStmts, LowerCond, Create;
  }

  lemma IfElseIs(c: A.Cond, yes: seq<A.Stmt>, no: seq<A.Stmt>, s: Build, loops: seq<Loop>)
    requires no != []
    ensures var bbf, bb := s.nextBlock + 1, s.nextBlock + 2;
            LowerStmt(A.If(c, yes, no), s, loops) ==
            Meet(Join(LowerStmts(no, MoveTo(FirstArm(c, yes, s, loops), bbf), loops), bb), bb)
  {
    hide MoveTo, Join, LowerStmts, LowerCond, Create, Meet;
  }

  lemma MeetIs(s: Build, bb: BlockId)
    ensures Meet(s, bb) == if Preds(s, bb) == [] then Remove(s, bb) else MoveTo(s, bb)
  {
  }

  lemma EmptyWhileIs(c: A.Cond, s: Build, loops: seq<Loop>)
    ensures var cond, next := s.nextBlock, s.nextBlock + 1;
            LowerStmt(A.While(c, []), s, loops) ==
            MoveTo(LowerCond(c, MoveTo(Branch(Create(Create(s)), cond), cond), cond, next), next)
  {
    hide MoveTo, LowerCond, Create, Branch;
  }

  lemma NextIn(s: Build, t: Build, next: BlockId)
    requires Grown(s, t, {next})
    ensures next in t.blocks
  {
  }

  lemma RestProper(ss: seq<A.Stmt>, i: nat, inLoop: bool)
    requires i < |ss| && A.ProperStmts(ss[i..], inLoop)
    ensures A.ProperStmt(ss[i], inLoop) && A.ProperStmts(ss[i + 1..], inLoop) && ss[i..][1..] == ss[i + 1..]
  {
    assert ss[i..][1..] == ss[i + 1..];
  }

  lemma StmtsNext(ss: seq<A.Stmt>, i: nat, s: Build, loops: seq<Loop>)
    requires i < |ss| && ss[i..][1..] == ss[i + 1..]
    ensures var t := LowerStmt(ss[i], s, loops);
            LowerStmts(ss[i..], s, loops) == if !Open(t) then t else LowerStmts(ss[i + 1..], t, loops)
  {
    hide LowerStmt, Open;
  }

  lemma OpenIs(s: Build)
    requires s.cur in s.blocks
    ensures Open(s) <==> s.blocks[s.cur].term.None?
  {
  }

  lemma StmtsEnd(ss: seq<A.Stmt>, i: nat, loops: seq<Loop>)
    requires i <= |ss|
    ensures i == |ss| ==> forall s :: LowerStmts(ss[i..], s, loops) == s
  {
  }
}
