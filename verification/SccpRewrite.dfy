/** Using the result of the constant propagation: constant registers are replaced everywhere and
    their instructions erased, branches on constants become jumps (`replace_with_constant`,
    `convert_cond_br`).  Every run of the function is preserved. */
module SccpRewrite {
  import opened IR
  import opened PhiForm
  import opened Sccp

  // ----- Replacing uses -----

  type Constants = map<Reg, Val>

  function SubstOperand(m: Constants, o: Operand): Operand {
    if o.Reg? && o.r in m then Const(m[o.r]) else o
  }

  function SubstOperands(m: Constants, os: seq<Operand>): seq<Operand> {
    seq(|os|, k requires 0 <= k < |os| => SubstOperand(m, os[k]))
  }

  function SubstPtr(m: Constants, p: Ptr): Ptr {
    if p.Addr? then Addr(SubstOperand(m, p.a)) else p
  }

  function SubstInstr(m: Constants, i: Instr): Instr {
    match i
    case Pure(d, op, args) => Pure(d, op, SubstOperands(m, args))
    case Load(d, p) => Load(d, SubstPtr(m, p))
    case Store(v, p) => Store(SubstOperand(m, v), SubstPtr(m, p))
    case Call(d, c, args, e) => Call(d, c, SubstOperands(m, args), e)
    case Alloca(_, _) => i
  }

  function SubstPair(m: Constants, p: (Operand, BlockId)): (Operand, BlockId) {
    (SubstOperand(m, p.0), p.1)
  }

  function SubstPairs(m: Constants, ps: seq<(Operand, BlockId)>): seq<(Operand, BlockId)> {
    seq(|ps|, k requires 0 <= k < |ps| => SubstPair(m, ps[k]))
  }

  function SubstPhi(m: Constants, p: Phi): Phi {
    Phi(p.dst, SubstPairs(m, p.pairs))
  }

  function SubstPhis(m: Constants, phis: seq<Phi>): seq<Phi> {
    seq(|phis|, k requires 0 <= k < |phis| => SubstPhi(m, phis[k]))
  }

  function SubstBody(m: Constants, body: seq<Instr>): seq<Instr> {
    seq(|body|, k requires 0 <= k < |body| => SubstInstr(m, body[k]))
  }

  function SubstTerm(m: Constants, t: Term): Term {
    match t
    case Br(_) => t
    case CondBr(c, x, y) => CondBr(SubstOperand(m, c), x, y)
    case Ret(None) => t
    case Ret(Some(o)) => Ret(Some(SubstOperand(m, o)))
  }

  function SubstBlock(m: Constants, b: Block): Block {
    Block(SubstPhis(m, b.phis), SubstBody(m, b.body), SubstTerm(m, b.term))
  }

  /** `replace_all_use_with` for every register of `m` at once. */
  function SubstFunction(m: Constants, f: Function): Function {
    Function(f.entry, map b | b in f.blocks :: SubstBlock(m, f.blocks[b]))
  }

  // ----- Erasing -----

  function ErasePhis(dead: set<Reg>, phis: seq<Phi>): seq<Phi> {
    if phis == [] then []
    else if phis[0].dst in dead then ErasePhis(dead, phis[1..])
    else [phis[0]] + ErasePhis(dead, phis[1..])
  }

  predicate IsDead(dead: set<Reg>, i: Instr) {
    Defines(i).Some? && Defines(i).value in dead
  }

  function EraseBody(dead: set<Reg>, body: seq<Instr>): seq<Instr> {
    if body == [] then []
    else if IsDead(dead, body[0]) then EraseBody(dead, body[1..])
    else [body[0]] + EraseBody(dead, body[1..])
  }

  function EraseFunction(dead: set<Reg>, f: Function): Function {
    Function(f.entry, map b | b in f.blocks ::
      Block(ErasePhis(dead, f.blocks[b].phis), EraseBody(dead, f.blocks[b].body), f.blocks[b].term))
  }

  // ----- Converting branches -----

  predicate Decided(t: Term) {
    t.CondBr? && t.cond.Const? && t.cond.v.BoolVal?
  }

  function Target(t: Term): BlockId
    requires Decided(t)
  {
    if t.cond.v.b then t.ifTrue else t.ifFalse
  }

  function Invalid(t: Term): BlockId
    requires Decided(t)
  {
    if t.cond.v.b then t.ifFalse else t.ifTrue
  }

  /** The block `p` loses its edge to `b` when its branch is converted. */
  predicate Drops(f: Function, p: BlockId, b: BlockId) {
    p in f.blocks && Decided(f.blocks[p].term) && Invalid(f.blocks[p].term) == b && Target(f.blocks[p].term) != b
  }

  /** `remove_phi_operand` for the predecessors in `gone`. */
  function RemovePairs(pairs: seq<(Operand, BlockId)>, gone: set<BlockId>): seq<(Operand, BlockId)> {
    if pairs == [] then []
    else if pairs[0].1 in gone then RemovePairs(pairs[1..], gone)
    else [pairs[0]] + RemovePairs(pairs[1..], gone)
  }

  function PrunePhis(phis: seq<Phi>, gone: set<BlockId>): seq<Phi> {
    seq(|phis|, k requires 0 <= k < |phis| => Phi(phis[k].dst, RemovePairs(phis[k].pairs, gone)))
  }

  function Gone(f: Function, done: set<BlockId>, b: BlockId): set<BlockId> {
    set p | p in done && Drops(f, p, b)
  }

  function ConvertTerm(t: Term): Term {
    if Decided(t) then Br(Target(t)) else t
  }

  /** The function after the branches of the blocks in `done` have been converted. */
  function ConvertFunction(f: Function, done: set<BlockId>): Function {
    Function(f.entry, map b | b in f.blocks ::
      Block(PrunePhis(f.blocks[b].phis, Gone(f, done, b)), f.blocks[b].body,
            if b in done then ConvertTerm(f.blocks[b].term) else f.blocks[b].term))
  }

  function ConstMap(vm: ValueMap): Constants {
    map r | r in vm && vm[r].Constant? :: vm[r].c
  }

  /** The whole rewriting at once. */
  function Rewritten(f: Function, vm: ValueMap): Function {
    var m := ConstMap(vm);
    ConvertFunction(EraseFunction(m.Keys, SubstFunction(m, f)), f.blocks.Keys)
  }

  // ----- One replacement, one erasure, one conversion at a time -----

  lemma SubstOneInstr(m: Constants, r: Reg, c: Val, i: Instr)
    requires r !in m
    ensures SubstInstr(map[r := c], SubstInstr(m, i)) == SubstInstr(m[r := c], i)
  {
  }

  lemma SubstOnePhi(m: Constants, r: Reg, c: Val, p: Phi)
    requires r !in m
    ensures SubstPhi(map[r := c], SubstPhi(m, p)) == SubstPhi(m[r := c], p)
  {
  }

  lemma SubstOneBlock(m: Constants, r: Reg, c: Val, b: Block)
    requires r !in m
    ensures SubstBlock(map[r := c], SubstBlock(m, b)) == SubstBlock(m[r := c], b)
  {
    forall k | 0 <= k < |b.phis| ensures SubstPhi(map[r := c], SubstPhi(m, b.phis[k])) ==
        SubstPhi(m[r := c], b.phis[k]) {
      SubstOnePhi(m, r, c, b.phis[k]);
    }
    forall k | 0 <= k < |b.body| ensures SubstInstr(map[r := c], SubstInstr(m, b.body[k])) ==
        SubstInstr(m[r := c], b.body[k]) {
      SubstOneInstr(m, r, c, b.body[k]);
    }
    hide SubstPhi, SubstInstr;
  }

  lemma SubstOneMore(m: Constants, r: Reg, c: Val, f: Function)
    requires r !in m
    ensures SubstFunction(map[r := c], SubstFunction(m, f)) == SubstFunction(m[r := c], f)
  {
    forall b | b in f.blocks ensures SubstBlock(map[r := c], SubstBlock(m, f.blocks[b])) ==
        SubstBlock(m[r := c], f.blocks[b]) {
      SubstOneBlock(m, r, c, f.blocks[b]);
    }
    hide SubstBlock;
  }

  lemma {:induction false} ErasePhisOne(dead: set<Reg>, r: Reg, phis: seq<Phi>)
    ensures ErasePhis({r}, ErasePhis(dead, phis)) == ErasePhis(dead + {r}, phis)
  {
    if phis != [] {
      ErasePhisOne(dead, r, phis[1..]);
      assert phis[0].dst !in dead ==> ErasePhis(dead, phis)[1..] == ErasePhis(dead, phis[1..]);
    }
  }

  lemma {:induction false} EraseBodyOne(dead: set<Reg>, r: Reg, body: seq<Instr>)
    ensures EraseBody({r}, EraseBody(dead, body)) == EraseBody(dead + {r}, body)
  {
    if body != [] {
      EraseBodyOne(dead, r, body[1..]);
      assert !IsDead(dead, body[0]) ==> EraseBody(dead, body)[1..] == EraseBody(dead, body[1..]);
    }
  }

  lemma {:induction false} EraseNone(phis: seq<Phi>, body: seq<Instr>)
    ensures ErasePhis({}, phis) == phis && EraseBody({}, body) == body
    decreases |phis| + |body|
  {
    if phis != [] { EraseNone(phis[1..], body); }
    if body != [] { EraseNone(phis, body[1..]); }
  }

  lemma EraseOneMore(dead: set<Reg>, r: Reg, f: Function)
    ensures EraseFunction({r}, EraseFunction(dead, f)) == EraseFunction(dead + {r}, f)
  {
    forall b | b in f.blocks
      ensures ErasePhis({r}, ErasePhis(dead, f.blocks[b].phis)) == ErasePhis(dead + {r}, f.blocks[b].phis)
      ensures EraseBody({r}, EraseBody(dead, f.blocks[b].body)) == EraseBody(dead + {r}, f.blocks[b].body)
    {
      ErasePhisOne(dead, r, f.blocks[b].phis);
      EraseBodyOne(dead, r, f.blocks[b].body);
    }
    hide ErasePhis, EraseBody;
  }

  lemma {:induction false} RemoveOne(pairs: seq<(Operand, BlockId)>, gone: set<BlockId>, p: BlockId)
    ensures RemovePairs(RemovePairs(pairs, gone), {p}) == RemovePairs(pairs, gone + {p})
  {
    if pairs != [] {
      RemoveOne(pairs[1..], gone, p);
      assert pairs[0].1 !in gone ==> RemovePairs(pairs, gone)[1..] == RemovePairs(pairs[1..], gone);
    }
  }

  lemma {:induction false} RemoveNone(pairs: seq<(Operand, BlockId)>)
    ensures RemovePairs(pairs, {}) == pairs
  {
    if pairs != [] { RemoveNone(pairs[1..]); }
  }

  lemma PruneOne(phis: seq<Phi>, gone: set<BlockId>, p: BlockId)
    ensures PrunePhis(PrunePhis(phis, gone), {p}) == PrunePhis(phis, gone + {p})
  {
    forall k | 0 <= k < |phis| ensures RemovePairs(RemovePairs(phis[k].pairs, gone), {p}) ==
        RemovePairs(phis[k].pairs, gone + {p}) {
      RemoveOne(phis[k].pairs, gone, p);
    }
  }

  lemma PruneNone(phis: seq<Phi>)
    ensures PrunePhis(phis, {}) == phis
  {
    forall k | 0 <= k < |phis| ensures RemovePairs(phis[k].pairs, {}) == phis[k].pairs {
      RemoveNone(phis[k].pairs);
    }
  }

  /** `convert_cond_br` on the branch of block `b`: the branch becomes a jump, and the phis of the
      block that lost its edge drop the pair. */
  function ConvertOne(g: Function, b: BlockId): Function
    requires b in g.blocks && Decided(g.blocks[b].term)
  {
    var t := g.blocks[b].term;
    var blocks := g.blocks[b := g.blocks[b].(term := Br(Target(t)))];
    if Target(t) == Invalid(t) || Invalid(t) !in blocks then Function(g.entry, blocks)
    else
      var lost := blocks[Invalid(t)];
      Function(g.entry, blocks[Invalid(t) := lost.(phis := PrunePhis(lost.phis, {b}))])
  }

  lemma GoneOneMore(f: Function, done: set<BlockId>, b: BlockId, x: BlockId)
    requires b !in done
    ensures Gone(f, done + {b}, x) == Gone(f, done, x) + if Drops(f, b, x) then {b} else {}
  {
  }

  lemma ConvertOneBlock(f: Function, done: set<BlockId>, b: BlockId, x: BlockId)
    requires b in f.blocks && b !in done && x in f.blocks && Decided(f.blocks[b].term)
    ensures ConvertOne(ConvertFunction(f, done), b).blocks[x] == ConvertFunction(f, done + {b}).blocks[x]
  {
    GoneOneMore(f, done, b, x);
    PruneOne(f.blocks[x].phis, Gone(f, done, x), b);
    hide PrunePhis, Gone;
    assert Gone(f, done, x) + {} == Gone(f, done, x);
  }

  lemma ConvertOneMore(f: Function, done: set<BlockId>, b: BlockId)
    requires b in f.blocks && b !in done
    ensures Decided(f.blocks[b].term) ==> ConvertOne(ConvertFunction(f, done), b) == ConvertFunction(f, done + {b})
    ensures !Decided(f.blocks[b].term) ==> ConvertFunction(f, done) == ConvertFunction(f, done + {b})
  {
    var g, g' := ConvertFunction(f, done), ConvertFunction(f, done + {b});
    if Decided(f.blocks[b].term) {
      var h := ConvertOne(g, b);
      forall x | x in f.blocks ensures h.blocks[x] == g'.blocks[x] {
        ConvertOneBlock(f, done, b, x);
      }
      assert h.blocks.Keys == g'.blocks.Keys;
      assert h.blocks == g'.blocks;
    } else {
      forall x | x in f.blocks ensures Gone(f, done + {b}, x) == Gone(f, done, x) {
        GoneOneMore(f, done, b, x);
      }
      hide PrunePhis, Gone;
      assert g.blocks == g'.blocks;
    }
  }

  // ----- The pass -----

  lemma SubstNothing(f: Function)
    ensures SubstFunction(map[], f) == f
  {
    forall b | b in f.blocks ensures SubstBlock(map[], f.blocks[b]) == f.blocks[b] {
      forall k | 0 <= k < |f.blocks[b].phis| ensures SubstPhi(map[], f.blocks[b].phis[k]) == f.blocks[b].phis[k] {}
      forall k | 0 <= k < |f.blocks[b].body| ensures SubstInstr(map[], f.blocks[b].body[k]) == f.blocks[b].body[k] {}
      hide SubstPhi, SubstInstr;
    }
    hide SubstBlock;
  }

  lemma EraseNothing(f: Function)
    ensures EraseFunction({}, f) == f
  {
    forall b | b in f.blocks
      ensures ErasePhis({}, f.blocks[b].phis) == f.blocks[b].phis && EraseBody({}, f.blocks[b].body) == f.blocks[b].body
    {
      EraseNone(f.blocks[b].phis, f.blocks[b].body);
    }
    hide ErasePhis, EraseBody;
  }

  lemma ConvertNothing(f: Function)
    ensures ConvertFunction(f, {}) == f
  {
    forall b | b in f.blocks ensures PrunePhis(f.blocks[b].phis, Gone(f, {}, b)) == f.blocks[b].phis {
      assert Gone(f, {}, b) == {};
      PruneNone(f.blocks[b].phis);
    }
    hide PrunePhis, Gone;
  }

  // ----- What the rewriting leaves -----

  ghost predicate NoneRead(m: Constants, os: seq<Operand>) {
    forall r :: r in m ==> Reg(r) !in os
  }

  /** No register of `m` is read or defined. */
  ghost predicate FreeOf(m: Constants, b: Block) {
    && (forall k :: 0 <= k < |b.phis| ==> b.phis[k].dst !in m && NoneRead(m, PhiOperands(b.phis[k])))
    && (forall k :: 0 <= k < |b.body| ==> !IsDead(m.Keys, b.body[k]) && NoneRead(m, Operands(b.body[k])))
    && NoneRead(m, TermOperands(b.term))
  }

  ghost predicate ReadsNone(m: Constants, b: Block) {
    && (forall k :: 0 <= k < |b.phis| ==> NoneRead(m, PhiOperands(b.phis[k])))
    && (forall k :: 0 <= k < |b.body| ==> NoneRead(m, Operands(b.body[k])))
    && NoneRead(m, TermOperands(b.term))
  }

  lemma SubstReadsNone(m: Constants, b: Block)
    ensures ReadsNone(m, SubstBlock(m, b))
  {
  }

  lemma {:induction false} ErasedPhi(dead: set<Reg>, phis: seq<Phi>, k: nat)
    requires k < |ErasePhis(dead, phis)|
    ensures ErasePhis(dead, phis)[k].dst !in dead && ErasePhis(dead, phis)[k] in phis
  {
    if phis[0].dst in dead { ErasedPhi(dead, phis[1..], k); } else if k > 0 { ErasedPhi(dead, phis[1..], k - 1); }
  }

  lemma {:induction false} ErasedInstr(dead: set<Reg>, body: seq<Instr>, k: nat)
    requires k < |EraseBody(dead, body)|
    ensures !IsDead(dead, EraseBody(dead, body)[k]) && EraseBody(dead, body)[k] in body
  {
    if IsDead(dead, body[0]) { ErasedInstr(dead, body[1..], k); } else if k > 0 { ErasedInstr(dead, body[1..], k - 1); }
  }

  lemma EraseFree(m: Constants, b: Block)
    requires ReadsNone(m, b)
    ensures FreeOf(m, Block(ErasePhis(m.Keys, b.phis), EraseBody(m.Keys, b.body), b.term))
  {
    hide NoneRead, IsDead;
    forall k | 0 <= k < |ErasePhis(m.Keys, b.phis)|
      ensures ErasePhis(m.Keys, b.phis)[k].dst !in m && NoneRead(m, PhiOperands(ErasePhis(m.Keys, b.phis)[k]))
    {
      ErasedPhi(m.Keys, b.phis, k);
    }
    forall k | 0 <= k < |EraseBody(m.Keys, b.body)|
      ensures !IsDead(m.Keys, EraseBody(m.Keys, b.body)[k]) && NoneRead(m, Operands(EraseBody(m.Keys, b.body)[k]))
    {
      ErasedInstr(m.Keys, b.body, k);
    }
  }

  lemma {:induction false} RemovedPair(pairs: seq<(Operand, BlockId)>, gone: set<BlockId>, k: nat)
    requires k < |RemovePairs(pairs, gone)|
    ensures RemovePairs(pairs, gone)[k] in pairs
  {
    if pairs[0].1 in gone { RemovedPair(pairs[1..], gone, k); } else if k > 0 { RemovedPair(pairs[1..], gone, k - 1); }
  }

  lemma PruneFree(m: Constants, b: Block, gone: set<BlockId>, done: bool)
    requires FreeOf(m, b)
    ensures FreeOf(m, Block(PrunePhis(b.phis, gone), b.body, if done then ConvertTerm(b.term) else b.term))
  {
    forall k | 0 <= k < |b.phis|
      ensures NoneRead(m, PhiOperands(PrunePhis(b.phis, gone)[k]))
    {
      var pairs, pairs' := b.phis[k].pairs, PrunePhis(b.phis, gone)[k].pairs;
      forall r, j | r in m && 0 <= j < |pairs'| ensures pairs'[j].0 != Reg(r) {
        RemovedPair(pairs, gone, j);
        var i :| 0 <= i < |pairs| && pairs[i] == pairs'[j];
        assert PhiOperands(b.phis[k])[i] == pairs[i].0;
      }
    }
  }

  lemma RewrittenFree(f: Function, vm: ValueMap, b: BlockId)
    requires b in f.blocks
    ensures b in Rewritten(f, vm).blocks && FreeOf(ConstMap(vm), Rewritten(f, vm).blocks[b])
  {
    var m := ConstMap(vm);
    var f1 := SubstFunction(m, f);
    var f2 := EraseFunction(m.Keys, f1);
    SubstReadsNone(m, f.blocks[b]);
    hide FreeOf, ReadsNone, SubstBlock, ErasePhis, EraseBody, PrunePhis, ConvertTerm, Gone;
    EraseFree(m, f1.blocks[b]);
    PruneFree(m, f2.blocks[b], Gone(f2, f.blocks.Keys, b), true);
  }

  /** A register that was found constant is neither defined nor read any more. */
  ghost predicate ConstantsGone(vm: ValueMap, g: Function) {
    forall r, y :: r in vm && vm[r].Constant? && IsRef(g, y) ==>
      RefDefines(g, y) != Some(r) && Reg(r) !in RefOperands(g, y)
  }

  lemma FreeAt(m: Constants, g: Function, y: Ref, r: Reg)
    requires IsRef(g, y) && FreeOf(m, g.blocks[y.b]) && r in m
    ensures RefDefines(g, y) != Some(r) && Reg(r) !in RefOperands(g, y)
  {
    hide PhiOperands, Operands, TermOperands;
  }

  lemma RewrittenGone(f: Function, vm: ValueMap)
    ensures ConstantsGone(vm, Rewritten(f, vm))
  {
    hide *;
    RewrittenKeys(f, vm);
    var g := Rewritten(f, vm);
    forall r, y | r in ConstMap(vm) && IsRef(g, y)
      ensures RefDefines(g, y) != Some(r) && Reg(r) !in RefOperands(g, y)
    {
      RefIn(g, y);
      RewrittenFree(f, vm, y.b);
      FreeAt(ConstMap(vm), g, y, r);
    }
    GoneIs(vm, g);
  }

  lemma RewrittenKeys(f: Function, vm: ValueMap)
    ensures Rewritten(f, vm).blocks.Keys == f.blocks.Keys
  {
  }

  lemma RefIn(g: Function, y: Ref)
    requires IsRef(g, y)
    ensures y.b in g.blocks
  {
  }

  lemma GoneIs(vm: ValueMap, g: Function)
    requires forall r, y :: r in ConstMap(vm) && IsRef(g, y) ==>
               RefDefines(g, y) != Some(r) && Reg(r) !in RefOperands(g, y)
    ensures ConstantsGone(vm, g)
  {
    hide RefOperands, RefDefines, IsRef;
    assert forall r :: r in vm && vm[r].Constant? ==> r in ConstMap(vm);
    hide ConstMap;
  }

  /** A branch on what was found constant is a jump to where it went; other branches go where they went. */
  ghost predicate BranchesDecided(f: Function, vm: ValueMap, g: Function) {
    && g.blocks.Keys == f.blocks.Keys && g.entry == f.entry
    && forall b :: b in f.blocks ==> TermDecided(vm, f.blocks[b].term, g.blocks[b].term)
  }

  ghost predicate TermDecided(vm: ValueMap, t: Term, t': Term) {
    match t
    case CondBr(c, x, y) =>
      var s := Get(vm, c);
      if s.Constant? && s.c.BoolVal? then t' == Br(if s.c.b then x else y)
      else t'.CondBr? && t'.ifTrue == x && t'.ifFalse == y && IsPut(vm, c, t'.cond)
    case Br(x) => t' == Br(x)
    case Ret(None) => t' == Ret(None)
    case Ret(Some(o)) => t'.Ret? && t'.result.Some? && IsPut(vm, o, t'.result.value)
  }

  /** `o'` is `o`, or the constant that was found for it. */
  predicate IsPut(vm: ValueMap, o: Operand, o': Operand) {
    o' == if o.Reg? && o.r in vm && vm[o.r].Constant? then Const(vm[o.r].c) else o
  }

  lemma ConvertDecided(vm: ValueMap, t: Term)
    ensures TermDecided(vm, t, ConvertTerm(SubstTerm(ConstMap(vm), t)))
  {
  }

  lemma RewrittenTerm(f: Function, vm: ValueMap, b: BlockId)
    requires b in f.blocks
    ensures b in Rewritten(f, vm).blocks
            && Rewritten(f, vm).blocks[b].term == ConvertTerm(SubstTerm(ConstMap(vm), f.blocks[b].term))
  {
    hide FreeOf, ReadsNone, ErasePhis, EraseBody, PrunePhis, ConvertTerm, Gone, SubstPhis, SubstBody, SubstTerm;
  }

  lemma RewrittenDecided(f: Function, vm: ValueMap)
    ensures BranchesDecided(f, vm, Rewritten(f, vm))
  {
    var g := Rewritten(f, vm);
    assert g.blocks.Keys == f.blocks.Keys && g.entry == f.entry;
    forall b | b in f.blocks ensures g.blocks[b].term == ConvertTerm(SubstTerm(ConstMap(vm), f.blocks[b].term)) {
      RewrittenTerm(f, vm, b);
      hide Rewritten;
    }
    hide Rewritten, TermDecided, ConvertTerm, SubstTerm, ConstMap;
    forall b | b in f.blocks ensures TermDecided(vm, f.blocks[b].term, g.blocks[b].term) {
      ConvertDecided(vm, f.blocks[b].term);
    }
  }

  lemma {:induction false} RemovedChoice(pairs: seq<(Operand, BlockId)>, gone: set<BlockId>, q: BlockId)
    ensures PhiChoice(RemovePairs(pairs, gone), q) == if q in gone then None else PhiChoice(pairs, q)
  {
    if pairs != [] { RemovedChoice(pairs[1..], gone, q); }
  }

  lemma {:induction false} SubstChoice(m: Constants, pairs: seq<(Operand, BlockId)>, q: BlockId)
    ensures PhiChoice(SubstPairs(m, pairs), q).Some? <==> PhiChoice(pairs, q).Some?
  {
    if pairs != [] {
      assert SubstPairs(m, pairs)[1..] == SubstPairs(m, pairs[1..]);
      SubstChoice(m, pairs[1..], q);
    }
  }

  /** A block loses exactly the predecessors whose pairs are taken out of its phis. */
  lemma ConvertedPreds(f: Function, b: BlockId)
    requires b in f.blocks
    ensures Preds(ConvertFunction(f, f.blocks.Keys), b) == Preds(f, b) - Gone(f, f.blocks.Keys, b)
  {
    var g := ConvertFunction(f, f.blocks.Keys);
    hide PrunePhis;
    forall p | p in f.blocks ensures IsPred(g, p, b) <==> IsPred(f, p, b) && !Drops(f, p, b) {
      assert g.blocks[p].term == ConvertTerm(f.blocks[p].term);
      hide ConvertFunction;
    }
    hide ConvertFunction, Drops;
    assert g.blocks.Keys == f.blocks.Keys;
  }

  lemma SubstPreds(m: Constants, dead: set<Reg>, f: Function, b: BlockId)
    ensures Preds(EraseFunction(dead, SubstFunction(m, f)), b) == Preds(f, b)
  {
    var g := EraseFunction(dead, SubstFunction(m, f));
    hide *;
    forall p | p in f.blocks ensures p in g.blocks && Successors(g.blocks[p].term) == Successors(f.blocks[p].term) {
      SubstTermAt(m, dead, f, p);
      SubstTermTargets(m, f.blocks[p].term);
    }
    ErasedKeys(m, dead, f);
    SamePreds(f, g, b);
  }

  lemma SubstTermAt(m: Constants, dead: set<Reg>, f: Function, p: BlockId)
    requires p in f.blocks
    ensures var g := EraseFunction(dead, SubstFunction(m, f));
            p in g.blocks && g.blocks[p].term == SubstTerm(m, f.blocks[p].term)
  {
    hide ErasePhis, EraseBody, SubstPhis, SubstBody, SubstTerm;
  }

  lemma SubstTermTargets(m: Constants, t: Term)
    ensures Successors(SubstTerm(m, t)) == Successors(t)
  {
  }

  lemma ErasedKeys(m: Constants, dead: set<Reg>, f: Function)
    ensures EraseFunction(dead, SubstFunction(m, f)).blocks.Keys == f.blocks.Keys
  {
    hide ErasePhis, EraseBody, SubstBlock;
  }

  lemma SamePreds(f: Function, g: Function, b: BlockId)
    requires g.blocks.Keys == f.blocks.Keys
    requires forall p :: p in f.blocks ==> Successors(g.blocks[p].term) == Successors(f.blocks[p].term)
    ensures Preds(g, b) == Preds(f, b)
  {
    hide Successors;
  }

  /** Phis that fitted their predecessors still do. */
  lemma RewrittenComplete(f: Function, vm: ValueMap, b: BlockId)
    requires PhisComplete(f, b)
    ensures PhisComplete(Rewritten(f, vm), b)
  {
    var m := ConstMap(vm);
    var f1 := SubstFunction(m, f);
    var f2 := EraseFunction(m.Keys, f1);
    var g := ConvertFunction(f2, f2.blocks.Keys);
    assert f2.blocks.Keys == f.blocks.Keys && g == Rewritten(f, vm);
    SubstPreds(m, m.Keys, f, b);
    ConvertedPreds(f2, b);
    var gone := Gone(f2, f2.blocks.Keys, b);
    assert g.blocks[b].phis == PrunePhis(f2.blocks[b].phis, gone);
    assert f2.blocks[b].phis == ErasePhis(m.Keys, SubstPhis(m, f.blocks[b].phis));
    hide SubstFunction, EraseFunction, ConvertFunction, Rewritten, Gone, Preds, ErasePhis, RemovePairs, SubstPairs,
        PhiChoice;
    forall j | 0 <= j < |g.blocks[b].phis| ensures Complete(g.blocks[b].phis[j], Preds(g, b)) {
      ErasedPhi(m.Keys, SubstPhis(m, f.blocks[b].phis), j);
      var p := f2.blocks[b].phis[j];
      var i :| 0 <= i < |f.blocks[b].phis| && SubstPhis(m, f.blocks[b].phis)[i] == p;
      forall q ensures PhiChoice(g.blocks[b].phis[j].pairs, q).Some? <==> q in Preds(g, b) {
        RemovedChoice(p.pairs, gone, q);
        SubstChoice(m, f.blocks[b].phis[i].pairs, q);
        assert Complete(f.blocks[b].phis[i], Preds(f, b));
      }
    }
  }

  // ----- The three loops -----

  /** The three loops of the rewriting, each one element at a time, in whatever order. */
  method ReplaceWithConstant(f: Function, vm: ValueMap) returns (g: Function)
    ensures g == Rewritten(f, vm)
    ensures ConstantsGone(vm, g) && BranchesDecided(f, vm, g)
    ensures forall b :: PhisComplete(f, b) ==> PhisComplete(g, b)
  {
    var m := ConstMap(vm);
    g := f;
    SubstNothing(f);
    var todo := m.Keys;
    var del: set<Reg> := {};
    ghost var replaced: Constants := map[];
    while todo != {}
      invariant todo <= m.Keys && replaced.Keys == del == m.Keys - todo
      invariant forall r :: r in replaced ==> replaced[r] == m[r]
      invariant g == SubstFunction(replaced, f)
    {
      hide *;
      var r :| r in todo;
      SubstOneMore(replaced, r, m[r], f);
      g := SubstFunction(map[r := m[r]], g);
      replaced := replaced[r := m[r]];
      del := del + {r};
      todo := todo - {r};
    }
    assert replaced == m;
    g := EraseAll(g, del);
    g := ConvertAll(g);
    assert g.blocks.Keys == f.blocks.Keys;
    RewrittenGone(f, vm);
    RewrittenDecided(f, vm);
    forall b | PhisComplete(f, b) ensures PhisComplete(g, b) { RewrittenComplete(f, vm, b); }
  }

  method EraseAll(g0: Function, del: set<Reg>) returns (g: Function)
    ensures g == EraseFunction(del, g0)
  {
    g := g0;
    EraseNothing(g0);
    hide *;
    var todo, done: set<Reg> := del, {};
    while todo != {}
      invariant todo <= del && done == del - todo
      invariant g == EraseFunction(done, g0)
    {
      var r :| r in todo;
      EraseOneMore(done, r, g0);
      g, done, todo := EraseFunction({r}, g), done + {r}, todo - {r};
    }
    assert done == del;
  }

  method ConvertAll(g0: Function) returns (g: Function)
    ensures g == ConvertFunction(g0, g0.blocks.Keys)
  {
    g := g0;
    ConvertNothing(g0);
    var todo, done: set<BlockId> := g0.blocks.Keys, {};
    while todo != {}
      invariant todo <= g0.blocks.Keys && done == g0.blocks.Keys - todo
      invariant g == ConvertFunction(g0, done)
    {
      var b :| b in todo;
      ConvertOneMore(g0, done, b);
      TermUntouched(g0, done, b);
      hide *;
      if Decided(g.blocks[b].term) {
        g := ConvertOne(g, b);
      }
      done, todo := done + {b}, todo - {b};
    }
    assert done == g0.blocks.Keys;
  }

  lemma TermUntouched(f: Function, done: set<BlockId>, b: BlockId)
    requires b in f.blocks && b !in done
    ensures b in ConvertFunction(f, done).blocks && ConvertFunction(f, done).blocks[b].term == f.blocks[b].term
  {
  }
}
