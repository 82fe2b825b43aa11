/** Rewriting with constants leaves everything else as it is. */
module SccpForm {
  import opened IR
  import opened PhiForm
  import opened Sccp
  import opened SccpRewrite
  import opened Sequences

  // ----- What stays -----

  ghost predicate ArePut(vm: ValueMap, os: seq<Operand>, os': seq<Operand>) {
    |os'| == |os| && forall k :: 0 <= k < |os| ==> IsPut(vm, os[k], os'[k])
  }

  ghost predicate PtrPut(vm: ValueMap, p: Ptr, p': Ptr) {
    match p
    case Local(_) => p' == p
    case Addr(a) => p'.Addr? && IsPut(vm, a, p'.a)
  }

  /** `i'` is `i` with constants put in. */
  ghost predicate InstrPut(vm: ValueMap, i: Instr, i': Instr) {
    match i
    case Pure(d, op, args) => i'.Pure? && i'.dst == d && i'.op == op && ArePut(vm, args, i'.args)
    case Load(d, p) => i'.Load? && i'.dst == d && PtrPut(vm, p, i'.p)
    case Store(v, p) => i'.Store? && IsPut(vm, v, i'.value) && PtrPut(vm, p, i'.p)
    case Call(d, c, args, e) =>
      i'.Call? && i'.dst == d && i'.callee == c && i'.effects == e && ArePut(vm, args, i'.args)
    case Alloca(_, _) => i' == i
  }

  /** `p'` is `p` with constants put in, for the blocks that still jump to its block. */
  ghost predicate PhiPut(vm: ValueMap, p: Phi, p': Phi, preds: set<BlockId>) {
    && p'.dst == p.dst
    && forall q :: q in preds ==>
         var o, o' := PhiChoice(p.pairs, q), PhiChoice(p'.pairs, q);
         o'.Some? == o.Some? && (o.Some? ==> IsPut(vm, o.value, o'.value))
  }

  predicate Found(vm: ValueMap, r: Option<Reg>) {
    r.Some? && r.value in vm && vm[r.value].Constant?
  }

  /** The body has all instructions but those that define a constant. */
  ghost predicate BodyPut(vm: ValueMap, body: seq<Instr>, body': seq<Instr>) {
    exists os ::
      && |os| == |body'| && Increasing(os)
      && (forall k :: k in os <==> 0 <= k < |body| && !Found(vm, Defines(body[k])))
      && forall j :: 0 <= j < |os| && os[j] < |body| ==> InstrPut(vm, body[os[j]], body'[j])
  }

  ghost predicate PhisPut(vm: ValueMap, phis: seq<Phi>, phis': seq<Phi>, preds: set<BlockId>) {
    exists os ::
      && |os| == |phis'| && Increasing(os)
      && (forall k :: k in os <==> 0 <= k < |phis| && !Found(vm, Some(phis[k].dst)))
      && forall j :: 0 <= j < |os| && os[j] < |phis| ==> PhiPut(vm, phis[os[j]], phis'[j], preds)
  }

  ghost predicate RestStays(f: Function, vm: ValueMap, g: Function) {
    forall b :: b in f.blocks ==>
      && b in g.blocks
      && PhisPut(vm, f.blocks[b].phis, g.blocks[b].phis, Preds(g, b))
      && BodyPut(vm, f.blocks[b].body, g.blocks[b].body)
  }

  // ----- The rewriting does that -----

  lemma SubstIsPut(vm: ValueMap, o: Operand)
    ensures IsPut(vm, o, SubstOperand(ConstMap(vm), o))
  {
  }

  lemma SubstArePut(vm: ValueMap, os: seq<Operand>)
    ensures ArePut(vm, os, SubstOperands(ConstMap(vm), os))
  {
    hide ConstMap, IsPut, SubstOperand;
    forall k | 0 <= k < |os| ensures IsPut(vm, os[k], SubstOperand(ConstMap(vm), os[k])) { SubstIsPut(vm, os[k]); }
  }

  lemma SubstInstrPut(vm: ValueMap, i: Instr)
    ensures InstrPut(vm, i, SubstInstr(ConstMap(vm), i))
    ensures Defines(SubstInstr(ConstMap(vm), i)) == Defines(i)
  {
    hide ConstMap, IsPut, SubstOperand, SubstOperands, ArePut;
    match i
    case Pure(_, _, args) => SubstArePut(vm, args);
    case Load(_, p) => if p.Addr? { SubstIsPut(vm, p.a); }
    case Store(v, p) =>
      SubstIsPut(vm, v);
      if p.Addr? { SubstIsPut(vm, p.a); }
    case Call(_, _, args, _) => SubstArePut(vm, args);
    case Alloca(_, _) =>
  }

  lemma {:induction false} EraseBodyPicks(dead: set<Reg>, all: seq<Instr>, k: nat) returns (os: seq<nat>)
    requires k <= |all|
    ensures PicksFrom(EraseBody(dead, all[k..]), all, os, k)
    ensures forall i :: i in os <==> k <= i < |all| && !IsDead(dead, all[i])
    decreases |all| - k
  {
    os := [];
    if k < |all| {
      os := EraseBodyPicks(dead, all, k + 1);
      assert all[k..][1..] == all[k + 1..];
      hide PicksFrom, IsDead;
      PicksOneMore(EraseBody(dead, all[k + 1..]), all, os, k);
      if !IsDead(dead, all[k]) { os := [k] + os; }
    }
  }

  lemma {:induction false} ErasePhisPick(dead: set<Reg>, all: seq<Phi>, k: nat) returns (os: seq<nat>)
    requires k <= |all|
    ensures PicksFrom(ErasePhis(dead, all[k..]), all, os, k)
    ensures forall i :: i in os <==> k <= i < |all| && all[i].dst !in dead
    decreases |all| - k
  {
    os := [];
    if k < |all| {
      os := ErasePhisPick(dead, all, k + 1);
      assert all[k..][1..] == all[k + 1..];
      hide PicksFrom;
      PicksOneMore(ErasePhis(dead, all[k + 1..]), all, os, k);
      if all[k].dst !in dead { os := [k] + os; }
    }
  }

  lemma FoundIs(vm: ValueMap, r: Option<Reg>)
    ensures Found(vm, r) <==> r.Some? && r.value in ConstMap(vm)
  {
  }

  lemma BodyStays(vm: ValueMap, body: seq<Instr>)
    ensures BodyPut(vm, body, EraseBody(ConstMap(vm).Keys, SubstBody(ConstMap(vm), body)))
  {
    var m := ConstMap(vm);
    var body1 := SubstBody(m, body);
    assert body1[0..] == body1;
    var os := EraseBodyPicks(m.Keys, body1, 0);
    var body' := EraseBody(m.Keys, body1);
    forall k | 0 <= k < |body|
      ensures InstrPut(vm, body[k], body1[k]) && IsDead(m.Keys, body1[k]) == Found(vm, Defines(body[k]))
    {
      SubstInstrPut(vm, body[k]);
      FoundIs(vm, Defines(body[k]));
    }
    hide ConstMap, EraseBody, InstrPut, IsDead, Found, SubstInstr;
    assert forall k :: k in os <==> 0 <= k < |body| && !Found(vm, Defines(body[k]));
  }

  lemma SubstPairAt(m: Constants, pairs: seq<(Operand, BlockId)>, q: BlockId)
    ensures PhiChoice(SubstPairs(m, pairs), q) ==
            if PhiChoice(pairs, q).Some? then Some(SubstOperand(m, PhiChoice(pairs, q).value)) else None
  {
    if pairs != [] {
      assert SubstPairs(m, pairs)[1..] == SubstPairs(m, pairs[1..]);
      SubstPairAt(m, pairs[1..], q);
    }
  }

  lemma PhiStays(vm: ValueMap, p: Phi, gone: set<BlockId>, preds: set<BlockId>)
    requires preds !! gone
    ensures PhiPut(vm, p, Phi(p.dst, RemovePairs(SubstPairs(ConstMap(vm), p.pairs), gone)), preds)
  {
    var m := ConstMap(vm);
    hide ConstMap, IsPut, SubstOperand, SubstPairs, RemovePairs, PhiChoice;
    forall q | q in preds
      ensures var o, o' := PhiChoice(p.pairs, q), PhiChoice(RemovePairs(SubstPairs(m, p.pairs), gone), q);
              o'.Some? == o.Some? && (o.Some? ==> IsPut(vm, o.value, o'.value))
    {
      RemovedChoice(SubstPairs(m, p.pairs), gone, q);
      SubstPairAt(m, p.pairs, q);
      if PhiChoice(p.pairs, q).Some? { SubstIsPut(vm, PhiChoice(p.pairs, q).value); }
    }
  }

  lemma PhisStay(vm: ValueMap, phis: seq<Phi>, gone: set<BlockId>, preds: set<BlockId>)
    requires preds !! gone
    ensures PhisPut(vm, phis, PrunePhis(ErasePhis(ConstMap(vm).Keys, SubstPhis(ConstMap(vm), phis)), gone), preds)
  {
    var m := ConstMap(vm);
    var phis1 := SubstPhis(m, phis);
    assert phis1[0..] == phis1;
    var os := ErasePhisPick(m.Keys, phis1, 0);
    var phis' := PrunePhis(ErasePhis(m.Keys, phis1), gone);
    forall k | 0 <= k < |phis| ensures (phis1[k].dst in m) == Found(vm, Some(phis[k].dst)) {
      FoundIs(vm, Some(phis[k].dst));
    }
    hide ConstMap, ErasePhis, PhiPut, Found, RemovePairs, SubstPairs;
    assert forall k :: k in os <==> 0 <= k < |phis| && !Found(vm, Some(phis[k].dst));
    forall j | 0 <= j < |os| ensures PhiPut(vm, phis[os[j]], phis'[j], preds) {
      PhiStays(vm, phis[os[j]], gone, preds);
    }
  }

  /** Everything that defines no constant is still there, in the same order, with the constants put in. */
  lemma RewrittenStays(f: Function, vm: ValueMap)
    ensures RestStays(f, vm, Rewritten(f, vm))
  {
    forall b | b in f.blocks
      ensures b in Rewritten(f, vm).blocks
      ensures PhisPut(vm, f.blocks[b].phis, Rewritten(f, vm).blocks[b].phis, Preds(Rewritten(f, vm), b))
      ensures BodyPut(vm, f.blocks[b].body, Rewritten(f, vm).blocks[b].body)
    {
      BlockStays(f, vm, b);
    }
    hide Rewritten, PhisPut, BodyPut, Preds;
  }

  lemma BlockStays(f: Function, vm: ValueMap, b: BlockId)
    requires b in f.blocks
    ensures var g := Rewritten(f, vm);
            && b in g.blocks && PhisPut(vm, f.blocks[b].phis, g.blocks[b].phis, Preds(g, b))
            && BodyPut(vm, f.blocks[b].body, g.blocks[b].body)
  {
    var m := ConstMap(vm);
    var f2 := EraseFunction(m.Keys, SubstFunction(m, f));
    var g := ConvertFunction(f2, f2.blocks.Keys);
    assert g == Rewritten(f, vm) by { assert f2.blocks.Keys == f.blocks.Keys; }
    var gone := Gone(f2, f2.blocks.Keys, b);
    ConvertedPreds(f2, b);
    assert g.blocks[b].phis == PrunePhis(ErasePhis(m.Keys, SubstPhis(m, f.blocks[b].phis)), gone);
    assert g.blocks[b].body == EraseBody(m.Keys, SubstBody(m, f.blocks[b].body));
    hide *;
    PhisStay(vm, f.blocks[b].phis, gone, Preds(g, b));
    BodyStays(vm, f.blocks[b].body);
  }
}
