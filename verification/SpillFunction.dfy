/** The machine function whose blocks the spilling rewrites in place. */
module SpillFunction {
  import IR
  import opened MachineCode
  import opened Spill

  class MBasicBlock {
    var instructions: seq<Instr>

    constructor (code: seq<Instr>)
      ensures instructions == code
    {
      instructions := code;
    }
  }

  class MFunction {
    const blocks: seq<MBasicBlock>
    var virtualRegisters: nat
    var stack: nat
    var spilledFrames: set<nat>

    ghost function Code(): (r: seq<seq<Instr>>)
      reads blocks
      ensures |r| == |blocks|
    {
      seq(|blocks|, b requires 0 <= b < |blocks| reads blocks => blocks[b].instructions)
    }

    /** Operands name registers and frame slots of this function, and no two blocks are one object. */
    ghost predicate Valid()
      reads this, blocks
    {
      && (forall a, b :: 0 <= a < b < |blocks| ==> blocks[a] != blocks[b])
      && (forall b :: 0 <= b < |blocks| ==> ListMade(blocks[b].instructions, virtualRegisters, stack))
      && (forall f :: f in spilledFrames ==> f < stack)
    }

    constructor (blocks: seq<MBasicBlock>, virtualRegisters: nat, stack: nat)
      requires forall a, b :: 0 <= a < b < |blocks| ==> blocks[a] != blocks[b]
      requires forall b :: 0 <= b < |blocks| ==> ListMade(blocks[b].instructions, virtualRegisters, stack)
      ensures Valid() && this.blocks == blocks && this.virtualRegisters == virtualRegisters && this.stack == stack
      ensures spilledFrames == {}
    {
      this.blocks, this.virtualRegisters, this.stack, spilledFrames := blocks, virtualRegisters, stack, {};
    }

    method AllocaStack() returns (index: nat)
      modifies this`stack
      ensures index == old(stack) && stack == old(stack) + 1
    {
      index := stack;
      stack := stack + 1;
    }

    method CopyRegister() returns (id: nat)
      modifies this`virtualRegisters
      ensures id == old(virtualRegisters) && virtualRegisters == old(virtualRegisters) + 1
    {
      id := virtualRegisters;
      virtualRegisters := virtualRegisters + 1;
    }

    /** Puts `x` between `a` and `b`. */
    method Emplace(bb: MBasicBlock, at: nat, x: Instr, ghost a: seq<Instr>, ghost b: seq<Instr>)
      requires bb.instructions == a + b && at == |a|
      modifies bb`instructions
      ensures bb.instructions == a + [x] + b
    {
      bb.instructions := bb.instructions[..at] + [x] + bb.instructions[at..];
    }

    /** One turn of the loop over a block: the instruction between `a` and `b` is rewritten where it
        stands.  `i` is where the last instruction put in its place is. */
    method RewriteAt(bb: MBasicBlock, at: nat, vreg: nat, to: nat, start: IR.Option<nat>,
        ghost a: seq<Instr>, inst: Instr, ghost b: seq<Instr>)
      returns (nreg: IR.Option<nat>, i: nat)
      requires bb.instructions == a + [inst] + b && at == |a| && WellShaped(inst)
               && (start.Some? ==> start.value == vreg)
      modifies bb`instructions, this`virtualRegisters
      ensures var n := Names(start.Some?, old(virtualRegisters));
              && bb.instructions == a + Emitted(inst, vreg, to, n) + b
              && i + 1 == |a| + |Emitted(inst, vreg, to, n)|
              && Names(nreg.Some?, virtualRegisters) == After(inst, vreg, n)
      ensures nreg.Some? ==> nreg.value == vreg
    {
      hide WellShaped, HaveUseOf, HaveDefOf, Replace, NewLoad, NewStore;
      nreg, i := start, at;
      var haveUse := HaveUseOf(inst, VReg(vreg));
      var haveDef := HaveDefOf(inst, VReg(vreg));
      if !(haveUse || haveDef) {
        return;
      }
      var name;
      if nreg.None? {
        name := CopyRegister();
      } else {
        name := nreg.value;
      }
      var renamed := Replace(inst, VReg(vreg), VReg(name));
      bb.instructions := bb.instructions[i := renamed];
      assert bb.instructions == a + [renamed] + b;
      ghost var front := a;
      if haveUse {
        assert bb.instructions == a + ([renamed] + b);
        Emplace(bb, i, NewLoad(name, to), a, [renamed] + b);
        front := a + [NewLoad(name, to)];
        i := i + 1;
      }
      assert bb.instructions == (front + [renamed]) + b && i == |front|;
      if haveDef {
        Emplace(bb, i + 1, NewStore(name, to), front + [renamed], b);
        i := i + 1;
      }
      nreg := IR.None;
      ghost var store := if haveDef then [NewStore(name, to)] else [];
      ghost var load := if haveUse then [NewLoad(name, to)] else [];
      assert front == a + load;
      SeqRegroup(a, load, [renamed], store, b);
      assert bb.instructions == front + [renamed] + store + b;
    }

    /** The rewriting of one block: `start` is the name to give away, if one is already known. */
    method SpillBlock(bb: MBasicBlock, vreg: nat, to: nat, start: IR.Option<nat>) returns (nreg: IR.Option<nat>)
      requires AllShaped(bb.instructions) && (start.Some? ==> start.value == vreg)
      modifies bb`instructions, this`virtualRegisters
      ensures bb.instructions == SpillList(old(bb.instructions), vreg, to, Names(start.Some?, old(virtualRegisters)))
      ensures Names(nreg.Some?, virtualRegisters)
           == NamesAfter(old(bb.instructions), vreg, Names(start.Some?, old(virtualRegisters)))
      ensures nreg.Some? ==> nreg.value == vreg
    {
      nreg := start;
      ghost var code := bb.instructions;
      ghost var n := Names(start.Some?, virtualRegisters);
      ghost var k := 0;
      var i := 0;
      SpillNothing(vreg, to, n);
      assert code[..0] == [] && code[0..] == code;
      hide WellShaped, SpillList, NamesAfter, Emitted, After;
      while i < |bb.instructions|
        invariant k <= |code| && AllShaped(code[..k]) && i == |SpillList(code[..k], vreg, to, n)|
        invariant bb.instructions == SpillList(code[..k], vreg, to, n) + code[k..]
        invariant Names(nreg.Some?, virtualRegisters) == NamesAfter(code[..k], vreg, n)
        invariant nreg.Some? ==> nreg.value == vreg
        decreases |code| - k
      {
        ghost var done := SpillList(code[..k], vreg, to, n);
        TakeOne(done, code, k);
        ShapedMore(code, k);
        SpillOneMore(code, k, vreg, to, n);
        nreg, i := RewriteAt(bb, i, vreg, to, nreg, done, bb.instructions[i], code[k + 1..]);
        k := k + 1;
        i := i + 1;
      }
      assert code[..k] == code;
    }

    /** The rewriting of the `b`th block leaves the others alone. */
    method SpillNth(b: nat, vreg: nat, to: nat, start: IR.Option<nat>) returns (nreg: IR.Option<nat>)
      requires forall a, c :: 0 <= a < c < |blocks| ==> blocks[a] != blocks[c]
      requires b < |blocks| && AllShaped(Code()[b]) && (start.Some? ==> start.value == vreg)
      modifies blocks[b], this`virtualRegisters
      ensures AllShaped(old(Code())[b])
      ensures var n := Names(start.Some?, old(virtualRegisters));
              && Code() == old(Code())[b := SpillList(old(Code())[b], vreg, to, n)]
              && Names(nreg.Some?, virtualRegisters) == NamesAfter(old(Code())[b], vreg, n)
      ensures nreg.Some? ==> nreg.value == vreg
    {
      hide AllShaped, SpillList, NamesAfter;
      ghost var code := Code();
      CodeAt(b);
      nreg := SpillBlock(blocks[b], vreg, to, start);
      forall c | 0 <= c < |blocks| ensures Code()[c] == code[b := blocks[b].instructions][c] {
        assert c != b ==> blocks[c] != blocks[b];
      }
    }

    lemma CodeAt(b: nat)
      requires b < |blocks|
      ensures Code()[b] == blocks[b].instructions
    {
    }

    /** The loop over the blocks, which hold `f`. */
    method SpillEach(vreg: nat, to: nat, ghost f: seq<seq<Instr>>)
      requires forall a, b :: 0 <= a < b < |blocks| ==> blocks[a] != blocks[b]
      requires Code() == f && BlocksShaped(f)
      modifies this`virtualRegisters, blocks
      ensures var n := Names(true, old(virtualRegisters));
              Code() == SpillBlocks(f, vreg, to, n) && virtualRegisters == NamesAfterBlocks(f, vreg, n).next
    {
      hide *;
      ghost var n := Names(true, virtualRegisters);
      var nreg: IR.Option<nat> := IR.Some(vreg);
      NoneRewritten(f, vreg, to, n);
      for b := 0 to |blocks|
        invariant Rewritten(f, Code(), b, vreg, to, n, Names(nreg.Some?, virtualRegisters))
        invariant nreg.Some? ==> nreg.value == vreg
      {
        RewrittenParts(f, Code(), b, vreg, to, n, Names(nreg.Some?, virtualRegisters));
        ghost var code, names := Code(), Names(nreg.Some?, virtualRegisters);
        nreg := SpillNth(b, vreg, to, nreg);
        OneRewritten(f, code, b, vreg, to, n, names);
      }
      AllRewritten(f, Code(), vreg, to, n, Names(nreg.Some?, virtualRegisters));
    }

    /** Spills `vreg` to a new slot. */
    method Spill(vreg: nat) returns (to: nat)
      requires Valid() && vreg < virtualRegisters
      modifies this, blocks
      ensures Valid() && to == old(stack) && stack == old(stack) + 1 && spilledFrames == old(spilledFrames) + {to}
      ensures BlocksShaped(old(Code()))
      ensures Code() == SpillBlocks(old(Code()), vreg, to, Names(true, old(virtualRegisters)))
      ensures virtualRegisters == NamesAfterBlocks(old(Code()), vreg, Names(true, old(virtualRegisters))).next
      ensures BlocksReady(old(Code()), old(virtualRegisters), old(stack))
              ==> BlocksReady(Code(), virtualRegisters, stack)
    {
      hide *;
      ghost var f, vregs := Code(), virtualRegisters;
      CodeReady();
      to := AllocaStack();
      spilledFrames := spilledFrames + {to};
      SpillEach(vreg, to, f);
      SpilledMade(f, vreg, to, Names(true, vregs), vregs);
      if BlocksReady(f, vregs, to) { SpilledReady(f, vreg, to, Names(true, vregs), vregs); }
      ValidIs();
    }

    lemma ValidIs()
      requires forall a, b :: 0 <= a < b < |blocks| ==> blocks[a] != blocks[b]
      requires BlocksMade(Code(), virtualRegisters, stack)
      requires forall f :: f in spilledFrames ==> f < stack
      ensures Valid()
    {
      hide ListMade;
      assert forall b :: 0 <= b < |blocks| ==> blocks[b].instructions == Code()[b];
    }

    lemma CodeReady()
      requires Valid()
      ensures BlocksMade(Code(), virtualRegisters, stack) && BlocksShaped(Code())
      ensures forall a, b :: 0 <= a < b < |blocks| ==> blocks[a] != blocks[b]
      ensures forall f :: f in spilledFrames ==> f < stack
    {
      hide ListMade;
      assert BlocksMade(Code(), virtualRegisters, stack);
      MadeShaped(Code(), virtualRegisters, stack);
    }
  }

  lemma SeqRegroup<T>(a: seq<T>, b: seq<T>, c: seq<T>, d: seq<T>, e: seq<T>)
    ensures (a + b) + c + d + e == a + (b + c + d) + e
  {
  }

  lemma TakeOne<T>(done: seq<T>, code: seq<T>, k: nat)
    requires k <= |code|
    ensures k < |code| ==> done + code[k..] == done + [code[k]] + code[k + 1..]
    ensures k < |code| ==> (done + code[k..])[|done|] == code[k]
    ensures k == |code| ==> |done + code[k..]| == |done|
  {
  }

  /** The first `b` blocks of `f` have been rewritten in `code`. */
  ghost predicate Rewritten(f: seq<seq<Instr>>, code: seq<seq<Instr>>, b: nat, vreg: nat, slot: nat, n: Names,
                            now: Names) {
    && b <= |f| && BlocksShaped(f) && BlocksShaped(f[..b])
    && |SpillBlocks(f[..b], vreg, slot, n)| == b && code == SpillBlocks(f[..b], vreg, slot, n) + f[b..]
    && now == NamesAfterBlocks(f[..b], vreg, n)
  }

  lemma NoneRewritten(f: seq<seq<Instr>>, vreg: nat, slot: nat, n: Names)
    requires BlocksShaped(f)
    ensures Rewritten(f, f, 0, vreg, slot, n, n)
  {
    hide AllShaped;
    BlocksNothing(vreg, slot, n);
    assert f[..0] == [] && [] + f[0..] == f;
  }

  lemma RewrittenParts(f: seq<seq<Instr>>, code: seq<seq<Instr>>, b: nat, vreg: nat, slot: nat, n: Names, now: Names)
    requires Rewritten(f, code, b, vreg, slot, n, now)
    ensures |code| == |f| && (b < |f| ==> code[b] == f[b] && AllShaped(f[b]))
  {
    hide AllShaped, SpillBlocks, NamesAfterBlocks;
  }

  lemma OneRewritten(f: seq<seq<Instr>>, code: seq<seq<Instr>>, b: nat, vreg: nat, slot: nat, n: Names, now: Names)
    requires Rewritten(f, code, b, vreg, slot, n, now) && b < |f| == |code| && AllShaped(f[b]) && code[b] == f[b]
    ensures Rewritten(f, code[b := SpillList(f[b], vreg, slot, now)], b + 1, vreg, slot, n, NamesAfter(f[b], vreg, now))
  {
    hide AllShaped, SpillBlocks, NamesAfterBlocks, SpillList, NamesAfter;
    PrefixShaped(f, b);
    PrefixShaped(f, b + 1);
    BlocksAppend(f[..b], f[b], vreg, slot, n);
    PutOne(SpillBlocks(f[..b], vreg, slot, n), f, b, SpillList(f[b], vreg, slot, now));
  }

  lemma AllRewritten(f: seq<seq<Instr>>, code: seq<seq<Instr>>, vreg: nat, slot: nat, n: Names, now: Names)
    requires Rewritten(f, code, |f|, vreg, slot, n, now)
    ensures code == SpillBlocks(f, vreg, slot, n) && now == NamesAfterBlocks(f, vreg, n)
  {
    hide AllShaped, SpillBlocks, NamesAfterBlocks;
    assert f[..|f|] == f;
    assert f[|f|..] == [];
  }

  lemma PutOne<T>(done: seq<T>, f: seq<T>, b: nat, x: T)
    requires |done| == b < |f|
    ensures (done + f[b..])[b := x] == done + [x] + f[b + 1..]
  {
  }

  lemma PrefixShaped(f: seq<seq<Instr>>, b: nat)
    requires BlocksShaped(f) && b <= |f|
    ensures BlocksShaped(f[..b]) && (b < |f| ==> AllShaped(f[b]) && f[..b + 1] == f[..b] + [f[b]])
  {
    hide AllShaped;
  }

  lemma ShapedMore(code: seq<Instr>, k: nat)
    requires AllShaped(code) && k < |code|
    ensures AllShaped(code[..k + 1])
  {
    hide WellShaped;
  }

  lemma BlocksNothing(vreg: nat, slot: nat, n: Names)
    ensures SpillBlocks([], vreg, slot, n) == [] && NamesAfterBlocks([], vreg, n) == n
  {
  }
}
