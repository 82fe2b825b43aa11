/** Which register stands for the spilled one where, and when a renamed instruction still knows all
    the registers it reads. */
module SpillNames {
  import IR
  import opened MachineCode
  import opened Spill
  import opened SpillRuns

  // ----- Every replacement register belongs to one original instruction -----

  /** The register is defined, used or read by the instruction. */
  predicate Refers(i: Instr, r: nat)
    requires WellShaped(i)
  {
    HaveUseOf(i, VReg(r)) || HaveDefOf(i, VReg(r)) || ReadsReg(i, r)
  }

  function Concat(f: seq<seq<Instr>>): seq<Instr> {
    if f == [] then [] else f[0] + Concat(f[1..])
  }

  lemma {:induction false} ConcatShaped(f: seq<seq<Instr>>)
    requires BlocksShaped(f)
    ensures AllShaped(Concat(f))
  {
    hide WellShaped;
    if f != [] {
      ConcatShaped(f[1..]);
    }
  }

  /** The blocks are rewritten as if they were one list. */
  lemma {:induction false} SpillFlat(f: seq<seq<Instr>>, vreg: nat, slot: nat, n: Names)
    requires BlocksShaped(f)
    ensures AllShaped(Concat(f)) && Concat(SpillBlocks(f, vreg, slot, n)) == SpillList(Concat(f), vreg, slot, n)
    ensures NamesAfterBlocks(f, vreg, n) == NamesAfter(Concat(f), vreg, n)
  {
    hide AllShaped, SpillList, NamesAfter;
    ConcatShaped(f);
    if f == [] {
      SpillNothing(vreg, slot, n);
    } else {
      ConcatShaped(f[1..]);
      SpillFlat(f[1..], vreg, slot, NamesAfter(f[0], vreg, n));
      SpillAppend(f[0], Concat(f[1..]), vreg, slot, n);
      var g := SpillBlocks(f, vreg, slot, n);
      assert g[1..] == SpillBlocks(f[1..], vreg, slot, NamesAfter(f[0], vreg, n));
    }
  }

  /** The names an instruction and those before it leave to be given away. */
  lemma {:induction false} NamesLater(code: seq<Instr>, k: nat, l: nat, vreg: nat, n: Names)
    requires AllShaped(code) && k < l < |code| && Touches(code[k], vreg)
    ensures var at, later := NamesAfter(code[..k], vreg, n), NamesAfter(code[..l], vreg, n);
            !later.first && n.next <= at.next <= later.next && (!at.first ==> at.next < later.next)
    decreases l
  {
    hide WellShaped, HaveUseOf, HaveDefOf, NamesAfter;
    NamesGrow(code[..k], vreg, n);
    SpillOneMore(code, l - 1, vreg, 0, n);
    if l > k + 1 {
      NamesLater(code, k, l - 1, vreg, n);
    }
  }

  lemma RefersMentions(i: Instr, r: nat)
    requires WellShaped(i) && Refers(i, r)
    ensures VReg(r) in i.operands
  {
    ReadsInside(i);
  }

  /** Of the spilled register and the new ones, the code emitted for an instruction refers to the one
      name this instruction was given at most. */
  lemma OwnName(i: Instr, x: Instr, vreg: nat, slot: nat, n: Names, bound: nat, r: nat)
    requires Spillable(i, vreg, bound, slot) && WellShaped(i) && vreg < bound <= n.next
    requires x in Emitted(i, vreg, slot, n) && WellShaped(x) && (r == vreg || r >= bound) && Refers(x, r)
    ensures Touches(i, vreg) && r == Name(n, vreg)
  {
    hide WellShaped, HaveUseOf, HaveDefOf, Reads;
    MadeLow(i, bound, slot);
    RefersMentions(x, r);
    if Touches(i, vreg) {
      ReplaceParts(i, vreg, Name(n, vreg));
    }
  }

  /** No register the rewriting gives away serves two original instructions, and the spilled
      register's own name is left to the first one that touches it. */
  lemma OneOwner(code: seq<Instr>, k: nat, l: nat, x: Instr, y: Instr, vreg: nat, slot: nat, n: Names, bound: nat,
                 r: nat)
    requires ListSpillable(code, vreg, bound, slot) && AllShaped(code) && vreg < bound <= n.next && k < l < |code|
    requires x in Emitted(code[k], vreg, slot, NamesAfter(code[..k], vreg, n)) && WellShaped(x)
    requires y in Emitted(code[l], vreg, slot, NamesAfter(code[..l], vreg, n)) && WellShaped(y)
    requires r == vreg || r >= bound
    ensures !(Refers(x, r) && Refers(y, r))
  {
    hide WellShaped, HaveUseOf, HaveDefOf, Emitted, Refers, Spillable, NamesAfter;
    NamesGrow(code[..k], vreg, n);
    NamesGrow(code[..l], vreg, n);
    if Refers(x, r) && Refers(y, r) {
      OwnName(code[k], x, vreg, slot, NamesAfter(code[..k], vreg, n), bound, r);
      OwnName(code[l], y, vreg, slot, NamesAfter(code[..l], vreg, n), bound, r);
      NamesLater(code, k, l, vreg, n);
    }
  }

  // ----- Which instructions keep their uses under a new name -----

  /** Instructions with no multiply-add among them are ready as they are built. */
  lemma BuiltReady(op: nat, l: Operand, r: Operand, t: Operand, vregs: nat, stack: nat)
    requires forall o :: o in [l, r, t] ==> (o.VReg? ==> o.id < vregs) && (o.Frame? ==> o.index < stack)
    ensures Ready(NewMath(op, l, r, t), vregs, stack) && Ready(NewCompare(op, l, r), vregs, stack)
  {
    assert l in [l, r, t] && r in [l, r, t] && t in [l, r, t];
    var i, j := NewMath(op, l, r, t), NewCompare(op, l, r);
    assert i.operands[i.uses[0]] == l && j.operands[j.uses[0]] == l;
    if l != r {
      assert i.operands[i.uses[1]] == r && j.operands[j.uses[1]] == r;
    }
  }

  /** The register a renamed multiply-add forgets: the comparison it makes to drop a repeated
      operand starts at its target. */
  predicate Forgets(t: Operand, l: Operand, r: Operand, s: Operand) {
    if r == l then s != l && t == l && s.VReg?
    else if s == r || s == l then t == l && r.VReg?
    else (t == l && r.VReg?) || (t != l && t == r && s.VReg?)
  }

  /** What is left of the list of uses. */
  function LeftUses(t: Operand, l: Operand, r: Operand, s: Operand): seq<nat> {
    if r == l then (if s == l || t == l then [1] else [1, 3])
    else if s == r || s == l then (if t == l then [1] else [1, 2])
    else if t == l then [1, 3]
    else if t == r then [1, 2]
    else [1, 2, 3]
  }

  lemma MultiplyAddUses(op: nat, t: Operand, l: Operand, r: Operand, s: Operand, vreg: nat, nreg: nat)
    requires nreg == vreg || VReg(nreg) !in [t, l, r, s]
    ensures Replace(NewMultiplyAdd(op, t, l, r, s), VReg(vreg), VReg(nreg)).uses == LeftUses(t, l, r, s)
  {
    var i := NewMultiplyAdd(op, t, l, r, s);
    var from, to := VReg(vreg), VReg(nreg);
    var os := Substitute(i.operands, from, to);
    assert i.operands == [t, l, r, s];
    assert os[0] == os[1] <==> t == l;
    assert os[0] == os[2] <==> t == r;
    assert os[1] == os[2] <==> l == r;
  }

  /** A multiply-add still lists every register it reads after a register of it was renamed exactly
      when its target is none of its operands, or what is dropped for it is no register. */
  lemma MultiplyAddReplaced(op: nat, t: Operand, l: Operand, r: Operand, s: Operand, vreg: nat, nreg: nat)
    requires nreg == vreg || VReg(nreg) !in [t, l, r, s]
    ensures WellShaped(NewMultiplyAdd(op, t, l, r, s)) && Accounted(NewMultiplyAdd(op, t, l, r, s))
    ensures WellShaped(Replace(NewMultiplyAdd(op, t, l, r, s), VReg(vreg), VReg(nreg)))
    ensures Accounted(Replace(NewMultiplyAdd(op, t, l, r, s), VReg(vreg), VReg(nreg))) <==> !Forgets(t, l, r, s)
  {
    hide *;
    var i := NewMultiplyAdd(op, t, l, r, s);
    MultiplyAddParts(op, t, l, r, s);
    ReplaceShaped(i, vreg, nreg);
    ReplaceParts(i, vreg, nreg);
    MultiplyAddUses(op, t, l, r, s, vreg, nreg);
    AccountedExactly(i);
    AccountedExactly(Replace(i, VReg(vreg), VReg(nreg)));
    RenamedApart(i.operands, vreg, nreg);
    ForgetsIs(t, l, r, s);
  }

  lemma MultiplyAddParts(op: nat, t: Operand, l: Operand, r: Operand, s: Operand)
    ensures var i := NewMultiplyAdd(op, t, l, r, s);
            && WellShaped(i) && i.kind.MultiplyAdd? && i.operands == [t, l, r, s]
            && i.uses == [1] + (if r != l then [2] else []) + (if s != r && s != l then [3] else [])
  {
  }

  lemma RenamedApart(os: seq<Operand>, vreg: nat, nreg: nat)
    requires |os| == 4 && (nreg == vreg || VReg(nreg) !in os)
    ensures var ns := Substitute(os, VReg(vreg), VReg(nreg));
            && |ns| == 4 && (ns[1] == ns[2] <==> os[1] == os[2]) && (ns[1] == ns[3] <==> os[1] == os[3])
            && (ns[2] == ns[3] <==> os[2] == os[3]) && (ns[2].VReg? <==> os[2].VReg?) && (ns[3].VReg? <==> os[3].VReg?)
  {
  }

  lemma ForgetsIs(t: Operand, l: Operand, r: Operand, s: Operand)
    ensures var us := LeftUses(t, l, r, s);
            Forgets(t, l, r, s) <==>
              !(&& (r.VReg? ==> r == l || us == [1, 2] || us == [1, 2, 3] || (us == [1, 3] && s == r))
                && (s.VReg? ==> s == l || us == [1, 3] || us == [1, 2, 3] || (us == [1, 2] && s == r)))
  {
  }

  lemma AccountedExactly(i: Instr)
    requires WellShaped(i) && i.kind.MultiplyAdd?
    ensures var l, r, s := i.operands[1], i.operands[2], i.operands[3];
            Accounted(i) <==>
              && (r.VReg? ==> r == l || i.uses == [1, 2] || i.uses == [1, 2, 3] || (i.uses == [1, 3] && s == r))
              && (s.VReg? ==> s == l || i.uses == [1, 3] || i.uses == [1, 2, 3] || (i.uses == [1, 2] && s == r))
  {
    assert Reads(i)[0] == 1 && Reads(i)[1] == 2 && Reads(i)[2] == 3;
    UsedOne(i, i.operands[1]);
    UsedOne(i, i.operands[2]);
    UsedOne(i, i.operands[3]);
    hide HaveUseOf;
  }

  lemma UsedOne(i: Instr, o: Operand)
    requires WellShaped(i) && i.kind.MultiplyAdd?
    ensures HaveUseOf(i, o) <==>
              || o == i.operands[1]
              || (o == i.operands[2] && (i.uses == [1, 2] || i.uses == [1, 2, 3]))
              || (o == i.operands[3] && (i.uses == [1, 3] || i.uses == [1, 2, 3]))
  {
    var us := i.uses;
    UsedAt(i, 0);
    if us == [1, 2] || us == [1, 3] {
      UsedAt(i, 1);
    } else if us == [1, 2, 3] {
      UsedAt(i, 1);
      UsedAt(i, 2);
    }
  }

  // ----- Any number of renamings -----

  /** Each step gives a register a name of its own, or the one it has. */
  ghost predicate OwnNames(os: seq<Operand>, steps: seq<(nat, nat)>)
    decreases |steps|
  {
    steps == [] ||
    var (from, to) := steps[0];
    (to == from || VReg(to) !in os) && OwnNames(Substitute(os, VReg(from), VReg(to)), steps[1..])
  }

  function ReplaceEach(i: Instr, steps: seq<(nat, nat)>): Instr
    decreases |steps|
  {
    if steps == [] then i else ReplaceEach(Replace(i, VReg(steps[0].0), VReg(steps[0].1)), steps[1..])
  }

  /** The uses a multiply-add on `os` is built with. */
  function BuiltUses(os: seq<Operand>): seq<nat>
    requires |os| == 4
  {
    [1] + (if os[2] != os[1] then [2] else []) + (if os[3] != os[2] && os[3] != os[1] then [3] else [])
  }

  /** What one renaming leaves of them, and what two leave; a third one drops nothing. */
  function UsesOnce(os: seq<Operand>): seq<nat>
    requires |os| == 4
  {
    Shortened(MultiplyAdd, os, BuiltUses(os))
  }

  function UsesTwice(os: seq<Operand>): seq<nat>
    requires |os| == 4
  {
    Shortened(MultiplyAdd, os, UsesOnce(os))
  }

  predicate UsesAmong(os: seq<Operand>, uses: seq<nat>)
    requires |os| == 4
  {
    uses == BuiltUses(os) || uses == UsesOnce(os) || uses == UsesTwice(os)
  }

  /** A register is forgotten sooner or later: the target is the first factor, or the second one. */
  predicate ForgetsInTime(t: Operand, l: Operand, r: Operand, s: Operand) {
    if r == l then s != l && t == l && s.VReg?
    else if s == r || s == l then t == l && r.VReg?
    else (t == l && (r.VReg? || s.VReg?)) || (t != l && t == r && s.VReg?)
  }

  lemma PatternKept(os: seq<Operand>, from: nat, to: nat)
    requires |os| == 4 && (to == from || VReg(to) !in os)
    ensures var ns := Substitute(os, VReg(from), VReg(to));
            && |ns| == 4 && BuiltUses(ns) == BuiltUses(os) && UsesOnce(ns) == UsesOnce(os)
                && UsesTwice(ns) == UsesTwice(os)
            && (ForgetsInTime(ns[0], ns[1], ns[2], ns[3]) <==> ForgetsInTime(os[0], os[1], os[2], os[3]))
            && (forall uses :: Shortened(MultiplyAdd, ns, uses) == Shortened(MultiplyAdd, os, uses))
  {
    var ns := Substitute(os, VReg(from), VReg(to));
    RenamedApart(os, from, to);
    assert ns[0] == ns[1] <==> os[0] == os[1];
    assert ns[0] == ns[2] <==> os[0] == os[2];
  }

  lemma ThirdDropsNothing(os: seq<Operand>)
    requires |os| == 4
    ensures Shortened(MultiplyAdd, os, UsesTwice(os)) == UsesTwice(os)
  {
  }

  lemma AmongShaped(i: Instr)
    requires i.kind.MultiplyAdd? && |i.operands| == 4 && i.defs == [0] && UsesAmong(i.operands, i.uses)
    ensures WellShaped(i)
  {
  }

  lemma AmongAccounted(i: Instr)
    requires i.kind.MultiplyAdd? && |i.operands| == 4 && i.defs == [0] && UsesAmong(i.operands, i.uses)
    requires !ForgetsInTime(i.operands[0], i.operands[1], i.operands[2], i.operands[3])
    ensures WellShaped(i) && Accounted(i)
  {
    AmongShaped(i);
    AccountedExactly(i);
    hide WellShaped, Accounted;
  }

  lemma {:induction false} EachAccounted(i: Instr, steps: seq<(nat, nat)>)
    requires i.kind.MultiplyAdd? && |i.operands| == 4 && i.defs == [0] && UsesAmong(i.operands, i.uses)
    requires !ForgetsInTime(i.operands[0], i.operands[1], i.operands[2], i.operands[3]) && OwnNames(i.operands, steps)
    ensures var j := ReplaceEach(i, steps); WellShaped(j) && Accounted(j)
    decreases |steps|
  {
    if steps == [] {
      AmongAccounted(i);
    } else {
      var (from, to) := steps[0];
      PatternKept(i.operands, from, to);
      ThirdDropsNothing(i.operands);
      hide WellShaped, Accounted, ForgetsInTime, BuiltUses, Shortened;
      EachAccounted(Replace(i, VReg(from), VReg(to)), steps[1..]);
    }
  }

  /** Renaming nothing twice. */
  lemma TwiceReplaced(i: Instr)
    requires i.kind.MultiplyAdd? && |i.operands| == 4 && i.defs == [0] && i.uses == BuiltUses(i.operands)
    ensures OwnNames(i.operands, [(0, 0), (0, 0)])
    ensures ReplaceEach(i, [(0, 0), (0, 0)]) == i.(uses := UsesTwice(i.operands))
  {
    assert Substitute(i.operands, VReg(0), VReg(0)) == i.operands;
    var j := Replace(i, VReg(0), VReg(0));
    assert [(0, 0), (0, 0)][1..] == [(0, 0)] && [(0, 0)][1..] == [];
    assert ReplaceEach(j, [(0, 0)]) == Replace(j, VReg(0), VReg(0));
  }

  lemma TwiceForgets(i: Instr)
    requires i.kind.MultiplyAdd? && |i.operands| == 4 && i.defs == [0] && i.uses == UsesTwice(i.operands)
    requires ForgetsInTime(i.operands[0], i.operands[1], i.operands[2], i.operands[3])
    ensures WellShaped(i) && !Accounted(i)
  {
    AmongShaped(i);
    AccountedExactly(i);
    hide WellShaped, Accounted;
  }

  /** A multiply-add lists every register it reads after any number of renamings exactly when its target is
      neither factor, or no register is dropped for it. */
  lemma MultiplyAddKept(op: nat, t: Operand, l: Operand, r: Operand, s: Operand)
    ensures (forall steps :: OwnNames([t, l, r, s], steps) ==>
               var j := ReplaceEach(NewMultiplyAdd(op, t, l, r, s), steps); WellShaped(j) && Accounted(j))
            <==> !ForgetsInTime(t, l, r, s)
  {
    var i := NewMultiplyAdd(op, t, l, r, s);
    assert i.uses == BuiltUses(i.operands) && i.operands == [t, l, r, s];
    hide WellShaped, Accounted, OwnNames, ReplaceEach, UsesTwice, BuiltUses;
    if ForgetsInTime(t, l, r, s) {
      TwiceReplaced(i);
      TwiceForgets(i.(uses := UsesTwice(i.operands)));
    } else {
      forall steps | OwnNames([t, l, r, s], steps)
        ensures var j := ReplaceEach(i, steps); WellShaped(j) && Accounted(j)
      {
        EachAccounted(i, steps);
      }
    }
  }

  // ----- A multiply-add that loses a use -----

  /** Multiplies and adds, and shows the result to the world. */
  function Arithmetic(op: nat, os: seq<Operand>, ins: seq<IR.Option<Value>>, w: int): Effect<int> {
    if |ins| == 3 && ins[0].Some? && ins[1].Some? && ins[2].Some? then
      var v := ins[0].value * ins[1].value + ins[2].value;
      Effect([IR.Some(v)], v, Continue)
    else
      Effect([], w, Continue)
  }

  /** `x := x * y + z` after `x` was spilled, with `x`, `y` and `z` the registers 0, 1 and 2: only the
      first factor and the addend are listed. */
  function Renewed(): Instr {
    NewMultiplyAdd(0, VReg(0), VReg(0), VReg(1), VReg(2)).(uses := [1, 3])
  }

  /** Spilling `x` and then `y` goes wrong for `x := x * y + z`: the second spilling does not see that
      `y` is read, puts no load in front, and the instruction reads a register that holds nothing. */
  lemma SpillMissesUse()
    ensures Renewed() == Replace(NewMultiplyAdd(0, VReg(0), VReg(0), VReg(1), VReg(2)), VReg(0), VReg(0))
    ensures AllShaped([Renewed()]) && SpillList([Renewed()], 1, 0, Names(true, 3)) == [Renewed()]
    ensures var m, s, t := Machine({0}, Arithmetic),
                           MState(map[0 := 2, 1 := 3, 2 := 5], map[], 0), MState(map[0 := 2, 2 := 5], map[0 := 3], 0);
            && Kept(s, t, 1, 0, 3)
            && RunList(m, [Renewed()], s).0.world == 11
            && RunList(m, SpillList([Renewed()], 1, 0, Names(true, 3)), t).0.world == 0
  {
    var i := NewMultiplyAdd(0, VReg(0), VReg(0), VReg(1), VReg(2));
    assert Substitute(i.operands, VReg(0), VReg(0)) == i.operands;
    RenewedUntouched();
    assert [Renewed()][1..] == [];
    assert SpillList([Renewed()], 1, 0, Names(true, 3)) == [Renewed()] + [];
    var m := Machine({0}, Arithmetic);
    var s, t := MState(map[0 := 2, 1 := 3, 2 := 5], map[], 0), MState(map[0 := 2, 2 := 5], map[0 := 3], 0);
    RunOne(m, Renewed(), s);
    RunOne(m, Renewed(), t);
    RenewedStep(m, s);
    RenewedStep(m, t);
  }

  lemma RenewedUntouched()
    ensures WellShaped(Renewed()) && !Touches(Renewed(), 1)
  {
  }

  lemma RenewedStep(m: Machine<int>, s: MState<int>)
    requires m.sem == Arithmetic
    ensures WellShaped(Renewed())
    ensures Step(m, Renewed(), s).0.world
         == if 0 in s.regs && 1 in s.regs && 2 in s.regs then s.regs[0] * s.regs[1] + s.regs[2] else s.world
  {
    RenewedUntouched();
    var ins := Inputs(Renewed(), s.regs);
    assert ins[0] == Lookup(s.regs, 0) && ins[1] == Lookup(s.regs, 1) && ins[2] == Lookup(s.regs, 2);
  }
}
