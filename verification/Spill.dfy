/** Spilling a virtual register to a fresh stack slot: every instruction that touches the register gets
    a register of its own, with a load from the slot in front when the register is used and a store
    behind when it is defined. */
module Spill {
  import opened MachineCode

  // ----- The rewriting -----

  predicate Touches(i: Instr, vreg: nat)
    requires WellShaped(i)
  {
    HaveUseOf(i, VReg(vreg)) || HaveDefOf(i, VReg(vreg))
  }

  /** What stands for one instruction that touches the spilled register. */
  function Group(i: Instr, vreg: nat, nreg: nat, slot: nat): seq<Instr>
    requires WellShaped(i)
  {
    (if HaveUseOf(i, VReg(vreg)) then [NewLoad(nreg, slot)] else [])
    + [Replace(i, VReg(vreg), VReg(nreg))]
    + (if HaveDefOf(i, VReg(vreg)) then [NewStore(nreg, slot)] else [])
  }

  /** Where the rewriting of a list is: whether the spilled register's own name is still to be
      given away, and the next unused register. */
  datatype Names = Names(first: bool, next: nat)

  function Name(n: Names, vreg: nat): nat {
    if n.first then vreg else n.next
  }

  function After(i: Instr, vreg: nat, n: Names): Names
    requires WellShaped(i)
  {
    if !Touches(i, vreg) then n else Names(false, if n.first then n.next else n.next + 1)
  }

  function Emitted(i: Instr, vreg: nat, slot: nat, n: Names): seq<Instr>
    requires WellShaped(i)
  {
    if Touches(i, vreg) then Group(i, vreg, Name(n, vreg), slot) else [i]
  }

  function SpillList(code: seq<Instr>, vreg: nat, slot: nat, n: Names): seq<Instr>
    requires AllShaped(code)
  {
    if code == [] then []
    else Emitted(code[0], vreg, slot, n) + SpillList(code[1..], vreg, slot, After(code[0], vreg, n))
  }

  function NamesAfter(code: seq<Instr>, vreg: nat, n: Names): Names
    requires AllShaped(code)
  {
    if code == [] then n else NamesAfter(code[1..], vreg, After(code[0], vreg, n))
  }

  function SpillBlocks(f: seq<seq<Instr>>, vreg: nat, slot: nat, n: Names): seq<seq<Instr>>
    requires BlocksShaped(f)
  {
    if f == [] then []
    else [SpillList(f[0], vreg, slot, n)] + SpillBlocks(f[1..], vreg, slot, NamesAfter(f[0], vreg, n))
  }

  function NamesAfterBlocks(f: seq<seq<Instr>>, vreg: nat, n: Names): Names
    requires BlocksShaped(f)
  {
    if f == [] then n else NamesAfterBlocks(f[1..], vreg, NamesAfter(f[0], vreg, n))
  }

  lemma SpillNothing(vreg: nat, slot: nat, n: Names)
    ensures SpillList([], vreg, slot, n) == [] && NamesAfter([], vreg, n) == n
  {
  }

  lemma {:induction false} SpillAppend(a: seq<Instr>, b: seq<Instr>, vreg: nat, slot: nat, n: Names)
    requires AllShaped(a) && AllShaped(b)
    ensures SpillList(a + b, vreg, slot, n)
         == SpillList(a, vreg, slot, n) + SpillList(b, vreg, slot, NamesAfter(a, vreg, n))
    ensures NamesAfter(a + b, vreg, n) == NamesAfter(b, vreg, NamesAfter(a, vreg, n))
  {
    if a == [] {
      assert a + b == b;
    } else {
      assert (a + b)[1..] == a[1..] + b && (a + b)[0] == a[0];
      SpillAppend(a[1..], b, vreg, slot, After(a[0], vreg, n));
    }
  }

  lemma {:induction false} SpillOneMore(code: seq<Instr>, k: nat, vreg: nat, slot: nat, n: Names)
    requires AllShaped(code) && k < |code|
    ensures SpillList(code[..k + 1], vreg, slot, n)
         == SpillList(code[..k], vreg, slot, n) + Emitted(code[k], vreg, slot, NamesAfter(code[..k], vreg, n))
    ensures NamesAfter(code[..k + 1], vreg, n) == After(code[k], vreg, NamesAfter(code[..k], vreg, n))
  {
    assert code[..k + 1] == code[..k] + [code[k]];
    SpillAppend(code[..k], [code[k]], vreg, slot, n);
    var mid := NamesAfter(code[..k], vreg, n);
    assert [code[k]][1..] == [];
    assert SpillList([code[k]], vreg, slot, mid) == Emitted(code[k], vreg, slot, mid) + [];
  }

  lemma {:induction false} BlocksAppend(f: seq<seq<Instr>>, b: seq<Instr>, vreg: nat, slot: nat, n: Names)
    requires BlocksShaped(f) && AllShaped(b)
    ensures SpillBlocks(f + [b], vreg, slot, n)
         == SpillBlocks(f, vreg, slot, n) + [SpillList(b, vreg, slot, NamesAfterBlocks(f, vreg, n))]
    ensures NamesAfterBlocks(f + [b], vreg, n) == NamesAfter(b, vreg, NamesAfterBlocks(f, vreg, n))
  {
    if f == [] {
      assert f + [b] == [b] && [b][1..] == [];
    } else {
      assert (f + [b])[1..] == f[1..] + [b] && (f + [b])[0] == f[0];
      BlocksAppend(f[1..], b, vreg, slot, NamesAfter(f[0], vreg, n));
    }
  }

  // ----- What the code must look like -----

  /** The target of a multiply-add is neither of its factors. */
  predicate TargetApart(i: Instr) {
    i.kind.MultiplyAdd? && |i.operands| == 4 ==> i.operands[0] != i.operands[1] && i.operands[0] != i.operands[2]
  }

  /** Registers and frame slots are ones the function has created. */
  predicate Within(i: Instr, vregs: nat, stack: nat) {
    forall k :: 0 <= k < |i.operands| ==>
      match i.operands[k]
      case VReg(id) => id < vregs
      case Frame(index) => index < stack
      case Other(_) => true
  }

  /** Only generic instructions may list an operand twice. */
  predicate Plainly(i: Instr)
    requires WellShaped(i)
  {
    i.kind.Plain? || i.kind.Branch? || Lean(i)
  }

  /** An instruction of a function with that many registers and slots. */
  predicate Made(i: Instr, vregs: nat, stack: nat) {
    WellShaped(i) && Within(i, vregs, stack)
  }

  predicate ListMade(code: seq<Instr>, vregs: nat, stack: nat) {
    forall k :: 0 <= k < |code| ==> Made(code[k], vregs, stack)
  }

  predicate BlocksMade(f: seq<seq<Instr>>, vregs: nat, stack: nat) {
    forall b :: 0 <= b < |f| ==> ListMade(f[b], vregs, stack)
  }

  /** It also lists every register it reads, and still does under a new name. */
  predicate Ready(i: Instr, vregs: nat, stack: nat) {
    Made(i, vregs, stack) && Accounted(i) && Plainly(i) && TargetApart(i)
  }

  predicate ListReady(code: seq<Instr>, vregs: nat, stack: nat) {
    forall k :: 0 <= k < |code| ==> Ready(code[k], vregs, stack)
  }

  predicate BlocksReady(f: seq<seq<Instr>>, vregs: nat, stack: nat) {
    forall b :: 0 <= b < |f| ==> ListReady(f[b], vregs, stack)
  }

  // ----- Replacing keeps the used registers known -----

  lemma ReplaceShaped(i: Instr, vreg: nat, nreg: nat)
    requires WellShaped(i)
    ensures WellShaped(Replace(i, VReg(vreg), VReg(nreg)))
    ensures Reads(Replace(i, VReg(vreg), VReg(nreg))) == Reads(i)
  {
  }

  /** Renaming to an unused register leaves the used positions alone. */
  lemma UsesStay(i: Instr, vreg: nat, nreg: nat)
    requires WellShaped(i) && TargetApart(i) && Plainly(i)
    requires nreg == vreg || VReg(nreg) !in i.operands
    ensures Replace(i, VReg(vreg), VReg(nreg)).uses == i.uses
  {
    var os := Substitute(i.operands, VReg(vreg), VReg(nreg));
    assert forall p, q :: 0 <= p < |os| && 0 <= q < |os| && i.operands[p] != i.operands[q] ==> os[p] != os[q];
    if |i.uses| >= 2 && (i.kind.Math? || i.kind.Compare? || i.kind.StoreFrame? || i.kind.MultiplyAdd?) {
      assert Differ(i, i.uses[0], i.uses[1]);
      assert os[i.uses[0]] != os[i.uses[1]];
    }
  }

  lemma ReplaceAccounted(i: Instr, j: Instr, vreg: nat, nreg: nat)
    requires WellShaped(i) && Accounted(i) && j == Replace(i, VReg(vreg), VReg(nreg)) && WellShaped(j)
    requires j.uses == i.uses && Reads(j) == Reads(i)
    ensures Accounted(j)
  {
    hide *;
    ReplaceParts(i, vreg, nreg);
    AccountedParts(i);
    forall k | 0 <= k < |Reads(j)| && j.operands[Reads(j)[k]].VReg?
      ensures HaveUseOf(j, j.operands[Reads(j)[k]])
    {
      var p := Reads(i)[k];
      assert i.operands[p].VReg?;
      var u := UseAt(i, i.operands[p]);
      UsedAt(j, u);
    }
    AccountedIs(j);
  }

  lemma ReplaceParts(i: Instr, vreg: nat, nreg: nat)
    ensures var j := Replace(i, VReg(vreg), VReg(nreg));
            j.operands == Substitute(i.operands, VReg(vreg), VReg(nreg))
            && j.kind == i.kind && j.op == i.op && j.defs == i.defs
  {
  }

  lemma ReadsInside(i: Instr)
    requires WellShaped(i)
    ensures forall k :: 0 <= k < |Reads(i)| ==> Reads(i)[k] < |i.operands|
    ensures forall k :: 0 <= k < |i.uses| ==> i.uses[k] < |i.operands|
    ensures forall k :: 0 <= k < |i.defs| ==> i.defs[k] < |i.operands|
  {
  }

  lemma AccountedParts(i: Instr)
    requires WellShaped(i) && Accounted(i)
    ensures forall k :: 0 <= k < |Reads(i)| ==> Reads(i)[k] < |i.operands|
    ensures forall k :: 0 <= k < |Reads(i)| ==> i.operands[Reads(i)[k]].VReg? ==> HaveUseOf(i, i.operands[Reads(i)[k]])
  {
    ReadsInside(i);
  }

  lemma AccountedIs(i: Instr)
    requires WellShaped(i)
    requires forall k :: 0 <= k < |Reads(i)| ==> Reads(i)[k] < |i.operands|
    requires forall k :: 0 <= k < |Reads(i)| ==> i.operands[Reads(i)[k]].VReg? ==> HaveUseOf(i, i.operands[Reads(i)[k]])
    ensures Accounted(i)
  {
  }

  lemma UseAt(i: Instr, o: Operand) returns (u: nat)
    requires WellShaped(i) && HaveUseOf(i, o)
    ensures u < |i.uses| && i.uses[u] < |i.operands| && i.operands[i.uses[u]] == o
  {
    u :| 0 <= u < |i.uses| && i.operands[i.uses[u]] == o;
  }

  lemma UsedAt(i: Instr, u: nat)
    requires WellShaped(i) && u < |i.uses| && i.uses[u] < |i.operands|
    ensures HaveUseOf(i, i.operands[i.uses[u]])
  {
  }

  lemma ReplaceLean(i: Instr, j: Instr, vreg: nat, nreg: nat)
    requires WellShaped(i) && Lean(i) && j == Replace(i, VReg(vreg), VReg(nreg)) && WellShaped(j)
    requires j.uses == i.uses && (nreg == vreg || VReg(nreg) !in i.operands)
    ensures Lean(j)
  {
    hide Shortened, WellShaped;
    forall k, l | 0 <= k < l < |j.uses| ensures Differ(j, j.uses[k], j.uses[l]) {
      assert Differ(i, i.uses[k], i.uses[l]);
    }
  }

  lemma ReplaceReady(i: Instr, vreg: nat, nreg: nat, vregs: nat, stack: nat, more: nat)
    requires Ready(i, vregs, stack) && vreg < vregs <= more
    requires nreg == vreg || vregs <= nreg < more
    ensures Ready(Replace(i, VReg(vreg), VReg(nreg)), more, stack)
  {
    hide Accounted, Lean, Shortened, WellShaped, HaveUseOf, Reads;
    var j := Replace(i, VReg(vreg), VReg(nreg));
    ReplaceShaped(i, vreg, nreg);
    assert nreg != vreg ==> VReg(nreg) !in i.operands;
    UsesStay(i, vreg, nreg);
    ReplaceAccounted(i, j, vreg, nreg);
    if !i.kind.Plain? && !i.kind.Branch? {
      ReplaceLean(i, j, vreg, nreg);
    }
  }

  // ----- The rewritten blocks are blocks of the function -----

  lemma MoreMade(i: Instr, vregs: nat, stack: nat, vregs': nat, stack': nat)
    requires Made(i, vregs, stack) && vregs <= vregs' && stack <= stack'
    ensures Made(i, vregs', stack')
  {
    hide WellShaped;
  }

  lemma EmittedMade(i: Instr, vreg: nat, slot: nat, n: Names, vregs: nat)
    requires Made(i, vregs, slot) && vreg < vregs <= n.next
    ensures ListMade(Emitted(i, vreg, slot, n), After(i, vreg, n).next, slot + 1)
  {
    var m, nreg := After(i, vreg, n).next, Name(n, vreg);
    ReplaceShaped(i, vreg, nreg);
    ReplaceParts(i, vreg, nreg);
    assert WellShaped(NewLoad(nreg, slot)) && WellShaped(NewStore(nreg, slot));
    hide WellShaped, Replace, HaveUseOf, HaveDefOf;
    if !Touches(i, vreg) {
      MoreMade(i, vregs, slot, m, slot + 1);
    }
  }

  lemma {:induction false} SpillListMade(code: seq<Instr>, vreg: nat, slot: nat, n: Names, vregs: nat)
    requires ListMade(code, vregs, slot) && AllShaped(code) && vreg < vregs <= n.next
    ensures ListMade(SpillList(code, vreg, slot, n), NamesAfter(code, vreg, n).next, slot + 1)
  {
    if code != [] {
      hide Made, Emitted, After, WellShaped;
      var n1 := After(code[0], vreg, n);
      EmittedMade(code[0], vreg, slot, n, vregs);
      assert n.next <= n1.next by { AfterGrows(code[0], vreg, n); }
      SpillListMade(code[1..], vreg, slot, n1, vregs);
      NamesGrow(code[1..], vreg, n1);
      var more := NamesAfter(code[1..], vreg, n1).next;
      var e := Emitted(code[0], vreg, slot, n);
      forall k | 0 <= k < |e| ensures Made(e[k], more, slot + 1) {
        MoreMade(e[k], n1.next, slot + 1, more, slot + 1);
      }
    }
  }

  lemma MadeShaped(f: seq<seq<Instr>>, vregs: nat, stack: nat)
    requires BlocksMade(f, vregs, stack)
    ensures BlocksShaped(f)
  {
    hide WellShaped, Within;
  }

  /** Spilled blocks mention only created registers and slots. */
  lemma {:induction false} SpilledMade(f: seq<seq<Instr>>, vreg: nat, slot: nat, n: Names, vregs: nat)
    requires BlocksMade(f, vregs, slot) && BlocksShaped(f) && vreg < vregs <= n.next
    ensures BlocksMade(SpillBlocks(f, vreg, slot, n), NamesAfterBlocks(f, vreg, n).next, slot + 1)
  {
    if f != [] {
      hide Made, SpillList, NamesAfter, WellShaped;
      var n1 := NamesAfter(f[0], vreg, n);
      NamesGrow(f[0], vreg, n);
      SpillListMade(f[0], vreg, slot, n, vregs);
      SpilledMade(f[1..], vreg, slot, n1, vregs);
      BlocksGrow(f[1..], vreg, n1);
      var more := NamesAfterBlocks(f[1..], vreg, n1).next;
      var e := SpillList(f[0], vreg, slot, n);
      forall k | 0 <= k < |e| ensures Made(e[k], more, slot + 1) {
        MoreMade(e[k], n1.next, slot + 1, more, slot + 1);
      }
    }
  }

  // ----- The rewritten blocks are ready to be spilled again -----

  lemma MoreReady(i: Instr, vregs: nat, stack: nat, vregs': nat, stack': nat)
    requires Ready(i, vregs, stack) && vregs <= vregs' && stack <= stack'
    ensures Ready(i, vregs', stack')
  {
    hide Accounted, Lean, WellShaped, TargetApart, Reads, HaveUseOf;
  }

  lemma SpillCodeReady(reg: nat, slot: nat, vregs: nat, stack: nat)
    requires reg < vregs && slot < stack
    ensures Ready(NewLoad(reg, slot), vregs, stack) && Ready(NewStore(reg, slot), vregs, stack)
  {
    var s := NewStore(reg, slot);
    assert s.operands[s.uses[0]] == VReg(reg);
    assert HaveUseOf(s, VReg(reg));
  }

  lemma EmittedReady(i: Instr, vreg: nat, slot: nat, n: Names, vregs: nat)
    requires Ready(i, vregs, slot) && vreg < vregs <= n.next
    ensures ListReady(Emitted(i, vreg, slot, n), After(i, vreg, n).next, slot + 1)
  {
    hide Ready, Replace, WellShaped, HaveUseOf, HaveDefOf;
    ReadyShaped(i, vregs, slot);
    var m := After(i, vreg, n).next;
    MoreReady(i, vregs, slot, m, slot + 1);
    if Touches(i, vreg) {
      var nreg := Name(n, vreg);
      ReplaceReady(i, vreg, nreg, vregs, slot, m);
      MoreReady(Replace(i, VReg(vreg), VReg(nreg)), m, slot, m, slot + 1);
      SpillCodeReady(nreg, slot, m, slot + 1);
    }
  }

  lemma ReadyShaped(i: Instr, vregs: nat, stack: nat)
    requires Ready(i, vregs, stack)
    ensures WellShaped(i)
  {
  }

  lemma {:induction false} NamesGrow(code: seq<Instr>, vreg: nat, n: Names)
    requires AllShaped(code)
    ensures n.next <= NamesAfter(code, vreg, n).next
  {
    if code != [] {
      NamesGrow(code[1..], vreg, After(code[0], vreg, n));
    }
  }

  lemma {:induction false} SpillListReady(code: seq<Instr>, vreg: nat, slot: nat, n: Names, vregs: nat)
    requires ListReady(code, vregs, slot) && AllShaped(code) && vreg < vregs <= n.next
    ensures ListReady(SpillList(code, vreg, slot, n), NamesAfter(code, vreg, n).next, slot + 1)
  {
    if code != [] {
      hide Ready, Emitted, After, WellShaped;
      var n1 := After(code[0], vreg, n);
      EmittedReady(code[0], vreg, slot, n, vregs);
      NamesGrow([code[0]], vreg, n);
      assert n.next <= n1.next by { AfterGrows(code[0], vreg, n); }
      SpillListReady(code[1..], vreg, slot, n1, vregs);
      NamesGrow(code[1..], vreg, n1);
      var more := NamesAfter(code[1..], vreg, n1).next;
      var e := Emitted(code[0], vreg, slot, n);
      forall k | 0 <= k < |e| ensures Ready(e[k], more, slot + 1) {
        MoreReady(e[k], n1.next, slot + 1, more, slot + 1);
      }
    }
  }

  lemma AfterGrows(i: Instr, vreg: nat, n: Names)
    requires WellShaped(i)
    ensures n.next <= After(i, vreg, n).next
  {
  }

  lemma {:induction false} BlocksGrow(f: seq<seq<Instr>>, vreg: nat, n: Names)
    requires BlocksShaped(f)
    ensures n.next <= NamesAfterBlocks(f, vreg, n).next
  {
    if f != [] {
      NamesGrow(f[0], vreg, n);
      BlocksGrow(f[1..], vreg, NamesAfter(f[0], vreg, n));
    }
  }

  lemma ReadyBlocks(f: seq<seq<Instr>>, vregs: nat, stack: nat)
    requires BlocksReady(f, vregs, stack)
    ensures BlocksMade(f, vregs, stack) && BlocksShaped(f)
  {
    hide WellShaped, Accounted, TargetApart, Within;
  }

  /** Spilled blocks mention only created registers and slots, and every register they read is
      known to be used: another register can be spilled next. */
  lemma {:induction false} SpilledReady(f: seq<seq<Instr>>, vreg: nat, slot: nat, n: Names, vregs: nat)
    requires BlocksReady(f, vregs, slot) && vreg < vregs <= n.next
    ensures BlocksShaped(f)
    ensures BlocksReady(SpillBlocks(f, vreg, slot, n), NamesAfterBlocks(f, vreg, n).next, slot + 1)
  {
    ReadyBlocks(f, vregs, slot);
    if f != [] {
      hide Ready, SpillList, NamesAfter, WellShaped;
      var n1 := NamesAfter(f[0], vreg, n);
      NamesGrow(f[0], vreg, n);
      SpillListReady(f[0], vreg, slot, n, vregs);
      SpilledReady(f[1..], vreg, slot, n1, vregs);
      BlocksGrow(f[1..], vreg, n1);
      var more := NamesAfterBlocks(f[1..], vreg, n1).next;
      var e := SpillList(f[0], vreg, slot, n);
      forall k | 0 <= k < |e| ensures Ready(e[k], more, slot + 1) {
        MoreReady(e[k], n1.next, slot + 1, more, slot + 1);
      }
    }
  }
}
