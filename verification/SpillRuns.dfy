/** Spilling preserves every run: between two original instructions the slot holds what the
    spilled register held, and everything else agrees, whatever the replacement registers hold. */
module SpillRuns {
  import IR
  import opened MachineCode
  import opened Spill

  // ----- The relation between the two states -----

  ghost predicate SameRegs(a: map<nat, Value>, b: map<nat, Value>, vreg: nat, bound: nat) {
    forall r: nat :: r < bound && r != vreg ==> Lookup(a, r) == Lookup(b, r)
  }

  ghost predicate SameSlots(a: map<nat, Value>, b: map<nat, Value>, slot: nat) {
    forall f: nat :: f != slot ==> Lookup(a, f) == Lookup(b, f)
  }

  /** `t` is `s` with the register `vreg` kept in `slot`.  Registers from `bound` on, and the
      register `vreg` itself, can hold anything in `t`. */
  ghost predicate Kept<W>(s: MState<W>, t: MState<W>, vreg: nat, slot: nat, bound: nat) {
    && SameRegs(s.regs, t.regs, vreg, bound)
    && SameSlots(s.slots, t.slots, slot)
    && Lookup(t.slots, slot) == Lookup(s.regs, vreg)
    && s.world == t.world
  }

  // ----- One instruction under two names for the register -----

  predicate DefinedBy(i: Instr, o: Operand, n: nat)
    requires WellShaped(i) && n <= |i.defs|
  {
    exists k :: 0 <= k < n && i.operands[i.defs[k]] == o
  }

  /** `j` is `i` with `vreg` called `nreg`. */
  ghost predicate Renamed(i: Instr, j: Instr, vreg: nat, nreg: nat) {
    && WellShaped(i) && WellShaped(j)
    && j.kind == i.kind && j.op == i.op && j.defs == i.defs && Reads(j) == Reads(i)
    && j.operands == Substitute(i.operands, VReg(vreg), VReg(nreg))
  }

  predicate Low(i: Instr, bound: nat) {
    forall k :: 0 <= k < |i.operands| ==> i.operands[k].VReg? ==> i.operands[k].id < bound
  }

  predicate ReadsReg(i: Instr, r: nat)
    requires WellShaped(i)
  {
    exists k :: 0 <= k < |Reads(i)| && Reads(i)[k] < |i.operands| && i.operands[Reads(i)[k]] == VReg(r)
  }

  lemma AssignLookup(m: map<nat, Value>, r: nat, v: IR.Option<Value>, x: nat)
    ensures Lookup(Assign(m, r, v), x) == if x == r then v else Lookup(m, x)
  {
  }

  lemma InputsAgree(i: Instr, j: Instr, ra: map<nat, Value>, rb: map<nat, Value>, vreg: nat, nreg: nat, bound: nat)
    requires Renamed(i, j, vreg, nreg) && Low(i, bound) && SameRegs(ra, rb, vreg, bound)
    requires ReadsReg(i, vreg) ==> Lookup(rb, nreg) == Lookup(ra, vreg)
    ensures Inputs(i, ra) == Inputs(j, rb)
    ensures Shape(i.operands) == Shape(j.operands)
  {
    ReadsInside(i);
    hide WellShaped, Reads;
    forall k | 0 <= k < |Reads(i)| ensures Inputs(i, ra)[k] == Inputs(j, rb)[k] {
      var p := Reads(i)[k];
      if i.operands[p] == VReg(vreg) {
        assert ReadsReg(i, vreg);
      }
    }
  }

  lemma {:induction false} WrittenAgrees(i: Instr, j: Instr, outs: seq<IR.Option<Value>>, ra: map<nat, Value>,
      rb: map<nat, Value>, n: nat, vreg: nat, nreg: nat, bound: nat)
    requires Renamed(i, j, vreg, nreg) && Low(i, bound) && SameRegs(ra, rb, vreg, bound) && n <= |i.defs|
    requires nreg == vreg || nreg >= bound
    ensures SameRegs(Written(i, outs, ra, n), Written(j, outs, rb, n), vreg, bound)
    ensures DefinedBy(i, VReg(vreg), n)
            ==> Lookup(Written(j, outs, rb, n), nreg) == Lookup(Written(i, outs, ra, n), vreg)
    ensures !DefinedBy(i, VReg(vreg), n) ==> Lookup(Written(i, outs, ra, n), vreg) == Lookup(ra, vreg)
  {
    ReadsInside(i);
    hide WellShaped, Reads, Assign, Lookup;
    if n > 0 {
      WrittenAgrees(i, j, outs, ra, rb, n - 1, vreg, nreg, bound);
      var a, b := Written(i, outs, ra, n - 1), Written(j, outs, rb, n - 1);
      var o := i.operands[i.defs[n - 1]];
      var v := Out(outs, n - 1);
      assert DefinedBy(i, VReg(vreg), n) <==> DefinedBy(i, VReg(vreg), n - 1) || o == VReg(vreg);
      if o.VReg? {
        var o' := j.operands[j.defs[n - 1]];
        forall r: nat | r < bound && r != vreg ensures Lookup(Assign(a, o.id, v), r) == Lookup(Assign(b, o'.id, v), r) {
          AssignLookup(a, o.id, v, r);
          AssignLookup(b, o'.id, v, r);
        }
        AssignLookup(a, o.id, v, vreg);
        AssignLookup(b, o'.id, v, nreg);
      }
    }
  }

  lemma DefinedByAll(i: Instr, o: Operand)
    requires WellShaped(i)
    ensures DefinedBy(i, o, |i.defs|) <==> HaveDefOf(i, o)
  {
  }

  /** What one step does under the two names. */
  ghost predicate StepsAgree<W>(m: Machine<W>, i: Instr, j: Instr, s: MState<W>, t: MState<W>,
      vreg: nat, nreg: nat, slot: nat, bound: nat)
    requires WellShaped(i) && WellShaped(j)
  {
    var (a, x) := Step(m, i, s);
    var (b, y) := Step(m, j, t);
    && x == y
    && SameRegs(a.regs, b.regs, vreg, bound) && SameSlots(a.slots, b.slots, slot) && a.world == b.world
    && Lookup(b.slots, slot) == Lookup(t.slots, slot)
    && (HaveDefOf(i, VReg(vreg)) ==> Lookup(b.regs, nreg) == Lookup(a.regs, vreg))
    && (!HaveDefOf(i, VReg(vreg)) ==> Lookup(a.regs, vreg) == Lookup(s.regs, vreg))
  }

  lemma StepRenamed<W>(m: Machine<W>, i: Instr, j: Instr, s: MState<W>, t: MState<W>,
      vreg: nat, nreg: nat, slot: nat, bound: nat)
    requires Renamed(i, j, vreg, nreg) && Low(i, bound) && Frame(slot) !in i.operands
    requires nreg == vreg || nreg >= bound
    requires SameRegs(s.regs, t.regs, vreg, bound) && SameSlots(s.slots, t.slots, slot) && s.world == t.world
    requires ReadsReg(i, vreg) ==> Lookup(t.regs, nreg) == Lookup(s.regs, vreg)
    ensures StepsAgree(m, i, j, s, t, vreg, nreg, slot, bound)
  {
    assert IsSlotLoad(m, i) == IsSlotLoad(m, j) && IsSlotStore(m, i) == IsSlotStore(m, j) by {
      hide WellShaped, Reads;
    }
    if IsSlotLoad(m, i) {
      LoadRenamed(m, i, j, s, t, vreg, nreg, slot, bound);
    } else if IsSlotStore(m, i) {
      StoreRenamed(m, i, j, s, t, vreg, nreg, slot, bound);
    } else {
      OtherRenamed(m, i, j, s, t, vreg, nreg, slot, bound);
    }
  }

  lemma LoadRenamed<W>(m: Machine<W>, i: Instr, j: Instr, s: MState<W>, t: MState<W>,
      vreg: nat, nreg: nat, slot: nat, bound: nat)
    requires Renamed(i, j, vreg, nreg) && Low(i, bound) && Frame(slot) !in i.operands
    requires nreg == vreg || nreg >= bound
    requires SameRegs(s.regs, t.regs, vreg, bound) && SameSlots(s.slots, t.slots, slot) && s.world == t.world
    requires IsSlotLoad(m, i) && IsSlotLoad(m, j)
    ensures StepsAgree(m, i, j, s, t, vreg, nreg, slot, bound)
  {
    hide Assign, Lookup, Reads;
    var r, r', f := i.operands[0].id, j.operands[0].id, i.operands[1].index;
    assert i.operands[1] in i.operands;
    var v := Lookup(s.slots, f);
    forall x: nat ensures Lookup(Assign(s.regs, r, v), x) == if x == r then v else Lookup(s.regs, x) {
      AssignLookup(s.regs, r, v, x);
    }
    forall x: nat ensures Lookup(Assign(t.regs, r', v), x) == if x == r' then v else Lookup(t.regs, x) {
      AssignLookup(t.regs, r', v, x);
    }
    assert HaveDefOf(i, VReg(vreg)) <==> r == vreg by {
      assert i.defs == [0];
      assert i.operands[i.defs[0]] == VReg(r);
    }
  }

  lemma StoreRenamed<W>(m: Machine<W>, i: Instr, j: Instr, s: MState<W>, t: MState<W>,
      vreg: nat, nreg: nat, slot: nat, bound: nat)
    requires Renamed(i, j, vreg, nreg) && Low(i, bound) && Frame(slot) !in i.operands
    requires SameRegs(s.regs, t.regs, vreg, bound) && SameSlots(s.slots, t.slots, slot) && s.world == t.world
    requires ReadsReg(i, vreg) ==> Lookup(t.regs, nreg) == Lookup(s.regs, vreg)
    requires !IsSlotLoad(m, i) && !IsSlotLoad(m, j) && IsSlotStore(m, i) && IsSlotStore(m, j)
    ensures StepsAgree(m, i, j, s, t, vreg, nreg, slot, bound)
  {
    hide Assign, Lookup;
    var r, r', f := i.operands[0].id, j.operands[0].id, i.operands[1].index;
    assert i.operands[1] in i.operands;
    if r == vreg {
      assert Reads(i)[0] == 0 && i.operands[Reads(i)[0]] == VReg(vreg);
      assert ReadsReg(i, vreg);
    }
    assert Lookup(s.regs, r) == Lookup(t.regs, r');
    var v := Lookup(s.regs, r);
    forall x: nat ensures Lookup(Assign(s.slots, f, v), x) == if x == f then v else Lookup(s.slots, x) {
      AssignLookup(s.slots, f, v, x);
    }
    forall x: nat ensures Lookup(Assign(t.slots, f, v), x) == if x == f then v else Lookup(t.slots, x) {
      AssignLookup(t.slots, f, v, x);
    }
  }

  lemma OtherRenamed<W>(m: Machine<W>, i: Instr, j: Instr, s: MState<W>, t: MState<W>,
      vreg: nat, nreg: nat, slot: nat, bound: nat)
    requires Renamed(i, j, vreg, nreg) && Low(i, bound)
    requires nreg == vreg || nreg >= bound
    requires SameRegs(s.regs, t.regs, vreg, bound) && SameSlots(s.slots, t.slots, slot) && s.world == t.world
    requires ReadsReg(i, vreg) ==> Lookup(t.regs, nreg) == Lookup(s.regs, vreg)
    requires !IsSlotLoad(m, i) && !IsSlotLoad(m, j) && !IsSlotStore(m, i) && !IsSlotStore(m, j)
    ensures StepsAgree(m, i, j, s, t, vreg, nreg, slot, bound)
  {
    InputsAgree(i, j, s.regs, t.regs, vreg, nreg, bound);
    var e := m.sem(i.op, Shape(i.operands), Inputs(i, s.regs), s.world);
    WrittenAgrees(i, j, e.outs, s.regs, t.regs, |i.defs|, vreg, nreg, bound);
    DefinedByAll(i, VReg(vreg));
    hide WellShaped, Reads, Lookup, Written, Inputs, Shape, SameRegs, SameSlots, HaveDefOf, DefinedBy, IsSlotLoad,
        IsSlotStore;
  }

  // ----- Runs of lists -----

  lemma {:induction false} RunConcat<W>(m: Machine<W>, a: seq<Instr>, b: seq<Instr>, s: MState<W>)
    requires AllShaped(a) && AllShaped(b)
    ensures var r := RunList(m, a, s);
            RunList(m, a + b, s) == if r.1.Continue? then RunList(m, b, r.0) else r
  {
    if a == [] {
      assert a + b == b;
    } else {
      hide Step, WellShaped;
      assert (a + b)[1..] == a[1..] + b && (a + b)[0] == a[0];
      RunConcat(m, a[1..], b, Step(m, a[0], s).0);
    }
  }

  lemma RunOne<W>(m: Machine<W>, i: Instr, s: MState<W>)
    requires WellShaped(i)
    ensures RunList(m, [i], s) == Step(m, i, s)
  {
    hide Step, WellShaped;
    var r := Step(m, i, s);
    assert [i][1..] == [];
    assert RunList(m, [], r.0) == (r.0, Continue);
  }

  lemma RunLoad<W>(m: Machine<W>, nreg: nat, slot: nat, t: MState<W>)
    requires slot in m.spilled
    ensures RunList(m, [NewLoad(nreg, slot)], t) == (t.(regs := Assign(t.regs, nreg, Lookup(t.slots, slot))), Continue)
  {
    RunOne(m, NewLoad(nreg, slot), t);
  }

  lemma RunStore<W>(m: Machine<W>, nreg: nat, slot: nat, t: MState<W>)
    requires slot in m.spilled
    ensures RunList(m, [NewStore(nreg, slot)], t) == (t.(slots := Assign(t.slots, slot, Lookup(t.regs, nreg))),
              Continue)
  {
    RunOne(m, NewStore(nreg, slot), t);
  }

  lemma BranchDefinesNothing<W>(m: Machine<W>, i: Instr, o: Operand, s: MState<W>)
    requires WellShaped(i) && HaveDefOf(i, o)
    ensures Step(m, i, s).1.Continue?
  {
  }

  /** What spilling `vreg` needs of an instruction: where it is read, it is listed as used. */
  predicate Spillable(i: Instr, vreg: nat, vregs: nat, stack: nat) {
    Made(i, vregs, stack) && (ReadsReg(i, vreg) ==> HaveUseOf(i, VReg(vreg)))
  }

  predicate ListSpillable(code: seq<Instr>, vreg: nat, vregs: nat, stack: nat) {
    forall k :: 0 <= k < |code| ==> Spillable(code[k], vreg, vregs, stack)
  }

  predicate BlocksSpillable(f: seq<seq<Instr>>, vreg: nat, vregs: nat, stack: nat) {
    forall b :: 0 <= b < |f| ==> ListSpillable(f[b], vreg, vregs, stack)
  }

  /** Complete lists do, for every register. */
  lemma AccountedSpillable(i: Instr, vreg: nat, vregs: nat, slot: nat)
    requires Made(i, vregs, slot) && Accounted(i)
    ensures Spillable(i, vreg, vregs, slot)
  {
    hide WellShaped, HaveUseOf, Reads, Within;
    if ReadsReg(i, vreg) {
      AccountedParts(i);
    }
  }

  lemma MadeLow(i: Instr, vregs: nat, slot: nat)
    requires Made(i, vregs, slot)
    ensures WellShaped(i) && Low(i, vregs) && Frame(slot) !in i.operands
  {
    hide WellShaped;
  }

  lemma RenamedReplace(i: Instr, vreg: nat, nreg: nat)
    requires WellShaped(i)
    ensures Renamed(i, Replace(i, VReg(vreg), VReg(nreg)), vreg, nreg)
  {
    ReplaceShaped(i, vreg, nreg);
    ReplaceParts(i, vreg, nreg);
    hide WellShaped, Reads, Replace;
  }

  lemma RenamedSelf(i: Instr, vreg: nat)
    requires WellShaped(i)
    ensures Renamed(i, i, vreg, vreg)
  {
    hide WellShaped, Reads;
    assert Substitute(i.operands, VReg(vreg), VReg(vreg)) == i.operands;
  }

  // ----- One original instruction -----

  /** Running `code` from `t` does what the original step did from `s`. */
  ghost predicate Matches<W>(m: Machine<W>, i: Instr, s: MState<W>, code: seq<Instr>, t: MState<W>,
      vreg: nat, slot: nat, bound: nat)
    requires WellShaped(i) && AllShaped(code)
  {
    && Step(m, i, s).1 == RunList(m, code, t).1
    && Kept(Step(m, i, s).0, RunList(m, code, t).0, vreg, slot, bound)
  }

  lemma EmittedShaped(i: Instr, vreg: nat, slot: nat, n: Names)
    requires WellShaped(i)
    ensures AllShaped(Emitted(i, vreg, slot, n))
    ensures AllShaped(Group(i, vreg, Name(n, vreg), slot))
  {
    ReplaceShaped(i, vreg, Name(n, vreg));
    assert WellShaped(NewLoad(Name(n, vreg), slot)) && WellShaped(NewStore(Name(n, vreg), slot));
    hide WellShaped, Replace;
  }

  lemma UntouchedMatches<W>(m: Machine<W>, i: Instr, s: MState<W>, t: MState<W>, vreg: nat, slot: nat, bound: nat)
    requires Spillable(i, vreg, bound, slot) && Kept(s, t, vreg, slot, bound) && WellShaped(i) && !Touches(i, vreg)
    ensures AllShaped([i]) && Matches(m, i, s, [i], t, vreg, slot, bound)
  {
    hide WellShaped, Step, Reads, Renamed, HaveUseOf, HaveDefOf, Lookup;
    MadeLow(i, bound, slot);
    RenamedSelf(i, vreg);
    StepRenamed(m, i, i, s, t, vreg, vreg, slot, bound);
    RunOne(m, i, t);
  }

  lemma StoreKeeps<W>(a: MState<W>, b: MState<W>, nreg: nat, vreg: nat, slot: nat, bound: nat)
    requires SameRegs(a.regs, b.regs, vreg, bound) && SameSlots(a.slots, b.slots, slot) && a.world == b.world
    requires Lookup(b.regs, nreg) == Lookup(a.regs, vreg)
    ensures Kept(a, b.(slots := Assign(b.slots, slot, Lookup(b.regs, nreg))), vreg, slot, bound)
  {
    hide Lookup, Assign, SameRegs;
    var v := Lookup(b.regs, nreg);
    forall f: nat ensures Lookup(Assign(b.slots, slot, v), f) == if f == slot then v else Lookup(b.slots, f) {
      AssignLookup(b.slots, slot, v, f);
    }
  }

  lemma LoadKeeps<W>(s: MState<W>, t: MState<W>, nreg: nat, vreg: nat, slot: nat, bound: nat)
    requires Kept(s, t, vreg, slot, bound) && (nreg == vreg || nreg >= bound)
    ensures var u := t.(regs := Assign(t.regs, nreg, Lookup(t.slots, slot)));
            SameRegs(s.regs, u.regs, vreg, bound) && Lookup(u.regs, nreg) == Lookup(s.regs, vreg)
  {
    hide Lookup, Assign;
    var v := Lookup(t.slots, slot);
    forall r: nat ensures Lookup(Assign(t.regs, nreg, v), r) == if r == nreg then v else Lookup(t.regs, r) {
      AssignLookup(t.regs, nreg, v, r);
    }
  }

  /** The state the renamed instruction starts from. */
  ghost function Loaded<W>(i: Instr, t: MState<W>, vreg: nat, nreg: nat, slot: nat): MState<W>
    requires WellShaped(i)
  {
    if HaveUseOf(i, VReg(vreg)) then t.(regs := Assign(t.regs, nreg, Lookup(t.slots, slot))) else t
  }

  /** The state after the renamed instruction and its store. */
  ghost function Stored<W>(i: Instr, b: MState<W>, vreg: nat, nreg: nat, slot: nat): MState<W>
    requires WellShaped(i)
  {
    if HaveDefOf(i, VReg(vreg)) then b.(slots := Assign(b.slots, slot, Lookup(b.regs, nreg))) else b
  }

  lemma GroupRuns<W>(m: Machine<W>, i: Instr, t: MState<W>, vreg: nat, nreg: nat, slot: nat)
    requires WellShaped(i) && slot in m.spilled
    requires WellShaped(Replace(i, VReg(vreg), VReg(nreg))) && AllShaped(Group(i, vreg, nreg, slot))
    ensures var r := Step(m, Replace(i, VReg(vreg), VReg(nreg)), Loaded(i, t, vreg, nreg, slot));
            RunList(m, Group(i, vreg, nreg, slot), t)
            == if r.1.Continue? then (Stored(i, r.0, vreg, nreg, slot), Continue) else r
  {
    hide WellShaped, Step, HaveUseOf, HaveDefOf, Replace, RunList;
    var j := Replace(i, VReg(vreg), VReg(nreg));
    var ld, st := [NewLoad(nreg, slot)], [NewStore(nreg, slot)];
    var pre := if HaveUseOf(i, VReg(vreg)) then ld else [];
    var post := if HaveDefOf(i, VReg(vreg)) then st else [];
    var u := Loaded(i, t, vreg, nreg, slot);
    var g := Group(i, vreg, nreg, slot);
    assert g == pre + ([j] + post) == pre + [j] + post;
    assert AllShaped(pre) && AllShaped([j] + post) && AllShaped([j]) && AllShaped(post) by {
      forall k | 0 <= k < |pre| ensures WellShaped(pre[k]) { assert pre[k] == g[k]; }
      forall k | 0 <= k < |[j] + post| ensures WellShaped(([j] + post)[k]) { assert ([j] + post)[k] == g[|pre| + k]; }
      forall k | 0 <= k < |post| ensures WellShaped(post[k]) { assert post[k] == ([j] + post)[1 + k]; }
    }
    RunConcat(m, pre, [j] + post, t);
    RunLoad(m, nreg, slot, t);
    RunNone(m, t);
    assert RunList(m, pre, t) == (u, Continue);
    RunConcat(m, [j], post, u);
    RunOne(m, j, u);
    var r := Step(m, j, u);
    RunStore(m, nreg, slot, r.0);
    RunNone(m, r.0);
  }

  lemma RunNone<W>(m: Machine<W>, s: MState<W>)
    ensures RunList(m, [], s) == (s, Continue)
  {
  }

  lemma TouchedMatches<W>(m: Machine<W>, i: Instr, s: MState<W>, t: MState<W>, vreg: nat, nreg: nat, slot: nat,
                          bound: nat)
    requires Spillable(i, vreg, bound, slot) && Kept(s, t, vreg, slot, bound) && WellShaped(i)
    requires slot in m.spilled && (nreg == vreg || nreg >= bound)
    requires AllShaped(Group(i, vreg, nreg, slot))
    ensures Matches(m, i, s, Group(i, vreg, nreg, slot), t, vreg, slot, bound)
  {
    hide WellShaped, Step, Reads, HaveUseOf, HaveDefOf, Replace, RunList, Group, Lookup, Assign, SameRegs, SameSlots;
    var j := Replace(i, VReg(vreg), VReg(nreg));
    MadeLow(i, bound, slot);
    RenamedReplace(i, vreg, nreg);
    assert WellShaped(j);
    hide Renamed, Spillable, Low, ReadsReg;
    GroupRuns(m, i, t, vreg, nreg, slot);
    LoadKeeps(s, t, nreg, vreg, slot, bound);
    var u := Loaded(i, t, vreg, nreg, slot);
    StepRenamed(m, i, j, s, u, vreg, nreg, slot, bound);
    var a, r := Step(m, i, s).0, Step(m, j, u);
    if HaveDefOf(i, VReg(vreg)) {
      BranchDefinesNothing(m, i, VReg(vreg), s);
      StoreKeeps(a, r.0, nreg, vreg, slot, bound);
    }
  }

  lemma EmittedMatches<W>(m: Machine<W>, i: Instr, s: MState<W>, t: MState<W>, vreg: nat, slot: nat, n: Names,
                          bound: nat)
    requires Spillable(i, vreg, bound, slot) && Kept(s, t, vreg, slot, bound) && WellShaped(i) && bound <= n.next
    requires slot in m.spilled && AllShaped(Emitted(i, vreg, slot, n))
    ensures Matches(m, i, s, Emitted(i, vreg, slot, n), t, vreg, slot, bound)
  {
    hide WellShaped, Spillable, HaveUseOf, HaveDefOf, Matches, Group, Kept;
    if Touches(i, vreg) {
      TouchedMatches(m, i, s, t, vreg, Name(n, vreg), slot, bound);
    } else {
      UntouchedMatches(m, i, s, t, vreg, slot, bound);
    }
  }

  // ----- Lists, blocks and runs -----

  lemma {:induction false} SpillShaped(code: seq<Instr>, vreg: nat, slot: nat, n: Names)
    requires AllShaped(code)
    ensures AllShaped(SpillList(code, vreg, slot, n))
  {
    hide WellShaped, Emitted, After;
    if code != [] {
      EmittedShaped(code[0], vreg, slot, n);
      SpillShaped(code[1..], vreg, slot, After(code[0], vreg, n));
    }
  }

  /** The whole list, and with a prefix for `code` every boundary between two instructions: the
      rewritten list leaves by the same way, in a state that keeps the register in the slot. */
  lemma {:induction false} ListMatches<W>(m: Machine<W>, code: seq<Instr>, s: MState<W>, t: MState<W>, vreg: nat,
      slot: nat, n: Names, bound: nat)
    requires ListSpillable(code, vreg, bound, slot) && AllShaped(code) && Kept(s, t, vreg, slot, bound)
             && bound <= n.next
    requires slot in m.spilled && AllShaped(SpillList(code, vreg, slot, n))
    ensures RunList(m, SpillList(code, vreg, slot, n), t).1 == RunList(m, code, s).1
    ensures Kept(RunList(m, code, s).0, RunList(m, SpillList(code, vreg, slot, n), t).0, vreg, slot, bound)
  {
    hide WellShaped, Spillable, Emitted, Step, Kept;
    if code != [] {
      var e := Emitted(code[0], vreg, slot, n);
      var n1 := After(code[0], vreg, n);
      var rest := SpillList(code[1..], vreg, slot, n1);
      EmittedShaped(code[0], vreg, slot, n);
      SpillShaped(code[1..], vreg, slot, n1);
      EmittedMatches(m, code[0], s, t, vreg, slot, n, bound);
      RunConcat(m, e, rest, t);
      AfterGrows(code[0], vreg, n);
      var r := Step(m, code[0], s);
      if r.1.Continue? {
        ListMatches(m, code[1..], r.0, RunList(m, e, t).0, vreg, slot, n1, bound);
      }
    }
  }

  lemma PrefixSpillable(code: seq<Instr>, k: nat, vreg: nat, vregs: nat, slot: nat)
    requires ListSpillable(code, vreg, vregs, slot) && k <= |code|
    ensures ListSpillable(code[..k], vreg, vregs, slot) && AllShaped(code[..k]) && AllShaped(code)
  {
    hide WellShaped, ReadsReg, HaveUseOf, Within;
  }

  /** At the boundary after the first `k` original instructions the rewritten list has run exactly
      the code emitted for them, and the slot holds what the register held. */
  lemma BoundaryKept<W>(m: Machine<W>, code: seq<Instr>, k: nat, s: MState<W>, t: MState<W>, vreg: nat, slot: nat,
      n: Names, bound: nat)
    requires ListSpillable(code, vreg, bound, slot) && k <= |code| && Kept(s, t, vreg, slot, bound) && bound <= n.next
    requires slot in m.spilled
    ensures AllShaped(code) && AllShaped(code[..k]) && AllShaped(SpillList(code[..k], vreg, slot, n))
    ensures SpillList(code[..k], vreg, slot, n) <= SpillList(code, vreg, slot, n)
    ensures RunList(m, SpillList(code[..k], vreg, slot, n), t).1 == RunList(m, code[..k], s).1
    ensures Kept(RunList(m, code[..k], s).0, RunList(m, SpillList(code[..k], vreg, slot, n), t).0, vreg, slot, bound)
  {
    hide WellShaped, Spillable, RunList, SpillList, Kept;
    PrefixSpillable(code, k, vreg, bound, slot);
    assert code == code[..k] + code[k..];
    SpillAppend(code[..k], code[k..], vreg, slot, n);
    SpillShaped(code[..k], vreg, slot, n);
    ListMatches(m, code[..k], s, t, vreg, slot, n, bound);
  }

  lemma {:induction false} BlockOf(f: seq<seq<Instr>>, b: nat, vreg: nat, slot: nat, n: Names) returns (nb: Names)
    requires BlocksShaped(f) && b < |f|
    ensures |SpillBlocks(f, vreg, slot, n)| == |f|
    ensures SpillBlocks(f, vreg, slot, n)[b] == SpillList(f[b], vreg, slot, nb) && n.next <= nb.next
  {
    SpillLength(f, vreg, slot, n);
    if b == 0 {
      nb := n;
    } else {
      NamesGrow(f[0], vreg, n);
      nb := BlockOf(f[1..], b - 1, vreg, slot, NamesAfter(f[0], vreg, n));
    }
  }

  lemma {:induction false} SpillLength(f: seq<seq<Instr>>, vreg: nat, slot: nat, n: Names)
    requires BlocksShaped(f)
    ensures |SpillBlocks(f, vreg, slot, n)| == |f|
  {
    if f != [] {
      SpillLength(f[1..], vreg, slot, NamesAfter(f[0], vreg, n));
    }
  }

  lemma BlocksStayShaped(f: seq<seq<Instr>>, vreg: nat, slot: nat, n: Names)
    requires BlocksShaped(f)
    ensures BlocksShaped(SpillBlocks(f, vreg, slot, n))
  {
    hide AllShaped;
    SpillLength(f, vreg, slot, n);
    var g := SpillBlocks(f, vreg, slot, n);
    forall b | 0 <= b < |g| ensures AllShaped(g[b]) {
      var nb := BlockOf(f, b, vreg, slot, n);
      SpillShaped(f[b], vreg, slot, nb);
    }
  }

  /** Spilling a register to a fresh slot changes no run: the blocks entered, the world at the end of
      each, and the way it ends are the same, from any two states that agree outside the registers
      the rewriting may use. */
  lemma {:induction false} SpillPreservesRuns<W>(m: Machine<W>, f: seq<seq<Instr>>, vreg: nat, slot: nat, n: Names,
      bound: nat, b: nat, s: MState<W>, t: MState<W>, fuel: nat)
    requires BlocksSpillable(f, vreg, bound, slot) && BlocksShaped(f) && BlocksShaped(SpillBlocks(f, vreg, slot, n))
    requires bound <= n.next && slot in m.spilled && Kept(s, t, vreg, slot, bound)
    ensures Run(m, SpillBlocks(f, vreg, slot, n), b, t, fuel) == Run(m, f, b, s, fuel)
    decreases fuel
  {
    hide AllShaped, ListSpillable, Kept, RunList, SpillList, SpillBlocks;
    SpillLength(f, vreg, slot, n);
    if fuel > 0 && b < |f| {
      var nb := BlockOf(f, b, vreg, slot, n);
      SpillShaped(f[b], vreg, slot, nb);
      ListMatches(m, f[b], s, t, vreg, slot, nb, bound);
      KeptWorld(RunList(m, f[b], s).0, RunList(m, SpillList(f[b], vreg, slot, nb), t).0, vreg, slot, bound);
      var r := RunList(m, f[b], s);
      if r.1.Goto? {
        SpillPreservesRuns(m, f, vreg, slot, n, bound, r.1.block, r.0,
                           RunList(m, SpillList(f[b], vreg, slot, nb), t).0, fuel - 1);
      }
    }
  }

  lemma KeptWorld<W>(s: MState<W>, t: MState<W>, vreg: nat, slot: nat, bound: nat)
    requires Kept(s, t, vreg, slot, bound)
    ensures s.world == t.world
  {
  }

  lemma SpillableShaped(f: seq<seq<Instr>>, vreg: nat, vregs: nat, slot: nat)
    requires BlocksSpillable(f, vreg, vregs, slot)
    ensures BlocksShaped(f)
  {
    hide WellShaped, ReadsReg, HaveUseOf, Within;
  }

  /** From a state in which the register and the slot hold nothing yet, the spilled function runs as the
      original does. */
  lemma SpilledFunctionRuns<W>(m: Machine<W>, f: seq<seq<Instr>>, vreg: nat, slot: nat, vregs: nat, b: nat,
      s: MState<W>, fuel: nat)
    requires BlocksSpillable(f, vreg, vregs, slot) && slot in m.spilled
    requires vreg !in s.regs && slot !in s.slots
    ensures BlocksShaped(f) && BlocksShaped(SpillBlocks(f, vreg, slot, Names(true, vregs)))
    ensures Run(m, SpillBlocks(f, vreg, slot, Names(true, vregs)), b, s, fuel) == Run(m, f, b, s, fuel)
  {
    SpillableShaped(f, vreg, vregs, slot);
    BlocksStayShaped(f, vreg, slot, Names(true, vregs));
    SpillPreservesRuns(m, f, vreg, slot, Names(true, vregs), vregs, b, s, s, fuel);
  }

  /** When all lists are complete, and stay so under new names, any register can be spilled after another. */
  lemma SpilledAgain(f: seq<seq<Instr>>, vreg: nat, slot: nat, vregs: nat, other: nat)
    requires BlocksReady(f, vregs, slot) && vreg < vregs
    ensures BlocksShaped(f) && BlocksSpillable(f, other, vregs, slot)
    ensures var n := Names(true, vregs);
            BlocksSpillable(SpillBlocks(f, vreg, slot, n), other, NamesAfterBlocks(f, vreg, n).next, slot + 1)
  {
    var n := Names(true, vregs);
    SpilledReady(f, vreg, slot, n, vregs);
    ReadySpillable(f, other, vregs, slot);
    ReadySpillable(SpillBlocks(f, vreg, slot, n), other, NamesAfterBlocks(f, vreg, n).next, slot + 1);
  }

  lemma ReadySpillable(f: seq<seq<Instr>>, vreg: nat, vregs: nat, slot: nat)
    requires BlocksReady(f, vregs, slot)
    ensures BlocksSpillable(f, vreg, vregs, slot)
  {
    hide Made, Spillable, Accounted, Plainly, TargetApart, WellShaped;
    forall b, k | 0 <= b < |f| && 0 <= k < |f[b]| ensures Spillable(f[b][k], vreg, vregs, slot) {
      assert Ready(f[b][k], vregs, slot);
      AccountedSpillable(f[b][k], vreg, vregs, slot);
    }
  }
}
