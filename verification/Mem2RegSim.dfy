/** Promotion preserves every run: the renamed function, without its stack slots, takes the same edges,
    leaves the same memory and trace and returns the same value. */
module Mem2RegSim {
  import opened IR
  import opened Dominance
  import opened Mem2Reg
  import opened Mem2RegRename
  import opened Mem2RegWalk
  import opened Mem2RegStatic

  // ----- The promoted function -----

  /** `p` is the phi inserted for slot `v` in block `b`. */
  ghost predicate Inserted(phis: PhiTable, pairs: Pairs, b: BlockId, v: Slot, p: Phi) {
    (b, v) in phis && p == Phi(phis[(b, v)], PairsOf(pairs, phis[(b, v)]))
  }

  /** `add` lists the inserted phis of block `b`, in any order. */
  ghost predicate ListsPhis(phis: PhiTable, w: Record, b: BlockId, add: seq<Phi>) {
    Lists(phis, w.pairs, b, PhiSlots(phis, b), add)
  }

  /** `add` lists the inserted phis of block `b` for the slots in `done`. */
  ghost predicate Lists(phis: PhiTable, pairs: Pairs, b: BlockId, done: set<Slot>, add: seq<Phi>) {
    && (forall p :: p in add ==> exists v :: v in done && Inserted(phis, pairs, b, v, p))
    && (forall v :: v in done ==> exists p :: p in add && Inserted(phis, pairs, b, v, p))
    && (forall i, j :: 0 <= i < j < |add| ==> add[i].dst != add[j].dst)
  }

  /** `g` is `f` with the visited blocks replaced by what the walk made of them. */
  ghost predicate IsPromotion(f: Function, phis: PhiTable, w: Record, g: Function, adds: map<BlockId, seq<Phi>>) {
    && g.entry == f.entry && g.blocks.Keys == f.blocks.Keys + w.bodies.Keys && w.bodies.Keys <= adds.Keys
    && (forall b :: b in f.blocks && b !in w.bodies ==> g.blocks[b] == f.blocks[b])
    && forall b :: b in w.bodies && b in f.blocks ==>
         ListsPhis(phis, w, b, adds[b])
             && g.blocks[b] == Block(f.blocks[b].phis + adds[b], w.bodies[b].0, w.bodies[b].1)
  }

  /** What the lowering from the syntax tree gives this pass: slots are only accessed by loads and stores
      of their own, and neither a phi nor the address of a memory load is a value loaded from a slot. */
  ghost predicate Promotable(f: Function) {
    forall r: Reg, x, y ::
      && DefinedAt(f, x, r) && x.BodyRef? && IsSlotLoad(f.blocks[x.b].body[x.k])
      && IsRef(f, y) && Reg(r) in RefOperands(f, y)
      ==> !y.PhiRef? && !(y.BodyRef? && f.blocks[y.b].body[y.k].Load?)
  }

  // ----- The relation between the two states -----

  ghost predicate IsNewPhi(phis: PhiTable, r: Reg) {
    exists key :: key in phis && phis[key] == r
  }

  ghost function ReadName(n: Names, v: Slot, env: Env): Option<Val> {
    if v in n then Read(n[v], env) else None
  }

  ghost predicate SamePlain(phis: PhiTable, w: Record, s: State, t: State) {
    forall r: Reg :: r !in w.rm && !IsNewPhi(phis, r) ==> s.env(r) == t.env(r)
  }

  /** A replaced load that was executed on the way to position `k` of block `b` equals its name. */
  ghost predicate SameReplaced(f: Function, w: Record, b: BlockId, k: nat, s: State, t: State) {
    forall r: Reg, x :: r in w.rm && DefinedAt(f, x, r) && Before(f, x, b, k) ==> s.env(r) == Read(w.rm[r], t.env)
  }

  /** Every slot holds what its current name holds. */
  ghost predicate SameSlots(n: Names, s: State, t: State) {
    forall v: Slot :: s.slots(v) == ReadName(n, v, t.env)
  }

  ghost predicate SameMemory(s: State, t: State) {
    s.heap == t.heap && s.trace == t.trace && forall v: Slot :: t.slots(v) == None
  }

  ghost function NamesAt(f: Function, w: Record, b: BlockId, k: nat): Names
    requires Visited(f, w, b) && k <= |f.blocks[b].body|
  {
    NamesAfter(f.blocks[b].body, k, w.ins[b], w.rm)
  }

  ghost predicate Sim(f: Function, phis: PhiTable, w: Record, b: BlockId, k: nat, s: State, t: State)
    requires Visited(f, w, b) && k <= |f.blocks[b].body|
  {
    SamePlain(phis, w, s, t) && SameReplaced(f, w, b, k, s, t) && SameSlots(NamesAt(f, w, b, k), s, t)
        && SameMemory(s, t)
  }

  // ----- Reading renamed operands -----

  /** `o` is an operand used at position `k` of block `b`. */
  ghost predicate UsedAt(f: Function, b: BlockId, k: nat, o: Operand) {
    && b in f.blocks && k <= |f.blocks[b].body|
    && (if k < |f.blocks[b].body| then o in Operands(f.blocks[b].body[k]) else o in TermOperands(f.blocks[b].term))
  }

  lemma NotNewPhi(f: Function, phis: PhiTable, b: BlockId, k: nat, r: Reg)
    requires Fresh(f, phis) && UsedAt(f, b, k, Reg(r))
    ensures !IsNewPhi(phis, r)
  {
    var u := if k < |f.blocks[b].body| then BodyRef(b, k) else TermRef(b);
    assert IsRef(f, u) && Reg(r) in RefOperands(f, u);
  }

  lemma RenameIs(rm: Replace, o: Operand)
    ensures Rename(rm, o) == if o.Reg? && o.r in rm then rm[o.r] else o
  {
  }

  lemma ReadIs(o: Operand, env: Env)
    ensures Read(o, env) == if o.Const? then Some(o.v) else env(o.r)
  {
  }

  lemma ReplacedNow(f: Function, w: Record, b: BlockId, k: nat, s: State, t: State, r: Reg, x: Ref)
    requires SameReplaced(f, w, b, k, s, t) && r in w.rm && DefinedAt(f, x, r) && Before(f, x, b, k)
    ensures s.env(r) == Read(w.rm[r], t.env)
  {
  }

  lemma PlainNow(phis: PhiTable, w: Record, s: State, t: State, r: Reg)
    requires SamePlain(phis, w, s, t) && r !in w.rm && !IsNewPhi(phis, r)
    ensures s.env(r) == t.env(r)
  {
  }

  lemma ReadSame(f: Function, phis: PhiTable, w: Record, b: BlockId, k: nat, o: Operand, s: State, t: State)
    requires Promoted(f, phis, w) && Visited(f, w, b) && k <= |f.blocks[b].body| && UsedAt(f, b, k, o)
             && Sim(f, phis, w, b, k, s, t)
    ensures Read(o, s.env) == Read(Rename(w.rm, o), t.env)
  {
    hide *;
    PromotedParts(f, phis, w);
    SimParts(f, phis, w, b, k, s, t);
    RenameIs(w.rm, o);
    ReadIs(o, s.env);
    ReadIs(o, t.env);
    if o.Reg? {
      if o.r in w.rm {
        var c, j := ReplacedByName(f, phis, w, o.r);
        UsedAfterDef(f, b, k, o.r, BodyRef(c, j));
        ReplacedNow(f, w, b, k, s, t, o.r, BodyRef(c, j));
      } else {
        NotNewPhi(f, phis, b, k, o.r);
        PlainNow(phis, w, s, t, o.r);
      }
    }
  }

  lemma UsedAfterDef(f: Function, b: BlockId, k: nat, r: Reg, x: Ref)
    requires SSA(f) && UsedAt(f, b, k, Reg(r)) && DefinedAt(f, x, r)
    ensures Before(f, x, b, k)
  {
    UseAfterDef(f, b, k, r, x);
  }

  lemma OperandUsed(f: Function, b: BlockId, k: nat, j: nat)
    requires b in f.blocks && k < |f.blocks[b].body| && j < |Operands(f.blocks[b].body[k])|
    ensures UsedAt(f, b, k, Operands(f.blocks[b].body[k])[j])
  {
  }

  lemma ReadAllEqual(os: seq<Operand>, os': seq<Operand>, env: Env, env': Env)
    requires |os| == |os'| && forall j :: 0 <= j < |os| ==> Read(os[j], env) == Read(os'[j], env')
    ensures ReadAll(os, env) == ReadAll(os', env')
  {
    hide Read;
    if ReadAll(os, env).Some? {
      assert ReadAll(os, env).value == ReadAll(os', env').value;
    }
  }

  lemma ReadAllSame(f: Function, phis: PhiTable, w: Record, b: BlockId, k: nat, s: State, t: State)
    requires Promoted(f, phis, w) && Visited(f, w, b) && k < |f.blocks[b].body|
    requires Sim(f, phis, w, b, k, s, t)
    ensures var os := Operands(f.blocks[b].body[k]); ReadAll(os, s.env) == ReadAll(RenameAll(w.rm, os), t.env)
  {
    var os := Operands(f.blocks[b].body[k]);
    var os' := RenameAll(w.rm, os);
    hide *;
    forall j | 0 <= j < |os| ensures |os'| == |os| && Read(os[j], s.env) == Read(os'[j], t.env) {
      OperandUsed(f, b, k, j);
      ReadSame(f, phis, w, b, k, os[j], s, t);
      RenameAllAt(w.rm, os, j);
    }
    RenameAllAt(w.rm, os, 0);
    ReadAllEqual(os, os', s.env, t.env);
  }

  lemma RenameAllAt(rm: Replace, os: seq<Operand>, j: nat)
    ensures |RenameAll(rm, os)| == |os| && (j < |os| ==> RenameAll(rm, os)[j] == Rename(rm, os[j]))
  {
  }

  // ----- One instruction -----

  /** The two environments differ at most in what the instruction at position `k` defines. */
  ghost predicate OnlyDefined(f: Function, b: BlockId, k: nat, env: Env, env': Env)
    requires b in f.blocks && k < |f.blocks[b].body|
  {
    forall r: Reg :: Defines(f.blocks[b].body[k]) != Some(r) ==> env'(r) == env(r)
  }

  lemma AvailUnaffected(f: Function, phis: PhiTable, w: Record, o: Operand, b: BlockId, k: nat, env: Env, env': Env)
    requires b in f.blocks && k < |f.blocks[b].body| && Avail(f, phis, w, o, b, k) && OnlyDefined(f, b, k, env, env')
    ensures Read(o, env') == Read(o, env)
  {
    if o.Reg? && Defines(f.blocks[b].body[k]) == Some(o.r) {
      assert DefinedAt(f, BodyRef(b, k), o.r);
    }
  }

  /** A register that is no phi's and is replaced comes from a load of a slot. */
  lemma ReplacedIs(f: Function, phis: PhiTable, w: Record, r: Reg, x: Ref)
    requires Promoted(f, phis, w) && r in w.rm && DefinedAt(f, x, r)
    ensures x.BodyRef? && x.b in w.ins && Visited(f, w, x.b) && x.k < |f.blocks[x.b].body|
            && IsSlotLoad(f.blocks[x.b].body[x.k])
    ensures var n := NamesAfter(f.blocks[x.b].body, x.k, w.ins[x.b], w.rm);
            var v := f.blocks[x.b].body[x.k].p.slot;
            v in n && w.rm[r] == n[v]
  {
    PromotedParts(f, phis, w);
    hide *;
    var c, j := ReplacedByName(f, phis, w, r);
    TwoDefinitions(f, x, BodyRef(c, j), r);
  }

  lemma ReplacedUnaffected(f: Function, phis: PhiTable, w: Record, b: BlockId, k: nat, r: Reg, x: Ref, env: Env,
                           env': Env)
    requires Promoted(f, phis, w) && b in w.ins && Visited(f, w, b) && k < |f.blocks[b].body|
             && OnlyDefined(f, b, k, env, env')
    requires r in w.rm && DefinedAt(f, x, r) && Before(f, x, b, k)
    ensures Read(w.rm[r], env') == Read(w.rm[r], env)
  {
    hide *;
    ReplacedIs(f, phis, w, r, x);
    assert x == BodyRef(x.b, x.k);
    VisitedIn(f, w, b);
    ReplacedAvail(f, phis, w, b, k, x.b, x.k, r);
    AvailUnaffected(f, phis, w, w.rm[r], b, k, env, env');
  }

  lemma VisitedIn(f: Function, w: Record, b: BlockId)
    ensures Visited(f, w, b) <==> b in f.blocks && b in w.ins
  {
  }

  lemma BeforeNext(f: Function, x: Ref, b: BlockId, k: nat)
    requires Before(f, x, b, k + 1)
    ensures Before(f, x, b, k) || x == BodyRef(b, k)
  {
  }

  /** Replaced loads other than the instruction itself keep their values. */
  lemma ReplacedStep(f: Function, phis: PhiTable, w: Record, b: BlockId, k: nat, s: State, s': State, t: State,
                     t': State)
    requires Promoted(f, phis, w) && b in w.ins && Visited(f, w, b) && k < |f.blocks[b].body|
    requires SameReplaced(f, w, b, k, s, t) && OnlyDefined(f, b, k, s.env, s'.env)
             && OnlyDefined(f, b, k, t.env, t'.env)
    requires var d := Defines(f.blocks[b].body[k]);
             d.Some? && d.value in w.rm ==> s'.env(d.value) == Read(w.rm[d.value], t'.env)
    ensures SameReplaced(f, w, b, k + 1, s', t')
  {
    var d := Defines(f.blocks[b].body[k]);
    hide Promoted, Before;
    forall r: Reg, x | r in w.rm && DefinedAt(f, x, r) && Before(f, x, b, k + 1)
      ensures s'.env(r) == Read(w.rm[r], t'.env)
    {
      BeforeNext(f, x, b, k);
      if d != Some(r) {
        ReplacedUnaffected(f, phis, w, b, k, r, x, t.env, t'.env);
      }
    }
  }

  /** Names keep their values. */
  lemma SlotsStep(f: Function, phis: PhiTable, w: Record, b: BlockId, k: nat, s: State, s': State, t: State, t': State)
    requires Promoted(f, phis, w) && b in w.ins && Visited(f, w, b) && k < |f.blocks[b].body|
    requires SameSlots(NamesAt(f, w, b, k), s, t) && OnlyDefined(f, b, k, t.env, t'.env)
    requires s'.slots == s.slots
    ensures SameSlots(NamesAt(f, w, b, k), s', t')
  {
    BlockAvail(f, phis, w, b, k);
    var n := NamesAt(f, w, b, k);
    hide Promoted, OnlyDefined, Avail;
    forall v: Slot ensures s'.slots(v) == ReadName(n, v, t'.env) {
      if v in n {
        AvailUnaffected(f, phis, w, n[v], b, k, t.env, t'.env);
      }
    }
  }

  ghost predicate PlainStep(d: Option<Reg>, rm: Replace, s: State, t: State) {
    d.Some? && d.value !in rm ==> s.env(d.value) == t.env(d.value)
  }

  lemma SamePlainStep(f: Function, phis: PhiTable, w: Record, b: BlockId, k: nat, s: State, s': State, t: State,
                      t': State)
    requires b in f.blocks && k < |f.blocks[b].body|
    requires SamePlain(phis, w, s, t) && OnlyDefined(f, b, k, s.env, s'.env) && OnlyDefined(f, b, k, t.env, t'.env)
    requires PlainStep(Defines(f.blocks[b].body[k]), w.rm, s', t')
    ensures SamePlain(phis, w, s', t')
  {
    hide IsNewPhi;
  }

  lemma NamesNext(f: Function, w: Record, b: BlockId, k: nat)
    requires Visited(f, w, b) && k < |f.blocks[b].body|
    ensures var i := f.blocks[b].body[k];
            && NamesAt(f, w, b, k + 1) == NamesStep(i, NamesAt(f, w, b, k), w.rm)
            && (!IsSlotStore(i) ==> NamesAt(f, w, b, k + 1) == NamesAt(f, w, b, k))
            && (IsSlotStore(i) ==> NamesAt(f, w, b, k + 1) == NamesAt(f, w, b, k)[i.p.slot := Rename(w.rm, i.value)])
  {
  }

  /** What an instruction that is not a store to a slot does: it defines at most its own register. */
  lemma StepNoStore(f: Function, phis: PhiTable, w: Record, b: BlockId, k: nat, s: State, s': State, t: State,
                    t': State)
    requires Promoted(f, phis, w) && Visited(f, w, b) && k < |f.blocks[b].body| && Sim(f, phis, w, b, k, s, t)
    requires OnlyDefined(f, b, k, s.env, s'.env) && OnlyDefined(f, b, k, t.env, t'.env)
    requires s'.slots == s.slots && SameMemory(s', t') && !IsSlotStore(f.blocks[b].body[k])
    requires var d := Defines(f.blocks[b].body[k]);
             d.Some? && d.value in w.rm ==> s'.env(d.value) == Read(w.rm[d.value], t'.env)
    requires PlainStep(Defines(f.blocks[b].body[k]), w.rm, s', t')
    ensures Sim(f, phis, w, b, k + 1, s', t')
  {
    hide *;
    NamesNext(f, w, b, k);
    SimParts(f, phis, w, b, k, s, t);
    VisitedIn(f, w, b);
    ReplacedStep(f, phis, w, b, k, s, s', t, t');
    SlotsStep(f, phis, w, b, k, s, s', t, t');
    SamePlainStep(f, phis, w, b, k, s, s', t, t');
    SimFrom(f, phis, w, b, k + 1, s', t');
  }

  lemma SimParts(f: Function, phis: PhiTable, w: Record, b: BlockId, k: nat, s: State, t: State)
    requires Visited(f, w, b) && k <= |f.blocks[b].body| && Sim(f, phis, w, b, k, s, t)
    ensures SamePlain(phis, w, s, t) && SameReplaced(f, w, b, k, s, t) && SameSlots(NamesAt(f, w, b, k), s, t)
            && SameMemory(s, t)
  {
  }

  lemma SimFrom(f: Function, phis: PhiTable, w: Record, b: BlockId, k: nat, s: State, t: State)
    requires Visited(f, w, b) && k <= |f.blocks[b].body|
    requires SamePlain(phis, w, s, t) && SameReplaced(f, w, b, k, s, t) && SameSlots(NamesAt(f, w, b, k), s, t)
             && SameMemory(s, t)
    ensures Sim(f, phis, w, b, k, s, t)
  {
  }

  /** Both runs go on and stay related, or both are stuck. */
  ghost predicate Follows(f: Function, phis: PhiTable, w: Record, b: BlockId, k: nat, s: Option<State>,
                          t: Option<State>)
    requires Visited(f, w, b) && k <= |f.blocks[b].body|
  {
    s.Some? == t.Some? && (s.Some? ==> Sim(f, phis, w, b, k, s.value, t.value))
  }

  ghost function NewAt(f: Function, w: Record, b: BlockId, k: nat): seq<Instr>
    requires Visited(f, w, b) && k < |f.blocks[b].body|
  {
    NewInstr(f.blocks[b].body[k], NamesAt(f, w, b, k), w.rm)
  }

  lemma ExecOne(world: Oracle, i: Instr, s: State)
    ensures ExecBody(world, [i], s) == ExecInstr(world, i, s)
  {
    var s1 := ExecInstr(world, i, s);
    if s1.Some? {
      assert ExecBody(world, [i][1..], s1.value) == s1;
    }
  }

  /** Only loads of slots are replaced. */
  lemma DstPlain(f: Function, phis: PhiTable, w: Record, b: BlockId, k: nat)
    requires Promoted(f, phis, w) && Visited(f, w, b) && k < |f.blocks[b].body|
    requires Defines(f.blocks[b].body[k]).Some? && !IsSlotLoad(f.blocks[b].body[k])
    ensures Defines(f.blocks[b].body[k]).value !in w.rm
  {
    hide Promoted;
    var r := Defines(f.blocks[b].body[k]).value;
    assert DefinedAt(f, BodyRef(b, k), r);
    if r in w.rm {
      ReplacedIs(f, phis, w, r, BodyRef(b, k));
    }
  }

  /** The same value goes to the same register. */
  lemma SetSame(f: Function, phis: PhiTable, w: Record, b: BlockId, k: nat, s: State, s': State, t: State, t': State,
                x: Option<Val>)
    requires Promoted(f, phis, w) && Visited(f, w, b) && k < |f.blocks[b].body| && Sim(f, phis, w, b, k, s, t)
    requires var d := Defines(f.blocks[b].body[k]);
             && d.Some? && d.value !in w.rm
             && s'.env == SetReg(s.env, d.value, x) && t'.env == SetReg(t.env, d.value, x)
    requires s'.slots == s.slots && SameMemory(s', t')
    ensures Sim(f, phis, w, b, k + 1, s', t')
  {
    hide Promoted, Sim;
    StepNoStore(f, phis, w, b, k, s, s', t, t');
  }

  lemma PureSim(world: Oracle, f: Function, phis: PhiTable, w: Record, b: BlockId, k: nat, s: State, t: State)
    requires Promoted(f, phis, w) && Visited(f, w, b) && k < |f.blocks[b].body| && Sim(f, phis, w, b, k, s, t)
    requires f.blocks[b].body[k].Pure?
    ensures Follows(f, phis, w, b, k + 1, ExecInstr(world, f.blocks[b].body[k], s),
              ExecBody(world, NewAt(f, w, b, k), t))
  {
    var i := f.blocks[b].body[k];
    var x := ApplyTo(i.op, ReadAll(i.args, s.env));
    DstPlain(f, phis, w, b, k);
    ReadAllSame(f, phis, w, b, k, s, t);
    hide Promoted, ReadAll, Apply, RenameAll;
    ExecOne(world, Pure(i.dst, i.op, RenameAll(w.rm, i.args)), t);
    SetSame(f, phis, w, b, k, s, s.(env := SetReg(s.env, i.dst, x)), t, t.(env := SetReg(t.env, i.dst, x)), x);
    hide Sim, NamesAfter;
  }

  /** Neither run goes on, or both put the same value into register `d`. */
  ghost predicate SetBoth(s: State, s': Option<State>, t: State, t': Option<State>, d: Reg, x: Option<Val>) {
    && s'.Some? == t'.Some?
    && (s'.Some? ==>
          && s'.value.env == SetReg(s.env, d, x) && t'.value.env == SetReg(t.env, d, x)
          && s'.value.slots == s.slots && SameMemory(s'.value, t'.value))
  }

  lemma SetBothSim(f: Function, phis: PhiTable, w: Record, b: BlockId, k: nat,
                   s: State, s': Option<State>, t: State, t': Option<State>, d: Reg, x: Option<Val>)
    requires Promoted(f, phis, w) && Visited(f, w, b) && k < |f.blocks[b].body| && Sim(f, phis, w, b, k, s, t)
    requires Defines(f.blocks[b].body[k]) == Some(d) && d !in w.rm && SetBoth(s, s', t, t', d, x)
    ensures Follows(f, phis, w, b, k + 1, s', t')
  {
    hide Promoted, Sim, SetReg, SameMemory;
    if s'.Some? {
      SetSame(f, phis, w, b, k, s, s'.value, t, t'.value, x);
    }
  }

  lemma SameCall(world: Oracle, d: Reg, callee: nat, args: seq<Operand>, args': seq<Operand>, effects: bool, s: State,
                 t: State)
    returns (x: Option<Val>)
    requires ReadAll(args, s.env) == ReadAll(args', t.env) && SameMemory(s, t)
    ensures SetBoth(s, ExecInstr(world, Call(d, callee, args, effects), s), t,
              ExecInstr(world, Call(d, callee, args', effects), t), d, x)
  {
    var vs := ReadAll(args, s.env);
    x := if vs.Some? then Some(world(callee, vs.value, s.heap).0) else None;
    hide ReadAll, SetReg;
  }

  lemma CallRenamed(f: Function, w: Record, b: BlockId, k: nat)
    requires Visited(f, w, b) && k < |f.blocks[b].body| && f.blocks[b].body[k].Call?
    ensures var i := f.blocks[b].body[k];
            && Defines(i) == Some(i.dst) && Operands(i) == i.args && !IsSlotLoad(i)
            && i == Call(i.dst, i.callee, i.args, i.effects)
            && NewAt(f, w, b, k) == [Call(i.dst, i.callee, RenameAll(w.rm, i.args), i.effects)]
  {
  }

  lemma CallSim(world: Oracle, f: Function, phis: PhiTable, w: Record, b: BlockId, k: nat, s: State, t: State)
    requires Promoted(f, phis, w) && Visited(f, w, b) && k < |f.blocks[b].body| && Sim(f, phis, w, b, k, s, t)
    requires f.blocks[b].body[k].Call?
    ensures Follows(f, phis, w, b, k + 1, ExecInstr(world, f.blocks[b].body[k], s),
              ExecBody(world, NewAt(f, w, b, k), t))
  {
    hide *;
    VisitedIn(f, w, b);
    var i := f.blocks[b].body[k];
    var args' := RenameAll(w.rm, i.args);
    CallRenamed(f, w, b, k);
    DstPlain(f, phis, w, b, k);
    ReadAllSame(f, phis, w, b, k, s, t);
    SimParts(f, phis, w, b, k, s, t);
    ExecOne(world, Call(i.dst, i.callee, args', i.effects), t);
    var x := SameCall(world, i.dst, i.callee, i.args, args', i.effects, s, t);
    SetBothSim(f, phis, w, b, k, s, ExecInstr(world, i, s), t,
        ExecInstr(world, Call(i.dst, i.callee, args', i.effects), t), i.dst, x);
  }

  /** The address of a load from memory is no replaced load. */
  lemma AddressKept(f: Function, phis: PhiTable, w: Record, b: BlockId, k: nat)
    requires Promoted(f, phis, w) && Promotable(f) && Visited(f, w, b) && k < |f.blocks[b].body|
    requires f.blocks[b].body[k].Load? && f.blocks[b].body[k].p.Addr?
    ensures var a := f.blocks[b].body[k].p.a; UsedAt(f, b, k, a) && Rename(w.rm, a) == a
  {
    var a := f.blocks[b].body[k].p.a;
    assert Operands(f.blocks[b].body[k])[0] == a;
    PromotedParts(f, phis, w);
    if a.Reg? && a.r in w.rm {
      hide Promoted, Promotable;
      var c, j := KeyAt(f, w, a.r);
      NotReplaced(f, BodyRef(c, j), BodyRef(b, k), a.r);
    }
  }

  lemma NotReplaced(f: Function, x: Ref, y: Ref, r: Reg)
    requires Promotable(f) && DefinedAt(f, x, r) && x.BodyRef? && IsSlotLoad(f.blocks[x.b].body[x.k])
    requires IsRef(f, y) && Reg(r) in RefOperands(f, y)
    ensures !y.PhiRef? && !(y.BodyRef? && f.blocks[y.b].body[y.k].Load?)
  {
  }

  lemma LoadSim(world: Oracle, f: Function, phis: PhiTable, w: Record, b: BlockId, k: nat, s: State, t: State)
    requires Promoted(f, phis, w) && Promotable(f) && Visited(f, w, b) && k < |f.blocks[b].body|
             && Sim(f, phis, w, b, k, s, t)
    requires f.blocks[b].body[k].Load? && f.blocks[b].body[k].p.Addr?
    ensures Follows(f, phis, w, b, k + 1, ExecInstr(world, f.blocks[b].body[k], s),
              ExecBody(world, NewAt(f, w, b, k), t))
  {
    hide Promoted, Promotable, UsedAt, SameReplaced, SameSlots, SamePlain;
    var i := f.blocks[b].body[k];
    DstPlain(f, phis, w, b, k);
    AddressKept(f, phis, w, b, k);
    ReadSame(f, phis, w, b, k, i.p.a, s, t);
    SimParts(f, phis, w, b, k, s, t);
    hide Sim, Rename;
    ExecOne(world, i, t);
    var s', t' := ExecInstr(world, i, s), ExecInstr(world, i, t);
    assert s'.Some? == t'.Some?;
    if s'.Some? {
      SetSame(f, phis, w, b, k, s, s'.value, t, t'.value, s'.value.env(i.dst));
    }
  }

  lemma LoadRecordedAt(f: Function, phis: PhiTable, w: Record, b: BlockId, k: nat)
    requires Promoted(f, phis, w) && Visited(f, w, b) && k < |f.blocks[b].body| && IsSlotLoad(f.blocks[b].body[k])
    ensures var i := f.blocks[b].body[k];
            var n := NamesAt(f, w, b, k);
            if i.p.slot in n then i.dst in w.rm && w.rm[i.dst] == n[i.p.slot] else i.dst !in w.rm
  {
    PromotedParts(f, phis, w);
    hide Promoted, SSA, Fresh, EntryOnly, WalkOk, TreeOk, InsOk, KeysOk, PairsOk, BodiesOk;
    VisitedBlockOk(f, w, b);
  }

  /** A load of a slot: dropped when the slot has a name, which it stands for from now on. */
  lemma SlotLoadSim(world: Oracle, f: Function, phis: PhiTable, w: Record, b: BlockId, k: nat, s: State, t: State)
    requires Promoted(f, phis, w) && Visited(f, w, b) && k < |f.blocks[b].body| && Sim(f, phis, w, b, k, s, t)
    requires IsSlotLoad(f.blocks[b].body[k])
    ensures Follows(f, phis, w, b, k + 1, ExecInstr(world, f.blocks[b].body[k], s),
              ExecBody(world, NewAt(f, w, b, k), t))
  {
    var i := f.blocks[b].body[k];
    hide Promoted, SameReplaced, SamePlain, NamesAt;
    LoadRecordedAt(f, phis, w, b, k);
    SimParts(f, phis, w, b, k, s, t);
    var x := s.slots(i.p.slot);
    var s' := s.(env := SetReg(s.env, i.dst, x));
    assert x == ReadName(NamesAt(f, w, b, k), i.p.slot, t.env);
    if i.p.slot in NamesAt(f, w, b, k) {
      StepNoStore(f, phis, w, b, k, s, s', t, t);
    } else {
      ExecOne(world, i, t);
      SetSame(f, phis, w, b, k, s, s', t, t.(env := SetReg(t.env, i.dst, None)), None);
    }
    assert ExecInstr(world, i, s) == Some(s');
    hide Sim;
  }

  lemma SlotStoreSim(world: Oracle, f: Function, phis: PhiTable, w: Record, b: BlockId, k: nat, s: State, t: State)
    requires Promoted(f, phis, w) && Visited(f, w, b) && k < |f.blocks[b].body| && Sim(f, phis, w, b, k, s, t)
    requires IsSlotStore(f.blocks[b].body[k])
    ensures Follows(f, phis, w, b, k + 1, ExecInstr(world, f.blocks[b].body[k], s),
              ExecBody(world, NewAt(f, w, b, k), t))
  {
    hide *;
    hide Promoted;
    StoreToSlot(world, f, w, b, k, s, t);
    var i := f.blocks[b].body[k];
    ReadSame(f, phis, w, b, k, i.value, s, t);
    var s' := s.(slots := SetReg(s.slots, i.p.slot, Read(i.value, s.env)));
    SimParts(f, phis, w, b, k, s, t);
    VisitedIn(f, w, b);
    SameEnvs(f, b, k, s, s', t);
    NoDst(f.blocks[b].body[k]);
    ReplacedStep(f, phis, w, b, k, s, s', t, t);
    SamePlainStep(f, phis, w, b, k, s, s', t, t);
    NamesNext(f, w, b, k);
    SlotsStored(NamesAt(f, w, b, k), s, t, i.p.slot, i.value, Rename(w.rm, i.value));
    SimFrom(f, phis, w, b, k + 1, s', t);
    FollowsSome(f, phis, w, b, k + 1, s', t);
  }

  lemma FollowsSome(f: Function, phis: PhiTable, w: Record, b: BlockId, k: nat, s: State, t: State)
    requires Visited(f, w, b) && k <= |f.blocks[b].body| && Sim(f, phis, w, b, k, s, t)
    ensures Follows(f, phis, w, b, k, Some(s), Some(t))
  {
  }

  lemma NoDst(i: Instr)
    requires IsSlotStore(i)
    ensures Defines(i) == None && forall rm, s, t :: PlainStep(Defines(i), rm, s, t)
  {
  }

  lemma StoreToSlot(world: Oracle, f: Function, w: Record, b: BlockId, k: nat, s: State, t: State)
    requires Visited(f, w, b) && k < |f.blocks[b].body| && IsSlotStore(f.blocks[b].body[k])
    ensures var i := f.blocks[b].body[k];
            && i.Store? && i.p.Local? && UsedAt(f, b, k, i.value)
            && ExecInstr(world, i, s) == Some(s.(slots := SetReg(s.slots, i.p.slot, Read(i.value, s.env))))
            && ExecBody(world, NewAt(f, w, b, k), t) == Some(t)
  {
    assert Operands(f.blocks[b].body[k])[0] == f.blocks[b].body[k].value;
  }

  lemma SameEnvs(f: Function, b: BlockId, k: nat, s: State, s': State, t: State)
    requires b in f.blocks && k < |f.blocks[b].body| && s'.env == s.env && s'.heap == s.heap && s'.trace == s.trace
    ensures OnlyDefined(f, b, k, s.env, s'.env) && OnlyDefined(f, b, k, t.env, t.env)
    ensures SameMemory(s, t) ==> SameMemory(s', t)
  {
  }

  lemma SlotsStored(n: Names, s: State, t: State, v: Slot, o: Operand, o': Operand)
    requires SameSlots(n, s, t) && Read(o, s.env) == Read(o', t.env)
    ensures SameSlots(n[v := o'], s.(slots := SetReg(s.slots, v, Read(o, s.env))), t)
  {
    hide Read;
  }

  lemma SameStore(world: Oracle, x: Operand, x': Operand, a: Operand, a': Operand, s: State, t: State)
    requires Read(x, s.env) == Read(x', t.env) && Read(a, s.env) == Read(a', t.env) && SameMemory(s, t)
    ensures var s', t' := ExecInstr(world, Store(x, Addr(a)), s), ExecInstr(world, Store(x', Addr(a')), t);
            && s'.Some? == t'.Some?
            && (s'.Some? ==>
                  && s'.value.env == s.env && t'.value.env == t.env
                  && s'.value.slots == s.slots && SameMemory(s'.value, t'.value))
  {
  }

  lemma StoreOperandsUsed(f: Function, b: BlockId, k: nat)
    requires b in f.blocks && k < |f.blocks[b].body| && f.blocks[b].body[k].Store? && f.blocks[b].body[k].p.Addr?
    ensures UsedAt(f, b, k, f.blocks[b].body[k].value) && UsedAt(f, b, k, f.blocks[b].body[k].p.a)
  {
    var i := f.blocks[b].body[k];
    assert Operands(i)[0] == i.value && Operands(i)[1] == i.p.a;
  }

  lemma StoreRenamed(f: Function, w: Record, b: BlockId, k: nat)
    requires Visited(f, w, b) && k < |f.blocks[b].body| && f.blocks[b].body[k].Store? && f.blocks[b].body[k].p.Addr?
    ensures var i := f.blocks[b].body[k];
            && Defines(i) == None && !IsSlotStore(i) && i == Store(i.value, Addr(i.p.a))
            && NewAt(f, w, b, k) == [Store(Rename(w.rm, i.value), Addr(Rename(w.rm, i.p.a)))]
    ensures forall env: Env :: OnlyDefined(f, b, k, env, env)
    ensures forall rm, s, t :: PlainStep(None, rm, s, t)
  {
  }

  lemma StoreSim(world: Oracle, f: Function, phis: PhiTable, w: Record, b: BlockId, k: nat, s: State, t: State)
    requires Promoted(f, phis, w) && Visited(f, w, b) && k < |f.blocks[b].body| && Sim(f, phis, w, b, k, s, t)
    requires f.blocks[b].body[k].Store? && f.blocks[b].body[k].p.Addr?
    ensures Follows(f, phis, w, b, k + 1, ExecInstr(world, f.blocks[b].body[k], s),
              ExecBody(world, NewAt(f, w, b, k), t))
  {
    hide *;
    VisitedIn(f, w, b);
    StoreRenamed(f, w, b, k);
    var i := f.blocks[b].body[k];
    StoreOperandsUsed(f, b, k);
    ReadSame(f, phis, w, b, k, i.value, s, t);
    ReadSame(f, phis, w, b, k, i.p.a, s, t);
    SimParts(f, phis, w, b, k, s, t);
    var i' := Store(Rename(w.rm, i.value), Addr(Rename(w.rm, i.p.a)));
    ExecOne(world, i', t);
    SameStore(world, i.value, i'.value, i.p.a, i'.p.a, s, t);
    var s', t' := ExecInstr(world, i, s), ExecInstr(world, i', t);
    if s'.Some? {
      StepNoStore(f, phis, w, b, k, s, s'.value, t, t'.value);
      FollowsSome(f, phis, w, b, k + 1, s'.value, t'.value);
    } else {
      FollowsNone(f, phis, w, b, k + 1);
    }
  }

  lemma FollowsNone(f: Function, phis: PhiTable, w: Record, b: BlockId, k: nat)
    requires Visited(f, w, b) && k <= |f.blocks[b].body|
    ensures Follows(f, phis, w, b, k, None, None)
  {
  }

  lemma AllocaSim(world: Oracle, f: Function, phis: PhiTable, w: Record, b: BlockId, k: nat, s: State, t: State)
    requires Promoted(f, phis, w) && Visited(f, w, b) && k < |f.blocks[b].body| && Sim(f, phis, w, b, k, s, t)
    requires f.blocks[b].body[k].Alloca?
    ensures Follows(f, phis, w, b, k + 1, ExecInstr(world, f.blocks[b].body[k], s),
              ExecBody(world, NewAt(f, w, b, k), t))
  {
    hide Promoted, SameReplaced, SamePlain, SameSlots;
    SimParts(f, phis, w, b, k, s, t);
    hide Sim;
    StepNoStore(f, phis, w, b, k, s, s, t, t);
  }

  lemma InstrSim(world: Oracle, f: Function, phis: PhiTable, w: Record, b: BlockId, k: nat, s: State, t: State)
    requires Promoted(f, phis, w) && Promotable(f) && Visited(f, w, b) && k < |f.blocks[b].body|
             && Sim(f, phis, w, b, k, s, t)
    ensures Follows(f, phis, w, b, k + 1, ExecInstr(world, f.blocks[b].body[k], s),
              ExecBody(world, NewAt(f, w, b, k), t))
  {
    hide Promoted, Promotable, Sim, Follows, ExecInstr, NewAt, ExecBody;
    match f.blocks[b].body[k]
    case Pure(_, _, _) => PureSim(world, f, phis, w, b, k, s, t);
    case Call(_, _, _, _) => CallSim(world, f, phis, w, b, k, s, t);
    case Load(_, Local(_)) => SlotLoadSim(world, f, phis, w, b, k, s, t);
    case Load(_, Addr(_)) => LoadSim(world, f, phis, w, b, k, s, t);
    case Store(_, Local(_)) => SlotStoreSim(world, f, phis, w, b, k, s, t);
    case Store(_, Addr(_)) => StoreSim(world, f, phis, w, b, k, s, t);
    case Alloca(_, _) => AllocaSim(world, f, phis, w, b, k, s, t);
  }

  // ----- The body of a block -----

  lemma {:induction false} ExecConcat(world: Oracle, xs: seq<Instr>, ys: seq<Instr>, s: State)
    ensures var m := ExecBody(world, xs, s);
            ExecBody(world, xs + ys, s) == if m.Some? then ExecBody(world, ys, m.value) else None
  {
    if xs == [] {
      assert xs + ys == ys;
    } else {
      assert (xs + ys)[0] == xs[0] && (xs + ys)[1..] == xs[1..] + ys;
      var s1 := ExecInstr(world, xs[0], s);
      if s1.Some? {
        ExecConcat(world, xs[1..], ys, s1.value);
      }
    }
  }

  lemma BodyNext(world: Oracle, f: Function, w: Record, b: BlockId, k: nat, s: State, t: State)
    requires Visited(f, w, b) && k < |f.blocks[b].body|
    ensures var body := f.blocks[b].body;
            var s1, t1 := ExecBody(world, body[..k], s), ExecBody(world, Renamed(body, k, w.ins[b], w.rm), t);
            && ExecBody(world, body[..k + 1], s) == (if s1.Some? then ExecInstr(world, body[k], s1.value) else None)
            && ExecBody(world, Renamed(body, k + 1, w.ins[b], w.rm), t) ==
               (if t1.Some? then ExecBody(world, NewAt(f, w, b, k), t1.value) else None)
  {
    var body := f.blocks[b].body;
    assert body[..k + 1] == body[..k] + [body[k]];
    assert Renamed(body, k + 1, w.ins[b], w.rm) == Renamed(body, k, w.ins[b], w.rm) + NewAt(f, w, b, k);
    hide ExecBody, Renamed, NewAt, ExecInstr;
    ExecConcat(world, body[..k], [body[k]], s);
    ExecConcat(world, Renamed(body, k, w.ins[b], w.rm), NewAt(f, w, b, k), t);
    var s1 := ExecBody(world, body[..k], s);
    if s1.Some? { ExecOne(world, body[k], s1.value); }
  }

  /** The states after the first `k` instructions. */
  ghost predicate BodyFollows(world: Oracle, f: Function, phis: PhiTable, w: Record, b: BlockId, k: nat, s: State,
                              t: State)
    requires Visited(f, w, b) && k <= |f.blocks[b].body|
  {
    Follows(f, phis, w, b, k, ExecBody(world, f.blocks[b].body[..k], s),
            ExecBody(world, Renamed(f.blocks[b].body, k, w.ins[b], w.rm), t))
  }

  lemma BodyStep(world: Oracle, f: Function, phis: PhiTable, w: Record, b: BlockId, k: nat, s: State, t: State)
    requires Promoted(f, phis, w) && Promotable(f) && Visited(f, w, b) && k < |f.blocks[b].body|
    requires BodyFollows(world, f, phis, w, b, k, s, t)
    ensures BodyFollows(world, f, phis, w, b, k + 1, s, t)
  {
    var body := f.blocks[b].body;
    hide Promoted, Promotable, Sim, ExecInstr, NewAt, ExecBody, Renamed;
    BodyNext(world, f, w, b, k, s, t);
    var s1 := ExecBody(world, body[..k], s);
    if s1.Some? {
      InstrSim(world, f, phis, w, b, k, s1.value, ExecBody(world, Renamed(body, k, w.ins[b], w.rm), t).value);
    }
  }

  lemma {:induction false} BodySim(world: Oracle, f: Function, phis: PhiTable, w: Record, b: BlockId, k: nat, s: State,
                                   t: State)
    requires Promoted(f, phis, w) && Promotable(f) && Visited(f, w, b) && k <= |f.blocks[b].body|
             && Sim(f, phis, w, b, 0, s, t)
    ensures BodyFollows(world, f, phis, w, b, k, s, t)
  {
    if k == 0 {
      hide Promoted, Promotable, Sim;
    } else {
      hide *;
      VisitedIn(f, w, b);
      BodySim(world, f, phis, w, b, k - 1, s, t);
      BodyStep(world, f, phis, w, b, k - 1, s, t);
    }
  }

  // ----- Entering a block -----

  lemma {:induction false} FindConcat(ps: seq<Phi>, qs: seq<Phi>, r: Reg)
    ensures FindPhi(ps + qs, r) == if FindPhi(ps, r).Some? then FindPhi(ps, r) else FindPhi(qs, r)
  {
    if ps == [] {
      assert ps + qs == qs;
    } else {
      assert (ps + qs)[0] == ps[0] && (ps + qs)[1..] == ps[1..] + qs;
      FindConcat(ps[1..], qs, r);
    }
  }

  /** An added phi is found by its register, and only so. */
  lemma FindAdded(phis: PhiTable, w: Record, b: BlockId, add: seq<Phi>, r: Reg)
    requires Distinct(phis) && ListsPhis(phis, w, b, add)
    ensures (forall v :: (b, v) in phis ==> phis[(b, v)] != r) ==> FindPhi(add, r) == None
    ensures forall v :: (b, v) in phis && phis[(b, v)] == r ==> FindPhi(add, r) == Some(Phi(r, PairsOf(w.pairs, r)))
  {
    FindPhiIn(add, r);
    hide FindPhi, PairsOf;
    forall v: Slot ensures (b, v) in phis ==> v in PhiSlots(phis, b) { assert (b, v).0 == b; }
    var found := FindPhi(add, r);
    if found.Some? {
      assert found.value in add;
    } else {
      assert forall p :: p in add ==> p.dst != r;
    }
  }

  /** An operand of an original phi is read alike on both sides. */
  lemma OldPhiSame(f: Function, phis: PhiTable, w: Record, b: BlockId, k: nat, from: BlockId, s: State, t: State)
    requires Promoted(f, phis, w) && Promotable(f) && b in f.blocks && k < |f.blocks[b].phis|
             && SamePlain(phis, w, s, t)
    ensures PhiValue(f.blocks[b].phis[k], from, s.env) == PhiValue(f.blocks[b].phis[k], from, t.env)
  {
    var p := f.blocks[b].phis[k];
    PhiChoiceIn(p.pairs, from);
    var o := PhiChoice(p.pairs, from);
    if o.Some? {
      var j :| 0 <= j < |p.pairs| && p.pairs[j].1 == from && p.pairs[j].0 == o.value;
      assert PhiOperands(p)[j] == o.value;
      assert IsRef(f, PhiRef(b, k)) && o.value in RefOperands(f, PhiRef(b, k));
      hide PhiChoice, Promotable, Promoted, SamePlain;
      PhiOperandPlain(f, phis, w, PhiRef(b, k), o.value);
      PlainRead(phis, w, o.value, s, t);
    }
  }

  lemma PlainRead(phis: PhiTable, w: Record, o: Operand, s: State, t: State)
    requires SamePlain(phis, w, s, t) && (o.Reg? ==> o.r !in w.rm && !IsNewPhi(phis, o.r))
    ensures Read(o, s.env) == Read(o, t.env)
  {
  }

  lemma PhiOperandPlain(f: Function, phis: PhiTable, w: Record, y: Ref, o: Operand)
    requires Promoted(f, phis, w) && Promotable(f) && IsRef(f, y) && y.PhiRef? && o in RefOperands(f, y)
    ensures o.Reg? ==> o.r !in w.rm && !IsNewPhi(phis, o.r)
  {
    PromotedParts(f, phis, w);
    hide Promoted, Promotable;
    if o.Reg? && o.r in w.rm {
      var c, j := KeyAt(f, w, o.r);
      NotReplaced(f, BodyRef(c, j), y, o.r);
    }
  }

  /** What defines `r` is not a phi of `b`, old or new. */
  ghost predicate NoPhiOf(f: Function, phis: PhiTable, b: BlockId, o: Operand)
    requires b in f.blocks
  {
    o.Reg? ==> FindPhi(f.blocks[b].phis, o.r) == None && forall v :: (b, v) in phis ==> phis[(b, v)] != o.r
  }

  lemma AboveNoPhi(f: Function, phis: PhiTable, w: Record, o: Operand, b: BlockId)
    requires b in f.blocks && Above(f, phis, w, o, b)
    ensures NoPhiOf(f, phis, b, o)
  {
    if o.Reg? {
      FindPhiIn(f.blocks[b].phis, o.r);
      if FindPhi(f.blocks[b].phis, o.r).Some? {
        var k :| 0 <= k < |f.blocks[b].phis| && f.blocks[b].phis[k].dst == o.r;
        assert DefinedAt(f, PhiRef(b, k), o.r);
      }
    }
  }

  lemma EnterUnaffected(f: Function, phis: PhiTable, w: Record, b: BlockId, add: seq<Phi>, from: BlockId, o: Operand,
                        env: Env)
    requires b in f.blocks && Distinct(phis) && ListsPhis(phis, w, b, add) && NoPhiOf(f, phis, b, o)
    ensures Read(o, EnterEnv(f.blocks[b].phis, from, env)) == Read(o, env)
    ensures Read(o, EnterEnv(f.blocks[b].phis + add, from, env)) == Read(o, env)
  {
    if o.Reg? {
      FindAdded(phis, w, b, add, o.r);
      FindConcat(f.blocks[b].phis, add, o.r);
      hide FindPhi, ListsPhis, Distinct, NoPhiOf, PhiValue;
      assert FindPhi(f.blocks[b].phis + add, o.r) == None;
    }
  }

  ghost function Entered(phis: seq<Phi>, from: BlockId, s: State): State {
    s.(env := EnterEnv(phis, from, s.env))
  }

  lemma EnterPlainAt(f: Function, phis: PhiTable, w: Record, b: BlockId, add: seq<Phi>, from: BlockId, s: State,
                     t: State, r: Reg)
    requires Promoted(f, phis, w) && Promotable(f) && b in f.blocks && ListsPhis(phis, w, b, add)
    requires SamePlain(phis, w, s, t) && r !in w.rm && !IsNewPhi(phis, r)
    ensures Entered(f.blocks[b].phis, from, s).env(r) == Entered(f.blocks[b].phis + add, from, t).env(r)
  {
    var ps := f.blocks[b].phis;
    PromotedParts(f, phis, w);
    assert forall v :: (b, v) in phis ==> phis[(b, v)] != r;
    assert s.env(r) == t.env(r);
    hide Promoted, Promotable, SamePlain, ListsPhis, Distinct, FindPhi, PhiValue, IsNewPhi;
    FindPhiIn(ps, r);
    FindAdded(phis, w, b, add, r);
    FindConcat(ps, add, r);
    if FindPhi(ps, r).Some? {
      var k :| 0 <= k < |ps| && ps[k] == FindPhi(ps, r).value;
      OldPhiSame(f, phis, w, b, k, from, s, t);
    }
  }

  lemma EnterPlain(f: Function, phis: PhiTable, w: Record, b: BlockId, add: seq<Phi>, from: BlockId, s: State, t: State)
    requires Promoted(f, phis, w) && Promotable(f) && b in f.blocks && ListsPhis(phis, w, b, add)
             && SamePlain(phis, w, s, t)
    ensures SamePlain(phis, w, Entered(f.blocks[b].phis, from, s), Entered(f.blocks[b].phis + add, from, t))
  {
    hide Promoted, Promotable, ListsPhis, Entered, IsNewPhi;
    forall r: Reg | r !in w.rm && !IsNewPhi(phis, r)
      ensures Entered(f.blocks[b].phis, from, s).env(r) == Entered(f.blocks[b].phis + add, from, t).env(r)
    {
      EnterPlainAt(f, phis, w, b, add, from, s, t, r);
    }
  }

  /** A definition outside a block that comes before its start comes before the end of any predecessor. */
  lemma BeforeEdge(f: Function, w: Record, x: Ref, from: BlockId, b: BlockId)
    requires Before(f, x, b, 0) && x.BodyRef? && IsRef(f, x) && IsEdge(f, from, b) && Reachable(f, from)
    ensures x.b != b && Before(f, x, from, |f.blocks[from].body|)
  {
    StrictDomOfPred(f, x.b, from, b);
  }

  lemma EnterReplacedAt(f: Function, phis: PhiTable, w: Record, b: BlockId, add: seq<Phi>, from: BlockId, s: State,
                        t: State,
                        r: Reg, x: Ref)
    requires Promoted(f, phis, w) && b in w.ins && Visited(f, w, b) && from in w.ins && Visited(f, w, from)
             && IsEdge(f, from, b)
    requires ListsPhis(phis, w, b, add)
    requires SameReplaced(f, w, from, |f.blocks[from].body|, s, t)
    requires r in w.rm && DefinedAt(f, x, r) && Before(f, x, b, 0)
    ensures Entered(f.blocks[b].phis, from, s).env(r) == Read(w.rm[r], Entered(f.blocks[b].phis + add, from, t).env)
  {
    assert IsRef(f, x);
    hide *;
    PromotedParts(f, phis, w);
    PromotedTree(f, phis, w, from);
    ReplacedIs(f, phis, w, r, x);
    assert x == BodyRef(x.b, x.k);
    BeforeEdge(f, w, x, from, b);
    VisitedIn(f, w, b);
    ReplacedAvail(f, phis, w, b, 0, x.b, x.k, r);
    AboveNoPhi(f, phis, w, w.rm[r], b);
    EnterUnaffected(f, phis, w, b, add, from, w.rm[r], t.env);
    DefinedNoPhi(f, phis, b, r, x);
    EnterUnaffected(f, phis, w, b, add, from, Reg(r), s.env);
    ReplacedNow(f, w, from, |f.blocks[from].body|, s, t, r, x);
    EnteredEnv(f.blocks[b].phis, from, s);
    EnteredEnv(f.blocks[b].phis + add, from, t);
    ReadReg(r, EnterEnv(f.blocks[b].phis, from, s.env));
    ReadReg(r, s.env);
  }

  lemma ReadReg(r: Reg, env: Env)
    ensures Read(Reg(r), env) == env(r)
  {
  }

  lemma EnteredEnv(phis: seq<Phi>, from: BlockId, s: State)
    ensures Entered(phis, from, s).env == EnterEnv(phis, from, s.env)
    ensures Entered(phis, from, s).slots == s.slots && Entered(phis, from, s).heap == s.heap
            && Entered(phis, from, s).trace == s.trace
  {
  }

  lemma DefinedNoPhi(f: Function, phis: PhiTable, b: BlockId, r: Reg, x: Ref)
    requires SSA(f) && Fresh(f, phis) && b in f.blocks && DefinedAt(f, x, r) && x.BodyRef?
    ensures NoPhiOf(f, phis, b, Reg(r))
  {
    FindPhiIn(f.blocks[b].phis, r);
    forall k | 0 <= k < |f.blocks[b].phis| ensures f.blocks[b].phis[k].dst != r {
      assert IsRef(f, PhiRef(b, k)) && PhiRef(b, k) != x;
      assert RefDefines(f, PhiRef(b, k)) == Some(f.blocks[b].phis[k].dst);
    }
  }

  lemma EnterReplaced(f: Function, phis: PhiTable, w: Record, b: BlockId, add: seq<Phi>, from: BlockId, s: State,
                      t: State)
    requires Promoted(f, phis, w) && b in w.ins && Visited(f, w, b) && from in w.ins && Visited(f, w, from)
             && IsEdge(f, from, b)
    requires ListsPhis(phis, w, b, add)
    requires SameReplaced(f, w, from, |f.blocks[from].body|, s, t)
    ensures SameReplaced(f, w, b, 0, Entered(f.blocks[b].phis, from, s), Entered(f.blocks[b].phis + add, from, t))
  {
    var s1, t1 := Entered(f.blocks[b].phis, from, s), Entered(f.blocks[b].phis + add, from, t);
    assert SameReplaced(f, w, b, 0, s1, t1) by {
      hide Promoted, ListsPhis, Entered, Before, DefinedAt, IsEdge, Read;
      forall r: Reg, x | r in w.rm && DefinedAt(f, x, r) && Before(f, x, b, 0)
        ensures s1.env(r) == Read(w.rm[r], t1.env) {
        EnterReplacedAt(f, phis, w, b, add, from, s, t, r, x);
      }
    }
  }

  lemma NewPhiFound(f: Function, phis: PhiTable, w: Record, b: BlockId, add: seq<Phi>, v: Slot)
    requires Fresh(f, phis) && b in f.blocks && ListsPhis(phis, w, b, add) && (b, v) in phis
    ensures FindPhi(f.blocks[b].phis + add, phis[(b, v)]) == Some(Phi(phis[(b, v)], PairsOf(w.pairs, phis[(b, v)])))
  {
    var r := phis[(b, v)];
    FindPhiIn(f.blocks[b].phis, r);
    forall k | 0 <= k < |f.blocks[b].phis| ensures f.blocks[b].phis[k].dst != r {
      assert IsRef(f, PhiRef(b, k)) && RefDefines(f, PhiRef(b, k)) == Some(f.blocks[b].phis[k].dst);
    }
    FindAdded(phis, w, b, add, r);
    FindConcat(f.blocks[b].phis, add, r);
  }

  lemma PairGiven(f: Function, phis: PhiTable, w: Record, k: (BlockId, Slot), q: BlockId)
    requires PairsOk(f, phis, w) && k in phis
    ensures PhiChoice(PairsOf(w.pairs, phis[k]), q) == Given(f, w, q, k)
  {
  }

  /** An inserted phi reads the name its slot had at the end of the predecessor. */
  lemma NewPhiValue(f: Function, phis: PhiTable, w: Record, b: BlockId, add: seq<Phi>, from: BlockId, v: Slot, env: Env)
    requires Promoted(f, phis, w) && Visited(f, w, b) && Visited(f, w, from) && IsEdge(f, from, b)
    requires ListsPhis(phis, w, b, add) && (b, v) in phis
    ensures Read(Reg(phis[(b, v)]), EnterEnv(f.blocks[b].phis + add, from, env)) == ReadName(Out(f, w, from), v, env)
  {
    var r := phis[(b, v)];
    PromotedParts(f, phis, w);
    hide Promoted, PairsOk, ListsPhis, Distinct, Fresh, SSA, WalkOk, TreeOk, InsOk, BodiesOk, KeysOk, EntryOnly,
        FindPhi, PairsOf, PhiChoice, Out;
    NewPhiFound(f, phis, w, b, add, v);
    PairGiven(f, phis, w, (b, v), from);
  }

  lemma EnterSlotAt(f: Function, phis: PhiTable, w: Record, b: BlockId, add: seq<Phi>, from: BlockId, v: Slot, env: Env)
    requires Promoted(f, phis, w) && b in w.ins && Visited(f, w, b) && from in w.ins && Visited(f, w, from)
             && IsEdge(f, from, b)
    requires ListsPhis(phis, w, b, add)
    ensures ReadName(w.ins[b], v, EnterEnv(f.blocks[b].phis + add, from, env)) == ReadName(Out(f, w, from), v, env)
  {
    hide *;
    VisitedIn(f, w, b);
    if (b, v) in phis {
      PromotedTree(f, phis, w, b);
      PhiLook(phis, b, EntryNames(f, w, b, w.tree[b]), v);
      NewPhiValue(f, phis, w, b, add, from, v, env);
      LookRead(w.ins[b], v, EnterEnv(f.blocks[b].phis + add, from, env));
    } else {
      SameNameOnEveryEdge(f, phis, w, from, b, v);
      LookRead(w.ins[b], v, EnterEnv(f.blocks[b].phis + add, from, env));
      LookRead(Out(f, w, from), v, env);
      if v in w.ins[b] {
        EnteredAbove(f, phis, w, b, v);
        VisitedIn(f, w, b);
        AboveNoPhi(f, phis, w, w.ins[b][v], b);
        PromotedParts(f, phis, w);
        EnterUnaffected(f, phis, w, b, add, from, w.ins[b][v], env);
      }
    }
  }

  lemma LookRead(n: Names, v: Slot, env: Env)
    ensures ReadName(n, v, env) == if Look(n, v).Some? then Read(Look(n, v).value, env) else None
    ensures Look(n, v).Some? <==> v in n
    ensures v in n ==> Look(n, v).value == n[v]
  {
  }

  lemma NamesEnds(f: Function, w: Record, b: BlockId)
    requires Visited(f, w, b)
    ensures NamesAt(f, w, b, 0) == w.ins[b] && NamesAt(f, w, b, |f.blocks[b].body|) == Out(f, w, b)
  {
  }

  lemma EnterSlots(f: Function, phis: PhiTable, w: Record, b: BlockId, add: seq<Phi>, from: BlockId, s: State, t: State)
    requires Promoted(f, phis, w) && b in w.ins && Visited(f, w, b) && from in w.ins && Visited(f, w, from)
             && IsEdge(f, from, b)
    requires ListsPhis(phis, w, b, add)
    requires SameSlots(Out(f, w, from), s, t)
    ensures SameSlots(w.ins[b], Entered(f.blocks[b].phis, from, s), Entered(f.blocks[b].phis + add, from, t))
  {
    hide Promoted, ListsPhis, EnterEnv, Out, IsEdge, ReadName;
    forall v: Slot ensures s.slots(v) == ReadName(w.ins[b], v, EnterEnv(f.blocks[b].phis + add, from, t.env)) {
      EnterSlotAt(f, phis, w, b, add, from, v, t.env);
    }
  }

  lemma EnterSim(f: Function, phis: PhiTable, w: Record, b: BlockId, add: seq<Phi>, from: BlockId, s: State, t: State)
    requires Promoted(f, phis, w) && Promotable(f) && Visited(f, w, b) && Visited(f, w, from) && IsEdge(f, from, b)
    requires ListsPhis(phis, w, b, add) && Sim(f, phis, w, from, |f.blocks[from].body|, s, t)
    ensures Sim(f, phis, w, b, 0, Entered(f.blocks[b].phis, from, s), Entered(f.blocks[b].phis + add, from, t))
  {
    hide *;
    VisitedIn(f, w, b);
    VisitedIn(f, w, from);
    SimParts(f, phis, w, from, |f.blocks[from].body|, s, t);
    NamesEnds(f, w, b);
    NamesEnds(f, w, from);
    EnterPlain(f, phis, w, b, add, from, s, t);
    EnterReplaced(f, phis, w, b, add, from, s, t);
    EnterSlots(f, phis, w, b, add, from, s, t);
    EnterMemory(f.blocks[b].phis, f.blocks[b].phis + add, from, s, t);
    SimFrom(f, phis, w, b, 0, Entered(f.blocks[b].phis, from, s), Entered(f.blocks[b].phis + add, from, t));
  }

  lemma EnterMemory(ps: seq<Phi>, qs: seq<Phi>, from: BlockId, s: State, t: State)
    requires SameMemory(s, t)
    ensures SameMemory(Entered(ps, from, s), Entered(qs, from, t))
  {
  }
}
