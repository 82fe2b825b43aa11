/** The renaming walk of slot promotion (`rename_helper`). */
module Mem2RegRename {
  import opened IR
  import opened Dominance
  import opened Mem2Reg

  // ----- What renaming does to one block -----

  /** The current definition of every slot that has one. */
  type Names = map<Slot, Operand>

  /** What every removed load stands for. */
  type Replace = map<Reg, Operand>

  function Rename(rm: Replace, o: Operand): Operand {
    if o.Reg? && o.r in rm then rm[o.r] else o
  }

  function RenameAll(rm: Replace, os: seq<Operand>): seq<Operand> {
    seq(|os|, k requires 0 <= k < |os| => Rename(rm, os[k]))
  }

  function RenameTerm(rm: Replace, t: Term): Term {
    match t
    case Br(_) => t
    case CondBr(c, x, y) => CondBr(Rename(rm, c), x, y)
    case Ret(None) => t
    case Ret(Some(o)) => Ret(Some(Rename(rm, o)))
  }

  /** What becomes of an instruction: allocas of scalars, stores to slots and loads of named slots go away; a
      load from memory or of an unnamed slot is left alone; everything else has its operands renamed. */
  function NewInstr(i: Instr, cur: Names, rm: Replace): seq<Instr> {
    match i
    case Alloca(_, scalar) => if scalar then [] else [i]
    case Store(_, Local(_)) => []
    case Store(x, Addr(a)) => [Store(Rename(rm, x), Addr(Rename(rm, a)))]
    case Load(_, Local(v)) => if v in cur then [] else [i]
    case Load(_, Addr(_)) => [i]
    case Pure(d, op, args) => [Pure(d, op, RenameAll(rm, args))]
    case Call(d, c, args, e) => [Call(d, c, RenameAll(rm, args), e)]
  }

  predicate IsSlotStore(i: Instr) {
    i.Store? && i.p.Local?
  }

  predicate IsSlotLoad(i: Instr) {
    i.Load? && i.p.Local?
  }

  function NamesStep(i: Instr, cur: Names, rm: Replace): Names {
    if IsSlotStore(i) then cur[i.p.slot := Rename(rm, i.value)] else cur
  }

  /** The names after the first `k` instructions. */
  function NamesAfter(body: seq<Instr>, k: nat, cur: Names, rm: Replace): Names
    requires k <= |body|
  {
    if k == 0 then cur else NamesStep(body[k - 1], NamesAfter(body, k - 1, cur, rm), rm)
  }

  /** What becomes of the first `k` instructions. */
  function Renamed(body: seq<Instr>, k: nat, cur: Names, rm: Replace): seq<Instr>
    requires k <= |body|
  {
    if k == 0 then [] else Renamed(body, k - 1, cur, rm) + NewInstr(body[k - 1], NamesAfter(body, k - 1, cur, rm), rm)
  }

  /** Every load of a slot stands for the name the slot has there; a load of an unnamed slot stays. */
  ghost predicate LoadsRecorded(body: seq<Instr>, k: nat, cur: Names, rm: Replace)
    requires k <= |body|
  {
    forall j :: 0 <= j < k && IsSlotLoad(body[j]) ==>
      var n := NamesAfter(body, j, cur, rm);
      if body[j].p.slot in n then body[j].dst in rm && rm[body[j].dst] == n[body[j].p.slot]
      else body[j].dst !in rm
  }

  // ----- More replacements do not change what was renamed before -----

  ghost predicate Unused(body: seq<Instr>, k: nat, r: Reg)
    requires k <= |body|
  {
    forall j :: 0 <= j < k ==> Reg(r) !in Operands(body[j]) && Defines(body[j]) != Some(r)
  }

  ghost predicate Grows(rm: Replace, rm': Replace) {
    forall r :: r in rm ==> r in rm' && rm'[r] == rm[r]
  }

  lemma NewInstrGrows(i: Instr, cur: Names, rm: Replace, rm': Replace)
    requires Grows(rm, rm') && forall r :: r in rm' && r !in rm ==> Reg(r) !in Operands(i)
    ensures NewInstr(i, cur, rm') == NewInstr(i, cur, rm) && NamesStep(i, cur, rm') == NamesStep(i, cur, rm)
  {
    var os := Operands(i);
    forall k | 0 <= k < |os| ensures Rename(rm', os[k]) == Rename(rm, os[k]) {
      assert os[k] in os;
    }
    if i.Pure? || i.Call? {
      assert RenameAll(rm', i.args) == RenameAll(rm, i.args);
    } else if i.Store? {
      assert os[0] == i.value;
      assert i.p.Addr? ==> os[1] == i.p.a;
    }
  }

  lemma {:induction false} RenamedGrows(body: seq<Instr>, k: nat, cur: Names, rm: Replace, rm': Replace)
    requires k <= |body| && Grows(rm, rm')
    requires forall r :: r in rm' && r !in rm ==> Unused(body, k, r)
    ensures NamesAfter(body, k, cur, rm') == NamesAfter(body, k, cur, rm)
    ensures Renamed(body, k, cur, rm') == Renamed(body, k, cur, rm)
  {
    if k > 0 {
      forall r | r in rm' && r !in rm ensures Unused(body, k - 1, r) && Reg(r) !in Operands(body[k - 1]) {
        assert Unused(body, k, r);
      }
      RenamedGrows(body, k - 1, cur, rm, rm');
      NewInstrGrows(body[k - 1], NamesAfter(body, k - 1, cur, rm), rm, rm');
    }
  }

  lemma LoadsGrow(body: seq<Instr>, k: nat, cur: Names, rm: Replace, rm': Replace)
    requires k <= |body| && Grows(rm, rm') && LoadsRecorded(body, k, cur, rm)
    requires forall r :: r in rm' && r !in rm ==> Unused(body, k, r)
    ensures LoadsRecorded(body, k, cur, rm')
  {
    forall j | 0 <= j < k && IsSlotLoad(body[j])
      ensures var n := NamesAfter(body, j, cur, rm');
              if body[j].p.slot in n then body[j].dst in rm' && rm'[body[j].dst] == n[body[j].p.slot]
                  else body[j].dst !in rm'
    {
      forall r | r in rm' && r !in rm ensures Unused(body, j, r) && r != body[j].dst {
        assert Unused(body, k, r);
      }
      RenamedGrows(body, j, cur, rm, rm');
    }
  }

  // ----- Stacks of names -----

  type Stacks = map<Slot, seq<Operand>>

  function StackOf(ns: Stacks, v: Slot): seq<Operand> {
    if v in ns then ns[v] else []
  }

  function Tops(ns: Stacks): Names {
    map v | v in ns && ns[v] != [] :: ns[v][|ns[v]| - 1]
  }

  function Push(ns: Stacks, v: Slot, o: Operand): Stacks {
    ns[v := StackOf(ns, v) + [o]]
  }

  lemma PushTops(ns: Stacks, v: Slot, o: Operand)
    ensures Tops(Push(ns, v, o)) == Tops(ns)[v := o]
  {
  }

  type Counts = map<Slot, nat>

  function CountOf(cs: Counts, v: Slot): nat {
    if v in cs then cs[v] else 0
  }

  /** `ns'` is `ns` with `cs[v]` names pushed for every slot. */
  ghost predicate Pushed(ns: Stacks, ns': Stacks, cs: Counts) {
    forall v: Slot :: StackOf(ns, v) <= StackOf(ns', v) && |StackOf(ns', v)| == |StackOf(ns, v)| + CountOf(cs, v)
  }

  ghost predicate SameStacks(ns: Stacks, ns': Stacks) {
    forall v: Slot :: StackOf(ns, v) == StackOf(ns', v)
  }

  lemma SameTops(ns: Stacks, ns': Stacks)
    requires SameStacks(ns, ns')
    ensures Tops(ns) == Tops(ns')
  {
    forall v: Slot ensures v in Tops(ns) <==> v in Tops(ns') {
      assert StackOf(ns, v) == StackOf(ns', v);
    }
    forall v | v in Tops(ns) ensures Tops(ns)[v] == Tops(ns')[v] {
      assert StackOf(ns, v) == StackOf(ns', v);
    }
  }

  lemma PushedMore(ns: Stacks, ns': Stacks, cs: Counts, v: Slot, o: Operand)
    requires Pushed(ns, ns', cs)
    ensures Pushed(ns, Push(ns', v, o), cs[v := CountOf(cs, v) + 1])
  {
  }

  /** Popping what was pushed: the loop at the end of a visit. */
  method PopAll(ns0: Stacks, cs: Counts, ghost before: Stacks) returns (ns: Stacks)
    requires Pushed(before, ns0, cs)
    ensures SameStacks(ns, before)
  {
    ns := ns0;
    var todo := cs.Keys;
    while todo != {}
      invariant todo <= cs.Keys
      invariant forall v: Slot :: StackOf(ns, v) == if v in cs && v !in todo then StackOf(before, v)
                else StackOf(ns0, v)
    {
      var v :| v in todo;
      todo := todo - {v};
      for k := 0 to cs[v]
        invariant StackOf(ns, v) == StackOf(ns0, v)[..|StackOf(ns0, v)| - k]
        invariant forall u: Slot :: u != v ==>
                    StackOf(ns, u) == if u in cs && u !in todo then StackOf(before, u) else StackOf(ns0, u)
      {
        var focus := StackOf(ns, v);
        ns := ns[v := focus[..|focus| - 1]];
      }
    }
  }

  // ----- Static single assignment form -----

  /** The definition at `x` comes before position `k` of block `b` on every path. */
  ghost predicate Before(f: Function, x: Ref, b: BlockId, k: nat) {
    if x.b == b then x.PhiRef? || (x.BodyRef? && x.k < k) else Dom(f, x.b, b)
  }

  /** Every register has one definition, and it comes before every use by an instruction or terminator. */
  ghost predicate SSA(f: Function) {
    && SingleAssignment(f)
    && (forall b, k, r: Reg, x ::
          b in f.blocks && 0 <= k < |f.blocks[b].body| && Reg(r) in Operands(f.blocks[b].body[k])
              && DefinedAt(f, x, r) ==>
            Before(f, x, b, k))
    && (forall b, r: Reg, x ::
          b in f.blocks && Reg(r) in TermOperands(f.blocks[b].term) && DefinedAt(f, x, r) ==>
            Before(f, x, b, |f.blocks[b].body|))
  }

  predicate DefinedAt(f: Function, x: Ref, r: Reg) {
    IsRef(f, x) && RefDefines(f, x) == Some(r)
  }

  lemma NotUsedBefore(f: Function, b: BlockId, k: nat)
    requires SSA(f) && b in f.blocks && k < |f.blocks[b].body| && Defines(f.blocks[b].body[k]).Some?
    ensures Unused(f.blocks[b].body, k, Defines(f.blocks[b].body[k]).value)
  {
    var body := f.blocks[b].body;
    var r := Defines(body[k]).value;
    var x := BodyRef(b, k);
    assert DefinedAt(f, x, r);
    forall j | 0 <= j < k ensures Reg(r) !in Operands(body[j]) && Defines(body[j]) != Some(r) {
      var y := BodyRef(b, j);
      assert IsRef(f, y) && RefDefines(f, y) == Defines(body[j]);
      assert Reg(r) in Operands(body[j]) ==> Before(f, x, b, j);
    }
  }

  // ----- Visiting one block -----

  /** The names on entry to `b`: an inserted phi names its slot, other slots keep their names. */
  function InNames(phis: PhiTable, b: BlockId, cur: Names): Names {
    map v | v in cur.Keys + PhiSlots(phis, b) :: if (b, v) in phis then Reg(phis[(b, v)]) else cur[v]
  }

  function PhiSlots(phis: PhiTable, b: BlockId): set<Slot> {
    set k | k in phis.Keys && k.0 == b :: k.1
  }

  function SomeIn(phis: PhiTable, b: BlockId, cur: Names, done: set<Slot>): Names
    requires forall v :: v in done ==> (b, v) in phis
  {
    map v | v in cur.Keys + done :: if v in done then Reg(phis[(b, v)]) else cur[v]
  }

  lemma SomeInStep(phis: PhiTable, b: BlockId, cur: Names, done: set<Slot>, v: Slot)
    requires (forall u :: u in done ==> (b, u) in phis) && (b, v) in phis
    ensures SomeIn(phis, b, cur, done + {v}) == SomeIn(phis, b, cur, done)[v := Reg(phis[(b, v)])]
  {
  }

  lemma AllIn(phis: PhiTable, b: BlockId, cur: Names)
    ensures forall v :: v in PhiSlots(phis, b) ==> (b, v) in phis
    ensures SomeIn(phis, b, cur, PhiSlots(phis, b)) == InNames(phis, b, cur)
  {
    forall v | (b, v) in phis ensures v in PhiSlots(phis, b) {
      assert (b, v).0 == b;
    }
  }

  /** The phis of a block come first: each names its slot. */
  method PushPhis(phis: PhiTable, b: BlockId, ns0: Stacks) returns (ns: Stacks, cs: Counts)
    ensures Tops(ns) == InNames(phis, b, Tops(ns0)) && Pushed(ns0, ns, cs)
  {
    ns, cs := ns0, map[];
    ghost var cur, done: set<Slot> := Tops(ns0), {};
    AllIn(phis, b, cur);
    var todo := PhiSlots(phis, b);
    assert SomeIn(phis, b, cur, {}) == cur;
    while todo != {}
      invariant todo <= PhiSlots(phis, b) && done == PhiSlots(phis, b) - todo
      invariant forall v :: v in done ==> (b, v) in phis
      invariant Tops(ns) == SomeIn(phis, b, cur, done) && Pushed(ns0, ns, cs)
    {
      hide Tops, Pushed, SomeIn, InNames, PhiSlots;
      var v :| v in todo;
      SomeInStep(phis, b, cur, done, v);
      PushTops(ns, v, Reg(phis[(b, v)]));
      PushedMore(ns0, ns, cs, v, Reg(phis[(b, v)]));
      ns := Push(ns, v, Reg(phis[(b, v)]));
      cs := cs[v := CountOf(cs, v) + 1];
      todo, done := todo - {v}, done + {v};
    }
    assert done == PhiSlots(phis, b);
  }

  /** `r` is the result of a slot load among the first `k` instructions. */
  ghost predicate LoadedIn(body: seq<Instr>, k: nat, r: Reg)
    requires k <= |body|
  {
    exists j :: 0 <= j < k && IsSlotLoad(body[j]) && body[j].dst == r
  }

  /** The replacements grew only by loads among the first `k` instructions. */
  ghost predicate GrownBy(rm0: Replace, rm: Replace, body: seq<Instr>, k: nat)
    requires k <= |body|
  {
    Grows(rm0, rm) && forall r :: r in rm && r !in rm0 ==> LoadedIn(body, k, r)
  }

  /** What holds after the first `k` instructions of a visit. */
  ghost predicate Visiting(body: seq<Instr>, k: nat, cur: Names, rm0: Replace, rm: Replace, ns: Stacks, out: seq<Instr>)
    requires k <= |body|
  {
    && Tops(ns) == NamesAfter(body, k, cur, rm)
    && out == Renamed(body, k, cur, rm)
    && LoadsRecorded(body, k, cur, rm)
    && GrownBy(rm0, rm, body, k)
  }

  lemma NotLoadedYet(f: Function, b: BlockId, k: nat, rm0: Replace, rm: Replace)
    requires SSA(f) && b in f.blocks && k < |f.blocks[b].body| && Defines(f.blocks[b].body[k]).Some?
    requires GrownBy(rm0, rm, f.blocks[b].body, k) && Defines(f.blocks[b].body[k]).value !in rm0
    ensures Defines(f.blocks[b].body[k]).value !in rm
  {
    NotUsedBefore(f, b, k);
  }

  lemma LoadsNext(body: seq<Instr>, k: nat, cur: Names, rm: Replace)
    requires k < |body| && LoadsRecorded(body, k, cur, rm)
    requires IsSlotLoad(body[k]) ==>
               var n := NamesAfter(body, k, cur, rm);
               if body[k].p.slot in n then body[k].dst in rm && rm[body[k].dst] == n[body[k].p.slot]
                   else body[k].dst !in rm
    ensures LoadsRecorded(body, k + 1, cur, rm)
  {
  }

  lemma GrownNext(rm0: Replace, rm: Replace, rm': Replace, body: seq<Instr>, k: nat)
    requires k < |body| && GrownBy(rm0, rm, body, k)
    requires rm' == rm || (IsSlotLoad(body[k]) && body[k].dst !in rm && Grows(rm, rm')
               && rm'.Keys == rm.Keys + {body[k].dst})
    ensures GrownBy(rm0, rm', body, k + 1)
  {
    forall r | r in rm' && r !in rm0 ensures LoadedIn(body, k + 1, r) {
      if r in rm {
        assert LoadedIn(body, k, r);
      }
    }
  }

  lemma RenamedNext(body: seq<Instr>, k: nat, cur: Names, rm: Replace)
    requires k < |body|
    ensures Renamed(body, k + 1, cur, rm) == Renamed(body, k, cur, rm)
            + NewInstr(body[k], NamesAfter(body, k, cur, rm), rm)
    ensures NamesAfter(body, k + 1, cur, rm) == NamesStep(body[k], NamesAfter(body, k, cur, rm), rm)
  {
  }

  /** A store to a slot: the stored operand becomes the slot's name. */
  lemma VisitStore(body: seq<Instr>, k: nat, cur: Names, rm0: Replace, rm: Replace, ns: Stacks, out: seq<Instr>)
    requires k < |body| && Visiting(body, k, cur, rm0, rm, ns, out) && IsSlotStore(body[k])
    ensures Visiting(body, k + 1, cur, rm0, rm, Push(ns, body[k].p.slot, Rename(rm, body[k].value)), out)
  {
    PushTops(ns, body[k].p.slot, Rename(rm, body[k].value));
    LoadsNext(body, k, cur, rm);
    GrownNext(rm0, rm, rm, body, k);
    RenamedNext(body, k, cur, rm);
    hide Tops, Push, NamesAfter, Renamed, LoadsRecorded, GrownBy;
  }

  /** A load of a named slot: the load stands for the name. */
  lemma VisitLoad(f: Function, b: BlockId, k: nat, cur: Names, rm0: Replace, rm: Replace, ns: Stacks, out: seq<Instr>)
    requires SSA(f) && b in f.blocks
    requires k < |f.blocks[b].body| && Visiting(f.blocks[b].body, k, cur, rm0, rm, ns, out)
    requires var i := f.blocks[b].body[k]; IsSlotLoad(i) && i.dst !in rm0 && i.p.slot in Tops(ns)
    ensures var i := f.blocks[b].body[k];
            Visiting(f.blocks[b].body, k + 1, cur, rm0, rm[i.dst := Tops(ns)[i.p.slot]], ns, out)
  {
    var body := f.blocks[b].body;
    var i := body[k];
    var rm' := rm[i.dst := Tops(ns)[i.p.slot]];
    NotLoadedYet(f, b, k, rm0, rm);
    NotUsedBefore(f, b, k);
    hide Tops, SSA, LoadsRecorded, GrownBy, NamesAfter, Renamed, Unused;
    RenamedGrows(body, k, cur, rm, rm');
    LoadsGrow(body, k, cur, rm, rm');
    LoadsNext(body, k, cur, rm');
    GrownNext(rm0, rm, rm', body, k);
    RenamedNext(body, k, cur, rm');
  }

  /** Everything else: the instruction is kept with renamed operands, or dropped. */
  lemma VisitOther(f: Function, b: BlockId, k: nat, cur: Names, rm0: Replace, rm: Replace, ns: Stacks, out: seq<Instr>)
    requires SSA(f) && b in f.blocks
    requires k < |f.blocks[b].body| && Visiting(f.blocks[b].body, k, cur, rm0, rm, ns, out)
    requires var i := f.blocks[b].body[k];
             && (Defines(i).Some? ==> Defines(i).value !in rm0)
             && !IsSlotStore(i) && (IsSlotLoad(i) ==> i.p.slot !in Tops(ns))
    ensures Visiting(f.blocks[b].body, k + 1, cur, rm0, rm, ns, out + NewInstr(f.blocks[b].body[k], Tops(ns), rm))
  {
    var body := f.blocks[b].body;
    if IsSlotLoad(body[k]) {
      NotLoadedYet(f, b, k, rm0, rm);
    }
    hide Tops, SSA, LoadsRecorded, GrownBy, NamesAfter, Renamed, NewInstr;
    LoadsNext(body, k, cur, rm);
    GrownNext(rm0, rm, rm, body, k);
    RenamedNext(body, k, cur, rm);
  }

  ghost predicate NoneDefinedIn(rm: Replace, body: seq<Instr>) {
    forall k :: 0 <= k < |body| && Defines(body[k]).Some? ==> Defines(body[k]).value !in rm
  }

  /** The instructions of a block, in order. */
  method RenameBody(f: Function, b: BlockId, ns0: Stacks, cs0: Counts, rm0: Replace, ghost before: Stacks)
    returns (ns: Stacks, cs: Counts, rm: Replace, out: seq<Instr>)
    requires SSA(f) && b in f.blocks && Pushed(before, ns0, cs0)
    requires NoneDefinedIn(rm0, f.blocks[b].body)
    ensures Visiting(f.blocks[b].body, |f.blocks[b].body|, Tops(ns0), rm0, rm, ns, out) && Pushed(before, ns, cs)
  {
    var body := f.blocks[b].body;
    ghost var cur := Tops(ns0);
    ns, cs, rm, out := ns0, cs0, rm0, [];
    for k := 0 to |body|
      invariant Visiting(body, k, cur, rm0, rm, ns, out) && Pushed(before, ns, cs)
    {
      var i := body[k];
      hide Visiting, Pushed, SSA;
      if i.Store? && i.p.Local? {
        var op := Rename(rm, i.value);
        VisitStore(body, k, cur, rm0, rm, ns, out);
        PushedMore(before, ns, cs, i.p.slot, op);
        ns := Push(ns, i.p.slot, op);
        cs := cs[i.p.slot := CountOf(cs, i.p.slot) + 1];
      } else if i.Load? && i.p.Local? && i.p.slot in Tops(ns) {
        VisitLoad(f, b, k, cur, rm0, rm, ns, out);
        rm := rm[i.dst := Tops(ns)[i.p.slot]];
      } else {
        VisitOther(f, b, k, cur, rm0, rm, ns, out);
        out := out + NewInstr(i, Tops(ns), rm);
      }
    }
  }

  // ----- Operands of the inserted phis -----

  type Pairs = map<Reg, seq<(Operand, BlockId)>>

  function PairsOf(pm: Pairs, x: Reg): seq<(Operand, BlockId)> {
    if x in pm then pm[x] else []
  }

  ghost predicate Distinct(phis: PhiTable) {
    forall k, l :: k in phis && l in phis && phis[k] == phis[l] ==> k == l
  }

  /** `b` has given its names to the phis in `done`. */
  ghost predicate Filled(phis: PhiTable, names: Names, b: BlockId, pm0: Pairs, pm: Pairs, done: set<(BlockId, Slot)>) {
    forall k :: k in phis ==>
      PairsOf(pm, phis[k]) == PairsOf(pm0, phis[k]) + (if k in done && k.1 in names then [(names[k.1], b)] else [])
  }

  lemma FillOne(phis: PhiTable, names: Names, b: BlockId, pm0: Pairs, pm: Pairs, done: set<(BlockId, Slot)>,
                k: (BlockId, Slot))
    requires Distinct(phis) && Filled(phis, names, b, pm0, pm, done) && k in phis && k !in done
    ensures var pm' := if k.1 in names then pm[phis[k] := PairsOf(pm, phis[k]) + [(names[k.1], b)]] else pm;
            Filled(phis, names, b, pm0, pm', done + {k})
  {
    var x := phis[k];
    assert PairsOf(pm0, x) + [] == PairsOf(pm0, x);
  }

  /** The phis of one successor. */
  method FillSuccessor(phis: PhiTable, names: Names, b: BlockId, succ: BlockId, ghost pm0: Pairs, pm1: Pairs,
                       ghost done0: set<(BlockId, Slot)>)
    returns (pm: Pairs, ghost done: set<(BlockId, Slot)>)
    requires Distinct(phis) && Filled(phis, names, b, pm0, pm1, done0) && forall k :: k in done0 ==> k.0 != succ
    ensures Filled(phis, names, b, pm0, pm, done)
    ensures done == done0 + set k | k in phis.Keys && k.0 == succ
  {
    pm, done := pm1, done0;
    var all := set k | k in phis.Keys && k.0 == succ;
    var todo := all;
    while todo != {}
      invariant todo <= all && done == done0 + (all - todo)
      invariant Filled(phis, names, b, pm0, pm, done)
    {
      var k :| k in todo;
      FillOne(phis, names, b, pm0, pm, done, k);
      hide Filled;
      if k.1 in names {
        pm := pm[phis[k] := PairsOf(pm, phis[k]) + [(names[k.1], b)]];
      }
      todo, done := todo - {k}, done + {k};
    }
  }

  /** The loop over the successors at the end of a visit. */
  method FillSuccessors(f: Function, phis: PhiTable, names: Names, b: BlockId, pm0: Pairs) returns (pm: Pairs)
    requires Distinct(phis) && b in f.blocks
    ensures forall k :: k in phis ==>
              PairsOf(pm, phis[k]) == PairsOf(pm0, phis[k]) + (if IsEdge(f, b, k.0) && k.1 in names
                  then [(names[k.1], b)] else [])
  {
    pm := pm0;
    var succs := Successors(f.blocks[b].term);
    ghost var done: set<(BlockId, Slot)> := {};
    assert forall k :: k in phis ==> PairsOf(pm0, phis[k]) + [] == PairsOf(pm0, phis[k]);
    for s := 0 to |succs|
      invariant Filled(phis, names, b, pm0, pm, done)
      invariant forall k :: k in done <==> k in phis && k.0 in succs[..s]
    {
      assert succs[..s + 1] == succs[..s] + [succs[s]];
      assert succs[s] !in succs[..s];
      pm, done := FillSuccessor(phis, names, b, succs[s], pm0, pm, done);
    }
    assert succs[..|succs|] == succs;
  }
}
