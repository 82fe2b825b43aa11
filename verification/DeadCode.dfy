/** Removing instructions nobody needs: mark from the critical instructions backwards over
    operands, then sweep what is not marked (`DeadCode::mark`, `sweep`, `is_critical`). */
module DeadCode {
  import opened IR
  import opened Sequences

  // ----- Names and dependencies -----

  /** What an operand can refer to: the instruction computing a register, or the alloca of a slot. */
  datatype Name = RegName(r: Reg) | SlotName(slot: Slot)

  function OperandNames(os: seq<Operand>): set<Name> {
    set o | o in os && o.Reg? :: RegName(o.r)
  }

  function PtrNames(p: Ptr): set<Name> {
    if p.Local? then {SlotName(p.slot)} else {}
  }

  function SlotNames(i: Instr): set<Name> {
    match i
    case Load(_, p) => PtrNames(p)
    case Store(_, p) => PtrNames(p)
    case _ => {}
  }

  /** The operands of an instruction, allocas included. */
  function Needs(f: Function, x: Ref): set<Name>
    requires IsRef(f, x)
  {
    OperandNames(RefOperands(f, x)) + if x.BodyRef? then SlotNames(f.blocks[x.b].body[x.k]) else {}
  }

  function Provides(f: Function, x: Ref): Option<Name>
    requires IsRef(f, x)
  {
    if x.BodyRef? && f.blocks[x.b].body[x.k].Alloca? then Some(SlotName(f.blocks[x.b].body[x.k].slot))
    else if RefDefines(f, x).Some? then Some(RegName(RefDefines(f, x).value))
    else None
  }

  /** `y` is the instruction an operand of `x` refers to. */
  predicate DependsOn(f: Function, x: Ref, y: Ref) {
    IsRef(f, x) && IsRef(f, y) && Provides(f, y).Some? && Provides(f, y).value in Needs(f, x)
  }

  /** Stores, calls with effects and terminators. */
  predicate IsCritical(f: Function, x: Ref)
    requires IsRef(f, x)
  {
    match x
    case PhiRef(_, _) => false
    case BodyRef(b, k) =>
      var i := f.blocks[b].body[k];
      i.Store? || (i.Call? && i.effects)
    case TermRef(_) => true
  }

  /** `s` holds the critical instructions and is closed under operands. */
  ghost predicate Sufficient(f: Function, s: set<Ref>) {
    && (forall x :: IsRef(f, x) && IsCritical(f, x) ==> x in s)
    && (forall x, y :: x in s && DependsOn(f, x, y) ==> y in s)
  }

  /** Every set that is sufficient contains `s`. */
  ghost predicate Needed(f: Function, s: set<Ref>) {
    forall t: set<Ref> :: Sufficient(f, t) ==> s <= t
  }

  /** Closed under operands except for what is waiting in `work`. */
  ghost predicate ClosedBut(f: Function, s: set<Ref>, work: seq<Ref>) {
    forall x, y :: x in s && x !in work && DependsOn(f, x, y) ==> y in s
  }

  // ----- Marking -----

  class Marker {
    const f: Function
    var marked: set<Ref>
    var work_list: seq<Ref>

    constructor (f: Function)
      ensures this.f == f
    {
      this.f := f;
      marked, work_list := {}, [];
    }

    /** What the worklist keeps: marked instructions are needed, and the operands of those no
        longer waiting are marked. */
    ghost predicate Marking()
      reads this
    {
      && marked <= AllRefs(f)
      && (forall k :: 0 <= k < |work_list| ==> work_list[k] in marked)
      && ClosedBut(f, marked, work_list)
      && Needed(f, marked)
    }

    /** `mark` of one instruction: its operands' instructions are marked and queued. */
    method MarkOperands(now: Ref)
      requires IsRef(f, now) && now in marked
      requires Needed(f, marked)
      requires marked <= AllRefs(f)
      modifies this
      ensures old(marked) <= marked <= AllRefs(f) && old(work_list) <= work_list
      ensures forall y :: DependsOn(f, now, y) ==> y in marked
      ensures forall y :: y in marked && y !in old(marked) ==> y in work_list
      ensures forall k :: |old(work_list)| <= k < |work_list| ==> work_list[k] in marked
      ensures Needed(f, marked)
      ensures marked == old(marked) ==> work_list == old(work_list)
    {
      ghost var marked0, work0 := marked, work_list;
      var todo := set y | y in AllRefs(f) && DependsOn(f, now, y);
      while todo != {}
        invariant marked0 <= marked <= AllRefs(f) && work0 <= work_list
        invariant forall y :: y in todo ==> y in AllRefs(f) && DependsOn(f, now, y)
        invariant forall y :: y in AllRefs(f) && DependsOn(f, now, y) ==> y in marked || y in todo
        invariant forall y :: y in marked && y !in marked0 ==> y in work_list
        invariant forall k :: |work0| <= k < |work_list| ==> work_list[k] in marked
        invariant Needed(f, marked)
        invariant marked == marked0 ==> work_list == work0
      {
        var def :| def in todo;
        todo := todo - {def};
        if def !in marked {
          forall s: set<Ref> | Sufficient(f, s) ensures marked + {def} <= s {
            assert now in s;
          }
          marked := marked + {def};
          work_list := work_list + [def];
        }
      }
      forall y | DependsOn(f, now, y) ensures y in marked {
        AllRefsExact(f, y);
      }
    }

    /** The first loop of `mark`: the critical instructions. */
    method CollectCritical()
      modifies this
      ensures forall x :: x in marked <==> IsRef(f, x) && IsCritical(f, x)
      ensures forall x :: x in marked <==> x in work_list
    {
      marked, work_list := {}, [];
      var todo := AllRefs(f);
      forall x ensures x in todo <==> IsRef(f, x) { AllRefsExact(f, x); }
      hide AllRefs;
      while todo != {}
        invariant forall x :: x in todo ==> IsRef(f, x)
        invariant forall x :: x in marked <==> IsRef(f, x) && x !in todo && IsCritical(f, x)
        invariant forall x :: x in marked <==> x in work_list
      {
        var ins :| ins in todo;
        todo := todo - {ins};
        if IsCritical(f, ins) {
          marked := marked + {ins};
          work_list := work_list + [ins];
        }
      }
    }

    /** `mark` of a function: the least set that keeps the critical instructions computable. */
    method Mark()
      modifies this
      ensures Sufficient(f, marked) && marked <= AllRefs(f)
      ensures Needed(f, marked)
    {
      CollectCritical();
      ghost var critical := marked;
      CriticalNeeded(f, marked, work_list);
      hide AllRefs, DependsOn, Sufficient, Needed, ClosedBut, IsCritical;
      while work_list != []
        invariant critical <= marked && Marking()
        decreases |AllRefs(f) - marked|, |work_list|
      {
        MarkNext();
      }
      MarkedSuffices(f, critical, marked);
    }

    /** One round of the worklist. */
    method MarkNext()
      requires Marking() && work_list != []
      modifies this
      ensures Marking() && old(marked) <= marked
      ensures |AllRefs(f) - marked| < |AllRefs(f) - old(marked)|
              || (marked == old(marked) && |work_list| < |old(work_list)|)
    {
      var now := work_list[0];
      ghost var marked0, work0 := marked, work_list;
      AllRefsExact(f, now);
      hide AllRefs, DependsOn, Sufficient, Needed;
      work_list := work_list[1..];
      MarkOperands(now);
      MarkStep(f, marked0, work0, marked, work_list);
      QueuedMarked(marked0, work0, marked, work_list);
    }
  }

  lemma CriticalNeeded(f: Function, critical: set<Ref>, work: seq<Ref>)
    requires forall x :: x in critical <==> IsRef(f, x) && IsCritical(f, x)
    requires forall x :: x in critical <==> x in work
    ensures critical <= AllRefs(f) && Needed(f, critical) && ClosedBut(f, critical, work)
  {
    forall x | x in critical ensures x in AllRefs(f) { AllRefsExact(f, x); }
  }

  lemma MarkedSuffices(f: Function, critical: set<Ref>, marked: set<Ref>)
    requires critical <= marked && ClosedBut(f, marked, [])
    requires forall x :: x in critical <==> IsRef(f, x) && IsCritical(f, x)
    ensures Sufficient(f, marked)
  {
  }

  lemma QueuedMarked(marked: set<Ref>, work: seq<Ref>, marked': set<Ref>, work': seq<Ref>)
    requires work != [] && marked <= marked' && work[1..] <= work'
    requires forall k :: 0 <= k < |work| ==> work[k] in marked
    requires forall k :: |work| - 1 <= k < |work'| ==> work'[k] in marked'
    ensures forall k :: 0 <= k < |work'| ==> work'[k] in marked'
  {
    forall k | 0 <= k < |work| - 1 ensures work'[k] in marked' {
      assert work[1..][k] == work'[..|work| - 1][k];
    }
  }

  lemma MarkStep(f: Function, marked: set<Ref>, work: seq<Ref>, marked': set<Ref>, work': seq<Ref>)
    requires work != [] && marked <= marked' <= AllRefs(f) && work[1..] <= work'
    requires ClosedBut(f, marked, work)
    requires forall y :: DependsOn(f, work[0], y) ==> y in marked'
    requires forall y :: y in marked' && y !in marked ==> y in work'
    requires marked' == marked ==> work' == work[1..]
    ensures ClosedBut(f, marked', work')
    ensures |AllRefs(f) - marked'| < |AllRefs(f) - marked| || (marked' == marked && |work'| < |work|)
  {
    assert work == [work[0]] + work[1..];
    forall x | x in work ensures x == work[0] || x in work' {
      if x in work[1..] { assert work[1..] == work'[..|work| - 1]; }
    }
    if marked' != marked {
      var d :| d in marked' && d !in marked;
      assert AllRefs(f) - marked' <= (AllRefs(f) - marked) - {d};
      Smaller(AllRefs(f) - marked', (AllRefs(f) - marked) - {d});
    }
  }

  lemma Smaller<T>(a: set<T>, b: set<T>)
    requires a <= b
    ensures |a| <= |b|
  {
    assert b == a + (b - a);
  }

  // ----- Sweeping -----

  /** The body from position `k` on, without the unmarked instructions. */
  function SweptBody(m: set<Ref>, b: BlockId, body: seq<Instr>, k: nat): seq<Instr>
    requires k <= |body|
    decreases |body| - k
  {
    if k == |body| then []
    else if BodyRef(b, k) in m then [body[k]] + SweptBody(m, b, body, k + 1)
    else SweptBody(m, b, body, k + 1)
  }

  function SweptPhis(m: set<Ref>, b: BlockId, phis: seq<Phi>, k: nat): seq<Phi>
    requires k <= |phis|
    decreases |phis| - k
  {
    if k == |phis| then []
    else if PhiRef(b, k) in m then [phis[k]] + SweptPhis(m, b, phis, k + 1)
    else SweptPhis(m, b, phis, k + 1)
  }

  function SweptBlock(m: set<Ref>, b: BlockId, blk: Block): Block {
    Block(SweptPhis(m, b, blk.phis, 0), SweptBody(m, b, blk.body, 0), blk.term)
  }

  function Swept(m: set<Ref>, f: Function): Function {
    Function(f.entry, map b | b in f.blocks :: SweptBlock(m, b, f.blocks[b]))
  }

  /** `sweep`: the instruction lists shrink in place, one instruction at a time. */
  method Sweep(m: set<Ref>, f: Function) returns (g: Function)
    ensures g == Swept(m, f)
  {
    var blocks := f.blocks;
    var todo := f.blocks.Keys;
    while todo != {}
      invariant todo <= f.blocks.Keys == blocks.Keys
      invariant forall b :: b in f.blocks ==> blocks[b] == if b in todo then f.blocks[b]
                else SweptBlock(m, b, f.blocks[b])
    {
      var b :| b in todo;
      todo := todo - {b};
      var phis := SweepPhis(m, b, f.blocks[b].phis);
      var body := SweepBody(m, b, f.blocks[b].body);
      blocks := blocks[b := Block(phis, body, f.blocks[b].term)];
    }
    g := Function(f.entry, blocks);
  }

  method SweepBody(m: set<Ref>, b: BlockId, body: seq<Instr>) returns (insts: seq<Instr>)
    ensures insts == SweptBody(m, b, body, 0)
  {
    insts := body;
    var it := 0;
    for n := 0 to |body|
      invariant it <= |insts| && insts[it..] == body[n..]
      invariant insts[..it] + SweptBody(m, b, body, n) == SweptBody(m, b, body, 0)
    {
      ghost var before := insts;
      assert insts[it..][0] == body[n] && insts[it..][1..] == insts[it + 1..] && body[n..][1..] == body[n + 1..];
      if BodyRef(b, n) in m {
        it := it + 1;
        assert insts[..it] == before[..it - 1] + [body[n]];
      } else {
        insts := insts[..it] + insts[it + 1..];
        assert insts[..it] == before[..it] && insts[it..] == before[it + 1..];
      }
    }
    assert insts == insts[..it] + [];
  }

  method SweepPhis(m: set<Ref>, b: BlockId, phis: seq<Phi>) returns (insts: seq<Phi>)
    ensures insts == SweptPhis(m, b, phis, 0)
  {
    insts := phis;
    var it := 0;
    for n := 0 to |phis|
      invariant it <= |insts| && insts[it..] == phis[n..]
      invariant insts[..it] + SweptPhis(m, b, phis, n) == SweptPhis(m, b, phis, 0)
    {
      ghost var before := insts;
      assert insts[it..][0] == phis[n] && insts[it..][1..] == insts[it + 1..] && phis[n..][1..] == phis[n + 1..];
      if PhiRef(b, n) in m {
        it := it + 1;
        assert insts[..it] == before[..it - 1] + [phis[n]];
      } else {
        insts := insts[..it] + insts[it + 1..];
        assert insts[..it] == before[..it] && insts[it..] == before[it + 1..];
      }
    }
    assert insts == insts[..it] + [];
  }

  // ----- Sweeping preserves every run -----

  /** Every instruction computing `r` is kept. */
  ghost predicate Live(f: Function, m: set<Ref>, r: Reg) {
    forall x :: IsRef(f, x) && RefDefines(f, x) == Some(r) ==> x in m
  }

  ghost predicate Sim(f: Function, m: set<Ref>, s: State, t: State) {
    && s.heap == t.heap && s.trace == t.trace
    && (forall v: Slot :: s.slots(v) == t.slots(v))
    && (forall r: Reg :: Live(f, m, r) ==> s.env(r) == t.env(r))
  }

  lemma OperandsLive(f: Function, m: set<Ref>, x: Ref, o: Operand)
    requires Sufficient(f, m) && IsRef(f, x) && x in m && o in RefOperands(f, x) && o.Reg?
    ensures Live(f, m, o.r)
  {
    assert RegName(o.r) in Needs(f, x);
    forall y | IsRef(f, y) && RefDefines(f, y) == Some(o.r) ensures y in m {
      assert DependsOn(f, x, y);
    }
  }

  lemma ReadSame(f: Function, m: set<Ref>, x: Ref, o: Operand, s: State, t: State)
    requires Sufficient(f, m) && IsRef(f, x) && x in m && o in RefOperands(f, x) && Sim(f, m, s, t)
    ensures Read(o, s.env) == Read(o, t.env)
  {
    if o.Reg? { OperandsLive(f, m, x, o); }
  }

  lemma ReadAllSame(f: Function, m: set<Ref>, x: Ref, os: seq<Operand>, s: State, t: State)
    requires Sufficient(f, m) && IsRef(f, x) && x in m && os == RefOperands(f, x) && Sim(f, m, s, t)
    ensures ReadAll(os, s.env) == ReadAll(os, t.env)
  {
    forall k | 0 <= k < |os| ensures Read(os[k], s.env) == Read(os[k], t.env) {
      ReadSame(f, m, x, os[k], s, t);
    }
    if ReadAll(os, s.env).Some? {
      assert ReadAll(os, s.env).value == ReadAll(os, t.env).value;
    }
  }

  lemma MarkedInstr(w: Oracle, f: Function, m: set<Ref>, b: BlockId, k: nat, s: State, t: State)
    requires Sufficient(f, m) && IsRef(f, BodyRef(b, k)) && BodyRef(b, k) in m && Sim(f, m, s, t)
    ensures var s', t' := ExecInstr(w, f.blocks[b].body[k], s), ExecInstr(w, f.blocks[b].body[k], t);
            s'.Some? ==> t'.Some? && Sim(f, m, s'.value, t'.value)
  {
    var x, i := BodyRef(b, k), f.blocks[b].body[k];
    match i
    case Pure(d, op, args) => ReadAllSame(f, m, x, args, s, t);
    case Load(d, Local(_)) =>
    case Load(d, Addr(a)) => ReadSame(f, m, x, a, s, t);
    case Store(v, Local(_)) => ReadSame(f, m, x, v, s, t);
    case Store(v, Addr(a)) =>
      assert Operands(i)[0] == v && Operands(i)[1] == a;
      ReadSame(f, m, x, v, s, t); ReadSame(f, m, x, a, s, t);
    case Call(d, c, args, e) => ReadAllSame(f, m, x, args, s, t);
    case Alloca(_, _) =>
  }

  lemma UnmarkedInstr(w: Oracle, f: Function, m: set<Ref>, b: BlockId, k: nat, s: State, t: State)
    requires Sufficient(f, m) && IsRef(f, BodyRef(b, k)) && BodyRef(b, k) !in m && Sim(f, m, s, t)
    ensures var s' := ExecInstr(w, f.blocks[b].body[k], s); s'.Some? ==> Sim(f, m, s'.value, t)
  {
    var x, i := BodyRef(b, k), f.blocks[b].body[k];
    assert !IsCritical(f, x);
    assert RefDefines(f, x) == Defines(i);
  }

  lemma {:induction false} BodySim(w: Oracle, f: Function, m: set<Ref>, b: BlockId, k: nat, s: State, t: State)
    requires Sufficient(f, m) && b in f.blocks && k <= |f.blocks[b].body| && Sim(f, m, s, t)
    ensures var body := f.blocks[b].body;
            var s', t' := ExecBody(w, body[k..], s), ExecBody(w, SweptBody(m, b, body, k), t);
            s'.Some? ==> t'.Some? && Sim(f, m, s'.value, t'.value)
    decreases |f.blocks[b].body| - k
  {
    var body := f.blocks[b].body;
    if k < |body| {
      assert body[k..][1..] == body[k + 1..];
      var s1 := ExecInstr(w, body[k], s);
      if s1.Some? {
        if BodyRef(b, k) in m {
          MarkedInstr(w, f, m, b, k, s, t);
          BodySim(w, f, m, b, k + 1, s1.value, ExecInstr(w, body[k], t).value);
          assert SweptBody(m, b, body, k)[1..] == SweptBody(m, b, body, k + 1);
        } else {
          UnmarkedInstr(w, f, m, b, k, s, t);
          BodySim(w, f, m, b, k + 1, s1.value, t);
        }
      }
    }
  }

  lemma {:induction false} FindSwept(f: Function, m: set<Ref>, b: BlockId, k: nat, r: Reg)
    requires b in f.blocks && k <= |f.blocks[b].phis| && Live(f, m, r)
    ensures FindPhi(SweptPhis(m, b, f.blocks[b].phis, k), r) == FindPhi(f.blocks[b].phis[k..], r)
    decreases |f.blocks[b].phis| - k
  {
    var phis := f.blocks[b].phis;
    if k < |phis| {
      FindSwept(f, m, b, k + 1, r);
      assert phis[k..][1..] == phis[k + 1..];
      assert IsRef(f, PhiRef(b, k)) && RefDefines(f, PhiRef(b, k)) == Some(phis[k].dst);
      if PhiRef(b, k) in m {
        assert SweptPhis(m, b, phis, k)[1..] == SweptPhis(m, b, phis, k + 1);
      }
    }
  }

  lemma EnterSim(f: Function, m: set<Ref>, b: BlockId, from: BlockId, s: State, t: State)
    requires Sufficient(f, m) && b in f.blocks && Sim(f, m, s, t)
    ensures var phis := f.blocks[b].phis;
            Sim(f, m, s.(env := EnterEnv(phis, from, s.env)),
                t.(env := EnterEnv(SweptPhis(m, b, phis, 0), from, t.env)))
  {
    var phis := f.blocks[b].phis;
    forall r: Reg | Live(f, m, r) ensures EnterEnv(phis, from, s.env)(r) ==
        EnterEnv(SweptPhis(m, b, phis, 0), from, t.env)(r) {
      FindSwept(f, m, b, 0, r);
      assert phis[0..] == phis;
      FindPhiIn(phis, r);
      if FindPhi(phis, r).Some? {
        var k :| 0 <= k < |phis| && phis[k] == FindPhi(phis, r).value;
        var x := PhiRef(b, k);
        assert IsRef(f, x) && RefDefines(f, x) == Some(r);
        PhiSame(f, m, x, from, s, t);
      }
    }
  }

  lemma PhiSame(f: Function, m: set<Ref>, x: Ref, from: BlockId, s: State, t: State)
    requires Sufficient(f, m) && IsRef(f, x) && x in m && x.PhiRef? && Sim(f, m, s, t)
    ensures PhiValue(f.blocks[x.b].phis[x.k], from, s.env) == PhiValue(f.blocks[x.b].phis[x.k], from, t.env)
  {
    var p := f.blocks[x.b].phis[x.k];
    PhiChoiceIn(p.pairs, from);
    if PhiChoice(p.pairs, from).Some? {
      var j :| 0 <= j < |p.pairs| && p.pairs[j].0 == PhiChoice(p.pairs, from).value;
      assert PhiOperands(p)[j] == p.pairs[j].0;
      ReadSame(f, m, x, p.pairs[j].0, s, t);
    }
  }

  ghost predicate ConfigSim(f: Function, m: set<Ref>, c: Config, d: Config) {
    match c
    case Stuck => true
    case Done(v, s) => d.Done? && d.result == v && Sim(f, m, s, d.s)
    case Edge(from, b, s) => d.Edge? && d.from == from && d.b == b && Sim(f, m, s, d.s)
  }

  lemma LeaveSim(f: Function, m: set<Ref>, b: BlockId, s: State, t: State)
    requires Sufficient(f, m) && b in f.blocks && Sim(f, m, s, t)
    ensures ConfigSim(f, m, Leave(f.blocks[b].term, b, s), Leave(f.blocks[b].term, b, t))
  {
    var x := TermRef(b);
    assert IsRef(f, x) && IsCritical(f, x);
    var os := RefOperands(f, x);
    if os != [] { ReadSame(f, m, x, os[0], s, t); }
  }

  lemma StepSim(w: Oracle, f: Function, m: set<Ref>, c: Config, d: Config)
    requires Sufficient(f, m) && ConfigSim(f, m, c, d)
    ensures ConfigSim(f, m, Step(w, f, c), Step(w, Swept(m, f), d))
  {
    if c.Edge? && c.b in f.blocks {
      var b, blk := c.b, f.blocks[c.b];
      EnterSim(f, m, b, c.from, c.s, d.s);
      var s1 := c.s.(env := EnterEnv(blk.phis, c.from, c.s.env));
      var t1 := d.s.(env := EnterEnv(SweptPhis(m, b, blk.phis, 0), c.from, d.s.env));
      BodySim(w, f, m, b, 0, s1, t1);
      assert blk.body[0..] == blk.body;
      var s2 := ExecBody(w, blk.body, s1);
      if s2.Some? {
        LeaveSim(f, m, b, s2.value, ExecBody(w, SweptBody(m, b, blk.body, 0), t1).value);
      }
    }
  }

  /** Sweeping everything outside a sufficient set preserves every run from every state: the same
      edges, the same memory and trace of stores and calls with their operand values, the same result. */
  lemma {:induction false} SweepPreservesRuns(w: Oracle, f: Function, m: set<Ref>, c: Config, n: nat)
    requires Sufficient(f, m)
    ensures ConfigSim(f, m, Run(w, f, n, c), Run(w, Swept(m, f), n, c))
  {
    if n > 0 {
      SweepPreservesRuns(w, f, m, c, n - 1);
      StepSim(w, f, m, Run(w, f, n - 1, c), Run(w, Swept(m, f), n - 1, c));
    }
  }

  // ----- What is left -----

  lemma {:induction false} SweptBodyPicks(m: set<Ref>, b: BlockId, body: seq<Instr>, k: nat) returns (os: seq<nat>)
    requires k <= |body|
    ensures PicksFrom(SweptBody(m, b, body, k), body, os, k)
    ensures forall i :: i in os <==> k <= i < |body| && BodyRef(b, i) in m
    decreases |body| - k
  {
    os := [];
    if k < |body| {
      os := SweptBodyPicks(m, b, body, k + 1);
      hide PicksFrom;
      PicksOneMore(SweptBody(m, b, body, k + 1), body, os, k);
      if BodyRef(b, k) in m { os := [k] + os; }
    }
  }

  lemma {:induction false} SweptPhisPick(m: set<Ref>, b: BlockId, phis: seq<Phi>, k: nat) returns (os: seq<nat>)
    requires k <= |phis|
    ensures PicksFrom(SweptPhis(m, b, phis, k), phis, os, k)
    ensures forall i :: i in os <==> k <= i < |phis| && PhiRef(b, i) in m
    decreases |phis| - k
  {
    os := [];
    if k < |phis| {
      os := SweptPhisPick(m, b, phis, k + 1);
      hide PicksFrom;
      PicksOneMore(SweptPhis(m, b, phis, k + 1), phis, os, k);
      if PhiRef(b, k) in m { os := [k] + os; }
    }
  }

  /** `g` has exactly the instructions of `f` that are in `m`, in order, and the same terminators. */
  ghost predicate KeepsMarked(f: Function, m: set<Ref>, g: Function) {
    && g.entry == f.entry && g.blocks.Keys == f.blocks.Keys
    && forall b :: b in f.blocks ==>
         && g.blocks[b].term == f.blocks[b].term
         && (exists os :: Picks(g.blocks[b].phis, f.blocks[b].phis, os)
                          && forall k :: k in os <==> 0 <= k < |f.blocks[b].phis| && PhiRef(b, k) in m)
         && (exists os :: Picks(g.blocks[b].body, f.blocks[b].body, os)
                          && forall k :: k in os <==> 0 <= k < |f.blocks[b].body| && BodyRef(b, k) in m)
  }

  lemma SweptKeeps(m: set<Ref>, f: Function)
    ensures KeepsMarked(f, m, Swept(m, f))
  {
    var g := Swept(m, f);
    hide Picks, SweptBody, SweptPhis;
    forall b | b in f.blocks
      ensures exists os :: Picks(g.blocks[b].phis, f.blocks[b].phis, os)
                           && forall k :: k in os <==> 0 <= k < |f.blocks[b].phis| && PhiRef(b, k) in m
      ensures exists os :: Picks(g.blocks[b].body, f.blocks[b].body, os)
                           && forall k :: k in os <==> 0 <= k < |f.blocks[b].body| && BodyRef(b, k) in m
    {
      var ps := SweptPhisPick(m, b, f.blocks[b].phis, 0);
      assert Picks(g.blocks[b].phis, f.blocks[b].phis, ps);
      var os := SweptBodyPicks(m, b, f.blocks[b].body, 0);
      assert Picks(g.blocks[b].body, f.blocks[b].body, os);
    }
  }

  /** Another instruction in `m` reads what `x` defines: its register, or the slot it declares. */
  ghost predicate ReadBy(f: Function, m: set<Ref>, x: Ref)
    requires IsRef(f, x)
  {
    exists y :: y in m && y != x && IsRef(f, y) &&
      ((RefDefines(f, x).Some? && Reg(RefDefines(f, x).value) in RefOperands(f, y))
       || (x.BodyRef? && f.blocks[x.b].body[x.k].Alloca? && y.BodyRef?
           && Accesses(f.blocks[y.b].body[y.k], f.blocks[x.b].body[x.k].slot)))
  }

  predicate Accesses(i: Instr, v: Slot) {
    (i.Load? || i.Store?) && i.p == Local(v)
  }

  /** Everything in `m` has a reason: it ends a block, stores, calls with effects, or is read by something else
      in `m`. */
  ghost predicate Wanted(f: Function, m: set<Ref>) {
    forall x :: x in m ==>
      && IsRef(f, x)
      && (x.TermRef?
          || (x.BodyRef? && f.blocks[x.b].body[x.k].Store?)
          || (x.BodyRef? && f.blocks[x.b].body[x.k].Call? && f.blocks[x.b].body[x.k].effects)
          || ReadBy(f, m, x))
  }

  lemma DependsReads(f: Function, m: set<Ref>, x: Ref, y: Ref)
    requires y in m && y != x && DependsOn(f, y, x)
    ensures IsRef(f, x) && ReadBy(f, m, x)
  {
  }

  lemma SmallerSuffices(f: Function, m: set<Ref>, x: Ref)
    requires Sufficient(f, m) && !(IsRef(f, x) && IsCritical(f, x))
    requires forall y :: y in m && y != x ==> !DependsOn(f, y, x)
    ensures Sufficient(f, m - {x})
  {
    hide DependsOn, IsCritical;
  }

  lemma NeededWanted(f: Function, m: set<Ref>)
    requires Sufficient(f, m) && Needed(f, m) && m <= AllRefs(f)
    ensures Wanted(f, m)
  {
    hide DependsOn, ReadBy;
    forall x | x in m && !(IsRef(f, x) && IsCritical(f, x)) ensures IsRef(f, x) && ReadBy(f, m, x) {
      AllRefsExact(f, x);
      if forall y :: y in m && y != x ==> !DependsOn(f, y, x) {
        SmallerSuffices(f, m, x);
        assert false;
      }
      var y :| y in m && y != x && DependsOn(f, y, x);
      DependsReads(f, m, x, y);
    }
    forall x | x in m ensures IsRef(f, x) { AllRefsExact(f, x); }
  }

  /** `clear_instructions`. */
  method ClearInstructions(f: Function) returns (g: Function, ghost m: set<Ref>)
    ensures Sufficient(f, m) && Needed(f, m) && g == Swept(m, f)
    ensures KeepsMarked(f, m, g) && Wanted(f, m)
    ensures forall w, c, n :: ConfigSim(f, m, Run(w, f, n, c), Run(w, g, n, c))
    ensures forall w, c, n :: SeenKept(Run(w, f, n, c), Run(w, g, n, c))
  {
    var marker := new Marker(f);
    marker.Mark();
    m := marker.marked;
    g := Sweep(marker.marked, f);
    SweptKeeps(m, f);
    NeededWanted(f, m);
    hide KeepsMarked, Wanted;
    forall w, c, n
      ensures ConfigSim(f, m, Run(w, f, n, c), Run(w, g, n, c)) && SeenKept(Run(w, f, n, c), Run(w, g, n, c))
    {
      SweepPreservesRuns(w, f, m, c, n);
    }
  }
}
