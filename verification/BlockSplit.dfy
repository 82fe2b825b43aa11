/** Putting a new block in front of a block: some predecessors go through the new block, the others
    still jump to the old one.  What it takes of the phis for runs to stay as they are. */
module BlockSplit {
  import opened IR
  import opened PhiForm

  // ----- Renaming the operands of a function -----

  type Renaming = map<Reg, Reg>

  function NewName(r: Reg, m: Renaming): Reg {
    if r in m then m[r] else r
  }

  function RenameOperand(o: Operand, m: Renaming): Operand {
    if o.Reg? then Reg(NewName(o.r, m)) else o
  }

  function RenameAll(os: seq<Operand>, m: Renaming): (r: seq<Operand>)
    ensures |r| == |os| && forall k :: 0 <= k < |os| ==> r[k] == RenameOperand(os[k], m)
  {
    seq(|os|, k requires 0 <= k < |os| => RenameOperand(os[k], m))
  }

  function RenamePtr(p: Ptr, m: Renaming): Ptr {
    if p.Addr? then Addr(RenameOperand(p.a, m)) else p
  }

  function RenameInstr(i: Instr, m: Renaming): Instr {
    match i
    case Pure(d, op, args) => Pure(d, op, RenameAll(args, m))
    case Load(d, p) => Load(d, RenamePtr(p, m))
    case Store(v, p) => Store(RenameOperand(v, m), RenamePtr(p, m))
    case Call(d, callee, args, effects) => Call(d, callee, RenameAll(args, m), effects)
    case Alloca(_, _) => i
  }

  function RenameBody(body: seq<Instr>, m: Renaming): (r: seq<Instr>)
    ensures |r| == |body| && forall k :: 0 <= k < |body| ==> r[k] == RenameInstr(body[k], m)
  {
    seq(|body|, k requires 0 <= k < |body| => RenameInstr(body[k], m))
  }

  function RenamePairs(ps: seq<(Operand, BlockId)>, m: Renaming): (r: seq<(Operand, BlockId)>)
    ensures |r| == |ps| && forall k :: 0 <= k < |ps| ==> r[k] == (RenameOperand(ps[k].0, m), ps[k].1)
  {
    seq(|ps|, k requires 0 <= k < |ps| => (RenameOperand(ps[k].0, m), ps[k].1))
  }

  function RenamePhis(phis: seq<Phi>, m: Renaming): (r: seq<Phi>)
    ensures |r| == |phis| && forall k :: 0 <= k < |phis| ==> r[k] == Phi(phis[k].dst, RenamePairs(phis[k].pairs, m))
  {
    seq(|phis|, k requires 0 <= k < |phis| => Phi(phis[k].dst, RenamePairs(phis[k].pairs, m)))
  }

  function RenameTerm(t: Term, m: Renaming): Term {
    match t
    case Br(_) => t
    case CondBr(c, x, y) => CondBr(RenameOperand(c, m), x, y)
    case Ret(r) => if r.Some? then Ret(Some(RenameOperand(r.value, m))) else t
  }

  function RenameBlock(b: Block, m: Renaming): Block {
    Block(RenamePhis(b.phis, m), RenameBody(b.body, m), RenameTerm(b.term, m))
  }

  // ----- Environments that agree up to the renaming -----

  /** Registers below `low` are the ones of the original function; new names are not below `low`. */
  predicate NewNames(m: Renaming, low: Reg) {
    && (forall r :: r in m ==> r < low <= m[r])
    && (forall r, q :: r in m && q in m && m[r] == m[q] ==> r == q)
  }

  ghost predicate Alike(e: Env, e': Env, m: Renaming, low: Reg) {
    forall r: Reg :: r < low ==> e'(NewName(r, m)) == e(r)
  }

  ghost predicate AlikeStates(s: State, s': State, m: Renaming, low: Reg) {
    Alike(s.env, s'.env, m, low) && s'.slots == s.slots && s'.heap == s.heap && s'.trace == s.trace
  }

  predicate LowOperand(o: Operand, low: Reg) {
    o.Reg? ==> o.r < low
  }

  predicate LowOperands(os: seq<Operand>, low: Reg) {
    forall k :: 0 <= k < |os| ==> LowOperand(os[k], low)
  }

  /** The instruction reads registers of the original function and defines none that is renamed. */
  predicate LowInstr(i: Instr, m: Renaming, low: Reg) {
    LowOperands(Operands(i), low) && (Defines(i).Some? ==> Defines(i).value < low && Defines(i).value !in m)
  }

  predicate LowBody(body: seq<Instr>, m: Renaming, low: Reg) {
    forall k :: 0 <= k < |body| ==> LowInstr(body[k], m, low)
  }

  lemma ReadRenamed(o: Operand, e: Env, e': Env, m: Renaming, low: Reg)
    requires LowOperand(o, low) && Alike(e, e', m, low)
    ensures Read(RenameOperand(o, m), e') == Read(o, e)
  {
  }

  lemma ReadAllRenamed(os: seq<Operand>, e: Env, e': Env, m: Renaming, low: Reg)
    requires LowOperands(os, low) && Alike(e, e', m, low)
    ensures ReadAll(RenameAll(os, m), e') == ReadAll(os, e)
  {
    var ns := RenameAll(os, m);
    forall k | 0 <= k < |os| ensures Read(ns[k], e') == Read(os[k], e) {
      ReadRenamed(os[k], e, e', m, low);
    }
    if forall k :: 0 <= k < |os| ==> Read(os[k], e).Some? {
      assert forall k :: 0 <= k < |ns| ==> Read(ns[k], e').Some?;
      assert ReadAll(ns, e').value == ReadAll(os, e).value;
    } else {
      var k :| 0 <= k < |os| && !Read(os[k], e).Some?;
      assert !Read(ns[k], e').Some?;
    }
  }

  lemma SetAlike(e: Env, e': Env, d: Reg, v: Option<Val>, m: Renaming, low: Reg)
    requires Alike(e, e', m, low) && NewNames(m, low) && d < low && d !in m
    ensures Alike(SetReg(e, d, v), SetReg(e', d, v), m, low)
  {
  }

  lemma ExecRenamed(w: Oracle, i: Instr, s: State, s': State, m: Renaming, low: Reg)
    requires LowInstr(i, m, low) && NewNames(m, low) && AlikeStates(s, s', m, low)
    ensures var r, r' := ExecInstr(w, i, s), ExecInstr(w, RenameInstr(i, m), s');
            (r.Some? <==> r'.Some?) && (r.Some? ==> AlikeStates(r.value, r'.value, m, low))
  {
    hide Alike, NewName, ReadAll, LowOperands;
    match i {
      case Pure(d, op, args) =>
        ReadAllRenamed(args, s.env, s'.env, m, low);
        SetAlike(s.env, s'.env, d, ApplyTo(op, ReadAll(args, s.env)), m, low);
      case Load(d, Local(v)) =>
        SetAlike(s.env, s'.env, d, s.slots(v), m, low);
      case Load(d, Addr(a)) =>
        OneLow(i, a, low);
        ReadRenamed(a, s.env, s'.env, m, low);
        var addr := Read(a, s.env);
        if addr.Some? && addr.value.IntVal? {
          SetAlike(s.env, s'.env, d, HeapAt(s.heap, addr.value.i), m, low);
        }
      case Store(x, Local(v)) =>
        OneLow(i, x, low);
        ReadRenamed(x, s.env, s'.env, m, low);
      case Store(x, Addr(a)) =>
        OneLow(i, x, low);
        OneLow(i, a, low);
        ReadRenamed(x, s.env, s'.env, m, low);
        ReadRenamed(a, s.env, s'.env, m, low);
      case Call(d, callee, args, effects) =>
        ReadAllRenamed(args, s.env, s'.env, m, low);
        var vs := ReadAll(args, s.env);
        if vs.Some? {
          SetAlike(s.env, s'.env, d, Some(w(callee, vs.value, s.heap).0), m, low);
        } else {
          SetAlike(s.env, s'.env, d, None, m, low);
        }
      case Alloca(_, _) =>
    }
  }

  lemma OneLow(i: Instr, o: Operand, low: Reg)
    requires LowOperands(Operands(i), low) && o in Operands(i)
    ensures LowOperand(o, low)
  {
  }

  lemma {:induction false} BodyRenamed(w: Oracle, body: seq<Instr>, s: State, s': State, m: Renaming, low: Reg)
    requires LowBody(body, m, low) && NewNames(m, low) && AlikeStates(s, s', m, low)
    ensures var r, r' := ExecBody(w, body, s), ExecBody(w, RenameBody(body, m), s');
            (r.Some? <==> r'.Some?) && (r.Some? ==> AlikeStates(r.value, r'.value, m, low))
  {
    hide LowInstr, NewNames, AlikeStates, ExecInstr, RenameInstr;
    if body != [] {
      ExecRenamed(w, body[0], s, s', m, low);
      var r, r' := ExecInstr(w, body[0], s), ExecInstr(w, RenameInstr(body[0], m), s');
      assert RenameBody(body, m)[1..] == RenameBody(body[1..], m);
      if r.Some? {
        BodyRenamed(w, body[1..], r.value, r'.value, m, low);
      }
    }
  }

  // ----- Phis -----

  predicate LowPhis(phis: seq<Phi>, low: Reg) {
    forall k :: 0 <= k < |phis| ==> phis[k].dst < low && LowPairs(phis[k].pairs, low)
  }

  predicate LowPairs(ps: seq<(Operand, BlockId)>, low: Reg) {
    forall k :: 0 <= k < |ps| ==> LowOperand(ps[k].0, low)
  }

  predicate NoneRenamed(phis: seq<Phi>, m: Renaming) {
    forall k :: 0 <= k < |phis| ==> phis[k].dst !in m
  }

  lemma {:induction false} RenamedChoice(ps: seq<(Operand, BlockId)>, from: BlockId, m: Renaming)
    ensures PhiChoice(RenamePairs(ps, m), from)
         == if PhiChoice(ps, from).Some? then Some(RenameOperand(PhiChoice(ps, from).value, m)) else None
  {
    if ps != [] {
      assert RenamePairs(ps, m)[1..] == RenamePairs(ps[1..], m);
      RenamedChoice(ps[1..], from, m);
    }
  }

  lemma {:induction false} ChoiceLow(ps: seq<(Operand, BlockId)>, from: BlockId, low: Reg)
    requires LowPairs(ps, low)
    ensures PhiChoice(ps, from).Some? ==> LowOperand(PhiChoice(ps, from).value, low)
  {
    if ps != [] {
      ChoiceLow(ps[1..], from, low);
    }
  }

  lemma PhiValueRenamed(p: Phi, q: Phi, from: BlockId, e: Env, e': Env, m: Renaming, low: Reg)
    requires LowPairs(p.pairs, low) && Alike(e, e', m, low)
    requires PhiChoice(q.pairs, from) == PhiChoice(RenamePairs(p.pairs, m), from)
    ensures PhiValue(q, from, e') == PhiValue(p, from, e)
  {
    RenamedChoice(p.pairs, from, m);
    ChoiceLow(p.pairs, from, low);
    hide Alike, NewName;
    var o := PhiChoice(p.pairs, from);
    if o.Some? {
      ReadRenamed(o.value, e, e', m, low);
    }
  }

  lemma {:induction false} FindRenamed(phis: seq<Phi>, r: Reg, m: Renaming)
    ensures FindPhi(RenamePhis(phis, m), r)
         == var p := FindPhi(phis, r); if p.Some? then Some(Phi(p.value.dst, RenamePairs(p.value.pairs, m))) else None
  {
    if phis != [] {
      assert RenamePhis(phis, m)[1..] == RenamePhis(phis[1..], m);
      FindRenamed(phis[1..], r, m);
    }
  }

  /** Entering a block whose phis were only renamed. */
  lemma EnterRenamed(phis: seq<Phi>, from: BlockId, e: Env, e': Env, m: Renaming, low: Reg)
    requires LowPhis(phis, low) && NoneRenamed(phis, m) && NewNames(m, low) && Alike(e, e', m, low)
    ensures Alike(EnterEnv(phis, from, e), EnterEnv(RenamePhis(phis, m), from, e'), m, low)
  {
    hide RenamePhis, RenamePairs, PhiValue;
    forall r: Reg | r < low
      ensures EnterEnv(RenamePhis(phis, m), from, e')(NewName(r, m)) == EnterEnv(phis, from, e)(r)
    {
      var n := NewName(r, m);
      FindRenamed(phis, n, m);
      FindRenamed(phis, r, m);
      FindPhiIn(phis, r);
      FindPhiIn(phis, n);
      var p := FindPhi(phis, r);
      if p.Some? {
        assert n == r;
        PhiValueRenamed(p.value, Phi(p.value.dst, RenamePairs(p.value.pairs, m)), from, e, e', m, low);
      } else {
        assert FindPhi(phis, n).None?;
      }
    }
  }

  // ----- The new function -----

  /** The jump to `h` goes to `n`. */
  function Redirect(t: Term, h: BlockId, n: BlockId): Term {
    match t
    case Br(x) => Br(if x == h then n else x)
    case CondBr(c, x, y) => CondBr(c, if x == h then n else x, if y == h then n else y)
    case Ret(_) => t
  }

  /** Entering `h` from `p` in the original function is entering the new block and then `h` for the moved
      predecessors, and entering `h` for the others. */
  ghost predicate PhisSplit(old': seq<Phi>, front: seq<Phi>, back: seq<Phi>, n: BlockId, moved: set<BlockId>,
      stay: set<BlockId>, m: Renaming, low: Reg)
  {
    && (forall p, e, e' :: p in moved && Alike(e, e', m, low) ==>
          Alike(EnterEnv(old', p, e), EnterEnv(back, n, EnterEnv(front, p, e')), m, low))
    && (forall p, e, e' :: p in stay && Alike(e, e', m, low) ==>
          Alike(EnterEnv(old', p, e), EnterEnv(back, p, e'), m, low))
  }

  /** A block of the new function other than the new block. */
  function Rewired(b: Block, moved: bool, h: BlockId, n: BlockId, m: Renaming): Block {
    var c := RenameBlock(b, m);
    if moved then c.(term := Redirect(c.term, h, n)) else c
  }

  /** `g` is `f` with the block `n` between the predecessors in `moved` and `h`. */
  ghost predicate Split(f: Function, g: Function, h: BlockId, n: BlockId, moved: set<BlockId>, m: Renaming, low: Reg) {
    && h in f.blocks && n !in f.blocks && g.entry == f.entry
    && g.blocks.Keys == f.blocks.Keys + {n}
    && g.blocks[n].body == [] && g.blocks[n].term == Br(h)
    && (forall b :: b in f.blocks && b != h ==> g.blocks[b] == Rewired(f.blocks[b], b in moved, h, n, m))
    && g.blocks[h].(phis := []) == Rewired(f.blocks[h], h in moved, h, n, m).(phis := [])
    && PhisSplit(f.blocks[h].phis, g.blocks[n].phis, g.blocks[h].phis, n, moved, Preds(f, h) - moved, m, low)
    && moved <= Preds(f, h)
  }

  /** The function mentions registers below `low` only, and no block but `h` defines a renamed one. */
  ghost predicate Original(f: Function, h: BlockId, m: Renaming, low: Reg) {
    && NewNames(m, low)
    && (forall b :: b in f.blocks ==> LowPhis(f.blocks[b].phis, low) && LowBody(f.blocks[b].body, m, low)
                                      && LowOperands(TermOperands(f.blocks[b].term), low)
                                      && forall x :: x in Successors(f.blocks[b].term) ==> x in f.blocks)
    && (forall b :: b in f.blocks && b != h ==> NoneRenamed(f.blocks[b].phis, m))
  }

  // ----- Runs -----

  /** The same point of the two runs: an edge from a moved predecessor ends at the new block. */
  ghost predicate SamePoint(c: Config, d: Config, h: BlockId, n: BlockId, moved: set<BlockId>, m: Renaming, low: Reg) {
    match c
    case Edge(p, b, s) => d.Edge? && d.from == p && d.b == (if b == h && p in moved then n else b)
        && AlikeStates(s, d.s, m, low)
    case Done(v, s) => d.Done? && d.result == v && AlikeStates(s, d.s, m, low)
    case Stuck => d.Stuck?
  }

  /** The run is at a block of the function, and an edge into `h` is an edge of the function. */
  predicate TrueEdge(f: Function, c: Config, h: BlockId) {
    c.Edge? ==> c.b in f.blocks && (c.b == h ==> IsPred(f, c.from, h))
  }

  lemma LeaveAlike(f: Function, g: Function, b: BlockId, s: State, s': State, h: BlockId, n: BlockId,
                   moved: set<BlockId>,
      m: Renaming, low: Reg)
    requires b in f.blocks && AlikeStates(s, s', m, low) && LowOperands(TermOperands(f.blocks[b].term), low)
    requires n !in f.blocks && moved <= Preds(f, h) && forall x :: x in Successors(f.blocks[b].term) ==> x in f.blocks
    ensures var t' := RenameTerm(f.blocks[b].term, m);
            SamePoint(Leave(f.blocks[b].term, b, s), Leave(if b in moved then Redirect(t', h, n) else t', b, s'), h, n,
                moved, m, low)
    ensures TrueEdge(f, Leave(f.blocks[b].term, b, s), h)
  {
    hide Alike, NewName;
    var t := f.blocks[b].term;
    match t {
      case Br(_) =>
      case CondBr(c, x, y) =>
        assert TermOperands(t)[0] == c;
        ReadRenamed(c, s.env, s'.env, m, low);
      case Ret(r) =>
        if r.Some? {
          assert TermOperands(t)[0] == r.value;
          ReadRenamed(r.value, s.env, s'.env, m, low);
        }
    }
  }

  lemma OriginalParts(f: Function, h: BlockId, m: Renaming, low: Reg, b: BlockId)
    requires Original(f, h, m, low) && b in f.blocks
    ensures NewNames(m, low) && LowPhis(f.blocks[b].phis, low) && LowBody(f.blocks[b].body, m, low)
    ensures LowOperands(TermOperands(f.blocks[b].term), low)
    ensures b != h ==> NoneRenamed(f.blocks[b].phis, m)
    ensures forall x :: x in Successors(f.blocks[b].term) ==> x in f.blocks
  {
    hide NewNames, LowPhis, LowBody, LowOperands, NoneRenamed;
  }

  lemma SplitParts(f: Function, g: Function, h: BlockId, n: BlockId, moved: set<BlockId>, m: Renaming, low: Reg,
                   b: BlockId)
    requires Split(f, g, h, n, moved, m, low) && b in f.blocks
    ensures h in f.blocks && n in g.blocks && g.blocks[n].body == [] && g.blocks[n].term == Br(h)
    ensures b in g.blocks && n !in f.blocks && moved <= Preds(f, h)
    ensures g.blocks[b].body == RenameBody(f.blocks[b].body, m)
    ensures var t' := RenameTerm(f.blocks[b].term, m); g.blocks[b].term == if b in moved then Redirect(t', h, n) else t'
    ensures b != h ==> g.blocks[b].phis == RenamePhis(f.blocks[b].phis, m)
    ensures h in g.blocks
            && PhisSplit(f.blocks[h].phis, g.blocks[n].phis, g.blocks[h].phis, n, moved, Preds(f, h) - moved, m, low)
  {
    hide PhisSplit, RenameBody, RenameTerm, Redirect, RenamePhis, Preds;
    if b == h {
      assert g.blocks[h].(phis := []).body == g.blocks[h].body && g.blocks[h].(phis := []).term == g.blocks[h].term;
    }
  }

  /** A block whose phis have been read: its body and its jump. */
  lemma RestAlike(w: Oracle, f: Function, g: Function, b: BlockId, s: State, s': State, h: BlockId, n: BlockId,
      moved: set<BlockId>, m: Renaming, low: Reg)
    requires Original(f, h, m, low) && Split(f, g, h, n, moved, m, low) && b in f.blocks && AlikeStates(s, s', m, low)
    requires b in g.blocks
    ensures var r, r' := ExecBody(w, f.blocks[b].body, s), ExecBody(w, g.blocks[b].body, s');
            && (r.Some? <==> r'.Some?)
            && (r.Some? ==> SamePoint(Leave(f.blocks[b].term, b, r.value), Leave(g.blocks[b].term, b, r'.value), h, n,
                moved, m, low)
                            && TrueEdge(f, Leave(f.blocks[b].term, b, r.value), h))
  {
    OriginalParts(f, h, m, low, b);
    SplitParts(f, g, h, n, moved, m, low, b);
    BodyRenamed(w, f.blocks[b].body, s, s', m, low);
    var r, r' := ExecBody(w, f.blocks[b].body, s), ExecBody(w, g.blocks[b].body, s');
    hide *;
    if r.Some? {
      LeaveAlike(f, g, b, r.value, r'.value, h, n, moved, m, low);
    }
  }

  /** Taking an edge in full. */
  lemma EdgeStep(w: Oracle, f: Function, from: BlockId, b: BlockId, s: State)
    requires b in f.blocks
    ensures var r := ExecBody(w, f.blocks[b].body, s.(env := EnterEnv(f.blocks[b].phis, from, s.env)));
            Step(w, f, Edge(from, b, s)) == if r.Some? then Leave(f.blocks[b].term, b, r.value) else Stuck
  {
    hide ExecBody, EnterEnv, Leave;
  }

  /** One edge of the original run is one or, through the new block, two edges of the new one. */
  lemma StepSplit(w: Oracle, f: Function, g: Function, c: Config, d: Config, h: BlockId, n: BlockId,
      moved: set<BlockId>, m: Renaming, low: Reg) returns (more: nat)
    requires Original(f, h, m, low) && Split(f, g, h, n, moved, m, low)
    requires SamePoint(c, d, h, n, moved, m, low) && TrueEdge(f, c, h)
    ensures SamePoint(Step(w, f, c), Run(w, g, 1 + more, d), h, n, moved, m, low) && TrueEdge(f, Step(w, f, c), h)
  {
    hide *;
    PointParts(f, c, d, h, n, moved, m, low);
    more := 0;
    RunOne(w, g, d);
    if c.Edge? {
      var p, b, s, s' := c.from, c.b, c.s, d.s;
      SplitParts(f, g, h, n, moved, m, low, b);
      EdgeStep(w, f, p, b, s);
      var e := EnterEnv(f.blocks[b].phis, p, s.env);
      if b != h {
        EdgeStep(w, g, p, b, s');
        OriginalParts(f, h, m, low, b);
        EnterRenamed(f.blocks[b].phis, p, s.env, s'.env, m, low);
        var e' := EnterEnv(g.blocks[b].phis, p, s'.env);
        StatesAlike(s, s', e, e', m, low);
        RestAlike(w, f, g, b, s.(env := e), s'.(env := e'), h, n, moved, m, low);
      } else if p in moved {
        var e1 := EnterEnv(g.blocks[n].phis, p, s'.env);
        var e' := EnterEnv(g.blocks[h].phis, n, e1);
        EdgeStep(w, g, p, n, s');
        Nothing(w, s'.(env := e1), h, n);
        EdgeStep(w, g, n, h, s'.(env := e1));
        more := 1;
        RunTwo(w, g, d);
        SplitMoved(f, g, h, n, moved, m, low, p, s.env, s'.env);
        StatesAlike(s, s', e, e', m, low);
        RestAlike(w, f, g, h, s.(env := e), s'.(env := e'), h, n, moved, m, low);
      } else {
        var e' := EnterEnv(g.blocks[h].phis, p, s'.env);
        EdgeStep(w, g, p, h, s');
        SplitStay(f, g, h, n, moved, m, low, p, s.env, s'.env);
        StatesAlike(s, s', e, e', m, low);
        RestAlike(w, f, g, h, s.(env := e), s'.(env := e'), h, n, moved, m, low);
      }
    } else {
      StepStays(w, f, c);
      StepStays(w, g, d);
    }
    StuckPoint(f, h, n, moved, m, low);
  }

  lemma PointParts(f: Function, c: Config, d: Config, h: BlockId, n: BlockId, moved: set<BlockId>, m: Renaming,
                   low: Reg)
    requires SamePoint(c, d, h, n, moved, m, low) && TrueEdge(f, c, h)
    ensures c.Edge? <==> d.Edge?
    ensures c.Edge? ==> c.b in f.blocks && (c.b == h ==> IsPred(f, c.from, h)) && d.from == c.from
                        && d == Edge(c.from, if c.b == h && c.from in moved then n else c.b, d.s)
                        && AlikeStates(c.s, d.s, m, low) && Alike(c.s.env, d.s.env, m, low)
  {
    hide Alike;
  }

  lemma StatesAlike(s: State, s': State, e: Env, e': Env, m: Renaming, low: Reg)
    requires AlikeStates(s, s', m, low) && Alike(e, e', m, low)
    ensures AlikeStates(s.(env := e), s'.(env := e'), m, low)
  {
    hide Alike;
  }

  lemma SplitMoved(f: Function, g: Function, h: BlockId, n: BlockId, moved: set<BlockId>, m: Renaming, low: Reg,
      p: BlockId, e: Env, e': Env)
    requires Split(f, g, h, n, moved, m, low) && p in moved && Alike(e, e', m, low)
    ensures h in f.blocks && n in g.blocks && h in g.blocks
    ensures Alike(EnterEnv(f.blocks[h].phis, p, e), EnterEnv(g.blocks[h].phis, n, EnterEnv(g.blocks[n].phis, p, e')),
              m, low)
  {
    hide Alike, EnterEnv;
  }

  lemma SplitStay(f: Function, g: Function, h: BlockId, n: BlockId, moved: set<BlockId>, m: Renaming, low: Reg,
      p: BlockId, e: Env, e': Env)
    requires Split(f, g, h, n, moved, m, low) && p !in moved && IsPred(f, p, h) && Alike(e, e', m, low)
    ensures h in f.blocks && h in g.blocks
    ensures Alike(EnterEnv(f.blocks[h].phis, p, e), EnterEnv(g.blocks[h].phis, p, e'), m, low)
  {
    hide Alike, EnterEnv;
  }

  lemma Nothing(w: Oracle, s: State, h: BlockId, n: BlockId)
    ensures ExecBody(w, [], s) == Some(s) && Leave(Br(h), n, s) == Edge(n, h, s)
  {
  }

  lemma StuckPoint(f: Function, h: BlockId, n: BlockId, moved: set<BlockId>, m: Renaming, low: Reg)
    ensures SamePoint(Stuck, Stuck, h, n, moved, m, low) && TrueEdge(f, Stuck, h)
  {
  }

  lemma RunOne(w: Oracle, f: Function, c: Config)
    ensures Run(w, f, 1, c) == Step(w, f, c)
  {
    hide Step;
    assert Run(w, f, 0, c) == c;
  }

  lemma RunTwo(w: Oracle, f: Function, c: Config)
    ensures Run(w, f, 2, c) == Step(w, f, Step(w, f, c))
  {
    hide Step;
    RunOne(w, f, c);
  }

  lemma {:induction false} RunMore(w: Oracle, f: Function, k: nat, j: nat, c: Config)
    ensures Run(w, f, k + j, c) == Run(w, f, j, Run(w, f, k, c))
  {
    hide Step;
    if j > 0 {
      RunMore(w, f, k, j - 1, c);
    }
  }

  /** Every run of the original function, of any length, is matched by a run of the new one at least as long. */
  lemma {:induction false} RunSplit(w: Oracle, f: Function, g: Function, k: nat, c: Config, d: Config, h: BlockId,
      n: BlockId, moved: set<BlockId>, m: Renaming, low: Reg) returns (j: nat)
    requires Original(f, h, m, low) && Split(f, g, h, n, moved, m, low)
    requires SamePoint(c, d, h, n, moved, m, low) && TrueEdge(f, c, h)
    ensures j >= k && SamePoint(Run(w, f, k, c), Run(w, g, j, d), h, n, moved, m, low)
    ensures TrueEdge(f, Run(w, f, k, c), h)
  {
    hide Original, Split, SamePoint, TrueEdge, Step;
    if k == 0 {
      j := 0;
    } else {
      var i := RunSplit(w, f, g, k - 1, c, d, h, n, moved, m, low);
      var more := StepSplit(w, f, g, Run(w, f, k - 1, c), Run(w, g, i, d), h, n, moved, m, low);
      RunMore(w, g, i, 1 + more, d);
      j := i + 1 + more;
    }
  }

  lemma {:induction false} StaysDone(w: Oracle, f: Function, k: nat, c: Config)
    requires !c.Edge?
    ensures Run(w, f, k, c) == c
  {
    if k > 0 {
      StaysDone(w, f, k - 1, c);
    }
  }

  /** What a run that has returned leaves to see. */
  ghost predicate Returns(w: Oracle, f: Function, c: Config, result: Option<Val>, heap: Heap, trace: seq<Event>) {
    exists k: nat :: var r := Run(w, f, k, c); r.Done? && r.result == result && r.s.heap == heap && r.s.trace == trace
  }

  lemma ReturnsAt(w: Oracle, f: Function, c: Config, k: nat)
    requires Run(w, f, k, c).Done?
    ensures var r := Run(w, f, k, c); Returns(w, f, c, r.result, r.s.heap, r.s.trace)
  {
  }

  lemma SamePointSeen(c: Config, d: Config, h: BlockId, n: BlockId, moved: set<BlockId>, m: Renaming, low: Reg)
    requires SamePoint(c, d, h, n, moved, m, low)
    ensures (c.Edge? <==> d.Edge?) && (c.Done? <==> d.Done?)
    ensures c.Done? ==> c.result == d.result && c.s.heap == d.s.heap && c.s.trace == d.s.trace
  {
  }

  /** The new function returns exactly what the original one returns, with the same memory and the same events. */
  lemma SplitPreservesRuns(w: Oracle, f: Function, g: Function, c: Config, d: Config, h: BlockId, n: BlockId,
      moved: set<BlockId>, m: Renaming, low: Reg, result: Option<Val>, heap: Heap, trace: seq<Event>)
    requires Original(f, h, m, low) && Split(f, g, h, n, moved, m, low)
    requires SamePoint(c, d, h, n, moved, m, low) && TrueEdge(f, c, h)
    ensures Returns(w, f, c, result, heap, trace) <==> Returns(w, g, d, result, heap, trace)
  {
    hide Original, Split, SamePoint, TrueEdge, Run;
    if Returns(w, f, c, result, heap, trace) {
      var k: nat :| var r := Run(w, f, k, c); r.Done? && r.result == result && r.s.heap == heap && r.s.trace == trace;
      var j := RunSplit(w, f, g, k, c, d, h, n, moved, m, low);
      SamePointSeen(Run(w, f, k, c), Run(w, g, j, d), h, n, moved, m, low);
      ReturnsAt(w, g, d, j);
    }
    if Returns(w, g, d, result, heap, trace) {
      var k: nat :| var r := Run(w, g, k, d); r.Done? && r.result == result && r.s.heap == heap && r.s.trace == trace;
      var j := RunSplit(w, f, g, k, c, d, h, n, moved, m, low);
      RunMore(w, g, k, j - k, d);
      StaysDone(w, g, j - k, Run(w, g, k, d));
      SamePointSeen(Run(w, f, k, c), Run(w, g, j, d), h, n, moved, m, low);
      ReturnsAt(w, f, c, k);
    }
  }
}
