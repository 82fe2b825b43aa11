/** A function from its syntax tree to the form without slots: what lowering builds is what promotion asks for,
    so the promoted function does what the syntax tree says. */
module LoweringPromotion {
  import opened IR
  import A = Ast
  import opened Builder
  import opened Dominance
  import opened Lowering
  import opened LoweringFunction
  import opened LoweringSsa
  import opened LoweringVisitor
  import opened Mem2Reg
  import opened Mem2RegRename
  import opened Mem2RegStatic
  import opened Mem2RegSim
  import opened Mem2RegRuns
  import opened Mem2RegWalk
  import LoweringRuns
  import LoweringStmts

  // ----- The finished function -----

  lemma StartSound(params: seq<Slot>)
    ensures Sound(Start(params), map[])
  {
    StoredIs(params, |params|);
    var s := Start(params);
    assert forall x :: Gives(s, x) == None;
  }

  /** The tree of insertion points of a whole function. */
  lemma BodySound(params: seq<Slot>, body: seq<A.Stmt>, returnsVoid: bool) returns (d: Parents)
    requires A.ProperStmts(body, false)
    ensures Sound(LowerBody(params, body, returnsVoid), d)
            && Stable(Start(params), LowerBody(params, body, returnsVoid))
  {
    StartReady(params);
    StartSound(params);
    hide Start, LowerStmts, Sound, Nested, Stable;
    d := StmtsNest(body, Start(params), map[], []);
    var t := LowerStmts(body, Start(params), []);
    NestedParts(Start(params), map[], t, d);
    if Open(t) {
      var r := if returnsVoid then None else Some(Const(IntVal(0)));
      ConstAvailable(t, d, IntVal(0));
      ExitNested(t, d, r);
      NestedParts(t, d, Exit(t, r), d);
      NestedTrans(Start(params), map[], t, d, Exit(t, r), d);
      NestedParts(Start(params), map[], Exit(t, r), d);
    }
  }

  /** Every block of `t` is ended, and `f` is what came of it. */
  ghost predicate Finishes(t: Build, f: Function) {
    f.entry == 0 && f.blocks.Keys == t.blocks.Keys
    && forall b :: b in t.blocks ==>
        t.blocks[b].term.Some? && f.blocks[b] == Block(t.blocks[b].phis, t.blocks[b].body, t.blocks[b].term.value)
  }

  lemma GivesIs(t: Build, f: Function, x: Ref)
    requires Finishes(t, f) && IsRef(f, x)
    ensures RefDefines(f, x) == Gives(t, x)
  {
  }

  /** What is above a block is on every path to it. */
  lemma {:induction false} AboveOnPath(t: Build, f: Function, d: Parents, a: BlockId, b: BlockId, p: seq<BlockId>)
    requires Finishes(t, f) && EdgesOk(t, d) && LoweringSsa.Above(d, a, b) && PathTo(f, p, b)
    ensures a in p
    decreases |p|
  {
    if a != b {
      var q, pre := p[|p| - 2], p[..|p| - 1];
      PathBack(f, p, b);
      assert EdgeIn(t, q, b);
      AboveTrans(d, a, d[b], q);
      AboveOnPath(t, f, d, a, q, pre);
    }
  }

  lemma AboveDominates(t: Build, f: Function, d: Parents, a: BlockId, b: BlockId)
    requires Finishes(t, f) && EdgesOk(t, d) && LoweringSsa.Above(d, a, b)
    ensures Dom(f, a, b)
  {
    hide EdgesOk, Finishes, LoweringSsa.Above, PathTo;
    forall p | PathTo(f, p, b) ensures a in p {
      AboveOnPath(t, f, d, a, b, p);
    }
  }

  lemma UsedBefore(t: Build, f: Function, d: Parents, b: BlockId, k: nat, r: Reg, x: Ref)
    requires Finishes(t, f) && Sound(t, d) && b in f.blocks && k <= |f.blocks[b].body|
    requires Reg(r) in Takes(t.blocks[b], k) && DefinedAt(f, x, r)
    ensures Before(f, x, b, k)
  {
    GivesIs(t, f, x);
    assert Usable(t, d, r, b, k) && Gives(t, x) == Some(r);
    hide Gives, Finishes;
    if x.b != b { AboveDominates(t, f, d, x.b, b); }
  }

  lemma FinishedSSA(t: Build, f: Function, d: Parents)
    requires Finishes(t, f) && Sound(t, d)
    ensures SSA(f)
  {
    forall x, y | IsRef(f, x) && IsRef(f, y) && RefDefines(f, x).Some? && RefDefines(f, x) == RefDefines(f, y)
      ensures x == y {
      GivesIs(t, f, x);
      GivesIs(t, f, y);
    }
    hide Sound, Before, DefinedAt;
    forall b, k, r: Reg, x | b in f.blocks && 0 <= k < |f.blocks[b].body| && Reg(r) in Operands(f.blocks[b].body[k])
        && DefinedAt(f, x, r)
      ensures Before(f, x, b, k)
    {
      UsedBefore(t, f, d, b, k, r, x);
    }
    forall b, r: Reg, x | b in f.blocks && Reg(r) in TermOperands(f.blocks[b].term) && DefinedAt(f, x, r)
      ensures Before(f, x, b, |f.blocks[b].body|)
    {
      UsedBefore(t, f, d, b, |f.blocks[b].body|, r, x);
    }
  }

  lemma PhiTakesConstants(t: Build, f: Function, d: Parents, y: Ref, o: Operand)
    requires Finishes(t, f) && Sound(t, d) && IsRef(f, y) && y.PhiRef? && o in RefOperands(f, y)
    ensures o.Const?
  {
    assert ConstPairs(t.blocks[y.b].phis[y.k]);
  }

  lemma LoadTakesComputed(t: Build, f: Function, d: Parents, x: Ref, y: Ref, r: Reg)
    requires Finishes(t, f) && Sound(t, d) && DefinedAt(f, x, r) && IsRef(f, y)
    requires y.BodyRef? && f.blocks[y.b].body[y.k].Load? && Reg(r) in RefOperands(f, y)
    ensures x.BodyRef? && f.blocks[x.b].body[x.k].Pure?
  {
    GivesIs(t, f, x);
    assert Computed(t, t.blocks[y.b].body[y.k].p.a);
  }

  lemma FinishedPromotable(t: Build, f: Function, d: Parents)
    requires Finishes(t, f) && Sound(t, d)
    ensures Promotable(f)
  {
    hide Sound, Finishes;
    forall r: Reg, x, y | DefinedAt(f, x, r) && x.BodyRef? && IsSlotLoad(f.blocks[x.b].body[x.k]) && IsRef(f, y)
        && Reg(r) in RefOperands(f, y)
      ensures !y.PhiRef? && !(y.BodyRef? && f.blocks[y.b].body[y.k].Load?)
    {
      if y.PhiRef? { PhiTakesConstants(t, f, d, y, Reg(r)); }
      if y.BodyRef? && f.blocks[y.b].body[y.k].Load? { LoadTakesComputed(t, f, d, x, y, r); }
    }
  }

  lemma FinishedBelow(t: Build, f: Function, d: Parents)
    requires Finishes(t, f) && Sound(t, d)
    ensures Below(f, t.nextReg)
  {
    forall x | IsRef(f, x)
      ensures RefDefines(f, x).Some? ==> RefDefines(f, x).value < t.nextReg
      ensures forall r: Reg :: Reg(r) in RefOperands(f, x) ==> r < t.nextReg
    {
      GivesIs(t, f, x);
      forall r: Reg | Reg(r) in RefOperands(f, x) ensures r < t.nextReg {
        if x.PhiRef? {
          PhiTakesConstants(t, f, d, x, Reg(r));
        } else {
          var k := if x.BodyRef? then x.k else |t.blocks[x.b].body|;
          assert Reg(r) in Takes(t.blocks[x.b], k);
          assert Usable(t, d, r, x.b, k);
        }
      }
    }
  }

  lemma NothingEntersEntry(t: Build, f: Function, d: Parents)
    requires Finishes(t, f) && EdgesOk(t, d)
    ensures forall a :: !IsEdge(f, a, f.entry)
  {
    forall a ensures !IsEdge(f, a, f.entry) {
      if IsEdge(f, a, f.entry) {
        assert EdgeIn(t, a, 0);
      }
    }
  }

  /** No instruction defines a register below `base`. */
  ghost predicate DefinesFrom(f: Function, base: Reg) {
    forall x, r: Reg :: DefinedAt(f, x, r) ==> base <= r
  }

  /** The registers of the arguments are not written to. */
  lemma FinishedDefines(params: seq<Slot>, t: Build, f: Function)
    requires Finishes(t, f) && Stable(Start(params), t)
    ensures DefinesFrom(f, |params|)
  {
    StoredIs(params, |params|);
    var s := Start(params);
    forall x, r: Reg | DefinedAt(f, x, r) ensures |params| <= r {
      GivesIs(t, f, x);
      assert Gives(s, x) == None;
    }
  }

  /** What is built of a proper function body is a function promotion takes. */
  lemma LoweredHandedOver(params: seq<Slot>, body: seq<A.Stmt>, returnsVoid: bool)
    requires A.ProperStmts(body, false)
    ensures HandedOver(LowerFunction(params, body, returnsVoid))
    ensures Below(LowerFunction(params, body, returnsVoid), LowerBody(params, body, returnsVoid).nextReg)
    ensures DefinesFrom(LowerFunction(params, body, returnsVoid), |params|)
    ensures |params| <= LowerBody(params, body, returnsVoid).nextReg
  {
    var t, f := LowerBody(params, body, returnsVoid), LowerFunction(params, body, returnsVoid);
    AllTerminated(params, body, returnsVoid);
    LoweredWellFormed(params, body, returnsVoid);
    assert Finishes(t, f);
    hide LowerBody, LowerFunction, Finishes, SSA, Promotable, Below, Start;
    var d := BodySound(params, body, returnsVoid);
    FinishedSSA(t, f, d);
    FinishedPromotable(t, f, d);
    FinishedBelow(t, f, d);
    FinishedDefines(params, t, f);
    StoredIs(params, |params|);
    NothingEntersEntry(t, f, d);
  }

  // ----- Lowering and promotion in one -----

  /** What can be seen of the outcome of a call: the result, the memory and the trace. */
  ghost predicate Shows(w: Oracle, g: Function, c: Config, fuel: nat, o: A.Outcome) {
    match o
    case Returned(r, m) => exists n: nat, st ::
        Run(w, g, n, c) == Done(r, st) && st.heap == m.heap && st.trace == m.trace
    case Timeout => Lasts(w, g, c, fuel)
    case Wrong => true
    case _ => false
  }

  lemma SeenShows(w: Oracle, f: Function, g: Function, c: Config, d: Config, fuel: nat, o: A.Outcome)
    requires Ends(w, f, c, fuel, o) && forall n: nat :: SameSeen(Run(w, f, n, c), Run(w, g, n, d))
    ensures Shows(w, g, d, fuel, o)
  {
    match o
    case Returned(r, m) =>
      var st :| LoweringRuns.MemOf(st) == m && Reaches(w, f, c, Done(r, st));
      var n: nat :| Run(w, f, n, c) == Done(r, st);
      hide Run;
      assert SameSeen(Run(w, f, n, c), Run(w, g, n, d));
      assert Run(w, g, n, d) == Done(r, Run(w, g, n, d).s);
    case Timeout =>
      var n: nat :| n >= fuel && Run(w, f, n, c).Edge?;
      hide Run;
      assert SameSeen(Run(w, f, n, c), Run(w, g, n, d));
    case Wrong =>
  }

  lemma StillFrom(f: Function, g: Function, base: Reg, next: Reg)
    requires DefinesFrom(f, base) && base <= next
    requires DefinesMore(f, g, next)
    ensures DefinesFrom(g, base)
  {
    hide DefinedAt;
  }

  /** From the syntax tree to a function without slots, with the frontiers of what is built in between. */
  method Compile(params: seq<Slot>, body: seq<A.Stmt>, returnsVoid: bool, df: Frontiers) returns (g: Function)
    requires A.ProperStmts(body, false) && FrontiersExact(LowerFunction(params, body, returnsVoid), df)
    ensures SSA(g) && TargetsExist(g) && EntryOnly(g) && DefinesFrom(g, |params|)
    ensures AllSlotless(LowerFunction(params, body, returnsVoid), g)
    ensures UnsetLeft(LowerFunction(params, body, returnsVoid), g)
    ensures ArraysDeclared(LowerFunction(params, body, returnsVoid), g)
    ensures g.blocks.Keys == LowerFunction(params, body, returnsVoid).blocks.Keys
    ensures forall w: Oracle, from: BlockId, st: State, fuel: nat ::
              (forall v: Slot :: st.slots(v) == None) ==>
                Shows(w, g, Edge(from, g.entry, st), fuel,
                      EvalFunction(w, params, body, returnsVoid, st.env, LoweringRuns.MemOf(st), fuel))
  {
    hide *;
    LoweredHandedOver(params, body, returnsVoid);
    var visitor := new AST2IRVisitor(|params|);
    var f := visitor.VisitFunction(params, body, returnsVoid);
    ghost var phis, w, adds;
    g, phis, w, adds := Promote(f, df, visitor.nextReg);
    StillFrom(f, g, |params|, visitor.nextReg);
    forall w: Oracle, from: BlockId, st: State, fuel: nat | forall v: Slot :: st.slots(v) == None
      ensures Shows(w, g, Edge(from, g.entry, st), fuel,
                    EvalFunction(w, params, body, returnsVoid, st.env, LoweringRuns.MemOf(st), fuel))
    {
      SeenShows(w, f, g, Edge(from, f.entry, st), Edge(from, g.entry, st), fuel,
                EvalFunction(w, params, body, returnsVoid, st.env, LoweringRuns.MemOf(st), fuel));
    }
  }
}
