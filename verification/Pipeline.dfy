/** The first passes of the compiler one after the other: what a function returns, stores and calls is what its
    syntax tree says, after lowering, promotion of slots, removal of dead code, constant propagation and
    removal of dead code again (`addPasses4IR`). */
module Pipeline {
  import opened IR
  import A = Ast
  import opened Dominance
  import opened LoweringFunction
  import opened LoweringPromotion
  import opened Mem2Reg
  import opened Mem2RegRename
  import opened Mem2RegRuns
  import opened Mem2RegSim
  import opened Mem2RegSsa
  import opened Mem2RegStatic
  import opened Mem2RegWalk
  import opened Sequences
  import DeadCode
  import LoweringRuns
  import Sccp
  import SccpForm
  import SccpRewrite
  import SccpSoundness

  // ----- Removing instructions keeps the form -----

  /** `g` is `f` without some of its instructions. */
  ghost predicate Thinned(f: Function, g: Function) {
    && g.entry == f.entry && g.blocks.Keys == f.blocks.Keys
    && forall b :: b in f.blocks ==>
         && g.blocks[b].term == f.blocks[b].term
         && PartOf(g.blocks[b].phis, f.blocks[b].phis) && PartOf(g.blocks[b].body, f.blocks[b].body)
  }

  lemma SweptThinned(m: set<Ref>, f: Function)
    ensures Thinned(f, DeadCode.Swept(m, f))
  {
    var g := DeadCode.Swept(m, f);
    DeadCode.SweptKeeps(m, f);
    hide Picks, DeadCode.Swept;
    forall b | b in f.blocks
      ensures PartOf(g.blocks[b].phis, f.blocks[b].phis) && PartOf(g.blocks[b].body, f.blocks[b].body)
    {
    }
  }

  ghost function Picked<T(!new)>(out: seq<T>, all: seq<T>): (os: seq<nat>)
    requires PartOf(out, all)
    ensures Picks(out, all, os)
  {
    var os :| Picks(out, all, os);
    os
  }

  /** The place in `f` of what is at `x` in `g`. */
  ghost function Place(f: Function, g: Function, x: Ref): Ref
    requires Thinned(f, g) && x.b in g.blocks
  {
    match x
    case PhiRef(b, k) =>
      var os := Picked(g.blocks[b].phis, f.blocks[b].phis);
      PhiRef(b, if k < |os| then os[k] else |f.blocks[b].phis|)
    case BodyRef(b, k) =>
      var os := Picked(g.blocks[b].body, f.blocks[b].body);
      BodyRef(b, if k < |os| then os[k] else |f.blocks[b].body|)
    case TermRef(_) => x
  }

  lemma PlaceDefines(f: Function, g: Function, x: Ref, r: Reg)
    requires Thinned(f, g) && DefinedAt(g, x, r)
    ensures DefinedAt(f, Place(f, g, x), r)
  {
  }

  lemma PlaceKind(f: Function, g: Function, x: Ref)
    requires Thinned(f, g) && x.b in g.blocks
    ensures var y := Place(f, g, x); y.b == x.b && y.PhiRef? == x.PhiRef? && y.BodyRef? == x.BodyRef?
  {
  }

  lemma PhiOnce(f: Function, g: Function, b: BlockId, i: nat, j: nat)
    requires Thinned(f, g) && b in g.blocks && i < |g.blocks[b].phis| && j < |g.blocks[b].phis|
    requires Place(f, g, PhiRef(b, i)) == Place(f, g, PhiRef(b, j))
    ensures i == j
  {
  }

  lemma BodyOrdered(f: Function, g: Function, b: BlockId, i: nat, j: nat)
    requires Thinned(f, g) && b in g.blocks && i < j <= |g.blocks[b].body|
    ensures Place(f, g, BodyRef(b, i)).k < Place(f, g, BodyRef(b, j)).k
  {
  }

  lemma BodyOnce(f: Function, g: Function, b: BlockId, i: nat, j: nat)
    requires Thinned(f, g) && b in g.blocks && i < |g.blocks[b].body| && j < |g.blocks[b].body|
    requires Place(f, g, BodyRef(b, i)) == Place(f, g, BodyRef(b, j))
    ensures i == j
  {
  }

  lemma PlaceOnce(f: Function, g: Function, x: Ref, y: Ref)
    requires Thinned(f, g) && IsRef(g, x) && IsRef(g, y) && Place(f, g, x) == Place(f, g, y)
    ensures x == y
  {
    PlaceKind(f, g, x);
    PlaceKind(f, g, y);
    hide Place, Thinned;
    if x.PhiRef? { PhiOnce(f, g, x.b, x.k, y.k); }
    if x.BodyRef? { BodyOnce(f, g, x.b, x.k, y.k); }
  }

  lemma ThinnedUse(f: Function, g: Function, b: BlockId, k: nat, r: Reg)
    requires Thinned(f, g) && UsesAt(g, b, k, r)
    ensures UsedAt(f, b, Place(f, g, BodyRef(b, k)).k, Reg(r))
  {
  }

  lemma ThinnedBefore(f: Function, g: Function, b: BlockId, k: nat, r: Reg, x: Ref)
    requires SSA(f) && Thinned(f, g) && UsesAt(g, b, k, r) && DefinedAt(g, x, r)
    ensures Before(g, x, b, k)
  {
    var kf := Place(f, g, BodyRef(b, k)).k;
    ThinnedUse(f, g, b, k, r);
    PlaceDefines(f, g, x, r);
    UsedAfterDef(f, b, kf, r, Place(f, g, x));
    PlaceKind(f, g, x);
    SamePaths(f, g);
    hide SSA, Thinned, Place, Dom;
    if x.b == b && x.BodyRef? && x.k >= k {
      if x.k > k { BodyOrdered(f, g, b, k, x.k); }
      assert false;
    }
  }

  lemma ThinnedSSA(f: Function, g: Function)
    requires SSA(f) && TargetsExist(f) && Thinned(f, g)
    ensures SSA(g) && TargetsExist(g)
    ensures forall x, r: Reg :: DefinedAt(g, x, r) ==> exists y :: DefinedAt(f, y, r)
  {
    assert g.entry == f.entry && g.blocks.Keys == f.blocks.Keys;
    SamePaths(f, g);
    hide *;
    forall x, r: Reg | DefinedAt(g, x, r) ensures exists y :: DefinedAt(f, y, r) {
      PlaceDefines(f, g, x, r);
    }
    forall x, y, r | DefinedAt(g, x, r) && DefinedAt(g, y, r) ensures x == y {
      PlaceDefines(f, g, x, r);
      PlaceDefines(f, g, y, r);
      TwoDefinitions(f, Place(f, g, x), Place(f, g, y), r);
      IsDefined(g, x, r);
      IsDefined(g, y, r);
      PlaceOnce(f, g, x, y);
    }
    forall b, k, r, x | UsesAt(g, b, k, r) && DefinedAt(g, x, r) ensures Before(g, x, b, k) {
      ThinnedBefore(f, g, b, k, r, x);
    }
    IsSsa(g);
  }

  lemma ThinnedEntry(f: Function, g: Function)
    requires Thinned(f, g) && EntryOnly(f)
    ensures EntryOnly(g)
  {
    assert PartOf(g.blocks[f.entry].phis, []);
    hide PartOf;
    assert forall a :: IsEdge(g, a, f.entry) <==> IsEdge(f, a, f.entry);
    assert g.blocks[f.entry].phis == [] by { PartShorter(g.blocks[f.entry].phis, []); }
  }

  lemma IsDefined(g: Function, x: Ref, r: Reg)
    requires DefinedAt(g, x, r)
    ensures IsRef(g, x) && x.b in g.blocks
  {
  }

  /** In a function of this form the constant propagation settles the entry block, too. */
  lemma EntryInOrder(f: Function)
    requires SSA(f) && EntryOnly(f)
    ensures Sccp.EntryFirst(f)
  {
    forall x, y | IsRef(f, x) && x.b == f.entry && IsRef(f, y) && RefDefines(f, y).Some?
                  && Reg(RefDefines(f, y).value) in RefOperands(f, x)
      ensures y.b == f.entry && Sccp.Sooner(y, x)
    {
      var r := RefDefines(f, y).value;
      var k := if x.BodyRef? then x.k else |f.blocks[f.entry].body|;
      assert UsesAt(f, f.entry, k, r) && DefinedAt(f, y, r);
      UsedAfterDef(f, f.entry, k, r, y);
      OnlyItselfAbove(f, y.b);
    }
  }

  /** Removing dead code keeps single assignment form, the blocks and the registers of the arguments. */
  lemma SweptForm(m: set<Ref>, f: Function, base: Reg)
    requires SSA(f) && TargetsExist(f) && EntryOnly(f) && DefinesFrom(f, base)
    ensures var g := DeadCode.Swept(m, f);
            && SSA(g) && TargetsExist(g) && EntryOnly(g) && DefinesFrom(g, base)
            && g.entry == f.entry && g.blocks.Keys == f.blocks.Keys
  {
    SweptThinned(m, f);
    assert EntryOnly(DeadCode.Swept(m, f)) by { ThinnedEntry(f, DeadCode.Swept(m, f)); }
    ThinnedSSA(f, DeadCode.Swept(m, f));
    hide SSA, DefinedAt, DeadCode.SweptBlock;
  }

  // ----- All together -----

  /** A run that keeps what can be seen of another shows the same outcome. */
  lemma KeptShows(w: Oracle, f: Function, g: Function, c: Config, fuel: nat, o: A.Outcome)
    requires Shows(w, f, c, fuel, o) && forall n :: SeenKept(Run(w, f, n, c), Run(w, g, n, c))
    ensures Shows(w, g, c, fuel, o)
  {
    match o
    case Returned(r, m) =>
      var n: nat, st :| Run(w, f, n, c) == Done(r, st) && st.heap == m.heap && st.trace == m.trace;
      hide Run;
      assert SeenKept(Run(w, f, n, c), Run(w, g, n, c));
      assert Run(w, g, n, c) == Done(r, Run(w, g, n, c).s);
    case Timeout =>
      var n: nat :| n >= fuel && Run(w, f, n, c).Edge?;
      hide Run;
      assert SeenKept(Run(w, f, n, c), Run(w, g, n, c));
    case Wrong =>
  }

  /** A call from outside: nothing is computed but the arguments, and no slot holds anything. */
  ghost predicate Called(f: Function, arity: nat, from: BlockId, st: State) {
    && from !in f.blocks
    && (forall v: Slot :: st.slots(v) == None)
    && (forall r: Reg :: r >= arity ==> st.env(r) == None)
  }

  lemma CalledFresh(f: Function, g: Function, arity: nat, from: BlockId, st: State)
    requires Called(f, arity, from, st) && g.blocks.Keys == f.blocks.Keys && DefinesFrom(g, arity)
    ensures SccpSoundness.Fresh(g, from, st)
  {
    forall x | IsRef(g, x) && RefDefines(g, x).Some? ensures st.env(RefDefines(g, x).value) == None {
      assert DefinedAt(g, x, RefDefines(g, x).value);
    }
  }

  /** What each pass has done on the way from `f`, which lowering built: promotion gave `g`, the first removal of dead
      code kept `m1` and gave `g1`, constant propagation found `vm` and gave `g2`, and the second removal kept `m2`. */
  ghost predicate Stages(f: Function, g: Function, m1: set<Ref>, g1: Function, ok: bool, vm: Sccp.ValueMap,
                         g2: Function,
                         m2: set<Ref>, h: Function) {
    && AllSlotless(f, g) && UnsetLeft(f, g) && ArraysDeclared(f, g)
    && DeadCode.Wanted(g, m1) && DeadCode.KeepsMarked(g, m1, g1)
    && (if ok then
          && SccpRewrite.ConstantsGone(vm, g2) && SccpRewrite.BranchesDecided(g1, vm, g2)
          && SccpForm.RestStays(g1, vm, g2) && Sccp.EntrySettled(g1, vm)
        else g2 == g1 && Sccp.Raises(g1, vm))
    && DeadCode.Wanted(g2, m2) && DeadCode.KeepsMarked(g2, m2, h)
  }

  lemma StagesAre(f: Function, g: Function, m1: set<Ref>, g1: Function, ok: bool, vm: Sccp.ValueMap,
                  visited: set<Sccp.FlowEdge>, g2: Function, m2: set<Ref>, h: Function)
    requires AllSlotless(f, g) && UnsetLeft(f, g) && ArraysDeclared(f, g) && DeadCode.Wanted(g, m1)
             && DeadCode.KeepsMarked(g, m1, g1)
    requires ok ==> SccpRewrite.ConstantsGone(vm, g2) && SccpRewrite.BranchesDecided(g1, vm, g2)
    requires ok ==> SccpForm.RestStays(g1, vm, g2)
    requires ok ==> SccpSoundness.Fixed(g1, vm, visited)
    requires !ok ==> g2 == g1 && Sccp.Raises(g1, vm)
    requires SSA(g1) && EntryOnly(g1) && DeadCode.Wanted(g2, m2) && DeadCode.KeepsMarked(g2, m2, h)
    ensures Stages(f, g, m1, g1, ok, vm, g2, m2, h)
  {
    EntryInOrder(g1);
    hide AllSlotless, UnsetLeft, ArraysDeclared, DeadCode.Wanted, DeadCode.KeepsMarked, SSA, EntryOnly,
        Sccp.EntrySettled, Sccp.Raises,
        SccpRewrite.ConstantsGone, SccpRewrite.BranchesDecided, SccpForm.RestStays, Sccp.EntryFirst;
  }

  /** From the syntax tree through the first passes, with the frontiers of what lowering builds. */
  method CompileAndOptimize(params: seq<Slot>, body: seq<A.Stmt>, returnsVoid: bool, df: Frontiers)
    returns (h: Function, ghost g: Function, ghost m1: set<Ref>, ghost g1: Function, ghost ok: bool,
             ghost vm: Sccp.ValueMap, ghost g2: Function, ghost m2: set<Ref>)
    requires A.ProperStmts(body, false) && FrontiersExact(LowerFunction(params, body, returnsVoid), df)
    ensures Stages(LowerFunction(params, body, returnsVoid), g, m1, g1, ok, vm, g2, m2, h)
    ensures forall w: Oracle, from: BlockId, st: State, fuel: nat ::
              Called(LowerFunction(params, body, returnsVoid), |params|, from, st) ==>
                Shows(w, h, Edge(from, h.entry, st), fuel,
                      EvalFunction(w, params, body, returnsVoid, st.env, LoweringRuns.MemOf(st), fuel))
  {
    var promoted := Compile(params, body, returnsVoid, df);
    g := promoted;
    var cleared;
    cleared, m1 := DeadCode.ClearInstructions(promoted);
    g1 := cleared;
    SweptForm(m1, g, |params|);
    ghost var visited;
    var settled, propagated;
    settled, propagated, vm, visited := SccpSoundness.PropagateConstants(cleared);
    ok, g2 := settled, propagated;
    h, m2 := DeadCode.ClearInstructions(propagated);
    hide *;
    StagesAre(LowerFunction(params, body, returnsVoid), g, m1, g1, ok, vm, visited, g2, m2, h);
    forall w: Oracle, from: BlockId, st: State, fuel: nat
      | Called(LowerFunction(params, body, returnsVoid), |params|, from, st)
      ensures Shows(w, h, Edge(from, h.entry, st), fuel,
                    EvalFunction(w, params, body, returnsVoid, st.env, LoweringRuns.MemOf(st), fuel))
    {
      var c := Edge(from, g.entry, st);
      var o := EvalFunction(w, params, body, returnsVoid, st.env, LoweringRuns.MemOf(st), fuel);
      KeptShows(w, g, g1, c, fuel, o);
      CalledFresh(LowerFunction(params, body, returnsVoid), g1, |params|, from, st);
      KeptShows(w, g1, g2, c, fuel, o);
      KeptShows(w, g2, h, c, fuel, o);
    }
  }
}
