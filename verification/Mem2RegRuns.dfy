/** Whole runs of a promoted function, and the pass itself. */
module Mem2RegRuns {
  import opened IR
  import opened Dominance
  import opened Mem2Reg
  import opened Mem2RegRename
  import opened Mem2RegWalk
  import opened Mem2RegStatic
  import opened Mem2RegSim
  import opened Mem2RegSsa

  // ----- Runs -----

  /** Both runs are about to take the same edge: the first one, or one out of a visited block. */
  ghost predicate EdgeSim(f: Function, phis: PhiTable, w: Record, from: BlockId, b: BlockId, s: State, t: State) {
    && Visited(f, w, b)
    && ((b == f.entry && Sim(f, phis, w, b, 0, s, t))
        || (Visited(f, w, from) && IsEdge(f, from, b) && Sim(f, phis, w, from, |f.blocks[from].body|, s, t)))
  }

  ghost predicate ConfigSim(f: Function, phis: PhiTable, w: Record, c: Config, d: Config) {
    match c
    case Edge(from, b, s) => d.Edge? && d.from == from && d.b == b && EdgeSim(f, phis, w, from, b, s, d.s)
    case Done(r, s) => d.Done? && d.result == r && SameMemory(s, d.s)
    case Stuck => d.Stuck?
  }

  lemma TermUsed(f: Function, b: BlockId)
    requires b in f.blocks
    ensures forall o :: o in TermOperands(f.blocks[b].term) ==> UsedAt(f, b, |f.blocks[b].body|, o)
    ensures f.blocks[b].term.CondBr? ==> f.blocks[b].term.cond in TermOperands(f.blocks[b].term)
    ensures f.blocks[b].term.Ret? && f.blocks[b].term.result.Some?
            ==> f.blocks[b].term.result.value in TermOperands(f.blocks[b].term)
  {
    if f.blocks[b].term.CondBr? {
      assert TermOperands(f.blocks[b].term)[0] == f.blocks[b].term.cond;
    } else if f.blocks[b].term.Ret? && f.blocks[b].term.result.Some? {
      assert TermOperands(f.blocks[b].term)[0] == f.blocks[b].term.result.value;
    }
  }

  lemma EdgeOut(f: Function, phis: PhiTable, w: Record, b: BlockId, x: BlockId, s: State, t: State)
    requires Visited(f, w, b) && Expanded(f, w, b) && x in Successors(f.blocks[b].term) && TreeOk(f, w)
    requires Sim(f, phis, w, b, |f.blocks[b].body|, s, t)
    ensures EdgeSim(f, phis, w, b, x, s, t)
  {
    hide Sim, TreePath;
  }

  /** Operands of a terminator read alike. */
  ghost predicate TermSame(f: Function, w: Record, b: BlockId, s: State, t: State)
    requires b in f.blocks
  {
    forall o :: o in TermOperands(f.blocks[b].term) ==> Read(o, s.env) == Read(Rename(w.rm, o), t.env)
  }

  lemma TermReads(f: Function, phis: PhiTable, w: Record, b: BlockId, s: State, t: State)
    requires Promoted(f, phis, w) && Visited(f, w, b) && Sim(f, phis, w, b, |f.blocks[b].body|, s, t)
    ensures TermSame(f, w, b, s, t)
  {
    TermUsed(f, b);
    hide Promoted, Sim, UsedAt, Read, Rename, TermOperands;
    forall o | o in TermOperands(f.blocks[b].term) ensures Read(o, s.env) == Read(Rename(w.rm, o), t.env) {
      ReadSame(f, phis, w, b, |f.blocks[b].body|, o, s, t);
    }
  }

  /** Every successor can be entered. */
  ghost predicate EdgesSim(f: Function, phis: PhiTable, w: Record, b: BlockId, s: State, t: State)
    requires b in f.blocks
  {
    forall x :: x in Successors(f.blocks[b].term) ==> EdgeSim(f, phis, w, b, x, s, t)
  }

  lemma AllEdgesOut(f: Function, phis: PhiTable, w: Record, b: BlockId, s: State, t: State)
    requires Visited(f, w, b) && Expanded(f, w, b) && TreeOk(f, w) && Sim(f, phis, w, b, |f.blocks[b].body|, s, t)
    ensures EdgesSim(f, phis, w, b, s, t)
  {
    hide Sim, TreeOk, Expanded, EdgeSim;
    forall x | x in Successors(f.blocks[b].term) ensures EdgeSim(f, phis, w, b, x, s, t) {
      EdgeOut(f, phis, w, b, x, s, t);
    }
  }

  lemma LeaveSame(f: Function, phis: PhiTable, w: Record, b: BlockId, s: State, t: State)
    requires b in f.blocks && TermSame(f, w, b, s, t) && EdgesSim(f, phis, w, b, s, t) && SameMemory(s, t)
    ensures ConfigSim(f, phis, w, Leave(f.blocks[b].term, b, s), Leave(RenameTerm(w.rm, f.blocks[b].term), b, t))
  {
    TermUsed(f, b);
    hide EdgeSim, Read, Rename, TermOperands, UsedAt, SameMemory;
    match f.blocks[b].term
    case Br(x) => assert x in Successors(f.blocks[b].term);
    case CondBr(c, x, y) => assert x in Successors(f.blocks[b].term) && y in Successors(f.blocks[b].term);
    case Ret(_) =>
  }

  lemma LeaveSim(f: Function, phis: PhiTable, w: Record, b: BlockId, s: State, t: State)
    requires Promoted(f, phis, w) && Visited(f, w, b) && Expanded(f, w, b)
    requires Sim(f, phis, w, b, |f.blocks[b].body|, s, t)
    ensures ConfigSim(f, phis, w, Leave(f.blocks[b].term, b, s), Leave(RenameTerm(w.rm, f.blocks[b].term), b, t))
  {
    hide *;
    VisitedIn(f, w, b);
    PromotedParts(f, phis, w);
    SimParts(f, phis, w, b, |f.blocks[b].body|, s, t);
    TermReads(f, phis, w, b, s, t);
    AllEdgesOut(f, phis, w, b, s, t);
    LeaveSame(f, phis, w, b, s, t);
  }

  /** The states on entry to a block, once its phis have been taken. */
  lemma ArriveSim(f: Function, phis: PhiTable, w: Record, from: BlockId, b: BlockId, add: seq<Phi>, s: State, t: State)
    requires Promoted(f, phis, w) && Promotable(f) && EdgeSim(f, phis, w, from, b, s, t) && ListsPhis(phis, w, b, add)
    ensures Visited(f, w, b) && Sim(f, phis, w, b, 0, Entered(f.blocks[b].phis, from, s),
              Entered(f.blocks[b].phis + add, from, t))
  {
    if b == f.entry && Sim(f, phis, w, b, 0, s, t) {
      EntryBare(f, phis, w, add);
      hide Promoted, Sim, Entered;
      EnteredBare(from, s);
      EnteredBare(from, t);
      SimAgain(f, phis, w, b, 0, s, t, Entered([], from, s), Entered([], from, t));
    } else {
      hide Promoted, Promotable, Sim, ListsPhis, Entered;
      EnterSim(f, phis, w, b, add, from, s, t);
    }
  }

  lemma NothingAdded(phis: PhiTable, w: Record, b: BlockId, add: seq<Phi>)
    requires ListsPhis(phis, w, b, add) && forall v: Slot :: (b, v) !in phis
    ensures add == []
  {
    if add != [] {
      SomethingAdded(phis, w, b, add);
    }
  }

  lemma SomethingAdded(phis: PhiTable, w: Record, b: BlockId, add: seq<Phi>)
    requires ListsPhis(phis, w, b, add) && add != []
    ensures exists v: Slot :: (b, v) in phis
  {
    assert add[0] in add;
  }

  lemma EntryParts(f: Function, phis: PhiTable, w: Record)
    requires Promoted(f, phis, w)
    ensures EntryOnly(f) && forall v: Slot :: (f.entry, v) !in phis
  {
  }

  lemma EntryBare(f: Function, phis: PhiTable, w: Record, add: seq<Phi>)
    requires Promoted(f, phis, w) && ListsPhis(phis, w, f.entry, add)
    ensures f.entry in f.blocks && f.blocks[f.entry].phis == [] && f.blocks[f.entry].phis + add == []
  {
    hide Promoted, ListsPhis;
    EntryParts(f, phis, w);
    NothingAdded(phis, w, f.entry, add);
  }

  ghost predicate SameState(s: State, t: State) {
    s.slots == t.slots && s.heap == t.heap && s.trace == t.trace && forall r: Reg :: s.env(r) == t.env(r)
  }

  lemma EnteredBare(from: BlockId, s: State)
    ensures SameState(Entered([], from, s), s)
  {
  }

  lemma SimAgain(f: Function, phis: PhiTable, w: Record, b: BlockId, k: nat, s: State, t: State, s': State, t': State)
    requires Visited(f, w, b) && k <= |f.blocks[b].body| && Sim(f, phis, w, b, k, s, t) && SameState(s', s)
             && SameState(t', t)
    ensures Sim(f, phis, w, b, k, s', t')
  {
    hide Before, IsNewPhi, NamesAt, DefinedAt;
  }

  lemma PromotedBlock(f: Function, phis: PhiTable, w: Record, g: Function, adds: map<BlockId, seq<Phi>>, b: BlockId)
    requires Promoted(f, phis, w) && IsPromotion(f, phis, w, g, adds) && Visited(f, w, b)
    ensures b in g.blocks && b in adds && ListsPhis(phis, w, b, adds[b]) && b in w.bodies && Expanded(f, w, b)
    ensures g.blocks[b] == Block(f.blocks[b].phis + adds[b],
                                 Renamed(f.blocks[b].body, |f.blocks[b].body|, w.ins[b], w.rm),
                                     RenameTerm(w.rm, f.blocks[b].term))
  {
    VisitedAfter(f, phis, w, g, adds, b);
    PromotedParts(f, phis, w);
    assert Expanded(f, w, b);
    hide Promoted, TreeOk, ListsPhis, LoadsRecorded;
  }

  lemma BlockSim(world: Oracle, f: Function, phis: PhiTable, w: Record, b: BlockId, s: State, t: State)
    requires Promoted(f, phis, w) && Promotable(f) && Visited(f, w, b) && Sim(f, phis, w, b, 0, s, t)
    ensures Follows(f, phis, w, b, |f.blocks[b].body|, ExecBody(world, f.blocks[b].body, s),
                    ExecBody(world, Renamed(f.blocks[b].body, |f.blocks[b].body|, w.ins[b], w.rm), t))
  {
    var body := f.blocks[b].body;
    hide Promoted, Promotable, Sim, Renamed, ExecBody, Follows;
    assert body[..|body|] == body;
    BodySim(world, f, phis, w, b, |body|, s, t);
  }

  /** Entering, running and leaving one block. */
  ghost function Through(world: Oracle, blk: Block, from: BlockId, b: BlockId, s: State): Config {
    var s1 := ExecBody(world, blk.body, Entered(blk.phis, from, s));
    if s1.Some? then Leave(blk.term, b, s1.value) else Stuck
  }

  lemma StepIsThrough(world: Oracle, f: Function, from: BlockId, b: BlockId, s: State)
    requires b in f.blocks
    ensures Step(world, f, Edge(from, b, s)) == Through(world, f.blocks[b], from, b, s)
  {
  }

  lemma EdgeStep(world: Oracle, f: Function, phis: PhiTable, w: Record, g: Function, adds: map<BlockId, seq<Phi>>,
                 from: BlockId, b: BlockId, s: State, t: State)
    requires Promoted(f, phis, w) && Promotable(f) && IsPromotion(f, phis, w, g, adds)
             && EdgeSim(f, phis, w, from, b, s, t)
    ensures ConfigSim(f, phis, w, Step(world, f, Edge(from, b, s)), Step(world, g, Edge(from, b, t)))
  {
    assert Visited(f, w, b);
    hide *;
    VisitedIn(f, w, b);
    PromotedBlock(f, phis, w, g, adds, b);
    StepIsThrough(world, f, from, b, s);
    StepIsThrough(world, g, from, b, t);
    ThroughSim(world, f, phis, w, g, adds[b], from, b, s, t);
  }

  lemma ThroughSim(world: Oracle, f: Function, phis: PhiTable, w: Record, g: Function, add: seq<Phi>,
                   from: BlockId, b: BlockId, s: State, t: State)
    requires Promoted(f, phis, w) && Promotable(f) && EdgeSim(f, phis, w, from, b, s, t)
    requires Visited(f, w, b) && Expanded(f, w, b) && ListsPhis(phis, w, b, add) && b in g.blocks
    requires g.blocks[b] == Block(f.blocks[b].phis + add,
                                  Renamed(f.blocks[b].body, |f.blocks[b].body|, w.ins[b], w.rm),
                                      RenameTerm(w.rm, f.blocks[b].term))
    ensures ConfigSim(f, phis, w, Through(world, f.blocks[b], from, b, s), Through(world, g.blocks[b], from, b, t))
  {
    hide Promoted, Promotable, EdgeSim, Expanded, ListsPhis, Sim, Renamed, RenameTerm, ConfigSim, Leave, ExecBody,
        Entered;
    ArriveSim(f, phis, w, from, b, add, s, t);
    var s1, t1 := Entered(f.blocks[b].phis, from, s), Entered(f.blocks[b].phis + add, from, t);
    BlockSim(world, f, phis, w, b, s1, t1);
    var s2, t2 := ExecBody(world, f.blocks[b].body, s1), ExecBody(world, g.blocks[b].body, t1);
    if s2.Some? {
      LeaveSim(f, phis, w, b, s2.value, t2.value);
    } else {
      StuckSim(f, phis, w);
    }
  }

  lemma StuckSim(f: Function, phis: PhiTable, w: Record)
    ensures ConfigSim(f, phis, w, Stuck, Stuck)
  {
  }

  /** No load has been executed before the entry block. */
  lemma NothingReplaced(f: Function, phis: PhiTable, w: Record, s: State)
    requires Promoted(f, phis, w)
    ensures SameReplaced(f, w, f.entry, 0, s, s)
  {
    hide Promoted, DefinedAt, Dom;
    forall r: Reg, x | r in w.rm && DefinedAt(f, x, r) && Before(f, x, f.entry, 0)
      ensures s.env(r) == Read(w.rm[r], s.env) {
      ReplacedIs(f, phis, w, r, x);
      OnlyItselfAbove(f, x.b);
    }
  }

  lemma OnlyItselfAbove(f: Function, a: BlockId)
    ensures Dom(f, a, f.entry) ==> a == f.entry
  {
    assert PathTo(f, [f.entry], f.entry);
  }

  /** A run starts with empty slots. */
  lemma StartSim(f: Function, phis: PhiTable, w: Record, from: BlockId, s: State)
    requires Promoted(f, phis, w) && forall v: Slot :: s.slots(v) == None
    ensures EdgeSim(f, phis, w, from, f.entry, s, s)
  {
    EntryUnnamed(f, phis, w);
    NothingReplaced(f, phis, w, s);
    assert Visited(f, w, f.entry);
    hide Promoted, SameReplaced;
    NamesEnds(f, w, f.entry);
    assert SameSlots(map[], s, s) && SamePlain(phis, w, s, s);
  }

  /** Every run of the promoted function follows the run of the original, edge by edge. */
  lemma {:induction false} PromotionFollows(world: Oracle, f: Function, phis: PhiTable, w: Record, g: Function,
                                            adds: map<BlockId, seq<Phi>>, n: nat, from: BlockId, s: State)
    requires Promoted(f, phis, w) && Promotable(f) && IsPromotion(f, phis, w, g, adds)
             && forall v: Slot :: s.slots(v) == None
    ensures ConfigSim(f, phis, w, Run(world, f, n, Edge(from, f.entry, s)), Run(world, g, n, Edge(from, f.entry, s)))
  {
    hide Promoted, Promotable, IsPromotion, EdgeSim;
    if n == 0 {
      StartSim(f, phis, w, from, s);
    } else {
      PromotionFollows(world, f, phis, w, g, adds, n - 1, from, s);
      var c, d := Run(world, f, n - 1, Edge(from, f.entry, s)), Run(world, g, n - 1, Edge(from, f.entry, s));
      if c.Edge? {
        EdgeStep(world, f, phis, w, g, adds, c.from, c.b, c.s, d.s);
      }
    }
  }

  lemma SimSeen(f: Function, phis: PhiTable, w: Record, c: Config, d: Config)
    requires ConfigSim(f, phis, w, c, d)
    ensures SameSeen(c, d)
  {
    hide SamePlain, SameReplaced, SameSlots;
  }

  lemma PromotionPreservesRuns(world: Oracle, f: Function, phis: PhiTable, w: Record, g: Function,
                               adds: map<BlockId, seq<Phi>>, n: nat, from: BlockId, s: State)
    requires Promoted(f, phis, w) && Promotable(f) && IsPromotion(f, phis, w, g, adds)
             && forall v: Slot :: s.slots(v) == None
    ensures SameSeen(Run(world, f, n, Edge(from, f.entry, s)), Run(world, g, n, Edge(from, g.entry, s)))
  {
    assert g.entry == f.entry;
    hide *;
    PromotionFollows(world, f, phis, w, g, adds, n, from, s);
    SimSeen(f, phis, w, Run(world, f, n, Edge(from, f.entry, s)), Run(world, g, n, Edge(from, f.entry, s)));
  }

  // ----- What is left of the slots -----

  /** No path from the entry stores to slot `v` before position `k` of block `b`. */
  ghost predicate UnsetAt(f: Function, b: BlockId, k: nat, v: Slot) {
    && b in f.blocks && k <= |f.blocks[b].body|
    && (forall j :: 0 <= j < k && IsSlotStore(f.blocks[b].body[j]) ==> f.blocks[b].body[j].p.slot != v)
    && (forall p, i :: PathTo(f, p, b) && 0 <= i < |p| - 1 && p[i] in f.blocks ==> !StoresTo(f.blocks[p[i]], v))
  }

  /** An instruction of block `b` after the pass: it declares no scalar, stores to no slot, and loads only from a slot
      that has no value there on any path. */
  ghost predicate Slotless(f: Function, b: BlockId, i: Instr) {
    && !(i.Alloca? && i.scalar) && !IsSlotStore(i)
    && (IsSlotLoad(i) ==>
          exists k: nat :: UnsetAt(f, b, k, i.p.slot) && k < |f.blocks[b].body| && f.blocks[b].body[k] == i)
  }

  lemma {:induction false} RenamedSlots(body: seq<Instr>, k: nat, cur: Names, rm: Replace, i: Instr)
    requires k <= |body| && i in Renamed(body, k, cur, rm)
    ensures !(i.Alloca? && i.scalar) && !IsSlotStore(i)
    ensures IsSlotLoad(i) ==> exists j :: 0 <= j < k && body[j] == i && i.p.slot !in NamesAfter(body, j, cur, rm)
  {
    if i in Renamed(body, k - 1, cur, rm) { RenamedSlots(body, k - 1, cur, rm, i); }
  }

  lemma {:induction false} UnnamedUnstored(body: seq<Instr>, k: nat, cur: Names, rm: Replace, v: Slot)
    requires k <= |body| && v !in NamesAfter(body, k, cur, rm)
    ensures v !in cur && forall j :: 0 <= j < k && IsSlotStore(body[j]) ==> body[j].p.slot != v
  {
    if k > 0 { UnnamedUnstored(body, k - 1, cur, rm, v); }
  }

  lemma {:induction false} PathVisited(f: Function, phis: PhiTable, w: Record, p: seq<BlockId>)
    requires Promoted(f, phis, w) && IsPath(f, p)
    ensures p[|p| - 1] in w.ins
  {
    hide *;
    PromotedParts(f, phis, w);
    PathParts(f, p);
    if |p| > 1 {
      PathVisited(f, phis, w, p[..|p| - 1]);
      EdgeVisited(f, phis, w, p[|p| - 2], p[|p| - 1]);
    }
  }

  lemma PathParts(f: Function, p: seq<BlockId>)
    requires IsPath(f, p)
    ensures p != [] && p[0] == f.entry
    ensures |p| > 1 ==> IsPath(f, p[..|p| - 1]) && IsEdge(f, p[|p| - 2], p[|p| - 1])
  {
    if |p| > 1 {
      var i := |p| - 2;
      assert IsEdge(f, p[i], p[i + 1]);
    }
  }

  lemma EdgeVisited(f: Function, phis: PhiTable, w: Record, a: BlockId, b: BlockId)
    requires Promoted(f, phis, w) && w.bodies.Keys == w.ins.Keys && a in w.ins && IsEdge(f, a, b)
    ensures b in w.ins
  {
    assert Expanded(f, w, a);
  }

  /** A slot without a name at the start of a block has none, and is not stored to, in the block before. */
  lemma UnnamedBefore(f: Function, phis: PhiTable, w: Record, q: BlockId, b: BlockId, v: Slot)
    requires Promoted(f, phis, w) && q in w.ins && b in w.ins && IsEdge(f, q, b) && v !in w.ins[b]
    ensures q in f.blocks && v !in w.ins[q] && !StoresTo(f.blocks[q], v)
  {
    PromotedTree(f, phis, w, b);
    PromotedTree(f, phis, w, q);
    hide *;
    NoPhiFor(phis, b, EntryNames(f, w, b, w.tree[b]), v);
    SameNameOnEveryEdge(f, phis, w, q, b, v);
    NoneNamed(f, w, q, w.ins[b], v);
    UnnamedUnstored(f.blocks[q].body, |f.blocks[q].body|, w.ins[q], w.rm, v);
    NoStores(f.blocks[q], v);
  }

  lemma NoPhiFor(phis: PhiTable, b: BlockId, cur: Names, v: Slot)
    requires v !in InNames(phis, b, cur)
    ensures (b, v) !in phis
  {
    if (b, v) in phis { PhiLook(phis, b, cur, v); }
  }

  lemma NoneNamed(f: Function, w: Record, q: BlockId, names: Names, v: Slot)
    requires Visited(f, w, q) && Look(Out(f, w, q), v) == Look(names, v) && v !in names
    ensures q in f.blocks && q in w.ins && v !in NamesAfter(f.blocks[q].body, |f.blocks[q].body|, w.ins[q], w.rm)
  {
  }

  lemma PathBack(f: Function, p: seq<BlockId>, b: BlockId)
    requires PathTo(f, p, b) && |p| > 1
    ensures var q, pre := p[|p| - 2], p[..|p| - 1];
              IsEdge(f, q, b) && IsPath(f, pre) && PathTo(f, pre, q) && pre[|pre| - 1] == q
  {
    assert IsEdge(f, p[|p| - 2], p[|p| - 2 + 1]);
  }

  /** Such a slot has not been stored to along any path to the block. */
  lemma {:induction false} UnnamedOnPath(f: Function, phis: PhiTable, w: Record, p: seq<BlockId>, b: BlockId, v: Slot,
                                         i: nat)
    requires Promoted(f, phis, w) && PathTo(f, p, b) && b in w.ins && v !in w.ins[b] && i < |p| - 1 && p[i] in f.blocks
    ensures !StoresTo(f.blocks[p[i]], v)
    decreases |p|
  {
    hide *;
    var q, pre := p[|p| - 2], p[..|p| - 1];
    PathBack(f, p, b);
    PathVisited(f, phis, w, pre);
    UnnamedBefore(f, phis, w, q, b, v);
    if i < |p| - 2 {
      UnnamedOnPath(f, phis, w, pre, q, v, i);
    }
  }

  lemma NoStores(blk: Block, v: Slot)
    requires forall j :: 0 <= j < |blk.body| && IsSlotStore(blk.body[j]) ==> blk.body[j].p.slot != v
    ensures !StoresTo(blk, v)
  {
  }

  lemma UnnamedUnset(f: Function, phis: PhiTable, w: Record, b: BlockId, k: nat, v: Slot)
    requires Promoted(f, phis, w) && b in w.ins && Visited(f, w, b) && k <= |f.blocks[b].body|
    requires v !in NamesAfter(f.blocks[b].body, k, w.ins[b], w.rm)
    ensures UnsetAt(f, b, k, v)
  {
    UnnamedUnstored(f.blocks[b].body, k, w.ins[b], w.rm, v);
    hide Promoted, StoresTo, PathTo;
    forall p, i | PathTo(f, p, b) && 0 <= i < |p| - 1 && p[i] in f.blocks ensures !StoresTo(f.blocks[p[i]], v) {
      UnnamedOnPath(f, phis, w, p, b, v, i);
    }
  }

  /** Every block a run can come to is renamed, and no slot is left in it that has a value. */
  lemma PromotionRemoves(f: Function, phis: PhiTable, w: Record, g: Function, adds: map<BlockId, seq<Phi>>, b: BlockId,
                         i: Instr)
    requires Promoted(f, phis, w) && IsPromotion(f, phis, w, g, adds) && Reachable(f, b)
    ensures b in g.blocks && (i in g.blocks[b].body ==> Slotless(f, b, i))
  {
    var p :| PathTo(f, p, b);
    PathVisited(f, phis, w, p);
    PromotedParts(f, phis, w);
    PromotedTree(f, phis, w, b);
    assert BlockOk(f, w, b);
    hide Promoted, PathTo, UnsetAt;
    if i in g.blocks[b].body {
      RenamedSlots(f.blocks[b].body, |f.blocks[b].body|, w.ins[b], w.rm, i);
      if IsSlotLoad(i) {
        var j :| 0 <= j < |f.blocks[b].body| && f.blocks[b].body[j] == i
            && i.p.slot !in NamesAfter(f.blocks[b].body, j, w.ins[b], w.rm);
        UnnamedUnset(f, phis, w, b, j, i.p.slot);
      }
    }
  }

  // ----- Which loads are left -----

  /** A block entered with a name for a slot has a store to the slot on some way to it. */
  lemma NamedStored(f: Function, phis: PhiTable, w: Record, b: BlockId, v: Slot)
    requires Promoted(f, phis, w) && PhisNeeded(f, phis) && b in w.ins && v in w.ins[b]
    ensures StoredOnWay(f, b, v)
    decreases if b in w.tree then |w.tree[b]| else 0
  {
    hide *;
    if (b, v) in phis {
      NeededThere(f, phis, b, v);
    } else {
      NotEntry(f, phis, w, b, v);
      var p := NameFromParent(f, phis, w, b, v);
      PromotedParts(f, phis, w);
      StoredInParent(f, w, p, b, v);
      if v in w.ins[p] { NamedStored(f, phis, w, p, v); }
      TreeEdge(f, w, p, b);
      StoredBefore(f, w.tree[p], p, |w.tree[p]| - 1, b, v);
    }
  }

  lemma NeededThere(f: Function, phis: PhiTable, b: BlockId, v: Slot)
    requires PhisNeeded(f, phis) && (b, v) in phis
    ensures StoredOnWay(f, b, v)
  {
  }

  lemma NotEntry(f: Function, phis: PhiTable, w: Record, b: BlockId, v: Slot)
    requires Promoted(f, phis, w) && b in w.ins && v in w.ins[b]
    ensures b != f.entry
  {
    EntryUnnamed(f, phis, w);
  }

  /** A name a block ends with was there at its start or comes from a store in it. */
  lemma StoredInParent(f: Function, w: Record, p: BlockId, b: BlockId, v: Slot)
    requires Visited(f, w, p) && p in w.ins && b in w.ins && Look(w.ins[b], v) == Look(Out(f, w, p), v) && v in w.ins[b]
    ensures v in w.ins[p] || StoresTo(f.blocks[p], v)
    ensures v !in w.ins[p] ==> MayHold(f, p, v)
    ensures StoredOnWay(f, p, v) ==> MayHold(f, p, v)
  {
    NamedInBody(f.blocks[p].body, |f.blocks[p].body|, w.ins[p], w.rm, v);
  }

  lemma {:induction false} NamedInBody(body: seq<Instr>, k: nat, cur: Names, rm: Replace, v: Slot)
    requires k <= |body| && v in NamesAfter(body, k, cur, rm)
    ensures v in cur || exists j :: 0 <= j < k && IsSlotStore(body[j]) && body[j].p.slot == v
  {
    if k > 0 && v in NamesAfter(body, k - 1, cur, rm) { NamedInBody(body, k - 1, cur, rm, v); }
  }

  lemma TreeEdge(f: Function, w: Record, p: BlockId, b: BlockId)
    requires TreeOk(f, w) && p in w.tree && b in w.tree && w.tree[b] == w.tree[p] + [b]
    ensures IsPath(f, w.tree[p]) && w.tree[p][|w.tree[p]| - 1] == p && IsEdge(f, p, b)
  {
    PathOf(f, w, p);
    PathOf(f, w, b);
    var t := w.tree[b];
    assert IsEdge(f, t[|t| - 2], t[|t| - 2 + 1]);
  }

  /** A position where a slot has a name is one where the slot may have been stored to. */
  lemma NamedSet(f: Function, phis: PhiTable, w: Record, b: BlockId, k: nat, v: Slot)
    requires Promoted(f, phis, w) && PhisNeeded(f, phis) && b in w.ins && Visited(f, w, b) && k <= |f.blocks[b].body|
    requires v in NamesAfter(f.blocks[b].body, k, w.ins[b], w.rm)
    ensures !UnsetAt(f, b, k, v)
  {
    hide Promoted, PhisNeeded, PathTo, StoresTo;
    NamedInBody(f.blocks[b].body, k, w.ins[b], w.rm, v);
    if v in w.ins[b] { NamedStored(f, phis, w, b, v); }
  }

  lemma {:induction false} RenamedKeeps(body: seq<Instr>, k: nat, n: nat, cur: Names, rm: Replace)
    requires k < n <= |body| && IsSlotLoad(body[k]) && body[k].p.slot !in NamesAfter(body, k, cur, rm)
    ensures body[k] in Renamed(body, n, cur, rm)
  {
    if k < n - 1 { RenamedKeeps(body, k, n - 1, cur, rm); }
  }

  lemma LoadOnce(f: Function, b: BlockId, j: nat, k: nat)
    requires SSA(f) && b in f.blocks && j < |f.blocks[b].body| && k < |f.blocks[b].body|
    requires IsSlotLoad(f.blocks[b].body[j]) && f.blocks[b].body[k] == f.blocks[b].body[j]
    ensures j == k
  {
    assert IsRef(f, BodyRef(b, j)) && IsRef(f, BodyRef(b, k));
    assert RefDefines(f, BodyRef(b, j)) == RefDefines(f, BodyRef(b, k));
  }

  /** The loads of slots that are left are those no store comes before. */
  ghost predicate UnsetLeft(f: Function, g: Function) {
    forall b, k: nat :: Reachable(f, b) && b in f.blocks && k < |f.blocks[b].body| ==> LeftIffUnset(f, g, b, k)
  }

  ghost predicate LeftIffUnset(f: Function, g: Function, b: BlockId, k: nat)
    requires b in f.blocks && k < |f.blocks[b].body|
  {
    var i := f.blocks[b].body[k];
    IsSlotLoad(i) ==> b in g.blocks && (i in g.blocks[b].body <==> UnsetAt(f, b, k, i.p.slot))
  }

  /** A named load is not left, because no other load has its register. */
  lemma NamedGone(f: Function, b: BlockId, k: nat, cur: Names, rm: Replace)
    requires SSA(f) && b in f.blocks && k < |f.blocks[b].body| && IsSlotLoad(f.blocks[b].body[k])
    requires f.blocks[b].body[k] in Renamed(f.blocks[b].body, |f.blocks[b].body|, cur, rm)
    ensures f.blocks[b].body[k].p.slot !in NamesAfter(f.blocks[b].body, k, cur, rm)
  {
    var body := f.blocks[b].body;
    hide *;
    RenamedSlots(body, |body|, cur, rm, body[k]);
    var j :| 0 <= j < |body| && body[j] == body[k] && body[k].p.slot !in NamesAfter(body, j, cur, rm);
    LoadOnce(f, b, j, k);
  }

  lemma LeftInBlock(f: Function, phis: PhiTable, w: Record, b: BlockId, k: nat)
    requires Promoted(f, phis, w) && PhisNeeded(f, phis) && b in w.ins && Visited(f, w, b)
    requires k < |f.blocks[b].body| && IsSlotLoad(f.blocks[b].body[k])
    ensures f.blocks[b].body[k] in Renamed(f.blocks[b].body, |f.blocks[b].body|, w.ins[b], w.rm)
            <==> UnsetAt(f, b, k, f.blocks[b].body[k].p.slot)
  {
    var body := f.blocks[b].body;
    var i := body[k];
    PromotedParts(f, phis, w);
    hide *;
    if i in Renamed(body, |body|, w.ins[b], w.rm) {
      NamedGone(f, b, k, w.ins[b], w.rm);
      UnnamedUnset(f, phis, w, b, k, i.p.slot);
    } else if i.p.slot in NamesAfter(body, k, w.ins[b], w.rm) {
      NamedSet(f, phis, w, b, k, i.p.slot);
    } else {
      RenamedKeeps(body, k, |body|, w.ins[b], w.rm);
      assert false;
    }
  }

  /** A load of a slot is left in a block a run can come to if and only if no path to it stores to the slot. */
  lemma LoadsLeft(f: Function, phis: PhiTable, w: Record, g: Function, adds: map<BlockId, seq<Phi>>)
    requires Promoted(f, phis, w) && PhisNeeded(f, phis) && IsPromotion(f, phis, w, g, adds)
    ensures UnsetLeft(f, g)
  {
    hide Promoted, PhisNeeded, IsPromotion, Reachable, UnsetAt, Renamed;
    forall b, k: nat | Reachable(f, b) && b in f.blocks && k < |f.blocks[b].body| ensures LeftIffUnset(f, g, b, k) {
      if IsSlotLoad(f.blocks[b].body[k]) {
        ReachedVisited(f, phis, w, b);
        PromotedBlock(f, phis, w, g, adds, b);
        LeftInBlock(f, phis, w, b, k);
      }
    }
  }

  /** Arrays and pointers are still declared. */
  ghost predicate ArraysDeclared(f: Function, g: Function) {
    forall b, i :: Reachable(f, b) && b in f.blocks && i in f.blocks[b].body && i.Alloca? && !i.scalar ==>
      b in g.blocks && i in g.blocks[b].body
  }

  lemma {:induction false} RenamedDeclares(body: seq<Instr>, n: nat, cur: Names, rm: Replace, i: Instr)
    requires n <= |body| && i in body[..n] && i.Alloca? && !i.scalar
    ensures i in Renamed(body, n, cur, rm)
  {
    if i in body[..n - 1] {
      RenamedDeclares(body, n - 1, cur, rm, i);
    } else {
      assert body[..n] == body[..n - 1] + [body[n - 1]];
    }
  }

  lemma DeclarationsLeft(f: Function, phis: PhiTable, w: Record, g: Function, adds: map<BlockId, seq<Phi>>)
    requires Promoted(f, phis, w) && IsPromotion(f, phis, w, g, adds)
    ensures ArraysDeclared(f, g)
  {
    hide Promoted, IsPromotion, Reachable, Renamed;
    forall b, i | Reachable(f, b) && b in f.blocks && i in f.blocks[b].body && i.Alloca? && !i.scalar
      ensures b in g.blocks && i in g.blocks[b].body
    {
      ReachedVisited(f, phis, w, b);
      PromotedBlock(f, phis, w, g, adds, b);
      assert f.blocks[b].body[..|f.blocks[b].body|] == f.blocks[b].body;
      RenamedDeclares(f.blocks[b].body, |f.blocks[b].body|, w.ins[b], w.rm, i);
    }
  }

  lemma ReachedVisited(f: Function, phis: PhiTable, w: Record, b: BlockId)
    requires Promoted(f, phis, w) && Reachable(f, b)
    ensures b in w.ins && Visited(f, w, b)
  {
    var p :| PathTo(f, p, b);
    PathVisited(f, phis, w, p);
    PromotedTree(f, phis, w, b);
  }

  /** `int x; return x;`: the declaration of `x` goes and the load of it stays. */
  function UnsetRead(): Function {
    Function(0, map[0 := Block([], [Alloca(0, true), Load(0, Local(0))], Ret(Some(Reg(0))))])
  }

  lemma LoadWithoutAlloca(phis: PhiTable, w: Record, g: Function, adds: map<BlockId, seq<Phi>>)
    requires Promoted(UnsetRead(), phis, w) && IsPromotion(UnsetRead(), phis, w, g, adds)
    ensures HandedOver(UnsetRead()) && 0 in g.blocks && g.blocks[0].body == [Load(0, Local(0))]
  {
    var f := UnsetRead();
    UnsetReadHandedOver();
    hide *;
    EntryUnnamed(f, phis, w);
    PromotedTree(f, phis, w, f.entry);
    PromotedBlock(f, phis, w, g, adds, f.entry);
    UnsetReadRenamed(w.rm);
  }

  lemma UnsetReadRenamed(rm: Replace)
    ensures var f := UnsetRead();
            && f.entry == 0 && 0 in f.blocks
            && Renamed(f.blocks[0].body, |f.blocks[0].body|, map[], rm) == [Load(0, Local(0))]
  {
    var body := UnsetRead().blocks[0].body;
    assert NamesAfter(body, 1, map[], rm) == map[];
    assert Renamed(body, 0, map[], rm) == [];
    assert Renamed(body, 1, map[], rm) == [];
  }

  lemma UnsetReadHandedOver()
    ensures HandedOver(UnsetRead())
  {
    var f := UnsetRead();
    assert forall x :: IsRef(f, x) && RefDefines(f, x).Some? ==> x == BodyRef(0, 1);
    assert forall b, k, r: Reg ::
        b in f.blocks && 0 <= k < |f.blocks[b].body| ==> Reg(r) !in Operands(f.blocks[b].body[k]);
    hide Dom;
  }

  // ----- The pass -----

  /** No register of `f` is `base` or more: new registers start there. */
  ghost predicate Below(f: Function, base: Reg) {
    forall x :: IsRef(f, x) ==>
      && (RefDefines(f, x).Some? ==> RefDefines(f, x).value < base)
      && (forall r: Reg :: Reg(r) in RefOperands(f, x) ==> r < base)
  }

  /** The function a frontend hands to the pass. */
  ghost predicate HandedOver(f: Function) {
    SSA(f) && Promotable(f) && EntryOnly(f) && TargetsExist(f)
  }

  lemma NewPhisFresh(f: Function, phis: PhiTable, base: Reg, next: Reg)
    requires Below(f, base) && FreshPhis(phis, base, next)
    ensures Fresh(f, phis)
  {
    forall k, x | k in phis && IsRef(f, x)
      ensures RefDefines(f, x) != Some(phis[k]) && Reg(phis[k]) !in RefOperands(f, x) {
      assert base <= phis[k];
    }
  }

  lemma PhiHasPred(f: Function, df: Frontiers, phis: PhiTable, k: (BlockId, Slot))
    requires FrontiersExact(f, df) && OnFrontier(df, phis) && k in phis
    ensures exists a :: IsEdge(f, a, k.0)
  {
    var d :| d in df && k.0 in df[d];
    assert InFrontier(f, d, k.0);
  }

  lemma EntryHasNone(f: Function, df: Frontiers, phis: PhiTable)
    requires EntryOnly(f) && FrontiersExact(f, df) && OnFrontier(df, phis)
    ensures forall v: Slot :: (f.entry, v) !in phis
  {
    forall v: Slot ensures (f.entry, v) !in phis {
      if (f.entry, v) in phis {
        PhiHasPred(f, df, phis, (f.entry, v));
      }
    }
  }

  /** What placement and renaming leave is what the theorem asks for. */
  lemma PassPromotes(f: Function, df: Frontiers, phis: PhiTable, base: Reg, next: Reg, w: Record)
    requires SSA(f) && EntryOnly(f) && FrontiersExact(f, df) && Below(f, base)
    requires FreshPhis(phis, base, next) && OnFrontier(df, phis) && forall v: Slot :: PlacedFor(f, df, phis, v)
    requires WalkOk(f, phis, w) && f.entry in w.bodies && forall b :: b in w.bodies ==> Expanded(f, w, b)
    ensures Promoted(f, phis, w)
  {
    hide SSA, EntryOnly, FrontiersExact, Below, FreshPhis, OnFrontier, PlacedFor, WalkOk, Expanded, Fresh,
        FrontierClosed, DefBlocks, PhiBlocks;
    NewPhisFresh(f, phis, base, next);
    EntryHasNone(f, df, phis);
    forall v: Slot ensures FrontierClosed(f, DefBlocks(f, phis, v), PhiBlocks(phis, v)) {
      PlacementCloses(f, df, phis, v);
    }
  }

  lemma FreshDistinct(phis: PhiTable, base: Reg, next: Reg)
    requires FreshPhis(phis, base, next)
    ensures Distinct(phis)
  {
  }

  lemma ListsOneMore(phis: PhiTable, pairs: Pairs, b: BlockId, done: set<Slot>, add: seq<Phi>, v: Slot, p: Phi)
    requires Distinct(phis) && Lists(phis, pairs, b, done, add) && Inserted(phis, pairs, b, v, p) && v !in done
    ensures Lists(phis, pairs, b, done + {v}, add + [p])
  {
    var add' := add + [p];
    forall q | q in add ensures q.dst != p.dst {
      var u :| u in done && Inserted(phis, pairs, b, u, q);
      assert (b, u) != (b, v);
    }
    hide Inserted;
    assert add'[|add|] == p && forall q :: q in add' <==> q in add || q == p;
  }

  /** The inserted phis of one block, with the operands the walk gave them. */
  method PhisOf(phis: PhiTable, pairs: Pairs, b: BlockId) returns (add: seq<Phi>)
    requires Distinct(phis)
    ensures Lists(phis, pairs, b, PhiSlots(phis, b), add)
  {
    add := [];
    var todo := PhiSlots(phis, b);
    ghost var done: set<Slot> := {};
    while todo != {}
      invariant todo <= PhiSlots(phis, b) && done == PhiSlots(phis, b) - todo
      invariant Lists(phis, pairs, b, done, add)
    {
      var v :| v in todo;
      ListsOneMore(phis, pairs, b, done, add, v, Phi(phis[(b, v)], PairsOf(pairs, phis[(b, v)])));
      add := add + [Phi(phis[(b, v)], PairsOf(pairs, phis[(b, v)]))];
      todo, done := todo - {v}, done + {v};
    }
    assert done == PhiSlots(phis, b);
  }

  /** `g` defines the registers of `f`, and others from `base` on. */
  ghost predicate DefinesMore(f: Function, g: Function, base: Reg) {
    forall x, r: Reg :: DefinedAt(g, x, r) ==> r >= base || exists y :: DefinedAt(f, y, r)
  }

  lemma PromotedDefines(f: Function, phis: PhiTable, w: Record, g: Function, adds: map<BlockId, seq<Phi>>, base: Reg,
                        next: Reg)
    requires Promoted(f, phis, w) && IsPromotion(f, phis, w, g, adds) && FreshPhis(phis, base, next)
    ensures DefinesMore(f, g, base)
  {
    hide Promoted, IsPromotion;
    forall x, r: Reg | DefinedAt(g, x, r) ensures r >= base || exists y :: DefinedAt(f, y, r) {
      DefinedBefore(f, phis, w, g, adds, x, r);
      hide DefinedAt;
    }
  }

  ghost predicate AllSlotless(f: Function, g: Function) {
    forall b, i :: Reachable(f, b) && b in g.blocks && i in g.blocks[b].body ==> Slotless(f, b, i)
  }

  lemma PromotedSlotless(f: Function, phis: PhiTable, w: Record, g: Function, adds: map<BlockId, seq<Phi>>)
    requires Promoted(f, phis, w) && IsPromotion(f, phis, w, g, adds)
    ensures AllSlotless(f, g)
  {
    hide Promoted, IsPromotion, Reachable, Slotless;
    forall b, i | Reachable(f, b) && b in g.blocks && i in g.blocks[b].body ensures Slotless(f, b, i) {
      PromotionRemoves(f, phis, w, g, adds, b, i);
    }
  }

  /** `Mem2Reg::run` on one function: phis where the frontiers say, then the renaming walk. */
  method Promote(f: Function, df: Frontiers, base: Reg)
    returns (g: Function, ghost phis: PhiTable, ghost w: Record, ghost adds: map<BlockId, seq<Phi>>)
    requires HandedOver(f) && FrontiersExact(f, df) && Below(f, base)
    ensures Promoted(f, phis, w) && IsPromotion(f, phis, w, g, adds)
    ensures SSA(g) && TargetsExist(g) && EntryOnly(g) && g.blocks.Keys == f.blocks.Keys
    ensures DefinesMore(f, g, base)
    ensures AllSlotless(f, g)
    ensures PhisNeeded(f, phis) && UnsetLeft(f, g) && ArraysDeclared(f, g)
    ensures forall world: Oracle, n: nat, from: BlockId, s: State ::
              (forall v: Slot :: s.slots(v) == None) ==>
                SameSeen(Run(world, f, n, Edge(from, f.entry, s)), Run(world, g, n, Edge(from, g.entry, s)))
  {
    hide *;
    HandedParts(f);
    var phiTable, next := GeneratePhi(f, df, base);
    phis := phiTable;
    FreshDistinct(phis, base, next);
    var helper := new RenameHelper(f, phiTable);
    helper.Run();
    w := helper.Rec();
    RecordIs(helper);
    PassPromotes(f, df, phis, base, next, w);
    g, adds := Assemble(f, phiTable, helper.bodies, helper.pairs);
    AssembledIs(f, phis, w, g, adds);
    LoadsLeft(f, phis, w, g, adds);
    DeclarationsLeft(f, phis, w, g, adds);
    PromotedSSA(f, phis, w, g, adds);
    SameTargets(f, phis, w, g, adds);
    PromotedDefines(f, phis, w, g, adds, base, next);
    PromotedSlotless(f, phis, w, g, adds);
    forall world: Oracle, n: nat, from: BlockId, s: State | forall v: Slot :: s.slots(v) == None
      ensures SameSeen(Run(world, f, n, Edge(from, f.entry, s)), Run(world, g, n, Edge(from, g.entry, s)))
    {
      PromotionPreservesRuns(world, f, phis, w, g, adds, n, from, s);
    }
  }

  lemma HandedParts(f: Function)
    requires HandedOver(f)
    ensures SSA(f) && Promotable(f) && EntryOnly(f) && TargetsExist(f)
  {
  }

  /** The blocks of `g` for the keys in `done`. */
  ghost predicate Assembled(f: Function, phis: PhiTable, bodies: map<BlockId, (seq<Instr>, Term)>, pairs: Pairs,
                            done: set<BlockId>, g: Function, adds: map<BlockId, seq<Phi>>) {
    && g.entry == f.entry && g.blocks.Keys == f.blocks.Keys + done && done <= adds.Keys
    && (forall b :: b in f.blocks && b !in done ==> g.blocks[b] == f.blocks[b])
    && forall b :: b in done && b in bodies && b in f.blocks ==>
         && Lists(phis, pairs, b, PhiSlots(phis, b), adds[b])
         && g.blocks[b] == Block(f.blocks[b].phis + adds[b], bodies[b].0, bodies[b].1)
  }

  lemma AssembledIs(f: Function, phis: PhiTable, w: Record, g: Function, adds: map<BlockId, seq<Phi>>)
    requires Assembled(f, phis, w.bodies, w.pairs, w.bodies.Keys, g, adds)
    ensures IsPromotion(f, phis, w, g, adds)
  {
    hide Lists;
  }

  /** What is made of one block. */
  function Remade(f: Function, b: BlockId, bodies: map<BlockId, (seq<Instr>, Term)>, add: seq<Phi>): Block
    requires b in bodies
  {
    Block((if b in f.blocks then f.blocks[b].phis else []) + add, bodies[b].0, bodies[b].1)
  }

  lemma AssembledMore(f: Function, phis: PhiTable, bodies: map<BlockId, (seq<Instr>, Term)>, pairs: Pairs,
                      done: set<BlockId>,
                      g: Function, adds: map<BlockId, seq<Phi>>, b: BlockId, add: seq<Phi>)
    requires Assembled(f, phis, bodies, pairs, done, g, adds) && b in bodies
             && Lists(phis, pairs, b, PhiSlots(phis, b), add)
    ensures Assembled(f, phis, bodies, pairs, done + {b}, g.(blocks := g.blocks[b := Remade(f, b, bodies, add)]),
              adds[b := add])
  {
    hide Lists;
  }

  method Assemble(f: Function, phis: PhiTable, bodies: map<BlockId, (seq<Instr>, Term)>, pairs: Pairs)
    returns (g: Function, ghost adds: map<BlockId, seq<Phi>>)
    requires Distinct(phis)
    ensures Assembled(f, phis, bodies, pairs, bodies.Keys, g, adds)
  {
    g, adds := f, map[];
    var todo := bodies.Keys;
    ghost var done: set<BlockId> := {};
    assert Assembled(f, phis, bodies, pairs, done, g, adds);
    hide *;
    while todo != {}
      invariant todo <= bodies.Keys && done == bodies.Keys - todo
      invariant Assembled(f, phis, bodies, pairs, done, g, adds)
    {
      var b :| b in todo;
      var add := PhisOf(phis, pairs, b);
      AssembledMore(f, phis, bodies, pairs, done, g, adds, b, add);
      g := g.(blocks := g.blocks[b := Remade(f, b, bodies, add)]);
      adds := adds[b := add];
      todo, done := todo - {b}, done + {b};
    }
    assert done == bodies.Keys;
  }
}
