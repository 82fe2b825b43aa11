/** The depth-first walk over the block graph that renames every reachable block
    (`rename_helper::run`). */
module Mem2RegWalk {
  import opened IR
  import opened Dominance
  import opened Mem2Reg
  import opened Mem2RegRename

  /** What the walk has recorded: the renamed blocks, the replaced loads, the operands of the inserted
      phis, and, for each visited block, the names it was entered with and the path that led to it. */
  datatype Record = Record(
    bodies: map<BlockId, (seq<Instr>, Term)>,
    rm: Replace,
    pairs: Pairs,
    ins: map<BlockId, Names>,
    tree: map<BlockId, seq<BlockId>>)

  ghost predicate Visited(f: Function, w: Record, b: BlockId) {
    b in f.blocks && b in w.ins
  }

  /** The names a visited block ends with. */
  ghost function Out(f: Function, w: Record, b: BlockId): Names
    requires Visited(f, w, b)
  {
    NamesAfter(f.blocks[b].body, |f.blocks[b].body|, w.ins[b], w.rm)
  }

  ghost predicate TreePath(f: Function, w: Record, b: BlockId, t: seq<BlockId>) {
    && PathTo(f, t, b)
    && (|t| > 1 ==> var p := t[|t| - 2]; Visited(f, w, p) && p in w.tree && w.tree[p] == t[..|t| - 1])
    && (forall x :: x in t && x != b ==> Visited(f, w, x))
  }

  ghost predicate TreeOk(f: Function, w: Record) {
    && w.bodies.Keys == w.ins.Keys == w.tree.Keys <= f.blocks.Keys
    && forall b :: b in w.ins ==> TreePath(f, w, b, w.tree[b])
  }

  ghost function EntryNames(f: Function, w: Record, b: BlockId, t: seq<BlockId>): Names
    requires TreePath(f, w, b, t)
  {
    if |t| > 1 then Out(f, w, t[|t| - 2]) else map[]
  }

  ghost predicate InsOk(f: Function, phis: PhiTable, w: Record)
    requires TreeOk(f, w)
  {
    forall b :: b in w.ins ==> w.ins[b] == InNames(phis, b, EntryNames(f, w, b, w.tree[b]))
  }

  ghost predicate BlockOk(f: Function, w: Record, b: BlockId)
    requires Visited(f, w, b) && b in w.bodies
  {
    var body := f.blocks[b].body;
    && w.bodies[b].0 == Renamed(body, |body|, w.ins[b], w.rm)
    && w.bodies[b].1 == RenameTerm(w.rm, f.blocks[b].term)
    && LoadsRecorded(body, |body|, w.ins[b], w.rm)
  }

  ghost predicate BodiesOk(f: Function, w: Record)
    requires TreeOk(f, w)
  {
    forall b :: b in w.ins ==> BlockOk(f, w, b)
  }

  /** Only loads of visited blocks are replaced. */
  ghost predicate KeysOk(f: Function, w: Record) {
    forall r :: r in w.rm ==> exists b :: Visited(f, w, b) && LoadedIn(f.blocks[b].body, |f.blocks[b].body|, r)
  }

  /** The operand block `q` gives to the phi of slot `k.1` in block `k.0`. */
  ghost function Given(f: Function, w: Record, q: BlockId, k: (BlockId, Slot)): Option<Operand> {
    if Visited(f, w, q) && IsEdge(f, q, k.0) && k.1 in Out(f, w, q) then Some(Out(f, w, q)[k.1]) else None
  }

  ghost predicate PairsOk(f: Function, phis: PhiTable, w: Record) {
    forall k, q :: k in phis ==> PhiChoice(PairsOf(w.pairs, phis[k]), q) == Given(f, w, q, k)
  }

  ghost predicate WalkOk(f: Function, phis: PhiTable, w: Record) {
    TreeOk(f, w) && InsOk(f, phis, w) && BodiesOk(f, w) && KeysOk(f, w) && PairsOk(f, phis, w)
  }

  // ----- A visit does not disturb what was recorded -----

  /** `w'` is `w` after the visit of `b`, reached along `t`. */
  ghost predicate VisitOf(f: Function, phis: PhiTable, w: Record, w': Record, b: BlockId, t: seq<BlockId>) {
    && b in f.blocks && b !in w.ins && TreePath(f, w, b, t)
    && w'.ins.Keys == w.ins.Keys + {b} && w'.tree.Keys == w.tree.Keys + {b} && w'.bodies.Keys == w.bodies.Keys + {b}
    && (forall c :: c in w.ins ==> w'.ins[c] == w.ins[c])
    && (forall c :: c in w.tree ==> w'.tree[c] == w.tree[c])
    && (forall c :: c in w.bodies ==> w'.bodies[c] == w.bodies[c])
    && w'.tree[b] == t
    && w'.ins[b] == InNames(phis, b, EntryNames(f, w, b, t))
    && GrownBy(w.rm, w'.rm, f.blocks[b].body, |f.blocks[b].body|)
    && BlockOk(f, w', b)
    && (forall k :: k in phis ==>
          PairsOf(w'.pairs, phis[k]) ==
          PairsOf(w.pairs, phis[k]) +
          (if IsEdge(f, b, k.0) && k.1 in Out(f, w', b) then [(Out(f, w', b)[k.1], b)] else []))
  }

  lemma LoadDefinedAt(f: Function, b: BlockId, r: Reg) returns (x: Ref)
    requires b in f.blocks && LoadedIn(f.blocks[b].body, |f.blocks[b].body|, r)
    ensures DefinedAt(f, x, r) && x.b == b
  {
    var j :| 0 <= j < |f.blocks[b].body| && IsSlotLoad(f.blocks[b].body[j]) && f.blocks[b].body[j].dst == r;
    x := BodyRef(b, j);
  }

  /** A register loaded in a block the walk has not reached yet is not used where it has been. */
  lemma UnusedBefore(f: Function, w: Record, b: BlockId, c: BlockId, r: Reg)
    requires SSA(f) && TreeOk(f, w) && b in f.blocks && b !in w.ins && c in w.ins
    requires LoadedIn(f.blocks[b].body, |f.blocks[b].body|, r)
    ensures Unused(f.blocks[c].body, |f.blocks[c].body|, r) && Reg(r) !in TermOperands(f.blocks[c].term)
  {
    var x := LoadDefinedAt(f, b, r);
    assert !Dom(f, b, c) by {
      assert TreePath(f, w, c, w.tree[c]);
      assert b !in w.tree[c];
    }
    var body := f.blocks[c].body;
    forall j | 0 <= j < |body| ensures Reg(r) !in Operands(body[j]) && Defines(body[j]) != Some(r) {
      assert Reg(r) in Operands(body[j]) ==> Before(f, x, c, j);
      var y := BodyRef(c, j);
      assert IsRef(f, y) && RefDefines(f, y) == Defines(body[j]);
    }
    assert Reg(r) in TermOperands(f.blocks[c].term) ==> Before(f, x, c, |body|);
  }

  lemma OutStable(f: Function, phis: PhiTable, w: Record, w': Record, b: BlockId, t: seq<BlockId>, c: BlockId)
    requires SSA(f) && TreeOk(f, w) && VisitOf(f, phis, w, w', b, t) && c in w.ins
    ensures Visited(f, w, c) && Visited(f, w', c) && Out(f, w', c) == Out(f, w, c)
    ensures BlockOk(f, w, c) ==> BlockOk(f, w', c)
  {
    var body := f.blocks[c].body;
    forall r | r in w'.rm && r !in w.rm
      ensures Unused(body, |body|, r) && Reg(r) !in TermOperands(f.blocks[c].term)
    {
      UnusedBefore(f, w, b, c, r);
    }
    hide SSA, TreeOk, Unused, LoadsRecorded, Renamed, NamesAfter;
    RenamedGrows(body, |body|, w.ins[c], w.rm, w'.rm);
    if BlockOk(f, w, c) {
      LoadsGrow(body, |body|, w.ins[c], w.rm, w'.rm);
      TermGrows(f.blocks[c].term, w.rm, w'.rm);
    }
  }

  lemma TermGrows(t: Term, rm: Replace, rm': Replace)
    requires Grows(rm, rm') && forall r :: r in rm' && r !in rm ==> Reg(r) !in TermOperands(t)
    ensures RenameTerm(rm', t) == RenameTerm(rm, t)
  {
    if t.CondBr? {
      assert t.cond in TermOperands(t);
    } else if t.Ret? && t.result.Some? {
      assert t.result.value in TermOperands(t);
    }
  }

  lemma TreePathKept(f: Function, w: Record, w': Record, c: BlockId, t: seq<BlockId>)
    requires TreePath(f, w, c, t) && w.ins.Keys <= w'.ins.Keys && w.tree.Keys <= w'.tree.Keys
    requires forall x :: x in w.tree ==> w'.tree[x] == w.tree[x]
    ensures TreePath(f, w', c, t)
  {
    hide PathTo;
  }

  lemma TreeKept(f: Function, phis: PhiTable, w: Record, w': Record, b: BlockId, t: seq<BlockId>)
    requires TreeOk(f, w) && VisitOf(f, phis, w, w', b, t)
    ensures TreeOk(f, w')
  {
    hide GrownBy, BlockOk, TreePath;
    forall c | c in w'.ins ensures TreePath(f, w', c, w'.tree[c]) {
      if c != b {
        assert c in w.ins && TreePath(f, w, c, w.tree[c]);
        TreePathKept(f, w, w', c, w.tree[c]);
      } else {
        TreePathKept(f, w, w', b, t);
      }
    }
  }

  lemma InsKept(f: Function, phis: PhiTable, w: Record, w': Record, b: BlockId, t: seq<BlockId>)
    requires SSA(f) && TreeOk(f, w) && TreeOk(f, w') && InsOk(f, phis, w) && VisitOf(f, phis, w, w', b, t)
    ensures InsOk(f, phis, w')
  {
    hide SSA, InNames, NamesAfter;
    forall c | c in w'.ins ensures w'.ins[c] == InNames(phis, c, EntryNames(f, w', c, w'.tree[c])) {
      var tc := w'.tree[c];
      if |tc| > 1 {
        assert TreePath(f, w', c, tc);
        var p := tc[|tc| - 2];
        assert p in w.ins by {
          if c != b { assert TreePath(f, w, c, w.tree[c]); }
        }
        OutStable(f, phis, w, w', b, t, p);
      }
    }
  }

  lemma BodiesKept(f: Function, phis: PhiTable, w: Record, w': Record, b: BlockId, t: seq<BlockId>)
    requires SSA(f) && TreeOk(f, w) && TreeOk(f, w') && BodiesOk(f, w) && VisitOf(f, phis, w, w', b, t)
    ensures BodiesOk(f, w')
  {
    forall c | c in w'.ins ensures BlockOk(f, w', c) {
      if c != b { OutStable(f, phis, w, w', b, t, c); }
    }
  }

  lemma KeysKept(f: Function, phis: PhiTable, w: Record, w': Record, b: BlockId, t: seq<BlockId>)
    requires KeysOk(f, w) && VisitOf(f, phis, w, w', b, t)
    ensures KeysOk(f, w')
  {
    forall r | r in w'.rm ensures exists c :: Visited(f, w', c) && LoadedIn(f.blocks[c].body, |f.blocks[c].body|, r) {
      if r in w.rm {
        var c :| Visited(f, w, c) && LoadedIn(f.blocks[c].body, |f.blocks[c].body|, r);
        assert Visited(f, w', c);
      } else {
        assert Visited(f, w', b);
      }
    }
  }

  lemma {:induction false} ChoiceAppend(ps: seq<(Operand, BlockId)>, o: Operand, b: BlockId, q: BlockId)
    ensures PhiChoice(ps + [(o, b)], q) ==
            if PhiChoice(ps, q).Some? then PhiChoice(ps, q) else if q == b then Some(o) else None
  {
    if ps != [] {
      assert (ps + [(o, b)])[1..] == ps[1..] + [(o, b)];
      ChoiceAppend(ps[1..], o, b, q);
    }
  }

  lemma PairsKept(f: Function, phis: PhiTable, w: Record, w': Record, b: BlockId, t: seq<BlockId>)
    requires SSA(f) && TreeOk(f, w) && PairsOk(f, phis, w) && VisitOf(f, phis, w, w', b, t)
    ensures PairsOk(f, phis, w')
  {
    forall k, q | k in phis ensures PhiChoice(PairsOf(w'.pairs, phis[k]), q) == Given(f, w', q, k) {
      var x := phis[k];
      assert PhiChoice(PairsOf(w.pairs, x), q) == Given(f, w, q, k);
      if q in w.ins { OutStable(f, phis, w, w', b, t, q); }
      assert PairsOf(w.pairs, x) + [] == PairsOf(w.pairs, x);
      if IsEdge(f, b, k.0) && k.1 in Out(f, w', b) {
        ChoiceAppend(PairsOf(w.pairs, x), Out(f, w', b)[k.1], b, q);
      }
    }
  }

  lemma VisitKeeps(f: Function, phis: PhiTable, w: Record, w': Record, b: BlockId, t: seq<BlockId>)
    requires SSA(f) && WalkOk(f, phis, w) && VisitOf(f, phis, w, w', b, t)
    ensures WalkOk(f, phis, w')
  {
    TreeKept(f, phis, w, w', b, t);
    hide *;
    InsKept(f, phis, w, w', b, t);
    BodiesKept(f, phis, w, w', b, t);
    KeysKept(f, phis, w, w', b, t);
    PairsKept(f, phis, w, w', b, t);
  }

  // ----- The walk -----

  lemma TwoDefinitions(f: Function, x: Ref, y: Ref, r: Reg)
    requires SSA(f) && DefinedAt(f, x, r) && DefinedAt(f, y, r)
    ensures x == y
  {
  }

  lemma ReplacedElsewhere(f: Function, w: Record, r: Reg) returns (x: Ref)
    requires KeysOk(f, w) && r in w.rm
    ensures DefinedAt(f, x, r) && x.b in w.ins
  {
    var c :| Visited(f, w, c) && LoadedIn(f.blocks[c].body, |f.blocks[c].body|, r);
    x := LoadDefinedAt(f, c, r);
  }

  /** Nothing loaded in a block to be visited has been replaced yet. */
  lemma NothingLoadedYet(f: Function, w: Record, b: BlockId)
    requires SSA(f) && KeysOk(f, w) && b in f.blocks && b !in w.ins
    ensures NoneDefinedIn(w.rm, f.blocks[b].body)
  {
    var body := f.blocks[b].body;
    hide SSA, KeysOk;
    forall k | 0 <= k < |body| && Defines(body[k]).Some? ensures Defines(body[k]).value !in w.rm {
      var r := Defines(body[k]).value;
      if r in w.rm {
        var x := ReplacedElsewhere(f, w, r);
        TwoDefinitions(f, x, BodyRef(b, k), r);
      }
    }
  }

  class RenameHelper {
    const f: Function
    const phis: PhiTable
    var name_stack: Stacks
    var count_map: seq<Counts>
    var replace_map: Replace
    var pairs: Pairs
    var bodies: map<BlockId, (seq<Instr>, Term)>
    ghost var ins: map<BlockId, Names>
    ghost var tree: map<BlockId, seq<BlockId>>

    constructor (f: Function, phis: PhiTable)
      ensures this.f == f && this.phis == phis
      ensures Idle()
    {
      this.f, this.phis := f, phis;
      name_stack, count_map, replace_map, pairs, bodies := map[], [], map[], map[], map[];
      ins, tree := map[], map[];
    }

    /** Nothing has been visited. */
    ghost predicate Idle()
      reads this
    {
      name_stack == map[] && count_map == [] && Rec() == Record(map[], map[], map[], map[], map[])
    }

    ghost function Rec(): Record
      reads this
    {
      Record(bodies, replace_map, pairs, ins, tree)
    }

    /** `run_inner`: one block, reached along the path `t`. */
    method RunInner(b: BlockId, ghost t: seq<BlockId>)
      requires SSA(f) && Distinct(phis) && WalkOk(f, phis, Rec())
      requires b in f.blocks && b !in bodies && TreePath(f, Rec(), b, t)
      requires Tops(name_stack) == EntryNames(f, Rec(), b, t)
      modifies this
      ensures WalkOk(f, phis, Rec()) && VisitOf(f, phis, old(Rec()), Rec(), b, t)
      ensures Tops(name_stack) == Out(f, Rec(), b)
      ensures |count_map| == |old(count_map)| + 1 && count_map[..|old(count_map)|] == old(count_map)
      ensures Pushed(old(name_stack), name_stack, count_map[|old(count_map)|])
    {
      ghost var w := Rec();
      NothingLoadedYet(f, w, b);
      assert w.bodies.Keys == w.ins.Keys == w.tree.Keys;
      assert w == Record(bodies, replace_map, pairs, ins, tree);
      hide *;
      var cs, out, term;
      ghost var entered := InNames(phis, b, Tops(name_stack));
      name_stack, cs, replace_map, out, term, pairs := RenameBlock(f, phis, b, name_stack, replace_map, pairs);
      count_map := count_map + [cs];
      bodies := bodies[b := (out, term)];
      ins, tree := ins[b := entered], tree[b := t];
      RecordIs(this);
      IsVisit(f, phis, w, Rec(), b, t, name_stack, out);
      VisitKeeps(f, phis, w, Rec(), b, t);
    }

    /** The last block of the path is done: what it pushed is popped, unless it is the entry block. */
    method LeaveBlock(path: seq<BlockId>, ghost its: seq<nat>, ghost snaps: seq<Stacks>)
      requires |path| == |snaps| > 0 && Spine(f, Rec(), path, its) && Stacked(f, Rec(), path, snaps, count_map)
      requires SameStacks(name_stack, snaps[|path| - 1]) && AtEnd(f, path, its)
      modifies this`name_stack, this`count_map
      ensures Rec() == old(Rec())
      ensures Spine(f, Rec(), path[..|path| - 1], its[..|path| - 1])
      ensures Stacked(f, Rec(), path[..|path| - 1], snaps[..|path| - 1], count_map)
      ensures |path| > 1 ==> SameStacks(name_stack, snaps[|path| - 2])
    {
      hide *;
      var n := |path| - 1;
      RecordIs(this);
      ghost var w, ns := Rec(), name_stack;
      SpinePop(f, w, path, its);
      StackedPop(f, w, path, snaps, count_map, ns);
      if n > 0 {
        StackedTop(f, w, path, snaps, count_map);
        var ic := count_map[n];
        name_stack := PopAll(name_stack, ic, snaps[n - 1]);
        count_map := count_map[..n];
      }
      RecordIs(this);
    }

    /** A successor seen for the first time is renamed and becomes the end of the path. */
    method EnterBlock(path: seq<BlockId>, ghost its: seq<nat>, next: BlockId, ghost snaps: seq<Stacks>)
      requires SSA(f) && Distinct(phis) && WalkOk(f, phis, Rec())
      requires path != [] && Spine(f, Rec(), path, its) && Stacked(f, Rec(), path, snaps, count_map)
      requires SameStacks(name_stack, snaps[|path| - 1]) && NextIs(f, path, its, next)
      requires next !in bodies && next in f.blocks
      modifies this
      ensures WalkOk(f, phis, Rec()) && bodies.Keys == old(bodies).Keys + {next}
      ensures Spine(f, Rec(), path + [next], Advance(its) + [0])
      ensures Stacked(f, Rec(), path + [next], snaps + [name_stack], count_map)
    {
      ghost var n, w, ns0, cm0 := |path| - 1, Rec(), name_stack, count_map;
      assert IsEdge(f, path[n], next) && TreeOk(f, w);
      SpineTree(f, phis, w, path, next);
      StackedTop(f, w, path, snaps, count_map);
      hide *;
      SameTops(name_stack, snaps[n]);
      RunInner(next, path + [next]);
      SpineEnter(f, phis, w, Rec(), path, its, next);
      StackedEnter(f, phis, w, Rec(), path, snaps, cm0, count_map, ns0, name_stack, next);
      VisitKeys(f, phis, w, Rec(), next, path + [next]);
    }

    /** The loop of `run`: `path` is the stack of blocks being visited, `its` where each of them is in
        its successor list.  When a block is done, the names it pushed are popped. */
    method Run()
      requires SSA(f) && Distinct(phis) && TargetsExist(f)
      requires Idle()
      modifies this
      ensures WalkOk(f, phis, Rec()) && f.entry in bodies
      ensures forall b :: b in bodies ==> Expanded(f, Rec(), b)
    {
      Begin();
      var path: seq<BlockId>, its: seq<nat> := [f.entry], [0];
      ghost var snaps := [name_stack];
      hide *;
      while path != []
        invariant Walking(path, its, snaps)
        decreases |f.blocks.Keys - bodies.Keys|, |path|, ToLook(f, path, its)
      {
        path, its, snaps := Iterate(path, its, snaps);
      }
      WalkEnds(this, its, snaps);
    }

    /** The entry block, before the loop. */
    method Begin()
      requires SSA(f) && Distinct(phis) && f.entry in f.blocks && Idle()
      modifies this
      ensures Walking([f.entry], [0], [name_stack])
    {
      ghost var w := Rec();
      IdleStarts(this);
      hide *;
      RunInner(f.entry, [f.entry]);
      WalkStarts(f, phis, w, Rec(), name_stack, count_map);
      IsWalking(this, [f.entry], [0], [name_stack]);
    }

    /** What the loop keeps. */
    ghost predicate Walking(path: seq<BlockId>, its: seq<nat>, snaps: seq<Stacks>)
      reads this
    {
      && WalkOk(f, phis, Rec())
      && Spine(f, Rec(), path, its)
      && Stacked(f, Rec(), path, snaps, count_map)
      && |snaps| == |path| == |its|
      && (path != [] ==> path[|path| - 1] in f.blocks && SameStacks(name_stack, snaps[|path| - 1]))
    }

    /** One round of the loop. */
    method Iterate(path0: seq<BlockId>, its0: seq<nat>, ghost snaps0: seq<Stacks>)
      returns (path: seq<BlockId>, its: seq<nat>, ghost snaps: seq<Stacks>)
      requires SSA(f) && Distinct(phis) && TargetsExist(f)
      requires path0 != [] && Walking(path0, its0, snaps0)
      modifies this
      ensures Walking(path, its, snaps)
      ensures var m, m0 := |f.blocks.Keys - bodies.Keys|, old(|f.blocks.Keys - bodies.Keys|);
              m < m0 || (m == m0 && (|path| < |path0|
                  || (|path| == |path0| && ToLook(f, path, its) < ToLook(f, path0, its0))))
    {
      var n := |path0| - 1;
      var succs := Successors(f.blocks[path0[n]].term);
      WalkingTop(this, path0, its0, snaps0);
      if its0[n] == |succs| {
        EndReached(f, path0, its0);
        hide *;
        LeaveBlock(path0, its0, snaps0);
        its, path, snaps := its0[..n], path0[..n], snaps0[..n];
        IsWalking(this, path, its, snaps);
      } else {
        NextExists(f, path0, its0, succs[its0[n]]);
        hide *;
        path, its, snaps := Look(path0, its0, snaps0, succs[its0[n]]);
      }
    }

    /** Looking at one successor of the end of the path. */
    method Look(path0: seq<BlockId>, its0: seq<nat>, ghost snaps0: seq<Stacks>, next: BlockId)
      returns (path: seq<BlockId>, its: seq<nat>, ghost snaps: seq<Stacks>)
      requires SSA(f) && Distinct(phis) && path0 != [] && Walking(path0, its0, snaps0)
      requires NextIs(f, path0, its0, next) && next in f.blocks
      modifies this
      ensures Walking(path, its, snaps)
      ensures var m, m0 := |f.blocks.Keys - bodies.Keys|, old(|f.blocks.Keys - bodies.Keys|);
              m < m0 || (m == m0 && |path| == |path0| && ToLook(f, path, its) < ToLook(f, path0, its0))
    {
      hide *;
      WalkingTop(this, path0, its0, snaps0);
      AdvanceLooks(f, path0, its0, next);
      RecordIs(this);
      if next in bodies {
        SpineStep(f, Rec(), path0, its0, next);
        path, its, snaps := path0, Advance(its0), snaps0;
        IsWalking(this, path, its, snaps);
      } else {
        Fewer(f.blocks.Keys, bodies.Keys, next);
        SameStacksRefl();
        EnterBlock(path0, its0, next, snaps0);
        path, its, snaps := path0 + [next], Advance(its0) + [0], snaps0 + [name_stack];
        IsWalking(this, path, its, snaps);
      }
    }
  }

  lemma WalkingTop(h: RenameHelper, path: seq<BlockId>, its: seq<nat>, snaps: seq<Stacks>)
    requires path != [] && h.Walking(path, its, snaps)
    ensures WalkOk(h.f, h.phis, h.Rec()) && Spine(h.f, h.Rec(), path, its)
            && Stacked(h.f, h.Rec(), path, snaps, h.count_map)
    ensures |snaps| == |path| == |its| && SameStacks(h.name_stack, snaps[|path| - 1])
    ensures path[|path| - 1] in h.f.blocks && its[|path| - 1] <= |Successors(h.f.blocks[path[|path| - 1]].term)|
  {
    SpineTop(h.f, h.Rec(), path, its);
  }

  lemma IsWalking(h: RenameHelper, path: seq<BlockId>, its: seq<nat>, snaps: seq<Stacks>)
    requires WalkOk(h.f, h.phis, h.Rec()) && Spine(h.f, h.Rec(), path, its)
             && Stacked(h.f, h.Rec(), path, snaps, h.count_map)
    requires |snaps| == |path| && (path != [] ==> SameStacks(h.name_stack, snaps[|path| - 1]))
    ensures h.Walking(path, its, snaps)
  {
    if path != [] { SpineTop(h.f, h.Rec(), path, its); }
  }

  lemma EndReached(f: Function, path: seq<BlockId>, its: seq<nat>)
    requires path != [] && |its| == |path| && path[|path| - 1] in f.blocks
    requires its[|path| - 1] == |Successors(f.blocks[path[|path| - 1]].term)|
    ensures AtEnd(f, path, its)
  {
  }

  lemma AdvanceLooks(f: Function, path: seq<BlockId>, its: seq<nat>, next: BlockId)
    requires NextIs(f, path, its, next)
    ensures |Advance(its)| == |path| && ToLook(f, path, Advance(its)) < ToLook(f, path, its)
  {
  }

  /** How many successors the end of the path has left to look at. */
  ghost function ToLook(f: Function, path: seq<BlockId>, its: seq<nat>): nat {
    if path == [] || its == [] || path[|path| - 1] !in f.blocks then 0
    else
      var n := |Successors(f.blocks[path[|path| - 1]].term)|;
      if its[|its| - 1] <= n then n - its[|its| - 1] else 0
  }

  lemma SameStacksRefl()
    ensures forall ns: Stacks :: SameStacks(ns, ns)
  {
  }

  lemma WalkEnds(h: RenameHelper, its: seq<nat>, snaps: seq<Stacks>)
    requires h.Walking([], its, snaps)
    ensures WalkOk(h.f, h.phis, h.Rec()) && h.f.entry in h.bodies
    ensures forall b :: b in h.bodies ==> Expanded(h.f, h.Rec(), b)
  {
  }

  lemma Fewer(all: set<BlockId>, seen: set<BlockId>, next: BlockId)
    requires next in all && next !in seen
    ensures |all - (seen + {next})| < |all - seen|
  {
    assert all - (seen + {next}) == (all - seen) - {next};
  }

  /** Every successor of `b` has been visited. */
  ghost predicate Expanded(f: Function, w: Record, b: BlockId) {
    b in f.blocks && forall x :: x in Successors(f.blocks[b].term) ==> x in w.bodies
  }

  /** `path` is a path of the depth-first tree. */
  ghost predicate OnTree(w: Record, path: seq<BlockId>) {
    forall j :: 0 <= j < |path| ==> path[j] in w.bodies && path[j] in w.tree && w.tree[path[j]] == path[..j + 1]
  }

  /** Every block of `path` is expanded as far as its iterator. */
  ghost predicate Iterated(f: Function, w: Record, path: seq<BlockId>, its: seq<nat>) {
    |its| == |path| && forall j :: 0 <= j < |path| ==> ExpandedTo(f, w, path[j], its[j])
  }

  /** What was visited and is not on `path` is expanded. */
  ghost predicate RestExpanded(f: Function, w: Record, path: seq<BlockId>) {
    forall b :: b in w.bodies && b !in path ==> Expanded(f, w, b)
  }

  ghost predicate Spine(f: Function, w: Record, path: seq<BlockId>, its: seq<nat>) {
    f.entry in w.bodies && OnTree(w, path) && Iterated(f, w, path, its) && RestExpanded(f, w, path)
  }

  /** `next` is the successor the end of `path` looks at. */
  ghost predicate NextIs(f: Function, path: seq<BlockId>, its: seq<nat>, next: BlockId) {
    && path != [] && |its| == |path| && path[|path| - 1] in f.blocks
    && its[|path| - 1] < |Successors(f.blocks[path[|path| - 1]].term)|
    && next == Successors(f.blocks[path[|path| - 1]].term)[its[|path| - 1]]
  }

  /** The end of `path` has no more successors to look at. */
  ghost predicate AtEnd(f: Function, path: seq<BlockId>, its: seq<nat>) {
    && path != [] && |its| == |path| && path[|path| - 1] in f.blocks
    && its[|path| - 1] == |Successors(f.blocks[path[|path| - 1]].term)|
  }

  function Advance(its: seq<nat>): seq<nat>
    requires its != []
  {
    its[..|its| - 1] + [its[|its| - 1] + 1]
  }

  ghost predicate ExpandedTo(f: Function, w: Record, b: BlockId, n: nat) {
    && b in f.blocks && n <= |Successors(f.blocks[b].term)|
    && forall m :: 0 <= m < n ==> Successors(f.blocks[b].term)[m] in w.bodies
  }

  /** The tops of the stacks as they were when each block of the path was done renaming. */
  ghost predicate TopsOk(f: Function, w: Record, path: seq<BlockId>, snaps: seq<Stacks>) {
    |snaps| == |path| && forall j :: 0 <= j < |path| ==> Visited(f, w, path[j]) && Tops(snaps[j]) == Out(f, w, path[j])
  }

  /** Each block of the path pushed what its counts say on top of the stacks of the one before. */
  ghost predicate PushedOk(snaps: seq<Stacks>, counts: seq<Counts>) {
    |counts| == |snaps| && forall j :: 1 <= j < |snaps| ==> Pushed(snaps[j - 1], snaps[j], counts[j])
  }

  ghost predicate Stacked(f: Function, w: Record, path: seq<BlockId>, snaps: seq<Stacks>, counts: seq<Counts>) {
    TopsOk(f, w, path, snaps) && (path != [] ==> PushedOk(snaps, counts))
  }

  lemma OnTreePrefix(w: Record, path: seq<BlockId>, n: nat)
    requires OnTree(w, path) && n <= |path|
    ensures OnTree(w, path[..n])
  {
    forall j | 0 <= j < n ensures w.tree[path[j]] == path[..n][..j + 1] {
      assert path[..n][..j + 1] == path[..j + 1];
    }
  }

  lemma IteratedPrefix(f: Function, w: Record, path: seq<BlockId>, its: seq<nat>, n: nat)
    requires Iterated(f, w, path, its) && n <= |path|
    ensures Iterated(f, w, path[..n], its[..n])
  {
    hide ExpandedTo;
  }

  lemma RestPop(f: Function, w: Record, path: seq<BlockId>, its: seq<nat>)
    requires RestExpanded(f, w, path) && Iterated(f, w, path, its) && AtEnd(f, path, its)
    ensures RestExpanded(f, w, path[..|path| - 1])
  {
    var n := |path| - 1;
    assert ExpandedTo(f, w, path[n], its[n]);
    assert Expanded(f, w, path[n]);
    hide Expanded, ExpandedTo;
    assert path == path[..n] + [path[n]];
  }

  lemma SpinePop(f: Function, w: Record, path: seq<BlockId>, its: seq<nat>)
    requires Spine(f, w, path, its) && AtEnd(f, path, its)
    ensures |its| == |path| > 0 && Spine(f, w, path[..|path| - 1], its[..|path| - 1])
  {
    var n := |path| - 1;
    hide OnTree, RestExpanded, Iterated;
    OnTreePrefix(w, path, n);
    IteratedPrefix(f, w, path, its, n);
    RestPop(f, w, path, its);
  }

  lemma StackedPop(f: Function, w: Record, path: seq<BlockId>, snaps: seq<Stacks>, counts: seq<Counts>, ns: Stacks)
    requires path != [] && Stacked(f, w, path, snaps, counts) && SameStacks(ns, snaps[|path| - 1])
    ensures Stacked(f, w, path[..|path| - 1], snaps[..|path| - 1], counts[..|path| - 1])
    ensures |path| == 1 ==> Stacked(f, w, path[..|path| - 1], snaps[..|path| - 1], counts)
    ensures |path| > 1 ==> Pushed(snaps[|path| - 2], ns, counts[|path| - 1])
  {
    if |path| > 1 {
      var n := |path| - 1;
      forall v: Slot ensures StackOf(ns, v) == StackOf(snaps[n], v) {}
      assert Pushed(snaps[n - 1], snaps[n], counts[n]);
      hide Tops, StackOf;
    }
  }

  lemma SpineStep(f: Function, w: Record, path: seq<BlockId>, its: seq<nat>, next: BlockId)
    requires Spine(f, w, path, its) && NextIs(f, path, its, next) && next in w.bodies
    ensures Spine(f, w, path, Advance(its))
  {
    IteratedStep(f, w, path, its, next);
    hide *;
    SpineAgain(f, w, path, its, Advance(its));
  }

  lemma SpineAgain(f: Function, w: Record, path: seq<BlockId>, its: seq<nat>, its': seq<nat>)
    requires Spine(f, w, path, its) && Iterated(f, w, path, its')
    ensures Spine(f, w, path, its')
  {
    hide OnTree, Iterated, RestExpanded;
  }

  lemma IteratedStep(f: Function, w: Record, path: seq<BlockId>, its: seq<nat>, next: BlockId)
    requires Spine(f, w, path, its) && NextIs(f, path, its, next) && next in w.bodies
    ensures Iterated(f, w, path, Advance(its))
  {
    hide OnTree, RestExpanded;
    forall j | 0 <= j < |path| ensures ExpandedTo(f, w, path[j], Advance(its)[j]) {
      assert ExpandedTo(f, w, path[j], its[j]);
    }
  }

  lemma SpineTree(f: Function, phis: PhiTable, w: Record, path: seq<BlockId>, next: BlockId)
    requires path != [] && OnTree(w, path) && TreeOk(f, w)
    requires IsEdge(f, path[|path| - 1], next)
    ensures TreePath(f, w, next, path + [next])
    ensures EntryNames(f, w, next, path + [next]) == Out(f, w, path[|path| - 1])
  {
    var n := |path| - 1;
    var t := path + [next];
    assert path[..n + 1] == path && w.tree[path[n]] == path;
    assert TreePath(f, w, path[n], path);
    Extend(f, path, path[n], next);
    assert t[..|t| - 1] == path;
    hide OnTree, TreeOk, PathTo, Out;
  }

  lemma StackedTop(f: Function, w: Record, path: seq<BlockId>, snaps: seq<Stacks>, counts: seq<Counts>)
    requires path != [] && Stacked(f, w, path, snaps, counts)
    ensures |snaps| == |counts| == |path|
    ensures Visited(f, w, path[|path| - 1]) && Tops(snaps[|path| - 1]) == Out(f, w, path[|path| - 1])
  {
  }

  lemma OnTreeEnter(w: Record, w': Record, path: seq<BlockId>, next: BlockId)
    requires OnTree(w, path) && w.bodies.Keys <= w'.bodies.Keys && w.tree.Keys <= w'.tree.Keys
    requires forall c :: c in w.tree ==> w'.tree[c] == w.tree[c]
    requires next in w'.bodies && next in w'.tree && w'.tree[next] == path + [next]
    ensures OnTree(w', path + [next])
  {
    var path' := path + [next];
    forall j | 0 <= j < |path'| ensures path'[j] in w'.tree && w'.tree[path'[j]] == path'[..j + 1] {
      if j < |path| { assert path'[..j + 1] == path[..j + 1]; } else { assert path'[..j + 1] == path'; }
    }
  }

  lemma IteratedEnter(f: Function, w: Record, w': Record, path: seq<BlockId>, its: seq<nat>, next: BlockId)
    requires Iterated(f, w, path, its) && NextIs(f, path, its, next) && next in f.blocks
    requires w.bodies.Keys <= w'.bodies.Keys && next in w'.bodies
    ensures Iterated(f, w', path + [next], Advance(its) + [0])
  {
    var path', its' := path + [next], Advance(its) + [0];
    forall j | 0 <= j < |path'| ensures ExpandedTo(f, w', path'[j], its'[j]) {
      if j < |path| { assert ExpandedTo(f, w, path[j], its[j]); }
    }
  }

  lemma RestEnter(f: Function, w: Record, w': Record, path: seq<BlockId>, next: BlockId)
    requires RestExpanded(f, w, path) && w'.bodies.Keys == w.bodies.Keys + {next}
    ensures RestExpanded(f, w', path + [next])
  {
    assert next == (path + [next])[|path|];
    forall b | b in w'.bodies && b !in path + [next] ensures Expanded(f, w', b) {
      assert b in w.bodies.Keys && b !in path;
      assert Expanded(f, w, b);
    }
  }

  lemma SpineEnter(f: Function, phis: PhiTable, w: Record, w': Record, path: seq<BlockId>, its: seq<nat>, next: BlockId)
    requires Spine(f, w, path, its) && VisitOf(f, phis, w, w', next, path + [next]) && NextIs(f, path, its, next)
    ensures Spine(f, w', path + [next], Advance(its) + [0])
  {
    hide BlockOk, GrownBy, TreePath, OnTree, Iterated, RestExpanded, NextIs, Advance;
    OnTreeEnter(w, w', path, next);
    IteratedEnter(f, w, w', path, its, next);
    RestEnter(f, w, w', path, next);
  }

  lemma TopsKept(f: Function, phis: PhiTable, w: Record, w': Record, path: seq<BlockId>, snaps: seq<Stacks>,
                 next: BlockId, ns': Stacks)
    requires SSA(f) && TreeOk(f, w) && VisitOf(f, phis, w, w', next, path + [next]) && TopsOk(f, w, path, snaps)
    requires Visited(f, w', next) && Tops(ns') == Out(f, w', next)
    ensures TopsOk(f, w', path + [next], snaps + [ns'])
  {
    hide SSA, TreeOk, VisitOf, Out, Tops;
    forall j | 0 <= j < |path| ensures Visited(f, w', path[j]) && Tops(snaps[j]) == Out(f, w', path[j]) {
      assert Visited(f, w, path[j]) && Tops(snaps[j]) == Out(f, w, path[j]);
      hide TopsOk;
      OutStable(f, phis, w, w', next, path + [next], path[j]);
    }
  }

  lemma SamePushed(ns: Stacks, ns2: Stacks, ns': Stacks, cs: Counts)
    requires Pushed(ns, ns', cs) && SameStacks(ns, ns2)
    ensures Pushed(ns2, ns', cs)
  {
    forall v: Slot ensures StackOf(ns, v) == StackOf(ns2, v) {}
  }

  lemma PushedChain(snaps: seq<Stacks>, counts: seq<Counts>, counts': seq<Counts>, ns': Stacks)
    requires snaps != [] && PushedOk(snaps, counts)
    requires |counts'| == |counts| + 1 && counts'[..|counts|] == counts
    requires Pushed(snaps[|snaps| - 1], ns', counts'[|counts|])
    ensures PushedOk(snaps + [ns'], counts')
  {
    forall j | 0 <= j < |counts| ensures counts'[j] == counts[j] {
      assert counts'[..|counts|][j] == counts'[j];
    }
    hide Pushed;
  }

  lemma StackedEnter(f: Function, phis: PhiTable, w: Record, w': Record, path: seq<BlockId>, snaps: seq<Stacks>,
                     counts: seq<Counts>, counts': seq<Counts>, ns: Stacks, ns': Stacks, next: BlockId)
    requires SSA(f) && TreeOk(f, w) && |snaps| == |path| > 0 && Stacked(f, w, path, snaps, counts)
    requires VisitOf(f, phis, w, w', next, path + [next]) && SameStacks(ns, snaps[|path| - 1])
    requires |counts'| == |counts| + 1 && counts'[..|counts|] == counts && Pushed(ns, ns', counts'[|counts|])
    requires Visited(f, w', next) && Tops(ns') == Out(f, w', next)
    ensures Stacked(f, w', path + [next], snaps + [ns'], counts')
  {
    TopsKept(f, phis, w, w', path, snaps, next, ns');
    SamePushed(ns, snaps[|path| - 1], ns', counts'[|counts|]);
    hide SSA, TreeOk, VisitOf, Out, Tops, Pushed, SameStacks, Visited, TopsOk, PushedOk;
    PushedChain(snaps, counts, counts', ns');
  }

  lemma StartsOk(f: Function, phis: PhiTable, w: Record)
    requires w == Record(map[], map[], map[], map[], map[]) && f.entry in f.blocks
    ensures WalkOk(f, phis, w) && TreePath(f, w, f.entry, [f.entry])
            && Tops(map[]) == EntryNames(f, w, f.entry, [f.entry])
  {
  }

  lemma IdleStarts(h: RenameHelper)
    requires h.Idle() && h.f.entry in h.f.blocks
    ensures WalkOk(h.f, h.phis, h.Rec()) && TreePath(h.f, h.Rec(), h.f.entry, [h.f.entry])
    ensures h.f.entry !in h.bodies && |h.count_map| == 0 && h.Rec().bodies.Keys == {}
    ensures Tops(h.name_stack) == EntryNames(h.f, h.Rec(), h.f.entry, [h.f.entry])
  {
    StartsOk(h.f, h.phis, h.Rec());
  }

  lemma WalkStarts(f: Function, phis: PhiTable, w: Record, w': Record, ns: Stacks, counts: seq<Counts>)
    requires w.bodies.Keys == {}
    requires VisitOf(f, phis, w, w', f.entry, [f.entry]) && Tops(ns) == Out(f, w', f.entry) && |counts| == 1
    ensures Spine(f, w', [f.entry], [0]) && Stacked(f, w', [f.entry], [ns], counts) && SameStacks(ns, ns)
  {
    assert [f.entry][..1] == [f.entry];
  }

  /** What the loop needs to know about the end of the path. */
  lemma SpineTop(f: Function, w: Record, path: seq<BlockId>, its: seq<nat>)
    requires path != [] && Spine(f, w, path, its)
    ensures |its| == |path| && path[|path| - 1] in f.blocks
            && its[|path| - 1] <= |Successors(f.blocks[path[|path| - 1]].term)|
  {
    assert ExpandedTo(f, w, path[|path| - 1], its[|path| - 1]);
  }

  lemma NextExists(f: Function, path: seq<BlockId>, its: seq<nat>, next: BlockId)
    requires TargetsExist(f) && path != [] && |its| == |path| && path[|path| - 1] in f.blocks
    requires its[|path| - 1] < |Successors(f.blocks[path[|path| - 1]].term)|
    requires next == Successors(f.blocks[path[|path| - 1]].term)[its[|path| - 1]]
    ensures next in f.blocks && NextIs(f, path, its, next)
  {
    assert IsEdge(f, path[|path| - 1], next);
  }

  lemma VisitKeys(f: Function, phis: PhiTable, w: Record, w': Record, b: BlockId, t: seq<BlockId>)
    requires VisitOf(f, phis, w, w', b, t)
    ensures w'.bodies.Keys == w.bodies.Keys + {b}
  {
  }

  lemma RecordIs(h: RenameHelper)
    ensures h.Rec() == Record(h.bodies, h.replace_map, h.pairs, h.ins, h.tree)
  {
  }

  /** Phis, body, terminator and the phis of the successors, in this order. */
  method RenameBlock(f: Function, phis: PhiTable, b: BlockId, ns0: Stacks, rm0: Replace, pm0: Pairs)
    returns (ns: Stacks, cs: Counts, rm: Replace, out: seq<Instr>, term: Term, pm: Pairs)
    requires SSA(f) && Distinct(phis) && b in f.blocks && NoneDefinedIn(rm0, f.blocks[b].body)
    ensures Visiting(f.blocks[b].body, |f.blocks[b].body|, InNames(phis, b, Tops(ns0)), rm0, rm, ns, out)
    ensures Pushed(ns0, ns, cs) && term == RenameTerm(rm, f.blocks[b].term)
    ensures forall k :: k in phis ==>
              PairsOf(pm, phis[k]) ==
              PairsOf(pm0, phis[k]) + (if IsEdge(f, b, k.0) && k.1 in Tops(ns) then [(Tops(ns)[k.1], b)] else [])
  {
    hide *;
    ns, cs := PushPhis(phis, b, ns0);
    ns, cs, rm, out := RenameBody(f, b, ns, cs, rm0, ns0);
    term := RenameTerm(rm, f.blocks[b].term);
    pm := FillSuccessors(f, phis, Tops(ns), b, pm0);
  }

  lemma IsVisit(f: Function, phis: PhiTable, w: Record, w': Record, b: BlockId, t: seq<BlockId>, ns: Stacks,
                out: seq<Instr>)
    requires b in f.blocks && b !in w.ins && TreePath(f, w, b, t)
    requires w.bodies.Keys == w.ins.Keys == w.tree.Keys
    requires Visiting(f.blocks[b].body, |f.blocks[b].body|, InNames(phis, b, EntryNames(f, w, b, t)), w.rm, w'.rm, ns,
               out)
    requires w'.ins == w.ins[b := InNames(phis, b, EntryNames(f, w, b, t))] && w'.tree == w.tree[b := t]
    requires w'.bodies == w.bodies[b := (out, RenameTerm(w'.rm, f.blocks[b].term))]
    requires forall k :: k in phis ==>
               PairsOf(w'.pairs, phis[k]) ==
               PairsOf(w.pairs, phis[k]) + (if IsEdge(f, b, k.0) && k.1 in Tops(ns) then [(Tops(ns)[k.1], b)] else [])
    ensures VisitOf(f, phis, w, w', b, t) && Tops(ns) == Out(f, w', b)
  {
    hide TreePath, EntryNames, InNames, Tops, NamesAfter, Renamed, LoadsRecorded, GrownBy;
    assert Tops(ns) == Out(f, w', b);
  }
}
