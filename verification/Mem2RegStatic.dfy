/** What the recorded names mean on every path: blocks without a phi are entered with the same name
    along all their edges, and a name is always computed before it is used. */
module Mem2RegStatic {
  import opened IR
  import opened Dominance
  import opened Mem2Reg
  import opened Mem2RegRename
  import opened Mem2RegWalk

  function Look(n: Names, v: Slot): Option<Operand> {
    if v in n then Some(n[v]) else None
  }

  /** The registers of the inserted phis occur nowhere in the function. */
  ghost predicate Fresh(f: Function, phis: PhiTable) {
    && Distinct(phis)
    && (forall k, x :: k in phis && IsRef(f, x) ==>
        RefDefines(f, x) != Some(phis[k]) && Reg(phis[k]) !in RefOperands(f, x))
  }

  /** The function is entered from outside only. */
  ghost predicate EntryOnly(f: Function) {
    && f.entry in f.blocks && f.blocks[f.entry].phis == []
    && forall a :: !IsEdge(f, a, f.entry)
  }

  /** Everything the renaming walk and the phi placement establish. */
  ghost predicate Promoted(f: Function, phis: PhiTable, w: Record) {
    && SSA(f) && Fresh(f, phis) && EntryOnly(f)
    && (forall v: Slot :: FrontierClosed(f, DefBlocks(f, phis, v), PhiBlocks(phis, v)))
    && (forall v: Slot :: (f.entry, v) !in phis)
    && WalkOk(f, phis, w) && f.entry in w.bodies
    && (forall b :: b in w.bodies ==> Expanded(f, w, b))
  }

  /** The parts of `Promoted`, by name. */
  lemma PromotedParts(f: Function, phis: PhiTable, w: Record)
    requires Promoted(f, phis, w)
    ensures SSA(f) && Fresh(f, phis) && Distinct(phis) && EntryOnly(f)
    ensures WalkOk(f, phis, w) && TreeOk(f, w) && InsOk(f, phis, w) && BodiesOk(f, w) && KeysOk(f, w)
            && PairsOk(f, phis, w)
    ensures w.bodies.Keys == w.ins.Keys == w.tree.Keys && f.entry in w.ins
  {
    hide SSA, KeysOk, BodiesOk, InsOk, PairsOk;
  }

  // ----- Names along tree paths -----

  lemma {:induction false} NamesUntouched(body: seq<Instr>, k: nat, cur: Names, rm: Replace, v: Slot)
    requires k <= |body| && forall j :: 0 <= j < k && IsSlotStore(body[j]) ==> body[j].p.slot != v
    ensures Look(NamesAfter(body, k, cur, rm), v) == Look(cur, v)
  {
    if k > 0 { NamesUntouched(body, k - 1, cur, rm, v); }
  }

  lemma NotStored(blk: Block, v: Slot)
    requires !StoresTo(blk, v)
    ensures forall j :: 0 <= j < |blk.body| && IsSlotStore(blk.body[j]) ==> blk.body[j].p.slot != v
  {
    forall j | 0 <= j < |blk.body| && IsSlotStore(blk.body[j]) ensures blk.body[j].p != Local(v) {
    }
  }

  /** A block that neither stores to a slot nor has a phi for it passes its name on. */
  lemma PassesOn(f: Function, phis: PhiTable, w: Record, b: BlockId, v: Slot)
    requires TreeOk(f, w) && InsOk(f, phis, w) && b in w.ins && b !in DefBlocks(f, phis, v)
    ensures TreePath(f, w, b, w.tree[b]) && Visited(f, w, b)
    ensures Look(Out(f, w, b), v) == Look(EntryNames(f, w, b, w.tree[b]), v)
  {
    var body := f.blocks[b].body;
    assert TreePath(f, w, b, w.tree[b]);
    NotStored(f.blocks[b], v);
    NamesUntouched(body, |body|, w.ins[b], w.rm, v);
  }

  lemma {:induction false} TreePrefix(f: Function, w: Record, b: BlockId, i: nat)
    requires TreeOk(f, w) && b in w.ins && i < |w.tree[b]|
    ensures w.tree[b][i] in w.ins && w.tree[w.tree[b][i]] == w.tree[b][..i + 1]
    decreases |w.tree[b]| - i
  {
    var t := w.tree[b];
    assert TreePath(f, w, b, t);
    if i == |t| - 1 {
      assert t[..i + 1] == t;
    } else {
      TreeShrinks(f, w, b, i);
    }
  }

  lemma {:induction false} TreeShrinks(f: Function, w: Record, b: BlockId, i: nat)
    requires TreeOk(f, w) && b in w.ins && i < |w.tree[b]| - 1
    ensures w.tree[b][i] in w.ins && w.tree[w.tree[b][i]] == w.tree[b][..i + 1]
    decreases |w.tree[b]|
  {
    var t := w.tree[b];
    assert TreePath(f, w, b, t);
    var p := t[|t| - 2];
    var tp := w.tree[p];
    assert tp == t[..|t| - 1] && tp[i] == t[i] && tp[..i + 1] == t[..i + 1];
    if i == |tp| - 1 {
      assert TreePath(f, w, p, tp);
      assert tp[..i + 1] == tp;
    } else {
      TreeShrinks(f, w, p, i);
    }
  }

  /** The name a visited block ends with is the one given by the last defining block of its tree path. */
  lemma {:induction false} TreeReach(f: Function, phis: PhiTable, w: Record, b: BlockId, v: Slot)
    requires TreeOk(f, w) && InsOk(f, phis, w) && b in w.ins
    ensures var t := w.tree[b];
            var r := LastIn(t, DefBlocks(f, phis, v));
            && (r.None? ==> Look(Out(f, w, b), v) == None)
            && (r.Some? ==> Visited(f, w, t[r.value]) && Look(Out(f, w, b), v) == Look(Out(f, w, t[r.value]), v))
    decreases |w.tree[b]|
  {
    var t, defs := w.tree[b], DefBlocks(f, phis, v);
    assert TreePath(f, w, b, t);
    if b !in defs {
      PassesOn(f, phis, w, b, v);
      if |t| > 1 {
        var p := t[|t| - 2];
        assert w.tree[p] == t[..|t| - 1];
        TreeReach(f, phis, w, p, v);
        assert LastIn(t, defs) == LastIn(w.tree[p], defs);
      } else {
        assert t[..|t| - 1] == [];
      }
    }
  }

  lemma PromotedTree(f: Function, phis: PhiTable, w: Record, b: BlockId)
    requires Promoted(f, phis, w) && b in w.ins
    ensures b in w.tree && Visited(f, w, b) && TreePath(f, w, b, w.tree[b]) && Reachable(f, b)
    ensures w.ins[b] == InNames(phis, b, EntryNames(f, w, b, w.tree[b]))
    ensures |w.tree[b]| == 1 <==> b == f.entry
  {
    var t := w.tree[b];
    assert TreePath(f, w, b, t);
    if |t| > 1 { assert IsEdge(f, t[|t| - 2], b); }
  }

  lemma NoPhiLook(phis: PhiTable, b: BlockId, cur: Names, v: Slot)
    requires (b, v) !in phis
    ensures Look(InNames(phis, b, cur), v) == Look(cur, v)
  {
    assert v !in PhiSlots(phis, b);
  }

  lemma PhiLook(phis: PhiTable, b: BlockId, cur: Names, v: Slot)
    requires (b, v) in phis
    ensures Look(InNames(phis, b, cur), v) == Some(Reg(phis[(b, v)]))
  {
    assert (b, v) in phis.Keys && (b, v).0 == b;
    assert v in PhiSlots(phis, b);
  }

  /** The tree parent of a block. */
  lemma TreeParent(f: Function, phis: PhiTable, w: Record, b: BlockId) returns (p: BlockId)
    requires Promoted(f, phis, w) && b in w.ins && b != f.entry
    ensures p in w.ins && p in w.tree && b in w.tree && Visited(f, w, p) && Visited(f, w, b)
    ensures w.tree[b] == w.tree[p] + [b]
    ensures w.ins[b] == InNames(phis, b, Out(f, w, p))
  {
    PromotedTree(f, phis, w, b);
    hide *;
    var t := w.tree[b];
    p := ParentOf(f, w, b, t);
    EntryFromParent(f, w, b, t);
  }

  lemma ParentOf(f: Function, w: Record, b: BlockId, t: seq<BlockId>) returns (p: BlockId)
    requires TreePath(f, w, b, t) && |t| != 1
    ensures |t| > 1 && p == t[|t| - 2] && p in w.tree && Visited(f, w, p) && p in w.ins && t == w.tree[p] + [b]
  {
    p := t[|t| - 2];
    assert t == t[..|t| - 1] + [b];
  }

  lemma EntryFromParent(f: Function, w: Record, b: BlockId, t: seq<BlockId>)
    requires TreePath(f, w, b, t) && |t| > 1
    ensures Visited(f, w, t[|t| - 2]) && EntryNames(f, w, b, t) == Out(f, w, t[|t| - 2])
  {
  }

  lemma NameFromParent(f: Function, phis: PhiTable, w: Record, b: BlockId, v: Slot) returns (p: BlockId)
    requires Promoted(f, phis, w) && b in w.ins && b != f.entry && (b, v) !in phis
    ensures p in w.ins && p in w.tree && b in w.tree && Visited(f, w, p) && Visited(f, w, b)
            && w.tree[b] == w.tree[p] + [b]
    ensures Look(w.ins[b], v) == Look(Out(f, w, p), v)
  {
    hide *;
    p := TreeParent(f, phis, w, b);
    NoPhiLook(phis, b, Out(f, w, p), v);
  }

  /** What the path lemmas need about two tree paths that meet in `b`. */
  lemma PathsMeet(f: Function, phis: PhiTable, w: Record, q: BlockId, p: BlockId, b: BlockId, v: Slot)
    requires Promoted(f, phis, w) && q in w.tree && p in w.tree && b in w.tree && IsEdge(f, q, b) && (b, v) !in phis
    requires w.tree[b] == w.tree[p] + [b]
    ensures var r, s := LastIn(w.tree[q], DefBlocks(f, phis, v)), LastIn(w.tree[p], DefBlocks(f, phis, v));
            r.Some? == s.Some? && (r.Some? ==> w.tree[q][r.value] == w.tree[p][s.value])
  {
    PathOf(f, w, b);
    PathOf(f, w, q);
    assert FrontierClosed(f, DefBlocks(f, phis, v), PhiBlocks(phis, v));
    Extend(f, w.tree[q], q, b);
    var t1, t2 := w.tree[q] + [b], w.tree[p] + [b];
    assert t1[..|t1| - 1] == w.tree[q] && t2[..|t2| - 1] == w.tree[p];
    hide Promoted, FrontierClosed, PathTo, LastIn, DefBlocks;
    ReachingUnique(f, DefBlocks(f, phis, v), PhiBlocks(phis, v), t1, t2, b);
  }

  /** A block without a phi for a slot is entered with the same name along every edge. */
  lemma SameNameOnEveryEdge(f: Function, phis: PhiTable, w: Record, q: BlockId, b: BlockId, v: Slot)
    requires Promoted(f, phis, w) && q in w.ins && b in w.ins && IsEdge(f, q, b) && (b, v) !in phis
    ensures Visited(f, w, q) && Visited(f, w, b) && Look(Out(f, w, q), v) == Look(w.ins[b], v)
  {
    assert b != f.entry && TreeOk(f, w) && InsOk(f, phis, w) && q in w.tree;
    hide *;
    var p := NameFromParent(f, phis, w, b, v);
    PromotedTree(f, phis, w, q);
    PathsMeet(f, phis, w, q, p, b, v);
    TreeReach(f, phis, w, q, v);
    TreeReach(f, phis, w, p, v);
  }

  lemma PathOf(f: Function, w: Record, b: BlockId)
    requires b in w.tree && TreeOk(f, w)
    ensures PathTo(f, w.tree[b], b)
  {
    assert TreePath(f, w, b, w.tree[b]);
  }

  // ----- Names are computed before they are used -----

  /** `o` is a constant, or its definition comes before position `k` of block `b` on every path; it is
      no replaced load. */
  ghost predicate Avail(f: Function, phis: PhiTable, w: Record, o: Operand, b: BlockId, k: nat) {
    o.Reg? ==>
      && o.r !in w.rm
      && (forall x :: DefinedAt(f, x, o.r) ==> Before(f, x, b, k))
      && (forall key :: key in phis && phis[key] == o.r ==> Dom(f, key.0, b))
  }

  /** `o` is a constant, or its definition lies in a block that strictly dominates `b`. */
  ghost predicate Above(f: Function, phis: PhiTable, w: Record, o: Operand, b: BlockId) {
    o.Reg? ==>
      && o.r !in w.rm
      && (forall x :: DefinedAt(f, x, o.r) ==> StrictDom(f, x.b, b))
      && (forall key :: key in phis && phis[key] == o.r ==> StrictDom(f, key.0, b))
  }

  lemma AboveAvail(f: Function, phis: PhiTable, w: Record, o: Operand, b: BlockId, k: nat)
    requires Above(f, phis, w, o, b)
    ensures Avail(f, phis, w, o, b, k)
  {
  }

  lemma AvailLater(f: Function, phis: PhiTable, w: Record, o: Operand, b: BlockId, j: nat, k: nat)
    requires Avail(f, phis, w, o, b, j) && j <= k
    ensures Avail(f, phis, w, o, b, k)
  {
  }

  lemma StrictAcross(f: Function, a: BlockId, c: BlockId, b: BlockId)
    requires Dom(f, a, c) && StrictDom(f, c, b) && Reachable(f, b)
    ensures StrictDom(f, a, b)
  {
    DomTransitive(f, a, c, b);
    if a == b {
      DomAntisymmetric(f, b, c);
    }
  }

  /** What is available in a strict dominator lies above. */
  lemma AvailAcross(f: Function, phis: PhiTable, w: Record, o: Operand, c: BlockId, k: nat, b: BlockId)
    requires Avail(f, phis, w, o, c, k) && StrictDom(f, c, b) && Reachable(f, b)
    ensures Above(f, phis, w, o, b)
  {
    if o.Reg? {
      forall x | DefinedAt(f, x, o.r) ensures StrictDom(f, x.b, b) {
        assert Before(f, x, c, k);
        DomSelf(f, c);
        StrictAcross(f, x.b, c, b);
      }
      forall key | key in phis && phis[key] == o.r ensures StrictDom(f, key.0, b) {
        StrictAcross(f, key.0, c, b);
      }
    }
  }

  lemma FreshUndefined(f: Function, phis: PhiTable, key: (BlockId, Slot), x: Ref)
    requires Fresh(f, phis) && key in phis
    ensures !DefinedAt(f, x, phis[key])
  {
  }

  lemma PhiUndefined(f: Function, phis: PhiTable, w: Record, key: (BlockId, Slot), x: Ref)
    requires Promoted(f, phis, w) && key in phis
    ensures !DefinedAt(f, x, phis[key]) && phis[key] !in w.rm
  {
    hide *;
    PromotedParts(f, phis, w);
    FreshUndefined(f, phis, key, x);
    if phis[key] in w.rm {
      var y := ReplacedElsewhere(f, w, phis[key]);
      FreshUndefined(f, phis, key, y);
    }
  }

  lemma OwnPhiAvail(f: Function, phis: PhiTable, w: Record, b: BlockId, v: Slot)
    requires Distinct(phis) && (b, v) in phis && phis[(b, v)] !in w.rm && Dom(f, b, b)
    requires forall x :: !DefinedAt(f, x, phis[(b, v)])
    ensures Avail(f, phis, w, Reg(phis[(b, v)]), b, 0)
  {
    hide Dom, DefinedAt;
  }

  /** The name of a phi is available in its block. */
  lemma PhiAvail(f: Function, phis: PhiTable, w: Record, b: BlockId, v: Slot)
    requires Promoted(f, phis, w) && (b, v) in phis
    ensures Avail(f, phis, w, Reg(phis[(b, v)]), b, 0)
  {
    hide *;
    forall x ensures !DefinedAt(f, x, phis[(b, v)]) {
      PhiUndefined(f, phis, w, (b, v), x);
    }
    PhiUndefined(f, phis, w, (b, v), TermRef(b));
    PromotedParts(f, phis, w);
    DomSelf(f, b);
    OwnPhiAvail(f, phis, w, b, v);
  }

  lemma LoadRecorded(body: seq<Instr>, cur: Names, rm: Replace, j: nat)
    requires j < |body| && IsSlotLoad(body[j]) && LoadsRecorded(body, |body|, cur, rm) && body[j].dst in rm
    ensures var n := NamesAfter(body, j, cur, rm);
            body[j].p.slot in n && rm[body[j].dst] == n[body[j].p.slot]
  {
  }

  lemma KeyAt(f: Function, w: Record, r: Reg) returns (c: BlockId, j: nat)
    requires KeysOk(f, w) && r in w.rm
    ensures Visited(f, w, c) && j < |f.blocks[c].body| && IsSlotLoad(f.blocks[c].body[j])
            && f.blocks[c].body[j].dst == r
    ensures DefinedAt(f, BodyRef(c, j), r)
  {
    c :| Visited(f, w, c) && LoadedIn(f.blocks[c].body, |f.blocks[c].body|, r);
    var body := f.blocks[c].body;
    j :| 0 <= j < |body| && IsSlotLoad(body[j]) && body[j].dst == r;
  }

  lemma VisitedBlockOk(f: Function, w: Record, c: BlockId)
    requires TreeOk(f, w) && BodiesOk(f, w) && Visited(f, w, c)
    ensures c in w.ins && c in w.bodies && BlockOk(f, w, c)
    ensures LoadsRecorded(f.blocks[c].body, |f.blocks[c].body|, w.ins[c], w.rm)
  {
    hide TreePath, LoadsRecorded;
  }

  /** A replaced register stands for a name at its load. */
  lemma ReplacedByName(f: Function, phis: PhiTable, w: Record, r: Reg) returns (c: BlockId, j: nat)
    requires Promoted(f, phis, w) && r in w.rm
    ensures c in w.ins && Visited(f, w, c) && j < |f.blocks[c].body|
    ensures IsSlotLoad(f.blocks[c].body[j]) && DefinedAt(f, BodyRef(c, j), r)
    ensures var n := NamesAfter(f.blocks[c].body, j, w.ins[c], w.rm);
            var v := f.blocks[c].body[j].p.slot;
            v in n && w.rm[r] == n[v]
  {
    PromotedParts(f, phis, w);
    hide *;
    c, j := KeyAt(f, w, r);
    VisitedBlockOk(f, w, c);
    LoadRecorded(f.blocks[c].body, w.ins[c], w.rm, j);
  }

  /** Names available at every position of a block up to `k`. */
  ghost predicate NamesAvail(f: Function, phis: PhiTable, w: Record, b: BlockId, k: nat)
    requires Visited(f, w, b) && k <= |f.blocks[b].body|
  {
    forall v :: v in NamesAfter(f.blocks[b].body, k, w.ins[b], w.rm) ==>
      Avail(f, phis, w, NamesAfter(f.blocks[b].body, k, w.ins[b], w.rm)[v], b, k)
  }

  /** The block that gives an entered block the name of a slot. */
  lemma NamedAbove(f: Function, phis: PhiTable, w: Record, b: BlockId, v: Slot) returns (d: BlockId)
    requires Promoted(f, phis, w) && b in w.ins && v in w.ins[b] && (b, v) !in phis && b != f.entry
    ensures b in w.tree && d in w.tree && d in w.ins && |w.tree[d]| < |w.tree[b]|
    ensures Visited(f, w, d) && StrictDom(f, d, b) && Reachable(f, b)
    ensures v in Out(f, w, d) && Out(f, w, d)[v] == w.ins[b][v]
  {
    PromotedTree(f, phis, w, b);
    assert TreeOk(f, w) && InsOk(f, phis, w) && FrontierClosed(f, DefBlocks(f, phis, v), PhiBlocks(phis, v));
    var p := NameFromParent(f, phis, w, b, v);
    TreeReach(f, phis, w, p, v);
    hide Promoted, InsOk, FrontierClosed, Out, DefBlocks, PhiBlocks, StrictDom;
    var tp := w.tree[p];
    var i := LastIn(tp, DefBlocks(f, phis, v)).value;
    d := tp[i];
    PathOf(f, w, b);
    assert w.tree[b][..|w.tree[b]| - 1] == tp && w.tree[b][i] == d;
    ReachingDominates(f, DefBlocks(f, phis, v), PhiBlocks(phis, v), w.tree[b], b, i);
    TreePrefix(f, w, p, i);
  }

  /** A name a block is entered with, other than a phi, comes from a strict dominator. */
  lemma EnteredAbove(f: Function, phis: PhiTable, w: Record, b: BlockId, v: Slot)
    requires Promoted(f, phis, w) && b in w.ins && v in w.ins[b] && (b, v) !in phis
    ensures Above(f, phis, w, w.ins[b][v], b)
    decreases |w.tree[b]|, 0
  {
    if b == f.entry {
      EntryUnnamed(f, phis, w);
    } else {
      hide *;
      var d := NamedAbove(f, phis, w, b, v);
      BlockAvail(f, phis, w, d, |f.blocks[d].body|);
      AvailOut(f, phis, w, d, v);
      AvailAcross(f, phis, w, w.ins[b][v], d, |f.blocks[d].body|, b);
    }
  }

  lemma EntryUnnamed(f: Function, phis: PhiTable, w: Record)
    requires Promoted(f, phis, w)
    ensures f.entry in w.ins && w.ins[f.entry] == map[]
  {
    PromotedTree(f, phis, w, f.entry);
  }

  lemma AvailOut(f: Function, phis: PhiTable, w: Record, d: BlockId, v: Slot)
    requires Visited(f, w, d) && NamesAvail(f, phis, w, d, |f.blocks[d].body|) && v in Out(f, w, d)
    ensures Avail(f, phis, w, Out(f, w, d)[v], d, |f.blocks[d].body|)
  {
  }

  /** What a used operand is renamed to is available where it is used. */
  lemma OperandAvail(f: Function, phis: PhiTable, w: Record, b: BlockId, k: nat, o: Operand)
    requires Promoted(f, phis, w) && b in w.ins && Visited(f, w, b) && k <= |f.blocks[b].body|
    requires if k < |f.blocks[b].body| then o in Operands(f.blocks[b].body[k]) else o in TermOperands(f.blocks[b].term)
    ensures Avail(f, phis, w, Rename(w.rm, o), b, k)
    decreases |w.tree[b]|, 1, k, 1
  {
    ConstAvail(f, phis, w, o, b, k);
    hide Promoted, Avail, SSA, Before, DefinedAt, NamesAfter, WalkOk, Fresh;
    if o.Reg? {
      PromotedParts(f, phis, w);
      if o.r in w.rm {
        var c, j := ReplacedByName(f, phis, w, o.r);
        UseAfterDef(f, b, k, o.r, BodyRef(c, j));
        ReplacedAvail(f, phis, w, b, k, c, j, o.r);
      } else {
        PlainAvail(f, phis, w, b, k, o.r);
      }
    }
  }

  lemma ConstAvail(f: Function, phis: PhiTable, w: Record, o: Operand, b: BlockId, k: nat)
    ensures o.Const? ==> Avail(f, phis, w, o, b, k)
  {
  }

  lemma UseAfterDef(f: Function, b: BlockId, k: nat, r: Reg, x: Ref)
    requires SSA(f) && b in f.blocks && k <= |f.blocks[b].body| && DefinedAt(f, x, r)
    requires if k < |f.blocks[b].body| then Reg(r) in Operands(f.blocks[b].body[k])
             else Reg(r) in TermOperands(f.blocks[b].term)
    ensures Before(f, x, b, k)
  {
  }

  lemma PlainAvail(f: Function, phis: PhiTable, w: Record, b: BlockId, k: nat, r: Reg)
    requires Promoted(f, phis, w) && b in f.blocks && k <= |f.blocks[b].body| && r !in w.rm
    requires if k < |f.blocks[b].body| then Reg(r) in Operands(f.blocks[b].body[k])
             else Reg(r) in TermOperands(f.blocks[b].term)
    ensures Avail(f, phis, w, Reg(r), b, k) && forall key :: key in phis ==> phis[key] != r
  {
    assert SSA(f) && Fresh(f, phis);
    var u := if k < |f.blocks[b].body| then BodyRef(b, k) else TermRef(b);
    assert IsRef(f, u) && Reg(r) in RefOperands(f, u);
    hide Promoted;
    forall x | DefinedAt(f, x, r) ensures Before(f, x, b, k) {
      UseAfterDef(f, b, k, r, x);
    }
    hide SSA;
  }

  lemma ReplacedAvail(f: Function, phis: PhiTable, w: Record, b: BlockId, k: nat, c: BlockId, j: nat, r: Reg)
    requires Promoted(f, phis, w) && b in w.ins && Visited(f, w, b) && k <= |f.blocks[b].body|
    requires c in w.ins && Visited(f, w, c) && j < |f.blocks[c].body| && Before(f, BodyRef(c, j), b, k)
    requires IsSlotLoad(f.blocks[c].body[j]) && r in w.rm
    requires var n := NamesAfter(f.blocks[c].body, j, w.ins[c], w.rm);
             var v := f.blocks[c].body[j].p.slot;
             v in n && w.rm[r] == n[v]
    ensures Avail(f, phis, w, w.rm[r], c, j)
    ensures Avail(f, phis, w, w.rm[r], b, k)
    ensures c != b ==> Above(f, phis, w, w.rm[r], b)
    decreases |w.tree[b]|, 1, k, 0
  {
    if c == b {
      BlockAvail(f, phis, w, b, j);
      AvailLater(f, phis, w, w.rm[r], b, j, k);
    } else {
      DominatorEarlier(f, phis, w, c, b);
      BlockAvail(f, phis, w, c, j);
      AvailAcross(f, phis, w, w.rm[r], c, j, b);
      AboveAvail(f, phis, w, w.rm[r], b, k);
    }
  }

  lemma DominatorEarlier(f: Function, phis: PhiTable, w: Record, c: BlockId, b: BlockId)
    requires Promoted(f, phis, w) && b in w.ins && c in w.ins && StrictDom(f, c, b)
    ensures c in w.tree && b in w.tree && |w.tree[c]| < |w.tree[b]| && Reachable(f, b)
  {
    hide Promoted, TreeOk, SSA, KeysOk, BodiesOk, InsOk, PairsOk, WalkOk, Fresh, EntryOnly;
    PromotedParts(f, phis, w);
    PromotedTree(f, phis, w, b);
    PathOf(f, w, b);
    var i :| 0 <= i < |w.tree[b]| && w.tree[b][i] == c;
    TreePrefix(f, w, b, i);
  }

  /** Every name is available wherever it is current. */
  lemma BlockAvail(f: Function, phis: PhiTable, w: Record, b: BlockId, k: nat)
    requires Promoted(f, phis, w) && b in w.ins && Visited(f, w, b) && k <= |f.blocks[b].body|
    ensures NamesAvail(f, phis, w, b, k)
    decreases |w.tree[b]|, 1, k, 2
  {
    hide Promoted, Avail;
    var body := f.blocks[b].body;
    var n := NamesAfter(body, k, w.ins[b], w.rm);
    if k == 0 {
      forall v | v in n ensures Avail(f, phis, w, n[v], b, 0) {
        EntryAvail(f, phis, w, b, v);
      }
    } else {
      BlockAvail(f, phis, w, b, k - 1);
      var m := NamesAfter(body, k - 1, w.ins[b], w.rm);
      var i := body[k - 1];
      forall v | v in n ensures Avail(f, phis, w, n[v], b, k) {
        if IsSlotStore(i) && i.p.slot == v {
          assert Operands(i)[0] == i.value;
          OperandAvail(f, phis, w, b, k - 1, i.value);
        }
        AvailLater(f, phis, w, n[v], b, k - 1, k);
      }
    }
  }

  lemma EntryAvail(f: Function, phis: PhiTable, w: Record, b: BlockId, v: Slot)
    requires Promoted(f, phis, w) && b in w.ins && v in w.ins[b]
    ensures Avail(f, phis, w, w.ins[b][v], b, 0)
    decreases |w.tree[b]|, 1, 0, 0
  {
    if (b, v) in phis {
      PromotedTree(f, phis, w, b);
      PhiLook(phis, b, EntryNames(f, w, b, w.tree[b]), v);
      PhiAvail(f, phis, w, b, v);
    } else {
      EnteredAbove(f, phis, w, b, v);
      AboveAvail(f, phis, w, w.ins[b][v], b, 0);
    }
  }
}
