/** Promotion keeps static single assignment form: the passes that follow get a function of the kind promotion
    got, with the same edges between its blocks. */
module Mem2RegSsa {
  import opened IR
  import opened Dominance
  import opened Mem2Reg
  import opened Mem2RegRename
  import opened Mem2RegWalk
  import opened Mem2RegStatic
  import opened Mem2RegSim

  // ----- The graph stays -----

  lemma RenameTermKeeps(rm: Replace, t: Term)
    ensures Successors(RenameTerm(rm, t)) == Successors(t)
  {
  }

  /** A visited block after the pass. */
  lemma VisitedAfter(f: Function, phis: PhiTable, w: Record, g: Function, adds: map<BlockId, seq<Phi>>, b: BlockId)
    requires Promoted(f, phis, w) && IsPromotion(f, phis, w, g, adds) && b in w.ins
    ensures Visited(f, w, b) && b in g.blocks && b in adds && ListsPhis(phis, w, b, adds[b])
    ensures g.blocks[b] == Block(f.blocks[b].phis + adds[b],
                                 Renamed(f.blocks[b].body, |f.blocks[b].body|, w.ins[b], w.rm),
                                     RenameTerm(w.rm, f.blocks[b].term))
  {
    PromotedParts(f, phis, w);
    VisitedBlockOk(f, w, b);
    hide Promoted, TreeOk, ListsPhis, LoadsRecorded;
  }

  /** Any other block after the pass. */
  lemma OtherAfter(f: Function, phis: PhiTable, w: Record, g: Function, adds: map<BlockId, seq<Phi>>)
    requires Promoted(f, phis, w) && IsPromotion(f, phis, w, g, adds)
    ensures g.blocks.Keys == f.blocks.Keys && g.entry == f.entry && w.ins.Keys <= f.blocks.Keys
    ensures forall b :: b in f.blocks && b !in w.ins ==> g.blocks[b] == f.blocks[b]
  {
    hide *;
    PromotedParts(f, phis, w);
    VisitedInside(f, w);
    OtherIs(f, phis, w, g, adds);
  }

  lemma VisitedInside(f: Function, w: Record)
    requires TreeOk(f, w)
    ensures w.bodies.Keys == w.ins.Keys <= f.blocks.Keys
  {
  }

  lemma OtherIs(f: Function, phis: PhiTable, w: Record, g: Function, adds: map<BlockId, seq<Phi>>)
    requires IsPromotion(f, phis, w, g, adds)
    ensures g.blocks.Keys == f.blocks.Keys + w.bodies.Keys && g.entry == f.entry
    ensures forall b :: b in f.blocks && b !in w.bodies ==> g.blocks[b] == f.blocks[b]
  {
    hide ListsPhis;
  }

  lemma SameTargets(f: Function, phis: PhiTable, w: Record, g: Function, adds: map<BlockId, seq<Phi>>)
    requires Promoted(f, phis, w) && IsPromotion(f, phis, w, g, adds)
    ensures g.blocks.Keys == f.blocks.Keys && g.entry == f.entry
    ensures forall b :: b in f.blocks ==> Successors(g.blocks[b].term) == Successors(f.blocks[b].term)
  {
    hide *;
    OtherAfter(f, phis, w, g, adds);
    forall b | b in f.blocks ensures Successors(g.blocks[b].term) == Successors(f.blocks[b].term) {
      if b in w.ins {
        VisitedAfter(f, phis, w, g, adds, b);
        RenameTermKeeps(w.rm, f.blocks[b].term);
      }
    }
  }

  lemma SamePaths(f: Function, g: Function)
    requires g.blocks.Keys == f.blocks.Keys && g.entry == f.entry
    requires forall b :: b in f.blocks ==> Successors(g.blocks[b].term) == Successors(f.blocks[b].term)
    ensures forall p, b :: PathTo(g, p, b) <==> PathTo(f, p, b)
    ensures forall a, b :: Dom(f, a, b) ==> Dom(g, a, b)
    ensures TargetsExist(f) ==> TargetsExist(g)
  {
    assert forall a, b :: IsEdge(g, a, b) <==> IsEdge(f, a, b);
    hide IsEdge;
    assert forall p :: IsPath(g, p) <==> IsPath(f, p);
    hide IsPath;
  }

  // ----- Where the instructions come from -----

  /** The positions, among the first `k`, of the instructions that are kept. */
  ghost function Origins(body: seq<Instr>, k: nat, cur: Names, rm: Replace): seq<nat>
    requires k <= |body|
  {
    if k == 0 then []
    else
      Origins(body, k - 1, cur, rm)
      + if NewInstr(body[k - 1], NamesAfter(body, k - 1, cur, rm), rm) == [] then [] else [k - 1]
  }

  /** `out` is made of the instructions at the positions `os`, which are in order. */
  ghost predicate ComesFrom(body: seq<Instr>, k: nat, cur: Names, rm: Replace, out: seq<Instr>, os: seq<nat>)
    requires k <= |body|
  {
    && |os| == |out|
    && (forall j :: 0 <= j < |os| ==>
        os[j] < k && NewInstr(body[os[j]], NamesAfter(body, os[j], cur, rm), rm) == [out[j]])
    && (forall i, j :: 0 <= i < j < |os| ==> os[i] < os[j])
  }

  lemma {:induction false} OriginsAre(body: seq<Instr>, k: nat, cur: Names, rm: Replace)
    requires k <= |body|
    ensures ComesFrom(body, k, cur, rm, Renamed(body, k, cur, rm), Origins(body, k, cur, rm))
  {
    if k > 0 {
      OriginsAre(body, k - 1, cur, rm);
      var made := NewInstr(body[k - 1], NamesAfter(body, k - 1, cur, rm), rm);
      assert |made| <= 1;
      assert made != [] ==> made == [made[0]];
      hide NewInstr, NamesAfter;
    }
  }

  /** The place in `f` of what is at `x` after the pass. */
  ghost function At(f: Function, w: Record, x: Ref): Ref {
    if x.BodyRef? && Visited(f, w, x.b) then
      var os := Origins(f.blocks[x.b].body, |f.blocks[x.b].body|, w.ins[x.b], w.rm);
      if x.k < |os| then BodyRef(x.b, os[x.k]) else BodyRef(x.b, |f.blocks[x.b].body|)
    else x
  }

  /** `x` is the place of an inserted phi with register `r`. */
  ghost predicate NewPhiAt(f: Function, phis: PhiTable, x: Ref, r: Reg) {
    x.PhiRef? && x.b in f.blocks && x.k >= |f.blocks[x.b].phis| && exists v :: (x.b, v) in phis && phis[(x.b, v)] == r
  }

  lemma NewInstrDefines(i: Instr, cur: Names, rm: Replace, i': Instr)
    requires NewInstr(i, cur, rm) == [i']
    ensures Defines(i') == Defines(i)
  {
  }

  lemma OneFrom(body: seq<Instr>, cur: Names, rm: Replace, j: nat)
    requires j < |Renamed(body, |body|, cur, rm)|
    ensures var os, out := Origins(body, |body|, cur, rm), Renamed(body, |body|, cur, rm);
            |os| == |out| && os[j] < |body| && NewInstr(body[os[j]], NamesAfter(body, os[j], cur, rm), rm) == [out[j]]
  {
    OriginsAre(body, |body|, cur, rm);
    hide Renamed, Origins, NewInstr, NamesAfter;
  }

  lemma AddedPhi(phis: PhiTable, w: Record, b: BlockId, add: seq<Phi>, k: nat)
    requires ListsPhis(phis, w, b, add) && k < |add|
    ensures exists v :: (b, v) in phis && phis[(b, v)] == add[k].dst
  {
    assert add[k] in add;
  }

  /** What defines a register after the pass is an inserted phi or what defined it before. */
  lemma DefinedBefore(f: Function, phis: PhiTable, w: Record, g: Function, adds: map<BlockId, seq<Phi>>, x: Ref, r: Reg)
    requires Promoted(f, phis, w) && IsPromotion(f, phis, w, g, adds) && DefinedAt(g, x, r)
    ensures x.b in f.blocks && (NewPhiAt(f, phis, x, r) || DefinedAt(f, At(f, w, x), r))
  {
    hide Promoted, IsPromotion, ListsPhis, Renamed, Origins, NewInstr, NamesAfter, RenameTerm;
    OtherAfter(f, phis, w, g, adds);
    if x.b in w.ins {
      VisitedAfter(f, phis, w, g, adds, x.b);
      var blk := f.blocks[x.b];
      if x.BodyRef? {
        OneFrom(blk.body, w.ins[x.b], w.rm, x.k);
        var o := Origins(blk.body, |blk.body|, w.ins[x.b], w.rm)[x.k];
        NewInstrDefines(blk.body[o], NamesAfter(blk.body, o, w.ins[x.b], w.rm), w.rm, g.blocks[x.b].body[x.k]);
      } else if x.k >= |blk.phis| {
        AddedPhi(phis, w, x.b, adds[x.b], x.k - |blk.phis|);
      }
    }
  }

  lemma AtOrdered(f: Function, phis: PhiTable, w: Record, g: Function, adds: map<BlockId, seq<Phi>>, b: BlockId,
                  i: nat, j: nat)
    requires Promoted(f, phis, w) && IsPromotion(f, phis, w, g, adds) && b in g.blocks && i < j <= |g.blocks[b].body|
    requires b in w.ins
    ensures At(f, w, BodyRef(b, i)).BodyRef? && At(f, w, BodyRef(b, j)).BodyRef?
    ensures At(f, w, BodyRef(b, i)).k < At(f, w, BodyRef(b, j)).k
  {
    hide Promoted, IsPromotion, ListsPhis, Renamed, Origins, NewInstr, NamesAfter, RenameTerm;
    VisitedAfter(f, phis, w, g, adds, b);
    OriginsAre(f.blocks[b].body, |f.blocks[b].body|, w.ins[b], w.rm);
  }

  lemma AtSame(f: Function, w: Record, x: Ref)
    ensures At(f, w, x).b == x.b && At(f, w, x).BodyRef? == x.BodyRef? && (!x.BodyRef? ==> At(f, w, x) == x)
    ensures !Visited(f, w, x.b) ==> At(f, w, x) == x
  {
  }

  // ----- One definition -----

  lemma SamePhi(f: Function, phis: PhiTable, w: Record, g: Function, adds: map<BlockId, seq<Phi>>, x: Ref, y: Ref,
                r: Reg)
    requires Promoted(f, phis, w) && IsPromotion(f, phis, w, g, adds)
    requires DefinedAt(g, x, r) && DefinedAt(g, y, r) && NewPhiAt(f, phis, x, r) && NewPhiAt(f, phis, y, r)
    ensures x == y
  {
    PromotedParts(f, phis, w);
    OtherAfter(f, phis, w, g, adds);
    hide Promoted, IsPromotion, WalkOk, TreeOk, InsOk, BodiesOk, KeysOk, PairsOk, SSA, EntryOnly, Fresh;
    var u :| (x.b, u) in phis && phis[(x.b, u)] == r;
    var v :| (y.b, v) in phis && phis[(y.b, v)] == r;
    assert (x.b, u) == (y.b, v);
    if x.b in w.ins {
      VisitedAfter(f, phis, w, g, adds, x.b);
    }
  }

  lemma NotBoth(f: Function, phis: PhiTable, x: Ref, y: Ref, r: Reg)
    requires Fresh(f, phis) && NewPhiAt(f, phis, x, r)
    ensures !DefinedAt(f, y, r)
  {
    var v :| (x.b, v) in phis && phis[(x.b, v)] == r;
    FreshUndefined(f, phis, (x.b, v), y);
  }

  lemma OneDefinition(f: Function, phis: PhiTable, w: Record, g: Function, adds: map<BlockId, seq<Phi>>, x: Ref,
                      y: Ref, r: Reg)
    requires Promoted(f, phis, w) && IsPromotion(f, phis, w, g, adds) && DefinedAt(g, x, r) && DefinedAt(g, y, r)
    ensures x == y
  {
    hide *;
    PromotedParts(f, phis, w);
    DefinedBefore(f, phis, w, g, adds, x, r);
    DefinedBefore(f, phis, w, g, adds, y, r);
    if NewPhiAt(f, phis, x, r) {
      NotBoth(f, phis, x, At(f, w, y), r);
      SamePhi(f, phis, w, g, adds, x, y, r);
    } else {
      if NewPhiAt(f, phis, y, r) { NotBoth(f, phis, y, At(f, w, x), r); }
      TwoDefinitions(f, At(f, w, x), At(f, w, y), r);
      SamePlace(f, phis, w, g, adds, x, y, r);
    }
  }

  lemma SamePlace(f: Function, phis: PhiTable, w: Record, g: Function, adds: map<BlockId, seq<Phi>>, x: Ref, y: Ref,
                  r: Reg)
    requires Promoted(f, phis, w) && IsPromotion(f, phis, w, g, adds) && DefinedAt(g, x, r) && DefinedAt(g, y, r)
    requires At(f, w, x) == At(f, w, y)
    ensures x == y
  {
    AtSame(f, w, x);
    AtSame(f, w, y);
    hide Promoted, IsPromotion, At;
    OtherAfter(f, phis, w, g, adds);
    if x.BodyRef? && x.b in w.ins && x.k != y.k {
      if x.k < y.k { AtOrdered(f, phis, w, g, adds, x.b, x.k, y.k); }
          else { AtOrdered(f, phis, w, g, adds, x.b, y.k, x.k); }
    }
  }

  // ----- Definitions before uses -----

  /** A register that is available at a place of `f` is defined before what has become of that place. */
  lemma AvailBefore(f: Function, phis: PhiTable, w: Record, g: Function, adds: map<BlockId, seq<Phi>>,
                    b: BlockId, k: nat, r: Reg, x: Ref)
    requires Promoted(f, phis, w) && IsPromotion(f, phis, w, g, adds) && b in w.ins && b in g.blocks
             && k <= |g.blocks[b].body|
    requires At(f, w, BodyRef(b, k)).BodyRef? && Avail(f, phis, w, Reg(r), b, At(f, w, BodyRef(b, k)).k)
             && DefinedAt(g, x, r)
    ensures Before(g, x, b, k)
  {
    hide Promoted, IsPromotion, At, Dom;
    DefinedBefore(f, phis, w, g, adds, x, r);
    SameTargets(f, phis, w, g, adds);
    SamePaths(f, g);
    AtSame(f, w, x);
    if !NewPhiAt(f, phis, x, r) {
      assert Before(f, At(f, w, x), b, At(f, w, BodyRef(b, k)).k);
      if x.b == b && x.BodyRef? && x.k >= k {
        if x.k > k { AtOrdered(f, phis, w, g, adds, b, k, x.k); }
        assert false;
      }
    } else {
      var v :| (x.b, v) in phis && phis[(x.b, v)] == r;
    }
  }

  /** An operand of a kept instruction is a renamed operand of the instruction it comes from. */
  lemma OperandFrom(i: Instr, cur: Names, rm: Replace, i': Instr, o: Operand)
    requires NewInstr(i, cur, rm) == [i'] && o in Operands(i')
    requires i.Load? ==> forall a :: a in Operands(i) ==> Rename(rm, a) == a
    ensures exists o' :: o' in Operands(i) && Rename(rm, o') == o
  {
    var os := Operands(i);
    var j :| 0 <= j < |Operands(i')| && Operands(i')[j] == o;
    assert os[j] in os && Rename(rm, os[j]) == o;
  }

  lemma NotAnAddress(f: Function, x: Ref, b: BlockId, k: nat, r: Reg)
    requires Promotable(f) && DefinedAt(f, x, r) && x.BodyRef? && IsSlotLoad(f.blocks[x.b].body[x.k])
    requires b in f.blocks && k < |f.blocks[b].body| && f.blocks[b].body[k].Load?
    ensures Reg(r) !in Operands(f.blocks[b].body[k])
  {
    var y := BodyRef(b, k);
    assert IsRef(f, y) && RefOperands(f, y) == Operands(f.blocks[b].body[k]);
  }

  /** The address of a load is not replaced. */
  lemma AddressKept(f: Function, phis: PhiTable, w: Record, b: BlockId, k: nat, a: Operand)
    requires Promoted(f, phis, w) && Promotable(f) && b in f.blocks && k < |f.blocks[b].body|
    requires f.blocks[b].body[k].Load? && a in Operands(f.blocks[b].body[k])
    ensures Rename(w.rm, a) == a
  {
    if a.Reg? && a.r in w.rm {
      PromotedParts(f, phis, w);
      hide Promoted, Promotable, SSA, WalkOk, TreeOk, InsOk, BodiesOk, KeysOk, PairsOk;
      var c, j := KeyAt(f, w, a.r);
      NotAnAddress(f, BodyRef(c, j), b, k, a.r);
    }
  }

  lemma TermOperandFrom(t: Term, rm: Replace, o: Operand)
    requires o in TermOperands(RenameTerm(rm, t))
    ensures exists o' :: o' in TermOperands(t) && Rename(rm, o') == o
  {
    assert TermOperands(t)[0] in TermOperands(t);
    assert Rename(rm, TermOperands(t)[0]) == o;
  }

  /** The register is used at the place after the pass. */
  ghost predicate UsesAt(g: Function, b: BlockId, k: nat, r: Reg) {
    && b in g.blocks && k <= |g.blocks[b].body|
    && (if k < |g.blocks[b].body| then Reg(r) in Operands(g.blocks[b].body[k])
        else Reg(r) in TermOperands(g.blocks[b].term))
  }

  /** What is used after the pass stands for something used in the same place before. */
  lemma UsedBefore(f: Function, phis: PhiTable, w: Record, g: Function, adds: map<BlockId, seq<Phi>>, b: BlockId,
                   k: nat, r: Reg)
    returns (o: Operand)
    requires Promoted(f, phis, w) && Promotable(f) && IsPromotion(f, phis, w, g, adds) && b in w.ins
             && UsesAt(g, b, k, r)
    ensures At(f, w, BodyRef(b, k)).BodyRef? && UsedAt(f, b, At(f, w, BodyRef(b, k)).k, o) && Rename(w.rm, o) == Reg(r)
  {
    hide Promoted, Promotable, IsPromotion, ListsPhis, Renamed, Origins, NewInstr, NamesAfter, RenameTerm, Rename,
        Operands, TermOperands;
    VisitedAfter(f, phis, w, g, adds, b);
    var body, cur := f.blocks[b].body, w.ins[b];
    var os := Origins(body, |body|, cur, w.rm);
    OriginsAre(body, |body|, cur, w.rm);
    if k < |os| {
      OneFrom(body, cur, w.rm, k);
      var i := body[os[k]];
      forall a | i.Load? && a in Operands(i) ensures Rename(w.rm, a) == a {
        AddressKept(f, phis, w, b, os[k], a);
      }
      OperandFrom(i, NamesAfter(body, os[k], cur, w.rm), w.rm, g.blocks[b].body[k], Reg(r));
      o :| o in Operands(i) && Rename(w.rm, o) == Reg(r);
    } else {
      TermOperandFrom(f.blocks[b].term, w.rm, Reg(r));
      o :| o in TermOperands(f.blocks[b].term) && Rename(w.rm, o) == Reg(r);
    }
  }

  lemma VisitedUse(f: Function, phis: PhiTable, w: Record, g: Function, adds: map<BlockId, seq<Phi>>,
                   b: BlockId, k: nat, r: Reg, x: Ref)
    requires Promoted(f, phis, w) && Promotable(f) && IsPromotion(f, phis, w, g, adds)
    requires b in w.ins && UsesAt(g, b, k, r) && DefinedAt(g, x, r)
    ensures Before(g, x, b, k)
  {
    hide *;
    var o := UsedBefore(f, phis, w, g, adds, b, k, r);
    VisitedAfter(f, phis, w, g, adds, b);
    UsedParts(f, b, At(f, w, BodyRef(b, k)).k, o);
    OperandAvail(f, phis, w, b, At(f, w, BodyRef(b, k)).k, o);
    UsesParts(g, b, k, r);
    AvailBefore(f, phis, w, g, adds, b, k, r, x);
  }

  lemma UsedParts(f: Function, b: BlockId, k: nat, o: Operand)
    requires UsedAt(f, b, k, o)
    ensures b in f.blocks && k <= |f.blocks[b].body|
    ensures if k < |f.blocks[b].body| then o in Operands(f.blocks[b].body[k]) else o in TermOperands(f.blocks[b].term)
  {
  }

  lemma UsesParts(g: Function, b: BlockId, k: nat, r: Reg)
    requires UsesAt(g, b, k, r)
    ensures b in g.blocks && k <= |g.blocks[b].body|
  {
  }

  /** A block the walk did not come to uses no inserted phi and is as it was. */
  lemma OtherUse(f: Function, phis: PhiTable, w: Record, g: Function, adds: map<BlockId, seq<Phi>>,
                 b: BlockId, k: nat, r: Reg, x: Ref)
    requires Promoted(f, phis, w) && IsPromotion(f, phis, w, g, adds)
    requires b !in w.ins && UsesAt(g, b, k, r) && DefinedAt(g, x, r)
    ensures Before(g, x, b, k)
  {
    PromotedParts(f, phis, w);
    OtherAfter(f, phis, w, g, adds);
    DefinedBefore(f, phis, w, g, adds, x, r);
    SameTargets(f, phis, w, g, adds);
    SamePaths(f, g);
    AtSame(f, w, x);
    hide Promoted, IsPromotion, WalkOk, TreeOk, InsOk, BodiesOk, KeysOk, PairsOk, SSA, EntryOnly, At, Dom;
    if NewPhiAt(f, phis, x, r) {
      NotNewPhi(f, phis, b, k, r);
      assert false;
    } else {
      UsedAfterDef(f, b, k, r, At(f, w, x));
    }
  }

  lemma IsSsa(g: Function)
    requires forall x, y, r :: DefinedAt(g, x, r) && DefinedAt(g, y, r) ==> x == y
    requires forall b, k, r, x :: UsesAt(g, b, k, r) && DefinedAt(g, x, r) ==> Before(g, x, b, k)
    ensures SSA(g)
  {
    hide Before;
    forall x, y | IsRef(g, x) && IsRef(g, y) && RefDefines(g, x).Some? && RefDefines(g, x) == RefDefines(g, y)
      ensures x == y {
      var r := RefDefines(g, x).value;
      assert DefinedAt(g, x, r) && DefinedAt(g, y, r);
    }
    forall b, k, r: Reg, x | b in g.blocks && 0 <= k < |g.blocks[b].body| && Reg(r) in Operands(g.blocks[b].body[k])
        && DefinedAt(g, x, r)
      ensures Before(g, x, b, k)
    {
      assert UsesAt(g, b, k, r);
    }
    forall b, r: Reg, x | b in g.blocks && Reg(r) in TermOperands(g.blocks[b].term) && DefinedAt(g, x, r)
      ensures Before(g, x, b, |g.blocks[b].body|)
    {
      assert UsesAt(g, b, |g.blocks[b].body|, r);
    }
  }

  /** No new phi goes to the entry block. */
  lemma StillEntered(f: Function, phis: PhiTable, w: Record, g: Function, adds: map<BlockId, seq<Phi>>)
    requires Promoted(f, phis, w) && IsPromotion(f, phis, w, g, adds)
    ensures EntryOnly(g)
  {
    hide *;
    EntryFacts(f, phis, w);
    VisitedAfter(f, phis, w, g, adds, f.entry);
    SameTargets(f, phis, w, g, adds);
    if adds[f.entry] != [] { AddedPhi(phis, w, f.entry, adds[f.entry], 0); }
    EnteredAlike(f, g);
  }

  lemma EntryFacts(f: Function, phis: PhiTable, w: Record)
    requires Promoted(f, phis, w)
    ensures EntryOnly(f) && f.entry in f.blocks && f.blocks[f.entry].phis == [] && f.entry in w.ins
    ensures forall v: Slot :: (f.entry, v) !in phis
  {
    PromotedParts(f, phis, w);
  }

  lemma EnteredAlike(f: Function, g: Function)
    requires EntryOnly(f) && g.entry == f.entry && g.blocks.Keys == f.blocks.Keys && f.entry in f.blocks
    requires forall b :: b in f.blocks ==> Successors(g.blocks[b].term) == Successors(f.blocks[b].term)
    requires g.blocks[f.entry].phis == []
    ensures EntryOnly(g)
  {
    assert forall a :: IsEdge(g, a, f.entry) <==> IsEdge(f, a, f.entry);
  }

  /** The promoted function is in static single assignment form, and its terminators lead to blocks of it. */
  lemma PromotedSSA(f: Function, phis: PhiTable, w: Record, g: Function, adds: map<BlockId, seq<Phi>>)
    requires Promoted(f, phis, w) && Promotable(f) && TargetsExist(f) && IsPromotion(f, phis, w, g, adds)
    ensures SSA(g) && TargetsExist(g) && EntryOnly(g)
  {
    hide *;
    StillEntered(f, phis, w, g, adds);
    SameTargets(f, phis, w, g, adds);
    SamePaths(f, g);
    forall x, y, r | DefinedAt(g, x, r) && DefinedAt(g, y, r) ensures x == y {
      OneDefinition(f, phis, w, g, adds, x, y, r);
    }
    forall b, k, r, x | UsesAt(g, b, k, r) && DefinedAt(g, x, r) ensures Before(g, x, b, k) {
      if b in w.ins {
        VisitedUse(f, phis, w, g, adds, b, k, r, x);
      } else {
        OtherUse(f, phis, w, g, adds, b, k, r, x);
      }
    }
    IsSsa(g);
  }
}
