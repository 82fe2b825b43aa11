/** Promoting stack slots to registers: phi placement on dominance frontiers, then a depth-first
    renaming walk over the block graph with one stack of names per slot (`Mem2Reg::generate_phi`,
    `rename_helper::run`, `run_inner`). */
module Mem2Reg {
  import opened IR
  import opened Dominance

  // ----- What the pass is given -----

  type Frontiers = map<BlockId, set<BlockId>>

  /** The dominance frontiers the pass asks its dominator analysis for. */
  ghost predicate FrontiersExact(f: Function, df: Frontiers) {
    && df.Keys == f.blocks.Keys
    && (forall a :: a in df ==> df[a] <= f.blocks.Keys)
    && (forall a, b :: a in df ==> (b in df[a] <==> InFrontier(f, a, b)))
  }

  predicate StoresTo(blk: Block, v: Slot) {
    exists k :: 0 <= k < |blk.body| && blk.body[k].Store? && blk.body[k].p == Local(v)
  }

  function StoredSlots(f: Function): set<Slot> {
    set b, k | b in f.blocks.Keys && 0 <= k < |f.blocks[b].body| && f.blocks[b].body[k].Store?
        && f.blocks[b].body[k].p.Local?
      :: f.blocks[b].body[k].p.slot
  }

  // ----- Phi placement -----

  /** The phis inserted, by block and slot: `phi_lval` the other way round. */
  type PhiTable = map<(BlockId, Slot), Reg>

  /** Every inserted phi is a new register of its own. */
  ghost predicate FreshPhis(phis: PhiTable, base: Reg, next: Reg) {
    && (forall k :: k in phis ==> base <= phis[k] < next)
    && (forall k, l :: k in phis && l in phis && phis[k] == phis[l] ==> k == l)
  }

  /** The blocks that define `v`, by a store or by an inserted phi. */
  ghost function DefBlocks(f: Function, phis: PhiTable, v: Slot): iset<BlockId> {
    iset b | (b in f.blocks && StoresTo(f.blocks[b], v)) || (b, v) in phis
  }

  ghost function PhiBlocks(phis: PhiTable, v: Slot): iset<BlockId> {
    iset b | (b, v) in phis
  }

  ghost predicate PlacedFor(f: Function, df: Frontiers, phis: PhiTable, v: Slot) {
    forall d, y :: d in DefBlocks(f, phis, v) && d in df && y in df[d] ==> (y, v) in phis
  }

  /** Only blocks on some frontier get a phi. */
  ghost predicate OnFrontier(df: Frontiers, phis: PhiTable) {
    forall k :: k in phis ==> exists d :: d in df && k.0 in df[d]
  }

  /** On some way to block `b` a block before it stores to `v`. */
  ghost predicate StoredOnWay(f: Function, b: BlockId, v: Slot) {
    exists p, i :: PathTo(f, p, b) && 0 <= i < |p| - 1 && p[i] in f.blocks && StoresTo(f.blocks[p[i]], v)
  }

  /** Only slots that may have been stored to get a phi. */
  ghost predicate PhisNeeded(f: Function, phis: PhiTable) {
    forall k :: k in phis ==> StoredOnWay(f, k.0, k.1)
  }

  /** Block `b` may end with slot `v` stored to. */
  ghost predicate MayHold(f: Function, b: BlockId, v: Slot) {
    (b in f.blocks && StoresTo(f.blocks[b], v)) || StoredOnWay(f, b, v)
  }

  ghost predicate AllMayHold(f: Function, work: seq<BlockId>, v: Slot) {
    forall d :: d in work ==> MayHold(f, d, v)
  }

  lemma StoredBefore(f: Function, p: seq<BlockId>, d: BlockId, j: nat, y: BlockId, v: Slot)
    requires IsPath(f, p) && j < |p| && p[j] == d && IsEdge(f, p[|p| - 1], y) && MayHold(f, d, v)
    ensures StoredOnWay(f, y, v)
  {
    hide StoresTo;
    if d in f.blocks && StoresTo(f.blocks[d], v) {
      Extend(f, p, p[|p| - 1], y);
      assert (p + [y])[j] == d;
    } else {
      var q, i :| PathTo(f, q, d) && 0 <= i < |q| - 1 && q[i] in f.blocks && StoresTo(f.blocks[q[i]], v);
      Splice(f, q, |q| - 1, p, j);
      var r := q[..|q| - 1] + p[j..];
      Extend(f, r, p[|p| - 1], y);
      assert (r + [y])[i] == q[i];
    }
  }

  /** The frontier of a block that may hold a stored value: the value may have been stored on the way there. */
  lemma FrontierNeeds(f: Function, d: BlockId, y: BlockId, v: Slot)
    requires InFrontier(f, d, y) && MayHold(f, d, v)
    ensures StoredOnWay(f, y, v)
  {
    hide MayHold, StoredOnWay;
    var q :| Reachable(f, q) && IsEdge(f, q, y) && Dom(f, d, q);
    var p :| PathTo(f, p, q);
    var j :| 0 <= j < |p| && p[j] == d;
    StoredBefore(f, p, d, j, y, v);
  }

  /** What one frontier adds to the table and to the worklist is needed. */
  lemma FrontierPhisNeeded(f: Function, df: Frontiers, d: BlockId, v: Slot, phis: PhiTable, phis': PhiTable,
                           work: seq<BlockId>, work': seq<BlockId>)
    requires FrontiersExact(f, df) && MayHold(f, d, v) && PhisNeeded(f, phis) && AllMayHold(f, work, v)
    requires OnlyFor(phis, phis', v) && OnlyAt(df, d, phis, phis', work, work')
    ensures PhisNeeded(f, phis') && AllMayHold(f, work', v)
  {
    forall y | y in df[d] ensures StoredOnWay(f, y, v) {
      FrontierNeeds(f, d, y, v);
    }
    hide StoredOnWay, InFrontier;
  }

  /** What is new in the table and in the worklist is for blocks in the frontier of `d`. */
  ghost predicate OnlyAt(df: Frontiers, d: BlockId, phis: PhiTable, phis': PhiTable, work: seq<BlockId>,
                         work': seq<BlockId>) {
    && d in df
    && (forall k :: k in phis' && k !in phis ==> k.0 in df[d])
    && (forall x :: x in work' && x !in work ==> x in df[d])
  }

  lemma PlacementCloses(f: Function, df: Frontiers, phis: PhiTable, v: Slot)
    requires FrontiersExact(f, df) && PlacedFor(f, df, phis, v) && OnFrontier(df, phis)
    ensures FrontierClosed(f, DefBlocks(f, phis, v), PhiBlocks(phis, v))
  {
    forall k | k in phis ensures k.0 in f.blocks {
      var d :| d in df && k.0 in df[d];
    }
  }

  /** What the worklist for one slot keeps: everything that defines the slot is on it, and the
      frontiers of its first `i` entries have their phis. */
  ghost predicate Placing(f: Function, df: Frontiers, phis: PhiTable, v: Slot, work: seq<BlockId>, i: nat) {
    && i <= |work|
    && (forall d :: d in DefBlocks(f, phis, v) ==> d in work)
    && (forall j, y :: 0 <= j < i && work[j] in df && y in df[work[j]] ==> (y, v) in phis)
    && (forall d :: d in work ==> d in df)
  }

  function Missing(f: Function, phis: PhiTable, v: Slot): set<BlockId> {
    set b | b in f.blocks.Keys && (b, v) !in phis
  }

  /** The phis `phis'` has more than `phis` are all for `v`. */
  ghost predicate OnlyFor(phis: PhiTable, phis': PhiTable, v: Slot) {
    && phis.Keys <= phis'.Keys
    && (forall k :: k in phis ==> phis'[k] == phis[k])
    && (forall k :: k in phis' && k !in phis ==> k.1 == v)
  }

  /** What the loop over one frontier keeps; `todo` is what is left of the frontier. */
  ghost predicate PlacingFrontier(df: Frontiers, d: BlockId, v: Slot, todo: set<BlockId>,
                                  phis0: PhiTable, phis: PhiTable, work0: seq<BlockId>, work: seq<BlockId>,
                                  base: Reg, next: Reg)
  {
    && d in df && todo <= df[d]
    && base <= next && FreshPhis(phis, base, next) && OnFrontier(df, phis) && OnlyFor(phis0, phis, v)
    && (forall y :: y in df[d] && y !in todo ==> (y, v) in phis)
    && work0 <= work && (forall x :: x in work ==> x in df)
    && (forall y :: (y, v) in phis && (y, v) !in phis0 ==> y in work)
    && (phis.Keys == phis0.Keys ==> work == work0)
    && OnlyAt(df, d, phis0, phis, work0, work)
  }

  lemma PhiAdded(df: Frontiers, d: BlockId, y: BlockId, v: Slot, phis0: PhiTable, phis: PhiTable, base: Reg, next: Reg)
    requires d in df && y in df[d] && (y, v) !in phis && base <= next
    requires FreshPhis(phis, base, next) && OnFrontier(df, phis) && OnlyFor(phis0, phis, v)
    ensures var phis' := phis[(y, v) := next];
            && FreshPhis(phis', base, next + 1) && OnFrontier(df, phis') && OnlyFor(phis0, phis', v)
            && phis'.Keys != phis0.Keys
  {
    assert (y, v) !in phis0;
  }

  lemma PlacingOne(df: Frontiers, d: BlockId, y: BlockId, v: Slot, todo: set<BlockId>,
                   phis0: PhiTable, phis: PhiTable, work0: seq<BlockId>, work: seq<BlockId>, base: Reg, next: Reg)
    requires PlacingFrontier(df, d, v, todo, phis0, phis, work0, work, base, next)
    requires y in todo && y in df && (y, v) !in phis
    ensures PlacingFrontier(df, d, v, todo - {y}, phis0, phis[(y, v) := next], work0, work + [y], base, next + 1)
  {
    PhiAdded(df, d, y, v, phis0, phis, base, next);
    hide FreshPhis, OnFrontier, OnlyFor;
  }

  lemma PlacingSkip(df: Frontiers, d: BlockId, y: BlockId, v: Slot, todo: set<BlockId>,
                    phis0: PhiTable, phis: PhiTable, work0: seq<BlockId>, work: seq<BlockId>, base: Reg, next: Reg)
    requires PlacingFrontier(df, d, v, todo, phis0, phis, work0, work, base, next)
    requires y in todo && (y, v) in phis
    ensures PlacingFrontier(df, d, v, todo - {y}, phis0, phis, work0, work, base, next)
  {
    hide FreshPhis, OnFrontier, OnlyFor;
  }

  /** The frontier of one block: a phi and a worklist entry for every block that has none yet. */
  method PlaceFrontier(df: Frontiers, d: BlockId, v: Slot, phis0: PhiTable, work0: seq<BlockId>, ghost base: Reg,
                       next0: Reg)
    returns (phis: PhiTable, work: seq<BlockId>, next: Reg)
    requires d in df && forall y :: y in df[d] ==> y in df
    requires base <= next0 && FreshPhis(phis0, base, next0) && OnFrontier(df, phis0)
    requires forall x :: x in work0 ==> x in df
    ensures next0 <= next && PlacingFrontier(df, d, v, {}, phis0, phis, work0, work, base, next)
  {
    phis, work, next := phis0, work0, next0;
    var todo := df[d];
    assert OnlyFor(phis0, phis, v);
    assert PlacingFrontier(df, d, v, todo, phis0, phis, work0, work, base, next);
    hide PlacingFrontier, FreshPhis, OnFrontier;
    while todo != {}
      invariant todo <= df[d] && next0 <= next
      invariant PlacingFrontier(df, d, v, todo, phis0, phis, work0, work, base, next)
    {
      var y :| y in todo;
      if (y, v) !in phis {
        PlacingOne(df, d, y, v, todo, phis0, phis, work0, work, base, next);
        phis := phis[(y, v) := next];
        next := next + 1;
        work := work + [y];
      } else {
        PlacingSkip(df, d, y, v, todo, phis0, phis, work0, work, base, next);
      }
      todo := todo - {y};
    }
  }

  lemma PlacingStep(f: Function, df: Frontiers, phis: PhiTable, phis': PhiTable, v: Slot,
                    work: seq<BlockId>, work': seq<BlockId>, i: nat)
    requires Placing(f, df, phis, v, work, i) && i < |work|
    requires work <= work' && OnlyFor(phis, phis', v)
    requires work[i] in df && forall y :: y in df[work[i]] ==> (y, v) in phis'
    requires forall x :: x in work' ==> x in df
    requires forall y :: (y, v) in phis' && (y, v) !in phis ==> y in work'
    ensures Placing(f, df, phis', v, work', i + 1)
  {
    assert forall x :: x in work ==> x in work' by {
      forall x | x in work ensures x in work' {
        var k :| 0 <= k < |work| && work[k] == x;
        assert work'[..|work|][k] == x;
      }
    }
    assert forall j :: 0 <= j < |work| ==> work'[j] == work[j] by {
      assert work'[..|work|] == work;
    }
  }

  lemma PlacingShrinks(f: Function, df: Frontiers, phis: PhiTable, phis': PhiTable, v: Slot)
    requires FrontiersExact(f, df) && OnFrontier(df, phis') && OnlyFor(phis, phis', v)
    ensures |Missing(f, phis', v)| < |Missing(f, phis, v)| || phis'.Keys == phis.Keys
    ensures phis'.Keys == phis.Keys ==> Missing(f, phis', v) == Missing(f, phis, v)
  {
    if k: (BlockId, Slot) :| k in phis'.Keys && k !in phis.Keys {
      var d :| d in df && k.0 in df[d];
      OneLessMissing(f, phis, phis', v, k);
    } else {
      assert phis'.Keys == phis.Keys;
    }
  }

  lemma OneLessMissing(f: Function, phis: PhiTable, phis': PhiTable, v: Slot, k: (BlockId, Slot))
    requires OnlyFor(phis, phis', v) && k in phis' && k !in phis && k.0 in f.blocks
    ensures |Missing(f, phis', v)| < |Missing(f, phis, v)|
  {
    assert k == (k.0, v);
    assert k.0 in Missing(f, phis, v) && k.0 !in Missing(f, phis', v);
    Subset(Missing(f, phis', v), Missing(f, phis, v) - {k.0});
  }

  lemma Subset<T>(a: set<T>, b: set<T>)
    requires a <= b
    ensures |a| <= |b|
  {
    assert b == a + (b - a);
  }

  /** The worklist of one slot. */
  method PlaceFor(f: Function, df: Frontiers, v: Slot, phis0: PhiTable, base: Reg, next0: Reg)
    returns (phis: PhiTable, next: Reg)
    requires FrontiersExact(f, df) && base <= next0 && FreshPhis(phis0, base, next0) && OnFrontier(df, phis0)
    requires PhisNeeded(f, phis0) && forall k :: k in phis0 ==> k.1 != v
    ensures next0 <= next && FreshPhis(phis, base, next) && OnFrontier(df, phis) && OnlyFor(phis0, phis, v)
    ensures PlacedFor(f, df, phis, v) && PhisNeeded(f, phis)
  {
    phis, next := phis0, next0;
    var work: seq<BlockId> := InOrder(set b: BlockId | b in f.blocks.Keys && StoresTo(f.blocks[b], v));
    var i := 0;
    while i < |work|
      invariant next0 <= next && FreshPhis(phis, base, next) && OnFrontier(df, phis) && OnlyFor(phis0, phis, v)
      invariant Placing(f, df, phis, v, work, i) && PhisNeeded(f, phis) && AllMayHold(f, work, v)
      decreases |Missing(f, phis, v)|, |work| - i
    {
      ghost var phis1, work1 := phis, work;
      assert work[i] in df && forall y :: y in df[work[i]] ==> y in df;
      hide FreshPhis, OnFrontier, OnlyFor, Missing, FrontiersExact, PhisNeeded, MayHold, OnlyAt, Placing;
      phis, work, next := PlaceFrontier(df, work[i], v, phis, work, base, next);
      PlacingStep(f, df, phis1, phis, v, work1, work, i);
      FrontierPhisNeeded(f, df, work1[i], v, phis1, phis, work1, work);
      PlacingShrinks(f, df, phis1, phis, v);
      OnlyForChain(phis0, phis1, phis, v);
      i := i + 1;
    }
    PlacingDone(f, df, phis, v, work);
  }

  lemma OnlyForChain(phis0: PhiTable, phis1: PhiTable, phis2: PhiTable, v: Slot)
    requires OnlyFor(phis0, phis1, v) && OnlyFor(phis1, phis2, v)
    ensures OnlyFor(phis0, phis2, v)
  {
  }

  lemma PlacingDone(f: Function, df: Frontiers, phis: PhiTable, v: Slot, work: seq<BlockId>)
    requires Placing(f, df, phis, v, work, |work|)
    ensures PlacedFor(f, df, phis, v)
  {
    forall d, y | d in DefBlocks(f, phis, v) && d in df && y in df[d] ensures (y, v) in phis {
      assert d in work;
      var j :| 0 <= j < |work| && work[j] == d;
    }
  }

  /** Some list of the elements of a set. */
  method InOrder<T(==)>(s: set<T>) returns (xs: seq<T>)
    ensures forall x :: x in xs <==> x in s
  {
    var todo := s;
    xs := [];
    while todo != {}
      invariant todo <= s && forall x :: x in xs <==> x in s - todo
    {
      var x :| x in todo;
      xs := xs + [x];
      todo := todo - {x};
    }
  }

  /** `generate_phi`. */
  method GeneratePhi(f: Function, df: Frontiers, base: Reg) returns (phis: PhiTable, next: Reg)
    requires FrontiersExact(f, df)
    ensures base <= next && FreshPhis(phis, base, next) && OnFrontier(df, phis)
    ensures PhisNeeded(f, phis) && forall v :: PlacedFor(f, df, phis, v)
  {
    phis, next := map[], base;
    var todo := StoredSlots(f);
    ghost var done: set<Slot> := {};
    while todo != {}
      invariant done == StoredSlots(f) - todo && todo <= StoredSlots(f)
      invariant base <= next && FreshPhis(phis, base, next) && OnFrontier(df, phis)
      invariant PhisNeeded(f, phis) && forall k :: k in phis ==> k.1 in done
      invariant forall v :: v in done ==> PlacedFor(f, df, phis, v)
    {
      var v :| v in todo;
      ghost var phis0 := phis;
      phis, next := PlaceFor(f, df, v, phis, base, next);
      forall u | u in done ensures PlacedFor(f, df, phis, u) { PlacedUntouched(f, df, phis0, phis, v, u); }
      todo, done := todo - {v}, done + {v};
    }
    forall v | v !in StoredSlots(f) ensures PlacedFor(f, df, phis, v) {
      NeverStored(f, df, phis, v);
    }
  }

  lemma PlacedUntouched(f: Function, df: Frontiers, phis: PhiTable, phis': PhiTable, v: Slot, u: Slot)
    requires u != v && OnlyFor(phis, phis', v) && PlacedFor(f, df, phis, u)
    ensures PlacedFor(f, df, phis', u)
  {
    assert DefBlocks(f, phis', u) == DefBlocks(f, phis, u);
  }

  lemma NeverStored(f: Function, df: Frontiers, phis: PhiTable, v: Slot)
    requires v !in StoredSlots(f) && forall k :: k in phis ==> k.1 in StoredSlots(f)
    ensures PlacedFor(f, df, phis, v)
  {
  }
}
