/** Dividing the phis of a block between the new block in front and the block itself. */
module PhiSplit {
  import opened IR
  import opened PhiForm
  import opened BlockSplit

  // ----- The two maps of a phi -----

  /** `std::map::emplace` keeps the entry that is there, so the pairs are taken from the front. */
  method CollectPairs(ps: seq<(Operand, BlockId)>, keep: set<BlockId>)
    returns (selfPhiMap: map<BlockId, Operand>, bbPhiMap: map<BlockId, Operand>)
    ensures forall b :: b in selfPhiMap <==> b in keep && PhiChoice(ps, b).Some?
    ensures forall b :: b in selfPhiMap ==> selfPhiMap[b] == PhiChoice(ps, b).value
    ensures forall b :: b in bbPhiMap <==> b !in keep && PhiChoice(ps, b).Some?
    ensures forall b :: b in bbPhiMap ==> bbPhiMap[b] == PhiChoice(ps, b).value
  {
    selfPhiMap, bbPhiMap := map[], map[];
    for k := 0 to |ps|
      invariant forall b :: b in selfPhiMap <==> b in keep && PhiChoice(ps[..k], b).Some?
      invariant forall b :: b in selfPhiMap ==> selfPhiMap[b] == PhiChoice(ps[..k], b).value
      invariant forall b :: b in bbPhiMap <==> b !in keep && PhiChoice(ps[..k], b).Some?
      invariant forall b :: b in bbPhiMap ==> bbPhiMap[b] == PhiChoice(ps[..k], b).value
    {
      var (i, j) := ps[k];
      forall b ensures PhiChoice(ps[..k + 1], b)
                       == if PhiChoice(ps[..k], b).Some? then PhiChoice(ps[..k], b) else if b == j then Some(i)
                           else None
      {
        assert ps[..k + 1] == ps[..k] + [ps[k]];
        ChoiceAppend(ps[..k], ps[k], b);
      }
      if j in keep {
        if j !in selfPhiMap { selfPhiMap := selfPhiMap[j := i]; }
      } else {
        if j !in bbPhiMap { bbPhiMap := bbPhiMap[j := i]; }
      }
    }
    assert ps[..|ps|] == ps;
  }

  lemma {:induction false} ChoiceAppend(ps: seq<(Operand, BlockId)>, p: (Operand, BlockId), b: BlockId)
    ensures PhiChoice(ps + [p], b)
         == if PhiChoice(ps, b).Some? then PhiChoice(ps, b) else if b == p.1 then Some(p.0) else None
  {
    if ps == [] {
      assert ps + [p] == [p] && [p][1..] == [];
    } else {
      assert (ps + [p])[1..] == ps[1..] + [p] && (ps + [p])[0] == ps[0];
      ChoiceAppend(ps[1..], p, b);
    }
  }

  /** The pairs of a phi that has the entries of `mp`, in whatever order the map gives them. */
  method PairsOf(mp: map<BlockId, Operand>) returns (pairs: seq<(Operand, BlockId)>)
    ensures forall b :: PhiChoice(pairs, b) == if b in mp then Some(mp[b]) else None
    ensures OncePairs(pairs)
  {
    pairs := [];
    var left := mp.Keys;
    while left != {}
      invariant left <= mp.Keys
      invariant forall b :: PhiChoice(pairs, b) == if b in mp && b !in left then Some(mp[b]) else None
      invariant OncePairs(pairs) && forall k :: 0 <= k < |pairs| ==> pairs[k].1 !in left
      decreases |left|
    {
      var j :| j in left;
      forall b ensures PhiChoice(pairs + [(mp[j], j)], b)
                       == if PhiChoice(pairs, b).Some? then PhiChoice(pairs, b) else if b == j then Some(mp[j])
                           else None
      {
        ChoiceAppend(pairs, (mp[j], j), b);
      }
      pairs := pairs + [(mp[j], j)];
      left := left - {j};
    }
  }

  /** The pairs for `p` become pairs for `n`. */
  function ReplaceBlock(ps: seq<(Operand, BlockId)>, p: BlockId, n: BlockId): (r: seq<(Operand, BlockId)>)
    ensures |r| == |ps| && forall k :: 0 <= k < |ps| ==> r[k] == (ps[k].0, if ps[k].1 == p then n else ps[k].1)
  {
    seq(|ps|, k requires 0 <= k < |ps| => (ps[k].0, if ps[k].1 == p then n else ps[k].1))
  }

  lemma {:induction false} ReplacedChoice(ps: seq<(Operand, BlockId)>, p: BlockId, n: BlockId, b: BlockId)
    requires PhiChoice(ps, n).None? && n != p
    ensures PhiChoice(ReplaceBlock(ps, p, n), b)
         == if b == n then PhiChoice(ps, p) else if b == p then None else PhiChoice(ps, b)
  {
    if ps != [] {
      assert ReplaceBlock(ps, p, n)[1..] == ReplaceBlock(ps[1..], p, n);
      ReplacedChoice(ps[1..], p, n, b);
    }
  }

  // ----- How far the division has come -----

  datatype Mode = OnePred | AllMoved | Divided

  function ModeOf(moved: set<BlockId>, stay: set<BlockId>): Mode {
    if |moved| == 1 then OnePred else if stay == {} then AllMoved else Divided
  }

  predicate DistinctDsts(phis: seq<Phi>) {
    forall j, k :: 0 <= j < k < |phis| ==> phis[j].dst != phis[k].dst
  }

  /** The new names given to the first `k` phis when all of them move. */
  function NamesFor(old': seq<Phi>, k: nat, low: Reg): Renaming
    requires k <= |old'|
  {
    if k == 0 then map[] else NamesFor(old', k - 1, low)[old'[k - 1].dst := low + k - 1]
  }

  function RenamingAt(mode: Mode, old': seq<Phi>, k: nat, low: Reg): Renaming
    requires k <= |old'|
  {
    if mode.AllMoved? then NamesFor(old', k, low) else map[]
  }

  function RenameChoice(o: Option<Operand>, m: Renaming): Option<Operand> {
    if o.Some? then Some(RenameOperand(o.value, m)) else None
  }

  /** A phi left in the block: as before for the predecessors that stay, and for the new block the operand
      of the one moved predecessor or the new phi.  Nothing else is left in it. */
  ghost predicate BackIs(old': Phi, new': Phi, mode: Mode, moved: set<BlockId>, stay: set<BlockId>, n: BlockId,
                         name: Reg) {
    && new'.dst == old'.dst
    && (forall q :: q in stay ==> PhiChoice(new'.pairs, q) == PhiChoice(old'.pairs, q))
    && (mode.OnePred? ==> forall p :: p in moved ==> PhiChoice(new'.pairs, n) == PhiChoice(old'.pairs, p))
    && (mode.Divided? ==> PhiChoice(new'.pairs, n) == Some(Reg(name)))
    && Complete(new', stay + {n}) && (mode.Divided? || OncePairs(old'.pairs) ==> OncePairs(new'.pairs))
    && (mode.OnePred? ==> forall low :: LowPairs(old'.pairs, low) ==> LowPairs(new'.pairs, low))
  }

  /** A phi of the new block: the old operands for the moved predecessors, and no others. */
  ghost predicate FrontIs(old': Phi, new': Phi, moved: set<BlockId>, name: Reg, m: Renaming) {
    && new'.dst == name
    && (forall p :: p in moved ==> PhiChoice(new'.pairs, p) == RenameChoice(PhiChoice(old'.pairs, p), m))
    && JustFor(new', moved)
  }

  ghost predicate Divide(mode: Mode, old': seq<Phi>, k: nat, back: seq<Phi>, front: seq<Phi>, moved: set<BlockId>,
      stay: set<BlockId>, n: BlockId, low: Reg)
    requires k <= |old'|
  {
    var m := RenamingAt(mode, old', k, low);
    && (if mode.AllMoved? then back == []
        else |back| == k && forall j :: 0 <= j < k ==> BackIs(old'[j], back[j], mode, moved, stay, n, low + j))
    && (if mode.OnePred? then front == []
        else |front| == k && forall j :: 0 <= j < k ==> FrontIs(old'[j], front[j], moved, low + j, m))
  }

  // ----- A complete division preserves what the phis read -----

  lemma {:induction false} NamesNew(old': seq<Phi>, k: nat, low: Reg)
    requires k <= |old'| && forall j :: 0 <= j < |old'| ==> old'[j].dst < low
    ensures NewNames(NamesFor(old', k, low), low)
  {
    NamesBounded(old', k, low);
    if k > 0 {
      NamesNew(old', k - 1, low);
      NamesBounded(old', k - 1, low);
      hide NewNames;
      NewNamesMore(NamesFor(old', k - 1, low), low, old'[k - 1].dst, low + k - 1);
    }
  }

  lemma {:induction false} NameAt(old': seq<Phi>, k: nat, low: Reg, j: nat)
    requires k <= |old'| && DistinctDsts(old') && j < k
    ensures old'[j].dst in NamesFor(old', k, low) && NamesFor(old', k, low)[old'[j].dst] == low + j
  {
    if j < k - 1 {
      NameAt(old', k - 1, low, j);
    }
  }

  lemma {:induction false} NameFrom(old': seq<Phi>, k: nat, low: Reg, r: Reg) returns (j: nat)
    requires k <= |old'| && r in NamesFor(old', k, low)
    ensures j < k && old'[j].dst == r
  {
    if old'[k - 1].dst == r {
      j := k - 1;
    } else {
      j := NameFrom(old', k - 1, low, r);
    }
  }

  lemma NewNamesMore(m: Renaming, low: Reg, d: Reg, x: Reg)
    requires NewNames(m, low) && d < low <= x && forall r :: r in m ==> m[r] < x
    ensures NewNames(m[d := x], low)
  {
  }

  lemma {:induction false} NamesBounded(old': seq<Phi>, k: nat, low: Reg)
    requires k <= |old'|
    ensures forall r :: r in NamesFor(old', k, low) ==> NamesFor(old', k, low)[r] < low + k
  {
    if k > 0 {
      NamesBounded(old', k - 1, low);
    }
  }

  lemma {:induction false} FindDistinct(phis: seq<Phi>, k: nat)
    requires DistinctDsts(phis) && k < |phis|
    ensures FindPhi(phis, phis[k].dst) == Some(phis[k])
  {
    if k > 0 {
      assert DistinctDsts(phis[1..]);
      assert phis[1..][k - 1] == phis[k];
      FindDistinct(phis[1..], k - 1);
    }
  }

  lemma BackDistinct(old': seq<Phi>, back: seq<Phi>)
    requires DistinctDsts(old') && |back| == |old'| && forall j :: 0 <= j < |back| ==> back[j].dst == old'[j].dst
    ensures DistinctDsts(back)
  {
  }

  lemma FrontDistinct(front: seq<Phi>, low: Reg)
    requires forall j :: 0 <= j < |front| ==> front[j].dst == low + j
    ensures DistinctDsts(front)
  {
  }

  lemma AlikeSame(e: Env, e': Env, low: Reg)
    ensures Alike(e, e', map[], low) <==> forall r: Reg :: r < low ==> e'(r) == e(r)
  {
    assert forall r: Reg :: NewName(r, map[]) == r;
  }

  /** An old phi's value, read under the renaming. */
  lemma ChoiceRead(p: Phi, q: Phi, a: BlockId, b: BlockId, e: Env, e': Env, m: Renaming, low: Reg)
    requires LowPairs(p.pairs, low) && Alike(e, e', m, low)
    requires PhiChoice(q.pairs, b) == RenameChoice(PhiChoice(p.pairs, a), m)
    ensures PhiValue(q, b, e') == PhiValue(p, a, e)
  {
    ChoiceLow(p.pairs, a, low);
    hide Alike, LowPairs, RenameOperand;
    var o := PhiChoice(p.pairs, a);
    if o.Some? {
      ReadRenamed(o.value, e, e', m, low);
    }
  }

  lemma RenameChoiceNothing(o: Option<Operand>)
    ensures RenameChoice(o, map[]) == o
  {
  }

  /** Phis with the same results, the values of which agree, agree. */
  lemma SameResults(old': seq<Phi>, back: seq<Phi>, a: BlockId, b: BlockId, e: Env, e': Env, low: Reg)
    requires DistinctDsts(old') && |back| == |old'| && forall j :: 0 <= j < |back| ==> back[j].dst == old'[j].dst
    requires forall r: Reg :: r < low ==> e'(r) == e(r)
    requires forall j :: 0 <= j < |back| ==> PhiValue(back[j], b, e') == PhiValue(old'[j], a, e)
    ensures Alike(EnterEnv(old', a, e), EnterEnv(back, b, e'), map[], low)
  {
    hide PhiValue, DistinctDsts, Alike;
    BackDistinct(old', back);
    var x, y := EnterEnv(old', a, e), EnterEnv(back, b, e');
    forall r: Reg | r < low ensures y(r) == x(r) {
      FindPhiIn(old', r);
      FindPhiIn(back, r);
      if FindPhi(old', r).Some? {
        var k :| 0 <= k < |old'| && old'[k] == FindPhi(old', r).value && old'[k].dst == r;
        assert back[k].dst == r;
        FindDistinct(back, k);
      } else {
        assert FindPhi(back, r).None?;
      }
    }
    AlikeSame(x, y, low);
  }

  lemma EnterNothing(p: BlockId, e: Env, r: Reg)
    ensures EnterEnv([], p, e)(r) == e(r)
  {
  }

  /** Reading the phis of the new block. */
  lemma EnterFront(old': seq<Phi>, front: seq<Phi>, p: BlockId, e: Env, e': Env, m: Renaming, moved: set<BlockId>,
                   low: Reg)
    requires LowPhis(old', low) && |front| == |old'| && p in moved && Alike(e, e', m, low)
    requires forall j :: 0 <= j < |front| ==> FrontIs(old'[j], front[j], moved, low + j, m)
    ensures forall r: Reg :: r < low ==> EnterEnv(front, p, e')(r) == e'(r)
    ensures forall j :: 0 <= j < |front| ==> EnterEnv(front, p, e')(front[j].dst) == PhiValue(old'[j], p, e)
  {
    FrontDistinct(front, low);
    forall r: Reg | r < low ensures EnterEnv(front, p, e')(r) == e'(r) {
      FindPhiIn(front, r);
    }
    forall j | 0 <= j < |front| ensures EnterEnv(front, p, e')(front[j].dst) == PhiValue(old'[j], p, e) {
      FindDistinct(front, j);
      hide Alike, PhiChoice, FindPhi;
      ChoiceRead(old'[j], front[j], p, p, e, e', m, low);
    }
  }

  lemma MovedOne(old': seq<Phi>, back: seq<Phi>, moved: set<BlockId>, stay: set<BlockId>, n: BlockId, low: Reg,
      p: BlockId, e: Env, e': Env)
    requires LowPhis(old', low) && DistinctDsts(old') && Divide(OnePred, old', |old'|, back, [], moved, stay, n, low)
    requires p in moved && Alike(e, e', map[], low)
    ensures Alike(EnterEnv(old', p, e), EnterEnv(back, n, EnterEnv([], p, e')), map[], low)
  {
    hide DistinctDsts, PhiValue, PhiChoice, EnterEnv;
    var e1 := EnterEnv([], p, e');
    forall r: Reg | r < low ensures e1(r) == e(r) {
      EnterNothing(p, e', r);
      AlikeSame(e, e', low);
    }
    AlikeSame(e, e1, low);
    forall j | 0 <= j < |back| ensures PhiValue(back[j], n, e1) == PhiValue(old'[j], p, e) {
      RenameChoiceNothing(PhiChoice(old'[j].pairs, p));
      ChoiceRead(old'[j], back[j], p, n, e, e1, map[], low);
    }
    SameResults(old', back, p, n, e, e1, low);
  }

  lemma StayOne(mode: Mode, old': seq<Phi>, back: seq<Phi>, front: seq<Phi>, moved: set<BlockId>, stay: set<BlockId>,
      n: BlockId, low: Reg, p: BlockId, e: Env, e': Env)
    requires LowPhis(old', low) && DistinctDsts(old') && Divide(mode, old', |old'|, back, front, moved, stay, n, low)
    requires !mode.AllMoved? && p in stay && Alike(e, e', map[], low)
    ensures Alike(EnterEnv(old', p, e), EnterEnv(back, p, e'), map[], low)
  {
    hide DistinctDsts, PhiValue, PhiChoice, EnterEnv;
    AlikeSame(e, e', low);
    forall j | 0 <= j < |back| ensures PhiValue(back[j], p, e') == PhiValue(old'[j], p, e) {
      RenameChoiceNothing(PhiChoice(old'[j].pairs, p));
      ChoiceRead(old'[j], back[j], p, p, e, e', map[], low);
    }
    SameResults(old', back, p, p, e, e', low);
  }

  lemma MovedDivided(old': seq<Phi>, back: seq<Phi>, front: seq<Phi>, moved: set<BlockId>, stay: set<BlockId>,
                     n: BlockId,
      low: Reg, p: BlockId, e: Env, e': Env)
    requires LowPhis(old', low) && DistinctDsts(old') && Divide(Divided, old', |old'|, back, front, moved, stay, n, low)
    requires p in moved && Alike(e, e', map[], low)
    ensures Alike(EnterEnv(old', p, e), EnterEnv(back, n, EnterEnv(front, p, e')), map[], low)
  {
    EnterFront(old', front, p, e, e', map[], moved, low);
    hide DistinctDsts, EnterEnv;
    var e1 := EnterEnv(front, p, e');
    AlikeSame(e, e', low);
    forall j | 0 <= j < |back| ensures PhiValue(back[j], n, e1) == PhiValue(old'[j], p, e) {
      assert PhiChoice(back[j].pairs, n) == Some(Reg(low + j));
      assert front[j].dst == low + j;
    }
    SameResults(old', back, p, n, e, e1, low);
  }

  lemma MovedAll(old': seq<Phi>, front: seq<Phi>, moved: set<BlockId>, stay: set<BlockId>, n: BlockId, low: Reg,
      p: BlockId, e: Env, e': Env)
    requires LowPhis(old', low) && DistinctDsts(old') && Divide(AllMoved, old', |old'|, [], front, moved, stay, n, low)
    requires p in moved && Alike(e, e', NamesFor(old', |old'|, low), low)
    ensures Alike(EnterEnv(old', p, e), EnterEnv([], n, EnterEnv(front, p, e')), NamesFor(old', |old'|, low), low)
  {
    hide *;
    var m := NamesFor(old', |old'|, low);
    AllMovedParts(old', front, moved, stay, n, low);
    EnterFront(old', front, p, e, e', m, moved, low);
    var x, e1 := EnterEnv(old', p, e), EnterEnv(front, p, e');
    forall j | 0 <= j < |old'| ensures e1(low + j) == PhiValue(old'[j], p, e) {
      FrontDst(old'[j], front[j], moved, low + j, m);
    }
    forall r: Reg | r < low ensures EnterEnv([], n, e1)(NewName(r, m)) == x(r) {
      EnterNothing(n, e1, NewName(r, m));
      MovedAt(old', p, e, e', e1, low, r);
    }
    AlikeIs(x, EnterEnv([], n, e1), m, low);
  }

  lemma AllMovedParts(old': seq<Phi>, front: seq<Phi>, moved: set<BlockId>, stay: set<BlockId>, n: BlockId, low: Reg)
    requires Divide(AllMoved, old', |old'|, [], front, moved, stay, n, low)
    ensures |front| == |old'|
    ensures forall j :: 0 <= j < |front| ==> FrontIs(old'[j], front[j], moved, low + j, NamesFor(old', |old'|, low))
  {
    hide FrontIs, NamesFor;
  }

  lemma AlikeIs(e: Env, e': Env, m: Renaming, low: Reg)
    requires forall r: Reg :: r < low ==> e'(NewName(r, m)) == e(r)
    ensures Alike(e, e', m, low)
  {
  }

  lemma FrontDst(p: Phi, f: Phi, moved: set<BlockId>, name: Reg, m: Renaming)
    requires FrontIs(p, f, moved, name, m)
    ensures f.dst == name
  {
  }

  /** One register after all phis have moved. */
  lemma MovedAt(old': seq<Phi>, p: BlockId, e: Env, e': Env, e1: Env, low: Reg, r: Reg)
    requires DistinctDsts(old') && r < low && Alike(e, e', NamesFor(old', |old'|, low), low)
    requires forall r: Reg :: r < low ==> e1(r) == e'(r)
    requires forall j :: 0 <= j < |old'| ==> e1(low + j) == PhiValue(old'[j], p, e)
    ensures e1(NewName(r, NamesFor(old', |old'|, low))) == EnterEnv(old', p, e)(r)
  {
    var m := NamesFor(old', |old'|, low);
    FindPhiIn(old', r);
    hide DistinctDsts, NamesFor, PhiValue, FindPhi;
    if r in m {
      var j := NameFrom(old', |old'|, low, r);
      NameAt(old', |old'|, low, j);
      FindDistinct(old', j);
    } else {
      if FindPhi(old', r).Some? {
        var k :| 0 <= k < |old'| && old'[k] == FindPhi(old', r).value && old'[k].dst == r;
        NameAt(old', |old'|, low, k);
      }
      assert NewName(r, m) == r;
    }
  }

  /** Dividing all phis, in each of the three ways, preserves what entering the block does. */
  lemma DivideSplits(mode: Mode, old': seq<Phi>, back: seq<Phi>, front: seq<Phi>, moved: set<BlockId>,
                     stay: set<BlockId>,
      n: BlockId, low: Reg)
    requires LowPhis(old', low) && DistinctDsts(old') && Divide(mode, old', |old'|, back, front, moved, stay, n, low)
    requires mode.AllMoved? ==> stay == {}
    ensures PhisSplit(old', front, back, n, moved, stay, RenamingAt(mode, old', |old'|, low), low)
  {
    hide Alike, EnterEnv, LowPhis, DistinctDsts;
    var m := RenamingAt(mode, old', |old'|, low);
    forall p, e, e' | p in moved && Alike(e, e', m, low)
      ensures Alike(EnterEnv(old', p, e), EnterEnv(back, n, EnterEnv(front, p, e')), m, low)
    {
      match mode {
        case OnePred => MovedOne(old', back, moved, stay, n, low, p, e, e');
        case Divided => MovedDivided(old', back, front, moved, stay, n, low, p, e, e');
        case AllMoved => MovedAll(old', front, moved, stay, n, low, p, e, e');
      }
    }
    forall p, e, e' | p in stay && Alike(e, e', m, low)
      ensures Alike(EnterEnv(old', p, e), EnterEnv(back, p, e'), m, low)
    {
      StayOne(mode, old', back, front, moved, stay, n, low, p, e, e');
    }
  }

  /** Moving all phis as they are, with all predecessors, preserves it, too. */
  lemma TakenSplits(phis: seq<Phi>, n: BlockId, moved: set<BlockId>, low: Reg)
    requires LowPhis(phis, low)
    ensures PhisSplit(phis, phis, [], n, moved, {}, map[], low)
  {
    forall p, e, e' | p in moved && Alike(e, e', map[], low)
      ensures Alike(EnterEnv(phis, p, e), EnterEnv([], n, EnterEnv(phis, p, e')), map[], low)
    {
      EnterRenamed(phis, p, e, e', map[], low);
      PhisSame(phis);
      hide EnterEnv, LowPhis;
      var e1 := EnterEnv(phis, p, e');
      AlikeSame(EnterEnv(phis, p, e), e1, low);
      forall r: Reg | r < low ensures EnterEnv([], n, e1)(r) == e1(r) {
        EnterNothing(n, e1, r);
      }
      AlikeSame(EnterEnv(phis, p, e), EnterEnv([], n, e1), low);
    }
  }

  lemma PhisSame(phis: seq<Phi>)
    ensures RenamePhis(phis, map[]) == phis
  {
    forall k | 0 <= k < |phis| ensures RenamePairs(phis[k].pairs, map[]) == phis[k].pairs {
      PairsSame(phis[k].pairs);
    }
  }

  lemma PairsSame(ps: seq<(Operand, BlockId)>)
    ensures RenamePairs(ps, map[]) == ps
  {
  }
}
