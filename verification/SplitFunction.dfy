/** A function under rewriting, with the predecessor and successor lists of its blocks, and
    `BasicBlock::add_block_before`. */
module SplitFunction {
  import opened IR
  import opened PhiForm
  import opened BlockSplit
  import opened PhiSplit

  // ----- Lists of blocks -----

  predicate NoRepeats(s: seq<BlockId>) {
    forall j, k :: 0 <= j < k < |s| ==> s[j] != s[k]
  }

  /** `std::list::remove`. */
  function Remove(s: seq<BlockId>, x: BlockId): seq<BlockId> {
    if s == [] then [] else if s[0] == x then Remove(s[1..], x) else [s[0]] + Remove(s[1..], x)
  }

  lemma {:induction false} RemoveIs(s: seq<BlockId>, x: BlockId)
    ensures forall y :: y in Remove(s, x) <==> y in s && y != x
    ensures NoRepeats(s) ==> NoRepeats(Remove(s, x))
  {
    if s != [] {
      RemoveIs(s[1..], x);
      var r := Remove(s[1..], x);
      assert forall y :: y in s <==> y == s[0] || y in s[1..];
      if NoRepeats(s) {
        assert NoRepeats(s[1..]);
        assert s[0] !in s[1..];
        assert s[0] !in r;
      }
    }
  }

  lemma AppendNoRepeats(s: seq<BlockId>, x: BlockId)
    requires NoRepeats(s) && x !in s
    ensures NoRepeats(s + [x])
  {
  }

  function SetOf(s: seq<BlockId>): set<BlockId> {
    set x | x in s
  }

  type Lists = map<BlockId, seq<BlockId>>

  predicate Listed(l: Lists, a: BlockId, b: BlockId) {
    a in l && b in l[a]
  }

  ghost predicate NeverRepeat(l: Lists) {
    forall a :: a in l ==> NoRepeats(l[a])
  }

  /** The two lists are inverses of each other and mention blocks only. */
  ghost predicate Mirrored(pre: Lists, succ: Lists) {
    && pre.Keys == succ.Keys && NeverRepeat(pre) && NeverRepeat(succ)
    && (forall a, b :: Listed(succ, a, b) <==> Listed(pre, b, a))
  }

  /** The successor lists say what the jumps say. */
  ghost predicate Truthful(blocks: map<BlockId, Block>, succ: Lists) {
    && succ.Keys == blocks.Keys
    && (forall a, b :: a in blocks ==> (Listed(succ, a, b) <==> b in Successors(blocks[a].term)))
  }

  ghost predicate Linked(blocks: map<BlockId, Block>, pre: Lists, succ: Lists) {
    Mirrored(pre, succ) && Truthful(blocks, succ)
  }

  // ----- One predecessor is redirected -----

  lemma RedirectSuccessors(t: Term, from: BlockId, to: BlockId)
    requires to !in Successors(t) && from in Successors(t) && from != to
    ensures forall x :: x in Successors(Redirect(t, from, to)) <==> (x in Successors(t) && x != from) || x == to
  {
  }

  lemma RedirectNothing(t: Term, from: BlockId, to: BlockId)
    requires from !in Successors(t)
    ensures Redirect(t, from, to) == t
  {
  }

  /** `b` follows `a` after `p` was redirected. */
  predicate Follows(succ: Lists, p: BlockId, from: BlockId, to: BlockId, a: BlockId, b: BlockId) {
    if a == p then b == to || (Listed(succ, a, b) && b != from) else Listed(succ, a, b)
  }

  lemma RelinkedSucc(succ: Lists, p: BlockId, from: BlockId, to: BlockId)
    requires p in succ && NeverRepeat(succ) && !Listed(succ, p, to)
    ensures var succ' := succ[p := Remove(succ[p], from) + [to]];
            NeverRepeat(succ') && forall a, b :: Listed(succ', a, b) <==> Follows(succ, p, from, to, a, b)
  {
    RemoveIs(succ[p], from);
    hide NoRepeats, Remove;
    AppendNoRepeats(Remove(succ[p], from), to);
  }

  lemma RelinkedPre(pre: Lists, p: BlockId, from: BlockId, to: BlockId)
    requires from in pre && to in pre && from != to && NeverRepeat(pre) && !Listed(pre, to, p)
    ensures var pre' := pre[from := Remove(pre[from], p)][to := pre[to] + [p]];
            && NeverRepeat(pre')
            && forall a, b :: Listed(pre', b, a) <==>
                 (if b == from then Listed(pre, b, a) && a != p else if b == to then Listed(pre, b, a) || a == p
                     else Listed(pre, b, a))
  {
    RemoveIs(pre[from], p);
    hide NoRepeats, Remove;
    AppendNoRepeats(pre[to], p);
  }

  lemma RelinkedMirror(pre: Lists, succ: Lists, p: BlockId, from: BlockId, to: BlockId)
    requires Mirrored(pre, succ) && p in succ && from in pre && to in pre && from != to && !Listed(succ, p, to)
    ensures Mirrored(pre[from := Remove(pre[from], p)][to := pre[to] + [p]], succ[p := Remove(succ[p], from) + [to]])
  {
    hide NeverRepeat, Remove, Listed;
    RelinkedSucc(succ, p, from, to);
    RelinkedPre(pre, p, from, to);
    var pre', succ' := pre[from := Remove(pre[from], p)][to := pre[to] + [p]], succ[p := Remove(succ[p], from) + [to]];
    assert pre'.Keys == pre.Keys && succ'.Keys == succ.Keys;
    forall a, b ensures Listed(succ', a, b) <==> Listed(pre', b, a) {
      assert Listed(succ, a, b) <==> Listed(pre, b, a);
    }
  }

  lemma RelinkedApart(blocks: map<BlockId, Block>, pre: Lists, succ: Lists, p: BlockId, from: BlockId, to: BlockId)
    requires Linked(blocks, pre, succ) && p in blocks && from in pre && to in pre && from != to
    requires from in Successors(blocks[p].term) && to !in Successors(blocks[p].term) && p in succ
    ensures Linked(blocks[p := blocks[p].(term := Redirect(blocks[p].term, from, to))],
                   pre[from := Remove(pre[from], p)][to := pre[to] + [p]], succ[p := Remove(succ[p], from) + [to]])
  {
    var t := blocks[p].term;
    assert !Listed(succ, p, to);
    RelinkedMirror(pre, succ, p, from, to);
    hide Mirrored;
    RelinkedSucc(succ, p, from, to) by { NeverRepeats(pre, succ); }
    RedirectSuccessors(t, from, to);
    hide Successors, Remove, Redirect, Listed;
    var succ' := succ[p := Remove(succ[p], from) + [to]];
    var new' := blocks[p := blocks[p].(term := Redirect(t, from, to))];
    assert new'.Keys == blocks.Keys && succ'.Keys == succ.Keys;
    forall a, b | a in new' ensures Listed(succ', a, b) <==> b in Successors(new'[a].term) {
      assert Listed(succ, a, b) <==> b in Successors(blocks[a].term);
    }
  }

  function RedirectedSucc(succ: Lists, p: BlockId, from: BlockId, to: BlockId): Lists
    requires p in succ
  {
    succ[p := Remove(succ[p], from) + [to]]
  }

  function RedirectedPre(pre: Lists, p: BlockId, from: BlockId, to: BlockId): Lists
    requires from in pre && to in pre
  {
    var pre' := pre[from := Remove(pre[from], p)];
    pre'[to := pre'[to] + [p]]
  }

  function RedirectedBlocks(blocks: map<BlockId, Block>, p: BlockId, from: BlockId, to: BlockId): map<BlockId, Block>
    requires p in blocks
  {
    blocks[p := blocks[p].(term := Redirect(blocks[p].term, from, to))]
  }

  /** Redirecting a branch to where it went already only moves the entries to the end of the lists. */
  lemma RelinkedSame(blocks: map<BlockId, Block>, pre: Lists, succ: Lists, p: BlockId, to: BlockId)
    requires Linked(blocks, pre, succ) && p in blocks && to in pre && to in Successors(blocks[p].term) && p in succ
    ensures Linked(RedirectedBlocks(blocks, p, to, to), RedirectedPre(pre, p, to, to), RedirectedSucc(succ, p, to, to))
  {
    assert Listed(succ, p, to) && Listed(pre, to, p);
    assert RedirectedBlocks(blocks, p, to, to) == blocks;
    RemoveIs(succ[p], to);
    RemoveIs(pre[to], p);
    hide NoRepeats, Remove;
    AppendNoRepeats(Remove(succ[p], to), to);
    AppendNoRepeats(Remove(pre[to], p), p);
    var pre', succ' := RedirectedPre(pre, p, to, to), RedirectedSucc(succ, p, to, to);
    forall a, b ensures Listed(succ', a, b) <==> Listed(succ, a, b) {}
    forall a, b ensures Listed(pre', b, a) <==> Listed(pre, b, a) {}
    assert pre'.Keys == pre.Keys && succ'.Keys == succ.Keys;
  }

  /** A block that jumped to `to` already is then listed twice. */
  lemma ListedTwice(succ: Lists, p: BlockId, from: BlockId, to: BlockId)
    requires p in succ && from != to && to in succ[p]
    ensures !NoRepeats(RedirectedSucc(succ, p, from, to)[p])
  {
    RemoveIs(succ[p], from);
    var s := Remove(succ[p], from);
    var j :| 0 <= j < |s| && s[j] == to;
    assert (s + [to])[j] == (s + [to])[|s|];
  }

  /** The lists stay inverses of each other, without repetitions, unless the block jumped to `to` already. */
  lemma Relinked(blocks: map<BlockId, Block>, pre: Lists, succ: Lists, p: BlockId, from: BlockId, to: BlockId)
    requires Linked(blocks, pre, succ) && p in blocks && from in pre && to in pre && from in Successors(blocks[p].term)
             && p in succ
    ensures Linked(RedirectedBlocks(blocks, p, from, to), RedirectedPre(pre, p, from, to),
              RedirectedSucc(succ, p, from, to))
            <==> from == to || to !in Successors(blocks[p].term)
  {
    if from == to {
      RelinkedSame(blocks, pre, succ, p, to);
    } else if to !in Successors(blocks[p].term) {
      RelinkedApart(blocks, pre, succ, p, from, to);
    } else {
      assert Listed(succ, p, to);
      ListedTwice(succ, p, from, to);
    }
  }

  /** A branch from block 0 to blocks 1 and 2, and the lists that say so. */
  function Fork(c: Operand): map<BlockId, Block> {
    map[0 := Block([], [], CondBr(c, 1, 2)), 1 := Block([], [], Ret(None)), 2 := Block([], [], Ret(None))]
  }

  const FORK_PRE: Lists := map[0 := [], 1 := [0], 2 := [0]]
  const FORK_SUCC: Lists := map[0 := [1, 2], 1 := [], 2 := []]

  /** Redirected to 2 where it went to 1, block 0 has 2 among its successors twice. */
  lemma ForkRedirected(c: Operand)
    ensures Linked(Fork(c), FORK_PRE, FORK_SUCC)
    ensures RedirectedSucc(FORK_SUCC, 0, 1, 2)[0] == [2, 2] && RedirectedPre(FORK_PRE, 0, 1, 2)[2] == [0, 0]
    ensures !Linked(RedirectedBlocks(Fork(c), 0, 1, 2), RedirectedPre(FORK_PRE, 0, 1, 2),
              RedirectedSucc(FORK_SUCC, 0, 1, 2))
  {
    forall a, b ensures Listed(FORK_SUCC, a, b) <==> Listed(FORK_PRE, b, a) {}
    assert Linked(Fork(c), FORK_PRE, FORK_SUCC);
    assert Remove([2], 1) == [2] && Remove([1, 2], 1) == [2];
    Relinked(Fork(c), FORK_PRE, FORK_SUCC, 0, 1, 2);
  }

  lemma NeverRepeats(pre: Lists, succ: Lists)
    requires Mirrored(pre, succ)
    ensures NeverRepeat(succ)
  {
  }

  lemma LinkedKeys(blocks: map<BlockId, Block>, pre: Lists, succ: Lists)
    requires Linked(blocks, pre, succ)
    ensures pre.Keys == blocks.Keys && succ.Keys == blocks.Keys
  {
  }

  // ----- Dividing one phi more -----

  lemma TwiceOperand(o: Operand, m: Renaming, d: Reg, x: Reg)
    requires d !in m && forall r :: r in m ==> m[r] != d
    ensures RenameOperand(RenameOperand(o, m), map[d := x]) == RenameOperand(o, m[d := x])
  {
  }

  lemma TwiceAll(os: seq<Operand>, m: Renaming, d: Reg, x: Reg)
    requires d !in m && forall r :: r in m ==> m[r] != d
    ensures RenameAll(RenameAll(os, m), map[d := x]) == RenameAll(os, m[d := x])
  {
    hide RenameOperand;
    forall k | 0 <= k < |os| ensures RenameAll(RenameAll(os, m), map[d := x])[k] == RenameAll(os, m[d := x])[k] {
      TwiceOperand(os[k], m, d, x);
    }
  }

  lemma TwicePairs(ps: seq<(Operand, BlockId)>, m: Renaming, d: Reg, x: Reg)
    requires d !in m && forall r :: r in m ==> m[r] != d
    ensures RenamePairs(RenamePairs(ps, m), map[d := x]) == RenamePairs(ps, m[d := x])
  {
    hide RenameOperand;
    forall k | 0 <= k < |ps| ensures RenamePairs(RenamePairs(ps, m), map[d := x])[k] == RenamePairs(ps, m[d := x])[k] {
      TwiceOperand(ps[k].0, m, d, x);
    }
  }

  lemma TwicePhis(phis: seq<Phi>, m: Renaming, d: Reg, x: Reg)
    requires d !in m && forall r :: r in m ==> m[r] != d
    ensures RenamePhis(RenamePhis(phis, m), map[d := x]) == RenamePhis(phis, m[d := x])
  {
    hide RenamePairs;
    forall k | 0 <= k < |phis| ensures RenamePhis(RenamePhis(phis, m), map[d := x])[k] ==
        RenamePhis(phis, m[d := x])[k] {
      TwicePairs(phis[k].pairs, m, d, x);
    }
  }

  lemma TwiceInstr(i: Instr, m: Renaming, d: Reg, x: Reg)
    requires d !in m && forall r :: r in m ==> m[r] != d
    ensures RenameInstr(RenameInstr(i, m), map[d := x]) == RenameInstr(i, m[d := x])
  {
    hide RenameOperand, RenameAll;
    match i {
      case Pure(_, _, args) => TwiceAll(args, m, d, x);
      case Load(_, p) => if p.Addr? { TwiceOperand(p.a, m, d, x); }
      case Store(v, p) =>
        TwiceOperand(v, m, d, x);
        if p.Addr? { TwiceOperand(p.a, m, d, x); }
      case Call(_, _, args, _) => TwiceAll(args, m, d, x);
      case Alloca(_, _) =>
    }
  }

  lemma TwiceBody(body: seq<Instr>, m: Renaming, d: Reg, x: Reg)
    requires d !in m && forall r :: r in m ==> m[r] != d
    ensures RenameBody(RenameBody(body, m), map[d := x]) == RenameBody(body, m[d := x])
  {
    hide RenameInstr;
    forall k | 0 <= k < |body| ensures RenameBody(RenameBody(body, m), map[d := x])[k] ==
        RenameBody(body, m[d := x])[k] {
      TwiceInstr(body[k], m, d, x);
    }
  }

  lemma TwiceTerm(t: Term, m: Renaming, d: Reg, x: Reg)
    requires d !in m && forall r :: r in m ==> m[r] != d
    ensures RenameTerm(RenameTerm(t, m), map[d := x]) == RenameTerm(t, m[d := x])
  {
    hide RenameOperand;
    match t {
      case Br(_) =>
      case CondBr(c, _, _) => TwiceOperand(c, m, d, x);
      case Ret(r) => if r.Some? { TwiceOperand(r.value, m, d, x); }
    }
  }

  lemma TwiceBlock(b: Block, m: Renaming, d: Reg, x: Reg)
    requires d !in m && forall r :: r in m ==> m[r] != d
    ensures RenameBlock(RenameBlock(b, m), map[d := x]) == RenameBlock(b, m[d := x])
  {
    hide RenamePhis, RenameBody, RenameTerm;
    TwicePhis(b.phis, m, d, x);
    TwiceBody(b.body, m, d, x);
    TwiceTerm(b.term, m, d, x);
  }

  lemma NoChange(b: Block)
    ensures RenameBlock(b, map[]) == b
  {
    PhisSame(b.phis);
    assert RenameBody(b.body, map[]) == b.body by {
      forall k | 0 <= k < |b.body| ensures RenameInstr(b.body[k], map[]) == b.body[k] {
        var i := b.body[k];
        match i {
          case Pure(_, _, args) => assert RenameAll(args, map[]) == args;
          case Call(_, _, args, _) => assert RenameAll(args, map[]) == args;
          case _ =>
        }
      }
    }
  }

  /** The blocks with the phis `back` in `h` and `front` in `n`, everything else renamed. */
  function Assembled(was: map<BlockId, Block>, h: BlockId, n: BlockId, back: seq<Phi>, front: seq<Phi>,
                     m: Renaming): map<BlockId, Block>
    requires h in was
  {
    map b | b in was.Keys + {n} ::
      if b == n then Block(front, [], Ret(None))
      else if b == h then Block(back, RenameBody(was[h].body, m), RenameTerm(was[h].term, m))
      else RenameBlock(was[b], m)
  }

  lemma AssembledHas(was: map<BlockId, Block>, h: BlockId, n: BlockId, back: seq<Phi>, front: seq<Phi>, m: Renaming)
    requires h in was && n !in was
    ensures var now := Assembled(was, h, n, back, front, m);
            h in now && n in now && h != n && now[h].phis == back && now[n].phis == front
  {
    hide RenameBody, RenameTerm, RenameBlock;
  }

  lemma AssembledBack(was: map<BlockId, Block>, h: BlockId, n: BlockId, back: seq<Phi>, front: seq<Phi>, m: Renaming,
                      back': seq<Phi>)
    requires h in was && n !in was
    ensures var now := Assembled(was, h, n, back, front, m);
            h in now && now[h := now[h].(phis := back')] == Assembled(was, h, n, back', front, m)
  {
    hide RenameBody, RenameTerm, RenameBlock;
  }

  lemma AssembledFront(was: map<BlockId, Block>, h: BlockId, n: BlockId, back: seq<Phi>, front: seq<Phi>, m: Renaming,
                       front': seq<Phi>)
    requires h in was && n !in was
    ensures var now := Assembled(was, h, n, back, front, m);
            n in now && now[n := now[n].(phis := front')] == Assembled(was, h, n, back, front', m)
  {
    hide RenameBody, RenameTerm, RenameBlock;
  }

  lemma AssembledRenamed(was: map<BlockId, Block>, h: BlockId, n: BlockId, back: seq<Phi>, front: seq<Phi>, m: Renaming,
      d: Reg, x: Reg, now': map<BlockId, Block>)
    requires h in was && n !in was && d !in m && forall r :: r in m ==> m[r] != d
    requires var now := Assembled(was, h, n, back, front, m);
             now'.Keys == now.Keys && forall b :: b in now' ==> now'[b] == RenameBlock(now[b], map[d := x])
    ensures now' == Assembled(was, h, n, RenamePhis(back, map[d := x]), RenamePhis(front, map[d := x]), m[d := x])
  {
    var now, m' := Assembled(was, h, n, back, front, m), m[d := x];
    forall b | b in was && b != h ensures now'[b] == RenameBlock(was[b], m') {
      TwiceBlock(was[b], m, d, x);
    }
    TwiceBody(was[h].body, m, d, x);
    TwiceTerm(was[h].term, m, d, x);
    EmptyBody(map[d := x]);
    hide RenameBody, RenameTerm, RenamePhis;
    assert now'[h] == RenameBlock(now[h], map[d := x]);
    assert now'[n] == RenameBlock(now[n], map[d := x]);
  }

  lemma EmptyBody(m: Renaming)
    ensures RenameBody([], m) == [] && RenameTerm(Ret(None), m) == Ret(None)
  {
  }

  /** The first `k` phis of `h` have been divided. */
  ghost predicate PhisDone(was: map<BlockId, Block>, now: map<BlockId, Block>, h: BlockId, n: BlockId, k: nat,
                           mode: Mode,
      back: seq<Phi>, front: seq<Phi>, moved: set<BlockId>, stay: set<BlockId>, low: Reg)
    requires h in was && k <= |was[h].phis|
  {
    var m := RenamingAt(mode, was[h].phis, k, low);
    && now == Assembled(was, h, n, back + RenamePhis(was[h].phis[k..], m), front, m)
    && Divide(mode, was[h].phis, k, back, front, moved, stay, n, low)
  }

  /** What the block to divide must be like. */
  ghost predicate Divisible(was: map<BlockId, Block>, h: BlockId, n: BlockId, moved: set<BlockId>, stay: set<BlockId>,
                            low: Reg) {
    && h in was && n !in was && n !in moved && n !in stay && moved !! stay
    && LowPhis(was[h].phis, low) && DistinctDsts(was[h].phis)
    && (was[h].phis != [] ==> moved != {})
    && forall j :: 0 <= j < |was[h].phis| ==> Complete(was[h].phis[j], moved + stay)
  }

  lemma DivideOne(old': seq<Phi>, k: nat, back: seq<Phi>, b: Phi, moved: set<BlockId>, stay: set<BlockId>, n: BlockId,
                  low: Reg)
    requires k < |old'| && Divide(OnePred, old', k, back, [], moved, stay, n, low)
    requires BackIs(old'[k], b, OnePred, moved, stay, n, low + k)
    ensures Divide(OnePred, old', k + 1, back + [b], [], moved, stay, n, low)
  {
    hide BackIs;
  }

  lemma DivideBoth(old': seq<Phi>, k: nat, back: seq<Phi>, b: Phi, front: seq<Phi>, f: Phi, moved: set<BlockId>,
      stay: set<BlockId>, n: BlockId, low: Reg)
    requires k < |old'| && Divide(Divided, old', k, back, front, moved, stay, n, low)
    requires BackIs(old'[k], b, Divided, moved, stay, n, low + k) && FrontIs(old'[k], f, moved, low + k, map[])
    ensures Divide(Divided, old', k + 1, back + [b], front + [f], moved, stay, n, low)
  {
    hide BackIs, FrontIs;
  }

  lemma FrontRenamed(p: Phi, f: Phi, moved: set<BlockId>, name: Reg, m: Renaming, d: Reg, x: Reg)
    requires FrontIs(p, f, moved, name, m) && d !in m && forall r :: r in m ==> m[r] != d
    ensures FrontIs(p, Phi(f.dst, RenamePairs(f.pairs, map[d := x])), moved, name, m[d := x])
  {
    hide RenamePairs, RenameOperand;
    forall q | q in moved
      ensures PhiChoice(RenamePairs(f.pairs, map[d := x]), q) == RenameChoice(PhiChoice(p.pairs, q), m[d := x])
    {
      RenamedChoice(f.pairs, q, map[d := x]);
      if PhiChoice(p.pairs, q).Some? {
        TwiceOperand(PhiChoice(p.pairs, q).value, m, d, x);
      }
    }
    RenamedJustFor(f, moved, map[d := x]);
  }

  lemma RenamedJustFor(p: Phi, preds: set<BlockId>, m: Renaming)
    requires JustFor(p, preds)
    ensures JustFor(Phi(p.dst, RenamePairs(p.pairs, m)), preds)
  {
    forall b ensures PhiChoice(RenamePairs(p.pairs, m), b).Some? <==> b in preds {
      RenamedChoice(p.pairs, b, m);
    }
  }

  lemma NotYetNamed(old': seq<Phi>, k: nat, low: Reg)
    requires k < |old'| && DistinctDsts(old') && LowPhis(old', low)
    ensures var m := NamesFor(old', k, low); old'[k].dst !in m && forall r :: r in m ==> m[r] != old'[k].dst
  {
    NamesNew(old', k, low);
    var m := NamesFor(old', k, low);
    if old'[k].dst in m {
      var j := NameFrom(old', k, low, old'[k].dst);
    }
  }

  lemma DivideAll(old': seq<Phi>, k: nat, front: seq<Phi>, f: Phi, moved: set<BlockId>, stay: set<BlockId>, n: BlockId,
                  low: Reg)
    requires k < |old'| && Divide(AllMoved, old', k, [], front, moved, stay, n, low)
    requires DistinctDsts(old') && LowPhis(old', low)
    requires FrontIs(old'[k], f, moved, low + k, NamesFor(old', k, low))
    ensures Divide(AllMoved, old', k + 1, [], RenamePhis(front + [f], map[old'[k].dst := low + k]), moved, stay, n, low)
  {
    var m := NamesFor(old', k, low);
    NotYetNamed(old', k, low);
    hide FrontIs, LowPhis, DistinctDsts;
    var all := front + [f];
    forall j | 0 <= j < |all|
      ensures FrontIs(old'[j], RenamePhis(all, map[old'[k].dst := low + k])[j], moved, low + j,
                m[old'[k].dst := low + k])
    {
      FrontRenamed(old'[j], all[j], moved, low + j, m, old'[k].dst, low + k);
    }
  }

  // ----- The function around the divided block -----

  /** Registers are below `low`, jumps go to blocks, and no other instruction defines the result of a phi of `h`. */
  ghost predicate Whole(f: Function, h: BlockId, low: Reg) {
    && h in f.blocks && Original(f, h, map[], low) && DistinctDsts(f.blocks[h].phis)
    && forall j :: 0 <= j < |f.blocks[h].phis| ==> OnlyPhi(f, h, f.blocks[h].phis[j].dst)
  }

  lemma WholeOriginal(f: Function, h: BlockId, low: Reg)
    requires Whole(f, h, low)
    ensures h in f.blocks && Original(f, h, map[], low)
  {
    hide Original;
  }

  ghost predicate OnlyPhi(f: Function, h: BlockId, d: Reg) {
    && (forall b, k :: b in f.blocks && 0 <= k < |f.blocks[b].body| ==> Defines(f.blocks[b].body[k]) != Some(d))
    && (forall b, k :: b in f.blocks && b != h && 0 <= k < |f.blocks[b].phis| ==> f.blocks[b].phis[k].dst != d)
  }

  lemma WholeNames(f: Function, h: BlockId, mode: Mode, low: Reg)
    requires Whole(f, h, low)
    ensures h in f.blocks && LowPhis(f.blocks[h].phis, low)
    ensures Original(f, h, RenamingAt(mode, f.blocks[h].phis, |f.blocks[h].phis|, low), low)
  {
    var phis := f.blocks[h].phis;
    var m := RenamingAt(mode, phis, |phis|, low);
    OriginalParts(f, h, map[], low, h);
    NamesNew(phis, |phis|, low) by { hide LowPairs; }
    assert NewNames(m, low);
    forall d | d in m ensures OnlyPhi(f, h, d) {
      var j := NameFrom(phis, |phis|, low, d);
    }
    hide OnlyPhi, NamesFor, NewNames, RenamingAt;
    forall b | b in f.blocks
      ensures LowPhis(f.blocks[b].phis, low) && LowBody(f.blocks[b].body, m, low)
              && LowOperands(TermOperands(f.blocks[b].term), low)
              && (forall x :: x in Successors(f.blocks[b].term) ==> x in f.blocks)
              && (b != h ==> NoneRenamed(f.blocks[b].phis, m))
    {
      OriginalParts(f, h, map[], low, b);
      OnlyPhiBlock(f, h, b, m, low);
    }
  }

  lemma OnlyPhiBlock(f: Function, h: BlockId, b: BlockId, m: Renaming, low: Reg)
    requires b in f.blocks && LowBody(f.blocks[b].body, map[], low) && forall d :: d in m ==> OnlyPhi(f, h, d)
    ensures LowBody(f.blocks[b].body, m, low) && (b != h ==> NoneRenamed(f.blocks[b].phis, m))
  {
    hide LowOperands, Operands;
    var body, phis := f.blocks[b].body, f.blocks[b].phis;
    forall k | 0 <= k < |body| ensures LowInstr(body[k], m, low) {
      assert LowInstr(body[k], map[], low);
      assert Defines(body[k]).Some? ==> Defines(body[k]).value in m ==> OnlyPhi(f, h, Defines(body[k]).value);
    }
    if b != h {
      forall k | 0 <= k < |phis| ensures phis[k].dst !in m {
        assert phis[k].dst in m ==> OnlyPhi(f, h, phis[k].dst);
      }
    }
  }

  // ----- The new function is one to divide again -----

  lemma {:induction false} OnceChoice(ps: seq<(Operand, BlockId)>, k: nat)
    requires OncePairs(ps) && k < |ps|
    ensures PhiChoice(ps, ps[k].1) == Some(ps[k].0)
  {
    if k > 0 {
      assert ps[1..][k - 1] == ps[k];
      assert OncePairs(ps[1..]);
      OnceChoice(ps[1..], k - 1);
    }
  }

  lemma RenamedLow(o: Operand, m: Renaming, low: Reg, top: Reg)
    requires LowOperand(o, low) && low <= top && forall r :: r in m ==> m[r] < top
    ensures LowOperand(RenameOperand(o, m), top)
  {
  }

  lemma FrontLow(p: Phi, f: Phi, moved: set<BlockId>, name: Reg, m: Renaming, low: Reg, top: Reg)
    requires FrontIs(p, f, moved, name, m) && LowPairs(p.pairs, low) && low <= top && forall r :: r in m ==> m[r] < top
    ensures LowPairs(f.pairs, top)
  {
    hide PhiChoice, RenameOperand, OncePairs;
    forall k | 0 <= k < |f.pairs| ensures LowOperand(f.pairs[k].0, top) {
      var q := f.pairs[k].1;
      OnceChoice(f.pairs, k);
      assert q in moved && PhiChoice(f.pairs, q) == RenameChoice(PhiChoice(p.pairs, q), m);
      ChoiceLow(p.pairs, q, low);
      RenamedLow(PhiChoice(p.pairs, q).value, m, low, top);
    }
  }

  lemma BackLow(p: Phi, b: Phi, mode: Mode, moved: set<BlockId>, stay: set<BlockId>, n: BlockId, name: Reg, low: Reg,
                top: Reg)
    requires BackIs(p, b, mode, moved, stay, n, name) && LowPairs(p.pairs, low) && low <= top && !mode.AllMoved?
    requires mode.Divided? ==> name < top
    ensures LowPairs(b.pairs, top)
  {
    if mode.OnePred? {
      assert LowPairs(p.pairs, top);
    } else {
      hide PhiChoice, OncePairs;
      forall k | 0 <= k < |b.pairs| ensures LowOperand(b.pairs[k].0, top) {
        var q := b.pairs[k].1;
        OnceChoice(b.pairs, k);
        assert q in stay + {n};
        ChoiceLow(p.pairs, q, low);
      }
    }
  }

  /** The phis of the two blocks name registers below `top`; in `h` they have their old results, in `n` new ones. */
  ghost predicate NewPhis(old': seq<Phi>, back: seq<Phi>, front: seq<Phi>, low: Reg, top: Reg) {
    && low <= top && LowPhis(back, top) && LowPhis(front, top)
    && (back == [] || (|back| == |old'| && forall j :: 0 <= j < |back| ==> back[j].dst == old'[j].dst))
    && ((forall j :: 0 <= j < |front| ==> front[j].dst >= low) || (back == [] && front == old'))
  }

  lemma DividedPhis(mode: Mode, old': seq<Phi>, back: seq<Phi>, front: seq<Phi>, moved: set<BlockId>,
                    stay: set<BlockId>, n: BlockId, low: Reg)
    requires LowPhis(old', low) && Divide(mode, old', |old'|, back, front, moved, stay, n, low)
    requires forall r ::
               r in RenamingAt(mode, old', |old'|, low) ==> RenamingAt(mode, old', |old'|, low)[r] < low + |front|
    ensures NewPhis(old', back, front, low, low + |front|)
  {
    var top, m := low + |front|, RenamingAt(mode, old', |old'|, low);
    hide BackIs, FrontIs, LowPairs;
    forall j | 0 <= j < |back| ensures back[j].dst == old'[j].dst && LowPairs(back[j].pairs, top) {
      assert BackIs(old'[j], back[j], mode, moved, stay, n, low + j);
      BackLow(old'[j], back[j], mode, moved, stay, n, low + j, low, top);
      BackDst(old'[j], back[j], mode, moved, stay, n, low + j);
    }
    forall j | 0 <= j < |front| ensures front[j].dst == low + j && LowPairs(front[j].pairs, top) {
      assert FrontIs(old'[j], front[j], moved, low + j, m);
      FrontLow(old'[j], front[j], moved, low + j, m, low, top);
      FrontDst(old'[j], front[j], moved, low + j, m);
    }
  }

  lemma BackDst(p: Phi, b: Phi, mode: Mode, moved: set<BlockId>, stay: set<BlockId>, n: BlockId, name: Reg)
    requires BackIs(p, b, mode, moved, stay, n, name)
    ensures b.dst == p.dst
  {
  }

  lemma DividedNew(f: Function, g: Function, h: BlockId, n: BlockId, back: seq<Phi>, front: seq<Phi>,
                   moved: set<BlockId>, stay: set<BlockId>, low: Reg, top: Reg)
    requires h in f.blocks && h in g.blocks && n in g.blocks && g.blocks[h].phis == back && g.blocks[n].phis == front
    requires var phis, mode := f.blocks[h].phis, ModeOf(moved, stay);
             LowPhis(phis, low) && Divide(mode, phis, |phis|, back, front, moved, stay, n, low)
    requires top == low + |front|
    ensures NewPhis(f.blocks[h].phis, g.blocks[h].phis, g.blocks[n].phis, low, top)
    ensures var m := RenamingAt(ModeOf(moved, stay), f.blocks[h].phis, |f.blocks[h].phis|, low);
            forall r :: r in m ==> m[r] < top
  {
    var phis, mode := f.blocks[h].phis, ModeOf(moved, stay);
    NamesBounded(phis, |phis|, low);
    hide BackIs, FrontIs, NamesFor, LowPhis, NewPhis;
    DividedPhis(mode, phis, back, front, moved, stay, n, low);
  }

  lemma TakenNew(f: Function, g: Function, h: BlockId, n: BlockId, low: Reg)
    requires h in f.blocks && h in g.blocks && n in g.blocks && LowPhis(f.blocks[h].phis, low)
    requires g.blocks[h].phis == [] && g.blocks[n].phis == f.blocks[h].phis
    ensures NewPhis(f.blocks[h].phis, g.blocks[h].phis, g.blocks[n].phis, low, low)
  {
    hide LowPairs;
  }

  lemma RenamedPhisLow(phis: seq<Phi>, m: Renaming, low: Reg, top: Reg)
    requires LowPhis(phis, low) && low <= top && forall r :: r in m ==> m[r] < top
    ensures LowPhis(RenamePhis(phis, m), top)
  {
    hide RenameOperand;
    forall k, j | 0 <= k < |phis| && 0 <= j < |phis[k].pairs|
      ensures LowOperand(RenamePairs(phis[k].pairs, m)[j].0, top)
    {
      RenamedLow(phis[k].pairs[j].0, m, low, top);
    }
  }

  lemma RenamedBodyLow(body: seq<Instr>, m: Renaming, low: Reg, top: Reg)
    requires LowBody(body, map[], low) && low <= top && forall r :: r in m ==> m[r] < top
    ensures LowBody(RenameBody(body, m), map[], top)
    ensures forall k :: 0 <= k < |body| ==> Defines(RenameBody(body, m)[k]) == Defines(body[k])
  {
    forall k | 0 <= k < |body|
      ensures LowInstr(RenameInstr(body[k], m), map[], top) && Defines(RenameInstr(body[k], m)) == Defines(body[k])
    {
      assert LowInstr(body[k], map[], low);
      RenamedInstrLow(body[k], m, low, top);
    }
    hide RenameInstr, LowInstr;
  }

  lemma RenamedInstrLow(i: Instr, m: Renaming, low: Reg, top: Reg)
    requires LowInstr(i, map[], low) && low <= top && forall r :: r in m ==> m[r] < top
    ensures LowInstr(RenameInstr(i, m), map[], top) && Defines(RenameInstr(i, m)) == Defines(i)
  {
    var os := Operands(i);
    forall k | 0 <= k < |os| ensures LowOperand(RenameOperand(os[k], m), top) {
      RenamedLow(os[k], m, low, top);
    }
    hide LowOperand;
    match i {
      case Pure(_, _, _) => assert Operands(RenameInstr(i, m)) == RenameAll(os, m);
      case Call(_, _, _, _) => assert Operands(RenameInstr(i, m)) == RenameAll(os, m);
      case Load(_, p) => assert Operands(RenameInstr(i, m)) == RenameAll(os, m);
      case Store(_, p) => assert Operands(RenameInstr(i, m)) == RenameAll(os, m);
      case Alloca(_, _) =>
    }
  }

  lemma RenamedTermLow(t: Term, m: Renaming, low: Reg, top: Reg, h: BlockId, n: BlockId)
    requires LowOperands(TermOperands(t), low) && low <= top && forall r :: r in m ==> m[r] < top
    ensures var t' := RenameTerm(t, m);
            && LowOperands(TermOperands(t'), top) && LowOperands(TermOperands(Redirect(t', h, n)), top)
            && (forall x :: x in Successors(t') ==> x in Successors(t))
            && (forall x :: x in Successors(Redirect(t', h, n)) ==> x in Successors(t) || x == n)
  {
    if TermOperands(t) != [] { RenamedLow(TermOperands(t)[0], m, low, top); }
  }

  /** One block of the new function. */
  ghost predicate LowBlock(g: Function, b: BlockId, top: Reg) {
    && b in g.blocks && LowPhis(g.blocks[b].phis, top) && LowBody(g.blocks[b].body, map[], top)
    && LowOperands(TermOperands(g.blocks[b].term), top)
    && forall x :: x in Successors(g.blocks[b].term) ==> x in g.blocks
  }

  lemma SplitLow(f: Function, g: Function, h: BlockId, n: BlockId, moved: set<BlockId>, m: Renaming, low: Reg, top: Reg,
                 b: BlockId)
    requires Split(f, g, h, n, moved, m, low) && Original(f, h, map[], low) && h in f.blocks && h in g.blocks
             && n in g.blocks
    requires NewPhis(f.blocks[h].phis, g.blocks[h].phis, g.blocks[n].phis, low, top) && forall r ::
               r in m ==> m[r] < top
    requires b in g.blocks
    ensures LowBlock(g, b, top)
  {
    assert g.blocks.Keys == f.blocks.Keys + {n} && g.blocks[n].body == [] && g.blocks[n].term == Br(h);
    if b != n {
      SplitParts(f, g, h, n, moved, m, low, b);
      OriginalParts(f, h, map[], low, b);
      hide *;
      NewPhisParts(f.blocks[h].phis, g.blocks[h].phis, g.blocks[n].phis, low, top);
      RenamedPhisLow(f.blocks[b].phis, m, low, top);
      RenamedBodyLow(f.blocks[b].body, m, low, top);
      RenamedTermLow(f.blocks[b].term, m, low, top, h, n);
      LowBlockIs(g, b, top);
    }
  }

  lemma NewPhisParts(old': seq<Phi>, back: seq<Phi>, front: seq<Phi>, low: Reg, top: Reg)
    requires NewPhis(old', back, front, low, top)
    ensures low <= top && LowPhis(back, top) && LowPhis(front, top)
  {
  }

  lemma LowBlockIs(g: Function, b: BlockId, top: Reg)
    requires b in g.blocks && LowPhis(g.blocks[b].phis, top) && LowBody(g.blocks[b].body, map[], top)
    requires LowOperands(TermOperands(g.blocks[b].term), top)
    requires forall x :: x in Successors(g.blocks[b].term) ==> x in g.blocks
    ensures LowBlock(g, b, top)
  {
  }

  /** Whatever block could be divided before has still distinct phis that no other instruction defines again. */
  lemma SplitOnly(f: Function, g: Function, h: BlockId, n: BlockId, x: BlockId, moved: set<BlockId>, m: Renaming,
                  low: Reg, top: Reg)
    requires Split(f, g, h, n, moved, m, low) && Whole(f, x, low) && h in f.blocks && h in g.blocks && n in g.blocks
    requires NewPhis(f.blocks[h].phis, g.blocks[h].phis, g.blocks[n].phis, low, top)
    ensures x in g.blocks && DistinctDsts(g.blocks[x].phis)
    ensures forall j :: 0 <= j < |g.blocks[x].phis| ==> OnlyPhi(g, x, g.blocks[x].phis[j].dst)
  {
    assert g.blocks.Keys == f.blocks.Keys + {n} && g.blocks[n].body == [];
    forall b | b in f.blocks
      ensures b in g.blocks && g.blocks[b].body == RenameBody(f.blocks[b].body, m)
      ensures b != h ==> g.blocks[b].phis == RenamePhis(f.blocks[b].phis, m)
    {
      SplitParts(f, g, h, n, moved, m, low, b);
    }
    OriginalParts(f, x, map[], low, x);
    hide Split, Original, LowPairs;
    forall j | 0 <= j < |g.blocks[x].phis| ensures OnlyPhi(g, x, g.blocks[x].phis[j].dst) {
      assert g.blocks[x].phis[j].dst == f.blocks[x].phis[j].dst;
      OnlyStill(f, g, h, n, x, f.blocks[x].phis[j].dst, m, low, top);
    }
  }

  lemma OnlyStill(f: Function, g: Function, h: BlockId, n: BlockId, x: BlockId, d: Reg, m: Renaming, low: Reg, top: Reg)
    requires OnlyPhi(f, x, d) && d < low && h in f.blocks && n !in f.blocks && x in f.blocks
    requires g.blocks.Keys == f.blocks.Keys + {n} && g.blocks[n].body == []
    requires forall b :: b in f.blocks ==> g.blocks[b].body == RenameBody(f.blocks[b].body, m)
    requires forall b :: b in f.blocks && b != h ==> g.blocks[b].phis == RenamePhis(f.blocks[b].phis, m)
    requires NewPhis(f.blocks[h].phis, g.blocks[h].phis, g.blocks[n].phis, low, top)
    requires x == h ==> g.blocks[h].phis != []
    ensures OnlyPhi(g, x, d)
  {
    hide LowPhis, RenamePairs;
    forall b, k | b in g.blocks && 0 <= k < |g.blocks[b].body| ensures Defines(g.blocks[b].body[k]) != Some(d) {
      if b != n { assert Defines(f.blocks[b].body[k]) != Some(d); }
    }
    forall b, k | b in g.blocks && b != x && 0 <= k < |g.blocks[b].phis| ensures g.blocks[b].phis[k].dst != d {
      if b != n { assert f.blocks[b].phis[k].dst != d; }
    }
  }

  lemma SplitWhole(f: Function, g: Function, h: BlockId, n: BlockId, x: BlockId, moved: set<BlockId>, m: Renaming,
                   low: Reg, top: Reg)
    requires Split(f, g, h, n, moved, m, low) && Original(f, h, map[], low) && Whole(f, x, low)
    requires h in f.blocks && h in g.blocks && n in g.blocks
    requires NewPhis(f.blocks[h].phis, g.blocks[h].phis, g.blocks[n].phis, low, top) && forall r ::
               r in m ==> m[r] < top
    ensures Whole(g, x, top)
  {
    hide *;
    SplitOnly(f, g, h, n, x, moved, m, low, top);
    forall b | b in g.blocks ensures LowBlock(g, b, top) {
      SplitLow(f, g, h, n, moved, m, low, top, b);
    }
    WholeIs(g, x, top);
  }

  lemma WholeIs(g: Function, x: BlockId, top: Reg)
    requires x in g.blocks && DistinctDsts(g.blocks[x].phis)
    requires forall j :: 0 <= j < |g.blocks[x].phis| ==> OnlyPhi(g, x, g.blocks[x].phis[j].dst)
    requires forall b :: b in g.blocks ==> LowBlock(g, b, top)
    ensures Whole(g, x, top)
  {
    hide LowPhis, LowBody, LowOperands, Successors, OnlyPhi, DistinctDsts;
    assert Original(g, x, map[], top);
  }

  lemma NewLinked(blocks: map<BlockId, Block>, pre: Lists, succ: Lists, n: BlockId)
    requires Linked(blocks, pre, succ) && n !in blocks
    ensures Linked(blocks[n := Block([], [], Ret(None))], pre[n := []], succ[n := []])
  {
    var pre', succ' := pre[n := []], succ[n := []];
    forall a, b ensures (Listed(succ', a, b) <==> Listed(succ, a, b)) && (Listed(pre', b, a) <==> Listed(pre, b, a)) {
    }
  }

  lemma SameSuccessors(t: Term, m: Renaming)
    ensures Successors(RenameTerm(t, m)) == Successors(t)
  {
  }

  lemma DividedLinked(was: map<BlockId, Block>, h: BlockId, n: BlockId, back: seq<Phi>, front: seq<Phi>, m: Renaming,
                      pre: Lists, succ: Lists)
    requires h in was && n !in was && Linked(was[n := Block([], [], Ret(None))], pre, succ)
    ensures Linked(Assembled(was, h, n, back, front, m), pre, succ)
  {
    var given, now := was[n := Block([], [], Ret(None))], Assembled(was, h, n, back, front, m);
    assert now.Keys == given.Keys;
    forall a | a in now ensures Successors(now[a].term) == Successors(given[a].term) {
      if a != n {
        SameSuccessors(was[a].term, m);
      }
    }
    hide Mirrored, Listed, Successors, Assembled;
  }

  lemma NobodyToNew(f: Function, h: BlockId, n: BlockId, back: seq<Phi>, front: seq<Phi>, m: Renaming, low: Reg)
    requires h in f.blocks && n !in f.blocks && Original(f, h, map[], low)
    ensures var now := Assembled(f.blocks, h, n, back, front, m); forall p :: p in now ==> n !in Successors(now[p].term)
  {
    var now := Assembled(f.blocks, h, n, back, front, m);
    forall p | p in now ensures n !in Successors(now[p].term) {
      if p != n {
        OriginalParts(f, h, map[], low, p);
        SameSuccessors(f.blocks[p].term, m);
      }
    }
  }

  lemma PredsListed(f: Function, now: map<BlockId, Block>, pre: Lists, succ: Lists, h: BlockId, n: BlockId,
                    back: seq<Phi>,
      front: seq<Phi>, m: Renaming)
    requires h in f.blocks && n !in f.blocks && now == Assembled(f.blocks, h, n, back, front, m)
             && Linked(now, pre, succ)
    ensures h in pre && h in now && n in now && h != n && SetOf(pre[h]) == Preds(f, h)
  {
    assert h in now && n in now;
    forall p ensures p in pre[h] <==> p in Preds(f, h) {
      assert Listed(pre, h, p) <==> Listed(succ, p, h);
      if p in f.blocks {
        SameSuccessors(f.blocks[p].term, m);
      }
    }
  }

  lemma OnceEach(blocks: map<BlockId, Block>, pre: Lists, succ: Lists, h: BlockId)
    requires Linked(blocks, pre, succ) && h in pre
    ensures NoRepeats(pre[h]) && forall k :: 0 <= k < |pre[h]| ==> pre[h][k] in blocks
  {
    forall k | 0 <= k < |pre[h]| ensures pre[h][k] in blocks {
      assert Listed(pre, h, pre[h][k]);
      assert Listed(succ, pre[h][k], h);
    }
  }

  /** The blocks in `done` jump to `n` instead of `h`. */
  function Redirected(blocks: map<BlockId, Block>, done: set<BlockId>, h: BlockId, n: BlockId): map<BlockId, Block> {
    map b | b in blocks :: if b in done then blocks[b].(term := Redirect(blocks[b].term, h, n)) else blocks[b]
  }

  lemma RedirectedNone(blocks: map<BlockId, Block>, h: BlockId, n: BlockId)
    ensures Redirected(blocks, {}, h, n) == blocks
  {
  }

  lemma RedirectedOne(blocks: map<BlockId, Block>, done: set<BlockId>, p: BlockId, h: BlockId, n: BlockId)
    requires p in blocks && p !in done
    ensures var now := Redirected(blocks, done, h, n);
            && p in now && now.Keys == blocks.Keys && now[p] == blocks[p]
            && Redirected(blocks, done + {p}, h, n) == now[p := now[p].(term := Redirect(now[p].term, h, n))]
  {
    hide Redirect;
  }

  lemma SetMore(pres: seq<BlockId>, k: nat, keep: set<BlockId>)
    requires k < |pres| && NoRepeats(pres)
    ensures var done := SetOf(pres[..k]) - keep;
            && pres[k] !in done
            && SetOf(pres[..k + 1]) - keep == if pres[k] in keep then done else done + {pres[k]}
  {
    assert pres[..k + 1] == pres[..k] + [pres[k]];
  }

  lemma BranchLinked(blocks: map<BlockId, Block>, pre: Lists, succ: Lists, h: BlockId, n: BlockId)
    requires Linked(blocks, pre, succ) && h in blocks && n in blocks && h != n && Successors(blocks[n].term) == []
    requires h in pre && n in succ
    ensures Linked(blocks[n := blocks[n].(term := Br(h))], pre[h := pre[h] + [n]], succ[n := succ[n] + [h]])
  {
    var pre', succ' := pre[h := pre[h] + [n]], succ[n := succ[n] + [h]];
    assert forall b :: !Listed(succ, n, b);
    assert !Listed(pre, h, n);
    assert forall k :: 0 <= k < |succ[n]| ==> Listed(succ, n, succ[n][k]);
    AppendNoRepeats(pre[h], n);
    hide NoRepeats;
    forall a, b
      ensures Listed(succ', a, b) <==> Listed(succ, a, b) || (a == n && b == h)
      ensures Listed(pre', b, a) <==> Listed(pre, b, a) || (a == n && b == h)
    {
    }
    OneIsNoRepeat(h);
  }

  lemma OneIsNoRepeat(h: BlockId)
    ensures NoRepeats([] + [h])
  {
  }

  lemma NothingAtNew(now: map<BlockId, Block>, was: map<BlockId, Block>, h: BlockId, n: BlockId, back: seq<Phi>,
                     front: seq<Phi>,
      m: Renaming, moved: set<BlockId>)
    requires h in was && n !in was && n !in moved && now == Assembled(was, h, n, back, front, m)
    ensures var new' := Redirected(now, moved, h, n);
            h in new' && n in new' && h != n && Successors(new'[n].term) == [] && new'[n] == Block(front, [], Ret(None))
  {
    hide Redirect, RenameBody, RenameTerm, RenameBlock;
  }

  /** Redirecting the predecessors of a divided block and giving the new block its jump makes the new function. */
  lemma SplitIs(f: Function, g: Function, h: BlockId, n: BlockId, back: seq<Phi>, front: seq<Phi>, moved: set<BlockId>,
      m: Renaming, low: Reg, mid: map<BlockId, Block>)
    requires h in f.blocks && n !in f.blocks && g.entry == f.entry && moved <= Preds(f, h)
    requires mid == Assembled(f.blocks, h, n, back, front, m)
    requires var r := Redirected(mid, moved, h, n); n in r && g.blocks == r[n := r[n].(term := Br(h))]
    requires PhisSplit(f.blocks[h].phis, front, back, n, moved, Preds(f, h) - moved, m, low)
    ensures Split(f, g, h, n, moved, m, low)
  {
    hide PhisSplit, Redirect, RenamePhis, RenameBody, RenameTerm, Preds;
    assert n !in moved by { NotPred(f, h, n); }
    assert g.blocks.Keys == f.blocks.Keys + {n};
  }

  lemma RedirectBack(t: Term, h: BlockId, n: BlockId)
    requires n !in Successors(t) && h != n
    ensures h !in Successors(Redirect(t, h, n)) && (n in Successors(Redirect(t, h, n)) <==> h in Successors(t))
  {
  }

  /** After the new block is in, it has the moved predecessors, and the block has the others and the new block. */
  lemma SplitPreds(f: Function, g: Function, h: BlockId, n: BlockId, moved: set<BlockId>, m: Renaming, low: Reg)
    requires Split(f, g, h, n, moved, m, low) && Original(f, h, m, low)
    ensures n in g.blocks && h in g.blocks && Preds(g, n) == moved && Preds(g, h) == Preds(f, h) - moved + {n}
  {
    forall p | p in f.blocks
      ensures h != n && p in g.blocks && IsPred(g, p, h) == (IsPred(f, p, h) && p !in moved)
      ensures IsPred(g, p, n) <==> p in moved
    {
      SplitParts(f, g, h, n, moved, m, low, p);
      OriginalParts(f, h, m, low, p);
      SameSuccessors(f.blocks[p].term, m);
      hide Split, Original;
      RedirectBack(RenameTerm(f.blocks[p].term, m), h, n);
    }
    hide Original, PhisSplit, Rewired;
    assert IsPred(g, n, h) && !IsPred(g, n, n);
  }

  lemma RedirectedPhis(f: Function, g: Function, h: BlockId, n: BlockId, back: seq<Phi>, front: seq<Phi>,
                       moved: set<BlockId>, m: Renaming, mid: map<BlockId, Block>)
    requires h in f.blocks && n !in f.blocks && mid == Assembled(f.blocks, h, n, back, front, m)
    requires var r := Redirected(mid, moved, h, n); n in r && g.blocks == r[n := r[n].(term := Br(h))]
    ensures h in g.blocks && n in g.blocks && g.blocks[h].phis == back && g.blocks[n].phis == front
  {
    hide Redirect, RenamePhis, RenameBody, RenameTerm;
  }

  lemma DividedComplete(f: Function, g: Function, h: BlockId, n: BlockId, mode: Mode, back: seq<Phi>, front: seq<Phi>,
                        moved: set<BlockId>, stay: set<BlockId>, low: Reg)
    requires h in f.blocks && h in g.blocks && n in g.blocks && g.blocks[h].phis == back && g.blocks[n].phis == front
    requires var phis := f.blocks[h].phis; Divide(mode, phis, |phis|, back, front, moved, stay, n, low)
    requires Preds(g, n) == moved && Preds(g, h) == stay + {n}
    ensures PhisComplete(g, h) && PhisComplete(g, n) && PhisOnce(g, n) && (PhisOnce(f, h) ==> PhisOnce(g, h))
  {
    hide Preds, NamesFor, Complete, OncePairs;
  }

  lemma TakenComplete(f: Function, g: Function, h: BlockId, n: BlockId)
    requires h in f.blocks && h in g.blocks && n in g.blocks
    requires g.blocks[h].phis == [] && g.blocks[n].phis == f.blocks[h].phis && Preds(g, n) == Preds(f, h)
    ensures PhisComplete(g, h) && (PhisComplete(f, h) <==> PhisComplete(g, n))
  {
    hide Preds, Complete;
  }

  lemma NotPred(f: Function, h: BlockId, n: BlockId)
    requires n !in f.blocks
    ensures n !in Preds(f, h)
  {
  }

  lemma NoneDone(was: map<BlockId, Block>, h: BlockId, n: BlockId, mode: Mode, moved: set<BlockId>, stay: set<BlockId>,
                 low: Reg)
    requires h in was && n !in was
    ensures PhisDone(was, was[n := Block([], [], Ret(None))], h, n, 0, mode, [], [], moved, stay, low)
  {
    forall b | b in was ensures RenameBlock(was[b], map[]) == was[b] {
      NoChange(was[b]);
    }
    hide RenamePhis, RenameBody, RenameTerm;
    assert was[h].phis[0..] == was[h].phis;
    assert [] + RenamePhis(was[h].phis, map[]) == RenamePhis(was[h].phis, map[]);
    assert was[n := Block([], [], Ret(None))] == Assembled(was, h, n, was[h].phis, [], map[]);
  }

  lemma TakenAssembled(was: map<BlockId, Block>, h: BlockId, n: BlockId, now: map<BlockId, Block>)
    requires h in was && n !in was && h != n
    requires now == was[n := Block(was[h].phis, [], Ret(None))][h := was[h].(phis := [])]
    ensures now == Assembled(was, h, n, [], was[h].phis, map[])
  {
    forall b | b in was ensures RenameBlock(was[b], map[]) == was[b] {
      NoChange(was[b]);
    }
    hide RenamePhis, RenameBody, RenameTerm;
    assert RenameBlock(was[h], map[]).body == was[h].body && RenameBlock(was[h], map[]).term == was[h].term;
  }

  lemma PhisLeft(was: map<BlockId, Block>, now: map<BlockId, Block>, h: BlockId, n: BlockId, k: nat, mode: Mode,
                 back: seq<Phi>,
      front: seq<Phi>, moved: set<BlockId>, stay: set<BlockId>, low: Reg)
    requires h in was && n !in was && k <= |was[h].phis|
             && PhisDone(was, now, h, n, k, mode, back, front, moved, stay, low)
    ensures h in now && |now[h].phis| == |back| + |was[h].phis| - k
  {
    hide Divide, Assembled, NamesFor;
    var m := RenamingAt(mode, was[h].phis, k, low);
    AssembledHas(was, h, n, back + RenamePhis(was[h].phis[k..], m), front, m);
  }

  lemma AllPhisDone(was: map<BlockId, Block>, now: map<BlockId, Block>, h: BlockId, n: BlockId, mode: Mode,
                    back: seq<Phi>,
      front: seq<Phi>, moved: set<BlockId>, stay: set<BlockId>, low: Reg)
    requires h in was && PhisDone(was, now, h, n, |was[h].phis|, mode, back, front, moved, stay, low)
    ensures Divide(mode, was[h].phis, |was[h].phis|, back, front, moved, stay, n, low)
    ensures now == Assembled(was, h, n, back, front, RenamingAt(mode, was[h].phis, |was[h].phis|, low))
  {
    hide Divide, Assembled, NamesFor;
    var m := RenamingAt(mode, was[h].phis, |was[h].phis|, low);
    assert was[h].phis[|was[h].phis|..] == [];
    assert back + RenamePhis([], m) == back;
  }

  // ----- The function object -----

  class Func {
    const entry: BlockId
    var blocks: map<BlockId, Block>
    var pre: Lists
    var succ: Lists
    var next: Reg

    ghost predicate Valid()
      reads this
    {
      Linked(blocks, pre, succ)
    }

    function Value(): Function
      reads this
    {
      Function(entry, blocks)
    }

    constructor (entry: BlockId, blocks: map<BlockId, Block>, pre: Lists, succ: Lists, next: Reg)
      requires Linked(blocks, pre, succ)
      ensures Valid() && Value() == Function(entry, blocks) && this.next == next
    {
      this.entry, this.blocks, this.pre, this.succ, this.next := entry, blocks, pre, succ, next;
    }

    /** Makes `p` jump to `to` instead of `from`.  If it jumped to `to` as well, its entries are then there twice. */
    method RedirectSucBasicBlock(p: BlockId, from: BlockId, to: BlockId)
      requires Valid() && p in blocks && from in blocks && to in blocks
      modifies this`blocks, this`pre, this`succ
      ensures Valid() <==>
                from !in Successors(old(blocks)[p].term) || from == to || to !in Successors(old(blocks)[p].term)
      ensures blocks == old(blocks)[p := old(blocks)[p].(term := Redirect(old(blocks)[p].term, from, to))]
      ensures p in old(succ) && from in old(pre) && to in old(pre)
      ensures succ == if from in Successors(old(blocks)[p].term) then RedirectedSucc(old(succ), p, from, to)
              else old(succ)
      ensures pre == if from in Successors(old(blocks)[p].term) then RedirectedPre(old(pre), p, from, to) else old(pre)
    {
      LinkedKeys(blocks, pre, succ);
      hide Redirect, Remove, Linked, Successors;
      ghost var was := blocks;
      var t := blocks[p].term;
      if from in Successors(t) {
        Relinked(blocks, pre, succ, p, from, to);
        blocks := blocks[p := blocks[p].(term := Redirect(t, from, to))];
        succ := succ[p := Remove(succ[p], from) + [to]];
        pre := pre[from := Remove(pre[from], p)];
        pre := pre[to := pre[to] + [p]];
      } else {
        RedirectNothing(t, from, to);
        assert blocks == was[p := was[p].(term := t)];
      }
    }

    /** `replace_all_use_with`: whatever reads `r` reads `x`. */
    method ReplaceAllUseWith(r: Reg, x: Reg)
      modifies this`blocks
      ensures blocks.Keys == old(blocks).Keys && forall b ::
                b in blocks ==> blocks[b] == RenameBlock(old(blocks)[b], map[r := x])
    {
      blocks := map b | b in blocks :: RenameBlock(blocks[b], map[r := x]);
    }

    /** The phi in `h` gives way to the one in the new block. */
    method MoveAway(h: BlockId, n: BlockId, at: nat, phi: Phi, phiAtBB: Phi, ghost was: map<BlockId, Block>,
        ghost now: map<BlockId, Block>, ghost k: nat, ghost front: seq<Phi>, ghost moved: set<BlockId>,
            ghost stay: set<BlockId>,
        ghost low: Reg)
      requires Divisible(was, h, n, moved, stay, low) && k < |was[h].phis| && |moved| != 1 && stay == {} && at == 0
      requires PhisDone(was, now, h, n, k, ModeOf(moved, stay), [], front, moved, stay, low)
      requires h in now && n in now && |now[h].phis| > 0 && phiAtBB.dst == low + |front| && phi == now[h].phis[0]
               && h != n
      requires JustFor(phiAtBB, moved)
      requires forall p :: p in moved ==> PhiChoice(phiAtBB.pairs, p) == PhiChoice(phi.pairs, p)
      requires blocks == now[n := now[n].(phis := now[n].phis + [phiAtBB])]
      modifies this`blocks
      ensures PhisDone(was, blocks, h, n, k + 1, ModeOf(moved, stay), [],
                       RenamePhis(front + [phiAtBB], map[phi.dst := phiAtBB.dst]), moved, stay, low)
    {
      hide *;
      ghost var given := blocks;
      ReplaceAllUseWith(phi.dst, phiAtBB.dst);
      ghost var mid := blocks;
      assert h in mid && mid[h] == RenameBlock(given[h], map[phi.dst := phiAtBB.dst]);
      RenamedLength(given[h], map[phi.dst := phiAtBB.dst]);
      blocks := blocks[h := blocks[h].(phis := blocks[h].phis[..at] + blocks[h].phis[at + 1..])];
      AllDone(was, h, n, k, front, moved, stay, low, phiAtBB, now, mid, blocks);
    }

    /** One turn of the loop over the phis of `h`; `at` is where the next phi is found. */
    method DividePhi(h: BlockId, n: BlockId, at: nat, keep: set<BlockId>, ghost was: map<BlockId, Block>, ghost k: nat,
        ghost back: seq<Phi>, ghost front: seq<Phi>, ghost moved: set<BlockId>, ghost stay: set<BlockId>,
            ghost low: Reg)
      returns (at': nat, ghost back': seq<Phi>, ghost front': seq<Phi>)
      requires Divisible(was, h, n, moved, stay, low) && k < |was[h].phis| && next == low + |front| && at == |back|
      requires stay <= keep && moved !! keep
      requires PhisDone(was, blocks, h, n, k, ModeOf(moved, stay), back, front, moved, stay, low)
      modifies this`blocks, this`next
      ensures PhisDone(was, blocks, h, n, k + 1, ModeOf(moved, stay), back', front', moved, stay, low)
      ensures next == low + |front'| && at' == |back'|
    {
      hide *;
      DivisibleParts(was, h, n, moved, stay, low);
      ghost var mode, old' := ModeOf(moved, stay), was[h].phis;
      ghost var m := RenamingAt(mode, old', k, low);
      ModeIs(moved, stay);
      PhiFound(was, blocks, h, n, k, mode, back, front, moved, stay, low);
      ghost var now := blocks;
      var phi := blocks[h].phis[at];
      var selfPhiMap, bbPhiMap := CollectPairs(phi.pairs, keep);
      MapSizes(old'[k], phi, m, moved, stay, keep, selfPhiMap, bbPhiMap);
      if |bbPhiMap| == 1 {
        var pre :| pre in bbPhiMap;
        var b := Phi(phi.dst, ReplaceBlock(phi.pairs, pre, n));
        blocks := blocks[h := blocks[h].(phis := blocks[h].phis[at := b])];
        at', back', front' := at + 1, back + [b], front;
        OneDone(was, h, n, k, back, front, moved, stay, low, pre, now, blocks);
        return;
      }
      var pairs := PairsOf(bbPhiMap);
      var phiAtBB := Phi(next, pairs);
      MapJustFor(phiAtBB, bbPhiMap);
      next := next + 1;
      blocks := blocks[n := blocks[n].(phis := blocks[n].phis + [phiAtBB])];
      selfPhiMap := if n in selfPhiMap then selfPhiMap else selfPhiMap[n := Reg(phiAtBB.dst)];
      OneMore(stay, selfPhiMap, n);
      if |selfPhiMap| == 1 {
        at', back' := at, back;
        front' := RenamePhis(front + [phiAtBB], map[phi.dst := phiAtBB.dst]);
        MoveAway(h, n, at, phi, phiAtBB, was, now, k, front, moved, stay, low);
      } else {
        pairs := PairsOf(selfPhiMap);
        var b := Phi(phi.dst, pairs);
        MapJustFor(b, selfPhiMap);
        blocks := blocks[h := blocks[h].(phis := blocks[h].phis[at := b])];
        at', back', front' := at + 1, back + [b], front + [phiAtBB];
        BothDone(was, h, n, k, back, front, moved, stay, low, phiAtBB, b, now, blocks);
      }
    }

    /** The loop over the phis of `h`. */
    method DividePhis(h: BlockId, n: BlockId, keep: set<BlockId>, ghost was: map<BlockId, Block>,
                      ghost moved: set<BlockId>,
        ghost stay: set<BlockId>)
      returns (ghost back: seq<Phi>, ghost front: seq<Phi>)
      requires Divisible(was, h, n, moved, stay, next) && blocks == was[n := Block([], [], Ret(None))]
      requires stay <= keep && moved !! keep
      modifies this`blocks, this`next
      ensures h in was && var old' := was[h].phis;
              var mode := ModeOf(moved, stay);
              && Divide(mode, old', |old'|, back, front, moved, stay, n, old(next)) && next == old(next) + |front|
              && blocks == Assembled(was, h, n, back, front, RenamingAt(mode, old', |old'|, old(next)))
    {
      hide *;
      DivisibleParts(was, h, n, moved, stay, next);
      ghost var k, low, mode := 0, next, ModeOf(moved, stay);
      var at := 0;
      back, front := [], [];
      NoneDone(was, h, n, mode, moved, stay, low);
      PhisLeft(was, blocks, h, n, k, mode, back, front, moved, stay, low);
      while at != |blocks[h].phis|
        invariant h in was && k <= |was[h].phis| && h in blocks && at == |back| && next == low + |front|
        invariant PhisDone(was, blocks, h, n, k, mode, back, front, moved, stay, low)
        invariant |blocks[h].phis| == |back| + |was[h].phis| - k
        decreases |was[h].phis| - k
      {
        at, back, front := DividePhi(h, n, at, keep, was, k, back, front, moved, stay, low);
        k := k + 1;
        PhisLeft(was, blocks, h, n, k, mode, back, front, moved, stay, low);
      }
      AllPhisDone(was, blocks, h, n, mode, back, front, moved, stay, low);
    }

    /** The predecessors outside `keep` jump to `n` instead of `h`. */
    method RedirectPreds(h: BlockId, n: BlockId, keep: set<BlockId>)
      requires Valid() && h in blocks && n in blocks && h != n
      requires forall p :: p in blocks ==> n !in Successors(blocks[p].term)
      modifies this`blocks, this`pre, this`succ
      ensures Valid() && h in old(pre)
      ensures blocks == Redirected(old(blocks), SetOf(old(pre)[h]) - keep, h, n)
    {
      LinkedKeys(blocks, pre, succ);
      var pres := pre[h];
      ghost var was := blocks;
      OnceEach(blocks, pre, succ, h);
      assert SetOf(pres[..0]) - keep == {};
      RedirectedNone(was, h, n);
      hide *;
      for k := 0 to |pres|
        invariant Valid() && blocks == Redirected(was, SetOf(pres[..k]) - keep, h, n) && blocks.Keys == was.Keys
      {
        SetMore(pres, k, keep);
        ghost var done := SetOf(pres[..k]) - keep;
        if pres[k] !in keep {
          RedirectedOne(was, done, pres[k], h, n);
          RedirectSucBasicBlock(pres[k], h, n);
        }
      }
      assert pres[..|pres|] == pres;
    }

    /** The new block jumps to `h`. */
    method CreateBr(h: BlockId, n: BlockId)
      requires Valid() && h in blocks && n in blocks && h != n && Successors(blocks[n].term) == []
      modifies this`blocks, this`pre, this`succ
      ensures Valid() && blocks == old(blocks)[n := old(blocks)[n].(term := Br(h))]
    {
      LinkedKeys(blocks, pre, succ);
      BranchLinked(blocks, pre, succ, h, n);
      blocks := blocks[n := blocks[n].(term := Br(h))];
      pre := pre[h := pre[h] + [n]];
      succ := succ[n := succ[n] + [h]];
    }

    /** `add_block_before`: the predecessors in `keep` still jump to `h`, the others to the new block `n`. */
    method AddBlockBefore(h: BlockId, n: BlockId, keep: set<BlockId>) returns (ghost m: Renaming)
      requires Valid() && Whole(Value(), h, next)
      requires Divisible(blocks, h, n, Preds(Value(), h) - keep, Preds(Value(), h) * keep, next)
      modifies this
      ensures Valid() && Original(old(Value()), h, m, old(next))
      ensures Split(old(Value()), Value(), h, n, Preds(old(Value()), h) - keep, m, old(next))
      ensures PhisComplete(Value(), h) && PhisComplete(Value(), n) && PhisOnce(Value(), n)
      ensures PhisOnce(old(Value()), h) ==> PhisOnce(Value(), h)
      ensures forall x :: Whole(old(Value()), x, old(next)) ==> Whole(Value(), x, next)
    {
      hide *;
      ghost var f, was, low := Value(), blocks, next;
      ValueIs();
      ghost var moved, stay := Preds(f, h) - keep, Preds(f, h) * keep;
      DivisibleParts(blocks, h, n, moved, stay, low);
      ValidIs();
      NewLinked(blocks, pre, succ, n);
      blocks, pre, succ := blocks[n := Block([], [], Ret(None))], pre[n := []], succ[n := []];
      ghost var back, front := DividePhis(h, n, keep, was, moved, stay);
      ghost var mode := ModeOf(moved, stay);
      m := RenamingAt(mode, was[h].phis, |was[h].phis|, low);
      ghost var mid := blocks;
      DividedLinked(was, h, n, back, front, m, pre, succ);
      ValidIs();
      WholeOriginal(f, h, low);
      NobodyToNew(f, h, n, back, front, m, low);
      PredsListed(f, mid, pre, succ, h, n, back, front, m);
      RedirectPreds(h, n, keep);
      NothingAtNew(mid, was, h, n, back, front, m, moved);
      CreateBr(h, n);
      WholeNames(f, h, ModeOf(moved, stay), low);
      ModeIs(moved, stay);
      DivideSplits(mode, was[h].phis, back, front, moved, stay, n, low);
      assert Preds(f, h) - moved == stay;
      ValueIs();
      SplitIs(f, Value(), h, n, back, front, moved, m, low, mid);
      SplitPreds(f, Value(), h, n, moved, m, low);
      RedirectedPhis(f, Value(), h, n, back, front, moved, m, mid);
      DividedComplete(f, Value(), h, n, mode, back, front, moved, stay, low);
      DividedNew(f, Value(), h, n, back, front, moved, stay, low, next);
      forall x | Whole(f, x, low) ensures Whole(Value(), x, next) {
        SplitWhole(f, Value(), h, n, x, moved, m, low, next);
      }
    }

    /** `add_block_before` without a set: every predecessor goes through `n`, which takes the phis as they are. */
    method AddBlockBeforeAll(h: BlockId, n: BlockId)
      requires Valid() && Whole(Value(), h, next) && n !in blocks
      modifies this`blocks, this`pre, this`succ
      ensures Valid() && Split(old(Value()), Value(), h, n, Preds(old(Value()), h), map[], old(next))
      ensures PhisComplete(Value(), h) && (PhisComplete(old(Value()), h) <==> PhisComplete(Value(), n))
      ensures forall x :: Whole(old(Value()), x, next) ==> Whole(Value(), x, next)
    {
      hide *;
      ghost var f, was := Value(), blocks;
      ValueIs();
      ValidIs();
      WholeOriginal(f, h, next);
      ghost var phis, moved := blocks[h].phis, Preds(f, h);
      NewLinked(blocks, pre, succ, n);
      LinkedKeys(blocks, pre, succ);
      blocks, pre, succ := blocks[n := Block([], [], Ret(None))], pre[n := []], succ[n := []];
      blocks := blocks[n := blocks[n].(phis := blocks[h].phis)];
      blocks := blocks[h := blocks[h].(phis := [])];
      TakenAssembled(was, h, n, blocks);
      ghost var mid := blocks;
      DividedLinked(was, h, n, [], phis, map[], pre, succ);
      ValidIs();
      NobodyToNew(f, h, n, [], phis, map[], next);
      PredsListed(f, mid, pre, succ, h, n, [], phis, map[]);
      RedirectPreds(h, n, {});
      assert moved - {} == moved;
      NotPred(f, h, n);
      NothingAtNew(mid, was, h, n, [], phis, map[], moved);
      CreateBr(h, n);
      OriginalParts(f, h, map[], next, h);
      TakenSplits(phis, n, moved, next);
      assert Preds(f, h) - moved == {};
      ValueIs();
      SplitIs(f, Value(), h, n, [], phis, moved, map[], next, mid);
      SplitPreds(f, Value(), h, n, moved, map[], next);
      RedirectedPhis(f, Value(), h, n, [], phis, moved, map[], mid);
      TakenComplete(f, Value(), h, n);
      TakenNew(f, Value(), h, n, next);
      forall x | Whole(f, x, next) ensures Whole(Value(), x, next) {
        SplitWhole(f, Value(), h, n, x, moved, map[], next, next);
      }
    }

    lemma ValueIs()
      ensures Value() == Function(entry, blocks)
    {
    }

    lemma ValidIs()
      ensures Valid() <==> Linked(blocks, pre, succ)
    {
    }
  }

  lemma OneMore(stay: set<BlockId>, selfPhiMap: map<BlockId, Operand>, n: BlockId)
    requires selfPhiMap.Keys == stay + {n} && n !in stay
    ensures |selfPhiMap| == |stay| + 1 && (|stay| == 0 <==> stay == {})
  {
    assert |selfPhiMap.Keys| == |selfPhiMap|;
  }

  lemma MapJustFor(p: Phi, mp: map<BlockId, Operand>)
    requires OncePairs(p.pairs) && forall b :: PhiChoice(p.pairs, b) == if b in mp then Some(mp[b]) else None
    ensures JustFor(p, mp.Keys)
  {
  }

  lemma RenamedLength(b: Block, m: Renaming)
    ensures |RenameBlock(b, m).phis| == |b.phis|
  {
  }

  /** The phi the loop is at. */
  lemma PhiFound(was: map<BlockId, Block>, now: map<BlockId, Block>, h: BlockId, n: BlockId, k: nat, mode: Mode,
                 back: seq<Phi>,
      front: seq<Phi>, moved: set<BlockId>, stay: set<BlockId>, low: Reg)
    requires Divisible(was, h, n, moved, stay, low) && k < |was[h].phis|
    requires PhisDone(was, now, h, n, k, mode, back, front, moved, stay, low)
    ensures var old' := was[h].phis;
            var m := RenamingAt(mode, old', k, low);
            && h in now && n in now && h != n && |back| < |now[h].phis| && now[n].phis == front
            && now[h].phis[|back|] == Phi(old'[k].dst, RenamePairs(old'[k].pairs, m))
            && Complete(old'[k], moved + stay) && moved != {} && n !in stay && n !in moved
    ensures mode.AllMoved? ==> back == []
    ensures mode.OnePred? ==> front == []
  {
    var old' := was[h].phis;
    var m := RenamingAt(mode, old', k, low);
    AssembledHas(was, h, n, back + RenamePhis(old'[k..], m), front, m);
    hide RenamePairs, PhiChoice, LowPhis, DistinctDsts, Assembled;
    assert (back + RenamePhis(old'[k..], m))[|back|] == RenamePhis(old'[k..], m)[0];
  }

  lemma MapSizes(old': Phi, phi: Phi, m: Renaming, moved: set<BlockId>, stay: set<BlockId>, keep: set<BlockId>,
      selfPhiMap: map<BlockId, Operand>, bbPhiMap: map<BlockId, Operand>)
    requires Complete(old', moved + stay) && phi.pairs == RenamePairs(old'.pairs, m) && stay <= keep && moved !! keep
    requires forall b :: b in selfPhiMap <==> b in keep && PhiChoice(phi.pairs, b).Some?
    requires forall b :: b in bbPhiMap <==> b !in keep && PhiChoice(phi.pairs, b).Some?
    ensures selfPhiMap.Keys == stay && bbPhiMap.Keys == moved
    ensures |bbPhiMap| == |moved| && |selfPhiMap| == |stay|
    ensures forall b :: PhiChoice(phi.pairs, b) == RenameChoice(PhiChoice(old'.pairs, b), m)
  {
    hide PhiChoice;
    forall b ensures PhiChoice(phi.pairs, b) == RenameChoice(PhiChoice(old'.pairs, b), m) {
      RenamedChoice(old'.pairs, b, m);
    }
    assert selfPhiMap.Keys == stay;
    assert bbPhiMap.Keys == moved;
    assert |bbPhiMap.Keys| == |bbPhiMap| && |selfPhiMap.Keys| == |selfPhiMap|;
  }

  lemma OnlyOne(s: set<BlockId>, x: BlockId, y: BlockId)
    requires |s| == 1 && x in s && y in s
    ensures x == y
  {
    if x != y {
      assert {x, y} <= s;
      CardinalityLe({x, y}, s);
    }
  }

  lemma {:induction false} CardinalityLe(a: set<BlockId>, b: set<BlockId>)
    requires a <= b
    ensures |a| <= |b|
    decreases a
  {
    if a != {} {
      var x :| x in a;
      CardinalityLe(a - {x}, b - {x});
    }
  }

  lemma OneBack(p: Phi, b: Phi, pre: BlockId, moved: set<BlockId>, stay: set<BlockId>, n: BlockId, name: Reg)
    requires Complete(p, moved + stay) && n !in moved && n !in stay && moved !! stay && |moved| == 1 && pre in moved
    requires b == Phi(p.dst, ReplaceBlock(p.pairs, pre, n))
    ensures BackIs(p, b, OnePred, moved, stay, n, name)
  {
    hide PhiChoice, ReplaceBlock;
    assert n !in moved + stay;
    forall q ensures PhiChoice(b.pairs, q) == if q == n then PhiChoice(p.pairs, pre) else if q == pre then None
        else PhiChoice(p.pairs, q) {
      ReplacedChoice(p.pairs, pre, n, q);
    }
    forall q | q in moved ensures q == pre {
      OnlyOne(moved, q, pre);
    }
    assert Complete(b, stay + {n});
    if OncePairs(p.pairs) { ReplacedOnce(p.pairs, pre, n); }
  }

  lemma ReplacedOnce(ps: seq<(Operand, BlockId)>, p: BlockId, n: BlockId)
    requires OncePairs(ps) && PhiChoice(ps, n).None?
    ensures OncePairs(ReplaceBlock(ps, p, n))
  {
    PhiChoiceIn(ps, n);
  }

  /** The list of phis after the one at the end of `back` was exchanged, and after it was taken out. */
  lemma NextPhi(back: seq<Phi>, old': seq<Phi>, k: nat, m: Renaming, b: Phi)
    requires k < |old'|
    ensures var l := back + RenamePhis(old'[k..], m);
            && l[|back| := b] == (back + [b]) + RenamePhis(old'[k + 1..], m)
            && l[..|back|] + l[|back| + 1..] == back + RenamePhis(old'[k + 1..], m)
  {
    var l := back + RenamePhis(old'[k..], m);
    assert RenamePhis(old'[k..], m)[1..] == RenamePhis(old'[k + 1..], m);
    assert l[|back| + 1..] == RenamePhis(old'[k..], m)[1..];
  }

  lemma OneDone(was: map<BlockId, Block>, h: BlockId, n: BlockId, k: nat, back: seq<Phi>, front: seq<Phi>,
                moved: set<BlockId>,
      stay: set<BlockId>, low: Reg, pre: BlockId, now: map<BlockId, Block>, now': map<BlockId, Block>)
    requires Divisible(was, h, n, moved, stay, low) && k < |was[h].phis| && |moved| == 1 && pre in moved
    requires PhisDone(was, now, h, n, k, ModeOf(moved, stay), back, front, moved, stay, low)
    requires h in now && |back| < |now[h].phis|
    requires var phi := now[h].phis[|back|];
             now' == now[h := now[h].(phis := now[h].phis[|back| := Phi(phi.dst, ReplaceBlock(phi.pairs, pre, n))])]
    ensures PhisDone(was, now', h, n, k + 1, ModeOf(moved, stay),
                     back + [Phi(now[h].phis[|back|].dst, ReplaceBlock(now[h].phis[|back|].pairs, pre, n))], front,
                         moved, stay, low)
  {
    var old' := was[h].phis;
    PhiFound(was, now, h, n, k, OnePred, back, front, moved, stay, low);
    PairsSame(old'[k].pairs);
    var b := Phi(old'[k].dst, ReplaceBlock(old'[k].pairs, pre, n));
    OneBack(old'[k], b, pre, moved, stay, n, low + k);
    NextPhi(back, old', k, map[], b);
    AssembledHas(was, h, n, back + RenamePhis(old'[k..], map[]), front, map[]);
    AssembledBack(was, h, n, back + RenamePhis(old'[k..], map[]), front,
        map[], (back + [b]) + RenamePhis(old'[k + 1..], map[]));
    hide Assembled, RenamePhis, RenamePairs, ReplaceBlock, LowPhis, DistinctDsts, Complete, BackIs;
    DivideOne(old', k, back, b, moved, stay, n, low);
  }

  lemma BothDone(was: map<BlockId, Block>, h: BlockId, n: BlockId, k: nat, back: seq<Phi>, front: seq<Phi>,
                 moved: set<BlockId>,
      stay: set<BlockId>, low: Reg, f: Phi, b: Phi, now: map<BlockId, Block>, now': map<BlockId, Block>)
    requires Divisible(was, h, n, moved, stay, low) && k < |was[h].phis| && |moved| != 1 && stay != {}
    requires PhisDone(was, now, h, n, k, ModeOf(moved, stay), back, front, moved, stay, low)
    requires h in now && n in now && |back| < |now[h].phis| && f.dst == low + |front|
             && b.dst == now[h].phis[|back|].dst
    requires forall p :: p in moved ==> PhiChoice(f.pairs, p) == PhiChoice(now[h].phis[|back|].pairs, p)
    requires forall p :: p in stay ==> PhiChoice(b.pairs, p) == PhiChoice(now[h].phis[|back|].pairs, p)
    requires PhiChoice(b.pairs, n) == Some(Reg(f.dst)) && JustFor(f, moved) && JustFor(b, stay + {n})
    requires now' == now[n := now[n].(phis := now[n].phis + [f])][h := now[h].(phis := now[h].phis[|back| := b])]
    ensures PhisDone(was, now', h, n, k + 1, ModeOf(moved, stay), back + [b], front + [f], moved, stay, low)
  {
    hide *;
    DivisibleParts(was, h, n, moved, stay, low);
    var old' := was[h].phis;
    ModeIs(moved, stay);
    NoRenaming(Divided, old', k, low);
    DoneParts(was, now, h, n, k, Divided, back, front, moved, stay, low);
    PhiFound(was, now, h, n, k, Divided, back, front, moved, stay, low);
    BothParts(old'[k], f, b, now[h].phis[|back|], moved, stay, n, low + k);
    NextPhi(back, old', k, map[], b);
    var l, l' := back + RenamePhis(old'[k..], map[]), (back + [b]) + RenamePhis(old'[k + 1..], map[]);
    AssembledHas(was, h, n, l, front, map[]);
    AssembledFront(was, h, n, l, front, map[], front + [f]);
    AssembledHas(was, h, n, l, front + [f], map[]);
    AssembledBack(was, h, n, l, front + [f], map[], l');
    DivideBoth(old', k, back, b, front, f, moved, stay, n, low);
    DoneIs(was, now', h, n, k + 1, Divided, back + [b], front + [f], moved, stay, low);
  }

  lemma ModeIs(moved: set<BlockId>, stay: set<BlockId>)
    ensures ModeOf(moved, stay) == if |moved| == 1 then OnePred else if stay == {} then AllMoved else Divided
  {
  }

  lemma NoRenaming(mode: Mode, old': seq<Phi>, k: nat, low: Reg)
    requires k <= |old'| && !mode.AllMoved?
    ensures RenamingAt(mode, old', k, low) == map[]
  {
  }

  lemma BothParts(p: Phi, f: Phi, b: Phi, q: Phi, moved: set<BlockId>, stay: set<BlockId>, n: BlockId, name: Reg)
    requires q == Phi(p.dst, RenamePairs(p.pairs, map[])) && f.dst == name && b.dst == q.dst
    requires forall x :: x in moved ==> PhiChoice(f.pairs, x) == PhiChoice(q.pairs, x)
    requires forall x :: x in stay ==> PhiChoice(b.pairs, x) == PhiChoice(q.pairs, x)
    requires PhiChoice(b.pairs, n) == Some(Reg(f.dst)) && JustFor(f, moved) && JustFor(b, stay + {n})
    ensures BackIs(p, b, Divided, moved, stay, n, name) && FrontIs(p, f, moved, name, map[])
  {
    hide PhiChoice;
    PairsSame(p.pairs);
    forall x | x in moved ensures PhiChoice(f.pairs, x) == RenameChoice(PhiChoice(p.pairs, x), map[]) {
      RenameChoiceNothing(PhiChoice(p.pairs, x));
    }
  }

  lemma DoneParts(was: map<BlockId, Block>, now: map<BlockId, Block>, h: BlockId, n: BlockId, k: nat, mode: Mode,
      back: seq<Phi>, front: seq<Phi>, moved: set<BlockId>, stay: set<BlockId>, low: Reg)
    requires h in was && k <= |was[h].phis| && PhisDone(was, now, h, n, k, mode, back, front, moved, stay, low)
    ensures var m := if mode.AllMoved? then NamesFor(was[h].phis, k, low) else map[];
            now == Assembled(was, h, n, back + RenamePhis(was[h].phis[k..], m), front, m)
            && Divide(mode, was[h].phis, k, back, front, moved, stay, n, low)
    ensures |front| == if mode.OnePred? then 0 else k
  {
    hide Assembled, RenamePhis, BackIs, FrontIs, NamesFor;
  }

  lemma DoneIs(was: map<BlockId, Block>, now: map<BlockId, Block>, h: BlockId, n: BlockId, k: nat, mode: Mode,
      back: seq<Phi>, front: seq<Phi>, moved: set<BlockId>, stay: set<BlockId>, low: Reg)
    requires h in was && k <= |was[h].phis| && Divide(mode, was[h].phis, k, back, front, moved, stay, n, low)
    requires var m := if mode.AllMoved? then NamesFor(was[h].phis, k, low) else map[];
             now == Assembled(was, h, n, back + RenamePhis(was[h].phis[k..], m), front, m)
    ensures PhisDone(was, now, h, n, k, mode, back, front, moved, stay, low)
  {
    hide Assembled, RenamePhis, Divide, NamesFor;
  }

  lemma DivisibleParts(was: map<BlockId, Block>, h: BlockId, n: BlockId, moved: set<BlockId>, stay: set<BlockId>,
                       low: Reg)
    requires Divisible(was, h, n, moved, stay, low)
    ensures h in was && n !in was && n !in moved && n !in stay && moved !! stay
    ensures LowPhis(was[h].phis, low) && DistinctDsts(was[h].phis)
  {
  }

  lemma AllDone(was: map<BlockId, Block>, h: BlockId, n: BlockId, k: nat, front: seq<Phi>, moved: set<BlockId>,
      stay: set<BlockId>, low: Reg, f: Phi, now: map<BlockId, Block>, mid: map<BlockId, Block>, now': map<BlockId,
          Block>)
    requires Divisible(was, h, n, moved, stay, low) && k < |was[h].phis| && |moved| != 1 && stay == {}
    requires PhisDone(was, now, h, n, k, ModeOf(moved, stay), [], front, moved, stay, low)
    requires h in now && n in now && |now[h].phis| > 0 && f.dst == low + |front|
    requires JustFor(f, moved)
    requires forall p :: p in moved ==> PhiChoice(f.pairs, p) == PhiChoice(now[h].phis[0].pairs, p)
    requires var given := now[n := now[n].(phis := now[n].phis + [f])];
             mid.Keys == given.Keys
             && forall b :: b in mid ==> mid[b] == RenameBlock(given[b], map[now[h].phis[0].dst := f.dst])
    requires h in mid && |mid[h].phis| > 0
    requires now' == mid[h := mid[h].(phis := mid[h].phis[..0] + mid[h].phis[0 + 1..])]
    ensures PhisDone(was, now', h, n, k + 1, ModeOf(moved, stay), [],
                     RenamePhis(front + [f], map[now[h].phis[0].dst := f.dst]), moved, stay, low)
  {
    hide *;
    DivisibleParts(was, h, n, moved, stay, low);
    var old' := was[h].phis;
    ModeIs(moved, stay);
    DoneParts(was, now, h, n, k, AllMoved, [], front, moved, stay, low);
    PhiFound(was, now, h, n, k, AllMoved, [], front, moved, stay, low);
    NamesNext(old', k, low);
    var m, d, x := NamesFor(old', k, low), old'[k].dst, low + k;
    var m' := m[d := x];
    NotYetNamed(old', k, low);
    FrontFound(old'[k], f, now[h].phis[0], moved, x, m);
    DivideAll(old', k, front, f, moved, stay, n, low);
    var l := [] + RenamePhis(old'[k..], m);
    AssembledFront(was, h, n, l, front, m, front + [f]);
    AssembledHas(was, h, n, l, front, m);
    AssembledRenamed(was, h, n, l, front + [f], m, d, x, mid);
    assert l == RenamePhis(old'[k..], m);
    TwicePhis(old'[k..], m, d, x);
    var l', front' := RenamePhis(old'[k..], m'), RenamePhis(front + [f], map[d := x]);
    AssembledHas(was, h, n, l', front', m');
    AssembledBack(was, h, n, l', front', m', l'[..0] + l'[0 + 1..]);
    NextPhi([], old', k, m', f);
    assert [] + l' == l';
    DoneIs(was, now', h, n, k + 1, AllMoved, [], front', moved, stay, low);
  }

  lemma NamesNext(old': seq<Phi>, k: nat, low: Reg)
    requires k < |old'|
    ensures NamesFor(old', k + 1, low) == NamesFor(old', k, low)[old'[k].dst := low + k]
    ensures RenamingAt(AllMoved, old', k, low) == NamesFor(old', k, low)
  {
  }

  lemma FrontFound(p: Phi, f: Phi, q: Phi, moved: set<BlockId>, name: Reg, m: Renaming)
    requires f.dst == name && q.pairs == RenamePairs(p.pairs, m)
    requires JustFor(f, moved) && forall b :: b in moved ==> PhiChoice(f.pairs, b) == PhiChoice(q.pairs, b)
    ensures FrontIs(p, f, moved, name, m)
  {
    hide PhiChoice, RenamePairs;
    forall b | b in moved ensures PhiChoice(f.pairs, b) == RenameChoice(PhiChoice(p.pairs, b), m) {
      RenamedChoice(p.pairs, b, m);
    }
  }
}
