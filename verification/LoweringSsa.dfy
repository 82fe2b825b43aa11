/** What is built for a function is in static single assignment form, with every definition before its uses:
    the form the promotion of slots expects. */
module LoweringSsa {
  import opened IR
  import A = Ast
  import opened Builder
  import opened Lowering

  // ----- The tree of insertion points -----

  /** For every block that was made, where the insertion point was at the time. */
  type Parents = map<BlockId, BlockId>

  /** `a` is `b` or above it. */
  ghost predicate Above(d: Parents, a: BlockId, b: BlockId)
    decreases b
  {
    a == b || (b in d && d[b] < b && Above(d, a, d[b]))
  }

  ghost predicate More(d: Parents, d': Parents) {
    forall b :: b in d ==> b in d' && d'[b] == d[b]
  }

  lemma {:induction false} AboveMore(d: Parents, d': Parents, a: BlockId, b: BlockId)
    requires More(d, d') && Above(d, a, b)
    ensures Above(d', a, b)
    decreases b
  {
    if a != b { AboveMore(d, d', a, d[b]); }
  }

  lemma {:induction false} AboveTrans(d: Parents, a: BlockId, b: BlockId, c: BlockId)
    requires Above(d, a, b) && Above(d, b, c)
    ensures Above(d, a, c)
    decreases c
  {
    if b != c { AboveTrans(d, a, b, d[c]); }
  }

  /** A branch from `c` to `x` keeps everything above `x` on the way. */
  ghost predicate Target(d: Parents, x: BlockId, c: BlockId) {
    x in d && d[x] < x && Above(d, d[x], c)
  }

  lemma TargetMore(d: Parents, d': Parents, x: BlockId, c: BlockId, c': BlockId)
    requires Target(d, x, c) && More(d, d') && Above(d', c, c')
    ensures Target(d', x, c')
  {
    AboveMore(d, d', d[x], c);
    AboveTrans(d', d[x], c, c');
  }

  // ----- Definitions and uses in what is built -----

  /** The register the instruction at `x` defines. */
  function Gives(s: Build, x: Ref): Option<Reg> {
    if x.b !in s.blocks then None
    else
      var p := s.blocks[x.b];
      match x
      case PhiRef(_, k) => if k < |p.phis| then Some(p.phis[k].dst) else None
      case BodyRef(_, k) => if k < |p.body| then Defines(p.body[k]) else None
      case TermRef(_) => None
  }

  /** The operands at position `k`; the terminator comes last. */
  function Takes(p: Part, k: nat): seq<Operand> {
    if k < |p.body| then Operands(p.body[k]) else if p.term.Some? then TermOperands(p.term.value) else []
  }

  /** `x` comes before position `k` of block `b`, in the block itself or in one above it. */
  ghost predicate Earlier(d: Parents, x: Ref, b: BlockId, k: nat) {
    if x.b == b then x.PhiRef? || (x.BodyRef? && x.k < k) else Above(d, x.b, b)
  }

  ghost predicate Usable(s: Build, d: Parents, r: Reg, b: BlockId, k: nat) {
    r < s.nextReg && forall x :: Gives(s, x) == Some(r) ==> Earlier(d, x, b, k)
  }

  ghost predicate DefsOk(s: Build) {
    && (forall x :: Gives(s, x).Some? ==> Gives(s, x).value < s.nextReg)
    && (forall x, y :: Gives(s, x).Some? && Gives(s, x) == Gives(s, y) ==> x == y)
  }

  ghost predicate EdgesOk(s: Build, d: Parents) {
    && 0 !in d && (forall b :: b in d ==> b < s.nextBlock)
    && (forall p, x :: EdgeIn(s, p, x) ==> Target(d, x, p))
  }

  ghost predicate UsesOk(s: Build, d: Parents) {
    forall b, k: nat, r: Reg :: b in s.blocks && k <= |s.blocks[b].body| && Reg(r) in Takes(s.blocks[b], k)
        ==> Usable(s, d, r, b, k)
  }

  /** An address in a register comes from an address computation. */
  ghost predicate Computed(s: Build, o: Operand) {
    o.Reg? ==> forall x :: Gives(s, x) == Some(o.r) ==> x.BodyRef? && s.blocks[x.b].body[x.k].Pure?
  }

  ghost predicate ConstPairs(p: Phi) {
    forall j :: 0 <= j < |p.pairs| ==> p.pairs[j].0.Const?
  }

  /** Phis choose between constants, and loads from memory take computed addresses. */
  ghost predicate PlainOk(s: Build) {
    && (forall b, k :: b in s.blocks && 0 <= k < |s.blocks[b].phis| ==> ConstPairs(s.blocks[b].phis[k]))
    && (forall b, k ::
          b in s.blocks && 0 <= k < |s.blocks[b].body| && s.blocks[b].body[k].Load? && s.blocks[b].body[k].p.Addr?
          ==> Computed(s, s.blocks[b].body[k].p.a))
  }

  ghost predicate Sound(s: Build, d: Parents) {
    DefsOk(s) && EdgesOk(s, d) && UsesOk(s, d) && PlainOk(s)
  }

  /** The operand can be used at the insertion point. */
  ghost predicate Available(s: Build, d: Parents, o: Operand) {
    o.Reg? && s.cur in s.blocks ==> Usable(s, d, o.r, s.cur, |s.blocks[s.cur].body|)
  }

  /** Old registers get no new definitions. */
  ghost predicate Stable(s: Build, t: Build) {
    s.nextReg <= t.nextReg && forall x ::
        Gives(t, x).Some? && Gives(t, x).value < s.nextReg ==> Gives(s, x) == Gives(t, x)
  }

  /** `t` goes on from `s`, somewhere below it. */
  ghost predicate Nested(s: Build, d: Parents, t: Build, d': Parents) {
    Sound(t, d') && More(d, d') && Stable(s, t) && Above(d', s.cur, t.cur)
  }

  lemma NestedSelf(s: Build, d: Parents)
    requires Sound(s, d)
    ensures Nested(s, d, s, d)
  {
  }

  lemma NestedTrans(s: Build, d: Parents, t: Build, d1: Parents, u: Build, d2: Parents)
    requires Nested(s, d, t, d1) && Nested(t, d1, u, d2)
    ensures Nested(s, d, u, d2)
  {
    hide Sound, Gives;
    AboveMore(d1, d2, s.cur, t.cur);
    AboveTrans(d2, s.cur, t.cur, u.cur);
  }

  /** What could be used still can. */
  lemma StillAvailable(s: Build, d: Parents, t: Build, d': Parents, o: Operand)
    requires Nested(s, d, t, d') && Grown(s, t, {}) && Available(s, d, o)
    ensures Available(t, d', o)
  {
    hide Sound, Above;
    if o.Reg? {
      forall x | Gives(t, x) == Some(o.r) ensures Earlier(d', x, t.cur, |t.blocks[t.cur].body|) {
        assert Gives(s, x) == Some(o.r) && Earlier(d, x, s.cur, |s.blocks[s.cur].body|);
        EarlierLater(s, d, t, d', x);
      }
    }
  }

  lemma EarlierLater(s: Build, d: Parents, t: Build, d': Parents, x: Ref)
    requires More(d, d') && Above(d', s.cur, t.cur) && Grown(s, t, {}) && x.b in s.blocks
    requires Earlier(d, x, s.cur, |s.blocks[s.cur].body|)
    ensures Earlier(d', x, t.cur, |t.blocks[t.cur].body|)
  {
    if x.b != s.cur {
      AboveMore(d, d', x.b, s.cur);
      AboveTrans(d', x.b, s.cur, t.cur);
    }
  }

  // ----- One step of the builder -----

  lemma SoundAnywhere(s: Build, d: Parents, b: BlockId)
    requires Sound(s, d)
    ensures Sound(MoveTo(s, b), d)
  {
    assert forall x :: Gives(MoveTo(s, b), x) == Gives(s, x);
    assert forall p, x :: EdgeIn(MoveTo(s, b), p, x) == EdgeIn(s, p, x);
    hide Target, Above;
    forall b', k: nat, r: Reg | b' in s.blocks && k <= |s.blocks[b'].body| && Reg(r) in Takes(s.blocks[b'], k)
      ensures Usable(MoveTo(s, b), d, r, b', k)
    {
      assert Usable(s, d, r, b', k);
    }
  }

  lemma UsableStays(s: Build, d: Parents, t: Build, d': Parents, r: Reg, b: BlockId, k: nat)
    requires Usable(s, d, r, b, k) && Stable(s, t) && More(d, d')
    ensures Usable(t, d', r, b, k)
  {
    hide Gives, Above;
    forall x | Gives(t, x) == Some(r) ensures Earlier(d', x, b, k) {
      assert Gives(s, x) == Some(r) && Earlier(d, x, b, k);
      if x.b != b { AboveMore(d, d', x.b, b); }
    }
  }

  lemma ComputedStays(s: Build, t: Build, o: Operand)
    requires Computed(s, o) && Stable(s, t) && (o.Reg? ==> o.r < s.nextReg)
    requires forall b :: b in s.blocks && b in t.blocks ==> s.blocks[b].body <= t.blocks[b].body
    ensures Computed(t, o)
  {
    if o.Reg? {
      forall x | Gives(t, x) == Some(o.r) ensures x.BodyRef? && t.blocks[x.b].body[x.k].Pure? {
        assert Gives(s, x) == Some(o.r);
        assert s.blocks[x.b].body[x.k].Pure?;
      }
    }
  }

  // An instruction at the end of the insertion point.

  function Ended(s: Build, i: Instr): Build {
    if Defines(i).Some? then Define(s, i) else Emit(s, i)
  }

  lemma EndedParts(s: Build, i: Instr)
    requires Open(s) && (Defines(i).Some? ==> Defines(i).value == s.nextReg)
    ensures var t := Ended(s, i);
            && t.blocks == s.blocks[s.cur := s.blocks[s.cur].(body := s.blocks[s.cur].body + [i])]
            && t.cur == s.cur && t.nextBlock == s.nextBlock
                && t.nextReg == (if Defines(i).Some? then s.nextReg + 1 else s.nextReg)
    ensures forall x :: Gives(Ended(s, i), x) == if x == BodyRef(s.cur, |s.blocks[s.cur].body|) then Defines(i)
            else Gives(s, x)
    ensures forall p, x :: EdgeIn(Ended(s, i), p, x) == EdgeIn(s, p, x)
  {
    var t := Ended(s, i);
    var body := s.blocks[s.cur].body;
    forall x ensures Gives(t, x) == if x == BodyRef(s.cur, |body|) then Defines(i) else Gives(s, x) {
      if x.BodyRef? && x.b == s.cur && x.k < |body| { assert (body + [i])[x.k] == body[x.k]; }
    }
  }

  lemma EndedDefs(s: Build, d: Parents, i: Instr)
    requires Open(s) && DefsOk(s) && (Defines(i).Some? ==> Defines(i).value == s.nextReg)
    ensures DefsOk(Ended(s, i)) && Stable(s, Ended(s, i))
  {
    EndedParts(s, i);
    hide Gives, Ended;
  }

  lemma EndedEdges(s: Build, d: Parents, i: Instr)
    requires Open(s) && EdgesOk(s, d) && (Defines(i).Some? ==> Defines(i).value == s.nextReg)
    ensures EdgesOk(Ended(s, i), d)
  {
    EndedParts(s, i);
    hide Gives, Ended, Target, EdgeIn;
  }

  lemma EndedUses(s: Build, d: Parents, i: Instr)
    requires Open(s) && UsesOk(s, d) && (Defines(i).Some? ==> Defines(i).value == s.nextReg)
    requires Stable(s, Ended(s, i)) && forall o :: o in Operands(i) ==> Available(s, d, o)
    ensures UsesOk(Ended(s, i), d)
  {
    EndedParts(s, i);
    var t := Ended(s, i);
    var body := s.blocks[s.cur].body;
    hide Gives, Ended, Usable, Above, Stable;
    forall b, k: nat, r: Reg | b in t.blocks && k <= |t.blocks[b].body| && Reg(r) in Takes(t.blocks[b], k)
      ensures Usable(t, d, r, b, k)
    {
      if b == s.cur && k == |body| {
        assert Available(s, d, Reg(r));
        UsableStays(s, d, t, d, r, b, k);
      } else if b == s.cur && k > |body| {
      } else {
        assert b == s.cur ==> (body + [i])[k] == body[k];
        assert Reg(r) in Takes(s.blocks[b], k);
        UsableStays(s, d, t, d, r, b, k);
      }
    }
  }

  lemma EndedPlain(s: Build, d: Parents, i: Instr)
    requires Open(s) && PlainOk(s) && UsesOk(s, d) && (Defines(i).Some? ==> Defines(i).value == s.nextReg)
    requires Stable(s, Ended(s, i)) && (i.Load? && i.p.Addr? ==> Computed(s, i.p.a) && Available(s, d, i.p.a))
    ensures PlainOk(Ended(s, i))
  {
    EndedParts(s, i);
    var t := Ended(s, i);
    var body := s.blocks[s.cur].body;
    hide Gives, Ended, Above, Stable, Computed;
    forall b, k | b in t.blocks && 0 <= k < |t.blocks[b].body| && t.blocks[b].body[k].Load?
        && t.blocks[b].body[k].p.Addr?
      ensures Computed(t, t.blocks[b].body[k].p.a)
    {
      var a := t.blocks[b].body[k].p.a;
      if b == s.cur && k == |body| {
        assert a == i.p.a;
        ComputedStays(s, t, a);
      } else {
        assert b == s.cur ==> (body + [i])[k] == body[k];
        assert s.blocks[b].body[k].p.a == a && a in Takes(s.blocks[b], k);
        if a.Reg? { assert Usable(s, d, a.r, b, k); }
        ComputedStays(s, t, a);
      }
    }
  }

  lemma EndedNested(s: Build, d: Parents, i: Instr)
    requires Open(s) && Sound(s, d) && (Defines(i).Some? ==> Defines(i).value == s.nextReg)
    requires forall o :: o in Operands(i) ==> Available(s, d, o)
    requires i.Load? && i.p.Addr? ==> Computed(s, i.p.a)
    ensures Nested(s, d, Ended(s, i), d)
    ensures Defines(i).Some? ==>
              Available(Ended(s, i), d, Reg(s.nextReg)) && (i.Pure? ==> Computed(Ended(s, i), Reg(s.nextReg)))
  {
    hide Available, Computed, Gives, UsesOk, EdgesOk, PlainOk;
    EndedDefs(s, d, i);
    EndedEdges(s, d, i);
    EndedUses(s, d, i);
    EndedPlain(s, d, i) by { assert i.Load? && i.p.Addr? ==> i.p.a in Operands(i); }
    EndedParts(s, i);
    if Defines(i).Some? { EndedGiven(s, d, i); }
  }

  lemma EndedGiven(s: Build, d: Parents, i: Instr)
    requires Open(s) && DefsOk(s) && Defines(i) == Some(s.nextReg)
    ensures Available(Ended(s, i), d, Reg(s.nextReg)) && (i.Pure? ==> Computed(Ended(s, i), Reg(s.nextReg)))
  {
    EndedParts(s, i);
    hide Gives, Ended;
    assert (s.blocks[s.cur].body + [i])[|s.blocks[s.cur].body|] == i;
  }

  // A terminator.

  /** `t` is `s` with the insertion point ended by `tm`. */
  ghost predicate Closed(s: Build, t: Build, tm: Term) {
    && Open(s) && t.blocks == s.blocks[s.cur := s.blocks[s.cur].(term := Some(tm))]
    && t.cur == s.cur && t.nextBlock == s.nextBlock && t.nextReg == s.nextReg
  }

  lemma ClosedParts(s: Build, t: Build, tm: Term)
    requires Closed(s, t, tm)
    ensures forall x :: Gives(t, x) == Gives(s, x)
    ensures forall p, x :: EdgeIn(t, p, x) ==> EdgeIn(s, p, x) || (p == s.cur && x in Successors(tm))
  {
    hide Successors;
  }

  lemma ClosedUses(s: Build, d: Parents, t: Build, tm: Term)
    requires Closed(s, t, tm) && UsesOk(s, d) && Stable(s, t) && forall o ::
               o in TermOperands(tm) ==> Available(s, d, o)
    ensures UsesOk(t, d)
  {
    var body := s.blocks[s.cur].body;
    hide Gives, Usable, Above, Stable, TermOperands;
    forall b, k: nat, r: Reg | b in t.blocks && k <= |t.blocks[b].body| && Reg(r) in Takes(t.blocks[b], k)
      ensures Usable(t, d, r, b, k)
    {
      if b == s.cur && k == |body| {
        assert Available(s, d, Reg(r));
      } else {
        assert Reg(r) in Takes(s.blocks[b], k);
      }
      UsableStays(s, d, t, d, r, b, k);
    }
  }

  lemma ClosedNested(s: Build, d: Parents, t: Build, tm: Term)
    requires Closed(s, t, tm) && Sound(s, d)
    requires forall o :: o in TermOperands(tm) ==> Available(s, d, o)
    requires forall x :: x in Successors(tm) ==> Target(d, x, s.cur)
    ensures Nested(s, d, t, d)
  {
    ClosedParts(s, t, tm);
    hide Gives, EdgeIn, Target, Successors, TermOperands, UsesOk;
    assert DefsOk(t) && Stable(s, t);
    ClosedUses(s, d, t, tm);
    hide Available;
    assert EdgesOk(t, d);
    ClosedPlain(s, t, tm);
  }

  lemma ClosedPlain(s: Build, t: Build, tm: Term)
    requires Closed(s, t, tm) && PlainOk(s) && forall x :: Gives(t, x) == Gives(s, x)
    ensures PlainOk(t)
  {
    hide Gives;
    forall b, k | b in t.blocks && 0 <= k < |t.blocks[b].body| && t.blocks[b].body[k].Load?
        && t.blocks[b].body[k].p.Addr?
      ensures Computed(t, t.blocks[b].body[k].p.a)
    {
      assert Computed(s, s.blocks[b].body[k].p.a);
    }
  }

  lemma BranchNested(s: Build, d: Parents, x: BlockId)
    requires Open(s) && Sound(s, d) && Target(d, x, s.cur)
    ensures Nested(s, d, Branch(s, x), d)
  {
    hide Sound, Target, Nested;
    ClosedNested(s, d, Branch(s, x), Br(x));
  }

  lemma CondBranchNested(s: Build, d: Parents, o: Operand, x: BlockId, y: BlockId)
    requires Open(s) && Sound(s, d) && Target(d, x, s.cur) && Target(d, y, s.cur) && Available(s, d, o)
    ensures Nested(s, d, CondBranch(s, o, x, y), d)
  {
    hide Sound, Target, Nested, Available;
    if x == y {
      BranchNested(s, d, x);
    } else {
      ClosedNested(s, d, CondBranch(s, o, x, y), CondBr(o, x, y));
    }
  }

  lemma ExitNested(s: Build, d: Parents, r: Option<Operand>)
    requires Open(s) && Sound(s, d) && (r.Some? ==> Available(s, d, r.value))
    ensures Nested(s, d, Exit(s, r), d)
  {
    hide Sound, Target, Nested, Available;
    ClosedNested(s, d, Exit(s, r), Ret(r));
  }

  // A new block, made at the insertion point.

  lemma CreateParts(s: Build)
    requires Valid(s)
    ensures s.nextBlock !in s.blocks
    ensures forall x :: Gives(Create(s), x) == Gives(s, x)
    ensures forall p, x :: EdgeIn(Create(s), p, x) == EdgeIn(s, p, x)
  {
  }

  lemma CreateUses(s: Build, d: Parents, d': Parents)
    requires Valid(s) && UsesOk(s, d) && Stable(s, Create(s)) && More(d, d')
    ensures UsesOk(Create(s), d')
  {
    CreateParts(s);
    var t := Create(s);
    hide Gives, Usable, Above, Stable, More;
    forall b, k: nat, r: Reg | b in t.blocks && k <= |t.blocks[b].body| && Reg(r) in Takes(t.blocks[b], k)
      ensures Usable(t, d', r, b, k)
    {
      assert b in s.blocks && Reg(r) in Takes(s.blocks[b], k);
      UsableStays(s, d, t, d', r, b, k);
    }
  }

  lemma CreateNested(s: Build, d: Parents) returns (d': Parents)
    requires Valid(s) && Sound(s, d)
    ensures d' == d[s.nextBlock := s.cur] && Nested(s, d, Create(s), d') && Target(d', s.nextBlock, s.cur)
  {
    d' := d[s.nextBlock := s.cur];
    CreateParts(s);
    var t := Create(s);
    hide Gives, UsesOk;
    assert More(d, d') && DefsOk(t) && Stable(s, t);
    CreateUses(s, d, d');
    CreatePlain(s);
    hide PlainOk, DefsOk, EdgeIn, Stable;
    forall p, x | EdgeIn(t, p, x) ensures Target(d', x, p) {
      assert Target(d, x, p);
      TargetMore(d, d', x, p, p);
    }
  }

  lemma CreatePlain(s: Build)
    requires Valid(s) && PlainOk(s)
    ensures PlainOk(Create(s))
  {
    CreateParts(s);
    var t := Create(s);
    hide Gives;
    forall b, k | b in t.blocks && 0 <= k < |t.blocks[b].body| && t.blocks[b].body[k].Load?
        && t.blocks[b].body[k].p.Addr?
      ensures Computed(t, t.blocks[b].body[k].p.a)
    {
      assert b in s.blocks && Computed(s, s.blocks[b].body[k].p.a);
    }
  }

  // The phi of a condition used as a number.

  lemma PhiParts(s: Build, pairs: seq<(Operand, BlockId)>)
    requires Open(s) && Here(s) == EMPTY
    ensures forall x :: Gives(AddPhi(s, pairs), x) == if x == PhiRef(s.cur, 0) then Some(s.nextReg) else Gives(s, x)
    ensures forall p, x :: EdgeIn(AddPhi(s, pairs), p, x) == EdgeIn(s, p, x)
  {
  }

  lemma PhiUses(s: Build, d: Parents, pairs: seq<(Operand, BlockId)>)
    requires Open(s) && Here(s) == EMPTY && UsesOk(s, d) && Stable(s, AddPhi(s, pairs))
    ensures UsesOk(AddPhi(s, pairs), d)
  {
    var t := AddPhi(s, pairs);
    hide Gives, Usable, Above, Stable;
    forall b, k: nat, r: Reg | b in t.blocks && k <= |t.blocks[b].body| && Reg(r) in Takes(t.blocks[b], k)
      ensures Usable(t, d, r, b, k)
    {
      assert Reg(r) in Takes(s.blocks[b], k);
      UsableStays(s, d, t, d, r, b, k);
    }
  }

  lemma PhiPlain(s: Build, d: Parents, pairs: seq<(Operand, BlockId)>)
    requires Open(s) && Here(s) == EMPTY && PlainOk(s) && UsesOk(s, d) && Stable(s, AddPhi(s, pairs))
    requires ConstPairs(Phi(s.nextReg, pairs))
    ensures PlainOk(AddPhi(s, pairs))
  {
    var t := AddPhi(s, pairs);
    hide Gives, Usable, Above, Stable, Computed, ConstPairs;
    forall b, k | b in t.blocks && 0 <= k < |t.blocks[b].body| && t.blocks[b].body[k].Load?
        && t.blocks[b].body[k].p.Addr?
      ensures Computed(t, t.blocks[b].body[k].p.a)
    {
      var a := s.blocks[b].body[k].p.a;
      assert a in Takes(s.blocks[b], k);
      if a.Reg? { assert Usable(s, d, a.r, b, k)
          && a.r < s.nextReg by { assert Reg(a.r) in Takes(s.blocks[b], k); UsableOld(s, d, a.r, b, k); } }
      ComputedStays(s, t, a);
    }
  }

  lemma UsableOld(s: Build, d: Parents, r: Reg, b: BlockId, k: nat)
    requires Usable(s, d, r, b, k)
    ensures r < s.nextReg
  {
  }

  lemma PhiNested(s: Build, d: Parents, pairs: seq<(Operand, BlockId)>)
    requires Open(s) && Here(s) == EMPTY && Sound(s, d) && ConstPairs(Phi(s.nextReg, pairs))
    ensures Nested(s, d, AddPhi(s, pairs), d) && Available(AddPhi(s, pairs), d, Reg(s.nextReg))
  {
    PhiParts(s, pairs);
    var t := AddPhi(s, pairs);
    hide Gives, UsesOk, EdgeIn, Target, ConstPairs;
    assert DefsOk(t) && Stable(s, t);
    PhiUses(s, d, pairs);
    PhiPlain(s, d, pairs);
    hide PlainOk;
    assert EdgesOk(t, d);
  }

  lemma {:induction false} CastConst(preds: seq<BlockId>, bbt: BlockId, r: Reg)
    ensures ConstPairs(Phi(r, CastPairs(preds, bbt)))
  {
    if preds != [] {
      CastConst(preds[1..], bbt, r);
      var ps, rest := CastPairs(preds, bbt), CastPairs(preds[1..], bbt);
      assert ConstPairs(Phi(r, rest));
      forall j | 0 <= j < |ps| ensures ps[j].0.Const? {
        if j > 0 { assert ps[j] == rest[j - 1]; }
      }
    }
  }

  // A block that is taken out again.

  lemma RemoveNested(s: Build, d: Parents, b: BlockId)
    requires Sound(s, d) && b in s.blocks && s.blocks[b] == EMPTY
    ensures Nested(s, d, Remove(s, b), d)
  {
    var t := Remove(s, b);
    assert forall x :: Gives(t, x) == Gives(s, x);
    assert forall p, x :: EdgeIn(t, p, x) ==> EdgeIn(s, p, x);
    hide Gives, EdgeIn, Target;
    forall b', k: nat, r: Reg | b' in t.blocks && k <= |t.blocks[b'].body| && Reg(r) in Takes(t.blocks[b'], k)
      ensures Usable(t, d, r, b', k)
    {
      assert Usable(s, d, r, b', k);
    }
    forall b', k | b' in t.blocks && 0 <= k < |t.blocks[b'].body| && t.blocks[b'].body[k].Load?
        && t.blocks[b'].body[k].p.Addr?
      ensures Computed(t, t.blocks[b'].body[k].p.a)
    {
      assert Computed(s, s.blocks[b'].body[k].p.a);
    }
  }

  // ----- Moving the insertion point -----

  /** `b` was made at `c`. */
  ghost predicate Child(d: Parents, b: BlockId, c: BlockId) {
    b in d && d[b] == c && c < b
  }

  lemma ChildIs(d: Parents, d': Parents, b: BlockId, c: BlockId, x: BlockId)
    requires Child(d, b, c) && More(d, d') && Above(d', c, x)
    ensures Child(d', b, c) && Above(d', c, b) && Target(d', b, x)
  {
    assert Above(d', c, d'[b]);
  }

  lemma NestedMove(s: Build, d: Parents, t: Build, d': Parents, b: BlockId)
    requires Nested(s, d, t, d') && Above(d', s.cur, b)
    ensures Nested(s, d, MoveTo(t, b), d') && Sound(MoveTo(t, b), d')
  {
    assert forall x :: Gives(MoveTo(t, b), x) == Gives(t, x);
    hide Gives, DefsOk, EdgesOk, UsesOk, PlainOk, Above;
    SoundAnywhere(t, d', b);
  }

  lemma NestedParts(s: Build, d: Parents, t: Build, d': Parents)
    requires Nested(s, d, t, d')
    ensures Sound(t, d') && More(d, d') && Above(d', s.cur, t.cur) && Stable(s, t)
  {
  }

  lemma NestedTarget(s: Build, d: Parents, t: Build, d': Parents, x: BlockId)
    requires Nested(s, d, t, d') && Target(d, x, s.cur)
    ensures Target(d', x, t.cur)
  {
    TargetMore(d, d', x, s.cur, t.cur);
  }

  lemma NestedChild(s: Build, d: Parents, t: Build, d': Parents, b: BlockId)
    requires Nested(s, d, t, d') && Child(d, b, s.cur)
    ensures Child(d', b, s.cur) && Above(d', s.cur, b) && Target(d', b, t.cur)
  {
    ChildIs(d, d', b, s.cur, t.cur);
  }

  lemma OneNested(s: Build, d: Parents) returns (d': Parents)
    requires Ready(s) && Sound(s, d)
    ensures Nested(s, d, Create(s), d') && Child(d', s.nextBlock, s.cur)
  {
    hide Sound, Nested;
    d' := CreateNested(s, d);
  }

  lemma TwoNested(s: Build, d: Parents) returns (d': Parents)
    requires Ready(s) && Sound(s, d)
    ensures Nested(s, d, Create(Create(s)), d') && Child(d', s.nextBlock, s.cur) && Child(d', s.nextBlock + 1, s.cur)
  {
    CreatedReady(s);
    hide Sound, Nested, Child, Above, More, Ready;
    var d1 := OneNested(s, d);
    NestedParts(s, d, Create(s), d1);
    d' := OneNested(Create(s), d1);
    assert Create(s).cur == s.cur && Create(s).nextBlock == s.nextBlock + 1;
    NestedChild(Create(s), d1, Create(Create(s)), d', s.nextBlock);
    NestedTrans(s, d, Create(s), d1, Create(Create(s)), d');
  }

  lemma ThreeNested(s: Build, d: Parents) returns (d': Parents)
    requires Ready(s) && Sound(s, d)
    ensures Nested(s, d, Create(Create(Create(s))), d')
    ensures Child(d', s.nextBlock, s.cur) && Child(d', s.nextBlock + 1, s.cur) && Child(d', s.nextBlock + 2, s.cur)
  {
    CreatedReady(s);
    CreatedReady(Create(s));
    hide Sound, Nested, Child, Above, More, Ready;
    var d1 := TwoNested(s, d);
    var t := Create(Create(s));
    NestedParts(s, d, t, d1);
    d' := OneNested(t, d1);
    assert t.cur == s.cur && t.nextBlock == s.nextBlock + 2;
    NestedChild(t, d1, Create(t), d', s.nextBlock);
    NestedChild(t, d1, Create(t), d', s.nextBlock + 1);
    NestedTrans(s, d, t, d1, Create(t), d');
  }

  // ----- Expressions -----

  lemma DefineNests(s: Build, d: Parents, t: Build, d1: Parents, i: Instr)
    requires Ready(t) && Nested(s, d, t, d1) && Defines(i) == Some(t.nextReg)
    requires forall o :: o in Operands(i) ==> Available(t, d1, o)
    requires i.Load? && i.p.Addr? ==> Computed(t, i.p.a)
    ensures Nested(s, d, Define(t, i), d1) && Available(Define(t, i), d1, Reg(t.nextReg))
    ensures i.Pure? ==> Computed(Define(t, i), Reg(t.nextReg))
  {
    hide Sound, Available, Computed, Gives;
    EndedNested(t, d1, i);
    NestedTrans(s, d, t, d1, Define(t, i), d1);
  }

  lemma {:induction false} ExpNests(e: A.Exp, s: Build, d: Parents) returns (d': Parents)
    requires Ready(s) && A.ProperExp(e) && Sound(s, d)
    ensures Nested(s, d, LowerExp(e, s).0, d') && Available(LowerExp(e, s).0, d', LowerExp(e, s).1)
    decreases e, 0
  {
    hide Ready, ExpBuilt, Define, Sound, Nested, Available, Computed, Grown, Valid;
    NestedSelf(s, d);
    match e
    case Num(i) =>
      d' := d;
      ConstAvailable(s, d, IntVal(i));
    case RVal(x, idx) =>
      if x.Scalar? {
        d' := d;
        DefineNests(s, d, s, d, Load(s.nextReg, Local(x.slot)));
      } else {
        PointerGrows(x, idx, s);
        var (t, p) := LowerPointer(x, idx, s);
        BuiltReady(s, t);
        d' := PointerNests(x, idx, s, d);
        if |idx| == |x.dims| {
          DefineNests(s, d, t, d', Load(t.nextReg, Addr(p)));
        }
      }
    case Math(op, l, r) =>
      var (t, x) := LowerExp(l, s);
      var (u, y) := LowerExp(r, t);
      var d1 := ExpNests(l, s, d);
      BothReady(l, r, s);
      NestedParts(s, d, t, d1);
      d' := ExpNests(r, t, d1);
      BothNested(s, d, t, d1, u, d', x);
      DefineNests(s, d, u, d', Pure(u.nextReg, OpOf(op), [x, y]));
    case Neg(a) =>
      var (t, x) := LowerExp(a, s);
      d' := ExpNests(a, s, d);
      ExpGrows(a, s);
      BuiltReady(s, t);
      ConstAvailable(t, d', IntVal(0));
      DefineNests(s, d, t, d', Pure(t.nextReg, Sub, [Const(IntVal(0)), x]));
    case Invoke(callee, args) =>
      var (t, os) := LowerExps(args, s);
      d' := ExpsNest(args, s, d);
      ExpsGrow(args, s);
      BuiltReady(s, t);
      DefineNests(s, d, t, d', Call(t.nextReg, callee, os, true));
    case FromBool(c) =>
      d' := CastNests(c, s, d);
  }

  lemma ConstAvailable(s: Build, d: Parents, v: Val)
    ensures Available(s, d, Const(v)) && Computed(s, Const(v))
  {
  }

  lemma BothReady(l: A.Exp, r: A.Exp, s: Build)
    requires Ready(s) && A.ProperExp(l) && A.ProperExp(r)
    ensures Ready(LowerExp(l, s).0) && Ready(LowerExp(r, LowerExp(l, s).0).0)
    ensures Grown(LowerExp(l, s).0, LowerExp(r, LowerExp(l, s).0).0, {})
  {
    hide Ready, LowerExp, Grown, Valid;
    ExpGrows(l, s);
    ExpGrows(r, LowerExp(l, s).0);
  }

  /** The first of two operands is kept while the second is worked out. */
  lemma BothNested(s: Build, d: Parents, t: Build, d1: Parents, u: Build, d2: Parents, x: Operand)
    requires Nested(s, d, t, d1) && Nested(t, d1, u, d2) && Grown(t, u, {}) && Available(t, d1, x)
    ensures Nested(s, d, u, d2) && Available(u, d2, x)
  {
    hide Grown, Nested, Available;
    StillAvailable(t, d1, u, d2, x);
    NestedTrans(s, d, t, d1, u, d2);
  }

  lemma {:induction false} ExpsNest(es: seq<A.Exp>, s: Build, d: Parents) returns (d': Parents)
    requires Ready(s) && A.ProperExps(es) && Sound(s, d)
    ensures Nested(s, d, LowerExps(es, s).0, d') && forall o ::
              o in LowerExps(es, s).1 ==> Available(LowerExps(es, s).0, d', o)
    decreases es, 0
  {
    hide Ready, ExpBuilt, Sound, Nested, Available, Grown, Valid;
    if es == [] {
      d' := d;
      NestedSelf(s, d);
    } else {
      ExpGrows(es[0], s);
      var (t, o) := LowerExp(es[0], s);
      BuiltReady(s, t);
      var d1 := ExpNests(es[0], s, d);
      NestedParts(s, d, t, d1);
      ExpsGrow(es[1..], t);
      GrownOf(t, LowerExps(es[1..], t).0);
      d' := ExpsNest(es[1..], t, d1);
      StillAvailable(t, d1, LowerExps(es[1..], t).0, d', o);
      NestedTrans(s, d, t, d1, LowerExps(es[1..], t).0, d');
    }
  }

  lemma GrownOf(s: Build, t: Build)
    requires ExpBuilt(s, t)
    ensures Grown(s, t, {})
  {
  }

  lemma {:induction false} PointerNests(x: A.Var, idx: seq<A.Exp>, s: Build, d: Parents) returns (d': Parents)
    requires Ready(s) && !x.Scalar? && A.ProperExps(idx) && Sound(s, d)
    ensures var (t, p) := LowerPointer(x, idx, s);
            Nested(s, d, t, d') && Available(t, d', p) && (x.Array? || idx != [] ==> Computed(t, p))
    decreases idx, 1
  {
    hide Ready, ExpBuilt, Define, Sound, Nested, Available, Computed, Grown, Valid, LowerExps;
    BuiltSelf(s);
    NestedSelf(s, d);
    var base := BaseOperand(x, s.nextReg);
    var s1 := if x.Array? then s else Define(s, Load(s.nextReg, Local(x.slot)));
    if x.ArrayParam? {
      DefineBuilt(s, s, Load(s.nextReg, Local(x.slot)));
      DefineNests(s, d, s, d, Load(s.nextReg, Local(x.slot)));
    } else {
      ConstAvailable(s, d, IntVal(x.base));
    }
    BuiltReady(s, s1);
    NestedParts(s, d, s1, d);
    ExpsGrow(idx, s1);
    var (t, os) := LowerExps(idx, s1);
    BuiltReady(s1, t);
    GrownOf(s1, t);
    d' := ExpsNest(idx, s1, d);
    StillAvailable(s1, d, t, d', base);
    NestedTrans(s, d, s1, d, t, d');
    ConstAvailable(t, d', IntVal(0));
    if x.Array? { ConstAvailable(t, d', IntVal(x.base)); }
    if idx != [] {
      var i := Pure(t.nextReg, Gep(AccessStrides(x, |idx|)), AccessOperands(x, s.nextReg, os));
      DefineNests(s, d, t, d', i);
    }
  }

  lemma {:induction false} CastNests(c: A.Cond, s: Build, d: Parents) returns (d': Parents)
    requires Ready(s) && A.ProperCond(c) && Sound(s, d)
    ensures var (t, o) := LowerExp(A.FromBool(c), s); Nested(s, d, t, d') && Available(t, d', o)
    decreases c, 1
  {
    hide Ready, Valid, Grown, CondBuilt, CastMoves, Create, Branch, MoveTo, AddPhi, CastPairs, Preds, Open, Sound,
        Nested, Available, Above, Child, Target, More;
    var bbt, bbf := s.nextBlock, s.nextBlock + 1;
    TwoCreated(s);
    var s2 := Create(Create(s));
    var d2 := TwoNested(s, d);
    NestedParts(s, d, s2, d2);
    CondGrows(c, s2, bbt, bbf);
    TargetsOf(d2, bbt, bbf, s.cur);
    d' := CondNests(c, s2, d2, bbt, bbf);
    var t := LowerCond(c, s2, bbt, bbf);
    CastStates(s, t);
    NestedTrans(s, d, s2, d2, t, d');
    NestedChild(s2, d2, t, d', bbt);
    NestedChild(s2, d2, t, d', bbf);
    CastNested(s, d, t, d', bbt, bbf, CastPairs(Preds(t, bbf), bbt));
  }

  lemma TargetsOf(d: Parents, x: BlockId, y: BlockId, c: BlockId)
    requires Child(d, x, c) && Child(d, y, c)
    ensures Target(d, x, c) && Target(d, y, c)
  {
    ChildIs(d, d, x, c, c);
    ChildIs(d, d, y, c, c);
  }

  lemma CastNested(s: Build, d: Parents, t: Build, d': Parents, bbt: BlockId, bbf: BlockId,
                   pairs: seq<(Operand, BlockId)>)
    requires bbt == s.nextBlock && bbf == s.nextBlock + 1 && Nested(s, d, t, d') && Child(d', bbt, s.cur)
             && Child(d', bbf, s.cur)
    requires Above(d', s.cur, bbt) && Above(d', s.cur, bbf) && CastMoves(s, t, MoveTo(Branch(MoveTo(t, bbt), bbf), bbf))
    requires exists preds :: pairs == CastPairs(preds, bbt)
    ensures var u := MoveTo(Branch(MoveTo(t, bbt), bbf), bbf);
            Nested(s, d, AddPhi(u, pairs), d') && Available(AddPhi(u, pairs), d', Reg(u.nextReg))
  {
    var t1 := MoveTo(t, bbt);
    var u0 := Branch(t1, bbf);
    var u := MoveTo(u0, bbf);
    assert Open(t1) && Open(u) && Here(u) == EMPTY;
    hide Valid, Grown, Branch, MoveTo, CastPairs, Sound, Nested, Available, Above, Child, Target, More, EdgeIn;
    NestedMove(s, d, t, d', bbt);
    assert t1.cur == bbt by { assert MoveTo(t, bbt).cur == bbt by { Moved(t, bbt); } }
    MoreSelf(d');
    ChildIs(d', d', bbf, s.cur, bbt);
    BranchNested(t1, d', bbf);
    NestedTrans(s, d, t1, d', u0, d');
    NestedMove(s, d, u0, d', bbf);
    var preds :| pairs == CastPairs(preds, bbt);
    CastConst(preds, bbt, u.nextReg);
    PhiNested(u, d', pairs);
    NestedTrans(s, d, u, d', AddPhi(u, pairs), d');
  }

  lemma Moved(t: Build, b: BlockId)
    ensures MoveTo(t, b).cur == b
  {
  }

  lemma MoreSelf(d: Parents)
    ensures More(d, d)
  {
  }

  // ----- Conditions -----

  lemma CompareNests(op: Op, x: Operand, y: Operand, s: Build, d: Parents, t: Build, d1: Parents, bbt: BlockId,
                     bbf: BlockId)
    requires Ready(t) && Nested(s, d, t, d1) && Available(t, d1, x) && Available(t, d1, y)
    requires Target(d, bbt, s.cur) && Target(d, bbf, s.cur)
    ensures Nested(s, d, Compare(op, x, y, t, bbt, bbf), d1)
  {
    var i := Pure(t.nextReg, op, [x, y]);
    EmitGrown(t, i);
    hide Valid, Define, Nested, Available, Target, Grown, CondBranch, Sound;
    var t1 := Define(t, i);
    DefineNests(s, d, t, d1, i);
    NestedParts(s, d, t1, d1);
    NestedTarget(s, d, t1, d1, bbt);
    NestedTarget(s, d, t1, d1, bbf);
    CondBranchNested(t1, d1, Reg(t.nextReg), bbt, bbf);
    NestedTrans(s, d, t1, d1, CondBranch(t1, Reg(t.nextReg), bbt, bbf), d1);
  }

  lemma {:induction false} CondNests(c: A.Cond, s: Build, d: Parents, bbt: BlockId, bbf: BlockId) returns (d': Parents)
    requires Ready(s) && A.ProperCond(c) && bbt in s.blocks && bbf in s.blocks
    requires Sound(s, d) && Target(d, bbt, s.cur) && Target(d, bbf, s.cur)
    ensures Nested(s, d, LowerCond(c, s, bbt, bbf), d')
    decreases c, 0
  {
    hide Valid, Grown, Ready, ExpBuilt, CondBuilt, Compare, Branch, Sound, Nested, Target, Available, Open;
    match c
    case Truth(b) =>
      d' := d;
      ReadyIs(s);
      BranchNested(s, d, if b then bbt else bbf);
    case NonZero(e) =>
      ExpGrows(e, s);
      var (t, x) := LowerExp(e, s);
      BuiltReady(s, t);
      d' := ExpNests(e, s, d);
      ConstAvailable(t, d', IntVal(0));
      CompareNests(Ne, x, Const(IntVal(0)), s, d, t, d', bbt, bbf);
    case Logic(isOr, cs) =>
      d' := LogicNests(isOr, cs, s, d, bbt, bbf);
    case Equal(same, l, r) =>
      var (t, x) := LowerExp(l, s);
      var (u, y) := LowerExp(r, t);
      var d1 := ExpNests(l, s, d);
      BothReady(l, r, s);
      NestedParts(s, d, t, d1);
      d' := ExpNests(r, t, d1);
      BothNested(s, d, t, d1, u, d', x);
      CompareNests(if same then Eq else Ne, x, y, s, d, u, d', bbt, bbf);
    case Relation(op, l, r) =>
      var (t, x) := LowerExp(l, s);
      var (u, y) := LowerExp(r, t);
      var d1 := ExpNests(l, s, d);
      BothReady(l, r, s);
      NestedParts(s, d, t, d1);
      d' := ExpNests(r, t, d1);
      BothNested(s, d, t, d1, u, d', x);
      CompareNests(RelOf(op), x, y, s, d, u, d', bbt, bbf);
    case Not(a) =>
      d' := CondNests(a, s, d, bbf, bbt);
  }

  lemma {:induction false} LogicNests(isOr: bool, cs: seq<A.Cond>, s: Build, d: Parents, bbt: BlockId,
                                      bbf: BlockId) returns (d': Parents)
    requires Ready(s) && cs != [] && A.ProperConds(cs) && bbt in s.blocks && bbf in s.blocks
    requires Sound(s, d) && Target(d, bbt, s.cur) && Target(d, bbf, s.cur)
    ensures Nested(s, d, LowerLogic(isOr, cs, s, bbt, bbf), d')
    decreases cs, 0
  {
    hide Valid, Grown, Ready, CondBuilt, MoveTo, Create, Sound, Nested, Target, Above, Child, More;
    if |cs| == 1 {
      d' := CondNests(cs[0], s, d, bbt, bbf);
    } else {
      var rhs := s.nextBlock;
      CreatedReady(s);
      var s1 := Create(s);
      Created(s);
      var x, y := if isOr then bbt else rhs, if isOr then rhs else bbf;
      CondGrows(cs[0], s1, x, y);
      var t := LowerCond(cs[0], s1, x, y);
      LogicMoves(s, t, rhs);
      var d1 := OneNested(s, d);
      NestedParts(s, d, s1, d1);
      NestedTarget(s, d, s1, d1, bbt);
      NestedTarget(s, d, s1, d1, bbf);
      TargetsOf(d1, rhs, rhs, s.cur);
      var d2 := CondNests(cs[0], s1, d1, x, y);
      NestedTrans(s, d, s1, d1, t, d2);
      NestedChild(s1, d1, t, d2, rhs);
      NestedMove(s, d, t, d2, rhs);
      Moved(t, rhs);
      NestedTarget(s, d, MoveTo(t, rhs), d2, bbt);
      NestedTarget(s, d, MoveTo(t, rhs), d2, bbf);
      d' := LogicNests(isOr, cs[1..], MoveTo(t, rhs), d2, bbt, bbf);
      NestedTrans(s, d, MoveTo(t, rhs), d2, LowerLogic(isOr, cs[1..], MoveTo(t, rhs), bbt, bbf), d');
    }
  }

  lemma Created(s: Build)
    ensures Create(s).cur == s.cur
  {
  }

  // ----- Statements -----

  /** The targets of break and continue may be branched to from `c`. */
  ghost predicate LoopTargets(d: Parents, loops: seq<Loop>, c: BlockId) {
    forall k :: 0 <= k < |loops| ==> Target(d, loops[k].next, c) && Target(d, loops[k].cond, c)
  }

  lemma NestedLoops(s: Build, d: Parents, t: Build, d': Parents, loops: seq<Loop>)
    requires Nested(s, d, t, d') && LoopTargets(d, loops, s.cur)
    ensures LoopTargets(d', loops, t.cur)
  {
    hide Nested, Target;
    forall k | 0 <= k < |loops| ensures Target(d', loops[k].next, t.cur) && Target(d', loops[k].cond, t.cur) {
      NestedTarget(s, d, t, d', loops[k].next);
      NestedTarget(s, d, t, d', loops[k].cond);
    }
  }

  lemma EmitNests(s: Build, d: Parents, t: Build, d1: Parents, o: Operand, p: Ptr)
    requires Ready(t) && Nested(s, d, t, d1) && Available(t, d1, o) && (p.Addr? ==> Available(t, d1, p.a))
    ensures Nested(s, d, Emit(t, Store(o, p)), d1)
  {
    hide Sound, Available, Gives;
    EndedNested(t, d1, Store(o, p));
    NestedTrans(s, d, t, d1, Emit(t, Store(o, p)), d1);
  }

  lemma AssignNests(x: A.Var, idx: seq<A.Exp>, e: A.Exp, s: Build, d: Parents) returns (d': Parents)
    requires Ready(s) && A.ProperExps(idx) && A.ProperExp(e) && Sound(s, d)
    ensures Nested(s, d, LowerAssign(x, idx, e, s), d')
  {
    hide Ready, ExpBuilt, Sound, Nested, Available, Computed, Grown, Valid, LowerExp, LowerPointer, Emit;
    if x.Scalar? {
      ExpGrows(e, s);
      var (t, o) := LowerExp(e, s);
      BuiltReady(s, t);
      d' := ExpNests(e, s, d);
      EmitNests(s, d, t, d', o, Local(x.slot));
    } else {
      PointerGrows(x, idx, s);
      var (t, p) := LowerPointer(x, idx, s);
      BuiltReady(s, t);
      ExpGrows(e, t);
      var (u, o) := LowerExp(e, t);
      BuiltReady(t, u);
      GrownOf(t, u);
      var d1 := PointerNests(x, idx, s, d);
      NestedParts(s, d, t, d1);
      d' := ExpNests(e, t, d1);
      BothNested(s, d, t, d1, u, d', p);
      EmitNests(s, d, u, d', o, Addr(p));
    }
  }

  lemma JoinNests(s: Build, d: Parents, u: Build, d': Parents, b: BlockId)
    requires Nested(s, d, u, d') && Target(d', b, u.cur)
    ensures Nested(s, d, Join(u, b), d')
  {
    hide Sound, Target, Above, Gives;
    if Open(u) {
      BranchNested(u, d', b);
      NestedTrans(s, d, u, d', Branch(u, b), d');
    }
  }

  /** One arm, in a block made at the start: it is entered, filled and left for another such block. */
  lemma {:induction false} ArmNests(ss: seq<A.Stmt>, s: Build, d: Parents, t: Build, d1: Parents, b: BlockId,
                                    j: BlockId, loops: seq<Loop>)
    returns (d': Parents)
    requires Nested(s, d, t, d1) && Child(d1, b, s.cur) && Child(d1, j, s.cur) && LoopTargets(d, loops, s.cur)
    requires Ready(MoveTo(t, b)) && LoopsOk(MoveTo(t, b), loops) && A.ProperStmts(ss, loops != [])
    ensures Nested(s, d, Join(LowerStmts(ss, MoveTo(t, b), loops), j), d') && More(d1, d')
    decreases ss, 1
  {
    hide *;
    var t1 := MoveTo(t, b);
    Moved(t, b);
    MoreSelf(d1);
    NestedParts(s, d, t, d1);
    AboveChild(d1, b, s.cur);
    NestedMove(s, d, t, d1, b);
    NestedLoops(s, d, t1, d1, loops);
    d' := StmtsNest(ss, t1, d1, loops);
    var u := LowerStmts(ss, t1, loops);
    NestedParts(t1, d1, u, d');
    NestedTrans(s, d, t1, d1, u, d');
    NestedParts(s, d, u, d');
    ChildIs(d1, d', j, s.cur, u.cur);
    JoinNests(s, d, u, d', j);
  }

  lemma AboveChild(d: Parents, b: BlockId, c: BlockId)
    requires Child(d, b, c)
    ensures Above(d, c, b)
  {
    assert Above(d, c, d[b]);
  }

  lemma ChildMore(d: Parents, d': Parents, b: BlockId, c: BlockId)
    requires Child(d, b, c) && More(d, d')
    ensures Child(d', b, c)
  {
  }

  lemma {:induction false} IfThenNests(c: A.Cond, yes: seq<A.Stmt>, s: Build, d: Parents,
                                       loops: seq<Loop>) returns (d': Parents)
    requires Ready(s) && A.ProperCond(c) && A.ProperStmts(yes, loops != []) && LoopsOk(s, loops)
    requires Sound(s, d) && LoopTargets(d, loops, s.cur)
    ensures Nested(s, d, LowerStmt(A.If(c, yes, []), s, loops), d')
    decreases yes, 2
  {
    hide Valid, Grown, Ready, Create, MoveTo, Join, Open, LoopsOk, Sound, Nested, Target, Above, Child, More,
        LoopTargets, LowerCond, LowerStmts;
    var bbt, bbf := s.nextBlock, s.nextBlock + 1;
    TwoCreated(s);
    var s2 := Create(Create(s));
    CondWaits(c, s, s2, {bbt, bbf}, bbt, bbf);
    var t := LowerCond(c, s2, bbt, bbf);
    MoveOn(s, t, {bbt, bbf}, bbt, {bbf});
    LoopsStay(s, MoveTo(t, bbt), {bbf}, loops);
    var d2 := TwoNested(s, d);
    NestedParts(s, d, s2, d2);
    TargetsOf(d2, bbt, bbf, s.cur);
    var d3 := CondNests(c, s2, d2, bbt, bbf);
    NestedTrans(s, d, s2, d2, t, d3);
    NestedChild(s2, d2, t, d3, bbt);
    NestedChild(s2, d2, t, d3, bbf);
    d' := ArmNests(yes, s, d, t, d3, bbt, bbf, loops);
    ChildMore(d3, d', bbf, s.cur);
    AboveChild(d', bbf, s.cur);
    NestedMove(s, d, Join(LowerStmts(yes, MoveTo(t, bbt), loops), bbf), d', bbf);
  }

  lemma {:induction false} FirstArmNests(c: A.Cond, yes: seq<A.Stmt>, s: Build, d: Parents,
                                         loops: seq<Loop>) returns (d': Parents)
    requires Ready(s) && A.ProperCond(c) && A.ProperStmts(yes, loops != []) && LoopsOk(s, loops)
    requires Sound(s, d) && LoopTargets(d, loops, s.cur)
    ensures Nested(s, d, FirstArm(c, yes, s, loops), d')
    ensures Child(d', s.nextBlock + 1, s.cur) && Child(d', s.nextBlock + 2, s.cur)
    decreases yes, 2
  {
    hide Valid, Grown, Ready, Create, MoveTo, Join, Open, LoopsOk, Sound, Nested, Target, Above, Child, More,
        LoopTargets, LowerCond, LowerStmts;
    var bbt, bbf, bb := s.nextBlock, s.nextBlock + 1, s.nextBlock + 2;
    ThreeCreated(s);
    var s3 := Create(Create(Create(s)));
    CondWaits(c, s, s3, {bbt, bbf, bb}, bbt, bbf);
    var t := LowerCond(c, s3, bbt, bbf);
    MoveOn(s, t, {bbt, bbf, bb}, bbt, {bbf, bb});
    LoopsStay(s, MoveTo(t, bbt), {bbf, bb}, loops);
    var d3 := ThreeNested(s, d);
    NestedParts(s, d, s3, d3);
    TargetsOf(d3, bbt, bbf, s.cur);
    var d4 := CondNests(c, s3, d3, bbt, bbf);
    NestedTrans(s, d, s3, d3, t, d4);
    NestedChild(s3, d3, t, d4, bbt);
    NestedChild(s3, d3, t, d4, bbf);
    NestedChild(s3, d3, t, d4, bb);
    d' := ArmNests(yes, s, d, t, d4, bbt, bb, loops);
    ChildMore(d4, d', bbf, s.cur);
    ChildMore(d4, d', bb, s.cur);
  }

  lemma {:induction false} IfElseNests(c: A.Cond, yes: seq<A.Stmt>, no: seq<A.Stmt>, s: Build, d: Parents,
                                       loops: seq<Loop>)
    returns (d': Parents)
    requires Ready(s) && A.ProperCond(c) && A.ProperStmts(yes, loops != []) && A.ProperStmts(no, loops != [])
             && LoopsOk(s, loops)
    requires no != [] && Sound(s, d) && LoopTargets(d, loops, s.cur)
    ensures Nested(s, d, LowerStmt(A.If(c, yes, no), s, loops), d')
    decreases A.If(c, yes, no), -1
  {
    hide Valid, Grown, Ready, Create, MoveTo, Join, Open, LoopsOk, Sound, Nested, Target, Above, Child, More,
        LoopTargets, LowerCond, LowerStmts,
      Meet, Remove;
    var bbf, bb := s.nextBlock + 1, s.nextBlock + 2;
    FirstArmGrows(c, yes, s, loops);
    var u := FirstArm(c, yes, s, loops);
    MoveOn(s, u, {bbf, bb}, bbf, {bb});
    BranchOff(s, MoveTo(u, bbf), no, loops, {bb});
    LoopsStay(s, MoveTo(u, bbf), {bb}, loops);
    var v0 := LowerStmts(no, MoveTo(u, bbf), loops);
    GrownCur(s, v0, {bb});
    JoinGrows(s, v0, {bb}, bb);
    var v := Join(v0, bb);
    GrownCur(s, v, {bb});
    var d1 := FirstArmNests(c, yes, s, d, loops);
    d' := ArmNests(no, s, d, u, d1, bbf, bb, loops);
    ChildMore(d1, d', bb, s.cur);
    AboveChild(d', bb, s.cur);
    MeetNests(s, d, v, d', bb);
  }

  lemma MeetNests(s: Build, d: Parents, v: Build, d': Parents, bb: BlockId)
    requires Nested(s, d, v, d') && Above(d', s.cur, bb) && bb in v.blocks && v.blocks[bb] == EMPTY
    ensures Nested(s, d, Meet(v, bb), d')
  {
    hide Sound, Above, Gives;
    if Preds(v, bb) == [] {
      RemoveNested(v, d', bb);
      NestedTrans(s, d, v, d', Remove(v, bb), d');
    } else {
      NestedMove(s, d, v, d', bb);
    }
  }

  /** Entering the condition of a loop. */
  lemma HeadNests(s: Build, d: Parents, s1: Build, d1: Parents, cond: BlockId)
    requires Nested(s, d, s1, d1) && Ready(s1) && s1.cur == s.cur && Child(d1, cond, s.cur)
    ensures Nested(s, d, MoveTo(Branch(s1, cond), cond), d1)
  {
    ReadyIs(s1);
    hide *;
    MoreSelf(d1);
    NestedParts(s, d, s1, d1);
    ChildIs(d1, d1, cond, s.cur, s1.cur);
    BranchNested(s1, d1, cond);
    NestedTrans(s, d, s1, d1, Branch(s1, cond), d1);
    NestedMove(s, d, Branch(s1, cond), d1, cond);
  }

  lemma {:induction false} LoopEnteredNests(c: A.Cond, s: Build, d: Parents) returns (d': Parents)
    requires Ready(s) && A.ProperCond(c) && Sound(s, d)
    ensures Nested(s, d, LoopEntered(c, s), d') && Child(d', s.nextBlock, s.cur) && Child(d', s.nextBlock + 1, s.cur)
  {
    hide Valid, Grown, Ready, Create, MoveTo, Open, Branch, Sound, Nested, Target, Above, Child, More, LowerCond;
    var cond, next, enter := s.nextBlock, s.nextBlock + 1, s.nextBlock + 2;
    ThreeCreated(s);
    var s3 := Create(Create(Create(s)));
    LoopHead(s, s3, {cond, next, enter}, cond, {next, enter});
    var t := MoveTo(Branch(s3, cond), cond);
    var d3 := ThreeNested(s, d);
    HeadNests(s, d, s3, d3, cond);
    NestedParts(s, d, t, d3);
    MoreSelf(d3);
    ChildIs(d3, d3, enter, s.cur, t.cur);
    ChildIs(d3, d3, next, s.cur, t.cur);
    d' := CondNests(c, t, d3, enter, next);
    var t1 := LowerCond(c, t, enter, next);
    NestedParts(t, d3, t1, d');
    NestedTrans(s, d, t, d3, t1, d');
    ChildMore(d3, d', cond, s.cur);
    ChildMore(d3, d', next, s.cur);
    ChildMore(d3, d', enter, s.cur);
    AboveChild(d', enter, s.cur);
    NestedMove(s, d, t1, d', enter);
  }

  lemma {:induction false} EmptyWhileNests(c: A.Cond, s: Build, d: Parents, loops: seq<Loop>) returns (d': Parents)
    requires Ready(s) && A.ProperCond(c) && Sound(s, d)
    ensures Nested(s, d, LowerStmt(A.While(c, []), s, loops), d')
  {
    hide Valid, Grown, Ready, Create, MoveTo, Open, Branch, Sound, Nested, Target, Above, Child, More, LowerCond;
    var cond, next := s.nextBlock, s.nextBlock + 1;
    TwoCreated(s);
    var s2 := Create(Create(s));
    LoopHead(s, s2, {cond, next}, cond, {next});
    var t := MoveTo(Branch(s2, cond), cond);
    var d2 := TwoNested(s, d);
    HeadNests(s, d, s2, d2, cond);
    NestedParts(s, d, t, d2);
    MoreSelf(d2);
    ChildIs(d2, d2, cond, s.cur, t.cur);
    ChildIs(d2, d2, next, s.cur, t.cur);
    d' := CondNests(c, t, d2, cond, next);
    var u := LowerCond(c, t, cond, next);
    NestedParts(t, d2, u, d');
    NestedTrans(s, d, t, d2, u, d');
    ChildMore(d2, d', next, s.cur);
    AboveChild(d', next, s.cur);
    NestedMove(s, d, u, d', next);
  }

  lemma LoopTargetsMore(d: Parents, loops: seq<Loop>, next: BlockId, cond: BlockId, c: BlockId)
    requires LoopTargets(d, loops, c) && Target(d, next, c) && Target(d, cond, c)
    ensures LoopTargets(d, loops + [Loop(next, cond)], c)
  {
  }

  lemma {:induction false} WhileNests(c: A.Cond, body: seq<A.Stmt>, s: Build, d: Parents,
                                      loops: seq<Loop>) returns (d': Parents)
    requires Ready(s) && A.ProperCond(c) && A.ProperStmts(body, true) && LoopsOk(s, loops) && body != []
    requires Sound(s, d) && LoopTargets(d, loops, s.cur)
    ensures Nested(s, d, LowerStmt(A.While(c, body), s, loops), d')
    decreases body, 1
  {
    hide Valid, Grown, Ready, Create, MoveTo, Join, Open, LoopsOk, Branch, Sound, Nested, Target, Above, Child, More,
        LoopTargets, LowerStmts, LowerStmt;
    var cond, next := s.nextBlock, s.nextBlock + 1;
    LoopEnteredGrows(c, s);
    WhileIs(c, body, s, loops);
    hide LoopEntered;
    var u := LoopEntered(c, s);
    LoopsMore(s, u, {next}, loops, next, cond);
    var d1 := LoopEnteredNests(c, s, d);
    NestedParts(s, d, u, d1);
    NestedLoops(s, d, u, d1, loops);
    MoreSelf(d1);
    ChildIs(d1, d1, cond, s.cur, u.cur);
    ChildIs(d1, d1, next, s.cur, u.cur);
    LoopTargetsMore(d1, loops, next, cond, u.cur);
    d' := StmtsNest(body, u, d1, loops + [Loop(next, cond)]);
    var v := LowerStmts(body, u, loops + [Loop(next, cond)]);
    NestedParts(u, d1, v, d');
    NestedTrans(s, d, u, d1, v, d');
    NestedParts(s, d, v, d');
    ChildIs(d1, d', cond, s.cur, v.cur);
    ChildMore(d1, d', next, s.cur);
    AboveChild(d', next, s.cur);
    JoinNests(s, d, v, d', cond);
    NestedMove(s, d, Join(v, cond), d', next);
  }

  lemma CondStmtNests(c: A.Cond, s: Build, d: Parents) returns (d': Parents)
    requires Ready(s) && A.ProperCond(c) && Sound(s, d)
    ensures Nested(s, d, MoveTo(LowerCond(c, Create(s), s.nextBlock, s.nextBlock), s.nextBlock), d')
  {
    hide Ready, Create, MoveTo, Sound, Nested, Target, Above, Child, More, LowerCond;
    var b := s.nextBlock;
    CreatedReady(s);
    Created(s);
    var s1 := Create(s);
    var d1 := OneNested(s, d);
    NestedParts(s, d, s1, d1);
    TargetsOf(d1, b, b, s.cur);
    d' := CondNests(c, s1, d1, b, b);
    var t := LowerCond(c, s1, b, b);
    NestedTrans(s, d, s1, d1, t, d');
    NestedChild(s1, d1, t, d', b);
    NestedMove(s, d, t, d', b);
  }

  lemma {:induction false} StmtNests(st: A.Stmt, s: Build, d: Parents, loops: seq<Loop>) returns (d': Parents)
    requires Ready(s) && A.ProperStmt(st, loops != []) && LoopsOk(s, loops) && Sound(s, d)
             && LoopTargets(d, loops, s.cur)
    ensures Nested(s, d, LowerStmt(st, s, loops), d')
    decreases st, 0
  {
    hide Valid, Grown, Ready, ExpBuilt, LowerAssign, Branch, Exit, Create, MoveTo, Join, Open, LoopsOk, Sound, Nested,
        Target, Available;
    d' := d;
    match st
    case Assign(x, idx, e) =>
      d' := AssignNests(x, idx, e, s, d);
    case Declare(v, None) =>
      NestedSelf(s, d);
    case Declare(v, Some(e)) =>
      d' := AssignNests(A.Scalar(v), [], e, s, d);
    case If(c, yes, no) =>
      if no == [] { d' := IfThenNests(c, yes, s, d, loops); } else { d' := IfElseNests(c, yes, no, s, d, loops); }
    case While(c, body) =>
      if body == [] { d' := EmptyWhileNests(c, s, d, loops); } else { d' := WhileNests(c, body, s, d, loops); }
    case Break =>
      ReadyIs(s);
      BranchNested(s, d, loops[|loops| - 1].next);
    case Continue =>
      ReadyIs(s);
      BranchNested(s, d, loops[|loops| - 1].cond);
    case Return(None) =>
      ReadyIs(s);
      ExitNested(s, d, None);
    case Return(Some(e)) =>
      ExpGrows(e, s);
      var (t, o) := LowerExp(e, s);
      BuiltReady(s, t);
      ReadyIs(t);
      d' := ExpNests(e, s, d);
      NestedParts(s, d, t, d');
      ExitNested(t, d', Some(o));
      NestedTrans(s, d, t, d', Exit(t, Some(o)), d');
    case Scope(ss) =>
      d' := StmtsNest(ss, s, d, loops);
    case ExpStmt(e) =>
      d' := ExpNests(e, s, d);
    case CondStmt(c) =>
      d' := CondStmtNests(c, s, d);
  }

  lemma {:induction false} StmtsNest(ss: seq<A.Stmt>, s: Build, d: Parents, loops: seq<Loop>) returns (d': Parents)
    requires Ready(s) && A.ProperStmts(ss, loops != []) && LoopsOk(s, loops) && Sound(s, d)
             && LoopTargets(d, loops, s.cur)
    ensures Nested(s, d, LowerStmts(ss, s, loops), d')
    decreases ss, 0
  {
    hide Valid, Grown, Ready, LowerStmt, LoopsOk, Sound, Nested, LoopTargets;
    d' := d;
    NestedSelf(s, d);
    if ss != [] {
      StmtGrows(ss[0], s, loops);
      var t := LowerStmt(ss[0], s, loops);
      d' := StmtNests(ss[0], s, d, loops);
      if Open(t) {
        LoopsStay(s, t, {}, loops);
        ReadyFrom(t);
        NestedParts(s, d, t, d');
        NestedLoops(s, d, t, d', loops);
        var d2 := StmtsNest(ss[1..], t, d', loops);
        NestedTrans(s, d, t, d', LowerStmts(ss[1..], t, loops), d2);
        d' := d2;
      }
    }
  }
}
