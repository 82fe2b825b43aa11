/** The instruction builder: a function under construction, one block of which is the insertion point,
    and how construction relates to the runs of the finished function. */
module Builder {
  import opened IR

  /** A block under construction. */
  datatype Part = Part(phis: seq<Phi>, body: seq<Instr>, term: Option<Term>)

  const EMPTY := Part([], [], None)

  /** `preds` lists, for each block, the blocks that branch to it, oldest first. */
  datatype Build = Build(blocks: map<BlockId, Part>, cur: BlockId, preds: map<BlockId, seq<BlockId>>, nextBlock: nat,
      nextReg: nat)

  function Preds(s: Build, x: BlockId): seq<BlockId> {
    if x in s.preds then s.preds[x] else []
  }

  ghost predicate EdgeIn(s: Build, p: BlockId, x: BlockId) {
    p in s.blocks && s.blocks[p].term.Some? && x in Successors(s.blocks[p].term.value)
  }

  ghost predicate Valid(s: Build) {
    && s.cur in s.blocks
    && (forall b :: b in s.blocks ==> b < s.nextBlock)
    && (forall p, x: BlockId :: p in Preds(s, x) <==> EdgeIn(s, p, x))
    && (forall p, x :: EdgeIn(s, p, x) ==> x in s.blocks)
  }

  predicate Open(s: Build) {
    s.cur in s.blocks && s.blocks[s.cur].term.None?
  }

  // ----- Operations -----

  function Create(s: Build): Build {
    s.(blocks := s.blocks[s.nextBlock := EMPTY], nextBlock := s.nextBlock + 1)
  }

  function MoveTo(s: Build, b: BlockId): Build {
    s.(cur := b)
  }

  /** The insertion point. */
  function Here(s: Build): Part {
    if s.cur in s.blocks then s.blocks[s.cur] else EMPTY
  }

  function Put(s: Build, p: Part): Build {
    s.(blocks := s.blocks[s.cur := p])
  }

  function Emit(s: Build, i: Instr): Build {
    Put(s, Here(s).(body := Here(s).body + [i]))
  }

  function NewReg(s: Build): Build {
    s.(nextReg := s.nextReg + 1)
  }

  /** Emits an instruction that defines the next register. */
  function Define(s: Build, i: Instr): Build {
    NewReg(Emit(s, i))
  }

  function AddPred(s: Build, x: BlockId): Build {
    s.(preds := s.preds[x := Preds(s, x) + [s.cur]])
  }

  function Branch(s: Build, x: BlockId): Build {
    AddPred(Put(s, Here(s).(term := Some(Br(x)))), x)
  }

  /** A conditional branch with equal targets is an unconditional one. */
  function CondBranch(s: Build, o: Operand, x: BlockId, y: BlockId): Build {
    if x == y then Branch(s, x)
    else AddPred(AddPred(Put(s, Here(s).(term := Some(CondBr(o, x, y)))), x), y)
  }

  function Exit(s: Build, r: Option<Operand>): Build {
    Put(s, Here(s).(term := Some(Ret(r))))
  }

  /** A phi, which defines the next register, at the insertion point. */
  function AddPhi(s: Build, pairs: seq<(Operand, BlockId)>): Build {
    NewReg(Put(s, Here(s).(phis := Here(s).phis + [Phi(s.nextReg, pairs)])))
  }

  function Remove(s: Build, b: BlockId): Build {
    s.(blocks := s.blocks - {b})
  }

  // ----- How construction goes on -----

  ghost predicate PartGrown(p: Part, q: Part) {
    if p.term.Some? then q == p else q.phis == p.phis && p.body <= q.body
  }

  /** `t` continues `s`: it added to the insertion point of `s` and to blocks of its own.  When it moved on,
      what it left is terminated; the blocks in `pend` are new and still untouched. */
  ghost predicate Grown(s: Build, t: Build, pend: set<BlockId>) {
    && s.cur in s.blocks && t.cur in t.blocks
    && s.nextBlock <= t.nextBlock && s.nextReg <= t.nextReg
    && (forall b :: b in s.blocks ==> b in t.blocks)
    && (forall b :: b in s.blocks && b != s.cur ==> t.blocks[b] == s.blocks[b])
    && PartGrown(s.blocks[s.cur], t.blocks[s.cur])
    && (t.cur == s.cur || (t.cur !in s.blocks && t.blocks[s.cur].term.Some?))
    && (forall b :: b in pend ==> b in t.blocks && b !in s.blocks && b != t.cur && t.blocks[b] == EMPTY)
    && (forall b :: b in t.blocks && b !in s.blocks && b != t.cur && b !in pend ==> t.blocks[b].term.Some?)
  }

  lemma GrownSelf(s: Build)
    requires s.cur in s.blocks
    ensures Grown(s, s, {})
  {
  }

  lemma GrownTrans(s: Build, t: Build, u: Build, p: set<BlockId>, q: set<BlockId>)
    requires Grown(s, t, p) && Grown(t, u, q)
    ensures Grown(s, u, p + q)
  {
  }

  lemma CreateGrown(s: Build)
    requires Valid(s)
    ensures Valid(Create(s)) && Grown(s, Create(s), {s.nextBlock}) && Create(s).cur == s.cur
    ensures Open(s) ==> Open(Create(s))
    ensures Create(s).blocks[s.nextBlock] == EMPTY && s.nextBlock !in s.blocks
  {
    forall p, x: BlockId ensures p in Preds(Create(s), x) <==> EdgeIn(Create(s), p, x) {
      assert p in Preds(s, x) <==> EdgeIn(s, p, x);
    }
    forall p, x | EdgeIn(Create(s), p, x) ensures x in Create(s).blocks { assert EdgeIn(s, p, x); }
  }

  /** The insertion point moves to a block that was put off. */
  lemma MoveGrown(s: Build, t: Build, pend: set<BlockId>, b: BlockId)
    requires Valid(t) && Grown(s, t, pend) && b in pend && t.blocks[t.cur].term.Some?
    ensures Valid(MoveTo(t, b)) && Grown(s, MoveTo(t, b), pend - {b}) && Open(MoveTo(t, b))
  {
    var u := MoveTo(t, b);
    forall p, x: BlockId ensures (p in Preds(u, x) <==> EdgeIn(u, p, x)) && (EdgeIn(u, p, x) ==> x in u.blocks) {
      assert p in Preds(t, x) <==> EdgeIn(t, p, x);
      assert EdgeIn(u, p, x) == EdgeIn(t, p, x);
    }
  }

  lemma SameEdges(s: Build, t: Build)
    requires Valid(s) && t.cur in t.blocks && t.preds == s.preds && s.nextBlock <= t.nextBlock
             && t.blocks.Keys == s.blocks.Keys
    requires forall b :: b in s.blocks ==> t.blocks[b].term == s.blocks[b].term
    ensures Valid(t)
  {
    forall p, x: BlockId ensures (p in Preds(t, x) <==> EdgeIn(t, p, x)) && (EdgeIn(t, p, x) ==> x in t.blocks) {
      assert p in Preds(s, x) <==> EdgeIn(s, p, x);
      assert EdgeIn(s, p, x) == EdgeIn(t, p, x);
    }
  }

  lemma EmitGrown(s: Build, i: Instr)
    requires Valid(s) && Open(s)
    ensures Valid(Emit(s, i)) && Open(Emit(s, i)) && Grown(s, Emit(s, i), {}) && Emit(s, i).nextReg == s.nextReg
    ensures Valid(Define(s, i)) && Open(Define(s, i)) && Grown(s, Define(s, i), {})
            && Define(s, i).nextReg == s.nextReg + 1
  {
    SameEdges(s, Emit(s, i));
    SameEdges(s, Define(s, i));
  }

  lemma BranchGrown(s: Build, x: BlockId)
    requires Valid(s) && Open(s) && x in s.blocks
    ensures Valid(Branch(s, x)) && Grown(s, Branch(s, x), {}) && EdgeIn(Branch(s, x), s.cur, x)
    ensures Branch(s, x).blocks[s.cur].term == Some(Br(x)) && Branch(s, x).cur == s.cur
            && Branch(s, x).nextReg == s.nextReg
  {
    var t := Branch(s, x);
    forall p, y: BlockId ensures (p in Preds(t, y) <==> EdgeIn(t, p, y)) && (EdgeIn(t, p, y) ==> y in t.blocks) {
      assert p in Preds(s, y) <==> EdgeIn(s, p, y);
      assert p != s.cur ==> EdgeIn(s, p, y) == EdgeIn(t, p, y);
    }
  }

  lemma CondBranchGrown(s: Build, o: Operand, x: BlockId, y: BlockId)
    requires Valid(s) && Open(s) && x in s.blocks && y in s.blocks
    ensures var t := CondBranch(s, o, x, y);
            && Valid(t) && Grown(s, t, {}) && EdgeIn(t, s.cur, x) && EdgeIn(t, s.cur, y)
            && t.blocks[s.cur].term == Some(if x == y then Br(x) else CondBr(o, x, y)) && t.cur == s.cur
                && t.nextReg == s.nextReg
  {
    if x == y {
      BranchGrown(s, x);
    } else {
      var t := CondBranch(s, o, x, y);
      forall p, z: BlockId ensures (p in Preds(t, z) <==> EdgeIn(t, p, z)) && (EdgeIn(t, p, z) ==> z in t.blocks) {
        assert p in Preds(s, z) <==> EdgeIn(s, p, z);
        assert p != s.cur ==> EdgeIn(s, p, z) == EdgeIn(t, p, z);
      }
    }
  }

  lemma ExitGrown(s: Build, r: Option<Operand>)
    requires Valid(s) && Open(s)
    ensures var t := Exit(s, r);
            && Valid(t) && Grown(s, t, {}) && t.blocks[s.cur].term == Some(Ret(r)) && t.cur == s.cur
                && t.nextReg == s.nextReg
  {
    var t := Exit(s, r);
    forall p, y: BlockId ensures (p in Preds(t, y) <==> EdgeIn(t, p, y)) && (EdgeIn(t, p, y) ==> y in t.blocks) {
      assert p in Preds(s, y) <==> EdgeIn(s, p, y);
      assert p != s.cur ==> EdgeIn(s, p, y) == EdgeIn(t, p, y);
    }
  }

  /** A phi goes into a block nothing was put in before. */
  lemma PhiGrown(s: Build, t: Build, pend: set<BlockId>, pairs: seq<(Operand, BlockId)>)
    requires Valid(t) && Open(t) && Grown(s, t, pend) && t.cur !in s.blocks
    ensures var u := AddPhi(t, pairs);
            Valid(u) && Open(u) && Grown(s, u, pend) && u.nextReg == t.nextReg + 1 && u.cur == t.cur
  {
    SameEdges(t, AddPhi(t, pairs));
  }

  /** A block without predecessors that was never started is taken out again. */
  lemma RemoveGrown(s: Build, t: Build, pend: set<BlockId>, b: BlockId)
    requires Valid(t) && Grown(s, t, pend) && b in pend && Preds(t, b) == []
    ensures Valid(Remove(t, b)) && Grown(s, Remove(t, b), pend - {b})
  {
    var u := Remove(t, b);
    forall p, x: BlockId ensures (p in Preds(u, x) <==> EdgeIn(u, p, x)) && (EdgeIn(u, p, x) ==> x in u.blocks) {
      assert p in Preds(t, x) <==> EdgeIn(t, p, x);
      assert EdgeIn(u, p, x) == EdgeIn(t, p, x);
      assert EdgeIn(t, p, b) ==> p in Preds(t, b);
    }
  }

  lemma EdgeStays(s: Build, t: Build, pend: set<BlockId>, p: BlockId, x: BlockId)
    requires Grown(s, t, pend) && EdgeIn(s, p, x)
    ensures EdgeIn(t, p, x)
  {
  }

  // ----- The finished function -----

  /** What construction has fixed so far, `f` has. */
  ghost predicate Agrees(s: Build, f: Function) {
    forall b :: b in s.blocks ==>
      && (s.blocks[b].term.Some? ==>
            b in f.blocks && f.blocks[b] == Block(s.blocks[b].phis, s.blocks[b].body, s.blocks[b].term.value))
      && (b == s.cur ==> b in f.blocks && f.blocks[b].phis == s.blocks[b].phis && s.blocks[b].body <= f.blocks[b].body)
  }

  lemma AgreesBack(s: Build, t: Build, pend: set<BlockId>, f: Function)
    requires Grown(s, t, pend) && Agrees(t, f)
    ensures Agrees(s, f)
  {
  }

  /** What is left to run of block `b` from position `k`. */
  ghost function Rest(w: Oracle, f: Function, b: BlockId, k: nat, s: State): Config
    requires b in f.blocks && k <= |f.blocks[b].body|
  {
    var s1 := ExecBody(w, f.blocks[b].body[k..], s);
    if s1.Some? then Leave(f.blocks[b].term, b, s1.value) else Stuck
  }

  /** A run that has reached the insertion point. */
  ghost function At(w: Oracle, f: Function, t: Build, s: State): Config
    requires t.cur in t.blocks && Agrees(t, f)
  {
    Rest(w, f, t.cur, |t.blocks[t.cur].body|, s)
  }

  lemma EmitRuns(w: Oracle, f: Function, t: Build, i: Instr, s: State)
    requires Open(t) && Agrees(Emit(t, i), f) && Agrees(t, f) && ExecInstr(w, i, s).Some?
    ensures At(w, f, t, s) == At(w, f, Emit(t, i), ExecInstr(w, i, s).value)
  {
    var k, body := |t.blocks[t.cur].body|, f.blocks[t.cur].body;
    assert body[k] == i by {
      assert Emit(t, i).blocks[t.cur].body[k] == i;
    }
    assert body[k..][1..] == body[k + 1..];
  }

  lemma DefineRuns(w: Oracle, f: Function, t: Build, i: Instr, s: State)
    requires Open(t) && Agrees(Define(t, i), f) && Agrees(t, f) && ExecInstr(w, i, s).Some?
    ensures At(w, f, t, s) == At(w, f, Define(t, i), ExecInstr(w, i, s).value)
  {
    assert Agrees(Emit(t, i), f);
    EmitRuns(w, f, t, i, s);
  }

  /** A terminated block is left at once. */
  lemma LeaveRuns(w: Oracle, f: Function, t: Build, u: Build, s: State)
    requires Open(t) && Agrees(t, f) && t.cur in u.blocks && u.blocks[t.cur].term.Some? && Agrees(u, f)
    requires u.blocks[t.cur].body == t.blocks[t.cur].body
    ensures At(w, f, t, s) == Leave(u.blocks[t.cur].term.value, t.cur, s)
  {
    var body := f.blocks[t.cur].body;
    assert body[|body|..] == [];
  }

  /** A block that was just started is entered. */
  lemma EnterRuns(w: Oracle, f: Function, t: Build, from: BlockId, s: State)
    requires t.cur in t.blocks && Agrees(t, f) && t.blocks[t.cur].body == []
    ensures Step(w, f, Edge(from, t.cur, s)) == At(w, f, t, s.(env := EnterEnv(t.blocks[t.cur].phis, from, s.env)))
  {
    var body := f.blocks[t.cur].body;
    assert body[0..] == body;
  }

  // ----- Reaching -----

  ghost predicate Reaches(w: Oracle, f: Function, c: Config, d: Config) {
    exists n: nat :: Run(w, f, n, c) == d
  }

  /** The run is still going after `n` edges or more. */
  ghost predicate Lasts(w: Oracle, f: Function, c: Config, n: nat) {
    exists k: nat :: k >= n && Run(w, f, k, c).Edge?
  }

  lemma {:induction false} RunSum(w: Oracle, f: Function, m: nat, n: nat, c: Config)
    ensures Run(w, f, n, Run(w, f, m, c)) == Run(w, f, m + n, c)
  {
    if n > 0 {
      RunSum(w, f, m, n - 1, c);
    }
  }

  lemma ReachesSelf(w: Oracle, f: Function, c: Config)
    ensures Reaches(w, f, c, c)
  {
    assert Run(w, f, 0, c) == c;
  }

  lemma ReachesStep(w: Oracle, f: Function, c: Config)
    ensures Reaches(w, f, c, Step(w, f, c))
  {
    assert Run(w, f, 0, c) == c;
    assert Run(w, f, 1, c) == Step(w, f, c);
  }

  lemma ReachesTrans(w: Oracle, f: Function, c: Config, d: Config, e: Config)
    requires Reaches(w, f, c, d) && Reaches(w, f, d, e)
    ensures Reaches(w, f, c, e)
  {
    var m: nat :| Run(w, f, m, c) == d;
    var n: nat :| Run(w, f, n, d) == e;
    RunSum(w, f, m, n, c);
  }

  lemma ReachesLasts(w: Oracle, f: Function, c: Config, d: Config, n: nat)
    requires Reaches(w, f, c, d) && Lasts(w, f, d, n)
    ensures Lasts(w, f, c, n)
  {
    var m: nat :| Run(w, f, m, c) == d;
    var k: nat :| k >= n && Run(w, f, k, d).Edge?;
    RunSum(w, f, m, k, c);
  }

  lemma StepLasts(w: Oracle, f: Function, c: Config, n: nat)
    requires Lasts(w, f, Step(w, f, c), n)
    ensures Lasts(w, f, c, n + 1)
  {
    var k: nat :| k >= n && Run(w, f, k, Step(w, f, c)).Edge?;
    assert Run(w, f, 0, c) == c;
    assert Run(w, f, 1, c) == Step(w, f, c);
    RunSum(w, f, 1, k, c);
  }
}
