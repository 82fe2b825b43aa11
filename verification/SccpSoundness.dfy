/** What the constant propagation concludes is true of every run, and the rewritten function
    behaves like the original one. */
module SccpSoundness {
  import opened IR
  import opened PhiForm
  import opened Sccp
  import opened SccpRewrite
  import SccpForm

  // ----- Constants hold in every state a run goes through -----

  /** A register marked constant holds that constant whenever it holds anything; one marked
      `Init` never holds anything. */
  ghost predicate Agrees(s: ValStatus, v: Option<Val>) {
    && (s.Constant? ==> v == None || v == Some(s.c))
    && (s.Init? ==> v == None)
  }

  ghost predicate EnvAgrees(vm: ValueMap, env: Env) {
    forall r: Reg :: Agrees(Get(vm, Reg(r)), env(r))
  }

  lemma ReadAgrees(vm: ValueMap, env: Env, o: Operand)
    requires EnvAgrees(vm, env)
    ensures Agrees(Get(vm, o), Read(o, env))
  {
  }

  /** A meet that stays above `Undef` bounds every operand. */
  lemma {:induction false} MeetBounds(vm: ValueMap, os: seq<Operand>, cur: ValStatus, k: nat)
    requires Rank(MeetFrom(vm, os, cur)) >= 2
    ensures cur == MeetFrom(vm, os, cur) || cur == Init
    ensures k < |os| ==> Get(vm, os[k]) == MeetFrom(vm, os, cur) || Get(vm, os[k]) == Init
  {
    if os != [] {
      MeetBounds(vm, os[1..], Meet(cur, Get(vm, os[0])), if k == 0 then 0 else k - 1);
      assert 0 < k < |os| ==> os[1..][k - 1] == os[k];
    }
  }

  lemma FoldAgrees(vm: ValueMap, env: Env, i: Instr)
    requires EnvAgrees(vm, env) && i.Pure? && Foldable(i.op, |i.args|) && Transfer(vm, i).Some?
    ensures Agrees(Transfer(vm, i).value, ApplyTo(i.op, ReadAll(i.args, env)))
  {
    var os := i.args;
    if AllConstant(vm, os) {
      forall k | 0 <= k < |os| ensures Agrees(Get(vm, os[k]), Read(os[k], env)) {
        ReadAgrees(vm, env, os[k]);
      }
      if ReadAll(os, env).Some? {
        assert ReadAll(os, env).value == Sccp.Constants(vm, os);
      }
    } else if Rank(MeetFrom(vm, os, Init)) >= 2 {
      var k :| 0 <= k < |os| && !Get(vm, os[k]).Constant?;
      MeetBounds(vm, os, Init, k);
      ReadAgrees(vm, env, os[k]);
      assert Read(os[k], env).None?;
    }
  }

  lemma PhiAgrees(vm: ValueMap, env: Env, p: Phi, from: BlockId)
    requires EnvAgrees(vm, env)
    ensures Agrees(MeetFrom(vm, PhiOperands(p), Init), PhiValue(p, from, env))
  {
    if PhiChoice(p.pairs, from).Some? && Rank(MeetFrom(vm, PhiOperands(p), Init)) >= 2 {
      PhiChoiceIn(p.pairs, from);
      var k :| 0 <= k < |p.pairs| && p.pairs[k].0 == PhiChoice(p.pairs, from).value;
      MeetBounds(vm, PhiOperands(p), Init, k);
      ReadAgrees(vm, env, p.pairs[k].0);
    }
  }

  lemma EnterAgrees(f: Function, vm: ValueMap, b: BlockId, from: BlockId, env: Env)
    requires Settled(f, vm) && b in f.blocks && EnvAgrees(vm, env)
    ensures EnvAgrees(vm, EnterEnv(f.blocks[b].phis, from, env))
  {
    var phis := f.blocks[b].phis;
    forall r: Reg ensures Agrees(Get(vm, Reg(r)), EnterEnv(phis, from, env)(r)) {
      FindPhiIn(phis, r);
      if FindPhi(phis, r).Some? {
        var k :| 0 <= k < |phis| && phis[k] == FindPhi(phis, r).value;
        PhiAgrees(vm, env, phis[k], from);
        var x := PhiRef(b, k);
        assert IsRef(f, x) && RefDefines(f, x) == Some(r);
      }
    }
  }

  lemma InstrAgrees(w: Oracle, f: Function, vm: ValueMap, b: BlockId, k: nat, s: State)
    requires Settled(f, vm) && IsRef(f, BodyRef(b, k)) && EnvAgrees(vm, s.env)
    ensures var t := ExecInstr(w, f.blocks[b].body[k], s); t.Some? ==> EnvAgrees(vm, t.value.env)
  {
    var i := f.blocks[b].body[k];
    var x := BodyRef(b, k);
    if Defines(i).Some? {
      assert RefDefines(f, x) == Defines(i);
      var r := Defines(i).value;
      assert Get(vm, Reg(r)) != Undef ==> Transfer(vm, i) == Some(Get(vm, Reg(r)));
      if i.Pure? && Foldable(i.op, |i.args|) && Get(vm, Reg(r)) != Undef {
        FoldAgrees(vm, s.env, i);
      }
    }
  }

  // ----- The rewritten function refines the original -----

  /** `b` is `a`, or `a` is undefined. */
  ghost predicate Refines<T(!new)>(a: Option<T>, b: Option<T>) {
    a.None? || a == b
  }

  /** Memory and trace are the same; undefined registers and slots may have become defined. */
  ghost predicate Sim(vm: ValueMap, s: State, t: State) {
    && s.heap == t.heap && s.trace == t.trace
    && (forall v: Slot :: Refines(s.slots(v), t.slots(v)))
    && (forall r: Reg :: r !in ConstMap(vm) ==> Refines(s.env(r), t.env(r)))
    && EnvAgrees(vm, s.env)
  }

  lemma ReadRefines(vm: ValueMap, s: State, t: State, o: Operand)
    requires Sim(vm, s, t)
    ensures Refines(Read(o, s.env), Read(SubstOperand(ConstMap(vm), o), t.env))
  {
    ReadAgrees(vm, s.env, o);
  }

  lemma ReadAllRefines(vm: ValueMap, s: State, t: State, os: seq<Operand>)
    requires Sim(vm, s, t)
    ensures Refines(ReadAll(os, s.env), ReadAll(SubstOperands(ConstMap(vm), os), t.env))
  {
    var os' := SubstOperands(ConstMap(vm), os);
    forall k | 0 <= k < |os| ensures Refines(Read(os[k], s.env), Read(os'[k], t.env)) {
      ReadRefines(vm, s, t, os[k]);
    }
    if ReadAll(os, s.env).Some? {
      assert ReadAll(os, s.env).value == ReadAll(os', t.env).value;
    }
  }

  /** An instruction that is kept does the same in both. */
  lemma KeptInstr(w: Oracle, f: Function, vm: ValueMap, b: BlockId, k: nat, s: State, t: State)
    requires Settled(f, vm) && IsRef(f, BodyRef(b, k)) && Sim(vm, s, t)
    requires !IsDead(ConstMap(vm).Keys, f.blocks[b].body[k])
    ensures var i := f.blocks[b].body[k];
            var s', t' := ExecInstr(w, i, s), ExecInstr(w, SubstInstr(ConstMap(vm), i), t);
            s'.Some? ==> t'.Some? && Sim(vm, s'.value, t'.value)
  {
    InstrAgrees(w, f, vm, b, k, s);
    hide Settled, EnvAgrees, Transfer, SubstOperands, ReadAll, ApplyTo;
    match f.blocks[b].body[k]
    case Pure(d, op, args) => ReadAllRefines(vm, s, t, args);
    case Load(d, Local(_)) =>
    case Load(d, Addr(a)) => ReadRefines(vm, s, t, a);
    case Store(v, Local(_)) => ReadRefines(vm, s, t, v);
    case Store(v, Addr(a)) => ReadRefines(vm, s, t, v); ReadRefines(vm, s, t, a);
    case Call(d, c, args, e) => ReadAllRefines(vm, s, t, args);
    case Alloca(_, _) =>
  }

  /** An instruction that is erased only computed a register nobody reads any more. */
  lemma ErasedInstr(w: Oracle, f: Function, vm: ValueMap, b: BlockId, k: nat, s: State, t: State)
    requires Settled(f, vm) && IsRef(f, BodyRef(b, k)) && Sim(vm, s, t)
    requires IsDead(ConstMap(vm).Keys, f.blocks[b].body[k])
    ensures var s' := ExecInstr(w, f.blocks[b].body[k], s); s'.Some? ==> Sim(vm, s'.value, t)
  {
    InstrAgrees(w, f, vm, b, k, s);
    var i := f.blocks[b].body[k];
    assert TransferRef(f, vm, BodyRef(b, k)) == Transfer(vm, i);
    assert i.Pure?;
  }

  lemma {:induction false} BodySim(w: Oracle, f: Function, vm: ValueMap, b: BlockId, k: nat, s: State, t: State)
    requires Settled(f, vm) && b in f.blocks && k <= |f.blocks[b].body| && Sim(vm, s, t)
    ensures var body := f.blocks[b].body[k..];
            var s', t' := ExecBody(w, body, s), ExecBody(w,
                EraseBody(ConstMap(vm).Keys, SubstBody(ConstMap(vm), body)), t);
            s'.Some? ==> t'.Some? && Sim(vm, s'.value, t'.value)
    decreases |f.blocks[b].body| - k
  {
    var m, all := ConstMap(vm), f.blocks[b].body;
    if k < |all| {
      var i := all[k];
      assert all[k..][1..] == all[k + 1..];
      assert SubstBody(m, all[k..]) == [SubstInstr(m, i)] + SubstBody(m, all[k + 1..]);
      assert IsDead(m.Keys, SubstInstr(m, i)) == IsDead(m.Keys, i);
      var s1 := ExecInstr(w, i, s);
      if s1.Some? {
        if IsDead(m.Keys, i) {
          ErasedInstr(w, f, vm, b, k, s, t);
          BodySim(w, f, vm, b, k + 1, s1.value, t);
        } else {
          KeptInstr(w, f, vm, b, k, s, t);
          BodySim(w, f, vm, b, k + 1, s1.value, ExecInstr(w, SubstInstr(m, i), t).value);
        }
      }
    }
  }

  // ----- Runs stay on visited edges -----

  /** A run enters the function from outside, with no register of the function computed. */
  ghost predicate Fresh(f: Function, from: BlockId, s: State) {
    from !in f.blocks && forall x :: IsRef(f, x) && RefDefines(f, x).Some? ==> s.env(RefDefines(f, x).value) == None
  }

  lemma {:induction false} BodyAgrees(w: Oracle, f: Function, vm: ValueMap, b: BlockId, k: nat, s: State)
    requires Settled(f, vm) && b in f.blocks && k <= |f.blocks[b].body| && EnvAgrees(vm, s.env)
    ensures var t := ExecBody(w, f.blocks[b].body[k..], s); t.Some? ==> EnvAgrees(vm, t.value.env)
    decreases |f.blocks[b].body| - k
  {
    var all := f.blocks[b].body;
    if k < |all| {
      assert all[k..][1..] == all[k + 1..];
      InstrAgrees(w, f, vm, b, k, s);
      var s1 := ExecInstr(w, all[k], s);
      if s1.Some? { BodyAgrees(w, f, vm, b, k + 1, s1.value); }
    }
  }

  lemma LeaveVisited(f: Function, vm: ValueMap, b: BlockId, s: State)
    requires b in f.blocks && EnvAgrees(vm, s.env)
    ensures var c := Leave(f.blocks[b].term, b, s);
            c.Edge? ==>
                FlowEdges(f, vm, b).Some? && EdgeTo(b, c.b) in FlowEdges(f, vm, b).value && c.from == b && c.s == s
  {
    match f.blocks[b].term
    case Br(x) => assert EdgeTo(b, x) in [EdgeTo(b, x)];
    case CondBr(c, x, y) =>
      ReadAgrees(vm, s.env, c);
      assert EdgeTo(b, x) in [EdgeTo(b, x), EdgeTo(b, y)] && EdgeTo(b, y) in [EdgeTo(b, x), EdgeTo(b, y)];
      assert EdgeTo(b, x) in [EdgeTo(b, x)] && EdgeTo(b, y) in [EdgeTo(b, y)];
    case Ret(_) =>
  }

  lemma StepVisited(w: Oracle, f: Function, vm: ValueMap, visited: set<FlowEdge>, c: Config)
    requires Solution(f, vm, visited) && c.Edge? && EnvAgrees(vm, c.s.env)
    requires (c.b == f.entry || EdgeTo(c.from, c.b) in visited)
    ensures var d := Step(w, f, c);
            && (d.Edge? ==> EnvAgrees(vm, d.s.env) && EdgeTo(d.from, d.b) in visited)
            && (d.Done? ==> EnvAgrees(vm, d.s.env))
  {
    var e: FlowEdge := if c.b == f.entry then (None, f.entry) else EdgeTo(c.from, c.b);
    assert e in visited && Closed(f, vm, e.1, visited);
    var body := f.blocks[c.b].body;
    var s1 := c.s.(env := EnterEnv(f.blocks[c.b].phis, c.from, c.s.env));
    EnterAgrees(f, vm, c.b, c.from, c.s.env);
    BodyAgrees(w, f, vm, c.b, 0, s1);
    assert body[0..] == body;
    var s2 := ExecBody(w, body, s1);
    if s2.Some? { LeaveVisited(f, vm, c.b, s2.value); }
  }

  /** Soundness of the analysis: after any number of steps, a run has taken an edge marked visited,
      and every register marked constant holds that constant or was not computed yet. */
  lemma {:induction false} RunsStayVisited(w: Oracle, f: Function, vm: ValueMap, visited: set<FlowEdge>,
                                           from: BlockId, s: State, n: nat)
    requires Solution(f, vm, visited) && OnlyDefined(f, vm) && Fresh(f, from, s)
    ensures var c := Run(w, f, n, Edge(from, f.entry, s));
            && (c.Edge? ==> EnvAgrees(vm, c.s.env) && if n == 0 then c.b == f.entry else EdgeTo(c.from, c.b) in visited)
            && (c.Done? ==> EnvAgrees(vm, c.s.env))
  {
    if n == 0 {
      StartsUndefined(f, vm, from, s);
    } else {
      RunsStayVisited(w, f, vm, visited, from, s, n - 1);
      var c := Run(w, f, n - 1, Edge(from, f.entry, s));
      hide Step, Solution, OnlyDefined, Fresh, EnvAgrees;
      if c.Edge? {
        StepVisited(w, f, vm, visited, c);
      } else {
        StepStays(w, f, c);
      }
    }
  }

  lemma StartsUndefined(f: Function, vm: ValueMap, from: BlockId, s: State)
    requires OnlyDefined(f, vm) && Fresh(f, from, s)
    ensures EnvAgrees(vm, s.env)
  {
    forall r: Reg ensures Agrees(Get(vm, Reg(r)), s.env(r)) {
      if Get(vm, Reg(r)) != Undef {
        assert r in vm;
      }
    }
  }

  // ----- The rewritten function, block by block -----

  lemma {:induction false} FindErased(dead: set<Reg>, phis: seq<Phi>, r: Reg)
    requires r !in dead
    ensures FindPhi(ErasePhis(dead, phis), r) == FindPhi(phis, r)
  {
    if phis != [] {
      FindErased(dead, phis[1..], r);
      assert phis[0].dst !in dead ==> ErasePhis(dead, phis)[1..] == ErasePhis(dead, phis[1..]);
    }
  }

  lemma {:induction false} FindSubst(m: SccpRewrite.Constants, phis: seq<Phi>, r: Reg)
    ensures FindPhi(SubstPhis(m, phis), r) ==
            if FindPhi(phis, r).Some? then Some(SubstPhi(m, FindPhi(phis, r).value)) else None
  {
    if phis != [] {
      FindSubst(m, phis[1..], r);
      assert SubstPhis(m, phis)[1..] == SubstPhis(m, phis[1..]);
    }
  }

  lemma {:induction false} FindPruned(phis: seq<Phi>, gone: set<BlockId>, r: Reg)
    ensures FindPhi(PrunePhis(phis, gone), r) ==
            if FindPhi(phis, r).Some? then Some(Phi(r, RemovePairs(FindPhi(phis, r).value.pairs, gone))) else None
  {
    if phis != [] {
      FindPruned(phis[1..], gone, r);
      assert PrunePhis(phis, gone)[1..] == PrunePhis(phis[1..], gone);
    }
  }

  lemma {:induction false} ChoiceKept(m: SccpRewrite.Constants, pairs: seq<(Operand, BlockId)>, gone: set<BlockId>,
                                      from: BlockId)
    requires from !in gone
    ensures PhiChoice(RemovePairs(SubstPairs(m, pairs), gone), from) ==
            if PhiChoice(pairs, from).Some? then Some(SubstOperand(m, PhiChoice(pairs, from).value)) else None
  {
    if pairs != [] {
      ChoiceKept(m, pairs[1..], gone, from);
      var pairs' := SubstPairs(m, pairs);
      assert pairs'[1..] == SubstPairs(m, pairs[1..]);
      if pairs[0].1 !in gone {
        assert RemovePairs(pairs', gone)[1..] == RemovePairs(pairs'[1..], gone);
      }
    }
  }

  function NewPhis(m: SccpRewrite.Constants, phis: seq<Phi>, gone: set<BlockId>): seq<Phi> {
    PrunePhis(ErasePhis(m.Keys, SubstPhis(m, phis)), gone)
  }

  lemma PhiSim(vm: ValueMap, p: Phi, gone: set<BlockId>, from: BlockId, s: State, t: State)
    requires Sim(vm, s, t) && from !in gone
    ensures Refines(PhiValue(p, from, s.env),
                    PhiValue(Phi(p.dst, RemovePairs(SubstPhi(ConstMap(vm), p).pairs, gone)), from, t.env))
  {
    ChoiceKept(ConstMap(vm), p.pairs, gone, from);
    if PhiChoice(p.pairs, from).Some? {
      ReadRefines(vm, s, t, PhiChoice(p.pairs, from).value);
    }
  }

  lemma EnterSim(f: Function, vm: ValueMap, b: BlockId, gone: set<BlockId>, from: BlockId, s: State, t: State)
    requires Settled(f, vm) && b in f.blocks && Sim(vm, s, t) && from !in gone
    ensures var phis := f.blocks[b].phis;
            Sim(vm, s.(env := EnterEnv(phis, from, s.env)),
                t.(env := EnterEnv(NewPhis(ConstMap(vm), phis, gone), from, t.env)))
  {
    var m, phis := ConstMap(vm), f.blocks[b].phis;
    EnterAgrees(f, vm, b, from, s.env);
    forall r: Reg | r !in m ensures Refines(EnterEnv(phis, from, s.env)(r),
        EnterEnv(NewPhis(m, phis, gone), from, t.env)(r)) {
      FindSubst(m, phis, r);
      FindErased(m.Keys, SubstPhis(m, phis), r);
      FindPruned(ErasePhis(m.Keys, SubstPhis(m, phis)), gone, r);
      if FindPhi(phis, r).Some? {
        FindPhiIn(phis, r);
        PhiSim(vm, FindPhi(phis, r).value, gone, from, s, t);
      }
    }
  }

  lemma RewrittenBlock(f: Function, vm: ValueMap, b: BlockId)
    requires b in f.blocks
    ensures var m := ConstMap(vm);
            var h := EraseFunction(m.Keys, SubstFunction(m, f));
            && b in Rewritten(f, vm).blocks && h.blocks.Keys == f.blocks.Keys
            && Rewritten(f, vm).blocks[b] ==
               Block(NewPhis(m, f.blocks[b].phis, Gone(h, f.blocks.Keys, b)),
                     EraseBody(m.Keys, SubstBody(m, f.blocks[b].body)),
                     ConvertTerm(SubstTerm(m, f.blocks[b].term)))
  {
  }

  ghost predicate ConfigSim(f: Function, vm: ValueMap, c: Config, d: Config) {
    match c
    case Stuck => true
    case Done(v, s) => d.Done? && d.result == v && Sim(vm, s, d.s)
    case Edge(from, b, s) => d.Edge? && d.from == from && d.b == b && Sim(vm, s, d.s) && !Cut(f, vm, from, b)
  }

  /** The rewriting removes the edge `from -> b`. */
  ghost predicate Cut(f: Function, vm: ValueMap, from: BlockId, b: BlockId) {
    Drops(EraseFunction(ConstMap(vm).Keys, SubstFunction(ConstMap(vm), f)), from, b)
  }

  lemma LeaveSim(f: Function, vm: ValueMap, b: BlockId, s: State, t: State)
    requires b in f.blocks && Sim(vm, s, t)
    ensures ConfigSim(f, vm, Leave(f.blocks[b].term, b, s),
              Leave(ConvertTerm(SubstTerm(ConstMap(vm), f.blocks[b].term)), b, t))
  {
    var m := ConstMap(vm);
    var h := EraseFunction(m.Keys, SubstFunction(m, f));
    assert h.blocks[b].term == SubstTerm(m, f.blocks[b].term);
    match f.blocks[b].term
    case Br(_) =>
    case CondBr(c, x, y) => ReadRefines(vm, s, t, c);
    case Ret(None) =>
    case Ret(Some(o)) => ReadRefines(vm, s, t, o);
  }

  lemma StepSim(w: Oracle, f: Function, vm: ValueMap, c: Config, d: Config)
    requires Settled(f, vm) && ConfigSim(f, vm, c, d)
    ensures ConfigSim(f, vm, Step(w, f, c), Step(w, Rewritten(f, vm), d))
  {
    if c.Edge? && c.b in f.blocks {
      var m, b, blk := ConstMap(vm), c.b, f.blocks[c.b];
      var h := EraseFunction(m.Keys, SubstFunction(m, f));
      var gone := Gone(h, f.blocks.Keys, b);
      RewrittenBlock(f, vm, b);
      assert c.from !in gone;
      EnterSim(f, vm, b, gone, c.from, c.s, d.s);
      var s1 := c.s.(env := EnterEnv(blk.phis, c.from, c.s.env));
      var t1 := d.s.(env := EnterEnv(NewPhis(m, blk.phis, gone), c.from, d.s.env));
      BodySim(w, f, vm, b, 0, s1, t1);
      assert blk.body[0..] == blk.body;
      var s2 := ExecBody(w, blk.body, s1);
      if s2.Some? {
        LeaveSim(f, vm, b, s2.value, ExecBody(w, EraseBody(m.Keys, SubstBody(m, blk.body)), t1).value);
      }
    }
  }

  /** Replacing constants, erasing their instructions and converting decided branches preserves
      every run: as long as the original is not stuck, the rewritten function takes the same edges,
      has the same memory and trace, and returns the same value. */
  lemma {:induction false} RewritePreservesRuns(w: Oracle, f: Function, vm: ValueMap, visited: set<FlowEdge>,
                                                from: BlockId, s: State, n: nat)
    requires Solution(f, vm, visited) && OnlyDefined(f, vm) && Fresh(f, from, s)
    ensures ConfigSim(f, vm, Run(w, f, n, Edge(from, f.entry, s)), Run(w, Rewritten(f, vm), n, Edge(from, f.entry, s)))
  {
    if n == 0 {
      StartsUndefined(f, vm, from, s);
    } else {
      RewritePreservesRuns(w, f, vm, visited, from, s, n - 1);
      StepSim(w, f, vm, Run(w, f, n - 1, Edge(from, f.entry, s)),
          Run(w, Rewritten(f, vm), n - 1, Edge(from, f.entry, s)));
    }
  }

  lemma SeenAgain(f: Function, vm: ValueMap, c: Config, d: Config)
    requires ConfigSim(f, vm, c, d)
    ensures SeenKept(c, d)
  {
  }

  lemma NothingChanged(c: Config)
    ensures SeenKept(c, c)
  {
  }

  /** No instruction of a visited block has operands that would give it another status; no branch on a constant operand
      was taken to be going elsewhere. */
  ghost predicate Fixed(f: Function, vm: ValueMap, visited: set<FlowEdge>) {
    && (forall x: Ref :: Reached(visited, x.b) && x.b != f.entry ==> !Stale(f, vm, x))
    && (EntryFirst(f) ==> EntrySettled(f, vm) && forall e ::
          e in visited && e.0 == Some(f.entry) ==> !Excluded(f, vm, e))
    && forall e :: e in visited && e.0.Some? ==> e.0.value in f.blocks && !RuledOut(f.blocks[e.0.value].term, e.1)
  }

  lemma FixedIs(f: Function, vm: ValueMap, visited: set<FlowEdge>)
    requires forall x: Ref :: Reached(visited, x.b) && x.b != f.entry ==> !Stale(f, vm, x)
    requires EntryFirst(f) ==> EntrySettled(f, vm)
    requires EntryFirst(f) ==> forall e :: e in visited && e.0 == Some(f.entry) ==> !Excluded(f, vm, e)
    requires forall e :: e in visited && e.0.Some? ==> e.0.value in f.blocks && !RuledOut(f.blocks[e.0.value].term, e.1)
    ensures Fixed(f, vm, visited)
  {
  }

  /** The pass as a whole.  `vm` and `visited` are what the analysis found. */
  method PropagateConstants(f: Function) returns (ok: bool, g: Function, ghost vm: ValueMap,
                                                  ghost visited: set<FlowEdge>)
    requires TargetsExist(f) && SingleAssignment(f)
    ensures ok ==> Solution(f, vm, visited) && OnlyDefined(f, vm) && g == Rewritten(f, vm)
    ensures ok ==> forall w, from, s, n :: Fresh(f, from, s) ==>
                     ConfigSim(f, vm, Run(w, f, n, Edge(from, f.entry, s)), Run(w, g, n, Edge(from, f.entry, s)))
    ensures forall w, from, s, n :: Fresh(f, from, s) ==>
              SeenKept(Run(w, f, n, Edge(from, f.entry, s)), Run(w, g, n, Edge(from, f.entry, s)))
    ensures !ok ==> g == f && Raises(f, vm)
    ensures ok ==> Fixed(f, vm, visited)
    ensures ok ==> ConstantsGone(vm, g) && BranchesDecided(f, vm, g) && SccpForm.RestStays(f, vm, g)
    ensures forall b :: PhisComplete(f, b) ==> PhisComplete(g, b)
  {
    var pass := new SCCP(f);
    ok := pass.Analyze();
    vm, visited := pass.value_map, pass.visited;
    var vm0 := pass.value_map;
    g := f;
    if ok {
      FixedIs(f, vm, visited);
      hide *;
      g := ReplaceWithConstant(f, vm0);
      SccpForm.RewrittenStays(f, vm);
      forall w, from, s, n | Fresh(f, from, s)
        ensures ConfigSim(f, vm, Run(w, f, n, Edge(from, f.entry, s)), Run(w, g, n, Edge(from, f.entry, s)))
        ensures SeenKept(Run(w, f, n, Edge(from, f.entry, s)), Run(w, g, n, Edge(from, f.entry, s)))
      {
        RewritePreservesRuns(w, f, vm, visited, from, s, n);
        SeenAgain(f, vm, Run(w, f, n, Edge(from, f.entry, s)), Run(w, g, n, Edge(from, f.entry, s)));
      }
    } else {
      hide *;
      forall w, from, s, n | Fresh(f, from, s)
        ensures SeenKept(Run(w, f, n, Edge(from, f.entry, s)), Run(w, g, n, Edge(from, f.entry, s)))
      {
        NothingChanged(Run(w, f, n, Edge(from, f.entry, s)));
      }
    }
  }

  // ----- A sum -----

  /** `return 1 + 2;` */
  function Sum(): Function {
    Function(0, map[0 := Block([], [Pure(0, Add, [Const(IntVal(1)), Const(IntVal(2))])], Ret(Some(Reg(0))))])
  }

  lemma SumFoldable(vm: ValueMap)
    ensures !Raises(Sum(), vm) && SingleAssignment(Sum()) && TargetsExist(Sum()) && EntryFirst(Sum())
    ensures !Stale(Sum(), vm, BodyRef(0, 0)) ==> 0 in vm && vm[0] == Constant(IntVal(3))
  {
    var f := Sum();
    var i := f.blocks[0].body[0];
    assert Get(vm, i.args[0]) == Constant(IntVal(1)) && Get(vm, i.args[1]) == Constant(IntVal(2));
    assert Sccp.Constants(vm, i.args) == [IntVal(1), IntVal(2)];
    assert Transfer(vm, i) == Some(Constant(IntVal(3)));
    assert forall x :: IsRef(f, x) && RefDefines(f, x).Some? ==> x == BodyRef(0, 0);
    hide Transfer, Get;
  }

  lemma SumRewritten(vm: ValueMap, g: Function)
    requires g == Rewritten(Sum(), vm) && 0 in vm && vm[0] == Constant(IntVal(3))
    ensures g == Function(0, map[0 := Block([], [], Ret(Some(Const(IntVal(3)))))])
  {
    var f, m := Sum(), ConstMap(vm);
    var blk := SubstBlock(m, f.blocks[0]);
    assert blk.phis == [] && blk.term == Ret(Some(Const(IntVal(3))));
    assert |blk.body| == 1 && IsDead(m.Keys, blk.body[0]);
    assert EraseBody(m.Keys, blk.body) == EraseBody(m.Keys, blk.body[1..]) == [];
    assert g.blocks[0] == Block([], [], Ret(Some(Const(IntVal(3)))));
  }

  /** The pass leaves the result alone. */
  method SumFolds() returns (g: Function)
    ensures g == Function(0, map[0 := Block([], [], Ret(Some(Const(IntVal(3)))))])
  {
    SumFoldable(map[]);
    ghost var vm, visited;
    var ok;
    ok, g, vm, visited := PropagateConstants(Sum());
    SumFoldable(vm);
    assert EntrySettled(Sum(), vm);
    SumRewritten(vm, g);
  }
}
