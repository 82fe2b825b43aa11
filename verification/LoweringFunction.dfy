/** The theorem about a whole function: it runs as its syntax tree says, and it is well formed. */
module LoweringFunction {
  import opened IR
  import A = Ast
  import opened Builder
  import opened Lowering
  import opened LoweringRuns
  import opened LoweringStmts
  import opened LoweringControl

  /** The entry block stores the arguments, which come in the first registers, to the slots of the parameters;
      here `k` of them. */
  function Stored(params: seq<Slot>, k: nat): Build
    requires k <= |params|
  {
    if k == 0 then Build(map[0 := EMPTY], 0, map[], 1, |params|)
    else Emit(Stored(params, k - 1), Store(Reg(k - 1), Local(params[k - 1])))
  }

  function Start(params: seq<Slot>): Build {
    Stored(params, |params|)
  }

  /** The body, and a return at its end when control gets there. */
  function LowerBody(params: seq<Slot>, body: seq<A.Stmt>, returnsVoid: bool): Build {
    var t := LowerStmts(body, Start(params), []);
    if Open(t) then Exit(t, if returnsVoid then None else Some(Const(IntVal(0)))) else t
  }

  function Finished(t: Build): Function {
    Function(0, map b | b in t.blocks
        && t.blocks[b].term.Some? :: Block(t.blocks[b].phis, t.blocks[b].body, t.blocks[b].term.value))
  }

  function LowerFunction(params: seq<Slot>, body: seq<A.Stmt>, returnsVoid: bool): Function {
    Finished(LowerBody(params, body, returnsVoid))
  }

  /** The slots when the first `k` parameters have got their arguments. */
  ghost function Passed(params: seq<Slot>, args: Env, slots: Slots, k: nat): Slots
    requires k <= |params|
  {
    if k == 0 then slots else SetReg(Passed(params, args, slots, k - 1), params[k - 1], args(k - 1))
  }

  /** What a call of the function does; `args` gives the arguments by number. */
  ghost function EvalFunction(w: Oracle, params: seq<Slot>, body: seq<A.Stmt>, returnsVoid: bool, args: Env, m: A.Mem,
                              fuel: nat): A.Outcome
  {
    var o := A.EvalStmts(w, body, m.(slots := Passed(params, args, m.slots, |params|)), fuel);
    if o.Normal? then A.Returned(if returnsVoid then None else Some(IntVal(0)), o.m) else o
  }

  lemma {:induction false} StoredIs(params: seq<Slot>, k: nat)
    requires k <= |params|
    ensures var s := Stored(params, k);
            && s.blocks.Keys == {0} && s.cur == 0 && s.preds == map[] && s.nextBlock == 1 && s.nextReg == |params|
            && s.blocks[0].phis == [] && s.blocks[0].term == None && |s.blocks[0].body| == k
            && (forall j :: 0 <= j < k ==> s.blocks[0].body[j] == Store(Reg(j), Local(params[j])))
  {
    if k > 0 { StoredIs(params, k - 1); }
  }

  lemma StoredReady(params: seq<Slot>, k: nat)
    requires k <= |params|
    ensures Ready(Stored(params, k)) && LoopsOk(Stored(params, k), [])
  {
    StoredIs(params, k);
    hide Stored;
    var s := Stored(params, k);
    forall p, x: BlockId ensures p in Preds(s, x) <==> EdgeIn(s, p, x) {}
  }

  lemma StartReady(params: seq<Slot>)
    ensures Ready(Start(params)) && LoopsOk(Start(params), []) && Start(params).cur == 0
    ensures Start(params).blocks.Keys == {0} && Start(params).blocks[0].phis == []
  {
    StoredReady(params, |params|);
    StoredIs(params, |params|);
  }

  /** Every block that was made has been given one terminator. */
  lemma AllTerminated(params: seq<Slot>, body: seq<A.Stmt>, returnsVoid: bool)
    requires A.ProperStmts(body, false)
    ensures var t := LowerBody(params, body, returnsVoid);
            && Valid(t) && Grown(Start(params), t, {}) && !Open(t)
            && forall b :: b in t.blocks ==> t.blocks[b].term.Some?
  {
    StartReady(params);
    var t := LowerStmts(body, Start(params), []);
    hide LowerStmts, Valid, Start;
    StmtsGrow(body, Start(params), []);
    StmtIs(Start(params), t);
    if Open(t) {
      var r := if returnsVoid then None else Some(Const(IntVal(0)));
      ReadyFrom(t);
      ExitGrown(t, r);
      GrownSeq(Start(params), t, Exit(t, r));
    }
  }

  /** The function has its entry block, and every branch leads to a block of it. */
  lemma LoweredWellFormed(params: seq<Slot>, body: seq<A.Stmt>, returnsVoid: bool)
    requires A.ProperStmts(body, false)
    ensures var f := LowerFunction(params, body, returnsVoid);
            && f.entry in f.blocks && f.blocks[f.entry].phis == []
            && forall b, x :: b in f.blocks && x in Successors(f.blocks[b].term) ==> x in f.blocks
  {
    AllTerminated(params, body, returnsVoid);
    var t, f := LowerBody(params, body, returnsVoid), LowerFunction(params, body, returnsVoid);
    hide LowerBody, Grown;
    GrownStart(params, t);
    forall b, x | b in f.blocks && x in Successors(f.blocks[b].term) ensures x in f.blocks {
      assert EdgeIn(t, b, x);
    }
  }

  lemma GrownStart(params: seq<Slot>, t: Build)
    requires Grown(Start(params), t, {})
    ensures 0 in t.blocks && t.blocks[0].phis == []
  {
    StartReady(params);
    hide Start;
  }

  lemma FinishedAgrees(t: Build)
    requires t.cur in t.blocks && forall b :: b in t.blocks ==> t.blocks[b].term.Some?
    ensures Stands(t, Finished(t))
  {
  }

  lemma StoredBack(params: seq<Slot>, k: nat, f: Function)
    requires 0 < k <= |params| && Stands(Stored(params, k), f)
    ensures Stands(Stored(params, k - 1), f) && Open(Stored(params, k - 1))
  {
    StoredReady(params, k - 1);
    var t := Stored(params, k - 1);
    hide Stored, Valid, Grown, Agrees;
    EmitBack(t, Store(Reg(k - 1), Local(params[k - 1])), f);
  }

  lemma StoredNone(params: seq<Slot>)
    ensures Stored(params, 0) == Build(map[0 := EMPTY], 0, map[], 1, |params|)
  {
  }

  lemma PassedMore(params: seq<Slot>, args: Env, slots: Slots, k: nat)
    requires 0 < k <= |params|
    ensures Passed(params, args, slots, k) == SetReg(Passed(params, args, slots, k - 1), params[k - 1], args(k - 1))
    ensures Stored(params, k) == Emit(Stored(params, k - 1), Store(Reg(k - 1), Local(params[k - 1])))
  {
  }

  /** The run has stored the first `k` arguments. */
  ghost predicate RanStored(w: Oracle, f: Function, params: seq<Slot>, k: nat, from: BlockId, st: State, st': State)
    requires k <= |params|
  {
    && Stands(Stored(params, k), f) && Reaches(w, f, Edge(from, 0, st), At(w, f, Stored(params, k), st'))
    && MemOf(st') == MemOf(st).(slots := Passed(params, st.env, st.slots, k)) && Kept(st, st', |params|)
  }

  lemma {:induction false} StoredRuns(w: Oracle, f: Function, params: seq<Slot>, k: nat, from: BlockId, st: State)
    returns (st': State)
    requires k <= |params| && Stands(Stored(params, k), f)
    ensures RanStored(w, f, params, k, from, st, st')
  {
    if k == 0 {
      hide At, Agrees, Reaches, Kept;
      st' := EnterRest(w, f, Stored(params, 0), from, st, |params|);
    } else {
      StoredBack(params, k, f);
      var st1 := StoredRuns(w, f, params, k - 1, from, st);
      st' := StoreNext(w, f, params, k, from, st, st1);
    }
  }

  lemma StoreNext(w: Oracle, f: Function, params: seq<Slot>, k: nat, from: BlockId, st: State,
                  st1: State) returns (st': State)
    requires 0 < k <= |params| && Stands(Stored(params, k), f) && Open(Stored(params, k - 1))
    requires RanStored(w, f, params, k - 1, from, st, st1)
    ensures RanStored(w, f, params, k, from, st, st')
  {
    hide Stored, At, Passed, Reaches, SetReg, Emit, ExecInstr, Agrees;
    PassedMore(params, st.env, st.slots, k);
    var t, i := Stored(params, k - 1), Store(Reg(k - 1), Local(params[k - 1]));
    assert st1.env(k - 1) == st.env(k - 1);
    st' := ArgumentStored(w, k - 1, params[k - 1], st1);
    EmitRuns(w, f, t, i, st1);
  }

  lemma ArgumentStored(w: Oracle, r: Reg, v: Slot, st: State) returns (st': State)
    ensures ExecInstr(w, Store(Reg(r), Local(v)), st) == Some(st') && st'.env == st.env
    ensures MemOf(st') == MemOf(st).(slots := SetReg(st.slots, v, st.env(r)))
  {
    st' := st.(slots := SetReg(st.slots, v, st.env(r)));
  }

  /** Starting the function is entering its entry block and storing the arguments. */
  lemma StartRuns(w: Oracle, f: Function, params: seq<Slot>, from: BlockId, st: State) returns (st': State)
    requires Stands(Start(params), f)
    ensures Start(params).cur in Start(params).blocks && Agrees(Start(params), f)
    ensures MemOf(st') == MemOf(st).(slots := Passed(params, st.env, MemOf(st).slots, |params|))
    ensures Reaches(w, f, Edge(from, 0, st), At(w, f, Start(params), st'))
  {
    hide At, Agrees, Stored, Passed, Reaches;
    st' := StoredRuns(w, f, params, |params|, from, st);
  }

  /** How the run of a function goes on. */
  ghost predicate Ends(w: Oracle, f: Function, c: Config, fuel: nat, o: A.Outcome) {
    match o
    case Returned(r, m) => Returns(w, f, c, r, m)
    case Timeout => Lasts(w, f, c, fuel)
    case Wrong => true
    case _ => false
  }

  lemma BodyEnds(w: Oracle, f: Function, c: Config, t: Build, returnsVoid: bool, fuel: nat, o: A.Outcome)
    requires Valid(t) && Arrives(w, f, c, t, [], fuel, o)
    requires var r := if returnsVoid then None else Some(Const(IntVal(0))); Open(t) ==> Stands(Exit(t, r), f)
    ensures Ends(w, f, c, fuel, if o.Normal? then A.Returned(if returnsVoid then None else Some(IntVal(0)), o.m) else o)
  {
    hide Valid, Agrees, Reaches, MemOf, At;
    if o.Normal? {
      var st := ArrivedAt(w, f, c, t, [], fuel, o);
      var r := if returnsVoid then None else Some(Const(IntVal(0)));
      var v := if returnsVoid then None else Some(IntVal(0));
      ReadyFrom(t);
      ReturnsNow(w, f, t, r, st, v);
      ReturnsFrom(w, f, c, At(w, f, t, st), v, o.m);
    }
  }

  /** The lowered function does what the source function does: it returns the same value with the same memory
      and trace, or goes on for as long. */
  lemma LoweringPreservesMeaning(w: Oracle, params: seq<Slot>, body: seq<A.Stmt>, returnsVoid: bool, from: BlockId,
                                 st: State, fuel: nat)
    requires A.ProperStmts(body, false)
    ensures var f := LowerFunction(params, body, returnsVoid);
            Ends(w, f, Edge(from, f.entry, st), fuel,
                EvalFunction(w, params, body, returnsVoid, st.env, MemOf(st), fuel))
  {
    var t, f := LowerBody(params, body, returnsVoid), LowerFunction(params, body, returnsVoid);
    var u := LowerStmts(body, Start(params), []);
    var o := A.EvalStmts(w, body, MemOf(st).(slots := Passed(params, st.env, MemOf(st).slots, |params|)), fuel);
    StartReady(params);
    AllTerminated(params, body, returnsVoid);
    FinishedAgrees(t);
    hide LowerStmts, Valid, Grown, Agrees, Stands, A.EvalStmts, Arrives, Ends, Start, Passed, Finished, MemOf, Ready,
        LoopsOk, At, Exit, Reaches;
    StmtsGrow(body, Start(params), []);
    StmtIs(Start(params), u);
    BodyStands(u, returnsVoid, f);
    StandsBack(Start(params), u, {}, f);
    var st1 := StartRuns(w, f, params, from, st);
    StmtsRun(w, f, body, Start(params), [], st1, fuel);
    ArrivesFrom(w, f, Edge(from, 0, st), At(w, f, Start(params), st1), u, [], fuel, o);
    BodyEnds(w, f, Edge(from, 0, st), u, returnsVoid, fuel, o);
    EntryIs(t);
  }

  lemma EntryIs(t: Build)
    ensures Finished(t).entry == 0
  {
  }

  lemma BodyStands(u: Build, returnsVoid: bool, f: Function)
    requires Valid(u)
    requires var r := if returnsVoid then None else Some(Const(IntVal(0))); Stands(if Open(u) then Exit(u, r) else u, f)
    ensures Stands(u, f)
  {
    if Open(u) {
      ReadyFrom(u);
      ExitBack(u, if returnsVoid then None else Some(Const(IntVal(0))), f);
    }
  }

  // ----- The other direction -----

  lemma {:induction false} DoneStays(w: Oracle, f: Function, n: nat, r: Option<Val>, st: State)
    ensures Run(w, f, n, Done(r, st)) == Done(r, st)
  {
    if n > 0 { DoneStays(w, f, n - 1, r, st); }
  }

  lemma DoneDoesNotLast(w: Oracle, f: Function, c: Config, n: nat, r: Option<Val>, st: State)
    requires Run(w, f, n, c) == Done(r, st)
    ensures !Lasts(w, f, c, n)
  {
    forall k: nat | k >= n ensures !Run(w, f, k, c).Edge? {
      RunSum(w, f, n, k - n, c);
      DoneStays(w, f, k - n, r, st);
    }
  }

  lemma DoneOnce(w: Oracle, f: Function, c: Config, n: nat, r: Option<Val>, st: State, r': Option<Val>, m: A.Mem)
    requires Run(w, f, n, c) == Done(r, st) && Returns(w, f, c, r', m)
    ensures r' == r && m == MemOf(st)
  {
    var st' :| MemOf(st') == m && Reaches(w, f, c, Done(r', st'));
    var k: nat :| Run(w, f, k, c) == Done(r', st');
    if k <= n {
      RunSum(w, f, k, n - k, c);
      DoneStays(w, f, n - k, r', st');
    } else {
      RunSum(w, f, n, k - n, c);
      DoneStays(w, f, k - n, r, st);
    }
  }

  /** When the lowered function returns after `n` edges, the source function returns the same within `n` rounds
      of its loops, unless the source language gives it no meaning. */
  lemma LoweringReflectsMeaning(w: Oracle, params: seq<Slot>, body: seq<A.Stmt>, returnsVoid: bool, from: BlockId,
                                st: State, n: nat,
                                r: Option<Val>, st': State)
    requires A.ProperStmts(body, false)
    requires var f := LowerFunction(params, body, returnsVoid); Run(w, f, n, Edge(from, f.entry, st)) == Done(r, st')
    ensures var o := EvalFunction(w, params, body, returnsVoid, st.env, MemOf(st), n);
              o == A.Wrong || o == A.Returned(r, MemOf(st'))
  {
    hide LowerFunction, EvalFunction, Returns, MemOf, Run, Lasts;
    var f := LowerFunction(params, body, returnsVoid);
    var o := EvalFunction(w, params, body, returnsVoid, st.env, MemOf(st), n);
    LoweringPreservesMeaning(w, params, body, returnsVoid, from, st, n);
    DoneDoesNotLast(w, f, Edge(from, f.entry, st), n, r, st');
    if o.Returned? {
      DoneOnce(w, f, Edge(from, f.entry, st), n, r, st', o.r, o.m);
    }
  }

  // ----- Without fuel -----

  /** Once there is fuel enough for an outcome, more fuel gives the same one. */
  lemma {:induction false} OutcomeStays(w: Oracle, params: seq<Slot>, body: seq<A.Stmt>, returnsVoid: bool, args: Env,
                                        m: A.Mem, fuel: nat, more: nat)
    requires !EvalFunction(w, params, body, returnsVoid, args, m, fuel).Timeout?
    ensures EvalFunction(w, params, body, returnsVoid, args, m, fuel + more) ==
            EvalFunction(w, params, body, returnsVoid, args, m, fuel)
  {
    if more > 0 {
      OutcomeStays(w, params, body, returnsVoid, args, m, fuel, more - 1);
      A.MoreFuelAll(w, body, m.(slots := Passed(params, args, m.slots, |params|)), fuel + more - 1);
    }
  }

  /** A call returns `r` and leaves `m`: so it is found with that fuel, and with any more. */
  ghost predicate Means(w: Oracle, params: seq<Slot>, body: seq<A.Stmt>, returnsVoid: bool, args: Env, m0: A.Mem,
                        fuel: nat, r: Option<Val>, m: A.Mem) {
    forall k: nat :: fuel <= k ==> EvalFunction(w, params, body, returnsVoid, args, m0, k) == A.Returned(r, m)
  }

  /** The source language gives the call a meaning. */
  ghost predicate Meaningful(w: Oracle, params: seq<Slot>, body: seq<A.Stmt>, returnsVoid: bool, args: Env, m0: A.Mem) {
    forall k: nat :: EvalFunction(w, params, body, returnsVoid, args, m0, k) != A.Wrong
  }

  /** The run never ends and is never stuck. */
  ghost predicate Forever(w: Oracle, f: Function, c: Config) {
    forall n: nat :: Run(w, f, n, c).Edge?
  }

  lemma OutcomeMeans(w: Oracle, params: seq<Slot>, body: seq<A.Stmt>, returnsVoid: bool, args: Env, m0: A.Mem,
                     fuel: nat, r: Option<Val>, m: A.Mem)
    requires EvalFunction(w, params, body, returnsVoid, args, m0, fuel) == A.Returned(r, m)
    ensures Means(w, params, body, returnsVoid, args, m0, fuel, r, m)
  {
    hide EvalFunction;
    forall k: nat | fuel <= k ensures EvalFunction(w, params, body, returnsVoid, args, m0, k) == A.Returned(r, m) {
      OutcomeStays(w, params, body, returnsVoid, args, m0, fuel, k - fuel);
    }
  }

  /** A call that has a meaning returns a value with a memory exactly when the lowered function does. */
  lemma LoweringIsExact(w: Oracle, params: seq<Slot>, body: seq<A.Stmt>, returnsVoid: bool, from: BlockId, st: State,
                        r: Option<Val>, m: A.Mem)
    requires A.ProperStmts(body, false) && Meaningful(w, params, body, returnsVoid, st.env, MemOf(st))
    ensures var f := LowerFunction(params, body, returnsVoid);
            Returns(w, f, Edge(from, f.entry, st), r, m) <==>
                exists fuel :: Means(w, params, body, returnsVoid, st.env, MemOf(st), fuel, r, m)
  {
    var f := LowerFunction(params, body, returnsVoid);
    var c := Edge(from, f.entry, st);
    if Returns(w, f, c, r, m) {
      var st' :| MemOf(st') == m && Reaches(w, f, c, Done(r, st'));
      var n: nat :| Run(w, f, n, c) == Done(r, st');
      hide LowerFunction, EvalFunction, MemOf, Run, Means;
      LoweringReflectsMeaning(w, params, body, returnsVoid, from, st, n, r, st');
      OutcomeMeans(w, params, body, returnsVoid, st.env, MemOf(st), n, r, m);
    }
    if fuel :| Means(w, params, body, returnsVoid, st.env, MemOf(st), fuel, r, m) {
      hide LowerFunction, EvalFunction, MemOf, Returns;
      LoweringPreservesMeaning(w, params, body, returnsVoid, from, st, fuel);
    }
  }

  lemma {:induction false} EdgeBefore(w: Oracle, f: Function, c: Config, n: nat, k: nat)
    requires n <= k && Run(w, f, k, c).Edge?
    ensures Run(w, f, n, c).Edge?
  {
    if n < k { EdgeBefore(w, f, c, n, k - 1); }
  }

  /** And it never ends exactly when the lowered function runs on for ever. */
  lemma LoweringDiverges(w: Oracle, params: seq<Slot>, body: seq<A.Stmt>, returnsVoid: bool, from: BlockId, st: State)
    requires A.ProperStmts(body, false) && Meaningful(w, params, body, returnsVoid, st.env, MemOf(st))
    ensures var f := LowerFunction(params, body, returnsVoid);
            Forever(w, f, Edge(from, f.entry, st)) <==>
                forall fuel :: EvalFunction(w, params, body, returnsVoid, st.env, MemOf(st), fuel).Timeout?
  {
    var f := LowerFunction(params, body, returnsVoid);
    var c := Edge(from, f.entry, st);
    hide LowerFunction, EvalFunction, MemOf, Run;
    if Forever(w, f, c) {
      forall fuel ensures EvalFunction(w, params, body, returnsVoid, st.env, MemOf(st), fuel).Timeout? {
        LoweringPreservesMeaning(w, params, body, returnsVoid, from, st, fuel);
      }
    }
    if forall fuel :: EvalFunction(w, params, body, returnsVoid, st.env, MemOf(st), fuel).Timeout? {
      forall n: nat ensures Run(w, f, n, c).Edge? {
        LoweringPreservesMeaning(w, params, body, returnsVoid, from, st, n);
        var k: nat :| n <= k && Run(w, f, k, c).Edge?;
        EdgeBefore(w, f, c, n, k);
      }
    }
  }
}
