/** Statements, loops and whole functions run as the syntax tree says. */
module LoweringStmts {
  import opened IR
  import A = Ast
  import opened Builder
  import opened Lowering
  import opened LoweringRuns

  // ----- Where a statement leads -----

  ghost predicate ArrivesAt(w: Oracle, f: Function, c: Config, t: Build, m: A.Mem) {
    Open(t) && Stands(t, f) && exists st :: MemOf(st) == m && Reaches(w, f, c, At(w, f, t, st))
  }

  ghost predicate Jumps(w: Oracle, f: Function, c: Config, b: BlockId, m: A.Mem) {
    exists from, st :: MemOf(st) == m && Reaches(w, f, c, Edge(from, b, st))
  }

  ghost predicate Returns(w: Oracle, f: Function, c: Config, r: Option<Val>, m: A.Mem) {
    exists st :: MemOf(st) == m && Reaches(w, f, c, Done(r, st))
  }

  /** How the run goes on from `c` when the statement ends with `o`. */
  ghost predicate Arrives(w: Oracle, f: Function, c: Config, t: Build, loops: seq<Loop>, fuel: nat, o: A.Outcome) {
    match o
    case Normal(m) => ArrivesAt(w, f, c, t, m)
    case Broke(m) => loops != [] && Jumps(w, f, c, loops[|loops| - 1].next, m)
    case Continued(m) => loops != [] && Jumps(w, f, c, loops[|loops| - 1].cond, m)
    case Returned(r, m) => Returns(w, f, c, r, m)
    case Timeout => Lasts(w, f, c, fuel)
    case Wrong => true
  }

  lemma AtFrom(w: Oracle, f: Function, c: Config, d: Config, t: Build, m: A.Mem)
    requires Reaches(w, f, c, d) && ArrivesAt(w, f, d, t, m)
    ensures ArrivesAt(w, f, c, t, m)
  {
    var st :| MemOf(st) == m && Reaches(w, f, d, At(w, f, t, st));
    hide MemOf, Reaches;
    ReachesTrans(w, f, c, d, At(w, f, t, st));
  }

  lemma JumpsFrom(w: Oracle, f: Function, c: Config, d: Config, b: BlockId, m: A.Mem)
    requires Reaches(w, f, c, d) && Jumps(w, f, d, b, m)
    ensures Jumps(w, f, c, b, m)
  {
    var from, st :| MemOf(st) == m && Reaches(w, f, d, Edge(from, b, st));
    hide MemOf, Reaches;
    ReachesTrans(w, f, c, d, Edge(from, b, st));
  }

  lemma ReturnsFrom(w: Oracle, f: Function, c: Config, d: Config, r: Option<Val>, m: A.Mem)
    requires Reaches(w, f, c, d) && Returns(w, f, d, r, m)
    ensures Returns(w, f, c, r, m)
  {
    var st :| MemOf(st) == m && Reaches(w, f, d, Done(r, st));
    hide MemOf, Reaches;
    ReachesTrans(w, f, c, d, Done(r, st));
  }

  lemma ArrivesFrom(w: Oracle, f: Function, c: Config, d: Config, t: Build, loops: seq<Loop>, fuel: nat, o: A.Outcome)
    requires Reaches(w, f, c, d) && Arrives(w, f, d, t, loops, fuel, o)
    ensures Arrives(w, f, c, t, loops, fuel, o)
  {
    hide ArrivesAt, Jumps, Returns, Lasts, Reaches;
    match o
    case Normal(m) => AtFrom(w, f, c, d, t, m);
    case Broke(m) => JumpsFrom(w, f, c, d, loops[|loops| - 1].next, m);
    case Continued(m) => JumpsFrom(w, f, c, d, loops[|loops| - 1].cond, m);
    case Returned(r, m) => ReturnsFrom(w, f, c, d, r, m);
    case Timeout => ReachesLasts(w, f, c, d, fuel);
    case Wrong =>
  }

  lemma Elsewhere(w: Oracle, f: Function, c: Config, t: Build, u: Build, loops: seq<Loop>, fuel: nat, o: A.Outcome)
    requires Arrives(w, f, c, t, loops, fuel, o) && !o.Normal?
    ensures Arrives(w, f, c, u, loops, fuel, o)
  {
    hide Jumps, Returns, Lasts;
  }

  lemma ArrivesNow(w: Oracle, f: Function, t: Build, st: State, loops: seq<Loop>, fuel: nat)
    requires Open(t) && Stands(t, f)
    ensures Arrives(w, f, At(w, f, t, st), t, loops, fuel, A.Normal(MemOf(st)))
  {
    hide At;
    ReachesSelf(w, f, At(w, f, t, st));
  }

  // ----- Simple statements -----

  lemma EmitBack(t: Build, i: Instr, f: Function)
    requires Ready(t) && Stands(Emit(t, i), f)
    ensures Stands(t, f) && Open(Emit(t, i)) && t.cur in t.blocks && Emit(t, i).cur in Emit(t, i).blocks
  {
    hide Valid, Grown, Agrees;
    EmitGrown(t, i);
    StandsBack(t, Emit(t, i), {}, f);
  }

  /** A store at the end of what ran. */
  lemma StoreRuns(w: Oracle, f: Function, s: Build, t: Build, i: Instr, o: Operand, st: State, st1: State, g: A.Got,
                  loops: seq<Loop>, fuel: nat, st2: State)
    requires Ready(t) && ExpRan(w, f, s, t, o, st, st1, g) && Stands(Emit(t, i), f) && ExecInstr(w, i, st1) == Some(st2)
    ensures Stands(s, f) && s.cur in s.blocks && Agrees(s, f)
    ensures Arrives(w, f, At(w, f, s, st), Emit(t, i), loops, fuel, A.Normal(MemOf(st2)))
  {
    EmitBack(t, i, f);
    RanParts(w, f, s, t, o, st, st1, g);
    hide Ready, ExpRan, At, Emit, Arrives, ExecInstr;
    EmitRuns(w, f, t, i, st1);
    ArrivesNow(w, f, Emit(t, i), st2, loops, fuel);
    ArrivesFrom(w, f, At(w, f, s, st), At(w, f, t, st1), Emit(t, i), loops, fuel, A.Normal(MemOf(st2)));
  }

  lemma WrongRuns(w: Oracle, f: Function, s: Build, t: Build, st: State, loops: seq<Loop>, fuel: nat)
    requires ExpBuilt(s, t) && Stands(t, f)
    ensures Stands(s, f) && s.cur in s.blocks && Agrees(s, f) && Arrives(w, f, At(w, f, s, st), t, loops, fuel, A.Wrong)
  {
    StandsBuilt(s, t, f);
  }

  lemma ScalarAssignRuns(w: Oracle, f: Function, v: Slot, e: A.Exp, s: Build, st: State, loops: seq<Loop>, fuel: nat)
    requires Ready(s) && A.ProperExp(e) && A.EvalExp(w, e, MemOf(st)).Some?
    requires var (t, o) := LowerExp(e, s); Stands(Emit(t, Store(o, Local(v))), f)
    ensures Stands(s, f) && s.cur in s.blocks && Agrees(s, f)
    ensures var (t, o) := LowerExp(e, s);
            var y := A.EvalExp(w, e, MemOf(st)).value;
            Arrives(w, f, At(w, f, s, st), Emit(t, Store(o, Local(v))), loops, fuel,
                    A.Normal(y.m.(slots := SetReg(y.m.slots, v, y.v))))
  {
    var (t, o) := LowerExp(e, s);
    var y := A.EvalExp(w, e, MemOf(st)).value;
    hide Ready, ExpBuilt, ExpRan, Stands, Emit, LowerExp, A.EvalExp, At, Arrives, Agrees;
    ExpGrows(e, s);
    BuiltReady(s, t);
    EmitBack(t, Store(o, Local(v)), f);
    var st1 := ExpRuns(w, f, e, s, st);
    RanParts(w, f, s, t, o, st, st1, y);
    var st2 := st1.(slots := SetReg(st1.slots, v, Read(o, st1.env)));
    StoreRuns(w, f, s, t, Store(o, Local(v)), o, st, st1, y, loops, fuel, st2);
  }

  lemma PutRuns(w: Oracle, p: Operand, o: Operand, st: State, g: A.Got, pv: Option<Val>)
    requires Read(p, st.env) == pv && Read(o, st.env) == g.v && MemOf(st) == g.m && A.Put(pv, g.v, g.m).Normal?
    ensures ExecInstr(w, Store(o, Addr(p)), st).Some?
    ensures MemOf(ExecInstr(w, Store(o, Addr(p)), st).value) == A.Put(pv, g.v, g.m).m
  {
  }

  lemma ElementAssignRuns(w: Oracle, f: Function, x: A.Var, idx: seq<A.Exp>, e: A.Exp, s: Build, st: State,
                          loops: seq<Loop>, fuel: nat)
    requires Ready(s) && !x.Scalar? && A.ProperExps(idx) && A.ProperExp(e) && A.EvalPointer(w, x, idx, MemOf(st)).Some?
    requires var p := A.EvalPointer(w, x, idx, MemOf(st)).value;
             var y := A.EvalExp(w, e, p.m);
             y.Some? && A.Put(p.v, y.value.v, y.value.m).Normal?
    requires Stands(LowerAssign(x, idx, e, s), f)
    ensures Stands(s, f) && s.cur in s.blocks && Agrees(s, f)
    ensures var p := A.EvalPointer(w, x, idx, MemOf(st)).value;
            var y := A.EvalExp(w, e, p.m).value;
            Arrives(w, f, At(w, f, s, st), LowerAssign(x, idx, e, s), loops, fuel, A.Put(p.v, y.v, y.m))
  {
    var g := A.EvalPointer(w, x, idx, MemOf(st)).value;
    var y := A.EvalExp(w, e, g.m).value;
    hide Ready, ExpBuilt, ExpRan, Stands, Emit, LowerExp, LowerPointer, A.EvalExp, A.EvalPointer, At, Arrives, Agrees,
        OperandOk, ExecInstr, MemOf, A.Put;
    var (t, p) := LowerPointer(x, idx, s);
    var (u, o) := LowerExp(e, t);
    PointerGrows(x, idx, s);
    BuiltReady(s, t);
    ExpGrows(e, t);
    BuiltReady(t, u);
    BuiltSeq(s, t, u);
    EmitBack(u, Store(o, Addr(p)), f);
    StandsBuilt(t, u, f);
    var st1 := PointerRuns(w, f, x, idx, s, st);
    RanMem(w, f, s, t, p, st, st1, g);
    var st2 := ExpRuns(w, f, e, t, st1);
    RanThen(w, f, s, t, u, p, o, st, st1, st2, g, y);
    RanParts(w, f, s, u, o, st, st2, y);
    PutRuns(w, p, o, st2, y, g.v);
    StoreRuns(w, f, s, u, Store(o, Addr(p)), o, st, st2, y, loops, fuel, ExecInstr(w, Store(o, Addr(p)), st2).value);
    PutNormal(g.v, y.v, y.m);
  }

  lemma PutNormal(p: Option<Val>, v: Option<Val>, m: A.Mem)
    ensures var o := A.Put(p, v, m); o.Normal? ==> o == A.Normal(o.m)
  {
  }

  lemma AssignRuns(w: Oracle, f: Function, x: A.Var, idx: seq<A.Exp>, e: A.Exp, s: Build, st: State, loops: seq<Loop>,
                   fuel: nat)
    requires Ready(s) && A.ProperExps(idx) && A.ProperExp(e) && Stands(LowerAssign(x, idx, e, s), f)
    ensures Stands(s, f) && s.cur in s.blocks && Agrees(s, f)
    ensures Arrives(w, f, At(w, f, s, st), LowerAssign(x, idx, e, s), loops, fuel,
              A.EvalAssign(w, x, idx, e, MemOf(st)))
  {
    hide Ready, ExpBuilt, Stands, Emit, LowerExp, LowerPointer, A.EvalExp, A.EvalPointer, At, Arrives, Agrees, MemOf,
        SetReg, A.Put;
    AssignGrows(x, idx, e, s);
    var o := A.EvalAssign(w, x, idx, e, MemOf(st));
    PutOutcome(w, x, idx, e, MemOf(st));
    if o.Wrong? {
      WrongRuns(w, f, s, LowerAssign(x, idx, e, s), st, loops, fuel);
    } else if x.Scalar? {
      ScalarAssignRuns(w, f, x.slot, e, s, st, loops, fuel);
    } else {
      ElementAssignRuns(w, f, x, idx, e, s, st, loops, fuel);
    }
  }

  // ----- Global variables -----

  function GlobalValue(base: int): A.Exp {
    A.RVal(A.Global(base), [])
  }

  lemma GlobalIs(w: Oracle, base: int, m: A.Mem)
    ensures A.ProperExp(GlobalValue(base)) && A.EvalExp(w, GlobalValue(base), m) == Some(A.Got(HeapAt(m.heap, base), m))
    ensures A.EvalPointer(w, A.Global(base), [], m) == Some(A.Got(Some(IntVal(base)), m))
  {
    assert A.EvalPointer(w, A.Global(base), [], m) == Some(A.Got(Some(IntVal(base)), m));
  }

  /** From where a run has come to, reading a global variable gives what memory holds there. */
  lemma ReadNext(w: Oracle, f: Function, base: int, s: Build, t: Build, st: State, st1: State) returns (st': State)
    requires Ready(s) && ExpBuilt(s, t) && s.cur in s.blocks && Agrees(s, f) && Stands(t, f)
    requires Stands(LowerExp(GlobalValue(base), t).0, f) && Reaches(w, f, At(w, f, s, st), At(w, f, t, st1))
    ensures Stands(s, f)
    ensures var (u, o) := LowerExp(GlobalValue(base), t);
            && Reaches(w, f, At(w, f, s, st), At(w, f, u, st'))
            && Read(o, st'.env) == HeapAt(st1.heap, base) && MemOf(st') == MemOf(st1)
  {
    var (u, o) := LowerExp(GlobalValue(base), t);
    GlobalIs(w, base, MemOf(st1));
    hide Ready, ExpBuilt, ExpRan, LowerExp, A.EvalExp, At, Agrees, Reaches;
    BuiltReady(s, t);
    st' := ExpRuns(w, f, GlobalValue(base), t, st1);
    RanParts(w, f, t, u, o, st1, st', A.Got(HeapAt(st1.heap, base), MemOf(st1)));
    ReachesTrans(w, f, At(w, f, s, st), At(w, f, t, st1), At(w, f, u, st'));
  }

  /** What is assigned to a global variable is what reading it gives, and the assignment changes memory nowhere else. */
  lemma GlobalWritten(w: Oracle, f: Function, base: int, e: A.Exp, s: Build, st: State) returns (st': State)
    requires Ready(s) && A.ProperExp(e)
    requires Stands(LowerExp(GlobalValue(base), LowerAssign(A.Global(base), [], e, s)).0, f)
    requires A.EvalExp(w, e, MemOf(st)).Some? && A.EvalExp(w, e, MemOf(st)).value.v.Some?
    ensures Stands(s, f)
    ensures var (u, o) := LowerExp(GlobalValue(base), LowerAssign(A.Global(base), [], e, s));
            var g := A.EvalExp(w, e, MemOf(st)).value;
            && Reaches(w, f, At(w, f, s, st), At(w, f, u, st'))
            && Read(o, st'.env) == g.v && st'.slots == g.m.slots
            && st'.heap == g.m.heap[base := g.v.value] && st'.trace == g.m.trace + [StoreEvent(base, g.v.value)]
  {
    var t := LowerAssign(A.Global(base), [], e, s);
    var g := A.EvalExp(w, e, MemOf(st)).value;
    GlobalIs(w, base, MemOf(st));
    hide Ready, ExpBuilt, ExpRan, Stands, LowerExp, LowerAssign, A.EvalExp, A.EvalPointer, At, Agrees, Reaches;
    AssignGrows(A.Global(base), [], e, s);
    BuiltReady(s, t);
    ExpGrows(GlobalValue(base), t);
    StandsBuilt(t, LowerExp(GlobalValue(base), t).0, f);
    AssignRuns(w, f, A.Global(base), [], e, s, st, [], 0);
    var st1 :| MemOf(st1) == A.Put(Some(IntVal(base)), g.v, g.m).m && Reaches(w, f, At(w, f, s, st), At(w, f, t, st1));
    st' := ReadNext(w, f, base, s, t, st, st1);
  }

  /** After a call, reading a global variable gives what the callee has left there. */
  lemma GlobalRead(w: Oracle, f: Function, base: int, callee: nat, args: seq<A.Exp>, s: Build,
                   st: State) returns (st': State)
    requires Ready(s) && A.ProperExps(args)
    requires Stands(LowerExp(GlobalValue(base), LowerExp(A.Invoke(callee, args), s).0).0, f)
    requires A.EvalExps(w, args, MemOf(st)).Some? && A.AllDefined(A.EvalExps(w, args, MemOf(st)).value.vs).Some?
    ensures Stands(s, f)
    ensures var (u, o) := LowerExp(GlobalValue(base), LowerExp(A.Invoke(callee, args), s).0);
            var g := A.EvalExps(w, args, MemOf(st)).value;
            && Reaches(w, f, At(w, f, s, st), At(w, f, u, st'))
            && Read(o, st'.env) == HeapAt(w(callee, A.AllDefined(g.vs).value, g.m.heap).1, base)
  {
    var (t, x) := LowerExp(A.Invoke(callee, args), s);
    var y := A.EvalExp(w, A.Invoke(callee, args), MemOf(st)).value;
    GlobalIs(w, base, MemOf(st));
    hide Ready, ExpBuilt, ExpRan, Stands, LowerExp, A.EvalExp, A.EvalExps, A.AllDefined, At, Agrees, Reaches;
    ExpGrows(A.Invoke(callee, args), s);
    BuiltReady(s, t);
    ExpGrows(GlobalValue(base), t);
    StandsBuilt(t, LowerExp(GlobalValue(base), t).0, f);
    var st1 := ExpRuns(w, f, A.Invoke(callee, args), s, st);
    RanParts(w, f, s, t, x, st, st1, y);
    st' := ReadNext(w, f, base, s, t, st, st1);
  }

  lemma PutOutcome(w: Oracle, x: A.Var, idx: seq<A.Exp>, e: A.Exp, m: A.Mem)
    ensures var o := A.EvalAssign(w, x, idx, e, m); o.Normal? || o.Wrong?
    ensures !x.Scalar? && A.EvalPointer(w, x, idx, m).Some? ==>
              var p := A.EvalPointer(w, x, idx, m).value;
              var y := A.EvalExp(w, e, p.m);
              y.Some? ==> A.Put(p.v, y.value.v, y.value.m).Normal? || A.Put(p.v, y.value.v, y.value.m).Wrong?
  {
  }

  lemma ExpStmtRuns(w: Oracle, f: Function, e: A.Exp, s: Build, st: State, loops: seq<Loop>, fuel: nat)
    requires Ready(s) && A.ProperExp(e) && Stands(LowerExp(e, s).0, f)
    ensures Stands(s, f) && s.cur in s.blocks && Agrees(s, f)
    ensures Arrives(w, f, At(w, f, s, st), LowerExp(e, s).0, loops, fuel, A.EvalStmt(w, A.ExpStmt(e), MemOf(st), fuel))
  {
    hide Ready, ExpBuilt, ExpRan, Stands, LowerExp, A.EvalExp, At, Arrives, Agrees, MemOf, Reaches, Kept, Valid, Open,
        Grown, Read;
    var (t, o) := LowerExp(e, s);
    ExpGrows(e, s);
    if A.EvalExp(w, e, MemOf(st)).Some? {
      var st1 := ExpRuns(w, f, e, s, st);
      var g := A.EvalExp(w, e, MemOf(st)).value;
      RanParts(w, f, s, t, o, st, st1, g);
      BuiltReady(s, t);
      ReadyIs(t);
      ArrivesNow(w, f, t, st1, loops, fuel);
      ArrivesFrom(w, f, At(w, f, s, st), At(w, f, t, st1), t, loops, fuel, A.Normal(MemOf(st1)));
    } else {
      WrongRuns(w, f, s, t, st, loops, fuel);
    }
  }

  lemma ReturnsNow(w: Oracle, f: Function, t: Build, o: Option<Operand>, st: State, r: Option<Val>)
    requires Ready(t) && Stands(Exit(t, o), f)
    requires r == (if o.Some? then Read(o.value, st.env) else None) && (o.Some? ==> r.Some?)
    ensures Stands(t, f) && t.cur in t.blocks && Agrees(t, f) && Returns(w, f, At(w, f, t, st), r, MemOf(st))
  {
    ExitGrown(t, o);
    hide Valid, Grown, Agrees;
    StandsBack(t, Exit(t, o), {}, f);
    LeaveRuns(w, f, t, Exit(t, o), st);
    hide At;
    ReachesSelf(w, f, Done(r, st));
  }

  lemma ReturnRuns(w: Oracle, f: Function, e: A.Exp, s: Build, st: State, loops: seq<Loop>, fuel: nat)
    requires Ready(s) && A.ProperExp(e) && Stands(Exit(LowerExp(e, s).0, Some(LowerExp(e, s).1)), f)
    ensures Stands(s, f) && s.cur in s.blocks && Agrees(s, f)
    ensures Arrives(w, f, At(w, f, s, st), Exit(LowerExp(e, s).0, Some(LowerExp(e, s).1)), loops, fuel,
                    A.EvalStmt(w, A.Return(Some(e)), MemOf(st), fuel))
  {
    hide Ready, ExpBuilt, ExpRan, Stands, LowerExp, A.EvalExp, At, Returns, Agrees, MemOf, Reaches, Exit, Read, Valid,
        Open;
    var (t, o) := LowerExp(e, s);
    ExpGrows(e, s);
    BuiltReady(s, t);
    ExitBack(t, Some(o), f);
    StandsBuilt(s, t, f);
    StandsParts(s, f);
    var x := A.EvalExp(w, e, MemOf(st));
    if x.Some? {
      var st1 := ExpRuns(w, f, e, s, st);
      RanParts(w, f, s, t, o, st, st1, x.value);
      if x.value.v.Some? {
        ReturnsNow(w, f, t, Some(o), st1, x.value.v);
        ReturnsFrom(w, f, At(w, f, s, st), At(w, f, t, st1), x.value.v, x.value.m);
      }
    }
  }

  lemma StandsParts(s: Build, f: Function)
    requires Stands(s, f)
    ensures s.cur in s.blocks && Agrees(s, f)
  {
  }

  lemma ExitBack(t: Build, o: Option<Operand>, f: Function)
    requires Ready(t) && Stands(Exit(t, o), f)
    ensures Stands(t, f)
  {
    hide Valid, Grown, Agrees;
    ExitGrown(t, o);
    StandsBack(t, Exit(t, o), {}, f);
  }

  lemma BranchJumps(w: Oracle, f: Function, s: Build, b: BlockId, st: State)
    requires Ready(s) && b in s.blocks && Stands(Branch(s, b), f)
    ensures Stands(s, f) && s.cur in s.blocks && Agrees(s, f) && At(w, f, s, st) == Edge(s.cur, b, st)
    ensures Jumps(w, f, At(w, f, s, st), b, MemOf(st))
  {
    BranchGrown(s, b);
    hide Valid, Grown, Agrees;
    StandsBack(s, Branch(s, b), {}, f);
    LeaveRuns(w, f, s, Branch(s, b), st);
    hide At;
    ReachesSelf(w, f, Edge(s.cur, b, st));
  }

  lemma CondStmtRuns(w: Oracle, f: Function, c: A.Cond, s: Build, st: State, loops: seq<Loop>, fuel: nat)
    requires Ready(s) && A.ProperCond(c)
    requires Stands(MoveTo(LowerCond(c, Create(s), s.nextBlock, s.nextBlock), s.nextBlock), f)
    ensures Stands(s, f) && s.cur in s.blocks && Agrees(s, f)
    ensures Arrives(w, f, At(w, f, s, st), MoveTo(LowerCond(c, Create(s), s.nextBlock, s.nextBlock), s.nextBlock),
              loops, fuel,
                    A.EvalStmt(w, A.CondStmt(c), MemOf(st), fuel))
  {
    hide Ready, CondBuilt, CondRan, Stands, LowerCond, A.EvalCond, At, Arrives, Agrees, MemOf, Create, Reaches, MoveTo,
        Kept, Grown;
    var bb := s.nextBlock;
    var t := LowerCond(c, Create(s), bb, bb);
    var u := MoveTo(t, bb);
    CreatedReady(s);
    CondGrows(c, Create(s), bb, bb);
    CondEnds(Create(s), t);
    LogicMoves(s, t, bb);
    StandsMove(t, bb, f);
    CondBack(Create(s), t, f);
    CreateAt(w, f, s, st);
    StandsParts(s, f);
    MovedTo(t, bb);
    ReadyIs(u);
    if A.EvalCond(w, c, MemOf(st)).Some? {
      var from, st1 := CondRuns(w, f, c, Create(s), bb, bb, st);
      var ch := A.EvalCond(w, c, MemOf(st)).value;
      CondRanParts(w, f, Create(s), t, st, from, bb, st1, ch.m);
      var st2 := EnterRest(w, f, u, from, st1, 0);
      ArrivesNow(w, f, u, st2, loops, fuel);
      ReachesTrans(w, f, At(w, f, s, st), Edge(from, bb, st1), At(w, f, u, st2));
      ArrivesFrom(w, f, At(w, f, s, st), At(w, f, u, st2), u, loops, fuel, A.Normal(MemOf(st2)));
    } else {
      ArrivesWrong(w, f, At(w, f, s, st), u, loops, fuel);
    }
  }

  lemma ArrivesWrong(w: Oracle, f: Function, c: Config, t: Build, loops: seq<Loop>, fuel: nat)
    ensures Arrives(w, f, c, t, loops, fuel, A.Wrong)
  {
  }

  lemma MovedTo(t: Build, b: BlockId)
    ensures MoveTo(t, b).cur == b && MoveTo(t, b).blocks == t.blocks && MoveTo(t, b).nextReg == t.nextReg
  {
  }
}
