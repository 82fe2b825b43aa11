/** Control flow: `if`, `while`, sequences, and the whole function. */
module LoweringControl {
  import opened IR
  import A = Ast
  import opened Builder
  import opened Lowering
  import opened LoweringRuns
  import opened LoweringStmts

  // ----- Arms -----

  ghost predicate JumpsIn(w: Oracle, f: Function, c: Config, u: Build, b: BlockId, m: A.Mem) {
    exists from, st :: MemOf(st) == m && EdgeIn(u, from, b) && Reaches(w, f, c, Edge(from, b, st))
  }

  /** Like `Arrives`, for statements after which control joins block `b`. */
  ghost predicate Joins(w: Oracle, f: Function, c: Config, u: Build, b: BlockId, loops: seq<Loop>, fuel: nat,
                        o: A.Outcome) {
    if o.Normal? then JumpsIn(w, f, c, u, b, o.m) else Arrives(w, f, c, u, loops, fuel, o)
  }

  lemma JoinRuns(w: Oracle, f: Function, c: Config, t: Build, b: BlockId, loops: seq<Loop>, fuel: nat, o: A.Outcome)
    requires Valid(t) && b in t.blocks && Stands(Join(t, b), f) && Arrives(w, f, c, t, loops, fuel, o)
    ensures Joins(w, f, c, Join(t, b), b, loops, fuel, o)
  {
    if o.Normal? {
      var st :| MemOf(st) == o.m && Reaches(w, f, c, At(w, f, t, st));
      assert Ready(t);
      hide Arrives, MemOf, Reaches, Valid, Grown, Agrees;
      BranchGrown(t, b);
      BranchJumps(w, f, t, b, st);
    } else {
      Elsewhere(w, f, c, t, Join(t, b), loops, fuel, o);
    }
  }

  lemma ReadyStands(t: Build, f: Function)
    requires Ready(t) && Stands(t, f)
    ensures t.cur in t.blocks && Agrees(t, f) && Open(t)
  {
  }

  /** The statements of an arm, entered by an edge. */
  lemma {:induction false} ArmRuns(w: Oracle, f: Function, ss: seq<A.Stmt>, t: Build, loops: seq<Loop>, b: BlockId,
                                   from: BlockId, st: State, fuel: nat)
    requires Ready(t) && A.ProperStmts(ss, loops != []) && LoopsOk(t, loops) && b in t.blocks
    requires t.cur in t.blocks && t.blocks[t.cur] == EMPTY && Stands(Join(LowerStmts(ss, t, loops), b), f)
    ensures Stands(t, f)
    ensures Joins(w, f, Step(w, f, Edge(from, t.cur, st)), Join(LowerStmts(ss, t, loops), b), b, loops, fuel,
                  A.EvalStmts(w, ss, MemOf(st), fuel))
    decreases fuel, ss, 1
  {
    hide *;
    var u := LowerStmts(ss, t, loops);
    var o := A.EvalStmts(w, ss, MemOf(st), fuel);
    StmtsGrow(ss, t, loops);
    StmtIs(t, u);
    GrownCur(t, u, {});
    JoinGrows(t, u, {}, b);
    StandsBack(u, Join(u, b), {}, f);
    StandsBack(t, u, {}, f);
    var st1 := EnterAt(w, f, t, from, st);
    StmtsRun(w, f, ss, t, loops, st1, fuel);
    JoinRuns(w, f, At(w, f, t, st1), u, b, loops, fuel, o);
  }

  lemma EnterAt(w: Oracle, f: Function, t: Build, from: BlockId, st: State) returns (st': State)
    requires Stands(t, f) && t.cur in t.blocks && t.blocks[t.cur] == EMPTY
    ensures t.cur in t.blocks && Agrees(t, f) && Step(w, f, Edge(from, t.cur, st)) == At(w, f, t, st')
            && MemOf(st') == MemOf(st)
  {
    st' := EnterNew(w, f, t, from, st);
  }

  lemma JoinsFrom(w: Oracle, f: Function, c: Config, d: Config, u: Build, b: BlockId, loops: seq<Loop>, fuel: nat,
                  o: A.Outcome)
    requires Reaches(w, f, c, d) && Joins(w, f, d, u, b, loops, fuel, o)
    ensures Joins(w, f, c, u, b, loops, fuel, o)
  {
    hide Arrives, Reaches, MemOf;
    if o.Normal? {
      var from, st :| MemOf(st) == o.m && EdgeIn(u, from, b) && Reaches(w, f, d, Edge(from, b, st));
      hide EdgeIn;
      ReachesTrans(w, f, c, d, Edge(from, b, st));
    } else {
      ArrivesFrom(w, f, c, d, u, loops, fuel, o);
    }
  }

  /** The block both ways join is started: the statement is done. */
  lemma Joined(w: Oracle, f: Function, c: Config, u: Build, b: BlockId, t: Build, loops: seq<Loop>, fuel: nat,
               o: A.Outcome)
    requires Joins(w, f, c, u, b, loops, fuel, o) && Ready(t) && Stands(t, f) && t.cur == b && t.cur in t.blocks
             && t.blocks[b] == EMPTY
    ensures Arrives(w, f, c, t, loops, fuel, o)
  {
    hide Reaches, MemOf, Agrees, Valid;
    if o.Normal? {
      var from, st :| MemOf(st) == o.m && EdgeIn(u, from, b) && Reaches(w, f, c, Edge(from, b, st));
      EdgeArrives(w, f, c, from, st, t);
    } else {
      Elsewhere(w, f, c, u, t, loops, fuel, o);
    }
  }

  lemma EdgeArrives(w: Oracle, f: Function, c: Config, from: BlockId, st: State, t: Build)
    requires t.cur in t.blocks && Ready(t) && Stands(t, f) && t.blocks[t.cur] == EMPTY
             && Reaches(w, f, c, Edge(from, t.cur, st))
    ensures ArrivesAt(w, f, c, t, MemOf(st))
  {
    hide Reaches, MemOf, At, Agrees, Valid;
    var st1 := EnterRest(w, f, t, from, st, 0);
    ReachesTrans(w, f, c, Edge(from, t.cur, st), At(w, f, t, st1));
  }

  // ----- if -----

  /** The insertion point is block `b`, in which nothing has been put yet. */
  ghost predicate Started(t: Build, b: BlockId) {
    t.cur == b && b in t.blocks && t.blocks[b] == EMPTY && Ready(t)
  }

  lemma StartedIs(t: Build, b: BlockId)
    ensures Started(t, b) <==> t.cur == b && b in t.blocks && t.blocks[b] == EMPTY && Ready(t)
  {
  }

  /** What is built of an `if` with one arm. */
  lemma IfThenBuilt(c: A.Cond, yes: seq<A.Stmt>, s: Build, loops: seq<Loop>, f: Function)
    requires Ready(s) && A.ProperCond(c) && A.ProperStmts(yes, loops != []) && LoopsOk(s, loops)
    requires Stands(LowerStmt(A.If(c, yes, []), s, loops), f)
    ensures var bbt, bbf := s.nextBlock, s.nextBlock + 1;
            var t := LowerCond(c, Create(Create(s)), bbt, bbf);
            var t1 := MoveTo(t, bbt);
            var u := Join(LowerStmts(yes, t1, loops), bbf);
            && Started(t1, bbt) && LoopsOk(t1, loops) && bbf in t1.blocks
            && Stands(u, f) && Stands(t1, f) && Stands(t, f) && Started(MoveTo(u, bbf), bbf)
            && LowerStmt(A.If(c, yes, []), s, loops) == MoveTo(u, bbf)
  {
    hide Valid, Grown, Ready, Create, MoveTo, Join, Open, LoopsOk, LowerCond, LowerStmts, Stands, Agrees;
    var bbt, bbf := s.nextBlock, s.nextBlock + 1;
    TwoCreated(s);
    var s2 := Create(Create(s));
    CondWaits(c, s, s2, {bbt, bbf}, bbt, bbf);
    var t := LowerCond(c, s2, bbt, bbf);
    GrownCur(s, t, {bbt, bbf});
    MoveOn(s, t, {bbt, bbf}, bbt, {bbf});
    var t1 := MoveTo(t, bbt);
    MovedTo(t, bbt);
    GrownCur(s, t1, {bbf});
    LoopsStay(s, t1, {bbf}, loops);
    BranchOff(s, t1, yes, loops, {bbf});
    var u0 := LowerStmts(yes, t1, loops);
    GrownCur(s, u0, {bbf});
    JoinGrows(s, u0, {bbf}, bbf);
    var u := Join(u0, bbf);
    GrownCur(s, u, {bbf});
    MoveOn(s, u, {bbf}, bbf, {});
    MovedTo(u, bbf);
    StandsMove(u, bbf, f);
    StandsBack(u0, u, {}, f);
    StandsBack(t1, u0, {}, f);
    StandsMove(t, bbt, f);
    StartedIs(t1, bbt);
    StartedIs(MoveTo(u, bbf), bbf);
  }

  lemma CreatedTwiceAt(w: Oracle, f: Function, s: Build, t: Build, st: State)
    requires Ready(s) && CondBuilt(Create(Create(s)), t) && Stands(t, f)
    ensures Stands(s, f) && s.cur in s.blocks && Agrees(s, f)
    ensures forall from, to, st', m ::
              CondRan(w, f, Create(Create(s)), t, st, from, to, st', m) ==>
                  Reaches(w, f, At(w, f, s, st), Edge(from, to, st'))
  {
    CreatedReady(s);
    CondBack(Create(Create(s)), t, f);
    CreateAt(w, f, Create(s), st);
    CreateAt(w, f, s, st);
  }

  lemma {:induction false} IfThenRuns(w: Oracle, f: Function, c: A.Cond, yes: seq<A.Stmt>, s: Build, loops: seq<Loop>,
                                      st: State, fuel: nat)
    requires Ready(s) && A.ProperCond(c) && A.ProperStmts(yes, loops != []) && LoopsOk(s, loops)
    requires Stands(LowerStmt(A.If(c, yes, []), s, loops), f)
    ensures Stands(s, f) && s.cur in s.blocks && Agrees(s, f)
    ensures Arrives(w, f, At(w, f, s, st), LowerStmt(A.If(c, yes, []), s, loops), loops, fuel,
                    A.EvalStmt(w, A.If(c, yes, []), MemOf(st), fuel))
    decreases fuel, yes, 2
  {
    hide *;
    var bbt, bbf := s.nextBlock, s.nextBlock + 1;
    var s2 := Create(Create(s));
    var t := LowerCond(c, s2, bbt, bbf);
    var t1 := MoveTo(t, bbt);
    var u := Join(LowerStmts(yes, t1, loops), bbf);
    var v := MoveTo(u, bbf);
    IfThenBuilt(c, yes, s, loops, f);
    StartedIs(t1, bbt);
    StartedIs(v, bbf);
    TwoCreated(s);
    CondGrows(c, s2, bbt, bbf);
    CreatedTwiceAt(w, f, s, t, st);
    var o := A.EvalStmt(w, A.If(c, yes, []), MemOf(st), fuel);
    IfOutcome(w, c, yes, [], MemOf(st), fuel);
    if A.EvalCond(w, c, MemOf(st)).Some? {
      var from, st1 := CondRuns(w, f, c, s2, bbt, bbf, st);
      var ch := A.EvalCond(w, c, MemOf(st)).value;
      LeadsIs(w, f, s2, t, bbt, bbf, st, from, st1, ch);
      CondRanParts(w, f, s2, t, st, from, if ch.b then bbt else bbf, st1, ch.m);
      if ch.b {
        ArmRuns(w, f, yes, t1, loops, bbf, from, st1, fuel);
        ReachesStep(w, f, Edge(from, bbt, st1));
        ReachesTrans(w, f, At(w, f, s, st), Edge(from, bbt, st1), Step(w, f, Edge(from, bbt, st1)));
        JoinsFrom(w, f, At(w, f, s, st), Step(w, f, Edge(from, bbt, st1)), u, bbf, loops, fuel, o);
        Joined(w, f, At(w, f, s, st), u, bbf, v, loops, fuel, o);
      } else {
        EdgeArrives(w, f, At(w, f, s, st), from, st1, v);
        ArrivesNormal(w, f, At(w, f, s, st), v, loops, fuel, ch.m);
      }
    } else {
      ArrivesWrong(w, f, At(w, f, s, st), v, loops, fuel);
    }
  }

  lemma IfOutcome(w: Oracle, c: A.Cond, yes: seq<A.Stmt>, no: seq<A.Stmt>, m: A.Mem, fuel: nat)
    ensures var b := A.EvalCond(w, c, m);
            A.EvalStmt(w, A.If(c, yes, no), m, fuel) ==
            if b.None? then A.Wrong else A.EvalStmts(w, if b.value.b then yes else no, b.value.m, fuel)
    ensures forall m1 :: A.EvalStmts(w, [], m1, fuel) == A.Normal(m1)
  {
  }

  lemma ArrivesNormal(w: Oracle, f: Function, c: Config, t: Build, loops: seq<Loop>, fuel: nat, m: A.Mem)
    requires ArrivesAt(w, f, c, t, m)
    ensures Arrives(w, f, c, t, loops, fuel, A.Normal(m))
  {
  }

  /** What is built of an `if` with two arms. */
  lemma IfElseBuilt(c: A.Cond, yes: seq<A.Stmt>, no: seq<A.Stmt>, s: Build, loops: seq<Loop>, f: Function)
    requires Ready(s) && A.ProperCond(c) && A.ProperStmts(yes, loops != []) && A.ProperStmts(no, loops != [])
             && LoopsOk(s, loops)
    requires no != [] && Stands(LowerStmt(A.If(c, yes, no), s, loops), f)
    ensures var bbf, bb := s.nextBlock + 1, s.nextBlock + 2;
            var u := FirstArm(c, yes, s, loops);
            var u1 := MoveTo(u, bbf);
            var v := Join(LowerStmts(no, u1, loops), bb);
            && Started(u1, bbf) && LoopsOk(u1, loops) && bb in u1.blocks
            && Grown(u1, v, {}) && Grown(s, v, {bb}) && Valid(v) && u1.blocks == u.blocks
            && Stands(v, f) && Stands(u1, f) && Stands(u, f) && !Open(v)
            && LowerStmt(A.If(c, yes, no), s, loops) == Meet(v, bb)
  {
    hide Valid, Grown, Ready, Create, MoveTo, Join, Open, LoopsOk, LowerCond, LowerStmts, Stands, Agrees, Meet;
    var bbf, bb := s.nextBlock + 1, s.nextBlock + 2;
    FirstArmGrows(c, yes, s, loops);
    var u := FirstArm(c, yes, s, loops);
    GrownCur(s, u, {bbf, bb});
    MoveOn(s, u, {bbf, bb}, bbf, {bb});
    var u1 := MoveTo(u, bbf);
    MovedTo(u, bbf);
    GrownCur(s, u1, {bb});
    LoopsStay(s, u1, {bb}, loops);
    BranchOff(s, u1, no, loops, {bb});
    var v0 := LowerStmts(no, u1, loops);
    GrownCur(s, v0, {bb});
    JoinGrows(s, v0, {bb}, bb);
    var v := Join(v0, bb);
    GrownCur(s, v, {bb});
    GrownSeq(u1, v0, v);
    MeetBack(s, v, bb, f);
    StandsBack(u1, v, {}, f);
    StandsMove(u, bbf, f);
    StartedIs(u1, bbf);
  }

  lemma MeetBack(s: Build, v: Build, bb: BlockId, f: Function)
    requires Valid(v) && Grown(s, v, {bb}) && !Open(v) && Stands(Meet(v, bb), f)
    ensures Stands(v, f)
  {
    if Preds(v, bb) == [] {
      forall b | b in v.blocks && b != bb ensures Remove(v, bb).blocks[b] == v.blocks[b] {}
    } else {
      StandsMove(v, bb, f);
    }
  }

  /** Where the two arms meet, if they do. */
  lemma MeetJoined(w: Oracle, f: Function, c: Config, s: Build, u: Build, v: Build, bb: BlockId, loops: seq<Loop>,
                   fuel: nat, o: A.Outcome)
    requires Valid(v) && Grown(s, v, {bb}) && !Open(v) && Stands(Meet(v, bb), f)
    requires Joins(w, f, c, u, bb, loops, fuel, o) && forall from :: EdgeIn(u, from, bb) ==> EdgeIn(v, from, bb)
    ensures Arrives(w, f, c, Meet(v, bb), loops, fuel, o)
  {
    hide Agrees, Reaches, MemOf, Arrives, Stands;
    if o.Normal? {
      var from, st :| MemOf(st) == o.m && EdgeIn(u, from, bb) && Reaches(w, f, c, Edge(from, bb, st));
      assert from in Preds(v, bb);
      MoveOn(s, v, {bb}, bb, {});
      GrownCur(s, v, {bb});
      MovedTo(v, bb);
      hide Valid, Grown, EdgeIn, Open;
      Joined(w, f, c, u, bb, MoveTo(v, bb), loops, fuel, o);
    } else {
      Elsewhere(w, f, c, u, Meet(v, bb), loops, fuel, o);
    }
  }

  lemma EdgesStay(u: Build, u1: Build, v: Build, bb: BlockId)
    requires u1.blocks == u.blocks && Grown(u1, v, {})
    ensures forall from :: EdgeIn(u, from, bb) ==> EdgeIn(v, from, bb)
  {
    forall from | EdgeIn(u, from, bb) ensures EdgeIn(v, from, bb) {
      assert EdgeIn(u1, from, bb);
      EdgeStays(u1, v, {}, from, bb);
    }
  }

  /** The first arm of an `if` with two. */
  lemma FirstArmBuilt(c: A.Cond, yes: seq<A.Stmt>, s: Build, loops: seq<Loop>, f: Function)
    requires Ready(s) && A.ProperCond(c) && A.ProperStmts(yes, loops != []) && LoopsOk(s, loops)
    requires Stands(FirstArm(c, yes, s, loops), f)
    ensures var bbt, bbf, bb := s.nextBlock, s.nextBlock + 1, s.nextBlock + 2;
            var s3 := Create(Create(Create(s)));
            var t := LowerCond(c, s3, bbt, bbf);
            var t1 := MoveTo(t, bbt);
            && Ready(s3) && bbt in s3.blocks && bbf in s3.blocks && CondBuilt(s3, t)
            && Started(t1, bbt) && LoopsOk(t1, loops) && bb in t1.blocks
            && Stands(t1, f) && Stands(t, f)
            && FirstArm(c, yes, s, loops) == Join(LowerStmts(yes, t1, loops), bb)
  {
    hide Valid, Grown, Ready, Create, MoveTo, Join, Open, LoopsOk, LowerCond, LowerStmts, Stands, Agrees, CondBuilt;
    var bbt, bbf, bb := s.nextBlock, s.nextBlock + 1, s.nextBlock + 2;
    ThreeCreated(s);
    var s3 := Create(Create(Create(s)));
    CondGrows(c, s3, bbt, bbf);
    CondWaits(c, s, s3, {bbt, bbf, bb}, bbt, bbf);
    var t := LowerCond(c, s3, bbt, bbf);
    GrownCur(s, t, {bbt, bbf, bb});
    MoveOn(s, t, {bbt, bbf, bb}, bbt, {bbf, bb});
    var t1 := MoveTo(t, bbt);
    MovedTo(t, bbt);
    GrownCur(s, t1, {bbf, bb});
    LoopsStay(s, t1, {bbf, bb}, loops);
    BranchOff(s, t1, yes, loops, {bbf, bb});
    var u0 := LowerStmts(yes, t1, loops);
    GrownCur(s, u0, {bbf, bb});
    JoinGrows(s, u0, {bbf, bb}, bb);
    StandsBack(u0, Join(u0, bb), {}, f);
    StandsBack(t1, u0, {}, f);
    StandsMove(t, bbt, f);
    StartedIs(t1, bbt);
  }

  lemma CreatedThriceAt(w: Oracle, f: Function, s: Build, t: Build, st: State)
    requires Ready(s) && CondBuilt(Create(Create(Create(s))), t) && Stands(t, f)
    ensures Stands(s, f) && s.cur in s.blocks && Agrees(s, f)
    ensures forall from, to, st', m ::
              CondRan(w, f, Create(Create(Create(s))), t, st, from, to, st', m) ==>
                  Reaches(w, f, At(w, f, s, st), Edge(from, to, st'))
  {
    CreatedReady(s);
    CreatedReady(Create(s));
    CondBack(Create(Create(Create(s))), t, f);
    hide Valid, Agrees, Grown, CondBuilt;
    CreateAt(w, f, Create(Create(s)), st);
    CreateAt(w, f, Create(s), st);
    CreateAt(w, f, s, st);
  }

  lemma {:induction false} IfElseRuns(w: Oracle, f: Function, c: A.Cond, yes: seq<A.Stmt>, no: seq<A.Stmt>, s: Build,
                                      loops: seq<Loop>,
                                      st: State, fuel: nat)
    requires Ready(s) && A.ProperCond(c) && A.ProperStmts(yes, loops != []) && A.ProperStmts(no, loops != [])
             && LoopsOk(s, loops)
    requires no != [] && Stands(LowerStmt(A.If(c, yes, no), s, loops), f)
    ensures Stands(s, f) && s.cur in s.blocks && Agrees(s, f)
    ensures Arrives(w, f, At(w, f, s, st), LowerStmt(A.If(c, yes, no), s, loops), loops, fuel,
                    A.EvalStmt(w, A.If(c, yes, no), MemOf(st), fuel))
    decreases fuel, A.If(c, yes, no), 0
  {
    hide *;
    var bbt, bbf, bb := s.nextBlock, s.nextBlock + 1, s.nextBlock + 2;
    var s3 := Create(Create(Create(s)));
    var t := LowerCond(c, s3, bbt, bbf);
    var t1 := MoveTo(t, bbt);
    var u := FirstArm(c, yes, s, loops);
    var u1 := MoveTo(u, bbf);
    var v := Join(LowerStmts(no, u1, loops), bb);
    IfElseBuilt(c, yes, no, s, loops, f);
    FirstArmBuilt(c, yes, s, loops, f);
    StartedIs(t1, bbt);
    StartedIs(u1, bbf);
    CreatedThriceAt(w, f, s, t, st);
    IfOutcome(w, c, yes, no, MemOf(st), fuel);
    var o := A.EvalStmt(w, A.If(c, yes, no), MemOf(st), fuel);
    if A.EvalCond(w, c, MemOf(st)).Some? {
      var from, st1 := CondRuns(w, f, c, s3, bbt, bbf, st);
      var ch := A.EvalCond(w, c, MemOf(st)).value;
      LeadsIs(w, f, s3, t, bbt, bbf, st, from, st1, ch);
      CondRanParts(w, f, s3, t, st, from, if ch.b then bbt else bbf, st1, ch.m);
      var e := Edge(from, if ch.b then bbt else bbf, st1);
      ReachesStep(w, f, e);
      ReachesTrans(w, f, At(w, f, s, st), e, Step(w, f, e));
      if ch.b {
        ArmRuns(w, f, yes, t1, loops, bb, from, st1, fuel);
        JoinsFrom(w, f, At(w, f, s, st), Step(w, f, e), u, bb, loops, fuel, o);
        EdgesStay(u, u1, v, bb);
        MeetJoined(w, f, At(w, f, s, st), s, u, v, bb, loops, fuel, o);
      } else {
        ArmRuns(w, f, no, u1, loops, bb, from, st1, fuel);
        JoinsFrom(w, f, At(w, f, s, st), Step(w, f, e), v, bb, loops, fuel, o);
        MeetJoined(w, f, At(w, f, s, st), s, v, v, bb, loops, fuel, o);
      }
    } else {
      ArrivesWrong(w, f, At(w, f, s, st), Meet(v, bb), loops, fuel);
    }
  }

  // ----- while -----

  /** One round of a loop, after its condition held. */
  ghost function AfterRound(w: Oracle, c: A.Cond, body: seq<A.Stmt>, o: A.Outcome, fuel: nat): A.Outcome {
    match o
    case Normal(m) => A.EvalWhile(w, c, body, m, fuel)
    case Continued(m) => A.EvalWhile(w, c, body, m, fuel)
    case Broke(m) => A.Normal(m)
    case _ => o
  }

  lemma WhileOutcome(w: Oracle, c: A.Cond, body: seq<A.Stmt>, m: A.Mem, fuel: nat)
    ensures fuel == 0 ==> A.EvalWhile(w, c, body, m, fuel) == A.Timeout
    ensures fuel > 0 ==>
              var b := A.EvalCond(w, c, m);
              && (b.None? ==> A.EvalWhile(w, c, body, m, fuel) == A.Wrong)
              && (b.Some? && !b.value.b ==> A.EvalWhile(w, c, body, m, fuel) == A.Normal(b.value.m))
              && (b.Some? && b.value.b ==>
                    A.EvalWhile(w, c, body, m, fuel) ==
                    AfterRound(w, c, body, A.EvalStmts(w, body, b.value.m, fuel - 1), fuel - 1))
  {
  }

  /** The blocks of a loop: `t` stands at the condition, `z` after the loop; `x` is where the condition goes
      when it holds. */
  ghost predicate LoopOk(f: Function, c: A.Cond, t: Build, x: BlockId, z: Build) {
    && Ready(t) && t.cur in t.blocks && t.blocks[t.cur] == EMPTY && A.ProperCond(c) && x in t.blocks
        && z.cur in t.blocks
    && Stands(t, f) && Stands(LowerCond(c, t, x, z.cur), f)
    && Ready(z) && z.cur in z.blocks && z.blocks[z.cur] == EMPTY && Stands(z, f)
  }

  lemma LoopParts(f: Function, c: A.Cond, t: Build, x: BlockId, z: Build)
    requires LoopOk(f, c, t, x, z)
    ensures Ready(t) && t.cur in t.blocks && t.blocks[t.cur] == EMPTY && A.ProperCond(c) && x in t.blocks
            && z.cur in t.blocks
    ensures Stands(t, f) && Stands(LowerCond(c, t, x, z.cur), f) && Agrees(t, f)
    ensures Ready(z) && z.cur in z.blocks && z.blocks[z.cur] == EMPTY && Stands(z, f)
  {
  }

  /** The condition is evaluated once more. */
  lemma Round(w: Oracle, f: Function, c: A.Cond, t: Build, x: BlockId, z: Build, from: BlockId, st: State)
    returns (from': BlockId, st': State)
    requires LoopOk(f, c, t, x, z) && A.EvalCond(w, c, MemOf(st)).Some?
    ensures var ch := A.EvalCond(w, c, MemOf(st)).value;
            && MemOf(st') == ch.m
            && Reaches(w, f, Step(w, f, Edge(from, t.cur, st)), Edge(from', if ch.b then x else z.cur, st'))
  {
    hide *;
    LoopParts(f, c, t, x, z);
    var st1 := EnterAt(w, f, t, from, st);
    from', st' := CondRuns(w, f, c, t, x, z.cur, st1);
    var ch := A.EvalCond(w, c, MemOf(st)).value;
    var u := LowerCond(c, t, x, z.cur);
    LeadsIs(w, f, t, u, x, z.cur, st1, from', st', ch);
    CondRanParts(w, f, t, u, st1, from', if ch.b then x else z.cur, st', ch.m);
  }

  /** What follows the first step lasts one edge less. */
  lemma StepArrives(w: Oracle, f: Function, c: Config, t: Build, loops: seq<Loop>, fuel: nat, o: A.Outcome)
    requires fuel > 0 && Arrives(w, f, Step(w, f, c), t, loops, fuel - 1, o)
    ensures Arrives(w, f, c, t, loops, fuel, o)
  {
    if o.Timeout? {
      hide Lasts;
      StepLasts(w, f, c, fuel - 1);
    } else {
      AnyFuel(w, f, Step(w, f, c), t, loops, fuel - 1, fuel, o);
      hide Arrives;
      ReachesStep(w, f, c);
      ArrivesFrom(w, f, c, Step(w, f, c), t, loops, fuel, o);
    }
  }

  lemma AnyFuel(w: Oracle, f: Function, c: Config, t: Build, loops: seq<Loop>, fuel: nat, fuel': nat, o: A.Outcome)
    requires Arrives(w, f, c, t, loops, fuel, o) && !o.Timeout?
    ensures Arrives(w, f, c, t, loops, fuel', o)
  {
    hide ArrivesAt, Jumps, Returns;
  }

  /** The loop is left. */
  lemma LoopLeft(w: Oracle, f: Function, c: Config, t: Build, x: BlockId, z: Build, cond: A.Cond, from: BlockId,
                 st: State, loops: seq<Loop>, fuel: nat)
    requires LoopOk(f, cond, t, x, z) && Reaches(w, f, c, Edge(from, z.cur, st))
    ensures Arrives(w, f, c, z, loops, fuel, A.Normal(MemOf(st)))
  {
    hide *;
    LoopParts(f, cond, t, x, z);
    EdgeArrives(w, f, c, from, st, z);
    ArrivesNormal(w, f, c, z, loops, fuel, MemOf(st));
  }

  lemma NeverRuns(w: Oracle, f: Function, from: BlockId, b: BlockId, st: State)
    ensures Lasts(w, f, Edge(from, b, st), 0)
  {
    assert Run(w, f, 0, Edge(from, b, st)) == Edge(from, b, st);
  }

  lemma TimeoutNow(w: Oracle, f: Function, from: BlockId, b: BlockId, st: State, t: Build, loops: seq<Loop>)
    ensures Arrives(w, f, Edge(from, b, st), t, loops, 0, A.Timeout)
  {
    NeverRuns(w, f, from, b, st);
  }

  /** A loop without a body: the condition goes back to itself. */
  lemma {:induction false} EmptyLoopRuns(w: Oracle, f: Function, c: A.Cond, t: Build, z: Build, loops: seq<Loop>,
                                         from: BlockId, st: State, fuel: nat)
    requires LoopOk(f, c, t, t.cur, z)
    ensures Arrives(w, f, Edge(from, t.cur, st), z, loops, fuel, A.EvalWhile(w, c, [], MemOf(st), fuel))
    decreases fuel
  {
    hide *;
    var e := Edge(from, t.cur, st);
    var o := A.EvalWhile(w, c, [], MemOf(st), fuel);
    WhileOutcome(w, c, [], MemOf(st), fuel);
    if fuel == 0 {
      TimeoutNow(w, f, from, t.cur, st, z, loops);
    } else if A.EvalCond(w, c, MemOf(st)).None? {
      ArrivesWrong(w, f, e, z, loops, fuel);
    } else {
      var ch := A.EvalCond(w, c, MemOf(st)).value;
      var from1, st1 := Round(w, f, c, t, t.cur, z, from, st);
      if ch.b {
        EmptyBody(w, c, ch.m, fuel - 1);
        EmptyLoopRuns(w, f, c, t, z, loops, from1, st1, fuel - 1);
        ArrivesFrom(w, f, Step(w, f, e), Edge(from1, t.cur, st1), z, loops, fuel - 1, o);
        StepArrives(w, f, e, z, loops, fuel, o);
      } else {
        LoopLeft(w, f, Step(w, f, e), t, t.cur, z, c, from1, st1, loops, fuel - 1);
        StepArrives(w, f, e, z, loops, fuel, o);
      }
    }
  }

  lemma EmptyBody(w: Oracle, c: A.Cond, m: A.Mem, fuel: nat)
    ensures AfterRound(w, c, [], A.EvalStmts(w, [], m, fuel), fuel) == A.EvalWhile(w, c, [], m, fuel)
  {
  }

  /** The body of a loop: entered in `u`, back at the condition by `Join`. */
  ghost predicate BodyOk(f: Function, body: seq<A.Stmt>, u: Build, loops: seq<Loop>, next: BlockId, cond: BlockId) {
    && Ready(u) && u.cur in u.blocks && u.blocks[u.cur] == EMPTY && A.ProperStmts(body, true)
    && LoopsOk(u, loops + [Loop(next, cond)]) && cond in u.blocks
    && Stands(Join(LowerStmts(body, u, loops + [Loop(next, cond)]), cond), f)
  }

  lemma BodyParts(f: Function, body: seq<A.Stmt>, u: Build, loops: seq<Loop>, next: BlockId, cond: BlockId)
    requires BodyOk(f, body, u, loops, next, cond)
    ensures Ready(u) && u.cur in u.blocks && u.blocks[u.cur] == EMPTY
            && A.ProperStmts(body, loops + [Loop(next, cond)] != [])
    ensures LoopsOk(u, loops + [Loop(next, cond)]) && cond in u.blocks
    ensures Stands(Join(LowerStmts(body, u, loops + [Loop(next, cond)]), cond), f)
  {
  }

  lemma {:induction false} LoopRuns(w: Oracle, f: Function, c: A.Cond, body: seq<A.Stmt>, t: Build, u: Build, z: Build,
                                    loops: seq<Loop>,
                                    from: BlockId, st: State, fuel: nat)
    requires LoopOk(f, c, t, u.cur, z) && BodyOk(f, body, u, loops, z.cur, t.cur)
    ensures Arrives(w, f, Edge(from, t.cur, st), z, loops, fuel, A.EvalWhile(w, c, body, MemOf(st), fuel))
    decreases fuel, body, 2
  {
    hide *;
    var e := Edge(from, t.cur, st);
    var o := A.EvalWhile(w, c, body, MemOf(st), fuel);
    WhileOutcome(w, c, body, MemOf(st), fuel);
    if fuel == 0 {
      TimeoutNow(w, f, from, t.cur, st, z, loops);
    } else if A.EvalCond(w, c, MemOf(st)).None? {
      ArrivesWrong(w, f, e, z, loops, fuel);
    } else {
      var ch := A.EvalCond(w, c, MemOf(st)).value;
      var from1, st1 := Round(w, f, c, t, u.cur, z, from, st);
      if ch.b {
        var inner := loops + [Loop(z.cur, t.cur)];
        var o1 := A.EvalStmts(w, body, ch.m, fuel - 1);
        BodyParts(f, body, u, loops, z.cur, t.cur);
        ArmRuns(w, f, body, u, inner, t.cur, from1, st1, fuel - 1);
        var e1 := Edge(from1, u.cur, st1);
        ReachesStep(w, f, e1);
        ReachesTrans(w, f, Step(w, f, e), e1, Step(w, f, e1));
        JoinsFrom(w, f, Step(w, f, e), Step(w, f, e1), Join(LowerStmts(body, u, inner), t.cur), t.cur, inner, fuel - 1,
            o1);
        RoundEnds(w, f, c, body, t, u, z, loops, Step(w, f, e), fuel - 1, o1);
        StepArrives(w, f, e, z, loops, fuel, o);
      } else {
        LoopLeft(w, f, Step(w, f, e), t, u.cur, z, c, from1, st1, loops, fuel - 1);
        StepArrives(w, f, e, z, loops, fuel, o);
      }
    }
  }

  /** What the end of the body means for the loop. */
  lemma {:induction false} RoundEnds(w: Oracle, f: Function, c: A.Cond, body: seq<A.Stmt>, t: Build, u: Build,
                                     z: Build, loops: seq<Loop>,
                                     e: Config, fuel: nat, o: A.Outcome)
    requires LoopOk(f, c, t, u.cur, z) && BodyOk(f, body, u, loops, z.cur, t.cur)
    requires Joins(w, f, e, Join(LowerStmts(body, u, loops + [Loop(z.cur, t.cur)]), t.cur), t.cur,
               loops + [Loop(z.cur, t.cur)], fuel, o)
    ensures Arrives(w, f, e, z, loops, fuel, AfterRound(w, c, body, o, fuel))
    decreases fuel, body, 3
  {
    hide *;
    RoundCases(w, c, body, o, fuel);
    var v := Join(LowerStmts(body, u, loops + [Loop(z.cur, t.cur)]), t.cur);
    if o.Normal? || o.Continued? {
      var from, st := BackEdge(w, f, e, v, z.cur, t.cur, loops, fuel, o);
      LoopRuns(w, f, c, body, t, u, z, loops, from, st, fuel);
      ArrivesFrom(w, f, e, Edge(from, t.cur, st), z, loops, fuel, AfterRound(w, c, body, o, fuel));
    } else if o.Broke? {
      var from, st := OutEdge(w, f, e, v, z.cur, t.cur, loops, fuel, o);
      LoopLeft(w, f, e, t, u.cur, z, c, from, st, loops, fuel);
    } else {
      Through(w, f, e, v, z, z.cur, t.cur, loops, fuel, o);
    }
  }

  lemma RoundCases(w: Oracle, c: A.Cond, body: seq<A.Stmt>, o: A.Outcome, fuel: nat)
    ensures o.Normal? || o.Continued? ==> AfterRound(w, c, body, o, fuel) == A.EvalWhile(w, c, body, o.m, fuel)
    ensures o.Broke? ==> AfterRound(w, c, body, o, fuel) == A.Normal(o.m)
    ensures !o.Normal? && !o.Continued? && !o.Broke? ==> AfterRound(w, c, body, o, fuel) == o
  {
  }

  lemma BackEdge(w: Oracle, f: Function, e: Config, v: Build, next: BlockId, cond: BlockId, loops: seq<Loop>,
                 fuel: nat, o: A.Outcome)
    returns (from: BlockId, st: State)
    requires Joins(w, f, e, v, cond, loops + [Loop(next, cond)], fuel, o) && (o.Normal? || o.Continued?)
    ensures MemOf(st) == o.m && Reaches(w, f, e, Edge(from, cond, st))
  {
    hide MemOf, Reaches;
    from, st :| MemOf(st) == o.m && Reaches(w, f, e, Edge(from, cond, st));
  }

  lemma OutEdge(w: Oracle, f: Function, e: Config, v: Build, next: BlockId, cond: BlockId, loops: seq<Loop>, fuel: nat,
                o: A.Outcome)
    returns (from: BlockId, st: State)
    requires Joins(w, f, e, v, cond, loops + [Loop(next, cond)], fuel, o) && o.Broke?
    ensures MemOf(st) == o.m && Reaches(w, f, e, Edge(from, next, st))
  {
    hide MemOf, Reaches;
    from, st :| MemOf(st) == o.m && Reaches(w, f, e, Edge(from, next, st));
  }

  lemma Through(w: Oracle, f: Function, e: Config, v: Build, z: Build, next: BlockId, cond: BlockId, loops: seq<Loop>,
                fuel: nat, o: A.Outcome)
    requires Joins(w, f, e, v, cond, loops + [Loop(next, cond)], fuel, o) && (o.Returned? || o.Timeout? || o.Wrong?)
    ensures Arrives(w, f, e, z, loops, fuel, o)
  {
    hide Returns, Lasts;
  }

  /** The branch into a loop. */
  lemma HeadRuns(w: Oracle, f: Function, s: Build, s1: Build, cond: BlockId, st: State)
    requires Ready(s1) && cond in s1.blocks && cond != s1.cur && Stands(MoveTo(Branch(s1, cond), cond), f)
    requires s1.cur in s1.blocks && (Stands(s1, f) ==>
               Stands(s, f) && s.cur in s.blocks && Agrees(s, f) && At(w, f, s, st) == At(w, f, s1, st))
    ensures Stands(s, f) && s.cur in s.blocks && Agrees(s, f) && At(w, f, s, st) == Edge(s1.cur, cond, st)
  {
    BranchGrown(s1, cond);
    hide Valid, Grown, Agrees, At;
    StandsMove(Branch(s1, cond), cond, f);
    BranchJumps(w, f, s1, cond, st);
  }

  lemma TwiceAt(w: Oracle, f: Function, s: Build, st: State)
    requires Ready(s)
    ensures var s2 := Create(Create(s));
            && s2.cur in s2.blocks && s2.cur == s.cur
            && (Stands(s2, f) ==>
                Stands(s, f) && s.cur in s.blocks && Agrees(s, f) && At(w, f, s, st) == At(w, f, s2, st))
  {
    CreatedReady(s);
    if Stands(Create(Create(s)), f) {
      CreateAt(w, f, Create(s), st);
      CreateAt(w, f, s, st);
    }
  }

  lemma ThriceAt(w: Oracle, f: Function, s: Build, st: State)
    requires Ready(s)
    ensures var s3 := Create(Create(Create(s)));
            && s3.cur in s3.blocks && s3.cur == s.cur
            && (Stands(s3, f) ==>
                Stands(s, f) && s.cur in s.blocks && Agrees(s, f) && At(w, f, s, st) == At(w, f, s3, st))
  {
    CreatedReady(s);
    CreatedReady(Create(s));
    hide Valid, Agrees;
    TwiceAt(w, f, s, st);
    if Stands(Create(Create(Create(s))), f) {
      CreateAt(w, f, Create(Create(s)), st);
    }
  }

  lemma EmptyWhileBuilt(c: A.Cond, s: Build, loops: seq<Loop>, f: Function)
    requires Ready(s) && A.ProperCond(c) && Stands(LowerStmt(A.While(c, []), s, loops), f)
    ensures var cond, next := s.nextBlock, s.nextBlock + 1;
            var s2 := Create(Create(s));
            var t := MoveTo(Branch(s2, cond), cond);
            var z := MoveTo(LowerCond(c, t, cond, next), next);
            && Ready(s2) && cond in s2.blocks && cond != s2.cur && LoopOk(f, c, t, cond, z) && t.cur == cond
                && z.cur == next
            && LowerStmt(A.While(c, []), s, loops) == z
  {
    hide Valid, Grown, Ready, Create, MoveTo, Open, LowerCond, Stands, Agrees, Branch;
    var cond, next := s.nextBlock, s.nextBlock + 1;
    TwoCreated(s);
    var s2 := Create(Create(s));
    GrownCur(s, s2, {cond, next});
    LoopHead(s, s2, {cond, next}, cond, {next});
    var t := MoveTo(Branch(s2, cond), cond);
    CondWaits(c, s, t, {next}, cond, next);
    var u := LowerCond(c, t, cond, next);
    GrownCur(s, u, {next});
    MoveOn(s, u, {next}, next, {});
    MovedTo(u, next);
    StandsMove(u, next, f);
    StandsBack(t, u, {}, f);
  }

  lemma EmptyWhileRuns(w: Oracle, f: Function, c: A.Cond, s: Build, loops: seq<Loop>, st: State, fuel: nat)
    requires Ready(s) && A.ProperCond(c) && Stands(LowerStmt(A.While(c, []), s, loops), f)
    ensures Stands(s, f) && s.cur in s.blocks && Agrees(s, f)
    ensures Arrives(w, f, At(w, f, s, st), LowerStmt(A.While(c, []), s, loops), loops, fuel,
              A.EvalWhile(w, c, [], MemOf(st), fuel))
  {
    hide *;
    var cond, next := s.nextBlock, s.nextBlock + 1;
    var s2 := Create(Create(s));
    var t := MoveTo(Branch(s2, cond), cond);
    var z := MoveTo(LowerCond(c, t, cond, next), next);
    EmptyWhileBuilt(c, s, loops, f);
    TwiceAt(w, f, s, st);
    LoopParts(f, c, t, cond, z);
    HeadRuns(w, f, s, s2, cond, st);
    EmptyLoopRuns(w, f, c, t, z, loops, s2.cur, st, fuel);
  }

  lemma WhileBuilt(c: A.Cond, body: seq<A.Stmt>, s: Build, loops: seq<Loop>, f: Function)
    requires Ready(s) && A.ProperCond(c) && A.ProperStmts(body, true) && LoopsOk(s, loops) && body != []
    requires Stands(LowerStmt(A.While(c, body), s, loops), f)
    ensures var cond, next, enter := s.nextBlock, s.nextBlock + 1, s.nextBlock + 2;
            var s3 := Create(Create(Create(s)));
            var t := MoveTo(Branch(s3, cond), cond);
            var u := LoopEntered(c, s);
            var v := Join(LowerStmts(body, u, loops + [Loop(next, cond)]), cond);
            var z := MoveTo(v, next);
            && Ready(s3) && cond in s3.blocks && cond != s3.cur && t.cur == cond && u.cur == enter && z.cur == next
            && LoopOk(f, c, t, enter, z) && BodyOk(f, body, u, loops, next, cond)
            && LowerStmt(A.While(c, body), s, loops) == z
  {
    hide Valid, Grown, Ready, Create, MoveTo, Open, LowerCond, LowerStmts, Stands, Agrees, Branch, Join, LoopsOk,
        A.ProperCond, A.ProperStmts, LoopEntered;
    var cond, next, enter := s.nextBlock, s.nextBlock + 1, s.nextBlock + 2;
    var u := LoopEntered(c, s);
    LoopEnteredGrows(c, s);
    GrownCur(s, u, {next});
    LoopsMore(s, u, {next}, loops, next, cond);
    StmtsGrow(body, u, loops + [Loop(next, cond)]);
    var v0 := LowerStmts(body, u, loops + [Loop(next, cond)]);
    StmtIs(u, v0);
    GrownPend(s, u, v0, {next});
    GrownCur(u, v0, {});
    JoinGrows(s, v0, {next}, cond);
    var v := Join(v0, cond);
    GrownCur(s, v, {next});
    MoveOn(s, v, {next}, next, {});
    MovedTo(v, next);
    WhileIs(c, body, s, loops);
    StandsMove(v, next, f);
    StandsBack(v0, v, {}, f);
    StandsBack(u, v0, {}, f);
    HeadBuilt(c, s, f);
    StartedIs(MoveTo(Branch(Create(Create(Create(s))), cond), cond), cond);
    StartedIs(u, enter);
  }

  lemma HeadBuilt(c: A.Cond, s: Build, f: Function)
    requires Ready(s) && A.ProperCond(c) && Stands(LoopEntered(c, s), f)
    ensures var cond, next, enter := s.nextBlock, s.nextBlock + 1, s.nextBlock + 2;
            var s3 := Create(Create(Create(s)));
            var t := MoveTo(Branch(s3, cond), cond);
            var t1 := LowerCond(c, t, enter, next);
            && Ready(s3) && cond in s3.blocks && cond != s3.cur && Started(t, cond)
            && enter in t.blocks && next in t.blocks && Stands(t1, f) && Stands(t, f)
            && LoopEntered(c, s) == MoveTo(t1, enter) && Started(LoopEntered(c, s), enter)
  {
    hide Valid, Grown, Ready, Create, MoveTo, Open, LowerCond, Stands, Agrees, Branch;
    var cond, next, enter := s.nextBlock, s.nextBlock + 1, s.nextBlock + 2;
    ThreeCreated(s);
    var s3 := Create(Create(Create(s)));
    GrownCur(s, s3, {cond, next, enter});
    LoopHead(s, s3, {cond, next, enter}, cond, {next, enter});
    var t := MoveTo(Branch(s3, cond), cond);
    CondWaits(c, s, t, {next, enter}, enter, next);
    var t1 := LowerCond(c, t, enter, next);
    GrownCur(s, t1, {next, enter});
    GrownCur(t, t1, {});
    MovedTo(t1, enter);
    StandsMove(t1, enter, f);
    StandsBack(t, t1, {}, f);
    StartedIs(t, cond);
    LoopEnteredIs(c, s);
    LoopEnteredGrows(c, s);
    StartedIs(LoopEntered(c, s), enter);
  }

  lemma {:induction false} WhileRuns(w: Oracle, f: Function, c: A.Cond, body: seq<A.Stmt>, s: Build, loops: seq<Loop>,
                                     st: State, fuel: nat)
    requires Ready(s) && A.ProperCond(c) && A.ProperStmts(body, true) && LoopsOk(s, loops) && body != []
    requires Stands(LowerStmt(A.While(c, body), s, loops), f)
    ensures Stands(s, f) && s.cur in s.blocks && Agrees(s, f)
    ensures Arrives(w, f, At(w, f, s, st), LowerStmt(A.While(c, body), s, loops), loops, fuel,
              A.EvalWhile(w, c, body, MemOf(st), fuel))
    decreases fuel, body, 4
  {
    hide *;
    var cond, next, enter := s.nextBlock, s.nextBlock + 1, s.nextBlock + 2;
    var s3 := Create(Create(Create(s)));
    var t := MoveTo(Branch(s3, cond), cond);
    var u := LoopEntered(c, s);
    var z := MoveTo(Join(LowerStmts(body, u, loops + [Loop(next, cond)]), cond), next);
    WhileBuilt(c, body, s, loops, f);
    ThriceAt(w, f, s, st);
    LoopParts(f, c, t, enter, z);
    HeadRuns(w, f, s, s3, cond, st);
    LoopRuns(w, f, c, body, t, u, z, loops, s3.cur, st, fuel);
  }

  // ----- Statements -----

  lemma {:induction false} StmtRuns(w: Oracle, f: Function, x: A.Stmt, s: Build, loops: seq<Loop>, st: State, fuel: nat)
    requires Ready(s) && A.ProperStmt(x, loops != []) && LoopsOk(s, loops) && Stands(LowerStmt(x, s, loops), f)
    ensures Stands(s, f) && s.cur in s.blocks && Agrees(s, f)
    ensures Arrives(w, f, At(w, f, s, st), LowerStmt(x, s, loops), loops, fuel, A.EvalStmt(w, x, MemOf(st), fuel))
    decreases fuel, x, 1
  {
    hide Ready, Stands, Arrives, At, MemOf, Agrees, LoopsOk, LowerAssign, A.EvalAssign, Branch, Exit;
    match x
    case Assign(v, idx, e) =>
      AssignRuns(w, f, v, idx, e, s, st, loops, fuel);
    case Declare(v, None) =>
      ReadyStands(s, f);
      ArrivesNow(w, f, s, st, loops, fuel);
    case Declare(v, Some(e)) =>
      AssignRuns(w, f, A.Scalar(v), [], e, s, st, loops, fuel);
    case If(c, yes, no) =>
      if no == [] { IfThenRuns(w, f, c, yes, s, loops, st, fuel); }
          else { IfElseRuns(w, f, c, yes, no, s, loops, st, fuel); }
    case While(c, body) =>
      if body == [] { EmptyWhileRuns(w, f, c, s, loops, st, fuel); }
          else { WhileRuns(w, f, c, body, s, loops, st, fuel); }
    case Break =>
      JumpRuns(w, f, s, loops, loops[|loops| - 1].next, st, fuel);
    case Continue =>
      JumpRuns(w, f, s, loops, loops[|loops| - 1].cond, st, fuel);
    case Return(None) =>
      VoidReturnRuns(w, f, s, loops, st, fuel);
    case Return(Some(e)) =>
      ReturnRuns(w, f, e, s, st, loops, fuel);
    case Scope(ss) =>
      StmtsRun(w, f, ss, s, loops, st, fuel);
    case ExpStmt(e) =>
      ExpStmtRuns(w, f, e, s, st, loops, fuel);
    case CondStmt(c) =>
      CondStmtRuns(w, f, c, s, st, loops, fuel);
  }

  lemma JumpRuns(w: Oracle, f: Function, s: Build, loops: seq<Loop>, b: BlockId, st: State, fuel: nat)
    requires Ready(s) && loops != [] && LoopsOk(s, loops) && Stands(Branch(s, b), f)
    requires b == loops[|loops| - 1].next || b == loops[|loops| - 1].cond
    ensures Stands(s, f) && s.cur in s.blocks && Agrees(s, f)
    ensures b == loops[|loops| - 1].next
            ==> Arrives(w, f, At(w, f, s, st), Branch(s, b), loops, fuel, A.Broke(MemOf(st)))
    ensures b == loops[|loops| - 1].cond
            ==> Arrives(w, f, At(w, f, s, st), Branch(s, b), loops, fuel, A.Continued(MemOf(st)))
  {
    hide Ready, Stands, At, MemOf, Agrees, Branch, Jumps;
    BranchJumps(w, f, s, b, st);
  }

  lemma VoidReturnRuns(w: Oracle, f: Function, s: Build, loops: seq<Loop>, st: State, fuel: nat)
    requires Ready(s) && Stands(Exit(s, None), f)
    ensures Stands(s, f) && s.cur in s.blocks && Agrees(s, f)
    ensures Arrives(w, f, At(w, f, s, st), Exit(s, None), loops, fuel, A.Returned(None, MemOf(st)))
  {
    hide Ready, Stands, At, MemOf, Agrees, Exit, Returns;
    ReturnsNow(w, f, s, None, st, None);
  }

  lemma {:induction false} StmtsRun(w: Oracle, f: Function, ss: seq<A.Stmt>, s: Build, loops: seq<Loop>, st: State,
                                    fuel: nat)
    requires Ready(s) && A.ProperStmts(ss, loops != []) && LoopsOk(s, loops) && Stands(LowerStmts(ss, s, loops), f)
    ensures Stands(s, f) && s.cur in s.blocks && Agrees(s, f)
    ensures Arrives(w, f, At(w, f, s, st), LowerStmts(ss, s, loops), loops, fuel, A.EvalStmts(w, ss, MemOf(st), fuel))
    decreases fuel, ss, 0
  {
    hide Ready, Stands, Arrives, At, MemOf, Agrees, LoopsOk, LowerStmt, A.EvalStmt, Open, Valid, Grown;
    if ss == [] {
      ReadyStands(s, f);
      ArrivesNow(w, f, s, st, loops, fuel);
    } else {
      var t := LowerStmt(ss[0], s, loops);
      var o := A.EvalStmt(w, ss[0], MemOf(st), fuel);
      StmtGrows(ss[0], s, loops);
      StmtIs(s, t);
      if Open(t) {
        RestRuns(w, f, ss, s, t, loops, st, fuel);
      } else {
        StmtRuns(w, f, ss[0], s, loops, st, fuel);
        NormalOpen(w, f, At(w, f, s, st), t, loops, fuel, o);
      }
    }
  }

  lemma NormalOpen(w: Oracle, f: Function, c: Config, t: Build, loops: seq<Loop>, fuel: nat, o: A.Outcome)
    requires Arrives(w, f, c, t, loops, fuel, o)
    ensures o.Normal? ==> Open(t)
  {
  }

  /** The statement went on: so do the ones after it. */
  lemma {:induction false} RestRuns(w: Oracle, f: Function, ss: seq<A.Stmt>, s: Build, t: Build, loops: seq<Loop>,
                                    st: State, fuel: nat)
    requires Ready(s) && ss != [] && A.ProperStmts(ss, loops != []) && LoopsOk(s, loops)
    requires t == LowerStmt(ss[0], s, loops) && Valid(t) && Open(t) && Grown(s, t, {})
             && Stands(LowerStmts(ss[1..], t, loops), f)
    ensures Stands(s, f) && s.cur in s.blocks && Agrees(s, f)
    ensures Arrives(w, f, At(w, f, s, st), LowerStmts(ss[1..], t, loops), loops, fuel,
              A.EvalStmts(w, ss, MemOf(st), fuel))
    decreases fuel, ss, -1
  {
    hide *;
    var u := LowerStmts(ss[1..], t, loops);
    var o := A.EvalStmt(w, ss[0], MemOf(st), fuel);
    ProperRest(ss, loops != []);
    ReadyFrom(t);
    LoopsStay(s, t, {}, loops);
    StmtsGrow(ss[1..], t, loops);
    StmtIs(t, u);
    StandsBack(t, u, {}, f);
    StmtRuns(w, f, ss[0], s, loops, st, fuel);
    SeqOutcome(w, ss, MemOf(st), fuel);
    if o.Normal? {
      var st1 := ArrivedAt(w, f, At(w, f, s, st), t, loops, fuel, o);
      StmtsRun(w, f, ss[1..], t, loops, st1, fuel);
      ArrivesFrom(w, f, At(w, f, s, st), At(w, f, t, st1), u, loops, fuel, A.EvalStmts(w, ss[1..], o.m, fuel));
    } else {
      Elsewhere(w, f, At(w, f, s, st), t, u, loops, fuel, o);
    }
  }

  lemma ProperRest(ss: seq<A.Stmt>, inLoop: bool)
    requires ss != [] && A.ProperStmts(ss, inLoop)
    ensures A.ProperStmt(ss[0], inLoop) && A.ProperStmts(ss[1..], inLoop)
  {
  }

  lemma SeqOutcome(w: Oracle, ss: seq<A.Stmt>, m: A.Mem, fuel: nat)
    requires ss != []
    ensures var o := A.EvalStmt(w, ss[0], m, fuel);
            A.EvalStmts(w, ss, m, fuel) == if o.Normal? then A.EvalStmts(w, ss[1..], o.m, fuel) else o
  {
  }

  lemma ArrivedAt(w: Oracle, f: Function, c: Config, t: Build, loops: seq<Loop>, fuel: nat,
                  o: A.Outcome) returns (st: State)
    requires Arrives(w, f, c, t, loops, fuel, o) && o.Normal?
    ensures Stands(t, f) && t.cur in t.blocks && Agrees(t, f) && MemOf(st) == o.m && Reaches(w, f, c, At(w, f, t, st))
  {
    hide Reaches, MemOf, At;
    st :| MemOf(st) == o.m && Reaches(w, f, c, At(w, f, t, st));
  }
}
