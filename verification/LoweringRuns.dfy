/** What was built runs as the syntax tree says. */
module LoweringRuns {
  import opened IR
  import A = Ast
  import opened Builder
  import opened Lowering

  // ----- States -----

  ghost function MemOf(st: State): A.Mem {
    A.Mem(st.slots, st.heap, st.trace)
  }

  /** Registers below `n` are as they were. */
  ghost predicate Kept(st: State, st': State, n: nat) {
    forall r: Reg :: r < n ==> st'.env(r) == st.env(r)
  }

  lemma KeptTrans(a: State, b: State, c: State, m: nat, n: nat)
    requires Kept(a, b, m) && Kept(b, c, n) && m <= n
    ensures Kept(a, c, m)
  {
  }

  /** The finished function has what is built so far, and the run can stand at its end. */
  ghost predicate Stands(s: Build, f: Function) {
    s.cur in s.blocks && Agrees(s, f)
  }

  lemma StandsBack(s: Build, t: Build, pend: set<BlockId>, f: Function)
    requires Grown(s, t, pend) && Stands(t, f)
    ensures Stands(s, f)
  {
    AgreesBack(s, t, pend, f);
  }

  lemma StandsBuilt(s: Build, t: Build, f: Function)
    requires ExpBuilt(s, t) && Stands(t, f)
    ensures Stands(s, f)
  {
    hide Grown, Agrees, Stands;
    StandsBack(s, t, {}, f);
  }

  /** Moving the insertion point changes nothing that was fixed. */
  lemma StandsMove(t: Build, b: BlockId, f: Function)
    requires Stands(MoveTo(t, b), f) && t.cur in t.blocks && !Open(t)
    ensures Stands(t, f)
  {
  }

  /** The run has evaluated an expression. */
  ghost predicate ExpRan(w: Oracle, f: Function, s: Build, t: Build, o: Operand, st: State, st': State, g: A.Got) {
    && Stands(s, f) && Stands(t, f) && Reaches(w, f, At(w, f, s, st), At(w, f, t, st'))
    && MemOf(st') == g.m && Read(o, st'.env) == g.v && Kept(st, st', s.nextReg)
  }

  lemma RanParts(w: Oracle, f: Function, s: Build, t: Build, o: Operand, st: State, st': State, g: A.Got)
    requires ExpRan(w, f, s, t, o, st, st', g)
    ensures Stands(s, f) && Stands(t, f) && s.cur in s.blocks && t.cur in t.blocks && Agrees(s, f) && Agrees(t, f)
    ensures Reaches(w, f, At(w, f, s, st), At(w, f, t, st'))
    ensures MemOf(st') == g.m && Read(o, st'.env) == g.v && Kept(st, st', s.nextReg)
  {
  }

  lemma RanSelf(w: Oracle, f: Function, s: Build, o: Operand, st: State, g: A.Got)
    requires Stands(s, f) && MemOf(st) == g.m && Read(o, st.env) == g.v
    ensures ExpRan(w, f, s, s, o, st, st, g)
  {
    ReachesSelf(w, f, At(w, f, s, st));
  }

  /** One more instruction, which defines the next register. */
  lemma RanDefine(w: Oracle, f: Function, s: Build, t: Build, i: Instr, o0: Operand, st: State, st1: State, st2: State,
                  g0: A.Got, g: A.Got)
    requires Ready(s) && ExpBuilt(s, t) && ExpRan(w, f, s, t, o0, st, st1, g0) && Stands(Define(t, i), f)
    requires ExecInstr(w, i, st1) == Some(st2) && MemOf(st2) == g.m && st2.env == SetReg(st1.env, t.nextReg, g.v)
    ensures ExpRan(w, f, s, Define(t, i), Reg(t.nextReg), st, st2, g)
  {
    DefineRuns(w, f, t, i, st1);
    assert s.nextReg <= t.nextReg;
  }

  lemma RanThen(w: Oracle, f: Function, s: Build, t: Build, u: Build, x: Operand, y: Operand,
                st: State, st1: State, st2: State, g1: A.Got, g2: A.Got)
    requires ExpBuilt(s, t) && ExpRan(w, f, s, t, x, st, st1, g1) && ExpRan(w, f, t, u, y, st1, st2, g2)
    ensures ExpRan(w, f, s, u, y, st, st2, g2)
    ensures OperandOk(x, t) ==> Read(x, st2.env) == g1.v
  {
    hide At, Agrees, Valid;
    ReachesTrans(w, f, At(w, f, s, st), At(w, f, t, st1), At(w, f, u, st2));
    KeptTrans(st, st1, st2, s.nextReg, t.nextReg);
  }

  // ----- Operations -----

  ghost function BinaryOn(op: Op, x: Option<Val>, y: Option<Val>): Option<Val> {
    if x.Some? && y.Some? then Apply(op, [x.value, y.value]) else None
  }

  /** The operations chosen for the operators of the source language do what those promise. */
  lemma MathIs(op: A.MathOp, x: Option<Val>, y: Option<Val>)
    ensures BinaryOn(OpOf(op), x, y) == A.MathOn(op, x, y)
  {
  }

  ghost function Decided(v: Option<Val>, m: A.Mem): Option<A.Chosen> {
    if v.Some? && v.value.BoolVal? then Some(A.Chosen(v.value.b, m)) else None
  }

  lemma RelIs(op: A.RelOp, x: Option<Val>, y: Option<Val>, m: A.Mem)
    ensures Decided(BinaryOn(RelOf(op), x, y), m) == A.Decide(A.RelOn(op, x, y), true, m)
  {
  }

  lemma EqualIs(same: bool, x: Option<Val>, y: Option<Val>, m: A.Mem)
    ensures Decided(BinaryOn(if same then Eq else Ne, x, y), m) == A.Decide(A.EqualOn(x, y), same, m)
  {
  }

  lemma BinaryReads(op: Op, x: Operand, y: Operand, env: Env)
    ensures ApplyTo(op, ReadAll([x, y], env)) == BinaryOn(op, Read(x, env), Read(y, env))
  {
    var vs := ReadAll([x, y], env);
    assert Read([x, y][0], env) == Read(x, env) && Read([x, y][1], env) == Read(y, env);
    if vs.Some? {
      assert vs.value == [Read(x, env).value, Read(y, env).value];
    }
  }

  ghost predicate ReadsAs(os: seq<Operand>, env: Env, vs: seq<Option<Val>>) {
    |os| == |vs| && forall k :: 0 <= k < |os| ==> Read(os[k], env) == vs[k]
  }

  lemma AllRead(os: seq<Operand>, env: Env, vs: seq<Option<Val>>)
    requires ReadsAs(os, env, vs)
    ensures ReadAll(os, env) == A.AllDefined(vs)
  {
    hide Read;
    if ReadAll(os, env).Some? {
      assert forall k :: 0 <= k < |os| ==> vs[k].Some?;
      assert ReadAll(os, env).value == A.AllDefined(vs).value;
    }
  }

  /** The position as a sum: each index times the size of what it steps over. */
  function RowMajor(dims: seq<nat>, vs: seq<int>): int
    requires |vs| <= |dims|
  {
    if vs == [] then 0 else vs[0] * Product(dims[1..]) + RowMajor(dims[1..], vs[1..])
  }

  lemma {:induction false} PositionIsSum(dims: seq<nat>, vs: seq<int>, before: int)
    requires |vs| <= |dims|
    ensures A.Position(dims, vs, before) == before * Product(dims) + RowMajor(dims, vs)
  {
    if dims != [] {
      var n := before * dims[0] + if vs == [] then 0 else vs[0];
      var rest := if vs == [] then [] else vs[1..];
      PositionIsSum(dims[1..], rest, n);
      var p := Product(dims[1..]);
      TimesOut(before, dims[0], if vs == [] then 0 else vs[0], p);
    }
  }

  lemma TimesOut(a: int, b: int, c: int, p: int)
    ensures (a * b + c) * p == a * (b * p) + c * p
  {
  }

  /** Row-major order is what the strides say. */
  lemma StridesAreRowMajor(dims: seq<nat>, vs: seq<int>, vals: seq<Val>)
    requires |vs| == |vals| <= |dims| && forall k :: 0 <= k < |vs| ==> vals[k] == IntVal(vs[k])
    ensures |Strides(dims)| == |dims|
    ensures Offset(Strides(dims)[..|vs|], vals) == 4 * A.Position(dims, vs, 0)
  {
    PositionIsSum(dims, vs, 0);
    OffsetIsSum(dims, vs, vals);
  }

  lemma {:induction false} OffsetIsSum(dims: seq<nat>, vs: seq<int>, vals: seq<Val>)
    requires |vs| == |vals| <= |dims| && forall k :: 0 <= k < |vs| ==> vals[k] == IntVal(vs[k])
    ensures |Strides(dims)| == |dims|
    ensures Offset(Strides(dims)[..|vs|], vals) == 4 * RowMajor(dims, vs)
  {
    StridesLength(dims);
    if vs != [] {
      OffsetIsSum(dims[1..], vs[1..], vals[1..]);
      var ss := Strides(dims)[..|vs|];
      assert ss[0] == 4 * Product(dims[1..]) && ss[1..] == Strides(dims[1..])[..|vs| - 1];
    }
  }

  lemma {:induction false} StridesLength(dims: seq<nat>)
    ensures |Strides(dims)| == |dims|
  {
    if dims != [] { StridesLength(dims[1..]); }
  }

  lemma DefinedInts(vs: seq<Option<Val>>)
    ensures A.AllInts(vs) <==> A.AllDefined(vs).Some? && forall k :: 0 <= k < |vs| ==> A.AllDefined(vs).value[k].IntVal?
    ensures A.AllInts(vs) ==> forall k :: 0 <= k < |vs| ==> A.AllDefined(vs).value[k] == IntVal(A.Ints(vs)[k])
  {
    if A.AllDefined(vs).Some? {
      assert forall k :: 0 <= k < |vs| ==> vs[k].Some? && A.AllDefined(vs).value[k] == vs[k].value;
    }
  }

  /** The access computes the address the source language promises. */
  lemma AccessValue(x: A.Var, d: Reg, os: seq<Operand>, env: Env, base: Option<Val>, vs: seq<Option<Val>>)
    requires !x.Scalar? && vs != [] && ReadsAs(os, env, vs)
    requires Read(BaseOperand(x, d), env) == base
    ensures ApplyTo(Gep(AccessStrides(x, |vs|)), ReadAll(AccessOperands(x, d, os), env)) ==
            A.AddressOf(base, x.dims, vs)
  {
    StridesLength(x.dims);
    if x.Array? {
      var ops := AccessOperands(x, d, os);
      assert ReadsAs(ops, env, [base, Some(IntVal(0))] + vs);
      AllRead(ops, env, [base, Some(IntVal(0))] + vs);
      hide ReadAll, ReadsAs;
      ArrayAddress(x, base, vs);
    } else {
      var ops := AccessOperands(x, d, os);
      assert ReadsAs(ops, env, [base] + vs);
      AllRead(ops, env, [base] + vs);
      hide ReadAll, ReadsAs;
      ParamAddress(x, base, vs);
    }
  }

  lemma DefinedAppend(a: seq<Option<Val>>, vs: seq<Option<Val>>)
    ensures var da, dv, all := A.AllDefined(a), A.AllDefined(vs), A.AllDefined(a + vs);
            (all.Some? <==> da.Some? && dv.Some?) && (all.Some? ==> all.value == da.value + dv.value)
  {
    var all := a + vs;
    if forall k :: 0 <= k < |all| ==> all[k].Some? {
      forall k | 0 <= k < |a| ensures a[k].Some? { assert all[k] == a[k]; }
      forall k | 0 <= k < |vs| ensures vs[k].Some? { assert all[|a| + k] == vs[k]; }
      assert A.AllDefined(all).value == A.AllDefined(a).value + A.AllDefined(vs).value;
    }
  }

  lemma ArrayAddress(x: A.Var, base: Option<Val>, vs: seq<Option<Val>>)
    requires x.Array? && vs != [] && |Strides(x.dims)| == |x.dims| && base == Some(IntVal(x.base))
    ensures ApplyTo(Gep(AccessStrides(x, |vs|)), A.AllDefined([base, Some(IntVal(0))] + vs)) ==
            A.AddressOf(base, x.dims, vs)
  {
    var pre := [base, Some(IntVal(0))];
    DefinedAppend(pre, vs);
    assert A.AllDefined(pre).value == [IntVal(x.base), IntVal(0)];
    DefinedInts(vs);
    var dv, ss := A.AllDefined(vs), AccessStrides(x, |vs|);
    if dv.Some? {
      var all := [IntVal(x.base), IntVal(0)] + dv.value;
      hide A.AllDefined, A.Ints;
      assert all[1..] == [IntVal(0)] + dv.value && all[2..] == dv.value;
      GepInts(ss, all, 2, dv.value);
      if A.AllInts(vs) && |vs| <= |x.dims| {
        StridesAreRowMajor(x.dims, A.Ints(vs), dv.value);
        OffsetZero(ss, dv.value);
      }
    }
  }

  lemma GepInts(ss: seq<int>, all: seq<Val>, n: nat, vals: seq<Val>)
    requires n <= |all| && all[n..] == vals && forall k :: 0 <= k < n ==> all[k].IntVal?
    ensures (forall k :: 0 <= k < |all| ==> all[k].IntVal?) <==> (forall k :: 0 <= k < |vals| ==> vals[k].IntVal?)
  {
    forall k | 0 <= k < |vals| ensures vals[k] == all[n + k] {}
    if forall k :: 0 <= k < |vals| ==> vals[k].IntVal? {
      forall k | 0 <= k < |all| ensures all[k].IntVal? {
        if k >= n { assert all[k] == vals[k - n]; }
      }
    }
  }

  lemma OffsetZero(ss: seq<int>, vals: seq<Val>)
    requires |ss| == |vals| + 1 && forall k :: 0 <= k < |vals| ==> vals[k].IntVal?
    ensures Offset(ss, [IntVal(0)] + vals) == Offset(ss[1..], vals)
  {
    assert ([IntVal(0)] + vals)[1..] == vals;
  }

  lemma ParamAddress(x: A.Var, base: Option<Val>, vs: seq<Option<Val>>)
    requires x.ArrayParam? && vs != [] && |Strides(x.dims)| == |x.dims|
    ensures ApplyTo(Gep(AccessStrides(x, |vs|)), A.AllDefined([base] + vs)) == A.AddressOf(base, x.dims, vs)
  {
    DefinedAppend([base], vs);
    DefinedInts(vs);
    var dv, ss := A.AllDefined(vs), AccessStrides(x, |vs|);
    if dv.Some? && base.Some? {
      assert A.AllDefined([base]).value == [base.value];
      var all := [base.value] + dv.value;
      hide A.AllDefined, A.Ints;
      assert all[1..] == dv.value;
      if base.value.IntVal? {
        GepInts(ss, all, 1, dv.value);
        if A.AllInts(vs) && |vs| <= |x.dims| {
          StridesAreRowMajor(x.dims, A.Ints(vs), dv.value);
        }
      }
    }
  }

  // ----- Expressions -----

  lemma {:induction false} ExpRuns(w: Oracle, f: Function, e: A.Exp, s: Build, st: State) returns (st': State)
    requires Ready(s) && A.ProperExp(e) && Stands(LowerExp(e, s).0, f) && A.EvalExp(w, e, MemOf(st)).Some?
    ensures ExpRan(w, f, s, LowerExp(e, s).0, LowerExp(e, s).1, st, st', A.EvalExp(w, e, MemOf(st)).value)
    decreases e, 0
  {
    hide Ready, Stands, ExpRan, Define, MemOf, A.CallOn, A.Fetch, A.MathOn, BinaryOn, OpOf;
    var g := A.EvalExp(w, e, MemOf(st)).value;
    match e
    case Num(i) =>
      st' := st;
      RanSelf(w, f, s, Const(IntVal(i)), st, g);
    case RVal(x, idx) =>
      if x.Scalar? {
        st' := ScalarRuns(w, f, x.slot, s, st);
      } else {
        var (t, p) := LowerPointer(x, idx, s);
        PointerGrows(x, idx, s);
        if |idx| != |x.dims| {
          st' := PointerRuns(w, f, x, idx, s, st);
        } else {
          BuiltReady(s, t);
          DefineBack(t, Load(t.nextReg, Addr(p)), f);
          var st1 := PointerRuns(w, f, x, idx, s, st);
          st' := FetchRuns(w, f, s, t, p, st, st1, A.EvalPointer(w, x, idx, MemOf(st)).value);
        }
      }
    case Math(op, l, r) =>
      var (t, x) := LowerExp(l, s);
      var (u, y) := LowerExp(r, t);
      ExpGrows(l, s);
      BuiltReady(s, t);
      ExpGrows(r, t);
      DefineBothBack(s, t, u, Pure(u.nextReg, OpOf(op), [x, y]), f);
      var st1 := ExpRuns(w, f, l, s, st);
      var g1 := A.EvalExp(w, l, MemOf(st)).value;
      RanMem(w, f, s, t, x, st, st1, g1);
      var st2 := ExpRuns(w, f, r, t, st1);
      var g2 := A.EvalExp(w, r, g1.m).value;
      MathIs(op, g1.v, g2.v);
      st' := BinaryRuns(w, f, OpOf(op), s, t, u, x, y, st, st1, st2, g1, g2);
    case Neg(a) =>
      var (t, x) := LowerExp(a, s);
      ExpGrows(a, s);
      BuiltReady(s, t);
      DefineBack(t, Pure(t.nextReg, Sub, [Const(IntVal(0)), x]), f);
      var st1 := ExpRuns(w, f, a, s, st);
      st' := NegRuns(w, f, s, t, x, st, st1, A.EvalExp(w, a, MemOf(st)).value);
    case Invoke(callee, args) =>
      var (t, os) := LowerExps(args, s);
      ExpsGrow(args, s);
      BuiltReady(s, t);
      DefineBack(t, Call(t.nextReg, callee, os, true), f);
      var st1 := ExpsRun(w, f, args, s, st);
      st' := CallRuns(w, f, callee, s, t, os, st, st1, A.EvalExps(w, args, MemOf(st)).value);
    case FromBool(c) =>
      st' := CastRuns(w, f, c, s, st);
  }

  lemma DefineBack(t: Build, i: Instr, f: Function)
    requires Ready(t) && Stands(Define(t, i), f)
    ensures Stands(t, f)
  {
    hide Valid, Grown, Agrees, Define;
    EmitGrown(t, i);
    StandsBack(t, Define(t, i), {}, f);
  }

  lemma ScalarRuns(w: Oracle, f: Function, v: Slot, s: Build, st: State) returns (st': State)
    requires Ready(s) && Stands(Define(s, Load(s.nextReg, Local(v))), f)
    ensures ExpRan(w, f, s, Define(s, Load(s.nextReg, Local(v))), Reg(s.nextReg), st, st',
              A.Got(MemOf(st).slots(v), MemOf(st)))
  {
    st' := st.(env := SetReg(st.env, s.nextReg, st.slots(v)));
    DefineBack(s, Load(s.nextReg, Local(v)), f);
    GrownSelf(s);
    var g0 := A.Got(None, MemOf(st));
    hide Valid, Grown, Agrees, Define;
    var zero := Const(IntVal(0));
    RanSelf(w, f, s, zero, st, A.Got(Some(IntVal(0)), MemOf(st)));
    RanDefine(w, f, s, s, Load(s.nextReg, Local(v)), zero, st, st, st',
              A.Got(Some(IntVal(0)), MemOf(st)), A.Got(MemOf(st).slots(v), MemOf(st)));
  }

  lemma FetchRuns(w: Oracle, f: Function, s: Build, t: Build, p: Operand, st: State, st1: State,
                  g0: A.Got) returns (st': State)
    requires Ready(s) && ExpBuilt(s, t) && ExpRan(w, f, s, t, p, st, st1, g0) && A.Fetch(g0).Some?
    requires Stands(Define(t, Load(t.nextReg, Addr(p))), f)
    ensures ExpRan(w, f, s, Define(t, Load(t.nextReg, Addr(p))), Reg(t.nextReg), st, st', A.Fetch(g0).value)
  {
    var g := A.Fetch(g0).value;
    RanParts(w, f, s, t, p, st, st1, g0);
    hide Ready, ExpBuilt, ExpRan, Stands, Define, At, Reaches, Agrees;
    st' := st1.(env := SetReg(st1.env, t.nextReg, g.v));
    RanDefine(w, f, s, t, Load(t.nextReg, Addr(p)), p, st, st1, st', g0, g);
  }

  lemma PureRuns(w: Oracle, f: Function, s: Build, t: Build, op: Op, os: seq<Operand>, o: Operand,
                 st: State, st1: State, g0: A.Got, v: Option<Val>) returns (st': State)
    requires Ready(s) && ExpBuilt(s, t) && ExpRan(w, f, s, t, o, st, st1, g0) && ApplyTo(op, ReadAll(os, st1.env)) == v
    requires Stands(Define(t, Pure(t.nextReg, op, os)), f)
    ensures ExpRan(w, f, s, Define(t, Pure(t.nextReg, op, os)), Reg(t.nextReg), st, st', A.Got(v, g0.m))
  {
    RanParts(w, f, s, t, o, st, st1, g0);
    hide Ready, ExpBuilt, ExpRan, Stands, Define, At, Reaches, Agrees, ReadAll, Apply;
    st' := st1.(env := SetReg(st1.env, t.nextReg, v));
    RanDefine(w, f, s, t, Pure(t.nextReg, op, os), o, st, st1, st', g0, A.Got(v, g0.m));
  }

  lemma NegRuns(w: Oracle, f: Function, s: Build, t: Build, x: Operand, st: State, st1: State,
                g0: A.Got) returns (st': State)
    requires Ready(s) && ExpBuilt(s, t) && ExpRan(w, f, s, t, x, st, st1, g0)
    requires Stands(Define(t, Pure(t.nextReg, Sub, [Const(IntVal(0)), x])), f)
    ensures ExpRan(w, f, s, Define(t, Pure(t.nextReg, Sub, [Const(IntVal(0)), x])), Reg(t.nextReg), st, st',
                   A.Got(A.MathOn(A.SUB, Some(IntVal(0)), g0.v), g0.m))
  {
    hide *;
    RanParts(w, f, s, t, x, st, st1, g0);
    BinaryReads(Sub, Const(IntVal(0)), x, st1.env);
    ReadConst(IntVal(0), st1.env);
    MathIs(A.SUB, Some(IntVal(0)), g0.v);
    NegationIsSub();
    st' := PureRuns(w, f, s, t, Sub, [Const(IntVal(0)), x], x, st, st1, g0, A.MathOn(A.SUB, Some(IntVal(0)), g0.v));
  }

  lemma NegationIsSub()
    ensures OpOf(A.SUB) == Sub
  {
  }

  lemma ReadConst(v: Val, env: Env)
    ensures Read(Const(v), env) == Some(v)
  {
  }

  lemma RanMem(w: Oracle, f: Function, s: Build, t: Build, o: Operand, st: State, st': State, g: A.Got)
    requires ExpRan(w, f, s, t, o, st, st', g)
    ensures MemOf(st') == g.m && Stands(s, f) && Stands(t, f)
  {
  }

  lemma BothBack(s: Build, t: Build, u: Build, f: Function)
    requires ExpBuilt(s, t) && ExpBuilt(t, u) && Stands(u, f)
    ensures Stands(t, f) && Stands(s, f)
  {
    hide *;
    StandsBuilt(t, u, f);
    StandsBuilt(s, t, f);
  }

  lemma DefineBothBack(s: Build, t: Build, u: Build, i: Instr, f: Function)
    requires ExpBuilt(s, t) && ExpBuilt(t, u) && Stands(Define(u, i), f)
    ensures Stands(t, f) && Stands(u, f)
  {
    hide *;
    BuiltReady(t, u);
    DefineBack(u, i, f);
    StandsBuilt(t, u, f);
  }

  /** Both operands in order, then the operation on what they gave. */
  lemma BinaryRuns(w: Oracle, f: Function, op: Op, s: Build, t: Build, u: Build, x: Operand, y: Operand,
                   st: State, st1: State, st2: State, g1: A.Got, g2: A.Got) returns (st': State)
    requires Ready(s) && ExpBuilt(s, t) && ExpBuilt(t, u) && OperandOk(x, t)
    requires ExpRan(w, f, s, t, x, st, st1, g1) && ExpRan(w, f, t, u, y, st1, st2, g2)
    requires Stands(Define(u, Pure(u.nextReg, op, [x, y])), f)
    ensures ExpRan(w, f, s, Define(u, Pure(u.nextReg, op, [x, y])), Reg(u.nextReg), st, st',
                   A.Got(BinaryOn(op, g1.v, g2.v), g2.m))
    ensures ExpBuilt(s, u)
  {
    hide *;
    BuiltSeq(s, t, u);
    RanThen(w, f, s, t, u, x, y, st, st1, st2, g1, g2);
    RanParts(w, f, s, u, y, st, st2, g2);
    BinaryReads(op, x, y, st2.env);
    st' := PureRuns(w, f, s, u, op, [x, y], y, st, st2, g2, BinaryOn(op, g1.v, g2.v));
  }

  /** The run has evaluated a list of expressions. */
  ghost predicate ExpsRan(w: Oracle, f: Function, s: Build, t: Build, os: seq<Operand>, st: State, st': State,
                          g: A.GotAll) {
    && Stands(s, f) && Stands(t, f) && Reaches(w, f, At(w, f, s, st), At(w, f, t, st'))
    && MemOf(st') == g.m && ReadsAs(os, st'.env, g.vs) && Kept(st, st', s.nextReg)
  }

  lemma ExpsRanParts(w: Oracle, f: Function, s: Build, t: Build, os: seq<Operand>, st: State, st': State, g: A.GotAll)
    requires ExpsRan(w, f, s, t, os, st, st', g)
    ensures ExpRan(w, f, s, t, Const(IntVal(0)), st, st', A.Got(Some(IntVal(0)), g.m))
    ensures ReadsAs(os, st'.env, g.vs) && MemOf(st') == g.m && Stands(s, f) && Stands(t, f) && Kept(st, st', s.nextReg)
  {
  }

  lemma ExpsRanNone(w: Oracle, f: Function, s: Build, st: State)
    requires Stands(s, f)
    ensures ExpsRan(w, f, s, s, [], st, st, A.GotAll([], MemOf(st)))
  {
    ReachesSelf(w, f, At(w, f, s, st));
  }

  lemma ExpsRanMore(w: Oracle, f: Function, s: Build, t: Build, u: Build, o: Operand, os: seq<Operand>,
                    st: State, st1: State, st2: State, g1: A.Got, g2: A.GotAll)
    requires ExpBuilt(s, t) && ExpBuilt(t, u) && OperandOk(o, t)
    requires ExpRan(w, f, s, t, o, st, st1, g1) && ExpsRan(w, f, t, u, os, st1, st2, g2)
    ensures ExpsRan(w, f, s, u, [o] + os, st, st2, A.GotAll([g1.v] + g2.vs, g2.m))
  {
    hide *;
    ExpsRanParts(w, f, t, u, os, st1, st2, g2);
    RanThen(w, f, s, t, u, o, Const(IntVal(0)), st, st1, st2, g1, A.Got(Some(IntVal(0)), g2.m));
    RanParts(w, f, s, u, Const(IntVal(0)), st, st2, A.Got(Some(IntVal(0)), g2.m));
    ReadsMore(o, os, st2.env, g1.v, g2.vs);
    ExpsRanBy(w, f, s, u, [o] + os, st, st2, A.GotAll([g1.v] + g2.vs, g2.m));
  }

  lemma ReadsMore(o: Operand, os: seq<Operand>, env: Env, v: Option<Val>, vs: seq<Option<Val>>)
    requires Read(o, env) == v && ReadsAs(os, env, vs)
    ensures ReadsAs([o] + os, env, [v] + vs)
  {
  }

  lemma ExpsRanBy(w: Oracle, f: Function, s: Build, t: Build, os: seq<Operand>, st: State, st': State, g: A.GotAll)
    requires Stands(s, f) && Stands(t, f) && Reaches(w, f, At(w, f, s, st), At(w, f, t, st'))
    requires MemOf(st') == g.m && ReadsAs(os, st'.env, g.vs) && Kept(st, st', s.nextReg)
    ensures ExpsRan(w, f, s, t, os, st, st', g)
  {
  }

  lemma {:induction false} ExpsRun(w: Oracle, f: Function, es: seq<A.Exp>, s: Build, st: State) returns (st': State)
    requires Ready(s) && A.ProperExps(es) && Stands(LowerExps(es, s).0, f) && A.EvalExps(w, es, MemOf(st)).Some?
    ensures ExpsRan(w, f, s, LowerExps(es, s).0, LowerExps(es, s).1, st, st', A.EvalExps(w, es, MemOf(st)).value)
    decreases es, 0
  {
    hide Ready, Stands, ExpRan, ExpsRan, MemOf;
    if es == [] {
      st' := st;
      ExpsRanNone(w, f, s, st);
    } else {
      var (t, o) := LowerExp(es[0], s);
      var (u, os) := LowerExps(es[1..], t);
      ExpGrows(es[0], s);
      BuiltReady(s, t);
      ExpsGrow(es[1..], t);
      BothBack(s, t, u, f);
      var st1 := ExpRuns(w, f, es[0], s, st);
      var g1 := A.EvalExp(w, es[0], MemOf(st)).value;
      RanMem(w, f, s, t, o, st, st1, g1);
      st' := ExpsRun(w, f, es[1..], t, st1);
      ExpsRanMore(w, f, s, t, u, o, os, st, st1, st', g1, A.EvalExps(w, es[1..], g1.m).value);
    }
  }

  lemma CallRuns(w: Oracle, f: Function, callee: nat, s: Build, t: Build, os: seq<Operand>, st: State, st1: State,
                 g: A.GotAll)
    returns (st': State)
    requires Ready(s) && ExpBuilt(s, t) && ExpsRan(w, f, s, t, os, st, st1, g)
    requires A.CallOn(w, callee, A.AllDefined(g.vs), g.m).Some?
    requires Stands(Define(t, Call(t.nextReg, callee, os, true)), f)
    ensures ExpRan(w, f, s, Define(t, Call(t.nextReg, callee, os, true)), Reg(t.nextReg), st, st',
                   A.CallOn(w, callee, A.AllDefined(g.vs), g.m).value)
  {
    ExpsRanParts(w, f, s, t, os, st, st1, g);
    AllRead(os, st1.env, g.vs);
    hide Ready, ExpBuilt, ExpRan, ExpsRan, Stands, Define, At, Reaches, Agrees, ReadAll, A.AllDefined, ReadsAs;
    var i := Call(t.nextReg, callee, os, true);
    st' := ExecInstr(w, i, st1).value;
    var zero := Const(IntVal(0));
    RanDefine(w, f, s, t, i, zero, st, st1, st', A.Got(Some(IntVal(0)), g.m),
        A.CallOn(w, callee, A.AllDefined(g.vs), g.m).value);
  }

  /** The address of an array parameter is loaded first. */
  lemma BaseRuns(w: Oracle, f: Function, x: A.Var, s: Build, st: State) returns (st': State)
    requires Ready(s) && !x.Scalar?
    requires Stands(if x.Array? then s else Define(s, Load(s.nextReg, Local(x.slot))), f)
    ensures var s1 := if x.Array? then s else Define(s, Load(s.nextReg, Local(x.slot)));
            && ExpRan(w, f, s, s1, BaseOperand(x, s.nextReg), st, st', A.Got(A.Base(x, MemOf(st)), MemOf(st)))
            && ExpBuilt(s, s1) && OperandOk(BaseOperand(x, s.nextReg), s1)
  {
    hide Ready, ExpBuilt, ExpRan, Stands, Define;
    if x.Array? {
      st' := st;
      BuiltSelf(s);
      RanSelf(w, f, s, Const(IntVal(x.base)), st, A.Got(A.Base(x, MemOf(st)), MemOf(st)));
    } else {
      BuiltSelf(s);
      DefineBuilt(s, s, Load(s.nextReg, Local(x.slot)));
      st' := ScalarRuns(w, f, x.slot, s, st);
    }
  }

  lemma {:induction false} PointerRuns(w: Oracle, f: Function, x: A.Var, idx: seq<A.Exp>, s: Build,
                                       st: State) returns (st': State)
    requires Ready(s) && !x.Scalar? && A.ProperExps(idx)
    requires Stands(LowerPointer(x, idx, s).0, f) && A.EvalPointer(w, x, idx, MemOf(st)).Some?
    ensures ExpRan(w, f, s, LowerPointer(x, idx, s).0, LowerPointer(x, idx, s).1, st, st',
              A.EvalPointer(w, x, idx, MemOf(st)).value)
    decreases idx, 1
  {
    hide Ready, Stands, ExpBuilt, ExpRan, ExpsRan, Define, MemOf, A.Base, BaseOperand, AccessStrides, AccessOperands,
        LowerExps, A.EvalExps, A.AddressOf, OperandOk;
    var s1 := if x.Array? then s else Define(s, Load(s.nextReg, Local(x.slot)));
    var (t, os) := LowerExps(idx, s1);
    var base := BaseOperand(x, s.nextReg);
    PointerBack(x, idx, s, f);
    var st1 := BaseRuns(w, f, x, s, st);
    BuiltReady(s, s1);
    var g0 := A.Got(A.Base(x, MemOf(st)), MemOf(st));
    RanMem(w, f, s, s1, base, st, st1, g0);
    var st2 := ExpsRun(w, f, idx, s1, st1);
    var vs := A.EvalExps(w, idx, MemOf(st)).value;
    ExpsGrow(idx, s1);
    PointerBase(w, f, s, s1, t, base, os, st, st1, st2, g0, vs);
    if idx == [] {
      NoIndices(w, s1, MemOf(st), x.dims, g0.v);
      st' := st2;
    } else {
      BuiltSeq(s, s1, t);
      IndexCount(w, idx, s1, MemOf(st));
      AccessValue(x, s.nextReg, os, st2.env, g0.v, vs.vs);
      st' := PureRuns(w, f, s, t, Gep(AccessStrides(x, |idx|)), AccessOperands(x, s.nextReg, os), base, st, st2,
                      A.Got(g0.v, vs.m), A.AddressOf(g0.v, x.dims, vs.vs));
    }
  }

  lemma {:induction false} IndexCount(w: Oracle, es: seq<A.Exp>, s: Build, m: A.Mem)
    requires A.EvalExps(w, es, m).Some?
    ensures |A.EvalExps(w, es, m).value.vs| == |es|
  {
    if es != [] {
      var x := A.EvalExp(w, es[0], m);
      IndexCount(w, es[1..], s, x.value.m);
    }
  }

  lemma NoIndices(w: Oracle, s: Build, m: A.Mem, dims: seq<nat>, base: Option<Val>)
    ensures LowerExps([], s) == (s, []) && A.EvalExps(w, [], m) == Some(A.GotAll([], m))
            && A.AddressOf(base, dims, []) == base
  {
  }

  lemma PointerBack(x: A.Var, idx: seq<A.Exp>, s: Build, f: Function)
    requires Ready(s) && !x.Scalar? && A.ProperExps(idx) && Stands(LowerPointer(x, idx, s).0, f)
    ensures var s1 := if x.Array? then s else Define(s, Load(s.nextReg, Local(x.slot)));
            Ready(s1) && Stands(LowerExps(idx, s1).0, f) && Stands(s1, f)
  {
    hide Ready, Stands, ExpBuilt, Define, AccessStrides, AccessOperands, BaseOperand, LowerExps;
    BuiltSelf(s);
    var s1 := if x.Array? then s else Define(s, Load(s.nextReg, Local(x.slot)));
    if x.ArrayParam? { DefineBuilt(s, s, Load(s.nextReg, Local(x.slot))); }
    BuiltReady(s, s1);
    ExpsGrow(idx, s1);
    var (t, os) := LowerExps(idx, s1);
    BuiltReady(s1, t);
    if idx != [] {
      DefineBack(t, Pure(t.nextReg, Gep(AccessStrides(x, |idx|)), AccessOperands(x, s.nextReg, os)), f);
    }
    StandsBuilt(s1, t, f);
  }

  /** The address of the array is still at hand when the indices have been evaluated. */
  lemma PointerBase(w: Oracle, f: Function, s: Build, s1: Build, t: Build, base: Operand, os: seq<Operand>,
                    st: State, st1: State, st2: State, g0: A.Got, vs: A.GotAll)
    requires ExpBuilt(s, s1) && ExpRan(w, f, s, s1, base, st, st1, g0) && ExpsRan(w, f, s1, t, os, st1, st2, vs)
    requires OperandOk(base, s1)
    ensures ExpRan(w, f, s, t, base, st, st2, A.Got(g0.v, vs.m)) && Read(base, st2.env) == g0.v
            && ReadsAs(os, st2.env, vs.vs)
  {
    hide *;
    ExpsRanParts(w, f, s1, t, os, st1, st2, vs);
    RanParts(w, f, s, s1, base, st, st1, g0);
    RanThen(w, f, s, s1, t, base, Const(IntVal(0)), st, st1, st2, g0, A.Got(Some(IntVal(0)), vs.m));
    RanOther(w, f, s, t, Const(IntVal(0)), base, st, st2, A.Got(Some(IntVal(0)), vs.m), g0.v);
  }

  lemma RanOther(w: Oracle, f: Function, s: Build, t: Build, o: Operand, o': Operand, st: State, st': State, g: A.Got,
                 v: Option<Val>)
    requires ExpRan(w, f, s, t, o, st, st', g) && Read(o', st'.env) == v
    ensures ExpRan(w, f, s, t, o', st, st', A.Got(v, g.m))
  {
  }

  // ----- Conditions -----

  /** The run has decided a condition and is on the edge to the matching target. */
  ghost predicate CondRan(w: Oracle, f: Function, s: Build, t: Build, st: State, from: BlockId, to: BlockId,
                          st': State, m: A.Mem) {
    && Stands(s, f) && Reaches(w, f, At(w, f, s, st), Edge(from, to, st'))
    && MemOf(st') == m && Kept(st, st', s.nextReg) && EdgeIn(t, from, to)
  }

  lemma CondRanParts(w: Oracle, f: Function, s: Build, t: Build, st: State, from: BlockId, to: BlockId, st': State,
                     m: A.Mem)
    requires CondRan(w, f, s, t, st, from, to, st', m)
    ensures Stands(s, f) && s.cur in s.blocks && Agrees(s, f) && Reaches(w, f, At(w, f, s, st), Edge(from, to, st'))
    ensures MemOf(st') == m && Kept(st, st', s.nextReg) && EdgeIn(t, from, to)
  {
  }

  ghost predicate Leads(w: Oracle, f: Function, s: Build, t: Build, bbt: BlockId, bbf: BlockId, st: State,
                        from: BlockId, st': State, ch: A.Chosen) {
    CondRan(w, f, s, t, st, from, if ch.b then bbt else bbf, st', ch.m)
  }

  lemma BranchRuns(w: Oracle, f: Function, s: Build, t: Build, x: BlockId, o: Operand, st: State, st1: State, g: A.Got)
    requires ExpBuilt(s, t) && ExpRan(w, f, s, t, o, st, st1, g) && x in t.blocks && Stands(Branch(t, x), f)
    ensures CondRan(w, f, s, Branch(t, x), st, t.cur, x, st1, g.m)
  {
    BranchGrown(t, x);
    hide Valid, Grown;
    LeaveRuns(w, f, t, Branch(t, x), st1);
  }

  lemma CondBranchRuns(w: Oracle, f: Function, s: Build, t: Build, bbt: BlockId, bbf: BlockId, o: Operand, st: State,
                       st1: State, g: A.Got)
    requires ExpBuilt(s, t) && ExpRan(w, f, s, t, o, st, st1, g) && bbt in t.blocks && bbf in t.blocks
    requires g.v.Some? && g.v.value.BoolVal? && Stands(CondBranch(t, o, bbt, bbf), f)
    ensures CondRan(w, f, s, CondBranch(t, o, bbt, bbf), st, t.cur, if g.v.value.b then bbt else bbf, st1, g.m)
  {
    CondBranchGrown(t, o, bbt, bbf);
    hide Valid, Grown;
    LeaveRuns(w, f, t, CondBranch(t, o, bbt, bbf), st1);
  }

  /** Comparing two operands and branching on the outcome. */
  lemma CompareRuns(w: Oracle, f: Function, op: Op, s: Build, t: Build, u: Build, x: Operand, y: Operand, bbt: BlockId,
                    bbf: BlockId,
                    st: State, st1: State, st2: State, g1: A.Got, g2: A.Got) returns (from: BlockId, st': State)
    requires Ready(s) && ExpBuilt(s, t) && ExpBuilt(t, u) && OperandOk(x, t) && bbt in s.blocks && bbf in s.blocks
    requires ExpRan(w, f, s, t, x, st, st1, g1) && ExpRan(w, f, t, u, y, st1, st2, g2)
    requires Stands(Compare(op, x, y, u, bbt, bbf), f)
    requires Decided(BinaryOn(op, g1.v, g2.v), g2.m).Some?
    ensures Leads(w, f, s, Compare(op, x, y, u, bbt, bbf), bbt, bbf, st, from, st',
              Decided(BinaryOn(op, g1.v, g2.v), g2.m).value)
  {
    hide Ready, ExpBuilt, ExpRan, Stands, CondBranch, Define, CondRan, BinaryOn, Valid, Grown;
    var i := Pure(u.nextReg, op, [x, y]);
    var u1 := Define(u, i);
    BuiltSeq(s, t, u);
    DefineBuilt(s, u, i);
    TargetsStay(s, u1, bbt, bbf);
    CondBranchBack(u1, Reg(u.nextReg), bbt, bbf, f);
    st' := BinaryRuns(w, f, op, s, t, u, x, y, st, st1, st2, g1, g2);
    from := u1.cur;
    CondBranchRuns(w, f, s, u1, bbt, bbf, Reg(u.nextReg), st, st', A.Got(BinaryOn(op, g1.v, g2.v), g2.m));
  }

  lemma TargetsStay(s: Build, t: Build, bbt: BlockId, bbf: BlockId)
    requires ExpBuilt(s, t) && bbt in s.blocks && bbf in s.blocks
    ensures bbt in t.blocks && bbf in t.blocks && Ready(t)
  {
  }

  lemma CondBranchBack(t: Build, o: Operand, bbt: BlockId, bbf: BlockId, f: Function)
    requires Ready(t) && bbt in t.blocks && bbf in t.blocks && Stands(CondBranch(t, o, bbt, bbf), f)
    ensures Stands(t, f)
  {
    hide Valid, Grown, Agrees, CondBranch;
    CondBranchGrown(t, o, bbt, bbf);
    StandsBack(t, CondBranch(t, o, bbt, bbf), {}, f);
  }

  lemma CompareBack(op: Op, x: Operand, y: Operand, s: Build, t: Build, u: Build, bbt: BlockId, bbf: BlockId,
                    f: Function)
    requires ExpBuilt(s, t) && ExpBuilt(t, u) && bbt in s.blocks && bbf in s.blocks
             && Stands(Compare(op, x, y, u, bbt, bbf), f)
    ensures Stands(u, f) && Stands(t, f)
  {
    hide Ready, ExpBuilt, Stands, CondBranch, Define;
    BuiltSeq(s, t, u);
    var i := Pure(u.nextReg, op, [x, y]);
    DefineBuilt(s, u, i);
    TargetsStay(s, Define(u, i), bbt, bbf);
    CondBranchBack(Define(u, i), Reg(u.nextReg), bbt, bbf, f);
    DefineBothBack(s, t, u, i, f);
  }

  lemma ConstRan(w: Oracle, f: Function, t: Build, v: Val, st: State)
    requires Ready(t) && Stands(t, f)
    ensures ExpBuilt(t, t) && ExpRan(w, f, t, t, Const(v), st, st, A.Got(Some(v), MemOf(st)))
  {
    hide Stands;
    BuiltSelf(t);
    RanSelf(w, f, t, Const(v), st, A.Got(Some(v), MemOf(st)));
  }

  lemma {:induction false} CondRuns(w: Oracle, f: Function, c: A.Cond, s: Build, bbt: BlockId, bbf: BlockId, st: State)
    returns (from: BlockId, st': State)
    requires Ready(s) && A.ProperCond(c) && bbt in s.blocks && bbf in s.blocks
    requires Stands(LowerCond(c, s, bbt, bbf), f) && A.EvalCond(w, c, MemOf(st)).Some?
    ensures Leads(w, f, s, LowerCond(c, s, bbt, bbf), bbt, bbf, st, from, st', A.EvalCond(w, c, MemOf(st)).value)
    decreases c, 0
  {
    hide Ready, Stands, ExpBuilt, ExpRan, MemOf, CondRan, Compare, BinaryOn, Decided, A.Decide, A.RelOn, A.EqualOn,
        Branch;
    match c
    case Truth(b) =>
      from, st' := TruthRuns(w, f, s, if b then bbt else bbf, st);
    case NonZero(e) =>
      var (t, x) := LowerExp(e, s);
      ExpGrows(e, s);
      BuiltReady(s, t);
      BuiltSelf(t);
      CompareBack(Ne, x, Const(IntVal(0)), s, t, t, bbt, bbf, f);
      var st1 := ExpRuns(w, f, e, s, st);
      var g1 := A.EvalExp(w, e, MemOf(st)).value;
      ConstRan(w, f, t, IntVal(0), st1);
      RanMem(w, f, s, t, x, st, st1, g1);
      EqualIs(false, g1.v, Some(IntVal(0)), g1.m);
      from, st' := CompareRuns(w, f, Ne, s, t, t, x, Const(IntVal(0)), bbt, bbf, st, st1, st1, g1,
          A.Got(Some(IntVal(0)), g1.m));
    case Logic(isOr, cs) =>
      from, st' := LogicRuns(w, f, isOr, cs, s, bbt, bbf, st);
    case Equal(same, l, r) =>
      var g1 := A.EvalExp(w, l, MemOf(st)).value;
      var g2 := A.EvalExp(w, r, g1.m).value;
      EqualIs(same, g1.v, g2.v, g2.m);
      from, st' := CompareBoth(w, f, if same then Eq else Ne, l, r, c, s, bbt, bbf, st);
    case Relation(op, l, r) =>
      var g1 := A.EvalExp(w, l, MemOf(st)).value;
      var g2 := A.EvalExp(w, r, g1.m).value;
      RelIs(op, g1.v, g2.v, g2.m);
      from, st' := CompareBoth(w, f, RelOf(op), l, r, c, s, bbt, bbf, st);
    case Not(a) =>
      from, st' := CondRuns(w, f, a, s, bbf, bbt, st);
  }

  lemma {:induction false} CompareBoth(w: Oracle, f: Function, op: Op, l: A.Exp, r: A.Exp, c: A.Cond,
                                       s: Build, bbt: BlockId, bbf: BlockId, st: State)
    returns (from: BlockId, st': State)
    requires (c.Equal? && c.l == l && c.r == r) || (c.Relation? && c.l == l && c.r == r)
    requires Ready(s) && A.ProperExp(l) && A.ProperExp(r) && bbt in s.blocks && bbf in s.blocks
    requires var (t, x) := LowerExp(l, s);
             var (u, y) := LowerExp(r, t);
             Stands(Compare(op, x, y, u, bbt, bbf), f)
    requires var x := A.EvalExp(w, l, MemOf(st));
             && x.Some? && A.EvalExp(w, r, x.value.m).Some?
             && Decided(BinaryOn(op, x.value.v, A.EvalExp(w, r, x.value.m).value.v),
                 A.EvalExp(w, r, x.value.m).value.m).Some?
    ensures var (t, x) := LowerExp(l, s);
            var (u, y) := LowerExp(r, t);
            var g1 := A.EvalExp(w, l, MemOf(st)).value;
            var g2 := A.EvalExp(w, r, g1.m).value;
            Leads(w, f, s, Compare(op, x, y, u, bbt, bbf), bbt, bbf, st, from, st',
                Decided(BinaryOn(op, g1.v, g2.v), g2.m).value)
    decreases c, -1
  {
    hide *;
    var (t, x) := LowerExp(l, s);
    var (u, y) := LowerExp(r, t);
    ExpGrows(l, s);
    BuiltReady(s, t);
    ExpGrows(r, t);
    CompareBack(op, x, y, s, t, u, bbt, bbf, f);
    var st1 := ExpRuns(w, f, l, s, st);
    var g1 := A.EvalExp(w, l, MemOf(st)).value;
    RanMem(w, f, s, t, x, st, st1, g1);
    var st2 := ExpRuns(w, f, r, t, st1);
    from, st' := CompareRuns(w, f, op, s, t, u, x, y, bbt, bbf, st, st1, st2, g1, A.EvalExp(w, r, g1.m).value);
  }

  lemma TruthRuns(w: Oracle, f: Function, s: Build, x: BlockId, st: State) returns (from: BlockId, st': State)
    requires Ready(s) && x in s.blocks && Stands(Branch(s, x), f)
    ensures CondRan(w, f, s, Branch(s, x), st, from, x, st', MemOf(st))
  {
    BranchGrown(s, x);
    hide Valid, Grown, Agrees, Branch;
    StandsBack(s, Branch(s, x), {}, f);
    ConstRan(w, f, s, IntVal(0), st);
    BranchRuns(w, f, s, s, x, Const(IntVal(0)), st, st, A.Got(Some(IntVal(0)), MemOf(st)));
    from, st' := s.cur, st;
  }

  /** Entering a block that was just started. */
  lemma EnterNew(w: Oracle, f: Function, t: Build, from: BlockId, st: State) returns (st': State)
    requires Stands(t, f) && t.blocks[t.cur] == EMPTY
    ensures Step(w, f, Edge(from, t.cur, st)) == At(w, f, t, st')
            && Reaches(w, f, Edge(from, t.cur, st), At(w, f, t, st'))
    ensures MemOf(st') == MemOf(st) && forall n :: Kept(st, st', n)
  {
    st' := st.(env := EnterEnv([], from, st.env));
    EnterRuns(w, f, t, from, st);
    ReachesStep(w, f, Edge(from, t.cur, st));
  }

  lemma CreateAt(w: Oracle, f: Function, s: Build, st: State)
    requires Ready(s) && Stands(Create(s), f)
    ensures Stands(s, f) && s.cur in s.blocks && Create(s).cur in Create(s).blocks
            && At(w, f, s, st) == At(w, f, Create(s), st)
  {
    CreateGrown(s);
    hide Valid, Grown;
    StandsBack(s, Create(s), {s.nextBlock}, f);
  }

  // ----- Short circuit -----

  /** What is left of a logical expression once its first operand has not decided. */
  lemma LogicRest(isOr: bool, cs: seq<A.Cond>, s: Build, t: Build, bbt: BlockId, bbf: BlockId, f: Function)
    requires Ready(s) && |cs| > 1 && A.ProperConds(cs) && bbt in s.blocks && bbf in s.blocks && CondBuilt(Create(s), t)
    requires Stands(LowerLogic(isOr, cs[1..], MoveTo(t, s.nextBlock), bbt, bbf), f)
    ensures var u := MoveTo(t, s.nextBlock);
            && Ready(u) && Grown(s, u, {}) && bbt in u.blocks && bbf in u.blocks && u.cur == s.nextBlock
                && u.blocks == t.blocks && u.cur in u.blocks
            && u.blocks[u.cur] == EMPTY && CondBuilt(u, LowerLogic(isOr, cs[1..], u, bbt, bbf)) && Stands(u, f)
                && Stands(t, f)
            && s.nextReg <= u.nextReg
  {
    var u := MoveTo(t, s.nextBlock);
    LogicMoves(s, t, s.nextBlock);
    hide Valid, Agrees;
    LogicBack(isOr, cs[1..], u, bbt, bbf, f);
    StandsMove(t, s.nextBlock, f);
  }

  lemma LogicBack(isOr: bool, cs: seq<A.Cond>, u: Build, bbt: BlockId, bbf: BlockId, f: Function)
    requires Ready(u) && cs != [] && A.ProperConds(cs) && bbt in u.blocks && bbf in u.blocks
    requires Stands(LowerLogic(isOr, cs, u, bbt, bbf), f)
    ensures CondBuilt(u, LowerLogic(isOr, cs, u, bbt, bbf)) && Stands(u, f)
  {
    hide *;
    LogicGrows(isOr, cs, u, bbt, bbf);
    CondBack(u, LowerLogic(isOr, cs, u, bbt, bbf), f);
  }

  lemma CondBack(s: Build, t: Build, f: Function)
    requires CondBuilt(s, t) && Stands(t, f)
    ensures Stands(s, f)
  {
    hide Agrees, Valid, Grown;
    StandsBack(s, t, {}, f);
  }

  /** The first operand decided: the edge is there in what is built in the end. */
  lemma LogicDecided(w: Oracle, f: Function, s: Build, t: Build, u: Build, v: Build, st: State, from: BlockId,
                     to: BlockId, st': State, m: A.Mem)
    requires Ready(s) && CondRan(w, f, Create(s), t, st, from, to, st', m) && u.blocks == t.blocks && CondBuilt(u, v)
    ensures CondRan(w, f, s, v, st, from, to, st', m)
  {
    CreateAt(w, f, s, st);
    hide Valid, Agrees, At;
    assert EdgeIn(u, from, to);
    EdgeStays(u, v, {}, from, to);
  }

  /** The first operand did not decide: the next one is evaluated in its own block. */
  lemma LogicGoesOn(w: Oracle, f: Function, s: Build, t: Build, u: Build, v: Build,
                    st: State, from1: BlockId, st1: State, m1: A.Mem, st2: State, from: BlockId, to: BlockId,
                        st': State, m: A.Mem)
    requires Ready(s) && CondRan(w, f, Create(s), t, st, from1, u.cur, st1, m1)
    requires Stands(u, f) && Reaches(w, f, Edge(from1, u.cur, st1), At(w, f, u, st2)) && Kept(st1, st2, s.nextReg)
    requires CondRan(w, f, u, v, st2, from, to, st', m) && s.nextReg <= u.nextReg
    ensures CondRan(w, f, s, v, st, from, to, st', m)
  {
    CreateAt(w, f, s, st);
    hide Valid, Agrees, At, EdgeIn;
    ReachesTrans(w, f, At(w, f, s, st), Edge(from1, u.cur, st1), At(w, f, u, st2));
    ReachesTrans(w, f, At(w, f, s, st), At(w, f, u, st2), Edge(from, to, st'));
  }

  lemma {:induction false} LogicRuns(w: Oracle, f: Function, isOr: bool, cs: seq<A.Cond>, s: Build, bbt: BlockId,
                                     bbf: BlockId, st: State)
    returns (from: BlockId, st': State)
    requires Ready(s) && A.ProperConds(cs) && bbt in s.blocks && bbf in s.blocks
    requires Stands(LowerLogic(isOr, cs, s, bbt, bbf), f) && A.EvalLogic(w, isOr, cs, MemOf(st)).Some?
    ensures Leads(w, f, s, LowerLogic(isOr, cs, s, bbt, bbf), bbt, bbf, st, from, st',
              A.EvalLogic(w, isOr, cs, MemOf(st)).value)
    decreases cs, 0
  {
    hide Ready, Stands, CondBuilt, CondRan, MemOf, Create, MoveTo, Grown, Reaches, Kept, At;
    if |cs| == 1 {
      from, st' := CondRuns(w, f, cs[0], s, bbt, bbf, st);
    } else {
      var rhs := s.nextBlock;
      var x, y := if isOr then bbt else rhs, if isOr then rhs else bbf;
      CreatedReady(s);
      var t := LowerCond(cs[0], Create(s), x, y);
      CondGrows(cs[0], Create(s), x, y);
      LogicRest(isOr, cs, s, t, bbt, bbf, f);
      var u := MoveTo(t, rhs);
      var v := LowerLogic(isOr, cs[1..], u, bbt, bbf);
      var from1, st1 := CondRuns(w, f, cs[0], Create(s), x, y, st);
      var ch := A.EvalCond(w, cs[0], MemOf(st)).value;
      if ch.b == isOr {
        from, st' := from1, st1;
        LogicDecided(w, f, s, t, u, v, st, from, if ch.b then bbt else bbf, st', ch.m);
      } else {
        CondRanMem(w, f, Create(s), t, st, from1, rhs, st1, ch.m);
        var st2 := EnterRest(w, f, u, from1, st1, s.nextReg);
        from, st' := LogicRuns(w, f, isOr, cs[1..], u, bbt, bbf, st2);
        var ch2 := A.EvalLogic(w, isOr, cs[1..], ch.m).value;
        LogicGoesOn(w, f, s, t, u, v, st, from1, st1, ch.m, st2, from, if ch2.b then bbt else bbf, st', ch2.m);
      }
    }
  }

  lemma CondRanMem(w: Oracle, f: Function, s: Build, t: Build, st: State, from: BlockId, to: BlockId, st': State,
                   m: A.Mem)
    requires CondRan(w, f, s, t, st, from, to, st', m)
    ensures MemOf(st') == m && EdgeIn(t, from, to) && Kept(st, st', s.nextReg) && Stands(s, f)
  {
  }

  lemma EnterRest(w: Oracle, f: Function, u: Build, from: BlockId, st: State, n: nat) returns (st': State)
    requires u.cur in u.blocks && Stands(u, f) && u.blocks[u.cur] == EMPTY
    ensures Stands(u, f) && u.cur in u.blocks && Agrees(u, f) && Reaches(w, f, Edge(from, u.cur, st), At(w, f, u, st'))
    ensures MemOf(st') == MemOf(st) && Kept(st, st', n)
  {
    hide At, Reaches, Kept;
    st' := EnterNew(w, f, u, from, st);
  }

  // ----- A condition used as a number -----

  /** The phi of a cast takes zero from the blocks that found the condition false, one from `bbt`. */
  lemma {:induction false} CastChoice(preds: seq<BlockId>, bbt: BlockId, from: BlockId)
    ensures PhiChoice(CastPairs(preds, bbt), from) ==
            if from in preds then Some(Const(IntVal(0))) else if from == bbt then Some(Const(IntVal(1))) else None
  {
    if preds != [] {
      CastChoice(preds[1..], bbt, from);
      assert CastPairs(preds, bbt)[1..] == CastPairs(preds[1..], bbt);
      assert from in preds <==> from == preds[0] || from in preds[1..];
    }
  }

  /** The finished function agrees with what was built before the phi. */
  lemma CastBack(s: Build, t: Build, pairs: seq<(Operand, BlockId)>, f: Function)
    requires var u := MoveTo(Branch(MoveTo(t, s.nextBlock), s.nextBlock + 1), s.nextBlock + 1);
             CastMoves(s, t, u) && Stands(AddPhi(u, pairs), f)
    requires Valid(t) && !Open(t)
    ensures Stands(Branch(MoveTo(t, s.nextBlock), s.nextBlock + 1), f) && Stands(MoveTo(t, s.nextBlock), f)
            && Stands(t, f)
  {
    var bbt, bbf := s.nextBlock, s.nextBlock + 1;
    var t1 := MoveTo(t, bbt);
    assert bbf in t1.blocks;
    BranchGrown(t1, bbf);
    var t2 := Branch(t1, bbf);
    PhiBack(t2, bbf, pairs, f);
    hide Valid, Agrees, Branch;
    StandsBack(t1, t2, {}, f);
    StandsMove(t, bbt, f);
  }

  lemma PhiBack(t: Build, b: BlockId, pairs: seq<(Operand, BlockId)>, f: Function)
    requires t.cur in t.blocks && t.blocks[t.cur].term.Some? && b in t.blocks && t.blocks[b] == EMPTY && b != t.cur
    requires Stands(AddPhi(MoveTo(t, b), pairs), f)
    ensures Stands(t, f)
  {
    forall c | c in t.blocks && c != b ensures AddPhi(MoveTo(t, b), pairs).blocks[c] == t.blocks[c] {}
  }

  /** Entering the block of the phi sets its register. */
  lemma EnterPhi(w: Oracle, f: Function, u: Build, pairs: seq<(Operand, BlockId)>, from: BlockId, v: Val, st: State,
                 n: nat)
    returns (st': State)
    requires u.cur in u.blocks && u.blocks[u.cur] == EMPTY && Stands(AddPhi(u, pairs), f)
             && PhiChoice(pairs, from) == Some(Const(v))
    requires n <= u.nextReg
    ensures var t := AddPhi(u, pairs);
            Reaches(w, f, Edge(from, u.cur, st), At(w, f, t, st')) && MemOf(st') == MemOf(st) && Kept(st, st', n)
            && st'.env(u.nextReg) == Some(v)
  {
    var t := AddPhi(u, pairs);
    var p := Phi(u.nextReg, pairs);
    assert t.blocks[t.cur].phis == [p];
    st' := st.(env := EnterEnv([p], from, st.env));
    EnterRuns(w, f, t, from, st);
    ReachesStep(w, f, Edge(from, u.cur, st));
    hide EnterEnv, Agrees, PhiChoice;
    PhiEnv(p, from, st.env);
  }

  lemma PhiEnv(p: Phi, from: BlockId, env: Env)
    ensures forall r: Reg :: EnterEnv([p], from, env)(r) == if r == p.dst then PhiValue(p, from, env) else env(r)
  {
    forall r: Reg ensures FindPhi([p], r) == if r == p.dst then Some(p) else None {
      assert [p][1..] == [];
    }
  }

  /** What the cast needs to know about the two edges out of its condition. */
  lemma CastEdges(s: Build, t: Build, from: BlockId)
    requires Valid(t) && s.nextBlock in t.blocks && t.blocks[s.nextBlock] == EMPTY
    ensures EdgeIn(t, from, s.nextBlock + 1) ==> from in Preds(t, s.nextBlock + 1)
    ensures s.nextBlock !in Preds(t, s.nextBlock + 1)
  {
  }

  /** The condition was true: through the block of true to the phi. */
  lemma CastTrue(w: Oracle, f: Function, s: Build, t: Build, from: BlockId, st: State) returns (st': State)
    requires var u := MoveTo(Branch(MoveTo(t, s.nextBlock), s.nextBlock + 1), s.nextBlock + 1);
             CastMoves(s, t, u) && Stands(AddPhi(u, CastPairs(Preds(t, s.nextBlock + 1), s.nextBlock)), f)
    requires Valid(t) && !Open(t) && s.nextReg <= t.nextReg
    ensures var u := MoveTo(Branch(MoveTo(t, s.nextBlock), s.nextBlock + 1), s.nextBlock + 1);
            var v := AddPhi(u, CastPairs(Preds(t, s.nextBlock + 1), s.nextBlock));
            v.cur in v.blocks && Reaches(w, f, Edge(from, s.nextBlock, st), At(w, f, v, st'))
                && MemOf(st') == MemOf(st) && Kept(st, st', s.nextReg)
            && st'.env(u.nextReg) == Some(IntVal(1))
  {
    var bbt, bbf := s.nextBlock, s.nextBlock + 1;
    var t1 := MoveTo(t, bbt);
    var t2 := Branch(t1, bbf);
    var u := MoveTo(t2, bbf);
    var pairs := CastPairs(Preds(t, bbf), bbt);
    CastBack(s, t, pairs, f);
    CastFacts(s, t);
    CastEdges(s, t, bbt);
    CastChoice(Preds(t, bbf), bbt, bbt);
    hide Valid, Agrees, Branch, Grown, At, Reaches, CastMoves, Kept, AddPhi, CastPairs, Preds, Ready;
    var st1 := EnterNew(w, f, t1, from, st);
    CastJumps(w, f, t1, bbf, st1);
    st' := EnterPhi(w, f, u, pairs, bbt, IntVal(1), st1, s.nextReg);
    ReachesTrans(w, f, Edge(from, bbt, st), At(w, f, t1, st1), At(w, f, AddPhi(u, pairs), st'));
    KeptTrans(st, st1, st', s.nextReg, s.nextReg);
    PhiCur(u, pairs);
  }

  lemma PhiCur(u: Build, pairs: seq<(Operand, BlockId)>)
    ensures AddPhi(u, pairs).cur == u.cur && u.cur in AddPhi(u, pairs).blocks
  {
  }

  lemma CastFacts(s: Build, t: Build)
    requires var u := MoveTo(Branch(MoveTo(t, s.nextBlock), s.nextBlock + 1), s.nextBlock + 1); CastMoves(s, t, u)
    ensures var u := MoveTo(Branch(MoveTo(t, s.nextBlock), s.nextBlock + 1), s.nextBlock + 1);
            && u.cur in u.blocks && u.blocks[u.cur] == EMPTY && s.nextBlock in t.blocks
                && t.blocks[s.nextBlock] == EMPTY
            && Ready(MoveTo(t, s.nextBlock)) && s.nextBlock + 1 in t.blocks && u.nextReg == t.nextReg
  {
  }

  lemma CastJumps(w: Oracle, f: Function, t1: Build, bbf: BlockId, st: State)
    requires Ready(t1) && bbf in t1.blocks && Stands(t1, f) && Stands(Branch(t1, bbf), f) && t1.cur in t1.blocks
    ensures At(w, f, t1, st) == Edge(t1.cur, bbf, st)
  {
    BranchGrown(t1, bbf);
    hide Valid, Agrees, Grown;
    LeaveRuns(w, f, t1, Branch(t1, bbf), st);
  }

  ghost function CastJoin(s: Build, t: Build): Build {
    MoveTo(Branch(MoveTo(t, s.nextBlock), s.nextBlock + 1), s.nextBlock + 1)
  }

  ghost function CastDone(s: Build, t: Build): Build {
    AddPhi(CastJoin(s, t), CastPairs(Preds(t, s.nextBlock + 1), s.nextBlock))
  }

  /** From the edge the condition left by to the phi. */
  lemma CastArrives(w: Oracle, f: Function, s: Build, t: Build, b: bool, from: BlockId, st1: State) returns (st': State)
    requires CastMoves(s, t, CastJoin(s, t)) && Stands(CastDone(s, t), f) && Valid(t) && !Open(t)
             && s.nextReg <= t.nextReg
    requires EdgeIn(t, from, if b then s.nextBlock else s.nextBlock + 1)
    ensures Stands(CastDone(s, t), f) && CastDone(s, t).cur in CastDone(s, t).blocks && Agrees(CastDone(s, t), f)
    ensures Reaches(w, f, Edge(from, if b then s.nextBlock else s.nextBlock + 1, st1), At(w, f, CastDone(s, t), st'))
    ensures MemOf(st') == MemOf(st1) && Kept(st1, st', s.nextReg)
            && st'.env(CastJoin(s, t).nextReg) == Some(IntVal(if b then 1 else 0))
  {
    var bbt, bbf := s.nextBlock, s.nextBlock + 1;
    var u := CastJoin(s, t);
    var pairs := CastPairs(Preds(t, bbf), bbt);
    assert u == MoveTo(Branch(MoveTo(t, bbt), bbf), bbf);
    hide Ready, MemOf, MoveTo, Branch, AddPhi, CastPairs, Preds, Grown, Reaches, Kept, At, Valid, CastMoves, Agrees,
        Open, EdgeIn;
    CastFacts(s, t);
    if b {
      st' := CastTrue(w, f, s, t, from, st1);
    } else {
      CastEdges(s, t, from);
      CastChoice(Preds(t, bbf), bbt, from);
      MoveCur(Branch(MoveTo(t, bbt), bbf), bbf);
      st' := EnterPhi(w, f, u, pairs, from, IntVal(0), st1, s.nextReg);
    }
  }

  lemma MoveCur(t: Build, b: BlockId)
    ensures MoveTo(t, b).cur == b
  {
  }

  lemma CastLowered(c: A.Cond, s: Build)
    ensures var t := LowerCond(c, Create(Create(s)), s.nextBlock, s.nextBlock + 1);
            LowerExp(A.FromBool(c), s) == (CastDone(s, t), Reg(CastJoin(s, t).nextReg))
  {
    hide LowerCond, Branch, MoveTo, AddPhi, CastPairs, Preds, Create;
  }

  lemma CastEvaluated(w: Oracle, c: A.Cond, m: A.Mem)
    requires A.EvalCond(w, c, m).Some?
    ensures var ch := A.EvalCond(w, c, m).value;
            A.EvalExp(w, A.FromBool(c), m) == Some(A.Got(Some(IntVal(if ch.b then 1 else 0)), ch.m))
  {
  }

  lemma CastStands(s: Build, t: Build, f: Function)
    requires CastMoves(s, t, CastJoin(s, t)) && Stands(CastDone(s, t), f) && Valid(t) && !Open(t)
    ensures Stands(t, f)
  {
    hide Valid, Agrees, CastMoves, Branch, AddPhi, MoveTo;
    CastBack(s, t, CastPairs(Preds(t, s.nextBlock + 1), s.nextBlock), f);
  }

  lemma CastShape(s: Build, t: Build)
    requires Ready(s) && CondBuilt(Create(Create(s)), t)
    ensures CastMoves(s, t, CastJoin(s, t))
  {
    hide *;
    CastStates(s, t);
    JoinIs(s, t);
  }

  lemma JoinIs(s: Build, t: Build)
    ensures CastJoin(s, t) == MoveTo(Branch(MoveTo(t, s.nextBlock), s.nextBlock + 1), s.nextBlock + 1)
    ensures CastDone(s, t) == AddPhi(CastJoin(s, t), CastPairs(Preds(t, s.nextBlock + 1), s.nextBlock))
  {
  }

  lemma {:induction false} CastRuns(w: Oracle, f: Function, c: A.Cond, s: Build, st: State) returns (st': State)
    requires Ready(s) && A.ProperCond(c) && Stands(LowerExp(A.FromBool(c), s).0, f) && A.EvalCond(w, c, MemOf(st)).Some?
    ensures ExpRan(w, f, s, LowerExp(A.FromBool(c), s).0, LowerExp(A.FromBool(c), s).1, st, st',
                   A.EvalExp(w, A.FromBool(c), MemOf(st)).value)
    decreases c, 1
  {
    hide *;
    var bbt, bbf := s.nextBlock, s.nextBlock + 1;
    TwoCreated(s);
    var s2 := Create(Create(s));
    var t := LowerCond(c, s2, bbt, bbf);
    CondGrows(c, s2, bbt, bbf);
    CastShape(s, t);
    CastLowered(c, s);
    CastEvaluated(w, c, MemOf(st));
    CondEnds(s2, t);
    CastRegs(s, t);
    CastStands(s, t, f);
    var from, st1 := CondRuns(w, f, c, s2, bbt, bbf, st);
    var ch := A.EvalCond(w, c, MemOf(st)).value;
    LeadsIs(w, f, s2, t, bbt, bbf, st, from, st1, ch);
    CastBranches(w, f, s, t, st, from, if ch.b then bbt else bbf, st1, ch.m);
    st' := CastArrives(w, f, s, t, ch.b, from, st1);
    JoinIs(s, t);
    CastValued(w, f, s, CastJoin(s, t), CastPairs(Preds(t, bbf), bbt), st, from, if ch.b then bbt
        else bbf, st1, st', if ch.b then 1 else 0, ch.m);
  }

  lemma LeadsIs(w: Oracle, f: Function, s: Build, t: Build, bbt: BlockId, bbf: BlockId, st: State, from: BlockId,
                st': State, ch: A.Chosen)
    ensures Leads(w, f, s, t, bbt, bbf, st, from, st', ch)
            <==> CondRan(w, f, s, t, st, from, if ch.b then bbt else bbf, st', ch.m)
  {
  }

  lemma CondEnds(s: Build, t: Build)
    requires CondBuilt(s, t)
    ensures Valid(t) && !Open(t) && t.cur in t.blocks && s.nextReg <= t.nextReg
  {
  }

  lemma CastRegs(s: Build, t: Build)
    requires CondBuilt(Create(Create(s)), t)
    ensures s.nextReg <= t.nextReg
  {
  }

  lemma CastBranches(w: Oracle, f: Function, s: Build, t: Build, st: State, from: BlockId, to: BlockId, st1: State,
                     m: A.Mem)
    requires Ready(s) && CondRan(w, f, Create(Create(s)), t, st, from, to, st1, m)
    ensures Stands(s, f) && s.cur in s.blocks && Agrees(s, f) && Reaches(w, f, At(w, f, s, st), Edge(from, to, st1))
    ensures MemOf(st1) == m && Kept(st, st1, s.nextReg) && EdgeIn(t, from, to)
  {
    CreatedReady(s);
    CreateAt(w, f, Create(s), st);
    CreateAt(w, f, s, st);
  }

  lemma CastValued(w: Oracle, f: Function, s: Build, u: Build, pairs: seq<(Operand, BlockId)>,
                 st: State, from: BlockId, to: BlockId, st1: State, st': State, i: int, m: A.Mem)
    requires Stands(s, f) && Stands(AddPhi(u, pairs), f) && Reaches(w, f, At(w, f, s, st), Edge(from, to, st1))
    requires Reaches(w, f, Edge(from, to, st1), At(w, f, AddPhi(u, pairs), st')) && MemOf(st1) == m
             && MemOf(st') == MemOf(st1)
    requires Kept(st, st1, s.nextReg) && Kept(st1, st', s.nextReg) && st'.env(u.nextReg) == Some(IntVal(i))
    ensures ExpRan(w, f, s, AddPhi(u, pairs), Reg(u.nextReg), st, st', A.Got(Some(IntVal(i)), m))
  {
    hide At, Agrees, AddPhi, Reaches;
    ReachesTrans(w, f, At(w, f, s, st), Edge(from, to, st1), At(w, f, AddPhi(u, pairs), st'));
  }
}
