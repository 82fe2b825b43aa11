/** What the built code computes, in numbers: arithmetic, comparisons and the addresses of array elements. */
module LoweringNumbers {
  import opened IR
  import A = Ast
  import opened Builder
  import opened Lowering
  import opened LoweringRuns

  // ----- Arithmetic -----

  /** `v` is the 32-bit number congruent to `n`. */
  predicate Wraps(v: Val, n: int) {
    v.IntVal? && -0x8000_0000 <= v.i < 0x8000_0000 && (v.i - n) % 0x1_0000_0000 == 0
  }

  /** `q` is the quotient of `a` by `b`, rounded toward zero, and `r` the remainder, which has the sign of `a`. */
  predicate Divides(a: int, b: int, q: int, r: int) {
    a == q * b + r && (if a < 0 then r <= 0 else r >= 0) && (if b < 0 then b < r < -b else -b < r < b)
  }

  /** What the source language promises of the value of `a op b`. */
  ghost predicate Promised(op: A.MathOp, a: int, b: int, v: Option<Val>) {
    match op
    case ADD => v.Some? && Wraps(v.value, a + b)
    case SUB => v.Some? && Wraps(v.value, a - b)
    case MUL => v.Some? && Wraps(v.value, a * b)
    case DIV =>
      b != 0 && !(a == -0x8000_0000 && b == -1) ==>
          v.Some? && v.value.IntVal? && exists r :: Divides(a, b, v.value.i, r)
    case MOD =>
      b != 0 && !(a == -0x8000_0000 && b == -1) ==>
          v.Some? && v.value.IntVal? && exists q :: Divides(a, b, q, v.value.i)
  }

  lemma WrapWraps(n: int)
    ensures Wraps(IntVal(Wrap32(n)), n)
  {
    var m := 0x1_0000_0000;
    var k := (n + 0x8000_0000) / m;
    assert Wrap32(n) - n == -k * m;
  }

  lemma Negated(q: int, b: int)
    ensures (-q) * b == -(q * b) && q * -b == -(q * b) && b * q == q * b && b * -q == -(q * b)
  {
  }

  lemma Truncated(a: int, b: int)
    requires b != 0
    ensures Divides(a, b, TruncDiv(a, b), a - b * TruncDiv(a, b))
  {
    var p, n := Abs(a), Abs(b);
    var q: int, m: int := p / n, p % n;
    assert p == q * n + m && 0 <= m < n;
    Negated(q, b);
    assert TruncDiv(a, b) == if (a >= 0) == (b >= 0) then q else -q;
    hide TruncDiv;
  }

  lemma MathPromised(op: A.MathOp, a: int, b: int)
    ensures Promised(op, a, b, A.MathOn(op, Some(IntVal(a)), Some(IntVal(b))))
  {
    if b != 0 { Truncated(a, b); }
    WrapWraps(a + b);
    WrapWraps(a - b);
    WrapWraps(a * b);
    hide Divides, TruncDiv, Wrap32, Wraps;
  }

  /** Running the code of an operation on two numbers leaves the promised number, after the effects of both operands. */
  lemma MathRuns(w: Oracle, f: Function, op: A.MathOp, l: A.Exp, r: A.Exp, s: Build, st: State, a: int, b: int)
    returns (st': State)
    requires Ready(s) && A.ProperExp(l) && A.ProperExp(r) && Stands(LowerExp(A.Math(op, l, r), s).0, f)
    requires A.EvalExp(w, l, MemOf(st)).Some? && A.EvalExp(w, l, MemOf(st)).value.v == Some(IntVal(a))
    requires var g := A.EvalExp(w, l, MemOf(st)).value;
             A.EvalExp(w, r, g.m).Some? && A.EvalExp(w, r, g.m).value.v == Some(IntVal(b))
    ensures Stands(s, f)
    ensures var (t, o) := LowerExp(A.Math(op, l, r), s);
            && Reaches(w, f, At(w, f, s, st), At(w, f, t, st')) && Promised(op, a, b, Read(o, st'.env))
            && MemOf(st') == A.EvalExp(w, r, A.EvalExp(w, l, MemOf(st)).value.m).value.m
  {
    var e := A.Math(op, l, r);
    var (t, o) := LowerExp(e, s);
    var m := A.EvalExp(w, r, A.EvalExp(w, l, MemOf(st)).value.m).value.m;
    var v := A.MathOn(op, Some(IntVal(a)), Some(IntVal(b)));
    assert A.EvalExp(w, e, MemOf(st)) == Some(A.Got(v, m));
    MathPromised(op, a, b);
    hide Ready, ExpRan, LowerExp, A.EvalExp, A.MathOn, Promised, At, Agrees, Reaches, MemOf;
    st' := ExpRuns(w, f, e, s, st);
    RanParts(w, f, s, t, o, st, st', A.Got(v, m));
  }

  /** A negation leaves the negated number. */
  lemma NegationRuns(w: Oracle, f: Function, e: A.Exp, s: Build, st: State, a: int) returns (st': State)
    requires Ready(s) && A.ProperExp(e) && Stands(LowerExp(A.Neg(e), s).0, f)
    requires A.EvalExp(w, e, MemOf(st)).Some? && A.EvalExp(w, e, MemOf(st)).value.v == Some(IntVal(a))
    ensures Stands(s, f)
    ensures var (t, o) := LowerExp(A.Neg(e), s);
            && Reaches(w, f, At(w, f, s, st), At(w, f, t, st'))
            && Read(o, st'.env).Some? && Wraps(Read(o, st'.env).value, -a)
  {
    var (t, o) := LowerExp(A.Neg(e), s);
    var m := A.EvalExp(w, e, MemOf(st)).value.m;
    var v := A.MathOn(A.SUB, Some(IntVal(0)), Some(IntVal(a)));
    assert A.EvalExp(w, A.Neg(e), MemOf(st)) == Some(A.Got(v, m));
    MathPromised(A.SUB, 0, a);
    hide Ready, ExpRan, LowerExp, A.EvalExp, A.MathOn, At, Agrees, Reaches, MemOf;
    st' := ExpRuns(w, f, A.Neg(e), s, st);
    RanParts(w, f, s, t, o, st, st', A.Got(v, m));
  }

  // ----- Comparisons -----

  predicate Compares(op: A.RelOp, a: int, b: int) {
    match op
    case LT => a < b
    case GT => b < a
    case LE => !(b < a)
    case GE => !(a < b)
  }

  /** The two operands of a comparison evaluate to two numbers. */
  ghost predicate Operands(w: Oracle, l: A.Exp, r: A.Exp, m: A.Mem, a: int, b: int) {
    var x := A.EvalExp(w, l, m);
    && x.Some? && x.value.v == Some(IntVal(a))
    && A.EvalExp(w, r, x.value.m).Some? && A.EvalExp(w, r, x.value.m).value.v == Some(IntVal(b))
  }

  lemma RelationMeans(w: Oracle, op: A.RelOp, l: A.Exp, r: A.Exp, m: A.Mem, a: int, b: int)
    requires Operands(w, l, r, m, a, b)
    ensures A.EvalCond(w, A.Relation(op, l, r), m).Some?
    ensures A.EvalCond(w, A.Relation(op, l, r), m).value.b <==> Compares(op, a, b)
  {
  }

  /** From the code of a comparison the run reaches the true target if and only if the comparison holds, and the false
      target if not. */
  lemma RelationRuns(w: Oracle, f: Function, op: A.RelOp, l: A.Exp, r: A.Exp, s: Build, bbt: BlockId, bbf: BlockId,
                     st: State, a: int, b: int) returns (from: BlockId, st': State)
    requires Ready(s) && A.ProperExp(l) && A.ProperExp(r) && bbt in s.blocks && bbf in s.blocks
    requires Stands(LowerCond(A.Relation(op, l, r), s, bbt, bbf), f) && Operands(w, l, r, MemOf(st), a, b)
    ensures Stands(s, f)
    ensures Reaches(w, f, At(w, f, s, st), Edge(from, if Compares(op, a, b) then bbt else bbf, st'))
  {
    var c := A.Relation(op, l, r);
    RelationMeans(w, op, l, r, MemOf(st), a, b);
    hide Ready, LowerCond, A.EvalCond, A.EvalExp, At, Agrees, Reaches, MemOf, Operands, Compares;
    from, st' := CondRuns(w, f, c, s, bbt, bbf, st);
  }

  lemma EqualityRuns(w: Oracle, f: Function, same: bool, l: A.Exp, r: A.Exp, s: Build, bbt: BlockId, bbf: BlockId,
                     st: State, a: int, b: int) returns (from: BlockId, st': State)
    requires Ready(s) && A.ProperExp(l) && A.ProperExp(r) && bbt in s.blocks && bbf in s.blocks
    requires Stands(LowerCond(A.Equal(same, l, r), s, bbt, bbf), f) && Operands(w, l, r, MemOf(st), a, b)
    ensures Stands(s, f)
    ensures Reaches(w, f, At(w, f, s, st), Edge(from, if same == (a == b) then bbt else bbf, st'))
  {
    var c := A.Equal(same, l, r);
    var m := A.EvalExp(w, r, A.EvalExp(w, l, MemOf(st)).value.m).value.m;
    assert A.EvalCond(w, c, MemOf(st)) == Some(A.Chosen(same == (a == b), m));
    hide Ready, LowerCond, A.EvalCond, A.EvalExp, At, Agrees, Reaches, MemOf;
    from, st' := CondRuns(w, f, c, s, bbt, bbf, st);
  }

  /** A number used as a condition is true unless it is zero. */
  lemma NonZeroRuns(w: Oracle, f: Function, e: A.Exp, s: Build, bbt: BlockId, bbf: BlockId, st: State, a: int)
    returns (from: BlockId, st': State)
    requires Ready(s) && A.ProperExp(e) && bbt in s.blocks && bbf in s.blocks
    requires Stands(LowerCond(A.NonZero(e), s, bbt, bbf), f)
    requires A.EvalExp(w, e, MemOf(st)).Some? && A.EvalExp(w, e, MemOf(st)).value.v == Some(IntVal(a))
    ensures Stands(s, f)
    ensures Reaches(w, f, At(w, f, s, st), Edge(from, if a != 0 then bbt else bbf, st'))
  {
    var m := A.EvalExp(w, e, MemOf(st)).value.m;
    assert A.EvalCond(w, A.NonZero(e), MemOf(st)) == Some(A.Chosen(a != 0, m));
    hide Ready, LowerCond, A.EvalCond, A.EvalExp, At, Agrees, Reaches, MemOf;
    from, st' := CondRuns(w, f, A.NonZero(e), s, bbt, bbf, st);
  }

  // ----- Addresses -----

  predicate InBounds(dims: seq<nat>, vs: seq<int>) {
    |vs| == |dims| && forall k :: 0 <= k < |vs| ==> 0 <= vs[k] < dims[k]
  }

  /** Two elements of arrays of the same shape are in the same place only if they are the same. */
  lemma {:induction false} PositionOnce(dims: seq<nat>, vs: seq<int>, us: seq<int>, a: int, b: int)
    requires InBounds(dims, vs) && InBounds(dims, us) && A.Position(dims, vs, a) == A.Position(dims, us, b)
    ensures a == b && vs == us
  {
    if dims != [] {
      var d := dims[0];
      PositionOnce(dims[1..], vs[1..], us[1..], a * d + vs[0], b * d + us[0]);
      SameRow(d, a, vs[0], b, us[0]);
      assert vs == [vs[0]] + vs[1..] && us == [us[0]] + us[1..];
    }
  }

  lemma RowsApart(d: int, a: int, b: int)
    requires a < b && d > 0
    ensures a * d + d <= b * d
  {
    assert (b - a) * d == b * d - a * d;
    assert (b - a - 1) * d >= 0;
    assert (b - a - 1) * d == (b - a) * d - d;
  }

  lemma SameRow(d: int, a: int, v: int, b: int, u: int)
    requires 0 <= v < d && 0 <= u < d && a * d + v == b * d + u
    ensures a == b && v == u
  {
    if a < b { RowsApart(d, a, b); } else if b < a { RowsApart(d, b, a); }
  }

  /** The last index steps from one element to the next one, the index before it over a whole row. */
  lemma {:induction false} PositionLast(dims: seq<nat>, vs: seq<int>, before: int)
    requires |vs| == |dims| > 0
    ensures var n := |dims| - 1;
            A.Position(dims, vs, before) == A.Position(dims[..n], vs[..n], before) * dims[n] + vs[n]
  {
    var n := |dims| - 1;
    if n == 0 {
      assert A.Position(dims[1..], vs[1..], before * dims[0] + vs[0]) == before * dims[0] + vs[0];
    } else {
      PositionLast(dims[1..], vs[1..], before * dims[0] + vs[0]);
      assert dims[1..][..n - 1] == dims[..n][1..] && vs[1..][..n - 1] == vs[..n][1..];
    }
  }
}
