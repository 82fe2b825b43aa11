/** The rewriting of one binary instruction, `Arithmetic::optimize_mul`, `optimize_div` and `optimize_rem`. */
module Strength {
  import opened Arithmetic
  import opened Bits
  import opened IR

  class IBinaryInst {
    const dst: Reg
    var op: Op
    var operand0: Operand
    var operand1: Operand

    constructor (dst: Reg, op: Op, operand0: Operand, operand1: Operand)
      ensures this.dst == dst && this.op == op && this.operand0 == operand0 && this.operand1 == operand1
    {
      this.dst, this.op, this.operand0, this.operand1 := dst, op, operand0, operand1;
    }

    function Value(): Instr
      reads this
    {
      Pure(dst, op, [operand0, operand1])
    }
  }

  // ----- What a rewriting must do -----

  function IntConst(x: int): Operand {
    Const(IntVal(x))
  }

  predicate IsConst(o: Operand) {
    o.Const? && o.v.IntVal?
  }

  ghost predicate Ints(v: Option<Val>) {
    v.Some? && v.value.IntVal? ==> Is32(v.value.i)
  }

  /** Every integer register holds a 32-bit number. */
  ghost predicate Ints32(env: Env) {
    forall r: Reg :: Ints(env(r))
  }

  /** Pure instructions one after the other. */
  ghost function Compute(code: seq<Instr>, env: Env): Env
    requires forall k :: 0 <= k < |code| ==> code[k].Pure?
  {
    if code == [] then env
    else Compute(code[1..], SetReg(env, code[0].dst, ApplyTo(code[0].op, ReadAll(code[0].args, env))))
  }

  /** What is known of the sign of an operand. */
  datatype Signal = Signal(mayBeNegative: bool, mayBeZero: bool, mayBePositive: bool)

  ghost predicate Obeys(v: Option<Val>, s: Signal) {
    v.Some? && v.value.IntVal? ==>
      && (v.value.i < 0 ==> s.mayBeNegative) && (v.value.i == 0 ==> s.mayBeZero) && (v.value.i > 0 ==> s.mayBePositive)
  }

  /** The original instruction has a value. */
  ghost predicate Defined(i: Instr, env: Env)
    requires i.Pure?
  {
    ApplyTo(i.op, ReadAll(i.args, env)).Some?
  }

  ghost function ValueOf(i: Instr, env: Env): Option<Val>
    requires i.Pure?
  {
    ApplyTo(i.op, ReadAll(i.args, env))
  }

  ghost predicate AllPure(code: seq<Instr>) {
    forall k :: 0 <= k < |code| ==> code[k].Pure?
  }

  /** After `code`, the operand `uses` has the value the instruction `i` had, wherever that was defined and its
      first operand has the sign it is known to have. */
  ghost predicate Serves(i: Instr, code: seq<Instr>, uses: Operand, s: Signal) {
    && i.Pure? && |i.args| > 0 && AllPure(code)
    && forall env: Env :: Ints32(env) && Obeys(Read(i.args[0], env), s) && Defined(i, env) ==>
         Read(uses, Compute(code, env)) == ValueOf(i, env)
  }

  /** A binary instruction on 32-bit constants and registers other than the one it defines. */
  predicate Binary(i: Instr) {
    i.Pure? && |i.args| == 2 && Fine(i.args[0], i.dst) && Fine(i.args[1], i.dst)
  }

  predicate Fine(o: Operand, dst: Reg) {
    (o.Const? ==> IsConst(o) && Is32(o.v.i)) && o != Reg(dst)
  }

  // ----- Single steps -----

  lemma ComputeOne(i: Instr, env: Env)
    requires i.Pure?
    ensures Compute([i], env) == SetReg(env, i.dst, ValueOf(i, env))
  {
    assert [i][1..] == [];
  }

  lemma ComputeTwo(i: Instr, j: Instr, env: Env)
    requires i.Pure? && j.Pure?
    ensures var e := SetReg(env, i.dst, ValueOf(i, env)); Compute([i, j], env) == SetReg(e, j.dst, ValueOf(j, e))
  {
    assert [i, j][1..] == [j];
    ComputeOne(j, SetReg(env, i.dst, ValueOf(i, env)));
  }

  /** The value of a binary instruction in terms of its operands. */
  lemma BinaryValue(i: Instr, env: Env)
    requires i.Pure? && |i.args| == 2 && i.op != Zext && !i.op.Gep?
    ensures ValueOf(i, env)
         == var a, b := Read(i.args[0], env), Read(i.args[1], env);
            if a.Some? && b.Some? && a.value.IntVal? && b.value.IntVal? then IntOp(i.op, a.value.i, b.value.i) else None
  {
    var a, b := Read(i.args[0], env), Read(i.args[1], env);
    if a.Some? && b.Some? {
      assert forall k :: 0 <= k < 2 ==> Read(i.args[k], env).Some?;
    }
  }

  ghost predicate Applies(i: Instr, env: Env, s: Signal)
    requires i.Pure? && |i.args| > 0
  {
    Ints32(env) && Obeys(Read(i.args[0], env), s) && Defined(i, env)
  }

  predicate TwoOperands(op: Op) {
    op != Zext && !op.Gep?
  }

  /** The integer an operand stands for. */
  ghost predicate Holds(o: Operand, env: Env, x: int) {
    Read(o, env) == Some(IntVal(x)) && Is32(x)
  }

  /** Where the instruction has a value its operands are 32-bit numbers. */
  lemma Operate(i: Instr, env: Env) returns (a: int, b: int)
    requires Binary(i) && TwoOperands(i.op) && Ints32(env) && Defined(i, env)
    ensures Holds(i.args[0], env, a) && Holds(i.args[1], env, b) && ValueOf(i, env) == IntOp(i.op, a, b)
  {
    BinaryValue(i, env);
    a, b := Read(i.args[0], env).value.i, Read(i.args[1], env).value.i;
    assert i.args[0].Reg? ==> Ints(env(i.args[0].r));
    assert i.args[1].Reg? ==> Ints(env(i.args[1].r));
  }

  lemma Result(i: Instr, env: Env, a: int, b: int)
    requires i.Pure? && |i.args| == 2 && TwoOperands(i.op) && Holds(i.args[0], env, a) && Holds(i.args[1], env, b)
    ensures ValueOf(i, env) == IntOp(i.op, a, b)
  {
    BinaryValue(i, env);
  }

  /** The instruction is gone and `uses` stands for it. */
  lemma ServesGone(i: Instr, uses: Operand, s: Signal)
    requires i.Pure? && |i.args| > 0
    requires forall env: Env :: Applies(i, env, s) ==> Read(uses, env) == ValueOf(i, env)
    ensures Serves(i, [], uses, s)
  {
    forall env: Env | Applies(i, env, s) ensures Read(uses, Compute([], env)) == ValueOf(i, env) {
      assert Compute([], env) == env;
    }
  }

  /** The instruction was changed where it stands. */
  lemma ServesChanged(i: Instr, j: Instr, s: Signal)
    requires i.Pure? && |i.args| > 0 && j.Pure? && j.dst == i.dst
    requires forall env: Env :: Applies(i, env, s) ==> ValueOf(j, env) == ValueOf(i, env)
    ensures Serves(i, [j], Reg(i.dst), s)
  {
    forall env: Env | Applies(i, env, s) ensures Read(Reg(i.dst), Compute([j], env)) == ValueOf(i, env) {
      ComputeOne(j, env);
    }
  }

  // ----- Multiplications -----

  predicate IsMul(i: Instr) {
    Binary(i) && (i.op == Mul || i.op == Mull)
  }

  /** One factor is the constant `c`, the other one `o`. */
  predicate Times(i: Instr, o: Operand, c: int) {
    IsMul(i) && Is32(c) && (i.args == [IntConst(c), o] || i.args == [o, IntConst(c)])
  }

  lemma Product(i: Instr, o: Operand, c: int, env: Env) returns (x: int)
    requires Times(i, o, c) && Ints32(env) && Defined(i, env)
    ensures Holds(o, env, x) && ValueOf(i, env) == Some(IntVal(Wrap32(x * c)))
  {
    var a, b := Operate(i, env);
    x := if i.args[0] == o then a else b;
    hide Wrap32;
    if i.args == [IntConst(c), o] {
      assert a == c;
      Commute(a, b);
      x := b;
    } else {
      assert b == c;
      x := a;
    }
  }

  lemma Commute(a: int, b: int)
    ensures a * b == b * a
  {
  }

  lemma MulConstants(i: Instr, a: int, b: int, s: Signal)
    requires IsMul(i) && i.args == [IntConst(a), IntConst(b)]
    ensures Serves(i, [], IntConst(Wrap32(a * b)), s)
  {
    forall env: Env | Applies(i, env, s) ensures Read(IntConst(Wrap32(a * b)), env) == ValueOf(i, env) {
      var x, y := Operate(i, env);
    }
    ServesGone(i, IntConst(Wrap32(a * b)), s);
  }

  lemma MulZero(i: Instr, o: Operand, s: Signal)
    requires Times(i, o, 0)
    ensures Serves(i, [], IntConst(0), s)
  {
    forall env: Env | Applies(i, env, s) ensures Read(IntConst(0), env) == ValueOf(i, env) {
      var x := Product(i, o, 0, env);
      WrapSmall(0);
    }
    ServesGone(i, IntConst(0), s);
  }

  lemma MulOne(i: Instr, o: Operand, s: Signal)
    requires Times(i, o, 1)
    ensures Serves(i, [], o, s)
  {
    forall env: Env | Applies(i, env, s) ensures Read(o, env) == ValueOf(i, env) {
      var x := Product(i, o, 1, env);
      WrapSmall(x);
    }
    ServesGone(i, o, s);
  }

  lemma MulMinusOne(i: Instr, o: Operand, s: Signal)
    requires Times(i, o, -1)
    ensures Serves(i, [Pure(i.dst, Sub, [IntConst(0), o])], Reg(i.dst), s)
  {
    var j := Pure(i.dst, Sub, [IntConst(0), o]);
    forall env: Env | Applies(i, env, s) ensures ValueOf(j, env) == ValueOf(i, env) {
      var x := Product(i, o, -1, env);
      Result(j, env, 0, x);
      assert 0 - x == x * -1;
    }
    ServesChanged(i, j, s);
  }

  lemma MulPower(i: Instr, o: Operand, c: int, s: Signal)
    requires Times(i, o, c) && c > 0 && OneBit(c)
    ensures Serves(i, [Pure(i.dst, Shl, [o, IntConst(CountZeros(c))])], Reg(i.dst), s)
  {
    hide OneBit, CountZeros, Pow2, Wrap32;
    var j := Pure(i.dst, Shl, [o, IntConst(CountZeros(c))]);
    forall env: Env | Applies(i, env, s) ensures ValueOf(j, env) == ValueOf(i, env) {
      var x := Product(i, o, c, env);
      MulShift(x, c);
      Result(j, env, x, CountZeros(c));
    }
    ServesChanged(i, j, s);
  }

  lemma MulNegativePower(i: Instr, o: Operand, c: int, next: Reg, s: Signal)
    requires Times(i, o, c) && c < 0 && OneBit(Wrap32(-c))
    ensures Serves(i, [Pure(i.dst, Sub, [IntConst(0), o]),
              Pure(next, Shl, [Reg(i.dst), IntConst(CountZeros(Wrap32(-c)))])],
                   Reg(next), s)
  {
    hide OneBit, CountZeros, Pow2, Wrap32;
    var k := CountZeros(Wrap32(-c));
    var j, l := Pure(i.dst, Sub, [IntConst(0), o]), Pure(next, Shl, [Reg(i.dst), IntConst(k)]);
    forall env: Env | Applies(i, env, s) ensures Read(Reg(next), Compute([j, l], env)) == ValueOf(i, env) {
      var x := Product(i, o, c, env);
      ComputeTwo(j, l, env);
      Result(j, env, 0, x);
      WrapIs32(0 - x);
      MulNegativeShift(x, c);
      var e := SetReg(env, i.dst, ValueOf(j, env));
      Result(l, e, Wrap32(0 - x), k);
    }
  }

  lemma WrapIs32(x: int)
    ensures Is32(Wrap32(x))
  {
  }

  lemma MulSwapped(i: Instr, s: Signal)
    requires IsMul(i)
    ensures Serves(i, [Pure(i.dst, Mull, [i.args[1], i.args[0]])], Reg(i.dst), s)
  {
    hide Wrap32;
    var j := Pure(i.dst, Mull, [i.args[1], i.args[0]]);
    forall env: Env | Applies(i, env, s) ensures ValueOf(j, env) == ValueOf(i, env) {
      var a, b := Operate(i, env);
      Commute(a, b);
      Result(j, env, b, a);
    }
    ServesChanged(i, j, s);
  }

  lemma Untouched(i: Instr, s: Signal)
    requires i.Pure? && |i.args| > 0
    ensures Serves(i, [i], Reg(i.dst), s)
  {
    ServesChanged(i, i, s);
  }

  // ----- Divisions -----

  predicate IsDiv(i: Instr) {
    Binary(i) && i.op == SDiv
  }

  lemma DivSame(i: Instr, s: Signal)
    requires IsDiv(i) && i.args[0] == i.args[1]
    ensures Serves(i, [], IntConst(1), s)
  {
    forall env: Env | Applies(i, env, s) ensures Read(IntConst(1), env) == ValueOf(i, env) {
      var x, y := Operate(i, env);
      SelfQuotient(Abs(x));
    }
    ServesGone(i, IntConst(1), s);
  }

  lemma FoldConstants(i: Instr, a: int, b: int, v: int, s: Signal)
    requires Binary(i) && TwoOperands(i.op) && i.args == [IntConst(a), IntConst(b)]
             && IntOp(i.op, a, b) == Some(IntVal(v))
    ensures Serves(i, [], IntConst(v), s)
  {
    hide IntOp;
    forall env: Env | Applies(i, env, s) ensures Read(IntConst(v), env) == ValueOf(i, env) {
      var x, y := Operate(i, env);
    }
    ServesGone(i, IntConst(v), s);
  }

  lemma DivZero(i: Instr, s: Signal)
    requires IsDiv(i) && i.args[0] == IntConst(0)
    ensures Serves(i, [], IntConst(0), s)
  {
    forall env: Env | Applies(i, env, s) ensures Read(IntConst(0), env) == ValueOf(i, env) {
      var x, y := Operate(i, env);
      ZeroQuotient(Abs(y));
    }
    ServesGone(i, IntConst(0), s);
  }

  lemma DivOne(i: Instr, s: Signal)
    requires IsDiv(i) && i.args[1] == IntConst(1)
    ensures Serves(i, [], i.args[0], s)
  {
    forall env: Env | Applies(i, env, s) ensures Read(i.args[0], env) == ValueOf(i, env) {
      var x, y := Operate(i, env);
    }
    ServesGone(i, i.args[0], s);
  }

  lemma DivMinusOne(i: Instr, s: Signal)
    requires IsDiv(i) && i.args[1] == IntConst(-1)
    ensures Serves(i, [Pure(i.dst, Sub, [IntConst(0), i.args[0]])], Reg(i.dst), s)
  {
    var j := Pure(i.dst, Sub, [IntConst(0), i.args[0]]);
    forall env: Env | Applies(i, env, s) ensures ValueOf(j, env) == ValueOf(i, env) {
      var x, y := Operate(i, env);
      Result(j, env, 0, x);
      assert x != -TWO_TO_THE_31;
      WrapSmall(0 - x);
    }
    ServesChanged(i, j, s);
  }

  lemma DivPower(i: Instr, c: int, s: Signal)
    requires IsDiv(i) && i.args[1] == IntConst(c) && c > 0 && OneBit(c) && !s.mayBeNegative
    ensures Serves(i, [Pure(i.dst, AShr, [i.args[0], IntConst(CountZeros(c))])], Reg(i.dst), s)
  {
    hide OneBit, CountZeros, Pow2, TruncDiv;
    var j := Pure(i.dst, AShr, [i.args[0], IntConst(CountZeros(c))]);
    forall env: Env | Applies(i, env, s) ensures ValueOf(j, env) == ValueOf(i, env) {
      var x, y := Operate(i, env);
      assert Magnitude(c) == c;
      NotNegative(x, c);
      SmallConst(CountZeros(c));
      Result(j, env, x, CountZeros(c));
    }
    ServesChanged(i, j, s);
  }

  lemma SmallConst(k: nat)
    requires k < 32
    ensures Is32(k)
  {
  }

  /** The shape of a division the code treats as one of a nonpositive number by `-2^k`. */
  predicate ByNegativePower(i: Instr, s: Signal) {
    && IsDiv(i) && i.args[0].Reg? && i.args[1].Const? && i.args[0] != i.args[1]
    && i.args[1].v.i < -1 && !s.mayBePositive && OneBit(Wrap32(-i.args[1].v.i))
  }

  /** What it leaves: the divisor is negated and shifted, the dividend is not looked at. */
  function NegatedDivisor(i: Instr, next: Reg): seq<Instr>
    requires i.Pure? && |i.args| == 2 && IsConst(i.args[1])
  {
    var c := i.args[1].v.i;
    [Pure(i.dst, Sub, [IntConst(0), IntConst(c)]), Pure(next, AShr, [Reg(i.dst), IntConst(CountZeros(Wrap32(-c)))])]
  }

  lemma NegatedDivisorValue(i: Instr, s: Signal, next: Reg, env: Env)
    requires ByNegativePower(i, s)
    ensures Read(Reg(next), Compute(NegatedDivisor(i, next), env)) == Some(IntVal(NegativeQuotient(i.args[1].v.i)))
  {
    hide *;
    NegativePowerParts(i, s);
    var c := i.args[1].v.i;
    var k := CountZeros(Wrap32(-c));
    var j, l := Pure(i.dst, Sub, [IntConst(0), IntConst(c)]), Pure(next, AShr, [Reg(i.dst), IntConst(k)]);
    NegatedDivisorIs(i, next, j, l);
    NegativeDivisor(0, c);
    var e := SetReg(env, i.dst, ValueOf(j, env));
    ComputeTwo(j, l, env);
    NegatedConstant(j, env, c, i.dst, e);
    ShiftedRegister(l, e, Wrap32(0 - c), k, i.dst);
    ReadsNew(e, next, ValueOf(l, e));
    NegativeQuotientUnfolds(c);
  }

  lemma NegativePowerParts(i: Instr, s: Signal)
    requires ByNegativePower(i, s)
    ensures i.Pure? && |i.args| == 2 && IsConst(i.args[1])
    ensures var c := i.args[1].v.i; Is32(c) && c < -1 && OneBit(Wrap32(-c)) && Is32(0)
  {
  }

  lemma NegatedDivisorIs(i: Instr, next: Reg, j: Instr, l: Instr)
    requires i.Pure? && |i.args| == 2 && IsConst(i.args[1])
    requires j == Pure(i.dst, Sub, [IntConst(0), IntConst(i.args[1].v.i)])
    requires l == Pure(next, AShr, [Reg(i.dst), IntConst(CountZeros(Wrap32(-i.args[1].v.i)))])
    ensures NegatedDivisor(i, next) == [j, l]
  {
  }

  lemma NegatedConstant(j: Instr, env: Env, c: int, dst: Reg, e: Env)
    requires j == Pure(dst, Sub, [IntConst(0), IntConst(c)]) && Is32(c) && e == SetReg(env, dst, ValueOf(j, env))
    ensures e(dst) == Some(IntVal(Wrap32(0 - c))) && Is32(Wrap32(0 - c))
  {
    hide Wrap32;
    Result(j, env, 0, c);
    WrapIs32(0 - c);
  }

  lemma ShiftedRegister(l: Instr, e: Env, x: int, k: nat, dst: Reg)
    requires l.Pure? && l.op == AShr && l.args == [Reg(dst), IntConst(k)] && k < 32 && e(dst) == Some(IntVal(x))
             && Is32(x)
    ensures ValueOf(l, e) == Some(IntVal(x / Pow2(k)))
  {
    hide Pow2;
    Result(l, e, x, k);
  }

  lemma ReadsNew(e: Env, r: Reg, v: Option<Val>)
    ensures Read(Reg(r), SetReg(e, r, v)) == v
  {
  }

  lemma NegativeQuotientUnfolds(c: int)
    ensures NegativeQuotient(c) == Wrap32(0 - c) / Pow2(CountZeros(Wrap32(-c)))
  {
  }

  /** The quotient is right exactly for the dividends from above `2 * c` up to the divisor `c`, and for none when
      `c` is `-2^31`. */
  lemma NegatedDivisorRight(i: Instr, s: Signal, next: Reg, env: Env, x: int)
    requires ByNegativePower(i, s) && Applies(i, env, s) && Read(i.args[0], env) == Some(IntVal(x))
    ensures var c := i.args[1].v.i;
            Read(Reg(next), Compute(NegatedDivisor(i, next), env)) == ValueOf(i, env)
            <==> c > -TWO_TO_THE_31 && 2 * c < x <= c
  {
    hide OneBit, CountZeros, Pow2, Wrap32, TruncDiv;
    var a, c := Operate(i, env);
    NegatedDivisorValue(i, s, next, env);
    NegativeDivisor(x, c);
  }

  /** So the rewriting does not serve, if the dividend can have any value at all. */
  lemma NegatedDivisorFails(i: Instr, s: Signal, next: Reg)
    requires ByNegativePower(i, s) && (s.mayBeNegative || s.mayBeZero)
    ensures !Serves(i, NegatedDivisor(i, next), Reg(next), s)
  {
    hide OneBit, CountZeros, Pow2, Wrap32;
    var x := if s.mayBeZero then 0 else -1;
    var env: Env := (r: nat) => Some(IntVal(x));
    BinaryValue(i, env);
    assert Applies(i, env, s);
    NegatedDivisorRight(i, s, next, env, x);
  }

  // ----- Remainders -----

  predicate IsRem(i: Instr) {
    Binary(i) && i.op == SRem
  }

  lemma TimesOne(x: int)
    ensures TruncRem(x, 1) == 0 && TruncRem(x, -1) == 0
  {
    RemainderSigns(x, 1);
    RemainderSigns(x, -1);
  }

  lemma RemNothing(i: Instr, s: Signal)
    requires IsRem(i) && (i.args[0] == i.args[1] || i.args[0] == IntConst(0) || i.args[1] == IntConst(1)
               || i.args[1] == IntConst(-1))
    ensures Serves(i, [], IntConst(0), s)
  {
    hide TruncRem;
    forall env: Env | Applies(i, env, s) ensures Read(IntConst(0), env) == ValueOf(i, env) {
      var x, y := Operate(i, env);
      RemainderSigns(x, y);
      if i.args[0] == i.args[1] {
        ModIs(Abs(x), Abs(x), 1, 0);
      } else if i.args[0] == IntConst(0) {
        ModIs(0, Abs(y), 0, 0);
      } else {
        TimesOne(x);
      }
    }
    ServesGone(i, IntConst(0), s);
  }

  lemma RemMask(i: Instr, c: int, s: Signal)
    requires IsRem(i) && i.args[1] == IntConst(c) && OneBit(Magnitude(c)) && !s.mayBeNegative
    ensures Serves(i, [Pure(i.dst, And, [i.args[0], IntConst(Wrap32(Magnitude(c) - 1))])], Reg(i.dst), s)
  {
    hide OneBit, TruncRem, BitAnd, Wrap32, Magnitude;
    var m := Wrap32(Magnitude(c) - 1);
    var j := Pure(i.dst, And, [i.args[0], IntConst(m)]);
    forall env: Env | Applies(i, env, s) ensures ValueOf(j, env) == ValueOf(i, env) {
      var x, y := Operate(i, env);
      NotNegative(x, c);
      WrapIs32(Magnitude(c) - 1);
      Result(j, env, x, m);
    }
    ServesChanged(i, j, s);
  }

  /** A use of a register: the instruction and the number of the operand. */
  type Use = (Instr, nat)

  /** The only use is a comparison of the register with 0 for equality. */
  predicate TestedForZero(users: seq<Use>, r: Reg) {
    && |users| == 1 && users[0].0.Pure? && (users[0].0.op == Eq || users[0].0.op == Ne) && |users[0].0.args| == 2
    && users[0].1 < 2 && users[0].0.args[users[0].1] == Reg(r)
    && users[0].0.args[1 - users[0].1] == IntConst(0)
  }

  /** The only user cannot tell `code` from the instruction `i`. */
  ghost predicate SameTest(i: Instr, code: seq<Instr>, user: Instr, s: Signal) {
    && i.Pure? && |i.args| > 0 && AllPure(code) && user.Pure?
    && forall env: Env :: Applies(i, env, s) ==>
         ValueOf(user, Compute(code, env)) == ValueOf(user, SetReg(env, i.dst, ValueOf(i, env)))
  }

  lemma TestValue(user: Use, r: Reg, env: Env, x: int)
    requires TestedForZero([user], r) && env(r) == Some(IntVal(x)) && Is32(x)
    ensures ValueOf(user.0, env) == Some(BoolVal((x == 0) == (user.0.op == Eq)))
  {
    if user.1 == 0 {
      Result(user.0, env, x, 0);
    } else {
      Result(user.0, env, 0, x);
    }
  }

  /** Compared with zero only, the masked bits do for the remainder whatever the signs. */
  lemma RemTested(i: Instr, c: int, users: seq<Use>, s: Signal)
    requires IsRem(i) && i.args[1] == IntConst(c) && OneBit(Magnitude(c)) && TestedForZero(users, i.dst)
    ensures SameTest(i, [Pure(i.dst, And, [i.args[0], IntConst(Wrap32(Magnitude(c) - 1))])], users[0].0, s)
  {
    hide OneBit, TruncRem, BitAnd, Wrap32, Magnitude;
    var m := Wrap32(Magnitude(c) - 1);
    var j := Pure(i.dst, And, [i.args[0], IntConst(m)]);
    var user := users[0].0;
    assert users == [users[0]];
    forall env: Env | Applies(i, env, s)
      ensures ValueOf(user, Compute([j], env)) == ValueOf(user, SetReg(env, i.dst, ValueOf(i, env)))
    {
      var x, y := Operate(i, env);
      RemainderZero(x, c);
      RemainderBelow(x, c);
      WrapIs32(Magnitude(c) - 1);
      WrapIs32(BitAnd(x, m, 32));
      Result(j, env, x, m);
      ComputeOne(j, env);
      TestValue(users[0], i.dst, SetReg(env, i.dst, ValueOf(i, env)), TruncRem(x, c));
      TestValue(users[0], i.dst, SetReg(env, i.dst, ValueOf(j, env)), Wrap32(BitAnd(x, m, 32)));
    }
  }

  lemma RemainderBelow(x: int, c: int)
    requires Is32(x) && Is32(c) && c != 0
    ensures Is32(TruncRem(x, c))
  {
    hide TruncRem;
    RemainderSigns(x, c);
    ModUnder(Abs(x), Abs(c));
  }

  lemma ModUnder(a: nat, m: nat)
    requires m > 0
    ensures 0 <= a % m <= a && a % m < m
  {
    if a < m {
      ModIs(a, m, 0, a);
    }
  }

  // ----- What is gained -----

  /** A power of two that fits in 32 bits, or the negative of one. */
  ghost predicate PowerOrNegated(c: int) {
    exists k: nat :: k < 32 && Abs(c) == Pow2(k)
  }

  lemma PowerTested(c: int)
    requires Is32(c) && PowerOrNegated(c)
    ensures OneBit(Magnitude(c)) && c != 0
  {
    hide *;
    var k := PowerIs(c);
    AbsIs(c);
    MagnitudeIs(c);
    LowSmall(Abs(c));
    if c < 0 { Negated(c); }
    PowerHasOneBit(Magnitude(c), k);
  }

  lemma PowerIs(c: int) returns (k: nat)
    requires Is32(c) && PowerOrNegated(c)
    ensures k < 32 && Abs(c) == Pow2(k)
  {
    k :| k < 32 && Abs(c) == Pow2(k);
  }

  lemma AbsIs(c: int)
    ensures Abs(c) == if c < 0 then -c else c
    ensures Is32(c) ==> Abs(c) < TWO_TO_THE_32
    ensures PowerOrNegated(c) ==> c != 0
  {
  }

  lemma MagnitudeIs(c: int)
    ensures Magnitude(c) == if c < 0 then Wrap32(-c) else c
  {
  }

  lemma NextToTested(c: int)
    requires Is32(c) && PowerOrNegated(c - 1)
    ensures OneBit(NextTo(c))
  {
    StillIs32(c);
    NextToIs(c);
    hide *;
    PowerTested(c - 1);
  }

  lemma NextToIs(c: int)
    requires Is32(c - 1)
    ensures NextTo(c) == Magnitude(c - 1)
  {
    hide OneBit;
  }

  lemma StillIs32(c: int)
    requires Is32(c) && PowerOrNegated(c - 1)
    ensures Is32(c - 1)
  {
    if c == -TWO_TO_THE_31 {
      var k: nat :| k < 32 && Abs(c - 1) == Pow2(k);
      Pow2Values();
      if k < 31 { SmallPower(k, 31); }
      hide Pow2;
      assert false;
    }
  }

  ghost predicate EasyFactor(o: Operand) {
    IsConst(o) && (o.v.i == 0 || PowerOrNegated(o.v.i))
  }

  /** Multiplications that can be done without one. */
  ghost predicate EasyMul(i: Instr)
    requires IsMul(i)
  {
    (i.args[0].Const? && i.args[1].Const?) || EasyFactor(i.args[0]) || EasyFactor(i.args[1])
  }

  /** Multiplications by a number next to a power of two. */
  ghost predicate ByNeighbour(i: Instr)
    requires IsMul(i)
  {
    (i.args[0].Const? && PowerOrNegated(i.args[0].v.i - 1)) || (i.args[1].Const? && PowerOrNegated(i.args[1].v.i - 1))
  }

  ghost predicate EasyDiv(i: Instr, s: Signal)
    requires IsDiv(i)
  {
    var x, y := i.args[0], i.args[1];
    || x == y || (x.Const? && y.Const?) || x == IntConst(0)
    || (y.Const? && (y.v.i == 1 || y.v.i == -1
                     || (PowerOrNegated(y.v.i) && if y.v.i > 0 then !s.mayBeNegative else !s.mayBePositive)))
  }

  ghost predicate EasyRem(i: Instr, s: Signal, users: seq<Use>)
    requires IsRem(i)
  {
    var x, y := i.args[0], i.args[1];
    || x == y || (x.Const? && y.Const?) || x == IntConst(0)
    || (y.Const? && PowerOrNegated(y.v.i) && (!s.mayBeNegative || TestedForZero(users, i.dst)))
  }

  predicate Without(code: seq<Instr>, ops: set<Op>) {
    forall k :: 0 <= k < |code| ==> code[k].Pure? && code[k].op !in ops
  }

  lemma EasyConst(c: int)
    requires Is32(c)
    ensures PowerOrNegated(1) && PowerOrNegated(-1)
    ensures PowerOrNegated(c) ==> c != 0 && OneBit(if c < 0 then Wrap32(-c) else c)
    ensures PowerOrNegated(c - 1) ==> OneBit(NextTo(c))
  {
    assert Pow2(0) == 1;
    if PowerOrNegated(c) { PowerTested(c); MagnitudeIs(c); }
    if PowerOrNegated(c - 1) { NextToTested(c); }
  }

  // ----- The rewritings -----

  /** The instructions that stand where `i` stood. */
  ghost function Standing(i: IBinaryInst, erased: bool, added: IBinaryInst?): seq<Instr>
    reads i, added
  {
    if erased then [] else if added == null then [i.Value()] else [i.Value(), added.Value()]
  }

  /** `uses` is what the users of `i` read afterwards. */
  method OptimizeMul(i: IBinaryInst, next: Reg, ghost signal: Signal) returns (uses: Operand, erased: bool,
      shl: IBinaryInst?)
    requires IsMul(i.Value())
    modifies i
    ensures shl != null ==> fresh(shl) && shl.dst == next && !erased
    ensures Serves(old(i.Value()), Standing(i, erased, shl), uses, signal)
    ensures EasyMul(old(i.Value())) ==> Without(Standing(i, erased, shl), {Mul, Mull})
    ensures !EasyMul(old(i.Value())) && ByNeighbour(old(i.Value())) ==> Without(Standing(i, erased, shl), {Mul})
  {
    hide Serves, OneBit, Wrap32, CountZeros, NextTo, PowerOrNegated;
    ghost var was := i.Value();
    if i.operand0.Const? { EasyConst(i.operand0.v.i); }
    if i.operand1.Const? { EasyConst(i.operand1.v.i); }
    uses, erased, shl := Reg(i.dst), false, null;
    var op0, op1 := i.operand0, i.operand1;
    if op0.Const? && op1.Const? {
      MulConstants(was, op0.v.i, op1.v.i, signal);
      uses, erased := IntConst(Wrap32(op0.v.i * op1.v.i)), true;
      return;
    }
    if op0.Const? {
      var c := op0.v.i;
      if c == 0 {
        MulZero(was, op1, signal);
        uses, erased := IntConst(0), true;
        return;
      }
      if c == 1 {
        MulOne(was, op1, signal);
        uses, erased := op1, true;
        return;
      }
      if c == -1 {
        MulMinusOne(was, op1, signal);
        i.operand0, i.op := IntConst(0), Sub;
        return;
      }
      if c > 0 && OneBit(c) {
        MulPower(was, op1, c, signal);
        i.operand0 := op1;
        i.operand1 := IntConst(CountZeros(c));
        i.op := Shl;
        return;
      }
      if c < 0 && OneBit(Wrap32(-c)) {
        MulNegativePower(was, op1, c, next, signal);
        shl := new IBinaryInst(next, Shl, Reg(i.dst), IntConst(CountZeros(Wrap32(-c))));
        uses := Reg(next);
        i.operand0, i.op := IntConst(0), Sub;
        return;
      }
      MulSwapped(was, signal);
      Untouched(was, signal);
      if i.op == Mull || !OneBit(NextTo(c)) {
        return;
      }
      i.operand0, i.operand1, i.op := op1, op0, Mull;
      return;
    }
    if op1.Const? {
      var c := op1.v.i;
      if c == 0 {
        MulZero(was, op0, signal);
        uses, erased := IntConst(0), true;
        return;
      }
      if c == 1 {
        MulOne(was, op0, signal);
        uses, erased := op0, true;
        return;
      }
      if c == -1 {
        MulMinusOne(was, op0, signal);
        i.operand0, i.operand1, i.op := IntConst(0), op0, Sub;
        return;
      }
      if c > 0 && OneBit(c) {
        MulPower(was, op0, c, signal);
        i.operand1, i.op := IntConst(CountZeros(c)), Shl;
        return;
      }
      MulSwapped(was, signal);
      Untouched(was, signal);
      if c < 0 && OneBit(Wrap32(-c)) {
        MulNegativePower(was, op0, c, next, signal);
        NeverNextTo(c);
        shl := new IBinaryInst(next, Shl, Reg(i.dst), IntConst(CountZeros(Wrap32(-c))));
        uses := Reg(next);
        i.operand0, i.operand1, i.op := IntConst(0), op0, Sub;
      }
      // The test below comes after the rewriting above, too.
      if i.op == Mull || !OneBit(NextTo(c)) {
        return;
      }
      i.operand0, i.operand1, i.op := op1, op0, Mull;
      return;
    }
    Untouched(was, signal);
  }

  /** `signal` is what is known of the dividend. */
  method OptimizeDiv(i: IBinaryInst, signal: Signal, next: Reg) returns (uses: Operand, erased: bool,
      ashr: IBinaryInst?)
    requires IsDiv(i.Value())
    requires i.operand0.Const? && i.operand1.Const? ==> IntOp(SDiv, i.operand0.v.i, i.operand1.v.i).Some?
    modifies i
    ensures ashr != null ==> fresh(ashr) && ashr.dst == next && !erased
    ensures ByNegativePower(old(i.Value()), signal) ==>
              Standing(i, erased, ashr) == NegatedDivisor(old(i.Value()), next) && uses == Reg(next)
    ensures !ByNegativePower(old(i.Value()), signal) ==> Serves(old(i.Value()), Standing(i, erased, ashr), uses, signal)
    ensures EasyDiv(old(i.Value()), signal) ==> Without(Standing(i, erased, ashr), {SDiv})
  {
    hide Serves, OneBit, Wrap32, CountZeros, PowerOrNegated;
    ghost var was := i.Value();
    if i.operand1.Const? { EasyConst(i.operand1.v.i); }
    uses, erased, ashr := Reg(i.dst), false, null;
    var op0, op1 := i.operand0, i.operand1;
    if op0 == op1 {
      DivSame(was, signal);
      uses, erased := IntConst(1), true;
      return;
    }
    if op0.Const? && op1.Const? {
      FoldConstants(was, op0.v.i, op1.v.i, TruncDiv(op0.v.i, op1.v.i), signal);
      uses, erased := IntConst(TruncDiv(op0.v.i, op1.v.i)), true;
      return;
    }
    if op0 == IntConst(0) {
      DivZero(was, signal);
      uses, erased := IntConst(0), true;
      return;
    }
    if op1.Const? {
      var c := op1.v.i;
      if c == 1 {
        DivOne(was, signal);
        uses, erased := op0, true;
        return;
      }
      if c == -1 {
        DivMinusOne(was, signal);
        i.operand0, i.operand1, i.op := IntConst(0), op0, Sub;
        return;
      }
      if c > 0 {
        if !signal.mayBeNegative && OneBit(c) {
          DivPower(was, c, signal);
          i.operand1, i.op := IntConst(CountZeros(c)), AShr;
          return;
        }
      } else if !signal.mayBePositive && OneBit(Wrap32(-c)) {
        if c == 0 {
          DivByZero(was, next, CountZeros(Wrap32(-c)), signal);
        }
        ashr := new IBinaryInst(next, AShr, Reg(i.dst), IntConst(CountZeros(Wrap32(-c))));
        uses := Reg(next);
        i.operand0, i.op := IntConst(0), Sub;
        return;
      }
    }
    Untouched(was, signal);
  }

  /** A division by 0 has no value to preserve. */
  lemma DivByZero(i: Instr, next: Reg, k: nat, s: Signal)
    requires IsDiv(i) && i.args[1] == IntConst(0)
    ensures Serves(i, [Pure(i.dst, Sub, [IntConst(0), IntConst(0)]), Pure(next, AShr, [Reg(i.dst), IntConst(k)])],
              Reg(next), s)
  {
    forall env: Env | Applies(i, env, s) ensures false {
      var x, y := Operate(i, env);
    }
  }

  /** `users` is the use list of `i`. */
  method OptimizeRem(i: IBinaryInst, signal: Signal, users: seq<Use>) returns (uses: Operand, erased: bool)
    requires IsRem(i.Value())
    requires i.operand0.Const? && i.operand1.Const? ==> IntOp(SRem, i.operand0.v.i, i.operand1.v.i).Some?
    modifies i
    ensures Serves(old(i.Value()), Standing(i, erased, null), uses, signal)
            || (TestedForZero(users, i.dst) && signal.mayBeNegative && uses == Reg(i.dst)
                && SameTest(old(i.Value()), Standing(i, erased, null), users[0].0, signal))
    ensures EasyRem(old(i.Value()), signal, users) ==> Without(Standing(i, erased, null), {SRem})
  {
    hide Serves, OneBit, Wrap32, CountZeros, Magnitude, SameTest, PowerOrNegated;
    ghost var was := i.Value();
    if i.operand1.Const? {
      EasyConst(i.operand1.v.i);
      MagnitudeIs(i.operand1.v.i);
    }
    uses, erased := Reg(i.dst), false;
    var op0, op1 := i.operand0, i.operand1;
    if op0 == op1 {
      RemNothing(was, signal);
      uses, erased := IntConst(0), true;
      return;
    }
    if op0.Const? && op1.Const? {
      FoldConstants(was, op0.v.i, op1.v.i, TruncRem(op0.v.i, op1.v.i), signal);
      uses, erased := IntConst(TruncRem(op0.v.i, op1.v.i)), true;
      return;
    }
    if op0 == IntConst(0) {
      RemNothing(was, signal);
      uses, erased := IntConst(0), true;
      return;
    }
    if op1.Const? {
      var c := op1.v.i;
      if c == 1 || c == -1 {
        RemNothing(was, signal);
        uses, erased := IntConst(0), true;
        return;
      }
      var cop2 := Magnitude(c);
      if OneBit(cop2) && TestedForZero(users, i.dst) {
        RemTested(was, c, users, signal);
        if !signal.mayBeNegative {
          RemMask(was, c, signal);
        }
        i.operand1, i.op := IntConst(Wrap32(cop2 - 1)), And;
        return;
      }
      if !signal.mayBeNegative && OneBit(cop2) {
        RemMask(was, c, signal);
        i.operand1, i.op := IntConst(Wrap32(cop2 - 1)), And;
        return;
      }
    }
    Untouched(was, signal);
  }
}
