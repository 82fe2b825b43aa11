/** The checked syntax tree of a function body and its meaning: what the source language promises,
    evaluated from left to right with short-circuit conditions. */
module Ast {
  import opened IR

  // ----- Syntax -----

  /** What a name refers to: a local scalar, an array at a fixed address, or an array parameter whose address is
      kept in a slot.  `dims` counts every dimension; the first one of a parameter is not used. */
  datatype Var = Scalar(slot: Slot) | Array(base: int, dims: seq<nat>) | ArrayParam(slot: Slot, dims: seq<nat>)

  /** A global scalar is at a fixed address, too, and has no dimensions. */
  function Global(base: int): Var {
    Array(base, [])
  }

  datatype MathOp = ADD | SUB | MUL | DIV | MOD

  datatype RelOp = LT | GT | LE | GE

  /** Expressions with an integer (or pointer) value. */
  datatype Exp =
    | Num(i: int)
    | RVal(x: Var, idx: seq<Exp>)
    | Math(op: MathOp, l: Exp, r: Exp)
    | Neg(e: Exp)
    | Invoke(callee: nat, args: seq<Exp>)
    | FromBool(c: Cond)

  /** Expressions of boolean type, which are only ever branched on. */
  datatype Cond =
    | Truth(b: bool)
    | NonZero(e: Exp)
    | Logic(isOr: bool, cs: seq<Cond>)
    | Equal(same: bool, l: Exp, r: Exp)
    | Relation(op: RelOp, l: Exp, r: Exp)
    | Not(c: Cond)

  datatype Stmt =
    | Assign(x: Var, idx: seq<Exp>, e: Exp)
    | Declare(slot: Slot, init: Option<Exp>)
    | If(c: Cond, yes: seq<Stmt>, no: seq<Stmt>)
    | While(c: Cond, body: seq<Stmt>)
    | Break
    | Continue
    | Return(result: Option<Exp>)
    | Scope(ss: seq<Stmt>)
    | ExpStmt(e: Exp)
    | CondStmt(c: Cond)

  // ----- What the parser guarantees -----

  /** Logical expressions have operands, and array parameters have dimensions. */
  predicate ProperExp(e: Exp)
    decreases e, 0
  {
    match e
    case Num(_) => true
    case RVal(x, idx) => (x.ArrayParam? ==> x.dims != []) && ProperExps(idx)
    case Math(_, l, r) => ProperExp(l) && ProperExp(r)
    case Neg(a) => ProperExp(a)
    case Invoke(_, args) => ProperExps(args)
    case FromBool(c) => ProperCond(c)
  }

  predicate ProperExps(es: seq<Exp>)
    decreases es, 0
  {
    es == [] || (ProperExp(es[0]) && ProperExps(es[1..]))
  }

  predicate ProperCond(c: Cond)
    decreases c, 0
  {
    match c
    case Truth(_) => true
    case NonZero(e) => ProperExp(e)
    case Logic(_, cs) => cs != [] && ProperConds(cs)
    case Equal(_, l, r) => ProperExp(l) && ProperExp(r)
    case Relation(_, l, r) => ProperExp(l) && ProperExp(r)
    case Not(a) => ProperCond(a)
  }

  predicate ProperConds(cs: seq<Cond>)
    decreases cs, 0
  {
    cs == [] || (ProperCond(cs[0]) && ProperConds(cs[1..]))
  }

  /** Break and continue occur in loops only. */
  predicate ProperStmt(s: Stmt, inLoop: bool)
    decreases s, 0
  {
    match s
    case Assign(_, idx, e) => ProperExps(idx) && ProperExp(e)
    case Declare(_, init) => init.Some? ==> ProperExp(init.value)
    case If(c, yes, no) => ProperCond(c) && ProperStmts(yes, inLoop) && ProperStmts(no, inLoop)
    case While(c, body) => ProperCond(c) && ProperStmts(body, true)
    case Break => inLoop
    case Continue => inLoop
    case Return(r) => r.Some? ==> ProperExp(r.value)
    case Scope(ss) => ProperStmts(ss, inLoop)
    case ExpStmt(e) => ProperExp(e)
    case CondStmt(c) => ProperCond(c)
  }

  predicate ProperStmts(ss: seq<Stmt>, inLoop: bool)
    decreases ss, 0
  {
    ss == [] || (ProperStmt(ss[0], inLoop) && ProperStmts(ss[1..], inLoop))
  }

  // ----- Meaning of expressions -----

  /** What a program can change; `None` is an undefined value. */
  datatype Mem = Mem(slots: Slots, heap: Heap, trace: seq<Event>)

  datatype Got = Got(v: Option<Val>, m: Mem)

  datatype GotAll = GotAll(vs: seq<Option<Val>>, m: Mem)

  datatype Chosen = Chosen(b: bool, m: Mem)

  /** The position in row-major order of the element the indices name, or of the first element of the sub-array,
      when `before` arrays of this shape come before this one. */
  function Position(dims: seq<nat>, vs: seq<int>, before: int): int
    requires |vs| <= |dims|
  {
    if dims == [] then before
    else if vs == [] then Position(dims[1..], [], before * dims[0])
    else Position(dims[1..], vs[1..], before * dims[0] + vs[0])
  }

  ghost predicate AllInts(vs: seq<Option<Val>>) {
    forall k :: 0 <= k < |vs| ==> vs[k].Some? && vs[k].value.IntVal?
  }

  ghost function Ints(vs: seq<Option<Val>>): (xs: seq<int>)
    requires AllInts(vs)
    ensures |xs| == |vs| && forall k :: 0 <= k < |xs| ==> xs[k] == vs[k].value.i
  {
    seq(|vs|, k requires 0 <= k < |vs| && vs[k].Some? && vs[k].value.IntVal? => vs[k].value.i)
  }

  /** The address of an element four bytes wide, or of a sub-array. */
  ghost function AddressOf(base: Option<Val>, dims: seq<nat>, vs: seq<Option<Val>>): Option<Val> {
    if vs == [] then base
    else if base.Some? && base.value.IntVal? && AllInts(vs) && |vs| <= |dims| then
      Some(IntVal(base.value.i + 4 * Position(dims, Ints(vs), 0)))
    else None
  }

  ghost function Base(x: Var, m: Mem): Option<Val> {
    match x
    case Scalar(_) => None
    case Array(base, _) => Some(IntVal(base))
    case ArrayParam(slot, _) => m.slots(slot)
  }

  /** Arithmetic wraps around; division truncates, and has no value by zero or out of range. */
  ghost function MathOn(op: MathOp, x: Option<Val>, y: Option<Val>): Option<Val> {
    if x.Some? && x.value.IntVal? && y.Some? && y.value.IntVal? then
      var a, b := x.value.i, y.value.i;
      match op
      case ADD => Some(IntVal(Wrap32(a + b)))
      case SUB => Some(IntVal(Wrap32(a - b)))
      case MUL => Some(IntVal(Wrap32(a * b)))
      case DIV => if b == 0 || (a == -TWO_TO_THE_31 && b == -1) then None else Some(IntVal(TruncDiv(a, b)))
      case MOD => if b == 0 || (a == -TWO_TO_THE_31 && b == -1) then None else Some(IntVal(a - b * TruncDiv(a, b)))
    else None
  }

  ghost function RelOn(op: RelOp, x: Option<Val>, y: Option<Val>): Option<bool> {
    if x.Some? && x.value.IntVal? && y.Some? && y.value.IntVal? then
      var a, b := x.value.i, y.value.i;
      match op
      case LT => Some(a < b)
      case GT => Some(a > b)
      case LE => Some(a <= b)
      case GE => Some(a >= b)
    else None
  }

  ghost function EqualOn(x: Option<Val>, y: Option<Val>): Option<bool> {
    if x.Some? && x.value.IntVal? && y.Some? && y.value.IntVal? then Some(x.value.i == y.value.i) else None
  }

  ghost function AllDefined(vs: seq<Option<Val>>): Option<seq<Val>> {
    if forall k :: 0 <= k < |vs| ==> vs[k].Some?
        then Some(seq(|vs|, k requires 0 <= k < |vs| && vs[k].Some? => vs[k].value)) else None
  }

  /** Nothing where the source language gives no meaning. */
  ghost function EvalExp(w: Oracle, e: Exp, m: Mem): Option<Got>
    decreases e, 0
  {
    match e
    case Num(i) => Some(Got(Some(IntVal(i)), m))
    case RVal(x, idx) =>
      if x.Scalar? then Some(Got(m.slots(x.slot), m))
      else
        var p := EvalPointer(w, x, idx, m);
        if p.None? then None
        else if |idx| != |x.dims| then p
        else Fetch(p.value)
    case Math(op, l, r) =>
      var x := EvalExp(w, l, m);
      if x.None? then None
      else
        var y := EvalExp(w, r, x.value.m);
        if y.None? then None else Some(Got(MathOn(op, x.value.v, y.value.v), y.value.m))
    case Neg(a) =>
      var x := EvalExp(w, a, m);
      if x.None? then None else Some(Got(MathOn(SUB, Some(IntVal(0)), x.value.v), x.value.m))
    case Invoke(callee, args) =>
      var vs := EvalExps(w, args, m);
      if vs.None? then None else CallOn(w, callee, AllDefined(vs.value.vs), vs.value.m)
    case FromBool(c) =>
      var b := EvalCond(w, c, m);
      if b.None? then None else Some(Got(Some(IntVal(if b.value.b then 1 else 0)), b.value.m))
  }

  ghost function Fetch(p: Got): Option<Got> {
    if p.v.Some? && p.v.value.IntVal? then Some(Got(HeapAt(p.m.heap, p.v.value.i), p.m)) else None
  }

  ghost function CallOn(w: Oracle, callee: nat, vs: Option<seq<Val>>, m: Mem): Option<Got> {
    if vs.None? then None
    else
      var (v, h) := w(callee, vs.value, m.heap);
      Some(Got(Some(v), Mem(m.slots, h, m.trace + [CallEvent(callee, vs.value)])))
  }

  ghost function EvalExps(w: Oracle, es: seq<Exp>, m: Mem): Option<GotAll>
    decreases es, 0
  {
    if es == [] then Some(GotAll([], m))
    else
      var x := EvalExp(w, es[0], m);
      if x.None? then None
      else
        var rest := EvalExps(w, es[1..], x.value.m);
        if rest.None? then None else Some(GotAll([x.value.v] + rest.value.vs, rest.value.m))
  }

  /** The address of an array is read before its indices are evaluated. */
  ghost function EvalPointer(w: Oracle, x: Var, idx: seq<Exp>, m: Mem): Option<Got>
    requires !x.Scalar?
    decreases idx, 1
  {
    var vs := EvalExps(w, idx, m);
    if vs.None? then None else Some(Got(AddressOf(Base(x, m), x.dims, vs.value.vs), vs.value.m))
  }

  /** A condition: which way it goes, after which changes. */
  ghost function EvalCond(w: Oracle, c: Cond, m: Mem): Option<Chosen>
    decreases c, 0
  {
    match c
    case Truth(b) => Some(Chosen(b, m))
    case NonZero(e) =>
      var x := EvalExp(w, e, m);
      if x.None? then None else Decide(EqualOn(x.value.v, Some(IntVal(0))), false, x.value.m)
    case Logic(isOr, cs) => EvalLogic(w, isOr, cs, m)
    case Equal(same, l, r) =>
      var x := EvalExp(w, l, m);
      if x.None? then None
      else
        var y := EvalExp(w, r, x.value.m);
        if y.None? then None else Decide(EqualOn(x.value.v, y.value.v), same, y.value.m)
    case Relation(op, l, r) =>
      var x := EvalExp(w, l, m);
      if x.None? then None
      else
        var y := EvalExp(w, r, x.value.m);
        if y.None? then None else Decide(RelOn(op, x.value.v, y.value.v), true, y.value.m)
    case Not(a) =>
      var b := EvalCond(w, a, m);
      if b.None? then None else Some(Chosen(!b.value.b, b.value.m))
  }

  /** True when the comparison comes out as `wanted`. */
  ghost function Decide(v: Option<bool>, wanted: bool, m: Mem): Option<Chosen> {
    if v.Some? then Some(Chosen(v.value == wanted, m)) else None
  }

  /** Operands from left to right, until one decides. */
  ghost function EvalLogic(w: Oracle, isOr: bool, cs: seq<Cond>, m: Mem): Option<Chosen>
    decreases cs, 0
  {
    if cs == [] then None
    else
      var b := EvalCond(w, cs[0], m);
      if b.None? || |cs| == 1 || b.value.b == isOr then b else EvalLogic(w, isOr, cs[1..], b.value.m)
  }

  // ----- Meaning of statements -----

  /** How a statement ends; `Timeout` when it needs more than `fuel` rounds of a loop, `Wrong` when the
      source language gives it no meaning. */
  datatype Outcome = Normal(m: Mem) | Broke(m: Mem) | Continued(m: Mem) | Returned(r: Option<Val>, m: Mem)
      | Timeout | Wrong

  ghost function EvalStmt(w: Oracle, s: Stmt, m: Mem, fuel: nat): Outcome
    decreases fuel, s, 0
  {
    match s
    case Assign(x, idx, e) => EvalAssign(w, x, idx, e, m)
    case Declare(v, None) => Normal(m)
    case Declare(v, Some(e)) => EvalAssign(w, Scalar(v), [], e, m)
    case If(c, yes, no) =>
      var b := EvalCond(w, c, m);
      if b.None? then Wrong else EvalStmts(w, if b.value.b then yes else no, b.value.m, fuel)
    case While(c, body) => EvalWhile(w, c, body, m, fuel)
    case Break => Broke(m)
    case Continue => Continued(m)
    case Return(None) => Returned(None, m)
    case Return(Some(e)) =>
      var x := EvalExp(w, e, m);
      if x.None? || x.value.v.None? then Wrong else Returned(x.value.v, x.value.m)
    case Scope(ss) => EvalStmts(w, ss, m, fuel)
    case ExpStmt(e) =>
      var x := EvalExp(w, e, m);
      if x.None? then Wrong else Normal(x.value.m)
    case CondStmt(c) =>
      var b := EvalCond(w, c, m);
      if b.None? then Wrong else Normal(b.value.m)
  }

  /** The target is worked out before the value. */
  ghost function EvalAssign(w: Oracle, x: Var, idx: seq<Exp>, e: Exp, m: Mem): Outcome {
    if x.Scalar? then
      var y := EvalExp(w, e, m);
      if y.None? then Wrong else Normal(y.value.m.(slots := SetReg(y.value.m.slots, x.slot, y.value.v)))
    else
      var p := EvalPointer(w, x, idx, m);
      if p.None? then Wrong
      else
        var y := EvalExp(w, e, p.value.m);
        if y.None? then Wrong else Put(p.value.v, y.value.v, y.value.m)
  }

  ghost function Put(p: Option<Val>, v: Option<Val>, m: Mem): Outcome {
    if p.Some? && p.value.IntVal? && v.Some? then
      Normal(Mem(m.slots, m.heap[p.value.i := v.value], m.trace + [StoreEvent(p.value.i, v.value)]))
    else Wrong
  }

  ghost function EvalStmts(w: Oracle, ss: seq<Stmt>, m: Mem, fuel: nat): Outcome
    decreases fuel, ss, 0
  {
    if ss == [] then Normal(m)
    else
      var o := EvalStmt(w, ss[0], m, fuel);
      if o.Normal? then EvalStmts(w, ss[1..], o.m, fuel) else o
  }

  ghost function EvalWhile(w: Oracle, c: Cond, body: seq<Stmt>, m: Mem, fuel: nat): Outcome
    decreases fuel, body, 1
  {
    if fuel == 0 then Timeout
    else
      var b := EvalCond(w, c, m);
      if b.None? then Wrong
      else if !b.value.b then Normal(b.value.m)
      else
        var o := EvalStmts(w, body, b.value.m, fuel - 1);
        match o
        case Normal(m1) => EvalWhile(w, c, body, m1, fuel - 1)
        case Continued(m1) => EvalWhile(w, c, body, m1, fuel - 1)
        case Broke(m1) => Normal(m1)
        case _ => o
  }

  // ----- More fuel does not change how a statement ends -----

  lemma {:induction false} MoreFuel(w: Oracle, s: Stmt, m: Mem, fuel: nat)
    ensures EvalStmt(w, s, m, fuel).Timeout? || EvalStmt(w, s, m, fuel + 1) == EvalStmt(w, s, m, fuel)
    decreases fuel, s, 0
  {
    match s
    case If(c, yes, no) =>
      var b := EvalCond(w, c, m);
      if b.Some? { MoreFuelAll(w, if b.value.b then yes else no, b.value.m, fuel); }
    case While(c, body) => MoreFuelWhile(w, c, body, m, fuel);
    case Scope(ss) => MoreFuelAll(w, ss, m, fuel);
    case _ =>
  }

  lemma {:induction false} MoreFuelAll(w: Oracle, ss: seq<Stmt>, m: Mem, fuel: nat)
    ensures EvalStmts(w, ss, m, fuel).Timeout? || EvalStmts(w, ss, m, fuel + 1) == EvalStmts(w, ss, m, fuel)
    decreases fuel, ss, 0
  {
    if ss != [] {
      MoreFuel(w, ss[0], m, fuel);
      var o := EvalStmt(w, ss[0], m, fuel);
      if o.Normal? { MoreFuelAll(w, ss[1..], o.m, fuel); }
    }
  }

  lemma {:induction false} MoreFuelWhile(w: Oracle, c: Cond, body: seq<Stmt>, m: Mem, fuel: nat)
    ensures EvalWhile(w, c, body, m, fuel).Timeout?
            || EvalWhile(w, c, body, m, fuel + 1) == EvalWhile(w, c, body, m, fuel)
    decreases fuel, body, 1
  {
    if fuel > 0 {
      var b := EvalCond(w, c, m);
      if b.Some? && b.value.b {
        MoreFuelAll(w, body, b.value.m, fuel - 1);
        var o := EvalStmts(w, body, b.value.m, fuel - 1);
        if o.Normal? || o.Continued? { MoreFuelWhile(w, c, body, o.m, fuel - 1); }
      }
    }
  }
}
