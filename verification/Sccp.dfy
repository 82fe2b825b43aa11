/** Sparse conditional constant propagation: the value lattice and the two worklists
    (`SCCP::run`, `SCCPVisitor`). */
module Sccp {
  import opened IR

  // ----- The lattice -----

  /** Ordered `Nac < Undef < Constant < Init`; an undecided value is not optimistic here. */
  datatype ValStatus = Nac | Undef | Constant(c: Val) | Init

  function Rank(s: ValStatus): nat {
    match s case Nac => 0 case Undef => 1 case Constant(_) => 2 case Init => 3
  }

  function Meet(a: ValStatus, b: ValStatus): ValStatus {
    if Rank(b) < Rank(a) then b
    else if a.Constant? && b.Constant? && a.c != b.c then Nac
    else a
  }

  type ValueMap = map<Reg, ValStatus>

  function Get(vm: ValueMap, o: Operand): ValStatus {
    match o
    case Const(v) => Constant(v)
    case Reg(r) => if r in vm then vm[r] else Undef
  }

  /** The meet of the statuses of `os`, starting from `cur`. */
  function MeetFrom(vm: ValueMap, os: seq<Operand>, cur: ValStatus): ValStatus {
    if os == [] then cur else MeetFrom(vm, os[1..], Meet(cur, Get(vm, os[0])))
  }

  // ----- Folding -----

  /** The compiler computes the constant, or fails while doing so. */
  datatype Fold = Folded(v: Val) | Raised

  /** The operations the pass tries to fold; a remainder is not among them. */
  predicate Foldable(op: Op, arity: nat) {
    if op == Zext then arity == 1 else op != SRem && !op.Gep? && arity == 2
  }

  /** Widening reads its operand as an integer constant, and raises on a boolean one. */
  function ConstFold(op: Op, args: seq<Val>): Fold {
    if op == Zext then
      if |args| == 1 && args[0].IntVal? then Folded(args[0]) else Raised
    else
      var v := Apply(op, args);
      if v.Some? then Folded(v.value) else Raised
  }

  predicate AllConstant(vm: ValueMap, os: seq<Operand>) {
    forall k :: 0 <= k < |os| ==> Get(vm, os[k]).Constant?
  }

  function Constants(vm: ValueMap, os: seq<Operand>): seq<Val>
    requires AllConstant(vm, os)
  {
    seq(|os|, k requires 0 <= k < |os| => Get(vm, os[k]).c)
  }

  /** The status an instruction gets from its operands; nothing when folding raises. */
  function Transfer(vm: ValueMap, i: Instr): Option<ValStatus> {
    if i.Pure? && Foldable(i.op, |i.args|) then
      if AllConstant(vm, i.args) then
        var r := ConstFold(i.op, Constants(vm, i.args));
        if r.Folded? then Some(Constant(r.v)) else None
      else Some(MeetFrom(vm, i.args, Init))
    else Some(Nac)
  }

  function TransferRef(f: Function, vm: ValueMap, x: Ref): Option<ValStatus>
    requires IsRef(f, x) && RefDefines(f, x).Some?
  {
    match x
    case PhiRef(b, k) => Some(MeetFrom(vm, PhiOperands(f.blocks[b].phis[k]), Init))
    case BodyRef(b, k) => Transfer(vm, f.blocks[b].body[k])
  }

  // ----- Edges -----

  /** An edge of the graph; the entry block is reached from nowhere. */
  type FlowEdge = (Option<BlockId>, BlockId)

  function EdgeTo(from: BlockId, to: BlockId): FlowEdge {
    (Some(from), to)
  }

  /** The edges a terminator makes executable; a branch on a constant that is no boolean raises. */
  function FlowEdges(f: Function, vm: ValueMap, b: BlockId): (es: Option<seq<FlowEdge>>)
    requires b in f.blocks
  {
    match f.blocks[b].term
    case Br(x) => Some([EdgeTo(b, x)])
    case CondBr(c, x, y) =>
      var s := Get(vm, c);
      if s.Constant? then
        if s.c.BoolVal? then Some([EdgeTo(b, if s.c.b then x else y)]) else None
      else Some([EdgeTo(b, x), EdgeTo(b, y)])
    case Ret(_) => Some([])
  }

  // ----- What the analysis keeps -----

  /** Every decided register has the status its operands give it now. */
  ghost predicate Settled(f: Function, vm: ValueMap) {
    forall x :: IsRef(f, x) && RefDefines(f, x).Some? && Get(vm, Reg(RefDefines(f, x).value)) != Undef ==>
      TransferRef(f, vm, x) == Some(Get(vm, Reg(RefDefines(f, x).value)))
  }

  /** Only registers of the function are decided. */
  ghost predicate OnlyDefined(f: Function, vm: ValueMap) {
    forall r :: r in vm && vm[r] != Undef ==> exists x :: IsRef(f, x) && RefDefines(f, x) == Some(r)
  }

  /** `b` passes control only along edges in `es`. */
  ghost predicate Closed(f: Function, vm: ValueMap, b: BlockId, es: set<FlowEdge>) {
    && b in f.blocks
    && (FlowEdges(f, vm, b).Some? ==> forall e :: e in FlowEdges(f, vm, b).value ==> e in es)
  }

  /** What the worklists end with. */
  ghost predicate Solution(f: Function, vm: ValueMap, visited: set<FlowEdge>) {
    && Settled(f, vm)
    && (None, f.entry) in visited
    && forall e :: e in visited ==> Closed(f, vm, e.1, visited)
  }

  // ----- The lattice never moves a decided value -----

  /** `vm'` decides at least what `vm` decides, in the same way. */
  ghost predicate Extends(vm: ValueMap, vm': ValueMap) {
    forall r: Reg :: Get(vm, Reg(r)) != Undef ==> Get(vm', Reg(r)) == Get(vm, Reg(r))
  }

  lemma {:induction false} NacSinks(vm: ValueMap, os: seq<Operand>, cur: ValStatus)
    requires cur == Nac || exists k :: 0 <= k < |os| && Get(vm, os[k]) == Nac
    ensures MeetFrom(vm, os, cur) == Nac
  {
    if os != [] {
      if cur != Nac {
        var k :| 0 <= k < |os| && Get(vm, os[k]) == Nac;
        assert k > 0 ==> os[1..][k - 1] == os[k];
      }
      NacSinks(vm, os[1..], Meet(cur, Get(vm, os[0])));
    }
  }

  lemma {:induction false} UndefSinks(vm: ValueMap, os: seq<Operand>)
    requires MeetFrom(vm, os, Undef) != Undef
    ensures exists k :: 0 <= k < |os| && Get(vm, os[k]) == Nac
  {
    if Get(vm, os[0]) != Nac {
      UndefSinks(vm, os[1..]);
      var k :| 0 <= k < |os[1..]| && Get(vm, os[1..][k]) == Nac;
      assert os[k + 1] == os[1..][k];
    }
  }

  /** A decided meet stays what it is when more operands get decided. */
  lemma {:induction false} MeetStable(vm: ValueMap, vm': ValueMap, os: seq<Operand>, cur: ValStatus)
    requires Extends(vm, vm') && MeetFrom(vm, os, cur) != Undef
    ensures MeetFrom(vm', os, cur) == MeetFrom(vm, os, cur)
  {
    if os != [] {
      var s := Get(vm, os[0]);
      if s != Undef {
        MeetStable(vm, vm', os[1..], Meet(cur, s));
      } else if cur == Nac {
        NacSinks(vm, os, cur);
        NacSinks(vm', os, cur);
      } else {
        UndefSinks(vm, os[1..]);
        NacSinks(vm, os[1..], Undef);
        NacSinks(vm', os, cur);
      }
    }
  }

  /** With at most two operands, a decided meet of operands that are not all constant names one
      that never will be. */
  lemma StaysUnfolded(vm: ValueMap, vm': ValueMap, os: seq<Operand>)
    requires |os| <= 2 && Extends(vm, vm')
    requires !AllConstant(vm, os) && MeetFrom(vm, os, Init) != Undef
    ensures !AllConstant(vm', os)
  {
    assert MeetFrom(vm, os, Init) ==
           if |os| == 0 then Init
           else if |os| == 1 then Meet(Init, Get(vm, os[0]))
           else Meet(Meet(Init, Get(vm, os[0])), Get(vm, os[1])) by {
      if |os| == 2 {
        assert os[1..][1..] == [];
        assert MeetFrom(vm, os[1..], Meet(Init, Get(vm, os[0]))) ==
               MeetFrom(vm, os[1..][1..], Meet(Meet(Init, Get(vm, os[0])), Get(vm, os[1..][0])));
      }
    }
    var k := if Get(vm, os[0]) == Undef || Get(vm, os[0]).Constant? then 1 else 0;
    assert !Get(vm, os[k]).Constant? && Get(vm, os[k]) != Undef;
    assert Get(vm', os[k]) == Get(vm, os[k]);
  }

  lemma FoldStable(vm: ValueMap, vm': ValueMap, i: Instr)
    requires Extends(vm, vm') && i.Pure? && Foldable(i.op, |i.args|)
    requires Transfer(vm, i).Some? && Transfer(vm, i).value != Undef
    ensures Transfer(vm', i) == Transfer(vm, i)
  {
    if AllConstant(vm, i.args) {
      StaysConstant(vm, vm', i.args);
      hide Get, Extends, AllConstant, Constants, MeetFrom, Meet, Rank, ConstFold;
    } else {
      FoldableShort(i);
      hide ConstFold, Apply, Foldable;
      MeetStable(vm, vm', i.args, Init);
      StaysUnfolded(vm, vm', i.args);
    }
  }

  lemma StaysConstant(vm: ValueMap, vm': ValueMap, os: seq<Operand>)
    requires Extends(vm, vm') && AllConstant(vm, os)
    ensures AllConstant(vm', os) && Constants(vm', os) == Constants(vm, os)
  {
    forall k | 0 <= k < |os| ensures Get(vm', os[k]) == Get(vm, os[k]) {}
  }

  lemma FoldableShort(i: Instr)
    requires i.Pure? && Foldable(i.op, |i.args|)
    ensures |i.args| <= 2
  {
  }

  /** A decided status does not move when more registers get decided. */
  lemma TransferStable(f: Function, vm: ValueMap, vm': ValueMap, x: Ref)
    requires IsRef(f, x) && RefDefines(f, x).Some? && Extends(vm, vm')
    requires TransferRef(f, vm, x).Some? && TransferRef(f, vm, x).value != Undef
    ensures TransferRef(f, vm', x) == TransferRef(f, vm, x)
  {
    if x.PhiRef? {
      MeetStable(vm, vm', PhiOperands(f.blocks[x.b].phis[x.k]), Init);
    } else {
      var i := f.blocks[x.b].body[x.k];
      if i.Pure? && Foldable(i.op, |i.args|) {
        hide *;
        FoldStable(vm, vm', i);
      }
    }
  }

  // ----- What is found constant -----

  predicate IsOrNothing(vm: ValueMap, o: Operand, c: Val) {
    Get(vm, o) == Constant(c) || Get(vm, o) == Init
  }

  lemma {:induction false} MeetConstant(vm: ValueMap, os: seq<Operand>, cur: ValStatus, c: Val)
    ensures MeetFrom(vm, os, cur) == Constant(c) <==>
              && (cur == Constant(c) || cur == Init) && (forall k :: 0 <= k < |os| ==> IsOrNothing(vm, os[k], c))
              && (cur == Constant(c) || exists k :: 0 <= k < |os| && Get(vm, os[k]) == Constant(c))
  {
    if os != [] {
      MeetConstant(vm, os[1..], Meet(cur, Get(vm, os[0])), c);
      assert forall k :: 0 < k < |os| ==> os[k] == os[1..][k - 1];
      assert forall k :: 0 <= k < |os[1..]| ==> os[1..][k] == os[k + 1];
    }
  }

  /** A phi is constant if and only if all its operands are that constant, apart from some that never have a value. */
  lemma PhiConstant(f: Function, vm: ValueMap, b: BlockId, k: nat, c: Val)
    requires IsRef(f, PhiRef(b, k))
    ensures var os := PhiOperands(f.blocks[b].phis[k]);
            TransferRef(f, vm, PhiRef(b, k)) == Some(Constant(c)) <==>
              (forall j :: 0 <= j < |os| ==> IsOrNothing(vm, os[j], c)) && exists j ::
                  0 <= j < |os| && Get(vm, os[j]) == Constant(c)
  {
    MeetConstant(vm, PhiOperands(f.blocks[b].phis[k]), Init, c);
  }

  /** An operation on two constant numbers is the constant it computes; remainders are the exception. */
  lemma FoldsNumbers(vm: ValueMap, i: Instr, x: int, y: int)
    requires i.Pure? && i.args != [] && |i.args| == 2
    requires i.op in {Add, Sub, Mul, Mull, SDiv, Shl, AShr, And, Lt, Le, Gt, Ge, Eq, Ne} && IntOp(i.op, x, y).Some?
    requires Get(vm, i.args[0]) == Constant(IntVal(x)) && Get(vm, i.args[1]) == Constant(IntVal(y))
    ensures Transfer(vm, i) == Some(Constant(IntOp(i.op, x, y).value))
  {
    assert Constants(vm, i.args) == [IntVal(x), IntVal(y)];
    hide IntOp;
  }

  // ----- Positions, users, measures -----

  /** The instructions that have register `r` as an operand. */
  function Users(f: Function, r: Reg): set<Ref> {
    set x | x in AllRefs(f) && IsRef(f, x) && Reg(r) in RefOperands(f, x)
  }

  lemma {:induction false} MeetIgnores(vm: ValueMap, vm': ValueMap, r: Reg, os: seq<Operand>, cur: ValStatus)
    requires forall q: Reg :: q != r ==> Get(vm', Reg(q)) == Get(vm, Reg(q))
    requires Reg(r) !in os
    ensures MeetFrom(vm', os, cur) == MeetFrom(vm, os, cur)
  {
    if os != [] {
      assert os[0] in os;
      MeetIgnores(vm, vm', r, os[1..], Meet(cur, Get(vm, os[0])));
    }
  }

  /** A status only depends on the operands: instructions that do not use `r` need no new visit. */
  lemma TransferIgnores(f: Function, vm: ValueMap, vm': ValueMap, r: Reg, x: Ref)
    requires forall q: Reg :: q != r ==> Get(vm', Reg(q)) == Get(vm, Reg(q))
    requires IsRef(f, x) && RefDefines(f, x).Some? && x !in Users(f, r)
    ensures TransferRef(f, vm', x) == TransferRef(f, vm, x)
  {
    AllRefsExact(f, x);
    var os := RefOperands(f, x);
    MeetIgnores(vm, vm', r, os, Init);
    forall k | 0 <= k < |os| ensures Get(vm', os[k]) == Get(vm, os[k]) {
      assert os[k] in os;
    }
    if AllConstant(vm, os) {
      assert Constants(vm', os) == Constants(vm, os);
    }
  }

  ghost function Undecided(defs: set<Reg>, vm: ValueMap): set<Reg> {
    set r | r in defs && Get(vm, Reg(r)) == Undef
  }

  /** A branch on a constant operand does not go to `x`. */
  predicate RuledOut(t: Term, x: BlockId) {
    t.CondBr? && t.cond.Const? && t.cond.v.BoolVal? && x != if t.cond.v.b then t.ifTrue else t.ifFalse
  }

  /** `defs` names every defined register and `edges` every edge of the graph that is not ruled out, the entry's
      included. */
  ghost predicate Frame(f: Function, defs: set<Reg>, edges: set<FlowEdge>) {
    && (forall x :: IsRef(f, x) && RefDefines(f, x).Some? ==> RefDefines(f, x).value in defs)
    && (None, f.entry) in edges
    && (forall b, x :: b in f.blocks && x in Successors(f.blocks[b].term) ==>
          EdgeTo(b, x) in edges || RuledOut(f.blocks[b].term, x))
    && (forall e :: e in edges ==> e.1 in f.blocks && (e.0.None? ==> e.1 == f.entry))
    && (forall e :: e in edges && e.0.Some? ==> e.0.value in f.blocks && !RuledOut(f.blocks[e.0.value].term, e.1))
  }

  ghost function DefinedRegs(f: Function): set<Reg> {
    set x | x in AllRefs(f) && IsRef(f, x) && RefDefines(f, x).Some? :: RefDefines(f, x).value
  }

  ghost function GraphEdges(f: Function): set<FlowEdge> {
    {(None, f.entry)}
    + set b, x | b in f.blocks.Keys && x in Successors(f.blocks[b].term) && !RuledOut(f.blocks[b].term, x)
        :: EdgeTo(b, x)
  }

  lemma FrameHolds(f: Function)
    ensures TargetsExist(f) ==> Frame(f, DefinedRegs(f), GraphEdges(f))
  {
    forall x | IsRef(f, x) && RefDefines(f, x).Some? ensures RefDefines(f, x).value in DefinedRegs(f) {
      AllRefsExact(f, x);
    }
  }

  /** Deciding one register settles it and keeps everything decided before. */
  lemma DecideKeeps(f: Function, vm: ValueMap, x: Ref, s: ValStatus, vm': ValueMap)
    requires SingleAssignment(f) && Settled(f, vm) && OnlyDefined(f, vm)
    requires IsRef(f, x) && RefDefines(f, x).Some? && TransferRef(f, vm, x) == Some(s) && s != Undef
    requires Get(vm, Reg(RefDefines(f, x).value)) == Undef
    requires vm' == vm[RefDefines(f, x).value := s]
    ensures Settled(f, vm') && OnlyDefined(f, vm') && Extends(vm, vm')
  {
    forall y | IsRef(f, y) && RefDefines(f, y).Some? && Get(vm', Reg(RefDefines(f, y).value)) != Undef
      ensures TransferRef(f, vm', y) == Some(Get(vm', Reg(RefDefines(f, y).value)))
    {
      TransferStable(f, vm, vm', y);
    }
  }

  /** A decided register is never visited to a different status. */
  lemma VisitOfDecided(f: Function, vm: ValueMap, x: Ref)
    requires Settled(f, vm) && IsRef(f, x) && RefDefines(f, x).Some?
    requires Get(vm, Reg(RefDefines(f, x).value)) != Undef
    ensures TransferRef(f, vm, x) == Some(Get(vm, Reg(RefDefines(f, x).value)))
  {
  }

  ghost function Elems<T>(xs: seq<T>): set<T> {
    set x | x in xs
  }

  // ----- The pass -----

  /** A register whose status is not what its operands give it now. */
  ghost predicate Stale(f: Function, vm: ValueMap, x: Ref) {
    IsRef(f, x) && RefDefines(f, x).Some? && TransferRef(f, vm, x) != Some(Get(vm, Reg(RefDefines(f, x).value)))
  }

  ghost predicate Reached(visited: set<FlowEdge>, b: BlockId) {
    exists e :: e in visited && e.1 == b
  }

  /** Every out-of-date instruction of a reached block is still to be visited.  The entry block,
      which no edge of the graph leads to, is visited once, in order. */
  ghost predicate UpToDate(f: Function, vm: ValueMap, visited: set<FlowEdge>, waiting: seq<Ref>) {
    forall y :: Stale(f, vm, y) && Reached(visited, y.b) && y.b != f.entry ==> y in waiting
  }

  /** Position `y` of a block comes before position `x`. */
  predicate Sooner(y: Ref, x: Ref) {
    match x
    case PhiRef(_, k) => y.PhiRef? && y.k < k
    case BodyRef(_, k) => y.PhiRef? || (y.BodyRef? && y.k < k)
    case TermRef(_) => !y.TermRef?
  }

  /** The entry block reads only what it has computed before, and registers nothing defines. */
  ghost predicate EntryFirst(f: Function) {
    forall x, y :: IsRef(f, x) && x.b == f.entry && IsRef(f, y) && RefDefines(f, y).Some?
                   && Reg(RefDefines(f, y).value) in RefOperands(f, x)
      ==> y.b == f.entry && Sooner(y, x)
  }

  ghost predicate EntrySettled(f: Function, vm: ValueMap) {
    forall x: Ref :: x.b == f.entry ==> !Stale(f, vm, x)
  }

  /** Folding an instruction, or branching, fails with what is known. */
  ghost predicate Raises(f: Function, vm: ValueMap) {
    && Settled(f, vm) && OnlyDefined(f, vm)
    && ((exists x :: IsRef(f, x) && RefDefines(f, x).Some? && TransferRef(f, vm, x).None?)
        || (exists b :: b in f.blocks && FlowEdges(f, vm, b).None?))
  }

  lemma VisitKeepsEntry(f: Function, vm: ValueMap, vm': ValueMap, x: Ref, pushed: seq<Ref>)
    requires EntryFirst(f) && EntrySettled(f, vm) && IsRef(f, x) && RefDefines(f, x).Some?
    requires Refreshed(f, vm, vm', {x}, pushed) && (!Stale(f, vm, x) ==> vm' == vm)
    requires forall y :: y in pushed ==> y in Users(f, RefDefines(f, x).value)
    ensures EntrySettled(f, vm')
  {
    hide Stale, Sooner;
    if x.b != f.entry {
      forall y: Ref | y.b == f.entry ensures !Stale(f, vm', y) {}
    }
  }

  /** Visiting the entry block in order leaves what was visited settled. */
  lemma VisitNextInEntry(f: Function, vm: ValueMap, vm': ValueMap, k: nat, pushed: seq<Ref>)
    requires f.entry in f.blocks && EntryFirst(f) && k < |BlockRefs(f, f.entry)|
    requires var refs := BlockRefs(f, f.entry);
             && (forall j :: 0 <= j < k ==> !Stale(f, vm, refs[j]))
             && IsRef(f, refs[k]) && RefDefines(f, refs[k]).Some? && Refreshed(f, vm, vm', {refs[k]}, pushed)
             && forall y :: y in pushed ==> y in Users(f, RefDefines(f, refs[k]).value)
    ensures forall j :: 0 <= j <= k ==> !Stale(f, vm', BlockRefs(f, f.entry)[j])
  {
    var refs := BlockRefs(f, f.entry);
    hide Stale, BlockRefs, Sooner;
    forall j | 0 <= j <= k ensures !Stale(f, vm', refs[j]) {
      RefsOrdered(f, f.entry, j, k);
      assert refs[j] !in Users(f, RefDefines(f, refs[k]).value);
    }
  }

  lemma RefsOrdered(f: Function, b: BlockId, j: nat, k: nat)
    requires b in f.blocks && j <= k < |BlockRefs(f, b)|
    ensures var refs := BlockRefs(f, b);
            !Sooner(refs[k], refs[j]) && refs[j].b == b && (refs[j] == refs[k] <==> j == k)
  {
  }

  /** What is known of a branch's condition sends it elsewhere than along `e`. */
  predicate Excluded(f: Function, vm: ValueMap, e: FlowEdge) {
    && e.0.Some? && e.0.value in f.blocks && f.blocks[e.0.value].term.CondBr?
    && var t := f.blocks[e.0.value].term;
       var s := Get(vm, t.cond);
       s.Constant? && s.c.BoolVal? && e.1 != if s.c.b then t.ifTrue else t.ifFalse
  }

  /** The entry block is settled once it has been visited, and control leaves it only where its branch goes. */
  ghost predicate EntryOk(f: Function, vm: ValueMap, visited: set<FlowEdge>, flow: seq<FlowEdge>) {
    && (Reached(visited, f.entry) ==> EntrySettled(f, vm))
    && forall e :: (e in visited || e in flow) && e.0 == Some(f.entry) ==>
         Reached(visited, f.entry) && !Excluded(f, vm, e)
  }

  lemma {:induction false} MeetSame(vm: ValueMap, vm': ValueMap, os: seq<Operand>, cur: ValStatus)
    requires forall k :: 0 <= k < |os| ==> Get(vm', os[k]) == Get(vm, os[k])
    ensures MeetFrom(vm', os, cur) == MeetFrom(vm, os, cur)
  {
    if os != [] {
      assert forall k :: 0 <= k < |os[1..]| ==> os[1..][k] == os[k + 1];
      MeetSame(vm, vm', os[1..], Meet(cur, Get(vm, os[0])));
    }
  }

  lemma TransferSame(f: Function, vm: ValueMap, vm': ValueMap, x: Ref)
    requires IsRef(f, x) && RefDefines(f, x).Some?
    requires var os := RefOperands(f, x); forall k :: 0 <= k < |os| ==> Get(vm', os[k]) == Get(vm, os[k])
    ensures TransferRef(f, vm', x) == TransferRef(f, vm, x)
  {
    var os := RefOperands(f, x);
    MeetSame(vm, vm', os, Init);
    if AllConstant(vm, os) {
      assert Constants(vm', os) == Constants(vm, os);
    }
    hide MeetFrom, ConstFold, Foldable;
  }

  ghost predicate SameStatus(f: Function, vm: ValueMap, vm': ValueMap, x: Ref) {
    IsRef(f, x) && RefDefines(f, x).Some? ==>
      Get(vm', Reg(RefDefines(f, x).value)) == Get(vm, Reg(RefDefines(f, x).value))
  }

  lemma OperandSame(f: Function, vm: ValueMap, vm': ValueMap, x: Ref, o: Operand)
    requires EntryFirst(f) && OnlyDefined(f, vm) && OnlyDefined(f, vm')
    requires IsRef(f, x) && x.b == f.entry && o in RefOperands(f, x)
    requires forall y: Ref :: y.b == f.entry && Sooner(y, x) ==> SameStatus(f, vm, vm', y)
    ensures Get(vm', o) == Get(vm, o)
  {
    if o.Reg? {
      if y :| IsRef(f, y) && RefDefines(f, y) == Some(o.r) {
        assert SameStatus(f, vm, vm', y);
      } else {
        assert !(o.r in vm && vm[o.r] != Undef) && !(o.r in vm' && vm'[o.r] != Undef);
      }
    }
  }

  /** Later visits do not change what was found in the entry block. */
  lemma {:induction false} EntrySame(f: Function, vm: ValueMap, vm': ValueMap, x: Ref)
    requires EntryFirst(f) && OnlyDefined(f, vm) && OnlyDefined(f, vm') && EntrySettled(f, vm) && EntrySettled(f, vm')
    requires x.b == f.entry
    ensures SameStatus(f, vm, vm', x)
    decreases if x.PhiRef? then 0 else if x.BodyRef? then 1 else 2, if x.TermRef? then 0 else x.k
  {
    if IsRef(f, x) && RefDefines(f, x).Some? {
      forall y: Ref | y.b == f.entry && Sooner(y, x) ensures SameStatus(f, vm, vm', y) {
        EntrySame(f, vm, vm', y);
      }
      hide SameStatus, Sooner, OnlyDefined, EntryFirst;
      var os := RefOperands(f, x);
      forall k | 0 <= k < |os| ensures Get(vm', os[k]) == Get(vm, os[k]) {
        OperandSame(f, vm, vm', x, os[k]);
      }
      TransferSame(f, vm, vm', x);
      SameIs(f, vm, vm', x);
    }
  }

  lemma SameIs(f: Function, vm: ValueMap, vm': ValueMap, x: Ref)
    requires IsRef(f, x) && RefDefines(f, x).Some? && TransferRef(f, vm', x) == TransferRef(f, vm, x)
    requires !Stale(f, vm, x) && !Stale(f, vm', x)
    ensures SameStatus(f, vm, vm', x)
  {
  }

  lemma ExcludedSame(f: Function, vm: ValueMap, vm': ValueMap, e: FlowEdge)
    requires EntryFirst(f) && OnlyDefined(f, vm) && OnlyDefined(f, vm') && EntrySettled(f, vm) && EntrySettled(f, vm')
    requires e.0 == Some(f.entry) && f.entry in f.blocks
    ensures Excluded(f, vm', e) == Excluded(f, vm, e)
  {
    var t := f.blocks[f.entry].term;
    if t.CondBr? {
      forall y: Ref | y.b == f.entry && Sooner(y, TermRef(f.entry)) ensures SameStatus(f, vm, vm', y) {
        EntrySame(f, vm, vm', y);
      }
      hide SameStatus, Sooner, OnlyDefined, EntryFirst, EntrySettled;
      assert TermOperands(t)[0] == t.cond;
      OperandSame(f, vm, vm', TermRef(f.entry), t.cond);
    }
  }

  lemma TakenNotExcluded(f: Function, vm: ValueMap, b: BlockId, e: FlowEdge)
    requires b in f.blocks && FlowEdges(f, vm, b).Some? && e in FlowEdges(f, vm, b).value
    ensures e.0 == Some(b) && !Excluded(f, vm, e)
  {
  }

  /** A step that visits block `b`, reached along `more`, or one instruction, keeps this. */
  lemma EntryKept(f: Function, vm: ValueMap, vm': ValueMap, visited: set<FlowEdge>, more: set<FlowEdge>,
                  flow: seq<FlowEdge>, flow': seq<FlowEdge>, b: BlockId)
    requires EntryFirst(f) && f.entry in f.blocks && OnlyDefined(f, vm) && OnlyDefined(f, vm')
    requires EntryOk(f, vm, visited, flow) && (forall e :: e in more ==> e in flow && e.1 == b)
    requires Reached(visited + more, f.entry) ==> EntrySettled(f, vm')
    requires b in f.blocks && (b == f.entry ==> Reached(visited + more, f.entry))
    requires flow' == flow || (FlowEdges(f, vm', b).Some? && flow' == flow + FlowEdges(f, vm', b).value)
    ensures EntryOk(f, vm', visited + more, flow')
  {
    hide Excluded, EntrySettled, EntryFirst, OnlyDefined, FlowEdges;
    assert Reached(visited, f.entry) ==> Reached(visited + more, f.entry);
    forall e | (e in visited + more || e in flow') && e.0 == Some(f.entry)
      ensures Reached(visited + more, f.entry) && !Excluded(f, vm', e)
    {
      if e in visited || e in flow {
        ExcludedSame(f, vm, vm', e);
      } else {
        TakenNotExcluded(f, vm', b, e);
      }
    }
  }

  lemma EdgeKeepsEntry(f: Function, vm: ValueMap, vm': ValueMap, visited: set<FlowEdge>, e: FlowEdge,
                       flow: seq<FlowEdge>, flow': seq<FlowEdge>)
    requires f.entry in f.blocks && OnlyDefined(f, vm) && OnlyDefined(f, vm')
    requires (EntryFirst(f) ==> EntryOk(f, vm, visited, flow)) && e in flow && e.1 in f.blocks
    requires EntryFirst(f) && (EntrySettled(f, vm) || e.1 == f.entry) ==> EntrySettled(f, vm')
    requires FlowEdges(f, vm', e.1).Some? && flow' == flow + FlowEdges(f, vm', e.1).value
    ensures EntryFirst(f) ==> EntryOk(f, vm', visited + {e}, flow')
  {
    if EntryFirst(f) {
      hide EntryFirst, EntrySettled, OnlyDefined, FlowEdges;
      assert Reached(visited + {e}, f.entry) ==> Reached(visited, f.entry) || e.1 == f.entry;
      assert e.1 == f.entry ==> Reached(visited + {e}, f.entry);
      EntryKept(f, vm, vm', visited, {e}, flow, flow', e.1);
    }
  }

  lemma ValueKeepsEntry(f: Function, vm: ValueMap, vm': ValueMap, visited: set<FlowEdge>, b: BlockId,
                        flow: seq<FlowEdge>, flow': seq<FlowEdge>)
    requires f.entry in f.blocks && OnlyDefined(f, vm) && OnlyDefined(f, vm')
    requires (EntryFirst(f) ==> EntryOk(f, vm, visited, flow)) && Reached(visited, b) && b in f.blocks
    requires EntryFirst(f) && EntrySettled(f, vm) ==> EntrySettled(f, vm')
    requires flow' == flow || (FlowEdges(f, vm', b).Some? && flow' == flow + FlowEdges(f, vm', b).value)
    ensures EntryFirst(f) ==> EntryOk(f, vm', visited, flow')
  {
    if EntryFirst(f) {
      assert visited + {} == visited;
      hide EntryFirst, EntrySettled, OnlyDefined, FlowEdges;
      EntryKept(f, vm, vm', visited, {}, flow, flow', b);
    }
  }

  lemma EntryVisited(f: Function, vm: ValueMap)
    requires f.entry in f.blocks
    requires forall j :: 0 <= j < |BlockRefs(f, f.entry)| ==> !Stale(f, vm, BlockRefs(f, f.entry)[j])
    ensures EntrySettled(f, vm)
  {
    forall x: Ref | x.b == f.entry ensures !Stale(f, vm, x) {
      if Stale(f, vm, x) { BlockRefsComplete(f, x); }
    }
  }

  /** The pass is done with what a visit of the instructions in `seen` made out of date. */
  ghost predicate Refreshed(f: Function, vm0: ValueMap, vm: ValueMap, seen: set<Ref>, pushed: seq<Ref>) {
    forall y :: Stale(f, vm, y) ==> (y !in seen && Stale(f, vm0, y)) || y in pushed
  }

  class SCCP {
    const f: Function
    var value_map: ValueMap
    var visited: set<FlowEdge>
    var flow_worklist: seq<FlowEdge>
    var value_worklist: seq<Ref>
    ghost const defs: set<Reg>
    ghost const edges: set<FlowEdge>

    constructor (f: Function)
      ensures this.f == f
      ensures TargetsExist(f) ==> Frame(f, defs, edges)
    {
      this.f := f;
      value_map, visited, flow_worklist, value_worklist := map[], {}, [], [];
      defs := DefinedRegs(f);
      edges := GraphEdges(f);
      new;
      FrameHolds(f);
    }

    ghost predicate Valid()
      reads this
    {
      && TargetsExist(f) && SingleAssignment(f) && Frame(f, defs, edges)
      && Settled(f, value_map) && OnlyDefined(f, value_map)
      && visited <= edges
      && (forall k :: 0 <= k < |flow_worklist| ==> flow_worklist[k] in edges)
      && (forall k :: 0 <= k < |value_worklist| ==> IsRef(f, value_worklist[k]))
    }

    /** The loop over the operands shared by `visit_phi` and `visit_fold`; it stops at the first
        operand that is no constant for sure. */
    method MeetOperands(os: seq<Operand>) returns (cur: ValStatus)
      ensures cur == MeetFrom(value_map, os, Init)
    {
      cur := Init;
      for k := 0 to |os|
        invariant MeetFrom(value_map, os, Init) == MeetFrom(value_map, os[k..], cur)
      {
        assert os[k..][1..] == os[k + 1..];
        var status := Get(value_map, os[k]);
        cur := Meet(cur, status);
        if status == Nac {
          NacSinks(value_map, os[k + 1..], cur);
          return;
        }
      }
    }

    /** `visit_fold`: fold if every operand is constant, otherwise meet the operands. */
    method VisitFold(i: Instr) returns (cur: Option<ValStatus>)
      requires i.Pure? && Foldable(i.op, |i.args|)
      ensures cur == Transfer(value_map, i)
    {
      if AllConstant(value_map, i.args) {
        var r := ConstFold(i.op, Constants(value_map, i.args));
        return if r.Folded? then Some(Constant(r.v)) else None;
      }
      var s := MeetOperands(i.args);
      return Some(s);
    }

    /** The status a visit computes. */
    method Evaluate(x: Ref) returns (cur: Option<ValStatus>)
      requires IsRef(f, x) && RefDefines(f, x).Some?
      ensures cur == TransferRef(f, value_map, x)
    {
      if x.PhiRef? {
        var s := MeetOperands(PhiOperands(f.blocks[x.b].phis[x.k]));
        cur := Some(s);
      } else {
        var i := f.blocks[x.b].body[x.k];
        if i.Pure? && Foldable(i.op, |i.args|) {
          cur := VisitFold(i);
        } else {
          cur := Some(Nac);
        }
      }
    }

    /** Every user of `r` goes to the value worklist, in whatever order the use list has. */
    method PushUsers(r: Reg)
      modifies this`value_worklist
      ensures old(value_worklist) <= value_worklist
      ensures forall x :: x in value_worklist[|old(value_worklist)|..] <==> x in Users(f, r)
    {
      ghost var n := |value_worklist|;
      ghost var before := value_worklist;
      var us := Users(f, r);
      while us != {}
        invariant us <= Users(f, r)
        invariant before <= value_worklist
        invariant forall x :: x in value_worklist[n..] <==> x in Users(f, r) - us
      {
        var x :| x in us;
        ghost var w := value_worklist;
        value_worklist := value_worklist + [x];
        assert value_worklist[n..] == w[n..] + [x];
        us := us - {x};
      }
    }

    /** `visit` of an instruction that defines a register; fails when folding raises. */
    method VisitValue(x: Ref) returns (ok: bool)
      requires Valid() && IsRef(f, x) && RefDefines(f, x).Some?
      modifies this`value_map, this`value_worklist
      ensures old(value_worklist) <= value_worklist
      ensures ok ==> Valid() && Extends(old(value_map), value_map)
      ensures ok ==> Refreshed(f, old(value_map), value_map, {x}, value_worklist[|old(value_worklist)|..])
      ensures ok ==> forall y ::
                y in value_worklist[|old(value_worklist)|..] ==> y in Users(f, RefDefines(f, x).value)
      ensures ok && !Stale(f, old(value_map), x) ==> value_map == old(value_map)
      ensures ok && EntryFirst(f) && EntrySettled(f, old(value_map)) ==> EntrySettled(f, value_map)
      ensures !ok ==> Raises(f, value_map)
      ensures ok ==> (value_map == old(value_map) && value_worklist == old(value_worklist))
                     || |Undecided(defs, value_map)| < |Undecided(defs, old(value_map))|
    {
      var r := RefDefines(f, x).value;
      var prev := Get(value_map, Reg(r));
      var cur := Evaluate(x);
      if cur.None? { return false; }
      ok := true;
      if cur.value != prev {
        ghost var vm0 := value_map;
        if prev != Undef { VisitOfDecided(f, value_map, x); }
        value_map := value_map[r := cur.value];
        DecideKeeps(f, vm0, x, cur.value, value_map);
        PushUsers(r);
        DecidingRefreshes(f, vm0, value_map, x, cur.value, value_worklist[|old(value_worklist)|..]);
        DecidingShrinks(f, defs, edges, vm0, value_map, x);
        UsersAreRefs(f, r, old(value_worklist), value_worklist);
        if EntryFirst(f) && EntrySettled(f, vm0) {
          VisitKeepsEntry(f, vm0, value_map, x, value_worklist[|old(value_worklist)|..]);
        }
      }
    }

    /** `visit_br`: the edges that can be taken as far as known go to the flow worklist. */
    method VisitBranch(b: BlockId) returns (ok: bool)
      requires Valid() && b in f.blocks
      modifies this`flow_worklist
      ensures old(flow_worklist) <= flow_worklist
      ensures ok ==> Valid() && FlowEdges(f, value_map, b).Some?
      ensures ok ==> flow_worklist == old(flow_worklist) + FlowEdges(f, value_map, b).value
      ensures !ok ==> Raises(f, value_map)
    {
      FlowEdgesInGraph(f, value_map, defs, edges, b);
      match f.blocks[b].term
      case Br(x) =>
        flow_worklist := flow_worklist + [EdgeTo(b, x)];
        ok := true;
      case CondBr(c, x, y) =>
        var s := Get(value_map, c);
        if s.Constant? {
          if !s.c.BoolVal? { return false; }
          flow_worklist := flow_worklist + [EdgeTo(b, if s.c.b then x else y)];
        } else {
          flow_worklist := flow_worklist + [EdgeTo(b, x)];
          flow_worklist := flow_worklist + [EdgeTo(b, y)];
          assert [EdgeTo(b, x)] + [EdgeTo(b, y)] == [EdgeTo(b, x), EdgeTo(b, y)];
        }
        ok := true;
      case Ret(_) =>
        ok := true;
    }

    /** Visiting the value-defining instructions of a list of positions one after the other. */
    method VisitAll(xs: seq<Ref>) returns (ok: bool)
      requires Valid() && forall k :: 0 <= k < |xs| ==> IsRef(f, xs[k])
      modifies this`value_map, this`value_worklist
      ensures old(value_worklist) <= value_worklist
      ensures ok ==> Valid() && Extends(old(value_map), value_map)
      ensures ok ==> Refreshed(f, old(value_map), value_map, Elems(xs), value_worklist[|old(value_worklist)|..])
      ensures ok && EntryFirst(f) && (EntrySettled(f, old(value_map)) || xs == BlockRefs(f, f.entry)) ==>
                EntrySettled(f, value_map)
      ensures !ok ==> Raises(f, value_map)
      ensures ok ==> (value_map == old(value_map) && value_worklist == old(value_worklist))
                     || |Undecided(defs, value_map)| < |Undecided(defs, old(value_map))|
    {
      ghost var vm0, w0 := value_map, value_worklist;
      for k := 0 to |xs|
        invariant w0 <= value_worklist
        invariant Valid() && Extends(vm0, value_map)
        invariant Refreshed(f, vm0, value_map, Elems(xs[..k]), value_worklist[|w0|..])
        invariant EntryFirst(f) && EntrySettled(f, vm0) ==> EntrySettled(f, value_map)
        invariant EntryFirst(f) && xs == BlockRefs(f, f.entry) ==> forall j ::
                    0 <= j < k ==> !Stale(f, value_map, xs[j])
        invariant (value_map == vm0 && value_worklist == w0) || |Undecided(defs, value_map)| < |Undecided(defs, vm0)|
      {
        ghost var vm1, w1 := value_map, value_worklist;
        if RefDefines(f, xs[k]).Some? {
          var fine := VisitValue(xs[k]);
          if !fine { return false; }
          if EntryFirst(f) && xs == BlockRefs(f, f.entry) {
            VisitNextInEntry(f, vm1, value_map, k, value_worklist[|w1|..]);
          }
        }
        RefreshedChain(f, vm0, vm1, value_map, xs, k, w0, w1, value_worklist);
      }
      assert xs[..|xs|] == xs;
      if EntryFirst(f) && xs == BlockRefs(f, f.entry) { EntryVisited(f, value_map); }
      ok := true;
    }

    /** Visiting a block: its phis, its body, its terminator, in order. */
    method VisitBlock(b: BlockId) returns (ok: bool)
      requires Valid() && b in f.blocks
      modifies this`value_map, this`value_worklist, this`flow_worklist
      ensures old(value_worklist) <= value_worklist && old(flow_worklist) <= flow_worklist
      ensures ok ==> Valid() && Extends(old(value_map), value_map)
      ensures ok ==> Refreshed(f, old(value_map), value_map, Elems(BlockRefs(f, b)),
                value_worklist[|old(value_worklist)|..])
      ensures ok ==> (value_map == old(value_map) && value_worklist == old(value_worklist))
                     || |Undecided(defs, value_map)| < |Undecided(defs, old(value_map))|
      ensures ok && EntryFirst(f) && (EntrySettled(f, old(value_map)) || b == f.entry) ==> EntrySettled(f, value_map)
      ensures ok ==> FlowEdges(f, value_map, b).Some?
      ensures ok ==> flow_worklist == old(flow_worklist) + FlowEdges(f, value_map, b).value
      ensures !ok ==> Raises(f, value_map)
    {
      ok := VisitAll(BlockRefs(f, b));
      if ok {
        ok := VisitBranch(b);
      }
    }

    ghost predicate Working(flow_id: nat, value_id: nat)
      reads this
    {
      && Valid()
      && flow_id <= |flow_worklist| && value_id <= |value_worklist|
      && AllClosed(f, value_map, visited, flow_worklist[flow_id..])
      && UpToDate(f, value_map, visited, value_worklist[value_id..])
      && (EntryFirst(f) ==> EntryOk(f, value_map, visited, flow_worklist))
    }

    ghost function Measure(flow_id: nat, value_id: nat): (nat, nat, nat, nat)
      requires flow_id <= |flow_worklist| && value_id <= |value_worklist|
      reads this
    {
      (|Undecided(defs, value_map)|, |edges - visited|, |value_worklist| - value_id, |flow_worklist| - flow_id)
    }

    /** Marking an edge that was not visited before, and visiting the block it leads to. */
    method VisitEdge(flow_id: nat, ghost value_id: nat) returns (ok: bool)
      requires Working(flow_id, value_id) && flow_id < |flow_worklist| && flow_worklist[flow_id] !in visited
      modifies this`value_map, this`value_worklist, this`flow_worklist, this`visited
      ensures old(flow_worklist) <= flow_worklist && old(value_worklist) <= value_worklist
      ensures ok ==> Working(flow_id + 1, value_id)
      ensures ok ==> Less(Measure(flow_id + 1, value_id), old(Measure(flow_id, value_id)))
      ensures !ok ==> Raises(f, value_map)
    {
      var e := flow_worklist[flow_id];
      ghost var flow0, vm0, visited0, values0 := flow_worklist, value_map, visited, value_worklist;
      assert e.1 in f.blocks;
      hide AllClosed, UpToDate, Refreshed, Settled, OnlyDefined, Frame, BlockRefs, Extends, Undecided, EntryFirst,
          EntrySettled, EntryOk, Raises;
      visited := visited + {e};
      assert edges - visited == (edges - visited0) - {e};
      ok := VisitBlock(e.1);
      if ok {
        FlowStepKeeps(f, vm0, value_map, visited0, e, flow0, flow_worklist, flow_id, values0, value_worklist, value_id);
        EdgeKeepsEntry(f, vm0, value_map, visited0, e, flow0, flow_worklist);
      }
    }

    /** Taking one edge off the flow worklist. */
    method FlowStep(flow_id: nat, ghost value_id: nat) returns (ok: bool)
      requires Working(flow_id, value_id) && flow_id < |flow_worklist|
      modifies this`value_map, this`value_worklist, this`flow_worklist, this`visited
      ensures old(flow_worklist) <= flow_worklist && old(value_worklist) <= value_worklist
      ensures ok ==> Working(flow_id + 1, value_id)
      ensures ok ==> Less(Measure(flow_id + 1, value_id), old(Measure(flow_id, value_id)))
      ensures !ok ==> Raises(f, value_map)
    {
      if flow_worklist[flow_id] in visited {
        FlowSkipKeeps(f, value_map, visited, flow_worklist, flow_id);
        ok := true;
      } else {
        ok := VisitEdge(flow_id, value_id);
      }
    }

    /** `visit` of any instruction. */
    method VisitOne(x: Ref) returns (ok: bool)
      requires Valid() && IsRef(f, x)
      modifies this`value_map, this`value_worklist, this`flow_worklist
      ensures old(flow_worklist) <= flow_worklist && old(value_worklist) <= value_worklist
      ensures ok ==> Valid() && Extends(old(value_map), value_map)
      ensures ok ==> if Stale(f, old(value_map), x) || value_map != old(value_map)
                     then Refreshed(f, old(value_map), value_map, {x}, value_worklist[|old(value_worklist)|..])
                     else true
      ensures ok ==> (value_map == old(value_map) && value_worklist == old(value_worklist))
                     || |Undecided(defs, value_map)| < |Undecided(defs, old(value_map))|
      ensures ok && EntryFirst(f) && EntrySettled(f, old(value_map)) ==> EntrySettled(f, value_map)
      ensures ok ==> flow_worklist == old(flow_worklist)
                     || (x.b in f.blocks && FlowEdges(f, value_map, x.b).Some?
                         && flow_worklist == old(flow_worklist) + FlowEdges(f, value_map, x.b).value)
      ensures !ok ==> Raises(f, value_map)
    {
      if x.TermRef? {
        ok := VisitBranch(x.b);
      } else if RefDefines(f, x).Some? {
        ok := VisitValue(x);
      } else {
        ok := true;
      }
    }

    /** Taking one instruction off the value worklist: it is visited if its block is reached along
        an edge of the graph. */
    method ValueStep(ghost flow_id: nat, value_id: nat) returns (ok: bool)
      requires Working(flow_id, value_id) && value_id < |value_worklist|
      modifies this`value_map, this`value_worklist, this`flow_worklist
      ensures old(flow_worklist) <= flow_worklist && old(value_worklist) <= value_worklist
      ensures ok ==> Working(flow_id, value_id + 1)
      ensures ok ==> Less(Measure(flow_id, value_id + 1), old(Measure(flow_id, value_id)))
      ensures !ok ==> Raises(f, value_map)
    {
      var x := value_worklist[value_id];
      ghost var flow0, vm0, values0 := flow_worklist, value_map, value_worklist;
      assert values0[value_id..] == [x] + values0[value_id + 1..];
      if !(exists e :: e in visited && e.0.Some? && e.1 == x.b) {
        OnlyEntryFromNowhere(this, x.b);
        return true;
      }
      assert IsRef(f, x) && x.b in f.blocks && f.entry in f.blocks && Reached(visited, x.b);
      hide AllClosed, UpToDate, Refreshed, Settled, OnlyDefined, Frame, BlockRefs, Extends, Undecided, EntryFirst,
          EntrySettled, EntryOk, Raises, Reached, FlowEdges, Stale;
      ok := VisitOne(x);
      if ok {
        ValueKeepsEntry(f, vm0, value_map, visited, x.b, flow0, flow_worklist);
        ValueStepKeeps(f, vm0, value_map, visited, flow0, flow_worklist, flow_id, values0, value_worklist, value_id);
      }
    }

    method DrainFlow(flow_id0: nat, ghost value_id: nat) returns (ok: bool, flow_id: nat)
      requires Working(flow_id0, value_id)
      modifies this`value_map, this`value_worklist, this`flow_worklist, this`visited
      ensures old(flow_worklist) <= flow_worklist && old(value_worklist) <= value_worklist
      ensures ok ==> Working(flow_id, value_id) && flow_id == |flow_worklist|
      ensures ok && flow_id0 < |old(flow_worklist)| ==>
                Less(Measure(flow_id, value_id), old(Measure(flow_id0, value_id)))
      ensures ok && flow_id0 >= |old(flow_worklist)| ==>
                Measure(flow_id, value_id) == old(Measure(flow_id0, value_id)) && value_worklist == old(value_worklist)
      ensures !ok ==> Raises(f, value_map)
    {
      flow_id, ok := flow_id0, true;
      ghost var m0 := Measure(flow_id0, value_id);
      ghost var w0, v0 := flow_worklist, value_worklist;
      while flow_id < |flow_worklist|
        invariant w0 <= flow_worklist && v0 <= value_worklist
        invariant Working(flow_id, value_id)
        invariant (flow_id == flow_id0 && flow_worklist == w0 && value_worklist == v0
                    && Measure(flow_id, value_id) == m0)
                  || (flow_id0 < |w0| && Less(Measure(flow_id, value_id), m0))
        decreases |Undecided(defs, value_map)|, |edges - visited|, |value_worklist| - value_id,
            |flow_worklist| - flow_id
      {
        ok := FlowStep(flow_id, value_id);
        if !ok { return; }
        flow_id := flow_id + 1;
      }
    }

    method DrainValues(ghost flow_id: nat, value_id0: nat) returns (ok: bool, value_id: nat)
      requires Working(flow_id, value_id0)
      modifies this`value_map, this`value_worklist, this`flow_worklist
      ensures old(flow_worklist) <= flow_worklist && old(value_worklist) <= value_worklist
      ensures ok ==> Working(flow_id, value_id) && value_id == |value_worklist|
      ensures ok && value_id0 < |old(value_worklist)| ==>
                Less(Measure(flow_id, value_id), old(Measure(flow_id, value_id0)))
      ensures ok && value_id0 >= |old(value_worklist)| ==>
                Measure(flow_id, value_id) == old(Measure(flow_id, value_id0))
      ensures !ok ==> Raises(f, value_map)
    {
      value_id, ok := value_id0, true;
      ghost var m0 := Measure(flow_id, value_id0);
      ghost var w0, v0 := flow_worklist, value_worklist;
      while value_id < |value_worklist|
        invariant w0 <= flow_worklist && v0 <= value_worklist
        invariant Working(flow_id, value_id)
        invariant (value_id == value_id0 && value_worklist == v0 && Measure(flow_id, value_id) == m0)
                  || (value_id0 < |v0| && Less(Measure(flow_id, value_id), m0))
        decreases |Undecided(defs, value_map)|, |edges - visited|, |value_worklist| - value_id,
            |flow_worklist| - flow_id
      {
        ok := ValueStep(flow_id, value_id);
        if !ok { return; }
        value_id := value_id + 1;
      }
    }

    /** The registers before any visit: the results of calls are decided, nothing else is. */
    method Initialize()
      requires TargetsExist(f) && SingleAssignment(f) && Frame(f, defs, edges)
      modifies this
      ensures Valid() && visited == {} && value_worklist == [] && flow_worklist == [(None, f.entry)]
    {
      visited, value_worklist, flow_worklist, value_map := {}, [], [(None, f.entry)], map[];
      var todo := AllRefs(f);
      while todo != {}
        invariant todo <= AllRefs(f)
        invariant visited == {} && value_worklist == [] && flow_worklist == [(None, f.entry)]
        invariant forall r :: r in value_map && value_map[r] != Undef ==>
                    value_map[r] == Nac && exists x :: IsRef(f, x) && IsCall(f, x) && RefDefines(f, x) == Some(r)
      {
        var x :| x in todo;
        todo := todo - {x};
        AllRefsExact(f, x);
        if RefDefines(f, x).Some? {
          value_map := value_map[RefDefines(f, x).value := if IsCall(f, x) then Nac else Undef];
        }
      }
      CallsSettled(f, value_map);
    }

    /** `run` up to the fixed point.  It fails only when folding or branching raises. */
    method Analyze() returns (ok: bool)
      requires TargetsExist(f) && SingleAssignment(f) && Frame(f, defs, edges)
      modifies this
      ensures ok ==> Solution(f, value_map, visited) && OnlyDefined(f, value_map)
      ensures ok ==> forall x: Ref :: Reached(visited, x.b) && x.b != f.entry ==> !Stale(f, value_map, x)
      ensures ok && EntryFirst(f) ==> EntrySettled(f, value_map)
      ensures ok ==> forall e ::
                e in visited && e.0.Some? ==> e.0.value in f.blocks && !RuledOut(f.blocks[e.0.value].term, e.1)
      ensures ok && EntryFirst(f) ==> forall e :: e in visited && e.0 == Some(f.entry) ==> !Excluded(f, value_map, e)
      ensures !ok ==> Raises(f, value_map)
    {
      Initialize();
      var value_id: nat, flow_id: nat := 0, 0;
      ok := true;
      while value_id < |value_worklist| || flow_id < |flow_worklist|
        invariant Working(flow_id, value_id)
        decreases |Undecided(defs, value_map)|, |edges - visited|, |value_worklist| - value_id,
            |flow_worklist| - flow_id
      {
        ghost var m := Measure(flow_id, value_id);
        ok, flow_id := DrainFlow(flow_id, value_id);
        if !ok { return; }
        ok, value_id := DrainValues(flow_id, value_id);
        if !ok { return; }
      }
    }
  }

  predicate IsCall(f: Function, x: Ref)
    requires IsRef(f, x)
  {
    x.BodyRef? && f.blocks[x.b].body[x.k].Call?
  }

  lemma CallsSettled(f: Function, vm: ValueMap)
    requires SingleAssignment(f)
    requires forall r :: r in vm && vm[r] != Undef ==>
               vm[r] == Nac && exists x :: IsRef(f, x) && IsCall(f, x) && RefDefines(f, x) == Some(r)
    ensures Settled(f, vm) && OnlyDefined(f, vm)
  {
  }

  lemma OnlyEntryFromNowhere(p: SCCP, b: BlockId)
    requires p.Valid()
    requires forall e :: e in p.visited && e.0.Some? ==> e.1 != b
    ensures Reached(p.visited, b) ==> b == p.f.entry
  {
  }

  lemma ValueStepKeeps(f: Function, vm: ValueMap, vm': ValueMap, visited: set<FlowEdge>,
                       flow: seq<FlowEdge>, flow': seq<FlowEdge>, flow_id: nat,
                       values: seq<Ref>, values': seq<Ref>, value_id: nat)
    requires Extends(vm, vm') && flow <= flow' && values <= values'
    requires flow_id <= |flow| && value_id < |values|
    requires AllClosed(f, vm, visited, flow[flow_id..]) && UpToDate(f, vm, visited, values[value_id..])
    requires if Stale(f, vm, values[value_id]) || vm' != vm
             then Refreshed(f, vm, vm', {values[value_id]}, values'[|values|..]) else true
    ensures AllClosed(f, vm', visited, flow'[flow_id..])
    ensures UpToDate(f, vm', visited, values'[value_id + 1..])
  {
    var pending, pending' := flow[flow_id..], flow'[flow_id..];
    assert pending' == pending + flow'[|flow|..];
    forall d | d in visited ensures Closed(f, vm', d.1, visited + Elems(pending')) {
      ClosedExtends(f, vm, vm', d.1, visited + Elems(pending), visited + Elems(pending'));
    }
    assert values[value_id..] == [values[value_id]] + values[value_id + 1..];
    assert values'[value_id + 1..] == values[value_id + 1..] + values'[|values|..];
  }

  function BlockRefs(f: Function, b: BlockId): seq<Ref>
    requires b in f.blocks
  {
    seq(|f.blocks[b].phis|, k requires 0 <= k < |f.blocks[b].phis| => PhiRef(b, k))
    + seq(|f.blocks[b].body|, k requires 0 <= k < |f.blocks[b].body| => BodyRef(b, k))
  }

  lemma BlockRefsComplete(f: Function, x: Ref)
    requires IsRef(f, x) && RefDefines(f, x).Some?
    ensures x in Elems(BlockRefs(f, x.b))
  {
    var n := |f.blocks[x.b].phis|;
    assert BlockRefs(f, x.b)[if x.PhiRef? then x.k else n + x.k] == x;
  }

  ghost predicate AllClosed(f: Function, vm: ValueMap, visited: set<FlowEdge>, pending: seq<FlowEdge>) {
    && ((None, f.entry) in visited || (None, f.entry) in pending)
    && forall e :: e in visited ==> Closed(f, vm, e.1, visited + Elems(pending))
  }

  ghost predicate Less(a: (nat, nat, nat, nat), b: (nat, nat, nat, nat)) {
    || a.0 < b.0
    || (a.0 == b.0 && a.1 < b.1)
    || (a.0 == b.0 && a.1 == b.1 && a.2 < b.2)
    || (a.0 == b.0 && a.1 == b.1 && a.2 == b.2 && a.3 < b.3)
  }

  lemma FlowStepKeeps(f: Function, vm: ValueMap, vm': ValueMap, visited: set<FlowEdge>, e: FlowEdge,
                      flow: seq<FlowEdge>, flow': seq<FlowEdge>, flow_id: nat,
                      values: seq<Ref>, values': seq<Ref>, value_id: nat)
    requires Extends(vm, vm') && e.1 in f.blocks
    requires flow_id < |flow| && flow[flow_id] == e && flow <= flow' && value_id <= |values| && values <= values'
    requires FlowEdges(f, vm', e.1).Some? && flow' == flow + FlowEdges(f, vm', e.1).value
    requires AllClosed(f, vm, visited, flow[flow_id..]) && UpToDate(f, vm, visited, values[value_id..])
    requires Refreshed(f, vm, vm', Elems(BlockRefs(f, e.1)), values'[|values|..])
    ensures AllClosed(f, vm', visited + {e}, flow'[flow_id + 1..])
    ensures UpToDate(f, vm', visited + {e}, values'[value_id..])
  {
    var pending, pending' := flow[flow_id..], flow'[flow_id + 1..];
    assert pending' == pending[1..] + FlowEdges(f, vm', e.1).value;
    forall d | d in visited ensures Closed(f, vm', d.1, visited + {e} + Elems(pending')) {
      ClosedExtends(f, vm, vm', d.1, visited + Elems(pending), visited + {e} + Elems(pending'));
    }
    assert Closed(f, vm', e.1, visited + {e} + Elems(pending'));
    assert values'[value_id..] == values[value_id..] + values'[|values|..];
    forall y | Stale(f, vm', y) && Reached(visited + {e}, y.b) && y.b != f.entry ensures y in values'[value_id..] {
      if y.b == e.1 { BlockRefsComplete(f, y); }
    }
  }

  lemma FlowSkipKeeps(f: Function, vm: ValueMap, visited: set<FlowEdge>, flow: seq<FlowEdge>, flow_id: nat)
    requires flow_id < |flow| && flow[flow_id] in visited
    requires AllClosed(f, vm, visited, flow[flow_id..])
    ensures AllClosed(f, vm, visited, flow[flow_id + 1..])
  {
    assert flow[flow_id..] == [flow[flow_id]] + flow[flow_id + 1..];
    assert visited + Elems(flow[flow_id..]) == visited + Elems(flow[flow_id + 1..]);
  }

  lemma ClosedExtends(f: Function, vm: ValueMap, vm': ValueMap, b: BlockId, es: set<FlowEdge>, es': set<FlowEdge>)
    requires Closed(f, vm, b, es) && Extends(vm, vm') && es <= es'
    ensures Closed(f, vm', b, es')
  {
    if FlowEdges(f, vm', b).Some? { FlowEdgesShrink(f, vm, vm', b); }
  }

  lemma RefreshedChain(f: Function, vm0: ValueMap, vm1: ValueMap, vm2: ValueMap, xs: seq<Ref>, k: nat,
                       w0: seq<Ref>, w1: seq<Ref>, w2: seq<Ref>)
    requires k < |xs| && w0 <= w1 <= w2
    requires Refreshed(f, vm0, vm1, Elems(xs[..k]), w1[|w0|..])
    requires if IsRef(f, xs[k]) && RefDefines(f, xs[k]).Some? then Refreshed(f, vm1, vm2, {xs[k]}, w2[|w1|..])
             else vm2 == vm1
    ensures Refreshed(f, vm0, vm2, Elems(xs[..k + 1]), w2[|w0|..])
  {
    assert w2[|w0|..] == w1[|w0|..] + w2[|w1|..];
    assert xs[..k + 1] == xs[..k] + [xs[k]];
  }

  lemma FlowEdgesInGraph(f: Function, vm: ValueMap, defs: set<Reg>, edges: set<FlowEdge>, b: BlockId)
    requires Frame(f, defs, edges) && b in f.blocks
    ensures FlowEdges(f, vm, b).Some? ==> forall e :: e in FlowEdges(f, vm, b).value ==> e in edges && e.0 == Some(b)
  {
    if FlowEdges(f, vm, b).Some? {
      forall e | e in FlowEdges(f, vm, b).value ensures e in edges && e.0 == Some(b) {
        assert e.1 in Successors(f.blocks[b].term);
        assert e == EdgeTo(b, e.1);
      }
    }
  }

  /** Deciding more can only make fewer edges executable. */
  lemma FlowEdgesShrink(f: Function, vm: ValueMap, vm': ValueMap, b: BlockId)
    requires Extends(vm, vm') && b in f.blocks && FlowEdges(f, vm', b).Some?
    ensures FlowEdges(f, vm, b).Some?
    ensures forall e :: e in FlowEdges(f, vm', b).value ==> e in FlowEdges(f, vm, b).value
  {
  }

  lemma DecidingRefreshes(f: Function, vm: ValueMap, vm': ValueMap, x: Ref, s: ValStatus, pushed: seq<Ref>)
    requires SingleAssignment(f)
    requires IsRef(f, x) && RefDefines(f, x).Some? && vm' == vm[RefDefines(f, x).value := s]
    requires TransferRef(f, vm, x) == Some(s)
    requires forall y :: y in pushed <==> y in Users(f, RefDefines(f, x).value)
    ensures Refreshed(f, vm, vm', {x}, pushed)
  {
    var r := RefDefines(f, x).value;
    forall y | Stale(f, vm', y) && y !in pushed ensures y !in {x} && Stale(f, vm, y) {
      TransferIgnores(f, vm, vm', r, y);
    }
  }

  lemma DecidingShrinks(f: Function, defs: set<Reg>, edges: set<FlowEdge>, vm: ValueMap, vm': ValueMap, x: Ref)
    requires Frame(f, defs, edges)
    requires IsRef(f, x) && RefDefines(f, x).Some?
    requires Get(vm, Reg(RefDefines(f, x).value)) == Undef
    requires RefDefines(f, x).value in vm' && vm' == vm[RefDefines(f, x).value := vm'[RefDefines(f, x).value]]
    requires vm'[RefDefines(f, x).value] != Undef
    ensures |Undecided(defs, vm')| < |Undecided(defs, vm)|
  {
    assert Undecided(defs, vm') == Undecided(defs, vm) - {RefDefines(f, x).value};
  }

  lemma UsersAreRefs(f: Function, r: Reg, w: seq<Ref>, w': seq<Ref>)
    requires w <= w'
    requires forall k :: 0 <= k < |w| ==> IsRef(f, w[k])
    requires forall x :: x in w'[|w|..] ==> x in Users(f, r)
    ensures forall k :: 0 <= k < |w'| ==> IsRef(f, w'[k])
  {
    forall k | 0 <= k < |w'| ensures IsRef(f, w'[k]) {
      if k >= |w| {
        assert w'[|w|..][k - |w|] in Users(f, r);
      } else {
        assert w'[k] == w'[..|w|][k];
      }
    }
  }
}
