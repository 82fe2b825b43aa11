/** Turning the parallel copies of a block's outgoing edge into a list of moves
    (`MBasicBlock::mergePhiCopies`).

    A phi destruction step leaves every predecessor block with a set of copies that
    must all read their sources before any destination is written.  The machine can
    only execute moves one after the other.  The pass keeps, for every destination, the
    number of copies not yet emitted that still read it, emits a copy once nobody reads its
    destination, and breaks a cycle by saving one source in a fresh register. */
module PhiCopies {

  /** A machine operand.  Physical registers and immediates are never written by a phi copy. */
  datatype Operand = VirtualReg(id: nat) | PhysicalReg(number: nat) | Immediate(value: int)

  datatype Copy = Copy(src: Operand, dst: Operand)

  /** An instruction of a machine block, as far as this pass looks at it. */
  datatype MInst = Move(copy: Copy) | Branch(target: nat) | Other(tag: nat)

  /** The contents of every operand. */
  type Machine = Operand -> int

  // ----- Meaning of a list of moves -----

  ghost function Write(e: Machine, c: Copy): Machine {
    o => if o == c.dst then e(c.src) else e(o)
  }

  /** The machine after executing `moves` from first to last. */
  ghost function Execute(moves: seq<Copy>, e: Machine): Machine {
    if moves == [] then e else Write(Execute(moves[..|moves| - 1], e), moves[|moves| - 1])
  }

  /** The operand whose initial contents `o` holds after executing `moves`. */
  ghost function Holds(moves: seq<Copy>, o: Operand): Operand {
    if moves == [] then o
    else
      var last := moves[|moves| - 1];
      Holds(moves[..|moves| - 1], if o == last.dst then last.src else o)
  }

  lemma {:induction false} HoldsAfterMove(moves: seq<Copy>, c: Copy, o: Operand)
    ensures Holds(moves + [c], o) == Holds(moves, if o == c.dst then c.src else o)
  {
    assert (moves + [c])[..|moves|] == moves;
  }

  /** `Holds` is exact: contents after the moves are initial contents of the held operand. */
  lemma {:induction false} ExecuteIsHolds(moves: seq<Copy>, e: Machine, o: Operand)
    ensures Execute(moves, e)(o) == e(Holds(moves, o))
  {
    if moves != [] {
      var last := moves[|moves| - 1];
      ExecuteIsHolds(moves[..|moves| - 1], e, if o == last.dst then last.src else o);
    }
  }

  // ----- What the caller provides -----

  ghost predicate DistinctDestinations(copies: seq<Copy>) {
    forall i, j :: 0 <= i < j < |copies| ==> copies[i].dst != copies[j].dst
  }

  /** Every virtual register mentioned was created before: its id is below `count`. */
  predicate Known(o: Operand, count: nat) {
    o.VirtualReg? ==> o.id < count
  }

  ghost predicate WellFormed(copies: seq<Copy>, count: nat) {
    && DistinctDestinations(copies)
    && forall c :: c in copies ==> c.dst.VirtualReg? && Known(c.src, count) && Known(c.dst, count)
  }

  /** The simultaneous assignment: all sources are read before any destination is written. */
  ghost predicate ParallelAssigned(copies: seq<Copy>, count: nat, before: Machine, after: Machine) {
    && (forall c :: c in copies ==> after(c.dst) == before(c.src))
    && (forall o :: Known(o, count) && (forall c :: c in copies ==> c.dst != o) ==> after(o) == before(o))
  }

  // ----- The pending table -----

  /** An entry of the table, indexed by destination: the source of the copy still to be
      emitted, and the number of unemitted copies that read the destination. */
  datatype CopyUsage = CopyUsage(src: Operand, usage: int)

  type Table = map<Operand, CopyUsage>

  /** The copies not yet emitted (`rm` has been) that read `d`, by destination. */
  ghost function Readers(m: Table, rm: set<Operand>, d: Operand): set<Operand> {
    set x | x in m && x !in rm && m[x].src == d
  }

  ghost function ReadersOf(m: Table, ds: set<Operand>): set<Operand> {
    set x | x in m && m[x].src in ds
  }

  /** `usage` counts exactly the unemitted readers. */
  ghost predicate CountsReaders(m: Table, rm: set<Operand>) {
    forall d :: d in m ==> m[d].usage == |Readers(m, rm, d)|
  }

  /** The relation between the table, what every operand holds after the moves emitted so far
      (`h`) and the request `want` (destination to source) that the loop keeps.  Entries in `rm` are emitted already. */
  ghost predicate Progress(want: map<Operand, Operand>, m: Table, rm: set<Operand>,
                           h: Operand -> Operand, base: nat, count: nat) {
    && rm <= m.Keys <= want.Keys
    && (forall d :: d in want ==> d.VirtualReg? && d.id < base)
    && (forall d :: d in want && (d !in m || d in rm) ==> h(d) == want[d])
    && (forall d :: d in m && d !in rm ==> h(m[d].src) == want[d])
    && (forall o :: Known(o, base) && (o !in want || (o in m && o !in rm)) ==> h(o) == o)
    && (forall d :: d in m ==> m[d].src != d && Known(m[d].src, count))
  }

  /** `h'` is what every operand holds when `c` is executed after reaching `h`. */
  ghost predicate Moved(h: Operand -> Operand, h': Operand -> Operand, c: Copy) {
    && h'(c.dst) == h(c.src)
    && forall o :: o != c.dst ==> h'(o) == h(o)
  }

  // ----- When no entry is free, the entries form a permutation -----

  lemma Cardinality<T>(a: set<T>, b: set<T>)
    requires a <= b
    ensures |a| <= |b|
    ensures |a| == |b| ==> a == b
  {
    assert b == a + (b - a);
  }

  lemma SplitReaders(m: Table, ds: set<Operand>, d: Operand)
    requires d in ds
    ensures |ReadersOf(m, ds)| == |ReadersOf(m, ds - {d})| + |Readers(m, {}, d)|
  {
    assert ReadersOf(m, ds) == ReadersOf(m, ds - {d}) + Readers(m, {}, d);
  }

  lemma {:induction false} EveryDestinationRead(m: Table, ds: set<Operand>)
    requires forall d :: d in ds ==> |Readers(m, {}, d)| >= 1
    ensures |ReadersOf(m, ds)| >= |ds|
    decreases |ds|
  {
    if ds != {} {
      var d :| d in ds;
      EveryDestinationRead(m, ds - {d});
      SplitReaders(m, ds, d);
    }
  }

  lemma CountWithout(m: Table, ds: set<Operand>, d: Operand)
    requires d in ds
    requires forall x :: x in ds ==> |Readers(m, {}, x)| >= 1
    ensures |ReadersOf(m, ds)| >= |ds| - 1 + |Readers(m, {}, d)|
  {
    EveryDestinationRead(m, ds - {d});
    SplitReaders(m, ds, d);
  }

  lemma BusyCounting(m: Table, ds: set<Operand>, d: Operand)
    requires ds == m.Keys && d in ds
    requires forall x :: x in ds ==> |Readers(m, {}, x)| >= 1
    ensures |Readers(m, {}, d)| == 1 && m[d].src in ds
  {
    EveryDestinationRead(m, ds);
    CountWithout(m, ds, d);
    var all := ReadersOf(m, ds);
    Cardinality(all, ds);
    assert d in all;
  }

  /** If every pending destination is still read, every pending source is itself a pending
      destination, and each is read by exactly one pending copy. */
  lemma AllBusyIsPermutation(m: Table, d: Operand)
    requires CountsReaders(m, {})
    requires forall x :: x in m ==> m[x].usage != 0
    requires d in m
    ensures m[d].usage == 1 && m[d].src in m
  {
    forall x | x in m ensures |Readers(m, {}, x)| >= 1 {
      assert m[x].usage == |Readers(m, {}, x)|;
    }
    BusyCounting(m, m.Keys, d);
  }

  // ----- One emission, one cycle break -----

  /** The table after the entry of `to` has been emitted. */
  function Emitted(m: Table, to: Operand): Table
    requires to in m
  {
    var s := m[to].src;
    if s in m then m[s := m[s].(usage := m[s].usage - 1)] else m
  }

  /** The table after the source of `to`, pending itself, has been saved in `saved`. */
  function Broken(m: Table, to: Operand, saved: Operand): Table
    requires to in m && m[to].src in m
  {
    var s := m[to].src;
    var m1 := m[s := m[s].(usage := m[s].usage - 1)];
    m1[to := m1[to].(src := saved)]
  }

  lemma EmittedShape(m: Table, to: Operand)
    requires to in m
    ensures Emitted(m, to).Keys == m.Keys
    ensures forall d :: d in m ==> Emitted(m, to)[d].src == m[d].src
  {
  }

  lemma EmitKeepsCounts(m: Table, rm: set<Operand>, to: Operand)
    requires CountsReaders(m, rm) && to in m && to !in rm
    ensures CountsReaders(Emitted(m, to), rm + {to})
  {
    var m' := Emitted(m, to);
    forall d | d in m' ensures m'[d].usage == |Readers(m', rm + {to}, d)| {
      assert Readers(m', rm + {to}, d) == Readers(m, rm, d) - {to};
      assert to in Readers(m, rm, d) <==> m[to].src == d;
    }
  }

  lemma FreeEntryIsUnread(m: Table, rm: set<Operand>, to: Operand, x: Operand)
    requires CountsReaders(m, rm) && to in m && m[to].usage == 0
    requires x in m && x !in rm
    ensures m[x].src != to
  {
    assert Readers(m, rm, to) == {};
    assert x !in Readers(m, rm, to);
  }

  /** Emitting the copy of a destination that no unemitted copy reads. */
  lemma EmitKeepsProgress(want: map<Operand, Operand>, m: Table, rm: set<Operand>,
                          h: Operand -> Operand, h': Operand -> Operand, base: nat, count: nat, to: Operand)
    requires Progress(want, m, rm, h, base, count) && CountsReaders(m, rm)
    requires to in m && to !in rm && m[to].usage == 0
    requires Moved(h, h', Copy(m[to].src, to))
    ensures Progress(want, Emitted(m, to), rm + {to}, h', base, count)
  {
    forall x | x in m && x !in rm ensures m[x].src != to {
      FreeEntryIsUnread(m, rm, to, x);
    }
  }

  lemma BrokenShape(m: Table, to: Operand, saved: Operand)
    requires to in m && m[to].src in m && m[to].src != to
    ensures Broken(m, to, saved).Keys == m.Keys
    ensures forall d :: d in m ==>
              && Broken(m, to, saved)[d].src == (if d == to then saved else m[d].src)
              && Broken(m, to, saved)[d].usage == (if d == m[to].src then m[d].usage - 1 else m[d].usage)
  {
  }

  lemma BreakKeepsCounts(m: Table, to: Operand, saved: Operand)
    requires CountsReaders(m, {}) && to in m && m[to].src in m && saved !in m && m[to].src != to
    ensures CountsReaders(Broken(m, to, saved), {})
  {
    var m' := Broken(m, to, saved);
    BrokenShape(m, to, saved);
    hide Broken;
    forall d | d in m' ensures m'[d].usage == |Readers(m', {}, d)| {
      assert Readers(m', {}, d) == Readers(m, {}, d) - {to};
      assert to in Readers(m, {}, d) <==> m[to].src == d;
    }
  }

  /** Saving a pending source in a fresh register opens a cycle. */
  lemma BreakKeepsProgress(want: map<Operand, Operand>, m: Table,
                           h: Operand -> Operand, h': Operand -> Operand, base: nat, count: nat, to: Operand)
    requires base <= count
    requires Progress(want, m, {}, h, base, count)
    requires to in m && m[to].src in m
    requires Moved(h, h', Copy(m[to].src, VirtualReg(count)))
    ensures Progress(want, Broken(m, to, VirtualReg(count)), {}, h', base, count + 1)
  {
    BrokenShape(m, to, VirtualReg(count));
    var m' := Broken(m, to, VirtualReg(count));
    hide Broken;
    forall d | d in m'
      ensures h'(m'[d].src) == want[d] && m'[d].src != d && Known(m'[d].src, count + 1)
    {
      PendingSource(want, m, h, base, count, d);
    }
    OthersHeld(want, m, h, h', base, count, to);
    hide Moved, Held;
  }

  /** Where a pending destination finds its value, and why a fresh register is nobody's source. */
  lemma PendingSource(want: map<Operand, Operand>, m: Table, h: Operand -> Operand, base: nat, count: nat, d: Operand)
    requires base <= count && Progress(want, m, {}, h, base, count) && d in m
    ensures d in want && h(m[d].src) == want[d] && m[d].src != d && Known(m[d].src, count)
    ensures m[d].src != VirtualReg(count) && d != VirtualReg(count)
  {
  }

  lemma OthersHeld(want: map<Operand, Operand>, m: Table, h: Operand -> Operand, h': Operand -> Operand, base: nat,
                   count: nat, to: Operand)
    requires base <= count && Progress(want, m, {}, h, base, count) && to in m
    requires Moved(h, h', Copy(m[to].src, VirtualReg(count)))
    ensures m.Keys <= want.Keys && forall d :: d in want ==> d.VirtualReg? && d.id < base
    ensures forall d :: d in want && d !in m ==> h'(d) == want[d]
    ensures forall o :: Known(o, base) && (o !in want || o in m) ==> h'(o) == o
  {
  }

  // ----- The function -----

  /** The owner of the virtual registers. */
  class MFunction {
    var virtualRegs: nat

    /** `VirtualRegister::copy`: a register nobody has used before. */
    method CopyRegister() returns (r: Operand)
      modifies this
      ensures r == VirtualReg(old(virtualRegs)) && virtualRegs == old(virtualRegs) + 1
    {
      r := VirtualReg(virtualRegs);
      virtualRegs := virtualRegs + 1;
    }
  }

  // ----- Building the table -----

  /** The non-trivial copies, from destination to source. */
  ghost predicate Requested(copies: seq<Copy>, want: map<Operand, Operand>) {
    && (forall k :: 0 <= k < |copies| && copies[k].src != copies[k].dst ==>
          copies[k].dst in want && want[copies[k].dst] == copies[k].src)
    && (forall d :: d in want ==> want[d] != d && Copy(want[d], d) in copies)
  }

  lemma SelfCopyNotPending(copies: seq<Copy>, want: map<Operand, Operand>, i: nat)
    requires DistinctDestinations(copies) && Requested(copies, want)
    requires i < |copies| && copies[i].src == copies[i].dst
    ensures copies[i].dst !in want
  {
  }

  /** The readers of `d` among the first `i` copies. */
  ghost function ReadersUpTo(copies: seq<Copy>, i: nat, d: Operand): set<Operand>
    requires i <= |copies|
  {
    set k | 0 <= k < i && copies[k].src == d && copies[k].dst != d :: copies[k].dst
  }

  lemma NextReader(copies: seq<Copy>, i: nat, d: Operand)
    requires i < |copies| && DistinctDestinations(copies)
    ensures |ReadersUpTo(copies, i + 1, d)| ==
            |ReadersUpTo(copies, i, d)| + if copies[i].src == d && copies[i].dst != d then 1 else 0
  {
    var before, after := ReadersUpTo(copies, i, d), ReadersUpTo(copies, i + 1, d);
    var more: set<Operand> := if copies[i].src == d && copies[i].dst != d then {copies[i].dst} else {};
    assert copies[i].dst !in before;
    forall x ensures x in after <==> x in before + more {
      if x in after && x !in before {
        var k :| 0 <= k < i + 1 && copies[k].src == d && copies[k].dst != d && copies[k].dst == x;
        assert k == i;
      }
    }
    hide ReadersUpTo;
    assert after == before + more;
  }

  lemma AllReadersCounted(copies: seq<Copy>, want: map<Operand, Operand>, m: Table, d: Operand)
    requires Requested(copies, want) && m.Keys == want.Keys && d in m
    requires forall x :: x in m ==> m[x].src == want[x]
    ensures ReadersUpTo(copies, |copies|, d) == Readers(m, {}, d)
  {
    forall x | x in Readers(m, {}, d) ensures x in ReadersUpTo(copies, |copies|, d) {
      var k :| 0 <= k < |copies| && copies[k] == Copy(want[x], x);
    }
  }

  /** The first loop: one entry per non-trivial copy. */
  method CollectEntries(copies: seq<Copy>) returns (m: Table, ghost want: map<Operand, Operand>)
    requires DistinctDestinations(copies)
    ensures Requested(copies, want) && want.Keys == m.Keys
    ensures forall d :: d in m ==> m[d] == CopyUsage(want[d], 0)
  {
    m, want := map[], map[];
    for i := 0 to |copies|
      invariant want.Keys == m.Keys
      invariant forall d :: d in m ==> m[d] == CopyUsage(want[d], 0)
      invariant forall k :: 0 <= k < i && copies[k].src != copies[k].dst ==>
                  copies[k].dst in want && want[copies[k].dst] == copies[k].src
      invariant forall d :: d in want ==> want[d] != d && Copy(want[d], d) in copies[..i]
    {
      var c := copies[i];
      if c.dst != c.src && c.dst !in m {
        m := m[c.dst := CopyUsage(c.src, 0)];
        want := want[c.dst := c.src];
      }
      assert copies[..i + 1] == copies[..i] + [c];
    }
  }

  /** The second loop: every entry gets its number of readers. */
  method BuildTable(copies: seq<Copy>) returns (m: Table, ghost want: map<Operand, Operand>)
    requires DistinctDestinations(copies)
    ensures Requested(copies, want) && want.Keys == m.Keys
    ensures forall d :: d in m ==> m[d].src == want[d]
    ensures CountsReaders(m, {})
  {
    m, want := CollectEntries(copies);
    for i := 0 to |copies|
      invariant want.Keys == m.Keys
      invariant forall d :: d in m ==> m[d].src == want[d] && m[d].usage == |ReadersUpTo(copies, i, d)|
    {
      forall d { NextReader(copies, i, d); }
      if copies[i].src == copies[i].dst { SelfCopyNotPending(copies, want, i); }
      var s := copies[i].src;
      if s in m {
        m := m[s := m[s].(usage := m[s].usage + 1)];
      }
    }
    forall d | d in m ensures m[d].usage == |Readers(m, {}, d)| {
      AllReadersCounted(copies, want, m, d);
    }
  }

  // ----- The pass -----

  ghost function Held(out: seq<Copy>): Operand -> Operand {
    o => Holds(out, o)
  }

  lemma HeldMoved(out: seq<Copy>, c: Copy)
    ensures Moved(Held(out), Held(out + [c]), c)
  {
    forall o ensures Held(out + [c])(o) == Held(out)(if o == c.dst then c.src else o) {
      HoldsAfterMove(out, c, o);
    }
  }

  lemma EraseKeepsProgress(want: map<Operand, Operand>, m: Table, rm: set<Operand>,
                           h: Operand -> Operand, base: nat, count: nat)
    requires Progress(want, m, rm, h, base, count) && CountsReaders(m, rm)
    ensures Progress(want, m - rm, {}, h, base, count) && CountsReaders(m - rm, {})
  {
    forall d | d in m - rm ensures (m - rm)[d].usage == |Readers(m - rm, {}, d)| {
      assert Readers(m - rm, {}, d) == Readers(m, rm, d);
    }
  }

  lemma EraseShrinks(m: Table, rm: set<Operand>)
    requires rm != {} && rm <= m.Keys
    ensures |m - rm| < |m|
  {
    var x :| x in rm;
    assert x in m.Keys && x !in (m - rm).Keys;
    Cardinality((m - rm).Keys, m.Keys);
  }

  lemma StartsInProgress(copies: seq<Copy>, want: map<Operand, Operand>, m: Table, count: nat)
    requires WellFormed(copies, count) && Requested(copies, want) && want.Keys == m.Keys
    requires forall d :: d in m ==> m[d].src == want[d]
    ensures CountsReaders(m, {}) ==> Ready(want, m, [], count, count)
  {
    forall d | d in want ensures Known(want[d], count) && Known(d, count) {
      assert Copy(want[d], d) in copies;
    }
    assert |m| == |m.Keys| == |want|;
  }

  /** Entries whose source is itself pending: what a cycle break makes smaller. */
  function Blocked(m: Table): set<Operand> {
    set d | d in m && m[d].src in m
  }

  lemma BreakUnblocks(m: Table, to: Operand, saved: Operand)
    requires to in m && m[to].src in m && saved !in m
    ensures Broken(m, to, saved).Keys == m.Keys && |Blocked(Broken(m, to, saved))| < |Blocked(m)|
  {
    assert Blocked(Broken(m, to, saved)) == Blocked(m) - {to};
  }

  /** What holds between two passes of the loop: one move for every copy that is done, and one for every register
      that was created. */
  ghost predicate Ready(want: map<Operand, Operand>, m: Table, out: seq<Copy>, base: nat, count: nat) {
    base <= count && Progress(want, m, {}, Held(out), base, count) && CountsReaders(m, {}) && MovesKnown(out, count)
    && |out| + |m| == |want| + (count - base)
  }

  /** The moves use registers that were created. */
  ghost predicate MovesKnown(out: seq<Copy>, count: nat) {
    forall k :: 0 <= k < |out| ==> Known(out[k].src, count) && Known(out[k].dst, count)
  }

  lemma ReadyParts(want: map<Operand, Operand>, m: Table, out: seq<Copy>, base: nat, count: nat)
    requires Ready(want, m, out, base, count)
    ensures base <= count && Progress(want, m, {}, Held(out), base, count) && CountsReaders(m, {})
            && MovesKnown(out, count)
    ensures |out| + |m| == |want| + (count - base)
  {
  }

  lemma OneMoreKnown(want: map<Operand, Operand>, m: Table, rm: set<Operand>, out: seq<Copy>, base: nat, count: nat,
                     to: Operand)
    requires base <= count && Progress(want, m, rm, Held(out), base, count) && MovesKnown(out, count) && to in m
    ensures MovesKnown(out + [Copy(m[to].src, to)], count)
    ensures MovesKnown(out + [Copy(m[to].src, VirtualReg(count))], count + 1)
  {
  }

  /** The cycle break as a whole: the usage the source text asserts is exactly 1, and the loop
      may go on with fewer blocked entries. */
  lemma BreakStep(want: map<Operand, Operand>, m: Table, out: seq<Copy>, base: nat, count: nat, to: Operand)
    requires Ready(want, m, out, base, count)
    requires to in m && forall d :: d in m ==> m[d].usage != 0
    ensures m[to].src in m && m[m[to].src].usage == 1
    ensures Ready(want, Broken(m, to, VirtualReg(count)), out + [Copy(m[to].src, VirtualReg(count))], base, count + 1)
    ensures |Broken(m, to, VirtualReg(count))| == |m|
    ensures |Blocked(Broken(m, to, VirtualReg(count)))| < |Blocked(m)|
  {
    hide *;
    ReadyParts(want, m, out, base, count);
    OneMoreKnown(want, m, {}, out, base, count, to);
    AllBusyIsPermutation(m, to);
    AllBusyIsPermutation(m, m[to].src);
    var saved := VirtualReg(count);
    var c := Copy(m[to].src, saved);
    FreshNotPending(want, m, Held(out), base, count, to);
    BreakUnblocks(m, to, saved);
    assert |Broken(m, to, saved)| == |Broken(m, to, saved).Keys| == |m.Keys| == |m|;
    BreakKeepsCounts(m, to, saved);
    HeldMoved(out, c);
    BreakKeepsProgress(want, m, Held(out), Held(out + [c]), base, count, to);
    ReadyIs(want, Broken(m, to, saved), out + [c], base, count + 1);
  }

  lemma ReadyIs(want: map<Operand, Operand>, m: Table, out: seq<Copy>, base: nat, count: nat)
    requires base <= count && Progress(want, m, {}, Held(out), base, count) && CountsReaders(m, {})
             && MovesKnown(out, count)
    requires |out| + |m| == |want| + (count - base)
    ensures Ready(want, m, out, base, count)
  {
  }

  function Erased(m: Table, rm: set<Operand>): Table {
    m - rm
  }

  /** Erasing what a pass emitted, as a whole. */
  lemma EraseStep(want: map<Operand, Operand>, m: Table, rm: set<Operand>, out: seq<Copy>, base: nat, count: nat)
    requires base <= count && Progress(want, m, rm, Held(out), base, count) && CountsReaders(m, rm)
    requires MovesKnown(out, count) && |out| + |m| == |want| + (count - base) + |rm|
    requires |rm| != 0 && rm <= m.Keys
    ensures Ready(want, Erased(m, rm), out, base, count) && |Erased(m, rm)| < |m|
  {
    EraseKeepsProgress(want, m, rm, Held(out), base, count);
    EraseShrinks(m, rm);
    assert Erased(m, rm) == m - rm;
    hide *;
    ErasedSize(m, rm);
    ReadyIs(want, Erased(m, rm), out, base, count);
  }

  lemma ErasedSize(m: Table, rm: set<Operand>)
    requires rm <= m.Keys
    ensures |m| == |Erased(m, rm)| + |rm|
  {
    assert m.Keys == Erased(m, rm).Keys + rm;
    assert |m| == |m.Keys| && |Erased(m, rm)| == |Erased(m, rm).Keys|;
  }

  /** Emitting one free entry. */
  lemma EmitStep(want: map<Operand, Operand>, m: Table, rm: set<Operand>, out: seq<Copy>, base: nat, count: nat,
                 to: Operand)
    requires base <= count && Progress(want, m, rm, Held(out), base, count) && CountsReaders(m, rm)
    requires MovesKnown(out, count) && to in m && to !in rm && m[to].usage == 0
    ensures var out' := out + [Copy(m[to].src, to)];
            && Progress(want, Emitted(m, to), rm + {to}, Held(out'), base, count)
            && CountsReaders(Emitted(m, to), rm + {to}) && MovesKnown(out', count)
    ensures Emitted(m, to).Keys == m.Keys
  {
    hide *;
    var c := Copy(m[to].src, to);
    EmittedShape(m, to);
    OneMoreKnown(want, m, rm, out, base, count, to);
    HeldMoved(out, c);
    EmitKeepsProgress(want, m, rm, Held(out), Held(out + [c]), base, count, to);
    EmitKeepsCounts(m, rm, to);
  }

  lemma FreshNotPending(want: map<Operand, Operand>, m: Table, h: Operand -> Operand, base: nat, count: nat,
                        to: Operand)
    requires Progress(want, m, {}, h, base, count) && base <= count
    requires to in m
    ensures VirtualReg(count) !in m && m[to].src != to
  {
  }

  /** What an emitted list must do, in terms of initial contents: every destination holds its
      source, and every other operand that existed before is untouched. */
  ghost predicate Sequentializes(copies: seq<Copy>, count: nat, out: seq<Copy>) {
    && (forall c :: c in copies ==> Holds(out, c.dst) == c.src)
    && (forall o :: Known(o, count) && (forall c :: c in copies ==> c.dst != o) ==> Holds(out, o) == o)
  }

  /** The destinations of the copies that are not onto themselves. */
  function Changed(copies: seq<Copy>): set<Operand> {
    set k | 0 <= k < |copies| && copies[k].src != copies[k].dst :: copies[k].dst
  }

  lemma ChangedAre(copies: seq<Copy>, want: map<Operand, Operand>)
    requires Requested(copies, want)
    ensures |Changed(copies)| == |want|
  {
    forall d | d in want ensures d in Changed(copies) {
      var k :| 0 <= k < |copies| && copies[k] == Copy(want[d], d);
    }
    assert Changed(copies) == want.Keys;
  }

  lemma EmptyTableIsDone(copies: seq<Copy>, want: map<Operand, Operand>, out: seq<Copy>, base: nat, count: nat)
    requires WellFormed(copies, base) && Requested(copies, want)
    requires Ready(want, map[], out, base, count)
    ensures Sequentializes(copies, base, out)
  {
    forall c | c in copies ensures Held(out)(c.dst) == c.src {
      var k :| 0 <= k < |copies| && copies[k] == c;
      if c.src == c.dst {
        SelfCopyNotPending(copies, want, k);
      }
    }
    forall o | o in want ensures exists c :: c in copies && c.dst == o {
      assert Copy(want[o], o) in copies;
    }
  }

  /** Executing such a list one move at a time is the simultaneous assignment, from every machine state. */
  lemma SequentialIsParallel(copies: seq<Copy>, count: nat, out: seq<Copy>, e: Machine)
    requires Sequentializes(copies, count, out)
    ensures ParallelAssigned(copies, count, e, Execute(out, e))
  {
    forall o ensures Execute(out, e)(o) == e(Holds(out, o)) {
      ExecuteIsHolds(out, e, o);
    }
  }

  /** One pass over the table in whatever order its keys have: every entry that is free when it is
      visited is emitted, and its source loses a reader at once. */
  method EmitFree(m0: Table, out0: seq<Copy>, ghost want: map<Operand, Operand>, ghost base: nat, ghost count: nat)
    returns (m: Table, out: seq<Copy>, rm: set<Operand>)
    requires Ready(want, m0, out0, base, count)
    ensures m.Keys == m0.Keys && |m| == |m0|
    ensures Progress(want, m, rm, Held(out), base, count) && CountsReaders(m, rm)
    ensures rm <= m.Keys && MovesKnown(out, count) && |out| == |out0| + |rm|
    ensures |rm| == 0 ==> m == m0 && out == out0 && forall d :: d in m0 ==> m0[d].usage != 0
  {
    hide *;
    ReadyParts(want, m0, out0, base, count);
    m, out, rm := m0, out0, {};
    var todo := m.Keys;
    while todo != {}
      invariant todo <= m.Keys == m0.Keys && rm !! todo && rm <= m.Keys && MovesKnown(out, count)
      invariant |out| == |out0| + |rm|
      invariant Progress(want, m, rm, Held(out), base, count) && CountsReaders(m, rm)
      invariant rm == {} ==> m == m0 && out == out0 && forall d :: d in m && d !in todo ==> m[d].usage != 0
    {
      var to :| to in todo;
      todo := todo - {to};
      if m[to].usage == 0 {
        EmitStep(want, m, rm, out, base, count, to);
        m, out, rm := Emitted(m, to), out + [Copy(m[to].src, to)], rm + {to};
      }
    }
  }

  function AsInsts(moves: seq<Copy>): seq<MInst> {
    seq(|moves|, i requires 0 <= i < |moves| => Move(moves[i]))
  }

  /** The block with `moves` executed last, but before leaving it. */
  function WithMoves(insts: seq<MInst>, moves: seq<Copy>): seq<MInst> {
    var n := if insts != [] && insts[|insts| - 1].Branch? then |insts| - 1 else |insts|;
    insts[..n] + AsInsts(moves) + insts[n..]
  }

  // ----- Running a block -----

  /** What the other instructions do to the operands. */
  type Effects = (nat, Machine) -> Machine

  /** A block is left by a branch, or at its end. */
  datatype Exit = Jumped(target: nat, e: Machine) | Fell(e: Machine)

  ghost function RunBlock(insts: seq<MInst>, fx: Effects, e: Machine): Exit {
    if insts == [] then Fell(e)
    else
      match insts[0]
      case Move(c) => RunBlock(insts[1..], fx, Write(e, c))
      case Other(tag) => RunBlock(insts[1..], fx, fx(tag, e))
      case Branch(target) => Jumped(target, e)
  }

  /** Branches before the last instruction, which the code generator never builds. */
  predicate BranchesEarly(insts: seq<MInst>) {
    exists i :: 0 <= i < |insts| - 1 && insts[i].Branch?
  }

  /** The block is left as before, with the copies made last. */
  ghost predicate LeftWithCopies(copies: seq<Copy>, count: nat, insts: seq<MInst>, insts': seq<MInst>,
                                 fx: Effects, e: Machine) {
    var x, x' := RunBlock(insts, fx, e), RunBlock(insts', fx, e);
    && x'.Jumped? == x.Jumped? && (x.Jumped? ==> x'.target == x.target)
    && (if BranchesEarly(insts) then x'.e == x.e else ParallelAssigned(copies, count, x.e, x'.e))
  }

  lemma {:induction false} RunAppended(a: seq<MInst>, b: seq<MInst>, fx: Effects, e: Machine)
    ensures RunBlock(a + b, fx, e) == var x := RunBlock(a, fx, e); if x.Fell? then RunBlock(b, fx, x.e) else x
  {
    if a == [] {
      assert a + b == b;
    } else {
      assert (a + b)[1..] == a[1..] + b;
      match a[0]
      case Move(c) => RunAppended(a[1..], b, fx, Write(e, c));
      case Other(tag) => RunAppended(a[1..], b, fx, fx(tag, e));
      case Branch(_) =>
    }
  }

  lemma {:induction false} RunMoves(moves: seq<Copy>, fx: Effects, e: Machine)
    ensures RunBlock(AsInsts(moves), fx, e) == Fell(Execute(moves, e))
  {
    if moves != [] {
      var n := |moves| - 1;
      RunMoves(moves[..n], fx, e);
      assert AsInsts(moves) == AsInsts(moves[..n]) + [Move(moves[n])];
      RunAppended(AsInsts(moves[..n]), [Move(moves[n])], fx, e);
      var e1 := Execute(moves[..n], e);
      assert RunBlock([Move(moves[n])], fx, e1) == RunBlock([Move(moves[n])][1..], fx, Write(e1, moves[n]));
    }
  }

  lemma {:induction false} FallsUnlessBranch(insts: seq<MInst>, fx: Effects, e: Machine)
    ensures RunBlock(insts, fx, e).Fell? <==> forall i :: 0 <= i < |insts| ==> !insts[i].Branch?
  {
    if insts != [] {
      assert forall i :: 0 < i < |insts| ==> insts[i] == insts[1..][i - 1];
      match insts[0]
      case Move(c) => FallsUnlessBranch(insts[1..], fx, Write(e, c));
      case Other(tag) => FallsUnlessBranch(insts[1..], fx, fx(tag, e));
      case Branch(_) =>
    }
  }

  /** Moves between the body of a block and what ends it. */
  lemma MovesBetween(copies: seq<Copy>, count: nat, body: seq<MInst>, moves: seq<Copy>, end: seq<MInst>,
                     fx: Effects, e: Machine)
    requires Sequentializes(copies, count, moves)
    requires (end == [] && (body == [] || !body[|body| - 1].Branch?)) || (|end| == 1 && end[0].Branch?)
    ensures LeftWithCopies(copies, count, body + end, body + AsInsts(moves) + end, fx, e)
  {
    RunAppended(body, end, fx, e);
    RunAppended(body + AsInsts(moves), end, fx, e);
    RunAppended(body, AsInsts(moves), fx, e);
    FallsUnlessBranch(body, fx, e);
    var x := RunBlock(body, fx, e);
    assert BranchesEarly(body + end) <==> !x.Fell? by {
      assert forall i :: 0 <= i < |body| ==> (body + end)[i] == body[i];
    }
    if x.Fell? {
      RunMoves(moves, fx, x.e);
      SequentialIsParallel(copies, count, moves, x.e);
    }
  }

  class MBasicBlock {
    var instructions: seq<MInst>
    const function_: MFunction

    constructor (f: MFunction)
      ensures function_ == f && instructions == []
    {
      function_ := f;
      instructions := [];
    }

    /** The branch taken when every entry is still read. */
    method BreakCycle(m0: Table, out0: seq<Copy>, ghost want: map<Operand, Operand>, ghost base: nat)
      returns (m: Table, out: seq<Copy>)
      requires m0 != map[] && Ready(want, m0, out0, base, function_.virtualRegs)
      requires forall d :: d in m0 ==> m0[d].usage != 0
      modifies function_
      ensures function_.virtualRegs == old(function_.virtualRegs) + 1
      ensures Ready(want, m, out, base, function_.virtualRegs)
      ensures |m| == |m0| && |Blocked(m)| < |Blocked(m0)|
    {
      hide *;
      var to :| to in m0;
      BreakStep(want, m0, out0, base, function_.virtualRegs, to);
      var from := m0[to].src;
      var vr := function_.CopyRegister();
      m, out := Broken(m0, to, vr), out0 + [Copy(from, vr)];
    }

    /** One pass and the erasure of what it emitted; `any` tells whether it emitted anything. */
    method EmitAndErase(m0: Table, out0: seq<Copy>, ghost want: map<Operand, Operand>, ghost base: nat,
                        ghost count: nat)
      returns (m: Table, out: seq<Copy>, any: bool)
      requires Ready(want, m0, out0, base, count)
      ensures Ready(want, m, out, base, count)
      ensures any ==> |m| < |m0|
      ensures !any ==> m == m0 && forall d :: d in m0 ==> m0[d].usage != 0
    {
      assert base <= count;
      hide *;
      var rm;
      ReadyParts(want, m0, out0, base, count);
      m, out, rm := EmitFree(m0, out0, want, base, count);
      any := |rm| != 0;
      if any {
        EraseStep(want, m, rm, out, base, count);
        m := Erased(m, rm);
      }
    }

    /** One round: emit the free entries or, when there is none, save one source. */
    method Round(m0: Table, out0: seq<Copy>, ghost want: map<Operand, Operand>, ghost base: nat)
      returns (m: Table, out: seq<Copy>)
      requires m0 != map[] && Ready(want, m0, out0, base, function_.virtualRegs)
      modifies function_
      ensures old(function_.virtualRegs) <= function_.virtualRegs
      ensures Ready(want, m, out, base, function_.virtualRegs)
      ensures |m| < |m0| || (|m| == |m0| && |Blocked(m)| < |Blocked(m0)|)
    {
      var any: bool;
      hide *;
      m, out, any := EmitAndErase(m0, out0, want, base, function_.virtualRegs);
      if !any {
        m, out := BreakCycle(m, out, want, base);
      }
    }

    /** The worklist loop. */
    method Sequentialize(copies: seq<Copy>) returns (out: seq<Copy>)
      requires WellFormed(copies, function_.virtualRegs)
      modifies function_
      ensures old(function_.virtualRegs) <= function_.virtualRegs
      ensures Sequentializes(copies, old(function_.virtualRegs), out)
      ensures MovesKnown(out, function_.virtualRegs)
      ensures |out| == |Changed(copies)| + (function_.virtualRegs - old(function_.virtualRegs))
    {
      ghost var base := function_.virtualRegs;
      var m, want := BuildTable(copies);
      out := [];
      StartsInProgress(copies, want, m, base);
      hide *;
      while m != map[]
        invariant base <= function_.virtualRegs && Ready(want, m, out, base, function_.virtualRegs)
        decreases |m|, |Blocked(m)|
      {
        m, out := Round(m, out, want, base);
      }
      EmptyTableIsDone(copies, want, out, base, function_.virtualRegs);
      ReadyParts(want, m, out, base, function_.virtualRegs);
      ChangedAre(copies, want);
    }

    /** `mergePhiCopies`: the moves go to the end of the block, in front of its branch if it has one. */
    method MergePhiCopies(copies: seq<Copy>) returns (out: seq<Copy>)
      requires WellFormed(copies, function_.virtualRegs)
      modifies this, function_
      ensures Sequentializes(copies, old(function_.virtualRegs), out)
      ensures old(function_.virtualRegs) <= function_.virtualRegs && MovesKnown(out, function_.virtualRegs)
      ensures |out| == |Changed(copies)| + (function_.virtualRegs - old(function_.virtualRegs))
      ensures instructions == WithMoves(old(instructions), out)
      ensures forall fx, e :: LeftWithCopies(copies, old(function_.virtualRegs), old(instructions), instructions, fx, e)
    {
      ghost var insts, count := instructions, function_.virtualRegs;
      out := Sequentialize(copies);
      hide Sequentializes, LeftWithCopies;
      if instructions == [] {
        instructions := AsInsts(out);
      } else if instructions[|instructions| - 1].Branch? {
        var bcc := instructions[|instructions| - 1];
        instructions := instructions[..|instructions| - 1];
        instructions := instructions + AsInsts(out);
        instructions := instructions + [bcc];
      } else {
        instructions := instructions + AsInsts(out);
      }
      ghost var n := if insts != [] && insts[|insts| - 1].Branch? then |insts| - 1 else |insts|;
      assert insts[..n] + insts[n..] == insts && instructions == insts[..n] + AsInsts(out) + insts[n..];
      forall fx, e ensures LeftWithCopies(copies, count, insts, instructions, fx, e) {
        MovesBetween(copies, count, insts[..n], out, insts[n..], fx, e);
      }
    }
  }
}
