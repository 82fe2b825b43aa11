/** The iterator of the bitset, and the block graph of the inliner: adjacency bitsets with counts, and the
    merging of a block into its only predecessor, which empties a set while it is walked over. */
module InlineMerge {
  import opened Bits
  import opened Bitset
  import opened SplitFunction
  import IR

  // ----- What an iterator has still to yield -----

  /** The bits left in the mask, and the members in later words. */
  ghost function Left(members: set<nat>, wordIdx: nat, mask: nat, words: nat): set<nat> {
    set i: nat | i < 64 * words && InLeft(members, wordIdx, mask, i)
  }

  ghost predicate InLeft(members: set<nat>, wordIdx: nat, mask: nat, i: nat) {
    if WordOf(i) == wordIdx then Bit(mask, BitOf(i)) else WordOf(i) > wordIdx && i in members
  }

  lemma LeftHas(members: set<nat>, wordIdx: nat, mask: nat, words: nat, i: nat)
    requires wordIdx <= words && (wordIdx == words ==> mask == 0) && forall j :: j in members ==> WordOf(j) < words
    ensures i in Left(members, wordIdx, mask, words) <==> InLeft(members, wordIdx, mask, i)
  {
    Placed(i);
    NoBits(BitOf(i));
    hide WordOf, BitOf, Bit;
  }

  /** A member in the current word or an earlier one can be taken out behind the iterator's back. */
  lemma LeftStable(members: set<nat>, wordIdx: nat, mask: nat, words: nat, x: nat)
    requires WordOf(x) <= wordIdx
    ensures Left(members - {x}, wordIdx, mask, words) == Left(members, wordIdx, mask, words)
  {
    forall i: nat ensures InLeft(members - {x}, wordIdx, mask, i) == InLeft(members, wordIdx, mask, i) {
    }
  }

  lemma BelowCapacity(words: seq<nat>)
    ensures forall j :: j in Members(words) ==> WordOf(j) < |words|
  {
    forall j: nat | j in Members(words) ensures WordOf(j) < |words| {
      MembersHas(words, j);
    }
  }

  class Iterator {
    const bs: DynamicBitset
    var wordIdx: nat
    var mask: nat

    /** The iterator fits a set of `words` words. */
    ghost predicate Fits(words: nat)
      reads this
    {
      wordIdx <= words && IsWord(mask) && (mask == 0 <==> wordIdx == words)
    }

    ghost predicate Valid()
      reads this, bs, bs.data
    {
      bs.Valid() && Fits(bs.data.Length)
    }

    ghost function Rest(): set<nat>
      reads this, bs
    {
      Left(bs.members, wordIdx, mask, bs.data.Length)
    }

    /** `begin()`. */
    constructor (bs: DynamicBitset)
      requires bs.Valid()
      ensures Valid() && this.bs == bs && Rest() == bs.members
    {
      this.bs, wordIdx, mask := bs, 0, 0;
      new;
      SkipZeros();
      RestFrom(0);
    }

    /** Goes to the next word that is not 0. */
    method SkipZeros()
      requires bs.Valid() && wordIdx <= bs.data.Length
      modifies this
      ensures Valid() && old(wordIdx) <= wordIdx
      ensures wordIdx < bs.data.Length ==> mask == bs.data[wordIdx]
      ensures forall k :: old(wordIdx) <= k < wordIdx ==> bs.data[k] == 0
    {
      bs.ValidParts();
      hide *;
      while wordIdx < bs.data.Length && bs.data[wordIdx] == 0
        invariant old(wordIdx) <= wordIdx <= bs.data.Length && forall k ::
                    old(wordIdx) <= k < wordIdx ==> bs.data[k] == 0
      {
        wordIdx := wordIdx + 1;
      }
      if wordIdx < bs.data.Length {
        mask := bs.data[wordIdx];
      } else {
        mask := 0;
      }
      ZeroIsWord();
      ValidIs();
    }

    lemma ValidIs()
      requires bs.Valid() && wordIdx <= bs.data.Length && IsWord(mask) && (mask == 0 <==> wordIdx == bs.data.Length)
      ensures Valid()
    {
    }

    /** What `Valid` and `Rest` say. */
    lemma Shape()
      requires Valid()
      ensures Fits(bs.data.Length) && Rest() == Left(bs.members, wordIdx, mask, bs.data.Length)
    {
    }

    /** After a member at or before the current word was taken out of the set, and the set is valid, the
        iterator is, and has as much left as before. */
    lemma Reshape(members: set<nat>, x: nat, rest: set<nat>)
      requires bs.Valid() && Fits(bs.data.Length) && bs.members == members - {x} && WordOf(x) <= wordIdx
      requires rest == Left(members, wordIdx, mask, bs.data.Length)
      ensures Valid() && Rest() == rest
    {
      LeftStable(members, wordIdx, mask, bs.data.Length, x);
    }

    /** After the zero words from `k` on were skipped, the members from there on are left. */
    lemma RestFrom(k: nat)
      requires Valid() && k <= wordIdx && forall j :: k <= j < wordIdx ==> bs.data[j] == 0
      requires wordIdx < bs.data.Length ==> mask == bs.data[wordIdx]
      ensures forall i: nat :: i in Rest() <==> i in bs.members && WordOf(i) >= k
      ensures k == 0 ==> Rest() == bs.members
    {
      BelowCapacity(bs.data[..]);
      forall i: nat ensures i in Rest() <==> i in bs.members && WordOf(i) >= k {
        LeftHas(bs.members, wordIdx, mask, bs.data.Length, i);
        MembersHas(bs.data[..], i);
        HasIs(bs.data[..], i);
        NoBits(BitOf(i));
        hide WordOf, BitOf, Bit, IsWord, Left, Members;
      }
    }

    /** The comparison with `end()`. */
    predicate AtEnd()
      reads this, bs
    {
      wordIdx == bs.data.Length && mask == 0
    }

    /** `*`: the place of the lowest bit left. */
    function Current(): nat
      requires mask > 0
      reads this
    {
      64 * wordIdx + TrailingZeros(mask)
    }

    lemma CurrentIs()
      ensures mask > 0 ==> Current() == 64 * wordIdx + TrailingZeros(mask)
    {
    }

    /** The iterator is at its end exactly when nothing is left. */
    lemma EmptyRest()
      requires Valid()
      ensures (Rest() == {} <==> mask == 0) && (AtEnd() <==> Rest() == {})
    {
      BelowCapacity(bs.data[..]);
      if mask == 0 {
        forall i: nat ensures i !in Rest() {
          LeftHas(bs.members, wordIdx, mask, bs.data.Length, i);
          NoBits(BitOf(i));
        }
      } else {
        var b := Nonzero64(mask);
        PlacedAt(wordIdx, b);
        LeftHas(bs.members, wordIdx, mask, bs.data.Length, 64 * wordIdx + b);
      }
    }

    /** The iterator stands at the least number left. */
    lemma Least()
      requires Valid() && mask > 0
      ensures WordOf(Current()) == wordIdx && Current() in Rest() && forall j :: j in Rest() ==> Current() <= j
    {
      BelowCapacity(bs.data[..]);
      var b := Nonzero64(mask);
      var r := 64 * wordIdx + b;
      PlacedAt(wordIdx, b);
      LeftHas(bs.members, wordIdx, mask, bs.data.Length, r);
      hide WordOf, BitOf, Bit, IsWord, Left, Members;
      forall j: nat | j in Rest() ensures r <= j {
        LeftHas(bs.members, wordIdx, mask, bs.data.Length, j);
        Placed(j);
      }
    }

    /** `++`: the least number left is taken off. */
    method Advance()
      requires Valid() && Rest() != {}
      modifies this
      ensures Valid() && old(mask) > 0 && Rest() == old(Rest()) - {old(64 * wordIdx + TrailingZeros(mask))}
    {
      hide *;
      EmptyRest();
      ValidParts();
      RestIs();
      ghost var w0, m0, rest := wordIdx, mask, Rest();
      DropLowest();
      if mask == 0 {
        NextWord();
      } else {
        ValidIs();
      }
      Advanced(w0, m0, rest);
    }

    /** `mask_ &= mask_ - 1`. */
    method DropLowest()
      requires mask > 0
      modifies this`mask
      ensures mask == And64(old(mask), old(mask) - 1) && IsWord(mask)
    {
      hide *;
      And64Bound(mask, mask - 1);
      mask := And64(mask, mask - 1);
    }

    method NextWord()
      requires bs.Valid() && wordIdx < bs.data.Length
      modifies this
      ensures Valid() && forall j: nat :: j in Rest() <==> j in bs.members && WordOf(j) >= old(wordIdx) + 1
    {
      hide *;
      wordIdx := wordIdx + 1;
      ghost var k := wordIdx;
      SkipZeros();
      RestFrom(k);
    }

    lemma Advanced(w0: nat, m0: nat, rest: set<nat>)
      requires Valid() && 0 < m0 && IsWord(m0) && w0 < bs.data.Length
               && rest == Left(bs.members, w0, m0, bs.data.Length)
      requires var m := And64(m0, m0 - 1);
               if m != 0 then wordIdx == w0 && mask == m
               else forall j: nat :: j in Rest() <==> j in bs.members && WordOf(j) >= w0 + 1
      ensures Rest() == rest - {64 * w0 + TrailingZeros(m0)}
    {
      hide *;
      forall i: nat ensures i in Rest() <==> i in rest && i != 64 * w0 + TrailingZeros(m0) {
        AdvanceOne(w0, m0, i);
      }
    }

    lemma ValidParts()
      requires Valid()
      ensures bs.Valid() && wordIdx <= bs.data.Length && IsWord(mask) && (mask == 0 <==> wordIdx == bs.data.Length)
    {
      hide IsWord;
    }

    lemma RestIs()
      ensures Rest() == Left(bs.members, wordIdx, mask, bs.data.Length)
    {
      hide Left;
    }

    /** Where a number stands after `++`. */
    lemma AdvanceOne(w0: nat, m0: nat, i: nat)
      requires Valid() && 0 < m0 && IsWord(m0) && w0 < bs.data.Length
      requires var m := And64(m0, m0 - 1);
               if m != 0 then wordIdx == w0 && mask == m
               else forall j: nat :: j in Rest() <==> j in bs.members && WordOf(j) >= w0 + 1
      ensures i in Rest() <==> i in Left(bs.members, w0, m0, bs.data.Length) && i != 64 * w0 + TrailingZeros(m0)
    {
      BelowCapacity(bs.data[..]);
      var m := And64(m0, m0 - 1);
      Placed(i);
      LeftHas(bs.members, w0, m0, bs.data.Length, i);
      ClearLowest64(m0, BitOf(i));
      NoBits(BitOf(i));
      var b := Nonzero64(m0);
      PlacedAt(w0, b);
      hide WordOf, BitOf, Bit, IsWord, Left, Members;
      if m != 0 {
        LeftHas(bs.members, wordIdx, mask, bs.data.Length, i);
      }
    }
  }

  lemma ZeroIsWord()
    ensures IsWord(0)
  {
    IsWordIs(0);
    Pow2Positive(WORD);
  }

  // ----- The block graph -----

  class IBBNode {
    const next: DynamicBitset
    const pre: DynamicBitset
    var nc: nat
    var pc: nat
    /** The lists of the block itself. */
    var succBbs: seq<nat>
    var preBbs: seq<nat>

    constructor (next: DynamicBitset, pre: DynamicBitset, nc: nat, pc: nat, succBbs: seq<nat>, preBbs: seq<nat>)
      ensures this.next == next && this.pre == pre && this.nc == nc && this.pc == pc
      ensures this.succBbs == succBbs && this.preBbs == preBbs
    {
      this.next, this.pre, this.nc, this.pc, this.succBbs, this.preBbs := next, pre, nc, pc, succBbs, preBbs;
    }
  }

  /** Every member once, in some order. */
  ghost predicate Enumerates(s: seq<nat>, members: set<nat>) {
    NoRepeats(s) && forall x :: x in s <==> x in members
  }

  /** The degree is the size of the set, and the list of the block has the same members. */
  ghost predicate OutOk(x: IBBNode)
    reads x`nc, x`succBbs, x.next
  {
    x.nc == |x.next.members| && Enumerates(x.succBbs, x.next.members)
  }

  ghost predicate InOk(x: IBBNode)
    reads x`pc, x`preBbs, x.pre
  {
    x.pc == |x.pre.members| && Enumerates(x.preBbs, x.pre.members)
  }

  lemma OutIs(x: IBBNode)
    ensures OutOk(x) <==> x.nc == |x.next.members| && Enumerates(x.succBbs, x.next.members)
  {
  }

  lemma InIs(x: IBBNode)
    ensures InOk(x) <==> x.pc == |x.pre.members| && Enumerates(x.preBbs, x.pre.members)
  {
  }

  /** `std::list::remove` and `push_back`, when the set has changed. */
  lemma ListsLess(s: seq<nat>, members: set<nat>, x: nat)
    requires Enumerates(s, members)
    ensures Enumerates(if x in members then Remove(s, x) else s, members - {x})
  {
    hide NoRepeats, Remove;
    RemoveIs(s, x);
  }

  lemma ListsMore(s: seq<nat>, members: set<nat>, x: nat)
    requires Enumerates(s, members)
    ensures Enumerates(if x in members then s else s + [x], members + {x})
  {
    hide NoRepeats;
    if x !in members { AppendNoRepeats(s, x); }
  }

  /** `j` follows `i` exactly when `i` precedes `j`. */
  ghost predicate Transposes(outs: seq<set<nat>>, ins: seq<set<nat>>) {
    |outs| == |ins| && forall i, j :: 0 <= i < |outs| && 0 <= j < |outs| ==> (j in outs[i] <==> i in ins[j])
  }

  /** The graph after `next` became part of its only predecessor `pre`. */
  ghost predicate Merged(outs: seq<set<nat>>, ins: seq<set<nat>>, outs': seq<set<nat>>, ins': seq<set<nat>>, pre: nat,
                         next: nat)
    requires pre < |outs| == |ins| && next < |outs|
  {
    && outs' == outs[pre := outs[pre] - {next} + outs[next]][next := {}]
    && |ins'| == |ins|
    && forall j :: 0 <= j < |ins| ==>
         ins'[j] == if j == next then {} else if j in outs[next] then ins[j] - {next} + {pre} else ins[j]
  }

  /** Merging keeps the two directions of the graph transposes of each other. */
  lemma MergedTransposes(outs: seq<set<nat>>, ins: seq<set<nat>>, outs': seq<set<nat>>, ins': seq<set<nat>>, pre: nat,
                         next: nat)
    requires pre < |outs| == |ins| && next < |outs| && pre != next && Transposes(outs, ins) && ins[next] == {pre}
    requires Merged(outs, ins, outs', ins', pre, next)
    ensures Transposes(outs', ins')
  {
    forall i, j | 0 <= i < |outs| && 0 <= j < |outs| ensures j in outs'[i] <==> i in ins'[j] {
      assert j in outs[i] <==> i in ins[j];
      assert j in outs[next] <==> next in ins[j];
      assert next in outs[i] <==> i in ins[next];
    }
  }

  class Inline {
    const allNodes: seq<IBBNode>
    /** The words of the sets. */
    ghost const nextData: seq<array<nat>>
    ghost const preData: seq<array<nat>>

    constructor (nodes: seq<IBBNode>)
      ensures allNodes == nodes && |nextData| == |preData| == |nodes|
      ensures forall i :: 0 <= i < |nodes| ==> nextData[i] == nodes[i].next.data && preData[i] == nodes[i].pre.data
    {
      allNodes := nodes;
      nextData := seq(|nodes|, i requires 0 <= i < |nodes| reads (set k | 0 <= k < |nodes| ::
          nodes[k].next) => nodes[i].next.data);
      preData := seq(|nodes|, i requires 0 <= i < |nodes| reads (set k | 0 <= k < |nodes| ::
          nodes[k].pre) => nodes[i].pre.data);
    }

    /** The sets of two nodes share nothing. */
    ghost predicate ApartAt(i: nat, j: nat)
      requires i < |allNodes| == |nextData| == |preData| && j < |allNodes|
    {
      && allNodes[i].next != allNodes[j].pre && nextData[i] != preData[j]
      && (i != j ==>
          allNodes[i] != allNodes[j] && allNodes[i].next != allNodes[j].next && allNodes[i].pre != allNodes[j].pre
              && nextData[i] != nextData[j] && preData[i] != preData[j])
    }

    ghost predicate Apart() {
      && |allNodes| == |nextData| == |preData|
      && forall i, j :: 0 <= i < |allNodes| && 0 <= j < |allNodes| ==> ApartAt(i, j)
    }

    ghost function Sets(): set<DynamicBitset> {
      (set i | 0 <= i < |allNodes| :: allNodes[i].next) + (set i | 0 <= i < |allNodes| :: allNodes[i].pre)
    }

    ghost predicate NodeSound(i: nat)
      requires i < |allNodes| == |nextData| == |preData|
      reads allNodes[i], allNodes[i].next, allNodes[i].pre, nextData[i], preData[i]
    {
      var x := allNodes[i];
      && x.next.data == nextData[i] && x.pre.data == preData[i]
      && x.next.Valid() && x.pre.Valid() && OutOk(x) && InOk(x)
      && |allNodes| <= 64 * x.next.data.Length && |allNodes| <= 64 * x.pre.data.Length
      && forall j :: j in x.next.members || j in x.pre.members ==> j < |allNodes|
    }

    /** The sets are valid and share nothing, and the counts are their sizes. */
    ghost predicate Sound()
      reads allNodes, Sets(), nextData, preData
    {
      Apart() && forall i :: 0 <= i < |allNodes| ==> NodeSound(i)
    }

    ghost function Outs(): (r: seq<set<nat>>)
      reads Sets()
      ensures |r| == |allNodes|
    {
      seq(|allNodes|, i requires 0 <= i < |allNodes| reads Sets() => allNodes[i].next.members)
    }

    ghost function Ins(): (r: seq<set<nat>>)
      reads Sets()
      ensures |r| == |allNodes|
    {
      seq(|allNodes|, i requires 0 <= i < |allNodes| reads Sets() => allNodes[i].pre.members)
    }

    static method ResetOut(from: IBBNode, toId: nat) returns (f: bool)
      requires from.next.Valid() && WordOf(toId) < from.next.data.Length && from.nc == |from.next.members|
      modifies from`nc, from.next`members, from.next.data
      ensures from.next.Valid() && from.next.data == old(from.next.data)
              && from.next.members == old(from.next.members) - {toId}
      ensures from.nc == |from.next.members| && (f <==> toId in old(from.next.members))
    {
      hide *;
      RemoveOne(from.next.members, toId);
      f := from.next.ResetAndGet(toId);
      if f { from.nc := from.nc - 1; }
    }

    static method ResetIn(to: IBBNode, fromId: nat) returns (t: bool)
      requires to.pre.Valid() && WordOf(fromId) < to.pre.data.Length && to.pc == |to.pre.members|
      modifies to`pc, to.pre`members, to.pre.data
      ensures to.pre.Valid() && to.pre.data == old(to.pre.data) && to.pre.members == old(to.pre.members) - {fromId}
      ensures to.pc == |to.pre.members| && (t <==> fromId in old(to.pre.members))
    {
      hide *;
      RemoveOne(to.pre.members, fromId);
      t := to.pre.ResetAndGet(fromId);
      if t { to.pc := to.pc - 1; }
    }

    /** `removeEdge` on two nodes; they may be one. */
    static method RemoveBetween(from: IBBNode, to: IBBNode, fromId: nat, toId: nat)
      requires from.next != to.pre && from.next.data != to.pre.data && from.next.Valid() && to.pre.Valid()
      requires WordOf(toId) < from.next.data.Length && WordOf(fromId) < to.pre.data.Length
      requires OutOk(from) && InOk(to)
      modifies from`nc, to`pc, from`succBbs, to`preBbs, from.next`members, from.next.data, to.pre`members, to.pre.data
      ensures from.next.Valid() && to.pre.Valid() && OutOk(from) && InOk(to)
      ensures from.next.data == old(from.next.data) && to.pre.data == old(to.pre.data)
      ensures from.next.members == old(from.next.members) - {toId} && to.pre.members == old(to.pre.members) - {fromId}
    {
      hide *;
      OutIs(from);
      InIs(to);
      ListsLess(from.succBbs, from.next.members, toId);
      ListsLess(to.preBbs, to.pre.members, fromId);
      var f := ResetOut(from, toId);
      var t := ResetIn(to, fromId);
      if f { from.succBbs := Remove(from.succBbs, toId); }
      if t { to.preBbs := Remove(to.preBbs, fromId); }
      OutIs(from);
      InIs(to);
    }

    static method SetOut(from: IBBNode, toId: nat) returns (f: bool)
      requires from.next.Valid() && WordOf(toId) < from.next.data.Length && from.nc == |from.next.members|
      modifies from`nc, from.next`members, from.next.data
      ensures from.next.Valid() && from.next.data == old(from.next.data)
              && from.next.members == old(from.next.members) + {toId}
      ensures from.nc == |from.next.members| && (f <==> toId !in old(from.next.members))
    {
      hide *;
      AddOne(from.next.members, toId);
      f := from.next.SetAndGet(toId);
      if f { from.nc := from.nc + 1; }
    }

    static method SetIn(to: IBBNode, fromId: nat) returns (t: bool)
      requires to.pre.Valid() && WordOf(fromId) < to.pre.data.Length && to.pc == |to.pre.members|
      modifies to`pc, to.pre`members, to.pre.data
      ensures to.pre.Valid() && to.pre.data == old(to.pre.data) && to.pre.members == old(to.pre.members) + {fromId}
      ensures to.pc == |to.pre.members| && (t <==> fromId !in old(to.pre.members))
    {
      hide *;
      AddOne(to.pre.members, fromId);
      t := to.pre.SetAndGet(fromId);
      if t { to.pc := to.pc + 1; }
    }

    /** `addEdge` on two nodes. */
    static method AddBetween(from: IBBNode, to: IBBNode, fromId: nat, toId: nat)
      requires from.next != to.pre && from.next.data != to.pre.data && from.next.Valid() && to.pre.Valid()
      requires WordOf(toId) < from.next.data.Length && WordOf(fromId) < to.pre.data.Length
      requires OutOk(from) && InOk(to)
      modifies from`nc, to`pc, from`succBbs, to`preBbs, from.next`members, from.next.data, to.pre`members, to.pre.data
      ensures from.next.Valid() && to.pre.Valid() && OutOk(from) && InOk(to)
      ensures from.next.data == old(from.next.data) && to.pre.data == old(to.pre.data)
      ensures from.next.members == old(from.next.members) + {toId} && to.pre.members == old(to.pre.members) + {fromId}
    {
      hide *;
      OutIs(from);
      InIs(to);
      ListsMore(from.succBbs, from.next.members, toId);
      ListsMore(to.preBbs, to.pre.members, fromId);
      var f := SetOut(from, toId);
      var t := SetIn(to, fromId);
      if f { from.succBbs := from.succBbs + [toId]; }
      if t { to.preBbs := to.preBbs + [fromId]; }
      OutIs(from);
      InIs(to);
    }

    lemma NodeParts(i: nat)
      requires Sound() && i < |allNodes|
      ensures var x := allNodes[i];
              && x.next.Valid() && x.pre.Valid() && OutOk(x) && InOk(x)
              && x.next.data == nextData[i] && x.pre.data == preData[i]
              && |allNodes| <= 64 * x.next.data.Length && |allNodes| <= 64 * x.pre.data.Length
              && (forall j :: j in x.next.members || j in x.pre.members ==> j < |allNodes|)
              && forall j: nat :: j < |allNodes| ==> WordOf(j) < x.next.data.Length && WordOf(j) < x.pre.data.Length
    {
      hide DynamicBitset.Valid, ApartAt;
      assert NodeSound(i);
      forall j: nat | j < |allNodes|
        ensures WordOf(j) < allNodes[i].next.data.Length && WordOf(j) < allNodes[i].pre.data.Length {
        Placed(j);
      }
    }

    lemma SoundParts()
      requires Sound()
      ensures |allNodes| == |nextData| == |preData| && Apart() && forall i :: 0 <= i < |allNodes| ==> NodeSound(i)
    {
      hide NodeSound, ApartAt;
    }

    lemma SoundIs()
      requires |allNodes| == |nextData| == |preData| && Apart() && forall i :: 0 <= i < |allNodes| ==> NodeSound(i)
      ensures Sound()
    {
      hide NodeSound, ApartAt;
    }

    lemma ApartParts(i: nat, j: nat)
      requires |allNodes| == |nextData| == |preData| && Apart() && i < |allNodes| && j < |allNodes|
      ensures allNodes[i].next != allNodes[j].pre && nextData[i] != preData[j]
      ensures i != j ==>
                allNodes[i] != allNodes[j] && allNodes[i].next != allNodes[j].next
                    && allNodes[i].pre != allNodes[j].pre && nextData[i] != nextData[j] && preData[i] != preData[j]
    {
      assert ApartAt(i, j);
    }

    lemma NodeIs(i: nat)
      requires i < |allNodes| == |nextData| == |preData|
      requires var x := allNodes[i];
               && x.next.data == nextData[i] && x.pre.data == preData[i]
               && x.next.Valid() && x.pre.Valid() && OutOk(x) && InOk(x)
               && |allNodes| <= 64 * x.next.data.Length && |allNodes| <= 64 * x.pre.data.Length
               && forall j :: j in x.next.members || j in x.pre.members ==> j < |allNodes|
      ensures NodeSound(i)
    {
      hide DynamicBitset.Valid;
    }

    /** The sets of all nodes from those of the two that changed and those of the others. */
    lemma SetsNow(outs': seq<set<nat>>, ins': seq<set<nat>>)
      requires |allNodes| == |outs'| == |ins'|
      requires forall i: nat :: i < |allNodes| ==>
                 allNodes[i].next.members == outs'[i] && allNodes[i].pre.members == ins'[i]
      ensures Outs() == outs' && Ins() == ins'
    {
      forall i: nat | i < |allNodes| ensures Outs()[i] == outs'[i] && Ins()[i] == ins'[i] {
        SetsAt(i);
      }
    }

    lemma SetsAt(i: nat)
      requires i < |allNodes|
      ensures Outs()[i] == allNodes[i].next.members && Ins()[i] == allNodes[i].pre.members
    {
    }

    method RemoveEdge(from: nat, to: nat)
      requires Sound() && from < |allNodes| && to < |allNodes|
      modifies allNodes[from], allNodes[to], allNodes[from].next, allNodes[from].next.data, allNodes[to].pre,
          allNodes[to].pre.data
      ensures Sound() && Outs() == old(Outs())[from := old(Outs())[from] - {to}]
      ensures Ins() == old(Ins())[to := old(Ins())[to] - {from}]
    {
      hide *;
      SoundParts();
      NodeParts(from);
      NodeParts(to);
      ApartParts(from, to);
      ApartParts(to, from);
      ApartParts(from, from);
      ApartParts(to, to);
      ghost var outs, ins := Outs(), Ins();
      forall i: nat | i < |allNodes| ensures outs[i] == allNodes[i].next.members && ins[i] == allNodes[i].pre.members {
        SetsAt(i);
      }
      RemoveBetween(allNodes[from], allNodes[to], from, to);
      NodeIs(from);
      NodeIs(to);
      forall i: nat | i < |allNodes| && i != from && i != to ensures NodeSound(i) {
        ApartParts(from, i);
        ApartParts(i, to);
      }
      SoundIs();
      forall i: nat | i < |allNodes|
        ensures allNodes[i].next.members == (if i == from then outs[i] - {to} else outs[i])
        ensures allNodes[i].pre.members == (if i == to then ins[i] - {from} else ins[i])
      {
        ApartParts(from, i);
        ApartParts(i, to);
      }
      SetsNow(outs[from := outs[from] - {to}], ins[to := ins[to] - {from}]);
    }

    method AddEdge(from: nat, to: nat)
      requires Sound() && from < |allNodes| && to < |allNodes|
      modifies allNodes[from], allNodes[to], allNodes[from].next, allNodes[from].next.data, allNodes[to].pre,
          allNodes[to].pre.data
      ensures Sound() && Outs() == old(Outs())[from := old(Outs())[from] + {to}]
      ensures Ins() == old(Ins())[to := old(Ins())[to] + {from}]
    {
      hide *;
      SoundParts();
      NodeParts(from);
      NodeParts(to);
      ApartParts(from, to);
      ApartParts(to, from);
      ApartParts(from, from);
      ApartParts(to, to);
      ghost var outs, ins := Outs(), Ins();
      forall i: nat | i < |allNodes| ensures outs[i] == allNodes[i].next.members && ins[i] == allNodes[i].pre.members {
        SetsAt(i);
      }
      AddBetween(allNodes[from], allNodes[to], from, to);
      NodeIs(from);
      NodeIs(to);
      forall i: nat | i < |allNodes| && i != from && i != to ensures NodeSound(i) {
        ApartParts(from, i);
        ApartParts(i, to);
      }
      SoundIs();
      forall i: nat | i < |allNodes|
        ensures allNodes[i].next.members == (if i == from then outs[i] + {to} else outs[i])
        ensures allNodes[i].pre.members == (if i == to then ins[i] + {from} else ins[i])
      {
        ApartParts(from, i);
        ApartParts(i, to);
      }
      SetsNow(outs[from := outs[from] + {to}], ins[to := ins[to] + {from}]);
    }

    /** The edge from `next` to `i` becomes one from `pre`. */
    method MoveEdge(pre: nat, next: nat, i: nat)
      requires Sound() && pre < |allNodes| && next < |allNodes| && i < |allNodes| && pre != next
      modifies allNodes, Sets(), nextData, preData
      ensures Sound()
      ensures Outs() == old(Outs())[next := old(Outs())[next] - {i}][pre := old(Outs())[pre] + {i}]
      ensures Ins() == old(Ins())[i := old(Ins())[i] - {next} + {pre}]
    {
      hide *;
      Owned(next, i);
      RemoveEdge(next, i);
      Owned(pre, i);
      AddEdge(pre, i);
    }

    /** One turn of the loop over the successors of `next`: the edge to the one the iterator stands at is taken
        from `next` and given to `pre`. */
    method MoveSuccessor(it: Iterator, pre: nat, next: nat, ghost outs0: seq<set<nat>>, ghost ins0: seq<set<nat>>,
        ghost done: set<nat>, ghost rest: set<nat>) returns (i: nat)
      requires Sound() && pre < |allNodes| && next < |allNodes| && pre != next
      requires it.Valid() && it.bs == allNodes[next].next && rest == it.Rest() && !it.AtEnd()
      requires Walking(outs0, ins0, Outs(), Ins(), pre, next, done, rest)
      requires |outs0| == |allNodes| && next !in outs0[next] && forall x :: x in outs0[next] ==> x < |outs0|
      modifies allNodes, Sets(), nextData, preData, it
      ensures Sound() && it.Valid() && i in rest && it.Rest() == rest - {i}
      ensures Walking(outs0, ins0, Outs(), Ins(), pre, next, done + {i}, rest - {i})
    {
      hide *;
      it.EmptyRest();
      it.Least();
      it.CurrentIs();
      i := it.Current();
      WalkingParts(outs0, ins0, Outs(), Ins(), pre, next, done, rest, i);
      NodeParts(next);
      SetsAt(next);
      it.Shape();
      ghost var outs1, ins1, members := Outs(), Ins(), it.bs.members;
      MoveEdge(pre, next, i);
      NodeParts(next);
      SetsAt(next);
      WalkedOne(outs0, ins0, outs1, ins1, Outs(), Ins(), pre, next, done, rest, i);
      it.Reshape(members, i, rest);
      it.CurrentIs();
      Forward(it);
    }

    /** Moving an iterator changes nothing in the graph. */
    method Forward(it: Iterator)
      requires Sound() && it.Valid() && it.Rest() != {}
      modifies it
      ensures Sound() && Outs() == old(Outs()) && Ins() == old(Ins()) && it.Valid() && old(it.mask) > 0
      ensures it.Rest() == old(it.Rest()) - {old(64 * it.wordIdx + TrailingZeros(it.mask))}
    {
      hide DynamicBitset.Valid, WordOf, Iterator.Valid, Iterator.Rest, NodeSound, ApartAt, TrailingZeros;
      it.Advance();
    }

    /** The graph part of merging `next` into its only predecessor `pre`: the successors of `next` are walked
        over while they are taken out of its set. */
    method Merge(pre: nat, next: nat)
      requires Sound() && Transposes(Outs(), Ins()) && pre < |allNodes| && next < |allNodes|
      requires pre != next && Ins()[next] == {pre}
      modifies allNodes, Sets(), nextData, preData
      ensures Sound() && Transposes(Outs(), Ins()) && Merged(old(Outs()), old(Ins()), Outs(), Ins(), pre, next)
    {
      hide *;
      ghost var outs0, ins0 := Outs(), Ins();
      OnlyPre(outs0, ins0, pre, next);
      OutsBelow(next);
      Owned(pre, next);
      RemoveEdge(pre, next);
      var it := Begin(next);
      SetsAt(next);
      ghost var rest: set<nat>, done: set<nat> := it.Rest(), {};
      Begun(outs0, ins0, Outs(), Ins(), pre, next);
      while !it.AtEnd()
        invariant Sound() && it.Valid() && it.bs == allNodes[next].next && fresh(it) && rest == it.Rest()
        invariant Walking(outs0, ins0, Outs(), Ins(), pre, next, done, rest)
        decreases |rest|
      {
        var i := MoveSuccessor(it, pre, next, outs0, ins0, done, rest);
        rest, done := rest - {i}, done + {i};
      }
      it.EmptyRest();
      WalkedOver(outs0, ins0, Outs(), Ins(), pre, next, done);
      MergedTransposes(outs0, ins0, Outs(), Ins(), pre, next);
    }

    /** `begin()` of the successors. */
    method Begin(i: nat) returns (it: Iterator)
      requires Sound() && i < |allNodes|
      ensures Sound() && Outs() == old(Outs()) && Ins() == old(Ins())
      ensures fresh(it) && it.Valid() && it.bs == allNodes[i].next && it.Rest() == allNodes[i].next.members
    {
      NodeParts(i);
      hide DynamicBitset.Valid, WordOf, Iterator.Valid, Iterator.Rest, NodeSound, ApartAt;
      it := new Iterator(allNodes[i].next);
    }

    lemma OutsBelow(i: nat)
      requires Sound() && i < |allNodes|
      ensures forall x :: x in Outs()[i] ==> x < |allNodes|
    {
      NodeParts(i);
    }

    /** What the edge methods may change belongs to the graph. */
    lemma Owned(from: nat, to: nat)
      requires Sound() && from < |allNodes| && to < |allNodes|
      ensures allNodes[from] in allNodes && allNodes[to] in allNodes
      ensures allNodes[from].next in Sets() && allNodes[to].pre in Sets()
      ensures allNodes[from].next.data in nextData && allNodes[to].pre.data in preData
    {
      NodeParts(from);
      NodeParts(to);
    }
  }

  // ----- The walk over the successors -----

  /** The successors in `done` have been given to `pre`, those in `rest` still follow `next`. */
  ghost predicate Walking(outs0: seq<set<nat>>, ins0: seq<set<nat>>, outs: seq<set<nat>>, ins: seq<set<nat>>, pre: nat,
                          next: nat,
      done: set<nat>, rest: set<nat>)
  {
    && pre < |outs0| == |ins0| && next < |outs0| && |ins| == |ins0|
    && outs == outs0[pre := outs0[pre] - {next} + done][next := rest]
    && done + rest == outs0[next] && done !! rest
    && forall j :: 0 <= j < |ins| ==>
         ins[j] == if j == next then {} else if j in done then ins0[j] - {next} + {pre} else ins0[j]
  }

  lemma OnlyPre(outs: seq<set<nat>>, ins: seq<set<nat>>, pre: nat, next: nat)
    requires Transposes(outs, ins) && pre < |outs| && next < |outs| && pre != next && ins[next] == {pre}
    ensures |outs| == |ins| && next in outs[pre] && next !in outs[next]
  {
  }

  lemma Begun(outs0: seq<set<nat>>, ins0: seq<set<nat>>, outs: seq<set<nat>>, ins: seq<set<nat>>, pre: nat, next: nat)
    requires pre < |outs0| == |ins0| && next < |outs0| && pre != next && ins0[next] == {pre}
    requires outs == outs0[pre := outs0[pre] - {next}] && ins == ins0[next := ins0[next] - {pre}]
             && next !in outs0[next]
    ensures Walking(outs0, ins0, outs, ins, pre, next, {}, outs[next])
  {
    assert outs0[pre] - {next} + {} == outs0[pre] - {next};
    assert outs == outs0[pre := outs0[pre] - {next} + {}][next := outs[next]];
  }

  lemma WalkingParts(outs0: seq<set<nat>>, ins0: seq<set<nat>>, outs: seq<set<nat>>, ins: seq<set<nat>>, pre: nat,
                     next: nat,
      done: set<nat>, rest: set<nat>, i: nat)
    requires Walking(outs0, ins0, outs, ins, pre, next, done, rest) && i in rest
    requires forall x :: x in outs0[next] ==> x < |outs0|
    ensures i < |outs0| && |outs| == |outs0| && outs[next] == rest && i in outs0[next]
  {
    assert i in outs0[next];
  }

  lemma WalkedOne(outs0: seq<set<nat>>, ins0: seq<set<nat>>, outs: seq<set<nat>>, ins: seq<set<nat>>,
                  outs': seq<set<nat>>,
      ins': seq<set<nat>>, pre: nat, next: nat, done: set<nat>, rest: set<nat>, i: nat)
    requires Walking(outs0, ins0, outs, ins, pre, next, done, rest) && i in rest && pre != next
    requires next !in outs0[next] && i < |outs0| && |outs| == |outs0|
    requires outs' == outs[next := outs[next] - {i}][pre := outs[pre] + {i}]
             && ins' == ins[i := ins[i] - {next} + {pre}]
    ensures Walking(outs0, ins0, outs', ins', pre, next, done + {i}, rest - {i})
  {
    assert i in outs0[next] && i != next && i !in done;
    assert outs0[pre] - {next} + done + {i} == outs0[pre] - {next} + (done + {i});
    assert outs' == outs0[pre := outs0[pre] - {next} + (done + {i})][next := rest - {i}];
    assert (done + {i}) + (rest - {i}) == outs0[next];
  }

  lemma WalkedOver(outs0: seq<set<nat>>, ins0: seq<set<nat>>, outs: seq<set<nat>>, ins: seq<set<nat>>, pre: nat,
                   next: nat, done: set<nat>)
    requires Walking(outs0, ins0, outs, ins, pre, next, done, {})
    ensures pre < |outs0| == |ins0| && next < |outs0| && Merged(outs0, ins0, outs, ins, pre, next)
  {
    assert done == outs0[next];
  }

  lemma RemoveOne(s: set<nat>, x: nat)
    ensures |s - {x}| == if x in s then |s| - 1 else |s|
  {
    if x !in s {
      assert s - {x} == s;
    }
  }

  lemma AddOne(s: set<nat>, x: nat)
    ensures |s + {x}| == if x in s then |s| else |s| + 1
  {
    if x in s {
      assert s + {x} == s;
    }
  }
}
