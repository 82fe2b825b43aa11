/** A set of numbers packed into 64-bit words, and the iterator that walks over it while the members it
    has yielded are taken out. */
module Bitset {
  import opened Bits
  import IR

  const WORD: nat := 64

  // ----- Bits of a word -----

  predicate Bit(w: nat, k: nat) {
    if k == 0 then w % 2 == 1 else Bit(w / 2, k - 1)
  }

  function BitOr(x: nat, y: nat, bits: nat): nat
    decreases bits
  {
    if bits == 0 then 0
    else (if x % 2 == 1 || y % 2 == 1 then 1 else 0) + 2 * BitOr(x / 2, y / 2, bits - 1)
  }

  function BitNot(x: nat, bits: nat): nat
    decreases bits
  {
    if bits == 0 then 0 else (1 - x % 2) + 2 * BitNot(x / 2, bits - 1)
  }

  predicate IsWord(w: nat) {
    w < IR.Pow2(WORD)
  }

  lemma {:induction false} AndBit(x: nat, y: nat, bits: nat, k: nat)
    requires k < bits
    ensures Bit(IR.BitAnd(x, y, bits), k) <==> Bit(x, k) && Bit(y, k)
    decreases bits
  {
    var r := IR.BitAnd(x / 2, y / 2, bits - 1);
    assert ((x % 2) * (y % 2) + 2 * r) / 2 == r && ((x % 2) * (y % 2) + 2 * r) % 2 == (x % 2) * (y % 2) by {
      assert x % 2 == 0 || x % 2 == 1;
    }
    if k > 0 {
      AndBit(x / 2, y / 2, bits - 1, k - 1);
    }
  }

  lemma {:induction false} OrBit(x: nat, y: nat, bits: nat, k: nat)
    requires k < bits
    ensures Bit(BitOr(x, y, bits), k) <==> Bit(x, k) || Bit(y, k)
    decreases bits
  {
    if k > 0 {
      OrBit(x / 2, y / 2, bits - 1, k - 1);
    }
  }

  lemma {:induction false} NotBit(x: nat, bits: nat, k: nat)
    requires k < bits
    ensures Bit(BitNot(x, bits), k) <==> !Bit(x, k)
    decreases bits
  {
    if k > 0 {
      NotBit(x / 2, bits - 1, k - 1);
    }
  }

  lemma {:induction false} AndBound(x: nat, y: nat, bits: nat)
    ensures IR.BitAnd(x, y, bits) < IR.Pow2(bits)
    decreases bits
  {
    if bits > 0 {
      AndBound(x / 2, y / 2, bits - 1);
      assert x % 2 == 0 || x % 2 == 1;
    }
  }

  lemma {:induction false} OrBound(x: nat, y: nat, bits: nat)
    ensures BitOr(x, y, bits) < IR.Pow2(bits)
    decreases bits
  {
    if bits > 0 {
      OrBound(x / 2, y / 2, bits - 1);
    }
  }

  lemma {:induction false} NotBound(x: nat, bits: nat)
    ensures BitNot(x, bits) < IR.Pow2(bits)
    decreases bits
  {
    if bits > 0 {
      NotBound(x / 2, bits - 1);
    }
  }

  lemma {:induction false} OneBitOnly(k: nat, j: nat)
    ensures Bit(IR.Pow2(k), j) <==> j == k
    decreases k
  {
    if k == 0 {
      if j > 0 { NoBits(j - 1); }
    } else {
      assert IR.Pow2(k) / 2 == IR.Pow2(k - 1) && IR.Pow2(k) % 2 == 0;
      if j > 0 { OneBitOnly(k - 1, j - 1); }
    }
  }

  lemma {:induction false} NoBits(j: nat)
    ensures !Bit(0, j)
  {
    if j > 0 { NoBits(j - 1); }
  }

  /** The bits below `k`: `(1 << k) - 1`. */
  lemma {:induction false} LowBits(k: nat, j: nat)
    ensures Bit(IR.Pow2(k) - 1, j) <==> j < k
    decreases k
  {
    if k == 0 {
      NoBits(j);
    } else {
      assert (IR.Pow2(k) - 1) / 2 == IR.Pow2(k - 1) - 1 && (IR.Pow2(k) - 1) % 2 == 1;
      if j > 0 { LowBits(k - 1, j - 1); }
    }
  }

  lemma {:induction false} NonzeroHasBit(w: nat, bits: nat) returns (k: nat)
    requires 0 < w < IR.Pow2(bits)
    ensures k < bits && Bit(w, k) && k == TrailingZeros(w) && forall j :: 0 <= j < k ==> !Bit(w, j)
    decreases bits
  {
    if w % 2 == 1 {
      k := 0;
    } else {
      k := NonzeroHasBit(w / 2, bits - 1);
      forall j | 0 <= j < k + 1 ensures !Bit(w, j) {
        if j > 0 { assert !Bit(w / 2, j - 1); }
      }
      k := k + 1;
    }
  }

  /** `w & (w - 1)` takes the lowest bit out. */
  lemma {:induction false} ClearLowest(w: nat, bits: nat, k: nat)
    requires 0 < w < IR.Pow2(bits)
    ensures Bit(IR.BitAnd(w, w - 1, bits), k) <==> Bit(w, k) && k != TrailingZeros(w)
    decreases bits
  {
    var h := w / 2;
    if w % 2 == 1 {
      assert (w - 1) / 2 == h && (w - 1) % 2 == 0;
      AndSelf(h, bits - 1);
      assert IR.BitAnd(w, w - 1, bits) == 2 * h;
    } else {
      assert (w - 1) / 2 == h - 1 && (w - 1) % 2 == 1;
      var r := IR.BitAnd(h, h - 1, bits - 1);
      assert IR.BitAnd(w, w - 1, bits) == 2 * r;
      if k > 0 { ClearLowest(h, bits - 1, k - 1); }
    }
  }

  // ----- 64-bit words -----

  function And64(x: nat, y: nat): nat {
    IR.BitAnd(x, y, WORD)
  }

  function Or64(x: nat, y: nat): nat {
    BitOr(x, y, WORD)
  }

  function Not64(x: nat): nat {
    BitNot(x, WORD)
  }

  lemma And64Bit(x: nat, y: nat, k: nat)
    requires k < 64
    ensures Bit(And64(x, y), k) <==> Bit(x, k) && Bit(y, k)
  {
    AndBit(x, y, WORD, k);
    hide Bit;
  }

  lemma Or64Bit(x: nat, y: nat, k: nat)
    requires k < 64
    ensures Bit(Or64(x, y), k) <==> Bit(x, k) || Bit(y, k)
  {
    OrBit(x, y, WORD, k);
    hide Bit;
  }

  lemma Not64Bit(x: nat, k: nat)
    requires k < 64
    ensures Bit(Not64(x), k) <==> !Bit(x, k)
  {
    NotBit(x, WORD, k);
    hide Bit;
  }

  lemma And64Bound(x: nat, y: nat)
    ensures IsWord(And64(x, y))
  {
    AndBound(x, y, WORD);
  }

  lemma Or64Bound(x: nat, y: nat)
    ensures IsWord(Or64(x, y))
  {
    OrBound(x, y, WORD);
  }

  lemma Not64Bound(x: nat)
    ensures IsWord(Not64(x))
  {
    NotBound(x, WORD);
  }

  lemma Same64(x: nat, y: nat)
    requires IsWord(x) && IsWord(y) && forall k :: 0 <= k < 64 ==> (Bit(x, k) <==> Bit(y, k))
    ensures x == y
  {
    SameBits(x, y, WORD);
  }

  lemma Nonzero64(w: nat) returns (k: nat)
    requires 0 < w && IsWord(w)
    ensures k < 64 && Bit(w, k) && k == TrailingZeros(w) && forall j :: 0 <= j < k ==> !Bit(w, j)
  {
    k := NonzeroHasBit(w, WORD);
  }

  /** `w & (w - 1)` takes the lowest bit of a word out. */
  lemma ClearLowest64(w: nat, k: nat)
    requires 0 < w && IsWord(w) && k < 64
    ensures Bit(And64(w, w - 1), k) <==> Bit(w, k) && k != TrailingZeros(w)
  {
    ClearLowest(w, WORD, k);
    hide Bit;
  }

  // ----- Members of a sequence of words -----

  /** The word a number is in, and its place there: `i >> 6` and `i & 63`. */
  function WordOf(i: nat): nat {
    i / WORD
  }

  function BitOf(i: nat): nat {
    i % WORD
  }

  lemma Placed(i: nat)
    ensures i == 64 * WordOf(i) + BitOf(i) && BitOf(i) < 64 && WORD == 64
  {
  }

  lemma PlacedAt(k: nat, b: nat)
    requires b < 64
    ensures WordOf(64 * k + b) == k && BitOf(64 * k + b) == b && WORD == 64
  {
  }

  predicate Has(words: seq<nat>, i: nat) {
    WordOf(i) < |words| && Bit(words[WordOf(i)], BitOf(i))
  }

  ghost function Members(words: seq<nat>): set<nat> {
    set i | 0 <= i < WORD * |words| && Has(words, i)
  }

  lemma MembersHas(words: seq<nat>, i: nat)
    ensures i in Members(words) <==> Has(words, i)
  {
    Placed(i);
    hide WordOf, BitOf, Bit;
  }

  /** Changing one word changes the members in that word only. */
  lemma WordChanged(words: seq<nat>, k: nat, w: nat, i: nat)
    requires k < |words|
    ensures Has(words[k := w], i) <==> if WordOf(i) == k then Bit(w, BitOf(i)) else Has(words, i)
  {
    hide WordOf, BitOf, Bit;
  }

  lemma SameMembers(words: seq<nat>, s: set<nat>)
    requires forall i :: i in s <==> Has(words, i)
    ensures Members(words) == s
  {
    forall i: nat ensures i in Members(words) <==> i in s {
      MembersHas(words, i);
    }
  }

  lemma AllHas(words: seq<nat>)
    ensures forall i :: i in Members(words) <==> Has(words, i)
  {
    forall i: nat ensures i in Members(words) <==> Has(words, i) {
      MembersHas(words, i);
    }
  }

  /** Words with the same bits are the same. */
  lemma {:induction false} SameBits(x: nat, y: nat, bits: nat)
    requires x < IR.Pow2(bits) && y < IR.Pow2(bits)
    requires forall k :: 0 <= k < bits ==> (Bit(x, k) <==> Bit(y, k))
    ensures x == y
    decreases bits
  {
    if bits > 0 {
      assert Bit(x, 0) <==> Bit(y, 0);
      forall k | 0 <= k < bits - 1 ensures Bit(x / 2, k) <==> Bit(y / 2, k) {
        assert Bit(x, k + 1) <==> Bit(y, k + 1);
      }
      SameBits(x / 2, y / 2, bits - 1);
    }
  }

  lemma HasIs(words: seq<nat>, i: nat)
    ensures Has(words, i) <==> WordOf(i) < |words| && Bit(words[WordOf(i)], BitOf(i))
  {
    hide WordOf, BitOf, Bit;
  }

  /** A word with a bit put in. */
  lemma SetBit(w: nat, b: nat)
    requires IsWord(w) && b < WORD
    ensures var v := Or64(w, IR.Pow2(b));
            IsWord(v) && (forall k :: 0 <= k < WORD ==> (Bit(v, k) <==> Bit(w, k) || k == b))
                && (v != w <==> !Bit(w, b))
  {
    var v := Or64(w, IR.Pow2(b));
    Or64Bound(w, IR.Pow2(b));
    forall k | 0 <= k < WORD ensures Bit(v, k) <==> Bit(w, k) || k == b {
      Or64Bit(w, IR.Pow2(b), k);
      OneBitOnly(b, k);
    }
    hide *;
    IsWordIs(v);
    IsWordIs(w);
    if Bit(w, b) {
      Same64(v, w);
    }
  }

  lemma IsWordIs(w: nat)
    ensures IsWord(w) <==> w < IR.Pow2(WORD)
    ensures WORD == 64
  {
  }

  /** A word with a bit taken out. */
  lemma ResetBit(w: nat, b: nat)
    requires IsWord(w) && b < WORD
    ensures var v := And64(w, Not64(IR.Pow2(b)));
            IsWord(v) && (forall k :: 0 <= k < WORD ==> (Bit(v, k) <==> Bit(w, k) && k != b)) && (v != w <==> Bit(w, b))
  {
    var m := Not64(IR.Pow2(b));
    var v := And64(w, m);
    And64Bound(w, m);
    forall k | 0 <= k < WORD ensures Bit(v, k) <==> Bit(w, k) && k != b {
      And64Bit(w, m, k);
      Not64Bit(IR.Pow2(b), k);
      OneBitOnly(b, k);
    }
    hide *;
    IsWordIs(v);
    IsWordIs(w);
    if !Bit(w, b) {
      Same64(v, w);
    }
  }

  /** Putting a member in is an or with its bit. */
  lemma SetMember(words: seq<nat>, i: nat)
    requires WordOf(i) < |words| && IsWord(words[WordOf(i)])
    ensures var w := Or64(words[WordOf(i)], IR.Pow2(BitOf(i)));
            && IsWord(w) && Members(words[WordOf(i) := w]) == Members(words) + {i}
            && (w != words[WordOf(i)] <==> i !in Members(words))
  {
    hide *;
    var p, b := WordOf(i), BitOf(i);
    var w := Or64(words[p], IR.Pow2(b));
    Placed(i);
    SetBit(words[p], b);
    AllHas(words);
    forall j: nat ensures j in Members(words) + {i} <==> Has(words[p := w], j) {
      WordChanged(words, p, w, j);
      Placed(j);
      HasIs(words, j);
    }
    HasIs(words, i);
    SameMembers(words[p := w], Members(words) + {i});
  }

  /** Taking a member out is an and with the complement of its bit. */
  lemma ResetMember(words: seq<nat>, i: nat)
    requires WordOf(i) < |words| && IsWord(words[WordOf(i)])
    ensures var w := And64(words[WordOf(i)], Not64(IR.Pow2(BitOf(i))));
            && IsWord(w) && Members(words[WordOf(i) := w]) == Members(words) - {i}
            && (w != words[WordOf(i)] <==> i in Members(words))
  {
    hide *;
    var p, b := WordOf(i), BitOf(i);
    var w := And64(words[p], Not64(IR.Pow2(b)));
    Placed(i);
    ResetBit(words[p], b);
    AllHas(words);
    forall j: nat ensures j in Members(words) - {i} <==> Has(words[p := w], j) {
      WordChanged(words, p, w, j);
      Placed(j);
      HasIs(words, j);
    }
    HasIs(words, i);
    SameMembers(words[p := w], Members(words) - {i});
  }

  /** Words combined one by one. */
  lemma OrMembers(x: seq<nat>, y: seq<nat>, z: seq<nat>)
    requires |x| == |z| <= |y| && forall k :: 0 <= k < |z| ==> z[k] == Or64(x[k], y[k])
    ensures forall i: nat :: i in Members(z) <==> i in Members(x) || (i in Members(y) && WordOf(i) < |x|)
    ensures forall k :: 0 <= k < |z| ==> IsWord(z[k])
  {
    hide *;
    forall i: nat ensures i in Members(z) <==> i in Members(x) || (i in Members(y) && WordOf(i) < |x|) {
      Placed(i);
      MembersHas(x, i);
      MembersHas(y, i);
      MembersHas(z, i);
      HasIs(x, i);
      HasIs(y, i);
      HasIs(z, i);
      if WordOf(i) < |z| {
        Or64Bit(x[WordOf(i)], y[WordOf(i)], BitOf(i));
      }
    }
    forall k | 0 <= k < |z| ensures IsWord(z[k]) {
      Or64Bound(x[k], y[k]);
      IsWordIs(z[k]);
    }
  }

  lemma MinusMembers(x: seq<nat>, y: seq<nat>, z: seq<nat>)
    requires |x| == |z| <= |y| && forall k :: 0 <= k < |z| ==> z[k] == And64(x[k], Not64(y[k]))
    ensures Members(z) == Members(x) - Members(y)
    ensures forall k :: 0 <= k < |z| ==> IsWord(z[k])
  {
    hide *;
    forall i: nat ensures i in Members(z) <==> i in Members(x) && i !in Members(y) {
      Placed(i);
      MembersHas(x, i);
      MembersHas(y, i);
      MembersHas(z, i);
      HasIs(x, i);
      HasIs(y, i);
      HasIs(z, i);
      if WordOf(i) < |z| {
        And64Bit(x[WordOf(i)], Not64(y[WordOf(i)]), BitOf(i));
        Not64Bit(y[WordOf(i)], BitOf(i));
      }
    }
    forall k | 0 <= k < |z| ensures IsWord(z[k]) {
      And64Bound(x[k], Not64(y[k]));
      IsWordIs(z[k]);
    }
  }

  predicate Between(f: nat, i: nat, t: nat) {
    f <= i < t
  }

  function Interval(f: nat, t: nat): set<nat> {
    set i: nat | i < t && Between(f, i, t)
  }

  function LowOnes(k: nat): nat {
    Pow2Positive(k);
    IR.Pow2(k) - 1
  }

  /** The `k`th word after a range was put in: `UPONES(f)` in the first, ones between, `UPZEROS(t)` in the last. */
  function RangeWord(w: nat, k: nat, f: nat, t: nat): nat {
    var upOnes, upZeros := Not64(LowOnes(BitOf(f))), LowOnes(BitOf(t));
    if k < WordOf(f) || k > WordOf(t) then w
    else if WordOf(f) == WordOf(t) then Or64(w, And64(upOnes, upZeros))
    else if k == WordOf(f) then Or64(w, upOnes)
    else if k == WordOf(t) then Or64(w, upZeros)
    else Not64(0)
  }

  lemma RangeBit(w: nat, k: nat, f: nat, t: nat, b: nat)
    requires f <= t && b < WORD && IsWord(w)
    ensures Bit(RangeWord(w, k, f, t), b) <==> Bit(w, b) || Between(f, 64 * k + b, t)
    ensures IsWord(RangeWord(w, k, f, t))
  {
    hide *;
    LowOnesIs(BitOf(f));
    LowOnesIs(BitOf(t));
    IsWordIs(w);
    IsWordIs(RangeWord(w, k, f, t));
    RangeWordIs(w, k, f, t);
    var lo, hi := Not64(LowOnes(BitOf(f))), LowOnes(BitOf(t));
    Not64Bit(LowOnes(BitOf(f)), b);
    LowBits(BitOf(f), b);
    LowBits(BitOf(t), b);
    And64Bit(lo, hi, b);
    Or64Bit(w, And64(lo, hi), b);
    Or64Bit(w, lo, b);
    Or64Bit(w, hi, b);
    Not64Bit(0, b);
    NoBits(b);
    Or64Bound(w, And64(lo, hi));
    Or64Bound(w, lo);
    Or64Bound(w, hi);
    Not64Bound(0);
    Placed(f);
    Placed(t);
    IntervalIs(f, t, 64 * k + b);
  }

  lemma LowOnesIs(k: nat)
    ensures IR.Pow2(k) > 0 && LowOnes(k) == IR.Pow2(k) - 1
  {
  }

  lemma RangeWordIs(w: nat, k: nat, f: nat, t: nat)
    ensures var upOnes, upZeros := Not64(LowOnes(BitOf(f))), LowOnes(BitOf(t));
            RangeWord(w, k, f, t) ==
            if k < WordOf(f) || k > WordOf(t) then w
            else if WordOf(f) == WordOf(t) then Or64(w, And64(upOnes, upZeros))
            else if k == WordOf(f) then Or64(w, upOnes)
            else if k == WordOf(t) then Or64(w, upZeros)
            else Not64(0)
  {
    hide Or64, Not64, LowOnes, WordOf, BitOf;
  }

  lemma OutOfRange(x: seq<nat>, f: nat, t: nat)
    ensures forall j :: 0 <= j < |x| ==> j < WordOf(f) || j > WordOf(t) ==> RangeWord(x[j], j, f, t) == x[j]
  {
    hide Or64, Not64, LowOnes, WordOf, BitOf;
  }

  lemma RangeWords(f: nat, t: nat)
    requires f <= t
    ensures WordOf(f) <= WordOf(t)
  {
  }

  lemma RangeMembers(x: seq<nat>, z: seq<nat>, f: nat, t: nat)
    requires |x| == |z| && f <= t && WordOf(t) < |x| && forall k :: 0 <= k < |x| ==> IsWord(x[k])
    requires forall k :: 0 <= k < |z| ==> z[k] == RangeWord(x[k], k, f, t)
    ensures Members(z) == Members(x) + Interval(f, t)
    ensures forall k :: 0 <= k < |z| ==> IsWord(z[k])
  {
    hide *;
    forall i: nat ensures i in Members(x) + Interval(f, t) <==> Has(z, i) {
      Placed(i);
      Placed(t);
      MembersHas(x, i);
      HasIs(x, i);
      HasIs(z, i);
      IntervalIs(f, t, i);
      if WordOf(i) < |z| {
        RangeBit(x[WordOf(i)], WordOf(i), f, t, BitOf(i));
      }
    }
    SameMembers(z, Members(x) + Interval(f, t));
    forall k | 0 <= k < |z| ensures IsWord(z[k]) {
      IsWordIs(0);
      RangeBit(x[k], k, f, t, 0);
    }
  }

  lemma IntervalIs(f: nat, t: nat, i: nat)
    ensures i in Interval(f, t) <==> Between(f, i, t)
    ensures Between(f, i, t) <==> f <= i < t
  {
  }

  // ----- Word by word -----

  method OrWords(a: array<nat>, b: array<nat>)
    requires a.Length <= b.Length
    modifies a
    ensures forall k :: 0 <= k < a.Length ==> a[k] == Or64(old(a[k]), old(b[k]))
  {
    hide *;
    for i := 0 to a.Length
      invariant forall k :: 0 <= k < i ==> a[k] == Or64(old(a[k]), old(b[k]))
      invariant forall k :: i <= k < a.Length ==> a[k] == old(a[k])
    {
      assert b[i] == old(b[i]);
      a[i] := Or64(a[i], b[i]);
    }
  }

  method MinusWords(a: array<nat>, b: array<nat>)
    requires a.Length <= b.Length
    modifies a
    ensures forall k :: 0 <= k < a.Length ==> a[k] == And64(old(a[k]), Not64(old(b[k])))
  {
    hide *;
    for i := 0 to a.Length
      invariant forall k :: 0 <= k < i ==> a[k] == And64(old(a[k]), Not64(old(b[k])))
      invariant forall k :: i <= k < a.Length ==> a[k] == old(a[k])
    {
      assert b[i] == old(b[i]);
      a[i] := And64(a[i], Not64(b[i]));
    }
  }

  /** `memset` with ones. */
  method FillOnes(a: array<nat>, from: nat, to: nat)
    requires from <= to <= a.Length
    modifies a
    ensures forall k :: 0 <= k < a.Length ==> a[k] == if from <= k < to then Not64(0) else old(a[k])
  {
    hide *;
    for i := from to to
      invariant forall k :: 0 <= k < a.Length ==> a[k] == if from <= k < i then Not64(0) else old(a[k])
    {
      a[i] := Not64(0);
    }
  }

  lemma MiddleOnes(x: seq<nat>, f: nat, t: nat)
    ensures forall j :: WordOf(f) < j < WordOf(t) && j < |x| ==> RangeWord(x[j], j, f, t) == Not64(0)
  {
    hide Or64, Not64, LowOnes, WordOf, BitOf;
  }

  method RangeWordsSet(a: array<nat>, f: nat, t: nat)
    requires f <= t && WordOf(t) < a.Length
    modifies a
    ensures forall j :: 0 <= j < a.Length ==> a[j] == RangeWord(old(a[j]), j, f, t)
  {
    RangeWords(f, t);
    hide *;
    var ullf, ullt := WordOf(f), WordOf(t);
    var upOnes, upZeros := Not64(LowOnes(BitOf(f))), LowOnes(BitOf(t));
    ghost var was := a[..];
    OutOfRange(was, f, t);
    RangeWordIs(a[ullf], ullf, f, t);
    RangeWordIs(a[ullt], ullt, f, t);
    if ullf == ullt {
      a[ullf] := Or64(a[ullf], And64(upOnes, upZeros));
      return;
    }
    a[ullf] := Or64(a[ullf], upOnes);
    MiddleOnes(was, f, t);
    FillOnes(a, ullf + 1, ullt);
    a[ullt] := Or64(a[ullt], upZeros);
  }

  // ----- The set object -----

  class DynamicBitset {
    var data: array<nat>
    var bitlen: nat
    /** The set the words stand for. */
    ghost var members: set<nat>

    ghost predicate Valid()
      reads this, data
    {
      && bitlen <= WORD * data.Length
      && (forall k :: 0 <= k < data.Length ==> IsWord(data[k]))
      && members == Members(data[..])
    }

    lemma ValidParts()
      requires Valid()
      ensures bitlen <= 64 * data.Length && (forall k :: 0 <= k < data.Length ==> IsWord(data[k]))
              && members == Members(data[..])
    {
      hide IsWord, Members;
    }

    lemma ValidIs()
      requires bitlen <= 64 * data.Length && (forall k :: 0 <= k < data.Length ==> IsWord(data[k]))
               && members == Members(data[..])
      ensures Valid()
    {
      hide IsWord, Members;
    }

    constructor (len: nat)
      ensures Valid() && fresh(data) && members == {} && bitlen == len && data.Length == (len + 63) / WORD
    {
      bitlen := len;
      data := new nat[(len + 63) / WORD](_ => 0);
      members := {};
      new;
      NoMembers(data[..]);
    }

    method Test(i: nat) returns (r: bool)
      requires Valid() && WordOf(i) < data.Length
      ensures r <==> i in members
    {
      AllHas(data[..]);
      r := And64(data[WordOf(i)], IR.Pow2(BitOf(i))) != 0;
      TestBit(data[WordOf(i)], BitOf(i));
    }

    method Set(i: nat)
      requires Valid() && WordOf(i) < data.Length
      modifies data, this`members
      ensures Valid() && data == old(data) && members == old(members) + {i}
    {
      SetMember(data[..], i);
      ghost var was := data[..];
      data[WordOf(i)] := Or64(data[WordOf(i)], IR.Pow2(BitOf(i)));
      members := members + {i};
      assert data[..] == was[WordOf(i) := data[WordOf(i)]];
    }

    method SetAndGet(i: nat) returns (r: bool)
      requires Valid() && WordOf(i) < data.Length
      modifies data, this`members
      ensures Valid() && data == old(data) && members == old(members) + {i} && (r <==> i !in old(members))
    {
      SetMember(data[..], i);
      ghost var was := data[..];
      var p := data[WordOf(i)];
      var next := Or64(p, IR.Pow2(BitOf(i)));
      data[WordOf(i)] := next;
      members := members + {i};
      assert data[..] == was[WordOf(i) := data[WordOf(i)]];
      r := p != next;
    }

    method Reset(i: nat)
      requires Valid() && WordOf(i) < data.Length
      modifies data, this`members
      ensures Valid() && data == old(data) && members == old(members) - {i}
    {
      ResetMember(data[..], i);
      ghost var was := data[..];
      data[WordOf(i)] := And64(data[WordOf(i)], Not64(IR.Pow2(BitOf(i))));
      members := members - {i};
      assert data[..] == was[WordOf(i) := data[WordOf(i)]];
    }

    method ResetAndGet(i: nat) returns (r: bool)
      requires Valid() && WordOf(i) < data.Length
      modifies data, this`members
      ensures Valid() && data == old(data) && members == old(members) - {i} && (r <==> i in old(members))
    {
      ResetMember(data[..], i);
      ghost var was := data[..];
      var p := data[WordOf(i)];
      var next := And64(p, Not64(IR.Pow2(BitOf(i))));
      data[WordOf(i)] := next;
      members := members - {i};
      assert data[..] == was[WordOf(i) := data[WordOf(i)]];
      r := p != next;
    }

    /** Puts in `f` up to and without `t`; the word of `t` must exist. */
    method RangeSet(f: nat, t: nat)
      requires Valid() && f <= t && WordOf(t) < data.Length
      modifies data, this`members
      ensures Valid() && data == old(data) && members == old(members) + Interval(f, t)
    {
      ValidParts();
      hide *;
      ghost var was := data[..];
      RangeWordsSet(data, f, t);
      RangeMembers(was, data[..], f, t);
      members := members + Interval(f, t);
      ValidIs();
    }

    /** Makes room; the new numbers are no members. */
    method Reserve(needBits: nat)
      requires Valid()
      modifies this
      ensures Valid() && members == old(members)
              && bitlen == (if needBits <= old(bitlen) then old(bitlen) else needBits)
      ensures data == old(data) || fresh(data)
    {
      if needBits <= bitlen {
        return;
      }
      bitlen := needBits;
      var dataSize2 := (needBits + 63) / WORD;
      if dataSize2 <= data.Length {
        return;
      }
      ghost var was := data[..];
      var next := new nat[dataSize2](k reads this, data => if 0 <= k < data.Length then data[k] else 0);
      data := next;
      assert data[..|was|] == was;
      LongerMembers(was, data[..]);
      assert IsWord(0);
    }

    /** `|=`, over the words of this set. */
    method UniteWith(bit: DynamicBitset)
      requires Valid() && bit.Valid() && data.Length <= bit.data.Length
      modifies data, this`members
      ensures Valid() && data == old(data)
      ensures forall i: nat :: i in members <==> i in old(members) || (i in old(bit.members) && WordOf(i) < data.Length)
    {
      ValidParts();
      bit.ValidParts();
      hide *;
      ghost var x, y := data[..], bit.data[..];
      OrWords(data, bit.data);
      OrMembers(x, y, data[..]);
      members := Members(data[..]);
      ValidIs();
    }

    /** `-=`. */
    method Subtract(bit: DynamicBitset)
      requires Valid() && bit.Valid() && data.Length <= bit.data.Length
      modifies data, this`members
      ensures Valid() && data == old(data) && members == old(members) - old(bit.members)
    {
      ValidParts();
      bit.ValidParts();
      hide *;
      ghost var x, y := data[..], bit.data[..];
      MinusWords(data, bit.data);
      MinusMembers(x, y, data[..]);
      members := Members(data[..]);
      ValidIs();
    }

    method AllZeros() returns (r: bool)
      requires Valid()
      ensures r <==> members == {}
    {
      AllHas(data[..]);
      for i := 0 to data.Length
        invariant forall k :: 0 <= k < i ==> data[k] == 0
      {
        if data[i] != 0 {
          var k := Nonzero64(data[i]);
          PlacedAt(i, k);
          assert Has(data[..], WORD * i + k);
          return false;
        }
      }
      NoMembers(data[..]);
      return true;
    }

    method Include(bit: DynamicBitset) returns (r: bool)
      requires Valid() && bit.Valid() && data.Length <= bit.data.Length
      ensures r <==> forall i :: i in bit.members && WordOf(i) < data.Length ==> i in members
    {
      hide Bit, Not64, IsWord, Members, WordOf, BitOf, Has;
      for i := 0 to data.Length
        invariant forall k :: 0 <= k < i ==> And64(Not64(data[k]), bit.data[k]) == 0
      {
        var w := And64(Not64(data[i]), bit.data[i]);
        if w != 0 {
          NotIncluded(data[..], bit.data[..], i);
          return false;
        }
      }
      forall i: nat | i in bit.members && WordOf(i) < data.Length ensures i in members {
        Included(data[..], bit.data[..], i);
      }
      return true;
    }
  }

  lemma NotIncluded(x: seq<nat>, y: seq<nat>, k: nat)
    requires k < |x| && k < |y| && And64(Not64(x[k]), y[k]) != 0
    ensures exists i: nat :: i in Members(y) && WordOf(i) < |x| && i !in Members(x)
  {
    hide *;
    IsWordIs(0);
    var w := And64(Not64(x[k]), y[k]);
    And64Bound(Not64(x[k]), y[k]);
    var b := Nonzero64(w);
    And64Bit(Not64(x[k]), y[k], b);
    Not64Bit(x[k], b);
    var i := 64 * k + b;
    PlacedAt(k, b);
    MembersHas(x, i);
    MembersHas(y, i);
    HasIs(x, i);
    HasIs(y, i);
  }

  lemma Included(x: seq<nat>, y: seq<nat>, i: nat)
    requires WordOf(i) < |x| && WordOf(i) < |y| && i in Members(y)
    requires And64(Not64(x[WordOf(i)]), y[WordOf(i)]) == 0
    ensures i in Members(x)
  {
    hide *;
    Placed(i);
    MembersHas(x, i);
    MembersHas(y, i);
    HasIs(x, i);
    HasIs(y, i);
    var k, b := WordOf(i), BitOf(i);
    And64Bit(Not64(x[k]), y[k], b);
    Not64Bit(x[k], b);
    NoBits(b);
  }

  lemma NoMembers(words: seq<nat>)
    requires forall k :: 0 <= k < |words| ==> words[k] == 0
    ensures Members(words) == {} && forall k :: 0 <= k < |words| ==> IsWord(words[k])
  {
    forall i: nat ensures !Has(words, i) {
      NoBits(BitOf(i));
    }
    SameMembers(words, {});
    Pow2Positive(WORD);
  }

  lemma Pow2Positive(k: nat)
    ensures IR.Pow2(k) > 0
  {
  }

  lemma TestBit(w: nat, b: nat)
    requires IsWord(w) && b < WORD
    ensures And64(w, IR.Pow2(b)) != 0 <==> Bit(w, b)
  {
    var r := And64(w, IR.Pow2(b));
    And64Bit(w, IR.Pow2(b), b);
    OneBitOnly(b, b);
    NoBits(b);
    if r != 0 {
      And64Bound(w, IR.Pow2(b));
      var k := Nonzero64(r);
      And64Bit(w, IR.Pow2(b), k);
      OneBitOnly(b, k);
    }
  }

  lemma LongerMembers(words: seq<nat>, more: seq<nat>)
    requires words <= more && forall k :: |words| <= k < |more| ==> more[k] == 0
    ensures Members(more) == Members(words)
  {
    AllHas(words);
    forall i: nat ensures i in Members(words) <==> Has(more, i) {
      NoBits(BitOf(i));
    }
    SameMembers(more, Members(words));
  }
}
