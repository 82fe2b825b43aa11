/** 32-bit numbers: the lowest bits, bitwise and, and the powers of two. */
module Bits {
  import opened IR

  function Low(x: int): int {
    x % TWO_TO_THE_32
  }

  lemma LowIs(x: int)
    ensures 0 <= Low(x) < TWO_TO_THE_32 && exists k :: x == Low(x) + k * TWO_TO_THE_32
  {
    assert x == Low(x) + (x / TWO_TO_THE_32) * TWO_TO_THE_32;
  }

  lemma LowSame(x: int, y: int, k: int)
    requires x == y + k * TWO_TO_THE_32
    ensures Low(x) == Low(y)
  {
    var q, r := y / TWO_TO_THE_32, y % TWO_TO_THE_32;
    assert x == (q + k) * TWO_TO_THE_32 + r;
  }

  lemma LowAdd(x: int, y: int, x': int, y': int)
    requires Low(x) == Low(x') && Low(y) == Low(y')
    ensures Low(x + y) == Low(x' + y')
  {
    var j := x / TWO_TO_THE_32 - x' / TWO_TO_THE_32 + (y / TWO_TO_THE_32 - y' / TWO_TO_THE_32);
    LowSame(x + y, x' + y', j);
  }

  lemma LowMul(x: int, y: int, x': int, y': int)
    requires Low(x) == Low(x') && Low(y) == Low(y')
    ensures Low(x * y) == Low(x' * y')
  {
    var M := TWO_TO_THE_32;
    var a, b := x / M - x' / M, y / M - y' / M;
    assert x == x' + a * M && y == y' + b * M;
    Expand(x', a, y', b, M);
    LowSame(x * y, x' * y', a * y' + x' * b + a * b * M);
  }

  lemma Expand(x: int, a: int, y: int, b: int, m: int)
    ensures (x + a * m) * (y + b * m) == x * y + (a * y + x * b + a * b * m) * m
  {
    calc {
      (x + a * m) * (y + b * m);
    ==
      x * (y + b * m) + (a * m) * (y + b * m);
    ==
      x * y + x * (b * m) + (a * m) * y + (a * m) * (b * m);
    ==  { assert x * (b * m) == (x * b) * m; assert (a * m) * y == (a * y) * m; assert (a * m) * (b * m) ==
        (a * b * m) * m; }
      x * y + (x * b) * m + (a * y) * m + (a * b * m) * m;
    ==
      x * y + (a * y + x * b + a * b * m) * m;
    }
  }

  lemma LowLow(x: int)
    ensures Low(Low(x)) == Low(x)
  {
  }

  lemma LowSmall(x: int)
    requires 0 <= x < TWO_TO_THE_32
    ensures Low(x) == x
  {
  }

  lemma WrapLow(x: int)
    ensures Low(Wrap32(x)) == Low(x)
  {
    var k := (x + TWO_TO_THE_31) / TWO_TO_THE_32;
    assert Wrap32(x) == x - k * TWO_TO_THE_32;
    LowSame(Wrap32(x), x, -k);
  }

  // ----- Powers of two -----

  lemma {:induction false} BitAndLow(x: int, y: int, bits: nat)
    ensures BitAnd(x, y, bits) == BitAnd(x % Pow2(bits), y % Pow2(bits), bits)
    ensures x % Pow2(bits) == 0 ==> BitAnd(x, y, bits) == 0
    decreases bits
  {
    if bits > 0 {
      HalfMod(x, Pow2(bits - 1));
      HalfMod(y, Pow2(bits - 1));
      BitAndLow(x / 2, y / 2, bits - 1);
      BitAndLow((x % Pow2(bits)) / 2, (y % Pow2(bits)) / 2, bits - 1);
    }
  }

  lemma HalfMod(x: int, p: nat)
    requires p > 0
    ensures (x % (2 * p)) % 2 == x % 2 && (x % (2 * p)) / 2 == (x / 2) % p
    ensures x % (2 * p) == 0 ==> x % 2 == 0 && (x / 2) % p == 0
  {
    var h, b := x / 2, x % 2;
    var q, r := h / p, h % p;
    assert x == 2 * h + b && h == q * p + r;
    assert x == q * (2 * p) + (2 * r + b) by { assert 2 * (q * p) == q * (2 * p); }
    assert 0 <= 2 * r + b < 2 * p;
    ModIs(x, 2 * p, q, 2 * r + b);
  }

  lemma ModIs(x: int, m: nat, q: int, r: int)
    requires m > 0 && x == q * m + r && 0 <= r < m
    ensures x % m == r && x / m == q
  {
    var q', r' := x / m, x % m;
    assert x == q' * m + r';
    Distribute(q, q', m);
    Distribute(q', q, m);
    if q > q' {
      AtLeastOnce(q - q', m);
    } else if q < q' {
      AtLeastOnce(q' - q, m);
    }
  }

  lemma Distribute(q: int, p: int, m: int)
    ensures (q - p) * m == q * m - p * m
  {
  }

  lemma AtLeastOnce(d: int, m: nat)
    requires d >= 1
    ensures d * m >= m
  {
    assert (d - 1) * m >= 0;
    Distribute(d, 1, m);
  }

  lemma {:induction false} AndSelf(x: nat, bits: nat)
    requires x < Pow2(bits)
    ensures BitAnd(x, x, bits) == x
    decreases bits
  {
    if bits > 0 {
      AndSelf(x / 2, bits - 1);
    }
  }

  function TrailingZeros(x: nat): nat
    requires x > 0
  {
    if x % 2 == 1 then 0 else 1 + TrailingZeros(x / 2)
  }

  /** A positive number has no bit in common with the one before it just when it is a power of two. */
  lemma {:induction false} PowerOfTwo(x: nat, bits: nat)
    requires 0 < x < Pow2(bits)
    ensures BitAnd(x, x - 1, bits) == 0 <==> x == Pow2(TrailingZeros(x))
    decreases bits
  {
    var k := x / 2;
    if x % 2 == 1 {
      assert x - 1 == 2 * k && (x - 1) / 2 == k && (x - 1) % 2 == 0;
      AndSelf(k, bits - 1);
    } else {
      assert (x - 1) / 2 == k - 1 && (x - 1) % 2 == 1;
      PowerOfTwo(k, bits - 1);
    }
  }

  /** The test `(c & (c - 1)) == 0` on 32 bits. */
  function OneBit(c: int): bool {
    BitAnd(c, Wrap32(c - 1), 32) == 0
  }

  /** `m_countr_zero` of a 32-bit number other than 0. */
  function CountZeros(c: int): nat {
    if Low(c) > 0 then TrailingZeros(Low(c)) else 32
  }

  lemma Pow2Values()
    ensures Pow2(31) == TWO_TO_THE_31 && Pow2(32) == TWO_TO_THE_32
  {
    assert Pow2(8) == 256;
    assert Pow2(16) == 65536 by { assert Pow2(12) == 16 * Pow2(8); }
    assert Pow2(20) == 16 * Pow2(16);
    assert Pow2(24) == 16 * Pow2(20);
    assert Pow2(28) == 16 * Pow2(24);
    assert Pow2(31) == 8 * Pow2(28);
  }

  lemma {:induction false} ZerosOfPower(k: nat)
    ensures TrailingZeros(Pow2(k)) == k
  {
    if k > 0 { ZerosOfPower(k - 1); }
  }

  lemma {:induction false} SmallPower(k: nat, n: nat)
    requires k < n
    ensures Pow2(k) < Pow2(n)
  {
    if n > k + 1 { SmallPower(k, n - 1); }
  }

  /** Powers of two pass the test. */
  lemma PowerHasOneBit(c: int, k: nat)
    requires k < 32 && Low(c) == Pow2(k)
    ensures OneBit(c)
  {
    Pow2Values();
    var x := Low(c);
    ZerosOfPower(k);
    SmallPower(k, 32);
    hide Pow2, BitAnd, Wrap32, TrailingZeros;
    BitAndLow(c, Wrap32(c - 1), 32);
    WrapLow(c - 1);
    LowLow(c);
    LowAdd(c, -1, x, -1);
    LowSmall(x - 1);
    PowerOfTwo(x, 32);
  }

  /** Shifting by the number of trailing zeros multiplies. */
  lemma OneBitShifts(c: int)
    requires OneBit(c) && Low(c) != 0
    ensures Low(c) == Pow2(CountZeros(c))
  {
    Pow2Values();
    var x := Low(c);
    hide Pow2, BitAnd, Wrap32, TrailingZeros;
    BitAndLow(c, Wrap32(c - 1), 32);
    WrapLow(c - 1);
    LowLow(c);
    LowAdd(c, -1, x, -1);
    LowSmall(x - 1);
    PowerOfTwo(x, 32);
  }
}
