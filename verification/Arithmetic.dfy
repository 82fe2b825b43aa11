/** Strength reduction of 32-bit multiplications, divisions and remainders by powers of two. */
module Arithmetic {
  import opened Bits
  import opened IR

  predicate Is32(x: int) {
    -TWO_TO_THE_31 <= x < TWO_TO_THE_31
  }

  // ----- Facts about numbers -----

  lemma WrapSame(x: int, y: int)
    requires Low(x) == Low(y)
    ensures Wrap32(x) == Wrap32(y)
  {
    LowAdd(x, TWO_TO_THE_31, y, TWO_TO_THE_31);
  }

  lemma WrapSmall(x: int)
    requires Is32(x)
    ensures Wrap32(x) == x
  {
  }

  /** The number of trailing zeros of a 32-bit number with one bit. */
  lemma Power(c: int)
    requires Is32(c) && c != 0 && OneBit(c)
    ensures CountZeros(c) <= 31 && Low(c) == Pow2(CountZeros(c))
    ensures c > 0 ==> c == Pow2(CountZeros(c))
    ensures c < 0 ==> c == -TWO_TO_THE_31 && CountZeros(c) == 31
  {
    hide *;
    Pow2Values();
    Pow2Half();
    LowNotZero(c);
    OneBitShifts(c);
    var k := CountZeros(c);
    if k > 31 {
      Pow2Grows(32, k);
    } else if k < 31 {
      Pow2Grows(k, 30);
    }
  }

  lemma LowNotZero(c: int)
    requires Is32(c) && c != 0
    ensures 0 < Low(c) < TWO_TO_THE_32
    ensures c > 0 ==> Low(c) == c && c < TWO_TO_THE_31
    ensures c < 0 ==> Low(c) == c + TWO_TO_THE_32 && c >= -TWO_TO_THE_31
    ensures 0 < TWO_TO_THE_31 && TWO_TO_THE_32 == 2 * TWO_TO_THE_31
  {
  }

  lemma {:induction false} Pow2Grows(j: nat, k: nat)
    requires j <= k
    ensures Pow2(j) <= Pow2(k)
    decreases k
  {
    if j < k {
      Pow2Grows(j, k - 1);
    }
  }

  lemma Pow2Half()
    ensures 2 * Pow2(30) == TWO_TO_THE_31
  {
    Pow2Values();
  }

  /** Multiplying by a positive power of two shifts. */
  lemma MulShift(x: int, c: int)
    requires Is32(c) && c > 0 && OneBit(c)
    ensures 0 <= CountZeros(c) < 32 && Wrap32(x * Pow2(CountZeros(c))) == Wrap32(x * c)
  {
    Power(c);
  }

  /** Multiplying by the negative of a power of two shifts the negated number, `-2^31` included. */
  lemma MulNegativeShift(x: int, c: int)
    requires Is32(c) && c < 0 && OneBit(Wrap32(-c))
    ensures var k := CountZeros(Wrap32(-c));
            0 <= k < 32 && Wrap32(Wrap32(0 - x) * Pow2(k)) == Wrap32(x * c)
  {
    hide *;
    Negated(c);
    var m := Wrap32(-c);
    Power(m);
    var p := Pow2(CountZeros(m));
    WrapLow(0 - x);
    LowLow(m);
    LowMul(Wrap32(0 - x), p, 0 - x, -c);
    assert (0 - x) * -c == x * c;
    WrapSame(Wrap32(0 - x) * p, x * c);
  }

  lemma Negated(c: int)
    requires Is32(c) && c < 0
    ensures var m := Wrap32(-c);
            Is32(m) && m != 0 && Low(m) == Low(-c) && m == if c == -TWO_TO_THE_31 then c else -c
  {
    WrapLow(-c);
  }

  /** The absolute value the code tests for a multiplication by a number next to a power of two. */
  function NextTo(c: int): int {
    var t := Wrap32(c - 1);
    if t < 0 then Wrap32(-t) else t
  }

  /** That test never succeeds for the negative of a power of two other than -1. */
  lemma NeverNextTo(c: int)
    requires Is32(c) && c < -1 && OneBit(Wrap32(-c))
    ensures !OneBit(NextTo(c))
  {
    hide *;
    Negated(c);
    var m, t := Wrap32(-c), NextTo(c);
    Power(m);
    EvenPower(CountZeros(m));
    Odd(c, m, Pow2(CountZeros(m)));
    if OneBit(t) {
      Power(t);
      EvenPower(CountZeros(t));
    }
  }

  lemma EvenPower(k: nat)
    ensures Pow2(k) == 1 || Pow2(k) % 2 == 0
  {
  }

  lemma Odd(c: int, m: int, p: int)
    requires Is32(c) && c < -1 && m == (if c == -TWO_TO_THE_31 then c else -c)
    requires Low(m) == p && (p == 1 || p % 2 == 0)
    ensures Is32(NextTo(c)) && NextTo(c) % 2 == 1 && NextTo(c) > 1 && Low(NextTo(c)) == NextTo(c)
  {
    assert c % 2 == 0;
    if c == -TWO_TO_THE_31 {
      assert NextTo(c) == TWO_TO_THE_31 - 1;
    } else {
      assert NextTo(c) == 1 - c;
    }
  }

  /** The lowest `k` bits are the remainder. */
  lemma {:induction false} AndMask(x: int, k: nat, bits: nat)
    requires k <= bits
    ensures BitAnd(x, Pow2(k) - 1, bits) == x % Pow2(k)
    decreases bits
  {
    hide *;
    if k == 0 {
      AndNothing(x, bits);
    } else {
      var m := Pow2(k - 1);
      AndMask(x / 2, k - 1, bits - 1);
      HalfMod(x, m);
      AndOdd(x, m - 1, bits);
      TwicePow2(k);
      Halves(x % (2 * m));
    }
  }

  lemma AndNothing(x: int, bits: nat)
    ensures BitAnd(x, Pow2(0) - 1, bits) == x % Pow2(0)
  {
    AndZero(x, bits);
  }

  lemma TwicePow2(k: nat)
    requires k > 0
    ensures Pow2(k) == 2 * Pow2(k - 1)
  {
  }

  lemma AndOdd(x: int, h: int, bits: nat)
    requires bits > 0
    ensures BitAnd(x, 2 * h + 1, bits) == x % 2 + 2 * BitAnd(x / 2, h, bits - 1)
  {
    assert (2 * h + 1) % 2 == 1 && (2 * h + 1) / 2 == h;
  }

  lemma Halves(y: int)
    ensures y == 2 * (y / 2) + y % 2
  {
  }

  lemma {:induction false} AndZero(x: int, bits: nat)
    ensures BitAnd(x, 0, bits) == 0
    decreases bits
  {
    if bits > 0 {
      AndZero(x / 2, bits - 1);
    }
  }

  /** What the code takes for the magnitude of a divisor. */
  function Magnitude(c: int): int {
    if c < 0 then Wrap32(-c) else c
  }

  lemma MagnitudePower(c: int)
    requires Is32(c) && c != 0 && OneBit(Magnitude(c))
    ensures CountZeros(Magnitude(c)) <= 31 && Abs(c) == Pow2(CountZeros(Magnitude(c)))
    ensures Wrap32(Magnitude(c) - 1) == Abs(c) - 1 && 0 < Abs(c) <= TWO_TO_THE_31
  {
    hide *;
    MagnitudeParts(c);
    Power(Magnitude(c));
  }

  lemma MagnitudeParts(c: int)
    requires Is32(c) && c != 0
    ensures var m := Magnitude(c);
            && Is32(m) && m != 0 && Low(m) == Abs(c) && Wrap32(m - 1) == Abs(c) - 1
            && 0 < Abs(c) <= TWO_TO_THE_31
  {
    hide OneBit;
    if c < 0 {
      Negated(c);
    }
  }

  /** Masking with one less than the magnitude leaves the nonnegative remainder. */
  lemma MaskIs(x: int, c: int)
    requires Is32(x) && Is32(c) && c != 0 && OneBit(Magnitude(c))
    ensures Wrap32(BitAnd(x, Wrap32(Magnitude(c) - 1), 32)) == x % Abs(c)
  {
    hide *;
    MagnitudePower(c);
    AndMask(x, CountZeros(Magnitude(c)), 32);
    ModBelow(x, Abs(c));
    WrapSmall(x % Abs(c));
  }

  lemma ModBelow(x: int, m: nat)
    requires 0 < m <= TWO_TO_THE_31
    ensures Is32(x % m)
  {
  }

  /** `x % c` is 0 exactly when the masked bits are, whatever the signs. */
  lemma RemainderZero(x: int, c: int)
    requires Is32(x) && Is32(c) && c != 0 && OneBit(Magnitude(c))
    ensures Wrap32(BitAnd(x, Wrap32(Magnitude(c) - 1), 32)) == 0 <==> TruncRem(x, c) == 0
  {
    MaskIs(x, c);
    RemainderSigns(x, c);
    NegatedModulo(x, Abs(c));
  }

  /** The truncated remainder is the remainder of the magnitudes with the sign of the dividend. */
  lemma RemainderSigns(x: int, c: int)
    requires c != 0
    ensures TruncRem(x, c) == if x >= 0 then Abs(x) % Abs(c) else -(Abs(x) % Abs(c))
  {
    var a, m := Abs(x), Abs(c);
    var q: int := a / m;
    assert a == q * m + a % m;
    var t := TruncDiv(x, c);
    NegativeTimes(m, q);
    TimesNegative(c, q);
    assert c * t == if x >= 0 then q * m else -(q * m);
  }

  lemma NegativeTimes(m: int, q: int)
    ensures (-m) * q == -(q * m)
  {
  }

  lemma TimesNegative(c: int, q: int)
    ensures c * -q == -(c * q)
  {
  }

  lemma NegatedModulo(x: int, m: nat)
    requires m > 0
    ensures (-x) % m == 0 <==> x % m == 0
  {
    var q := x / m;
    var p := (-x) / m;
    assert x == q * m + x % m && -x == p * m + (-x) % m;
    if x % m == 0 {
      NegativeTimes(q, m);
      ModIs(-x, m, -q, 0);
    }
    if (-x) % m == 0 {
      NegativeTimes(p, m);
      ModIs(x, m, -p, 0);
    }
  }

  /** For a number that is not negative, the remainder is the masked bits and the quotient a shift. */
  lemma NotNegative(x: int, c: int)
    requires Is32(x) && x >= 0 && Is32(c) && c != 0 && OneBit(Magnitude(c))
    ensures Wrap32(BitAnd(x, Wrap32(Magnitude(c) - 1), 32)) == TruncRem(x, c)
    ensures c > 0 ==> 0 <= CountZeros(c) < 32 && x / Pow2(CountZeros(c)) == TruncDiv(x, c)
  {
    MaskIs(x, c);
    RemainderSigns(x, c);
    if c > 0 {
      Power(c);
    }
  }

  /** What the code leaves for a divisor `-2^k`: it shifts the negated divisor, not the negated dividend. */
  function NegativeQuotient(c: int): int {
    Wrap32(0 - c) / Pow2(CountZeros(Wrap32(-c)))
  }

  /** For a dividend that is not positive this is the quotient exactly between twice the divisor and the
      divisor, and never for the divisor `-2^31`. */
  lemma NegativeDivisor(x: int, c: int)
    requires x <= 0 && Is32(c) && c < -1 && OneBit(Wrap32(-c))
    ensures CountZeros(Wrap32(-c)) < 32
    ensures NegativeQuotient(c) == TruncDiv(x, c) <==> c > -TWO_TO_THE_31 && 2 * c < x <= c
  {
    hide *;
    Negated(c);
    var m := Wrap32(-c);
    Power(m);
    LowNotZero(m);
    NegativeQuotientIs(c, Pow2(CountZeros(m)));
    QuotientOne(-x, -c);
    QuotientOfNegatives(x, c);
  }

  lemma NegativeQuotientIs(c: int, p: nat)
    requires Is32(c) && c < 0 && p > 0 && p == Pow2(CountZeros(Wrap32(-c))) && Low(Wrap32(-c)) == p
    ensures NegativeQuotient(c) == if c == -TWO_TO_THE_31 then -1 else 1
  {
    hide Pow2, CountZeros;
    Negated(c);
    SelfQuotient(p);
  }

  lemma QuotientOfNegatives(x: int, c: int)
    requires x <= 0 && c < 0
    ensures TruncDiv(x, c) == (-x) / (-c) && TruncDiv(x, c) >= 0
  {
    ZeroQuotient(-c);
    NaturalQuotient(-x, -c);
  }

  lemma ZeroQuotient(b: nat)
    requires b > 0
    ensures 0 / b == 0
  {
    ModIs(0, b, 0, 0);
  }

  lemma NaturalQuotient(a: nat, b: nat)
    requires b > 0
    ensures a / b >= 0
  {
  }

  lemma SelfQuotient(p: nat)
    requires p > 0
    ensures p / p == 1
  {
    ModIs(p, p, 1, 0);
  }

  lemma QuotientOne(a: nat, b: nat)
    requires b > 0
    ensures a / b == 1 <==> b <= a < 2 * b
  {
    var q, r := a / b, a % b;
    assert a == q * b + r;
    if q >= 2 {
      assert (q - 2) * b >= 0;
      Distribute(q, 2, b);
    }
    if b <= a < 2 * b {
      ModIs(a, b, 1, a - b);
    }
  }
}
