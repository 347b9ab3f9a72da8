/** sw_math.c: powers of two on 32-bit words. */
module SwMath {

  /** 2^n */
  function Pow2(n: nat): (p: nat)
    ensures 0 < p
  {
    if n == 0 then 1 else 2 * Pow2(n - 1)
  }

  /** n >> k */
  function ShiftRight(n: nat, k: nat): nat {
    if k == 0 then n else ShiftRight(n / 2, k - 1)
  }

  const WORD: nat := 0x1_0000_0000

  /** is_pow_of_2 */
  predicate IsPowOf2(x: bv32) {
    x != 0 && x & (x - 1) == 0
  }

  /** next_pow_of_2 */
  method NextPowOf2(x: bv32) returns (p: bv32)
    ensures p == NextPow(x)
  {
    if IsPowOf2(x) {
      return x;
    }
    p := x;
    p := p | (p >> 1);
    p := p | (p >> 2);
    p := p | (p >> 4);
    p := p | (p >> 8);
    p := p | (p >> 16);
    p := p + 1;
  }

  /** The value next_pow_of_2 computes; NextPowIsLeast says what it is. */
  function NextPow(x: bv32): bv32 {
    if IsPowOf2(x) then x else
    var x1 := x | (x >> 1);
    var x2 := x1 | (x1 >> 2);
    var x3 := x2 | (x2 >> 4);
    var x4 := x3 | (x3 >> 8);
    (x4 | (x4 >> 16)) + 1
  }

  /** MultiplyDeBruijnBitPosition2 */
  function LogTable(i: nat): nat
    requires i < 32
  {
    match i
    case 0 => 0
    case 1 => 1
    case 2 => 28
    case 3 => 2
    case 4 => 29
    case 5 => 14
    case 6 => 24
    case 7 => 3
    case 8 => 30
    case 9 => 22
    case 10 => 20
    case 11 => 15
    case 12 => 25
    case 13 => 17
    case 14 => 4
    case 15 => 8
    case 16 => 31
    case 17 => 27
    case 18 => 13
    case 19 => 23
    case 20 => 21
    case 21 => 19
    case 22 => 16
    case 23 => 7
    case 24 => 26
    case 25 => 12
    case 26 => 18
    case 27 => 6
    case 28 => 11
    case 29 => 5
    case 30 => 10
    case _ => 9
  }

  /** log_of_2: the de Bruijn multiplication in 32-bit arithmetic. */
  function LogOf2(number: nat): nat {
    LogTable(number * 0x077C_B531 % WORD / 0x800_0000)
  }

  /** The exponents of the powers of two that fit a word. */
  lemma Pow2Values()
    ensures Pow2(0) == 0x1 && Pow2(1) == 0x2 && Pow2(2) == 0x4 && Pow2(3) == 0x8
    ensures Pow2(4) == 0x10 && Pow2(5) == 0x20 && Pow2(6) == 0x40 && Pow2(7) == 0x80
    ensures Pow2(8) == 0x100 && Pow2(9) == 0x200 && Pow2(10) == 0x400 && Pow2(11) == 0x800
    ensures Pow2(12) == 0x1000 && Pow2(13) == 0x2000 && Pow2(14) == 0x4000 && Pow2(15) == 0x8000
    ensures Pow2(16) == 0x1_0000 && Pow2(17) == 0x2_0000 && Pow2(18) == 0x4_0000 && Pow2(19) == 0x8_0000
    ensures Pow2(20) == 0x10_0000 && Pow2(21) == 0x20_0000 && Pow2(22) == 0x40_0000 && Pow2(23) == 0x80_0000
    ensures Pow2(24) == 0x100_0000 && Pow2(25) == 0x200_0000 && Pow2(26) == 0x400_0000 && Pow2(27) == 0x800_0000
    ensures Pow2(28) == 0x1000_0000 && Pow2(29) == 0x2000_0000 && Pow2(30) == 0x4000_0000 && Pow2(31) == 0x8000_0000
    ensures Pow2(32) == WORD
  {
  }

  lemma LowWord(a: nat, q: nat, low: nat)
    requires a == q * WORD + low && low < WORD
    ensures a % WORD == low
  {
  }

  lemma TopBits(r: nat, t: nat)
    requires t < 0x800_0000
    ensures (r * 0x800_0000 + t) / 0x800_0000 == r
  {
  }

  /** log_of_2 looks up the top five bits r of the low word of the product. */
  lemma LogByParts(n: nat, q: nat, r: nat, t: nat)
    requires n * 0x077C_B531 == q * WORD + r * 0x800_0000 + t && r < 32 && t < 0x800_0000
    ensures LogOf2(n) == LogTable(r)
  {
    LowWord(n * 0x077C_B531, q, r * 0x800_0000 + t);
    TopBits(r, t);
  }

  lemma LogOfPow2From0(k: nat)
    requires 0 <= k < 8
    ensures LogOf2(Pow2(k)) == k
  {
    hide LogOf2;
    Pow2Values();
    match k
    case 0 => LogByParts(0x1, 0x0, 0, 0x77cb531);
    case 1 => LogByParts(0x2, 0x0, 1, 0x6f96a62);
    case 2 => LogByParts(0x4, 0x0, 3, 0x5f2d4c4);
    case 3 => LogByParts(0x8, 0x0, 7, 0x3e5a988);
    case 4 => LogByParts(0x10, 0x0, 14, 0x7cb5310);
    case 5 => LogByParts(0x20, 0x0, 29, 0x796a620);
    case 6 => LogByParts(0x40, 0x1, 27, 0x72d4c40);
    case _ => LogByParts(0x80, 0x3, 23, 0x65a9880);
  }

  lemma LogOfPow2From8(k: nat)
    requires 8 <= k < 16
    ensures LogOf2(Pow2(k)) == k
  {
    hide LogOf2;
    Pow2Values();
    match k
    case 8 => LogByParts(0x100, 0x7, 15, 0x4b53100);
    case 9 => LogByParts(0x200, 0xe, 31, 0x16a6200);
    case 10 => LogByParts(0x400, 0x1d, 30, 0x2d4c400);
    case 11 => LogByParts(0x800, 0x3b, 28, 0x5a98800);
    case 12 => LogByParts(0x1000, 0x77, 25, 0x3531000);
    case 13 => LogByParts(0x2000, 0xef, 18, 0x6a62000);
    case 14 => LogByParts(0x4000, 0x1df, 5, 0x54c4000);
    case _ => LogByParts(0x8000, 0x3be, 11, 0x2988000);
  }

  lemma LogOfPow2From16(k: nat)
    requires 16 <= k < 24
    ensures LogOf2(Pow2(k)) == k
  {
    hide LogOf2;
    Pow2Values();
    match k
    case 16 => LogByParts(0x10000, 0x77c, 22, 0x5310000);
    case 17 => LogByParts(0x20000, 0xef9, 13, 0x2620000);
    case 18 => LogByParts(0x40000, 0x1df2, 26, 0x4c40000);
    case 19 => LogByParts(0x80000, 0x3be5, 21, 0x1880000);
    case 20 => LogByParts(0x100000, 0x77cb, 10, 0x3100000);
    case 21 => LogByParts(0x200000, 0xef96, 20, 0x6200000);
    case 22 => LogByParts(0x400000, 0x1df2d, 9, 0x4400000);
    case _ => LogByParts(0x800000, 0x3be5a, 19, 0x800000);
  }

  lemma LogOfPow2From24(k: nat)
    requires 24 <= k < 32
    ensures LogOf2(Pow2(k)) == k
  {
    hide LogOf2;
    Pow2Values();
    match k
    case 24 => LogByParts(0x1000000, 0x77cb5, 6, 0x1000000);
    case 25 => LogByParts(0x2000000, 0xef96a, 12, 0x2000000);
    case 26 => LogByParts(0x4000000, 0x1df2d4, 24, 0x4000000);
    case 27 => LogByParts(0x8000000, 0x3be5a9, 17, 0x0);
    case 28 => LogByParts(0x10000000, 0x77cb53, 2, 0x0);
    case 29 => LogByParts(0x20000000, 0xef96a6, 4, 0x0);
    case 30 => LogByParts(0x40000000, 0x1df2d4c, 8, 0x0);
    case _ => LogByParts(0x80000000, 0x3be5a98, 16, 0x0);
  }

  /** log_of_2 inverts Pow2 on every power of two that fits a word. */
  lemma LogOfPow2(k: nat)
    requires k < 32
    ensures LogOf2(Pow2(k)) == k
  {
    if k < 8 {
      LogOfPow2From0(k);
    } else if k < 16 {
      LogOfPow2From8(k);
    } else if k < 24 {
      LogOfPow2From16(k);
    } else {
      LogOfPow2From24(k);
    }
  }

  lemma LogOfZero()
    ensures LogOf2(0) == 0
  {
  }

  /** The value of a word, as a number. */
  function Val(x: bv32): nat { x as int }

  lemma WordValue(x: bv32)
    ensures Val(x) < WORD
  {
  }

  function Half(x: bv32): bv32 { x >> 1 }

  function Odd(x: bv32): bool { x & 1 == 1 }

  lemma DoubleWordPlusOne(p: bv32)
    requires p < 0x8000_0000
    ensures Val((p << 1) | 1) == 2 * Val(p) + 1
  {
  }

  lemma HalfWordBits(x: bv32)
    ensures Half(x) < 0x8000_0000
    ensures x == if Odd(x) then (Half(x) << 1) | 1 else Half(x) << 1
  {
  }

  lemma HalfWord(x: bv32)
    ensures Val(x) == 2 * Val(Half(x)) + if Odd(x) then 1 else 0
  {
    hide *;
    HalfWordBits(x);
    DoubleWord(Half(x));
    DoubleWordPlusOne(Half(x));
  }

  /** The value determines the word. */
  lemma {:induction false} SameWord(x: bv32, y: bv32)
    requires Val(x) == Val(y)
    ensures x == y
    decreases Val(x)
  {
    hide *;
    if Val(x) == 0 {
      ZeroWord(x);
      ZeroWord(y);
    } else {
      HalfWord(x);
      HalfWord(y);
      SameWord(Half(x), Half(y));
      HalfWordBits(x);
      HalfWordBits(y);
    }
  }

  lemma ZeroWord(x: bv32)
    requires Val(x) == 0
    ensures x == 0
  {
  }

  lemma DoubleWord(p: bv32)
    requires p < 0x8000_0000
    ensures Val(p << 1) == 2 * Val(p)
  {
  }

  lemma NextPowEven(x: bv32)
    requires !Odd(x) && 1 < Val(x) <= 0x8000_0000
    ensures Doubled(Val(Half(x)), Val(NextPow(Half(x))), IsPowOf2(Half(x)), Val(x), Val(NextPow(x)), IsPowOf2(x))
  {
    TopBit(x);
    HalfWord(x);
    var p := NextPow(Half(x));
    assert p < 0x8000_0000 && NextPow(x) == p << 1;
    DoubleWord(p);
  }

  lemma NextPowOdd(x: bv32)
    requires Odd(x) && 1 < Val(x) <= 0x8000_0000
    ensures Doubled(Val(Half(x)), Val(NextPow(Half(x))), IsPowOf2(Half(x)), Val(x), Val(NextPow(x)), IsPowOf2(x))
  {
    TopBit(x);
    HalfWord(x);
    var p := NextPow(Half(x));
    if IsPowOf2(Half(x)) {
      assert p < 0x4000_0000 && NextPow(x) == (p << 1) << 1;
      DoubleWord(p);
      DoubleWord(p << 1);
    } else {
      assert p < 0x8000_0000 && NextPow(x) == p << 1;
      DoubleWord(p);
    }
  }

  /** p == 2^k is the least power of two that is not smaller than x; isPow says whether they are equal. */
  ghost predicate LeastPow(x: nat, p: nat, isPow: bool, k: nat) {
    && k < 32 && x <= p == Pow2(k)
    && (0 < k ==> Pow2(k - 1) < x)
    && (isPow <==> x == p)
  }

  ghost predicate Doubled(y: nat, p: nat, isPow: bool, n: nat, q: nat, nIsPow: bool) {
    || (n == 2 * y && q == 2 * p && nIsPow == isPow)
    || (n == 2 * y + 1 && !nIsPow && q == if isPow then 4 * p else 2 * p)
  }

  /** From y to n == 2 * y or n == 2 * y + 1. */
  lemma LeastPowStep(y: nat, p: nat, isPow: bool, k: nat, n: nat, q: nat, nIsPow: bool) returns (j: nat)
    requires LeastPow(y, p, isPow, k) && 0 < y && n <= 0x8000_0000
    requires Doubled(y, p, isPow, n, q, nIsPow)
    ensures LeastPow(n, q, nIsPow, j)
  {
    Pow2Values();
    assert Pow2(k + 1) == 2 * Pow2(k) && Pow2(k + 2) == 4 * Pow2(k);
    j := if n != 2 * y && isPow then k + 2 else k + 1;
  }

  ghost predicate NextPowAt(x: bv32, k: nat) {
    LeastPow(Val(x), Val(NextPow(x)), IsPowOf2(x), k)
  }

  lemma NextPowStep(x: bv32, k: nat) returns (j: nat)
    requires 1 < Val(x) <= 0x8000_0000 && 0 < Val(Half(x)) && NextPowAt(Half(x), k)
    ensures NextPowAt(x, j)
  {
    hide LeastPow, NextPow, IsPowOf2, Half, Odd, Doubled, Val;
    if Odd(x) {
      NextPowOdd(x);
    } else {
      NextPowEven(x);
    }
    j := LeastPowStep(Val(Half(x)), Val(NextPow(Half(x))), IsPowOf2(Half(x)), k,
                      Val(x), Val(NextPow(x)), IsPowOf2(x));
  }

  /** For sizes up to 2^31 next_pow_of_2 returns the least power of two that is not smaller,
      k is its exponent. */
  lemma {:induction false} NextPowIsLeast(x: bv32) returns (k: nat)
    requires 0 < Val(x) <= 0x8000_0000
    ensures NextPowAt(x, k)
    decreases Val(x)
  {
    hide *;
    HalfWord(x);
    if Val(Half(x)) == 0 {
      One(x);
      k := 0;
    } else {
      k := NextPowIsLeast(Half(x));
      k := NextPowStep(x, k);
    }
  }

  lemma One(x: bv32)
    requires Val(x) == 1
    ensures NextPowAt(x, 0)
  {
    assert x == 1;
  }

  lemma TopBit(x: bv32)
    requires 1 < Val(x) <= 0x8000_0000
    ensures 1 < x <= 0x8000_0000
  {
  }

  lemma Zero(x: bv32)
    requires Val(x) == 0
    ensures NextPow(x) == 1 && Val(NextPow(x)) == 1 && !IsPowOf2(x)
  {
    assert x == 0;
  }

  /** next_pow_of_2 returns a number that is large enough exactly for the sizes up to 2^31. */
  lemma NextPowSufficesIff(x: bv32)
    ensures Val(x) <= Val(NextPow(x)) <==> Val(x) <= 0x8000_0000
    ensures 0x8000_0000 < Val(x) ==> NextPow(x) == 0
  {
    hide IsPowOf2, NextPow, Val;
    if Val(x) == 0 {
      Zero(x);
    } else if Val(x) <= 0x8000_0000 {
      var k := NextPowIsLeast(x);
    } else {
      NextPowWraps(x);
    }
  }

  lemma NextPowWraps(x: bv32)
    requires 0x8000_0000 < Val(x)
    ensures NextPow(x) == 0 && Val(NextPow(x)) == 0 && !IsPowOf2(x)
  {
    assert 0x8000_0000 < x;
  }

  /** is_pow_of_2 accepts exactly the powers of two. */
  lemma IsPowOf2Iff(x: bv32)
    ensures IsPowOf2(x) <==> IsPower(Val(x))
  {
    hide LeastPow, NextPow, IsPowOf2, IsPower, Pow2, Val;
    if Val(x) == 0 {
      Zero(x);
      LargeIsNoPow(0);
    } else if Val(x) <= 0x8000_0000 {
      var k := NextPowIsLeast(x);
      LeastPowIff(Val(x), Val(NextPow(x)), IsPowOf2(x), k);
    } else {
      NextPowWraps(x);
      WordValue(x);
      LargeIsNoPow(Val(x));
    }
  }

  ghost predicate IsPower(x: nat) {
    exists k: nat :: x == Pow2(k)
  }

  lemma PowerExponent(x: nat) returns (k: nat)
    requires IsPower(x) && x < WORD
    ensures k < 32 && x == Pow2(k)
  {
    hide Pow2;
    k :| x == Pow2(k);
    if 32 <= k {
      Pow2Monotonic(32, k);
      Pow2Values();
    }
  }

  lemma LeastPowIff(x: nat, p: nat, isPow: bool, n: nat)
    requires LeastPow(x, p, isPow, n)
    ensures isPow <==> IsPower(x)
  {
    forall k: nat | x == Pow2(k)
      ensures isPow
    {
      if n < k {
        Pow2Monotonic(n + 1, k);
      } else if k < n {
        Pow2Monotonic(k, n - 1);
      }
    }
  }

  lemma LargeIsNoPow(x: nat)
    requires x == 0 || 0x8000_0000 < x < WORD
    ensures !IsPower(x)
  {
    Pow2Values();
    hide Pow2;
    forall k: nat
      ensures x != Pow2(k)
    {
      if k <= 31 {
        Pow2Monotonic(0, k);
        Pow2Monotonic(k, 31);
      } else {
        Pow2Monotonic(32, k);
      }
    }
  }

  lemma {:induction false} Pow2Monotonic(a: nat, b: nat)
    requires a <= b
    ensures Pow2(a) <= Pow2(b)
  {
    if a < b {
      Pow2Monotonic(a, b - 1);
    }
  }

  lemma {:induction false} Pow2Add(a: nat, b: nat)
    ensures Pow2(a + b) == Pow2(a) * Pow2(b)
  {
    if a > 0 {
      Pow2Add(a - 1, b);
    }
  }
}
