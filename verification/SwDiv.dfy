/** sw_div.c: division by doubling the divisor and recursing on the rest, in 32 and 64-bit words. */
module SwDiv {
  import opened Options
  import opened SwMath

  /** The bitwise and of two numbers. */
  function And(x: nat, y: nat): nat {
    if x == 0 || y == 0 then 0 else x % 2 * (y % 2) + 2 * And(x / 2, y / 2)
  }

  /** is_pow_of_2, whose parameter is a 64-bit word. */
  predicate SinglesBit(x: nat) {
    x != 0 && And(x, x - 1) == 0
  }

  lemma {:induction false} AndSelf(x: nat)
    ensures And(x, x) == x
  {
    if x > 0 {
      AndSelf(x / 2);
    }
  }

  lemma {:induction false} SinglesBitIff(x: nat)
    ensures SinglesBit(x) <==> IsPower(x)
  {
    if x == 1 {
      assert x == Pow2(0);
    } else if x > 0 && x % 2 == 0 {
      SinglesBitIff(x / 2);
      assert (x - 1) / 2 == x / 2 - 1 && (x - 1) % 2 == 1;
      if IsPower(x / 2) {
        var k: nat :| x / 2 == Pow2(k);
        assert x == Pow2(k + 1);
      }
      if IsPower(x) {
        var k: nat :| x == Pow2(k);
        assert x / 2 == Pow2(k - 1);
      }
    } else if x > 0 {
      assert (x - 1) / 2 == x / 2 && (x - 1) % 2 == 0;
      AndSelf(x / 2);
    }
  }

  /** Quotient and remainder are determined by the equation. */
  lemma Rest(n: nat, d: nat, q: nat, r: nat)
    requires n == d * q + r && r < d
    ensures n / d == q && n % d == r
  {
    var q', r' := n / d, n % d;
    assert d * (q - q') == r' - r;
    Scaled(d, q - q');
  }

  lemma Scaled(d: int, k: int)
    requires 0 <= d
    ensures (1 <= k ==> d <= d * k) && (k <= -1 ==> d * k <= -d)
  {
  }

  lemma HalfOf(n: nat, p: nat)
    requires 0 < p
    ensures n / (2 * p) == n / 2 / p && n % (2 * p) == n % 2 + 2 * (n / 2 % p)
  {
    var q, r := n / 2 / p, n / 2 % p;
    assert n / 2 == p * q + r;
    assert n == 2 * p * q + (2 * r + n % 2);
    Rest(n, 2 * p, q, 2 * r + n % 2);
  }

  lemma NextPow2(k: nat)
    requires 0 < k
    ensures Pow2(k) == 2 * Pow2(k - 1)
  {
  }

  lemma AndNone(n: nat)
    ensures And(n, 0) == 0 && n % 1 == 0
  {
  }

  /** Masking with 2^k - 1 takes the remainder. */
  lemma {:induction false} AndMask(n: nat, k: nat)
    ensures And(n, Pow2(k) - 1) == n % Pow2(k)
  {
    if k == 0 {
      AndNone(n);
    } else {
      AndMask(n / 2, k - 1);
      hide And, Pow2;
      NextPow2(k);
      AndDoubled(n, Pow2(k - 1));
      HalfOf(n, Pow2(k - 1));
    }
  }

  lemma AndDoubled(n: nat, p: nat)
    requires 0 < p
    ensures And(n, 2 * p - 1) == n % 2 + 2 * And(n / 2, p - 1)
  {
    assert (2 * p - 1) / 2 == p - 1 && (2 * p - 1) % 2 == 1;
  }

  lemma {:induction false} ShiftDivides(n: nat, k: nat)
    ensures ShiftRight(n, k) == n / Pow2(k)
  {
    if k > 0 {
      ShiftDivides(n / 2, k - 1);
      HalfOf(n, Pow2(k - 1));
    }
  }

  // ---- the loop ----

  /** x << 1 in words below m, for x < m and m even. */
  function Double(m: nat, x: nat): nat {
    if 2 * x < m then 2 * x else if 2 * x - m < m then 2 * x - m else 0
  }

  lemma DoubleIs(m: nat, x: nat)
    requires x < m
    ensures Double(m, x) == 2 * x % m
  {
    if 2 * x >= m {
      Rest(2 * x, m, 1, 2 * x - m);
    } else {
      Rest(2 * x, m, 0, 2 * x);
    }
  }

  /** The divisor and the quotient when the loop ends, from their values d and q and the number of
      doublings left before the divisor is 0; None if the loop does not end. */
  function Grown(m: nat, n: nat, d: nat, q: nat, left: nat): Option<(nat, nat)>
    decreases left
  {
    if left == 0 then None
    else if Double(m, d) <= n then Grown(m, n, Double(m, d), Double(m, q), left - 1)
    else Some((d, q))
  }

  /** x is a multiple of p below p * r. */
  ghost predicate MultipleBelow(x: nat, p: nat, r: nat) {
    x < p * r && exists q: nat :: x == p * q
  }

  lemma DoubleMultiple(x: nat, p: nat, r: nat)
    requires MultipleBelow(x, p, 2 * r) && 0 < p
    ensures MultipleBelow(Double(p * (2 * r), x), 2 * p, r)
  {
    var q: nat :| x == p * q;
    var m := p * (2 * r);
    assert m == 2 * p * r && 2 * x == 2 * p * q;
    if 2 * x >= m {
      Scaled(2 * p, q - r);
      assert 2 * x - m == 2 * p * (q - r);
      assert q >= r;
    }
  }

  /** After as many doublings as the word has bits the divisor is 0, and 0 doubled is 0: then the loop
      goes on for ever. */
  lemma {:induction false} DoubledAway(d: nat, bits: nat, i: nat)
    requires d < Pow2(bits) && i <= bits
    ensures MultipleBelow(Doubled(Pow2(bits), d, i), Pow2(i), Pow2(bits - i))
    ensures i == bits ==> Doubled(Pow2(bits), d, i) == 0 == Double(Pow2(bits), 0)
  {
    if i == 0 {
      assert d == Pow2(0) * d;
    } else {
      DoubledAway(d, bits, i - 1);
      Pow2Add(i - 1, bits - i + 1);
      NextPow2(i);
      NextPow2(bits - i + 1);
      DoubleMultiple(Doubled(Pow2(bits), d, i - 1), Pow2(i - 1), Pow2(bits - i));
    }
    if i == bits {
      NoMultiple(Doubled(Pow2(bits), d, i), Pow2(i));
    }
  }

  lemma NoMultiple(x: nat, p: nat)
    requires MultipleBelow(x, p, 1)
    ensures x == 0
  {
    var q: nat :| x == p * q;
    Scaled(p, q);
  }

  function Doubled(m: nat, d: nat, i: nat): nat {
    if i == 0 then d else Double(m, Doubled(m, d, i - 1))
  }

  /** The guard of the loop after j doublings. */
  predicate Guard(m: nat, n: nat, d: nat, j: nat) {
    Double(m, Doubled(m, d, j)) <= n
  }

  lemma {:induction false} GrownNoneFrom(m: nat, n: nat, d: nat, i: nat, q: nat, left: nat)
    ensures Grown(m, n, Doubled(m, d, i), q, left).None? <==>
            forall j: nat :: i <= j < i + left ==> Guard(m, n, d, j)
    decreases left
  {
    if left > 0 {
      assert Doubled(m, d, i + 1) == Double(m, Doubled(m, d, i));
      assert Guard(m, n, d, i) <==> Double(m, Doubled(m, d, i)) <= n;
      GrownNoneFrom(m, n, d, i + 1, Double(m, q), left - 1);
    }
  }

  lemma {:induction false} StaysZero(d: nat, bits: nat, i: nat)
    requires d < Pow2(bits) && bits <= i
    ensures Doubled(Pow2(bits), d, i) == 0
  {
    DoubledAway(d, bits, bits);
    if bits < i {
      StaysZero(d, bits, i - 1);
    }
  }

  /** None means that the loop does not end: its guard holds after any number of doublings. */
  lemma EndlessIff(bits: nat, n: nat, d: nat)
    requires d < Pow2(bits)
    ensures Grown(Pow2(bits), n, d, 1, bits).None? <==> forall j: nat :: Guard(Pow2(bits), n, d, j)
  {
    hide Grown, Pow2;
    GrownNoneFrom(Pow2(bits), n, d, 0, 1, bits);
    forall j: nat | bits <= j
      ensures Guard(Pow2(bits), n, d, j)
    {
      StaysZero(d, bits, j);
    }
  }

  /** What the division functions return, quotient and remainder; None if a loop does not end. */
  function Divide(bits: nat, n: nat, d: nat): Option<(nat, nat)>
    requires 0 < d
    decreases n
  {
    if n == d then Some((1, 0))
    else if n < d then Some((0, n))
    else if SinglesBit(d) then Some((ShiftRight(n, LogOf2(d % WORD)), And(n, d - 1)))
    else
      var end := Grown(Pow2(bits), n, d, 1, bits);
      if end.None? || !(0 < end.value.0 <= n) then None
      else
        var rest := Divide(bits, n - end.value.0, d);
        if rest.None? then None
        else Some(((end.value.1 + rest.value.0) % Pow2(bits), rest.value.1))
  }

  /** The divisor left by a loop that ends is positive and at most the dividend. */
  lemma {:induction false} GrownFits(m: nat, n: nat, d: nat, q: nat, left: nat)
    requires d <= n
    ensures var r := Grown(m, n, d, q, left);
            r.Some? ==> 0 < r.value.0 <= n && n < Double(m, r.value.0)
    decreases left
  {
    if left > 0 && Double(m, d) <= n {
      GrownFits(m, n, Double(m, d), Double(m, q), left - 1);
    }
  }

  /** The first d, 2 * d, 4 * d, ... above n. */
  function FirstAbove(n: nat, d: nat): nat
    requires 0 < d
    decreases n - d
  {
    if d > n then d else FirstAbove(n, 2 * d)
  }

  lemma {:induction false} FirstAboveBound(n: nat, d: nat)
    requires 0 < d
    ensures n < FirstAbove(n, d) && (FirstAbove(n, d) == d || FirstAbove(n, d) <= 2 * n)
    decreases n - d
  {
    if d <= n {
      FirstAboveBound(n, 2 * d);
    }
  }

  /** x doubled k times, as a number. */
  function Twice(x: nat, k: nat): nat
    decreases k
  {
    if k == 0 then x else Twice(2 * x, k - 1)
  }

  lemma {:induction false} TwiceIs(x: nat, k: nat)
    ensures Twice(x, k) == x * Pow2(k)
    decreases k
  {
    if k > 0 {
      TwiceIs(2 * x, k - 1);
      assert (2 * x) * Pow2(k - 1) == x * (2 * Pow2(k - 1));
    }
  }

  lemma {:induction false} TwiceAtLeast(x: nat, k: nat)
    ensures x <= Twice(x, k)
    decreases k
  {
    if k > 0 {
      TwiceAtLeast(2 * x, k - 1);
    }
  }

  lemma DoubleProduct(a: nat, b: nat, c: nat)
    requires c == a * b && 0 < a
    ensures 2 * c == a * (2 * b) && b <= c
  {
    Multiple(a, b);
  }

  /** Without wrap-around the loop ends at the largest multiple. */
  lemma {:induction false} GrownExact(m: nat, n: nat, divisor: nat, d: nat, q: nat, left: nat)
    requires 0 < divisor && 0 < q && d == divisor * q && d <= n < m && FirstAbove(n, d) < m <= Twice(d, left)
    ensures var r := Grown(m, n, d, q, left);
            r.Some? && r.value.0 == divisor * r.value.1 && 0 < r.value.0 <= n < 2 * r.value.0 && r.value.1 <= n &&
            (IsPower(q) ==> IsPower(r.value.1))
    decreases left
  {
    hide IsPower;
    PowerDoubled(q);
    DoubleProduct(divisor, q, d);
    if left > 0 && 2 * d <= n {
      GrownExact(m, n, divisor, 2 * d, 2 * q, left - 1);
    }
  }

  lemma PowerDoubled(q: nat)
    ensures IsPower(q) ==> IsPower(2 * q)
  {
    if IsPower(q) {
      var k: nat :| q == Pow2(k);
      assert 2 * q == Pow2(k + 1);
    }
  }

  lemma Multiple(a: nat, b: nat)
    requires 0 < a
    ensures b <= a * b
  {
  }

  // ---- when the quotient is right ----

  lemma GrownStep(n: nat, divisor: nat, d: nat, q: nat)
    requires 0 < divisor && d == divisor * q && d <= n
    ensures n / divisor == q + (n - d) / divisor && n % divisor == (n - d) % divisor
  {
    var q', r' := (n - d) / divisor, (n - d) % divisor;
    assert n - d == divisor * q' + r';
    assert n == divisor * (q + q') + r';
    Rest(n, divisor, q + q', r');
  }

  lemma SmallWord(x: nat, m: nat)
    requires x < m
    ensures x % m == x
  {
  }

  lemma QuotientBound(n: nat, d: nat)
    requires 0 < d
    ensures n / d <= n
  {
    Multiple(d, n / d);
  }

  /** Without wrap-around, a run of the loop takes the top bit off the quotient. */
  lemma LoopTakesTopBit(bits: nat, n: nat, d: nat)
    requires 0 < d <= n < Pow2(bits) && FirstAbove(n, d) < Pow2(bits)
    ensures var end := Grown(Pow2(bits), n, d, 1, bits);
            end.Some? && 0 < end.value.0 <= n && FirstAbove(n - end.value.0, d) < Pow2(bits) &&
            n / d == end.value.1 + (n - end.value.0) / d && n % d == (n - end.value.0) % d &&
            (n - end.value.0) / d < end.value.1 && IsPower(end.value.1)
  {
    hide Pow2, Grown, IsPower, FirstAbove;
    var m := Pow2(bits);
    TwiceIs(d, bits);
    Multiple(d, m);
    Scaled(m, d);
    PowerOne();
    GrownExact(m, n, d, d, 1, bits);
    var end := Grown(m, n, d, 1, bits).value;
    FirstAboveBound(n - end.0, d);
    FirstAboveBound(n, d);
    GrownStep(n, d, end.0, end.1);
    BelowMultiple(n - end.0, d, end.1);
  }

  /** Without wrap-around in the first loop, the result is exact. */
  lemma {:induction false} DivideExact(bits: nat, n: nat, d: nat)
    requires 0 < d && !SinglesBit(d) && n < Pow2(bits) && FirstAbove(n, d) < Pow2(bits)
    ensures Divide(bits, n, d) == Some((n / d, n % d))
    decreases n
  {
    hide SinglesBit, Pow2, Grown, FirstAbove, IsPower;
    if n == d {
      Rest(n, d, 1, 0);
    } else if n < d {
      Rest(n, d, 0, n);
    } else {
      LoopTakesTopBit(bits, n, d);
      DivideExact(bits, n - Grown(Pow2(bits), n, d, 1, bits).value.0, d);
      QuotientBound(n, d);
      SmallWord(n / d, Pow2(bits));
    }
  }

  /** A state of the loop after the divisor has wrapped: if the loop ends, it ends with a divisor in the
      lower half of the word and a quotient no smaller than now. */
  lemma {:induction false} GrownWrapped(m: nat, n: nat, d: nat, q: nat, left: nat)
    requires d <= n < m <= 2 * n && 0 < q && Twice(q, left) == m
    ensures var r := Grown(m, n, d, q, left);
            r.Some? ==> 2 * r.value.0 < m && n < 2 * r.value.0 && q <= r.value.1 && 2 * r.value.1 <= m
    decreases left
  {
    if left > 0 {
      TwiceAtLeast(2 * q, left - 1);
      if Double(m, d) <= n {
        if 2 * q < m {
          GrownWrapped(m, n, Double(m, d), 2 * q, left - 1);
        } else {
          LastDoubling(q, left, m);
        }
      }
    }
  }

  lemma LastDoubling(q: nat, left: nat, m: nat)
    requires 0 < left && 0 < q && 2 * q == m && Twice(q, left) == m
    ensures left == 1
  {
    TwiceAtLeast(if left == 1 then 0 else 4 * q, if left == 1 then 0 else left - 2);
  }

  /** When the divisor wraps, the loop does not end or its quotient is already too large. */
  lemma {:induction false} GrownTooLarge(m: nat, n: nat, divisor: nat, d: nat, q: nat, left: nat)
    requires 0 < divisor && 0 < q && d == divisor * q && d <= n < m <= FirstAbove(n, d)
    requires Twice(q, left) == m
    ensures var r := Grown(m, n, d, q, left);
            r.Some? ==> 2 * r.value.0 < m && n < 2 * r.value.0 && n / divisor < r.value.1 && 2 * r.value.1 <= m
    decreases left
  {
    if left > 0 {
      TwiceAtLeast(2 * q, left - 1);
      DoubleProduct(divisor, q, d);
      if 2 * d <= n {
        GrownTooLarge(m, n, divisor, 2 * d, 2 * q, left - 1);
      } else {
        BelowMultiple(n, divisor, 2 * q);
        WrapsNow(m, n, d, q, left);
      }
    }
  }

  /** The doubling at which the divisor wraps. */
  lemma WrapsNow(m: nat, n: nat, d: nat, q: nat, left: nat)
    requires 0 < q && 0 < d <= n < 2 * d && n < m <= FirstAbove(n, d) && 0 < left && Twice(q, left) == m
    ensures var r := Grown(m, n, d, q, left);
            r.Some? ==> 2 * r.value.0 < m && n < 2 * r.value.0 && 2 * q <= r.value.1 && 2 * r.value.1 <= m
  {
    assert FirstAbove(n, d) == 2 * d;
    TwiceAtLeast(2 * q, left - 1);
    if 2 * q < m {
      GrownWrapped(m, n, 2 * d - m, 2 * q, left - 1);
    } else {
      LastDoubling(q, left, m);
    }
  }

  lemma BelowMultiple(n: nat, d: nat, k: nat)
    requires 0 < d && n < d * k
    ensures n / d < k
  {
    var q := n / d;
    Scaled(d, q - k);
    assert d * q <= n;
    assert d * (q - k) == d * q - d * k;
  }

  /** The quotient and the remainder can be right: a power of two is looked up by its low word, and for
      other divisors the first doubling that passes the dividend must fit the word. */
  predicate Proper(bits: nat, n: nat, d: nat)
    requires 0 < d
  {
    n <= d || (if SinglesBit(d) then d < WORD else FirstAbove(n, d) < Pow2(bits))
  }

  lemma DividePower(bits: nat, n: nat, d: nat)
    requires 0 < d < n && SinglesBit(d)
    ensures Divide(bits, n, d) == Some((ShiftRight(n, LogOf2(d % WORD)), And(n, d - 1)))
  {
    hide And, LogOf2, ShiftRight;
  }

  lemma LogOfLarge(k: nat)
    requires 32 <= k
    ensures WORD <= Pow2(k) && LogOf2(Pow2(k) % WORD) == 0
  {
    hide LogOf2;
    Pow2Monotonic(32, k);
    Pow2Values();
    Pow2Add(32, k - 32);
    Rest(Pow2(k), WORD, Pow2(k - 32), 0);
    LogOfZero();
  }

  lemma LogOfSmall(k: nat)
    requires k < 32
    ensures Pow2(k) < WORD && LogOf2(Pow2(k) % WORD) == k
  {
    hide LogOf2;
    Pow2Monotonic(k, 31);
    Pow2Values();
    SmallWord(Pow2(k), WORD);
    LogOfPow2(k);
  }

  lemma DivideByPower(bits: nat, n: nat, d: nat)
    requires 1 <= d < n && SinglesBit(d)
    ensures Divide(bits, n, d) == Some((n / d, n % d)) <==> d < WORD
  {
    hide And, LogOf2, ShiftRight, Pow2, SinglesBit, Divide;
    DividePower(bits, n, d);
    SinglesBitIff(d);
    var k: nat :| d == Pow2(k);
    AndMask(n, k);
    if k < 32 {
      LogOfSmall(k);
      ShiftDivides(n, k);
    } else {
      LogOfLarge(k);
      NoShift(n);
      Multiple(n, d - 1);
      BelowMultiple(n, d, n);
    }
  }

  lemma NoShift(n: nat)
    ensures ShiftRight(n, 0) == n
  {
  }

  lemma DivideWraps(bits: nat, n: nat, d: nat)
    requires 0 < d < n < Pow2(bits) <= FirstAbove(n, d) && !SinglesBit(d)
    ensures var r := Divide(bits, n, d); r.Some? ==> n / d < r.value.0
  {
    hide SinglesBit, Pow2, Grown, Divide, FirstAbove;
    if Divide(bits, n, d).Some? {
      var m := Pow2(bits);
      DivideStep(bits, n, d);
      TwiceIs(1, bits);
      GrownTooLarge(m, n, d, d, 1, bits);
      var end := Grown(m, n, d, 1, bits).value;
      var rest := n - end.0;
      FirstAboveBound(rest, d);
      DivideExact(bits, rest, d);
      QuotientBound(rest, d);
      SmallWord(end.1 + rest / d, m);
    }
  }

  /** For every dividend and divisor of the word: the function returns the quotient and the remainder
      exactly if the inputs are proper. */
  lemma DivideExactIff(bits: nat, n: nat, d: nat)
    requires 0 < d < Pow2(bits) && n < Pow2(bits)
    ensures Divide(bits, n, d) == Some((n / d, n % d)) <==> Proper(bits, n, d)
  {
    hide SinglesBit, Pow2, Grown;
    if n == d {
      Rest(n, d, 1, 0);
    } else if n < d {
      Rest(n, d, 0, n);
    } else if SinglesBit(d) {
      DivideByPower(bits, n, d);
    } else if FirstAbove(n, d) < Pow2(bits) {
      DivideExact(bits, n, d);
    } else {
      DivideWraps(bits, n, d);
    }
  }

  /** Every dividend in the lower half of the word is proper, a power of two beyond 32 bits aside. */
  lemma LowerHalfProper(bits: nat, n: nat, d: nat)
    requires 0 < bits && 0 < d < Pow2(bits) && n < Pow2(bits - 1)
    ensures Proper(bits, n, d) <==> n <= d || !SinglesBit(d) || d < WORD
  {
    FirstAboveBound(n, d);
  }

  lemma {:induction false} FirstAboveFrom(n: nat, d: nat, k: nat)
    requires 0 < d && Twice(d, k) <= n
    ensures 0 < Twice(d, k) && FirstAbove(n, d) == FirstAbove(n, Twice(d, k))
    decreases k
  {
    TwiceAtLeast(d, k);
    if k > 0 {
      FirstAboveFrom(n, 2 * d, k - 1);
    }
  }

  lemma {:induction false} GrownSteps(m: nat, n: nat, d: nat, q: nat, left: nat, k: nat)
    requires k <= left && Twice(d, k) <= n < m && q <= d
    ensures Grown(m, n, d, q, left) == Grown(m, n, Twice(d, k), Twice(q, k), left - k)
    decreases k
  {
    if k > 0 {
      TwiceAtLeast(2 * d, k - 1);
      GrownSteps(m, n, 2 * d, 2 * q, left - 1, k - 1);
    }
  }

  /** In the upper half it depends on the divisor: for 3 the doublings pass 0x8000_0000 within the word,
      but not 0xFFFF_FFFF, and then the loop does not end. */
  lemma UpperHalf()
    ensures Proper(32, 0x8000_0000, 3) && !Proper(32, 0xFFFF_FFFF, 3)
    ensures Divide(32, 0xFFFF_FFFF, 3) == None
  {
    Pow2Values();
    assert !SinglesBit(3);
    hide Pow2, SinglesBit, Divide;
    TwiceIs(3, 29);
    TwiceIs(3, 30);
    FirstAboveFrom(0x8000_0000, 3, 29);
    FirstAboveFrom(0xFFFF_FFFF, 3, 30);
    EndlessLoop();
  }

  lemma EndlessLoop()
    ensures Divide(32, 0xFFFF_FFFF, 3) == None
  {
    Pow2Values();
    assert !SinglesBit(3);
    hide Pow2, SinglesBit, FirstAbove;
    TwiceIs(3, 30);
    TwiceIs(1, 30);
    GrownSteps(WORD, 0xFFFF_FFFF, 3, 1, 32, 30);
    assert Grown(WORD, 0xFFFF_FFFF, 0x8000_0000, 0x8000_0000, 1) == None;
    assert Grown(WORD, 0xFFFF_FFFF, 0xC000_0000, 0x4000_0000, 2) == None;
  }

  // ---- how deep the recursion goes ----

  function PopCount(x: nat): nat {
    if x == 0 then 0 else x % 2 + PopCount(x / 2)
  }

  lemma {:induction false} PopCountTop(k: nat, r: nat)
    requires r < Pow2(k)
    ensures PopCount(Pow2(k) + r) == 1 + PopCount(r)
  {
    if k > 0 {
      PopCountTop(k - 1, r / 2);
      assert (Pow2(k) + r) % 2 == r % 2 && (Pow2(k) + r) / 2 == Pow2(k - 1) + r / 2;
    }
  }

  /** The number of recursive calls. */
  function Calls(bits: nat, n: nat, d: nat): nat
    requires 0 < d
    decreases n
  {
    if n <= d || SinglesBit(d) then 0
    else
      var end := Grown(Pow2(bits), n, d, 1, bits);
      if end.None? || !(0 < end.value.0 <= n) then 0 else 1 + Calls(bits, n - end.value.0, d)
  }

  lemma PopCountPower(p: nat, r: nat)
    requires IsPower(p) && r < p
    ensures PopCount(p + r) == 1 + PopCount(r)
  {
    var k: nat :| p == Pow2(k);
    PopCountTop(k, r);
  }

  /** At most one call for each bit of the quotient. */
  lemma {:induction false} CallsBound(bits: nat, n: nat, d: nat)
    requires 0 < d && n < Pow2(bits) && Proper(bits, n, d)
    ensures Calls(bits, n, d) <= PopCount(n / d)
    decreases n
  {
    hide SinglesBit, Pow2, Grown, PopCount, FirstAbove, IsPower;
    if n > d && !SinglesBit(d) {
      LoopTakesTopBit(bits, n, d);
      var end := Grown(Pow2(bits), n, d, 1, bits).value;
      CallsBound(bits, n - end.0, d);
      PopCountPower(end.1, (n - end.0) / d);
    }
  }

  lemma PowerOne()
    ensures IsPower(1)
  {
    assert Pow2(0) == 1;
  }

  // ---- the functions ----

  const WORD64: nat := 0x1_0000_0000_0000_0000

  lemma WordSizes()
    ensures Pow2(32) == WORD && Pow2(64) == WORD64
  {
    Pow2Values();
    Pow2Add(32, 32);
  }

  /** What Divide is for a dividend that goes through the loop. */
  lemma DivideStep(bits: nat, n: nat, d: nat)
    requires 0 < d < n && !SinglesBit(d) && Divide(bits, n, d).Some?
    ensures var end := Grown(Pow2(bits), n, d, 1, bits);
            end.Some? && 0 < end.value.0 <= n && Divide(bits, n - end.value.0, d).Some? &&
            Divide(bits, n, d).value == ((end.value.1 + Divide(bits, n - end.value.0, d).value.0) % Pow2(bits),
                                         Divide(bits, n - end.value.0, d).value.1)
  {
    hide Pow2, SinglesBit, Grown;
  }

  lemma DivideSmall(bits: nat, n: nat, d: nat)
    requires 0 < d && n <= d
    ensures Divide(bits, n, d) == Some(if n == d then (1, 0) else (0, n))
  {
  }

  /** __aeabi_uidiv, for a divisor that is not 0 (else it panics), when the loops end. */
  method Uidiv(dividend: nat, divisor: nat) returns (quotient: nat)
    requires dividend < WORD && 0 < divisor < WORD && Divide(32, dividend, divisor).Some?
    ensures quotient == Divide(32, dividend, divisor).value.0
    ensures Proper(32, dividend, divisor) ==> quotient == dividend / divisor
    decreases dividend
  {
    hide Pow2, LogOf2, SinglesBit, Divide, Proper, Grown, ShiftRight, And;
    WordSizes();
    DivideExactIff(32, dividend, divisor);
    if divisor == dividend {
      DivideSmall(32, dividend, divisor);
      return 1;
    } else if dividend < divisor {
      DivideSmall(32, dividend, divisor);
      return 0;
    }
    if SinglesBit(divisor) {
      DividePower(32, dividend, divisor);
      return ShiftRight(dividend, LogOf2(divisor % WORD));
    }
    DivideStep(32, dividend, divisor);
    var d;
    d, quotient := Grow(WORD, dividend, divisor, 32);
    var rest := Uidiv(dividend - d, divisor);
    quotient := (quotient + rest) % WORD;
  }

  /** __aeabi_uldivmod, likewise. */
  method Uldivmod(dividend: nat, divisor: nat) returns (quot: nat, rem: nat)
    requires dividend < WORD64 && 0 < divisor < WORD64 && Divide(64, dividend, divisor).Some?
    ensures (quot, rem) == Divide(64, dividend, divisor).value
    ensures Proper(64, dividend, divisor) ==> quot == dividend / divisor && rem == dividend % divisor
    decreases dividend
  {
    hide Pow2, LogOf2, SinglesBit, Divide, Proper, Grown, ShiftRight, And;
    WordSizes();
    DivideExactIff(64, dividend, divisor);
    if divisor == dividend {
      DivideSmall(64, dividend, divisor);
      return 1, 0;
    } else if dividend < divisor {
      DivideSmall(64, dividend, divisor);
      return 0, dividend;
    }
    if SinglesBit(divisor) {
      DividePower(64, dividend, divisor);
      return ShiftRight(dividend, LogOf2(divisor % WORD)), And(dividend, divisor - 1);
    }
    DivideStep(64, dividend, divisor);
    var d;
    d, quot := Grow(WORD64, dividend, divisor, 64);
    var q, r := Uldivmod(dividend - d, divisor);
    quot := (quot + q) % WORD64;
    rem := r;
  }

  /** The loop of both functions. */
  method Grow(m: nat, dividend: nat, divisor: nat, ghost bits: nat) returns (d: nat, quotient: nat)
    requires divisor <= dividend < m && Grown(m, dividend, divisor, 1, bits).Some?
    ensures (d, quotient) == Grown(m, dividend, divisor, 1, bits).value && 0 < d <= dividend
  {
    GrownFits(m, dividend, divisor, 1, bits);
    d, quotient := divisor, 1;
    ghost var left := bits;
    DoubleIs(m, d);
    while 2 * d % m <= dividend
      invariant 0 <= left && Grown(m, dividend, d, quotient, left) == Grown(m, dividend, divisor, 1, bits)
      invariant d <= dividend && quotient < m && Double(m, d) == 2 * d % m
      decreases left
    {
      DoubleIs(m, quotient);
      d := 2 * d % m;
      quotient := 2 * quotient % m;
      left := left - 1;
      DoubleIs(m, d);
    }
  }
}
