/** sw_timeval: seconds and nanoseconds packed into one signed 64-bit word, nanoseconds in the low half. */
module TimeVal {
  const W32: int := 0x1_0000_0000
  const W64: int := 0x1_0000_0000_0000_0000
  const NANO: int := 1_000_000_000

  /** The value of the low bits of x as a signed word. */
  function Signed32(x: int): int { (x + W32 / 2) % W32 - W32 / 2 }
  function Signed64(x: int): int { (x + W64 / 2) % W64 - W64 / 2 }

  /** tval.nsec and tval.sec */
  function Nsec(v: int): int { Signed32(v) }
  function Sec(v: int): int { (v - v % W32) / W32 }

  /** The word whose fields are the low words of sec and nsec. */
  function Pack(sec: int, nsec: int): int { Signed32(sec) * W32 + nsec % W32 }

  /** add_time */
  function AddTime(value1: int, value2: int): int {
    var sum := Signed64(value1 + value2);
    if Nsec(sum) > NANO - 1 then Pack(Sec(sum) + 1, Nsec(sum) - NANO) else sum
  }

  /** subtract_time */
  function SubtractTime(value1: int, value2: int): int {
    var diff := Signed64(value1 - value2);
    if Nsec(diff) < 0 then Pack(Sec(diff), Nsec(diff) + NANO) else diff
  }

  /** A word that holds a proper time. */
  predicate Normal(v: int) {
    -W64 / 2 <= v < W64 / 2 && 0 <= Nsec(v) < NANO
  }

  function Nanos(v: int): int { Sec(v) * NANO + Nsec(v) }

  /** The sum of two times, in whole seconds and the rest. */
  function SumSec(a: int, b: int): int {
    Sec(a) + Sec(b) + if Nsec(a) + Nsec(b) < NANO then 0 else 1
  }

  function DiffSec(a: int, b: int): int {
    Sec(a) - Sec(b) - if Nsec(a) < Nsec(b) then 1 else 0
  }

  predicate FitsWord(sec: int) { -W32 / 2 <= sec < W32 / 2 }

  /** A proper time is its fields. */
  lemma Fields(v: int)
    requires 0 <= Nsec(v)
    ensures v == Sec(v) * W32 + Nsec(v)
    ensures -W64 / 2 <= v < W64 / 2 ==> FitsWord(Sec(v))
  {
  }

  lemma FieldsOf(sec: int, low: int)
    requires 0 <= low < W32
    ensures Sec(sec * W32 + low) == sec && Nsec(sec * W32 + low) == Signed32(low)
  {
    assert (sec * W32 + low) % W32 == low;
    assert (sec * W32 + low + W32 / 2) % W32 == (low + W32 / 2) % W32;
  }

  lemma SmallSigned(x: int)
    ensures FitsWord(Signed32(x))
    ensures Signed32(x) == x <==> FitsWord(x)
  {
  }

  /** The fields of a 64-bit result, from its exact seconds and low word. */
  lemma Wrapped(sec: int, low: int)
    requires 0 <= low < W32
    ensures var v := Signed64(sec * W32 + low);
            Sec(v) == Signed32(sec) && Nsec(v) == Signed32(low) && -W64 / 2 <= v < W64 / 2
  {
    var q := (sec + W32 / 2) / W32;
    assert sec == Signed32(sec) + q * W32;
    var x := Signed32(sec) * W32 + low;
    SmallSigned(sec);
    WrapWhole(x, q);
    assert sec * W32 + low == x + q * W64;
    FieldsOf(Signed32(sec), low);
  }

  lemma WrapWhole(x: int, q: int)
    requires -W64 / 2 <= x < W64 / 2
    ensures Signed64(x + q * W64) == x
  {
    assert (x + W64 / 2 + q * W64) % W64 == x + W64 / 2;
  }

  lemma SignedStep(x: int, d: int)
    ensures Signed32(Signed32(x) + d) == Signed32(x + d)
  {
  }

  /** The fields of a word made by Pack. */
  lemma Packed(sec: int, nsec: int)
    requires 0 <= nsec < NANO
    ensures Sec(Pack(sec, nsec)) == Signed32(sec) && Nsec(Pack(sec, nsec)) == nsec && Normal(Pack(sec, nsec))
  {
    FieldsOf(Signed32(sec), nsec);
    SmallSigned(sec);
    SmallSigned(nsec);
  }

  lemma AddFields(a: int, b: int)
    requires Normal(a) && Normal(b)
    ensures var v := AddTime(a, b);
            Sec(v) == Signed32(SumSec(a, b)) && Normal(v) &&
            Nsec(v) == Nsec(a) + Nsec(b) - if Nsec(a) + Nsec(b) < NANO then 0 else NANO
  {
    hide Signed32, Signed64, Sec, Nsec, Pack, Normal;
    NormalFields(a);
    NormalFields(b);
    var sec, nsec := Sec(a) + Sec(b), Nsec(a) + Nsec(b);
    assert a + b == sec * W32 + nsec;
    Wrapped(sec, nsec);
    LowSigned(nsec);
    var sum := Signed64(a + b);
    if nsec > NANO - 1 {
      SignedStep(sec, 1);
      Packed(Sec(sum) + 1, nsec - NANO);
    } else {
      NormalIf(sum);
    }
  }

  lemma NormalFields(v: int)
    requires Normal(v)
    ensures v == Sec(v) * W32 + Nsec(v) && 0 <= Nsec(v) < NANO
  {
  }

  lemma NormalIf(v: int)
    requires -W64 / 2 <= v < W64 / 2 && 0 <= Nsec(v) < NANO
    ensures Normal(v)
  {
  }

  lemma LowSigned(low: int)
    requires 0 <= low < W32
    ensures Signed32(low) == if low < W32 / 2 then low else low - W32
  {
  }

  lemma SubtractFields(a: int, b: int)
    requires Normal(a) && Normal(b)
    ensures var v := SubtractTime(a, b);
            Sec(v) == Signed32(DiffSec(a, b)) && Normal(v) &&
            Nsec(v) == Nsec(a) - Nsec(b) + if Nsec(a) < Nsec(b) then NANO else 0
  {
    hide Signed32, Signed64, Sec, Nsec, Pack, Normal;
    NormalFields(a);
    NormalFields(b);
    var diff := Signed64(a - b);
    if Nsec(a) < Nsec(b) {
      var sec, low := Sec(a) - Sec(b) - 1, Nsec(a) - Nsec(b) + W32;
      assert a - b == sec * W32 + low;
      Wrapped(sec, low);
      LowSigned(low);
      SignedStep(sec, 0);
      Packed(Sec(diff), Nsec(diff) + NANO);
    } else {
      var sec, low := Sec(a) - Sec(b), Nsec(a) - Nsec(b);
      assert a - b == sec * W32 + low;
      Wrapped(sec, low);
      LowSigned(low);
      NormalIf(diff);
    }
  }

  /** For proper times add_time is exact, in nanoseconds, exactly if the sum of the seconds, carry
      included, fits a word. */
  lemma AddExactIff(a: int, b: int)
    requires Normal(a) && Normal(b)
    ensures Normal(AddTime(a, b))
    ensures Nanos(AddTime(a, b)) == Nanos(a) + Nanos(b) <==> FitsWord(SumSec(a, b))
  {
    hide Signed32, AddTime, Normal, Sec, Nsec;
    AddFields(a, b);
    SmallSigned(SumSec(a, b));
  }

  /** For proper times subtract_time is exact exactly if the difference of the seconds, borrow
      included, fits a word; the borrow of the 64-bit subtraction already corrects the seconds. */
  lemma SubtractExactIff(a: int, b: int)
    requires Normal(a) && Normal(b)
    ensures Normal(SubtractTime(a, b))
    ensures Nanos(SubtractTime(a, b)) == Nanos(a) - Nanos(b) <==> FitsWord(DiffSec(a, b))
  {
    hide Signed32, SubtractTime, Normal, Sec, Nsec;
    SubtractFields(a, b);
    SmallSigned(DiffSec(a, b));
  }

  /** Comparing words compares times. */
  lemma OrderIff(a: int, b: int)
    requires Normal(a) && Normal(b)
    ensures a < b <==> Nanos(a) < Nanos(b)
  {
    Fields(a);
    Fields(b);
  }
}
