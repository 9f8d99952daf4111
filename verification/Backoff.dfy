/** Retry delays, in nanoseconds. The consumer uses a closed form, the broker
    probe doubles a variable, and the publisher shifts a constant; all three
    are measured against one specification, a capped power of two. */
module Backoff {

  const SECOND := 1_000_000_000
  const INITIAL := SECOND
  const CAP := 30 * SECOND
  const PUBLISH_BASE := 500_000_000

  function Pow2(n: nat): (p: nat)
    ensures p >= 1
  {
    if n == 0 then 1 else 2 * Pow2(n - 1)
  }

  function Min(a: int, b: int): int {
    if a <= b then a else b
  }

  /** The documented schedule: base, 2*base, 4*base, ... never above cap. */
  ghost function Capped(base: nat, cap: nat, doublings: nat): nat {
    Min(base * Pow2(doublings), cap)
  }

  /** Signed 64-bit wrap-around. */
  function Int64(x: int): (y: int)
    ensures -0x8000_0000_0000_0000 <= y < 0x8000_0000_0000_0000
  {
    (x + 0x8000_0000_0000_0000) % 0x1_0000_0000_0000_0000 - 0x8000_0000_0000_0000
  }

  /** A left shift of a 64-bit signed value by a non-negative count. */
  function Shl64(x: int, count: nat): int {
    Int64(x * Pow2(count))
  }

  /** The consumer's delay for its failure count. */
  function BackoffDelay(failures: int): int {
    if failures < 2 then INITIAL
    else if failures >= 6 then CAP
    else Shl64(INITIAL, failures - 1)
  }

  /** Twice a 64-bit value, wrapped: Int64(2 * x) for every x in range. */
  function Doubled(x: int): int {
    if 2 * x >= 0x8000_0000_0000_0000 then 2 * x - 0x1_0000_0000_0000_0000
    else if 2 * x < -0x8000_0000_0000_0000 then 2 * x + 0x1_0000_0000_0000_0000
    else 2 * x
  }

  /** One doubling step of the probe's retry delay. */
  function NextDelay(delay: int, max: int): int {
    Min(Doubled(delay), max)
  }

  function Iterated(initial: int, max: int, steps: nat): int {
    if steps == 0 then initial else NextDelay(Iterated(initial, max, steps - 1), max)
  }

  /** The publisher's delay before the retry that follows the given attempt. */
  function PublishBackoff(attempt: nat): int {
    var backoff := Shl64(PUBLISH_BASE, attempt);
    if backoff > CAP then CAP else backoff
  }

  lemma {:induction false} Pow2Monotone(a: nat, b: nat)
    requires a <= b
    ensures Pow2(a) <= Pow2(b)
  {
    if a < b {
      Pow2Monotone(a, b - 1);
    }
  }

  lemma {:induction false} Pow2Sum(a: nat, b: nat)
    ensures Pow2(a + b) == Pow2(a) * Pow2(b)
  {
    if b > 0 {
      Pow2Sum(a, b - 1);
      assert Pow2(a) * Pow2(b) == 2 * (Pow2(a) * Pow2(b - 1));
    }
  }

  lemma Pow2Small()
    ensures Pow2(1) == 2 && Pow2(2) == 4 && Pow2(3) == 8 && Pow2(4) == 16 && Pow2(5) == 32
    ensures Pow2(8) == 256
  {
  }

  /** A positive 64-bit delay no larger than half the range never wraps when doubled,
      so the probe's loop computes the capped power for every initial delay and cap. */
  lemma {:induction false} IteratedIsCapped(initial: nat, max: nat, steps: nat)
    requires initial <= max < 0x4000_0000_0000_0000
    ensures Iterated(initial, max, steps) == Capped(initial, max, steps)
    ensures 0 <= Iterated(initial, max, steps) <= max
  {
    if steps > 0 {
      IteratedIsCapped(initial, max, steps - 1);
      DoublePower(initial, steps);
    } else {
      assert initial * Pow2(0) == initial;
    }
  }

  /** A delay of half the 64-bit range or more doubles to a negative one, which the cap
      does not repair. */
  lemma DoublingWraps(initial: nat, max: nat)
    requires 1 <= initial <= max && 0x4000_0000_0000_0000 <= max < 0x8000_0000_0000_0000
    ensures Capped(initial, max, 62) >= 0x4000_0000_0000_0000 && Capped(initial, max, 63) >= 0
    ensures Iterated(initial, max, 62) == Capped(initial, max, 62) ==> Iterated(initial, max, 63) < 0
  {
    assert Pow2(62) == 0x4000_0000_0000_0000 by { PublishPowers(); Pow2Small(); Pow2Sum(56, 6); assert Pow2(6) == 64; }
    ProductAtLeast(Pow2(62), 1, initial);
    ProductAtLeast(Pow2(63), 0, initial);
    assert Iterated(initial, max, 63) == NextDelay(Iterated(initial, max, 62), max);
  }

  /** The probe's loop computes the capped power at every step exactly when it starts from
      zero or its cap is below half the 64-bit range. */
  lemma IteratedIsCappedExactlyWhen(initial: nat, max: nat)
    requires initial <= max < 0x8000_0000_0000_0000
    ensures (forall n: nat :: Iterated(initial, max, n) == Capped(initial, max, n))
       <==> initial == 0 || max < 0x4000_0000_0000_0000
  {
    if initial == 0 {
      forall n: nat
        ensures Iterated(initial, max, n) == Capped(initial, max, n)
      {
        IteratedFromZero(max, n);
      }
    } else if max < 0x4000_0000_0000_0000 {
      forall n: nat
        ensures Iterated(initial, max, n) == Capped(initial, max, n)
      {
        IteratedIsCapped(initial, max, n);
      }
    } else {
      DoublingWraps(initial, max);
    }
  }

  lemma {:induction false} IteratedFromZero(max: nat, n: nat)
    ensures Iterated(0, max, n) == 0 == Capped(0, max, n)
  {
    if n > 0 {
      IteratedFromZero(max, n - 1);
    }
  }

  lemma DoublePower(base: nat, n: nat)
    requires n >= 1
    ensures base * Pow2(n) == 2 * (base * Pow2(n - 1))
    ensures base * Pow2(n - 1) >= 0
  {
  }

  /** The closed form is the capped power for every failure count. */
  lemma BackoffDelayIsCapped(failures: int)
    ensures failures >= 1 ==> BackoffDelay(failures) == Capped(INITIAL, CAP, failures - 1)
    ensures failures < 1 ==> BackoffDelay(failures) == INITIAL
  {
    Pow2Small();
    if failures >= 6 {
      Pow2Monotone(5, failures - 1);
    } else if failures >= 2 {
      var f := failures;
      assert f == 2 || f == 3 || f == 4 || f == 5;
    }
  }

  /** The consumer's schedule: one second, doubled at each further failure up to thirty. */
  lemma DelayDoubles(failures: int)
    requires failures >= 1
    ensures BackoffDelay(1) == 1_000_000_000
    ensures BackoffDelay(failures + 1) == Min(2 * BackoffDelay(failures), 30_000_000_000)
  {
    Pow2Small();
    if failures < 6 {
      assert failures == 1 || failures == 2 || failures == 3 || failures == 4 || failures == 5;
    }
  }

  /** n-1 probe doublings from one second equal the consumer's closed form. */
  lemma ProbeMatchesConsumer(n: nat)
    requires n >= 1
    ensures Iterated(INITIAL, CAP, n - 1) == BackoffDelay(n)
  {
    IteratedIsCapped(INITIAL, CAP, n - 1);
    BackoffDelayIsCapped(n);
  }

  /** More failures never shorten the delay, and every delay stays in [1s, 30s]. */
  lemma BackoffDelayMonotone(a: int, b: int)
    requires a <= b
    ensures INITIAL <= BackoffDelay(a) <= BackoffDelay(b) <= CAP
  {
    BackoffDelayIsCapped(a);
    BackoffDelayIsCapped(b);
    if a >= 1 {
      Pow2Monotone(a - 1, b - 1);
      Pow2Monotone(0, a - 1);
    } else if b >= 1 {
      Pow2Monotone(0, b - 1);
    }
  }

  lemma PublishPowers()
    ensures Pow2(34) == 17_179_869_184 && Pow2(35) == 34_359_738_368
    ensures Pow2(56) == 72_057_594_037_927_936
  {
    Pow2Small();
    Pow2Sum(8, 8);
    Pow2Sum(16, 16);
    Pow2Sum(2, 32);
    Pow2Sum(3, 32);
    Pow2Sum(8, 16);
    Pow2Sum(24, 32);
  }

  /** The publisher's shift keeps its mathematical value exactly up to attempt 34. */
  lemma {:induction false} PublishShiftExactUpTo34(attempt: nat)
    ensures Shl64(PUBLISH_BASE, attempt) == PUBLISH_BASE * Pow2(attempt) <==> attempt <= 34
  {
    PublishPowers();
    if attempt <= 34 {
      Pow2Monotone(attempt, 34);
    } else {
      Pow2Monotone(35, attempt);
    }
  }

  /** From attempt 56 on every bit of the constant has been shifted out. */
  lemma PublishShiftVanishes(attempt: nat)
    requires attempt >= 56
    ensures Shl64(PUBLISH_BASE, attempt) == 0
  {
    PublishPowers();
    Pow2Sum(56, attempt - 56);
    var rest := Pow2(attempt - 56);
    assert PUBLISH_BASE * Pow2(56) == 1_953_125 * 0x1_0000_0000_0000_0000;
    assert PUBLISH_BASE * Pow2(attempt) == (1_953_125 * rest) * 0x1_0000_0000_0000_0000;
    Int64OfMultiple(1_953_125 * rest);
  }

  lemma ProductAtLeast(base: nat, a: nat, b: nat)
    requires a <= b
    ensures base * a <= base * b
  {
  }

  /** Up to attempt 34 the publisher follows its documented schedule; beyond it the
      wrapped shift is above the cap only at the attempts listed, and is otherwise
      negative or zero, which the cap does not repair. */
  lemma PublishBackoffIsCappedExactlyWhen(attempt: nat)
    ensures PublishBackoff(attempt) == Capped(PUBLISH_BASE, CAP, attempt)
       <==> attempt <= 34 || attempt in {38, 42, 43, 46, 48, 51, 52, 54}
  {
    PublishShiftExactUpTo34(attempt);
    if attempt >= 35 {
      PublishPowers();
      Pow2Monotone(35, attempt);
      ProductAtLeast(PUBLISH_BASE, Pow2(35), Pow2(attempt));
      assert Capped(PUBLISH_BASE, CAP, attempt) == CAP;
      if attempt >= 56 {
        PublishShiftVanishes(attempt);
      } else {
        PublishShiftTable(attempt);
      }
    }
  }

  /** The sign of the wrapped shift is one bit of the constant. */
  lemma PublishShiftTable(attempt: nat)
    requires 35 <= attempt <= 55
    ensures attempt in {38, 42, 43, 46, 48, 51, 52, 54} ==> Shl64(PUBLISH_BASE, attempt) > CAP
    ensures attempt !in {38, 42, 43, 46, 48, 51, 52, 54} ==> Shl64(PUBLISH_BASE, attempt) < 0
  {
    ShiftStepsTo(attempt);
    ShiftedSigns(attempt - 34);
  }

  lemma ShiftedSigns(i: nat)
    requires 1 <= i <= 21
    ensures SHIFTED[i] > CAP <==> i in {4, 8, 9, 12, 14, 17, 18, 20}
    ensures SHIFTED[i] < 0 <==> i !in {4, 8, 9, 12, 14, 17, 18, 20}
  {
  }

  /** Each entry of the table is the entry before it, doubled and wrapped. */
  lemma {:induction false} ShiftStepsTo(attempt: nat)
    requires 34 <= attempt <= 55
    ensures Shl64(PUBLISH_BASE, attempt) == SHIFTED[attempt - 34]
  {
    if attempt == 34 {
      PublishPowers();
    } else {
      ShiftStepsTo(attempt - 1);
      ShiftStep(PUBLISH_BASE, attempt - 1);
      ShiftedRow(attempt - 35);
    }
  }

  lemma ShiftedRow(i: nat)
    requires i <= 20
    ensures SHIFTED[i + 1] == Doubled(SHIFTED[i])
  {
  }

  /** Shifting once more doubles the wrapped value and wraps again. */
  lemma ShiftStep(x: int, a: nat)
    ensures Shl64(x, a + 1) == Doubled(Shl64(x, a))
  {
    var m := 0x1_0000_0000_0000_0000;
    var half := 0x8000_0000_0000_0000;
    var y := x * Pow2(a);
    var q := (y + half) / m;
    assert y == q * m + Int64(y);
    assert x * Pow2(a + 1) == 2 * y;
    Int64Shift(2 * Int64(y), 2 * q);
    DoubledIsWrap(Int64(y));
  }

  lemma DoubledIsWrap(x: int)
    requires -0x8000_0000_0000_0000 <= x < 0x8000_0000_0000_0000
    ensures Int64(2 * x) == Doubled(x)
  {
  }

  lemma Int64Shift(r: int, q: int)
    ensures Int64(q * 0x1_0000_0000_0000_0000 + r) == Int64(r)
  {
  }

  /** The shifted constant for attempts 34 to 55. */
  const SHIFTED: seq<int> := [
    8_589_934_592_000_000_000, -1_266_874_889_709_551_616, -2_533_749_779_419_103_232, -5_067_499_558_838_206_464,
    8_311_744_956_033_138_688, -1_823_254_161_643_274_240, -3_646_508_323_286_548_480, -7_293_016_646_573_096_960,
    3_860_710_780_563_357_696, 7_721_421_561_126_715_392, -3_003_900_951_456_120_832, -6_007_801_902_912_241_664,
    6_431_140_267_885_068_288, -5_584_463_537_939_415_040, 7_277_816_997_830_721_536, -3_891_110_078_048_108_544,
    -7_782_220_156_096_217_088, 2_882_303_761_517_117_440, 5_764_607_523_034_234_880, -6_917_529_027_641_081_856,
    4_611_686_018_427_387_904, -9_223_372_036_854_775_808]

  lemma Int64OfMultiple(k: int)
    ensures Int64(k * 0x1_0000_0000_0000_0000) == 0
  {
  }
}
