/** Hex time: the elapsed fraction of the current day written in base 16 with
    five digits, most significant first (`calculateHexTime` in the watch face
    engine), and the hand rotations derived from those digits in `onDraw`. */
module HexClock {
  import JavaMath

  /** Milliseconds in a day; `86400000 = 84375 * 2^10`. */
  const MillisPerDay: int := 86400000

  /** Number of hex digits the face shows (`h1` .. `h5`). */
  const DigitCount: nat := 5

  function Pow16(k: nat): (p: nat)
    ensures p >= 1
  {
    if k == 0 then 1 else 16 * Pow16(k - 1)
  }

  /** Number of whole `1/16^k`-day units elapsed after `t` milliseconds of the day. */
  function ElapsedUnits(t: nat, k: nat): (units: nat)
  {
    t * Pow16(k) / MillisPerDay
  }

  /** `calculateHexTime(k)` for the calendar instant `instant` (epoch
      milliseconds): `(int) (timeInDay / (86400000 / 16^k) % 16)` with
      `timeInDay = instant % 86400000`. Every divisor `86400000 / 16^k` with
      `k <= 5` is an exact double and the quotient never rounds across an
      integer, so the truncated integer quotient below is what the double
      expression yields. Java's `%` and `(int)` truncate toward zero, so an
      instant before the epoch gives a non-positive digit. */
  function Digit(instant: int, k: int): (d: int)
    requires 1 <= k <= DigitCount
    ensures -16 < d < 16
    ensures instant >= 0 ==> 0 <= d
    ensures instant <= 0 ==> d <= 0
  {
    var timeInDay := JavaMath.Rem(instant, MillisPerDay);
    assert instant <= 0 ==> timeInDay * Pow16(k) <= 0;
    assert instant >= 0 ==> timeInDay * Pow16(k) >= 0;
    JavaMath.Rem(JavaMath.Quot(timeInDay * Pow16(k), MillisPerDay), 16)
  }

  /** The five digits `h1 .. h5` that `onDraw` computes for one instant. */
  function HexDigits(instant: int): (ds: seq<int>)
    ensures |ds| == DigitCount
    ensures forall i :: 0 <= i < DigitCount ==> -16 < ds[i] < 16
    ensures instant >= 0 ==> forall i :: 0 <= i < DigitCount ==> IsHexDigit(ds[i])
    ensures instant <= 0 ==> forall i :: 0 <= i < DigitCount ==> ds[i] <= 0
  {
    [Digit(instant, 1), Digit(instant, 2), Digit(instant, 3), Digit(instant, 4), Digit(instant, 5)]
  }

  /** The first `n` digits, built one position at a time. */
  function LeadingDigits(instant: int, n: nat): (ds: seq<int>)
    requires n <= DigitCount
    ensures |ds| == n
  {
    if n == 0 then [] else LeadingDigits(instant, n - 1) + [Digit(instant, n)]
  }

  /** The `n` lowest base-16 digits of `v`, most significant first. */
  function Base16Digits(v: nat, n: nat): (ds: seq<int>)
    ensures |ds| == n
    ensures forall i :: 0 <= i < n ==> 0 <= ds[i] < 16
  {
    if n == 0 then [] else Base16Digits(v / 16, n - 1) + [v % 16]
  }

  /** The value of a digit sequence read in base 16, most significant first. */
  function FromBase16(ds: seq<int>): (v: int)
  {
    if ds == [] then 0 else FromBase16(ds[..|ds| - 1]) * 16 + ds[|ds| - 1]
  }

  predicate IsHexDigit(d: int) { 0 <= d < 16 }

  // ---------------------------------------------------------------------
  // Base 16 round trips

  /** Writing a value below `16^n` with `n` digits and reading it back gives the value. */
  lemma {:induction false} Base16RoundTrip(v: nat, n: nat)
    requires v < Pow16(n)
    ensures FromBase16(Base16Digits(v, n)) == v
  {
    if n > 0 {
      assert v / 16 < Pow16(n - 1);
      Base16RoundTrip(v / 16, n - 1);
      var ds := Base16Digits(v, n);
      assert ds[..n - 1] == Base16Digits(v / 16, n - 1);
    }
  }

  /** Reading `n` hex digits gives a value below `16^n`, and writing it back gives the digits. */
  lemma {:induction false} FromBase16RoundTrip(ds: seq<int>)
    requires forall i :: 0 <= i < |ds| ==> IsHexDigit(ds[i])
    ensures 0 <= FromBase16(ds) < Pow16(|ds|)
    ensures Base16Digits(FromBase16(ds), |ds|) == ds
  {
    if ds != [] {
      var n := |ds|;
      var init := ds[..n - 1];
      FromBase16RoundTrip(init);
      var v := FromBase16(ds);
      assert v == FromBase16(init) * 16 + ds[n - 1];
      assert v / 16 == FromBase16(init) && v % 16 == ds[n - 1];
      assert ds == init + [ds[n - 1]];
    }
  }

  // ---------------------------------------------------------------------
  // The digits are the base-16 expansion of the elapsed fraction of the day

  /** Digit `k` of a non-negative instant is the count of `1/16^k`-day units
      elapsed since midnight (UTC), taken modulo 16. */
  lemma DigitFormula(instant: int, k: int)
    requires instant >= 0 && 1 <= k <= DigitCount
    ensures Digit(instant, k) == ElapsedUnits(instant % MillisPerDay, k) % 16
  {
    var t := instant % MillisPerDay;
    assert t * Pow16(k) >= 0;
  }

  /** Refining from `1/16^k` to `1/16^(k+1)` of a day multiplies the count by 16
      and adds the new digit. */
  lemma ElapsedUnitsShift(t: nat, k: nat)
    ensures ElapsedUnits(t, k + 1) / 16 == ElapsedUnits(t, k)
  {
    var x := t * Pow16(k);
    assert t * Pow16(k + 1) == 16 * x;
    var q, r := x / MillisPerDay, x % MillisPerDay;
    assert 16 * x == 16 * q * MillisPerDay + 16 * r;
    assert (16 * x) / MillisPerDay == 16 * q + (16 * r) / MillisPerDay;
  }

  /** Less than a day elapsed is less than `16^k` units of `1/16^k` day. */
  lemma ElapsedUnitsBound(t: nat, k: nat)
    requires t < MillisPerDay
    ensures ElapsedUnits(t, k) < Pow16(k)
  {
    assert t * Pow16(k) < MillisPerDay * Pow16(k);
  }

  lemma {:induction false} LeadingDigitsExpansion(instant: int, n: nat)
    requires instant >= 0 && n <= DigitCount
    ensures LeadingDigits(instant, n) == Base16Digits(ElapsedUnits(instant % MillisPerDay, n), n)
  {
    if n > 0 {
      LeadingDigitsExpansion(instant, n - 1);
      ElapsedUnitsShift(instant % MillisPerDay, n - 1);
      DigitFormula(instant, n);
    }
  }

  lemma HexDigitsAreLeading(instant: int)
    ensures HexDigits(instant) == LeadingDigits(instant, DigitCount)
  {
    assert LeadingDigits(instant, 1) == [Digit(instant, 1)];
    assert LeadingDigits(instant, 2) == [Digit(instant, 1), Digit(instant, 2)];
    assert LeadingDigits(instant, 3) == [Digit(instant, 1), Digit(instant, 2), Digit(instant, 3)];
    assert LeadingDigits(instant, 4) == [Digit(instant, 1), Digit(instant, 2), Digit(instant, 3), Digit(instant, 4)];
  }

  /** For a non-negative instant the five digits are exactly the five-digit
      base-16 expansion of the number of `1/16^5`-day units elapsed since
      midnight, and reading them in base 16 gives that number back. */
  lemma DigitsAreExpansion(instant: int)
    requires instant >= 0
    ensures HexDigits(instant) == Base16Digits(ElapsedUnits(instant % MillisPerDay, DigitCount), DigitCount)
    ensures FromBase16(HexDigits(instant)) == ElapsedUnits(instant % MillisPerDay, DigitCount)
  {
    var t := instant % MillisPerDay;
    LeadingDigitsExpansion(instant, DigitCount);
    HexDigitsAreLeading(instant);
    ElapsedUnitsBound(t, DigitCount);
    Base16RoundTrip(ElapsedUnits(t, DigitCount), DigitCount);
  }

  /** Every digit of a non-negative instant is a hex digit, 0 through 15. */
  lemma DigitsInRange(instant: int)
    requires instant >= 0
    ensures forall i :: 0 <= i < DigitCount ==> IsHexDigit(HexDigits(instant)[i])
  {
  }

  /** Within any one day after the epoch the hex time counts upward: a later
      time of that day never reads as a smaller base-16 number. */
  lemma DigitsMonotone(day: nat, earlier: int, later: int)
    requires day * MillisPerDay <= earlier <= later < (day + 1) * MillisPerDay
    ensures FromBase16(HexDigits(earlier)) <= FromBase16(HexDigits(later))
  {
    var start := day * MillisPerDay;
    assert earlier % MillisPerDay == earlier - start;
    assert later % MillisPerDay == later - start;
    DigitsAreExpansion(earlier);
    DigitsAreExpansion(later);
    ElapsedUnitsMonotone(earlier - start, later - start, DigitCount);
  }

  lemma ElapsedUnitsMonotone(t: nat, t': nat, k: nat)
    requires t <= t'
    ensures ElapsedUnits(t, k) <= ElapsedUnits(t', k)
  {
    assert t * Pow16(k) <= t' * Pow16(k);
  }

  /** Only the instant modulo one day matters: adding whole days changes no digit. */
  lemma DigitsDayPeriodic(instant: int, days: nat)
    requires instant >= 0
    ensures HexDigits(instant + days * MillisPerDay) == HexDigits(instant)
  {
    assert (instant + days * MillisPerDay) % MillisPerDay == instant % MillisPerDay;
    forall k | 1 <= k <= DigitCount
      ensures Digit(instant + days * MillisPerDay, k) == Digit(instant, k)
    {
      DigitFormula(instant, k);
      DigitFormula(instant + days * MillisPerDay, k);
    }
  }

  /** Java's truncating arithmetic makes a negative instant read as the
      negated digits of its absolute value, so before the epoch the digits are
      0 or negative rather than the time of day. */
  lemma DigitsOddInInstant(instant: int)
    ensures forall i :: 0 <= i < DigitCount ==> HexDigits(-instant)[i] == -HexDigits(instant)[i]
  {
    DigitOdd(instant, 1);
    DigitOdd(instant, 2);
    DigitOdd(instant, 3);
    DigitOdd(instant, 4);
    DigitOdd(instant, 5);
  }

  lemma DigitOdd(instant: int, k: int)
    requires 1 <= k <= DigitCount
    ensures Digit(-instant, k) == -Digit(instant, k)
  {
    var t := JavaMath.Rem(instant, MillisPerDay);
    JavaMath.QuotRemOdd(instant, MillisPerDay);
    assert (-t) * Pow16(k) == -(t * Pow16(k));
    JavaMath.QuotRemOdd(t * Pow16(k), MillisPerDay);
    JavaMath.QuotRemOdd(JavaMath.Quot(t * Pow16(k), MillisPerDay), 16);
  }

  /** Midnight, noon and the last millisecond of the day. */
  lemma KnownInstants()
    ensures HexDigits(0) == [0, 0, 0, 0, 0]
    ensures HexDigits(43200000) == [8, 0, 0, 0, 0]
    ensures HexDigits(86399999) == [15, 15, 15, 15, 15]
  {
    KnownPowers();
    DigitFormula(43200000, 1);
    DigitFormula(43200000, 2);
    DigitFormula(43200000, 3);
    DigitFormula(43200000, 4);
    DigitFormula(43200000, 5);
    DigitFormula(86399999, 1);
    DigitFormula(86399999, 2);
    DigitFormula(86399999, 3);
    DigitFormula(86399999, 4);
    DigitFormula(86399999, 5);
  }

  lemma KnownPowers()
    ensures Pow16(1) == 16 && Pow16(2) == 256 && Pow16(3) == 4096
    ensures Pow16(4) == 65536 && Pow16(5) == 1048576
  {
  }

  // ---------------------------------------------------------------------
  // Hand rotation

  /** Rotation of a hand, as a fraction of a full turn clockwise from 12
      o'clock: `SIXTEENTH * (digit + next / 16f + 8)` divided by `2 * PI`. */
  function HandTurn(digit: int, next: int): (turn: real)
    ensures IsHexDigit(digit) && IsHexDigit(next) ==> 0.5 <= turn < 1.5
  {
    (digit as real + next as real / 16.0 + 8.0) / 16.0
  }

  /** With hex digits, a hand starts at half a turn (digit 0 points down), stays
      within one full turn of that, and turns strictly further as the two-digit
      value `16 * digit + next` grows. */
  lemma HandTurnProperties(digit: int, next: int, digit': int, next': int)
    requires IsHexDigit(digit) && IsHexDigit(next) && IsHexDigit(digit') && IsHexDigit(next')
    ensures 0.5 <= HandTurn(digit, next) < 1.5
    ensures HandTurn(digit, next) == 0.5 <==> digit == 0 && next == 0
    ensures HandTurn(digit, next) < HandTurn(digit', next') <==> 16 * digit + next < 16 * digit' + next'
  {
  }
}
