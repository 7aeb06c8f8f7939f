/**
 Decimal numbers in the bundled formatter: counting digits from the bit length, printing two digits
 at a time, and parsing with an overflow check, against one definition of the decimal form.
 */
module Decimal {
  import opened Bits

  const INT_MAX: nat := 0x7FFF_FFFF
  const U64: nat := 0x1_0000_0000_0000_0000

  function DigitChar(d: nat): char
    requires d < 10
  {
    '0' + d as char
  }

  predicate IsDigit(c: char) { '0' <= c <= '9' }

  function DigitValue(c: char): nat
    requires IsDigit(c)
  {
    (c - '0') as int
  }

  /** The decimal form of `n`: no leading zero, except that 0 is "0". */
  function Digits(n: nat): (s: string)
    ensures |s| >= 1
  {
    if n < 10 then [DigitChar(n)] else Digits(n / 10) + [DigitChar(n % 10)]
  }

  function Pow10(k: nat): (p: nat)
    ensures p >= 1
  {
    if k == 0 then 1 else 10 * Pow10(k - 1)
  }

  /** The number of digits brackets the number between powers of ten. */
  lemma {:induction false} DigitsBracket(n: nat)
    ensures n < Pow10(|Digits(n)|)
    ensures n > 0 ==> Pow10(|Digits(n)| - 1) <= n
  {
    if n >= 10 {
      DigitsBracket(n / 10);
    } else {
      assert Pow10(1) == 10;
    }
  }

  lemma {:induction false} Pow10Monotone(j: nat, k: nat)
    requires j < k
    ensures Pow10(j) < Pow10(k)
    decreases k
  {
    if j == k - 1 {
    } else {
      Pow10Monotone(j, k - 1);
    }
  }

  /** Only the digit count lies between its powers of ten. */
  lemma BracketUnique(n: nat, d: nat)
    requires d >= 1 && n < Pow10(d) && (n > 0 ==> Pow10(d - 1) <= n) && (n == 0 ==> d == 1)
    ensures d == |Digits(n)|
  {
    DigitsBracket(n);
    var e := |Digits(n)|;
    if n > 0 {
      if d < e {
        if d < e - 1 {
          Pow10Monotone(d, e - 1);
        }
      } else if e < d {
        if e < d - 1 {
          Pow10Monotone(e, d - 1);
        }
      }
    }
  }

  // count_digits by bit length.

  function BitLength(n: nat): nat {
    if n == 0 then 0 else 1 + BitLength(n / 2)
  }

  lemma {:induction false} BitLengthBracket(n: nat)
    requires n > 0
    ensures BitLength(n) >= 1 && Pow2(BitLength(n) - 1) <= n < Pow2(BitLength(n))
  {
    if n > 1 {
      BitLengthBracket(n / 2);
    } else {
      assert Pow2(1) == 2 && BitLength(0) == 0;
    }
  }

  lemma {:induction false} BitLengthAtMost(n: nat, k: nat)
    requires n < Pow2(k)
    ensures BitLength(n) <= k
  {
    if n == 0 {
    } else {
      BitLengthAtMost(n / 2, k - 1);
    }
  }

  /** `ZERO_OR_POWERS_OF_10_32`: 0 in the first place, then the powers of ten. */
  const ZERO_OR_POWERS_OF_10_32: seq<nat> := [
    0, 10, 100, 1_000, 10_000, 100_000, 1_000_000, 10_000_000, 100_000_000, 1_000_000_000
  ]

  /** `ZERO_OR_POWERS_OF_10_64`. */
  const ZERO_OR_POWERS_OF_10_64: seq<nat> := [
    0, 10, 100, 1_000, 10_000, 100_000, 1_000_000, 10_000_000, 100_000_000, 1_000_000_000, 10_000_000_000,
    100_000_000_000, 1_000_000_000_000, 10_000_000_000_000, 100_000_000_000_000, 1_000_000_000_000_000,
    10_000_000_000_000_000, 100_000_000_000_000_000, 1_000_000_000_000_000_000, 10_000_000_000_000_000_000
  ]

  function ZeroOrPow10(t: nat): nat { if t == 0 then 0 else Pow10(t) }

  lemma Thousand(t: nat)
    ensures Pow10(t + 3) == 1000 * Pow10(t)
  {
    assert Pow10(t + 2) == 10 * Pow10(t + 1);
  }

  /** The powers of ten up to 10^19, in steps. */
  lemma PowersOfTen()
    ensures Pow10(0) == 1 && Pow10(1) == 10 && Pow10(2) == 100 && Pow10(3) == 1_000
    ensures Pow10(4) == 10_000 && Pow10(5) == 100_000 && Pow10(6) == 1_000_000
    ensures Pow10(7) == 10_000_000 && Pow10(8) == 100_000_000 && Pow10(9) == 1_000_000_000
    ensures Pow10(10) == 10_000_000_000 && Pow10(11) == 100_000_000_000 && Pow10(12) == 1_000_000_000_000
    ensures Pow10(13) == 10_000_000_000_000 && Pow10(14) == 100_000_000_000_000
    ensures Pow10(15) == 1_000_000_000_000_000 && Pow10(16) == 10_000_000_000_000_000
    ensures Pow10(17) == 100_000_000_000_000_000 && Pow10(18) == 1_000_000_000_000_000_000
    ensures Pow10(19) == 10_000_000_000_000_000_000
  {
    assert Pow10(0) == 1 && Pow10(1) == 10 && Pow10(2) == 100;
    hide Pow10;
    Thousand(0); Thousand(1); Thousand(2); Thousand(3); Thousand(4); Thousand(5); Thousand(6); Thousand(7);
    Thousand(8); Thousand(9); Thousand(10); Thousand(11); Thousand(12); Thousand(13); Thousand(14);
    Thousand(15); Thousand(16);
  }

  /** Entry `t` of the 64-bit table is 10^t, and the 32-bit table is its beginning. */
  lemma TableIsPowers(t: nat)
    requires t < 20
    ensures |ZERO_OR_POWERS_OF_10_64| == 20 && |ZERO_OR_POWERS_OF_10_32| == 10
    ensures ZERO_OR_POWERS_OF_10_64[t] == ZeroOrPow10(t)
    ensures t < 10 ==> ZERO_OR_POWERS_OF_10_32[t] == ZeroOrPow10(t)
  {
    hide Pow10;
    PowersOfTen();
    if t < 10 {
      assert t == 0 || t == 1 || t == 2 || t == 3 || t == 4 || t == 5 || t == 6 || t == 7 || t == 8 || t == 9;
    } else {
      assert t == 10 || t == 11 || t == 12 || t == 13 || t == 14 || t == 15 || t == 16 || t == 17 || t == 18 || t == 19;
    }
  }

  /** `(64 - clz(n | 1)) * 1233 >> 12`: an estimate of the decimal length. */
  function Estimate(bits: nat): nat { bits * 1233 / 4096 }

  /** From bit length `bits` up to 64: 10^(t-1) <= 2^(bits-1) and 2^bits <= 10^(t+1) for the estimate t,
      where `rem` is what the division by 4096 leaves, `p2` is 2^(bits-1) and `p10` is 10^t. */
  predicate EstimatesFit(bits: nat, rem: nat, p2: nat, p10: nat)
    decreases 65 - bits
  {
    if bits > 64 then true
    else if p10 > 10 * p2 || 2 * p2 > 10 * p10 then false
    else if rem < 2863 then EstimatesFit(bits + 1, rem + 1233, 2 * p2, p10)
    else EstimatesFit(bits + 1, rem - 2863, 2 * p2, 10 * p10)
  }

  lemma EstimatesFrom57()
    ensures EstimatesFit(57, 649, 72057594037927936, 100000000000000000)
  {
    assert EstimatesFit(61, 1485, 1152921504606846976, 1000000000000000000);
  }

  lemma EstimatesFrom49()
    ensures EstimatesFit(49, 3073, 281474976710656, 100000000000000)
  {
    EstimatesFrom57();
    assert EstimatesFit(53, 3909, 4503599627370496, 1000000000000000);
  }

  lemma EstimatesFrom41()
    ensures EstimatesFit(41, 1401, 1099511627776, 1000000000000)
  {
    EstimatesFrom49();
    assert EstimatesFit(45, 2237, 17592186044416, 10000000000000);
  }

  lemma EstimatesFrom33()
    ensures EstimatesFit(33, 3825, 4294967296, 1000000000)
  {
    EstimatesFrom41();
    assert EstimatesFit(37, 565, 68719476736, 100000000000);
  }

  lemma EstimatesFrom25()
    ensures EstimatesFit(25, 2153, 16777216, 10000000)
  {
    EstimatesFrom33();
    assert EstimatesFit(29, 2989, 268435456, 100000000);
  }

  lemma EstimatesFrom17()
    ensures EstimatesFit(17, 481, 65536, 100000)
  {
    EstimatesFrom25();
    assert EstimatesFit(21, 1317, 1048576, 1000000);
  }

  lemma EstimatesFrom9()
    ensures EstimatesFit(9, 2905, 256, 100)
  {
    EstimatesFrom17();
    assert EstimatesFit(13, 3741, 4096, 1000);
  }

  lemma EstimatesFrom1()
    ensures EstimatesFit(1, 1233, 1, 1)
  {
    EstimatesFrom9();
    assert EstimatesFit(5, 2069, 16, 10);
  }

  /** What the division by 4096 leaves. */
  function Rem(bits: nat): nat { bits * 1233 % 4096 }

  lemma EstimateStep(bits: nat)
    ensures if Rem(bits) < 2863 then Estimate(bits + 1) == Estimate(bits) && Rem(bits + 1) == Rem(bits) + 1233
            else Estimate(bits + 1) == Estimate(bits) + 1 && Rem(bits + 1) == Rem(bits) - 2863
  {
  }

  predicate Fits(bits: nat)
    requires bits >= 1
  {
    Pow2(bits) <= Pow10(Estimate(bits) + 1) && Pow10(Estimate(bits)) <= 10 * Pow2(bits - 1)
  }

  /** `EstimatesFit` at the numbers it is about. */
  predicate FitsFrom(bits: nat)
    requires bits >= 1
  {
    EstimatesFit(bits, Rem(bits), Pow2(bits - 1), Pow10(Estimate(bits)))
  }

  lemma EstimateOne(bits: nat)
    requires 1 <= bits <= 64 && FitsFrom(bits)
    ensures Fits(bits) && FitsFrom(bits + 1)
  {
    hide Estimate, Rem;
    EstimateStep(bits);
  }

  lemma {:induction false} EstimateAt(from: nat, bits: nat)
    requires 1 <= from <= bits <= 64 && FitsFrom(from)
    ensures Fits(bits)
    decreases bits - from
  {
    hide *;
    EstimateOne(from);
    if from == bits {
    } else {
      EstimateAt(from + 1, bits);
    }
  }

  lemma Fitted(bits: nat)
    requires 1 <= bits <= 64
    ensures Fits(bits)
  {
    EstimatesFrom1();
    assert FitsFrom(1);
    EstimateAt(1, bits);
  }

  lemma OrOne(n: nat)
    ensures Or(n, 1) == if n % 2 == 0 then n + 1 else n
  {
    OrOdd(n, 0);
    OrZero(n / 2);
  }

  lemma PowersOfTwo64()
    ensures Pow2(64) == U64
  {
    PowersOfTwo();
    assert Pow2(36) == 0x10_0000_0000;
    assert Pow2(40) == 0x100_0000_0000;
    assert Pow2(44) == 0x1000_0000_0000;
    assert Pow2(48) == 0x1_0000_0000_0000;
    assert Pow2(52) == 0x10_0000_0000_0000;
    assert Pow2(56) == 0x100_0000_0000_0000;
    assert Pow2(60) == 0x1000_0000_0000_0000;
  }

  lemma BitsOfWord(m: nat)
    requires 1 <= m < U64
    ensures 1 <= BitLength(m) <= 64 && Pow2(BitLength(m) - 1) <= m < Pow2(BitLength(m))
  {
    hide BitLength, Pow2;
    BitLengthBracket(m);
    PowersOfTwo64();
    BitLengthAtMost(m, 64);
  }

  lemma LowBit(n: nat, m: nat, p: nat)
    requires m == (if n % 2 == 0 then n + 1 else n) && p >= 1 && 2 * p <= m
    ensures 2 * p <= n
  {
  }

  lemma EstimateBrackets(n: nat, m: nat, b: nat)
    requires m == (if n % 2 == 0 then n + 1 else n) && b >= 1 && Pow2(b - 1) <= m < Pow2(b)
    requires Fits(b)
    ensures var t := Estimate(b); var d := t - (if n < ZeroOrPow10(t) then 1 else 0) + 1;
            d >= 1 && n < Pow10(d) && (n > 0 ==> Pow10(d - 1) <= n) && (n == 0 ==> d == 1)
  {
    if b > 1 {
      LowBit(n, m, Pow2(b - 2));
      assert Pow2(b - 1) == 2 * Pow2(b - 2);
    }
    assert Pow10(0) == 1;
    hide Pow10, Pow2;
  }

  /** The bit length of `n | 1` and the place in the table its estimate names. */
  lemma EstimateInTable(n: nat)
    requires n < U64
    ensures var bits := BitLength(Or(n, 1));
            && 1 <= bits <= 64 && Estimate(bits) < |ZERO_OR_POWERS_OF_10_64|
            && (n < U32 ==> bits <= 32 && Estimate(bits) < |ZERO_OR_POWERS_OF_10_32|)
  {
    hide BitLength, Pow2, Or;
    OrOne(n);
    BitsOfWord(Or(n, 1));
    if n < U32 {
      PowersOfTwo();
      BitLengthAtMost(Or(n, 1), 32);
    }
  }

  /** `count_digits` of a 64-bit number where the compiler offers count-leading-zeros: the number of leading
      zeros is 64 less the bit length. */
  function CountDigitsClz64(n: nat): int
    requires n < U64
  {
    EstimateInTable(n);
    var t := Estimate(BitLength(Or(n, 1)));
    t - (if n < ZERO_OR_POWERS_OF_10_64[t] then 1 else 0) + 1
  }

  /** `count_digits` of a 32-bit number. */
  function CountDigitsClz32(n: nat): int
    requires n < U32
  {
    EstimateInTable(n);
    var t := Estimate(BitLength(Or(n, 1)));
    t - (if n < ZERO_OR_POWERS_OF_10_32[t] then 1 else 0) + 1
  }

  /** The estimate, corrected by one comparison, is the number of digits. */
  lemma EstimateExact(n: nat)
    requires n < U64
    ensures var t := Estimate(BitLength(Or(n, 1))); t - (if n < ZeroOrPow10(t) then 1 else 0) + 1 == |Digits(n)|
  {
    hide Or, BitLength, Pow2, Pow10, Estimate, Digits, ZeroOrPow10, Fits, EstimatesFit;
    OrOne(n);
    var m := Or(n, 1);
    BitsOfWord(m);
    Fitted(BitLength(m));
    EstimateBrackets(n, m, BitLength(m));
    var t := Estimate(BitLength(m));
    BracketUnique(n, t - (if n < ZeroOrPow10(t) then 1 else 0) + 1);
  }

  /** For every 64-bit number, and for every 32-bit one, the result is exactly the number of digits. */
  lemma CountDigitsExact(n: nat)
    requires n < U64
    ensures CountDigitsClz64(n) == |Digits(n)|
    ensures n < U32 ==> CountDigitsClz32(n) == |Digits(n)|
  {
    hide Or, BitLength, Pow10, Estimate, Digits, ZeroOrPow10;
    EstimateInTable(n);
    TableIsPowers(Estimate(BitLength(Or(n, 1))));
    EstimateExact(n);
  }

  lemma FourDigits(n: nat)
    ensures n < 10 ==> |Digits(n)| == 1
    ensures 10 <= n < 100 ==> |Digits(n)| == 2
    ensures 100 <= n < 1000 ==> |Digits(n)| == 3
    ensures 1000 <= n < 10000 ==> |Digits(n)| == 4
    ensures n >= 10000 ==> |Digits(n)| == |Digits(n / 10000)| + 4
  {
    var a, b, c := n / 10, n / 100, n / 1000;
    assert b == a / 10 && c == b / 10 && n / 10000 == c / 10;
    assert n >= 10 ==> |Digits(n)| == |Digits(a)| + 1;
    assert a >= 10 ==> |Digits(a)| == |Digits(b)| + 1;
    assert b >= 10 ==> |Digits(b)| == |Digits(c)| + 1;
    assert c >= 10 ==> |Digits(c)| == |Digits(n / 10000)| + 1;
  }

  /** `count_digits` without count-leading-zeros: four digits per division. */
  method CountDigitsLoop(value: nat) returns (count: nat)
    ensures count == |Digits(value)|
  {
    var n := value;
    count := 1;
    while true
      invariant count >= 1 && |Digits(value)| == |Digits(n)| + count - 1
      decreases n
    {
      FourDigits(n);
      if n < 10 { return count; }
      if n < 100 { return count + 1; }
      if n < 1000 { return count + 2; }
      if n < 10000 { return count + 3; }
      n := n / 10000;
      count := count + 4;
    }
  }

  // format_decimal.

  /** The table's pairs, ten to a row. */
  function Row(r: nat): (s: string)
    ensures |s| == 20
  {
    match r
    case 0 => "00010203040506070809"
    case 1 => "10111213141516171819"
    case 2 => "20212223242526272829"
    case 3 => "30313233343536373839"
    case 4 => "40414243444546474849"
    case 5 => "50515253545556575859"
    case 6 => "60616263646566676869"
    case 7 => "70717273747576777879"
    case 8 => "80818283848586878889"
    case _ => "90919293949596979899"
  }

  function Rows(k: nat): string { if k == 0 then [] else Rows(k - 1) + Row(k - 1) }

  /** `DIGITS`: the pair `DIGITS + 2 * v` points at is the two digits of v. */
  const DIGITS: string := Rows(10)

  lemma {:induction false} RowsLaidOut(r: nat, k: nat, i: nat)
    requires r < k && i < 20
    ensures |Rows(k)| == 20 * k && Rows(k)[20 * r + i] == Row(r)[i]
  {
    if r < k - 1 {
      RowsLaidOut(r, k - 1, i);
    } else if k > 1 {
      RowsLaidOut(0, k - 1, 0);
    }
  }

  /** The ten pairs that start with the same digit. */
  function PairRow(d: nat): string
    requires d < 10
  {
    var c := DigitChar(d);
    [c, '0', c, '1', c, '2', c, '3', c, '4', c, '5', c, '6', c, '7', c, '8', c, '9']
  }

  lemma PairRowAt(d: nat, j: nat)
    requires d < 10 && j < 10
    ensures PairRow(d)[2 * j] == DigitChar(d) && PairRow(d)[2 * j + 1] == DigitChar(j)
  {
    if j < 5 {
      assert j == 0 || j == 1 || j == 2 || j == 3 || j == 4;
    } else {
      assert j == 5 || j == 6 || j == 7 || j == 8 || j == 9;
    }
  }

  /** Each row of the table is what it should be. */
  lemma RowChecked(r: nat)
    requires r < 10
    ensures Row(r) == PairRow(r)
  {
    if r < 5 {
      assert r == 0 || r == 1 || r == 2 || r == 3 || r == 4;
    } else {
      assert r == 5 || r == 6 || r == 7 || r == 8 || r == 9;
    }
  }

  lemma PairsChecked(v: nat)
    requires v < 100
    ensures |DIGITS| == 200
    ensures DIGITS[2 * v] == DigitChar(v / 10) && DIGITS[2 * v + 1] == DigitChar(v % 10)
  {
    hide Rows, Row, PairRow;
    var r, j := v / 10, v % 10;
    RowsLaidOut(r, 10, 2 * j);
    RowsLaidOut(r, 10, 2 * j + 1);
    RowChecked(r);
    PairRowAt(r, j);
  }

  lemma DivideOnce(n: nat, p: nat)
    requires p >= 1
    ensures n / (10 * p) == n / 10 / p
  {
    var h := n / 10;
    var q, r := h / p, h % p;
    assert h == q * p + r && n == q * (10 * p) + (10 * r + n % 10);
    DivModUnique(n, 10 * p, q, 10 * r + n % 10);
  }

  /** Every character of the decimal form, counted from the right, is the code of its digit. */
  lemma {:induction false} DigitCodes(n: nat, i: nat)
    requires i < |Digits(n)|
    ensures Digits(n)[|Digits(n)| - 1 - i] as int == 48 + n / Pow10(i) % 10
  {
    if i == 0 {
      assert Pow10(0) == 1;
    } else {
      DigitCodes(n / 10, i - 1);
      DivideOnce(n, Pow10(i - 1));
    }
  }

  lemma Filled(now: string, was: string, tail: string, at: nat, end: nat)
    requires at <= end <= |now| == |was| && |tail| == end - at
    requires forall k :: 0 <= k < |now| ==> now[k] == if at <= k < end then tail[k - at] else was[k]
    ensures now == was[..at] + tail + was[end..]
  {
  }

  lemma InPlace(now: string, was: string, value: nat, end: nat)
    requires |Digits(value)| <= end <= |now| == |was|
    requires now == was[..end - |Digits(value)|] + Digits(value) + was[end..]
    ensures forall k :: end - |Digits(value)| <= k < end ==> now[k] as int == 48 + value / Pow10(end - 1 - k) % 10
  {
    hide Digits, Pow10;
    forall k | end - |Digits(value)| <= k < end ensures now[k] as int == 48 + value / Pow10(end - 1 - k) % 10 {
      DigitCodes(value, end - 1 - k);
    }
  }

  lemma TwoDigits(v: nat)
    ensures v >= 100 ==> Digits(v) == Digits(v / 100) + [DigitChar(v % 100 / 10), DigitChar(v % 100 % 10)]
    ensures 10 <= v < 100 ==> Digits(v) == [DigitChar(v / 10), DigitChar(v % 10)]
    ensures v < 10 ==> Digits(v) == [DigitChar(v)]
  {
    if v >= 100 {
      assert v / 100 == v / 10 / 10 && v % 100 / 10 == v / 10 % 10 && v % 100 % 10 == v % 10;
      assert Digits(v) == Digits(v / 10) + [DigitChar(v % 10)];
      assert Digits(v / 10) == Digits(v / 10 / 10) + [DigitChar(v / 10 % 10)];
    } else if v >= 10 {
      assert Digits(v / 10) == [DigitChar(v / 10)];
    }
  }

  /** Writes backwards from `buffer + start + numDigits`, two digits per division; the digits end up in
      the last |Digits(value)| of those cells and nothing else changes. */
  method FormatDecimal(buffer: array<char>, start: nat, value: nat, numDigits: nat) returns (end: nat)
    requires |Digits(value)| <= numDigits && start + numDigits <= buffer.Length
    modifies buffer
    ensures end == start + numDigits
    ensures buffer[..] == old(buffer[..end - |Digits(value)|]) + Digits(value) + old(buffer[end..])
    ensures forall k :: end - |Digits(value)| <= k < end ==> buffer[k] as int == 48 + value / Pow10(end - 1 - k) % 10
  {
    hide Digits, Rows, Row, DigitChar;
    ghost var was := buffer[..];
    end := start + numDigits;
    var at := end;
    var v := value;
    ghost var tail: string := [];
    while v >= 100
      invariant at <= end && |Digits(v)| <= at - start
      invariant Digits(value) == Digits(v) + tail && |tail| == end - at
      invariant forall k :: 0 <= k < buffer.Length ==> buffer[k] == if at <= k < end then tail[k - at] else was[k]
      decreases v
    {
      var pair := v % 100;
      PairsChecked(pair);
      TwoDigits(v);
      at := at - 1;
      buffer[at] := DIGITS[pair * 2 + 1];
      at := at - 1;
      buffer[at] := DIGITS[pair * 2];
      tail := [DigitChar(pair / 10), DigitChar(pair % 10)] + tail;
      v := v / 100;
    }
    TwoDigits(v);
    if v < 10 {
      at := at - 1;
      buffer[at] := DigitChar(v);
      tail := [DigitChar(v)] + tail;
    } else {
      PairsChecked(v);
      at := at - 1;
      buffer[at] := DIGITS[v * 2 + 1];
      at := at - 1;
      buffer[at] := DIGITS[v * 2];
      tail := [DigitChar(v / 10), DigitChar(v % 10)] + tail;
    }
    Filled(buffer[..], was, tail, at, end);
    InPlace(buffer[..], was, value, end);
  }

  // parse_nonnegative_int.

  /** How many digits `s` starts with. */
  function DigitRun(s: string): (k: nat)
    ensures k <= |s| && (forall i :: 0 <= i < k ==> IsDigit(s[i]))
    ensures k < |s| ==> !IsDigit(s[k])
  {
    if s == [] || !IsDigit(s[0]) then 0 else 1 + DigitRun(s[1..])
  }

  function ValueOf(s: string): nat
    requires forall i :: 0 <= i < |s| ==> IsDigit(s[i])
  {
    if s == [] then 0 else ValueOf(s[..|s| - 1]) * 10 + DigitValue(s[|s| - 1])
  }

  datatype Parsed = Number(value: nat, next: nat) | TooBig

  /** The number the text starts with and where it ends: a leading zero stands alone, and anything above
      `INT_MAX` is refused. */
  function NumberAt(s: string): Parsed
    requires s != [] && IsDigit(s[0])
  {
    if s[0] == '0' then Number(0, 1)
    else
      var k := DigitRun(s);
      var v := ValueOf(s[..k]);
      if v <= INT_MAX then Number(v, k) else TooBig
  }

  lemma {:induction false} ValueGrows(s: string, i: nat, k: nat)
    requires i <= k <= |s| && forall j :: 0 <= j < |s| ==> IsDigit(s[j])
    ensures ValueOf(s[..k]) >= ValueOf(s[..i])
    decreases k
  {
    if i == k {
    } else {
      ValueGrows(s, i, k - 1);
      assert s[..k][..k - 1] == s[..k - 1];
    }
  }

  lemma Overflows(s: string, i: nat, run: nat)
    requires i < run == DigitRun(s) && ValueOf(s[..i]) > INT_MAX / 10
    ensures ValueOf(s[..run]) > INT_MAX
  {
    var t := s[..run];
    assert t[..i + 1][..i] == t[..i] == s[..i];
    ValueGrows(t, i + 1, run);
    assert t[..run] == t;
  }

  /** `value` is an `unsigned`; the comparison before each digit keeps it from wrapping. */
  method ParseNonnegativeInt(s: string) returns (r: Parsed)
    requires s != [] && IsDigit(s[0])
    ensures r == NumberAt(s)
    ensures s[0] as int == 48 ==> r == Number(0, 1)
    ensures |s| == 1 ==> r == Number(s[0] as int - 48, 1)
    ensures r.Number? ==>
              && 0 < r.next <= |s| && forall i :: 0 <= i < r.next ==> 48 <= s[i] as int <= 57
    ensures r.Number? && r.next < |s| && s[0] as int != 48 ==> s[r.next] as int < 48 || 57 < s[r.next] as int
  {
    if s[0] == '0' {
      return Number(0, 1);
    }
    var value: nat := 0;
    var big := INT_MAX / 10;
    var i := 0;
    var run := DigitRun(s);
    while i < |s| && IsDigit(s[i])
      invariant i <= run
      invariant value == ValueOf(s[..i]) < U32
    {
      if value > big {
        Overflows(s, i, run);
        return TooBig;
      }
      assert s[..i + 1][..i] == s[..i];
      value := (value * 10 + DigitValue(s[i])) % U32;
      i := i + 1;
    }
    assert i == run;
    if value > INT_MAX {
      return TooBig;
    }
    return Number(value, i);
  }

  // Round trip.

  lemma {:induction false} DigitsAreDigits(n: nat)
    ensures forall i :: 0 <= i < |Digits(n)| ==> IsDigit(Digits(n)[i])
    ensures ValueOf(Digits(n)) == n
    ensures n > 0 ==> Digits(n)[0] != '0'
  {
    if n >= 10 {
      DigitsAreDigits(n / 10);
      var s := Digits(n);
      assert s[..|s| - 1] == Digits(n / 10);
    } else {
      assert Digits(n)[..0] == [];
    }
  }

  lemma {:induction false} RunOfDigits(s: string, rest: string)
    requires forall i :: 0 <= i < |s| ==> IsDigit(s[i])
    requires rest == [] || !IsDigit(rest[0])
    ensures DigitRun(s + rest) == |s|
  {
    if s == [] {
      assert s + rest == rest;
    } else {
      RunOfDigits(s[1..], rest);
      assert (s + rest)[1..] == s[1..] + rest;
    }
  }

  /** Printing and parsing back returns the number and stops right behind it if and only if the number is
      at most `INT_MAX`; every larger number is reported as too big. */
  lemma RoundTrip(n: nat, rest: string)
    requires rest == [] || !IsDigit(rest[0])
    ensures IsDigit((Digits(n) + rest)[0])
    ensures NumberAt(Digits(n) + rest) == if n <= 0x7FFF_FFFF then Number(n, |Digits(n)|) else TooBig
  {
    var s := Digits(n);
    DigitsAreDigits(n);
    RunOfDigits(s, rest);
    assert (s + rest)[..|s|] == s;
    if n == 0 {
      assert s == ['0'];
    }
  }
}
