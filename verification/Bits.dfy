/**
 C's bit operations on unsigned words, defined bit by bit on naturals, and what they compute
 when one operand is a mask of low ones.
 */
module Bits {
  /** 2^32: arithmetic on 32-bit words is modulo this number. */
  const U32: nat := 0x1_0000_0000

  function And(a: nat, b: nat): nat
    decreases a
  {
    if a == 0 || b == 0 then 0
    else (if a % 2 == 1 && b % 2 == 1 then 1 else 0) + 2 * And(a / 2, b / 2)
  }

  function Or(a: nat, b: nat): nat
    decreases a + b
  {
    if a == 0 && b == 0 then 0
    else (if a % 2 == 1 || b % 2 == 1 then 1 else 0) + 2 * Or(a / 2, b / 2)
  }

  function Pow2(k: nat): (p: nat)
    ensures p >= 1
  {
    if k == 0 then 1 else 2 * Pow2(k - 1)
  }

  lemma {:induction false} MulAtLeast(k: nat, m: nat)
    ensures k >= 1 ==> k * m >= m
  {
    if k <= 1 {
    } else {
      MulAtLeast(k - 1, m);
      assert k * m == (k - 1) * m + m;
    }
  }

  lemma SmallMultiple(d: int, m: int, e: int)
    requires m > 0 && d * m == e && -m < e < m
    ensures d == 0
  {
    MulAtLeast(if d < 0 then -d else d, m);
  }

  /** Quotient and remainder are determined by the division equation. */
  lemma DivModUnique(a: int, m: int, q: int, r: int)
    requires 0 <= r < m && a == q * m + r
    ensures a / m == q && a % m == r
  {
    var q', r' := a / m, a % m;
    assert a == q' * m + r' && 0 <= r' < m;
    SmallMultiple(q - q', m, r' - r);
  }

  lemma ModDouble(a: nat, p: nat)
    requires p >= 1
    ensures a % (2 * p) == 2 * (a / 2 % p) + a % 2
    ensures a / (2 * p) == a / 2 / p
  {
    var h := a / 2;
    var q, r := h / p, h % p;
    assert h == q * p + r;
    assert a == q * (2 * p) + (2 * r + a % 2);
    DivModUnique(a, 2 * p, q, 2 * r + a % 2);
  }

  /** `a >> k`, one bit at a time: division by 2^k. */
  function Shr(a: nat, k: nat): (r: nat)
    ensures r == a / Pow2(k)
  {
    if k == 0 then a else
      ModDouble(a, Pow2(k - 1));
      Shr(a / 2, k - 1)
  }

  /** `a << k` in a word of 32 bits. */
  function Shl32(a: nat, k: nat): nat { a * Pow2(k) % 0x1_0000_0000 }

  lemma AndOdd(a: nat, b: nat)
    ensures And(a, 2 * b + 1) == a % 2 + 2 * And(a / 2, b)
  {
    assert (2 * b + 1) / 2 == b && (2 * b + 1) % 2 == 1;
  }

  lemma {:induction false} AndZero(a: nat)
    ensures And(a, 0) == 0
  {
    if a == 0 {
    } else {
      AndZero(a / 2);
    }
  }

  /** `a & (2^k - 1)` is the remainder by 2^k. */
  lemma {:induction false} AndMask(a: nat, k: nat)
    ensures And(a, Pow2(k) - 1) == a % Pow2(k)
  {
    if k == 0 {
      AndZero(a);
      hide And;
    } else {
      hide And;
      var p := Pow2(k - 1);
      AndMask(a / 2, k - 1);
      ModDouble(a, p);
      AndOdd(a, p - 1);
    }
  }

  lemma OrOdd(a: nat, b: nat)
    ensures Or(a, 2 * b + 1) == 1 + 2 * Or(a / 2, b)
  {
    assert (2 * b + 1) / 2 == b && (2 * b + 1) % 2 == 1;
  }

  lemma {:induction false} OrZero(a: nat)
    ensures Or(a, 0) == a
  {
    if a == 0 {
    } else {
      OrZero(a / 2);
    }
  }

  lemma FillDouble(a: nat, p: nat)
    requires p >= 1
    ensures 1 + 2 * (a / 2 - a / 2 % p + p - 1) == a - a % (2 * p) + 2 * p - 1
  {
    ModDouble(a, p);
  }

  /** `a | (2^k - 1)` rounds down to a multiple of 2^k and fills the rest with ones. */
  lemma {:induction false} OrMask(a: nat, k: nat)
    ensures Or(a, Pow2(k) - 1) == a - a % Pow2(k) + Pow2(k) - 1
  {
    hide Or;
    if k == 0 {
      OrZero(a);
    } else {
      var p := Pow2(k - 1);
      OrMask(a / 2, k - 1);
      OrOdd(a, p - 1);
      FillDouble(a, p);
    }
  }

  lemma SameMultiple(a: nat, b: nat, p: nat)
    requires p >= 1
    ensures a - a % p == b - b % p <==> a / p == b / p
  {
    assert a - a % p == a / p * p && b - b % p == b / p * p;
    if a - a % p == b - b % p {
      DivModUnique(a, p, b / p, a % p);
    }
  }

  /** Two words agree under `| (2^k - 1)` exactly when they lie in the same block of 2^k. */
  lemma OrMaskSame(a: nat, b: nat, k: nat)
    ensures Or(a, Pow2(k) - 1) == Or(b, Pow2(k) - 1) <==> a / Pow2(k) == b / Pow2(k)
  {
    OrMask(a, k);
    OrMask(b, k);
    SameMultiple(a, b, Pow2(k));
  }

  lemma PowersOfTwo()
    ensures Pow2(6) == 0x40 && Pow2(8) == 0x100 && Pow2(14) == 0x4000
    ensures Pow2(20) == 0x10_0000 && Pow2(26) == 0x400_0000 && Pow2(32) == 0x1_0000_0000
  {
    assert Pow2(3) == 8;
    assert Pow2(6) == 0x40;
    assert Pow2(8) == 0x100;
    assert Pow2(10) == 0x400;
    assert Pow2(12) == 0x1000;
    assert Pow2(14) == 0x4000;
    assert Pow2(16) == 0x1_0000;
    assert Pow2(20) == 0x10_0000;
    assert Pow2(24) == 0x100_0000;
    assert Pow2(26) == 0x400_0000;
    assert Pow2(30) == 0x4000_0000;
    assert Pow2(32) == 0x1_0000_0000;
  }

  /** All ones of a 32-bit word mask nothing. */
  lemma AndAllOnes(a: nat)
    requires a < 0x1_0000_0000
    ensures And(a, 0xFFFF_FFFF) == a
  {
    AndMask(a, 32);
    assert Pow2(32) == 0x1_0000_0000 by {
      PowersOfTwo();
    }
  }
}
