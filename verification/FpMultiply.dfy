/**
 The product of two 64-bit significands, rounded to the nearest multiple of 2^64, from four 32-bit
 multiplications that never leave 64 bits.
 */
module FpMultiply {
  const B32: nat := 0x1_0000_0000
  const B64: nat := 0x1_0000_0000_0000_0000

  datatype Fp = Fp(f: nat, e: int)

  function Combine(ac: nat, ad: nat, bc: nat, bd: nat): nat {
    var mid := (bd / B32 + ad % B32 + bc % B32 + 0x8000_0000) % B64;
    (ac + ad / B32 + bc / B32 + mid / B32) % B64
  }

  /** `operator*` on 64-bit words; every `uint64_t` operation is reduced modulo 2^64. */
  function Times(x: Fp, y: Fp): Fp
    requires x.f < B64 && y.f < B64
  {
    var a, b, c, d := x.f / B32, x.f % B32, y.f / B32, y.f % B32;
    Fp(Combine(a * c % B64, a * d % B64, b * c % B64, b * d % B64), x.e + y.e + 64)
  }

  lemma MulMonotone(a: nat, top: nat, b: nat)
    requires a <= top
    ensures 0 <= a * b <= top * b
  {
    assert top * b == a * b + (top - a) * b;
  }

  lemma ProductBound(a: nat, b: nat)
    requires a < B32 && b < B32
    ensures 0 <= a * b <= (B32 - 1) * (B32 - 1)
  {
    MulMonotone(a, B32 - 1, b);
  }

  /** The schoolbook product in base 2^32. */
  lemma Expand(a: nat, b: nat, c: nat, d: nat)
    ensures (a * B32 + b) * (c * B32 + d) == a * c * B64 + (a * d + b * c) * B32 + b * d
  {
    assert (a * B32 + b) * (c * B32 + d) == a * B32 * (c * B32 + d) + b * (c * B32 + d);
    assert a * B32 * (c * B32 + d) == a * c * B64 + a * d * B32;
    assert b * (c * B32 + d) == b * c * B32 + b * d;
  }

  /** With the partial products as plain numbers: adding up the pieces and dropping the low half of `bd`
      gives the rounded quotient. */
  lemma Assemble(ac: nat, ad: nat, bc: nat, bd: nat)
    ensures var mid := bd / B32 + ad % B32 + bc % B32 + 0x8000_0000;
            (ac * B64 + (ad + bc) * B32 + bd + B64 / 2) / B64 == ac + ad / B32 + bc / B32 + mid / B32
  {
    var mid := bd / B32 + ad % B32 + bc % B32 + 0x8000_0000;
    var high, low := mid / B32, mid % B32 * B32 + bd % B32;
    assert ad == ad / B32 * B32 + ad % B32 && bc == bc / B32 * B32 + bc % B32 && bd == bd / B32 * B32 + bd % B32;
    assert ac * B64 + (ad + bc) * B32 + bd + B64 / 2
        == (ac + ad / B32 + bc / B32 + high) * B64 + low;
  }

  /** The sum of the high parts still fits 64 bits. */
  lemma NoWrap(ac: nat, ad: nat, bc: nat, bd: nat)
    requires ac <= (B32 - 1) * (B32 - 1) && ad <= (B32 - 1) * (B32 - 1)
    requires bc <= (B32 - 1) * (B32 - 1) && bd <= (B32 - 1) * (B32 - 1)
    ensures var mid := bd / B32 + ad % B32 + bc % B32 + 0x8000_0000;
            mid < B64 && ac + ad / B32 + bc / B32 + mid / B32 < B64
  {
  }

  lemma Unchanged(ac: nat, ad: nat, bc: nat, bd: nat)
    requires ac <= (B32 - 1) * (B32 - 1) && ad <= (B32 - 1) * (B32 - 1)
    requires bc <= (B32 - 1) * (B32 - 1) && bd <= (B32 - 1) * (B32 - 1)
    ensures ac % B64 == ac && ad % B64 == ad && bc % B64 == bc && bd % B64 == bd
  {
  }

  /** The nearest multiple of 2^64, halves upwards. */
  function Rounded(product: nat): nat { (product + B64 / 2) / B64 }

  lemma SmallMod(n: nat)
    requires n < B64
    ensures n % B64 == n
  {
  }

  /** The four partial products determine the result: none of the reductions modulo 2^64 changes anything. */
  lemma Finish(ac: nat, ad: nat, bc: nat, bd: nat)
    requires ac <= (B32 - 1) * (B32 - 1) && ad <= (B32 - 1) * (B32 - 1)
    requires bc <= (B32 - 1) * (B32 - 1) && bd <= (B32 - 1) * (B32 - 1)
    ensures Combine(ac, ad, bc, bd) == Rounded(ac * B64 + (ad + bc) * B32 + bd)
  {
    Assemble(ac, ad, bc, bd);
    NoWrap(ac, ad, bc, bd);
    SmallMod(bd / B32 + ad % B32 + bc % B32 + 0x8000_0000);
    SmallMod(ac + ad / B32 + bc / B32 + (bd / B32 + ad % B32 + bc % B32 + 0x8000_0000) / B32);
  }

  /** The result is floor((x.f * y.f + 2^63) / 2^64), the product rounded half up, for all significands;
      and no 64-bit operation on the way wraps. */
  lemma TimesRounds(x: Fp, y: Fp)
    requires x.f < B64 && y.f < B64
    ensures Times(x, y).f == (x.f * y.f + 0x8000_0000_0000_0000) / 0x1_0000_0000_0000_0000
    ensures Times(x, y).e == x.e + y.e + 64
  {
    assert Rounded(x.f * y.f) == (x.f * y.f + 0x8000_0000_0000_0000) / 0x1_0000_0000_0000_0000;
    hide Combine, Rounded;
    var a, b, c, d := x.f / B32, x.f % B32, y.f / B32, y.f % B32;
    ProductBound(a, c);
    ProductBound(b, c);
    ProductBound(a, d);
    ProductBound(b, d);
    Finish(a * c, a * d, b * c, b * d);
    Unchanged(a * c, a * d, b * c, b * d);
    assert x.f == a * B32 + b && y.f == c * B32 + d;
    Expand(a, b, c, d);
  }
}
