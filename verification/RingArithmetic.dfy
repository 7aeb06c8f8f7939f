/**
 The arithmetic under the ring buffers: free-running 8-bit counters, a power-of-two size, and a copy
 in two segments.
 */
module RingArithmetic {
  import opened Bits

  /** `BufferSize` is `unsigned char`. */
  const WORD: nat := 256

  type byte = x: int | 0 <= x < 256

  predicate PowerSize(size: nat) {
    size == 1 || size == 2 || size == 4 || size == 8 || size == 16 || size == 32 || size == 64 || size == 128
  }

  /** The sizes `RoundUpPowOfTwo` can return; 0 is what 256 wraps to. */
  predicate BufferSizes(size: nat) {
    size == 0 || PowerSize(size)
  }

  function Min(a: nat, b: nat): (r: nat)
    ensures r <= a && r <= b && (r == a || r == b)
  {
    if b < a then b else a
  }

  /** `BufferSize(in - out)`. */
  function Length8(inPos: nat, outPos: nat): (n: nat)
    ensures n < WORD
  {
    (inPos - outPos) % WORD
  }

  /** `BufferSize(size - in + out)`. */
  function Avail8(size: nat, inPos: nat, outPos: nat): (n: nat)
    ensures n < WORD
  {
    (size - inPos + outPos) % WORD
  }

  /** `pos & (size - 1)`; for size 0 the mask is the `int` -1. */
  function Offset8(size: nat, pos: nat): nat {
    And(pos, (size - 1) % 0x1_0000_0000)
  }

  /** `BufferSize(size - off)`, cut to `len`: the length of the first segment. */
  function FirstPart(size: nat, pos: nat, len: nat): (n: nat)
    ensures n <= len
  {
    Min(len, (size - Offset8(size, pos)) % WORD)
  }

  /** The buffer index of byte `i` of a transfer of `len` bytes that starts at counter value `pos`. */
  function Cell(size: nat, pos: nat, len: nat, i: nat): int {
    var copy1 := FirstPart(size, pos, len);
    if i < copy1 then Offset8(size, pos) + i else i - copy1
  }

  lemma RoomWord(size: nat, a: nat, c: nat)
    requires c <= a <= c + size && size < WORD
    ensures (size - a % WORD + c % WORD) % WORD == size - (a - c)
  {
    var p, q := a / 256, c / 256;
    assert a == 256 * p + a % 256 && c == 256 * q + c % 256;
    assert size - a % 256 + c % 256 == size - (a - c) + 256 * (p - q);
  }

  lemma TrueDistance(a: nat, b: nat)
    requires b <= a < b + WORD
    ensures (a % WORD - b % WORD) % WORD == a - b
  {
  }

  /** Counters are unbounded positions modulo 256; their 8-bit difference is the true distance. */
  lemma TrueLength(size: nat, written: nat, consumed: nat)
    requires BufferSizes(size) && consumed <= written <= consumed + size
    ensures Length8(written % WORD, consumed % WORD) == written - consumed
    ensures Avail8(size, written % WORD, consumed % WORD) == size - (written - consumed)
  {
    TrueDistance(written, consumed);
    RoomWord(size, written, consumed);
  }

  lemma WordAdd(a: nat, n: nat)
    ensures (a % WORD + n) % WORD == (a + n) % WORD
  {
  }

  lemma SizePower()
    ensures Pow2(0) == 1 && Pow2(1) == 2 && Pow2(2) == 4 && Pow2(3) == 8
    ensures Pow2(4) == 16 && Pow2(5) == 32 && Pow2(6) == 64 && Pow2(7) == 128
  {
    assert Pow2(3) == 8;
    assert Pow2(5) == 32;
  }

  lemma MulSwap(c: nat, w: nat, size: nat)
    ensures c * w * size == w * (size * c)
  {
  }

  lemma WrapMultiple(size: nat, c: nat, pos: nat)
    requires size >= 1 && size * c == WORD
    ensures pos % WORD % size == pos % size
  {
    var w, r := pos / WORD, pos % WORD;
    var q, s := r / size, r % size;
    assert r == q * size + s;
    MulSwap(c, w, size);
    assert pos == (c * w + q) * size + s;
    DivModUnique(pos, size, c * w + q, s);
  }

  lemma WrapDivides(size: nat, pos: nat)
    requires PowerSize(size)
    ensures pos % WORD % size == pos % size
  {
    var c := if size == 1 then 256 else if size == 2 then 128 else if size == 4 then 64 else if size == 8 then 32
             else if size == 16 then 16 else if size == 32 then 8 else if size == 64 then 4 else 2;
    WrapMultiple(size, c, pos);
  }

  /** The 8-bit offset of a counter is the unbounded position modulo the size, across the 256 wrap. */
  lemma TrueOffset(size: nat, pos: nat)
    requires PowerSize(size)
    ensures Offset8(size, pos % WORD) == pos % size
  {
    var k := if size == 1 then 0 else if size == 2 then 1 else if size == 4 then 2 else if size == 8 then 3
             else if size == 16 then 4 else if size == 32 then 5 else if size == 64 then 6 else 7;
    SizePower();
    AndMask(pos % WORD, k);
    WrapDivides(size, pos);
  }

  lemma Segments(size: nat, off: nat, len: nat, i: nat)
    requires off < size <= 128 && i < len <= size
    ensures var copy1 := Min(len, (size - off) % WORD);
            (if i < copy1 then off + i else i - copy1) == if off + i < size then off + i else off + i - size
  {
  }

  lemma RoundRing(size: nat, pos: nat, i: nat)
    requires size >= 1 && i <= size
    ensures var off := pos % size; (pos + i) % size == if off + i < size then off + i else off + i - size
  {
    var q, off := pos / size, pos % size;
    assert pos == q * size + off;
    if off + i < size {
      DivModUnique(pos + i, size, q, off + i);
    } else {
      DivModUnique(pos + i, size, q + 1, off + i - size);
    }
  }

  /** The two segments together are one run of cells around the ring. */
  lemma TrueCell(size: nat, pos: nat, len: nat, i: nat)
    requires PowerSize(size) && i < len <= size
    ensures Cell(size, pos % WORD, len, i) == (pos + i) % size
  {
    TrueOffset(size, pos);
    RoundRing(size, pos, i);
    Segments(size, pos % size, len, i);
    hide Offset8;
  }

  /** Positions less than one round apart lie in different cells. */
  lemma CellsApart(size: nat, a: nat, b: nat)
    requires size >= 1 && a < b < a + size
    ensures a % size != b % size
  {
    if a % size == b % size {
      var d := b / size - a / size;
      assert a == a / size * size + a % size && b == b / size * size + b % size;
      assert d * size == b - a;
      SmallMultiple(d, size, b - a);
    }
  }

  lemma HalfBits(val: nat, k: nat)
    requires k <= 7 && val < 256 && val / 2 / Pow2(k) != 0
    ensures k < 7 && val / 2 / Pow2(k) / 2 == val / 2 / Pow2(k + 1)
    ensures Shr(val / 2 / Pow2(k), 1) == val / 2 / Pow2(k) / 2
  {
    SizePower();
    assert Pow2(1) == 2;
  }

  lemma BitLength(val: nat, k: nat)
    requires k <= 7 && 0 < val < 256 && val / 2 / Pow2(k) == 0
    requires k > 0 ==> val / 2 / Pow2(k - 1) != 0
    ensures Pow2(k) <= val < Pow2(k + 1)
  {
    SizePower();
    assert Pow2(8) == 256;
  }

  /** 2^pos is the least power of two above `size - 1`, taken as an 8-bit number. */
  lemma LeastPower(size: nat, pos: nat, r: nat)
    requires size < WORD && pos <= 8 && r == Pow2(pos) % WORD
    requires var val := (size - 1) % WORD; val < Pow2(pos) && (if pos == 0 then val == 0 else Pow2(pos - 1) <= val)
    ensures BufferSizes(r) && (PowerSize(r) <==> 1 <= size <= 128)
    ensures 1 <= size <= 128 ==> r >= size && forall p: nat :: PowerSize(p) && p >= size ==> r <= p
  {
    SizePower();
    assert Pow2(8) == 256;
    hide Pow2;
    if pos < 5 {
      assert pos == 0 || pos == 1 || pos == 2 || pos == 3 || pos == 4;
    } else {
      assert pos == 5 || pos == 6 || pos == 7 || pos == 8;
    }
  }

  /** `RoundUpPowOfTwo`: for 1..128 the least power of two that is no smaller; everything else gives 0. */
  method RoundUpPowOfTwo(size: nat) returns (r: nat)
    requires size < WORD
    ensures BufferSizes(r)
    ensures PowerSize(r) <==> 1 <= size <= 128
    ensures 1 <= size <= 128 ==> r >= size && forall p: nat :: PowerSize(p) && p >= size ==> r <= p
  {
    var val := (size - 1) % WORD;
    var pos: nat := 1;
    SizePower();
    assert Pow2(8) == 256;
    if val != 0 {
      var i := Shr(val, 1);
      ghost var k: nat := 0;
      while i != 0
        invariant k <= 7 && pos == k + 1
        invariant i == val / 2 / Pow2(k)
        invariant k > 0 ==> val / 2 / Pow2(k - 1) != 0
        decreases i
      {
        HalfBits(val, k);
        i := Shr(i, 1);
        pos := pos + 1;
        k := k + 1;
      }
      BitLength(val, k);
    } else {
      pos := pos - 1;
    }
    r := Pow2(pos) % WORD;
    LeastPower(size, pos, r);
    hide Pow2, PowerSize;
  }
}
