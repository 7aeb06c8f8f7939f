/**
 The locked ring buffer: free-running 8-bit indices over a power-of-two array, refining a bounded
 first-in first-out queue of bytes.
 */
module RingBuffers {
  import opened RingArithmetic
  import opened RingBytes

  /** `memcpy` between two arrays. */
  method Copy(dst: array<byte>, to: nat, src: array<byte>, from: nat, n: nat)
    requires dst != src && to + n <= dst.Length && from + n <= src.Length
    modifies dst
    ensures dst[..] == old(dst[..to]) + src[from..from + n] + old(dst[to + n..])
  {
    var i := 0;
    while i < n
      invariant 0 <= i <= n
      invariant dst[..] == old(dst[..to]) + src[from..from + i] + old(dst[to + i..])
    {
      dst[to + i] := src[from + i];
      i := i + 1;
    }
  }

  lemma SizeBounds(size: nat)
    requires BufferSizes(size) && size > 0
    ensures PowerSize(size) && 1 <= size <= 128
  {
  }

  lemma PartFits(size: nat, off: nat, n: nat)
    requires off < size <= 128 && n <= size
    ensures var copy1 := Min(n, (size - off) % WORD); off + copy1 <= size && n - copy1 <= off
  {
  }

  /** Both segments of a transfer lie inside the array. */
  lemma SegmentsFit(size: nat, pos: nat, n: nat)
    requires BufferSizes(size) && n <= size
    ensures n > 0 ==> PowerSize(size)
    ensures var copy1 := FirstPart(size, pos % WORD, n);
            n > 0 ==> Offset8(size, pos % WORD) == pos % size && pos % size + copy1 <= size && n - copy1 <= pos % size
  {
    hide Offset8, PowerSize;
    if n > 0 {
      SizeBounds(size);
      TrueOffset(size, pos);
      PartFits(size, pos % size, n);
    }
  }

  lemma JoinSegments(was: seq<byte>, first: seq<byte>, second: seq<byte>, half: seq<byte>, full: seq<byte>)
    requires |first| + |second| <= |was|
    requires half == was[..0] + first + was[|first|..]
    requires full == half[..|first|] + second + half[|first| + |second|..]
    ensures full == first + second + was[|first| + |second|..]
  {
    assert half == first + was[|first|..];
  }

  lemma WrapSegments(was: seq<byte>, data: seq<byte>, off: nat, copy1: nat, n: nat, half: seq<byte>, full: seq<byte>)
    requires copy1 <= n <= |data| && n - copy1 <= off && off + copy1 <= |was|
    requires half == was[..off] + data[0..0 + copy1] + was[off + copy1..]
    requires full == half[..0] + data[copy1..copy1 + (n - copy1)] + half[0 + (n - copy1)..]
    ensures full == data[copy1..n] + was[n - copy1..off] + data[..copy1] + was[off + copy1..]
  {
    assert half[n - copy1..] == was[n - copy1..off] + data[..copy1] + was[off + copy1..];
  }

  ghost function OffsetOf(size: nat, pos: nat): nat { Offset8(size, pos % WORD) }

  lemma ReadIsRun(buf: seq<byte>, size: nat, written: seq<byte>, consumed: nat, n: nat, data: seq<byte>, was: seq<byte>)
    requires PowerSize(size) && |buf| == size && Holds(buf, size, written, consumed)
    requires 0 < n <= |written| - consumed <= size && n <= |was|
    requires var off, copy1 := OffsetOf(size, consumed), FirstPart(size, consumed % WORD, n);
             && off + copy1 <= size && n - copy1 <= size
             && data == buf[off..off + copy1] + buf[..n - copy1] + was[n..]
    ensures data[..n] == written[consumed..][..n] && data[n..] == was[n..]
  {
    forall i | 0 <= i < n ensures data[i] == written[consumed + i] {
      TrueCell(size, consumed, n, i);
      assert buf[(consumed + i) % size] == written[consumed + i];
    }
  }

  /** The cell of a new byte. */
  lemma NewCell(size: nat, pos: nat, n: nat, i: nat)
    requires PowerSize(size) && i < n <= size
    ensures var off, copy1 := OffsetOf(size, pos), FirstPart(size, pos % WORD, n);
            (pos + i) % size == if i < copy1 then off + i else i - copy1
  {
    hide Offset8, FirstPart, PowerSize;
    TrueCell(size, pos, n, i);
  }

  /** A cell that still holds an unread byte is outside both segments of the write. */
  lemma OldCell(size: nat, pos: nat, n: nat, k: nat)
    requires PowerSize(size) && 0 < n && pos + n - size <= k < pos
    ensures var off, copy1, c := OffsetOf(size, pos), FirstPart(size, pos % WORD, n), k % size;
            n - copy1 <= c < off || off + copy1 <= c < size
  {
    hide Offset8, PowerSize, FirstPart;
    SizeBounds(size);
    SegmentsFit(size, pos, Min(n, size));
    var off, copy1, c := OffsetOf(size, pos), FirstPart(size, pos % WORD, n), k % size;
    if c < n - copy1 {
      TrueCell(size, pos, n, copy1 + c);
      CellsApart(size, k, pos + copy1 + c);
    } else if off <= c < off + copy1 {
      TrueCell(size, pos, n, c - off);
      CellsApart(size, k, pos + (c - off));
    }
  }

  /** The two copies of a read, one after the other. */
  lemma ReadSegments(buf: seq<byte>, size: nat, written: seq<byte>, consumed: nat, n: nat,
                     was: seq<byte>, half: seq<byte>, full: seq<byte>)
    requires PowerSize(size) && |buf| == size && Holds(buf, size, written, consumed)
    requires 0 < n <= |written| - consumed <= size && n <= |was|
    requires var off, copy1 := OffsetOf(size, consumed), FirstPart(size, consumed % WORD, n);
             && off + copy1 <= size && n - copy1 <= size
             && half == was[..0] + buf[off..off + copy1] + was[0 + copy1..]
             && full == half[..copy1] + buf[0..0 + (n - copy1)] + half[copy1 + (n - copy1)..]
    ensures full[..n] == written[consumed..][..n] && full[n..] == was[n..]
  {
    hide OffsetOf, FirstPart, Holds, PowerSize;
    var off, copy1 := OffsetOf(size, consumed), FirstPart(size, consumed % WORD, n);
    JoinSegments(was, buf[off..off + copy1], buf[0..n - copy1], half, full);
    ReadIsRun(buf, size, written, consumed, n, full, was);
  }

  lemma WriteIsRun(was: seq<byte>, buf: seq<byte>, size: nat, written: seq<byte>, consumed: nat, n: nat,
                   data: seq<byte>)
    requires PowerSize(size) && |was| == size == |buf| && Holds(was, size, written, consumed)
    requires consumed <= |written| && 0 < n <= size - (|written| - consumed) && n <= |data|
    requires var off, copy1 := OffsetOf(size, |written|), FirstPart(size, |written| % WORD, n);
             && off + copy1 <= size && n - copy1 <= off
             && buf == data[copy1..n] + was[n - copy1..off] + data[..copy1] + was[off + copy1..]
    ensures Holds(buf, size, written + data[..n], consumed)
  {
    hide OffsetOf, FirstPart, PowerSize;
    var longer := written + data[..n];
    var off, copy1 := OffsetOf(size, |written|), FirstPart(size, |written| % WORD, n);
    forall k | consumed <= k < |longer| ensures buf[k % size] == longer[k] {
      if k >= |written| {
        NewCell(size, |written|, n, k - |written|);
      } else {
        OldCell(size, |written|, n, k);
        assert was[k % size] == written[k];
      }
    }
  }

  /** The fields stand for the stream `written`, of which `consumed` bytes have been taken out. */
  ghost predicate InRing(buf: seq<byte>, size: nat, inIdx: nat, outIdx: nat, written: seq<byte>, consumed: nat) {
    && BufferSizes(size) && |buf| == size
    && consumed <= |written| <= consumed + size
    && inIdx == |written| % WORD && outIdx == consumed % WORD
    && (size > 0 ==> Holds(buf, size, written, consumed))
  }

  /** The two 8-bit differences, and what the fields become when `n` bytes are taken out. */
  lemma RingRead(buf: seq<byte>, size: nat, inIdx: nat, outIdx: nat, written: seq<byte>, consumed: nat, n: nat)
    requires InRing(buf, size, inIdx, outIdx, written, consumed)
    ensures Length8(inIdx, outIdx) == |written| - consumed
    ensures Avail8(size, inIdx, outIdx) == size - (|written| - consumed)
    ensures n <= |written| - consumed ==> InRing(buf, size, inIdx, (outIdx + n) % WORD, written, consumed + n)
  {
    hide Length8, Avail8, Holds;
    TrueLength(size, |written|, consumed);
    WordAdd(consumed, n);
    if size > 0 {
      HoldsLater(buf, size, written, consumed, consumed + n);
    }
  }

  class RingBuffer {
    var mUIn: nat
    var mUOut: nat
    const mUSize: nat
    const mPBuffer: array<byte>

    /** History since the last `Reset`: the bytes accepted, how many of them have been taken out, the
        bytes handed to readers, and whether `ResetOut` has thrown any away. */
    ghost var written: seq<byte>
    ghost var consumed: nat
    ghost var delivered: seq<byte>
    ghost var discarded: bool

    ghost predicate Valid()
      reads this, mPBuffer
    {
      && mPBuffer.Length == mUSize && consumed <= |written|
      && InRing(mPBuffer[..], mUSize, mUIn, mUOut, written, consumed)
      && (!discarded ==> delivered == written[..consumed])
    }

    /** The bytes waiting to be read, oldest first. */
    ghost function Contents(): seq<byte>
      requires consumed <= |written|
      reads this
    {
      written[consumed..]
    }

    constructor (size: nat)
      requires size < WORD
      ensures Valid() && fresh(mPBuffer) && Contents() == []
      ensures PowerSize(mUSize) <==> 1 <= size <= 128
      ensures 1 <= size <= 128 ==> mUSize >= size && forall p: nat :: PowerSize(p) && p >= size ==> mUSize <= p
    {
      var n := RoundUpPowOfTwo(size);
      mUIn, mUOut := 0, 0;
      mUSize := n;
      mPBuffer := new byte[n];
      written, consumed, delivered, discarded := [], 0, [], false;
    }

    method GetLen() returns (n: nat)
      requires Valid()
      ensures n == |Contents()|
    {
      TrueLength(mUSize, |written|, consumed);
      n := Length8(mUIn, mUOut);
    }

    method GetAvail() returns (n: nat)
      requires Valid()
      ensures n == mUSize - |Contents()|
    {
      TrueLength(mUSize, |written|, consumed);
      n := Avail8(mUSize, mUIn, mUOut);
    }

    method IsEmpty() returns (b: bool)
      requires Valid()
      ensures b <==> Contents() == []
    {
      TrueLength(mUSize, |written|, consumed);
      b := mUIn == mUOut;
    }

    method IsFull() returns (b: bool)
      requires Valid()
      ensures b <==> |Contents()| == mUSize
    {
      TrueLength(mUSize, |written|, consumed);
      b := mUSize == Length8(mUIn, mUOut);
    }

    /** Throw the waiting bytes away. */
    method ResetOut()
      requires Valid()
      modifies this`mUOut, this`consumed, this`discarded
      ensures Valid() && Contents() == [] && written == old(written) && delivered == old(delivered)
    {
      mUOut := mUIn;
      consumed, discarded := |written|, true;
    }

    /** Restart both counters. */
    method Reset()
      requires Valid()
      modifies this
      ensures Valid() && Contents() == []
    {
      mUIn, mUOut := 0, 0;
      written, consumed, delivered, discarded := [], 0, [], false;
    }

    /** The two `memcpy` calls of `ReadData`. */
    method CopyOut(data: array<byte>, n: nat)
      requires mPBuffer.Length == mUSize && InRing(mPBuffer[..], mUSize, mUIn, mUOut, written, consumed)
      requires data != mPBuffer && n <= |written| - consumed && n <= data.Length
      modifies data
      ensures data[..n] == written[consumed..][..n] && data[n..] == old(data[n..])
    {
      hide Offset8, FirstPart, Holds, BufferSizes, PowerSize;
      var off := Offset8(mUSize, mUOut);
      var copy1 := FirstPart(mUSize, mUOut, n);
      SegmentsFit(mUSize, consumed, n);
      if n > 0 {
        Copy(data, 0, mPBuffer, off, copy1);
        ghost var half := data[..];
        Copy(data, copy1, mPBuffer, 0, n - copy1);
        ReadSegments(mPBuffer[..], mUSize, written, consumed, n, old(data[..]), half, data[..]);
      }
    }

    /** Take the first min(len, used) waiting bytes. */
    method ReadData(data: array<byte>, len: nat) returns (n: nat)
      requires Valid() && data != mPBuffer && len < WORD && len <= data.Length
      modifies this`mUOut, this`consumed, this`delivered, data
      ensures Valid() && written == old(written)
      ensures var q := old(Contents());
              n == Min(len, |q|) && data[..n] == q[..n] && Contents() == q[n..]
      ensures data[n..] == old(data[n..]) && delivered == old(delivered) + data[..n]
    {
      hide Length8, Avail8, InRing;
      RingRead(mPBuffer[..], mUSize, mUIn, mUOut, written, consumed, Min(|written| - consumed, len));
      n := Min(Length8(mUIn, mUOut), len);
      TakeRun(written, consumed, n);
      CopyOut(data, n);
      ghost var got := data[..n];
      mUOut := (mUOut + n) % WORD;
      delivered, consumed := delivered + got, consumed + n;
      assert data[..n] == got;
    }

    /** The two `memcpy` calls of `WriteData`. */
    method CopyIn(data: array<byte>, n: nat)
      requires BufferSizes(mUSize) && mPBuffer.Length == mUSize && mUIn == |written| % WORD
      requires mUSize > 0 ==> Holds(mPBuffer[..], mUSize, written, consumed)
      requires data != mPBuffer && consumed <= |written| && n <= mUSize - (|written| - consumed) && n <= data.Length
      modifies mPBuffer
      ensures mUSize > 0 ==> Holds(mPBuffer[..], mUSize, written + data[..n], consumed)
    {
      hide Offset8, FirstPart, Holds, BufferSizes, PowerSize;
      var off := Offset8(mUSize, mUIn);
      var copy1 := FirstPart(mUSize, mUIn, n);
      SegmentsFit(mUSize, |written|, n);
      if n > 0 {
        Copy(mPBuffer, off, data, 0, copy1);
        ghost var half := mPBuffer[..];
        Copy(mPBuffer, 0, data, copy1, n - copy1);
        WrapSegments(old(mPBuffer[..]), data[..], off, copy1, n, half, mPBuffer[..]);
        WriteIsRun(old(mPBuffer[..]), mPBuffer[..], mUSize, written, consumed, n, data[..]);
      } else {
        assert written + data[..n] == written;
      }
    }

    /** Accept the first min(len, free) bytes. */
    method WriteData(data: array<byte>, len: nat) returns (n: nat)
      requires Valid() && data != mPBuffer && len < WORD && len <= data.Length
      modifies this`mUIn, this`written, mPBuffer
      ensures Valid() && consumed == old(consumed)
      ensures n == Min(len, mUSize - |old(Contents())|)
      ensures Contents() == old(Contents()) + data[..n] && written == old(written) + data[..n]
    {
      hide Length8, Avail8, Holds, BufferSizes;
      TrueLength(mUSize, |written|, consumed);
      WordAdd(|written|, Min(mUSize - (|written| - consumed), len));
      n := Min(Avail8(mUSize, mUIn, mUOut), len);
      CopyIn(data, n);
      mUIn := (mUIn + n) % WORD;
      written := written + data[..n];
    }
  }
}
