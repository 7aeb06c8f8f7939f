/**
 The bytes in a ring: which cell holds which position of the stream, and what storing one byte, or a
 whole transfer, does to them.
 */
module RingBytes {
  import opened RingArithmetic

  /** The ring holds the bytes from position `consumed` on, each in the cell of its position. */
  ghost predicate Holds(buf: seq<byte>, size: nat, written: seq<byte>, consumed: nat)
    requires size > 0 && |buf| == size
  {
    forall k :: consumed <= k < |written| ==> buf[k % size] == written[k]
  }

  /** The first `done` bytes of `data` are in the cells of the positions from `at` on. */
  ghost predicate Filled(buf: seq<byte>, size: nat, at: nat, data: seq<byte>, done: nat)
    requires size > 0 && |buf| == size && done <= |data|
  {
    forall i :: 0 <= i < done ==> buf[(at + i) % size] == data[i]
  }

  lemma HoldsLater(buf: seq<byte>, size: nat, written: seq<byte>, consumed: nat, later: nat)
    requires size > 0 && |buf| == size && Holds(buf, size, written, consumed) && consumed <= later
    ensures Holds(buf, size, written, later)
  {
  }

  /** Taking `n` bytes off the front of the bytes that wait. */
  lemma TakeRun(written: seq<byte>, consumed: nat, n: nat)
    requires consumed + n <= |written|
    ensures written[consumed..][n..] == written[consumed + n..]
    ensures written[consumed..][..n] == written[consumed..consumed + n]
    ensures written[..consumed] + written[consumed..consumed + n] == written[..consumed + n]
  {
  }

  /** Storing one byte at the writer's place leaves every unread and every new byte alone. */
  lemma StoreByte(buf: seq<byte>, size: nat, written: seq<byte>, consumed: nat, data: seq<byte>, done: nat)
    requires |buf| == size > 0 && consumed <= |written| && |written| + done < consumed + size && done < |data|
    requires Holds(buf, size, written, consumed) && Filled(buf, size, |written|, data, done)
    ensures var buf' := buf[(|written| + done) % size := data[done]];
            Holds(buf', size, written, consumed) && Filled(buf', size, |written|, data, done + 1)
  {
    var buf' := buf[(|written| + done) % size := data[done]];
    forall k | consumed <= k < |written| ensures buf'[k % size] == written[k] {
      CellsApart(size, k, |written| + done);
    }
    forall i | 0 <= i < done + 1 ensures buf'[(|written| + i) % size] == data[i] {
      if i < done {
        CellsApart(size, |written| + i, |written| + done);
      }
    }
  }

  /** Once the index is stored, the bytes written are part of the stream. */
  lemma Publish(buf: seq<byte>, size: nat, written: seq<byte>, consumed: nat, data: seq<byte>, len: nat)
    requires size > 0 && |buf| == size && len <= |data|
    requires Holds(buf, size, written, consumed) && Filled(buf, size, |written|, data, len)
    ensures Holds(buf, size, written + data[..len], consumed)
  {
    var longer := written + data[..len];
    forall k | consumed <= k < |longer| ensures buf[k % size] == longer[k] {
      if k >= |written| {
        assert buf[(|written| + (k - |written|)) % size] == data[k - |written|];
      }
    }
  }

  /** Loading the next unread byte continues the run of bytes read. */
  lemma LoadByte(buf: seq<byte>, size: nat, written: seq<byte>, consumed: nat, got: seq<byte>)
    requires size > 0 && |buf| == size && Holds(buf, size, written, consumed)
    requires consumed + |got| < |written| && got == written[consumed..consumed + |got|]
    ensures var k := consumed + |got|; got + [buf[k % size]] == written[consumed..k + 1]
  {
    var k := consumed + |got|;
    assert buf[k % size] == written[k];
  }
}
