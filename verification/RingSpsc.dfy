/**
 The lock-free ring buffer with one producer and one consumer, as interleaved steps: load of the own
 index, load of the other index, one-byte copies, store of the own index.

 Acquire and release atomics are read as sequentially consistent steps.  The run starts in the state
 `Reset` leaves; `written`, `consumed` and `taken` are history.
 */
module RingSpsc {
  import opened RingArithmetic
  import opened RingBytes

  datatype Producer =
    | PIdle
    | PLoaded(data: seq<byte>, inPos: nat)
    | PCopying(data: seq<byte>, inPos: nat, len: nat, done: nat)

  /** `target` is the unbounded position behind the loaded `inPos`. */
  datatype Consumer =
    | CIdle
    | CLoaded(want: nat, outPos: nat)
    | CCopying(outPos: nat, len: nat, got: seq<byte>)
    | RLoaded(outPos: nat)
    | RStoring(inPos: nat, target: nat)

  /** What one consumer call took out of the stream: the bytes `ReadData` returned, or a run of bytes
      `ResetOut` skipped. */
  datatype Taken = Read(bytes: seq<byte>) | Skipped(count: nat)

  datatype State = State(
    size: nat, buf: seq<byte>, inIdx: nat, outIdx: nat, p: Producer, c: Consumer,
    written: seq<byte>, consumed: nat, taken: seq<Taken>)

  ghost predicate Init(s: State) {
    && BufferSizes(s.size) && |s.buf| == s.size
    && s.inIdx == 0 && s.outIdx == 0 && s.p == PIdle && s.c == CIdle
    && s.written == [] && s.consumed == 0 && s.taken == []
  }

  // WriteData, by the producer.

  ghost predicate LoadIn(s: State, s': State, data: seq<byte>) {
    && s.p.PIdle? && |data| < WORD
    && s' == s.(p := PLoaded(data, s.inIdx))
  }

  /** Load `m_uOut`, compute the room, return at once if there is none. */
  ghost predicate LoadOut(s: State, s': State) {
    && s.p.PLoaded?
    && var len := Min(Avail8(s.size, s.p.inPos, s.outIdx), |s.p.data|);
       s' == s.(p := if len == 0 then PIdle else PCopying(s.p.data, s.p.inPos, len, 0))
  }

  ghost predicate CopyByteIn(s: State, s': State) {
    && s.p.PCopying? && s.p.done < s.p.len <= |s.p.data|
    && var cell := Cell(s.size, s.p.inPos, s.p.len, s.p.done);
       && 0 <= cell < |s.buf|
       && s' == s.(p := s.p.(done := s.p.done + 1), buf := s.buf[cell := s.p.data[s.p.done]])
  }

  ghost predicate StoreIn(s: State, s': State) {
    && s.p.PCopying? && s.p.done == s.p.len <= |s.p.data|
    && s' == s.(p := PIdle, inIdx := (s.p.inPos + s.p.len) % WORD, written := s.written + s.p.data[..s.p.len])
  }

  // ReadData, by the consumer.

  ghost predicate LoadOwnOut(s: State, s': State, want: nat) {
    && s.c.CIdle? && want < WORD
    && s' == s.(c := CLoaded(want, s.outIdx))
  }

  ghost predicate LoadOtherIn(s: State, s': State) {
    && s.c.CLoaded?
    && var len := Min(Length8(s.inIdx, s.c.outPos), s.c.want);
       s' == s.(c := if len == 0 then CIdle else CCopying(s.c.outPos, len, []))
  }

  ghost predicate CopyByteOut(s: State, s': State) {
    && s.c.CCopying? && |s.c.got| < s.c.len
    && var cell := Cell(s.size, s.c.outPos, s.c.len, |s.c.got|);
       && 0 <= cell < |s.buf|
       && s' == s.(c := s.c.(got := s.c.got + [s.buf[cell]]))
  }

  ghost predicate StoreOut(s: State, s': State) {
    && s.c.CCopying? && |s.c.got| == s.c.len
    && s' == s.(c := CIdle, outIdx := (s.c.outPos + s.c.len) % WORD,
                consumed := s.consumed + s.c.len, taken := s.taken + [Read(s.c.got)])
  }

  // ResetOut, by the consumer.

  ghost predicate ResetLoadOut(s: State, s': State) {
    s.c.CIdle? && s' == s.(c := RLoaded(s.outIdx))
  }

  ghost predicate ResetLoadIn(s: State, s': State) {
    s.c.RLoaded? && s' == s.(c := RStoring(s.inIdx, |s.written|))
  }

  ghost predicate ResetStore(s: State, s': State) {
    && s.c.RStoring? && s.consumed <= s.c.target
    && s' == s.(c := CIdle, outIdx := s.c.inPos, consumed := s.c.target,
                taken := s.taken + [Skipped(s.c.target - s.consumed)])
  }

  ghost predicate ProducerStep(s: State, s': State) {
    (exists data :: LoadIn(s, s', data)) || LoadOut(s, s') || CopyByteIn(s, s') || StoreIn(s, s')
  }

  ghost predicate ConsumerStep(s: State, s': State) {
    || (exists want :: LoadOwnOut(s, s', want)) || LoadOtherIn(s, s') || CopyByteOut(s, s') || StoreOut(s, s')
    || ResetLoadOut(s, s') || ResetLoadIn(s, s') || ResetStore(s, s')
  }

  ghost predicate Step(s: State, s': State) {
    ProducerStep(s, s') || ConsumerStep(s, s')
  }

  /** The step from state `k` to the next. */
  ghost predicate StepAt(run: seq<State>, k: nat)
    requires k + 1 < |run|
  {
    Step(run[k], run[k + 1])
  }

  ghost predicate IsRun(run: seq<State>) {
    && run != [] && Init(run[0])
    && forall k: nat :: k + 1 < |run| ==> StepAt(run, k)
  }

  // The invariant.

  /** Bytes waiting between the two indices. */
  ghost function Used(s: State): int { |s.written| - s.consumed }

  ghost predicate Counters(s: State) {
    && BufferSizes(s.size) && |s.buf| == s.size
    && 0 <= Used(s) <= s.size
    && s.inIdx == |s.written| % WORD && s.outIdx == s.consumed % WORD
  }

  /** The room the producer found is still there. */
  ghost predicate ProducerRoom(s: State) {
    match s.p
    case PIdle => true
    case PLoaded(data, inPos) => inPos == s.inIdx && |data| < WORD
    case PCopying(data, inPos, len, done) =>
      inPos == s.inIdx && done <= len <= |data| && 0 < len && Used(s) + len <= s.size
  }

  /** The data the consumer found is still there. */
  ghost predicate ConsumerData(s: State) {
    match s.c
    case CIdle => true
    case CLoaded(want, outPos) => outPos == s.outIdx
    case CCopying(outPos, len, got) => outPos == s.outIdx && 0 < len <= Used(s) && |got| <= len
    case RLoaded(outPos) => outPos == s.outIdx
    case RStoring(inPos, target) => s.consumed <= target <= |s.written| && inPos == target % WORD
  }

  /** The cells between the indices hold the waiting bytes, the producer's progress is in place, and the
      consumer has read the right bytes. */
  ghost predicate Bytes(s: State)
    requires |s.buf| == s.size
  {
    && (s.size > 0 ==> Holds(s.buf, s.size, s.written, s.consumed))
    && (s.size > 0 && s.p.PCopying? && s.p.done <= |s.p.data| ==>
          Filled(s.buf, s.size, |s.written|, s.p.data, s.p.done))
    && (s.c.CCopying? ==>
          s.consumed + |s.c.got| <= |s.written| && s.c.got == s.written[s.consumed..s.consumed + |s.c.got|])
  }

  ghost function TakenLength(t: Taken): nat {
    match t
    case Read(bytes) => |bytes|
    case Skipped(count) => count
  }

  /** From stream position `at`, `taken` accounts for the stream up to `end`, each read returning exactly
      the bytes at its position. */
  ghost predicate Accounts(written: seq<byte>, taken: seq<Taken>, at: nat, end: nat)
    decreases |taken|
  {
    if taken == [] then at == end
    else
      var t := taken[0];
      && at + TakenLength(t) <= |written|
      && (t.Read? ==> t.bytes == written[at..at + |t.bytes|])
      && Accounts(written, taken[1..], at + TakenLength(t), end)
  }

  ghost predicate Inv(s: State) {
    Counters(s) && ProducerRoom(s) && ConsumerData(s) && Bytes(s) && Accounts(s.written, s.taken, 0, s.consumed)
  }

  lemma {:induction false} AccountsAppend(written: seq<byte>, taken: seq<Taken>, at: nat, end: nat, t: Taken)
    requires Accounts(written, taken, at, end)
    requires end + TakenLength(t) <= |written|
    requires t.Read? ==> t.bytes == written[end..end + |t.bytes|]
    ensures Accounts(written, taken + [t], at, end + TakenLength(t))
    decreases |taken|
  {
    if taken == [] {
      assert [t][1..] == [];
    } else {
      AccountsAppend(written, taken[1..], at + TakenLength(taken[0]), end, t);
      assert (taken + [t])[1..] == taken[1..] + [t];
    }
  }

  lemma {:induction false} AccountsGrow(written: seq<byte>, more: seq<byte>, taken: seq<Taken>, at: nat, end: nat)
    requires Accounts(written, taken, at, end)
    ensures Accounts(written + more, taken, at, end)
    decreases |taken|
  {
    if taken == [] {
    } else {
      AccountsGrow(written, more, taken[1..], at + TakenLength(taken[0]), end);
      if taken[0].Read? {
        assert (written + more)[at..at + |taken[0].bytes|] == written[at..at + |taken[0].bytes|];
      }
    }
  }

  /** The region the producer is filling and the region of unread bytes do not meet. */
  lemma RegionsApart(s: State, i: nat, k: nat)
    requires Counters(s) && ProducerRoom(s) && s.p.PCopying? && i < s.p.len
    requires s.consumed <= k < |s.written|
    ensures s.size > 0 && (|s.written| + i) % s.size != k % s.size
  {
    CellsApart(s.size, k, |s.written| + i);
  }

  lemma CopyInKeeps(s: State, s': State)
    requires Inv(s) && CopyByteIn(s, s')
    ensures Inv(s')
  {
    hide Cell, Accounts, TakenLength, Length8, Avail8, Holds, Filled;
    TrueCell(s.size, |s.written|, s.p.len, s.p.done);
    StoreByte(s.buf, s.size, s.written, s.consumed, s.p.data, s.p.done);
  }

  lemma StoreInKeeps(s: State, s': State)
    requires Inv(s) && StoreIn(s, s')
    ensures Inv(s')
  {
    hide Cell, Accounts, TakenLength, Length8, Avail8, BufferSizes, Holds, Filled;
    WordAdd(|s.written|, s.p.len);
    AccountsGrow(s.written, s.p.data[..s.p.len], s.taken, 0, s.consumed);
    Publish(s.buf, s.size, s.written, s.consumed, s.p.data, s.p.len);
  }

  lemma LoadOutKeeps(s: State, s': State)
    requires Inv(s) && LoadOut(s, s')
    ensures Inv(s')
  {
    TrueLength(s.size, |s.written|, s.consumed);
  }

  lemma LoadOtherInKeeps(s: State, s': State)
    requires Inv(s) && LoadOtherIn(s, s')
    ensures Inv(s')
  {
    TrueLength(s.size, |s.written|, s.consumed);
  }

  lemma CopyOutKeeps(s: State, s': State)
    requires Inv(s) && CopyByteOut(s, s')
    ensures Inv(s')
  {
    hide Cell, Accounts, TakenLength, Length8, Avail8, Holds, Filled;
    TrueCell(s.size, s.consumed, s.c.len, |s.c.got|);
    LoadByte(s.buf, s.size, s.written, s.consumed, s.c.got);
  }

  lemma StoreOutKeeps(s: State, s': State)
    requires Inv(s) && StoreOut(s, s')
    ensures Inv(s')
  {
    hide Cell, Accounts, Length8, Avail8, BufferSizes;
    WordAdd(s.consumed, s.c.len);
    AccountsAppend(s.written, s.taken, 0, s.consumed, Read(s.c.got));
  }

  lemma ResetStoreKeeps(s: State, s': State)
    requires Inv(s) && ResetStore(s, s')
    ensures Inv(s')
  {
    hide Cell, Accounts, Length8, Avail8, BufferSizes;
    AccountsAppend(s.written, s.taken, 0, s.consumed, Skipped(s.c.target - s.consumed));
  }

  /** The loads that only note an index. */
  lemma LoadKeeps(s: State, s': State)
    requires Inv(s)
    requires || (exists data :: LoadIn(s, s', data)) || (exists want :: LoadOwnOut(s, s', want))
             || ResetLoadOut(s, s') || ResetLoadIn(s, s')
    ensures Inv(s')
  {
    hide Cell, Accounts, TakenLength, Length8, Avail8, BufferSizes;
  }

  lemma StepKeeps(s: State, s': State)
    requires Inv(s) && Step(s, s')
    ensures Inv(s')
  {
    hide Inv;
    if LoadOut(s, s') {
      LoadOutKeeps(s, s');
    } else if CopyByteIn(s, s') {
      CopyInKeeps(s, s');
    } else if StoreIn(s, s') {
      StoreInKeeps(s, s');
    } else if LoadOtherIn(s, s') {
      LoadOtherInKeeps(s, s');
    } else if CopyByteOut(s, s') {
      CopyOutKeeps(s, s');
    } else if StoreOut(s, s') {
      StoreOutKeeps(s, s');
    } else if ResetStore(s, s') {
      ResetStoreKeeps(s, s');
    } else {
      LoadKeeps(s, s');
    }
  }

  lemma {:induction false} RunInv(run: seq<State>, k: nat)
    requires IsRun(run) && k < |run|
    ensures Inv(run[k])
  {
    if k == 0 {
    } else {
      RunInv(run, k - 1);
      assert StepAt(run, k - 1);
      StepKeeps(run[k - 1], run[k]);
    }
  }

  // What every run guarantees.

  ghost function Delivered(taken: seq<Taken>): seq<byte> {
    if taken == [] then []
    else (if taken[0].Read? then taken[0].bytes else []) + Delivered(taken[1..])
  }

  lemma {:induction false} ReadsArePrefix(written: seq<byte>, taken: seq<Taken>, at: nat, end: nat)
    requires Accounts(written, taken, at, end) && at <= |written|
    requires forall t :: t in taken ==> t.Read?
    ensures at <= end <= |written| && Delivered(taken) == written[at..end]
    decreases |taken|
  {
    if taken == [] {
    } else {
      var next := at + TakenLength(taken[0]);
      ReadsArePrefix(written, taken[1..], next, end);
      assert written[at..end] == written[at..next] + written[next..end];
    }
  }

  /** In every interleaving, what `ReadData` has returned so far is, concatenated, a prefix of what
      `WriteData` has accepted so far. */
  lemma DeliversAPrefix(run: seq<State>)
    requires IsRun(run)
    requires forall t :: t in run[|run| - 1].taken ==> t.Read?
    ensures Delivered(run[|run| - 1].taken) <= run[|run| - 1].written
  {
    var s := run[|run| - 1];
    RunInv(run, |run| - 1);
    ReadsArePrefix(s.written, s.taken, 0, s.consumed);
  }

  /** With `ResetOut` in the mix, reads and skips still tile the accepted stream from its start: every
      read returns exactly the bytes at its place. */
  lemma TilesTheStream(run: seq<State>)
    requires IsRun(run)
    ensures var s := run[|run| - 1]; Accounts(s.written, s.taken, 0, s.consumed) && s.consumed <= |s.written|
  {
    RunInv(run, |run| - 1);
  }

  /** In every reachable state the cells being filled and the cells being read are disjoint. */
  lemma CopiesNeverOverlap(run: seq<State>, i: nat, j: nat)
    requires IsRun(run)
    requires var s := run[|run| - 1]; s.p.PCopying? && s.c.CCopying? && i < s.p.len && j < s.c.len
    ensures var s := run[|run| - 1];
            Cell(s.size, s.p.inPos, s.p.len, i) != Cell(s.size, s.c.outPos, s.c.len, j)
  {
    var s := run[|run| - 1];
    RunInv(run, |run| - 1);
    RegionsApart(s, i, s.consumed + j);
    TrueCell(s.size, |s.written|, s.p.len, i);
    TrueCell(s.size, s.consumed, s.c.len, j);
  }

  /** A stale opposite index only underestimates: what a call decided to transfer never exceeds the room
      or the data there is now. */
  lemma StaleIsSafe(run: seq<State>)
    requires IsRun(run)
    ensures var s := run[|run| - 1];
            && 0 <= Used(s) <= s.size
            && (s.p.PCopying? ==> s.p.len <= s.size - Used(s))
            && (s.c.CCopying? ==> s.c.len <= Used(s))
  {
    RunInv(run, |run| - 1);
  }

  lemma StepGrows(s: State, s': State)
    requires Step(s, s')
    ensures s'.size == s.size && s.written <= s'.written && s.consumed <= s'.consumed
  {
    hide Cell, Length8, Avail8;
  }

  lemma {:induction false} OnlyGrows(run: seq<State>, j: nat, k: nat)
    requires IsRun(run) && j <= k < |run|
    ensures run[k].size == run[j].size && run[j].written <= run[k].written && run[j].consumed <= run[k].consumed
    decreases k - j
  {
    if j == k {
    } else {
      OnlyGrows(run, j, k - 1);
      assert StepAt(run, k - 1);
      StepGrows(run[k - 1], run[k]);
    }
  }

  /** `GetLen` called by the consumer: `m_uOut` is loaded in state j, `m_uIn` in state k.  The result is the
      true length in state k, and until the consumer itself takes something out, at most the length of any
      later state m. */
  lemma LenUnderestimates(run: seq<State>, j: nat, k: nat, m: nat)
    requires IsRun(run) && j <= k <= m < |run| && run[m].consumed == run[j].consumed
    ensures Length8(run[k].inIdx, run[j].outIdx) == Used(run[k]) <= Used(run[m])
  {
    OnlyGrows(run, j, k);
    OnlyGrows(run, k, m);
    RunInv(run, j);
    RunInv(run, k);
    TrueLength(run[k].size, |run[k].written|, run[k].consumed);
  }

  /** `GetAvail` called by the producer: `m_uOut` is loaded in state j, `m_uIn` in state k.  The result is
      the true room in state j, and until the producer itself puts something in, at most the room of any
      later state m. */
  lemma AvailUnderestimates(run: seq<State>, j: nat, k: nat, m: nat)
    requires IsRun(run) && j <= k <= m < |run| && run[m].written == run[j].written
    ensures Avail8(run[j].size, run[k].inIdx, run[j].outIdx) == run[j].size - Used(run[j]) <= run[m].size - Used(run[m])
  {
    OnlyGrows(run, j, k);
    OnlyGrows(run, k, m);
    RunInv(run, j);
    RunInv(run, k);
    TrueLength(run[j].size, |run[j].written|, run[j].consumed);
  }

  lemma ProducerProceeds(s: State)
    requires Inv(s)
    ensures exists s' :: ProducerStep(s, s')
  {
    var s' := s;
    match s.p {
      case PIdle =>
        s' := s.(p := PLoaded([], s.inIdx));
        assert LoadIn(s, s', []);
      case PLoaded(data, inPos) =>
        var len := Min(Avail8(s.size, inPos, s.outIdx), |data|);
        s' := s.(p := if len == 0 then PIdle else PCopying(data, inPos, len, 0));
      case PCopying(data, inPos, len, done) =>
        if done < len {
          TrueCell(s.size, |s.written|, len, done);
          s' := s.(p := s.p.(done := done + 1), buf := s.buf[Cell(s.size, inPos, len, done) := data[done]]);
          assert CopyByteIn(s, s');
        } else {
          s' := s.(p := PIdle, inIdx := (inPos + len) % WORD, written := s.written + data[..len]);
          assert StoreIn(s, s');
        }
    }
    assert ProducerStep(s, s');
  }

  lemma ConsumerProceeds(s: State)
    requires Inv(s)
    ensures exists s' :: ConsumerStep(s, s')
  {
    var s' := s;
    match s.c {
      case CIdle =>
        s' := s.(c := RLoaded(s.outIdx));
      case CLoaded(want, outPos) =>
        var len := Min(Length8(s.inIdx, outPos), want);
        s' := s.(c := if len == 0 then CIdle else CCopying(outPos, len, []));
      case CCopying(outPos, len, got) =>
        if |got| < len {
          TrueCell(s.size, s.consumed, len, |got|);
          s' := s.(c := s.c.(got := got + [s.buf[Cell(s.size, outPos, len, |got|)]]));
          assert CopyByteOut(s, s');
        } else {
          s' := s.(c := CIdle, outIdx := (outPos + len) % WORD,
                   consumed := s.consumed + len, taken := s.taken + [Read(got)]);
          assert StoreOut(s, s');
        }
      case RLoaded(outPos) =>
        s' := s.(c := RStoring(s.inIdx, |s.written|));
      case RStoring(inPos, target) =>
        s' := s.(c := CIdle, outIdx := inPos, consumed := target,
                 taken := s.taken + [Skipped(target - s.consumed)]);
    }
    assert ConsumerStep(s, s');
  }

  // Wait-freedom.

  /** The steps of its own the producer's current call still needs at most, and the same for the consumer. */
  ghost function ProducerLeft(p: Producer): nat {
    match p
    case PIdle => 0
    case PLoaded(data, inPos) => |data| + 2
    case PCopying(data, inPos, len, done) => if done <= len then len - done + 1 else 0
  }

  ghost function ConsumerLeft(c: Consumer): nat {
    match c
    case CIdle => 0
    case CLoaded(want, outPos) => want + 2
    case CCopying(outPos, len, got) => if |got| <= len then len - |got| + 1 else 0
    case RLoaded(outPos) => 2
    case RStoring(inPos, target) => 1
  }

  /** A step of one side brings its own call nearer to its end and leaves the other side's call alone. */
  lemma StepsNearer(s: State, s': State)
    requires Step(s, s')
    ensures s'.p == s.p || s'.c == s.c
    ensures s'.p != s.p && !s.p.PIdle? ==> ProducerLeft(s'.p) < ProducerLeft(s.p)
    ensures s'.c != s.c && !s.c.CIdle? ==> ConsumerLeft(s'.c) < ConsumerLeft(s.c)
  {
    hide Cell, Length8, Avail8;
  }

  /** The first step of a call leaves the rest to do. */
  lemma CallStarts(s: State, s': State)
    ensures forall data :: LoadIn(s, s', data) ==> ProducerLeft(s'.p) == |data| + 2
    ensures forall want: nat :: LoadOwnOut(s, s', want) ==> ConsumerLeft(s'.c) == want + 2
  {
  }

  /** How many of the steps from state `j` to state `k` are the producer's; the consumer's. */
  ghost function ProducerSteps(run: seq<State>, j: nat, k: nat): nat
    requires j <= k < |run|
    decreases k
  {
    if k == j then 0 else ProducerSteps(run, j, k - 1) + (if run[k].p != run[k - 1].p then 1 else 0)
  }

  ghost function ConsumerSteps(run: seq<State>, j: nat, k: nat): nat
    requires j <= k < |run|
    decreases k
  {
    if k == j then 0 else ConsumerSteps(run, j, k - 1) + (if run[k].c != run[k - 1].c then 1 else 0)
  }

  /** `WriteData` is wait-free: within its call, the producer takes at most |data| + 3 steps of its own,
      whatever the consumer does; and `BothSidesProceed` says it can always take the next one. */
  lemma {:induction false} WriteReturns(run: seq<State>, data: seq<byte>, j: nat, k: nat)
    requires IsRun(run) && j < k < |run| && LoadIn(run[j], run[j + 1], data)
    requires forall i :: j < i < k ==> !run[i].p.PIdle?
    ensures ProducerSteps(run, j, k) + ProducerLeft(run[k].p) <= |data| + 3
    decreases k
  {
    hide Step, LoadIn, Init, ProducerLeft;
    if k == j + 1 {
      assert ProducerSteps(run, j, j) == 0;
      CallStarts(run[j], run[k]);
    } else {
      WriteReturns(run, data, j, k - 1);
      assert StepAt(run, k - 1);
      StepsNearer(run[k - 1], run[k]);
    }
  }

  /** `ReadData` is wait-free in the same way: at most `want` + 3 steps of its own. */
  lemma {:induction false} ReadReturns(run: seq<State>, want: nat, j: nat, k: nat)
    requires IsRun(run) && j < k < |run| && LoadOwnOut(run[j], run[j + 1], want)
    requires forall i :: j < i < k ==> !run[i].c.CIdle?
    ensures ConsumerSteps(run, j, k) + ConsumerLeft(run[k].c) <= want + 3
    decreases k
  {
    hide Step, LoadOwnOut, Init, ConsumerLeft;
    if k == j + 1 {
      assert ConsumerSteps(run, j, j) == 0;
      CallStarts(run[j], run[k]);
    } else {
      ReadReturns(run, want, j, k - 1);
      assert StepAt(run, k - 1);
      StepsNearer(run[k - 1], run[k]);
    }
  }

  /** No call can get stuck: in every reachable state both sides have a step, and a byte copy always
      finds its cell inside the buffer. */
  lemma BothSidesProceed(run: seq<State>)
    requires IsRun(run)
    ensures var s := run[|run| - 1];
            (exists s' :: ProducerStep(s, s')) && (exists s' :: ConsumerStep(s, s'))
  {
    var s := run[|run| - 1];
    RunInv(run, |run| - 1);
    ProducerProceeds(s);
    ConsumerProceeds(s);
  }
}
