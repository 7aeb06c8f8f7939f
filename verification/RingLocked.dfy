/**
 The locked ring buffer as a protocol: any number of threads, one spin lock, and calls that load the
 indices, copy single bytes and store an index while other threads wait or read the indices unlocked.

 Every run comes to the same as doing the calls one after the other on a bounded queue of bytes, in the
 order in which they stored their index.
 */
module RingLocked {
  import opened RingArithmetic
  import opened RingBytes

  /** What a thread inside the locked section is doing. */
  datatype Pc =
    | Writes(data: seq<byte>)
    | Reads(want: nat)
    | Clears
    | CopiesIn(data: seq<byte>, len: nat, done: nat)
    | CopiesOut(want: nat, len: nat, got: seq<byte>)
    | Leaves

  /** A finished call, with what it was given and what it returned. */
  datatype Call = Write(data: seq<byte>, n: nat) | Read(want: nat, bytes: seq<byte>) | Clear

  /** `flag` is the spin lock, `inside` the threads in a locked section.  `written`, `consumed` and `calls`
      are history. */
  datatype State = State(
    size: nat, buf: seq<byte>, inIdx: nat, outIdx: nat, flag: bool, inside: map<nat, Pc>,
    written: seq<byte>, consumed: nat, calls: seq<Call>)

  ghost predicate Init(s: State) {
    && BufferSizes(s.size) && |s.buf| == s.size
    && s.inIdx == 0 && s.outIdx == 0 && !s.flag && s.inside == map[]
    && s.written == [] && s.consumed == 0 && s.calls == []
  }

  /** `m_Lock.Lock()`: the flag was clear. */
  ghost predicate Enters(s: State, s': State, t: nat, pc: Pc) {
    && !s.flag && t !in s.inside
    && ((pc.Writes? && |pc.data| < WORD) || (pc.Reads? && pc.want < WORD) || pc.Clears?)
    && s' == s.(flag := true, inside := s.inside[t := pc])
  }

  /** `WriteData` loads both indices and computes how much it will copy. */
  ghost predicate LoadsRoom(s: State, s': State, t: nat) {
    && t in s.inside && s.inside[t].Writes?
    && var data := s.inside[t].data;
       s' == s.(inside := s.inside[t := CopiesIn(data, Min(Avail8(s.size, s.inIdx, s.outIdx), |data|), 0)])
  }

  ghost predicate CopiesByteIn(s: State, s': State, t: nat) {
    && t in s.inside && s.inside[t].CopiesIn?
    && var p := s.inside[t];
       && p.done < p.len <= |p.data|
       && var cell := Cell(s.size, s.inIdx, p.len, p.done);
          && 0 <= cell < |s.buf|
          && s' == s.(inside := s.inside[t := p.(done := p.done + 1)], buf := s.buf[cell := p.data[p.done]])
  }

  ghost predicate StoresIn(s: State, s': State, t: nat) {
    && t in s.inside && s.inside[t].CopiesIn?
    && var p := s.inside[t];
       && p.done == p.len <= |p.data|
       && s' == s.(inside := s.inside[t := Leaves], inIdx := (s.inIdx + p.len) % WORD,
                   written := s.written + p.data[..p.len], calls := s.calls + [Write(p.data, p.len)])
  }

  /** `ReadData` loads both indices and computes how much it will copy. */
  ghost predicate LoadsLength(s: State, s': State, t: nat) {
    && t in s.inside && s.inside[t].Reads?
    && var want := s.inside[t].want;
       s' == s.(inside := s.inside[t := CopiesOut(want, Min(Length8(s.inIdx, s.outIdx), want), [])])
  }

  ghost predicate CopiesByteOut(s: State, s': State, t: nat) {
    && t in s.inside && s.inside[t].CopiesOut?
    && var p := s.inside[t];
       && |p.got| < p.len
       && var cell := Cell(s.size, s.outIdx, p.len, |p.got|);
          && 0 <= cell < |s.buf|
          && s' == s.(inside := s.inside[t := p.(got := p.got + [s.buf[cell]])])
  }

  ghost predicate StoresOut(s: State, s': State, t: nat) {
    && t in s.inside && s.inside[t].CopiesOut?
    && var p := s.inside[t];
       && |p.got| == p.len
       && s' == s.(inside := s.inside[t := Leaves], outIdx := (s.outIdx + p.len) % WORD,
                   consumed := s.consumed + p.len, calls := s.calls + [Read(p.want, p.got)])
  }

  /** `ResetOut`. */
  ghost predicate StoresClear(s: State, s': State, t: nat) {
    && t in s.inside && s.inside[t].Clears?
    && s' == s.(inside := s.inside[t := Leaves], outIdx := s.inIdx, consumed := |s.written|,
                calls := s.calls + [Clear])
  }

  /** `m_Lock.Unlock()`. */
  ghost predicate Unlocks(s: State, s': State, t: nat) {
    && t in s.inside && s.inside[t].Leaves?
    && s' == s.(flag := false, inside := s.inside - {t})
  }

  ghost predicate ThreadStep(s: State, s': State, t: nat) {
    || (exists pc :: Enters(s, s', t, pc))
    || LoadsRoom(s, s', t) || CopiesByteIn(s, s', t) || StoresIn(s, s', t)
    || LoadsLength(s, s', t) || CopiesByteOut(s, s', t) || StoresOut(s, s', t)
    || StoresClear(s, s', t) || Unlocks(s, s', t)
  }

  ghost predicate Step(s: State, s': State) {
    exists t :: ThreadStep(s, s', t)
  }

  /** The step from state `k` to the next. */
  ghost predicate StepAt(run: seq<State>, k: nat)
    requires k + 1 < |run|
  {
    Step(run[k], run[k + 1])
  }

  ghost predicate IsRun(run: seq<State>) {
    && run != [] && Init(run[0])
    && forall k: nat :: k + 1 < |run| ==> StepAt(run, k)
  }

  // The queue of bytes the buffer stands for.

  /** The waiting bytes after one more call. */
  function After(q: seq<byte>, c: Call): seq<byte> {
    match c
    case Write(data, n) => q + data[..Min(|data|, n)]
    case Read(want, bytes) => q[Min(|bytes|, |q|)..]
    case Clear => []
  }

  /** The call did what a queue of `size` bytes does: a write takes the first min(len, free) bytes, a read
      returns the first min(want, used). */
  predicate Obeys(q: seq<byte>, c: Call, size: nat) {
    match c
    case Write(data, n) => |q| <= size && n == Min(size - |q|, |data|)
    case Read(want, bytes) => bytes == q[..Min(|q|, want)]
    case Clear => true
  }

  /** The waiting bytes after `calls`, done one by one on an empty queue. */
  function Replay(calls: seq<Call>): seq<byte> {
    if calls == [] then [] else After(Replay(calls[..|calls| - 1]), calls[|calls| - 1])
  }

  /** Each call did what the queue does. */
  predicate Faithful(calls: seq<Call>, size: nat) {
    calls == [] ||
    (Faithful(calls[..|calls| - 1], size) && Obeys(Replay(calls[..|calls| - 1]), calls[|calls| - 1], size))
  }

  lemma ReplayAppend(calls: seq<Call>, c: Call, size: nat)
    ensures Replay(calls + [c]) == After(Replay(calls), c)
    ensures Faithful(calls + [c], size) <==> Faithful(calls, size) && Obeys(Replay(calls), c, size)
  {
    assert (calls + [c])[..|calls|] == calls;
  }

  // The invariant.

  ghost function Used(s: State): int { |s.written| - s.consumed }

  ghost predicate Counters(s: State) {
    && BufferSizes(s.size) && |s.buf| == s.size
    && 0 <= Used(s) <= s.size
    && s.inIdx == |s.written| % WORD && s.outIdx == s.consumed % WORD
  }

  /** The flag is set exactly while one thread is inside. */
  ghost predicate Exclusive(s: State) {
    && (s.flag <==> s.inside != map[])
    && forall t, u :: t in s.inside && u in s.inside ==> t == u
  }

  /** What the thread inside has loaded is still true. */
  ghost predicate Fresh(s: State, pc: Pc)
    requires 0 <= Used(s) <= s.size
  {
    match pc
    case CopiesIn(data, len, done) => done <= len == Min(s.size - Used(s), |data|)
    case CopiesOut(want, len, got) => |got| <= len == Min(Used(s), want)
    case Writes(data) => |data| < WORD
    case Reads(want) => want < WORD
    case _ => true
  }

  /** What the thread inside has copied is right. */
  ghost predicate Progress(s: State, pc: Pc)
    requires |s.buf| == s.size
  {
    match pc
    case CopiesIn(data, len, done) =>
      s.size > 0 && done <= |data| ==> Filled(s.buf, s.size, |s.written|, data, done)
    case CopiesOut(want, len, got) =>
      s.consumed + |got| <= |s.written| && got == s.written[s.consumed..s.consumed + |got|]
    case _ => true
  }

  ghost predicate Inv(s: State) {
    && Counters(s) && Exclusive(s)
    && (forall t :: t in s.inside ==> Fresh(s, s.inside[t]) && Progress(s, s.inside[t]))
    && (s.size > 0 ==> Holds(s.buf, s.size, s.written, s.consumed))
    && Faithful(s.calls, s.size) && Replay(s.calls) == s.written[s.consumed..]
  }

  lemma LoadKeeps(s: State, s': State, t: nat)
    requires Inv(s) && (LoadsRoom(s, s', t) || LoadsLength(s, s', t))
    ensures Inv(s')
  {
    hide Holds, Faithful, Replay, Avail8, Length8;
    TrueLength(s.size, |s.written|, s.consumed);
  }

  lemma CopyInKeeps(s: State, s': State, t: nat)
    requires Inv(s) && CopiesByteIn(s, s', t)
    ensures Inv(s')
  {
    hide Holds, Filled, Faithful, Replay, Cell;
    var p := s.inside[t];
    assert Fresh(s, p) && Progress(s, p);
    TrueCell(s.size, |s.written|, p.len, p.done);
    StoreByte(s.buf, s.size, s.written, s.consumed, p.data, p.done);
  }

  lemma CopyOutKeeps(s: State, s': State, t: nat)
    requires Inv(s) && CopiesByteOut(s, s', t)
    ensures Inv(s')
  {
    hide Holds, Filled, Faithful, Replay, Cell;
    var p := s.inside[t];
    assert Fresh(s, p) && Progress(s, p);
    TrueCell(s.size, s.consumed, p.len, |p.got|);
    LoadByte(s.buf, s.size, s.written, s.consumed, p.got);
  }

  lemma StoreInKeeps(s: State, s': State, t: nat)
    requires Inv(s) && StoresIn(s, s', t)
    ensures Inv(s')
  {
    hide Holds, Filled, Faithful, Replay, BufferSizes;
    var p := s.inside[t];
    assert Fresh(s, p) && Progress(s, p);
    WordAdd(|s.written|, p.len);
    ReplayAppend(s.calls, Write(p.data, p.len), s.size);
    if s.size > 0 {
      Publish(s.buf, s.size, s.written, s.consumed, p.data, p.len);
    }
    assert s'.written[s.consumed..] == s.written[s.consumed..] + p.data[..p.len];
  }

  lemma StoreOutKeeps(s: State, s': State, t: nat)
    requires Inv(s) && StoresOut(s, s', t)
    ensures Inv(s')
  {
    hide Holds, Filled, Faithful, Replay, BufferSizes;
    if s.size > 0 {
      HoldsLater(s.buf, s.size, s.written, s.consumed, s'.consumed);
    }
    var p := s.inside[t];
    assert Fresh(s, p) && Progress(s, p);
    WordAdd(s.consumed, p.len);
    ReplayAppend(s.calls, Read(p.want, p.got), s.size);
    TakeRun(s.written, s.consumed, p.len);
  }

  lemma ClearKeeps(s: State, s': State, t: nat)
    requires Inv(s) && StoresClear(s, s', t)
    ensures Inv(s')
  {
    hide Filled, Faithful, Replay, BufferSizes;
    ReplayAppend(s.calls, Clear, s.size);
  }

  lemma LockKeeps(s: State, s': State, t: nat)
    requires Inv(s) && (Unlocks(s, s', t) || exists pc :: Enters(s, s', t, pc))
    ensures Inv(s')
  {
    hide Holds, Filled, Faithful, Replay, BufferSizes;
    if Unlocks(s, s', t) {
      assert s'.inside == map[];
    }
  }

  lemma StepKeeps(s: State, s': State)
    requires Inv(s) && Step(s, s')
    ensures Inv(s')
  {
    hide Inv;
    var t :| ThreadStep(s, s', t);
    if LoadsRoom(s, s', t) || LoadsLength(s, s', t) {
      LoadKeeps(s, s', t);
    } else if CopiesByteIn(s, s', t) {
      CopyInKeeps(s, s', t);
    } else if CopiesByteOut(s, s', t) {
      CopyOutKeeps(s, s', t);
    } else if StoresIn(s, s', t) {
      StoreInKeeps(s, s', t);
    } else if StoresOut(s, s', t) {
      StoreOutKeeps(s, s', t);
    } else if StoresClear(s, s', t) {
      ClearKeeps(s, s', t);
    } else {
      LockKeeps(s, s', t);
    }
  }

  lemma StartInv(s: State)
    requires Init(s)
    ensures Inv(s)
  {
  }

  lemma {:induction false} RunInv(run: seq<State>, k: nat)
    requires IsRun(run) && k < |run|
    ensures Inv(run[k])
  {
    hide Step, Inv;
    if k == 0 {
      StartInv(run[0]);
    } else {
      RunInv(run, k - 1);
      assert StepAt(run, k - 1);
      StepKeeps(run[k - 1], run[k]);
    }
  }

  // What every run guarantees.

  /** Linearizability: the calls finished so far, done one after the other on a queue of `size` bytes in the
      order of their index stores, return exactly what they returned, and leave exactly the waiting bytes. */
  lemma ActsAsQueue(run: seq<State>)
    requires IsRun(run)
    ensures var s := run[|run| - 1];
            && Faithful(s.calls, s.size) && |Replay(s.calls)| <= s.size
            && 0 <= s.consumed <= |s.written| && Replay(s.calls) == s.written[s.consumed..]
  {
    hide Step, Faithful, Replay, Holds;
    RunInv(run, |run| - 1);
  }

  /** At most one thread is in a locked section, and the flag says whether one is. */
  lemma MutualExclusion(run: seq<State>)
    requires IsRun(run)
    ensures Exclusive(run[|run| - 1])
  {
    hide Step, Faithful, Replay, Holds, Exclusive;
    RunInv(run, |run| - 1);
  }

  // What a call finishes is what it began.

  /** What the thread is doing belongs to a call begun as `begun`, and is not done yet. */
  ghost predicate SameCall(begun: Pc, pc: Pc) {
    match begun
    case Writes(data) => pc == begun || (pc.CopiesIn? && pc.data == data)
    case Reads(want) => pc == begun || (pc.CopiesOut? && pc.want == want)
    case _ => pc == begun
  }

  /** The finished call does what was asked for. */
  predicate Answers(begun: Pc, c: Call) {
    match begun
    case Writes(data) => c.Write? && c.data == data
    case Reads(want) => c.Read? && c.want == want
    case _ => c == Clear
  }

  /** While a thread is inside, every step is its own. */
  lemma OnlyInside(s: State, s': State, t: nat)
    requires Exclusive(s) && t in s.inside && Step(s, s')
    ensures ThreadStep(s, s', t)
  {
    hide Cell, Length8, Avail8;
  }

  lemma CallMoves(s: State, s': State, t: nat, begun: Pc)
    requires t in s.inside && ThreadStep(s, s', t) && SameCall(begun, s.inside[t]) && t in s'.inside
    requires begun.Writes? || begun.Reads? || begun.Clears?
    ensures if s'.inside[t].Leaves? then |s'.calls| == |s.calls| + 1 && s'.calls[..|s.calls|] == s.calls
                                         && Answers(begun, s'.calls[|s.calls|])
            else s'.calls == s.calls && SameCall(begun, s'.inside[t])
  {
    hide Cell, Length8, Avail8;
  }

  ghost predicate Underway(s: State, t: nat) {
    t in s.inside && !s.inside[t].Leaves?
  }

  lemma MutualExclusionAt(run: seq<State>, k: nat)
    requires IsRun(run) && k < |run|
    ensures Exclusive(run[k])
  {
    hide Step, Faithful, Replay, Holds, Exclusive;
    RunInv(run, k);
  }

  lemma {:induction false} CallGoesOn(run: seq<State>, t: nat, begun: Pc, j: nat, k: nat)
    requires IsRun(run) && j < k < |run| && Enters(run[j], run[j + 1], t, begun)
    requires forall i :: j < i <= k ==> Underway(run[i], t)
    ensures t in run[k].inside && SameCall(begun, run[k].inside[t]) && run[k].calls == run[j].calls
    decreases k
  {
    hide Step, Init, Inv, ThreadStep;
    if k == j + 1 {
    } else {
      CallGoesOn(run, t, begun, j, k - 1);
      assert Underway(run[k - 1], t) && Underway(run[k], t);
      assert Exclusive(run[k - 1]) by {
        MutualExclusionAt(run, k - 1);
      }
      assert StepAt(run, k - 1);
      OnlyInside(run[k - 1], run[k], t);
      CallMoves(run[k - 1], run[k], t, begun);
    }
  }

  /** The call that finishes when a thread stores its index is the one it entered with, and no other call
      finishes in between. */
  lemma FinishesItsCall(run: seq<State>, t: nat, begun: Pc, j: nat, k: nat)
    requires IsRun(run) && j < k && k + 1 < |run| && Enters(run[j], run[j + 1], t, begun)
    requires forall i :: j < i <= k ==> Underway(run[i], t)
    requires t in run[k + 1].inside && run[k + 1].inside[t].Leaves?
    ensures var n := |run[j].calls|;
            && |run[k + 1].calls| == n + 1 && run[k + 1].calls[..n] == run[j].calls
            && (begun.Writes? ==> run[k + 1].calls[n].Write? && run[k + 1].calls[n].data == begun.data)
            && (begun.Reads? ==> run[k + 1].calls[n].Read? && run[k + 1].calls[n].want == begun.want)
            && (begun.Clears? ==> run[k + 1].calls[n] == Clear)
  {
    hide Step, Init, ThreadStep, Exclusive;
    CallGoesOn(run, t, begun, j, k);
    MutualExclusionAt(run, k);
    assert Underway(run[k], t) && StepAt(run, k);
    OnlyInside(run[k], run[k + 1], t);
    CallMoves(run[k], run[k + 1], t, begun);
  }

  lemma StepGrows(s: State, s': State)
    requires Inv(s) && Step(s, s')
    ensures s'.size == s.size && s.written <= s'.written && s.consumed <= s'.consumed
  {
    hide Cell, Length8, Avail8, Faithful, Replay, Holds;
  }

  lemma {:induction false} OnlyGrows(run: seq<State>, j: nat, k: nat)
    requires IsRun(run) && j <= k < |run|
    ensures run[k].size == run[j].size && run[j].written <= run[k].written && run[j].consumed <= run[k].consumed
    decreases k - j
  {
    hide Step, Inv, Init;
    if j == k {
    } else {
      OnlyGrows(run, j, k - 1);
      RunInv(run, k - 1);
      assert StepAt(run, k - 1);
      StepGrows(run[k - 1], run[k]);
    }
  }

  lemma Wrapped(a: nat, c: nat)
    ensures (a % WORD - c % WORD) % WORD == (a - c) % WORD
  {
    assert a == 256 * (a / 256) + a % 256 && c == 256 * (c / 256) + c % 256;
    assert a - c == 256 * (a / 256 - c / 256) + (a % 256 - c % 256);
  }

  lemma SmallShift(u: nat, d: nat)
    requires u <= 128
    ensures (u + d) % WORD == u <==> d % WORD == 0
  {
    assert d == 256 * (d / 256) + d % 256;
    assert u + d == 256 * (d / 256) + (u + d % 256);
  }

  /** `GetLen` takes no lock: it loads `m_uOut` in state j and `m_uIn` in state k.  The result is the true
      length in state k if and only if the number of bytes taken out in between is a multiple of 256. */
  lemma UnlockedLen(run: seq<State>, j: nat, k: nat)
    requires IsRun(run) && j <= k < |run|
    ensures Length8(run[k].inIdx, run[j].outIdx) == (Used(run[k]) + (run[k].consumed - run[j].consumed)) % 256
    ensures Length8(run[k].inIdx, run[j].outIdx) == Used(run[k])
       <==> (run[k].consumed - run[j].consumed) % 256 == 0
  {
    hide Step, Init, Faithful, Replay, Holds;
    OnlyGrows(run, j, k);
    RunInv(run, j);
    RunInv(run, k);
    Wrapped(|run[k].written|, run[j].consumed);
    SmallShift(Used(run[k]), run[k].consumed - run[j].consumed);
  }

  lemma EqualWords(a: nat, c: nat)
    ensures a % WORD == c % WORD <==> (a - c) % WORD == 0
  {
    Wrapped(a, c);
  }

  /** `IsEmpty` takes no lock either: it loads the two indices in states j and k, in either order.  It says
      "empty" if and only if the positions loaded differ by a multiple of 256; so "empty" when no byte was
      taken or put in between is true, and so is "not empty". */
  lemma UnlockedEmpty(run: seq<State>, j: nat, k: nat)
    requires IsRun(run) && j < |run| && k < |run|
    ensures run[j].inIdx == run[k].outIdx <==> (|run[j].written| - run[k].consumed) % 256 == 0
    ensures run[j].consumed == run[k].consumed ==> (run[j].inIdx == run[k].outIdx <==> Used(run[j]) == 0)
  {
    hide Step, Init, Faithful, Replay, Holds;
    RunInv(run, j);
    RunInv(run, k);
    EqualWords(|run[j].written|, run[k].consumed);
  }

  // A caller that is the only one to take bytes out.

  ghost predicate Takes(s: State, s': State, t: nat) {
    StoresOut(s, s', t) || StoresClear(s, s', t)
  }

  ghost predicate TakesAt(run: seq<State>, i: nat, t: nat)
    requires i + 1 < |run|
  {
    Takes(run[i], run[i + 1], t)
  }

  /** No thread but `t` reads or clears. */
  ghost predicate SoleTaker(run: seq<State>, t: nat) {
    forall i: nat, u :: i + 1 < |run| && TakesAt(run, i, u) ==> u == t
  }

  ghost predicate OtherStep(s: State, s': State, t: nat) {
    exists u :: u != t && ThreadStep(s, s', u)
  }

  /** The step from state `i` to the next is some other thread's. */
  ghost predicate OtherStepAt(run: seq<State>, i: nat, t: nat)
    requires i + 1 < |run|
  {
    OtherStep(run[i], run[i + 1], t)
  }

  lemma OthersTakeNothing(s: State, s': State, u: nat)
    requires ThreadStep(s, s', u) && !Takes(s, s', u)
    ensures s'.consumed == s.consumed
  {
    hide Cell, Length8, Avail8;
  }

  lemma {:induction false} NothingTaken(run: seq<State>, t: nat, j: nat, k: nat)
    requires j <= k < |run| && SoleTaker(run, t)
    requires forall i: nat :: j <= i < k ==> OtherStepAt(run, i, t)
    ensures run[k].consumed == run[j].consumed
    decreases k - j
  {
    hide ThreadStep, Takes;
    if j == k {
    } else {
      NothingTaken(run, t, j, k - 1);
      assert OtherStepAt(run, k - 1, t);
      var u :| u != t && ThreadStep(run[k - 1], run[k], u);
      assert !TakesAt(run, k - 1, u);
      OthersTakeNothing(run[k - 1], run[k], u);
    }
  }

  /** For the only thread that reads or clears, between whose two loads only other threads take steps, the
      unlocked length is exact, and so is "empty", in whichever order the indices are loaded. */
  lemma SoleTakerExact(run: seq<State>, t: nat, j: nat, k: nat)
    requires IsRun(run) && j <= k < |run| && SoleTaker(run, t)
    requires forall i: nat :: j <= i < k ==> OtherStepAt(run, i, t)
    ensures Length8(run[k].inIdx, run[j].outIdx) == Used(run[k])
    ensures run[k].inIdx == run[j].outIdx <==> Used(run[k]) == 0
    ensures run[j].inIdx == run[k].outIdx <==> Used(run[j]) == 0
  {
    hide IsRun, SoleTaker, OtherStepAt, Used;
    NothingTaken(run, t, j, k);
    UnlockedLen(run, j, k);
    UnlockedEmpty(run, k, j);
    UnlockedEmpty(run, j, k);
  }

  // Without that a wrong length is within reach.

  /** A buffer of one byte, with its indices, threads and history. */
  ghost function Tiny(b: byte, inIdx: nat, outIdx: nat, inside: map<nat, Pc>, written: seq<byte>, consumed: nat,
                      calls: seq<Call>): State {
    State(1, [b], inIdx, outIdx, inside != map[], inside, written, consumed, calls)
  }

  /** Thread 0 writes one byte. */
  ghost function TinyWrite(b: byte): (run: seq<State>)
    ensures |run| == 5
  {
    [Tiny(0, 0, 0, map[], [], 0, []),
     Tiny(0, 0, 0, map[0 := Writes([b])], [], 0, []),
     Tiny(0, 0, 0, map[0 := CopiesIn([b], 1, 0)], [], 0, []),
     Tiny(b, 0, 0, map[0 := CopiesIn([b], 1, 1)], [], 0, []),
     Tiny(b, 1, 0, map[0 := Leaves], [b], 0, [Write([b], 1)])]
  }

  /** Thread 1 reads it. */
  ghost function TinyRead(b: byte): (run: seq<State>)
    ensures |run| == 5
  {
    [Tiny(b, 1, 0, map[], [b], 0, [Write([b], 1)]),
     Tiny(b, 1, 0, map[1 := Reads(1)], [b], 0, [Write([b], 1)]),
     Tiny(b, 1, 0, map[1 := CopiesOut(1, 1, [])], [b], 0, [Write([b], 1)]),
     Tiny(b, 1, 0, map[1 := CopiesOut(1, 1, [b])], [b], 0, [Write([b], 1)]),
     Tiny(b, 1, 1, map[1 := Leaves], [b], 1, [Write([b], 1), Read(1, [b])])]
  }

  lemma TinyEnters(b: byte)
    ensures Step(TinyWrite(b)[0], TinyWrite(b)[1]) && Step(TinyRead(b)[0], TinyRead(b)[1])
  {
    assert Enters(TinyWrite(b)[0], TinyWrite(b)[1], 0, Writes([b]));
    assert ThreadStep(TinyWrite(b)[0], TinyWrite(b)[1], 0);
    assert Enters(TinyRead(b)[0], TinyRead(b)[1], 1, Reads(1));
    assert ThreadStep(TinyRead(b)[0], TinyRead(b)[1], 1);
  }

  lemma TinyLoads(b: byte)
    ensures Step(TinyWrite(b)[1], TinyWrite(b)[2]) && Step(TinyRead(b)[1], TinyRead(b)[2])
  {
    assert LoadsRoom(TinyWrite(b)[1], TinyWrite(b)[2], 0);
    assert ThreadStep(TinyWrite(b)[1], TinyWrite(b)[2], 0);
    assert LoadsLength(TinyRead(b)[1], TinyRead(b)[2], 1);
    assert ThreadStep(TinyRead(b)[1], TinyRead(b)[2], 1);
  }

  lemma TinyCopiesIn(b: byte)
    ensures Step(TinyWrite(b)[2], TinyWrite(b)[3])
  {
    hide TinyRead;
    assert Cell(1, 0, 1, 0) == 0 && [0][0 := b] == [b];
    hide Cell;
    assert CopiesByteIn(TinyWrite(b)[2], TinyWrite(b)[3], 0);
    assert ThreadStep(TinyWrite(b)[2], TinyWrite(b)[3], 0);
  }

  lemma TinyCopiesOut(b: byte)
    ensures Step(TinyRead(b)[2], TinyRead(b)[3])
  {
    hide TinyWrite;
    assert Cell(1, 0, 1, 0) == 0 && [] + [b] == [b];
    hide Cell;
    assert CopiesByteOut(TinyRead(b)[2], TinyRead(b)[3], 1);
    assert ThreadStep(TinyRead(b)[2], TinyRead(b)[3], 1);
  }

  lemma TinyStores(b: byte)
    ensures Step(TinyWrite(b)[3], TinyWrite(b)[4]) && Step(TinyRead(b)[3], TinyRead(b)[4])
  {
    assert StoresIn(TinyWrite(b)[3], TinyWrite(b)[4], 0);
    assert ThreadStep(TinyWrite(b)[3], TinyWrite(b)[4], 0);
    assert StoresOut(TinyRead(b)[3], TinyRead(b)[4], 1);
    assert ThreadStep(TinyRead(b)[3], TinyRead(b)[4], 1);
  }

  lemma TinyUnlocks(b: byte)
    ensures Step(TinyWrite(b)[4], TinyRead(b)[0])
  {
    assert Unlocks(TinyWrite(b)[4], TinyRead(b)[0], 0);
    assert ThreadStep(TinyWrite(b)[4], TinyRead(b)[0], 0);
  }

  lemma TinySteps(b: byte, k: nat)
    requires k < 4
    ensures Step(TinyWrite(b)[k], TinyWrite(b)[k + 1]) && Step(TinyRead(b)[k], TinyRead(b)[k + 1])
  {
    hide Step, TinyWrite, TinyRead;
    if k == 0 {
      TinyEnters(b);
    } else if k == 1 {
      TinyLoads(b);
    } else if k == 2 {
      TinyCopiesIn(b);
      TinyCopiesOut(b);
    } else {
      TinyStores(b);
    }
  }

  lemma TinyRun(b: byte)
    ensures IsRun(TinyWrite(b) + TinyRead(b))
  {
    hide Step;
    var run := TinyWrite(b) + TinyRead(b);
    assert Init(run[0]);
    hide TinyWrite, TinyRead;
    forall k: nat | k < 9 ensures StepAt(run, k) {
      if k < 4 {
        TinySteps(b, k);
      } else if k == 4 {
        TinyUnlocks(b);
      } else {
        TinySteps(b, k - 5);
      }
    }
  }

  /** A run in which an unlocked `GetLen` returns 1 although the buffer is empty by then: it loads `m_uOut`
      after the byte was written and `m_uIn` after it was read.  In the same run an unlocked `IsEmpty` that
      loads `m_uIn` first says "not empty", although the buffer is empty at both loads. */
  lemma UnlockedGoesWrong(b: byte) returns (run: seq<State>)
    ensures IsRun(run) && |run| == 10
    ensures Length8(run[9].inIdx, run[5].outIdx) == 1 && Used(run[9]) == 0
    ensures run[0].inIdx != run[9].outIdx && Used(run[0]) == 0
  {
    hide IsRun;
    run := TinyWrite(b) + TinyRead(b);
    TinyRun(b);
  }
}
