/**
 Whole calls on the lock-free ring buffer, in every interleaving: how much a `WriteData`, a `ReadData` and
 a `ResetOut` move, told by the room or the data at the moment they load the other side's index.
 */
module RingCalls {
  import opened RingArithmetic
  import opened RingSpsc

  // WriteData.

  /** A step that is not the producer's leaves its call and the stream alone. */
  lemma ProducerStays(s: State, s': State)
    requires Step(s, s')
    ensures ProducerStep(s, s') || (s'.p == s.p && s'.written == s.written)
  {
    hide Cell, Length8, Avail8;
  }

  /** Up to the load of `m_uOut` the call only holds its bytes. */
  lemma {:induction false} WriteLoading(run: seq<State>, data: seq<byte>, j: nat, k: nat)
    requires IsRun(run) && j < k < |run| && LoadIn(run[j], run[j + 1], data)
    requires forall i :: j < i <= k ==> run[i].p.PLoaded?
    ensures run[k].p.data == data && run[k].written == run[j].written
    decreases k
  {
    hide Step, Init, Cell, Length8, Avail8;
    if k == j + 1 {
    } else {
      WriteLoading(run, data, j, k - 1);
      assert StepAt(run, k - 1);
      assert run[k - 1].p.PLoaded? && run[k].p.PLoaded?;
      ProducerStays(run[k - 1], run[k]);
    }
  }

  /** The load decides how much will be copied: what fits of the bytes given. */
  lemma WriteDecides(s: State, s': State)
    requires Inv(s) && Step(s, s') && s.p.PLoaded? && !s'.p.PLoaded?
    ensures s'.written == s.written && 0 <= Used(s) <= s.size
    ensures if s'.p.PCopying? then s'.p.data == s.p.data && s'.p.len == Min(s.size - Used(s), |s.p.data|)
            else s'.p.PIdle? && Min(s.size - Used(s), |s.p.data|) == 0
  {
    hide Bytes, Accounts, Cell, Length8, Avail8;
    TrueLength(s.size, |s.written|, s.consumed);
  }

  /** Copying changes neither the amount nor the bytes. */
  lemma {:induction false} WriteCopying(run: seq<State>, k: nat, m: nat)
    requires IsRun(run) && k < m < |run| && forall i :: k < i <= m ==> run[i].p.PCopying?
    ensures run[m].p.data == run[k + 1].p.data && run[m].p.len == run[k + 1].p.len
    ensures run[m].written == run[k + 1].written
    decreases m
  {
    hide Step, Init, Cell, Length8, Avail8;
    if m == k + 1 {
    } else {
      WriteCopying(run, k, m - 1);
      assert StepAt(run, m - 1);
      assert run[m - 1].p.PCopying? && run[m].p.PCopying?;
      ProducerStays(run[m - 1], run[m]);
    }
  }

  lemma WriteStores(s: State, s': State)
    requires Step(s, s') && s.p.PCopying? && s'.p.PIdle?
    ensures s.p.len <= |s.p.data| && s'.written == s.written + s.p.data[..s.p.len]
  {
    hide Cell, Length8, Avail8;
  }

  /** A `WriteData` call begun in state j, whose load of `m_uOut` is the step from state k, and which has
      returned in state m: it has put in all of its bytes if there was room for them in state k, and else
      exactly as many as there was room for. */
  lemma WriteMoves(run: seq<State>, data: seq<byte>, j: nat, k: nat, m: nat)
    requires IsRun(run) && j < k < m < |run| && LoadIn(run[j], run[j + 1], data)
    requires forall i :: j < i <= k ==> run[i].p.PLoaded?
    requires forall i :: k < i < m ==> run[i].p.PCopying?
    requires run[m].p.PIdle?
    ensures 0 <= Used(run[k]) <= run[k].size
    ensures var room := run[k].size - Used(run[k]);
            run[m].written == run[j].written + (if |data| <= room then data else data[..room])
  {
    hide Step, Init, Inv, LoadIn;
    WriteLoading(run, data, j, k);
    RunInv(run, k);
    assert StepAt(run, k);
    assert run[k].p.PLoaded?;
    WriteDecides(run[k], run[k + 1]);
    var room := run[k].size - Used(run[k]);
    assert |data| <= room ==> data[..|data|] == data;
    if m > k + 1 {
      WriteCopying(run, k, m - 1);
      assert StepAt(run, m - 1);
      assert run[m - 1].p.PCopying?;
      WriteStores(run[m - 1], run[m]);
    }
  }

  // ReadData and ResetOut.

  lemma ConsumerStays(s: State, s': State)
    requires Step(s, s')
    ensures s.written <= s'.written
    ensures ConsumerStep(s, s') || (s'.c == s.c && s'.consumed == s.consumed && s'.taken == s.taken)
  {
    hide Cell, Length8, Avail8;
  }

  /** Nothing has been taken out by the call yet. */
  ghost predicate NothingTakenYet(s: State, t: State) {
    t.consumed == s.consumed && t.taken == s.taken
  }

  lemma {:induction false} ReadLoading(run: seq<State>, want: nat, j: nat, k: nat)
    requires IsRun(run) && j < k < |run| && LoadOwnOut(run[j], run[j + 1], want)
    requires forall i :: j < i <= k ==> run[i].c.CLoaded?
    ensures run[k].c.want == want && NothingTakenYet(run[j], run[k])
    decreases k
  {
    hide Step, Init, Cell, Length8, Avail8;
    if k == j + 1 {
    } else {
      ReadLoading(run, want, j, k - 1);
      assert StepAt(run, k - 1);
      assert run[k - 1].c.CLoaded? && run[k].c.CLoaded?;
      ConsumerStays(run[k - 1], run[k]);
    }
  }

  lemma ReadDecides(s: State, s': State)
    requires Inv(s) && Step(s, s') && s.c.CLoaded? && !s'.c.CLoaded?
    ensures NothingTakenYet(s, s') && 0 <= Used(s)
    ensures if s'.c.CCopying? then s'.c.len == Min(Used(s), s.c.want) > 0
            else s'.c.CIdle? && Min(Used(s), s.c.want) == 0
  {
    hide Bytes, Accounts, Cell, Length8, Avail8;
    TrueLength(s.size, |s.written|, s.consumed);
  }

  lemma {:induction false} ReadCopying(run: seq<State>, k: nat, m: nat)
    requires IsRun(run) && k < m < |run| && forall i :: k < i <= m ==> run[i].c.CCopying?
    ensures run[m].c.len == run[k + 1].c.len && NothingTakenYet(run[k + 1], run[m])
    decreases m
  {
    hide Step, Init, Cell, Length8, Avail8;
    if m == k + 1 {
    } else {
      ReadCopying(run, k, m - 1);
      assert StepAt(run, m - 1);
      assert run[m - 1].c.CCopying? && run[m].c.CCopying?;
      ConsumerStays(run[m - 1], run[m]);
    }
  }

  /** What is stored away is the run of oldest bytes. */
  lemma ReadStores(s: State, s': State)
    requires Inv(s) && Step(s, s') && s.c.CCopying? && s'.c.CIdle?
    ensures s.consumed + s.c.len <= |s.written| && s'.written == s.written
    ensures s'.consumed == s.consumed + s.c.len
    ensures s'.taken == s.taken + [Read(s.written[s.consumed..s.consumed + s.c.len])]
  {
    hide Accounts, Cell, Length8, Avail8;
  }

  lemma InBounds(s: State)
    requires Inv(s)
    ensures s.consumed <= |s.written|
  {
    hide Bytes, Accounts;
  }

  /** A `ReadData` call begun in state j, whose load of `m_uIn` is the step from state k, and which has
      returned in state m: it has taken out exactly what it wanted, or all there was in state k if that is
      less, in one piece, and these are the next bytes of the stream. */
  lemma ReadMoves(run: seq<State>, want: nat, j: nat, k: nat, m: nat)
    requires IsRun(run) && j < k < m < |run| && LoadOwnOut(run[j], run[j + 1], want)
    requires forall i :: j < i <= k ==> run[i].c.CLoaded?
    requires forall i :: k < i < m ==> run[i].c.CCopying?
    requires run[m].c.CIdle?
    ensures 0 <= Used(run[k])
    ensures var s, t, n := run[j], run[m], if want <= Used(run[k]) then want else Used(run[k]);
            && t.consumed == s.consumed + n <= |t.written|
            && t.taken == s.taken + (if n == 0 then [] else [Read(t.written[s.consumed..s.consumed + n])])
  {
    hide Step, Init, Inv, LoadOwnOut, Used;
    ReadLoading(run, want, j, k);
    RunInv(run, k);
    RunInv(run, m);
    InBounds(run[m]);
    assert StepAt(run, k);
    assert run[k].c.CLoaded?;
    ReadDecides(run[k], run[k + 1]);
    if m > k + 1 {
      ReadCopying(run, k, m - 1);
      RunInv(run, m - 1);
      assert StepAt(run, m - 1);
      assert run[m - 1].c.CCopying?;
      ReadStores(run[m - 1], run[m]);
    }
  }

  lemma {:induction false} ResetLoading(run: seq<State>, j: nat, k: nat)
    requires IsRun(run) && j < k < |run| && ResetLoadOut(run[j], run[j + 1])
    requires forall i :: j < i <= k ==> run[i].c.RLoaded?
    ensures NothingTakenYet(run[j], run[k])
    decreases k
  {
    hide Step, Init, Cell, Length8, Avail8;
    if k == j + 1 {
    } else {
      ResetLoading(run, j, k - 1);
      assert StepAt(run, k - 1);
      assert run[k - 1].c.RLoaded? && run[k].c.RLoaded?;
      ConsumerStays(run[k - 1], run[k]);
    }
  }

  lemma ResetDecides(s: State, s': State)
    requires Step(s, s') && s.c.RLoaded? && !s'.c.RLoaded?
    ensures NothingTakenYet(s, s') && s'.c.RStoring? && s'.c.target == |s.written|
  {
    hide Cell, Length8, Avail8;
  }

  lemma {:induction false} ResetStoring(run: seq<State>, k: nat, m: nat)
    requires IsRun(run) && k < m < |run| && forall i :: k < i <= m ==> run[i].c.RStoring?
    ensures run[m].c.target == run[k + 1].c.target && NothingTakenYet(run[k + 1], run[m])
    decreases m
  {
    hide Step, Init, Cell, Length8, Avail8;
    if m == k + 1 {
    } else {
      ResetStoring(run, k, m - 1);
      assert StepAt(run, m - 1);
      assert run[m - 1].c.RStoring? && run[m].c.RStoring?;
      ConsumerStays(run[m - 1], run[m]);
    }
  }

  lemma ResetStores(s: State, s': State)
    requires Step(s, s') && s.c.RStoring? && s'.c.CIdle?
    ensures s.consumed <= s.c.target && s'.consumed == s.c.target
    ensures s'.taken == s.taken + [Skipped(s.c.target - s.consumed)]
  {
    hide Cell, Length8, Avail8;
  }

  /** A `ResetOut` call begun in state j, whose load of `m_uIn` is the step from state k, and which has
      returned in state m: it has skipped exactly what was in the buffer in state k. */
  lemma ResetSkips(run: seq<State>, j: nat, k: nat, m: nat)
    requires IsRun(run) && j < k < m < |run| && ResetLoadOut(run[j], run[j + 1])
    requires forall i :: j < i <= k ==> run[i].c.RLoaded?
    requires forall i :: k < i < m ==> run[i].c.RStoring?
    requires run[m].c.CIdle?
    ensures run[m].consumed == |run[k].written| && run[j].consumed <= |run[k].written|
    ensures run[m].taken == run[j].taken + [Skipped(|run[k].written| - run[j].consumed)]
  {
    hide Step, Init, ResetLoadOut;
    ResetLoading(run, j, k);
    assert StepAt(run, k);
    assert run[k].c.RLoaded?;
    ResetDecides(run[k], run[k + 1]);
    ResetStoring(run, k, m - 1);
    assert StepAt(run, m - 1);
    assert run[m - 1].c.RStoring?;
    ResetStores(run[m - 1], run[m]);
  }
}
