/**
 The timing wheel as a protocol: one thread runs `Update`, any number of threads call `AddTimer`,
 and all of them share one spin lock that `TimerExecute` drops while callbacks run.

 `Step` is the wheel; `PlainStep` is what it is for, a sequence of pending timers of which the ones
 whose deadline is now are handed out.  Every run of the wheel in which no `time` is negative is a run of
 the plain machine, for the code as written (`widen == false`) and for the variant whose level search widens its mask.
 */
module WheelMachine {
  import opened Bits
  import opened WheelPlacement
  import opened WheelModel

  datatype Request = Request(callBack: int, delay: nat)

  /** A callback run: the timer, the tick, and the clock word it saw. */
  datatype Firing = Firing(timer: Timer, tick: nat, time: nat)

  /** Where the thread inside `Update` is; `again` tells the second `TimerExecute` from the first. */
  datatype Pc =
    | Idle
    | Executing(again: bool)
    | Dispatching(again: bool, batch: seq<Timer>)
    | Shifting

  /** `locked` is the flag of the spin lock.  `adders` are the threads inside the critical section of
      `AddTimer`.  `now`, `added` and `fired` are history: the unbounded tick count, every timer ever
      added, and every callback run so far. */
  datatype State = State(
    wheel: Wheel, locked: bool, pc: Pc, adders: map<nat, Request>,
    now: nat, added: seq<Timer>, fired: seq<Firing>)

  ghost predicate AllEmpty(w: Wheel) {
    w.Valid() && forall r :: ValidSlot(r) ==> w.lists[r] == []
  }

  /** After construction.  The constructor leaves the clock word unset, so it may be any word. */
  ghost predicate Init(s: State) {
    && s.wheel.time == s.now && AllEmpty(s.wheel)
    && !s.locked && s.pc == Idle && s.adders == map[] && s.added == [] && s.fired == []
  }

  /** The state a run has reached. */
  ghost function Last(run: seq<State>): State
    requires run != []
  {
    run[|run| - 1]
  }

  function FiredTimers(fired: seq<Firing>): (xs: seq<Timer>)
    ensures |xs| == |fired| && forall k :: 0 <= k < |xs| ==> xs[k] == fired[k].timer
  {
    seq(|fired|, k requires 0 <= k < |fired| => fired[k].timer)
  }

  // Steps of the threads inside AddTimer.

  /** Any `int time` may be passed; `delay` is its word, so from 2^31 on `time` is negative. */
  ghost predicate AdderLocks(s: State, s': State, i: nat, r: Request) {
    && !s.locked && i !in s.adders && r.delay < U32
    && s' == s.(locked := true, adders := s.adders[i := r])
  }

  function NewTimer(s: State, r: Request): Timer {
    Timer(|s.added|, r.callBack, s.now, r.delay)
  }

  ghost predicate AdderLinks(widen: bool, s: State, s': State, i: nat) {
    && i in s.adders && s.wheel.Valid()
    && var x := NewTimer(s, s.adders[i]);
       s' == s.(locked := false, adders := s.adders - {i},
                wheel := s.wheel.Added(widen, x), added := s.added + [x])
  }

  // Steps of the thread inside Update.

  ghost predicate UpdateLocks(s: State, s': State) {
    && s.pc == Idle && !s.locked
    && s' == s.(locked := true, pc := Executing(false))
  }

  /** The list under the hand is not empty: detach it and drop the lock. */
  ghost predicate Detaches(s: State, s': State) {
    && s.pc.Executing? && s.wheel.Valid()
    && s.wheel.lists[s.wheel.Hand()] != []
    && s' == s.(locked := false, pc := Dispatching(s.pc.again, s.wheel.lists[s.wheel.Hand()]),
                wheel := s.wheel.Cleared(s.wheel.Hand()))
  }

  /** Run one callback of the detached list. */
  ghost predicate RunsCallback(s: State, s': State) {
    && s.pc.Dispatching? && s.pc.batch != []
    && s' == s.(pc := Dispatching(s.pc.again, s.pc.batch[1..]),
                fired := s.fired + [Firing(s.pc.batch[0], s.now, s.wheel.time)])
  }

  ghost predicate Relocks(s: State, s': State) {
    && s.pc.Dispatching? && s.pc.batch == [] && !s.locked
    && s' == s.(locked := true, pc := Executing(s.pc.again))
  }

  /** The list under the hand is empty: the first `TimerExecute` goes on to the shift, the second
      returns and drops the lock. */
  ghost predicate FindsNone(s: State, s': State) {
    && s.pc.Executing? && s.wheel.Valid()
    && s.wheel.lists[s.wheel.Hand()] == []
    && s' == if s.pc.again then s.(locked := false, pc := Idle) else s.(pc := Shifting)
  }

  ghost predicate Shifts(widen: bool, s: State, s': State) {
    && s.pc == Shifting && s.wheel.Valid()
    && s' == s.(wheel := s.wheel.Shifted(widen), now := s.now + 1, pc := Executing(true))
  }

  ghost predicate UpdateStep(widen: bool, s: State, s': State) {
    || UpdateLocks(s, s')
    || Detaches(s, s')
    || RunsCallback(s, s')
    || Relocks(s, s')
    || FindsNone(s, s')
    || Shifts(widen, s, s')
  }

  ghost predicate Step(widen: bool, s: State, s': State) {
    || (exists i, r :: AdderLocks(s, s', i, r))
    || (exists i :: AdderLinks(widen, s, s', i))
    || UpdateStep(widen, s, s')
  }

  /** The step from state `k` to the next. */
  ghost predicate StepAt(widen: bool, run: seq<State>, k: nat)
    requires k + 1 < |run|
  {
    Step(widen, run[k], run[k + 1])
  }

  ghost predicate IsRun(widen: bool, run: seq<State>) {
    && run != []
    && Init(run[0])
    && forall k: nat :: k + 1 < |run| ==> StepAt(widen, run, k)
  }

  // The plain machine.

  datatype Plain = Plain(now: nat, pending: seq<Timer>, batch: seq<Timer>, added: seq<Timer>, fired: seq<Firing>)

  ghost predicate PlainAdds(a: Plain, a': Plain, r: Request) {
    var x := Timer(|a.added|, r.callBack, a.now, r.delay);
    && r.delay < MAX_DELAY
    && a' == a.(pending := a.pending + [x], added := a.added + [x])
  }

  ghost predicate PlainCollects(widen: bool, a: Plain, a': Plain) {
    && a.batch == []
    && a' == a.(batch := Due(widen, a.pending, a.now), pending := NotDue(widen, a.pending, a.now))
  }

  ghost predicate PlainFires(a: Plain, a': Plain) {
    && a.batch != []
    && a' == a.(batch := a.batch[1..], fired := a.fired + [Firing(a.batch[0], a.now, a.now % U32)])
  }

  ghost predicate PlainTicks(widen: bool, a: Plain, a': Plain) {
    && a.batch == [] && Due(widen, a.pending, a.now) == []
    && a' == a.(now := a.now + 1)
  }

  ghost predicate PlainStep(widen: bool, a: Plain, a': Plain) {
    || (exists r :: PlainAdds(a, a', r))
    || PlainCollects(widen, a, a')
    || PlainFires(a, a')
    || PlainTicks(widen, a, a')
  }

  // Refinement.

  ghost predicate UpdateHoldsLock(pc: Pc) {
    pc.Executing? || pc.Shifting?
  }

  /** Mutual exclusion: the lock is taken exactly when one thread is in a critical section. */
  ghost predicate Exclusive(s: State) {
    && (s.locked <==> UpdateHoldsLock(s.pc) || s.adders != map[])
    && (UpdateHoldsLock(s.pc) ==> s.adders == map[])
    && (forall i, j :: i in s.adders && j in s.adders ==> i == j)
    && (forall i :: i in s.adders ==> s.adders[i].delay < U32)
  }

  /** No timer so far was added with a negative `time`. */
  ghost predicate Mild(s: State) {
    forall x :: x in s.added ==> x.delay < MAX_DELAY
  }

  ghost predicate Refines(widen: bool, s: State, a: Plain) {
    && Exclusive(s)
    && a.now == s.now && a.added == s.added && a.fired == s.fired
    && a.batch == (if s.pc.Dispatching? then s.pc.batch else [])
    && Holds(widen, s.wheel, a.pending, s.now)
    && (s.pc == Shifting ==> s.wheel.lists[s.wheel.Hand()] == [])
  }

  ghost function InitialPlain(s: State): Plain {
    Plain(s.now, [], [], [], [])
  }

  lemma InitRefines(widen: bool, s: State)
    requires Init(s)
    ensures Refines(widen, s, InitialPlain(s))
  {
  }

  lemma AddedGrows(widen: bool, s: State, s': State)
    requires Step(widen, s, s')
    ensures s.added <= s'.added
  {
    hide Wheel.Added, Wheel.Shifted, Wheel.Cleared;
  }

  lemma MildBefore(widen: bool, s: State, s': State)
    requires Step(widen, s, s') && Mild(s')
    ensures Mild(s)
  {
    hide Step;
    AddedGrows(widen, s, s');
  }

  lemma UpdateStepRefines(widen: bool, s: State, s': State, a: Plain) returns (a': Plain)
    requires Refines(widen, s, a) && UpdateStep(widen, s, s')
    ensures Refines(widen, s', a')
    ensures a' == a || PlainStep(widen, a, a')
  {
    a' := a;
    CollectKeeps(widen, s.wheel, a.pending, s.now);
    if Detaches(s, s') {
      a' := a.(batch := Due(widen, a.pending, a.now), pending := NotDue(widen, a.pending, a.now));
      assert PlainCollects(widen, a, a');
    } else if RunsCallback(s, s') {
      a' := a.(batch := a.batch[1..], fired := a.fired + [Firing(a.batch[0], a.now, a.now % U32)]);
      assert PlainFires(a, a');
    } else if Shifts(widen, s, s') {
      a' := a.(now := a.now + 1);
      NotDueSubset(widen, a.pending, a.now);
      ShiftKeeps(widen, s.wheel, a.pending, s.now);
      assert PlainTicks(widen, a, a');
    }
  }

  /** Each step of the wheel is a step of the plain machine or changes nothing the plain machine sees. */
  lemma StepRefines(widen: bool, s: State, s': State, a: Plain) returns (a': Plain)
    requires Refines(widen, s, a) && Step(widen, s, s') && Mild(s')
    ensures Refines(widen, s', a')
    ensures a' == a || PlainStep(widen, a, a')
  {
    a' := a;
    if i, r :| AdderLocks(s, s', i, r) {
    } else if i :| AdderLinks(widen, s, s', i) {
      var r := s.adders[i];
      var x := NewTimer(s, r);
      assert s'.added[|s.added|] == x;
      AddKeeps(widen, s.wheel, a.pending, s.now, x);
      a' := a.(pending := a.pending + [x], added := a.added + [x]);
      assert PlainAdds(a, a', r);
      assert s.adders - {i} == map[];
    } else {
      a' := UpdateStepRefines(widen, s, s', a);
    }
  }

  ghost predicate PlainStepAt(widen: bool, run: seq<Plain>, k: nat)
    requires k + 1 < |run|
  {
    run[k + 1] == run[k] || PlainStep(widen, run[k], run[k + 1])
  }

  ghost predicate IsPlainRun(widen: bool, run: seq<Plain>) {
    && run != []
    && run[0] == Plain(run[0].now, [], [], [], [])
    && forall k: nat :: k + 1 < |run| ==> PlainStepAt(widen, run, k)
  }

  /** The wheel refines a plain sequence of deadlines: every run of the wheel in which no `time` is negative
      is matched, state by state, by a run of the plain machine. */
  lemma {:induction false} RunRefines(widen: bool, run: seq<State>) returns (plain: seq<Plain>)
    requires IsRun(widen, run) && Mild(Last(run))
    ensures IsPlainRun(widen, plain) && |plain| == |run|
    ensures forall k :: 0 <= k < |run| ==> Refines(widen, run[k], plain[k])
    decreases |run|
  {
    var n := |run| - 1;
    if n == 0 {
      InitRefines(widen, run[0]);
      plain := [InitialPlain(run[0])];
    } else {
      hide Step, Init, Refines, PlainStep, Mild;
      var earlier := run[..n];
      assert IsRun(widen, earlier) by {
        forall k: nat | k + 1 < n ensures StepAt(widen, earlier, k) {
          assert StepAt(widen, run, k);
        }
      }
      assert StepAt(widen, run, n - 1);
      MildBefore(widen, run[n - 1], run[n]);
      var before := RunRefines(widen, earlier);
      assert Refines(widen, earlier[n - 1], before[n - 1]);
      var a := StepRefines(widen, run[n - 1], run[n], before[n - 1]);
      plain := before + [a];
      forall k | 0 <= k < n ensures Refines(widen, run[k], plain[k]) {
        assert Refines(widen, earlier[k], before[k]);
      }
      forall k: nat | k < n ensures PlainStepAt(widen, plain, k) {
        if k < n - 1 {
          assert PlainStepAt(widen, before, k);
        }
      }
    }
  }
}
