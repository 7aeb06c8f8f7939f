/**
 What every run of the timing wheel guarantees: who fires, when, how often and in which order.

 Delays are any `int`.  A timer added with `time >= 0` has a delay below `MAX_DELAY`; of those added with a
 negative `time` the passed ones are told apart by a test on the clock word at insertion.
 */
module WheelTheorems {
  import opened Bits
  import opened WheelDelays
  import opened WheelMachine
  import opened WheelModel
  import opened WheelOrder
  import opened WheelPlacement
  import opened WheelRuns

  /** A run can be continued by any step. */
  lemma RunSnoc(widen: bool, run: seq<State>, s': State)
    requires IsRun(widen, run) && Step(widen, Last(run), s')
    ensures IsRun(widen, run + [s']) && Last(run + [s']) == s'
  {
    hide Step, Init;
    var longer := run + [s'];
    forall k: nat | k < |run| ensures StepAt(widen, longer, k) {
      if k + 1 < |run| {
        assert StepAt(widen, run, k);
      }
    }
  }

  /** In every reachable state at most one thread is in a critical section. */
  lemma MutualExclusion(widen: bool, run: seq<State>)
    requires IsRun(widen, run)
    ensures Exclusive(Last(run))
  {
    hide IsRun, Exclusive, Located, History, Sent, AllOnce;
    LastFound(widen, run);
  }

  /** A timer handed out at `tick` is due then, and sees its own `expire` in the clock word unless it is
      passed. */
  ghost predicate HandedOutAt(x: Timer, tick: nat, time: nat) {
    time == tick % U32 && tick == DueTick(x) && (time == x.Expire() <==> !Passed(x))
  }

  lemma DispatchedTime(widen: bool, x: Timer, tick: nat)
    requires Dispatched(widen, x, tick)
    ensures HandedOutAt(x, tick, tick % U32)
  {
    hide Kept;
    if Passed(x) {
      PassedWord(x);
    }
  }

  /** The clock word equals the `expire` of a node whose callback runs, also across the 32-bit wrap, if and
      only if the timer was not passed when it was added, that is, unless `time < 0 && -time <= m_uTime % 256`
      held.  For the code as written and for the widened variant, with any `int` delays in the run. */
  lemma FiresOnTime(widen: bool, run: seq<State>)
    requires IsRun(widen, run)
    ensures forall f :: f in Last(run).fired ==> HandedOutAt(f.timer, f.tick, f.time)
    ensures Last(run).pc.Dispatching? ==>
              forall x :: x in Last(run).pc.batch ==> HandedOutAt(x, Last(run).now, Last(run).wheel.time)
  {
    hide IsRun, Located, History, AllOnce, Dispatched, HandedOutAt, Exclusive;
    LastFound(widen, run);
    var s := Last(run);
    forall f | f in s.fired ensures HandedOutAt(f.timer, f.tick, f.time) {
      DispatchedTime(widen, f.timer, f.tick);
    }
    forall x | x in Batch(s) ensures HandedOutAt(x, s.now, s.wheel.time) {
      DispatchedTime(widen, x, s.now);
    }
  }

  /** Of the timers added with `time >= 0`, callbacks run by tick and, within a tick, in the order the timers
      were added, whichever lists they passed through and whatever other timers there are. */
  lemma FiresInOrder(widen: bool, run: seq<State>)
    requires IsRun(widen, run)
    ensures InTurn(Last(run).fired)
  {
    hide IsRun, InTurn;
    LastFound(widen, run);
    RunSequenced(widen, run, |run| - 1);
  }

  /** Nothing is lost and nothing is duplicated: a timer that was added, with any `time`, is at one position
      of one list, or of the batch being run, or has fired once; no other timer is anywhere. */
  lemma InOnePlace(widen: bool, run: seq<State>, x: Timer)
    requires IsRun(widen, run)
    ensures Last(run).wheel.Valid() && Once(Last(run), x)
    ensures multiset(FiredTimers(Last(run).fired))[x] <= 1
  {
    hide IsRun, Located, History, Sent, Exclusive, Nowhere, Solely;
    LastFound(widen, run);
    assert Once(Last(run), x);
  }

  /** Exactly once, exactly when due, for every `int time`.  No timer fires twice, or before its tick; once the
      clock has passed that tick it has fired exactly once if it is kept, and a timer that is not kept never
      fires.  With `time >= 0` the tick is the deadline, and kept means not stranded. */
  lemma FiresExactlyOnce(widen: bool, run: seq<State>, x: Timer)
    requires IsRun(widen, run) && x in Last(run).added
    ensures var s, times := Last(run), multiset(FiredTimers(Last(run).fired))[x];
            && times <= 1
            && (!Kept(widen, x) || s.now < DueTick(x) ==> times == 0)
            && (Kept(widen, x) && DueTick(x) < s.now ==> times == 1)
    ensures x.delay < MAX_DELAY ==> DueTick(x) == x.Deadline() && (Kept(widen, x) <==> !Stranded(widen, x))
  {
    hide IsRun, Found, Stranded;
    InOnePlace(widen, run, x);
    LastFound(widen, run);
    TimesFired(widen, Last(run), x);
  }

  /** What fired is on record with its tick. */
  lemma FiredOnRecord(widen: bool, run: seq<State>, x: Timer)
    requires IsRun(widen, run) && x in FiredTimers(Last(run).fired)
    ensures Firing(x, DueTick(x), DueTick(x) % U32) in Last(run).fired
  {
    hide IsRun, Found, DueTick, Passed;
    LastFound(widen, run);
    FiresOnTime(widen, run);
    var f := FiredAt(Last(run), x);
    assert HandedOutAt(f.timer, f.tick, f.time);
  }

  lemma PassedKept(widen: bool, x: Timer)
    requires Passed(x)
    ensures Kept(widen, x) && DueTick(x) == x.addedAt + 0x100 - (U32 - x.delay) && x.addedAt < DueTick(x)
  {
  }

  /** A passed timer fires at a wrong tick: exactly once, when the hand comes round again 256 ticks after the
      tick it was meant for, with a clock word 256 more than its `expire`. */
  lemma PassedFiresLate(widen: bool, run: seq<State>, x: Timer)
    requires IsRun(widen, run) && x in Last(run).added && Passed(x)
    ensures DueTick(x) == x.addedAt + 0x100 - (U32 - x.delay) && x.addedAt < DueTick(x)
    ensures Last(run).now < DueTick(x) ==> x !in FiredTimers(Last(run).fired)
    ensures DueTick(x) < Last(run).now ==>
              && multiset(FiredTimers(Last(run).fired))[x] == 1
              && Firing(x, DueTick(x), (x.Expire() + 0x100) % U32) in Last(run).fired
    ensures (x.Expire() + 0x100) % U32 != x.Expire()
  {
    hide IsRun, Found, DueTick, Passed, Kept, Timer.Expire;
    LastFound(widen, run);
    PassedKept(widen, x);
    PassedWord(x);
    FiresExactlyOnce(widen, run, x);
    if DueTick(x) < Last(run).now {
      FiredOnRecord(widen, run, x);
    }
  }

  /** Any other timer added with a negative `time` fires when the clock has come round, at `time + 2^32` ticks
      after it was added, if and only if the digits of its `expire` let it: with the mask widened, none of
      the digits from the level it was linked into up to level 2 is zero; as written, bits 14 to 25 are zero
      and, if it was linked into level 0, its digit there is not. */
  lemma NegativeFiresIff(widen: bool, run: seq<State>, x: Timer)
    requires IsRun(widen, run) && x in Last(run).added && MAX_DELAY <= x.delay < U32 && !Passed(x)
    requires x.Deadline() < Last(run).now
    ensures FirstSlot(widen, x).Level? && FirstSlot(widen, x).l <= 3
    ensures var fired, first, e := x in FiredTimers(Last(run).fired), FirstSlot(widen, x).l, x.Expire();
            if widen then fired <==> forall l :: first <= l <= 2 ==> e / Unit(l) % 64 != 0
            else fired <==> e / 0x4000 % 0x1000 == 0 && (first == 0 ==> e / 0x100 % 64 != 0)
  {
    hide IsRun, Found, FirstSlot;
    FreshBehind(widen, x);
    FiresExactlyOnce(widen, run, x);
  }

  /** A timer that is not kept waits in exactly one list in every state after it was added. */
  lemma WaitsForever(widen: bool, run: seq<State>, x: Timer) returns (r: Slot)
    requires IsRun(widen, run) && x in Last(run).added && !Kept(widen, x)
    ensures x !in FiredTimers(Last(run).fired)
    ensures Last(run).wheel.Valid() && Solely(Last(run).wheel, r, x)
  {
    hide IsRun, Found, Kept, Times;
    LastFound(widen, run);
    var s := Last(run);
    TimesFired(widen, s, x);
    TimesIn(x, FiredTimers(s.fired));
    if TimesOut(s, x) == 0 {
      r := StillWaits(widen, s, x);
    } else {
      HandedOut(widen, s, x);
    }
  }

  /** A timer added to list 0 of a level below the top stays there for ever and never fires.  Only a negative
      `time` leads there: -1 at clock word 0x100, for one (`WheelDelays.MinusOneAtRoundStart`). */
  lemma StuckAtZero(widen: bool, run: seq<State>, x: Timer)
    requires IsRun(widen, run) && x in Last(run).added && AtZero(widen, x)
    ensures MAX_DELAY <= x.delay
    ensures FirstSlot(widen, x) in Last(run).wheel.lists && x in Last(run).wheel.lists[FirstSlot(widen, x)]
    ensures x !in FiredTimers(Last(run).fired)
  {
    hide IsRun, Located, History, Sent, Exclusive, FirstSlot;
    ZeroIsNegative(widen, x);
    LastFound(widen, run);
    ZeroStays(widen, run, |run| - 1, x);
    assert Once(Last(run), x);
    OnceIn(Last(run), x, FirstSlot(widen, x));
  }

  /** With the mask widened per level no timer added with `time >= 0` is stranded: every one fires exactly
      once, on time. */
  lemma WidenedWheelFiresAll(run: seq<State>, x: Timer)
    requires IsRun(true, run) && x in Last(run).added && x.delay < MAX_DELAY && x.Deadline() < Last(run).now
    ensures multiset(FiredTimers(Last(run).fired))[x] == 1
    ensures Firing(x, x.Deadline(), x.Expire()) in Last(run).fired
  {
    hide IsRun, Found;
    LastFound(true, run);
    FiresExactlyOnce(true, run, x);
    FiredOnRecord(true, run, x);
  }

  /** As written: once its deadline has passed, a timer added with `time >= 0` has fired if and only if its
      `expire` agrees with the clock at insertion from bit 14 up, or has bits 14 to 25 all zero. */
  lemma WrittenWheelFiresIff(run: seq<State>, x: Timer)
    requires IsRun(false, run) && x in Last(run).added && x.delay < MAX_DELAY && x.Deadline() < Last(run).now
    ensures x in FiredTimers(Last(run).fired)
       <==> || x.Expire() / 0x4000 == x.addedAt % U32 / 0x4000
            || x.Expire() / 0x4000 % 0x1000 == 0
  {
    hide IsRun;
    FiresExactlyOnce(false, run, x);
  }

  lemma StrandedSlot(x: Timer, s: Slot, now: nat)
    requires x.delay < MAX_DELAY && Stranded(false, x) && WaitsIn(false, x, s, now)
    ensures s == Level(3, x.Expire() / 0x400_0000) && x.Expire() / 0x400_0000 < 64
  {
    TopDigit(x.Expire());
  }

  /** As written: every other such timer sits in `mWheel[3][expire >> 26]` for ever. */
  lemma StrandedForever(run: seq<State>, x: Timer)
    requires IsRun(false, run) && x in Last(run).added && x.delay < MAX_DELAY && Stranded(false, x)
    ensures x.Expire() / 0x400_0000 < 64
    ensures Level(3, x.Expire() / 0x400_0000) in Last(run).wheel.lists
    ensures x in Last(run).wheel.lists[Level(3, x.Expire() / 0x400_0000)]
  {
    hide IsRun, Found, Stranded, WaitsIn, Timer.Expire;
    LastFound(false, run);
    var s := Last(run);
    if TimesOut(s, x) == 0 {
      var r := StillWaits(false, s, x);
      StrandedSlot(x, r, s.now);
    } else {
      HandedOut(false, s, x);
    }
  }

  /** Every kept timer that is due by now has fired exactly once. */
  ghost predicate AllDueFired(widen: bool, s: State) {
    forall x :: x in s.added && Kept(widen, x) && DueTick(x) <= s.now ==> multiset(FiredTimers(s.fired))[x] == 1
  }

  /** When the list under the hand is empty and no batch is being run, everything due so far has fired. */
  lemma NothingDueLeft(widen: bool, run: seq<State>)
    requires IsRun(widen, run) && Last(run).wheel.Valid()
    requires Last(run).wheel.lists[Last(run).wheel.Hand()] == [] && !Last(run).pc.Dispatching?
    ensures AllDueFired(widen, Last(run))
  {
    hide IsRun, Found, Kept, DueTick, Wheel.Hand;
    LastFound(widen, run);
    var s := Last(run);
    forall x | x in s.added && Kept(widen, x) && DueTick(x) <= s.now
      ensures multiset(FiredTimers(s.fired))[x] == 1
    {
      TimesFired(widen, s, x);
    }
  }

  lemma RunFacts(widen: bool, run: seq<State>)
    requires IsRun(widen, run)
    ensures var s := Last(run);
            && s.wheel.Valid() && s.wheel.time == s.now % U32
            && (!s.locked ==> s.adders == map[] && !UpdateHoldsLock(s.pc))
            && (UpdateHoldsLock(s.pc) ==> s.adders == map[])
  {
    hide IsRun, Located, History, Sent, AllOnce;
    LastFound(widen, run);
  }

  // The plain machine, for runs in which no `time` is negative.

  /** Timers carry their serial number, so no two of them are equal. */
  ghost predicate Numbered(a: Plain) {
    forall k :: 0 <= k < |a.added| ==> a.added[k].id == k && a.added[k].addedAt <= a.now
  }

  /** Nothing is lost and nothing is duplicated. */
  ghost predicate Conserved(a: Plain) {
    multiset(a.added) == multiset(a.pending) + multiset(a.batch) + multiset(FiredTimers(a.fired))
  }

  ghost predicate OnTime(widen: bool, a: Plain) {
    && (forall x :: x in a.pending && !Stranded(widen, x) ==> a.now <= x.Deadline())
    && (forall x :: x in a.batch ==> IsDue(widen, x, a.now))
    && (forall f :: f in a.fired ==> f.tick <= a.now && f.time == f.tick % U32 && IsDue(widen, f.timer, f.tick))
  }

  ghost predicate ById(xs: seq<Timer>) {
    forall i, j :: 0 <= i < j < |xs| ==> xs[i].id < xs[j].id
  }

  ghost predicate InOrder(fired: seq<Firing>) {
    forall i, j :: 0 <= i < j < |fired| ==>
      Earlier(fired[i].tick, fired[i].timer.id, fired[j].tick, fired[j].timer.id)
  }

  ghost predicate Ordered(widen: bool, a: Plain) {
    && InOrder(a.fired) && ById(a.batch) && ById(a.pending)
    && (forall x :: x in a.pending ==> x.id < |a.added|)
    && (forall f, x :: f in a.fired && x in a.batch ==> Earlier(f.tick, f.timer.id, a.now, x.id))
    && (forall f, x :: f in a.fired && x in a.pending && IsDue(widen, x, a.now) ==>
          Earlier(f.tick, f.timer.id, a.now, x.id))
    && (forall y, x :: y in a.batch && x in a.pending && IsDue(widen, x, a.now) ==> y.id < x.id)
    && (forall x :: x in a.batch ==> x.id < |a.added|)
    && (forall f :: f in a.fired ==> f.timer.id < |a.added|)
  }

  ghost predicate PlainInv(widen: bool, a: Plain) {
    Numbered(a) && Conserved(a) && OnTime(widen, a) && Ordered(widen, a)
  }

  lemma {:induction false} DueSplits(widen: bool, xs: seq<Timer>, now: nat)
    ensures multiset(xs) == multiset(Due(widen, xs, now)) + multiset(NotDue(widen, xs, now))
  {
    if xs == [] {
    } else {
      DueSplits(widen, xs[1..], now);
      assert xs == [xs[0]] + xs[1..];
    }
  }

  lemma ByIdCons(x: Timer, xs: seq<Timer>)
    requires ById(xs) && forall y :: y in xs ==> x.id < y.id
    ensures ById([x] + xs)
  {
  }

  lemma {:induction false} DueById(widen: bool, xs: seq<Timer>, now: nat)
    requires ById(xs)
    ensures ById(Due(widen, xs, now)) && ById(NotDue(widen, xs, now))
  {
    if xs == [] {
    } else {
      var rest := xs[1..];
      DueById(widen, rest, now);
      NotDueSubset(widen, rest, now);
      assert forall y :: y in rest ==> xs[0].id < y.id;
      if IsDue(widen, xs[0], now) {
        ByIdCons(xs[0], Due(widen, rest, now));
      } else {
        ByIdCons(xs[0], NotDue(widen, rest, now));
      }
    }
  }

  lemma AddKeepsCount(a: Plain, a': Plain, x: Timer)
    requires Numbered(a) && Conserved(a) && x.id == |a.added| && x.addedAt == a.now
    requires a' == a.(pending := a.pending + [x], added := a.added + [x])
    ensures Numbered(a') && Conserved(a')
  {
    assert multiset(a'.added) == multiset(a.added) + multiset{x};
    assert multiset(a'.pending) == multiset(a.pending) + multiset{x};
  }

  lemma AddKeepsOrder(widen: bool, a: Plain, a': Plain, x: Timer)
    requires Ordered(widen, a) && OnTime(widen, a) && x.id == |a.added|
    requires a' == a.(pending := a.pending + [x], added := a.added + [x])
    ensures Ordered(widen, a')
  {
    hide Stranded, IsDue;
    assert forall y :: y in a'.pending ==> y in a.pending || y == x;
    assert ById(a'.pending) by {
      forall i, j | 0 <= i < j < |a'.pending| ensures a'.pending[i].id < a'.pending[j].id {
        assert a'.pending[i] in a.pending;
      }
    }
  }

  lemma AddKeepsInv(widen: bool, a: Plain, a': Plain, r: Request)
    requires PlainInv(widen, a) && PlainAdds(a, a', r)
    ensures PlainInv(widen, a')
  {
    var x := Timer(|a.added|, r.callBack, a.now, r.delay);
    AddKeepsCount(a, a', x);
    AddKeepsOrder(widen, a, a', x);
    assert OnTime(widen, a') by {
      hide Stranded;
    }
  }

  lemma CollectKeepsInv(widen: bool, a: Plain, a': Plain)
    requires PlainInv(widen, a) && PlainCollects(widen, a, a')
    ensures PlainInv(widen, a')
  {
    NotDueSubset(widen, a.pending, a.now);
    DueSplits(widen, a.pending, a.now);
    DueById(widen, a.pending, a.now);
  }

  lemma FireKeepsCount(a: Plain, a': Plain)
    requires Conserved(a) && PlainFires(a, a')
    ensures Conserved(a')
  {
    var x, rest := a.batch[0], a.batch[1..];
    assert a.batch == [x] + rest;
    assert FiredTimers(a'.fired) == FiredTimers(a.fired) + [x];
    assert multiset(a.batch) == multiset{x} + multiset(rest);
  }

  lemma ByIdTail(xs: seq<Timer>)
    requires ById(xs) && xs != []
    ensures ById(xs[1..])
    ensures forall y :: y in xs[1..] ==> y in xs && xs[0].id < y.id
  {
  }

  lemma FiredSnoc(fired: seq<Firing>, f: Firing)
    requires InOrder(fired)
    requires forall g :: g in fired ==> Earlier(g.tick, g.timer.id, f.tick, f.timer.id)
    ensures InOrder(fired + [f])
  {
    var fs := fired + [f];
    forall i, j | 0 <= i < j < |fs| ensures Earlier(fs[i].tick, fs[i].timer.id, fs[j].tick, fs[j].timer.id)
    {
      assert fired[i] in fired;
    }
  }

  lemma FireKeepsOrder(widen: bool, a: Plain, a': Plain)
    requires Ordered(widen, a) && PlainFires(a, a')
    ensures Ordered(widen, a')
  {
    hide Stranded, IsDue;
    var x, rest, f := a.batch[0], a.batch[1..], Firing(a.batch[0], a.now, a.now % U32);
    FiredSnoc(a.fired, f);
    ByIdTail(a.batch);
    hide InOrder, ById;
    forall g | g in a'.fired ensures g in a.fired || g == f {
    }
    forall y | y in a'.batch ensures y in a.batch && x.id < y.id {
    }
    forall g, y | g in a'.fired && y in a'.batch ensures Earlier(g.tick, g.timer.id, a.now, y.id) {
    }
  }

  lemma FireKeepsTime(widen: bool, a: Plain, a': Plain)
    requires OnTime(widen, a) && PlainFires(a, a')
    ensures OnTime(widen, a')
  {
    hide Stranded, IsDue;
    assert a.batch == [a.batch[0]] + a.batch[1..];
  }

  lemma FireKeepsInv(widen: bool, a: Plain, a': Plain)
    requires PlainInv(widen, a) && PlainFires(a, a')
    ensures PlainInv(widen, a')
  {
    hide Conserved, Ordered, OnTime;
    FireKeepsCount(a, a');
    FireKeepsOrder(widen, a, a');
    FireKeepsTime(widen, a, a');
  }

  lemma TickKeepsInv(widen: bool, a: Plain, a': Plain)
    requires PlainInv(widen, a) && PlainTicks(widen, a, a')
    ensures PlainInv(widen, a')
  {
    NotDueSubset(widen, a.pending, a.now);
  }

  lemma PlainStepKeepsInv(widen: bool, a: Plain, a': Plain)
    requires PlainInv(widen, a) && PlainStep(widen, a, a')
    ensures PlainInv(widen, a')
  {
    hide PlainInv;
    if r :| PlainAdds(a, a', r) {
      AddKeepsInv(widen, a, a', r);
    } else if PlainCollects(widen, a, a') {
      CollectKeepsInv(widen, a, a');
    } else if PlainFires(a, a') {
      FireKeepsInv(widen, a, a');
    } else {
      TickKeepsInv(widen, a, a');
    }
  }

  lemma {:induction false} PlainRunInv(widen: bool, run: seq<Plain>, k: nat)
    requires IsPlainRun(widen, run) && k < |run|
    ensures PlainInv(widen, run[k])
  {
    if k == 0 {
    } else {
      PlainRunInv(widen, run, k - 1);
      assert PlainStepAt(widen, run, k - 1);
      if run[k] != run[k - 1] {
        PlainStepKeepsInv(widen, run[k - 1], run[k]);
      }
    }
  }

  /** A run in which no `time` is negative refines a plain one whose invariant holds. */
  lemma Reached(widen: bool, run: seq<State>) returns (a: Plain)
    requires IsRun(widen, run) && Mild(Last(run))
    ensures Refines(widen, Last(run), a) && PlainInv(widen, a)
  {
    hide Mild, Refines, PlainInv;
    var plain := RunRefines(widen, run);
    PlainRunInv(widen, plain, |plain| - 1);
    a := plain[|plain| - 1];
    assert Refines(widen, run[|run| - 1], plain[|run| - 1]);
  }
}
