/**
 What every run of the timing wheel keeps, whatever `int` delays its timers have: where each timer is,
 which timers can be handed out at a tick, and that no timer is ever in two places.
 */
module WheelRuns {
  import opened Bits
  import opened WheelDelays
  import opened WheelMachine
  import opened WheelModel
  import opened WheelPlacement

  /** What is known of a timer in list `s` at tick `now`. */
  ghost predicate InSlot(widen: bool, x: Timer, s: Slot, now: nat) {
    x.delay < U32 && x.addedAt <= now && WaitsIn(widen, x, s, now)
  }

  /** What is known of a timer handed out at `tick`. */
  ghost predicate Dispatched(widen: bool, x: Timer, tick: nat) {
    x.delay < U32 && x.addedAt <= tick && Kept(widen, x) && DueTick(x) == tick
  }

  // How often a timer occurs.

  function Times(x: Timer, xs: seq<Timer>): nat {
    multiset(xs)[x]
  }

  lemma TimesAppend(x: Timer, xs: seq<Timer>, ys: seq<Timer>)
    ensures Times(x, xs + ys) == Times(x, xs) + Times(x, ys)
  {
  }

  lemma TimesIn(x: Timer, xs: seq<Timer>)
    ensures Times(x, xs) == 0 <==> x !in xs
    ensures Times(x, [x]) == 1
  {
  }

  lemma {:induction false} PlacedTimes(widen: bool, xs: seq<Timer>, time: nat, s: Slot, x: Timer)
    ensures Times(x, Placed(widen, xs, time, s)) == if Place(widen, x.Expire(), time) == s then Times(x, xs) else 0
  {
    hide Place, Timer.Expire, Times;
    if xs == [] {
      TimesIn(x, []);
    } else {
      PlacedTimes(widen, xs[1..], time, s, x);
      assert xs == [xs[0]] + xs[1..];
      TimesAppend(x, [xs[0]], xs[1..]);
      TimesAppend(x, [xs[0]], Placed(widen, xs[1..], time, s));
      TimesIn(x, [xs[0]]);
    }
  }

  /** The timer is in this list once, and in no other. */
  ghost predicate Solely(w: Wheel, r: Slot, x: Timer)
    requires w.Valid()
  {
    ValidSlot(r) && forall q :: ValidSlot(q) ==> Times(x, w.lists[q]) == if q == r then 1 else 0
  }

  ghost predicate Nowhere(w: Wheel, x: Timer)
    requires w.Valid()
  {
    forall q :: ValidSlot(q) ==> Times(x, w.lists[q]) == 0
  }

  lemma AddedTimes(widen: bool, w: Wheel, x: Timer, s: Slot, y: Timer)
    requires w.Valid() && ValidSlot(s)
    ensures Times(y, w.Added(widen, x).lists[s])
         == Times(y, w.lists[s]) + (if x == y && s == Place(widen, x.Expire(), w.time) then 1 else 0)
  {
    hide Wheel.Added, Place, Timer.Expire, Times;
    AddedList(widen, w, x, s);
    if s == Place(widen, x.Expire(), w.time) {
      TimesAppend(y, w.lists[s], [x]);
      TimesIn(y, [x]);
    } else {
      assert w.lists[s] + [] == w.lists[s];
    }
  }

  lemma AddedElsewhere(widen: bool, w: Wheel, x: Timer, y: Timer)
    requires w.Valid() && x != y
    ensures Nowhere(w, y) ==> Nowhere(w.Added(widen, x), y)
    ensures forall r :: Solely(w, r, y) ==> Solely(w.Added(widen, x), r, y)
  {
    hide Wheel.Added, Place, Timer.Expire, Times;
    forall q | ValidSlot(q) ensures Times(y, w.Added(widen, x).lists[q]) == Times(y, w.lists[q]) {
      AddedTimes(widen, w, x, q, y);
    }
  }

  lemma AddedHere(widen: bool, w: Wheel, x: Timer)
    requires w.Valid() && Nowhere(w, x)
    ensures Solely(w.Added(widen, x), Place(widen, x.Expire(), w.time), x)
  {
    hide Wheel.Added, Place, Timer.Expire, Times;
    forall q | ValidSlot(q)
      ensures Times(x, w.Added(widen, x).lists[q]) == if q == Place(widen, x.Expire(), w.time) then 1 else 0
    {
      AddedTimes(widen, w, x, q, x);
    }
  }

  /** Every list after a tick. */
  lemma ShiftedList(widen: bool, w: Wheel, s: Slot)
    requires w.Valid() && ValidSlot(s)
    ensures var t := (w.time + 1) % U32;
            w.Shifted(widen).lists[s]
            == if CascadeSlot(t).Nothing? then w.lists[s]
               else (if CascadeSlot(t) == Move(s) then [] else w.lists[s])
                    + Placed(widen, w.lists[CascadeSlot(t).slot], t, s)
  {
    hide CascadeSlot, Wheel.AddedAll;
    var w1 := w.(time := (w.time + 1) % U32);
    match CascadeSlot(w1.time)
    case Nothing =>
    case Move(from) => AddedAllLists(widen, w1.Cleared(from), w.lists[from], s);
  }

  lemma ShiftedTimes(widen: bool, w: Wheel, s: Slot, x: Timer)
    requires w.Valid() && ValidSlot(s)
    ensures var t := (w.time + 1) % U32;
            Times(x, w.Shifted(widen).lists[s])
            == if CascadeSlot(t).Nothing? then Times(x, w.lists[s])
               else (if CascadeSlot(t) == Move(s) then 0 else Times(x, w.lists[s]))
                    + (if Place(widen, x.Expire(), t) == s then Times(x, w.lists[CascadeSlot(t).slot]) else 0)
  {
    hide CascadeSlot, Wheel.Shifted, Times, Place, Timer.Expire;
    var t := (w.time + 1) % U32;
    ShiftedList(widen, w, s);
    if CascadeSlot(t).Move? {
      var moved := w.lists[CascadeSlot(t).slot];
      PlacedTimes(widen, moved, t, s, x);
      TimesAppend(x, if CascadeSlot(t) == Move(s) then [] else w.lists[s], Placed(widen, moved, t, s));
      TimesIn(x, []);
    }
  }

  /** Where a timer from list `r` is after the tick. */
  function NextSlot(widen: bool, w: Wheel, r: Slot, x: Timer): Slot {
    var t := (w.time + 1) % U32;
    if CascadeSlot(t) == Move(r) then Place(widen, x.Expire(), t) else r
  }

  lemma ShiftedSolely(widen: bool, w: Wheel, x: Timer)
    requires w.Valid()
    ensures Nowhere(w, x) ==> Nowhere(w.Shifted(widen), x)
    ensures forall r :: Solely(w, r, x) ==> Solely(w.Shifted(widen), NextSlot(widen, w, r, x), x)
  {
    hide CascadeSlot, Wheel.Shifted, Times, Place, Timer.Expire;
    forall q | ValidSlot(q)
      ensures Nowhere(w, x) ==> Times(x, w.Shifted(widen).lists[q]) == 0
      ensures forall r :: Solely(w, r, x) ==>
                Times(x, w.Shifted(widen).lists[q]) == if q == NextSlot(widen, w, r, x) then 1 else 0
    {
      ShiftedTimes(widen, w, q, x);
    }
  }

  // The invariant.

  ghost function Batch(s: State): seq<Timer> {
    if s.pc.Dispatching? then s.pc.batch else []
  }

  ghost predicate Control(s: State) {
    && Exclusive(s) && s.wheel.Valid() && s.wheel.time == s.now % U32
    && (s.pc == Shifting ==> s.wheel.lists[s.wheel.Hand()] == [])
  }

  ghost predicate History(s: State) {
    forall k :: 0 <= k < |s.added| ==>
      s.added[k].id == k && s.added[k].addedAt <= s.now && s.added[k].delay < U32
  }

  ghost predicate Located(widen: bool, w: Wheel, now: nat)
    requires w.Valid()
  {
    forall r, x :: ValidSlot(r) && x in w.lists[r] ==> InSlot(widen, x, r, now)
  }

  ghost predicate Sent(widen: bool, s: State) {
    && (forall x :: x in Batch(s) ==> Dispatched(widen, x, s.now))
    && (forall f :: f in s.fired ==> f.time == f.tick % U32 && f.tick <= s.now && Dispatched(widen, f.timer, f.tick))
  }

  /** How often a timer was handed out: in the batch being run, or already run. */
  ghost function TimesOut(s: State, x: Timer): nat {
    Times(x, Batch(s)) + Times(x, FiredTimers(s.fired))
  }

  /** A timer that was added is in one list, or in the batch, or has fired; any other is nowhere. */
  ghost predicate Once(s: State, x: Timer)
    requires s.wheel.Valid()
  {
    if x !in s.added then TimesOut(s, x) == 0 && Nowhere(s.wheel, x)
    else if TimesOut(s, x) == 0 then exists r :: Solely(s.wheel, r, x)
    else TimesOut(s, x) == 1 && Nowhere(s.wheel, x)
  }

  ghost predicate AllOnce(s: State)
    requires s.wheel.Valid()
  {
    forall x :: Once(s, x)
  }

  ghost predicate Found(widen: bool, s: State) {
    Control(s) && History(s) && Located(widen, s.wheel, s.now) && Sent(widen, s) && AllOnce(s)
  }

  lemma OnceIn(s: State, x: Timer, r: Slot)
    requires s.wheel.Valid() && Once(s, x) && ValidSlot(r)
    ensures x in s.wheel.lists[r] ==> x in s.added && TimesOut(s, x) == 0 && Solely(s.wheel, r, x)
    ensures x in Batch(s) || x in FiredTimers(s.fired) ==> x in s.added && TimesOut(s, x) == 1 && Nowhere(s.wheel, x)
  {
    hide Times;
    TimesIn(x, s.wheel.lists[r]);
    TimesIn(x, Batch(s));
    TimesIn(x, FiredTimers(s.fired));
  }

  lemma ControlValid(s: State)
    requires Control(s)
    ensures s.wheel.Valid() && s.wheel.time == s.now % U32
  {
  }

  // AddTimer links a timer.

  lemma LinkLocated(widen: bool, w: Wheel, x: Timer)
    requires w.Valid() && w.time == x.addedAt % U32 && x.delay < U32 && Located(widen, w, x.addedAt)
    ensures Located(widen, w.Added(widen, x), x.addedAt)
  {
    hide WaitsIn, Wheel.Added, Place, Timer.Expire;
    FreshWaits(widen, x);
    forall r, y | ValidSlot(r) && y in w.Added(widen, x).lists[r] ensures InSlot(widen, y, r, x.addedAt) {
      AddedList(widen, w, x, r);
    }
  }

  lemma LinkOnce(widen: bool, s: State, s': State, x: Timer)
    requires s.wheel.Valid() && AllOnce(s) && x !in s.added
    requires s'.wheel == s.wheel.Added(widen, x) && s'.added == s.added + [x]
    requires Batch(s') == Batch(s) && s'.fired == s.fired
    ensures AllOnce(s')
  {
    hide Times, Wheel.Added, Nowhere, Solely, Place;
    forall y ensures Once(s', y) {
      assert Once(s, y);
      if y == x {
        AddedHere(widen, s.wheel, x);
      } else {
        AddedElsewhere(widen, s.wheel, x, y);
      }
    }
  }

  lemma NewIsNew(s: State, r: Request)
    requires History(s)
    ensures NewTimer(s, r) !in s.added
  {
  }

  lemma LinkFound(widen: bool, s: State, s': State, i: nat)
    requires Found(widen, s) && AdderLinks(widen, s, s', i)
    ensures Found(widen, s')
  {
    hide Located, AllOnce, Dispatched, Wheel.Added;
    var x := NewTimer(s, s.adders[i]);
    NewIsNew(s, s.adders[i]);
    LinkLocated(widen, s.wheel, x);
    LinkOnce(widen, s, s', x);
    assert s.adders - {i} == map[];
  }

  // TimerExecute detaches the list under the hand, and runs its callbacks.

  lemma DetachOnce(s: State, s': State)
    requires s.wheel.Valid() && AllOnce(s) && Detaches(s, s')
    ensures AllOnce(s')
  {
    hide Times;
    var hand := s.wheel.Hand();
    forall x ensures Once(s', x) {
      assert Once(s, x);
      TimesIn(x, []);
      if r :| Solely(s.wheel, r, x) {
        assert r != hand ==> Solely(s'.wheel, r, x);
      }
    }
  }

  lemma DetachControl(s: State, s': State)
    requires Control(s) && Detaches(s, s')
    ensures Control(s')
  {
    hide Wheel.Hand;
  }

  lemma DetachLocated(widen: bool, s: State, s': State)
    requires Control(s) && Detaches(s, s') && Located(widen, s.wheel, s.now)
    ensures s'.wheel.Valid() && Located(widen, s'.wheel, s.now)
    ensures forall x :: x in Batch(s') ==> Dispatched(widen, x, s.now)
  {
    hide Exclusive, WaitsIn, Kept, DueTick;
    forall x | x in Batch(s') ensures Dispatched(widen, x, s.now) {
      HandWaitsFor(widen, x, s.now);
    }
  }

  lemma DetachFound(widen: bool, s: State, s': State)
    requires Found(widen, s) && Detaches(s, s')
    ensures Found(widen, s')
  {
    hide AllOnce, Located, Dispatched, Wheel.Hand, Wheel.Cleared;
    DetachControl(s, s');
    DetachOnce(s, s');
    DetachLocated(widen, s, s');
  }

  lemma CallbackTimes(s: State, s': State, x: Timer)
    requires RunsCallback(s, s')
    ensures TimesOut(s', x) == TimesOut(s, x)
  {
    hide Times;
    var y, rest := s.pc.batch[0], s.pc.batch[1..];
    assert s.pc.batch == [y] + rest;
    assert FiredTimers(s'.fired) == FiredTimers(s.fired) + [y];
    TimesAppend(x, [y], rest);
    TimesAppend(x, FiredTimers(s.fired), [y]);
  }

  lemma CallbackFound(widen: bool, s: State, s': State)
    requires Found(widen, s) && RunsCallback(s, s')
    ensures Found(widen, s')
  {
    hide Located, Dispatched, TimesOut, Nowhere, Solely;
    forall x ensures Once(s', x) {
      assert Once(s, x);
      CallbackTimes(s, s', x);
    }
    assert s.pc.batch == [s.pc.batch[0]] + s.pc.batch[1..];
  }

  // TimerShift.

  lemma PlacedMember(widen: bool, xs: seq<Timer>, time: nat, s: Slot, x: Timer)
    requires x in Placed(widen, xs, time, s)
    ensures x in xs && Place(widen, x.Expire(), time) == s
  {
    hide Place, Timer.Expire, Times;
    PlacedTimes(widen, xs, time, s, x);
    TimesIn(x, xs);
    TimesIn(x, Placed(widen, xs, time, s));
  }

  lemma OffHand(widen: bool, w: Wheel, now: nat, r: Slot, x: Timer)
    requires w.Valid() && w.time == now % U32 && Located(widen, w, now) && w.lists[w.Hand()] == []
    requires ValidSlot(r) && x in w.lists[r]
    ensures InSlot(widen, x, r, now) && r != Near(now % U32 % Unit(0))
  {
    hide InSlot;
  }

  lemma ShiftInSlot(widen: bool, w: Wheel, now: nat, r: Slot, x: Timer)
    requires w.Valid() && w.time == now % U32 && Located(widen, w, now) && w.lists[w.Hand()] == []
    requires ValidSlot(r) && x in w.Shifted(widen).lists[r]
    ensures InSlot(widen, x, r, now + 1)
  {
    hide WaitsIn, Located, Wheel.Hand, CascadeSlot, Placed, Place, Timer.Expire, Wheel.Shifted;
    WordSucc(now);
    ShiftedList(widen, w, r);
    var c := CascadeSlot((now + 1) % U32);
    if c.Move? && x in Placed(widen, w.lists[c.slot], (now + 1) % U32, r) {
      PlacedMember(widen, w.lists[c.slot], (now + 1) % U32, r, x);
      OffHand(widen, w, now, c.slot, x);
      WaitsStep(widen, x, c.slot, now);
    } else {
      OffHand(widen, w, now, r, x);
      WaitsStep(widen, x, r, now);
    }
  }

  lemma ShiftOnce(widen: bool, s: State, s': State)
    requires s.wheel.Valid() && AllOnce(s) && Shifts(widen, s, s')
    ensures AllOnce(s')
  {
    hide Times, Wheel.Shifted, Nowhere, Solely, NextSlot;
    forall x ensures Once(s', x) {
      assert Once(s, x);
      ShiftedSolely(widen, s.wheel, x);
    }
  }

  lemma ShiftedTime(widen: bool, w: Wheel)
    requires w.Valid()
    ensures w.Shifted(widen).time == (w.time + 1) % U32
  {
  }

  lemma ShiftControl(widen: bool, s: State, s': State)
    requires Control(s) && Shifts(widen, s, s')
    ensures Control(s')
  {
    hide Wheel.Shifted, Wheel.Hand;
    WordSucc(s.now);
    ShiftedTime(widen, s.wheel);
  }

  lemma ShiftLocated(widen: bool, s: State, s': State)
    requires Control(s) && Located(widen, s.wheel, s.now) && Shifts(widen, s, s')
    ensures s'.wheel.Valid() && Located(widen, s'.wheel, s'.now)
  {
    hide InSlot, Wheel.Shifted;
    forall r, x | ValidSlot(r) && x in s'.wheel.lists[r] ensures InSlot(widen, x, r, s'.now) {
      ShiftInSlot(widen, s.wheel, s.now, r, x);
    }
  }

  lemma ShiftFound(widen: bool, s: State, s': State)
    requires Found(widen, s) && Shifts(widen, s, s')
    ensures Found(widen, s')
  {
    hide AllOnce, Located, Dispatched, Wheel.Shifted;
    ShiftOnce(widen, s, s');
    ShiftControl(widen, s, s');
    ShiftLocated(widen, s, s');
  }

  // The other steps only take or give back the lock.

  ghost predicate OnlyLocks(s: State, s': State) {
    (exists i, r :: AdderLocks(s, s', i, r)) || UpdateLocks(s, s') || Relocks(s, s') || FindsNone(s, s')
  }

  lemma AdderLockExclusive(s: State, s': State, i: nat, r: Request)
    requires Exclusive(s) && AdderLocks(s, s', i, r)
    ensures Exclusive(s')
  {
    assert s'.adders == map[i := r];
  }

  lemma LockExclusive(s: State, s': State)
    requires Exclusive(s) && OnlyLocks(s, s')
    ensures Exclusive(s')
  {
    if i, r :| AdderLocks(s, s', i, r) {
      hide Exclusive;
      AdderLockExclusive(s, s', i, r);
    }
  }

  lemma LockControl(s: State, s': State)
    requires Control(s) && OnlyLocks(s, s')
    ensures Control(s') && s'.wheel == s.wheel && s'.now == s.now && s'.added == s.added && s'.fired == s.fired
    ensures Batch(s') == Batch(s)
  {
    hide Wheel.Hand, Wheel.Valid, Exclusive;
    LockExclusive(s, s');
  }

  lemma LockFound(widen: bool, s: State, s': State)
    requires Found(widen, s) && OnlyLocks(s, s')
    ensures Found(widen, s')
  {
    hide OnlyLocks, Control, Batch, Located, Dispatched, Times, Nowhere, Solely;
    LockControl(s, s');
    assert s'.wheel.Valid() by {
      ControlValid(s');
    }
    forall x ensures Once(s', x) {
      assert Once(s, x);
    }
  }

  lemma StepFound(widen: bool, s: State, s': State)
    requires Found(widen, s) && Step(widen, s, s')
    ensures Found(widen, s')
  {
    hide Found;
    if i :| AdderLinks(widen, s, s', i) {
      LinkFound(widen, s, s', i);
    } else if Detaches(s, s') {
      DetachFound(widen, s, s');
    } else if RunsCallback(s, s') {
      CallbackFound(widen, s, s');
    } else if Shifts(widen, s, s') {
      ShiftFound(widen, s, s');
    } else {
      LockFound(widen, s, s');
    }
  }

  lemma StartFound(widen: bool, s: State)
    requires Init(s)
    ensures Found(widen, s)
  {
    forall x ensures Once(s, x) {
    }
  }

  lemma FoundValid(widen: bool, s: State)
    requires Found(widen, s)
    ensures s.wheel.Valid() && s.wheel.time == s.now % U32
  {
  }

  lemma {:induction false} RunFound(widen: bool, run: seq<State>, k: nat)
    requires IsRun(widen, run) && k < |run|
    ensures Found(widen, run[k])
  {
    hide Step, Found;
    if k == 0 {
      StartFound(widen, run[0]);
    } else {
      RunFound(widen, run, k - 1);
      assert StepAt(widen, run, k - 1);
      StepFound(widen, run[k - 1], run[k]);
    }
  }

  lemma LastFound(widen: bool, run: seq<State>)
    requires IsRun(widen, run)
    ensures run != [] && Found(widen, Last(run)) && Last(run).wheel.Valid()
    ensures Last(run).wheel.time == Last(run).now % U32
  {
    hide Found, Wheel.Valid;
    RunFound(widen, run, |run| - 1);
    FoundValid(widen, Last(run));
  }

  // What this means for one timer in one state.

  lemma FiredAt(s: State, x: Timer) returns (f: Firing)
    requires x in FiredTimers(s.fired)
    ensures f in s.fired && f.timer == x
  {
    var k :| 0 <= k < |s.fired| && FiredTimers(s.fired)[k] == x;
    f := s.fired[k];
  }

  lemma HandedOut(widen: bool, s: State, x: Timer)
    requires Found(widen, s) && TimesOut(s, x) > 0
    ensures Kept(widen, x) && DueTick(x) <= s.now
    ensures x in Batch(s) ==> DueTick(x) == s.now
  {
    hide Control, History, Located, AllOnce, Kept, DueTick, Times;
    TimesIn(x, Batch(s));
    TimesIn(x, FiredTimers(s.fired));
    if x in FiredTimers(s.fired) {
      var f := FiredAt(s, x);
    }
  }

  lemma StillWaits(widen: bool, s: State, x: Timer) returns (r: Slot)
    requires Found(widen, s) && x in s.added && TimesOut(s, x) == 0
    ensures Solely(s.wheel, r, x) && x in s.wheel.lists[r] && InSlot(widen, x, r, s.now)
  {
    hide History, Sent, TimesOut, WaitsIn, Times;
    assert Once(s, x);
    r :| Solely(s.wheel, r, x);
    TimesIn(x, s.wheel.lists[r]);
  }

  /** When the list under the hand is empty and no batch is being run. */
  ghost predicate HandDone(s: State)
    requires s.wheel.Valid()
  {
    s.wheel.lists[s.wheel.Hand()] == [] && Batch(s) == []
  }

  lemma TimesFired(widen: bool, s: State, x: Timer)
    requires Found(widen, s) && x in s.added
    ensures var times := Times(x, FiredTimers(s.fired));
            && (!Kept(widen, x) || s.now < DueTick(x) ==> times == 0)
            && (Kept(widen, x) && (DueTick(x) < s.now || (DueTick(x) == s.now && HandDone(s))) ==> times == 1)
  {
    hide History, Located, Sent, Kept, DueTick, Times, Nowhere, Solely, WaitsIn;
    assert Once(s, x);
    TimesIn(x, Batch(s));
    if TimesOut(s, x) > 0 {
      HandedOut(widen, s, x);
    } else {
      var r := StillWaits(widen, s, x);
      if Kept(widen, x) {
        NotOverdue(widen, x, r, s.now);
      }
    }
  }

  // List 0 of a level below the top only grows.

  lemma ShiftKeepsZero(widen: bool, w: Wheel, l: nat)
    requires w.Valid() && l < 3
    ensures w.lists[Level(l, 0)] <= w.Shifted(widen).lists[Level(l, 0)]
  {
    hide CascadeSlot, Wheel.Shifted;
    var t := (w.time + 1) % U32;
    ShiftedList(widen, w, Level(l, 0));
    if CascadeSlot(t) == Move(Level(l, 0)) {
      ZeroNeverMoved(t, Level(l, 0));
    }
  }

  lemma ZeroGrows(widen: bool, s: State, s': State, l: nat)
    requires s.wheel.Valid() && s'.wheel.Valid() && Step(widen, s, s') && l < 3
    ensures s.wheel.lists[Level(l, 0)] <= s'.wheel.lists[Level(l, 0)]
  {
    hide Wheel.Added, Wheel.Shifted;
    if i :| AdderLinks(widen, s, s', i) {
      AddedList(widen, s.wheel, NewTimer(s, s.adders[i]), Level(l, 0));
    } else if Shifts(widen, s, s') {
      ShiftKeepsZero(widen, s.wheel, l);
    }
  }

  lemma LinkedFirst(widen: bool, s: State, s': State, x: Timer)
    requires Found(widen, s) && Step(widen, s, s') && x in s'.added && x !in s.added && s'.wheel.Valid()
    ensures x in s'.wheel.lists[FirstSlot(widen, x)]
  {
    hide Located, History, Sent, AllOnce, Wheel.Shifted, Wheel.Added, Place, Timer.Expire;
    var i :| AdderLinks(widen, s, s', i);
    AddedList(widen, s.wheel, x, FirstSlot(widen, x));
  }

  lemma {:induction false} ZeroStays(widen: bool, run: seq<State>, k: nat, x: Timer)
    requires IsRun(widen, run) && k < |run| && x in run[k].added && AtZero(widen, x)
    ensures run[k].wheel.Valid() && x in run[k].wheel.lists[FirstSlot(widen, x)]
  {
    hide Step, Located, History, Sent, AllOnce, FirstSlot;
    RunFound(widen, run, k);
    if k == 0 {
    } else {
      var s, s' := run[k - 1], run[k];
      RunFound(widen, run, k - 1);
      assert StepAt(widen, run, k - 1);
      if x in s.added {
        ZeroStays(widen, run, k - 1, x);
        ZeroGrows(widen, s, s', FirstSlot(widen, x).l);
      } else {
        LinkedFirst(widen, s, s', x);
      }
    }
  }
}
