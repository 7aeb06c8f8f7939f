/**
 The order in which every run of the timing wheel hands out the timers that were added with `time >= 0`,
 whatever other timers there are.
 */
module WheelOrder {
  import opened Bits
  import opened WheelDelays
  import opened WheelMachine
  import opened WheelModel
  import opened WheelPlacement
  import opened WheelRuns

  /** Added with `time >= 0`. */
  predicate Forward(x: Timer) {
    x.delay < MAX_DELAY
  }

  /** Tick first, serial number second. */
  predicate Earlier(t: nat, i: nat, u: nat, j: nat) {
    t < u || (t == u && i < j)
  }

  ghost predicate Ascending(xs: seq<Timer>) {
    forall i, j :: 0 <= i < j < |xs| && Forward(xs[i]) && Forward(xs[j]) ==> xs[i].id < xs[j].id
  }

  ghost predicate Precedes(xs: seq<Timer>, ys: seq<Timer>) {
    forall x, y :: x in xs && y in ys && Forward(x) && Forward(y) ==> x.id < y.id
  }

  ghost predicate InTurn(fired: seq<Firing>) {
    forall i, j :: 0 <= i < j < |fired| && Forward(fired[i].timer) && Forward(fired[j].timer) ==>
      Earlier(fired[i].tick, fired[i].timer.id, fired[j].tick, fired[j].timer.id)
  }

  /** Every list and the batch are in order; what fired at this tick comes before the batch, and both come
      before the list under the hand. */
  ghost predicate Sequenced(s: State)
    requires s.wheel.Valid()
  {
    var hand := s.wheel.lists[s.wheel.Hand()];
    && (forall r :: ValidSlot(r) ==> Ascending(s.wheel.lists[r]))
    && Ascending(Batch(s)) && Precedes(Batch(s), hand) && InTurn(s.fired)
    && forall f :: f in s.fired && f.tick == s.now ==> Precedes([f.timer], Batch(s)) && Precedes([f.timer], hand)
  }

  lemma AppendAscending(xs: seq<Timer>, ys: seq<Timer>)
    requires Ascending(xs) && Ascending(ys) && Precedes(xs, ys)
    ensures Ascending(xs + ys)
  {
    var zs := xs + ys;
    forall i, j | 0 <= i < j < |zs| && Forward(zs[i]) && Forward(zs[j]) ensures zs[i].id < zs[j].id {
      assert i < |xs| ==> xs[i] in xs;
    }
  }

  lemma ShortAscending(x: Timer)
    ensures Ascending([]) && Ascending([x])
  {
  }

  lemma AscendingTail(xs: seq<Timer>)
    requires Ascending(xs) && xs != []
    ensures Ascending(xs[1..]) && Precedes([xs[0]], xs[1..])
  {
    forall y | y in xs[1..] && Forward(xs[0]) && Forward(y) ensures xs[0].id < y.id {
      var k :| 0 <= k < |xs[1..]| && xs[1..][k] == y;
      assert xs[k + 1] == y;
    }
  }

  // AddTimer links a timer.

  /** Serial numbers so far are smaller than the next one. */
  lemma NewIsLast(widen: bool, s: State, r: Request)
    requires Found(widen, s)
    ensures forall q :: ValidSlot(q) ==> Precedes(s.wheel.lists[q], [NewTimer(s, r)])
    ensures Precedes(Batch(s), [NewTimer(s, r)])
    ensures forall f :: f in s.fired ==> Precedes([f.timer], [NewTimer(s, r)])
  {
    hide Sent, Located, Once, TimesOut;
    forall q, y | ValidSlot(q) && y in s.wheel.lists[q] ensures y.id < |s.added| {
      assert Once(s, y);
      OnceIn(s, y, q);
    }
    forall y | y in Batch(s) || y in FiredTimers(s.fired) ensures y.id < |s.added| {
      assert Once(s, y);
      OnceIn(s, y, Near(0));
    }
    forall f | f in s.fired ensures f.timer in FiredTimers(s.fired) {
      var k :| 0 <= k < |s.fired| && s.fired[k] == f;
      assert FiredTimers(s.fired)[k] == f.timer;
    }
  }

  lemma LinkAscending(widen: bool, w: Wheel, x: Timer, r: Slot)
    requires w.Valid() && ValidSlot(r) && Ascending(w.lists[r]) && Precedes(w.lists[r], [x])
    ensures Ascending(w.Added(widen, x).lists[r])
  {
    hide Wheel.Added, Place, Timer.Expire, Ascending, Precedes;
    AddedList(widen, w, x, r);
    ShortAscending(x);
    if Place(widen, x.Expire(), w.time) == r {
      AppendAscending(w.lists[r], [x]);
    } else {
      assert w.lists[r] + [] == w.lists[r];
    }
  }

  lemma LinkPrecedes(widen: bool, w: Wheel, x: Timer, r: Slot, xs: seq<Timer>)
    requires w.Valid() && ValidSlot(r) && Precedes(xs, w.lists[r]) && Precedes(xs, [x])
    ensures Precedes(xs, w.Added(widen, x).lists[r])
  {
    hide Wheel.Added, Place, Timer.Expire, Forward;
    AddedList(widen, w, x, r);
    assert x in [x];
  }

  lemma LinkSequenced(widen: bool, s: State, s': State, i: nat)
    requires Found(widen, s) && Sequenced(s) && AdderLinks(widen, s, s', i)
    ensures Sequenced(s')
  {
    hide Found, Ascending, Precedes, InTurn, Wheel.Added;
    var x, w, hand := NewTimer(s, s.adders[i]), s.wheel, s.wheel.Hand();
    NewIsLast(widen, s, s.adders[i]);
    forall r | ValidSlot(r) ensures Ascending(w.Added(widen, x).lists[r]) {
      LinkAscending(widen, w, x, r);
    }
    LinkPrecedes(widen, w, x, hand, Batch(s));
    forall f | f in s.fired && f.tick == s.now ensures Precedes([f.timer], w.Added(widen, x).lists[hand]) {
      LinkPrecedes(widen, w, x, hand, [f.timer]);
    }
  }

  // TimerExecute.

  lemma DetachSequenced(s: State, s': State)
    requires s.wheel.Valid() && Sequenced(s) && Detaches(s, s')
    ensures Sequenced(s')
  {
  }

  lemma FiredLast(fired: seq<Firing>, f: Firing)
    requires InTurn(fired)
    requires forall g :: g in fired && Forward(g.timer) && Forward(f.timer) ==>
               Earlier(g.tick, g.timer.id, f.tick, f.timer.id)
    ensures InTurn(fired + [f])
  {
    hide Forward, Earlier;
    var fs := fired + [f];
    forall i, j | 0 <= i < j < |fs| && Forward(fs[i].timer) && Forward(fs[j].timer)
      ensures Earlier(fs[i].tick, fs[i].timer.id, fs[j].tick, fs[j].timer.id)
    {
      assert fired[i] in fired;
    }
  }

  lemma CallbackSequenced(widen: bool, s: State, s': State)
    requires Found(widen, s) && Sequenced(s) && RunsCallback(s, s')
    ensures Sequenced(s')
  {
    hide AllOnce, Located, Dispatched, Ascending, Forward, InTurn;
    var x, rest := s.pc.batch[0], s.pc.batch[1..];
    assert s.pc.batch == [x] + rest;
    AscendingTail(s.pc.batch);
    forall g | g in s.fired && Forward(g.timer) && Forward(x)
      ensures Earlier(g.tick, g.timer.id, s.now, x.id)
    {
      assert g.tick == s.now ==> Precedes([g.timer], Batch(s));
    }
    FiredLast(s.fired, Firing(x, s.now, s.wheel.time));
  }

  // TimerShift.

  lemma {:induction false} PlacedAscending(widen: bool, xs: seq<Timer>, time: nat, s: Slot)
    requires Ascending(xs)
    ensures Ascending(Placed(widen, xs, time, s))
  {
    hide Place, Timer.Expire;
    if xs == [] {
    } else {
      var rest := Placed(widen, xs[1..], time, s);
      PlacedAscending(widen, xs[1..], time, s);
      AscendingTail(xs);
      forall y | y in rest ensures y in xs[1..] {
        PlacedMember(widen, xs[1..], time, s, y);
      }
      ShortAscending(xs[0]);
      AppendAscending([xs[0]], rest);
    }
  }

  /** A timer added with `time >= 0` waits in no list below the cascaded one, and moves only down, or back
      to where it was. */
  lemma ForwardStep(widen: bool, x: Timer, s: Slot, now: nat)
    requires Forward(x) && InSlot(widen, x, s, now) && s != Near(now % U32 % Unit(0))
    ensures var t := (now + 1) % U32;
            var c := CascadeSlot(t);
            c.Move? ==>
              if s == c.slot then Place(widen, x.Expire(), t) == s || Rank(Place(widen, x.Expire(), t)) < Rank(s)
              else Rank(s) >= Rank(c.slot)
  {
    hide Stranded, Home, CascadeSlot, Place, Rank;
    DueAtHand(widen, x, now);
    HomeStep(widen, x, now);
    if CascadeSlot((now + 1) % U32) == Move(s) {
      RelinkedAtHome(widen, x, now);
    }
  }

  /** So a cascade never appends such a timer to a list that keeps another. */
  lemma ForwardApart(widen: bool, w: Wheel, now: nat, from: Slot, r: Slot, x: Timer, y: Timer)
    requires w.Valid() && w.time == now % U32 && Located(widen, w, now) && w.lists[w.Hand()] == []
    requires CascadeSlot((now + 1) % U32) == Move(from) && ValidSlot(r) && r != from
    requires x in w.lists[r] && y in w.lists[from] && Place(widen, y.Expire(), (now + 1) % U32) == r
    ensures !Forward(x) || !Forward(y)
  {
    hide WaitsIn, CascadeSlot, Place, Timer.Expire, Rank, Forward;
    if Forward(x) && Forward(y) {
      ForwardStep(widen, x, r, now);
      ForwardStep(widen, y, from, now);
    }
  }

  lemma ShiftAscending(widen: bool, w: Wheel, now: nat, r: Slot)
    requires w.Valid() && w.time == now % U32 && Located(widen, w, now) && w.lists[w.Hand()] == []
    requires (forall q :: ValidSlot(q) ==> Ascending(w.lists[q])) && ValidSlot(r)
    ensures Ascending(w.Shifted(widen).lists[r])
  {
    hide Located, CascadeSlot, Placed, Place, Timer.Expire, Wheel.Shifted, Ascending, Forward;
    WordSucc(now);
    ShiftedList(widen, w, r);
    var t := (now + 1) % U32;
    if CascadeSlot(t).Move? {
      var from := CascadeSlot(t).slot;
      var stay, moved := if from == r then [] else w.lists[r], Placed(widen, w.lists[from], t, r);
      PlacedAscending(widen, w.lists[from], t, r);
      forall x, y | x in stay && y in moved ensures !Forward(x) || !Forward(y) {
        PlacedMember(widen, w.lists[from], t, r, y);
        ForwardApart(widen, w, now, from, r, x, y);
      }
      ShortAscending(Timer(0, 0, 0, 0));
      AppendAscending(stay, moved);
    }
  }

  lemma ShiftSequenced(widen: bool, s: State, s': State)
    requires Found(widen, s) && Sequenced(s) && Shifts(widen, s, s')
    ensures Sequenced(s')
  {
    hide AllOnce, Located, Dispatched, Ascending, InTurn, Wheel.Shifted;
    ShortAscending(Timer(0, 0, 0, 0));
    forall r | ValidSlot(r) ensures Ascending(s'.wheel.lists[r]) {
      ShiftAscending(widen, s.wheel, s.now, r);
    }
  }

  lemma StepSequenced(widen: bool, s: State, s': State)
    requires Found(widen, s) && Sequenced(s) && Step(widen, s, s') && s'.wheel.Valid()
    ensures Sequenced(s')
  {
    if i :| AdderLinks(widen, s, s', i) {
      hide Sequenced, Found;
      LinkSequenced(widen, s, s', i);
    } else if Detaches(s, s') {
      hide Sequenced, Found;
      DetachSequenced(s, s');
    } else if RunsCallback(s, s') {
      hide Sequenced, Found;
      CallbackSequenced(widen, s, s');
    } else if Shifts(widen, s, s') {
      hide Sequenced, Found;
      ShiftSequenced(widen, s, s');
    } else {
      hide Ascending, Precedes, InTurn, Found;
      assert Batch(s') == Batch(s) && s'.wheel == s.wheel;
    }
  }

  lemma StartSequenced(s: State)
    requires Init(s) && s.wheel.Valid()
    ensures Sequenced(s)
  {
  }

  lemma {:induction false} RunSequenced(widen: bool, run: seq<State>, k: nat)
    requires IsRun(widen, run) && k < |run|
    ensures run[k].wheel.Valid() && Sequenced(run[k])
  {
    hide Step, Sequenced, Init;
    RunFound(widen, run, k);
    if k == 0 {
      StartSequenced(run[0]);
    } else {
      RunSequenced(widen, run, k - 1);
      RunFound(widen, run, k - 1);
      assert StepAt(widen, run, k - 1);
      StepSequenced(widen, run[k - 1], run[k]);
    }
  }
}
