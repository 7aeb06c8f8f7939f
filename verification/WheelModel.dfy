/**
 The lists of the timing wheel as sequences, the wheel operations on them, and the invariant that
 ties them to the plain sequence of pending timers: every list holds, in the order they were added,
 exactly the pending timers whose home it is.
 */
module WheelModel {
  import opened Bits
  import opened WheelPlacement

  datatype Wheel = Wheel(time: nat, lists: map<Slot, seq<Timer>>) {

    ghost predicate Valid() {
      && time < U32
      && forall s :: ValidSlot(s) <==> s in lists
    }

    /** `Link`: append to one list. */
    function Linked(s: Slot, x: Timer): (w: Wheel)
      requires Valid() && ValidSlot(s)
      ensures w.Valid() && w.time == time
    {
      this.(lists := lists[s := lists[s] + [x]])
    }

    /** `ClearLink`: empty one list. */
    function Cleared(s: Slot): (w: Wheel)
      requires Valid() && ValidSlot(s)
      ensures w.Valid() && w.time == time
    {
      this.(lists := lists[s := []])
    }

    /** `AddNode`. */
    function Added(widen: bool, x: Timer): (w: Wheel)
      requires Valid()
      ensures w.Valid() && w.time == time
    {
      Linked(Place(widen, x.Expire(), time), x)
    }

    /** `AddNode` for every timer of a list, front to back. */
    function AddedAll(widen: bool, xs: seq<Timer>): (w: Wheel)
      requires Valid()
      ensures w.Valid() && w.time == time
      decreases |xs|
    {
      if xs == [] then this else Added(widen, xs[0]).AddedAll(widen, xs[1..])
    }

    /** `MoveList`: empty a list, then link its timers again, front to back. */
    function Moved(widen: bool, s: Slot): (w: Wheel)
      requires Valid() && ValidSlot(s)
      ensures w.Valid() && w.time == time
    {
      Cleared(s).AddedAll(widen, lists[s])
    }

    /** `TimerShift`: advance the clock word and cascade at most one list. */
    function Shifted(widen: bool): (w: Wheel)
      requires Valid()
      ensures w.Valid()
    {
      var w := this.(time := (time + 1) % U32);
      match CascadeSlot(w.time)
      case Nothing => w
      case Move(s) => w.Moved(widen, s)
    }

    /** The near list under the clock hand. */
    function Hand(): (s: Slot)
      ensures ValidSlot(s)
    {
      Near(time % Unit(0))
    }
  }

  /** The subsequence of `xs` whose home at tick `now` is list `s`. */
  function Homed(widen: bool, xs: seq<Timer>, now: nat, s: Slot): seq<Timer> {
    if xs == [] then []
    else
      var rest := Homed(widen, xs[1..], now, s);
      if Home(widen, xs[0], now) == s then [xs[0]] + rest else rest
  }

  /** The subsequence of `xs` a wheel standing at `time` would link into list `s`. */
  function Placed(widen: bool, xs: seq<Timer>, time: nat, s: Slot): seq<Timer> {
    if xs == [] then []
    else
      var rest := Placed(widen, xs[1..], time, s);
      if Place(widen, xs[0].Expire(), time) == s then [xs[0]] + rest else rest
  }

  predicate IsDue(widen: bool, x: Timer, now: nat) {
    !Stranded(widen, x) && x.Deadline() == now
  }

  /** The timers that are due, in order, and the rest, in order. */
  function Due(widen: bool, xs: seq<Timer>, now: nat): seq<Timer> {
    if xs == [] then []
    else
      var rest := Due(widen, xs[1..], now);
      if IsDue(widen, xs[0], now) then [xs[0]] + rest else rest
  }

  function NotDue(widen: bool, xs: seq<Timer>, now: nat): seq<Timer> {
    if xs == [] then []
    else
      var rest := NotDue(widen, xs[1..], now);
      if IsDue(widen, xs[0], now) then rest else [xs[0]] + rest
  }

  ghost predicate AllWaiting(widen: bool, xs: seq<Timer>, now: nat) {
    forall x :: x in xs ==> Waiting(widen, x, now)
  }

  /** The wheel invariant at tick `now`. */
  ghost predicate Holds(widen: bool, w: Wheel, pending: seq<Timer>, now: nat) {
    && w.Valid()
    && w.time == now % U32
    && AllWaiting(widen, pending, now)
    && forall s :: ValidSlot(s) ==> w.lists[s] == Homed(widen, pending, now, s)
  }

  // Adding one timer.

  lemma {:induction false} HomedAppend(widen: bool, xs: seq<Timer>, x: Timer, now: nat, s: Slot)
    ensures Homed(widen, xs + [x], now, s)
         == Homed(widen, xs, now, s) + (if Home(widen, x, now) == s then [x] else [])
  {
    if xs == [] {
      assert xs + [x] == [x];
    } else {
      assert (xs + [x])[0] == xs[0] && (xs + [x])[1..] == xs[1..] + [x];
      HomedAppend(widen, xs[1..], x, now, s);
    }
  }

  lemma AddKeeps(widen: bool, w: Wheel, pending: seq<Timer>, now: nat, x: Timer)
    requires Holds(widen, w, pending, now)
    requires x.addedAt == now && x.delay < MAX_DELAY
    ensures Holds(widen, w.Added(widen, x), pending + [x], now)
  {
    FreshAtHome(widen, x);
    forall s | ValidSlot(s)
      ensures w.Added(widen, x).lists[s] == Homed(widen, pending + [x], now, s)
    {
      HomedAppend(widen, pending, x, now, s);
    }
  }

  // Collecting the list under the clock hand.

  lemma {:induction false} HandIsDue(widen: bool, xs: seq<Timer>, now: nat)
    requires AllWaiting(widen, xs, now)
    ensures Homed(widen, xs, now, Near(now % U32 % Unit(0))) == Due(widen, xs, now)
  {
    if xs == [] {
    } else {
      DueAtHand(widen, xs[0], now);
      HandIsDue(widen, xs[1..], now);
    }
  }

  lemma NotDueSubset(widen: bool, xs: seq<Timer>, now: nat)
    ensures forall x :: x in NotDue(widen, xs, now) <==> x in xs && !IsDue(widen, x, now)
    ensures forall x :: x in Due(widen, xs, now) <==> x in xs && IsDue(widen, x, now)
  {
  }

  lemma {:induction false} NotDueHomed(widen: bool, xs: seq<Timer>, now: nat, s: Slot)
    requires AllWaiting(widen, xs, now)
    ensures Homed(widen, NotDue(widen, xs, now), now, s)
         == if s == Near(now % U32 % Unit(0)) then [] else Homed(widen, xs, now, s)
  {
    if xs == [] {
    } else {
      DueAtHand(widen, xs[0], now);
      NotDueHomed(widen, xs[1..], now, s);
    }
  }

  lemma CollectKeeps(widen: bool, w: Wheel, pending: seq<Timer>, now: nat)
    requires Holds(widen, w, pending, now)
    ensures w.lists[w.Hand()] == Due(widen, pending, now)
    ensures Holds(widen, w.Cleared(w.Hand()), NotDue(widen, pending, now), now)
  {
    HandIsDue(widen, pending, now);
    NotDueSubset(widen, pending, now);
    forall s | ValidSlot(s)
      ensures w.Cleared(w.Hand()).lists[s] == Homed(widen, NotDue(widen, pending, now), now, s)
    {
      NotDueHomed(widen, pending, now, s);
    }
  }

  // One tick.

  lemma AddedList(widen: bool, w: Wheel, x: Timer, s: Slot)
    requires w.Valid() && ValidSlot(s)
    ensures w.Added(widen, x).lists[s]
         == w.lists[s] + (if Place(widen, x.Expire(), w.time) == s then [x] else [])
  {
    hide Place;
  }

  lemma {:induction false} AddedAllLists(widen: bool, w: Wheel, xs: seq<Timer>, s: Slot)
    requires w.Valid() && ValidSlot(s)
    ensures w.AddedAll(widen, xs).lists[s] == w.lists[s] + Placed(widen, xs, w.time, s)
    decreases |xs|
  {
    hide Place, Wheel.Added;
    if xs == [] {
    } else {
      var w1, rest := w.Added(widen, xs[0]), Placed(widen, xs[1..], w.time, s);
      AddedList(widen, w, xs[0], s);
      AddedAllLists(widen, w1, xs[1..], s);
      if Place(widen, xs[0].Expire(), w.time) == s {
        assert (w.lists[s] + [xs[0]]) + rest == w.lists[s] + ([xs[0]] + rest);
      }
    }
  }

  /** Relinking the cascaded list, seen from one destination list. */
  lemma {:induction false} PlacedIsRehomed(widen: bool, xs: seq<Timer>, now: nat, from: Slot, s: Slot)
    requires CascadeSlot((now + 1) % U32) == Move(from)
    ensures Placed(widen, Homed(widen, xs, now, from), (now + 1) % U32, s)
         == Homed(widen, Homed(widen, xs, now, from), now + 1, s)
  {
    if xs == [] {
    } else {
      PlacedIsRehomed(widen, xs[1..], now, from, s);
      if Home(widen, xs[0], now) == from {
        RelinkedAtHome(widen, xs[0], now);
        var rest := Homed(widen, xs[1..], now, from);
        assert ([xs[0]] + rest)[1..] == rest;
      }
    }
  }

  ghost predicate NoneOverdue(widen: bool, xs: seq<Timer>, now: nat) {
    forall x :: x in xs && !Stranded(widen, x) ==> now < x.Deadline()
  }

  /** No list below the cascaded one holds a timer, and none of the other lists gains one. */
  lemma {:induction false} RehomedElsewhere(widen: bool, xs: seq<Timer>, now: nat, from: Slot, s: Slot)
    requires AllWaiting(widen, xs, now) && NoneOverdue(widen, xs, now)
    requires CascadeSlot((now + 1) % U32) == Move(from)
    ensures Rank(s) < Rank(from) ==> Homed(widen, xs, now, s) == []
    ensures s != from && Rank(s) >= Rank(from) ==> Homed(widen, Homed(widen, xs, now, from), now + 1, s) == []
  {
    hide Home, CascadeSlot, Stranded;
    if xs == [] {
    } else {
      var x, rest := xs[0], Homed(widen, xs[1..], now, from);
      RehomedElsewhere(widen, xs[1..], now, from, s);
      HomeStep(widen, x, now);
      assert Waiting(widen, x, now);
      assert ([x] + rest)[1..] == rest;
    }
  }

  /** Every list after the tick is the home list for the new tick: destination lists below the cascaded
      one were empty, and every other list neither gains nor loses a timer. */
  lemma {:induction false} RehomedList(widen: bool, xs: seq<Timer>, now: nat, from: Slot, s: Slot)
    requires AllWaiting(widen, xs, now) && NoneOverdue(widen, xs, now)
    requires CascadeSlot((now + 1) % U32) == Move(from)
    ensures (if s == from then [] else Homed(widen, xs, now, s)) + Homed(widen, Homed(widen, xs, now, from), now + 1, s)
         == Homed(widen, xs, now + 1, s)
    ensures Rank(s) < Rank(from) ==> Homed(widen, xs, now, s) == []
    ensures s != from && Rank(s) >= Rank(from) ==> Homed(widen, Homed(widen, xs, now, from), now + 1, s) == []
  {
    hide Home, CascadeSlot, Stranded;
    RehomedElsewhere(widen, xs, now, from, s);
    if xs == [] {
    } else {
      var x, rest := xs[0], Homed(widen, xs[1..], now, from);
      RehomedList(widen, xs[1..], now, from, s);
      HomeStep(widen, x, now);
      assert Waiting(widen, x, now);
      assert ([x] + rest)[1..] == rest;
    }
  }

  lemma {:induction false} UnmovedList(widen: bool, xs: seq<Timer>, now: nat, s: Slot)
    requires AllWaiting(widen, xs, now) && NoneOverdue(widen, xs, now)
    requires CascadeSlot((now + 1) % U32) == Nothing
    ensures Homed(widen, xs, now + 1, s) == Homed(widen, xs, now, s)
  {
    if xs == [] {
    } else {
      HomeStep(widen, xs[0], now);
      UnmovedList(widen, xs[1..], now, s);
    }
  }

  /** `TimerShift` keeps the invariant, provided nothing is due when it starts. */
  lemma ShiftKeeps(widen: bool, w: Wheel, pending: seq<Timer>, now: nat)
    requires Holds(widen, w, pending, now) && NoneOverdue(widen, pending, now)
    ensures Holds(widen, w.Shifted(widen), pending, now + 1)
  {
    hide Homed, Placed, CascadeSlot, Wheel.AddedAll;
    WordSucc(now);
    var w1 := w.(time := (now + 1) % U32);
    forall s | ValidSlot(s)
      ensures w.Shifted(widen).lists[s] == Homed(widen, pending, now + 1, s)
    {
      match CascadeSlot(w1.time)
      case Nothing => UnmovedList(widen, pending, now, s);
      case Move(from) =>
        AddedAllLists(widen, w1.Cleared(from), w.lists[from], s);
        PlacedIsRehomed(widen, pending, now, from, s);
        RehomedList(widen, pending, now, from, s);
    }
  }
}
