/**
 Programs on the timing wheel: one that loses a timer, as the code is written, one whose callback sets
 its timer again, and two that show what negative delays come to.  And a run in which a negative delay
 spoils the order.
 */
module WheelWitness {
  import opened Bits
  import opened WheelCalls
  import opened WheelDelays
  import opened WheelFields
  import opened WheelLists
  import opened WheelMachine
  import opened WheelModel
  import opened WheelPlacement
  import opened WheelRuns
  import opened WheelTheorems
  import opened WheelTimers

  // What a program that adds one timer to a new wheel and lets the clock run knows of it.

  lemma FirstFacts(f: Fields, word: nat, point: nat)
    requires f == FirstFields(word, point).(repr := f.repr)
    ensures !f.lock && f.detached == [] && f.point == point && f.Now().pc == Idle
  {
  }

  lemma AddsFacts(widen: bool, f: Fields, g: Fields, node: TimerNode, x: Timer)
    requires Adds(widen, f, g, node, x) && !f.lock && f.detached == [] && f.Now().pc == Idle
    ensures !g.lock && g.detached == [] && g.point == f.point && g.Now().pc == Idle
  {
  }

  /** The timer added, and that it is still known `n` ticks later. */
  lemma OneAdded(widen: bool, word: nat, point: nat, f: Fields, g: Fields, h: Fields, node: TimerNode, x: Timer,
                 r: Request, point': nat, n: nat)
    requires word < U32 && f == FirstFields(word, point).(repr := f.repr) && f.Sound(widen)
    requires Adds(widen, f, g, node, x) && x == NewTimer(f.Now(), r)
    requires Elapses(n, g.(point := point'), h)
    ensures x == Timer(0, r.callBack, word, r.delay) && x in h.Now().added && h.Now().now == word + n
  {
    hide IsRun, WheelOf, ListNodes, Nodes, AllSlots, Wheel.Added, AddedEntry;
    RunFacts(widen, f.trace);
    assert g.Now().added[0] == x && h.Now().added[0] == x;
  }

  lemma SoundRun(widen: bool, f: Fields)
    requires f.Sound(widen)
    ensures f.trace != [] && IsRun(widen, f.trace) && f.Now() == Last(f.trace)
  {
    hide IsRun, WheelOf, ListNodes, Nodes, AllSlots;
  }

  // A timer that is lost.

  /** The words of the lost timer: due at the next tick, in another 2^14 block, with bit 15 set. */
  lemma OneTickTimerStranded(callBack: int)
    ensures var x := Timer(0, callBack, 0x7FFF, 1);
            Stranded(false, x) && x.Expire() == 0x8000 && x.Expire() / 0x400_0000 == 0
  {
    var e := Timer(0, callBack, 0x7FFF, 1).Expire();
    assert e == 0x8000;
    assert e / Unit(1) == 2 && 0x7FFF / Unit(1) == 1;
  }

  /** The timer was added, its deadline has passed, it has not fired, and it waits in `mWheel[3][0]`. */
  ghost predicate Lost(s: State, x: Timer) {
    && x in s.added && x.Deadline() < s.now && x !in FiredTimers(s.fired)
    && Level(3, 0) in s.wheel.lists && x in s.wheel.lists[Level(3, 0)]
  }

  lemma LostInRun(run: seq<State>, x: Timer, callBack: int)
    requires IsRun(false, run) && x in Last(run).added && x == Timer(0, callBack, 0x7FFF, 1)
    requires Last(run).now == 0x8001
    ensures Lost(Last(run), x)
  {
    hide IsRun, Stranded, Timer.Expire;
    OneTickTimerStranded(callBack);
    FiresExactlyOnce(false, run, x);
    StrandedForever(run, x);
  }

  /** As written, a timer of one tick added at tick 0x7FFF has not fired two ticks later, and sits in a list
      it never leaves (`WheelTheorems.StrandedForever`). */
  method LosesOneTickTimer(callBack: int, reading: nat) returns (wheel: WheelTimer, ghost x: Timer)
    ensures fresh(wheel) && !wheel.widen && wheel.Valid() && wheel.Sound()
    ensures x == Timer(0, callBack, 0x7FFF, 1) && Lost(wheel.Snap().Now(), x)
  {
    hide WheelTimer.Heaped, Fields.Sound, AllSlots, Adds, Elapses, AllDueFired, Lost, FirstFields;
    wheel := new WheelTimer(false, 0x7FFF, reading);
    ghost var f := wheel.Snap();
    FirstFacts(f, 0x7FFF, reading);
    ghost var node;
    node, x := wheel.AddTimer(callBack, 1);
    ghost var g := wheel.Snap();
    AddsFacts(false, f, g, node, x);
    wheel.UpdateTime(reading + 2, []);
    OneAdded(false, 0x7FFF, reading, f, g, wheel.Snap(), node, x, Request(callBack, 1), reading + 2, 2);
    SoundRun(false, wheel.Snap());
    LostInRun(wheel.trace, x, callBack);
  }

  // A timer that is set again by its own callback.

  lemma FiredWasAdded(widen: bool, run: seq<State>, f: Firing)
    requires IsRun(widen, run) && f in Last(run).fired
    ensures f.timer in Last(run).added && f.tick == DueTick(f.timer)
  {
    hide IsRun, Found, Nowhere, Solely, DueTick, Passed;
    LastFound(widen, run);
    var s := Last(run);
    FiresOnTime(widen, run);
    InOnePlace(widen, run, f.timer);
    var k :| 0 <= k < |s.fired| && s.fired[k] == f;
    assert FiredTimers(s.fired)[k] == f.timer;
    OnceIn(s, f.timer, Near(0));
    assert HandedOutAt(f.timer, f.tick, f.time);
  }

  lemma ShortDelays(x: Timer, widen: bool)
    requires x.Deadline() < 0x100
    ensures Kept(widen, x) && DueTick(x) == x.Deadline() && !Passed(x)
  {
    assert x.Expire() / Unit(1) == 0 == x.addedAt % U32 / Unit(1);
  }

  lemma NotAtOnce(y: Timer)
    requires y.delay == 100
    ensures DueTick(y) == y.addedAt + 100
  {
  }

  /** One tick after the first timer was added, its callback has set the second. */
  lemma SetAgain(widen: bool, run: seq<State>, x: Timer, r: Request)
    requires IsRun(widen, run) && x == Timer(0, r.callBack, 0, 1) && r.delay == 100
    requires Last(run).now == 1 && AllDueFired(widen, Last(run))
    requires Last(run).added == [x] + MadeDuring(1, Last(run).fired, [[r]])
    ensures Last(run).added == [x, Timer(1, r.callBack, 1, 100)]
  {
    hide IsRun, Found, Made, DueTick, Kept, Passed, Timer.Expire;
    LastFound(widen, run);
    var s := Last(run);
    assert s.added[0] == x;
    ShortDelays(x, widen);
    assert x in FiredTimers(s.fired);
    var f := s.fired[0];
    FiredWasAdded(widen, run, f);
    MadeFirst(1, s.fired, [[r]]);
    MadeNone(2, s.fired[1..], []);
    assert MadeDuring(2, s.fired[1..], [[r]][1..]) == [];
    var y := Timer(1, r.callBack, f.tick, 100);
    assert Made(1, f.tick, [r]) == [y];
    assert s.added == [x, y];
    if f.timer == y {
      NotAtOnce(y);
    }
  }

  /** A hundred and one ticks later the second has fired too. */
  lemma FiredAgain(widen: bool, run: seq<State>, x: Timer, y: Timer, callBack: int)
    requires IsRun(widen, run) && x == Timer(0, callBack, 0, 1) && y == Timer(1, callBack, 1, 100)
    requires x in Last(run).added && y in Last(run).added && Last(run).now == 102
    ensures Firing(x, 1, 1) in Last(run).fired && Firing(y, 101, 101) in Last(run).fired
  {
    hide IsRun, DueTick, Kept, Passed, Timer.Expire, Stranded;
    ShortDelays(x, widen);
    ShortDelays(y, widen);
    FiresExactlyOnce(widen, run, x);
    FiresExactlyOnce(widen, run, y);
    FiredOnRecord(widen, run, x);
    FiredOnRecord(widen, run, y);
  }

  lemma OneTickLater(widen: bool, reading: nat, f: Fields, g: Fields, h: Fields, node: TimerNode, x: Timer, r: Request,
                     rest: seq<seq<Request>>)
    requires f == FirstFields(0, reading).(repr := f.repr) && f.Sound(widen) && h.Sound(widen)
    requires Adds(widen, f, g, node, x) && x == NewTimer(f.Now(), Request(r.callBack, 1)) && r.delay == 100
    requires Elapses(1, g, h) && AllDueFired(widen, h.Now()) && Answers(g, h, [[r]], rest)
    ensures x == Timer(0, r.callBack, 0, 1) && h.Now().added == [x, Timer(1, r.callBack, 1, 100)] && h.Now().now == 1
    ensures !h.lock && h.detached == [] && h.Now().pc == Idle && h.point == reading
  {
    hide IsRun, WheelOf, ListNodes, Nodes, AllSlots, Wheel.Added, AddedEntry, MadeDuring, AllDueFired;
    RunFacts(widen, f.trace);
    assert g.Now().added == [x] && g.Now().fired == [];
    assert h.Now().fired[0..] == h.Now().fired;
    SetAgain(widen, h.trace, x, r);
  }

  /** The pattern of a periodic timer, on both versions: a timer of one tick whose callback adds one of a
      hundred ticks.  The second is added at the tick the first fires at, and fires a hundred ticks later. */
  method ReArms(widen: bool, callBack: int, reading: nat) returns (wheel: WheelTimer, ghost x: Timer, ghost y: Timer)
    ensures fresh(wheel) && wheel.widen == widen && wheel.Valid() && wheel.Sound()
    ensures x == Timer(0, callBack, 0, 1) && y == Timer(1, callBack, 1, 100)
    ensures var s := wheel.Snap().Now();
            && x in s.added && y in s.added && s.now == 102
            && Firing(x, 1, 1) in s.fired && Firing(y, 101, 101) in s.fired
  {
    hide WheelTimer.Heaped, Fields.Sound, AllSlots, Adds, AllDueFired, FirstFields, Answers, AddsAsAsked;
    wheel := new WheelTimer(widen, 0, reading);
    ghost var f := wheel.Snap();
    FirstFacts(f, 0, reading);
    ghost var node;
    node, x := wheel.AddTimer(callBack, 1);
    ghost var g := wheel.Snap();
    AddsFacts(widen, f, g, node, x);
    var rest := wheel.Update([[Request(callBack, 100)]]);
    ghost var h := wheel.Snap();
    OneTickLater(widen, reading, f, g, h, node, x, Request(callBack, 100), rest);
    y := Timer(1, callBack, 1, 100);
    assert h.Now().added[0] == x && h.Now().added[1] == y;
    wheel.UpdateTime(reading + 101, []);
    SoundRun(widen, wheel.Snap());
    FiredAgain(widen, wheel.trace, x, y, callBack);
  }

  // Negative delays.

  /** The timer's callback ran at tick 0x2FE with that clock word, while its `expire` is 0x1FE. */
  ghost predicate FiredWrong(s: State, x: Timer) {
    Firing(x, 0x2FE, 0x2FE) in s.fired && x.Expire() == 0x1FE
  }

  lemma WrongInRun(widen: bool, run: seq<State>, x: Timer, callBack: int)
    requires IsRun(widen, run) && x in Last(run).added && x == Timer(0, callBack, 0x1FF, U32 - 1)
    requires Last(run).now == 0x2FF
    ensures FiredWrong(Last(run), x)
  {
    hide IsRun;
    assert Passed(x) && x.Expire() == 0x1FE;
    PassedFiresLate(widen, run, x);
  }

  /** In both versions a timer with `time == -1`, added at tick 0x1FF, fires 255 ticks later. */
  method FiresAtWrongTick(widen: bool, callBack: int, reading: nat) returns (wheel: WheelTimer, ghost x: Timer)
    ensures fresh(wheel) && wheel.widen == widen && wheel.Valid() && wheel.Sound()
    ensures x == Timer(0, callBack, 0x1FF, U32 - 1) && FiredWrong(wheel.Snap().Now(), x)
  {
    hide WheelTimer.Heaped, Fields.Sound, AllSlots, Adds, Elapses, AllDueFired, FiredWrong, FirstFields;
    wheel := new WheelTimer(widen, 0x1FF, reading);
    ghost var f := wheel.Snap();
    FirstFacts(f, 0x1FF, reading);
    ghost var node;
    node, x := wheel.AddTimer(callBack, -1);
    ghost var g := wheel.Snap();
    AddsFacts(widen, f, g, node, x);
    wheel.UpdateTime(reading + 0x100, []);
    OneAdded(widen, 0x1FF, reading, f, g, wheel.Snap(), node, x, Request(callBack, U32 - 1), reading + 0x100, 0x100);
    SoundRun(widen, wheel.Snap());
    WrongInRun(widen, wheel.trace, x, callBack);
  }

  /** The timer was added, has not fired, and waits in `mWheel[0][0]`. */
  ghost predicate Stuck(s: State, x: Timer) {
    && x in s.added && x !in FiredTimers(s.fired)
    && Level(0, 0) in s.wheel.lists && x in s.wheel.lists[Level(0, 0)]
  }

  lemma StuckInRun(widen: bool, run: seq<State>, x: Timer, callBack: int)
    requires IsRun(widen, run) && x in Last(run).added && x == Timer(0, callBack, 0x100, U32 - 1)
    ensures Stuck(Last(run), x)
  {
    hide IsRun;
    MinusOneAtRoundStart(widen, 0, callBack);
    StuckAtZero(widen, run, x);
  }

  /** In both versions a timer with `time == -1`, added at tick 0x100, has not fired however long the clock
      has run. */
  method NeverFires(widen: bool, callBack: int, reading: nat, ticks: nat) returns (wheel: WheelTimer, ghost x: Timer)
    requires ticks < MAX_DELAY
    ensures fresh(wheel) && wheel.widen == widen && wheel.Valid() && wheel.Sound()
    ensures x == Timer(0, callBack, 0x100, U32 - 1) && Stuck(wheel.Snap().Now(), x)
    ensures wheel.Snap().Now().now == 0x100 + ticks
  {
    hide WheelTimer.Heaped, Fields.Sound, AllSlots, Adds, Elapses, AllDueFired, Stuck, FirstFields;
    wheel := new WheelTimer(widen, 0x100, reading);
    ghost var f := wheel.Snap();
    FirstFacts(f, 0x100, reading);
    ghost var node;
    node, x := wheel.AddTimer(callBack, -1);
    ghost var g := wheel.Snap();
    AddsFacts(widen, f, g, node, x);
    wheel.UpdateTime(reading + ticks, []);
    OneAdded(widen, 0x100, reading, f, g, wheel.Snap(), node, x, Request(callBack, U32 - 1), reading + ticks, ticks);
    SoundRun(widen, wheel.Snap());
    StuckInRun(widen, wheel.trace, x, callBack);
  }

  // A passed timer overtakes one that was added before it.

  lemma AddsToRun(widen: bool, run: seq<State>, r: Request) returns (longer: seq<State>)
    requires IsRun(widen, run) && r.delay < U32
    requires !Last(run).locked && Last(run).adders == map[] && Last(run).wheel.Valid()
    ensures IsRun(widen, longer) && Last(longer) == AddedState(Last(run), widen, NewTimer(Last(run), r))
  {
    hide Init, Step, LockedState, AddedState;
    var s := Last(run);
    LockStep(widen, s, r);
    LinkStep(widen, s, r);
    RunSnoc(widen, run, LockedState(s, r));
    longer := run + [LockedState(s, r)] + [AddedState(s, widen, NewTimer(s, r))];
    RunSnoc(widen, run + [LockedState(s, r)], AddedState(s, widen, NewTimer(s, r)));
  }

  ghost predicate ListIs(w: Wheel, s: Slot, xs: seq<Timer>) {
    w.Valid() && ValidSlot(s) && w.lists[s] == xs
  }

  /** `Update` up to its second `TimerExecute`, with nothing to dispatch. */
  lemma TicksRun(widen: bool, run: seq<State>) returns (longer: seq<State>)
    requires IsRun(widen, run) && Last(run).pc == Idle && !Last(run).locked && Last(run).wheel.Valid()
    requires ListIs(Last(run).wheel, Last(run).wheel.Hand(), [])
    ensures var s := Last(run);
            && IsRun(widen, longer)
            && Last(longer) == s.(locked := true, pc := Executing(true), wheel := s.wheel.Shifted(widen),
                                  now := s.now + 1)
  {
    hide Init, Step, Wheel.Shifted, Wheel.Hand;
    var s := Last(run);
    var t := RelockedState(s, false);
    var u := t.(pc := Shifting);
    StartStep(widen, s);
    NoneStep(widen, t, false);
    TickStep(widen, u);
    RunSnoc(widen, run, t);
    RunSnoc(widen, run + [t], u);
    longer := run + [t] + [u] + [TickedState(u, widen)];
    RunSnoc(widen, run + [t] + [u], TickedState(u, widen));
  }

  lemma RestsRun(widen: bool, run: seq<State>) returns (longer: seq<State>)
    requires IsRun(widen, run) && Last(run).pc == Executing(true) && Last(run).wheel.Valid()
    requires ListIs(Last(run).wheel, Last(run).wheel.Hand(), [])
    ensures IsRun(widen, longer) && Last(longer) == IdleState(Last(run))
  {
    hide Init, Step, Wheel.Hand;
    NoneStep(widen, Last(run), true);
    longer := run + [IdleState(Last(run))];
    RunSnoc(widen, run, IdleState(Last(run)));
  }

  lemma FiresTwo(widen: bool, run: seq<State>, x: Timer, y: Timer) returns (longer: seq<State>)
    requires IsRun(widen, run) && Last(run).pc == Executing(true) && Last(run).wheel.Valid()
    requires ListIs(Last(run).wheel, Last(run).wheel.Hand(), [x, y])
    ensures var s := Last(run);
            && IsRun(widen, longer)
            && Last(longer).added == s.added
            && Last(longer).fired == s.fired + [Firing(x, s.now, s.wheel.time), Firing(y, s.now, s.wheel.time)]
  {
    hide Init, Step, Wheel.Hand, Wheel.Cleared;
    var s := Last(run);
    var t := TakenState(s, true, s.wheel.Hand());
    TakeStep(widen, s, true, s.wheel.Hand());
    CallStep(widen, t);
    var u := CalledState(t);
    assert u.pc == Dispatching(true, [y]);
    CallStep(widen, u);
    RunSnoc(widen, run, t);
    RunSnoc(widen, run + [t], u);
    longer := run + [t] + [u] + [CalledState(u)];
    RunSnoc(widen, run + [t] + [u], CalledState(u));
  }

  lemma OnePlaced(widen: bool, x: Timer, time: nat, s: Slot)
    ensures Placed(widen, [x], time, s) == if Place(widen, x.Expire(), time) == s then [x] else []
  {
    hide Place, Timer.Expire;
  }

  lemma AddedOne(widen: bool, w: Wheel, x: Timer, s: Slot, xs: seq<Timer>)
    requires ListIs(w, s, xs)
    ensures ListIs(w.Added(widen, x), s, if Place(widen, x.Expire(), w.time) == s then xs + [x] else xs)
  {
    hide Place, Timer.Expire;
  }

  lemma OvertakingPlaces(widen: bool)
    ensures Place(widen, 0x101, 0xFF) == Level(0, 1) && Place(widen, 1, 0xFF) == Near(1)
    ensures Place(widen, 0x101, 0x100) == Near(1)
  {
    assert 0x101 / Unit(0) == 1 && 0xFF / Unit(0) == 0 && 0x101 % Unit(0) == 1;
    assert LevelOf(widen, 0x101, 0xFF) == 0 by {
      assert 0x101 / Unit(1) == 0 == 0xFF / Unit(1);
    }
    hide Unit, LevelOf;
  }

  lemma OvertakingCascades()
    ensures CascadeSlot(0x100) == Move(Level(0, 1)) && CascadeSlot(0x101) == Nothing
  {
  }

  /** A timer of two ticks and one with `time == -0xFE` are added at clock word 0xFF. */
  lemma TwoAdded(widen: bool, w: Wheel, x: Timer, y: Timer)
    requires w.Valid() && w.time == 0xFF && x.Expire() == 0x101 && y.Expire() == 1
    requires ListIs(w, Level(0, 1), []) && ListIs(w, Near(0), [])
    requires ListIs(w, Near(1), []) && ListIs(w, Near(0xFF), [])
    ensures var v := w.Added(widen, x).Added(widen, y);
            && ListIs(v, Level(0, 1), [x]) && ListIs(v, Near(0), [])
            && ListIs(v, Near(1), [y]) && ListIs(v, Near(0xFF), [])
  {
    hide ListIs, Place, Wheel.Added, Timer.Expire;
    OvertakingPlaces(widen);
    assert [] + [x] == [x] && [] + [y] == [y];
    var u := w.Added(widen, x);
    AddedOne(widen, w, x, Level(0, 1), []); AddedOne(widen, u, y, Level(0, 1), [x]);
    AddedOne(widen, w, x, Near(0), []); AddedOne(widen, u, y, Near(0), []);
    AddedOne(widen, w, x, Near(1), []); AddedOne(widen, u, y, Near(1), []);
    AddedOne(widen, w, x, Near(0xFF), []); AddedOne(widen, u, y, Near(0xFF), []);
  }

  /** At the next tick the first of them is cascaded behind the second. */
  lemma CascadedBehind(widen: bool, w: Wheel, x: Timer, y: Timer)
    requires w.Valid() && w.time == 0xFF && x.Expire() == 0x101
    requires ListIs(w, Level(0, 1), [x]) && ListIs(w, Near(0), []) && ListIs(w, Near(1), [y])
    ensures var v := w.Shifted(widen); v.time == 0x100 && ListIs(v, Near(0), []) && ListIs(v, Near(1), [y, x])
  {
    hide Place, CascadeSlot, Wheel.Shifted, Timer.Expire, Placed;
    OvertakingPlaces(widen);
    OvertakingCascades();
    OnePlaced(widen, x, 0x100, Near(0));
    OnePlaced(widen, x, 0x100, Near(1));
    ShiftedList(widen, w, Near(0));
    ShiftedList(widen, w, Near(1));
    ShiftedTime(widen, w);
  }

  lemma NothingCascaded(widen: bool, w: Wheel, xs: seq<Timer>)
    requires w.Valid() && w.time == 0x100 && ListIs(w, Near(1), xs)
    ensures w.Shifted(widen).time == 0x101 && ListIs(w.Shifted(widen), Near(1), xs)
  {
    hide CascadeSlot, Wheel.Shifted;
    OvertakingCascades();
    ShiftedList(widen, w, Near(1));
    ShiftedTime(widen, w);
  }

  /** Both timers are in the wheel. */
  ghost predicate TwoWait(s: State, x: Timer, y: Timer) {
    && !s.locked && s.adders == map[] && s.pc == Idle && s.wheel.Valid()
    && s.now == 0xFF == s.wheel.time && s.added == [x, y] && s.fired == []
    && ListIs(s.wheel, Level(0, 1), [x]) && ListIs(s.wheel, Near(1), [y])
    && ListIs(s.wheel, Near(0), []) && ListIs(s.wheel, Near(0xFF), [])
  }

  lemma EmptyStart()
    ensures var w := EmptyWheel(0xFF);
            ListIs(w, Level(0, 1), []) && ListIs(w, Near(0), []) && ListIs(w, Near(1), []) && ListIs(w, Near(0xFF), [])
  {
  }

  lemma BothWait(widen: bool, x: Timer, y: Timer)
    requires x.Expire() == 0x101 && y.Expire() == 1
    ensures TwoWait(AddedState(AddedState(FirstState(0xFF), widen, x), widen, y), x, y)
  {
    hide Wheel.Added, Timer.Expire, ListIs;
    EmptyStart();
    TwoAdded(widen, EmptyWheel(0xFF), x, y);
  }

  lemma TwoAddedRun(widen: bool, callBack: int, x: Timer, y: Timer) returns (run: seq<State>)
    requires x == Timer(0, callBack, 0xFF, 2) && y == Timer(1, callBack, 0xFF, U32 - 0xFE)
    ensures IsRun(widen, run) && TwoWait(Last(run), x, y)
  {
    hide Init, Step, Wheel.Added, TwoWait;
    FirstRun(widen, 0xFF);
    assert x.Expire() == 0x101 && y.Expire() == 1;
    hide Timer.Expire;
    BothWait(widen, x, y);
    run := AddsToRun(widen, [FirstState(0xFF)], Request(callBack, 2));
    run := AddsToRun(widen, run, Request(callBack, U32 - 0xFE));
  }

  lemma SmallExpire(x: Timer)
    requires x.Deadline() < U32
    ensures x.Expire() == x.Deadline()
  {
  }

  /** What the wheel holds under the hand at the two ticks that follow. */
  lemma TwoTicks(widen: bool, s: State, x: Timer, y: Timer)
    requires TwoWait(s, x, y) && x.Deadline() == 0x101
    ensures var v, w := s.wheel.Shifted(widen), s.wheel.Shifted(widen).Shifted(widen);
            && ListIs(s.wheel, s.wheel.Hand(), []) && ListIs(v, v.Hand(), []) && ListIs(w, w.Hand(), [y, x])
            && v.Valid() && w.Valid() && w.time == 0x101
  {
    hide Wheel.Shifted, Timer.Expire, ListIs;
    SmallExpire(x);
    CascadedBehind(widen, s.wheel, x, y);
    NothingCascaded(widen, s.wheel.Shifted(widen), [y, x]);
  }

  /** The order of `WheelTheorems.FiresInOrder` fails for a passed timer: here one fires before another that
      was added earlier and is due at the same tick, because it did not have to wait for a cascade. */
  lemma PassedOvertakes(widen: bool, callBack: int) returns (run: seq<State>)
    ensures IsRun(widen, run)
    ensures var x, y := Timer(0, callBack, 0xFF, 2), Timer(1, callBack, 0xFF, U32 - 0xFE);
            && Last(run).added == [x, y] && Passed(y)
            && Last(run).fired == [Firing(y, 0x101, 0x101), Firing(x, 0x101, 0x101)]
  {
    hide Init, Step, Wheel.Shifted, Wheel.Hand, Timer.Expire, ListIs;
    var x, y := Timer(0, callBack, 0xFF, 2), Timer(1, callBack, 0xFF, U32 - 0xFE);
    run := TwoAddedRun(widen, callBack, x, y);
    TwoTicks(widen, Last(run), x, y);
    run := TicksRun(widen, run);
    run := RestsRun(widen, run);
    run := TicksRun(widen, run);
    run := FiresTwo(widen, run, y, x);
  }
}
