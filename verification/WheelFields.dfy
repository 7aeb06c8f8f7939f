/**
 The fields of the timing wheel as one value, and what each operation does to them: the lists, the nodes
 of which none is lost, and the run of `WheelMachine` that has been recorded.
 */
module WheelFields {
  import opened Bits
  import opened WheelCalls
  import opened WheelLists
  import opened WheelMachine
  import opened WheelModel
  import opened WheelPlacement
  import opened WheelTheorems
  import opened WheelWords

  ghost function FirstState(word: nat): State {
    State(EmptyWheel(word), false, Idle, map[], word, [], [])
  }

  lemma FirstRun(widen: bool, word: nat)
    requires word < U32
    ensures var s := FirstState(word); IsRun(widen, [s]) && Last([s]) == s && Init(s)
  {
  }

  /** `detached` is the chain being walked, whose first node has position `base`; `freed` are the nodes
      freed so far, `nodes` all nodes ever added. */
  datatype Fields = Fields(
    lock: bool, time: nat, point: nat, contents: Contents, detached: seq<Entry>, base: nat,
    freed: set<TimerNode>, nodes: set<TimerNode>, trace: seq<State>, repr: set<object>) {

    /** The current state of the recorded run. */
    ghost function Now(): State {
      if trace == [] then State(Wheel(0, map[]), false, Idle, map[], 0, [], []) else Last(trace)
    }

    /** The wheel these fields stand for. */
    ghost function Abs(): Wheel { WheelOf(time, contents) }

    /** The list under the clock hand. */
    ghost function Hand(): Slot { Near(time % Unit(0)) }

    ghost predicate Traced(widen: bool) {
      trace != [] && IsRun(widen, trace) && Now().wheel == Abs() && Now().locked == lock
    }

    /** Every node ever added is in a list, in the chain being walked, or freed. */
    ghost predicate Accounted() {
      nodes == ListNodes(contents) + Nodes(detached) + freed
    }

    ghost predicate Sound(widen: bool) {
      time < U32 && AllSlots(contents) && Traced(widen) && Accounted()
    }
  }

  lemma AbsValid(f: Fields)
    requires f.time < U32 && AllSlots(f.contents)
    ensures f.Abs().Valid() && f.Abs().time == f.time && f.Abs().Hand() == f.Hand() && ValidSlot(f.Hand())
    ensures f.Abs().lists[f.Hand()] == Timers(f.contents[f.Hand()])
  {
    WheelOfTime(f.time, f.contents, f.time);
  }

  // What the operations on lists do to the fields.

  ghost function WithAdded(widen: bool, f: Fields, e: Entry): Fields {
    if AllSlots(f.contents) then f.(contents := AddedEntry(f.contents, widen, f.time, e)) else f
  }

  ghost function WithMoved(widen: bool, f: Fields, s: Slot): Fields {
    if AllSlots(f.contents) && ValidSlot(s) then f.(contents := MovedEntries(f.contents, widen, f.time, s)) else f
  }

  /** After `moves` calls of `MoveList` in the cascade loop. */
  ghost function WithCascaded(widen: bool, f: Fields, moves: nat): Fields {
    if AllSlots(f.contents) && moves > 0 then f.(contents := ShiftedEntries(f.contents, widen, f.time)) else f
  }

  ghost function WithShifted(widen: bool, f: Fields): Fields {
    WithCascaded(widen, f.(time := (f.time + 1) % U32), 1)
  }

  /** List `s` is emptied; its entries become the chain. */
  ghost function WithDetached(f: Fields, s: Slot): Fields {
    if s in f.contents then f.(contents := f.contents[s := []], detached := f.contents[s], base := 0) else f
  }

  /** The list under the hand is not empty. */
  ghost predicate HandWaits(f: Fields) {
    f.Hand() in f.contents && f.contents[f.Hand()] != []
  }

  /** The first node leaves the chain; if it is freed, it counts as freed. */
  ghost function Popped(f: Fields, where: Where): Fields {
    if f.detached == [] then f
    else f.(detached := f.detached[1..], base := f.base + 1,
            freed := if where == Freed then f.freed + {f.detached[0].node} else f.freed)
  }

  lemma CascadeMoves(widen: bool, f: Fields, g: Fields, h: Fields, s: Slot)
    requires AllSlots(f.contents) && CascadeSlot(f.time) == Move(s)
    requires g == f.(base := g.base) && h == WithMoved(widen, g, s).(base := h.base)
    ensures h == WithCascaded(widen, f, 1).(base := h.base)
  {
  }

  lemma CascadeIdle(widen: bool, f: Fields, g: Fields, moves: nat)
    requires g == WithCascaded(widen, f, moves).(base := g.base)
    requires moves == if CascadeSlot(f.time).Move? then 1 else 0
    ensures g == WithCascaded(widen, f, 1).(base := g.base)
  {
  }

  lemma WrapMoves(widen: bool, c: Contents)
    requires AllSlots(c)
    ensures ShiftedEntries(c, widen, 0) == MovedEntries(c, widen, 0, Level(3, 0))
  {
    CascadeEnds(0);
  }

  /** When the clock wraps to zero it is list 0 of the top level that is moved. */
  lemma ShiftWraps(widen: bool, f: Fields, g: Fields)
    requires AllSlots(f.contents) && (f.time + 1) % U32 == 0
    requires g == WithMoved(widen, f.(time := 0), Level(3, 0)).(base := g.base)
    ensures g == WithShifted(widen, f).(base := g.base)
  {
    hide MovedEntries, ShiftedEntries, AllSlots;
    WrapMoves(widen, f.contents);
  }

  /** A new wheel: no timers, no nodes, and any clock word. */
  ghost function FirstFields(word: nat, point: nat): Fields {
    Fields(false, word, point, EmptyContents(word), [], 0, {}, {}, [FirstState(word)], {})
  }

  lemma FirstSound(widen: bool, word: nat, point: nat, repr: set<object>)
    requires word < U32
    ensures FirstFields(word, point).(repr := repr).Sound(widen) && Init(FirstFields(word, point).Now())
  {
    FirstRun(widen, word);
    EmptyContentsAbs(word);
    NodesNone();
    assert ListNodes(EmptyContents(word)) == {};
    hide IsRun, WheelOf, Nodes, ListNodes;
  }

  /** A step that leaves the lists, the nodes and the clock alone. */
  lemma StepSound(widen: bool, f: Fields, s': State)
    requires f.Sound(widen) && Step(widen, f.Now(), s') && s'.wheel == f.Now().wheel
    ensures f.(lock := s'.locked, trace := f.trace + [s']).Sound(widen)
  {
    hide Step, IsRun, WheelOf, ListNodes, Nodes, AllSlots;
    RunSnoc(widen, f.trace, s');
  }

  // AddTimer.

  ghost function LockedState(s: State, r: Request): State {
    s.(locked := true, adders := map[0 := r])
  }

  ghost function AddedState(s: State, widen: bool, x: Timer): State {
    if s.wheel.Valid() then
      s.(locked := false, adders := map[], wheel := s.wheel.Added(widen, x), added := s.added + [x])
    else s
  }

  lemma LockStep(widen: bool, s: State, r: Request)
    requires !s.locked && s.adders == map[] && r.delay < U32
    ensures Step(widen, s, LockedState(s, r))
  {
    assert s.adders[0 := r] == map[0 := r];
    assert AdderLocks(s, LockedState(s, r), 0, r);
  }

  /** `m_Lock.Lock()`, and the expire word of the timer to be added. */
  lemma LocksForAdd(widen: bool, f: Fields, r: Request, time: int)
    requires f.Sound(widen) && !f.lock && r.delay == time % U32
    ensures Step(widen, f.Now(), LockedState(f.Now(), r))
    ensures NewTimer(f.Now(), r).Expire() == (time + f.time) % U32
  {
    hide Step, IsRun, ListNodes, Nodes, AllSlots, Timer.Expire;
    var s := f.Now();
    RunFacts(widen, f.trace);
    LockStep(widen, s, r);
    ExpireWord(NewTimer(s, r), time, s.now);
  }

  /** Linking the timer and `m_Lock.Unlock()`. */
  lemma LinkStep(widen: bool, s: State, r: Request)
    requires s.adders == map[] && s.wheel.Valid()
    ensures Step(widen, LockedState(s, r), AddedState(s, widen, NewTimer(s, r)))
  {
    var locked, x := LockedState(s, r), NewTimer(s, r);
    assert locked.adders - {0} == map[];
    assert AdderLinks(widen, locked, AddedState(s, widen, x), 0);
  }

  lemma LinksAdded(widen: bool, f: Fields, r: Request)
    requires f.Sound(widen) && !f.lock
    ensures Step(widen, LockedState(f.Now(), r), AddedState(f.Now(), widen, NewTimer(f.Now(), r)))
  {
    hide Step, IsRun, ListNodes, Nodes, AllSlots, Timer.Expire;
    RunFacts(widen, f.trace);
    LinkStep(widen, f.Now(), r);
  }

  /** What `AddTimer` does: one new node with one new timer goes to the end of one list. */
  ghost predicate Adds(widen: bool, f: Fields, g: Fields, node: TimerNode, x: Timer) {
    && node !in f.nodes
    && g == WithAdded(widen, f, Entry(node, x)).(nodes := f.nodes + {node}, trace := g.trace, repr := f.repr + {node})
    && f.trace <= g.trace && g.Now() == AddedState(f.Now(), widen, x)
  }

  lemma AddsSound(widen: bool, f: Fields, g: Fields, node: TimerNode, x: Timer)
    requires f.Sound(widen) && !f.lock && Adds(widen, f, g, node, x) && IsRun(widen, g.trace)
    ensures g.Sound(widen)
  {
    hide IsRun, Place, Timer.Expire, ListNodes, Nodes, WheelOf, Wheel.Added;
    AbsValid(f);
    AddedEntryWheel(f.contents, widen, f.time, Entry(node, x));
    ListNodesAdded(f.contents, Place(widen, x.Expire(), f.time), Entry(node, x));
  }

  /** What is kept while `AddTimer` calls run: the chain, the freed nodes, the update thread, the clock. */
  ghost predicate OnlyAdds(f: Fields, g: Fields) {
    && g == f.(contents := g.contents, nodes := g.nodes, trace := g.trace, repr := g.repr)
    && f.nodes <= g.nodes && f.trace <= g.trace && f.repr <= g.repr
    && g.Now().pc == f.Now().pc && g.Now().now == f.Now().now && g.Now().fired == f.Now().fired
    && f.Now().added <= g.Now().added
  }

  lemma AddsOnly(widen: bool, f: Fields, g: Fields, node: TimerNode, x: Timer)
    requires Adds(widen, f, g, node, x)
    ensures OnlyAdds(f, g)
  {
    hide AddedEntry, Wheel.Added;
  }

  lemma OnlyAddsTrans(f: Fields, g: Fields, h: Fields)
    requires OnlyAdds(f, g) && OnlyAdds(g, h)
    ensures OnlyAdds(f, h)
  {
    hide Fields.Now;
  }

  // The `AddTimer` calls that arrive while callbacks run.

  lemma MadeOne(widen: bool, f: Fields, g: Fields, h: Fields, node: TimerNode, x: Timer, rs: seq<Request>)
    requires rs != [] && Adds(widen, f, g, node, x) && x == NewTimer(f.Now(), rs[0]) && f.Sound(widen)
    requires g.Now().now == f.Now().now
    requires h.Now().added == g.Now().added + Made(|g.Now().added|, g.Now().now, rs[1..])
    ensures h.Now().added == f.Now().added + Made(|f.Now().added|, f.Now().now, rs)
  {
    hide IsRun, ListNodes, Nodes, AllSlots, WheelOf, Wheel.Added, AddedEntry, Made;
    RunFacts(widen, f.trace);
    MadeCons(|f.Now().added|, f.Now().now, rs);
    var xs := Made(|g.Now().added|, g.Now().now, rs[1..]);
    assert f.Now().added + [x] + xs == f.Now().added + ([x] + xs);
  }

  /** From `f` to `g` the timers added are exactly those of the calls that arrived while callbacks ran. */
  ghost predicate AddsAsAsked(f: Fields, g: Fields, env: seq<seq<Request>>) {
    && f.Now().fired <= g.Now().fired
    && g.Now().added
       == f.Now().added + MadeDuring(|f.Now().added|, g.Now().fired[|f.Now().fired|..], env)
  }

  /** And `rest` are the calls for callbacks still to come. */
  ghost predicate Answers(f: Fields, g: Fields, env: seq<seq<Request>>, rest: seq<seq<Request>>) {
    AddsAsAsked(f, g, env) && rest == Unused(env, |g.Now().fired| - |f.Now().fired|)
  }

  ghost predicate SameHistory(f: Fields, g: Fields) {
    g.Now().fired == f.Now().fired && g.Now().added == f.Now().added
  }

  lemma AnswersNone(f: Fields, g: Fields, env: seq<seq<Request>>)
    requires SameHistory(f, g)
    ensures Answers(f, g, env, env)
  {
    hide Fields.Now;
    assert g.Now().fired[|f.Now().fired|..] == [];
  }

  lemma AnswersTrans(f: Fields, g: Fields, h: Fields,
                     env: seq<seq<Request>>, mid: seq<seq<Request>>, rest: seq<seq<Request>>)
    requires Answers(f, g, env, mid) && Answers(g, h, mid, rest)
    ensures Answers(f, h, env, rest)
  {
    hide Fields.Now, MadeDuring, Unused;
    var n, m := |f.Now().fired|, |g.Now().fired|;
    var fs, gs := g.Now().fired[n..], h.Now().fired[m..];
    assert h.Now().fired[n..] == fs + gs;
    MadeSplit(|f.Now().added|, fs, gs, env);
    UnusedTwice(env, |fs|, |gs|);
    var first := MadeDuring(|f.Now().added|, fs, env);
    var second := MadeDuring(|g.Now().added|, gs, mid);
    assert f.Now().added + first + second == f.Now().added + (first + second);
  }

  lemma AnswersOne(f: Fields, g: Fields, x: Timer, time: nat, env: seq<seq<Request>>)
    requires g.Now().fired == f.Now().fired + [Firing(x, f.Now().now, time)]
    requires g.Now().added == f.Now().added + Made(|f.Now().added|, f.Now().now, During(env))
    ensures Answers(f, g, env, Unused(env, 1))
  {
    hide Fields.Now, Made;
    var fs := g.Now().fired[|f.Now().fired|..];
    assert fs == [Firing(x, f.Now().now, time)] && fs[1..] == [];
    assert MadeDuring(|f.Now().added| + |During(env)|, fs[1..], Unused(env, 1)) == [];
    var xs := Made(|f.Now().added|, f.Now().now, During(env));
    assert xs + [] == xs;
  }

  // The same for the steps around the callbacks, which leave the history alone.

  lemma AnswersBefore(f: Fields, g: Fields, h: Fields, env: seq<seq<Request>>, rest: seq<seq<Request>>)
    requires Answers(f, g, env, rest) && SameHistory(g, h)
    ensures Answers(f, h, env, rest)
  {
    hide Fields.Now, MadeDuring, Unused;
  }

  lemma AnswersBetween(f: Fields, g: Fields, h: Fields, i: Fields, env: seq<seq<Request>>, rest: seq<seq<Request>>)
    requires SameHistory(f, g) && Answers(g, h, env, rest) && SameHistory(h, i)
    ensures Answers(f, i, env, rest)
  {
    hide Fields.Now, MadeDuring, Unused;
  }

  // TimerExecute.

  /** The update thread went on from `f` to `g`. */
  ghost predicate Advances(f: Fields, g: Fields) {
    && g.point == f.point && g.time == f.time && f.freed <= g.freed && f.nodes <= g.nodes
    && f.trace <= g.trace && f.repr <= g.repr
    && g.Now().now == f.Now().now && f.Now().fired <= g.Now().fired && f.Now().added <= g.Now().added
  }

  lemma AdvancesTrans(f: Fields, g: Fields, h: Fields)
    requires Advances(f, g) && Advances(g, h)
    ensures Advances(f, h)
  {
    hide Fields.Now;
  }

  ghost predicate InExecute(f: Fields, again: bool) {
    f.lock && f.detached == [] && f.Now().pc == Executing(again)
  }

  ghost predicate InDispatch(f: Fields, again: bool) {
    !f.lock && f.Now().pc == Dispatching(again, Timers(f.detached))
  }

  ghost function TakenState(s: State, again: bool, hand: Slot): State {
    if s.wheel.Valid() && ValidSlot(hand) then
      s.(locked := false, pc := Dispatching(again, s.wheel.lists[hand]), wheel := s.wheel.Cleared(hand))
    else s
  }

  /** What detaching the list under the hand does. */
  ghost function Taken(f: Fields, again: bool): Fields {
    WithDetached(f, f.Hand()).(lock := false, trace := f.trace + [TakenState(f.Now(), again, f.Hand())])
  }

  lemma TakeStep(widen: bool, s: State, again: bool, hand: Slot)
    requires s.pc == Executing(again) && s.wheel.Valid() && ValidSlot(hand) && hand == s.wheel.Hand()
    requires s.wheel.lists[hand] != []
    ensures Step(widen, s, TakenState(s, again, hand))
    ensures TakenState(s, again, hand)
         == s.(locked := false, pc := Dispatching(again, s.wheel.lists[hand]), wheel := s.wheel.Cleared(hand))
  {
    assert Detaches(s, TakenState(s, again, hand));
  }

  /** The wheel without the list under the hand, and that no node is lost. */
  lemma DetachedFields(f: Fields)
    requires f.time < U32 && AllSlots(f.contents) && f.Accounted() && f.detached == []
    ensures var g := WithDetached(f, f.Hand());
            && AllSlots(g.contents) && g.Accounted()
            && f.Abs().Valid() && ValidSlot(f.Hand()) && g.Abs() == f.Abs().Cleared(f.Hand())
            && f.Abs().lists[f.Hand()] == Timers(g.detached)
  {
    hide WheelOf, ListNodes, Nodes, Timers, Wheel.Cleared;
    AbsValid(f);
    WheelOfCleared(f.time, f.contents, f.Hand());
    ListNodesCleared(f.contents, f.Hand());
    NodesNone();
  }

  /** Detaching the list under the hand and dropping the lock is a step, and loses no node. */
  lemma TakenSound(widen: bool, f: Fields, again: bool)
    requires f.Sound(widen) && InExecute(f, again) && HandWaits(f)
    ensures Step(widen, f.Now(), TakenState(f.Now(), again, f.Hand()))
    ensures Taken(f, again).Sound(widen) && InDispatch(Taken(f, again), again) && Advances(f, Taken(f, again))
    ensures SameHistory(f, Taken(f, again))
  {
    hide Step, IsRun, WheelOf, ListNodes, Nodes, Timers, Wheel.Cleared, Wheel.Hand, Wheel.Valid, TakenState;
    hide AllSlots, ValidSlot;
    AbsValid(f);
    DetachedFields(f);
    assert |Timers(f.contents[f.Hand()])| == |f.contents[f.Hand()]|;
    TakeStep(widen, f.Now(), again, f.Hand());
    RunSnoc(widen, f.trace, TakenState(f.Now(), again, f.Hand()));
  }

  /** The callback of the chain's first timer, and the `AddTimer` calls that arrive while it runs. */
  ghost predicate CallsBack(f: Fields, g: Fields, again: bool) {
    && f.detached != [] && !g.lock && g.detached == f.detached && g.base == f.base && g.freed == f.freed
    && Advances(f, g) && g.Now().pc == Dispatching(again, Timers(f.detached)[1..])
    && g.Now().fired == f.Now().fired + [Firing(f.detached[0].timer, f.Now().now, f.time)]
  }

  ghost function CalledState(s: State): State {
    if s.pc.Dispatching? && s.pc.batch != [] then
      s.(pc := Dispatching(s.pc.again, s.pc.batch[1..]),
         fired := s.fired + [Firing(s.pc.batch[0], s.now, s.wheel.time)])
    else s
  }

  lemma CallStep(widen: bool, s: State)
    requires s.pc.Dispatching? && s.pc.batch != []
    ensures Step(widen, s, CalledState(s))
  {
    assert RunsCallback(s, CalledState(s));
  }

  lemma CallsStep(widen: bool, f: Fields, again: bool)
    requires f.Sound(widen) && InDispatch(f, again) && f.detached != []
    ensures Step(widen, f.Now(), CalledState(f.Now()))
    ensures var g := f.(trace := f.trace + [CalledState(f.Now())]);
            g.Sound(widen) && CallsBack(f, g, again)
  {
    hide Step, IsRun, WheelOf, ListNodes, Nodes, Wheel.Valid;
    AbsValid(f);
    CallStep(widen, f.Now());
    StepSound(widen, f, CalledState(f.Now()));
  }

  lemma CallsThenAdds(f: Fields, g: Fields, h: Fields, again: bool)
    requires CallsBack(f, g, again) && OnlyAdds(g, h)
    ensures CallsBack(f, h, again)
  {
    hide Fields.Now, Timers;
  }

  /** One iteration of `DispatchList`: the callback of the first node, which is then freed. */
  ghost predicate DispatchesOne(f: Fields, g: Fields, again: bool) {
    && f.detached != [] && InDispatch(g, again) && g.detached == f.detached[1..]
    && f.detached[0].node !in f.freed && g.freed == f.freed + {f.detached[0].node}
    && Advances(f, g) && g.Now().fired == f.Now().fired + [Firing(f.detached[0].timer, f.Now().now, f.time)]
  }

  /** Freeing the first node keeps all nodes accounted for. */
  lemma FreesOne(widen: bool, f: Fields, g: Fields, h: Fields, again: bool)
    requires CallsBack(f, g, again) && g.Sound(widen) && g.detached[0].node !in g.freed
    requires h == Popped(g, Freed)
    ensures h.Sound(widen) && DispatchesOne(f, h, again)
  {
    hide IsRun, WheelOf, ListNodes, Nodes, Timers, AllSlots;
    NodesTail(g.detached);
    TimersTail(g.detached);
  }

  /** Callback runs for these timers, in order. */
  ghost function Firings(xs: seq<Timer>, tick: nat, time: nat): seq<Firing> {
    if xs == [] then [] else [Firing(xs[0], tick, time)] + Firings(xs[1..], tick, time)
  }

  lemma {:induction false} FiringsLength(xs: seq<Timer>, tick: nat, time: nat)
    ensures |Firings(xs, tick, time)| == |xs|
  {
    if xs == [] {
    } else {
      FiringsLength(xs[1..], tick, time);
    }
  }

  lemma AnswersLength(f: Fields, g: Fields, env: seq<seq<Request>>, rest: seq<seq<Request>>,
                      xs: seq<Timer>, time: nat)
    requires Answers(f, g, env, rest) && g.Now().fired == f.Now().fired + Firings(xs, f.Now().now, time)
    ensures rest == Unused(env, |xs|)
  {
    hide Fields.Now, MadeDuring, Unused;
    FiringsLength(xs, f.Now().now, time);
  }

  /** `DispatchList` so far: the nodes gone from the chain have been freed, their callbacks have run. */
  ghost predicate Dispatches(f: Fields, g: Fields, again: bool) {
    && InDispatch(g, again) && Advances(f, g)
    && g.freed + Nodes(g.detached) == f.freed + Nodes(f.detached)
    && g.Now().fired + Firings(Timers(g.detached), f.Now().now, f.time)
       == f.Now().fired + Firings(Timers(f.detached), f.Now().now, f.time)
  }

  lemma DispatchesNone(f: Fields, again: bool)
    requires InDispatch(f, again)
    ensures Dispatches(f, f, again)
  {
  }

  lemma DispatchesMore(f: Fields, g: Fields, h: Fields, again: bool)
    requires Dispatches(f, g, again) && DispatchesOne(g, h, again)
    ensures Dispatches(f, h, again)
  {
    hide Fields.Now, Nodes, Timers;
    NodesTail(g.detached);
    TimersTail(g.detached);
    AdvancesTrans(f, g, h);
    var first := [Firing(g.detached[0].timer, f.Now().now, f.time)];
    var rest := Firings(Timers(h.detached), f.Now().now, f.time);
    assert g.Now().fired + (first + rest) == g.Now().fired + first + rest;
  }

  /** What `TimerExecute` and its rounds do. */
  ghost predicate Executes(f: Fields, g: Fields, again: bool) {
    InExecute(g, again) && Advances(f, g)
  }

  lemma ExecutesTrans(f: Fields, g: Fields, h: Fields, again: bool)
    requires Advances(f, g) && Executes(g, h, again)
    ensures Executes(f, h, again)
  {
    AdvancesTrans(f, g, h);
    hide Fields.Now, Advances;
  }

  ghost function RelockedState(s: State, again: bool): State {
    s.(locked := true, pc := Executing(again))
  }

  lemma RelockStep(widen: bool, s: State, again: bool)
    requires s.pc == Dispatching(again, []) && !s.locked
    ensures Step(widen, s, RelockedState(s, again))
  {
    assert Relocks(s, RelockedState(s, again));
  }

  /** `m_Lock.Lock()` after a dispatch. */
  lemma RelockSound(widen: bool, f: Fields, again: bool)
    requires f.Sound(widen) && InDispatch(f, again) && f.detached == []
    ensures Step(widen, f.Now(), RelockedState(f.Now(), again))
    ensures var g := f.(lock := true, trace := f.trace + [RelockedState(f.Now(), again)]);
            g.Sound(widen) && Executes(f, g, again)
  {
    hide Step, IsRun, WheelOf, ListNodes, Nodes, AllSlots;
    assert Timers([]) == [];
    RelockStep(widen, f.Now(), again);
    StepSound(widen, f, RelockedState(f.Now(), again));
  }

  // Update.

  /** `n` ticks have passed; the update thread is outside `Update` again. */
  ghost predicate Elapses(n: nat, f: Fields, g: Fields) {
    && g.point == f.point && g.detached == [] && !g.lock && g.Now().pc == Idle && g.Now().now == f.Now().now + n
    && f.freed <= g.freed && f.nodes <= g.nodes && f.trace <= g.trace && f.repr <= g.repr
    && f.Now().fired <= g.Now().fired && f.Now().added <= g.Now().added
  }

  lemma ElapsesTrans(m: nat, n: nat, f: Fields, g: Fields, h: Fields)
    requires Elapses(m, f, g) && Elapses(n, g, h)
    ensures Elapses(m + n, f, h)
  {
    hide Fields.Now;
  }

  lemma StartStep(widen: bool, s: State)
    requires s.pc == Idle && !s.locked
    ensures Step(widen, s, RelockedState(s, false))
  {
    assert UpdateLocks(s, RelockedState(s, false));
  }

  lemma StartsUpdate(widen: bool, f: Fields)
    requires f.Sound(widen) && !f.lock && f.Now().pc == Idle && f.detached == []
    ensures Step(widen, f.Now(), RelockedState(f.Now(), false))
    ensures var g := f.(lock := true, trace := f.trace + [RelockedState(f.Now(), false)]);
            g.Sound(widen) && Executes(f, g, false)
  {
    hide Step, IsRun, WheelOf, ListNodes, Nodes, AllSlots;
    StartStep(widen, f.Now());
    StepSound(widen, f, RelockedState(f.Now(), false));
  }

  ghost predicate HandEmpty(f: Fields) {
    f.Hand() in f.contents && f.contents[f.Hand()] == []
  }

  lemma NoneStep(widen: bool, s: State, again: bool)
    requires s.pc == Executing(again) && s.wheel.Valid() && s.wheel.lists[s.wheel.Hand()] == []
    ensures Step(widen, s, if again then s.(locked := false, pc := Idle) else s.(pc := Shifting))
  {
    assert FindsNone(s, if again then s.(locked := false, pc := Idle) else s.(pc := Shifting));
  }

  lemma FindsNoneStep(widen: bool, f: Fields, again: bool)
    requires f.Sound(widen) && InExecute(f, again) && HandEmpty(f)
    ensures var s := f.Now(); Step(widen, s, if again then s.(locked := false, pc := Idle) else s.(pc := Shifting))
    ensures f.Now().wheel.Valid() && f.Now().wheel.lists[f.Now().wheel.Hand()] == []
  {
    hide Step, IsRun, WheelOf, ListNodes, Nodes, Wheel.Hand, Wheel.Valid;
    AbsValid(f);
    NoneStep(widen, f.Now(), again);
  }

  ghost function TickedState(s: State, widen: bool): State {
    if s.wheel.Valid() then
      s.(pc := Executing(true), wheel := s.wheel.Shifted(widen), now := s.now + 1)
    else s
  }

  lemma TickStep(widen: bool, s: State)
    requires s.pc == Shifting && s.wheel.Valid()
    ensures Step(widen, s, TickedState(s, widen))
    ensures TickedState(s, widen) == s.(pc := Executing(true), wheel := s.wheel.Shifted(widen), now := s.now + 1)
  {
    assert Shifts(widen, s, TickedState(s, widen));
  }

  /** The two steps of the shift: the first `TimerExecute` is over, and the clock ticks. */
  lemma ShiftSteps(widen: bool, f: Fields)
    requires f.Sound(widen) && InExecute(f, false) && HandEmpty(f)
    ensures var s := f.Now().(pc := Shifting);
            && Step(widen, f.Now(), s) && Step(widen, s, TickedState(s, widen))
            && IsRun(widen, f.trace + [s] + [TickedState(s, widen)])
  {
    hide Step, IsRun, WheelOf, ListNodes, Nodes, Wheel.Hand, Wheel.Valid, TickedState;
    FindsNoneStep(widen, f, false);
    var s := f.Now().(pc := Shifting);
    TickStep(widen, s);
    RunSnoc(widen, f.trace, s);
    RunSnoc(widen, f.trace + [s], TickedState(s, widen));
  }

  /** Half an `Update`: everything due at the old tick has been dispatched and the clock has ticked. */
  ghost predicate HalfTicks(f: Fields, g: Fields) {
    && g.point == f.point && InExecute(g, true) && g.Now().now == f.Now().now + 1
    && f.freed <= g.freed && f.nodes <= g.nodes && f.trace <= g.trace && f.repr <= g.repr
    && f.Now().fired <= g.Now().fired && f.Now().added <= g.Now().added
  }

  /** The wheel the shifted fields stand for, and that no node is lost. */
  lemma ShiftedFields(widen: bool, f: Fields)
    requires f.time < U32 && AllSlots(f.contents) && f.Accounted()
    ensures var g := WithShifted(widen, f);
            && g.time < U32 && AllSlots(g.contents) && g.Accounted()
            && f.Abs().Valid() && g.Abs() == f.Abs().Shifted(widen)
  {
    hide WheelOf, ListNodes, Nodes, Wheel.Shifted, ShiftedEntries, Wheel.Valid;
    ShiftedEntriesWheel(f.contents, widen, f.time);
    ShiftedNodes(f.contents, widen, (f.time + 1) % U32);
  }

  lemma ShiftSound(widen: bool, f: Fields, g: Fields)
    requires f.Sound(widen) && InExecute(f, false) && HandEmpty(f)
    requires var s := f.Now().(pc := Shifting);
             g == WithShifted(widen, f).(base := g.base, trace := f.trace + [s] + [TickedState(s, widen)])
    ensures g.Sound(widen) && HalfTicks(f, g) && SameHistory(f, g)
  {
    hide Step, IsRun, WheelOf, ListNodes, Nodes, Wheel.Shifted, ShiftedEntries, Wheel.Valid, AllSlots, TickedState;
    ShiftSteps(widen, f);
    ShiftedFields(widen, f);
    TickStep(widen, f.Now().(pc := Shifting));
  }

  lemma HalfTicksTrans(f: Fields, g: Fields, h: Fields)
    requires Advances(f, g) && HalfTicks(g, h)
    ensures HalfTicks(f, h)
  {
    hide Fields.Now;
  }

  ghost function IdleState(s: State): State {
    s.(locked := false, pc := Idle)
  }

  lemma SameDueFired(widen: bool, s: State, t: State)
    requires AllDueFired(widen, s) && t.added == s.added && t.now == s.now && t.fired == s.fired
    ensures AllDueFired(widen, t)
  {
  }

  /** The second `TimerExecute` is over: one tick has passed and everything due has fired. */
  lemma EndsUpdate(widen: bool, f: Fields, g: Fields, h: Fields)
    requires HalfTicks(f, g) && Executes(g, h, true) && h.Sound(widen) && HandEmpty(h)
    ensures Step(widen, h.Now(), IdleState(h.Now()))
    ensures var i := h.(lock := false, trace := h.trace + [IdleState(h.Now())]);
            i.Sound(widen) && Elapses(1, f, i) && AllDueFired(widen, i.Now())
  {
    hide Step, IsRun, WheelOf, ListNodes, Nodes, AllDueFired, Wheel.Hand, Wheel.Valid;
    FindsNoneStep(widen, h, true);
    NothingDueLeft(widen, h.trace);
    SameDueFired(widen, h.Now(), IdleState(h.Now()));
    StepSound(widen, h, IdleState(h.Now()));
  }
}
