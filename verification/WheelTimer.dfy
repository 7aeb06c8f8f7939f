/**
 The timing wheel as the code has it: an object whose methods relink nodes in place.

 Every method is proved against the list operations of `WheelModel`, and `trace` records the run of
 `WheelMachine` the object has performed, so the theorems about runs hold of the object.
 `widen` is false for the code as written.
 */
module WheelTimers {
  import opened Bits
  import opened WheelCalls
  import opened WheelFields
  import opened WheelLists
  import opened WheelMachine
  import opened WheelPlacement
  import opened WheelTheorems
  import opened WheelWords

  /** Any words, read as `int`s. */
  predicate AllowedDelays(rs: seq<Request>) {
    forall r :: r in rs ==> r.delay < U32
  }

  predicate AllowedEnv(env: seq<seq<Request>>) {
    forall k :: 0 <= k < |env| ==> AllowedDelays(env[k])
  }

  class WheelTimer {
    const widen: bool
    const mNear: seq<TimerLinkList>
    const mWheel: seq<seq<TimerLinkList>>
    var mLock: bool
    var mUTime: nat
    var mUCurrentPoint: nat

    /** What the lists hold, the chain being walked with its position, the nodes freed so far, and the
        nodes ever added. */
    ghost var contents: Contents
    ghost var detached: seq<Entry>
    ghost var base: nat
    ghost var freed: set<TimerNode>
    ghost var nodes: set<TimerNode>
    ghost var trace: seq<State>
    ghost var Repr: set<object>

    ghost predicate Shaped() {
      && |mNear| == TIME_NEAR && |mWheel| == 4
      && forall l :: 0 <= l < 4 ==> |mWheel[l]| == TIME_NEAR
    }

    ghost function ListAt(s: Slot): TimerLinkList
      requires Shaped() && ValidSlot(s)
    {
      match s
      case Near(i) => mNear[i]
      case Level(l, i) => mWheel[l][i]
    }

    /** Every list except `hole` is well linked and inside `repr`. */
    ghost predicate AllOwned(c: Contents, repr: set<object>, hole: set<Slot>)
      reads repr - {this}
    {
      && Shaped()
      && forall s :: ValidSlot(s) && s !in hole ==>
           && s in c && ListAt(s) in repr && ListAt(s).head in repr && Nodes(c[s]) <= repr
           && OwnedList(ListAt(s), c[s], s, repr)
    }

    /** The detached chain is linked and the freed nodes are marked, all inside `repr`. */
    ghost predicate Aside(det: seq<Entry>, from: nat, gone: set<TimerNode>, repr: set<object>)
      reads repr - {this}
    {
      && Nodes(det) <= repr && Chained(det, from)
      && gone <= repr && forall n :: n in gone ==> n.at == Freed
    }

    /** The heap: lists, chain and freed nodes are where the ghost state says. */
    ghost predicate Heaped(c: Contents, det: seq<Entry>, from: nat, gone: set<TimerNode>, repr: set<object>)
      reads repr - {this}
    {
      AllOwned(c, repr, {}) && Aside(det, from, gone, repr)
    }

    lemma HeapedMore(c: Contents, det: seq<Entry>, from: nat, gone: set<TimerNode>,
                     repr: set<object>, more: set<object>)
      requires Heaped(c, det, from, gone, repr) && repr <= more
      ensures Heaped(c, det, from, gone, more)
    {
      hide Linked, Chained;
    }

    ghost predicate Valid()
      reads this, Repr
    {
      this in Repr && Shaped() && mUTime < U32 && AllSlots(contents) && Heaped(contents, detached, base, freed, Repr)
    }

    ghost function Snap(): Fields
      reads this
    {
      Fields(mLock, mUTime, mUCurrentPoint, contents, detached, base, freed, nodes, trace, Repr)
    }

    /** The fields agree with the recorded run, and no node is lost. */
    ghost predicate Sound()
      reads this
    {
      Snap().Sound(widen)
    }

    lemma StartsOwned()
      requires contents == EmptyContents(mUTime) && detached == [] && freed == {}
      requires RowObjects(mNear) + TableObjects(mWheel) <= Repr && Built(mNear, mWheel)
      ensures Shaped() && AllSlots(contents) && Heaped(contents, detached, base, freed, Repr)
    {
      hide OwnedList, Linked, RowReady, RowNamed, EmptyList, Nodes, RowObjects;
      NodesNone();
      forall s | ValidSlot(s)
        ensures && s in contents && ListAt(s) in Repr && ListAt(s).head in Repr && Nodes(contents[s]) <= Repr
                && OwnedList(ListAt(s), contents[s], s, Repr)
      {
        match s
        case Near(i) => RowOwns(mNear, -1, i, Repr);
        case Level(l, i) =>
          assert mWheel[l] in mWheel;
          RowOwns(mWheel[l], l, i, Repr);
      }
    }

    lemma StartsValid(word: nat, point: nat)
      requires word < U32 && Snap() == FirstFields(word, point).(repr := Repr) && this in Repr
      requires RowObjects(mNear) + TableObjects(mWheel) <= Repr && Built(mNear, mWheel)
      ensures Valid() && Sound()
    {
      hide Heaped, Built, RowObjects, TableObjects, Fields.Sound;
      StartsOwned();
      FirstSound(widen, word, point, Repr);
    }

    /** `m_uTime` is not set by the constructor, so it may hold any word. */
    constructor (widen: bool, word: nat, curTime: nat)
      requires word < U32
      ensures Valid() && Sound() && fresh(Repr) && this.widen == widen
      ensures Snap() == FirstFields(word, curTime).(repr := Repr)
    {
      hide Heaped, Built, RowObjects, TableObjects, Fields.Sound, AllSlots, EmptyContents, FirstState;
      var near, table;
      ghost var all;
      near, table, all := BuildLists();
      this.widen := widen;
      mNear := near;
      mWheel := table;
      mLock, mUTime, mUCurrentPoint := false, word, curTime;
      contents := EmptyContents(word);
      detached, base, freed, nodes := [], 0, {}, {};
      trace := [FirstState(word)];
      Repr := {this} + all;
      new;
      StartsValid(word, curTime);
    }

    // Single lists.

    lemma FillHole(c: Contents, repr: set<object>, s: Slot, es: seq<Entry>)
      requires AllOwned(c, repr, {s}) && ValidSlot(s)
      requires OwnedList(ListAt(s), es, s, repr)
      ensures AllOwned(c[s := es], repr, {})
    {
      hide Linked, Nodes, ValidSlot;
    }

    /** One list: it is owned, linked, and its nodes know it. */
    lemma OwnedAt(s: Slot)
      requires Valid() && ValidSlot(s)
      ensures s in contents && ListAt(s) in Repr && ListAt(s).head in Repr && Nodes(contents[s]) <= Repr
      ensures Linked(ListAt(s), contents[s]) && Tagged(ListAt(s), contents[s], s)
    {
      hide Linked, Aside, Nodes, Tagged, ValidSlot;
      assert OwnedList(ListAt(s), contents[s], s, Repr);
      LinkedTags(ListAt(s), contents[s]);
    }

    /** The nodes set aside know that, too. */
    lemma AsideTags()
      requires Valid()
      ensures forall n :: n in Nodes(detached) ==> n.at.Detached?
      ensures forall n :: n in freed ==> n.at == Freed
    {
      hide AllOwned, Chained, Nodes, AllSlots;
      ChainTags(detached, base);
    }

    lemma ChainNotFreed()
      requires Valid()
      ensures Nodes(detached) !! freed
    {
      hide Heaped, Nodes, AllSlots;
      AsideTags();
    }

    /** List `r` is not `l` and has none of these nodes. */
    ghost predicate Apart(r: Slot, l: TimerLinkList?, ns: set<TimerNode>)
      requires Shaped() && ValidSlot(r) && r in contents
      reads this
    {
      ListAt(r) != l && ListAt(r).head !in ns && Nodes(contents[r]) !! ns
    }

    lemma ListsApart(r: Slot, s: Slot, node: TimerNode)
      requires Valid() && ValidSlot(r) && ValidSlot(s) && node.at == Loose && r != s
      ensures r in contents && Apart(r, ListAt(s), {ListAt(s).tail, node})
    {
      hide Heaped, Linked, Nodes, AllSlots, ValidSlot, Tagged;
      OwnedAt(r);
      OwnedAt(s);
      TagsApart(ListAt(r), contents[r], r, ListAt(s), contents[s], s);
      TagsOutside(ListAt(r), contents[r], r, node);
    }

    lemma AsideApart(s: Slot, node: TimerNode)
      requires Valid() && ValidSlot(s) && node.at == Loose
      ensures Nodes(detached) !! {ListAt(s).tail, node} && freed !! {ListAt(s).tail, node}
      ensures ListAt(s).tail in Repr && ListAt(s).slot == s && s in contents && Linked(ListAt(s), contents[s])
    {
      hide Heaped, Linked, Nodes, AllSlots, ValidSlot;
      OwnedAt(s);
      AsideTags();
    }

    /** The heap effect of `Link`: no other list is touched. */
    method LinkBeside(list: TimerLinkList, node: TimerNode, ghost s: Slot, ghost x: Timer)
      requires Valid() && ValidSlot(s) && list == ListAt(s)
      requires node in Repr && node.at == Loose && Carries(node, x)
      modifies Repr - {this}
      ensures AllOwned(contents, Repr, {s}) && Aside(detached, base, freed, Repr)
      ensures list.slot == s && Linked(list, contents[s] + [Entry(node, x)])
      ensures list in Repr && list.head in Repr && Nodes(contents[s]) <= Repr
    {
      hide Timer.Expire, OwnedList, Linked, Chained, Nodes, ValidSlot, AllSlots, ListAt;
      forall r | ValidSlot(r) && r != s ensures Apart(r, list, {list.tail, node}) {
        ListsApart(r, s, node);
      }
      AsideApart(s, node);
      Link(list, node, contents[s], x);
    }

    /** `Link`, seen from the wheel: one list grows, everything else stays. */
    method LinkInto(list: TimerLinkList, node: TimerNode, ghost s: Slot, ghost x: Timer)
      requires Valid() && ValidSlot(s) && list == ListAt(s)
      requires node in Repr && node.at == Loose && Carries(node, x)
      modifies Repr
      ensures Valid() && Snap() == old(Snap()).(contents := old(contents)[s := old(contents)[s] + [Entry(node, x)]])
    {
      hide Timer.Expire, AllOwned, OwnedList, Linked, Aside, Nodes, ListAt;
      LinkBeside(list, node, s, x);
      NodesSnoc(contents[s], Entry(node, x));
      OwnsLinked(list, contents[s] + [Entry(node, x)], s, Repr);
      FillHole(contents, Repr, s, contents[s] + [Entry(node, x)]);
      contents := contents[s := contents[s] + [Entry(node, x)]];
    }

    /** The list `AddNode` chooses: near if the words agree above the near bits, else by level search. */
    method ListFor(time: nat, curTime: nat) returns (list: TimerLinkList)
      requires Shaped()
      ensures list == ListAt(Place(widen, time, curTime))
    {
      NearWords(time, curTime);
      if Or(time, TIME_NEAR_MASK) == Or(curTime, TIME_NEAR_MASK) {
        PlacedNear(widen, time, curTime);
        list := mNear[And(time, TIME_NEAR_MASK)];
      } else {
        var level := SearchLevel(time, curTime, widen);
        LevelWords(time, level);
        PlacedInLevel(widen, time, curTime);
        list := mWheel[level][And(Shr(time, TIME_NEAR_SHIFT + level * TIME_LEVEL_SHIFT), TIME_LEVEL_MASK)];
      }
    }

    /** `AddNode`: this very node goes to the end of the list placement names, and no other list changes. */
    method AddNode(node: TimerNode, ghost x: Timer)
      requires Valid() && node in Repr && node.at == Loose && Carries(node, x)
      modifies Repr
      ensures Valid() && Snap() == WithAdded(widen, old(Snap()), Entry(node, x))
    {
      hide Timer.Expire, Place, Heaped, WheelOf;
      var list := ListFor(node.expire, mUTime);
      LinkInto(list, node, Place(widen, node.expire, mUTime), x);
    }

    lemma DetachApart(r: Slot, s: Slot)
      requires Valid() && ValidSlot(r) && ValidSlot(s) && r != s
      ensures r in contents && s in contents && Apart(r, ListAt(s), {ListAt(s).head} + Nodes(contents[s]))
    {
      hide Heaped, Linked, Nodes, AllSlots, ValidSlot, Tagged, ListAt;
      OwnedAt(r);
      OwnedAt(s);
      TagsApart(ListAt(r), contents[r], r, ListAt(s), contents[s], s);
    }

    lemma FreedApart(s: Slot)
      requires Valid() && ValidSlot(s)
      ensures s in contents && freed !! {ListAt(s).head} + Nodes(contents[s])
      ensures ListAt(s).slot == s && Linked(ListAt(s), contents[s])
    {
      hide Heaped, Linked, Nodes, AllSlots, ValidSlot;
      OwnedAt(s);
      AsideTags();
    }

    /** The heap effect of `ClearLink`: no other list is touched. */
    method DetachBeside(list: TimerLinkList, ghost s: Slot) returns (ret: TimerNode?)
      requires Valid() && ValidSlot(s) && list == ListAt(s)
      modifies Repr - {this}
      ensures AllOwned(contents, Repr, {s}) && Aside(contents[s], 0, freed, Repr)
      ensures list.slot == s && Linked(list, []) && ret == First(contents[s])
      ensures list in Repr && list.head in Repr
    {
      hide Timer.Expire, OwnedList, Linked, Chained, Nodes, ValidSlot, AllSlots, ListAt, First;
      forall r | ValidSlot(r) && r != s ensures Apart(r, list, {list.head} + Nodes(contents[s])) {
        DetachApart(r, s);
      }
      FreedApart(s);
      ret := ClearLink(list, contents[s]);
    }

    lemma SlotThere(s: Slot)
      requires Valid() && ValidSlot(s)
      ensures s in contents
      ensures AllSlots(contents[s := []])
    {
      hide Heaped;
    }

    lemma DetachedHeap(s: Slot)
      requires Shaped() && ValidSlot(s) && s in contents
      requires AllOwned(contents, Repr, {s}) && Aside(contents[s], 0, freed, Repr)
      requires ListAt(s).slot == s && Linked(ListAt(s), []) && ListAt(s) in Repr && ListAt(s).head in Repr
      ensures Heaped(contents[s := []], contents[s], 0, freed, Repr)
    {
      hide AllOwned, OwnedList, Linked, Aside, Nodes, ValidSlot, ListAt;
      NodesNone();
      OwnsLinked(ListAt(s), [], s, Repr);
      FillHole(contents, Repr, s, []);
    }

    /** `ClearLink`, seen from the wheel: one list is emptied and its nodes become the detached chain. */
    method Detach(list: TimerLinkList, ghost s: Slot) returns (ret: TimerNode?)
      requires Valid() && ValidSlot(s) && list == ListAt(s) && detached == []
      modifies Repr
      ensures Valid() && Snap() == WithDetached(old(Snap()), s) && ret == First(detached)
    {
      hide Timer.Expire, Heaped, AllOwned, OwnedList, Linked, Aside, Nodes, AllSlots, ValidSlot, ListAt, First, Shaped;
      SlotThere(s);
      ghost var es := contents[s];
      ret := DetachBeside(list, s);
      DetachedHeap(s);
      contents, detached, base := contents[s := []], es, 0;
    }

    lemma ChainHead()
      requires Valid() && detached != []
      ensures detached[0].node.next == First(detached[1..]) && detached[0].node in Repr
    {
      hide AllOwned;
      ChainTail(detached, base);
    }

    lemma PopApart(r: Slot)
      requires Valid() && detached != [] && ValidSlot(r)
      ensures r in contents && Apart(r, null, {detached[0].node}) && detached[0].node !in freed
    {
      hide Heaped, Linked, Nodes, AllSlots, ValidSlot;
      OwnedAt(r);
      AsideTags();
      NodesTail(detached);
    }

    lemma HeadNotFreed()
      requires Valid() && detached != []
      ensures detached[0].node !in freed && detached[0].node in Repr
    {
      hide AllOwned, Linked, AllSlots;
      NodesTail(detached);
      AsideTags();
    }

    lemma ListsApartFromHead()
      requires Valid() && detached != []
      ensures forall r :: ValidSlot(r) ==> r in contents && Apart(r, null, {detached[0].node})
    {
      hide Heaped, Linked, Nodes, AllSlots, ValidSlot, ListAt, Apart;
      forall r | ValidSlot(r) ensures r in contents && Apart(r, null, {detached[0].node}) {
        PopApart(r);
      }
    }

    /** The lists do not notice that the head of the chain is taken off. */
    ghost method PopBeside(e: Entry, where: Where)
      requires Valid() && detached != [] && e == detached[0] && (where == Loose || where == Freed)
      modifies e.node
      ensures Heaped(contents, detached[1..], base + 1, freed, Repr)
      ensures TakenOff(e, where) && e.node.next == old(e.node.next)
    {
      hide Timer.Expire, OwnedList, Linked, Chained, Nodes, ValidSlot, AllSlots, ListAt;
      HeadNotFreed();
      ListsApartFromHead();
      ChainTail(detached, base);
      e.node.at := where;
    }

    /** Take the first node off the detached chain: to relink it, or because it is freed. */
    ghost method Pop(e: Entry, where: Where)
      requires Valid() && detached != [] && e == detached[0] && (where == Loose || where == Freed)
      modifies this, e.node
      ensures Valid() && Snap() == Popped(old(Snap()), where)
      ensures TakenOff(e, where) && e.node.next == old(e.node.next) && e.node in Repr && e.node !in old(freed)
    {
      hide Timer.Expire, AllOwned, Chained, Nodes, Carries, AllSlots, ListAt;
      HeadNotFreed();
      PopBeside(e, where);
      detached, base := detached[1..], base + 1;
      if where == Freed {
        freed := freed + {e.node};
      }
    }

    lemma LevelThere(level: nat, index: nat)
      requires Shaped() && level < 4 && index < TIME_LEVEL
      ensures ValidSlot(Level(level, index)) && ListAt(Level(level, index)) == mWheel[level][index]
    {
    }

    /** `MoveList`: empty a list, then link its nodes again one by one; the very same nodes, in order. */
    method MoveList(level: nat, index: nat)
      requires Valid() && level < 4 && index < TIME_LEVEL && detached == []
      modifies Repr
      ensures Valid() && Snap() == WithMoved(widen, old(Snap()), Level(level, index)).(base := base)
    {
      hide Timer.Expire, Heaped, AddedEntry, Nodes, AllSlots, ValidSlot, ListAt, Place, Carries;
      ghost var s := Level(level, index);
      LevelThere(level, index);
      SlotThere(s);
      var list := Detach(mWheel[level][index], s);
      while list != null
        invariant Valid() && list == First(detached)
        invariant Snap() == old(Snap()).(contents := contents, detached := detached, base := base)
        invariant AddedEntries(contents, widen, mUTime, detached) == MovedEntries(old(contents), widen, mUTime, s)
        decreases |detached|
      {
        var temp := list.next;
        ghost var x := detached[0].timer;
        ChainHead();
        Pop(detached[0], Loose);
        AddNode(list, x);
        list := temp;
      }
    }

    /** `++m_uTime` on a 32-bit word. */
    method Advance() returns (curTime: nat)
      requires Valid()
      modifies this`mUTime
      ensures curTime == (old(mUTime) + 1) % U32
      ensures Valid() && Snap() == old(Snap()).(time := curTime)
    {
      hide Heaped, Shaped;
      mUTime := (mUTime + 1) % U32;
      curTime := mUTime;
    }

    /** The cascade loop of `TimerShift`. */
    method Cascade(curTime: nat)
      requires Valid() && detached == [] && 0 < curTime == mUTime
      modifies Repr
      ensures Valid() && Snap() == WithCascaded(widen, old(Snap()), 1).(base := base)
    {
      hide Heaped, And, Shr, Shl32, ShiftLoop, CascadeSlot, MovedEntries, ShiftedEntries;
      hide AllSlots, ValidSlot, Shaped, ListAt;
      ghost var f := Snap();
      var mask: nat := TIME_NEAR;
      var time: nat := Shr(curTime, TIME_NEAR_SHIFT);
      var level: nat := 0;
      ghost var moves: nat := 0;
      ShiftStarts(curTime);
      while And(curTime, (mask - 1) % U32) == 0
        invariant ShiftLoop(curTime, level, mask, time, moves)
        invariant Valid() && Snap() == WithCascaded(widen, f, moves).(base := base)
        decreases 4 - level
      {
        var index := And(time, TIME_LEVEL_MASK);
        ShiftLoopStep(curTime, level, mask, time, moves);
        if index != 0 {
          ghost var g := Snap();
          MoveList(level, index);
          CascadeMoves(widen, f, g, Snap(), Level(level, index));
          moves := moves + 1;
        }
        mask := Shl32(mask, TIME_LEVEL_SHIFT);
        time := Shr(time, TIME_LEVEL_SHIFT);
        level := level + 1;
      }
      ShiftLoopEnds(curTime, level, mask, time, moves);
      CascadeIdle(widen, f, Snap(), moves);
    }

    /** `TimerShift`.  The loop has no break, yet moves at most one list: after a non-zero digit the next,
        wider mask test fails; and at level 4 the mask has wrapped to 0, so the test mask is all ones. */
    method TimerShift()
      requires Valid() && detached == []
      modifies Repr
      ensures Valid() && Snap() == WithShifted(widen, old(Snap())).(base := base)
    {
      hide Heaped, AllSlots, Shaped, ListAt, WithMoved, WithCascaded;
      ghost var f := Snap();
      var curTime := Advance();
      if 0 == curTime {
        MoveList(3, 0);
        ShiftWraps(widen, f, Snap());
      } else {
        Cascade(curTime);
      }
    }

    // The protocol: each locked section and each callback is a step of the recorded run.

    /** A step that touches no field but the history. */
    ghost method Record(s': State)
      requires Valid() && trace != [] && IsRun(widen, trace) && Step(widen, Snap().Now(), s')
      modifies this`trace
      ensures Valid() && IsRun(widen, trace) && Snap() == old(Snap()).(trace := old(trace) + [s'])
    {
      hide Heaped, Step, IsRun, AllSlots;
      RunSnoc(widen, trace, s');
      trace := trace + [s'];
    }

    /** `m_Lock.Lock()` and `m_Lock.Unlock()`: the step that sets or clears the flag. */
    method SetLock(flag: bool, ghost s': State)
      requires Valid() && trace != [] && IsRun(widen, trace) && Step(widen, Snap().Now(), s')
      modifies this`mLock, this`trace
      ensures Valid() && IsRun(widen, trace)
      ensures Snap() == old(Snap()).(lock := flag, trace := old(trace) + [s'])
    {
      hide Heaped, Step, IsRun, AllSlots, Shaped, ListAt;
      mLock := flag;
      Record(s');
    }

    ghost method Adopt(node: TimerNode)
      requires Valid() && node.at == Loose
      modifies this`Repr
      ensures Valid() && Snap() == old(Snap()).(repr := old(Repr) + {node})
    {
      hide Heaped, AllSlots;
      HeapedMore(contents, detached, base, freed, Repr, Repr + {node});
      Repr := Repr + {node};
    }

    /** A node nobody links to was never added. */
    lemma LooseApart(node: TimerNode)
      requires Valid() && Sound() && node.at == Loose
      ensures node !in nodes
    {
      hide Heaped, IsRun, Linked, WheelOf;
      AsideTags();
      forall s, e | s in contents && e in contents[s] ensures e.node != node {
        OwnedAt(s);
        assert e.node in Nodes(contents[s]);
      }
    }

    /** The locked section of `AddTimer`. */
    method AddLocked(node: TimerNode, time: int) returns (ghost x: Timer)
      requires Valid() && Sound() && !mLock && IsInt32(time)
      requires node !in Repr && node.at == Loose
      modifies Repr, node
      ensures Valid() && Sound() && Adds(widen, old(Snap()), Snap(), node, x)
      ensures x == NewTimer(old(Snap()).Now(), Request(old(node.callBack), time % U32))
    {
      hide Timer.Expire, Heaped, IsRun, Step, WheelOf, ListNodes, Nodes, AllSlots, ListAt;
      hide AddedEntry, AddedState, LockedState, Shaped;
      ghost var f, r := Snap(), Request(node.callBack, time % U32);
      x := NewTimer(f.Now(), r);
      LooseApart(node);
      LocksForAdd(widen, f, r, time);
      LinksAdded(widen, f, r);
      SetLock(true, LockedState(f.Now(), r));
      node.expire := (time + mUTime) % U32;
      Adopt(node);
      AddNode(node, x);
      nodes := nodes + {node};
      SetLock(false, AddedState(f.Now(), widen, x));
      AddsSound(widen, f, Snap(), node, x);
    }

    /** `AddTimer`, by any thread that finds the lock free: one new node, holding the new timer, goes to
        the end of one list.  `time` is any `int`. */
    method AddTimer(callBack: int, time: int) returns (ghost node: TimerNode, ghost x: Timer)
      requires Valid() && Sound() && !mLock && IsInt32(time)
      modifies Repr
      ensures Valid() && Sound() && fresh(Repr - old(Repr)) && fresh(node)
      ensures Adds(widen, old(Snap()), Snap(), node, x)
      ensures x == NewTimer(old(Snap()).Now(), Request(callBack, time % U32))
    {
      hide Heaped, Fields.Sound, AllSlots, AddedEntry, AddedState, Shaped;
      var added := new TimerNode(callBack, Loose);
      x := AddLocked(added, time);
      node := added;
    }

    /** The `AddTimer` calls made, by the callback or by other threads, while one callback runs. */
    method AddTimers(rs: seq<Request>)
      requires Valid() && Sound() && !mLock && AllowedDelays(rs)
      modifies Repr
      ensures Valid() && Sound() && fresh(Repr - old(Repr)) && OnlyAdds(old(Snap()), Snap())
      ensures Snap().Now().added
           == old(Snap()).Now().added + Made(|old(Snap()).Now().added|, old(Snap()).Now().now, rs)
      ensures rs == [] ==> Snap() == old(Snap())
      decreases |rs|
    {
      hide Heaped, Fields.Sound, AllSlots, Adds, Shaped;
      ghost var f := Snap();
      if rs == [] {
        assert Made(|f.Now().added|, f.Now().now, rs) == [];
      } else {
        WordOfInt(rs[0].delay);
        ghost var node, x := AddTimer(rs[0].callBack, ToInt32(rs[0].delay));
        ghost var g := Snap();
        AddsOnly(widen, f, g, node, x);
        AddTimers(rs[1..]);
        OnlyAddsTrans(f, g, Snap());
        MadeOne(widen, f, g, Snap(), node, x, rs);
      }
    }

    /** `call_back->OnTimeOut()` for the first node of the detached chain. */
    method RunCallback(again: bool, during: seq<Request>)
      requires Valid() && Sound() && AllowedDelays(during) && InDispatch(Snap(), again) && detached != []
      modifies Repr
      ensures Valid() && Sound() && fresh(Repr - old(Repr)) && CallsBack(old(Snap()), Snap(), again)
      ensures Snap().Now().added
           == old(Snap()).Now().added + Made(|old(Snap()).Now().added|, old(Snap()).Now().now, during)
      ensures var n, added := |old(Snap()).Now().added|, Snap().Now().added;
              && |added| == n + |during| && old(Snap()).Now().added <= added
              && forall k :: 0 <= k < |during| ==>
                   added[n + k] == Timer(n + k, during[k].callBack, old(Snap()).Now().now, during[k].delay)
      ensures during == [] ==> contents == old(contents)
    {
      hide Heaped, AllSlots, IsRun, Step, WheelOf, ListNodes, Nodes, OnlyAdds, AllowedDelays, Shaped, ListAt;
      ghost var f := Snap();
      CallsStep(widen, f, again);
      Record(CalledState(f.Now()));
      ghost var g := Snap();
      AddTimers(during);
      CallsThenAdds(f, g, Snap(), again);
    }

    /** One iteration of `DispatchList`: run the callback of the first node, then free the node. */
    method DispatchOne(node: TimerNode, again: bool, during: seq<Request>) returns (next: TimerNode?)
      requires Valid() && Sound() && AllowedDelays(during) && InDispatch(Snap(), again)
      requires detached != [] && node == First(detached)
      modifies Repr
      ensures Valid() && Sound() && fresh(Repr - old(Repr)) && DispatchesOne(old(Snap()), Snap(), again)
      ensures Snap().Now().added
           == old(Snap()).Now().added + Made(|old(Snap()).Now().added|, old(Snap()).Now().now, during)
      ensures next == First(detached)
      ensures during == [] ==> contents == old(contents)
    {
      hide Heaped, Fields.Sound, AllSlots, AllowedDelays, Nodes, Shaped, ListAt;
      ghost var f := Snap();
      RunCallback(again, during);
      ghost var g := Snap();
      ChainHead();
      next := node.next;
      Pop(detached[0], Freed);
      FreesOne(widen, f, g, Snap(), again);
    }

    /** `DispatchList`: run and free every node of a detached chain, front to back.  `env` lists the
        `AddTimer` calls that arrive during each callback. */
    method DispatchList(list: TimerNode, again: bool, env: seq<seq<Request>>) returns (rest: seq<seq<Request>>)
      requires Valid() && Sound() && AllowedEnv(env) && InDispatch(Snap(), again)
      requires detached != [] && list == First(detached)
      modifies Repr
      ensures Valid() && Sound() && fresh(Repr - old(Repr))
      ensures detached == [] && InDispatch(Snap(), again) && Advances(old(Snap()), Snap())
      ensures freed == old(freed) + Nodes(old(detached)) && Nodes(old(detached)) !! old(freed)
      ensures Snap().Now().fired
           == old(Snap()).Now().fired + Firings(Timers(old(detached)), old(Snap()).Now().now, old(mUTime))
      ensures Answers(old(Snap()), Snap(), env, rest) && rest == Unused(env, |old(detached)|)
      ensures AllowedEnv(rest) && (env != [] ==> |rest| < |env|)
      ensures env == [] ==> rest == [] && contents == old(contents)
    {
      hide Heaped, Fields.Sound, AllSlots, Nodes, Timers, Advances, Shaped, Answers, Made;
      ChainNotFreed();
      NodesNone();
      var node: TimerNode? := list;
      rest := env;
      DispatchesNone(Snap(), again);
      AnswersNone(Snap(), Snap(), env);
      while node != null
        invariant Valid() && Sound() && fresh(Repr - old(Repr)) && node == First(detached)
        invariant Dispatches(old(Snap()), Snap(), again) && Answers(old(Snap()), Snap(), env, rest)
        invariant AllowedEnv(rest) && |rest| <= |env| && (detached != old(detached) && env != [] ==> |rest| < |env|)
        invariant env == [] ==> rest == [] && contents == old(contents)
        decreases |detached|
      {
        ghost var g, mid := Snap(), rest;
        ghost var x := detached[0].timer;
        var during := During(rest);
        rest := Unused(rest, 1);
        node := DispatchOne(node, again, during);
        DispatchesMore(old(Snap()), g, Snap(), again);
        AnswersOne(g, Snap(), x, g.time, mid);
        AnswersTrans(old(Snap()), g, Snap(), env, mid, rest);
      }
      AnswersLength(old(Snap()), Snap(), env, rest, Timers(old(detached)), old(mUTime));
    }

    lemma HandHead(i: nat)
      requires Valid() && i == mUTime % TIME_NEAR
      ensures mNear[i].head.next == null <==> HandEmpty(Snap())
      ensures mNear[i].head.next != null <==> HandWaits(Snap())
    {
      hide Heaped, NextLinked, Carries;
      OwnedAt(Near(i));
    }

    /** The list under the clock hand. */
    ghost predicate IsHand(list: TimerLinkList)
      reads this
    {
      Shaped() && list == mNear[mUTime % TIME_NEAR]
    }

    /** `ClearLink` on the list under the hand, then `m_Lock.Unlock()`. */
    method TakeHand(again: bool, list: TimerLinkList) returns (node: TimerNode?)
      requires Valid() && Sound() && InExecute(Snap(), again)
      requires IsHand(list) && HandWaits(Snap())
      modifies Repr
      ensures Valid() && Sound() && Snap() == Taken(old(Snap()), again) && node == First(detached)
      ensures InDispatch(Snap(), again) && Advances(old(Snap()), Snap()) && SameHistory(old(Snap()), Snap())
    {
      hide Heaped, IsRun, Step, WheelOf, ListNodes, Nodes, Timers, TakenState;
      ghost var f := Snap();
      TakenSound(widen, f, again);
      node := Detach(list, f.Hand());
      SetLock(false, TakenState(f.Now(), again, f.Hand()));
    }

    /** `m_Lock.Lock()` after a dispatch. */
    method Relock(again: bool)
      requires Valid() && Sound() && InDispatch(Snap(), again) && detached == []
      modifies this`mLock, this`trace
      ensures Valid() && Sound() && Executes(old(Snap()), Snap(), again) && SameHistory(old(Snap()), Snap())
      ensures contents == old(contents) && mUTime == old(mUTime) && Repr == old(Repr)
    {
      hide Heaped, IsRun, Step, WheelOf, ListNodes, Nodes, AllSlots, Shaped;
      ghost var f := Snap();
      RelockSound(widen, f, again);
      SetLock(true, RelockedState(f.Now(), again));
    }

    /** One round of `TimerExecute`: detach the list under the hand, dispatch it with the lock dropped. */
    method ExecuteRound(again: bool, list: TimerLinkList, env: seq<seq<Request>>) returns (rest: seq<seq<Request>>)
      requires Valid() && Sound() && AllowedEnv(env) && InExecute(Snap(), again)
      requires IsHand(list) && HandWaits(Snap())
      modifies Repr
      ensures Valid() && Sound() && fresh(Repr - old(Repr)) && Executes(old(Snap()), Snap(), again)
      ensures Answers(old(Snap()), Snap(), env, rest)
      ensures AllowedEnv(rest) && (env != [] ==> |rest| < |env|)
      ensures env == [] ==> rest == [] && HandEmpty(Snap())
    {
      hide Heaped, Fields.Sound, AllSlots, AllowedDelays, Nodes, Timers, Firings, TakenState, Shaped;
      ghost var f := Snap();
      var node := TakeHand(again, list);
      ghost var g := Snap();
      rest := DispatchList(node, again, env);
      ghost var h := Snap();
      Relock(again);
      AdvancesTrans(f, g, h);
      ExecutesTrans(f, h, Snap(), again);
      AnswersBetween(f, g, h, Snap(), env, rest);
    }

    /** `TimerExecute`: as long as the list under the hand is not empty, run a round. */
    method TimerExecute(again: bool, env: seq<seq<Request>>) returns (rest: seq<seq<Request>>)
      requires Valid() && Sound() && AllowedEnv(env) && InExecute(Snap(), again)
      modifies Repr
      ensures Valid() && Sound() && AllowedEnv(rest) && fresh(Repr - old(Repr))
      ensures Executes(old(Snap()), Snap(), again) && HandEmpty(Snap()) && Answers(old(Snap()), Snap(), env, rest)
    {
      hide Heaped, Fields.Sound, AllowedEnv, Nodes, AllSlots, And, HandEmpty, HandWaits, Answers;
      HandWord(mUTime);
      var index := And(mUTime, TIME_NEAR_MASK);
      rest := env;
      AnswersNone(Snap(), Snap(), env);
      HandHead(index);
      while mNear[index].head.next != null
        invariant Valid() && Sound() && AllowedEnv(rest) && fresh(Repr - old(Repr))
        invariant Executes(old(Snap()), Snap(), again) && Answers(old(Snap()), Snap(), env, rest)
        invariant mNear[index].head.next == null <==> HandEmpty(Snap())
        invariant mNear[index].head.next != null <==> HandWaits(Snap())
        decreases |rest|, HandWaits(Snap())
      {
        ghost var g, mid := Snap(), rest;
        rest := ExecuteRound(again, mNear[index], rest);
        ExecutesTrans(old(Snap()), g, Snap(), again);
        AnswersTrans(old(Snap()), g, Snap(), env, mid, rest);
        HandHead(index);
      }
    }

    // Update.

    /** The shift, as two steps of the run. */
    method ShiftTick()
      requires Valid() && Sound() && InExecute(Snap(), false) && HandEmpty(Snap())
      modifies Repr
      ensures Valid() && Sound() && Repr == old(Repr) && HalfTicks(old(Snap()), Snap())
      ensures SameHistory(old(Snap()), Snap())
    {
      hide Heaped, IsRun, Step, WheelOf, ListNodes, Nodes, TickedState, ShiftedEntries, AllSlots, Shaped, ListAt;
      ghost var f := Snap();
      ghost var s := f.Now().(pc := Shifting);
      TimerShift();
      trace := trace + [s] + [TickedState(s, widen)];
      ShiftSound(widen, f, Snap());
    }

    /** `m_Lock.Lock()` at the start of `Update`. */
    method StartUpdate()
      requires Valid() && Sound() && !mLock && detached == [] && Snap().Now().pc == Idle
      modifies this`mLock, this`trace
      ensures Valid() && Sound() && Repr == old(Repr) && Executes(old(Snap()), Snap(), false)
      ensures SameHistory(old(Snap()), Snap())
    {
      hide Heaped, IsRun, Step, WheelOf, ListNodes, Nodes, AllSlots;
      ghost var f := Snap();
      StartsUpdate(widen, f);
      SetLock(true, RelockedState(f.Now(), false));
    }

    /** `Update` up to its second `TimerExecute`. */
    method HalfTick(env: seq<seq<Request>>) returns (rest: seq<seq<Request>>)
      requires Valid() && Sound() && AllowedEnv(env) && !mLock && detached == [] && Snap().Now().pc == Idle
      modifies Repr
      ensures Valid() && Sound() && AllowedEnv(rest) && fresh(Repr - old(Repr))
      ensures HalfTicks(old(Snap()), Snap()) && Answers(old(Snap()), Snap(), env, rest)
    {
      hide Heaped, Fields.Sound, AllowedEnv, AllSlots, Advances, Shaped, HandEmpty, Answers;
      ghost var f := Snap();
      StartUpdate();
      ghost var g := Snap();
      rest := TimerExecute(false, env);
      ghost var h := Snap();
      ExecutesTrans(f, g, h, false);
      ShiftTick();
      HalfTicksTrans(f, h, Snap());
      AnswersBetween(f, g, h, Snap(), env, rest);
    }

    /** `Update`: one tick.  `env` lists the `AddTimer` calls that arrive while callbacks run. */
    method Update(env: seq<seq<Request>>) returns (rest: seq<seq<Request>>)
      requires Valid() && Sound() && AllowedEnv(env) && !mLock && detached == [] && Snap().Now().pc == Idle
      modifies Repr
      ensures Valid() && Sound() && AllowedEnv(rest) && fresh(Repr - old(Repr))
      ensures Elapses(1, old(Snap()), Snap()) && AllDueFired(widen, Snap().Now())
      ensures Answers(old(Snap()), Snap(), env, rest)
    {
      hide Heaped, IsRun, Step, WheelOf, ListNodes, Nodes, AllowedEnv, AllSlots, AllDueFired, HandEmpty, Shaped;
      ghost var f := Snap();
      rest := HalfTick(env);
      ghost var g, mid := Snap(), rest;
      rest := TimerExecute(true, rest);
      ghost var h := Snap();
      EndsUpdate(widen, f, g, h);
      SetLock(false, IdleState(h.Now()));
      AnswersTrans(f, g, h, env, mid, rest);
      AnswersBefore(f, h, Snap(), env, rest);
    }

    /** `UpdateTime`, given what the wall clock reads: one `Update` per elapsed unit, none when the clock
        went back, and none when the 32-bit difference is negative. */
    method UpdateTime(curTime: nat, env: seq<seq<Request>>)
      requires Valid() && Sound() && AllowedEnv(env) && !mLock && detached == [] && Snap().Now().pc == Idle
      modifies Repr
      ensures Valid() && Sound() && fresh(Repr - old(Repr))
      ensures mUCurrentPoint == curTime
      ensures Elapses(ElapsedTicks(old(mUCurrentPoint), curTime), old(Snap()).(point := curTime), Snap())
      ensures var was, ticks := old(mUCurrentPoint), Snap().Now().now - old(Snap()).Now().now;
              && (curTime < was ==> ticks == 0)
              && (was <= curTime < was + 0x8000_0000 ==> ticks == curTime - was)
              && (was + 0x8000_0000 <= curTime ==>
                   ticks == var d := (curTime - was) % 0x1_0000_0000; if d < 0x8000_0000 then d else 0)
      ensures AddsAsAsked(old(Snap()), Snap(), env)
      ensures Snap().Now().now > old(Snap()).Now().now ==> AllDueFired(widen, Snap().Now())
    {
      hide Heaped, IsRun, WheelOf, ListNodes, Nodes, AllowedEnv, AllSlots, AllDueFired, Shaped;
      ghost var f := Snap().(point := curTime);
      ElapsedMeaning(mUCurrentPoint, curTime);
      AnswersNone(f, f, env);
      if curTime < mUCurrentPoint {
        mUCurrentPoint := curTime;
      } else if curTime != mUCurrentPoint {
        var diff := ToInt32(curTime - mUCurrentPoint);
        mUCurrentPoint := curTime;
        var i := 0;
        var rest := env;
        while i < diff
          invariant 0 <= i && (i <= diff || i == 0)
          invariant Valid() && Sound() && AllowedEnv(rest) && fresh(Repr - old(Repr))
          invariant Elapses(i, f, Snap()) && Answers(f, Snap(), env, rest)
          invariant i > 0 ==> AllDueFired(widen, Snap().Now())
        {
          ghost var g, mid := Snap(), rest;
          rest := Update(rest);
          ElapsesTrans(i, 1, f, g, Snap());
          AnswersTrans(f, g, Snap(), env, mid, rest);
          i := i + 1;
        }
      }
    }

    // Conservation of nodes.

    /** Every node ever added is in exactly one place: at one position of one list, at one position of the
        chain being walked, or freed. */
    lemma NodesConserved()
      requires Valid() && Sound()
      ensures nodes == ListNodes(contents) + Nodes(detached) + freed
      ensures ListNodes(contents) !! Nodes(detached) && ListNodes(contents) !! freed && Nodes(detached) !! freed
      ensures forall r, s, j, k ::
                r in contents && s in contents && 0 <= j < |contents[r]| && 0 <= k < |contents[s]| ==>
                contents[r][j].node == contents[s][k].node ==> r == s && j == k
      ensures forall j, k :: 0 <= j < k < |detached| ==> detached[j].node != detached[k].node
    {
      hide AllOwned, NextLinked, Carries, IsRun, WheelOf;
      forall s, k | s in contents && 0 <= k < |contents[s]| ensures contents[s][k].node.at == InList(s, k) {
        OwnedAt(s);
      }
    }
  }
}
