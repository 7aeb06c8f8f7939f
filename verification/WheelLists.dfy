/**
 The linked lists of the timing wheel: nodes linked through `next`, lists with a sentinel head and a
 tail pointer, and the entries each list holds.
 */
module WheelLists {
  import opened Bits
  import opened WheelModel
  import opened WheelPlacement
  import opened WheelWords

  /** Where a node is: a sentinel, in no list, at position `k` of a list or of a detached chain, freed. */
  datatype Where = Sentinel(s: Slot) | Loose | InList(s: Slot, k: nat) | Detached(k: nat) | Freed

  class TimerNode {
    var expire: nat
    var next: TimerNode?
    var callBack: int
    ghost var at: Where

    constructor (callBack: int, ghost at: Where)
      ensures this.callBack == callBack && next == null && this.at == at
    {
      this.expire, this.next, this.callBack, this.at := 0, null, callBack, at;
    }
  }

  /** A node together with the timer it stands for. */
  datatype Entry = Entry(node: TimerNode, timer: Timer)

  ghost function First(es: seq<Entry>): TimerNode? {
    if es == [] then null else es[0].node
  }

  ghost function Nodes(es: seq<Entry>): set<TimerNode> {
    set e | e in es :: e.node
  }

  ghost function Timers(es: seq<Entry>): (xs: seq<Timer>)
    ensures |xs| == |es|
  {
    seq(|es|, k requires 0 <= k < |es| => es[k].timer)
  }

  ghost predicate Carries(node: TimerNode, x: Timer)
    reads node
  {
    node.expire == x.Expire() && node.callBack == x.callBack
  }

  /** Each node's `next` is the node after it, and the last one's is null. */
  ghost predicate NextLinked(es: seq<Entry>)
    reads Nodes(es)
  {
    && (forall j, k :: 0 <= j < |es| && 0 <= k < |es| && k == j + 1 ==> es[j].node.next == es[k].node)
    && (es != [] ==> es[|es| - 1].node.next == null)
  }

  class TimerLinkList {
    const head: TimerNode
    var tail: TimerNode
    ghost const slot: Slot

    constructor (ghost slot: Slot)
      ensures this.slot == slot && fresh(head) && Linked(this, [])
    {
      var sentinel := new TimerNode(0, Sentinel(slot));
      this.head, this.tail, this.slot := sentinel, sentinel, slot;
    }
  }

  /** The list runs from its sentinel through exactly the nodes of `es` to null, and `tail` is its last
      node.  Since each node knows its position, lists are acyclic and pairwise disjoint. */
  ghost predicate Linked(l: TimerLinkList, es: seq<Entry>)
    reads l, l.head, Nodes(es)
  {
    && l.head.at == Sentinel(l.slot)
    && l.head.next == First(es)
    && l.tail == (if es == [] then l.head else es[|es| - 1].node)
    && (forall k :: 0 <= k < |es| ==> es[k].node.at == InList(l.slot, k) && Carries(es[k].node, es[k].timer))
    && NextLinked(es)
  }

  ghost predicate EmptyList(l: TimerLinkList)
    reads l, l.head
  {
    l.head.at == Sentinel(l.slot) && l.head.next == null && l.tail == l.head
  }

  /** List `s`, with all its nodes inside `repr`. */
  ghost predicate OwnedList(l: TimerLinkList, es: seq<Entry>, s: Slot, repr: set<object>)
    reads l, l.head, Nodes(es)
  {
    l in repr && l.head in repr && l.slot == s && Nodes(es) <= repr && Linked(l, es)
  }

  lemma NodesSnoc(es: seq<Entry>, e: Entry)
    ensures Nodes(es + [e]) == Nodes(es) + {e.node}
  {
    assert forall d :: d in es + [e] <==> d in es || d == e;
    assert e in es + [e];
  }

  lemma NodesNone()
    ensures Nodes([]) == {}
  {
  }

  lemma NodesTail(es: seq<Entry>)
    requires es != []
    ensures Nodes(es) == {es[0].node} + Nodes(es[1..])
  {
    assert es == [es[0]] + es[1..];
    forall e | e in es ensures e == es[0] || e in es[1..] {
    }
  }

  /** Where the nodes of list `s` say they are. */
  ghost predicate Tagged(l: TimerLinkList, es: seq<Entry>, s: Slot)
    reads l, l.head, Nodes(es)
  {
    && l.slot == s && l.head.at == Sentinel(s) && (l.tail == l.head || l.tail in Nodes(es))
    && forall n :: n in Nodes(es) ==> n.at.InList? && n.at.s == s
  }

  lemma LinkedTags(l: TimerLinkList, es: seq<Entry>)
    requires Linked(l, es)
    ensures Tagged(l, es, l.slot)
  {
    hide NextLinked, Carries;
  }

  /** Different lists share nothing, and a loose node is in neither. */
  lemma TagsApart(l: TimerLinkList, es: seq<Entry>, r: Slot, m: TimerLinkList, fs: seq<Entry>, s: Slot)
    requires Tagged(l, es, r) && Tagged(m, fs, s) && r != s
    ensures l != m && l.head != m.head && l.head != m.tail && m.tail !in Nodes(es)
    ensures l.head !in Nodes(fs) && m.head !in Nodes(es) && Nodes(es) !! Nodes(fs)
  {
    hide Nodes;
  }

  lemma TagsOutside(l: TimerLinkList, es: seq<Entry>, s: Slot, node: TimerNode)
    requires Tagged(l, es, s) && !node.at.Sentinel? && !node.at.InList?
    ensures node != l.head && node != l.tail && node !in Nodes(es)
  {
    hide Nodes;
  }

  lemma OwnsLinked(l: TimerLinkList, es: seq<Entry>, s: Slot, repr: set<object>)
    requires l in repr && l.head in repr && l.slot == s && Nodes(es) <= repr && Linked(l, es)
    ensures OwnedList(l, es, s, repr)
  {
  }

  /** A node that has just been taken off a chain. */
  ghost predicate TakenOff(e: Entry, where: Where)
    reads e.node
  {
    e.node.at == where && Carries(e.node, e.timer)
  }

  /** A chain that has been taken out of its list and is being walked. */
  ghost predicate Chained(es: seq<Entry>, base: nat)
    reads Nodes(es)
  {
    && (forall k :: 0 <= k < |es| ==> es[k].node.at == Detached(base + k) && Carries(es[k].node, es[k].timer))
    && NextLinked(es)
  }

  lemma TimersTail(es: seq<Entry>)
    requires es != []
    ensures Timers(es)[1..] == Timers(es[1..]) && Timers(es)[0] == es[0].timer
  {
  }

  lemma TimersSnoc(es: seq<Entry>, e: Entry)
    ensures Timers(es + [e]) == Timers(es) + [e.timer]
  {
  }

  lemma ChainTags(es: seq<Entry>, base: nat)
    requires Chained(es, base)
    ensures forall n :: n in Nodes(es) ==> n.at.Detached?
  {
    hide NextLinked, Carries;
  }

  lemma ChainTail(es: seq<Entry>, base: nat)
    requires Chained(es, base) && es != []
    ensures Chained(es[1..], base + 1) && es[0].node !in Nodes(es[1..])
    ensures es[0].node.next == First(es[1..]) && Carries(es[0].node, es[0].timer)
    ensures Nodes(es[1..]) <= Nodes(es) && es[0].node in Nodes(es)
  {
    assert es[0] in es;
    assert forall k :: 0 <= k < |es[1..]| ==> es[1..][k] == es[k + 1];
    assert NextLinked(es);
    assert |es| > 1 ==> es[0].node.next == es[1].node;
  }

  /** `ClearLink`: detach all nodes and return the first. */
  method ClearLink(list: TimerLinkList, ghost es: seq<Entry>) returns (ret: TimerNode?)
    requires Linked(list, es)
    modifies list, list.head, Nodes(es)
    ensures Linked(list, []) && Chained(es, 0) && ret == First(es)
  {
    ret := list.head.next;
    list.head.next := null;
    list.tail := list.head;
    forall k | 0 <= k < |es| {
      es[k].node.at := Detached(k);
    }
  }

  /** `Link`: append a node. */
  method Link(list: TimerLinkList, node: TimerNode, ghost es: seq<Entry>, ghost x: Timer)
    requires Linked(list, es) && node.at == Loose && Carries(node, x)
    modifies list, list.tail, node
    ensures Linked(list, es + [Entry(node, x)])
  {
    list.tail.next := node;
    list.tail := node;
    node.next := null;
    node.at := InList(list.slot, |es|);
  }

  // All lists together.

  /** What every list holds, front to back. */
  type Contents = map<Slot, seq<Entry>>

  ghost function WheelOf(time: nat, contents: Contents): Wheel {
    Wheel(time, map s | s in contents :: Timers(contents[s]))
  }

  ghost predicate AllSlots(c: Contents) {
    forall s :: s in c <==> ValidSlot(s)
  }

  /** Replacing one list. */
  lemma WheelOfSet(time: nat, contents: Contents, s: Slot, es: seq<Entry>)
    requires s in contents
    ensures s in WheelOf(time, contents).lists && WheelOf(time, contents).lists[s] == Timers(contents[s])
    ensures var w := WheelOf(time, contents);
            WheelOf(time, contents[s := es]) == w.(lists := w.lists[s := Timers(es)])
  {
    hide Timers;
    var w := WheelOf(time, contents);
    var a, b := WheelOf(time, contents[s := es]).lists, w.lists[s := Timers(es)];
    assert a.Keys == b.Keys;
    assert forall r :: r in a ==> a[r] == b[r];
  }

  lemma WheelOfTime(time: nat, contents: Contents, t: nat)
    requires AllSlots(contents)
    requires time < U32 && t < U32
    ensures WheelOf(time, contents).Valid() && WheelOf(time, contents).time == time
    ensures WheelOf(t, contents) == WheelOf(time, contents).(time := t)
  {
  }

  lemma WheelOfLinked(time: nat, contents: Contents, s: Slot, e: Entry)
    requires time < U32 && ValidSlot(s) && AllSlots(contents)
    ensures WheelOf(time, contents).Valid()
    ensures WheelOf(time, contents[s := contents[s] + [e]]) == WheelOf(time, contents).Linked(s, e.timer)
  {
    hide WheelOf, Wheel.Valid, Timers;
    WheelOfTime(time, contents, time);
    WheelOfSet(time, contents, s, contents[s] + [e]);
    TimersSnoc(contents[s], e);
  }

  lemma WheelOfCleared(time: nat, contents: Contents, s: Slot)
    requires time < U32 && ValidSlot(s) && AllSlots(contents)
    ensures WheelOf(time, contents).Valid()
    ensures WheelOf(time, contents).lists[s] == Timers(contents[s])
    ensures WheelOf(time, contents[s := []]) == WheelOf(time, contents).Cleared(s)
  {
    assert Timers([]) == [];
    hide WheelOf, Wheel.Valid, Timers;
    WheelOfTime(time, contents, time);
    WheelOfSet(time, contents, s, []);
  }

  /** `AddNode`: the entry goes to the end of the list placement names; no other list changes. */
  ghost function AddedEntry(c: Contents, widen: bool, time: nat, e: Entry): (d: Contents)
    requires AllSlots(c)
    ensures AllSlots(d)
  {
    var s := Place(widen, e.timer.Expire(), time);
    c[s := c[s] + [e]]
  }

  /** `AddNode` for every entry of a chain, front to back. */
  ghost function AddedEntries(c: Contents, widen: bool, time: nat, es: seq<Entry>): (d: Contents)
    requires AllSlots(c)
    ensures AllSlots(d)
    decreases |es|
  {
    if es == [] then c else AddedEntries(AddedEntry(c, widen, time, es[0]), widen, time, es[1..])
  }

  /** `MoveList`: the entries of one list are placed again, front to back. */
  ghost function MovedEntries(c: Contents, widen: bool, time: nat, s: Slot): (d: Contents)
    requires AllSlots(c) && ValidSlot(s)
    ensures AllSlots(d)
  {
    AddedEntries(c[s := []], widen, time, c[s])
  }

  /** `TimerShift`, once the clock shows `time`. */
  ghost function ShiftedEntries(c: Contents, widen: bool, time: nat): (d: Contents)
    requires AllSlots(c)
    ensures AllSlots(d)
  {
    match CascadeSlot(time)
    case Nothing => c
    case Move(s) => MovedEntries(c, widen, time, s)
  }

  lemma AddedEntryWheel(c: Contents, widen: bool, time: nat, e: Entry)
    requires AllSlots(c) && time < U32
    ensures WheelOf(time, c).Valid()
    ensures WheelOf(time, AddedEntry(c, widen, time, e)) == WheelOf(time, c).Added(widen, e.timer)
  {
    hide Place, Timer.Expire;
    WheelOfLinked(time, c, Place(widen, e.timer.Expire(), time), e);
  }

  lemma {:induction false} AddedEntriesWheel(c: Contents, widen: bool, time: nat, es: seq<Entry>)
    requires AllSlots(c) && time < U32
    ensures WheelOf(time, c).Valid()
    ensures WheelOf(time, AddedEntries(c, widen, time, es)) == WheelOf(time, c).AddedAll(widen, Timers(es))
    decreases |es|
  {
    hide WheelOf, AddedEntry, Wheel.Added;
    WheelOfTime(time, c, time);
    if es == [] {
      assert Timers(es) == [];
    } else {
      AddedEntryWheel(c, widen, time, es[0]);
      TimersTail(es);
      AddedEntriesWheel(AddedEntry(c, widen, time, es[0]), widen, time, es[1..]);
    }
  }

  lemma MovedEntriesWheel(c: Contents, widen: bool, time: nat, s: Slot)
    requires AllSlots(c) && ValidSlot(s) && time < U32
    ensures WheelOf(time, c).Valid()
    ensures WheelOf(time, MovedEntries(c, widen, time, s)) == WheelOf(time, c).Moved(widen, s)
  {
    hide WheelOf, AddedEntries, Wheel.AddedAll, Wheel.Cleared;
    WheelOfCleared(time, c, s);
    AddedEntriesWheel(c[s := []], widen, time, c[s]);
  }

  /** The entries after `TimerShift` stand for the shifted wheel. */
  lemma ShiftedEntriesWheel(c: Contents, widen: bool, time: nat)
    requires AllSlots(c) && time < U32
    ensures WheelOf(time, c).Valid()
    ensures var now := (time + 1) % U32;
            WheelOf(now, ShiftedEntries(c, widen, now)) == WheelOf(time, c).Shifted(widen)
  {
    hide WheelOf, MovedEntries, CascadeSlot, Wheel.Moved, AllSlots;
    var now := (time + 1) % U32;
    WheelOfTime(time, c, now);
    if CascadeSlot(now).Move? {
      MovedEntriesWheel(c, widen, now, CascadeSlot(now).slot);
    }
  }

  // The nodes of all lists.

  ghost function ListNodes(c: Contents): set<TimerNode> {
    set s, e | s in c && e in c[s] :: e.node
  }

  lemma ListNodesAdded(c: Contents, s: Slot, e: Entry)
    requires s in c
    ensures ListNodes(c[s := c[s] + [e]]) == ListNodes(c) + {e.node}
  {
    var d := c[s := c[s] + [e]];
    assert e in d[s];
    forall r, x | r in c && x in c[r] ensures x in d[r] {
    }
  }

  lemma ListNodesCleared(c: Contents, s: Slot)
    requires s in c
    ensures ListNodes(c) == ListNodes(c[s := []]) + Nodes(c[s])
  {
    var d := c[s := []];
    forall n | n in ListNodes(c) ensures n in ListNodes(d) + Nodes(c[s]) {
      var r, e :| r in c && e in c[r] && e.node == n;
      assert r != s ==> e in d[r];
    }
  }

  lemma {:induction false} ListNodesAddedAll(c: Contents, widen: bool, time: nat, es: seq<Entry>)
    requires AllSlots(c)
    ensures ListNodes(AddedEntries(c, widen, time, es)) == ListNodes(c) + Nodes(es)
    decreases |es|
  {
    hide Place, Timer.Expire, ListNodes;
    if es == [] {
      NodesNone();
    } else {
      var d := AddedEntry(c, widen, time, es[0]);
      ListNodesAdded(c, Place(widen, es[0].timer.Expire(), time), es[0]);
      ListNodesAddedAll(d, widen, time, es[1..]);
      NodesTail(es);
    }
  }

  /** Cascading permutes nodes: none is lost and none appears. */
  lemma ShiftedNodes(c: Contents, widen: bool, time: nat)
    requires AllSlots(c)
    ensures ListNodes(ShiftedEntries(c, widen, time)) == ListNodes(c)
  {
    if CascadeSlot(time).Move? {
      var s := CascadeSlot(time).slot;
      ListNodesCleared(c, s);
      ListNodesAddedAll(c[s := []], widen, time, c[s]);
    }
    hide ListNodes, Nodes, CascadeSlot, AddedEntries;
  }

  // Construction.

  /** The list a row index stands for; row -1 is `mNear`. */
  ghost function RowSlot(row: int, i: nat): Slot {
    if row < 0 then Near(i) else Level(row, i)
  }

  ghost function RowObjects(lists: seq<TimerLinkList>): set<object> {
    (set l: TimerLinkList | l in lists :: l as object) + (set l: TimerLinkList | l in lists :: l.head as object)
  }

  lemma RowSnoc(lists: seq<TimerLinkList>, list: TimerLinkList)
    ensures RowObjects(lists + [list]) == RowObjects(lists) + {list, list.head}
  {
    assert forall l :: l in lists + [list] <==> l in lists || l == list;
    assert list in lists + [list];
  }

  /** The lists of a row know their slots. */
  ghost predicate RowNamed(lists: seq<TimerLinkList>, row: int) {
    forall k :: 0 <= k < |lists| ==> lists[k].slot == RowSlot(row, k)
  }

  ghost predicate RowReady(lists: seq<TimerLinkList>)
    reads RowObjects(lists)
  {
    forall l :: l in lists ==> EmptyList(l)
  }

  lemma RowOwns(lists: seq<TimerLinkList>, row: int, k: nat, repr: set<object>)
    requires RowReady(lists) && RowNamed(lists, row) && k < |lists| && RowObjects(lists) <= repr
    ensures lists[k] in repr && lists[k].head in repr && Nodes([]) <= repr
    ensures OwnedList(lists[k], [], RowSlot(row, k), repr)
  {
    assert lists[k] in lists;
    assert lists[k] in RowObjects(lists) && lists[k].head in RowObjects(lists);
  }

  /** One list, which the constructor may clear. */
  method BuildList(ghost slot: Slot, clear: bool) returns (list: TimerLinkList)
    ensures fresh(list) && fresh(list.head) && EmptyList(list) && list.slot == slot
  {
    list := new TimerLinkList(slot);
    if clear {
      NodesNone();
      var none := ClearLink(list, []);
    }
  }

  /** One row of lists; the constructor clears only the first `cleared` of them. */
  method BuildRow(count: nat, cleared: nat, row: int) returns (lists: seq<TimerLinkList>)
    ensures |lists| == count && fresh(RowObjects(lists)) && RowReady(lists) && RowNamed(lists, row)
  {
    hide EmptyList, RowSlot;
    lists := [];
    while |lists| < count
      invariant |lists| <= count && fresh(RowObjects(lists)) && RowReady(lists) && RowNamed(lists, row)
    {
      var list := BuildList(RowSlot(row, |lists|), |lists| < cleared);
      RowSnoc(lists, list);
      lists := lists + [list];
    }
  }

  ghost function TableObjects(rows: seq<seq<TimerLinkList>>): set<object> {
    set r, o: object | r in rows && o in RowObjects(r) :: o
  }

  lemma TableOfRows(r0: seq<TimerLinkList>, r1: seq<TimerLinkList>, r2: seq<TimerLinkList>, r3: seq<TimerLinkList>)
    ensures TableObjects([r0, r1, r2, r3]) == RowObjects(r0) + RowObjects(r1) + RowObjects(r2) + RowObjects(r3)
  {
    hide RowObjects;
    var rows := [r0, r1, r2, r3];
    assert r0 in rows && r1 in rows && r2 in rows && r3 in rows;
  }

  /** `mWheel`: four rows. */
  method BuildTable() returns (rows: seq<seq<TimerLinkList>>)
    ensures |rows| == 4 && fresh(TableObjects(rows))
    ensures forall l :: 0 <= l < 4 ==> |rows[l]| == TIME_NEAR && RowReady(rows[l]) && RowNamed(rows[l], l)
  {
    var r0 := BuildRow(TIME_NEAR, TIME_LEVEL, 0);
    var r1 := BuildRow(TIME_NEAR, TIME_LEVEL, 1);
    var r2 := BuildRow(TIME_NEAR, TIME_LEVEL, 2);
    var r3 := BuildRow(TIME_NEAR, TIME_LEVEL, 3);
    rows := [r0, r1, r2, r3];
    TableOfRows(r0, r1, r2, r3);
    hide TableObjects, RowObjects, RowNamed, EmptyList;
  }

  /** `mNear` and `mWheel` after construction. */
  ghost predicate Built(near: seq<TimerLinkList>, table: seq<seq<TimerLinkList>>)
    reads RowObjects(near) + TableObjects(table)
  {
    && |near| == TIME_NEAR && RowReady(near) && RowNamed(near, -1) && |table| == 4
    && forall l :: 0 <= l < 4 ==> |table[l]| == TIME_NEAR && RowReady(table[l]) && RowNamed(table[l], l)
  }

  method BuildLists() returns (near: seq<TimerLinkList>, table: seq<seq<TimerLinkList>>, ghost all: set<object>)
    ensures Built(near, table) && all == RowObjects(near) + TableObjects(table) && fresh(all)
  {
    hide RowObjects, TableObjects, RowNamed, EmptyList;
    near := BuildRow(TIME_NEAR, TIME_NEAR, -1);
    table := BuildTable();
    all := RowObjects(near) + TableObjects(table);
  }

  function EmptyNear(n: nat): (lists: map<Slot, seq<Timer>>)
    ensures forall s :: s in lists <==> s.Near? && s.i < n
    ensures forall s :: s in lists ==> lists[s] == []
  {
    map i: nat | i < n :: Near(i) := []
  }

  function EmptyLevel(l: nat, n: nat): (lists: map<Slot, seq<Timer>>)
    ensures forall s :: s in lists <==> s.Level? && s.l == l && s.i < n
    ensures forall s :: s in lists ==> lists[s] == []
  {
    map i: nat | i < n :: Level(l, i) := []
  }

  /** A wheel without timers. */
  function EmptyWheel(word: nat): (w: Wheel)
    ensures w.time == word && forall s :: ValidSlot(s) <==> s in w.lists
    ensures forall s :: s in w.lists ==> w.lists[s] == []
  {
    Wheel(word, EmptyNear(256) + EmptyLevel(0, 64) + EmptyLevel(1, 64) + EmptyLevel(2, 64) + EmptyLevel(3, 64))
  }

  /** No list holds a node. */
  ghost function EmptyContents(word: nat): (c: Contents)
    ensures forall s :: s in c <==> ValidSlot(s)
    ensures forall s :: s in c ==> c[s] == []
  {
    map s | s in EmptyWheel(word).lists :: []
  }

  lemma EmptyContentsAbs(word: nat)
    ensures WheelOf(word, EmptyContents(word)) == EmptyWheel(word)
  {
    hide EmptyWheel, EmptyContents;
    var c := WheelOf(word, EmptyContents(word)).lists;
    assert c.Keys == EmptyWheel(word).lists.Keys;
    assert forall s :: s in c ==> c[s] == [];
  }
}
