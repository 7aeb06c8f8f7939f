/**
 The bounded queue under the asynchronous logger: a circular array with one spare slot that, when
 full, drops its oldest item to take a new one.
 */
module CircularQueue {
  /** The queue as a value: its capacity, its items from front to back, and the items lost so far. */
  datatype Bounded<T> = Bounded(capacity: nat, items: seq<T>, overrun: nat) {

    predicate Full() { |items| == capacity }

    function PushBack(x: T): Bounded<T> {
      if |items| < capacity then this.(items := items + [x])
      else this.(items := (items + [x])[1..], overrun := overrun + 1)
    }

    function PopFront(): Bounded<T>
      requires items != []
    {
      this.(items := items[1..])
    }
  }

  /** The items from `head` up to, and not including, `tail`, around the end of the array. */
  ghost function Ring<T>(v: seq<T>, head: nat, tail: nat): (items: seq<T>)
    requires head < |v| && tail < |v|
    ensures |items| == if head <= tail then tail - head else |v| - head + tail
  {
    if head <= tail then v[head..tail] else v[head..] + v[..tail]
  }

  /** The index after `i`. */
  function Next(i: nat, n: nat): nat
    requires i < n
  {
    if i + 1 == n then 0 else i + 1
  }

  lemma NextIsMod(i: nat, n: nat)
    requires i < n
    ensures (i + 1) % n == Next(i, n)
  {
    if i + 1 < n {
      assert (i + 1) / n == 0;
    }
  }

  lemma RingAt<T>(v: seq<T>, head: nat, tail: nat, k: nat)
    requires head < |v| && tail < |v| && k < |Ring(v, head, tail)|
    ensures Ring(v, head, tail)[k] == v[if head + k < |v| then head + k else head + k - |v|]
  {
  }

  lemma RingPush<T>(v: seq<T>, head: nat, tail: nat, x: T)
    requires head < |v| && tail < |v|
    ensures var v', t := v[tail := x], Next(tail, |v|);
            var longer := Ring(v, head, tail) + [x];
            if t != head then Ring(v', head, t) == longer else Ring(v', Next(head, |v|), t) == longer[1..]
  {
    hide Ring;
    var v', t := v[tail := x], Next(tail, |v|);
    var longer := Ring(v, head, tail) + [x];
    var h := if t != head then head else Next(head, |v|);
    var want := if t != head then longer else longer[1..];
    assert |Ring(v', h, t)| == |want|;
    forall k | 0 <= k < |want| ensures Ring(v', h, t)[k] == want[k] {
      RingAt(v', h, t, k);
      if t != head && k < |longer| - 1 {
        RingAt(v, head, tail, k);
      } else if t == head && k + 1 < |longer| - 1 {
        RingAt(v, head, tail, k + 1);
      }
    }
  }

  lemma RingPop<T>(v: seq<T>, head: nat, tail: nat)
    requires head < |v| && tail < |v| && head != tail
    ensures Ring(v, head, tail) == [v[head]] + Ring(v, Next(head, |v|), tail)
  {
  }

  class CircularQ<T(0)> {
    const maxItems: nat
    const v: array<T>
    var head: nat
    var tail: nat
    var overrunCounter: nat

    ghost predicate Valid()
      reads this, v
    {
      v.Length == maxItems && head < maxItems && tail < maxItems
    }

    /** The queue this object stands for; one slot of `v` is always spare. */
    ghost function Abs(): (q: Bounded<T>)
      requires Valid()
      reads this, v
      ensures |q.items| <= q.capacity
    {
      Bounded(maxItems - 1, Ring(v[..], head, tail), overrunCounter)
    }

    constructor (capacity: nat)
      ensures Valid() && fresh(v) && Abs() == Bounded(capacity, [], 0)
    {
      maxItems := capacity + 1;
      v := new T[capacity + 1];
      head, tail, overrunCounter := 0, 0, 0;
    }

    /** Append; when there is no room the oldest item is dropped and counted. */
    method PushBack(item: T)
      requires Valid()
      modifies this, v
      ensures Valid() && Abs() == old(Abs()).PushBack(item)
      ensures var was, room := old(Abs()), |old(Abs()).items| < old(Abs()).capacity;
              && Abs().items == (if room then was.items + [item] else (was.items + [item])[1..])
              && Abs().overrun == was.overrun + (if room then 0 else 1)
    {
      NextIsMod(tail, maxItems);
      NextIsMod(head, maxItems);
      RingPush(v[..], head, tail, item);
      hide Ring;
      v[tail] := item;
      tail := (tail + 1) % maxItems;
      if tail == head {
        head := (head + 1) % maxItems;
        overrunCounter := overrunCounter + 1;
      }
    }

    /** Take the oldest item; on an empty queue the behaviour is undefined, so callers must check. */
    method PopFront() returns (item: T)
      requires Valid() && Abs().items != []
      modifies this`head
      ensures Valid() && item == old(Abs()).items[0] && Abs() == old(Abs()).PopFront()
      ensures Abs().items == old(Abs()).items[1..] && Abs().overrun == old(Abs()).overrun
    {
      NextIsMod(head, maxItems);
      RingPop(v[..], head, tail);
      hide Ring;
      item := v[head];
      head := (head + 1) % maxItems;
    }

    method Empty() returns (b: bool)
      requires Valid()
      ensures b <==> Abs().items == []
    {
      b := tail == head;
    }

    method Full() returns (b: bool)
      requires Valid()
      ensures b <==> |Abs().items| == Abs().capacity
      ensures b <==> Abs().Full()
    {
      NextIsMod(tail, maxItems);
      b := (tail + 1) % maxItems == head;
    }
  }
}
