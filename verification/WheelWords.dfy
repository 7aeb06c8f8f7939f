/**
 The masks and shifts of the timing wheel, on 32-bit words, in terms of remainders, quotients and the
 arithmetic placement of `WheelPlacement`.
 */
module WheelWords {
  import opened Bits
  import opened WheelPlacement

  const TIME_NEAR_SHIFT := 8
  const TIME_NEAR := 0x100
  const TIME_LEVEL_SHIFT := 6
  const TIME_LEVEL := 0x40
  const TIME_NEAR_MASK := 0xFF
  const TIME_LEVEL_MASK := 0x3F

  /** Every unit is the power of two the shifts say it is. */
  lemma UnitPower(level: nat)
    requires level <= 3
    ensures Pow2(TIME_NEAR_SHIFT + level * TIME_LEVEL_SHIFT) == Unit(level)
    ensures Pow2(TIME_LEVEL_SHIFT) == 64
  {
    PowersOfTwo();
  }

  /** The clock hand points at the near list of the low eight bits. */
  lemma HandWord(time: nat)
    ensures And(time, TIME_NEAR_MASK) == time % Unit(0)
  {
    PowersOfTwo();
    AndMask(time, 8);
  }

  /** `time + m_uTime` for any `int time`, given the word of `time`. */
  lemma ExpireWord(x: Timer, time: int, now: nat)
    requires x.addedAt == now && x.delay == time % U32
    ensures x.Expire() == (time + now % U32) % U32
  {
  }

  lemma NearWords(e: nat, t: nat)
    ensures Or(e, TIME_NEAR_MASK) == Or(t, TIME_NEAR_MASK) <==> e / Unit(0) == t / Unit(0)
    ensures And(e, TIME_NEAR_MASK) == e % Unit(0)
  {
    PowersOfTwo();
    OrMaskSame(e, t, 8);
    AndMask(e, 8);
  }

  lemma PlacedNear(widen: bool, e: nat, t: nat)
    requires e / Unit(0) == t / Unit(0)
    ensures Place(widen, e, t) == Near(e % Unit(0))
  {
  }

  lemma PlacedInLevel(widen: bool, e: nat, t: nat)
    requires e / Unit(0) != t / Unit(0)
    ensures var l := LevelOf(widen, e, t); Place(widen, e, t) == Level(l, e / Unit(l) % 64)
  {
  }

  lemma LevelWords(e: nat, level: nat)
    requires level <= 3
    ensures And(Shr(e, TIME_NEAR_SHIFT + level * TIME_LEVEL_SHIFT), TIME_LEVEL_MASK) == e / Unit(level) % 64
  {
    PowersOfTwo();
    AndMask(e / Unit(level), 6);
  }

  // The level search of AddNode.

  /** The value of `mask` when `level` is searched. */
  function SearchMask(widen: bool, level: nat): nat
    requires level < 3
  {
    Unit(if widen then level + 1 else 1)
  }

  predicate SameUnder(e: nat, t: nat, widen: bool, level: nat)
  {
    level < 3 && e / SearchMask(widen, level) == t / SearchMask(widen, level)
  }

  lemma FirstMask()
    ensures Shl32(TIME_NEAR, TIME_LEVEL_SHIFT) == Unit(1)
  {
    PowersOfTwo();
  }

  lemma MaskWords(e: nat, t: nat, widen: bool, level: nat)
    requires level < 3
    ensures Or(e, SearchMask(widen, level) - 1) == Or(t, SearchMask(widen, level) - 1)
       <==> SameUnder(e, t, widen, level)
    ensures level < 2 && widen ==> Shl32(SearchMask(widen, level), TIME_LEVEL_SHIFT) == SearchMask(widen, level + 1)
  {
    PowersOfTwo();
    var k := if !widen || level == 0 then 14 else if level == 1 then 20 else 26;
    OrMaskSame(e, t, k);
  }

  lemma SearchedLevel(e: nat, t: nat, widen: bool, level: nat)
    requires level <= 3
    requires forall j :: 0 <= j < level ==> !SameUnder(e, t, widen, j)
    requires level < 3 ==> SameUnder(e, t, widen, level)
    ensures level == LevelOf(widen, e, t)
  {
    assert level > 0 ==> !SameUnder(e, t, widen, 0);
    assert level > 1 ==> !SameUnder(e, t, widen, 1);
    assert level > 2 ==> !SameUnder(e, t, widen, 2);
  }

  /** The loop of `AddNode`: the first level whose mask makes the two words agree. */
  method SearchLevel(time: nat, curTime: nat, widen: bool) returns (level: nat)
    ensures level == LevelOf(widen, time, curTime)
  {
    level := 0;
    var mask := Shl32(TIME_NEAR, TIME_LEVEL_SHIFT);
    FirstMask();
    while level < 3
      invariant 0 <= level <= 3
      invariant level < 3 ==> mask == SearchMask(widen, level)
      invariant forall j :: 0 <= j < level ==> !SameUnder(time, curTime, widen, j)
    {
      MaskWords(time, curTime, widen, level);
      if Or(time, mask - 1) == Or(curTime, mask - 1) {
        break;
      }
      if widen {
        mask := Shl32(mask, TIME_LEVEL_SHIFT);
      }
      level := level + 1;
    }
    SearchedLevel(time, curTime, widen, level);
  }

  // The cascade loop of TimerShift.

  /** The value of the `int` variable `mask`: `1 << 32` wraps to 0. */
  function TestMask(level: nat): nat
    requires level <= 4
  {
    if level == 4 then 0 else Unit(level)
  }

  /** What `cur_time & (mask - 1)` evaluates to. */
  function TestValue(cur: nat, level: nat): nat
    requires level <= 4
  {
    if level == 4 then cur else cur % Unit(level)
  }

  lemma TestWords(cur: nat, level: nat)
    requires level <= 4 && cur < U32
    ensures And(cur, (TestMask(level) - 1) % U32) == TestValue(cur, level)
  {
    hide And;
    if level == 4 {
      AndAllOnes(cur);
      assert (TestMask(level) - 1) % U32 == 0xFFFF_FFFF;
    } else {
      UnitPower(level);
      AndMask(cur, TIME_NEAR_SHIFT + level * TIME_LEVEL_SHIFT);
      assert (TestMask(level) - 1) % U32 == Unit(level) - 1;
    }
  }

  lemma NextTestMask(level: nat)
    requires level <= 3
    ensures Shl32(TestMask(level), TIME_LEVEL_SHIFT) == TestMask(level + 1)
  {
    UnitPower(level);
  }

  lemma CascadeEnds(cur: nat)
    ensures cur == 0 ==> CascadeSlot(cur) == Move(Level(3, 0))
    ensures cur % Unit(0) != 0 ==> CascadeSlot(cur) == Nothing
  {
  }

  lemma NestedRemainder(n: nat, u: nat)
    requires u == Unit(0) || u == Unit(1) || u == Unit(2)
    ensures n / u / 64 == n / (64 * u)
    ensures n % (64 * u) == 0 ==> n % u == 0
    ensures n % u == 0 ==> (n % (64 * u) == 0 <==> n / u % 64 == 0)
  {
    if u == 0x100 {
      assert n == 0x4000 * (n / 0x100 / 64) + 0x100 * (n / 0x100 % 64) + n % 0x100;
    } else if u == 0x4000 {
      assert n == 0x10_0000 * (n / 0x4000 / 64) + 0x4000 * (n / 0x4000 % 64) + n % 0x4000;
    } else {
      assert n == 0x400_0000 * (n / 0x10_0000 / 64) + 0x10_0000 * (n / 0x10_0000 % 64) + n % 0x10_0000;
    }
  }

  lemma CascadeAt(cur: nat, level: nat)
    requires level <= 3 && 0 < cur < U32 && cur % Unit(level) == 0
    ensures level < 3 ==> cur / Unit(level) / 64 == cur / Unit(level + 1)
    ensures level < 3 ==> (cur % Unit(level + 1) == 0 <==> cur / Unit(level) % 64 == 0)
    ensures level == 3 ==> cur / Unit(level) % 64 != 0
    ensures cur / Unit(level) % 64 != 0 ==> CascadeSlot(cur) == Move(Level(level, cur / Unit(level) % 64))
  {
    if level > 0 {
      NestedRemainder(cur, Unit(0));
    }
    if level > 1 {
      NestedRemainder(cur, Unit(1));
    }
    if level > 2 {
      NestedRemainder(cur, Unit(2));
    }
    if level < 3 {
      NestedRemainder(cur, Unit(level));
    }
  }

  /** One iteration at a level whose lower digits are all zero. */
  lemma ShiftWords(cur: nat, level: nat)
    requires level <= 4 && 0 < cur < U32 && TestValue(cur, level) == 0
    ensures level <= 3
    ensures And(cur / Unit(level), TIME_LEVEL_MASK) == cur / Unit(level) % 64
    ensures Shl32(TestMask(level), TIME_LEVEL_SHIFT) == TestMask(level + 1)
    ensures level < 3 ==> Shr(cur / Unit(level), TIME_LEVEL_SHIFT) == cur / Unit(level + 1)
    ensures cur / Unit(level) % 64 != 0 ==>
              CascadeSlot(cur) == Move(Level(level, cur / Unit(level) % 64)) && TestValue(cur, level + 1) != 0
    ensures cur / Unit(level) % 64 == 0 ==> level < 3 && cur % Unit(level + 1) == 0
  {
    assert level <= 3;
    UnitPower(level);
    AndMask(cur / Unit(level), 6);
    NextTestMask(level);
    CascadeAt(cur, level);
  }

  /** The loop state of TimerShift; `moves` counts the calls of `MoveList`. */
  ghost predicate ShiftLoop(cur: nat, level: nat, mask: nat, time: nat, moves: nat) {
    && 0 < cur < U32 && level <= 4 && mask == TestMask(level)
    && (level <= 3 ==> time == cur / Unit(level))
    && And(cur, (mask - 1) % U32) == TestValue(cur, level)
    && moves <= 1
    && (moves == 1 ==> TestValue(cur, level) != 0 && CascadeSlot(cur).Move?)
    && (moves == 0 ==> level == 0 || (level <= 3 && cur % Unit(level) == 0))
  }

  lemma ShiftStarts(cur: nat)
    requires 0 < cur < U32
    ensures ShiftLoop(cur, 0, TIME_NEAR, Shr(cur, TIME_NEAR_SHIFT), 0)
  {
    PowersOfTwo();
    TestWords(cur, 0);
  }

  /** An iteration is entered only before any list was moved, and moves the list the cascade names. */
  lemma ShiftLoopStep(cur: nat, level: nat, mask: nat, time: nat, moves: nat)
    requires ShiftLoop(cur, level, mask, time, moves)
    requires And(cur, (mask - 1) % U32) == 0
    ensures var index := And(time, TIME_LEVEL_MASK);
            && level <= 3 && moves == 0 && index < TIME_LEVEL
            && (index != 0 ==> CascadeSlot(cur) == Move(Level(level, index)))
            && ShiftLoop(cur, level + 1, Shl32(mask, TIME_LEVEL_SHIFT), Shr(time, TIME_LEVEL_SHIFT),
                         if index != 0 then 1 else 0)
  {
    hide And, Shr, Shl32, Pow2;
    ShiftWords(cur, level);
    TestWords(cur, level + 1);
  }

  /** When the loop ends, it has moved a list if and only if there was one to move. */
  lemma ShiftLoopEnds(cur: nat, level: nat, mask: nat, time: nat, moves: nat)
    requires ShiftLoop(cur, level, mask, time, moves)
    requires And(cur, (mask - 1) % U32) != 0
    ensures moves == if CascadeSlot(cur).Move? then 1 else 0
  {
    CascadeEnds(cur);
  }

  // UpdateTime.

  /** C's conversion of an unsigned difference to `int`. */
  function ToInt32(d: nat): int {
    if d % U32 < MAX_DELAY then d % U32 else d % U32 - U32
  }

  lemma WordOfInt(d: nat)
    requires d < U32
    ensures IsInt32(ToInt32(d)) && ToInt32(d) % U32 == d
  {
  }

  /** The ticks `UpdateTime` makes up for. */
  function ElapsedTicks(point: nat, curTime: nat): nat {
    if curTime <= point || ToInt32(curTime - point) < 0 then 0 else ToInt32(curTime - point)
  }

  lemma ElapsedMeaning(point: nat, curTime: nat)
    ensures curTime < point ==> ElapsedTicks(point, curTime) == 0
    ensures point <= curTime < point + 0x8000_0000 ==> ElapsedTicks(point, curTime) == curTime - point
    ensures point + 0x8000_0000 <= curTime ==>
              ElapsedTicks(point, curTime)
              == var d := (curTime - point) % 0x1_0000_0000; if d < 0x8000_0000 then d else 0
  {
  }
}
