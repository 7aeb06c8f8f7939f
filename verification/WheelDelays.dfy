/**
 What becomes of a timer, whatever `int` delay it has.

 One added with `time >= 0` goes its way from home to home.  `AddNode` compares words, so one added with a
 negative `time` is placed as if it were due behind the clock: in a near list the hand has passed in the
 present round (such a timer is called passed), or in a list of a level that is cascaded only when the
 clock has come round again.
 */
module WheelDelays {
  import opened Bits
  import opened WheelPlacement

  /** `time < 0 && -time <= m_uTime % 256`, for a delay that is the word of `time`. */
  predicate Passed(x: Timer) {
    x.delay < U32 && U32 - x.delay <= x.addedAt % Unit(0)
  }

  /** The list a timer is linked into when it is added. */
  function FirstSlot(widen: bool, x: Timer): (s: Slot)
    ensures ValidSlot(s)
  {
    Place(widen, x.Expire(), x.addedAt % U32)
  }

  /** Bits 14 to 25 of `expire` are all zero. */
  predicate FirstPage(e: nat) {
    e / Unit(1) % 0x1000 == 0
  }

  /** The digit of `expire` at a level is zero. */
  predicate ZeroAt(e: nat, l: nat)
    requires l <= 3
  {
    e / Unit(l) % 64 == 0
  }

  /** A timer with this `expire`, behind the clock in a list of level `l`, never reaches a near list: it will
      come to list 0 of a level below the top, which no cascade moves, or, as written, be stranded. */
  predicate BlockedFrom(widen: bool, e: nat, l: nat) {
    if widen then (l <= 0 && ZeroAt(e, 0)) || (l <= 1 && ZeroAt(e, 1)) || (l <= 2 && ZeroAt(e, 2))
    else (l <= 0 && ZeroAt(e, 0)) || !FirstPage(e)
  }

  /** For a timer added with a negative `time` that is not passed. */
  predicate Blocked(widen: bool, x: Timer) {
    FirstSlot(widen, x).Level? && BlockedFrom(widen, x.Expire(), FirstSlot(widen, x).l)
  }

  /** The timers that fire. */
  predicate Kept(widen: bool, x: Timer) {
    if Passed(x) then true
    else if x.delay < MAX_DELAY then !Stranded(widen, x)
    else !Blocked(widen, x)
  }

  /** The tick at which they do: the hand comes to a passed timer a full near round after the tick it was
      meant for, and to any other when the clock word is its `expire`. */
  function DueTick(x: Timer): nat {
    if Passed(x) then x.addedAt + Unit(0) - (U32 - x.delay) else x.Deadline()
  }

  /** What passed means for the `int time` given to `AddTimer`. */
  lemma PassedGuard(x: Timer, time: int)
    requires IsInt32(time) && x.delay == time % U32
    ensures Passed(x) <==> time < 0 && -time <= x.addedAt % U32 % Unit(0)
    ensures x.delay < MAX_DELAY <==> 0 <= time
    ensures DueTick(x) == x.addedAt + time + (if Passed(x) then 0x100 else if time < 0 then U32 else 0)
  {
    WordDigit(x.addedAt, 0);
  }

  // Passed timers.

  lemma TakeBack(t: nat, back: nat)
    requires back <= t % 0x100
    ensures (t - back) / 0x100 == t / 0x100 && (t - back) % 0x100 == t % 0x100 - back
  {
  }

  /** The words of a passed timer: its `expire` lies behind the clock, in the same near round. */
  lemma PassedWords(x: Timer)
    requires Passed(x)
    ensures var t, back := x.addedAt % U32, U32 - x.delay;
            && 0 < back <= t % Unit(0) == x.addedAt % Unit(0)
            && x.Expire() == t - back && x.Expire() / Unit(0) == t / Unit(0)
            && x.Expire() % Unit(0) == t % Unit(0) - back
  {
    var t, q, back := x.addedAt % U32, x.addedAt / U32, U32 - x.delay;
    WordDigit(x.addedAt, 0);
    assert x.addedAt + x.delay == (q + 1) * U32 + (t - back);
    DivModUnique(x.addedAt + x.delay, U32, q + 1, t - back);
    TakeBack(t, back);
  }

  lemma PassedFirst(widen: bool, x: Timer)
    requires Passed(x)
    ensures !Stranded(widen, x) && FirstSlot(widen, x) == Near(x.Expire() % Unit(0))
  {
    PassedWords(x);
    NearInBlock(x.Expire(), x.addedAt % U32);
  }

  lemma SameRemainder(a: nat, b: nat)
    requires a <= b < a + 0x100
    ensures a % 0x100 == b % 0x100 <==> a == b
  {
  }

  lemma AddRound(a: nat, back: nat)
    requires back <= a
    ensures (a + 0x100 - back) % 0x100 == (a - back) % 0x100
  {
  }

  lemma PassedDue(x: Timer, now: nat)
    requires Passed(x) && x.addedAt <= now <= DueTick(x)
    ensures now % U32 % Unit(0) == x.Expire() % Unit(0) <==> now == DueTick(x)
  {
    var back := U32 - x.delay;
    PassedWords(x);
    TakeBack(x.addedAt, back);
    WordDigit(now, 0);
    AddRound(x.addedAt, back);
    SameRemainder(now, DueTick(x));
  }

  lemma WordLater(n: nat, k: nat)
    requires k < U32 <= n + k
    ensures (n + k - U32) % U32 == (n % U32 + k) % U32
    ensures 0 < k ==> (n % U32 + k) % U32 != n % U32
  {
    var q, r := n / U32, n % U32;
    if r + k < U32 {
      DivModUnique(n + k - U32, U32, q - 1, r + k);
    } else {
      DivModUnique(n + k - U32, U32, q, r + k - U32);
      DivModUnique(r + k, U32, 1, r + k - U32);
    }
  }

  /** When the hand reaches a passed timer, the clock word is not its `expire` but 256 more. */
  lemma PassedWord(x: Timer)
    requires Passed(x)
    ensures DueTick(x) % U32 == (x.Expire() + Unit(0)) % U32 != x.Expire()
  {
    WordLater(x.Deadline(), Unit(0));
  }

  // Timers behind the clock.  Ticks are compared with the clock one epoch of 2^32 ticks later, which has the
  // same word and lies ahead of the deadline.

  function Later(now: nat): nat { now + U32 }

  /** In the list of its level that carries its digit, less than one round of that level behind the clock. */
  ghost predicate Behind(widen: bool, x: Timer, s: Slot, now: nat) {
    && s.Level? && s.l <= 3 && (!widen ==> s.l == 0 || s.l == 3)
    && s.i == x.Deadline() / Unit(s.l) % 64
    && x.Deadline() / Unit(s.l) <= Later(now) / Unit(s.l) < x.Deadline() / Unit(s.l) + 64
    && (Blocked(widen, x) <==> BlockedFrom(widen, x.Expire(), s.l))
  }

  /** In a list it never leaves. */
  ghost predicate Held(widen: bool, x: Timer, s: Slot) {
    && s.Level? && s.l <= 3 && s.i == x.Expire() / Unit(s.l) % 64 && Blocked(widen, x)
    && ((s.l < 3 && s.i == 0) || (!widen && s.l == 3 && !FirstPage(x.Expire())))
  }

  /** No longer behind: in the list for a deadline that lies ahead. */
  ghost predicate Ahead(widen: bool, x: Timer, s: Slot, now: nat) {
    && !Blocked(widen, x) && now <= x.Deadline() < now + MAX_DELAY && (!widen ==> FirstPage(x.Expire()))
    && s == Place(widen, x.Expire(), now % U32)
  }

  /** Where a timer added with a negative `time` that is not passed is pending. */
  ghost predicate ComesRound(widen: bool, x: Timer, s: Slot, now: nat) {
    Behind(widen, x, s, now) || Held(widen, x, s) || Ahead(widen, x, s, now)
  }

  lemma UnitPositive(l: nat)
    requires l <= 3
    ensures Unit(l) > 0 && Blocks(l) > 0
  {
  }

  lemma WordBlocks(n: nat, l: nat)
    requires l <= 3
    ensures n % U32 / Unit(l) < Blocks(l)
  {
  }

  lemma SameRest(b: nat, q: nat, r: nat, q': nat, r': nat)
    requires r < b && r' < b && q * b + r <= q' * b + r' < q * b + r + b
    ensures r == r' <==> q * b + r == q' * b + r'
  {
    if r == r' {
      assert (q' - q) * b == q' * b - q * b;
      SmallMultiple(q' - q, b, q' * b - q * b);
    } else if q * b + r == q' * b + r' {
      DivModUnique(q * b + r, b, q, r);
      DivModUnique(q * b + r, b, q', r');
    }
  }

  lemma FewUnits(d: nat, n: nat, l: nat)
    requires l <= 3 && d <= n
    ensures d / Unit(l) <= n / Unit(l)
  {
  }

  lemma SameWordBlock(d: nat, n: nat, l: nat)
    requires l <= 3 && d <= n && n / Unit(l) - d / Unit(l) < Blocks(l)
    ensures d % U32 / Unit(l) == n % U32 / Unit(l) <==> d / Unit(l) == n / Unit(l)
  {
    FewUnits(d, n, l);
    hide Unit, Blocks;
    UnitPositive(l);
    WordSplit(d, l);
    WordSplit(n, l);
    WordBlocks(d, l);
    WordBlocks(n, l);
    SameRest(Blocks(l), d / U32, d % U32 / Unit(l), n / U32, n % U32 / Unit(l));
  }

  lemma LevelUp(n: nat, l: nat)
    requires l < 3
    ensures n / Unit(l + 1) == n / Unit(l) / 64
  {
  }

  lemma FewBlocks(d: nat, n: nat, l: nat)
    requires l <= 3 && d <= n < d + U32 - Unit(3)
    ensures d / Unit(l) <= n / Unit(l) && n / Unit(l) - d / Unit(l) < Blocks(l)
  {
  }

  /** The level a timer due at `d` is placed on when the clock is ahead at `n`. */
  function LevelBehind(widen: bool, d: nat, n: nat): (l: nat)
    ensures l <= 3 && (!widen ==> l == 0 || l == 3)
  {
    if d / Unit(1) == n / Unit(1) then 0
    else if widen && d / Unit(2) == n / Unit(2) then 1
    else if widen && d / Unit(3) == n / Unit(3) then 2
    else 3
  }

  lemma PlaceBehind(widen: bool, d: nat, n: nat)
    requires d <= n < d + U32 - Unit(3) && d / Unit(0) != n / Unit(0)
    ensures var l := LevelBehind(widen, d, n); Place(widen, d % U32, n % U32) == Level(l, d / Unit(l) % 64)
  {
    var l := LevelBehind(widen, d, n);
    FewBlocks(d, n, 0); FewBlocks(d, n, 1); FewBlocks(d, n, 2); FewBlocks(d, n, 3);
    SameWordBlock(d, n, 0); SameWordBlock(d, n, 1); SameWordBlock(d, n, 2); SameWordBlock(d, n, 3);
    WordDigit(d, l);
  }

  lemma WithinRound(a: nat, b: nat)
    requires a <= b && a / 64 == b / 64
    ensures b < a + 64
  {
  }

  lemma LevelBehindRound(widen: bool, d: nat, n: nat)
    requires d <= n < d + U32 - Unit(3)
    ensures var l := LevelBehind(widen, d, n); d / Unit(l) <= n / Unit(l) < d / Unit(l) + 64
  {
    var l := LevelBehind(widen, d, n);
    FewBlocks(d, n, l);
    if l < 3 {
      LevelUp(d, l);
      LevelUp(n, l);
      WithinRound(d / Unit(l), n / Unit(l));
    }
  }

  lemma RoundBack(n: nat, back: nat)
    requires 0 < back <= n
    ensures (n - back) / 0x100 == n / 0x100 <==> back <= n % 0x100
  {
  }

  lemma SameWord(n: nat)
    ensures Later(n) % U32 == n % U32 && Later(n) % Unit(0) == n % Unit(0)
  {
  }

  lemma FreshBehind(widen: bool, x: Timer)
    requires MAX_DELAY <= x.delay < U32 && !Passed(x)
    ensures Behind(widen, x, FirstSlot(widen, x), x.addedAt)
  {
    hide BlockedFrom, LevelBehind, Place;
    var d, n := x.Deadline(), Later(x.addedAt);
    RoundBack(n, U32 - x.delay);
    SameWord(x.addedAt);
    PlaceBehind(widen, d, n);
    LevelBehindRound(widen, d, n);
  }

  /** Which list is cascaded, the other way round. */
  lemma CascadeOf(m: nat, l: nat, g: nat)
    requires l <= 3 && g < 64
    ensures CascadeSlot(m) == Move(Level(l, g)) <==> m % Unit(l) == 0 && m / Unit(l) % 64 == g && (g != 0 || l == 3)
  {
    DigitsValue(m);
    CascadeInDigits(m);
  }

  lemma NextMultiple(a: nat, b: nat, u: nat)
    requires u > 0 && a == b + 1
    ensures a / u == b / u || (a / u == b / u + 1 && a % u == 0)
  {
    var q, r := b / u, b % u;
    assert b == q * u + r;
    if r + 1 < u {
      DivModUnique(a, u, q, r + 1);
    } else {
      assert a == (q + 1) * u;
      DivModUnique(a, u, q + 1, 0);
    }
  }

  lemma NextRound(a: nat, b: nat)
    requires a <= b <= a + 64
    ensures b % 64 == a % 64 <==> b == a || b == a + 64
  {
  }

  /** The list of a timer behind the clock is cascaded when the level has gone round, unless it is list 0. */
  lemma BehindTick(d: nat, n: nat, l: nat)
    requires l <= 3 && d / Unit(l) <= n / Unit(l) < d / Unit(l) + 64
    ensures (n + 1) / Unit(l) < d / Unit(l) + 64 ==> CascadeSlot(n + 1) != Move(Level(l, d / Unit(l) % 64))
    ensures (n + 1) / Unit(l) >= d / Unit(l) + 64 ==>
              && (n + 1) / Unit(l) == d / Unit(l) + 64 && (n + 1) % Unit(l) == 0
              && (CascadeSlot(n + 1) == Move(Level(l, d / Unit(l) % 64)) <==> d / Unit(l) % 64 != 0 || l == 3)
  {
    hide Unit, CascadeSlot;
    UnitPositive(l);
    NextMultiple(n + 1, n, Unit(l));
    NextRound(d / Unit(l), (n + 1) / Unit(l));
    CascadeOf(n + 1, l, d / Unit(l) % 64);
  }

  /** The list of a timer behind the clock is not cascaded. */
  lemma BehindStays(widen: bool, x: Timer, s: Slot, now: nat)
    requires Behind(widen, x, s, now) && CascadeSlot((now + 1) % U32) != Move(s)
    ensures Behind(widen, x, s, now + 1) || Held(widen, x, s)
  {
    hide CascadeSlot, Blocked, FirstPage;
    var d, n := x.Deadline(), Later(now);
    SameWord(now + 1);
    CascadeUnbounded(Later(now + 1));
    NextMultiple(n + 1, n, Unit(s.l));
    BehindTick(d, n, s.l);
    WordDigit(d, s.l);
  }

  lemma Carry(a: nat, b: nat)
    requires b == a + 1
    ensures b / 64 == a / 64 || (b / 64 == a / 64 + 1 && a % 64 == 63)
  {
  }

  /** What one more does to the digits above. */
  lemma CarriesUp(a: nat, b: nat, a': nat, b': nat, a'': nat, b'': nat)
    requires a' == a / 64 && b' == b / 64 && a'' == a' / 64 && b'' == b' / 64
    ensures b == a + 1 ==> b' == a' || (b' == a' + 1 && a % 64 == 63)
    ensures b' == a' + 1 ==> b'' == a'' || (b'' == a'' + 1 && a' % 64 == 63)
  {
    if b == a + 1 {
      Carry(a, b);
    }
    if b' == a' + 1 {
      Carry(a', b');
    }
  }

  lemma OneUp(a: nat, b: nat)
    requires b == a + 64
    ensures b / 64 == a / 64 + 1
  {
  }

  lemma HigherLevel(widen: bool, d: nat, n: nat, l: nat)
    requires l < 3 && n / Unit(l) == d / Unit(l) + 64 && (!widen ==> l == 0)
    ensures l < LevelBehind(widen, d, n)
  {
    LevelUp(d, l);
    LevelUp(n, l);
    OneUp(d / Unit(l), n / Unit(l));
    if l == 2 {
      LevelUp(d, 1); LevelUp(n, 1);
    }
  }

  /** Levels that are skipped have digit 63, not 0. */
  lemma SkippedDigits(d: nat, n: nat, l: nat)
    requires l < 3 && n / Unit(l) == d / Unit(l) + 64
    ensures l == 0 && d / Unit(2) != n / Unit(2) ==> d / Unit(1) % 64 == 63
    ensures l <= 1 && d / Unit(3) != n / Unit(3) ==> d / Unit(2) % 64 == 63
  {
    LevelUp(d, l); LevelUp(n, l);
    OneUp(d / Unit(l), n / Unit(l));
    LevelUp(d, 1); LevelUp(n, 1);
    LevelUp(d, 2); LevelUp(n, 2);
    CarriesUp(d / Unit(1), n / Unit(1), d / Unit(2), n / Unit(2), d / Unit(3), n / Unit(3));
  }

  lemma NextLevel(widen: bool, d: nat, n: nat, l: nat)
    requires l < 3 && n / Unit(l) == d / Unit(l) + 64 && d / Unit(l) % 64 != 0 && (!widen ==> l == 0)
    ensures BlockedFrom(widen, d % U32, l) <==> BlockedFrom(widen, d % U32, LevelBehind(widen, d, n))
  {
    hide FirstPage;
    WordDigit(d, 0); WordDigit(d, 1); WordDigit(d, 2);
    HigherLevel(widen, d, n, l);
    SkippedDigits(d, n, l);
  }

  lemma RoundAhead(d: nat, n: nat, l: nat)
    requires l < 3 && n / Unit(l) == d / Unit(l) + 64 && n % Unit(l) == 0
    ensures d <= n < d + U32 - Unit(3) && d / Unit(0) != n / Unit(0)
  {
  }

  /** A cascade moves a timer that is behind to a higher level. */
  lemma BehindMovesUp(widen: bool, x: Timer, s: Slot, now: nat)
    requires Behind(widen, x, s, now) && CascadeSlot((now + 1) % U32) == Move(s) && s.l < 3
    ensures Behind(widen, x, Place(widen, x.Expire(), (now + 1) % U32), now + 1)
  {
    hide CascadeSlot, Blocked, BlockedFrom, FirstPage, LevelBehind, Place;
    var d, n := x.Deadline(), Later(now + 1);
    SameWord(now + 1);
    CascadeUnbounded(n);
    BehindTick(d, Later(now), s.l);
    RoundAhead(d, n, s.l);
    PlaceBehind(widen, d, n);
    LevelBehindRound(widen, d, n);
    NextLevel(widen, d, n, s.l);
  }

  lemma LaterTop(now: nat)
    ensures Later(now) / Unit(3) == now / Unit(3) + 64 && Later(now) % Unit(3) == now % Unit(3)
  {
  }

  lemma PageMeaning(e: nat)
    ensures FirstPage(e) <==> e / Unit(1) % 0x1000 == 0
  {
  }

  lemma BehindLast(widen: bool, x: Timer, s: Slot, now: nat)
    requires Behind(widen, x, s, now) && CascadeSlot((now + 1) % U32) == Move(s) && s.l == 3
    ensures widen || FirstPage(x.Expire()) <==> !Blocked(widen, x)
    ensures s.i == x.Deadline() / Unit(3) % 64
    ensures x.Deadline() / Unit(3) + 64 == Later(now + 1) / Unit(3) && Later(now + 1) % Unit(3) == 0
  {
    hide CascadeSlot, Blocked, FirstPage;
    SameWord(now + 1);
    CascadeUnbounded(Later(now + 1));
    BehindTick(x.Deadline(), Later(now), 3);
  }

  /** Or the clock has come round. */
  lemma BehindComesRound(widen: bool, x: Timer, s: Slot, now: nat)
    requires Behind(widen, x, s, now) && CascadeSlot((now + 1) % U32) == Move(s) && s.l == 3
    ensures ComesRound(widen, x, Place(widen, x.Expire(), (now + 1) % U32), now + 1)
  {
    hide CascadeSlot, Blocked, FirstPage, Place, Behind;
    var d, n := x.Deadline(), Later(now + 1);
    assert (widen || FirstPage(x.Expire()) <==> !Blocked(widen, x)) && s.i == d / Unit(3) % 64
           && d / Unit(3) + 64 == n / Unit(3) && n % Unit(3) == 0 by {
      BehindLast(widen, x, s, now);
    }
    LaterTop(now + 1);
    TopDigit(x.Expire());
    WordDigit(d, 3);
    if !widen && !FirstPage(x.Expire()) {
      assert x.Expire() / Unit(1) % 0x1000 != 0 by {
        PageMeaning(x.Expire());
      }
      StrandedAgain(x.Expire(), (now + 1) % U32);
    }
  }

  /** `TimerShift` never moves list 0 of a level below the top. */
  lemma ZeroNeverMoved(time: nat, s: Slot)
    requires CascadeSlot(time) == Move(s)
    ensures s.Level? && (s.l == 3 || s.i != 0)
  {
    CascadeInDigits(time);
  }

  lemma HeldAgain(widen: bool, x: Timer, s: Slot, t: nat)
    requires Held(widen, x, s) && t < U32 && CascadeSlot(t) == Move(s)
    ensures Place(widen, x.Expire(), t) == s
  {
    hide CascadeSlot, Place, Blocked;
    ZeroNeverMoved(t, s);
    TopDigit(x.Expire());
    StrandedAgain(x.Expire(), t);
  }

  /** From then on it is like a timer added now for the same deadline. */
  function AddedNow(x: Timer, now: nat): Timer
    requires now <= x.Deadline()
  {
    Timer(x.id, x.callBack, now, x.Deadline() - now)
  }

  lemma AheadHome(widen: bool, x: Timer, s: Slot, now: nat)
    requires Ahead(widen, x, s, now)
    ensures var y := AddedNow(x, now);
            && Waiting(widen, y, now) && !Stranded(widen, y) && y.Deadline() == x.Deadline()
            && y.Expire() == x.Expire() && s == Home(widen, y, now)
  {
    hide Place, Blocked;
  }

  lemma AheadAtHand(widen: bool, x: Timer, s: Slot, now: nat)
    requires Ahead(widen, x, s, now)
    ensures s == Near(now % U32 % Unit(0)) <==> x.Deadline() == now
  {
    hide Ahead, Stranded, Home;
    AheadHome(widen, x, s, now);
    DueAtHand(widen, AddedNow(x, now), now);
  }

  lemma AheadStep(widen: bool, x: Timer, s: Slot, now: nat)
    requires Ahead(widen, x, s, now) && s != Near(now % U32 % Unit(0))
    ensures var t := (now + 1) % U32;
            Ahead(widen, x, if CascadeSlot(t) == Move(s) then Place(widen, x.Expire(), t) else s, now + 1)
  {
    hide CascadeSlot, Place, Blocked, FirstPage, Stranded, Rank;
    var y := AddedNow(x, now);
    AheadHome(widen, x, s, now);
    AheadAtHand(widen, x, s, now);
    HomeStep(widen, y, now);
    assert Home(widen, y, now + 1) == Place(widen, x.Expire(), (now + 1) % U32);
  }

  lemma ComesRoundAtHand(widen: bool, x: Timer, now: nat)
    requires ComesRound(widen, x, Near(now % U32 % Unit(0)), now)
    ensures !Blocked(widen, x) && x.Deadline() == now
  {
    hide Blocked, Place;
    AheadAtHand(widen, x, Near(now % U32 % Unit(0)), now);
  }

  lemma BehindLevel(widen: bool, x: Timer, s: Slot, now: nat)
    requires Behind(widen, x, s, now)
    ensures s.Level? && s.l <= 3
  {
  }

  lemma ComesRoundStep(widen: bool, x: Timer, s: Slot, now: nat)
    requires ComesRound(widen, x, s, now) && s != Near(now % U32 % Unit(0))
    ensures var t := (now + 1) % U32;
            ComesRound(widen, x, if CascadeSlot(t) == Move(s) then Place(widen, x.Expire(), t) else s, now + 1)
  {
    hide CascadeSlot, Place, Behind, Held, Ahead;
    var t := (now + 1) % U32;
    if Ahead(widen, x, s, now) {
      AheadStep(widen, x, s, now);
    } else if Held(widen, x, s) {
      if CascadeSlot(t) == Move(s) {
        HeldAgain(widen, x, s, t);
      }
    } else if CascadeSlot(t) != Move(s) {
      BehindStays(widen, x, s, now);
    } else {
      BehindLevel(widen, x, s, now);
      if s.l < 3 {
        BehindMovesUp(widen, x, s, now);
      } else {
        BehindComesRound(widen, x, s, now);
      }
    }
  }

  lemma BehindInTime(d: nat, now: nat, l: nat)
    requires l <= 3 && Later(now) / Unit(l) < d / Unit(l) + 64
    ensures now < d
  {
  }

  lemma KeptInTime(widen: bool, x: Timer, s: Slot, now: nat)
    requires ComesRound(widen, x, s, now) && !Blocked(widen, x)
    ensures now <= x.Deadline()
    ensures now == x.Deadline() ==> s == Near(now % U32 % Unit(0))
  {
    hide Blocked, BlockedFrom, Place;
    if Behind(widen, x, s, now) {
      BehindInTime(x.Deadline(), now, s.l);
    } else {
      AheadAtHand(widen, x, s, now);
    }
  }

  // All timers.

  /** Where a pending timer is. */
  ghost predicate WaitsIn(widen: bool, x: Timer, s: Slot, now: nat) {
    if Passed(x) then s == Near(x.Expire() % Unit(0)) && x.addedAt <= now <= DueTick(x)
    else if x.delay < MAX_DELAY then s == Home(widen, x, now) && Waiting(widen, x, now)
    else ComesRound(widen, x, s, now)
  }

  lemma FreshWaits(widen: bool, x: Timer)
    requires x.delay < U32
    ensures WaitsIn(widen, x, FirstSlot(widen, x), x.addedAt)
  {
    hide Home, Place, Behind;
    if Passed(x) {
      PassedFirst(widen, x);
    } else if x.delay < MAX_DELAY {
      FreshAtHome(widen, x);
    } else {
      FreshBehind(widen, x);
    }
  }

  /** A timer under the hand is one that fires, and now is the tick. */
  lemma HandWaitsFor(widen: bool, x: Timer, now: nat)
    requires WaitsIn(widen, x, Near(now % U32 % Unit(0)), now)
    ensures Kept(widen, x) && DueTick(x) == now
  {
    hide Stranded, Home, Blocked, ComesRound;
    if Passed(x) {
      PassedDue(x, now);
    } else if x.delay < MAX_DELAY {
      DueAtHand(widen, x, now);
    } else {
      ComesRoundAtHand(widen, x, now);
    }
  }

  /** One tick, seen from one timer that is not under the hand. */
  lemma WaitsStep(widen: bool, x: Timer, s: Slot, now: nat)
    requires WaitsIn(widen, x, s, now) && s != Near(now % U32 % Unit(0))
    ensures var t := (now + 1) % U32;
            WaitsIn(widen, x, if CascadeSlot(t) == Move(s) then Place(widen, x.Expire(), t) else s, now + 1)
  {
    hide Stranded, Home, ComesRound, CascadeSlot, Place, Rank;
    var t := (now + 1) % U32;
    if Passed(x) {
      PassedDue(x, now);
      if CascadeSlot(t) == Move(s) {
        ZeroNeverMoved(t, s);
      }
    } else if x.delay < MAX_DELAY {
      DueAtHand(widen, x, now);
      HomeStep(widen, x, now);
      if CascadeSlot(t) == Move(s) {
        RelinkedAtHome(widen, x, now);
      }
    } else {
      ComesRoundStep(widen, x, s, now);
    }
  }

  /** A timer that fires does so no later than its tick. */
  lemma NotOverdue(widen: bool, x: Timer, s: Slot, now: nat)
    requires WaitsIn(widen, x, s, now) && Kept(widen, x)
    ensures now <= DueTick(x)
    ensures now == DueTick(x) ==> s == Near(now % U32 % Unit(0))
  {
    hide Stranded, Home, Blocked, ComesRound, Place;
    if Passed(x) {
      PassedDue(x, now);
    } else if x.delay < MAX_DELAY {
      DueAtHand(widen, x, now);
    } else {
      KeptInTime(widen, x, s, now);
    }
  }

  // Timers that land in list 0.

  /** A timer linked into list 0 of a level below the top when it is added. */
  predicate AtZero(widen: bool, x: Timer) {
    var s := FirstSlot(widen, x);
    s.Level? && s.l < 3 && s.i == 0
  }

  /** -1 at clock word 0x100 is no passed timer: it lands in `mWheel[0][0]`, in both versions. */
  lemma MinusOneAtRoundStart(widen: bool, id: nat, callBack: int)
    ensures var x := Timer(id, callBack, 0x100, U32 - 1); !Passed(x) && FirstSlot(widen, x) == Level(0, 0)
  {
    var x := Timer(id, callBack, 0x100, U32 - 1);
    assert x.Expire() == 0xFF;
  }

  /** Only a negative `time` puts a timer into such a list. */
  lemma ZeroIsNegative(widen: bool, x: Timer)
    requires AtZero(widen, x)
    ensures MAX_DELAY <= x.delay
  {
    var d, n := x.Deadline(), x.addedAt;
    if x.delay < MAX_DELAY {
      PlaceUnbounded(widen, d, n);
      PlaceInDigits(widen, d, n);
      if n < d {
        DigitsOrder(d, n);
      }
    }
  }
}
