/**
 Where the timing wheel keeps a timer, and which list a tick cascades.

 The code works on 32-bit words that wrap; the proofs work on unbounded ticks.
 `Place` and `CascadeSlot` are stated on the 32-bit words, and the lemmas show that
 for delays below 2^31 they agree with the same definitions on unbounded ticks.
 */
module WheelPlacement {
  import opened Bits

  /** A non-negative `int time` is a delay below 2^31; a negative one is a word from 2^31 on. */
  const MAX_DELAY: nat := 0x8000_0000

  predicate IsInt32(time: int) { -0x8000_0000 <= time < 0x8000_0000 }

  /** A timer node, with the unbounded tick at which it was added and a serial number. */
  datatype Timer = Timer(id: nat, callBack: int, addedAt: nat, delay: nat) {

    /** The unbounded tick at which the timer is due. */
    function Deadline(): nat { addedAt + delay }

    /** The 32-bit word stored in the node. */
    function Expire(): nat { Deadline() % U32 }
  }

  /** One of the 256 near lists, or one of the 64 lists of one of the four levels. */
  datatype Slot = Near(i: nat) | Level(l: nat, i: nat)

  predicate ValidSlot(s: Slot) {
    match s
    case Near(i) => i < 256
    case Level(l, i) => l < 4 && i < 64
  }

  /** How far a list is from the near lists; a cascade only moves timers to smaller ranks. */
  function Rank(s: Slot): nat {
    match s
    case Near(_) => 0
    case Level(l, _) => l + 1
  }

  /** Number of ticks one list of level `l` spans: 2^(8 + 6l). */
  function Unit(l: nat): nat
    requires l <= 3
  {
    if l == 0 then 0x100 else if l == 1 then 0x4000 else if l == 2 then 0x10_0000 else 0x400_0000
  }

  /** The level `AddNode` settles on once the near test has failed.  As written the mask is never
      widened, so only the first comparison can succeed; `widen` is the variant with
      `mask <<= TIME_LEVEL_SHIFT` in the loop. */
  function LevelOf(widen: bool, expire: nat, time: nat): (l: nat)
    ensures l <= 3
  {
    if expire / Unit(1) == time / Unit(1) then 0
    else if widen && expire / Unit(2) == time / Unit(2) then 1
    else if widen && expire / Unit(3) == time / Unit(3) then 2
    else 3
  }

  /** The list `AddNode` links a node with this `expire` into when the wheel stands at `time`. */
  function Place(widen: bool, expire: nat, time: nat): (s: Slot)
    ensures ValidSlot(s)
  {
    if expire / Unit(0) == time / Unit(0) then Near(expire % Unit(0))
    else
      var l := LevelOf(widen, expire, time);
      Level(l, expire / Unit(l) % 64)
  }

  datatype Cascade = Nothing | Move(slot: Slot)

  /** The list `TimerShift` moves when the clock reaches `time`: none inside a near round, otherwise
      the list named by the lowest non-zero digit, or list 0 of the top level on wrap to zero. */
  function CascadeSlot(time: nat): (c: Cascade)
    ensures c.Move? ==> ValidSlot(c.slot) && c.slot.Level?
  {
    if time % Unit(0) != 0 then Nothing
    else if time % Unit(1) != 0 then Move(Level(0, time / Unit(0) % 64))
    else if time % Unit(2) != 0 then Move(Level(1, time / Unit(1) % 64))
    else if time % Unit(3) != 0 then Move(Level(2, time / Unit(2) % 64))
    else Move(Level(3, time / Unit(3) % 64))
  }

  /** The wheel as written loses exactly these timers: due in another 2^14-tick block than the one
      they were added in, and with some bit 14..25 of `expire` set. */
  predicate Stranded(widen: bool, x: Timer) {
    && !widen
    && x.Expire() / Unit(1) != x.addedAt % U32 / Unit(1)
    && x.Expire() / Unit(1) % 0x1000 != 0
  }

  /** Where a pending timer is found at tick `now`. */
  function Home(widen: bool, x: Timer, now: nat): (s: Slot)
    ensures ValidSlot(s)
  {
    if Stranded(widen, x) then Level(3, x.Expire() / Unit(3))
    else Place(widen, x.Expire(), now % U32)
  }

  /** A timer that may be in the wheel at tick `now`. */
  predicate Waiting(widen: bool, x: Timer, now: nat) {
    && x.addedAt <= now
    && x.delay < MAX_DELAY
    && (!Stranded(widen, x) ==> now <= x.Deadline())
  }

  // Wrapping to 32 bits does not change the remainder by, nor the digit at, a smaller power of two.

  /** Number of level-`l` blocks in 2^32 ticks. */
  function Blocks(l: nat): nat
    requires l <= 3
  {
    if l == 0 then 0x100_0000 else if l == 1 then 0x4_0000 else if l == 2 then 0x1000 else 64
  }

  lemma WordSplit(n: nat, l: nat)
    requires l <= 3
    ensures n / Unit(l) == n / U32 * Blocks(l) + n % U32 / Unit(l)
    ensures n % U32 % Unit(l) == n % Unit(l)
  {
    var q, r := n / U32, n % U32;
    assert n == q * U32 + r;
    if l == 0 {
      assert n / 0x100 == q * 0x100_0000 + r / 0x100;
    } else if l == 1 {
      assert n / 0x4000 == q * 0x4_0000 + r / 0x4000;
    } else if l == 2 {
      assert n / 0x10_0000 == q * 0x1000 + r / 0x10_0000;
    } else {
      assert n / 0x400_0000 == q * 64 + r / 0x400_0000;
    }
  }

  lemma DropMultiple(k: nat, y: nat)
    ensures (k * 64 + y) % 64 == y % 64
  {
  }

  lemma WordDigit(n: nat, l: nat)
    requires l <= 3
    ensures n % U32 % Unit(l) == n % Unit(l)
    ensures n % U32 / Unit(l) % 64 == n / Unit(l) % 64
  {
    WordSplit(n, l);
    var q, w := n / U32, n % U32 / Unit(l);
    var k := if l == 0 then 0x4_0000 else if l == 1 then 0x1000 else if l == 2 then 64 else 1;
    assert q * Blocks(l) == q * k * 64;
    DropMultiple(q * k, w);
  }

  lemma WordSucc(n: nat)
    ensures (n % U32 + 1) % U32 == (n + 1) % U32
  {
  }

  lemma WrapApart(e: nat, t: nat, l: nat)
    requires l <= 3 && e < t < U32 && t - e > MAX_DELAY
    ensures e / Unit(l) != t / Unit(l) && t / Unit(l) < Blocks(l)
  {
  }

  /** Two ticks less than 2^31 apart share a block exactly when their 32-bit words do. */
  lemma WordBlock(d: nat, n: nat, l: nat)
    requires l <= 3 && n <= d < n + MAX_DELAY
    ensures d % U32 / Unit(l) == n % U32 / Unit(l) <==> d / Unit(l) == n / Unit(l)
  {
    WordSplit(d, l);
    WordSplit(n, l);
    if d / U32 != n / U32 {
      assert d / U32 == n / U32 + 1;
      WrapApart(d % U32, n % U32, l);
    }
  }

  /** Placement computed on wrapped words is placement on unbounded ticks. */
  lemma PlaceUnbounded(widen: bool, d: nat, n: nat)
    requires n <= d < n + MAX_DELAY
    ensures Place(widen, d % U32, n % U32) == Place(widen, d, n)
  {
    WordBlock(d, n, 0); WordBlock(d, n, 1); WordBlock(d, n, 2); WordBlock(d, n, 3);
    WordDigit(d, 0); WordDigit(d, 1); WordDigit(d, 2); WordDigit(d, 3);
  }

  lemma CascadeUnbounded(n: nat)
    ensures CascadeSlot(n % U32) == CascadeSlot(n)
  {
    WordDigit(n, 0); WordDigit(n, 1); WordDigit(n, 2); WordDigit(n, 3);
  }

  // A tick written as the odometer the wheel is built on.

  datatype Digits = Digits(near: nat, g0: nat, g1: nat, g2: nat, top: nat)

  function DigitsOf(n: nat): (g: Digits)
    ensures g.near < 256 && g.g0 < 64 && g.g1 < 64 && g.g2 < 64
  {
    Digits(n % Unit(0), n / Unit(0) % 64, n / Unit(1) % 64, n / Unit(2) % 64, n / Unit(3))
  }

  lemma DigitsValue(n: nat)
    ensures var g := DigitsOf(n);
            && n / Unit(2) == g.top * 64 + g.g2
            && n / Unit(1) == g.top * 0x1000 + g.g2 * 64 + g.g1
            && n / Unit(0) == g.top * 0x4_0000 + g.g2 * 0x1000 + g.g1 * 64 + g.g0
            && n == g.top * Unit(3) + g.g2 * Unit(2) + g.g1 * Unit(1) + g.g0 * Unit(0) + g.near
  {
    assert n / 0x4000 == n / 0x100 / 64;
    assert n / 0x10_0000 == n / 0x4000 / 64;
    assert n / 0x400_0000 == n / 0x10_0000 / 64;
  }

  /** Placement in terms of digits. */
  ghost function PlaceDigits(widen: bool, d: Digits, n: Digits): Slot {
    if d.top != n.top then Level(3, d.top % 64)
    else if d.g2 != n.g2 then if widen then Level(2, d.g2) else Level(3, d.top % 64)
    else if d.g1 != n.g1 then if widen then Level(1, d.g1) else Level(3, d.top % 64)
    else if d.g0 != n.g0 then Level(0, d.g0)
    else Near(d.near)
  }

  ghost function CascadeDigits(m: Digits): Cascade {
    if m.near != 0 then Nothing
    else if m.g0 != 0 then Move(Level(0, m.g0))
    else if m.g1 != 0 then Move(Level(1, m.g1))
    else if m.g2 != 0 then Move(Level(2, m.g2))
    else Move(Level(3, m.top % 64))
  }

  lemma PlaceInDigits(widen: bool, d: nat, n: nat)
    ensures Place(widen, d, n) == PlaceDigits(widen, DigitsOf(d), DigitsOf(n))
  {
    DigitsValue(d);
    DigitsValue(n);
  }

  lemma CascadeInDigits(m: nat)
    ensures CascadeSlot(m) == CascadeDigits(DigitsOf(m))
  {
    DigitsValue(m);
  }

  /** A timer the wheel keeps is placed by its unbounded deadline. */
  lemma HomeUnbounded(widen: bool, x: Timer, now: nat)
    requires Waiting(widen, x, now) && !Stranded(widen, x)
    ensures Home(widen, x, now) == Place(widen, x.Deadline(), now)
  {
    PlaceUnbounded(widen, x.Deadline(), now);
  }

  lemma DropPages(k: nat, y: nat)
    ensures (k * 0x1000 + y) % 0x1000 == y % 0x1000
  {
  }

  /** What not being stranded means on unbounded ticks, for the wheel as written: the deadline lies in
      the 2^14-tick block of the present, or in the first such block of its 2^26-tick block. */
  lemma KeptMeaning(x: Timer, now: nat)
    requires Waiting(false, x, now) && !Stranded(false, x)
    ensures x.Deadline() / Unit(1) == now / Unit(1) || x.Deadline() / Unit(1) % 0x1000 == 0
  {
    var d := x.Deadline();
    WordBlock(d, x.addedAt, 1);
    if d / Unit(1) == x.addedAt / Unit(1) {
      assert d / 0x4000 == now / 0x4000;
    } else {
      var p, e := d / U32, d % U32;
      assert d / 0x4000 == p * 0x4_0000 + e / 0x4000;
      DropPages(p * 64, e / 0x4000);
    }
  }

  /** One tick and one cascade, seen from one timer.  In the cascaded list it moves to a list of
      smaller rank (or is stranded and relinked where it was); elsewhere it stays, and no timer was in a
      list of smaller rank than the cascaded one. */
  ghost predicate StepsDown(before: Slot, after: Slot, c: Cascade) {
    && (c.Nothing? ==> after == before)
    && (c.Move? && before == c.slot ==> Rank(after) < Rank(c.slot) || after == c.slot)
    && (c.Move? && before != c.slot ==> after == before && Rank(before) >= Rank(c.slot))
  }

  /** The odometer one tick on, with its carries. */
  ghost function Succ(h: Digits): Digits {
    if h.near < 255 then h.(near := h.near + 1)
    else if h.g0 < 63 then h.(near := 0, g0 := h.g0 + 1)
    else if h.g1 < 63 then h.(near := 0, g0 := 0, g1 := h.g1 + 1)
    else if h.g2 < 63 then h.(near := 0, g0 := 0, g1 := 0, g2 := h.g2 + 1)
    else Digits(0, 0, 0, 0, h.top + 1)
  }

  ghost predicate Before(h: Digits, g: Digits) {
    if h.top != g.top then h.top < g.top
    else if h.g2 != g.g2 then h.g2 < g.g2
    else if h.g1 != g.g1 then h.g1 < g.g1
    else if h.g0 != g.g0 then h.g0 < g.g0
    else h.near < g.near
  }

  ghost predicate InRange(g: Digits) {
    g.near < 256 && g.g0 < 64 && g.g1 < 64 && g.g2 < 64
  }

  ghost function Value(g: Digits): nat {
    g.top * Unit(3) + g.g2 * Unit(2) + g.g1 * Unit(1) + g.g0 * Unit(0) + g.near
  }

  lemma NextDigit(a: nat, b: nat, c: nat, d: nat, m: nat)
    requires c < m && d < m && (m == 64 || m == 256)
    ensures a * m + c < b * m + d <==> a < b || (a == b && c < d)
    ensures a * m + c == b * m + d <==> a == b && c == d
  {
  }

  lemma Compares(h: Digits, g: Digits)
    requires InRange(h) && InRange(g)
    ensures Before(h, g) <==> Value(h) < Value(g)
  {
    var h2, g2 := h.top * 64 + h.g2, g.top * 64 + g.g2;
    var h1, g1 := h2 * 64 + h.g1, g2 * 64 + g.g1;
    var h0, g0 := h1 * 64 + h.g0, g1 * 64 + g.g0;
    assert Value(h) == h0 * 256 + h.near && Value(g) == g0 * 256 + g.near;
    NextDigit(h.top, g.top, h.g2, g.g2, 64);
    NextDigit(h2, g2, h.g1, g.g1, 64);
    NextDigit(h1, g1, h.g0, g.g0, 64);
    NextDigit(h0, g0, h.near, g.near, 256);
  }

  lemma SuccValue(h: Digits)
    requires InRange(h)
    ensures InRange(Succ(h)) && Value(Succ(h)) == Value(h) + 1
  {
  }

  lemma SameValue(h: Digits, g: Digits)
    requires InRange(h) && InRange(g) && Value(h) == Value(g)
    ensures h == g
  {
    hide Value;
    Compares(h, g);
    Compares(g, h);
  }

  lemma Ticks(h: Digits, m: Digits)
    requires InRange(h) && InRange(m) && Value(m) == Value(h) + 1
    ensures m == Succ(h)
  {
    SuccValue(h);
    hide Succ, Value, InRange;
    SameValue(m, Succ(h));
  }

  lemma DigitsOrder(d: nat, n: nat)
    requires n < d < n + MAX_DELAY
    ensures DigitsOf(n + 1) == Succ(DigitsOf(n))
    ensures Before(DigitsOf(n), DigitsOf(d)) && DigitsOf(d).top <= DigitsOf(n).top + 32
  {
    DigitsValue(d);
    DigitsValue(n);
    DigitsValue(n + 1);
    Ticks(DigitsOf(n), DigitsOf(n + 1));
    Compares(DigitsOf(n), DigitsOf(d));
  }

  lemma SameDigits(a: nat, b: nat, c: nat, x: nat, y: nat, z: nat)
    requires b < 64 && c < 64 && y < 64 && z < 64
    requires a * 0x1000 + b * 64 + c == x * 0x1000 + y * 64 + z
    ensures a == x && b == y && c == z
  {
  }

  lemma ZeroDigits(b: nat, c: nat)
    requires b < 64 && c < 64
    ensures (b * 64 + c) % 0x1000 == 0 ==> b == 0 == c
  {
  }

  lemma SamePage(g: Digits, h: Digits, p: nat, q: nat)
    requires InRange(g) && InRange(h)
    requires p == g.top * 0x1000 + g.g2 * 64 + g.g1 && q == h.top * 0x1000 + h.g2 * 64 + h.g1
    requires p == q || p % 0x1000 == 0
    ensures g.g1 == 0 == g.g2 || (g.g1 == h.g1 && g.g2 == h.g2 && g.top == h.top)
  {
    if p != q {
      var low := g.g2 * 64 + g.g1;
      DropPages(g.top, low);
      ZeroDigits(g.g2, g.g1);
    } else {
      SameDigits(g.top, g.g2, g.g1, h.top, h.g2, h.g1);
    }
  }

  lemma KeptDigits(d: nat, n: nat)
    requires d / Unit(1) == n / Unit(1) || d / Unit(1) % 0x1000 == 0
    ensures var g, h := DigitsOf(d), DigitsOf(n);
            g.g1 == 0 == g.g2 || (g.g1 == h.g1 && g.g2 == h.g2 && g.top == h.top)
  {
    DigitsValue(d);
    DigitsValue(n);
    SamePage(DigitsOf(d), DigitsOf(n), d / Unit(1), n / Unit(1));
  }

  lemma OdometerStep(widen: bool, g: Digits, h: Digits)
    requires InRange(g) && InRange(h) && Before(h, g) && g.top <= h.top + 32
    requires !widen ==> g.g1 == 0 == g.g2 || (g.g1 == h.g1 && g.g2 == h.g2 && g.top == h.top)
    ensures StepsDown(PlaceDigits(widen, g, h), PlaceDigits(widen, g, Succ(h)), CascadeDigits(Succ(h)))
  {
  }

  lemma PlaceStep(widen: bool, d: nat, n: nat)
    requires n < d < n + MAX_DELAY
    requires !widen ==> d / Unit(1) == n / Unit(1) || d / Unit(1) % 0x1000 == 0
    ensures StepsDown(Place(widen, d, n), Place(widen, d, n + 1), CascadeSlot(n + 1))
  {
    PlaceInDigits(widen, d, n);
    PlaceInDigits(widen, d, n + 1);
    CascadeInDigits(n + 1);
    DigitsOrder(d, n);
    if !widen {
      KeptDigits(d, n);
    }
    OdometerStep(widen, DigitsOf(d), DigitsOf(n));
  }

  lemma HomeStep(widen: bool, x: Timer, now: nat)
    requires Waiting(widen, x, now)
    requires !Stranded(widen, x) ==> now < x.Deadline()
    ensures StepsDown(Home(widen, x, now), Home(widen, x, now + 1), CascadeSlot((now + 1) % U32))
  {
    CascadeUnbounded(now + 1);
    if !Stranded(widen, x) {
      HomeUnbounded(widen, x, now);
      HomeUnbounded(widen, x, now + 1);
      if !widen {
        KeptMeaning(x, now);
      }
      PlaceStep(widen, x.Deadline(), now);
    }
  }

  lemma NearInBlock(e: nat, t: nat)
    ensures e / Unit(0) == t / Unit(0) ==> e / Unit(1) == t / Unit(1)
  {
    assert e / 0x4000 == e / 0x100 / 64 && t / 0x4000 == t / 0x100 / 64;
  }

  lemma TopDigit(e: nat)
    requires e < U32
    ensures e / Unit(3) < 64
  {
  }

  /** Linking a fresh timer puts it at its home. */
  lemma FreshAtHome(widen: bool, x: Timer)
    requires x.delay < MAX_DELAY
    ensures Waiting(widen, x, x.addedAt)
    ensures Place(widen, x.Expire(), x.addedAt % U32) == Home(widen, x, x.addedAt)
  {
    if Stranded(widen, x) {
      TopDigit(x.Expire());
      NearInBlock(x.Expire(), x.addedAt % U32);
    }
  }

  lemma PageOfRoundTime(t: nat)
    ensures t % Unit(3) == 0 ==> t / Unit(1) % 0x1000 == 0
  {
    if t % Unit(3) == 0 {
      var k := t / 0x400_0000;
      assert t / 0x4000 == k * 0x1000;
      DropPages(k, 0);
    }
  }

  /** A stranded timer is relinked into the list it was in. */
  lemma StrandedAgain(e: nat, t: nat)
    requires e < U32 && t < U32 && e / Unit(1) % 0x1000 != 0
    requires CascadeSlot(t) == Move(Level(3, e / Unit(3)))
    ensures Place(false, e, t) == Level(3, e / Unit(3))
  {
    TopDigit(e);
    TopDigit(t);
    NearInBlock(e, t);
    PageOfRoundTime(t);
  }

  /** Relinking a timer out of the cascaded list puts it at its home for the new tick. */
  lemma RelinkedAtHome(widen: bool, x: Timer, now: nat)
    requires CascadeSlot((now + 1) % U32) == Move(Home(widen, x, now))
    ensures Place(widen, x.Expire(), (now + 1) % U32) == Home(widen, x, now + 1)
  {
    if Stranded(widen, x) {
      StrandedAgain(x.Expire(), (now + 1) % U32);
    }
  }

  lemma DivideBy256(n: nat)
    ensures n == n / Unit(0) * 256 + n % Unit(0)
  {
  }

  /** The near list under the clock hand holds exactly the timers that are due. */
  lemma DueAtHand(widen: bool, x: Timer, now: nat)
    requires Waiting(widen, x, now)
    ensures Home(widen, x, now) == Near(now % U32 % Unit(0)) <==> !Stranded(widen, x) && x.Deadline() == now
  {
    if !Stranded(widen, x) {
      HomeUnbounded(widen, x, now);
      WordDigit(now, 0);
      DivideBy256(x.Deadline());
      DivideBy256(now);
    }
  }
}
