# Verified models of the game-server engine's hard parts

The engine's timer wheel, its byte ring buffers, the queue and worker pool its logger runs on, the deep copy used by
its Lua test classes, and the integer arithmetic of the bundled formatter, modelled in Dafny 4.11 and proved correct
(or proved wrong exactly where they are wrong). `dafny verify dfyconfig.toml` checks everything.

## The parts

**Timing wheel** (`Bits`, `WheelWords`, `WheelPlacement`, `WheelDelays`, `WheelModel`, `WheelMachine`, `WheelRuns`,
`WheelOrder`, `WheelTheorems`, `WheelLists`, `WheelCalls`, `WheelFields`, `WheelTimer`, `WheelWitness`).
256 near lists and four levels of 64 lists, 32-bit wrapping time, cascades, two dispatch rounds per tick with the
lock dropped while callbacks run.

- `WheelMachine.Step` is the concurrent protocol: one thread inside `Update`, any number of threads inside `AddTimer`
  with any `int time`, one spin-lock flag. Runs in which no `time` is negative refine a plain sequence of pending timers
  out of which those due now are handed out in the order they were added (`RunRefines`).
- `WheelDelays` follows one timer with any `int time` through the wheel, tick by tick, up to the tick at which it fires
  or to the list it never leaves. `WheelRuns` and `WheelOrder` are what every run keeps, whatever the delays: where each
  timer is, that it is in one place only, and in which order lists hold the timers added with `time >= 0`.
- `WheelTheorems` states what every run of the protocol guarantees: mutual exclusion, conservation, firing on time, in
  order, and exactly once, with the exact condition under which a timer fires at all, for every `int time`.
- `WheelTimers.WheelTimer` is the class with its linked lists (`WheelLists`), updated in place. Each method says which
  node goes where (`WheelFields`), the lists stand for the wheel as a value, and the object records the run of the
  protocol it performs, so the theorems hold of the object. No node is lost or freed twice (`NodesConserved`). The
  `AddTimer` calls that arrive while callbacks run make exactly their timers (`WheelCalls`).
- `WheelWitness` holds programs, each starting at any clock reading: one loses a timer on the wheel as written, one has
  a callback set its timer again, one makes a timer fire at a wrong tick, and one adds a timer that never fires; and a
  run in which a negative delay spoils the order.
- `widen` selects the level search. `false` is the code as written: the loop in `AddNode` never widens `mask`, although
  `TimerShift` widens its own. `true` is the variant with `mask <<= TIME_LEVEL_SHIFT` at the end of the loop body.

**Ring buffers** (`RingArithmetic`, `RingBytes`, `RingBuffer`, `RingLocked`, `RingSpsc`, `RingCalls`). Free-running
8-bit counters over a power-of-two array. The locked buffer is a class refining a byte queue, and a state machine of any
number of threads that take the spin lock, copy single bytes and give it back, which refines the calls done one by one.
The lock-free buffer is a state machine of single loads, one-byte copies and single stores; `RingCalls` says how much
whole calls move in it. Bytes are numbers below 256.

**Log queue and worker pool** (`CircularQueue`, `LogPool`, `LogPoolPosts`, `LogPoolShutdown`). `circular_q` is a class
over an array; the blocking queue and the pool are a state machine whose steps are the sections under `queue_mutex_`,
the notifications after them, spurious wakeups, timeouts, message handling and the destructor's posts.

**Deep copy** (`LuaClone`). Tables are heap objects with entries and a metatable; `_copy` recurses and fills
`lookup_table` and the new tables in place.

**Formatter arithmetic** (`Decimal`, `FpMultiply`). Digit counting, two-digits-at-a-time printing, parsing with an
overflow check, and the rounded 64 x 64 bit product.

## What the proofs say about the code

- *The level search strands timers.* As written, a timer fires if and only if its `expire` agrees with the clock word at
  insertion from bit 14 up, or has bits 14 to 25 all zero (`WrittenWheelFiresIff`). Every other timer stays in
  `mWheel[3][expire >> 26]` for ever (`StrandedForever`); even a one-tick timer can be lost (`LosesOneTickTimer`).
  With the mask widened per level every timer fires exactly once and on time (`WidenedWheelFiresAll`). This is about
  timers added with `time >= 0`; no such timer ever fires at a wrong tick in either version (`FiresOnTime`).
- *Negative delays.* In both versions, and whatever else is in the wheel, a callback sees a clock word other than its
  node's `expire` if and only if `time < 0 && -time <= m_uTime % 256` held when it was added (`FiresOnTime`,
  `PassedGuard`). Such a timer lands in a near list the hand has passed in this round and fires exactly once, 256 ticks
  after the tick it was meant for (`PassedFiresLate`, `FiresAtWrongTick`); the order in which timers of one tick were
  added is then not kept (`PassedOvertakes`), while it is among timers with `time >= 0` (`FiresInOrder`). A negative
  `time` outside that guard acts as the same word read as unsigned: the timer fires exactly once, with a clock word
  equal to its `expire`, `time + 2^32` ticks after it was added, or never. Which, is decided by the digits of `expire`
  (`NegativeFiresIff`): list 0 of a level below the top is never cascaded, so a zero digit on the timer's way holds it
  there for ever (`StuckAtZero`); -1 at clock word 0x100 is such a timer, in both versions (`NeverFires`).
- *The clock word is not initialised* by the constructor, so every theorem holds for any initial 32-bit word.
- *`mask` in `TimerShift` is an `int`* and overflows when shifted past bit 31. It is modelled as wrapping to 0, so that
  `mask - 1` is all ones; the loop then ends because the clock word is not zero.
- *`RoundUpPowOfTwo` returns 0* for sizes 0 and 129 to 255; the buffer then has no room at all, and every transfer
  moves nothing.
- *A log queue of capacity 0 hangs the pool's destructor* (`ZeroCapacityHangs`); with any larger capacity every weakly
  fair run shuts down, however many timeouts and spurious wakeups there are (`FairShutdownEnds`).
- *The length reads of the locked buffer take no lock.* `GetLen` loads two indices one after the other; its result is the
  true length if and only if the bytes taken out in between are a multiple of 256 (`UnlockedLen`). A run of one write
  and one read makes it return 1 for an empty buffer, and makes `IsEmpty` say "not empty" of a buffer that is empty at
  both of its loads (`UnlockedGoesWrong`). For a thread that is the only one to take bytes out, both are exact
  (`SoleTakerExact`).

## Assumptions

- One thread calls `Update` or `UpdateTime`.
- A callback is arbitrary code of which only its `AddTimer` calls matter. In `WheelMachine` these, and the calls of other
  threads, may come whenever the lock is free. In the class, the calls that arrive while callbacks run are the argument
  `env`, one finite list per callback: if zero-delay timers were added again for ever, `TimerExecute` would not return.
- Acquire and release atomics are interleaved, sequentially consistent steps.
- The destructor of the pool starts when no post is under way: a logger posts through a shared pointer it holds for the
  duration of the call (`include/spdlog/async_logger-inl.h:38-40`).
- `new`, `malloc` and thread creation succeed; callbacks, sinks and `pairs` do not fail.

## Model

| member | source | states |
|---|---|---|
| WheelTheorems.WidenedWheelFiresAll | engine/timer/wheel_timer.cpp:143-204 | variant with the mask widened per level: in every run each timer added with `time >= 0` whose deadline has passed fired exactly once, at its deadline, with the clock word equal to its `expire`, across the 2^32 wrap and for every initial word |
| WheelTheorems.WrittenWheelFiresIff | engine/timer/wheel_timer.cpp:181-204 | code as written: a timer added with `time >= 0` whose deadline has passed has fired if and only if `expire >> 14` equals the clock's at insertion, or bits 14-25 of `expire` are zero |
| WheelTheorems.StrandedForever | engine/timer/wheel_timer.cpp:143-204 | code as written: in every reachable state every other timer added with `time >= 0` sits in `mWheel[3][expire >> 26]` |
| WheelWitness.LosesOneTickTimer | engine/timer/wheel_timer.cpp:192-200 | a program on the wheel as written: a timer of one tick added at tick 0x7FFF has not fired after two ticks, although its deadline has passed, and sits in `mWheel[3][0]` |
| WheelTheorems.FiresExactlyOnce | engine/timer/wheel_timer.cpp:93-214 | both versions, every `int time`: no timer fires twice or before its tick; once the clock has passed that tick, a kept one has fired exactly once, and one that is not kept never fires; with `time >= 0` the tick is the deadline and kept means not stranded |
| WheelTheorems.FiresOnTime | engine/timer/wheel_timer.cpp:93-141 | both versions, any `int` delays, any interleaving with `AddTimer`: of every callback run, and every node of a list being dispatched, `expire` equals `m_uTime` if and only if the timer is not passed; and the tick is `time` (as an unsigned word) after insertion, or `time + 256` for a passed one |
| WheelTheorems.PassedFiresLate | engine/timer/wheel_timer.cpp:181-214 | both versions: a timer added with `time < 0 && -time <= m_uTime % 256` fires exactly once, `256 + time` ticks after it was added, with a clock word 256 more than its `expire` |
| WheelDelays.PassedGuard | engine/timer/wheel_timer.cpp:206-214 | for every `int time`, "passed" is that test on `time` and the clock word, a delay below 2^31 is `time >= 0`, and the tick is `time`, `time + 256` (passed) or `time + 2^32` (negative otherwise) after insertion |
| WheelTheorems.NegativeFiresIff | engine/timer/wheel_timer.cpp:143-214 | any other negative `time`, once `time + 2^32` ticks have passed: with the mask widened the timer has fired if and only if no digit of `expire` from the level it was linked into up to level 2 is zero; as written, if and only if bits 14-25 of `expire` are zero and, when it was linked into level 0, its digit there is not |
| WheelTheorems.WaitsForever | engine/timer/wheel_timer.cpp:143-214 | every `int time`: a timer that is not kept is, in every later state, once in exactly one list |
| WheelDelays.WaitsStep | engine/timer/wheel_timer.cpp:143-204 | every `int time`, one tick seen from one timer: if its list is cascaded, the list placement names is where it waits at the new tick; if not, it waits where it was |
| WheelDelays.HandWaitsFor | engine/timer/wheel_timer.cpp:119-129 | every `int time`: a timer found in the list under the hand is kept, and now is its tick |
| WheelDelays.NotOverdue | engine/timer/wheel_timer.cpp:119-129 | every `int time`: a kept timer waits no longer than its tick, and at its tick it is in the list under the hand |
| WheelTheorems.StuckAtZero | engine/timer/wheel_timer.cpp:143-214 | both versions: a timer that lands in list 0 of a level below the top stays there in every later state and never fires; only a negative `time` leads there |
| WheelDelays.MinusOneAtRoundStart | engine/timer/wheel_timer.cpp:181-214 | both versions: `time == -1` at clock word 0x100 is not passed and lands in `mWheel[0][0]` |
| WheelWitness.FiresAtWrongTick | engine/timer/wheel_timer.cpp:93-214 | a program, on both versions: a timer with `time == -1` added at tick 0x1FF has `expire` 0x1FE and fires at clock word 0x2FE |
| WheelWitness.NeverFires | engine/timer/wheel_timer.cpp:93-214 | a program, on both versions: a timer with `time == -1` added at tick 0x100 has not fired after any number of ticks below 2^31 in one `UpdateTime`, and sits in `mWheel[0][0]` |
| WheelWitness.PassedOvertakes | engine/timer/wheel_timer.cpp:170-204 | both versions: a run in which a timer with `time == -0xFE` fires before one of two ticks that was added earlier and is due at the same tick, because the latter is cascaded behind it |
| WheelTheorems.InOnePlace | engine/timer/wheel_timer.cpp:93-214 | any `int` delays: a timer that was added is once in exactly one list, or once in the list being dispatched, or has fired exactly once; any other is nowhere |
| WheelTheorems.FiresInOrder | engine/timer/wheel_timer.cpp:86-91 | callbacks of timers added with `time >= 0` run by tick and, within a tick, in the order they were added, whether they were cascaded or went straight to near, and whatever other timers there are |
| WheelTheorems.MutualExclusion | engine/thread/atom_spin_lock.h:16-23 | the lock flag is set exactly when some thread is in a critical section, and at most one is |
| WheelTheorems.NothingDueLeft | engine/timer/wheel_timer.cpp:119-129 | once the list under the hand is empty and no list is being dispatched, every kept timer due by now has fired exactly once |
| WheelTheorems.Reached | engine/timer/wheel_timer.cpp:11-214 | the last state of every run without negative `time` refines a plain state in which nothing is lost or duplicated, nothing is overdue and everything is in order |
| WheelMachine.RunRefines | engine/timer/wheel_timer.cpp:93-214 | every run of the wheel without negative `time` is matched, state by state, by a run of the plain sequence of pending timers |
| WheelMachine.StepRefines | engine/timer/wheel_timer.cpp:93-214 | each step of any thread, unless it adds a timer with a negative `time`, is a plain step or changes nothing the plain machine sees |
| WheelModel.ShiftKeeps | engine/timer/wheel_timer.cpp:143-179 | if nothing is due when it starts, advancing the clock and cascading leaves in every list, in order, exactly the pending timers whose home it is at the new tick |
| WheelModel.CollectKeeps | engine/timer/wheel_timer.cpp:119-129 | the list under the hand holds exactly the due timers in order, and clearing it leaves every other pending timer at home |
| WheelModel.AddKeeps | engine/timer/wheel_timer.cpp:181-214 | adding a timer with any delay below 2^31 keeps every list the in-order sequence of the timers at home there |
| WheelModel.RehomedList | engine/timer/wheel_timer.cpp:143-179 | one cascade seen from any list: lists below the cascaded one were empty, all others neither gain nor lose, so order is kept |
| WheelModel.AddedAllLists | engine/timer/wheel_timer.cpp:170-179 | relinking a drained list appends to each destination exactly the timers placed there, in order, also when the destination is the list being drained |
| WheelPlacement.HomeStep | engine/timer/wheel_timer.cpp:143-204 | per tick a timer moves only out of the cascaded list, only to a list closer to near (or stays stranded), and none waits below the cascaded list |
| WheelPlacement.DueAtHand | engine/timer/wheel_timer.cpp:119-129 | a waiting timer is in the list under the hand if and only if it is due now and not stranded |
| WheelPlacement.FreshAtHome | engine/timer/wheel_timer.cpp:181-214 | the list chosen for a new timer is its home at the tick it was added |
| WheelPlacement.RelinkedAtHome | engine/timer/wheel_timer.cpp:170-204 | the list chosen when a cascade relinks a timer is its home at the new tick; a stranded timer goes back to where it was |
| WheelPlacement.PlaceUnbounded | engine/timer/wheel_timer.cpp:181-204 | for delays below 2^31, placement on wrapped 32-bit words equals placement on unbounded ticks |
| WheelPlacement.CascadeUnbounded | engine/timer/wheel_timer.cpp:143-168 | the list cascaded at a wrapped clock word is the one for the unbounded tick |
| WheelPlacement.KeptMeaning | engine/timer/wheel_timer.cpp:192-200 | code as written: a timer that is not stranded is due in the present 2^14-tick block, or in the first such block of a 2^26-tick block |
| WheelTimers.WheelTimer.constructor | engine/timer/wheel_timer.cpp:11-27 | every list is empty, for any initial clock word |
| WheelLists.ClearLink | engine/timer/wheel_timer.cpp:77-84 | the list becomes empty and its nodes a chain of their own that starts at the result |
| WheelLists.Link | engine/timer/wheel_timer.cpp:86-91 | the list's nodes are the old ones followed by the new one, with `next` links and `tail` right |
| WheelWords.SearchLevel | engine/timer/wheel_timer.cpp:192-200 | the loop returns the first level under whose mask the two words agree, else 3 |
| WheelTimers.WheelTimer.ListFor | engine/timer/wheel_timer.cpp:181-204 | the masks and shifts pick the list of the arithmetic placement |
| WheelTimers.WheelTimer.AddNode | engine/timer/wheel_timer.cpp:181-204 | this very node goes to the end of the list placement names; all other entries, the clock, the chain and the freed nodes stay |
| WheelTimers.WheelTimer.MoveList | engine/timer/wheel_timer.cpp:170-179 | the very nodes of the list are placed again one by one, front to back, also into the list being drained; nothing else changes |
| WheelTimers.WheelTimer.TimerShift | engine/timer/wheel_timer.cpp:143-168 | the loop terminates for every clock word; the clock advances one tick and the nodes of at most one list are placed again: that of the lowest non-zero digit, or (3, 0) on wrap to zero |
| WheelLists.ShiftedNodes | engine/timer/wheel_timer.cpp:143-179 | a shift permutes nodes: the lists together hold the same nodes before and after |
| WheelLists.ShiftedEntriesWheel | engine/timer/wheel_timer.cpp:143-179 | what the shift does to the nodes is what the wheel as a value does to the timers |
| WheelWords.ShiftLoopStep | engine/timer/wheel_timer.cpp:155-166 | an iteration is entered only at levels up to 3 and only before any list was moved, although the loop has no break; what it moves is the list the cascade names |
| WheelWords.TestWords | engine/timer/wheel_timer.cpp:145-163 | `cur_time & (mask - 1)` is the remainder by the level's unit, and the whole word once `mask` has overflowed to 0 |
| WheelTimers.WheelTimer.RunCallback | engine/timer/wheel_timer.cpp:131-141 | the first callback of the chain is run, and every `AddTimer` call that arrives meanwhile makes its timer: the k-th with the k-th next serial number, at this tick, with the callback and delay asked for; no others |
| WheelTimers.WheelTimer.DispatchList | engine/timer/wheel_timer.cpp:131-141 | exactly the callbacks of the chain run, front to back, each seeing the current clock word; exactly the nodes of the chain are freed, none of which was freed before; the timers added are exactly those of the calls that arrived during these callbacks, one list of calls being used up per callback |
| WheelCalls.MadeAt | engine/timer/wheel_timer.cpp:131-141 | where the timer of the k-th call during the j-th callback is among the timers added, and that it has the next serial number, that callback's tick, and the callback and delay asked for |
| WheelWitness.ReArms | engine/timer/wheel_timer.cpp:131-141 | a program, on both versions: the callback of a one-tick timer adds a timer of 100 ticks; that timer is added at the tick the first fires at and fires 100 ticks later |
| WheelTimers.WheelTimer.NodesConserved | engine/timer/wheel_timer.cpp:77-214 | every node ever added is at exactly one position of one list, or of the chain being walked, or freed; the three are disjoint |
| WheelTimers.WheelTimer.TimerExecute | engine/timer/wheel_timer.cpp:119-129 | returns with the lock held and the list under the hand empty, the run having only been extended; the timers added are exactly those of the calls that arrived during the callbacks run |
| WheelTimers.WheelTimer.Update | engine/timer/wheel_timer.cpp:93-99 | one tick: the object has performed a run of the protocol after which every kept timer due by the new tick has fired exactly once; the timers added are exactly those of the calls that arrived during the callbacks run, each at the tick of its callback |
| WheelTimers.WheelTimer.UpdateTime | engine/timer/wheel_timer.cpp:101-117 | no tick if the clock went back; as many as the readings differ if that is less than 2^31; else as many as the difference modulo 2^32 if that is less than 2^31, and none otherwise; the reading is noted; after any tick every kept timer due by then has fired exactly once; the timers added are exactly those of the calls that arrived during the callbacks run |
| WheelTimers.WheelTimer.AddTimer | engine/timer/wheel_timer.cpp:206-214 | for every `int time`: one new node with one new timer, whose `expire` is the 32-bit sum, goes to the end of the list placement names; nothing else changes |
| RingArithmetic.RoundUpPowOfTwo | engine/net/ring_buffer_base.h:32-49 | for 1..128 the least power of two that is no smaller, a power of two only there, 0 otherwise |
| RingArithmetic.TrueLength | engine/net/ring_buffer.cpp:24-33 | 8-bit differences of the counters are the true length and the true room |
| RingArithmetic.TrueOffset | engine/net/ring_buffer.cpp:61-61 | masking an 8-bit counter gives the unbounded position modulo the size, across the 256 wrap |
| RingArithmetic.TrueCell | engine/net/ring_buffer.cpp:61-65 | the two segments of a transfer are one run of consecutive positions around the ring |
| RingArithmetic.CellsApart | engine/net/ring_buffer.cpp:57-81 | positions less than one round apart never share a cell |
| RingBuffers.RingBuffer.constructor | engine/net/ring_buffer.cpp:5-11 | an empty buffer whose size is the least power of two that is no smaller, for 1..128 |
| RingBuffers.RingBuffer.ReadData | engine/net/ring_buffer.cpp:57-68 | removes exactly the first min(len, used) waiting bytes and returns them; the rest of the caller's array is untouched |
| RingBuffers.RingBuffer.WriteData | engine/net/ring_buffer.cpp:70-81 | appends exactly the first min(len, free) bytes behind the waiting ones |
| RingBuffers.RingBuffer.GetLen | engine/net/ring_buffer.cpp:24-28 | the number of waiting bytes |
| RingBuffers.RingBuffer.GetAvail | engine/net/ring_buffer.cpp:30-33 | the size less the number of waiting bytes |
| RingBuffers.RingBuffer.IsEmpty | engine/net/ring_buffer.cpp:35-38 | true if and only if no byte waits |
| RingBuffers.RingBuffer.IsFull | engine/net/ring_buffer.cpp:40-43 | true if and only if as many bytes wait as the size |
| RingBuffers.RingBuffer.Reset | engine/net/ring_buffer.cpp:45-49 | the buffer is empty |
| RingBuffers.RingBuffer.ResetOut | engine/net/ring_buffer.cpp:51-55 | the waiting bytes are dropped and nothing is delivered |
| RingBuffers.ReadIsRun | engine/net/ring_buffer.cpp:60-65 | what the two copies of a read produce is the run of oldest bytes |
| RingBuffers.WriteIsRun | engine/net/ring_buffer.cpp:73-78 | after the two copies of a write every waiting byte, old and new, is in the cell of its position |
| RingBuffers.OldCell | engine/net/ring_buffer.cpp:73-78 | a cell with an unread byte is outside both segments of a write |
| RingLocked.ActsAsQueue | engine/net/ring_buffer.cpp:51-81 | linearizability for any number of threads: the calls finished so far, done one by one on a bounded queue in the order of their index stores, return what they returned and leave exactly the waiting bytes |
| RingLocked.FinishesItsCall | engine/net/ring_buffer.cpp:51-81 | the call a thread finishes under the lock is the one it entered with, with the same bytes or length, and no other call finishes in between |
| RingLocked.MutualExclusion | engine/thread/atom_spin_lock.h:16-23 | at most one thread is in a locked section, and the flag says whether one is |
| RingLocked.UnlockedLen | engine/net/ring_buffer.cpp:24-28 | `GetLen` without the lock is the true length if and only if the bytes taken out between its two loads are a multiple of 256 |
| RingLocked.UnlockedEmpty | engine/net/ring_buffer.cpp:35-38 | `IsEmpty` without the lock says "empty" if and only if the two positions loaded differ by a multiple of 256, which is right when nothing was taken out in between |
| RingLocked.SoleTakerExact | engine/net/ring_buffer.cpp:24-38 | for the only thread that reads or clears, unlocked `GetLen` and `IsEmpty` are exact whatever other threads do between the two loads |
| RingLocked.UnlockedGoesWrong | engine/net/ring_buffer.cpp:24-38 | a run of one write and one read in which an unlocked `GetLen` returns 1 for an empty buffer, and an unlocked `IsEmpty` says "not empty" of a buffer that is empty at both loads |
| RingSpsc.DeliversAPrefix | engine/net/ring_buffer_spsc.cpp:64-94 | in every interleaving the bytes read so far are a prefix of the bytes accepted so far |
| RingSpsc.TilesTheStream | engine/net/ring_buffer_spsc.cpp:57-94 | with `ResetOut` in the mix, reads and skips tile the accepted stream from its start, each read returning exactly the bytes at its place |
| RingCalls.WriteMoves | engine/net/ring_buffer_spsc.cpp:80-94 | in every interleaving a finished `WriteData` has put in all its bytes if there was room for them when it loaded `m_uOut`, and else exactly as many of the first as there was room for |
| RingCalls.ReadMoves | engine/net/ring_buffer_spsc.cpp:64-78 | in every interleaving a finished `ReadData` has taken out, in one piece, exactly the next min(len, bytes waiting when it loaded `m_uIn`) bytes of the stream |
| RingCalls.ResetSkips | engine/net/ring_buffer_spsc.cpp:57-62 | in every interleaving a finished `ResetOut` has skipped exactly the bytes that were waiting when it loaded `m_uIn` |
| RingSpsc.CopiesNeverOverlap | engine/net/ring_buffer_spsc.cpp:71-75 | the cells being filled and the cells being read are disjoint in every reachable state |
| RingSpsc.StaleIsSafe | engine/net/ring_buffer_spsc.cpp:64-94 | what a call decided to transfer never exceeds the present room or data, however stale its view |
| RingSpsc.LenUnderestimates | engine/net/ring_buffer_spsc.cpp:23-28 | the consumer's `GetLen` is the true length when `m_uIn` is loaded and at most any later length until it takes something out |
| RingSpsc.AvailUnderestimates | engine/net/ring_buffer_spsc.cpp:30-35 | the producer's `GetAvail` is the true room when `m_uOut` is loaded and at most any later room until it puts something in |
| RingSpsc.BothSidesProceed | engine/net/ring_buffer_spsc.cpp:57-94 | in every reachable state both sides have a step, so no call blocks the other and every copy stays in the array |
| RingSpsc.WriteReturns | engine/net/ring_buffer_spsc.cpp:80-94 | wait-freedom: a `WriteData` call takes at most len + 3 steps of its own, whatever the consumer does |
| RingSpsc.ReadReturns | engine/net/ring_buffer_spsc.cpp:64-78 | wait-freedom: a `ReadData` call takes at most len + 3 steps of its own, whatever the producer does |
| RingSpsc.StepKeeps | engine/net/ring_buffer_spsc.cpp:57-94 | the invariant on counters, room, data and bytes survives every step of either side |
| CircularQueue.CircularQ.constructor | include/spdlog/details/circular_q.h:17-20 | an empty queue of the given capacity, with one spare slot |
| CircularQueue.CircularQ.PushBack | include/spdlog/details/circular_q.h:23-33 | appends; when there was no room, drops the oldest item and counts it |
| CircularQueue.CircularQ.PopFront | include/spdlog/details/circular_q.h:37-41 | takes the oldest item |
| CircularQueue.CircularQ.Empty | include/spdlog/details/circular_q.h:43-46 | true if and only if there is no item |
| CircularQueue.CircularQ.Full | include/spdlog/details/circular_q.h:48-52 | true if and only if there are as many items as the capacity |
| CircularQueue.RingPush | include/spdlog/details/circular_q.h:23-33 | around the end of the array a push yields the old items and the new one, or all of these but the oldest |
| LogPoolShutdown.WakeupsNeverLost | include/spdlog/details/mpmc_blocking_q.h:32-66 | with a poster asleep, free slots are at most pending notifications plus woken posters; with a worker asleep, queued items likewise |
| LogPool.WakeupsKept | include/spdlog/details/mpmc_blocking_q.h:32-66 | every step, spurious wakeups and timeouts included, keeps those two inequalities |
| LogPoolShutdown.QueueConserves | include/spdlog/details/circular_q.h:23-52 | pushed = popped + waiting + overrun; popped items are an in-order subsequence of the pushed ones; the queue is the rest |
| LogPoolShutdown.BlockingIsFifo | include/spdlog/details/mpmc_blocking_q.h:32-40 | runs that only use the blocking policy lose nothing and pop in exact push order |
| LogPool.LedgerKept | include/spdlog/details/mpmc_blocking_q.h:32-66 | every step keeps the account of pushed, waiting, overrun and popped items |
| LogPool.AccountedKept | include/spdlog/details/thread_pool-inl.h:91-121 | every step keeps each popped item handled or in the hands of one worker, with multiplicity |
| LogPoolShutdown.StoppedMeansDrained | include/spdlog/details/thread_pool-inl.h:37-53 | when all workers have stopped, the queue is empty, each worker took exactly one terminate, the messages pushed are exactly the messages posted, with multiplicity, and each of them was handled exactly once unless it was overrun |
| LogPoolPosts.PostedArePushed | include/spdlog/details/thread_pool-inl.h:55-81 | in every run each message, terminates included, has been posted exactly as often as it was pushed and is still held by posting threads |
| LogPoolPosts.PushedInPostingOrder | include/spdlog/details/thread_pool-inl.h:71-81 | in every run the messages pushed by a thread are those it posted, in that order, up to the one it still holds |
| LogPoolPosts.OnlyBlockersWait | include/spdlog/details/mpmc_blocking_q.h:32-50 | a thread that waits for room was told to block by its last call, and waits with that call's message |
| LogPoolPosts.EnterFollowsPolicy | include/spdlog/details/mpmc_blocking_q.h:32-50 | when a call gets the mutex its very message is pushed, except that a blocking call waits while the queue is full; so a call with the overrun policy never waits and drops the oldest item of a full queue, and a blocking call never drops any |
| LogPoolShutdown.OrderlyKept | include/spdlog/details/thread_pool-inl.h:37-121 | terminates are conserved from not yet posted to received, and only terminates follow a terminate |
| LogPoolShutdown.NeverStuck | include/spdlog/details/thread_pool-inl.h:37-53 | during shutdown with capacity at least 1, some thread has a productive step until every worker can be joined |
| LogPoolShutdown.WorkFalls | include/spdlog/details/thread_pool-inl.h:37-121 | every step that posts, pushes, notifies, pops or handles lowers the work left; sleeping, giving up, timeouts and spurious wakeups leave it unchanged |
| LogPoolShutdown.ReadyStays | include/spdlog/details/mpmc_blocking_q.h:32-66 | a thread that has a productive step keeps it until some productive step is taken |
| LogPoolShutdown.FairShutdownEnds | include/spdlog/details/thread_pool-inl.h:37-53 | with capacity at least 1, every infinite weakly fair run in which the destructor has started reaches a state in which every worker has stopped and can be joined |
| LogPoolShutdown.ShutdownEnds | include/spdlog/details/thread_pool-inl.h:37-53 | from the destructor's start the productive steps of any run are at most the work at that moment, however many timeouts there are, and some thread has one until it is over |
| LogPoolShutdown.CanFinish | include/spdlog/details/thread_pool-inl.h:37-53 | every run in which the destructor has started extends by productive steps alone to one in which every worker has stopped |
| LogPoolShutdown.ZeroCapacityHangs | include/spdlog/details/mpmc_blocking_q.h:32-40 | with capacity 0 no worker ever stops |
| LuaClone.Clone | test/class.lua:1-17 | terminates on every finite graph, cycles and table keys included; a value that is not a table comes back as it is, a table as a fresh one; key by key, the entries and the metatable of each copy are those of its original, with every table in them replaced by its own fresh copy, and there are no other entries; no existing table changes |
| LuaClone.Cloner.Copy | test/class.lua:3-15 | extends the lookup table injectively; a value that is not a table is returned as it is, and everything newly copied is complete on return, given what is still being copied above it |
| LuaClone.Cloner.CopyEntries | test/class.lua:11-13 | in whatever order the entries come, the new table gets exactly the images of the entries |
| LuaClone.ScalarsAgree | test/class.lua:1-17 | a path of keys that are not tables leads to a given non-table value in the original if and only if the same path leads to that value in the clone |
| LuaClone.WalksAgree | test/class.lua:1-17 | a path of keys leads to a value in the original exactly when its image leads to the image of that value in the clone |
| LuaClone.SharingPreserved | test/class.lua:1-17 | two paths meet in the original if and only if their images meet in the clone |
| Decimal.CountDigitsExact | include/spdlog/fmt/bundled/format.h:767-774 | for every 64-bit number, and with the other table for every 32-bit one, the bit-length estimate corrected by one table lookup is the number of decimal digits |
| Decimal.DigitsBracket | include/spdlog/fmt/bundled/format.h:767-774 | with d digits, 10^(d-1) <= n < 10^d for n > 0 |
| Decimal.Fitted | include/spdlog/fmt/bundled/format.h:767-774 | for every bit length up to 64 the estimate brackets the power of two within one power of ten on either side |
| Decimal.TableIsPowers | include/spdlog/fmt/bundled/format-inl.h:286-296 | entry t of both literal tables is 10^t, and entry 0 is 0 |
| Decimal.CountDigitsLoop | include/spdlog/fmt/bundled/format.h:777-790 | the fallback loop returns the same number of digits |
| Decimal.PairsChecked | include/spdlog/fmt/bundled/format-inl.h:262-267 | entry v of the digit-pair table is the two digits of v |
| Decimal.FormatDecimal | include/spdlog/fmt/bundled/format.h:957-983 | the digits end up right-aligned in the field, exactly filling it when the digit count is exact, each cell holding the code of the digit of its power of ten, and nothing else changes |
| Decimal.ParseNonnegativeInt | include/spdlog/fmt/bundled/format.h:1453-1477 | the value of the leading run of digits and its end, or "too big" exactly when it exceeds `INT_MAX`; what is read has codes 48 to 57 and what follows has not; a leading zero stands alone; a single digit with code c is c - 48; the `unsigned` never wraps |
| Decimal.DigitCodes | include/spdlog/fmt/bundled/format.h:957-983 | the i-th character from the right of the decimal form has the code 48 + n / 10^i % 10 |
| Decimal.RoundTrip | include/spdlog/fmt/bundled/format.h:1453-1477 | parsing a printed number gives it back and stops behind it if and only if it is at most `INT_MAX`, and reports "too big" for every larger one |
| FpMultiply.TimesRounds | include/spdlog/fmt/bundled/format-inl.h:442-451 | for all 64-bit significands the product is floor((x.f * y.f + 2^63) / 2^64) |
| FpMultiply.NoWrap | include/spdlog/fmt/bundled/format-inl.h:442-451 | neither sum leaves 64 bits |

## Left out

- WheelTheorems.FiresInOrder: is about pairs of timers added with `time >= 0`; with a passed one the order can fail (`PassedOvertakes`).
- WheelMachine.RunRefines: only runs in which no `time` is negative; a plain sequence of deadlines does not describe passed timers. `FiresExactlyOnce`, `FiresOnTime`, `InOnePlace` and `FiresInOrder` are about all runs.
- Reading the wall clock (`GetTime`): its result is a parameter of the constructor and of `UpdateTime`.
- The destructor of the wheel, which leaks pending nodes, and `TimerCallBack::Cancel`, which is empty.
- The lists 64 to 255 of each level row: they exist, as in the code, but nothing is ever linked into them.
- Two threads inside `Update` at once; the wheel has no protection against it beyond the lock.
- Helper methods of the class that the code does not have: building one list, list choice and linking in `AddNode`, taking the lock in `Update`, rounds in `TimerExecute`, one iteration of `DispatchList`, the cascade loop of `TimerShift`; the order of writes is the code's.
- RingBuffers.RingBuffer.ReadData: one call at a time; the spin lock and interleaved callers are in `RingLocked`.
- RingBuffers.RingBuffer.GetLen: one call at a time; what an unlocked read sees is `RingLocked.UnlockedLen`.
- RingBuffers.RingBuffer.GetAvail: one call at a time; the order of its unlocked loads is not fixed by the code.
- RingBuffers.RingBuffer.IsEmpty: one call at a time; what an unlocked read sees is `RingLocked.UnlockedEmpty`.
- RingBuffers.RingBuffer.IsFull: one call at a time; its unlocked reads are those of `GetLen` in the other order.
- `Reset` of the locked buffer while other threads use it; the class covers it between calls.
- `RingBufferDN` (the same algorithm under a mutex), `Reset` of the lock-free buffer while threads run, `IsEmpty` and `IsFull` of the lock-free buffer, `TryLock` and `IsPowerOf2`.
- Memory orderings weaker than sequential consistency.
- The class declaration of the lock-free buffer, which is not part of this model: runs start in the state `Reset` leaves.
- Sections under `queue_mutex_` are single steps, so waiting for the mutex itself is not visible; the MinGW versions of the queue operations are not modelled.
- `size_t` wrap-around of the queue's capacity and overrun counter.
- Lua's `__metatable` and `__pairs` hooks, NaN keys and the order in which `pairs` visits entries (any order is allowed).
- Constructor ordering of `cls.New` and `IsSuperCtor` in `test/class.lua`.
- Thousands separators in `format_decimal`, the output-iterator overload, and the Grisu functions around the product.
- `HashIDGenerator`, `NetService`, sockets, the Lua bridge, the Redis connector, object pools, sinks, patterns and locales.
