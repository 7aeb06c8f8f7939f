/**
 The asynchronous logger's queue and worker pool as a protocol: posting threads, worker threads, one
 mutex, two condition variables, notification after the mutex is released, an overrun policy, and a
 destructor that posts one terminate message per worker and joins.

 A section under `queue_mutex_` is one step, since the queue is only touched under it; every
 `notify_one` is a step of its own.
 */
module LogPool {
  import opened CircularQueue

  datatype Msg = Log(id: nat) | Flush(id: nat) | Terminate

  /** A message in the queue, with its position in the order of pushes. */
  datatype Item = Item(msg: Msg, serial: nat)

  /** A message a worker has finished with. */
  datatype Done = Done(worker: nat, item: Item)

  /** A posting thread.  `woken`: it has left `pop_cv_` and not yet looked at the queue again. */
  datatype Poster =
    | PIdle
    | PTry(msg: Msg, block: bool, woken: bool)
    | PWait(msg: Msg)
    | PNotify

  /** A worker.  `woken`: it has left `push_cv_` and not yet looked again; `expired`: by timeout. */
  datatype Worker =
    | WTry(woken: bool, expired: bool)
    | WWait
    | WNotify(item: Item)
    | WHandle(item: Item)
    | WDone

  /** `posters[0]` is the thread that runs the destructor; `left` terminates are still to be posted.
      The rest is history: `fates` tells of every
      item that has left the queue, in order, whether a worker took it (true) or it was overrun. */
  datatype State = State(
    q: Bounded<Item>, posters: seq<Poster>, workers: seq<Worker>, closing: bool, left: nat,
    pushed: seq<Item>, fates: seq<bool>, popped: seq<Item>, handled: seq<Done>)

  ghost predicate Init(s: State) {
    && s.q.items == [] && s.q.overrun == 0
    && |s.posters| >= 1 && (forall i :: 0 <= i < |s.posters| ==> s.posters[i] == PIdle)
    && 1 <= |s.workers| <= 1000 && (forall w :: 0 <= w < |s.workers| ==> s.workers[w] == WTry(false, false))
    && !s.closing && s.left == 0
    && s.pushed == [] && s.fates == [] && s.popped == [] && s.handled == []
  }

  function Count<T>(xs: seq<T>, f: T -> bool): nat {
    if xs == [] then 0 else (if f(xs[0]) then 1 else 0) + Count(xs[1..], f)
  }

  predicate PWaits(p: Poster) { p.PWait? }
  predicate PWoken(p: Poster) { p.PTry? && p.woken }
  predicate PNotifies(p: Poster) { p.PNotify? }
  predicate WWaits(w: Worker) { w.WWait? }
  predicate WWoken(w: Worker) { w.WTry? && w.woken }
  predicate WNotifies(w: Worker) { w.WNotify? }
  predicate WIsDone(w: Worker) { w.WDone? }
  predicate IsStop(x: Item) { x.msg.Terminate? }
  predicate WHoldsStop(w: Worker) { (w.WNotify? || w.WHandle?) && IsStop(w.item) }

  datatype Act =
    | Post(i: nat, msg: Msg, block: bool)
    | Close
    | PostTerminate
    | Enter(i: nat)
    | NotifyPush(i: nat, w: nat)
    | Try(w: nat)
    | NotifyPop(w: nat, i: nat)
    | Handle(w: nat)
    | WakePoster(i: nat)
    | WakeWorker(w: nat, timeout: bool)

  /** A client starts to post a log or flush message; nothing is posted once the destructor runs. */
  ghost predicate Posts(s: State, s': State, i: nat, msg: Msg, block: bool) {
    && !s.closing && i < |s.posters| && s.posters[i] == PIdle && !msg.Terminate?
    && s' == s.(posters := s.posters[i := PTry(msg, block, false)])
  }

  ghost predicate Closes(s: State, s': State) {
    && !s.closing && (forall i :: 0 <= i < |s.posters| ==> s.posters[i] == PIdle)
    && s' == s.(closing := true, left := |s.workers|)
  }

  ghost predicate PostsTerminate(s: State, s': State) {
    && s.closing && s.left > 0 && |s.posters| > 0 && s.posters[0] == PIdle
    && s' == s.(left := s.left - 1, posters := s.posters[0 := PTry(Terminate, true, false)])
  }

  ghost function AfterPush(s: State, i: nat, msg: Msg): State
    requires i < |s.posters|
  {
    var x := Item(msg, |s.pushed|);
    s.(q := s.q.PushBack(x), posters := s.posters[i := PNotify], pushed := s.pushed + [x],
       fates := if |s.q.items| < s.q.capacity then s.fates else s.fates + [false])
  }

  /** The locked section of `enqueue` and `enqueue_nowait`. */
  ghost predicate Enters(s: State, s': State, i: nat) {
    && i < |s.posters| && s.posters[i].PTry?
    && s' == if s.posters[i].block && s.q.Full() then s.(posters := s.posters[i := PWait(s.posters[i].msg)])
             else AfterPush(s, i, s.posters[i].msg)
  }

  /** `push_cv_.notify_one()`: wakes some waiting worker if there is one. */
  ghost predicate NotifiesPush(s: State, s': State, i: nat, w: nat) {
    && i < |s.posters| && s.posters[i] == PNotify
    && if Count(s.workers, WWaits) == 0 then s' == s.(posters := s.posters[i := PIdle])
       else && w < |s.workers| && s.workers[w].WWait?
            && s' == s.(posters := s.posters[i := PIdle], workers := s.workers[w := WTry(true, false)])
  }

  ghost function AfterPop(s: State, w: nat): State
    requires w < |s.workers| && s.q.items != []
  {
    s.(q := s.q.PopFront(), workers := s.workers[w := WNotify(s.q.items[0])],
       popped := s.popped + [s.q.items[0]], fates := s.fates + [true])
  }

  /** The locked section of `dequeue_for`: take an item, or wait, or give up after a timeout. */
  ghost predicate Tries(s: State, s': State, w: nat) {
    && w < |s.workers| && s.workers[w].WTry?
    && s' == if s.q.items != [] then AfterPop(s, w)
             else s.(workers := s.workers[w := if s.workers[w].expired then WTry(false, false) else WWait])
  }

  /** `pop_cv_.notify_one()`: wakes some waiting poster if there is one. */
  ghost predicate NotifiesPop(s: State, s': State, w: nat, i: nat) {
    && w < |s.workers| && s.workers[w].WNotify?
    && var ws := s.workers[w := WHandle(s.workers[w].item)];
       if Count(s.posters, PWaits) == 0 then s' == s.(workers := ws)
       else && i < |s.posters| && s.posters[i].PWait?
            && s' == s.(workers := ws, posters := s.posters[i := PTry(s.posters[i].msg, true, true)])
  }

  /** The rest of `process_next_msg_`: a terminate message ends the worker's loop. */
  ghost predicate Handles(s: State, s': State, w: nat) {
    && w < |s.workers| && s.workers[w].WHandle?
    && s' == s.(handled := s.handled + [Done(w, s.workers[w].item)],
                workers := s.workers[w := if IsStop(s.workers[w].item) then WDone else WTry(false, false)])
  }

  /** A spurious wakeup on `pop_cv_`. */
  ghost predicate PosterWakes(s: State, s': State, i: nat) {
    && i < |s.posters| && s.posters[i].PWait?
    && s' == s.(posters := s.posters[i := PTry(s.posters[i].msg, true, true)])
  }

  /** A spurious wakeup or a timeout on `push_cv_`. */
  ghost predicate WorkerWakes(s: State, s': State, w: nat, timeout: bool) {
    && w < |s.workers| && s.workers[w].WWait?
    && s' == s.(workers := s.workers[w := WTry(true, timeout)])
  }

  ghost predicate Does(s: State, a: Act, s': State) {
    match a
    case Post(i, msg, block) => Posts(s, s', i, msg, block)
    case Close => Closes(s, s')
    case PostTerminate => PostsTerminate(s, s')
    case Enter(i) => Enters(s, s', i)
    case NotifyPush(i, w) => NotifiesPush(s, s', i, w)
    case Try(w) => Tries(s, s', w)
    case NotifyPop(w, i) => NotifiesPop(s, s', w, i)
    case Handle(w) => Handles(s, s', w)
    case WakePoster(i) => PosterWakes(s, s', i)
    case WakeWorker(w, timeout) => WorkerWakes(s, s', w, timeout)
  }

  /** Act `k` leads from state `k` to the next. */
  ghost predicate DoesAt(states: seq<State>, acts: seq<Act>, k: nat)
    requires |states| == |acts| + 1 && k < |acts|
  {
    Does(states[k], acts[k], states[k + 1])
  }

  ghost predicate IsRun(states: seq<State>, acts: seq<Act>) {
    && |states| == |acts| + 1 && Init(states[0])
    && forall k: nat :: k < |acts| ==> DoesAt(states, acts, k)
  }

  // Counting.

  function Bit(b: bool): nat { if b then 1 else 0 }

  lemma {:induction false} CountSet<T>(xs: seq<T>, i: nat, x: T, f: T -> bool)
    requires i < |xs|
    ensures Count(xs[i := x], f) + Bit(f(xs[i])) == Count(xs, f) + Bit(f(x))
  {
    if i == 0 {
      assert xs[0 := x][1..] == xs[1..];
    } else {
      CountSet(xs[1..], i - 1, x, f);
      assert xs[i := x][1..] == xs[1..][i - 1 := x];
    }
  }

  lemma {:induction false} CountAppend<T>(xs: seq<T>, ys: seq<T>, f: T -> bool)
    ensures Count(xs + ys, f) == Count(xs, f) + Count(ys, f)
  {
    if xs == [] {
      assert xs + ys == ys;
    } else {
      CountAppend(xs[1..], ys, f);
      assert (xs + ys)[1..] == xs[1..] + ys;
    }
  }

  /** A count is positive exactly when some element qualifies, and full exactly when all do. */
  lemma {:induction false} CountMeaning<T>(xs: seq<T>, f: T -> bool)
    ensures Count(xs, f) <= |xs|
    ensures Count(xs, f) > 0 <==> exists i :: 0 <= i < |xs| && f(xs[i])
    ensures Count(xs, f) == |xs| <==> forall i :: 0 <= i < |xs| ==> f(xs[i])
  {
    if xs == [] {
    } else {
      CountMeaning(xs[1..], f);
      assert forall i :: 0 <= i < |xs[1..]| ==> xs[1..][i] == xs[i + 1];
      if exists i :: 0 <= i < |xs| && f(xs[i]) {
        var i :| 0 <= i < |xs| && f(xs[i]);
        assert i > 0 ==> f(xs[1..][i - 1]);
      }
      if forall i :: 0 <= i < |xs[1..]| ==> f(xs[1..][i]) {
        assert forall i :: 0 < i < |xs| ==> xs[i] == xs[1..][i - 1];
      }
    }
  }

  lemma PosterCounts(ps: seq<Poster>, i: nat, p: Poster)
    requires i < |ps|
    ensures Count(ps[i := p], PWaits) + Bit(ps[i].PWait?) == Count(ps, PWaits) + Bit(p.PWait?)
    ensures Count(ps[i := p], PWoken) + Bit(PWoken(ps[i])) == Count(ps, PWoken) + Bit(PWoken(p))
    ensures Count(ps[i := p], PNotifies) + Bit(ps[i].PNotify?) == Count(ps, PNotifies) + Bit(p.PNotify?)
  {
    CountSet(ps, i, p, PWaits);
    CountSet(ps, i, p, PWoken);
    CountSet(ps, i, p, PNotifies);
  }

  lemma WorkerCounts(ws: seq<Worker>, i: nat, w: Worker)
    requires i < |ws|
    ensures Count(ws[i := w], WWaits) + Bit(ws[i].WWait?) == Count(ws, WWaits) + Bit(w.WWait?)
    ensures Count(ws[i := w], WWoken) + Bit(WWoken(ws[i])) == Count(ws, WWoken) + Bit(WWoken(w))
    ensures Count(ws[i := w], WNotifies) + Bit(ws[i].WNotify?) == Count(ws, WNotifies) + Bit(w.WNotify?)
    ensures Count(ws[i := w], WIsDone) + Bit(ws[i].WDone?) == Count(ws, WIsDone) + Bit(w.WDone?)
    ensures Count(ws[i := w], WHoldsStop) + Bit(WHoldsStop(ws[i])) == Count(ws, WHoldsStop) + Bit(WHoldsStop(w))
  {
    CountSet(ws, i, w, WWaits);
    CountSet(ws, i, w, WWoken);
    CountSet(ws, i, w, WNotifies);
    CountSet(ws, i, w, WIsDone);
    CountSet(ws, i, w, WHoldsStop);
  }

  // No lost wakeup.

  /** With a poster asleep on `pop_cv_`, every free slot is matched by a pending notification or by a poster
      that is awake and about to look; with a worker asleep on `push_cv_`, so is every queued item. */
  ghost predicate NoLostWakeup(s: State) {
    && |s.q.items| <= s.q.capacity
    && (Count(s.posters, PWaits) > 0 ==>
          s.q.capacity - |s.q.items| <= Count(s.workers, WNotifies) + Count(s.posters, PWoken))
    && (Count(s.workers, WWaits) > 0 ==>
          |s.q.items| <= Count(s.posters, PNotifies) + Count(s.workers, WWoken))
  }

  lemma EnterKeepsWakeups(s: State, s': State, i: nat)
    requires NoLostWakeup(s) && Enters(s, s', i)
    ensures NoLostWakeup(s')
  {
    PosterCounts(s.posters, i, s'.posters[i]);
  }

  lemma NotifyPushKeepsWakeups(s: State, s': State, i: nat, w: nat)
    requires NoLostWakeup(s) && NotifiesPush(s, s', i, w)
    ensures NoLostWakeup(s')
  {
    PosterCounts(s.posters, i, PIdle);
    if Count(s.workers, WWaits) > 0 {
      WorkerCounts(s.workers, w, WTry(true, false));
    }
  }

  lemma TryKeepsWakeups(s: State, s': State, w: nat)
    requires NoLostWakeup(s) && Tries(s, s', w)
    ensures NoLostWakeup(s')
  {
    WorkerCounts(s.workers, w, s'.workers[w]);
  }

  lemma NotifyPopKeepsWakeups(s: State, s': State, w: nat, i: nat)
    requires NoLostWakeup(s) && NotifiesPop(s, s', w, i)
    ensures NoLostWakeup(s')
  {
    WorkerCounts(s.workers, w, WHandle(s.workers[w].item));
    if Count(s.posters, PWaits) > 0 {
      PosterCounts(s.posters, i, PTry(s.posters[i].msg, true, true));
    }
  }

  lemma WakeupsKept(s: State, a: Act, s': State)
    requires NoLostWakeup(s) && Does(s, a, s')
    ensures NoLostWakeup(s')
  {
    match a
    case Post(i, msg, block) => PosterCounts(s.posters, i, PTry(msg, block, false));
    case Close =>
    case PostTerminate => PosterCounts(s.posters, 0, PTry(Terminate, true, false));
    case Enter(i) => EnterKeepsWakeups(s, s', i);
    case NotifyPush(i, w) => NotifyPushKeepsWakeups(s, s', i, w);
    case Try(w) => TryKeepsWakeups(s, s', w);
    case NotifyPop(w, i) => NotifyPopKeepsWakeups(s, s', w, i);
    case Handle(w) => WorkerCounts(s.workers, w, s'.workers[w]);
    case WakePoster(i) => PosterCounts(s.posters, i, s'.posters[i]);
    case WakeWorker(w, timeout) => WorkerCounts(s.workers, w, s'.workers[w]);
  }

  // Conservation and order.

  /** The items a worker took, in push order. */
  function Chosen(pushed: seq<Item>, fates: seq<bool>): seq<Item>
    requires |fates| <= |pushed|
  {
    if fates == [] then []
    else
      var n := |fates| - 1;
      Chosen(pushed, fates[..n]) + (if fates[n] then [pushed[n]] else [])
  }

  function Lost(fates: seq<bool>): nat {
    if fates == [] then 0
    else Lost(fates[..|fates| - 1]) + Bit(!fates[|fates| - 1])
  }

  /** Pushed = popped + waiting + overrun; the queue is the rest of the pushes; what was popped is the
      in-order subsequence the fates pick. */
  ghost predicate Ledger(s: State) {
    && |s.q.items| <= s.q.capacity
    && |s.pushed| == |s.fates| + |s.q.items|
    && s.q.items == s.pushed[|s.fates|..]
    && s.q.overrun == Lost(s.fates)
    && s.popped == Chosen(s.pushed, s.fates)
    && (forall k :: 0 <= k < |s.pushed| ==> s.pushed[k].serial == k)
  }

  lemma {:induction false} ChosenGrows(pushed: seq<Item>, more: seq<Item>, fates: seq<bool>)
    requires |fates| <= |pushed|
    ensures Chosen(pushed + more, fates) == Chosen(pushed, fates)
  {
    if fates == [] {
    } else {
      ChosenGrows(pushed, more, fates[..|fates| - 1]);
    }
  }

  lemma FateAppended(pushed: seq<Item>, fates: seq<bool>, taken: bool)
    requires |fates| < |pushed|
    ensures Chosen(pushed, fates + [taken]) == Chosen(pushed, fates) + (if taken then [pushed[|fates|]] else [])
    ensures Lost(fates + [taken]) == Lost(fates) + Bit(!taken)
  {
    assert (fates + [taken])[..|fates|] == fates;
  }

  lemma PushKeepsLedger(s: State, i: nat, msg: Msg)
    requires Ledger(s) && i < |s.posters|
    ensures Ledger(AfterPush(s, i, msg))
  {
    var s', x := AfterPush(s, i, msg), Item(msg, |s.pushed|);
    ChosenGrows(s.pushed, [x], s.fates);
    assert s.q.items + [x] == s'.pushed[|s.fates|..];
    if |s.q.items| == s.q.capacity {
      FateAppended(s'.pushed, s.fates, false);
    }
  }

  lemma PopKeepsLedger(s: State, w: nat)
    requires Ledger(s) && w < |s.workers| && s.q.items != []
    ensures Ledger(AfterPop(s, w))
  {
    FateAppended(s.pushed, s.fates, true);
  }

  lemma LedgerKept(s: State, a: Act, s': State)
    requires Ledger(s) && Does(s, a, s')
    ensures Ledger(s')
  {
    match a
    case Enter(i) =>
      if !(s.posters[i].block && s.q.Full()) {
        PushKeepsLedger(s, i, s.posters[i].msg);
      }
    case Try(w) =>
      if s.q.items != [] {
        PopKeepsLedger(s, w);
      }
    case _ =>
  }

  ghost predicate Holds(w: Worker, x: Item) {
    (w.WNotify? || w.WHandle?) && w.item == x
  }

  /** How many workers have taken `x` and not finished with it. */
  ghost function HeldCount(ws: seq<Worker>, x: Item): nat {
    if ws == [] then 0 else Bit(Holds(ws[0], x)) + HeldCount(ws[1..], x)
  }

  lemma {:induction false} HeldSet(ws: seq<Worker>, i: nat, w: Worker, x: Item)
    requires i < |ws|
    ensures HeldCount(ws[i := w], x) + Bit(Holds(ws[i], x)) == HeldCount(ws, x) + Bit(Holds(w, x))
  {
    if i == 0 {
      assert ws[0 := w][1..] == ws[1..];
    } else {
      HeldSet(ws[1..], i - 1, w, x);
      assert ws[i := w][1..] == ws[1..][i - 1 := w];
    }
  }

  /** How often `x` has been handled. */
  ghost function HandledCount(hs: seq<Done>, x: Item): nat {
    if hs == [] then 0 else HandledCount(hs[..|hs| - 1], x) + Bit(hs[|hs| - 1].item == x)
  }

  lemma HandledAppend(hs: seq<Done>, d: Done, x: Item)
    ensures HandledCount(hs + [d], x) == HandledCount(hs, x) + Bit(d.item == x)
  {
    assert (hs + [d])[..|hs|] == hs;
  }

  ghost predicate AccountedItem(s: State, x: Item) {
    multiset(s.popped)[x] == HandledCount(s.handled, x) + HeldCount(s.workers, x)
  }

  /** Every popped item has been handled, or is in the hands of one worker. */
  ghost predicate Accounted(s: State) {
    forall x :: AccountedItem(s, x)
  }

  lemma AppendCounts(xs: seq<Item>, y: Item, x: Item)
    ensures multiset(xs + [y])[x] == multiset(xs)[x] + Bit(x == y)
  {
  }

  lemma NotifyPushKeepsItem(s: State, s': State, i: nat, w: nat, x: Item)
    requires AccountedItem(s, x) && NotifiesPush(s, s', i, w)
    ensures AccountedItem(s', x)
  {
    if Count(s.workers, WWaits) > 0 {
      HeldSet(s.workers, w, WTry(true, false), x);
    }
  }

  lemma NotifyPopKeepsItem(s: State, s': State, w: nat, i: nat, x: Item)
    requires AccountedItem(s, x) && NotifiesPop(s, s', w, i)
    ensures AccountedItem(s', x)
  {
    HeldSet(s.workers, w, WHandle(s.workers[w].item), x);
  }

  lemma HandleKeepsItem(s: State, s': State, w: nat, x: Item)
    requires AccountedItem(s, x) && Handles(s, s', w)
    ensures AccountedItem(s', x)
  {
    HeldSet(s.workers, w, s'.workers[w], x);
    HandledAppend(s.handled, Done(w, s.workers[w].item), x);
  }

  lemma TryKeepsItem(s: State, s': State, w: nat, x: Item)
    requires AccountedItem(s, x) && Tries(s, s', w)
    ensures AccountedItem(s', x)
  {
    if s.q.items != [] {
      HeldSet(s.workers, w, WNotify(s.q.items[0]), x);
      AppendCounts(s.popped, s.q.items[0], x);
    } else {
      HeldSet(s.workers, w, if s.workers[w].expired then WTry(false, false) else WWait, x);
    }
  }

  lemma ItemKept(s: State, a: Act, s': State, x: Item)
    requires AccountedItem(s, x) && Does(s, a, s')
    ensures AccountedItem(s', x)
  {
    match a
    case NotifyPush(i, w) => NotifyPushKeepsItem(s, s', i, w, x);
    case Try(w) => TryKeepsItem(s, s', w, x);
    case NotifyPop(w, i) => NotifyPopKeepsItem(s, s', w, i, x);
    case Handle(w) => HandleKeepsItem(s, s', w, x);
    case WakeWorker(w, timeout) => HeldSet(s.workers, w, WTry(true, timeout), x);
    case _ => hide HeldCount;
  }

  lemma AccountedKept(s: State, a: Act, s': State)
    requires Accounted(s) && Does(s, a, s')
    ensures Accounted(s')
  {
    hide Does;
    forall x ensures AccountedItem(s', x) {
      assert AccountedItem(s, x);
      ItemKept(s, a, s', x);
    }
  }
}
