/**
 What every run of the logger's queue and pool guarantees, and that shutting the pool down ends.
 */
module LogPoolShutdown {
  import opened LogPool
  import opened LogPoolPosts

  // Terminate messages.

  function StopsHeld(p: Poster): nat {
    Bit((p.PTry? || p.PWait?) && p.msg.Terminate?)
  }

  /** What the destructor's thread can be doing. */
  predicate Stopper(p: Poster) {
    match p
    case PTry(msg, block, woken) => msg.Terminate? && block
    case PWait(msg) => msg.Terminate?
    case _ => true
  }

  /** The terminate messages, from not yet posted to received. */
  ghost function Stops(s: State): nat
    requires |s.posters| >= 1
  {
    s.left + StopsHeld(s.posters[0]) + Count(s.q.items, IsStop)
    + Count(s.workers, WHoldsStop) + Count(s.workers, WIsDone)
  }

  ghost predicate StopsLast(items: seq<Item>) {
    forall j, k :: 0 <= j < k < |items| && IsStop(items[j]) ==> IsStop(items[k])
  }

  ghost predicate Orderly(s: State) {
    && |s.posters| >= 1 && |s.workers| >= 1
    && (!s.closing ==>
          && s.left == 0 && (forall i :: 0 <= i < |s.posters| ==> StopsHeld(s.posters[i]) == 0)
          && Stops(s) == 0)
    && (s.closing ==>
          && (forall i :: 1 <= i < |s.posters| ==> s.posters[i] == PIdle)
          && Stopper(s.posters[0])
          && Stops(s) == |s.workers|
          && StopsLast(s.q.items)
          && (Count(s.workers, WHoldsStop) + Count(s.workers, WIsDone) > 0 ==>
                forall k :: 0 <= k < |s.q.items| ==> IsStop(s.q.items[k])))
  }

  lemma PushedStops(items: seq<Item>, x: Item)
    ensures Count(items + [x], IsStop) == Count(items, IsStop) + Bit(IsStop(x))
    ensures items != [] ==>
              Count((items + [x])[1..], IsStop) + Bit(IsStop(items[0])) == Count(items, IsStop) + Bit(IsStop(x))
    ensures items == [] ==> (items + [x])[1..] == []
  {
    CountAppend(items, [x], IsStop);
  }

  lemma EnterOrderly(s: State, s': State, i: nat)
    requires Orderly(s) && |s.q.items| <= s.q.capacity && Enters(s, s', i)
    ensures Orderly(s')
  {
    var x := Item(s.posters[i].msg, |s.pushed|);
    PushedStops(s.q.items, x);
    if !(s.posters[i].block && s.q.Full()) {
      if s.closing {
        assert i == 0;
      } else {
        assert StopsHeld(s.posters[i]) == 0;
      }
    }
  }

  lemma TryOrderly(s: State, s': State, w: nat)
    requires Orderly(s) && Tries(s, s', w)
    ensures Orderly(s')
  {
    WorkerCounts(s.workers, w, s'.workers[w]);
    if s.q.items != [] {
      assert s'.q.items == s.q.items[1..];
      assert forall k :: 0 <= k < |s'.q.items| ==> s'.q.items[k] == s.q.items[k + 1];
    }
  }

  lemma HandleOrderly(s: State, s': State, w: nat)
    requires Orderly(s) && Handles(s, s', w)
    ensures Orderly(s')
  {
    WorkerCounts(s.workers, w, s'.workers[w]);
  }

  lemma NotifyPushOrderly(s: State, s': State, i: nat, w: nat)
    requires Orderly(s) && NotifiesPush(s, s', i, w)
    ensures Orderly(s')
  {
    if Count(s.workers, WWaits) > 0 {
      WorkerCounts(s.workers, w, s'.workers[w]);
    }
  }

  lemma NotifyPopOrderly(s: State, s': State, w: nat, i: nat)
    requires Orderly(s) && NotifiesPop(s, s', w, i)
    ensures Orderly(s')
  {
    WorkerCounts(s.workers, w, WHandle(s.workers[w].item));
    if Count(s.posters, PWaits) > 0 {
      assert StopsHeld(s'.posters[i]) == StopsHeld(s.posters[i]);
    }
  }

  lemma WakeOrderly(s: State, a: Act, s': State)
    requires Orderly(s) && (a.WakePoster? || a.WakeWorker?) && Does(s, a, s')
    ensures Orderly(s')
  {
    if a.WakeWorker? {
      WorkerCounts(s.workers, a.w, s'.workers[a.w]);
    } else {
      assert StopsHeld(s'.posters[a.i]) == StopsHeld(s.posters[a.i]);
    }
  }

  lemma CloseOrderly(s: State, s': State)
    requires Orderly(s) && Closes(s, s')
    ensures Orderly(s')
  {
    CountMeaning(s.q.items, IsStop);
  }

  lemma PostOrderly(s: State, a: Act, s': State)
    requires Orderly(s) && (a.Post? || a.PostTerminate?) && Does(s, a, s')
    ensures Orderly(s')
  {
  }

  lemma OrderlyKept(s: State, a: Act, s': State)
    requires Orderly(s) && |s.q.items| <= s.q.capacity && Does(s, a, s')
    ensures Orderly(s')
  {
    hide Orderly;
    match a
    case Post(i, msg, block) => PostOrderly(s, a, s');
    case Close => CloseOrderly(s, s');
    case PostTerminate => PostOrderly(s, a, s');
    case Enter(i) => EnterOrderly(s, s', i);
    case Try(w) => TryOrderly(s, s', w);
    case Handle(w) => HandleOrderly(s, s', w);
    case NotifyPush(i, w) => NotifyPushOrderly(s, s', i, w);
    case NotifyPop(w, i) => NotifyPopOrderly(s, s', w, i);
    case _ => WakeOrderly(s, a, s');
  }

  /** How many terminate messages worker `w` has taken. */
  ghost function StopsTaken(hs: seq<Done>, w: nat): nat {
    if hs == [] then 0
    else StopsTaken(hs[..|hs| - 1], w) + Bit(hs[|hs| - 1].worker == w && IsStop(hs[|hs| - 1].item))
  }

  /** A worker has stopped if and only if it has taken a terminate message, and it takes no second one. */
  ghost predicate OneStopEach(s: State) {
    forall w :: 0 <= w < |s.workers| ==> StopsTaken(s.handled, w) == Bit(s.workers[w].WDone?)
  }

  lemma StopsTakenAppend(hs: seq<Done>, d: Done, w: nat)
    ensures StopsTaken(hs + [d], w) == StopsTaken(hs, w) + Bit(d.worker == w && IsStop(d.item))
  {
    assert (hs + [d])[..|hs|] == hs;
  }

  lemma OneStopKept(s: State, a: Act, s': State)
    requires OneStopEach(s) && Does(s, a, s')
    ensures OneStopEach(s')
  {
    if a.Handle? {
      var d := Done(a.w, s.workers[a.w].item);
      forall w | 0 <= w < |s'.workers| ensures StopsTaken(s'.handled, w) == Bit(s'.workers[w].WDone?) {
        StopsTakenAppend(s.handled, d, w);
      }
    } else {
      assert s'.handled == s.handled && |s'.workers| == |s.workers|;
      assert forall w :: 0 <= w < |s.workers| ==> (s'.workers[w].WDone? <==> s.workers[w].WDone?);
    }
  }

  ghost predicate Inv(s: State) {
    NoLostWakeup(s) && Ledger(s) && Accounted(s) && Orderly(s) && OneStopEach(s)
  }

  lemma {:induction false} AllZero<T>(xs: seq<T>, f: T -> bool)
    requires forall k :: 0 <= k < |xs| ==> !f(xs[k])
    ensures Count(xs, f) == 0
  {
    CountMeaning(xs, f);
  }

  lemma {:induction false} NobodyHolds(ws: seq<Worker>, x: Item)
    requires forall k :: 0 <= k < |ws| ==> !Holds(ws[k], x)
    ensures HeldCount(ws, x) == 0
  {
    if ws == [] {
    } else {
      NobodyHolds(ws[1..], x);
    }
  }

  lemma InitInv(s: State)
    requires Init(s)
    ensures Inv(s)
  {
    AllZero(s.posters, PWaits);
    AllZero(s.workers, WWaits);
    AllZero(s.workers, WHoldsStop);
    AllZero(s.workers, WIsDone);
    forall x ensures AccountedItem(s, x) {
      NobodyHolds(s.workers, x);
    }
  }

  lemma StepInv(s: State, a: Act, s': State)
    requires Inv(s) && Does(s, a, s')
    ensures Inv(s')
  {
    hide Does, NoLostWakeup, Accounted, Orderly, OneStopEach;
    OneStopKept(s, a, s');
    WakeupsKept(s, a, s');
    LedgerKept(s, a, s');
    AccountedKept(s, a, s');
    OrderlyKept(s, a, s');
  }

  lemma {:induction false} RunInv(states: seq<State>, acts: seq<Act>, k: nat)
    requires IsRun(states, acts) && k <= |acts|
    ensures Inv(states[k])
  {
    if k == 0 {
      InitInv(states[0]);
    } else {
      RunInv(states, acts, k - 1);
      assert DoesAt(states, acts, k - 1);
      StepInv(states[k - 1], acts[k - 1], states[k]);
    }
  }

  ghost function Last(states: seq<State>): State
    requires states != []
  {
    states[|states| - 1]
  }

  // Safety of every run.

  /** No wakeup is lost: a poster asleep while there is room, or a worker asleep while there is work, is
      always covered by a pending notification or by another thread about to look. */
  lemma WakeupsNeverLost(states: seq<State>, acts: seq<Act>)
    requires IsRun(states, acts)
    ensures var s := Last(states);
            && (Count(s.posters, PWaits) > 0 ==>
                  s.q.capacity - |s.q.items| <= Count(s.workers, WNotifies) + Count(s.posters, PWoken))
            && (Count(s.workers, WWaits) > 0 ==>
                  |s.q.items| <= Count(s.posters, PNotifies) + Count(s.workers, WWoken))
  {
    RunInv(states, acts, |acts|);
  }

  lemma {:induction false} ChosenLength(pushed: seq<Item>, fates: seq<bool>)
    requires |fates| <= |pushed|
    ensures |Chosen(pushed, fates)| + Lost(fates) == |fates|
  {
    if fates == [] {
    } else {
      ChosenLength(pushed, fates[..|fates| - 1]);
    }
  }

  /** Pushed = popped + waiting + overrun, and what was popped is an in-order subsequence of the pushes. */
  lemma QueueConserves(states: seq<State>, acts: seq<Act>)
    requires IsRun(states, acts)
    ensures var s := Last(states);
            && |s.pushed| == |s.popped| + |s.q.items| + s.q.overrun
            && |s.fates| <= |s.pushed| && s.popped == Chosen(s.pushed, s.fates)
            && s.q.items == s.pushed[|s.fates|..]
  {
    RunInv(states, acts, |acts|);
    ChosenLength(Last(states).pushed, Last(states).fates);
  }

  lemma {:induction false} NothingLost(pushed: seq<Item>, fates: seq<bool>)
    requires |fates| <= |pushed| && Lost(fates) == 0
    ensures Chosen(pushed, fates) == pushed[..|fates|]
  {
    if fates == [] {
    } else {
      NothingLost(pushed, fates[..|fates| - 1]);
    }
  }

  ghost predicate BlockingOnly(acts: seq<Act>) {
    forall k :: 0 <= k < |acts| && acts[k].Post? ==> acts[k].block
  }

  ghost predicate AllBlock(s: State) {
    && s.q.overrun == 0
    && forall i :: 0 <= i < |s.posters| && s.posters[i].PTry? ==> s.posters[i].block
  }

  lemma BlockingStep(s: State, a: Act, s': State)
    requires AllBlock(s) && |s.q.items| <= s.q.capacity && Does(s, a, s') && (a.Post? ==> a.block)
    ensures AllBlock(s')
  {
  }

  lemma {:induction false} BlockingRun(states: seq<State>, acts: seq<Act>, k: nat)
    requires IsRun(states, acts) && BlockingOnly(acts) && k <= |acts|
    ensures AllBlock(states[k])
  {
    if k == 0 {
    } else {
      BlockingRun(states, acts, k - 1);
      RunInv(states, acts, k - 1);
      assert DoesAt(states, acts, k - 1);
      BlockingStep(states[k - 1], acts[k - 1], states[k]);
    }
  }

  /** When every message is posted with the blocking policy, nothing is lost and messages come out in
      exactly the order they went in. */
  lemma BlockingIsFifo(states: seq<State>, acts: seq<Act>)
    requires IsRun(states, acts) && BlockingOnly(acts)
    ensures var s := Last(states);
            && s.q.overrun == 0 && |s.popped| <= |s.pushed|
            && s.popped == s.pushed[..|s.popped|] && s.q.items == s.pushed[|s.popped|..]
  {
    BlockingRun(states, acts, |acts|);
    QueueConserves(states, acts);
    var s := Last(states);
    RunInv(states, acts, |acts|);
    NothingLost(s.pushed, s.fates);
  }

  // After the workers have stopped.

  lemma ChosenLast(pushed: seq<Item>, fates: seq<bool>)
    requires fates != [] && |fates| <= |pushed|
    ensures var n := |fates| - 1;
            Chosen(pushed, fates) == Chosen(pushed, fates[..n]) + (if fates[n] then [pushed[n]] else [])
  {
  }

  lemma {:induction false} ChosenOnce(pushed: seq<Item>, fates: seq<bool>, k: nat)
    requires |fates| <= |pushed| && k < |pushed|
    requires forall j :: 0 <= j < |pushed| ==> pushed[j].serial == j
    ensures multiset(Chosen(pushed, fates))[pushed[k]] == Bit(k < |fates| && fates[k])
  {
    if fates == [] {
    } else {
      var n := |fates| - 1;
      ChosenOnce(pushed, fates[..n], k);
      ChosenLast(pushed, fates);
      hide Chosen;
      var before := Chosen(pushed, fates[..n]);
      if fates[n] {
        AppendCounts(before, pushed[n], pushed[k]);
      } else {
        assert before + [] == before;
      }
    }
  }

  lemma NobodyPosts(states: seq<State>, acts: seq<Act>)
    requires IsRun(states, acts)
    requires forall i :: 0 <= i < |Last(states).posters| ==> Holding(Last(states).posters[i]) == []
    ensures multiset(CallMsgs(Calls(acts))) == multiset(ItemMsgs(Last(states).pushed))
  {
    hide Does, Init, Holding;
    var s := Last(states);
    forall m ensures multiset(CallMsgs(Calls(acts)))[m] == multiset(ItemMsgs(s.pushed))[m] {
      PostedArePushed(states, acts, m);
      NoHolders(s.posters, m);
    }
  }

  /** When all workers have stopped, the queue is empty, each worker took exactly one terminate message,
      nothing is left to post; the messages posted are the messages pushed, and every one of these was
      handled exactly once unless it was overrun. */
  lemma StoppedMeansDrained(states: seq<State>, acts: seq<Act>)
    requires IsRun(states, acts)
    requires forall w :: 0 <= w < |Last(states).workers| ==> Last(states).workers[w] == WDone
    ensures var s := Last(states);
            && s.closing && s.q.items == [] && s.left == 0 && |s.fates| == |s.pushed|
            && (forall w :: 0 <= w < |s.workers| ==> StopsTaken(s.handled, w) == 1)
            && (forall k :: 0 <= k < |s.pushed| ==> HandledCount(s.handled, s.pushed[k]) == Bit(s.fates[k]))
            && multiset(CallMsgs(Calls(acts))) == multiset(ItemMsgs(s.pushed))
  {
    hide CallMsgs, ItemMsgs, Calls;
    var s := Last(states);
    RunInv(states, acts, |acts|);
    CountMeaning(s.workers, WIsDone);
    CountMeaning(s.q.items, IsStop);
    assert s.closing;
    assert Count(s.q.items, IsStop) == |s.q.items|;
    NobodyPosts(states, acts);
    forall k | 0 <= k < |s.pushed| ensures HandledCount(s.handled, s.pushed[k]) == Bit(s.fates[k]) {
      assert AccountedItem(s, s.pushed[k]);
      NobodyHolds(s.workers, s.pushed[k]);
      ChosenOnce(s.pushed, s.fates, k);
    }
  }

  // The shutdown ends.

  /** Work still to be done by a poster, and by a worker. */
  function PosterWork(p: Poster): nat {
    match p
    case PIdle => 0
    case PTry(_, _, _) => 5
    case PWait(_) => 5
    case PNotify => 1
  }

  function WorkerWork(w: Worker): nat {
    match w
    case WNotify(_) => 2
    case WHandle(_) => 1
    case _ => 0
  }

  function PostersWork(ps: seq<Poster>): nat {
    if ps == [] then 0 else PosterWork(ps[0]) + PostersWork(ps[1..])
  }

  function WorkersWork(ws: seq<Worker>): nat {
    if ws == [] then 0 else WorkerWork(ws[0]) + WorkersWork(ws[1..])
  }

  /** What is left to post, push, notify, pop and handle. */
  ghost function Work(s: State): nat {
    6 * s.left + PostersWork(s.posters) + 3 * |s.q.items| + WorkersWork(s.workers)
  }

  lemma {:induction false} PostersWorkSet(ps: seq<Poster>, i: nat, p: Poster)
    requires i < |ps|
    ensures PostersWork(ps[i := p]) + PosterWork(ps[i]) == PostersWork(ps) + PosterWork(p)
  {
    if i == 0 {
      assert ps[0 := p][1..] == ps[1..];
    } else {
      PostersWorkSet(ps[1..], i - 1, p);
      assert ps[i := p][1..] == ps[1..][i - 1 := p];
    }
  }

  lemma {:induction false} WorkersWorkSet(ws: seq<Worker>, i: nat, w: Worker)
    requires i < |ws|
    ensures WorkersWork(ws[i := w]) + WorkerWork(ws[i]) == WorkersWork(ws) + WorkerWork(w)
  {
    if i == 0 {
      assert ws[0 := w][1..] == ws[1..];
    } else {
      WorkersWorkSet(ws[1..], i - 1, w);
      assert ws[i := w][1..] == ws[1..][i - 1 := w];
    }
  }

  /** Steps that post, push, notify, pop or handle.  The others go to sleep, give up, or wake up unasked. */
  predicate Productive(s: State, a: Act) {
    match a
    case Enter(i) => i < |s.posters| && s.posters[i].PTry? && !(s.posters[i].block && s.q.Full())
    case Try(w) => s.q.items != []
    case WakePoster(i) => false
    case WakeWorker(w, timeout) => false
    case _ => true
  }

  lemma NotifyPushWork(s: State, s': State, i: nat, w: nat)
    requires NotifiesPush(s, s', i, w)
    ensures Work(s') < Work(s)
  {
    PostersWorkSet(s.posters, i, PIdle);
    if Count(s.workers, WWaits) > 0 {
      WorkersWorkSet(s.workers, w, WTry(true, false));
    }
  }

  lemma NotifyPopWork(s: State, s': State, w: nat, i: nat)
    requires NotifiesPop(s, s', w, i)
    ensures Work(s') < Work(s)
  {
    WorkersWorkSet(s.workers, w, WHandle(s.workers[w].item));
    if Count(s.posters, PWaits) > 0 {
      PostersWorkSet(s.posters, i, PTry(s.posters[i].msg, true, true));
    }
  }

  /** Once the destructor runs, every productive step lowers the work, and no other step changes it. */
  lemma WorkFalls(s: State, a: Act, s': State)
    requires s.closing && |s.q.items| <= s.q.capacity && Does(s, a, s')
    ensures s'.closing
    ensures if Productive(s, a) then Work(s') < Work(s) else Work(s') == Work(s)
  {
    hide PostersWork, WorkersWork, Count;
    match a
    case PostTerminate => PostersWorkSet(s.posters, 0, s'.posters[0]);
    case Enter(i) => PostersWorkSet(s.posters, i, s'.posters[i]);
    case NotifyPush(i, w) => NotifyPushWork(s, s', i, w);
    case Try(w) => WorkersWorkSet(s.workers, w, s'.workers[w]);
    case NotifyPop(w, i) => NotifyPopWork(s, s', w, i);
    case Handle(w) => WorkersWorkSet(s.workers, w, s'.workers[w]);
    case WakePoster(i) => PostersWorkSet(s.posters, i, s'.posters[i]);
    case WakeWorker(w, timeout) => WorkersWorkSet(s.workers, w, s'.workers[w]);
    case _ =>
  }

  // Which threads can go on.

  datatype Thread = PosterThread(i: nat) | WorkerThread(w: nat)

  /** Whose step an act is.  A spurious wakeup or a timeout is nobody's. */
  predicate Takes(a: Act, t: Thread) {
    match a
    case Post(i, msg, block) => t == PosterThread(i)
    case Close => t == PosterThread(0)
    case PostTerminate => t == PosterThread(0)
    case Enter(i) => t == PosterThread(i)
    case NotifyPush(i, w) => t == PosterThread(i)
    case Try(w) => t == WorkerThread(w)
    case NotifyPop(w, i) => t == WorkerThread(w)
    case Handle(w) => t == WorkerThread(w)
    case _ => false
  }

  /** The thread has a productive step. */
  predicate Ready(s: State, t: Thread) {
    match t
    case PosterThread(i) =>
      && i < |s.posters|
      && (match s.posters[i]
          case PIdle => i == 0 && s.closing && s.left > 0
          case PTry(msg, block, woken) => !(block && s.q.Full())
          case PWait(msg) => false
          case PNotify => true)
    case WorkerThread(w) =>
      && w < |s.workers|
      && (match s.workers[w]
          case WTry(woken, expired) => s.q.items != []
          case WNotify(item) => true
          case WHandle(item) => true
          case _ => false)
  }

  lemma PosterCanStep(s: State, i: nat)
    requires Ready(s, PosterThread(i))
    ensures exists a, s' :: Does(s, a, s') && Takes(a, PosterThread(i)) && Productive(s, a)
  {
    match s.posters[i]
    case PIdle =>
      assert Does(s, PostTerminate, s.(left := s.left - 1, posters := s.posters[0 := PTry(Terminate, true, false)]));
    case PTry(msg, block, woken) =>
      assert Does(s, Enter(i), AfterPush(s, i, msg));
    case PNotify =>
      CountMeaning(s.workers, WWaits);
      var ps := s.posters[i := PIdle];
      if Count(s.workers, WWaits) == 0 {
        assert Does(s, NotifyPush(i, 0), s.(posters := ps));
      } else {
        var w :| 0 <= w < |s.workers| && WWaits(s.workers[w]);
        assert Does(s, NotifyPush(i, w), s.(posters := ps, workers := s.workers[w := WTry(true, false)]));
      }
  }

  lemma WorkerCanStep(s: State, w: nat)
    requires Ready(s, WorkerThread(w))
    ensures exists a, s' :: Does(s, a, s') && Takes(a, WorkerThread(w)) && Productive(s, a)
  {
    match s.workers[w]
    case WTry(woken, expired) =>
      assert Does(s, Try(w), AfterPop(s, w));
    case WHandle(item) =>
      assert Does(s, Handle(w), s.(handled := s.handled + [Done(w, item)],
                                   workers := s.workers[w := if IsStop(item) then WDone else WTry(false, false)]));
    case WNotify(item) =>
      var ws := s.workers[w := WHandle(item)];
      CountMeaning(s.posters, PWaits);
      if Count(s.posters, PWaits) == 0 {
        assert Does(s, NotifyPop(w, 0), s.(workers := ws));
      } else {
        var i :| 0 <= i < |s.posters| && PWaits(s.posters[i]);
        var ps := s.posters[i := PTry(s.posters[i].msg, true, true)];
        assert Does(s, NotifyPop(w, i), s.(workers := ws, posters := ps));
      }
  }

  /** A thread that is ready has a productive step, and takes no other. */
  lemma ReadyCanStep(s: State, t: Thread)
    requires Ready(s, t) && s.closing
    ensures exists a, s' :: Does(s, a, s') && Takes(a, t) && Productive(s, a)
    ensures forall a, s' :: Does(s, a, s') && Takes(a, t) ==> Productive(s, a)
  {
    match t
    case PosterThread(i) => PosterCanStep(s, i);
    case WorkerThread(w) => WorkerCanStep(s, w);
  }

  /** A thread that is ready stays ready until some productive step is taken. */
  lemma ReadyStays(s: State, t: Thread, a: Act, s': State)
    requires Ready(s, t) && s.closing && Does(s, a, s') && !Productive(s, a)
    ensures Ready(s', t)
  {
  }

  /** The join of every worker can succeed. */
  ghost predicate Finished(s: State) {
    && s.closing && s.left == 0 && |s.posters| > 0 && s.posters[0] == PIdle
    && forall w :: 0 <= w < |s.workers| ==> s.workers[w] == WDone
  }

  predicate Awake(w: Worker) { w.WTry? || w.WNotify? || w.WHandle? }

  /** With items in the queue and no notification pending, some worker is awake. */
  lemma SomeoneAwake(s: State)
    requires Inv(s) && s.closing && s.q.items != []
    requires forall i :: 0 <= i < |s.posters| ==> !s.posters[i].PNotify?
    ensures exists w :: 0 <= w < |s.workers| && Awake(s.workers[w])
  {
    hide Accounted, Ledger, OneStopEach;
    CountMeaning(s.workers, WWaits);
    if Count(s.workers, WWaits) > 0 {
      AllZero(s.posters, PNotifies);
      CountMeaning(s.workers, WWoken);
      var w :| 0 <= w < |s.workers| && WWoken(s.workers[w]);
      assert Awake(s.workers[w]);
    } else {
      CountMeaning(s.workers, WIsDone);
      CountMeaning(s.q.items, IsStop);
      var w :| 0 <= w < |s.workers| && !WIsDone(s.workers[w]);
      assert !WWaits(s.workers[w]);
      assert Awake(s.workers[w]);
    }
  }

  /** With an empty queue, nobody ready means that all terminates have arrived. */
  lemma AllStopped(s: State)
    requires Inv(s) && s.closing && s.q.capacity >= 1 && s.q.items == []
    requires forall i :: 0 <= i < |s.posters| ==> s.posters[i].PIdle? || s.posters[i].PWait?
    requires forall w :: 0 <= w < |s.workers| ==> !s.workers[w].WNotify? && !s.workers[w].WHandle?
    requires s.left == 0 || s.posters[0] != PIdle
    ensures Finished(s)
  {
    hide Accounted, Ledger, OneStopEach;
    AllZero(s.posters, PWoken);
    AllZero(s.workers, WNotifies);
    AllZero(s.workers, WHoldsStop);
    CountMeaning(s.posters, PWaits);
    CountMeaning(s.workers, WIsDone);
    assert PWaits(s.posters[0]) <==> s.posters[0].PWait?;
  }

  /** The pool is never stuck during shutdown: as long as it has not finished, some thread is ready. */
  lemma NeverStuck(s: State)
    requires Inv(s) && s.closing && s.q.capacity >= 1
    ensures Finished(s) || exists t :: Ready(s, t)
  {
    hide NoLostWakeup, Accounted, Ledger, OneStopEach;
    if i :| 0 <= i < |s.posters| && s.posters[i].PNotify? {
      assert Ready(s, PosterThread(i));
    } else if s.q.items != [] {
      SomeoneAwake(s);
      var w :| 0 <= w < |s.workers| && Awake(s.workers[w]);
      assert Ready(s, WorkerThread(w));
    } else if i :| 0 <= i < |s.posters| && s.posters[i].PTry? {
      assert Ready(s, PosterThread(i));
    } else if w :| 0 <= w < |s.workers| && (s.workers[w].WNotify? || s.workers[w].WHandle?) {
      assert Ready(s, WorkerThread(w));
    } else if s.left > 0 && s.posters[0] == PIdle {
      assert Ready(s, PosterThread(0));
    } else {
      AllStopped(s);
    }
  }

  // Any run.

  /** The productive steps from state `c` to state `k`. */
  ghost function ProductiveSteps(states: seq<State>, acts: seq<Act>, c: nat, k: nat): nat
    requires |states| == |acts| + 1 && c <= k <= |acts|
    decreases k
  {
    if k == c then 0 else ProductiveSteps(states, acts, c, k - 1) + Bit(Productive(states[k - 1], acts[k - 1]))
  }

  lemma InvCapacity(states: seq<State>, acts: seq<Act>, k: nat)
    requires IsRun(states, acts) && k <= |acts|
    ensures Inv(states[k]) && |states[k].q.items| <= states[k].q.capacity
  {
    hide Does, Init, Accounted, Orderly, OneStopEach, Ledger;
    RunInv(states, acts, k);
  }

  lemma {:induction false} ProductiveBound(states: seq<State>, acts: seq<Act>, c: nat, k: nat)
    requires IsRun(states, acts) && c <= k <= |acts| && states[c].closing
    ensures states[k].closing
    ensures ProductiveSteps(states, acts, c, k) + Work(states[k]) <= Work(states[c])
    decreases k
  {
    hide Does, Init, Work, Inv, Productive;
    if k == c {
    } else {
      ProductiveBound(states, acts, c, k - 1);
      InvCapacity(states, acts, k - 1);
      assert DoesAt(states, acts, k - 1);
      WorkFalls(states[k - 1], acts[k - 1], states[k]);
    }
  }

  lemma {:induction false} CapacityFixed(states: seq<State>, acts: seq<Act>, k: nat)
    requires IsRun(states, acts) && k <= |acts|
    ensures states[k].q.capacity == states[0].q.capacity && |states[k].workers| == |states[0].workers|
  {
    if k == 0 {
    } else {
      CapacityFixed(states, acts, k - 1);
      assert DoesAt(states, acts, k - 1);
    }
  }

  lemma RunSnoc(states: seq<State>, acts: seq<Act>, a: Act, s': State)
    requires IsRun(states, acts) && Does(Last(states), a, s')
    ensures IsRun(states + [s'], acts + [a])
  {
    hide Does, Init;
    var longer, more := states + [s'], acts + [a];
    forall k: nat | k < |more| ensures DoesAt(longer, more, k) {
      if k < |acts| {
        assert DoesAt(states, acts, k);
      }
    }
  }

  /** Shutdown can only end.  From the moment the destructor starts, the productive steps of any run are
      bounded by the work at that moment, however many wakeups and timeouts there are; and until every
      worker can be joined, some thread is ready to take one. */
  lemma ShutdownEnds(states: seq<State>, acts: seq<Act>, c: nat)
    requires IsRun(states, acts) && c <= |acts| && states[c].closing
    requires states[0].q.capacity >= 1
    ensures ProductiveSteps(states, acts, c, |acts|) <= Work(states[c])
    ensures Finished(Last(states)) || exists t :: Ready(Last(states), t)
  {
    hide Does, Init, Work, Inv, Productive, Ready, Finished;
    ProductiveBound(states, acts, c, |acts|);
    RunInv(states, acts, |acts|);
    CapacityFixed(states, acts, |acts|);
    NeverStuck(Last(states));
  }

  lemma NothingToPop(s: State, a: Act, s': State)
    requires s.q.items == [] && Does(s, a, s')
    requires forall w :: 0 <= w < |s.workers| ==> s.workers[w].WTry? || s.workers[w].WWait?
    ensures forall w :: 0 <= w < |s'.workers| ==> s'.workers[w].WTry? || s'.workers[w].WWait?
  {
  }

  lemma {:induction false} NothingPopped(states: seq<State>, acts: seq<Act>, k: nat)
    requires IsRun(states, acts) && k <= |acts| && states[0].q.capacity == 0
    ensures forall w :: 0 <= w < |states[k].workers| ==> states[k].workers[w].WTry? || states[k].workers[w].WWait?
  {
    if k == 0 {
    } else {
      hide Does, Init, Inv;
      NothingPopped(states, acts, k - 1);
      InvCapacity(states, acts, k - 1);
      CapacityFixed(states, acts, k - 1);
      assert DoesAt(states, acts, k - 1);
      NothingToPop(states[k - 1], acts[k - 1], states[k]);
    }
  }

  /** A queue of capacity 0 is always full, so posting the first terminate message blocks for ever:
      no worker ever stops. */
  lemma ZeroCapacityHangs(states: seq<State>, acts: seq<Act>)
    requires IsRun(states, acts) && states[0].q.capacity == 0
    ensures !Finished(Last(states))
    ensures forall w :: 0 <= w < |Last(states).workers| ==> Last(states).workers[w] != WDone
  {
    NothingPopped(states, acts, |acts|);
    RunInv(states, acts, |acts|);
  }

  /** With room for at least one message, every run in which the destructor has started can be continued by
      productive steps alone until every worker has stopped. */
  lemma {:induction false} CanFinish(states: seq<State>, acts: seq<Act>)
      returns (longer: seq<State>, more: seq<Act>)
    requires IsRun(states, acts) && Last(states).closing && states[0].q.capacity >= 1
    ensures IsRun(longer, more) && states <= longer && acts <= more && Finished(Last(longer))
    decreases Work(Last(states))
  {
    hide Does, Init, Work, Inv, Productive, Ready, Finished;
    var s := Last(states);
    InvCapacity(states, acts, |acts|);
    CapacityFixed(states, acts, |acts|);
    NeverStuck(s);
    if Finished(s) {
      longer, more := states, acts;
    } else {
      var t :| Ready(s, t);
      ReadyCanStep(s, t);
      var a, s' :| Does(s, a, s') && Productive(s, a);
      WorkFalls(s, a, s');
      RunSnoc(states, acts, a, s');
      longer, more := CanFinish(states + [s'], acts + [a]);
    }
  }

  // Infinite runs under weak fairness.

  /** From moment `k` to the next, one act is done, or nothing happens. */
  ghost predicate GoesOn(run: nat -> State, acts: nat -> Act, k: nat) {
    Does(run(k), acts(k), run(k + 1)) || run(k + 1) == run(k)
  }

  ghost predicate IsInfinite(run: nat -> State, acts: nat -> Act) {
    Init(run(0)) && forall k: nat :: GoesOn(run, acts, k)
  }

  /** At moment `k` the thread has nothing productive to do, or takes a step. */
  ghost predicate Served(run: nat -> State, acts: nat -> Act, t: Thread, k: nat) {
    !Ready(run(k), t) || (Takes(acts(k), t) && Does(run(k), acts(k), run(k + 1)))
  }

  ghost predicate ServedAfter(run: nat -> State, acts: nat -> Act, t: Thread, k: nat) {
    exists m: nat :: m >= k && Served(run, acts, t, m)
  }

  /** Weak fairness: no thread stays ready for ever without taking a step. */
  ghost predicate IsFair(run: nat -> State, acts: nat -> Act) {
    forall t, k: nat :: ServedAfter(run, acts, t, k)
  }

  lemma SameCapacity(s: State, a: Act, s': State)
    requires Does(s, a, s')
    ensures s'.q.capacity == s.q.capacity && |s'.workers| == |s.workers|
  {
  }

  lemma {:induction false} InfiniteInv(run: nat -> State, acts: nat -> Act, k: nat)
    requires IsInfinite(run, acts)
    ensures Inv(run(k)) && run(k).q.capacity == run(0).q.capacity && |run(k).q.items| <= run(k).q.capacity
  {
    if k == 0 {
      InitInv(run(0));
    } else {
      InfiniteInv(run, acts, k - 1);
      assert GoesOn(run, acts, k - 1);
      if run(k) != run(k - 1) {
        SameCapacity(run(k - 1), acts(k - 1), run(k));
        hide Does, Accounted, Orderly, OneStopEach, Ledger;
        StepInv(run(k - 1), acts(k - 1), run(k));
      }
    }
  }

  /** A thread ready at moment `c` and served at moment `n` brings the work down. */
  lemma {:induction false} WorkDrops(run: nat -> State, acts: nat -> Act, t: Thread, c: nat, n: nat) returns (k: nat)
    requires IsInfinite(run, acts) && run(c).closing && Ready(run(c), t) && c <= n && Served(run, acts, t, n)
    ensures c < k && run(k).closing && Work(run(k)) < Work(run(c))
    decreases n - c
  {
    hide Inv, Does, Work, Ready, Productive, Takes, Init;
    InfiniteInv(run, acts, c);
    assert GoesOn(run, acts, c);
    ReadyCanStep(run(c), t);
    if c == n {
      WorkFalls(run(c), acts(c), run(c + 1));
      k := c + 1;
    } else if run(c + 1) == run(c) {
      k := WorkDrops(run, acts, t, c + 1, n);
    } else {
      WorkFalls(run(c), acts(c), run(c + 1));
      if Productive(run(c), acts(c)) {
        k := c + 1;
      } else {
        ReadyStays(run(c), t, acts(c), run(c + 1));
        k := WorkDrops(run, acts, t, c + 1, n);
      }
    }
  }

  /** Under weak fairness shutdown ends: once the destructor has started, every fair run reaches a state in
      which every worker has stopped and can be joined. */
  lemma {:induction false} FairShutdownEnds(run: nat -> State, acts: nat -> Act, c: nat) returns (m: nat)
    requires IsInfinite(run, acts) && IsFair(run, acts) && run(c).closing && run(0).q.capacity >= 1
    ensures m >= c && Finished(run(m))
    decreases Work(run(c))
  {
    hide Inv, Does, Work, Ready, Productive, Takes, Init, Finished, IsInfinite, Served;
    InfiniteInv(run, acts, c);
    NeverStuck(run(c));
    if Finished(run(c)) {
      m := c;
    } else {
      var t :| Ready(run(c), t);
      assert ServedAfter(run, acts, t, c);
      var n: nat :| n >= c && Served(run, acts, t, n);
      var k := WorkDrops(run, acts, t, c, n);
      m := FairShutdownEnds(run, acts, k);
    }
  }
}
