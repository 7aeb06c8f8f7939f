/**
 What is posted to the logger's pool is what gets into its queue: every message, in the order each thread
 posts, under the policy it was posted with.
 */
module LogPoolPosts {
  import opened LogPool

  /** A call of `post_async_msg_`: by which thread, what, and with which policy. */
  datatype Call = Call(who: nat, msg: Msg, block: bool)

  /** The calls among these acts, in order.  The destructor's thread posts terminates, and blocks. */
  function Calls(acts: seq<Act>): seq<Call> {
    if acts == [] then []
    else
      var before, last := Calls(acts[..|acts| - 1]), acts[|acts| - 1];
      if last.Post? then before + [Call(last.i, last.msg, last.block)]
      else if last.PostTerminate? then before + [Call(0, Terminate, true)]
      else before
  }

  lemma CallsAppend(acts: seq<Act>, a: Act)
    ensures Calls(acts + [a])
         == if a.Post? then Calls(acts) + [Call(a.i, a.msg, a.block)]
            else if a.PostTerminate? then Calls(acts) + [Call(0, Terminate, true)]
            else Calls(acts)
  {
    assert (acts + [a])[..|acts|] == acts;
  }

  /** The calls of one thread. */
  function PostsOf(calls: seq<Call>, i: nat): seq<Call> {
    if calls == [] then []
    else
      var before, last := PostsOf(calls[..|calls| - 1], i), calls[|calls| - 1];
      if last.who == i then before + [last] else before
  }

  lemma PostsAppend(calls: seq<Call>, c: Call, i: nat)
    ensures PostsOf(calls + [c], i) == if c.who == i then PostsOf(calls, i) + [c] else PostsOf(calls, i)
  {
    assert (calls + [c])[..|calls|] == calls;
  }

  function CallMsgs(calls: seq<Call>): (ms: seq<Msg>)
    ensures |ms| == |calls| && forall k :: 0 <= k < |ms| ==> ms[k] == calls[k].msg
  {
    seq(|calls|, k requires 0 <= k < |calls| => calls[k].msg)
  }

  function ItemMsgs(items: seq<Item>): (ms: seq<Msg>)
    ensures |ms| == |items| && forall k :: 0 <= k < |ms| ==> ms[k] == items[k].msg
  {
    seq(|items|, k requires 0 <= k < |items| => items[k].msg)
  }

  /** What a poster has been given and has not pushed yet. */
  function Holding(p: Poster): seq<Msg> {
    match p
    case PTry(msg, block, woken) => [msg]
    case PWait(msg) => [msg]
    case _ => []
  }

  /** The acts that neither post nor push leave every message where it is. */
  lemma OthersStay(s: State, a: Act, s': State)
    requires Does(s, a, s') && !a.Post? && !a.PostTerminate? && |s'.pushed| <= |s.pushed|
    ensures s'.pushed == s.pushed && |s'.posters| == |s.posters|
    ensures forall i :: 0 <= i < |s.posters| ==> Holding(s'.posters[i]) == Holding(s.posters[i])
  {
  }

  /** A push takes the message of the thread that enters. */
  lemma PushTakes(s: State, a: Act, s': State)
    requires Does(s, a, s') && |s.pushed| < |s'.pushed|
    ensures a.Enter? && a.i < |s.posters| && s.posters[a.i].PTry? && s'.posters == s.posters[a.i := PNotify]
    ensures s'.pushed == s.pushed + [Item(s.posters[a.i].msg, |s.pushed|)]
  {
  }

  // All threads together.

  function Often(m: Msg, ms: seq<Msg>): nat { multiset(ms)[m] }

  lemma OftenAppend(m: Msg, ms: seq<Msg>, x: Msg)
    ensures Often(m, ms + [x]) == Often(m, ms) + Bit(x == m)
  {
  }

  /** How many threads hold this message. */
  ghost function Holders(ps: seq<Poster>, m: Msg): nat {
    if ps == [] then 0 else Bit(Holding(ps[0]) == [m]) + Holders(ps[1..], m)
  }

  lemma {:induction false} HoldersSet(ps: seq<Poster>, i: nat, p: Poster, m: Msg)
    requires i < |ps|
    ensures Holders(ps[i := p], m) + Bit(Holding(ps[i]) == [m]) == Holders(ps, m) + Bit(Holding(p) == [m])
  {
    hide Holding;
    if i == 0 {
      assert ps[0 := p][1..] == ps[1..];
    } else {
      HoldersSet(ps[1..], i - 1, p, m);
      assert ps[i := p][1..] == ps[1..][i - 1 := p];
    }
  }

  lemma {:induction false} SameHolders(ps: seq<Poster>, qs: seq<Poster>, m: Msg)
    requires |ps| == |qs| && forall i :: 0 <= i < |ps| ==> Holding(qs[i]) == Holding(ps[i])
    ensures Holders(qs, m) == Holders(ps, m)
  {
    hide Holding;
    if ps == [] {
    } else {
      SameHolders(ps[1..], qs[1..], m);
    }
  }

  /** Of this message nothing posted is lost or doubled on its way into the queue. */
  ghost predicate Balanced(s: State, calls: seq<Call>, m: Msg) {
    Often(m, CallMsgs(calls)) == Often(m, ItemMsgs(s.pushed)) + Holders(s.posters, m)
  }

  lemma CallMsgsAppend(calls: seq<Call>, c: Call)
    ensures CallMsgs(calls + [c]) == CallMsgs(calls) + [c.msg]
  {
  }

  lemma ItemMsgsAppend(items: seq<Item>, x: Item)
    ensures ItemMsgs(items + [x]) == ItemMsgs(items) + [x.msg]
  {
  }

  lemma PostBalanced(s: State, s': State, calls: seq<Call>, c: Call, m: Msg)
    requires Balanced(s, calls, m) && c.who < |s.posters| && s.posters[c.who] == PIdle && s'.pushed == s.pushed
    requires s'.posters == s.posters[c.who := PTry(c.msg, c.block, false)]
    ensures Balanced(s', calls + [c], m)
  {
    hide Often, CallMsgs, ItemMsgs, Holders;
    CallMsgsAppend(calls, c);
    OftenAppend(m, CallMsgs(calls), c.msg);
    HoldersSet(s.posters, c.who, PTry(c.msg, c.block, false), m);
  }

  lemma PushBalanced(s: State, s': State, calls: seq<Call>, i: nat, m: Msg)
    requires Balanced(s, calls, m) && i < |s.posters| && s.posters[i].PTry?
    requires s'.posters == s.posters[i := PNotify] && s'.pushed == s.pushed + [Item(s.posters[i].msg, |s.pushed|)]
    ensures Balanced(s', calls, m)
  {
    hide Often, CallMsgs, ItemMsgs, Holders;
    ItemMsgsAppend(s.pushed, Item(s.posters[i].msg, |s.pushed|));
    OftenAppend(m, ItemMsgs(s.pushed), s.posters[i].msg);
    HoldersSet(s.posters, i, PNotify, m);
  }

  lemma StepBalanced(s: State, a: Act, s': State, acts: seq<Act>, m: Msg)
    requires Balanced(s, Calls(acts), m) && Does(s, a, s')
    ensures Balanced(s', Calls(acts + [a]), m)
  {
    hide Often, CallMsgs, ItemMsgs, Holders, Calls;
    CallsAppend(acts, a);
    if a.Post? {
      PostBalanced(s, s', Calls(acts), Call(a.i, a.msg, a.block), m);
    } else if a.PostTerminate? {
      PostBalanced(s, s', Calls(acts), Call(0, Terminate, true), m);
    } else if |s.pushed| < |s'.pushed| {
      PushTakes(s, a, s');
      PushBalanced(s, s', Calls(acts), a.i, m);
    } else {
      OthersStay(s, a, s');
      SameHolders(s.posters, s'.posters, m);
    }
  }

  // One thread.

  /** Who pushed each of the items pushed by state `k`. */
  ghost function Pushers(states: seq<State>, acts: seq<Act>, k: nat): seq<nat>
    requires |states| == |acts| + 1 && k <= |acts|
  {
    if k == 0 then []
    else
      var before := Pushers(states, acts, k - 1);
      if acts[k - 1].Enter? && |states[k - 1].pushed| < |states[k].pushed| then before + [acts[k - 1].i] else before
  }

  /** The messages of one thread among these items. */
  ghost function Mine(items: seq<Item>, pushers: seq<nat>, i: nat): seq<Msg>
    requires |pushers| == |items|
  {
    if items == [] then []
    else
      var n := |items| - 1;
      Mine(items[..n], pushers[..n], i) + (if pushers[n] == i then [items[n].msg] else [])
  }

  lemma MineAppend(items: seq<Item>, pushers: seq<nat>, x: Item, j: nat, i: nat)
    requires |pushers| == |items|
    ensures Mine(items + [x], pushers + [j], i) == Mine(items, pushers, i) + (if j == i then [x.msg] else [])
  {
    assert (items + [x])[..|items|] == items && (pushers + [j])[..|pushers|] == pushers;
  }

  /** What thread `i` holds. */
  function Held(s: State, i: nat): seq<Msg> {
    if i < |s.posters| then Holding(s.posters[i]) else []
  }

  /** Thread `i` has pushed what it posted, in that order, up to the one message it holds. */
  ghost predicate InPostingOrder(s: State, calls: seq<Call>, pushers: seq<nat>, i: nat) {
    |pushers| == |s.pushed| && CallMsgs(PostsOf(calls, i)) == Mine(s.pushed, pushers, i) + Held(s, i)
  }

  lemma PostInOrder(s: State, s': State, calls: seq<Call>, pushers: seq<nat>, c: Call, i: nat)
    requires InPostingOrder(s, calls, pushers, i) && s'.pushed == s.pushed
    requires c.who < |s.posters| && s.posters[c.who] == PIdle
    requires s'.posters == s.posters[c.who := PTry(c.msg, c.block, false)]
    ensures InPostingOrder(s', calls + [c], pushers, i)
  {
    hide CallMsgs, PostsOf, Mine;
    PostsAppend(calls, c, i);
    CallMsgsAppend(PostsOf(calls, i), c);
  }

  lemma PushInOrder(s: State, s': State, calls: seq<Call>, pushers: seq<nat>, j: nat, i: nat)
    requires InPostingOrder(s, calls, pushers, i) && j < |s.posters| && s.posters[j].PTry?
    requires s'.posters == s.posters[j := PNotify] && s'.pushed == s.pushed + [Item(s.posters[j].msg, |s.pushed|)]
    ensures InPostingOrder(s', calls, pushers + [j], i)
  {
    hide CallMsgs, PostsOf, Mine;
    MineAppend(s.pushed, pushers, Item(s.posters[j].msg, |s.pushed|), j, i);
  }

  lemma StepInOrder(s: State, a: Act, s': State, acts: seq<Act>, pushers: seq<nat>, i: nat)
    requires InPostingOrder(s, Calls(acts), pushers, i) && Does(s, a, s')
    ensures InPostingOrder(s', Calls(acts + [a]),
                           if a.Enter? && |s.pushed| < |s'.pushed| then pushers + [a.i] else pushers, i)
  {
    hide CallMsgs, PostsOf, Mine, Calls;
    CallsAppend(acts, a);
    if a.Post? {
      PostInOrder(s, s', Calls(acts), pushers, Call(a.i, a.msg, a.block), i);
    } else if a.PostTerminate? {
      PostInOrder(s, s', Calls(acts), pushers, Call(0, Terminate, true), i);
    } else if |s.pushed| < |s'.pushed| {
      PushTakes(s, a, s');
      PushInOrder(s, s', Calls(acts), pushers, a.i, i);
    } else {
      OthersStay(s, a, s');
    }
  }

  // Policies.

  /** The poster's message and policy are those of its last call, and it waits only if that was to block. */
  ghost predicate Follows(p: Poster, last: Call) {
    match p
    case PTry(msg, block, woken) => msg == last.msg && block == last.block
    case PWait(msg) => msg == last.msg && last.block
    case _ => true
  }

  /** A thread that holds a message was given it, with its policy, by its last call. */
  ghost predicate AsCalled(s: State, calls: seq<Call>, i: nat) {
    i < |s.posters| && Holding(s.posters[i]) != [] ==>
      PostsOf(calls, i) != [] && Follows(s.posters[i], PostsOf(calls, i)[|PostsOf(calls, i)| - 1])
  }

  lemma StepFollows(s: State, a: Act, s': State, i: nat, last: Call)
    requires Does(s, a, s') && !a.Post? && !a.PostTerminate?
    requires i < |s.posters| && Holding(s.posters[i]) != [] && Follows(s.posters[i], last)
    ensures i < |s'.posters| && (Holding(s'.posters[i]) != [] ==> Follows(s'.posters[i], last))
  {
  }

  lemma StillEmpty(s: State, a: Act, s': State, i: nat)
    requires Does(s, a, s') && !a.Post? && !a.PostTerminate?
    requires i < |s.posters| ==> Holding(s.posters[i]) == []
    ensures i < |s'.posters| ==> Holding(s'.posters[i]) == []
  {
  }

  lemma StepAsCalled(s: State, a: Act, s': State, acts: seq<Act>, i: nat)
    requires AsCalled(s, Calls(acts), i) && Does(s, a, s')
    ensures AsCalled(s', Calls(acts + [a]), i)
  {
    hide PostsOf, Calls;
    CallsAppend(acts, a);
    if a.Post? {
      PostsAppend(Calls(acts), Call(a.i, a.msg, a.block), i);
    } else if a.PostTerminate? {
      PostsAppend(Calls(acts), Call(0, Terminate, true), i);
    } else if i < |s.posters| && Holding(s.posters[i]) != [] {
      StepFollows(s, a, s', i, PostsOf(Calls(acts), i)[|PostsOf(Calls(acts), i)| - 1]);
    } else {
      StillEmpty(s, a, s', i);
    }
  }

  // Every run.

  ghost predicate AllBalanced(s: State, calls: seq<Call>) {
    forall m :: Balanced(s, calls, m)
  }

  ghost predicate AllInOrder(s: State, calls: seq<Call>, pushers: seq<nat>) {
    |pushers| == |s.pushed| && forall i: nat :: InPostingOrder(s, calls, pushers, i)
  }

  ghost predicate AllAsCalled(s: State, calls: seq<Call>) {
    forall i: nat :: AsCalled(s, calls, i)
  }

  ghost predicate Faithful(s: State, calls: seq<Call>, pushers: seq<nat>) {
    && |s.q.items| <= s.q.capacity
    && AllBalanced(s, calls) && AllInOrder(s, calls, pushers) && AllAsCalled(s, calls)
  }

  lemma {:induction false} NoHolders(ps: seq<Poster>, m: Msg)
    requires forall i :: 0 <= i < |ps| ==> Holding(ps[i]) == []
    ensures Holders(ps, m) == 0
  {
    hide Holding;
    if ps == [] {
    } else {
      NoHolders(ps[1..], m);
    }
  }

  lemma StartFaithful(s: State)
    requires Init(s)
    ensures Faithful(s, [], [])
  {
    forall m ensures Balanced(s, [], m) {
      NoHolders(s.posters, m);
    }
  }

  lemma StepBounded(s: State, a: Act, s': State)
    requires |s.q.items| <= s.q.capacity && Does(s, a, s')
    ensures |s'.q.items| <= s'.q.capacity
  {
  }

  lemma PushersLength(s: State, a: Act, s': State, acts: seq<Act>, pushers: seq<nat>)
    requires InPostingOrder(s, Calls(acts), pushers, 0) && Does(s, a, s')
    ensures |if a.Enter? && |s.pushed| < |s'.pushed| then pushers + [a.i] else pushers| == |s'.pushed|
  {
    hide Does;
    StepInOrder(s, a, s', acts, pushers, 0);
  }

  lemma StepFaithful(s: State, a: Act, s': State, acts: seq<Act>, pushers: seq<nat>)
    requires Faithful(s, Calls(acts), pushers) && Does(s, a, s')
    ensures Faithful(s', Calls(acts + [a]),
                     if a.Enter? && |s.pushed| < |s'.pushed| then pushers + [a.i] else pushers)
  {
    hide Does, Balanced, InPostingOrder, AsCalled, Calls;
    StepBounded(s, a, s');
    var after := if a.Enter? && |s.pushed| < |s'.pushed| then pushers + [a.i] else pushers;
    forall m ensures Balanced(s', Calls(acts + [a]), m) {
      StepBalanced(s, a, s', acts, m);
    }
    forall i: nat ensures InPostingOrder(s', Calls(acts + [a]), after, i) {
      StepInOrder(s, a, s', acts, pushers, i);
    }
    forall i: nat ensures AsCalled(s', Calls(acts + [a]), i) {
      StepAsCalled(s, a, s', acts, i);
    }
    PushersLength(s, a, s', acts, pushers);
  }

  lemma {:induction false} RunFaithful(states: seq<State>, acts: seq<Act>, k: nat)
    requires IsRun(states, acts) && k <= |acts|
    ensures Faithful(states[k], Calls(acts[..k]), Pushers(states, acts, k))
  {
    hide Does, Init, Faithful;
    if k == 0 {
      StartFaithful(states[0]);
      assert acts[..0] == [];
    } else {
      RunFaithful(states, acts, k - 1);
      assert DoesAt(states, acts, k - 1);
      StepFaithful(states[k - 1], acts[k - 1], states[k], acts[..k - 1], Pushers(states, acts, k - 1));
      assert acts[..k - 1] + [acts[k - 1]] == acts[..k];
    }
  }

  lemma RunEnds(states: seq<State>, acts: seq<Act>)
    requires IsRun(states, acts)
    ensures |states| == |acts| + 1 && Faithful(states[|acts|], Calls(acts), Pushers(states, acts, |acts|))
  {
    hide Does, Init, Faithful;
    RunFaithful(states, acts, |acts|);
    assert acts[..|acts|] == acts;
  }

  /** In every run each message has been posted as often as it was pushed and is still held by posting
      threads: none is made up, changed, doubled or dropped on its way into the queue. */
  lemma PostedArePushed(states: seq<State>, acts: seq<Act>, m: Msg)
    requires IsRun(states, acts)
    ensures var s := states[|acts|];
            multiset(CallMsgs(Calls(acts)))[m] == multiset(ItemMsgs(s.pushed))[m] + Holders(s.posters, m)
  {
    hide Does, Init, AllInOrder, AllAsCalled, Holders, Calls;
    RunEnds(states, acts);
    assert Balanced(states[|acts|], Calls(acts), m);
  }

  /** And the pushes of each thread are its posts, in order, up to the one it holds. */
  lemma PushedInPostingOrder(states: seq<State>, acts: seq<Act>, i: nat)
    requires IsRun(states, acts)
    ensures var s, pushers := states[|acts|], Pushers(states, acts, |acts|);
            |pushers| == |s.pushed| && CallMsgs(PostsOf(Calls(acts), i)) == Mine(s.pushed, pushers, i) + Held(s, i)
  {
    hide Does, Init, AllBalanced, AllAsCalled, Mine, Held, PostsOf, Calls;
    RunEnds(states, acts);
    assert InPostingOrder(states[|acts|], Calls(acts), Pushers(states, acts, |acts|), i);
  }

  lemma {:induction false} OwnPosts(calls: seq<Call>, i: nat)
    ensures forall c :: c in PostsOf(calls, i) ==> c.who == i
  {
    if calls == [] {
    } else {
      OwnPosts(calls[..|calls| - 1], i);
    }
  }

  /** A thread waits for room only if its last call was to block. */
  lemma OnlyBlockersWait(states: seq<State>, acts: seq<Act>, i: nat)
    requires IsRun(states, acts) && i < |states[|acts|].posters| && states[|acts|].posters[i].PWait?
    ensures var mine := PostsOf(Calls(acts), i);
            mine != [] && mine[|mine| - 1] == Call(i, states[|acts|].posters[i].msg, true)
  {
    hide Does, Init, AllBalanced, AllInOrder, PostsOf, Calls;
    RunEnds(states, acts);
    assert AsCalled(states[|acts|], Calls(acts), i);
    OwnPosts(Calls(acts), i);
  }

  /** The locked section of a call, given the call: its message is pushed, except that a call told to block
      waits while the queue is full.  So a call told not to block never waits, and drops the oldest item when
      the queue is full; and one told to block never drops any. */
  ghost predicate EntersAsTold(s: State, s': State, i: nat, c: Call) {
    var full, x := |s.q.items| == s.q.capacity, Item(c.msg, |s.pushed|);
    if c.block && full then i < |s.posters| && s' == s.(posters := s.posters[i := PWait(c.msg)])
    else
      && s'.pushed == s.pushed + [x]
      && s'.q.items == (if full then (s.q.items + [x])[1..] else s.q.items + [x])
      && s'.q.overrun == s.q.overrun + Bit(full)
  }

  lemma TriesAsTold(s: State, s': State, i: nat, c: Call)
    requires Enters(s, s', i) && Follows(s.posters[i], c) && |s.q.items| <= s.q.capacity
    ensures EntersAsTold(s, s', i, c)
  {
  }

  lemma EnterFollowsPolicy(states: seq<State>, acts: seq<Act>, k: nat)
    requires IsRun(states, acts) && k < |acts| && acts[k].Enter?
    ensures var mine := PostsOf(Calls(acts[..k]), acts[k].i);
            mine != [] && EntersAsTold(states[k], states[k + 1], acts[k].i, mine[|mine| - 1])
  {
    hide Init, AllBalanced, AllInOrder, PostsOf, Calls, EntersAsTold;
    RunFaithful(states, acts, k);
    assert DoesAt(states, acts, k);
    assert AsCalled(states[k], Calls(acts[..k]), acts[k].i);
    var mine := PostsOf(Calls(acts[..k]), acts[k].i);
    TriesAsTold(states[k], states[k + 1], acts[k].i, mine[|mine| - 1]);
  }
}
