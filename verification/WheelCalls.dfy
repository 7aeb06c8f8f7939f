/**
 The `AddTimer` calls that arrive while callbacks run, and the timers they make.  Element k of `env` lists
 the calls that arrive, from the callback or from other threads, during the k-th callback.
 */
module WheelCalls {
  import opened WheelMachine
  import opened WheelPlacement

  /** The timers made at tick `now` by these `AddTimer` calls; the first has serial number `n`. */
  ghost function Made(n: nat, now: nat, rs: seq<Request>): (xs: seq<Timer>)
    ensures |xs| == |rs|
    ensures forall k :: 0 <= k < |rs| ==> xs[k] == Timer(n + k, rs[k].callBack, now, rs[k].delay)
  {
    seq(|rs|, k requires 0 <= k < |rs| => Timer(n + k, rs[k].callBack, now, rs[k].delay))
  }

  lemma MadeCons(n: nat, now: nat, rs: seq<Request>)
    requires rs != []
    ensures Made(n, now, rs) == [Timer(n, rs[0].callBack, now, rs[0].delay)] + Made(n + 1, now, rs[1..])
  {
  }

  /** The timers made while these callbacks ran, `env[k]` being the calls that arrived during the k-th. */
  ghost function MadeDuring(n: nat, fs: seq<Firing>, env: seq<seq<Request>>): seq<Timer>
    decreases |fs|
  {
    if fs == [] || env == [] then []
    else Made(n, fs[0].tick, env[0]) + MadeDuring(n + |env[0]|, fs[1..], env[1..])
  }

  /** What is left of `env` after `n` callbacks. */
  function Unused(env: seq<seq<Request>>, n: nat): seq<seq<Request>> {
    if n <= |env| then env[n..] else []
  }

  /** How many calls that is in all. */
  function Total(env: seq<seq<Request>>): nat {
    if env == [] then 0 else |env[0]| + Total(env[1..])
  }

  lemma {:induction false} MadeTotal(n: nat, fs: seq<Firing>, env: seq<seq<Request>>)
    ensures |MadeDuring(n, fs, env)| == Total(env[..if |fs| <= |env| then |fs| else |env|])
    decreases |fs|
  {
    if fs == [] || env == [] {
    } else {
      MadeTotal(n + |env[0]|, fs[1..], env[1..]);
      var c := if |fs| <= |env| then |fs| else |env|;
      assert env[..c][1..] == env[1..][..c - 1];
    }
  }

  /** Each call that arrived during a callback has made its timer: with the serial number that is next, at
      the tick of that callback, with the callback and the delay it asked for. */
  lemma {:induction false} MadeAt(n: nat, fs: seq<Firing>, env: seq<seq<Request>>, j: nat, k: nat)
    requires j < |fs| && j < |env| && k < |env[j]|
    ensures var at := Total(env[..j]) + k;
            && at < |MadeDuring(n, fs, env)|
            && MadeDuring(n, fs, env)[at] == Timer(n + at, env[j][k].callBack, fs[j].tick, env[j][k].delay)
    decreases j
  {
    if j == 0 {
      assert Total(env[..0]) == 0;
    } else {
      MadeAt(n + |env[0]|, fs[1..], env[1..], j - 1, k);
      assert env[..j][1..] == env[1..][..j - 1];
    }
  }

  lemma UnusedTail(env: seq<seq<Request>>, n: nat)
    requires env != []
    ensures Unused(env[1..], n) == Unused(env, n + 1)
  {
  }

  lemma UnusedTwice(env: seq<seq<Request>>, m: nat, n: nat)
    ensures Unused(Unused(env, m), n) == Unused(env, m + n)
  {
  }

  lemma MadeFirst(n: nat, fs: seq<Firing>, env: seq<seq<Request>>)
    requires fs != [] && env != []
    ensures MadeDuring(n, fs, env) == Made(n, fs[0].tick, env[0]) + MadeDuring(n + |env[0]|, fs[1..], env[1..])
  {
  }

  lemma MadeNone(n: nat, fs: seq<Firing>, env: seq<seq<Request>>)
    requires fs == [] || env == []
    ensures MadeDuring(n, fs, env) == [] && Unused([], |fs|) == [] && Unused(env, 0) == env
  {
  }

  lemma Joined(x: seq<Timer>, y: seq<Timer>, z: seq<Timer>)
    ensures x + (y + z) == (x + y) + z && [] + z == z
  {
  }

  lemma {:induction false} MadeSplit(n: nat, fs: seq<Firing>, gs: seq<Firing>, env: seq<seq<Request>>)
    ensures var first := MadeDuring(n, fs, env);
            MadeDuring(n, fs + gs, env) == first + MadeDuring(n + |first|, gs, Unused(env, |fs|))
    decreases |fs|
  {
    hide MadeDuring, Made, Unused;
    if fs == [] {
      MadeNone(n, fs, env);
      assert fs + gs == gs;
      Joined([], [], MadeDuring(n, gs, env));
    } else if env == [] {
      MadeNone(n, fs, env);
      MadeNone(n, fs + gs, env);
      MadeNone(n, gs, []);
      Joined([], [], []);
    } else {
      MadeFirst(n, fs, env);
      MadeFirst(n, fs + gs, env);
      assert (fs + gs)[1..] == fs[1..] + gs && (fs + gs)[0] == fs[0];
      var x, m := Made(n, fs[0].tick, env[0]), n + |env[0]|;
      var first := MadeDuring(m, fs[1..], env[1..]);
      MadeSplit(m, fs[1..], gs, env[1..]);
      UnusedTail(env, |fs| - 1);
      Joined(x, first, MadeDuring(m + |first|, gs, Unused(env, |fs|)));
    }
  }

  /** The calls that arrive during the next callback. */
  function During(env: seq<seq<Request>>): seq<Request> {
    if env == [] then [] else env[0]
  }
}
