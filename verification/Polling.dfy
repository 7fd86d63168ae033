/** Calls that follow one another: each takes the head of the queue, and each,
    whether it passes its check or not, leaves less to do. */
module Polling {
  import opened Jacobi
  import opened Residual
  import opened Machine
  import opened Skew
  import opened Finishing

  // ----- states between two calls -----

  ghost predicate Fits(queue: seq<nat>, n: nat) {
    forall a | 0 <= a < |queue| :: queue[a] < n
  }

  ghost predicate NoneTwice(queue: seq<nat>) {
    forall a, b | 0 <= a < b < |queue| :: queue[a] != queue[b]
  }

  /** The queue holds exactly the tasks that are not done, each once. */
  ghost predicate Queued<T>(p: Problem<T>, s: State<T>, queue: seq<nat>)
    requires p.Valid() && Shape(p, s)
  {
    Fits(queue, p.n) && NoneTwice(queue) && forall t | 0 <= t < p.n :: s.pc[t] == if t in queue then Idle else Done
  }

  /** A task leaves the queue when it has reached the limit, and only then. */
  ghost predicate Bounded<T>(p: Problem<T>, s: State<T>, queue: seq<nat>, most: nat)
    requires p.Valid() && Shape(p, s)
  {
    && Queued(p, s, queue) && s.maxIter <= most
    && forall t | 0 <= t < p.n :: if t in queue then s.iter[t] < s.maxIter else s.iter[t] == s.maxIter
  }

  /** The effect of a whole call of task i on counters, places and the limit. */
  ghost predicate Called<T>(s: State<T>, s': State<T>, i: nat, again: bool)
    requires i < |s.iter| == |s.pc|
  {
    var passed := PreCondsMet(UpDiff(s, i), DownDiff(s, i));
    && s'.iter == (if passed then s.iter[i := s.iter[i] + 1] else s.iter)
    && s'.pc == s.pc[i := if again then Idle else Done] && again == (s'.iter[i] < s'.maxIter)
    && (s'.maxIter == s.maxIter || (passed && s'.maxIter == s.iter[i] + |s.iter|))
  }

  /** The queue after a call of its head. */
  function NextQueue(queue: seq<nat>, again: bool): seq<nat>
    requires queue != []
  {
    if again then queue[1..] + [queue[0]] else queue[1..]
  }

  lemma InRest(queue: seq<nat>, t: nat)
    requires queue != [] && NoneTwice(queue)
    ensures t in queue[1..] <==> t in queue && t != queue[0]
  {
    if a :| 0 <= a < |queue| && queue[a] == t {
      assert a > 0 ==> queue[1..][a - 1] == t;
    }
    if a :| 0 <= a < |queue[1..]| && queue[1..][a] == t {
      assert queue[a + 1] == t;
    }
  }

  lemma QueueAfter<T>(p: Problem<T>, s: State<T>, s': State<T>, queue: seq<nat>, again: bool)
    requires p.Valid() && Shape(p, s) && Shape(p, s') && Queued(p, s, queue) && queue != []
    requires Called(s, s', queue[0], again)
    ensures Queued(p, s', NextQueue(queue, again))
  {
    var i, queue' := queue[0], NextQueue(queue, again);
    assert s'.pc == s.pc[i := if again then Idle else Done];
    forall t: nat | t < p.n
      ensures t in queue' <==> if t == i then again else t in queue
    {
      InRest(queue, t);
    }
    InRest(queue, i);
    assert forall a | 0 <= a < |queue| - 1 :: queue'[a] == queue[a + 1];
    assert Fits(queue', p.n);
    assert NoneTwice(queue');
  }

  // ----- the measure -----

  /** Some task in the queue has done at most m iterations. */
  ghost predicate SomeAtMost(queue: seq<nat>, iter: seq<nat>, m: nat)
    requires Fits(queue, |iter|)
  {
    exists a :: 0 <= a < |queue| && iter[queue[a]] <= m
  }

  /** How many tasks in the queue are before the first one with at most m iterations. */
  ghost function Ahead(queue: seq<nat>, iter: seq<nat>, m: nat): (k: nat)
    requires Fits(queue, |iter|)
    ensures k <= |queue|
    ensures SomeAtMost(queue, iter, m) ==> k < |queue|
  {
    if queue == [] || iter[queue[0]] <= m then 0
    else
      assert Fits(queue[1..], |iter|);
      assert SomeAtMost(queue, iter, m) ==> SomeAtMost(queue[1..], iter, m) by {
        if a :| 0 <= a < |queue| && iter[queue[a]] <= m {
          assert queue[1..][a - 1] == queue[a];
        }
      }
      1 + Ahead(queue[1..], iter, m)
  }

  /** A task put back at the end is behind the first minimal one. */
  lemma {:induction false} AheadRotates(queue: seq<nat>, back: nat, iter: seq<nat>, m: nat)
    requires Fits(queue, |iter|) && Fits(queue + [back], |iter|)
    requires SomeAtMost(queue, iter, m)
    ensures Ahead(queue + [back], iter, m) == Ahead(queue, iter, m)
  {
    if iter[queue[0]] > m {
      assert (queue + [back])[1..] == queue[1..] + [back];
      var a :| 0 <= a < |queue| && iter[queue[a]] <= m;
      assert queue[1..][a - 1] == queue[a];
      AheadRotates(queue[1..], back, iter, m);
    }
  }

  /** What is left to do: n calls for each iteration, and one for each task that
      polls before the first minimal one. */
  ghost function Left(iter: seq<nat>, most: nat, queue: seq<nat>): nat
    requires iter != [] && Fits(queue, |iter|)
  {
    Times(Remaining(iter, most, |iter|), |iter|) + Ahead(queue, iter, Least(iter, |iter|))
  }

  lemma MinimalQueued<T>(p: Problem<T>, s: State<T>, queue: seq<nat>, most: nat)
    requires p.Valid() && Shape(p, s) && Bounded(p, s, queue, most) && queue != []
    ensures SomeAtMost(queue, s.iter, Least(s.iter, p.n))
  {
    var t :| 0 <= t < p.n && s.iter[t] == Least(s.iter, p.n);
    assert queue[0] in queue && queue[0] < p.n;
    assert Least(s.iter, p.n) <= s.iter[queue[0]];
    assert s.iter[t] <= s.iter[queue[0]] < s.maxIter;
  }

  /** A queue without repetition is no longer than the number of tasks. */
  lemma {:induction false} Distinct(queue: seq<nat>, n: nat)
    requires Fits(queue, n) && NoneTwice(queue)
    ensures |queue| <= n
  {
    assert |queue| > 0 ==> queue[0] < n;
    if n == 0 {
    } else if a :| 0 <= a < |queue| && queue[a] == n - 1 {
      var rest := queue[..a] + queue[a + 1..];
      Distinct(rest, n - 1);
    } else {
      Distinct(queue, n - 1);
    }
  }

  /** n different numbers below n are all of them. */
  lemma FullQueue(queue: seq<nat>, n: nat, t: nat)
    requires Fits(queue, n) && NoneTwice(queue) && |queue| == n && t < n
    ensures t in queue
  {
    if t !in queue {
      var shifted := seq(n, a requires 0 <= a < n => if queue[a] == n - 1 then t else queue[a]);
      Distinct(shifted, n - 1);
    }
  }

  /** A call that passes its check. */
  lemma LessAfterPass<T>(p: Problem<T>, s: State<T>, s': State<T>, queue: seq<nat>, queue': seq<nat>, i: nat, most: nat)
    requires p.Valid() && Shape(p, s) && Shape(p, s') && i < p.n && s.iter[i] < most
    requires Bounded(p, s', queue', most) && Fits(queue, p.n)
    requires s'.iter == s.iter[i := s.iter[i] + 1]
    ensures Left(s'.iter, most, queue') < Left(s.iter, most, queue)
  {
    RemainingFalls(s.iter, most, most, i, p.n);
    var r, r' := Remaining(s.iter, most, p.n), Remaining(s'.iter, most, p.n);
    TimesMonotone(r', r - 1, p.n);
    Distinct(queue', p.n);
    if queue' != [] {
      MinimalQueued(p, s', queue', most);
    }
  }

  /** A call that fails its check brings the first minimal task one place forward. */
  lemma LessAfterPoll<T>(p: Problem<T>, s: State<T>, queue: seq<nat>, most: nat)
    requires p.Valid() && SkewInv(p, s) && Bounded(p, s, queue, most)
    requires queue != [] && !PreCondsMet(UpDiff(s, queue[0]), DownDiff(s, queue[0]))
    ensures Fits(NextQueue(queue, true), p.n)
    ensures Left(s.iter, most, NextQueue(queue, true)) < Left(s.iter, most, queue)
  {
    hide Remaining;
    var i, m := queue[0], Least(s.iter, p.n);
    MinimalQueued(p, s, queue, most);
    FailedIsAhead(p, s, i);
    var a :| 0 <= a < |queue| && s.iter[queue[a]] <= m;
    assert queue[1..][a - 1] == queue[a];
    AheadRotates(queue[1..], i, s.iter, m);
  }

  lemma FailedIsAhead<T>(p: Problem<T>, s: State<T>, i: nat)
    requires p.Valid() && SkewInv(p, s) && i < p.n && !PreCondsMet(UpDiff(s, i), DownDiff(s, i))
    ensures s.iter[i] > Least(s.iter, p.n)
  {
    if i > 0 {
      assert AdjacentOk(p, s, i - 1);
    }
    if i + 1 < p.n {
      assert AdjacentOk(p, s, i);
    }
  }

  /** Each call, whether it passes its check or not, leaves less to do. */
  lemma LessLeft<T>(p: Problem<T>, s: State<T>, s': State<T>, queue: seq<nat>, most: nat, again: bool)
    requires p.Valid() && Shape(p, s) && SkewInv(p, s) && Shape(p, s') && queue != []
    requires Bounded(p, s, queue, most) && Called(s, s', queue[0], again)
    requires Bounded(p, s', NextQueue(queue, again), most)
    ensures Left(s'.iter, most, NextQueue(queue, again)) < Left(s.iter, most, queue)
  {
    hide Remaining, SkewInv, Left, UpDiff, DownDiff;
    var i := queue[0];
    assert i in queue;
    if PreCondsMet(UpDiff(s, i), DownDiff(s, i)) {
      LessAfterPass(p, s, s', queue, NextQueue(queue, again), i, most);
    } else {
      LessAfterPoll(p, s, queue, most);
      assert s'.iter == s.iter;
    }
  }
}
