/** Programs between calls: every task is in the queue or done, and a worker makes
    one whole call after another. */
module Resting {
  import opened Jacobi
  import opened Residual
  import opened Machine
  import opened Skew
  import opened Refinement
  import opened Ring
  import opened Reduction
  import opened Stopping
  import opened Runs
  import opened Solo
  import opened Calls
  import opened Runtime
  import opened Driving
  import opened Polling
  import Pool

  // ----- what a whole call does -----

  /** The limit after an undisturbed call: as before, or n beyond its iteration. */
  lemma {:induction false} AloneLimit<T>(p: Problem<T>, s: State<T>, i: nat, m: nat)
    requires p.Valid() && Shape(p, s) && i < p.n && EndsAfter(p, s, i, m)
    ensures Alone(p, s, i, m).maxIter == s.maxIter || Alone(p, s, i, m).maxIter == s.iter[i] + p.n
    decreases m
  {
    hide Exec, Shape;
    if m > 0 {
      Sizes(p, s);
      LimitOnce(p, s, i);
      AloneLimit(p, Exec(p, s, i), i, m - 1);
    }
  }

  lemma LimitOnce<T>(p: Problem<T>, s: State<T>, i: nat)
    requires p.Valid() && Shape(p, s) && i < p.n && InTask(s.pc[i])
    ensures var s' := Exec(p, s, i);
            && |s'.iter| == |s'.pc| == p.n
            && (s'.maxIter == s.maxIter || s'.maxIter == s.iter[i] + p.n)
            && (s'.iter[i] == s.iter[i] || s'.pc[i].Finish?)
            && (InTask(s'.pc[i]) || s'.pc[i].Finish? || s'.pc[i].Failed?)
  {
    hide Exec;
    Frame(p, s, i);
    CountsOnce(p, s, i);
  }

  lemma CheckedInv<T>(p: Problem<T>, s: State<T>, i: nat)
    requires p.Valid() && Shape(p, s) && Inv(p, s) && i < p.n && s.pc[i].Idle?
    ensures |s.iter| == |s.pc| == p.n && Shape(p, Checked(p, s, i)) && Inv(p, Checked(p, s, i))
  {
    hide Exec, Inv;
    Sizes(p, s);
    CheckSteps(p, s, i) by { InvSkew(p, s); }
    InvStep(p, s, i);
    InvStep(p, Exec(p, s, i), i);
    InvStep(p, Exec(p, Exec(p, s, i), i), i);
  }

  /** A task alone in mu_task has left it when it is not at the done bit. */
  lemma MutexFree<T>(p: Problem<T>, s: State<T>, z: nat)
    requires p.Valid() && Shape(p, s) && z < p.n && Inv(p, s)
    requires MutexFor(s, z) && !s.pc[z].TestDone? && !s.pc[z].SetDone?
    ensures s.mutex.None?
  {
    assert ClaimOk(p, s, z);
  }

  /** The work of a call that is not disturbed. */
  lemma BodyCounts<T>(p: Problem<T>, s: State<T>, i: nat, m: nat)
    requires p.Valid() && Shape(p, s) && Inv(p, s) && i < p.n && s.mutex.None?
    requires s.pc[i].Sum? && EndsAfter(p, s, i, m)
    ensures var s' := Alone(p, s, i, m);
            && |s'.iter| == |s'.pc| == |s.iter| == |s.pc| == p.n
            && s'.pc == s.pc[i := s'.pc[i]] && s'.iter == s.iter[i := s'.iter[i]]
            && (s'.pc[i].Failed? || (s'.pc[i].Finish? && s'.iter[i] == s.iter[i] + 1))
            && (s'.maxIter == s.maxIter || s'.maxIter == s.iter[i] + p.n)
            && (s'.pc[i].Finish? ==> s'.mutex.None?)
  {
    hide Exec, Inv, Alone, EndsAfter;
    Sizes(p, s);
    Sizes(p, Alone(p, s, i, m));
    AloneKeeps(p, s, i, m);
    AloneCounts(p, s, i, m);
    AloneLimit(p, s, i, m);
    if Alone(p, s, i, m).pc[i].Finish? {
      MutexFree(p, Alone(p, s, i, m), i);
    }
  }

  /** A whole call that fails no assert. */
  lemma WholeCall<T>(p: Problem<T>, s: State<T>, i: nat, m: nat)
    requires p.Valid() && Shape(p, s) && Inv(p, s) && i < p.n && s.pc[i].Idle? && s.mutex.None?
    requires CallLasts(p, s, i, m) && i < |AfterCall(p, s, i, m).pc| && !AfterCall(p, s, i, m).pc[i].Failed?
    ensures |s.iter| == |s.pc| == p.n && Called(s, AfterCall(p, s, i, m), i, AfterCall(p, s, i, m).pc[i].Idle?)
    ensures AfterCall(p, s, i, m).pc[i].Idle? || AfterCall(p, s, i, m).pc[i].Done?
    ensures AfterCall(p, s, i, m).mutex.None?
  {
    hide Inv, Alone, EndsAfter, UpDiff, DownDiff, Shape;
    Sizes(p, s);
    CheckedInv(p, s, i);
    if PreCondsMet(UpDiff(s, i), DownDiff(s, i)) {
      BodyCounts(p, Checked(p, s, i), i, m);
    }
  }

  // ----- programs at rest -----

  /** Main has enqueued all tasks, and nobody is inside a call or about to requeue. */
  ghost predicate AtRest<T>(p: Problem<T>, r: Program<T>) {
    && r.pool.next == p.n
    && forall w | 0 <= w < |r.pool.workers| :: !r.pool.workers[w].Running? && !r.pool.workers[w].Requeue?
  }

  lemma RestQueued<T>(p: Problem<T>, threads: nat, r: Program<T>)
    requires p.Valid() && Shape(p, r.tasks) && ProgramInv(p, threads, r) && AtRest(p, r)
    ensures Queued(p, r.tasks, r.pool.queue)
  {
    forall a | 0 <= a < |r.pool.queue|
      ensures r.pool.queue[a] < p.n
    {
      assert r.pool.queue[a] in r.pool.queue;
    }
    forall t: nat | t < p.n
      ensures r.tasks.pc[t] == if t in r.pool.queue then Idle else Done
    {
      assert Agree(p, r, t) && Pool.PlaceOk(r.pool, t);
      if Pool.Held(r.pool, t) {
        var w: nat :| w < |r.pool.workers| && Pool.Holds(r.pool.workers[w], t);
        assert r.pool.workers[w] == Pool.Count(t);
      }
    }
  }

  lemma QueuedMutex<T>(p: Problem<T>, s: State<T>, queue: seq<nat>)
    requires p.Valid() && Shape(p, s) && Inv(p, s) && Queued(p, s, queue)
    ensures s.mutex.None?
  {
    hide Shape;
    forall b: nat | b < p.n
      ensures s.mutex != Some(b)
    {
      assert ClaimOk(p, s, b);
    }
  }

  lemma StopBounded<T>(p: Problem<T>, s: State<T>, queue: seq<nat>, last: nat)
    requires p.Valid() && StopsAt(p, last) && Shape(p, s) && StopInv(p, s, last) && Queued(p, s, queue)
    ensures Bounded(p, s, queue, p.limit)
  {
    forall t | 0 <= t < p.n
      ensures if t in queue then s.iter[t] < s.maxIter else s.iter[t] == s.maxIter
    {
      assert CounterOk(p, s, t);
    }
  }

  lemma NobodyFailed<T>(p: Problem<T>, s: State<T>, last: nat, i: nat)
    requires p.Valid() && StopsAt(p, last) && Shape(p, s) && StopInv(p, s, last) && i < p.n
    ensures !s.pc[i].Failed?
  {
    assert CounterOk(p, s, i);
  }

  /** Everything the polling argument needs of a program at rest. */
  lemma RestFacts<T>(p: Problem<T>, c: Course, r: Program<T>, last: nat)
    requires p.Valid() && Active(p, c, r) && AtRest(p, r) && StopsAt(p, last)
    ensures Shape(p, r.tasks) && |r.tasks.iter| == p.n
    ensures SkewInv(p, r.tasks) && Bounded(p, r.tasks, r.pool.queue, p.limit) && r.tasks.mutex.None?
  {
    hide StopsAt, StopInv, Inv, Reached, AtRest, ProgramInv, SkewInv;
    ActiveFacts(p, c, r);
    Sizes(p, r.tasks);
    ActiveInv(p, c, r);
    InvSkew(p, r.tasks);
    RestQueued(p, c.threads, r);
    QueuedMutex(p, r.tasks, r.pool.queue);
    ReachedStop(p, r.tasks, last);
    StopBounded(p, r.tasks, r.pool.queue, last);
  }

  /** With nothing else going on, a worker takes the head of the queue and makes a call. */
  lemma RestCall<T>(p: Problem<T>, c: Course, r: Program<T>, w: nat, last: nat) returns (r': Program<T>, again: bool)
    requires p.Valid() && Active(p, c, r) && AtRest(p, r) && StopsAt(p, last)
    requires w < |r.pool.workers| && r.pool.workers[w].Entering? && r.pool.queue != []
    ensures Active(p, c, r') && r.pool.queue[0] < |r.tasks.iter| == |r.tasks.pc|
    ensures Called(r.tasks, r'.tasks, r.pool.queue[0], again)
    ensures var t := r.pool.queue[0];
            r'.pool == Placed(r.pool, w, if again then Pool.Requeue(t) else Pool.Count(t)).(queue := r.pool.queue[1..])
  {
    hide StopsAt, StopInv, Inv, Reached, AtRest, Active, AfterCall, CallLasts, Called, ProgramInv;
    ActiveFacts(p, c, r);
    Sizes(p, r.tasks);
    ActiveInv(p, c, r);
    RestFacts(p, c, r, last);
    var m: nat;
    r', m := MakeCall(p, c, r, w);
    ActiveFacts(p, c, r');
    ActiveInv(p, c, r');
    ReachedStop(p, r'.tasks, last);
    Sizes(p, r'.tasks);
    NobodyFailed(p, r'.tasks, last, r.pool.queue[0]);
    WholeCall(p, r.tasks, r.pool.queue[0], m);
    again := r'.tasks.pc[r.pool.queue[0]].Idle?;
  }

  /** Such a call leaves less to do, once its task is back in the queue or counted. */
  lemma RestLess<T>(p: Problem<T>, c: Course, r: Program<T>, r': Program<T>, last: nat, again: bool)
    requires p.Valid() && StopsAt(p, last) && Active(p, c, r) && AtRest(p, r) && r.pool.queue != []
    requires Active(p, c, r') && AtRest(p, r')
    requires r.pool.queue[0] < |r.tasks.iter| == |r.tasks.pc| && Called(r.tasks, r'.tasks, r.pool.queue[0], again)
    requires r'.pool.queue == NextQueue(r.pool.queue, again)
    ensures LeftOf(p, r') < LeftOf(p, r)
  {
    hide StopsAt, Active, AtRest, Called, NextQueue, Left, SkewInv;
    RestFacts(p, c, r, last);
    RestFacts(p, c, r', last);
    LessLeft(p, r.tasks, r'.tasks, r.pool.queue, p.limit, again);
  }

  ghost function LeftOf<T>(p: Problem<T>, r: Program<T>): nat {
    if r.tasks.iter != [] && Fits(r.pool.queue, |r.tasks.iter|) then Left(r.tasks.iter, p.limit, r.pool.queue) else 0
  }

  /** Tasks that are not done are not all counted. */
  lemma SomeLeft<T>(p: Problem<T>, c: Course, r: Program<T>, z: nat)
    requires p.Valid() && Active(p, c, r) && z < p.n && z < |r.tasks.pc| && !r.tasks.pc[z].Done?
    ensures r.pool.numDone != p.n
  {
    hide Inv, Reached, After;
    ActiveInv(p, c, r);
    assert Agree(p, r, z);
    if r.pool.numDone == p.n {
      Pool.AllCounted(r.pool);
    }
  }

  // ----- the start -----

  /** The pool when main has enqueued its first k tasks and no worker has moved. */
  function Filled(tasks: nat, threads: nat, k: nat): (s: Pool.Pool)
    ensures NoneBlocked(s) && |s.workers| == threads && s.next == k && |s.queue| == k && !s.stop && !s.owes
    ensures forall w | 0 <= w < threads :: s.workers[w] == Pool.Entering
    ensures forall a | 0 <= a < k :: s.queue[a] == a
  {
    Pool.Start(tasks, threads).(queue := seq(k, a => a), next := k)
  }

  lemma FilledNext(tasks: nat, threads: nat, k: nat)
    ensures Filled(tasks, threads, 0) == Pool.Start(tasks, threads)
    ensures var s := Filled(tasks, threads, k);
            Filled(tasks, threads, k + 1) == s.(queue := s.queue + [k], next := k + 1)
  {
    assert seq(k, a => a) + [k] == seq(k + 1, a => a);
    assert seq(0, a => a) == [];
  }

  lemma {:induction false} EnqueueAll<T>(p: Problem<T>, c: Course, k: nat) returns (r: Program<T>)
    requires p.Valid() && c.past == [] && c.threads >= 1 && k <= p.n
    ensures Active(p, c, r) && r == Program(Init(p), Filled(p.n, c.threads, k))
  {
    hide Active, Init, Filled, Shape;
    if k == 0 {
      r := Started(p, c);
      FilledNext(p.n, c.threads, 0);
    } else {
      var r1 := EnqueueAll(p, c, k - 1);
      FilledNext(p.n, c.threads, k - 1);
      r := EnqueueMove(p, c, r1);
    }
  }
}
