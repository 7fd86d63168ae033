/** When the assert before stopping the pool (ThreadPool.hpp:246) can fail: a run of
    the whole program that makes it fail, and the exact condition under which none does. */
module StopAssert {
  import opened Jacobi
  import opened Residual
  import opened Machine
  import opened Stopping
  import opened Runtime
  import opened Driving
  import opened Polling
  import opened Resting
  import Pool

  /** Workers other than w are outside calls. */
  ghost predicate OthersOut(s: Pool.Pool, w: nat) {
    forall v | 0 <= v < |s.workers| && v != w :: s.workers[v].Entering? || s.workers[v].Count?
  }

  /** The queue is not empty, so not all tasks are counted. */
  lemma NotAllCounted<T>(p: Problem<T>, c: Course, r: Program<T>)
    requires p.Valid() && Active(p, c, r) && r.pool.queue != []
    ensures r.pool.numDone != p.n
  {
    hide Runs.Inv, Reached, After;
    ActiveInv(p, c, r);
    if r.pool.numDone == p.n {
      Pool.AllCounted(r.pool);
    }
  }

  /** Worker w makes calls until one returns false with just the given number of
      tasks left in the queue. */
  lemma {:induction false} CallsUntil<T>(p: Problem<T>, c: Course, r: Program<T>, w: nat, last: nat, left: nat)
    returns (r': Program<T>, x: nat)
    requires p.Valid() && StopsAt(p, last) && Active(p, c, r) && r.pool.next == p.n && !r.pool.stop
    requires w < |r.pool.workers| && r.pool.workers[w].Entering? && OthersOut(r.pool, w) && |r.pool.queue| > left
    ensures Active(p, c, r') && r'.pool.next == p.n && !r'.pool.stop
    ensures r'.pool.workers == r.pool.workers[w := Pool.Count(x)] && |r'.pool.queue| == left
    decreases LeftOf(p, r)
  {
    hide StopsAt, Active, Called, LeftOf;
    var r1, again := RestCall(p, c, r, w, last);
    x := r.pool.queue[0];
    if again {
      var r2 := RequeueMove(p, c, r1, w);
      RestLess(p, c, r, r2, last, again);
      assert r2.pool.workers == r.pool.workers;
      r', x := CallsUntil(p, c, r2, w, last, left);
    } else if |r.pool.queue| - 1 == left {
      r' := r1;
    } else {
      var r2 := CountMove(p, c, r1, w);
      NotAllCounted(p, c, r2);
      var r3 := TestMove(p, c, r2, w);
      RestLess(p, c, r, r3, last, again);
      assert r3.pool.workers == r.pool.workers;
      r', x := CallsUntil(p, c, r3, w, last, left);
    }
  }

  /** The first two workers each hold one of the last two tasks, done but not counted. */
  lemma LastTwo<T>(p: Problem<T>, c: Course, last: nat) returns (r: Program<T>, x: nat, y: nat)
    requires p.Valid() && c.past == [] && StopsAt(p, last) && c.threads >= 2
    ensures Active(p, c, r) && r.pool.next == p.n && !r.pool.stop && |r.pool.workers| == c.threads
    ensures r.pool.queue == [] && r.pool.workers[0] == Pool.Count(x) && r.pool.workers[1] == Pool.Count(y)
    ensures forall v | 2 <= v < c.threads :: r.pool.workers[v].Entering?
  {
    hide StopsAt, Active;
    var r0 := EnqueueAll(p, c, p.n);
    var r1: Program<T>;
    r1, x := CallsUntil(p, c, r0, 0, last, 1);
    r, y := CallsUntil(p, c, r1, 1, last, 0);
  }

  /** Nothing queued and nothing held: all tasks are counted. */
  lemma CountFull<T>(p: Problem<T>, c: Course, r: Program<T>)
    requires p.Valid() && Active(p, c, r) && r.pool.next == p.n && r.pool.queue == []
    requires forall w | 0 <= w < |r.pool.workers| :: r.pool.workers[w].Entering? || r.pool.workers[w].TestCount?
    ensures r.pool.numDone == p.n
  {
    hide Runs.Inv, Reached, After;
    ActiveInv(p, c, r);
    forall t: nat
      ensures t in r.pool.counted <==> t < p.n
    {
      assert t < p.n ==> Pool.PlaceOk(r.pool, t);
    }
    Pool.CountAll(r.pool.counted, p.n);
  }

  /** Both have seen the full count. */
  lemma BothSee<T>(p: Problem<T>, c: Course, last: nat) returns (r: Program<T>)
    requires p.Valid() && c.past == [] && StopsAt(p, last) && c.threads >= 2
    ensures Active(p, c, r) && |r.pool.workers| == c.threads && !r.pool.stop
    ensures r.pool.workers[0].CheckStop? && r.pool.workers[1].CheckStop?
  {
    hide StopsAt, Active;
    var r0, x, y := LastTwo(p, c, last);
    var r1 := CountMove(p, c, r0, 0);
    var r2 := CountMove(p, c, r1, 1);
    CountFull(p, c, r2);
    var r3 := TestMove(p, c, r2, 0);
    r := TestMove(p, c, r3, 1);
  }

  /** The first worker passes the assert and sets stop. */
  lemma StopSteps(s: Pool.Pool)
    requires !s.aborted && !s.thrown && !s.stop
    requires |s.workers| >= 2 && s.workers[0].CheckStop? && s.workers[1].CheckStop?
    ensures var s1 := Pool.Step(s, Pool.Work(0, 0, false));
            var s2 := Pool.Step(s1, Pool.Work(0, 0, false));
            && !s1.aborted && !s2.aborted && s1.workers == s.workers[0 := Pool.SetStop]
            && Pool.Legal(s, Pool.Work(0, 0, false)) && Pool.Legal(s1, Pool.Work(0, 0, false))
            && Pool.Legal(s2, Pool.Work(1, 0, false))
            && |s2.workers| == |s.workers| && s2.stop && s2.workers[1].CheckStop?
  {
  }

  lemma SecondStops<T>(p: Problem<T>, r: Program<T>)
    requires p.Valid() && Shape(p, r.tasks) && !r.pool.aborted && !r.pool.thrown
    requires |r.pool.workers| >= 2 && r.pool.stop && r.pool.workers[1].CheckStop?
    ensures Move(p, r, Pool.Work(1, 0, false)).pool.aborted
  {
  }

  /** The first sets stop, then the second tests it. */
  lemma AbortRun<T>(p: Problem<T>, threads: nat, last: nat) returns (r: Program<T>)
    requires p.Valid() && StopsAt(p, last) && threads >= 2
    ensures Reachable(p, threads, r) && r.pool.aborted
  {
    hide *;
    var c := Course(threads, []);
    var r0 := BothSee(p, c, last);
    ActiveFacts(p, c, r0);
    StopSteps(r0.pool);
    var r1 := PoolMove(p, c, r0, Pool.Work(0, 0, false));
    var r2 := PoolMove(p, c, r1, Pool.Work(0, 0, false));
    ActiveFacts(p, c, r2);
    ActiveReachable(p, c, r2);
    r := GoOn(p, c, r2, Pool.Work(1, 0, false));
    SecondStops(p, r2);
    AfterReachable(p, c, r);
  }

  /** With one worker no run fails the assert. */
  lemma {:induction false} LoneWorker<T>(p: Problem<T>, acts: seq<Pool.Action>)
    requires p.Valid() && LegalGo(p, 1, acts)
    ensures Pool.AloneOk(Go(p, 1, acts).pool)
  {
    hide Shape, Exec;
    if acts == [] {
    } else {
      var r := Go(p, 1, acts[..|acts| - 1]);
      LoneWorker(p, acts[..|acts| - 1]);
      ProgramRun(p, 1, acts[..|acts| - 1]);
      LoneStep(p, r, acts[|acts| - 1]);
    }
  }

  lemma LoneStep<T>(p: Problem<T>, r: Program<T>, a: Pool.Action)
    requires p.Valid() && Shape(p, r.tasks) && ProgramInv(p, 1, r) && Pool.Legal(r.pool, a) && Pool.AloneOk(r.pool)
    ensures Pool.AloneOk(Move(p, r, a).pool)
  {
    hide Exec, Shape, Pool.Step, Pool.AloneOk;
    if InCall(p, r, a) {
      Pool.AloneStep(r.pool, Pool.Work(a.w, a.wake, true));
      Pool.AloneStep(r.pool, Pool.Work(a.w, a.wake, false));
    } else {
      Pool.AloneStep(r.pool, a);
    }
  }

  /** Exactly when the assert before stopping holds in every run of the program. */
  lemma StopAssertHoldsIff<T>(p: Problem<T>, threads: nat, last: nat)
    requires p.Valid() && StopsAt(p, last) && threads >= 1
    ensures (forall r: Program<T> | Reachable(p, threads, r) :: !r.pool.aborted) <==> threads == 1
  {
    hide StopsAt;
    if threads == 1 {
      forall r: Program<T> | Reachable(p, 1, r)
        ensures !r.pool.aborted
      {
        var acts: seq<Pool.Action> :| LegalGo(p, 1, acts) && Go(p, 1, acts) == r;
        LoneWorker(p, acts);
      }
    } else {
      var r := AbortRun(p, threads, last);
    }
  }
}
