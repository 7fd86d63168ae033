/** The program is never trapped: whatever main and the workers have done, they can
    go on in a way that brings them to rest. */
module Halting {
  import opened Jacobi
  import opened Residual
  import opened Machine
  import opened Skew
  import opened Refinement
  import opened Ring
  import opened Reduction
  import opened Stopping
  import opened Runs
  import opened Solo
  import opened Calls
  import opened Finishing
  import opened Runtime
  import opened Driving
  import opened Polling
  import opened Resting
  import Pool

  // ----- one worker at a time -----

  /** Outside calls, with nothing left to do before the queue. */
  predicate Out(pc: Pool.Worker) {
    pc.Entering? || pc.Blocked? || pc.Exited?
  }

  /** Steps a worker needs from the return of a call to the queue. */
  function ToQueue(pc: Pool.Worker): nat {
    match pc
    case Count(_) => 5
    case TestCount => 4
    case CheckStop => 3
    case SetStop => 2
    case NotifyAll => 1
    case Requeue(_) => 1
    case _ => 0
  }

  /** At most woken, apart from worker w. */
  ghost predicate OnlyWoken(s: Pool.Pool, s': Pool.Pool, w: nat) {
    && |s'.workers| == |s.workers| && s'.next == s.next && s'.owes == s.owes
    && forall v | 0 <= v < |s.workers| && v != w ::
         s'.workers[v] == s.workers[v] || (s.workers[v].Blocked? && s'.workers[v].Entering?)
  }

  function QueueAfterOut(s: Pool.Pool, w: nat): seq<nat>
    requires w < |s.workers|
  {
    if s.workers[w].Requeue? then s.queue + [s.workers[w].t] else s.queue
  }

  lemma OutStep(s: Pool.Pool, w: nat, wake: nat)
    requires w < |s.workers| && !Out(s.workers[w]) && !s.workers[w].Running? && !s.aborted && !s.thrown
    ensures var s' := Pool.Step(s, Pool.Work(w, wake, false));
            s'.aborted || s'.thrown
            || (OnlyWoken(s, s', w) && ToQueue(s'.workers[w]) < ToQueue(s.workers[w]) && !s'.workers[w].Running?
                && s'.queue == QueueAfterOut(s, w) && !s'.workers[w].Requeue?)
  {
  }

  /** A worker whose call has returned comes back to the queue, or an assert fails. */
  lemma {:induction false} ComeBack<T>(p: Problem<T>, c: Course, r: Program<T>, w: nat) returns (r': Program<T>)
    requires p.Valid() && Active(p, c, r) && w < |r.pool.workers| && !r.pool.workers[w].Running?
    ensures After(p, c, r') && r'.tasks == r.tasks
    ensures r'.pool.aborted
            || (Active(p, c, r') && OnlyWoken(r.pool, r'.pool, w) && Out(r'.pool.workers[w])
                && r'.pool.queue == QueueAfterOut(r.pool, w))
    decreases ToQueue(r.pool.workers[w])
  {
    hide Active, After, Pool.Step, Pool.CanWake;
    ActiveFacts(p, c, r);
    ActiveReachable(p, c, r);
    r' := r;
    if !Out(r.pool.workers[w]) {
      var wake := Pool.SomeWake(r.pool.workers);
      OutStep(r.pool, w, wake);
      r' := PoolMove(p, c, r, Pool.Work(w, wake, false));
      AfterMove(p, c, r, r', Pool.Work(w, wake, false));
      if !r'.pool.aborted {
        ActiveFacts(p, c, r');
        r' := ComeBack(p, c, r', w);
      }
    }
  }

  lemma AfterMove<T>(p: Problem<T>, c: Course, r: Program<T>, r': Program<T>, a: Pool.Action)
    requires p.Valid() && Active(p, c, r) && Pool.Legal(r.pool, a) && r' == Program(r.tasks, Pool.Step(r.pool, a))
    requires !(a.Work? && a.w < |r.pool.workers| && r.pool.workers[a.w].Running?)
    ensures After(p, c, r')
  {
    hide After, Pool.Step, Pool.Legal;
    var r1 := GoOn(p, c, r, a);
  }

  /** A call that nobody disturbs returns, wherever it stands. */
  lemma {:induction false} Return<T>(p: Problem<T>, c: Course, r: Program<T>, w: nat, last: nat)
    returns (r': Program<T>)
    requires p.Valid() && Active(p, c, r) && StopsAt(p, last) && w < |r.pool.workers| && r.pool.workers[w].Running?
    requires r.pool.workers[w].t < p.n && MutexFor(r.tasks, r.pool.workers[w].t)
    requires !r.tasks.pc[r.pool.workers[w].t].Done?
    ensures Active(p, c, r') && |r'.pool.workers| == |r.pool.workers| && OnlyWoken(r.pool, r'.pool, w)
    ensures !r'.pool.workers[w].Running?
    decreases Phase(r.tasks.pc[r.pool.workers[w].t]),
              Outer(p, r.pool.workers[w].t, r.tasks.pc[r.pool.workers[w].t]),
              Inner(p, r.tasks.pc[r.pool.workers[w].t]),
              Regs(r.tasks.pc[r.pool.workers[w].t])
  {
    hide Active, StopsAt, StopInv, Inv, Exec, Shape, Outer, Inner, Regs, ProgramInv, Reached;
    ActiveFacts(p, c, r);
    ActiveInv(p, c, r);
    Sizes(p, r.tasks);
    var t := r.pool.workers[w].t;
    ReachedStop(p, r.tasks, last);
    NobodyFailed(p, r.tasks, last, t);
    if r.tasks.pc[t].Finish? {
      r' := ReturnMove(p, c, r, w);
    } else {
      OnNearer(p, r.tasks, t);
      var r1 := TaskMove(p, c, r, w);
      r' := Return(p, c, r1, w, last);
    }
  }

  lemma OnNearer<T>(p: Problem<T>, s: State<T>, i: nat)
    requires p.Valid() && Shape(p, s) && Inv(p, s) && i < p.n && MutexFor(s, i)
    requires !s.pc[i].Finish? && !s.pc[i].Done? && !s.pc[i].Failed?
    ensures var s' := Exec(p, s, i);
            && i < |s'.pc| && MutexFor(s', i) && Nearer(p, i, s.pc[i], s'.pc[i]) && !s'.pc[i].Done? && !s'.pc[i].Idle?
  {
    hide Exec, Inv;
    if InTask(s.pc[i]) {
      var s1 := OneNearer(p, s, i);
    } else {
      StepKeeps(p, s, i);
      NearerCheck(p, s, i);
    }
  }

  lemma NearerCheck<T>(p: Problem<T>, s: State<T>, i: nat)
    requires p.Valid() && Shape(p, s) && i < p.n && (s.pc[i].Idle? || s.pc[i].ReadUp? || s.pc[i].ReadDown?)
    ensures var pc := Exec(p, s, i).pc[i]; Nearer(p, i, s.pc[i], pc) && !pc.Done? && !pc.Idle?
  {
    assert Exec(p, s, i) == StepCheck(p, s, i);
  }

  /** Whoever is inside mu_task leaves it. */
  lemma LeaveMutex<T>(p: Problem<T>, c: Course, r: Program<T>) returns (r': Program<T>)
    requires p.Valid() && Active(p, c, r)
    ensures Active(p, c, r') && r'.pool == r.pool && r'.tasks.mutex.None?
  {
    hide Active, Inv, Exec, Shape, ProgramInv, Reached;
    ActiveFacts(p, c, r);
    ActiveInv(p, c, r);
    Sizes(p, r.tasks);
    r' := r;
    if r.tasks.mutex.Some? {
      var b, w := Inside(p, c.threads, r);
      ClaimMoves(p, r.tasks, b);
      r' := TaskMove(p, c, r, w);
      if r'.tasks.mutex.Some? {
        ClaimMoves(p, r'.tasks, b);
        r' := TaskMove(p, c, r', w);
      }
    }
  }

  /** The holder of mu_task and the worker that runs it. */
  lemma Inside<T>(p: Problem<T>, threads: nat, r: Program<T>) returns (b: nat, w: nat)
    requires p.Valid() && Shape(p, r.tasks) && Inv(p, r.tasks) && ProgramInv(p, threads, r) && r.tasks.mutex.Some?
    ensures b < p.n && (r.tasks.pc[b].TestDone? || r.tasks.pc[b].SetDone?)
    ensures w < |r.pool.workers| && r.pool.workers[w] == Pool.Running(b)
  {
    b := r.tasks.mutex.value;
    assert ClaimOk(p, r.tasks, b) && Agree(p, r, b) && Pool.PlaceOk(r.pool, b);
    w :| w < |r.pool.workers| && Pool.Holds(r.pool.workers[w], b);
  }

  // ----- all of them -----

  /** The first k workers are out of calls. */
  ghost predicate OutUpTo(s: Pool.Pool, k: nat) {
    k <= |s.workers| && !s.owes && forall w | 0 <= w < k :: Out(s.workers[w])
  }

  lemma OutOneMore(s: Pool.Pool, s': Pool.Pool, k: nat)
    requires k < |s.workers| && OutUpTo(s, k) && OnlyWoken(s, s', k)
    ensures OutUpTo(s', k) && (Out(s'.workers[k]) ==> OutUpTo(s', k + 1))
  {
  }

  /** The task a worker runs is not done. */
  lemma RunsIt<T>(p: Problem<T>, threads: nat, r: Program<T>, w: nat)
    requires p.Valid() && Shape(p, r.tasks) && ProgramInv(p, threads, r) && w < |r.pool.workers|
    requires r.pool.workers[w].Running?
    ensures r.pool.workers[w].t < p.n && !r.tasks.pc[r.pool.workers[w].t].Done?
  {
    var t := r.pool.workers[w].t;
    assert Pool.Holds(r.pool.workers[w], t) && Pool.Held(r.pool, t);
    assert t < p.n;
    assert Agree(p, r, t);
  }

  /** The next worker comes out of its call and back to the queue. */
  lemma SettleOne<T>(p: Problem<T>, c: Course, r: Program<T>, k: nat, last: nat) returns (r': Program<T>)
    requires p.Valid() && Active(p, c, r) && StopsAt(p, last) && k < |r.pool.workers| && OutUpTo(r.pool, k)
    ensures After(p, c, r') && Shape(p, r'.tasks)
    ensures r'.pool.aborted
            || (Active(p, c, r') && |r'.pool.workers| == |r.pool.workers| && r'.pool.next == r.pool.next
                && OutUpTo(r'.pool, k + 1))
  {
    hide Active, After, StopsAt, Inv, Shape, ProgramInv, Reached, OutUpTo, Out;
    ActiveFacts(p, c, r);
    var r1 := r;
    if r.pool.workers[k].Running? {
      var r0 := LeaveMutex(p, c, r);
      ActiveFacts(p, c, r0);
      ActiveInv(p, c, r0);
      RunsIt(p, c.threads, r0, k);
      r1 := Return(p, c, r0, k, last);
      OutOneMore(r0.pool, r1.pool, k);
    }
    r' := ComeBack(p, c, r1, k);
    ActiveFacts(p, c, r1);
    if !r'.pool.aborted {
      OutOneMore(r1.pool, r'.pool, k);
    }
  }

  lemma {:induction false} SettleAll<T>(p: Problem<T>, c: Course, r: Program<T>, k: nat, last: nat)
    returns (r': Program<T>)
    requires p.Valid() && Active(p, c, r) && StopsAt(p, last) && OutUpTo(r.pool, k)
    ensures After(p, c, r') && Shape(p, r'.tasks)
    ensures r'.pool.aborted
            || (Active(p, c, r') && r'.pool.next == r.pool.next && OutUpTo(r'.pool, |r'.pool.workers|))
    decreases |r.pool.workers| - k
  {
    hide Active, After, StopsAt, Shape;
    if k == |r.pool.workers| {
      r' := r;
      ActiveReachable(p, c, r);
      ActiveFacts(p, c, r);
    } else {
      r' := SettleOne(p, c, r, k, last);
      if !r'.pool.aborted {
        r' := SettleAll(p, c, r', k + 1, last);
      }
    }
  }

  /** What main still has to do. */
  function MainLeft(s: Pool.Pool): int {
    2 * (s.tasks - s.next) + if s.owes then 1 else 0
  }

  lemma MainStepLess(s: Pool.Pool, wake: nat)
    requires s.next <= s.tasks && !s.aborted && !s.thrown && (s.owes || s.next < s.tasks)
    ensures var s' := Pool.Step(s, Pool.Main(wake));
            !s'.aborted && (s'.thrown || (s'.tasks == s.tasks && s'.next <= s'.tasks && MainLeft(s') < MainLeft(s)))
  {
  }

  /** Main enqueues all tasks. */
  lemma {:induction false} MainEnds<T>(p: Problem<T>, c: Course, r: Program<T>) returns (r': Program<T>)
    requires p.Valid() && Active(p, c, r) && r.pool.next <= p.n
    ensures Active(p, c, r') && r'.pool.next == p.n && !r'.pool.owes
    decreases MainLeft(r.pool)
  {
    hide Active, Pool.Step, Pool.CanWake;
    ActiveFacts(p, c, r);
    r' := r;
    if r.pool.owes || r.pool.next < p.n {
      var wake := Pool.SomeWake(r.pool.workers);
      MainStepLess(r.pool, wake);
      r' := PoolMove(p, c, r, Pool.Main(wake));
      ActiveFacts(p, c, r');
      r' := MainEnds(p, c, r');
    }
  }

  // ----- from there on, one call after another -----

  /** Main has finished and every worker is out of calls. */
  ghost predicate Calm<T>(p: Problem<T>, c: Course, r: Program<T>)
    requires p.Valid()
  {
    Active(p, c, r) && r.pool.next == p.n && OutUpTo(r.pool, |r.pool.workers|)
  }

  /** Until the pool has stopped, some worker has a task to take. */
  lemma SomeoneGoes<T>(p: Problem<T>, threads: nat, r: Program<T>) returns (w: nat)
    requires p.Valid() && Shape(p, r.tasks) && ProgramInv(p, threads, r) && r.pool.next == p.n && !r.pool.stop
    requires OutUpTo(r.pool, |r.pool.workers|)
    ensures w < |r.pool.workers| && r.pool.workers[w].Entering? && r.pool.queue != []
  {
    if r.pool.queue == [] {
      forall t: nat
        ensures t in r.pool.counted <==> t < p.n
      {
        assert t < p.n ==> Pool.PlaceOk(r.pool, t);
      }
      Pool.CountAll(r.pool.counted, p.n);
    }
    w :| w < |r.pool.workers| && Pool.Awake(r.pool.workers[w]);
  }

  /** With the pool stopped, every worker that is awake leaves. */
  lemma {:induction false} LeaveAll<T>(p: Problem<T>, c: Course, r: Program<T>, k: nat) returns (r': Program<T>)
    requires p.Valid() && Calm(p, c, r) && r.pool.stop && k <= |r.pool.workers|
    requires forall w | 0 <= w < k :: r.pool.workers[w].Exited?
    ensures After(p, c, r') && Shape(p, r'.tasks) && r'.pool.next == p.n && !r'.pool.owes && r'.pool.tasks == p.n
    ensures forall w | 0 <= w < |r'.pool.workers| :: r'.pool.workers[w].Exited?
    decreases |r.pool.workers| - k
  {
    hide Active, After, ProgramInv, Shape, Inv, Reached;
    ActiveFacts(p, c, r);
    ActiveReachable(p, c, r);
    ActiveInv(p, c, r);
    r' := r;
    if k < |r.pool.workers| {
      Leaving(p, c.threads, r, k);
      if r.pool.workers[k].Entering? {
        r' := PoolMove(p, c, r, Pool.Work(k, 0, false));
      }
      r' := LeaveAll(p, c, r', k + 1);
    }
  }

  lemma Leaving<T>(p: Problem<T>, threads: nat, r: Program<T>, k: nat)
    requires p.Valid() && Shape(p, r.tasks) && ProgramInv(p, threads, r) && r.pool.stop && k < |r.pool.workers|
    requires OutUpTo(r.pool, |r.pool.workers|)
    ensures r.pool.queue == [] && (r.pool.workers[k].Entering? || r.pool.workers[k].Exited?)
  {
    Pool.AllCounted(r.pool);
  }

  /** A pool that everyone has left is at rest. */
  lemma AllGone<T>(p: Problem<T>, r: Program<T>)
    requires p.Valid() && Shape(p, r.tasks) && r.pool.next == p.n == r.pool.tasks && !r.pool.owes
    requires forall w | 0 <= w < |r.pool.workers| :: r.pool.workers[w].Exited?
    ensures !CanMove(p, r)
  {
    hide Exec, Shape;
  }

  lemma AbortedRests<T>(p: Problem<T>, r: Program<T>)
    requires p.Valid() && Shape(p, r.tasks) && r.pool.aborted
    ensures !CanMove(p, r)
  {
    hide Exec, Shape;
  }

  /** A call from calm to calm; it leaves less to do. */
  lemma CalmCall<T>(p: Problem<T>, c: Course, r: Program<T>, last: nat) returns (r': Program<T>)
    requires p.Valid() && Calm(p, c, r) && StopsAt(p, last) && !r.pool.stop
    ensures After(p, c, r') && Shape(p, r'.tasks)
    ensures r'.pool.aborted || (Calm(p, c, r') && LeftOf(p, r') < LeftOf(p, r))
  {
    hide Active, After, StopsAt, Inv, ProgramInv, Shape, Reached, Called, LeftOf, OutUpTo;
    ActiveFacts(p, c, r);
    ActiveInv(p, c, r);
    var w := SomeoneGoes(p, c.threads, r);
    CalmAtRest(p, c, r);
    var r1, again := RestCall(p, c, r, w, last);
    CalledOut(r.pool, w, again);
    r' := ComeBack(p, c, r1, w);
    ActiveFacts(p, c, r1);
    if !r'.pool.aborted {
      BackOut(r.pool, r1.pool, r'.pool, w);
      CalmAtRest(p, c, r');
      RestLess(p, c, r, r', last, again);
    }
  }

  lemma CalmAtRest<T>(p: Problem<T>, c: Course, r: Program<T>)
    requires p.Valid() && Calm(p, c, r)
    ensures AtRest(p, r) && Shape(p, r.tasks)
  {
    hide After, Shape;
  }

  /** Worker w alone is not out after its call. */
  lemma CalledOut(s: Pool.Pool, w: nat, again: bool)
    requires w < |s.workers| && s.queue != []
    ensures var t := s.queue[0];
            var s1 := Placed(s, w, if again then Pool.Requeue(t) else Pool.Count(t)).(queue := s.queue[1..]);
            !s1.workers[w].Running? && QueueAfterOut(s1, w) == NextQueue(s.queue, again)
  {
  }

  lemma BackOut(s: Pool.Pool, s1: Pool.Pool, s': Pool.Pool, w: nat)
    requires w < |s.workers| && OutUpTo(s, |s.workers|) && OnlyWoken(s1, s', w)
    requires |s1.workers| == |s.workers| && s1.workers == s.workers[w := s1.workers[w]] && s1.owes == s.owes
    requires Out(s'.workers[w])
    ensures OutUpTo(s', |s'.workers|)
  {
    forall v | 0 <= v < |s'.workers|
      ensures Out(s'.workers[v])
    {
      assert Out(s.workers[v]);
      if v != w {
        assert s1.workers[v] == s.workers[v];
      }
    }
  }

  lemma {:induction false} CalmEnds<T>(p: Problem<T>, c: Course, r: Program<T>, last: nat) returns (r': Program<T>)
    requires p.Valid() && Calm(p, c, r) && StopsAt(p, last)
    ensures After(p, c, r') && Shape(p, r'.tasks) && !CanMove(p, r')
    decreases LeftOf(p, r)
  {
    hide Active, After, StopsAt, LeftOf, OutUpTo, Shape, CanMove;
    if r.pool.stop {
      r' := LeaveAll(p, c, r, 0);
      AllGone(p, r');
    } else {
      r' := CalmCall(p, c, r, last);
      if r'.pool.aborted {
        AbortedRests(p, r');
      } else {
        r' := CalmEnds(p, c, r', last);
      }
    }
  }

  lemma Halts<T>(p: Problem<T>, c: Course, r: Program<T>, last: nat) returns (r': Program<T>)
    requires p.Valid() && Active(p, c, r) && r.pool.next <= p.n && StopsAt(p, last)
    ensures After(p, c, r') && Shape(p, r'.tasks) && !CanMove(p, r')
  {
    hide Active, After, StopsAt, Shape, CanMove;
    var r1 := MainEnds(p, c, r);
    r' := SettleAll(p, c, r1, 0, last);
    if r'.pool.aborted {
      AbortedRests(p, r');
    } else {
      r' := CalmEnds(p, c, r', last);
    }
  }

  lemma Begun<T>(p: Problem<T>, threads: nat, past: seq<Pool.Action>, r: Program<T>)
    requires p.Valid() && threads >= 1 && LegalGo(p, threads, past) && r == Go(p, threads, past)
    ensures After(p, Course(threads, past), r) && r.pool.next <= p.n
    ensures r.pool.aborted || Active(p, Course(threads, past), r)
  {
    hide LegalGo, Go, Shape;
    ProgramRun(p, threads, past);
  }

  /** No run is ever trapped: whatever main and the workers have done and however the
      steps of the tasks have interleaved, the program can go on to a state in which
      nothing moves, and there the work is done (Runtime.HaltedProgram). */
  lemma CanHalt<T>(p: Problem<T>, threads: nat, past: seq<Pool.Action>, last: nat) returns (acts: seq<Pool.Action>)
    requires p.Valid() && threads >= 1 && LegalGo(p, threads, past) && StopsAt(p, last)
    ensures past <= acts && LegalGo(p, threads, acts) && !CanMove(p, Go(p, threads, acts))
  {
    hide LegalGo, Go, Active, StopsAt, Shape, CanMove;
    var c, r := Course(threads, past), Go(p, threads, past);
    Begun(p, threads, past, r);
    if r.pool.aborted {
      acts := past;
      AbortedRests(p, r);
    } else {
      var r' := Halts(p, c, r, last);
      acts :| c.past <= acts && LegalGo(p, c.threads, acts) && Go(p, c.threads, acts) == r';
    }
  }
}
