/** The whole program: the pool's workers run the tasks, step by step. */
module Runtime {
  import opened Jacobi
  import opened Residual
  import opened Machine
  import opened Skew
  import opened Ring
  import opened Reduction
  import opened Stopping
  import opened Runs
  import Pool

  datatype Program<T> = Program(tasks: State<T>, pool: Pool.Pool)

  function Begin<T>(p: Problem<T>, threads: nat): Program<T>
    requires p.Valid()
  {
    Program(Init(p), Pool.Start(p.n, threads))
  }

  /** The worker that acts is inside task(). */
  predicate InCall<T>(p: Problem<T>, r: Program<T>, a: Pool.Action) {
    && a.Work? && a.w < |r.pool.workers| && r.pool.workers[a.w].Running? && r.pool.workers[a.w].t < p.n
    && !r.pool.aborted && !r.pool.thrown
  }

  /** A worker inside task() takes the next step of its task; the call returns when
      the task is idle or done again. Every other action is one of the pool. */
  function Move<T>(p: Problem<T>, r: Program<T>, a: Pool.Action): (r': Program<T>)
    requires p.Valid() && Shape(p, r.tasks)
    ensures Shape(p, r'.tasks)
  {
    if InCall(p, r, a) then
      var t := r.pool.workers[a.w].t;
      var s := Exec(p, r.tasks, t);
      if s.pc[t].Idle? then Program(s, Pool.Step(r.pool, Pool.Work(a.w, a.wake, true)))
      else if s.pc[t].Done? then Program(s, Pool.Step(r.pool, Pool.Work(a.w, a.wake, false)))
      else Program(s, r.pool)
    else if a.Work? && a.w < |r.pool.workers| && r.pool.workers[a.w].Running? then r
    else Program(r.tasks, Pool.Step(r.pool, a))
  }

  function Go<T>(p: Problem<T>, threads: nat, acts: seq<Pool.Action>): (r: Program<T>)
    requires p.Valid()
    ensures Shape(p, r.tasks)
  {
    if acts == [] then Begin(p, threads)
    else Move(p, Go(p, threads, acts[..|acts| - 1]), acts[|acts| - 1])
  }

  ghost predicate LegalGo<T>(p: Problem<T>, threads: nat, acts: seq<Pool.Action>)
    requires p.Valid()
  {
    acts == [] || (LegalGo(p, threads, acts[..|acts| - 1])
                   && Pool.Legal(Go(p, threads, acts[..|acts| - 1]).pool, acts[|acts| - 1]))
  }

  // ----- the pool and the tasks agree -----

  ghost predicate Agree<T>(p: Problem<T>, r: Program<T>, t: nat)
    requires p.Valid() && Shape(p, r.tasks) && t < p.n
  {
    && (t >= r.pool.next || t in r.pool.queue ==> r.tasks.pc[t].Idle?)
    && (t in r.pool.counted ==> r.tasks.pc[t].Done?)
    && forall w | 0 <= w < |r.pool.workers| ::
         && (r.pool.workers[w] == Pool.Requeue(t) ==> r.tasks.pc[t].Idle?)
         && (r.pool.workers[w] == Pool.Count(t) ==> r.tasks.pc[t].Done?)
         && (r.pool.workers[w] == Pool.Running(t) ==> !r.tasks.pc[t].Done?)
  }

  ghost predicate ProgramInv<T>(p: Problem<T>, threads: nat, r: Program<T>)
    requires p.Valid() && Shape(p, r.tasks)
  {
    && Pool.PoolInv(r.pool) && |r.pool.workers| == threads && r.pool.tasks == p.n
    && forall t: nat | t < p.n :: Agree(p, r, t)
  }

  /** A step of the pool puts a task only where its state belongs. */
  lemma PoolAgrees<T>(p: Problem<T>, threads: nat, r: Program<T>, a: Pool.Action, t: nat)
    requires p.Valid() && Shape(p, r.tasks) && ProgramInv(p, threads, r) && threads >= 1
    requires Pool.Legal(r.pool, a) && !(a.Work? && a.w < |r.pool.workers| && r.pool.workers[a.w].Running?)
    requires t < p.n && !r.pool.aborted && !r.pool.thrown
    ensures Agree(p, Program(r.tasks, Pool.Step(r.pool, a)), t)
  {
    hide Pool.PoolInv, Pool.Step, Shape;
    assert Agree(p, r, t);
    Pool.NewPlaces(r.pool, a);
  }

  /** What a worker holds stays held until it is done with it. */
  lemma AgreeStep<T>(p: Problem<T>, threads: nat, r: Program<T>, a: Pool.Action)
    requires p.Valid() && Shape(p, r.tasks) && ProgramInv(p, threads, r) && threads >= 1
    requires Pool.Legal(r.pool, a)
    ensures ProgramInv(p, threads, Move(p, r, a))
  {
    if InCall(p, r, a) {
      CallStep(p, threads, r, a);
    } else if !(a.Work? && a.w < |r.pool.workers| && r.pool.workers[a.w].Running?) {
      Pool.PoolStep(r.pool, a);
      if !r.pool.aborted {
        forall t: nat | t < p.n
          ensures Agree(p, Program(r.tasks, Pool.Step(r.pool, a)), t)
        {
          PoolAgrees(p, threads, r, a, t);
        }
      }
    }
  }

  /** What the step of a worker inside task() does to the pool. */
  lemma CallPool<T>(p: Problem<T>, r: Program<T>, a: Pool.Action)
    requires p.Valid() && Shape(p, r.tasks) && InCall(p, r, a)
    ensures var t := r.pool.workers[a.w].t;
            var r' := Move(p, r, a);
            && r'.tasks == Exec(p, r.tasks, t) && |r'.tasks.pc| == p.n
            && r'.pool == r.pool.(workers := r.pool.workers[a.w :=
                 if r'.tasks.pc[t].Idle? then Pool.Requeue(t) else if r'.tasks.pc[t].Done? then Pool.Count(t)
                 else Pool.Running(t)])
  {
    hide Exec, Pool.Step;
    Pool.ReturnStep(r.pool, a.w, a.wake, true);
    Pool.ReturnStep(r.pool, a.w, a.wake, false);
    assert r.pool.workers == r.pool.workers[a.w := r.pool.workers[a.w]];
  }

  lemma CallKeepsPool<T>(p: Problem<T>, threads: nat, r: Program<T>, a: Pool.Action)
    requires p.Valid() && Shape(p, r.tasks) && ProgramInv(p, threads, r) && threads >= 1
    requires InCall(p, r, a)
    ensures var s := Move(p, r, a).pool; Pool.PoolInv(s) && |s.workers| == threads && s.tasks == p.n
  {
    hide Exec, Shape, Pool.PoolInv, Pool.Step;
    Pool.PoolStep(r.pool, Pool.Work(a.w, a.wake, true));
    Pool.PoolStep(r.pool, Pool.Work(a.w, a.wake, false));
  }

  lemma CallAgrees<T>(p: Problem<T>, threads: nat, r: Program<T>, a: Pool.Action, t: nat)
    requires p.Valid() && Shape(p, r.tasks) && ProgramInv(p, threads, r) && InCall(p, r, a) && t < p.n
    ensures Agree(p, Move(p, r, a), t)
  {
    hide Exec, Move, Shape;
    var u := r.pool.workers[a.w].t;
    Sizes(p, r.tasks);
    CallPool(p, r, a);
    StepKind(p, r.tasks, u);
    assert Pool.Holds(r.pool.workers[a.w], u) && Pool.Held(r.pool, u) && Pool.PlaceOk(r.pool, u);
    assert Agree(p, r, t);
    if t == u {
      forall w | 0 <= w < |r.pool.workers| && w != a.w
        ensures !Pool.Holds(r.pool.workers[w], u)
      {
        assert Pool.OneHolder(r.pool, w, a.w);
      }
    }
  }

  lemma CallStep<T>(p: Problem<T>, threads: nat, r: Program<T>, a: Pool.Action)
    requires p.Valid() && Shape(p, r.tasks) && ProgramInv(p, threads, r) && threads >= 1
    requires InCall(p, r, a)
    ensures ProgramInv(p, threads, Move(p, r, a))
  {
    hide Exec, Move, Agree, Pool.PoolInv;
    CallKeepsPool(p, threads, r, a);
    forall t: nat | t < p.n
      ensures Agree(p, Move(p, r, a), t)
    {
      CallAgrees(p, threads, r, a, t);
    }
  }

  lemma {:induction false} ProgramRun<T>(p: Problem<T>, threads: nat, acts: seq<Pool.Action>)
    requires p.Valid() && threads >= 1 && LegalGo(p, threads, acts)
    ensures ProgramInv(p, threads, Go(p, threads, acts))
  {
    if acts == [] {
      Pool.StartOk(p.n, threads);
    } else {
      ProgramRun(p, threads, acts[..|acts| - 1]);
      AgreeStep(p, threads, Go(p, threads, acts[..|acts| - 1]), acts[|acts| - 1]);
    }
  }

  /** Some sequence of actions of main and the workers leads to r. */
  ghost predicate Reachable<T>(p: Problem<T>, threads: nat, r: Program<T>)
    requires p.Valid()
  {
    exists acts: seq<Pool.Action> :: LegalGo(p, threads, acts) && Go(p, threads, acts) == r
  }

  lemma MoveFollows<T>(p: Problem<T>, r: Program<T>, a: Pool.Action, sched: seq<nat>) returns (sched': seq<nat>)
    requires p.Valid() && Shape(p, r.tasks) && Schedule(p, sched) && r.tasks == Run(p, sched)
    ensures Schedule(p, sched') && Move(p, r, a).tasks == Run(p, sched')
  {
    hide Exec, Pool.Step, Shape;
    sched' := sched;
    if InCall(p, r, a) {
      sched' := sched + [r.pool.workers[a.w].t];
      assert sched'[..|sched|] == sched;
    }
  }

  lemma {:induction false} FollowsSchedule<T>(p: Problem<T>, threads: nat, acts: seq<Pool.Action>)
    returns (sched: seq<nat>)
    requires p.Valid()
    ensures Schedule(p, sched) && Go(p, threads, acts).tasks == Run(p, sched)
  {
    hide Move, Shape, Exec;
    if acts == [] {
      sched := [];
    } else {
      sched := FollowsSchedule(p, threads, acts[..|acts| - 1]);
      sched := MoveFollows(p, Go(p, threads, acts[..|acts| - 1]), acts[|acts| - 1], sched);
    }
  }

  /** Whatever main and the workers do, the tasks follow a schedule of the machine,
      and a queued task is between calls, a counted one done, a held one in its call. */
  lemma ReachableInv<T>(p: Problem<T>, threads: nat, r: Program<T>)
    requires p.Valid() && threads >= 1 && Reachable(p, threads, r)
    ensures Shape(p, r.tasks) && Reached(p, r.tasks) && ProgramInv(p, threads, r)
  {
    hide ProgramInv, Run;
    var acts: seq<Pool.Action> :| LegalGo(p, threads, acts) && Go(p, threads, acts) == r;
    var sched := FollowsSchedule(p, threads, acts);
    ProgramRun(p, threads, acts);
  }

  // ----- halting -----

  ghost predicate CanMove<T>(p: Problem<T>, r: Program<T>)
    requires p.Valid() && Shape(p, r.tasks)
  {
    exists a: Pool.Action {:trigger Move(p, r, a)} :: !a.Spurious? && Pool.Legal(r.pool, a) && Move(p, r, a) != r
  }

  /** A task that is neither finished nor waiting for mu_task moves. */
  lemma EnabledMoves<T>(p: Problem<T>, s: State<T>, i: nat)
    requires p.Valid() && Shape(p, s) && i < p.n && Enabled(p, s, i)
    ensures Exec(p, s, i).pc[i] != s.pc[i]
  {
  }

  /** A worker inside a call can move, or another one holds mu_task and can. */
  lemma RunningMoves<T>(p: Problem<T>, threads: nat, r: Program<T>, w: nat)
    requires p.Valid() && Inv(p, r.tasks) && ProgramInv(p, threads, r) && !r.pool.aborted
    requires w < threads && r.pool.workers[w].Running?
    requires forall i: nat | i < p.n :: !r.tasks.pc[i].Failed?
    ensures CanMove(p, r)
  {
    var t := r.pool.workers[w].t;
    assert Pool.Holds(r.pool.workers[w], t) && Pool.Held(r.pool, t);
    assert t < p.n && Agree(p, r, t);
    if Enabled(p, r.tasks, t) {
      CallMoves(p, threads, r, w);
    } else {
      var b := r.tasks.mutex.value;
      assert ClaimOk(p, r.tasks, b) && Agree(p, r, b) && Pool.PlaceOk(r.pool, b);
      assert Enabled(p, r.tasks, b);
      var v: nat :| v < threads && Pool.Holds(r.pool.workers[v], b);
      assert r.pool.workers[v] == Pool.Running(b);
      CallMoves(p, threads, r, v);
    }
  }

  lemma CallMoves<T>(p: Problem<T>, threads: nat, r: Program<T>, w: nat)
    requires p.Valid() && Shape(p, r.tasks) && ProgramInv(p, threads, r) && !r.pool.aborted
    requires w < threads && r.pool.workers[w].Running? && r.pool.workers[w].t < p.n
    requires Enabled(p, r.tasks, r.pool.workers[w].t)
    ensures CanMove(p, r)
  {
    var a := Pool.Work(w, 0, false);
    EnabledMoves(p, r.tasks, r.pool.workers[w].t);
    assert Move(p, r, a).tasks != r.tasks;
  }

  /** Main, and a worker outside task(), move as the pool does. */
  lemma PoolMoves<T>(p: Problem<T>, r: Program<T>, a: Pool.Action)
    requires p.Valid() && Shape(p, r.tasks) && !a.Spurious? && Pool.Legal(r.pool, a) && Pool.Step(r.pool, a) != r.pool
    requires !(a.Work? && a.w < |r.pool.workers| && r.pool.workers[a.w].Running?)
    ensures CanMove(p, r)
  {
    assert Move(p, r, a).pool != r.pool;
  }

  /** Nothing can move only when every task is done. */
  lemma StuckMeansDone<T>(p: Problem<T>, threads: nat, r: Program<T>)
    requires p.Valid() && Inv(p, r.tasks) && ProgramInv(p, threads, r) && threads >= 1
    requires forall i: nat | i < p.n :: !r.tasks.pc[i].Failed?
    requires !CanMove(p, r)
    ensures forall i | 0 <= i < p.n :: r.tasks.pc[i].Done?
    ensures r.pool.aborted || (r.pool.stop && forall w: nat | w < threads :: r.pool.workers[w].Exited?)
  {
    if !r.pool.aborted {
      if r.pool.owes || r.pool.next < r.pool.tasks {
        var a := Pool.MainMoves(r.pool);
        PoolMoves(p, r, a);
      }
      forall w: nat | w < threads
        ensures r.pool.workers[w].Blocked? || r.pool.workers[w].Exited?
      {
        if r.pool.workers[w].Running? {
          RunningMoves(p, threads, r, w);
        } else if !r.pool.workers[w].Blocked? && !r.pool.workers[w].Exited? {
          var a := Pool.WorkerMoves(r.pool, w);
          PoolMoves(p, r, a);
        }
      }
      Pool.Quiescent(r.pool);
    }
    Pool.AllCounted(r.pool);
    forall i: nat | i < p.n
      ensures r.tasks.pc[i].Done?
    {
      assert Agree(p, r, i);
    }
  }

  /** The claim behind the repository: whatever the number of workers, the order in
      which they run and the interleaving of their steps, a program that has come to
      rest has stopped every task at the iteration the problem determines, with the
      two buffers of the serial solver and the residual of the last iteration. */
  lemma HaltedProgram<T>(p: Problem<T>, threads: nat, r: Program<T>, last: nat)
    requires p.Valid() && threads >= 1 && Reachable(p, threads, r) && Shape(p, r.tasks) && StopsAt(p, last)
    requires !CanMove(p, r)
    ensures |r.pool.workers| == threads
    ensures r.pool.aborted || (r.pool.stop && forall w: nat | w < threads :: r.pool.workers[w].Exited?)
    ensures forall i | 0 <= i < p.n :: r.tasks.pc[i].Done? && r.tasks.iter[i] == last
    ensures BuffersAt(p, last, r.tasks.u1, r.tasks.u2)
    ensures r.tasks.gridIter == Some(last - 1) && r.tasks.gridRes == Some(Norm(p, last - 1))
  {
    hide Reachable, Reached, StopsAt, BuffersAt, Norm, CanMove, Inv;
    ReachableInv(p, threads, r);
    ReachedInv(p, r.tasks);
    ReachedStop(p, r.tasks, last);
    forall i: nat | i < p.n
      ensures !r.tasks.pc[i].Failed?
    {
      assert CounterOk(p, r.tasks, i);
    }
    StuckMeansDone(p, threads, r);
    FinishedRun(p, r.tasks, last);
  }
}
