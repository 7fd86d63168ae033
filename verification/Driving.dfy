/** Stretches of a run of the whole program that are chosen on purpose: one move
    after another, then one whole call. They are used to show what the program can
    do, where the other results say what it always does. */
module Driving {
  import opened Jacobi
  import opened Residual
  import opened Machine
  import opened Skew
  import opened Refinement
  import opened Ring
  import opened Reduction
  import opened Runs
  import opened Solo
  import opened Calls
  import opened Runtime
  import Pool

  /** The number of workers, and what main and the workers have done so far. */
  datatype Course = Course(threads: nat, past: seq<Pool.Action>)

  /** Some run that begins with the past leads to r. */
  ghost predicate After<T>(p: Problem<T>, c: Course, r: Program<T>)
    requires p.Valid()
  {
    exists acts: seq<Pool.Action> :: c.past <= acts && LegalGo(p, c.threads, acts) && Go(p, c.threads, acts) == r
  }

  lemma AfterReachable<T>(p: Problem<T>, c: Course, r: Program<T>)
    requires p.Valid() && After(p, c, r)
    ensures Reachable(p, c.threads, r)
  {
    hide LegalGo, Go;
  }

  /** A program that goes on. */
  ghost predicate Active<T>(p: Problem<T>, c: Course, r: Program<T>)
    requires p.Valid()
  {
    && c.threads >= 1 && After(p, c, r) && Shape(p, r.tasks) && |r.pool.workers| == c.threads && r.pool.tasks == p.n
    && !r.pool.aborted && !r.pool.thrown
  }

  /** What every reachable program keeps. */
  lemma ActiveInv<T>(p: Problem<T>, c: Course, r: Program<T>)
    requires p.Valid() && Active(p, c, r)
    ensures Reached(p, r.tasks) && Inv(p, r.tasks) && ProgramInv(p, c.threads, r)
  {
    hide After, Reachable, Reached, Inv, ProgramInv;
    AfterReachable(p, c, r);
    ReachableInv(p, c.threads, r);
    ReachedInv(p, r.tasks);
  }

  lemma Started<T>(p: Problem<T>, c: Course) returns (r: Program<T>)
    requires p.Valid() && c.threads >= 1 && c.past == []
    ensures Active(p, c, r) && r == Begin(p, c.threads)
  {
    r := Begin(p, c.threads);
    assert LegalGo(p, c.threads, []) && Go(p, c.threads, []) == r;
  }

  lemma GoOn<T>(p: Problem<T>, c: Course, r: Program<T>, a: Pool.Action) returns (r': Program<T>)
    requires p.Valid() && After(p, c, r) && Shape(p, r.tasks) && Pool.Legal(r.pool, a)
    ensures Shape(p, r'.tasks) && After(p, c, r') && r' == Move(p, r, a)
  {
    hide Move, Pool.Legal, Shape;
    var acts: seq<Pool.Action> :| c.past <= acts && LegalGo(p, c.threads, acts) && Go(p, c.threads, acts) == r;
    assert (acts + [a])[..|acts|] == acts;
    r' := Move(p, r, a);
    assert c.past <= acts + [a] && LegalGo(p, c.threads, acts + [a]) && Go(p, c.threads, acts + [a]) == r';
  }

  // ----- moves of the pool -----

  lemma PoolMove<T>(p: Problem<T>, c: Course, r: Program<T>, a: Pool.Action) returns (r': Program<T>)
    requires p.Valid() && Active(p, c, r) && Pool.Legal(r.pool, a)
    requires !(a.Work? && a.w < |r.pool.workers| && r.pool.workers[a.w].Running?)
    ensures r' == Program(r.tasks, Pool.Step(r.pool, a))
    ensures r'.pool.aborted || Active(p, c, r')
  {
    hide After, Reachable, Shape, Pool.Legal, Pool.Step, ProgramInv;
    r' := GoOn(p, c, r, a);
    AfterReachable(p, c, r');
    ReachableInv(p, c.threads, r');
    AgreePool(p, c.threads, r');
  }

  lemma AgreePool<T>(p: Problem<T>, threads: nat, r: Program<T>)
    requires p.Valid() && Shape(p, r.tasks) && ProgramInv(p, threads, r)
    ensures |r.pool.workers| == threads && r.pool.tasks == p.n && !r.pool.thrown
  {
  }

  /** Main enqueues its next task and notifies. */
  lemma EnqueueMove<T>(p: Problem<T>, c: Course, r: Program<T>) returns (r': Program<T>)
    requires p.Valid() && Active(p, c, r) && !r.pool.owes && r.pool.next < p.n && !r.pool.stop && NoneBlocked(r.pool)
    ensures Active(p, c, r')
    ensures r' == r.(pool := r.pool.(queue := r.pool.queue + [r.pool.next], next := r.pool.next + 1))
  {
    hide Active;
    ActiveFacts(p, c, r);
    var r1 := PoolMove(p, c, r, Pool.Main(0));
    r' := PoolMove(p, c, r1, Pool.Main(0));
  }

  lemma ActiveFacts<T>(p: Problem<T>, c: Course, r: Program<T>)
    requires p.Valid() && Active(p, c, r)
    ensures c.threads >= 1 && Shape(p, r.tasks) && |r.pool.workers| == c.threads && r.pool.tasks == p.n
    ensures !r.pool.aborted && !r.pool.thrown
  {
  }

  lemma ActiveReachable<T>(p: Problem<T>, c: Course, r: Program<T>)
    requires p.Valid() && Active(p, c, r)
    ensures After(p, c, r) && Reachable(p, c.threads, r)
  {
    hide After, Reachable;
    AfterReachable(p, c, r);
  }

  ghost predicate NoneBlocked(s: Pool.Pool) {
    forall w | 0 <= w < |s.workers| :: !s.workers[w].Blocked?
  }

  function Placed(s: Pool.Pool, w: nat, pc: Pool.Worker): (s': Pool.Pool)
    requires w < |s.workers|
  {
    s.(workers := s.workers[w := pc])
  }

  lemma PopMove<T>(p: Problem<T>, c: Course, r: Program<T>, w: nat) returns (r': Program<T>)
    requires p.Valid() && Active(p, c, r) && w < |r.pool.workers| && r.pool.workers[w].Entering? && r.pool.queue != []
    ensures Active(p, c, r')
    ensures r' == r.(pool := Placed(r.pool, w, Pool.Running(r.pool.queue[0])).(queue := r.pool.queue[1..]))
  {
    hide Active;
    ActiveFacts(p, c, r);
    r' := PoolMove(p, c, r, Pool.Work(w, 0, false));
  }

  lemma RequeueMove<T>(p: Problem<T>, c: Course, r: Program<T>, w: nat) returns (r': Program<T>)
    requires p.Valid() && Active(p, c, r) && w < |r.pool.workers| && r.pool.workers[w].Requeue?
    requires !r.pool.stop && NoneBlocked(r.pool)
    ensures Active(p, c, r')
    ensures r' == r.(pool := Placed(r.pool, w, Pool.Entering).(queue := r.pool.queue + [r.pool.workers[w].t]))
  {
    hide Active;
    ActiveFacts(p, c, r);
    r' := PoolMove(p, c, r, Pool.Work(w, 0, false));
  }

  lemma CountMove<T>(p: Problem<T>, c: Course, r: Program<T>, w: nat) returns (r': Program<T>)
    requires p.Valid() && Active(p, c, r) && w < |r.pool.workers| && r.pool.workers[w].Count?
    ensures Active(p, c, r')
    ensures r' == r.(pool := Placed(r.pool, w, Pool.TestCount)
                             .(numDone := r.pool.numDone + 1, counted := r.pool.counted + {r.pool.workers[w].t}))
  {
    hide Active;
    ActiveFacts(p, c, r);
    r' := PoolMove(p, c, r, Pool.Work(w, 0, false));
  }

  lemma TestMove<T>(p: Problem<T>, c: Course, r: Program<T>, w: nat) returns (r': Program<T>)
    requires p.Valid() && Active(p, c, r) && w < |r.pool.workers| && r.pool.workers[w].TestCount?
    ensures Active(p, c, r')
    ensures r' == r.(pool := Placed(r.pool, w, if r.pool.numDone == p.n then Pool.CheckStop else Pool.Entering))
  {
    hide Active;
    ActiveFacts(p, c, r);
    r' := PoolMove(p, c, r, Pool.Work(w, 0, false));
  }

  // ----- moves inside a call -----

  lemma TaskMove<T>(p: Problem<T>, c: Course, r: Program<T>, w: nat) returns (r': Program<T>)
    requires p.Valid() && Active(p, c, r) && w < |r.pool.workers| && r.pool.workers[w].Running?
    requires r.pool.workers[w].t < p.n
    requires var pc := Exec(p, r.tasks, r.pool.workers[w].t).pc[r.pool.workers[w].t]; !pc.Idle? && !pc.Done?
    ensures Active(p, c, r')
    ensures r' == r.(tasks := Exec(p, r.tasks, r.pool.workers[w].t))
  {
    hide After, Exec, Shape;
    r' := GoOn(p, c, r, Pool.Work(w, 0, false));
  }

  /** The state after a call, when its task stands at the test of the limit. */
  function Ended<T>(s: State<T>, i: nat): State<T>
    requires i < |s.pc| && i < |s.iter|
  {
    At(s, i, if s.iter[i] >= s.maxIter then Done else Idle)
  }

  lemma EndedStep<T>(p: Problem<T>, s: State<T>, i: nat)
    requires p.Valid() && Shape(p, s) && i < p.n && s.pc[i].Finish?
    ensures Exec(p, s, i) == Ended(s, i)
  {
    hide Shape;
  }

  lemma ReturnMove<T>(p: Problem<T>, c: Course, r: Program<T>, w: nat) returns (r': Program<T>)
    requires p.Valid() && Active(p, c, r) && w < |r.pool.workers| && r.pool.workers[w].Running?
    requires r.pool.workers[w].t < p.n && r.tasks.pc[r.pool.workers[w].t].Finish?
    ensures Active(p, c, r')
    ensures var t := r.pool.workers[w].t;
            r' == Program(Ended(r.tasks, t),
                          Placed(r.pool, w, if r.tasks.iter[t] >= r.tasks.maxIter then Pool.Count(t)
                                            else Pool.Requeue(t)))
  {
    hide After, Exec, Shape;
    var t := r.pool.workers[w].t;
    Sizes(p, r.tasks);
    EndedStep(p, r.tasks, t);
    r' := GoOn(p, c, r, Pool.Work(w, 0, false));
  }

  /** The three steps of a check. */
  function Checked<T>(p: Problem<T>, s: State<T>, i: nat): State<T>
    requires p.Valid() && i < p.n && |s.iter| == |s.pc| == p.n
  {
    At(s, i, if PreCondsMet(UpDiff(s, i), DownDiff(s, i)) then Sum(Lo(p, i), 1, [], p.zero) else Finish)
  }

  lemma CheckSteps<T>(p: Problem<T>, s: State<T>, i: nat)
    requires p.Valid() && SkewInv(p, s) && i < p.n && s.pc[i].Idle?
    ensures var s1 := At(s, i, ReadUp);
            var s2 := At(s, i, ReadDown(UpDiff(s, i)));
            && Shape(p, s1) && Shape(p, s2)
            && Exec(p, s, i) == s1 && Exec(p, s1, i) == s2 && Exec(p, s2, i) == Checked(p, s, i)
  {
    if i > 0 {
      assert AdjacentOk(p, s, i - 1);
    }
    if i + 1 < p.n {
      assert AdjacentOk(p, s, i);
    }
    var s1 := At(s, i, ReadUp);
    var s2 := At(s, i, ReadDown(UpDiff(s, i)));
    AtAt(s, i, ReadUp, ReadDown(UpDiff(s, i)));
    assert Exec(p, s, i) == StepCheck(p, s, i) == s1;
    assert Exec(p, s1, i) == StepCheck(p, s1, i) == s2;
    assert Exec(p, s2, i) == StepCheck(p, s2, i);
    AtAt(s, i, ReadDown(UpDiff(s, i)), Checked(p, s, i).pc[i]);
  }

  /** A worker inside a call takes its task through the check. */
  lemma PassCheck<T>(p: Problem<T>, c: Course, r: Program<T>, w: nat) returns (r': Program<T>)
    requires p.Valid() && Active(p, c, r) && w < |r.pool.workers| && r.pool.workers[w].Running?
    requires r.pool.workers[w].t < p.n && r.tasks.pc[r.pool.workers[w].t].Idle?
    ensures Active(p, c, r') && |r.tasks.iter| == |r.tasks.pc| == p.n
    ensures r' == r.(tasks := Checked(p, r.tasks, r.pool.workers[w].t))
  {
    hide Active, Exec, Inv;
    ActiveFacts(p, c, r);
    ActiveInv(p, c, r);
    Sizes(p, r.tasks);
    var t := r.pool.workers[w].t;
    CheckSteps(p, r.tasks, t) by { InvSkew(p, r.tasks); }
    var r1 := TaskMove(p, c, r, w);
    var r2 := TaskMove(p, c, r1, w);
    r' := TaskMove(p, c, r2, w);
  }

  /** And through its work, to the end of the call or a failed assert. */
  lemma {:induction false} RunBody<T>(p: Problem<T>, c: Course, r: Program<T>, w: nat, m: nat) returns (r': Program<T>)
    requires p.Valid() && Active(p, c, r) && w < |r.pool.workers| && r.pool.workers[w].Running?
    requires r.pool.workers[w].t < p.n && EndsAfter(p, r.tasks, r.pool.workers[w].t, m)
    ensures Active(p, c, r')
    ensures r' == r.(tasks := Alone(p, r.tasks, r.pool.workers[w].t, m))
    decreases m
  {
    hide Active, Exec;
    ActiveFacts(p, c, r);
    if m == 0 {
      r' := r;
    } else {
      var t := r.pool.workers[w].t;
      NotYetOver(p, r.tasks, t, m);
      var r1 := TaskMove(p, c, r, w);
      r' := RunBody(p, c, r1, w, m - 1);
    }
  }

  lemma NotYetOver<T>(p: Problem<T>, s: State<T>, i: nat, m: nat)
    requires p.Valid() && Shape(p, s) && i < p.n && m > 0 && EndsAfter(p, s, i, m)
    ensures !Exec(p, s, i).pc[i].Idle? && !Exec(p, s, i).pc[i].Done?
  {
    hide Exec;
  }

  // ----- whole calls -----

  /** The state after a whole call of task i that takes m steps between its check
      and its end, or up to the assert that fails. */
  function AfterCall<T>(p: Problem<T>, s: State<T>, i: nat, m: nat): State<T>
    requires p.Valid() && Shape(p, s) && i < p.n
  {
    BandOfTask(p, i, 0);
    var s1 := Checked(p, s, i);
    if s1.pc[i].Finish? then Ended(s1, i)
    else
      var s2 := Alone(p, s1, i, m);
      if s2.pc[i].Failed? then s2 else Ended(s2, i)
  }

  ghost predicate CallLasts<T>(p: Problem<T>, s: State<T>, i: nat, m: nat)
    requires p.Valid() && Shape(p, s) && i < p.n
  {
    BandOfTask(p, i, 0);
    Checked(p, s, i).pc[i].Finish? || EndsAfter(p, Checked(p, s, i), i, m)
  }

  /** Where worker w stands after a call of task t. */
  function AfterReturn<T>(s: State<T>, t: nat): Pool.Worker
    requires t < |s.pc|
  {
    if s.pc[t].Failed? then Pool.Running(t) else if s.pc[t].Done? then Pool.Count(t) else Pool.Requeue(t)
  }

  lemma PlacedTwice(s: Pool.Pool, w: nat, pc: Pool.Worker, pc': Pool.Worker)
    requires w < |s.workers|
    ensures Placed(Placed(s, w, pc), w, pc') == Placed(s, w, pc')
  {
    assert s.workers[w := pc][w := pc'] == s.workers[w := pc'];
  }

  /** From the end of a check or of the work to the return of the call. */
  lemma EndCall<T>(p: Problem<T>, c: Course, r: Program<T>, w: nat) returns (r': Program<T>)
    requires p.Valid() && Active(p, c, r) && w < |r.pool.workers| && r.pool.workers[w].Running?
    requires r.pool.workers[w].t < p.n
    requires r.tasks.pc[r.pool.workers[w].t].Finish? || r.tasks.pc[r.pool.workers[w].t].Failed?
    ensures Active(p, c, r') && |r.tasks.pc| == |r.tasks.iter| == |r'.tasks.pc| == p.n
    ensures var t := r.pool.workers[w].t;
            && r'.tasks == (if r.tasks.pc[t].Failed? then r.tasks else Ended(r.tasks, t))
            && r'.pool == Placed(r.pool, w, AfterReturn(r'.tasks, t))
  {
    hide Active;
    ActiveFacts(p, c, r);
    Sizes(p, r.tasks);
    var t := r.pool.workers[w].t;
    if r.tasks.pc[t].Failed? {
      r' := r;
      assert r.pool.workers[w := Pool.Running(t)] == r.pool.workers;
    } else {
      r' := ReturnMove(p, c, r, w);
    }
  }

  /** A worker that has just taken a task runs the whole call, if nobody is inside mu_task. */
  lemma RunCall<T>(p: Problem<T>, c: Course, r: Program<T>, w: nat) returns (r': Program<T>, m: nat)
    requires p.Valid() && Active(p, c, r) && w < |r.pool.workers| && r.pool.workers[w].Running?
    requires r.pool.workers[w].t < p.n && r.tasks.pc[r.pool.workers[w].t].Idle? && r.tasks.mutex.None?
    ensures Active(p, c, r')
    ensures var t := r.pool.workers[w].t;
            && CallLasts(p, r.tasks, t, m) && r'.tasks == AfterCall(p, r.tasks, t, m)
            && r'.pool == Placed(r.pool, w, AfterReturn(r'.tasks, t))
  {
    hide Active, Exec, Inv, ProgramInv, EndsAfter, Alone, Ended;
    ActiveFacts(p, c, r);
    Sizes(p, r.tasks);
    var t := r.pool.workers[w].t;
    var r1 := PassCheck(p, c, r, w);
    m := 0;
    if r1.tasks.pc[t].Finish? {
      r' := EndCall(p, c, r1, w);
    } else {
      ActiveFacts(p, c, r1);
      ActiveInv(p, c, r1);
      m := AloneEnds(p, r1.tasks, t);
      var r2 := RunBody(p, c, r1, w, m);
      BodyEnds(p, r1.tasks, t, m);
      r' := EndCall(p, c, r2, w);
    }
  }

  /** Nobody is inside mu_task: worker w takes the head of the queue and runs it
      alone, until the call returns or an assert fails. */
  lemma MakeCall<T>(p: Problem<T>, c: Course, r: Program<T>, w: nat) returns (r': Program<T>, m: nat)
    requires p.Valid() && Active(p, c, r) && w < |r.pool.workers| && r.pool.workers[w].Entering? && r.pool.queue != []
    requires r.tasks.mutex.None?
    ensures r.pool.queue[0] < p.n && r.tasks.pc[r.pool.queue[0]].Idle? && Active(p, c, r')
    ensures var t := r.pool.queue[0];
            && CallLasts(p, r.tasks, t, m) && r'.tasks == AfterCall(p, r.tasks, t, m)
            && r'.pool == Placed(r.pool, w, AfterReturn(r'.tasks, t)).(queue := r.pool.queue[1..])
  {
    hide Active, Inv, ProgramInv, CallLasts, AfterCall, AfterReturn;
    ActiveFacts(p, c, r);
    ActiveInv(p, c, r);
    HeadWaits(p, c.threads, r);
    var t := r.pool.queue[0];
    var r1 := PopMove(p, c, r, w);
    r', m := RunCall(p, c, r1, w);
    ActiveFacts(p, c, r');
    Sizes(p, r'.tasks);
    PlacedTwice(r.pool, w, Pool.Running(t), AfterReturn(r'.tasks, t));
  }

  lemma {:induction false} BodyEnds<T>(p: Problem<T>, s: State<T>, i: nat, m: nat)
    requires p.Valid() && Shape(p, s) && i < p.n && EndsAfter(p, s, i, m)
    ensures Alone(p, s, i, m).pc[i].Finish? || Alone(p, s, i, m).pc[i].Failed?
    decreases m
  {
    hide Exec;
    if m > 0 {
      BodyEnds(p, Exec(p, s, i), i, m - 1);
    }
  }

  lemma HeadWaits<T>(p: Problem<T>, threads: nat, r: Program<T>)
    requires p.Valid() && Shape(p, r.tasks) && ProgramInv(p, threads, r) && r.pool.queue != []
    ensures r.pool.queue[0] < p.n && r.tasks.pc[r.pool.queue[0]].Idle?
  {
    var t := r.pool.queue[0];
    assert t in r.pool.queue;
    assert Agree(p, r, t);
  }
}
