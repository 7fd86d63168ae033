/** With a worker for each task the pool takes nothing away: every schedule of the
    tasks is what main and the workers do in some run of the program. */
module Embedding {
  import opened Jacobi
  import opened Residual
  import opened Machine
  import opened Skew
  import opened Calls
  import opened Runtime
  import opened Driving
  import opened Runs
  import Pool

  /** The first k tasks each have their own worker, which is inside their call or has
      seen them done; the other workers have not moved. */
  ghost predicate Dedicated<T>(p: Problem<T>, c: Course, r: Program<T>, k: nat)
    requires p.Valid()
  {
    && p.n <= c.threads && k <= p.n && Active(p, c, r) && OwnWorkers(r.tasks.pc, r.pool, k)
  }

  ghost predicate OwnWorkers<T>(pc: seq<Pc<T>>, s: Pool.Pool, k: nat)
    requires k <= |pc| && k <= |s.workers|
  {
    && s.next == k && !s.owes && s.queue == [] && !s.stop
    && (forall t: nat | t < k :: s.workers[t] == if pc[t].Done? then Pool.Count(t) else Pool.Running(t))
    && (forall w: nat | k <= w < |s.workers| :: s.workers[w] == Pool.Entering)
  }

  lemma DedicatedFacts<T>(p: Problem<T>, c: Course, r: Program<T>, k: nat)
    requires p.Valid() && Dedicated(p, c, r, k)
    ensures p.n <= c.threads && k <= p.n && Active(p, c, r)
    ensures Shape(p, r.tasks) && |r.tasks.pc| == |r.tasks.iter| == p.n
    ensures |r.pool.workers| == c.threads && OwnWorkers(r.tasks.pc, r.pool, k)
  {
  }

  lemma Own<T>(pc: seq<Pc<T>>, s: Pool.Pool, k: nat)
    requires k <= |pc| && k <= |s.workers| && OwnWorkers(pc, s, k)
    ensures NoneBlocked(s) && !s.owes && s.next == k && !s.stop && s.queue == []
    ensures k < |s.workers| ==> s.workers[k].Entering?
  {
  }

  /** Main enqueues the next task, and its worker takes it. */
  lemma {:induction false} TakeAll<T>(p: Problem<T>, c: Course, k: nat) returns (r: Program<T>)
    requires p.Valid() && c.past == [] && c.threads >= p.n >= k
    ensures Dedicated(p, c, r, k) && r.tasks == Init(p)
  {
    hide Active, Init, Shape, OwnWorkers;
    if k == 0 {
      r := Started(p, c);
      NoneTaken(p, c.threads);
    } else {
      var r0 := TakeAll(p, c, k - 1);
      DedicatedFacts(p, c, r0, k - 1);
      Own(r0.tasks.pc, r0.pool, k - 1);
      var r1 := EnqueueMove(p, c, r0);
      r := PopMove(p, c, r1, k - 1);
      IdleAtFirst(p);
      OneTaken(r0.tasks.pc, r0.pool, k);
    }
  }

  lemma NoneTaken<T>(p: Problem<T>, threads: nat)
    requires p.Valid()
    ensures OwnWorkers(Init(p).pc, Begin(p, threads).pool, 0) && Begin(p, threads).tasks == Init(p)
  {
  }

  lemma IdleAtFirst<T>(p: Problem<T>)
    requires p.Valid()
    ensures |Init(p).pc| == p.n && forall t: nat | t < p.n :: Init(p).pc[t].Idle?
  {
  }

  lemma OneTaken<T>(pc: seq<Pc<T>>, s: Pool.Pool, k: nat)
    requires 0 < k <= |pc| && k <= |s.workers| && OwnWorkers(pc, s, k - 1) && pc[k - 1].Idle?
    ensures var s1 := s.(queue := s.queue + [s.next], next := s.next + 1);
            OwnWorkers(pc, Placed(s1, k - 1, Pool.Running(s1.queue[0])).(queue := s1.queue[1..]), k)
  {
  }

  /** Only the end of a call makes a task idle or done. */
  lemma EndsOnlyAtFinish<T>(p: Problem<T>, s: State<T>, i: nat)
    requires p.Valid() && Shape(p, s) && i < p.n && !s.pc[i].Finish? && !s.pc[i].Done?
    ensures !Exec(p, s, i).pc[i].Idle? && !Exec(p, s, i).pc[i].Done?
    ensures Exec(p, s, i).pc == s.pc[i := Exec(p, s, i).pc[i]]
  {
    if InTask(s.pc[i]) && !s.pc[i].Post? {
      hide Exec;
      StepKind(p, s, i);
    } else {
      StepKind(p, s, i);
    }
  }

  /** One more step of task i: inside its call, at its end, or none if it is done. */
  lemma OwnStep<T>(p: Problem<T>, c: Course, r: Program<T>, i: nat) returns (r': Program<T>)
    requires p.Valid() && Dedicated(p, c, r, p.n) && Shape(p, r.tasks) && i < p.n
    ensures Dedicated(p, c, r', p.n) && r'.tasks == Exec(p, r.tasks, i)
  {
    hide Active, Exec, Shape, OwnWorkers;
    DedicatedFacts(p, c, r, p.n);
    Own(r.tasks.pc, r.pool, p.n);
    Mine(r.tasks.pc, r.pool, p.n, i);
    if r.tasks.pc[i].Done? {
      DoneStays(p, r.tasks, i);
      r' := r;
    } else if !r.tasks.pc[i].Finish? {
      EndsOnlyAtFinish(p, r.tasks, i);
      r' := TaskMove(p, c, r, i);
      StillMine(r.tasks.pc, r.pool, p.n, i, r'.tasks.pc[i]);
    } else {
      EndedStep(p, r.tasks, i);
      r' := ReturnMove(p, c, r, i);
      OwnReturn(r.tasks.pc, r.pool, p.n, i, r'.tasks.pc[i]);
      if r'.tasks.pc[i].Idle? {
        var r1 := RequeueMove(p, c, r', i);
        r' := PopMove(p, c, r1, i);
      }
    }
  }

  lemma Mine<T>(pc: seq<Pc<T>>, s: Pool.Pool, k: nat, i: nat)
    requires i < k <= |pc| && k <= |s.workers| && OwnWorkers(pc, s, k)
    ensures s.workers[i] == if pc[i].Done? then Pool.Count(i) else Pool.Running(i)
  {
  }

  lemma DoneStays<T>(p: Problem<T>, s: State<T>, i: nat)
    requires p.Valid() && Shape(p, s) && i < p.n && s.pc[i].Done?
    ensures Exec(p, s, i) == s
  {
  }

  lemma StillMine<T>(pc: seq<Pc<T>>, s: Pool.Pool, k: nat, i: nat, pc': Pc<T>)
    requires i < k <= |pc| && k <= |s.workers| && OwnWorkers(pc, s, k) && !pc[i].Done? && !pc'.Done?
    ensures OwnWorkers(pc[i := pc'], s, k)
  {
  }

  /** A worker whose call has returned, and what its worker holds after taking it again. */
  lemma OwnReturn<T>(pc: seq<Pc<T>>, s: Pool.Pool, k: nat, i: nat, pc': Pc<T>)
    requires i < k <= |pc| && k <= |s.workers| && OwnWorkers(pc, s, k) && (pc'.Done? || pc'.Idle?)
    ensures pc'.Done? ==> OwnWorkers(pc[i := pc'], Placed(s, i, Pool.Count(i)), k)
    ensures NoneBlocked(Placed(s, i, Pool.Requeue(i)))
    ensures var s1 := Placed(Placed(s, i, Pool.Requeue(i)), i, Pool.Entering).(queue := s.queue + [i]);
            pc'.Idle? ==> OwnWorkers(pc[i := pc'], Placed(s1, i, Pool.Running(s1.queue[0])).(queue := s1.queue[1..]), k)
  {
  }

  lemma {:induction false} EverySchedule<T>(p: Problem<T>, c: Course, sched: seq<nat>) returns (r: Program<T>)
    requires p.Valid() && c.past == [] && c.threads >= p.n && Schedule(p, sched)
    ensures Dedicated(p, c, r, p.n) && r.tasks == Run(p, sched)
  {
    hide Exec, Dedicated, Shape;
    if sched == [] {
      r := TakeAll(p, c, p.n);
    } else {
      var r0 := EverySchedule(p, c, sched[..|sched| - 1]);
      r := OwnStep(p, c, r0, sched[|sched| - 1]);
    }
  }

  /** Some run of the program leaves the tasks in state s. */
  ghost predicate InProgram<T>(p: Problem<T>, threads: nat, s: State<T>)
    requires p.Valid()
  {
    exists acts: seq<Pool.Action> :: LegalGo(p, threads, acts) && Go(p, threads, acts).tasks == s
  }

  lemma InSomeProgram<T>(p: Problem<T>, c: Course, r: Program<T>)
    requires p.Valid() && Dedicated(p, c, r, p.n)
    ensures InProgram(p, c.threads, r.tasks)
  {
    hide OwnWorkers;
    var acts: seq<Pool.Action> :| LegalGo(p, c.threads, acts) && Go(p, c.threads, acts) == r;
  }

  /** With at least as many workers as tasks, what the program can do to its tasks is
      exactly what free schedules of single steps can do; fewer workers can do no more. */
  lemma ProgramIsMachine<T>(p: Problem<T>, threads: nat, s: State<T>)
    requires p.Valid() && threads >= 1
    ensures InProgram(p, threads, s) ==> Reached(p, s)
    ensures threads >= p.n ==> (Reached(p, s) <==> InProgram(p, threads, s))
  {
    hide Run, Dedicated, Go, LegalGo;
    var c := Course(threads, []);
    if acts: seq<Pool.Action> :| LegalGo(p, threads, acts) && Go(p, threads, acts).tasks == s {
      var sched := FollowsSchedule(p, threads, acts);
    }
    if threads >= p.n && Reached(p, s) {
      var sched :| Schedule(p, sched) && Run(p, sched) == s;
      var r := EverySchedule(p, c, sched);
      InSomeProgram(p, c, r);
    }
  }
}
