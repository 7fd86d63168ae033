/** The source says of the reduction that only one thread does it per iteration
    (task.cpp:751). The program keeps this promise exactly if it has one worker. */
module ReducedTwice {
  import opened Jacobi
  import opened Residual
  import opened Machine
  import opened Skew
  import opened Refinement
  import opened Ring
  import opened Reduction
  import opened Stopping
  import opened Runs
  import opened Solo
  import opened Calls
  import opened Runtime
  import opened Driving
  import opened Polling
  import opened Resting
  import opened QuietCalls
  import Pool

  /** No two lines of the output are of the same iteration. */
  ghost predicate NoneRepeated<T>(log: seq<Entry<T>>) {
    forall a, b | 0 <= a < b < |log| :: log[a].iter != log[b].iter
  }

  // ----- one worker: each iteration is reduced once -----

  predicate Still<T>(pc: Pc<T>) {
    pc.Idle? || pc.Done?
  }

  /** From the output of a reduction to the end of its call. */
  predicate PastPrint<T>(pc: Pc<T>) {
    || pc.PubRes? || pc.PubIter? || pc.Unmark? || pc.TestTol? || Changing(pc) || pc.Update? || pc.Post?
    || pc == Failed(882)
  }

  /** Task j will not reduce iteration k any more. */
  ghost predicate Over<T>(s: State<T>, j: nat, k: nat)
    requires j < |s.iter| && j < |s.pc|
  {
    s.iter[j] > k || (s.iter[j] == k && PastPrint(s.pc[j]))
  }

  ghost predicate OverForAll<T>(s: State<T>, k: nat) {
    |s.iter| == |s.pc| && forall j: nat | j < |s.iter| :: Over(s, j, k)
  }

  /** The output so far is one line for each iteration, and these are over for everyone. */
  ghost predicate Once<T>(s: State<T>) {
    (forall t: nat | t < |s.log| :: s.log[t].iter == t) && (s.log != [] ==> OverForAll(s, |s.log| - 1))
  }

  /** Everyone but task i is between calls. */
  ghost predicate OthersStill<T>(s: State<T>, i: nat) {
    forall j: nat | j < |s.pc| && j != i :: Still(s.pc[j])
  }

  lemma OverStays<T>(p: Problem<T>, s: State<T>, i: nat, k: nat)
    requires p.Valid() && Shape(p, s) && i < p.n && Over(s, i, k)
    ensures var s' := Exec(p, s, i); i < |s'.iter| && i < |s'.pc| && Over(s', i, k)
  {
    hide Exec;
    if s.iter[i] == k && !s.pc[i].Post? {
      OverSteps(p, s, i);
    }
    Sizes(p, Exec(p, s, i));
    Frame(p, s, i);
    StepKind(p, s, i);
  }

  lemma OverSteps<T>(p: Problem<T>, s: State<T>, i: nat)
    requires p.Valid() && Shape(p, s) && i < p.n && PastPrint(s.pc[i]) && !s.pc[i].Post?
    ensures PastPrint(Exec(p, s, i).pc[i])
  {
    if s.pc[i].Update? {
      hide StepReduce, StepStop;
      assert Exec(p, s, i) == StepUpdate(p, s, i);
    } else if s.pc[i].TestTol? || Changing(s.pc[i]) {
      hide StepUpdate, StepReduce;
      assert Exec(p, s, i) == StepStop(p, s, i);
    } else if Reducing(s.pc[i]) {
      hide StepUpdate, StepStop;
      assert Exec(p, s, i) == StepReduce(p, s, i);
    }
  }

  /** The line a task prints is of the next iteration. */
  lemma OncePrint<T>(p: Problem<T>, s: State<T>, i: nat)
    requires p.Valid() && Shape(p, s) && Inv(p, s) && i < p.n && Once(s) && OthersStill(s, i) && s.pc[i].Print?
    ensures s.iter[i] == |s.log| && forall j: nat | j < p.n && j != i :: s.iter[j] > s.iter[i]
  {
    hide Norm;
    OrderStep(p, s, i);
    var log' := s.log + [Entry(s.iter[i], i, s.gres[i])];
    if s.log != [] {
      var t: nat := |s.log| - 1;
      assert Over(s, i, t);
      assert log'[t + 1].iter <= log'[t].iter + 1;
    } else {
      assert log'[0].iter == 0;
    }
    assert ClaimOk(p, s, i);
    forall j: nat | j < p.n && j != i
      ensures s.iter[j] > s.iter[i]
    {
      assert SetAt(s, j, s.iter[i]) && Still(s.pc[j]);
    }
  }

  lemma OnceStep<T>(p: Problem<T>, s: State<T>, i: nat)
    requires p.Valid() && Shape(p, s) && Inv(p, s) && i < p.n && Once(s) && OthersStill(s, i)
    ensures Once(Exec(p, s, i))
  {
    hide Exec, Inv, Shape;
    var s' := Exec(p, s, i);
    Sizes(p, s);
    Sizes(p, s');
    Frame(p, s, i);
    StepKind(p, s, i);
    if s.pc[i].Print? {
      OncePrint(p, s, i);
      PrintStep(p, s, i);
    } else if s.log != [] {
      var k: nat := |s.log| - 1;
      assert Over(s, i, k);
      OverStays(p, s, i, k);
      forall j: nat | j < p.n
        ensures Over(s', j, k)
      {
        assert Over(s, j, k);
      }
    }
  }

  lemma PrintStep<T>(p: Problem<T>, s: State<T>, i: nat)
    requires p.Valid() && Shape(p, s) && i < p.n && s.pc[i].Print?
    ensures Exec(p, s, i).pc[i].PubRes? && Exec(p, s, i).log == s.log + [Entry(s.iter[i], i, s.gres[i])]
  {
    assert Exec(p, s, i) == StepReduce(p, s, i);
  }

  /** With one worker, nobody but the task it runs is inside a call. */
  lemma LoneCall<T>(p: Problem<T>, r: Program<T>, t: nat)
    requires p.Valid() && Shape(p, r.tasks) && ProgramInv(p, 1, r) && t < p.n && r.pool.workers[0] != Pool.Running(t)
    ensures Still(r.tasks.pc[t])
  {
    assert Agree(p, r, t) && Pool.PlaceOk(r.pool, t);
    if Pool.Held(r.pool, t) {
      var w: nat :| w < |r.pool.workers| && Pool.Holds(r.pool.workers[w], t);
      assert r.pool.workers[w] == Pool.Requeue(t) || r.pool.workers[w] == Pool.Count(t);
    }
  }

  lemma OnceMove<T>(p: Problem<T>, r: Program<T>, a: Pool.Action)
    requires p.Valid() && Shape(p, r.tasks) && Inv(p, r.tasks) && ProgramInv(p, 1, r) && Once(r.tasks)
    ensures Once(Move(p, r, a).tasks)
  {
    hide Exec, Inv, Shape, ProgramInv, Once, Pool.Step;
    if InCall(p, r, a) {
      var t := r.pool.workers[a.w].t;
      OnlyWorker(p, r, a.w);
      forall j: nat | j < |r.tasks.pc| && j != t
        ensures Still(r.tasks.pc[j])
      {
        Sizes(p, r.tasks);
        LoneCall(p, r, j);
      }
      OnceStep(p, r.tasks, t);
    }
  }

  lemma OnlyWorker<T>(p: Problem<T>, r: Program<T>, w: nat)
    requires p.Valid() && Shape(p, r.tasks) && ProgramInv(p, 1, r) && w < |r.pool.workers|
    ensures w == 0 && |r.pool.workers| == 1
  {
  }

  lemma {:induction false} OnceGo<T>(p: Problem<T>, acts: seq<Pool.Action>)
    requires p.Valid() && LegalGo(p, 1, acts)
    ensures Once(Go(p, 1, acts).tasks)
  {
    hide Move, Inv, ProgramInv, Shape, Run;
    if acts == [] {
    } else {
      var r := Go(p, 1, acts[..|acts| - 1]);
      OnceGo(p, acts[..|acts| - 1]);
      ProgramRun(p, 1, acts[..|acts| - 1]);
      var sched := FollowsSchedule(p, 1, acts[..|acts| - 1]);
      InvRun(p, sched);
      OnceMove(p, r, acts[|acts| - 1]);
    }
  }

  // ----- two workers: a run that reduces iteration 0 twice -----

  /** Task t of worker w computes its local residual and sets its flag. */
  lemma {:induction false} ToScan<T>(p: Problem<T>, c: Course, r: Program<T>, w: nat) returns (r': Program<T>)
    requires p.Valid() && Active(p, c, r) && w < |r.pool.workers| && r.pool.workers[w].Running?
    requires r.pool.workers[w].t < p.n
    requires var pc := r.tasks.pc[r.pool.workers[w].t]; pc.Sum? || pc.PutRes? || pc.PutFlag? || pc == Scan(0, 0)
    ensures Active(p, c, r') && r'.pool == r.pool
    ensures var t := r.pool.workers[w].t;
            && r'.tasks.pc == r.tasks.pc[t := Scan(0, 0)] && r'.tasks.iter == r.tasks.iter
            && r'.tasks.log == r.tasks.log && r'.tasks.mutex == r.tasks.mutex
            && r'.tasks.gres == r.tasks.gres && r'.tasks.term == r.tasks.term && r'.tasks.maxIter == r.tasks.maxIter
    decreases Phase(r.tasks.pc[r.pool.workers[w].t]),
              Outer(p, r.pool.workers[w].t, r.tasks.pc[r.pool.workers[w].t]),
              Inner(p, r.tasks.pc[r.pool.workers[w].t]),
              Regs(r.tasks.pc[r.pool.workers[w].t])
  {
    hide Active, Exec, Outer, Inner, Regs, Shape;
    ActiveFacts(p, c, r);
    Sizes(p, r.tasks);
    var t := r.pool.workers[w].t;
    if r.tasks.pc[t].Scan? {
      r' := r;
      assert r.tasks.pc[t := Scan(0, 0)] == r.tasks.pc;
    } else {
      ScanNearer(p, r.tasks, t);
      var r1 := TaskMove(p, c, r, w);
      r' := ToScan(p, c, r1, w);
      assert r.tasks.pc[t := r1.tasks.pc[t]][t := Scan(0, 0)] == r.tasks.pc[t := Scan(0, 0)];
    }
  }

  lemma ScanNearer<T>(p: Problem<T>, s: State<T>, i: nat)
    requires p.Valid() && Shape(p, s) && i < p.n && (s.pc[i].Sum? || s.pc[i].PutRes? || s.pc[i].PutFlag?)
    ensures var s' := Exec(p, s, i);
            && s'.pc == s.pc[i := s'.pc[i]] && s'.iter == s.iter && s'.log == s.log && s'.mutex == s.mutex
            && s'.gres == s.gres && s'.term == s.term && s'.maxIter == s.maxIter
            && (s'.pc[i].Sum? || s'.pc[i].PutRes? || s'.pc[i].PutFlag? || s'.pc[i] == Scan(0, 0))
            && Nearer(p, i, s.pc[i], s'.pc[i])
  {
    if s.pc[i].Sum? {
      NearerSolve(p, s, i);
    } else {
      NearerMark(p, s, i);
    }
  }

  /** Task t of worker w counts the flags of its slot and finds all of them set. */
  lemma {:induction false} ToLock<T>(p: Problem<T>, c: Course, r: Program<T>, w: nat, j: nat) returns (r': Program<T>)
    requires p.Valid() && Active(p, c, r) && w < |r.pool.workers| && r.pool.workers[w].Running?
    requires r.pool.workers[w].t < p.n && r.tasks.pc[r.pool.workers[w].t] == Scan(j, j) && j <= p.n
    requires forall a: nat | a < p.n :: Flag(p.n, r.tasks.flags, a, r.tasks.iter[r.pool.workers[w].t])
    ensures Active(p, c, r') && |r.tasks.pc| == p.n
    ensures r' == r.(tasks := At(r.tasks, r.pool.workers[w].t, Lock))
    decreases p.n - j
  {
    hide Active, Exec, Shape;
    ActiveFacts(p, c, r);
    Sizes(p, r.tasks);
    var t := r.pool.workers[w].t;
    if j < p.n {
      assert Flag(p.n, r.tasks.flags, j, r.tasks.iter[t]);
    }
    LockStep(p, r.tasks, t, j);
    var r1 := TaskMove(p, c, r, w);
    if j < p.n {
      r' := ToLock(p, c, r1, w, j + 1);
      AtAt(r.tasks, t, Scan(j + 1, j + 1), Lock);
    } else {
      r' := r1;
    }
  }

  lemma LockStep<T>(p: Problem<T>, s: State<T>, i: nat, j: nat)
    requires p.Valid() && Shape(p, s) && i < p.n && s.pc[i] == Scan(j, j) && j <= p.n
    requires j < p.n ==> Flag(p.n, s.flags, j, s.iter[i])
    ensures |s.pc| == p.n && Exec(p, s, i) == At(s, i, if j < p.n then Scan(j + 1, j + 1) else Lock)
  {
    assert Exec(p, s, i) == StepMark(p, s, i);
  }

  /** Task i is on its way from the lock through a reduction that adds a line to log. */
  ghost predicate OnTheWay<T>(p: Problem<T>, s: State<T>, i: nat, log: seq<Entry<T>>)
    requires p.Valid() && Shape(p, s) && i < p.n
  {
    var pc := s.pc[i];
    if pc.Lock? then s.mutex.None? && !s.done[Slot(p.n, s.iter[i])] && s.log == log
    else if pc.TestDone? then s.mutex == Some(i) && !s.done[Slot(p.n, s.iter[i])] && s.log == log
    else if pc.SetDone? then s.mutex == Some(i) && s.log == log
    else if pc.PubRes? || pc.PubIter? || pc.Unmark? || pc.TestTol? then s.mutex.None? && AddedLine(s, i, log)
    else Reducing(pc) && s.mutex.None? && s.log == log
  }

  ghost predicate AddedLine<T>(s: State<T>, i: nat, log: seq<Entry<T>>)
    requires i < |s.iter|
  {
    |s.log| == |log| + 1 && s.log[..|log|] == log && s.log[|log|].iter == s.iter[i] && s.log[|log|].task == i
  }

  lemma WayClaim<T>(p: Problem<T>, s: State<T>, i: nat, log: seq<Entry<T>>)
    requires p.Valid() && Shape(p, s) && i < p.n && OnTheWay(p, s, i, log)
    requires s.pc[i].Lock? || s.pc[i].TestDone? || s.pc[i].SetDone?
    ensures OnTheWay(p, Exec(p, s, i), i, log) && Nearer(p, i, s.pc[i], Exec(p, s, i).pc[i])
  {
    assert Exec(p, s, i) == StepClaim(p, s, i);
  }

  lemma WayReduce<T>(p: Problem<T>, s: State<T>, i: nat, log: seq<Entry<T>>)
    requires p.Valid() && Shape(p, s) && i < p.n && OnTheWay(p, s, i, log) && Reducing(s.pc[i])
    ensures OnTheWay(p, Exec(p, s, i), i, log)
  {
    assert Exec(p, s, i) == StepReduce(p, s, i);
  }

  /** Task t of worker w reduces, up to the test of the residual. */
  lemma {:induction false} ToTest<T>(p: Problem<T>, c: Course, r: Program<T>, w: nat, log: seq<Entry<T>>)
    returns (r': Program<T>)
    requires p.Valid() && Active(p, c, r) && w < |r.pool.workers| && r.pool.workers[w].Running?
    requires r.pool.workers[w].t < p.n && OnTheWay(p, r.tasks, r.pool.workers[w].t, log)
    ensures Active(p, c, r') && r'.pool == r.pool && |r.tasks.iter| == p.n
    ensures var t := r.pool.workers[w].t;
            && r'.tasks.pc == r.tasks.pc[t := TestTol] && r'.tasks.iter == r.tasks.iter
            && r'.tasks.mutex.None? && AddedLine(r'.tasks, t, log)
    decreases Phase(r.tasks.pc[r.pool.workers[w].t]),
              Outer(p, r.pool.workers[w].t, r.tasks.pc[r.pool.workers[w].t]),
              Inner(p, r.tasks.pc[r.pool.workers[w].t]),
              Regs(r.tasks.pc[r.pool.workers[w].t])
  {
    hide Active, Exec, Shape, Outer, Inner, Regs;
    ActiveFacts(p, c, r);
    Sizes(p, r.tasks);
    var t := r.pool.workers[w].t;
    if r.tasks.pc[t].TestTol? {
      r' := r;
      assert r.tasks.pc[t := TestTol] == r.tasks.pc;
    } else {
      if Reducing(r.tasks.pc[t]) {
        WayReduce(p, r.tasks, t, log);
        NearerReduce(p, r.tasks, t);
      } else {
        WayClaim(p, r.tasks, t, log);
      }
      Frame(p, r.tasks, t);
      var r1 := TaskMove(p, c, r, w);
      r' := ToTest(p, c, r1, w, log);
      assert r.tasks.pc[t := r1.tasks.pc[t]][t := TestTol] == r.tasks.pc[t := TestTol];
    }
  }

  /** Worker 0 holds task 0, about to count the flags; worker 1 has called tasks 1 to
      j - 1, and task j is next. */
  ghost predicate Middle<T>(p: Problem<T>, c: Course, r: Program<T>, j: nat)
    requires p.Valid()
  {
    && 1 <= j < p.n && c.threads >= 2 && Active(p, c, r) && r.pool.next == p.n && !r.pool.owes && !r.pool.stop
    && r.pool.workers[0] == Pool.Running(0) && (forall w | 1 <= w < c.threads :: r.pool.workers[w].Entering?)
    && |r.pool.queue| >= p.n - j && (forall a | 0 <= a < p.n - j :: r.pool.queue[a] == j + a)
    && MiddleTasks(p, r.tasks, j)
  }

  ghost predicate MiddleTasks<T>(p: Problem<T>, s: State<T>, j: nat)
    requires p.Valid() && Shape(p, s)
  {
    && Quiet(p, s) && s.pc[0] == Scan(0, 0) && s.mutex.None?
    && (forall i | 0 <= i < p.n :: s.iter[i] == if 1 <= i < j then 1 else 0)
    && (forall i | 1 <= i < p.n :: Still(s.pc[i])) && (forall i | j <= i < p.n :: s.pc[i].Idle?)
  }

  lemma MiddleFacts<T>(p: Problem<T>, c: Course, r: Program<T>, j: nat)
    requires p.Valid() && Middle(p, c, r, j)
    ensures 1 <= j < p.n && c.threads >= 2 && Active(p, c, r) && Shape(p, r.tasks) && MiddleTasks(p, r.tasks, j)
    ensures |r.pool.workers| == c.threads && r.pool.workers[1].Entering? && NoneBlocked(r.pool) && !r.pool.stop
    ensures r.pool.queue != [] && r.pool.queue[0] == j && r.pool.workers[0] == Pool.Running(0)
  {
    hide MiddleTasks, Quiet, After;
  }

  /** The machine's side of the call of task j: it passes its check and reduces nothing. */
  lemma MiddleCall<T>(p: Problem<T>, s: State<T>, j: nat, m: nat)
    requires p.Valid() && Shape(p, s) && Inv(p, s) && 1 <= j < p.n - 1 && MiddleTasks(p, s, j) && CallLasts(p, s, j, m)
    ensures var s' := AfterCall(p, s, j, m);
            Shape(p, s') && MiddleTasks(p, s', j + 1) && |s'.pc| == p.n && (s'.pc[j].Idle? || s'.pc[j].Done?)
  {
    hide Shape, Inv, Quiet, AfterCall, CallLasts;
    Sizes(p, s);
    var s' := AfterCall(p, s, j, m);
    QuietWhole(p, s, j, m, p.n - 1, 0);
    Sizes(p, s');
    WholeCall(p, s, j, m);
  }

  lemma MiddleStep<T>(p: Problem<T>, c: Course, r: Program<T>, j: nat) returns (r': Program<T>)
    requires p.Valid() && Middle(p, c, r, j) && j < p.n - 1
    ensures Middle(p, c, r', j + 1)
  {
    hide Active, Quiet, MiddleTasks, Shape, Inv, ProgramInv, AfterCall, CallLasts, Reached, NoneBlocked;
    MiddleFacts(p, c, r, j);
    ActiveInv(p, c, r);
    MiddleHead(p, r.tasks, j);
    var r1, m := MakeCall(p, c, r, 1);
    MiddleCall(p, r.tasks, j, m);
    MiddleHead(p, r1.tasks, j + 1);
    MiddleBlocked(r.pool, r1.pool, j);
    if r1.tasks.pc[j].Idle? {
      r' := RequeueMove(p, c, r1, 1);
    } else {
      var r2 := CountMove(p, c, r1, 1);
      SomeLeft(p, c, r2, p.n - 1);
      r' := TestMove(p, c, r2, 1);
    }
  }

  lemma MiddleHead<T>(p: Problem<T>, s: State<T>, j: nat)
    requires p.Valid() && Shape(p, s) && 1 <= j < p.n && MiddleTasks(p, s, j)
    ensures s.mutex.None? && |s.pc| == p.n && s.pc[p.n - 1].Idle?
  {
  }

  lemma MiddleBlocked(s: Pool.Pool, s': Pool.Pool, j: nat)
    requires NoneBlocked(s) && |s.workers| >= 2
    ensures s'.workers == s.workers[1 := Pool.Requeue(j)] ==> NoneBlocked(s')
  {
  }

  lemma {:induction false} MiddleCalls<T>(p: Problem<T>, c: Course, r: Program<T>, j: nat) returns (r': Program<T>)
    requires p.Valid() && Middle(p, c, r, j)
    ensures Middle(p, c, r', p.n - 1)
    decreases p.n - j
  {
    hide *;
    MiddleFacts(p, c, r, j);
    if j == p.n - 1 {
      r' := r;
    } else {
      var r1 := MiddleStep(p, c, r, j);
      r' := MiddleCalls(p, c, r1, j + 1);
    }
  }

  lemma MiddleStart<T>(p: Problem<T>, c: Course) returns (r: Program<T>)
    requires p.Valid() && c.past == [] && c.threads >= 2
    ensures Middle(p, c, r, 1)
  {
    hide Active, Init, Shape, Inv, ProgramInv, Quiet, MiddleTasks;
    var r0 := EnqueueAll(p, c, p.n);
    var r1 := PopMove(p, c, r0, 0);
    assert r1.pool.workers[0] == Pool.Running(0);
    StartTasks(p);
    var r2 := PassCheck(p, c, r1, 0);
    r := ToScan(p, c, r2, 0);
    ActiveFacts(p, c, r);
    StartMiddle(p, r2.tasks, r.tasks);
  }

  lemma StartTasks<T>(p: Problem<T>)
    requires p.Valid()
    ensures Init(p).pc[0].Idle? && Checked(p, Init(p), 0).pc[0].Sum?
  {
  }

  lemma StartMiddle<T>(p: Problem<T>, s: State<T>, s': State<T>)
    requires p.Valid() && Shape(p, s') && s == Checked(p, Init(p), 0) && s'.pc == s.pc[0 := Scan(0, 0)]
    requires s'.iter == s.iter && s'.mutex == s.mutex && s'.gres == s.gres
    requires s'.term == s.term && s'.maxIter == s.maxIter
    ensures MiddleTasks(p, s', 1)
  {
    forall b: nat | b < p.n
      ensures QuietTask(p, s', b)
    {
    }
  }

  /** Tasks 0 and n - 1 have set their flags of iteration 0, the others have left it. */
  ghost predicate Ready<T>(p: Problem<T>, s: State<T>, pc0: Pc<T>, pc1: Pc<T>)
    requires p.Valid() && Shape(p, s)
  {
    && s.pc[0] == pc0 && s.pc[p.n - 1] == pc1 && s.iter[0] == s.iter[p.n - 1] == 0 && s.mutex.None?
    && forall i | 1 <= i < p.n - 1 :: s.iter[i] == 1 && Still(s.pc[i])
  }

  lemma AllFlagsUp<T>(p: Problem<T>, s: State<T>)
    requires p.Valid() && Shape(p, s) && Inv(p, s) && Ready(p, s, Scan(0, 0), Scan(0, 0)) && s.log == []
    ensures forall a: nat | a < p.n :: Flag(p.n, s.flags, a, 0)
  {
    forall b: nat | b < p.n
      ensures !ReducerAt(s, b, 0)
    {
      assert b == 0 || b == p.n - 1 || Still(s.pc[b]);
    }
    forall b: nat | b < p.n
      ensures SetAt(s, b, 0)
    {
      assert b == 0 || b == p.n - 1 || s.iter[b] == 1;
    }
    CountersLive(p, s, 0);
    assert CoverOk(p, s, 0);
  }

  /** Nobody reduces, so no done bit is set. */
  lemma BitClear<T>(p: Problem<T>, s: State<T>, pc0: Pc<T>, pc1: Pc<T>)
    requires p.Valid() && Shape(p, s) && Inv(p, s) && Ready(p, s, pc0, pc1) && (pc0.Lock? || pc0.TestTol?) && pc1.Lock?
    ensures !s.done[Slot(p.n, 0)]
  {
    forall b: nat | b < p.n
      ensures !HoldsSlot(p, s, b, Slot(p.n, 0))
    {
      assert b == 0 || b == p.n - 1 || Still(s.pc[b]);
    }
    assert DoneOk(p, s, Slot(p.n, 0));
  }

  /** Nothing is reduced before the last task contributes. */
  lemma NothingLogged<T>(p: Problem<T>, s: State<T>)
    requires p.Valid() && Shape(p, s) && Inv(p, s) && s.iter[p.n - 1] == 0 && s.pc[p.n - 1].Idle?
    ensures s.log == []
  {
    hide Norm;
    forall k: nat
      ensures !AllSet(p, s, k)
    {
      assert !SetAt(s, p.n - 1, k);
    }
    assert s.log == [] || EntryOk(p, s, 0);
  }

  /** The first two workers are inside calls of tasks 0 and n - 1. */
  ghost predicate BothIn<T>(p: Problem<T>, c: Course, r: Program<T>)
    requires p.Valid()
  {
    && Active(p, c, r) && c.threads >= 2
    && r.pool.workers[0] == Pool.Running(0) && r.pool.workers[1] == Pool.Running(p.n - 1)
  }

  lemma BothCount<T>(p: Problem<T>, c: Course) returns (r: Program<T>)
    requires p.Valid() && c.past == [] && c.threads >= 2
    ensures BothIn(p, c, r) && Ready(p, r.tasks, Scan(0, 0), Scan(0, 0)) && r.tasks.log == []
  {
    hide *;
    var r0 := MiddleStart(p, c);
    MiddleFacts(p, c, r0, 1);
    var r1 := MiddleCalls(p, c, r0, 1);
    MiddleFacts(p, c, r1, p.n - 1);
    ActiveInv(p, c, r1);
    MiddlePasses(p, r1.tasks);
    NothingLogged(p, r1.tasks);
    var r2 := PopMove(p, c, r1, 1);
    TwoPlaces(r1.pool, p.n - 1);
    var r3 := PassCheck(p, c, r2, 1);
    r := ToScan(p, c, r3, 1);
    ActiveFacts(p, c, r);
    MiddleReady(p, r1.tasks, r3.tasks, r.tasks);
    BothAre(p, c, r);
  }

  lemma TwoPlaces(s: Pool.Pool, t: nat)
    requires |s.workers| >= 2 && s.workers[0] == Pool.Running(0)
    ensures Placed(s, 1, Pool.Running(t)).workers[0] == Pool.Running(0)
    ensures Placed(s, 1, Pool.Running(t)).workers[1] == Pool.Running(t)
    ensures |Placed(s, 1, Pool.Running(t)).workers| == |s.workers|
  {
  }

  lemma BothAre<T>(p: Problem<T>, c: Course, r: Program<T>)
    requires p.Valid() && Active(p, c, r) && c.threads >= 2 && |r.pool.workers| == c.threads
    requires r.pool.workers[0] == Pool.Running(0) && r.pool.workers[1] == Pool.Running(p.n - 1)
    ensures BothIn(p, c, r)
  {
  }

  lemma MiddlePasses<T>(p: Problem<T>, s: State<T>)
    requires p.Valid() && Shape(p, s) && MiddleTasks(p, s, p.n - 1)
    ensures |s.iter| == |s.pc| == p.n && s.iter[p.n - 1] == 0
    ensures s.pc[p.n - 1].Idle? && Checked(p, s, p.n - 1).pc[p.n - 1].Sum?
  {
  }

  lemma MiddleReady<T>(p: Problem<T>, s: State<T>, s1: State<T>, s2: State<T>)
    requires p.Valid() && Shape(p, s) && MiddleTasks(p, s, p.n - 1) && Shape(p, s2)
    requires |s.iter| == |s.pc| == p.n && s1 == Checked(p, s, p.n - 1)
    requires s2.pc == s1.pc[p.n - 1 := Scan(0, 0)] && s2.iter == s1.iter && s2.mutex == s1.mutex && s2.log == s1.log
    ensures Ready(p, s2, Scan(0, 0), Scan(0, 0)) && s2.log == s.log
  {
  }

  lemma BothInFacts<T>(p: Problem<T>, c: Course, r: Program<T>)
    requires p.Valid() && BothIn(p, c, r)
    ensures p.n >= 2 && Active(p, c, r) && Shape(p, r.tasks) && |r.pool.workers| == c.threads
    ensures r.pool.workers[0] == Pool.Running(0) && r.pool.workers[1] == Pool.Running(p.n - 1)
  {
  }

  lemma ReadyFacts<T>(p: Problem<T>, s: State<T>, pc0: Pc<T>, pc1: Pc<T>)
    requires p.Valid() && Shape(p, s) && Ready(p, s, pc0, pc1)
    ensures |s.pc| == |s.iter| == p.n && s.pc[0] == pc0 && s.pc[p.n - 1] == pc1 && s.iter[0] == s.iter[p.n - 1] == 0
  {
  }

  lemma LockFirst<T>(p: Problem<T>, s: State<T>)
    requires p.Valid() && Shape(p, s) && |s.pc| == p.n && Ready(p, s, Scan(0, 0), Scan(0, 0))
    ensures var s' := At(s, 0, Lock);
            s'.pc[p.n - 1] == Scan(0, 0) && s'.flags == s.flags && s'.iter == s.iter && s'.log == s.log
  {
  }

  lemma LockSecond<T>(p: Problem<T>, s: State<T>)
    requires p.Valid() && Shape(p, s) && |s.pc| == p.n && Ready(p, s, Scan(0, 0), Scan(0, 0))
    requires Shape(p, At(At(s, 0, Lock), p.n - 1, Lock))
    ensures Ready(p, At(At(s, 0, Lock), p.n - 1, Lock), Lock, Lock)
    ensures At(At(s, 0, Lock), p.n - 1, Lock).log == s.log
  {
  }

  /** Both have counted all flags before either has claimed the done bit. */
  lemma BothAtLock<T>(p: Problem<T>, c: Course) returns (r: Program<T>)
    requires p.Valid() && c.past == [] && c.threads >= 2
    ensures BothIn(p, c, r) && Ready(p, r.tasks, Lock, Lock) && r.tasks.log == []
  {
    hide *;
    var r0 := BothCount(p, c);
    BothInFacts(p, c, r0);
    ActiveFacts(p, c, r0);
    ActiveInv(p, c, r0);
    ReadyFacts(p, r0.tasks, Scan(0, 0), Scan(0, 0));
    AllFlagsUp(p, r0.tasks);
    var r1 := ToLock(p, c, r0, 0, 0);
    ActiveFacts(p, c, r1);
    LockFirst(p, r0.tasks);
    r := ToLock(p, c, r1, 1, 0);
    ActiveFacts(p, c, r);
    LockSecond(p, r0.tasks);
    BothAre(p, c, r);
  }

  /** In some run two different tasks reduce iteration 0. */
  lemma TwoReductions<T>(p: Problem<T>, threads: nat) returns (r: Program<T>)
    requires p.Valid() && threads >= 2
    ensures Reachable(p, threads, r)
    ensures |r.tasks.log| == 2 && r.tasks.log[0].iter == r.tasks.log[1].iter == 0
    ensures r.tasks.log[0].task != r.tasks.log[1].task
  {
    hide *;
    var c := Course(threads, []);
    var r0 := BothAtLock(p, c);
    BothInFacts(p, c, r0);
    ActiveFacts(p, c, r0);
    ActiveInv(p, c, r0);
    ReadyFacts(p, r0.tasks, Lock, Lock);
    BitClear(p, r0.tasks, Lock, Lock);
    WayStarts(p, r0.tasks, 0, [], Lock, Lock);
    var r1 := ToTest(p, c, r0, 0, []);
    LineFacts(r1.tasks, 0, []);
    ActiveFacts(p, c, r1);
    ActiveInv(p, c, r1);
    ReadyNext(p, r0.tasks, r1.tasks);
    BitClear(p, r1.tasks, TestTol, Lock);
    WayStarts(p, r1.tasks, p.n - 1, r1.tasks.log, TestTol, Lock);
    r := ToTest(p, c, r1, 1, r1.tasks.log);
    LineFacts(r.tasks, p.n - 1, r1.tasks.log);
    ActiveFacts(p, c, r);
    ActiveReachable(p, c, r);
    assert r.tasks.log[..1][0] == r.tasks.log[0];
  }

  lemma LineFacts<T>(s: State<T>, i: nat, log: seq<Entry<T>>)
    requires i < |s.iter| && AddedLine(s, i, log)
    ensures |s.log| == |log| + 1 && s.log[..|log|] == log && s.log[|log|].iter == s.iter[i] && s.log[|log|].task == i
  {
  }

  lemma WayStarts<T>(p: Problem<T>, s: State<T>, i: nat, log: seq<Entry<T>>, pc0: Pc<T>, pc1: Pc<T>)
    requires p.Valid() && Shape(p, s) && (i == 0 || i == p.n - 1) && !s.done[Slot(p.n, 0)] && s.log == log
    requires Ready(p, s, pc0, pc1) && (if i == 0 then pc0 else pc1).Lock?
    ensures OnTheWay(p, s, i, log)
  {
  }

  lemma ReadyNext<T>(p: Problem<T>, s: State<T>, s': State<T>)
    requires p.Valid() && Shape(p, s) && Shape(p, s') && Ready(p, s, Lock, Lock) && |s.pc| == p.n
    requires s'.pc == s.pc[0 := TestTol] && s'.iter == s.iter && s'.mutex.None?
    ensures Ready(p, s', TestTol, Lock)
  {
  }

  // ----- exactly when -----

  /** In every run of the program each iteration is reduced at most once, exactly if
      there is one worker. */
  lemma ReducedOnceIff<T>(p: Problem<T>, threads: nat)
    requires p.Valid() && threads >= 1
    ensures (forall r: Program<T> | Reachable(p, threads, r) :: NoneRepeated(r.tasks.log)) <==> threads == 1
  {
    hide Shape, Move, Exec, Go, LegalGo, OverForAll;
    if threads == 1 {
      forall r: Program<T> | Reachable(p, 1, r)
        ensures NoneRepeated(r.tasks.log)
      {
        var acts: seq<Pool.Action> :| LegalGo(p, 1, acts) && Go(p, 1, acts) == r;
        OnceGo(p, acts);
      }
    } else {
      var r := TwoReductions(p, threads);
      assert !NoneRepeated(r.tasks.log);
    }
  }
}
