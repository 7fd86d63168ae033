/** The static alternative: every thread owns a range of tasks and a barrier
    separates the iterations. */
module StaticSchedule {
  import opened Jacobi
  import opened Machine
  import opened Skew
  import opened Refinement
  import opened Ring
  import opened Reduction
  import opened Stopping
  import opened Runs
  import opened Calls
  import Runtime

  // ----- the ranges of the threads -----

  /** Consecutive ranges that together cover 0 to ntasks, without overlap or gap. */
  ghost predicate Ranges(inds: seq<(nat, nat)>, ntasks: nat) {
    && inds != [] && inds[0].0 == 0 && inds[|inds| - 1].1 == ntasks
    && (forall tid | 0 <= tid < |inds| :: inds[tid].0 <= inds[tid].1)
    && (forall tid | 0 <= tid < |inds| - 1 :: inds[tid].1 == inds[tid + 1].0)
  }

  ghost predicate Owns(inds: seq<(nat, nat)>, tid: nat, t: nat)
    requires tid < |inds|
  {
    inds[tid].0 <= t < inds[tid].1
  }

  class StaticDecomposition {
    const niters: nat
    const nthreads: nat
    const ntasks: nat
    var taskInds: seq<(nat, nat)>

    constructor (niters: nat, nthreads: nat, ntasks: nat)
      requires nthreads >= 1
      ensures this.niters == niters && this.nthreads == nthreads && this.ntasks == ntasks
      ensures taskInds == seq(nthreads, _ => (0, 0))
    {
      this.niters, this.nthreads, this.ntasks := niters, nthreads, ntasks;
      taskInds := seq(nthreads, _ => (0, 0));
    }

    /** All threads but the last get the same number of tasks; the last gets the
        rest, which is everything if there are more threads than tasks. */
    method SetThreadTaskMap()
      requires nthreads >= 1 && |taskInds| == nthreads
      modifies this`taskInds
      ensures |taskInds| == nthreads && Ranges(taskInds, ntasks)
      ensures forall tid | 0 <= tid < nthreads - 1 :: taskInds[tid].1 - taskInds[tid].0 == ntasks / nthreads
    {
      var start, end := 0, 0;
      var tasksPerThread := ntasks / nthreads;
      var tid := 0;
      while tid < nthreads
        invariant tid <= nthreads == |taskInds|
        invariant forall a: nat | a < tid :: taskInds[a] == Share(ntasks, nthreads, tasksPerThread, a)
      {
        TimesIsProduct(tid, tasksPerThread);
        TimesIsProduct(tid + 1, tasksPerThread);
        start := tid * tasksPerThread;
        if tid == nthreads - 1 {
          end := ntasks;
        } else {
          end := (tid + 1) * tasksPerThread;
        }
        taskInds := taskInds[tid := (start, end)];
        tid := tid + 1;
      }
      SharesAreRanges(taskInds, ntasks, nthreads);
    }
  }

  /** The range of thread tid when each gets a share of the tasks. */
  ghost function Share(ntasks: nat, nthreads: nat, share: nat, tid: nat): (nat, nat) {
    (Times(tid, share), if tid + 1 == nthreads then ntasks else Times(tid + 1, share))
  }

  lemma SharesAreRanges(inds: seq<(nat, nat)>, ntasks: nat, nthreads: nat)
    requires nthreads >= 1 && |inds| == nthreads
    requires forall a: nat | a < nthreads :: inds[a] == Share(ntasks, nthreads, ntasks / nthreads, a)
    ensures Ranges(inds, ntasks)
    ensures forall tid | 0 <= tid < nthreads - 1 :: inds[tid].1 - inds[tid].0 == ntasks / nthreads
  {
    ShareFits(ntasks, nthreads);
    assert inds[0] == Share(ntasks, nthreads, ntasks / nthreads, 0);
  }

  lemma ShareFits(ntasks: nat, nthreads: nat)
    requires nthreads >= 1
    ensures Times(nthreads - 1, ntasks / nthreads) <= ntasks
  {
    TimesIsProduct(nthreads, ntasks / nthreads);
    TimesMonotone(nthreads - 1, nthreads, ntasks / nthreads);
  }

  lemma {:induction false} RangesAscend(inds: seq<(nat, nat)>, ntasks: nat, a: nat, b: nat)
    requires Ranges(inds, ntasks) && a < b < |inds|
    ensures inds[a].1 <= inds[b].0
  {
    if a + 1 < b {
      RangesAscend(inds, ntasks, a, b - 1);
    }
  }

  /** Every task belongs to exactly one thread. */
  lemma {:induction false} OneOwner(inds: seq<(nat, nat)>, ntasks: nat, t: nat) returns (tid: nat)
    requires Ranges(inds, ntasks) && t < ntasks
    ensures tid < |inds| && Owns(inds, tid, t)
    ensures forall other: nat | other < |inds| && Owns(inds, other, t) :: other == tid
  {
    tid := 0;
    while inds[tid].1 <= t
      invariant tid < |inds| && inds[tid].0 <= t
      decreases |inds| - tid
    {
      tid := tid + 1;
    }
    forall other: nat | other < |inds| && Owns(inds, other, t)
      ensures other == tid
    {
      if other < tid {
        RangesAscend(inds, ntasks, other, tid);
      } else if tid < other {
        RangesAscend(inds, ntasks, tid, other);
      }
    }
  }

  // ----- the threads -----

  /** The loop variables of a thread, and whether it waits at the barrier. */
  datatype Thread = Thread(iter: nat, task: nat, arrived: bool)

  datatype Static<T> = Static(threads: seq<Thread>, tasks: State<T>)

  function Start<T>(p: Problem<T>, inds: seq<(nat, nat)>): (x: Static<T>)
    requires p.Valid()
    ensures Shape(p, x.tasks)
  {
    Static(seq(|inds|, tid requires 0 <= tid < |inds| => Thread(0, inds[tid].0, false)), Init(p))
  }

  /** All threads have come to the barrier of iteration k. */
  predicate AllArrived(threads: seq<Thread>, k: nat) {
    forall a | 0 <= a < |threads| :: threads[a].iter > k || (threads[a].iter == k && threads[a].arrived)
  }

  /** One step of a thread: of the task it works on, to the barrier, or through it. */
  function Step<T>(p: Problem<T>, inds: seq<(nat, nat)>, niters: nat, x: Static<T>, tid: nat): (x': Static<T>)
    requires p.Valid() && Shape(p, x.tasks) && Ranges(inds, p.n) && tid < |inds| == |x.threads|
    ensures Shape(p, x'.tasks) && |x'.threads| == |x.threads|
  {
    var th := x.threads[tid];
    if th.iter >= niters then x
    else if th.arrived then
      if AllArrived(x.threads, th.iter) then
        x.(threads := x.threads[tid := Thread(th.iter + 1, inds[tid].0, false)])
      else x
    else if th.task < inds[tid].1 && th.task < p.n then
      var s := Exec(p, x.tasks, th.task);
      var over := s.pc[th.task].Idle? || s.pc[th.task].Done?;
      Static(if over then x.threads[tid := th.(task := th.task + 1)] else x.threads, s)
    else x.(threads := x.threads[tid := th.(arrived := true)])
  }

  ghost predicate ThreadSchedule(inds: seq<(nat, nat)>, sched: seq<nat>) {
    forall t | 0 <= t < |sched| :: sched[t] < |inds|
  }

  function Play<T>(p: Problem<T>, inds: seq<(nat, nat)>, niters: nat, sched: seq<nat>): (x: Static<T>)
    requires p.Valid() && Ranges(inds, p.n) && ThreadSchedule(inds, sched)
    ensures Shape(p, x.tasks) && |x.threads| == |inds|
  {
    if sched == [] then Start(p, inds)
    else Step(p, inds, niters, Play(p, inds, niters, sched[..|sched| - 1]), sched[|sched| - 1])
  }

  // ----- the invariant -----

  ghost predicate Resting<T>(s: State<T>, t: nat, k: nat, niters: nat)
    requires t < |s.iter| && t < |s.pc|
  {
    s.iter[t] == k && s.pc[t] == if k >= niters then Done else Idle
  }

  /** A call whose check passes: both reads find the neighbour at the same
      iteration or one ahead. */
  ghost predicate InCall<T>(s: State<T>, t: nat, k: nat)
    requires t < |s.iter| && t < |s.pc|
  {
    var pc := s.pc[t];
    || (s.iter[t] == k && (pc.Idle? || pc.ReadUp? || InTask(pc) || (pc.ReadDown? && (pc.d1 == 0 || pc.d1 == -1))))
    || (s.iter[t] == k + 1 && pc.Finish?)
  }

  ghost predicate TaskOk<T>(p: Problem<T>, niters: nat, th: Thread, s: State<T>, t: nat)
    requires t < |s.iter| && t < |s.pc|
  {
    if th.iter >= niters then Resting(s, t, niters, niters)
    else if th.arrived || t < th.task then Resting(s, t, th.iter + 1, niters)
    else if t == th.task then InCall(s, t, th.iter)
    else Resting(s, t, th.iter, niters)
  }

  ghost predicate ThreadOk(inds: seq<(nat, nat)>, niters: nat, threads: seq<Thread>, tid: nat)
    requires tid < |inds| == |threads|
  {
    var th := threads[tid];
    && inds[tid].0 <= th.task <= inds[tid].1 && th.iter <= niters
    && (th.arrived ==> th.task == inds[tid].1 && th.iter < niters)
  }

  /** The barrier keeps threads within one iteration of each other. */
  ghost predicate Together(threads: seq<Thread>, a: nat, b: nat)
    requires a < |threads| && b < |threads|
  {
    threads[a].iter <= threads[b].iter || (threads[a].iter == threads[b].iter + 1 && threads[b].arrived)
  }

  ghost predicate StaticInv<T>(p: Problem<T>, inds: seq<(nat, nat)>, niters: nat, x: Static<T>)
    requires p.Valid()
  {
    && Shape(p, x.tasks) && Reached(p, x.tasks) && |inds| == |x.threads|
    && (forall tid: nat | tid < |inds| :: ThreadOk(inds, niters, x.threads, tid))
    && (forall a: nat, b: nat | a < |inds| && b < |inds| :: Together(x.threads, a, b))
    && (forall tid: nat, t: nat | tid < |inds| && t < p.n && Owns(inds, tid, t) ::
        TaskOk(p, niters, x.threads[tid], x.tasks, t))
  }

  lemma StaticStart<T>(p: Problem<T>, inds: seq<(nat, nat)>, niters: nat)
    requires p.Valid() && Ranges(inds, p.n) && niters >= 1
    ensures StaticInv(p, inds, niters, Start(p, inds))
  {
    hide Reached;
    ReachedStart(p);
  }

  /** While a thread works, every counter is the iteration it is in or one more. */
  lemma CounterNear<T>(p: Problem<T>, inds: seq<(nat, nat)>, niters: nat, x: Static<T>, tid: nat, j: nat)
    requires p.Valid() && Ranges(inds, p.n) && StaticInv(p, inds, niters, x) && tid < |inds| && j < p.n
    requires x.threads[tid].iter < niters && !x.threads[tid].arrived
    ensures x.threads[tid].iter <= x.tasks.iter[j] <= x.threads[tid].iter + 1
  {
    hide Reached;
    var owner := OneOwner(inds, p.n, j);
    assert TaskOk(p, niters, x.threads[owner], x.tasks, j);
    assert Together(x.threads, owner, tid) && Together(x.threads, tid, owner);
    assert ThreadOk(inds, niters, x.threads, owner);
  }

  lemma ChecksPass<T>(p: Problem<T>, inds: seq<(nat, nat)>, niters: nat, x: Static<T>, tid: nat, t: nat)
    requires p.Valid() && Ranges(inds, p.n) && StaticInv(p, inds, niters, x) && tid < |inds| && t < p.n
    requires x.threads[tid].iter < niters && !x.threads[tid].arrived && x.tasks.iter[t] == x.threads[tid].iter
    ensures PreCondsMet(UpDiff(x.tasks, t), DownDiff(x.tasks, t))
  {
    hide StaticInv;
    assert Shape(p, x.tasks) by { StaticShape(p, inds, niters, x); }
    if t > 0 {
      CounterNear(p, inds, niters, x, tid, t - 1);
    }
    if t + 1 < p.n {
      CounterNear(p, inds, niters, x, tid, t + 1);
    }
  }

  lemma StaticShape<T>(p: Problem<T>, inds: seq<(nat, nat)>, niters: nat, x: Static<T>)
    requires p.Valid() && StaticInv(p, inds, niters, x)
    ensures Shape(p, x.tasks) && Reached(p, x.tasks)
  {
    hide Reached;
  }

  /** One step of a call whose check passes. */
  lemma CallStep<T>(p: Problem<T>, s: State<T>, t: nat, k: nat, niters: nat)
    requires p.Valid() && Shape(p, s) && Reached(p, s) && t < p.n && k < niters == p.limit && StopsAt(p, niters)
    requires InCall(s, t, k) && (s.iter[t] == k ==> PreCondsMet(UpDiff(s, t), DownDiff(s, t)))
    ensures var s' := Exec(p, s, t);
            && Reached(p, s')
            && (if s'.pc[t].Idle? || s'.pc[t].Done? then Resting(s', t, k + 1, niters) else InCall(s', t, k))
            && forall j: nat | j < p.n && j != t :: s'.pc[j] == s.pc[j] && s'.iter[j] == s.iter[j]
  {
    hide Reached, Inv, StopsAt;
    var s' := Exec(p, s, t);
    ReachedStep(p, s, t);
    ReachedStop(p, s, niters);
    ReachedStop(p, s', niters);
    assert CounterOk(p, s', t);
    StepKind(p, s, t);
    Frame(p, s, t);
    if s.pc[t].Idle? || s.pc[t].ReadUp? || s.pc[t].ReadDown? {
      FirstSteps(p, s, t);
    }
    LimitKept(p, s, niters);
  }

  lemma LimitKept<T>(p: Problem<T>, s: State<T>, niters: nat)
    requires p.Valid() && Shape(p, s) && StopsAt(p, niters) && StopInv(p, s, niters) && niters == p.limit
    ensures s.maxIter == niters
  {
    hide StopsAt, StopInv;
    LimitValues(p, s, niters);
  }

  lemma FirstSteps<T>(p: Problem<T>, s: State<T>, t: nat)
    requires p.Valid() && Shape(p, s) && t < p.n && PreCondsMet(UpDiff(s, t), DownDiff(s, t))
    ensures s.pc[t].Idle? ==> Exec(p, s, t).pc[t].ReadUp?
    ensures s.pc[t].ReadUp? ==> Exec(p, s, t).pc[t] == ReadDown(UpDiff(s, t))
    ensures s.pc[t].ReadDown? && (s.pc[t].d1 == 0 || s.pc[t].d1 == -1) ==> InTask(Exec(p, s, t).pc[t])
  {
  }

  /** The thread works on its current task. */
  lemma WorkStep<T>(p: Problem<T>, inds: seq<(nat, nat)>, niters: nat, x: Static<T>, tid: nat)
    requires p.Valid() && Ranges(inds, p.n) && StaticInv(p, inds, niters, x) && tid < |inds|
    requires niters == p.limit && StopsAt(p, niters)
    requires x.threads[tid].iter < niters && !x.threads[tid].arrived
    requires x.threads[tid].task < inds[tid].1 && x.threads[tid].task < p.n
    ensures StaticInv(p, inds, niters, Step(p, inds, niters, x, tid))
  {
    hide Reached, StopsAt, Exec, Resting, InCall;
    var th := x.threads[tid];
    var x' := Step(p, inds, niters, x, tid);
    assert ThreadOk(inds, niters, x.threads, tid) && Owns(inds, tid, th.task);
    assert TaskOk(p, niters, th, x.tasks, th.task);
    CurrentCounter(x.tasks, th.task, th.iter, p, inds, niters, x, tid);
    CallStep(p, x.tasks, th.task, th.iter, niters);
    forall a: nat | a < |inds|
      ensures ThreadOk(inds, niters, x'.threads, a)
    {
      assert ThreadOk(inds, niters, x.threads, a);
    }
    forall a: nat, b: nat | a < |inds| && b < |inds|
      ensures Together(x'.threads, a, b)
    {
      assert Together(x.threads, a, b);
    }
    forall a: nat, t: nat | a < |inds| && t < p.n && Owns(inds, a, t)
      ensures TaskOk(p, niters, x'.threads[a], x'.tasks, t)
    {
      assert TaskOk(p, niters, x.threads[a], x.tasks, t);
      if t == th.task {
        var o := OneOwner(inds, p.n, t);
        assert a == o == tid;
        RestingIsInCall(x'.tasks, t, th.iter + 1, niters);
      } else {
        SameTask(x.tasks, x'.tasks, t, niters);
        RestingIsInCall(x.tasks, t, th.iter, niters);
      }
    }
  }

  /** The counter of the current task is still that of its thread, or its call is ending. */
  lemma CurrentCounter<T>(s: State<T>, t: nat, k: nat, p: Problem<T>, inds: seq<(nat, nat)>, niters: nat,
                          x: Static<T>, tid: nat)
    requires p.Valid() && Ranges(inds, p.n) && StaticInv(p, inds, niters, x) && tid < |inds| && t < p.n
    requires s == x.tasks && k == x.threads[tid].iter < niters && !x.threads[tid].arrived
    ensures s.iter[t] == k ==> PreCondsMet(UpDiff(s, t), DownDiff(s, t))
  {
    hide Reached;
    if s.iter[t] == k {
      ChecksPass(p, inds, niters, x, tid, t);
    }
  }

  /** A task between two calls may start the next one. */
  lemma RestingIsInCall<T>(s: State<T>, t: nat, k: nat, niters: nat)
    requires t < |s.iter| && t < |s.pc|
    ensures Resting(s, t, k, niters) && k < niters ==> InCall(s, t, k)
  {
  }

  lemma SameTask<T>(s: State<T>, s': State<T>, t: nat, niters: nat)
    requires t < |s.iter| == |s'.iter| && t < |s.pc| == |s'.pc| && s'.iter[t] == s.iter[t] && s'.pc[t] == s.pc[t]
    ensures forall k: nat ::
              Resting(s', t, k, niters) == Resting(s, t, k, niters) && InCall(s', t, k) == InCall(s, t, k)
  {
  }

  /** The thread comes to the barrier, or passes it. */
  lemma BarrierStep<T>(p: Problem<T>, inds: seq<(nat, nat)>, niters: nat, x: Static<T>, tid: nat)
    requires p.Valid() && Ranges(inds, p.n) && StaticInv(p, inds, niters, x) && tid < |inds|
    requires x.threads[tid].iter < niters
    requires x.threads[tid].arrived || !(x.threads[tid].task < inds[tid].1 && x.threads[tid].task < p.n)
    ensures StaticInv(p, inds, niters, Step(p, inds, niters, x, tid))
  {
    hide Reached, Exec, Resting, InCall;
    var th := x.threads[tid];
    var x' := Step(p, inds, niters, x, tid);
    assert ThreadOk(inds, niters, x.threads, tid);
    RangeInside(inds, p.n, tid);
    forall a: nat | a < |inds|
      ensures ThreadOk(inds, niters, x'.threads, a)
    {
      assert ThreadOk(inds, niters, x.threads, a);
    }
    forall a: nat, b: nat | a < |inds| && b < |inds|
      ensures Together(x'.threads, a, b)
    {
      assert Together(x.threads, a, b) && Together(x.threads, b, a);
    }
    forall a: nat, t: nat | a < |inds| && t < p.n && Owns(inds, a, t)
      ensures TaskOk(p, niters, x'.threads[a], x'.tasks, t)
    {
      assert TaskOk(p, niters, x.threads[a], x.tasks, t);
      if a == tid && th.arrived && t == inds[tid].0 {
        RestingIsInCall(x.tasks, t, th.iter + 1, niters);
      }
    }
  }

  lemma RangeInside(inds: seq<(nat, nat)>, ntasks: nat, tid: nat)
    requires Ranges(inds, ntasks) && tid < |inds|
    ensures inds[tid].1 <= ntasks
  {
    if tid < |inds| - 1 {
      RangesAscend(inds, ntasks, tid, |inds| - 1);
    }
  }

  lemma {:induction false} StaticRun<T>(p: Problem<T>, inds: seq<(nat, nat)>, niters: nat, sched: seq<nat>)
    requires p.Valid() && Ranges(inds, p.n) && niters == p.limit && StopsAt(p, niters)
    requires ThreadSchedule(inds, sched)
    ensures StaticInv(p, inds, niters, Play(p, inds, niters, sched))
  {
    hide StaticInv, Step;
    if sched == [] {
      StaticStart(p, inds, niters);
    } else {
      StaticRun(p, inds, niters, sched[..|sched| - 1]);
      StaticStep(p, inds, niters, Play(p, inds, niters, sched[..|sched| - 1]), sched[|sched| - 1]);
    }
  }

  lemma StaticStep<T>(p: Problem<T>, inds: seq<(nat, nat)>, niters: nat, x: Static<T>, tid: nat)
    requires p.Valid() && Ranges(inds, p.n) && Shape(p, x.tasks)
    requires StaticInv(p, inds, niters, x) && tid < |inds| == |x.threads|
    requires niters == p.limit && StopsAt(p, niters)
    ensures StaticInv(p, inds, niters, Step(p, inds, niters, x, tid))
  {
    hide StaticInv, StopsAt;
    var th := x.threads[tid];
    if th.iter >= niters {
    } else if !th.arrived && th.task < inds[tid].1 && th.task < p.n {
      WorkStep(p, inds, niters, x, tid);
    } else {
      BarrierStep(p, inds, niters, x, tid);
    }
  }

  // ----- results -----

  /** Some order of the threads' steps leads to x. */
  ghost predicate StaticReached<T>(p: Problem<T>, inds: seq<(nat, nat)>, niters: nat, x: Static<T>)
    requires p.Valid() && Ranges(inds, p.n)
  {
    exists sched: seq<nat> :: ThreadSchedule(inds, sched) && Play(p, inds, niters, sched) == x
  }

  lemma StaticReachedInv<T>(p: Problem<T>, inds: seq<(nat, nat)>, niters: nat, x: Static<T>)
    requires p.Valid() && Ranges(inds, p.n) && niters == p.limit
    requires StopsAt(p, niters) && StaticReached(p, inds, niters, x)
    ensures Shape(p, x.tasks) && |x.threads| == |inds| && StaticInv(p, inds, niters, x)
  {
    hide StaticInv, StopsAt;
    var sched: seq<nat> :| ThreadSchedule(inds, sched) && Play(p, inds, niters, sched) == x;
    StaticRun(p, inds, niters, sched);
  }

  /** Whatever order the threads take their steps in, the tasks make a run of the
      neighbour protocol in which each check passes, and no task starts an
      iteration before all have finished the one before. */
  lemma StaticIsProtocolRun<T>(p: Problem<T>, inds: seq<(nat, nat)>, niters: nat, x: Static<T>, t: nat)
    requires p.Valid() && Ranges(inds, p.n) && niters == p.limit
    requires StopsAt(p, niters) && StaticReached(p, inds, niters, x)
    requires Shape(p, x.tasks) && t < p.n
    ensures var s := x.tasks;
            && Reached(p, s)
            && (s.pc[t].ReadUp? || s.pc[t].ReadDown? || InTask(s.pc[t]) ==>
                && PreCondsMet(UpDiff(s, t), DownDiff(s, t))
                && forall j | 0 <= j < p.n :: s.iter[t] <= s.iter[j])
            && (s.pc[t].ReadDown? ==> PreCondsMet(s.pc[t].d1, DownDiff(s, t)))
  {
    hide Reached, StopsAt, StaticReached;
    StaticReachedInv(p, inds, niters, x);
    var tid := OneOwner(inds, p.n, t);
    assert TaskOk(p, niters, x.threads[tid], x.tasks, t);
    if x.tasks.pc[t].ReadUp? || x.tasks.pc[t].ReadDown? || InTask(x.tasks.pc[t]) {
      ChecksPass(p, inds, niters, x, tid, t);
      forall j: nat | j < p.n
        ensures x.tasks.iter[t] <= x.tasks.iter[j]
      {
        CounterNear(p, inds, niters, x, tid, j);
      }
    }
  }

  /** When all threads have left their loops every task has run niters times, and
      the buffers are those of the serial solver. */
  lemma StaticFinished<T>(p: Problem<T>, inds: seq<(nat, nat)>, niters: nat, x: Static<T>)
    requires p.Valid() && Ranges(inds, p.n) && niters == p.limit
    requires StopsAt(p, niters) && StaticReached(p, inds, niters, x)
    requires Shape(p, x.tasks) && forall th | th in x.threads :: th.iter >= niters
    ensures forall t | 0 <= t < p.n :: x.tasks.iter[t] == niters && x.tasks.pc[t].Done?
    ensures BuffersAt(p, niters, x.tasks.u1, x.tasks.u2)
  {
    hide StopsAt, BuffersAt, Reached, StaticReached;
    StaticReachedInv(p, inds, niters, x);
    forall t: nat | t < p.n
      ensures x.tasks.iter[t] == niters && x.tasks.pc[t].Done?
    {
      var tid := OneOwner(inds, p.n, t);
      assert x.threads[tid] in x.threads && TaskOk(p, niters, x.threads[tid], x.tasks, t);
    }
    SameAsSerial(p, x.tasks, niters);
  }

  lemma {:induction false} Slowest(threads: seq<Thread>, j: nat) returns (tid: nat)
    requires 0 < j <= |threads|
    ensures tid < j && forall a | 0 <= a < j :: threads[tid].iter <= threads[a].iter
  {
    if j == 1 {
      tid := 0;
    } else {
      tid := Slowest(threads, j - 1);
      if threads[j - 1].iter < threads[tid].iter {
        tid := j - 1;
      }
    }
  }

  /** The barrier never blocks all threads: until all have left their loops, one moves. */
  lemma StaticMoves<T>(p: Problem<T>, inds: seq<(nat, nat)>, niters: nat, x: Static<T>) returns (tid: nat)
    requires p.Valid() && Ranges(inds, p.n) && niters == p.limit
    requires StopsAt(p, niters) && StaticReached(p, inds, niters, x)
    requires Shape(p, x.tasks) && exists th :: th in x.threads && th.iter < niters
    ensures tid < |inds| == |x.threads| && Step(p, inds, niters, x, tid) != x
  {
    hide StopsAt, StaticReached, Exec, StaticInv, Reached;
    StaticReachedInv(p, inds, niters, x);
    StaticShape(p, inds, niters, x);
    tid := Slowest(x.threads, |inds|);
    var k := x.threads[tid].iter;
    if a: nat :| a < |inds| && x.threads[a].iter == k && !x.threads[a].arrived {
      tid := a;
      if x.threads[a].task < inds[a].1 && x.threads[a].task < p.n {
        tid := WorkerMoves(p, inds, niters, x, a);
      }
    } else {
      assert AllArrived(x.threads, k);
    }
  }

  lemma WorkerMoves<T>(p: Problem<T>, inds: seq<(nat, nat)>, niters: nat, x: Static<T>, a: nat) returns (tid: nat)
    requires p.Valid() && Ranges(inds, p.n) && niters == p.limit && StopsAt(p, niters)
    requires Shape(p, x.tasks) && StaticInv(p, inds, niters, x) && a < |inds| == |x.threads|
    requires x.threads[a].iter < niters && !x.threads[a].arrived
    requires x.threads[a].task < inds[a].1 && x.threads[a].task < p.n
    ensures tid < |inds| && Step(p, inds, niters, x, tid) != x
  {
    hide StopsAt, Exec, Inv, Reached;
    var s, t := x.tasks, x.threads[a].task;
    assert ThreadOk(inds, niters, x.threads, a) && Owns(inds, a, t) && TaskOk(p, niters, x.threads[a], s, t);
    tid := a;
    ReachedStop(p, s, niters);
    assert CounterOk(p, s, t);
    if Enabled(p, s, t) {
      Runtime.EnabledMoves(p, s, t);
    } else {
      var b := HolderTask(p, s);
      tid := OneOwner(inds, p.n, b);
      assert TaskOk(p, niters, x.threads[tid], s, b);
      Runtime.EnabledMoves(p, s, b);
    }
  }

  /** Whoever holds mu_task can go on. */
  lemma HolderTask<T>(p: Problem<T>, s: State<T>) returns (b: nat)
    requires p.Valid() && Reached(p, s) && Shape(p, s) && s.mutex.Some?
    ensures b < p.n && (s.pc[b].TestDone? || s.pc[b].SetDone?) && Enabled(p, s, b)
  {
    hide Reached;
    ReachedInv(p, s);
    b := s.mutex.value;
    assert ClaimOk(p, s, b);
  }
}
