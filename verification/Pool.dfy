/** The FIFO thread pool. Everything done under queue_mutex is one step; what
    happens outside it (running a task, counting, testing the count, notifying
    after unlocking) is a step of its own. What a task returns is arbitrary here. */
module Pool {

  /** Where a worker thread is in its loop. */
  datatype Worker =
    | Entering              // about to take queue_mutex
    | Blocked               // in condition.wait
    | Running(t: nat)       // in task()
    | Requeue(t: nat)       // the task returned true
    | Count(t: nat)         // the task returned false, numTasksDone not yet incremented
    | TestCount
    | CheckStop             // assert(stop == false)
    | SetStop
    | NotifyAll
    | Exited

  datatype Pool = Pool(
    tasks: nat,             // Utility::numTasks
    queue: seq<nat>,        // ThreadPool::tasks
    workers: seq<Worker>,
    next: nat,              // next task main enqueues
    owes: bool,             // main has pushed but not yet notified
    numDone: nat,           // ThreadPool::numTasksDone
    stop: bool,
    counted: set<nat>,      // the tasks behind numDone
    thrown: bool,           // "enqueue on stopped ThreadPool"
    aborted: bool)          // an assert did not hold

  /** One step: who takes it, whom a notify_one would wake, what a call returns. */
  datatype Action =
    | Main(wake: nat)
    | Work(w: nat, wake: nat, again: bool)
    | Spurious(w: nat)

  function Start(tasks: nat, threads: nat): Pool {
    Pool(tasks, [], seq(threads, _ => Entering), 0, false, 0, false, {}, false, false)
  }

  /** notify_one wakes one blocked worker, if there is any. */
  function NotifyOne(workers: seq<Worker>, wake: nat): seq<Worker> {
    if wake < |workers| && workers[wake].Blocked? then workers[wake := Entering] else workers
  }

  /** A possible choice of the worker that notify_one wakes. */
  ghost predicate CanWake(workers: seq<Worker>, wake: nat) {
    (wake < |workers| && workers[wake].Blocked?) || forall w | 0 <= w < |workers| :: !workers[w].Blocked?
  }

  function WakeAll(workers: seq<Worker>): (r: seq<Worker>)
    ensures |r| == |workers|
    ensures forall w | 0 <= w < |workers| :: r[w] == if workers[w].Blocked? then Entering else workers[w]
  {
    seq(|workers|, w requires 0 <= w < |workers| => if workers[w].Blocked? then Entering else workers[w])
  }

  function MainStep(s: Pool, wake: nat): Pool {
    if s.owes then s.(owes := false, workers := NotifyOne(s.workers, wake))
    else if s.next >= s.tasks then s
    else if s.stop then s.(thrown := true)
    else s.(queue := s.queue + [s.next], next := s.next + 1, owes := true)
  }

  function WorkStep(s: Pool, w: nat, wake: nat, again: bool): Pool
    requires w < |s.workers|
  {
    var to := (pc: Worker) => s.workers[w := pc];
    match s.workers[w]
    case Entering =>
      if s.queue != [] then s.(queue := s.queue[1..], workers := to(Running(s.queue[0])))
      else if s.stop then s.(workers := to(Exited))
      else s.(workers := to(Blocked))
    case Running(t) => s.(workers := to(if again then Requeue(t) else Count(t)))
    case Requeue(t) =>
      if s.stop then s.(thrown := true)
      else s.(queue := s.queue + [t], workers := NotifyOne(to(Entering), wake))
    case Count(t) => s.(numDone := s.numDone + 1, counted := s.counted + {t}, workers := to(TestCount))
    case TestCount => s.(workers := to(if s.numDone == s.tasks then CheckStop else Entering))
    case CheckStop => if s.stop then s.(aborted := true) else s.(workers := to(SetStop))
    case SetStop => s.(stop := true, workers := to(NotifyAll))
    case NotifyAll => s.(workers := WakeAll(to(Entering)))
    case Blocked => s
    case Exited => s
  }

  /** An aborted process takes no more steps. */
  function Step(s: Pool, a: Action): Pool {
    if s.aborted || s.thrown then s
    else
      match a
      case Main(wake) => MainStep(s, wake)
      case Work(w, wake, again) => if w < |s.workers| then WorkStep(s, w, wake, again) else s
      case Spurious(w) =>
        if w < |s.workers| && s.workers[w].Blocked? then s.(workers := s.workers[w := Entering]) else s
  }

  /** An action whose notify_one picks a worker that can be woken. */
  ghost predicate Legal(s: Pool, a: Action) {
    match a
    case Main(wake) => s.owes ==> CanWake(s.workers, wake)
    case Work(w, wake, _) => w < |s.workers| && s.workers[w].Requeue? ==> CanWake(s.workers, wake)
    case Spurious(_) => true
  }

  /** The pool after a sequence of actions, and whether all of them were legal. */
  function Play(tasks: nat, threads: nat, acts: seq<Action>): Pool {
    if acts == [] then Start(tasks, threads)
    else Step(Play(tasks, threads, acts[..|acts| - 1]), acts[|acts| - 1])
  }

  ghost predicate LegalPlay(tasks: nat, threads: nat, acts: seq<Action>) {
    acts == [] || (LegalPlay(tasks, threads, acts[..|acts| - 1])
                   && Legal(Play(tasks, threads, acts[..|acts| - 1]), acts[|acts| - 1]))
  }

  // ----- where a task is -----

  predicate Holds(pc: Worker, t: nat) {
    (pc.Running? || pc.Requeue? || pc.Count?) && pc.t == t
  }

  ghost predicate Held(s: Pool, t: nat) {
    exists w: nat :: w < |s.workers| && Holds(s.workers[w], t)
  }

  predicate Awake(pc: Worker) {
    !pc.Blocked? && !pc.Exited?
  }

  /** Each task is in exactly one place. */
  ghost predicate PlaceOk(s: Pool, t: nat) {
    && (t >= s.next || t in s.queue || t in s.counted || Held(s, t))
    && (t in s.queue ==> t < s.next && t !in s.counted && !Held(s, t))
    && (t in s.counted ==> t < s.next && !Held(s, t))
    && (Held(s, t) ==> t < s.next)
  }

  ghost predicate OneHolder(s: Pool, w: nat, w': nat)
    requires w < |s.workers| && w' < |s.workers|
  {
    forall t: nat :: Holds(s.workers[w], t) && Holds(s.workers[w'], t) ==> w == w'
  }

  ghost predicate Conserved(s: Pool) {
    && s.next <= s.tasks && !s.thrown
    && (forall t: nat | t < s.tasks :: PlaceOk(s, t))
    && (forall t: nat | t in s.queue || t in s.counted || Held(s, t) :: t < s.next)
    && (forall w: nat, w': nat | w < |s.workers| && w' < |s.workers| :: OneHolder(s, w, w'))
    && (forall a, b | 0 <= a < b < |s.queue| :: s.queue[a] != s.queue[b])
    && s.numDone == |s.counted|
  }

  predicate Stopping(pc: Worker) {
    pc.CheckStop? || pc.SetStop?
  }

  ghost predicate Alive(s: Pool) {
    // No lost wake-up.
    && (s.queue != [] ==> s.owes || exists w: nat :: w < |s.workers| && Awake(s.workers[w]))
    && (s.stop && (exists w: nat :: w < |s.workers| && s.workers[w].Blocked?) ==>
        exists w: nat :: w < |s.workers| && s.workers[w].NotifyAll?)
    // Whoever counts the last task stops the pool.
    && (s.numDone == s.tasks && s.tasks > 0 ==>
        s.stop || exists w: nat :: w < |s.workers| && (s.workers[w].TestCount? || Stopping(s.workers[w])))
    && (forall w: nat | w < |s.workers| && s.workers[w].Exited? :: s.stop)
    // Stop is never early.
    && (s.stop || s.aborted || (exists w: nat :: w < |s.workers| && Stopping(s.workers[w])) ==> s.numDone == s.tasks)
    && (s.owes ==> s.next > 0)
  }

  ghost predicate PoolInv(s: Pool) {
    Conserved(s) && Alive(s)
  }

  // ----- preservation -----

  /** A set of n numbers below n has all of them. */
  lemma {:induction false} FullSet(c: set<nat>, n: nat)
    requires forall t | t in c :: t < n
    ensures |c| <= n
    ensures |c| == n ==> forall t: nat | t < n :: t in c
  {
    if n > 0 {
      var c' := c - {n - 1};
      FullSet(c', n - 1);
      if n - 1 !in c {
        assert c' == c;
      }
    } else {
      assert c == {};
    }
  }

  /** Once all tasks are counted none is queued or held. */
  lemma AllCounted(s: Pool)
    requires Conserved(s) && s.numDone == s.tasks
    ensures s.queue == [] && forall t: nat | t < s.tasks :: t in s.counted && !Held(s, t)
    ensures forall w: nat | w < |s.workers| :: !s.workers[w].Running? && !s.workers[w].Requeue? && !s.workers[w].Count?
  {
    assert s.queue == [] || s.queue[0] in s.queue;
    forall w: nat | w < |s.workers| && (s.workers[w].Running? || s.workers[w].Requeue? || s.workers[w].Count?)
      ensures Held(s, s.workers[w].t)
    {
      assert Holds(s.workers[w], s.workers[w].t);
    }
    FullSet(s.counted, s.tasks);
    forall t: nat | t < s.tasks
      ensures t in s.counted && t !in s.queue && !Held(s, t)
    {
      assert PlaceOk(s, t);
    }
  }

  /** Steps that move no task. */
  lemma NothingMoves(s: Pool, s': Pool)
    requires Conserved(s) && |s'.workers| == |s.workers|
    requires s'.tasks == s.tasks && s'.queue == s.queue && s'.next == s.next && s'.counted == s.counted
    requires s'.numDone == s.numDone && s'.thrown == s.thrown
    requires forall w: nat, t: nat | w < |s.workers| :: Holds(s'.workers[w], t) == Holds(s.workers[w], t)
    ensures Conserved(s')
  {
    forall t: nat
      ensures Held(s', t) == Held(s, t)
    {
      if w: nat :| w < |s.workers| && Holds(s.workers[w], t) {
        assert Holds(s'.workers[w], t);
      }
    }
    forall t: nat | t < s'.tasks
      ensures PlaceOk(s', t)
    {
      assert PlaceOk(s, t);
    }
    forall w: nat, w': nat | w < |s'.workers| && w' < |s'.workers|
      ensures OneHolder(s', w, w')
    {
      assert OneHolder(s, w, w');
    }
  }

  /** Steps in which worker w takes, drops or passes on a task. */
  lemma HolderMoves(s: Pool, s': Pool, w: nat)
    requires w < |s.workers| && |s'.workers| == |s.workers|
    requires forall v: nat, t: nat | v < |s.workers| && v != w :: Holds(s'.workers[v], t) == Holds(s.workers[v], t)
    requires forall v: nat | v < |s.workers| :: OneHolder(s, v, w)
    ensures forall t: nat :: Held(s', t) <==> (Held(s, t) && !Holds(s.workers[w], t)) || Holds(s'.workers[w], t)
  {
    forall t: nat
      ensures Held(s', t) <==> (Held(s, t) && !Holds(s.workers[w], t)) || Holds(s'.workers[w], t)
    {
      if v: nat :| v < |s.workers| && Holds(s.workers[v], t) {
        assert OneHolder(s, v, w);
        if v != w {
          assert Holds(s'.workers[v], t);
        }
      }
      if v: nat :| v < |s'.workers| && Holds(s'.workers[v], t) {
        if v != w {
          assert Holds(s.workers[v], t) && OneHolder(s, v, w);
        }
      }
    }
  }

  lemma ConservedPop(s: Pool, w: nat, wake: nat, again: bool)
    requires PoolInv(s) && w < |s.workers| && s.workers[w].Entering? && s.queue != []
    ensures Conserved(WorkStep(s, w, wake, again))
  {
    var s' := WorkStep(s, w, wake, again);
    var t0 := s.queue[0];
    HolderMoves(s, s', w);
    assert t0 in s.queue;
    assert forall v: nat | v < |s.workers| :: !Holds(s.workers[v], t0) by {
      assert PlaceOk(s, t0) && !Held(s, t0);
    }
    forall t: nat | t in s.queue
      ensures t == t0 || t in s'.queue
    {
      var a :| 0 <= a < |s.queue| && s.queue[a] == t;
      assert a > 0 ==> s'.queue[a - 1] == t;
    }
    assert forall t: nat :: t in s'.queue ==> t in s.queue && t != t0;
    forall t: nat | t < s'.tasks
      ensures PlaceOk(s', t)
    {
      assert PlaceOk(s, t);
    }
    forall v: nat, v': nat | v < |s'.workers| && v' < |s'.workers|
      ensures OneHolder(s', v, v')
    {
      assert OneHolder(s, v, v');
    }
  }

  lemma ConservedDrop(s: Pool, w: nat, wake: nat, again: bool)
    requires PoolInv(s) && w < |s.workers| && (s.workers[w].Requeue? || s.workers[w].Count?)
    ensures Conserved(WorkStep(s, w, wake, again))
  {
    var s' := WorkStep(s, w, wake, again);
    var t0 := s.workers[w].t;
    assert Holds(s.workers[w], t0) && Held(s, t0);
    if s.stop {
      AllCounted(s);
    }
    HolderMoves(s, s', w);
    assert PlaceOk(s, t0);
    forall t: nat | t < s'.tasks
      ensures PlaceOk(s', t)
    {
      assert PlaceOk(s, t);
    }
    forall v: nat, v': nat | v < |s'.workers| && v' < |s'.workers|
      ensures OneHolder(s', v, v')
    {
      assert OneHolder(s, v, v');
    }
  }

  lemma ConservedMain(s: Pool, wake: nat)
    requires PoolInv(s)
    ensures Conserved(MainStep(s, wake))
  {
    var s' := MainStep(s, wake);
    if s.owes || s.next >= s.tasks {
      NothingMoves(s, s');
    } else {
      assert PlaceOk(s, s.next);
      if s.stop {
        AllCounted(s);
      }
      forall t: nat
        ensures Held(s', t) == Held(s, t)
      {
      }
      forall t: nat | t < s'.tasks
        ensures PlaceOk(s', t)
      {
        assert PlaceOk(s, t);
      }
      forall v: nat, v': nat | v < |s'.workers| && v' < |s'.workers|
        ensures OneHolder(s', v, v')
      {
        assert OneHolder(s, v, v');
      }
    }
  }

  /** Steps of a worker that neither take, drop nor pass on a task. */
  lemma ConservedStill(s: Pool, w: nat, wake: nat, again: bool)
    requires PoolInv(s) && w < |s.workers| && !(s.workers[w].Entering? && s.queue != [])
    requires !s.workers[w].Requeue? && !s.workers[w].Count?
    ensures Conserved(WorkStep(s, w, wake, again))
  {
    hide Conserved, Alive, WorkStep;
    StillPlaces(s, w, wake, again);
    NothingMoves(s, WorkStep(s, w, wake, again));
  }

  lemma StillPlaces(s: Pool, w: nat, wake: nat, again: bool)
    requires w < |s.workers| && !(s.workers[w].Entering? && s.queue != [])
    requires !s.workers[w].Requeue? && !s.workers[w].Count?
    ensures var s' := WorkStep(s, w, wake, again);
            && |s'.workers| == |s.workers| && s'.tasks == s.tasks && s'.queue == s.queue && s'.next == s.next
            && s'.counted == s.counted && s'.numDone == s.numDone && s'.thrown == s.thrown
            && forall v: nat, t: nat | v < |s.workers| :: Holds(s'.workers[v], t) == Holds(s.workers[v], t)
  {
    if !s.workers[w].NotifyAll? {
      StillHolds(s, w, wake, again);
    }
  }

  /** Without a notification only the worker's own place changes, and it holds what it held. */
  lemma StillHolds(s: Pool, w: nat, wake: nat, again: bool)
    requires w < |s.workers| && !(s.workers[w].Entering? && s.queue != [])
    requires !s.workers[w].Requeue? && !s.workers[w].Count? && !s.workers[w].NotifyAll?
    ensures var s' := WorkStep(s, w, wake, again);
            && |s'.workers| == |s.workers| && s'.workers == s.workers[w := s'.workers[w]]
            && forall t: nat :: Holds(s'.workers[w], t) == Holds(s.workers[w], t)
  {
    hide WakeAll, NotifyOne;
    assert s.workers == s.workers[w := s.workers[w]];
  }

  lemma ConservedStep(s: Pool, a: Action)
    requires PoolInv(s)
    ensures Conserved(Step(s, a))
  {
    hide Conserved, Alive, WorkStep, MainStep;
    match a
    case Main(wake) => ConservedMain(s, wake);
    case Spurious(w) => NothingMoves(s, Step(s, a));
    case Work(w, wake, again) =>
      if s.aborted || w >= |s.workers| {
      } else if s.workers[w].Entering? && s.queue != [] {
        ConservedPop(s, w, wake, again);
      } else if s.workers[w].Requeue? || s.workers[w].Count? {
        ConservedDrop(s, w, wake, again);
      } else {
        ConservedStill(s, w, wake, again);
      }
  }

  /** What a step does to workers other than its own: at most wake them. */
  lemma OthersOnlyWake(s: Pool, a: Action)
    requires !s.aborted && !s.thrown
    ensures var s' := Step(s, a);
            && |s'.workers| == |s.workers|
            && forall v: nat | v < |s.workers| && (a.Work? ==> v != a.w) ::
                 s'.workers[v] == s.workers[v] || (s.workers[v].Blocked? && s'.workers[v].Entering?)
  {
    hide WakeAll;
  }

  /** The return of a call. */
  lemma ReturnStep(s: Pool, w: nat, wake: nat, again: bool)
    requires w < |s.workers| && s.workers[w].Running? && !s.aborted && !s.thrown
    ensures var t := s.workers[w].t;
            Step(s, Work(w, wake, again)) == s.(workers := s.workers[w := if again then Requeue(t) else Count(t)])
  {
  }

  /** Where a step that runs no task can put one. */
  lemma NewPlaces(s: Pool, a: Action)
    requires !s.aborted && !s.thrown && !(a.Work? && a.w < |s.workers| && s.workers[a.w].Running?)
    ensures var s' := Step(s, a);
            && |s'.workers| == |s.workers| && s'.next >= s.next
            && (forall w: nat | w < |s.workers| ::
                  || s'.workers[w] == s.workers[w]
                  || (s'.workers[w].Running? && s'.workers[w].t in s.queue)
                  || (!s'.workers[w].Running? && !s'.workers[w].Requeue? && !s'.workers[w].Count?))
            && (forall t: nat | t in s'.queue ::
                  t in s.queue || t == s.next || exists w: nat :: w < |s.workers| && s.workers[w] == Requeue(t))
            && (forall t: nat | t in s'.counted ::
                  t in s.counted || exists w: nat :: w < |s.workers| && s.workers[w] == Count(t))
  {
    OthersOnlyWake(s, a);
    if a.Work? && a.w < |s.workers| {
      assert s.queue == [] || s.queue[0] in s.queue;
    }
  }

  ghost predicate SomeAwake(s: Pool) {
    exists w: nat :: w < |s.workers| && Awake(s.workers[w])
  }

  /** A worker that takes a step stays awake, unless it has found the queue empty. */
  lemma OwnAwake(s: Pool, w: nat, wake: nat, again: bool)
    requires w < |s.workers| && Awake(s.workers[w])
    ensures var s' := WorkStep(s, w, wake, again); w < |s'.workers| && (Awake(s'.workers[w]) || s'.queue == [])
  {
    hide WakeAll;
  }

  /** Main's notification leaves somebody awake while there are tasks. */
  lemma NotifiedAwake(s: Pool, wake: nat)
    requires PoolInv(s) && s.owes && CanWake(s.workers, wake) && s.queue != [] && |s.workers| > 0
    ensures SomeAwake(MainStep(s, wake))
  {
    var v: nat := if wake < |s.workers| && s.workers[wake].Blocked? then wake else 0;
    if s.workers[v].Exited? {
      assert s.stop;
      AllCounted(s);
    }
    assert Awake(MainStep(s, wake).workers[v]);
  }

  lemma AwakeStep(s: Pool, a: Action)
    requires PoolInv(s) && Legal(s, a) && |s.workers| > 0 && !s.aborted && !s.thrown
    ensures Step(s, a).queue != [] ==> Step(s, a).owes || SomeAwake(Step(s, a))
  {
    hide Conserved, WorkStep;
    var s' := Step(s, a);
    OthersOnlyWake(s, a);
    if a.Work? && a.w < |s.workers| && Awake(s.workers[a.w]) {
      OwnAwake(s, a.w, a.wake, a.again);
    } else if a.Main? && s.owes && s.queue != [] {
      NotifiedAwake(s, a.wake);
    } else if s.queue != [] && !s.owes {
      var v: nat :| v < |s.workers| && Awake(s.workers[v]);
      assert Awake(s'.workers[v]);
    } else if a.Work? && a.w < |s.workers| {
      Unmoved(s, a.w, a.wake, a.again);
    }
  }

  lemma Unmoved(s: Pool, w: nat, wake: nat, again: bool)
    requires w < |s.workers| && !Awake(s.workers[w])
    ensures WorkStep(s, w, wake, again) == s
  {
  }

  lemma NotifyStep(s: Pool, a: Action)
    requires PoolInv(s) && Legal(s, a) && !s.aborted
    ensures var s' := Step(s, a);
            s'.stop && (exists w: nat :: w < |s'.workers| && s'.workers[w].Blocked?) ==>
              exists w: nat :: w < |s'.workers| && s'.workers[w].NotifyAll?
  {
    var s' := Step(s, a);
    OthersOnlyWake(s, a);
    if b: nat :| s'.stop && b < |s'.workers| && s'.workers[b].Blocked? {
      if a.Work? && a.w < |s.workers| && s.workers[a.w].SetStop? {
        assert s'.workers[a.w].NotifyAll?;
      } else {
        assert s.stop && s.workers[b].Blocked?;
        var v: nat :| v < |s.workers| && s.workers[v].NotifyAll?;
        assert s'.workers[v].NotifyAll?;
      }
    }
  }

  lemma StopperStep(s: Pool, a: Action)
    requires PoolInv(s) && Legal(s, a) && !s.aborted
    ensures var s' := Step(s, a);
            s'.numDone == s'.tasks && s'.tasks > 0 ==>
              s'.stop || exists w: nat :: w < |s'.workers| && (s'.workers[w].TestCount? || Stopping(s'.workers[w]))
  {
    var s' := Step(s, a);
    OthersOnlyWake(s, a);
    if s.numDone == s.tasks && s.tasks > 0 && !s.stop {
      var v: nat :| v < |s.workers| && (s.workers[v].TestCount? || Stopping(s.workers[v]));
      assert s'.stop || s'.workers[v].TestCount? || Stopping(s'.workers[v]);
    } else if a.Work? && a.w < |s.workers| && s.workers[a.w].Count? {
      assert s'.workers[a.w].TestCount?;
    }
  }

  lemma LeaversStep(s: Pool, a: Action)
    requires PoolInv(s) && Legal(s, a) && !s.aborted && !s.thrown
    ensures var s' := Step(s, a); forall w: nat | w < |s'.workers| && s'.workers[w].Exited? :: s'.stop
  {
    hide Conserved, WakeAll;
    OthersOnlyWake(s, a);
  }

  lemma NotEarlyStep(s: Pool, a: Action)
    requires PoolInv(s) && Legal(s, a) && !s.aborted && !s.thrown
    ensures var s' := Step(s, a);
            && (s'.stop || s'.aborted || (exists w: nat :: w < |s'.workers| && Stopping(s'.workers[w])) ==>
                s'.numDone == s'.tasks)
            && (s'.owes ==> s'.next > 0)
  {
    hide Conserved;
    var s' := Step(s, a);
    OthersOnlyWake(s, a);
    if s.numDone == s.tasks {
      AllCounted(s);
    }
    if v: nat :| v < |s'.workers| && Stopping(s'.workers[v]) {
      assert Stopping(s.workers[v]) || (a.Work? && a.w == v && s.workers[v].TestCount? && s.numDone == s.tasks);
    }
  }

  lemma PoolStep(s: Pool, a: Action)
    requires PoolInv(s) && Legal(s, a) && |s.workers| > 0
    ensures PoolInv(Step(s, a)) && |Step(s, a).workers| == |s.workers| && Step(s, a).tasks == s.tasks
  {
    if !s.aborted {
      ConservedStep(s, a);
      OthersOnlyWake(s, a);
      AwakeStep(s, a);
      NotifyStep(s, a);
      StopperStep(s, a);
      LeaversStep(s, a);
      NotEarlyStep(s, a);
    }
  }

  // ----- results -----

  lemma {:induction false} PoolRun(tasks: nat, threads: nat, acts: seq<Action>)
    requires threads >= 1 && LegalPlay(tasks, threads, acts)
    ensures PoolInv(Play(tasks, threads, acts))
    ensures |Play(tasks, threads, acts).workers| == threads && Play(tasks, threads, acts).tasks == tasks
  {
    if acts == [] {
      StartOk(tasks, threads);
    } else {
      PoolRun(tasks, threads, acts[..|acts| - 1]);
      PoolStep(Play(tasks, threads, acts[..|acts| - 1]), acts[|acts| - 1]);
    }
  }

  lemma StartOk(tasks: nat, threads: nat)
    ensures PoolInv(Start(tasks, threads))
  {
    var s := Start(tasks, threads);
    assert forall t: nat :: !Held(s, t);
  }

  /** In every run a task is in exactly one place: not yet enqueued, in the queue,
      held by one worker, or counted; the counter counts; and nothing is ever
      enqueued on a stopped pool. */
  lemma PlacesOfRun(tasks: nat, threads: nat, acts: seq<Action>, t: nat)
    requires threads >= 1 && LegalPlay(tasks, threads, acts) && t < tasks
    ensures var s := Play(tasks, threads, acts);
            && |s.workers| == threads
            && (if t >= s.next then t !in s.queue && t !in s.counted && !Held(s, t)
                else if t in s.queue then t !in s.counted && !Held(s, t)
                else (t in s.counted) != Held(s, t))
            && (forall w: nat, w': nat | w < threads && w' < threads
                  && Holds(s.workers[w], t) && Holds(s.workers[w'], t) :: w == w')
            && (forall a, b | 0 <= a < b < |s.queue| :: s.queue[a] != s.queue[b])
            && s.numDone == |s.counted| && !s.thrown
            && (s.stop ==> t in s.counted)
  {
    hide Play, LegalPlay;
    PoolRun(tasks, threads, acts);
    var s := Play(tasks, threads, acts);
    assert PlaceOk(s, t);
    if s.stop {
      AllCounted(s);
    }
    forall w: nat, w': nat | w < threads && w' < threads && Holds(s.workers[w], t) && Holds(s.workers[w'], t)
      ensures w == w'
    {
      assert OneHolder(s, w, w');
    }
  }

  /** No wake-up is lost: a task in the queue has somebody awake to take it or a
      notification still to come, and a worker that waits on a stopped pool has the
      notification of all still to come. Stop and the assert before it are never early. */
  lemma WakeUpsOfRun(tasks: nat, threads: nat, acts: seq<Action>)
    requires threads >= 1 && LegalPlay(tasks, threads, acts)
    ensures var s := Play(tasks, threads, acts);
            && |s.workers| == threads
            && (s.queue != [] ==> s.owes || exists w: nat :: w < threads && Awake(s.workers[w]))
            && (s.stop && (exists w: nat :: w < threads && s.workers[w].Blocked?) ==>
                exists w: nat :: w < threads && s.workers[w].NotifyAll?)
            && (s.stop || s.aborted ==> s.numDone == tasks)
            && (forall w: nat | w < threads && s.workers[w].Exited? :: s.stop)
  {
    hide Play, LegalPlay, Conserved;
    PoolRun(tasks, threads, acts);
  }

  /** Some action, other than a spurious wake-up, changes the state. */
  ghost predicate CanMove(s: Pool) {
    exists a: Action :: !a.Spurious? && Legal(s, a) && Step(s, a) != s
  }

  /** There is always a worker that notify_one may pick. */
  lemma SomeWake(workers: seq<Worker>) returns (wake: nat)
    ensures CanWake(workers, wake)
  {
    wake := 0;
    if w: nat :| w < |workers| && workers[w].Blocked? {
      wake := w;
    }
  }

  lemma MainMoves(s: Pool) returns (a: Action)
    requires PoolInv(s) && !s.aborted && (s.owes || s.next < s.tasks)
    ensures a.Main? && Legal(s, a) && Step(s, a) != s
  {
    var wake := SomeWake(s.workers);
    a := Main(wake);
  }

  lemma WorkerMoves(s: Pool, w: nat) returns (a: Action)
    requires PoolInv(s) && !s.aborted && w < |s.workers|
    requires !s.workers[w].Blocked? && !s.workers[w].Exited?
    ensures a.Work? && a.w == w && Legal(s, a) && Step(s, a) != s
  {
    var wake := SomeWake(s.workers);
    a := Work(w, wake, false);
    var s' := Step(s, a);
    assert s'.thrown || s'.aborted || s'.workers[w] != s.workers[w];
  }

  /** With main finished and every worker waiting or gone, all work is done and no
      worker is waiting. */
  lemma Quiescent(s: Pool)
    requires PoolInv(s) && |s.workers| > 0 && s.tasks > 0 && !s.owes && s.next == s.tasks
    requires forall w: nat | w < |s.workers| :: s.workers[w].Blocked? || s.workers[w].Exited?
    ensures s.numDone == s.tasks && s.stop
    ensures forall w: nat | w < |s.workers| :: s.workers[w].Exited?
  {
    assert s.queue == [];
    forall t: nat | t < s.tasks
      ensures t in s.counted
    {
      assert PlaceOk(s, t);
    }
    CountAll(s.counted, s.tasks);
  }

  lemma {:induction false} CountAll(c: set<nat>, n: nat)
    requires forall t: nat :: t in c <==> t < n
    ensures |c| == n
  {
    if n > 0 {
      CountAll(c - {n - 1}, n - 1);
    } else {
      assert c == {};
    }
  }

  /** A pool in which nothing moves has either been aborted or shut down cleanly;
      in both cases after all tasks were done. */
  lemma StuckIsFinished(s: Pool)
    requires PoolInv(s) && |s.workers| > 0 && s.tasks > 0 && !CanMove(s)
    ensures s.numDone == s.tasks
    ensures s.aborted || (s.stop && forall w: nat | w < |s.workers| :: s.workers[w].Exited?)
  {
    if !s.aborted {
      if s.owes || s.next < s.tasks {
        var a := MainMoves(s);
      }
      forall w: nat | w < |s.workers|
        ensures s.workers[w].Blocked? || s.workers[w].Exited?
      {
        if !s.workers[w].Blocked? && !s.workers[w].Exited? {
          var a := WorkerMoves(s, w);
        }
      }
      Quiescent(s);
    }
  }

  // ----- the order of the queue -----

  /** The task that the action from s to s' puts into the queue, if any: the next one of
      main, or one that a worker requeues. */
  function PutIn(s: Pool, a: Action, s': Pool): seq<nat> {
    match a
    case Main(_) => if s'.next != s.next then [s.next] else []
    case Work(w, _, _) =>
      if w < |s.workers| && w < |s'.workers| && s.workers[w].Requeue? && !s'.workers[w].Requeue?
      then [s.workers[w].t] else []
    case Spurious(_) => []
  }

  /** The task that a worker starts to run. */
  function TakenOut(s: Pool, a: Action, s': Pool): seq<nat> {
    match a
    case Work(w, _, _) =>
      if w < |s.workers| && w < |s'.workers| && !s.workers[w].Running? && s'.workers[w].Running?
      then [s'.workers[w].t] else []
    case _ => []
  }

  function AllPutIn(tasks: nat, threads: nat, acts: seq<Action>): seq<nat> {
    if acts == [] then []
    else
      AllPutIn(tasks, threads, acts[..|acts| - 1])
      + PutIn(Play(tasks, threads, acts[..|acts| - 1]), acts[|acts| - 1], Play(tasks, threads, acts))
  }

  function AllTakenOut(tasks: nat, threads: nat, acts: seq<Action>): seq<nat> {
    if acts == [] then []
    else
      AllTakenOut(tasks, threads, acts[..|acts| - 1])
      + TakenOut(Play(tasks, threads, acts[..|acts| - 1]), acts[|acts| - 1], Play(tasks, threads, acts))
  }

  lemma QueueStep(s: Pool, a: Action)
    ensures TakenOut(s, a, Step(s, a)) + Step(s, a).queue == s.queue + PutIn(s, a, Step(s, a))
  {
    if a.Work? && a.w < |s.workers| && s.workers[a.w].Entering? && s.queue != [] {
      assert s.queue == [s.queue[0]] + s.queue[1..];
    }
  }

  lemma Reassociate(taken: seq<nat>, queue: seq<nat>, put: seq<nat>, out: seq<nat>, queue': seq<nat>)
    requires out + queue' == queue + put
    ensures taken + queue + put == taken + out + queue'
  {
    assert taken + queue + put == taken + (queue + put);
    assert taken + out + queue' == taken + (out + queue');
  }

  /** First in, first out: in every run the workers have started the tasks in the order
      in which main and the workers enqueued them; what has not been started is the
      queue. */
  lemma {:induction false} FirstInFirstOut(tasks: nat, threads: nat, acts: seq<Action>)
    ensures AllPutIn(tasks, threads, acts) == AllTakenOut(tasks, threads, acts) + Play(tasks, threads, acts).queue
  {
    hide Step, PutIn, TakenOut;
    if acts != [] {
      var before, a := acts[..|acts| - 1], acts[|acts| - 1];
      var s, s' := Play(tasks, threads, before), Play(tasks, threads, acts);
      FirstInFirstOut(tasks, threads, before);
      QueueStep(s, a);
      Reassociate(AllTakenOut(tasks, threads, before), s.queue, PutIn(s, a, s'), TakenOut(s, a, s'), s'.queue);
    }
  }

  function BlockedOf(workers: seq<Worker>): set<nat> {
    set w: nat | w < |workers| && workers[w].Blocked?
  }

  /** notify_one wakes exactly one worker if any is blocked, and touches no other. */
  lemma WakesOne(workers: seq<Worker>, wake: nat)
    requires CanWake(workers, wake)
    ensures var woken := BlockedOf(workers) - BlockedOf(NotifyOne(workers, wake));
            |woken| == if BlockedOf(workers) == {} then 0 else 1
    ensures forall w: nat | w < |workers| && NotifyOne(workers, wake)[w] != workers[w] ::
              workers[w].Blocked? && NotifyOne(workers, wake)[w].Entering?
  {
    var woken := BlockedOf(workers) - BlockedOf(NotifyOne(workers, wake));
    if wake < |workers| && workers[wake].Blocked? {
      assert wake in BlockedOf(workers);
      assert woken == {wake};
    } else {
      assert woken == {};
    }
  }

  // ----- the assert before stopping -----

  /** A lone worker is not between counting and stopping while the pool is stopped. */
  ghost predicate AloneOk(s: Pool) {
    && |s.workers| == 1 && !s.aborted
    && (s.stop ==> s.workers[0].NotifyAll? || s.workers[0].Entering? || s.workers[0].Exited?)
  }

  lemma AloneStep(s: Pool, a: Action)
    requires PoolInv(s) && Legal(s, a) && AloneOk(s)
    ensures AloneOk(Step(s, a))
  {
    if s.stop {
      AllCounted(s);
    }
  }

  lemma {:induction false} AloneNeverAborts(tasks: nat, acts: seq<Action>)
    requires LegalPlay(tasks, 1, acts)
    ensures AloneOk(Play(tasks, 1, acts))
  {
    if acts != [] {
      AloneNeverAborts(tasks, acts[..|acts| - 1]);
      PoolRun(tasks, 1, acts[..|acts| - 1]);
      AloneStep(Play(tasks, 1, acts[..|acts| - 1]), acts[|acts| - 1]);
    }
  }

  lemma OneMore(tasks: nat, threads: nat, acts: seq<Action>, a: Action)
    requires LegalPlay(tasks, threads, acts) && Legal(Play(tasks, threads, acts), a)
    ensures LegalPlay(tasks, threads, acts + [a])
    ensures Play(tasks, threads, acts + [a]) == Step(Play(tasks, threads, acts), a)
  {
    assert (acts + [a])[..|acts|] == acts;
  }
}
