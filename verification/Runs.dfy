/** The main results, for every schedule of single steps. */
module Runs {
  import opened Jacobi
  import opened Residual
  import opened Machine
  import opened Skew
  import opened Refinement
  import opened Ring
  import opened Reduction
  import opened Stopping

  ghost predicate Inv<T>(p: Problem<T>, s: State<T>)
    requires p.Valid()
  {
    SkewInv(p, s) && DataInv(p, s) && RingInv(p, s) && ReduceInv(p, s)
  }

  lemma InvStep<T>(p: Problem<T>, s: State<T>, i: nat)
    requires p.Valid() && Inv(p, s) && i < p.n
    ensures Inv(p, Exec(p, s, i))
  {
    SkewStep(p, s, i);
    DataStep(p, s, i);
    RingStep(p, s, i);
    ReduceStep(p, s, i);
  }

  lemma {:induction false} InvRun<T>(p: Problem<T>, sched: seq<nat>)
    requires p.Valid() && Schedule(p, sched)
    ensures Inv(p, Run(p, sched))
  {
    if sched == [] {
      SkewInit(p);
      DataInit(p);
      RingInit(p);
      ReduceInit(p);
    } else {
      InvRun(p, sched[..|sched| - 1]);
      InvStep(p, Run(p, sched[..|sched| - 1]), sched[|sched| - 1]);
    }
  }

  lemma {:induction false} StopRun<T>(p: Problem<T>, sched: seq<nat>, last: nat)
    requires p.Valid() && Schedule(p, sched) && StopsAt(p, last)
    ensures StopInv(p, Run(p, sched), last)
  {
    if sched == [] {
      StopInit(p, last);
    } else {
      StopRun(p, sched[..|sched| - 1], last);
      InvRun(p, sched[..|sched| - 1]);
      StopStep(p, Run(p, sched[..|sched| - 1]), sched[|sched| - 1], last);
    }
  }

  /** Small residuals are noticed, and the limit follows them, whatever the problem. */
  lemma {:induction false} LimitRun<T>(p: Problem<T>, sched: seq<nat>)
    requires p.Valid() && Schedule(p, sched)
    ensures NoticeInv(p, Run(p, sched)) && TermInv(p, Run(p, sched))
  {
    if sched == [] {
    } else {
      hide NoticeInv, TermInv, Exec;
      LimitRun(p, sched[..|sched| - 1]);
      InvRun(p, sched[..|sched| - 1]);
      NoticeStep(p, Run(p, sched[..|sched| - 1]), sched[|sched| - 1]);
      TermStep(p, Run(p, sched[..|sched| - 1]), sched[|sched| - 1]);
    }
  }

  lemma ReachedLimit<T>(p: Problem<T>, s: State<T>)
    requires p.Valid() && Reached(p, s)
    ensures Shape(p, s) && NoticeInv(p, s) && TermInv(p, s)
  {
    hide NoticeInv, TermInv;
    var sched :| Schedule(p, sched) && Run(p, sched) == s;
    LimitRun(p, sched);
  }

  lemma ReachedInv<T>(p: Problem<T>, s: State<T>)
    requires p.Valid() && Reached(p, s)
    ensures Shape(p, s) && Inv(p, s)
  {
    hide Inv;
    var sched :| Schedule(p, sched) && Run(p, sched) == s;
    InvRun(p, sched);
  }

  lemma ReachedStop<T>(p: Problem<T>, s: State<T>, last: nat)
    requires p.Valid() && Reached(p, s) && StopsAt(p, last)
    ensures Shape(p, s) && StopInv(p, s, last)
  {
    hide StopInv;
    var sched :| Schedule(p, sched) && Run(p, sched) == s;
    StopRun(p, sched, last);
  }

  // ----- the two buffers -----

  /** Whenever every task stands at iteration k between two calls, the buffers are
      those of the serial solver after k sweeps. */
  lemma SameAsSerial<T>(p: Problem<T>, s: State<T>, k: nat)
    requires p.Valid() && Reached(p, s) && Shape(p, s)
    requires forall i | 0 <= i < p.n :: s.iter[i] == k && !InTask(s.pc[i])
    ensures BuffersAt(p, k, s.u1, s.u2)
  {
    ReachedInv(p, s);
    forall r: nat, c: nat | InGrid(p, r, c)
      ensures BothHold(p, k, s.u1, s.u2, r, c)
    {
      OwnerInRange(p, r);
      assert CellOk(p, s, r, c);
    }
  }

  /** Everything a finished run leaves behind: all tasks at the same iteration, the
      serial buffers, and the residual of the last iteration as the final one. */
  lemma FinishedRun<T>(p: Problem<T>, s: State<T>, last: nat)
    requires p.Valid() && Reached(p, s) && Shape(p, s) && StopsAt(p, last)
    requires forall i | 0 <= i < p.n :: s.pc[i].Done?
    ensures (forall i | 0 <= i < p.n :: s.iter[i] == last)
            && BuffersAt(p, last, s.u1, s.u2)
            && s.gridIter == Some(last - 1) && s.gridRes == Some(Norm(p, last - 1))
            && (s.term <==> exists k: nat :: k < p.limit && p.below(Norm(p, k)))
  {
    ReachedInv(p, s);
    ReachedStop(p, s, last);
    forall i | 0 <= i < p.n
      ensures s.iter[i] == s.maxIter
    {
      assert CounterOk(p, s, i);
    }
    AllReported(p, s, last);
    assert s.maxIter == last;
    SameAsSerial(p, s, last);
    LastReport(p, s, last);
  }

  /** The last reduction of a finished run is that of its last iteration. */
  lemma LastReport<T>(p: Problem<T>, s: State<T>, last: nat)
    requires p.Valid() && Inv(p, s) && last >= 1
    requires forall i | 0 <= i < p.n :: s.pc[i].Done? && s.iter[i] == last
    ensures s.gridIter == Some(last - 1) && s.gridRes == Some(Norm(p, last - 1))
  {
    assert Passed(s.iter, last - 1) && CoverOk(p, s, last - 1);
    var t: nat :| t < |s.log| && s.log[t].iter == last - 1;
    var e := s.log[|s.log| - 1];
    OrderLast(s.log, t, |s.log| - 1);
    assert EntryOk(p, s, |s.log| - 1);
    assert SetAt(s, 0, e.iter);
  }

  /** With every task done the limit is the final one: a residual below the
      tolerance has been noticed and acted on. */
  lemma AllReported<T>(p: Problem<T>, s: State<T>, last: nat)
    requires p.Valid() && Inv(p, s) && StopsAt(p, last) && StopInv(p, s, last)
    requires forall i | 0 <= i < p.n :: s.pc[i].Done? && s.iter[i] == s.maxIter
    ensures s.maxIter == last
    ensures s.term <==> exists k: nat :: k < p.limit && p.below(Norm(p, k))
  {
    forall k: nat | k < p.limit && p.below(Norm(p, k)) && Passed(s.iter, k)
      ensures s.term
    {
      assert CoverOk(p, s, k);
      var t: nat :| t < |s.log| && s.log[t].iter == k;
      assert EntryOk(p, s, t) && ReportedOk(p, s, t);
    }
    if last >= p.n && FirstBelow(p, last - p.n) {
      assert Passed(s.iter, last - p.n);
    }
    if s.term {
      assert p.below(Norm(p, last - p.n));
    }
  }

  /** Two runs that finish leave the same grid, the same counters and the same
      final residual, whatever their schedules. */
  lemma ScheduleIndependent<T>(p: Problem<T>, s: State<T>, s': State<T>, last: nat)
    requires p.Valid() && Reached(p, s) && Shape(p, s) && Reached(p, s') && Shape(p, s') && StopsAt(p, last)
    requires forall i | 0 <= i < p.n :: s.pc[i].Done? && s'.pc[i].Done?
    ensures s.u1 == s'.u1 && s.u2 == s'.u2 && s.iter == s'.iter && s.gridRes == s'.gridRes && s.gridIter == s'.gridIter
  {
    hide Reached, BuffersAt, StopsAt;
    FinishedRun(p, s, last);
    FinishedRun(p, s', last);
    BuffersUnique(p, last, s.u1, s.u2, s'.u1, s'.u2);
  }

  // ----- the protocol between neighbours -----

  /** What the two separate reads have established holds until the task posts. */
  lemma CheckStaysTrue<T>(p: Problem<T>, s: State<T>, i: nat)
    requires p.Valid() && Reached(p, s) && Shape(p, s) && i < p.n && InTask(s.pc[i])
    ensures PreCondsMet(UpDiff(s, i), DownDiff(s, i))
  {
    hide Reached, DataInv, RingInv, ReduceInv;
    ReachedInv(p, s);
    assert SeenOk(p, s, i);
    if i > 0 {
      assert AdjacentOk(p, s, i - 1);
    }
    if i + 1 < p.n {
      assert AdjacentOk(p, s, i);
    }
  }

  /** The sanity assert of the check (task.cpp:297) never fails, and counters drift
      apart by at most the distance of the tasks. */
  lemma SkewOfRun<T>(p: Problem<T>, s: State<T>, i: nat, j: nat)
    requires p.Valid() && Reached(p, s) && Shape(p, s) && i <= j < p.n
    ensures s.pc[i] != Failed(297)
    ensures var iter := s.iter; iter[i] <= iter[j] + (j - i) && iter[j] <= iter[i] + (j - i)
    ensures Live(s.iter, s.iter[i])
  {
    hide Reached, DataInv, RingInv, ReduceInv;
    ReachedInv(p, s);
    ChainSkew(p, s, i, j);
    CountersLive(p, s, i);
    assert SeenOk(p, s, i);
  }

  /** The buffer a task reads and the buffer it writes. */
  function ReadBuffer<T>(s: State<T>, i: nat): nat
    requires i < |s.iter|
  {
    s.iter[i] % 2
  }

  function WriteBuffer<T>(s: State<T>, i: nat): nat
    requires i < |s.iter|
  {
    (s.iter[i] + 1) % 2
  }

  /** No task writes a cell of the grid that another task in flight reads or writes. */
  lemma NoRace<T>(p: Problem<T>, s: State<T>, i: nat, j: nat, r: nat, c: nat, q: nat)
    requires p.Valid() && Reached(p, s) && Shape(p, s) && i < p.n && j < p.n && i != j && q < 5
    requires InTask(s.pc[i]) && InTask(s.pc[j])
    requires Lo(p, j) <= r < Hi(p, j) && 1 <= c < p.cols - 1
    requires Lo(p, i) <= NeighbourRow(r, q) < Hi(p, i)
    ensures q != 1 && q != 2 && q != 3 && s.iter[i] == s.iter[j]
    ensures WriteBuffer(s, i) != ReadBuffer(s, j)
  {
    hide Reached, DataInv, RingInv, ReduceInv;
    ReachedInv(p, s);
    BandOfTask(p, j, r);
    BandOfTask(p, i, NeighbourRow(r, q));
    OwnerOfNextRow(p, r - 1);
    OwnerOfNextRow(p, r);
    assert SeenOk(p, s, i) && SeenOk(p, s, j);
  }

  /** What a task in flight would read, for any of its cells, no step of another task
      changes. */
  lemma OperandsUndisturbed<T>(p: Problem<T>, s: State<T>, i: nat, j: nat, r: nat, c: nat, q: nat)
    requires p.Valid() && Reached(p, s) && Shape(p, s) && i < p.n && j < p.n && i != j && q < 5
    requires InTask(s.pc[i]) && Lo(p, i) <= r < Hi(p, i) && 1 <= c < p.cols - 1
    ensures Read(p, Exec(p, s, j), i, r, c, q) == Read(p, s, i, r, c, q)
  {
    hide Reached, Exec, DataInv, RingInv, ReduceInv, Read;
    ReachedInv(p, s);
    InvStep(p, s, j);
    StepKind(p, s, j);
    ReadsIterate(p, s, i, r, c, q);
    ReadsIterate(p, Exec(p, s, j), i, r, c, q);
  }

  /** A task of minimal iteration passes its check, however the other tasks move
      between its two reads. */
  lemma MinimalPasses<T>(p: Problem<T>, s: State<T>, i: nat)
    requires p.Valid() && Reached(p, s) && Shape(p, s) && i < p.n
    requires forall j | 0 <= j < p.n :: s.iter[i] <= s.iter[j]
    ensures PreCondsMet(UpDiff(s, i), DownDiff(s, i))
  {
    hide Reached, DataInv, RingInv, ReduceInv;
    ReachedInv(p, s);
    if i > 0 {
      assert AdjacentOk(p, s, i - 1);
    }
    if i + 1 < p.n {
      assert AdjacentOk(p, s, i);
    }
  }

  // ----- the residual ring -----

  /** A slot that an iteration takes over is clean until the first task marks it:
      its flags and its done bit are those of no earlier iteration. */
  lemma SlotIsClean<T>(p: Problem<T>, s: State<T>, k: nat)
    requires p.Valid() && Reached(p, s) && Shape(p, s) && Live(s.iter, k)
    requires forall j: nat | j < p.n :: !SetAt(s, j, k)
    ensures !s.done[Slot(p.n, k)] && forall j: nat | j < p.n :: !s.flags[j][Slot(p.n, k)]
  {
    ReachedInv(p, s);
    forall j: nat | j < p.n
      ensures !s.flags[j][Slot(p.n, k)]
    {
      assert FlagOk(p, s, j, k);
    }
    assert DoneOk(p, s, Slot(p.n, k));
    if b: nat :| b < p.n && HoldsSlot(p, s, b, Slot(p.n, k)) {
      CountersLive(p, s, b);
      LiveSlots(p.n, s.iter, k, s.iter[b]);
      assert ClaimOk(p, s, b) && SetAt(s, b, k);
    }
  }

  /** At most one task reduces at a time; it stands at an iteration to which every
      task has contributed, and what it has summed so far is exactly the local
      residuals of that iteration. */
  lemma ReducersOfRun<T>(p: Problem<T>, s: State<T>, b: nat, b': nat)
    requires p.Valid() && Reached(p, s) && Shape(p, s) && b < p.n && b' < p.n
    requires Reducing(s.pc[b])
    ensures AllSet(p, s, s.iter[b])
            && (s.pc[b].Reduce? ==> s.pc[b].acc == GlobalSum(p, s.iter[b], s.pc[b].j))
            && (s.pc[b].Root? ==> s.pc[b].acc == GlobalSum(p, s.iter[b], p.n))
            && (Reducing(s.pc[b']) ==> b == b')
            && s.iter[b'] >= s.iter[b]
  {
    ReachedInv(p, s);
    assert ClaimOk(p, s, b) && SetAt(s, b', s.iter[b]) && SumOk(p, s, b) && Apart(p, s, b, b');
    assert PcShape(p, b, s.pc[b]);
  }

  /** Every iteration that all tasks have left has been reduced; every reduction of
      an iteration gives its residual; reductions follow the order of iterations. */
  lemma ReductionsOfRun<T>(p: Problem<T>, s: State<T>)
    requires p.Valid() && Reached(p, s) && Shape(p, s)
    ensures (forall k: nat | Passed(s.iter, k) :: Logged(s.log, k))
            && (forall t: nat | t < |s.log| :: s.log[t].res == Norm(p, s.log[t].iter))
            && (forall t: nat, t': nat | t <= t' < |s.log| :: s.log[t].iter <= s.log[t'].iter)
  {
    hide Norm, Run;
    ReachedInv(p, s);
    forall k: nat | Passed(s.iter, k)
      ensures Logged(s.log, k)
    {
      assert CoverOk(p, s, k);
    }
    forall t: nat | t < |s.log|
      ensures s.log[t].res == Norm(p, s.log[t].iter)
    {
      assert EntryOk(p, s, t);
    }
    forall t: nat, t': nat | t <= t' < |s.log|
      ensures s.log[t].iter <= s.log[t'].iter
    {
      OrderLast(s.log, t, t');
    }
  }

  ghost predicate Published<T>(s: State<T>) {
    s.gridIter.Some? ==> Logged(s.log, s.gridIter.value)
  }

  lemma PublishedStep<T>(p: Problem<T>, s: State<T>, i: nat)
    requires p.Valid() && Inv(p, s) && i < p.n && Published(s)
    ensures Published(Exec(p, s, i))
    ensures s.gridIter.Some? ==>
              Exec(p, s, i).gridIter.Some? && s.gridIter.value <= Exec(p, s, i).gridIter.value
  {
    var s' := Exec(p, s, i);
    Frame(p, s, i);
    assert SumOk(p, s, i);
    if Reducing(s.pc[i]) {
      assert s' == StepReduce(p, s, i);
      LogGrows(s.log, s'.log);
    }
    if s.pc[i].PubIter? {
      assert s.log[|s.log| - 1].iter == s.iter[i];
      if s.gridIter.Some? {
        var t: nat :| t < |s.log| && s.log[t].iter == s.gridIter.value;
        OrderLast(s.log, t, |s.log| - 1);
      }
    }
  }

  lemma {:induction false} PublishedRun<T>(p: Problem<T>, sched: seq<nat>)
    requires p.Valid() && Schedule(p, sched)
    ensures Published(Run(p, sched))
  {
    if sched != [] {
      PublishedRun(p, sched[..|sched| - 1]);
      InvRun(p, sched[..|sched| - 1]);
      PublishedStep(p, Run(p, sched[..|sched| - 1]), sched[|sched| - 1]);
    }
  }

  lemma PublishedReached<T>(p: Problem<T>, s: State<T>)
    requires p.Valid() && Reached(p, s)
    ensures Published(s)
  {
    var sched :| Schedule(p, sched) && Run(p, sched) == s;
    PublishedRun(p, sched);
  }

  /** The iteration stored in the grid never decreases, not even when an iteration
      is reduced twice. */
  lemma PublishedNeverFalls<T>(p: Problem<T>, s: State<T>, i: nat)
    requires p.Valid() && Reached(p, s) && Shape(p, s) && i < p.n && s.gridIter.Some?
    ensures var s' := Exec(p, s, i);
            s'.gridIter.Some? && s.gridIter.value <= s'.gridIter.value
  {
    ReachedInv(p, s);
    PublishedReached(p, s);
    PublishedStep(p, s, i);
  }

  // ----- the limit -----

  /** While the limit is being lowered no counter has reached the new limit and no
      task has left the pool, so every task can still finish exactly there. */
  lemma LoweringIsSafe<T>(p: Problem<T>, s: State<T>, last: nat, i: nat)
    requires p.Valid() && Reached(p, s) && Shape(p, s) && StopsAt(p, last) && i < p.n
    requires Changing(s.pc[i])
    ensures s.iter[i] + p.n == last && FirstBelow(p, s.iter[i])
            && (forall b | 0 <= b < p.n :: s.iter[b] < last && !s.pc[b].Done?)
            && (forall b: nat | b < p.n && Changing(s.pc[b]) :: b == i)
  {
    hide FirstBelow, Run, StopsAt;
    ReachedInv(p, s);
    ReachedStop(p, s, last);
    AllBelow(p, s, i, last);
  }
}
