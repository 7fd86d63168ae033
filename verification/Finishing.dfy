/** No run is ever trapped: every schedule can be continued to one that finishes. */
module Finishing {
  import opened Jacobi
  import opened Residual
  import opened Machine
  import opened Skew
  import opened Refinement
  import opened Ring
  import opened Reduction
  import opened Stopping
  import opened Runs
  import opened Solo

  /** Iterations still to do by the first j tasks. */
  function Remaining(iter: seq<nat>, limit: nat, j: nat): nat
    requires j <= |iter|
  {
    if j == 0 then 0 else Remaining(iter, limit, j - 1) + if iter[j - 1] < limit then limit - iter[j - 1] else 0
  }

  lemma {:induction false} RemainingFalls(iter: seq<nat>, limit: nat, limit': nat, i: nat, j: nat)
    requires j <= |iter| && i < |iter| && limit' <= limit && iter[i] < limit
    ensures Remaining(iter[i := iter[i] + 1], limit', j) + (if i < j then 1 else 0) <= Remaining(iter, limit, j)
  {
    if j > 0 {
      RemainingFalls(iter, limit, limit', i, j - 1);
    }
  }

  lemma {:induction false} RemainingAtFirst(iter: seq<nat>, limit: nat, j: nat)
    requires j <= |iter| && forall i | 0 <= i < |iter| :: iter[i] == 0
    ensures Remaining(iter, limit, j) == Times(j, limit)
  {
    if j > 0 {
      RemainingAtFirst(iter, limit, j - 1);
    }
  }

  function Least(iter: seq<nat>, j: nat): (m: nat)
    requires 0 < j <= |iter|
    ensures forall i | 0 <= i < j :: m <= iter[i]
    ensures exists i :: 0 <= i < j && iter[i] == m
  {
    if j == 1 then assert iter[0] == iter[0]; iter[0]
    else
      var m := Least(iter, j - 1);
      if iter[j - 1] < m then iter[j - 1] else m
  }

  /** How many of the first j tasks are not done. */
  function Busy<T>(pc: seq<Pc<T>>, j: nat): nat
    requires j <= |pc|
  {
    if j == 0 then 0 else Busy(pc, j - 1) + if pc[j - 1].Done? then 0 else 1
  }

  lemma {:induction false} BusyFalls<T>(pc: seq<Pc<T>>, i: nat, j: nat)
    requires j <= |pc| && i < |pc| && !pc[i].Done?
    ensures Busy(pc[i := Done], j) + (if i < j then 1 else 0) == Busy(pc, j)
  {
    if j > 0 {
      BusyFalls(pc, i, j - 1);
    }
  }

  /** Schedules all of which extend the first. */
  ghost predicate Extends<T>(p: Problem<T>, sched: seq<nat>, all: seq<nat>) {
    sched <= all && Schedule(p, all)
  }

  /** The lexicographic measure: iterations left below the limit, then tasks not done. */
  ghost predicate Closer<T>(p: Problem<T>, s: State<T>, s': State<T>)
    requires |s.iter| == |s.pc| == |s'.iter| == |s'.pc| == p.n
  {
    var r, r' := Remaining(s.iter, p.limit, p.n), Remaining(s'.iter, p.limit, p.n);
    r' < r || (r' == r && Busy(s'.pc, p.n) < Busy(s.pc, p.n))
  }

  /** The state after one more step of task i, from the invariants' point of view. */
  lemma OneStep<T>(p: Problem<T>, sched: seq<nat>, i: nat, last: nat) returns (s: State<T>, s': State<T>)
    requires p.Valid() && Schedule(p, sched) && i < p.n && StopsAt(p, last)
    ensures Extends(p, sched, sched + [i])
    ensures s == Run(p, sched) && s' == Run(p, sched + [i]) && s' == Exec(p, s, i)
    ensures Inv(p, s) && Inv(p, s') && StopInv(p, s, last) && StopInv(p, s', last)
  {
    hide Run, Exec, Inv, StopInv, StopsAt;
    RunOneMore(p, sched, i);
    s, s' := Run(p, sched), Run(p, sched + [i]);
    InvRun(p, sched);
    InvRun(p, sched + [i]);
    StopRun(p, sched, last);
    StopRun(p, sched + [i], last);
  }

  /** A task that has counted up to the limit leaves. */
  lemma Leave<T>(p: Problem<T>, sched: seq<nat>, i: nat, last: nat) returns (all: seq<nat>)
    requires p.Valid() && Schedule(p, sched) && i < p.n && StopsAt(p, last)
    requires !Run(p, sched).pc[i].Done? && Run(p, sched).iter[i] >= Run(p, sched).maxIter
    ensures Extends(p, sched, all) && Closer(p, Run(p, sched), Run(p, all))
  {
    hide Run, Exec, Inv, StopsAt;
    all := sched + [i];
    var s, s' := OneStep(p, sched, i, last);
    assert CounterOk(p, s, i);
    Frame(p, s, i);
    assert s'.pc == s.pc[i := Done];
    BusyFalls(s.pc, i, p.n);
  }

  /** Whoever is in the critical section leaves it, in at most two steps. */
  lemma FreeMutex<T>(p: Problem<T>, sched: seq<nat>, last: nat) returns (all: seq<nat>)
    requires p.Valid() && Schedule(p, sched) && StopsAt(p, last)
    ensures Extends(p, sched, all) && Run(p, all).mutex.None? && Run(p, all).iter == Run(p, sched).iter
    ensures Run(p, all).maxIter == Run(p, sched).maxIter
  {
    hide Run, StopsAt, StopInv, DataInv, ReduceInv, Exec;
    all := sched;
    var s := Run(p, sched);
    InvRun(p, sched);
    if s.mutex.Some? {
      var b := s.mutex.value;
      assert ClaimOk(p, s, b);
      var s0, s1 := OneStep(p, all, b, last);
      all := all + [b];
      ClaimMoves(p, s, b);
      if s.pc[b].TestDone? && !s.done[Slot(p.n, s.iter[b])] {
        var s2, s3 := OneStep(p, all, b, last);
        all := all + [b];
        ClaimMoves(p, s1, b);
      }
    }
  }

  lemma ClaimMoves<T>(p: Problem<T>, s: State<T>, b: nat)
    requires p.Valid() && Shape(p, s) && b < p.n && (s.pc[b].TestDone? || s.pc[b].SetDone?)
    ensures var s' := Exec(p, s, b);
            && s'.iter == s.iter && s'.maxIter == s.maxIter
            && (s'.pc[b].SetDone? || s'.pc[b].TestTol? || s'.pc[b].Reduce?)
            && (if s.pc[b].TestDone? && !s.done[Slot(p.n, s.iter[b])] then s'.pc[b].SetDone? else s'.mutex.None?)
  {
    assert Exec(p, s, b) == StepClaim(p, s, b);
  }

  /** How far a task is from passing its check, if nothing else moves. */
  function Rank<T>(pc: Pc<T>): nat {
    match pc
    case ReadDown(d1) => if d1 == 0 || d1 == -1 then 1 else 5
    case Finish => 4
    case Idle => 3
    case ReadUp => 2
    case _ => 0
  }

  ghost predicate Minimal<T>(s: State<T>, i: nat)
    requires i < |s.iter|
  {
    forall j | 0 <= j < |s.iter| :: s.iter[i] <= s.iter[j]
  }

  lemma CheckMoves<T>(p: Problem<T>, s: State<T>, i: nat)
    requires p.Valid() && SkewInv(p, s) && i < p.n && Minimal(s, i) && s.iter[i] < s.maxIter
    requires !InTask(s.pc[i]) && !s.pc[i].Done? && !s.pc[i].Failed?
    ensures var s' := Exec(p, s, i);
            && s'.iter == s.iter && s'.maxIter == s.maxIter && s'.mutex == s.mutex
            && (InTask(s'.pc[i]) || (Rank(s'.pc[i]) < Rank(s.pc[i]) && !s'.pc[i].Done? && !s'.pc[i].Failed?))
  {
    assert SeenOk(p, s, i);
    assert Exec(p, s, i) == StepCheck(p, s, i);
    if i > 0 {
      assert AdjacentOk(p, s, i - 1);
    }
    if i + 1 < p.n {
      assert AdjacentOk(p, s, i);
    }
  }

  /** A task of minimal iteration comes to its work, starting from anywhere. */
  lemma {:induction false} StartWork<T>(p: Problem<T>, sched: seq<nat>, i: nat, last: nat) returns (all: seq<nat>)
    requires p.Valid() && Schedule(p, sched) && i < p.n && StopsAt(p, last)
    requires var s := Run(p, sched);
             Minimal(s, i) && s.iter[i] < s.maxIter && s.mutex.None? && !s.pc[i].Done? && !s.pc[i].Failed?
    ensures Extends(p, sched, all)
    ensures var s, s' := Run(p, sched), Run(p, all);
            s'.iter == s.iter && s'.maxIter == s.maxIter && s'.mutex.None? && InTask(s'.pc[i])
    decreases Rank(Run(p, sched).pc[i])
  {
    hide Run, Exec, StopsAt, StopInv, DataInv, RingInv, ReduceInv;
    if InTask(Run(p, sched).pc[i]) {
      all := sched;
    } else {
      var s, s' := OneStep(p, sched, i, last);
      CheckMoves(p, s, i);
      if InTask(s'.pc[i]) {
        all := sched + [i];
      } else {
        all := StartWork(p, sched + [i], i, last);
      }
    }
  }

  /** And from there to the end of its iteration. */
  lemma FinishWork<T>(p: Problem<T>, sched: seq<nat>, i: nat, last: nat) returns (all: seq<nat>)
    requires p.Valid() && Schedule(p, sched) && i < p.n && StopsAt(p, last)
    requires InTask(Run(p, sched).pc[i]) && Run(p, sched).mutex.None? && Run(p, sched).iter[i] < p.limit
    ensures Extends(p, sched, all)
    ensures Remaining(Run(p, all).iter, p.limit, p.n) < Remaining(Run(p, sched).iter, p.limit, p.n)
  {
    hide Run, Exec, StopsAt, Inv, Alone;
    var s := Run(p, sched);
    InvRun(p, sched);
    var m := AloneEnds(p, s, i);
    all := AloneRun(p, sched, i, m);
    var s' := Run(p, all);
    AloneKeeps(p, s, i, m);
    AloneCounts(p, s, i, m);
    StopRun(p, all, last);
    assert CounterOk(p, s', i);
    assert s'.iter == s.iter[i := s.iter[i] + 1];
    RemainingFalls(s.iter, p.limit, p.limit, i, p.n);
  }

  /** From every state that is not finished, a continuation gets closer to the end. */
  lemma Advance<T>(p: Problem<T>, sched: seq<nat>, last: nat) returns (all: seq<nat>)
    requires p.Valid() && Schedule(p, sched) && StopsAt(p, last)
    requires exists i :: 0 <= i < p.n && !Run(p, sched).pc[i].Done?
    ensures Extends(p, sched, all) && Closer(p, Run(p, sched), Run(p, all))
  {
    hide Run, Exec, Inv;
    var s := Run(p, sched);
    StopRun(p, sched, last);
    if i: nat :| i < p.n && !s.pc[i].Done? && s.iter[i] >= s.maxIter {
      all := Leave(p, sched, i, last);
    } else {
      var i :| 0 <= i < p.n && s.iter[i] == Least(s.iter, p.n);
      assert CounterOk(p, s, i);
      var j :| 0 <= j < p.n && !s.pc[j].Done?;
      assert Least(s.iter, p.n) <= s.iter[j];
      assert forall a | 0 <= a < |s.iter| :: Least(s.iter, p.n) <= s.iter[a];
      all := FreeMutex(p, sched, last);
      StopRun(p, all, last);
      assert CounterOk(p, Run(p, all), i);
      var next := StartWork(p, all, i, last);
      all := FinishWork(p, next, i, last);
    }
  }

  /** Every schedule can be continued to one in which all tasks are done: no order of
      steps can bring the tasks into a state they cannot get out of. */
  lemma {:induction false} CanFinish<T>(p: Problem<T>, sched: seq<nat>, last: nat) returns (all: seq<nat>)
    requires p.Valid() && Schedule(p, sched) && StopsAt(p, last)
    ensures Extends(p, sched, all) && forall i | 0 <= i < p.n :: Run(p, all).pc[i].Done?
    decreases Remaining(Run(p, sched).iter, p.limit, p.n), Busy(Run(p, sched).pc, p.n)
  {
    hide Run, StopsAt;
    if i: nat :| i < p.n && !Run(p, sched).pc[i].Done? {
      var next := Advance(p, sched, last);
      all := CanFinish(p, next, last);
    } else {
      all := sched;
    }
  }
}
