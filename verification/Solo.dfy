/** Stretches of a run in which one task moves alone. They are used to show what
    some schedule does, where the other results say what every schedule does. */
module Solo {
  import opened Jacobi
  import opened Residual
  import opened Machine
  import opened Skew
  import opened Refinement
  import opened Ring
  import opened Reduction
  import opened Runs

  /** The state after task i has taken m steps. */
  function Alone<T>(p: Problem<T>, s: State<T>, i: nat, m: nat): (s': State<T>)
    requires p.Valid() && Shape(p, s) && i < p.n
    ensures Shape(p, s')
    decreases m
  {
    if m == 0 then s else Alone(p, Exec(p, s, i), i, m - 1)
  }

  lemma RunOneMore<T>(p: Problem<T>, sched: seq<nat>, i: nat)
    requires p.Valid() && Schedule(p, sched) && i < p.n
    ensures Schedule(p, sched + [i]) && Run(p, sched + [i]) == Exec(p, Run(p, sched), i)
  {
    assert (sched + [i])[..|sched|] == sched;
  }

  lemma {:induction false} AloneRun<T>(p: Problem<T>, sched: seq<nat>, i: nat, m: nat) returns (all: seq<nat>)
    requires p.Valid() && Schedule(p, sched) && i < p.n
    ensures sched <= all && Schedule(p, all) && Run(p, all) == Alone(p, Run(p, sched), i, m)
    decreases m
  {
    hide Run, Exec, Shape;
    if m == 0 {
      all := sched;
    } else {
      RunOneMore(p, sched, i);
      all := AloneRun(p, sched + [i], i, m - 1);
    }
  }

  /** Nobody but task i is inside the code that mu_task guards. */
  ghost predicate MutexFor<T>(s: State<T>, i: nat) {
    s.mutex in {None, Some(i)}
  }

  lemma StepKeeps<T>(p: Problem<T>, s: State<T>, i: nat)
    requires p.Valid() && Inv(p, s) && i < p.n && MutexFor(s, i)
    ensures Inv(p, Exec(p, s, i)) && MutexFor(Exec(p, s, i), i)
    ensures forall j: nat | j < p.n && j != i ::
              Exec(p, s, i).pc[j] == s.pc[j] && Exec(p, s, i).iter[j] == s.iter[j]
  {
    var s' := Exec(p, s, i);
    InvStep(p, s, i);
    StepKind(p, s, i);
    if s'.mutex.Some? {
      var b := s'.mutex.value;
      assert ClaimOk(p, s', b) && ClaimOk(p, s, b);
    }
  }

  lemma {:induction false} AloneKeeps<T>(p: Problem<T>, s: State<T>, i: nat, m: nat)
    requires p.Valid() && Shape(p, s) && Inv(p, s) && i < p.n && MutexFor(s, i)
    ensures Inv(p, Alone(p, s, i, m)) && MutexFor(Alone(p, s, i, m), i)
    ensures forall j: nat | j < p.n && j != i ::
              Alone(p, s, i, m).pc[j] == s.pc[j] && Alone(p, s, i, m).iter[j] == s.iter[j]
    decreases m
  {
    hide Exec, Inv;
    if m > 0 {
      StepKeeps(p, s, i);
      AloneKeeps(p, Exec(p, s, i), i, m - 1);
    }
  }

  // ----- a call that is not disturbed comes to its end -----

  function Phase<T>(pc: Pc<T>): nat {
    match pc
    case Idle => 22
    case ReadUp => 21
    case ReadDown(_) => 20
    case Sum(_, _, _, _) => 19
    case PutRes(_) => 18
    case PutFlag => 17
    case Scan(_, _) => 16
    case Lock => 15
    case TestDone => 14
    case SetDone => 13
    case Reduce(_, _) => 12
    case Clear(_, _) => 12
    case Root(_) => 11
    case Print => 10
    case PubRes => 9
    case PubIter => 8
    case Unmark => 7
    case TestTol => 6
    case MaxScan(_, _) => 5
    case MaxTake(_, _) => 5
    case SetMax => 4
    case Update(_, _, _) => 3
    case Post => 2
    case Finish => 1
    case Done => 0
    case Failed(_) => 0
  }

  function Outer<T>(p: Problem<T>, i: nat, pc: Pc<T>): int {
    match pc
    case Sum(r, _, _, _) => Hi(p, i) - r
    case Update(r, _, _) => Hi(p, i) - r
    case Scan(j, _) => p.n - j
    case MaxScan(j, _) => 2 * (p.n - j) + 1
    case MaxTake(j, _) => 2 * (p.n - j)
    case Reduce(j, _) => 2 * (p.n - j) + 1
    case Clear(j, _) => 2 * (p.n - j)
    case _ => 0
  }

  function Inner<T>(p: Problem<T>, pc: Pc<T>): int {
    match pc
    case Sum(_, c, _, _) => p.cols - c
    case Update(_, c, _) => p.cols - c
    case _ => 0
  }

  function Regs<T>(pc: Pc<T>): int {
    match pc
    case Sum(_, _, regs, _) => 5 - |regs|
    case Update(_, _, regs) => 5 - |regs|
    case _ => 0
  }

  /** Progress of one step in the lexicographic order of the four measures. */
  ghost predicate Nearer<T>(p: Problem<T>, i: nat, pc: Pc<T>, pc': Pc<T>) {
    || Phase(pc') < Phase(pc)
    || (Phase(pc') == Phase(pc) && 0 <= Outer(p, i, pc') < Outer(p, i, pc))
    || (Phase(pc') == Phase(pc) && 0 <= Outer(p, i, pc') == Outer(p, i, pc) && 0 <= Inner(p, pc') < Inner(p, pc))
    || (Phase(pc') == Phase(pc) && 0 <= Outer(p, i, pc') == Outer(p, i, pc) && Inner(p, pc') == Inner(p, pc)
        && 0 <= Regs(pc') < Regs(pc))
  }

  lemma NearerSolve<T>(p: Problem<T>, s: State<T>, i: nat)
    requires p.Valid() && Shape(p, s) && i < p.n && (s.pc[i].Sum? || s.pc[i].Update?)
    ensures Nearer(p, i, s.pc[i], Exec(p, s, i).pc[i])
  {
    assert PcShape(p, i, s.pc[i]) && PcShape(p, i, Exec(p, s, i).pc[i]);
  }

  lemma NearerMark<T>(p: Problem<T>, s: State<T>, i: nat)
    requires p.Valid() && Shape(p, s) && i < p.n
    requires || s.pc[i].PutRes? || s.pc[i].PutFlag? || s.pc[i].Scan?
             || s.pc[i].Lock? || s.pc[i].TestDone? || s.pc[i].SetDone?
    requires s.pc[i].Lock? ==> s.mutex.None?
    ensures Nearer(p, i, s.pc[i], Exec(p, s, i).pc[i])
  {
    assert PcShape(p, i, s.pc[i]);
  }

  lemma NearerReduce<T>(p: Problem<T>, s: State<T>, i: nat)
    requires p.Valid() && Shape(p, s) && i < p.n && Reducing(s.pc[i])
    ensures Nearer(p, i, s.pc[i], Exec(p, s, i).pc[i])
  {
    assert PcShape(p, i, s.pc[i]);
  }

  lemma NearerStop<T>(p: Problem<T>, s: State<T>, i: nat)
    requires p.Valid() && Shape(p, s) && i < p.n && s.mutex.None?
    requires s.pc[i].TestTol? || Changing(s.pc[i]) || s.pc[i].Post?
    ensures Nearer(p, i, s.pc[i], Exec(p, s, i).pc[i])
  {
    hide Exec, Shape;
    Sizes(p, s);
    PlaceShape(p, s, i);
    if s.pc[i].Post? {
      ExecCheck(p, s, i);
    } else {
      ExecStop(p, s, i);
    }
  }

  lemma NearerOther<T>(p: Problem<T>, s: State<T>, i: nat)
    requires p.Valid() && Shape(p, s) && i < p.n && !s.pc[i].Sum? && !s.pc[i].Update?
    requires InTask(s.pc[i]) && (s.mutex.None? || s.pc[i].TestDone? || s.pc[i].SetDone?)
    ensures Nearer(p, i, s.pc[i], Exec(p, s, i).pc[i])
  {
    if Reducing(s.pc[i]) {
      NearerReduce(p, s, i);
    } else if s.pc[i].TestTol? || Changing(s.pc[i]) || s.pc[i].Post? {
      NearerStop(p, s, i);
    } else {
      NearerMark(p, s, i);
    }
  }

  lemma OneNearer<T>(p: Problem<T>, s: State<T>, i: nat) returns (s1: State<T>)
    requires p.Valid() && Inv(p, s) && i < p.n && MutexFor(s, i) && InTask(s.pc[i])
    ensures s1 == Exec(p, s, i)
    ensures Inv(p, s1) && MutexFor(s1, i) && Nearer(p, i, s.pc[i], s1.pc[i])
    ensures InTask(s1.pc[i]) || s1.pc[i].Finish? || s1.pc[i].Failed?
  {
    s1 := Exec(p, s, i);
    assert ClaimOk(p, s, i);
    if s.pc[i].Sum? || s.pc[i].Update? {
      NearerSolve(p, s, i);
    } else {
      NearerOther(p, s, i);
    }
    StepKeeps(p, s, i);
    CountsOnce(p, s, i);
  }

  /** Task i reaches the end of its call in m steps, and not before. */
  ghost predicate EndsAfter<T>(p: Problem<T>, s: State<T>, i: nat, m: nat)
    requires p.Valid() && Shape(p, s) && i < p.n
    decreases m
  {
    if m == 0 then s.pc[i].Finish? || s.pc[i].Failed?
    else InTask(s.pc[i]) && EndsAfter(p, Exec(p, s, i), i, m - 1)
  }

  lemma EndsOneMore<T>(p: Problem<T>, s: State<T>, i: nat, m: nat)
    requires p.Valid() && Shape(p, s) && i < p.n && InTask(s.pc[i]) && EndsAfter(p, Exec(p, s, i), i, m)
    ensures EndsAfter(p, s, i, m + 1)
  {
  }

  lemma {:induction false} AloneEnds<T>(p: Problem<T>, s: State<T>, i: nat) returns (m: nat)
    requires p.Valid() && Inv(p, s) && i < p.n && MutexFor(s, i)
    requires InTask(s.pc[i]) || s.pc[i].Finish? || s.pc[i].Failed?
    ensures EndsAfter(p, s, i, m)
    decreases Phase(s.pc[i]), Outer(p, i, s.pc[i]), Inner(p, s.pc[i]), Regs(s.pc[i])
  {
    hide DataInv, RingInv, ReduceInv, Exec;
    if !InTask(s.pc[i]) {
      m := 0;
    } else {
      var s1 := OneNearer(p, s, i);
      var m1 := AloneEnds(p, s1, i);
      EndsOneMore(p, s, i, m1);
      m := m1 + 1;
    }
  }

  lemma CountsOnce<T>(p: Problem<T>, s: State<T>, i: nat)
    requires p.Valid() && Shape(p, s) && i < p.n && InTask(s.pc[i])
    ensures var s' := Exec(p, s, i);
            || (InTask(s'.pc[i]) && s'.iter[i] == s.iter[i])
            || (s'.pc[i].Failed? && s'.iter[i] == s.iter[i])
            || (s'.pc[i].Finish? && s'.iter[i] == s.iter[i] + 1)
  {
    StepKind(p, s, i);
    Frame(p, s, i);
  }

  /** Between its check and its end a call increments the counter exactly once. */
  lemma {:induction false} AloneCounts<T>(p: Problem<T>, s: State<T>, i: nat, m: nat)
    requires p.Valid() && Shape(p, s) && i < p.n && InTask(s.pc[i]) && EndsAfter(p, s, i, m)
    ensures var s' := Alone(p, s, i, m);
            || (s'.pc[i].Failed? && s'.iter[i] == s.iter[i])
            || (s'.pc[i].Finish? && s'.iter[i] == s.iter[i] + 1)
    decreases m
  {
    CountsOnce(p, s, i);
    if InTask(Exec(p, s, i).pc[i]) {
      AloneCounts(p, Exec(p, s, i), i, m - 1);
    }
  }
}
