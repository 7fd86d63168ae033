/** Statements of a call as stretches of machine steps: from one state that a run
    reaches to the next, with the whole new state spelled out. */
module Calls {
  import opened Jacobi
  import opened Residual
  import opened Machine
  import opened Skew
  import opened Refinement
  import opened Ring
  import opened Reduction
  import opened Stopping
  import opened Runs
  import opened Solo

  lemma ReachedStart<T>(p: Problem<T>)
    requires p.Valid()
    ensures Reached(p, Init(p))
  {
    assert Schedule(p, []) && Run(p, []) == Init(p);
  }

  lemma ReachedStep<T>(p: Problem<T>, s: State<T>, i: nat)
    requires p.Valid() && Reached(p, s) && Shape(p, s) && i < p.n
    ensures Reached(p, Exec(p, s, i))
  {
    var sched :| Schedule(p, sched) && Run(p, sched) == s;
    RunOneMore(p, sched, i);
  }

  lemma ReachedShape<T>(p: Problem<T>, s: State<T>, i: nat)
    requires p.Valid() && Reached(p, s) && i < p.n
    ensures Shape(p, s) && PcShape(p, i, s.pc[i])
  {
    hide Inv, PcShape;
    ReachedInv(p, s);
  }

  lemma CheckStep<T>(p: Problem<T>, s: State<T>, s': State<T>, i: nat)
    requires p.Valid() && Shape(p, s) && i < p.n && Reached(p, s)
    requires s.pc[i].Idle? || s.pc[i].ReadUp? || s.pc[i].ReadDown? || s.pc[i].Post? || s.pc[i].Finish?
    requires s' == StepCheck(p, s, i)
    ensures Shape(p, s') && Reached(p, s')
  {
    hide StepCheck;
    assert Exec(p, s, i) == s';
    ReachedStep(p, s, i);
  }

  lemma MarkStep<T>(p: Problem<T>, s: State<T>, s': State<T>, i: nat)
    requires p.Valid() && Shape(p, s) && i < p.n && Reached(p, s)
    requires s.pc[i].PutRes? || s.pc[i].PutFlag? || s.pc[i].Scan?
    requires s' == StepMark(p, s, i)
    ensures Shape(p, s') && Reached(p, s')
  {
    hide StepMark;
    assert Exec(p, s, i) == s';
    ReachedStep(p, s, i);
  }

  lemma ClaimStep<T>(p: Problem<T>, s: State<T>, s': State<T>, i: nat)
    requires p.Valid() && Shape(p, s) && i < p.n && Reached(p, s)
    requires s.pc[i].Lock? || s.pc[i].TestDone? || s.pc[i].SetDone?
    requires s' == StepClaim(p, s, i)
    ensures Shape(p, s') && Reached(p, s')
  {
    hide StepClaim;
    assert Exec(p, s, i) == s';
    ReachedStep(p, s, i);
  }

  lemma ReportStep<T>(p: Problem<T>, s: State<T>, s': State<T>, i: nat)
    requires p.Valid() && Shape(p, s) && i < p.n && Reached(p, s) && Reducing(s.pc[i])
    requires s' == StepReduce(p, s, i)
    ensures Shape(p, s') && Reached(p, s')
  {
    hide StepReduce;
    assert Exec(p, s, i) == s';
    ReachedStep(p, s, i);
  }

  lemma StopStepReached<T>(p: Problem<T>, s: State<T>, s': State<T>, i: nat)
    requires p.Valid() && Shape(p, s) && i < p.n && Reached(p, s)
    requires s.pc[i].TestTol? || Changing(s.pc[i])
    requires s' == StepStop(p, s, i)
    ensures Shape(p, s') && Reached(p, s')
  {
    hide StepStop;
    assert Exec(p, s, i) == s';
    ReachedStep(p, s, i);
  }

  /** State s with task i at pc. */
  function At<T>(s: State<T>, i: nat, pc: Pc<T>): (s': State<T>)
    requires i < |s.pc|
    ensures |s'.pc| == |s.pc|
  {
    s.(pc := s.pc[i := pc])
  }

  lemma AtAt<T>(s: State<T>, i: nat, pc: Pc<T>, pc': Pc<T>)
    requires i < |s.pc|
    ensures At(At(s, i, pc), i, pc') == At(s, i, pc')
  {
    assert s.pc[i := pc][i := pc'] == s.pc[i := pc'];
  }

  lemma AtSame<T>(s: State<T>, i: nat)
    requires i < |s.pc|
    ensures At(s, i, s.pc[i]) == s
  {
    assert s.pc[i := s.pc[i]] == s.pc;
  }

  // ----- isPreCondsMet -----

  lemma CheckReached<T>(p: Problem<T>, s: State<T>, i: nat)
    requires p.Valid() && Shape(p, s) && i < p.n && Reached(p, At(s, i, Idle))
    ensures Abs(UpDiff(s, i)) <= 1 && Abs(DownDiff(s, i)) <= 1
    ensures var met := PreCondsMet(UpDiff(s, i), DownDiff(s, i));
            Reached(p, At(s, i, if met then Sum(Lo(p, i), 1, [], p.zero) else Finish))
  {
    hide Reached;
    var d1, d2 := UpDiff(s, i), DownDiff(s, i);
    var a, b, c := At(s, i, Idle), At(s, i, ReadUp), At(s, i, ReadDown(d1));
    Adjacent(p, a, i);
    AtAt(s, i, Idle, ReadUp);
    CheckStep(p, a, b, i);
    AtAt(s, i, ReadUp, ReadDown(d1));
    CheckStep(p, b, c, i);
    var pc := if PreCondsMet(d1, d2) then Sum(Lo(p, i), 1, [], p.zero) else Finish;
    BandOfTask(p, i, 0);
    AtAt(s, i, ReadDown(d1), pc);
    CheckStep(p, c, At(s, i, pc), i);
  }

  lemma Adjacent<T>(p: Problem<T>, s: State<T>, i: nat)
    requires p.Valid() && Reached(p, s) && i < p.n
    ensures Shape(p, s) && Abs(UpDiff(s, i)) <= 1 && Abs(DownDiff(s, i)) <= 1
  {
    hide Reached, DataInv, RingInv, ReduceInv, PcShape;
    ReachedInv(p, s);
    if i > 0 {
      assert AdjacentOk(p, s, i - 1);
    }
    if i + 1 < p.n {
      assert AdjacentOk(p, s, i);
    }
  }

  // ----- getLocResidual -----

  lemma SumRead<T>(p: Problem<T>, s: State<T>, i: nat, r: nat, c: nat, regs: seq<T>, acc: T)
    requires p.Valid() && Shape(p, s) && i < p.n && Reached(p, At(s, i, Sum(r, c, regs, acc)))
    requires InLoop(p, i, r) && |regs| < 5
    ensures Lo(p, i) <= r < Hi(p, i) && 1 <= c < p.cols - 1
    ensures Reached(p, At(s, i, Sum(r, c, regs + [Read(p, s, i, r, c, |regs|)], acc)))
  {
    var a := At(s, i, Sum(r, c, regs, acc));
    ReachedInv(p, a);
    assert PcShape(p, i, a.pc[i]);
    assert Exec(p, a, i) == StepSum(p, a, i);
    ReachedStep(p, a, i);
    AtAt(s, i, Sum(r, c, regs, acc), Sum(r, c, regs + [Read(p, s, i, r, c, |regs|)], acc));
  }

  lemma SumAll<T>(p: Problem<T>, s: State<T>, i: nat, r: nat, c: nat, acc: T) returns (regs: seq<T>)
    requires p.Valid() && Shape(p, s) && i < p.n && Reached(p, At(s, i, Sum(r, c, [], acc)))
    requires InLoop(p, i, r)
    ensures Lo(p, i) <= r < Hi(p, i) && 1 <= c < p.cols - 1
    ensures regs == [Read(p, s, i, r, c, 0), Read(p, s, i, r, c, 1), Read(p, s, i, r, c, 2), Read(p, s, i, r, c, 3),
                     Read(p, s, i, r, c, 4)]
    ensures Reached(p, At(s, i, Sum(r, c, regs, acc)))
  {
    hide Reached, Shape;
    regs := [];
    SumRead(p, s, i, r, c, regs, acc);
    regs := regs + [Read(p, s, i, r, c, 0)];
    SumRead(p, s, i, r, c, regs, acc);
    regs := regs + [Read(p, s, i, r, c, 1)];
    SumRead(p, s, i, r, c, regs, acc);
    regs := regs + [Read(p, s, i, r, c, 2)];
    SumRead(p, s, i, r, c, regs, acc);
    regs := regs + [Read(p, s, i, r, c, 3)];
    SumRead(p, s, i, r, c, regs, acc);
    regs := regs + [Read(p, s, i, r, c, 4)];
  }

  /** One cell of getLocResidual. */
  lemma SumCellReached<T>(p: Problem<T>, s: State<T>, i: nat, r: nat, c: nat, acc: T)
    requires p.Valid() && Shape(p, s) && i < p.n && Reached(p, At(s, i, Sum(r, c, [], acc)))
    requires InLoop(p, i, r)
    ensures Lo(p, i) <= r < Hi(p, i) && 1 <= c < p.cols - 1
    ensures Reached(p, At(s, i, Sum(NextRow(p, r, c), NextCol(p, c), [],
                       p.accum(acc, Idx(p, r, c), Read(p, s, i, r, c, 0), Read(p, s, i, r, c, 1),
                               Read(p, s, i, r, c, 2), Read(p, s, i, r, c, 3), Read(p, s, i, r, c, 4)))))
  {
    hide Read;
    var regs := SumAll(p, s, i, r, c, acc);
    var a := At(s, i, Sum(r, c, regs, acc));
    ReachedInv(p, a);
    assert Exec(p, a, i) == StepSum(p, a, i);
    ReachedStep(p, a, i);
    AtAt(s, i, Sum(r, c, regs, acc), Exec(p, a, i).pc[i]);
  }

  lemma SumEndReached<T>(p: Problem<T>, s: State<T>, i: nat, r: nat, c: nat, acc: T)
    requires p.Valid() && Shape(p, s) && i < p.n && Reached(p, At(s, i, Sum(r, c, [], acc)))
    requires !InLoop(p, i, r)
    ensures Reached(p, At(s, i, PutRes(acc))) && acc == LocalResidual(p, i, s.iter[i])
  {
    hide LocalSum;
    var a := At(s, i, Sum(r, c, [], acc));
    ReachedInv(p, a);
    assert Exec(p, a, i) == StepSum(p, a, i);
    ReachedStep(p, a, i);
    AtAt(s, i, Sum(r, c, [], acc), PutRes(acc));
    var b := At(s, i, PutRes(acc));
    ReachedInv(p, b);
    assert LocalsOk(p, b, i);
  }

  // ----- syncResidual -----

  /** Storing the local residual and setting the flag. */
  function Marked<T>(p: Problem<T>, s: State<T>, i: nat, x: T): (s': State<T>)
    requires p.Valid() && Shape(p, s) && i < p.n
    ensures Shape(p, s')
  {
    var ind := Slot(p.n, s.iter[i]);
    s.(locRes := s.locRes[i := s.locRes[i][ind := x]], flags := s.flags[i := s.flags[i][ind := true]])
  }

  lemma MarkReached<T>(p: Problem<T>, s: State<T>, i: nat, x: T)
    requires p.Valid() && Shape(p, s) && i < p.n && Reached(p, At(s, i, PutRes(x)))
    ensures Reached(p, At(Marked(p, s, i, x), i, Scan(0, 0)))
  {
    hide Reached;
    var a := At(s, i, PutRes(x));
    var b := At(s.(locRes := s.locRes[i := s.locRes[i][Slot(p.n, s.iter[i]) := x]]), i, PutFlag);
    AtAt(s, i, PutRes(x), PutFlag);
    MarkStep(p, a, b, i);
    AtAt(s, i, PutFlag, Scan(0, 0));
    MarkStep(p, b, At(Marked(p, s, i, x), i, Scan(0, 0)), i);
  }

  lemma ScanReached<T>(p: Problem<T>, s: State<T>, i: nat, j: nat, count: nat)
    requires p.Valid() && Shape(p, s) && i < p.n && j < p.n && Reached(p, At(s, i, Scan(j, count)))
    ensures Reached(p, At(s, i, Scan(j + 1, if s.flags[j][Slot(p.n, s.iter[i])] then count + 1 else count)))
  {
    hide Reached;
    var a := At(s, i, Scan(j, count));
    var pc := Scan(j + 1, if s.flags[j][Slot(p.n, s.iter[i])] then count + 1 else count);
    ReachedShape(p, a, i);
    AtAt(s, i, Scan(j, count), pc);
    MarkStep(p, a, At(s, i, pc), i);
  }

  lemma ScanEndReached<T>(p: Problem<T>, s: State<T>, i: nat, count: nat)
    requires p.Valid() && Shape(p, s) && i < p.n && Reached(p, At(s, i, Scan(p.n, count)))
    ensures Reached(p, At(s, i, if count == p.n then Lock else TestTol))
  {
    hide Reached;
    var a := At(s, i, Scan(p.n, count));
    var pc := if count == p.n then Lock else TestTol;
    ReachedShape(p, a, i);
    AtAt(s, i, Scan(p.n, count), pc);
    MarkStep(p, a, At(s, i, pc), i);
  }

  /** The critical section around the done bit, with nobody else inside. */
  lemma ClaimReached<T>(p: Problem<T>, s: State<T>, i: nat)
    requires p.Valid() && Shape(p, s) && i < p.n && s.mutex.None? && Reached(p, At(s, i, Lock))
    ensures var ind := Slot(p.n, s.iter[i]);
            if s.done[ind] then Reached(p, At(s, i, TestTol))
            else Reached(p, At(s.(done := s.done[ind := true]), i, Reduce(0, p.zero)))
  {
    hide Reached;
    var ind := Slot(p.n, s.iter[i]);
    var b := At(s.(mutex := Some(i)), i, TestDone);
    AtAt(s, i, Lock, TestDone);
    ClaimStep(p, At(s, i, Lock), b, i);
    if s.done[ind] {
      AtAt(s, i, TestDone, TestTol);
      ClaimStep(p, b, At(s, i, TestTol), i);
    } else {
      var c := At(s.(mutex := Some(i)), i, SetDone);
      AtAt(s, i, TestDone, SetDone);
      ClaimStep(p, b, c, i);
      AtAt(s, i, SetDone, Reduce(0, p.zero));
      ClaimStep(p, c, At(s.(done := s.done[ind := true]), i, Reduce(0, p.zero)), i);
    }
  }

  lemma ReduceReached<T>(p: Problem<T>, s: State<T>, i: nat, j: nat, acc: T)
    requires p.Valid() && Shape(p, s) && i < p.n && j < p.n && Reached(p, At(s, i, Reduce(j, acc)))
    ensures var ind := Slot(p.n, s.iter[i]);
            Reached(p, At(s.(flags := s.flags[j := s.flags[j][ind := false]]), i,
                          Reduce(j + 1, p.add(acc, s.locRes[j][ind]))))
  {
    hide Reached;
    var ind := Slot(p.n, s.iter[i]);
    var a := At(s, i, Reduce(j, acc));
    ReachedShape(p, a, i);
    var acc' := p.add(acc, s.locRes[j][ind]);
    var b := At(s, i, Clear(j, acc'));
    AtAt(s, i, Reduce(j, acc), Clear(j, acc'));
    ReportStep(p, a, b, i);
    AtAt(s, i, Clear(j, acc'), Reduce(j + 1, acc'));
    ReportStep(p, b, At(s.(flags := s.flags[j := s.flags[j][ind := false]]), i, Reduce(j + 1, acc')), i);
  }

  /** What the reduction leaves behind after the loop. */
  function Reported<T>(p: Problem<T>, s: State<T>, i: nat, x: T): (s': State<T>)
    requires p.Valid() && Shape(p, s) && i < p.n
    ensures Shape(p, s')
  {
    s.(gres := s.gres[i := x], log := s.log + [Entry(s.iter[i], i, x)], gridRes := Some(x), gridIter := Some(s.iter[i]),
       done := s.done[Slot(p.n, s.iter[i]) := false])
  }

  lemma PrintedIsNorm<T>(p: Problem<T>, s: State<T>, i: nat)
    requires p.Valid() && Shape(p, s) && i < p.n && Reached(p, s) && s.pc[i].Print?
    ensures s.gres[i] == Norm(p, s.iter[i])
  {
    hide Norm;
    ReachedInv(p, s);
    assert SumOk(p, s, i);
  }

  lemma PrintReached<T>(p: Problem<T>, s: State<T>, i: nat)
    requires p.Valid() && Shape(p, s) && i < p.n && Reached(p, At(s, i, Print))
    ensures Reached(p, At(s.(log := s.log + [Entry(s.iter[i], i, s.gres[i])], gridRes := Some(s.gres[i])), i, PubIter))
  {
    hide Reached;
    var s2 := s.(log := s.log + [Entry(s.iter[i], i, s.gres[i])]);
    AtAt(s, i, Print, PubRes);
    ReportStep(p, At(s, i, Print), At(s2, i, PubRes), i);
    var s3 := s2.(gridRes := Some(s.gres[i]));
    AtAt(s, i, PubRes, PubIter);
    ReportStep(p, At(s2, i, PubRes), At(s3, i, PubIter), i);
  }

  lemma PublishReached<T>(p: Problem<T>, s: State<T>, i: nat)
    requires p.Valid() && Shape(p, s) && i < p.n && Reached(p, At(s, i, Print))
    ensures Reached(p, At(Reported(p, s, i, s.gres[i]), i, TestTol))
  {
    hide Reached;
    PrintReached(p, s, i);
    var x := s.gres[i];
    var s3 := s.(log := s.log + [Entry(s.iter[i], i, x)], gridRes := Some(x));
    var s4 := s3.(gridIter := Some(s.iter[i]));
    AtAt(s, i, PubIter, Unmark);
    ReportStep(p, At(s3, i, PubIter), At(s4, i, Unmark), i);
    AtAt(s, i, Unmark, TestTol);
    assert s.gres[i := x] == s.gres;
    ReportStep(p, At(s4, i, Unmark), At(Reported(p, s, i, x), i, TestTol), i);
  }

  lemma ReportReached<T>(p: Problem<T>, s: State<T>, i: nat, acc: T)
    requires p.Valid() && Shape(p, s) && i < p.n && Reached(p, At(s, i, Reduce(p.n, acc)))
    ensures Reached(p, At(Reported(p, s, i, p.root(acc)), i, TestTol))
    ensures p.root(acc) == Norm(p, s.iter[i])
  {
    hide Norm, Reached;
    var x := p.root(acc);
    AtAt(s, i, Reduce(p.n, acc), Root(acc));
    ReportStep(p, At(s, i, Reduce(p.n, acc)), At(s, i, Root(acc)), i);
    var s1 := s.(gres := s.gres[i := x]);
    AtAt(s, i, Root(acc), Print);
    ReportStep(p, At(s, i, Root(acc)), At(s1, i, Print), i);
    PrintedIsNorm(p, At(s1, i, Print), i);
    PublishReached(p, s1, i);
    assert s1.gres[i := x] == s1.gres;
  }

  // ----- isResTerCriMet and changeMaxIter -----

  lemma TestReached<T>(p: Problem<T>, s: State<T>, i: nat)
    requires p.Valid() && Shape(p, s) && i < p.n && s.mutex.None? && Reached(p, At(s, i, TestTol))
    ensures if p.below(s.gres[i]) && !s.term then Reached(p, At(s.(term := true), i, MaxScan(0, 0)))
            else Reached(p, At(s, i, Update(Lo(p, i), 1, [])))
  {
    var a := At(s, i, TestTol);
    assert Exec(p, a, i) == StepStop(p, a, i);
    AtAt(s, i, TestTol, Exec(p, a, i).pc[i]);
    ReachedStep(p, a, i);
  }

  lemma MaxScanReached<T>(p: Problem<T>, s: State<T>, i: nat, j: nat, mx: nat)
    requires p.Valid() && Shape(p, s) && i < p.n && j < p.n && Reached(p, At(s, i, MaxScan(j, mx)))
    ensures Reached(p, At(s, i, MaxScan(j + 1, if s.iter[j] > mx then s.iter[j] else mx)))
  {
    hide Reached;
    var a := At(s, i, MaxScan(j, mx));
    ReachedShape(p, a, i);
    if s.iter[j] > mx {
      AtAt(s, i, MaxScan(j, mx), MaxTake(j, mx));
      StopStepReached(p, a, At(s, i, MaxTake(j, mx)), i);
      AtAt(s, i, MaxTake(j, mx), MaxScan(j + 1, s.iter[j]));
      StopStepReached(p, At(s, i, MaxTake(j, mx)), At(s, i, MaxScan(j + 1, s.iter[j])), i);
    } else {
      AtAt(s, i, MaxScan(j, mx), MaxScan(j + 1, mx));
      StopStepReached(p, a, At(s, i, MaxScan(j + 1, mx)), i);
    }
  }

  /** The first assert of changeMaxIter. */
  lemma FlagIsSet<T>(p: Problem<T>, s: State<T>, i: nat)
    requires p.Valid() && Shape(p, s) && i < p.n && Reached(p, s) && Changing(s.pc[i])
    ensures s.term && s.maxIter == p.limit && FirstBelow(p, s.iter[i])
  {
    hide Reached, NoticeInv, FirstBelow;
    ReachedLimit(p, s);
    assert Deciding(s.pc[i]);
  }

  lemma InvSkew<T>(p: Problem<T>, s: State<T>)
    requires p.Valid() && Inv(p, s)
    ensures SkewInv(p, s)
  {
  }

  /** The second assert of changeMaxIter holds and the limit is set, or it fails. */
  lemma LimitReached<T>(p: Problem<T>, s: State<T>, i: nat, mx: nat)
    requires p.Valid() && Shape(p, s) && i < p.n && s.mutex.None? && Reached(p, At(s, i, MaxScan(p.n, mx)))
    ensures if mx < s.maxIter then Reached(p, At(s.(maxIter := s.iter[i] + p.n), i, Update(Lo(p, i), 1, [])))
            else Reached(p, At(s, i, Failed(882)))
  {
    hide Reached;
    var pc := if mx < s.maxIter then SetMax else Failed(882);
    var a, b := At(s, i, MaxScan(p.n, mx)), At(s, i, pc);
    ReachedShape(p, a, i);
    AtAt(s, i, MaxScan(p.n, mx), pc);
    StopStepReached(p, a, b, i);
    if mx < s.maxIter {
      AtAt(s, i, SetMax, Update(Lo(p, i), 1, []));
      BandOfTask(p, i, 0);
      StopStepReached(p, b, At(s.(maxIter := s.iter[i] + p.n), i, Update(Lo(p, i), 1, [])), i);
    }
  }

  // ----- updateGrid -----

  lemma UpdateRead<T>(p: Problem<T>, s: State<T>, i: nat, r: nat, c: nat, regs: seq<T>)
    requires p.Valid() && Shape(p, s) && i < p.n && Reached(p, At(s, i, Update(r, c, regs)))
    requires InLoop(p, i, r) && |regs| < 4
    ensures Lo(p, i) <= r < Hi(p, i) && 1 <= c < p.cols - 1
    ensures Reached(p, At(s, i, Update(r, c, regs + [Read(p, s, i, r, c, SkipCenter(|regs|))])))
  {
    var a := At(s, i, Update(r, c, regs));
    ReachedInv(p, a);
    assert PcShape(p, i, a.pc[i]);
    assert Exec(p, a, i) == StepUpdate(p, a, i);
    ReachedStep(p, a, i);
    AtAt(s, i, Update(r, c, regs), Update(r, c, regs + [Read(p, s, i, r, c, SkipCenter(|regs|))]));
  }

  lemma UpdateAll<T>(p: Problem<T>, s: State<T>, i: nat, r: nat, c: nat) returns (regs: seq<T>)
    requires p.Valid() && Shape(p, s) && i < p.n && Reached(p, At(s, i, Update(r, c, [])))
    requires InLoop(p, i, r)
    ensures Lo(p, i) <= r < Hi(p, i) && 1 <= c < p.cols - 1
    ensures regs == [Read(p, s, i, r, c, 0), Read(p, s, i, r, c, 1), Read(p, s, i, r, c, 3), Read(p, s, i, r, c, 4)]
    ensures Reached(p, At(s, i, Update(r, c, regs)))
  {
    hide Reached, Shape;
    regs := [];
    UpdateRead(p, s, i, r, c, regs);
    regs := regs + [Read(p, s, i, r, c, 0)];
    UpdateRead(p, s, i, r, c, regs);
    regs := regs + [Read(p, s, i, r, c, 1)];
    UpdateRead(p, s, i, r, c, regs);
    regs := regs + [Read(p, s, i, r, c, 3)];
    UpdateRead(p, s, i, r, c, regs);
    regs := regs + [Read(p, s, i, r, c, 4)];
  }

  /** One cell of updateGrid. */
  lemma UpdateCellReached<T>(p: Problem<T>, s: State<T>, i: nat, r: nat, c: nat)
    requires p.Valid() && Shape(p, s) && i < p.n && Reached(p, At(s, i, Update(r, c, [])))
    requires InLoop(p, i, r)
    ensures Lo(p, i) <= r < Hi(p, i) && 1 <= c < p.cols - 1 && InGrid(p, r, c)
    ensures var x := p.relax(Idx(p, r, c), Read(p, s, i, r, c, 0), Read(p, s, i, r, c, 1), Read(p, s, i, r, c, 3),
                             Read(p, s, i, r, c, 4));
            Reached(p, At(Write(p, s, s.iter[i], r, c, x), i, Update(NextRow(p, r, c), NextCol(p, c), [])))
  {
    hide Read;
    var regs := UpdateAll(p, s, i, r, c);
    var a := At(s, i, Update(r, c, regs));
    BandOfTask(p, i, r);
    assert Exec(p, a, i) == StepUpdate(p, a, i);
    ReachedStep(p, a, i);
    AtAt(s, i, Update(r, c, regs), Update(NextRow(p, r, c), NextCol(p, c), []));
  }

  lemma UpdateEndReached<T>(p: Problem<T>, s: State<T>, i: nat, r: nat, c: nat)
    requires p.Valid() && Shape(p, s) && i < p.n && Reached(p, At(s, i, Update(r, c, []))) && !InLoop(p, i, r)
    ensures Reached(p, At(s, i, Post))
  {
    hide Reached, Exec;
    var a := At(s, i, Update(r, c, []));
    ReachedShape(p, a, i);
    ExecUpdate(p, a, i);
    ReachedStep(p, a, i);
    AtAt(s, i, Update(r, c, []), Post);
  }

  // ----- setPostConds and hasFinishedIters -----

  lemma PostReached<T>(p: Problem<T>, s: State<T>, i: nat)
    requires p.Valid() && Shape(p, s) && i < p.n && Reached(p, At(s, i, Post))
    ensures Reached(p, At(s.(iter := s.iter[i := s.iter[i] + 1]), i, Finish))
  {
    hide Reached;
    AtAt(s, i, Post, Finish);
    CheckStep(p, At(s, i, Post), At(s.(iter := s.iter[i := s.iter[i] + 1]), i, Finish), i);
  }

  lemma FinishReached<T>(p: Problem<T>, s: State<T>, i: nat)
    requires p.Valid() && Shape(p, s) && i < p.n && Reached(p, At(s, i, Finish))
    ensures Reached(p, At(s, i, if s.iter[i] >= s.maxIter then Done else Idle))
  {
    hide Reached;
    var pc := if s.iter[i] >= s.maxIter then Done else Idle;
    AtAt(s, i, Finish, pc);
    CheckStep(p, At(s, i, Finish), At(s, i, pc), i);
  }
}
