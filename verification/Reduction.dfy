/** What the reductions compute and publish, and in which order. */
module Reduction {
  import opened Jacobi
  import opened Residual
  import opened Machine
  import opened Skew
  import opened Refinement
  import opened Ring

  /** Which code changes which field. */
  ghost predicate FieldFrame<T>(s: State<T>, s': State<T>, i: nat)
    requires i < |s.pc| && i < |s'.pc|
  {
    var pc, pc' := s.pc[i], s'.pc[i];
    && s'.pc == s.pc[i := pc']
    && (!pc.Post? ==> s'.iter == s.iter)
    && (!pc.PutRes? ==> s'.locRes == s.locRes)
    && (!pc.Root? ==> s'.gres == s.gres)
    && (!pc.Print? ==> s'.log == s.log)
    && (!pc.PubRes? ==> s'.gridRes == s.gridRes)
    && (!pc.PubIter? ==> s'.gridIter == s.gridIter)
    && (!pc.TestTol? ==> s'.term == s.term)
    && (!pc.SetMax? ==> s'.maxIter == s.maxIter)
    && (PastFlag(pc) && !pc.Post? ==> PastFlag(pc'))
    && (PastFlag(pc') ==> PastFlag(pc) || pc.PutFlag?)
    && (pc'.PutFlag? ==> pc.PutRes?)
    && (pc.PutFlag? ==> PastFlag(pc'))
    && (Reducing(pc') ==> Reducing(pc) || pc.SetDone?)
    && (pc'.Print? ==> pc.Root?)
    && (Changing(pc') ==> pc.TestTol? || Changing(pc))
    && (pc'.Finish? ==> pc.Post? || pc.ReadDown?)
    && (i < |s.iter| && pc.Finish? ==> pc' == if s.iter[i] >= s.maxIter then Done else Idle)
    && (pc'.Done? ==> pc.Done? || pc.Finish?)
    && (pc'.Failed? ==> pc.Failed? || pc.ReadDown? || (pc.MaxScan? && pc.mx >= s.maxIter))
    && (i < |s.iter| ==> s'.maxIter == s.maxIter || s'.maxIter == s.iter[i] + |s.iter|)
  }

  lemma FrameCheck<T>(p: Problem<T>, s: State<T>, i: nat)
    requires p.Valid() && Shape(p, s) && i < p.n && (!InTask(s.pc[i]) || s.pc[i].Post?)
    ensures FieldFrame(s, Exec(p, s, i), i)
  {
    hide Exec, Shape;
    Sizes(p, s);
    assert s.pc == s.pc[i := s.pc[i]];
    if s.pc[i].Done? || s.pc[i].Failed? {
      ExecOver(p, s, i);
    } else {
      ExecCheck(p, s, i);
    }
  }

  lemma FrameSum<T>(p: Problem<T>, s: State<T>, i: nat)
    requires p.Valid() && Shape(p, s) && i < p.n && s.pc[i].Sum?
    ensures FieldFrame(s, Exec(p, s, i), i)
  {
    hide Exec, Shape, Read;
    Sizes(p, s);
    ExecSum(p, s, i);
  }

  lemma FrameUpdate<T>(p: Problem<T>, s: State<T>, i: nat)
    requires p.Valid() && Shape(p, s) && i < p.n && s.pc[i].Update?
    ensures FieldFrame(s, Exec(p, s, i), i)
  {
    hide Exec, Shape, Read;
    Sizes(p, s);
    ExecUpdate(p, s, i);
  }

  lemma FrameMark<T>(p: Problem<T>, s: State<T>, i: nat)
    requires p.Valid() && Shape(p, s) && i < p.n
    requires s.pc[i].PutRes? || s.pc[i].PutFlag? || s.pc[i].Scan?
    ensures FieldFrame(s, Exec(p, s, i), i)
  {
    hide Exec, Shape;
    Sizes(p, s);
    ExecMark(p, s, i);
  }

  lemma FrameClaim<T>(p: Problem<T>, s: State<T>, i: nat)
    requires p.Valid() && Shape(p, s) && i < p.n
    requires s.pc[i].Lock? || s.pc[i].TestDone? || s.pc[i].SetDone?
    ensures FieldFrame(s, Exec(p, s, i), i)
  {
    hide Exec, Shape;
    Sizes(p, s);
    assert s.pc == s.pc[i := s.pc[i]];
    ExecClaim(p, s, i);
  }

  lemma FrameReduce<T>(p: Problem<T>, s: State<T>, i: nat)
    requires p.Valid() && Shape(p, s) && i < p.n && Reducing(s.pc[i])
    ensures FieldFrame(s, Exec(p, s, i), i)
  {
    hide Exec, Shape;
    Sizes(p, s);
    ExecReduce(p, s, i);
  }

  lemma FrameStop<T>(p: Problem<T>, s: State<T>, i: nat)
    requires p.Valid() && Shape(p, s) && i < p.n && (s.pc[i].TestTol? || Changing(s.pc[i]))
    ensures FieldFrame(s, Exec(p, s, i), i)
  {
    hide Exec, Shape;
    Sizes(p, s);
    assert s.pc == s.pc[i := s.pc[i]];
    ExecStop(p, s, i);
  }

  lemma Frame<T>(p: Problem<T>, s: State<T>, i: nat)
    requires p.Valid() && Shape(p, s) && i < p.n
    ensures FieldFrame(s, Exec(p, s, i), i)
  {
    hide FieldFrame, Exec;
    if !InTask(s.pc[i]) || s.pc[i].Post? {
      FrameCheck(p, s, i);
    } else if s.pc[i].Sum? {
      FrameSum(p, s, i);
    } else if s.pc[i].Update? {
      FrameUpdate(p, s, i);
    } else if Reducing(s.pc[i]) {
      FrameReduce(p, s, i);
    } else if s.pc[i].TestTol? || Changing(s.pc[i]) {
      FrameStop(p, s, i);
    } else if s.pc[i].PutRes? || s.pc[i].PutFlag? || s.pc[i].Scan? {
      FrameMark(p, s, i);
    } else {
      FrameClaim(p, s, i);
    }
  }

  /** Having set the flag of an iteration is for good. */
  lemma SetStays<T>(p: Problem<T>, s: State<T>, i: nat)
    requires p.Valid() && Shape(p, s) && i < p.n
    ensures forall j: nat, k: nat | j < p.n && SetAt(s, j, k) :: SetAt(Exec(p, s, i), j, k)
    ensures forall k: nat | AllSet(p, s, k) :: AllSet(p, Exec(p, s, i), k)
  {
    Frame(p, s, i);
    StepKind(p, s, i);
    var s' := Exec(p, s, i);
    forall k: nat | AllSet(p, s, k)
      ensures AllSet(p, s', k)
    {
      forall j: nat | j < p.n
        ensures SetAt(s', j, k)
      {
        assert SetAt(s, j, k);
      }
    }
  }

  // ----- the residual slots -----

  ghost predicate WroteAt<T>(s: State<T>, j: nat, k: nat)
    requires j < |s.iter| && j < |s.pc|
  {
    SetAt(s, j, k) || (s.iter[j] == k && s.pc[j].PutFlag?)
  }

  ghost predicate SlotOk<T>(p: Problem<T>, s: State<T>, j: nat, k: nat)
    requires p.Valid() && Shape(p, s) && j < p.n
  {
    Live(s.iter, k) && WroteAt(s, j, k) ==> s.locRes[j][Slot(p.n, k)] == LocalResidual(p, j, k)
  }

  ghost predicate SlotsOk<T>(p: Problem<T>, s: State<T>)
    requires p.Valid() && Shape(p, s)
  {
    forall j: nat, k: nat | j < p.n :: SlotOk(p, s, j, k)
  }

  lemma SlotsStep<T>(p: Problem<T>, s: State<T>, i: nat)
    requires p.Valid() && SkewInv(p, s) && DataInv(p, s) && SlotsOk(p, s) && i < p.n
    ensures SlotsOk(p, Exec(p, s, i))
  {
    var s' := Exec(p, s, i);
    Frame(p, s, i);
    StepKind(p, s, i);
    var m := s.iter[i];
    CountersLive(p, s, i);
    forall j: nat, k: nat | j < p.n
      ensures SlotOk(p, s', j, k)
    {
      assert SlotOk(p, s, j, k);
      if s.pc[i].PutRes? {
        assert s' == StepMark(p, s, i) && LocalsOk(p, s, i);
        if j == i && Live(s.iter, k) && Slot(p.n, k) == Slot(p.n, m) {
          LiveSlots(p.n, s.iter, k, m);
        }
      } else if Live(s'.iter, k) && !Live(s.iter, k) {
        WindowMoves(s.iter, i, k);
        CountersLive(p, s, j);
        assert !WroteAt(s', j, k);
      }
    }
  }

  // ----- the sums and what is published -----

  ghost predicate SumOk<T>(p: Problem<T>, s: State<T>, b: nat)
    requires p.Valid() && Shape(p, s) && b < p.n
  {
    var k := s.iter[b];
    assert PcShape(p, b, s.pc[b]);
    match s.pc[b]
    case Reduce(j, acc) => acc == GlobalSum(p, k, j)
    case Clear(j, acc) => acc == GlobalSum(p, k, j + 1)
    case Root(acc) => acc == GlobalSum(p, k, p.n)
    case Print => s.gres[b] == Norm(p, k)
    case PubRes => s.gres[b] == Norm(p, k) && LastIs(s.log, Entry(k, b, Norm(p, k)))
    case PubIter => s.gres[b] == Norm(p, k) && LastIs(s.log, Entry(k, b, Norm(p, k)))
    case Unmark => s.gres[b] == Norm(p, k) && LastIs(s.log, Entry(k, b, Norm(p, k)))
    case _ => true
  }

  ghost predicate LastIs<T>(log: seq<Entry<T>>, e: Entry<T>) {
    log != [] && log[|log| - 1] == e
  }

  /** Every line printed is the residual of an iteration that all tasks had contributed to. */
  ghost predicate EntryOk<T>(p: Problem<T>, s: State<T>, t: nat)
    requires p.Valid() && Shape(p, s) && t < |s.log|
  {
    s.log[t].task < p.n && s.log[t].res == Norm(p, s.log[t].iter) && AllSet(p, s, s.log[t].iter)
  }

  /** The reductions take the iterations in order and skip none. */
  ghost predicate OrderOk<T>(log: seq<Entry<T>>) {
    && (log != [] ==> log[0].iter == 0)
    && forall t: nat | t + 1 < |log| :: log[t].iter <= log[t + 1].iter <= log[t].iter + 1
  }

  /** The grid holds the last line printed, once its reducer has stored it. */
  ghost predicate GridOk<T>(p: Problem<T>, s: State<T>)
    requires p.Valid() && Shape(p, s)
  {
    if s.log == [] then s.gridRes == None && s.gridIter == None
    else
      var e := s.log[|s.log| - 1];
      || (e.task < p.n && s.pc[e.task].PubRes?)
      || (e.task < p.n && s.pc[e.task].PubIter? && s.gridRes == Some(e.res))
      || (s.gridRes == Some(e.res) && s.gridIter == Some(e.iter))
  }

  ghost predicate ReduceInv<T>(p: Problem<T>, s: State<T>)
    requires p.Valid() && Shape(p, s)
  {
    && SlotsOk(p, s)
    && (forall b: nat | b < p.n :: SumOk(p, s, b))
    && (forall t: nat | t < |s.log| :: EntryOk(p, s, t))
    && OrderOk(s.log)
    && GridOk(p, s)
  }

  lemma ReduceInit<T>(p: Problem<T>)
    requires p.Valid()
    ensures ReduceInv(p, Init(p))
  {
  }

  /** The next summand is the local residual of the reducer's own iteration. */
  lemma NextSummand<T>(p: Problem<T>, s: State<T>, i: nat)
    requires p.Valid() && SkewInv(p, s) && RingInv(p, s) && ReduceInv(p, s) && i < p.n
    requires s.pc[i].Reduce? && s.pc[i].j < p.n
    ensures s.locRes[s.pc[i].j][Slot(p.n, s.iter[i])] == LocalResidual(p, s.pc[i].j, s.iter[i])
  {
    hide Exec, LocalResidual, GlobalSum, Norm, DataInv;
    var j, k := s.pc[i].j, s.iter[i];
    CountersLive(p, s, i);
    assert ClaimOk(p, s, i) && SetAt(s, j, k) && SlotOk(p, s, j, k);
  }

  lemma SumsReduce<T>(p: Problem<T>, s: State<T>, i: nat)
    requires p.Valid() && Shape(p, s) && i < p.n && s.pc[i].Reduce? && SumOk(p, s, i)
    requires s.pc[i].j < p.n ==>
               s.locRes[s.pc[i].j][Slot(p.n, s.iter[i])] == LocalResidual(p, s.pc[i].j, s.iter[i])
    ensures SumOk(p, Exec(p, s, i), i)
  {
    hide Exec, LocalResidual;
    ExecReduce(p, s, i);
    assert PcShape(p, i, s.pc[i]);
  }

  lemma SumsReport<T>(p: Problem<T>, s: State<T>, i: nat)
    requires p.Valid() && Shape(p, s) && i < p.n && Reducing(s.pc[i]) && !s.pc[i].Reduce? && SumOk(p, s, i)
    ensures SumOk(p, Exec(p, s, i), i)
  {
    hide Exec, LocalResidual, GlobalSum;
    ExecReduce(p, s, i);
    assert PcShape(p, i, s.pc[i]);
  }

  lemma SumsStep<T>(p: Problem<T>, s: State<T>, i: nat)
    requires p.Valid() && SkewInv(p, s) && RingInv(p, s) && ReduceInv(p, s) && i < p.n
    ensures SumOk(p, Exec(p, s, i), i)
  {
    hide Exec, LocalResidual, GlobalSum, Norm, RingInv;
    var s' := Exec(p, s, i);
    assert SumOk(p, s, i) && PcShape(p, i, s.pc[i]);
    if s.pc[i].Reduce? {
      if s.pc[i].j < p.n {
        NextSummand(p, s, i);
      }
      SumsReduce(p, s, i);
    } else if Reducing(s.pc[i]) {
      SumsReport(p, s, i);
    } else {
      Frame(p, s, i);
      if s.pc[i].SetDone? {
        SumsStart(p, s, i);
      }
    }
  }

  lemma SumsStart<T>(p: Problem<T>, s: State<T>, i: nat)
    requires p.Valid() && Shape(p, s) && i < p.n && s.pc[i].SetDone?
    ensures SumOk(p, Exec(p, s, i), i)
  {
    hide Exec, LocalResidual;
    ExecClaim(p, s, i);
  }

  lemma OthersSums<T>(p: Problem<T>, s: State<T>, i: nat, b: nat)
    requires p.Valid() && SkewInv(p, s) && RingInv(p, s) && ReduceInv(p, s) && i < p.n && b < p.n && b != i
    ensures SumOk(p, Exec(p, s, i), b)
  {
    assert SumOk(p, s, b) && Apart(p, s, i, b);
    Frame(p, s, i);
    StepKind(p, s, i);
    if s.pc[i].Root? {
      assert Exec(p, s, i) == StepReduce(p, s, i);
    }
  }

  lemma EntriesStep<T>(p: Problem<T>, s: State<T>, i: nat)
    requires p.Valid() && SkewInv(p, s) && RingInv(p, s) && ReduceInv(p, s) && i < p.n
    ensures forall t: nat | t < |Exec(p, s, i).log| :: EntryOk(p, Exec(p, s, i), t)
  {
    var s' := Exec(p, s, i);
    Frame(p, s, i);
    SetStays(p, s, i);
    if s.pc[i].Print? {
      assert s' == StepReduce(p, s, i);
      assert ClaimOk(p, s, i) && SumOk(p, s, i);
    }
    forall t: nat | t < |s'.log|
      ensures EntryOk(p, s', t)
    {
      if t < |s.log| {
        assert EntryOk(p, s, t);
      }
    }
  }

  lemma {:induction false} OrderLast<T>(log: seq<Entry<T>>, t: nat, t': nat)
    requires OrderOk(log) && t <= t' < |log|
    ensures log[t].iter <= log[t'].iter
  {
    if t < t' {
      OrderLast(log, t, t' - 1);
    }
  }

  /** Every reduction of k comes before every reduction of k + 1. */
  lemma OrderStep<T>(p: Problem<T>, s: State<T>, i: nat)
    requires p.Valid() && SkewInv(p, s) && RingInv(p, s) && ReduceInv(p, s) && i < p.n && s.pc[i].Print?
    ensures OrderOk(s.log + [Entry(s.iter[i], i, s.gres[i])])
  {
    hide Exec, Norm, PcShape;
    var k := s.iter[i];
    assert ClaimOk(p, s, i);
    if s.log != [] {
      var t := |s.log| - 1;
      assert EntryOk(p, s, t);
      assert SetAt(s, i, s.log[t].iter);
    }
    if k > 0 {
      forall j | 0 <= j < |s.iter|
        ensures s.iter[j] > k - 1
      {
        assert SetAt(s, j, k);
      }
      assert Passed(s.iter, k - 1) && CoverOk(p, s, k - 1);
      var t: nat :| t < |s.log| && s.log[t].iter == k - 1;
      OrderLast(s.log, t, |s.log| - 1);
    }
  }

  lemma GridStep<T>(p: Problem<T>, s: State<T>, i: nat)
    requires p.Valid() && SkewInv(p, s) && RingInv(p, s) && ReduceInv(p, s) && i < p.n
    ensures GridOk(p, Exec(p, s, i))
  {
    hide Exec, Norm, GlobalSum, RingInv, PcShape;
    var s' := Exec(p, s, i);
    assert SumOk(p, s, i);
    Frame(p, s, i);
    if Reducing(s.pc[i]) {
      ExecReduce(p, s, i);
    }
  }

  lemma ReduceStep<T>(p: Problem<T>, s: State<T>, i: nat)
    requires p.Valid() && SkewInv(p, s) && DataInv(p, s) && RingInv(p, s) && ReduceInv(p, s) && i < p.n
    ensures ReduceInv(p, Exec(p, s, i))
  {
    var s' := Exec(p, s, i);
    SlotsStep(p, s, i);
    forall b: nat | b < p.n
      ensures SumOk(p, s', b)
    {
      if b == i {
        SumsStep(p, s, i);
      } else {
        OthersSums(p, s, i, b);
      }
    }
    EntriesStep(p, s, i);
    Frame(p, s, i);
    if s.pc[i].Print? {
      assert s' == StepReduce(p, s, i);
      OrderStep(p, s, i);
    }
    GridStep(p, s, i);
  }
}
