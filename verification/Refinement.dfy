/** What the buffers hold during every run: the parallel solver computes the
    iterates of the serial one, cell for cell. */
module Refinement {
  import opened Jacobi
  import opened Residual
  import opened Machine
  import opened Skew

  /** Task i has already assigned cell (r, c) of its band in this call. */
  ghost predicate Written<T>(pc: Pc<T>, r: nat, c: nat) {
    pc.Post? || (pc.Update? && (r < pc.r || (r == pc.r && c < pc.c)))
  }

  /** Rows of a task at iteration k: buffer k % 2 holds iterate k, the other one
      iterate k + 1 where already written and iterate k - 1 elsewhere. */
  ghost predicate CellOk<T>(p: Problem<T>, s: State<T>, r: nat, c: nat)
    requires p.Valid() && Shape(p, s) && InGrid(p, r, c)
  {
    IdxInBounds(p, r, c);
    OwnerInRange(p, r);
    var k := s.iter[Owner(p, r)];
    && Src(s, k)[Idx(p, r, c)] == Iterate(p, k, r, c)
    && Dest(s, k)[Idx(p, r, c)] == Iterate(p, if Written(s.pc[Owner(p, r)], r, c) then k + 1 else k as int - 1, r, c)
  }

  /** The local variables of a task hold what the serial code would have read. */
  ghost predicate LocalsOk<T>(p: Problem<T>, s: State<T>, i: nat)
    requires p.Valid() && Shape(p, s) && i < p.n
  {
    var k := s.iter[i];
    assert PcShape(p, i, s.pc[i]);
    BandOfTask(p, i, 0);
    match s.pc[i]
    case Sum(r, c, regs, acc) =>
      && (c > 1 ==> r < Hi(p, i))
      && acc == LocalSum(p, i, k, r, c)
      && forall q: nat | q < |regs| :: regs[q] == NeighbourIterate(p, i, k, r, c, q)
    case PutRes(res) => res == LocalResidual(p, i, k)
    case Update(r, c, regs) =>
      && (c > 1 ==> r < Hi(p, i))
      && forall q: nat | q < |regs| :: regs[q] == NeighbourIterate(p, i, k, r, c, SkipCenter(q))
    case _ => true
  }

  function NeighbourIterate<T>(p: Problem<T>, i: nat, k: nat, r: nat, c: nat, q: nat): T
    requires p.Valid() && i < p.n && q < 5
    requires Lo(p, i) <= r < Hi(p, i) && 1 <= c < p.cols - 1
  {
    BandOfTask(p, i, r);
    Iterate(p, k, NeighbourRow(r, q), NeighbourCol(c, q))
  }

  ghost predicate DataInv<T>(p: Problem<T>, s: State<T>)
    requires p.Valid() && Shape(p, s)
  {
    && (forall r: nat, c: nat | InGrid(p, r, c) :: CellOk(p, s, r, c))
    && (forall i: nat | i < p.n :: LocalsOk(p, s, i))
  }

  lemma DataInit<T>(p: Problem<T>)
    requires p.Valid()
    ensures DataInv(p, Init(p))
  {
    forall r: nat, c: nat | InGrid(p, r, c)
      ensures CellOk(p, Init(p), r, c)
    {
      OwnerInRange(p, r);
      IdxInBounds(p, r, c);
    }
  }

  /** A task between its check and its post reads only values of its own
      iteration, whatever its neighbours are doing. */
  lemma ReadsIterate<T>(p: Problem<T>, s: State<T>, i: nat, r: nat, c: nat, q: nat)
    requires p.Valid() && SkewInv(p, s) && DataInv(p, s)
    requires i < p.n && InTask(s.pc[i]) && q < 5
    requires Lo(p, i) <= r < Hi(p, i) && 1 <= c < p.cols - 1
    ensures Read(p, s, i, r, c, q) == NeighbourIterate(p, i, s.iter[i], r, c, q)
  {
    hide Exec, Iterate, LocalSum, LocalsOk, PcShape;
    BandOfTask(p, i, r);
    var r', c' := NeighbourRow(r, q), NeighbourCol(c, q);
    OwnerOfNextRow(p, r - 1);
    OwnerOfNextRow(p, r);
    OwnerInRange(p, r');
    var j := Owner(p, r');
    assert CellOk(p, s, r', c');
    assert SeenOk(p, s, i) && SeenOk(p, s, j);
    if j != i {
      assert AdjacentOk(p, s, if i < j then i else j);
      if s.iter[j] == s.iter[i] + 1 {
        assert !InTask(s.pc[j]);
      }
    }
  }

  /** Steps that neither write a cell nor change what counts as written. */
  lemma CellsUnchanged<T>(p: Problem<T>, s: State<T>, s': State<T>, i: nat)
    requires p.Valid() && Shape(p, s) && Shape(p, s') && DataInv(p, s) && i < p.n
    requires s'.iter == s.iter && s'.pc == s.pc[i := s'.pc[i]] && s'.u1 == s.u1 && s'.u2 == s.u2
    requires forall r: nat, c: nat | Interior(p, r, c) && Owner(p, r) == i ::
               Written(s'.pc[i], r, c) == Written(s.pc[i], r, c)
    ensures forall r: nat, c: nat | InGrid(p, r, c) :: CellOk(p, s', r, c)
    ensures forall j: nat | j < p.n && j != i :: LocalsOk(p, s', j)
  {
    hide Exec, LocalSum, PcShape;
    forall r: nat, c: nat | InGrid(p, r, c)
      ensures CellOk(p, s', r, c)
    {
      assert CellOk(p, s, r, c);
      OwnerInRange(p, r);
    }
    forall j: nat | j < p.n && j != i
      ensures LocalsOk(p, s', j)
    {
      assert LocalsOk(p, s, j);
    }
  }

  lemma SumRead<T>(p: Problem<T>, s: State<T>, i: nat)
    requires p.Valid() && SkewInv(p, s) && DataInv(p, s) && i < p.n && s.pc[i].Sum?
    requires InLoop(p, i, s.pc[i].r) && |s.pc[i].regs| < 5
    ensures LocalsOk(p, StepSum(p, s, i), i)
  {
    var Sum(r, c, regs, acc) := s.pc[i];
    assert PcShape(p, i, s.pc[i]) && LocalsOk(p, s, i);
    ReadsIterate(p, s, i, r, c, |regs|);
  }

  lemma SumCell<T>(p: Problem<T>, s: State<T>, i: nat)
    requires p.Valid() && Shape(p, s) && i < p.n && s.pc[i].Sum? && LocalsOk(p, s, i)
    requires InLoop(p, i, s.pc[i].r) && |s.pc[i].regs| == 5
    ensures var Sum(r, c, regs, acc) := s.pc[i];
            p.accum(acc, Idx(p, r, c), regs[0], regs[1], regs[2], regs[3], regs[4])
            == AddCell(p, i, s.iter[i], acc, r, c)
  {
    var k := s.iter[i];
    var Sum(r, c, regs, acc) := s.pc[i];
    assert PcShape(p, i, s.pc[i]);
    BandOfTask(p, i, r);
    assert regs[0] == NeighbourIterate(p, i, k, r, c, 0) && regs[1] == NeighbourIterate(p, i, k, r, c, 1);
    assert regs[2] == NeighbourIterate(p, i, k, r, c, 2) && regs[3] == NeighbourIterate(p, i, k, r, c, 3);
    assert regs[4] == NeighbourIterate(p, i, k, r, c, 4);
  }

  lemma SumAdd<T>(p: Problem<T>, s: State<T>, i: nat)
    requires p.Valid() && Shape(p, s) && i < p.n && s.pc[i].Sum? && LocalsOk(p, s, i)
    requires InLoop(p, i, s.pc[i].r) ==> |s.pc[i].regs| == 5
    ensures LocalsOk(p, StepSum(p, s, i), i)
  {
    var Sum(r, c, regs, acc) := s.pc[i];
    assert PcShape(p, i, s.pc[i]);
    if InLoop(p, i, r) {
      SumCell(p, s, i);
      LocalSumNext(p, i, s.iter[i], r, c);
    }
  }

  lemma DataSum<T>(p: Problem<T>, s: State<T>, i: nat)
    requires p.Valid() && SkewInv(p, s) && DataInv(p, s) && i < p.n && s.pc[i].Sum?
    ensures DataInv(p, StepSum(p, s, i))
  {
    assert PcShape(p, i, s.pc[i]) && LocalsOk(p, s, i);
    if InLoop(p, i, s.pc[i].r) && |s.pc[i].regs| < 5 {
      SumRead(p, s, i);
    } else {
      SumAdd(p, s, i);
    }
    CellsUnchanged(p, s, StepSum(p, s, i), i);
  }

  lemma DataRead<T>(p: Problem<T>, s: State<T>, i: nat)
    requires p.Valid() && SkewInv(p, s) && DataInv(p, s) && i < p.n && s.pc[i].Update?
    requires !InLoop(p, i, s.pc[i].r) || |s.pc[i].regs| < 4
    ensures DataInv(p, Exec(p, s, i))
  {
    var s' := Exec(p, s, i);
    var Update(r, c, regs) := s.pc[i];
    assert PcShape(p, i, s.pc[i]) && LocalsOk(p, s, i);
    BandOfTask(p, i, r);
    if InLoop(p, i, r) {
      ReadsIterate(p, s, i, r, c, SkipCenter(|regs|));
    }
    assert LocalsOk(p, s', i);
    forall r': nat, c': nat | Interior(p, r', c') && Owner(p, r') == i
      ensures Written(s'.pc[i], r', c') == Written(s.pc[i], r', c')
    {
      BandOfTask(p, i, r');
    }
    CellsUnchanged(p, s, s', i);
  }

  lemma ComputesNext<T>(p: Problem<T>, s: State<T>, i: nat)
    requires p.Valid() && Shape(p, s) && i < p.n && s.pc[i].Update? && LocalsOk(p, s, i)
    requires InLoop(p, i, s.pc[i].r) && |s.pc[i].regs| == 4
    ensures InGrid(p, s.pc[i].r, s.pc[i].c)
    ensures var Update(r, c, regs) := s.pc[i];
            p.relax(Idx(p, r, c), regs[0], regs[1], regs[2], regs[3]) == Iterate(p, s.iter[i] + 1, r, c)
  {
    var k := s.iter[i];
    var Update(r, c, regs) := s.pc[i];
    assert PcShape(p, i, s.pc[i]);
    BandOfTask(p, i, r);
    assert regs[0] == NeighbourIterate(p, i, k, r, c, SkipCenter(0));
    assert regs[1] == NeighbourIterate(p, i, k, r, c, SkipCenter(1));
    assert regs[2] == NeighbourIterate(p, i, k, r, c, SkipCenter(2));
    assert regs[3] == NeighbourIterate(p, i, k, r, c, SkipCenter(3));
  }

  lemma DataWrite<T>(p: Problem<T>, s: State<T>, i: nat)
    requires p.Valid() && SkewInv(p, s) && DataInv(p, s) && i < p.n && s.pc[i].Update?
    requires InLoop(p, i, s.pc[i].r) && |s.pc[i].regs| == 4
    ensures DataInv(p, StepUpdate(p, s, i))
  {
    var s' := StepUpdate(p, s, i);
    var Update(r, c, regs) := s.pc[i];
    assert PcShape(p, i, s.pc[i]) && LocalsOk(p, s, i);
    ComputesNext(p, s, i);
    BandOfTask(p, i, r);
    IdxInBounds(p, r, c);
    forall r': nat, c': nat | InGrid(p, r', c')
      ensures CellOk(p, s', r', c')
    {
      if r' == r && c' == c {
        WrittenCell(p, s, i);
      } else {
        CellAfterWrite(p, s, i, r', c');
      }
    }
    forall j: nat | j < p.n
      ensures LocalsOk(p, s', j)
    {
      assert LocalsOk(p, s, j);
    }
  }

  /** Writing cell (r, c) leaves every other position of both buffers alone. */
  lemma WriteElsewhere<T>(p: Problem<T>, s: State<T>, k: nat, r: nat, c: nat, x: T, r': nat, c': nat)
    requires p.Valid() && Shape(p, s) && InGrid(p, r, c) && InGrid(p, r', c')
    requires !(r == r' && c == c')
    ensures Idx(p, r', c') < Times(p.rows, p.cols)
    ensures Write(p, s, k, r, c, x).u1[Idx(p, r', c')] == s.u1[Idx(p, r', c')]
    ensures Write(p, s, k, r, c, x).u2[Idx(p, r', c')] == s.u2[Idx(p, r', c')]
  {
    IdxInBounds(p, r', c');
    IdxInBounds(p, r, c);
    if Idx(p, r', c') == Idx(p, r, c) {
      IdxInjective(p, r, c, r', c');
    }
  }

  lemma BoundaryKept<T>(p: Problem<T>, k: nat, r: nat, c: nat)
    requires p.Valid() && InGrid(p, r, c) && !Interior(p, r, c)
    ensures Iterate(p, k + 1, r, c) == Iterate(p, k as int - 1, r, c)
  {
  }

  lemma CellAfterWrite<T>(p: Problem<T>, s: State<T>, i: nat, r': nat, c': nat)
    requires p.Valid() && Shape(p, s) && i < p.n && s.pc[i].Update?
    requires InLoop(p, i, s.pc[i].r) && |s.pc[i].regs| == 4
    requires InGrid(p, r', c') && CellOk(p, s, r', c')
    requires !(r' == s.pc[i].r && c' == s.pc[i].c)
    ensures CellOk(p, StepUpdate(p, s, i), r', c')
  {
    var s' := StepUpdate(p, s, i);
    var Update(r, c, regs) := s.pc[i];
    assert PcShape(p, i, s.pc[i]);
    BandOfTask(p, i, r);
    OwnerInRange(p, r');
    var k := s.iter[Owner(p, r')];
    WriteElsewhere(p, s, s.iter[i], r, c, p.relax(Idx(p, r, c), regs[0], regs[1], regs[2], regs[3]), r', c');
    assert s'.iter[Owner(p, r')] == k;
    assert Src(s', k)[Idx(p, r', c')] == Src(s, k)[Idx(p, r', c')];
    assert Dest(s', k)[Idx(p, r', c')] == Dest(s, k)[Idx(p, r', c')];
    WrittenAfter(p, s, i, r', c');
    if !Interior(p, r', c') {
      BoundaryKept(p, k, r', c');
    }
  }

  lemma WrittenCell<T>(p: Problem<T>, s: State<T>, i: nat)
    requires p.Valid() && Shape(p, s) && i < p.n && s.pc[i].Update?
    requires InLoop(p, i, s.pc[i].r) && |s.pc[i].regs| == 4
    requires InGrid(p, s.pc[i].r, s.pc[i].c) && CellOk(p, s, s.pc[i].r, s.pc[i].c)
    requires var Update(r, c, regs) := s.pc[i];
             p.relax(Idx(p, r, c), regs[0], regs[1], regs[2], regs[3]) == Iterate(p, s.iter[i] + 1, r, c)
    ensures CellOk(p, StepUpdate(p, s, i), s.pc[i].r, s.pc[i].c)
  {
    var s' := StepUpdate(p, s, i);
    var k := s.iter[i];
    var Update(r, c, regs) := s.pc[i];
    assert PcShape(p, i, s.pc[i]);
    BandOfTask(p, i, r);
    IdxInBounds(p, r, c);
    assert Src(s', k) == Src(s, k);
    assert Dest(s', k)[Idx(p, r, c)] == Iterate(p, k + 1, r, c);
    assert Owner(p, r) == i && s'.iter == s.iter && Written(s'.pc[i], r, c);
  }

  lemma WrittenAfter<T>(p: Problem<T>, s: State<T>, i: nat, r': nat, c': nat)
    requires p.Valid() && Shape(p, s) && i < p.n && s.pc[i].Update?
    requires InLoop(p, i, s.pc[i].r) && |s.pc[i].regs| == 4
    requires InGrid(p, r', c') && !(r' == s.pc[i].r && c' == s.pc[i].c)
    ensures var j := Owner(p, r');
            j < p.n
            && (Interior(p, r', c') ==>
                Written(StepUpdate(p, s, i).pc[j], r', c') == Written(s.pc[j], r', c'))
  {
    OwnerInRange(p, r');
    assert PcShape(p, i, s.pc[i]);
  }

  lemma DataPost<T>(p: Problem<T>, s: State<T>, i: nat)
    requires p.Valid() && SkewInv(p, s) && DataInv(p, s) && i < p.n && s.pc[i].Post?
    ensures DataInv(p, Exec(p, s, i))
  {
    hide Iterate, LocalSum;
    var s' := Exec(p, s, i);
    forall r: nat, c: nat | InGrid(p, r, c)
      ensures CellOk(p, s', r, c)
    {
      assert CellOk(p, s, r, c);
      OwnerInRange(p, r);
    }
    forall j: nat | j < p.n
      ensures LocalsOk(p, s', j)
    {
      assert LocalsOk(p, s, j);
    }
  }

  lemma DataCheck<T>(p: Problem<T>, s: State<T>, i: nat)
    requires p.Valid() && SkewInv(p, s) && DataInv(p, s) && i < p.n && !InTask(s.pc[i])
    ensures DataInv(p, Exec(p, s, i))
  {
    hide Exec, Iterate, PcShape;
    var s' := Exec(p, s, i);
    CheckWrites(p, s, i);
    assert LocalsOk(p, s', i);
    CellsUnchanged(p, s, s', i);
  }

  /** A check moves only its own place, at most to the start of the work. */
  lemma CheckWrites<T>(p: Problem<T>, s: State<T>, i: nat)
    requires p.Valid() && Shape(p, s) && i < p.n && !InTask(s.pc[i])
    ensures var s' := Exec(p, s, i);
            && s'.iter == s.iter && s'.u1 == s.u1 && s'.u2 == s.u2 && s'.pc == s.pc[i := s'.pc[i]]
            && !s'.pc[i].PutRes? && !s'.pc[i].Update? && !s'.pc[i].Post?
            && (s'.pc[i].Sum? ==> s'.pc[i] == Sum(Lo(p, i), 1, [], p.zero))
  {
    hide Exec, Shape;
    Sizes(p, s);
    assert s.pc == s.pc[i := s.pc[i]];
    if s.pc[i].Done? || s.pc[i].Failed? {
      ExecOver(p, s, i);
    } else {
      ExecCheck(p, s, i);
    }
  }

  /** A step that writes no cell, and that may end at the start of the update. */
  ghost predicate OnlySynchronises<T>(p: Problem<T>, s: State<T>, s': State<T>, i: nat)
    requires i < |s.pc| && i < |s'.pc|
  {
    && s'.iter == s.iter && s'.u1 == s.u1 && s'.u2 == s.u2 && s'.pc == s.pc[i := s'.pc[i]]
    && !s'.pc[i].PutRes? && !s'.pc[i].Sum? && !s'.pc[i].Post?
    && (s'.pc[i].Update? ==> s'.pc[i] == Update(Lo(p, i), 1, []))
  }

  lemma MarkWrites<T>(p: Problem<T>, s: State<T>, i: nat)
    requires p.Valid() && Shape(p, s) && i < p.n
    requires || s.pc[i].PutRes? || s.pc[i].PutFlag? || s.pc[i].Scan?
             || s.pc[i].Lock? || s.pc[i].TestDone? || s.pc[i].SetDone?
    ensures OnlySynchronises(p, s, Exec(p, s, i), i)
  {
    hide Exec, Shape;
    Sizes(p, s);
    PlaceShape(p, s, i);
    assert s.pc == s.pc[i := s.pc[i]];
    if s.pc[i].PutRes? || s.pc[i].PutFlag? || s.pc[i].Scan? {
      ExecMark(p, s, i);
    } else {
      ExecClaim(p, s, i);
    }
  }

  lemma ReduceWrites<T>(p: Problem<T>, s: State<T>, i: nat)
    requires p.Valid() && Shape(p, s) && i < p.n && (Reducing(s.pc[i]) || s.pc[i].TestTol? || Changing(s.pc[i]))
    ensures OnlySynchronises(p, s, Exec(p, s, i), i)
  {
    hide Exec, Shape;
    Sizes(p, s);
    PlaceShape(p, s, i);
    assert s.pc == s.pc[i := s.pc[i]];
    if Reducing(s.pc[i]) {
      ExecReduce(p, s, i);
    } else {
      ExecStop(p, s, i);
    }
  }

  lemma DataSync<T>(p: Problem<T>, s: State<T>, i: nat)
    requires p.Valid() && SkewInv(p, s) && DataInv(p, s) && i < p.n && InTask(s.pc[i])
    requires !s.pc[i].Sum? && !s.pc[i].Update? && !s.pc[i].Post?
    ensures DataInv(p, Exec(p, s, i))
  {
    hide Exec, Iterate, LocalSum, PcShape;
    var s' := Exec(p, s, i);
    if Reducing(s.pc[i]) || s.pc[i].TestTol? || Changing(s.pc[i]) {
      ReduceWrites(p, s, i);
    } else {
      MarkWrites(p, s, i);
    }
    forall r: nat, c: nat | Interior(p, r, c) && Owner(p, r) == i
      ensures !Written(s'.pc[i], r, c)
    {
      BandOfTask(p, i, r);
    }
    CellsUnchanged(p, s, s', i);
  }

  lemma DataStep<T>(p: Problem<T>, s: State<T>, i: nat)
    requires p.Valid() && SkewInv(p, s) && DataInv(p, s) && i < p.n
    ensures DataInv(p, Exec(p, s, i))
  {
    if s.pc[i].Sum? {
      DataSum(p, s, i);
      assert Exec(p, s, i) == StepSum(p, s, i);
    } else if s.pc[i].Update? {
      assert PcShape(p, i, s.pc[i]);
      if InLoop(p, i, s.pc[i].r) && |s.pc[i].regs| == 4 {
        DataWrite(p, s, i);
        assert Exec(p, s, i) == StepUpdate(p, s, i);
      } else {
        DataRead(p, s, i);
      }
    } else if s.pc[i].Post? {
      DataPost(p, s, i);
    } else if InTask(s.pc[i]) {
      DataSync(p, s, i);
    } else {
      DataCheck(p, s, i);
    }
  }
}
