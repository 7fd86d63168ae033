/** The neighbour protocol: what the two separate reads of isPreCondsMet
    guarantee for as long as the call lasts, and how far counters drift apart. */
module Skew {
  import opened Jacobi
  import opened Residual
  import opened Machine

  /** Between passing the check and incrementing the counter. */
  predicate InTask<T>(pc: Pc<T>) {
    !(pc.Idle? || pc.ReadUp? || pc.ReadDown? || pc.Finish? || pc.Done? || pc.Failed?)
  }

  ghost predicate AdjacentOk<T>(p: Problem<T>, s: State<T>, i: nat)
    requires p.Valid() && Shape(p, s) && i + 1 < p.n
  {
    s.iter[i] <= s.iter[i + 1] + 1 && s.iter[i + 1] <= s.iter[i] + 1
  }

  /** A neighbour seen not to be behind stays not behind. */
  ghost predicate SeenOk<T>(p: Problem<T>, s: State<T>, i: nat)
    requires p.Valid() && Shape(p, s) && i < p.n
  {
    && (s.pc[i].ReadDown? ==> Abs(s.pc[i].d1) <= 1)
    && ((s.pc[i].ReadDown? && s.pc[i].d1 <= 0) || InTask(s.pc[i]) ==> i > 0 ==> s.iter[i] <= s.iter[i - 1])
    && (InTask(s.pc[i]) ==> i + 1 < p.n ==> s.iter[i] <= s.iter[i + 1])
    && s.pc[i] != Failed(297)
  }

  ghost predicate SkewInv<T>(p: Problem<T>, s: State<T>)
    requires p.Valid()
  {
    && Shape(p, s)
    && (forall i: nat | i + 1 < p.n :: AdjacentOk(p, s, i))
    && (forall i: nat | i < p.n :: SeenOk(p, s, i))
  }

  lemma SkewInit<T>(p: Problem<T>)
    requires p.Valid()
    ensures SkewInv(p, Init(p))
  {
  }

  /** What a step does as far as the counters are concerned. */
  ghost predicate Kind<T>(p: Problem<T>, s: State<T>, s': State<T>, i: nat)
    requires p.Valid() && Shape(p, s) && Shape(p, s') && i < p.n
  {
    var pc, pc' := s.pc[i], s'.pc[i];
    && s'.pc == s.pc[i := pc']
    && s'.iter == (if pc.Post? then s.iter[i := s.iter[i] + 1] else s.iter)
    && (InTask(pc) && !pc.Post? ==> InTask(pc') || pc' == Failed(882))
    && (InTask(pc') ==> InTask(pc) || pc.ReadDown?)
    && (pc'.ReadDown? ==> pc.ReadUp? && pc'.d1 == UpDiff(s, i))
    && (pc.ReadDown? && InTask(pc') ==> PreCondsMet(pc.d1, DownDiff(s, i)))
    && (pc' == Failed(297) ==> pc == pc' || (pc.ReadDown? && (Abs(pc.d1) > 1 || Abs(DownDiff(s, i)) > 1)))
  }

  lemma StepKindCheck<T>(p: Problem<T>, s: State<T>, i: nat)
    requires p.Valid() && Shape(p, s) && i < p.n && (!InTask(s.pc[i]) || s.pc[i].Post?)
    ensures Kind(p, s, Exec(p, s, i), i)
  {
    assert s.pc == s.pc[i := s.pc[i]];
  }

  lemma StepKindSolve<T>(p: Problem<T>, s: State<T>, i: nat)
    requires p.Valid() && Shape(p, s) && i < p.n && (s.pc[i].Sum? || s.pc[i].Update?)
    ensures Kind(p, s, Exec(p, s, i), i)
  {
  }

  lemma StepKindSync<T>(p: Problem<T>, s: State<T>, i: nat)
    requires p.Valid() && Shape(p, s) && i < p.n
    requires InTask(s.pc[i]) && !s.pc[i].Post? && !s.pc[i].Sum? && !s.pc[i].Update?
    ensures Kind(p, s, Exec(p, s, i), i)
  {
    assert s.pc == s.pc[i := s.pc[i]];
  }

  lemma StepKind<T>(p: Problem<T>, s: State<T>, i: nat)
    requires p.Valid() && Shape(p, s) && i < p.n
    ensures Kind(p, s, Exec(p, s, i), i)
  {
    if !InTask(s.pc[i]) || s.pc[i].Post? {
      StepKindCheck(p, s, i);
    } else if s.pc[i].Sum? || s.pc[i].Update? {
      StepKindSolve(p, s, i);
    } else {
      StepKindSync(p, s, i);
    }
  }

  lemma SkewStep<T>(p: Problem<T>, s: State<T>, i: nat)
    requires p.Valid() && SkewInv(p, s) && i < p.n
    ensures SkewInv(p, Exec(p, s, i))
  {
    var s' := Exec(p, s, i);
    StepKind(p, s, i);
    assert SeenOk(p, s, i);
    if i > 0 {
      assert AdjacentOk(p, s, i - 1);
    }
    if i + 1 < p.n {
      assert AdjacentOk(p, s, i);
    }
    forall j: nat | j + 1 < p.n
      ensures AdjacentOk(p, s', j)
    {
      assert AdjacentOk(p, s, j);
    }
    forall j: nat | j < p.n
      ensures SeenOk(p, s', j)
    {
      assert SeenOk(p, s, j);
    }
  }

  /** Chain skew: counters differ by at most the distance of the tasks. */
  lemma {:induction false} ChainSkew<T>(p: Problem<T>, s: State<T>, i: nat, j: nat)
    requires p.Valid() && SkewInv(p, s) && i <= j < p.n
    ensures s.iter[i] <= s.iter[j] + (j - i) && s.iter[j] <= s.iter[i] + (j - i)
  {
    if i < j {
      ChainSkew(p, s, i, j - 1);
      assert AdjacentOk(p, s, j - 1);
    }
  }
}
