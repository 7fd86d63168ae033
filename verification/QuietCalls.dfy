/** Calls during which nobody notices a small residual, because one task has not yet
    contributed to the first iteration that has one. */
module QuietCalls {
  import opened Jacobi
  import opened Residual
  import opened Machine
  import opened Skew
  import opened Refinement
  import opened Ring
  import opened Reduction
  import opened Stopping
  import opened Runs
  import opened Solo
  import opened Calls
  import opened Driving
  import opened Resting

  /** No residual of an iteration before k1 is small. */
  ghost predicate NoneBefore<T>(p: Problem<T>, k1: nat)
    requires p.Valid()
  {
    forall k: nat | k < k1 :: !p.below(Norm(p, k))
  }

  ghost predicate QuietTask<T>(p: Problem<T>, s: State<T>, b: nat)
    requires p.Valid() && Shape(p, s) && b < p.n
  {
    !p.below(s.gres[b]) && !Changing(s.pc[b]) && !s.pc[b].Failed?
  }

  ghost predicate Quiet<T>(p: Problem<T>, s: State<T>)
    requires p.Valid() && Shape(p, s)
  {
    !s.term && s.maxIter == p.limit && forall b: nat | b < p.n :: QuietTask(p, s, b)
  }

  lemma RootQuiet<T>(p: Problem<T>, s: State<T>, i: nat, z: nat, k1: nat)
    requires p.Valid() && Shape(p, s) && Inv(p, s) && i < p.n && z < p.n && s.pc[i].Root?
    requires NoneBefore(p, k1) && !SetAt(s, z, k1)
    ensures !p.below(p.root(s.pc[i].acc))
  {
    hide Norm;
    var k := s.iter[i];
    assert SumOk(p, s, i) && ClaimOk(p, s, i) && SetAt(s, z, k);
    assert k < k1;
    NormIsRoot(p, k);
  }

  lemma NormIsRoot<T>(p: Problem<T>, k: nat)
    requires p.Valid()
    ensures Norm(p, k) == p.root(GlobalSum(p, k, p.n))
  {
  }

  /** As long as task z has not contributed to iteration k1, nobody notices. */
  lemma QuietStep<T>(p: Problem<T>, s: State<T>, i: nat, z: nat, k1: nat)
    requires p.Valid() && Shape(p, s) && Inv(p, s) && Quiet(p, s) && i < p.n && z < p.n
    requires NoneBefore(p, k1) && !SetAt(s, z, k1)
    ensures Quiet(p, Exec(p, s, i))
  {
    hide Exec, NoneBefore, Inv;
    var s' := Exec(p, s, i);
    Frame(p, s, i);
    FreshStep(p, s, i);
    if s.pc[i].Root? {
      RootQuiet(p, s, i, z, k1);
    }
    StopQuiet(p, s, i) by { InvSkew(p, s); }
    forall b: nat | b < p.n
      ensures QuietTask(p, s', b)
    {
      assert QuietTask(p, s, b);
    }
  }

  lemma StopQuiet<T>(p: Problem<T>, s: State<T>, i: nat)
    requires p.Valid() && Shape(p, s) && SkewInv(p, s) && Quiet(p, s) && i < p.n
    ensures Exec(p, s, i).term == s.term && Exec(p, s, i).maxIter == s.maxIter
    ensures !Changing(Exec(p, s, i).pc[i])
    ensures !Exec(p, s, i).pc[i].Failed?
  {
    Frame(p, s, i);
    assert QuietTask(p, s, i) && SeenOk(p, s, i);
    if s.pc[i].TestTol? {
      assert Exec(p, s, i) == StepStop(p, s, i);
    } else if s.pc[i].ReadDown? {
      SkewStep(p, s, i);
      StepKind(p, s, i);
      assert SeenOk(p, Exec(p, s, i), i);
      assert Exec(p, s, i) == StepCheck(p, s, i);
    }
  }

  /** Task z stays before its contribution to k1 while task i works. */
  ghost predicate Early<T>(s: State<T>, i: nat, z: nat, k1: nat)
    requires z < |s.iter| && z < |s.pc|
  {
    if i == z then s.iter[z] < k1 else !SetAt(s, z, k1)
  }

  /** Task i is m steps from the end of its call, and nobody has noticed anything. */
  ghost predicate QuietBody<T>(p: Problem<T>, s: State<T>, i: nat, m: nat, z: nat, k1: nat)
    requires p.Valid() && Shape(p, s) && i < p.n && z < p.n
  {
    Inv(p, s) && Quiet(p, s) && MutexFor(s, i) && EndsAfter(p, s, i, m) && (m > 0 ==> Early(s, i, z, k1))
  }

  lemma QuietOnce<T>(p: Problem<T>, s: State<T>, i: nat, m: nat, z: nat, k1: nat)
    requires p.Valid() && Shape(p, s) && i < p.n && z < p.n && NoneBefore(p, k1) && m > 0
    requires QuietBody(p, s, i, m, z, k1)
    ensures QuietBody(p, Exec(p, s, i), i, m - 1, z, k1)
  {
    hide NoneBefore, Inv, Quiet, Exec, Shape;
    Sizes(p, s);
    QuietStep(p, s, i, z, k1);
    StepKeeps(p, s, i);
    CountsOnce(p, s, i);
    Sizes(p, Exec(p, s, i));
    assert EndsAfter(p, Exec(p, s, i), i, m - 1);
    assert m > 1 ==> InTask(Exec(p, s, i).pc[i]);
  }

  lemma {:induction false} QuietAlone<T>(p: Problem<T>, s: State<T>, i: nat, m: nat, z: nat, k1: nat)
    requires p.Valid() && Shape(p, s) && i < p.n && z < p.n && NoneBefore(p, k1) && QuietBody(p, s, i, m, z, k1)
    ensures Quiet(p, Alone(p, s, i, m))
    decreases m
  {
    hide NoneBefore, Inv, Exec, Shape, EndsAfter, Quiet;
    if m > 0 {
      QuietOnce(p, s, i, m, z, k1);
      QuietAlone(p, Exec(p, s, i), i, m - 1, z, k1);
    }
  }

  // ----- whole calls -----

  /** Moving a task to another harmless place. */
  lemma QuietAt<T>(p: Problem<T>, s: State<T>, i: nat, pc: Pc<T>)
    requires p.Valid() && Shape(p, s) && Quiet(p, s) && i < p.n && i < |s.pc| && Shape(p, At(s, i, pc))
    requires !Changing(pc) && !pc.Failed?
    ensures Quiet(p, At(s, i, pc))
  {
    forall b: nat | b < p.n
      ensures QuietTask(p, At(s, i, pc), b)
    {
      assert QuietTask(p, s, b);
    }
  }

  lemma EndedShape<T>(p: Problem<T>, s: State<T>, i: nat)
    requires p.Valid() && Shape(p, s) && i < p.n && s.pc[i].Finish?
    ensures |s.pc| == |s.iter| == p.n && Shape(p, Ended(s, i))
  {
    Sizes(p, s);
    EndedStep(p, s, i);
  }

  lemma NotFailed<T>(p: Problem<T>, s: State<T>, i: nat)
    requires p.Valid() && Shape(p, s) && Quiet(p, s) && i < p.n
    ensures !s.pc[i].Failed?
  {
    assert QuietTask(p, s, i);
  }

  /** A whole call of task i that leaves everything unnoticed. */
  lemma QuietWhole<T>(p: Problem<T>, s: State<T>, i: nat, m: nat, z: nat, k1: nat)
    requires p.Valid() && Shape(p, s) && Inv(p, s) && Quiet(p, s) && i < p.n && z < p.n && NoneBefore(p, k1)
    requires s.pc[i].Idle? && s.mutex.None? && z < |s.iter| && z < |s.pc| && Early(s, i, z, k1)
    requires CallLasts(p, s, i, m)
    ensures Shape(p, AfterCall(p, s, i, m)) && Quiet(p, AfterCall(p, s, i, m))
    ensures !AfterCall(p, s, i, m).pc[i].Failed?
  {
    hide NoneBefore, Inv, Shape, EndsAfter, Quiet, Alone, UpDiff, DownDiff, Ended;
    Sizes(p, s);
    CheckedInv(p, s, i);
    var s1 := Checked(p, s, i);
    QuietAt(p, s, i, s1.pc[i]);
    var s2 := s1;
    if !s1.pc[i].Finish? {
      QuietAlone(p, s1, i, m, z, k1);
      s2 := Alone(p, s1, i, m);
      NotFailed(p, s2, i);
      BodyEnds(p, s1, i, m);
    }
    EndedShape(p, s2, i);
    EndedIsAt(p, s2, i);
    NotFailed(p, AfterCall(p, s, i, m), i);
  }

  lemma EndedIsAt<T>(p: Problem<T>, s: State<T>, i: nat)
    requires p.Valid() && Shape(p, s) && i < p.n && |s.pc| == |s.iter| == p.n && Quiet(p, s) && s.pc[i].Finish?
    ensures Shape(p, Ended(s, i)) && Quiet(p, Ended(s, i))
  {
    hide Shape, Quiet;
    EndedShape(p, s, i);
    QuietAt(p, s, i, Ended(s, i).pc[i]);
  }
}
