/** Residual-driven stopping: the iteration at which a run ends is a property of
    the problem, not of the schedule. */
module Stopping {
  import opened Jacobi
  import opened Residual
  import opened Machine
  import opened Skew
  import opened Refinement
  import opened Ring
  import opened Reduction

  /** The iteration at which the solver stops: the limit if no earlier residual is
      below the tolerance, otherwise n after the first one that is, provided
      that is within the limit. */
  ghost predicate StopsAt<T>(p: Problem<T>, last: nat)
    requires p.Valid()
  {
    && p.limit >= 1
    && ((last == p.limit && forall k: nat | k < p.limit :: !p.below(Norm(p, k)))
        || (p.n <= last <= p.limit && FirstBelow(p, last - p.n)))
  }

  lemma StopsAtUnique<T>(p: Problem<T>, last: nat, last': nat)
    requires p.Valid() && StopsAt(p, last) && StopsAt(p, last')
    ensures last == last'
  {
  }

  /** The first of m iterations below the tolerance, if there is one. */
  lemma {:induction false} FirstOrNone<T>(p: Problem<T>, m: nat) returns (k: nat)
    requires p.Valid()
    ensures k <= m && (forall j: nat | j < k :: !p.below(Norm(p, j))) && (k < m ==> FirstBelow(p, k))
  {
    if m == 0 {
      k := 0;
    } else {
      k := FirstOrNone(p, m - 1);
      if k == m - 1 && !p.below(Norm(p, m - 1)) {
        k := m;
      }
    }
  }

  /** The reducer has not yet tested what it computed. */
  predicate Fresh<T>(pc: Pc<T>) {
    pc.Print? || pc.PubRes? || pc.PubIter? || pc.Unmark? || pc.TestTol?
  }

  ghost predicate NoticedOk<T>(p: Problem<T>, s: State<T>, b: nat)
    requires p.Valid() && Shape(p, s) && b < p.n
  {
    p.below(s.gres[b]) && !s.term ==>
      Fresh(s.pc[b]) && s.gres[b] == Norm(p, s.iter[b]) && AllSet(p, s, s.iter[b])
  }

  ghost predicate ReportedOk<T>(p: Problem<T>, s: State<T>, t: nat)
    requires p.Valid() && Shape(p, s) && t < |s.log| && s.log[t].task < p.n
  {
    p.below(s.log[t].res) && !s.term ==>
      s.iter[s.log[t].task] == s.log[t].iter && Fresh(s.pc[s.log[t].task]) && !s.pc[s.log[t].task].Print?
      && s.gres[s.log[t].task] == s.log[t].res
  }

  // ----- for every problem: small residuals are noticed by the task that computed them -----

  ghost predicate NoticeInv<T>(p: Problem<T>, s: State<T>)
    requires p.Valid() && Shape(p, s)
  {
    && (forall b: nat | b < p.n :: NoticedOk(p, s, b))
    && (forall t: nat | t < |s.log| :: s.log[t].task < p.n && ReportedOk(p, s, t))
  }

  /** Which steps change the residual a task has computed, or its standing to test it. */
  lemma FreshStep<T>(p: Problem<T>, s: State<T>, i: nat)
    requires p.Valid() && Shape(p, s) && i < p.n
    ensures var s' := Exec(p, s, i);
            && (Fresh(s.pc[i]) && !Fresh(s'.pc[i]) ==> s.pc[i].TestTol? && (p.below(s.gres[i]) ==> s'.term))
            && (s.pc[i].Root? ==> s'.pc[i].Print?)
            && (s'.pc[i].Print? ==> s.pc[i].Root?)
            && (s.pc[i].Root? ==> s'.gres == s.gres[i := p.root(s.pc[i].acc)])
            && (s.pc[i].Print? ==> s'.log == s.log + [Entry(s.iter[i], i, s.gres[i])])
            && (s.term ==> s'.term)
  {
    Frame(p, s, i);
    if Reducing(s.pc[i]) {
      assert Exec(p, s, i) == StepReduce(p, s, i);
    } else if s.pc[i].TestTol? {
      assert Exec(p, s, i) == StepStop(p, s, i);
    }
  }

  lemma NoticeStep<T>(p: Problem<T>, s: State<T>, i: nat)
    requires p.Valid() && SkewInv(p, s) && RingInv(p, s) && ReduceInv(p, s) && NoticeInv(p, s) && i < p.n
    ensures NoticeInv(p, Exec(p, s, i))
  {
    hide Exec, Norm;
    var s' := Exec(p, s, i);
    Frame(p, s, i);
    StepKind(p, s, i);
    SetStays(p, s, i);
    FreshStep(p, s, i);
    assert ClaimOk(p, s, i) && SumOk(p, s, i) && NoticedOk(p, s, i);
    RootIsNorm(p, s, i);
    forall b: nat | b < p.n
      ensures NoticedOk(p, s', b)
    {
      assert NoticedOk(p, s, b);
    }
    forall t: nat | t < |s'.log|
      ensures s'.log[t].task < p.n && ReportedOk(p, s', t)
    {
      if t < |s.log| {
        assert ReportedOk(p, s, t);
      }
    }
  }

  lemma RootIsNorm<T>(p: Problem<T>, s: State<T>, i: nat)
    requires p.Valid() && Shape(p, s) && i < p.n && SumOk(p, s, i)
    ensures s.pc[i].Root? ==> p.root(s.pc[i].acc) == Norm(p, s.iter[i])
  {
  }

  /** Whoever sets resTermFlagSet stands at the first iteration below the tolerance. */
  lemma FirstToNotice<T>(p: Problem<T>, s: State<T>, i: nat)
    requires p.Valid() && SkewInv(p, s) && RingInv(p, s) && ReduceInv(p, s) && NoticeInv(p, s)
    requires i < p.n && s.pc[i].TestTol? && p.below(s.gres[i]) && !s.term
    ensures FirstBelow(p, s.iter[i]) && AllSet(p, s, s.iter[i])
  {
    hide Exec, Norm;
    var k := s.iter[i];
    assert NoticedOk(p, s, i);
    forall m: nat | m < k
      ensures !p.below(Norm(p, m))
    {
      forall j | 0 <= j < |s.iter|
        ensures s.iter[j] > m
      {
        assert SetAt(s, j, k);
      }
      assert Passed(s.iter, m) && CoverOk(p, s, m);
      var t: nat :| t < |s.log| && s.log[t].iter == m;
      assert EntryOk(p, s, t) && ReportedOk(p, s, t);
    }
  }

  // ----- for every problem: who may change the limit, and to what -----

  /** Between setting resTermFlagSet and storing the new limit, or stopped by the assert between. */
  predicate Deciding<T>(pc: Pc<T>) {
    Changing(pc) || pc == Failed(882)
  }

  ghost predicate NobodyDecides<T>(s: State<T>) {
    forall b | 0 <= b < |s.pc| :: !Deciding(s.pc[b])
  }

  /** Task b, and no other, is deciding on the limit, at the first iteration below
      the tolerance, to which every task has contributed. */
  ghost predicate Decides<T>(p: Problem<T>, s: State<T>, b: nat)
    requires p.Valid() && Shape(p, s) && b < p.n
  {
    && Deciding(s.pc[b]) && FirstBelow(p, s.iter[b]) && AllSet(p, s, s.iter[b])
    && forall a | 0 <= a < p.n && Deciding(s.pc[a]) :: a == b
  }

  /** The limit has been set from the first iteration below the tolerance. */
  ghost predicate NewLimit<T>(p: Problem<T>, s: State<T>)
    requires p.Valid() && Shape(p, s)
  {
    s.maxIter >= p.n && FirstBelow(p, s.maxIter - p.n) && AllSet(p, s, s.maxIter - p.n)
  }

  ghost predicate TermInv<T>(p: Problem<T>, s: State<T>)
    requires p.Valid() && Shape(p, s)
  {
    if !s.term then s.maxIter == p.limit && NobodyDecides(s)
    else || (NobodyDecides(s) && NewLimit(p, s))
         || (s.maxIter == p.limit && exists b: nat :: b < p.n && Decides(p, s, b))
  }

  /** What one step can do to the flag, to the limit and to who decides on it. */
  ghost predicate LimitFrame<T>(p: Problem<T>, s: State<T>, s': State<T>, i: nat)
    requires p.Valid() && Shape(p, s) && Shape(p, s') && i < p.n
  {
    var pc, pc' := s.pc[i], s'.pc[i];
    if s.term == s'.term then
      if Deciding(pc) && !Deciding(pc') then pc.SetMax? && s'.maxIter == s.iter[i] + p.n
      else Deciding(pc) == Deciding(pc') && s'.maxIter == s.maxIter
    else s'.term && s'.maxIter == s.maxIter && pc.TestTol? && p.below(s.gres[i]) && pc' == MaxScan(0, 0)
  }

  lemma LimitStop<T>(p: Problem<T>, s: State<T>, i: nat)
    requires p.Valid() && Shape(p, s) && i < p.n && (s.pc[i].TestTol? || Changing(s.pc[i]))
    ensures LimitFrame(p, s, Exec(p, s, i), i)
  {
    hide Shape;
    assert Exec(p, s, i) == StepStop(p, s, i);
    Sizes(p, s);
    PlaceShape(p, s, i);
    BandOfTask(p, i, 0);
  }

  lemma LimitElse<T>(p: Problem<T>, s: State<T>, i: nat)
    requires p.Valid() && SkewInv(p, s) && i < p.n && !s.pc[i].TestTol? && !Changing(s.pc[i])
    ensures LimitFrame(p, s, Exec(p, s, i), i)
  {
    hide Exec, Shape;
    SkewStep(p, s, i);
    Frame(p, s, i);
    assert SeenOk(p, Exec(p, s, i), i);
    EndStays(p, s, i);
    Sizes(p, s);
    Sizes(p, Exec(p, s, i));
  }

  lemma EndStays<T>(p: Problem<T>, s: State<T>, i: nat)
    requires p.Valid() && Shape(p, s) && i < p.n
    ensures s.pc[i].Failed? || s.pc[i].Done? ==> Exec(p, s, i).pc[i] == s.pc[i]
    ensures s.pc[i].Post? ==> Exec(p, s, i).pc[i].Finish?
    ensures s.pc[i].ReadDown? && Exec(p, s, i).pc[i].Failed? ==> Exec(p, s, i).pc[i] == Failed(297)
  {
  }

  lemma TermStep<T>(p: Problem<T>, s: State<T>, i: nat)
    requires p.Valid() && SkewInv(p, s) && RingInv(p, s) && ReduceInv(p, s)
    requires NoticeInv(p, s) && TermInv(p, s) && i < p.n
    ensures TermInv(p, Exec(p, s, i))
  {
    hide Exec, Norm, RingInv, ReduceInv, NoticeInv, Shape, Changing, SetAt;
    var s' := Exec(p, s, i);
    Sizes(p, s);
    if s.pc[i].TestTol? || Changing(s.pc[i]) {
      LimitStop(p, s, i);
      if s.pc[i].TestTol? && p.below(s.gres[i]) && !s.term {
        FirstToNotice(p, s, i);
      }
    } else {
      LimitElse(p, s, i);
    }
    Sizes(p, s');
    Frame(p, s, i);
    StepKind(p, s, i);
    SetStays(p, s, i);
    TermMoves(p, s, s', i);
  }

  lemma TermMoves<T>(p: Problem<T>, s: State<T>, s': State<T>, i: nat)
    requires p.Valid() && Shape(p, s) && Shape(p, s') && i < p.n && TermInv(p, s) && LimitFrame(p, s, s', i)
    requires s'.pc == s.pc[i := s'.pc[i]] && (s.pc[i].Post? || s'.iter == s.iter)
    requires s'.term && !s.term ==> FirstBelow(p, s.iter[i]) && AllSet(p, s, s.iter[i])
    requires forall k: nat | AllSet(p, s, k) :: AllSet(p, s', k)
    requires s.pc[i].Post? ==> forall j | 0 <= j < p.n && j != i :: s'.iter[j] == s.iter[j]
    ensures TermInv(p, s')
  {
    hide FirstBelow, AllSet;
    if s'.term && !s.term {
      assert Decides(p, s', i);
    } else if b: nat :| s.term && b < p.n && Decides(p, s, b) {
      if b != i || Deciding(s'.pc[i]) {
        assert Decides(p, s', b);
      }
    }
  }

  // ----- for problems with a stopping iteration: no assert fails -----

  ghost predicate CounterOk<T>(p: Problem<T>, s: State<T>, b: nat)
    requires p.Valid() && Shape(p, s) && b < p.n
  {
    && !s.pc[b].Failed?
    && s.iter[b] <= s.maxIter
    && (!s.pc[b].Finish? && !s.pc[b].Done? ==> s.iter[b] < s.maxIter)
    && (s.pc[b].Done? ==> s.iter[b] == s.maxIter)
  }

  ghost predicate ScanOk<T>(p: Problem<T>, s: State<T>, b: nat, last: nat)
    requires p.Valid() && Shape(p, s) && b < p.n
  {
    s.pc[b].MaxScan? || s.pc[b].MaxTake? ==> s.pc[b].mx < last
  }

  ghost predicate StopInv<T>(p: Problem<T>, s: State<T>, last: nat)
    requires p.Valid() && Shape(p, s)
  {
    && NoticeInv(p, s) && TermInv(p, s) && s.maxIter <= p.limit
    && (forall b: nat | b < p.n :: CounterOk(p, s, b))
    && (forall b: nat | b < p.n :: ScanOk(p, s, b, last))
  }

  lemma StopInit<T>(p: Problem<T>, last: nat)
    requires p.Valid() && StopsAt(p, last)
    ensures StopInv(p, Init(p), last)
  {
  }

  /** The new limit can only be the stopping iteration. */
  lemma OneLimit<T>(p: Problem<T>, k: nat, last: nat)
    requires p.Valid() && StopsAt(p, last) && FirstBelow(p, k) && k < p.limit
    ensures k + p.n == last
  {
    hide Norm;
  }

  lemma StopsWithin<T>(p: Problem<T>, last: nat)
    requires p.Valid() && StopsAt(p, last)
    ensures 1 <= last <= p.limit && p.n >= 2
  {
  }

  /** Every counter is below the new limit while somebody is changing the limit. */
  lemma AllBelow<T>(p: Problem<T>, s: State<T>, i: nat, last: nat)
    requires p.Valid() && SkewInv(p, s) && StopsAt(p, last) && StopInv(p, s, last)
    requires i < p.n && Changing(s.pc[i])
    ensures s.iter[i] + p.n == last <= s.maxIter && FirstBelow(p, s.iter[i]) && s.term
    ensures forall b | 0 <= b < p.n :: s.iter[b] < last && !s.pc[b].Done?
    ensures forall b: nat | b < p.n && Changing(s.pc[b]) :: b == i
  {
    hide StopsAt, FirstBelow, NoticeInv;
    Sizes(p, s);
    assert Deciding(s.pc[i]) && CounterOk(p, s, i);
    var c: nat :| c < p.n && Decides(p, s, c);
    OneLimit(p, s.iter[i], last);
    StopsWithin(p, last);
    forall b | 0 <= b < p.n
      ensures s.iter[b] < last && !s.pc[b].Done?
    {
      CountersLive(p, s, b);
      assert CounterOk(p, s, b);
    }
    forall b: nat | b < p.n && Changing(s.pc[b])
      ensures b == i
    {
      assert Deciding(s.pc[b]);
    }
  }

  /** The limit is the one given or the stopping iteration. */
  lemma LimitValues<T>(p: Problem<T>, s: State<T>, last: nat)
    requires p.Valid() && Shape(p, s) && StopsAt(p, last) && StopInv(p, s, last)
    ensures s.maxIter == p.limit || (s.term && s.maxIter == last)
    ensures last <= s.maxIter
    ensures s.term ==> last >= p.n && FirstBelow(p, last - p.n)
    ensures s.term ==> s.maxIter == last || exists b: nat :: b < p.n && Changing(s.pc[b])
  {
    hide FirstBelow, Shape, StopsAt, NoticeInv;
    StopsWithin(p, last);
    if s.term {
      if b: nat :| b < p.n && Decides(p, s, b) && s.maxIter == p.limit {
        Sizes(p, s);
        assert CounterOk(p, s, b);
        OneLimit(p, s.iter[b], last);
      } else {
        OneLimit(p, s.maxIter - p.n, last);
      }
    }
  }

  lemma StopCounters<T>(p: Problem<T>, s: State<T>, i: nat, last: nat)
    requires p.Valid() && SkewInv(p, s) && StopsAt(p, last) && StopInv(p, s, last) && i < p.n
    ensures Exec(p, s, i).maxIter <= p.limit
    ensures forall b: nat | b < p.n :: CounterOk(p, Exec(p, s, i), b)
  {
    hide Exec, StopsAt, NoticeInv, TermInv, FirstBelow;
    var s' := Exec(p, s, i);
    Frame(p, s, i);
    StepKind(p, s, i);
    SkewStep(p, s, i);
    assert CounterOk(p, s, i) && ScanOk(p, s, i, last) && SeenOk(p, s, i) && SeenOk(p, s', i);
    LimitValues(p, s, last);
    EndStays(p, s, i);
    if Changing(s.pc[i]) {
      AllBelow(p, s, i, last);
    }
    forall b: nat | b < p.n
      ensures CounterOk(p, s', b)
    {
      assert CounterOk(p, s, b);
    }
  }

  /** The scan never comes to a counter that has reached the new limit. */
  lemma ScanStep<T>(p: Problem<T>, s: State<T>, i: nat, last: nat)
    requires p.Valid() && SkewInv(p, s) && StopsAt(p, last) && StopInv(p, s, last) && i < p.n
    ensures forall b: nat | b < p.n :: ScanOk(p, Exec(p, s, i), b, last)
  {
    hide Exec, StopsAt, NoticeInv, TermInv, FirstBelow;
    var s' := Exec(p, s, i);
    Frame(p, s, i);
    Sizes(p, s);
    assert ScanOk(p, s, i, last);
    StopsWithin(p, last);
    if s.pc[i].TestTol? || Changing(s.pc[i]) {
      ScanMoves(p, s, i);
      if s.pc[i].MaxTake? {
        AllBelow(p, s, i, last);
      }
    }
    forall b: nat | b < p.n
      ensures ScanOk(p, s', b, last)
    {
      assert ScanOk(p, s, b, last);
    }
  }

  lemma ScanMoves<T>(p: Problem<T>, s: State<T>, i: nat)
    requires p.Valid() && Shape(p, s) && i < p.n && (s.pc[i].TestTol? || Changing(s.pc[i])) && PcShape(p, i, s.pc[i])
    ensures var pc' := Exec(p, s, i).pc[i];
            pc'.MaxScan? || pc'.MaxTake? ==>
              if s.pc[i].TestTol? then pc'.mx == 0
              else if s.pc[i].MaxTake? then pc'.mx == s.iter[s.pc[i].j]
              else s.pc[i].MaxScan? && pc'.mx == s.pc[i].mx
  {
    hide Shape;
    Sizes(p, s);
    PlaceShape(p, s, i);
    BandOfTask(p, i, 0);
    assert Exec(p, s, i) == StepStop(p, s, i);
  }

  lemma StopStep<T>(p: Problem<T>, s: State<T>, i: nat, last: nat)
    requires p.Valid() && SkewInv(p, s) && RingInv(p, s) && ReduceInv(p, s)
    requires StopsAt(p, last) && StopInv(p, s, last) && i < p.n
    ensures StopInv(p, Exec(p, s, i), last)
  {
    hide Exec, StopsAt, NoticeInv, TermInv, RingInv, ReduceInv, SkewInv, CounterOk, ScanOk;
    NoticeStep(p, s, i);
    TermStep(p, s, i);
    StopCounters(p, s, i, last);
    ScanStep(p, s, i, last);
  }
}
