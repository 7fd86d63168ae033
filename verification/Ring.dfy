/** The residual ring: syncResidual reuses n slots of flags, residuals and done
    bits while tasks are at different iterations. */
module Ring {
  import opened Jacobi
  import opened Residual
  import opened Machine
  import opened Skew
  import opened Refinement

  // ----- which iterations a slot can stand for -----

  /** Every task has left iteration k. */
  ghost predicate Passed(iter: seq<nat>, k: nat) {
    forall i | 0 <= i < |iter| :: iter[i] > k
  }

  /** Iterations between the slowest counter and n beyond it. */
  ghost predicate Live(iter: seq<nat>, k: nat) {
    !Passed(iter, k) && forall i | 0 <= i < |iter| :: k < iter[i] + |iter|
  }

  lemma LiveSlots(n: nat, iter: seq<nat>, k: nat, k': nat)
    requires n >= 1 && |iter| == n && Live(iter, k) && Live(iter, k') && Slot(n, k) == Slot(n, k')
    ensures k == k'
  {
    if k <= k' {
      SlotsApart(n, k, k');
    } else {
      SlotsApart(n, k', k);
    }
  }

  lemma CountersLive<T>(p: Problem<T>, s: State<T>, i: nat)
    requires p.Valid() && SkewInv(p, s) && i < p.n
    ensures Live(s.iter, s.iter[i])
  {
    forall j | 0 <= j < |s.iter|
      ensures s.iter[i] < s.iter[j] + p.n
    {
      ChainSkew(p, s, if i < j then i else j, if i < j then j else i);
    }
  }

  // ----- how far a task has come in an iteration -----

  predicate PastFlag<T>(pc: Pc<T>) {
    (InTask(pc) && !pc.Sum? && !pc.PutRes? && !pc.PutFlag?) || (pc.Failed? && pc.line == 882)
  }

  /** Task j has set its flag for iteration k. */
  ghost predicate SetAt<T>(s: State<T>, j: nat, k: nat)
    requires j < |s.iter| && j < |s.pc|
  {
    s.iter[j] > k || (s.iter[j] == k && PastFlag(s.pc[j]))
  }

  ghost predicate AllSet<T>(p: Problem<T>, s: State<T>, k: nat)
    requires p.Valid() && Shape(p, s)
  {
    forall j: nat | j < p.n :: SetAt(s, j, k)
  }

  ghost predicate Flag(n: nat, flags: seq<seq<bool>>, j: nat, k: nat)
    requires n >= 1 && j < n && |flags| == n && forall i | 0 <= i < n :: |flags[i]| == n
  {
    flags[j][Slot(n, k)]
  }

  ghost predicate Logged<T>(log: seq<Entry<T>>, k: nat) {
    exists t: nat :: t < |log| && log[t].iter == k
  }

  /** A task that has seen all flags it has looked at so far, or all of them. */
  predicate Hopeful<T>(pc: Pc<T>) {
    (pc.Scan? && pc.count == pc.j) || pc.Lock? || pc.TestDone? || pc.SetDone?
  }

  /** How many flags the reducer has reset. */
  function Cleared<T>(p: Problem<T>, pc: Pc<T>): nat {
    match pc
    case Reduce(j, _) => j
    case Clear(j, _) => j
    case _ => p.n
  }

  // ----- the invariant -----

  ghost predicate FlagOk<T>(p: Problem<T>, s: State<T>, j: nat, k: nat)
    requires p.Valid() && Shape(p, s) && j < p.n
  {
    Live(s.iter, k) ==>
      && (Flag(p.n, s.flags, j, k) ==> SetAt(s, j, k))
      && (SetAt(s, j, k) && !AllSet(p, s, k) ==> Flag(p.n, s.flags, j, k))
  }

  ghost predicate HoldsSlot<T>(p: Problem<T>, s: State<T>, b: nat, sl: nat)
    requires p.Valid() && Shape(p, s) && b < p.n
  {
    Reducing(s.pc[b]) && Slot(p.n, s.iter[b]) == sl
  }

  ghost predicate DoneOk<T>(p: Problem<T>, s: State<T>, sl: nat)
    requires p.Valid() && Shape(p, s) && sl < p.n
  {
    s.done[sl] ==> exists b: nat :: b < p.n && HoldsSlot(p, s, b, sl)
  }

  ghost predicate ClaimOk<T>(p: Problem<T>, s: State<T>, b: nat)
    requires p.Valid() && Shape(p, s) && b < p.n
  {
    var pc, k := s.pc[b], s.iter[b];
    && (pc.Scan? && pc.count == pc.j ==> forall j: nat | j < pc.j && j < p.n :: SetAt(s, j, k))
    && (pc.Lock? || pc.TestDone? || pc.SetDone? || Reducing(pc) ==> AllSet(p, s, k))
    && (pc.TestDone? || pc.SetDone? <==> s.mutex == Some(b))
    && (pc.SetDone? ==> !s.done[Slot(p.n, k)])
    && (Reducing(pc) ==> s.done[Slot(p.n, k)])
    && (pc.PubRes? || pc.PubIter? || pc.Unmark? ==> Logged(s.log, k))
    && (Reducing(pc) ==> forall j: nat | j < Cleared(p, pc) && j < p.n :: !Flag(p.n, s.flags, j, k))
  }

  ghost predicate Apart<T>(p: Problem<T>, s: State<T>, b: nat, b': nat)
    requires p.Valid() && Shape(p, s) && b < p.n && b' < p.n
  {
    Reducing(s.pc[b]) && Reducing(s.pc[b']) ==> b == b'
  }

  ghost predicate ReducerAt<T>(s: State<T>, b: nat, k: nat)
    requires b < |s.iter| && b < |s.pc|
  {
    s.iter[b] == k && Reducing(s.pc[b])
  }

  ghost predicate HopefulAt<T>(s: State<T>, b: nat, k: nat)
    requires b < |s.iter| && b < |s.pc|
  {
    s.iter[b] == k && Hopeful(s.pc[b])
  }

  ghost predicate ReducedOrWillBe<T>(p: Problem<T>, s: State<T>, k: nat)
    requires p.Valid() && Shape(p, s)
  {
    || (exists b: nat :: b < p.n && ReducerAt(s, b, k))
    || ((exists b: nat :: b < p.n && HopefulAt(s, b, k)) && forall j: nat | j < p.n :: Flag(p.n, s.flags, j, k))
    || (Logged(s.log, k) && forall j: nat | j < p.n :: !Flag(p.n, s.flags, j, k))
  }

  ghost predicate CoverOk<T>(p: Problem<T>, s: State<T>, k: nat)
    requires p.Valid() && Shape(p, s)
  {
    && (Live(s.iter, k) && AllSet(p, s, k) ==> ReducedOrWillBe(p, s, k))
    && (Passed(s.iter, k) ==> Logged(s.log, k))
  }

  ghost predicate RingInv<T>(p: Problem<T>, s: State<T>)
    requires p.Valid() && Shape(p, s)
  {
    && (forall j: nat, k: nat | j < p.n :: FlagOk(p, s, j, k))
    && (forall sl: nat | sl < p.n :: DoneOk(p, s, sl))
    && (forall b: nat | b < p.n :: ClaimOk(p, s, b))
    && (forall b: nat, b': nat | b < p.n && b' < p.n :: Apart(p, s, b, b'))
    && (forall k: nat :: CoverOk(p, s, k))
    && (s.mutex.Some? ==> s.mutex.value < p.n)
  }

  lemma RingInit<T>(p: Problem<T>)
    requires p.Valid()
    ensures RingInv(p, Init(p))
  {
    var s := Init(p);
    forall k: nat
      ensures CoverOk(p, s, k)
    {
      assert !SetAt(s, 0, k);
      assert s.iter[0] == 0;
    }
  }

  // ----- steps -----

  /** What a step keeps when it changes no counter, flag or done bit. */
  lemma Keep<T>(p: Problem<T>, s: State<T>, s': State<T>, i: nat)
    requires p.Valid() && Shape(p, s) && Shape(p, s') && RingInv(p, s) && i < p.n
    requires s'.pc == s.pc[i := s'.pc[i]] && PastFlag(s.pc[i]) == PastFlag(s'.pc[i])
    requires s'.iter == s.iter && s'.flags == s.flags && s'.done == s.done && s.log <= s'.log
    requires s'.mutex == s.mutex || (s.mutex in {None, Some(i)} && s'.mutex in {None, Some(i)})
    requires Reducing(s'.pc[i]) == Reducing(s.pc[i]) && ClaimOk(p, s', i)
    requires Hopeful(s.pc[i]) ==>
               || Hopeful(s'.pc[i])
               || (exists j: nat :: j < p.n && !Flag(p.n, s.flags, j, s.iter[i]))
               || (exists b: nat :: b < p.n && ReducerAt(s, b, s.iter[i]))
    ensures RingInv(p, s')
  {
    hide PcShape;
    SameSet(p, s, s');
    forall j: nat, k: nat | j < p.n
      ensures FlagOk(p, s', j, k)
    {
      assert FlagOk(p, s, j, k);
    }
    forall sl: nat | sl < p.n
      ensures DoneOk(p, s', sl)
    {
      assert DoneOk(p, s, sl);
      if s.done[sl] {
        var b: nat :| b < p.n && HoldsSlot(p, s, b, sl);
        assert HoldsSlot(p, s', b, sl);
      }
    }
    LogGrows(s.log, s'.log);
    forall b: nat | b < p.n
      ensures ClaimOk(p, s', b)
    {
      assert ClaimOk(p, s, b);
    }
    forall b: nat, b': nat | b < p.n && b' < p.n
      ensures Apart(p, s', b, b')
    {
      assert Apart(p, s, b, b');
    }
    forall k: nat
      ensures CoverOk(p, s', k)
    {
      assert CoverOk(p, s, k);
      StillCovered(p, s, s', i, k);
    }
  }

  lemma LogGrows<T>(log: seq<Entry<T>>, log': seq<Entry<T>>)
    requires log <= log'
    ensures forall k: nat | Logged(log, k) :: Logged(log', k)
  {
    forall k: nat | Logged(log, k)
      ensures Logged(log', k)
    {
      var t: nat :| t < |log| && log[t].iter == k;
      assert log'[t].iter == k;
    }
  }

  lemma StillCovered<T>(p: Problem<T>, s: State<T>, s': State<T>, i: nat, k: nat)
    requires p.Valid() && Shape(p, s) && Shape(p, s') && i < p.n
    requires s'.pc == s.pc[i := s'.pc[i]] && s'.iter == s.iter && s'.flags == s.flags && s.log <= s'.log
    requires Reducing(s.pc[i]) == Reducing(s'.pc[i])
    requires Hopeful(s.pc[i]) ==>
               || Hopeful(s'.pc[i])
               || (exists j: nat :: j < p.n && !Flag(p.n, s.flags, j, s.iter[i]))
               || (exists b: nat :: b < p.n && ReducerAt(s, b, s.iter[i]))
    ensures ReducedOrWillBe(p, s, k) ==> ReducedOrWillBe(p, s', k)
  {
    hide PcShape;
    LogGrows(s.log, s'.log);
    if b: nat :| b < p.n && ReducerAt(s, b, k) {
      assert ReducerAt(s', b, k);
    } else if b: nat :| b < p.n && HopefulAt(s, b, k) {
      if b != i || Hopeful(s'.pc[i]) {
        assert HopefulAt(s', b, k);
      }
    }
  }

  /** Steps outside the ring. */
  predicate Calm<T>(pc: Pc<T>) {
    !(pc.Scan? || pc.Lock? || pc.TestDone? || pc.SetDone? || Reducing(pc))
  }

  ghost predicate OutsideRing<T>(s: State<T>, s': State<T>, i: nat)
    requires i < |s.pc| && i < |s'.pc|
  {
    && s'.pc == s.pc[i := s'.pc[i]] && Calm(s'.pc[i]) && PastFlag(s'.pc[i]) == PastFlag(s.pc[i])
    && s'.iter == s.iter && s'.flags == s.flags && s'.done == s.done && s'.mutex == s.mutex && s'.log == s.log
  }

  lemma QuietCheck<T>(p: Problem<T>, s: State<T>, i: nat)
    requires p.Valid() && Shape(p, s) && i < p.n && !InTask(s.pc[i])
    ensures OutsideRing(s, Exec(p, s, i), i)
  {
    hide Exec, Shape;
    Sizes(p, s);
    assert s.pc == s.pc[i := s.pc[i]];
    if s.pc[i].Done? || s.pc[i].Failed? {
      ExecOver(p, s, i);
    } else {
      ExecCheck(p, s, i);
    }
  }

  lemma QuietSum<T>(p: Problem<T>, s: State<T>, i: nat)
    requires p.Valid() && Shape(p, s) && i < p.n && (s.pc[i].Sum? || s.pc[i].PutRes?)
    ensures OutsideRing(s, Exec(p, s, i), i)
  {
    hide Exec, Shape, Read;
    Sizes(p, s);
    if s.pc[i].Sum? {
      ExecSum(p, s, i);
    } else {
      ExecMark(p, s, i);
    }
  }

  lemma QuietUpdate<T>(p: Problem<T>, s: State<T>, i: nat)
    requires p.Valid() && Shape(p, s) && i < p.n && s.pc[i].Update?
    ensures OutsideRing(s, Exec(p, s, i), i)
  {
    hide Exec, Shape, Read;
    Sizes(p, s);
    ExecUpdate(p, s, i);
  }

  lemma QuietStop<T>(p: Problem<T>, s: State<T>, i: nat)
    requires p.Valid() && Shape(p, s) && i < p.n && (s.pc[i].TestTol? || Changing(s.pc[i]))
    ensures OutsideRing(s, Exec(p, s, i), i)
  {
    hide Exec, Shape;
    Sizes(p, s);
    assert s.pc == s.pc[i := s.pc[i]];
    ExecStop(p, s, i);
  }

  lemma RingQuiet<T>(p: Problem<T>, s: State<T>, i: nat)
    requires p.Valid() && Shape(p, s) && RingInv(p, s) && i < p.n
    requires Calm(s.pc[i]) && !s.pc[i].PutFlag? && !s.pc[i].Post?
    ensures RingInv(p, Exec(p, s, i))
  {
    hide Exec, PcShape;
    var s' := Exec(p, s, i);
    if !InTask(s.pc[i]) {
      QuietCheck(p, s, i);
    } else if s.pc[i].Sum? || s.pc[i].PutRes? {
      QuietSum(p, s, i);
    } else if s.pc[i].Update? {
      QuietUpdate(p, s, i);
    } else {
      QuietStop(p, s, i);
    }
    assert ClaimOk(p, s, i);
    Keep(p, s, s', i);
  }

  lemma RingScan<T>(p: Problem<T>, s: State<T>, i: nat)
    requires p.Valid() && SkewInv(p, s) && RingInv(p, s) && i < p.n && s.pc[i].Scan?
    ensures RingInv(p, Exec(p, s, i))
  {
    hide Exec, CursorOk;
    var s' := Exec(p, s, i);
    ExecMark(p, s, i);
    var Scan(j, count) := s.pc[i];
    assert PcShape(p, i, s.pc[i]) && ClaimOk(p, s, i);
    CountersLive(p, s, i);
    if j < p.n {
      assert FlagOk(p, s, j, s.iter[i]);
      assert s.flags[j][Slot(p.n, s.iter[i])] == Flag(p.n, s.flags, j, s.iter[i]);
    }
    SameSet(p, s, s');
    Keep(p, s, s', i);
  }

  lemma RingLock<T>(p: Problem<T>, s: State<T>, i: nat)
    requires p.Valid() && SkewInv(p, s) && RingInv(p, s) && i < p.n && s.pc[i].Lock?
    ensures RingInv(p, Exec(p, s, i))
  {
    hide Exec, PcShape;
    var s' := Exec(p, s, i);
    ExecClaim(p, s, i);
    assert s.pc == s.pc[i := s.pc[i]];
    assert ClaimOk(p, s, i);
    SameSet(p, s, s');
    Keep(p, s, s', i);
  }

  /** A done bit that is set was set by somebody who is reducing the same iteration. */
  lemma SetByReducer<T>(p: Problem<T>, s: State<T>, i: nat)
    requires p.Valid() && SkewInv(p, s) && RingInv(p, s) && i < p.n && s.done[Slot(p.n, s.iter[i])]
    ensures exists b: nat :: b < p.n && ReducerAt(s, b, s.iter[i])
  {
    hide Exec, PcShape;
    var sl := Slot(p.n, s.iter[i]);
    assert DoneOk(p, s, sl);
    var b: nat :| b < p.n && HoldsSlot(p, s, b, sl);
    CountersLive(p, s, i);
    CountersLive(p, s, b);
    LiveSlots(p.n, s.iter, s.iter[i], s.iter[b]);
    assert ReducerAt(s, b, s.iter[i]);
  }

  lemma RingTestDone<T>(p: Problem<T>, s: State<T>, i: nat)
    requires p.Valid() && SkewInv(p, s) && RingInv(p, s) && i < p.n && s.pc[i].TestDone?
    ensures RingInv(p, Exec(p, s, i))
  {
    hide Exec, PcShape;
    var s' := Exec(p, s, i);
    ExecClaim(p, s, i);
    assert ClaimOk(p, s, i);
    SameSet(p, s, s');
    if s.done[Slot(p.n, s.iter[i])] {
      SetByReducer(p, s, i);
    }
    Keep(p, s, s', i);
  }

  /** Steps of the reduction that touch no flag, no done bit and no output line. */
  lemma RingReduce<T>(p: Problem<T>, s: State<T>, i: nat)
    requires p.Valid() && SkewInv(p, s) && RingInv(p, s) && i < p.n && s.pc[i].Reduce?
    ensures RingInv(p, Exec(p, s, i))
  {
    hide Exec, PcShape;
    var s' := Exec(p, s, i);
    PlaceShape(p, s, i);
    ReduceMoves(p, s, i);
    assert ClaimOk(p, s, i);
    SameSet(p, s, s');
    Keep(p, s, s', i);
  }

  lemma ReduceMoves<T>(p: Problem<T>, s: State<T>, i: nat)
    requires p.Valid() && Shape(p, s) && i < p.n && s.pc[i].Reduce?
    ensures var s' := Exec(p, s, i);
            && s'.pc == s.pc[i := s'.pc[i]] && s'.iter == s.iter && s'.flags == s.flags && s'.done == s.done
            && s'.log == s.log && s'.mutex == s.mutex && s.pc[i].j <= p.n
            && (if s.pc[i].j < p.n then s'.pc[i].Clear? && s'.pc[i].j == s.pc[i].j else s'.pc[i].Root?)
  {
    hide Exec;
    PlaceShape(p, s, i);
    ExecReduce(p, s, i);
  }

  lemma RingPublish<T>(p: Problem<T>, s: State<T>, i: nat)
    requires p.Valid() && SkewInv(p, s) && RingInv(p, s) && i < p.n
    requires s.pc[i].Root? || s.pc[i].PubRes? || s.pc[i].PubIter?
    ensures RingInv(p, Exec(p, s, i))
  {
    hide Exec, PcShape;
    var s' := Exec(p, s, i);
    PublishMoves(p, s, i);
    assert ClaimOk(p, s, i);
    SameSet(p, s, s');
    Keep(p, s, s', i);
  }

  lemma PublishMoves<T>(p: Problem<T>, s: State<T>, i: nat)
    requires p.Valid() && Shape(p, s) && i < p.n && (s.pc[i].Root? || s.pc[i].PubRes? || s.pc[i].PubIter?)
    ensures var s' := Exec(p, s, i);
            && s'.pc == s.pc[i := s'.pc[i]] && s'.iter == s.iter && s'.flags == s.flags && s'.done == s.done
            && s'.log == s.log && s'.mutex == s.mutex
            && s'.pc[i] == if s.pc[i].Root? then Print else if s.pc[i].PubRes? then PubIter else Unmark
  {
    hide Exec;
    ExecReduce(p, s, i);
  }

  lemma SameSet<T>(p: Problem<T>, s: State<T>, s': State<T>)
    requires p.Valid() && Shape(p, s) && Shape(p, s')
    requires s'.iter == s.iter && forall j | 0 <= j < p.n :: PastFlag(s'.pc[j]) == PastFlag(s.pc[j])
    ensures forall j: nat, k: nat | j < p.n :: SetAt(s', j, k) == SetAt(s, j, k)
    ensures forall k: nat :: AllSet(p, s', k) == AllSet(p, s, k)
  {
    forall k: nat
      ensures AllSet(p, s', k) == AllSet(p, s, k)
    {
      assert forall j: nat | j < p.n :: SetAt(s', j, k) == SetAt(s, j, k);
    }
  }

  // ----- the steps that change the ring -----

  lemma RingPutFlag<T>(p: Problem<T>, s: State<T>, i: nat)
    requires p.Valid() && SkewInv(p, s) && RingInv(p, s) && i < p.n && s.pc[i].PutFlag?
    ensures RingInv(p, Exec(p, s, i))
  {
    hide Exec, PcShape;
    var s' := Exec(p, s, i);
    ExecMark(p, s, i);
    var m := s.iter[i];
    CountersLive(p, s, i);
    assert !SetAt(s, i, m) && !AllSet(p, s, m);
    forall j: nat, k: nat | j < p.n
      ensures SetAt(s', j, k) <==> SetAt(s, j, k) || (j == i && k == m)
    {
    }
    forall j: nat, k: nat | j < p.n && Live(s.iter, k)
      ensures Flag(p.n, s'.flags, j, k) <==> Flag(p.n, s.flags, j, k) || (j == i && k == m)
    {
      if Slot(p.n, k) == Slot(p.n, m) {
        LiveSlots(p.n, s.iter, k, m);
      }
    }
    forall k: nat | k != m
      ensures AllSet(p, s', k) == AllSet(p, s, k)
    {
      assert forall j: nat | j < p.n :: SetAt(s', j, k) == SetAt(s, j, k);
    }
    forall j: nat, k: nat | j < p.n
      ensures FlagOk(p, s', j, k)
    {
      assert FlagOk(p, s, j, k);
    }
    forall sl: nat | sl < p.n
      ensures DoneOk(p, s', sl)
    {
      assert DoneOk(p, s, sl);
      if s.done[sl] {
        var b: nat :| b < p.n && HoldsSlot(p, s, b, sl);
        assert HoldsSlot(p, s', b, sl);
      }
    }
    forall b: nat | b < p.n
      ensures ClaimOk(p, s', b)
    {
      assert ClaimOk(p, s, b);
      CountersLive(p, s, b);
    }
    forall b: nat, b': nat | b < p.n && b' < p.n
      ensures Apart(p, s', b, b')
    {
      assert Apart(p, s, b, b');
    }
    forall k: nat
      ensures CoverOk(p, s', k)
    {
      assert CoverOk(p, s, k);
      if k == m {
        assert HopefulAt(s', i, m);
        forall j: nat | j < p.n && AllSet(p, s', m)
          ensures Flag(p.n, s'.flags, j, m)
        {
          assert FlagOk(p, s, j, m);
        }
      } else if Live(s.iter, k) && AllSet(p, s, k) {
        CoverMoves(p, s, s', i, k);
      }
    }
  }

  lemma CoverMoves<T>(p: Problem<T>, s: State<T>, s': State<T>, i: nat, k: nat)
    requires p.Valid() && Shape(p, s) && Shape(p, s') && i < p.n
    requires s'.pc == s.pc[i := s'.pc[i]] && s'.iter == s.iter && s.log <= s'.log && k != s.iter[i]
    requires forall j: nat | j < p.n :: Flag(p.n, s'.flags, j, k) == Flag(p.n, s.flags, j, k)
    ensures ReducedOrWillBe(p, s, k) ==> ReducedOrWillBe(p, s', k)
  {
    LogGrows(s.log, s'.log);
    if b: nat :| b < p.n && ReducerAt(s, b, k) {
      assert ReducerAt(s', b, k);
    } else if b: nat :| b < p.n && HopefulAt(s, b, k) {
      assert HopefulAt(s', b, k);
    }
  }

  /** Two tasks that both know an iteration complete are at the same one. */
  lemma SameIteration<T>(p: Problem<T>, s: State<T>, b: nat, b': nat)
    requires p.Valid() && Shape(p, s) && b < p.n && b' < p.n
    requires AllSet(p, s, s.iter[b]) && AllSet(p, s, s.iter[b'])
    ensures s.iter[b] == s.iter[b']
  {
    assert SetAt(s, b', s.iter[b]) && SetAt(s, b, s.iter[b']);
  }

  /** The claim of the done bit: nobody else is reducing, or the bit would be set. */
  lemma RingSetDone<T>(p: Problem<T>, s: State<T>, i: nat)
    requires p.Valid() && SkewInv(p, s) && RingInv(p, s) && i < p.n && s.pc[i].SetDone?
    ensures RingInv(p, Exec(p, s, i))
  {
    hide Exec, PcShape;
    var s' := Exec(p, s, i);
    ExecClaim(p, s, i);
    var m := s.iter[i];
    SameSet(p, s, s');
    assert ClaimOk(p, s, i);
    forall b: nat | b < p.n
      ensures !Reducing(s.pc[b])
    {
      assert ClaimOk(p, s, b);
      if Reducing(s.pc[b]) {
        SameIteration(p, s, b, i);
      }
    }
    forall j: nat, k: nat | j < p.n
      ensures FlagOk(p, s', j, k)
    {
      assert FlagOk(p, s, j, k);
    }
    forall sl: nat | sl < p.n
      ensures DoneOk(p, s', sl)
    {
      assert DoneOk(p, s, sl);
      assert sl == Slot(p.n, m) ==> HoldsSlot(p, s', i, sl);
    }
    forall b: nat | b < p.n
      ensures ClaimOk(p, s', b)
    {
      assert ClaimOk(p, s, b);
    }
    forall b: nat, b': nat | b < p.n && b' < p.n
      ensures Apart(p, s', b, b')
    {
    }
    forall k: nat
      ensures CoverOk(p, s', k)
    {
      assert CoverOk(p, s, k);
      if k == m {
        assert ReducerAt(s', i, m);
      } else {
        CoverMoves(p, s, s', i, k);
      }
    }
  }

  lemma RingClear<T>(p: Problem<T>, s: State<T>, i: nat)
    requires p.Valid() && SkewInv(p, s) && RingInv(p, s) && i < p.n && s.pc[i].Clear?
    ensures RingInv(p, Exec(p, s, i))
  {
    hide Exec, CursorOk;
    var s' := Exec(p, s, i);
    ExecReduce(p, s, i);
    var m := s.iter[i];
    assert PcShape(p, i, s.pc[i]) && ClaimOk(p, s, i);
    SameSet(p, s, s');
    CountersLive(p, s, i);
    forall j: nat, k: nat | j < p.n && Live(s.iter, k)
      ensures Flag(p.n, s'.flags, j, k) <==> Flag(p.n, s.flags, j, k) && !(j == s.pc[i].j && k == m)
    {
      if Slot(p.n, k) == Slot(p.n, m) {
        LiveSlots(p.n, s.iter, k, m);
      }
    }
    forall j: nat, k: nat | j < p.n
      ensures FlagOk(p, s', j, k)
    {
      assert FlagOk(p, s, j, k);
    }
    forall sl: nat | sl < p.n
      ensures DoneOk(p, s', sl)
    {
      assert DoneOk(p, s, sl);
      if s.done[sl] {
        var b: nat :| b < p.n && HoldsSlot(p, s, b, sl);
        assert HoldsSlot(p, s', b, sl);
      }
    }
    forall b: nat | b < p.n
      ensures ClaimOk(p, s', b)
    {
      assert ClaimOk(p, s, b);
      CountersLive(p, s, b);
    }
    forall b: nat, b': nat | b < p.n && b' < p.n
      ensures Apart(p, s', b, b')
    {
      assert Apart(p, s, b, b');
    }
    forall k: nat
      ensures CoverOk(p, s', k)
    {
      assert CoverOk(p, s, k);
      if k == m {
        assert ReducerAt(s', i, m);
      } else if Live(s.iter, k) {
        CoverMoves(p, s, s', i, k);
      }
    }
  }

  lemma RingPrint<T>(p: Problem<T>, s: State<T>, i: nat)
    requires p.Valid() && SkewInv(p, s) && RingInv(p, s) && i < p.n && s.pc[i].Print?
    ensures RingInv(p, Exec(p, s, i))
  {
    hide Exec, PcShape;
    var s' := Exec(p, s, i);
    ExecReduce(p, s, i);
    assert ClaimOk(p, s, i);
    SameSet(p, s, s');
    assert s'.log[|s.log|].iter == s.iter[i];
    Keep(p, s, s', i);
  }

  lemma RingUnmark<T>(p: Problem<T>, s: State<T>, i: nat)
    requires p.Valid() && SkewInv(p, s) && RingInv(p, s) && i < p.n && s.pc[i].Unmark?
    ensures RingInv(p, Exec(p, s, i))
  {
    hide Exec, PcShape;
    var s' := Exec(p, s, i);
    ExecReduce(p, s, i);
    var m := s.iter[i];
    SameSet(p, s, s');
    assert ClaimOk(p, s, i);
    forall j: nat, k: nat | j < p.n
      ensures FlagOk(p, s', j, k)
    {
      assert FlagOk(p, s, j, k);
    }
    forall sl: nat | sl < p.n
      ensures DoneOk(p, s', sl)
    {
      assert DoneOk(p, s, sl);
      if s'.done[sl] {
        var b: nat :| b < p.n && HoldsSlot(p, s, b, sl);
        assert HoldsSlot(p, s', b, sl);
      }
    }
    forall b: nat | b < p.n
      ensures ClaimOk(p, s', b)
    {
      assert ClaimOk(p, s, b) && Apart(p, s, b, i);
    }
    forall b: nat, b': nat | b < p.n && b' < p.n
      ensures Apart(p, s', b, b')
    {
      assert Apart(p, s, b, b');
    }
    forall k: nat
      ensures CoverOk(p, s', k)
    {
      assert CoverOk(p, s, k);
      if k != m {
        CoverMoves(p, s, s', i, k);
      }
    }
  }

  // ----- a slot passes to the next iteration -----

  /** If the slowest counter moves on, iteration m leaves the window and m + n enters. */
  lemma WindowMoves(iter: seq<nat>, i: nat, k: nat)
    requires i < |iter|
    requires Live(iter[i := iter[i] + 1], k) && !Live(iter, k)
    ensures k == iter[i] + |iter| && Passed(iter[i := iter[i] + 1], iter[i])
  {
    var iter' := iter[i := iter[i] + 1];
    var j: nat :| j < |iter| && iter'[j] <= k;
    assert iter[j] <= k;
    var g: nat :| g < |iter| && k >= iter[g] + |iter|;
    assert k < iter'[g] + |iter|;
    forall h | 0 <= h < |iter|
      ensures iter'[h] > iter[i]
    {
      assert k < iter'[h] + |iter|;
    }
  }

  /** When the last task leaves iteration m, it has been reduced and its flags are down. */
  lemma LastOut<T>(p: Problem<T>, s: State<T>, i: nat)
    requires p.Valid() && SkewInv(p, s) && RingInv(p, s) && i < p.n && s.pc[i].Post?
    requires Passed(s.iter[i := s.iter[i] + 1], s.iter[i])
    ensures Logged(s.log, s.iter[i]) && forall j: nat | j < p.n :: !Flag(p.n, s.flags, j, s.iter[i])
  {
    hide PcShape;
    var m := s.iter[i];
    CountersLive(p, s, i);
    forall j: nat | j < p.n
      ensures SetAt(s, j, m) && (j != i ==> s.iter[j] > m)
    {
      assert s.iter[i := m + 1][j] > m;
    }
    assert AllSet(p, s, m) && CoverOk(p, s, m);
  }

  lemma RingPost<T>(p: Problem<T>, s: State<T>, i: nat)
    requires p.Valid() && SkewInv(p, s) && RingInv(p, s) && i < p.n && s.pc[i].Post?
    ensures RingInv(p, Exec(p, s, i))
  {
    hide Exec, PcShape;
    var s' := Exec(p, s, i);
    ExecCheck(p, s, i);
    var m := s.iter[i];
    forall j: nat, k: nat | j < p.n
      ensures SetAt(s', j, k) == SetAt(s, j, k)
    {
    }
    forall k: nat
      ensures AllSet(p, s', k) == AllSet(p, s, k)
    {
      assert forall j: nat | j < p.n :: SetAt(s', j, k) == SetAt(s, j, k);
    }
    if Passed(s'.iter, m) {
      LastOut(p, s, i);
    }
    forall j: nat, k: nat | j < p.n
      ensures FlagOk(p, s', j, k)
    {
      assert FlagOk(p, s, j, k);
      if Live(s'.iter, k) && !Live(s.iter, k) {
        WindowMoves(s.iter, i, k);
        CountersLive(p, s, j);
        assert Slot(p.n, k) == Slot(p.n, m);
        assert Flag(p.n, s.flags, j, k) == Flag(p.n, s.flags, j, m);
      }
    }
    forall sl: nat | sl < p.n
      ensures DoneOk(p, s', sl)
    {
      assert DoneOk(p, s, sl);
      if s.done[sl] {
        var b: nat :| b < p.n && HoldsSlot(p, s, b, sl);
        assert HoldsSlot(p, s', b, sl);
      }
    }
    forall b: nat | b < p.n
      ensures ClaimOk(p, s', b)
    {
      assert ClaimOk(p, s, b);
    }
    forall b: nat, b': nat | b < p.n && b' < p.n
      ensures Apart(p, s', b, b')
    {
      assert Apart(p, s, b, b');
    }
    forall k: nat
      ensures CoverOk(p, s', k)
    {
      assert CoverOk(p, s, k);
      CoverAfterPost(p, s, s', i, k);
    }
  }

  lemma CoverAfterPost<T>(p: Problem<T>, s: State<T>, s': State<T>, i: nat, k: nat)
    requires p.Valid() && SkewInv(p, s) && RingInv(p, s) && i < p.n && s.pc[i].Post?
    requires s' == Exec(p, s, i)
    requires AllSet(p, s', k) == AllSet(p, s, k)
    ensures CoverOk(p, s', k)
  {
    hide Exec, PcShape;
    ExecCheck(p, s, i);
    assert CoverOk(p, s, k);
    if Passed(s'.iter, k) && !Passed(s.iter, k) {
      var j: nat :| j < |s.iter| && s.iter[j] <= k;
      assert s'.iter[j] > k && s'.iter[i] > k;
      assert k == s.iter[i];
      LastOut(p, s, i);
    }
    if Live(s'.iter, k) {
      if !Live(s.iter, k) {
        WindowMoves(s.iter, i, k);
        assert !SetAt(s, i, k);
      } else if b: nat :| b < p.n && ReducerAt(s, b, k) {
        assert ReducerAt(s', b, k);
      } else if b: nat :| b < p.n && HopefulAt(s, b, k) {
        assert HopefulAt(s', b, k);
      }
    }
  }

  lemma RingStep<T>(p: Problem<T>, s: State<T>, i: nat)
    requires p.Valid() && SkewInv(p, s) && RingInv(p, s) && i < p.n
    ensures RingInv(p, Exec(p, s, i))
  {
    hide RingInv, Exec;
    match s.pc[i]
    case PutFlag => RingPutFlag(p, s, i);
    case Scan(_, _) => RingScan(p, s, i);
    case Lock => RingLock(p, s, i);
    case TestDone => RingTestDone(p, s, i);
    case SetDone => RingSetDone(p, s, i);
    case Clear(_, _) => RingClear(p, s, i);
    case Print => RingPrint(p, s, i);
    case Unmark => RingUnmark(p, s, i);
    case Post => RingPost(p, s, i);
    case Reduce(_, _) => RingReduce(p, s, i);
    case Root(_) => RingPublish(p, s, i);
    case PubRes => RingPublish(p, s, i);
    case PubIter => RingPublish(p, s, i);
    case _ => RingQuiet(p, s, i);
  }
}
