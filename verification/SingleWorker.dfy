/** The pool with a single worker: calls follow one another, so the order of the
    queue decides everything. Every initial order comes to an end; the order in which
    main enqueues never polls in vain. */
module SingleWorker {
  import opened Jacobi
  import opened Residual
  import opened Machine
  import opened Skew
  import opened Refinement
  import opened Ring
  import opened Reduction
  import opened Stopping
  import opened Runs
  import opened Calls
  import opened Finishing
  import opened Polling
  import opened Program
  import Pool

  /** A call the worker has made: whose, at which iteration, and whether it passed its check. */
  datatype Record = Record(task: nat, iter: nat, passed: bool)

  // ----- where a single worker ends -----

  /** The iteration at which calls that follow one another end if no assert fails: n
      after the first accepted iteration below the limit, even if that is beyond the
      limit, and otherwise the limit. */
  ghost predicate EndsAt<T>(p: Problem<T>, last: nat)
    requires p.Valid()
  {
    && p.limit >= 1
    && ((last == p.limit && forall k: nat | k < p.limit :: !p.below(Norm(p, k)))
        || (last >= p.n && last - p.n < p.limit && FirstBelow(p, last - p.n)))
  }

  lemma EndExists<T>(p: Problem<T>) returns (last: nat)
    requires p.Valid() && p.limit >= 1
    ensures EndsAt(p, last)
  {
    hide Norm;
    var k := FirstOrNone(p, p.limit);
    last := if k < p.limit then k + p.n else p.limit;
  }

  lemma EndFacts<T>(p: Problem<T>, last: nat)
    requires p.Valid() && EndsAt(p, last)
    ensures p.limit >= 1 && last >= 1
  {
  }

  lemma EndIs<T>(p: Problem<T>, k: nat, last: nat)
    requires p.Valid() && EndsAt(p, last) && FirstBelow(p, k) && k < p.limit
    ensures last == k + p.n
  {
    hide Norm;
  }

  /** For problems with a stopping iteration it is this one. */
  lemma EndsWhereItStops<T>(p: Problem<T>, last: nat)
    requires p.Valid()
    ensures StopsAt(p, last) <==> EndsAt(p, last) && last <= p.limit
  {
  }

  /** The highest limit there will be. */
  function Most<T>(p: Problem<T>, last: nat): nat {
    if last < p.limit then p.limit else last
  }

  // ----- what holds between two calls -----

  /** A small residual that was printed has been noticed, and has set the limit. */
  ghost predicate Level<T>(p: Problem<T>, s: State<T>, queue: seq<nat>, last: nat)
    requires p.Valid() && Shape(p, s)
  {
    Bounded(p, s, queue, Most(p, last)) && s.maxIter == if s.term then last else p.limit
  }

  lemma QueuedCalm<T>(p: Problem<T>, s: State<T>, queue: seq<nat>)
    requires p.Valid() && Shape(p, s) && Queued(p, s, queue)
    ensures NobodyDecides(s) && forall t: nat | t < p.n :: !InTask(s.pc[t])
  {
  }

  /** The limit after a call. */
  lemma LimitAfter<T>(p: Problem<T>, s: State<T>, s': State<T>, queue: seq<nat>, i: nat, last: nat)
    requires p.Valid() && Shape(p, s) && Shape(p, s') && EndsAt(p, last) && Level(p, s, queue, last)
    requires i in queue && i < p.n && TermInv(p, s') && NobodyDecides(s') && (s.term ==> s'.term)
    requires s'.maxIter == s.maxIter || (s'.maxIter == s.iter[i] + p.n && AllUnder(s.iter, s.maxIter))
    ensures s'.maxIter == if s'.term then last else p.limit
  {
    hide FirstBelow, EndsAt, AllSet;
    if s'.term && !s.term {
      EndIs(p, s'.maxIter - p.n, last);
    } else if s'.term && s'.maxIter != s.maxIter {
      SecondChange(p, s, s', i, last);
    }
  }

  /** Once set, the limit is not set again to anything else. */
  lemma SecondChange<T>(p: Problem<T>, s: State<T>, s': State<T>, i: nat, last: nat)
    requires p.Valid() && Shape(p, s) && Shape(p, s') && EndsAt(p, last) && i < p.n && TermInv(p, s')
    requires NobodyDecides(s') && s'.term && s'.maxIter == s.iter[i] + p.n && s.iter[i] < s.maxIter == last
    ensures s'.maxIter == last
  {
    hide Norm, AllSet;
  }

  /** A whole call keeps the counters below the limit in the queue, and at it outside. */
  lemma BoundedAfter<T>(p: Problem<T>, s: State<T>, s': State<T>, queue: seq<nat>, most: nat, again: bool)
    requires p.Valid() && SkewInv(p, s) && Shape(p, s) && Shape(p, s') && Bounded(p, s, queue, most) && queue != []
    requires Called(s, s', queue[0], again) && (s'.maxIter == s.maxIter || AllUnder(s.iter, s.maxIter))
    requires s'.maxIter <= most
    ensures Bounded(p, s', NextQueue(queue, again), most)
  {
    var i, queue' := queue[0], NextQueue(queue, again);
    QueueAfter(p, s, s', queue, again);
    assert i in queue;
    forall t: nat | t < p.n
      ensures if t in queue' then s'.iter[t] < s'.maxIter else s'.iter[t] == s'.maxIter
    {
      assert s'.pc[t] == if t in queue' then Idle else Done;
      CountersLive(p, s, t);
      assert s.iter[t] < s.iter[i] + p.n;
    }
  }

  /** A call that returns keeps all that. */
  lemma LevelAfter<T>(p: Problem<T>, s: State<T>, s': State<T>, queue: seq<nat>, last: nat, again: bool)
    requires p.Valid() && Shape(p, s) && Shape(p, s') && Inv(p, s) && TermInv(p, s') && EndsAt(p, last)
    requires Level(p, s, queue, last) && queue != []
    requires queue[0] < p.n && queue[0] < |s.iter| == |s.pc| && Effect(s, s', queue[0], Returned(again))
    ensures Level(p, s', NextQueue(queue, again), last)
  {
    hide EndsAt, Inv, TermInv, NextQueue, Shape, UpDiff, DownDiff, NobodyDecides;
    var i := queue[0];
    assert i in queue;
    LevelFits(p, s, queue, last);
    QueueAfter(p, s, s', queue, again);
    QueuedCalm(p, s', NextQueue(queue, again));
    LimitAfter(p, s, s', queue, i, last);
    BoundedAfter(p, s, s', queue, Most(p, last), again) by { InvSkew(p, s); }
  }

  /** A failed assert means that a counter had reached the limit when the first small
      residual was found. */
  lemma FailsLate<T>(p: Problem<T>, s: State<T>, s': State<T>, queue: seq<nat>, last: nat)
    requires p.Valid() && Shape(p, s) && Shape(p, s') && SkewInv(p, s) && TermInv(p, s') && EndsAt(p, last)
    requires Level(p, s, queue, last) && queue != [] && queue[0] < p.n
    requires queue[0] < |s.pc| && CallFails(s, s', queue[0])
    ensures FirstBelow(p, s.iter[queue[0]]) && s.maxIter == p.limit < last && s.iter[queue[0]] < p.limit
    ensures exists j :: 0 <= j < p.n && s.iter[j] >= p.limit
  {
    hide EndsAt, AllSet, FirstBelow;
    var i := queue[0];
    assert i in queue;
    assert Deciding(s'.pc[i]);
    var b: nat :| b < p.n && Decides(p, s', b);
    EndIs(p, s.iter[i], last);
    var j :| 0 <= j < |s.iter| && s.iter[j] >= s.maxIter;
    CountersLive(p, s, j);
    assert s.iter[j] < s.iter[i] + p.n;
  }

  /** With every task between two calls, a residual below the tolerance of an
      iteration that all have left has been noticed. */
  lemma NoticedAtRest<T>(p: Problem<T>, s: State<T>, queue: seq<nat>, k: nat)
    requires p.Valid() && Shape(p, s) && Inv(p, s) && NoticeInv(p, s) && Queued(p, s, queue)
    requires Passed(s.iter, k) && p.below(Norm(p, k))
    ensures s.term
  {
    hide Norm;
    assert CoverOk(p, s, k);
    var t: nat :| t < |s.log| && s.log[t].iter == k;
    assert EntryOk(p, s, t) && ReportedOk(p, s, t);
  }

  // ----- the order in which main enqueues -----

  /** The queue when idx tasks of a round have been called; in the last round they
      are not put back. */
  function Rotation(n: nat, idx: nat, back: bool): seq<nat>
    requires idx <= n
  {
    seq(n - idx, a => idx + a) + if back then seq(idx, a => a) else []
  }

  /** The round after which nobody is put back: when the residual of the last
      iteration before the limit is the first small one, that of the limit. */
  ghost function LastRound<T>(p: Problem<T>, last: nat): nat
    requires p.Valid() && p.limit >= 1
  {
    if FirstBelow(p, p.limit - 1) then p.limit else last
  }

  /** Tasks before idx have done one iteration more than the others. */
  ghost predicate InOrder<T>(p: Problem<T>, s: State<T>, queue: seq<nat>, round: nat, idx: nat, stop: nat)
    requires p.Valid() && Shape(p, s)
  {
    && idx < p.n && round <= stop && (round == stop ==> idx == 0)
    && (forall j | 0 <= j < p.n :: s.iter[j] == if j < idx then round + 1 else round)
    && queue == if round == stop then [] else Rotation(p.n, idx, round + 1 < stop)
  }

  lemma RotationNext(n: nat, idx: nat, back: bool)
    requires idx < n
    ensures Rotation(n, idx, back) != [] && Rotation(n, idx, back)[0] == idx
    ensures idx + 1 < n ==> Rotation(n, idx, back)[1..] + (if back then [idx] else []) == Rotation(n, idx + 1, back)
    ensures idx + 1 == n ==> Rotation(n, idx, back)[1..] + (if back then [idx] else []) == Rotation(n, n, back)
    ensures Rotation(n, n, true) == Rotation(n, 0, true) == Rotation(n, 0, false) && Rotation(n, n, false) == []
  {
  }

  /** The next call in order is that of task idx, and it passes its check. */
  lemma HeadInOrder<T>(p: Problem<T>, s: State<T>, queue: seq<nat>, round: nat, idx: nat, stop: nat)
    requires p.Valid() && Shape(p, s) && InOrder(p, s, queue, round, idx, stop) && queue != []
    ensures round < stop && queue == Rotation(p.n, idx, round + 1 < stop) && queue[0] == idx
    ensures |s.iter| == |s.pc| == p.n && PreCondsMet(UpDiff(s, idx), DownDiff(s, idx)) && s.iter[idx] == round
  {
  }

  /** As long as the order is kept, the limit allows the next round, and ends the last one. */
  lemma LimitInOrder<T>(p: Problem<T>, s: State<T>, queue: seq<nat>, round: nat, idx: nat, last: nat)
    requires p.Valid() && Shape(p, s) && Inv(p, s) && NoticeInv(p, s) && EndsAt(p, last) && Level(p, s, queue, last)
    requires idx < p.n && round < LastRound(p, last)
    requires forall j | 0 <= j < p.n :: s.iter[j] == if j <= idx then round + 1 else round
    requires FirstBelow(p, p.limit - 1) ==> !s.term
    ensures if round + 1 < LastRound(p, last) then round + 1 < s.maxIter else s.maxIter == LastRound(p, last)
  {
    hide Inv, NoticeInv, Norm;
    if last != p.limit && round + p.n > last {
      assert Passed(s.iter, last - p.n);
      NoticedAtRest(p, s, queue, last - p.n);
    }
  }

  lemma OrderGoesOn<T>(p: Problem<T>, s: State<T>, s': State<T>, queue: seq<nat>, round: nat, idx: nat, last: nat,
                       again: bool)
    requires p.Valid() && Shape(p, s) && Shape(p, s') && Inv(p, s') && NoticeInv(p, s') && EndsAt(p, last)
    requires p.limit >= 1 && InOrder(p, s, queue, round, idx, LastRound(p, last))
    requires queue != [] && queue[0] < |s.iter| == |s.pc|
    requires Called(s, s', queue[0], again) && Level(p, s', NextQueue(queue, again), last)
    requires FirstBelow(p, p.limit - 1) ==> !s'.term
    ensures queue[0] == idx && idx < p.n && PreCondsMet(UpDiff(s, idx), DownDiff(s, idx))
    ensures if idx + 1 < p.n then InOrder(p, s', NextQueue(queue, again), round, idx + 1, LastRound(p, last))
            else InOrder(p, s', NextQueue(queue, again), round + 1, 0, LastRound(p, last))
  {
    hide EndsAt, Inv, NoticeInv, Level, LastRound, Rotation, UpDiff, DownDiff;
    var stop := LastRound(p, last);
    HeadInOrder(p, s, queue, round, idx, stop);
    assert s'.iter == s.iter[idx := round + 1];
    LimitInOrder(p, s', NextQueue(queue, again), round, idx, last);
    RotationNext(p.n, idx, round + 1 < stop);
  }

  /** When the first small residual is that of the last iteration before the limit,
      nobody gets through a call that would notice it. */
  lemma NotInOrder<T>(p: Problem<T>, s: State<T>, s': State<T>, queue: seq<nat>, round: nat, idx: nat, last: nat,
                       again: bool)
    requires p.Valid() && Shape(p, s) && Shape(p, s') && TermInv(p, s') && EndsAt(p, last) && FirstBelow(p, p.limit - 1)
    requires InOrder(p, s, queue, round, idx, p.limit) && queue != [] && queue[0] < |s.iter| == |s.pc|
    requires Level(p, s, queue, last) && !s.term && Level(p, s', NextQueue(queue, again), last)
    requires Effect(s, s', queue[0], Returned(again))
    ensures !s'.term
  {
    hide FirstBelow, EndsAt, TermInv, Bounded, Queued, Shape, UpDiff, DownDiff, NextQueue, NobodyDecides;
    hide InOrder, AllUnder;
    HeadInOrder(p, s, queue, round, idx, p.limit);
    CountersInOrder(p, s, queue, round, idx, p.limit);
    EndIs(p, p.limit - 1, last);
    LevelFits(p, s', NextQueue(queue, again), last);
    QueuedCalm(p, s', NextQueue(queue, again));
    if s'.term {
      AllContributed(p, s', p.limit - 1, NextQueue(queue, again));
      OneAtLimit(s.iter, s'.iter, round, idx, p.limit);
    }
  }

  lemma CountersInOrder<T>(p: Problem<T>, s: State<T>, queue: seq<nat>, round: nat, idx: nat, stop: nat)
    requires p.Valid() && Shape(p, s) && InOrder(p, s, queue, round, idx, stop)
    ensures |s.iter| == p.n >= 2 && idx < p.n
    ensures forall j | 0 <= j < p.n :: s.iter[j] == if j < idx then round + 1 else round
  {
  }

  /** If this call takes the last task to the limit, others are there already. */
  lemma OneAtLimit(iter: seq<nat>, iter': seq<nat>, round: nat, idx: nat, limit: nat)
    requires |iter| >= 2 && idx < |iter| && round < limit
    requires forall j | 0 <= j < |iter| :: iter[j] == if j < idx then round + 1 else round
    requires iter' == iter[idx := round + 1] && forall j | 0 <= j < |iter| :: iter'[j] > limit - 1
    ensures !AllUnder(iter, limit)
  {
    assert iter'[|iter| - 1] > limit - 1;
    assert iter[0] == round + 1;
  }

  lemma AllContributed<T>(p: Problem<T>, s: State<T>, k: nat, queue: seq<nat>)
    requires p.Valid() && Shape(p, s) && TermInv(p, s) && NobodyDecides(s) && s.term && s.maxIter == k + p.n
    requires Queued(p, s, queue)
    ensures forall j | 0 <= j < p.n :: s.iter[j] > k
  {
    hide FirstBelow;
    forall j | 0 <= j < p.n
      ensures s.iter[j] > k
    {
      assert SetAt(s, j, k);
    }
  }

  lemma CallNumber(n: nat, round: nat, idx: nat)
    requires idx < n
    ensures (Times(round, n) + idx) / n == round && (Times(round, n) + idx) % n == idx
  {
    TimesIsProduct(round, n);
    var c := Times(round, n) + idx;
    var q, m := c / n, c % n;
    DivisionUnique(n, c, round, idx, q, m);
  }

  // ----- the worker -----

  ghost function RecordOf<T>(s: State<T>, i: nat): Record
    requires i < |s.iter|
  {
    Record(i, s.iter[i], PreCondsMet(UpDiff(s, i), DownDiff(s, i)))
  }

  ghost predicate InTurn(n: nat, calls: seq<Record>)
    requires n >= 1
  {
    forall t | 0 <= t < |calls| :: calls[t] == Record(t % n, t / n, true)
  }

  /** The reductions so far are those of the first iterations, each made once, and
      every task has left these iterations. */
  ghost predicate OnceEach<T>(s: State<T>) {
    && (forall t: nat | t < |s.log| :: s.log[t].iter == t)
    && (s.log != [] ==> Passed(s.iter, |s.log| - 1))
  }

  /** Where the worker is in main's order. */
  datatype Turn = Turn(ordered: bool, round: nat, idx: nat)

  ghost predicate TurnOk<T>(p: Problem<T>, s: State<T>, queue: seq<nat>, calls: seq<Record>, last: nat, at: Turn)
    requires p.Valid() && Shape(p, s) && p.limit >= 1
  {
    at.ordered ==>
      && InOrder(p, s, queue, at.round, at.idx, LastRound(p, last)) && (FirstBelow(p, p.limit - 1) ==> !s.term)
      && |calls| == Times(at.round, p.n) + at.idx && InTurn(p.n, calls)
  }

  /** Between two calls of the worker. */
  ghost predicate Going<T>(p: Problem<T>, s: State<T>, queue: seq<nat>, calls: seq<Record>, last: nat, at: Turn)
    requires p.Valid()
  {
    && Shape(p, s) && Reached(p, s) && EndsAt(p, last) && Level(p, s, queue, last) && OnceEach(s)
    && |calls| + Left(s.iter, Most(p, last), queue) <= Times(Times(p.n, Most(p, last)), p.n)
    && TurnOk(p, s, queue, calls, last, at)
  }

  lemma GoingStart<T>(p: Problem<T>, queue: seq<nat>, last: nat)
    requires p.Valid() && EndsAt(p, last) && Fits(queue, p.n) && NoneTwice(queue) && |queue| == p.n
    ensures Going(p, Init(p), queue, [], last, Turn(queue == seq(p.n, a => a), 0, 0))
  {
    hide Reached, Norm;
    var s := Init(p);
    ReachedStart(p);
    forall t: nat | t < p.n
      ensures t in queue
    {
      FullQueue(queue, p.n, t);
    }
    RemainingAtFirst(s.iter, Most(p, last), p.n);
    assert Left(s.iter, Most(p, last), queue) == Times(Times(p.n, Most(p, last)), p.n);
    if queue == seq(p.n, a => a) {
      assert queue == Rotation(p.n, 0, 1 < LastRound(p, last));
    }
  }

  ghost function NextTurn(n: nat, at: Turn): (at': Turn)
    ensures at'.ordered == at.ordered
  {
    if at.idx + 1 < n then at.(idx := at.idx + 1) else at.(round := at.round + 1, idx := 0)
  }

  /** A call adds the reduction of the next iteration, or none. */
  lemma OnceMore<T>(p: Problem<T>, s: State<T>, s': State<T>, queue': seq<nat>, i: nat, again: bool)
    requires p.Valid() && Shape(p, s) && Shape(p, s') && Inv(p, s') && Queued(p, s', queue') && OnceEach(s)
    requires i < p.n && Effect(s, s', i, Returned(again))
    ensures OnceEach(s')
  {
    hide Iterate, Norm;
    if s'.log != s.log {
      var t := |s.log|;
      assert forall a: nat | a < t :: s'.log[a] == s.log[a];
      assert EntryOk(p, s', t);
      forall j | 0 <= j < |s'.iter|
        ensures s'.iter[j] > s'.log[t].iter
      {
        assert SetAt(s', j, s'.log[t].iter);
      }
      if t > 0 {
        assert s'.log[t - 1].iter <= s'.log[t].iter <= s'.log[t - 1].iter + 1;
      }
    }
  }

  lemma TurnGoesOn<T>(p: Problem<T>, s: State<T>, s': State<T>, queue: seq<nat>, calls: seq<Record>, last: nat,
                      at: Turn, again: bool)
    requires p.Valid() && Shape(p, s) && Shape(p, s') && Inv(p, s')
    requires NoticeInv(p, s') && TermInv(p, s') && EndsAt(p, last)
    requires p.limit >= 1 && TurnOk(p, s, queue, calls, last, at) && Level(p, s, queue, last)
    requires queue != [] && queue[0] < |s.iter| == |s.pc| && Effect(s, s', queue[0], Returned(again))
    requires Level(p, s', NextQueue(queue, again), last)
    ensures TurnOk(p, s', NextQueue(queue, again), calls + [RecordOf(s, queue[0])], last, NextTurn(p.n, at))
  {
    hide Inv, NoticeInv, TermInv, EndsAt, Level, Rotation, UpDiff, DownDiff, NextQueue, FirstBelow;
    if at.ordered {
      if FirstBelow(p, p.limit - 1) {
        NotInOrder(p, s, s', queue, at.round, at.idx, last, again);
      }
      OrderGoesOn(p, s, s', queue, at.round, at.idx, last, again);
      InTurnGoesOn(p, s, queue, calls, at, LastRound(p, last));
    }
  }

  lemma InTurnGoesOn<T>(p: Problem<T>, s: State<T>, queue: seq<nat>, calls: seq<Record>, at: Turn, stop: nat)
    requires p.Valid() && Shape(p, s) && InOrder(p, s, queue, at.round, at.idx, stop)
    requires queue != [] && queue[0] == at.idx
    requires PreCondsMet(UpDiff(s, at.idx), DownDiff(s, at.idx))
    requires |calls| == Times(at.round, p.n) + at.idx && InTurn(p.n, calls)
    ensures InTurn(p.n, calls + [RecordOf(s, queue[0])])
    ensures |calls| + 1 == Times(NextTurn(p.n, at).round, p.n) + NextTurn(p.n, at).idx
  {
    CallNumber(p.n, at.round, at.idx);
  }

  lemma GoesOn<T>(p: Problem<T>, s: State<T>, s': State<T>, queue: seq<nat>, calls: seq<Record>,
                  last: nat, at: Turn, again: bool)
    requires p.Valid() && Going(p, s, queue, calls, last, at) && queue != [] && queue[0] < |s.iter| == |s.pc|
    requires Shape(p, s') && Reached(p, s') && Effect(s, s', queue[0], Returned(again))
    ensures Going(p, s', NextQueue(queue, again), calls + [RecordOf(s, queue[0])], last, NextTurn(p.n, at))
    ensures LeftOf(p, s', NextQueue(queue, again), last) < LeftOf(p, s, queue, last)
  {
    hide Inv, NoticeInv, TermInv, EndsAt, Reached, Left, OnceEach, TurnOk, Shape, NextQueue, RecordOf, NextTurn;
    ReachedInv(p, s);
    ReachedInv(p, s');
    ReachedLimit(p, s');
    EndFacts(p, last);
    LevelFits(p, s, queue, last);
    LevelAfter(p, s, s', queue, last, again);
    LevelFits(p, s', NextQueue(queue, again), last);
    OnceMore(p, s, s', NextQueue(queue, again), queue[0], again);
    LessLeft(p, s, s', queue, Most(p, last), again) by { InvSkew(p, s); }
    TurnGoesOn(p, s, s', queue, calls, last, at, again);
  }

  lemma LevelFits<T>(p: Problem<T>, s: State<T>, queue: seq<nat>, last: nat)
    requires p.Valid() && Shape(p, s) && Level(p, s, queue, last)
    ensures |s.iter| == |s.pc| == p.n >= 2 && Bounded(p, s, queue, Most(p, last))
    ensures Queued(p, s, queue) && Fits(queue, p.n)
  {
  }

  ghost function LeftOf<T>(p: Problem<T>, s: State<T>, queue: seq<nat>, last: nat): nat {
    if s.iter != [] && Fits(queue, |s.iter|) then Left(s.iter, Most(p, last), queue) else 0
  }

  // ----- how it ends -----

  /** Each iteration up to the last has been reduced exactly once, in order. */
  ghost predicate OutputIs<T>(p: Problem<T>, log: seq<Entry<T>>, last: nat)
    requires p.Valid()
  {
    |log| == last && forall k: nat | k < last :: log[k].iter == k && log[k].res == Norm(p, k)
  }

  lemma OutputDone<T>(p: Problem<T>, s: State<T>, last: nat)
    requires p.Valid() && Reached(p, s) && Shape(p, s) && OnceEach(s) && last >= 1
    requires forall i | 0 <= i < p.n :: s.iter[i] == last
    ensures OutputIs(p, s.log, last)
  {
    hide Norm, Reached;
    ReductionsOfRun(p, s);
    assert Passed(s.iter, last - 1);
    var t: nat :| t < |s.log| && s.log[t].iter == last - 1;
    assert s.iter[0] == last;
  }

  /** With the queue empty every task has come to the end. */
  lemma AllAtEnd<T>(p: Problem<T>, s: State<T>, last: nat)
    requires p.Valid() && Shape(p, s) && Inv(p, s) && NoticeInv(p, s) && EndsAt(p, last) && Level(p, s, [], last)
    ensures forall i | 0 <= i < p.n :: s.pc[i].Done? && s.iter[i] == last
  {
    hide Inv, NoticeInv, Norm;
    if s.maxIter != last {
      assert Passed(s.iter, last - p.n);
      NoticedAtRest(p, s, [], last - p.n);
    }
  }

  /** What holds when the queue has run empty. */
  lemma WorkDone<T>(p: Problem<T>, s: State<T>, calls: seq<Record>, last: nat, at: Turn)
    requires p.Valid() && Going(p, s, [], calls, last, at)
    ensures BuffersAt(p, last, s.u1, s.u2) && s.gridIter == Some(last - 1) && s.gridRes == Some(Norm(p, last - 1))
    ensures OutputIs(p, s.log, last) && |calls| <= p.n * Most(p, last) * p.n
    ensures at.ordered ==> |calls| == last * p.n && InTurn(p.n, calls) && !(p.limit >= 1 && FirstBelow(p, p.limit - 1))
  {
    hide BuffersAt, Norm, Left, OutputIs, Reached, Inv, NoticeInv, TermInv, EndsAt, Level, FirstBelow, Most;
    EndFacts(p, last);
    ReachedInv(p, s);
    ReachedLimit(p, s);
    AllAtEnd(p, s, last);
    SameAsSerial(p, s, last);
    LastReport(p, s, last);
    OutputDone(p, s, last);
    TimesIsProduct(p.n, Most(p, last));
    TimesIsProduct(Times(p.n, Most(p, last)), p.n);
    TimesIsProduct(last, p.n);
    if at.ordered {
      NoMoreRounds(p, s, at, last);
    }
  }

  lemma NoMoreRounds<T>(p: Problem<T>, s: State<T>, at: Turn, last: nat)
    requires p.Valid() && Shape(p, s) && EndsAt(p, last) && p.limit >= 1
    requires InOrder(p, s, [], at.round, at.idx, LastRound(p, last))
    requires forall i | 0 <= i < p.n :: s.iter[i] == last
    ensures at.round == last && at.idx == 0 && !FirstBelow(p, p.limit - 1)
  {
    hide FirstBelow, EndsAt;
    if at.round != LastRound(p, last) {
      RotationNext(p.n, at.idx, at.round + 1 < LastRound(p, last));
    }
    assert s.iter[p.n - 1] == last;
    if FirstBelow(p, p.limit - 1) {
      EndIs(p, p.limit - 1, last);
    }
  }

  /** What a failed assert says about the problem. */
  lemma WorkFails<T>(p: Problem<T>, s: State<T>, s': State<T>, queue: seq<nat>, calls: seq<Record>, last: nat, at: Turn)
    requires p.Valid() && Going(p, s, queue, calls, last, at) && queue != [] && queue[0] < |s.iter| == |s.pc|
    requires Shape(p, s') && Reached(p, s') && Effect(s, s', queue[0], Aborted)
    ensures 1 <= p.limit < last && (at.ordered ==> FirstBelow(p, p.limit - 1))
  {
    hide Reached, Inv, NoticeInv, TermInv, EndsAt, Level, FirstBelow, Left, OnceEach, Rotation;
    EndFacts(p, last);
    ReachedInv(p, s);
    ReachedLimit(p, s');
    FailsLate(p, s, s', queue, last) by { InvSkew(p, s); }
    if at.ordered {
      HeadInOrder(p, s, queue, at.round, at.idx, LastRound(p, last));
    }
  }

  lemma HeadIdle<T>(p: Problem<T>, s: State<T>, queue: seq<nat>, calls: seq<Record>, last: nat, at: Turn)
    requires p.Valid() && Going(p, s, queue, calls, last, at) && queue != []
    ensures queue[0] < p.n && queue[0] < |s.pc| == |s.iter| && s.pc[queue[0]] == Idle && Shape(p, s)
  {
    hide Reached, Left;
    assert queue[0] in queue;
  }

  // ----- the pool of one worker as an object -----

  /** The lone worker is about to look at the queue, and main owes no notification. */
  ghost predicate AtQueue(s: Pool.Pool) {
    s.workers == [Pool.Entering] && !s.owes && !s.aborted && !s.thrown
  }

  /** One more step of main or of the lone worker. */
  lemma PlayOn(n: nat, acts: seq<Pool.Action>, a: Pool.Action)
    requires Pool.LegalPlay(n, 1, acts) && (a == Pool.Main(0) || (a.Work? && a.w == 0 && a.wake == 0))
    requires |Pool.Play(n, 1, acts).workers| == 1 && !Pool.Play(n, 1, acts).workers[0].Blocked?
    ensures Pool.LegalPlay(n, 1, acts + [a])
    ensures Pool.Play(n, 1, acts + [a]) == Pool.Step(Pool.Play(n, 1, acts), a)
  {
    hide Pool.LegalPlay, Pool.Play, Pool.Step;
    Pool.OneMore(n, 1, acts, a);
  }

  /** The pool after main has enqueued its next task. */
  function Pushed(s: Pool.Pool): Pool.Pool {
    s.(queue := s.queue + [s.next], next := s.next + 1)
  }

  lemma PlayPush(n: nat, acts: seq<Pool.Action>)
    requires Pool.LegalPlay(n, 1, acts)
    requires var s := Pool.Play(n, 1, acts); AtQueue(s) && s.next < n == s.tasks && !s.stop
    ensures var acts' := acts + [Pool.Main(0)] + [Pool.Main(0)];
            Pool.LegalPlay(n, 1, acts') && Pool.Play(n, 1, acts') == Pushed(Pool.Play(n, 1, acts))
  {
    hide Pool.LegalPlay, Pool.Play;
    PlayOn(n, acts, Pool.Main(0));
    PlayOn(n, acts + [Pool.Main(0)], Pool.Main(0));
  }

  /** The pool after the worker has made a call of the head of the queue. */
  function Served(s: Pool.Pool, again: bool): Pool.Pool
    requires s.queue != []
  {
    if again then s.(queue := NextQueue(s.queue, true))
    else s.(queue := NextQueue(s.queue, false), numDone := s.numDone + 1, counted := s.counted + {s.queue[0]},
            stop := s.stop || s.numDone + 1 == s.tasks)
  }

  /** The actions by which the worker makes a call of the head of the queue. */
  lemma PlayCall(n: nat, acts: seq<Pool.Action>, again: bool) returns (acts': seq<Pool.Action>)
    requires Pool.LegalPlay(n, 1, acts)
    requires var s := Pool.Play(n, 1, acts); AtQueue(s) && s.queue != [] && !s.stop && s.tasks == n
    ensures Pool.LegalPlay(n, 1, acts') && Pool.Play(n, 1, acts') == Served(Pool.Play(n, 1, acts), again)
  {
    hide Pool.LegalPlay, Pool.Play;
    var a := Pool.Work(0, 0, again);
    PlayOn(n, acts, a);
    PlayOn(n, acts + [a], a);
    acts' := acts + [a] + [a];
    PlayOn(n, acts', a);
    acts' := acts' + [a];
    if !again {
      acts' := PlayCounted(n, acts');
    }
  }

  /** From counting on: the test of the count and, for the last task, the stop. */
  lemma PlayCounted(n: nat, acts: seq<Pool.Action>) returns (acts': seq<Pool.Action>)
    requires Pool.LegalPlay(n, 1, acts)
    requires var s := Pool.Play(n, 1, acts);
             s.workers == [Pool.TestCount] && !s.owes && !s.aborted && !s.thrown && !s.stop && s.tasks == n
    ensures Pool.LegalPlay(n, 1, acts')
    ensures var s := Pool.Play(n, 1, acts);
            Pool.Play(n, 1, acts') == s.(workers := [Pool.Entering], stop := s.numDone == n)
  {
    hide Pool.LegalPlay, Pool.Play;
    var a := Pool.Work(0, 0, false);
    PlayOn(n, acts, a);
    acts' := acts + [a];
    if Pool.Play(n, 1, acts).numDone == n {
      PlayOn(n, acts', a);
      PlayOn(n, acts' + [a], a);
      acts' := acts' + [a] + [a];
      PlayOn(n, acts', a);
      acts' := acts' + [a];
    }
  }

  class ThreadPool<T> {
    ghost const n: nat          // Utility::numTasks
    var tasks: seq<nat>         // the queue, as the tasks its functions work on
    var numTasksDone: nat
    var stop: bool
    ghost var acts: seq<Pool.Action>    // what main and the worker have done, if main enqueued in order

    constructor (ghost n: nat)
      ensures this.n == n && tasks == [] && numTasksDone == 0 && !stop && Valid() && Now().next == 0
    {
      this.n := n;
      tasks, numTasksDone, stop, acts := [], 0, false, [];
      new;
      Pool.PoolRun(n, 1, []);
    }

    /** The state of the pool, and so all that Pool says of every run. */
    ghost function Now(): Pool.Pool
      reads this
    {
      Pool.Play(n, 1, acts)
    }

    /** The object is where a run of the pool with one worker is, between two calls. */
    ghost predicate Valid()
      reads this
    {
      && Pool.LegalPlay(n, 1, acts) && AtQueue(Now()) && Now().tasks == n
      && tasks == Now().queue && numTasksDone == Now().numDone && stop == Now().stop
    }

    lemma InPool()
      requires Valid()
      ensures Pool.LegalPlay(n, 1, acts) && Now() == Pool.Play(n, 1, acts) && AtQueue(Now()) && Now().tasks == n
      ensures tasks == Now().queue && numTasksDone == Now().numDone && stop == Now().stop
    {
    }

    /** After the actions of a call. */
    lemma Serves(s: Pool.Pool, again: bool)
      requires Pool.LegalPlay(n, 1, acts) && AtQueue(s) && s.tasks == n && s.queue != []
      requires Pool.Play(n, 1, acts) == Served(s, again)
      requires tasks == NextQueue(s.queue, again) && numTasksDone == s.numDone + (if again then 0 else 1)
      requires stop == (s.stop || (!again && numTasksDone == n))
      ensures Valid()
    {
    }

    /** Main enqueues the tasks in their order; on a stopped pool this throws. */
    method Enqueue(t: nat) returns (thrown: bool)
      modifies this`tasks, this`acts
      ensures thrown == old(stop) && tasks == if thrown then old(tasks) else old(tasks) + [t]
      ensures old(Valid()) && !thrown && t == old(Now().next) < n ==> Valid() && Now() == Pushed(old(Now()))
    {
      hide Pool.LegalPlay, Pool.Play;
      if stop {
        return true;
      }
      ghost var inOrder := Valid() && t == Now().next && t < n;
      tasks := tasks + [t];
      thrown := false;
      if inOrder {
        PlayPush(n, acts);
        acts := acts + [Pool.Main(0)] + [Pool.Main(0)];
      }
    }

    /** What the worker does when a call has returned: it puts the task back, or counts
        it and stops the pool after the last one. */
    method Finish(task: nat, hasTaskNotFinished: bool, numTasks: nat)
      requires numTasksDone < numTasks && !stop
      modifies this`tasks, this`numTasksDone, this`stop
      ensures tasks == if hasTaskNotFinished then old(tasks) + [task] else old(tasks)
      ensures numTasksDone == if hasTaskNotFinished then old(numTasksDone) else old(numTasksDone) + 1
      ensures stop == (!hasTaskNotFinished && numTasksDone == numTasks)
    {
      if hasTaskNotFinished {
        tasks := tasks + [task];
      } else {
        numTasksDone := numTasksDone + 1;
        if numTasksDone == numTasks {
          assert !stop;
          stop := true;
        }
      }
    }

    /** The actions of the pool behind a call that has returned. */
    ghost method Follow(s: Pool.Pool, again: bool)
      requires Pool.LegalPlay(n, 1, acts) && s == Pool.Play(n, 1, acts) && AtQueue(s) && s.tasks == n
      requires s.queue != [] && !s.stop && tasks == NextQueue(s.queue, again)
      requires numTasksDone == s.numDone + (if again then 0 else 1) && stop == (!again && numTasksDone == n)
      modifies this`acts
      ensures Valid()
    {
      hide *;
      acts := PlayCall(n, acts, again);
      Serves(s, again);
    }

    /** Takes the head of the queue and runs it. */
    method RunHead(w: World<T>, ghost last: nat, ghost calls: seq<Record>, ghost at: Turn)
      returns (task: nat, outcome: Outcome)
      requires w.Valid() && Going(w.p, w.m, tasks, calls, last, at) && tasks != []
      modifies this`tasks
      modifies w`m, w`isAllTasksDone, w`output, w`resTermFlagSet, w`maxIter, w.tasks, w.grid, w.grid.u1, w.grid.u2
      ensures w.Valid() && w.tasks == old(w.tasks) && tasks == old(tasks)[1..] && task == old(tasks)[0]
      ensures task < |old(w.m).iter| == |old(w.m).pc| && Effect(old(w.m), w.m, task, outcome)
    {
      hide *;
      w.Known();
      HeadIdle(w.p, w.m, tasks, calls, last, at);
      task := tasks[0];
      tasks := tasks[1..];
      w.Ready(task);
      outcome := w.tasks[task].Call(w);
    }

    /** One turn of the worker's loop: a call of the head of the queue. */
    method Serve(w: World<T>, ghost last: nat, ghost calls: seq<Record>, ghost at: Turn) returns (aborted: bool)
      requires w.Valid() && Going(w.p, w.m, tasks, calls, last, at) && tasks != []
      requires numTasksDone + |tasks| == w.p.n && (stop <==> numTasksDone == w.p.n)
      modifies this, w`m, w`isAllTasksDone, w`output, w`resTermFlagSet, w`maxIter, w.tasks, w.grid, w.grid.u1, w.grid.u2
      ensures w.Valid() && w.tasks == old(w.tasks) && old(tasks[0]) < |old(w.m).iter|
      ensures aborted ==> 1 <= w.p.limit < last && (at.ordered ==> FirstBelow(w.p, w.p.limit - 1))
      ensures !aborted ==> numTasksDone + |tasks| == w.p.n && (stop <==> numTasksDone == w.p.n)
      ensures !aborted ==>
                Going(w.p, w.m, tasks, calls + [RecordOf(old(w.m), old(tasks[0]))], last, NextTurn(w.p.n, at))
      ensures !aborted ==> LeftOf(w.p, w.m, tasks, last) < LeftOf(w.p, old(w.m), old(tasks), last)
      ensures !aborted && old(Valid()) && n == w.p.n ==> Valid()
    {
      hide *;
      ghost var s, queue, pool, inPool := w.m, tasks, Now(), Valid() && n == w.p.n;
      if inPool {
        InPool();
      }
      var task, outcome := RunHead(w, last, calls, at);
      w.Known();
      aborted := outcome.Aborted?;
      if aborted {
        WorkFails(w.p, s, w.m, queue, calls, last, at);
      } else {
        Finish(task, outcome.again, w.p.n);
        NextQueueIs(queue, outcome.again);
        if inPool {
          Follow(pool, outcome.again);
        }
        GoesOn(w.p, s, w.m, queue, calls, last, at, outcome.again);
      }
    }

    /** The loop of the only worker, from any order of the queue. It ends; if no assert
        has failed the grid is that of the serial solver. */
    method Work(w: World<T>, ghost last: nat) returns (aborted: bool, ghost calls: seq<Record>)
      requires w.Valid() && w.m == Init(w.p) && !stop && numTasksDone == 0 && EndsAt(w.p, last)
      requires Fits(tasks, w.p.n) && NoneTwice(tasks) && |tasks| == w.p.n
      modifies this, w`m, w`isAllTasksDone, w`output, w`resTermFlagSet, w`maxIter, w.tasks, w.grid, w.grid.u1, w.grid.u2
      ensures w.Valid() && |calls| <= w.p.n * Most(w.p, last) * w.p.n
      ensures aborted ==> w.p.limit < last
      ensures !aborted ==> tasks == [] && stop && numTasksDone == w.p.n && OutputIs(w.p, w.output, last)
      ensures !aborted ==> BuffersAt(w.p, last, w.grid.u1[..], w.grid.u2[..])
      ensures !aborted ==> w.grid.gridIter == Some(last - 1) && w.grid.gridRes == Some(Norm(w.p, last - 1))
      ensures old(tasks) == seq(w.p.n, a => a) ==> w.p.limit >= 1 && (aborted <==> FirstBelow(w.p, w.p.limit - 1))
      ensures old(tasks) == seq(w.p.n, a => a) && !aborted ==> |calls| == last * w.p.n && InTurn(w.p.n, calls)
      ensures old(Valid()) && n == w.p.n && !aborted ==> Valid()
    {
      hide *;
      ghost var at, inPool := Turn(tasks == seq(w.p.n, a => a), 0, 0), Valid() && n == w.p.n;
      calls := [];
      w.Known();
      EndFacts(w.p, last);
      GoingStart(w.p, tasks, last);
      while !(stop && tasks == [])
        invariant w.Valid() && w.p.Valid() && Going(w.p, w.m, tasks, calls, last, at)
        invariant at.ordered == (old(tasks) == seq(w.p.n, a => a))
        invariant numTasksDone + |tasks| == w.p.n && (stop <==> numTasksDone == w.p.n)
        invariant w.tasks == old(w.tasks) && (inPool ==> Valid())
        decreases LeftOf(w.p, w.m, tasks, last)
      {
        // The wait returns at once.
        assert stop || tasks != [];
        ghost var record := HeadRecord(w.p, w.m, tasks, calls, last, at);
        var failed := Serve(w, last, calls, at);
        if failed {
          return true, calls;
        }
        calls := calls + [record];
        at := NextTurn(w.p.n, at);
      }
      WorkDone(w.p, w.m, calls, last, at);
      w.Known();
      aborted := false;
    }
  }

  lemma HeadRecord<T>(p: Problem<T>, s: State<T>, queue: seq<nat>, calls: seq<Record>, last: nat, at: Turn)
    returns (record: Record)
    requires p.Valid() && Going(p, s, queue, calls, last, at) && queue != []
    ensures queue[0] < |s.iter| && record == RecordOf(s, queue[0]) && |calls| <= p.n * Most(p, last) * p.n
  {
    hide Reached, Left;
    HeadIdle(p, s, queue, calls, last, at);
    record := RecordOf(s, queue[0]);
    TimesIsProduct(p.n, Most(p, last));
    TimesIsProduct(Times(p.n, Most(p, last)), p.n);
  }

  lemma NextQueueIs(queue: seq<nat>, again: bool)
    requires queue != []
    ensures NextQueue(queue, again) == if again then queue[1..] + [queue[0]] else queue[1..]
  {
  }

  // ----- main -----

  /** The tasks as constructed, without neighbours. */
  ghost predicate Built<T>(p: Problem<T>, t: Task<T>, i: nat)
    requires p.Valid() && i < p.n
    reads t
  {
    && t.id == i && t.rowStart == RowStart(p, i) && t.rowEnd == RowStart(p, i + 1)
    && t.boundary == (if i == 0 then TopBound else if i + 1 == p.n then BottomBound else InteriorTask)
    && t.iterNumber == 0 && t.globalRes == p.huge
    && t.locRes == seq(p.n, _ => p.zero) && t.locIters == seq(p.n, _ => false)
  }

  ghost predicate Linked<T>(p: Problem<T>, ts: seq<Task<T>>, i: nat)
    requires i < |ts| == p.n
    reads ts
  {
    && ts[i].up == (if i == 0 then null else ts[i - 1])
    && ts[i].down == (if i + 1 == p.n then null else ts[i + 1])
  }

  method BuildTasks<T>(p: Problem<T>) returns (ts: seq<Task<T>>)
    requires p.Valid()
    ensures |ts| == p.n && fresh(ts)
    ensures forall i: nat | i < p.n :: Built(p, ts[i], i) && Linked(p, ts, i)
  {
    ts := [];
    var i := 0;
    while i < p.n
      invariant |ts| == i <= p.n && fresh(ts)
      invariant forall j: nat | j < i :: Built(p, ts[j], j)
    {
      var bound := if i == 0 then TopBound else if i + 1 == p.n then BottomBound else InteriorTask;
      var t := new Task(i, p, bound);
      ts := ts + [t];
      i := i + 1;
    }
    i := 0;
    while i < p.n
      invariant i <= p.n && fresh(ts)
      invariant forall j: nat | j < p.n :: Built(p, ts[j], j)
      invariant forall j: nat | j < i :: Linked(p, ts, j)
    {
      label L:
      if i == 0 {
        ts[i].SetNbrs(null, ts[i + 1]);
      } else if i + 1 == p.n {
        ts[i].SetNbrs(ts[i - 1], null);
      } else {
        ts[i].SetNbrs(ts[i - 1], ts[i + 1]);
      }
      forall j: nat | j <= i
        ensures Linked(p, ts, j)
      {
        assert Built(p, ts[i], i) && Built(p, ts[j], j);
        assert j < i ==> ts[j] != ts[i] && old@L(Linked(p, ts, j));
      }
      i := i + 1;
    }
  }

  /** The whole program with one worker thread, which begins when main has enqueued all
      tasks: not one call in vain, and the grid of the serial solver, unless the first
      small residual is exactly that of the last iteration before the limit. */
  method RunProgram<T>(p: Problem<T>)
    returns (aborted: bool, u1: array<T>, u2: array<T>, output: seq<Entry<T>>,
             ghost last: nat, ghost calls: seq<Record>)
    requires p.Valid() && p.limit >= 1
    ensures EndsAt(p, last) && (aborted <==> FirstBelow(p, p.limit - 1))
    ensures !aborted ==> BuffersAt(p, last, u1[..], u2[..]) && OutputIs(p, output, last)
    ensures !aborted ==> |calls| == last * p.n && InTurn(p.n, calls)
  {
    hide *;
    last := EndExists(p);
    var w := BuildWorld(p);
    var pool := new ThreadPool<T>(p.n);
    var taskId := 0;
    while taskId < p.n
      invariant taskId <= p.n && fresh(pool) && !pool.stop
      invariant pool.numTasksDone == 0 && pool.tasks == seq(taskId, a => a)
      invariant pool.Valid() && pool.Now().next == taskId && pool.n == p.n
      invariant w.Valid() && w.m == Init(p)
      modifies pool
    {
      var thrown := pool.Enqueue(taskId);
      PushedNext(pool.Now(), taskId);
      taskId := taskId + 1;
    }
    OneEach(p.n);
    aborted, calls := pool.Work(w, last);
    u1, u2, output := w.grid.u1, w.grid.u2, w.output;
  }

  lemma PushedNext(s: Pool.Pool, next: nat)
    ensures forall t: Pool.Pool :: s == Pushed(t) && t.next == next ==> s.next == next + 1
  {
  }

  lemma OneEach(n: nat)
    ensures Fits(seq(n, a => a), n) && NoneTwice(seq(n, a => a))
  {
  }

  method BuildWorld<T>(p: Problem<T>) returns (w: World<T>)
    requires p.Valid()
    ensures w.Valid() && w.m == Init(p) && w.p == p
    ensures fresh(w) && fresh(w.tasks) && fresh(w.grid) && fresh(w.grid.u1) && fresh(w.grid.u2)
  {
    hide Reached, Iterate, Norm;
    var grid := new Grid(p);
    w := new World(p, grid);
    var ts := BuildTasks(p);
    w.tasks := ts;
    w.m := Init(p);
    Assembled(w, ts);
  }

  lemma Assembled<T>(w: World<T>, ts: seq<Task<T>>)
    requires w.p.Valid() && w.m == Init(w.p) && w.tasks == ts && |ts| == w.p.n
    requires forall i: nat | i < w.p.n :: Built(w.p, ts[i], i) && Linked(w.p, ts, i)
    requires w.maxIter == w.p.limit && !w.resTermFlagSet && w.output == [] && w.isAllTasksDone == seq(w.p.n, _ => false)
    requires w.grid.u1 != w.grid.u2 && w.grid.u1[..] == w.p.u1 && w.grid.u2[..] == w.p.u2
    requires w.grid.numCols == w.p.cols && w.grid.numLocRows == w.p.loc
    requires w.grid.gridRes == None && w.grid.gridIter == None
    ensures w.Valid()
  {
    hide Reached;
    ReachedStart(w.p);
    forall i: nat | i < w.p.n
      ensures w.TaskOk(w.m, i)
    {
      assert Built(w.p, ts[i], i) && Linked(w.p, ts, i);
    }
  }
}
