/** When the assert of changeMaxIter (task.cpp:882) can fail: a run of the whole
    program that makes it fail, with any number of workers, and the exact condition
    under which no run does. */
module LimitAssert {
  import opened Jacobi
  import opened Residual
  import opened Machine
  import opened Skew
  import opened Refinement
  import opened Ring
  import opened Reduction
  import opened Stopping
  import opened Runs
  import opened Solo
  import opened Calls
  import opened Runtime
  import opened Driving
  import opened Polling
  import opened Resting
  import opened QuietCalls
  import Pool

  // ----- the run: a staircase with the last task lowest -----

  /** Iterations task i has done after t rounds: in each round every task that has
      been enqueued makes one call, from the last to the first, and main enqueues
      one task more. */
  function Height(limit: nat, t: nat, i: nat): nat {
    if t < i then 0 else if t - i < limit then t - i else limit
  }

  /** Tasks below this have been enqueued before round t. */
  function Top(n: nat, t: nat): nat {
    if t + 1 < n then t + 1 else n
  }

  /** Tasks below this are done before round t. */
  function Low(limit: nat, t: nat): nat {
    if t < limit then 0 else t + 1 - limit
  }

  /** hi - 1, hi - 2, ..., lo. */
  function Down(hi: nat, lo: nat): seq<nat> {
    seq(if lo < hi then hi - lo else 0, a requires 0 <= a < hi - lo => hi - 1 - a)
  }

  lemma DownFacts(hi: nat, lo: nat)
    ensures lo < hi ==> Down(hi, lo) != [] && Down(hi, lo)[0] == hi - 1 && Down(hi, lo)[1..] == Down(hi - 1, lo)
    ensures 0 < lo <= hi ==> Down(hi, lo) + [lo - 1] == Down(hi, lo - 1)
    ensures hi <= lo ==> Down(hi, lo) == []
    ensures lo <= hi ==> Down(hi + 1, lo) == [hi] + Down(hi, lo)
  {
  }

  /** The queue in round t when tasks j and on have made their call. */
  function InRound(n: nat, limit: nat, t: nat, j: nat): seq<nat> {
    Down(j, Low(limit, t)) + (if t + 1 < n then [t + 1] else [])
    + Down(Top(n, t), if j < Low(limit, t + 1) then Low(limit, t + 1) else j)
  }

  lemma RoundStarts(n: nat, limit: nat, t: nat)
    requires n >= 2 && limit >= 1 && Low(limit, t) < n
    ensures InRound(n, limit, t, Top(n, t)) == Down(Top(n, t), Low(limit, t)) + if t + 1 < n then [t + 1] else []
  {
    var top, low := Top(n, t), Low(limit, t + 1);
    DownFacts(top, if top < low then low else top);
  }

  lemma RoundEnds(n: nat, limit: nat, t: nat)
    requires n >= 2 && limit >= 1 && Low(limit, t) < n
    ensures InRound(n, limit, t, Low(limit, t)) == Down(Top(n, t + 1), Low(limit, t + 1))
  {
    DownFacts(Low(limit, t), Low(limit, t));
    if t + 1 < n {
      DownFacts(t + 1, Low(limit, t + 1));
    }
  }

  /** The head is task j - 1; it goes to the end unless this was its last call. */
  lemma RoundGoesOn(n: nat, limit: nat, t: nat, j: nat)
    requires n >= 2 && limit >= 1 && Low(limit, t) < j <= Top(n, t)
    ensures InRound(n, limit, t, j) != [] && InRound(n, limit, t, j)[0] == j - 1
    ensures NextQueue(InRound(n, limit, t, j), Height(limit, t + 1, j - 1) < limit) == InRound(n, limit, t, j - 1)
  {
    var top, low, low' := Top(n, t), Low(limit, t), Low(limit, t + 1);
    var new0: seq<nat> := if t + 1 < n then [t + 1] else [];
    assert low' <= j;
    var rest := Down(top, j);
    DownFacts(j, low);
    assert InRound(n, limit, t, j)[1..] == Down(j - 1, low) + new0 + rest;
    if low' < j {
      DownFacts(top, j);
      assert Down(j - 1, low) + new0 + rest + [j - 1] == Down(j - 1, low) + new0 + (rest + [j - 1]);
    }
  }

  /** Counters and places in round t when tasks j and on have made their call. */
  ghost predicate Stairs<T>(p: Problem<T>, s: State<T>, t: nat, j: nat)
    requires p.Valid() && Shape(p, s)
  {
    forall i: nat | i < p.n :: Stair(p, s, t, j, i)
  }

  ghost predicate Stair<T>(p: Problem<T>, s: State<T>, t: nat, j: nat, i: nat)
    requires p.Valid() && Shape(p, s) && i < p.n
  {
    && s.iter[i] == Height(p.limit, if i < j then t else t + 1, i)
    && s.pc[i] == if s.iter[i] < p.limit then Idle else Done
  }

  /** Nobody is at work and nothing is owed. */
  ghost predicate AllEntering(s: Pool.Pool) {
    !s.owes && !s.stop && |s.workers| > 0 && forall w | 0 <= w < |s.workers| :: s.workers[w].Entering?
  }

  ghost predicate Diagonal<T>(p: Problem<T>, c: Course, r: Program<T>, t: nat, j: nat)
    requires p.Valid()
  {
    && Active(p, c, r) && AllEntering(r.pool) && r.pool.next == Top(p.n, t + 1)
    && r.pool.queue == InRound(p.n, p.limit, t, j)
    && Quiet(p, r.tasks) && Stairs(p, r.tasks, t, j)
  }

  /** Between two rounds. */
  ghost predicate Settled<T>(p: Problem<T>, c: Course, r: Program<T>, t: nat)
    requires p.Valid()
  {
    && Active(p, c, r) && AllEntering(r.pool) && r.pool.next == Top(p.n, t)
    && r.pool.queue == Down(Top(p.n, t), Low(p.limit, t))
    && Quiet(p, r.tasks) && Stairs(p, r.tasks, t, p.n)
  }

  lemma DiagonalFacts<T>(p: Problem<T>, c: Course, r: Program<T>, t: nat, j: nat)
    requires p.Valid() && Diagonal(p, c, r, t, j)
    ensures p.n >= 2 && Active(p, c, r) && AllEntering(r.pool) && r.pool.next == Top(p.n, t + 1) && Shape(p, r.tasks)
    ensures r.pool.queue == InRound(p.n, p.limit, t, j) && Quiet(p, r.tasks) && Stairs(p, r.tasks, t, j)
  {
  }

  lemma SettledFacts<T>(p: Problem<T>, c: Course, r: Program<T>, t: nat)
    requires p.Valid() && Settled(p, c, r, t)
    ensures Active(p, c, r) && AllEntering(r.pool) && Shape(p, r.tasks)
    ensures r.pool.queue == Down(Top(p.n, t), Low(p.limit, t)) && Quiet(p, r.tasks) && Stairs(p, r.tasks, t, p.n)
  {
  }

  lemma FirstStair<T>(p: Problem<T>)
    requires p.Valid() && p.limit >= 1
    ensures Quiet(p, Init(p)) && Stairs(p, Init(p), 0, p.n)
  {
    forall i: nat | i < p.n
      ensures QuietTask(p, Init(p), i) && Stair(p, Init(p), 0, p.n, i)
    {
    }
  }

  lemma SettledStart<T>(p: Problem<T>, c: Course) returns (r: Program<T>)
    requires p.Valid() && c.past == [] && p.limit >= 1 && c.threads >= 1
    ensures Settled(p, c, r, 0)
  {
    hide Active, Init, Quiet, Stairs, Shape, Filled, Down, AllEntering, Top, Low;
    r := EnqueueAll(p, c, 1);
    FirstStair(p);
    FirstFilled(p.n, c.threads, p.limit);
  }

  lemma FirstFilled(n: nat, threads: nat, limit: nat)
    requires n >= 2 && limit >= 1 && threads >= 1
    ensures var s := Filled(n, threads, 1);
            AllEntering(s) && s.next == Top(n, 0) && s.queue == Down(Top(n, 0), Low(limit, 0))
  {
    hide Filled;
    assert Filled(n, threads, 1).queue == [0] == Down(1, 0);
  }

  lemma AllOut(s: Pool.Pool)
    requires AllEntering(s)
    ensures NoneBlocked(s) && s.workers[0].Entering? && !s.owes && !s.stop && |s.workers| > 0
  {
  }

  /** Which tasks count as called makes no difference at the ends of a round. */
  lemma StairsShift<T>(p: Problem<T>, s: State<T>, t: nat)
    requires p.Valid() && Shape(p, s) && p.limit >= 1
    ensures Stairs(p, s, t, p.n) ==> Stairs(p, s, t, Top(p.n, t))
    ensures Stairs(p, s, t, Low(p.limit, t)) ==> Stairs(p, s, t + 1, p.n)
  {
    if Stairs(p, s, t, p.n) {
      forall i: nat | i < p.n
        ensures Stair(p, s, t, Top(p.n, t), i)
      {
        assert Stair(p, s, t, p.n, i);
      }
    }
    if Stairs(p, s, t, Low(p.limit, t)) {
      var u := t + 1;
      forall i: nat | i < p.n
        ensures Stair(p, s, u, p.n, i)
      {
        assert Stair(p, s, t, Low(p.limit, t), i);
      }
    }
  }

  /** Main enqueues the next task before the others make their calls. */
  lemma BeginRound<T>(p: Problem<T>, c: Course, r: Program<T>, t: nat) returns (r': Program<T>)
    requires p.Valid() && p.limit >= 1 && Settled(p, c, r, t) && Low(p.limit, t) < p.n
    ensures Diagonal(p, c, r', t, Top(p.n, t))
  {
    hide Active, Quiet, Stairs, InRound, Down, Shape, AllEntering, NoneBlocked, Low;
    ActiveFacts(p, c, r);
    AllOut(r.pool);
    RoundStarts(p.n, p.limit, t);
    StairsShift(p, r.tasks, t);
    r' := r;
    if t + 1 < p.n {
      r' := EnqueueMove(p, c, r);
      SameWorkers(r.pool, r'.pool);
    } else {
      assert Down(Top(p.n, t), Low(p.limit, t)) + [] == Down(Top(p.n, t), Low(p.limit, t));
    }
  }

  lemma SameWorkers(s: Pool.Pool, s': Pool.Pool)
    requires AllEntering(s) && s'.workers == s.workers && s'.owes == s.owes && s'.stop == s.stop
    ensures AllEntering(s')
  {
  }

  /** The neighbours of the next task to call are not behind it. */
  lemma StairPasses<T>(p: Problem<T>, s: State<T>, t: nat, j: nat)
    requires p.Valid() && Shape(p, s) && p.limit >= 1 && Low(p.limit, t) < j <= Top(p.n, t) && Stairs(p, s, t, j)
    ensures |s.iter| == |s.pc| == p.n
    ensures PreCondsMet(UpDiff(s, j - 1), DownDiff(s, j - 1)) && s.pc[j - 1].Idle?
    ensures s.iter[j - 1] + 1 == Height(p.limit, t + 1, j - 1)
  {
    var i := j - 1;
    assert Stair(p, s, t, j, i);
    if i > 0 {
      assert Stair(p, s, t, j, i - 1);
    }
    if j < p.n {
      assert Stair(p, s, t, j, j);
    }
  }

  lemma StairEarly<T>(p: Problem<T>, s: State<T>, t: nat, j: nat, k1: nat)
    requires p.Valid() && Shape(p, s) && p.limit >= 1 && Low(p.limit, t) < j <= Top(p.n, t) && Stairs(p, s, t, j)
    requires t + 1 < k1 + p.n && k1 < p.limit
    ensures |s.iter| == |s.pc| == p.n && Early(s, j - 1, p.n - 1, k1) && !s.pc[p.n - 1].Done?
    ensures Height(p.limit, t + 1, p.n - 1) < p.limit
  {
    assert Stair(p, s, t, j, p.n - 1);
  }

  lemma StairsNext<T>(p: Problem<T>, s: State<T>, s': State<T>, t: nat, j: nat)
    requires p.Valid() && Shape(p, s) && Shape(p, s') && p.limit >= 1 && Low(p.limit, t) < j <= Top(p.n, t)
    requires Stairs(p, s, t, j) && |s.iter| == |s.pc| == p.n
    requires s'.iter == s.iter[j - 1 := Height(p.limit, t + 1, j - 1)]
    requires s'.pc == s.pc[j - 1 := if s'.iter[j - 1] < p.limit then Idle else Done]
    ensures Stairs(p, s', t, j - 1)
  {
    var h := j - 1;
    forall i: nat | i < p.n
      ensures Stair(p, s', t, h, i)
    {
      assert Stair(p, s, t, j, i);
    }
  }

  /** The machine's side of a call in a round. */
  lemma StairCall<T>(p: Problem<T>, s: State<T>, t: nat, j: nat, k1: nat, m: nat)
    requires p.Valid() && p.limit >= 1 && FirstBelow(p, k1) && t + 1 < k1 + p.n && k1 < p.limit
    requires Shape(p, s) && Inv(p, s) && Quiet(p, s) && Stairs(p, s, t, j) && s.mutex.None?
    requires Low(p.limit, t) < j <= Top(p.n, t) && CallLasts(p, s, j - 1, m)
    ensures var s' := AfterCall(p, s, j - 1, m);
            && Shape(p, s') && Quiet(p, s') && Stairs(p, s', t, j - 1)
            && s'.pc[j - 1] == if Height(p.limit, t + 1, j - 1) < p.limit then Idle else Done
  {
    hide Shape, Inv, Quiet, AfterCall, CallLasts, Stairs, UpDiff, DownDiff, Early, Height;
    StairPasses(p, s, t, j);
    StairEarly(p, s, t, j, k1);
    var s' := AfterCall(p, s, j - 1, m);
    QuietWhole(p, s, j - 1, m, p.n - 1, k1);
    Sizes(p, s');
    WholeCall(p, s, j - 1, m);
    QuietLimit(p, s');
    StairsNext(p, s, s', t, j);
  }

  lemma QuietLimit<T>(p: Problem<T>, s: State<T>)
    requires p.Valid() && Shape(p, s) && Quiet(p, s)
    ensures s.maxIter == p.limit
  {
  }

  lemma RestingMutex<T>(p: Problem<T>, s: State<T>, t: nat, j: nat)
    requires p.Valid() && Shape(p, s) && Inv(p, s) && Stairs(p, s, t, j)
    ensures s.mutex.None?
  {
    forall b: nat | b < p.n
      ensures s.mutex != Some(b)
    {
      assert ClaimOk(p, s, b) && Stair(p, s, t, j, b);
    }
  }

  /** The next call of a round. */
  lemma RoundCall<T>(p: Problem<T>, c: Course, r: Program<T>, t: nat, j: nat, k1: nat) returns (r': Program<T>)
    requires p.Valid() && p.limit >= 1 && FirstBelow(p, k1) && t + 1 < k1 + p.n && k1 < p.limit
    requires Diagonal(p, c, r, t, j) && Low(p.limit, t) < j <= Top(p.n, t)
    ensures Diagonal(p, c, r', t, j - 1)
  {
    hide *;
    DiagonalFacts(p, c, r, t, j);
    ActiveFacts(p, c, r);
    ActiveInv(p, c, r);
    AllOut(r.pool);
    RoundGoesOn(p.n, p.limit, t, j);
    RestingMutex(p, r.tasks, t, j);
    var r1, m := MakeCall(p, c, r, 0);
    ActiveFacts(p, c, r1);
    Sizes(p, r1.tasks);
    StairCall(p, r.tasks, t, j, k1, m);
    r' := BackInLine(p, c, r, r1, t, j, k1);
  }

  /** The called task is put back, or counted. */
  lemma BackInLine<T>(p: Problem<T>, c: Course, r: Program<T>, r1: Program<T>, t: nat, j: nat, k1: nat)
    returns (r': Program<T>)
    requires p.Valid() && p.limit >= 1 && t + 1 < k1 + p.n && k1 < p.limit
    requires Active(p, c, r1) && AllEntering(r.pool) && r.pool.queue != [] && r.pool.queue[0] == j - 1
    requires r.pool.next == Top(p.n, t + 1) && Low(p.limit, t) < j <= Top(p.n, t)
    requires Shape(p, r1.tasks) && Quiet(p, r1.tasks) && Stairs(p, r1.tasks, t, j - 1) && |r1.tasks.pc| == p.n
    requires r1.tasks.pc[j - 1] == if Height(p.limit, t + 1, j - 1) < p.limit then Idle else Done
    requires r1.pool == Placed(r.pool, 0, AfterReturn(r1.tasks, j - 1)).(queue := r.pool.queue[1..])
    requires NextQueue(r.pool.queue, Height(p.limit, t + 1, j - 1) < p.limit) == InRound(p.n, p.limit, t, j - 1)
    ensures Diagonal(p, c, r', t, j - 1)
  {
    hide Active, Quiet, Stairs, InRound, Shape, Inv, ProgramInv, Reached, Low, Top, Height;
    if Height(p.limit, t + 1, j - 1) < p.limit {
      r' := RequeueMove(p, c, r1, 0);
    } else {
      var r2 := CountMove(p, c, r1, 0);
      LastTaskLeft(p, r1.tasks, t, j - 1, k1);
      SomeLeft(p, c, r2, p.n - 1);
      r' := TestMove(p, c, r2, 0);
    }
    assert r'.pool.workers[0].Entering?;
  }

  lemma LastTaskLeft<T>(p: Problem<T>, s: State<T>, t: nat, j: nat, k1: nat)
    requires p.Valid() && Shape(p, s) && p.limit >= 1 && Stairs(p, s, t, j) && t + 1 < k1 + p.n && k1 < p.limit
    ensures |s.pc| == p.n && !s.pc[p.n - 1].Done?
  {
    assert Stair(p, s, t, j, p.n - 1);
  }

  lemma {:induction false} RoundCalls<T>(p: Problem<T>, c: Course, r: Program<T>, t: nat, j: nat, k1: nat)
    returns (r': Program<T>)
    requires p.Valid() && p.limit >= 1 && FirstBelow(p, k1) && t + 1 < k1 + p.n && k1 < p.limit
    requires Diagonal(p, c, r, t, j) && Low(p.limit, t) <= j <= Top(p.n, t)
    ensures Diagonal(p, c, r', t, Low(p.limit, t))
    decreases j
  {
    hide Diagonal, FirstBelow, Low, Top;
    if j == Low(p.limit, t) {
      r' := r;
    } else {
      var r1 := RoundCall(p, c, r, t, j, k1);
      r' := RoundCalls(p, c, r1, t, j - 1, k1);
    }
  }

  lemma EndRound<T>(p: Problem<T>, c: Course, r: Program<T>, t: nat)
    requires p.Valid() && p.limit >= 1 && Low(p.limit, t) < p.n && Diagonal(p, c, r, t, Low(p.limit, t))
    ensures Settled(p, c, r, t + 1)
  {
    hide Quiet, Stairs, InRound, Down, AllEntering, Low;
    ActiveFacts(p, c, r);
    RoundEnds(p.n, p.limit, t);
    StairsShift(p, r.tasks, t);
  }

  lemma LowInRange(n: nat, limit: nat, t: nat, k1: nat)
    requires n >= 2 && t < k1 + n && k1 < limit
    ensures Low(limit, t) < n && Low(limit, t) <= Top(n, t)
  {
  }

  /** t rounds, as long as the last task has not come to iteration k1. */
  lemma {:induction false} Rounds<T>(p: Problem<T>, c: Course, t: nat, k1: nat) returns (r: Program<T>)
    requires p.Valid() && c.past == [] && FirstBelow(p, k1) && t < k1 + p.n && k1 < p.limit && c.threads >= 1
    ensures Settled(p, c, r, t)
  {
    hide Settled, Diagonal, FirstBelow, Low, Top;
    if t == 0 {
      r := SettledStart(p, c);
    } else {
      r := Rounds(p, c, t - 1, k1);
      LowInRange(p.n, p.limit, t - 1, k1);
      r := BeginRound(p, c, r, t - 1);
      r := RoundCalls(p, c, r, t - 1, Top(p.n, t - 1), k1);
      EndRound(p, c, r, t - 1);
    }
  }

  // ----- the last call: task z alone, with task 0 already at the limit -----

  /** A residual below the tolerance has been computed by task z or printed. */
  ghost predicate Noted<T>(p: Problem<T>, s: State<T>, z: nat)
    requires p.Valid() && Shape(p, s) && z < p.n
  {
    p.below(s.gres[z]) || exists t: nat :: t < |s.log| && p.below(s.log[t].res)
  }

  /** The scan for the largest counter that has passed task 0. */
  ghost predicate HighScan<T>(p: Problem<T>, s: State<T>, z: nat)
    requires p.Valid() && Shape(p, s) && z < p.n
  {
    var pc := s.pc[z];
    && (pc.MaxScan? || pc.MaxTake?) && (pc.j > 0 ==> pc.mx >= p.limit)
    && (pc.MaxTake? ==> pc.j < p.n && s.iter[pc.j] > pc.mx)
  }

  /** Task z cannot leave its call with resTermFlagSet, nor with a small residual unnoticed. */
  ghost predicate Doomed<T>(p: Problem<T>, s: State<T>, z: nat)
    requires p.Valid() && Shape(p, s) && z < p.n
  {
    && z > 0 && Inv(p, s) && MutexFor(s, z) && s.maxIter == p.limit <= s.iter[0] && 0 < p.limit
    && (s.term ==> s.pc[z] == Failed(882) || HighScan(p, s, z))
    && (!s.term ==> !Changing(s.pc[z]) && !s.pc[z].Failed?)
    && (!s.term && Noted(p, s, z) ==> Fresh(s.pc[z]) && p.below(s.gres[z]))
  }

  lemma DoomedScan<T>(p: Problem<T>, s: State<T>, z: nat)
    requires p.Valid() && Shape(p, s) && z < p.n && 0 < p.limit && s.maxIter == p.limit <= s.iter[0]
    requires HighScan(p, s, z)
    ensures Exec(p, s, z).pc[z] == Failed(882) || HighScan(p, Exec(p, s, z), z)
  {
    assert PcShape(p, z, s.pc[z]);
    assert Exec(p, s, z) == StepStop(p, s, z);
  }

  lemma DoomedTest<T>(p: Problem<T>, s: State<T>, z: nat)
    requires p.Valid() && Shape(p, s) && z < p.n && s.mutex.None? && s.pc[z].TestTol? && !s.term
    ensures var s' := Exec(p, s, z);
            && s'.term == p.below(s.gres[z])
            && (if s'.term then s'.pc[z] == MaxScan(0, 0) else s'.pc[z].Update?)
  {
    assert Exec(p, s, z) == StepStop(p, s, z);
  }

  lemma DoomedOther<T>(p: Problem<T>, s: State<T>, z: nat)
    requires p.Valid() && Shape(p, s) && z < p.n && Doomed(p, s, z) && InTask(s.pc[z]) && !s.term && !s.pc[z].TestTol?
    ensures var s' := Exec(p, s, z);
            && !s'.term && !Changing(s'.pc[z]) && !s'.pc[z].Failed?
            && (Noted(p, s', z) ==> Fresh(s'.pc[z]) && p.below(s'.gres[z]))
  {
    hide Inv, Exec;
    Frame(p, s, z);
    FreshStep(p, s, z);
  }

  lemma DoomedStep<T>(p: Problem<T>, s: State<T>, z: nat)
    requires p.Valid() && Shape(p, s) && z < p.n && Doomed(p, s, z) && InTask(s.pc[z])
    ensures Doomed(p, Exec(p, s, z), z)
  {
    hide Inv, Exec;
    var s' := Exec(p, s, z);
    StepKeeps(p, s, z);
    Frame(p, s, z);
    if Changing(s.pc[z]) {
      DoomedScan(p, s, z);
    } else if s.pc[z].TestTol? {
      MutexFree(p, s, z);
      DoomedTest(p, s, z);
    } else {
      DoomedOther(p, s, z);
    }
  }

  lemma {:induction false} DoomedAlone<T>(p: Problem<T>, s: State<T>, z: nat, m: nat)
    requires p.Valid() && Shape(p, s) && z < p.n && Doomed(p, s, z) && EndsAfter(p, s, z, m)
    ensures Doomed(p, Alone(p, s, z, m), z)
    decreases m
  {
    hide Doomed, Exec, Shape;
    if m > 0 {
      DoomedStep(p, s, z);
      DoomedAlone(p, Exec(p, s, z), z, m - 1);
    }
  }

  /** Leaving the call would mean that the reduction of k1 went unnoticed. */
  lemma DoomedEnd<T>(p: Problem<T>, s: State<T>, z: nat, k1: nat)
    requires p.Valid() && Shape(p, s) && z < p.n && Doomed(p, s, z) && FirstBelow(p, k1) && Passed(s.iter, k1)
    ensures !s.pc[z].Finish?
  {
    hide Norm, Exec;
    assert CoverOk(p, s, k1);
    var t: nat :| t < |s.log| && s.log[t].iter == k1;
    assert EntryOk(p, s, t);
  }

  lemma DoomedStart<T>(p: Problem<T>, s: State<T>, z: nat, k1: nat)
    requires p.Valid() && Shape(p, s) && z < p.n && Inv(p, s) && Quiet(p, s) && s.mutex.None? && FirstBelow(p, k1)
    requires z > 0 && s.pc[z].Sum? && s.iter[z] == k1 < p.limit <= s.iter[0]
    ensures Doomed(p, s, z)
  {
    hide Norm, Exec;
    assert QuietTask(p, s, z);
    forall t: nat | t < |s.log|
      ensures !p.below(s.log[t].res)
    {
      assert EntryOk(p, s, t) && SetAt(s, z, s.log[t].iter);
    }
  }

  lemma DoomedFails<T>(p: Problem<T>, s: State<T>, z: nat, m: nat, k1: nat)
    requires p.Valid() && Shape(p, s) && z < p.n && Doomed(p, s, z) && EndsAfter(p, s, z, m) && FirstBelow(p, k1)
    requires InTask(s.pc[z]) && s.iter[z] == k1 && forall j | 0 <= j < p.n && j != z :: s.iter[j] > k1
    ensures Alone(p, s, z, m).pc[z] == Failed(882)
  {
    hide Inv, Exec, Alone, FirstBelow;
    DoomedAlone(p, s, z, m);
    AloneCounts(p, s, z, m);
    AloneKeeps(p, s, z, m);
    var s' := Alone(p, s, z, m);
    if s'.pc[z].Finish? {
      assert Passed(s'.iter, k1);
      DoomedEnd(p, s', z, k1);
    }
  }

  /** The first small residual comes less than n iterations before the limit. */
  ghost predicate LateAt<T>(p: Problem<T>, k: nat)
    requires p.Valid()
  {
    FirstBelow(p, k) && k < p.limit < k + p.n
  }

  lemma LateFacts<T>(p: Problem<T>, k: nat)
    requires p.Valid() && LateAt(p, k)
    ensures FirstBelow(p, k) && k < p.limit < k + p.n && p.n >= 2
  {
  }

  /** When the last task comes to iteration k1, task 0 stands at the limit. */
  lemma TopOfStairs<T>(p: Problem<T>, s: State<T>, k1: nat)
    requires p.Valid() && Shape(p, s) && k1 < p.limit < k1 + p.n && Stairs(p, s, k1 + p.n - 1, p.n)
    ensures |s.iter| == |s.pc| == p.n && s.iter[p.n - 1] == k1 && s.iter[0] == p.limit
    ensures forall j | 0 <= j < p.n - 1 :: s.iter[j] > k1
    ensures PreCondsMet(UpDiff(s, p.n - 1), DownDiff(s, p.n - 1)) && s.pc[p.n - 1].Idle?
    ensures Low(p.limit, k1 + p.n - 1) < p.n == Top(p.n, k1 + p.n - 1)
  {
    forall i: nat | i < p.n
      ensures s.iter[i] == Height(p.limit, k1 + p.n - 1, i) && s.pc[i] == if s.iter[i] < p.limit then Idle else Done
    {
      assert Stair(p, s, k1 + p.n - 1, p.n, i);
    }
  }

  /** The machine's side of the failing call. */
  lemma LastCallFails<T>(p: Problem<T>, s: State<T>, k1: nat, m: nat)
    requires p.Valid() && Shape(p, s) && Inv(p, s) && Quiet(p, s) && s.mutex.None? && LateAt(p, k1)
    requires Stairs(p, s, k1 + p.n - 1, p.n) && CallLasts(p, s, p.n - 1, m)
    ensures p.n - 1 < |AfterCall(p, s, p.n - 1, m).pc| && AfterCall(p, s, p.n - 1, m).pc[p.n - 1] == Failed(882)
  {
    hide Inv, Alone, EndsAfter, FirstBelow, Quiet, Doomed, Stairs, Shape, UpDiff, DownDiff, Low, Top;
    TopOfStairs(p, s, k1);
    CheckedInv(p, s, p.n - 1);
    var s1 := Checked(p, s, p.n - 1);
    QuietAt(p, s, p.n - 1, s1.pc[p.n - 1]);
    DoomedStart(p, s1, p.n - 1, k1);
    DoomedFails(p, s1, p.n - 1, m, k1);
    Sizes(p, Alone(p, s1, p.n - 1, m));
  }

  /** A run of the program in which the assert fails, whenever the first small
      residual comes less than n iterations before the limit: one worker is enough. */
  lemma FailingRun<T>(p: Problem<T>, threads: nat, k1: nat) returns (r: Program<T>)
    requires p.Valid() && LateAt(p, k1) && threads >= 1
    ensures Reachable(p, threads, r) && p.n - 1 < |r.tasks.pc| && r.tasks.pc[p.n - 1] == Failed(882)
  {
    hide *;
    var c := Course(threads, []);
    LateFacts(p, k1);
    var r0 := Rounds(p, c, k1 + p.n - 1, k1);
    SettledFacts(p, c, r0, k1 + p.n - 1);
    ActiveFacts(p, c, r0);
    ActiveInv(p, c, r0);
    AllOut(r0.pool);
    RestingMutex(p, r0.tasks, k1 + p.n - 1, p.n);
    TopOfStairs(p, r0.tasks, k1);
    DownFacts(p.n, Low(p.limit, k1 + p.n - 1));
    var m: nat;
    r, m := MakeCall(p, c, r0, 0);
    LastCallFails(p, r0.tasks, k1, m);
    ActiveFacts(p, c, r);
    ActiveReachable(p, c, r);
  }

  // ----- exactly when -----

  ghost predicate NoneFailed<T>(s: State<T>) {
    forall i | 0 <= i < |s.pc| :: !s.pc[i].Failed?
  }

  /** The solver has a stopping iteration unless the first small residual comes too late. */
  lemma StopsOrLate<T>(p: Problem<T>) returns (last: nat)
    requires p.Valid() && p.limit >= 1 && !exists k: nat :: LateAt(p, k)
    ensures StopsAt(p, last)
  {
    hide Norm;
    var k := FirstOrNone(p, p.limit);
    assert k < p.limit ==> !LateAt(p, k);
    last := if k < p.limit then k + p.n else p.limit;
  }

  lemma NoneFails<T>(p: Problem<T>, s: State<T>, last: nat)
    requires p.Valid() && StopsAt(p, last) && Reached(p, s)
    ensures NoneFailed(s)
  {
    hide Reached, StopsAt;
    ReachedStop(p, s, last);
    forall i | 0 <= i < |s.pc|
      ensures !s.pc[i].Failed?
    {
      assert CounterOk(p, s, i);
    }
  }

  /** With any number of workers: no run of the program fails an assert of task.cpp,
      unless the first residual below the tolerance comes less than n iterations
      before the limit; then some run does. */
  lemma LimitAssertHoldsIff<T>(p: Problem<T>, threads: nat)
    requires p.Valid() && p.limit >= 1 && threads >= 1
    ensures (forall r: Program<T> | Reachable(p, threads, r) :: NoneFailed(r.tasks)) <==> !exists k: nat :: LateAt(p, k)
  {
    hide LateAt, Reachable, Inv, Reached, StopsAt;
    if k: nat :| LateAt(p, k) {
      var r := FailingRun(p, threads, k);
      assert !NoneFailed(r.tasks);
    } else {
      var last := StopsOrLate(p);
      forall r: Program<T> | Reachable(p, threads, r)
        ensures NoneFailed(r.tasks)
      {
        ReachableInv(p, threads, r);
        NoneFails(p, r.tasks, last);
      }
    }
  }

  /** The same for free schedules of the tasks: the pool adds no way to fail, and
      takes none away. */
  lemma AssertsHoldIff<T>(p: Problem<T>)
    requires p.Valid() && p.limit >= 1
    ensures (forall s: State<T> | Reached(p, s) :: NoneFailed(s)) <==> !exists k: nat :: LateAt(p, k)
  {
    hide LateAt, Reachable, Inv, Reached, StopsAt;
    if k: nat :| LateAt(p, k) {
      var r := FailingRun(p, 1, k);
      ReachableInv(p, 1, r);
      assert !NoneFailed(r.tasks);
    } else {
      var last := StopsOrLate(p);
      forall s: State<T> | Reached(p, s)
        ensures NoneFailed(s)
      {
        NoneFails(p, s, last);
      }
    }
  }
}
