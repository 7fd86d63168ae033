/** The program in the form it is written: tasks, the grid and the static members
    as objects, the code of a call as methods. Each method keeps, as a ghost
    field, the state of the machine it has brought the objects to, so whatever
    holds of all runs of the machine holds of the objects. */
module Program {
  import opened Jacobi
  import opened Residual
  import opened Machine
  import opened Skew
  import opened Refinement
  import opened Ring
  import opened Stopping
  import opened Runs
  import opened Calls
  import opened Polling
  import opened SerialSolver

  datatype Boundary = TopBound | InteriorTask | BottomBound

  class Grid<T> {
    const u1: array<T>
    const u2: array<T>
    const numCols: nat
    const numLocRows: nat
    var gridRes: Option<T>      // grid_gres_
    var gridIter: Option<nat>   // grid_iters_

    constructor (p: Problem<T>)
      requires p.Valid()
      ensures fresh(u1) && fresh(u2) && u1 != u2 && u1[..] == p.u1 && u2[..] == p.u2
      ensures numCols == p.cols && numLocRows == p.loc && gridRes == None && gridIter == None
    {
      u1 := new T[|p.u1|](k requires 0 <= k < |p.u1| => p.u1[k]);
      u2 := new T[|p.u2|](k requires 0 <= k < |p.u2| => p.u2[k]);
      numCols, numLocRows := p.cols, p.loc;
      gridRes, gridIter := None, None;
    }

    function GetSrcVec(curIter: nat): array<T> {
      if curIter % 2 == 0 then u1 else u2
    }

    function GetDestVec(curIter: nat): array<T> {
      if curIter % 2 == 0 then u2 else u1
    }
  }

  /** The static members of Task and the globals of Utility. */
  class World<T> {
    const p: Problem<T>
    const grid: Grid<T>
    var tasks: seq<Task<T>>
    var maxIter: nat
    var resTermFlagSet: bool
    var isAllTasksDone: seq<bool>
    var output: seq<Entry<T>>
    ghost var m: State<T>

    constructor (p: Problem<T>, grid: Grid<T>)
      ensures this.p == p && this.grid == grid
      ensures tasks == [] && maxIter == p.limit && !resTermFlagSet && output == []
      ensures isAllTasksDone == seq(p.n, _ => false)
    {
      this.p, this.grid := p, grid;
      tasks, maxIter, resTermFlagSet, output := [], p.limit, false, [];
      isAllTasksDone := seq(p.n, _ => false);
    }

    ghost predicate TaskOk(s: State<T>, i: nat)
      requires p.Valid() && Shape(p, s) && i < p.n && |tasks| == p.n
      reads this`tasks, tasks
    {
      var t := tasks[i];
      && t.id == i && t.rowStart == RowStart(p, i) && t.rowEnd == RowStart(p, i + 1)
      && t.boundary == (if i == 0 then TopBound else if i + 1 == p.n then BottomBound else InteriorTask)
      && t.up == (if i == 0 then null else tasks[i - 1])
      && t.down == (if i + 1 == p.n then null else tasks[i + 1])
      && t.iterNumber == s.iter[i] && t.locRes == s.locRes[i] && t.locIters == s.flags[i] && t.globalRes == s.gres[i]
    }

    ghost predicate TasksOk(s: State<T>)
      requires p.Valid() && Shape(p, s)
      reads this`tasks, tasks
    {
      |tasks| == p.n && forall i: nat | i < p.n :: TaskOk(s, i)
    }

    ghost predicate GridOk(s: State<T>)
      reads grid, grid.u1, grid.u2
    {
      && grid.numCols == p.cols && grid.numLocRows == p.loc && grid.u1 != grid.u2
      && grid.u1[..] == s.u1 && grid.u2[..] == s.u2
      && grid.gridRes == s.gridRes && grid.gridIter == s.gridIter
    }

    /** The objects hold what state s of the machine says, apart from where the tasks are. */
    ghost predicate Shows(s: State<T>)
      requires p.Valid() && Shape(p, s)
      reads this`tasks, this`maxIter, this`resTermFlagSet, this`isAllTasksDone, this`output
      reads tasks, grid, grid.u1, grid.u2
    {
      && TasksOk(s)
      && maxIter == s.maxIter && resTermFlagSet == s.term && isAllTasksDone == s.done && output == s.log
      && GridOk(s)
    }

    /** The objects hold state s in the middle of a call. */
    ghost predicate Within(s: State<T>)
      reads this`tasks, this`maxIter, this`resTermFlagSet, this`isAllTasksDone, this`output
      reads tasks, grid, grid.u1, grid.u2
    {
      p.Valid() && Shape(p, s) && s.mutex == None && Shows(s)
    }

    /** The objects are in state m, which some run of the machine reaches. */
    ghost predicate Valid()
      reads this, tasks, grid, grid.u1, grid.u2
    {
      Within(m) && Reached(p, m)
    }

    /** Moving only the place of a task leaves the objects as they are. */
    lemma ShowsAt(s: State<T>, i: nat, pc: Pc<T>)
      requires p.Valid() && i < p.n && Shape(p, s) && Shows(s) && Reached(p, At(s, i, pc))
      ensures Shape(p, At(s, i, pc)) && Shows(At(s, i, pc))
    {
      hide Reached;
      ReachedShape(p, At(s, i, pc), i);
      SameTasks(s, At(s, i, pc));
    }

    lemma SameTasks(s: State<T>, s': State<T>)
      requires p.Valid() && Shape(p, s) && Shape(p, s') && TasksOk(s)
      requires s'.iter == s.iter && s'.locRes == s.locRes && s'.flags == s.flags && s'.gres == s.gres
      ensures TasksOk(s')
    {
      forall j: nat | j < p.n
        ensures TaskOk(s', j)
      {
        assert TaskOk(s, j);
      }
    }

    lemma Sizes(s: State<T>, i: nat)
      requires Within(s) && i < |tasks|
      ensures p.Valid() && Shape(p, s) && |tasks| == |s.pc| == |s.iter| == |s.flags| == p.n
      ensures tasks[i].iterNumber == s.iter[i]
    {
      hide Reached;
      assert TaskOk(s, i);
    }

    lemma Now(t: Task<T>)
      requires Valid() && Has(t)
      ensures p.Valid() && Shape(p, m) && t.id < |tasks| == |m.pc| == |m.iter| == |m.gres| == p.n
      ensures t.iterNumber == m.iter[t.id] && t in tasks
    {
      hide Reached;
      assert TaskOk(m, t.id);
    }

    lemma Enter(t: Task<T>, pc: Pc<T>)
      requires Valid() && Has(t) && Place(t.id, pc)
      ensures t.id < |m.pc| && Within(m) && Reached(p, At(m, t.id, pc))
      ensures m == m.(u1 := grid.u1[..], u2 := grid.u2[..])
    {
      hide Reached;
      AtSame(m, t.id);
    }

    lemma Ready(i: nat)
      requires Valid() && i < p.n && i < |m.pc| && m.pc[i] == Idle
      ensures i < |tasks| && Has(tasks[i]) && tasks[i].id == i && Place(i, Idle)
    {
      hide Reached;
      assert TaskOk(m, i);
    }

    lemma Known()
      requires Valid()
      ensures p.Valid() && Shape(p, m) && Reached(p, m) && |tasks| == p.n >= 2
      ensures grid.u1[..] == m.u1 && grid.u2[..] == m.u2 && grid.gridRes == m.gridRes
      ensures grid.gridIter == m.gridIter && output == m.log
    {
      hide Reached;
    }

    ghost predicate Place(i: nat, pc: Pc<T>)
      reads this`m
    {
      i < |m.pc| && m.pc[i] == pc
    }

    ghost predicate Has(t: Task<T>)
      reads this`tasks
    {
      t.id < |tasks| && tasks[t.id] == t
    }
  }

  /** The cells read for cell (r, c), by their position in the buffer. */
  lemma ReadsAt<T>(p: Problem<T>, s: State<T>, i: nat, r: nat, c: nat, src: seq<T>)
    requires p.Valid() && Shape(p, s) && i < p.n && src == Src(s, s.iter[i])
    requires Lo(p, i) <= r < Hi(p, i) && 1 <= c < p.cols - 1
    ensures r * p.cols + c == Idx(p, r, c) && p.cols <= Idx(p, r, c) && Idx(p, r, c) + p.cols < |src|
    ensures var ind := Idx(p, r, c);
            && Read(p, s, i, r, c, 0) == src[ind - p.cols] && Read(p, s, i, r, c, 1) == src[ind - 1]
            && Read(p, s, i, r, c, 2) == src[ind] && Read(p, s, i, r, c, 3) == src[ind + 1]
            && Read(p, s, i, r, c, 4) == src[ind + p.cols]
  {
    BandOfTask(p, i, r);
    IdxInBounds(p, r + 1, c);
    TimesIsProduct(r, p.cols);
  }

  /** The rows task i updates hold iterate k. */
  ghost predicate BandHolds<T>(p: Problem<T>, k: nat, buffer: seq<T>, i: nat)
    requires p.Valid() && i < p.n && |buffer| == Times(p.rows, p.cols)
  {
    forall r: nat, c: nat | InGrid(p, r, c) && Lo(p, i) <= r < Hi(p, i) && 1 <= c < p.cols - 1 ::
      HoldsIterate(p, k, buffer, r, c)
  }

  /** At the end of updateGrid the band holds the next iterate. */
  lemma BandAdvanced<T>(p: Problem<T>, s: State<T>, i: nat)
    requires p.Valid() && Shape(p, s) && Reached(p, s) && i < p.n && s.pc[i].Post?
    ensures BandHolds(p, s.iter[i] + 1, Dest(s, s.iter[i]), i)
  {
    hide Reached, Iterate;
    ReachedInv(p, s);
    forall r: nat, c: nat | InGrid(p, r, c) && Lo(p, i) <= r < Hi(p, i) && 1 <= c < p.cols - 1
      ensures HoldsIterate(p, s.iter[i] + 1, Dest(s, s.iter[i]), r, c)
    {
      BandOfTask(p, i, r);
      assert CellOk(p, s, r, c);
    }
  }

  /** Where the loops over the rows from start stand when they come to (r, c). A
      grid without interior columns has nothing to loop over. */
  ghost function CellFrom<T>(p: Problem<T>, start: nat, r: nat, c: nat): (nat, nat) {
    if p.cols <= 2 then (start, 1) else if c + 1 < p.cols then (r, c) else (r + 1, 1)
  }

  ghost function UpdateFrom<T>(p: Problem<T>, start: nat, r: nat, c: nat): Pc<T> {
    Update(CellFrom(p, start, r, c).0, CellFrom(p, start, r, c).1, [])
  }

  lemma UpdateFromStart<T>(p: Problem<T>, start: nat)
    ensures UpdateFrom(p, start, start, 1) == Update(start, 1, [])
  {
  }

  ghost function SumFrom<T>(p: Problem<T>, start: nat, r: nat, c: nat, acc: T): Pc<T> {
    Sum(CellFrom(p, start, r, c).0, CellFrom(p, start, r, c).1, [], acc)
  }

  /** Flags of slot ind reset in the first j tasks. */
  ghost function ClearedTo(flags: seq<seq<bool>>, ind: nat, j: nat): (r: seq<seq<bool>>)
    requires j <= |flags| && forall a | 0 <= a < |flags| :: ind < |flags[a]|
    ensures |r| == |flags|
    ensures forall a | 0 <= a < |flags| :: r[a] == if a < j then flags[a][ind := false] else flags[a]
  {
    seq(|flags|, a requires 0 <= a < |flags| => if a < j then flags[a][ind := false] else flags[a])
  }

  lemma ClearedNext(flags: seq<seq<bool>>, ind: nat, j: nat)
    requires j < |flags| && forall a | 0 <= a < |flags| :: ind < |flags[a]|
    ensures var r := ClearedTo(flags, ind, j);
            ClearedTo(flags, ind, j + 1) == r[j := r[j][ind := false]]
  {
  }

  /** One turn of the reduction loop, in the machine. */
  lemma ReduceNext<T>(p: Problem<T>, m1: State<T>, s0: State<T>, s: State<T>, i: nat, ind: nat, j: nat, acc: T)
    requires p.Valid() && Shape(p, m1) && Shape(p, s0) && i < p.n && j < p.n && ind == Slot(p.n, m1.iter[i])
    requires s0 == m1.(flags := ClearedTo(m1.flags, ind, j)) && s == s0.(gres := s0.gres[i := acc])
    requires Reached(p, At(s0, i, Reduce(j, acc)))
    ensures var x := p.add(acc, s.locRes[j][ind]);
            var s0' := m1.(flags := ClearedTo(m1.flags, ind, j + 1));
            && Shape(p, s0') && Reached(p, At(s0', i, Reduce(j + 1, x)))
            && s.(gres := s.gres[i := x], flags := s.flags[j := s.flags[j][ind := false]])
               == s0'.(gres := s0'.gres[i := x])
  {
    hide Reached;
    ReduceReached(p, s0, i, j, acc);
    ClearedNext(m1.flags, ind, j);
    var x := p.add(acc, s.locRes[j][ind]);
    assert s0.gres[i := acc][i := x] == s0.gres[i := x];
  }

  /** All tasks have set their flag of slot ind. */
  ghost predicate AllMarked(flags: seq<seq<bool>>, ind: nat)
    requires forall a | 0 <= a < |flags| :: ind < |flags[a]|
  {
    forall a | 0 <= a < |flags| :: flags[a][ind]
  }

  /** After the reduction of the slot of task i. */
  ghost function Collected<T>(p: Problem<T>, s: State<T>, i: nat): (s': State<T>)
    requires p.Valid() && Shape(p, s) && i < p.n
    ensures Shape(p, s')
  {
    Reported(p, s.(flags := ClearedTo(s.flags, Slot(p.n, s.iter[i]), p.n)), i, Norm(p, s.iter[i]))
  }

  /** What syncResidual does when nobody interferes: the last of the tasks to
      contribute resets the flags and reports the residual of its iteration. */
  ghost function Synced<T>(p: Problem<T>, s: State<T>, i: nat, x: T): (s': State<T>)
    requires p.Valid() && Shape(p, s) && i < p.n
    ensures Shape(p, s') && s'.pc == s.pc && s'.iter == s.iter && s'.maxIter == s.maxIter && s'.term == s.term
    ensures s'.log == s.log || s'.log == s.log + [Entry(s.iter[i], i, Norm(p, s.iter[i]))]
  {
    var ind := Slot(p.n, s.iter[i]);
    var s1 := Marked(p, s, i, x);
    if AllMarked(s1.flags, ind) && !s1.done[ind] then Collected(p, s1, i) else s1
  }

  /** The reducer leaves the done bit as it was before it claimed it. */
  lemma ClearedAgain<T>(p: Problem<T>, s: State<T>, i: nat, ind: nat)
    requires p.Valid() && Shape(p, s) && i < p.n && ind == Slot(p.n, s.iter[i]) && !s.done[ind]
    ensures Collected(p, s.(done := s.done[ind := true]), i) == Collected(p, s, i)
  {
    assert s.done[ind := true][ind := false] == s.done[ind := false];
  }

  /** Whether the state after syncResidual makes its task the first to notice. */
  predicate Notices<T>(p: Problem<T>, s: State<T>, i: nat)
    requires i < |s.gres|
  {
    p.below(s.gres[i]) && !s.term
  }

  /** What performTask does apart from the update of the grid, if its assert holds. */
  ghost function Performed<T>(p: Problem<T>, s: State<T>, i: nat): (s': State<T>)
    requires p.Valid() && Shape(p, s) && i < p.n
    ensures Shape(p, s') && s'.pc == s.pc && s'.iter == s.iter && (s.term ==> s'.term)
    ensures s'.maxIter == s.maxIter || (s'.maxIter == s.iter[i] + p.n && Notices(p, Computed(p, s, i), i))
    ensures s'.log == s.log || s'.log == s.log + [Entry(s.iter[i], i, Norm(p, s.iter[i]))]
  {
    var s1 := Computed(p, s, i);
    if Notices(p, s1, i) then s1.(term := true, maxIter := s.iter[i] + p.n) else s1
  }

  /** The state after updateResidual. */
  ghost function Computed<T>(p: Problem<T>, s: State<T>, i: nat): (s': State<T>)
    requires p.Valid() && Shape(p, s) && i < p.n
    ensures Shape(p, s') && s'.pc == s.pc && s'.iter == s.iter && s'.maxIter == s.maxIter && s'.term == s.term
    ensures s'.log == s.log || s'.log == s.log + [Entry(s.iter[i], i, Norm(p, s.iter[i]))]
  {
    Synced(p, s, i, LocalResidual(p, i, s.iter[i]))
  }

  ghost predicate AllUnder(iter: seq<nat>, limit: nat) {
    forall j | 0 <= j < |iter| :: iter[j] < limit
  }

  /** The task is the first to notice a small residual, but some counter has
      already reached the limit. */
  ghost predicate AssertFails<T>(p: Problem<T>, s: State<T>, i: nat)
    requires p.Valid() && Shape(p, s) && i < p.n
  {
    Notices(p, Computed(p, s, i), i) && !AllUnder(s.iter, s.maxIter)
  }

  lemma SyncedAt<T>(p: Problem<T>, s: State<T>, i: nat, x: T)
    requires p.Valid() && Shape(p, s) && i < p.n && Shape(p, At(s, i, PutRes(x)))
    ensures At(Synced(p, At(s, i, PutRes(x)), i, x), i, TestTol) == At(Synced(p, s, i, x), i, TestTol)
  {
    hide Norm;
    AtAt(s, i, PutRes(x), TestTol);
  }

  /** The stages of performTask before the update put together. */
  lemma Stages<T>(p: Problem<T>, m0: State<T>, i: nat, m2: State<T>, m4: State<T>, met: bool)
    requires p.Valid() && Shape(p, m0) && Shape(p, m2) && i < p.n && i < |m2.gres| && i < |m2.iter|
    requires m2 == At(Computed(p, m0, i), i, TestTol)
    requires met == (p.below(m2.gres[i]) && !m2.term)
    requires var m3 := At(m2.(term := true), i, MaxScan(0, 0)).(maxIter := m2.iter[i] + p.n);
             m4 == At(if met then m3 else m2, i, Update(Lo(p, i), 1, []))
    ensures m4 == At(Performed(p, m0, i), i, Update(Lo(p, i), 1, []))
  {
    hide Computed;
    var s1 := Computed(p, m0, i);
    AtAt(s1, i, TestTol, MaxScan(0, 0));
    AtAt(s1, i, TestTol, Update(Lo(p, i), 1, []));
    AtAt(s1, i, MaxScan(0, 0), Update(Lo(p, i), 1, []));
  }

  /** The same up to an assert that fails. */
  lemma StagesFail<T>(p: Problem<T>, m0: State<T>, i: nat, m2: State<T>, m4: State<T>)
    requires p.Valid() && Shape(p, m0) && i < p.n && m2 == At(Computed(p, m0, i), i, TestTol)
    requires m4 == At(At(m2.(term := true), i, MaxScan(0, 0)), i, Failed(882))
    ensures m4 == At(Computed(p, m0, i).(term := true), i, Failed(882))
  {
    hide Computed;
    var s1 := Computed(p, m0, i);
    AtAt(s1, i, TestTol, MaxScan(0, 0));
    AtAt(s1, i, MaxScan(0, 0), Failed(882));
  }

  lemma WhetherHeld<T>(p: Problem<T>, m0: State<T>, i: nat, m2: State<T>, m3: State<T>, met: bool)
    requires p.Valid() && Shape(p, m0) && i < p.n && m2 == At(Computed(p, m0, i), i, TestTol)
    requires i < |m2.gres| && met == (p.below(m2.gres[i]) && !m2.term)
    requires m3 == if met then At(m2.(term := true), i, MaxScan(0, 0)) else At(m2, i, Update(Lo(p, i), 1, []))
    ensures m3.iter == m2.iter
    ensures AssertFails(p, m0, i) <==> met && !AllUnder(m3.iter, m3.maxIter)
  {
    hide Computed, AllUnder;
  }

  lemma Updated<T>(p: Problem<T>, m0: State<T>, i: nat, m4: State<T>, m5: State<T>, u1: seq<T>, u2: seq<T>)
    requires p.Valid() && Shape(p, m0) && i < p.n && i < |m4.pc|
    requires m4 == At(Performed(p, m0, i), i, Update(Lo(p, i), 1, []))
    requires m5 == At(m4.(u1 := u1, u2 := u2), i, Post)
    ensures m5 == At(Performed(p, m0, i).(u1 := u1, u2 := u2), i, Post)
  {
    hide Performed;
    AtAt(Performed(p, m0, i).(u1 := u1, u2 := u2), i, Update(Lo(p, i), 1, []), Post);
  }

  /** How a call ends: with the answer whether to repeat it, or by an assert. */
  datatype Outcome = Returned(again: bool) | Aborted

  ghost predicate OneMoreLine<T>(log: seq<Entry<T>>, log': seq<Entry<T>>, iter: nat, task: nat) {
    |log'| == |log| + 1 && log == log'[..|log|] && log'[|log|].iter == iter && log'[|log|].task == task
  }

  /** What a call that returns does besides counting: it prints at most one line, and
      it changes the limit only while all counters are below it. */
  ghost predicate Reports<T>(s: State<T>, s': State<T>, i: nat)
    requires i < |s.iter|
  {
    && (s'.log == s.log || (s'.iter != s.iter && OneMoreLine(s.log, s'.log, s.iter[i], i)))
    && (s'.maxIter == s.maxIter || AllUnder(s.iter, s.maxIter)) && (s.term ==> s'.term)
  }

  /** A call that fails the assert of changeMaxIter: a counter has reached the limit. */
  ghost predicate CallFails<T>(s: State<T>, s': State<T>, i: nat)
    requires i < |s.pc|
  {
    s'.pc == s.pc[i := Failed(882)] && s'.iter == s.iter && s'.maxIter == s.maxIter && !AllUnder(s.iter, s.maxIter)
  }

  /** The effect of a whole call of task i on counters, places, the limit and the output. */
  ghost predicate Effect<T>(s: State<T>, s': State<T>, i: nat, outcome: Outcome)
    requires i < |s.iter| == |s.pc|
  {
    match outcome
    case Returned(again) => Called(s, s', i, again) && Reports(s, s', i)
    case Aborted => CallFails(s, s', i)
  }

  /** A call whose check failed, one whose task was performed, and one that failed. */
  lemma CalledIdly<T>(p: Problem<T>, m0: State<T>, m1: State<T>, m2: State<T>, i: nat, finished: bool)
    requires p.Valid() && Shape(p, m0) && i < |m0.pc| == |m0.iter| == |m1.pc| == |m1.iter|
    requires !PreCondsMet(UpDiff(m0, i), DownDiff(m0, i)) && m1 == At(m0, i, Finish)
    requires finished == (m1.iter[i] >= m1.maxIter) && m2 == At(m1, i, if finished then Done else Idle)
    ensures Effect(m0, m2, i, Returned(!finished))
  {
  }

  lemma CalledThrough<T>(p: Problem<T>, m0: State<T>, ma: State<T>, mb: State<T>, m1: State<T>, m2: State<T>,
                         i: nat, u1: seq<T>, u2: seq<T>, finished: bool)
    requires p.Valid() && Shape(p, m0) && Shape(p, ma) && i < p.n
    requires i < |m0.pc| == |m0.iter| == |m1.pc| == |m1.iter| && i < |mb.iter|
    requires PreCondsMet(UpDiff(m0, i), DownDiff(m0, i)) && ma == At(m0, i, Sum(Lo(p, i), 1, [], p.zero))
    requires !AssertFails(p, ma, i) && mb == At(Performed(p, ma, i).(u1 := u1, u2 := u2), i, Post)
    requires m1 == At(mb.(iter := mb.iter[i := mb.iter[i] + 1]), i, Finish)
    requires finished == (m1.iter[i] >= m1.maxIter) && m2 == At(m1, i, if finished then Done else Idle)
    ensures Effect(m0, m2, i, Returned(!finished))
  {
    hide Performed, Computed, AllUnder, Notices;
    assert m2.iter == m0.iter[i := m0.iter[i] + 1];
    assert m2.iter[i] != m0.iter[i];
  }

  lemma CalledInVain<T>(p: Problem<T>, m0: State<T>, ma: State<T>, mb: State<T>, i: nat)
    requires p.Valid() && Shape(p, m0) && Shape(p, ma) && i < p.n && i < |m0.pc| == |m0.iter|
    requires ma == At(m0, i, Sum(Lo(p, i), 1, [], p.zero))
    requires AssertFails(p, ma, i) && mb == At(Computed(p, ma, i).(term := true), i, Failed(882))
    ensures Effect(m0, mb, i, Aborted)
  {
    hide Computed, AllUnder, Notices;
    AtAt(m0, i, Sum(Lo(p, i), 1, [], p.zero), Failed(882));
  }

  class Task<T> {
    const id: nat
    const rowStart: nat
    const rowEnd: nat           // not included
    const boundary: Boundary
    var up: Task?<T>
    var down: Task?<T>
    var iterNumber: nat
    var locRes: seq<T>          // loc_res2_
    var locIters: seq<bool>     // loc_iters_
    var globalRes: T            // global_res_

    constructor (id: nat, p: Problem<T>, boundary: Boundary)
      requires p.Valid() && id < p.n
      ensures this.id == id && this.boundary == boundary
      ensures rowStart == RowStart(p, id) && rowEnd == RowStart(p, id + 1)
      ensures rowStart == id * p.loc && rowEnd - rowStart == p.loc
      ensures iterNumber == 0 && globalRes == p.huge
      ensures locRes == seq(p.n, _ => p.zero) && locIters == seq(p.n, _ => false)
    {
      this.id, this.boundary := id, boundary;
      TimesIsProduct(id, p.loc);
      rowStart := id * p.loc;
      rowEnd := id * p.loc + p.loc;
      up, down := null, null;
      iterNumber, globalRes := 0, p.huge;
      locRes, locIters := seq(p.n, _ => p.zero), seq(p.n, _ => false);
    }

    method SetNbrs(up: Task?<T>, down: Task?<T>)
      modifies this`up, this`down
      ensures this.up == up && this.down == down
    {
      this.up, this.down := up, down;
    }

    /** The check passes exactly when no neighbour is behind; both reads are
        within one of the own counter. */
    method IsPreCondsMet(w: World<T>) returns (met: bool)
      requires w.Valid() && w.Has(this) && w.Place(id, Idle)
      modifies w`m
      ensures w.Valid()
      ensures met == PreCondsMet(UpDiff(old(w.m), id), DownDiff(old(w.m), id))
      ensures w.m == At(old(w.m), id, if met then Sum(Lo(w.p, id), 1, [], w.p.zero) else Finish)
      ensures w.Place(id, if met then Sum(Lo(w.p, id), 1, [], w.p.zero) else Finish)
    {
      hide Reached;
      var diff1, diff2 := 0, 0;
      assert w.TaskOk(w.m, id);
      if boundary != TopBound {
        assert up != null && w.TaskOk(w.m, id - 1);
        diff1 := iterNumber as int - up.iterNumber;
      }
      if boundary != BottomBound {
        assert down != null && w.TaskOk(w.m, id + 1);
        diff2 := iterNumber as int - down.iterNumber;
      }
      AtSame(w.m, id);
      CheckReached(w.p, w.m, id);
      // Sanity check
      assert Abs(diff1) <= 1 && Abs(diff2) <= 1;
      met := (diff1 == 0 || diff1 == -1) && (diff2 == 0 || diff2 == -1);
      ghost var pc := if met then Sum(Lo(w.p, id), 1, [], w.p.zero) else Finish;
      w.ShowsAt(w.m, id, pc);
      w.m := At(w.m, id, pc);
    }

    /** The rows of the band this task updates. */
    method Rows(w: World<T>) returns (startRow: nat, endRow: nat)
      requires w.Valid() && w.Has(this)
      ensures startRow == Lo(w.p, id) && endRow as int == Hi(w.p, id)
      ensures startRow == id * w.p.loc + if boundary == TopBound then 1 else 0
      ensures endRow == id * w.p.loc + w.p.loc - if boundary == BottomBound then 1 else 0
    {
      hide Reached;
      assert w.TaskOk(w.m, id);
      BandOfTask(w.p, id, 0);
      TimesIsProduct(id, w.p.loc);
      startRow := w.grid.numLocRows * id + 0;
      endRow := startRow + w.grid.numLocRows;
      if boundary == TopBound {
        startRow := startRow + 1;
      } else if boundary == BottomBound {
        endRow := endRow - 1;
      }
    }

    /** Sums over exactly the interior cells of the band, in order. */
    method GetLocResidual(w: World<T>) returns (locResidual: T)
      requires w.Valid() && w.Has(this) && w.Place(id, Sum(Lo(w.p, id), 1, [], w.p.zero))
      modifies w`m
      ensures w.Valid()
      ensures w.m == At(old(w.m), id, PutRes(locResidual)) && w.Place(id, PutRes(locResidual))
      ensures locResidual == LocalResidual(w.p, id, iterNumber)
    {
      hide Reached, LocalSum, LocalResidual, Read, Idx;
      var startRow, endRow := Rows(w);
      var p, numCols := w.p, w.grid.numCols;
      assert w.TaskOk(w.m, id);
      var dest := w.grid.GetSrcVec(iterNumber);
      locResidual := p.zero;
      ghost var m0 := w.m;
      AtSame(m0, id);
      assert dest[..] == Src(m0, iterNumber);
      var iRow := startRow;
      while iRow < endRow
        invariant startRow <= iRow && (iRow <= endRow || iRow == startRow)
        invariant Reached(p, At(m0, id, SumFrom(p, startRow, iRow, 1, locResidual)))
      {
        locResidual := SumRow(p, numCols, dest, startRow, iRow, locResidual, m0);
        iRow := iRow + 1;
      }
      ghost var at := CellFrom(p, startRow, iRow, 1);
      SumEndReached(p, m0, id, at.0, at.1, locResidual);
      w.ShowsAt(m0, id, PutRes(locResidual));
      w.m := At(m0, id, PutRes(locResidual));
    }

    /** The inner loop of getLocResidual: one row. */
    method SumRow(p: Problem<T>, numCols: nat, dest: array<T>, ghost startRow: nat, iRow: nat, acc: T,
        ghost s: State<T>)
      returns (locResidual: T)
      requires p.Valid() && Shape(p, s) && id < p.n && numCols == p.cols && dest[..] == Src(s, s.iter[id])
      requires Lo(p, id) == startRow <= iRow < Hi(p, id)
      requires Reached(p, At(s, id, SumFrom(p, startRow, iRow, 1, acc)))
      ensures Reached(p, At(s, id, SumFrom(p, startRow, iRow + 1, 1, locResidual)))
    {
      hide Reached, Read, Idx, LocalSum, Iterate;
      locResidual := acc;
      var iCol := 1;
      while iCol + 1 < numCols
        invariant 1 <= iCol && id < |s.pc|
        invariant Reached(p, At(s, id, SumFrom(p, startRow, iRow, iCol, locResidual)))
      {
        var ind := iRow * numCols + iCol;
        SumCellReached(p, s, id, iRow, iCol, locResidual);
        ReadsAt(p, s, id, iRow, iCol, dest[..]);
        var upVal := dest[ind - numCols];
        var left := dest[ind - 1];
        var center := dest[ind];
        var right := dest[ind + 1];
        var downVal := dest[ind + numCols];
        locResidual := p.accum(locResidual, ind, upVal, left, center, right, downVal);
        iCol := iCol + 1;
      }
    }

    method SyncResidual(w: World<T>, locResidual: T)
      requires w.Valid() && w.Has(this) && w.Place(id, PutRes(locResidual))
      modifies w`m, w`isAllTasksDone, w`output, w.tasks, w.grid`gridRes, w.grid`gridIter
      ensures w.Valid() && w.Has(this)
      ensures w.m == At(Synced(w.p, old(w.m), id, locResidual), id, TestTol) && w.Place(id, TestTol)
    {
      hide Reached, Norm;
      var p := w.p;
      assert w.TaskOk(w.m, id);
      SlotIsRemainder(p.n, iterNumber);
      var ind := iterNumber % p.n;
      var isLocAllTasksDone := false;
      ghost var m1 := Mark(w, locResidual, ind);
      var numTasksFinished := CountMarked(w, ind, m1);
      if numTasksFinished == p.n {
        isLocAllTasksDone := Claim(w, ind, m1);
      }
      if isLocAllTasksDone {
        ReduceAll(w, ind, m1.(done := m1.done[ind := true]));
        ClearedAgain(p, m1, id, ind);
      } else {
        w.ShowsAt(m1, id, TestTol);
        w.m := At(m1, id, TestTol);
      }
    }

    /** The part that mu_task guards: the first to find the done bit clear sets it. */
    method Claim(w: World<T>, ind: nat, ghost m1: State<T>) returns (claimed: bool)
      requires w.Within(m1) && w.Has(this) && ind == Slot(w.p.n, iterNumber) && ind < |m1.done|
      requires Reached(w.p, At(m1, id, Lock))
      modifies w`isAllTasksDone
      ensures claimed == !m1.done[ind]
      ensures !claimed ==> w.Within(m1) && Reached(w.p, At(m1, id, TestTol))
      ensures claimed ==> w.Within(m1.(done := m1.done[ind := true]))
      ensures claimed ==> Reached(w.p, At(m1.(done := m1.done[ind := true]), id, Reduce(0, w.p.zero)))
    {
      hide Reached, Norm;
      assert w.TaskOk(m1, id);
      ClaimReached(w.p, m1, id);
      claimed := !w.isAllTasksDone[ind];
      if claimed {
        w.SameTasks(m1, m1.(done := m1.done[ind := true]));
        w.isAllTasksDone := w.isAllTasksDone[ind := true];
      }
    }

    /** Stores the own residual and sets the own flag. */
    method Mark(w: World<T>, locResidual: T, ind: nat) returns (ghost m1: State<T>)
      requires w.Valid() && w.Has(this) && w.Place(id, PutRes(locResidual)) && ind == Slot(w.p.n, iterNumber)
      modifies this`locRes, this`locIters
      ensures m1 == Marked(w.p, w.m, id, locResidual) && w.Within(m1) && Reached(w.p, At(m1, id, Scan(0, 0)))
    {
      hide Reached;
      assert w.TaskOk(w.m, id);
      AtSame(w.m, id);
      locRes := locRes[ind := locResidual];
      locIters := locIters[ind := true];
      MarkReached(w.p, w.m, id, locResidual);
      m1 := Marked(w.p, w.m, id, locResidual);
      forall j: nat | j < w.p.n
        ensures w.TaskOk(m1, j)
      {
        assert old(w.TaskOk(w.m, j));
      }
    }

    /** Counts the flags of the slot; the count is full exactly if all are set. */
    method CountMarked(w: World<T>, ind: nat, ghost s: State<T>) returns (numTasksFinished: nat)
      requires w.p.Valid() && Shape(w.p, s) && w.Shows(s) && w.Has(this) && ind == Slot(w.p.n, iterNumber)
      requires Reached(w.p, At(s, id, Scan(0, 0)))
      ensures numTasksFinished == w.p.n <==> AllMarked(s.flags, ind)
      ensures Reached(w.p, At(s, id, if numTasksFinished == w.p.n then Lock else TestTol))
    {
      hide Reached;
      assert w.TaskOk(s, id);
      numTasksFinished := 0;
      var j := 0;
      while j < |w.tasks|
        invariant j <= w.p.n
        invariant numTasksFinished <= j && (numTasksFinished == j <==> forall a | 0 <= a < j :: s.flags[a][ind])
        invariant Reached(w.p, At(s, id, Scan(j, numTasksFinished)))
      {
        assert w.TaskOk(s, j);
        ScanReached(w.p, s, id, j, numTasksFinished);
        if w.tasks[j].locIters[ind] {
          numTasksFinished := numTasksFinished + 1;
        }
        j := j + 1;
      }
      ScanEndReached(w.p, s, id, numTasksFinished);
    }

    /** The branch of syncResidual that only the reducer takes. */
    method ReduceAll(w: World<T>, ind: nat, ghost m1: State<T>)
      requires w.Within(m1) && w.Has(this)
      requires ind == Slot(w.p.n, iterNumber) && Reached(w.p, At(m1, id, Reduce(0, w.p.zero)))
      modifies w`m, w`isAllTasksDone, w`output, w.tasks, w.grid`gridRes, w.grid`gridIter
      ensures w.Valid() && w.Has(this)
      ensures w.m == At(Collected(w.p, m1, id), id, TestTol)
    {
      hide Reached, Norm, World.Within, Reported, PcShape;
      w.Sizes(m1, id);
      ghost var s := ResetGlobal(w, m1);
      ghost var s0 := m1;
      assert ClearedTo(m1.flags, ind, 0) == m1.flags;
      var j := 0;
      while j < |w.tasks|
        invariant j <= w.p.n == |w.tasks| && w.Has(this) && ind == Slot(w.p.n, iterNumber)
        invariant s0 == m1.(flags := ClearedTo(m1.flags, ind, j)) && s == s0.(gres := s0.gres[id := globalRes])
        invariant Shape(w.p, s0) && w.Within(s)
        invariant Reached(w.p, At(s0, id, Reduce(j, globalRes)))
      {
        ReduceNext(w.p, m1, s0, s, id, ind, j, globalRes);
        s := ReduceOne(w, w.tasks[j], ind, j, s);
        s0 := m1.(flags := ClearedTo(m1.flags, ind, j + 1));
        j := j + 1;
      }
      Report(w, ind, s, s0);
    }

    method ResetGlobal(w: World<T>, ghost m1: State<T>) returns (ghost s: State<T>)
      requires w.Within(m1) && w.Has(this)
      modifies this`globalRes
      ensures globalRes == w.p.zero && s == m1.(gres := m1.gres[id := w.p.zero]) && w.Within(s)
    {
      assert w.TaskOk(m1, id);
      globalRes := w.p.zero;
      s := m1.(gres := m1.gres[id := globalRes]);
      forall a: nat | a < w.p.n
        ensures w.TaskOk(s, a)
      {
        assert old(w.TaskOk(m1, a));
      }
    }

    /** One task's part of the reduction: its residual is added, its flag reset. */
    method ReduceOne(w: World<T>, taskptr: Task<T>, ind: nat, ghost j: nat, ghost s: State<T>)
      returns (ghost s': State<T>)
      requires w.Within(s) && w.Has(this) && j < w.p.n && ind < w.p.n
      requires w.tasks[j] == taskptr
      modifies this`globalRes, taskptr`locIters
      ensures globalRes == w.p.add(old(globalRes), s.locRes[j][ind])
      ensures s' == s.(gres := s.gres[id := globalRes], flags := s.flags[j := s.flags[j][ind := false]])
      ensures w.Within(s')
    {
      hide Reached, PcShape;
      assert w.TaskOk(s, j) && w.TaskOk(s, id);
      globalRes := w.p.add(globalRes, taskptr.locRes[ind]);
      // mark the counter to false in all the tasks at location ind
      taskptr.locIters := taskptr.locIters[ind := false];
      s' := s.(gres := s.gres[id := globalRes], flags := s.flags[j := s.flags[j][ind := false]]);
      forall a: nat | a < w.p.n
        ensures w.TaskOk(s', a)
      {
        assert old(w.TaskOk(s, a));
      }
    }

    /** The end of the reduction: the root, the output, the grid and the done bit. */
    method Report(w: World<T>, ind: nat, ghost s: State<T>, ghost s0: State<T>)
      requires w.Within(s) && Shape(w.p, s0) && w.Has(this) && s == s0.(gres := s0.gres[id := globalRes])
      requires ind == Slot(w.p.n, iterNumber) && Reached(w.p, At(s0, id, Reduce(w.p.n, globalRes)))
      modifies w`m, w`isAllTasksDone, w`output, this`globalRes, w.grid`gridRes, w.grid`gridIter
      ensures w.Valid() && w.Has(this)
      ensures w.m == At(Reported(w.p, s0, id, Norm(w.p, s0.iter[id])), id, TestTol)
    {
      hide Reached, Norm;
      var p := w.p;
      assert w.TaskOk(s, id);
      ReportReached(p, s0, id, globalRes);
      globalRes := p.root(globalRes);
      w.output := w.output + [Entry(iterNumber, id, globalRes)];
      w.grid.gridRes := Some(globalRes);
      w.grid.gridIter := Some(iterNumber);
      w.isAllTasksDone := w.isAllTasksDone[ind := false];
      ghost var s1 := Reported(p, s0, id, globalRes);
      forall a: nat | a < p.n
        ensures w.TaskOk(s1, a)
      {
        assert old(w.TaskOk(s, a));
      }
      w.ShowsAt(s1, id, TestTol);
      w.m := At(s1, id, TestTol);
    }

    /** True for the one call that notices first that the residual is small. */
    method IsResTerCriMet(w: World<T>) returns (met: bool)
      requires w.Valid() && w.Has(this) && w.Place(id, TestTol)
      modifies w`m, w`resTermFlagSet
      ensures w.Valid()
      ensures met == (w.p.below(old(w.m).gres[id]) && !old(w.m).term)
      ensures w.m == if met then At(old(w.m).(term := true), id, MaxScan(0, 0))
                     else At(old(w.m), id, Update(Lo(w.p, id), 1, []))
      ensures w.Place(id, if met then MaxScan(0, 0) else Update(Lo(w.p, id), 1, []))
    {
      hide Reached;
      met := false;
      assert w.TaskOk(w.m, id);
      AtSame(w.m, id);
      TestReached(w.p, w.m, id);
      ghost var m1 := w.m;
      if w.p.below(globalRes) {
        if !w.resTermFlagSet {
          m1 := w.m.(term := true);
          w.SameTasks(w.m, m1);
          w.resTermFlagSet := true;
          met := true;
        }
      }
      ghost var pc := if met then MaxScan(0, 0) else Update(Lo(w.p, id), 1, []);
      w.ShowsAt(m1, id, pc);
      w.m := At(m1, id, pc);
    }

    /** Sets the limit to n beyond this iteration, unless some counter has reached the
        limit that holds now: then the assert fails. */
    method ChangeMaxIter(w: World<T>) returns (held: bool)
      requires w.Valid() && w.Has(this) && w.Place(id, MaxScan(0, 0))
      modifies w`m, w`maxIter
      ensures w.Valid()
      ensures held <==> AllUnder(old(w.m).iter, old(w.m).maxIter)
      ensures held ==> w.m == At(old(w.m).(maxIter := iterNumber + w.p.n), id, Update(Lo(w.p, id), 1, []))
      ensures !held ==> w.m == At(old(w.m), id, Failed(882))
      ensures w.Place(id, if held then Update(Lo(w.p, id), 1, []) else Failed(882))
    {
      hide Reached, FirstBelow;
      var p := w.p;
      ghost var m0 := w.m;
      AtSame(m0, id);
      assert w.TaskOk(m0, id);
      FlagIsSet(p, m0, id);
      assert w.resTermFlagSet;
      var maxIter := LargestCounter(w);
      LimitReached(p, m0, id, maxIter);
      held := maxIter < w.maxIter;
      if held {
        SetLimit(w);
      } else {
        w.ShowsAt(m0, id, Failed(882));
        w.m := At(m0, id, Failed(882));
      }
    }

    /** The assignment that mu_task guards. */
    method SetLimit(w: World<T>)
      requires w.Valid() && w.Has(this) && id < |w.m.pc|
      requires Reached(w.p, At(w.m.(maxIter := iterNumber + w.p.n), id, Update(Lo(w.p, id), 1, [])))
      modifies w`m, w`maxIter
      ensures w.Valid() && w.Place(id, Update(Lo(w.p, id), 1, []))
      ensures w.m == At(old(w.m).(maxIter := iterNumber + w.p.n), id, Update(Lo(w.p, id), 1, []))
    {
      hide Reached;
      ghost var m1 := w.m.(maxIter := iterNumber + w.p.n);
      w.SameTasks(w.m, m1);
      w.maxIter := iterNumber + w.p.n;
      w.ShowsAt(m1, id, Update(Lo(w.p, id), 1, []));
      w.m := At(m1, id, Update(Lo(w.p, id), 1, []));
    }

    /** The loop of changeMaxIter over all tasks. */
    method LargestCounter(w: World<T>) returns (maxIter: nat)
      requires w.Valid() && w.Has(this) && w.Place(id, MaxScan(0, 0))
      ensures Reached(w.p, At(w.m, id, MaxScan(w.p.n, maxIter)))
      ensures forall limit: nat :: AllUnder(w.m.iter, limit) <==> maxIter < limit
    {
      hide Reached;
      var p := w.p;
      AtSame(w.m, id);
      maxIter := 0;
      var j := 0;
      while j < |w.tasks|
        invariant j <= p.n
        invariant forall a | 0 <= a < j :: w.m.iter[a] <= maxIter
        invariant maxIter == 0 || exists a :: 0 <= a < j && w.m.iter[a] == maxIter
        invariant Reached(p, At(w.m, id, MaxScan(j, maxIter)))
      {
        assert w.TaskOk(w.m, j);
        MaxScanReached(p, w.m, id, j, maxIter);
        if w.tasks[j].iterNumber > maxIter {
          maxIter := w.tasks[j].iterNumber;
        }
        j := j + 1;
      }
      assert w.m.iter[0] <= maxIter;
    }

    /** Advances the own rows, and nothing else, by one iterate. */
    method UpdateGrid(w: World<T>)
      requires w.Valid() && w.Has(this) && w.Place(id, Update(Lo(w.p, id), 1, []))
      modifies w`m, w.grid.u1, w.grid.u2
      ensures w.Valid()
      ensures w.m == At(old(w.m).(u1 := w.grid.u1[..], u2 := w.grid.u2[..]), id, Post) && w.Place(id, Post)
      ensures BandHolds(w.p, iterNumber + 1, w.grid.GetDestVec(iterNumber)[..], id)
    {
      hide *;
      w.Now(this);
      var startRow, endRow := Rows(w);
      ghost var m0, s := w.m, w.m;
      w.Enter(this, Update(Lo(w.p, id), 1, []));
      UpdateFromStart(w.p, startRow);
      var iRow := startRow;
      while iRow < endRow
        invariant startRow <= iRow && (iRow <= endRow || iRow == startRow)
        invariant id < |s.pc| && s == m0.(u1 := w.grid.u1[..], u2 := w.grid.u2[..]) && w.Within(s)
        invariant Reached(w.p, At(s, id, UpdateFrom(w.p, startRow, iRow, 1)))
      {
        s := UpdateRowOf(w, startRow, iRow, s);
        iRow := iRow + 1;
      }
      EndUpdate(w, startRow, iRow, s);
    }

    /** The last row done, the task may post. */
    ghost method EndUpdate(w: World<T>, startRow: nat, iRow: nat, s: State<T>)
      requires w.Within(s) && w.Has(this) && Lo(w.p, id) == startRow <= iRow && Hi(w.p, id) <= iRow
      requires Reached(w.p, At(s, id, UpdateFrom(w.p, startRow, iRow, 1)))
      modifies w`m
      ensures w.Valid() && w.m == At(s, id, Post) && w.Place(id, Post)
      ensures BandHolds(w.p, iterNumber + 1, w.grid.GetDestVec(iterNumber)[..], id)
    {
      hide Reached, BandHolds;
      w.Sizes(s, id);
      var at := CellFrom(w.p, startRow, iRow, 1);
      UpdateEndReached(w.p, s, id, at.0, at.1);
      w.ShowsAt(s, id, Post);
      w.m := At(s, id, Post);
      BandAdvanced(w.p, w.m, id);
    }

    method UpdateRowOf(w: World<T>, ghost startRow: nat, iRow: nat, ghost s0: State<T>) returns (ghost s: State<T>)
      requires w.Within(s0) && w.Has(this) && Lo(w.p, id) == startRow <= iRow < Hi(w.p, id)
      requires Reached(w.p, At(s0, id, UpdateFrom(w.p, startRow, iRow, 1)))
      modifies w.grid.u1, w.grid.u2
      ensures w.Within(s) && id < |s.pc| && s == s0.(u1 := w.grid.u1[..], u2 := w.grid.u2[..])
      ensures Reached(w.p, At(s, id, UpdateFrom(w.p, startRow, iRow + 1, 1)))
    {
      hide Reached;
      w.Sizes(s0, id);
      s := UpdateRow(w.p, w.grid, startRow, iRow, s0);
      w.SameTasks(s0, s);
    }

    /** The inner loop of updateGrid: one row. */
    method UpdateRow(p: Problem<T>, grid: Grid<T>, ghost startRow: nat, iRow: nat, ghost s0: State<T>)
      returns (ghost s: State<T>)
      requires p.Valid() && Shape(p, s0) && id < p.n && iterNumber == s0.iter[id]
      requires grid.numCols == p.cols && grid.u1 != grid.u2 && grid.u1[..] == s0.u1 && grid.u2[..] == s0.u2
      requires Lo(p, id) == startRow <= iRow < Hi(p, id)
      requires Reached(p, At(s0, id, UpdateFrom(p, startRow, iRow, 1)))
      modifies grid.u1, grid.u2
      ensures Shape(p, s) && s == s0.(u1 := grid.u1[..], u2 := grid.u2[..])
      ensures Reached(p, At(s, id, UpdateFrom(p, startRow, iRow + 1, 1)))
    {
      hide Reached, Write;
      var numCols := grid.numCols;
      s := s0;
      var iCol := 1;
      while iCol + 1 < numCols
        invariant 1 <= iCol
        invariant Shape(p, s) && s == s0.(u1 := grid.u1[..], u2 := grid.u2[..])
        invariant Reached(p, At(s, id, UpdateFrom(p, startRow, iRow, iCol)))
      {
        s := UpdateCell(p, grid, iRow, iCol, s);
        iCol := iCol + 1;
      }
    }

    /** The body of the inner loop of updateGrid: one assignment. */
    method UpdateCell(p: Problem<T>, grid: Grid<T>, iRow: nat, iCol: nat, ghost s0: State<T>)
      returns (ghost s: State<T>)
      requires p.Valid() && Shape(p, s0) && id < p.n && iterNumber == s0.iter[id]
      requires grid.numCols == p.cols && grid.u1 != grid.u2 && grid.u1[..] == s0.u1 && grid.u2[..] == s0.u2
      requires Lo(p, id) <= iRow < Hi(p, id) && 1 <= iCol < p.cols - 1
      requires Reached(p, At(s0, id, Update(iRow, iCol, [])))
      modifies grid.u1, grid.u2
      ensures Shape(p, s) && s == s0.(u1 := grid.u1[..], u2 := grid.u2[..])
      ensures Reached(p, At(s, id, Update(NextRow(p, iRow, iCol), NextCol(p, iCol), [])))
    {
      hide Reached, Read, Idx, Iterate;
      var numCols := grid.numCols;
      var src := grid.GetSrcVec(iterNumber);
      var dest := grid.GetDestVec(iterNumber);
      UpdateCellReached(p, s0, id, iRow, iCol);
      ReadsAt(p, s0, id, iRow, iCol, src[..]);
      var ind := iRow * numCols + iCol;
      var upVal := src[ind - numCols];
      var left := src[ind - 1];
      var right := src[ind + 1];
      var downVal := src[ind + numCols];
      dest[ind] := p.relax(ind, upVal, left, right, downVal);
      s := Write(p, s0, iterNumber, iRow, iCol, dest[ind]);
    }

    method UpdateResidual(w: World<T>)
      requires w.Valid() && w.Has(this) && w.Place(id, Sum(Lo(w.p, id), 1, [], w.p.zero))
      modifies w`m, w`isAllTasksDone, w`output, w.tasks, w.grid`gridRes, w.grid`gridIter
      ensures w.Valid() && w.Has(this)
      ensures w.m == At(Computed(w.p, old(w.m), id), id, TestTol) && w.Place(id, TestTol)
    {
      hide Reached, LocalResidual, World.Valid, Shape, Synced;
      w.Now(this);
      ghost var m0 := w.m;
      var locResidual := GetLocResidual(w);
      w.Now(this);
      SyncResidual(w, locResidual);
      SyncedAt(w.p, m0, id, locResidual);
    }

    /** A task's work on one iteration: its residual, the test, the update. */
    method PerformTask(w: World<T>) returns (held: bool)
      requires w.Valid() && w.Has(this) && w.Place(id, Sum(Lo(w.p, id), 1, [], w.p.zero))
      modifies w`m, w`isAllTasksDone, w`output, w`resTermFlagSet, w`maxIter, w.tasks, w.grid, w.grid.u1, w.grid.u2
      ensures w.Valid() && w.Has(this) && w.Place(id, if held then Post else Failed(882))
      ensures held <==> !AssertFails(w.p, old(w.m), id)
      ensures held ==> w.m == At(Performed(w.p, old(w.m), id).(u1 := w.grid.u1[..], u2 := w.grid.u2[..]), id, Post)
      ensures !held ==> w.m == At(Computed(w.p, old(w.m), id).(term := true), id, Failed(882))
    {
      hide *;
      w.Now(this);
      ghost var m0 := w.m;
      UpdateResidual(w);
      w.Now(this);
      ghost var m2 := w.m;
      var met := IsResTerCriMet(w);
      w.Now(this);
      WhetherHeld(w.p, m0, id, m2, w.m, met);
      held := true;
      // only one task changes the max iterations
      if met {
        held := ChangeMaxIter(w);
      }
      if held {
        Stages(w.p, m0, id, m2, w.m, met);
        ghost var m4 := w.m;
        UpdateGrid(w);
        Updated(w.p, m0, id, m4, w.m, w.grid.u1[..], w.grid.u2[..]);
      } else {
        StagesFail(w.p, m0, id, m2, w.m);
      }
    }

    method SetPostConds(w: World<T>)
      requires w.Valid() && w.Has(this) && w.Place(id, Post)
      modifies w`m, this`iterNumber
      ensures w.Valid()
      ensures w.m == At(old(w.m).(iter := old(w.m).iter[id := old(w.m).iter[id] + 1]), id, Finish)
      ensures w.Place(id, Finish)
    {
      hide Reached;
      ghost var m0 := w.m;
      assert w.TaskOk(m0, id);
      AtSame(m0, id);
      PostReached(w.p, m0, id);
      iterNumber := iterNumber + 1;
      ghost var m1 := m0.(iter := m0.iter[id := m0.iter[id] + 1]);
      forall j: nat | j < w.p.n
        ensures w.TaskOk(m1, j)
      {
        assert old(w.TaskOk(m0, j));
      }
      w.ShowsAt(m1, id, Finish);
      w.m := At(m1, id, Finish);
    }

    /** A task is finished exactly when its counter has reached the limit. */
    method HasFinishedIters(w: World<T>) returns (finished: bool)
      requires w.Valid() && w.Has(this) && w.Place(id, Finish)
      modifies w`m
      ensures w.Valid()
      ensures finished == (old(w.m).iter[id] >= old(w.m).maxIter)
      ensures w.m == At(old(w.m), id, if finished then Done else Idle)
    {
      hide Reached;
      assert w.TaskOk(w.m, id);
      AtSame(w.m, id);
      FinishReached(w.p, w.m, id);
      finished := iterNumber >= w.maxIter;
      w.ShowsAt(w.m, id, if finished then Done else Idle);
      w.m := At(w.m, id, if finished then Done else Idle);
    }

    /** The function given to the pool: one attempt at one iteration. */
    method Call(w: World<T>) returns (outcome: Outcome)
      requires w.Valid() && w.Has(this) && w.Place(id, Idle)
      modifies w`m, w`isAllTasksDone, w`output, w`resTermFlagSet, w`maxIter, w.tasks, w.grid, w.grid.u1, w.grid.u2
      ensures w.Valid() && w.Has(this)
      ensures Effect(old(w.m), w.m, id, outcome)
    {
      hide *;
      var again := false;
      w.Now(this);
      ghost var m0 := w.m;
      var met := IsPreCondsMet(w);
      w.Now(this);
      ghost var ma := w.m;
      if met {
        var held := PerformTask(w);
        if !held {
          CalledInVain(w.p, m0, ma, w.m, id);
          return Aborted;
        }
      }
      w.Now(this);
      ghost var mb, u1, u2 := w.m, w.grid.u1[..], w.grid.u2[..];
      if met {
        SetPostConds(w);
      }
      w.Now(this);
      ghost var m1 := w.m;
      var finished := HasFinishedIters(w);
      if met {
        CalledThrough(w.p, m0, ma, mb, m1, w.m, id, u1, u2, finished);
      } else {
        CalledIdly(w.p, m0, m1, w.m, id, finished);
      }
      if !finished {
        again := true;
      }
      outcome := Returned(again);
    }
  }
}
