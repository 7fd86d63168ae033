/** The tasks as a state machine. One step is at most one access to something
    another task can see: an iteration counter, a cell of a buffer, a residual
    slot, a flag, the done bit, the limit, the grid's final residual or the
    output. A schedule is any sequence of task numbers. */
module Machine {
  import opened Jacobi
  import opened Residual

  datatype Option<+A> = None | Some(value: A)

  /** Where a task is in its code, with the local variables of that place. */
  datatype Pc<T> =
    | Idle                                               // not in a call
    | ReadUp                                             // isPreCondsMet
    | ReadDown(d1: int)
    | Sum(r: nat, c: nat, regs: seq<T>, acc: T)          // getLocResidual
    | PutRes(res: T)                                     // syncResidual
    | PutFlag
    | Scan(j: nat, count: nat)
    | Lock                                               // mu_task around the done bit
    | TestDone
    | SetDone
    | Reduce(j: nat, acc: T)
    | Clear(j: nat, acc: T)
    | Root(acc: T)
    | Print
    | PubRes
    | PubIter
    | Unmark
    | TestTol                                            // isResTerCriMet
    | MaxScan(j: nat, mx: nat)                           // changeMaxIter
    | MaxTake(j: nat, mx: nat)
    | SetMax
    | Update(r: nat, c: nat, regs: seq<T>)               // updateGrid
    | Post                                               // setPostConds
    | Finish                                             // hasFinishedIters
    | Done                                               // the call returned false
    | Failed(line: nat)                                  // the assert at this line of task.cpp did not hold

  /** One line of output of a reduction. */
  datatype Entry<T> = Entry(iter: nat, task: nat, res: T)

  datatype State<T> = State(
    iter: seq<nat>,              // Task::iter_number
    pc: seq<Pc<T>>,
    u1: seq<T>,                  // Grid::u1_
    u2: seq<T>,                  // Grid::u2_
    locRes: seq<seq<T>>,         // Task::loc_res2_
    flags: seq<seq<bool>>,       // Task::loc_iters_
    gres: seq<T>,                // Task::global_res_
    done: seq<bool>,             // Task::isAllTasksDone
    mutex: Option<nat>,          // who holds mu_task between testing and setting a done bit
    term: bool,                  // Task::resTermFlagSet
    maxIter: nat,                // Utility::maxIter
    gridRes: Option<T>,          // Grid::grid_gres_
    gridIter: Option<nat>,       // Grid::grid_iters_
    log: seq<Entry<T>>)          // what the reductions have printed

  function Init<T>(p: Problem<T>): (s: State<T>)
    requires p.Valid()
    ensures Shape(p, s)
  {
    State(seq(p.n, _ => 0), seq(p.n, _ => Idle), p.u1, p.u2,
          seq(p.n, _ => seq(p.n, _ => p.zero)), seq(p.n, _ => seq(p.n, _ => false)),
          seq(p.n, _ => p.huge), seq(p.n, _ => false), None, false, p.limit, None, None, [])
  }

  // ----- well-formed states -----

  /** The loop over rows and columns still has cells when it stands at row r. */
  predicate InLoop<T>(p: Problem<T>, i: nat, r: nat) {
    r < Hi(p, i) && 1 < p.cols - 1
  }

  /** The loop position after cell (r, c). */
  function NextRow<T>(p: Problem<T>, r: nat, c: nat): nat {
    if c + 1 < p.cols - 1 then r else r + 1
  }

  function NextCol<T>(p: Problem<T>, c: nat): nat {
    if c + 1 < p.cols - 1 then c + 1 else 1
  }

  ghost predicate CursorOk<T>(p: Problem<T>, i: nat, r: nat, c: nat, got: nat, most: nat) {
    && Lo(p, i) <= r <= Hi(p, i)
    && 1 <= c && (c > 1 ==> c < p.cols - 1)
    && got <= most && (got > 0 ==> InLoop(p, i, r))
  }

  ghost predicate PcShape<T>(p: Problem<T>, i: nat, pc: Pc<T>) {
    match pc
    case Sum(r, c, regs, _) => CursorOk(p, i, r, c, |regs|, 5)
    case Update(r, c, regs) => CursorOk(p, i, r, c, |regs|, 4)
    case Scan(j, count) => count <= j <= p.n
    case Reduce(j, _) => j <= p.n
    case Clear(j, _) => j < p.n
    case MaxScan(j, _) => j <= p.n
    case MaxTake(j, _) => j < p.n
    case _ => true
  }

  ghost predicate Shape<T>(p: Problem<T>, s: State<T>)
    requires p.Valid()
  {
    && |s.iter| == |s.pc| == |s.locRes| == |s.flags| == |s.gres| == |s.done| == p.n
    && |s.u1| == |s.u2| == Times(p.rows, p.cols)
    && (forall i | 0 <= i < p.n :: |s.locRes[i]| == p.n)
    && (forall i | 0 <= i < p.n :: |s.flags[i]| == p.n)
    && (forall i | 0 <= i < p.n :: PcShape(p, i, s.pc[i]))
  }

  lemma Sizes<T>(p: Problem<T>, s: State<T>)
    requires p.Valid() && Shape(p, s)
    ensures |s.iter| == |s.pc| == |s.locRes| == |s.flags| == |s.gres| == |s.done| == p.n
  {
  }

  lemma PlaceShape<T>(p: Problem<T>, s: State<T>, i: nat)
    requires p.Valid() && Shape(p, s) && i < p.n && i < |s.pc|
    ensures PcShape(p, i, s.pc[i])
  {
  }

  // ----- reading and writing the grid -----

  /** The cells read for cell (r, c), in the order of the code of getLocResidual. */
  function NeighbourRow(r: nat, q: nat): nat
    requires r >= 1
  {
    if q == 0 then r - 1 else if q == 4 then r + 1 else r
  }

  function NeighbourCol(c: nat, q: nat): nat
    requires c >= 1
  {
    if q == 1 then c - 1 else if q == 3 then c + 1 else c
  }

  /** updateGrid reads the same cells without the middle one. */
  function SkipCenter(q: nat): nat {
    if q < 2 then q else q + 1
  }

  function Src<T>(s: State<T>, k: nat): seq<T> {
    if k % 2 == 0 then s.u1 else s.u2
  }

  function Dest<T>(s: State<T>, k: nat): seq<T> {
    if k % 2 == 0 then s.u2 else s.u1
  }

  function Read<T>(p: Problem<T>, s: State<T>, i: nat, r: nat, c: nat, q: nat): T
    requires p.Valid() && Shape(p, s) && i < p.n && q < 5
    requires Lo(p, i) <= r < Hi(p, i) && 1 <= c < p.cols - 1
  {
    BandOfTask(p, i, r);
    IdxInBounds(p, NeighbourRow(r, q), NeighbourCol(c, q));
    Src(s, s.iter[i])[Idx(p, NeighbourRow(r, q), NeighbourCol(c, q))]
  }

  function Write<T>(p: Problem<T>, s: State<T>, k: nat, r: nat, c: nat, x: T): (s': State<T>)
    requires p.Valid() && Shape(p, s) && InGrid(p, r, c)
    ensures Shape(p, s')
  {
    IdxInBounds(p, r, c);
    if k % 2 == 0 then s.(u2 := s.u2[Idx(p, r, c) := x]) else s.(u1 := s.u1[Idx(p, r, c) := x])
  }

  // ----- one step of task i -----

  function Goto<T>(p: Problem<T>, s: State<T>, i: nat, pc: Pc<T>): (s': State<T>)
    requires p.Valid() && Shape(p, s) && i < p.n && PcShape(p, i, pc)
    ensures Shape(p, s')
  {
    s.(pc := s.pc[i := pc])
  }

  function Abs(x: int): nat {
    if x < 0 then -x else x
  }

  /** The condition isPreCondsMet returns. */
  predicate PreCondsMet(d1: int, d2: int) {
    (d1 == 0 || d1 == -1) && (d2 == 0 || d2 == -1)
  }

  function UpDiff<T>(s: State<T>, i: nat): int
    requires i < |s.iter|
  {
    if i == 0 then 0 else s.iter[i] as int - s.iter[i - 1]
  }

  function DownDiff<T>(s: State<T>, i: nat): int
    requires i < |s.iter|
  {
    if i + 1 == |s.iter| then 0 else s.iter[i] as int - s.iter[i + 1]
  }

  function StepCheck<T>(p: Problem<T>, s: State<T>, i: nat): (s': State<T>)
    requires p.Valid() && Shape(p, s) && i < p.n
    requires s.pc[i].Idle? || s.pc[i].ReadUp? || s.pc[i].ReadDown? || s.pc[i].Post? || s.pc[i].Finish?
    ensures Shape(p, s')
  {
    match s.pc[i]
    case Idle => Goto(p, s, i, ReadUp)
    case ReadUp => Goto(p, s, i, ReadDown(UpDiff(s, i)))
    case ReadDown(d1) =>
      var d2 := DownDiff(s, i);
      BandOfTask(p, i, 0);
      if Abs(d1) > 1 || Abs(d2) > 1 then Goto(p, s, i, Failed(297))
      else if PreCondsMet(d1, d2) then Goto(p, s, i, Sum(Lo(p, i), 1, [], p.zero))
      else Goto(p, s, i, Finish)
    case Post => Goto(p, s.(iter := s.iter[i := s.iter[i] + 1]), i, Finish)
    case Finish => Goto(p, s, i, if s.iter[i] >= s.maxIter then Done else Idle)
  }

  function StepSum<T>(p: Problem<T>, s: State<T>, i: nat): (s': State<T>)
    requires p.Valid() && Shape(p, s) && i < p.n && s.pc[i].Sum?
    ensures Shape(p, s')
  {
    var Sum(r, c, regs, acc) := s.pc[i];
    assert PcShape(p, i, s.pc[i]);
    if !InLoop(p, i, r) then Goto(p, s, i, PutRes(acc))
    else if |regs| < 5 then Goto(p, s, i, Sum(r, c, regs + [Read(p, s, i, r, c, |regs|)], acc))
    else Goto(p, s, i, Sum(NextRow(p, r, c), NextCol(p, c), [],
                           p.accum(acc, Idx(p, r, c), regs[0], regs[1], regs[2], regs[3], regs[4])))
  }

  function StepUpdate<T>(p: Problem<T>, s: State<T>, i: nat): (s': State<T>)
    requires p.Valid() && Shape(p, s) && i < p.n && s.pc[i].Update?
    ensures Shape(p, s')
  {
    var Update(r, c, regs) := s.pc[i];
    assert PcShape(p, i, s.pc[i]);
    BandOfTask(p, i, r);
    if !InLoop(p, i, r) then Goto(p, s, i, Post)
    else if |regs| < 4 then Goto(p, s, i, Update(r, c, regs + [Read(p, s, i, r, c, SkipCenter(|regs|))]))
    else
      var x := p.relax(Idx(p, r, c), regs[0], regs[1], regs[2], regs[3]);
      Goto(p, Write(p, s, s.iter[i], r, c, x), i, Update(NextRow(p, r, c), NextCol(p, c), []))
  }

  /** syncResidual up to the attempt to become the reducer. */
  function StepMark<T>(p: Problem<T>, s: State<T>, i: nat): (s': State<T>)
    requires p.Valid() && Shape(p, s) && i < p.n
    requires s.pc[i].PutRes? || s.pc[i].PutFlag? || s.pc[i].Scan?
    ensures Shape(p, s')
  {
    var ind := Slot(p.n, s.iter[i]);
    match s.pc[i]
    case PutRes(res) => Goto(p, s.(locRes := s.locRes[i := s.locRes[i][ind := res]]), i, PutFlag)
    case PutFlag => Goto(p, s.(flags := s.flags[i := s.flags[i][ind := true]]), i, Scan(0, 0))
    case Scan(j, count) =>
      assert PcShape(p, i, s.pc[i]);
      if j < p.n then Goto(p, s, i, Scan(j + 1, if s.flags[j][ind] then count + 1 else count))
      else Goto(p, s, i, if count == p.n then Lock else TestTol)
  }

  function StepClaim<T>(p: Problem<T>, s: State<T>, i: nat): (s': State<T>)
    requires p.Valid() && Shape(p, s) && i < p.n
    requires s.pc[i].Lock? || s.pc[i].TestDone? || s.pc[i].SetDone?
    ensures Shape(p, s')
  {
    var ind := Slot(p.n, s.iter[i]);
    match s.pc[i]
    case Lock => if s.mutex.None? then Goto(p, s.(mutex := Some(i)), i, TestDone) else s
    case TestDone => if s.done[ind] then Goto(p, s.(mutex := None), i, TestTol) else Goto(p, s, i, SetDone)
    case SetDone => Goto(p, s.(mutex := None, done := s.done[ind := true]), i, Reduce(0, p.zero))
  }

  /** The reduction, from summing the local residuals to clearing the done bit. */
  function StepReduce<T>(p: Problem<T>, s: State<T>, i: nat): (s': State<T>)
    requires p.Valid() && Shape(p, s) && i < p.n && Reducing(s.pc[i])
    ensures Shape(p, s')
  {
    var ind := Slot(p.n, s.iter[i]);
    assert PcShape(p, i, s.pc[i]);
    match s.pc[i]
    case Reduce(j, acc) =>
      if j < p.n then Goto(p, s, i, Clear(j, p.add(acc, s.locRes[j][ind]))) else Goto(p, s, i, Root(acc))
    case Clear(j, acc) => Goto(p, s.(flags := s.flags[j := s.flags[j][ind := false]]), i, Reduce(j + 1, acc))
    case Root(acc) => Goto(p, s.(gres := s.gres[i := p.root(acc)]), i, Print)
    case Print => Goto(p, s.(log := s.log + [Entry(s.iter[i], i, s.gres[i])]), i, PubRes)
    case PubRes => Goto(p, s.(gridRes := Some(s.gres[i])), i, PubIter)
    case PubIter => Goto(p, s.(gridIter := Some(s.iter[i])), i, Unmark)
    case Unmark => Goto(p, s.(done := s.done[ind := false]), i, TestTol)
  }

  function StepStop<T>(p: Problem<T>, s: State<T>, i: nat): (s': State<T>)
    requires p.Valid() && Shape(p, s) && i < p.n
    requires s.pc[i].TestTol? || Changing(s.pc[i])
    ensures Shape(p, s')
  {
    BandOfTask(p, i, 0);
    assert PcShape(p, i, s.pc[i]);
    match s.pc[i]
    case TestTol =>
      if !p.below(s.gres[i]) then Goto(p, s, i, Update(Lo(p, i), 1, []))
      else if s.mutex.Some? then s
      else if s.term then Goto(p, s, i, Update(Lo(p, i), 1, []))
      else Goto(p, s.(term := true), i, MaxScan(0, 0))
    case MaxScan(j, mx) =>
      if j < p.n then Goto(p, s, i, if s.iter[j] > mx then MaxTake(j, mx) else MaxScan(j + 1, mx))
      else Goto(p, s, i, if mx < s.maxIter then SetMax else Failed(882))
    case MaxTake(j, _) => Goto(p, s, i, MaxScan(j + 1, s.iter[j]))
    case SetMax =>
      if s.mutex.Some? then s
      else Goto(p, s.(maxIter := s.iter[i] + p.n), i, Update(Lo(p, i), 1, []))
  }

  /** Between setting resTermFlagSet and storing the new limit. */
  predicate Changing<T>(pc: Pc<T>) {
    pc.MaxScan? || pc.MaxTake? || pc.SetMax?
  }

  predicate Reducing<T>(pc: Pc<T>) {
    pc.Reduce? || pc.Clear? || pc.Root? || pc.Print? || pc.PubRes? || pc.PubIter? || pc.Unmark?
  }

  /** What task i does next. A task that is done, failed or waiting for mu_task
      leaves the state as it is. */
  function Exec<T>(p: Problem<T>, s: State<T>, i: nat): (s': State<T>)
    requires p.Valid() && Shape(p, s) && i < p.n
    ensures Shape(p, s')
  {
    match s.pc[i]
    case Idle => StepCheck(p, s, i)
    case ReadUp => StepCheck(p, s, i)
    case ReadDown(_) => StepCheck(p, s, i)
    case Post => StepCheck(p, s, i)
    case Finish => StepCheck(p, s, i)
    case Sum(_, _, _, _) => StepSum(p, s, i)
    case Update(_, _, _) => StepUpdate(p, s, i)
    case PutRes(_) => StepMark(p, s, i)
    case PutFlag => StepMark(p, s, i)
    case Scan(_, _) => StepMark(p, s, i)
    case Lock => StepClaim(p, s, i)
    case TestDone => StepClaim(p, s, i)
    case SetDone => StepClaim(p, s, i)
    case TestTol => StepStop(p, s, i)
    case MaxScan(_, _) => StepStop(p, s, i)
    case MaxTake(_, _) => StepStop(p, s, i)
    case SetMax => StepStop(p, s, i)
    case Done => s
    case Failed(_) => s
    case _ => StepReduce(p, s, i)
  }

  // Which part of the code a step belongs to.

  lemma ExecCheck<T>(p: Problem<T>, s: State<T>, i: nat)
    requires p.Valid() && Shape(p, s) && i < p.n
    requires s.pc[i].Idle? || s.pc[i].ReadUp? || s.pc[i].ReadDown? || s.pc[i].Post? || s.pc[i].Finish?
    ensures Exec(p, s, i) == StepCheck(p, s, i)
  {
    hide StepCheck;
  }

  lemma ExecSum<T>(p: Problem<T>, s: State<T>, i: nat)
    requires p.Valid() && Shape(p, s) && i < p.n && s.pc[i].Sum?
    ensures Exec(p, s, i) == StepSum(p, s, i)
  {
    hide StepSum;
  }

  lemma ExecUpdate<T>(p: Problem<T>, s: State<T>, i: nat)
    requires p.Valid() && Shape(p, s) && i < p.n && s.pc[i].Update?
    ensures Exec(p, s, i) == StepUpdate(p, s, i)
  {
    hide StepUpdate;
  }

  lemma ExecMark<T>(p: Problem<T>, s: State<T>, i: nat)
    requires p.Valid() && Shape(p, s) && i < p.n
    requires s.pc[i].PutRes? || s.pc[i].PutFlag? || s.pc[i].Scan?
    ensures Exec(p, s, i) == StepMark(p, s, i)
  {
    hide StepMark;
  }

  lemma ExecClaim<T>(p: Problem<T>, s: State<T>, i: nat)
    requires p.Valid() && Shape(p, s) && i < p.n
    requires s.pc[i].Lock? || s.pc[i].TestDone? || s.pc[i].SetDone?
    ensures Exec(p, s, i) == StepClaim(p, s, i)
  {
    hide StepClaim;
  }

  lemma ExecReduce<T>(p: Problem<T>, s: State<T>, i: nat)
    requires p.Valid() && Shape(p, s) && i < p.n && Reducing(s.pc[i])
    ensures Exec(p, s, i) == StepReduce(p, s, i)
  {
    hide StepReduce;
  }

  lemma ExecStop<T>(p: Problem<T>, s: State<T>, i: nat)
    requires p.Valid() && Shape(p, s) && i < p.n && (s.pc[i].TestTol? || Changing(s.pc[i]))
    ensures Exec(p, s, i) == StepStop(p, s, i)
  {
    hide StepStop;
  }

  lemma ExecOver<T>(p: Problem<T>, s: State<T>, i: nat)
    requires p.Valid() && Shape(p, s) && i < p.n && (s.pc[i].Done? || s.pc[i].Failed?)
    ensures Exec(p, s, i) == s
  {
  }

  /** Task i can take a step that changes the state. */
  predicate Enabled<T>(p: Problem<T>, s: State<T>, i: nat)
    requires i < |s.pc| && i < |s.gres|
  {
    && !s.pc[i].Done? && !s.pc[i].Failed?
    && (s.pc[i].Lock? || (s.pc[i].TestTol? && p.below(s.gres[i])) || s.pc[i].SetMax? ==> s.mutex.None?)
  }

  // ----- runs -----

  ghost predicate Schedule<T>(p: Problem<T>, sched: seq<nat>) {
    forall t | 0 <= t < |sched| :: sched[t] < p.n
  }

  /** The state after the tasks have taken the steps of a schedule. */
  function Run<T>(p: Problem<T>, sched: seq<nat>): (s: State<T>)
    requires p.Valid() && Schedule(p, sched)
    ensures Shape(p, s)
  {
    if sched == [] then Init(p)
    else Exec(p, Run(p, sched[..|sched| - 1]), sched[|sched| - 1])
  }

  /** Some schedule leads to state s. */
  ghost predicate Reached<T>(p: Problem<T>, s: State<T>)
    requires p.Valid()
  {
    exists sched: seq<nat> :: Schedule(p, sched) && Run(p, sched) == s
  }
}
