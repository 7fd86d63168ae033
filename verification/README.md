# Verification of the neighbour-synchronised Jacobi solver

The repository solves a discretised partial differential equation with Jacobi's
method on a chain of tasks. Each task owns a band of rows and fires iteration k as
soon as its two neighbours have reached k; there is no global barrier. A FIFO pool
of worker threads runs the tasks, a ring of n slots collects the residuals of up to
n iterations in flight, and the first residual below a tolerance lowers the shared
iteration limit while other tasks are still running. The claim of the repository is
that none of this can be seen in the result: every run leaves the same two buffers,
the same final residual and the same iteration count as the serial solver.

This project models that program and proves the claim, for every number of tasks
and threads, every grid, every arithmetic and every interleaving of single accesses.
`dafny verify dfyconfig.toml` verifies everything.

## How the model is built

Cells have an arbitrary type and the stencils are arbitrary functions (`Problem` in
`Jacobi.dfy`), so equality with the serial solver is exact and covers floating-point
arithmetic whatever its rounding does: the same operands in the same order give the
same value. Only `Reals.dfy` fixes the arithmetic, to the real numbers.

| file | content |
|---|---|
| `Jacobi.dfy` | grid, bands, iterates: what the buffers hold after k sweeps |
| `SerialSolver.dfy` | the serial solver, loop by loop, on two arrays |
| `Residual.dfy` | local and global residuals of an iteration, and the order of the sums |
| `Machine.dfy` | the tasks as a state machine; one step is one access to shared state |
| `Skew.dfy`, `Refinement.dfy`, `Ring.dfy`, `Reduction.dfy`, `Stopping.dfy` | the invariants of the machine, layer by layer |
| `Runs.dfy` | the results about every run of the machine |
| `Solo.dfy`, `Finishing.dfy` | stretches in which one task moves alone; every schedule can be finished |
| `Pool.dfy` | the pool for any number of workers: queue, wake-ups, shutdown |
| `Runtime.dfy`, `RaceCheck.dfy` | pool and tasks together: the whole program, and the comparison with the serial solver |
| `Driving.dfy`, `Resting.dfy`, `QuietCalls.dfy`, `Polling.dfy` | runs of the whole program that are chosen on purpose, move by move and call by call; the measure that every call decreases |
| `Halting.dfy` | from wherever a run has come, the program can go on to its end |
| `Embedding.dfy` | with a worker for each task the program can do to its tasks all that free schedules can |
| `LimitAssert.dfy`, `StopAssert.dfy`, `ReducedTwice.dfy` | when two asserts and one comment of the source hold: exact conditions, over all runs of the program |
| `Calls.dfy`, `Program.dfy` | the source's classes and methods, statement by statement, tied to the machine |
| `SingleWorker.dfy` | the pool's loop as a class with one worker, and `main` |
| `StaticSchedule.dfy` | the barrier-based schedule, as a special case of the protocol |
| `RedBlack.dfy` | the colouring loops and the two-colour sweeps |
| `Reals.dfy` | the equation, convergence, and what the residual measures |

Concurrency is a state machine: `Machine.Exec` is the next access of one task, a
schedule is any sequence of task numbers, and `Machine.Run` is the state after it.
The check of the neighbours is two separate reads; counting flags, claiming the done
bit, adding residuals, clearing flags, publishing and lowering the limit are split in
the same way. The results are about every state that some schedule reaches
(`Machine.Reached`). The methods of `Program.Task` are the imperative form of the same code:
each carries the machine state it has reached as a ghost field, so every result about
all runs also holds for the objects. The asserts of the source that always hold are
proved in these methods; the one that can fail, at `task.cpp:882`, is an outcome of the
call, with the exact condition under which it fails.

The ghost predicate `Stopping.StopsAt(p, last)` says at which iteration a problem
ends: at the limit if no earlier residual is below the tolerance, otherwise n
iterations after the first one that is. It excludes one kind of problem, where that
first residual comes less than n iterations before the limit.
`LimitAssert.LimitAssertHoldsIff` shows that this is not a restriction of the proof:
for exactly those problems the source's own assert at `task.cpp:882` fails in some run
of the program, whatever the number of workers, and for all others no assert of
`task.cpp` fails in any run. What the invariants say about noticing a small residual
and about who may change the limit (`Stopping.NoticeInv`, `Stopping.TermInv`) holds for
every problem.

`Runs.FinishedRun` also says what the last published iteration is: one less than the
stopping iteration. The repository's reference files for the same grid and 2, 5, 10,
20 and 50 tasks show this dependence on n: 7102, 7105, 7110, 7120 and 7150, which is
k + n - 1 for the same first accepted iteration k = 7101.

## Where the code and its comments disagree

The model follows the code.

- `task.cpp:751` says of the reduction that only one thread does it per iteration.
  When calls overlap, a second task that has already counted all flags reduces the
  same iteration again after the first has cleared the done bit. No run of the program
  reduces an iteration twice exactly if there is one worker; with two or more some run
  does, for every problem (`ReducedTwice.ReducedOnceIff`). What does hold in every run:
  each iteration is reduced at least once, reductions never overlap, all reductions of
  an iteration give the same value, and the published iteration never decreases.
- `task.cpp:882` asserts that no counter has reached the limit when it is lowered. This
  holds in every run exactly if the first small residual is not less than n iterations
  before the limit, with one worker as with many: one is enough when main is slow to
  enqueue (`LimitAssert.LimitAssertHoldsIff`). If main has enqueued all tasks before the
  only worker begins, it fails exactly if that residual is the one of the last
  iteration before the limit (`SingleWorker.RunProgram`).
- `ThreadPool.hpp:246` asserts that the pool is not yet stopped. Counting and testing
  the count are separate accesses, so two workers can both see the full count. For a
  problem with a stopping iteration the assert holds in every run of the program
  exactly if the pool has one thread (`StopAssert.StopAssertHoldsIff`). When it fails
  all tasks are done and the grid is complete, so the result is still the right one
  (`Runtime.HaltedProgram`).
- `main.cpp:209-212` runs a synthetic delay and comments the solver's call out. The
  model runs `performTask`, the call the rest of the code is written for.
- `checkRaceConds.sh` compares with a serial run of the full iteration limit. When the
  tolerance is reached before, the tasks have made fewer iterations, and the comparison
  finds no difference exactly if the serial buffers do not change any more after that
  (`RaceCheck.CheckRaceConds`).

## Model

| member | source | states |
|---|---|---|
| Jacobi.BandOfTask | dynamicScheduling/src/task.cpp:558-572 | the rows a task updates are exactly those of its band without the first and the last row of the grid |
| Jacobi.BandSize | dynamicScheduling/src/task.cpp:51-52 | every band has numlocRows rows: band i starts at row i * numlocRows, and the next one numlocRows later |
| Jacobi.OwnerIsQuotient | dynamicScheduling/src/task.cpp:51-52 | row r lies in the band of task r / numlocRows |
| Jacobi.SlotsApart | dynamicScheduling/include/task.hpp:37-40 | iterations less than n apart never share a slot of the residual ring |
| Jacobi.BuffersUnique | dynamicScheduling/tests/checkRaceConds.sh:47-50 | "buffers after k sweeps" leaves no position of either buffer open |
| Jacobi.BoundaryIterate | dynamicScheduling/tests/SerialSolver/serialSolver.cpp:111-134 | a boundary cell keeps what its buffer held at first |
| SerialSolver.Sweep | dynamicScheduling/tests/SerialSolver/serialSolver.cpp:106-134 | one pass of the nested loops turns the buffers of sweep k into those of sweep k + 1 |
| SerialSolver.BuffersAtStart | dynamicScheduling/tests/SerialSolver/serialSolver.cpp:99-108 | before the first sweep the buffers are the given ones |
| SerialSolver.NextBuffers | dynamicScheduling/tests/SerialSolver/serialSolver.cpp:106-134 | from sweep to sweep, and in no other way, the buffers change so: the one that is read stays, each inner cell of the other becomes the stencil of the cells at ind - numCols, ind - 1, ind + 1 and ind + numCols of the one that is read, every other cell stays |
| SerialSolver.SolveJacobi | dynamicScheduling/tests/SerialSolver/serialSolver.cpp:75-159 | the serial solver leaves iterate numiters in one buffer and the iterate before it in the other |
| Residual.LocalResidualAddsBand | dynamicScheduling/src/task.cpp:673-693 | the local residual adds the inner cells with row / numlocRows equal to the task number, each once, row by row, with the operands in the order up, left, center, right, down |
| Residual.ReductionOrder | dynamicScheduling/src/task.cpp:754-765 | the reduction adds the local residuals to zero in the order of the tasks and takes the root of the last sum |
| Skew.SkewStep | dynamicScheduling/src/task.cpp:274-305 | every step of every task keeps neighbours within one iteration, and a neighbour once seen not behind stays not behind until the post |
| Skew.ChainSkew | dynamicScheduling/include/task.hpp:37-40 | counters differ by at most the distance of the tasks in the chain |
| Refinement.ReadsIterate | dynamicScheduling/src/task.cpp:671-685 | between check and post each of the five cells a task reads holds the value of the task's own iteration, whatever the neighbours are writing |
| Refinement.DataStep | dynamicScheduling/src/task.cpp:543-625 | every step keeps the buffer invariant: iterate k in the source buffer, k + 1 where written and k - 1 elsewhere in the other |
| Ring.LiveSlots | dynamicScheduling/src/task.cpp:707 | at any time a slot can stand for only one of the iterations in flight |
| Ring.RingStep | dynamicScheduling/src/task.cpp:705-801 | every step keeps flags, done bits, claims and the mutex consistent: a flag belongs to the live iteration, a done bit to a reducer, and no complete iteration is left unreduced |
| Reduction.SumsStep | dynamicScheduling/src/task.cpp:752-765 | what a reducer adds up is the local residuals of its own iteration, never of one n before or after |
| Reduction.OrderStep | dynamicScheduling/src/task.cpp:767-773 | a reduction of k + 1 is printed only after one of k |
| Stopping.StopsAtUnique | dynamicScheduling/src/task.cpp:811-901 | a problem has one stopping iteration |
| Stopping.FirstToNotice | dynamicScheduling/src/task.cpp:811-856 | for every problem: whoever sets resTermFlagSet stands at the first iteration whose residual is below the tolerance, to which all tasks have contributed |
| Stopping.TermStep | dynamicScheduling/src/task.cpp:811-901 | for every problem every step keeps: before the flag is set the limit is the given one; after it either one task is deciding on the limit, or the limit is n beyond the first accepted iteration |
| Stopping.StopStep | dynamicScheduling/src/task.cpp:383-414 | for a problem with a stopping iteration every step keeps: no assert has failed, counters do not pass the limit, a task is done only at the limit, the limit is never raised, and the scan for the largest counter never comes to the new limit |
| Runs.SameAsSerial | dynamicScheduling/src/task.cpp:543-625 | whenever all tasks stand at iteration k, after any interleaving, both buffers are those of the serial solver after k sweeps |
| Runs.FinishedRun | dynamicScheduling/src/task.cpp:313-328 | every finished run stops all tasks at the problem's stopping iteration, with the serial buffers and the last iteration's residual published |
| Runs.ScheduleIndependent | dynamicScheduling/tests/checkRaceConds.sh:9-10 | two finished runs agree in buffers, counters and published residual |
| Runs.CheckStaysTrue | dynamicScheduling/src/task.cpp:281-304 | the condition established by two separate reads holds for the whole call |
| Runs.SkewOfRun | dynamicScheduling/src/task.cpp:297 | the sanity assert never fails, and all iterations in flight lie in a window of n |
| Runs.NoRace | dynamicScheduling/src/task.cpp:671-685 | a cell that one task writes is in another buffer than the one a task in flight reads, and only border rows are shared |
| Runs.OperandsUndisturbed | dynamicScheduling/src/task.cpp:596-612 | no step of another task changes what a task in flight would read for any of its cells |
| Runs.MinimalPasses | dynamicScheduling/src/task.cpp:299-304 | a task of minimal iteration passes its check |
| Runs.SlotIsClean | dynamicScheduling/src/task.cpp:707-712 | when an iteration takes over a slot, all its flags and its done bit are false |
| Runs.ReducersOfRun | dynamicScheduling/src/task.cpp:752-765 | at most one reducer at a time, only for an iteration all tasks have contributed to, with an exact partial sum, and nobody is behind it |
| Runs.ReductionsOfRun | dynamicScheduling/src/task.cpp:714-773 | every iteration that all tasks have left was reduced; each reduction gives that iteration's residual; reductions follow the iterations |
| Runs.PublishedNeverFalls | dynamicScheduling/src/task.cpp:779-780 | grid_iters_ never decreases |
| Runs.LoweringIsSafe | dynamicScheduling/src/task.cpp:866-892 | while the limit is lowered one task does it, every counter is below the new limit and no task has left |
| Solo.AloneEnds | dynamicScheduling/src/task.cpp:313-328 | a call that nobody disturbs ends, from any point of its code |
| Solo.AloneCounts | dynamicScheduling/src/task.cpp:358-360 | between its check and its end a call increments the counter exactly once, unless an assert fails |
| Finishing.StartWork | dynamicScheduling/src/task.cpp:274-305 | a task of minimal iteration gets from anywhere outside its work, even from a stale first read, into its work |
| Finishing.CanFinish | dynamicScheduling/src/task.cpp:299-304 | every schedule of single steps can be continued to one that finishes all tasks, without regard to the pool |
| LimitAssert.FailingRun | dynamicScheduling/src/task.cpp:870-882 | for every problem whose first small residual is less than n before the limit and every number of workers, a run of the whole program in which the assert fails |
| LimitAssert.LimitAssertHoldsIff | dynamicScheduling/src/task.cpp:882 | whatever the number of workers, no run of the program fails an assert of the tasks, exactly if the first small residual is not less than n iterations before the limit |
| LimitAssert.AssertsHoldIff | dynamicScheduling/src/task.cpp:882 | the same condition for free schedules of single steps: the pool neither adds nor removes a way to fail |
| ReducedTwice.TwoReductions | dynamicScheduling/src/task.cpp:751-762 | for every problem and two or more workers a run of the program in which two tasks reduce iteration 0 |
| ReducedTwice.ReducedOnceIff | dynamicScheduling/src/task.cpp:751-753 | in every run of the program each iteration is reduced at most once, exactly if there is one worker |
| Pool.PoolStep | dynamicScheduling/include/ThreadPool/ThreadPool.hpp:151-289 | every action keeps the places of the tasks, the count, wake-ups and the shutdown consistent |
| Pool.FirstInFirstOut | dynamicScheduling/include/ThreadPool/ThreadPool.hpp:184-223 | in every run the tasks enqueued so far, in order, are the tasks started so far, in order, followed by the queue |
| Pool.WakesOne | dynamicScheduling/include/ThreadPool/ThreadPool.hpp:227 | notify_one wakes exactly one blocked worker if there is one, and changes no other |
| Pool.PlacesOfRun | dynamicScheduling/include/ThreadPool/ThreadPool.hpp:177-253 | each task is in exactly one place, numTasksDone counts the finished ones, stop implies that all are, and "enqueue on stopped ThreadPool" is never thrown |
| Pool.WakeUpsOfRun | dynamicScheduling/include/ThreadPool/ThreadPool.hpp:171-173 | no wake-up is lost, stop is never early, a worker leaves only after stop |
| Pool.StuckIsFinished | dynamicScheduling/include/ThreadPool/ThreadPool.hpp:177-180 | a pool in which nothing moves has finished all tasks and, unless aborted, all workers have left |
| Pool.AloneNeverAborts | dynamicScheduling/include/ThreadPool/ThreadPool.hpp:246 | a lone worker never fails the assert before stopping, whatever its calls return |
| StopAssert.AbortRun | dynamicScheduling/include/ThreadPool/ThreadPool.hpp:240-246 | with two or more workers a run of the whole program, with real calls, in which the assert before stopping fails |
| StopAssert.StopAssertHoldsIff | dynamicScheduling/include/ThreadPool/ThreadPool.hpp:246 | for every problem with a stopping iteration that assert holds in every run of the program exactly if there is one worker |
| Runtime.ReachableInv | dynamicScheduling/include/ThreadPool/ThreadPool.hpp:184-240 | whatever main and the workers do, the tasks follow a schedule of the machine; a queued task is between calls, a counted one done, a held one in its call |
| Embedding.ProgramIsMachine | dynamicScheduling/include/ThreadPool/ThreadPool.hpp:151-231 | with at least as many workers as tasks, the states the program can bring its tasks to are exactly those that free schedules of single steps reach; fewer workers reach no others |
| Runtime.StuckMeansDone | dynamicScheduling/include/ThreadPool/ThreadPool.hpp:171-180 | pool, mutex and neighbour checks never block each other for good: nothing moves only when all tasks are done |
| Halting.CanHalt | dynamicScheduling/include/ThreadPool/ThreadPool.hpp:151-289 | whatever main and the workers have done, the program can go on to a state of rest: polling never traps the pool |
| Runtime.HaltedProgram | dynamicScheduling/src/main.cpp:182-230 | for any number of threads a program at rest has stopped all tasks at the problem's iteration with the serial buffers and residual |
| RaceCheck.CheckRaceConds | dynamicScheduling/tests/checkRaceConds.sh:47-50 | the buffers of a program at rest are the serial ones of the stopping iteration; comparing them with a serial run of all iterations finds no difference exactly if the serial solver changes nothing in between, so always when it ends at the limit |
| Program.Grid.constructor | dynamicScheduling/src/grid.cpp:25-61 | two separate buffers with the initial contents |
| Program.Task.constructor | dynamicScheduling/src/task.cpp:45-71 | a band of numlocRows rows from row id * numlocRows, cleared ring, largest residual |
| Program.Task.IsPreCondsMet | dynamicScheduling/src/task.cpp:274-305 | true exactly if neither neighbour is behind; all asserts inside hold; nothing but the place in the code changes |
| Program.Task.Rows | dynamicScheduling/src/task.cpp:558-572 | the loop bounds: the band, without the first row for the top task and without the last for the bottom one |
| Program.Task.GetLocResidual | dynamicScheduling/src/task.cpp:646-696 | the loops return the local residual of the task's iteration and change nothing |
| Program.Task.SyncResidual | dynamicScheduling/src/task.cpp:705-801 | an undisturbed call marks the slot, and if it completes it resets all flags and publishes the iteration's residual |
| Program.Task.IsResTerCriMet | dynamicScheduling/src/task.cpp:811-856 | true exactly for the first call that sees a residual below the tolerance, which sets the flag |
| Program.Task.ChangeMaxIter | dynamicScheduling/src/task.cpp:866-901 | the first assert holds; the second holds exactly if all counters are below the limit, and then the limit is n beyond the task's iteration |
| Program.Task.UpdateGrid | dynamicScheduling/src/task.cpp:543-625 | the loops advance the task's rows to the next iterate and write nothing else |
| Program.Task.UpdateResidual | dynamicScheduling/src/task.cpp:632-638 | residual computed and synchronised |
| Program.Task.PerformTask | dynamicScheduling/src/task.cpp:313-328 | the whole effect of one iteration of a task on the program's state, and exactly when its assert fails |
| Program.Task.SetPostConds | dynamicScheduling/src/task.cpp:358-360 | the counter, and only it, is incremented |
| Program.Task.HasFinishedIters | dynamicScheduling/src/task.cpp:383-414 | true exactly if the counter has reached the current limit |
| Program.Task.Call | dynamicScheduling/src/main.cpp:202-225 | one attempt, for every problem: the counter grows exactly if the check passes, the call asks to be repeated exactly if the limit is not reached, and it fails only when a counter has reached the limit |
| Polling.LessLeft | dynamicScheduling/include/ThreadPool/ThreadPool.hpp:184-231 | each call, passed or not, decreases n times the remaining iterations plus the number of queued tasks before the first minimal one |
| SingleWorker.NoticedAtRest | dynamicScheduling/src/task.cpp:320-323 | between calls, a small residual of an iteration all have left has been noticed |
| SingleWorker.OrderGoesOn | dynamicScheduling/src/main.cpp:197-227 | in the order of enqueueing the next call is that of the next task and passes its check |
| SingleWorker.ThreadPool.Enqueue | dynamicScheduling/include/ThreadPool/ThreadPool.hpp:350-374 | the task is appended to the queue, or, exactly on a stopped pool, nothing changes and the call throws; enqueueing in order is the action of main in the pool's state machine |
| SingleWorker.ThreadPool.Serve | dynamicScheduling/include/ThreadPool/ThreadPool.hpp:184-253 | one turn of the loop, as actions of the pool's state machine: a call of the head, then requeue or count and stop; it leaves less to do |
| SingleWorker.ThreadPool.Work | dynamicScheduling/include/ThreadPool/ThreadPool.hpp:151-289 | from any order of the queue the worker's loop ends within n * n * (highest limit) calls; it fails an assert only if the first small residual is less than n before the limit, and otherwise leaves all tasks counted, the serial grid, and each iteration reduced exactly once |
| SingleWorker.BuildTasks | dynamicScheduling/src/main.cpp:90-132 | the tasks of a chain, each linked to its neighbours |
| SingleWorker.EndsWhereItStops | dynamicScheduling/src/task.cpp:892 | where a lone worker ends is the stopping iteration whenever there is one |
| SingleWorker.RunProgram | dynamicScheduling/src/main.cpp:77-227 | with one thread that starts after main has enqueued: an assert fails exactly if the first small residual is that of the last iteration before the limit; otherwise the serial grid after exactly n calls per iteration, one line of output per iteration, and call t is that of task t mod n at iteration t / n and passes its check |
| StaticSchedule.StaticDecomposition.SetThreadTaskMap | staticScheduling/staticDecomposition.cpp:87-108 | the ranges are consecutive, cover all tasks, and all but the last have the same size, for any number of threads |
| StaticSchedule.OneOwner | staticScheduling/staticDecomposition.cpp:87-108 | every task belongs to exactly one thread |
| StaticSchedule.StaticIsProtocolRun | staticScheduling/staticDecomposition.cpp:216-231 | a static run is a run of the neighbour protocol in which each check passes, and no task starts an iteration before all have finished the previous one |
| StaticSchedule.StaticFinished | staticScheduling/staticDecomposition.cpp:216-240 | when all threads are through, every task has run niters times and the buffers are the serial ones |
| StaticSchedule.StaticMoves | staticScheduling/staticDecomposition.cpp:227-228 | until then some thread can always move: the barrier does not deadlock |
| RedBlack.CalIndexes | dynamicScheduling/tests/SerialSolver/rbgs.cpp:10-42 | the toggling loops list the cells of each colour in row-major order, for odd and even widths |
| RedBlack.Partition | dynamicScheduling/tests/SerialSolver/rbgs.cpp:14-40 | an inner cell is in the red list exactly if row + column is even and in the black one exactly if it is odd, nothing else is in either, and both lists ascend |
| RedBlack.ColoursIndependent | dynamicScheduling/tests/SerialSolver/rbgs.cpp:20-37 | no cell has a neighbour of its own colour, and updates stay inside the grid |
| RedBlack.InPlaceIsSimultaneous | dynamicScheduling/tests/SerialSolver/rbgs.cpp:66-68 | updating the cells of a colour one after another, in place, gives the same grid as updating them all at once |
| RedBlack.InPlaceCell | dynamicScheduling/tests/SerialSolver/rbgs.cpp:66-68 | the in-place loop leaves in each cell of its list the stencil of the old values above, left, right and below, and every other cell as it was |
| RedBlack.OrderIrrelevant | dynamicScheduling/tests/SerialSolver/rbgs.cpp:64-68 | the in-place loop over two lists with the same cells, in whatever order, leaves the same grid |
| RedBlack.SweepColour | dynamicScheduling/tests/SerialSolver/rbgs.cpp:66-68 | the loop over a list leaves the grid that the recursive in-place sweep defines, for any list inside the grid |
| RedBlack.AnyInterleaving | dynamicScheduling/tests/SerialSolver/rbgs.cpp:65-68 | every interleaving of the single reads and writes of the loop's iterations ends in the simultaneous update |
| RedBlack.SolveParallel | dynamicScheduling/tests/SerialSolver/rbgs.cpp:45-79 | the solver passes through numiter + 1 grids from the given one to its result; from each to the next red cells are computed from the old grid, black cells from the new one, and the others stay |
| RedBlack.IterationIsRedThenBlack | dynamicScheduling/tests/SerialSolver/rbgs.cpp:62-77 | every iterate and the next one are related in this way, cell by cell |
| RedBlack.BlackSolved | dynamicScheduling/tests/SerialSolver/rbgs.cpp:69-73 | after an iteration every black cell satisfies its equation exactly |
| RedBlack.FixedPointIffSolved | dynamicScheduling/tests/SerialSolver/rbgs.cpp:62-77 | an iteration leaves a grid unchanged exactly if all inner cells satisfy their equations |
| RedBlack.SolvedIffJacobiFixed | dynamicScheduling/tests/SerialSolver/rbgs.cpp:66-73 | those are exactly the grids that a sweep of the Jacobi solver leaves unchanged |
| Reals.Consistent | dynamicScheduling/src/task.cpp:677-688 | on samples of a quadratic u the defect is f - (K^2 u - u_xx - u_yy), exactly, so the equation solved is K^2 u - u_xx - u_yy = f |
| Reals.QuadraticSolves | dynamicScheduling/src/util.cpp:59-68 | at the coordinates of the cells a quadratic is a solution of the discrete equations exactly if it satisfies that equation at every inner cell |
| Reals.DefectIsChange | dynamicScheduling/src/task.cpp:687-688 | the defect of a cell is the middle coefficient times the change its update would make |
| Reals.ResidualIdentity | dynamicScheduling/src/task.cpp:646-696 | the reduced sum of an iteration is the squared middle coefficient times the sum over the inner cells of the squared changes to the next iterate |
| Reals.AcceptedIff | dynamicScheduling/src/task.cpp:811-815 | the sum before the root is the sum over the inner cells of temp * temp, where temp is the middle coefficient times the change of the next update; the iteration is accepted exactly if it is less than tol * tol |
| Reals.ZeroResidualIffFixed | dynamicScheduling/src/task.cpp:754-765 | that sum is zero exactly if the next update changes no cell |
| Reals.Contraction | dynamicScheduling/src/task.cpp:551-616 | a sweep is a contraction in the maximum norm with factor 2(1/hx^2 + 1/hy^2) / (K^2 + 2(1/hx^2 + 1/hy^2)) |
| Reals.RateBelowOne | dynamicScheduling/src/task.cpp:553-557 | that factor is between 0 and 1 |
| Reals.RateIsSharp | dynamicScheduling/src/task.cpp:553-557 | it is 2(1/hx^2 + 1/hy^2) / (K^2 + 2(1/hx^2 + 1/hy^2)), and no smaller factor would do |
| Reals.ChangesShrink | dynamicScheduling/src/task.cpp:596-618 | successive iterates differ by at most the k-th power of the factor times their first difference |
| Reals.SolutionUnique | dynamicScheduling/src/task.cpp:614-615 | for given boundary values the discrete equations have at most one solution |
| Reals.ConvergesToSolution | dynamicScheduling/src/task.cpp:596-618 | the iterates approach the solution at that rate |
| Reals.SomeBelow | dynamicScheduling/src/task.cpp:815 | for every positive tolerance some iterate is accepted |
| Reals.Stops | dynamicScheduling/src/task.cpp:811-901 | so there is a first accepted iterate, and a limit with room for n more iterations ends the run exactly there |

## Left out

- Stopping.StopsAt: where it cannot be met (first small residual less than n before the limit, or limit 0), the results that require it say nothing: FinishedRun, LoweringIsSafe, HaltedProgram, CanHalt and StopAssertHoldsIff. Which problems these are, and that an assert can then fail, is proved for every limit of at least 1; the methods and the one-worker program do not need it.
- SingleWorker.EndsAt: a limit of 0, with which every task makes one iteration before it tests the limit, is not modelled further.
- Jacobi.Problem.Valid: at least two tasks and a number of rows that is n times the rows of a band, as the constructor of the grid assumes; one task alone would index a neighbour that does not exist.
- Machine.Exec: every access to a counter, flag, done bit, limit or cell is one atomic step in one global order. The source uses plain fields and a packed vector of flags, so this is an idealisation of the C++ memory model.
- SingleWorker.ThreadPool.Work: one worker only; for more workers, where calls interleave, the pool is the state machine of `Pool.dfy`, and what is proved is that it comes to rest only when finished and can come to rest from every state, not a bound on the number of calls. In an order other than main's, the late problems may or may not fail the assert, and only their kind is stated.
- SingleWorker.ThreadPool.Valid: ties the object to the pool's state machine as long as the tasks are enqueued in main's order, the only order main uses.
- SingleWorker.RunProgram: main enqueues all tasks before the worker starts; a worker that starts earlier is covered by `Runtime.dfy`.
- Program.Task.constructor: leaves out the coordinate y_coor_top_ and the exception for an invalid task location, which here is a type with three values.
- StopAssert.AbortRun: says nothing about problems without a stopping iteration, whose runs may fail the other assert before they come to count.
- Runtime.HaltedProgram: says what holds when nothing can move, spurious wake-ups aside; fairness of the operating system's scheduler is not modelled.
- Reals.Exact: the square root enters only through its comparison with the tolerance, and no property of rounding is claimed.
- StaticSchedule.Step: the threads run the solver's calls, where the static program only waits; the residual must not end the run before niters.
- Timers, cycle counters, synthetic delays, CPU pinning, thread creation and join, console output and the result files.
- The right-hand side and boundary values (sin, sinh, pi), coordinates, and the ramp of cycle counts: they are parameters here.
- doStaticScheduling in task.cpp: its loop is commented out, so it makes a single step.
- Argument parsing, shell, gnuplot and Python scripts.
