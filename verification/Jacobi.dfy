/** The grid, its division into bands of rows, and the Jacobi iterates.

    Cells have an arbitrary type T and the stencils are arbitrary functions, so
    every result about equality of grids holds for the arithmetic of `double`
    whatever its rounding does: the same operands give the same result. */
module Jacobi {

  // ----- linear forms of the products and remainders used as indices -----

  /** a * b, by recursion on a, so that proofs about indices stay linear. */
  function Times(a: nat, b: nat): nat {
    if a == 0 then 0 else Times(a - 1, b) + b
  }

  lemma {:induction false} TimesIsProduct(a: nat, b: nat)
    ensures Times(a, b) == a * b
  {
    if a == 0 {
    } else {
      TimesIsProduct(a - 1, b);
      assert a * b == (a - 1) * b + b;
    }
  }

  lemma {:induction false} TimesMonotone(a: nat, a': nat, b: nat)
    requires a <= a'
    ensures Times(a, b) <= Times(a', b)
  {
    if a < a' {
      TimesMonotone(a, a' - 1, b);
    }
  }

  /** k % n, by recursion on k. */
  function Slot(n: nat, k: nat): (s: nat)
    requires n >= 1
    ensures s < n
  {
    if k < n then k else Slot(n, k - n)
  }

  lemma {:induction false} SlotIsRemainder(n: nat, k: nat)
    requires n >= 1
    ensures Slot(n, k) == k % n
  {
    if k >= n {
      SlotIsRemainder(n, k - n);
      var q, m := (k - n) / n, (k - n) % n;
      assert k == (q + 1) * n + m;
      DivisionUnique(n, k, q + 1, m, k / n, k % n);
    } else {
      DivisionUnique(n, k, 0, k, k / n, k % n);
    }
  }

  lemma DivisionUnique(n: nat, k: nat, q: int, m: nat, q': int, m': nat)
    requires m < n && m' < n
    requires k == q * n + m && k == q' * n + m'
    ensures q == q' && m == m'
  {
    var d := q - q';
    assert d * n == m' - m by {
      assert d * n == q * n - q' * n;
    }
    MultipleInside(n, d);
  }

  lemma MultipleInside(n: int, d: int)
    requires -n < d * n < n
    ensures d == 0
  {
  }

  /** Iterations closer than n apart use different slots. */
  lemma {:induction false} SlotsApart(n: nat, a: nat, b: nat)
    requires n >= 1 && a <= b < a + n && Slot(n, a) == Slot(n, b)
    ensures a == b
    decreases a
  {
    if a >= n {
      SlotsApart(n, a - n, b - n);
    }
  }

  // ----- the problem -----

  /** What a run is given: the number of tasks, the grid, its initial buffers,
      the iteration limit and the arithmetic of the solver. */
  datatype Problem<!T> = Problem(
    n: nat,                                // Utility::numTasks
    loc: nat,                              // Grid::numlocRows_
    rows: nat,                             // Grid::numRows_
    cols: nat,                             // Grid::numCols_
    limit: nat,                            // Utility::maxIter at the start
    u1: seq<T>,                            // Grid::u1_ after init_u
    u2: seq<T>,                            // Grid::u2_ after init_u
    zero: T,                               // 0.0
    huge: T,                               // numeric_limits<double>::max()
    relax: (nat, T, T, T, T) -> T,         // index, up, left, right, down
    accum: (T, nat, T, T, T, T, T) -> T,   // sum so far, index, up, left, center, right, down
    add: (T, T) -> T,                      // global_res_ += loc_res2_
    root: T -> T,                          // std::sqrt
    below: T -> bool)                      // global_res_ < Utility::tol
  {
    ghost predicate Valid() {
      && n >= 2 && loc >= 1 && cols >= 1
      && rows == Times(n, loc)
      && |u1| == |u2| == Times(rows, cols)
      && !below(huge)
    }
  }

  ghost predicate InGrid<T>(p: Problem<T>, r: int, c: int) {
    0 <= r < p.rows && 0 <= c < p.cols
  }

  ghost predicate Interior<T>(p: Problem<T>, r: int, c: int) {
    1 <= r < p.rows - 1 && 1 <= c < p.cols - 1
  }

  /** The position of cell (r, c) in the row-major buffers. */
  function Idx<T>(p: Problem<T>, r: nat, c: nat): nat {
    Times(r, p.cols) + c
  }

  lemma IdxInBounds<T>(p: Problem<T>, r: nat, c: nat)
    requires InGrid(p, r, c)
    ensures Idx(p, r, c) < Times(p.rows, p.cols)
  {
    TimesMonotone(r + 1, p.rows, p.cols);
  }

  lemma IdxInjective<T>(p: Problem<T>, r: nat, c: nat, r': nat, c': nat)
    requires InGrid(p, r, c) && InGrid(p, r', c')
    requires Idx(p, r, c) == Idx(p, r', c')
    ensures r == r' && c == c'
  {
    if r < r' {
      TimesMonotone(r + 1, r', p.cols);
    } else if r' < r {
      TimesMonotone(r' + 1, r, p.cols);
    }
  }

  /** Row-major order. */
  lemma IdxIsRowMajor<T>(p: Problem<T>, r: nat, c: nat)
    ensures Idx(p, r, c) == r * p.cols + c
  {
    TimesIsProduct(r, p.cols);
  }

  lemma {:induction false} IdxOnto<T>(p: Problem<T>, ind: nat, rows: nat) returns (r: nat, c: nat)
    requires ind < Times(rows, p.cols)
    ensures r < rows && c < p.cols && Idx(p, r, c) == ind
  {
    if ind >= Times(rows - 1, p.cols) {
      r, c := rows - 1, ind - Times(rows - 1, p.cols);
    } else {
      r, c := IdxOnto(p, ind, rows - 1);
    }
  }

  // ----- bands of rows -----

  /** Task::row_start_ and, one task further, Task::row_end_. */
  function RowStart<T>(p: Problem<T>, i: nat): nat {
    Times(i, p.loc)
  }

  /** The task whose band holds row r. */
  function Owner<T>(p: Problem<T>, r: nat): nat
    requires p.loc >= 1
  {
    if r < p.loc then 0 else 1 + Owner(p, r - p.loc)
  }

  lemma {:induction false} OwnerIsBand<T>(p: Problem<T>, i: nat, r: nat)
    requires p.loc >= 1
    ensures Owner(p, r) == i <==> RowStart(p, i) <= r < RowStart(p, i + 1)
  {
    if r >= p.loc {
      if i > 0 {
        OwnerIsBand(p, i - 1, r - p.loc);
      }
    } else if i > 0 {
      TimesMonotone(1, i, p.loc);
      assert Times(1, p.loc) == p.loc;
    }
  }

  /** All bands have numlocRows rows, and the first begins with row 0. */
  lemma BandSize<T>(p: Problem<T>, i: nat)
    ensures RowStart(p, 0) == 0 && RowStart(p, i) == i * p.loc && RowStart(p, i + 1) == RowStart(p, i) + p.loc
  {
    TimesIsProduct(i, p.loc);
  }

  lemma {:induction false} OwnerIsQuotient<T>(p: Problem<T>, r: nat)
    requires p.loc >= 1
    ensures Owner(p, r) == r / p.loc
  {
    if r >= p.loc {
      OwnerIsQuotient(p, r - p.loc);
      var q, m := (r - p.loc) / p.loc, (r - p.loc) % p.loc;
      assert r == (q + 1) * p.loc + m;
      DivisionUnique(p.loc, r, q + 1, m, r / p.loc, r % p.loc);
    } else {
      DivisionUnique(p.loc, r, 0, r, r / p.loc, r % p.loc);
    }
  }

  lemma {:induction false} OwnerInRange<T>(p: Problem<T>, r: nat)
    requires p.Valid() && r < p.rows
    ensures Owner(p, r) < p.n
  {
    var i := Owner(p, r);
    OwnerIsBand(p, i, r);
    if i >= p.n {
      TimesMonotone(p.n, i, p.loc);
    }
  }

  lemma {:induction false} OwnerOfNextRow<T>(p: Problem<T>, r: nat)
    requires p.loc >= 1
    ensures Owner(p, r) <= Owner(p, r + 1) <= Owner(p, r) + 1
  {
    if r >= p.loc {
      OwnerOfNextRow(p, r - p.loc);
    }
  }

  /** First row a task updates: the top task skips the first row of the grid. */
  function Lo<T>(p: Problem<T>, i: nat): nat {
    if i == 0 then RowStart(p, i) + 1 else RowStart(p, i)
  }

  /** End (not included) of the rows a task updates: the bottom task skips the
      last row of the grid. */
  function Hi<T>(p: Problem<T>, i: nat): int {
    if i + 1 == p.n then RowStart(p, i + 1) - 1 else RowStart(p, i + 1)
  }

  lemma BandOfTask<T>(p: Problem<T>, i: nat, r: nat)
    requires p.Valid() && i < p.n
    ensures Lo(p, i) <= Hi(p, i) < p.rows
    ensures Lo(p, i) <= r < Hi(p, i) <==> r < p.rows && Owner(p, r) == i && 1 <= r < p.rows - 1
    ensures RowStart(p, i + 1) <= p.rows
  {
    OwnerIsBand(p, i, r);
    TimesMonotone(i + 1, p.n, p.loc);
    if i + 1 < p.n {
      TimesMonotone(i + 2, p.n, p.loc);
    }
    if i > 0 {
      TimesMonotone(1, i, p.loc);
      assert Times(1, p.loc) == p.loc;
    }
  }

  // ----- the iterates -----

  /** The value of cell (r, c) in the buffer written last after k sweeps, when
      sweep k reads buffer k % 2 and writes the other one. Iterate 0 is the
      initial content of u1, iterate -1 that of u2. A boundary cell is never
      written, so it keeps what its buffer held at first. */
  function Iterate<T>(p: Problem<T>, k: int, r: nat, c: nat): T
    requires p.Valid() && k >= -1 && InGrid(p, r, c)
    decreases k + 1
  {
    IdxInBounds(p, r, c);
    if k == -1 then p.u2[Idx(p, r, c)]
    else if k == 0 then p.u1[Idx(p, r, c)]
    else if 1 <= r < p.rows - 1 && 1 <= c < p.cols - 1 then
      p.relax(Idx(p, r, c), Iterate(p, k - 1, r - 1, c), Iterate(p, k - 1, r, c - 1),
              Iterate(p, k - 1, r, c + 1), Iterate(p, k - 1, r + 1, c))
    else Iterate(p, k - 2, r, c)
  }

  /** A boundary cell keeps what its buffer held at first. */
  lemma {:induction false} BoundaryIterate<T>(p: Problem<T>, k: int, r: nat, c: nat)
    requires p.Valid() && k >= -1 && InGrid(p, r, c) && !Interior(p, r, c)
    ensures Idx(p, r, c) < |p.u1| == |p.u2|
    ensures Iterate(p, k, r, c) == if k % 2 == 0 then p.u1[Idx(p, r, c)] else p.u2[Idx(p, r, c)]
    decreases k + 1
  {
    IdxInBounds(p, r, c);
    if k >= 1 {
      BoundaryIterate(p, k - 2, r, c);
    }
  }

  /** The two buffers after k sweeps: the one read next, then the one written next. */
  ghost predicate BuffersAt<T>(p: Problem<T>, k: nat, u1: seq<T>, u2: seq<T>)
    requires p.Valid()
  {
    && |u1| == |u2| == Times(p.rows, p.cols)
    && forall r: nat, c: nat | InGrid(p, r, c) :: BothHold(p, k, u1, u2, r, c)
  }

  ghost predicate BothHold<T>(p: Problem<T>, k: nat, u1: seq<T>, u2: seq<T>, r: nat, c: nat)
    requires p.Valid() && InGrid(p, r, c)
    requires |u1| == |u2| == Times(p.rows, p.cols)
  {
    IdxInBounds(p, r, c);
    && (if k % 2 == 0 then u1 else u2)[Idx(p, r, c)] == Iterate(p, k, r, c)
    && (if k % 2 == 0 then u2 else u1)[Idx(p, r, c)] == Iterate(p, k - 1, r, c)
  }

  /** The predicate leaves no freedom: it fixes every position of both buffers. */
  lemma BuffersUnique<T>(p: Problem<T>, k: nat, u1: seq<T>, u2: seq<T>, v1: seq<T>, v2: seq<T>)
    requires p.Valid() && BuffersAt(p, k, u1, u2) && BuffersAt(p, k, v1, v2)
    ensures u1 == v1 && u2 == v2
  {
    forall ind: nat | ind < |u1|
      ensures u1[ind] == v1[ind] && u2[ind] == v2[ind]
    {
      var r, c := IdxOnto(p, ind, p.rows);
      assert BothHold(p, k, u1, u2, r, c) && BothHold(p, k, v1, v2, r, c);
    }
  }
}
