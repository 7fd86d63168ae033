/** What the residual of an iteration is, independently of any schedule: the sums
    that getLocResidual and the reduction of syncResidual form, in their order. */
module Residual {
  import opened Jacobi

  /** The sum getLocResidual has formed at iteration k when it comes to cell
      (r, c) of the band of task i. */
  function LocalSum<T>(p: Problem<T>, i: nat, k: nat, r: nat, c: nat): T
    requires p.Valid() && i < p.n
    requires r <= Hi(p, i) && 1 <= c && (c > 1 ==> r < Hi(p, i) && c < p.cols - 1)
    decreases r, c
  {
    if p.cols <= 2 || r < Lo(p, i) || (r == Lo(p, i) && c == 1) then p.zero
    else if c > 1 then AddCell(p, i, k, LocalSum(p, i, k, r, c - 1), r, c - 1)
    else AddCell(p, i, k, LocalSum(p, i, k, r - 1, p.cols - 2), r - 1, p.cols - 2)
  }

  /** One assignment to temp and loc_residual. */
  function AddCell<T>(p: Problem<T>, i: nat, k: nat, acc: T, r: nat, c: nat): T
    requires p.Valid() && i < p.n && 1 <= c < p.cols - 1
    requires Lo(p, i) <= r < Hi(p, i)
  {
    BandOfTask(p, i, r);
    p.accum(acc, Idx(p, r, c), Iterate(p, k, r - 1, c), Iterate(p, k, r, c - 1), Iterate(p, k, r, c),
            Iterate(p, k, r, c + 1), Iterate(p, k, r + 1, c))
  }

  /** The sum grows by one cell at a time, through the end of each row. */
  lemma LocalSumNext<T>(p: Problem<T>, i: nat, k: nat, r: nat, c: nat)
    requires p.Valid() && i < p.n && 1 <= c < p.cols - 1
    requires Lo(p, i) <= r < Hi(p, i)
    ensures LocalSum(p, i, k, if c + 1 < p.cols - 1 then r else r + 1, if c + 1 < p.cols - 1 then c + 1 else 1)
            == AddCell(p, i, k, LocalSum(p, i, k, r, c), r, c)
  {
    hide AddCell, Iterate;
    if c + 1 < p.cols - 1 {
      assert c + 1 > 1;
    } else {
      assert r + 1 > Lo(p, i) && c == p.cols - 2;
    }
  }

  /** The local residual of task i at iteration k. */
  function LocalResidual<T>(p: Problem<T>, i: nat, k: nat): T
    requires p.Valid() && i < p.n
  {
    BandOfTask(p, i, 0);
    LocalSum(p, i, k, Hi(p, i), 1)
  }

  /** The sum of the first j local residuals of iteration k. */
  function GlobalSum<T>(p: Problem<T>, k: nat, j: nat): T
    requires p.Valid() && j <= p.n
  {
    if j == 0 then p.zero else p.add(GlobalSum(p, k, j - 1), LocalResidual(p, j - 1, k))
  }

  /** The global residual of iteration k. */
  function Norm<T>(p: Problem<T>, k: nat): T
    requires p.Valid()
  {
    p.root(GlobalSum(p, k, p.n))
  }

  /** Iteration k is the first whose residual is below the tolerance. */
  ghost predicate FirstBelow<T>(p: Problem<T>, k: nat)
    requires p.Valid()
  {
    p.below(Norm(p, k)) && forall m: nat | m < k :: !p.below(Norm(p, m))
  }

  // ----- the order of the sums -----

  ghost predicate InnerCells<T>(p: Problem<T>, cells: seq<(nat, nat)>) {
    forall a | 0 <= a < |cells| :: Interior(p, cells[a].0, cells[a].1)
  }

  /** The squares of the cells of a list, added in its order. */
  function AddedUp<T>(p: Problem<T>, k: nat, cells: seq<(nat, nat)>): T
    requires p.Valid() && InnerCells(p, cells)
  {
    if cells == [] then p.zero
    else
      var (r, c) := cells[|cells| - 1];
      p.accum(AddedUp(p, k, cells[..|cells| - 1]), r * p.cols + c, Iterate(p, k, r - 1, c), Iterate(p, k, r, c - 1),
              Iterate(p, k, r, c), Iterate(p, k, r, c + 1), Iterate(p, k, r + 1, c))
  }

  ghost predicate RowByRow(cells: seq<(nat, nat)>) {
    forall a, b | 0 <= a < b < |cells| ::
      cells[a].0 < cells[b].0 || (cells[a].0 == cells[b].0 && cells[a].1 < cells[b].1)
  }

  /** The list holds the cells of the band that come before (r, c), row by row. */
  ghost predicate CellsBefore<T>(p: Problem<T>, i: nat, r: int, c: int, cells: seq<(nat, nat)>) {
    && RowByRow(cells)
    && forall r': nat, c': nat ::
         (r', c') in cells <==> Lo(p, i) <= r' && 1 <= c' < p.cols - 1 && (r' < r || (r' == r && c' < c))
  }

  lemma OneMoreListed<T>(p: Problem<T>, i: nat, cells: seq<(nat, nat)>, r: nat, c: nat)
    requires 1 <= c < p.cols - 1 && Lo(p, i) <= r && CellsBefore(p, i, r, c, cells)
    ensures CellsBefore(p, i, r, c + 1, cells + [(r, c)])
  {
    hide Lo, Times;
    var more := cells + [(r, c)];
    forall a, b | 0 <= a < b < |more|
      ensures more[a].0 < more[b].0 || (more[a].0 == more[b].0 && more[a].1 < more[b].1)
    {
      if b == |cells| {
        assert (cells[a].0, cells[a].1) in cells;
      }
    }
  }

  lemma OneMoreAdded<T>(p: Problem<T>, i: nat, k: nat, cells: seq<(nat, nat)>, r: nat, c: nat)
    requires p.Valid() && i < p.n && 1 <= c < p.cols - 1 && Lo(p, i) <= r < Hi(p, i) && InnerCells(p, cells)
    ensures InnerCells(p, cells + [(r, c)])
    ensures AddedUp(p, k, cells + [(r, c)]) == AddCell(p, i, k, AddedUp(p, k, cells), r, c)
  {
    hide Iterate, Lo, Hi, Times;
    BandOfTask(p, i, r);
    IdxIsRowMajor(p, r, c);
    var more := cells + [(r, c)];
    assert more[..|more| - 1] == cells && more[|more| - 1] == (r, c);
  }

  lemma EndOfRow<T>(p: Problem<T>, i: nat, cells: seq<(nat, nat)>, r: nat)
    requires p.cols > 2 && CellsBefore(p, i, r, p.cols - 1, cells)
    ensures CellsBefore(p, i, r + 1, 1, cells)
  {
  }

  /** The list holds the cells before (r, c), and adding them up gives the sum so far. */
  ghost predicate SumsUp<T>(p: Problem<T>, i: nat, k: nat, r: nat, c: nat, cells: seq<(nat, nat)>)
    requires p.Valid() && i < p.n && Lo(p, i) <= r <= Hi(p, i) && 1 <= c && (c > 1 ==> r < Hi(p, i) && c < p.cols - 1)
  {
    InnerCells(p, cells) && CellsBefore(p, i, r, c, cells) && LocalSum(p, i, k, r, c) == AddedUp(p, k, cells)
  }

  lemma SumsStart<T>(p: Problem<T>, i: nat, k: nat, r: nat, c: nat)
    requires p.Valid() && i < p.n && Lo(p, i) <= r <= Hi(p, i) && 1 <= c && (c > 1 ==> r < Hi(p, i) && c < p.cols - 1)
    requires p.cols <= 2 || (r == Lo(p, i) && c == 1)
    ensures SumsUp(p, i, k, r, c, [])
  {
  }

  lemma SumsNext<T>(p: Problem<T>, i: nat, k: nat, r: nat, c: nat, cells: seq<(nat, nat)>)
    requires p.Valid() && i < p.n && Lo(p, i) <= r < Hi(p, i) && 1 <= c < p.cols - 1 && SumsUp(p, i, k, r, c, cells)
    ensures c + 1 < p.cols - 1 ==> SumsUp(p, i, k, r, c + 1, cells + [(r, c)])
    ensures c + 1 == p.cols - 1 ==> SumsUp(p, i, k, r + 1, 1, cells + [(r, c)])
  {
    hide CellsBefore, InnerCells, AddedUp, AddCell, LocalSum, Lo, Hi;
    OneMoreListed(p, i, cells, r, c);
    OneMoreAdded(p, i, k, cells, r, c);
    LocalSumNext(p, i, k, r, c);
    if c + 1 == p.cols - 1 {
      EndOfRow(p, i, cells + [(r, c)], r);
    }
  }

  lemma {:induction false} SumOfCells<T>(p: Problem<T>, i: nat, k: nat, r: nat, c: nat) returns (cells: seq<(nat, nat)>)
    requires p.Valid() && i < p.n && Lo(p, i) <= r <= Hi(p, i) && 1 <= c && (c > 1 ==> r < Hi(p, i) && c < p.cols - 1)
    ensures SumsUp(p, i, k, r, c, cells)
    decreases r, c
  {
    hide SumsUp, Lo, Hi;
    if p.cols <= 2 || (r == Lo(p, i) && c == 1) {
      cells := [];
      SumsStart(p, i, k, r, c);
    } else if c > 1 {
      cells := SumOfCells(p, i, k, r, c - 1);
      SumsNext(p, i, k, r, c - 1, cells);
      cells := cells + [(r, c - 1)];
    } else {
      cells := SumOfCells(p, i, k, r - 1, p.cols - 2);
      SumsNext(p, i, k, r - 1, p.cols - 2, cells);
      cells := cells + [(r - 1, p.cols - 2)];
    }
  }

  /** The local residual adds each inner cell of the band once, row by row. */
  lemma LocalResidualAddsBand<T>(p: Problem<T>, i: nat, k: nat) returns (cells: seq<(nat, nat)>)
    requires p.Valid() && i < p.n
    ensures InnerCells(p, cells) && RowByRow(cells)
    ensures forall r: nat, c: nat :: (r, c) in cells <==> Interior(p, r, c) && r / p.loc == i
    ensures LocalResidual(p, i, k) == AddedUp(p, k, cells)
  {
    BandOfTask(p, i, 0);
    cells := SumOfCells(p, i, k, Hi(p, i), 1);
    forall r: nat, c: nat
      ensures (r, c) in cells <==> Interior(p, r, c) && r / p.loc == i
    {
      BandOfTask(p, i, r);
      OwnerIsQuotient(p, r);
    }
  }

  /** The reduction adds the local residuals by task number, starting from zero, and
      takes the root at the end. */
  lemma {:induction false} ReductionOrder<T>(p: Problem<T>, k: nat, j: nat) returns (sums: seq<T>)
    requires p.Valid() && j <= p.n
    ensures |sums| == j + 1 && sums[0] == p.zero && sums[j] == GlobalSum(p, k, j)
    ensures j == p.n ==> p.root(sums[j]) == Norm(p, k)
    ensures forall i: nat | i < j :: sums[i + 1] == p.add(sums[i], LocalResidual(p, i, k))
  {
    hide LocalResidual;
    if j == 0 {
      sums := [p.zero];
    } else {
      sums := ReductionOrder(p, k, j - 1);
      sums := sums + [GlobalSum(p, k, j)];
    }
  }
}
