/** The solver over the real numbers: convergence, and what its residual measures. */
module Reals {
  import opened Jacobi
  import opened Residual
  import opened Machine
  import opened Stopping

  /** The discretised equation: right-hand side, 1 / hx^2, 1 / hy^2 and K^2. */
  datatype Equation = Equation(f: seq<real>, hxsqinv: real, hysqinv: real, kSq: real)

  /** The coefficient of the middle cell. */
  function Center(e: Equation): real {
    e.kSq + 2.0 * (e.hxsqinv + e.hysqinv)
  }

  function Mult(e: Equation): real
    requires Center(e) != 0.0
  {
    1.0 / Center(e)
  }

  /** What updateGrid assigns. */
  function Jacobi5(e: Equation, ind: nat, up: real, left: real, right: real, down: real): real
    requires ind < |e.f| && Center(e) != 0.0
  {
    Mult(e) * (e.f[ind] + e.hxsqinv * (left + right) + e.hysqinv * (up + down))
  }

  /** The local variable temp of getLocResidual. */
  function Defect(e: Equation, ind: nat, up: real, left: real, center: real, right: real, down: real): real
    requires ind < |e.f|
  {
    e.f[ind] - (Center(e) * center + -e.hxsqinv * (left + right) + -e.hysqinv * (up + down))
  }

  /** The boundary of both buffers is the same, as init_u leaves it. */
  ghost predicate SameBoundary(p: Problem<real>)
    requires p.Valid()
  {
    forall r: nat, c: nat | InGrid(p, r, c) && !Interior(p, r, c) :: Iterate(p, 0, r, c) == Iterate(p, -1, r, c)
  }

  /** The problem is that of the solver, with exact arithmetic. The square root
      enters only through its comparison with the tolerance. */
  ghost predicate Exact(p: Problem<real>, e: Equation, tol: real) {
    && p.Valid() && |e.f| == Times(p.rows, p.cols)
    && e.hxsqinv > 0.0 && e.hysqinv > 0.0 && e.kSq > 0.0 && tol > 0.0
    && p.zero == 0.0
    && (forall x, y :: p.add(x, y) == x + y)
    && (forall ind: nat, up, left, right, down | ind < |e.f| ::
          p.relax(ind, up, left, right, down) == Jacobi5(e, ind, up, left, right, down))
    && (forall acc, ind: nat, up, left, center, right, down | ind < |e.f| ::
          p.accum(acc, ind, up, left, center, right, down)
          == acc + Sq(Defect(e, ind, up, left, center, right, down)))
    && (forall x | x >= 0.0 :: p.below(p.root(x)) <==> x < tol * tol)
    && SameBoundary(p)
  }

  function Product(x: real, y: real): real {
    x * y
  }

  function Sq(x: real): real {
    Product(x, x)
  }

  lemma ProductPositive(x: real, y: real)
    requires (x > 0.0 && y > 0.0) || (x < 0.0 && y < 0.0)
    ensures Product(x, y) > 0.0
  {
    if x < 0.0 {
      assert x * y == (-x) * (-y);
    }
  }

  lemma SqNonNegative(x: real)
    ensures Sq(x) >= 0.0 && (Sq(x) == 0.0 <==> x == 0.0)
  {
    if x != 0.0 {
      ProductPositive(x, x);
    }
  }

  lemma SqProduct(x: real, y: real)
    ensures Sq(x * y) == Sq(x) * Sq(y)
  {
    assert (x * y) * (x * y) == (x * x) * (y * y);
  }

  /** Sq is the square. */
  lemma SqOfSum(x: real, y: real)
    ensures Sq(x + y) == Sq(x) + 2.0 * x * y + Sq(y)
    ensures Sq(x) == x * x
  {
  }

  lemma Cancel(c: real, s: real)
    requires c > 0.0
    ensures c * (1.0 / c * s) == s
  {
    var m := 1.0 / c;
    assert c * m == 1.0;
    assert c * (m * s) == (c * m) * s;
  }

  // ----- the residual -----

  /** The change of cell (r, c) from iterate k to iterate k + 1. */
  ghost function Change(p: Problem<real>, k: nat, r: nat, c: nat): real
    requires p.Valid() && InGrid(p, r, c)
  {
    Iterate(p, k + 1, r, c) - Iterate(p, k, r, c)
  }

  /** The defect of an iterate is the change the next update makes, scaled. */
  lemma DefectIsChange(e: Equation, ind: nat, up: real, left: real, center: real, right: real, down: real)
    requires ind < |e.f| && Center(e) > 0.0
    ensures Defect(e, ind, up, left, center, right, down)
         == Center(e) * (Jacobi5(e, ind, up, left, right, down) - center)
  {
    var s := e.f[ind] + e.hxsqinv * (left + right) + e.hysqinv * (up + down);
    Cancel(Center(e), s);
  }

  /** Sum of the squared changes in row r before column c. */
  ghost function RowSum(p: Problem<real>, k: nat, r: nat, c: nat): real
    requires p.Valid() && 1 <= r < p.rows - 1 && 1 <= c <= p.cols - 1
  {
    if c == 1 then 0.0 else RowSum(p, k, r, c - 1) + Sq(Change(p, k, r, c - 1))
  }

  /** Sum of the squared changes of all inner cells in rows before r. */
  ghost function GridSum(p: Problem<real>, k: nat, r: nat): real
    requires p.Valid() && p.cols >= 2 && 1 <= r <= p.rows - 1
  {
    if r == 1 then 0.0 else GridSum(p, k, r - 1) + RowSum(p, k, r - 1, p.cols - 1)
  }

  /** One turn of the loops of getLocResidual adds the squared change, scaled. */
  lemma AddsChange(p: Problem<real>, e: Equation, tol: real, i: nat, k: nat, acc: real, r: nat, c: nat)
    requires Exact(p, e, tol) && i < p.n && 1 <= c < p.cols - 1 && Lo(p, i) <= r < Hi(p, i)
    ensures InGrid(p, r, c)
    ensures AddCell(p, i, k, acc, r, c) == acc + Product(Sq(Center(e)), Sq(Change(p, k, r, c)))
  {
    BandOfTask(p, i, r);
    IdxInBounds(p, r, c);
    var up, left, center := Iterate(p, k, r - 1, c), Iterate(p, k, r, c - 1), Iterate(p, k, r, c);
    var right, down := Iterate(p, k, r, c + 1), Iterate(p, k, r + 1, c);
    var ind := Idx(p, r, c);
    DefectIsChange(e, ind, up, left, center, right, down);
    assert Iterate(p, k + 1, r, c) == Jacobi5(e, ind, up, left, right, down);
    SqProduct(Center(e), Change(p, k, r, c));
  }

  lemma Gather(s: real, a: real, b: real, c: real, d: real)
    ensures Product(s, a + b - d) + Product(s, c) == Product(s, a + (b + c) - d)
  {
    assert s * (a + b - d) + s * c == s * ((a + b - d) + c);
  }

  lemma StartsAtZero(p: Problem<real>, e: Equation, tol: real)
    requires Exact(p, e, tol)
    ensures p.zero == 0.0
  {
  }

  lemma BandRows(p: Problem<real>, i: nat)
    requires p.Valid() && i < p.n
    ensures 1 <= Lo(p, i) <= Hi(p, i) <= p.rows - 1
    ensures i + 1 < p.n ==> Lo(p, i + 1) == Hi(p, i)
    ensures Lo(p, 0) == 1 && Hi(p, p.n - 1) == p.rows - 1
  {
    BandOfTask(p, i, 0);
    if i > 0 {
      TimesMonotone(1, i, p.loc);
      assert Times(1, p.loc) == p.loc;
    }
  }

  /** The squared changes before cell (r, c), over all rows. */
  ghost function SumBefore(p: Problem<real>, k: nat, r: nat, c: nat): real
    requires p.Valid() && p.cols > 2 && 1 <= r <= p.rows - 1 && 1 <= c && (c > 1 ==> r < p.rows - 1 && c < p.cols - 1)
  {
    GridSum(p, k, r) + if c > 1 then RowSum(p, k, r, c) else 0.0
  }

  /** A local sum is a piece of one sum over the grid. */
  lemma {:induction false} LocalPiece(p: Problem<real>, e: Equation, tol: real, i: nat, k: nat, r: nat, c: nat)
    requires p.Valid() && Exact(p, e, tol) && i < p.n && p.cols > 2
    requires Lo(p, i) <= r <= Hi(p, i) && 1 <= c && (c > 1 ==> r < Hi(p, i) && c < p.cols - 1)
    ensures 1 <= Lo(p, i) <= r <= p.rows - 1 && (c > 1 ==> r < p.rows - 1)
    ensures LocalSum(p, i, k, r, c) == Product(Sq(Center(e)), SumBefore(p, k, r, c) - SumBefore(p, k, Lo(p, i), 1))
    decreases r, c
  {
    hide Exact, AddCell, Iterate, Change, Sq, Center, Lo, Hi, Product;
    BandRows(p, i);
    if c > 1 {
      LocalPiece(p, e, tol, i, k, r, c - 1);
      AddsChange(p, e, tol, i, k, LocalSum(p, i, k, r, c - 1), r, c - 1);
      Gather(Sq(Center(e)), GridSum(p, k, r), RowSum(p, k, r, c - 1), Sq(Change(p, k, r, c - 1)),
             GridSum(p, k, Lo(p, i)));
    } else if r > Lo(p, i) {
      LocalPiece(p, e, tol, i, k, r - 1, p.cols - 2);
      AddsChange(p, e, tol, i, k, LocalSum(p, i, k, r - 1, p.cols - 2), r - 1, p.cols - 2);
      Gather(Sq(Center(e)), GridSum(p, k, r - 1), RowSum(p, k, r - 1, p.cols - 2), Sq(Change(p, k, r - 1, p.cols - 2)),
             GridSum(p, k, Lo(p, i)));
    } else {
      StartsAtZero(p, e, tol);
      TimesZero(Sq(Center(e)));
    }
  }

  lemma TimesZero(s: real)
    ensures Product(s, 0.0) == 0.0 && Product(0.0, s) == 0.0
  {
  }

  /** The sum of the squared changes over the inner cells of the grid. */
  ghost function TotalChange(p: Problem<real>, k: nat): real
    requires p.Valid()
  {
    BandRows(p, p.n - 1);
    if p.cols > 2 then GridSum(p, k, p.rows - 1) else 0.0
  }

  lemma {:induction false} GlobalPiece(p: Problem<real>, e: Equation, tol: real, k: nat, j: nat)
    requires p.Valid() && Exact(p, e, tol) && p.cols > 2 && 1 <= j <= p.n
    ensures 1 <= Hi(p, j - 1) <= p.rows - 1
    ensures GlobalSum(p, k, j) == Product(Sq(Center(e)), GridSum(p, k, Hi(p, j - 1)))
  {
    hide Iterate, LocalSum, Lo, Hi, Center, Sq, Product;
    BandRows(p, j - 1);
    LocalPiece(p, e, tol, j - 1, k, Hi(p, j - 1), 1);
    assert p.add(GlobalSum(p, k, j - 1), LocalResidual(p, j - 1, k))
        == GlobalSum(p, k, j - 1) + LocalResidual(p, j - 1, k);
    if j > 1 {
      GlobalPiece(p, e, tol, k, j - 1);
      BandRows(p, j - 2);
      Gather(Sq(Center(e)), GridSum(p, k, Hi(p, j - 2)), 0.0,
             GridSum(p, k, Hi(p, j - 1)) - GridSum(p, k, Hi(p, j - 2)), 0.0);
    }
  }

  lemma {:induction false} NarrowGrid(p: Problem<real>, e: Equation, tol: real, k: nat, j: nat)
    requires p.Valid() && Exact(p, e, tol) && p.cols <= 2 && j <= p.n
    ensures GlobalSum(p, k, j) == 0.0
  {
    hide Iterate;
    if j > 0 {
      NarrowGrid(p, e, tol, k, j - 1);
      BandRows(p, j - 1);
      assert LocalResidual(p, j - 1, k) == 0.0;
    }
  }

  /** What the n tasks sum up at iteration k is the squared change of the grid from
      iterate k to iterate k + 1, times the squared middle coefficient. */
  lemma ResidualIdentity(p: Problem<real>, e: Equation, tol: real, k: nat)
    requires Exact(p, e, tol)
    ensures GlobalSum(p, k, p.n) == Sq(Center(e)) * TotalChange(p, k)
  {
    hide Iterate, GlobalSum;
    if p.cols > 2 {
      GlobalPiece(p, e, tol, k, p.n);
      BandRows(p, p.n - 1);
    } else {
      NarrowGrid(p, e, tol, k, p.n);
    }
  }

  // ----- zero residual -----

  lemma {:induction false} RowSumSign(p: Problem<real>, k: nat, r: nat, c: nat)
    requires p.Valid() && 1 <= r < p.rows - 1 && 1 <= c <= p.cols - 1
    ensures RowSum(p, k, r, c) >= 0.0
    ensures RowSum(p, k, r, c) == 0.0 <==> forall q: nat | 1 <= q < c :: Change(p, k, r, q) == 0.0
  {
    hide Iterate, Sq, Change;
    if c > 1 {
      RowSumSign(p, k, r, c - 1);
      SqNonNegative(Change(p, k, r, c - 1));
    }
  }

  ghost predicate RowStill(p: Problem<real>, k: nat, r: nat)
    requires p.Valid() && 1 <= r < p.rows - 1
  {
    forall q: nat | 1 <= q < p.cols - 1 :: Change(p, k, r, q) == 0.0
  }

  lemma {:induction false} GridSumSign(p: Problem<real>, k: nat, r: nat)
    requires p.Valid() && p.cols >= 2 && 1 <= r <= p.rows - 1
    ensures GridSum(p, k, r) >= 0.0
    ensures GridSum(p, k, r) == 0.0 <==> forall r': nat | 1 <= r' < r :: RowStill(p, k, r')
  {
    hide Iterate, Change, RowSum;
    if r > 1 {
      GridSumSign(p, k, r - 1);
      RowSumSign(p, k, r - 1, p.cols - 1);
      assert RowSum(p, k, r - 1, p.cols - 1) == 0.0 <==> RowStill(p, k, r - 1);
    }
  }

  /** The residual of iteration k is zero exactly if the next update changes nothing. */
  lemma ZeroResidualIffFixed(p: Problem<real>, e: Equation, tol: real, k: nat)
    requires Exact(p, e, tol)
    ensures GlobalSum(p, k, p.n) >= 0.0
    ensures GlobalSum(p, k, p.n) == 0.0 <==> forall r: nat | 1 <= r < p.rows - 1 :: RowStill(p, k, r)
  {
    hide Iterate, GlobalSum, GridSum;
    ResidualIdentity(p, e, tol, k);
    SqNonNegative(Center(e));
    BandRows(p, p.n - 1);
    if p.cols > 2 {
      GridSumSign(p, k, p.rows - 1);
      Scaled(Sq(Center(e)), TotalChange(p, k));
    }
  }

  lemma Scaled(s: real, x: real)
    requires s > 0.0 && x >= 0.0
    ensures s * x >= 0.0 && (s * x == 0.0 <==> x == 0.0)
  {
    if x > 0.0 {
      ProductPositive(s, x);
    }
  }

  // ----- the test for the end -----

  /** The local variable temp of an inner cell, by what the next update makes of it. */
  ghost function Temp(p: Problem<real>, e: Equation, k: nat, r: nat, c: nat): real
    requires p.Valid() && InGrid(p, r, c)
  {
    Center(e) * (Iterate(p, k + 1, r, c) - Iterate(p, k, r, c))
  }

  ghost function SquaresInRow(p: Problem<real>, e: Equation, k: nat, r: nat, c: nat): real
    requires p.Valid() && 1 <= r < p.rows - 1 && 1 <= c <= p.cols - 1
  {
    if c == 1 then 0.0 else SquaresInRow(p, e, k, r, c - 1) + Temp(p, e, k, r, c - 1) * Temp(p, e, k, r, c - 1)
  }

  ghost function SquaresInRows(p: Problem<real>, e: Equation, k: nat, r: nat): real
    requires p.Valid() && p.cols >= 2 && 1 <= r <= p.rows - 1
  {
    if r == 1 then 0.0 else SquaresInRows(p, e, k, r - 1) + SquaresInRow(p, e, k, r - 1, p.cols - 1)
  }

  /** The sum of temp * temp over all inner cells. */
  ghost function SumOfSquares(p: Problem<real>, e: Equation, k: nat): real
    requires p.Valid()
  {
    BandRows(p, p.n - 1);
    if p.cols > 2 then SquaresInRows(p, e, k, p.rows - 1) else 0.0
  }

  lemma TempSquared(p: Problem<real>, e: Equation, k: nat, r: nat, c: nat)
    requires p.Valid() && InGrid(p, r, c)
    ensures Temp(p, e, k, r, c) * Temp(p, e, k, r, c) == Product(Sq(Center(e)), Sq(Change(p, k, r, c)))
  {
    hide Iterate, Center;
    SqProduct(Center(e), Change(p, k, r, c));
  }

  lemma Distribute(s: real, x: real, y: real)
    ensures Product(s, x) + Product(s, y) == Product(s, x + y)
  {
  }

  lemma {:induction false} RowOfSquares(p: Problem<real>, e: Equation, k: nat, r: nat, c: nat)
    requires p.Valid() && 1 <= r < p.rows - 1 && 1 <= c <= p.cols - 1
    ensures SquaresInRow(p, e, k, r, c) == Product(Sq(Center(e)), RowSum(p, k, r, c))
  {
    hide Temp, Change, Sq, Center, Product;
    if c == 1 {
      TimesZero(Sq(Center(e)));
    } else {
      RowOfSquares(p, e, k, r, c - 1);
      TempSquared(p, e, k, r, c - 1);
      Distribute(Sq(Center(e)), RowSum(p, k, r, c - 1), Sq(Change(p, k, r, c - 1)));
    }
  }

  lemma {:induction false} RowsOfSquares(p: Problem<real>, e: Equation, k: nat, r: nat)
    requires p.Valid() && p.cols >= 2 && 1 <= r <= p.rows - 1
    ensures SquaresInRows(p, e, k, r) == Product(Sq(Center(e)), GridSum(p, k, r))
  {
    hide SquaresInRow, RowSum, Sq, Center, Product;
    if r == 1 {
      TimesZero(Sq(Center(e)));
    } else {
      RowsOfSquares(p, e, k, r - 1);
      RowOfSquares(p, e, k, r - 1, p.cols - 1);
      Distribute(Sq(Center(e)), GridSum(p, k, r - 1), RowSum(p, k, r - 1, p.cols - 1));
    }
  }

  lemma RootTest(p: Problem<real>, e: Equation, tol: real, x: real)
    requires Exact(p, e, tol) && x >= 0.0
    ensures p.below(p.root(x)) <==> x < tol * tol
  {
  }

  /** The global residual of iteration k, before the root, is the sum over the inner
      cells of temp * temp, and the test for the end compares that sum with tol * tol. */
  lemma AcceptedIff(p: Problem<real>, e: Equation, tol: real, k: nat)
    requires Exact(p, e, tol)
    ensures GlobalSum(p, k, p.n) == SumOfSquares(p, e, k)
    ensures p.below(Norm(p, k)) <==> SumOfSquares(p, e, k) < tol * tol
  {
    hide GlobalSum, SquaresInRows, GridSum, Exact, Center, Sq;
    IsPositive(p, e, tol);
    ResidualIdentity(p, e, tol, k);
    ZeroResidualIffFixed(p, e, tol, k);
    BandRows(p, p.n - 1);
    if p.cols > 2 {
      RowsOfSquares(p, e, k, p.rows - 1);
    } else {
      TimesZero(Sq(Center(e)));
    }
    RootTest(p, e, tol, GlobalSum(p, k, p.n));
  }

  // ----- contraction -----

  function Magnitude(x: real): (m: real)
    ensures m >= 0.0 && (m == x || m == -x)
  {
    if x < 0.0 then -x else x
  }

  /** The contraction factor. */
  function Rate(e: Equation): real
    requires Center(e) != 0.0
  {
    Product(2.0 * (e.hxsqinv + e.hysqinv), Mult(e))
  }

  ghost predicate Positive(e: Equation) {
    e.hxsqinv > 0.0 && e.hysqinv > 0.0 && e.kSq > 0.0
  }

  lemma RateBelowOne(e: Equation)
    requires Positive(e)
    ensures Center(e) > 0.0 && Mult(e) > 0.0 && 0.0 < Rate(e) < 1.0
  {
    var s, c := 2.0 * (e.hxsqinv + e.hysqinv), Center(e);
    Cancel(c, s);
    ProductPositive(s, Mult(e));
    ProductPositive(e.kSq, Mult(e));
    assert Product(s, Mult(e)) + Product(e.kSq, Mult(e)) == c * Mult(e) == 1.0;
  }

  lemma Scales(m: real, x: real, y: real)
    requires m >= 0.0 && x <= y
    ensures Product(m, x) <= Product(m, y)
  {
    if m > 0.0 && x < y {
      ProductPositive(m, y - x);
      assert Product(m, y - x) == Product(m, y) - Product(m, x);
    }
  }

  lemma ScalesMagnitude(m: real, x: real, y: real)
    requires m >= 0.0 && Magnitude(x) <= y
    ensures Magnitude(Product(m, x)) <= Product(m, y)
  {
    Scales(m, x, y);
    Scales(m, -y, x);
    assert Product(m, -y) == -Product(m, y);
  }

  /** The factor is 2(1/hx^2 + 1/hy^2) / (K^2 + 2(1/hx^2 + 1/hy^2)), and no smaller one will
      do: four operands larger by b make the result larger by exactly the rate times b. */
  lemma RateIsSharp(e: Equation, ind: nat, up: real, left: real, right: real, down: real, b: real)
    requires Positive(e) && ind < |e.f|
    ensures Center(e) > 0.0
    ensures Rate(e) * (e.kSq + 2.0 * (e.hxsqinv + e.hysqinv)) == 2.0 * (e.hxsqinv + e.hysqinv)
    ensures Jacobi5(e, ind, up + b, left + b, right + b, down + b) - Jacobi5(e, ind, up, left, right, down)
         == Rate(e) * b
  {
    RateBelowOne(e);
    var s, c := 2.0 * (e.hxsqinv + e.hysqinv), Center(e);
    Cancel(c, s);
    Swap(s, Mult(e), c);
    DifferenceOfUpdates(e, ind, up + b, left + b, right + b, down + b, up, left, right, down);
    assert (left + b + (right + b)) - (left + right) == 2.0 * b == (up + b + (down + b)) - (up + down);
    RateTimes(e.hxsqinv, e.hysqinv, Mult(e), b);
  }

  /** Two updates of a cell differ by at most the rate times the largest difference
      of their operands. */
  lemma CellContracts(e: Equation, ind: nat, up: real, left: real, right: real, down: real,
                      up': real, left': real, right': real, down': real, b: real)
    requires Positive(e) && ind < |e.f|
    requires Magnitude(up - up') <= b && Magnitude(left - left') <= b
    requires Magnitude(right - right') <= b && Magnitude(down - down') <= b
    ensures Center(e) > 0.0
    ensures Magnitude(Jacobi5(e, ind, up, left, right, down) - Jacobi5(e, ind, up', left', right', down'))
            <= Product(Rate(e), b)
  {
    RateBelowOne(e);
    var x, y := (left + right) - (left' + right'), (up + down) - (up' + down');
    ScalesMagnitude(e.hxsqinv, x, 2.0 * b);
    ScalesMagnitude(e.hysqinv, y, 2.0 * b);
    var z := Product(e.hxsqinv, x) + Product(e.hysqinv, y);
    ScalesMagnitude(Mult(e), z, Product(e.hxsqinv, 2.0 * b) + Product(e.hysqinv, 2.0 * b));
    DifferenceOfUpdates(e, ind, up, left, right, down, up', left', right', down');
    RateTimes(e.hxsqinv, e.hysqinv, Mult(e), b);
  }

  lemma DifferenceOfUpdates(e: Equation, ind: nat, up: real, left: real, right: real, down: real,
                            up': real, left': real, right': real, down': real)
    requires ind < |e.f| && Center(e) != 0.0
    ensures Jacobi5(e, ind, up, left, right, down) - Jacobi5(e, ind, up', left', right', down')
         == Product(Mult(e), Product(e.hxsqinv, (left + right) - (left' + right'))
                             + Product(e.hysqinv, (up + down) - (up' + down')))
  {
    var s := e.f[ind] + e.hxsqinv * (left + right) + e.hysqinv * (up + down);
    var s' := e.f[ind] + e.hxsqinv * (left' + right') + e.hysqinv * (up' + down');
    assert s - s' == Product(e.hxsqinv, (left + right) - (left' + right'))
                     + Product(e.hysqinv, (up + down) - (up' + down'));
    MultiplyDifference(Mult(e), s, s');
  }

  lemma MultiplyDifference(m: real, s: real, s': real)
    ensures m * s - m * s' == Product(m, s - s')
  {
  }

  lemma RateTimes(hx: real, hy: real, m: real, b: real)
    ensures Product(m, Product(hx, 2.0 * b) + Product(hy, 2.0 * b)) == Product(Product(2.0 * (hx + hy), m), b)
  {
    assert Product(hx, 2.0 * b) + Product(hy, 2.0 * b) == (2.0 * (hx + hy)) * b;
    assert m * ((2.0 * (hx + hy)) * b) == ((2.0 * (hx + hy)) * m) * b;
  }

  // ----- grids of real numbers -----

  /** A grid as a function of row and column. */
  type Field = (nat, nat) -> real

  ghost function Snapshot(p: Problem<real>, k: nat): Field
    requires p.Valid()
  {
    (r: nat, c: nat) => if InGrid(p, r, c) then Iterate(p, k, r, c) else 0.0
  }

  /** Grid w is one Jacobi sweep after grid v. */
  ghost predicate NextOf(p: Problem<real>, e: Equation, v: Field, w: Field)
    requires p.Valid() && |e.f| == Times(p.rows, p.cols) && Center(e) != 0.0
  {
    forall r: nat, c: nat | InGrid(p, r, c) :: Updated(p, e, v, w, r, c)
  }

  ghost predicate Updated(p: Problem<real>, e: Equation, v: Field, w: Field, r: nat, c: nat)
    requires p.Valid() && |e.f| == Times(p.rows, p.cols) && Center(e) != 0.0 && InGrid(p, r, c)
  {
    IdxInBounds(p, r, c);
    w(r, c) == if 1 <= r < p.rows - 1 && 1 <= c < p.cols - 1
               then Jacobi5(e, Idx(p, r, c), v(r - 1, c), v(r, c - 1), v(r, c + 1), v(r + 1, c))
               else v(r, c)
  }

  ghost predicate Near(v: Field, w: Field, r: nat, c: nat, b: real) {
    Magnitude(v(r, c) - w(r, c)) <= b
  }

  /** The largest difference of two grids is at most b. */
  ghost predicate Close(p: Problem<real>, v: Field, w: Field, b: real) {
    forall r: nat, c: nat | InGrid(p, r, c) :: Near(v, w, r, c, b)
  }

  ghost predicate BoundaryAgrees(p: Problem<real>, v: Field, w: Field) {
    forall r: nat, c: nat | InGrid(p, r, c) && !Interior(p, r, c) :: Near(v, w, r, c, 0.0)
  }

  /** One sweep is a contraction in the maximum norm. */
  lemma Contraction(p: Problem<real>, e: Equation, v: Field, w: Field, v': Field, w': Field, b: real)
    requires p.Valid() && |e.f| == Times(p.rows, p.cols) && Positive(e) && Center(e) > 0.0
    requires NextOf(p, e, v, v') && NextOf(p, e, w, w') && Close(p, v, w, b) && BoundaryAgrees(p, v, w) && b >= 0.0
    ensures Close(p, v', w', Product(Rate(e), b)) && BoundaryAgrees(p, v', w')
  {
    RateBelowOne(e);
    Scales(Rate(e), 0.0, b);
    assert Product(Rate(e), 0.0) == 0.0;
    forall r: nat, c: nat | InGrid(p, r, c)
      ensures Near(v', w', r, c, Product(Rate(e), b))
      ensures !Interior(p, r, c) ==> Near(v', w', r, c, 0.0)
    {
      assert Updated(p, e, v, v', r, c) && Updated(p, e, w, w', r, c);
      if Interior(p, r, c) {
        IdxInBounds(p, r, c);
        assert Near(v, w, r - 1, c, b) && Near(v, w, r, c - 1, b) && Near(v, w, r, c + 1, b) && Near(v, w, r + 1, c, b);
        CellContracts(e, Idx(p, r, c), v(r - 1, c), v(r, c - 1), v(r, c + 1), v(r + 1, c),
                      w(r - 1, c), w(r, c - 1), w(r, c + 1), w(r + 1, c), b);
      } else {
        assert Near(v, w, r, c, 0.0);
      }
    }
  }

  /** The boundary never changes. */
  lemma {:induction false} BoundaryStill(p: Problem<real>, k: nat, r: nat, c: nat)
    requires p.Valid() && SameBoundary(p) && InGrid(p, r, c) && !Interior(p, r, c)
    ensures Iterate(p, k, r, c) == Iterate(p, 0, r, c)
  {
    if k >= 2 {
      BoundaryStill(p, k - 2, r, c);
    } else if k == 1 {
      assert Iterate(p, 1, r, c) == Iterate(p, -1, r, c);
    }
  }

  lemma SnapshotCell(p: Problem<real>, e: Equation, tol: real, k: nat, r: nat, c: nat)
    requires Exact(p, e, tol) && InGrid(p, r, c)
    ensures Center(e) > 0.0 && Updated(p, e, Snapshot(p, k), Snapshot(p, k + 1), r, c)
  {
    if Interior(p, r, c) {
      SnapshotInner(p, e, tol, k, r, c);
    } else {
      hide Exact;
      IsPositive(p, e, tol);
      BoundaryStill(p, k, r, c);
      BoundaryStill(p, k + 1, r, c);
    }
  }

  lemma SnapshotInner(p: Problem<real>, e: Equation, tol: real, k: nat, r: nat, c: nat)
    requires Exact(p, e, tol) && Interior(p, r, c)
    ensures Center(e) > 0.0 && Updated(p, e, Snapshot(p, k), Snapshot(p, k + 1), r, c)
  {
    IdxInBounds(p, r, c);
  }

  lemma SnapshotNext(p: Problem<real>, e: Equation, tol: real, k: nat)
    requires Exact(p, e, tol)
    ensures Center(e) > 0.0 && NextOf(p, e, Snapshot(p, k), Snapshot(p, k + 1))
  {
    forall r: nat, c: nat | InGrid(p, r, c)
      ensures Center(e) > 0.0 && Updated(p, e, Snapshot(p, k), Snapshot(p, k + 1), r, c)
    {
      hide Iterate;
      SnapshotCell(p, e, tol, k, r, c);
    }
  }

  lemma Regroup(x: real, y: real, z: real)
    ensures Product(x, Product(y, z)) == Product(Product(x, y), z)
  {
    assert x * (y * z) == (x * y) * z;
  }

  function Power(q: real, k: nat): real {
    if k == 0 then 1.0 else Product(q, Power(q, k - 1))
  }

  lemma {:induction false} PowerOfSum(q: real, j: nat, k: nat)
    ensures Power(q, 1) == q && Power(q, j + k) == Power(q, j) * Power(q, k)
  {
    assert Power(q, 1) == Product(q, 1.0) == q;
    if j == 0 {
      assert 1.0 * Power(q, k) == Power(q, k);
    } else {
      PowerOfSum(q, j - 1, k);
      Regroup(q, Power(q, j - 1), Power(q, k));
    }
  }

  /** Successive iterates approach each other geometrically. */
  lemma {:induction false} ChangesShrink(p: Problem<real>, e: Equation, tol: real, b: real, k: nat)
    requires Exact(p, e, tol) && b >= 0.0 && Close(p, Snapshot(p, 1), Snapshot(p, 0), b) && Center(e) > 0.0
    ensures Close(p, Snapshot(p, k + 1), Snapshot(p, k), Product(Power(Rate(e), k), b))
    ensures BoundaryAgrees(p, Snapshot(p, k + 1), Snapshot(p, k)) && Product(Power(Rate(e), k), b) >= 0.0
  {
    hide Iterate, Exact, Close, NextOf, Rate, Snapshot;
    if k == 0 {
      assert Product(1.0, b) == b;
      FirstBoundary(p, e, tol);
    } else {
      ChangesShrink(p, e, tol, b, k - 1);
      SnapshotNext(p, e, tol, k);
      SnapshotNext(p, e, tol, k - 1);
      IsPositive(p, e, tol);
      RateBelowOne(e);
      var b' := Product(Power(Rate(e), k - 1), b);
      Contraction(p, e, Snapshot(p, k), Snapshot(p, k - 1), Snapshot(p, k + 1), Snapshot(p, k), b');
      Regroup(Rate(e), Power(Rate(e), k - 1), b);
      Scales(Rate(e), 0.0, b');
      assert Product(Rate(e), 0.0) == 0.0;
    }
  }

  lemma IsPositive(p: Problem<real>, e: Equation, tol: real)
    requires Exact(p, e, tol)
    ensures p.Valid() && Positive(e) && |e.f| == Times(p.rows, p.cols) && Center(e) > 0.0 && tol > 0.0
  {
  }

  lemma FirstBoundary(p: Problem<real>, e: Equation, tol: real)
    requires Exact(p, e, tol)
    ensures p.Valid() && BoundaryAgrees(p, Snapshot(p, 1), Snapshot(p, 0))
  {
    forall r: nat, c: nat | InGrid(p, r, c) && !Interior(p, r, c)
      ensures Near(Snapshot(p, 1), Snapshot(p, 0), r, c, 0.0)
    {
      BoundaryStill(p, 1, r, c);
    }
  }

  // ----- the solution -----

  /** A solution of the discretised equation. */
  ghost predicate Solution(p: Problem<real>, e: Equation, v: Field)
    requires p.Valid() && |e.f| == Times(p.rows, p.cols) && Center(e) != 0.0
  {
    NextOf(p, e, v, v)
  }

  /** a + b x + c y + d x^2 + g y^2: its second derivatives are 2 d and 2 g. */
  datatype Quadratic = Quadratic(a: real, b: real, c: real, d: real, g: real) {
    function At(x: real, y: real): real {
      a + b * x + c * y + d * x * x + g * y * y
    }
  }

  lemma SecondDifference(b: real, d: real, x: real, h: real)
    ensures (b * (x - h) + d * (x - h) * (x - h)) + (b * (x + h) + d * (x + h) * (x + h))
         == 2.0 * (b * x + d * x * x) + 2.0 * d * (h * h)
  {
    assert d * (x - h) * (x - h) == d * x * x - 2.0 * (d * x * h) + d * (h * h);
    assert d * (x + h) * (x + h) == d * x * x + 2.0 * (d * x * h) + d * (h * h);
    assert b * (x - h) == b * x - b * h && b * (x + h) == b * x + b * h;
  }

  lemma Weighted(w: real, h: real, d: real, center: real)
    requires w * h * h == 1.0
    ensures w * (2.0 * center + 2.0 * d * (h * h)) == 2.0 * w * center + 2.0 * d
  {
    assert w * (d * (h * h)) == d * (w * h * h);
  }

  /** Consistency: on samples of a quadratic u the defect is the right-hand side minus
      K^2 u - u_xx - u_yy, exactly. */
  lemma Consistent(e: Equation, ind: nat, q: Quadratic, x: real, y: real, hx: real, hy: real)
    requires ind < |e.f| && e.hxsqinv * hx * hx == 1.0 && e.hysqinv * hy * hy == 1.0
    ensures Defect(e, ind, q.At(x, y + hy), q.At(x - hx, y), q.At(x, y), q.At(x + hx, y), q.At(x, y - hy))
         == e.f[ind] - (e.kSq * q.At(x, y) - 2.0 * q.d - 2.0 * q.g)
  {
    hide Quadratic.At;
    var up, left, center := q.At(x, y + hy), q.At(x - hx, y), q.At(x, y);
    var right, down := q.At(x + hx, y), q.At(x, y - hy);
    assert left + right == 2.0 * center + 2.0 * q.d * (hx * hx) by { AcrossColumns(q, x, y, hx); }
    assert up + down == 2.0 * center + 2.0 * q.g * (hy * hy) by { AcrossRows(q, x, y, hy); }
    Weighted(e.hxsqinv, hx, q.d, center);
    Weighted(e.hysqinv, hy, q.g, center);
    assert -e.hxsqinv * (left + right) == -(e.hxsqinv * (left + right));
    assert -e.hysqinv * (up + down) == -(e.hysqinv * (up + down));
    assert Center(e) * center == e.kSq * center + 2.0 * e.hxsqinv * center + 2.0 * e.hysqinv * center;
  }

  lemma AcrossColumns(q: Quadratic, x: real, y: real, h: real)
    ensures q.At(x - h, y) + q.At(x + h, y) == 2.0 * q.At(x, y) + 2.0 * q.d * (h * h)
  {
    SecondDifference(q.b, q.d, x, h);
  }

  lemma AcrossRows(q: Quadratic, x: real, y: real, h: real)
    ensures q.At(x, y + h) + q.At(x, y - h) == 2.0 * q.At(x, y) + 2.0 * q.g * (h * h)
  {
    SecondDifference(q.c, q.g, y, h);
  }

  /** The coordinates of column c and row r: columns go to the right, rows down. */
  function ColX(c: nat, hx: real): real {
    c as real * hx
  }

  function RowY(p: Problem<real>, r: nat, hy: real): real {
    (p.rows - 1 - r) as real * hy
  }

  lemma NextColumn(c: nat, hx: real)
    ensures ColX(c + 1, hx) == ColX(c, hx) + hx
  {
    assert (c + 1) as real * hx == c as real * hx + hx;
  }

  lemma NextRow(p: Problem<real>, r: nat, hy: real)
    ensures RowY(p, r + 1, hy) == RowY(p, r, hy) - hy
  {
    var z := (p.rows - 1 - r) as real;
    assert (z - 1.0) * hy == z * hy - hy;
  }

  /** A quadratic at the coordinates of the cells. */
  ghost function Sampled(p: Problem<real>, q: Quadratic, hx: real, hy: real): Field {
    (r: nat, c: nat) => q.At(ColX(c, hx), RowY(p, r, hy))
  }

  lemma NeighboursSampled(p: Problem<real>, q: Quadratic, hx: real, hy: real, r: nat, c: nat)
    requires r >= 1 && c >= 1
    ensures var v, x, y := Sampled(p, q, hx, hy), ColX(c, hx), RowY(p, r, hy);
            && v(r, c) == q.At(x, y)
            && v(r - 1, c) == q.At(x, y + hy) && v(r + 1, c) == q.At(x, y - hy)
            && v(r, c - 1) == q.At(x - hx, y) && v(r, c + 1) == q.At(x + hx, y)
  {
    hide Quadratic.At, ColX, RowY;
    NextColumn(c - 1, hx);
    NextColumn(c, hx);
    NextRow(p, r - 1, hy);
    NextRow(p, r, hy);
  }

  /** At cell (r, c) the right-hand side is K^2 u - u_xx - u_yy for the quadratic u. */
  ghost predicate EquationAt(p: Problem<real>, e: Equation, q: Quadratic, hx: real, hy: real, r: nat, c: nat)
    requires p.Valid() && |e.f| == Times(p.rows, p.cols) && InGrid(p, r, c)
  {
    IdxIsRowMajor(p, r, c);
    IdxInBounds(p, r, c);
    e.f[r * p.cols + c] == e.kSq * Sampled(p, q, hx, hy)(r, c) - 2.0 * q.d - 2.0 * q.g
  }

  lemma CellSolved(p: Problem<real>, e: Equation, q: Quadratic, hx: real, hy: real, r: nat, c: nat)
    requires p.Valid() && |e.f| == Times(p.rows, p.cols) && Positive(e) && Center(e) > 0.0 && Interior(p, r, c)
    requires e.hxsqinv * hx * hx == 1.0 && e.hysqinv * hy * hy == 1.0
    ensures var v := Sampled(p, q, hx, hy); Updated(p, e, v, v, r, c) <==> EquationAt(p, e, q, hx, hy, r, c)
  {
    hide Jacobi5, Defect, Center, Quadratic.At, Sampled, Times, Idx;
    IdxIsRowMajor(p, r, c);
    IdxInBounds(p, r, c);
    var v, x, y := Sampled(p, q, hx, hy), ColX(c, hx), RowY(p, r, hy);
    NeighboursSampled(p, q, hx, hy, r, c);
    Consistent(e, Idx(p, r, c), q, x, y, hx, hy);
    DefectIsChange(e, Idx(p, r, c), v(r - 1, c), v(r, c - 1), v(r, c), v(r, c + 1), v(r + 1, c));
    ZeroProduct(Center(e), Jacobi5(e, Idx(p, r, c), v(r - 1, c), v(r, c - 1), v(r, c + 1), v(r + 1, c)) - v(r, c));
  }

  lemma ZeroProduct(s: real, x: real)
    requires s > 0.0
    ensures s * x == 0.0 <==> x == 0.0
  {
    if x > 0.0 {
      ProductPositive(s, x);
    } else if x < 0.0 {
      ProductPositive(s, -x);
      assert s * x == -Product(s, -x);
    }
  }

  /** The discrete equation is that of K^2 u - u_xx - u_yy = f: a quadratic u, sampled at
      the cells, is a solution exactly if it satisfies the equation at every inner cell. */
  lemma QuadraticSolves(p: Problem<real>, e: Equation, q: Quadratic, hx: real, hy: real)
    requires p.Valid() && |e.f| == Times(p.rows, p.cols) && Positive(e)
    requires e.hxsqinv * hx * hx == 1.0 && e.hysqinv * hy * hy == 1.0
    ensures Center(e) > 0.0
    ensures Solution(p, e, Sampled(p, q, hx, hy))
       <==> forall r: nat, c: nat | Interior(p, r, c) :: EquationAt(p, e, q, hx, hy, r, c)
  {
    hide Sampled, EquationAt, Jacobi5, Center;
    RateBelowOne(e);
    var v := Sampled(p, q, hx, hy);
    if Solution(p, e, v) {
      forall r: nat, c: nat | Interior(p, r, c)
        ensures EquationAt(p, e, q, hx, hy, r, c)
      {
        assert Updated(p, e, v, v, r, c);
        CellSolved(p, e, q, hx, hy, r, c);
      }
    }
    if forall r: nat, c: nat | Interior(p, r, c) :: EquationAt(p, e, q, hx, hy, r, c) {
      forall r: nat, c: nat | InGrid(p, r, c)
        ensures Updated(p, e, v, v, r, c)
      {
        if Interior(p, r, c) {
          CellSolved(p, e, q, hx, hy, r, c);
        }
      }
    }
  }

  ghost predicate RowClose(v: Field, w: Field, r: nat, j: nat, b: real) {
    forall c: nat | c < j :: Near(v, w, r, c, b)
  }

  ghost predicate RowsClose(v: Field, w: Field, i: nat, j: nat, b: real) {
    forall r: nat | r < i :: RowClose(v, w, r, j, b)
  }

  lemma {:induction false} FarthestInRow(v: Field, w: Field, r: nat, j: nat) returns (c: nat, b: real)
    requires 0 < j
    ensures c < j && b == Magnitude(v(r, c) - w(r, c)) && RowClose(v, w, r, j, b)
  {
    if j == 1 {
      c, b := 0, Magnitude(v(r, 0) - w(r, 0));
    } else {
      var c1, b1 := FarthestInRow(v, w, r, j - 1);
      var last := Magnitude(v(r, j - 1) - w(r, j - 1));
      c, b := if last > b1 then j - 1 else c1, if last > b1 then last else b1;
      forall q: nat | q < j
        ensures Near(v, w, r, q, b)
      {
        assert q < j - 1 ==> Near(v, w, r, q, b1);
      }
    }
  }

  lemma {:induction false} Farthest(v: Field, w: Field, i: nat, j: nat) returns (r: nat, c: nat, b: real)
    requires 0 < i && 0 < j
    ensures r < i && c < j && b == Magnitude(v(r, c) - w(r, c)) && RowsClose(v, w, i, j, b)
  {
    r := i - 1;
    c, b := FarthestInRow(v, w, r, j);
    if i > 1 {
      var r1, c1, b1 := Farthest(v, w, i - 1, j);
      if b1 > b {
        Looser(v, w, i - 1, i, j, b, b1);
        r, c, b := r1, c1, b1;
      } else {
        Looser(v, w, 0, i - 1, j, b1, b);
      }
    }
  }

  lemma Looser(v: Field, w: Field, from: nat, i: nat, j: nat, b: real, b': real)
    requires b <= b'
    ensures forall r: nat | from <= r < i && RowClose(v, w, r, j, b) :: RowClose(v, w, r, j, b')
  {
    forall r: nat | from <= r < i && RowClose(v, w, r, j, b)
      ensures RowClose(v, w, r, j, b')
    {
      forall c: nat | c < j
        ensures Near(v, w, r, c, b')
      {
        assert Near(v, w, r, c, b);
      }
    }
  }

  lemma Shrinks(q: real, b: real)
    requires q < 1.0 && b > 0.0
    ensures Product(q, b) < b
  {
    ProductPositive(1.0 - q, b);
    assert Product(1.0 - q, b) == b - Product(q, b);
  }

  /** For given boundary values there is at most one solution. */
  lemma SolutionUnique(p: Problem<real>, e: Equation, v: Field, w: Field)
    requires p.Valid() && |e.f| == Times(p.rows, p.cols) && Positive(e) && Center(e) > 0.0
    requires Solution(p, e, v) && Solution(p, e, w) && BoundaryAgrees(p, v, w)
    ensures forall r: nat, c: nat | InGrid(p, r, c) :: v(r, c) == w(r, c)
  {
    hide NextOf;
    BandRows(p, 0);
    RateBelowOne(e);
    var r0, c0, b := Farthest(v, w, p.rows, p.cols);
    forall r: nat, c: nat | InGrid(p, r, c)
      ensures Near(v, w, r, c, b)
    {
      assert RowClose(v, w, r, p.cols, b);
    }
    Contraction(p, e, v, w, v, w, b);
    assert Near(v, w, r0, c0, Product(Rate(e), b));
    if b > 0.0 {
      Shrinks(Rate(e), b);
    }
    forall r: nat, c: nat | InGrid(p, r, c)
      ensures v(r, c) == w(r, c)
    {
      assert Near(v, w, r, c, b);
    }
  }

  /** The iterates approach the solution geometrically, wherever they start. */
  lemma {:induction false} ConvergesToSolution(p: Problem<real>, e: Equation, tol: real, v: Field, b: real, k: nat)
    requires Exact(p, e, tol) && Center(e) > 0.0 && Solution(p, e, v)
    requires BoundaryAgrees(p, Snapshot(p, 0), v) && b >= 0.0 && Close(p, Snapshot(p, 0), v, b)
    ensures Close(p, Snapshot(p, k), v, Product(Power(Rate(e), k), b)) && BoundaryAgrees(p, Snapshot(p, k), v)
    ensures Product(Power(Rate(e), k), b) >= 0.0
  {
    hide Iterate, Exact, Close, NextOf, Rate, Snapshot;
    if k == 0 {
      assert Product(1.0, b) == b;
    } else {
      ConvergesToSolution(p, e, tol, v, b, k - 1);
      SnapshotNext(p, e, tol, k - 1);
      IsPositive(p, e, tol);
      RateBelowOne(e);
      var b' := Product(Power(Rate(e), k - 1), b);
      Contraction(p, e, Snapshot(p, k - 1), v, Snapshot(p, k), v, b');
      Regroup(Rate(e), Power(Rate(e), k - 1), b);
      Scales(Rate(e), 0.0, b');
      assert Product(Rate(e), 0.0) == 0.0;
    }
  }

  // ----- the tolerance is reached -----

  lemma {:induction false} PowerBounds(q: real, h: real, k: nat)
    requires 0.0 < q < 1.0 && h > 0.0 && Product(q, 1.0 + h) == 1.0
    ensures Power(q, k) > 0.0 && Product(Power(q, k), 1.0 + Product(k as real, h)) <= 1.0
  {
    if k == 0 {
      assert Product(0.0, h) == 0.0 && Product(1.0, 1.0 + 0.0) == 1.0;
    } else {
      PowerBounds(q, h, k - 1);
      var w, x := Power(q, k - 1), Product((k - 1) as real, h);
      ProductPositive(q, w);
      assert Product(k as real, h) == x + h by { OneMoreTimes((k - 1) as real, h); }
      Expand(q, x, h);
      Scales(h, 0.0, (k - 1) as real);
      assert Product(h, 0.0) == 0.0 && Product(h, (k - 1) as real) == x;
      Scales(x, q, 1.0);
      assert Product(x, 1.0) == x;
      Scales(w, Product(q, 1.0 + (x + h)), 1.0 + x);
      Swap(q, w, 1.0 + (x + h));
    }
  }

  lemma OneMoreTimes(k: real, h: real)
    ensures Product(k + 1.0, h) == Product(k, h) + h
  {
  }

  lemma Expand(q: real, x: real, h: real)
    requires Product(q, 1.0 + h) == 1.0
    ensures Product(q, 1.0 + (x + h)) == 1.0 + Product(x, q)
  {
    assert q * (1.0 + (x + h)) == q * (1.0 + h) + q * x;
  }

  lemma Swap(q: real, w: real, z: real)
    ensures Product(Product(q, w), z) == Product(w, Product(q, z))
  {
    assert (q * w) * z == w * (q * z);
  }

  /** Powers of a rate below one become arbitrarily small. */
  lemma PowersVanish(q: real, b: real, small: real) returns (k: nat)
    requires 0.0 < q < 1.0 && b >= 0.0 && small > 0.0
    ensures 0.0 <= Product(Power(q, k), b) < small
  {
    var h := 1.0 / q - 1.0;
    Cancel(q, 1.0);
    assert Product(q, 1.0 + h) == 1.0;
    assert Product(q, 1.0) == q;
    if h <= 0.0 {
      Scales(q, 1.0 + h, 1.0);
    }
    ProductPositive(small, h);
    var d := Product(small, h);
    k := Exceeds(b, d);
    PowerBounds(q, h, k);
    var w, z := Power(q, k), 1.0 + Product(k as real, h);
    assert Product(z, small) == small + Product(k as real, d) by { Scatter(k as real, h, small); }
    Scales(w, 0.0, b);
    assert Product(w, 0.0) == 0.0;
    StrictlyScales(w, b, Product(z, small));
    Regroup(w, z, small);
    Scales(small, Product(w, z), 1.0);
    assert Product(small, 1.0) == small && Product(small, Product(w, z)) == Product(Product(w, z), small);
  }

  lemma Scatter(k: real, h: real, small: real)
    ensures Product(1.0 + Product(k, h), small) == small + Product(k, Product(small, h))
  {
    assert (1.0 + k * h) * small == small + (k * h) * small;
    assert (k * h) * small == k * (small * h);
  }

  lemma StrictlyScales(m: real, x: real, y: real)
    requires m > 0.0 && x < y
    ensures Product(m, x) < Product(m, y)
  {
    ProductPositive(m, y - x);
    assert Product(m, y - x) == Product(m, y) - Product(m, x);
  }

  /** Some multiple of d exceeds b. */
  lemma Exceeds(b: real, d: real) returns (k: nat)
    requires b >= 0.0 && d > 0.0
    ensures Product(k as real, d) > b
  {
    var x := b / d;
    assert x * d == b;
    assert Product(-x, d) == -b;
    if x < 0.0 {
      ProductPositive(-x, d);
    }
    k := x.Floor + 1;
    StrictlyScales(d, x, k as real);
    assert Product(d, x) == b && Product(d, k as real) == Product(k as real, d);
  }

  ghost predicate SmallChanges(p: Problem<real>, k: nat, d: real)
    requires p.Valid()
  {
    forall r: nat, c: nat | InGrid(p, r, c) :: Magnitude(Change(p, k, r, c)) <= d
  }

  lemma SqMonotone(x: real, d: real)
    requires Magnitude(x) <= d
    ensures Sq(x) <= Sq(d)
  {
    var m := Magnitude(x);
    assert Sq(x) == Product(m, m) by {
      if x < 0.0 {
        assert x * x == (-x) * (-x);
      }
    }
    Scales(m, m, d);
    Scales(d, m, d);
    assert Product(d, m) == Product(m, d);
  }

  lemma {:induction false} RowSumSmall(p: Problem<real>, k: nat, r: nat, c: nat, d: real)
    requires p.Valid() && SmallChanges(p, k, d) && 1 <= r < p.rows - 1 && 1 <= c <= p.cols - 1
    ensures RowSum(p, k, r, c) <= Product((c - 1) as real, Sq(d))
  {
    hide Iterate, Change, Sq;
    if c == 1 {
      assert Product(0.0, Sq(d)) == 0.0;
    } else {
      RowSumSmall(p, k, r, c - 1, d);
      SqMonotone(Change(p, k, r, c - 1), d);
      OneMoreTimes((c - 2) as real, Sq(d));
      assert (c - 2) as real + 1.0 == (c - 1) as real;
    }
  }

  lemma {:induction false} GridSumSmall(p: Problem<real>, k: nat, r: nat, d: real)
    requires p.Valid() && SmallChanges(p, k, d) && p.cols >= 2 && 1 <= r <= p.rows - 1
    ensures GridSum(p, k, r) <= Product((r - 1) as real, Product((p.cols - 2) as real, Sq(d)))
  {
    hide Iterate, Change, RowSum, Sq;
    if r == 1 {
      assert Product(0.0, Product((p.cols - 2) as real, Sq(d))) == 0.0;
    } else {
      GridSumSmall(p, k, r - 1, d);
      RowSumSmall(p, k, r - 1, p.cols - 1, d);
      OneMoreTimes((r - 2) as real, Product((p.cols - 2) as real, Sq(d)));
      assert (r - 2) as real + 1.0 == (r - 1) as real;
    }
  }

  /** Changes of at most d, with d at most 1, bound the residual linearly in d. */
  lemma ResidualSmall(p: Problem<real>, e: Equation, tol: real, k: nat, d: real)
    requires Exact(p, e, tol) && SmallChanges(p, k, d) && 0.0 <= d <= 1.0
    ensures 0.0 <= GlobalSum(p, k, p.n) <= Product(Cells(p, e), d)
    ensures Cells(p, e) >= 0.0
  {
    hide Iterate, GlobalSum, GridSum, Change, Exact, Sq, Center;
    IsPositive(p, e, tol);
    ResidualIdentity(p, e, tol, k);
    ZeroResidualIffFixed(p, e, tol, k);
    BandRows(p, p.n - 1);
    var s := Sq(Center(e));
    SqNonNegative(Center(e));
    SqNonNegative(d);
    SqBelow(d);
    var m, w := (p.rows - 2) as real, if p.cols > 2 then (p.cols - 2) as real else 0.0;
    var total := Product(m, Product(w, Sq(d)));
    if p.cols > 2 {
      GridSumSmall(p, k, p.rows - 1, d);
    } else {
      assert Product(0.0, Sq(d)) == 0.0 && Product(m, 0.0) == 0.0;
    }
    assert TotalChange(p, k) <= total;
    Scales(s, TotalChange(p, k), total);
    Scales(w, Sq(d), d);
    Scales(m, Product(w, Sq(d)), Product(w, d));
    Scales(s, total, Product(m, Product(w, d)));
    Regroup(m, w, d);
    Regroup(s, Product(m, w), d);
    Scales(m, 0.0, w);
    assert Product(m, 0.0) == 0.0;
    Scales(s, 0.0, Product(m, w));
    assert Product(s, 0.0) == 0.0;
  }

  /** The number of inner cells times the squared middle coefficient. */
  ghost function Cells(p: Problem<real>, e: Equation): real
    requires p.Valid()
  {
    BandRows(p, p.n - 1);
    Product(Sq(Center(e)), Product((p.rows - 2) as real, if p.cols > 2 then (p.cols - 2) as real else 0.0))
  }

  lemma SqBelow(d: real)
    requires 0.0 <= d <= 1.0
    ensures Sq(d) <= d
  {
    Scales(d, d, 1.0);
    assert Product(d, 1.0) == d;
  }

  lemma ChangesOfClose(p: Problem<real>, k: nat, d: real)
    requires p.Valid() && Close(p, Snapshot(p, k + 1), Snapshot(p, k), d)
    ensures SmallChanges(p, k, d)
  {
    hide Iterate;
    forall r: nat, c: nat | InGrid(p, r, c)
      ensures Magnitude(Change(p, k, r, c)) <= d
    {
      assert Near(Snapshot(p, k + 1), Snapshot(p, k), r, c, d);
    }
  }

  /** Some distance below 1 that makes the bound smaller than the tolerance. */
  lemma SmallEnough(cells: real, tol: real) returns (small: real)
    requires cells >= 0.0 && tol > 0.0
    ensures 0.0 < small <= 1.0 && Product(cells, small) < tol * tol
  {
    var t, c := Product(tol, tol), cells + 1.0;
    ProductPositive(tol, tol);
    var m := if t < 1.0 then t else 1.0;
    small := 1.0 / c * m;
    Cancel(c, m);
    assert Product(c, small) == m && Product(c, 0.0) == 0.0 && Product(c, 1.0) == c;
    if small <= 0.0 {
      Scales(c, small, 0.0);
    } else if small > 1.0 {
      StrictlyScales(c, 1.0, small);
    }
    assert Product(c, small) == Product(cells, small) + small;
  }

  /** For every positive tolerance some iterate is accepted. */
  lemma SomeBelow(p: Problem<real>, e: Equation, tol: real) returns (k: nat)
    requires Exact(p, e, tol)
    ensures p.Valid() && p.below(Norm(p, k))
  {
    hide Iterate, GlobalSum, Close, Change, Rate, Cells, Power, Snapshot;
    IsPositive(p, e, tol);
    RateBelowOne(e);
    BandRows(p, 0);
    var r0, c0, b := Farthest(Snapshot(p, 1), Snapshot(p, 0), p.rows, p.cols);
    AllClose(p, Snapshot(p, 1), Snapshot(p, 0), b);
    var cells := Cells(p, e);
    assert cells >= 0.0 by { CellsSign(p, e); }
    var small := SmallEnough(cells, tol);
    k := PowersVanish(Rate(e), b, small);
    var d := Product(Power(Rate(e), k), b);
    ChangesShrink(p, e, tol, b, k);
    ChangesOfClose(p, k, d);
    ResidualSmall(p, e, tol, k, d);
    Scales(cells, d, small);
    Accepted(p, e, tol, GlobalSum(p, k, p.n));
  }

  lemma Accepted(p: Problem<real>, e: Equation, tol: real, x: real)
    requires Exact(p, e, tol) && 0.0 <= x < tol * tol
    ensures p.below(p.root(x))
  {
  }

  lemma CellsSign(p: Problem<real>, e: Equation)
    requires p.Valid()
    ensures Cells(p, e) >= 0.0
  {
    BandRows(p, p.n - 1);
    SqNonNegative(Center(e));
    var m, w := (p.rows - 2) as real, if p.cols > 2 then (p.cols - 2) as real else 0.0;
    Scales(m, 0.0, w);
    assert Product(m, 0.0) == 0.0;
    Scales(Sq(Center(e)), 0.0, Product(m, w));
    assert Product(Sq(Center(e)), 0.0) == 0.0;
  }

  lemma AllClose(p: Problem<real>, v: Field, w: Field, b: real)
    requires p.Valid() && RowsClose(v, w, p.rows, p.cols, b)
    ensures Close(p, v, w, b)
  {
    forall r: nat, c: nat | InGrid(p, r, c)
      ensures Near(v, w, r, c, b)
    {
      assert RowClose(v, w, r, p.cols, b);
    }
  }

  /** With exact arithmetic the solver stops: some iterate is the first one accepted,
      and if the limit leaves room for n more iterations, it ends exactly there. */
  lemma Stops(p: Problem<real>, e: Equation, tol: real) returns (k: nat)
    requires Exact(p, e, tol)
    ensures p.Valid() && FirstBelow(p, k)
    ensures p.limit >= k + p.n ==> StopsAt(p, k + p.n)
  {
    hide Norm, Exact;
    IsPositive(p, e, tol);
    var some := SomeBelow(p, e, tol);
    k := FirstOrNone(p, some + 1);
  }
}
