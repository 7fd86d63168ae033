/** The serial reference solver (tests/SerialSolver/serialSolver.cpp). */
module SerialSolver {
  import opened Jacobi

  /** Cell (r, c) of the buffer being written holds the new iterate once the
      sweep has passed it. */
  ghost predicate SweptTo<T>(p: Problem<T>, k: nat, dest: seq<T>, row: nat, col: nat, r: nat, c: nat)
    requires p.Valid() && InGrid(p, r, c) && |dest| == Times(p.rows, p.cols)
  {
    IdxInBounds(p, r, c);
    dest[Idx(p, r, c)] ==
    if r < row || (r == row && c < col) then Iterate(p, k + 1, r, c) else Iterate(p, k - 1, r, c)
  }

  /** One assignment of the inner loop moves the frontier by one cell. */
  lemma SweepCell<T>(p: Problem<T>, k: nat, src: seq<T>, dest: seq<T>, row: nat, col: nat, x: T)
    requires p.Valid() && Interior(p, row, col)
    requires |src| == |dest| == Times(p.rows, p.cols)
    requires forall r: nat, c: nat | InGrid(p, r, c) :: SweptTo(p, k, dest, row, col, r, c)
    requires x == Iterate(p, k + 1, row, col)
    ensures Idx(p, row, col) < |dest|
    ensures forall r: nat, c: nat | InGrid(p, r, c) ::
              SweptTo(p, k, dest[Idx(p, row, col) := x], row, col + 1, r, c)
  {
    IdxInBounds(p, row, col);
    forall r: nat, c: nat | InGrid(p, r, c)
      ensures SweptTo(p, k, dest[Idx(p, row, col) := x], row, col + 1, r, c)
    {
      IdxInBounds(p, r, c);
      assert SweptTo(p, k, dest, row, col, r, c);
      if Idx(p, r, c) == Idx(p, row, col) {
        IdxInjective(p, r, c, row, col);
      }
    }
  }

  ghost predicate HoldsIterate<T>(p: Problem<T>, k: int, src: seq<T>, r: nat, c: nat)
    requires p.Valid() && k >= -1 && InGrid(p, r, c) && |src| == Times(p.rows, p.cols)
  {
    IdxInBounds(p, r, c);
    src[Idx(p, r, c)] == Iterate(p, k, r, c)
  }

  /** The four operands of one assignment are values of iterate k. */
  lemma Operands<T>(p: Problem<T>, k: nat, src: seq<T>, row: nat, col: nat)
    requires p.Valid() && Interior(p, row, col)
    requires |src| == Times(p.rows, p.cols)
    requires forall r: nat, c: nat | InGrid(p, r, c) :: HoldsIterate(p, k, src, r, c)
    ensures p.cols <= Idx(p, row, col) && Idx(p, row, col) + p.cols < |src|
    ensures var ind := Idx(p, row, col);
            p.relax(ind, src[ind - p.cols], src[ind - 1], src[ind + 1], src[ind + p.cols])
            == Iterate(p, k + 1, row, col)
  {
    IdxInBounds(p, row + 1, col);
    assert HoldsIterate(p, k, src, row - 1, col) && HoldsIterate(p, k, src, row, col - 1);
    assert HoldsIterate(p, k, src, row, col + 1) && HoldsIterate(p, k, src, row + 1, col);
  }

  lemma SolveStart<T>(p: Problem<T>)
    requires p.Valid()
    ensures BuffersAt(p, 0, p.u1, p.u2)
  {
    forall r: nat, c: nat | InGrid(p, r, c)
      ensures BothHold(p, 0, p.u1, p.u2, r, c)
    {
      IdxInBounds(p, r, c);
    }
  }

  /** One sweep in terms of the two buffers alone: the buffer that is read stays, each
      inner cell of the other one is computed from its neighbours' values in the buffer
      that is read, and every other cell of it stays. */
  ghost predicate SweepOf<T>(p: Problem<T>, src: seq<T>, dest: seq<T>, src': seq<T>, dest': seq<T>)
    requires p.Valid() && |src| == |dest| == |src'| == |dest'| == Times(p.rows, p.cols)
  {
    && src' == src
    && forall r: nat, c: nat | InGrid(p, r, c) :: CellOfSweep(p, src, dest, dest', r, c)
  }

  ghost predicate CellOfSweep<T>(p: Problem<T>, src: seq<T>, dest: seq<T>, dest': seq<T>, r: nat, c: nat)
    requires p.Valid() && InGrid(p, r, c) && |src| == |dest| == |dest'| == Times(p.rows, p.cols)
  {
    IdxIsRowMajor(p, r, c);
    IdxInBounds(p, r, c);
    var ind := r * p.cols + c;
    if Interior(p, r, c) then
      IdxInBounds(p, r + 1, c);
      dest'[ind] == p.relax(ind, src[ind - p.cols], src[ind - 1], src[ind + 1], src[ind + p.cols])
    else dest'[ind] == dest[ind]
  }

  /** The buffers start as the given ones. */
  lemma BuffersAtStart<T>(p: Problem<T>, u1: seq<T>, u2: seq<T>)
    requires p.Valid()
    ensures BuffersAt(p, 0, u1, u2) <==> u1 == p.u1 && u2 == p.u2
  {
    SolveStart(p);
    if BuffersAt(p, 0, u1, u2) {
      BuffersUnique(p, 0, u1, u2, p.u1, p.u2);
    }
  }

  /** A buffer that holds iterate k in every cell. */
  ghost predicate HoldsAll<T>(p: Problem<T>, k: int, src: seq<T>)
    requires p.Valid() && k >= -1 && |src| == Times(p.rows, p.cols)
  {
    forall r: nat, c: nat | InGrid(p, r, c) :: HoldsIterate(p, k, src, r, c)
  }

  lemma BuffersHold<T>(p: Problem<T>, k: nat, u1: seq<T>, u2: seq<T>)
    requires p.Valid() && |u1| == |u2| == Times(p.rows, p.cols)
    ensures BuffersAt(p, k, u1, u2) <==> if k % 2 == 0 then HoldsAll(p, k, u1) && HoldsAll(p, k - 1, u2)
                                         else HoldsAll(p, k, u2) && HoldsAll(p, k - 1, u1)
  {
    hide Iterate, Idx;
    if BuffersAt(p, k, u1, u2) {
      forall r: nat, c: nat | InGrid(p, r, c)
        ensures HoldsIterate(p, k, if k % 2 == 0 then u1 else u2, r, c)
        ensures HoldsIterate(p, k - 1, if k % 2 == 0 then u2 else u1, r, c)
      {
        assert BothHold(p, k, u1, u2, r, c);
      }
    } else {
      var r: nat, c: nat :| InGrid(p, r, c) && !BothHold(p, k, u1, u2, r, c);
      assert HoldsIterate(p, k, if k % 2 == 0 then u1 else u2, r, c)
         ==> !HoldsIterate(p, k - 1, if k % 2 == 0 then u2 else u1, r, c);
    }
  }

  lemma SameContents<T>(p: Problem<T>, k: nat, src: seq<T>, src': seq<T>)
    requires p.Valid() && |src| == |src'| == Times(p.rows, p.cols) && HoldsAll(p, k, src)
    ensures HoldsAll(p, k, src') <==> src' == src
  {
    hide Iterate;
    if HoldsAll(p, k, src') {
      forall ind: nat | ind < |src|
        ensures src'[ind] == src[ind]
      {
        var r, c := IdxOnto(p, ind, p.rows);
        assert HoldsIterate(p, k, src, r, c) && HoldsIterate(p, k, src', r, c);
      }
    }
  }

  lemma CellSwept<T>(p: Problem<T>, k: nat, src: seq<T>, dest: seq<T>, dest': seq<T>, r: nat, c: nat)
    requires p.Valid() && |src| == |dest| == |dest'| == Times(p.rows, p.cols) && InGrid(p, r, c)
    requires HoldsAll(p, k, src) && HoldsIterate(p, k - 1, dest, r, c)
    ensures CellOfSweep(p, src, dest, dest', r, c) <==> HoldsIterate(p, k + 1, dest', r, c)
  {
    IdxIsRowMajor(p, r, c);
    IdxInBounds(p, r, c);
    if Interior(p, r, c) {
      Operands(p, k, src, r, c);
    }
  }

  lemma AllSwept<T>(p: Problem<T>, k: nat, src: seq<T>, dest: seq<T>, src': seq<T>, dest': seq<T>)
    requires p.Valid() && |src| == |dest| == |src'| == |dest'| == Times(p.rows, p.cols)
    requires HoldsAll(p, k, src) && HoldsAll(p, k - 1, dest)
    ensures SweepOf(p, src, dest, src', dest') <==> HoldsAll(p, k, src') && HoldsAll(p, k + 1, dest')
  {
    hide CellOfSweep, HoldsIterate;
    SameContents(p, k, src, src');
    forall r: nat, c: nat | InGrid(p, r, c)
      ensures CellOfSweep(p, src, dest, dest', r, c) <==> HoldsIterate(p, k + 1, dest', r, c)
    {
      CellSwept(p, k, src, dest, dest', r, c);
    }
  }

  /** From one iteration to the next the buffers change by exactly one sweep: even
      sweeps read the first buffer, odd ones the second. */
  lemma NextBuffers<T>(p: Problem<T>, k: nat, u1: seq<T>, u2: seq<T>, v1: seq<T>, v2: seq<T>)
    requires p.Valid() && BuffersAt(p, k, u1, u2) && |v1| == |v2| == Times(p.rows, p.cols)
    ensures |u1| == |u2| == |v1|
    ensures BuffersAt(p, k + 1, v1, v2)
       <==> if k % 2 == 0 then SweepOf(p, u1, u2, v1, v2) else SweepOf(p, u2, u1, v2, v1)
  {
    hide HoldsAll, SweepOf;
    BuffersHold(p, k, u1, u2);
    BuffersHold(p, k + 1, v1, v2);
    if k % 2 == 0 {
      AllSwept(p, k, u1, u2, v1, v2);
    } else {
      AllSwept(p, k, u2, u1, v2, v1);
    }
  }

  /** Before a sweep: the boundary row counts as swept, since it keeps its values. */
  lemma SweepStart<T>(p: Problem<T>, k: nat, u1: seq<T>, u2: seq<T>)
    requires p.Valid() && BuffersAt(p, k, u1, u2)
    ensures var src, dest := if k % 2 == 0 then u1 else u2, if k % 2 == 0 then u2 else u1;
            forall r: nat, c: nat | InGrid(p, r, c) ::
              HoldsIterate(p, k, src, r, c) && SweptTo(p, k, dest, 1, 1, r, c)
  {
    forall r: nat, c: nat | InGrid(p, r, c)
      ensures HoldsIterate(p, k, if k % 2 == 0 then u1 else u2, r, c)
      ensures SweptTo(p, k, if k % 2 == 0 then u2 else u1, 1, 1, r, c)
    {
      assert BothHold(p, k, u1, u2, r, c);
    }
  }

  /** The solver leaves the numiters-th iterate and the one before it. */
  method SolveJacobi<T>(p: Problem<T>, u1: array<T>, u2: array<T>, numiters: nat)
    requires p.Valid() && u1 != u2
    requires u1[..] == p.u1 && u2[..] == p.u2
    modifies u1, u2
    ensures BuffersAt(p, numiters, u1[..], u2[..])
  {
    hide BuffersAt;
    SolveStart(p);
    var currIter := 0;
    while currIter < numiters
      invariant currIter <= numiters
      invariant u1.Length == u2.Length == Times(p.rows, p.cols)
      invariant BuffersAt(p, currIter, u1[..], u2[..])
    {
      var src := if currIter % 2 == 0 then u1 else u2;
      var dest := if currIter % 2 == 0 then u2 else u1;
      SweepStart(p, currIter, u1[..], u2[..]);
      Sweep(p, currIter, src, dest);
      currIter := currIter + 1;
    }
  }

  /** The nested loops of one sweep. */
  method Sweep<T>(p: Problem<T>, ghost k: nat, src: array<T>, dest: array<T>)
    requires p.Valid() && src != dest
    requires src.Length == dest.Length == Times(p.rows, p.cols)
    requires forall r: nat, c: nat | InGrid(p, r, c) :: HoldsIterate(p, k, src[..], r, c)
    requires forall r: nat, c: nat | InGrid(p, r, c) :: SweptTo(p, k, dest[..], 1, 1, r, c)
    modifies dest
    ensures BuffersAt(p, k + 1, if k % 2 == 0 then src[..] else dest[..], if k % 2 == 0 then dest[..] else src[..])
  {
    hide SweptTo, HoldsIterate, BuffersAt, Iterate, Times;
    var numCols := p.cols;
    ghost var given := src[..];
    var iRow := 1;
    while iRow < p.rows - 1
      invariant 1 <= iRow
      invariant src[..] == given
      invariant forall r: nat, c: nat | InGrid(p, r, c) :: SweptTo(p, k, dest[..], iRow, 1, r, c)
    {
      var iCol := 1;
      while iCol < p.cols - 1
        invariant 1 <= iCol
        invariant src[..] == given
        invariant forall r: nat, c: nat | InGrid(p, r, c) :: SweptTo(p, k, dest[..], iRow, iCol, r, c)
      {
        TimesIsProduct(iRow, numCols);
        var ind := iRow * numCols + iCol;
        Operands(p, k, given, iRow, iCol);
        var up := src[ind - numCols];
        var left := src[ind - 1];
        var right := src[ind + 1];
        var down := src[ind + numCols];
        SweepCell(p, k, given, dest[..], iRow, iCol, p.relax(ind, up, left, right, down));
        ghost var before := dest[..];
        dest[ind] := p.relax(ind, up, left, right, down);
        assert dest[..] == before[ind := p.relax(ind, up, left, right, down)];
        iCol := iCol + 1;
      }
      RowDone(p, k, dest[..], iRow, iCol);
      iRow := iRow + 1;
    }
    SweepDone(p, k, given, dest[..], iRow);
  }

  /** Past the last interior column only a boundary cell is left in the row. */
  lemma RowDone<T>(p: Problem<T>, k: nat, dest: seq<T>, row: nat, col: nat)
    requires p.Valid() && 1 <= row < p.rows - 1 && p.cols - 1 <= col && 1 <= col
    requires |dest| == Times(p.rows, p.cols)
    requires forall r: nat, c: nat | InGrid(p, r, c) :: SweptTo(p, k, dest, row, col, r, c)
    ensures forall r: nat, c: nat | InGrid(p, r, c) :: SweptTo(p, k, dest, row + 1, 1, r, c)
  {
    forall r: nat, c: nat | InGrid(p, r, c)
      ensures SweptTo(p, k, dest, row + 1, 1, r, c)
    {
      assert SweptTo(p, k, dest, row, col, r, c);
    }
  }

  /** Past the last interior row the written buffer holds iterate k + 1. */
  lemma SweepDone<T>(p: Problem<T>, k: nat, src: seq<T>, dest: seq<T>, row: nat)
    requires p.Valid() && p.rows - 1 <= row && 1 <= row
    requires |src| == |dest| == Times(p.rows, p.cols)
    requires forall r: nat, c: nat | InGrid(p, r, c) :: SweptTo(p, k, dest, row, 1, r, c)
    requires forall r: nat, c: nat | InGrid(p, r, c) :: HoldsIterate(p, k, src, r, c)
    ensures BuffersAt(p, k + 1, if k % 2 == 0 then src else dest, if k % 2 == 0 then dest else src)
  {
    var u1, u2 := if k % 2 == 0 then src else dest, if k % 2 == 0 then dest else src;
    forall r: nat, c: nat | InGrid(p, r, c)
      ensures BothHold(p, k + 1, u1, u2, r, c)
    {
      assert SweptTo(p, k, dest, row, 1, r, c) && HoldsIterate(p, k, src, r, c);
    }
  }
}
