/** The red-black solver (tests/SerialSolver/rbgs.cpp): the colouring by a toggle,
    and sweeps whose result does not depend on the order of the updates. */
module RedBlack {
  import opened Jacobi
  import SerialSolver

  // ----- colours -----

  function Position(x: nat, r: nat, c: nat): nat {
    Times(r, x) + c
  }

  ghost predicate Inner(x: nat, y: nat, r: nat, c: nat) {
    1 <= r < y - 1 && 1 <= c < x - 1
  }

  /** Cells of one colour touch only at corners. */
  predicate IsRed(r: nat, c: nat) {
    (r + c) % 2 == 0
  }

  /** The cells of one colour in rows before i and in row i before column c. */
  ghost function Listed(x: nat, i: nat, c: nat, red: bool): seq<nat>
    requires x >= 2 && i >= 1
    decreases i, c
  {
    if c > 1 then Listed(x, i, c - 1, red) + if IsRed(i, c - 1) == red then [Position(x, i, c - 1)] else []
    else if i > 1 then Listed(x, i - 1, x - 1, red)
    else []
  }

  lemma SmallRemainder(n: nat, k: nat)
    requires 1 <= k <= n
    ensures k % n == 0 <==> k == n
  {
    DivisionUnique(n, k, if k == n then 1 else 0, if k == n then 0 else k, k / n, k % n);
  }

  lemma TwoCells(x: nat, i: nat, j: nat, red: bool)
    requires x >= 2 && i >= 1 && j >= 1 && j % 2 == 1
    ensures Listed(x, i, j + 1, red) == Listed(x, i, j, red) + if (i % 2 == 1) == red then [Position(x, i, j)] else []
    ensures Listed(x, i, j + 2, red)
         == Listed(x, i, j + 1, red) + if (i % 2 == 1) != red then [Position(x, i, j + 1)] else []
  {
  }

  method CalIndexes(numGridX: nat, numGridY: nat) returns (redIndex: seq<nat>, blackIndex: seq<nat>)
    ensures numGridX < 2 || numGridY < 2 ==> redIndex == [] && blackIndex == []
    ensures numGridX >= 2 && numGridY >= 2 ==>
              && redIndex == Listed(numGridX, numGridY - 1, 1, true)
              && blackIndex == Listed(numGridX, numGridY - 1, 1, false)
  {
    redIndex, blackIndex := [], [];
    var toggle := false;
    var i := 1;
    while i < numGridY as int - 1
      invariant 1 <= i && (i == 1 || i <= numGridY - 1)
      invariant toggle == (i % 2 == 0)
      invariant numGridX < 2 ==> redIndex == [] && blackIndex == []
      invariant numGridX >= 2 ==>
                  redIndex == Listed(numGridX, i, 1, true) && blackIndex == Listed(numGridX, i, 1, false)
    {
      toggle := !toggle;
      redIndex, blackIndex := CalRow(numGridX, i, toggle, redIndex, blackIndex);
      i := i + 1;
    }
  }

  /** The inner loop of calIndexes: the cells of row i, two at a time. */
  method CalRow(numGridX: nat, i: nat, toggle: bool, reds: seq<nat>, blacks: seq<nat>)
    returns (redIndex: seq<nat>, blackIndex: seq<nat>)
    requires i >= 1 && toggle == (i % 2 == 1)
    requires numGridX >= 2 ==> reds == Listed(numGridX, i, 1, true) && blacks == Listed(numGridX, i, 1, false)
    ensures numGridX < 2 ==> redIndex == reds && blackIndex == blacks
    ensures numGridX >= 2 ==>
              redIndex == Listed(numGridX, i + 1, 1, true) && blackIndex == Listed(numGridX, i + 1, 1, false)
  {
    hide Listed, Times;
    redIndex, blackIndex := reds, blacks;
    var j := 1;
    while j < numGridX as int - 1
      invariant j >= 1 && j % 2 == 1 && (j == 1 || j <= numGridX)
      invariant numGridX < 2 ==> redIndex == reds && blackIndex == blacks
      invariant numGridX >= 2 ==>
                  var c := if j < numGridX - 1 then j else numGridX - 1;
                  redIndex == Listed(numGridX, i, c, true) && blackIndex == Listed(numGridX, i, c, false)
    {
      TimesIsProduct(i, numGridX);
      TwoCells(numGridX, i, j, true);
      TwoCells(numGridX, i, j, false);
      SmallRemainder(numGridX, j + 2);
      if toggle {
        redIndex := redIndex + [i * numGridX + j];
        if numGridX % 2 == 1 {
          if !((j + 2) % numGridX == 0) {
            blackIndex := blackIndex + [1 + i * numGridX + j];
          }
        } else {
          blackIndex := blackIndex + [1 + i * numGridX + j];
        }
      } else {
        blackIndex := blackIndex + [i * numGridX + j];
        if numGridX % 2 == 1 {
          if !((j + 2) % numGridX == 0) {
            redIndex := redIndex + [1 + i * numGridX + j];
          }
        } else {
          redIndex := redIndex + [1 + i * numGridX + j];
        }
      }
      j := j + 2;
    }
    if numGridX >= 2 {
      RowEnds(numGridX, i, true);
      RowEnds(numGridX, i, false);
    }
  }

  lemma RowEnds(x: nat, i: nat, red: bool)
    requires x >= 2 && i >= 1
    ensures Listed(x, i, x - 1, red) == Listed(x, i + 1, 1, red)
  {
  }

  // ----- the lists -----

  /** Before cell (i, c) in the order of the loops. */
  ghost predicate Before(r: nat, q: nat, i: nat, c: nat) {
    r < i || (r == i && q < c)
  }

  lemma PositionsAscend(x: nat, r: nat, c: nat, r': nat, c': nat)
    requires c < x && Before(r, c, r', c')
    ensures Position(x, r, c) < Position(x, r', c')
  {
    if r < r' {
      TimesMonotone(r + 1, r', x);
    }
  }

  lemma PositionsDiffer(x: nat, r: nat, c: nat, r': nat, c': nat)
    requires c < x && c' < x && Position(x, r, c) == Position(x, r', c')
    ensures r == r' && c == c'
  {
    if Before(r, c, r', c') {
      PositionsAscend(x, r, c, r', c');
    } else if Before(r', c', r, c) {
      PositionsAscend(x, r', c', r, c);
    }
  }

  /** The list holds exactly the inner cells of its colour that come before (i, c). */
  lemma {:induction false} ListedCell(x: nat, i: nat, c: nat, red: bool, r: nat, q: nat)
    requires x >= 2 && i >= 1 && 1 <= c <= x - 1 && 1 <= r && 1 <= q < x - 1
    ensures Position(x, r, q) in Listed(x, i, c, red) <==> Before(r, q, i, c) && IsRed(r, q) == red
    decreases i, c
  {
    if c > 1 {
      ListedCell(x, i, c - 1, red, r, q);
      if Position(x, r, q) == Position(x, i, c - 1) {
        PositionsDiffer(x, r, q, i, c - 1);
      }
    } else if i > 1 {
      ListedCell(x, i - 1, x - 1, red, r, q);
    }
  }

  ghost predicate Ascending(list: seq<nat>, below: nat) {
    && (forall a, b | 0 <= a < b < |list| :: list[a] < list[b])
    && (forall a | 0 <= a < |list| :: list[a] < below)
  }

  /** The list is strictly ascending, so it repeats no cell. */
  lemma {:induction false} ListedAscends(x: nat, i: nat, c: nat, red: bool)
    requires x >= 2 && i >= 1 && 1 <= c <= x - 1
    ensures Ascending(Listed(x, i, c, red), Position(x, i, c))
    decreases i, c
  {
    if c > 1 {
      ListedAscends(x, i, c - 1, red);
    } else if i > 1 {
      ListedAscends(x, i - 1, x - 1, red);
      PositionsAscend(x, i - 1, x - 1, i, 1);
    }
  }

  /** Every entry of the list is an inner cell. */
  lemma {:induction false} ListedIsInner(x: nat, y: nat, i: nat, c: nat, red: bool, k: nat) returns (r: nat, q: nat)
    requires x >= 2 && i >= 1 && 1 <= c <= x - 1 && (i < y - 1 || (i == y - 1 && c == 1)) && k in Listed(x, i, c, red)
    ensures Inner(x, y, r, q) && k == Position(x, r, q) && IsRed(r, q) == red
    decreases i, c
  {
    if c > 1 {
      if k in Listed(x, i, c - 1, red) {
        r, q := ListedIsInner(x, y, i, c - 1, red, k);
      } else {
        r, q := i, c - 1;
      }
    } else {
      r, q := ListedIsInner(x, y, i - 1, x - 1, red, k);
    }
  }

  /** The lists that calIndexes returns. */
  ghost function Reds(x: nat, y: nat): seq<nat>
    requires x >= 2 && y >= 2
  {
    Listed(x, y - 1, 1, true)
  }

  ghost function Blacks(x: nat, y: nat): seq<nat>
    requires x >= 2 && y >= 2
  {
    Listed(x, y - 1, 1, false)
  }

  /** For every width, odd or even: an inner cell is in the red list if row and column
      add up to an even number and in the black one if not, nothing else is in a list,
      and each list ascends, so neither repeats a cell. */
  lemma Partition(x: nat, y: nat)
    requires x >= 2 && y >= 2
    ensures forall r: nat, c: nat | Inner(x, y, r, c) ::
              && (Position(x, r, c) in Reds(x, y) <==> (r + c) % 2 == 0)
              && (Position(x, r, c) in Blacks(x, y) <==> (r + c) % 2 == 1)
    ensures forall k: nat | k in Reds(x, y) || k in Blacks(x, y) ::
              exists r: nat, c: nat :: Inner(x, y, r, c) && k == Position(x, r, c)
    ensures forall a, b | 0 <= a < b < |Reds(x, y)| :: Reds(x, y)[a] < Reds(x, y)[b]
    ensures forall a, b | 0 <= a < b < |Blacks(x, y)| :: Blacks(x, y)[a] < Blacks(x, y)[b]
  {
    forall r: nat, c: nat | Inner(x, y, r, c)
      ensures Position(x, r, c) in Reds(x, y) <==> (r + c) % 2 == 0
      ensures Position(x, r, c) in Blacks(x, y) <==> (r + c) % 2 == 1
    {
      ListedCell(x, y - 1, 1, true, r, c);
      ListedCell(x, y - 1, 1, false, r, c);
    }
    forall k: nat | k in Reds(x, y) || k in Blacks(x, y)
      ensures exists r: nat, c: nat :: Inner(x, y, r, c) && k == Position(x, r, c)
    {
      var r, c := ListedIsInner(x, y, y - 1, 1, k in Reds(x, y), k);
    }
    ListedAscends(x, y - 1, 1, true);
    ListedAscends(x, y - 1, 1, false);
  }

  /** The four cells an update reads. */
  ghost predicate Touches(x: nat, k: nat, k': nat) {
    k' == k + 1 || k == k' + 1 || k' == k + x || k == k' + x
  }

  /** Cells whose updates neither read outside the grid nor read each other. */
  ghost predicate Independent(x: nat, size: nat, list: seq<nat>) {
    && x >= 1
    && (forall k: nat | k in list :: x <= k && k + x < size)
    && (forall k: nat, k': nat | k in list && k' in list :: !Touches(x, k, k'))
  }

  /** No cell has a neighbour of its own colour. */
  lemma ColoursIndependent(x: nat, y: nat, red: bool)
    requires x >= 2 && y >= 2
    ensures Independent(x, Times(y, x), Listed(x, y - 1, 1, red))
  {
    var list := Listed(x, y - 1, 1, red);
    forall k: nat | k in list
      ensures x <= k && k + x < Times(y, x)
    {
      var r, c := ListedIsInner(x, y, y - 1, 1, red, k);
      TimesMonotone(1, r, x);
      assert Times(1, x) == x;
      TimesMonotone(r + 2, y, x);
    }
    forall k: nat, k': nat | k in list && k' in list
      ensures !Touches(x, k, k')
    {
      var r, c := ListedIsInner(x, y, y - 1, 1, red, k);
      var r', c' := ListedIsInner(x, y, y - 1, 1, red, k');
      NextToEachOther(x, r, c, r', c');
      NextToEachOther(x, r', c', r, c);
    }
  }

  lemma NextToEachOther(x: nat, r: nat, c: nat, r': nat, c': nat)
    requires 1 <= c < x - 1 && 1 <= c' < x - 1 && IsRed(r, c) == IsRed(r', c')
    ensures Position(x, r', c') != Position(x, r, c) + 1 && Position(x, r', c') != Position(x, r, c) + x
  {
    if Position(x, r', c') == Position(x, r, c + 1) {
      PositionsDiffer(x, r', c', r, c + 1);
    }
    if Position(x, r', c') == Position(x, r + 1, c) {
      PositionsDiffer(x, r', c', r + 1, c);
    }
  }

  // ----- sweeps -----

  /** The stencil with its operands: index, up, left, right, down. */
  type Stencil<!T> = (nat, T, T, T, T) -> T

  function Relaxed<T>(relax: Stencil<T>, x: nat, u: seq<T>, k: nat): T
    requires x >= 1 && x <= k && k + x < |u|
  {
    relax(k, u[k - x], u[k - 1], u[k + 1], u[k + x])
  }

  /** All cells of the list updated at once, from the values before the sweep. */
  ghost function Simultaneous<T>(relax: Stencil<T>, x: nat, u: seq<T>, list: seq<nat>): (v: seq<T>)
    requires x >= 1 && forall k: nat | k in list :: x <= k && k + x < |u|
    ensures |v| == |u|
  {
    seq(|u|, k requires 0 <= k < |u| => if k in list then Relaxed(relax, x, u, k) else u[k])
  }

  /** Every cell of the list has its four neighbours inside the grid. */
  ghost predicate InRange(x: nat, size: nat, list: seq<nat>) {
    x >= 1 && forall a | 0 <= a < |list| :: x <= list[a] && list[a] + x < size
  }

  /** The cells of the list updated one after another, in place. */
  ghost function InPlace<T>(relax: Stencil<T>, x: nat, u: seq<T>, list: seq<nat>): (v: seq<T>)
    requires InRange(x, |u|, list)
    ensures |v| == |u|
    decreases |list|
  {
    if list == [] then u
    else
      assert forall a | 0 <= a < |list[1..]| :: list[1..][a] == list[a + 1];
      InPlace(relax, x, u[list[0] := Relaxed(relax, x, u, list[0])], list[1..])
  }

  /** The cells in done have been updated, the others not. */
  ghost predicate SweptTo<T>(relax: Stencil<T>, x: nat, u0: seq<T>, list: seq<nat>, done: set<nat>, u: seq<T>)
    requires Independent(x, |u0|, list)
  {
    && |u| == |u0|
    && (forall k: nat | k in done :: k in list)
    && forall k: nat | k < |u| :: u[k] == if k in done && k in list then Relaxed(relax, x, u0, k) else u0[k]
  }

  /** The next update reads only cells that the sweep does not change. */
  lemma NextUpdate<T>(relax: Stencil<T>, x: nat, u0: seq<T>, list: seq<nat>, done: set<nat>, u: seq<T>, k: nat)
    requires Independent(x, |u0|, list) && k in list && SweptTo(relax, x, u0, list, done, u)
    ensures x <= k && k + x < |u|
    ensures SweptTo(relax, x, u0, list, done + {k}, u[k := Relaxed(relax, x, u, k)])
  {
    assert Touches(x, k, k - x) && Touches(x, k, k - 1) && Touches(x, k, k + 1) && Touches(x, k, k + x);
    assert Relaxed(relax, x, u, k) == Relaxed(relax, x, u0, k);
  }

  /** One loop of Solve_parallel over one colour. */
  method SweepColour<T>(relax: Stencil<T>, numGridX: nat, u: array<T>, list: seq<nat>)
    requires InRange(numGridX, u.Length, list)
    modifies u
    ensures u[..] == InPlace(relax, numGridX, old(u[..]), list)
  {
    var i := 0;
    assert list[0..] == list;
    while i < |list|
      invariant i <= |list| && InRange(numGridX, u.Length, list[i..])
      invariant InPlace(relax, numGridX, u[..], list[i..]) == InPlace(relax, numGridX, old(u[..]), list)
    {
      var k := list[i];
      ghost var before := u[..];
      assert list[i..][0] == k && list[i..][1..] == list[i + 1..];
      u[k] := relax(k, u[k - numGridX], u[k - 1], u[k + 1], u[k + numGridX]);
      assert u[..] == before[k := Relaxed(relax, numGridX, before, k)];
      i := i + 1;
    }
  }

  lemma IndependentInRange(x: nat, size: nat, list: seq<nat>)
    requires Independent(x, size, list)
    ensures InRange(x, size, list)
  {
    forall a | 0 <= a < |list|
      ensures x <= list[a] && list[a] + x < size
    {
      assert list[a] in list;
    }
  }

  ghost function CellsOf(list: seq<nat>): set<nat> {
    set k | k in list
  }

  /** Cells of one list do not read each other, so each update in place finds the values
      from before the sweep. */
  lemma {:induction false} InPlaceGoesOn<T>(relax: Stencil<T>, x: nat, u0: seq<T>, list: seq<nat>, done: set<nat>,
                                            u: seq<T>, rest: seq<nat>)
    requires Independent(x, |u0|, list) && SweptTo(relax, x, u0, list, done, u) && InRange(x, |u|, rest)
    requires forall a | 0 <= a < |rest| :: rest[a] in list
    ensures SweptTo(relax, x, u0, list, done + CellsOf(rest), InPlace(relax, x, u, rest))
    decreases |rest|
  {
    hide Independent, SweptTo, Relaxed;
    if rest == [] {
      assert done + CellsOf([]) == done;
    } else {
      var k, tail := rest[0], rest[1..];
      NextUpdate(relax, x, u0, list, done, u, k);
      assert forall a | 0 <= a < |tail| :: tail[a] == rest[a + 1];
      InPlaceGoesOn(relax, x, u0, list, done + {k}, u[k := Relaxed(relax, x, u, k)], tail);
      assert rest == [k] + tail;
      assert done + {k} + CellsOf(tail) == done + CellsOf(rest);
    }
  }

  /** Updating the cells of a colour in place, one after another, is the same as
      updating all of them at once, from the values before the sweep. */
  lemma InPlaceIsSimultaneous<T>(relax: Stencil<T>, x: nat, u: seq<T>, list: seq<nat>)
    requires Independent(x, |u|, list)
    ensures InRange(x, |u|, list) && InPlace(relax, x, u, list) == Simultaneous(relax, x, u, list)
  {
    hide Independent, SweptTo, Simultaneous, InPlace;
    IndependentInRange(x, |u|, list);
    SweepStart(relax, x, u, list);
    InPlaceGoesOn(relax, x, u, list, {}, u, list);
    SweepEnd(relax, x, u, list, {} + CellsOf(list), InPlace(relax, x, u, list));
  }

  /** The loop leaves in each cell of the colour the stencil's value of the cell's four
      neighbours before the sweep, and every other cell as it was. */
  lemma InPlaceCell<T>(relax: Stencil<T>, x: nat, u: seq<T>, list: seq<nat>, k: nat)
    requires Independent(x, |u|, list) && k < |u|
    ensures InRange(x, |u|, list) && (k in list ==> x <= k && k + x < |u|)
    ensures InPlace(relax, x, u, list)[k]
         == if k in list then relax(k, u[k - x], u[k - 1], u[k + 1], u[k + x]) else u[k]
  {
    hide InPlace, InRange, SweptTo;
    InPlaceIsSimultaneous(relax, x, u, list);
  }

  /** Only which cells are in the list matters: the loop leaves the same grid in any order. */
  lemma OrderIrrelevant<T>(relax: Stencil<T>, x: nat, u: seq<T>, list: seq<nat>, list': seq<nat>)
    requires Independent(x, |u|, list) && forall k: nat :: k in list <==> k in list'
    ensures InRange(x, |u|, list) && InRange(x, |u|, list')
    ensures InPlace(relax, x, u, list') == InPlace(relax, x, u, list)
  {
    hide InPlace;
    InPlaceIsSimultaneous(relax, x, u, list);
    InPlaceIsSimultaneous(relax, x, u, list');
  }

  lemma SweepStart<T>(relax: Stencil<T>, x: nat, u0: seq<T>, list: seq<nat>)
    requires Independent(x, |u0|, list)
    ensures x >= 1 && SweptTo(relax, x, u0, list, {}, u0)
  {
  }

  lemma SweepEnd<T>(relax: Stencil<T>, x: nat, u0: seq<T>, list: seq<nat>, done: set<nat>, u: seq<T>)
    requires Independent(x, |u0|, list) && SweptTo(relax, x, u0, list, done, u)
    requires forall a | 0 <= a < |list| :: list[a] in done
    ensures u == Simultaneous(relax, x, u0, list)
  {
    forall k: nat | k < |u|
      ensures u[k] == Simultaneous(relax, x, u0, list)[k]
    {
      if k in list {
        var a: nat :| a < |list| && list[a] == k;
      }
    }
  }

  // ----- the same loop run by several threads -----

  /** How far the update of each list entry has come: operands read so far, and
      whether the cell has been written. */
  datatype Entry<T> = Entry(regs: seq<T>, written: bool)

  datatype Sweep<T> = Sweep(u: seq<T>, entries: seq<Entry<T>>)

  function Operand(x: nat, k: nat, q: nat): (k': nat)
    requires 1 <= x <= k && q < 4
    ensures k' <= k + x
  {
    if q == 0 then k - x else if q == 1 then k - 1 else if q == 2 then k + 1 else k + x
  }

  /** The next access of list entry a: one read, or the write. */
  function Access<T>(relax: Stencil<T>, x: nat, list: seq<nat>, s: Sweep<T>, a: nat): (s': Sweep<T>)
    requires a < |list| == |s.entries| && Independent(x, |s.u|, list)
    ensures |s'.u| == |s.u| && |s'.entries| == |s.entries|
  {
    var k, e := list[a], s.entries[a];
    assert k in list;
    if e.written then s
    else if |e.regs| < 4 then s.(entries := s.entries[a := e.(regs := e.regs + [s.u[Operand(x, k, |e.regs|)]])])
    else Sweep(s.u[k := relax(k, e.regs[0], e.regs[1], e.regs[2], e.regs[3])], s.entries[a := e.(written := true)])
  }

  ghost predicate Positions(list: seq<nat>, sched: seq<nat>) {
    forall t | 0 <= t < |sched| :: sched[t] < |list|
  }

  function Interleaved<T>(relax: Stencil<T>, x: nat, list: seq<nat>, u: seq<T>, sched: seq<nat>): (s: Sweep<T>)
    requires Independent(x, |u|, list) && Positions(list, sched)
    ensures |s.u| == |u| && |s.entries| == |list|
  {
    if sched == [] then Sweep(u, seq(|list|, _ => Entry([], false)))
    else Access(relax, x, list, Interleaved(relax, x, list, u, sched[..|sched| - 1]), sched[|sched| - 1])
  }

  ghost predicate EntryOk<T>(relax: Stencil<T>, x: nat, list: seq<nat>, u: seq<T>, s: Sweep<T>, a: nat)
    requires a < |list| == |s.entries| && Independent(x, |u|, list) && |s.u| == |u|
  {
    var k, e := list[a], s.entries[a];
    assert k in list;
    && |e.regs| <= 4
    && (forall q | 0 <= q < |e.regs| :: e.regs[q] == u[Operand(x, k, q)])
    && (e.written ==> s.u[k] == Relaxed(relax, x, u, k))
  }

  ghost predicate CellOk<T>(relax: Stencil<T>, x: nat, list: seq<nat>, u: seq<T>, s: Sweep<T>, k: nat)
    requires k < |u| == |s.u| && Independent(x, |u|, list)
  {
    s.u[k] == u[k] || (k in list && s.u[k] == Relaxed(relax, x, u, k))
  }

  ghost predicate SweepInv<T>(relax: Stencil<T>, x: nat, list: seq<nat>, u: seq<T>, s: Sweep<T>)
    requires |list| == |s.entries| && Independent(x, |u|, list) && |s.u| == |u|
  {
    && (forall a: nat | a < |list| :: EntryOk(relax, x, list, u, s, a))
    && (forall k: nat | k < |u| :: CellOk(relax, x, list, u, s, k))
  }

  lemma AccessKeeps<T>(relax: Stencil<T>, x: nat, list: seq<nat>, u: seq<T>, s: Sweep<T>, a: nat)
    requires a < |list| == |s.entries| && Independent(x, |u|, list) && |s.u| == |u| && SweepInv(relax, x, list, u, s)
    ensures SweepInv(relax, x, list, u, Access(relax, x, list, s, a))
  {
    var k, e, s' := list[a], s.entries[a], Access(relax, x, list, s, a);
    assert k in list && EntryOk(relax, x, list, u, s, a);
    if !e.written && |e.regs| < 4 {
      var k' := Operand(x, k, |e.regs|);
      assert Touches(x, k, k') && CellOk(relax, x, list, u, s, k');
    }
    forall b: nat | b < |list|
      ensures EntryOk(relax, x, list, u, s', b)
    {
      assert EntryOk(relax, x, list, u, s, b);
    }
    forall c: nat | c < |u|
      ensures CellOk(relax, x, list, u, s', c)
    {
      assert CellOk(relax, x, list, u, s, c);
    }
  }

  lemma {:induction false} InterleavedInv<T>(relax: Stencil<T>, x: nat, list: seq<nat>, u: seq<T>, sched: seq<nat>)
    requires Independent(x, |u|, list) && Positions(list, sched)
    ensures SweepInv(relax, x, list, u, Interleaved(relax, x, list, u, sched))
  {
    if sched == [] {
    } else {
      InterleavedInv(relax, x, list, u, sched[..|sched| - 1]);
      AccessKeeps(relax, x, list, u, Interleaved(relax, x, list, u, sched[..|sched| - 1]), sched[|sched| - 1]);
    }
  }

  /** Some interleaving of the accesses leads to s. */
  ghost predicate SweepReached<T>(relax: Stencil<T>, x: nat, list: seq<nat>, u: seq<T>, s: Sweep<T>)
    requires Independent(x, |u|, list)
  {
    exists sched: seq<nat> :: Positions(list, sched) && Interleaved(relax, x, list, u, sched) == s
  }

  /** However the reads and writes of the updates interleave, a finished sweep is
      the simultaneous update. */
  lemma AnyInterleaving<T>(relax: Stencil<T>, x: nat, list: seq<nat>, u: seq<T>, s: Sweep<T>)
    requires Independent(x, |u|, list) && SweepReached(relax, x, list, u, s)
    requires forall e | e in s.entries :: e.written
    ensures s.u == Simultaneous(relax, x, u, list)
  {
    hide Interleaved;
    var sched: seq<nat> :| Positions(list, sched) && Interleaved(relax, x, list, u, sched) == s;
    InterleavedInv(relax, x, list, u, sched);
    forall k: nat | k < |u|
      ensures s.u[k] == Simultaneous(relax, x, u, list)[k]
    {
      assert CellOk(relax, x, list, u, s, k);
      if k in list {
        var a: nat :| a < |list| && list[a] == k;
        assert s.entries[a] in s.entries && EntryOk(relax, x, list, u, s, a);
      }
    }
  }

  // ----- the solver -----

  /** The grid after m iterations: a red sweep, then a black one. */
  ghost function RedBlackIterate<T>(relax: Stencil<T>, x: nat, y: nat, u: seq<T>, m: nat): (v: seq<T>)
    requires x >= 2 && y >= 2 && |u| == Times(y, x)
    ensures |v| == |u|
  {
    if m == 0 then u
    else
      ColoursIndependent(x, y, true);
      ColoursIndependent(x, y, false);
      Simultaneous(relax, x, Simultaneous(relax, x, RedBlackIterate(relax, x, y, u, m - 1), Reds(x, y)), Blacks(x, y))
  }

  lemma RedOrBlack(x: nat, y: nat)
    requires x >= 2 && y >= 2
    ensures forall k: nat :: !(k in Reds(x, y) && k in Blacks(x, y))
  {
    forall k: nat
      ensures !(k in Reds(x, y) && k in Blacks(x, y))
    {
      if k in Reds(x, y) {
        var r, c := ListedIsInner(x, y, y - 1, 1, true, k);
        ListedCell(x, y - 1, 1, false, r, c);
      }
    }
  }

  /** Grid v is one iteration after grid w: red cells are computed from the values
      before the iteration, black cells from the new values around them, and all
      others stay. */
  ghost predicate RedThenBlack<T>(relax: Stencil<T>, x: nat, y: nat, w: seq<T>, v: seq<T>)
    requires x >= 2 && y >= 2
  {
    && |v| == |w| == Times(y, x)
    && (forall k: nat | k in Reds(x, y) ::
          x <= k && k + x < |w| && v[k] == relax(k, w[k - x], w[k - 1], w[k + 1], w[k + x]))
    && (forall k: nat | k in Blacks(x, y) ::
          x <= k && k + x < |v| && v[k] == relax(k, v[k - x], v[k - 1], v[k + 1], v[k + x]))
    && (forall k: nat | k < |w| && k !in Reds(x, y) && k !in Blacks(x, y) :: v[k] == w[k])
  }

  /** A cell of one list after both sweeps, the first list before the second. */
  lemma CellOfFirst<T>(relax: Stencil<T>, x: nat, w: seq<T>, first: seq<nat>, second: seq<nat>, k: nat)
    requires Independent(x, |w|, first) && Independent(x, |w|, second) && k in first && k !in second
    ensures x <= k && k + x < |w|
    ensures Simultaneous(relax, x, Simultaneous(relax, x, w, first), second)[k]
         == relax(k, w[k - x], w[k - 1], w[k + 1], w[k + x])
  {
  }

  lemma CellOfSecond<T>(relax: Stencil<T>, x: nat, w: seq<T>, first: seq<nat>, second: seq<nat>, k: nat)
    requires Independent(x, |w|, first) && Independent(x, |w|, second) && k in second
    ensures x <= k && k + x < |w|
    ensures var v := Simultaneous(relax, x, Simultaneous(relax, x, w, first), second);
            v[k] == relax(k, v[k - x], v[k - 1], v[k + 1], v[k + x])
  {
    assert Touches(x, k, k - x) && Touches(x, k, k - 1) && Touches(x, k, k + 1) && Touches(x, k, k + x);
    var s := Simultaneous(relax, x, w, first);
    var v := Simultaneous(relax, x, s, second);
    assert v[k - x] == s[k - x] && v[k - 1] == s[k - 1] && v[k + 1] == s[k + 1] && v[k + x] == s[k + x];
  }

  lemma CellOfNeither<T>(relax: Stencil<T>, x: nat, w: seq<T>, first: seq<nat>, second: seq<nat>, k: nat)
    requires Independent(x, |w|, first) && Independent(x, |w|, second)
    requires k < |w| && k !in first && k !in second
    ensures Simultaneous(relax, x, Simultaneous(relax, x, w, first), second)[k] == w[k]
  {
  }

  lemma RedsThenBlacks<T>(relax: Stencil<T>, x: nat, y: nat, w: seq<T>)
    requires x >= 2 && y >= 2 && |w| == Times(y, x)
    requires Independent(x, |w|, Reds(x, y)) && Independent(x, |w|, Blacks(x, y))
    requires forall k: nat :: !(k in Reds(x, y) && k in Blacks(x, y))
    ensures RedThenBlack(relax, x, y, w, Simultaneous(relax, x, Simultaneous(relax, x, w, Reds(x, y)), Blacks(x, y)))
  {
    hide Reds, Blacks, Times, Relaxed, Simultaneous;
    forall k: nat | k in Reds(x, y)
      ensures x <= k && k + x < |w|
      ensures Simultaneous(relax, x, Simultaneous(relax, x, w, Reds(x, y)), Blacks(x, y))[k]
           == relax(k, w[k - x], w[k - 1], w[k + 1], w[k + x])
    {
      CellOfFirst(relax, x, w, Reds(x, y), Blacks(x, y), k);
    }
    var v := Simultaneous(relax, x, Simultaneous(relax, x, w, Reds(x, y)), Blacks(x, y));
    forall k: nat | k in Blacks(x, y)
      ensures x <= k && k + x < |v| && v[k] == relax(k, v[k - x], v[k - 1], v[k + 1], v[k + x])
    {
      CellOfSecond(relax, x, w, Reds(x, y), Blacks(x, y), k);
    }
    forall k: nat | k < |w| && k !in Reds(x, y) && k !in Blacks(x, y)
      ensures v[k] == w[k]
    {
      CellOfNeither(relax, x, w, Reds(x, y), Blacks(x, y), k);
    }
  }

  /** An iteration is a red sweep that reads the old grid, then a black sweep that
      reads what the red one left. */
  lemma IterationIsRedThenBlack<T>(relax: Stencil<T>, x: nat, y: nat, u: seq<T>, m: nat)
    requires x >= 2 && y >= 2 && |u| == Times(y, x) && m >= 1
    ensures RedThenBlack(relax, x, y, RedBlackIterate(relax, x, y, u, m - 1), RedBlackIterate(relax, x, y, u, m))
  {
    hide RedThenBlack, Independent, Simultaneous;
    ColoursIndependent(x, y, true);
    ColoursIndependent(x, y, false);
    RedOrBlack(x, y);
    RedsThenBlacks(relax, x, y, RedBlackIterate(relax, x, y, u, m - 1));
  }

  /** The given grid, then the grid after each iteration. */
  ghost predicate Grids<T>(relax: Stencil<T>, x: nat, y: nat, u: seq<T>, grids: seq<seq<T>>)
    requires x >= 2 && y >= 2
  {
    && grids != [] && grids[0] == u
    && forall m | 0 < m < |grids| :: RedThenBlack(relax, x, y, grids[m - 1], grids[m])
  }

  /** The two loops of an iteration, in place, make the next iterate. */
  lemma IterationInPlace<T>(relax: Stencil<T>, x: nat, y: nat, u: seq<T>, m: nat)
    requires x >= 2 && y >= 2 && |u| == Times(y, x)
    ensures InRange(x, |u|, Reds(x, y)) && InRange(x, |u|, Blacks(x, y))
    ensures InPlace(relax, x, InPlace(relax, x, RedBlackIterate(relax, x, y, u, m), Reds(x, y)), Blacks(x, y))
         == RedBlackIterate(relax, x, y, u, m + 1)
  {
    hide InPlace, Independent, Simultaneous;
    ColoursIndependent(x, y, true);
    ColoursIndependent(x, y, false);
    var v := RedBlackIterate(relax, x, y, u, m);
    InPlaceIsSimultaneous(relax, x, v, Reds(x, y));
    InPlaceIsSimultaneous(relax, x, InPlace(relax, x, v, Reds(x, y)), Blacks(x, y));
  }

  lemma OneMoreGrid<T>(relax: Stencil<T>, x: nat, y: nat, u: seq<T>, grids: seq<seq<T>>, v: seq<T>)
    requires x >= 2 && y >= 2 && Grids(relax, x, y, u, grids) && RedThenBlack(relax, x, y, grids[|grids| - 1], v)
    ensures Grids(relax, x, y, u, grids + [v])
  {
    hide RedThenBlack, Times;
  }

  method SolveParallel<T>(relax: Stencil<T>, u: array<T>, numGridX: nat, numGridY: nat, numIter: nat)
    returns (ghost grids: seq<seq<T>>)
    requires numGridX >= 2 && numGridY >= 2 && u.Length == Times(numGridY, numGridX)
    modifies u
    ensures u[..] == RedBlackIterate(relax, numGridX, numGridY, old(u[..]), numIter)
    ensures Grids(relax, numGridX, numGridY, old(u[..]), grids)
    ensures |grids| == numIter + 1 && grids[numIter] == u[..]
  {
    hide RedThenBlack, InPlace, InRange, Listed, Times;
    var redvec, blackvec := CalIndexes(numGridX, numGridY);
    var done := 0;
    grids := [u[..]];
    while done < numIter
      invariant done <= numIter
      invariant u[..] == RedBlackIterate(relax, numGridX, numGridY, old(u[..]), done)
      invariant Grids(relax, numGridX, numGridY, old(u[..]), grids)
      invariant |grids| == done + 1 && grids[done] == u[..]
    {
      IterationInPlace(relax, numGridX, numGridY, old(u[..]), done);
      SweepColour(relax, numGridX, u, redvec);
      SweepColour(relax, numGridX, u, blackvec);
      done := done + 1;
      IterationIsRedThenBlack(relax, numGridX, numGridY, old(u[..]), done);
      OneMoreGrid(relax, numGridX, numGridY, old(u[..]), grids, u[..]);
      grids := grids + [u[..]];
    }
  }

  /** Each inner cell has the value its neighbours ask for: a solution of the
      discrete equations. */
  ghost predicate Solved<T>(relax: Stencil<T>, x: nat, y: nat, u: seq<T>)
    requires x >= 2 && y >= 2 && |u| == Times(y, x)
  {
    forall k: nat | x <= k && k + x < |u| && (k in Reds(x, y) || k in Blacks(x, y)) :: u[k] == Relaxed(relax, x, u, k)
  }

  /** After an iteration the black cells satisfy their equations exactly. */
  lemma BlackSolved<T>(relax: Stencil<T>, x: nat, y: nat, u: seq<T>, m: nat, k: nat)
    requires x >= 2 && y >= 2 && |u| == Times(y, x) && m >= 1 && k in Blacks(x, y)
    ensures x <= k && k + x < |u|
    ensures var v := RedBlackIterate(relax, x, y, u, m); v[k] == Relaxed(relax, x, v, k)
  {
    ColoursIndependent(x, y, true);
    ColoursIndependent(x, y, false);
    assert Touches(x, k, k - x) && Touches(x, k, k - 1) && Touches(x, k, k + 1) && Touches(x, k, k + x);
  }

  /** The grids an iteration leaves unchanged are exactly the solutions. */
  lemma FixedPointIffSolved<T>(relax: Stencil<T>, x: nat, y: nat, u: seq<T>)
    requires x >= 2 && y >= 2 && |u| == Times(y, x)
    ensures RedBlackIterate(relax, x, y, u, 1) == u <==> Solved(relax, x, y, u)
  {
    ColoursIndependent(x, y, true);
    ColoursIndependent(x, y, false);
    RedOrBlack(x, y);
    assert RedBlackIterate(relax, x, y, u, 0) == u;
    var v := Simultaneous(relax, x, u, Reds(x, y));
    if RedBlackIterate(relax, x, y, u, 1) == u {
      forall k: nat | k < |u|
        ensures v[k] == u[k]
      {
        if k in Reds(x, y) {
          assert k !in Blacks(x, y);
          assert Simultaneous(relax, x, v, Blacks(x, y))[k] == v[k];
        }
      }
      assert v == u;
      forall k: nat | x <= k && k + x < |u| && (k in Reds(x, y) || k in Blacks(x, y))
        ensures u[k] == Relaxed(relax, x, u, k)
      {
        assert Simultaneous(relax, x, u, Blacks(x, y))[k] == v[k] == u[k];
      }
    }
    if Solved(relax, x, y, u) {
      assert v == u;
      assert Simultaneous(relax, x, u, Blacks(x, y)) == u;
    }
  }

  // ----- the same equations as Jacobi's method -----

  /** No inner cell changes in the first sweep of Jacobi's method. */
  ghost predicate JacobiFixed<T>(p: Problem<T>)
    requires p.Valid()
  {
    forall r: nat, c: nat | Interior(p, r, c) :: Iterate(p, 1, r, c) == Iterate(p, 0, r, c)
  }

  lemma CellEquation<T>(p: Problem<T>, r: nat, c: nat)
    requires p.Valid() && Interior(p, r, c)
    ensures var k := Position(p.cols, r, c);
            && p.cols <= k && k + p.cols < |p.u1|
            && (Iterate(p, 1, r, c) == Iterate(p, 0, r, c) <==> p.u1[k] == Relaxed(p.relax, p.cols, p.u1, k))
  {
    hide Iterate;
    IdxInBounds(p, r, c);
    SerialSolver.SolveStart(p);
    SerialSolver.BuffersHold(p, 0, p.u1, p.u2);
    SerialSolver.Operands(p, 0, p.u1, r, c);
    assert SerialSolver.HoldsIterate(p, 0, p.u1, r, c);
  }

  /** The solutions of the red-black solver are the grids that Jacobi's method, as the
      tasks run it, leaves unchanged. */
  lemma SolvedIffJacobiFixed<T>(p: Problem<T>)
    requires p.Valid() && p.cols >= 2
    ensures p.rows >= 2
    ensures Solved(p.relax, p.cols, p.rows, p.u1) <==> JacobiFixed(p)
  {
    hide Iterate, Relaxed, Listed, Times;
    assert p.rows >= 2 by { AtLeastTwoRows(p); }
    Partition(p.cols, p.rows);
    if Solved(p.relax, p.cols, p.rows, p.u1) {
      forall r: nat, c: nat | Interior(p, r, c)
        ensures Iterate(p, 1, r, c) == Iterate(p, 0, r, c)
      {
        CellEquation(p, r, c);
      }
    }
    if JacobiFixed(p) {
      forall k: nat | k in Reds(p.cols, p.rows) || k in Blacks(p.cols, p.rows)
        ensures p.cols <= k && k + p.cols < |p.u1| ==> p.u1[k] == Relaxed(p.relax, p.cols, p.u1, k)
      {
        var r: nat, c: nat :| Inner(p.cols, p.rows, r, c) && k == Position(p.cols, r, c);
        assert Interior(p, r, c);
        CellEquation(p, r, c);
      }
    }
  }

  lemma AtLeastTwoRows<T>(p: Problem<T>)
    requires p.Valid()
    ensures p.rows >= 2
  {
    TimesMonotone(2, p.n, p.loc);
  }
}
