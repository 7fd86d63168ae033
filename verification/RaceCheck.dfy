/** The comparison by which the repository looks for race conditions: the buffers of
    a parallel run against those of the serial solver. */
module RaceCheck {
  import opened Jacobi
  import opened Machine
  import opened Stopping
  import opened Runtime
  import SerialSolver

  /** What cell (r, c) of u1, or else of u2, holds after k serial iterations. */
  ghost function SerialCell<T>(p: Problem<T>, k: nat, first: bool, r: nat, c: nat): T
    requires p.Valid() && InGrid(p, r, c)
  {
    Iterate(p, if (k % 2 == 0) == first then k else k as int - 1, r, c)
  }

  /** The serial solver has the same two buffers after k and after m iterations. */
  ghost predicate SerialStands<T>(p: Problem<T>, k: nat, m: nat)
    requires p.Valid()
  {
    forall r: nat, c: nat, first: bool | InGrid(p, r, c) ::
        SerialCell(p, k, first, r, c) == SerialCell(p, m, first, r, c)
  }

  /** The comparison with a serial run of all iterations up to the limit. Whatever the
      pool and the tasks did, it finds a difference only where the serial solver itself
      would still change something after the stopping iteration. */
  method CheckRaceConds<T(==)>(p: Problem<T>, ghost threads: nat, ghost r: Program<T>, ghost last: nat,
                               u1: seq<T>, u2: seq<T>)
    returns (same: bool)
    requires p.Valid() && threads >= 1 && Reachable(p, threads, r) && Shape(p, r.tasks) && StopsAt(p, last)
    requires !CanMove(p, r)
    requires u1 == r.tasks.u1 && u2 == r.tasks.u2
    ensures BuffersAt(p, last, u1, u2)
    ensures same <==> SerialStands(p, last, p.limit)
    ensures last == p.limit ==> same
  {
    hide StopsAt, BuffersAt, Reachable, CanMove, Iterate, SerialStands;
    var serialU1 := new T[|p.u1|](k requires 0 <= k < |p.u1| => p.u1[k]);
    var serialU2 := new T[|p.u2|](k requires 0 <= k < |p.u2| => p.u2[k]);
    assert serialU1[..] == p.u1 && serialU2[..] == p.u2;
    SerialSolver.SolveJacobi(p, serialU1, serialU2, p.limit);
    HaltedProgram(p, threads, r, last);
    SameIffStands(p, last, u1, u2, serialU1[..], serialU2[..]);
    same := Equal(u1, u2, serialU1, serialU2);
  }

  lemma SameIffStands<T>(p: Problem<T>, last: nat, u1: seq<T>, u2: seq<T>, v1: seq<T>, v2: seq<T>)
    requires p.Valid() && BuffersAt(p, last, u1, u2) && BuffersAt(p, p.limit, v1, v2)
    ensures |u1| == |u2| == |v1| == |v2|
    ensures u1 == v1 && u2 == v2 <==> SerialStands(p, last, p.limit)
    ensures last == p.limit ==> SerialStands(p, last, p.limit)
  {
    hide Iterate;
    if u1 == v1 && u2 == v2 {
      forall r: nat, c: nat, first: bool | InGrid(p, r, c)
        ensures SerialCell(p, last, first, r, c) == SerialCell(p, p.limit, first, r, c)
      {
        assert BothHold(p, last, u1, u2, r, c) && BothHold(p, p.limit, v1, v2, r, c);
      }
    }
    if SerialStands(p, last, p.limit) {
      forall ind: nat | ind < |u1|
        ensures u1[ind] == v1[ind] && u2[ind] == v2[ind]
      {
        var r, c := IdxOnto(p, ind, p.rows);
        assert BothHold(p, last, u1, u2, r, c) && BothHold(p, p.limit, v1, v2, r, c);
        assert SerialCell(p, last, true, r, c) == SerialCell(p, p.limit, true, r, c);
        assert SerialCell(p, last, false, r, c) == SerialCell(p, p.limit, false, r, c);
      }
    }
  }

  /** The loop over the two result files. */
  method Equal<T(==)>(u1: seq<T>, u2: seq<T>, v1: array<T>, v2: array<T>) returns (same: bool)
    requires |u1| == |u2| == v1.Length == v2.Length
    ensures same <==> u1 == v1[..] && u2 == v2[..]
  {
    same := true;
    var ind := 0;
    while ind < |u1|
      invariant ind <= |u1| && (same <==> u1[..ind] == v1[..ind] && u2[..ind] == v2[..ind])
    {
      assert u1[..ind + 1] == u1[..ind] + [u1[ind]] && v1[..ind + 1] == v1[..ind] + [v1[ind]];
      assert u2[..ind + 1] == u2[..ind] + [u2[ind]] && v2[..ind + 1] == v2[..ind] + [v2[ind]];
      if u1[ind] != v1[ind] || u2[ind] != v2[ind] {
        same := false;
      }
      ind := ind + 1;
    }
    assert u1[..ind] == u1 && u2[..ind] == u2 && v1[..ind] == v1[..] && v2[..ind] == v2[..];
  }
}
