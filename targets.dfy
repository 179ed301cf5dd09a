/**
 * Which cells build_map writes after the corners: each pass at step t writes the
 * cells of the t/2-lattice that are not on the t-lattice, its diamond phase the
 * centres and its square phase the edge midpoints, and no cell twice. Together the
 * passes write every cell of the grid except the four corners, each exactly once.
 */
module Targets {
  import opened Grid
  import opened Schedule

  // ---------------------------------------------------------------------------
  // Order and distinctness of targets.

  /** c comes strictly before d in row-major order. */
  predicate Before(c: Cell, d: Cell)
  {
    c.y < d.y || (c.y == d.y && c.x < d.x)
  }

  /** The targets of ups strictly increase in row-major order. */
  predicate Ascending(ups: seq<Update>)
  {
    forall i, j :: 0 <= i < j < |ups| ==> Before(ups[i].at, ups[j].at)
  }

  /** No two updates of ups write the same cell. */
  predicate Distinct(ups: seq<Update>)
  {
    forall i, j :: 0 <= i < j < |ups| ==> ups[i].at != ups[j].at
  }

  lemma AscendingCons(u: Update, rest: seq<Update>)
    requires Ascending(rest)
    requires forall v | v in rest :: Before(u.at, v.at)
    ensures Ascending([u] + rest)
  {
    var s := [u] + rest;
    forall i, j | 0 <= i < j < |s|
      ensures Before(s[i].at, s[j].at)
    {
      assert s[j] == rest[j - 1];
      if i > 0 {
        assert s[i] == rest[i - 1];
      } else {
        assert s[j] in rest;
      }
    }
  }

  lemma AscendingAppend(a: seq<Update>, b: seq<Update>)
    requires Ascending(a) && Ascending(b)
    requires forall u, v | u in a && v in b :: Before(u.at, v.at)
    ensures Ascending(a + b)
  {
    var s := a + b;
    forall i, j | 0 <= i < j < |s|
      ensures Before(s[i].at, s[j].at)
    {
      if j < |a| {
        assert s[i] == a[i] && s[j] == a[j];
      } else if i >= |a| {
        assert s[i] == b[i - |a|] && s[j] == b[j - |a|];
      } else {
        assert s[i] == a[i] && s[i] in a;
        assert s[j] == b[j - |a|] && s[j] in b;
      }
    }
  }

  lemma AscendingIsDistinct(ups: seq<Update>)
    requires Ascending(ups)
    ensures Distinct(ups)
  {
  }

  lemma DistinctAppend(a: seq<Update>, b: seq<Update>)
    requires Distinct(a) && Distinct(b)
    requires forall u, v | u in a && v in b :: u.at != v.at
    ensures Distinct(a + b)
  {
    var s := a + b;
    forall i, j | 0 <= i < j < |s|
      ensures s[i].at != s[j].at
    {
      if j < |a| {
        assert s[i] == a[i] && s[j] == a[j];
      } else if i >= |a| {
        assert s[i] == b[i - |a|] && s[j] == b[j - |a|];
      } else {
        assert s[i] == a[i] && s[i] in a;
        assert s[j] == b[j - |a|] && s[j] in b;
      }
    }
  }

  // ---------------------------------------------------------------------------
  // Residues.

  /** Both coordinates of c are multiples of m. */
  predicate OnLattice(c: Cell, m: Pos)
  {
    c.x % m == 0 && c.y % m == 0
  }

  /** Residues modulo 2h of a multiple of h, and what adding h does to them. */
  lemma HalfResidues(v: int, h: Pos)
    ensures v % (2 * h) == 0 ==> v % h == 0
    ensures v % (2 * h) == h ==> v % h == 0
    ensures v % h == 0 ==> v % (2 * h) == 0 || v % (2 * h) == h
    ensures v % (2 * h) == 0 ==> (v + h) % (2 * h) == h
    ensures v % (2 * h) == h ==> (v + h) % (2 * h) == 0
  {
    var q, r := v / (2 * h), v % (2 * h);
    assert v == q * (2 * h) + r;
    if r < h {
      assert v == (2 * q) * h + r;
      ModOfMultiplePlus(2 * q, h, r);
      ModOfMultiplePlus(q, 2 * h, r + h);
    } else {
      assert v == (2 * q + 1) * h + (r - h);
      ModOfMultiplePlus(2 * q + 1, h, r - h);
      if r == h {
        assert v + h == (q + 1) * (2 * h) + 0;
        ModOfMultiplePlus(q + 1, 2 * h, 0);
      }
    }
  }

  lemma SmallResidue(r: int, m: Pos)
    requires 0 <= r < m
    ensures r % m == r
  {
    ModOfMultiplePlus(0, m, r);
  }

  // ---------------------------------------------------------------------------
  // The targets of each loop.

  /** A diamond row writes centres on one line, left to right, with one residue. */
  lemma {:induction false} DiamondRowTargets(side: nat, t: Pos, x: nat, y: nat)
    ensures Ascending(DiamondRow(side, t, x, y))
    ensures forall u | u in DiamondRow(side, t, x, y) ::
      u.at.y == y + t / 2 && u.at.x >= x + t / 2 && u.at.x % t == (x + t / 2) % t
    decreases side - x
  {
    if x < side - 1 {
      var rest := DiamondRow(side, t, x + t, y);
      DiamondRowTargets(side, t, x + t, y);
      ModShift(x + t / 2, t);
      assert DiamondRow(side, t, x, y) == [DiamondAt(x, y, t)] + rest;
      AscendingCons(DiamondAt(x, y, t), rest);
    }
  }

  /** The diamond phase writes centres row after row; their residues modulo the step
      are the half step in x, and fixed by the first row in y. */
  lemma {:induction false} DiamondPhaseTargets(side: nat, t: Pos, y: nat)
    requires t > 1
    ensures Ascending(DiamondPhase(side, t, y))
    ensures forall u | u in DiamondPhase(side, t, y) ::
      u.at.y >= y + t / 2 && u.at.x % t == t / 2 && u.at.y % t == (y + t / 2) % t
    decreases side - y
  {
    if y < side - 1 {
      var row := DiamondRow(side, t, 0, y);
      var rest := DiamondPhase(side, t, y + t);
      DiamondRowTargets(side, t, 0, y);
      DiamondPhaseTargets(side, t, y + t);
      assert DiamondPhase(side, t, y) == row + rest;
      ModShift(y + t / 2, t);
      SmallResidue(t / 2, t);
      AscendingAppend(row, rest);
    }
  }

  /** A square row writes cells on one line, left to right, with one residue. */
  lemma {:induction false} SquareRowTargets(side: nat, t: Pos, x: nat, y: nat)
    ensures Ascending(SquareRow(side, t, x, y))
    ensures forall u | u in SquareRow(side, t, x, y) ::
      u.at.y == y && u.at.x >= x && u.at.x % t == x % t
    decreases side - x
  {
    if x <= side - 1 {
      var rest := SquareRow(side, t, x + t, y);
      SquareRowTargets(side, t, x + t, y);
      ModShift(x, t);
      assert SquareRow(side, t, x, y) == [SquareAt(x, y, t)] + rest;
      AscendingCons(SquareAt(x, y, t), rest);
    }
  }

  /** The square phase writes rows half a step apart; in each, x % step is
      (y + half) % step. */
  lemma {:induction false} SquarePhaseTargets(side: nat, t: Pos, y: nat)
    requires t > 1
    ensures Ascending(SquarePhase(side, t, y))
    ensures forall u | u in SquarePhase(side, t, y) ::
      u.at.y >= y && u.at.y % (t / 2) == y % (t / 2) && u.at.x % t == (u.at.y + t / 2) % t
    decreases side - y
  {
    if y <= side - 1 {
      var x0 := (y + t / 2) % t;
      var row := SquareRow(side, t, x0, y);
      var rest := SquarePhase(side, t, y + t / 2);
      SquareRowTargets(side, t, x0, y);
      SquarePhaseTargets(side, t, y + t / 2);
      ModShift(y, t / 2);
      SmallResidue(x0, t);
      AscendingAppend(row, rest);
    }
  }

  /** One pass at step t = 2h writes, each once, only cells of the h-lattice that are
      not on the t-lattice: the diamond phase those with both coordinates h modulo t,
      the square phase those with exactly one. */
  lemma PassTargets(side: nat, t: Pos, h: Pos)
    requires t == 2 * h
    ensures Distinct(Pass(side, t))
    ensures forall u | u in DiamondPhase(side, t, 0) :: u.at.x % t == h && u.at.y % t == h
    ensures forall u | u in Pass(side, t) :: OnLattice(u.at, h) && !OnLattice(u.at, t)
  {
    var d, s := DiamondPhase(side, t, 0), SquarePhase(side, t, 0);
    DiamondPhaseTargets(side, t, 0);
    SquarePhaseTargets(side, t, 0);
    SmallResidue(h, t);
    AscendingIsDistinct(d);
    AscendingIsDistinct(s);
    forall u | u in d
      ensures OnLattice(u.at, h) && !OnLattice(u.at, t)
      ensures u.at.x % t != (u.at.y + h) % t
    {
      HalfResidues(u.at.x, h);
      HalfResidues(u.at.y, h);
    }
    forall u | u in s
      ensures OnLattice(u.at, h) && !OnLattice(u.at, t)
    {
      HalfResidues(u.at.x, h);
      HalfResidues(u.at.y, h);
    }
    DistinctAppend(d, s);
  }

  /** The passes from step t on write each cell at most once, and none on the
      t-lattice. */
  lemma {:induction false} PassesFromTargets(side: nat, t: nat)
    requires IsPow2(t)
    ensures Distinct(PassesFrom(side, t))
    ensures forall u | u in PassesFrom(side, t) :: !OnLattice(u.at, t)
    decreases t
  {
    if t > 1 {
      var h: Pos := t / 2;
      var p, rest := Pass(side, t), PassesFrom(side, h);
      PassTargets(side, t, h);
      PassesFromTargets(side, h);
      forall v | v in rest
        ensures !OnLattice(v.at, t)
      {
        HalfResidues(v.at.x, h);
        HalfResidues(v.at.y, h);
      }
      DistinctAppend(p, rest);
    }
  }

  /** No two writes of build_map after the corners target the same cell. */
  lemma WritesDistinct(side: nat)
    requires ValidSide(side)
    ensures Distinct(Writes(side))
  {
    PassesFromTargets(side, side - 1);
  }

  // ---------------------------------------------------------------------------
  // Every non-corner cell is written: the writes are as many as the non-corner cells,
  // all different, and none is a corner.

  /** The integers 0 .. n - 1. */
  function Below(n: nat): (s: set<int>)
    ensures |s| == n
    ensures forall i :: i in s <==> 0 <= i < n
  {
    if n == 0 then {} else Below(n - 1) + {n - 1}
  }

  /** The grid positions the first n updates write. */
  function Written(ups: seq<Update>, side: nat, n: nat): (s: set<int>)
    requires 0 < side && n <= |ups|
  {
    if n == 0 then {} else Written(ups, side, n - 1) + {WrapIndex(ups[n - 1].at.x, ups[n - 1].at.y, side)}
  }

  lemma {:induction false} WrittenBy(ups: seq<Update>, side: nat, n: nat, i: int)
    requires 0 < side && n <= |ups| && i in Written(ups, side, n)
    ensures exists k :: 0 <= k < n && WrapIndex(ups[k].at.x, ups[k].at.y, side) == i
  {
    if i != WrapIndex(ups[n - 1].at.x, ups[n - 1].at.y, side) {
      WrittenBy(ups, side, n - 1, i);
    }
  }

  /** Distinct in-grid targets give as many positions as updates. */
  lemma {:induction false} WrittenCount(ups: seq<Update>, side: nat, n: nat)
    requires 0 < side && n <= |ups| && Distinct(ups)
    requires forall u | u in ups :: 0 <= u.at.x < side && 0 <= u.at.y < side
    ensures |Written(ups, side, n)| == n
  {
    if n > 0 {
      WrittenCount(ups, side, n - 1);
      var last := ups[n - 1].at;
      assert ups[n - 1] in ups;
      InGridIndex(last.x, last.y, side);
      if WrapIndex(last.x, last.y, side) in Written(ups, side, n - 1) {
        WrittenBy(ups, side, n - 1, WrapIndex(last.x, last.y, side));
        var k :| 0 <= k < n - 1 && WrapIndex(ups[k].at.x, ups[k].at.y, side) == WrapIndex(last.x, last.y, side);
        assert ups[k] in ups;
        InGridIndex(ups[k].at.x, ups[k].at.y, side);
        IndexInjective(ups[k].at.x, ups[k].at.y, last.x, last.y, side);
        assert false;
      }
    }
  }

  lemma SubsetOfSameSize(a: set<int>, b: set<int>)
    requires a <= b && |a| == |b|
    ensures a == b
  {
    assert b == (b - a) + a;
    assert |b - a| == 0;
  }

  lemma SubsetDifference(a: set<int>, b: set<int>)
    requires b <= a
    ensures |a - b| == |a| - |b|
  {
    assert a == (a - b) + b;
  }

  /** The positions of the grid that are not corners. */
  function OffCorner(side: nat): (s: set<int>)
  {
    Below(side * side) - {0, side - 1, side * side - side, side * side - 1}
  }

  lemma OffCornerCount(side: nat)
    requires side >= 3
    ensures |OffCorner(side)| == side * side - 4
  {
    CornerOrder(side);
    FourBelow(side * side, side - 1, side * side - side, side * side - 1);
  }

  lemma CornerOrder(side: nat)
    requires side >= 3
    ensures 0 < side - 1 < side * side - side < side * side - 1
  {
    assert side * side >= 3 * side;
  }

  lemma FourBelow(n: nat, a: int, b: int, c: int)
    requires 0 < a < b < c < n
    ensures |Below(n) - {0, a, b, c}| == n - 4
  {
    var four := {0, a, b, c};
    assert |four| == 4;
    SubsetDifference(Below(n), four);
  }

  /** A sound update writes a position that is not a corner. */
  lemma SoundOffCorner(u: Update, side: nat)
    requires ValidSide(side) && Sound(u, side)
    ensures WrapIndex(u.at.x, u.at.y, side) in OffCorner(side)
  {
    SoundMissesCorner(u, side, 0, 0);
    SoundMissesCorner(u, side, side - 1, 0);
    SoundMissesCorner(u, side, 0, side - 1);
    SoundMissesCorner(u, side, side - 1, side - 1);
    CornerIndices(side);
  }

  lemma WrittenWithinOffCorner(side: nat)
    requires ValidSide(side)
    ensures Written(Writes(side), side, |Writes(side)|) <= OffCorner(side)
  {
    var w := Writes(side);
    WritesShape(side);
    forall i | i in Written(w, side, |w|)
      ensures i in OffCorner(side)
    {
      WrittenBy(w, side, |w|, i);
      var k :| 0 <= k < |w| && WrapIndex(w[k].at.x, w[k].at.y, side) == i;
      assert w[k] in w;
      SoundOffCorner(w[k], side);
    }
  }

  /** The writes reach exactly the positions that are not corners. */
  lemma WrittenIsOffCorner(side: nat)
    requires ValidSide(side)
    ensures Written(Writes(side), side, |Writes(side)|) == OffCorner(side)
  {
    var w := Writes(side);
    WritesShape(side);
    WritesDistinct(side);
    WrittenCount(w, side, |w|);
    OffCornerCount(side);
    WrittenWithinOffCorner(side);
    SubsetOfSameSize(Written(w, side, |w|), OffCorner(side));
  }

  /** The position of an in-grid cell that is not a corner is not a corner position. */
  lemma CellOffCorner(x: int, y: int, side: nat)
    requires ValidSide(side) && 0 <= x < side && 0 <= y < side && !IsCorner(Cell(x, y), side)
    ensures y * side + x in OffCorner(side)
  {
    var i := y * side + x;
    CellIndexBound(x, y, side);
    CornerIndices(side);
    if i == 0 {
      IndexInjective(x, y, 0, 0, side);
    } else if i == side - 1 {
      IndexInjective(x, y, side - 1, 0, side);
    } else if i == side * side - side {
      IndexInjective(x, y, 0, side - 1, side);
    } else if i == side * side - 1 {
      IndexInjective(x, y, side - 1, side - 1, side);
    }
  }

  /** build_map writes every cell of the grid except the four corners exactly once
      after setting the corners. */
  lemma WritesCoverOnce(side: nat, x: int, y: int)
    requires ValidSide(side) && 0 <= x < side && 0 <= y < side && !IsCorner(Cell(x, y), side)
    ensures exists j ::
              && 0 <= j < |Writes(side)| && Writes(side)[j].at == Cell(x, y)
              && forall k :: 0 <= k < |Writes(side)| && Writes(side)[k].at == Cell(x, y) ==> k == j
  {
    var w := Writes(side);
    var i := y * side + x;
    CellOffCorner(x, y, side);
    WrittenIsOffCorner(side);
    WrittenBy(w, side, |w|, i);
    var j :| 0 <= j < |w| && WrapIndex(w[j].at.x, w[j].at.y, side) == i;
    WritesShape(side);
    assert w[j] in w;
    InGridIndex(w[j].at.x, w[j].at.y, side);
    IndexInjective(w[j].at.x, w[j].at.y, x, y, side);
    WritesDistinct(side);
  }
}
