/**
 * What build_map computes, as values: the order in which its loops write cells
 * (a list of updates), the grid those writes produce one after another, and the
 * facts about that order the algorithm relies on.
 */
module Schedule {
  import opened Grid

  /** A cell position as the loops compute it (before wrapping). */
  datatype Cell = Cell(x: int, y: int)

  type Pos = n: int | n > 0 witness 1

  /** One write of a diamond or square phase: the cell written, the four cells
      averaged into it, and the step size of the pass it belongs to. */
  datatype Update = Update(step: Pos, at: Cell, n1: Cell, n2: Cell, n3: Cell, n4: Cell)

  /** Diamond step on the square with top-left corner (x, y): its centre from its corners. */
  function DiamondAt(x: int, y: int, step: Pos): (u: Update)
  {
    var half := step / 2;
    Update(step, Cell(x + half, y + half),
           Cell(x, y), Cell(x, y + step), Cell(x + step, y), Cell(x + step, y + step))
  }

  /** Square step at (x, y): the cell from its four neighbours at distance half. */
  function SquareAt(x: int, y: int, step: Pos): (u: Update)
  {
    var half := step / 2;
    Update(step, Cell(x, y),
           Cell(x, y - half), Cell(x + half, y), Cell(x, y + half), Cell(x - half, y))
  }

  /** Inner diamond loop: x from x0 while x < side - 1, by step. */
  function DiamondRow(side: nat, step: Pos, x: nat, y: nat): (ups: seq<Update>)
    decreases side - x
  {
    if x >= side - 1 then [] else [DiamondAt(x, y, step)] + DiamondRow(side, step, x + step, y)
  }

  /** Outer diamond loop: y from y0 while y < side - 1, by step. */
  function DiamondPhase(side: nat, step: Pos, y: nat): (ups: seq<Update>)
    decreases side - y
  {
    if y >= side - 1 then [] else DiamondRow(side, step, 0, y) + DiamondPhase(side, step, y + step)
  }

  /** Inner square loop: x from x0 while x <= side - 1, by step. */
  function SquareRow(side: nat, step: Pos, x: nat, y: nat): (ups: seq<Update>)
    decreases side - x
  {
    if x > side - 1 then [] else [SquareAt(x, y, step)] + SquareRow(side, step, x + step, y)
  }

  /** Outer square loop: y from y0 while y <= side - 1, by half; each row starts
      at x = (y + half) % step. */
  function SquarePhase(side: nat, step: Pos, y: nat): (ups: seq<Update>)
    requires step > 1
    decreases side - y
  {
    if y > side - 1 then []
    else SquareRow(side, step, (y + step / 2) % step, y) + SquarePhase(side, step, y + step / 2)
  }

  /** One pass of the while loop at a given step size. */
  function Pass(side: nat, step: Pos): (ups: seq<Update>)
    requires step > 1
  {
    DiamondPhase(side, step, 0) + SquarePhase(side, step, 0)
  }

  /** The passes of the while loop from step size `step` on: while step > 1, halve it. */
  function PassesFrom(side: nat, step: nat): (ups: seq<Update>)
    decreases step
  {
    if step <= 1 then [] else Pass(side, step) + PassesFrom(side, step / 2)
  }

  /** Every write build_map performs after the corners, in the order it performs them. */
  function Writes(side: nat): (ups: seq<Update>)
    requires side >= 1
  {
    PassesFrom(side, side - 1)
  }

  /** The step sizes the while loop runs with, starting from `step`. */
  function Steps(step: nat): (steps: seq<Pos>)
    decreases step
  {
    if step <= 1 then [] else [step] + Steps(step / 2)
  }

  /** Starting from 2^f, the loop runs exactly f passes, with step sizes
      2^f, 2^(f-1), ..., 2: every step is an even power of two, so halving is exact. */
  lemma {:induction false} StepsFromPow2(f: nat)
    ensures |Steps(Pow2(f))| == f
    ensures forall i :: 0 <= i < f ==> Steps(Pow2(f))[i] == Pow2(f - i) == 2 * Pow2(f - i - 1)
  {
    if f > 0 {
      StepsFromPow2(f - 1);
      assert Pow2(f) / 2 == Pow2(f - 1);
      forall i | 0 < i < f
        ensures Steps(Pow2(f))[i] == Steps(Pow2(f - 1))[i - 1]
      {
      }
    }
  }

  /** The passes run one after another, one per step size. */
  function PassesOver(side: nat, steps: seq<Pos>): (ups: seq<Update>)
    requires forall i :: 0 <= i < |steps| ==> steps[i] > 1
  {
    if steps == [] then [] else Pass(side, steps[0]) + PassesOver(side, steps[1..])
  }

  /** The writes from a step on are one pass for each step size the loop runs with. */
  lemma {:induction false} PassesFromOverSteps(side: nat, step: nat)
    ensures forall i :: 0 <= i < |Steps(step)| ==> Steps(step)[i] > 1
    ensures PassesFrom(side, step) == PassesOver(side, Steps(step))
    decreases step
  {
    if step > 1 {
      PassesFromOverSteps(side, step / 2);
      var steps := Steps(step);
      assert steps == [step] + Steps(step / 2);
      assert steps[1..] == Steps(step / 2);
    }
  }

  // ---------------------------------------------------------------------------
  // The grid the writes produce.

  /** The value at a (wrapped) cell of a side * side grid. */
  function CellValue(g: seq<real>, c: Cell, side: nat): (v: real)
    requires 0 < side < 0x1_0000_0000 && |g| == side * side
  {
    g[WrapIndex(c.x, c.y, side)]
  }

  /** The value an update writes: the four neighbours and the perturbed draw, averaged.
      The perturbation (draw * scale * 2) / scale, scale = offset * step, is 2 * draw:
      the scale cancels, so neither the offset nor the step enters here. */
  function NewValue(g: seq<real>, u: Update, side: nat, draw: real): (v: real)
    requires 0 < side < 0x1_0000_0000 && |g| == side * side
  {
    (CellValue(g, u.n1, side) + CellValue(g, u.n2, side) + CellValue(g, u.n3, side)
      + CellValue(g, u.n4, side) + 2.0 * draw) / 5.0
  }

  /** Where build_map stands: the map so far and the number of rand() calls made
      since srand, which is the index of the next draw. */
  datatype State = State(grid: seq<real>, next: nat)

  /** The map of a state holds side * side cells. */
  predicate Fits(s: State, side: nat)
  {
    0 < side < 0x1_0000_0000 && |s.grid| == side * side
  }

  /** Performs one update: the written cell gets the average built from the next draw,
      and that draw is consumed. */
  function Step(s: State, u: Update, side: nat, draws: nat -> real): (r: State)
    requires Fits(s, side)
    ensures Fits(r, side)
  {
    State(s.grid[WrapIndex(u.at.x, u.at.y, side) := NewValue(s.grid, u, side, draws(s.next))],
          s.next + 1)
  }

  /** Performs the updates in order. */
  function Run(s: State, ups: seq<Update>, side: nat, draws: nat -> real): (r: State)
    requires Fits(s, side)
    ensures Fits(r, side)
    decreases |ups|
  {
    if ups == [] then s else Run(Step(s, ups[0], side, draws), ups[1..], side, draws)
  }

  /** The zero-filled grid with its four corners set from draws 0..3 divided by offset. */
  function Seeded(side: nat, offset: real, draws: nat -> real): (g: seq<real>)
    requires side >= 1 && offset != 0.0
    ensures |g| == side * side
  {
    var z := seq(side * side, _ => 0.0);
    z[0 := draws(0) / offset]
     [side - 1 := draws(1) / offset]
     [side * side - side := draws(2) / offset]
     [side * side - 1 := draws(3) / offset]
  }

  /** The state after the corners: the seeded grid, four draws consumed. */
  function Start(side: nat, offset: real, draws: nat -> real): (s: State)
    requires 0 < side < 0x1_0000_0000 && offset != 0.0
    ensures Fits(s, side) && s.next == 4
  {
    State(Seeded(side, offset, draws), 4)
  }

  /** The map build_map leaves, from the side, the offset and the draw sequence. */
  function Build(side: nat, offset: real, draws: nat -> real): (g: seq<real>)
    requires 0 < side < 0x1_0000_0000 && offset != 0.0
    ensures |g| == side * side
  {
    Run(Start(side, offset, draws), Writes(side), side, draws).grid
  }

  // ---------------------------------------------------------------------------
  // Facts about Run.

  /** Each update consumes exactly one draw. */
  lemma {:induction false} RunConsumesOneDrawEach(s: State, ups: seq<Update>, side: nat,
                                                  draws: nat -> real)
    requires Fits(s, side)
    ensures Run(s, ups, side, draws).next == s.next + |ups|
    decreases |ups|
  {
    if ups != [] {
      RunConsumesOneDrawEach(Step(s, ups[0], side, draws), ups[1..], side, draws);
    }
  }

  /** Running A then B is running A + B. */
  lemma {:induction false} RunAppend(s: State, a: seq<Update>, b: seq<Update>, side: nat,
                                     draws: nat -> real)
    requires Fits(s, side)
    ensures Run(s, a + b, side, draws) == Run(Run(s, a, side, draws), b, side, draws)
    decreases |a|
  {
    if a != [] {
      assert (a + b)[0] == a[0];
      assert (a + b)[1..] == a[1..] + b;
      RunAppend(Step(s, a[0], side, draws), a[1..], b, side, draws);
    } else {
      assert a + b == b;
    }
  }

  /** Running u first: the write of u, then the rest. */
  lemma RunCons(s: State, u: Update, rest: seq<Update>, side: nat, draws: nat -> real)
    requires Fits(s, side)
    ensures Run(s, [u] + rest, side, draws) == Run(Step(s, u, side, draws), rest, side, draws)
  {
    assert ([u] + rest)[0] == u;
    assert ([u] + rest)[1..] == rest;
  }

  /** A cell no update targets keeps its value. */
  lemma {:induction false} RunKeeps(s: State, ups: seq<Update>, side: nat,
                                    draws: nat -> real, i: nat)
    requires Fits(s, side) && i < |s.grid|
    requires forall j :: 0 <= j < |ups| ==> WrapIndex(ups[j].at.x, ups[j].at.y, side) != i
    ensures Run(s, ups, side, draws).grid[i] == s.grid[i]
    decreases |ups|
  {
    if ups != [] {
      var s' := Step(s, ups[0], side, draws);
      assert WrapIndex(ups[0].at.x, ups[0].at.y, side) != i;
      forall j | 0 <= j < |ups[1..]|
        ensures WrapIndex(ups[1..][j].at.x, ups[1..][j].at.y, side) != i
      {
        assert ups[1..][j] == ups[j + 1];
      }
      RunKeeps(s', ups[1..], side, draws, i);
    }
  }

  /** Run reads only the draws it consumes: s.next .. s.next + |ups| - 1. */
  lemma {:induction false} RunUsesItsDraws(s: State, ups: seq<Update>, side: nat,
                                           d1: nat -> real, d2: nat -> real)
    requires Fits(s, side)
    requires forall j :: s.next <= j < s.next + |ups| ==> d1(j) == d2(j)
    ensures Run(s, ups, side, d1) == Run(s, ups, side, d2)
    decreases |ups|
  {
    if ups != [] {
      assert d1(s.next) == d2(s.next);
      RunUsesItsDraws(Step(s, ups[0], side, d1), ups[1..], side, d1, d2);
    }
  }

  // ---------------------------------------------------------------------------
  // The loops of build_map as recursion on the state, one function per loop, and
  // their agreement with Run over the list of writes.

  /** Inner diamond loop on the state: a write at each x from x0 while x < side - 1. */
  function DiamondRowRun(s: State, side: nat, t: Pos, x: nat, y: nat, draws: nat -> real): (r: State)
    requires Fits(s, side)
    ensures Fits(r, side)
    decreases side - x
  {
    if x >= side - 1 then s
    else DiamondRowRun(Step(s, DiamondAt(x, y, t), side, draws), side, t, x + t, y, draws)
  }

  /** Outer diamond loop on the state: a diamond row at each y from y0 while y < side - 1. */
  function DiamondPhaseRun(s: State, side: nat, t: Pos, y: nat, draws: nat -> real): (r: State)
    requires Fits(s, side)
    ensures Fits(r, side)
    decreases side - y
  {
    if y >= side - 1 then s
    else DiamondPhaseRun(DiamondRowRun(s, side, t, 0, y, draws), side, t, y + t, draws)
  }

  /** Inner square loop on the state: a write at each x from x0 while x <= side - 1. */
  function SquareRowRun(s: State, side: nat, t: Pos, x: nat, y: nat, draws: nat -> real): (r: State)
    requires Fits(s, side)
    ensures Fits(r, side)
    decreases side - x
  {
    if x > side - 1 then s
    else SquareRowRun(Step(s, SquareAt(x, y, t), side, draws), side, t, x + t, y, draws)
  }

  /** Outer square loop on the state: a square row at each y from y0 while y <= side - 1,
      starting at x = (y + half) % step. */
  function SquarePhaseRun(s: State, side: nat, t: Pos, y: nat, draws: nat -> real): (r: State)
    requires Fits(s, side) && t > 1
    ensures Fits(r, side)
    decreases side - y
  {
    if y > side - 1 then s
    else SquarePhaseRun(SquareRowRun(s, side, t, (y + t / 2) % t, y, draws), side, t, y + t / 2, draws)
  }

  /** One pass of the while loop on the state: the diamond phase, then the square phase. */
  function PassRun(s: State, side: nat, t: nat, draws: nat -> real): (r: State)
    requires Fits(s, side) && t > 1
    ensures Fits(r, side)
  {
    SquarePhaseRun(DiamondPhaseRun(s, side, t, 0, draws), side, t, 0, draws)
  }

  /** The while loop on the state: a pass for step t, then the passes from t / 2. */
  function PassesRun(s: State, side: nat, t: nat, draws: nat -> real): (r: State)
    requires Fits(s, side)
    ensures Fits(r, side)
    decreases t
  {
    if t <= 1 then s else PassesRun(PassRun(s, side, t, draws), side, t / 2, draws)
  }

  /** r is the state the passes from step t leave behind when started in s. */
  ghost predicate PassesReach(s: State, side: nat, t: nat, draws: nat -> real, r: State)
  {
    Fits(s, side) && r == PassesRun(s, side, t, draws)
  }

  lemma {:induction false} DiamondRowRunIsRun(s: State, side: nat, t: Pos, x: nat, y: nat,
                                              draws: nat -> real)
    requires Fits(s, side)
    ensures DiamondRowRun(s, side, t, x, y, draws) == Run(s, DiamondRow(side, t, x, y), side, draws)
    decreases side - x
  {
    if x < side - 1 {
      var u := DiamondAt(x, y, t);
      RunCons(s, u, DiamondRow(side, t, x + t, y), side, draws);
      DiamondRowRunIsRun(Step(s, u, side, draws), side, t, x + t, y, draws);
    }
  }

  lemma {:induction false} DiamondPhaseRunIsRun(s: State, side: nat, t: Pos, y: nat,
                                                draws: nat -> real)
    requires Fits(s, side)
    ensures DiamondPhaseRun(s, side, t, y, draws) == Run(s, DiamondPhase(side, t, y), side, draws)
    decreases side - y
  {
    if y < side - 1 {
      var row, rest := DiamondRow(side, t, 0, y), DiamondPhase(side, t, y + t);
      var s1 := DiamondRowRun(s, side, t, 0, y, draws);
      assert s1 == Run(s, row, side, draws) by {
        DiamondRowRunIsRun(s, side, t, 0, y, draws);
      }
      DiamondPhaseRunIsRun(s1, side, t, y + t, draws);
      RunAppend(s, row, rest, side, draws);
    }
  }

  lemma {:induction false} SquareRowRunIsRun(s: State, side: nat, t: Pos, x: nat, y: nat,
                                             draws: nat -> real)
    requires Fits(s, side)
    ensures SquareRowRun(s, side, t, x, y, draws) == Run(s, SquareRow(side, t, x, y), side, draws)
    decreases side - x
  {
    if x <= side - 1 {
      var u := SquareAt(x, y, t);
      RunCons(s, u, SquareRow(side, t, x + t, y), side, draws);
      SquareRowRunIsRun(Step(s, u, side, draws), side, t, x + t, y, draws);
    }
  }

  lemma {:induction false} SquarePhaseRunIsRun(s: State, side: nat, t: Pos, y: nat,
                                               draws: nat -> real)
    requires Fits(s, side) && t > 1
    ensures SquarePhaseRun(s, side, t, y, draws) == Run(s, SquarePhase(side, t, y), side, draws)
    decreases side - y
  {
    if y <= side - 1 {
      var x := (y + t / 2) % t;
      var row, rest := SquareRow(side, t, x, y), SquarePhase(side, t, y + t / 2);
      var s1 := SquareRowRun(s, side, t, x, y, draws);
      assert s1 == Run(s, row, side, draws) by {
        SquareRowRunIsRun(s, side, t, x, y, draws);
      }
      SquarePhaseRunIsRun(s1, side, t, y + t / 2, draws);
      RunAppend(s, row, rest, side, draws);
    }
  }

  /** The while loop of build_map performs exactly the writes of PassesFrom, in order. */
  lemma {:induction false} PassesRunIsRun(s: State, side: nat, t: nat, draws: nat -> real)
    requires Fits(s, side)
    ensures PassesRun(s, side, t, draws) == Run(s, PassesFrom(side, t), side, draws)
    decreases t
  {
    if t > 1 {
      var d, q := DiamondPhase(side, t, 0), SquarePhase(side, t, 0);
      RunAppend(s, d + q, PassesFrom(side, t / 2), side, draws);
      RunAppend(s, d, q, side, draws);
      DiamondPhaseRunIsRun(s, side, t, 0, draws);
      var s1 := DiamondPhaseRun(s, side, t, 0, draws);
      SquarePhaseRunIsRun(s1, side, t, 0, draws);
      PassesRunIsRun(SquarePhaseRun(s1, side, t, 0, draws), side, t / 2, draws);
    }
  }

  /** The built map is what the loops leave after the corners. */
  lemma BuildByLoops(side: nat, offset: real, draws: nat -> real, t: nat, s1: State, s2: State)
    requires 0 < side < 0x1_0000_0000 && offset != 0.0 && t == side - 1
    requires s1 == Start(side, offset, draws)
    requires PassesReach(s1, side, t, draws, s2)
    ensures s2.grid == Build(side, offset, draws)
  {
    var ups := Writes(side);
    assert ups == PassesFrom(side, t);
    assert s2 == Run(s1, ups, side, draws) by {
      PassesRunIsRun(s1, side, t, draws);
    }
  }

  /** All cells in [0, b] for b >= 2 stay there when the draws lie in [0, 1]. */
  lemma {:induction false} RunBounded(s: State, ups: seq<Update>, side: nat,
                                      draws: nat -> real, b: real)
    requires Fits(s, side) && b >= 2.0
    requires forall i :: 0 <= i < |s.grid| ==> 0.0 <= s.grid[i] <= b
    requires forall j :: s.next <= j < s.next + |ups| ==> 0.0 <= draws(j) <= 1.0
    ensures forall i :: 0 <= i < |s.grid| ==> 0.0 <= Run(s, ups, side, draws).grid[i] <= b
    decreases |ups|
  {
    if ups != [] {
      var u, g, d := ups[0], s.grid, draws(s.next);
      var v := NewValue(g, u, side, d);
      assert 0.0 <= d <= 1.0;
      assert 0.0 <= v <= b by {
        var c1, c2 := CellValue(g, u.n1, side), CellValue(g, u.n2, side);
        var c3, c4 := CellValue(g, u.n3, side), CellValue(g, u.n4, side);
        assert 0.0 <= c1 <= b && 0.0 <= c2 <= b && 0.0 <= c3 <= b && 0.0 <= c4 <= b;
        assert v == (c1 + c2 + c3 + c4 + 2.0 * d) / 5.0;
      }
      RunBounded(Step(s, u, side, draws), ups[1..], side, draws, b);
    }
  }

  // ---------------------------------------------------------------------------
  // Facts about the order of writes.

  /** A corner of the grid. */
  predicate IsCorner(c: Cell, side: nat)
  {
    (c.x == 0 || c.x == side - 1) && (c.y == 0 || c.y == side - 1)
  }

  /** A coordinate for which `size_t` wrapping is true modulo (see Grid.SizeTIndexAgrees). */
  predicate InWrapRange(c: Cell, side: nat)
  {
    -(side as int) <= c.x <= 2 * side && -(side as int) <= c.y <= 2 * side
  }

  /** An update that writes an in-grid, non-corner cell and reads only cells where
      wrapping is true modulo. */
  predicate Sound(u: Update, side: nat)
  {
    && 0 <= u.at.x < side && 0 <= u.at.y < side && !IsCorner(u.at, side)
    && InWrapRange(u.n1, side) && InWrapRange(u.n2, side)
    && InWrapRange(u.n3, side) && InWrapRange(u.n4, side)
  }

  predicate AllSound(ups: seq<Update>, side: nat)
  {
    forall u | u in ups :: Sound(u, side)
  }

  lemma MulLess(i: int, n: int, t: int)
    requires 0 <= i < n && t > 0
    ensures i * t + t <= n * t
  {
    var a := n - i - 1;
    assert n * t == i * t + t + a * t;
    assert a * t >= 0;
  }

  /** A diamond step whose square lies inside the grid writes an interior cell. */
  lemma DiamondAtSound(x: nat, y: nat, t: Pos, side: nat)
    requires t >= 2 && x + t <= side - 1 && y + t <= side - 1
    ensures Sound(DiamondAt(x, y, t), side)
  {
  }

  /** Diamond row at y = j * step, from column i * step: n - i centres, all interior. */
  lemma {:induction false} DiamondRowShape(side: nat, t: Pos, n: nat, i: nat, j: nat)
    requires t >= 2 && side - 1 == n * t && i <= n && j < n
    ensures |DiamondRow(side, t, i * t, j * t)| == n - i
    ensures AllSound(DiamondRow(side, t, i * t, j * t), side)
    decreases n - i
  {
    if i < n {
      var x, y := i * t, j * t;
      MulLess(i, n, t);
      MulLess(j, n, t);
      assert (i + 1) * t == x + t;
      DiamondAtSound(x, y, t, side);
      DiamondRowShape(side, t, n, i + 1, j);
      assert DiamondRow(side, t, x, y) == [DiamondAt(x, y, t)] + DiamondRow(side, t, x + t, y);
    }
  }

  /** Diamond phase from row j * step: (n - j) rows of n centres. */
  lemma {:induction false} DiamondPhaseShape(side: nat, t: Pos, n: nat, j: nat)
    requires t >= 2 && side - 1 == n * t && j <= n
    ensures |DiamondPhase(side, t, j * t)| == (n - j) * n
    ensures AllSound(DiamondPhase(side, t, j * t), side)
    decreases n - j
  {
    if j < n {
      MulLess(j, n, t);
      assert (j + 1) * t == j * t + t;
      DiamondRowShape(side, t, n, 0, j);
      DiamondPhaseShape(side, t, n, j + 1);
      assert (n - j) * n == n + (n - j - 1) * n;
    }
  }

  lemma SquareAtSound(x: int, y: int, t: Pos, side: nat)
    requires 2 <= t <= side - 1
    requires 0 <= x <= side - 1 && 0 <= y <= side - 1
    requires 0 < x < side - 1 || 0 < y < side - 1
    ensures Sound(SquareAt(x, y, t), side)
  {
  }

  /** The column arithmetic of SquareRowShape: inside the row while i < last, past
      its end at i = last. */
  lemma SquareColumn(side: nat, t: Pos, n: nat, off: nat, i: nat, y: nat)
    requires t >= 2 && n >= 1 && side - 1 == n * t
    requires off == t / 2 || (off == 0 && 0 < y < side - 1)
    requires y <= side - 1
    requires i <= (if off == 0 then n + 1 else n)
    ensures (i + 1) * t + off == i * t + off + t
    ensures i < (if off == 0 then n + 1 else n) ==>
              t <= side - 1 && i * t + off <= side - 1
              && (0 < i * t + off < side - 1 || 0 < y < side - 1)
    ensures i == (if off == 0 then n + 1 else n) ==> i * t + off > side - 1
  {
    MulLess(0, n, t);
    if i < n {
      MulLess(i, n, t);
    }
    if i == n + 1 {
      assert i * t == n * t + t;
    }
  }

  /** Square row at y from column i * step + off (off is 0 or half): every cell of the
      row from there. With off = half the cells are interior columns; with off = 0 the
      row itself must be an interior row. */
  lemma {:induction false} SquareRowShape(side: nat, t: Pos, n: nat, off: nat, i: nat, y: nat)
    requires t >= 2 && n >= 1 && side - 1 == n * t
    requires off == t / 2 || (off == 0 && 0 < y < side - 1)
    requires y <= side - 1
    requires i <= (if off == 0 then n + 1 else n)
    ensures |SquareRow(side, t, i * t + off, y)| == (if off == 0 then n + 1 else n) - i
    ensures AllSound(SquareRow(side, t, i * t + off, y), side)
    decreases n + 1 - i
  {
    var x := i * t + off;
    SquareColumn(side, t, n, off, i, y);
    if i < (if off == 0 then n + 1 else n) {
      SquareAtSound(x, y, t, side);
      SquareRowShape(side, t, n, off, i + 1, y);
      assert SquareRow(side, t, x, y) == [SquareAt(x, y, t)] + SquareRow(side, t, x + t, y);
    } else {
      assert SquareRow(side, t, x, y) == [];
    }
  }

  /** Square phase from row j * step: the remaining n - j pairs of an even row (n cells,
      starting at half) and an odd row (n + 1 cells, starting at 0), then the last row. */
  lemma {:induction false} SquarePhaseShape(side: nat, t: Pos, n: nat, j: nat)
    requires t >= 2 && t % 2 == 0 && n >= 1 && side - 1 == n * t && j <= n
    ensures |SquarePhase(side, t, j * t)| == (n - j) * (2 * n + 1) + n
    ensures AllSound(SquarePhase(side, t, j * t), side)
    decreases n - j
  {
    var row := SquareRow(side, t, t / 2, j * t);
    assert |row| == n && AllSound(row, side) by {
      HalfRowShape(side, t, n, j);
    }
    if j < n {
      var row' := SquareRow(side, t, 0, j * t + t / 2);
      var rest := SquarePhase(side, t, (j + 1) * t);
      assert SquarePhase(side, t, j * t) == row + (row' + rest) by {
        SquarePairRows(side, t, n, j);
      }
      assert |row'| == n + 1 && AllSound(row', side) by {
        FullRowShape(side, t, n, j);
      }
      assert |rest| == (n - (j + 1)) * (2 * n + 1) + n && AllSound(rest, side) by {
        SquarePhaseShape(side, t, n, j + 1);
      }
      assert |SquarePhase(side, t, j * t)| == (n - j) * (2 * n + 1) + n by {
        assert |row + (row' + rest)| == |row| + (|row'| + |rest|);
        SquareCount(n, j, |rest|);
      }
      AllSoundAppend(row', rest, side);
      AllSoundAppend(row, row' + rest, side);
    } else {
      SquareLastRow(side, t, n);
      assert (n - j) * (2 * n + 1) == 0;
    }
  }

  /** Row j * step of the square phase, from column half: n sound writes. */
  lemma HalfRowShape(side: nat, t: Pos, n: nat, j: nat)
    requires t >= 2 && t % 2 == 0 && n >= 1 && side - 1 == n * t && j <= n
    ensures |SquareRow(side, t, t / 2, j * t)| == n
    ensures AllSound(SquareRow(side, t, t / 2, j * t), side)
  {
    if j < n {
      MulLess(j, n, t);
    }
    SquareRowShape(side, t, n, t / 2, 0, j * t);
    assert 0 * t + t / 2 == t / 2;
  }

  /** Row j * step + half of the square phase, from column 0: n + 1 sound writes. */
  lemma FullRowShape(side: nat, t: Pos, n: nat, j: nat)
    requires t >= 2 && t % 2 == 0 && n >= 1 && side - 1 == n * t && j < n
    ensures |SquareRow(side, t, 0, j * t + t / 2)| == n + 1
    ensures AllSound(SquareRow(side, t, 0, j * t + t / 2), side)
  {
    MulLess(j, n, t);
    SquareRowShape(side, t, n, 0, 0, j * t + t / 2);
    assert 0 * t + 0 == 0;
  }

  lemma SquareCount(n: int, j: int, len: int)
    requires len == (n - (j + 1)) * (2 * n + 1) + n
    ensures n + (n + 1) + len == (n - j) * (2 * n + 1) + n
  {
  }

  /** Rows j * step and j * step + half of the square phase: the first starts at column
      half, the second at column 0. */
  lemma SquarePairRows(side: nat, t: Pos, n: nat, j: nat)
    requires t >= 2 && t % 2 == 0 && side - 1 == n * t && j < n
    ensures SquarePhase(side, t, j * t)
         == SquareRow(side, t, t / 2, j * t)
          + (SquareRow(side, t, 0, j * t + t / 2) + SquarePhase(side, t, (j + 1) * t))
  {
    var h := t / 2;
    var y := j * t;
    MulLess(j, n, t);
    ModOfMultiplePlus(j, t, h);
    ModOfMultiplePlus(j + 1, t, 0);
    assert y + h + h == (j + 1) * t;
  }

  /** The last row of the square phase, y = side - 1, starts at column half. */
  lemma SquareLastRow(side: nat, t: Pos, n: nat)
    requires t >= 2 && t % 2 == 0 && side - 1 == n * t
    ensures SquarePhase(side, t, n * t) == SquareRow(side, t, t / 2, n * t)
  {
    var h := t / 2;
    ModOfMultiplePlus(n, t, h);
    assert SquarePhase(side, t, n * t + h) == [];
    assert SquareRow(side, t, h, n * t) + [] == SquareRow(side, t, h, n * t);
  }

  lemma AllSoundAppend(a: seq<Update>, b: seq<Update>, side: nat)
    requires AllSound(a, side) && AllSound(b, side)
    ensures AllSound(a + b, side)
  {
  }

  /** The passes from a power-of-two step t with side - 1 == n * t: every write sound, and
      as many writes as cells outside the (n + 1) x (n + 1) lattice already filled. */
  lemma {:induction false} PassesShape(side: nat, t: nat, n: nat)
    requires side >= 2 && t >= 1 && IsPow2(t) && side - 1 == n * t
    ensures |PassesFrom(side, t)| == side * side - (n + 1) * (n + 1)
    ensures AllSound(PassesFrom(side, t), side)
    decreases t
  {
    if t > 1 {
      var h := t / 2;
      assert t % 2 == 0 && IsPow2(h);
      assert t == 2 * h;
      assert n >= 1;
      assert side - 1 == (2 * n) * h by {
        assert n * t == n * (2 * h) == (2 * n) * h;
      }
      DiamondPhaseShape(side, t, n, 0);
      SquarePhaseShape(side, t, n, 0);
      assert 0 * t == 0;
      var d := |DiamondPhase(side, t, 0)|;
      var q := |SquarePhase(side, t, 0)|;
      assert d == n * n;
      assert q == n * (2 * n + 1) + n;
      PassesShape(side, h, 2 * n);
      var r := |PassesFrom(side, h)|;
      assert r == side * side - (2 * n + 1) * (2 * n + 1);
      assert |PassesFrom(side, t)| == d + q + r;
      PassCount(n, side * side);
    } else {
      assert side == n + 1;
    }
  }

  lemma PassCount(n: int, s2: int)
    ensures n * n + (n * (2 * n + 1) + n) + (s2 - (2 * n + 1) * (2 * n + 1)) == s2 - (n + 1) * (n + 1)
  {
  }

  /** build_map writes exactly side * side - 4 cells after the corners, each one an
      in-grid non-corner cell, reading only where wrapping is true modulo. */
  lemma WritesShape(side: nat)
    requires ValidSide(side)
    ensures |Writes(side)| == side * side - 4
    ensures AllSound(Writes(side), side)
  {
    PassesShape(side, side - 1, 1);
  }

  // ---------------------------------------------------------------------------
  // Facts about the built map.

  /** A sound update never writes a corner. */
  /** The size_t index of the cell is its wrapped index. */
  predicate SizeTAgrees(c: Cell, side: nat)
    requires 0 < side < SizeMod
  {
    SizeTIndex(ToSizeT(c.x), ToSizeT(c.y), side) == WrapIndex(c.x, c.y, side)
  }

  /** Every cell build_map reads or writes after the corners, passed to get_map_value or
      set_map_value as a size_t, lands on its wrapped index. */
  lemma WritesIndexAsSizeT(side: nat)
    requires ValidSide(side)
    ensures forall u | u in Writes(side) ::
      && SizeTAgrees(u.at, side) && SizeTAgrees(u.n1, side) && SizeTAgrees(u.n2, side)
      && SizeTAgrees(u.n3, side) && SizeTAgrees(u.n4, side)
  {
    WritesShape(side);
    forall u | u in Writes(side)
      ensures && SizeTAgrees(u.at, side) && SizeTAgrees(u.n1, side) && SizeTAgrees(u.n2, side)
              && SizeTAgrees(u.n3, side) && SizeTAgrees(u.n4, side)
    {
      SizeTIndexAgrees(u.at.x, u.at.y, side);
      SizeTIndexAgrees(u.n1.x, u.n1.y, side);
      SizeTIndexAgrees(u.n2.x, u.n2.y, side);
      SizeTIndexAgrees(u.n3.x, u.n3.y, side);
      SizeTIndexAgrees(u.n4.x, u.n4.y, side);
    }
  }

  lemma SoundMissesCorner(u: Update, side: nat, cx: int, cy: int)
    requires 0 < side < 0x1_0000_0000
    requires Sound(u, side) && IsCorner(Cell(cx, cy), side)
    ensures WrapIndex(u.at.x, u.at.y, side) != cy * side + cx
  {
    InGridIndex(u.at.x, u.at.y, side);
    if WrapIndex(u.at.x, u.at.y, side) == cy * side + cx {
      IndexInjective(u.at.x, u.at.y, cx, cy, side);
      assert false;
    }
  }

  /** No write of the schedule targets the corner (cx, cy). */
  lemma WritesMissCorner(side: nat, cx: int, cy: int)
    requires ValidSide(side) && IsCorner(Cell(cx, cy), side)
    ensures forall j :: 0 <= j < |Writes(side)| ==>
              WrapIndex(Writes(side)[j].at.x, Writes(side)[j].at.y, side) != cy * side + cx
  {
    ValidSideShape(side);
    WritesShape(side);
    forall j | 0 <= j < |Writes(side)|
      ensures WrapIndex(Writes(side)[j].at.x, Writes(side)[j].at.y, side) != cy * side + cx
    {
      assert Writes(side)[j] in Writes(side);
      SoundMissesCorner(Writes(side)[j], side, cx, cy);
    }
  }

  /** The seeded grid holds draws 0..3 divided by offset at the four corners. */
  lemma SeededCorners(side: nat, offset: real, draws: nat -> real)
    requires side >= 2 && offset != 0.0
    ensures Seeded(side, offset, draws)[0] == draws(0) / offset
    ensures Seeded(side, offset, draws)[side - 1] == draws(1) / offset
    ensures Seeded(side, offset, draws)[side * side - side] == draws(2) / offset
    ensures Seeded(side, offset, draws)[side * side - 1] == draws(3) / offset
  {
    assert side * side - side > side - 1 by {
      assert side * side >= 2 * side;
    }
  }

  /** A corner of the built map is the corner of the seeded grid. */
  lemma BuildKeepsCorner(side: nat, offset: real, draws: nat -> real, cx: int, cy: int, i: nat)
    requires ValidSide(side) && offset != 0.0 && IsCorner(Cell(cx, cy), side)
    requires i == cy * side + cx
    ensures i < side * side
    ensures Build(side, offset, draws)[i] == Seeded(side, offset, draws)[i]
  {
    ValidSideShape(side);
    CellIndexBound(cx, cy, side);
    WritesMissCorner(side, cx, cy);
    RunKeeps(Start(side, offset, draws), Writes(side), side, draws, i);
  }

  lemma CornerIndices(side: nat)
    ensures 0 * side + 0 == 0
    ensures 0 * side + (side - 1) == side - 1
    ensures (side - 1) * side + 0 == side * side - side
    ensures (side - 1) * side + (side - 1) == side * side - 1
    ensures side >= 2 ==> side - 1 < side * side - side
  {
    if side >= 2 {
      assert side * side >= 2 * side;
    }
  }

  /** At the end, the four corners still hold draws 0, 1, 2 and 3 divided by offset:
      no diamond or square write overwrites them. */
  lemma BuildKeepsCorners(side: nat, offset: real, draws: nat -> real)
    requires ValidSide(side) && offset != 0.0
    ensures 0 < side - 1 < side * side - side < side * side - 1
    ensures Build(side, offset, draws)[0] == draws(0) / offset
    ensures Build(side, offset, draws)[side - 1] == draws(1) / offset
    ensures Build(side, offset, draws)[side * side - side] == draws(2) / offset
    ensures Build(side, offset, draws)[side * side - 1] == draws(3) / offset
  {
    ValidSideShape(side);
    SeededCorners(side, offset, draws);
    CornerIndices(side);
    BuildKeepsCorner(side, offset, draws, 0, 0, 0);
    BuildKeepsCorner(side, offset, draws, side - 1, 0, side - 1);
    BuildKeepsCorner(side, offset, draws, 0, side - 1, side * side - side);
    BuildKeepsCorner(side, offset, draws, side - 1, side - 1, side * side - 1);
  }

  /** The map depends on draws 0 .. side * side - 1 only: one draw per corner and one per
      later write, so two draw sequences that agree there build the same map. */
  lemma BuildUsesFirstDraws(side: nat, offset: real, d1: nat -> real, d2: nat -> real)
    requires ValidSide(side) && offset != 0.0
    requires forall j :: 0 <= j < side * side ==> d1(j) == d2(j)
    ensures Build(side, offset, d1) == Build(side, offset, d2)
  {
    ValidSideShape(side);
    WritesShape(side);
    assert 4 + |Writes(side)| == side * side;
    assert d1(0) == d2(0) && d1(1) == d2(1) && d1(2) == d2(2) && d1(3) == d2(3);
    assert Start(side, offset, d1) == Start(side, offset, d2);
    RunUsesItsDraws(Start(side, offset, d1), Writes(side), side, d1, d2);
  }

  function Max(a: real, b: real): (m: real)
  {
    if a < b then b else a
  }

  /** The seeded grid lies in [0, max(1 / offset, 2)] when the first four draws lie in [0, 1]. */
  lemma SeededBounded(side: nat, offset: real, draws: nat -> real)
    requires side >= 1 && offset > 0.0
    requires forall j :: 0 <= j < 4 ==> 0.0 <= draws(j) <= 1.0
    ensures forall i :: 0 <= i < side * side ==>
              0.0 <= Seeded(side, offset, draws)[i] <= Max(1.0 / offset, 2.0)
  {
    var b := Max(1.0 / offset, 2.0);
    DrawOverOffsetBounded(draws(0), offset);
    DrawOverOffsetBounded(draws(1), offset);
    DrawOverOffsetBounded(draws(2), offset);
    DrawOverOffsetBounded(draws(3), offset);
    ZerosWithFourSetBounded(side * side, 0, side - 1, side * side - side, side * side - 1,
      draws(0) / offset, draws(1) / offset, draws(2) / offset, draws(3) / offset, b,
      Seeded(side, offset, draws));
  }

  lemma DrawOverOffsetBounded(u: real, offset: real)
    requires offset > 0.0 && 0.0 <= u <= 1.0
    ensures 0.0 <= u / offset <= Max(1.0 / offset, 2.0)
  {
    assert u / offset <= 1.0 / offset;
  }

  lemma ZerosWithFourSetBounded(n: nat, p0: nat, p1: nat, p2: nat, p3: nat,
                                v0: real, v1: real, v2: real, v3: real, b: real, s: seq<real>)
    requires p0 < n && p1 < n && p2 < n && p3 < n && b >= 0.0
    requires 0.0 <= v0 <= b && 0.0 <= v1 <= b && 0.0 <= v2 <= b && 0.0 <= v3 <= b
    requires s == seq(n, _ => 0.0)[p0 := v0][p1 := v1][p2 := v2][p3 := v3]
    ensures forall i :: 0 <= i < |s| ==> 0.0 <= s[i] <= b
  {
  }

  /** With a positive offset and draws in [0, 1], every height lies in
      [0, max(1 / offset, 2)]: the perturbation 2u does not shrink with the offset. */
  lemma BuildBounded(side: nat, offset: real, draws: nat -> real)
    requires ValidSide(side) && offset > 0.0
    requires forall j :: 0 <= j < side * side ==> 0.0 <= draws(j) <= 1.0
    ensures forall i :: 0 <= i < side * side ==>
              0.0 <= Build(side, offset, draws)[i] <= Max(1.0 / offset, 2.0)
  {
    ValidSideShape(side);
    WritesShape(side);
    var w := Writes(side);
    assert 4 + |w| == side * side;
    SeededBounded(side, offset, draws);
    RunBounded(Start(side, offset, draws), w, side, draws, Max(1.0 / offset, 2.0));
  }

  /** The first pass first writes the centre, then the midpoint of the top edge. */
  lemma FirstWrites(side: nat)
    requires ValidSide(side)
    ensures |Writes(side)| > 1
    ensures Writes(side)[0] == DiamondAt(0, 0, side - 1)
    ensures Writes(side)[1] == SquareAt((side - 1) / 2, 0, side - 1)
  {
    ValidSideShape(side);
    var t: Pos := side - 1;
    var d := DiamondPhase(side, t, 0);
    var q := SquarePhase(side, t, 0);
    FirstDiamond(side, t);
    FirstSquare(side, t);
    assert Writes(side) == (d + q) + PassesFrom(side, t / 2);
    assert (d + q)[0] == d[0] && (d + q)[1] == q[0];
  }

  /** The diamond phase at the first step (side - 1) writes only the centre. */
  lemma FirstDiamond(side: nat, t: Pos)
    requires t == side - 1 && t >= 2
    ensures DiamondPhase(side, t, 0) == [DiamondAt(0, 0, t)]
  {
    var d := [DiamondAt(0, 0, t)];
    assert DiamondRow(side, t, 0, 0) == d + DiamondRow(side, t, t, 0) == d;
    assert DiamondPhase(side, t, 0) == d + DiamondPhase(side, t, t) == d;
  }

  /** The square phase at the first step (side - 1) begins with the top edge midpoint. */
  lemma FirstSquare(side: nat, t: Pos)
    requires t == side - 1 && t >= 2 && t % 2 == 0
    ensures |SquarePhase(side, t, 0)| > 0 && SquarePhase(side, t, 0)[0] == SquareAt(t / 2, 0, t)
  {
    var h := t / 2;
    SquarePairRows(side, t, 1, 0);
    assert 0 * t == 0;
    var row := SquareRow(side, t, h, 0);
    assert row == [SquareAt(h, 0, t)] + SquareRow(side, t, h + t, 0);
  }

  /** The wrap period is side, not side - 1. The first square-phase write, at the top
      edge midpoint (h, 0) with h = (side - 1) / 2, reads its upper neighbour (h, -h)
      from row h + 1, a cell no write has filled yet (it still holds the zero fill),
      where a period of side - 1 would give the diamond centre (h, h). */
  lemma SquareEdgeReadWrapsOffLattice(side: nat, h: nat, offset: real, draws: nat -> real)
    requires ValidSide(side) && side == 2 * h + 1 && offset != 0.0
    ensures 5 <= side <= 4097 && |Writes(side)| > 1
    ensures Writes(side)[1] == SquareAt(h, 0, side - 1) && Writes(side)[1].n1 == Cell(h, -(h as int))
    ensures (-(h as int)) % (side - 1) == h
    ensures WrapIndex(h, -(h as int), side) == (h + 1) * side + h < side * side
    ensures Run(Start(side, offset, draws), Writes(side)[..1], side, draws).grid[(h + 1) * side + h] == 0.0
  {
    ValidSideShape(side);
    FirstWrites(side);
    var t := side - 1;
    WrapCoordIsTrueModulo(-(h as int), side);
    ModOfMultiplePlus(-1, side, h + 1);
    ModOfMultiplePlus(-1, t, h);
    InGridCoord(h, side);
    assert WrapIndex(h, -(h as int), side) == (h + 1) * side + h;
    var i := (h + 1) * side + h;
    CellIndexBound(h, h + 1, side);
    var w := Writes(side)[..1];
    assert w == [DiamondAt(0, 0, t)];
    assert w[0].at == Cell(h, h);
    InGridIndex(h, h, side);
    if h * side + h == i {
      IndexInjective(h, h, h, h + 1, side);
      assert false;
    }
    RunKeeps(Start(side, offset, draws), w, side, draws, i);
    SeededOffCornerZero(side, offset, draws, h, h + 1, i);
  }

  /** A cell off the corners of the seeded grid holds the zero fill. */
  lemma SeededOffCornerZero(side: nat, offset: real, draws: nat -> real, x: int, y: int, i: nat)
    requires 2 <= side < 0x1_0000_0000 && offset != 0.0
    requires 0 <= x < side && 0 <= y < side && !IsCorner(Cell(x, y), side)
    requires i == y * side + x
    ensures i < side * side && Seeded(side, offset, draws)[i] == 0.0
  {
    CellIndexBound(x, y, side);
    CornerIndices(side);
    var n := side * side;
    if i == 0 {
      IndexInjective(x, y, 0, 0, side);
    } else if i == side - 1 {
      IndexInjective(x, y, side - 1, 0, side);
    } else if i == n - side {
      IndexInjective(x, y, 0, side - 1, side);
    } else if i == n - 1 {
      IndexInjective(x, y, side - 1, side - 1, side);
    }
  }
}
