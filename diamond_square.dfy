/**
 * The diamond_square class of namespace wtf: a height-map generator that owns a
 * side * side row-major grid and fills it in place with the diamond-square algorithm.
 */
module Wtf {
  import opened Grid
  import opened Schedule

  /** A value of the source's `uint32_t` seed. */
  type Seed = n: int | 0 <= n < 0x1_0000_0000

  /** std::srand / std::rand as a value: rand(s, k) is `rand() / RAND_MAX` for the k-th
      call of rand after srand(s). Being a quotient by RAND_MAX it may equal 1. */
  type RandomSource = (Seed, nat) -> real

  /** The draws build_map sees after seeding the source with `seed`. */
  function DrawsAfter(rand: RandomSource, seed: Seed): (draws: nat -> real)
  {
    (k: nat) => rand(seed, k)
  }

  /** Every draw of the source lies in [0, 1]. */
  ghost predicate InUnitInterval(rand: RandomSource)
  {
    forall s: Seed, k: nat :: 0.0 <= rand(s, k) <= 1.0
  }

  /** `(u * scale * 2) / scale`, the perturbation of a draw u: the scale cancels. */
  method Perturb(u: real, scale: real) returns (p: real)
    requires scale != 0.0
    ensures p == 2.0 * u
  {
    p := (u * scale * 2.0) / scale;
  }

  datatype Error = OutOfRange

  datatype Result<T> = Ok(value: T) | Err(error: Error)

  class DiamondSquare {
    /** The height map (_hmap): empty until the first build. */
    var hmap: seq<real>
    /** Width and height of the map (_map_side). */
    var side: nat
    /** The offset build_map divides by: map_offset, a reference the constructor binds
        to its own offset argument, so it keeps the value given at construction. */
    var offset: real
    /** The offset set_offset stores (_map_offset); nothing reads it. */
    var storedOffset: real
    /** The seed build_map gives to srand (_map_seed). */
    var seed: Seed

    /** The side comes from a factor in range, and the grid is either never built or
        holds side * side cells. */
    ghost predicate Valid()
      reads this
    {
      ValidSide(side) && (hmap == [] || |hmap| == side * side)
    }

    /** The grid holds side * side cells (true once build_map has run). */
    ghost predicate Built()
      reads this
    {
      0 < side <= 4097 && |hmap| == side * side
    }

    /** diamond_square(factor, offset, seed). The constructor without a seed takes the
        current time as the seed; here the seed is always given. The grid is not sized:
        it stays empty until the first build. */
    constructor (factor: nat, offset: real, seed: Seed)
      ensures Valid()
      ensures side == Pow2(Clamp(factor)) + 1
      ensures this.offset == offset && this.seed == seed
      ensures hmap == []
    {
      this.offset := offset;
      this.seed := seed;
      side := 0;
      hmap := [];
      new;
      Initialize(factor);
    }

    /** Clamps the factor into [MinSize, MaxSize] and sets side = 2^factor + 1. */
    method Initialize(factor: nat)
      modifies this`side
      ensures side == SideOf(factor)
      ensures ValidSide(side)
    {
      var f := factor;
      if f < MinSize {
        f := MinSize;
      }
      if f > MaxSize {
        f := MaxSize;
      }
      side := Pow2(f) + 1;
    }

    /** get_map / operator*: the whole grid, row-major; each of its cells is what
        get_value returns for that position. */
    function GetMap(): (m: seq<real>)
      reads this
      requires Valid()
      ensures |m| == 0 || |m| == side * side
      ensures forall i :: 0 <= i < |m| ==> GetValue(i) == Ok(m[i])
      ensures forall i: nat :: i >= |m| ==> GetValue(i) == Err(OutOfRange)
    {
      hmap
    }

    /** get_value / operator[]: one cell, or OutOfRange when pos is past the grid. */
    function GetValue(pos: nat): (r: Result<real>)
      reads this
      ensures r.Err? <==> pos >= |hmap|
      ensures r.Err? ==> r.error == OutOfRange
      ensures r.Ok? ==> r.value == hmap[pos]
    {
      if pos >= |hmap| then Err(OutOfRange) else Ok(hmap[pos])
    }

    /** set_seed: changes the seed and nothing else. */
    method SetSeed(seed: Seed)
      modifies this`seed
      ensures this.seed == seed
      ensures hmap == old(hmap) && side == old(side) && offset == old(offset)
    {
      this.seed := seed;
    }

    /** set_offset: stores the offset in _map_offset and changes nothing else; in
        particular not the offset build_map divides by (see SetOffsetThenBuild). */
    method SetOffset(offset: real)
      modifies this`storedOffset
      ensures storedOffset == offset
      ensures hmap == old(hmap) && side == old(side) && seed == old(seed)
      ensures this.offset == old(this.offset)
    {
      storedOffset := offset;
    }

    /** What set_offset is evidently meant to do: change the offset the next build
        divides by (see IntendedOffsetReachesBuild). */
    method SetBuildOffset(offset: real)
      modifies this`offset
      ensures this.offset == offset
      ensures hmap == old(hmap) && side == old(side) && seed == old(seed)
    {
      this.offset := offset;
    }

    /** get_map_value: the cell at (x, y) through the wrapped index
        ((y + side) % side) * side + (x + side) % side. */
    function GetMapValue(x: int, y: int): (v: real)
      reads this
      requires Built()
    {
      CellValue(hmap, Cell(x, y), side)
    }

    /** set_map_value: writes the cell at (x, y) through the wrapped index. */
    method SetMapValue(x: int, y: int, value: real)
      requires Built()
      modifies this`hmap
      ensures Built()
      ensures hmap == old(hmap)[WrapIndex(x, y, side) := value]
    {
      hmap := hmap[WrapIndex(x, y, side) := value];
    }

    /** build_map: seeds the source, zero-fills side * side cells, sets the corners from
        four draws divided by offset, then runs the diamond and square phases while the
        step halves from side - 1 down to 1. The map it leaves is Build of the side, the
        offset and the draws after srand(seed); `passes` counts the while loop's passes,
        so side - 1 == 2^passes: the loop runs once per unit of the clamped factor. */
    method BuildMap(rand: RandomSource) returns (ghost passes: nat)
      requires Valid() && offset != 0.0
      modifies this`hmap
      ensures Valid() && |hmap| == side * side
      ensures hmap == Build(side, offset, DrawsAfter(rand, seed))
      ensures Pow2(passes) == side - 1
    {
      var k := SetCorners(rand);
      ghost var s1 := State(hmap, k);
      var t: nat := side - 1;
      k, passes := WritePasses(rand, t, k);
      BuildByLoops(side, offset, DrawsAfter(rand, seed), t, s1, State(hmap, k));
    }

    /** The zero fill and the four corners of build_map; four draws are consumed. */
    method SetCorners(rand: RandomSource) returns (k: nat)
      requires Valid() && offset != 0.0
      modifies this`hmap
      ensures Valid() && Built()
      ensures State(hmap, k) == Start(side, offset, DrawsAfter(rand, seed))
    {
      CornerIndices(side);
      k := 0;
      hmap := seq(side * side, _ => 0.0);
      hmap := hmap[0 := rand(seed, k) / offset];
      k := k + 1;
      hmap := hmap[side - 1 := rand(seed, k) / offset];
      k := k + 1;
      hmap := hmap[side * side - side := rand(seed, k) / offset];
      k := k + 1;
      hmap := hmap[side * side - 1 := rand(seed, k) / offset];
      k := k + 1;
    }

    /** The while loop of build_map from step t0 = side - 1: both phases for the step,
        then the step halves, while it exceeds 1; `passes` counts the passes. */
    method WritePasses(rand: RandomSource, t0: nat, k0: nat) returns (k: nat, ghost passes: nat)
      requires Built() && IsPow2(t0) && offset != 0.0
      modifies this`hmap
      ensures Built()
      ensures PassesReach(State(old(hmap), k0), side, t0, DrawsAfter(rand, seed), State(hmap, k))
      ensures Pow2(passes) == t0 && passes == |Steps(t0)|
    {
      ghost var draws := DrawsAfter(rand, seed);
      k := k0;
      var stepSize: nat := t0;
      passes := 0;
      ghost var target := PassesRun(State(hmap, k), side, stepSize, draws);
      while stepSize > 1
        invariant Built()
        invariant passes + Log2(stepSize) == Log2(t0)
        invariant PassesRun(State(hmap, k), side, stepSize, draws) == target
        decreases stepSize
      {
        k := WritePass(rand, stepSize, k);
        stepSize := stepSize / 2;
        passes := passes + 1;
      }
      Pow2OfLog2(t0);
      StepsFromPow2(passes);
    }

    /** One pass of the while loop: the diamond phase and the square phase for the step,
        both perturbing by scale = offset * step. */
    method WritePass(rand: RandomSource, stepSize: nat, k0: nat) returns (k: nat)
      requires Built() && stepSize > 1 && offset != 0.0
      modifies this`hmap
      ensures Built()
      ensures State(hmap, k) == PassRun(State(old(hmap), k0), side, stepSize, DrawsAfter(rand, seed))
    {
      var scale := offset * stepSize as real;
      NonZeroProduct(offset, stepSize as real);
      var halfStep := stepSize / 2;
      k := WriteDiamondPhase(rand, stepSize, halfStep, scale, k0);
      k := WriteSquarePhase(rand, stepSize, halfStep, scale, k);
    }

    /** The diamond phase of one pass: y from 0 while y < side - 1, by step. */
    method WriteDiamondPhase(rand: RandomSource, stepSize: Pos, halfStep: nat, scale: real, k0: nat)
      returns (k: nat)
      requires Built()
      requires halfStep == stepSize / 2 && scale != 0.0
      modifies this`hmap
      ensures Built()
      ensures State(hmap, k)
           == DiamondPhaseRun(State(old(hmap), k0), side, stepSize, 0, DrawsAfter(rand, seed))
    {
      ghost var draws := DrawsAfter(rand, seed);
      ghost var target := DiamondPhaseRun(State(hmap, k0), side, stepSize, 0, draws);
      k := k0;
      var y: nat := 0;
      while y < side - 1
        invariant Built()
        invariant DiamondPhaseRun(State(hmap, k), side, stepSize, y, draws) == target
        decreases side - y
      {
        k := WriteDiamondRow(rand, stepSize, halfStep, scale, y, k);
        y := y + stepSize;
      }
    }

    /** One row of the diamond phase: x from 0 while x < side - 1, by step. */
    method WriteDiamondRow(rand: RandomSource, stepSize: Pos, halfStep: nat, scale: real,
                           y: nat, k0: nat)
      returns (k: nat)
      requires Built()
      requires halfStep == stepSize / 2 && scale != 0.0
      modifies this`hmap
      ensures Built()
      ensures State(hmap, k)
           == DiamondRowRun(State(old(hmap), k0), side, stepSize, 0, y, DrawsAfter(rand, seed))
    {
      ghost var draws := DrawsAfter(rand, seed);
      ghost var target := DiamondRowRun(State(hmap, k0), side, stepSize, 0, y, draws);
      k := k0;
      var x: nat := 0;
      while x < side - 1
        invariant Built()
        invariant DiamondRowRun(State(hmap, k), side, stepSize, x, y, draws) == target
        decreases side - x
      {
        DiamondCell(rand, stepSize, halfStep, scale, x, y, k);
        k := k + 1;
        x := x + stepSize;
      }
    }

    /** The body of the diamond loop at (x, y): the centre of the square with top-left
        corner (x, y) gets the average of its four corners and the perturbed k-th draw. */
    method DiamondCell(rand: RandomSource, stepSize: Pos, halfStep: nat, scale: real,
                       x: nat, y: nat, k: nat)
      requires Built()
      requires halfStep == stepSize / 2 && scale != 0.0
      modifies this`hmap
      ensures Built()
      ensures State(hmap, k + 1)
           == Step(State(old(hmap), k), DiamondAt(x, y, stepSize), side, DrawsAfter(rand, seed))
    {
      var cor1 := GetMapValue(x, y);
      var cor2 := GetMapValue(x, y + stepSize);
      var cor3 := GetMapValue(x + stepSize, y);
      var cor4 := GetMapValue(x + stepSize, y + stepSize);
      var newValue := rand(seed, k);
      newValue := Perturb(newValue, scale);
      newValue := (cor1 + cor2 + cor3 + cor4 + newValue) / 5.0;
      SetMapValue(x + halfStep, y + halfStep, newValue);
    }

    /** The square phase of one pass: y from 0 while y <= side - 1, by half the step;
        each row starts at x = (y + half) % step. */
    method WriteSquarePhase(rand: RandomSource, stepSize: Pos, halfStep: nat, scale: real, k0: nat)
      returns (k: nat)
      requires Built() && stepSize > 1
      requires halfStep == stepSize / 2 && scale != 0.0
      modifies this`hmap
      ensures Built()
      ensures State(hmap, k)
           == SquarePhaseRun(State(old(hmap), k0), side, stepSize, 0, DrawsAfter(rand, seed))
    {
      ghost var draws := DrawsAfter(rand, seed);
      ghost var target := SquarePhaseRun(State(hmap, k0), side, stepSize, 0, draws);
      k := k0;
      var y: nat := 0;
      while y <= side - 1
        invariant Built()
        invariant SquarePhaseRun(State(hmap, k), side, stepSize, y, draws) == target
        decreases side - y
      {
        k := WriteSquareRow(rand, stepSize, halfStep, scale, (y + halfStep) % stepSize, y, k);
        y := y + halfStep;
      }
    }

    /** One row of the square phase: x from x0 while x <= side - 1, by step. */
    method WriteSquareRow(rand: RandomSource, stepSize: Pos, halfStep: nat, scale: real,
                          x0: nat, y: nat, k0: nat)
      returns (k: nat)
      requires Built()
      requires halfStep == stepSize / 2 && scale != 0.0
      modifies this`hmap
      ensures Built()
      ensures State(hmap, k)
           == SquareRowRun(State(old(hmap), k0), side, stepSize, x0, y, DrawsAfter(rand, seed))
    {
      ghost var draws := DrawsAfter(rand, seed);
      ghost var target := SquareRowRun(State(hmap, k0), side, stepSize, x0, y, draws);
      k := k0;
      var x: nat := x0;
      while x <= side - 1
        invariant Built()
        invariant SquareRowRun(State(hmap, k), side, stepSize, x, y, draws) == target
        decreases side - x
      {
        SquareCell(rand, stepSize, halfStep, scale, x, y, k);
        k := k + 1;
        x := x + stepSize;
      }
    }

    /** The body of the square loop at (x, y): the point gets the average of its four
        neighbours at distance half and the perturbed k-th draw. */
    method SquareCell(rand: RandomSource, stepSize: Pos, halfStep: nat, scale: real,
                      x: nat, y: nat, k: nat)
      requires Built()
      requires halfStep == stepSize / 2 && scale != 0.0
      modifies this`hmap
      ensures Built()
      ensures State(hmap, k + 1)
           == Step(State(old(hmap), k), SquareAt(x, y, stepSize), side, DrawsAfter(rand, seed))
    {
      var cor1 := GetMapValue(x, y - halfStep);
      var cor2 := GetMapValue(x + halfStep, y);
      var cor3 := GetMapValue(x, y + halfStep);
      var cor4 := GetMapValue(x - halfStep, y);
      var newValue := rand(seed, k);
      newValue := Perturb(newValue, scale);
      newValue := (cor1 + cor2 + cor3 + cor4 + newValue) / 5.0;
      SetMapValue(x, y, newValue);
    }
  }

  lemma NonZeroProduct(a: real, b: real)
    requires a != 0.0 && b != 0.0
    ensures a * b != 0.0
  {
  }

  /** With a source whose draws lie in [0, 1] and a positive offset, every height of the
      built map lies in [0, max(1 / offset, 2)], whatever the seed. */
  lemma BuiltHeightsBounded(rand: RandomSource, seed: Seed, side: nat, offset: real)
    requires InUnitInterval(rand) && ValidSide(side) && offset > 0.0
    ensures forall i :: 0 <= i < side * side ==>
              0.0 <= Build(side, offset, DrawsAfter(rand, seed))[i] <= Max(1.0 / offset, 2.0)
  {
    var draws := DrawsAfter(rand, seed);
    assert forall j :: 0 <= j < side * side ==> 0.0 <= draws(j) <= 1.0;
    BuildBounded(side, offset, draws);
  }

  /** Constructing and then building: the while loop of build_map runs exactly once per
      unit of the clamped factor, and the map is Build of the side the factor gives. */
  method ConstructAndBuild(factor: nat, offset: real, seed: Seed, rand: RandomSource)
    returns (m: DiamondSquare, ghost passes: nat)
    requires offset != 0.0
    ensures passes == Clamp(factor)
    ensures m.side == SideOf(factor) && m.Valid()
    ensures m.GetMap() == Build(m.side, offset, DrawsAfter(rand, seed))
  {
    m := new DiamondSquare(factor, offset, seed);
    ghost var side := m.side;
    passes := m.BuildMap(rand);
    assert Pow2(passes) == side - 1 == Pow2(Clamp(factor));
    Pow2Injective(passes, Clamp(factor));
  }

  /** Building twice in a row gives the same map, and changing the seed or the stored
      offset leaves the built map as it is until the next build. */
  method RebuildAndSetters(m: DiamondSquare, rand: RandomSource, seed: Seed, offset: real)
    returns (first: seq<real>, again: seq<real>, afterSetters: seq<real>)
    requires m.Valid() && m.offset != 0.0
    modifies m
    ensures m.Valid() && first == again == afterSetters == m.GetMap()
    ensures |first| == m.side * m.side
  {
    ghost var p := m.BuildMap(rand);
    first := m.GetMap();
    p := m.BuildMap(rand);
    again := m.GetMap();
    m.SetSeed(seed);
    m.SetOffset(offset);
    afterSetters := m.GetMap();
  }

  /** set_offset as written: a build after it is the same as a build before it, and
      its corners are still divided by the offset given at construction. */
  method SetOffsetThenBuild(m: DiamondSquare, rand: RandomSource, offset: real)
    returns (before: seq<real>, after: seq<real>)
    requires m.Valid() && m.offset != 0.0
    modifies m
    ensures m.offset == old(m.offset) && m.seed == old(m.seed) && m.side == old(m.side)
    ensures before == after == Build(m.side, m.offset, DrawsAfter(rand, m.seed))
    ensures after[0] == DrawsAfter(rand, m.seed)(0) / old(m.offset)
  {
    ghost var p := m.BuildMap(rand);
    before := m.GetMap();
    m.SetOffset(offset);
    p := m.BuildMap(rand);
    after := m.GetMap();
    BuildKeepsCorners(m.side, m.offset, DrawsAfter(rand, m.seed));
  }

  /** With the intended setter, the next build divides its corners by the new offset. */
  method IntendedOffsetReachesBuild(m: DiamondSquare, rand: RandomSource, offset: real)
    returns (after: seq<real>)
    requires m.Valid() && offset != 0.0
    modifies m
    ensures m.offset == offset && m.seed == old(m.seed) && m.side == old(m.side)
    ensures after == Build(m.side, offset, DrawsAfter(rand, m.seed))
    ensures after[0] == DrawsAfter(rand, m.seed)(0) / offset
  {
    m.SetBuildOffset(offset);
    ghost var p := m.BuildMap(rand);
    after := m.GetMap();
    BuildKeepsCorners(m.side, m.offset, DrawsAfter(rand, m.seed));
  }

  /** Once built, position side * side - 1 is the last readable cell and side * side the
      first that fails. */
  method BuiltGridEdge(m: DiamondSquare) returns (last: Result<real>, past: Result<real>)
    requires m.Valid() && |m.hmap| == m.side * m.side
    ensures last == Ok(m.hmap[m.side * m.side - 1])
    ensures past == Err(OutOfRange)
  {
    ValidSideShape(m.side);
    last := m.GetValue(m.side * m.side - 1);
    past := m.GetValue(m.side * m.side);
  }

  /** A freshly constructed generator has an empty grid, so every position fails. */
  method FreshGridRejectsAll(factor: nat, offset: real, seed: Seed, pos: nat)
    returns (r: Result<real>)
    ensures r == Err(OutOfRange)
  {
    var m := new DiamondSquare(factor, offset, seed);
    r := m.GetValue(pos);
  }
}
