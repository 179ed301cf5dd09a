# diamond_square in Dafny

This project models the `wtf::diamond_square` class of libwtf (`diamond_square.hpp`). The
class generates a height map with the diamond-square algorithm:

- The size factor is clamped into [2, 12], and the side of the map is `2^factor + 1`.
- `build_map` seeds `srand` and zero-fills a row-major `side * side` vector.
- It sets the four corners from four draws of `rand() / RAND_MAX` divided by the offset.
- It then halves a step from `side - 1` down to 2. Each pass runs a diamond phase (square
  centres) and a square phase (edge midpoints).
- Every write takes the average of four neighbours and a perturbed fresh draw.
- The corners are written at their row-major indices directly. Every later read and write
  goes through the toroidal index `((y + side) % side) * side + (x + side) % side`.
- `get_value` / `operator[]` fail past the end of the vector.
- `get_map` / `operator*` return the whole vector.
- `set_seed` changes the seed. `set_offset` stores an offset that no build reads (see
  "Findings").

The model has four modules:

- `Grid` (`grid.dfy`) covers the constants, clamping, `2^n`, `size_t` wrap-around and the
  wrapped index.
- `Schedule` (`schedule.dfy`) is the specification of `build_map` as values:
  - the exact list of writes the loops perform, in order (`Writes`);
  - the fold that performs them on a state of grid plus draw counter (`Run`, `Build`);
  - one recursive function per loop of the source (`DiamondRowRun` … `PassesRun`), proved
    equal to the fold;
  - the facts the algorithm relies on: counts, bounds, corners, draws and the wrap period.
- `Targets` (`targets.dfy`) shows which cells the writes reach:
  - a pass at step t writes only cells whose coordinates are multiples of t/2 but not
    both multiples of t;
  - no cell is written twice;
  - every cell except the four corners is written exactly once.
- `Wtf` (`diamond_square.dfy`) is the class, `DiamondSquare`. Its fields are `hmap`,
  `side`, `offset`, `storedOffset` and `seed`.
  - `BuildMap` and the methods it calls reproduce the source's `while` loop and its four
    `for` loops, updating `hmap` in place through `SetMapValue`.
  - Each loop is proved to leave the state its specification function gives. BuildMap's
    `ensures` is therefore `hmap == Build(side, offset, draws)`.

The random source is a parameter `rand: (Seed, nat) -> real`. `rand(s, k)` stands for the
k-th `rand() / RAND_MAX` after `srand(s)`. The draws lie in [0, 1], 1 included; that range
is only assumed where bounds are proved (`InUnitInterval`). Heights are `real`.

The source has two offsets, and the model keeps both:

- The constructors bind the public reference `map_offset` to the constructor's own argument
  (`diamond_square.hpp:62`, `:74`). `build_map` reads it (`:144-147`, `:157`). The model's
  `offset` holds that value and only the constructor sets it.
- `set_offset` writes the private `_map_offset` (`:123`), which nothing reads. The model's
  `storedOffset` is that field.

So `set_offset` never reaches a build (`SetOffsetThenBuild`). The setter the design
evidently intends is `SetBuildOffset`, which sits beside it (see "Findings").

## Model

| member | source | states |
|---|---|---|
| Targets.DiamondRowTargets | diamond_square.hpp:162-175 | a diamond row writes cells on one row, left to right, all with x % step == (x0 + half) % step |
| Targets.DiamondPhaseTargets | diamond_square.hpp:161-175 | the diamond phase writes in row-major order, only cells with x % step == half |
| Targets.SquareRowTargets | diamond_square.hpp:180-192 | a square row writes cells on one row, left to right, all with the residue of its first column |
| Targets.SquarePhaseTargets | diamond_square.hpp:179-192 | the square phase writes in row-major order, rows half a step apart, each cell with x % step == (y + half) % step |
| Targets.PassTargets | diamond_square.hpp:157-194 | one pass at step t = 2h writes no cell twice; the diamond writes are the centres (x and y both h modulo t), and every write is on the h-lattice and off the t-lattice |
| Targets.PassesFromTargets | diamond_square.hpp:153-196 | the passes from step t write no cell twice, and none on the t-lattice |
| Targets.WritesDistinct | diamond_square.hpp:153-196 | no two writes after the corners target the same cell |
| Targets.WrittenIsOffCorner | diamond_square.hpp:137-196 | the grid positions written after the corners are exactly the side * side - 4 non-corner positions |
| Targets.WritesCoverOnce | diamond_square.hpp:137-196 | every in-grid cell that is not a corner is written exactly once |
| Grid.Clamp | diamond_square.hpp:211-212 | the factor is brought into [MinSize, MaxSize] = [2, 12]; in-range factors are kept, smaller ones become 2 and larger ones 12 |
| Grid.SideOf | diamond_square.hpp:211-213 | the side is 2^clamp(factor) + 1, and it is a valid side: side - 1 is a power of two in [4, 4096] |
| Grid.ClampedFactorsShareSide | diamond_square.hpp:126-128 | out-of-range factors are clamped, never rejected: every factor <= 2 gives side 5 and every factor >= 12 gives side 4097 |
| Grid.ValidSideShape | diamond_square.hpp:213 | every valid side is odd and lies in [5, 4097] |
| Grid.Pow2Injective | diamond_square.hpp:213 | distinct factors give distinct powers of two, so the side determines the clamped factor |
| Grid.WrapCoord | diamond_square.hpp:224 | the wrapped coordinate (c + side) % side lies in [0, side) |
| Grid.WrapCoordIsTrueModulo | diamond_square.hpp:224 | the wrapped coordinate is the mathematical remainder c mod side, for every integer c |
| Grid.SizeTWrapAgrees | diamond_square.hpp:224 | evaluated on size_t (modulo 2^64), a coordinate that underflowed by at most side wraps to the same cell as the mathematical expression |
| Grid.SizeTIndexAgrees | diamond_square.hpp:224 | the whole index expression evaluated in size_t equals the wrapped index for coordinates within [-side, 2 * side] |
| Grid.ToSizeTValue | diamond_square.hpp:221-225 | a size_t conversion keeps values in range and adds 2^64 to a negative value down to -2^64 |
| Grid.WrapIndex | diamond_square.hpp:224 | the wrapped linear index always lies in [0, side * side), so every read and write through it is in bounds |
| Grid.WrapIndexIsTrueModulo | diamond_square.hpp:224 | the wrapped index is the row-major position of (x mod side, y mod side) |
| Grid.WrapAliases | diamond_square.hpp:224 | column side aliases column 0, and column -k aliases column side - k |
| Grid.InGridIndex | diamond_square.hpp:232 | an in-grid cell (x, y) is written at y * side + x |
| Grid.IndexInjective | diamond_square.hpp:232 | distinct in-grid cells have distinct indices |
| Grid.RowMajor | diamond_square.hpp:224 | the row-major position of an in-grid cell gives back its column (i % side) and its row (i / side) |
| Schedule.StepsFromPow2 | diamond_square.hpp:153-158 | the halving sequence from 2^f while the step exceeds 1 has exactly f entries, 2^f, ..., 2; each is twice a power of two, so step / 2 is exact |
| Schedule.PassesFromOverSteps | diamond_square.hpp:153-196 | the writes of the while loop from step t are one pass for each entry of that halving sequence, in order |
| Schedule.WritesShape | diamond_square.hpp:153-195 | after the corners the loops write exactly side * side - 4 times; every write targets an in-grid non-corner cell, and every neighbour read lies within side of the grid, where wrapping is true modulo |
| Schedule.PassesShape | diamond_square.hpp:156-196 | the passes from step t, with side - 1 = n * t, write side * side - (n + 1)^2 cells, all sound |
| Schedule.DiamondPhaseShape | diamond_square.hpp:161-176 | the diamond phase at step t writes n * n centres, all in the grid and off the corners |
| Schedule.DiamondRowShape | diamond_square.hpp:162-176 | one diamond row writes n centres, all in the grid and off the corners |
| Schedule.DiamondAtSound | diamond_square.hpp:164-175 | a square inside the grid has its centre in the grid and off the corners, and its corner reads lie within [-side, 2 * side] |
| Schedule.SquarePhaseShape | diamond_square.hpp:179-194 | the square phase at step t writes n(2n + 1) + n edge midpoints, all non-corner and in-grid |
| Schedule.SquareRowShape | diamond_square.hpp:180-193 | a square row starting at (y + half) % step writes n or n + 1 cells, every one in the grid and off the corners |
| Schedule.SquareAtSound | diamond_square.hpp:182-193 | a square step at an in-grid non-corner cell, with a step of at most side - 1, reads neighbours whose coordinates lie within [-side, 2 * side] |
| Schedule.SquareColumn | diamond_square.hpp:180 | the columns of a square row stay within side - 1 while the loop runs, and pass it when the loop stops |
| Schedule.FirstWrites | diamond_square.hpp:161-182 | the first write is the centre of the whole map and the second the midpoint of its top edge |
| Schedule.RunConsumesOneDrawEach | diamond_square.hpp:171 | each write consumes exactly one draw |
| Schedule.RunAppend | diamond_square.hpp:155-196 | running two write lists one after the other is running their concatenation |
| Schedule.RunKeeps | diamond_square.hpp:232 | a cell that no write targets keeps its value |
| Schedule.RunUsesItsDraws | diamond_square.hpp:171 | n writes from draw counter k read only draws k to k + n - 1: two sources that agree there give the same state |
| Schedule.RunBounded | diamond_square.hpp:172-175 | with draws in [0, 1], the average of four cells in [0, b] and 2u stays in [0, b] for b >= 2 |
| Schedule.DiamondRowRunIsRun | diamond_square.hpp:162-176 | the inner diamond loop on the state performs exactly that row's writes, in order |
| Schedule.DiamondPhaseRunIsRun | diamond_square.hpp:161-176 | the diamond phase loop performs exactly the diamond phase's writes, in order |
| Schedule.SquareRowRunIsRun | diamond_square.hpp:180-194 | the inner square loop performs exactly that row's writes, in order |
| Schedule.SquarePhaseRunIsRun | diamond_square.hpp:179-194 | the square phase loop performs exactly the square phase's writes, in order |
| Schedule.PassesRunIsRun | diamond_square.hpp:153-196 | the while loop performs exactly PassesFrom's writes, in order |
| Schedule.BuildByLoops | diamond_square.hpp:137-196 | the loops, started on the seeded grid, leave the map Build describes |
| Schedule.SeededCorners | diamond_square.hpp:139-147 | after the zero fill the four corners hold draws 0..3 divided by offset |
| Schedule.SeededOffCornerZero | diamond_square.hpp:139-140 | every non-corner cell of the seeded grid holds 0 |
| Schedule.WritesMissCorner | diamond_square.hpp:174-192 | no write of the schedule targets a corner |
| Schedule.WritesIndexAsSizeT | diamond_square.hpp:164-192 | every cell the loops pass to get_map_value or set_map_value, as a size_t, lands on its wrapped index |
| Schedule.BuildKeepsCorner | diamond_square.hpp:144-147 | each corner of the built map still holds its seeded value |
| Schedule.BuildKeepsCorners | diamond_square.hpp:144-147 | the built map holds draws 0, 1, 2 and 3 divided by offset at indices 0, side - 1, side * side - side and side * side - 1 |
| Schedule.BuildUsesFirstDraws | diamond_square.hpp:138 | the map is a function of the first side * side draws: two sources that agree there build the same map |
| Schedule.BuildBounded | diamond_square.hpp:144-147 | with a positive offset and draws in [0, 1], every height lies in [0, max(1 / offset, 2)] |
| Schedule.SquareEdgeReadWrapsOffLattice | diamond_square.hpp:182 | the wrap period is side, not side - 1: the first square write reads (h, -h), and that read lands at (h, h + 1), a cell still holding the zero fill, not the centre (h, h) |
| Wtf.Perturb | diamond_square.hpp:172-173 | (u * scale * 2) / scale equals 2u whenever scale != 0, so the step scale cancels |
| Wtf.BuiltHeightsBounded | diamond_square.hpp:144-147 | for any seed of a source whose draws lie in [0, 1], the built heights lie in [0, max(1 / offset, 2)] |
| Wtf.DiamondSquare.constructor | diamond_square.hpp:58-64 | side = 2^clamp(factor) + 1, offset and seed are stored, and the grid is empty |
| Wtf.DiamondSquare.Initialize | diamond_square.hpp:205-214 | initialize sets side to SideOf(factor), a valid side |
| Wtf.DiamondSquare.GetMap | diamond_square.hpp:85 | get_map returns the grid: it is empty or has side * side cells; each cell is what get_value returns, and every later position fails |
| Wtf.DiamondSquare.GetValue | diamond_square.hpp:108-111 | get_value fails with OutOfRange iff pos >= the grid length, and otherwise returns grid[pos] |
| Wtf.DiamondSquare.SetSeed | diamond_square.hpp:117 | set_seed changes the seed and nothing else |
| Wtf.DiamondSquare.SetOffset | diamond_square.hpp:123 | set_offset stores its argument in _map_offset and changes nothing else; the offset build_map reads keeps its value |
| Wtf.DiamondSquare.SetBuildOffset | diamond_square.hpp:123 | the intended setter changes the offset build_map reads, and nothing else |
| Wtf.DiamondSquare.SetMapValue | diamond_square.hpp:227-233 | set_map_value replaces exactly the cell at the wrapped index and keeps the grid's size |
| Wtf.DiamondSquare.BuildMap | diamond_square.hpp:137-197 | build_map leaves side * side cells equal to Build(side, offset, draws after srand(seed)), and its while loop runs `passes` times with 2^passes == side - 1 |
| Wtf.DiamondSquare.SetCorners | diamond_square.hpp:138-147 | the zero fill and the four corner writes leave the starting state of Build, with four draws consumed |
| Wtf.DiamondSquare.WritePasses | diamond_square.hpp:153-196 | the while loop from step t0 leaves the state PassesRun gives, after `passes` iterations with 2^passes == t0, one per entry of the halving sequence Steps(t0) |
| Wtf.DiamondSquare.WritePass | diamond_square.hpp:157-194 | one pass is the diamond phase, then the square phase, at one step |
| Wtf.DiamondSquare.WriteDiamondPhase | diamond_square.hpp:161-176 | the outer diamond loop leaves the state DiamondPhaseRun gives |
| Wtf.DiamondSquare.WriteDiamondRow | diamond_square.hpp:162-176 | the inner diamond loop leaves the state DiamondRowRun gives |
| Wtf.DiamondSquare.DiamondCell | diamond_square.hpp:164-175 | one diamond write is one Step: the four corners and the perturbed next draw, averaged into the centre |
| Wtf.DiamondSquare.WriteSquarePhase | diamond_square.hpp:179-194 | the outer square loop leaves the state SquarePhaseRun gives |
| Wtf.DiamondSquare.WriteSquareRow | diamond_square.hpp:180-194 | the inner square loop leaves the state SquareRowRun gives |
| Wtf.DiamondSquare.SquareCell | diamond_square.hpp:182-193 | one square write is one Step: the four neighbours and the perturbed next draw, averaged into the cell |
| Wtf.ConstructAndBuild | diamond_square.hpp:58-64 | constructing, then building, runs exactly clamp(factor) passes and yields Build of SideOf(factor) |
| Wtf.RebuildAndSetters | diamond_square.hpp:137-140 | building twice in a row gives the same map, and set_seed and set_offset leave it as it is |
| Wtf.SetOffsetThenBuild | diamond_square.hpp:123-157 | set_offset followed by build_map gives the same map as build_map alone, with corners still divided by the offset given at construction |
| Wtf.IntendedOffsetReachesBuild | diamond_square.hpp:144 | with the intended setter, the next build is Build with the new offset, and its first corner is draw 0 divided by it |
| Wtf.BuiltGridEdge | diamond_square.hpp:92-95 | on a built grid, position side * side - 1 is read and position side * side fails |
| Wtf.FreshGridRejectsAll | diamond_square.hpp:92-95 | a freshly constructed generator has an empty grid, so every position fails |

## Left out

- `benchmark.hpp` is not part of this model. It holds wall-clock timing, a log file and a mutex, which are I/O and concurrency.
- The constructor without a seed (`diamond_square.hpp:71-76`) seeds from `std::time`. The model always takes the seed as an argument.
- `std::srand` / `std::rand` are a parameter: a deterministic function from the seed and the call count to a real. Their generator is not modelled.
- Floating point is not modelled. Heights are `real`, so rounding, infinities and NaN are absent. `BuildMap` requires a non-zero offset because the model divides in the reals.
- The `static_assert` on the element type (`diamond_square.hpp:206-210`) is compile-time only.
- The floating `pow(2, factor)` is integer `2^factor`; it is exact for factors 2 to 12.
- C++ references and lifetimes are not modelled. `map_offset` refers to the caller's argument; the model copies its value at construction. A caller that changes its variable later changes the source's next build, and a temporary argument leaves the reference dangling.
- `operator*` and `operator[]` (`diamond_square.hpp:85`, `:92-95`) are the same code as `get_map` and `get_value`. They share the members `GetMap` and `GetValue`.
- An out-of-range position throws `std::out_of_range` in the source. In the model it is the result `Err(OutOfRange)`.
- Coordinates are `int`, and the index uses mathematical `%`. `size_t` underflow (`y - half_step` at row 0) is covered by `Grid.SizeTIndexAgrees` and `Schedule.WritesIndexAsSizeT`: the `size_t` expression picks the same cell for every coordinate the loops pass.
- Wtf.DiamondSquare.GetMapValue has no contract of its own. Its meaning is `Grid.WrapIndex` and `Grid.WrapIndexIsTrueModulo`, through `Schedule.CellValue`; `Grid.SizeTIndexAgrees` relates it to the size_t expression.

## Findings

| source | as written | input that shows it | evidently intended | confidence | as-written member | corrected member |
|---|---|---|---|---|---|---|
| diamond_square.hpp:123 | `set_offset` assigns `_map_offset`, but `build_map` divides by `map_offset`, bound to the constructor's argument | construct with offset 1.0, call `set_offset(2.0)`, build: corner 0 is draw 0 / 1.0 | the next build divides by 2.0 | high; not executed | Wtf.SetOffsetThenBuild | Wtf.IntendedOffsetReachesBuild |
