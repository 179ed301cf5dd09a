/**
 * Size, side length and wrapped indexing of the diamond-square height map.
 *
 * The map is a row-major buffer of side * side cells, side = 2^factor + 1,
 * read and written through a toroidal index: coordinates wrap modulo side.
 */
module Grid {

  /** Smallest and largest accepted size factor (WTF_DS_MIN_SIZE, WTF_DS_MAX_SIZE). */
  const MinSize: nat := 2
  const MaxSize: nat := 12

  /** One more than the largest `size_t` value: unsigned arithmetic is modulo this. */
  const SizeMod: int := 0x1_0000_0000_0000_0000

  /** A value of C++'s `size_t`. */
  type SizeT = n: int | 0 <= n < SizeMod

  /** 2^n, computed on integers (the source calls the floating `pow`, exact for 2..12). */
  function Pow2(n: nat): (p: nat)
    ensures p >= 1
  {
    if n == 0 then 1 else 2 * Pow2(n - 1)
  }

  /** n is a power of two. */
  predicate IsPow2(n: nat)
    decreases n
  {
    n == 1 || (n > 1 && n % 2 == 0 && IsPow2(n / 2))
  }

  lemma {:induction false} Pow2IsPow2(n: nat)
    ensures IsPow2(Pow2(n))
  {
    if n > 0 {
      Pow2IsPow2(n - 1);
      assert Pow2(n) / 2 == Pow2(n - 1);
    }
  }

  lemma {:induction false} Pow2Monotone(a: nat, b: nat)
    requires a <= b
    ensures Pow2(a) <= Pow2(b)
  {
    if a < b {
      Pow2Monotone(a, b - 1);
    }
  }

  /** How many times n can be halved before it reaches 1. */
  function Log2(n: nat): (k: nat)
    decreases n
  {
    if n <= 1 then 0 else 1 + Log2(n / 2)
  }

  /** A power of two is 2 to the number of its halvings. */
  lemma {:induction false} Pow2OfLog2(n: nat)
    requires IsPow2(n)
    ensures Pow2(Log2(n)) == n
    decreases n
  {
    if n > 1 {
      Pow2OfLog2(n / 2);
    }
  }

  /** Halving 2^n down to 1 takes n steps. */
  lemma {:induction false} Log2OfPow2(n: nat)
    ensures Log2(Pow2(n)) == n
  {
    if n > 0 {
      Log2OfPow2(n - 1);
      assert Pow2(n) / 2 == Pow2(n - 1);
    }
  }

  /** Different exponents give different powers of two. */
  lemma Pow2Injective(a: nat, b: nat)
    requires Pow2(a) == Pow2(b)
    ensures a == b
  {
    Log2OfPow2(a);
    Log2OfPow2(b);
  }

  /** The factor silently brought into [MinSize, MaxSize]. */
  function Clamp(factor: nat): (f: nat)
    ensures MinSize <= f <= MaxSize
    ensures MinSize <= factor <= MaxSize ==> f == factor
    ensures factor < MinSize ==> f == MinSize
    ensures factor > MaxSize ==> f == MaxSize
  {
    var f := if factor < MinSize then MinSize else factor;
    if f > MaxSize then MaxSize else f
  }

  /** The map side the constructors compute from a requested factor. */
  function SideOf(factor: nat): (side: nat)
    ensures side == Pow2(Clamp(factor)) + 1
    ensures ValidSide(side)
  {
    Pow2IsPow2(Clamp(factor));
    Pow2Monotone(MinSize, Clamp(factor));
    Pow2Monotone(Clamp(factor), MaxSize);
    Pow2OfBounds();
    Pow2(Clamp(factor)) + 1
  }

  /** A side some factor in range produces: side - 1 is a power of two in
      [2^MinSize, 2^MaxSize] = [4, 4096]. */
  predicate ValidSide(side: nat)
  {
    side >= 1 && IsPow2(side - 1) && 4 <= side - 1 <= 4096
  }

  lemma Pow2OfBounds()
    ensures Pow2(MinSize) == 4 && Pow2(MaxSize) == 4096
  {
    assert Pow2(4) == 16;
    assert Pow2(8) == 256;
  }

  /** Out-of-range factors are clamped, never rejected. */
  lemma ClampedFactorsShareSide(factor: nat)
    ensures factor <= MinSize ==> SideOf(factor) == SideOf(MinSize) == 5
    ensures factor >= MaxSize ==> SideOf(factor) == SideOf(MaxSize) == 4097
  {
    Pow2OfBounds();
  }

  /** Every valid side is odd and at least 5, and its square fits the index arithmetic. */
  lemma {:induction false} ValidSideShape(side: nat)
    requires ValidSide(side)
    ensures side % 2 == 1 && 5 <= side <= 4097
  {
  }

  /** The `size_t` value of an integer: unsigned wrap-around modulo 2^64. */
  function ToSizeT(v: int): SizeT
  {
    v % SizeMod
  }

  /** Values of `size_t` convert to themselves; negative values down to -2^64 wrap once. */
  lemma ToSizeTValue(v: int)
    ensures 0 <= v < SizeMod ==> ToSizeT(v) == v
    ensures -SizeMod <= v < 0 ==> ToSizeT(v) == v + SizeMod
  {
    if 0 <= v < SizeMod {
      ModOfMultiplePlus(0, SizeMod, v);
    } else if -SizeMod <= v < 0 {
      ModOfMultiplePlus(-1, SizeMod, v + SizeMod);
    }
  }

  /** `(c + side) % side`, the wrapped coordinate get_map_value and set_map_value use. */
  function WrapCoord(c: int, side: nat): (w: nat)
    requires side > 0
    ensures w < side
  {
    (c + side) % side
  }

  /** The wrapped coordinate is the true (non-negative) remainder of c by side. */
  lemma WrapCoordIsTrueModulo(c: int, side: nat)
    requires side > 0
    ensures WrapCoord(c, side) == c % side
  {
    ModShift(c, side);
  }

  /** On `size_t` the same expression gives the same coordinate whenever the coordinate
      is at least -side (a negative one reaches the source as a wrapped-around `size_t`)
      and adding side does not overflow. */
  lemma SizeTWrapAgrees(c: int, side: nat)
    requires 0 < side < SizeMod
    requires -(side as int) <= c < SizeMod - side
    ensures ToSizeT(ToSizeT(c) + side) % side == WrapCoord(c, side)
  {
    ToSizeTValue(c);
    ToSizeTValue(ToSizeT(c) + side);
    assert ToSizeT(ToSizeT(c) + side) == c + side;
  }

  /** The index get_map_value and set_map_value compute, every operation in size_t:
      (((y + side) % side) * side) + ((x + side) % side). */
  function SizeTIndex(x: SizeT, y: SizeT, side: nat): (i: SizeT)
    requires 0 < side < SizeMod
  {
    ToSizeT(ToSizeT(ToSizeT(y + side) % side * side) + ToSizeT(x + side) % side)
  }

  /** For coordinates at most one side outside the grid, handed over as size_t, the
      size_t index is the wrapped index. */
  lemma SizeTIndexAgrees(x: int, y: int, side: nat)
    requires 0 < side <= 4097
    requires -(side as int) <= x <= 2 * side && -(side as int) <= y <= 2 * side
    ensures SizeTIndex(ToSizeT(x), ToSizeT(y), side) == WrapIndex(x, y, side)
  {
    SizeTWrapAgrees(x, side);
    SizeTWrapAgrees(y, side);
    var wx, wy := WrapCoord(x, side), WrapCoord(y, side);
    CellIndexBound(wx, wy, side);
    assert side * side <= 4097 * 4097 by {
      MulLessEq(side, 4097);
    }
    ToSizeTValue(wy * side);
    ToSizeTValue(wy * side + wx);
  }

  lemma MulLessEq(a: nat, b: nat)
    requires a <= b
    ensures a * a <= b * b
  {
  }

  lemma ModShift(c: int, m: nat)
    requires m > 0
    ensures (c + m) % m == c % m
  {
    var q := c / m;
    assert c == q * m + c % m;
    assert c + m == (q + 1) * m + c % m;
    ModOfMultiplePlus(q + 1, m, c % m);
  }

  /** A multiple of m plus a remainder r in [0, m) leaves remainder r. */
  lemma ModOfMultiplePlus(q: int, m: nat, r: int)
    requires m > 0 && 0 <= r < m
    ensures (q * m + r) % m == r
    ensures (q * m + r) / m == q
  {
    var a := q * m + r;
    var d := a / m - q;
    assert a == (a / m) * m + a % m;
    assert d * m == r - a % m;
  }

  /** The linear index of (x, y) as the source computes it:
      ((y + side) % side) * side + (x + side) % side. */
  function WrapIndex(x: int, y: int, side: nat): (i: nat)
    requires side > 0
    ensures i < side * side
  {
    CellIndexBound(WrapCoord(x, side), WrapCoord(y, side), side);
    WrapCoord(y, side) * side + WrapCoord(x, side)
  }

  /** The row-major position of an in-grid cell. */
  function RowMajor(x: nat, y: nat, side: nat): (i: nat)
    requires x < side && y < side
    ensures i < side * side
    ensures i % side == x && i / side == y
  {
    CellIndexBound(x, y, side);
    ModOfMultiplePlus(y, side, x);
    y * side + x
  }

  lemma CellIndexBound(x: nat, y: nat, side: nat)
    requires x < side && y < side
    ensures y * side + x < side * side
  {
    assert y * side <= (side - 1) * side;
  }

  /** The index of an in-grid cell is its row-major position. */
  lemma InGridIndex(x: int, y: int, side: nat)
    requires 0 <= x < side && 0 <= y < side
    ensures WrapIndex(x, y, side) == y * side + x
  {
    InGridCoord(x, side);
    InGridCoord(y, side);
  }

  lemma InGridCoord(c: int, side: nat)
    requires 0 <= c < side
    ensures WrapCoord(c, side) == c
  {
    ModOfMultiplePlus(1, side, c);
  }

  /** The wrapped index is the index of (x mod side, y mod side), with true modulo. */
  lemma WrapIndexIsTrueModulo(x: int, y: int, side: nat)
    requires side > 0
    ensures WrapIndex(x, y, side) == (y % side) * side + x % side
    ensures WrapIndex(x, y, side) == RowMajor(x % side, y % side, side)
  {
    WrapCoordIsTrueModulo(x, side);
    WrapCoordIsTrueModulo(y, side);
  }

  /** Wrapping: column side is column 0, and column -k is column side - k. */
  lemma WrapAliases(y: int, k: nat, side: nat)
    requires 0 <= y < side && 0 < k <= side
    ensures WrapIndex(side, y, side) == WrapIndex(0, y, side) == y * side
    ensures WrapIndex(-(k as int), y, side) == WrapIndex(side - k, y, side)
  {
    InGridCoord(0, side);
    InGridCoord(y, side);
    WrapCoordAliases(k, side);
  }

  lemma WrapCoordAliases(k: nat, side: nat)
    requires 0 < k <= side
    ensures WrapCoord(side, side) == 0
    ensures WrapCoord(-(k as int), side) == WrapCoord(side - k, side)
  {
    ModOfMultiplePlus(2, side, 0);
    ModOfMultiplePlus(0, side, side - k);
    InGridCoord(side - k, side);
  }

  /** Distinct in-grid cells have distinct indices. */
  lemma IndexInjective(x1: int, y1: int, x2: int, y2: int, side: nat)
    requires 0 <= x1 < side && 0 <= y1 < side && 0 <= x2 < side && 0 <= y2 < side
    requires y1 * side + x1 == y2 * side + x2
    ensures x1 == x2 && y1 == y2
  {
    var d := y1 - y2;
    assert d * side == x2 - x1;
  }
}
