/** The rectangular tile grid: row-major indices, coordinates and 4-connectedness. */
module Grid {

  /** Unsigned machine words.  Every assignment to one of these is checked to fit,
      so no arithmetic in the model silently wraps around. */
  type u16 = x: int | 0 <= x <= 0xFFFF
  type u32 = x: int | 0 <= x <= 0xFFFF_FFFF
  type u64 = x: int | 0 <= x <= 0xFFFF_FFFF_FFFF_FFFF

  /** UINT32_MAX, the "none" and "unreached" sentinel of the C core. */
  const NONE32: u32 := 0xFFFF_FFFF

  const MAX_TILES: nat := 32768

  type pos = x: nat | x > 0 witness 1

  datatype Dims = Dims(width: pos, height: pos) {
    function Count(): nat { height * width }

    predicate Valid() { Count() <= MAX_TILES }
  }

  function X(g: Dims, i: nat): nat
  {
    i % g.width
  }

  function Y(g: Dims, i: nat): nat
  {
    i / g.width
  }

  function Index(g: Dims, x: nat, y: nat): nat { y * g.width + x }

  predicate InGrid(g: Dims, i: int) { 0 <= i < g.Count() }

  function Lesser(a: int, b: int): (m: int)
    ensures m == a || m == b
  {
    if b < a then b else a
  }

  function AbsDiff(a: nat, b: nat): nat { if a >= b then a - b else b - a }

  function Manhattan(x0: nat, y0: nat, x1: nat, y1: nat): nat {
    AbsDiff(x0, x1) + AbsDiff(y0, y1)
  }

  function Distance(g: Dims, i: nat, j: nat): nat
  {
    Manhattan(X(g, i), Y(g, i), X(g, j), Y(g, j))
  }

  /** Two tiles are neighbours when their coordinates differ by one step. */
  predicate Adj(g: Dims, i: int, j: int)
  {
    InGrid(g, i) && InGrid(g, j) && Distance(g, i, j) == 1
  }

  lemma AdjBasics(g: Dims, i: int, j: int)
    ensures Adj(g, i, j) <==> Adj(g, j, i)
    ensures Adj(g, i, j) ==> i != j && InGrid(g, i) && InGrid(g, j)
  {
  }

  lemma DivModUnique(w: nat, x: int, y: int, i: int)
    requires 0 <= x < w && i == y * w + x
    ensures i / w == y && i % w == x
  {
    var q, r := i / w, i % w;
    assert i == q * w + r && 0 <= r < w;
    if q < y { RowBefore(q, y, w); }
    if y < q { RowBefore(y, q, w); }
  }

  lemma RowBefore(a: int, b: int, w: int)
    requires a < b && 0 <= w
    ensures a * w + w <= b * w
  {
    MulMono(a + 1, b, w);
    assert (a + 1) * w == a * w + w;
  }

  lemma MulMono(a: int, b: int, w: int)
    requires a <= b && 0 <= w
    ensures a * w <= b * w
  {
    assert (b - a) * w >= 0;
    assert b * w == a * w + (b - a) * w;
  }

  /** Number of tiles in the rows before y. */
  function RowStart(g: Dims, y: nat): nat { y * g.width }

  lemma RowStarts(g: Dims, y: nat)
    ensures RowStart(g, 0) == 0 && RowStart(g, g.height) == g.Count()
    ensures RowStart(g, y + 1) == RowStart(g, y) + g.width
    ensures y < g.height ==> RowStart(g, y) + g.width <= g.Count()
    ensures forall x: nat :: Index(g, x, y) == RowStart(g, y) + x
  {
    if y < g.height { RowBefore(y, g.height, g.width); }
    assert (y + 1) * g.width == y * g.width + g.width;
  }

  /** Row-major indexing is a bijection between in-range coordinates and tile indices. */
  lemma IndexCoordinates(g: Dims, x: nat, y: nat)
    requires x < g.width && y < g.height
    ensures InGrid(g, Index(g, x, y))
    ensures X(g, Index(g, x, y)) == x && Y(g, Index(g, x, y)) == y
  {
    DivModUnique(g.width, x, y, Index(g, x, y));
    RowBefore(y, g.height, g.width);
  }

  lemma CoordinatesIndex(g: Dims, i: nat)
    requires InGrid(g, i)
    ensures X(g, i) < g.width && Y(g, i) < g.height
    ensures Index(g, X(g, i), Y(g, i)) == i
  {
    var y := Y(g, i);
    if y >= g.height { MulMono(g.height, y, g.width); }
  }

  /** The four guarded index offsets used throughout the C core are exactly the neighbours. */
  lemma {:induction false} NeighborOffsets(g: Dims, i: nat, j: int)
    requires InGrid(g, i)
    ensures Adj(g, i, j) <==>
            || (j == i - 1 && X(g, i) > 0)
            || (j == i + 1 && X(g, i) + 1 < g.width)
            || (j == i - g.width && Y(g, i) > 0)
            || (j == i + g.width && Y(g, i) + 1 < g.height)
  {
    var x, y := X(g, i), Y(g, i);
    CoordinatesIndex(g, i);
    if x > 0 { IndexCoordinates(g, x - 1, y); }
    if x + 1 < g.width { IndexCoordinates(g, x + 1, y); }
    if y > 0 { IndexCoordinates(g, x, y - 1); RowStep(g, y); }
    if y + 1 < g.height { IndexCoordinates(g, x, y + 1); RowStep(g, y + 1); }
    if Adj(g, i, j) {
      var k: nat := j;
      CoordinatesIndex(g, k);
      if X(g, k) == x {
        if Y(g, k) + 1 == y { RowStep(g, y); } else { RowStep(g, Y(g, k)); }
      }
    }
  }

  lemma RowStep(g: Dims, y: nat)
    requires y > 0
    ensures y * g.width == (y - 1) * g.width + g.width
  {
  }
}
