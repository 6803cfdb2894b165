/** The three-octave elevation field: bilinear interpolation of a random lattice in
    integer arithmetic, added to every land tile. */
module Elevation {
  import opened Grid
  import opened World
  import opened Invariants

  /** Octave o has lattice spacing 16, 8 or 4 and weight 1, 2 or 4 sevenths. */
  function Scale(octave: nat): pos
    requires octave < 3
  {
    if octave == 0 then 16 else if octave == 1 then 8 else 4
  }

  function Weight(octave: nat): pos
    requires octave < 3
  {
    if octave == 0 then 1 else if octave == 1 then 2 else 4
  }

  lemma OctavesInNumbers()
    ensures Scale(0) == 16 && Scale(1) == 8 && Scale(2) == 4
    ensures Weight(0) == 1 && Weight(1) == 2 && Weight(2) == 4
  {
  }

  type Lattice = (nat, nat, nat) -> nat

  function Weighted(a: nat, b: nat, t: nat, scale: pos): nat
    requires t < scale
  {
    MulMono(0, a, scale - t);
    MulMono(0, b, t);
    a * (scale - t) + b * t
  }

  /** Weighted mean of two lattice values, rounded down. */
  function Blend(a: nat, b: nat, t: nat, scale: pos): nat
    requires t < scale
  {
    hide Weighted;
    Weighted(a, b, t, scale) / scale
  }

  /** The blend is the greatest whole number not above the weighted mean: the first value
      itself at t = 0, nearer the second as t grows. */
  lemma BlendIsMean(a: nat, b: nat, t: nat, scale: pos)
    requires t < scale
    ensures scale * Blend(a, b, t, scale) <= a * (scale - t) + b * t < scale * (Blend(a, b, t, scale) + 1)
    ensures Blend(a, b, 0, scale) == a
  {
    var total := Weighted(a, b, t, scale);
    assert total == scale * (total / scale) + total % scale;
    assert Weighted(a, b, 0, scale) == a * scale;
    DivModUnique(scale, 0, a, a * scale);
  }

  /** What one octave adds at column x of row y. */
  function Addition(lattice: Lattice, octave: nat, x: nat, y: nat): nat
    requires octave < 3
  {
    var s := Scale(octave);
    var top := Blend(lattice(octave, y / s, x / s), lattice(octave, y / s, x / s + 1), x % s, s);
    var bottom := Blend(lattice(octave, y / s + 1, x / s), lattice(octave, y / s + 1, x / s + 1), x % s, s);
    Blend(top, bottom, y % s, s) * Weight(octave) / 7
  }

  /** Interpolation never leaves the range of the values it blends. */
  lemma BlendBounded(a: nat, b: nat, t: nat, scale: pos, m: nat)
    requires t < scale && a <= m && b <= m
    ensures Blend(a, b, t, scale) <= m
  {
    MulMono(a, m, scale - t);
    MulMono(b, m, t);
    assert m * (scale - t) + m * t == m * scale;
    var total := Weighted(a, b, t, scale);
    assert total <= m * scale;
    MulDivBound(total, m, scale);
  }

  lemma MulDivBound(total: nat, m: nat, scale: pos)
    requires total <= m * scale
    ensures total / scale <= m
  {
    var q := total / scale;
    if q > m {
      RowBefore(m, q, scale);
    }
  }

  /** The three octaves together raise a tile by less than 1024 centimetres. */
  lemma AdditionBounded(lattice: Lattice, octave: nat, x: nat, y: nat)
    requires octave < 3
    requires forall o: nat, gy: nat, gx: nat :: lattice(o, gy, gx) < 1024
    ensures Addition(lattice, octave, x, y) <= 1023 * Weight(octave) / 7
  {
    hide Blend;
    var s := Scale(octave);
    BlendBounded(lattice(octave, y / s, x / s), lattice(octave, y / s, x / s + 1), x % s, s, 1023);
    BlendBounded(lattice(octave, y / s + 1, x / s), lattice(octave, y / s + 1, x / s + 1), x % s, s, 1023);
    var top := Blend(lattice(octave, y / s, x / s), lattice(octave, y / s, x / s + 1), x % s, s);
    var bottom := Blend(lattice(octave, y / s + 1, x / s), lattice(octave, y / s + 1, x / s + 1), x % s, s);
    BlendBounded(top, bottom, y % s, s, 1023);
  }

  function Uplift(lattice: Lattice, octaves: nat, x: nat, y: nat): (u: nat)
    requires octaves <= 3
  {
    if octaves == 0 then 0 else Uplift(lattice, octaves - 1, x, y) + Addition(lattice, octaves - 1, x, y)
  }

  lemma UpliftBounded(lattice: Lattice, octaves: nat, x: nat, y: nat)
    requires octaves <= 3
    requires forall o: nat, gy: nat, gx: nat :: lattice(o, gy, gx) < 1024
    ensures Uplift(lattice, octaves, x, y) <= 1023
  {
    AdditionBounded(lattice, 0, x, y);
    AdditionBounded(lattice, 1, x, y);
    AdditionBounded(lattice, 2, x, y);
    hide Addition;
    assert Uplift(lattice, 1, x, y) == Uplift(lattice, 0, x, y) + Addition(lattice, 0, x, y);
    assert Uplift(lattice, 2, x, y) == Uplift(lattice, 1, x, y) + Addition(lattice, 1, x, y);
    assert Uplift(lattice, 3, x, y) == Uplift(lattice, 2, x, y) + Addition(lattice, 2, x, y);
  }

  function Rainfall(elevation: nat): nat {
    var r := 800 + elevation * 1600 / 5000;
    if r > 2400 then 2400 else r
  }

  /** Rain rises by eight millimetres for each quarter metre of height, from 800 at sea level
      to 2400 from fifty metres on. */
  lemma RainfallInNumbers(elevation: nat)
    ensures Rainfall(elevation) == if elevation >= 5000 then 2400 else 800 + 8 * elevation / 25
    ensures Rainfall(elevation) <= Rainfall(elevation + 1)
  {
  }

  /** A land tile after the given number of octaves. */
  function Lifted(t: Tile, lattice: Lattice, octaves: nat, x: nat, y: nat): int
    requires octaves <= 3
  {
    t.elevation + (if t.terrain == WATER then 0 else Uplift(lattice, octaves, x, y))
  }

  /** ts is before with the first so many octaves added to its land. */
  ghost predicate Raised(g: Dims, before: seq<Tile>, ts: seq<Tile>, lattice: Lattice, octaves: nat)
    requires octaves <= 3
  {
    && |ts| == |before| == g.Count()
    && forall i: nat :: i < |ts| ==>
         && ts[i].elevation == Lifted(before[i], lattice, octaves, X(g, i), Y(g, i))
         && ts[i] == before[i].(elevation := ts[i].elevation)
  }

  /** Base elevations that leave room for the uplift. */
  ghost predicate Modest(ts: seq<Tile>) {
    forall i: nat :: i < |ts| ==> 0 <= ts[i].elevation <= 1000000
  }

  /** The dimensions of the lattice of one octave. */
  function LatticeDims(g: Dims, octave: nat): Dims
    requires octave < 3
  {
    var s := Scale(octave);
    Dims((g.width + s - 1) / s + 1, (g.height + s - 1) / s + 1)
  }

  /** One lattice line past the cells that cover the map, and no more. */
  lemma LatticeCovers(g: Dims, octave: nat)
    requires octave < 3
    ensures var s, lg := Scale(octave), LatticeDims(g, octave);
            && s * (lg.width - 2) < g.width <= s * (lg.width - 1)
            && s * (lg.height - 2) < g.height <= s * (lg.height - 1)
  {
  }

  /** The lattice of one octave, drawn row by row. */
  method DrawLattice(lattice: Lattice, octave: nat, lg: Dims) returns (grid: array<u32>)
    requires forall o: nat, gy: nat, gx: nat :: lattice(o, gy, gx) < 1024
    ensures fresh(grid) && grid.Length == lg.Count()
    ensures forall i: nat :: i < grid.Length ==> grid[i] == lattice(octave, Y(lg, i), X(lg, i))
  {
    hide X, Y, Index, RowStart;
    grid := new u32[lg.Count()];
    RowStarts(lg, 0);
    var gy: nat := 0;
    while gy < lg.height
      invariant gy <= lg.height && RowStart(lg, gy) <= grid.Length
      invariant forall i: nat :: i < RowStart(lg, gy) ==> grid[i] == lattice(octave, Y(lg, i), X(lg, i))
    {
      RowStarts(lg, gy);
      var gx: nat := 0;
      while gx < lg.width
        invariant gx <= lg.width
        invariant forall i: nat :: i < RowStart(lg, gy) + gx ==> grid[i] == lattice(octave, Y(lg, i), X(lg, i))
      {
        IndexCoordinates(lg, gx, gy);
        grid[Index(lg, gx, gy)] := lattice(octave, gy, gx);
        gx := gx + 1;
      }
      gy := gy + 1;
    }
  }

  lemma CellInLattice(g: Dims, octave: nat, x: nat, y: nat)
    requires octave < 3 && x < g.width && y < g.height
    ensures var s, lg := Scale(octave), LatticeDims(g, octave); x / s + 1 < lg.width && y / s + 1 < lg.height
  {
  }

  /** Reading the drawn lattice and interpolating gives the octave's addition. */
  method Interpolate(g: Dims, lattice: Lattice, octave: nat, grid: array<u32>, x: nat, y: nat) returns (addition: nat)
    requires octave < 3 && x < g.width && y < g.height
    requires grid.Length == LatticeDims(g, octave).Count()
    requires forall i: nat :: i < grid.Length ==>
               grid[i] == lattice(octave, Y(LatticeDims(g, octave), i), X(LatticeDims(g, octave), i))
    ensures addition == Addition(lattice, octave, x, y)
  {
    hide X, Y, Index, LatticeDims;
    var lg, scale := LatticeDims(g, octave), Scale(octave);
    CellInLattice(g, octave, x, y);
    var x0, dx, y0, dy := x / scale, x % scale, y / scale, y % scale;
    IndexCoordinates(lg, x0, y0);
    IndexCoordinates(lg, x0 + 1, y0);
    IndexCoordinates(lg, x0, y0 + 1);
    IndexCoordinates(lg, x0 + 1, y0 + 1);
    var top := Blend(grid[Index(lg, x0, y0)], grid[Index(lg, x0 + 1, y0)], dx, scale);
    var bottom := Blend(grid[Index(lg, x0, y0 + 1)], grid[Index(lg, x0 + 1, y0 + 1)], dx, scale);
    addition := Blend(top, bottom, dy, scale) * Weight(octave) / 7;
  }

  lemma RaisedStep(before: Tile, lattice: Lattice, octave: nat, x: nat, y: nat)
    requires octave < 3 && 0 <= before.elevation <= 1000000
    requires forall o: nat, gy: nat, gx: nat :: lattice(o, gy, gx) < 1024
    ensures Lifted(before, lattice, octave + 1, x, y) ==
            Lifted(before, lattice, octave, x, y) + (if before.terrain == WATER then 0 else Addition(lattice, octave, x, y))
    ensures 0 <= Lifted(before, lattice, octave + 1, x, y) <= 1001023
  {
    hide Addition;
    UpliftBounded(lattice, octave + 1, x, y);
  }

  /** One octave of fd_apply_elevation_fields. */
  method AddOctave(w: Game, lattice: Lattice, octave: nat, ghost before: seq<Tile>)
    requires w.Valid() && octave < 3 && Modest(before)
    requires forall o: nat, gy: nat, gx: nat :: lattice(o, gy, gx) < 1024
    requires Raised(w.config.dims, before, w.tiles[..], lattice, octave)
    modifies w.tiles
    ensures Raised(w.config.dims, before, w.tiles[..], lattice, octave + 1)
  {
    hide X, Y, Index, RowStart, Addition, LatticeDims, Lifted;
    var g := w.config.dims;
    var lg := LatticeDims(g, octave);
    var grid := DrawLattice(lattice, octave, lg);
    RowStarts(g, 0);
    var y: nat := 0;
    while y < g.height
      invariant y <= g.height && RowStart(g, y) <= w.tiles.Length
      invariant PartlyRaised(g, before, w.tiles[..], lattice, octave, RowStart(g, y))
      invariant forall i: nat :: i < grid.Length ==> grid[i] == lattice(octave, Y(lg, i), X(lg, i))
    {
      RowStarts(g, y);
      var x: nat := 0;
      while x < g.width
        invariant x <= g.width
        invariant PartlyRaised(g, before, w.tiles[..], lattice, octave, RowStart(g, y) + x)
        invariant forall i: nat :: i < grid.Length ==> grid[i] == lattice(octave, Y(lg, i), X(lg, i))
      {
        var index := Index(g, x, y);
        IndexCoordinates(g, x, y);
        RaisedStep(before[index], lattice, octave, x, y);
        if w.tiles[index].terrain != WATER {
          var addition := Interpolate(g, lattice, octave, grid, x, y);
          w.tiles[index] := w.tiles[index].(elevation := w.tiles[index].elevation + addition);
        }
        x := x + 1;
      }
      y := y + 1;
    }
  }

  ghost predicate PartlyRaised(g: Dims, before: seq<Tile>, ts: seq<Tile>, lattice: Lattice, octave: nat, k: nat)
    requires octave < 3
  {
    && |ts| == |before| == g.Count()
    && forall i: nat :: i < |ts| ==>
         && ts[i].elevation == Lifted(before[i], lattice, if i < k then octave + 1 else octave, X(g, i), Y(g, i))
         && ts[i] == before[i].(elevation := ts[i].elevation)
  }

  /** The uplift, then the rainfall that depends on it: exact values for every tile. */
  ghost predicate Uplifted(g: Dims, before: seq<Tile>, ts: seq<Tile>, lattice: Lattice) {
    && |ts| == |before| == g.Count()
    && forall i: nat :: i < |ts| ==>
         && ts[i].elevation == Lifted(before[i], lattice, 3, X(g, i), Y(g, i))
         && ts[i] == before[i].(elevation := ts[i].elevation,
                                rainfall := if before[i].terrain == WATER || ts[i].elevation < 0 then before[i].rainfall
                                            else Rainfall(ts[i].elevation))
  }

  /** fd_apply_elevation_fields */
  method ApplyElevation(w: Game, lattice: Lattice)
    requires w.Valid() && Modest(w.tiles[..])
    requires forall o: nat, gy: nat, gx: nat :: lattice(o, gy, gx) < 1024
    modifies w.tiles
    ensures Uplifted(w.config.dims, old(w.tiles[..]), w.tiles[..], lattice)
    ensures forall i: nat :: i < w.tiles.Length ==>
              old(w.tiles[i]).elevation <= w.tiles[i].elevation <= 1001023
  {
    hide X, Y, Addition;
    var g := w.config.dims;
    ghost var before := w.tiles[..];
    AddOctave(w, lattice, 0, before);
    AddOctave(w, lattice, 1, before);
    AddOctave(w, lattice, 2, before);
    ghost var lifted := w.tiles[..];
    forall i: nat | i < |before| ensures before[i].elevation <= lifted[i].elevation <= 1001023 {
      UpliftBounded(lattice, 3, X(g, i), Y(g, i));
    }
    var index: nat := 0;
    while index < w.tiles.Length
      invariant index <= w.tiles.Length
      invariant forall i: nat :: i < index ==>
                  w.tiles[i] == lifted[i].(rainfall := if lifted[i].terrain == WATER then lifted[i].rainfall
                                                       else Rainfall(lifted[i].elevation))
      invariant forall i: nat :: index <= i < w.tiles.Length ==> w.tiles[i] == lifted[i]
    {
      if w.tiles[index].terrain != WATER {
        w.tiles[index] := w.tiles[index].(rainfall := Rainfall(w.tiles[index].elevation));
      }
      index := index + 1;
    }
  }
}
