/** Painting sea and land, and why every painted coast passes the land-and-coast test. */
module Coast {
  import opened Counting
  import opened Grid
  import opened World
  import opened TilePath
  import opened Invariants
  import opened Layout

  /** What the painting loop writes at column x of row y. */
  function CoastTile(p: Plan, x: nat, y: nat): Tile
    requires p.Valid() && x < p.g.width && y < p.g.height
  {
    if p.Sea(x, y) then Tile(0, 1400, 0, WATER, NO_OVERLAYS)
    else Tile(100 + 100 * CoastDistance(p, x, y), 0, 0, GRASSLAND, NO_OVERLAYS)
  }

  ghost function CoastTileAt(p: Plan, i: nat): Tile
    requires p.Valid() && i < p.g.Count()
  {
    CoordinatesIndex(p.g, i);
    CoastTile(p, X(p.g, i), Y(p.g, i))
  }

  ghost function Painted(p: Plan): (ts: seq<Tile>)
    requires p.Valid()
    ensures |ts| == p.g.Count()
    ensures forall i: nat :: i < |ts| ==> ts[i] == CoastTileAt(p, i)
  {
    hide *;
    seq(p.g.Count(), i requires 0 <= i < p.g.Count() => CoastTileAt(p, i))
  }

  /** Is tile i of the plan under water? */
  ghost predicate SeaTile(p: Plan, i: nat)
    requires p.Valid() && i < p.g.Count()
  {
    CoordinatesIndex(p.g, i);
    p.Sea(X(p.g, i), Y(p.g, i))
  }

  /** The first k tiles are final, and landCount counts the land among them. */
  ghost predicate PaintedUpTo(p: Plan, ts: seq<Tile>, landCount: nat, k: nat)
    requires p.Valid()
  {
    && k <= |ts| == p.g.Count()
    && (forall i: nat :: i < k ==> ts[i] == Painted(p)[i])
    && landCount == |Below(LandSet(Painted(p)), k)|
  }

  /** The signed row offset applied to the base water width. */
  method WaterWidth(g: Dims, d: Draws, fallback: bool, y: nat) returns (water: int)
    requires y < |d.coast|
    ensures water == RowWater(g, d, fallback, y)
  {
    var amplitude := Amplitude(g);
    var outletY := OutletRow(g, d.outletOffset);
    var coastalY := outletY + 1;
    water := BaseWater(g);
    if y != outletY && y != coastalY {
      var offset := if fallback then y % (amplitude * 2 + 1) else d.coast[y];
      var signed := offset - amplitude;
      if signed < 0 { water := water - (-signed); } else { water := water + signed; }
    }
  }

  /** The memset and counter resets that begin an attempt. */
  method ClearTiles(w: Game, ghost p: Plan)
    requires w.Valid() && p.Valid() && p.g == w.config.dims
    modifies w`landTileCount, w`riverRaisedTileCount, w`riverMinCarve, w.tiles
    ensures forall i :: 0 <= i < w.tiles.Length ==> w.tiles[i] == BLANK_TILE
    ensures w.landTileCount == 0 && w.riverRaisedTileCount == 0 && w.riverMinCarve == NONE32
    ensures PaintedUpTo(p, w.tiles[..], 0, 0)
  {
    hide PaintedUpTo, Plan.Valid;
    forall i | 0 <= i < w.tiles.Length { w.tiles[i] := BLANK_TILE; }
    w.landTileCount, w.riverRaisedTileCount, w.riverMinCarve := 0, 0, NONE32;
    PaintNothing(p, w.tiles[..]);
  }

  /** The painting loops, row by row. */
  method PaintRows(w: Game, d: Draws, fallback: bool, ghost p: Plan)
    requires w.Valid() && p.Valid() && p.g == w.config.dims && |d.coast| == p.g.height
    requires p == PlanOf(p.g, d, fallback)
    requires PaintedUpTo(p, w.tiles[..], w.landTileCount, 0)
    modifies w`landTileCount, w.tiles
    ensures PaintedUpTo(p, w.tiles[..], w.landTileCount, p.g.Count())
  {
    hide Index, RowStart, PlanOf, RowWater, Plan.Valid, PaintedUpTo;
    var g := w.config.dims;
    RowStarts(g, 0);
    var y: nat := 0;
    while y < g.height
      invariant y <= g.height
      invariant PaintedUpTo(p, w.tiles[..], w.landTileCount, RowStart(g, y))
    {
      PlanRow(g, d, fallback, p, y);
      var water := WaterWidth(g, d, fallback, y);
      RowStarts(g, y);
      PaintRow(w, d.facing == 0, y, water, p);
      y := y + 1;
    }
  }

  /** The memset and the painting loops of fd_generate_candidate. */
  method PaintCoast(w: Game, d: Draws, fallback: bool, ghost p: Plan)
    requires w.Valid() && SizesOk(w.config.dims) && d.Valid(w.config.dims)
    requires p == PlanOf(w.config.dims, d, fallback) && p.Valid()
    modifies w`landTileCount, w`riverRaisedTileCount, w`riverMinCarve, w.tiles
    ensures w.tiles[..] == Painted(p)
    ensures w.landTileCount == |LandSet(Painted(p))|
    ensures w.riverRaisedTileCount == 0 && w.riverMinCarve == NONE32
  {
    hide LandSet, Painted, Plan.Valid, PaintedUpTo;
    ClearTiles(w, p);
    PaintRows(w, d, fallback, p);
    PaintedIs(p, w.tiles[..], w.landTileCount);
  }

  lemma PlanRow(g: Dims, d: Draws, fallback: bool, p: Plan, y: nat)
    requires |d.coast| == g.height
    requires p == PlanOf(g, d, fallback) && y < g.height
    ensures p.g == g && p.west == (d.facing == 0) && p.outletY == OutletRow(g, d.outletOffset)
    ensures |p.rows| == g.height && p.rows[y] == RowWater(g, d, fallback, y)
  {
    hide RowWater;
  }

  lemma PaintNothing(p: Plan, ts: seq<Tile>)
    requires p.Valid() && |ts| == p.g.Count()
    ensures PaintedUpTo(p, ts, 0, 0)
  {
    BelowNone(LandSet(Painted(p)));
  }

  lemma PaintedIs(p: Plan, ts: seq<Tile>, landCount: nat)
    requires p.Valid() && PaintedUpTo(p, ts, landCount, p.g.Count())
    ensures ts == Painted(p) && landCount == |LandSet(Painted(p))|
  {
    hide LandSet, Below;
    LandBelow(p);
    BelowAll(LandSet(Painted(p)), p.g.Count());
  }

  lemma LandBelow(p: Plan)
    requires p.Valid()
    ensures forall i :: i in LandSet(Painted(p)) ==> i < p.g.Count()
  {
  }

  /** One row of the painting loop. */
  method PaintRow(w: Game, west: bool, y: nat, water: int, ghost p: Plan)
    requires w.Valid() && p.Valid() && p.g == w.config.dims && west == p.west
    requires y < p.g.height && water == p.rows[y]
    requires RowStart(p.g, y) + p.g.width <= w.tiles.Length
    requires PaintedUpTo(p, w.tiles[..], w.landTileCount, RowStart(p.g, y))
    modifies w`landTileCount, w.tiles
    ensures PaintedUpTo(p, w.tiles[..], w.landTileCount, RowStart(p.g, y) + p.g.width)
  {
    hide LandSet, Painted, Below, Index, RowStart;
    var g := w.config.dims;
    RowStarts(g, y);
    ghost var land := LandSet(Painted(p));
    var x: nat := 0;
    while x < g.width
      invariant x <= g.width
      invariant forall i: nat :: i < RowStart(g, y) + x ==> w.tiles[i] == Painted(p)[i]
      invariant w.landTileCount == |Below(land, RowStart(g, y) + x)|
    {
      var index := Index(g, x, y);
      IndexCoordinates(g, x, y);
      PaintedAt(p, x, y);
      BelowStep(land, index);
      BelowSmall(p, index);
      var underwater := if west then x < water else x >= g.width - water;
      if underwater {
        w.tiles[index] := Tile(0, 1400, 0, WATER, NO_OVERLAYS);
      } else {
        var coast := if west then water else g.width - water - 1;
        var distance := if x > coast then x - coast else coast - x;
        w.tiles[index] := Tile(100 + distance * 100, 0, 0, GRASSLAND, NO_OVERLAYS);
        w.landTileCount := w.landTileCount + 1;
      }
      assert w.tiles[index] == Painted(p)[index];
      x := x + 1;
    }
  }

  lemma PaintedAt(p: Plan, x: nat, y: nat)
    requires p.Valid() && x < p.g.width && y < p.g.height
    ensures Index(p.g, x, y) < |Painted(p)|
    ensures Painted(p)[Index(p.g, x, y)] == CoastTile(p, x, y)
    ensures Index(p.g, x, y) in LandSet(Painted(p)) <==> !p.Sea(x, y)
  {
    IndexCoordinates(p.g, x, y);
  }

  lemma BelowSmall(p: Plan, index: nat)
    requires p.Valid() && index <= p.g.Count()
    ensures |Below(LandSet(Painted(p)), index)| <= index <= MAX_TILES
  {
    hide Painted, LandSet;
    SubsetOfIndices(Below(LandSet(Painted(p)), index), index);
  }

  // ----- every painted coast is acceptable

  /** ts has water exactly where the plan has sea. */
  ghost predicate FollowsPlan(p: Plan, ts: seq<Tile>)
    requires p.Valid()
  {
    |ts| == p.g.Count() && forall i: nat :: i < |ts| ==> (ts[i].terrain == WATER <==> SeaTile(p, i))
  }

  lemma FollowsAt(p: Plan, ts: seq<Tile>, x: nat, y: nat)
    requires p.Valid() && FollowsPlan(p, ts) && x < p.g.width && y < p.g.height
    ensures LandAt(p.g, ts, x, y) <==> !p.Sea(x, y)
    ensures InGrid(p.g, Index(p.g, x, y))
    ensures Index(p.g, x, y) in LandSet(ts) <==> !p.Sea(x, y)
  {
    hide Index, X, Y;
    IndexCoordinates(p.g, x, y);
    var i := Index(p.g, x, y);
    assert ts[i].terrain == WATER <==> SeaTile(p, i);
  }

  function DryColumns(p: Plan, y: nat): int
    requires y < |p.rows|
  {
    p.g.width - p.rows[y]
  }

  /** Land columns among the first x of row y. */
  function DryBefore(p: Plan, y: nat, x: nat): nat
    requires y < |p.rows| && 0 <= p.rows[y] <= p.g.width
  {
    if p.west then (if x <= p.rows[y] then 0 else x - p.rows[y])
    else (if x <= DryColumns(p, y) then x else DryColumns(p, y))
  }

  lemma {:induction false} RowLandCount(p: Plan, ts: seq<Tile>, y: nat, x: nat)
    requires p.Valid() && FollowsPlan(p, ts) && y < p.g.height && x <= p.g.width
    ensures 0 <= p.rows[y] <= p.g.width
    ensures |Below(LandSet(ts), RowStart(p.g, y) + x)| == |Below(LandSet(ts), RowStart(p.g, y))| + DryBefore(p, y, x)
    decreases x
  {
    hide FollowsPlan, LandSet, Below, RowStart;
    PlanNumbers(p);
    if x > 0 {
      RowLandCount(p, ts, y, x - 1);
      RowStarts(p.g, y);
      FollowsAt(p, ts, x - 1, y);
      BelowStep(LandSet(ts), Index(p.g, x - 1, y));
    }
  }

  /** Row by row, land stays between 55 and 80 percent. */
  lemma {:induction false} LandShare(p: Plan, ts: seq<Tile>, y: nat)
    requires p.Valid() && FollowsPlan(p, ts) && y <= p.g.height
    ensures 55 * RowStart(p.g, y) <= 100 * |Below(LandSet(ts), RowStart(p.g, y))| <= 80 * RowStart(p.g, y)
  {
    hide FollowsPlan, LandSet, Below, RowStart;
    RowStarts(p.g, 0);
    if y == 0 {
      BelowNone(LandSet(ts));
    } else {
      LandShare(p, ts, y - 1);
      RowLandCount(p, ts, y - 1, p.g.width);
      RowStarts(p.g, y - 1);
      PlanNumbers(p);
    }
  }

  /** Whatever the draws, the finished coast passes the land-and-coast test. */
  lemma CoastAlwaysOk(p: Plan, ts: seq<Tile>)
    requires p.Valid() && FollowsPlan(p, ts)
    ensures CoastOk(p.g, ts)
  {
    hide FollowsPlan, LandAt, RowStart, LandSet, Below;
    PlanNumbers(p);
    LandShare(p, ts, p.g.height);
    RowStarts(p.g, 0);
    AllLandBelow(p, ts);
    BelowAll(LandSet(ts), |ts|);
    forall y: nat | y < p.g.height ensures RowHasRun(p.g, ts, y) {
      forall x: nat | x < p.g.width ensures LandAt(p.g, ts, x, y) <==> !p.Sea(x, y) { FollowsAt(p, ts, x, y); }
      if p.west {
        assert LandRun(p.g, ts, y, p.rows[y], p.g.width - 1);
      } else {
        assert LandRun(p.g, ts, y, 0, p.g.width - p.rows[y] - 1);
      }
    }
    forall y: nat | 0 < y < p.g.height ensures RowOverlap(p.g, ts, y) {
      var x := if p.west then p.g.width - 1 else 0;
      FollowsAt(p, ts, x, y - 1);
      FollowsAt(p, ts, x, y);
      assert LandAt(p.g, ts, x, y - 1) && LandAt(p.g, ts, x, y);
    }
  }

  lemma AllLandBelow(p: Plan, ts: seq<Tile>)
    requires p.Valid() && FollowsPlan(p, ts)
    ensures |ts| == p.g.Count() && forall i :: i in LandSet(ts) ==> i < |ts|
  {
  }
}
