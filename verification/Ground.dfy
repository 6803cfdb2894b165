/** The map a candidate is built towards, and why such a map passes every validator test
    that does not concern the road. */
module Ground {
  import opened Counting
  import opened Grid
  import opened World
  import opened TilePath
  import opened Invariants
  import opened Layout
  import opened Coast

  function CoastalTile(p: Plan): nat
    requires p.Valid()
  {
    ShoreTouchesSea(p);
    Index(p.g, p.OutletX(), p.CoastalY())
  }

  function InlandTile(p: Plan): nat
    requires p.Valid()
  {
    ShoreTouchesSea(p);
    Index(p.g, p.InlandX(), p.InlandY())
  }

  const COASTAL_ID: u64 := EntityId(2)
  const INLAND_ID: u64 := EntityId(3)

  /** Terrain and stamp of tile i, before or after the settlements are placed. */
  ghost predicate GroundTile(p: Plan, t: Tile, i: nat, settled: bool)
    requires p.Valid() && i < p.g.Count()
  {
    && (if SeaTile(p, i) then t.terrain == WATER && t.elevation == 0
        else t.elevation > 0 &&
             if settled && (i == CoastalTile(p) || i == InlandTile(p)) then t.terrain == SETTLEMENT
             else GRASSLAND <= t.terrain <= WETLANDS)
    && t.rainfall <= 5000 && t.overlays.rest == 0
    && t.settlement == (if settled && i == CoastalTile(p) then COASTAL_ID
                        else if settled && i == InlandTile(p) then INLAND_ID else 0)
    && (t.overlays.river <==> i in Course(p))
    && (t.overlays.outlet <==> i == Course(p)[0])
  }

  /** The bed rises one centimetre a tile from a metre at the outlet to a hill source. */
  ghost predicate Bedded(p: Plan, ts: seq<Tile>)
    requires p.Valid() && |ts| == p.g.Count()
  {
    && (forall k :: 0 <= k < |Course(p)| ==> ts[Course(p)[k]].elevation == 100 + k)
    && ts[Course(p)[|Course(p)| - 1]].terrain == HILLS
  }

  ghost predicate WetlandsOk(g: Dims, ts: seq<Tile>) {
    forall i: nat :: i < |ts| && ts[i].terrain == WETLANDS ==> WetlandWatered(g, ts, i)
  }

  ghost predicate IsGround(p: Plan, ts: seq<Tile>, settled: bool)
    requires p.Valid()
  {
    && |ts| == p.g.Count()
    && (forall i: nat :: i < |ts| ==> GroundTile(p, ts[i], i, settled))
    && Bedded(p, ts)
    && WetlandsOk(p.g, ts)
  }

  ghost predicate NoRoad(ts: seq<Tile>) {
    forall i: nat :: i < |ts| ==> !ts[i].overlays.road && !ts[i].overlays.crossing
  }

  // ----- consequences

  lemma GroundFollowsPlan(p: Plan, ts: seq<Tile>, settled: bool)
    requires p.Valid() && IsGround(p, ts, settled)
    ensures FollowsPlan(p, ts)
  {
    hide SeaTile, CoastalTile, InlandTile, Course, WetlandsOk, Bedded;
    forall i: nat | i < |ts| ensures ts[i].terrain == WATER <==> SeaTile(p, i) {
      assert GroundTile(p, ts[i], i, settled);
    }
  }

  lemma GroundTilesOk(p: Plan, ts: seq<Tile>, settled: bool)
    requires p.Valid() && IsGround(p, ts, settled)
    ensures TilesOk(p.g, ts)
  {
    hide SeaTile, CoastalTile, InlandTile, Course, Bedded, WetlandWatered;
    forall i: nat | i < |ts| ensures TileOk(p.g, ts, i) {
      assert GroundTile(p, ts[i], i, settled);
    }
  }

  /** Tiles at given coordinates are sea exactly when the plan says so. */
  lemma SeaAt(p: Plan, x: nat, y: nat)
    requires p.Valid() && x < p.g.width && y < p.g.height
    ensures InGrid(p.g, Index(p.g, x, y))
    ensures SeaTile(p, Index(p.g, x, y)) <==> p.Sea(x, y)
  {
    hide Index, X, Y;
    IndexCoordinates(p.g, x, y);
  }

  lemma NextTo(p: Plan, x: nat, y: nat, x': nat)
    requires x < p.g.width && x' < p.g.width && y < p.g.height && (x' == x + 1 || x == x' + 1)
    ensures Adj(p.g, Index(p.g, x, y), Index(p.g, x', y))
  {
    hide Index, X, Y;
    IndexCoordinates(p.g, x, y);
    IndexCoordinates(p.g, x', y);
  }

  lemma CoursesAreLand(p: Plan, k: nat)
    requires p.Valid() && k < |Course(p)|
    ensures Course(p)[k] < p.g.Count() && !SeaTile(p, Course(p)[k])
  {
    hide Index, X, Y;
    CourseOnLand(p, k);
    SeaAt(p, p.CourseX(k), p.CourseY(k));
  }

  lemma OffCourse(p: Plan)
    requires p.Valid()
    ensures CoastalTile(p) < p.g.Count() && InlandTile(p) < p.g.Count()
    ensures CoastalTile(p) !in Course(p) && InlandTile(p) !in Course(p)
    ensures CoastalTile(p) != InlandTile(p)
    ensures !SeaTile(p, CoastalTile(p)) && !SeaTile(p, InlandTile(p))
  {
    hide Index, X, Y, Plan.CourseX, Plan.CourseY;
    ShoreTouchesSea(p);
    IndexCoordinates(p.g, p.OutletX(), p.CoastalY());
    IndexCoordinates(p.g, p.InlandX(), p.InlandY());
    SeaAt(p, p.OutletX(), p.CoastalY());
    SeaAt(p, p.InlandX(), p.InlandY());
    forall k | 0 <= k < |Course(p)| ensures Course(p)[k] != CoastalTile(p) && Course(p)[k] != InlandTile(p) {
      SettlementsOffCourse(p, k);
      CourseCoordinates(p, k);
    }
  }

  /** Seen from any tile at (x, y) the nearest sea is at least as far as the plan promises. */
  lemma SeaIsFar(p: Plan, ts: seq<Tile>, settled: bool)
    requires p.Valid() && IsGround(p, ts, settled)
    ensures FarFrom(p.g, ts, Course(p)[|Course(p)| - 1], WATER, 8)
    ensures 0 <= p.InlandX() < p.g.width
    ensures forall j: nat :: j < |ts| && ts[j].terrain == WATER ==>
              Manhattan(p.InlandX(), p.InlandY(), X(p.g, j), Y(p.g, j)) >= 4
  {
    hide Index, X, Y, AbsDiff, Manhattan, IsGround;
    GroundFollowsPlan(p, ts, settled);
    ShoreTouchesSea(p);
    var last := |Course(p)| - 1;
    CourseCoordinates(p, last);
    CourseEnds(p);
    forall j: nat | j < |ts| && ts[j].terrain == WATER
      ensures Distance(p.g, Course(p)[last], j) >= 8
      ensures Manhattan(p.InlandX(), p.InlandY(), X(p.g, j), Y(p.g, j)) >= 4
    {
      CoordinatesIndex(p.g, j);
      SitesAreApart(p, X(p.g, j), Y(p.g, j));
    }
  }

  lemma CourseEnds(p: Plan)
    requires p.Valid()
    ensures p.CourseX(0) == p.OutletX() && p.CourseY(0) == p.outletY
    ensures p.CourseX(p.CourseLength() - 1) == p.SourceX() && p.CourseY(p.CourseLength() - 1) == p.sourceY
  {
    PlanNumbers(p);
  }

  /** The outlet and the coastal settlement both lie on the sea. */
  lemma ShoreSites(p: Plan, ts: seq<Tile>, settled: bool)
    requires p.Valid() && IsGround(p, ts, settled)
    ensures Touches(p.g, ts, Course(p)[0], WATER)
    ensures Touches(p.g, ts, CoastalTile(p), WATER)
  {
    hide Index, X, Y, IsGround, Adj, Plan.CourseX, Plan.CourseY;
    GroundFollowsPlan(p, ts, settled);
    ShoreTouchesSea(p);
    CourseEnds(p);
    SeaAt(p, SeawardX(p), p.outletY);
    SeaAt(p, SeawardX(p), p.CoastalY());
    NextTo(p, p.OutletX(), p.outletY, SeawardX(p));
    NextTo(p, p.OutletX(), p.CoastalY(), SeawardX(p));
  }

  /** Hydrology holds for every draw: the carved course is a valid river. */
  lemma GroundHasRiver(p: Plan, ts: seq<Tile>)
    requires p.Valid() && IsGround(p, ts, true)
    ensures RiverPath(p.g, ts, Course(p))
    ensures |OverlaySet(ts, River)| == |Course(p)|
  {
    hide Index, X, Y, Touches, FarFrom, WetlandsOk, Plan.Valid, Plan.CourseX, Plan.CourseY, SeaTile, Adj,
      CoastalTile, InlandTile;
    var q := Course(p);
    CourseIsChordless(p);
    SeaIsFar(p, ts, true);
    ShoreSites(p, ts, true);
    RiverCovers(p, ts);
    OffCourse(p);
    forall i: nat | i < |ts| && ts[i].overlays.river ensures ts[i].terrain != WATER && ts[i].terrain != SETTLEMENT {
      RiverTerrain(p, ts, i);
    }
    CoverSize(OverlaySet(ts, River), q);
    forall i: nat | i < |ts| ensures ts[i].overlays.outlet <==> i == q[0] { assert GroundTile(p, ts[i], i, true); }
  }

  lemma RiverCovers(p: Plan, ts: seq<Tile>)
    requires p.Valid() && IsGround(p, ts, true)
    ensures Covers(OverlaySet(ts, River), Course(p))
  {
    hide SeaTile, CoastalTile, InlandTile, WetlandsOk, Bedded, Plan.Valid, Index, Plan.CourseX, Plan.CourseY;
    forall i: nat ensures i in OverlaySet(ts, River) <==> i in Course(p) {
      if i < |ts| { assert GroundTile(p, ts[i], i, true); }
    }
  }

  lemma RiverTerrain(p: Plan, ts: seq<Tile>, i: nat)
    requires p.Valid() && IsGround(p, ts, true) && i < |ts| && ts[i].overlays.river
    ensures ts[i].terrain != WATER && ts[i].terrain != SETTLEMENT
  {
    hide SeaTile, CoastalTile, InlandTile, WetlandsOk, Bedded, Plan.Valid, Index, Plan.CourseX, Plan.CourseY;
    assert GroundTile(p, ts[i], i, true);
    var k :| 0 <= k < |Course(p)| && Course(p)[k] == i;
    CoursesAreLand(p, k);
    OffCourse(p);
  }

  /** Settlements hold for every draw. */
  lemma GroundHasSettlements(p: Plan, ts: seq<Tile>, coastal: Entity, inland: Entity)
    requires p.Valid() && IsGround(p, ts, true)
    requires coastal.kind == KIND_COASTAL && coastal.id == COASTAL_ID
    requires coastal.x == p.OutletX() && coastal.y == p.CoastalY()
    requires inland.kind == KIND_INLAND && inland.id == INLAND_ID
    requires inland.x == p.InlandX() && inland.y == p.InlandY()
    ensures SettlementsOk(p.g, ts, coastal, inland, Course(p)[0])
    ensures |TerrainSet(ts, SETTLEMENT)| == 2
  {
    hide Index, X, Y, Touches, SeaTile, WetlandsOk, Bedded, AbsDiff, Manhattan;
    ShoreTouchesSea(p);
    OffCourse(p);
    SeaIsFar(p, ts, true);
    ShoreSites(p, ts, true);
    CourseEnds(p);
    CourseCoordinates(p, 0);
    SitesAreApart(p, SeawardX(p), p.outletY);
    SettlementTiles(p, ts);
    assert GroundTile(p, ts[CoastalTile(p)], CoastalTile(p), true);
    assert GroundTile(p, ts[InlandTile(p)], InlandTile(p), true);
  }

  lemma SettlementTiles(p: Plan, ts: seq<Tile>)
    requires p.Valid() && IsGround(p, ts, true)
    ensures |TerrainSet(ts, SETTLEMENT)| == 2
    ensures forall i: nat :: i < |ts| && ts[i].terrain != SETTLEMENT ==> ts[i].settlement == 0
  {
    hide SeaTile, CoastalTile, InlandTile, WetlandsOk, Bedded, Plan.Valid, Course;
    OffCourse(p);
    var c, n := CoastalTile(p), InlandTile(p);
    forall i: nat | i < |ts|
      ensures ts[i].terrain == SETTLEMENT <==> i == c || i == n
      ensures ts[i].terrain != SETTLEMENT ==> ts[i].settlement == 0
    {
      assert GroundTile(p, ts[i], i, true);
    }
    assert TerrainSet(ts, SETTLEMENT) == {c, n};
  }
}
