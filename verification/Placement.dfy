/** The constructive fallback, settlement placement, and the land route that always joins
    the two settlements. */
module Placement {
  import opened Counting
  import opened Grid
  import opened World
  import opened TilePath
  import opened Invariants
  import opened ShortestRoad
  import opened RoadBuilder
  import opened Layout
  import opened Coast
  import opened Ground
  import opened Biomes

  // ----- the constructive fallback

  function MiddleX(p: Plan): int { (p.OutletX() + p.InlandX()) / 2 }

  function WetlandTile(p: Plan): nat
    requires p.Valid()
  {
    FallbackInGrid(p);
    Index(p.g, MiddleX(p), p.CoastalY())
  }

  function ForestTile(p: Plan): nat
    requires p.Valid()
  {
    FallbackInGrid(p);
    Index(p.g, p.Inward(p.InlandX(), -1), p.InlandY())
  }

  function GrassTile(p: Plan): nat
    requires p.Valid()
  {
    FallbackInGrid(p);
    Index(p.g, p.Inward(p.InlandX(), -2), p.InlandY())
  }

  lemma FallbackInGrid(p: Plan)
    requires p.Valid()
    ensures 0 <= MiddleX(p) < p.g.width && MiddleX(p) != p.OutletX() && MiddleX(p) != p.SourceX()
    ensures 0 <= p.Inward(p.InlandX(), -1) < p.g.width && 0 <= p.Inward(p.InlandX(), -2) < p.g.width
    ensures !p.Sea(MiddleX(p), p.CoastalY())
    ensures !p.Sea(p.Inward(p.InlandX(), -1), p.InlandY()) && !p.Sea(p.Inward(p.InlandX(), -2), p.InlandY())
    ensures if p.west then 0 <= MiddleX(p) - p.OutletX() <= p.Leg1() else 0 <= p.OutletX() - MiddleX(p) <= p.Leg1()
  {
    PlanNumbers(p);
  }

  /** The tile just north of the fallback wetland carries the river. */
  lemma WetlandBesideRiver(p: Plan)
    requires p.Valid()
    ensures exists k: nat :: k < |Course(p)| && Adj(p.g, WetlandTile(p), Course(p)[k])
  {
    hide Index, X, Y;
    FallbackInGrid(p);
    var k := if p.west then MiddleX(p) - p.OutletX() else p.OutletX() - MiddleX(p);
    FirstLeg(p, k);
    CourseCoordinates(p, k);
    IndexCoordinates(p.g, MiddleX(p), p.CoastalY());
    assert Adj(p.g, WetlandTile(p), Course(p)[k]);
  }

  lemma FirstLeg(p: Plan, k: int)
    requires p.Valid() && 0 <= k <= p.Leg1()
    ensures k < p.CourseLength() && p.CourseX(k) == p.Inward(p.OutletX(), k) && p.CourseY(k) == p.outletY
  {
    PlanNumbers(p);
  }

  function WithTerrain(t: Tile, terrain: u32): Tile { t.(terrain := terrain) }

  /** The map after the fallback has forced its three representatives. */
  function Represent(p: Plan, ts: seq<Tile>): (after: seq<Tile>)
    requires p.Valid() && |ts| == p.g.Count()
    ensures |after| == |ts|
  {
    hide Index;
    FallbackTilesInGrid(p);
    var a := ts[WetlandTile(p) := WithTerrain(ts[WetlandTile(p)], WETLANDS)];
    var b := a[ForestTile(p) := WithTerrain(a[ForestTile(p)], FOREST)];
    b[GrassTile(p) := WithTerrain(b[GrassTile(p)], GRASSLAND)]
  }

  /** Neither a settlement site nor the river's source. */
  ghost predicate Spare(p: Plan, i: nat)
    requires p.Valid()
  {
    i != CoastalTile(p) && i != InlandTile(p) && i != Course(p)[|Course(p)| - 1]
  }

  lemma FallbackTilesInGrid(p: Plan)
    requires p.Valid()
    ensures WetlandTile(p) < p.g.Count() && ForestTile(p) < p.g.Count() && GrassTile(p) < p.g.Count()
    ensures !SeaTile(p, WetlandTile(p)) && !SeaTile(p, ForestTile(p)) && !SeaTile(p, GrassTile(p))
    ensures WetlandTile(p) != ForestTile(p) && WetlandTile(p) != GrassTile(p) && ForestTile(p) != GrassTile(p)
    ensures Spare(p, WetlandTile(p)) && Spare(p, ForestTile(p)) && Spare(p, GrassTile(p))
  {
    hide Index, X, Y;
    FallbackInGrid(p);
    ShoreTouchesSea(p);
    CourseEnds(p);
    SeaAt(p, MiddleX(p), p.CoastalY());
    SeaAt(p, p.Inward(p.InlandX(), -1), p.InlandY());
    SeaAt(p, p.Inward(p.InlandX(), -2), p.InlandY());
    IndexCoordinates(p.g, MiddleX(p), p.CoastalY());
    IndexCoordinates(p.g, p.Inward(p.InlandX(), -1), p.InlandY());
    IndexCoordinates(p.g, p.Inward(p.InlandX(), -2), p.InlandY());
    IndexCoordinates(p.g, p.OutletX(), p.CoastalY());
    IndexCoordinates(p.g, p.InlandX(), p.InlandY());
    CourseCoordinates(p, |Course(p)| - 1);
  }

  /** Every terrain the coverage test asks for, other than settlements, has its tile. */
  ghost predicate Represented(p: Plan, ts: seq<Tile>)
    requires p.Valid() && |ts| == p.g.Count()
  {
    FallbackTilesInGrid(p);
    && ts[WetlandTile(p)].terrain == WETLANDS && ts[ForestTile(p)].terrain == FOREST
    && ts[GrassTile(p)].terrain == GRASSLAND
  }

  /** after changes before only in terrain and stamps, never between land and water, and
      leaves the river's source a hill. */
  ghost predicate Recoloured(p: Plan, before: seq<Tile>, after: seq<Tile>)
    requires p.Valid()
  {
    && |after| == |before| == p.g.Count()
    && (forall i: nat :: i < |after| ==>
          && after[i] == before[i].(terrain := after[i].terrain, settlement := after[i].settlement)
          && (after[i].terrain == WATER <==> before[i].terrain == WATER))
    && after[Course(p)[|Course(p)| - 1]].terrain == before[Course(p)[|Course(p)| - 1]].terrain
  }

  lemma RecolouredGround(p: Plan, before: seq<Tile>, after: seq<Tile>, was: bool, now: bool)
    requires p.Valid() && IsGround(p, before, was) && Recoloured(p, before, after)
    requires forall i: nat :: i < |after| ==> GroundTile(p, after[i], i, now)
    requires forall i: nat :: i < |after| && after[i].terrain == WETLANDS ==>
               before[i].terrain == WETLANDS || WetlandWatered(p.g, after, i)
    ensures IsGround(p, after, now) && (NoRoad(before) ==> NoRoad(after))
  {
    hide Index, SeaTile, WetlandWatered, Course, Plan.Valid, GroundTile;
    assert SameWaters(before, after);
    forall i: nat | i < |after| && after[i].terrain == WETLANDS ensures WetlandWatered(p.g, after, i) {
      WateredAlike(p.g, before, after, i);
    }
    forall k | 0 <= k < |Course(p)| ensures after[Course(p)[k]].elevation == 100 + k {
      assert before[Course(p)[k]].elevation == 100 + k;
    }
  }

  lemma RepresentRecolours(p: Plan, ts: seq<Tile>)
    requires p.Valid() && IsGround(p, ts, false)
    ensures Recoloured(p, ts, Represent(p, ts)) && Represented(p, Represent(p, ts))
    ensures forall i: nat :: i < |ts| ==> GroundTile(p, Represent(p, ts)[i], i, false)
    ensures forall i: nat :: i < |ts| && i != WetlandTile(p) && Represent(p, ts)[i].terrain == WETLANDS ==>
              ts[i].terrain == WETLANDS
  {
    hide Index, SeaTile, CoastalTile, InlandTile, WetlandTile, ForestTile, GrassTile, WetlandsOk, Bedded, Course,
      Plan.Valid;
    FallbackTilesInGrid(p);
    var after := Represent(p, ts);
    forall i: nat | i < |after|
      ensures GroundTile(p, after[i], i, false) && (after[i].terrain == WATER <==> ts[i].terrain == WATER)
    {
      assert GroundTile(p, ts[i], i, false);
    }
  }

  /** The fallback keeps the ground sound and represents every terrain. */
  lemma RepresentKeepsGround(p: Plan, ts: seq<Tile>)
    requires p.Valid() && IsGround(p, ts, false)
    ensures IsGround(p, Represent(p, ts), false) && Represented(p, Represent(p, ts))
    ensures NoRoad(ts) ==> NoRoad(Represent(p, ts))
  {
    hide Index, SeaTile, WetlandTile, WetlandWatered, Course, Plan.Valid, GroundTile, Represent, Represented,
      Recoloured;
    RepresentRecolours(p, ts);
    FallbackWetlandWatered(p, Represent(p, ts));
    RecolouredGround(p, ts, Represent(p, ts), false, false);
  }

  lemma FallbackWetlandWatered(p: Plan, ts: seq<Tile>)
    requires p.Valid() && |ts| == p.g.Count()
    requires forall i: nat :: i < |ts| ==> GroundTile(p, ts[i], i, false)
    ensures WetlandTile(p) < |ts| && WetlandWatered(p.g, ts, WetlandTile(p))
  {
    hide Index, SeaTile, CoastalTile, InlandTile, WetlandTile, Plan.Valid, Adj;
    FallbackTilesInGrid(p);
    WetlandBesideRiver(p);
    var k: nat :| k < |Course(p)| && Adj(p.g, WetlandTile(p), Course(p)[k]);
    var j := Course(p)[k];
    assert GroundTile(p, ts[j], j, false);
    assert j in Course(p);
  }

  // ----- settlement placement

  function Stamp(t: Tile, id: u64): Tile { t.(terrain := SETTLEMENT, settlement := id) }

  function Settle(p: Plan, ts: seq<Tile>): (after: seq<Tile>)
    requires p.Valid() && |ts| == p.g.Count()
    ensures |after| == |ts|
  {
    hide Index;
    OffCourse(p);
    var a := ts[CoastalTile(p) := Stamp(ts[CoastalTile(p)], COASTAL_ID)];
    a[InlandTile(p) := Stamp(a[InlandTile(p)], INLAND_ID)]
  }

  lemma SettleRecolours(p: Plan, ts: seq<Tile>)
    requires p.Valid() && IsGround(p, ts, false)
    ensures Recoloured(p, ts, Settle(p, ts))
    ensures forall i: nat :: i < |ts| ==> GroundTile(p, Settle(p, ts)[i], i, true)
    ensures forall i: nat :: i < |ts| && Settle(p, ts)[i].terrain == WETLANDS ==> ts[i].terrain == WETLANDS
    ensures Represented(p, ts) ==> Represented(p, Settle(p, ts))
  {
    hide Index, SeaTile, CoastalTile, InlandTile, WetlandTile, ForestTile, GrassTile, WetlandsOk, Bedded, Course,
      Plan.Valid;
    OffCourse(p);
    FallbackTilesInGrid(p);
    var after := Settle(p, ts);
    forall i: nat | i < |after|
      ensures GroundTile(p, after[i], i, true) && (after[i].terrain == WATER <==> ts[i].terrain == WATER)
    {
      assert GroundTile(p, ts[i], i, false);
    }
    assert Course(p)[|Course(p)| - 1] in Course(p);
  }

  lemma SettleKeepsGround(p: Plan, ts: seq<Tile>)
    requires p.Valid() && IsGround(p, ts, false)
    ensures IsGround(p, Settle(p, ts), true)
    ensures NoRoad(ts) ==> NoRoad(Settle(p, ts))
    ensures Represented(p, ts) ==> Represented(p, Settle(p, ts))
  {
    hide Index, SeaTile, WetlandTile, WetlandWatered, Course, Plan.Valid, GroundTile, Settle, Represented, Recoloured;
    SettleRecolours(p, ts);
    RecolouredGround(p, ts, Settle(p, ts), false, true);
  }

  // ----- the inland settlement can always be reached by land

  lemma LandIsPassable(p: Plan, ts: seq<Tile>, ties: seq<bool>, x: nat, y: nat)
    requires p.Valid() && IsGround(p, ts, true) && |ties| == |ts|
    requires x < p.g.width && y < p.g.height && !p.Sea(x, y)
    ensures Passable(Costs(ts, ties), Index(p.g, x, y))
  {
    hide Index, X, Y, SeaTile, CoastalTile, InlandTile, Course, WetlandsOk, Bedded;
    SeaAt(p, x, y);
    var i := Index(p.g, x, y);
    assert GroundTile(p, ts[i], i, true);
  }

  lemma ReachNext(g: Dims, c: seq<u32>, start: nat, u: nat, v: nat)
    requires Reachable(g, c, start, u) && Adj(g, u, v) && Passable(c, v)
    ensures Reachable(g, c, start, v)
  {
    hide Adj;
    var q :| RouteTo(g, c, start, u, q);
    RouteExtend(g, c, start, q, v);
  }

  /** The columns from the shore inwards to the inland settlement. */
  lemma RowIsLand(p: Plan, k: int, y: nat)
    requires p.Valid() && y < p.g.height && 0 <= k
    requires if p.west then p.OutletX() + k <= p.InlandX() else p.OutletX() - k >= p.InlandX()
    ensures 0 <= p.Inward(p.OutletX(), k) < p.g.width
    ensures p.rows[y] == BaseWater(p.g) ==> !p.Sea(p.Inward(p.OutletX(), k), y)
    ensures 0 <= p.InlandX() < p.g.width && !p.Sea(p.InlandX(), y)
  {
    PlanNumbers(p);
  }

  lemma {:induction false} ReachAlongRow(p: Plan, ts: seq<Tile>, ties: seq<bool>, k: int)
    requires p.Valid() && IsGround(p, ts, true) && |ties| == |ts| && 0 <= k
    requires if p.west then p.OutletX() + k <= p.InlandX() else p.OutletX() - k >= p.InlandX()
    ensures 0 <= p.Inward(p.OutletX(), k) < p.g.width
    ensures Reachable(p.g, Costs(ts, ties), CoastalTile(p), Index(p.g, p.Inward(p.OutletX(), k), p.CoastalY()))
    decreases k
  {
    hide Index, X, Y, IsGround, Costs, Plan.Sea, Adj;
    RowIsLand(p, k, p.CoastalY());
    var c := Costs(ts, ties);
    OffCourse(p);
    GroundSize(p, ts);
    if k == 0 {
      var q := [CoastalTile(p)];
      assert RouteTo(p.g, c, CoastalTile(p), CoastalTile(p), q);
    } else {
      RowIsLand(p, k - 1, p.CoastalY());
      ReachAlongRow(p, ts, ties, k - 1);
      LandIsPassable(p, ts, ties, p.Inward(p.OutletX(), k), p.CoastalY());
      NextTo(p, p.Inward(p.OutletX(), k - 1), p.CoastalY(), p.Inward(p.OutletX(), k));
      ReachNext(p.g, c, CoastalTile(p), Index(p.g, p.Inward(p.OutletX(), k - 1), p.CoastalY()),
                Index(p.g, p.Inward(p.OutletX(), k), p.CoastalY()));
    }
  }

  lemma GroundSize(p: Plan, ts: seq<Tile>)
    requires p.Valid() && IsGround(p, ts, true)
    ensures |ts| == p.g.Count()
  {
  }

  lemma Below1(p: Plan, x: nat, y: nat)
    requires x < p.g.width && y + 1 < p.g.height
    ensures Adj(p.g, Index(p.g, x, y), Index(p.g, x, y + 1))
  {
    hide Index, X, Y;
    IndexCoordinates(p.g, x, y);
    IndexCoordinates(p.g, x, y + 1);
  }

  lemma {:induction false} ReachDownColumn(p: Plan, ts: seq<Tile>, ties: seq<bool>, y: nat)
    requires p.Valid() && IsGround(p, ts, true) && |ties| == |ts|
    requires p.CoastalY() <= y <= p.InlandY()
    ensures 0 <= p.InlandX() < p.g.width
    ensures Reachable(p.g, Costs(ts, ties), CoastalTile(p), Index(p.g, p.InlandX(), y))
    decreases y
  {
    hide Index, X, Y, IsGround, Costs, Plan.Sea, Adj, Reachable;
    var k := if p.west then p.InlandX() - p.OutletX() else p.OutletX() - p.InlandX();
    WayInland(p);
    RowIsLand(p, k, y);
    if y == p.CoastalY() {
      ReachAlongRow(p, ts, ties, k);
    } else {
      ReachDownColumn(p, ts, ties, y - 1);
      LandIsPassable(p, ts, ties, p.InlandX(), y);
      Below1(p, p.InlandX(), y - 1);
      ReachNext(p.g, Costs(ts, ties), CoastalTile(p), Index(p.g, p.InlandX(), y - 1), Index(p.g, p.InlandX(), y));
    }
  }

  lemma WayInland(p: Plan)
    requires p.Valid()
    ensures if p.west then p.OutletX() < p.InlandX() else p.OutletX() > p.InlandX()
    ensures p.CoastalY() <= p.InlandY() < p.g.height
  {
    PlanNumbers(p);
  }

  /** So the road search never fails for want of a land route. */
  lemma InlandIsReachable(p: Plan, ts: seq<Tile>, ties: seq<bool>)
    requires p.Valid() && IsGround(p, ts, true) && |ties| == |ts|
    ensures Reachable(p.g, Costs(ts, ties), CoastalTile(p), InlandTile(p))
  {
    hide Index, IsGround, Costs, Reachable;
    WayInland(p);
    ReachDownColumn(p, ts, ties, p.InlandY());
  }

  /** The fallback's representatives make the coverage test pass. */
  lemma RepresentedIsCovered(p: Plan, ts: seq<Tile>)
    requires p.Valid() && IsGround(p, ts, true) && Represented(p, ts)
    ensures CoverageOk(ts)
  {
    hide Index, SeaTile, CoastalTile, InlandTile, WetlandTile, ForestTile, GrassTile, Course, WetlandsOk, GroundTile,
      Plan.Valid;
    FallbackTilesInGrid(p);
    SettlementTiles(p, ts);
    var sea := SomeSea(p, ts);
    assert sea in TerrainSet(ts, WATER);
    assert WetlandTile(p) in TerrainSet(ts, WETLANDS);
    assert ForestTile(p) in TerrainSet(ts, FOREST);
    assert GrassTile(p) in TerrainSet(ts, GRASSLAND);
    assert Course(p)[|Course(p)| - 1] in TerrainSet(ts, HILLS);
  }

  lemma SomeSea(p: Plan, ts: seq<Tile>) returns (i: nat)
    requires p.Valid() && IsGround(p, ts, true)
    ensures i < |ts| && ts[i].terrain == WATER
  {
    hide Index, Plan.Sea;
    ShoreTouchesSea(p);
    SeaAt(p, SeawardX(p), p.outletY);
    i := Index(p.g, SeawardX(p), p.outletY);
    GroundFollowsPlan(p, ts, true);
  }
}
