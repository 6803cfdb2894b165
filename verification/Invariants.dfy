/** What a valid world is, stated on its tiles without reference to how it is checked. */
module Invariants {
  import opened Grid
  import opened World
  import opened TilePath

  datatype Overlay = River | Road

  predicate Marked(t: Tile, kind: Overlay) {
    match kind
    case River => t.overlays.river
    case Road => t.overlays.road
  }

  ghost function OverlaySet(ts: seq<Tile>, kind: Overlay): (S: set<nat>)
    ensures NONE32 in S ==> |ts| > NONE32
  {
    set i | 0 <= i < |ts| && Marked(ts[i], kind)
  }

  ghost function LandSet(ts: seq<Tile>): set<nat> {
    set i | 0 <= i < |ts| && ts[i].terrain != WATER
  }

  ghost function TerrainSet(ts: seq<Tile>, terrain: u32): set<nat> {
    set i | 0 <= i < |ts| && ts[i].terrain == terrain
  }

  ghost predicate Touches(g: Dims, ts: seq<Tile>, i: int, terrain: u32) {
    exists j :: 0 <= j < |ts| && Adj(g, i, j) && ts[j].terrain == terrain
  }

  predicate LandAt(g: Dims, ts: seq<Tile>, x: nat, y: nat)
    requires |ts| == g.Count() && x < g.width && y < g.height
  {
    IndexCoordinates(g, x, y);
    ts[Index(g, x, y)].terrain != WATER
  }

  // ----- land and coast

  /** In row y, land is exactly the columns first..last. */
  ghost predicate LandRun(g: Dims, ts: seq<Tile>, y: nat, first: nat, last: nat)
    requires |ts| == g.Count() && y < g.height
  {
    && first <= last < g.width
    && forall x: nat :: x < g.width ==> (LandAt(g, ts, x, y) <==> first <= x <= last)
  }

  ghost predicate RowOverlap(g: Dims, ts: seq<Tile>, y: nat)
    requires |ts| == g.Count() && 0 < y < g.height
  {
    exists x: nat :: x < g.width && LandAt(g, ts, x, y - 1) && LandAt(g, ts, x, y)
  }

  ghost predicate RowHasRun(g: Dims, ts: seq<Tile>, y: nat)
    requires |ts| == g.Count() && y < g.height
  {
    exists first: nat, last: nat :: LandRun(g, ts, y, first, last)
  }

  /** Land fills between 55 and 80 percent of the grid; each row holds one unbroken
      run of land, sharing a column with the run of the row above. */
  ghost predicate CoastOk(g: Dims, ts: seq<Tile>)
    requires |ts| == g.Count()
  {
    && 55 * |ts| <= 100 * |LandSet(ts)| <= 80 * |ts|
    && (forall y: nat :: y < g.height ==> RowHasRun(g, ts, y))
    && (forall y: nat :: 0 < y < g.height ==> RowOverlap(g, ts, y))
  }

  // ----- river

  ghost predicate Rising(ts: seq<Tile>, p: seq<nat>)
    requires ElementsIn(ts, p)
  {
    forall k :: 0 < k < |p| ==> ts[p[k - 1]].elevation < ts[p[k]].elevation
  }

  predicate ElementsIn(ts: seq<Tile>, p: seq<nat>) {
    forall k :: 0 <= k < |p| ==> 0 <= p[k] < |ts|
  }

  ghost predicate FarFrom(g: Dims, ts: seq<Tile>, i: nat, terrain: u32, least: nat) {
    forall j: nat :: j < |ts| && ts[j].terrain == terrain ==> Distance(g, i, j) >= least
  }

  /** p lists the river from its outlet to its source: one induced path of at least nine
      tiles, strictly rising, leaving the sea at its only marked outlet and springing
      from hills at least eight steps from any water. */
  ghost predicate RiverPath(g: Dims, ts: seq<Tile>, p: seq<nat>) {
    && InducedPath(g, OverlaySet(ts, River), p)
    && |p| >= 9
    && ElementsIn(ts, p)
    && (forall i :: 0 <= i < |ts| ==> (ts[i].overlays.outlet <==> i == p[0]))
    && Touches(g, ts, p[0], WATER)
    && (forall i :: 0 <= i < |ts| && ts[i].overlays.river ==>
          ts[i].terrain != WATER && ts[i].terrain != SETTLEMENT)
    && Rising(ts, p)
    && ts[p[|p| - 1]].terrain == HILLS
    && FarFrom(g, ts, p[|p| - 1], WATER, 8)
  }

  ghost predicate RiverOk(g: Dims, ts: seq<Tile>) {
    exists p :: RiverPath(g, ts, p)
  }

  // ----- settlements

  predicate OnGrid(g: Dims, e: Entity) { e.x < g.width && e.y < g.height }

  function Site(g: Dims, e: Entity): nat { Index(g, e.x, e.y) }

  ghost predicate SettlementTile(g: Dims, ts: seq<Tile>, e: Entity)
    requires |ts| == g.Count() && OnGrid(g, e)
  {
    IndexCoordinates(g, e.x, e.y);
    ts[Site(g, e)].terrain == SETTLEMENT && ts[Site(g, e)].settlement == e.id
  }

  /** Exactly two settlement tiles, carrying the two settlements: the coastal one on the
      sea beside the river mouth, the inland one at least twelve steps from it and at
      least four from any water. */
  ghost predicate SettlementsOk(g: Dims, ts: seq<Tile>, coastal: Entity, inland: Entity, outlet: nat)
    requires |ts| == g.Count()
  {
    && coastal.kind == KIND_COASTAL && inland.kind == KIND_INLAND
    && OnGrid(g, coastal) && OnGrid(g, inland)
    && SettlementTile(g, ts, coastal) && SettlementTile(g, ts, inland)
    && Touches(g, ts, Site(g, coastal), WATER)
    && Manhattan(coastal.x, coastal.y, X(g, outlet), Y(g, outlet)) == 1
    && Manhattan(coastal.x, coastal.y, inland.x, inland.y) >= 12
    && (forall i :: 0 <= i < |ts| && ts[i].terrain != SETTLEMENT ==> ts[i].settlement == 0)
    && |TerrainSet(ts, SETTLEMENT)| == 2
    && (forall j: nat :: j < |ts| && ts[j].terrain == WATER ==>
          Manhattan(inland.x, inland.y, X(g, j), Y(g, j)) >= 4)
  }

  // ----- road

  ghost function CrossingSet(ts: seq<Tile>): set<nat> {
    set i | 0 <= i < |ts| && ts[i].overlays.road && ts[i].overlays.river
  }

  /** p lists the road from one settlement to the other: one induced path over land whose
      marked crossings are exactly its river tiles, at most one of them, and that one not
      the road's lower-numbered end. */
  ghost predicate RoadPath(g: Dims, ts: seq<Tile>, coastal: nat, inland: nat, p: seq<nat>) {
    && InducedPath(g, OverlaySet(ts, Road), p)
    && |p| >= 2
    && ElementsIn(ts, p)
    && p[0] == coastal && p[|p| - 1] == inland
    && (forall i :: 0 <= i < |ts| && ts[i].overlays.road ==> ts[i].terrain != WATER)
    && (forall i :: 0 <= i < |ts| ==>
          (ts[i].overlays.crossing <==> ts[i].overlays.road && ts[i].overlays.river))
    && |CrossingSet(ts)| <= 1
    && Lesser(coastal, inland) !in CrossingSet(ts)
  }

  ghost predicate RoadOk(g: Dims, ts: seq<Tile>, coastal: Entity, inland: Entity) {
    && OnGrid(g, coastal) && OnGrid(g, inland)
    && exists p :: RoadPath(g, ts, Site(g, coastal), Site(g, inland), p)
  }

  // ----- per-tile rules, coverage and ownership

  ghost predicate WetlandWatered(g: Dims, ts: seq<Tile>, i: nat)
    requires i < |ts|
  {
    || ts[i].overlays.river
    || Touches(g, ts, i, WATER)
    || exists j :: 0 <= j < |ts| && Adj(g, i, j) && ts[j].overlays.river
  }

  ghost predicate TileOk(g: Dims, ts: seq<Tile>, i: nat)
    requires i < |ts|
  {
    var t := ts[i];
    && t.overlays.rest == 0
    && WATER <= t.terrain <= SETTLEMENT
    && (if t.terrain == WATER then t.elevation == 0 else t.elevation > 0)
    && t.rainfall <= 5000
    && (t.terrain == WETLANDS ==> WetlandWatered(g, ts, i))
  }

  ghost predicate TilesOk(g: Dims, ts: seq<Tile>) {
    forall i: nat :: i < |ts| ==> TileOk(g, ts, i)
  }

  ghost predicate CoverageOk(ts: seq<Tile>) {
    && (forall terrain: u32 :: WATER <= terrain <= WETLANDS ==> TerrainSet(ts, terrain) != {})
    && |TerrainSet(ts, SETTLEMENT)| == 2
  }

  predicate Unplaced(e: Entity) { e.x == NONE32 && e.y == NONE32 }

  /** The entity table, the region record and the map agree on identities and owners. */
  ghost predicate OwnershipOk(g: Dims, es: seq<Entity>, r: Region, riverCount: u32, roadCount: u32, outlet: nat)
    requires |es| == ENTITY_COUNT && g.Valid() && outlet < g.Count()
  {
    var region, coastal, inland, polity := es[0], es[1], es[2], es[3];
    && (forall k :: 0 <= k < ENTITY_COUNT ==>
          es[k].id == EntityId(k + 1) && |es[k].name| < MAX_NAME_BYTES && es[k].regionId == region.id)
    && OnGrid(g, coastal) && OnGrid(g, inland)
    && Unplaced(region) && Unplaced(polity) && Unplaced(es[4]) && Unplaced(es[5])
    && region.kind == KIND_REGION && polity.kind == KIND_POLITY
    && es[4].kind == KIND_FOREIGN && es[5].kind == KIND_FOREIGN
    && region.ownerId == coastal.ownerId == inland.ownerId == polity.ownerId == polity.id
    && es[4].ownerId == es[4].id && es[5].ownerId == es[5].id
    && (IndexCoordinates(g, coastal.x, coastal.y);
        IndexCoordinates(g, inland.x, inland.y);
        r == Region(region.id, polity.id, coastal.id, inland.id, es[4].id, es[5].id,
                    TileId(outlet), TileId(Site(g, coastal)), TileId(Site(g, inland)),
                    riverCount, roadCount))
  }

  /** A world that passes every authoritative invariant.  riverTileCount, roadTileCount and
      landTileCount are the counters the world record carries. */
  ghost predicate WorldOk(s: State)
    requires s.WellFormed()
  {
    var g, ts := s.config.dims, s.tiles;
    && SizesOk(g)
    && TilesOk(g, ts)
    && CoastOk(g, ts)
    && CoverageOk(ts)
    && s.landTileCount == |LandSet(ts)|
    && s.riverTileCount == |OverlaySet(ts, River)|
    && s.roadTileCount == |OverlaySet(ts, Road)|
    && RoadOk(g, ts, s.entities[1], s.entities[2])
    && exists p: seq<nat> :: RiverPath(g, ts, p)
         && SettlementsOk(g, ts, s.entities[1], s.entities[2], p[0])
         && OwnershipOk(g, s.entities, s.region, s.riverTileCount, s.roadTileCount, p[0])
  }
}
