/** World generation: one candidate built from its draws, and the bounded attempt loop. */
module Generate {
  import opened Counting
  import opened Grid
  import opened World
  import opened TilePath
  import opened Invariants
  import opened Validate
  import opened ShortestRoad
  import opened RoadBuilder
  import opened Layout
  import opened Coast
  import opened Elevation
  import opened River
  import opened Ground
  import opened Biomes
  import opened Placement
  import opened Attempt
  import opened Hashing

  datatype Reason = RequiredDensityZero | TerrainCoverage | Hydrology | SettlementPlacement | RoadCorridor | Invariant

  datatype Verdict = Accepted | Rejected(reason: Reason)

  // ----- entities

  function EntityAt(slot: u32, kind: u32, x: u32, y: u32, owner: u64, name: Bytes): Entity {
    Entity(EntityId(slot), kind, x, y, EntityId(1), owner, name)
  }

  function InitialEntities(coastalX: u32, coastalY: u32, inlandX: u32, inlandY: u32, names: seq<Bytes>): seq<Entity>
    requires |names| == ENTITY_COUNT
  {
    [EntityAt(1, KIND_REGION, NONE32, NONE32, EntityId(4), names[0]),
     EntityAt(2, KIND_COASTAL, coastalX, coastalY, EntityId(4), names[1]),
     EntityAt(3, KIND_INLAND, inlandX, inlandY, EntityId(4), names[2]),
     EntityAt(4, KIND_POLITY, NONE32, NONE32, EntityId(4), names[3]),
     EntityAt(5, KIND_FOREIGN, NONE32, NONE32, EntityId(5), names[4]),
     EntityAt(6, KIND_FOREIGN, NONE32, NONE32, EntityId(6), names[5])]
  }

  /** fd_initialize_entities, with the six names drawn beforehand. */
  method InitializeEntities(w: Game, coastalX: u32, coastalY: u32, inlandX: u32, inlandY: u32, outlet: u32,
                            names: seq<Bytes>)
    requires w.Valid() && |names| == ENTITY_COUNT
    requires coastalX < w.config.dims.width && coastalY < w.config.dims.height
    requires inlandX < w.config.dims.width && inlandY < w.config.dims.height
    modifies w`entities, w`region
    ensures w.Valid() && w.entities == InitialEntities(coastalX, coastalY, inlandX, inlandY, names)
    ensures Index(w.config.dims, coastalX, coastalY) < w.config.dims.Count()
    ensures Index(w.config.dims, inlandX, inlandY) < w.config.dims.Count()
    ensures w.region == Region(EntityId(1), EntityId(4), EntityId(2), EntityId(3), EntityId(5), EntityId(6),
                               TileId(outlet), TileId(Index(w.config.dims, coastalX, coastalY)),
                               TileId(Index(w.config.dims, inlandX, inlandY)),
                               old(w.region.riverTileCount), old(w.region.roadTileCount))
    ensures forall k :: 0 <= k < 6 ==>
              && w.entities[k].id == 0x1_0000_0001 + k && w.entities[k].regionId == 0x1_0000_0001
              && w.entities[k].kind == [1, 2, 3, 4, 5, 5][k] && w.entities[k].name == names[k]
              && w.entities[k].ownerId == (if k < 4 then 0x1_0000_0004 else 0x1_0000_0001 + k)
              && (k != 1 && k != 2 ==> w.entities[k].x == w.entities[k].y == 0xFFFF_FFFF)
    ensures w.region.outletTileId == (outlet as int) + 1
    ensures w.region.roadStartTileId == coastalY * w.config.dims.width + coastalX + 1
    ensures w.region.roadEndTileId == inlandY * w.config.dims.width + inlandX + 1
  {
    var g := w.config.dims;
    IndexCoordinates(g, coastalX, coastalY);
    IndexCoordinates(g, inlandX, inlandY);
    w.entities := InitialEntities(coastalX, coastalY, inlandX, inlandY, names);
    w.region := w.region.(
      id := w.entities[0].id, politicalOwnerId := w.entities[3].id,
      settlement0 := w.entities[1].id, settlement1 := w.entities[2].id,
      foreign0 := w.entities[4].id, foreign1 := w.entities[5].id,
      outletTileId := TileId(outlet),
      roadStartTileId := TileId(Index(g, coastalX, coastalY)),
      roadEndTileId := TileId(Index(g, inlandX, inlandY)));
  }

  // ----- the finished map

  lemma RoadKeepsGround(p: Plan, before: seq<Tile>, after: seq<Tile>, route: seq<nat>)
    requires p.Valid() && IsGround(p, before, true) && RoadDrawn(before, after, route)
    ensures IsGround(p, after, true)
    ensures Represented(p, before) ==> Represented(p, after)
  {
    hide Index, SeaTile, CoastalTile, InlandTile, WetlandTile, ForestTile, GrassTile, WetlandWatered, Course,
      Plan.Valid;
    FallbackTilesInGrid(p);
    forall i: nat | i < |after| ensures GroundTile(p, after[i], i, true) {
      assert GroundTile(p, before[i], i, true);
    }
    assert SameWaters(before, after);
    forall i: nat | i < |after| && after[i].terrain == WETLANDS ensures WetlandWatered(p.g, after, i) {
      WateredAlike(p.g, before, after, i);
    }
    forall k | 0 <= k < |Course(p)| ensures after[Course(p)[k]].elevation == 100 + k {
      assert before[Course(p)[k]].elevation == 100 + k;
    }
  }

  /** A ground with a short enough road has every road property the validator asks for. */
  lemma RoadIsValid(p: Plan, before: seq<Tile>, after: seq<Tile>, route: seq<nat>, ties: seq<bool>)
    requires p.Valid() && IsGround(p, before, true) && NoRoad(before) && |ties| == |before|
    requires RoadDrawn(before, after, route) && ElementsIn(before, route) && AtMostOneRiver(before, route)
    requires Distinct(route) && Chordless(p.g, route)
    requires RouteTo(p.g, Costs(before, ties), CoastalTile(p), InlandTile(p), route)
    ensures RoadPath(p.g, after, CoastalTile(p), InlandTile(p), route)
    ensures |OverlaySet(after, Road)| == |route|
  {
    hide Index, SeaTile, CoastalTile, InlandTile, Course, WetlandsOk, Bedded, Plan.Valid, AtMostOneRiver, Adj;
    OffCourse(p);
    assert |route| >= 2;
    forall k | 0 <= k < |route| ensures before[route[k]].terrain != WATER {
      if k > 0 { assert Passable(Costs(before, ties), route[k]); }
      assert GroundTile(p, before[route[k]], route[k], true);
    }
    assert GroundTile(p, before[CoastalTile(p)], CoastalTile(p), true);
    assert GroundTile(p, before[InlandTile(p)], InlandTile(p), true);
    DrawnRoadIsValid(p.g, before, after, route);
    CoverSize(OverlaySet(after, Road), route);
  }

  /** Land count: the paint decides it, and nothing later moves the shore. */
  lemma LandCountStands(p: Plan, ts: seq<Tile>)
    requires p.Valid() && IsGround(p, ts, true)
    ensures |LandSet(ts)| == |LandSet(Painted(p))|
  {
    hide Index, Painted, SeaTile;
    GroundFollowsPlan(p, ts, true);
    forall i: nat ensures i in LandSet(ts) <==> i in LandSet(Painted(p)) {
      if i < |ts| { PaintedWater(p, i); }
    }
    assert LandSet(ts) == LandSet(Painted(p));
  }

  lemma PaintedWater(p: Plan, i: nat)
    requires p.Valid() && i < p.g.Count()
    ensures Painted(p)[i].terrain == WATER <==> SeaTile(p, i)
  {
    hide Painted, Index, X, Y;
    CoordinatesIndex(p.g, i);
  }

  lemma EntitiesOwned(p: Plan, names: seq<Bytes>, riverCount: u32, roadCount: u32, outlet: nat)
    requires p.Valid() && |names| == ENTITY_COUNT && outlet < p.g.Count()
    requires forall k :: 0 <= k < ENTITY_COUNT ==> |names[k]| < MAX_NAME_BYTES
    ensures 0 <= p.OutletX() < p.g.width && 0 <= p.InlandX() < p.g.width
    ensures CoastalTile(p) < p.g.Count() && InlandTile(p) < p.g.Count() && p.g.Valid()
    ensures var es := InitialEntities(p.OutletX(), p.CoastalY(), p.InlandX(), p.InlandY(), names);
            OwnershipOk(p.g, es,
                        Region(EntityId(1), EntityId(4), EntityId(2), EntityId(3), EntityId(5), EntityId(6),
                               TileId(outlet), TileId(CoastalTile(p)), TileId(InlandTile(p)), riverCount, roadCount),
                        riverCount, roadCount, outlet)
  {
    hide Index;
    ShoreTouchesSea(p);
    OffCourse(p);
    var es := InitialEntities(p.OutletX(), p.CoastalY(), p.InlandX(), p.InlandY(), names);
    forall k | 0 <= k < ENTITY_COUNT
      ensures es[k].id == EntityId(k + 1) && |es[k].name| < MAX_NAME_BYTES && es[k].regionId == es[0].id
    {
    }
  }

  /** The entity table and region record that belong to a plan. */
  ghost predicate EntitiesLaid(p: Plan, names: seq<Bytes>, es: seq<Entity>, r: Region, river: u32, road: u32)
    requires p.Valid()
  {
    && |names| == ENTITY_COUNT
    && 0 <= p.OutletX() < p.g.width && 0 <= p.InlandX() < p.g.width && p.g.width <= MAX_WIDTH
    && 0 <= p.InlandY() && p.g.height <= MAX_HEIGHT
    && es == InitialEntities(p.OutletX(), p.CoastalY(), p.InlandX(), p.InlandY(), names)
    && CoastalTile(p) < p.g.Count() && InlandTile(p) < p.g.Count() && Course(p)[0] < p.g.Count() && p.g.Valid()
    && r == Region(EntityId(1), EntityId(4), EntityId(2), EntityId(3), EntityId(5), EntityId(6),
                   TileId(Course(p)[0]), TileId(CoastalTile(p)), TileId(InlandTile(p)), river, road)
  }

  ghost predicate Recorded(p: Plan, s: State, names: seq<Bytes>)
    requires p.Valid() && s.WellFormed() && s.config.dims == p.g
  {
    EntitiesLaid(p, names, s.entities, s.region, s.riverTileCount, s.roadTileCount)
  }

  // ----- one candidate

  /** Up to the river: coast, elevation, carving.  The hydrology rejection is dead code. */
  method LayWaters(w: Game, d: Draws, fallback: bool, ghost p: Plan) returns (outlet: nat, ghost raised: seq<Tile>)
    requires w.Valid() && SizesOk(w.config.dims) && d.Valid(w.config.dims)
    requires p == PlanOf(w.config.dims, d, fallback) && p.Valid()
    modifies w`landTileCount, w`riverRaisedTileCount, w`riverMinCarve, w`riverTileCount, w.tiles
    ensures IsRaised(p, raised) && RiverDrawn(Course(p), raised, w.tiles[..])
    ensures Uplifted(p.g, Painted(p), raised, d.lattice)
    ensures outlet == Course(p)[0]
    ensures w.landTileCount == |LandSet(Painted(p))| && w.riverTileCount == |Course(p)|
    ensures w.riverRaisedTileCount == 0
    ensures LeastCarve(Course(p), raised, |Course(p)|, NONE32, w.riverMinCarve)
  {
    hide Plan.Valid, Painted, LeastCarve, IsRaised, AllFit, RiverDrawn, Modest, Uplifted, Course, LandSet;
    var g := w.config.dims;
    PlanFields(g, d, fallback, p);
    PaintCoast(w, d, fallback, p);
    PaintedIsModest(p);
    LatticeDraws(g, d);
    ApplyElevation(w, d.lattice);
    raised := w.tiles[..];
    UpliftedIsRaised(p, raised, d.lattice);
    CourseFits(p, raised);
    CourseBound(p);
    var outletY := OutletRow(g, d.outletOffset);
    var result, count;
    result, outlet, count := ConstructRiver(w, d.facing == 0, BaseWater(g), outletY,
                                            SourceRow(g, outletY, d.sourceChoice), d.tie, p);
    if result != CarveOk {
      assert false;
    }
    w.riverTileCount := count;
  }

  lemma PlanFields(g: Dims, d: Draws, fallback: bool, p: Plan)
    requires |d.coast| == g.height && p == PlanOf(g, d, fallback)
    ensures p.g == g && p.west == (d.facing == 0) && p.outletY == OutletRow(g, d.outletOffset) && p.tie == d.tie
    ensures p.sourceY == SourceRow(g, p.outletY, d.sourceChoice)
  {
  }

  lemma LatticeDraws(g: Dims, d: Draws)
    requires d.Valid(g)
    ensures forall o: nat, gy: nat, gx: nat :: d.lattice(o, gy, gx) < 1024
  {
  }

  /** The three forced terrains of the last attempt. */
  method ForceTerrains(w: Game, west: bool, coastalX: nat, coastalY: nat, inlandX: nat, inlandY: nat, ghost p: Plan)
    requires w.Valid() && p.Valid() && p.g == w.config.dims && west == p.west
    requires coastalX == p.OutletX() && coastalY == p.CoastalY() && inlandX == p.InlandX() && inlandY == p.InlandY()
    modifies w.tiles
    ensures w.tiles[..] == Represent(p, old(w.tiles[..]))
  {
    hide Index, Plan.Valid, Plan.OutletX, Plan.InlandX, Plan.InlandY, Plan.CoastalY, SeaTile, CoastalTile, InlandTile,
      Course;
    FallbackTilesInGrid(p);
    FallbackInGrid(p);
    ghost var ts := w.tiles[..];
    var g := w.config.dims;
    var middleX := (coastalX + inlandX) / 2;
    var wetland := Index(g, middleX, coastalY);
    var forest := Index(g, if west then inlandX - 1 else inlandX + 1, inlandY);
    var grass := Index(g, if west then inlandX - 2 else inlandX + 2, inlandY);
    assert wetland == WetlandTile(p) && forest == ForestTile(p) && grass == GrassTile(p);
    hide WetlandTile, ForestTile, GrassTile;
    w.tiles[wetland] := w.tiles[wetland].(terrain := WETLANDS);
    w.tiles[forest] := w.tiles[forest].(terrain := FOREST);
    w.tiles[grass] := w.tiles[grass].(terrain := GRASSLAND);
    assert w.tiles[..] == Represent(p, ts);
  }

  /** Entities, and the two settlements on the map. */
  method PlaceTowns(w: Game, coastalX: nat, coastalY: nat, inlandX: nat, inlandY: nat, outlet: nat, names: seq<Bytes>,
                    ghost p: Plan)
    returns (coastal: nat, inland: nat)
    requires w.Valid() && p.Valid() && p.g == w.config.dims && |names| == ENTITY_COUNT
    requires coastalX == p.OutletX() && coastalY == p.CoastalY() && inlandX == p.InlandX() && inlandY == p.InlandY()
    requires outlet == Course(p)[0]
    modifies w`entities, w`region, w.tiles
    ensures w.Valid() && w.tiles[..] == Settle(p, old(w.tiles[..]))
    ensures coastal == CoastalTile(p) && inland == InlandTile(p)
    ensures EntitiesLaid(p, names, w.entities, w.region, old(w.region.riverTileCount), old(w.region.roadTileCount))
  {
    hide Index, Plan.Valid, Settle, Course, SeaTile, CoastalTile, InlandTile, Plan.OutletX, Plan.InlandX, Plan.InlandY,
      Plan.CoastalY;
    Sites(p);
    OffCourse(p);
    CourseBound(p);
    var g := w.config.dims;
    ghost var ground := w.tiles[..];
    InitializeEntities(w, coastalX, coastalY, inlandX, inlandY, outlet, names);
    coastal, inland := Index(g, coastalX, coastalY), Index(g, inlandX, inlandY);
    StampTwo(p, ground);
    w.tiles[coastal] := w.tiles[coastal].(terrain := SETTLEMENT, settlement := w.entities[1].id);
    w.tiles[inland] := w.tiles[inland].(terrain := SETTLEMENT, settlement := w.entities[2].id);
    assert w.tiles[..] == Settle(p, ground);
  }

  /** Everything before the road: the ground with its settlements and its entities. */
  method LayGround(w: Game, d: Draws, fallback: bool, ghost p: Plan) returns (coastal: nat, inland: nat)
    requires w.Valid() && SizesOk(w.config.dims) && d.Valid(w.config.dims)
    requires p == PlanOf(w.config.dims, d, fallback) && p.Valid()
    modifies w`landTileCount, w`riverRaisedTileCount, w`riverMinCarve, w`riverTileCount, w`entities, w`region, w.tiles
    ensures w.Valid() && IsGround(p, w.tiles[..], true) && NoRoad(w.tiles[..])
    ensures fallback ==> Represented(p, w.tiles[..])
    ensures GroundFrom(w.config, d, fallback, w.tiles[..])
    ensures w.landTileCount == |LandSet(Painted(p))| && w.riverTileCount == |Course(p)|
    ensures w.riverRaisedTileCount == 0
    ensures coastal == CoastalTile(p) && inland == InlandTile(p)
    ensures EntitiesLaid(p, d.names, w.entities, w.region, old(w.region.riverTileCount), old(w.region.roadTileCount))
  {
    hide Index, Plan.Valid, Painted, IsRaised, RiverDrawn, IsGround, NoRoad, BiomesTo, Represent, Represented, Settle,
      Course, LandSet, PlanOf, BaseWater, OutletRow, SeaTile, EntitiesLaid, GroundFrom, CoastalTile, InlandTile;
    var g := w.config.dims;
    PlanFields(g, d, fallback, p);
    Sites(p);
    CourseBound(p);
    var west := d.facing == 0;
    var outletY := OutletRow(g, d.outletOffset);
    var coastalX := if west then BaseWater(g) else g.width - BaseWater(g) - 1;
    var coastalY := outletY + 1;
    var inlandX := if west then g.width - 3 else 2;
    var inlandY := g.height - 3;
    ghost var raised;
    var outlet;
    outlet, raised := LayWaters(w, d, fallback, p);
    ghost var carved := w.tiles[..];
    AssignBiomes(w, d.biome);
    BiomesMakeGround(p, raised, carved, w.tiles[..], d.biome, w.config);
    ghost var grown := w.tiles[..];
    GrownSize(p, carved, grown, d.biome, w.config);
    assert Grown(p, w.config, d, raised, carved, grown);
    ghost var ground := grown;
    if fallback {
      ForceTerrains(w, west, coastalX, coastalY, inlandX, inlandY, p);
      RepresentKeepsGround(p, ground);
    }
    ground := w.tiles[..];
    SettleKeepsGround(p, ground);
    coastal, inland := PlaceTowns(w, coastalX, coastalY, inlandX, inlandY, outlet, d.names, p);
    assert w.tiles[..] == Finished(p, fallback, grown);
    GroundIs(p, w.config, d, fallback, raised, carved, grown);
  }

  lemma GroundIs(p: Plan, c: Config, d: Draws, fallback: bool, raised: seq<Tile>, carved: seq<Tile>, ts: seq<Tile>)
    requires SizesOk(c.dims) && d.Valid(c.dims) && p == PlanOf(c.dims, d, fallback) && p.Valid()
    requires Grown(p, c, d, raised, carved, ts)
    ensures GroundFrom(c, d, fallback, Finished(p, fallback, ts))
  {
    hide PlanOf, Plan.Valid, Grown;
  }

  lemma GrownSize(p: Plan, carved: seq<Tile>, ts: seq<Tile>, biome: seq<nat>, c: Config)
    requires p.Valid() && IsGround(p, ts, false) && BiomesTo(p.g, carved, ts, biome, c, |ts|)
    ensures |ts| == |carved| == p.g.Count()
  {
  }

  lemma Sites(p: Plan)
    requires p.Valid()
    ensures 0 <= p.OutletX() < p.g.width && p.CoastalY() < p.g.height
    ensures 0 <= p.InlandX() < p.g.width && 0 <= p.InlandY() < p.g.height
    ensures p.g.width <= MAX_WIDTH && p.g.height <= MAX_HEIGHT
    ensures CoastalTile(p) == Index(p.g, p.OutletX(), p.CoastalY()) && InlandTile(p) == Index(p.g, p.InlandX(), p.InlandY())
  {
    PlanNumbers(p);
  }

  lemma StampTwo(p: Plan, ts: seq<Tile>)
    requires p.Valid() && |ts| == p.g.Count()
    ensures CoastalTile(p) < |ts| && InlandTile(p) < |ts| && CoastalTile(p) != InlandTile(p)
    ensures Settle(p, ts) == ts[CoastalTile(p) := Stamp(ts[CoastalTile(p)], COASTAL_ID)]
                               [InlandTile(p) := Stamp(ts[InlandTile(p)], INLAND_ID)]
  {
    OffCourse(p);
  }

  /** What the finished map satisfies, road included. */
  lemma CandidateMap(p: Plan, ground: seq<Tile>, ts: seq<Tile>, route: seq<nat>, ties: seq<bool>)
    requires p.Valid() && IsGround(p, ground, true) && NoRoad(ground) && |ties| == |ground| == p.g.Count()
    requires RoadDrawn(ground, ts, route) && ElementsIn(ground, route) && AtMostOneRiver(ground, route)
    requires Distinct(route) && Chordless(p.g, route)
    requires RouteTo(p.g, Costs(ground, ties), CoastalTile(p), InlandTile(p), route)
    ensures IsGround(p, ts, true) && |ts| == p.g.Count()
    ensures TilesOk(p.g, ts) && CoastOk(p.g, ts) && RiverPath(p.g, ts, Course(p))
    ensures RoadPath(p.g, ts, CoastalTile(p), InlandTile(p), route)
    ensures |LandSet(ts)| == |LandSet(Painted(p))|
    ensures |OverlaySet(ts, River)| == |Course(p)| && |OverlaySet(ts, Road)| == |route|
    ensures Represented(p, ground) ==> CoverageOk(ts)
  {
    hide Plan.Valid, Index, SeaTile, Course, IsGround, NoRoad, RoadDrawn, AtMostOneRiver, Chordless, CoverageOk,
      CoastOk, TilesOk, RiverPath, RoadPath, RouteTo, Represented, OverlaySet, LandSet, Costs, Painted;
    RoadKeepsGround(p, ground, ts, route);
    GroundFollowsPlan(p, ts, true);
    FollowsSize(p, ts);
    GroundTilesOk(p, ts, true);
    CoastAlwaysOk(p, ts);
    GroundHasRiver(p, ts);
    RoadIsValid(p, ground, ts, route, ties);
    LandCountStands(p, ts);
    if Represented(p, ground) { RepresentedIsCovered(p, ts); }
  }

  lemma FollowsSize(p: Plan, ts: seq<Tile>)
    requires p.Valid() && FollowsPlan(p, ts)
    ensures |ts| == p.g.Count()
  {
  }

  lemma CandidateRecords(p: Plan, s: State, d: Draws)
    requires p.Valid() && d.Valid(p.g) && s.WellFormed() && s.config.dims == p.g && Recorded(p, s, d.names)
    requires IsGround(p, s.tiles, true)
    ensures SettlementsOk(p.g, s.tiles, s.entities[1], s.entities[2], Course(p)[0])
    ensures OwnershipOk(p.g, s.entities, s.region, s.riverTileCount, s.roadTileCount, Course(p)[0])
    ensures OnGrid(p.g, s.entities[1]) && OnGrid(p.g, s.entities[2]) && SizesOk(p.g)
    ensures Site(p.g, s.entities[1]) == CoastalTile(p) && Site(p.g, s.entities[2]) == InlandTile(p)
  {
    hide Index, SeaTile, Course, IsGround, SettlementsOk, OwnershipOk;
    Sites(p);
    GroundHasSettlements(p, s.tiles, s.entities[1], s.entities[2]);
    EntitiesOwned(p, d.names, s.riverTileCount, s.roadTileCount, Course(p)[0]);
  }

  /** With the road drawn and the counters copied, only terrain coverage is still open. */
  lemma CandidateMeetsInvariants(p: Plan, ground: seq<Tile>, s: State, route: seq<nat>, d: Draws)
    requires p.Valid() && d.Valid(p.g) && s.WellFormed() && s.config.dims == p.g
    requires IsGround(p, ground, true) && NoRoad(ground) && |ground| == p.g.Count()
    requires RoadDrawn(ground, s.tiles, route) && ElementsIn(ground, route) && AtMostOneRiver(ground, route)
    requires Distinct(route) && Chordless(p.g, route)
    requires RouteTo(p.g, Costs(ground, d.roadTies), CoastalTile(p), InlandTile(p), route)
    requires Recorded(p, s, d.names)
    requires s.landTileCount == |LandSet(Painted(p))| && s.riverTileCount == |Course(p)| && s.roadTileCount == |route|
    ensures WorldOk(s) <==> CoverageOk(s.tiles)
    ensures Represented(p, ground) ==> CoverageOk(s.tiles)
  {
    hide Plan.Valid, Index, SeaTile, Course, IsGround, NoRoad, RoadDrawn, AtMostOneRiver, Chordless, CoverageOk,
      CoastOk, TilesOk, RiverPath, SettlementsOk, OwnershipOk, RoadPath, RouteTo, Represented, OverlaySet, LandSet,
      Costs, Painted, Recorded;
    CandidateMap(p, ground, s.tiles, route, d.roadTies);
    CandidateRecords(p, s, d);
    assert RoadOk(p.g, s.tiles, s.entities[1], s.entities[2]);
    var q := Course(p);
    assert RiverPath(p.g, s.tiles, q)
      && SettlementsOk(p.g, s.tiles, s.entities[1], s.entities[2], q[0])
      && OwnershipOk(p.g, s.entities, s.region, s.riverTileCount, s.roadTileCount, q[0]);
  }

  lemma RouteOf(g: Dims, c: seq<u32>, start: nat, goal: nat, p: seq<nat>)
    requires CanonicalRoute(g, c, start, goal, p)
    ensures RouteTo(g, c, start, goal, p)
  {
  }

  lemma NamesAreFit(p: Plan, d: Draws)
    requires p.Valid() && d.Valid(p.g)
    requires 0 <= p.OutletX() < p.g.width && 0 <= p.InlandX() < p.g.width && p.g.height <= MAX_HEIGHT && p.g.width <= MAX_WIDTH
    ensures var es := InitialEntities(p.OutletX(), p.CoastalY(), p.InlandX(), p.InlandY(), d.names);
            NamesFit(es) && NamesPrintable(es)
  {
    PlanNumbers(p);
  }

  /** Recording a digest changes neither validity nor the digest to be recorded. */
  lemma HashChangesNothing(sha: HashFunction, s: State, h: Digest)
    requires s.WellFormed() && NamesFit(s.entities)
    ensures s.(stateHash := h).WellFormed() && (WorldOk(s) <==> WorldOk(s.(stateHash := h)))
    ensures StateHash(sha, s.(stateHash := h)) == StateHash(sha, s)
  {
    hide RiverPath, SettlementsOk, OwnershipOk, RoadOk, CoastOk, TilesOk, CoverageOk;
    StateHashIgnoresRecord(sha, s, h);
  }

  lemma AcceptedProduces(c: Config, d: Draws, fallback: bool, ground: seq<Tile>, ts: seq<Tile>, route: seq<nat>)
    requires SizesOk(c.dims) && d.Valid(c.dims) && GroundFrom(c, d, fallback, ground) && |d.roadTies| == |ground|
    requires PlanOf(c.dims, d, fallback).Valid() && RoadFits(PlanOf(c.dims, d, fallback), d, ground, route)
    requires RoadDrawn(ground, ts, route) && CoverageOk(ts)
    ensures Produces(c, d, fallback, ts) && Passes(c, d, fallback)
  {
    hide GroundFrom, RoadFits, RoadDrawn, CoverageOk, PlanOf, Plan.Valid;
    CoverageStands(ground, ts, route);
  }

  /** The end of a candidate: validation, and the digest of an accepted world.  Of the
      rejection reasons only missing terrain can occur. */
  method JudgeCandidate(w: Game, d: Draws, fallback: bool, sha: HashFunction, ghost p: Plan, ghost ground: seq<Tile>,
                        ghost route: seq<nat>)
    returns (verdict: Verdict)
    requires w.Valid() && ConfigOk(w.config) && d.Valid(w.config.dims)
    requires p == PlanOf(w.config.dims, d, fallback) && p.Valid() && p.g == w.config.dims
    requires GroundFrom(w.config, d, fallback, ground) && |d.roadTies| == |ground| && (fallback ==> Represented(p, ground))
    requires IsGround(p, ground, true) && RoadFits(p, d, ground, route) && RoadDrawn(ground, w.tiles[..], route)
    requires Recorded(p, w.Value(), d.names) && (WorldOk(w.Value()) <==> CoverageOk(w.tiles[..]))
    modifies w`stateHash
    ensures w.Valid() && Recorded(p, w.Value(), d.names)
    ensures verdict != Accepted ==>
              verdict == Rejected(TerrainCoverage) && !fallback && !CoverageOk(ground) && !Passes(w.config, d, fallback)
    ensures verdict == Accepted ==> Produces(w.config, d, fallback, w.tiles[..]) && Passes(w.config, d, fallback)
    ensures verdict == Accepted ==> WorldOk(w.Value())
    ensures verdict == Accepted ==>
              NamesFit(w.entities) && NamesPrintable(w.entities) && w.stateHash == StateHash(sha, w.Value())
  {
    hide Index, Plan.Valid, Course, IsGround, RoadDrawn, AtMostOneRiver, CoverageOk, PlanOf, Represented, Costs,
      CrossesTwice, WorldOk, MouthSettled, MouthOwned, StateHash, TilesOk, CoastOk, RoadOk, RiverOk, GroundFrom, Passes,
      Produces, RoadFits, CoastalTile, InlandTile, OverlaySet, LandSet, CountsMean, Plan.OutletX, Plan.InlandX,
      Draws.Valid;
    ghost var s := w.Value();
    CoverageStands(ground, w.tiles[..], route);
    if fallback { RepresentedIsCovered(p, ground); }
    var report := ValidateWorld(w);
    if !report.AllPassed() {
      var reason :=
        if !report.coverage then TerrainCoverage
        else if !report.hydrology then Hydrology
        else if !report.settlements then SettlementPlacement
        else Invariant;
      PassesUnless(w.config, d, fallback, ground);
      return Rejected(reason);
    }
    NamesAreFit(p, d);
    AcceptedProduces(w.config, d, fallback, ground, w.tiles[..], route);
    w.stateHash := StateHash(sha, w.Value());
    HashChangesNothing(sha, s, w.stateHash);
    verdict := Accepted;
  }

  /** fd_generate_candidate.  Whatever the draws, a candidate can only be rejected because
      its shortest road meets the river twice or, before the last attempt, because some
      terrain is missing; what is accepted satisfies every invariant and is the one map its
      draws lead to. */
  method GenerateCandidate(w: Game, d: Draws, fallback: bool, sha: HashFunction)
    returns (verdict: Verdict, ghost ground: seq<Tile>)
    requires w.Valid() && ConfigOk(w.config) && d.Valid(w.config.dims)
    modifies w, w.tiles
    ensures w.Valid() && w.tick == old(w.tick)
    ensures var p := PlanOf(w.config.dims, d, fallback);
            && p.Valid() && IsGround(p, ground, true) && NoRoad(ground)
            && (verdict == Rejected(RoadCorridor) <==>
                  CrossesTwice(p.g, ground, Costs(ground, d.roadTies), CoastalTile(p), InlandTile(p)))
    ensures GroundFrom(w.config, d, fallback, ground)
    ensures verdict == Accepted <==> Passes(w.config, d, fallback)
    ensures verdict == Accepted ==>
              && Produces(w.config, d, fallback, w.tiles[..])
              && Recorded(PlanOf(w.config.dims, d, fallback), w.Value(), d.names)
    ensures verdict == Accepted ==> WorldOk(w.Value()) && w.riverRaisedTileCount == 0
    ensures verdict == Accepted ==>
              NamesFit(w.entities) && NamesPrintable(w.entities) && w.stateHash == StateHash(sha, w.Value())
    ensures verdict.Rejected? ==> verdict.reason in {TerrainCoverage, RoadCorridor}
    ensures verdict == Rejected(TerrainCoverage) ==> !fallback && !CoverageOk(ground)
  {
    hide Index, Plan.Valid, SeaTile, Course, IsGround, NoRoad, RoadDrawn, AtMostOneRiver, Chordless, CoverageOk, PlanOf,
      RouteTo, Represented, OverlaySet, LandSet, Costs, Painted, CanonicalStep, IsDistance, Reachable, CrossesTwice,
      WorldOk, RiverOk, MouthSettled, StateHash, TilesOk, CoastOk, RoadOk, GroundFrom, Passes, Produces;
    var g := w.config.dims;
    PlanIsValid(g, d, fallback);
    ghost var p := PlanOf(g, d, fallback);
    PlanFields(g, d, fallback, p);
    var coastal, inland := LayGround(w, d, fallback, p);
    ground := w.tiles[..];
    TiesFit(p, ground, d);
    InlandIsReachable(p, ground, d.roadTies);
    var code;
    ghost var route;
    code, route := ConstructRoad(w, d.roadTies, coastal, inland);
    if code != Ok {
      PassesUnless(w.config, d, fallback, ground);
      return Rejected(RoadCorridor), ground;
    }
    w.region := w.region.(riverTileCount := w.riverTileCount, roadTileCount := w.roadTileCount);
    RouteOf(g, Costs(ground, d.roadTies), coastal, inland, route);
    Sites(p);
    assert Recorded(p, w.Value(), d.names);
    CandidateMeetsInvariants(p, ground, w.Value(), route, d);
    verdict := JudgeCandidate(w, d, fallback, sha, p, ground, route);
  }

  // ----- the bounded attempt loop

  /** What the report records: the accepted attempt, if any, and why each earlier one failed. */
  datatype GenerationReport = GenerationReport(accepted: bool, rejections: seq<Reason>)

  datatype Outcome = Generated | InvalidInput | OverCapacity | Exhausted

  const NO_ENTITY := Entity(0, 0, 0, 0, 0, 0, [])
  const NO_REGION := Region(0, 0, 0, 0, 0, 0, 0, 0, 0, 0, 0)

  /** One draw of everything for each attempt. */
  ghost predicate DrawsFor(c: Config, draws: seq<Draws>) {
    |draws| == c.attemptBudget && forall k :: 0 <= k < |draws| ==> draws[k].Valid(c.dims)
  }

  /** Attempt k passes; the last one is the constructive fallback. */
  ghost predicate AttemptPasses(c: Config, draws: seq<Draws>, k: nat)
    requires SizesOk(c.dims) && DrawsFor(c, draws) && k < |draws|
  {
    Passes(c, draws[k], k + 1 == |draws|)
  }

  /** k is the first attempt that passes. */
  ghost predicate FirstPass(c: Config, draws: seq<Draws>, k: nat)
    requires SizesOk(c.dims) && DrawsFor(c, draws)
  {
    && k < |draws| && AttemptPasses(c, draws, k)
    && forall i: nat :: i < k ==> !AttemptPasses(c, draws, i)
  }

  /** Attempt k failed for the reason given: its canonical road meets two river tiles or,
      before the last attempt, a terrain is missing. */
  ghost predicate FailedFor(c: Config, draws: seq<Draws>, k: nat, reason: Reason)
    requires SizesOk(c.dims) && DrawsFor(c, draws) && k < |draws|
  {
    var fallback := k + 1 == |draws|;
    PlanIsValid(c.dims, draws[k], fallback);
    var p := PlanOf(c.dims, draws[k], fallback);
    exists ground ::
      && GroundFrom(c, draws[k], fallback, ground) && |draws[k].roadTies| == |ground|
      && (reason == RoadCorridor <==>
            CrossesTwice(p.g, ground, Costs(ground, draws[k].roadTies), CoastalTile(p), InlandTile(p)))
      && (reason != RoadCorridor ==> reason == TerrainCoverage && !fallback && !CoverageOk(ground))
  }

  ghost predicate FailuresExplained(c: Config, draws: seq<Draws>, reasons: seq<Reason>)
    requires SizesOk(c.dims) && DrawsFor(c, draws)
  {
    && |reasons| <= |draws|
    && forall k: nat :: k < |reasons| ==> !AttemptPasses(c, draws, k) && FailedFor(c, draws, k, reasons[k])
  }

  /** The fresh world of a successful run, made by the given attempt. */
  ghost predicate FreshWorld(sha: HashFunction, c: Config, seed: Bytes, content: seq<Pack>, s: State) {
    && s.WellFormed() && WorldOk(s) && s.tick == 0
    && NamesFit(s.entities) && NamesPrintable(s.entities) && s.stateHash == StateHash(sha, s)
    && s.config == c && s.seed == seed && s.content == content
    && s.configHash == ConfigHash(sha, c) && s.contentHash == ContentHash(sha, content)
  }

  /** fd_world_generate.  Every attempt but the last preserves the drawn terrain, the last
      one may construct missing representatives.  A world is generated exactly when some
      attempt passes, and it is the one its first passing attempt leads to. */
  method GenerateWorld(config: Config, seed: Bytes, content: seq<Pack>, draws: seq<Draws>, limits: Limits,
                       sha: HashFunction)
    returns (outcome: Outcome, w: Game?, report: GenerationReport)
    requires |seed| == 16 && (InputsOk(config, content) ==> DrawsFor(config, draws))
    ensures outcome == InvalidInput <==> !InputsOk(config, content)
    ensures outcome == OverCapacity <==>
              && InputsOk(config, content) && DensitiesPositive(config)
              && 24 * config.dims.Count() + 1544 > limits.maxLiveWorldBytes
    ensures outcome == Generated <==>
              && InputsOk(config, content) && DensitiesPositive(config) && FitsLive(limits, config.dims)
              && exists k: nat :: FirstPass(config, draws, k)
    ensures (outcome == Generated <==> w != null) && (report.accepted <==> w != null)
    ensures w != null ==>
              && fresh(w) && w.Valid() && FreshWorld(sha, config, seed, content, w.Value()) && w.riverRaisedTileCount == 0
              && FirstPass(config, draws, |report.rejections|)
              && Produces(config, draws[|report.rejections|], |report.rejections| + 1 == |draws|, w.tiles[..])
    ensures InputsOk(config, content) && DensitiesPositive(config) ==> FailuresExplained(config, draws, report.rejections)
    ensures outcome == Exhausted ==> |report.rejections| == config.attemptBudget
    ensures outcome == Exhausted && DensitiesPositive(config) ==> report.rejections[config.attemptBudget - 1] == RoadCorridor
    ensures outcome == Exhausted && !DensitiesPositive(config) ==>
              forall k :: 0 <= k < |report.rejections| ==> report.rejections[k] == RequiredDensityZero
  {
    hide WorldOk, StateHash, PlanOf, Plan.Valid, Costs, CoverageOk, ConfigHash, ContentHash, Passes, Produces,
      FitsLive, FailedFor, NamesFit, NamesPrintable, Recorded, GroundFrom, IsGround, NoRoad, CrossesTwice;
    if !InputsOk(config, content) {
      return InvalidInput, null, GenerationReport(false, []);
    }
    if !DensitiesPositive(config) {
      return Exhausted, null, GenerationReport(false, seq(config.attemptBudget, _ => RequiredDensityZero));
    }
    LiveInNumbers(limits, config.dims);
    if !FitsLive(limits, config.dims) {
      return OverCapacity, null, GenerationReport(false, []);
    }
    var rejections: seq<Reason> := [];
    var world := new Game(config, seed, content, ConfigHash(sha, config), ContentHash(sha, content), NO_REGION,
                          seq(ENTITY_COUNT, _ => NO_ENTITY));
    var attempt: nat := 0;
    while attempt < config.attemptBudget
      invariant attempt <= config.attemptBudget && |rejections| == attempt
      invariant fresh(world) && fresh(world.tiles) && world.Valid() && world.tick == 0
      invariant world.config == config && world.seed == seed && world.content == content
      invariant world.configHash == ConfigHash(sha, config) && world.contentHash == ContentHash(sha, content)
      invariant FailuresExplained(config, draws, rejections)
      invariant attempt == config.attemptBudget ==> rejections[attempt - 1] == RoadCorridor
    {
      var last := attempt + 1 == config.attemptBudget;
      var verdict;
      ghost var ground;
      verdict, ground := GenerateCandidate(world, draws[attempt], last, sha);
      if verdict == Accepted {
        assert FirstPass(config, draws, attempt);
        return Generated, world, GenerationReport(true, rejections);
      }
      Explained(config, draws, attempt, verdict.reason, ground);
      rejections := rejections + [verdict.reason];
      attempt := attempt + 1;
    }
    return Exhausted, null, GenerationReport(false, rejections);
  }

  lemma Explained(c: Config, draws: seq<Draws>, k: nat, reason: Reason, ground: seq<Tile>)
    requires SizesOk(c.dims) && DrawsFor(c, draws) && k < |draws|
    requires GroundFrom(c, draws[k], k + 1 == |draws|, ground)
    requires var p := PlanOf(c.dims, draws[k], k + 1 == |draws|);
             && p.Valid() && IsGround(p, ground, true)
             && (reason == RoadCorridor <==>
                   CrossesTwice(p.g, ground, Costs(ground, draws[k].roadTies), CoastalTile(p), InlandTile(p)))
    requires reason != RoadCorridor ==> reason == TerrainCoverage && k + 1 != |draws| && !CoverageOk(ground)
    ensures FailedFor(c, draws, k, reason)
  {
    hide PlanOf, Plan.Valid, GroundFrom, CrossesTwice, CoverageOk, IsGround, Costs, CoastalTile, InlandTile;
    PlanIsValid(c.dims, draws[k], k + 1 == |draws|);
    var p := PlanOf(c.dims, draws[k], k + 1 == |draws|);
    PlanDims(c.dims, draws[k], k + 1 == |draws|);
    TiesFit(p, ground, draws[k]);
  }

  lemma PlanDims(g: Dims, d: Draws, fallback: bool)
    requires d.Valid(g)
    ensures PlanOf(g, d, fallback).g == g
  {
  }
}
