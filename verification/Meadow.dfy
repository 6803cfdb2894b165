/** A last attempt that always succeeds: when every dry tile draws grassland and no tie bit
    is set, the direct dry way inland is too cheap for two river crossings to pay. */
module Meadow {
  import opened Counting
  import opened Grid
  import opened World
  import opened TilePath
  import opened Invariants
  import opened ShortestRoad
  import opened RoadBuilder
  import opened Layout
  import opened Coast
  import opened Elevation
  import opened River
  import opened Ground
  import opened Biomes
  import opened Placement
  import opened Hashing
  import opened Attempt
  import opened Generate

  /** Values no density threshold reaches, and no tie bit. */
  predicate AllMeadow(d: Draws) {
    && (forall i :: 0 <= i < |d.biome| ==> d.biome[i] >= 900000)
    && (forall i :: 0 <= i < |d.roadTies| ==> !d.roadTies[i])
  }

  // ----- terrain

  lemma GrownMeadow(p: Plan, c: Config, d: Draws, raised: seq<Tile>, carved: seq<Tile>, ts: seq<Tile>, i: nat)
    requires p.Valid() && p.g == c.dims && ConfigOk(c) && d.Valid(p.g) && AllMeadow(d)
    requires Grown(p, c, d, raised, carved, ts) && i < p.g.Count() && !SeaTile(p, i) && i !in Course(p)
    ensures |ts| == p.g.Count() && ts[i].terrain == GRASSLAND
  {
    hide Uplifted, Painted, Plan.Valid, SeaTile, WetlandWatered, CoastDistance, Index;
    UpliftedIsRaised(p, raised, d.lattice);
    assert RaisedTile(p, raised[i], i);
    hide RaisedTile;
    assert carved[i] == raised[i];
    assert raised[i].terrain == GRASSLAND && !raised[i].overlays.river;
  }

  /** Terrain the fallback and the settlements leave on a dry tile. */
  lemma FinishedMeadow(p: Plan, ts: seq<Tile>, i: nat)
    requires p.Valid() && |ts| == p.g.Count() && i < p.g.Count() && ts[i].terrain == GRASSLAND
    requires i != WetlandTile(p) && i != CoastalTile(p) && i != InlandTile(p)
    ensures Finished(p, true, ts)[i].terrain == if i == ForestTile(p) then FOREST else GRASSLAND
  {
    hide Plan.Valid, CoastalTile, InlandTile, WetlandTile, ForestTile, GrassTile, Spare, SeaTile, Course;
    FallbackTilesInGrid(p);
    StampTwo(p, Represent(p, ts));
  }

  // ----- what any road pays

  /** Lower bounds every ground keeps. */
  ghost predicate Priced(p: Plan, ground: seq<Tile>, c: seq<u32>)
    requires p.Valid()
  {
    && |c| == |ground| == p.g.Count()
    && CoastalTile(p) < |c| && !ground[CoastalTile(p)].overlays.river
    && (forall i: nat :: i < |c| && ground[i].overlays.river ==> i != InlandTile(p) && 22 <= c[i])
    && (forall i: nat :: i < |c| ==> (if i == CoastalTile(p) || i == InlandTile(p) then 1 else 2) <= c[i])
  }

  lemma GroundIsPriced(p: Plan, ground: seq<Tile>, ties: seq<bool>)
    requires p.Valid() && IsGround(p, ground, true) && |ties| == |ground|
    ensures Priced(p, ground, Costs(ground, ties))
  {
    hide Plan.Valid, CoastalTile, InlandTile, Course, SeaTile, WetlandsOk, Bedded;
    OffCourse(p);
    forall i: nat | i < |ground|
      ensures ground[i].overlays.river ==> i != InlandTile(p) && i != CoastalTile(p) && 22 <= RoadCost(ground[i], ties[i])
      ensures (if i == CoastalTile(p) || i == InlandTile(p) then 1 else 2) <= RoadCost(ground[i], ties[i])
    {
      assert GroundTile(p, ground[i], i, true);
    }
  }

  ghost function Rivers(ts: seq<Tile>, q: seq<nat>): nat
    requires ElementsIn(ts, q)
  {
    if q == [] then 0
    else Rivers(ts, q[..|q| - 1]) + if ts[q[|q| - 1]].overlays.river then 1 else 0
  }

  lemma {:induction false} SomeRiver(ts: seq<Tile>, q: seq<nat>, a: nat)
    requires ElementsIn(ts, q) && a < |q| && ts[q[a]].overlays.river
    ensures Rivers(ts, q) >= 1
  {
    if a < |q| - 1 { SomeRiver(ts, q[..|q| - 1], a); }
  }

  lemma {:induction false} TwoRivers(ts: seq<Tile>, q: seq<nat>, a: nat, b: nat)
    requires ElementsIn(ts, q) && a < b < |q| && ts[q[a]].overlays.river && ts[q[b]].overlays.river
    ensures Rivers(ts, q) >= 2
  {
    var front := q[..|q| - 1];
    if b < |q| - 1 { TwoRivers(ts, front, a, b); } else { SomeRiver(ts, front, a); }
  }

  /** A road without repeats pays two for every tile, less one for the inland town, and
      twenty more for each river tile. */
  lemma {:induction false} RouteToll(p: Plan, ground: seq<Tile>, c: seq<u32>, q: seq<nat>)
    requires p.Valid() && Priced(p, ground, c) && Route(p.g, c, CoastalTile(p), q) && ElementsIn(ground, q) && Distinct(q)
    ensures RouteCost(c, q) + (if InlandTile(p) in q then 1 else 0) >= 2 * (|q| - 1) + 20 * Rivers(ground, q)
    decreases |q|
  {
    hide Plan.Valid, CoastalTile, InlandTile, Adj;
    if |q| > 1 {
      var front, last := q[..|q| - 1], q[|q| - 1];
      RoutePrefix(p.g, c, CoastalTile(p), q);
      RouteToll(p, ground, c, front);
      assert q == front + [last] && last !in front && q[0] == CoastalTile(p);
    } else {
      assert q == [CoastalTile(p)];
    }
  }

  lemma {:induction false} RouteIsLong(g: Dims, c: seq<u32>, start: nat, q: seq<nat>)
    requires Route(g, c, start, q)
    ensures Distance(g, start, Last(q)) <= |q| - 1
    decreases |q|
  {
    hide X, Y;
    if |q| > 1 {
      RoutePrefix(g, c, start, q);
      RouteIsLong(g, c, start, q[..|q| - 1]);
    }
  }

  // ----- the dry way inland

  function Breadth(p: Plan): int { if p.west then p.InlandX() - p.OutletX() else p.OutletX() - p.InlandX() }

  function Depth(p: Plan): int { p.InlandY() - p.CoastalY() }

  /** In from the shore clear of any bay, down to the inland row, on to the town. */
  function WayX(p: Plan, k: int): int {
    var s := Amplitude(p.g);
    p.Inward(p.OutletX(), if k <= s then k else if k <= s + Depth(p) then s else k - Depth(p))
  }

  function WayY(p: Plan, k: int): int {
    var s := Amplitude(p.g);
    if k <= s then p.CoastalY() else if k <= s + Depth(p) then p.CoastalY() + k - s else p.InlandY()
  }

  function WayLength(p: Plan): int { Breadth(p) + Depth(p) }

  lemma WayOnLand(p: Plan, k: int)
    requires p.Valid() && 0 <= k <= WayLength(p)
    ensures 0 <= WayX(p, k) < p.g.width && 0 <= WayY(p, k) < p.g.height && !p.Sea(WayX(p, k), WayY(p, k))
  {
    PlanNumbers(p);
  }

  lemma WayIsDry(p: Plan, k: int, j: int)
    requires p.Valid() && 0 <= k <= WayLength(p) && 0 <= j < p.CourseLength()
    ensures (p.CourseX(j), p.CourseY(j)) != (WayX(p, k), WayY(p, k))
  {
    PlanNumbers(p);
  }

  lemma WayPlaces(p: Plan, k: int)
    requires p.Valid() && 0 <= k <= WayLength(p)
    ensures (WayX(p, k), WayY(p, k)) != (MiddleX(p), p.CoastalY())
    ensures k > 0 ==> (WayX(p, k), WayY(p, k)) != (p.OutletX(), p.CoastalY())
    ensures k < WayLength(p) ==> (WayX(p, k), WayY(p, k)) != (p.InlandX(), p.InlandY())
    ensures k < WayLength(p) - 1 ==> (WayX(p, k), WayY(p, k)) != (p.Inward(p.InlandX(), -1), p.InlandY())
    ensures k > 0 ==> Manhattan(WayX(p, k - 1), WayY(p, k - 1), WayX(p, k), WayY(p, k)) == 1
  {
    PlanNumbers(p);
  }

  lemma WayEnds(p: Plan)
    requires p.Valid()
    ensures WayLength(p) > 1 && Depth(p) > 0 && Breadth(p) > 0
    ensures (WayX(p, 0), WayY(p, 0)) == (p.OutletX(), p.CoastalY())
    ensures (WayX(p, WayLength(p)), WayY(p, WayLength(p))) == (p.InlandX(), p.InlandY())
    ensures 0 <= p.OutletX() < p.g.width && 0 <= p.InlandX() < p.g.width && 0 <= p.InlandY() < p.g.height
    ensures Manhattan(p.OutletX(), p.CoastalY(), p.InlandX(), p.InlandY()) == WayLength(p)
  {
    PlanNumbers(p);
  }

  // ----- the dry way is cheap

  function WayTile(p: Plan, k: int): nat
    requires p.Valid() && 0 <= k <= WayLength(p)
  {
    WayOnLand(p, k);
    Index(p.g, WayX(p, k), WayY(p, k))
  }

  /** A dry tile of the way: off the river, the wetland and, inside, the towns. */
  lemma WayTileIs(p: Plan, k: int)
    requires p.Valid() && 0 <= k <= WayLength(p)
    ensures WayTile(p, k) < p.g.Count() && !SeaTile(p, WayTile(p, k)) && WayTile(p, k) !in Course(p)
    ensures WayTile(p, k) != WetlandTile(p)
    ensures k > 0 ==> WayTile(p, k) != CoastalTile(p) && Adj(p.g, WayTile(p, k - 1), WayTile(p, k))
    ensures k < WayLength(p) ==> WayTile(p, k) != InlandTile(p)
    ensures k < WayLength(p) - 1 ==> WayTile(p, k) != ForestTile(p)
  {
    hide Index, X, Y, Plan.Valid, WayX, WayY, WayLength, MiddleX;
    WayOnLand(p, k);
    SeaAt(p, WayX(p, k), WayY(p, k));
    IndexCoordinates(p.g, WayX(p, k), WayY(p, k));
    WayPlaces(p, k);
    FallbackInGrid(p);
    WayEnds(p);
    ShoreTouchesSea(p);
    Sites(p);
    IndexCoordinates(p.g, MiddleX(p), p.CoastalY());
    IndexCoordinates(p.g, p.Inward(p.InlandX(), -1), p.InlandY());
    IndexCoordinates(p.g, p.OutletX(), p.CoastalY());
    IndexCoordinates(p.g, p.InlandX(), p.InlandY());
    if k > 0 {
      WayOnLand(p, k - 1);
      IndexCoordinates(p.g, WayX(p, k - 1), WayY(p, k - 1));
    }
    if WayTile(p, k) in Course(p) {
      var j :| 0 <= j < |Course(p)| && Course(p)[j] == WayTile(p, k);
      CourseCoordinates(p, j);
      WayIsDry(p, k, j);
      assert false;
    }
  }

  /** On a meadow ground each tile of the way but the forest next to the town costs two. */
  lemma WayTileCost(p: Plan, c: Config, d: Draws, ground: seq<Tile>, k: int)
    requires SizesOk(c.dims) && d.Valid(c.dims) && ConfigOk(c) && AllMeadow(d) && GroundFrom(c, d, true, ground)
    requires p == PlanOf(c.dims, d, true) && p.Valid() && 0 < k <= WayLength(p)
    ensures WayTile(p, k) < |ground| == p.g.Count()
    ensures k < WayLength(p) - 1 ==> RoadCost(ground[WayTile(p, k)], false) == 2
    ensures k == WayLength(p) - 1 ==> RoadCost(ground[WayTile(p, k)], false) in {2, 4}
    ensures k == WayLength(p) ==> RoadCost(ground[WayTile(p, k)], false) <= 9
  {
    hide Plan.Valid, PlanOf, Index, WayX, WayY, WayLength, WayTile, SeaTile, Course, CoastalTile, InlandTile,
      WetlandTile, ForestTile, Grown, Finished, AllMeadow, ConfigOk, WetlandsOk, Bedded;
    PlanG(c.dims, d, p);
    WayTileIs(p, k);
    GroundFromIsGround(c, d, true, ground);
    var i := WayTile(p, k);
    assert GroundTile(p, ground[i], i, true);
    if k < WayLength(p) {
      var raised, carved, ts := Stages(p, c, d, ground);
      GrownMeadow(p, c, d, raised, carved, ts, i);
      FinishedMeadow(p, ts, i);
    }
  }

  lemma PlanG(g: Dims, d: Draws, p: Plan)
    requires d.Valid(g) && p == PlanOf(g, d, true)
    ensures p.g == g
  {
  }

  lemma Stages(p: Plan, c: Config, d: Draws,
               ground: seq<Tile>) returns (raised: seq<Tile>, carved: seq<Tile>, ts: seq<Tile>)
    requires SizesOk(c.dims) && d.Valid(c.dims) && GroundFrom(c, d, true, ground) && p == PlanOf(c.dims, d, true) && p.Valid()
    ensures Grown(p, c, d, raised, carved, ts) && |ts| == p.g.Count() && ground == Finished(p, true, ts)
  {
    hide Uplifted, RiverDrawn, BiomesTo, Painted, Plan.Valid, PlanOf;
    raised, carved, ts :| Grown(p, c, d, raised, carved, ts) && ground == Finished(p, true, ts);
  }

  function Way(p: Plan, n: int): seq<nat>
    requires p.Valid() && 0 <= n <= WayLength(p)
  {
    seq(n + 1, k requires 0 <= k <= n => WayTile(p, k))
  }

  lemma WayGrows(p: Plan, n: int)
    requires p.Valid() && 0 < n <= WayLength(p)
    ensures Way(p, n) == Way(p, n - 1) + [WayTile(p, n)] && Last(Way(p, n - 1)) == WayTile(p, n - 1)
  {
    hide WayTile, WayLength, Plan.Valid;
  }

  lemma WayStarts(p: Plan)
    requires p.Valid()
    ensures 0 <= WayLength(p) && Way(p, 0) == [CoastalTile(p)] && WayTile(p, WayLength(p)) == InlandTile(p)
  {
    hide Plan.Valid, Index, WayX, WayY, WayLength;
    WayEnds(p);
    Sites(p);
    WayOnLand(p, 0);
    WayOnLand(p, WayLength(p));
  }

  function WayPaid(p: Plan, n: int): int {
    2 * n + (if n >= WayLength(p) - 1 then 2 else 0) + (if n == WayLength(p) then 7 else 0)
  }

  lemma {:induction false} WayCost(p: Plan, c: Config, d: Draws, ground: seq<Tile>, costs: seq<u32>, n: int)
    requires SizesOk(c.dims) && d.Valid(c.dims) && ConfigOk(c) && AllMeadow(d) && GroundFrom(c, d, true, ground)
    requires p == PlanOf(c.dims, d, true) && p.Valid() && 0 <= n <= WayLength(p)
    requires |d.roadTies| == |ground| == p.g.Count() && costs == Costs(ground, d.roadTies)
    ensures RouteTo(p.g, costs, CoastalTile(p), WayTile(p, n), Way(p, n))
    ensures RouteCost(costs, Way(p, n)) <= WayPaid(p, n)
    decreases n
  {
    hide Plan.Valid, PlanOf, WayLength, WayTile, CoastalTile, InlandTile, GroundFrom, RoadCost, Adj, Way, SeaTile,
      Course, WetlandTile, ForestTile, ConfigOk;
    WayStarts(p);
    WayTileIs(p, 0);
    if n == 0 {
      StartOfWay(p);
    } else {
      WayCost(p, c, d, ground, costs, n - 1);
      WayTileCost(p, c, d, ground, n);
      WayTileIs(p, n);
      WayGrows(p, n);
      assert costs[WayTile(p, n)] == RoadCost(ground[WayTile(p, n)], false);
      RouteExtend(p.g, costs, CoastalTile(p), Way(p, n - 1), WayTile(p, n));
    }
  }

  lemma StartOfWay(p: Plan)
    requires p.Valid()
    ensures WayLength(p) > 1 && WayTile(p, 0) == CoastalTile(p) && Way(p, 0) == [CoastalTile(p)]
  {
    hide Plan.Valid, Index, WayX, WayY, WayLength;
    WayEnds(p);
    Sites(p);
    WayOnLand(p, 0);
  }

  /** A road over two river tiles is dearer than the dry way. */
  lemma FordIsDearer(p: Plan, ground: seq<Tile>, c: seq<u32>, q: seq<nat>)
    requires p.Valid() && Priced(p, ground, c) && ElementsIn(ground, q) && Distinct(q)
    requires RouteTo(p.g, c, CoastalTile(p), InlandTile(p), q) && !AtMostOneRiver(ground, q)
    ensures RouteCost(c, q) >= 2 * WayLength(p) + 39
  {
    hide Plan.Valid, CoastalTile, InlandTile, Adj, WayLength, Steps, X, Y;
    var a, b :| 0 <= a < b < |q| && ground[q[a]].overlays.river && ground[q[b]].overlays.river;
    TwoRivers(ground, q, a, b);
    RouteToll(p, ground, c, q);
    RouteIsLong(p.g, c, CoastalTile(p), q);
    TownsApart(p);
  }

  lemma TownsApart(p: Plan)
    requires p.Valid()
    ensures Distance(p.g, CoastalTile(p), InlandTile(p)) == WayLength(p)
  {
    hide Plan.Valid, X, Y, Index;
    WayEnds(p);
    Sites(p);
    IndexCoordinates(p.g, p.OutletX(), p.CoastalY());
    IndexCoordinates(p.g, p.InlandX(), p.InlandY());
  }

  lemma MeadowRoad(p: Plan, c: Config, d: Draws, ground: seq<Tile>, costs: seq<u32>, q: seq<nat>)
    requires ConfigOk(c) && d.Valid(c.dims) && AllMeadow(d) && GroundFrom(c, d, true, ground)
    requires p == PlanOf(c.dims, d, true) && p.Valid() && IsGround(p, ground, true)
    requires |d.roadTies| == |ground| == p.g.Count() && costs == Costs(ground, d.roadTies)
    requires CanonicalRoute(p.g, costs, CoastalTile(p), InlandTile(p), q) && ElementsIn(ground, q)
    ensures AtMostOneRiver(ground, q)
  {
    hide *;
    GroundIsPriced(p, ground, d.roadTies);
    WayStarts(p);
    WayCheap(p);
    SizesOfConfig(c);
    WayCost(p, c, d, ground, costs, WayLength(p));
    CostsAreField(p.g, ground, d.roadTies);
    CanonicalIsInduced(p.g, costs, CoastalTile(p), InlandTile(p), q);
    CanonicalIsLeast(p.g, costs, CoastalTile(p), InlandTile(p), q, Way(p, WayLength(p)));
    if !AtMostOneRiver(ground, q) {
      FordIsDearer(p, ground, costs, q);
      assert false;
    }
  }

  lemma WayCheap(p: Plan)
    ensures WayPaid(p, WayLength(p)) == 2 * WayLength(p) + 9
  {
  }

  lemma SizesOfConfig(c: Config)
    requires ConfigOk(c)
    ensures SizesOk(c.dims)
  {
  }

  /** On every admissible size, the constructive attempt succeeds for these draws. */
  lemma MeadowPasses(c: Config, d: Draws)
    requires ConfigOk(c) && d.Valid(c.dims) && AllMeadow(d)
    ensures Passes(c, d, true)
  {
    hide Plan.Valid, PlanOf, GroundFrom, CanonicalRoute, Costs, AtMostOneRiver, CoastalTile, InlandTile, IsGround,
      NoRoad, Represented, Passes, CoverageOk, AllMeadow;
    var ground := GroundExists(c, d, true);
    PassesExactly(c, d, true, ground);
    GroundFromIsGround(c, d, true, ground);
    var p := PlanOf(c.dims, d, true);
    PlanG(c.dims, d, p);
    TiesFit(p, ground, d);
    var costs := Costs(ground, d.roadTies);
    forall q | CanonicalRoute(p.g, costs, CoastalTile(p), InlandTile(p), q) && ElementsIn(ground, q)
      ensures AtMostOneRiver(ground, q)
    {
      MeadowRoad(p, c, d, ground, costs, q);
    }
  }

  // ----- so worlds exist

  lemma Counts(p: Plan, route: seq<nat>, size: nat)
    requires p.Valid() && Distinct(route) && (forall k :: 0 <= k < |route| ==> route[k] < size) && size <= MAX_TILES
    ensures |Course(p)| <= MAX_TILES && |route| <= MAX_TILES && |LandSet(Painted(p))| <= MAX_TILES
  {
    hide Plan.Valid, Painted;
    CourseBound(p);
    PigeonHole(route, size);
    SubsetOfIndices(LandSet(Painted(p)), p.g.Count());
    SizesOfPlan(p);
  }

  lemma SizesOfPlan(p: Plan)
    requires p.Valid()
    ensures p.g.Count() <= MAX_TILES
  {
  }

  /** The record of a candidate on the map ts, before its digest is taken. */
  function Record(c: Config, seed: Bytes, content: seq<Pack>, configHash: Digest, contentHash: Digest, names: seq<Bytes>,
                  p: Plan, ts: seq<Tile>, river: u32, road: u32, land: u32): State
    requires p.Valid() && |names| == ENTITY_COUNT && 0 <= p.OutletX() < p.g.width && 0 <= p.InlandX() < p.g.width
    requires p.g.width <= MAX_WIDTH && p.g.height <= MAX_HEIGHT && 0 <= p.InlandY()
    requires CoastalTile(p) < MAX_TILES && InlandTile(p) < MAX_TILES && Course(p)[0] < MAX_TILES
  {
    State(c, seed, content, configHash, contentHash, 0, ts,
          InitialEntities(p.OutletX(), p.CoastalY(), p.InlandX(), p.InlandY(), names),
          Region(EntityId(1), EntityId(4), EntityId(2), EntityId(3), EntityId(5), EntityId(6),
                 TileId(Course(p)[0]), TileId(CoastalTile(p)), TileId(InlandTile(p)), river, road),
          river, road, land, seq(32, _ => 0))
  }

  lemma RecordIsRecorded(c: Config, seed: Bytes, content: seq<Pack>, configHash: Digest, contentHash: Digest, names: seq<Bytes>,
                         p: Plan, ts: seq<Tile>, river: u32, road: u32, land: u32)
    requires p.Valid() && |names| == ENTITY_COUNT && p.g == c.dims && |ts| == p.g.Count()
    requires |seed| == 16 && |content| <= MAX_CONTENT_PACKS
    ensures 0 <= p.OutletX() < p.g.width && 0 <= p.InlandX() < p.g.width
    ensures p.g.width <= MAX_WIDTH && p.g.height <= MAX_HEIGHT && 0 <= p.InlandY() && p.g.Valid()
    ensures CoastalTile(p) < MAX_TILES && InlandTile(p) < MAX_TILES && Course(p)[0] < MAX_TILES
    ensures var s := Record(c, seed, content, configHash, contentHash, names, p, ts, river, road, land);
            s.WellFormed() && Recorded(p, s, names)
  {
    hide CoastalTile, InlandTile, Plan.OutletX, Plan.InlandX;
    Sites(p);
    OffCourse(p);
    CourseBound(p);
    SizesOfPlan(p);
  }

  /** Every passing attempt is a world: its map with the records that belong to it. */
  lemma WorldFrom(sha: HashFunction, c: Config, d: Draws, fallback: bool, seed: Bytes, content: seq<Pack>)
    returns (s: State)
    requires InputsOk(c, content) && DensitiesPositive(c) && |seed| == 16 && d.Valid(c.dims) && Passes(c, d, fallback)
    ensures FreshWorld(sha, c, seed, content, s) && Produces(c, d, fallback, s.tiles)
  {
    hide Plan.Valid, PlanOf, GroundFrom, CanonicalRoute, Costs, AtMostOneRiver, CoastalTile, InlandTile, IsGround,
      NoRoad, Represented, CoverageOk, Recorded, Course, Painted, RoadDrawn, StateHash, WorldOk, ConfigHash,
      ContentHash, LandSet;
    var ts :| Produces(c, d, fallback, ts);
    PlanIsValid(c.dims, d, fallback);
    var p := PlanOf(c.dims, d, fallback);
    PlanDims(c.dims, d, fallback);
    var ground, route :|
      && GroundFrom(c, d, fallback, ground) && CoverageOk(ground) && |d.roadTies| == |ground|
      && RoadFits(p, d, ground, route) && RoadDrawn(ground, ts, route);
    GroundFromIsGround(c, d, fallback, ground);
    TiesFit(p, ground, d);
    var costs := Costs(ground, d.roadTies);
    CostsAreField(p.g, ground, d.roadTies);
    CanonicalIsInduced(p.g, costs, CoastalTile(p), InlandTile(p), route);
    RouteOf(p.g, costs, CoastalTile(p), InlandTile(p), route);
    SizesOfPlan(p);
    Counts(p, route, p.g.Count());
    CoverageStands(ground, ts, route);
    DrawnSize(ground, ts, route);
    var river: u32, road: u32, land: u32 := |Course(p)|, |route|, |LandSet(Painted(p))|;
    RecordIsRecorded(c, seed, content, ConfigHash(sha, c), ContentHash(sha, content), d.names, p, ts, river, road, land);
    s := Record(c, seed, content, ConfigHash(sha, c), ContentHash(sha, content), d.names, p, ts, river, road, land);
    CandidateMeetsInvariants(p, ground, s, route, d);
    NamesAreFit(p, d);
    HashChangesNothing(sha, s, StateHash(sha, s));
    s := s.(stateHash := StateHash(sha, s));
  }

  lemma DrawnSize(before: seq<Tile>, after: seq<Tile>, route: seq<nat>)
    requires RoadDrawn(before, after, route)
    ensures |after| == |before|
  {
  }

  function MeadowDraws(g: Dims): Draws {
    Draws(0, 0, 0, 0, seq(g.height, _ => 0), (o: nat, y: nat, x: nat) => 0, seq(g.Count(), _ => 999999),
          seq(g.Count(), _ => false), seq(ENTITY_COUNT, _ => [65]))
  }

  lemma MeadowDrawsFit(g: Dims)
    requires SizesOk(g)
    ensures MeadowDraws(g).Valid(g) && AllMeadow(MeadowDraws(g))
  {
    hide Dims.Count;
  }

  /** For every admissible configuration with positive densities there is a world. */
  lemma WorldsExist(sha: HashFunction, c: Config, seed: Bytes, content: seq<Pack>)
    requires InputsOk(c, content) && DensitiesPositive(c) && |seed| == 16
    ensures exists s :: FreshWorld(sha, c, seed, content, s)
  {
    hide FreshWorld, Draws.Valid, AllMeadow, MeadowDraws;
    MeadowDrawsFit(c.dims);
    MeadowPasses(c, MeadowDraws(c.dims));
    var s := WorldFrom(sha, c, MeadowDraws(c.dims), true, seed, content);
  }
}
