/** What the draws of one attempt lead to, stage by stage.  The relation has exactly one
    outcome, so a generated world is a function of its configuration and its draws. */
module Attempt {
  import opened Counting
  import opened Grid
  import opened World
  import opened TilePath
  import opened Invariants
  import opened ShortestRoad
  import opened RoadBuilder
  import opened Layout
  import opened Coast
  import opened Elevation
  import opened River
  import opened Ground
  import opened Biomes
  import opened Placement

  // ----- the ground

  /** Coast and elevation, river, biomes. */
  ghost predicate Grown(p: Plan, c: Config, d: Draws, raised: seq<Tile>, carved: seq<Tile>, ts: seq<Tile>)
    requires p.Valid()
  {
    && Uplifted(p.g, Painted(p), raised, d.lattice)
    && RiverDrawn(Course(p), raised, carved)
    && BiomesTo(p.g, carved, ts, d.biome, c, |carved|)
    && |ts| == p.g.Count()
  }

  /** The forced terrains of the constructive fallback, and the two settlements. */
  function Finished(p: Plan, fallback: bool, ts: seq<Tile>): (ground: seq<Tile>)
    requires p.Valid() && |ts| == p.g.Count()
    ensures |ground| == p.g.Count()
  {
    Settle(p, if fallback then Represent(p, ts) else ts)
  }

  ghost predicate GroundFrom(c: Config, d: Draws, fallback: bool, ground: seq<Tile>)
    requires SizesOk(c.dims) && d.Valid(c.dims)
  {
    PlanIsValid(c.dims, d, fallback);
    var p := PlanOf(c.dims, d, fallback);
    exists raised, carved, ts ::
      Grown(p, c, d, raised, carved, ts) && ground == Finished(p, fallback, ts)
  }

  lemma UpliftIsOne(p: Plan, lattice: Lattice, a: seq<Tile>, b: seq<Tile>)
    requires p.Valid() && Uplifted(p.g, Painted(p), a, lattice) && Uplifted(p.g, Painted(p), b, lattice)
    ensures a == b
  {
    hide Painted, X, Y, Lifted;
    forall i: nat | i < |a| ensures a[i] == b[i] {
    }
  }

  lemma RiverIsOne(q: seq<nat>, before: seq<Tile>, a: seq<Tile>, b: seq<Tile>)
    requires RiverDrawn(q, before, a) && RiverDrawn(q, before, b)
    ensures a == b
  {
    hide FinalBed;
    forall i: nat | i < |a| ensures a[i] == b[i] {
      if i in q {
        var k :| 0 <= k < |q| && q[k] == i;
        assert a[q[k]] == b[q[k]];
      }
    }
  }

  lemma BiomesAreOne(g: Dims, before: seq<Tile>, a: seq<Tile>, b: seq<Tile>, biome: seq<nat>, c: Config)
    requires BiomesTo(g, before, a, biome, c, |before|) && BiomesTo(g, before, b, biome, c, |before|)
    ensures a == b
  {
    hide BiomeTile;
    forall i: nat | i < |a| ensures a[i] == b[i] {
    }
  }

  lemma GroundIsOne(c: Config, d: Draws, fallback: bool, a: seq<Tile>, b: seq<Tile>)
    requires SizesOk(c.dims) && d.Valid(c.dims)
    requires GroundFrom(c, d, fallback, a) && GroundFrom(c, d, fallback, b)
    ensures a == b
  {
    hide Plan.Valid, PlanOf, Uplifted, RiverDrawn, BiomesTo, Painted, Course, Represent, Settle;
    PlanIsValid(c.dims, d, fallback);
    var p := PlanOf(c.dims, d, fallback);
    var raised, carved, ts :| Grown(p, c, d, raised, carved, ts) && a == Finished(p, fallback, ts);
    var raised', carved', ts' :| Grown(p, c, d, raised', carved', ts') && b == Finished(p, fallback, ts');
    UpliftIsOne(p, d.lattice, raised, raised');
    RiverIsOne(Course(p), raised, carved, carved');
    BiomesAreOne(p.g, carved, ts, ts', d.biome, c);
  }

  // ----- every draw leads to a ground

  ghost function RaisedAt(p: Plan, lattice: Lattice, i: nat): Tile
    requires p.Valid() && i < p.g.Count() && Modest(Painted(p))
    requires forall o: nat, gy: nat, gx: nat :: lattice(o, gy, gx) < 1024
  {
    UpliftBounded(lattice, 3, X(p.g, i), Y(p.g, i));
    var t := Painted(p)[i];
    var elevation: i32 := Lifted(t, lattice, 3, X(p.g, i), Y(p.g, i));
    t.(elevation := elevation,
       rainfall := if t.terrain == WATER || elevation < 0 then t.rainfall else Rainfall(elevation))
  }

  lemma RaisedExists(p: Plan, lattice: Lattice) returns (raised: seq<Tile>)
    requires p.Valid() && forall o: nat, gy: nat, gx: nat :: lattice(o, gy, gx) < 1024
    ensures Uplifted(p.g, Painted(p), raised, lattice)
  {
    hide Painted, X, Y, Lifted, Plan.Valid;
    PaintedIsModest(p);
    raised := seq(p.g.Count(), i requires 0 <= i < p.g.Count() => RaisedAt(p, lattice, i));
  }

  ghost function CarvedAt(q: seq<nat>, before: seq<Tile>, i: nat): Tile
    requires |q| <= MAX_TILES && i < |before| && forall k :: 0 <= k < |q| ==> q[k] < |before|
  {
    if i in q then
      var k :| 0 <= k < |q| && q[k] == i;
      FinalBed(q, before, k)
    else before[i]
  }

  lemma RiverExists(q: seq<nat>, before: seq<Tile>) returns (after: seq<Tile>)
    requires Distinct(q) && 2 <= |q| <= MAX_TILES && forall k :: 0 <= k < |q| ==> q[k] < |before|
    ensures RiverDrawn(q, before, after)
  {
    hide FinalBed;
    after := seq(|before|, i requires 0 <= i < |before| => CarvedAt(q, before, i));
  }

  lemma BiomesExist(g: Dims, before: seq<Tile>, biome: seq<nat>, c: Config) returns (ts: seq<Tile>)
    requires |biome| == |before|
    ensures BiomesTo(g, before, ts, biome, c, |before|)
  {
    ts := seq(|before|, i requires 0 <= i < |before| => BiomeTile(g, before, i, biome[i], c));
  }

  /** So the ground is a function of configuration and draws. */
  lemma GroundExists(c: Config, d: Draws, fallback: bool) returns (ground: seq<Tile>)
    requires SizesOk(c.dims) && d.Valid(c.dims)
    ensures GroundFrom(c, d, fallback, ground)
  {
    hide Uplifted, RiverDrawn, BiomesTo, Painted, Represent, Settle;
    PlanIsValid(c.dims, d, fallback);
    var p := PlanOf(c.dims, d, fallback);
    var raised := RaisedExists(p, d.lattice);
    CourseBound(p);
    CourseIsChordless(p);
    SizesStand(p, raised, d.lattice);
    var carved := RiverExists(Course(p), raised);
    CarvedSize(Course(p), raised, carved);
    var ts := BiomesExist(p.g, carved, d.biome, c);
    GrownIs(p, c, d, raised, carved, ts);
    ground := Finished(p, fallback, ts);
  }

  lemma SizesStand(p: Plan, raised: seq<Tile>, lattice: Lattice)
    requires p.Valid() && Uplifted(p.g, Painted(p), raised, lattice)
    ensures |raised| == p.g.Count()
  {
  }

  lemma CarvedSize(q: seq<nat>, before: seq<Tile>, after: seq<Tile>)
    requires RiverDrawn(q, before, after)
    ensures |after| == |before|
  {
  }

  lemma GrownIs(p: Plan, c: Config, d: Draws, raised: seq<Tile>, carved: seq<Tile>, ts: seq<Tile>)
    requires p.Valid() && Uplifted(p.g, Painted(p), raised, d.lattice) && RiverDrawn(Course(p), raised, carved)
    requires BiomesTo(p.g, carved, ts, d.biome, c, |carved|)
    ensures Grown(p, c, d, raised, carved, ts)
  {
  }

  /** Every such ground is sound, and the fallback's represents every terrain. */
  lemma GroundFromIsGround(c: Config, d: Draws, fallback: bool, ground: seq<Tile>)
    requires SizesOk(c.dims) && d.Valid(c.dims) && GroundFrom(c, d, fallback, ground)
    ensures var p := PlanOf(c.dims, d, fallback);
            p.Valid() && IsGround(p, ground, true) && NoRoad(ground) && (fallback ==> Represented(p, ground))
  {
    hide Plan.Valid, PlanOf, Uplifted, RiverDrawn, BiomesTo, Painted, Course, Represent, Settle, IsRaised, IsGround,
      NoRoad, Represented;
    PlanIsValid(c.dims, d, fallback);
    var p := PlanOf(c.dims, d, fallback);
    var raised, carved, ts :| Grown(p, c, d, raised, carved, ts) && ground == Finished(p, fallback, ts);
    UpliftedIsRaised(p, raised, d.lattice);
    BiomesMakeGround(p, raised, carved, ts, d.biome, c);
    RepresentKeepsGround(p, ts);
    SettleKeepsGround(p, if fallback then Represent(p, ts) else ts);
  }

  // ----- the road on it

  /** The canonical road, fit to be drawn. */
  ghost predicate RoadFits(p: Plan, d: Draws, ground: seq<Tile>, route: seq<nat>)
    requires p.Valid() && |d.roadTies| == |ground|
  {
    && CanonicalRoute(p.g, Costs(ground, d.roadTies), CoastalTile(p), InlandTile(p), route)
    && ElementsIn(ground, route) && AtMostOneRiver(ground, route)
  }

  /** The attempt succeeds and leaves the map ts. */
  ghost predicate Produces(c: Config, d: Draws, fallback: bool, ts: seq<Tile>)
    requires SizesOk(c.dims) && d.Valid(c.dims)
  {
    PlanIsValid(c.dims, d, fallback);
    exists ground, route ::
      && GroundFrom(c, d, fallback, ground) && CoverageOk(ground) && |d.roadTies| == |ground|
      && RoadFits(PlanOf(c.dims, d, fallback), d, ground, route)
      && RoadDrawn(ground, ts, route)
  }

  ghost predicate Passes(c: Config, d: Draws, fallback: bool)
    requires SizesOk(c.dims) && d.Valid(c.dims)
  {
    exists ts :: Produces(c, d, fallback, ts)
  }

  lemma RoadIsOne(before: seq<Tile>, a: seq<Tile>, b: seq<Tile>, route: seq<nat>)
    requires RoadDrawn(before, a, route) && RoadDrawn(before, b, route)
    ensures a == b
  {
    forall i: nat | i < |a| ensures a[i] == b[i] {
    }
  }

  /** The draws determine the whole map. */
  lemma ProducesOne(c: Config, d: Draws, fallback: bool, a: seq<Tile>, b: seq<Tile>)
    requires SizesOk(c.dims) && d.Valid(c.dims)
    requires Produces(c, d, fallback, a) && Produces(c, d, fallback, b)
    ensures a == b
  {
    hide Plan.Valid, PlanOf, GroundFrom, CoverageOk, CanonicalRoute, Costs, AtMostOneRiver, RoadDrawn, CoastalTile,
      InlandTile;
    PlanIsValid(c.dims, d, fallback);
    var p := PlanOf(c.dims, d, fallback);
    var ground, route :|
      && GroundFrom(c, d, fallback, ground) && CoverageOk(ground) && |d.roadTies| == |ground|
      && RoadFits(p, d, ground, route) && RoadDrawn(ground, a, route);
    var ground', route' :|
      && GroundFrom(c, d, fallback, ground') && CoverageOk(ground') && |d.roadTies| == |ground'|
      && RoadFits(p, d, ground', route') && RoadDrawn(ground', b, route');
    GroundIsOne(c, d, fallback, ground, ground');
    CanonicalRouteUnique(p.g, Costs(ground, d.roadTies), CoastalTile(p), InlandTile(p), route, route');
    RoadIsOne(ground, a, b, route);
  }

  /** On a ground whose inland town can be reached, the attempt fails exactly when terrain
      is missing or the canonical road meets two river tiles. */
  lemma PassesUnless(c: Config, d: Draws, fallback: bool, ground: seq<Tile>)
    requires SizesOk(c.dims) && d.Valid(c.dims) && GroundFrom(c, d, fallback, ground)
    requires |d.roadTies| == |ground|
    requires PlanOf(c.dims, d, fallback).Valid()
    requires CrossesTwice(c.dims, ground, Costs(ground, d.roadTies),
                          CoastalTile(PlanOf(c.dims, d, fallback)), InlandTile(PlanOf(c.dims, d, fallback)))
             || !CoverageOk(ground)
    ensures !Passes(c, d, fallback)
  {
    hide Plan.Valid, GroundFrom, CoverageOk, CanonicalRoute, Costs, AtMostOneRiver, RoadDrawn, CoastalTile, InlandTile;
    var p := PlanOf(c.dims, d, fallback);
    assert p.g == c.dims;
    hide PlanOf;
    if ts :| Produces(c, d, fallback, ts) {
      var other, route :|
        && GroundFrom(c, d, fallback, other) && CoverageOk(other) && |d.roadTies| == |other|
        && RoadFits(p, d, other, route) && RoadDrawn(other, ts, route);
      GroundIsOne(c, d, fallback, ground, other);
      var costs := Costs(ground, d.roadTies);
      var q :| CanonicalRoute(p.g, costs, CoastalTile(p), InlandTile(p), q) && ElementsIn(ground, q) && !AtMostOneRiver(ground, q);
      CanonicalRouteUnique(p.g, costs, CoastalTile(p), InlandTile(p), route, q);
      assert false;
    }
  }

  function DrawnTile(t: Tile, on: bool): Tile {
    if !on then t else if t.overlays.river then SetCrossing(SetRoad(t)) else SetRoad(t)
  }

  lemma RoadExists(before: seq<Tile>, route: seq<nat>) returns (after: seq<Tile>)
    ensures RoadDrawn(before, after, route)
  {
    after := seq(|before|, i requires 0 <= i < |before| => DrawnTile(before[i], i in route));
  }

  /** An attempt passes exactly when its ground shows every terrain and its canonical road
      does not meet two river tiles; in the fallback only the road can fail. */
  lemma PassesExactly(c: Config, d: Draws, fallback: bool, ground: seq<Tile>)
    requires SizesOk(c.dims) && d.Valid(c.dims) && GroundFrom(c, d, fallback, ground)
    ensures |d.roadTies| == |ground| && PlanOf(c.dims, d, fallback).Valid()
    ensures var p := PlanOf(c.dims, d, fallback);
            Passes(c, d, fallback) <==>
              && CoverageOk(ground)
              && !CrossesTwice(p.g, ground, Costs(ground, d.roadTies), CoastalTile(p), InlandTile(p))
    ensures fallback ==> CoverageOk(ground)
  {
    hide Plan.Valid, GroundFrom, CoverageOk, CanonicalRoute, Costs, AtMostOneRiver, RoadDrawn, CoastalTile, InlandTile,
      IsGround, NoRoad, Represented, Reachable, IsDistance, CostField, Produces, RoadFits;
    GroundFromIsGround(c, d, fallback, ground);
    var p := PlanOf(c.dims, d, fallback);
    assert p.g == c.dims;
    hide PlanOf;
    TiesFit(p, ground, d);
    if fallback { RepresentedIsCovered(p, ground); }
    var start, goal, costs := CoastalTile(p), InlandTile(p), Costs(ground, d.roadTies);
    if CrossesTwice(p.g, ground, costs, start, goal) || !CoverageOk(ground) {
      PassesUnless(c, d, fallback, ground);
    } else {
      InlandIsReachable(p, ground, d.roadTies);
      var route := RouteExists(p.g, ground, d.roadTies, start, goal);
      var ts := RoadExists(ground, route);
      ProducesIs(c, d, fallback, ground, ts, route);
    }
  }

  lemma TiesFit(p: Plan, ground: seq<Tile>, d: Draws)
    requires p.Valid() && IsGround(p, ground, true) && d.Valid(p.g)
    ensures |d.roadTies| == |ground| == p.g.Count()
  {
  }

  /** The canonical road on a ground whose goal can be reached. */
  lemma RouteExists(g: Dims, ground: seq<Tile>, ties: seq<bool>, start: nat, goal: nat) returns (route: seq<nat>)
    requires |ground| == |ties| == g.Count() && Reachable(g, Costs(ground, ties), start, goal)
    ensures CanonicalRoute(g, Costs(ground, ties), start, goal, route) && ElementsIn(ground, route)
  {
    hide CanonicalStep, Adj, RoadCost;
    var c := Costs(ground, ties);
    CostsAreField(g, ground, ties);
    var q :| RouteTo(g, c, start, goal, q);
    var k := DistanceExists(g, c, start, goal, q);
    route := CanonicalRouteExists(g, c, start, goal, k);
    forall k | 0 <= k < |route| ensures 0 <= route[k] < |ground| {
      if k > 0 { assert Passable(c, route[k]); }
    }
  }

  lemma ProducesIs(c: Config, d: Draws, fallback: bool, ground: seq<Tile>, ts: seq<Tile>, route: seq<nat>)
    requires SizesOk(c.dims) && d.Valid(c.dims) && GroundFrom(c, d, fallback, ground) && |d.roadTies| == |ground|
    requires PlanOf(c.dims, d, fallback).Valid() && CoverageOk(ground) && RoadDrawn(ground, ts, route)
    requires var p := PlanOf(c.dims, d, fallback);
             CanonicalRoute(p.g, Costs(ground, d.roadTies), CoastalTile(p), InlandTile(p), route)
    requires ElementsIn(ground, route)
    requires var p := PlanOf(c.dims, d, fallback);
             !CrossesTwice(p.g, ground, Costs(ground, d.roadTies), CoastalTile(p), InlandTile(p))
    ensures Produces(c, d, fallback, ts) && Passes(c, d, fallback)
  {
    hide GroundFrom, RoadDrawn, CoverageOk, PlanOf, Plan.Valid, CanonicalRoute, Costs, AtMostOneRiver;
  }

  /** Drawing a road changes no terrain. */
  lemma CoverageStands(before: seq<Tile>, after: seq<Tile>, route: seq<nat>)
    requires RoadDrawn(before, after, route)
    ensures CoverageOk(after) <==> CoverageOk(before)
  {
    forall terrain ensures TerrainSet(after, terrain) == TerrainSet(before, terrain) {
      forall i: nat | i < |before| ensures after[i].terrain == before[i].terrain {
      }
    }
  }
}
