/** A last attempt that fails.  On these draws the constructive fallback lays a meadow that
    runs across the river and back; the shortest road follows it and meets the river twice. */
module Barred {
  import opened Grid
  import opened World
  import opened TilePath
  import opened Invariants
  import opened ShortestRoad
  import opened RoadBuilder
  import opened Layout
  import opened Coast
  import opened Elevation
  import opened River
  import opened Ground
  import opened Biomes
  import opened Placement
  import opened Attempt
  import opened Generate

  // ----- the configuration and the draws

  const DIMS := Dims(128, 16)
  const CONFIG := Config(DIMS, 1, 1, 1, 100000, 300000, 100000, 1)

  predicate Meadow(x: nat, y: nat) {
    || (y == 3 && 38 < x <= 107)
    || (x == 107 && 3 < y <= 13)
    || (y == 13 && 107 < x <= 122)
  }

  function BiomeDraw(i: nat): nat { if Meadow(X(DIMS, i), Y(DIMS, i)) then 999999 else 200000 }

  function BarredDraws(): Draws {
    Draws(0, 0, 1, 0, seq(16, _ => 0), (o: nat, y: nat, x: nat) => 0, seq(2048, i requires 0 <= i => BiomeDraw(i)),
          seq(2048, _ => false), seq(6, _ => [65]))
  }

  function BarredPlan(): Plan { PlanOf(DIMS, BarredDraws(), true) }

  lemma DrawsAreValid()
    ensures SizesOk(DIMS) && BarredDraws().Valid(DIMS) && InputsOk(CONFIG, []) && DensitiesPositive(CONFIG)
  {
  }

  lemma PlanFacts()
    ensures var p := BarredPlan();
            && p.Valid() && p.g == DIMS && p.west && p.outletY == 2 && p.sourceY == 4 && p.tie == 0
            && p.OutletX() == 38 && p.BendX() == 82 && p.SourceX() == 126 && p.InlandX() == 125
            && p.InlandY() == 13 && p.CoastalY() == 3 && MiddleX(p) == 81
            && p.Leg1() == 44 && p.Leg2() == 2 && p.Leg3() == 44
    ensures forall x: nat, y: nat :: y < 16 ==> (BarredPlan().Sea(x, y) <==> Sea(x, y))
  {
    DrawsAreValid();
    PlanIsValid(DIMS, BarredDraws(), true);
  }

  // ----- the ground, tile by tile

  predicate Sea(x: nat, y: nat) { if 2 <= y <= 3 then x < 38 else x < 34 + y % 9 }

  predicate Wet(x: nat, y: nat) {
    || (y == 2 && 38 <= x <= 82)
    || (x == 82 && 3 <= y <= 4)
    || (y == 4 && 82 < x <= 126)
  }

  /** What the road pays to enter a land tile. */
  function Fee(x: nat, y: nat): nat {
    if Wet(x, y) then if x == 126 then 27 else 22
    else if (x, y) == (38, 3) || (x, y) == (125, 13) then 1
    else if (x, y) == (81, 3) then 8
    else if (x, y) == (124, 13) then 4
    else if (x, y) == (123, 13) || Meadow(x, y) then 2
    else 7
  }

  function At(x: nat, y: nat): nat { y * 128 + x }

  predicate OnMap(x: nat, y: nat) { x < 128 && y < 16 }

  lemma AtIndex(x: nat, y: nat)
    requires OnMap(x, y)
    ensures At(x, y) == Index(DIMS, x, y) < DIMS.Count() == 2048 && X(DIMS, At(x, y)) == x && Y(DIMS, At(x, y)) == y
  {
    IndexCoordinates(DIMS, x, y);
  }

  lemma WetIsCourse(x: nat, y: nat)
    requires OnMap(x, y) && BarredPlan().Valid()
    ensures At(x, y) in Course(BarredPlan()) <==> Wet(x, y)
    ensures Wet(x, y) && (x, y) != (126, 4) ==> At(x, y) in Course(BarredPlan())[..|Course(BarredPlan())| - 1]
  {
    hide Index;
    PlanFacts();
    var p := BarredPlan();
    hide BarredPlan, Plan.Valid;
    AtIndex(x, y);
    var q := Course(p);
    if Wet(x, y) {
      var k := if y == 2 then x - 38 else if x == 82 then 42 + y else x - 36;
      assert p.CourseX(k) == x && p.CourseY(k) == y && k < |q|;
      assert q[k] == At(x, y);
      if (x, y) != (126, 4) { assert q[..|q| - 1][k] == At(x, y); }
    }
    if At(x, y) in q {
      var k :| 0 <= k < |q| && q[k] == At(x, y);
      CourseCoordinates(p, k);
    }
  }

  // ----- terrain before and after the fallback and the settlements

  function DryTerrain(x: nat, y: nat): u32 { if Meadow(x, y) then GRASSLAND else HILLS }

  lemma BiomeIs(x: nat, y: nat, eligible: bool)
    requires OnMap(x, y)
    ensures At(x, y) < |BarredDraws().biome| && Biome(BarredDraws().biome[At(x, y)], eligible, CONFIG) == DryTerrain(x, y)
  {
    hide X, Y;
    AtIndex(x, y);
  }

  /** The river bed is grassland up to its hill source; dry land is meadow or hills. */
  lemma GrownCell(p: Plan, raised: seq<Tile>, carved: seq<Tile>, ts: seq<Tile>, x: nat, y: nat)
    requires p == BarredPlan() && p.Valid() && Grown(p, CONFIG, BarredDraws(), raised, carved, ts)
    requires OnMap(x, y) && !Sea(x, y)
    ensures At(x, y) < |ts| == 2048
    ensures Wet(x, y) ==> ts[At(x, y)].terrain == if (x, y) == (126, 4) then HILLS else GRASSLAND
    ensures !Wet(x, y) ==> ts[At(x, y)].terrain == DryTerrain(x, y)
  {
    hide Uplifted, Painted, Plan.Valid, BarredPlan, BarredDraws, X, Y, Index, WetlandWatered, Biome, DryTerrain,
      CoastDistance;
    PlanFacts();
    UpliftedIsRaised(p, raised, BarredDraws().lattice);
    AtIndex(x, y);
    var i := At(x, y);
    WetIsCourse(x, y);
    CoordinatesIndex(p.g, i);
    assert RaisedTile(p, raised[i], i);
    var q := Course(p);
    if Wet(x, y) {
      var k :| 0 <= k < |q| && q[k] == i;
      assert carved[q[k]] == FinalBed(q, raised, k);
      CourseCoordinates(p, k);
    } else {
      assert carved[i] == raised[i];
      BiomeIs(x, y, WetlandWatered(p.g, carved, i));
    }
  }

  /** The tiles the fallback forces and the two settlements. */
  lemma SpecialTiles(p: Plan)
    requires p == BarredPlan() && p.Valid()
    ensures CoastalTile(p) == At(38, 3) && InlandTile(p) == At(125, 13)
    ensures WetlandTile(p) == At(81, 3) && ForestTile(p) == At(124, 13) && GrassTile(p) == At(123, 13)
  {
    PlanFacts();
  }

  ghost function FinalTerrain(x: nat, y: nat, grown: u32): u32 {
    if (x, y) == (38, 3) || (x, y) == (125, 13) then SETTLEMENT
    else if (x, y) == (81, 3) then WETLANDS
    else if (x, y) == (124, 13) then FOREST
    else if (x, y) == (123, 13) then GRASSLAND
    else grown
  }

  lemma ForcedTerrain(p: Plan, ts: seq<Tile>, i: nat)
    requires p.Valid() && |ts| == p.g.Count() && i < |ts|
    ensures Represent(p, ts)[i].terrain ==
              if i == WetlandTile(p) then WETLANDS
              else if i == ForestTile(p) then FOREST
              else if i == GrassTile(p) then GRASSLAND
              else ts[i].terrain
  {
    hide Plan.Valid, WetlandTile, ForestTile, GrassTile, Spare, SeaTile, Course;
    FallbackTilesInGrid(p);
  }

  lemma SettledTerrain(p: Plan, ts: seq<Tile>, i: nat)
    requires p.Valid() && |ts| == p.g.Count() && i < |ts|
    ensures Settle(p, ts)[i].terrain == if i == CoastalTile(p) || i == InlandTile(p) then SETTLEMENT else ts[i].terrain
  {
    hide Plan.Valid, CoastalTile, InlandTile, Course, Settle;
    StampTwo(p, ts);
  }

  lemma FinishedTerrain(p: Plan, ts: seq<Tile>, x: nat, y: nat)
    requires p == BarredPlan() && p.Valid() && |ts| == 2048 == p.g.Count() && OnMap(x, y)
    ensures At(x, y) < |ts|
    ensures Finished(p, true, ts)[At(x, y)].terrain == FinalTerrain(x, y, ts[At(x, y)].terrain)
  {
    hide BarredPlan, Plan.Valid, CoastalTile, InlandTile, WetlandTile, ForestTile, GrassTile, At, Represent, Settle;
    AtIndex(x, y);
    AtApart(x, y, 38, 3);
    AtApart(x, y, 125, 13);
    AtApart(x, y, 81, 3);
    AtApart(x, y, 124, 13);
    AtApart(x, y, 123, 13);
    SpecialTiles(p);
    ForcedTerrain(p, ts, At(x, y));
    SettledTerrain(p, Represent(p, ts), At(x, y));
  }

  lemma AtApart(x: nat, y: nat, a: nat, b: nat)
    requires OnMap(x, y) && OnMap(a, b)
    ensures At(x, y) == At(a, b) <==> (x, y) == (a, b)
  {
  }

  /** What every tile of the finished ground costs the road. */
  lemma CellCost(ground: seq<Tile>, x: nat, y: nat)
    requires SizesOk(DIMS) && BarredDraws().Valid(DIMS) && GroundFrom(CONFIG, BarredDraws(), true, ground) && OnMap(x, y)
    ensures At(x, y) < |ground| == 2048
    ensures ground[At(x, y)].overlays.river <==> Wet(x, y)
    ensures RoadCost(ground[At(x, y)], false) == if Sea(x, y) then NONE32 else Fee(x, y)
  {
    hide Uplifted, RiverDrawn, BiomesTo, Painted, Plan.Valid, BarredDraws, PlanOf, X, Y, Index, Finished, Course;
    PlanFacts();
    var p := BarredPlan();
    AtIndex(x, y);
    WetIsCourse(x, y);
    GroundFromIsGround(CONFIG, BarredDraws(), true, ground);
    var i := At(x, y);
    CoordinatesIndex(p.g, i);
    assert GroundTile(p, ground[i], i, true);
    if !Sea(x, y) {
      var raised, carved, ts :| Grown(p, CONFIG, BarredDraws(), raised, carved, ts) && ground == Finished(p, true, ts);
      GrownCell(p, raised, carved, ts, x, y);
      FinishedTerrain(p, ts, x, y);
    }
  }

  // ----- no road with fewer than two river tiles costs less than 305

  /** Lower bounds by column: south of the river, and north of it after one crossing. */
  function South(x: nat): nat {
    if x <= 38 then 0
    else if x <= 80 then 2 * (x - 38)
    else if x <= 106 then 91 + 7 * (x - 81)
    else if x <= 123 then 268 + 2 * (x - 107)
    else if x == 124 then 304
    else 305
  }

  function North(x: nat): nat {
    if x <= 38 then 20
    else if x <= 107 then 20 + 2 * (x - 38)
    else 158 + 7 * (x - 107)
  }

  predicate IsNorth(x: nat, y: nat) { y <= 1 || (82 < x && y <= 3) }

  /** A road that has met river once (or never) has paid at least this much at (x, y). */
  function Bound(x: nat, y: nat, met: bool): nat {
    if Wet(x, y) then if x <= 82 then North(x) else South(x) + 10
    else if IsNorth(x, y) then if met then North(x) else 305
    else South(x)
  }

  lemma StepBound(x: nat, y: nat, x': nat, y': nat, met: bool)
    requires OnMap(x, y) && OnMap(x', y') && !Sea(x, y) && !Sea(x', y') && Manhattan(x, y, x', y') == 1
    requires (Wet(x, y) ==> met) && !(met && Wet(x', y'))
    ensures Bound(x', y', met || Wet(x', y')) <= Bound(x, y, met) + Fee(x', y')
  {
  }

  ghost predicate MetRiver(ts: seq<Tile>, p: seq<nat>)
    requires ElementsIn(ts, p)
  {
    exists k :: 0 <= k < |p| && ts[p[k]].overlays.river
  }

  lemma MetStep(ts: seq<Tile>, p: seq<nat>)
    requires p != [] && ElementsIn(ts, p) && AtMostOneRiver(ts, p)
    ensures var q := p[..|p| - 1];
            && ElementsIn(ts, q) && AtMostOneRiver(ts, q)
            && (MetRiver(ts, p) <==> MetRiver(ts, q) || ts[Last(p)].overlays.river)
            && !(MetRiver(ts, q) && ts[Last(p)].overlays.river)
  {
    var q := p[..|p| - 1];
    assert forall k :: 0 <= k < |q| ==> q[k] == p[k];
    if MetRiver(ts, p) && !ts[Last(p)].overlays.river {
      var k :| 0 <= k < |p| && ts[p[k]].overlays.river;
      assert q[k] == p[k];
    }
  }

  /** The cost field of the barred ground. */
  ghost predicate Barred(ground: seq<Tile>, c: seq<u32>) {
    && |ground| == |c| == 2048
    && forall x: nat, y: nat {:trigger At(x, y)} :: OnMap(x, y) ==>
         && At(x, y) < 2048
         && (ground[At(x, y)].overlays.river <==> Wet(x, y))
         && c[At(x, y)] == if Sea(x, y) then NONE32 else Fee(x, y)
  }

  lemma CostsAreBarred(ground: seq<Tile>)
    requires SizesOk(DIMS) && BarredDraws().Valid(DIMS) && GroundFrom(CONFIG, BarredDraws(), true, ground)
    ensures |BarredDraws().roadTies| == |ground|
    ensures Barred(ground, Costs(ground, BarredDraws().roadTies))
  {
    hide GroundFrom, RoadCost, Fee, Wet, Sea, At;
    CellCost(ground, 0, 0);
    forall x: nat, y: nat {:trigger At(x, y)} | OnMap(x, y)
      ensures At(x, y) < 2048
      ensures (ground[At(x, y)].overlays.river <==> Wet(x, y))
      ensures RoadCost(ground[At(x, y)], false) == if Sea(x, y) then NONE32 else Fee(x, y)
    {
      CellCost(ground, x, y);
    }
  }

  lemma StartBound()
    ensures Bound(38, 3, false) == Bound(38, 3, true) == 0 && !Wet(38, 3) && !Sea(38, 3)
  {
  }

  lemma {:induction false} RouteBound(ground: seq<Tile>, c: seq<u32>, p: seq<nat>, x: nat, y: nat)
    requires Barred(ground, c) && OnMap(x, y) && p != [] && Last(p) == At(x, y)
    requires Route(DIMS, c, At(38, 3), p) && ElementsIn(ground, p) && AtMostOneRiver(ground, p)
    ensures !Sea(x, y) && (Wet(x, y) ==> MetRiver(ground, p))
    ensures RouteCost(c, p) >= Bound(x, y, MetRiver(ground, p))
    decreases |p|
  {
    hide Bound, X, Y, Index, Wet, Fee, At, Adj, Sea;
    StartBound();
    MetStep(ground, p);
    if |p| == 1 {
      AtApart(x, y, 38, 3);
    } else {
      RoutePrefix(DIMS, c, At(38, 3), p);
      var q := p[..|p| - 1];
      var x0, y0 := Place(Last(q));
      RouteBound(ground, c, q, x0, y0);
      AdjacentPlaces(x0, y0, x, y);
      StepBound(x0, y0, x, y, MetRiver(ground, q));
    }
  }

  lemma Place(i: nat) returns (x: nat, y: nat)
    requires i < 2048
    ensures OnMap(x, y) && At(x, y) == i
  {
    x, y := i % 128, i / 128;
  }

  lemma AdjacentPlaces(x: nat, y: nat, x': nat, y': nat)
    requires OnMap(x, y) && OnMap(x', y')
    ensures Adj(DIMS, At(x, y), At(x', y')) <==> Manhattan(x, y, x', y') == 1
  {
    hide X, Y, Index;
    AtIndex(x, y);
    AtIndex(x', y');
  }

  // ----- a road with two crossings costs 241

  function FordX(k: nat): nat { if k <= 69 then 38 + k else if k <= 79 then 107 else k + 28 }

  function FordY(k: nat): nat { if k <= 69 then 3 else if k <= 79 then k - 66 else 13 }

  /** East along the meadow over both arms of the river, then south and east again. */
  function Ford(n: nat): seq<nat>
    requires n < 98
  {
    seq(n + 1, k requires 0 <= k <= n => At(FordX(k), FordY(k)))
  }

  function Paid(n: nat): nat {
    if n <= 42 then 2 * n
    else if n == 43 then 92
    else if n <= 69 then 2 * n + 26
    else if n <= 95 then 2 * n + 46
    else if n == 96 then 240
    else 241
  }

  lemma FordStep(n: nat)
    requires 0 < n < 98
    ensures OnMap(FordX(n - 1), FordY(n - 1)) && OnMap(FordX(n), FordY(n)) && !Sea(FordX(n), FordY(n))
    ensures Manhattan(FordX(n - 1), FordY(n - 1), FordX(n), FordY(n)) == 1
    ensures Paid(n) == Paid(n - 1) + Fee(FordX(n), FordY(n)) && Fee(FordX(n), FordY(n)) < NONE32
    ensures Ford(n) == Ford(n - 1) + [At(FordX(n), FordY(n))] && Last(Ford(n - 1)) == At(FordX(n - 1), FordY(n - 1))
  {
  }

  lemma {:induction false} FordCost(ground: seq<Tile>, c: seq<u32>, n: nat)
    requires Barred(ground, c) && n < 98
    ensures Route(DIMS, c, At(38, 3), Ford(n)) && RouteCost(c, Ford(n)) == Paid(n)
    ensures Last(Ford(n)) == At(FordX(n), FordY(n))
  {
    hide FordX, FordY, Paid, At, Fee, Sea, Adj, Wet, Ford;
    if n == 0 {
      FordStart(c);
    } else {
      FordStep(n);
      FordCost(ground, c, n - 1);
      AdjacentPlaces(FordX(n - 1), FordY(n - 1), FordX(n), FordY(n));
      RouteExtend(DIMS, c, At(38, 3), Ford(n - 1), At(FordX(n), FordY(n)));
    }
  }

  lemma FordStart(c: seq<u32>)
    requires |c| == 2048
    ensures Ford(0) == [At(38, 3)] && Paid(0) == 0 && At(FordX(0), FordY(0)) == At(38, 3) < 2048
  {
  }

  lemma Ends()
    ensures Bound(125, 13, false) == Bound(125, 13, true) == 305 && Paid(97) == 241
    ensures At(FordX(97), FordY(97)) == At(125, 13)
  {
  }

  /** So even the constructive attempt can fail: an admissible configuration and draws for
      its only attempt from which no world is generated. */
  lemma FallbackCanFail()
    ensures InputsOk(CONFIG, []) && DensitiesPositive(CONFIG) && DrawsFor(CONFIG, [BarredDraws()])
    ensures !Passes(CONFIG, BarredDraws(), true)
    ensures forall k: nat :: !FirstPass(CONFIG, [BarredDraws()], k)
  {
    hide BarredDraws, GroundFrom, Barred, Ford, FordX, FordY, Bound, At, Plan.Valid, PlanOf, CanonicalRoute, CoverageOk,
      RoadDrawn, Costs, RouteCost, Paid, IsDistance, Steps, Adj, AtMostOneRiver;
    DrawsAreValid();
    PlanFacts();
    var p := BarredPlan();
    SpecialTiles(p);
    if ts :| Produces(CONFIG, BarredDraws(), true, ts) {
      var ground, route :|
        && GroundFrom(CONFIG, BarredDraws(), true, ground) && CoverageOk(ground) && |BarredDraws().roadTies| == |ground|
        && RoadFits(p, BarredDraws(), ground, route) && RoadDrawn(ground, ts, route);
      CostsAreBarred(ground);
      var c := Costs(ground, BarredDraws().roadTies);
      Ends();
      FordCost(ground, c, 97);
      CanonicalIsLeast(DIMS, c, At(38, 3), At(125, 13), route, Ford(97));
      RouteBound(ground, c, route, 125, 13);
      assert false;
    }
  }
}
