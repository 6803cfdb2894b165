/** Biome assignment, the constructive fallback and settlement placement, each taking the
    map one stage closer to a finished ground. */
module Biomes {
  import opened Counting
  import opened Grid
  import opened World
  import opened TilePath
  import opened Invariants
  import opened Layout
  import opened Coast
  import opened Elevation
  import opened River
  import opened Ground

  // ----- after the elevation field

  /** A tile of the raised coast, before the river is cut. */
  ghost predicate RaisedTile(p: Plan, t: Tile, i: nat)
    requires p.Valid() && i < p.g.Count()
  {
    CoordinatesIndex(p.g, i);
    && (if SeaTile(p, i) then t.terrain == WATER && t.elevation == 0
        else t.terrain == GRASSLAND && t.elevation >= 100 + 100 * CoastDistance(p, X(p.g, i), Y(p.g, i)))
    && t.rainfall <= 2400 && t.settlement == 0 && t.overlays == NO_OVERLAYS
  }

  ghost predicate IsRaised(p: Plan, ts: seq<Tile>)
    requires p.Valid()
  {
    |ts| == p.g.Count() && forall i: nat :: i < |ts| ==> RaisedTile(p, ts[i], i)
  }

  lemma PaintedIsModest(p: Plan)
    requires p.Valid()
    ensures Modest(Painted(p))
  {
    hide Painted, Index;
    forall i: nat | i < |Painted(p)| ensures 0 <= Painted(p)[i].elevation <= 1000000 {
      CoordinatesIndex(p.g, i);
      PlanNumbers(p);
    }
  }

  lemma UpliftedIsRaised(p: Plan, ts: seq<Tile>, lattice: Lattice)
    requires p.Valid() && Uplifted(p.g, Painted(p), ts, lattice)
    ensures IsRaised(p, ts)
  {
    hide Painted, Index, X, Y, Uplift, CoastDistance;
    forall i: nat | i < |ts| ensures RaisedTile(p, ts[i], i) {
      CoordinatesIndex(p.g, i);
      assert Painted(p)[i] == CoastTileAt(p, i);
    }
  }

  /** The river never has to be raised, whatever the draws. */
  lemma CourseFits(p: Plan, ts: seq<Tile>)
    requires p.Valid() && IsRaised(p, ts)
    ensures AllFit(Course(p), ts)
  {
    hide Index, X, Y, Plan.CourseX, Plan.CourseY, CoastDistance, Plan.Valid;
    forall k | 0 <= k < |Course(p)| ensures Fits(ts[Course(p)[k]], k) {
      CoursesAreLand(p, k);
      CourseCoordinates(p, k);
      CourseOnLand(p, k);
      assert RaisedTile(p, ts[Course(p)[k]], Course(p)[k]);
    }
  }

  // ----- biomes

  function Biome(value: nat, eligible: bool, c: Config): u32 {
    if eligible && value < c.wetlandPpm then WETLANDS
    else if value < c.hillPpm then HILLS
    else if value < c.hillPpm + c.forestPpm then FOREST
    else GRASSLAND
  }

  ghost function BiomeTile(g: Dims, before: seq<Tile>, i: nat, value: nat, c: Config): Tile
    requires i < |before|
  {
    if before[i].terrain == WATER || before[i].overlays.river then before[i]
    else before[i].(terrain := Biome(value, WetlandWatered(g, before, i), c))
  }

  ghost predicate BiomesTo(g: Dims, before: seq<Tile>, ts: seq<Tile>, biome: seq<nat>, c: Config, k: nat) {
    && |ts| == |before| == |biome| && k <= |ts|
    && forall i: nat :: i < |ts| ==>
         ts[i] == if i < k then BiomeTile(g, before, i, biome[i], c) else before[i]
  }

  /** Two maps agree on where water and river are. */
  ghost predicate SameWaters(a: seq<Tile>, b: seq<Tile>) {
    && |a| == |b|
    && forall j: nat :: j < |a| ==>
         (a[j].terrain == WATER <==> b[j].terrain == WATER) && (a[j].overlays.river <==> b[j].overlays.river)
  }

  lemma WateredAlike(g: Dims, a: seq<Tile>, b: seq<Tile>, i: nat)
    requires SameWaters(a, b) && i < |a|
    ensures WetlandWatered(g, a, i) <==> WetlandWatered(g, b, i)
  {
    hide Adj;
    if Touches(g, a, i, WATER) {
      var j :| 0 <= j < |a| && Adj(g, i, j) && a[j].terrain == WATER;
      assert b[j].terrain == WATER;
    }
    if Touches(g, b, i, WATER) {
      var j :| 0 <= j < |b| && Adj(g, i, j) && b[j].terrain == WATER;
      assert a[j].terrain == WATER;
    }
  }

  predicate Wet(t: Tile) { t.terrain == WATER || t.overlays.river }

  /** fd_wetland_eligible */
  method WetlandEligible(w: Game, index: nat) returns (b: bool)
    requires w.Valid() && index < w.tiles.Length
    ensures b <==> WetlandWatered(w.config.dims, w.tiles[..], index)
  {
    hide Adj, X, Y;
    var g := w.config.dims;
    var x, y := X(g, index), Y(g, index);
    ghost var ts := w.tiles[..];
    if w.tiles[index].overlays.river {
      return true;
    }
    forall j ensures Adj(g, index, j) <==>
        (j == index - 1 && x > 0) || (j == index + 1 && x + 1 < g.width) ||
        (j == index - g.width && y > 0) || (j == index + g.width && y + 1 < g.height)
    {
      NeighborOffsets(g, index, j);
    }
    AdjBasics(g, index, index - 1);
    AdjBasics(g, index, index + 1);
    AdjBasics(g, index, index - g.width);
    AdjBasics(g, index, index + g.width);
    if x > 0 && Wet(w.tiles[index - 1]) { assert Wet(ts[index - 1]); return true; }
    if x + 1 < g.width && Wet(w.tiles[index + 1]) { assert Wet(ts[index + 1]); return true; }
    if y > 0 && Wet(w.tiles[index - g.width]) { assert Wet(ts[index - g.width]); return true; }
    if y + 1 < g.height && Wet(w.tiles[index + g.width]) { assert Wet(ts[index + g.width]); return true; }
    return false;
  }

  /** The biome loops of fd_generate_candidate, in index order. */
  method AssignBiomes(w: Game, biome: seq<nat>)
    requires w.Valid() && |biome| == w.tiles.Length
    modifies w.tiles
    ensures BiomesTo(w.config.dims, old(w.tiles[..]), w.tiles[..], biome, w.config, w.tiles.Length)
  {
    hide WetlandWatered;
    var g := w.config.dims;
    ghost var before := w.tiles[..];
    var index: nat := 0;
    while index < w.tiles.Length
      invariant index <= w.tiles.Length
      invariant BiomesTo(g, before, w.tiles[..], biome, w.config, index)
    {
      var t := w.tiles[index];
      if t.terrain != WATER && !t.overlays.river {
        var eligible := WetlandEligible(w, index);
        assert SameWaters(before, w.tiles[..]);
        WateredAlike(g, before, w.tiles[..], index);
        w.tiles[index] := t.(terrain := Biome(biome[index], eligible, w.config));
      }
      index := index + 1;
    }
  }

  // ----- the ground is complete

  lemma BiomesMakeGround(p: Plan, raised: seq<Tile>, carved: seq<Tile>, ts: seq<Tile>, biome: seq<nat>, c: Config)
    requires p.Valid() && IsRaised(p, raised) && RiverDrawn(Course(p), raised, carved)
    requires BiomesTo(p.g, carved, ts, biome, c, |carved|)
    ensures IsGround(p, ts, false) && NoRoad(ts)
  {
    hide SeaTile, Index, Plan.Valid, Plan.CourseX, Plan.CourseY, CoastalTile, InlandTile, WetlandWatered;
    CourseIsChordless(p);
    forall i: nat | i < |ts| ensures GroundTile(p, ts[i], i, false) && !ts[i].overlays.road && !ts[i].overlays.crossing {
      CarvedTile(p, raised, carved, i);
    }
    var q := Course(p);
    forall k | 0 <= k < |q| ensures ts[q[k]].elevation == 100 + k {
      assert carved[q[k]] == FinalBed(q, raised, k);
    }
    assert carved[q[|q| - 1]] == FinalBed(q, raised, |q| - 1);
    assert SameWaters(carved, ts);
    forall i: nat | i < |ts| && ts[i].terrain == WETLANDS ensures WetlandWatered(p.g, ts, i) {
      CarvedTile(p, raised, carved, i);
      WateredAlike(p.g, carved, ts, i);
    }
  }

  /** Every tile after the river is cut, before biomes. */
  lemma CarvedTile(p: Plan, raised: seq<Tile>, carved: seq<Tile>, i: nat)
    requires p.Valid() && IsRaised(p, raised) && RiverDrawn(Course(p), raised, carved) && i < |carved|
    ensures var t := carved[i];
            && (if SeaTile(p, i) then t.terrain == WATER && t.elevation == 0
                else t.elevation > 0 && (t.terrain == GRASSLAND || t.terrain == HILLS))
            && t.rainfall <= 2400 && t.settlement == 0 && t.overlays.rest == 0
            && !t.overlays.road && !t.overlays.crossing
            && (t.overlays.river <==> i in Course(p)) && (t.overlays.outlet <==> i == Course(p)[0])
  {
    hide SeaTile, Index, Plan.Valid, Plan.CourseX, Plan.CourseY, CoastDistance;
    assert RaisedTile(p, raised[i], i);
    var q := Course(p);
    if i in q {
      var k :| 0 <= k < |q| && q[k] == i;
      CoursesAreLand(p, k);
      CourseIsChordless(p);
      assert carved[q[k]] == FinalBed(q, raised, k);
      assert q[k] == q[0] <==> k == 0;
    } else {
      assert q[0] in q;
      CoastFar(p, i);
    }
  }

  lemma CoastFar(p: Plan, i: nat)
    requires p.Valid() && i < p.g.Count()
    ensures X(p.g, i) < p.g.width && Y(p.g, i) < |p.rows| && CoastDistance(p, X(p.g, i), Y(p.g, i)) >= 0
  {
    CoordinatesIndex(p.g, i);
  }
}
