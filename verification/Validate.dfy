/** The world validator: scan loops and walks over the tile array, each proved to accept
    exactly the worlds the invariants describe. */
module Validate {
  import opened Counting
  import opened Grid
  import opened World
  import opened TilePath
  import opened Invariants

  lemma OneCandidate(N: set<nat>, h: bool, j: int)
    requires forall i: nat :: i in N <==> h && i == j
    requires h ==> j >= 0
    ensures |N| == Bit(h)
  {
    if h { assert N == {j}; } else { assert N == {}; }
  }

  lemma TwoCandidates(N: set<nat>, h0: bool, j0: int, h1: bool, j1: int)
    requires forall i: nat :: i in N <==> (h0 && i == j0) || (h1 && i == j1)
    requires (h0 ==> j0 >= 0) && (h1 ==> j1 >= 0) && j0 != j1
    ensures |N| == Bit(h0) + Bit(h1)
  {
    OneCandidate(if h0 then N - {j0} else N, h1, j1);
  }

  lemma ThreeCandidates(N: set<nat>, h0: bool, j0: int, h1: bool, j1: int, h2: bool, j2: int)
    requires forall i: nat :: i in N <==> (h0 && i == j0) || (h1 && i == j1) || (h2 && i == j2)
    requires (h0 ==> j0 >= 0) && (h1 ==> j1 >= 0) && (h2 ==> j2 >= 0)
    requires (h0 ==> j0 != j1 && j0 != j2) && j1 != j2
    ensures |N| == Bit(h0) + Bit(h1) + Bit(h2)
  {
    TwoCandidates(if h0 then N - {j0} else N, h1, j1, h2, j2);
  }

  lemma FourCandidates(N: set<nat>, h0: bool, j0: int, h1: bool, j1: int, h2: bool, j2: int, h3: bool, j3: int)
    requires forall i: nat :: i in N <==> (h0 && i == j0) || (h1 && i == j1) || (h2 && i == j2) || (h3 && i == j3)
    requires (h0 ==> j0 >= 0) && (h1 ==> j1 >= 0) && (h2 ==> j2 >= 0) && (h3 ==> j3 >= 0)
    requires (h0 ==> j0 != j1 && j0 != j2 && j0 != j3) && (h1 ==> j1 != j2 && j1 != j3) && j2 != j3
    ensures |N| == Bit(h0) + Bit(h1) + Bit(h2) + Bit(h3)
  {
    ThreeCandidates(if h0 then N - {j0} else N, h1, j1, h2, j2, h3, j3);
  }

  /** Is tile j a marked neighbour of index other than previous, reached through a guard? */
  ghost predicate Hit(ts: seq<Tile>, kind: Overlay, previous: int, guard: bool, j: int) {
    guard && 0 <= j < |ts| && j != previous && Marked(ts[j], kind)
  }

  ghost function Remaining(g: Dims, ts: seq<Tile>, kind: Overlay, index: nat, previous: int): set<nat> {
    Neighbours(g, OverlaySet(ts, kind), index) - {previous}
  }

  lemma RemainingByOffset(g: Dims, ts: seq<Tile>, kind: Overlay, index: nat, previous: int, i: nat)
    requires |ts| == g.Count() && index < |ts|
    ensures i in Remaining(g, ts, kind, index, previous) <==>
            || (i == index - 1 && Hit(ts, kind, previous, X(g, index) > 0, i))
            || (i == index + 1 && Hit(ts, kind, previous, X(g, index) + 1 < g.width, i))
            || (i == index - g.width && Hit(ts, kind, previous, Y(g, index) > 0, i))
            || (i == index + g.width && Hit(ts, kind, previous, Y(g, index) + 1 < g.height, i))
  {
    hide Adj, X, Y;
    NeighborOffsets(g, index, i);
    AdjBasics(g, index, i);
  }

  /** The marked neighbours other than previous, one guarded index offset at a time. */
  lemma {:induction false} NeighboursByOffset(g: Dims, ts: seq<Tile>, kind: Overlay, index: nat, previous: int)
    requires |ts| == g.Count() && index < |ts|
    ensures X(g, index) > 0 ==> index >= 1
    ensures X(g, index) + 1 < g.width ==> index + 1 < |ts|
    ensures Y(g, index) > 0 ==> index >= g.width
    ensures Y(g, index) + 1 < g.height ==> index + g.width < |ts|
    ensures var h0, h1, h2, h3 :=
              Hit(ts, kind, previous, X(g, index) > 0, index - 1),
              Hit(ts, kind, previous, X(g, index) + 1 < g.width, index + 1),
              Hit(ts, kind, previous, Y(g, index) > 0, index - g.width),
              Hit(ts, kind, previous, Y(g, index) + 1 < g.height, index + g.width);
            && |Remaining(g, ts, kind, index, previous)| == Bit(h0) + Bit(h1) + Bit(h2) + Bit(h3)
            && (h0 ==> index - 1 in Remaining(g, ts, kind, index, previous))
            && (h1 ==> index + 1 in Remaining(g, ts, kind, index, previous))
            && (h2 ==> index - g.width in Remaining(g, ts, kind, index, previous))
            && (h3 ==> index + g.width in Remaining(g, ts, kind, index, previous))
  {
    hide Adj, X, Y;
    var x, y := X(g, index), Y(g, index);
    CoordinatesIndex(g, index);
    GuardsInGrid(g, index);
    hide Remaining, Marked;
    var N := Remaining(g, ts, kind, index, previous);
    var h0, h1, h2, h3 :=
      Hit(ts, kind, previous, x > 0, index - 1),
      Hit(ts, kind, previous, x + 1 < g.width, index + 1),
      Hit(ts, kind, previous, y > 0, index - g.width),
      Hit(ts, kind, previous, y + 1 < g.height, index + g.width);
    forall i: nat ensures i in N <==> ((h0 && i == index - 1) || (h1 && i == index + 1) ||
                                        (h2 && i == index - g.width) || (h3 && i == index + g.width))
    {
      RemainingByOffset(g, ts, kind, index, previous, i);
    }
    FourCandidates(N, h0, index - 1, h1, index + 1, h2, index - g.width, h3, index + g.width);
  }

  lemma GuardsInGrid(g: Dims, index: nat)
    requires InGrid(g, index)
    ensures X(g, index) > 0 ==> InGrid(g, index - 1)
    ensures X(g, index) + 1 < g.width ==> InGrid(g, index + 1)
    ensures Y(g, index) > 0 ==> InGrid(g, index - g.width)
    ensures Y(g, index) + 1 < g.height ==> InGrid(g, index + g.width)
  {
    NeighborOffsets(g, index, index - 1);
    NeighborOffsets(g, index, index + 1);
    NeighborOffsets(g, index, index - g.width);
    NeighborOffsets(g, index, index + g.width);
  }

  /** fd_neighbor_count_with_overlay, with the sentinel its callers store in next first. */
  method NeighborCount(w: Game, index: nat, kind: Overlay, previous: int) returns (count: nat, next: int)
    requires w.Valid() && index < w.tiles.Length
    ensures count == |Remaining(w.config.dims, w.tiles[..], kind, index, previous)|
    ensures count == 0 ==> next == NONE32
    ensures count > 0 ==> next in Remaining(w.config.dims, w.tiles[..], kind, index, previous)
  {
    hide X, Y, Remaining;
    var g := w.config.dims;
    var x, y := X(g, index), Y(g, index);
    NeighboursByOffset(g, w.tiles[..], kind, index, previous);
    count, next := 0, NONE32;
    if x > 0 {
      var candidate := index - 1;
      if candidate != previous && Marked(w.tiles[candidate], kind) {
        next, count := candidate, count + 1;
      }
    }
    if x + 1 < g.width {
      var candidate := index + 1;
      if candidate != previous && Marked(w.tiles[candidate], kind) {
        next, count := candidate, count + 1;
      }
    }
    if y > 0 {
      var candidate := index - g.width;
      if candidate != previous && Marked(w.tiles[candidate], kind) {
        next, count := candidate, count + 1;
      }
    }
    if y + 1 < g.height {
      var candidate := index + g.width;
      if candidate != previous && Marked(w.tiles[candidate], kind) {
        next, count := candidate, count + 1;
      }
    }
  }

  method AdjacentTerrain(w: Game, index: nat, terrain: u32) returns (b: bool)
    requires w.Valid() && index < w.tiles.Length
    ensures b <==> Touches(w.config.dims, w.tiles[..], index, terrain)
  {
    hide Adj;
    var g := w.config.dims;
    var x, y := X(g, index), Y(g, index);
    ghost var ts := w.tiles[..];
    forall j ensures Adj(g, index, j) <==>
        (j == index - 1 && x > 0) || (j == index + 1 && x + 1 < g.width) ||
        (j == index - g.width && y > 0) || (j == index + g.width && y + 1 < g.height)
    {
      NeighborOffsets(g, index, j);
    }
    if x > 0 {
      AdjBasics(g, index, index - 1);
      if w.tiles[index - 1].terrain == terrain { assert ts[index - 1].terrain == terrain; return true; }
    }
    if x + 1 < g.width {
      AdjBasics(g, index, index + 1);
      if w.tiles[index + 1].terrain == terrain { assert ts[index + 1].terrain == terrain; return true; }
    }
    if y > 0 {
      AdjBasics(g, index, index - g.width);
      if w.tiles[index - g.width].terrain == terrain { assert ts[index - g.width].terrain == terrain; return true; }
    }
    if y + 1 < g.height {
      AdjBasics(g, index, index + g.width);
      if w.tiles[index + g.width].terrain == terrain { assert ts[index + g.width].terrain == terrain; return true; }
    }
    return false;
  }

  // ----- land and coast

  /** One row of fd_validate_coast_land: find the run of land, if the row is one run. */
  method ScanRow(w: Game, y: nat) returns (ok: bool, start: nat, end: nat)
    requires w.Valid() && y < w.config.dims.height
    ensures ok ==> LandRun(w.config.dims, w.tiles[..], y, start, end)
    ensures !ok ==> !RowHasRun(w.config.dims, w.tiles[..], y)
  {
    var g := w.config.dims;
    ghost var ts := w.tiles[..];
    start, end := g.width, 0;
    var sawLand, gap := false, false;
    var x: nat := 0;
    while x < g.width
      invariant x <= g.width
      invariant !sawLand ==> !gap && forall k: nat :: k < x ==> !LandAt(g, ts, k, y)
      invariant sawLand ==> start <= end < x && forall k: nat :: k < x ==> (LandAt(g, ts, k, y) <==> start <= k <= end)
      invariant gap <==> sawLand && end + 1 < x
    {
      hide Index;
      IndexCoordinates(g, x, y);
      var land := w.tiles[Index(g, x, y)].terrain != WATER;
      assert land == LandAt(g, ts, x, y);
      if land {
        if gap {
          assert LandAt(g, ts, start, y) && !LandAt(g, ts, end + 1, y);
          return false, start, end;
        }
        if !sawLand {
          start, sawLand := x, true;
        }
        end := x;
      } else if sawLand {
        gap := true;
      }
      x := x + 1;
    }
    ok := sawLand;
    forall first: nat, last: nat | !sawLand ensures !LandRun(g, ts, y, first, last) {
      assert first < g.width ==> !LandAt(g, ts, first, y);
    }
  }

  lemma OverlapOfRuns(g: Dims, ts: seq<Tile>, y: nat, s0: nat, e0: nat, s1: nat, e1: nat)
    requires |ts| == g.Count() && 0 < y < g.height
    requires LandRun(g, ts, y - 1, s0, e0) && LandRun(g, ts, y, s1, e1)
    ensures RowOverlap(g, ts, y) <==> !(e1 < s0 || s1 > e0)
  {
    hide LandAt;
    if !(e1 < s0 || s1 > e0) {
      var x := if s0 >= s1 then s0 else s1;
      assert LandAt(g, ts, x, y - 1) && LandAt(g, ts, x, y);
    }
  }

  /** fd_validate_coast_land */
  method ValidateCoastLand(w: Game, landCount: nat) returns (ok: bool)
    requires w.Valid() && landCount == |LandSet(w.tiles[..])|
    ensures ok <==> CoastOk(w.config.dims, w.tiles[..])
  {
    hide LandRun, RowOverlap;
    var g := w.config.dims;
    ghost var ts := w.tiles[..];
    var previousStart, previousEnd := 0, 0;
    var scaled, total := landCount * 100, w.tiles.Length;
    if scaled < total * 55 || scaled > total * 80 {
      return false;
    }
    var y: nat := 0;
    while y < g.height
      invariant y <= g.height
      invariant forall k: nat :: k < y ==> RowHasRun(g, ts, k)
      invariant forall k: nat :: 0 < k < y ==> RowOverlap(g, ts, k)
      invariant y > 0 ==> LandRun(g, ts, y - 1, previousStart, previousEnd)
    {
      var rowOk, start, end := ScanRow(w, y);
      if !rowOk {
        return false;
      }
      if y > 0 { OverlapOfRuns(g, ts, y, previousStart, previousEnd, start, end); }
      if y > 0 && (end < previousStart || start > previousEnd) {
        return false;
      }
      previousStart, previousEnd := start, end;
      y := y + 1;
    }
    return true;
  }

  // ----- river

  lemma NoSentinel(g: Dims, ts: seq<Tile>, kind: Overlay, index: nat)
    requires |ts| <= MAX_TILES
    ensures Remaining(g, ts, kind, index, NONE32) == Neighbours(g, OverlaySet(ts, kind), index)
  {
    hide Adj;
  }

  ghost function OutletSet(ts: seq<Tile>): set<nat> {
    set i | 0 <= i < |ts| && ts[i].overlays.outlet
  }

  ghost function Degree(g: Dims, ts: seq<Tile>, kind: Overlay, i: nat): nat {
    |Neighbours(g, OverlaySet(ts, kind), i)|
  }

  /** The local tests fd_validate_river makes of each tile. */
  ghost predicate RiverTileOk(g: Dims, ts: seq<Tile>, i: nat)
    requires i < |ts|
  {
    if ts[i].overlays.river then
      && 1 <= Degree(g, ts, River, i) <= 2
      && ts[i].terrain != WATER && ts[i].terrain != SETTLEMENT
      && (ts[i].overlays.outlet ==> Touches(g, ts, i, WATER) && Degree(g, ts, River, i) == 1)
    else
      !ts[i].overlays.outlet
  }

  lemma AllBelow(g: Dims, ts: seq<Tile>)
    ensures forall kind, i :: i in OverlaySet(ts, kind) ==> i < |ts|
    ensures forall kind, i :: i in Ends(g, OverlaySet(ts, kind)) ==> i < |ts|
    ensures forall i :: i in OutletSet(ts) ==> i < |ts|
  {
  }

  lemma Memberships(g: Dims, ts: seq<Tile>, kind: Overlay, i: nat)
    requires i < |ts| <= MAX_TILES
    ensures i in OverlaySet(ts, kind) <==> Marked(ts[i], kind)
    ensures i in Ends(g, OverlaySet(ts, kind)) <==> Marked(ts[i], kind) && Degree(g, ts, kind, i) == 1
    ensures i in OutletSet(ts) <==> ts[i].overlays.outlet
    ensures |Remaining(g, ts, kind, i, NONE32)| == Degree(g, ts, kind, i)
  {
    NoSentinel(g, ts, kind, i);
  }

  method ScanRiver(w: Game) returns (ok: bool, count: nat, endpoints: nat, outletCount: nat, outlet: nat)
    requires w.Valid()
    ensures ok <==> forall i: nat :: i < w.tiles.Length ==> RiverTileOk(w.config.dims, w.tiles[..], i)
    ensures ok ==> count == |OverlaySet(w.tiles[..], River)|
    ensures ok ==> endpoints == |Ends(w.config.dims, OverlaySet(w.tiles[..], River))|
    ensures ok ==> outletCount == |OutletSet(w.tiles[..])|
    ensures ok && outletCount > 0 ==> outlet in OutletSet(w.tiles[..])
  {
    hide Below, Touches, OverlaySet, Ends, OutletSet, Degree, Remaining;
    var g := w.config.dims;
    ghost var ts := w.tiles[..];
    ghost var S, E, O := OverlaySet(ts, River), Ends(g, OverlaySet(ts, River)), OutletSet(ts);
    count, endpoints, outletCount, outlet := 0, 0, 0, NONE32;
    BelowNone(S);
    BelowNone(E);
    BelowNone(O);
    var index: nat := 0;
    while index < w.tiles.Length
      invariant index <= w.tiles.Length
      invariant forall i: nat :: i < index ==> RiverTileOk(g, ts, i)
      invariant count == |Below(S, index)| && endpoints == |Below(E, index)| && outletCount == |Below(O, index)|
      invariant outletCount > 0 ==> outlet in O
    {
      Memberships(g, ts, River, index);
      BelowStep(S, index);
      BelowStep(E, index);
      BelowStep(O, index);
      if w.tiles[index].overlays.river {
        var degree, next := NeighborCount(w, index, River, NONE32);
        count := count + 1;
        if degree == 1 {
          endpoints := endpoints + 1;
        } else if degree != 2 {
          assert w.tiles[..] == ts;
          assert !RiverTileOk(g, ts, index);
          return false, count, endpoints, outletCount, outlet;
        }
        if w.tiles[index].terrain == WATER || w.tiles[index].terrain == SETTLEMENT {
          assert w.tiles[..] == ts;
          assert !RiverTileOk(g, ts, index);
          return false, count, endpoints, outletCount, outlet;
        }
        if w.tiles[index].overlays.outlet {
          outletCount, outlet := outletCount + 1, index;
          var wet := AdjacentTerrain(w, index, WATER);
          assert w.tiles[..] == ts;
          if !wet || degree != 1 {
            assert !RiverTileOk(g, ts, index);
            return false, count, endpoints, outletCount, outlet;
          }
        }
      } else if w.tiles[index].overlays.outlet {
        assert w.tiles[..] == ts;
        assert !RiverTileOk(g, ts, index);
        return false, count, endpoints, outletCount, outlet;
      }
      index := index + 1;
    }
    AllBelow(g, ts);
    BelowAll(S, index);
    BelowAll(E, index);
    BelowAll(O, index);
    ok := true;
  }

  /** Everything the scan has established when it lets the walk begin. */
  ghost predicate RiverScanned(g: Dims, ts: seq<Tile>, outlet: nat) {
    && |ts| == g.Count() <= MAX_TILES
    && (forall i: nat :: i < |ts| ==> RiverTileOk(g, ts, i))
    && |OverlaySet(ts, River)| >= 9
    && |Ends(g, OverlaySet(ts, River))| == 2
    && OutletSet(ts) == {outlet}
  }

  /** A river that satisfies the invariant passes every test of the scan. */
  lemma {:induction false} RiverPassesScan(g: Dims, ts: seq<Tile>, q: seq<nat>)
    requires |ts| == g.Count() <= MAX_TILES && RiverPath(g, ts, q)
    ensures RiverScanned(g, ts, q[0])
  {
    hide Adj, Touches, Neighbours, FarFrom;
    var S := OverlaySet(ts, River);
    PathDegrees(g, S, q);
    CoverSize(S, q);
    assert q[0] in q;
    forall i: nat | i < |ts| ensures RiverTileOk(g, ts, i) {
      if ts[i].overlays.river { assert i in S; }
      if i == q[0] { assert i in Ends(g, S); }
    }
  }

  lemma RiverStart(g: Dims, ts: seq<Tile>, outlet: nat)
    requires RiverScanned(g, ts, outlet)
    ensures outlet < |ts| && Traced(g, OverlaySet(ts, River), [outlet])
    ensures DegreesOneOrTwo(g, OverlaySet(ts, River)) && NONE32 !in OverlaySet(ts, River)
  {
    hide Adj, Touches, Neighbours;
    assert outlet in OutletSet(ts);
    forall i | i in OverlaySet(ts, River) ensures 1 <= |Neighbours(g, OverlaySet(ts, River), i)| <= 2 {
      assert RiverTileOk(g, ts, i);
    }
    assert RiverTileOk(g, ts, outlet);
  }

  /** How far the walk can tell a valid river apart: it follows it tile by tile. */
  lemma {:induction false} WalkFollowsRiver(g: Dims, ts: seq<Tile>, p: seq<nat>, q: seq<nat>)
    requires |ts| == g.Count() <= MAX_TILES && RiverPath(g, ts, q)
    requires p != [] && Traced(g, OverlaySet(ts, River), p) && OutletSet(ts) == {p[0]}
    ensures p <= q && |q| == |OverlaySet(ts, River)|
    ensures Onward(g, OverlaySet(ts, River), p) == if |p| == |q| then {} else {q[|p|]}
    ensures |p| < |q| ==> ts[p[|p| - 1]].elevation < ts[q[|p|]].elevation
  {
    hide Adj, Touches, Neighbours, FarFrom, Onward, Traced;
    var S := OverlaySet(ts, River);
    CoverSize(S, q);
    assert q[0] in OutletSet(ts);
    TraceFollows(g, S, p, q);
    if |p| < |q| { assert q[|p| - 1] == p[|p| - 1]; }
  }

  /** The walk of fd_validate_river, from the outlet upstream. */
  method WalkRiver(w: Game, outlet: nat, count: nat) returns (ok: bool, current: nat, ghost p: seq<nat>)
    requires w.Valid() && RiverScanned(w.config.dims, w.tiles[..], outlet)
    requires count == |OverlaySet(w.tiles[..], River)|
    ensures ok ==> && InducedPath(w.config.dims, OverlaySet(w.tiles[..], River), p) && |p| == count
                   && p[0] == outlet && p[|p| - 1] == current
                   && ElementsIn(w.tiles[..], p) && Rising(w.tiles[..], p)
    ensures forall q :: RiverPath(w.config.dims, w.tiles[..], q) ==> ok && p == q
  {
    hide Neighbours, OverlaySet, OutletSet, RiverTileOk, RiverPath, Onward, Traced, InducedPath, DegreesOneOrTwo;
    var g := w.config.dims;
    ghost var ts := w.tiles[..];
    ghost var S := OverlaySet(ts, River);
    RiverStart(g, ts, outlet);
    p := [outlet];
    var visited, previous := 1, NONE32;
    current := outlet;
    while true
      invariant Traced(g, S, p) && |p| == visited <= count
      invariant p[0] == outlet && p[visited - 1] == current && previous == Behind(p)
      invariant ElementsIn(ts, p) && Rising(ts, p)
      decreases count - visited
    {
      var remaining, next := NeighborCount(w, current, River, previous);
      RemainingIsOnward(g, ts, River, p);
      forall q | RiverPath(g, ts, q)
        ensures p <= q && |q| == count && Onward(g, S, p) == if |p| == |q| then {} else {q[|p|]}
        ensures |p| < |q| ==> ts[current].elevation < ts[q[|p|]].elevation
      {
        WalkFollowsRiver(g, ts, p, q);
      }
      if remaining == 0 {
        break;
      }
      if remaining != 1 {
        return false, current, p;
      }
      OnlyElement(Onward(g, S, p), next);
      if w.tiles[next].elevation <= w.tiles[current].elevation {
        return false, current, p;
      }
      TraceStep(g, S, p, next);
      previous, current, p := current, next, p + [next];
      visited := visited + 1;
      if visited > count {
        return false, current, p;
      }
    }
    if visited != count {
      return false, current, p;
    }
    TraceComplete(g, S, p);
    ok := true;
  }

  lemma RemainingIsOnward(g: Dims, ts: seq<Tile>, kind: Overlay, p: seq<nat>)
    requires p != [] && Traced(g, OverlaySet(ts, kind), p)
    ensures p[|p| - 1] < |ts|
    ensures Remaining(g, ts, kind, p[|p| - 1], Behind(p)) == Onward(g, OverlaySet(ts, kind), p)
    ensures forall i :: i in Onward(g, OverlaySet(ts, kind), p) ==> i < |ts|
  {
    hide Adj;
  }

  /** The nearest-water loops: does every water tile lie at least this far away? */
  method NearestWater(w: Game, x0: nat, y0: nat) returns (least: nat)
    requires w.Valid()
    requires x0 < w.config.dims.width && y0 < w.config.dims.height
    ensures forall j: nat :: j < w.tiles.Length && w.tiles[j].terrain == WATER ==>
              least <= Manhattan(x0, y0, X(w.config.dims, j), Y(w.config.dims, j))
    ensures || least == NONE32
            || exists j: nat :: && j < w.tiles.Length && w.tiles[j].terrain == WATER
                                && least == Manhattan(x0, y0, X(w.config.dims, j), Y(w.config.dims, j))
  {
    hide X, Y, AbsDiff, Manhattan;
    var g := w.config.dims;
    least := NONE32;
    var index: nat := 0;
    while index < w.tiles.Length
      invariant index <= w.tiles.Length
      invariant forall j: nat :: j < index && w.tiles[j].terrain == WATER ==>
                  least <= Manhattan(x0, y0, X(g, j), Y(g, j))
      invariant || least == NONE32
                || exists j: nat :: && j < index && w.tiles[j].terrain == WATER
                                    && least == Manhattan(x0, y0, X(g, j), Y(g, j))
    {
      if w.tiles[index].terrain == WATER {
        SmallDistance(g, x0, y0, index);
        var distance := Manhattan(x0, y0, X(g, index), Y(g, index));
        if distance < least {
          least := distance;
        }
      }
      index := index + 1;
    }
  }

  lemma SmallDistance(g: Dims, x0: nat, y0: nat, i: nat)
    requires g.Valid() && x0 < g.width && y0 < g.height && InGrid(g, i)
    ensures Manhattan(x0, y0, X(g, i), Y(g, i)) < NONE32
  {
    CoordinatesIndex(g, i);
    MulMono(1, g.height, g.width);
    MulMono(1, g.width, g.height);
  }

  /** The source is far enough from the sea exactly when the nearest water is. */
  lemma FarFromWater(g: Dims, ts: seq<Tile>, source: nat, least: nat)
    requires g.Valid() && |ts| == g.Count() && source < |ts|
    requires forall j: nat :: j < |ts| && ts[j].terrain == WATER ==> least <= Distance(g, source, j)
    requires least == NONE32 || exists j: nat :: j < |ts| && ts[j].terrain == WATER && least == Distance(g, source, j)
    ensures FarFrom(g, ts, source, WATER, 8) <==> least >= 8
  {
    hide X, Y, AbsDiff, Manhattan, Distance;
  }

  /** fd_validate_river: accepts exactly the rivers of the invariant, and reports the
      river's length and outlet. */
  method ValidateRiver(w: Game) returns (ok: bool, count: nat, outlet: nat)
    requires w.Valid()
    ensures ok <==> RiverOk(w.config.dims, w.tiles[..])
    ensures ok ==> count == |OverlaySet(w.tiles[..], River)|
    ensures ok ==> exists p :: RiverPath(w.config.dims, w.tiles[..], p) && p[0] == outlet
    ensures !ok ==> count == 0 && outlet == NONE32
  {
    hide Neighbours, OverlaySet, OutletSet, RiverTileOk, InducedPath, Touches, FarFrom, X, Y, AbsDiff, Manhattan;
    var g := w.config.dims;
    ghost var ts := w.tiles[..];
    var scanOk, n, endpoints, outletCount, mouth := ScanRiver(w);
    forall q | RiverPath(g, ts, q) ensures RiverScanned(g, ts, q[0]) { RiverPassesScan(g, ts, q); }
    if !scanOk || n < 9 || endpoints != 2 || outletCount != 1 {
      return false, 0, NONE32;
    }
    OnlyElement(OutletSet(ts), mouth);
    ghost var p;
    var walkOk, current;
    walkOk, current, p := WalkRiver(w, mouth, n);
    if !walkOk {
      return false, 0, NONE32;
    }
    CoordinatesIndex(g, current);
    if w.tiles[current].terrain != HILLS {
      return false, 0, NONE32;
    }
    var least := NearestWater(w, X(g, current), Y(g, current));
    FarFromWater(g, ts, current, least);
    if least < 8 {
      return false, 0, NONE32;
    }
    RiverFound(g, ts, p);
    return true, n, mouth;
  }

  /** What the scan and the walk check adds up to the whole invariant. */
  lemma RiverFound(g: Dims, ts: seq<Tile>, p: seq<nat>)
    requires p != [] && RiverScanned(g, ts, p[0])
    requires InducedPath(g, OverlaySet(ts, River), p)
    requires ElementsIn(ts, p) && Rising(ts, p)
    requires ts[p[|p| - 1]].terrain == HILLS && FarFrom(g, ts, p[|p| - 1], WATER, 8)
    ensures RiverPath(g, ts, p)
  {
    hide Adj, Neighbours, Touches, FarFrom;
    CoverSize(OverlaySet(ts, River), p);
    assert p[0] in OutletSet(ts);
    assert RiverTileOk(g, ts, p[0]);
    forall i: nat | i < |ts| ensures ts[i].overlays.outlet <==> i == p[0] {
      assert i in OutletSet(ts) <==> i in {p[0]};
    }
    forall i: nat | i < |ts| && ts[i].overlays.river ensures ts[i].terrain != WATER && ts[i].terrain != SETTLEMENT {
      assert RiverTileOk(g, ts, i);
    }
  }

  // ----- settlements

  /** fd_validate_settlements */
  method ValidateSettlements(w: Game, outlet: nat) returns (ok: bool)
    requires w.Valid() && outlet < w.tiles.Length
    ensures ok <==> SettlementsOk(w.config.dims, w.tiles[..], w.entities[1], w.entities[2], outlet)
  {
    hide X, Y, AbsDiff, Manhattan, Touches, TerrainSet, Index;
    var g := w.config.dims;
    ghost var ts := w.tiles[..];
    var coastal, inland := w.entities[1], w.entities[2];
    if coastal.kind != KIND_COASTAL || inland.kind != KIND_INLAND || !OnGrid(g, coastal) || !OnGrid(g, inland) {
      return false;
    }
    IndexCoordinates(g, coastal.x, coastal.y);
    IndexCoordinates(g, inland.x, inland.y);
    var coastalIndex, inlandIndex := Site(g, coastal), Site(g, inland);
    var wet := AdjacentTerrain(w, coastalIndex, WATER);
    assert w.tiles[..] == ts;
    if || w.tiles[coastalIndex].terrain != SETTLEMENT || w.tiles[coastalIndex].settlement != coastal.id
       || w.tiles[inlandIndex].terrain != SETTLEMENT || w.tiles[inlandIndex].settlement != inland.id
       || !wet
       || Manhattan(coastal.x, coastal.y, X(g, outlet), Y(g, outlet)) != 1
       || Manhattan(coastal.x, coastal.y, inland.x, inland.y) < 12
    {
      return false;
    }
    var stampsOk, settlementTiles := CountSettlements(w);
    if !stampsOk {
      return false;
    }
    var least := NearestWater(w, inland.x, inland.y);
    return settlementTiles == 2 && least >= 4;
  }

  /** The counting half of the settlement loop; a stamp off a settlement tile is fatal. */
  method CountSettlements(w: Game) returns (ok: bool, settlementTiles: nat)
    requires w.Valid()
    ensures ok <==> forall i :: 0 <= i < w.tiles.Length && w.tiles[i].terrain != SETTLEMENT ==> w.tiles[i].settlement == 0
    ensures ok ==> settlementTiles == |TerrainSet(w.tiles[..], SETTLEMENT)|
  {
    ghost var ts := w.tiles[..];
    ghost var S := TerrainSet(ts, SETTLEMENT);
    settlementTiles := 0;
    var index: nat := 0;
    BelowNone(S);
    while index < w.tiles.Length
      invariant index <= w.tiles.Length
      invariant settlementTiles == |Below(S, index)|
      invariant forall i :: 0 <= i < index && w.tiles[i].terrain != SETTLEMENT ==> w.tiles[i].settlement == 0
    {
      hide Below;
      BelowStep(S, index);
      if w.tiles[index].terrain == SETTLEMENT {
        settlementTiles := settlementTiles + 1;
      } else if w.tiles[index].settlement != 0 {
        return false, settlementTiles;
      }
      index := index + 1;
    }
    BelowAll(S, index);
    ok := true;
  }

  // ----- road

  ghost function MarkedCrossings(ts: seq<Tile>): set<nat> {
    set i | 0 <= i < |ts| && ts[i].overlays.crossing
  }

  /** The local tests fd_validate_road makes of each tile. */
  ghost predicate RoadTileOk(g: Dims, ts: seq<Tile>, i: nat)
    requires i < |ts|
  {
    if ts[i].overlays.road then
      && ts[i].terrain != WATER
      && 1 <= Degree(g, ts, Road, i) <= 2
      && (ts[i].overlays.crossing ==> ts[i].overlays.river)
    else
      !ts[i].overlays.crossing
  }

  lemma RoadMemberships(ts: seq<Tile>, i: nat)
    requires i < |ts|
    ensures i in CrossingSet(ts) <==> ts[i].overlays.road && ts[i].overlays.river
    ensures i in MarkedCrossings(ts) <==> ts[i].overlays.crossing
  {
  }

  lemma AllRoadBelow(ts: seq<Tile>)
    ensures forall i :: i in CrossingSet(ts) ==> i < |ts|
    ensures forall i :: i in MarkedCrossings(ts) ==> i < |ts|
  {
  }

  ghost predicate Lowest(E: set<nat>, start: nat) {
    start in E && forall e :: e in E ==> start <= e
  }

  method ScanRoad(w: Game)
    returns (ok: bool, count: nat, endpoints: nat, start: nat, explicit: nat, intersections: nat)
    requires w.Valid()
    ensures ok <==> forall i: nat :: i < w.tiles.Length ==> RoadTileOk(w.config.dims, w.tiles[..], i)
    ensures ok ==> count == |OverlaySet(w.tiles[..], Road)|
    ensures ok ==> endpoints == |Ends(w.config.dims, OverlaySet(w.tiles[..], Road))|
    ensures ok && endpoints > 0 ==> Lowest(Ends(w.config.dims, OverlaySet(w.tiles[..], Road)), start)
    ensures ok ==> explicit == |MarkedCrossings(w.tiles[..])|
    ensures ok ==> intersections == |CrossingSet(w.tiles[..])|
  {
    hide Below, OverlaySet, Ends, CrossingSet, MarkedCrossings, Degree, Remaining;
    var g := w.config.dims;
    ghost var ts := w.tiles[..];
    ghost var S, E := OverlaySet(ts, Road), Ends(g, OverlaySet(ts, Road));
    ghost var M, C := MarkedCrossings(ts), CrossingSet(ts);
    count, endpoints, start, explicit, intersections := 0, 0, NONE32, 0, 0;
    BelowNone(S);
    BelowNone(E);
    BelowNone(M);
    BelowNone(C);
    var index: nat := 0;
    while index < w.tiles.Length
      invariant index <= w.tiles.Length
      invariant forall i: nat :: i < index ==> RoadTileOk(g, ts, i)
      invariant count == |Below(S, index)| && endpoints == |Below(E, index)|
      invariant explicit == |Below(M, index)| && intersections == |Below(C, index)|
      invariant start == NONE32 ==> forall e :: e in E ==> e >= index
      invariant start != NONE32 ==> start < index && start in E && forall e :: e in E ==> start <= e
      invariant endpoints > 0 ==> start != NONE32
    {
      Memberships(g, ts, Road, index);
      RoadMemberships(ts, index);
      BelowStep(S, index);
      BelowStep(E, index);
      BelowStep(M, index);
      BelowStep(C, index);
      if w.tiles[index].overlays.road {
        var degree, next := NeighborCount(w, index, Road, NONE32);
        count := count + 1;
        assert w.tiles[..] == ts;
        if w.tiles[index].terrain == WATER {
          assert !RoadTileOk(g, ts, index);
          return false, count, endpoints, start, explicit, intersections;
        }
        if degree == 1 {
          endpoints := endpoints + 1;
          if start == NONE32 {
            start := index;
          }
        } else if degree != 2 {
          assert !RoadTileOk(g, ts, index);
          return false, count, endpoints, start, explicit, intersections;
        }
        if w.tiles[index].overlays.crossing {
          explicit := explicit + 1;
          if !w.tiles[index].overlays.river {
            assert !RoadTileOk(g, ts, index);
            return false, count, endpoints, start, explicit, intersections;
          }
        }
        if w.tiles[index].overlays.river {
          intersections := intersections + 1;
        }
      } else if w.tiles[index].overlays.crossing {
        assert w.tiles[..] == ts;
        assert !RoadTileOk(g, ts, index);
        return false, count, endpoints, start, explicit, intersections;
      }
      index := index + 1;
    }
    AllBelow(g, ts);
    AllRoadBelow(ts);
    BelowAll(S, index);
    BelowAll(E, index);
    BelowAll(M, index);
    BelowAll(C, index);
    ok := true;
  }

  ghost predicate RoadScanned(g: Dims, ts: seq<Tile>) {
    && |ts| == g.Count() <= MAX_TILES
    && (forall i: nat :: i < |ts| ==> RoadTileOk(g, ts, i))
    && |OverlaySet(ts, Road)| >= 2
    && |Ends(g, OverlaySet(ts, Road))| == 2
    && |CrossingSet(ts)| <= 1
  }

  lemma RoadStart(g: Dims, ts: seq<Tile>, start: nat)
    requires RoadScanned(g, ts) && start in Ends(g, OverlaySet(ts, Road))
    ensures start < |ts| && ts[start].overlays.road && Traced(g, OverlaySet(ts, Road), [start])
    ensures NONE32 !in OverlaySet(ts, Road)
  {
    hide Adj, Neighbours;
  }

  /** Does the walk so far contain a river tile after its first? */
  ghost predicate Crossed(ts: seq<Tile>, p: seq<nat>)
    requires ElementsIn(ts, p)
  {
    exists k :: 1 <= k < |p| && ts[p[k]].overlays.river
  }

  /** With at most one river tile on the road, entering the river is counted once. */
  lemma {:induction false} CrossedStep(ts: seq<Tile>, p: seq<nat>, next: nat)
    requires p != [] && ElementsIn(ts, p) && next < |ts| && next !in p
    requires |CrossingSet(ts)| <= 1 && ts[next].overlays.road
    requires forall k :: 0 <= k < |p| ==> ts[p[k]].overlays.road
    ensures Crossed(ts, p + [next]) <==> Crossed(ts, p) || ts[next].overlays.river
    ensures ts[next].overlays.river ==> !Crossed(ts, p) && !ts[p[|p| - 1]].overlays.river
  {
    var q := p + [next];
    assert q[|p|] == next;
    assert forall k :: 1 <= k < |p| ==> q[k] == p[k];
    if ts[next].overlays.river {
      assert next in CrossingSet(ts);
      OnlyElement(CrossingSet(ts), next);
      forall k | 0 <= k < |p| ensures !ts[p[k]].overlays.river {
        assert p[k] in CrossingSet(ts) <==> p[k] in {next};
      }
    }
  }

  /** The walk of fd_validate_road, from the lower-numbered end. */
  method WalkRoad(w: Game, start: nat, count: nat)
    returns (ok: bool, current: nat, entries: nat, ghost p: seq<nat>)
    requires w.Valid() && RoadScanned(w.config.dims, w.tiles[..])
    requires start in Ends(w.config.dims, OverlaySet(w.tiles[..], Road))
    requires count == |OverlaySet(w.tiles[..], Road)|
    ensures ok ==> && InducedPath(w.config.dims, OverlaySet(w.tiles[..], Road), p) && |p| == count
                   && p[0] == start && p[|p| - 1] == current && ElementsIn(w.tiles[..], p)
                   && entries == Bit(Crossed(w.tiles[..], p))
    ensures forall q :: && InducedPath(w.config.dims, OverlaySet(w.tiles[..], Road), q)
                        && |q| >= 2 && q[0] == start
                        ==> ok && p == q
  {
    hide Neighbours, OverlaySet, CrossingSet, RoadTileOk, Onward, Traced, InducedPath, Ends, Crossed;
    var g := w.config.dims;
    ghost var ts := w.tiles[..];
    ghost var S := OverlaySet(ts, Road);
    RoadStart(g, ts, start);
    p := [start];
    var visited, previous := 1, NONE32;
    current, entries := start, 0;
    var previousRiver := w.tiles[current].overlays.river;
    NotCrossedYet(ts, start);
    while true
      invariant Traced(g, S, p) && |p| == visited <= count
      invariant p[0] == start && p[visited - 1] == current && previous == Behind(p)
      invariant ElementsIn(ts, p) && previousRiver == ts[current].overlays.river
      invariant entries == Bit(Crossed(ts, p))
      decreases count - visited
    {
      var remaining, next := NeighborCount(w, current, Road, previous);
      RemainingIsOnward(g, ts, Road, p);
      forall q | InducedPath(g, S, q) && |q| >= 2 && q[0] == start
        ensures p <= q && |q| == count && Onward(g, S, p) == if |p| == |q| then {} else {q[|p|]}
      {
        TraceFollows(g, S, p, q);
        InducedSize(g, S, q);
      }
      if remaining == 0 {
        break;
      }
      if remaining != 1 {
        return false, current, entries, p;
      }
      OnlyElement(Onward(g, S, p), next);
      RoadStep(g, ts, p, next);
      var nextRiver := w.tiles[next].overlays.river;
      if nextRiver && !previousRiver {
        entries := entries + 1;
      }
      previousRiver := nextRiver;
      previous, current, p := current, next, p + [next];
      visited := visited + 1;
      if visited > count {
        return false, current, entries, p;
      }
    }
    if visited != count {
      return false, current, entries, p;
    }
    TraceComplete(g, S, p);
    ok := true;
  }

  lemma NotCrossedYet(ts: seq<Tile>, start: nat)
    requires start < |ts|
    ensures !Crossed(ts, [start])
  {
  }

  lemma InducedSize(g: Dims, S: set<nat>, q: seq<nat>)
    requires InducedPath(g, S, q)
    ensures |q| == |S|
  {
    hide Adj;
    CoverSize(S, q);
  }

  lemma RoadStep(g: Dims, ts: seq<Tile>, p: seq<nat>, next: nat)
    requires |ts| <= MAX_TILES && |CrossingSet(ts)| <= 1
    requires Traced(g, OverlaySet(ts, Road), p) && ElementsIn(ts, p)
    requires Onward(g, OverlaySet(ts, Road), p) == {next}
    ensures Traced(g, OverlaySet(ts, Road), p + [next]) && next < |ts|
    ensures Crossed(ts, p + [next]) <==> Crossed(ts, p) || ts[next].overlays.river
    ensures ts[next].overlays.river ==> !Crossed(ts, p) && !ts[p[|p| - 1]].overlays.river
  {
    hide Adj, Crossed, CrossingSet, Neighbours;
    var S := OverlaySet(ts, Road);
    TraceStep(g, S, p, next);
    var q := p + [next];
    forall k | 0 <= k < |p| ensures q[k] != q[|p|] && p[k] in S {}
    assert q[|p|] in S;
    CrossedStep(ts, p, next);
  }

  /** The demands of RoadPath that do not mention the order of the path. */
  ghost predicate RoadMarks(g: Dims, ts: seq<Tile>, start: nat) {
    && (forall i :: 0 <= i < |ts| && ts[i].overlays.road ==> ts[i].terrain != WATER)
    && (forall i :: 0 <= i < |ts| ==>
          (ts[i].overlays.crossing <==> ts[i].overlays.road && ts[i].overlays.river))
    && |CrossingSet(ts)| <= 1
    && start !in CrossingSet(ts)
  }

  /** A road that satisfies the invariant passes the scan, and is a path from either end. */
  lemma {:induction false} RoadPassesScan(g: Dims, ts: seq<Tile>, a: nat, b: nat, q: seq<nat>)
    requires |ts| == g.Count() <= MAX_TILES && RoadPath(g, ts, a, b, q)
    ensures RoadScanned(g, ts) && RoadMarks(g, ts, Lesser(a, b))
    ensures a < |ts| && b < |ts| && ts[a].overlays.road && ts[b].overlays.road
    ensures a != b && Ends(g, OverlaySet(ts, Road)) == {a, b}
    ensures MarkedCrossings(ts) == CrossingSet(ts)
  {
    hide Adj, Neighbours;
    var S := OverlaySet(ts, Road);
    PathDegrees(g, S, q);
    CoverSize(S, q);
    assert a in q && b in q;
    forall i: nat | i < |ts| ensures RoadTileOk(g, ts, i) {
      if ts[i].overlays.road { assert i in S; }
    }
    forall i ensures i in MarkedCrossings(ts) <==> i in CrossingSet(ts) {}
  }

  /** The same road read from its lower-numbered end, which is where the walk starts. */
  ghost function FromLower(a: nat, b: nat, q: seq<nat>): seq<nat> {
    if a < b then q else Reverse(q)
  }

  lemma FromLowerInduced(g: Dims, S: set<nat>, a: nat, b: nat, q: seq<nat>)
    requires InducedPath(g, S, q) && |q| >= 2 && q[0] == a && q[|q| - 1] == b
    ensures var r := FromLower(a, b, q);
            && InducedPath(g, S, r) && |r| >= 2
            && r[0] == Lesser(a, b) && r[|r| - 1] == a + b - Lesser(a, b)
  {
    hide InducedPath;
    if a >= b { ReverseInduced(g, S, q); }
  }

  lemma RoadFound(g: Dims, ts: seq<Tile>, a: nat, b: nat, p: seq<nat>)
    requires InducedPath(g, OverlaySet(ts, Road), p) && |p| >= 2 && ElementsIn(ts, p)
    requires RoadMarks(g, ts, p[0])
    requires (p[0] == a && p[|p| - 1] == b) || (p[0] == b && p[|p| - 1] == a)
    requires p[0] == Lesser(a, b)
    ensures exists q :: RoadPath(g, ts, a, b, q)
  {
    hide InducedPath, CrossingSet, OverlaySet;
    if p[0] == a {
      assert RoadPath(g, ts, a, b, p);
    } else {
      ReverseInduced(g, OverlaySet(ts, Road), p);
      assert RoadPath(g, ts, a, b, Reverse(p));
    }
  }

  lemma PairLowest(a: nat, b: nat, start: nat)
    requires Lowest({a, b}, start)
    ensures start == Lesser(a, b)
  {
    assert a in {a, b} && b in {a, b};
  }

  /** Marked crossings are river tiles of the road, so equal counts mean equal sets; and
      one river entry per crossing means the walk did not start on the crossing. */
  lemma {:induction false} CrossingCounts(g: Dims, ts: seq<Tile>, p: seq<nat>)
    requires RoadScanned(g, ts) && |p| >= 1 && ElementsIn(ts, p)
    requires Covers(OverlaySet(ts, Road), p) && Distinct(p)
    ensures && |MarkedCrossings(ts)| == |CrossingSet(ts)|
            && Bit(Crossed(ts, p)) == |CrossingSet(ts)|
            <==> RoadMarks(g, ts, p[0])
  {
    hide Adj, Neighbours, Ends, Degree;
    var M, C := MarkedCrossings(ts), CrossingSet(ts);
    forall i | i in M ensures i in C { assert RoadTileOk(g, ts, i); }
    SubsetSizes(M, C);
    forall i: nat | i < |ts| ensures ts[i].overlays.road ==> ts[i].terrain != WATER {
      assert RoadTileOk(g, ts, i);
    }
    if |M| == |C| {
      forall i: nat | i < |ts| ensures ts[i].overlays.crossing <==> ts[i].overlays.road && ts[i].overlays.river {
        assert i in M <==> i in C;
      }
    }
    if RoadMarks(g, ts, p[0]) {
      forall i ensures i in M <==> i in C {}
      assert M == C;
    }
    CrossedIffInterior(ts, p);
  }

  lemma {:induction false} CrossedIffInterior(ts: seq<Tile>, p: seq<nat>)
    requires |p| >= 1 && ElementsIn(ts, p) && |CrossingSet(ts)| <= 1
    requires Covers(OverlaySet(ts, Road), p) && Distinct(p)
    ensures Bit(Crossed(ts, p)) == |CrossingSet(ts)| <==> p[0] !in CrossingSet(ts)
  {
    var C := CrossingSet(ts);
    if c :| c in C {
      OnlyElement(C, c);
      assert c in OverlaySet(ts, Road);
      var k :| 0 <= k < |p| && p[k] == c;
      forall m | 0 <= m < |p| && ts[p[m]].overlays.river ensures m == k {
        assert p[m] in OverlaySet(ts, Road);
        assert p[m] in C;
      }
    } else {
      forall m | 0 <= m < |p| ensures !ts[p[m]].overlays.river {
        assert p[m] in OverlaySet(ts, Road) && p[m] !in C;
      }
    }
  }

  /** fd_validate_road: accepts exactly the roads of the invariant. */
  method ValidateRoad(w: Game) returns (ok: bool, roadCount: nat, crossings: nat)
    requires w.Valid()
    ensures ok <==> RoadOk(w.config.dims, w.tiles[..], w.entities[1], w.entities[2])
    ensures ok ==> roadCount == |OverlaySet(w.tiles[..], Road)| && crossings == |CrossingSet(w.tiles[..])|
    ensures !ok ==> roadCount == 0 && crossings == 0
  {
    hide Neighbours, OverlaySet, CrossingSet, MarkedCrossings, InducedPath, Index, Ends, RoadTileOk, Crossed, RoadPath,
      RoadMarks;
    var g := w.config.dims;
    ghost var ts := w.tiles[..];
    if !OnGrid(g, w.entities[1]) || !OnGrid(g, w.entities[2]) {
      return false, 0, 0;
    }
    IndexCoordinates(g, w.entities[1].x, w.entities[1].y);
    IndexCoordinates(g, w.entities[2].x, w.entities[2].y);
    var coastal, inland := Site(g, w.entities[1]), Site(g, w.entities[2]);
    forall q | RoadPath(g, ts, coastal, inland, q)
      ensures RoadScanned(g, ts) && ts[coastal].overlays.road && ts[inland].overlays.road
    {
      RoadPassesScan(g, ts, coastal, inland, q);
    }
    var scanOk, count, endpoints, start, explicit, intersections := ScanRoad(w);
    forall q | RoadPath(g, ts, coastal, inland, q) ensures explicit <= 1 {
      RoadPassesScan(g, ts, coastal, inland, q);
    }
    if || !scanOk || count < 2 || endpoints != 2 || explicit > 1 || intersections > 1
       || !w.tiles[coastal].overlays.road || !w.tiles[inland].overlays.road
    {
      return false, 0, 0;
    }
    ghost var p;
    var walkOk, current, entries;
    walkOk, current, entries, p := WalkRoad(w, start, count);
    forall q | RoadPath(g, ts, coastal, inland, q)
      ensures walkOk && (start, current) == (Lesser(coastal, inland), coastal + inland - Lesser(coastal, inland))
      ensures RoadMarks(g, ts, start)
    {
      RoadIsWalked(g, ts, coastal, inland, q, start);
      assert p == FromLower(coastal, inland, q);
    }
    if !walkOk || !((start == coastal && current == inland) || (start == inland && current == coastal)) {
      return false, 0, 0;
    }
    InducedCovers(g, OverlaySet(ts, Road), p);
    CrossingCounts(g, ts, p);
    if entries > 1 || explicit != intersections || entries != intersections {
      return false, 0, 0;
    }
    EndsOfPath(g, OverlaySet(ts, Road), p);
    PairLowest(coastal, inland, start);
    RoadFound(g, ts, coastal, inland, p);
    return true, count, entries;
  }

  lemma InducedCovers(g: Dims, S: set<nat>, p: seq<nat>)
    requires InducedPath(g, S, p)
    ensures Covers(S, p) && Distinct(p)
  {
  }

  lemma EndsOfPath(g: Dims, S: set<nat>, p: seq<nat>)
    requires InducedPath(g, S, p) && |p| >= 2
    ensures Ends(g, S) == {p[0], p[|p| - 1]}
  {
    hide Adj;
    PathDegrees(g, S, p);
  }

  lemma RoadIsWalked(g: Dims, ts: seq<Tile>, a: nat, b: nat, q: seq<nat>, start: nat)
    requires |ts| == g.Count() <= MAX_TILES && RoadPath(g, ts, a, b, q)
    requires Lowest(Ends(g, OverlaySet(ts, Road)), start)
    ensures start == Lesser(a, b) && RoadMarks(g, ts, start)
    ensures var r := FromLower(a, b, q);
            && InducedPath(g, OverlaySet(ts, Road), r) && |r| >= 2
            && r[0] == start && r[|r| - 1] == a + b - start
  {
    hide InducedPath, Ends, OverlaySet, CrossingSet;
    RoadPassesScan(g, ts, a, b, q);
    PairLowest(a, b, start);
    FromLowerInduced(g, OverlaySet(ts, Road), a, b, q);
  }

  // ----- ownership and the whole world

  /** fd_validate_ownership_graph */
  method ValidateOwnership(w: Game, riverCount: u32, roadCount: u32, outlet: nat) returns (ok: bool)
    requires w.Valid() && outlet < w.tiles.Length
    ensures ok <==> OwnershipOk(w.config.dims, w.entities, w.region, riverCount, roadCount, outlet)
  {
    hide Index;
    var g := w.config.dims;
    var region, coastal, inland, polity := w.entities[0], w.entities[1], w.entities[2], w.entities[3];
    var foreign0, foreign1 := w.entities[4], w.entities[5];
    var k: nat := 0;
    while k < ENTITY_COUNT
      invariant k <= ENTITY_COUNT
      invariant forall m :: 0 <= m < k ==> w.entities[m].id == EntityId(m + 1) && |w.entities[m].name| < MAX_NAME_BYTES
    {
      if w.entities[k].id != EntityId(k + 1) || |w.entities[k].name| >= MAX_NAME_BYTES {
        return false;
      }
      k := k + 1;
    }
    if || !OnGrid(g, coastal) || !OnGrid(g, inland)
       || !Unplaced(region) || !Unplaced(polity) || !Unplaced(foreign0) || !Unplaced(foreign1)
    {
      return false;
    }
    IndexCoordinates(g, coastal.x, coastal.y);
    IndexCoordinates(g, inland.x, inland.y);
    var coastalIndex, inlandIndex := Site(g, coastal), Site(g, inland);
    var r := w.region;
    return && region.kind == KIND_REGION && polity.kind == KIND_POLITY
           && foreign0.kind == KIND_FOREIGN && foreign1.kind == KIND_FOREIGN
           && coastal.ownerId == polity.id && inland.ownerId == polity.id
           && region.ownerId == polity.id && polity.ownerId == polity.id
           && foreign0.ownerId == foreign0.id && foreign1.ownerId == foreign1.id
           && region.regionId == region.id && coastal.regionId == region.id && inland.regionId == region.id
           && polity.regionId == region.id && foreign0.regionId == region.id && foreign1.regionId == region.id
           && r.id == region.id && r.politicalOwnerId == polity.id
           && r.settlement0 == coastal.id && r.settlement1 == inland.id
           && r.foreign0 == foreign0.id && r.foreign1 == foreign1.id
           && r.outletTileId == TileId(outlet)
           && r.roadStartTileId == TileId(coastalIndex) && r.roadEndTileId == TileId(inlandIndex)
           && r.riverTileCount == riverCount && r.roadTileCount == roadCount;
  }

  /** The per-tile tests of the census loop of fd_world_validate_internal. */
  method CheckTile(w: Game, index: nat) returns (good: bool)
    requires w.Valid() && index < w.tiles.Length
    ensures good <==> TileOk(w.config.dims, w.tiles[..], index)
  {
    hide Touches, Neighbours, Adj;
    var g := w.config.dims;
    ghost var ts := w.tiles[..];
    var t := w.tiles[index];
    good := t.overlays.rest == 0 && WATER <= t.terrain <= SETTLEMENT;
    if t.terrain == WATER {
      good := good && t.elevation == 0;
    } else {
      good := good && t.elevation > 0;
    }
    good := good && t.rainfall <= 5000;
    if t.terrain == WETLANDS {
      var wet := AdjacentTerrain(w, index, WATER);
      assert w.tiles[..] == ts;
      if !wet && !t.overlays.river {
        var degree, next := NeighborCount(w, index, River, NONE32);
        RiverNeighbour(g, ts, index);
        if degree == 0 {
          good := false;
        }
      }
    }
  }

  lemma RiverNeighbour(g: Dims, ts: seq<Tile>, index: nat)
    requires |ts| <= MAX_TILES
    ensures |Remaining(g, ts, River, index, NONE32)| > 0 <==>
            exists j :: 0 <= j < |ts| && Adj(g, index, j) && ts[j].overlays.river
  {
    hide Adj;
    var N := Remaining(g, ts, River, index, NONE32);
    if j :| 0 <= j < |ts| && Adj(g, index, j) && ts[j].overlays.river {
      assert j in N;
    } else {
      assert N == {};
    }
  }

  datatype Census = Census(clean: bool, counts: seq<nat>, land: nat, water: nat)

  /** The census loop: tile rules, terrain counts, land and water counts. */
  method TakeCensus(w: Game) returns (c: Census)
    requires w.Valid()
    ensures c.clean <==> TilesOk(w.config.dims, w.tiles[..])
    ensures |c.counts| == 7
    ensures forall t: u32 :: WATER <= t <= SETTLEMENT ==> c.counts[t] == |TerrainSet(w.tiles[..], t)|
    ensures c.land == |LandSet(w.tiles[..])| && c.water == |TerrainSet(w.tiles[..], WATER)|
    ensures c.land <= MAX_TILES
  {
    hide Below, TileOk, TerrainSet, LandSet;
    var g := w.config.dims;
    ghost var ts := w.tiles[..];
    var clean, counts, land, water := true, [0, 0, 0, 0, 0, 0, 0], 0, 0;
    forall t: u32 { BelowNone(TerrainSet(ts, t)); }
    BelowNone(LandSet(ts));
    var index: nat := 0;
    while index < w.tiles.Length
      invariant index <= w.tiles.Length
      invariant clean <==> forall i: nat :: i < index ==> TileOk(g, ts, i)
      invariant |counts| == 7
      invariant forall t: u32 :: WATER <= t <= SETTLEMENT ==> counts[t] == |Below(TerrainSet(ts, t), index)|
      invariant land == |Below(LandSet(ts), index)| <= index && water == |Below(TerrainSet(ts, WATER), index)|
    {
      var terrain := w.tiles[index].terrain;
      var good := CheckTile(w, index);
      if !good {
        clean := false;
      }
      forall t: u32
        ensures |Below(TerrainSet(ts, t), index + 1)| == |Below(TerrainSet(ts, t), index)| + Bit(t == terrain)
      {
        CensusMembership(ts, t, index);
        BelowStep(TerrainSet(ts, t), index);
      }
      CensusMembership(ts, WATER, index);
      BelowStep(LandSet(ts), index);
      if WATER <= terrain <= SETTLEMENT {
        counts := counts[terrain := counts[terrain] + 1];
      }
      if terrain == WATER {
        water := water + 1;
      } else {
        land := land + 1;
      }
      index := index + 1;
    }
    forall t: u32 ensures Below(TerrainSet(ts, t), index) == TerrainSet(ts, t) {
      CensusComplete(ts, t);
      BelowAll(TerrainSet(ts, t), index);
    }
    CensusComplete(ts, WATER);
    BelowAll(LandSet(ts), index);
    c := Census(clean, counts, land, water);
  }

  lemma CensusMembership(ts: seq<Tile>, t: u32, i: nat)
    requires i < |ts|
    ensures i in TerrainSet(ts, t) <==> ts[i].terrain == t
    ensures i in LandSet(ts) <==> ts[i].terrain != WATER
  {
  }

  lemma CensusComplete(ts: seq<Tile>, t: u32)
    ensures forall i :: i in TerrainSet(ts, t) ==> i < |ts|
    ensures forall i :: i in LandSet(ts) ==> i < |ts|
  {
  }

  /** The nine invariant bits, two of which always move with another. */
  datatype Report = Report(
    bounds: bool, landCoast: bool, coverage: bool, hydrology: bool, settlements: bool,
    roadCorridor: bool, ownership: bool, land: nat, water: nat, river: nat, road: nat, crossings: nat)
  {
    predicate AllPassed() {
      bounds && landCoast && coverage && hydrology && settlements && roadCorridor && ownership
    }
  }

  ghost predicate MouthSettled(s: State)
    requires s.WellFormed()
  {
    var g, ts := s.config.dims, s.tiles;
    exists p: seq<nat> :: RiverPath(g, ts, p) && SettlementsOk(g, ts, s.entities[1], s.entities[2], p[0])
  }

  /** Records and map agree at the river's mouth, on the tile counts that were found. */
  ghost predicate MouthOwned(s: State, river: nat, road: nat)
    requires s.WellFormed()
  {
    var g, ts := s.config.dims, s.tiles;
    && river <= MAX_TILES && road <= MAX_TILES
    && exists p: seq<nat> :: RiverPath(g, ts, p) && OwnershipOk(g, s.entities, s.region, river, road, p[0])
  }

  /** The river fixes the mouth at which the other two are tested. */
  lemma MouthIs(s: State, p: seq<nat>)
    requires s.WellFormed() && RiverPath(s.config.dims, s.tiles, p)
    ensures |p| > 0 && p[0] < |s.tiles| <= MAX_TILES
    ensures MouthSettled(s) <==> SettlementsOk(s.config.dims, s.tiles, s.entities[1], s.entities[2], p[0])
    ensures forall river: u32, road: u32 :: river <= MAX_TILES && road <= MAX_TILES ==>
              (MouthOwned(s, river, road) <==>
                 OwnershipOk(s.config.dims, s.entities, s.region, river, road, p[0]))
  {
    hide RiverPath, SettlementsOk, OwnershipOk;
    forall q | RiverPath(s.config.dims, s.tiles, q) ensures q == p && |p| > 0 && p[0] < |s.tiles| {
      RiverUnique(s.config.dims, s.tiles, p, q);
    }
  }

  lemma MouthAt(s: State, outlet: nat)
    requires s.WellFormed() && exists p :: RiverPath(s.config.dims, s.tiles, p) && p[0] == outlet
    ensures outlet < |s.tiles| <= MAX_TILES
    ensures MouthSettled(s) <==> SettlementsOk(s.config.dims, s.tiles, s.entities[1], s.entities[2], outlet)
    ensures forall river: u32, road: u32 :: river <= MAX_TILES && road <= MAX_TILES ==>
              (MouthOwned(s, river, road) <==>
                 OwnershipOk(s.config.dims, s.entities, s.region, river, road, outlet))
  {
    hide SettlementsOk, OwnershipOk, MouthSettled, MouthOwned;
    var p :| RiverPath(s.config.dims, s.tiles, p) && p[0] == outlet;
    hide RiverPath;
    MouthIs(s, p);
  }

  lemma NoMouth(s: State)
    requires s.WellFormed() && !RiverOk(s.config.dims, s.tiles)
    ensures !MouthSettled(s) && forall river: nat, road: nat :: !MouthOwned(s, river, road)
  {
    hide RiverPath, SettlementsOk, OwnershipOk;
  }

  /** Each bit of the report holds exactly when its invariant does. */
  ghost predicate BitsMean(s: State, r: Report)
    requires s.WellFormed()
  {
    var g, ts := s.config.dims, s.tiles;
    && (r.bounds <==> SizesOk(g))
    && (r.landCoast <==> TilesOk(g, ts) && CoastOk(g, ts) && s.landTileCount == |LandSet(ts)|)
    && (r.coverage <==> CoverageOk(ts))
    && (r.hydrology <==> RiverOk(g, ts) && s.riverTileCount == |OverlaySet(ts, River)|)
    && (r.settlements <==> MouthSettled(s))
    && (r.roadCorridor <==> RoadOk(g, ts, s.entities[1], s.entities[2]) && s.roadTileCount == |OverlaySet(ts, Road)|)
    && (r.ownership <==> MouthOwned(s, r.river, r.road))
  }

  /** The counts reported are those of the map; of a broken river or road they are zero. */
  ghost predicate CountsMean(s: State, r: Report)
    requires s.WellFormed()
  {
    var g, ts := s.config.dims, s.tiles;
    var road := RoadOk(g, ts, s.entities[1], s.entities[2]);
    && r.land == |LandSet(ts)| && r.water == |TerrainSet(ts, WATER)|
    && r.river == (if RiverOk(g, ts) then |OverlaySet(ts, River)| else 0)
    && r.road == (if road then |OverlaySet(ts, Road)| else 0)
    && r.crossings == (if road then |CrossingSet(ts)| else 0)
  }

  /** Together the bits say what a valid world is. */
  lemma AllBitsMean(s: State, r: Report)
    requires s.WellFormed() && BitsMean(s, r) && CountsMean(s, r)
    ensures r.AllPassed() <==> WorldOk(s)
  {
    hide TilesOk, CoastOk, CoverageOk, RoadOk, RiverPath, SettlementsOk, OwnershipOk, OverlaySet, LandSet, MouthSettled,
      MouthOwned, SizesOk;
    SetBounds(s.tiles);
    if RiverOk(s.config.dims, s.tiles) {
      var p :| RiverPath(s.config.dims, s.tiles, p);
      MouthIs(s, p);
      forall q | RiverPath(s.config.dims, s.tiles, q) ensures q == p {
        RiverUnique(s.config.dims, s.tiles, p, q);
      }
    } else {
      NoMouth(s);
    }
  }

  /** fd_world_validate_internal: each bit means its invariant, all bits are set exactly for
      the valid worlds, and the counts reported are those of the map. */
  method ValidateWorld(w: Game) returns (report: Report)
    requires w.Valid()
    ensures report.AllPassed() <==> WorldOk(w.Value())
    ensures BitsMean(w.Value(), report) && CountsMean(w.Value(), report)
  {
    hide TilesOk, CoastOk, CoverageOk, RoadOk, RiverPath, SettlementsOk, OwnershipOk, OverlaySet, LandSet, TerrainSet,
      CrossingSet, MouthSettled, MouthOwned, WorldOk, SizesOk, RiverOk;
    var g := w.config.dims;
    ghost var s, ts := w.Value(), w.tiles[..];
    var bounds := SizesOk(g);
    var census := TakeCensus(w);
    var coast := false;
    if census.clean {
      coast := ValidateCoastLand(w, census.land);
    }
    var counts := census.counts;
    var coverage := && counts[WATER] > 0 && counts[GRASSLAND] > 0 && counts[FOREST] > 0
                    && counts[HILLS] > 0 && counts[WETLANDS] > 0 && counts[SETTLEMENT] == 2;
    CoverageCounts(ts, counts);
    var riverOk, riverCount, outlet := ValidateRiver(w);
    if riverOk {
      MouthAt(s, outlet);
    } else {
      NoMouth(s);
    }
    var settled := false;
    if outlet != NONE32 {
      settled := ValidateSettlements(w, outlet);
    }
    var roadOk, roadCount, crossings := ValidateRoad(w);
    var owned := false;
    SetBounds(ts);
    if outlet != NONE32 {
      owned := ValidateOwnership(w, riverCount, roadCount, outlet);
    }
    report := Report(bounds, coast && w.landTileCount == census.land, coverage,
                     riverOk && w.riverTileCount == riverCount, settled,
                     roadOk && w.roadTileCount == roadCount, owned,
                     census.land, census.water, riverCount, roadCount, crossings);
    AllBitsMean(s, report);
  }

  lemma SetBounds(ts: seq<Tile>)
    ensures |OverlaySet(ts, River)| <= |ts| && |OverlaySet(ts, Road)| <= |ts|
  {
    SubsetOfIndices(OverlaySet(ts, River), |ts|);
    SubsetOfIndices(OverlaySet(ts, Road), |ts|);
  }

  lemma CoverageCounts(ts: seq<Tile>, counts: seq<nat>)
    requires |counts| == 7
    requires forall t: u32 :: WATER <= t <= SETTLEMENT ==> counts[t] == |TerrainSet(ts, t)|
    ensures CoverageOk(ts) <==>
            && counts[WATER] > 0 && counts[GRASSLAND] > 0 && counts[FOREST] > 0
            && counts[HILLS] > 0 && counts[WETLANDS] > 0 && counts[SETTLEMENT] == 2
  {
    hide TerrainSet;
    assert TerrainSet(ts, WATER) != {} <==> counts[WATER] > 0;
    assert TerrainSet(ts, GRASSLAND) != {} <==> counts[GRASSLAND] > 0;
    assert TerrainSet(ts, FOREST) != {} <==> counts[FOREST] > 0;
    assert TerrainSet(ts, HILLS) != {} <==> counts[HILLS] > 0;
    assert TerrainSet(ts, WETLANDS) != {} <==> counts[WETLANDS] > 0;
  }

  /** A valid river has only one reading. */
  lemma RiverUnique(g: Dims, ts: seq<Tile>, p: seq<nat>, q: seq<nat>)
    requires |ts| <= MAX_TILES && RiverPath(g, ts, p) && RiverPath(g, ts, q)
    ensures p == q && |p| > 0 && p[0] < |ts|
  {
    hide Adj, Touches, FarFrom;
    assert ts[p[0]].overlays.outlet;
    InducedPathUnique(g, OverlaySet(ts, River), p, q);
  }
}
