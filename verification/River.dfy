/** Carving the river along its course, and when the carving succeeds. */
module River {
  import opened Counting
  import opened Grid
  import opened World
  import opened TilePath
  import opened Layout

  /** A tile after the river bed is cut through it, k steps above the outlet. */
  function RiverBed(t: Tile, k: nat): Tile
    requires k < MAX_TILES
  {
    t.(overlays := t.overlays.(river := true, outlet := t.overlays.outlet || k == 0),
       terrain := GRASSLAND, elevation := 100 + k)
  }

  /** The bed never has to be raised: the tile is land at or above the bed. */
  predicate Fits(t: Tile, k: nat) {
    t.terrain != WATER && t.elevation >= 100 + k
  }

  ghost predicate Prefix(q: seq<nat>, n: nat, done: set<nat>) {
    && (forall k :: 0 <= k < |q| ==> (q[k] in done <==> k < n))
    && (forall i :: i in done ==> i in q)
  }

  /** The first n tiles of q have become river bed and no other tile has changed. */
  ghost predicate Carved(q: seq<nat>, before: seq<Tile>, ts: seq<Tile>, n: nat, done: set<nat>) {
    && |ts| == |before| && n <= |q| <= MAX_TILES && Prefix(q, n, done)
    && (forall k :: 0 <= k < n ==> q[k] < |ts| && ts[q[k]] == RiverBed(before[q[k]], k))
    && (forall i: nat :: i < |ts| && i !in done ==> ts[i] == before[i])
  }

  /** A 32-bit counter increment. */
  function Increment(c: u32): u32 { if c == NONE32 then 0 else c + 1 }

  /** How deep the bed lies below tile k of the course. */
  ghost function CarveDepth(q: seq<nat>, before: seq<Tile>, k: nat): int
    requires k < |q| && q[k] < |before|
  {
    before[q[k]].elevation - (100 + k)
  }

  /** least is the least of start and the depths of the first n course tiles. */
  ghost predicate LeastCarve(q: seq<nat>, before: seq<Tile>, n: nat, start: int, least: int) {
    && n <= |q| && (forall k :: 0 <= k < n ==> q[k] < |before|)
    && least <= start && (forall k: nat :: k < n ==> least <= CarveDepth(q, before, k))
    && (least == start || exists k: nat :: k < n && least == CarveDepth(q, before, k))
  }

  lemma CarveLess(q: seq<nat>, before: seq<Tile>, n: nat, start: int, least: int)
    requires LeastCarve(q, before, n, start, least) && n < |q| && q[n] < |before|
    ensures LeastCarve(q, before, n + 1, start, Lesser(least, CarveDepth(q, before, n)))
  {
    hide CarveDepth;
  }

  /** fd_set_river_tile */
  method SetRiverTile(w: Game, index: nat, elevation: nat) returns (ok: bool)
    requires w.Valid() && index < w.tiles.Length && 100 <= elevation < 100 + MAX_TILES
    modifies w`riverRaisedTileCount, w`riverMinCarve, w.tiles
    ensures ok <==> Fits(old(w.tiles[index]), elevation - 100)
    ensures ok ==> w.tiles[..] == old(w.tiles[..])[index :=
                     old(w.tiles[index]).(overlays := old(w.tiles[index]).overlays.(river := true),
                                          terrain := GRASSLAND, elevation := elevation)]
    ensures !ok ==> w.tiles[..] == old(w.tiles[..])
    ensures ok ==> w.riverRaisedTileCount == old(w.riverRaisedTileCount)
    ensures ok ==> w.riverMinCarve == Lesser(old(w.riverMinCarve), old(w.tiles[index]).elevation - elevation)
    ensures !ok ==> w.riverRaisedTileCount == Increment(old(w.riverRaisedTileCount))
    ensures !ok ==> w.riverMinCarve == old(w.riverMinCarve)
  {
    var t := w.tiles[index];
    if t.terrain == WATER || t.elevation < 0 {
      w.riverRaisedTileCount := Increment(w.riverRaisedTileCount);
      return false;
    }
    if elevation > t.elevation {
      w.riverRaisedTileCount := Increment(w.riverRaisedTileCount);
      return false;
    }
    var carve := t.elevation - elevation;
    if carve < w.riverMinCarve {
      w.riverMinCarve := carve;
    }
    w.tiles[index] := t.(overlays := t.overlays.(river := true), terrain := GRASSLAND, elevation := elevation);
    ok := true;
  }


  /** The first and the last leg run along a row, the middle one along a column. */
  ghost predicate AcrossLeg(p: Plan, first: int, last: int, target: int) {
    || (first == 0 && last == p.Leg1() && target == p.BendX())
    || (first == p.Leg1() + p.Leg2() && last == p.CourseLength() - 1 && target == p.SourceX())
  }

  /** The guards of the horizontal loops stop exactly at the end of the leg, and their moves
      follow the course. */
  lemma AcrossStep(p: Plan, first: int, last: int, target: int, k: int)
    requires p.Valid() && AcrossLeg(p, first, last, target) && first <= k <= last
    ensures 0 <= first <= last < p.CourseLength()
    ensures p.CourseX(k) == target <==> k == last
    ensures k < last ==> p.CourseY(k + 1) == p.CourseY(k)
    ensures k < last ==> p.CourseX(k + 1) == if p.CourseX(k) < target then p.CourseX(k) + 1 else p.CourseX(k) - 1
  {
    PlanNumbers(p);
  }

  lemma DownStep(p: Plan, k: int)
    requires p.Valid() && p.Leg1() <= k <= p.Leg1() + p.Leg2()
    ensures 0 <= p.Leg1() <= p.Leg1() + p.Leg2() < p.CourseLength()
    ensures p.CourseY(k) == p.sourceY <==> k == p.Leg1() + p.Leg2()
    ensures k < p.Leg1() + p.Leg2() ==> p.CourseX(k + 1) == p.CourseX(k)
    ensures k < p.Leg1() + p.Leg2() ==>
              p.CourseY(k + 1) == if p.CourseY(k) < p.sourceY then p.CourseY(k) + 1 else p.CourseY(k) - 1
  {
    PlanNumbers(p);
  }

  /** Where the walk along the course stands after k steps. */
  ghost predicate OnCourse(p: Plan, before: seq<Tile>, ts: seq<Tile>, k: int, x: int, y: int, done: set<nat>)
    requires p.Valid()
  {
    && 0 <= k < p.CourseLength() && |before| == p.g.Count()
    && x == p.CourseX(k) && y == p.CourseY(k)
    && 0 <= x < p.g.width && 0 <= y < p.g.height
    && Carved(Course(p), before, ts, k + 1, done)
    && forall m: nat :: m <= k ==> Fits(before[Course(p)[m]], m)
  }

  lemma CarveStep(q: seq<nat>, before: seq<Tile>, ts: seq<Tile>, n: nat, done: set<nat>, ts': seq<Tile>)
    requires Carved(q, before, ts, n, done) && n < |q| && q[n] < |ts| && Distinct(q)
    requires ts' == ts[q[n] := RiverBed(ts[q[n]], n)]
    ensures Carved(q, before, ts', n + 1, done + {q[n]})
    ensures ts[q[n]] == before[q[n]]
  {
  }

  /** One move of any of the three loops: cut the next tile of the course. */
  method Advance(w: Game, x: int, y: int, elevation: nat, ghost p: Plan, ghost before: seq<Tile>, ghost k: int,
                 ghost done: set<nat>, ghost start: u32) returns (ok: bool, ghost done': set<nat>)
    requires w.Valid() && p.Valid() && p.g == w.config.dims && |before| == p.g.Count()
    requires 0 <= k < p.CourseLength() - 1 && elevation == 100 + k + 1
    requires x == p.CourseX(k + 1) && y == p.CourseY(k + 1)
    requires OnCourse(p, before, w.tiles[..], k, p.CourseX(k), p.CourseY(k), done)
    requires LeastCarve(Course(p), before, k + 1, start, w.riverMinCarve)
    modifies w`riverRaisedTileCount, w`riverMinCarve, w.tiles
    ensures ok <==> Fits(before[Course(p)[k + 1]], k + 1)
    ensures ok ==> OnCourse(p, before, w.tiles[..], k + 1, x, y, done')
    ensures ok ==> LeastCarve(Course(p), before, k + 2, start, w.riverMinCarve)
    ensures ok ==> w.riverRaisedTileCount == old(w.riverRaisedTileCount)
  {
    hide LeastCarve, Carved, X, Y, Index, Fits, Plan.CourseX, Plan.CourseY, Plan.CourseLength, Plan.Valid, Distinct,
      Chordless;
    CourseIsChordless(p);
    CourseBound(p);
    ghost var ts, q, n := w.tiles[..], Course(p), k + 1;
    CarveStep(q, before, ts, n, done, ts[q[n] := RiverBed(ts[q[n]], n)]);
    ok := SetRiverTile(w, Index(w.config.dims, x, y), elevation);
    done' := done + {q[n]};
    if ok {
      BedAwayFromMouth(ts[q[n]], n);
      CarveLess(q, before, n, start, old(w.riverMinCarve));
    }
  }

  lemma BedAwayFromMouth(t: Tile, k: nat)
    requires 0 < k < MAX_TILES
    ensures RiverBed(t, k) == t.(overlays := t.overlays.(river := true), terrain := GRASSLAND, elevation := 100 + k)
  {
  }

  lemma CourseBound(p: Plan)
    requires p.Valid()
    ensures |Course(p)| == p.CourseLength() <= MAX_TILES
  {
    hide Chordless, Plan.CourseX, Plan.CourseY;
    CourseIsChordless(p);
    PigeonHole(Course(p), p.g.Count());
  }

  datatype CarveResult = CarveOk | CarveBlocked

  function FinalBed(q: seq<nat>, before: seq<Tile>, k: nat): Tile
    requires k < |q| <= MAX_TILES && q[k] < |before|
  {
    if k == |q| - 1 then RiverBed(before[q[k]], k).(terrain := HILLS) else RiverBed(before[q[k]], k)
  }

  /** The finished river: a bed of steadily rising tiles from the marked outlet to a hill
      source, nothing else changed. */
  ghost predicate RiverDrawn(q: seq<nat>, before: seq<Tile>, after: seq<Tile>) {
    && |after| == |before| && 2 <= |q| <= MAX_TILES
    && (forall k :: 0 <= k < |q| ==> q[k] < |after| && after[q[k]] == FinalBed(q, before, k))
    && (forall i: nat :: i < |after| && i !in q ==> after[i] == before[i])
  }

  ghost predicate AllFit(q: seq<nat>, before: seq<Tile>)
    requires forall k :: 0 <= k < |q| ==> q[k] < |before|
  {
    forall k :: 0 <= k < |q| ==> Fits(before[q[k]], k)
  }

  lemma Finish(q: seq<nat>, before: seq<Tile>, ts: seq<Tile>, done: set<nat>)
    requires Carved(q, before, ts, |q|, done) && |q| >= 2 && Distinct(q)
    ensures q[|q| - 1] < |ts|
    ensures RiverDrawn(q, before, ts[q[|q| - 1] := ts[q[|q| - 1]].(terrain := HILLS)])
  {
  }

  lemma MouthStep(q: seq<nat>, before: seq<Tile>, ts: seq<Tile>)
    requires q != [] && |q| <= MAX_TILES && q[0] < |before| && Distinct(q)
    requires ts == before[q[0] := RiverBed(before[q[0]], 0)]
    ensures Carved(q, before, ts, 1, {q[0]})
  {
  }

  /** The outlet tile, cut at one metre and marked. */
  method OpenMouth(w: Game, ghost p: Plan, x: int, y: int) returns (ok: bool)
    requires w.Valid() && p.Valid() && p.g == w.config.dims && x == p.OutletX() && y == p.outletY
    requires 0 <= x < p.g.width && 0 <= y < p.g.height && 0 < p.CourseLength()
    modifies w`riverRaisedTileCount, w`riverMinCarve, w.tiles
    ensures ok <==> Fits(old(w.tiles[..])[Course(p)[0]], 0)
    ensures ok ==> OnCourse(p, old(w.tiles[..]), w.tiles[..], 0, x, y, {Course(p)[0]})
    ensures ok ==> LeastCarve(Course(p), old(w.tiles[..]), 1, old(w.riverMinCarve), w.riverMinCarve)
    ensures ok ==> w.riverRaisedTileCount == old(w.riverRaisedTileCount)
  {
    hide Carved, X, Y, Index, Fits, Distinct, Chordless;
    ghost var before, q := w.tiles[..], Course(p);
    Legs(p);
    CourseIsChordless(p);
    CourseBound(p);
    var index := Index(w.config.dims, x, y);
    assert index == q[0];
    ok := SetRiverTile(w, index, 100);
    if ok {
      w.tiles[index] := w.tiles[index].(overlays := w.tiles[index].overlays.(outlet := true));
      assert w.tiles[..] == before[q[0] := RiverBed(before[q[0]], 0)];
      MouthStep(q, before, w.tiles[..]);
      CarveLess(q, before, 0, old(w.riverMinCarve), old(w.riverMinCarve));
    }
  }

  /** Either horizontal loop of fd_construct_river. */
  method FlowAcross(w: Game, x0: int, y: int, elevation0: nat, count0: nat, target: int, ghost p: Plan,
                    ghost before: seq<Tile>, ghost first: int, ghost last: int, ghost done0: set<nat>, ghost start: u32)
    returns (ok: bool, x: int, elevation: nat, count: nat, ghost done: set<nat>)
    requires w.Valid() && p.Valid() && p.g == w.config.dims && |before| == p.g.Count()
    requires AcrossLeg(p, first, last, target) && 0 <= first <= last < p.CourseLength()
    requires OnCourse(p, before, w.tiles[..], first, x0, y, done0)
    requires elevation0 == 100 + first && count0 == first + 1
    requires LeastCarve(Course(p), before, first + 1, start, w.riverMinCarve)
    modifies w`riverRaisedTileCount, w`riverMinCarve, w.tiles
    ensures !ok ==> !AllFit(Course(p), before)
    ensures ok ==> OnCourse(p, before, w.tiles[..], last, x, y, done) && x == target
    ensures ok ==> elevation == 100 + last && count == last + 1
    ensures ok ==> LeastCarve(Course(p), before, last + 1, start, w.riverMinCarve)
    ensures ok ==> w.riverRaisedTileCount == old(w.riverRaisedTileCount)
  {
    hide LeastCarve, Carved, Fits, AcrossLeg, Plan.CourseX, Plan.CourseY, Plan.Valid, Plan.CourseLength;
    ghost var k := first;
    x, elevation, count, done := x0, elevation0, count0, done0;
    AcrossStep(p, first, last, target, k);
    while x != target
      invariant first <= k <= last && OnCourse(p, before, w.tiles[..], k, x, y, done)
      invariant elevation == 100 + k && count == k + 1
      invariant LeastCarve(Course(p), before, k + 1, start, w.riverMinCarve)
      invariant w.riverRaisedTileCount == old(w.riverRaisedTileCount)
      decreases last - k
    {
      AcrossStep(p, first, last, target, k);
      x := if x < target then x + 1 else x - 1;
      elevation := elevation + 1;
      ok, done := Advance(w, x, y, elevation, p, before, k, done, start);
      if !ok {
        return;
      }
      k, count := k + 1, count + 1;
    }
    AcrossStep(p, first, last, target, k);
    ok := true;
  }

  /** The vertical loop of fd_construct_river. */
  method FlowDown(w: Game, x: int, y0: int, elevation0: nat, count0: nat, sourceY: int, ghost p: Plan,
                  ghost before: seq<Tile>, ghost done0: set<nat>, ghost start: u32)
    returns (ok: bool, y: int, elevation: nat, count: nat, ghost done: set<nat>)
    requires w.Valid() && p.Valid() && p.g == w.config.dims && |before| == p.g.Count() && sourceY == p.sourceY
    requires 0 <= p.Leg1() < p.CourseLength() && 0 <= p.Leg2()
    requires OnCourse(p, before, w.tiles[..], p.Leg1(), x, y0, done0)
    requires elevation0 == 100 + p.Leg1() && count0 == p.Leg1() + 1
    requires LeastCarve(Course(p), before, p.Leg1() + 1, start, w.riverMinCarve)
    modifies w`riverRaisedTileCount, w`riverMinCarve, w.tiles
    ensures !ok ==> !AllFit(Course(p), before)
    ensures ok ==> OnCourse(p, before, w.tiles[..], p.Leg1() + p.Leg2(), x, y, done)
    ensures ok ==> elevation == 100 + p.Leg1() + p.Leg2() && count == p.Leg1() + p.Leg2() + 1
    ensures ok ==> LeastCarve(Course(p), before, p.Leg1() + p.Leg2() + 1, start, w.riverMinCarve)
    ensures ok ==> w.riverRaisedTileCount == old(w.riverRaisedTileCount)
  {
    hide LeastCarve, Carved, Fits, Plan.CourseX, Plan.CourseY, Plan.Valid, Plan.CourseLength, Plan.Leg1, Plan.Leg2;
    ghost var k := p.Leg1();
    y, elevation, count, done := y0, elevation0, count0, done0;
    DownStep(p, k);
    while y != sourceY
      invariant p.Leg1() <= k <= p.Leg1() + p.Leg2() && OnCourse(p, before, w.tiles[..], k, x, y, done)
      invariant elevation == 100 + k && count == k + 1
      invariant LeastCarve(Course(p), before, k + 1, start, w.riverMinCarve)
      invariant w.riverRaisedTileCount == old(w.riverRaisedTileCount)
      decreases p.Leg1() + p.Leg2() - k
    {
      DownStep(p, k);
      y := if y < sourceY then y + 1 else y - 1;
      elevation := elevation + 1;
      ok, done := Advance(w, x, y, elevation, p, before, k, done, start);
      if !ok {
        return;
      }
      k, count := k + 1, count + 1;
    }
    DownStep(p, k);
    ok := true;
  }

  /** fd_construct_river: it succeeds exactly when no course tile is water or lies below
      the bed, and then draws the whole course without ever raising a tile. */
  method ConstructRiver(w: Game, west: bool, water: nat, outletY: nat, sourceY: nat, tie: nat, ghost p: Plan)
    returns (result: CarveResult, outlet: nat, count: nat)
    requires w.Valid() && p.Valid() && p.g == w.config.dims
    requires west == p.west && water == BaseWater(p.g) && outletY == p.outletY && sourceY == p.sourceY && tie == p.tie
    modifies w`riverRaisedTileCount, w`riverMinCarve, w.tiles
    ensures result == CarveOk <==> AllFit(Course(p), old(w.tiles[..]))
    ensures result == CarveOk ==> RiverDrawn(Course(p), old(w.tiles[..]), w.tiles[..])
    ensures result == CarveOk ==> outlet == Course(p)[0] && count == |Course(p)|
    ensures result == CarveOk ==> w.riverRaisedTileCount == old(w.riverRaisedTileCount)
    ensures result == CarveOk ==>
              LeastCarve(Course(p), old(w.tiles[..]), |Course(p)|, old(w.riverMinCarve), w.riverMinCarve)
  {
    hide LeastCarve, Carved, RiverDrawn, X, Y, Index, Fits, Distinct, Chordless, Plan.CourseX, Plan.CourseY, Plan.Valid,
      BaseWater;
    var width := w.config.dims.width;
    Legs(p);
    CourseIsChordless(p);
    CourseBound(p);
    ghost var before, q, start := w.tiles[..], Course(p), w.riverMinCarve;
    var outletX := if west then water else width - water - 1;
    var sourceX := if west then width - 2 else 1;
    var bendX := (outletX + sourceX + tie) / 2;
    var x: int, y: int := outletX, outletY;
    var elevation: nat := 100;
    outlet, count := Index(w.config.dims, x, y), 0;
    var ok := OpenMouth(w, p, x, y);
    if !ok {
      return CarveBlocked, outlet, count;
    }
    ghost var done := {q[0]};
    assert bendX == p.BendX() && sourceX == p.SourceX();
    assert AcrossLeg(p, 0, p.Leg1(), bendX) && AcrossLeg(p, p.Leg1() + p.Leg2(), p.CourseLength() - 1, sourceX);
    hide AcrossLeg, Plan.OutletX, Plan.BendX, Plan.SourceX, Plan.CourseLength, Plan.Leg1, Plan.Leg2, Plan.Leg3;
    ok, x, elevation, count, done := FlowAcross(w, x, y, elevation, 1, bendX, p, before, 0, p.Leg1(), done, start);
    if !ok {
      return CarveBlocked, outlet, count;
    }
    ok, y, elevation, count, done := FlowDown(w, x, y, elevation, count, sourceY, p, before, done, start);
    if !ok {
      return CarveBlocked, outlet, count;
    }
    ok, x, elevation, count, done :=
      FlowAcross(w, x, y, elevation, count, sourceX, p, before, p.Leg1() + p.Leg2(), p.CourseLength() - 1, done, start);
    if !ok {
      return CarveBlocked, outlet, count;
    }
    Finish(q, before, w.tiles[..], done);
    ghost var carved := w.tiles[..];
    var source := Index(w.config.dims, x, y);
    assert source == q[|q| - 1];
    w.tiles[source] := w.tiles[source].(terrain := HILLS);
    assert w.tiles[..] == carved[source := carved[source].(terrain := HILLS)];
    result := CarveOk;
  }

  lemma Legs(p: Plan)
    requires p.Valid()
    ensures 0 < p.Leg1() && 0 <= p.Leg2() && 0 < p.Leg3() && p.CourseLength() == p.Leg1() + p.Leg2() + p.Leg3() + 1
    ensures p.CourseLength() >= 16
    ensures p.CourseX(0) == p.OutletX() && p.CourseY(0) == p.outletY
    ensures 0 <= p.OutletX() < p.g.width && p.outletY < p.g.height
  {
    PlanNumbers(p);
  }
}
