/** The road builder: the search loop over the tile array, and the walk back that marks
    the road and its river crossing. */
module RoadBuilder {
  import opened Counting
  import opened Grid
  import opened World
  import opened TilePath
  import opened Invariants
  import opened Heap
  import opened ShortestRoad
  import opened RoadSearch

  /** fd_road_cost: tie is the tile's random bit. */
  function RoadCost(t: Tile, tie: bool): (cost: u32)
    ensures cost == NONE32 <==> t.terrain !in {SETTLEMENT, GRASSLAND, FOREST, HILLS, WETLANDS}
    ensures cost != NONE32 ==> 1 <= cost <= MAX_STEP_COST
  {
    if t.terrain !in {SETTLEMENT, GRASSLAND, FOREST, HILLS, WETLANDS} then NONE32
    else
      var base :=
        if t.terrain == SETTLEMENT then 1
        else if t.terrain == GRASSLAND then 2
        else if t.terrain == FOREST then 4
        else if t.terrain == HILLS then 7
        else 8;
      base + (if t.overlays.river then 20 else 0) + (if tie then 1 else 0)
  }

  function Costs(ts: seq<Tile>, ties: seq<bool>): (c: seq<u32>)
    requires |ties| == |ts|
    ensures |c| == |ts| && forall i :: 0 <= i < |ts| ==> c[i] == RoadCost(ts[i], ties[i])
  {
    seq(|ts|, i requires 0 <= i < |ts| => RoadCost(ts[i], ties[i]))
  }

  /** fd_relax_road_neighbor */
  method RelaxNeighbor(w: Game, ties: seq<bool>, current: nat, neighbor: nat, previous: array<u32>, heap: IndexedHeap,
                       ghost start: nat, ghost popped: set<nat>, ghost todo: set<nat>)
    requires w.Valid() && |ties| == w.tiles.Length && heap.Valid()
    requires previous != heap.nodes && previous != heap.positions && previous != heap.distances
    requires SearchInv(w.config.dims, Costs(w.tiles[..], ties), start, heap.distances[..], previous[..],
                       heap.positions[..], popped, current, todo)
    requires current in popped && Adj(w.config.dims, current, neighbor)
    modifies heap, heap.nodes, heap.positions, heap.distances, previous
    ensures heap.Valid()
    ensures SearchInv(w.config.dims, Costs(w.tiles[..], ties), start, heap.distances[..], previous[..],
                      heap.positions[..], popped, current, todo - {neighbor})
  {
    hide Adj, SearchInv, Shape, Ordered, OrderedButAbove, RoadCost;
    var g := w.config.dims;
    ghost var c := Costs(w.tiles[..], ties);
    ghost var d, prev, ps := heap.distances[..], previous[..], heap.positions[..];
    Sizes(g, c, start, d, prev, ps, popped, current, todo);
    AdjBasics(g, current, neighbor);
    var cost := RoadCost(w.tiles[neighbor], ties[neighbor]);
    if c[neighbor] != NONE32 {
      PoppedNeverImproves(g, c, start, d, prev, ps, popped, current, todo, neighbor);
    }
    if cost == NONE32 || heap.distances[current] == NONE32 || heap.distances[current] > NONE32 - cost {
      RelaxKeeps(g, c, start, d, prev, ps, popped, current, todo, neighbor);
      return;
    }
    var candidate: u32 := heap.distances[current] + cost;
    if candidate < heap.distances[neighbor] || (candidate == heap.distances[neighbor] && current < previous[neighbor]) {
      heap.distances[neighbor] := candidate;
      previous[neighbor] := current;
      if heap.positions[neighbor] == NONE32 {
        OutsideKey(heap.nodes[..], ps, d, heap.size, neighbor, candidate);
        assert heap.distances[..] == d[neighbor := candidate] && heap.positions[..] == ps;
        heap.Insert(neighbor);
      } else {
        LoweredKey(heap.nodes[..], ps, d, heap.size, neighbor, candidate);
        assert heap.distances[..] == d[neighbor := candidate] && heap.positions[..] == ps;
        heap.Up(heap.positions[neighbor]);
      }
      forall u: nat | u < |ps| ensures heap.positions[..][u] != NONE32 <==> u == neighbor || ps[u] != NONE32 {
        assert heap.Holds(u) <==> u == neighbor || ps[u] != NONE32;
      }
      RelaxImproves(g, c, start, d, prev, ps, popped, current, todo, neighbor,
                    heap.distances[..], previous[..], heap.positions[..]);
    } else {
      RelaxKeeps(g, c, start, d, prev, ps, popped, current, todo, neighbor);
    }
  }

  lemma Sizes(
    g: Dims, c: seq<u32>, start: nat, d: seq<u32>, prev: seq<u32>, ps: seq<u32>,
    popped: set<nat>, current: nat, todo: set<nat>)
    requires SearchInv(g, c, start, d, prev, ps, popped, current, todo)
    ensures SameSize(g, c, d, prev, ps) && current < |d| && start < |d|
  {
  }

  /** The search half of fd_construct_road: pop and relax until the goal is popped or
      nothing waits. */
  method Search(w: Game, ties: seq<bool>, start: nat, goal: nat)
    returns (heap: IndexedHeap, previous: array<u32>, ghost popped: set<nat>, ghost last: nat, ghost todo: set<nat>)
    requires w.Valid() && |ties| == w.tiles.Length && start < w.tiles.Length && goal < w.tiles.Length
    ensures fresh(heap) && fresh(heap.nodes) && fresh(heap.positions) && fresh(heap.distances) && fresh(previous)
    ensures SearchInv(w.config.dims, Costs(w.tiles[..], ties), start, heap.distances[..], previous[..],
                      heap.positions[..], popped, last, todo)
    ensures goal < heap.distances.Length
    ensures heap.distances[goal] != NONE32 ==> goal in popped
    ensures heap.distances[goal] == NONE32 ==> !Reachable(w.config.dims, Costs(w.tiles[..], ties), start, goal)
  {
    hide Adj, SearchInv, Shape, Ordered, RoadCost, RouteTo;
    var g := w.config.dims;
    ghost var c := Costs(w.tiles[..], ties);
    heap := new IndexedHeap(w.tiles.Length);
    previous := new u32[w.tiles.Length](_ => NONE32);
    SearchStart(w, ties, start, heap, previous);
    popped, last, todo := {}, start, {};
    heap.distances[start] := 0;
    heap.Insert(start);
    forall u: nat | u < |c| ensures heap.positions[..][u] != NONE32 <==> u == start {
      assert heap.Holds(u) <==> u == start;
    }
    SearchBegins(g, c, start, heap.distances[..], previous[..], heap.positions[..]);
    while heap.size > 0
      invariant fresh(heap) && fresh(heap.nodes) && fresh(heap.positions) && fresh(heap.distances) && fresh(previous)
      invariant previous != heap.nodes && previous != heap.positions && previous != heap.distances
      invariant heap.Valid() && goal !in popped && todo == {}
      invariant SearchInv(g, c, start, heap.distances[..], previous[..], heap.positions[..], popped, last, todo)
      decreases w.tiles.Length - |popped|
    {
      ghost var ps := heap.positions[..];
      PoppedFits(g, c, start, heap.distances[..], previous[..], ps, popped, last, todo);
      var current := heap.Pop();
      forall v: nat | v < |ps| ensures heap.positions[..][v] != NONE32 <==> ps[v] != NONE32 && v != current {
        assert heap.Holds(v) <==> ps[v] != NONE32 && v != current;
      }
      PopStep(g, c, start, heap.distances[..], previous[..], ps, popped, last, heap.positions[..], current);
      popped, last, todo := popped + {current}, current, AllNeighbours(g, current);
      if current == goal {
        break;
      }
      RelaxAll(w, ties, current, previous, heap, start, popped);
      todo := {};
    }
    ghost var d, ps := heap.distances[..], heap.positions[..];
    Outcome(g, c, start, d, previous[..], ps, popped, last, todo, goal);
    if goal !in popped {
      EmptyHeap(heap.nodes[..], ps, heap.size);
      forall p ensures !RouteTo(g, c, start, goal, p) {
        Dry(g, c, start, d, previous[..], ps, popped, last, goal, p);
      }
    }
  }

  lemma SearchStart(w: Game, ties: seq<bool>, start: nat, heap: IndexedHeap, previous: array<u32>)
    requires w.Valid() && |ties| == w.tiles.Length && start < w.tiles.Length
    requires heap.Valid() && heap.size == 0
    requires heap.nodes.Length == previous.Length == w.tiles.Length
    requires forall v: nat :: v < heap.positions.Length ==> !heap.Holds(v)
    ensures CostField(w.config.dims, Costs(w.tiles[..], ties))
    ensures Ordered(heap.nodes[..], heap.distances[..][start := 0], 0)
  {
    OutsideKey(heap.nodes[..], heap.positions[..], heap.distances[..], 0, start, 0);
  }

  lemma PoppedFits(
    g: Dims, c: seq<u32>, start: nat, d: seq<u32>, prev: seq<u32>, ps: seq<u32>,
    popped: set<nat>, current: nat, todo: set<nat>)
    requires SearchInv(g, c, start, d, prev, ps, popped, current, todo)
    ensures SameSize(g, c, d, prev, ps) && |popped| <= |d|
    ensures forall v: nat :: v < |d| && ps[v] != NONE32 ==> |popped| < |d| && v !in popped
  {
    hide Adj, AllExplained, AllRelaxed;
    SubsetOfIndices(popped, |d|);
    forall v: nat | v < |d| && ps[v] != NONE32 ensures |popped| < |d| && v !in popped {
      SubsetOfIndices(popped + {v}, |d|);
    }
  }

  lemma Outcome(
    g: Dims, c: seq<u32>, start: nat, d: seq<u32>, prev: seq<u32>, ps: seq<u32>,
    popped: set<nat>, current: nat, todo: set<nat>, v: nat)
    requires SearchInv(g, c, start, d, prev, ps, popped, current, todo) && v < |d|
    ensures |d| == |ps| && (d[v] != NONE32 <==> v in popped || ps[v] != NONE32)
  {
    hide Adj, AllExplained, AllRelaxed;
  }

  lemma EmptyHeap(ns: seq<u32>, ps: seq<u32>, size: nat)
    requires Shape(ns, ps, size) && size == 0
    ensures forall v: nat :: v < |ps| ==> ps[v] == NONE32
  {
  }

  lemma Dry(
    g: Dims, c: seq<u32>, start: nat, d: seq<u32>, prev: seq<u32>, ps: seq<u32>,
    popped: set<nat>, current: nat, goal: nat, p: seq<nat>)
    requires SearchInv(g, c, start, d, prev, ps, popped, current, {})
    requires |ps| == |d| && forall v: nat :: v < |d| ==> ps[v] == NONE32
    requires goal !in popped
    ensures !RouteTo(g, c, start, goal, p)
  {
    hide Adj, SearchInv;
    if Route(g, c, start, p) {
      DryHeapReachesAll(g, c, start, d, prev, ps, popped, current, p);
    }
  }

  /** The four guarded relaxations of one popped tile, in the source's order. */
  method RelaxAll(w: Game, ties: seq<bool>, current: nat, previous: array<u32>, heap: IndexedHeap,
                  ghost start: nat, ghost popped: set<nat>)
    requires w.Valid() && |ties| == w.tiles.Length && heap.Valid()
    requires previous != heap.nodes && previous != heap.positions && previous != heap.distances
    requires SearchInv(w.config.dims, Costs(w.tiles[..], ties), start, heap.distances[..], previous[..],
                       heap.positions[..], popped, current, AllNeighbours(w.config.dims, current))
    requires current in popped && current < w.tiles.Length
    modifies heap, heap.nodes, heap.positions, heap.distances, previous
    ensures heap.Valid()
    ensures SearchInv(w.config.dims, Costs(w.tiles[..], ties), start, heap.distances[..], previous[..],
                      heap.positions[..], popped, current, {})
  {
    hide Adj, SearchInv, RoadCost, X, Y, Shape, Ordered;
    var g := w.config.dims;
    var x, y := X(g, current), Y(g, current);
    ghost var todo := AllNeighbours(g, current);
    NeighborOffsets(g, current, current - g.width);
    NeighborOffsets(g, current, current - 1);
    NeighborOffsets(g, current, current + 1);
    NeighborOffsets(g, current, current + g.width);
    AdjBasics(g, current, current - g.width);
    AdjBasics(g, current, current - 1);
    if y > 0 {
      RelaxNeighbor(w, ties, current, current - g.width, previous, heap, start, popped, todo);
      todo := todo - {current - g.width};
    }
    if x > 0 {
      RelaxNeighbor(w, ties, current, current - 1, previous, heap, start, popped, todo);
      todo := todo - {current - 1};
    }
    if x + 1 < g.width {
      RelaxNeighbor(w, ties, current, current + 1, previous, heap, start, popped, todo);
      todo := todo - {current + 1};
    }
    if y + 1 < g.height {
      RelaxNeighbor(w, ties, current, current + g.width, previous, heap, start, popped, todo);
      todo := todo - {current + g.width};
    }
    forall j: nat ensures j !in todo {
      NeighborOffsets(g, current, j);
    }
    assert todo == {};
  }

  // ----- marking the road

  datatype Code = Ok | GenerationExhausted

  function SetRoad(t: Tile): Tile { t.(overlays := t.overlays.(road := true)) }

  function SetCrossing(t: Tile): Tile { t.(overlays := t.overlays.(crossing := true)) }

  /** How many tiles of the list carry river. */
  ghost predicate AtMostOneRiver(ts: seq<Tile>, p: seq<nat>)
    requires ElementsIn(ts, p)
  {
    forall a, b :: 0 <= a < b < |p| ==> !(ts[p[a]].overlays.river && ts[p[b]].overlays.river)
  }

  /** The map with the road p drawn on it and its river tiles marked as crossings. */
  ghost predicate RoadDrawn(before: seq<Tile>, after: seq<Tile>, p: seq<nat>) {
    && |after| == |before|
    && forall i: nat :: i < |before| ==>
         after[i] == (if i !in p then before[i]
                      else if before[i].overlays.river then SetCrossing(SetRoad(before[i]))
                      else SetRoad(before[i]))
  }

  /** Drawing a road adds the road bit on it and the crossing bit where it meets the river,
      and changes nothing else anywhere. */
  lemma DrawnBits(before: seq<Tile>, after: seq<Tile>, p: seq<nat>, i: nat)
    requires RoadDrawn(before, after, p) && i < |before|
    ensures var s, t := before[i], after[i];
            && t.elevation == s.elevation && t.rainfall == s.rainfall && t.settlement == s.settlement
            && t.terrain == s.terrain && t.overlays.river == s.overlays.river
            && t.overlays.outlet == s.overlays.outlet && t.overlays.rest == s.overlays.rest
            && (t.overlays.road <==> s.overlays.road || i in p)
            && (t.overlays.crossing <==> s.overlays.crossing || (i in p && s.overlays.river))
  {
  }

  /** Only road bits have been added. */
  ghost predicate OnlyRoadBits(before: seq<Tile>, after: seq<Tile>) {
    && |after| == |before|
    && forall i: nat :: i < |before| ==> after[i] == before[i] || after[i] == SetRoad(before[i])
  }

  /** The route found by following recorded predecessors back from a popped goal. */
  lemma RecordedRoute(
    g: Dims, c: seq<u32>, start: nat, d: seq<u32>, prev: seq<u32>, ps: seq<u32>,
    popped: set<nat>, current: nat, todo: set<nat>, goal: nat) returns (p: seq<nat>)
    requires SearchInv(g, c, start, d, prev, ps, popped, current, todo) && goal in popped
    ensures CanonicalRoute(g, c, start, goal, p) && Chained(start, prev, goal, p)
    ensures |c| == |d| == |prev| && |p| <= |d| && Distinct(p) && forall k :: 0 <= k < |p| ==> p[k] < |d|
    ensures prev[start] == NONE32 && start < |prev|
    ensures IsDistance(g, c, start, goal, RouteCost(c, p))
  {
    hide Adj, AllRelaxed, AllExplained, Layered, Bounded, CanonicalStep, IsDistance, Route;
    p := TraceBack(g, c, start, d, prev, ps, popped, current, todo, goal);
    ChainIsCanonical(g, c, start, d, prev, ps, popped, current, todo, goal, p);
    CanonicalDistances(g, c, start, goal, p);
  }

  /** The road bit has been added on exactly the marked tiles. */
  ghost predicate MarkedOn(before: seq<Tile>, after: seq<Tile>, marked: set<nat>) {
    && |after| == |before|
    && forall i: nat :: i < |before| ==> after[i] == if i in marked then SetRoad(before[i]) else before[i]
  }

  /** intersection is the river tile among the marked ones, or the sentinel when there is none. */
  ghost predicate SoleRiver(ts: seq<Tile>, marked: set<nat>, intersection: nat) {
    && |ts| <= MAX_TILES
    && (forall i :: i in marked ==> i < |ts|)
    && (forall i :: i in marked && i < |ts| && ts[i].overlays.river ==> i == intersection)
    && (intersection != NONE32 ==> intersection in marked && intersection < |ts| && ts[intersection].overlays.river)
  }

  /** marked are the tiles of p after position j. */
  ghost predicate Suffix(p: seq<nat>, j: int, marked: set<nat>) {
    && (forall k :: 0 <= k < |p| ==> (p[k] in marked <==> k > j))
    && (forall i :: i in marked ==> i in p)
  }

  lemma MarkStep(ts: seq<Tile>, tiles: seq<Tile>, p: seq<nat>, j: nat, marked: set<nat>)
    requires Distinct(p) && j < |p| && p[j] < |ts| && Suffix(p, j, marked) && MarkedOn(ts, tiles, marked)
    ensures |tiles| == |ts| && p[j] !in marked && tiles[p[j]] == ts[p[j]]
    ensures Suffix(p, j - 1, marked + {p[j]})
    ensures MarkedOn(ts, tiles[p[j] := SetRoad(tiles[p[j]])], marked + {p[j]})
    ensures OnlyRoadBits(ts, tiles[p[j] := SetRoad(tiles[p[j]])])
  {
  }

  lemma RiverStep(ts: seq<Tile>, marked: set<nat>, intersection: nat, v: nat)
    requires SoleRiver(ts, marked, intersection) && v < |ts|
    requires ts[v].overlays.river ==> intersection == NONE32
    ensures SoleRiver(ts, marked + {v}, if ts[v].overlays.river then v else intersection)
  {
  }

  /** One step back along the recorded predecessors. */
  lemma ChainStep(start: nat, prev: seq<u32>, goal: nat, p: seq<nat>, j: nat)
    requires Chained(start, prev, goal, p) && Distinct(p) && j < |p|
    requires |p| <= |prev| <= MAX_TILES && forall k :: 0 <= k < |p| ==> p[k] < |prev|
    ensures p[j] < |prev| && (p[j] == start <==> j == 0)
    ensures j > 0 ==> prev[p[j]] == p[j - 1] && p[j - 1] != NONE32
  {
  }

  lemma SecondRiver(ts: seq<Tile>, p: seq<nat>, j: nat, marked: set<nat>, intersection: nat)
    requires Distinct(p) && ElementsIn(ts, p) && j < |p| && Suffix(p, j, marked)
    requires SoleRiver(ts, marked, intersection) && intersection != NONE32
    requires ts[p[j]].overlays.river
    ensures !AtMostOneRiver(ts, p)
  {
    var m :| 0 <= m < |p| && p[m] == intersection;
  }

  lemma RoadComplete(ts: seq<Tile>, tiles: seq<Tile>, p: seq<nat>, marked: set<nat>, intersection: nat)
    requires ElementsIn(ts, p) && Distinct(p) && Suffix(p, -1, marked)
    requires MarkedOn(ts, tiles, marked) && SoleRiver(ts, marked, intersection)
    ensures AtMostOneRiver(ts, p) && |tiles| == |ts|
    ensures intersection != NONE32 ==> intersection < |ts|
    ensures var final := if intersection == NONE32 then tiles else tiles[intersection := SetCrossing(tiles[intersection])];
            RoadDrawn(ts, final, p)
  {
    assert forall i :: i in p <==> i in marked;
    forall a, b | 0 <= a < b < |p| ensures !(ts[p[a]].overlays.river && ts[p[b]].overlays.river) {
      assert p[a] in marked && p[b] in marked;
    }
  }

  /** One tile of the walk back: its road bit, and whether it is a second river tile. */
  method MarkTile(w: Game, current: nat, before: nat, ghost ts: seq<Tile>, ghost p: seq<nat>, ghost j: nat,
                  ghost marked: set<nat>)
    returns (second: bool, intersection: nat)
    requires j < |p| && current == p[j] < w.tiles.Length && Distinct(p) && ElementsIn(ts, p)
    requires Suffix(p, j, marked) && MarkedOn(ts, w.tiles[..], marked) && SoleRiver(ts, marked, before)
    modifies w.tiles
    ensures second ==> !AtMostOneRiver(ts, p) && OnlyRoadBits(ts, w.tiles[..])
    ensures !second ==> SoleRiver(ts, marked + {current}, intersection)
    ensures Suffix(p, j - 1, marked + {current}) && MarkedOn(ts, w.tiles[..], marked + {current})
  {
    hide Suffix, AtMostOneRiver, SoleRiver, MarkedOn, Distinct, OnlyRoadBits;
    ghost var drawn := w.tiles[..];
    MarkStep(ts, drawn, p, j, marked);
    w.tiles[current] := SetRoad(w.tiles[current]);
    assert w.tiles[..] == drawn[current := SetRoad(drawn[current])];
    second, intersection := false, before;
    if w.tiles[current].overlays.river {
      if before != NONE32 {
        SecondRiver(ts, p, j, marked, before);
        return true, before;
      }
      RiverStep(ts, marked, before, current);
      intersection := current;
    } else {
      RiverStep(ts, marked, before, current);
    }
  }

  /** The walk back of fd_construct_road.  The branch reporting an internal error is dead. */
  method WalkBack(w: Game, start: nat, goal: nat, previous: array<u32>, ghost p: seq<nat>)
    returns (code: Code, count: nat, intersection: nat, ghost marked: set<nat>)
    requires w.Valid() && previous.Length == w.tiles.Length
    requires Chained(start, previous[..], goal, p) && Distinct(p) && ElementsIn(w.tiles[..], p)
    requires |p| <= w.tiles.Length
    modifies w.tiles
    ensures code == Ok ==>
              && count == |p| && Suffix(p, -1, marked)
              && MarkedOn(old(w.tiles[..]), w.tiles[..], marked)
              && SoleRiver(old(w.tiles[..]), marked, intersection)
    ensures code != Ok ==> !AtMostOneRiver(old(w.tiles[..]), p) && OnlyRoadBits(old(w.tiles[..]), w.tiles[..])
  {
    assert forall k :: 0 <= k < |p| ==> p[k] < previous.Length;
    hide Suffix, AtMostOneRiver, SoleRiver, MarkedOn, Chained, Distinct, ElementsIn, OnlyRoadBits;
    ghost var ts, prev := w.tiles[..], previous[..];
    ghost var j := |p| - 1;
    marked, count, intersection := {}, 0, NONE32;
    var current: nat := goal;
    NothingMarked(ts, p);
    ChainEnds(start, prev, goal, p);
    while true
      invariant 0 <= j < |p| && current == p[j] && count == |p| - 1 - j
      invariant Suffix(p, j, marked) && MarkedOn(ts, w.tiles[..], marked) && SoleRiver(ts, marked, intersection)
      decreases j
    {
      ChainStep(start, prev, goal, p, j);
      var second;
      second, intersection := MarkTile(w, current, intersection, ts, p, j, marked);
      if second {
        return GenerationExhausted, count, intersection, marked;
      }
      marked := marked + {current};
      count := count + 1;
      if current == start {
        break;
      }
      current := previous[current];
      if current == NONE32 || count > w.tiles.Length {
        assert false;
      }
      j := j - 1;
    }
    code := Ok;
  }

  lemma ChainEnds(start: nat, prev: seq<u32>, goal: nat, p: seq<nat>)
    requires Chained(start, prev, goal, p)
    ensures |p| >= 1 && p[|p| - 1] == goal
  {
  }

  lemma NothingMarked(ts: seq<Tile>, p: seq<nat>)
    requires |ts| <= MAX_TILES
    ensures Suffix(p, |p| - 1, {}) && MarkedOn(ts, ts, {}) && SoleRiver(ts, {}, NONE32) && OnlyRoadBits(ts, ts)
  {
  }

  /** The canonical route of a reachable goal crosses river twice or more. */
  ghost predicate CrossesTwice(g: Dims, ts: seq<Tile>, c: seq<u32>, start: nat, goal: nat) {
    exists p :: CanonicalRoute(g, c, start, goal, p) && ElementsIn(ts, p) && !AtMostOneRiver(ts, p)
  }

  /** fd_construct_road.  It draws the canonical shortest road when there is one with at
      most one river tile, and fails exactly when the goal cannot be reached over land or
      the canonical road meets the river more than once. */
  method ConstructRoad(w: Game, ties: seq<bool>, start: nat, goal: nat) returns (code: Code, ghost p: seq<nat>)
    requires w.Valid() && |ties| == w.tiles.Length && start < w.tiles.Length && goal < w.tiles.Length
    modifies w`roadTileCount, w.tiles
    ensures code == Ok ==>
              var ts, c := old(w.tiles[..]), Costs(old(w.tiles[..]), ties);
              && CanonicalRoute(w.config.dims, c, start, goal, p)
              && IsDistance(w.config.dims, c, start, goal, RouteCost(c, p))
              && Distinct(p) && Chordless(w.config.dims, p)
              && ElementsIn(ts, p) && AtMostOneRiver(ts, p)
              && RoadDrawn(ts, w.tiles[..], p) && w.roadTileCount == |p|
    ensures code != Ok <==>
              var ts, c := old(w.tiles[..]), Costs(old(w.tiles[..]), ties);
              || !Reachable(w.config.dims, c, start, goal)
              || CrossesTwice(w.config.dims, ts, c, start, goal)
    ensures code != Ok ==> OnlyRoadBits(old(w.tiles[..]), w.tiles[..]) && w.roadTileCount == old(w.roadTileCount)
  {
    hide Adj, SearchInv, CanonicalRoute, RoadCost, RoadDrawn, AtMostOneRiver, MarkedOn, Suffix, OnlyRoadBits,
      IsDistance, Reachable, Costs, Chordless;
    var g := w.config.dims;
    ghost var ts := w.tiles[..];
    ghost var c := Costs(ts, ties);
    var heap, previous;
    ghost var popped, last, todo;
    heap, previous, popped, last, todo := Search(w, ties, start, goal);
    assert w.tiles[..] == ts;
    Sizes(g, c, start, heap.distances[..], previous[..], heap.positions[..], popped, last, todo);
    if heap.distances[goal] == NONE32 {
      p := [];
      NothingMarked(ts, p);
      return GenerationExhausted, p;
    }
    p := RecordedRoute(g, c, start, heap.distances[..], previous[..], heap.positions[..], popped, last, todo, goal);
    CostsAreField(g, ts, ties);
    CanonicalIsInduced(g, c, start, goal, p);
    RouteReaches(g, c, start, goal, p);
    forall q | CanonicalRoute(g, c, start, goal, q) ensures q == p {
      CanonicalRouteUnique(g, c, start, goal, p, q);
    }
    var count, intersection;
    ghost var marked;
    code, count, intersection, marked := WalkBack(w, start, goal, previous, p);
    if code == Ok {
      RoadComplete(ts, w.tiles[..], p, marked, intersection);
      ghost var drawn := w.tiles[..];
      if intersection != NONE32 {
        w.tiles[intersection] := SetCrossing(w.tiles[intersection]);
        assert w.tiles[..] == drawn[intersection := SetCrossing(drawn[intersection])];
      }
      w.roadTileCount := count;
    }
  }

  lemma CostsAreField(g: Dims, ts: seq<Tile>, ties: seq<bool>)
    requires |ts| == |ties| == g.Count()
    ensures CostField(g, Costs(ts, ties))
  {
  }

  lemma RouteReaches(g: Dims, c: seq<u32>, start: nat, goal: nat, p: seq<nat>)
    requires CanonicalRoute(g, c, start, goal, p)
    ensures Reachable(g, c, start, goal)
  {
    hide Adj, CanonicalStep;
  }

  // ----- the road drawn by the builder is the road the validator accepts

  /** Drawing a chordless road with at most one river tile, on a map without road marks,
      between two dry ends, satisfies the road invariant. */
  lemma {:induction false} DrawnRoadIsValid(g: Dims, before: seq<Tile>, after: seq<Tile>, p: seq<nat>)
    requires |p| >= 2 && ElementsIn(before, p) && RoadDrawn(before, after, p)
    requires Distinct(p) && Chordless(g, p) && AtMostOneRiver(before, p)
    requires forall i: nat :: i < |before| ==> !before[i].overlays.road && !before[i].overlays.crossing
    requires forall k :: 0 <= k < |p| ==> before[p[k]].terrain != WATER
    requires !before[p[0]].overlays.river && !before[p[|p| - 1]].overlays.river
    ensures RoadPath(g, after, p[0], p[|p| - 1], p)
  {
    hide Adj;
    forall i ensures i in OverlaySet(after, Road) <==> i in p {
      if i in p { assert i < |before|; }
    }
    var C := CrossingSet(after);
    forall a: nat, b: nat | a in C && b in C ensures a == b {
      var k :| 0 <= k < |p| && p[k] == a;
      var m :| 0 <= m < |p| && p[m] == b;
    }
    AtMostOne(C);
  }

  lemma AtMostOne(C: set<nat>)
    requires forall a: nat, b: nat :: a in C && b in C ==> a == b
    ensures |C| <= 1
  {
    if a :| a in C {
      assert C == {a};
    }
  }
}
