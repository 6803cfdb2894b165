/** The node-weighted Dijkstra search of the road builder, with its tie-break on
    predecessor index, and the proof that what it records is optimal and canonical. */
module RoadSearch {
  import opened Counting
  import opened Grid
  import opened TilePath
  import opened Heap
  import opened ShortestRoad

  /** The distance of v offered by going through u. */
  function Via(c: seq<u32>, d: seq<u32>, u: nat, v: nat): int
    requires u < |d| && v < |c|
  {
    (d[u] as int) + (c[v] as int)
  }

  ghost predicate SameSize(g: Dims, c: seq<u32>, d: seq<u32>, prev: seq<u32>, ps: seq<u32>) {
    |c| == |d| == |prev| == |ps| == g.Count() <= MAX_TILES
  }

  /** What relaxing the edge u-v leaves behind: v is no dearer than through u, and when
      equally dear its recorded predecessor is no later than u. */
  ghost predicate Relaxed(c: seq<u32>, d: seq<u32>, prev: seq<u32>, u: nat, v: nat)
    requires |c| == |d| == |prev| && u < |d| && v < |d|
  {
    && d[v] <= Via(c, d, u, v)
    && (d[v] == Via(c, d, u, v) ==> prev[v] <= u)
  }

  /** A finite distance of a tile other than the start is its predecessor's plus the
      tile's own entry cost, and that predecessor has been popped. */
  ghost predicate Explained(g: Dims, c: seq<u32>, d: seq<u32>, prev: seq<u32>, popped: set<nat>, v: nat)
    requires |c| == |d| == |prev| && v < |d|
  {
    && prev[v] in popped && prev[v] < |d|
    && Adj(g, prev[v], v) && c[v] != NONE32
    && d[v] == Via(c, d, prev[v], v)
  }

  ghost predicate Frontier(start: nat, d: seq<u32>, prev: seq<u32>, ps: seq<u32>, popped: set<nat>)
    requires |d| == |prev| == |ps|
  {
    && start < |d| && d[start] == 0 && prev[start] == NONE32
    && (forall v :: v in popped ==> v < |d| && d[v] != NONE32 && ps[v] == NONE32)
    && (forall v: nat :: v < |d| ==> (d[v] != NONE32 <==> v in popped || ps[v] != NONE32))
  }

  ghost predicate AllExplained(
    g: Dims, c: seq<u32>, start: nat, d: seq<u32>, prev: seq<u32>, popped: set<nat>)
    requires |c| == |d| == |prev|
  {
    forall v: nat :: v < |d| && d[v] != NONE32 && v != start ==> Explained(g, c, d, prev, popped, v)
  }

  ghost predicate AllRelaxed(
    g: Dims, c: seq<u32>, d: seq<u32>, prev: seq<u32>, popped: set<nat>, current: nat, todo: set<nat>)
    requires |c| == |d| == |prev|
  {
    forall u: nat, v: nat :: u in popped && u < |d| && v < |d| && Adj(g, u, v) && c[v] != NONE32 ==>
      (u == current && v in todo) || Relaxed(c, d, prev, u, v)
  }

  /** Popped tiles are no farther than waiting ones, and current is the farthest popped. */
  ghost predicate Layered(d: seq<u32>, ps: seq<u32>, popped: set<nat>, current: nat)
    requires |d| == |ps| && current < |d|
  {
    && (forall u: nat, v: nat :: u in popped && u < |d| && v < |d| && ps[v] != NONE32 ==> d[u] <= d[v])
    && (forall u: nat :: u in popped && u < |d| ==> d[u] <= d[current])
  }

  /** Distances stay far below the sentinel: one step cost per popped tile at most. */
  ghost predicate Bounded(d: seq<u32>, popped: set<nat>, current: nat)
    requires current < |d|
  {
    && (popped != {} ==> current in popped && d[current] <= MAX_STEP_COST * (|popped| - 1))
    && (forall v: nat :: v < |d| && d[v] != NONE32 ==> d[v] <= MAX_STEP_COST * |popped|)
  }

  /** The loop invariant.  popped are the tiles taken out of the heap, current the last of
      them, and todo the neighbours of current still to be relaxed. */
  ghost predicate SearchInv(
    g: Dims, c: seq<u32>, start: nat, d: seq<u32>, prev: seq<u32>, ps: seq<u32>,
    popped: set<nat>, current: nat, todo: set<nat>)
  {
    && SameSize(g, c, d, prev, ps) && CostField(g, c) && current < |d|
    && Frontier(start, d, prev, ps, popped)
    && AllExplained(g, c, start, d, prev, popped)
    && AllRelaxed(g, c, d, prev, popped, current, todo)
    && Layered(d, ps, popped, current)
    && Bounded(d, popped, current)
  }

  lemma SearchBegins(g: Dims, c: seq<u32>, start: nat, d: seq<u32>, prev: seq<u32>, ps: seq<u32>)
    requires SameSize(g, c, d, prev, ps) && CostField(g, c) && start < |d|
    requires forall v: nat :: v < |d| ==> d[v] == (if v == start then 0 else NONE32) && prev[v] == NONE32
    requires forall v: nat :: v < |d| ==> (ps[v] != NONE32 <==> v == start)
    ensures SearchInv(g, c, start, d, prev, ps, {}, start, {})
  {
  }

  ghost function AllNeighbours(g: Dims, u: nat): (S: set<nat>)
    ensures forall v: nat :: v in S <==> Adj(g, u, v)
  {
    set v: nat | v < g.Count() && Adj(g, u, v)
  }

  /** ps' is ps after the least waiting tile, next, has left the heap. */
  ghost predicate PopsLeast(d: seq<u32>, ps: seq<u32>, ps': seq<u32>, next: nat) {
    && |ps'| == |ps| == |d| && next < |ps| && ps[next] != NONE32
    && (forall v: nat :: v < |ps| ==> (ps'[v] != NONE32 <==> ps[v] != NONE32 && v != next))
    && (forall v: nat :: v < |ps| && ps[v] != NONE32 ==> !Less(d, v, next))
  }

  lemma PopFrontier(
    g: Dims, c: seq<u32>, start: nat, d: seq<u32>, prev: seq<u32>, ps: seq<u32>,
    popped: set<nat>, current: nat, ps': seq<u32>, next: nat)
    requires SearchInv(g, c, start, d, prev, ps, popped, current, {}) && PopsLeast(d, ps, ps', next)
    ensures next !in popped && d[next] != NONE32
    ensures Frontier(start, d, prev, ps', popped + {next})
    ensures |popped + {next}| == |popped| + 1
  {
    hide Adj, AllExplained, AllRelaxed, Layered, Bounded;
  }

  lemma {:induction false} PopLayers(
    g: Dims, c: seq<u32>, start: nat, d: seq<u32>, prev: seq<u32>, ps: seq<u32>,
    popped: set<nat>, current: nat, ps': seq<u32>, next: nat)
    requires SearchInv(g, c, start, d, prev, ps, popped, current, {}) && PopsLeast(d, ps, ps', next)
    requires next !in popped && d[next] != NONE32
    ensures Layered(d, ps', popped + {next}, next)
    ensures |popped + {next}| == |popped| + 1 ==> Bounded(d, popped + {next}, next)
  {
    hide Adj, AllExplained, AllRelaxed, Frontier;
  }

  lemma {:induction false} PopEdges(
    g: Dims, c: seq<u32>, start: nat, d: seq<u32>, prev: seq<u32>, ps: seq<u32>,
    popped: set<nat>, current: nat, ps': seq<u32>, next: nat)
    requires SearchInv(g, c, start, d, prev, ps, popped, current, {}) && PopsLeast(d, ps, ps', next)
    ensures AllExplained(g, c, start, d, prev, popped + {next})
    ensures AllRelaxed(g, c, d, prev, popped + {next}, next, AllNeighbours(g, next))
  {
    hide Adj, Relaxed, Layered, Bounded, Frontier, Less;
    var popped' := popped + {next};
    forall v: nat | v < |d| && d[v] != NONE32 && v != start ensures Explained(g, c, d, prev, popped', v) {
      assert Explained(g, c, d, prev, popped, v);
    }
  }

  /** Popping the least waiting tile keeps the invariant, with all its neighbours to do. */
  lemma PopStep(
    g: Dims, c: seq<u32>, start: nat, d: seq<u32>, prev: seq<u32>, ps: seq<u32>,
    popped: set<nat>, current: nat, ps': seq<u32>, next: nat)
    requires SearchInv(g, c, start, d, prev, ps, popped, current, {}) && PopsLeast(d, ps, ps', next)
    ensures next !in popped
    ensures SearchInv(g, c, start, d, prev, ps', popped + {next}, next, AllNeighbours(g, next))
  {
    hide Adj, AllExplained, AllRelaxed, Layered, Bounded, Frontier;
    PopFrontier(g, c, start, d, prev, ps, popped, current, ps', next);
    PopLayers(g, c, start, d, prev, ps, popped, current, ps', next);
    PopEdges(g, c, start, d, prev, ps, popped, current, ps', next);
  }

  /** Relaxing a neighbour that does not improve keeps the invariant. */
  lemma {:induction false} RelaxKeeps(
    g: Dims, c: seq<u32>, start: nat, d: seq<u32>, prev: seq<u32>, ps: seq<u32>,
    popped: set<nat>, current: nat, todo: set<nat>, v: nat)
    requires SearchInv(g, c, start, d, prev, ps, popped, current, todo)
    requires current in popped && v < |d| && Adj(g, current, v)
    requires c[v] == NONE32 || Relaxed(c, d, prev, current, v)
    ensures SearchInv(g, c, start, d, prev, ps, popped, current, todo - {v})
  {
    hide Adj, Explained, Relaxed, Frontier, Layered, Bounded;
  }

  /** A candidate that wins is never for a popped tile: that is why no tile returns to the
      heap after it was popped. */
  lemma PoppedNeverImproves(
    g: Dims, c: seq<u32>, start: nat, d: seq<u32>, prev: seq<u32>, ps: seq<u32>,
    popped: set<nat>, current: nat, todo: set<nat>, v: nat)
    requires SearchInv(g, c, start, d, prev, ps, popped, current, todo)
    requires current in popped && v < |d| && c[v] != NONE32
    ensures d[current] != NONE32
    ensures v in popped ==> d[v] < Via(c, d, current, v)
    ensures v == start ==> d[v] < Via(c, d, current, v)
    ensures Via(c, d, current, v) <= MAX_STEP_COST * |popped| < NONE32
  {
    hide Adj, Explained, Relaxed, AllExplained, AllRelaxed;
    SubsetOfIndices(popped, |d|);
  }

  /** Recording a better (or equally good, earlier) predecessor keeps the invariant. */
  lemma ImprovedExplained(
    g: Dims, c: seq<u32>, start: nat, d: seq<u32>, prev: seq<u32>, ps: seq<u32>,
    popped: set<nat>, current: nat, todo: set<nat>, v: nat, d': seq<u32>, prev': seq<u32>)
    requires SearchInv(g, c, start, d, prev, ps, popped, current, todo)
    requires current in popped && v < |d| && v !in popped && Adj(g, current, v) && c[v] != NONE32
    requires Via(c, d, current, v) < NONE32
    requires d' == d[v := Via(c, d, current, v)] && prev' == prev[v := current]
    ensures AllExplained(g, c, start, d', prev', popped)
  {
    hide Adj, AllRelaxed, Layered, Bounded;
    forall x: nat | x < |d| && d'[x] != NONE32 && x != start ensures Explained(g, c, d', prev', popped, x) {
      if x != v { assert Explained(g, c, d, prev, popped, x); }
    }
  }

  lemma ImprovedRelaxed(
    g: Dims, c: seq<u32>, start: nat, d: seq<u32>, prev: seq<u32>, ps: seq<u32>,
    popped: set<nat>, current: nat, todo: set<nat>, v: nat, d': seq<u32>, prev': seq<u32>)
    requires SearchInv(g, c, start, d, prev, ps, popped, current, todo)
    requires current in popped && v < |d| && v !in popped && c[v] != NONE32
    requires Via(c, d, current, v) < d[v] || (Via(c, d, current, v) == d[v] && current < prev[v])
    requires d' == d[v := Via(c, d, current, v)] && prev' == prev[v := current]
    ensures AllRelaxed(g, c, d', prev', popped, current, todo - {v})
  {
    hide Adj, AllExplained, Layered, Bounded, Frontier;
    forall u: nat, x: nat | u in popped && u < |d| && x < |d| && Adj(g, u, x) && c[x] != NONE32
      ensures (u == current && x in todo - {v}) || Relaxed(c, d', prev', u, x)
    {
      assert (u == current && x in todo) || Relaxed(c, d, prev, u, x);
    }
  }

  lemma {:induction false} RelaxImproves(
    g: Dims, c: seq<u32>, start: nat, d: seq<u32>, prev: seq<u32>, ps: seq<u32>,
    popped: set<nat>, current: nat, todo: set<nat>, v: nat,
    d': seq<u32>, prev': seq<u32>, ps': seq<u32>)
    requires SearchInv(g, c, start, d, prev, ps, popped, current, todo)
    requires current in popped && v < |d| && Adj(g, current, v) && c[v] != NONE32
    requires Via(c, d, current, v) < d[v] || (Via(c, d, current, v) == d[v] && current < prev[v])
    requires d' == d[v := Via(c, d, current, v)] && prev' == prev[v := current]
    requires |ps'| == |ps| && forall u: nat :: u < |ps| ==> (ps'[u] != NONE32 <==> u == v || ps[u] != NONE32)
    ensures SearchInv(g, c, start, d', prev', ps', popped, current, todo - {v})
  {
    hide Adj;
    PoppedNeverImproves(g, c, start, d, prev, ps, popped, current, todo, v);
    assert v !in popped && v != start;
    assert Frontier(start, d', prev', ps', popped) by { hide AllExplained, AllRelaxed, Layered, Bounded; }
    ImprovedExplained(g, c, start, d, prev, ps, popped, current, todo, v, d', prev');
    ImprovedRelaxed(g, c, start, d, prev, ps, popped, current, todo, v, d', prev');
    assert Layered(d', ps', popped, current) by { hide AllExplained, AllRelaxed; }
    assert Bounded(d', popped, current) by { hide AllExplained, AllRelaxed, Layered; }
  }

  // ----- what the recorded distances and predecessors mean

  /** Every route either ends in a popped tile whose recorded distance does not exceed its
      cost, or is at least as dear as reaching the current tile, or a waiting one. */
  lemma {:induction false} RouteLowerBound(
    g: Dims, c: seq<u32>, start: nat, d: seq<u32>, prev: seq<u32>, ps: seq<u32>,
    popped: set<nat>, current: nat, todo: set<nat>, p: seq<nat>)
    requires SearchInv(g, c, start, d, prev, ps, popped, current, todo) && popped != {}
    requires Route(g, c, start, p)
    ensures || (Last(p) in popped && d[Last(p)] <= RouteCost(c, p))
            || d[current] <= RouteCost(c, p)
    decreases |p|
  {
    hide Adj, AllExplained, Relaxed, Explained;
    if |p| == 1 {
      assert p == [start];
      StartIsNearest(g, c, start, d, prev, ps, popped, current, todo);
    } else {
      RoutePrefix(g, c, start, p);
      var q, v := p[..|p| - 1], Last(p);
      RouteLowerBound(g, c, start, d, prev, ps, popped, current, todo, q);
      assert Passable(c, v);
      var u := Last(q);
      if u in popped && d[u] <= RouteCost(c, q) && u != current {
        RelaxedBound(g, c, start, d, prev, ps, popped, current, todo, u, v);
      }
    }
  }

  lemma StartIsNearest(
    g: Dims, c: seq<u32>, start: nat, d: seq<u32>, prev: seq<u32>, ps: seq<u32>,
    popped: set<nat>, current: nat, todo: set<nat>)
    requires SearchInv(g, c, start, d, prev, ps, popped, current, todo) && popped != {}
    ensures start in popped || d[current] == 0
  {
    hide Adj, AllExplained, AllRelaxed, Explained;
    if start !in popped { assert ps[start] != NONE32; }
  }

  lemma RelaxedBound(
    g: Dims, c: seq<u32>, start: nat, d: seq<u32>, prev: seq<u32>, ps: seq<u32>,
    popped: set<nat>, current: nat, todo: set<nat>, u: nat, v: nat)
    requires SearchInv(g, c, start, d, prev, ps, popped, current, todo)
    requires u in popped && u != current && u < |d| && v < |d| && Adj(g, u, v) && c[v] != NONE32
    ensures d[v] != NONE32 && d[v] <= Via(c, d, u, v)
    ensures v in popped || d[current] <= d[v]
  {
    hide Adj, AllExplained, Explained;
    assert Relaxed(c, d, prev, u, v);
    assert current in popped;
    SubsetOfIndices(popped, |d|);
  }

  /** The chain of recorded predecessors from v back to the start. */
  ghost predicate Chained(start: nat, prev: seq<u32>, v: nat, p: seq<nat>) {
    && p != [] && p[0] == start && Last(p) == v
    && forall k {:trigger p[k]} :: 1 <= k < |p| ==> p[k] != start && p[k] < |prev| && prev[p[k]] == p[k - 1]
  }

  /** p explains the finite distance of v: a route of that cost, each tile reached through
      its recorded predecessor and nearer than v. */
  ghost predicate Traces(
    g: Dims, c: seq<u32>, start: nat, d: seq<u32>, prev: seq<u32>, v: nat, p: seq<nat>)
  {
    && v < |d| && RouteTo(g, c, start, v, p) && RouteCost(c, p) == d[v]
    && Chained(start, prev, v, p) && Distinct(p)
    && forall k :: 0 <= k < |p| ==> p[k] < |d| && (k < |p| - 1 ==> d[p[k]] < d[v])
  }

  lemma {:induction false} TraceExtend(
    g: Dims, c: seq<u32>, start: nat, d: seq<u32>, prev: seq<u32>, u: nat, v: nat, q: seq<nat>)
    requires |c| == |d| == |prev| && u < |d| && v < |d| && v != start
    requires Traces(g, c, start, d, prev, u, q)
    requires Adj(g, u, v) && Passable(c, v) && d[v] == Via(c, d, u, v) && d[u] < d[v] && prev[v] == u
    ensures Traces(g, c, start, d, prev, v, q + [v])
  {
    var p := q + [v];
    RouteExtend(g, c, start, q, v);
    hide Adj, Route, RouteCost, Passable;
    assert Last(p) == v && p[0] == start;
    forall k | 1 <= k < |p| ensures p[k] != start && p[k] < |prev| && prev[p[k]] == p[k - 1] {
      if k < |q| { assert p[k] == q[k]; }
    }
  }

  lemma {:induction false} TraceBack(
    g: Dims, c: seq<u32>, start: nat, d: seq<u32>, prev: seq<u32>, ps: seq<u32>,
    popped: set<nat>, current: nat, todo: set<nat>, v: nat) returns (p: seq<nat>)
    requires SearchInv(g, c, start, d, prev, ps, popped, current, todo) && v < |d| && d[v] != NONE32
    ensures Traces(g, c, start, d, prev, v, p) && |p| <= |d|
    decreases d[v]
  {
    hide Adj, AllRelaxed, AllExplained, Layered, Bounded, Traces;
    if v == start {
      p := [v];
      TraceStart(g, c, start, d, prev);
    } else {
      var u := ExplainedStep(g, c, start, d, prev, ps, popped, current, todo, v);
      var q := TraceBack(g, c, start, d, prev, ps, popped, current, todo, u);
      p := q + [v];
      TraceExtend(g, c, start, d, prev, u, v, q);
    }
    TraceFits(g, c, start, d, prev, v, p);
  }

  lemma TraceStart(g: Dims, c: seq<u32>, start: nat, d: seq<u32>, prev: seq<u32>)
    requires start < |d| == |c| && d[start] == 0
    ensures Traces(g, c, start, d, prev, start, [start])
  {
  }

  lemma TraceFits(g: Dims, c: seq<u32>, start: nat, d: seq<u32>, prev: seq<u32>, v: nat, p: seq<nat>)
    requires Traces(g, c, start, d, prev, v, p)
    ensures |p| <= |d|
  {
    hide Adj, Route;
    PigeonHole(p, |d|);
  }

  lemma ExplainedStep(
    g: Dims, c: seq<u32>, start: nat, d: seq<u32>, prev: seq<u32>, ps: seq<u32>,
    popped: set<nat>, current: nat, todo: set<nat>, v: nat) returns (u: nat)
    requires SearchInv(g, c, start, d, prev, ps, popped, current, todo)
    requires v < |d| && d[v] != NONE32 && v != start
    ensures |c| == |d| == |prev|
    ensures u == prev[v] && u in popped && u < |d| && d[u] != NONE32 && d[u] < d[v]
    ensures Adj(g, u, v) && Passable(c, v) && d[v] == Via(c, d, u, v)
  {
    hide Adj, AllRelaxed, Layered, Bounded;
    assert Explained(g, c, d, prev, popped, v);
    u := prev[v];
  }

  /** The recorded distance of a popped tile is the true least cost. */
  lemma {:induction false} PoppedIsOptimal(
    g: Dims, c: seq<u32>, start: nat, d: seq<u32>, prev: seq<u32>, ps: seq<u32>,
    popped: set<nat>, current: nat, todo: set<nat>, v: nat)
    requires SearchInv(g, c, start, d, prev, ps, popped, current, todo) && v in popped
    ensures v < |d| && IsDistance(g, c, start, v, d[v])
  {
    hide Adj, AllRelaxed, AllExplained;
    var p := TraceBack(g, c, start, d, prev, ps, popped, current, todo, v);
    forall q | RouteTo(g, c, start, v, q) ensures d[v] <= RouteCost(c, q) {
      RouteLowerBound(g, c, start, d, prev, ps, popped, current, todo, q);
    }
  }

  /** A tile strictly nearer than a popped one has been popped itself, at its true distance. */
  lemma NearerIsPopped(
    g: Dims, c: seq<u32>, start: nat, d: seq<u32>, prev: seq<u32>, ps: seq<u32>,
    popped: set<nat>, current: nat, todo: set<nat>, u: nat, k: nat)
    requires SearchInv(g, c, start, d, prev, ps, popped, current, todo) && popped != {}
    requires IsDistance(g, c, start, u, k) && k < d[current]
    ensures u in popped && u < |d| && d[u] == k && u != current
  {
    hide Adj, AllRelaxed, AllExplained;
    var p :| RouteTo(g, c, start, u, p) && RouteCost(c, p) == k;
    RouteLowerBound(g, c, start, d, prev, ps, popped, current, todo, p);
    PoppedIsOptimal(g, c, start, d, prev, ps, popped, current, todo, u);
    DistanceUnique(g, c, start, u, d[u], k);
  }

  /** The recorded predecessor of a popped tile is the canonical one. */
  lemma {:induction false} PredecessorIsCanonical(
    g: Dims, c: seq<u32>, start: nat, d: seq<u32>, prev: seq<u32>, ps: seq<u32>,
    popped: set<nat>, current: nat, todo: set<nat>, v: nat)
    requires SearchInv(g, c, start, d, prev, ps, popped, current, todo) && v in popped && v != start
    ensures v < |d| && CanonicalStep(g, c, start, prev[v], v)
  {
    hide Adj, IsDistance, SearchInv, Tight;
    var u := PredecessorIsTight(g, c, start, d, prev, ps, popped, current, todo, v);
    forall w: nat | Tight(g, c, start, w, v) ensures u <= w {
      TightIsLater(g, c, start, d, prev, ps, popped, current, todo, v, w);
    }
  }

  lemma PredecessorIsTight(
    g: Dims, c: seq<u32>, start: nat, d: seq<u32>, prev: seq<u32>, ps: seq<u32>,
    popped: set<nat>, current: nat, todo: set<nat>, v: nat) returns (u: nat)
    requires SearchInv(g, c, start, d, prev, ps, popped, current, todo) && v in popped && v != start
    ensures v < |d| == |prev| && u == prev[v] && Tight(g, c, start, u, v)
    ensures IsDistance(g, c, start, v, d[v])
  {
    hide Adj, IsDistance, AllExplained, AllRelaxed, Layered, Bounded;
    u := ExplainedStep(g, c, start, d, prev, ps, popped, current, todo, v);
    PoppedIsOptimal(g, c, start, d, prev, ps, popped, current, todo, v);
    PoppedIsOptimal(g, c, start, d, prev, ps, popped, current, todo, u);
    hide Frontier;
    var k: nat := d[u];
    assert IsDistance(g, c, start, u, k) && IsDistance(g, c, start, v, k + c[v]);
  }

  lemma {:induction false} TightIsLater(
    g: Dims, c: seq<u32>, start: nat, d: seq<u32>, prev: seq<u32>, ps: seq<u32>,
    popped: set<nat>, current: nat, todo: set<nat>, v: nat, w: nat)
    requires SearchInv(g, c, start, d, prev, ps, popped, current, todo) && v in popped && v < |d|
    requires IsDistance(g, c, start, v, d[v]) && Tight(g, c, start, w, v)
    ensures prev[v] <= w
  {
    hide Adj, IsDistance, Route, RouteTo, AllExplained;
    var k: nat :| IsDistance(g, c, start, w, k) && IsDistance(g, c, start, v, k + c[v]);
    DistanceUnique(g, c, start, v, d[v], k + c[v]);
    NearerIsPopped(g, c, start, d, prev, ps, popped, current, todo, w, k);
    assert Relaxed(c, d, prev, w, v);
  }

  /** Following recorded predecessors from a popped tile gives the canonical route. */
  lemma {:induction false} ChainIsCanonical(
    g: Dims, c: seq<u32>, start: nat, d: seq<u32>, prev: seq<u32>, ps: seq<u32>,
    popped: set<nat>, current: nat, todo: set<nat>, v: nat, p: seq<nat>)
    requires SearchInv(g, c, start, d, prev, ps, popped, current, todo) && v in popped && Chained(start, prev, v, p)
    requires RouteTo(g, c, start, v, p)
    ensures CanonicalRoute(g, c, start, v, p)
    decreases |p|
  {
    hide Adj, IsDistance, CanonicalStep, Layered, Bounded, AllRelaxed;
    forall k | 1 <= k < |p| ensures p[k] != start && CanonicalStep(g, c, start, p[k - 1], p[k]) {
      ChainIsPopped(g, c, start, d, prev, ps, popped, current, todo, v, p, k);
      PredecessorIsCanonical(g, c, start, d, prev, ps, popped, current, todo, p[k]);
    }
  }

  lemma {:induction false} ChainIsPopped(
    g: Dims, c: seq<u32>, start: nat, d: seq<u32>, prev: seq<u32>, ps: seq<u32>,
    popped: set<nat>, current: nat, todo: set<nat>, v: nat, p: seq<nat>, k: nat)
    requires SearchInv(g, c, start, d, prev, ps, popped, current, todo) && v in popped && Chained(start, prev, v, p) && k < |p|
    ensures p[k] in popped
    decreases |p| - k
  {
    hide Adj, Layered, Bounded, AllRelaxed;
    if k + 1 < |p| {
      ChainIsPopped(g, c, start, d, prev, ps, popped, current, todo, v, p, k + 1);
      assert Explained(g, c, d, prev, popped, p[k + 1]);
    }
  }

  /** When the heap runs dry, whatever was not popped cannot be reached at all. */
  lemma {:induction false} DryHeapReachesAll(
    g: Dims, c: seq<u32>, start: nat, d: seq<u32>, prev: seq<u32>, ps: seq<u32>,
    popped: set<nat>, current: nat, p: seq<nat>)
    requires SearchInv(g, c, start, d, prev, ps, popped, current, {})
    requires forall v: nat :: v < |d| ==> ps[v] == NONE32
    requires Route(g, c, start, p)
    ensures Last(p) in popped
    decreases |p|
  {
    hide Adj, AllExplained, Layered;
    if |p| == 1 {
      assert p == [start];
    } else {
      RoutePrefix(g, c, start, p);
      DryHeapReachesAll(g, c, start, d, prev, ps, popped, current, p[..|p| - 1]);
      var u, v := Last(p[..|p| - 1]), Last(p);
      assert Passable(c, v);
      assert Relaxed(c, d, prev, u, v);
      SubsetOfIndices(popped, |d|);
    }
  }
}
