/** Shortest land roads as mathematics: entry costs, optimal distances, the canonical
    shortest path, and why it has no chord. */
module ShortestRoad {
  import opened Counting
  import opened Grid
  import opened TilePath

  const MAX_STEP_COST := 29

  /** A cost field charges each tile on entry; the sentinel marks impassable tiles. */
  ghost predicate CostField(g: Dims, c: seq<u32>) {
    && |c| == g.Count()
    && forall i :: 0 <= i < |c| ==> c[i] == NONE32 || 1 <= c[i] <= MAX_STEP_COST
  }

  ghost predicate Passable(c: seq<u32>, i: nat) {
    i < |c| && c[i] != NONE32
  }

  /** p walks from start, every later tile passable. */
  ghost predicate Route(g: Dims, c: seq<u32>, start: nat, p: seq<nat>) {
    && p != [] && p[0] == start < |c|
    && Steps(g, p)
    && forall k :: 1 <= k < |p| ==> Passable(c, p[k])
  }

  ghost function RouteCost(c: seq<u32>, p: seq<nat>): nat
    requires forall k :: 1 <= k < |p| ==> Passable(c, p[k])
  {
    if |p| <= 1 then 0
    else
      assert Passable(c, p[|p| - 1]);
      RouteCost(c, p[..|p| - 1]) + c[p[|p| - 1]]
  }

  function Last(p: seq<nat>): nat
    requires p != []
  {
    p[|p| - 1]
  }

  ghost predicate RouteTo(g: Dims, c: seq<u32>, start: nat, v: nat, p: seq<nat>) {
    Route(g, c, start, p) && Last(p) == v
  }

  ghost predicate Reachable(g: Dims, c: seq<u32>, start: nat, v: nat) {
    exists p :: RouteTo(g, c, start, v, p)
  }

  /** k is the least total entry cost of any route from start to v. */
  ghost predicate IsDistance(g: Dims, c: seq<u32>, start: nat, v: nat, k: nat) {
    && (exists p :: RouteTo(g, c, start, v, p) && RouteCost(c, p) == k)
    && (forall p :: RouteTo(g, c, start, v, p) ==> k <= RouteCost(c, p))
  }

  /** No route to the same tile is cheaper. */
  ghost predicate Shortest(g: Dims, c: seq<u32>, start: nat, p: seq<nat>) {
    && Route(g, c, start, p)
    && forall q :: RouteTo(g, c, start, Last(p), q) ==> RouteCost(c, p) <= RouteCost(c, q)
  }

  lemma DistanceUnique(g: Dims, c: seq<u32>, start: nat, v: nat, k: nat, m: nat)
    requires IsDistance(g, c, start, v, k) && IsDistance(g, c, start, v, m)
    ensures k == m
  {
    var p :| RouteTo(g, c, start, v, p) && RouteCost(c, p) == k;
    var q :| RouteTo(g, c, start, v, q) && RouteCost(c, q) == m;
  }

  /** u precedes v on some shortest route. */
  ghost predicate Tight(g: Dims, c: seq<u32>, start: nat, u: nat, v: nat) {
    && Adj(g, u, v) && Passable(c, v)
    && exists k: nat :: IsDistance(g, c, start, u, k) && IsDistance(g, c, start, v, k + c[v])
  }

  /** Of all tiles that precede v on shortest routes, u has the smallest index. */
  ghost predicate CanonicalStep(g: Dims, c: seq<u32>, start: nat, u: nat, v: nat) {
    && Tight(g, c, start, u, v)
    && forall w: nat :: Tight(g, c, start, w, v) ==> u <= w
  }

  ghost predicate CanonicalRoute(g: Dims, c: seq<u32>, start: nat, v: nat, p: seq<nat>) {
    && RouteTo(g, c, start, v, p)
    && forall k {:trigger p[k]} :: 1 <= k < |p| ==> p[k] != start && CanonicalStep(g, c, start, p[k - 1], p[k])
  }

  lemma RouteExtend(g: Dims, c: seq<u32>, start: nat, p: seq<nat>, v: nat)
    requires Route(g, c, start, p) && Adj(g, Last(p), v) && Passable(c, v)
    ensures RouteTo(g, c, start, v, p + [v])
    ensures RouteCost(c, p + [v]) == RouteCost(c, p) + c[v]
  {
    hide Adj;
    var q := p + [v];
    assert q[..|q| - 1] == p;
    forall k | 0 < k < |q| ensures Adj(g, q[k - 1], q[k]) {
      if k < |p| { assert Adj(g, p[k - 1], p[k]); }
    }
  }

  lemma RoutePrefix(g: Dims, c: seq<u32>, start: nat, p: seq<nat>)
    requires Route(g, c, start, p) && |p| > 1
    ensures Route(g, c, start, p[..|p| - 1])
    ensures Adj(g, p[|p| - 2], p[|p| - 1])
    ensures RouteCost(c, p) == RouteCost(c, p[..|p| - 1]) + c[Last(p)]
  {
    hide Adj;
    var q := p[..|p| - 1];
    assert forall k :: 0 <= k < |q| ==> q[k] == p[k];
    var last := |p| - 1;
    assert Adj(g, p[last - 1], p[last]);
    forall k | 0 < k < |q| ensures Adj(g, q[k - 1], q[k]) { assert Adj(g, p[k - 1], p[k]); }
  }

  lemma CanonicalPrefix(g: Dims, c: seq<u32>, start: nat, v: nat, p: seq<nat>)
    requires CanonicalRoute(g, c, start, v, p) && |p| > 1
    ensures CanonicalRoute(g, c, start, p[|p| - 2], p[..|p| - 1])
    ensures v != start && CanonicalStep(g, c, start, p[|p| - 2], v)
  {
    hide Adj, CanonicalStep;
    RoutePrefix(g, c, start, p);
    var q := p[..|p| - 1];
    assert p[|p| - 1] == v;
    forall k | 1 <= k < |q| ensures q[k] != start && CanonicalStep(g, c, start, q[k - 1], q[k]) {
      assert q[k] == p[k] && q[k - 1] == p[k - 1];
    }
  }

  /** The canonical route is a function of the cost field and the two ends. */
  lemma {:induction false} CanonicalRouteUnique(g: Dims, c: seq<u32>, start: nat, v: nat, p: seq<nat>, q: seq<nat>)
    requires CanonicalRoute(g, c, start, v, p) && CanonicalRoute(g, c, start, v, q)
    ensures p == q
    decreases |p|
  {
    hide Adj, Steps, Tight;
    if |p| > 1 { CanonicalPrefix(g, c, start, v, p); }
    if |q| > 1 { CanonicalPrefix(g, c, start, v, q); }
    if |p| > 1 && |q| > 1 {
      assert p[|p| - 2] == q[|q| - 2];
      CanonicalRouteUnique(g, c, start, p[|p| - 2], p[..|p| - 1], q[..|q| - 1]);
      assert p == p[..|p| - 1] + [v] && q == q[..|q| - 1] + [v];
    }
  }

  /** Along a canonical route the true distances grow by the entry cost of each tile. */
  lemma {:induction false} CanonicalDistances(g: Dims, c: seq<u32>, start: nat, v: nat, p: seq<nat>)
    requires CanonicalRoute(g, c, start, v, p)
    ensures IsDistance(g, c, start, v, RouteCost(c, p))
    decreases |p|
  {
    hide Adj, Steps;
    if |p| > 1 {
      CanonicalPrefix(g, c, start, v, p);
      RoutePrefix(g, c, start, p);
      var u := p[|p| - 2];
      CanonicalDistances(g, c, start, u, p[..|p| - 1]);
      var k: nat :| IsDistance(g, c, start, u, k) && IsDistance(g, c, start, v, k + c[v]);
      DistanceUnique(g, c, start, u, k, RouteCost(c, p[..|p| - 1]));
    } else {
      assert p == [start];
      assert RouteCost(c, p) == 0;
    }
  }

  /** No route is cheaper than the canonical one. */
  lemma CanonicalIsLeast(g: Dims, c: seq<u32>, start: nat, v: nat, p: seq<nat>, q: seq<nat>)
    requires CanonicalRoute(g, c, start, v, p) && RouteTo(g, c, start, v, q)
    ensures RouteTo(g, c, start, v, p) && RouteCost(c, p) <= RouteCost(c, q)
  {
    hide Adj, Steps, CanonicalStep;
    CanonicalDistances(g, c, start, v, p);
  }

  /** Whatever can be reached has a least cost. */
  lemma {:induction false} DistanceExists(g: Dims, c: seq<u32>, start: nat, v: nat, p: seq<nat>) returns (k: nat)
    requires RouteTo(g, c, start, v, p)
    ensures IsDistance(g, c, start, v, k)
    decreases RouteCost(c, p)
  {
    hide Adj, Steps;
    if q :| RouteTo(g, c, start, v, q) && RouteCost(c, q) < RouteCost(c, p) {
      k := DistanceExists(g, c, start, v, q);
    } else {
      k := RouteCost(c, p);
    }
  }

  lemma TightExists(g: Dims, c: seq<u32>, start: nat, v: nat, k: nat) returns (u: nat)
    requires IsDistance(g, c, start, v, k) && v != start
    ensures Tight(g, c, start, u, v)
  {
    hide Adj, Steps;
    var q :| RouteTo(g, c, start, v, q) && RouteCost(c, q) == k;
    RoutePrefix(g, c, start, q);
    u := q[|q| - 2];
    var front := q[..|q| - 1];
    forall r | RouteTo(g, c, start, u, r) ensures RouteCost(c, front) <= RouteCost(c, r) {
      RouteExtend(g, c, start, r, v);
    }
    assert IsDistance(g, c, start, u, RouteCost(c, front));
  }

  lemma {:induction false} LeastTight(g: Dims, c: seq<u32>, start: nat, v: nat, u: nat) returns (w: nat)
    requires Tight(g, c, start, u, v)
    ensures CanonicalStep(g, c, start, w, v)
    decreases u
  {
    hide Tight;
    if t: nat :| Tight(g, c, start, t, v) && t < u {
      w := LeastTight(g, c, start, v, t);
    } else {
      w := u;
    }
  }

  /** Every tile that can be reached has a canonical route, hence exactly one. */
  lemma {:induction false} CanonicalRouteExists(g: Dims, c: seq<u32>, start: nat, v: nat, k: nat) returns (p: seq<nat>)
    requires CostField(g, c) && IsDistance(g, c, start, v, k)
    ensures CanonicalRoute(g, c, start, v, p)
    decreases k
  {
    hide *;
    if v == start {
      p := [start];
      AtStart(g, c, start, k);
    } else {
      var u := TightExists(g, c, start, v, k);
      var w := LeastTight(g, c, start, v, u);
      var m := StepBack(g, c, start, w, v, k);
      var q := CanonicalRouteExists(g, c, start, w, m);
      p := q + [v];
      CanonicalExtend(g, c, start, w, v, q);
    }
  }

  lemma AtStart(g: Dims, c: seq<u32>, start: nat, k: nat)
    requires IsDistance(g, c, start, start, k)
    ensures CanonicalRoute(g, c, start, start, [start])
  {
    hide Adj, CanonicalStep;
  }

  lemma StepBack(g: Dims, c: seq<u32>, start: nat, w: nat, v: nat, k: nat) returns (m: nat)
    requires CostField(g, c) && CanonicalStep(g, c, start, w, v) && IsDistance(g, c, start, v, k)
    ensures IsDistance(g, c, start, w, m) && m < k
  {
    hide Adj, IsDistance;
    m :| IsDistance(g, c, start, w, m) && IsDistance(g, c, start, v, m + c[v]);
    DistanceUnique(g, c, start, v, k, m + c[v]);
  }

  lemma StepIsStep(g: Dims, c: seq<u32>, start: nat, w: nat, v: nat)
    requires CanonicalStep(g, c, start, w, v)
    ensures Adj(g, w, v) && Passable(c, v)
  {
    hide Adj, IsDistance;
  }

  lemma CanonicalExtend(g: Dims, c: seq<u32>, start: nat, w: nat, v: nat, q: seq<nat>)
    requires CanonicalRoute(g, c, start, w, q) && CanonicalStep(g, c, start, w, v) && v != start
    ensures CanonicalRoute(g, c, start, v, q + [v])
  {
    hide Adj, Steps, Tight, Route;
    StepIsStep(g, c, start, w, v);
    RouteExtend(g, c, start, q, v);
    var p := q + [v];
    hide CanonicalStep;
    forall k {:trigger p[k]} | 1 <= k < |p| ensures p[k] != start && CanonicalStep(g, c, start, p[k - 1], p[k]) {
      if k < |q| { assert p[k] == q[k] && p[k - 1] == q[k - 1]; }
    }
  }

  /** Every prefix of a shortest route is shortest. */
  lemma {:induction false} ShortestPrefix(g: Dims, c: seq<u32>, start: nat, p: seq<nat>, n: nat)
    requires Shortest(g, c, start, p) && 1 <= n <= |p|
    ensures Shortest(g, c, start, p[..n])
    decreases |p|
  {
    hide Shortest;
    if n < |p| {
      ShortestFront(g, c, start, p);
      ShortestPrefix(g, c, start, p[..|p| - 1], n);
      assert p[..|p| - 1][..n] == p[..n];
    } else {
      assert p[..n] == p;
    }
  }

  lemma ShortestFront(g: Dims, c: seq<u32>, start: nat, p: seq<nat>)
    requires Shortest(g, c, start, p) && |p| > 1
    ensures Shortest(g, c, start, p[..|p| - 1])
  {
    hide Adj, Steps;
    RoutePrefix(g, c, start, p);
    var front := p[..|p| - 1];
    forall r | RouteTo(g, c, start, Last(front), r) ensures RouteCost(c, front) <= RouteCost(c, r) {
      RouteExtend(g, c, start, r, Last(p));
    }
  }

  /** Costs never fall along a route, and rise by at least the entry cost of the last tile. */
  lemma {:induction false} RouteCostGrows(g: Dims, c: seq<u32>, start: nat, p: seq<nat>, a: nat, b: nat)
    requires CostField(g, c) && Route(g, c, start, p) && a < b < |p|
    ensures Route(g, c, start, p[..a + 1]) && Route(g, c, start, p[..b + 1])
    ensures RouteCost(c, p[..a + 1]) + c[p[b]] + (if b == a + 1 then 0 else 1) <= RouteCost(c, p[..b + 1])
    decreases b
  {
    hide Adj;
    RouteTake(g, c, start, p, b + 1);
    RouteTake(g, c, start, p, b);
    RoutePrefix(g, c, start, p[..b + 1]);
    assert p[..b + 1][..b] == p[..b];
    if b > a + 1 {
      RouteCostGrows(g, c, start, p, a, b - 1);
    }
  }

  lemma RouteTake(g: Dims, c: seq<u32>, start: nat, p: seq<nat>, n: nat)
    requires Route(g, c, start, p) && 1 <= n <= |p|
    ensures Route(g, c, start, p[..n])
  {
    hide Adj;
    var q := p[..n];
    forall k | 0 < k < |q| ensures Adj(g, q[k - 1], q[k]) { assert Adj(g, p[k - 1], p[k]); }
  }

  /** A shortest route is an induced path: a chord would be strictly cheaper, because each
      tile skipped would have cost at least one. */
  lemma {:induction false} ShortestIsInduced(g: Dims, c: seq<u32>, start: nat, p: seq<nat>)
    requires CostField(g, c) && Shortest(g, c, start, p)
    ensures Distinct(p) && Chordless(g, p)
  {
    hide Adj, Shortest;
    forall a, b | 0 <= a < b < |p| ensures p[a] != p[b] && (Adj(g, p[a], p[b]) <==> b == a + 1) {
      NoShortcut(g, c, start, p, a, b);
    }
  }

  lemma {:induction false} NoShortcut(g: Dims, c: seq<u32>, start: nat, p: seq<nat>, a: nat, b: nat)
    requires CostField(g, c) && Shortest(g, c, start, p) && a < b < |p|
    ensures p[a] != p[b] && (Adj(g, p[a], p[b]) <==> b == a + 1)
  {
    hide Adj, Steps;
    var pa, pb := p[..a + 1], p[..b + 1];
    ShortestPrefix(g, c, start, p, b + 1);
    RouteCostGrows(g, c, start, p, a, b);
    assert Last(pa) == p[a] && Last(pb) == p[b] && Passable(c, p[b]);
    if Adj(g, p[a], p[b]) {
      RouteExtend(g, c, start, pa, p[b]);
      assert RouteCost(c, pb) <= RouteCost(c, pa + [p[b]]);
    }
    if b == a + 1 { StepAt(g, p, b); }
  }

  /** The canonical route is shortest, hence induced. */
  lemma CanonicalIsInduced(g: Dims, c: seq<u32>, start: nat, v: nat, p: seq<nat>)
    requires CostField(g, c) && CanonicalRoute(g, c, start, v, p)
    ensures Distinct(p) && Chordless(g, p)
  {
    hide Adj, Steps, CanonicalStep;
    CanonicalDistances(g, c, start, v, p);
    ShortestIsInduced(g, c, start, p);
  }

  lemma StepAt(g: Dims, p: seq<nat>, k: nat)
    requires Steps(g, p) && 0 < k < |p|
    ensures Adj(g, p[k - 1], p[k])
  {
    hide Adj;
  }
}
