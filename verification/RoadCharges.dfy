/** What a road is charged: terrain, rivers and tie bits, and what the tie bits decide. */
module RoadCharges {
  import opened Counting
  import opened Grid
  import opened World
  import opened TilePath
  import opened ShortestRoad
  import opened RoadBuilder

  /** The charge of entering a tile: its terrain, twenty more for a river to cross, one more
      for its tie bit.  No road enters water, code 1, or a terrain that is none of the six. */
  lemma EntryCharges(t: Tile, tie: bool)
    ensures RoadCost(t, tie) == NONE32 <==> t.terrain < 2 || t.terrain > 6
    ensures 2 <= t.terrain <= 6 ==>
              RoadCost(t, tie) == [2, 4, 7, 8, 1][t.terrain - 2] + 20 * Bit(t.overlays.river) + Bit(tie)
    ensures 2 <= t.terrain <= 6 ==> RoadCost(t, true) == RoadCost(t, false) + 1
  {
  }

  function NoTies(n: nat): (ties: seq<bool>)
    ensures |ties| == n && forall i :: 0 <= i < n ==> !ties[i]
  {
    seq(n, _ => false)
  }

  /** The tie bits met on the way, the first tile aside. */
  ghost function TieCount(ties: seq<bool>, p: seq<nat>): nat {
    if |p| <= 1 then 0
    else TieCount(ties, p[..|p| - 1]) + (if p[|p| - 1] < |ties| then Bit(ties[p[|p| - 1]]) else 0)
  }

  /** Which routes exist does not depend on the tie bits, and each bit costs one. */
  lemma {:induction false} TiesAreCharged(g: Dims, ts: seq<Tile>, ties: seq<bool>, start: nat, p: seq<nat>)
    requires |ties| == |ts| && Route(g, Costs(ts, ties), start, p)
    ensures Route(g, Costs(ts, NoTies(|ts|)), start, p)
    ensures RouteCost(Costs(ts, ties), p) == RouteCost(Costs(ts, NoTies(|ts|)), p) + TieCount(ties, p)
    decreases |p|
  {
    hide Adj, RoadCost;
    var c, base := Costs(ts, ties), Costs(ts, NoTies(|ts|));
    forall k | 1 <= k < |p| ensures Passable(base, p[k]) {
      assert Passable(c, p[k]);
      EntryCharges(ts[p[k]], ties[p[k]]);
      EntryCharges(ts[p[k]], false);
    }
    if |p| > 1 {
      RoutePrefix(g, c, start, p);
      TiesAreCharged(g, ts, ties, start, p[..|p| - 1]);
      RoutePrefix(g, base, start, p);
      var t := ts[Last(p)];
      assert Passable(c, p[|p| - 1]);
      EntryCharges(t, ties[Last(p)]);
      EntryCharges(t, false);
    }
  }

  /** Between routes whose terrain and rivers cost the same, the tie bits decide: the
      canonical road meets the fewest of them. */
  lemma FewestTies(g: Dims, ts: seq<Tile>, ties: seq<bool>, start: nat, goal: nat, p: seq<nat>, q: seq<nat>)
    requires |ties| == |ts| && CanonicalRoute(g, Costs(ts, ties), start, goal, p)
    requires RouteTo(g, Costs(ts, ties), start, goal, q)
    ensures Route(g, Costs(ts, NoTies(|ts|)), start, p) && Route(g, Costs(ts, NoTies(|ts|)), start, q)
    ensures RouteCost(Costs(ts, NoTies(|ts|)), p) == RouteCost(Costs(ts, NoTies(|ts|)), q) ==>
              TieCount(ties, p) <= TieCount(ties, q)
  {
    hide Adj, RoadCost, CanonicalStep, Costs;
    CanonicalDistances(g, Costs(ts, ties), start, goal, p);
    TiesAreCharged(g, ts, ties, start, p);
    TiesAreCharged(g, ts, ties, start, q);
  }

  // ----- a square of four tiles, where only the tie bits can decide

  const SQUARE := Dims(2, 2)

  lemma SquareNeighbours(i: nat, j: nat)
    ensures Adj(SQUARE, i, j) <==> i < 4 && j < 4 && (j == i + 2 || i == j + 2 || (i / 2 == j / 2 && i != j))
  {
  }

  lemma LastCharge(g: Dims, c: seq<u32>, start: nat, v: nat, p: seq<nat>)
    requires RouteTo(g, c, start, v, p) && v != start
    ensures |p| > 1 && Passable(c, v) && Adj(g, p[|p| - 2], v) && RouteCost(c, p) >= c[v]
    ensures RouteTo(g, c, start, p[|p| - 2], p[..|p| - 1])
    ensures RouteCost(c, p) == RouteCost(c, p[..|p| - 1]) + c[v]
  {
    hide Adj;
    RoutePrefix(g, c, start, p);
    assert Passable(c, p[|p| - 1]);
  }

  lemma TwoStepRoute(g: Dims, c: seq<u32>, a: nat, b: nat, d: nat)
    requires a < |c| && Adj(g, a, b) && Adj(g, b, d) && Passable(c, b) && Passable(c, d)
    ensures RouteTo(g, c, a, b, [a, b]) && RouteCost(c, [a, b]) == c[b]
    ensures RouteTo(g, c, a, d, [a, b, d]) && RouteCost(c, [a, b, d]) == (c[b] as int) + c[d]
  {
    hide Adj;
    assert Route(g, c, a, [a]) && RouteCost(c, [a]) == 0;
    RouteExtend(g, c, a, [a], b);
    assert [a] + [b] == [a, b];
    RouteExtend(g, c, a, [a, b], d);
    assert [a, b] + [d] == [a, b, d];
  }

  lemma SquareDistances(c: seq<u32>)
    requires |c| == 4 && forall i: nat :: i < 4 ==> Passable(c, i)
    ensures IsDistance(SQUARE, c, 0, 0, 0) && IsDistance(SQUARE, c, 0, 1, c[1]) && IsDistance(SQUARE, c, 0, 2, c[2])
    ensures IsDistance(SQUARE, c, 0, 3, Lesser(c[1], c[2]) + c[3])
  {
    hide Adj;
    SquareNeighbours(0, 1);
    SquareNeighbours(0, 2);
    SquareNeighbours(1, 3);
    SquareNeighbours(2, 3);
    TwoStepRoute(SQUARE, c, 0, 1, 3);
    TwoStepRoute(SQUARE, c, 0, 2, 3);
    StandingRoute(SQUARE, c, 0);
    forall v: nat, p | 0 < v < 4 && RouteTo(SQUARE, c, 0, v, p)
      ensures RouteCost(c, p) >= c[v] && (v == 3 ==> RouteCost(c, p) >= Lesser(c[1], c[2]) + c[3])
    {
      LastCharge(SQUARE, c, 0, v, p);
      SquareNeighbours(p[|p| - 2], v);
      if v == 3 { LastCharge(SQUARE, c, 0, p[|p| - 2], p[..|p| - 1]); }
    }
  }

  lemma StandingRoute(g: Dims, c: seq<u32>, start: nat)
    requires start < |c|
    ensures RouteTo(g, c, start, start, [start]) && RouteCost(c, [start]) == 0
  {
  }

  /** Corner to corner over grass, the road turns at tile 1 unless that tile has a tie bit
      and tile 2 has none. */
  lemma TieTurnsRoad(ts: seq<Tile>, ties: seq<bool>, p: seq<nat>)
    requires |ts| == |ties| == 4
    requires forall i :: 0 <= i < 4 ==> ts[i].terrain == GRASSLAND && !ts[i].overlays.river
    requires CanonicalRoute(SQUARE, Costs(ts, ties), 0, 3, p)
    ensures p == [0, if ties[1] && !ties[2] then 2 else 1, 3]
  {
    hide Adj, CanonicalStep, IsDistance, RoadCost;
    var c := Costs(ts, ties);
    forall i | 0 <= i < 4 ensures c[i] == 2 + Bit(ties[i]) { EntryCharges(ts[i], ties[i]); }
    SquareDistances(c);
    var turn := LastTurn(c, p, 3);
    CanonicalPrefix(SQUARE, c, 0, 3, p);
    var q := p[..|p| - 1];
    var first := LastTurn(c, q, turn);
    CanonicalPrefix(SQUARE, c, 0, turn, q);
    AtStart(c, q[..|q| - 1]);
    assert p == q + [3] && q == [0] + [turn];
  }

  lemma AtStart(c: seq<u32>, p: seq<nat>)
    requires CanonicalRoute(SQUARE, c, 0, 0, p)
    ensures p == [0]
  {
    hide Adj, CanonicalStep;
    assert p[|p| - 1] == 0;
  }

  /** The tile before the last of a canonical route on the square. */
  lemma LastTurn(c: seq<u32>, p: seq<nat>, v: nat) returns (u: nat)
    requires |c| == 4 && forall i: nat :: i < 4 ==> Passable(c, i) && c[i] in {2, 3}
    requires 0 < v < 4 && CanonicalRoute(SQUARE, c, 0, v, p)
    ensures |p| > 1 && u == p[|p| - 2]
    ensures u == if v < 3 then 0 else if c[1] <= c[2] then 1 else 2
  {
    hide Adj;
    CanonicalPrefix(SQUARE, c, 0, v, p);
    u := p[|p| - 2];
    assert CanonicalStep(SQUARE, c, 0, u, v);
    SquareDistances(c);
    SquareNeighbours(u, v);
    SquareTight(c, u, v);
    if v == 3 {
      SquareTight(c, 1, 3);
    }
  }

  /** Which tiles precede which on shortest routes over the square. */
  lemma SquareTight(c: seq<u32>, u: nat, v: nat)
    requires |c| == 4 && forall i: nat :: i < 4 ==> Passable(c, i) && c[i] in {2, 3}
    requires 0 < v < 4 && u < 4
    ensures Tight(SQUARE, c, 0, u, v) <==>
              (v < 3 && u == 0) || (v == 3 && ((u == 1 && c[1] <= c[2]) || (u == 2 && c[2] <= c[1])))
  {
    hide Adj, IsDistance;
    SquareDistances(c);
    SquareNeighbours(u, v);
    var far := [0, c[1], c[2], Lesser(c[1], c[2]) + c[3]];
    assert IsDistance(SQUARE, c, 0, u, far[u]) && IsDistance(SQUARE, c, 0, v, far[v]);
    forall k: nat | IsDistance(SQUARE, c, 0, u, k) ensures k == far[u] { DistanceUnique(SQUARE, c, 0, u, k, far[u]); }
    forall k: nat | IsDistance(SQUARE, c, 0, v, k) ensures k == far[v] { DistanceUnique(SQUARE, c, 0, v, k, far[v]); }
  }
}
