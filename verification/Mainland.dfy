/** What the coast rule is for: all land is one piece. */
module Mainland {
  import opened Grid
  import opened World
  import opened TilePath
  import opened Invariants

  ghost predicate Land(ts: seq<Tile>, i: nat) { i < |ts| && ts[i].terrain != WATER }

  /** One can walk from i to j over land, from tile to neighbouring tile. */
  ghost predicate Walk(g: Dims, ts: seq<Tile>, i: nat, j: nat, p: seq<nat>) {
    p != [] && p[0] == i && p[|p| - 1] == j && Steps(g, p) && forall k :: 0 <= k < |p| ==> Land(ts, p[k])
  }

  ghost predicate Linked(g: Dims, ts: seq<Tile>, i: nat, j: nat) {
    exists p :: Walk(g, ts, i, j, p)
  }

  lemma LinkSelf(g: Dims, ts: seq<Tile>, i: nat)
    requires Land(ts, i)
    ensures Linked(g, ts, i, i)
  {
    hide Adj;
    assert Walk(g, ts, i, i, [i]);
  }

  lemma LinkStep(g: Dims, ts: seq<Tile>, i: nat, j: nat, k: nat)
    requires Linked(g, ts, i, j) && Adj(g, j, k) && Land(ts, k)
    ensures Linked(g, ts, i, k)
  {
    hide Adj;
    var p :| Walk(g, ts, i, j, p);
    var q := p + [k];
    forall n {:trigger Adj(g, q[n - 1], q[n])} | 0 < n < |q| ensures Adj(g, q[n - 1], q[n]) {
      if n < |p| { assert Adj(g, p[n - 1], p[n]); }
    }
    assert Walk(g, ts, i, k, q);
  }

  lemma {:induction false} LinkAlong(g: Dims, ts: seq<Tile>, i: nat, j: nat, k: nat, p: seq<nat>)
    requires Linked(g, ts, i, j) && Walk(g, ts, j, k, p)
    ensures Linked(g, ts, i, k)
    decreases |p|
  {
    hide Adj, Linked;
    if |p| > 1 {
      var last := |p| - 1;
      WalkFront(g, ts, j, k, p);
      LinkAlong(g, ts, i, j, p[last - 1], p[..last]);
      LinkStep(g, ts, i, p[last - 1], k);
    }
  }

  lemma WalkFront(g: Dims, ts: seq<Tile>, i: nat, j: nat, p: seq<nat>)
    requires Walk(g, ts, i, j, p) && |p| > 1
    ensures Walk(g, ts, i, p[|p| - 2], p[..|p| - 1]) && Adj(g, p[|p| - 2], j) && Land(ts, j) && Land(ts, p[|p| - 2])
  {
    hide Adj;
    var last := |p| - 1;
    var q := p[..last];
    assert Adj(g, p[last - 1], p[last]);
    forall n {:trigger Adj(g, q[n - 1], q[n])} | 0 < n < |q| ensures Adj(g, q[n - 1], q[n]) {
      assert Adj(g, p[n - 1], p[n]);
    }
  }

  lemma LinkTrans(g: Dims, ts: seq<Tile>, i: nat, j: nat, k: nat)
    requires Linked(g, ts, i, j) && Linked(g, ts, j, k)
    ensures Linked(g, ts, i, k)
  {
    hide Walk;
    var p :| Walk(g, ts, j, k, p);
    LinkAlong(g, ts, i, j, k, p);
  }

  lemma {:induction false} LinkBack(g: Dims, ts: seq<Tile>, i: nat, j: nat, p: seq<nat>)
    requires Walk(g, ts, i, j, p)
    ensures Linked(g, ts, j, i)
    decreases |p|
  {
    hide Adj, Linked;
    LinkSelf(g, ts, j);
    if |p| > 1 {
      var last := |p| - 1;
      WalkFront(g, ts, i, j, p);
      AdjBasics(g, p[last - 1], j);
      LinkStep(g, ts, j, j, p[last - 1]);
      LinkBack(g, ts, i, p[last - 1], p[..last]);
      LinkTrans(g, ts, j, p[last - 1], i);
    }
  }

  /** Two land tiles of one row are linked along it. */
  lemma {:induction false} LinkRow(g: Dims, ts: seq<Tile>, y: nat, a: nat, b: nat)
    requires |ts| == g.Count() && y < g.height && a <= b < g.width && RowHasRun(g, ts, y)
    requires LandAt(g, ts, a, y) && LandAt(g, ts, b, y)
    ensures Linked(g, ts, Index(g, a, y), Index(g, b, y))
    decreases b - a
  {
    hide Index, X, Y, Linked;
    IndexCoordinates(g, a, y);
    IndexCoordinates(g, b, y);
    if a == b {
      LinkSelf(g, ts, Index(g, a, y));
    } else {
      var first: nat, last: nat :| LandRun(g, ts, y, first, last);
      IndexCoordinates(g, b - 1, y);
      assert LandAt(g, ts, b - 1, y);
      LinkRow(g, ts, y, a, b - 1);
      LinkStep(g, ts, Index(g, a, y), Index(g, b - 1, y), Index(g, b, y));
    }
  }

  lemma LinkWithinRow(g: Dims, ts: seq<Tile>, y: nat, a: nat, b: nat)
    requires |ts| == g.Count() && y < g.height && a < g.width && b < g.width && RowHasRun(g, ts, y)
    requires LandAt(g, ts, a, y) && LandAt(g, ts, b, y)
    ensures Linked(g, ts, Index(g, a, y), Index(g, b, y))
  {
    hide Index, RowHasRun, LandAt, Walk;
    if a <= b {
      LinkRow(g, ts, y, a, b);
    } else {
      LinkRow(g, ts, y, b, a);
      var p :| Walk(g, ts, Index(g, b, y), Index(g, a, y), p);
      LinkBack(g, ts, Index(g, b, y), Index(g, a, y), p);
    }
  }

  /** Every land tile is linked to every land tile of the top row. */
  lemma {:induction false} LinkToTop(g: Dims, ts: seq<Tile>, x: nat, y: nat, top: nat)
    requires |ts| == g.Count() && CoastOk(g, ts) && x < g.width && y < g.height && top < g.width
    requires LandAt(g, ts, x, y) && LandAt(g, ts, top, 0)
    ensures Linked(g, ts, Index(g, x, y), Index(g, top, 0))
    decreases y
  {
    hide Index, X, Y, Linked, RowHasRun;
    if y == 0 {
      LinkWithinRow(g, ts, 0, x, top);
    } else {
      assert RowOverlap(g, ts, y);
      var z: nat :| z < g.width && LandAt(g, ts, z, y - 1) && LandAt(g, ts, z, y);
      LinkWithinRow(g, ts, y, x, z);
      IndexCoordinates(g, z, y);
      IndexCoordinates(g, z, y - 1);
      LinkStep(g, ts, Index(g, x, y), Index(g, z, y), Index(g, z, y - 1));
      LinkToTop(g, ts, z, y - 1, top);
      LinkTrans(g, ts, Index(g, x, y), Index(g, z, y - 1), Index(g, top, 0));
    }
  }

  /** On a map the coast rule accepts, every land tile can be reached from every other. */
  lemma LandIsConnected(g: Dims, ts: seq<Tile>, i: nat, j: nat)
    requires |ts| == g.Count() && CoastOk(g, ts) && Land(ts, i) && Land(ts, j)
    ensures Linked(g, ts, i, j)
  {
    hide Index, X, Y, Linked, CoastOk;
    CoordinatesIndex(g, i);
    CoordinatesIndex(g, j);
    var top := TopLand(g, ts);
    LinkToTop(g, ts, X(g, i), Y(g, i), top);
    LinkToTop(g, ts, X(g, j), Y(g, j), top);
    BackFrom(g, ts, j, Index(g, top, 0));
    LinkTrans(g, ts, i, Index(g, top, 0), j);
  }

  lemma BackFrom(g: Dims, ts: seq<Tile>, i: nat, j: nat)
    requires Linked(g, ts, i, j)
    ensures Linked(g, ts, j, i)
  {
    hide Walk;
    var p :| Walk(g, ts, i, j, p);
    LinkBack(g, ts, i, j, p);
  }

  lemma TopLand(g: Dims, ts: seq<Tile>) returns (x: nat)
    requires |ts| == g.Count() && CoastOk(g, ts)
    ensures x < g.width && LandAt(g, ts, x, 0)
  {
    hide Index;
    assert RowHasRun(g, ts, 0);
    var first: nat, last: nat :| LandRun(g, ts, 0, first, last);
    x := first;
  }
}
