/** Simple induced paths through a set of tiles, and how a degree count followed by
    a walk from an end recognises them. */
module TilePath {
  import opened Counting
  import opened Grid

  /** The members of S that touch tile i. */
  ghost function Neighbours(g: Dims, S: set<nat>, i: int): set<nat> {
    set j | j in S && Adj(g, i, j)
  }

  ghost predicate Steps(g: Dims, p: seq<nat>) {
    forall k {:trigger Adj(g, p[k - 1], p[k])} :: 0 < k < |p| ==> Adj(g, p[k - 1], p[k])
  }

  ghost predicate Chordless(g: Dims, p: seq<nat>) {
    forall a, b {:trigger Adj(g, p[a], p[b])} :: 0 <= a < b < |p| ==> (Adj(g, p[a], p[b]) <==> b == a + 1)
  }

  /** p visits every tile of S exactly once, and two tiles of p touch
      exactly when they are consecutive: S is one simple path with no chord, no
      branch and no detached cycle. */
  ghost predicate InducedPath(g: Dims, S: set<nat>, p: seq<nat>) {
    p != [] && Distinct(p) && Covers(S, p) && Chordless(g, p)
  }

  /** Tiles of S with exactly one neighbour in S. */
  ghost function Ends(g: Dims, S: set<nat>): set<nat> {
    set i | i in S && |Neighbours(g, S, i)| == 1
  }

  ghost predicate DegreesOneOrTwo(g: Dims, S: set<nat>) {
    forall i :: i in S ==> 1 <= |Neighbours(g, S, i)| <= 2
  }

  function Reverse(p: seq<nat>): (r: seq<nat>)
    ensures |r| == |p| && forall k :: 0 <= k < |p| ==> r[k] == p[|p| - 1 - k]
  {
    if p == [] then [] else Reverse(p[1..]) + [p[0]]
  }

  lemma {:induction false} ReverseInduced(g: Dims, S: set<nat>, p: seq<nat>)
    requires InducedPath(g, S, p)
    ensures InducedPath(g, S, Reverse(p))
  {
    hide Adj;
    var r, n := Reverse(p), |p|;
    forall i ensures i in S <==> i in r {
      if i in p { var k :| 0 <= k < n && p[k] == i; assert r[n - 1 - k] == i; }
      if i in r { var k :| 0 <= k < n && r[k] == i; assert p[n - 1 - k] == i; }
    }
    forall a, b | 0 <= a < b < n ensures Adj(g, r[a], r[b]) <==> b == a + 1 {
      AdjBasics(g, r[a], r[b]);
      assert r[a] == p[n - 1 - a] && r[b] == p[n - 1 - b];
    }
  }

  /** The tiles just before and just after position k of p. */
  ghost function Around(p: seq<nat>, k: nat): set<nat>
    requires k < |p|
  {
    (if k > 0 then {p[k - 1]} else {}) + (if k + 1 < |p| then {p[k + 1]} else {})
  }

  /** The neighbours of each tile of an induced path are its path neighbours. */
  lemma {:induction false} PathNeighbours(g: Dims, S: set<nat>, p: seq<nat>, k: nat)
    requires InducedPath(g, S, p) && |p| >= 2 && k < |p|
    ensures Neighbours(g, S, p[k]) == Around(p, k)
  {
    hide Adj;
    var want := Around(p, k);
    forall j ensures j in Neighbours(g, S, p[k]) <==> j in want {
      if j in Neighbours(g, S, p[k]) {
        var m :| 0 <= m < |p| && p[m] == j;
        AdjBasics(g, p[k], p[m]);
      }
      if k > 0 && j == p[k - 1] { AdjBasics(g, p[k], p[k - 1]); }
    }
  }

  /** The degree census of an induced path: all degrees one or two, exactly the two
      extremities have degree one. */
  lemma {:induction false} PathDegrees(g: Dims, S: set<nat>, p: seq<nat>)
    requires InducedPath(g, S, p) && |p| >= 2
    ensures DegreesOneOrTwo(g, S)
    ensures Ends(g, S) == {p[0], p[|p| - 1]} && |Ends(g, S)| == 2
  {
    hide Adj;
    forall i | i in S
      ensures 1 <= |Neighbours(g, S, i)| <= 2
      ensures |Neighbours(g, S, i)| == 1 <==> i == p[0] || i == p[|p| - 1]
    {
      var k :| 0 <= k < |p| && p[k] == i;
      PathNeighbours(g, S, p, k);
      if 0 < k < |p| - 1 { assert |{p[k - 1], p[k + 1]}| == 2; }
    }
    assert p[0] != p[|p| - 1];
    assert |{p[0], p[|p| - 1]}| == 2;
  }

  /** The tile before the last one, or the sentinel when there is none. */
  function Behind(p: seq<nat>): nat {
    if |p| >= 2 then p[|p| - 2] else NONE32
  }

  /** What a walk from an end knows so far: distinct tiles of S, each but the last one
      having only its walk neighbours in S. */
  ghost predicate Traced(g: Dims, S: set<nat>, p: seq<nat>) {
    && p != [] && Distinct(p) && ElementsOf(S, p)
    && |Neighbours(g, S, p[0])| == 1
    && forall k {:trigger Around(p, k)} :: 0 <= k < |p| - 1 ==> Neighbours(g, S, p[k]) == Around(p, k)
  }

  ghost function Onward(g: Dims, S: set<nat>, p: seq<nat>): set<nat>
    requires p != []
  {
    Neighbours(g, S, p[|p| - 1]) - {Behind(p)}
  }

  lemma BehindIsNeighbour(g: Dims, S: set<nat>, p: seq<nat>)
    requires Traced(g, S, p) && |p| >= 2
    ensures Behind(p) in Neighbours(g, S, p[|p| - 1])
  {
    hide Adj;
    var n := |p|;
    assert p[n - 1] in Around(p, n - 2);
    AdjBasics(g, p[n - 2], p[n - 1]);
  }

  lemma OnwardNeighbours(g: Dims, S: set<nat>, p: seq<nat>, next: nat)
    requires Traced(g, S, p) && NONE32 !in S && Onward(g, S, p) == {next}
    ensures Neighbours(g, S, p[|p| - 1]) == (if |p| >= 2 then {p[|p| - 2]} else {}) + {next}
  {
    hide Adj;
    var n, N := |p|, Neighbours(g, S, p[|p| - 1]);
    assert next in Onward(g, S, p);
    if n >= 2 {
      BehindIsNeighbour(g, S, p);
      assert N == (N - {p[n - 2]}) + {p[n - 2]};
    } else {
      OnlyElement(N, next);
    }
  }

  /** A walk never comes back to a tile it has visited. */
  lemma {:induction false} NeverRevisits(g: Dims, S: set<nat>, p: seq<nat>, next: int, j: nat)
    requires Traced(g, S, p) && NONE32 !in S && Onward(g, S, p) == {next}
    requires j < |p|
    ensures p[j] != next
  {
    hide Adj;
    var n, cur := |p|, p[|p| - 1];
    assert next in Onward(g, S, p);
    AdjBasics(g, cur, next);
    assert p[j] == next && j < n - 1 ==> cur in Around(p, j);
    assert p[j] == next && j < n - 1 ==> j == n - 2;
  }

  lemma {:induction false} TraceStep(g: Dims, S: set<nat>, p: seq<nat>, next: nat)
    requires Traced(g, S, p) && NONE32 !in S && Onward(g, S, p) == {next}
    ensures Traced(g, S, p + [next])
  {
    hide Adj;
    var n, p' := |p|, p + [next];
    assert next in Onward(g, S, p);
    forall j | 0 <= j < n ensures p[j] != next { NeverRevisits(g, S, p, next, j); }
    OnwardNeighbours(g, S, p, next);
    forall k | 0 <= k < n ensures Neighbours(g, S, p'[k]) == Around(p', k) {
      if k < n - 1 { assert Around(p', k) == Around(p, k); }
    }
  }

  /** When the walk stops after visiting all of S, it has found an induced path. */
  lemma {:induction false} TraceComplete(g: Dims, S: set<nat>, p: seq<nat>)
    requires Traced(g, S, p) && NONE32 !in S
    requires Onward(g, S, p) == {} && |p| == |S|
    ensures InducedPath(g, S, p) && |p| >= 2
  {
    hide Adj;
    DistinctFits(S, p);
    assert Neighbours(g, S, p[0]) - {NONE32} == Neighbours(g, S, p[0]);
    forall a, b | 0 <= a < b < |p| ensures Adj(g, p[a], p[b]) <==> b == a + 1 {
      assert Adj(g, p[a], p[b]) <==> p[b] in Neighbours(g, S, p[a]);
      assert Neighbours(g, S, p[a]) == Around(p, a);
    }
  }

  lemma TracedShorter(g: Dims, S: set<nat>, p: seq<nat>)
    requires Traced(g, S, p) && |p| >= 2 && NONE32 !in S
    ensures Traced(g, S, p[..|p| - 1])
    ensures p[|p| - 1] in Onward(g, S, p[..|p| - 1])
  {
    hide Adj;
    var n, r := |p|, p[..|p| - 1];
    forall k | 0 <= k < |r| - 1 ensures Neighbours(g, S, r[k]) == Around(r, k) {
      assert Around(r, k) == Around(p, k);
    }
    assert p[n - 1] in Around(p, n - 2);
    assert p[n - 1] in S;
    assert Behind(r) == if n > 2 then p[n - 3] else NONE32;
  }

  lemma {:induction false} PrefixOnward(g: Dims, S: set<nat>, p: seq<nat>, q: seq<nat>)
    requires p != [] && p <= q && NONE32 !in S
    requires InducedPath(g, S, q) && |q| >= 2
    ensures Onward(g, S, p) == if |p| == |q| then {} else {q[|p|]}
  {
    hide Adj;
    var n := |p|;
    PathNeighbours(g, S, q, n - 1);
    assert Around(q, n - 1) == (if n > 1 then {p[n - 2]} else {}) + (if n < |q| then {q[n]} else {});
    assert n > 1 ==> q[n - 2] in q;
    if n < |q| { assert q[n] in q; }
  }

  /** A walk from the first tile of an induced path follows that path. */
  lemma {:induction false} TraceFollows(g: Dims, S: set<nat>, p: seq<nat>, q: seq<nat>)
    requires Traced(g, S, p) && NONE32 !in S
    requires InducedPath(g, S, q) && |q| >= 2 && p[0] == q[0]
    ensures p <= q
    ensures Onward(g, S, p) == if |p| == |q| then {} else {q[|p|]}
    decreases |p|
  {
    var n := |p|;
    if n > 1 {
      hide Adj, Neighbours;
      TracedShorter(g, S, p);
      TraceFollows(g, S, p[..n - 1], q);
      assert p == p[..n - 1] + [p[n - 1]];
    }
    PrefixOnward(g, S, p, q);
  }

  /** An induced path is determined by its tiles and its first tile. */
  lemma {:induction false} InducedPathUnique(g: Dims, S: set<nat>, p: seq<nat>, q: seq<nat>)
    requires InducedPath(g, S, p) && InducedPath(g, S, q) && p[0] == q[0]
    requires |p| >= 2 && NONE32 !in S
    ensures p == q
  {
    hide Adj;
    CoverSize(S, p);
    CoverSize(S, q);
    PathNeighbours(g, S, p, 0);
    forall k | 0 <= k < |p| - 1
      ensures Neighbours(g, S, p[k]) == Around(p, k)
    {
      PathNeighbours(g, S, p, k);
    }
    TraceFollows(g, S, p, q);
  }
}
