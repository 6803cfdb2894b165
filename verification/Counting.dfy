/** Cardinality facts about finite sets of tile indices and duplicate-free sequences. */
module Counting {
  ghost predicate Distinct(p: seq<nat>) {
    forall a, b :: 0 <= a < b < |p| ==> p[a] != p[b]
  }

  ghost predicate Covers(S: set<nat>, p: seq<nat>) {
    forall i :: i in S <==> i in p
  }

  ghost predicate ElementsOf(S: set<nat>, p: seq<nat>) {
    forall k :: 0 <= k < |p| ==> p[k] in S
  }

  lemma {:induction false} DistinctFits(S: set<nat>, p: seq<nat>)
    requires Distinct(p) && ElementsOf(S, p)
    ensures |p| <= |S|
    ensures |p| == |S| ==> Covers(S, p)
  {
    if p != [] {
      var last, q := p[|p| - 1], p[..|p| - 1];
      assert p == q + [last];
      forall k | 0 <= k < |q| ensures q[k] in S - {last} { assert q[k] == p[k]; }
      DistinctFits(S - {last}, q);
      assert last in S;
      forall i | i in S && |p| == |S| ensures i in p {
        if i != last { assert i in S - {last}; }
      }
    }
  }

  lemma {:induction false} CoverSize(S: set<nat>, p: seq<nat>)
    requires Distinct(p) && Covers(S, p)
    ensures |p| == |S|
  {
    if p == [] {
      assert forall i :: i !in S;
      assert S == {};
    } else {
      var last, q := p[|p| - 1], p[..|p| - 1];
      assert p == q + [last];
      assert forall k :: 0 <= k < |q| ==> q[k] == p[k];
      forall i ensures i in S - {last} <==> i in q {
        if i in S - {last} { assert i in p; }
        if i in q { assert i in p; assert i != last; }
      }
      CoverSize(S - {last}, q);
    }
  }

  lemma OnlyElement(N: set<nat>, x: nat)
    requires |N| == 1 && x in N
    ensures N == {x}
  {
    assert |N - {x}| == 0;
    assert N == (N - {x}) + {x};
  }

  lemma SubsetSizes(M: set<nat>, C: set<nat>)
    requires M <= C
    ensures |M| <= |C|
    ensures |M| == |C| ==> M == C
  {
    assert |C - M| == |C| - |M|;
    assert C == M + (C - M);
  }

  lemma {:induction false} SubsetOfIndices(S: set<nat>, n: nat)
    requires forall i :: i in S ==> i < n
    ensures |S| <= n
    decreases n
  {
    if n > 0 {
      SubsetOfIndices(S - {n - 1}, n - 1);
    } else {
      assert S == {};
    }
  }

  function Bit(b: bool): nat { if b then 1 else 0 }

  ghost function Below(S: set<nat>, k: nat): set<nat> {
    set i | i in S && i < k
  }

  lemma BelowStep(S: set<nat>, k: nat)
    ensures |Below(S, k + 1)| == |Below(S, k)| + Bit(k in S)
  {
    if k in S {
      assert Below(S, k + 1) == Below(S, k) + {k};
    } else {
      assert Below(S, k + 1) == Below(S, k);
    }
  }

  lemma BelowNone(S: set<nat>)
    ensures |Below(S, 0)| == 0
  {
  }

  lemma BelowAll(S: set<nat>, k: nat)
    requires forall i :: i in S ==> i < k
    ensures Below(S, k) == S
  {
  }

  /** A duplicate-free list of indices below n has at most n entries. */
  lemma PigeonHole(p: seq<nat>, n: nat)
    requires Distinct(p) && forall k :: 0 <= k < |p| ==> p[k] < n
    ensures |p| <= n
  {
    var S := set i | i in p;
    DistinctFits(S, p);
    SubsetOfIndices(S, n);
  }
}
