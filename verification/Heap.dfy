/** The indexed binary min-heap of the road search, keyed by (distance, tile index). */
module Heap {
  import opened Counting
  import opened Grid

  predicate Less(d: seq<u32>, a: nat, b: nat)
    requires a < |d| && b < |d|
  {
    d[a] < d[b] || (d[a] == d[b] && a < b)
  }

  /** The order of the 64-bit keys made of a distance and, below it, an index. */
  lemma LessIsKeyOrder(d: seq<u32>, a: nat, b: nat)
    requires a < |d| && b < |d| && |d| <= MAX_TILES
    ensures Less(d, a, b) <==> 0x1_0000_0000 * d[a] + a < 0x1_0000_0000 * d[b] + b
  {
  }

  function Parent(k: nat): nat
    requires k > 0
  {
    (k - 1) / 2
  }

  /** nodes[..size] holds distinct tiles, positions is its inverse, and every other tile
      has the sentinel position. */
  ghost predicate Shape(ns: seq<u32>, ps: seq<u32>, size: nat) {
    && |ns| == |ps| <= MAX_TILES && size <= |ns|
    && (forall k :: 0 <= k < size ==> ns[k] < |ps| && ps[ns[k]] == k)
    && (forall v :: 0 <= v < |ps| && ps[v] != NONE32 ==> ps[v] < size && ns[ps[v]] == v)
  }

  ghost predicate InBounds(ns: seq<u32>, d: seq<u32>, size: nat) {
    size <= |ns| && forall k :: 0 <= k < size ==> ns[k] < |d|
  }

  ghost predicate AboveOk(ns: seq<u32>, d: seq<u32>, size: nat, k: nat)
    requires InBounds(ns, d, size) && 0 < k < size
  {
    !Less(d, ns[k], ns[Parent(k)])
  }

  ghost predicate Ordered(ns: seq<u32>, d: seq<u32>, size: nat) {
    InBounds(ns, d, size) && forall k :: 0 < k < size ==> AboveOk(ns, d, size, k)
  }

  /** Order holds except perhaps between k and its parent. */
  ghost predicate OrderedButAbove(ns: seq<u32>, d: seq<u32>, size: nat, k: nat) {
    && InBounds(ns, d, size) && k < size
    && (forall j :: 0 < j < size && j != k ==> AboveOk(ns, d, size, j))
    && GrandchildrenOk(ns, d, size, k)
  }

  /** Order holds except perhaps between k and its children. */
  ghost predicate OrderedButBelow(ns: seq<u32>, d: seq<u32>, size: nat, k: nat) {
    && InBounds(ns, d, size) && k < size
    && (forall j :: 0 < j < size && Parent(j) != k ==> AboveOk(ns, d, size, j))
    && GrandchildrenOk(ns, d, size, k)
  }

  ghost predicate GrandchildrenOk(ns: seq<u32>, d: seq<u32>, size: nat, k: nat)
    requires InBounds(ns, d, size) && k < size
  {
    k > 0 ==> forall j :: 0 < j < size && Parent(j) == k ==> !Less(d, ns[j], ns[Parent(k)])
  }

  function Swapped(s: seq<u32>, a: nat, b: nat): seq<u32>
    requires a < |s| && b < |s|
  {
    s[a := s[b]][b := s[a]]
  }

  lemma {:induction false} UpStep(ns: seq<u32>, d: seq<u32>, size: nat, k: nat)
    requires OrderedButAbove(ns, d, size, k) && k > 0
    requires Less(d, ns[k], ns[Parent(k)])
    ensures OrderedButAbove(Swapped(ns, k, Parent(k)), d, size, Parent(k))
  {
    var p := Parent(k);
    var ms := Swapped(ns, k, p);
    assert p > 0 ==> AboveOk(ns, d, size, p);
    forall j | 0 < j < size && j != p ensures AboveOk(ms, d, size, j) {
      if j != k { assert AboveOk(ns, d, size, j); }
    }
    forall j | p > 0 && 0 < j < size && Parent(j) == p ensures !Less(d, ms[j], ms[Parent(p)]) {
      if j != k { assert AboveOk(ns, d, size, j); }
    }
  }

  lemma {:induction false} DownStep(ns: seq<u32>, d: seq<u32>, size: nat, k: nat, c: nat)
    requires OrderedButBelow(ns, d, size, k) && 0 < c < size && Parent(c) == k
    requires Less(d, ns[c], ns[k])
    requires forall j :: 0 < j < size && Parent(j) == k ==> !Less(d, ns[j], ns[c])
    ensures OrderedButBelow(Swapped(ns, k, c), d, size, c)
  {
    var ms := Swapped(ns, k, c);
    assert !Less(d, ns[k], ns[c]);
    hide Less;
    forall j | 0 < j < size && Parent(j) != c ensures AboveOk(ms, d, size, j) {
      if Parent(j) != k { assert AboveOk(ns, d, size, j); }
      assert k > 0 ==> !Less(d, ns[c], ns[Parent(k)]);
    }
    forall j | 0 < j < size && Parent(j) == c ensures !Less(d, ms[j], ms[Parent(c)]) {
      assert AboveOk(ns, d, size, j);
    }
  }

  lemma SwapKeepsShape(ns: seq<u32>, ps: seq<u32>, size: nat, a: nat, b: nat)
    requires Shape(ns, ps, size) && a < size && b < size && a != b
    ensures var ms := Swapped(ns, a, b); Shape(ms, ps[ms[a] := a][ms[b] := b], size)
    ensures var ms := Swapped(ns, a, b);
            forall v :: 0 <= v < |ps| ==> (ps[ms[a] := a][ms[b] := b][v] == NONE32 <==> ps[v] == NONE32)
  {
  }

  /** The root precedes every other entry. */
  lemma {:induction false} RootIsLeast(ns: seq<u32>, d: seq<u32>, size: nat, k: nat)
    requires Ordered(ns, d, size) && k < size
    ensures !Less(d, ns[k], ns[0])
    decreases k
  {
    if k > 0 {
      assert AboveOk(ns, d, size, k);
      RootIsLeast(ns, d, size, Parent(k));
    }
  }

  class IndexedHeap {
    const nodes: array<u32>
    const positions: array<u32>
    const distances: array<u32>
    var size: nat

    ghost predicate Shaped()
      reads this, nodes, positions, distances
    {
      && nodes != positions && nodes != distances && positions != distances
      && nodes.Length == positions.Length == distances.Length
      && Shape(nodes[..], positions[..], size)
    }

    ghost predicate Valid()
      reads this, nodes, positions, distances
    {
      Shaped() && Ordered(nodes[..], distances[..], size)
    }

    /** Is tile v waiting in the heap? */
    ghost predicate Holds(v: nat)
      requires v < positions.Length
      reads positions
    {
      positions[v] != NONE32
    }

    constructor (tileCount: nat)
      requires tileCount <= MAX_TILES
      ensures Valid() && size == 0 && nodes.Length == tileCount
      ensures fresh(nodes) && fresh(positions) && fresh(distances)
      ensures distances[..] == seq(tileCount, _ => NONE32)
      ensures forall v: nat :: v < tileCount ==> !Holds(v)
    {
      nodes := new u32[tileCount](_ => 0);
      positions := new u32[tileCount](_ => NONE32);
      distances := new u32[tileCount](_ => NONE32);
      size := 0;
    }

    /** fd_heap_swap */
    method Swap(left: nat, right: nat)
      requires Shaped() && left < size && right < size && left != right
      modifies nodes, positions
      ensures Shaped() && nodes[..] == Swapped(old(nodes[..]), left, right)
      ensures forall v: nat :: v < positions.Length ==> (Holds(v) <==> old(Holds(v)))
    {
      SwapKeepsShape(nodes[..], positions[..], size, left, right);
      var value := nodes[left];
      nodes[left] := nodes[right];
      nodes[right] := value;
      positions[nodes[left]] := left;
      positions[nodes[right]] := right;
    }

    /** fd_heap_up: restore order after the key at position fell. */
    method Up(position: nat)
      requires Shaped() && OrderedButAbove(nodes[..], distances[..], size, position)
      modifies nodes, positions
      ensures Valid()
      ensures forall v: nat :: v < positions.Length ==> (Holds(v) <==> old(Holds(v)))
    {
      var current: nat := position;
      while current > 0
        invariant Shaped() && OrderedButAbove(nodes[..], distances[..], size, current)
        invariant forall v: nat :: v < positions.Length ==> (Holds(v) <==> old(Holds(v)))
        invariant distances[..] == old(distances[..])
      {
        var parent: nat := (current - 1) / 2;
        if !Less(distances[..], nodes[current], nodes[parent]) {
          break;
        }
        UpStep(nodes[..], distances[..], size, current);
        Swap(current, parent);
        current := parent;
      }
    }

    /** fd_heap_down: restore order after the key at position rose. */
    method Down(position: nat)
      requires Shaped() && OrderedButBelow(nodes[..], distances[..], size, position)
      modifies nodes, positions
      ensures Valid()
      ensures forall v: nat :: v < positions.Length ==> (Holds(v) <==> old(Holds(v)))
    {
      hide Shape, OrderedButBelow, Ordered;
      var current: nat := position;
      while true
        invariant Shaped() && OrderedButBelow(nodes[..], distances[..], size, current)
        invariant forall v: nat :: v < positions.Length ==> (Holds(v) <==> old(Holds(v)))
        invariant distances[..] == old(distances[..])
        decreases size - current
      {
        var smallest := SmallestHere(current);
        if smallest == current {
          break;
        }
        Swap(current, smallest);
        current := smallest;
      }
    }

    /** One round of fd_heap_down: which of a node and its two children comes first? */
    method SmallestHere(current: nat) returns (smallest: nat)
      requires Shaped() && OrderedButBelow(nodes[..], distances[..], size, current)
      ensures smallest == current ==> Ordered(nodes[..], distances[..], size)
      ensures smallest != current ==>
                && current < smallest < size
                && OrderedButBelow(Swapped(nodes[..], current, smallest), distances[..], size, smallest)
    {
      hide OrderedButBelow, Ordered, Swapped;
      var left := current * 2 + 1;
      var right := left + 1;
      smallest := current;
      if left < size && Less(distances[..], nodes[left], nodes[smallest]) {
        smallest := left;
      }
      if right < size && Less(distances[..], nodes[right], nodes[smallest]) {
        smallest := right;
      }
      if smallest == current {
        SettledBelow(nodes[..], distances[..], size, current);
      } else {
        DownStep(nodes[..], distances[..], size, current, smallest);
      }
    }

    /** The new node behind the last one. */
    method Append(node: nat)
      requires Valid() && node < positions.Length && !Holds(node)
      modifies this, nodes, positions
      ensures Shaped() && size == old(size) + 1 && OrderedButAbove(nodes[..], distances[..], size, old(size))
      ensures forall v: nat :: v < positions.Length ==> (Holds(v) <==> v == node || old(Holds(v)))
    {
      assert positions.Length <= MAX_TILES;
      hide Shape, OrderedButAbove, Ordered, Less, Parent;
      RoomForOne(nodes[..], positions[..], size, node);
      InsertKeepsOrder(nodes[..], positions[..], distances[..], size, node);
      var position := size;
      nodes[position] := node;
      positions[node] := position;
      size := size + 1;
      assert nodes[..] == old(nodes[..])[position := node];
      assert positions[..] == old(positions[..])[node := position];
    }

    /** fd_heap_insert */
    method Insert(node: nat)
      requires Valid() && node < positions.Length && !Holds(node)
      modifies this, nodes, positions
      ensures Valid()
      ensures forall v: nat :: v < positions.Length ==> (Holds(v) <==> v == node || old(Holds(v)))
    {
      hide Shape, OrderedButAbove, Ordered;
      Append(node);
      Up(size - 1);
    }

    /** fd_heap_pop: removes the least waiting tile. */
    method Pop() returns (result: nat)
      requires Valid() && size > 0
      modifies this, nodes, positions
      ensures Valid() && size == old(size) - 1
      ensures result < positions.Length && old(Holds(result))
      ensures forall v: nat :: v < positions.Length ==> (Holds(v) <==> old(Holds(v)) && v != result)
      ensures forall v: nat :: v < positions.Length && old(Holds(v)) ==> !Less(old(distances[..]), v, result)
    {
      forall v: nat | v < positions.Length && Holds(v) ensures !Less(distances[..], v, nodes[0]) {
        RootIsLeast(nodes[..], distances[..], size, positions[v]);
      }
      RemoveRootKeepsOrder(nodes[..], positions[..], distances[..], size);
      result := nodes[0];
      size := size - 1;
      positions[result] := NONE32;
      if size > 0 {
        nodes[0] := nodes[size];
        positions[nodes[0]] := 0;
        Down(0);
      }
    }
  }

  /** Changing the key of a tile that is not waiting disturbs nothing. */
  lemma OutsideKey(ns: seq<u32>, ps: seq<u32>, d: seq<u32>, size: nat, v: nat, key: u32)
    requires Shape(ns, ps, size) && Ordered(ns, d, size) && |d| == |ps|
    requires v < |d| && ps[v] == NONE32
    ensures Ordered(ns, d[v := key], size)
  {
    var e := d[v := key];
    forall j | 0 < j < size ensures AboveOk(ns, e, size, j) {
      assert AboveOk(ns, d, size, j);
    }
  }

  /** Lowering the key of a waiting tile can only disturb the order above it. */
  lemma LoweredKey(ns: seq<u32>, ps: seq<u32>, d: seq<u32>, size: nat, v: nat, key: u32)
    requires Shape(ns, ps, size) && Ordered(ns, d, size) && |d| == |ps|
    requires v < |d| && ps[v] != NONE32 && key <= d[v]
    ensures OrderedButAbove(ns, d[v := key], size, ps[v])
  {
    var e, k := d[v := key], ps[v];
    forall j | 0 < j < size && j != k ensures AboveOk(ns, e, size, j) {
      assert AboveOk(ns, d, size, j);
    }
    forall j | k > 0 && 0 < j < size && Parent(j) == k ensures !Less(e, ns[j], ns[Parent(k)]) {
      assert AboveOk(ns, d, size, j) && AboveOk(ns, d, size, k);
    }
  }

  lemma SettledBelow(ns: seq<u32>, d: seq<u32>, size: nat, k: nat)
    requires OrderedButBelow(ns, d, size, k)
    requires 2 * k + 1 < size ==> !Less(d, ns[2 * k + 1], ns[k])
    requires 2 * k + 2 < size ==> !Less(d, ns[2 * k + 2], ns[k])
    ensures Ordered(ns, d, size)
  {
    forall j | 0 < j < size ensures AboveOk(ns, d, size, j) {
      if Parent(j) == k { assert j == 2 * k + 1 || j == 2 * k + 2; }
    }
  }

  /** A tile outside the heap leaves a free slot for it: the waiting tiles are distinct. */
  lemma {:induction false} RoomForOne(ns: seq<u32>, ps: seq<u32>, size: nat, node: nat)
    requires Shape(ns, ps, size) && node < |ps| && ps[node] == NONE32
    ensures size < |ns|
  {
    var p: seq<nat> := seq(size, k requires 0 <= k < size => ns[k]) + [node];
    forall a, b | 0 <= a < b < |p| ensures p[a] != p[b] {
      if b < size { assert ps[ns[a]] == a && ps[ns[b]] == b; } else { assert ps[ns[a]] == a; }
    }
    PigeonHole(p, |ps|);
  }

  lemma InsertKeepsOrder(ns: seq<u32>, ps: seq<u32>, d: seq<u32>, size: nat, node: u32)
    requires Shape(ns, ps, size) && Ordered(ns, d, size) && |d| == |ns|
    requires node < |ps| && ps[node] == NONE32 && size < |ns|
    ensures Shape(ns[size := node], ps[node := size], size + 1)
    ensures OrderedButAbove(ns[size := node], d, size + 1, size)
  {
    var ms, n := ns[size := node], size + 1;
    forall j | 0 < j < size ensures AboveOk(ms, d, n, j) {
      assert AboveOk(ns, d, size, j);
    }
  }

  lemma RemoveRootKeepsOrder(ns: seq<u32>, ps: seq<u32>, d: seq<u32>, size: nat)
    requires Shape(ns, ps, size) && Ordered(ns, d, size) && |d| == |ns| && size >= 1
    ensures var qs := ps[ns[0] := NONE32];
            var ms := ns[0 := ns[size - 1]];
            && (size == 1 ==> Shape(ns, qs, 0) && Ordered(ns, d, 0))
            && (size > 1 ==> Shape(ms, qs[ms[0] := 0], size - 1) && OrderedButBelow(ms, d, size - 1, 0))
  {
    var ms := ns[0 := ns[size - 1]];
    forall j | 0 < j < size - 1 && Parent(j) != 0 ensures AboveOk(ms, d, size - 1, j) {
      assert AboveOk(ns, d, size, j);
    }
  }
}
