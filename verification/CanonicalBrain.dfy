/** Canonical persistence at the level of records: the copying encoder, the streaming writer and the loader. */
module CanonicalBrain {
  import opened FiniteSets
  import opened Options
  import opened SortedInts
  import opened Texts

  datatype Unit<U> = Unit(id: int, fields: U)
  datatype Synapse<D> = Synapse(target: int, kind: string, inhibitory: bool, fields: D)
  datatype Record<D> = Record(source: int, synapse: Synapse<D>)

  /** A registry node: buckets may hold nil entries. */
  datatype Node<U, D> = Node(unit: Unit<U>, buckets: map<int, seq<Option<Synapse<D>>>>)

  // ---------- The edges of a graph, in the order both encoders meet them ----------

  ghost function Present<D>(source: int, list: seq<Option<Synapse<D>>>): seq<Record<D>> {
    if list == [] then []
    else
      var last := list[|list| - 1];
      Present(source, list[..|list| - 1]) + if last.None? then [] else [Record(source, last.value)]
  }

  ghost function BucketsOf<U, D>(n: Node<U, D>, keys: seq<int>): seq<Record<D>> {
    if keys == [] then []
    else
      var last := keys[|keys| - 1];
      BucketsOf(n, keys[..|keys| - 1]) + if last in n.buckets then Present(n.unit.id, n.buckets[last]) else []
  }

  ghost function EdgesOf<U, D>(n: Node<U, D>): seq<Record<D>> {
    BucketsOf(n, SortedKeys(n.buckets.Keys))
  }

  ghost function EdgeList<U, D>(nodes: seq<Node<U, D>>): seq<Record<D>> {
    if nodes == [] then [] else EdgeList(nodes[..|nodes| - 1]) + EdgesOf(nodes[|nodes| - 1])
  }

  // ---------- Sorting by comparisons ----------

  /** The order of records; the payload plays no part. */
  predicate EdgeLess<D>(a: Record<D>, b: Record<D>) {
    if a.source != b.source then a.source < b.source
    else if a.synapse.target != b.synapse.target then a.synapse.target < b.synapse.target
    else if a.synapse.inhibitory != b.synapse.inhibitory then !a.synapse.inhibitory
    else TextLess(a.synapse.kind, b.synapse.kind)
  }

  /** A sort sees only the length and which positions compare less, and may break ties as it likes. */
  type Sorter = (nat, set<(nat, nat)>) -> seq<nat>

  ghost predicate WeakOrder(n: nat, lt: set<(nat, nat)>) {
    && (forall i: nat | i < n :: (i, i) !in lt)
    && (forall i: nat, j: nat, k: nat | i < n && j < n && k < n && (i, j) in lt && (j, k) in lt :: (i, k) in lt)
    && (forall i: nat, j: nat, k: nat | i < n && j < n && k < n && (i, k) in lt :: (i, j) in lt || (j, k) in lt)
  }

  ghost predicate Permutes(p: seq<nat>, n: nat) {
    && |p| == n && (forall i | 0 <= i < n :: p[i] < n)
    && (forall i, j | 0 <= i < j < n :: p[i] != p[j])
  }

  ghost predicate Orders(p: seq<nat>, lt: set<(nat, nat)>) {
    forall i, j | 0 <= i < j < |p| :: (p[j], p[i]) !in lt
  }

  ghost predicate IsSorter(s: Sorter) {
    forall n, lt | WeakOrder(n, lt) :: Permutes(s(n, lt), n) && Orders(s(n, lt), lt)
  }

  function Lesser<D(==)>(xs: seq<Record<D>>): set<(nat, nat)> {
    set i: nat, j: nat | i < |xs| && j < |xs| && EdgeLess(xs[i], xs[j]) :: (i, j)
  }

  lemma LesserIsWeakOrder<D>(xs: seq<Record<D>>)
    ensures WeakOrder(|xs|, Lesser(xs))
  {
    hide EdgeLess;
    forall i: nat | i < |xs| ensures (i, i) !in Lesser(xs) { EdgeOrder(xs[i], xs[i], xs[i]); }
    forall i: nat, j: nat, k: nat | i < |xs| && j < |xs| && k < |xs|
      ensures (i, j) in Lesser(xs) && (j, k) in Lesser(xs) ==> (i, k) in Lesser(xs)
      ensures (i, k) in Lesser(xs) ==> (i, j) in Lesser(xs) || (j, k) in Lesser(xs)
    {
      EdgeOrder(xs[i], xs[j], xs[k]);
    }
  }

  predicate SamePlace<D>(a: Record<D>, b: Record<D>) {
    a.source == b.source && a.synapse.target == b.synapse.target
    && a.synapse.inhibitory == b.synapse.inhibitory && a.synapse.kind == b.synapse.kind
  }

  /** A strict weak order whose ties agree in source, target, polarity and kind. */
  lemma EdgeOrder<D>(a: Record<D>, b: Record<D>, c: Record<D>)
    ensures !EdgeLess(a, a)
    ensures EdgeLess(a, b) && EdgeLess(b, c) ==> EdgeLess(a, c)
    ensures EdgeLess(a, c) ==> EdgeLess(a, b) || EdgeLess(b, c)
    ensures EdgeLess(a, b) || EdgeLess(b, a) <==> !SamePlace(a, b)
    ensures !(EdgeLess(a, b) && EdgeLess(b, a))
  {
    TextOrder(a.synapse.kind, b.synapse.kind, c.synapse.kind);
    TextOrder(a.synapse.kind, b.synapse.kind, a.synapse.kind);
    TextOrder(b.synapse.kind, c.synapse.kind, a.synapse.kind);
    TextOrder(b.synapse.kind, a.synapse.kind, c.synapse.kind);
  }

  function Arranged<T>(p: seq<nat>, xs: seq<T>): (r: seq<T>)
    requires forall i | 0 <= i < |p| :: p[i] < |xs|
    ensures |r| == |p|
  {
    seq(|p|, i requires 0 <= i < |p| => xs[p[i]])
  }

  ghost function Sorted<D>(sorter: Sorter, xs: seq<Record<D>>): (r: seq<Record<D>>)
    requires IsSorter(sorter)
    ensures |r| == |xs|
  {
    LesserIsWeakOrder(xs);
    Arranged(sorter(|xs|, Lesser(xs)), xs)
  }

  ghost predicate Ascending<D>(xs: seq<Record<D>>) {
    forall i, j | 0 <= i < j < |xs| :: !EdgeLess(xs[j], xs[i])
  }

  /** No two records share source, target, polarity and kind. */
  ghost predicate Unique<D>(xs: seq<Record<D>>) {
    forall i, j | 0 <= i < j < |xs| :: !SamePlace(xs[i], xs[j])
  }

  lemma SortedIsAscending<D>(sorter: Sorter, xs: seq<Record<D>>)
    requires IsSorter(sorter)
    ensures Ascending(Sorted(sorter, xs))
  {
    hide EdgeLess;
    LesserIsWeakOrder(xs);
    var p := sorter(|xs|, Lesser(xs));
    assert Permutes(p, |xs|) && Orders(p, Lesser(xs));
  }

  /** Sorting loses and invents nothing. */
  lemma SortedIsPermutation<D>(sorter: Sorter, xs: seq<Record<D>>)
    requires IsSorter(sorter)
    ensures multiset(Sorted(sorter, xs)) == multiset(xs)
  {
    hide Lesser;
    LesserIsWeakOrder(xs);
    var p := sorter(|xs|, Lesser(xs));
    assert Permutes(p, |xs|);
    ArrangedKeeps(p, xs);
  }

  lemma {:induction false} ArrangedKeeps<T>(p: seq<nat>, xs: seq<T>)
    requires Permutes(p, |xs|)
    ensures multiset(Arranged(p, xs)) == multiset(xs)
    decreases |xs|
  {
    if xs != [] {
      var n := |xs| - 1;
      var at := Where(p, n);
      var q := p[..at] + p[at + 1..];
      forall i | 0 <= i < |q| ensures q[i] < n { assert q[i] == p[if i < at then i else i + 1]; }
      ArrangedKeeps(q, xs[..n]);
      assert Arranged(p, xs) == Arranged(p, xs)[..at] + [xs[n]] + Arranged(p, xs)[at + 1..];
      assert Arranged(q, xs[..n]) == Arranged(p, xs)[..at] + Arranged(p, xs)[at + 1..];
      assert xs == xs[..n] + [xs[n]];
    }
  }

  /** A permutation of 0..n+1 reaches n somewhere. */
  lemma Where(p: seq<nat>, n: nat) returns (at: nat)
    requires Permutes(p, n + 1)
    ensures at < |p| && p[at] == n
  {
    if n !in p {
      Pigeonhole(p, n);
      assert false;
    }
    at :| 0 <= at < |p| && p[at] == n;
  }

  lemma {:induction false} Pigeonhole(p: seq<nat>, n: nat)
    requires forall i | 0 <= i < |p| :: p[i] < n
    requires forall i, j | 0 <= i < j < |p| :: p[i] != p[j]
    ensures |p| <= n
    decreases n
  {
    if |p| > 0 {
      if n - 1 in p {
        var at :| 0 <= at < |p| && p[at] == n - 1;
        var q := p[..at] + p[at + 1..];
        forall i | 0 <= i < |q| ensures q[i] < n - 1 { assert q[i] == p[if i < at then i else i + 1]; }
        Pigeonhole(q, n - 1);
      } else {
        forall i | 0 <= i < |p| ensures p[i] < n - 1 { assert p[i] in p; }
        Pigeonhole(p, n - 1);
      }
    }
  }

  /** Records that share their place are the same record. */
  ghost predicate TiesAgree<D>(xs: seq<Record<D>>) {
    forall i, j | 0 <= i < j < |xs| && SamePlace(xs[i], xs[j]) :: xs[i] == xs[j]
  }

  lemma {:induction false} AscendingIsUnique<D>(a: seq<Record<D>>, b: seq<Record<D>>)
    requires Ascending(a) && Ascending(b) && multiset(a) == multiset(b) && TiesAgree(b)
    ensures a == b
    decreases |b|
  {
    hide EdgeLess, SamePlace;
    assert |multiset(a)| == |a| && |multiset(b)| == |b|;
    if b != [] {
      var m := |b| - 1;
      SameGreatest(a, b);
      SameFront(a, b);
      AscendingIsUnique(a[..m], b[..m]);
      assert a == a[..m] + [a[m]] && b == b[..m] + [b[m]];
    }
  }

  lemma SameFront<T>(a: seq<T>, b: seq<T>)
    requires |a| == |b| > 0 && multiset(a) == multiset(b) && a[|a| - 1] == b[|b| - 1]
    ensures multiset(a[..|a| - 1]) == multiset(b[..|b| - 1])
  {
    var m := |a| - 1;
    assert a == a[..m] + [a[m]] && b == b[..m] + [b[m]];
    assert multiset(a[..m]) == multiset(a) - multiset{a[m]};
  }

  lemma SameGreatest<D>(a: seq<Record<D>>, b: seq<Record<D>>)
    requires Ascending(a) && Ascending(b) && multiset(a) == multiset(b) && TiesAgree(b) && |a| == |b| > 0
    ensures a[|a| - 1] == b[|b| - 1]
  {
    hide EdgeLess, SamePlace;
    var m := |b| - 1;
    assert a[m] in multiset(b) && b[m] in multiset(a);
    var i :| 0 <= i <= m && b[i] == a[m];
    var k :| 0 <= k <= m && a[k] == b[m];
    EdgeOrder(a[m], b[m], b[m]);
    EdgeOrder(b[m], b[m], b[m]);
    assert !EdgeLess(b[m], b[i]) && !EdgeLess(a[m], a[k]);
  }

  lemma SortKeeps<D>(sorter: Sorter, xs: seq<Record<D>>)
    requires IsSorter(sorter) && Ascending(xs) && TiesAgree(xs)
    ensures Sorted(sorter, xs) == xs
  {
    hide IsSorter, Sorted, Ascending, TiesAgree;
    SortedIsAscending(sorter, xs);
    SortedIsPermutation(sorter, xs);
    AscendingIsUnique(Sorted(sorter, xs), xs);
  }

  function Swapped(p: seq<nat>, x: nat, y: nat): (q: seq<nat>)
    ensures |q| == |p|
  {
    seq(|p|, k requires 0 <= k < |p| => if p[k] == x then y else if p[k] == y then x else p[k])
  }

  /** The same sort, except that it leaves the tied records x and y of one input the other way round. */
  ghost function Otherwise<D(!new)>(sorter: Sorter, xs: seq<Record<D>>, x: nat, y: nat): Sorter {
    (n: nat, lt: set<(nat, nat)>) =>
      if n == |xs| && lt == Lesser(xs) then Swapped(sorter(n, lt), x, y) else sorter(n, lt)
  }

  lemma OtherwiseSorts<D(!new)>(sorter: Sorter, xs: seq<Record<D>>, x: nat, y: nat)
    requires IsSorter(sorter) && x < |xs| && y < |xs| && SamePlace(xs[x], xs[y])
    ensures IsSorter(Otherwise(sorter, xs, x, y))
  {
    var lt := Lesser(xs);
    var other := Otherwise(sorter, xs, x, y);
    forall n, l | WeakOrder(n, l) ensures Permutes(other(n, l), n) && Orders(other(n, l), l) {
      assert Permutes(sorter(n, l), n) && Orders(sorter(n, l), l);
      if n == |xs| && l == lt {
        SwapKeeps(xs, sorter(n, l), x, y);
      }
    }
  }

  lemma SwapKeeps<D>(xs: seq<Record<D>>, p: seq<nat>, x: nat, y: nat)
    requires Permutes(p, |xs|) && Orders(p, Lesser(xs)) && x < |xs| && y < |xs| && SamePlace(xs[x], xs[y])
    ensures Permutes(Swapped(p, x, y), |xs|) && Orders(Swapped(p, x, y), Lesser(xs))
  {
    hide EdgeLess, SamePlace;
    var q := Swapped(p, x, y);
    forall k | 0 <= k < |p| ensures SamePlace(xs[q[k]], xs[p[k]]) { PlaceIsShared(xs[x], xs[y], xs[p[k]]); }
    forall i, j | 0 <= i < j < |q| ensures (q[j], q[i]) !in Lesser(xs) {
      PlaceDecides(xs[q[j]], xs[p[j]], xs[q[i]], xs[p[i]]);
      assert (p[j], p[i]) !in Lesser(xs);
    }
  }

  lemma PlaceIsShared<D>(a: Record<D>, b: Record<D>, c: Record<D>)
    ensures SamePlace(c, c) && (SamePlace(a, b) ==> SamePlace(b, a))
  {
  }

  lemma PlaceDecides<D>(a: Record<D>, a': Record<D>, b: Record<D>, b': Record<D>)
    requires SamePlace(a, a') && SamePlace(b, b')
    ensures EdgeLess(a, b) == EdgeLess(a', b')
  {
  }

  /** Ordered records survive every way of breaking ties exactly when tied records are equal. */
  lemma EverySortKeepsIff<D(!new)>(sorter: Sorter, xs: seq<Record<D>>)
    requires IsSorter(sorter) && Ascending(xs)
    ensures TiesAgree(xs) <==> forall s: Sorter | IsSorter(s) :: Sorted(s, xs) == xs
  {
    hide IsSorter, EdgeLess, SamePlace, Lesser;
    if TiesAgree(xs) {
      forall s: Sorter | IsSorter(s) ensures Sorted(s, xs) == xs { SortKeeps(s, xs); }
    } else {
      var x, y :| 0 <= x < y < |xs| && SamePlace(xs[x], xs[y]) && xs[x] != xs[y];
      var other := Otherwise(sorter, xs, x, y);
      OtherwiseSorts(sorter, xs, x, y);
      SortedDiffer(sorter, xs, x, y);
      assert IsSorter(other) && IsSorter(sorter);
    }
  }

  lemma SortedDiffer<D(!new)>(sorter: Sorter, xs: seq<Record<D>>, x: nat, y: nat)
    requires IsSorter(sorter) && IsSorter(Otherwise(sorter, xs, x, y))
    requires x < |xs| && y < |xs| && xs[x] != xs[y]
    ensures Sorted(sorter, xs) != Sorted(Otherwise(sorter, xs, x, y), xs)
  {
    hide Lesser;
    LesserIsWeakOrder(xs);
    var p := sorter(|xs|, Lesser(xs));
    assert Permutes(p, |xs|);
    PermutationReaches(p, x);
    var at :| 0 <= at < |p| && p[at] == x;
    assert Sorted(sorter, xs)[at] == xs[x];
    assert Sorted(Otherwise(sorter, xs, x, y), xs)[at] == xs[y];
  }

  lemma PermutationReaches(p: seq<nat>, x: nat)
    requires Permutes(p, |p|) && x < |p|
    ensures x in p
  {
    var top := |p| - 1;
    if x !in p {
      var q := seq(|p|, k requires 0 <= k < |p| => if p[k] == top then x else p[k]);
      forall k | 0 <= k < |p| ensures q[k] < top { assert p[k] in p; }
      forall i, j | 0 <= i < j < |p| ensures q[i] != q[j] { assert p[i] in p && p[j] in p; }
      Pigeonhole(q, top);
      assert false;
    }
  }

  /** Ordered records rise by source, then target, then excitatory before inhibitory, then kind. */
  lemma AscendingReads<D>(xs: seq<Record<D>>, i: nat, j: nat)
    requires Ascending(xs) && i < j < |xs|
    ensures var a, b := xs[i], xs[j];
            && a.source <= b.source
            && (a.source == b.source ==> a.synapse.target <= b.synapse.target)
            && (a.source == b.source && a.synapse.target == b.synapse.target ==>
                  && (a.synapse.inhibitory ==> b.synapse.inhibitory)
                  && (a.synapse.inhibitory == b.synapse.inhibitory ==>
                        a.synapse.kind == b.synapse.kind || TextLess(a.synapse.kind, b.synapse.kind)))
  {
    assert !EdgeLess(xs[j], xs[i]);
    TextOrder(xs[i].synapse.kind, xs[j].synapse.kind, xs[i].synapse.kind);
  }

  /** The edge list holds exactly the synapses found in the buckets, each with the node that holds it. */
  lemma {:induction false} EdgeListHolds<U, D>(nodes: seq<Node<U, D>>, r: Record<D>)
    ensures r in EdgeList(nodes) <==> exists i, k, n :: Holds(nodes, i, k, n, r)
  {
    hide SortedKeys, Holds, BucketsOf;
    if nodes == [] {
      forall i, k, n ensures !Holds(nodes, i, k, n, r) { HoldsMeans(nodes, i, k, n, r); }
    } else {
      var m := |nodes| - 1;
      EdgeListHolds(nodes[..m], r);
      var keys := SortedKeys(nodes[m].buckets.Keys);
      BucketsHold(nodes[m], keys, r);
      forall i, k, n
        ensures Holds(nodes, i, k, n, r) <==>
                Holds(nodes[..m], i, k, n, r) || (i == m && HeldAt(nodes[m], k, n, r))
      {
        HoldsMeans(nodes, i, k, n, r);
        HoldsMeans(nodes[..m], i, k, n, r);
      }
      if k, n :| HeldAt(nodes[m], k, n, r) {
        assert k in keys;
        assert Holds(nodes, m, k, n, r);
      }
      if i, k, n :| Holds(nodes[..m], i, k, n, r) { assert Holds(nodes, i, k, n, r); }
    }
  }

  ghost predicate HeldAt<U, D>(node: Node<U, D>, key: int, n: int, r: Record<D>) {
    key in node.buckets && 0 <= n < |node.buckets[key]| && node.buckets[key][n] == Some(r.synapse) && r.source == node.unit.id
  }

  ghost predicate Holds<U, D>(nodes: seq<Node<U, D>>, i: int, key: int, n: int, r: Record<D>) {
    0 <= i < |nodes| && HeldAt(nodes[i], key, n, r)
  }

  lemma HoldsMeans<U, D>(nodes: seq<Node<U, D>>, i: int, key: int, n: int, r: Record<D>)
    ensures Holds(nodes, i, key, n, r) <==> 0 <= i < |nodes| && HeldAt(nodes[i], key, n, r)
  {
  }

  lemma {:induction false} BucketsHold<U, D>(node: Node<U, D>, keys: seq<int>, r: Record<D>)
    ensures r in BucketsOf(node, keys) <==> exists k, n :: k in keys && HeldAt(node, k, n, r)
  {
    hide HeldAt;
    if keys != [] {
      var m := |keys| - 1;
      BucketsHold(node, keys[..m], r);
      assert forall k :: k in keys <==> k in keys[..m] || k == keys[m];
      BucketHolds(node, keys[m], r);
    }
  }

  lemma BucketHolds<U, D>(node: Node<U, D>, key: int, r: Record<D>)
    ensures (key in node.buckets && r in Present(node.unit.id, node.buckets[key])) <==> exists n :: HeldAt(node, key, n, r)
  {
    if key in node.buckets {
      PresentHolds(node.unit.id, node.buckets[key], r);
      if r in Present(node.unit.id, node.buckets[key]) {
        var n :| 0 <= n < |node.buckets[key]| && node.buckets[key][n] == Some(r.synapse);
        assert HeldAt(node, key, n, r);
      }
    }
  }

  lemma {:induction false} PresentHolds<D>(source: int, list: seq<Option<Synapse<D>>>, r: Record<D>)
    ensures r in Present(source, list) <==>
            r.source == source && exists n :: 0 <= n < |list| && list[n] == Some(r.synapse)
  {
    if list != [] {
      var m := |list| - 1;
      PresentHolds(source, list[..m], r);
      assert list == list[..m] + [list[m]];
    }
  }

  // ---------- The copying encoder ----------

  ghost function Units<U, D>(nodes: seq<Node<U, D>>): (r: seq<Unit<U>>)
    ensures |r| == |nodes|
  {
    seq(|nodes|, i requires 0 <= i < |nodes| => nodes[i].unit)
  }

  lemma PresentStep<D>(source: int, list: seq<Option<Synapse<D>>>, i: nat)
    requires i < |list|
    ensures Present(source, list[..i + 1]) == Present(source, list[..i]) + if list[i].None? then [] else [Record(source, list[i].value)]
  {
    assert list[..i + 1][..i] == list[..i];
  }

  lemma BucketsStep<U, D>(n: Node<U, D>, keys: seq<int>, i: nat)
    requires i < |keys| && keys[i] in n.buckets
    ensures BucketsOf(n, keys[..i + 1]) == BucketsOf(n, keys[..i]) + Present(n.unit.id, n.buckets[keys[i]])
  {
    assert keys[..i + 1][..i] == keys[..i];
  }

  lemma EdgeListStep<U, D>(nodes: seq<Node<U, D>>, i: nat)
    requires i < |nodes|
    ensures EdgeList(nodes[..i + 1]) == EdgeList(nodes[..i]) + EdgesOf(nodes[i])
  {
    assert nodes[..i + 1][..i] == nodes[..i];
  }

  method RecordsOf<U, D>(n: Node<U, D>) returns (edges: seq<Record<D>>)
    ensures edges == EdgesOf(n)
  {
    hide Present, BucketsOf, SortedKeys;
    var keys := SortInts(n.buckets.Keys);
    edges := [];
    NothingPresent<U, D>(n);
    for b := 0 to |keys|
      invariant edges == BucketsOf(n, keys[..b])
    {
      assert keys[b] in keys;
      BucketsStep(n, keys, b);
      ghost var before := edges;
      var list := n.buckets[keys[b]];
      for i := 0 to |list|
        invariant edges == before + Present(n.unit.id, list[..i])
      {
        PresentStep(n.unit.id, list, i);
        if list[i].Some? {
          edges := edges + [Record(n.unit.id, list[i].value)];
        }
      }
      assert list[..|list|] == list;
    }
    assert keys[..|keys|] == keys;
  }

  lemma NothingPresent<U, D>(n: Node<U, D>)
    ensures Present<D>(n.unit.id, []) == [] && BucketsOf(n, []) == []
  {
  }

  /** Records are copied out and then sorted. */
  method MarshalCanonical<U, D(==)>(nodes: seq<Node<U, D>>, sorter: Sorter) returns (units: seq<Unit<U>>, edges: seq<Record<D>>)
    requires IsSorter(sorter)
    ensures units == Units(nodes) && edges == Sorted(sorter, EdgeList(nodes))
  {
    hide EdgesOf, EdgeLess, Lesser;
    units, edges := [], [];
    for i := 0 to |nodes|
      invariant units == Units(nodes[..i]) && edges == EdgeList(nodes[..i])
    {
      EdgeListStep(nodes, i);
      units := units + [nodes[i].unit];
      var more := RecordsOf(nodes[i]);
      edges := edges + more;
    }
    assert nodes[..|nodes|] == nodes;
    LesserIsWeakOrder(edges);
    assert Permutes(sorter(|edges|, Lesser(edges)), |edges|);
    edges := Arranged(sorter(|edges|, Lesser(edges)), edges);
  }

  // ---------- The streaming writer ----------

  /** A pointer to a synapse in place: node, bucket and position. */
  datatype Ref = Ref(node: nat, bucket: int, at: nat)

  predicate Points<U, D>(r: Ref, nodes: seq<Node<U, D>>) {
    && r.node < |nodes| && r.bucket in nodes[r.node].buckets && r.at < |nodes[r.node].buckets[r.bucket]|
    && nodes[r.node].buckets[r.bucket][r.at].Some?
  }

  function Target<U, D>(r: Ref, nodes: seq<Node<U, D>>): Record<D>
    requires Points(r, nodes)
  {
    Record(nodes[r.node].unit.id, nodes[r.node].buckets[r.bucket][r.at].value)
  }

  function Targets<U, D>(refs: seq<Ref>, nodes: seq<Node<U, D>>): (r: seq<Record<D>>)
    requires forall i | 0 <= i < |refs| :: Points(refs[i], nodes)
    ensures |r| == |refs|
  {
    seq(|refs|, i requires 0 <= i < |refs| => Target(refs[i], nodes))
  }

  lemma TargetsStep<U, D>(refs: seq<Ref>, r: Ref, nodes: seq<Node<U, D>>)
    requires Points(r, nodes) && forall i | 0 <= i < |refs| :: Points(refs[i], nodes)
    ensures Targets(refs + [r], nodes) == Targets(refs, nodes) + [Target(r, nodes)]
  {
  }

  method RefsOf<U, D>(nodes: seq<Node<U, D>>, n: nat) returns (refs: seq<Ref>)
    requires n < |nodes|
    ensures (forall i | 0 <= i < |refs| :: Points(refs[i], nodes)) && Targets(refs, nodes) == EdgesOf(nodes[n])
  {
    hide Present, BucketsOf, SortedKeys;
    var keys := SortInts(nodes[n].buckets.Keys);
    refs := [];
    NothingPresent(nodes[n]);
    for b := 0 to |keys|
      invariant forall i | 0 <= i < |refs| :: Points(refs[i], nodes)
      invariant Targets(refs, nodes) == BucketsOf(nodes[n], keys[..b])
    {
      assert keys[b] in keys;
      BucketsStep(nodes[n], keys, b);
      ghost var before := Targets(refs, nodes);
      var list := nodes[n].buckets[keys[b]];
      for i := 0 to |list|
        invariant forall j | 0 <= j < |refs| :: Points(refs[j], nodes)
        invariant Targets(refs, nodes) == before + Present(nodes[n].unit.id, list[..i])
      {
        PresentStep(nodes[n].unit.id, list, i);
        if list[i].Some? {
          TargetsStep(refs, Ref(n, keys[b], i), nodes);
          refs := refs + [Ref(n, keys[b], i)];
        }
      }
      assert list[..|list|] == list;
    }
    assert keys[..|keys|] == keys;
  }

  function LesserRefs<U, D(==)>(refs: seq<Ref>, nodes: seq<Node<U, D>>): set<(nat, nat)>
    requires forall i | 0 <= i < |refs| :: Points(refs[i], nodes)
  {
    set i: nat, j: nat | i < |refs| && j < |refs| && EdgeLess(Target(refs[i], nodes), Target(refs[j], nodes)) :: (i, j)
  }

  /** Only pointers are sorted; records are made one at a time as they are written. */
  method WriteCanonical<U, D(==)>(nodes: seq<Node<U, D>>, sorter: Sorter) returns (units: seq<Unit<U>>, edges: seq<Record<D>>)
    requires IsSorter(sorter)
    ensures units == Units(nodes) && edges == Sorted(sorter, EdgeList(nodes))
  {
    hide EdgeLess, Points, EdgesOf;
    var refs: seq<Ref> := [];
    for i := 0 to |nodes|
      invariant forall j | 0 <= j < |refs| :: Points(refs[j], nodes)
      invariant Targets(refs, nodes) == EdgeList(nodes[..i])
    {
      EdgeListStep(nodes, i);
      var more := RefsOf(nodes, i);
      refs := refs + more;
    }
    assert nodes[..|nodes|] == nodes;
    ghost var list := Targets(refs, nodes);
    LesserIsWeakOrder(list);
    assert LesserRefs(refs, nodes) == Lesser(list);
    var p := sorter(|refs|, LesserRefs(refs, nodes));
    assert Permutes(p, |refs|);
    units, edges := [], [];
    for i := 0 to |nodes|
      invariant units == Units(nodes[..i])
    {
      units := units + [nodes[i].unit];
    }
    for i := 0 to |p|
      invariant |edges| == i && forall j | 0 <= j < i :: edges[j] == list[p[j]]
    {
      edges := edges + [Target(refs[p[i]], nodes)];
    }
  }

  // ---------- The loader ----------

  function Appended<D>(buckets: map<int, seq<Option<Synapse<D>>>>, s: Synapse<D>): map<int, seq<Option<Synapse<D>>>> {
    buckets[s.target := (if s.target in buckets then buckets[s.target] else []) + [Some(s)]]
  }

  /** The buckets that the edges of one source fill, each under the edge's own target. */
  ghost function Grouped<D>(edges: seq<Record<D>>, source: int): map<int, seq<Option<Synapse<D>>>> {
    if edges == [] then map[]
    else
      var last, rest := edges[|edges| - 1], Grouped(edges[..|edges| - 1], source);
      if last.source == source then Appended(rest, last.synapse) else rest
  }

  ghost function UnitIds<U>(units: seq<Unit<U>>): set<int> {
    set u | u in units :: u.id
  }

  /** A later unit record replaces an earlier one with its id. */
  ghost predicate IsLastUnit<U>(u: Unit<U>, units: seq<Unit<U>>) {
    exists i :: 0 <= i < |units| && units[i] == u && forall j | i < j < |units| :: units[j].id != u.id
  }

  ghost function Ids<U, D>(nodes: seq<Node<U, D>>): (r: seq<int>)
    ensures |r| == |nodes|
  {
    seq(|nodes|, i requires 0 <= i < |nodes| => nodes[i].unit.id)
  }

  ghost predicate IsLoaded<U, D>(nodes: seq<Node<U, D>>, units: seq<Unit<U>>, edges: seq<Record<D>>) {
    && Rising(Ids(nodes)) && (forall id :: id in Ids(nodes) <==> id in UnitIds(units))
    && forall i | 0 <= i < |nodes| :: IsLastUnit(nodes[i].unit, units) && nodes[i].buckets == Grouped(edges, nodes[i].unit.id)
  }

  method Register<U, D>(units: seq<Unit<U>>) returns (registry: map<int, Node<U, D>>)
    ensures registry.Keys == UnitIds(units)
    ensures forall id | id in registry :: registry[id].buckets == map[] && registry[id].unit.id == id
    ensures forall id | id in registry :: IsLastUnit(registry[id].unit, units)
  {
    hide IsLastUnit, UnitIds;
    registry := map[];
    NoUnits<U>();
    for i := 0 to |units|
      invariant registry.Keys == UnitIds(units[..i])
      invariant forall id | id in registry :: registry[id].buckets == map[] && registry[id].unit.id == id
      invariant forall id | id in registry :: IsLastUnit(registry[id].unit, units[..i])
    {
      LastUnitStep(units, i);
      registry := registry[units[i].id := Node(units[i], map[])];
    }
    assert units[..|units|] == units;
  }

  lemma NoUnits<U>()
    ensures UnitIds<U>([]) == {}
  {
  }

  method Connect<U, D>(start: map<int, Node<U, D>>, edges: seq<Record<D>>) returns (registry: map<int, Node<U, D>>)
    requires forall id | id in start :: start[id].buckets == map[]
    ensures registry.Keys == start.Keys
    ensures forall id | id in start :: registry[id] == Node(start[id].unit, Grouped(edges, id))
  {
    hide Appended;
    registry := start;
    for i := 0 to |edges|
      invariant registry.Keys == start.Keys
      invariant forall id | id in start :: registry[id] == Node(start[id].unit, Grouped(edges[..i], id))
    {
      assert edges[..i + 1][..i] == edges[..i];
      var e := edges[i];
      if e.source in registry {
        var source := registry[e.source];
        registry := registry[e.source := Node(source.unit, Appended(source.buckets, e.synapse))];
      }
    }
    assert edges[..|edges|] == edges;
  }

  /** Edges of unknown sources are dropped, and nodes come back in order of id. */
  method LoadCanonical<U, D>(units: seq<Unit<U>>, edges: seq<Record<D>>) returns (nodes: seq<Node<U, D>>)
    ensures IsLoaded(nodes, units, edges)
  {
    hide SortedKeys, Grouped, IsLastUnit, UnitIds, Rising;
    var registry: map<int, Node<U, D>> := Register(units);
    registry := Connect(registry, edges);
    var keys := SortInts(registry.Keys);
    SortedKeysRise(registry.Keys);
    nodes := [];
    for i := 0 to |keys|
      invariant |nodes| == i && forall j | 0 <= j < i :: keys[j] in registry && nodes[j] == registry[keys[j]]
    {
      assert keys[i] in keys;
      nodes := nodes + [registry[keys[i]]];
    }
    assert Ids(nodes) == keys;
  }

  lemma LastUnitStep<U>(units: seq<Unit<U>>, i: nat)
    requires i < |units|
    ensures UnitIds(units[..i + 1]) == UnitIds(units[..i]) + {units[i].id}
    ensures IsLastUnit(units[i], units[..i + 1])
    ensures forall u :: IsLastUnit(u, units[..i]) && u.id != units[i].id ==> IsLastUnit(u, units[..i + 1])
  {
    var more := units[..i + 1];
    assert more == units[..i] + [units[i]];
    assert more[i] == units[i];
    forall u | IsLastUnit(u, units[..i]) && u.id != units[i].id ensures IsLastUnit(u, more) {
      var k :| 0 <= k < i && units[..i][k] == u && forall j | k < j < i :: units[..i][j].id != u.id;
      assert more[k] == u;
      forall j | k < j < |more| ensures more[j].id != u.id { if j < i { assert units[..i][j] == more[j]; } }
    }
  }

  // ---------- Load, then encode again ----------

  ghost function Rebuilt<U, D>(units: seq<Unit<U>>, edges: seq<Record<D>>): (r: seq<Node<U, D>>)
    ensures |r| == |units|
  {
    seq(|units|, i requires 0 <= i < |units| => Node(units[i], Grouped(edges, units[i].id)))
  }

  ghost predicate RisingUnits<U>(units: seq<Unit<U>>) {
    forall i, j | 0 <= i < j < |units| :: units[i].id < units[j].id
  }

  ghost predicate KnownSources<U, D>(units: seq<Unit<U>>, edges: seq<Record<D>>) {
    forall i | 0 <= i < |edges| :: edges[i].source in UnitIds(units)
  }

  lemma LoadedIsRebuilt<U, D>(nodes: seq<Node<U, D>>, units: seq<Unit<U>>, edges: seq<Record<D>>)
    requires RisingUnits(units) && IsLoaded(nodes, units, edges)
    ensures nodes == Rebuilt(units, edges)
  {
    hide Grouped;
    var ids := seq(|units|, i requires 0 <= i < |units| => units[i].id);
    forall id ensures id in ids <==> id in UnitIds(units) {
      if id in UnitIds(units) {
        var u :| u in units && u.id == id;
        var i :| 0 <= i < |units| && units[i] == u;
        assert ids[i] == id;
      }
    }
    RisingIsUnique(Ids(nodes), ids);
    forall i | 0 <= i < |nodes| ensures nodes[i].unit == units[i] {
      assert Ids(nodes)[i] == ids[i];
    }
  }

  lemma {:induction false} EdgeListJoin<U, D>(a: seq<Node<U, D>>, b: seq<Node<U, D>>)
    ensures EdgeList(a + b) == EdgeList(a) + EdgeList(b)
  {
    hide EdgesOf;
    if b == [] {
      assert a + b == a;
    } else {
      assert (a + b)[..|a + b| - 1] == a + b[..|b| - 1];
      EdgeListJoin(a, b[..|b| - 1]);
    }
  }

  lemma {:induction false} NoEdges<U, D>(nodes: seq<Node<U, D>>)
    requires forall i | 0 <= i < |nodes| :: nodes[i].buckets == map[]
    ensures EdgeList(nodes) == []
  {
    if nodes != [] { NoEdges(nodes[..|nodes| - 1]); }
  }

  lemma {:induction false} OtherBuckets<U, D>(n: Node<U, D>, m: Node<U, D>, keys: seq<int>)
    requires n.unit == m.unit
    requires forall i | 0 <= i < |keys| :: keys[i] in n.buckets && keys[i] in m.buckets && n.buckets[keys[i]] == m.buckets[keys[i]]
    ensures BucketsOf(n, keys) == BucketsOf(m, keys)
  {
    hide Present;
    if keys != [] { OtherBuckets(n, m, keys[..|keys| - 1]); }
  }

  /** A synapse whose target is greatest becomes the last edge of its node. */
  lemma AppendLast<U, D>(n: Node<U, D>, s: Synapse<D>)
    requires forall t | t in n.buckets :: t <= s.target
    ensures EdgesOf(Node(n.unit, Appended(n.buckets, s))) == EdgesOf(n) + [Record(n.unit.id, s)]
  {
    hide Present, SortedKeys, Distinct;
    var after, t := Node(n.unit, Appended(n.buckets, s)), s.target;
    var front := SortedKeys(n.buckets.Keys - {t});
    assert after.buckets.Keys - {t} == n.buckets.Keys - {t};
    SortedKeysLast(after.buckets.Keys, t);
    forall i | 0 <= i < |front| ensures front[i] in n.buckets && front[i] != t { assert front[i] in front; }
    OtherBuckets(n, after, front);
    assert (front + [t])[..|front|] == front;
    PresentAppend(n.unit.id, if t in n.buckets then n.buckets[t] else [], s);
    if t in n.buckets {
      SortedKeysLast(n.buckets.Keys, t);
    } else {
      assert n.buckets.Keys - {t} == n.buckets.Keys;
    }
  }

  lemma PresentAppend<D>(source: int, list: seq<Option<Synapse<D>>>, s: Synapse<D>)
    ensures Present(source, list + [Some(s)]) == Present(source, list) + [Record(source, s)]
    ensures Present<D>(source, []) == []
  {
    assert (list + [Some(s)])[..|list|] == list;
  }

  lemma {:induction false} GroupedTargets<D>(edges: seq<Record<D>>, source: int, t: int)
    requires t in Grouped(edges, source)
    ensures exists i :: 0 <= i < |edges| && edges[i].source == source && edges[i].synapse.target == t
  {
    if edges != [] {
      var rest, last := edges[..|edges| - 1], edges[|edges| - 1];
      if t in Grouped(rest, source) {
        GroupedTargets(rest, source, t);
        var i :| 0 <= i < |rest| && rest[i].source == source && rest[i].synapse.target == t;
        assert edges[i] == rest[i];
      } else {
        assert edges[|edges| - 1].source == source;
      }
    }
  }

  lemma GroupedNone<D>(edges: seq<Record<D>>, source: int)
    requires forall i | 0 <= i < |edges| :: edges[i].source != source
    ensures Grouped(edges, source) == map[]
  {
    if Grouped(edges, source).Keys != {} {
      var t := Pick(Grouped(edges, source).Keys);
      GroupedTargets(edges, source, t);
    }
  }

  /** Grouping ascending edges by source and target and listing them again restores them. */
  lemma {:induction false} RebuiltLists<U, D>(units: seq<Unit<U>>, edges: seq<Record<D>>)
    requires RisingUnits(units) && Ascending(edges) && KnownSources(units, edges)
    ensures EdgeList(Rebuilt(units, edges)) == edges
  {
    hide EdgesOf, EdgeList, Grouped, EdgeLess;
    if edges == [] {
      NothingGrouped<D>();
      NoEdges(Rebuilt(units, edges));
    } else {
      var rest, e := edges[..|edges| - 1], edges[|edges| - 1];
      assert edges == rest + [e];
      assert edges[|edges| - 1].source in UnitIds(units);
      var k :| 0 <= k < |units| && units[k].id == e.source;
      RebuiltLists(units, rest);
      LastEdge(units, rest, e, k);
    }
  }

  lemma NothingGrouped<D>()
    ensures forall source :: Grouped<D>([], source) == map[]
  {
  }

  /** The greatest edge so far goes to the end of its node, and no later node has any edge yet. */
  lemma LastEdge<U, D>(units: seq<Unit<U>>, rest: seq<Record<D>>, e: Record<D>, k: nat)
    requires RisingUnits(units) && k < |units| && units[k].id == e.source && Ascending(rest + [e])
    ensures EdgeList(Rebuilt(units, rest + [e])) == EdgeList(Rebuilt(units, rest)) + [e]
  {
    hide EdgesOf, EdgeList, Grouped, EdgeLess, Appended;
    var before, after := Rebuilt(units, rest), Rebuilt(units, rest + [e]);
    forall i | 0 <= i < |rest|
      ensures rest[i].source <= e.source && (rest[i].source == e.source ==> rest[i].synapse.target <= e.synapse.target)
    {
      assert (rest + [e])[i] == rest[i] && (rest + [e])[|rest|] == e;
      NotLess(e, rest[i]);
    }
    forall i | 0 <= i < |units| ensures after[i].buckets == if i == k then Appended(before[i].buckets, e.synapse) else before[i].buckets {
      GroupedStep(rest, e, units[i].id);
    }
    forall i | k < i < |units| ensures before[i].buckets == map[] { GroupedNone(rest, units[i].id); }
    forall t | t in before[k].buckets ensures t <= e.synapse.target { GroupedTargets(rest, e.source, t); }
    AppendLast(before[k], e.synapse);
    assert after[k] == Node(before[k].unit, Appended(before[k].buckets, e.synapse));
    SplitAt(before, k);
    SplitAt(after, k);
    assert before[..k] == after[..k];
  }

  lemma NotLess<D>(e: Record<D>, r: Record<D>)
    requires !EdgeLess(e, r)
    ensures r.source <= e.source && (r.source == e.source ==> r.synapse.target <= e.synapse.target)
  {
  }

  lemma GroupedStep<D>(rest: seq<Record<D>>, e: Record<D>, source: int)
    ensures Grouped(rest + [e], source) == if e.source == source then Appended(Grouped(rest, source), e.synapse) else Grouped(rest, source)
  {
    assert (rest + [e])[..|rest|] == rest;
  }

  lemma SplitAt<U, D>(nodes: seq<Node<U, D>>, k: nat)
    requires k < |nodes| && forall i | k < i < |nodes| :: nodes[i].buckets == map[]
    ensures EdgeList(nodes) == EdgeList(nodes[..k]) + EdgesOf(nodes[k])
  {
    hide EdgesOf;
    EdgeListStep(nodes, k);
    EdgeListJoin(nodes[..k + 1], nodes[k + 1..]);
    NoEdges(nodes[k + 1..]);
    assert nodes == nodes[..k + 1] + nodes[k + 1..];
  }

  /** Loading canonical records and encoding them again keeps every unit and edge. The records come back
      unchanged when tied records are equal, as unique records trivially are. */
  method Reload<U, D(==)>(units: seq<Unit<U>>, edges: seq<Record<D>>, sorter: Sorter)
    returns (again: seq<Unit<U>>, edgesAgain: seq<Record<D>>)
    requires IsSorter(sorter) && RisingUnits(units) && Ascending(edges) && KnownSources(units, edges)
    ensures again == units && multiset(edgesAgain) == multiset(edges)
    ensures edgesAgain == Sorted(sorter, edges) && (TiesAgree(edges) || Unique(edges) ==> edgesAgain == edges)
  {
    hide IsSorter, Sorted;
    var nodes: seq<Node<U, D>> := LoadCanonical(units, edges);
    LoadedIsRebuilt(nodes, units, edges);
    RebuiltLists(units, edges);
    again, edgesAgain := WriteCanonical(nodes, sorter);
    SortedIsPermutation(sorter, edges);
    if TiesAgree(edges) || Unique(edges) { SortKeeps(sorter, edges); }
  }

  /** Write, load, write: a whole graph comes back record for record. */
  method RoundTrip<U, D(==)>(nodes: seq<Node<U, D>>, sorter: Sorter)
    returns (first: (seq<Unit<U>>, seq<Record<D>>), second: (seq<Unit<U>>, seq<Record<D>>))
    requires IsSorter(sorter) && RisingUnits(Units(nodes))
    ensures first.0 == second.0 == Units(nodes)
    ensures multiset(first.1) == multiset(second.1) == multiset(EdgeList(nodes)) && Ascending(first.1) && Ascending(second.1)
    ensures TiesAgree(first.1) || Unique(first.1) ==> second.1 == first.1
  {
    hide IsSorter, Sorted, EdgeLess;
    var units, edges := WriteCanonical(nodes, sorter);
    SortedIsAscending(sorter, EdgeList(nodes));
    SortedIsPermutation(sorter, EdgeList(nodes));
    forall i | 0 <= i < |edges| ensures edges[i].source in UnitIds(units) {
      assert edges[i] in multiset(EdgeList(nodes));
      SourceIsUnit(nodes, edges[i]);
    }
    var again, edgesAgain := Reload(units, edges, sorter);
    SortedIsAscending(sorter, edges);
    first, second := (units, edges), (again, edgesAgain);
  }

  lemma {:induction false} SourceIsUnit<U, D>(nodes: seq<Node<U, D>>, r: Record<D>)
    requires r in EdgeList(nodes)
    ensures r.source in UnitIds(Units(nodes))
  {
    hide SortedKeys;
    var last, rest := nodes[|nodes| - 1], nodes[..|nodes| - 1];
    if r in EdgeList(rest) {
      SourceIsUnit(rest, r);
      var u :| u in Units(rest) && u.id == r.source;
      var i :| 0 <= i < |rest| && Units(rest)[i] == u;
      assert Units(nodes)[i] == u;
    } else {
      BucketSource(last, SortedKeys(last.buckets.Keys), r);
      assert Units(nodes)[|nodes| - 1] == last.unit;
    }
  }

  lemma {:induction false} BucketSource<U, D>(n: Node<U, D>, keys: seq<int>, r: Record<D>)
    requires r in BucketsOf(n, keys)
    ensures r.source == n.unit.id
  {
    var last := keys[|keys| - 1];
    if r in BucketsOf(n, keys[..|keys| - 1]) {
      BucketSource(n, keys[..|keys| - 1], r);
    } else {
      PresentSource(n.unit.id, n.buckets[last], r);
    }
  }

  lemma {:induction false} PresentSource<D>(source: int, list: seq<Option<Synapse<D>>>, r: Record<D>)
    requires r in Present(source, list)
    ensures r.source == source
  {
    if r in Present(source, list[..|list| - 1]) { PresentSource(source, list[..|list| - 1], r); }
  }

  // ---------- The error state ----------

  const ERROR_PREFIX := "error_"

  predicate IsErrorKey(key: string) { |key| >= 6 && key[..6] == ERROR_PREFIX }

  lemma ErrorKeys(key: string, name: string)
    ensures IsErrorKey(key) ==> key == ERROR_PREFIX + key[6..]
    ensures IsErrorKey(ERROR_PREFIX + name) && (ERROR_PREFIX + name)[6..] == name
  {
  }

  /** Error keys are the names behind their prefix. */
  lemma ErrorKeyNames(key: string, name: string)
    ensures IsErrorKey("error_" + name)
    ensures IsErrorKey(key) ==> key == "error_" + key[6..]
  {
    ErrorKeys(key, name);
  }

  /** The prediction entries under the prefix, without it. */
  ghost predicate IsErrorState(errors: map<string, real>, prediction: map<string, real>) {
    forall name :: (name in errors <==> ERROR_PREFIX + name in prediction)
                   && (name in errors ==> errors[name] == prediction[ERROR_PREFIX + name])
  }

  /** The entries are visited in any order. */
  method ErrorState(prediction: map<string, real>) returns (errors: map<string, real>)
    ensures IsErrorState(errors, prediction)
  {
    errors := map[];
    var rest := prediction.Keys;
    while rest != {}
      invariant rest <= prediction.Keys
      invariant forall name :: name in errors <==> ERROR_PREFIX + name in prediction.Keys - rest
      invariant forall name | name in errors :: ERROR_PREFIX + name in prediction && errors[name] == prediction[ERROR_PREFIX + name]
      decreases |rest|
    {
      var key :| key in rest;
      ErrorKeys(key, "");
      forall name { ErrorKeys(key, name); }
      if IsErrorKey(key) {
        errors := errors[key[6..] := prediction[key]];
      }
      rest := rest - {key};
    }
  }

  /** Loading overlays the error entries on the prediction state. */
  ghost predicate IsOverlay(merged: map<string, real>, prediction: map<string, real>, errors: map<string, real>) {
    && (forall key :: key in merged <==> key in prediction || (IsErrorKey(key) && key[6..] in errors))
    && forall key | key in merged ::
         merged[key] == if IsErrorKey(key) && key[6..] in errors then errors[key[6..]] else prediction[key]
  }

  method Overlay(prediction: map<string, real>, errors: map<string, real>) returns (merged: map<string, real>)
    ensures IsOverlay(merged, prediction, errors)
  {
    merged := prediction;
    var rest := errors.Keys;
    while rest != {}
      invariant rest <= errors.Keys
      invariant forall key :: key in merged <==> key in prediction || (IsErrorKey(key) && key[6..] in errors.Keys - rest)
      invariant forall key | key in merged ::
                  merged[key] == if IsErrorKey(key) && key[6..] in errors.Keys - rest then errors[key[6..]] else prediction[key]
      decreases |rest|
    {
      var name :| name in rest;
      forall key { ErrorKeys(key, name); }
      merged := merged[ERROR_PREFIX + name := errors[name]];
      rest := rest - {name};
    }
  }

  /** Reloading a written state restores every prediction entry, error entries included. */
  lemma ErrorEntriesSurvive(prediction: map<string, real>, errors: map<string, real>, merged: map<string, real>)
    requires IsErrorState(errors, prediction) && IsOverlay(merged, prediction, errors)
    ensures merged == prediction
  {
    forall key | IsErrorKey(key) ensures key[6..] in errors <==> key in prediction { ErrorKeys(key, ""); }
    forall key | key in merged ensures key in prediction && merged[key] == prediction[key] {
      if IsErrorKey(key) { ErrorKeys(key, ""); }
    }
  }

  // ---------- The schema version ----------

  const MODEL_V1 := "internal-shared-gru-muse-bmps-v1"
  const MODEL_V2 := "internal-shared-gru-muse-bmps-v2"
  const PHYSICAL_MEMORY := "physical-memory-v1"

  /** The version of the cognitive model and the contract of its fourth phase. */
  datatype Model = Model(version: string, phase4: Option<string>)
  datatype Clock = Clock(encoding: string, appliedAt: int)

  function SchemaVersion(clock: Option<Clock>, model: Option<Model>): nat {
    if model.Some? then
      if model.value.version != MODEL_V2 then 4
      else if model.value.phase4.Some? && model.value.phase4.value != "" then 6 else 5
    else if clock.Some? then 3 else 2
  }

  /** Each version says what the brain holds: from 4 on a cognitive model, from 5 on one of the second version,
      6 its fourth phase, and 3 a memory clock without a model. */
  lemma VersionsMean(clock: Option<Clock>, model: Option<Model>)
    ensures var v := SchemaVersion(clock, model);
            && 2 <= v <= 6 && (v >= 4 <==> model.Some?) && (v == 3 <==> model.None? && clock.Some?)
            && (v >= 5 <==> model.Some? && model.value.version == "internal-shared-gru-muse-bmps-v2")
            && (v == 6 <==> v >= 5 && model.value.phase4.Some? && model.value.phase4.value != "")
  {
  }

  /** The loader's rules for a version beside the model and the memory clock. */
  predicate VersionAccepted(version: nat, clock: Option<Clock>, model: Option<Model>) {
    && version <= 6
    && (version >= 4 ==> model.Some?
                         && (version == 4 ==> model.value.version == MODEL_V1)
                         && (version >= 5 ==> model.value.version == MODEL_V2))
    && (clock.None? ==> version != 3)
    && (clock.Some? ==> 3 <= version <= 6 && clock.value.encoding == PHYSICAL_MEMORY && clock.value.appliedAt != 0)
  }

  /** The loader takes every version the writer chooses, exactly when model and clock are themselves valid. */
  lemma WrittenVersionLoads(clock: Option<Clock>, model: Option<Model>)
    ensures VersionAccepted(SchemaVersion(clock, model), clock, model) <==>
            && (model.Some? ==> model.value.version == MODEL_V1 || model.value.version == MODEL_V2)
            && (clock.Some? ==> clock.value.encoding == PHYSICAL_MEMORY && clock.value.appliedAt != 0)
  {
    assert MODEL_V1 != MODEL_V2 by { assert MODEL_V1[|MODEL_V1| - 1] != MODEL_V2[|MODEL_V2| - 1]; }
  }

  /** What each version lets a file hold: no clock below 3, a clock for sure at 3, a first model at 4 and a
      second one at 5 and 6. */
  lemma VersionRules(version: nat, clock: Option<Clock>, model: Option<Model>)
    ensures var timed := clock.Some? && clock.value.encoding == "physical-memory-v1" && clock.value.appliedAt != 0;
            && (version < 3 ==> (VersionAccepted(version, clock, model) <==> clock.None?))
            && (version == 3 ==> (VersionAccepted(version, clock, model) <==> timed))
            && (version == 4 ==> (VersionAccepted(version, clock, model) <==>
                                  (clock.None? || timed) && model.Some? && model.value.version == "internal-shared-gru-muse-bmps-v1"))
            && (version in {5, 6} ==> (VersionAccepted(version, clock, model) <==>
                                       (clock.None? || timed) && model.Some? && model.value.version == "internal-shared-gru-muse-bmps-v2"))
            && (version > 6 ==> !VersionAccepted(version, clock, model))
  {
  }
}
