/** Node statistics: the one-pass accumulation over a snapshot's edges against the per-node walk of the
    whole graph. Both are proved against one definition that mentions neither. */
module SnapshotStats {
  type Kind = string
  const IS_A: Kind := "is_a"
  const HAS: Kind := "has"
  const PART_WHOLE: Kind := "part_whole"

  predicate IsDescriptive(k: Kind) { k == HAS || k == PART_WHOLE }

  datatype Edge = Edge(source: int, target: int, kind: Kind, confidence: real)

  datatype NodeStats = NodeStats(isAIncoming: nat, isAOutgoing: nat, descriptiveIncoming: nat, distinctKinds: nat,
                                 outDegree: nat, inDegree: nat, averageConfidence: real)

  const NO_STATS := NodeStats(0, 0, 0, 0, 0, 0, 0.0)

  // ---------- The statistics of a node, from any listing of the edges ----------

  predicate Leaves(e: Edge, id: int) { e.source == id }

  /** A self-loop leaves its node and does not enter it. */
  predicate Enters(e: Edge, id: int) { e.target == id && e.source != id }

  predicate Touches(e: Edge, id: int) { Leaves(e, id) || Enters(e, id) }

  ghost function Count(es: seq<Edge>, p: Edge -> bool): nat {
    if es == [] then 0 else Count(es[..|es| - 1], p) + if p(es[|es| - 1]) then 1 else 0
  }

  ghost function Confidence(es: seq<Edge>, id: int): real {
    if es == [] then 0.0
    else Confidence(es[..|es| - 1], id) + if Touches(es[|es| - 1], id) then es[|es| - 1].confidence else 0.0
  }

  ghost function Kinds(es: seq<Edge>, id: int): set<Kind> {
    set e | e in es && Touches(e, id) :: e.kind
  }

  ghost function IsASources(es: seq<Edge>, id: int): set<int> {
    set e | e in es && Enters(e, id) && e.kind == IS_A :: e.source
  }

  ghost function DescriptiveSources(es: seq<Edge>, id: int): set<int> {
    set e | e in es && Enters(e, id) && IsDescriptive(e.kind) :: e.source
  }

  function Average(sum: real, count: nat): real {
    if count > 0 then sum / count as real else 0.0
  }

  function Leaving(id: int): Edge -> bool { e => Leaves(e, id) }

  function Entering(id: int): Edge -> bool { e => Enters(e, id) }

  function LeavingAsIsA(id: int): Edge -> bool { e => Leaves(e, id) && e.kind == IS_A }

  ghost function StatsOf(es: seq<Edge>, id: int): NodeStats {
    var out, entering := Count(es, Leaving(id)), Count(es, Entering(id));
    NodeStats(|IsASources(es, id)|, Count(es, LeavingAsIsA(id)), |DescriptiveSources(es, id)|,
              |Kinds(es, id)|, out, entering, Average(Confidence(es, id), out + entering))
  }

  lemma {:induction false} CountJoin(a: seq<Edge>, b: seq<Edge>, p: Edge -> bool)
    ensures Count(a + b, p) == Count(a, p) + Count(b, p)
  {
    if b == [] {
      assert a + b == a;
    } else {
      assert (a + b)[..|a + b| - 1] == a + b[..|b| - 1];
      CountJoin(a, b[..|b| - 1], p);
    }
  }

  lemma {:induction false} ConfidenceJoin(a: seq<Edge>, b: seq<Edge>, id: int)
    ensures Confidence(a + b, id) == Confidence(a, id) + Confidence(b, id)
  {
    if b == [] {
      assert a + b == a;
    } else {
      assert (a + b)[..|a + b| - 1] == a + b[..|b| - 1];
      ConfidenceJoin(a, b[..|b| - 1], id);
    }
  }

  /** The same edge moved to the end. */
  lemma MatchLast(es: seq<Edge>, fs: seq<Edge>) returns (i: nat)
    requires multiset(es) == multiset(fs) && es != []
    ensures i < |fs| && fs[i] == es[|es| - 1]
    ensures multiset(es[..|es| - 1]) == multiset(fs[..i] + fs[i + 1..])
  {
    var last := es[|es| - 1];
    assert last in multiset(es);
    i :| 0 <= i < |fs| && fs[i] == last;
    assert es == es[..|es| - 1] + [last];
    var rest := es[..|es| - 1];
    assert fs == fs[..i] + [last] + fs[i + 1..];
    assert multiset(es) == multiset(rest) + multiset{last};
    assert multiset(fs) == multiset(fs[..i] + fs[i + 1..]) + multiset{last};
    assert multiset(rest) == multiset(es) - multiset{last};
  }

  lemma CountWithout(fs: seq<Edge>, i: nat, p: Edge -> bool)
    requires i < |fs|
    ensures Count(fs, p) == Count(fs[..i] + fs[i + 1..], p) + if p(fs[i]) then 1 else 0
  {
    var head, tail := fs[..i + 1], fs[i + 1..];
    assert head[..i] == fs[..i];
    CountJoin(fs[..i], tail, p);
    CountJoin(head, tail, p);
    assert fs == head + tail;
  }

  lemma ConfidenceWithout(fs: seq<Edge>, i: nat, id: int)
    requires i < |fs|
    ensures Confidence(fs, id) == Confidence(fs[..i] + fs[i + 1..], id) + if Touches(fs[i], id) then fs[i].confidence else 0.0
  {
    hide Touches;
    var head, tail := fs[..i + 1], fs[i + 1..];
    assert head[..i] == fs[..i];
    ConfidenceJoin(fs[..i], tail, id);
    ConfidenceJoin(head, tail, id);
    assert fs == head + tail;
  }

  lemma {:induction false} CountReordered(es: seq<Edge>, fs: seq<Edge>, p: Edge -> bool)
    requires multiset(es) == multiset(fs)
    ensures Count(es, p) == Count(fs, p)
    decreases |es|
  {
    if es == [] {
      assert |fs| == |multiset(fs)| == 0;
    } else {
      var i := MatchLast(es, fs);
      CountReordered(es[..|es| - 1], fs[..i] + fs[i + 1..], p);
      CountWithout(fs, i, p);
    }
  }

  lemma {:induction false} ConfidenceReordered(es: seq<Edge>, fs: seq<Edge>, id: int)
    requires multiset(es) == multiset(fs)
    ensures Confidence(es, id) == Confidence(fs, id)
    decreases |es|
  {
    if es == [] {
      assert |fs| == |multiset(fs)| == 0;
    } else {
      var i := MatchLast(es, fs);
      ConfidenceReordered(es[..|es| - 1], fs[..i] + fs[i + 1..], id);
      ConfidenceWithout(fs, i, id);
    }
  }

  /** The order in which edges are listed does not matter to any statistic. */
  lemma StatsReordered(es: seq<Edge>, fs: seq<Edge>, id: int)
    requires multiset(es) == multiset(fs)
    ensures StatsOf(es, id) == StatsOf(fs, id)
  {
    hide Leaves, Enters, Touches, IsDescriptive, Average;
    forall e ensures e in es <==> e in fs { assert e in multiset(es) <==> e in multiset(fs); }
    CountReordered(es, fs, Leaving(id));
    CountReordered(es, fs, Entering(id));
    CountReordered(es, fs, LeavingAsIsA(id));
    ConfidenceReordered(es, fs, id);
    assert IsASources(es, id) == IsASources(fs, id);
    assert DescriptiveSources(es, id) == DescriptiveSources(fs, id);
    assert Kinds(es, id) == Kinds(fs, id);
  }

  // ---------- The seven statistics, read off the list of edges ----------

  ghost function Where(es: seq<Edge>, p: Edge -> bool): set<int> {
    set i | 0 <= i < |es| && p(es[i])
  }

  lemma {:induction false} CountsPlaces(es: seq<Edge>, p: Edge -> bool)
    ensures Count(es, p) == |Where(es, p)|
  {
    if es != [] {
      var m := |es| - 1;
      CountsPlaces(es[..m], p);
      assert Where(es, p) == Where(es[..m], p) + if p(es[m]) then {m} else {};
    }
  }

  /** Degrees count places in the list; a self-loop leaves and does not enter. */
  lemma DegreesRead(es: seq<Edge>, id: int)
    ensures StatsOf(es, id).outDegree == |set i | 0 <= i < |es| && es[i].source == id|
    ensures StatsOf(es, id).inDegree == |set i | 0 <= i < |es| && es[i].target == id && es[i].source != id|
    ensures StatsOf(es, id).isAOutgoing == |set i | 0 <= i < |es| && es[i].source == id && es[i].kind == "is_a"|
  {
    hide Count, Confidence, Kinds, IsASources, DescriptiveSources, Average;
    CountsPlaces(es, Leaving(id));
    CountsPlaces(es, Entering(id));
    CountsPlaces(es, LeavingAsIsA(id));
    assert Where(es, Leaving(id)) == set i | 0 <= i < |es| && es[i].source == id;
    assert Where(es, Entering(id)) == set i | 0 <= i < |es| && es[i].target == id && es[i].source != id;
    assert Where(es, LeavingAsIsA(id)) == set i | 0 <= i < |es| && es[i].source == id && es[i].kind == "is_a";
  }

  /** Relations that enter count once for each source, kinds once for each name. */
  lemma SourcesRead(es: seq<Edge>, id: int)
    ensures StatsOf(es, id).isAIncoming == |set e | e in es && e.target == id && e.source != id && e.kind == "is_a" :: e.source|
    ensures StatsOf(es, id).descriptiveIncoming ==
            |set e | e in es && e.target == id && e.source != id && (e.kind == "has" || e.kind == "part_whole") :: e.source|
    ensures StatsOf(es, id).distinctKinds == |set e | e in es && (e.source == id || e.target == id) :: e.kind|
  {
    hide Count, Confidence, Average;
    assert IsASources(es, id) == set e | e in es && e.target == id && e.source != id && e.kind == "is_a" :: e.source;
    assert DescriptiveSources(es, id) ==
           set e | e in es && e.target == id && e.source != id && (e.kind == "has" || e.kind == "part_whole") :: e.source;
    assert Kinds(es, id) == set e | e in es && (e.source == id || e.target == id) :: e.kind;
  }

  /** The average confidence shares out the sum over both degrees. */
  lemma AverageRead(es: seq<Edge>, id: int)
    ensures var r := StatsOf(es, id);
            && (r.outDegree + r.inDegree > 0 ==> r.averageConfidence * (r.outDegree + r.inDegree) as real == Confidence(es, id))
            && (r.outDegree + r.inDegree == 0 ==> r.averageConfidence == 0.0)
  {
    hide Count, Confidence, Average, Kinds, IsASources, DescriptiveSources, Leaving, Entering, LeavingAsIsA;
    SharedOut(Confidence(es, id), Count(es, Leaving(id)) + Count(es, Entering(id)));
  }

  lemma SharedOut(sum: real, count: nat)
    ensures count > 0 ==> Average(sum, count) * count as real == sum
    ensures count == 0 ==> Average(sum, count) == 0.0
  {
  }

  /** An edge adds its confidence once to each of its ends. */
  lemma ConfidenceAdds(es: seq<Edge>, e: Edge, id: int)
    ensures Confidence(es + [e], id) == Confidence(es, id) + if e.source == id || e.target == id then e.confidence else 0.0
    ensures Confidence([], id) == 0.0
  {
    CountsStep(es, e, id);
  }

  // ---------- Accumulators ----------

  /** The counters of one node, with the seen-sets that keep distinct counts. */
  datatype Accum = Accum(isAIncoming: nat, isAOutgoing: nat, descriptiveIncoming: nat, outDegree: nat, inDegree: nat,
                         kinds: set<Kind>, fromIsA: set<int>, fromDescriptive: set<int>, sum: real, count: nat)

  const EMPTY := Accum(0, 0, 0, 0, 0, {}, {}, {}, 0.0, 0)

  /** What the accumulators of a node hold after the edges `es`. */
  ghost function AccumOf(es: seq<Edge>, id: int): Accum {
    var out, entering := Count(es, Leaving(id)), Count(es, Entering(id));
    Accum(|IsASources(es, id)|, Count(es, LeavingAsIsA(id)), |DescriptiveSources(es, id)|,
          out, entering, Kinds(es, id), IsASources(es, id), DescriptiveSources(es, id), Confidence(es, id), out + entering)
  }

  function Summary(a: Accum): NodeStats {
    NodeStats(a.isAIncoming, a.isAOutgoing, a.descriptiveIncoming, |a.kinds|, a.outDegree, a.inDegree, Average(a.sum, a.count))
  }

  function Left(a: Accum, e: Edge): Accum {
    a.(outDegree := a.outDegree + 1, kinds := a.kinds + {e.kind}, sum := a.sum + e.confidence, count := a.count + 1,
       isAOutgoing := if e.kind == IS_A then a.isAOutgoing + 1 else a.isAOutgoing)
  }

  function Entered(a: Accum, e: Edge): Accum {
    var b := a.(inDegree := a.inDegree + 1, kinds := a.kinds + {e.kind}, sum := a.sum + e.confidence, count := a.count + 1);
    if e.kind == IS_A then
      if e.source in a.fromIsA then b
      else b.(fromIsA := a.fromIsA + {e.source}, isAIncoming := a.isAIncoming + 1)
    else if IsDescriptive(e.kind) then
      if e.source in a.fromDescriptive then b
      else b.(fromDescriptive := a.fromDescriptive + {e.source}, descriptiveIncoming := a.descriptiveIncoming + 1)
    else b
  }

  lemma SourcesStep(es: seq<Edge>, e: Edge, id: int)
    ensures IsASources(es + [e], id) == IsASources(es, id) + if Enters(e, id) && e.kind == IS_A then {e.source} else {}
    ensures DescriptiveSources(es + [e], id) ==
            DescriptiveSources(es, id) + if Enters(e, id) && IsDescriptive(e.kind) then {e.source} else {}
    ensures Kinds(es + [e], id) == Kinds(es, id) + if Touches(e, id) then {e.kind} else {}
  {
    hide IsDescriptive, Enters, Touches;
    var more := es + [e];
    assert forall f :: f in more <==> f in es || f == e;
  }

  lemma CountsStep(es: seq<Edge>, e: Edge, id: int)
    ensures Count(es + [e], Leaving(id)) == Count(es, Leaving(id)) + if Leaves(e, id) then 1 else 0
    ensures Count(es + [e], Entering(id)) == Count(es, Entering(id)) + if Enters(e, id) then 1 else 0
    ensures Count(es + [e], LeavingAsIsA(id)) == Count(es, LeavingAsIsA(id)) + if Leaves(e, id) && e.kind == IS_A then 1 else 0
    ensures Confidence(es + [e], id) == Confidence(es, id) + if Touches(e, id) then e.confidence else 0.0
  {
    assert (es + [e])[..|es + [e]| - 1] == es;
  }

  /** One edge updates exactly its source's accumulators and, unless a self-loop, its target's. */
  lemma AccumStep(es: seq<Edge>, e: Edge, id: int)
    ensures AccumOf(es + [e], id) == if e.source == id then Left(AccumOf(es, id), e)
                                     else if e.target == id then Entered(AccumOf(es, id), e) else AccumOf(es, id)
  {
    hide AccumOf, Left, Entered;
    if e.source == id {
      AccumLeft(es, e);
    } else if e.target == id {
      AccumEntered(es, e);
    } else {
      AccumUntouched(es, e, id);
    }
  }

  lemma AccumLeft(es: seq<Edge>, e: Edge)
    ensures AccumOf(es + [e], e.source) == Left(AccumOf(es, e.source), e)
  {
    hide IsASources, DescriptiveSources, Kinds, Count, Confidence, Leaving, Entering, LeavingAsIsA, IsDescriptive;
    SourcesStep(es, e, e.source);
    CountsStep(es, e, e.source);
    SetStep(IsASources(es, e.source), 0);
    SetStep(DescriptiveSources(es, e.source), 0);
  }

  lemma AccumEntered(es: seq<Edge>, e: Edge)
    requires e.source != e.target
    ensures AccumOf(es + [e], e.target) == Entered(AccumOf(es, e.target), e)
  {
    hide IsASources, DescriptiveSources, Kinds, Count, Confidence, Leaving, Entering, LeavingAsIsA;
    SourcesStep(es, e, e.target);
    CountsStep(es, e, e.target);
    SetStep(IsASources(es, e.target), e.source);
    SetStep(DescriptiveSources(es, e.target), e.source);
  }

  lemma AccumUntouched(es: seq<Edge>, e: Edge, id: int)
    requires !Touches(e, id)
    ensures AccumOf(es + [e], id) == AccumOf(es, id)
  {
    hide IsASources, DescriptiveSources, Kinds, Count, Confidence, Leaving, Entering, LeavingAsIsA, IsDescriptive;
    SourcesStep(es, e, id);
    CountsStep(es, e, id);
    SetStep(IsASources(es, id), 0);
    SetStep(DescriptiveSources(es, id), 0);
    SetStep(Kinds(es, id), e.kind);
  }

  lemma SetStep<T>(s: set<T>, x: T)
    ensures s + {} == s && (x in s ==> s + {x} == s) && (x !in s ==> |s + {x}| == |s| + 1)
  {
  }

  lemma NothingAccumulated(id: int)
    ensures AccumOf([], id) == EMPTY
  {
  }

  // ---------- The one-pass form ----------

  function Entry(acc: map<int, Accum>, id: int): Accum { if id in acc then acc[id] else EMPTY }

  /** A missing map entry reads as the zero value. */
  function Lookup(result: map<int, NodeStats>, id: int): NodeStats { if id in result then result[id] else NO_STATS }

  lemma UntouchedSummary()
    ensures Summary(EMPTY) == NO_STATS
  {
  }

  lemma SummaryIsStats(es: seq<Edge>, id: int)
    ensures Summary(AccumOf(es, id)) == StatsOf(es, id)
  {
  }

  /** One scan of the edges gives every node its statistics. */
  method BuildSnapshotStats(es: seq<Edge>) returns (result: map<int, NodeStats>)
    ensures forall id :: Lookup(result, id) == StatsOf(es, id)
    ensures forall id :: id in result <==> exists e :: e in es && Touches(e, id)
  {
    hide AccumOf, Left, Entered, Summary, StatsOf, Touches;
    var acc: map<int, Accum> := map[];
    forall id ensures Entry(acc, id) == AccumOf([], id) { NothingAccumulated(id); }
    for i := 0 to |es|
      invariant forall id :: Entry(acc, id) == AccumOf(es[..i], id)
      invariant forall id :: id in acc <==> exists j :: 0 <= j < i && Touches(es[j], id)
    {
      var e := es[i];
      assert es[..i + 1] == es[..i] + [e];
      forall id { AccumStep(es[..i], e, id); }
      acc := acc[e.source := Left(Entry(acc, e.source), e)];
      if e.source != e.target {
        acc := acc[e.target := Entered(Entry(acc, e.target), e)];
      }
      TouchesEnds(e);
    }
    assert es[..|es|] == es;
    result := map id | id in acc :: Summary(acc[id]);
    UntouchedSummary();
    forall id ensures Lookup(result, id) == StatsOf(es, id) { SummaryIsStats(es, id); }
  }

  lemma TouchesEnds(e: Edge)
    ensures forall id :: Touches(e, id) <==> id == e.source || id == e.target
  {
  }

  /** The entry of one node. */
  method ComputeSnapshotStats(es: seq<Edge>, target: int) returns (stats: NodeStats)
    ensures stats == StatsOf(es, target)
  {
    hide StatsOf;
    var result := BuildSnapshotStats(es);
    stats := Lookup(result, target);
  }

  // ---------- The per-node walk ----------

  datatype Synapse = Synapse(target: int, kind: Kind, confidence: real)
  datatype Bucket = Bucket(key: int, synapses: seq<Synapse>)

  /** A registry node with its buckets in the order a map walk visits them. */
  datatype Node = Node(id: int, buckets: seq<Bucket>)

  /** Node ids and bucket keys are map keys. */
  ghost predicate Keyed(nodes: seq<Node>) {
    && (forall i, j | 0 <= i < j < |nodes| :: nodes[i].id != nodes[j].id)
    && forall i | 0 <= i < |nodes| :: DistinctKeys(nodes[i].buckets)
  }

  ghost predicate DistinctKeys(buckets: seq<Bucket>) {
    forall i, j | 0 <= i < j < |buckets| :: buckets[i].key != buckets[j].key
  }

  /** The edges of one bucket, leading to its key when `byKey` and else to each synapse's own target. */
  function BucketEdges(id: int, b: Bucket, byKey: bool): (r: seq<Edge>)
    ensures |r| == |b.synapses|
  {
    seq(|b.synapses|, i requires 0 <= i < |b.synapses| =>
          Edge(id, if byKey then b.key else b.synapses[i].target, b.synapses[i].kind, b.synapses[i].confidence))
  }

  function Outbound(id: int, buckets: seq<Bucket>, byKey: bool): seq<Edge> {
    if buckets == [] then []
    else Outbound(id, buckets[..|buckets| - 1], byKey) + BucketEdges(id, buckets[|buckets| - 1], byKey)
  }

  function AllEdges(nodes: seq<Node>, byKey: bool): seq<Edge> {
    if nodes == [] then []
    else AllEdges(nodes[..|nodes| - 1], byKey) + Outbound(nodes[|nodes| - 1].id, nodes[|nodes| - 1].buckets, byKey)
  }

  /** The bucket that a map lookup finds. */
  function SynapsesTo(n: Node, target: int): seq<Edge>
    decreases |n.buckets|
  {
    if n.buckets == [] then []
    else
      var last := n.buckets[|n.buckets| - 1];
      if last.key == target then BucketEdges(n.id, last, true)
      else SynapsesTo(Node(n.id, n.buckets[..|n.buckets| - 1]), target)
  }

  /** What the other nodes hold for `target`, in registry order. */
  function Incoming(nodes: seq<Node>, target: int): seq<Edge> {
    if nodes == [] then []
    else
      var last := nodes[|nodes| - 1];
      Incoming(nodes[..|nodes| - 1], target) + if last.id == target then [] else SynapsesTo(last, target)
  }

  function Touching(es: seq<Edge>, id: int): seq<Edge> {
    if es == [] then []
    else Touching(es[..|es| - 1], id) + if Touches(es[|es| - 1], id) then [es[|es| - 1]] else []
  }

  lemma {:induction false} TouchingJoin(a: seq<Edge>, b: seq<Edge>, id: int)
    ensures Touching(a + b, id) == Touching(a, id) + Touching(b, id)
  {
    hide Touches;
    if b == [] {
      assert a + b == a;
    } else {
      assert (a + b)[..|a + b| - 1] == a + b[..|b| - 1];
      TouchingJoin(a, b[..|b| - 1], id);
    }
  }

  lemma {:induction false} TouchingAll(es: seq<Edge>, id: int)
    requires forall e | e in es :: Touches(e, id)
    ensures Touching(es, id) == es
  {
    hide Touches;
    if es != [] {
      TouchingAll(es[..|es| - 1], id);
      assert es == es[..|es| - 1] + [es[|es| - 1]];
    }
  }

  lemma {:induction false} TouchingNone(es: seq<Edge>, id: int)
    requires forall e | e in es :: !Touches(e, id)
    ensures Touching(es, id) == []
  {
    hide Touches;
    if es != [] {
      TouchingNone(es[..|es| - 1], id);
    }
  }

  /** Edges elsewhere leave a node's accumulators alone. */
  lemma {:induction false} OnlyTouchingCounts(es: seq<Edge>, id: int)
    ensures AccumOf(es, id) == AccumOf(Touching(es, id), id)
  {
    hide AccumOf, Left, Entered;
    if es != [] {
      var rest, e := es[..|es| - 1], es[|es| - 1];
      assert es == rest + [e];
      OnlyTouchingCounts(rest, id);
      AccumStep(rest, e, id);
      if Touches(e, id) {
        AccumStep(Touching(rest, id), e, id);
      } else {
        assert Touching(es, id) == Touching(rest, id);
      }
    }
  }

  lemma {:induction false} OwnEdges(id: int, buckets: seq<Bucket>, byKey: bool)
    ensures Touching(Outbound(id, buckets, byKey), id) == Outbound(id, buckets, byKey)
  {
    if buckets != [] {
      var last := BucketEdges(id, buckets[|buckets| - 1], byKey);
      OwnEdges(id, buckets[..|buckets| - 1], byKey);
      TouchingAll(last, id);
      TouchingJoin(Outbound(id, buckets[..|buckets| - 1], byKey), last, id);
    }
  }

  lemma {:induction false} EdgesInto(n: Node, target: int)
    requires n.id != target && DistinctKeys(n.buckets)
    ensures Touching(Outbound(n.id, n.buckets, true), target) == SynapsesTo(n, target)
    ensures (forall i | 0 <= i < |n.buckets| :: n.buckets[i].key != target) ==> SynapsesTo(n, target) == []
    decreases |n.buckets|
  {
    if n.buckets != [] {
      var rest, last := Node(n.id, n.buckets[..|n.buckets| - 1]), n.buckets[|n.buckets| - 1];
      EdgesInto(rest, target);
      var edges := BucketEdges(n.id, last, true);
      TouchingJoin(Outbound(n.id, rest.buckets, true), edges, target);
      if last.key == target {
        TouchingAll(edges, target);
      } else {
        TouchingNone(edges, target);
      }
    }
  }

  lemma {:induction false} EdgesOfOthers(nodes: seq<Node>, target: int)
    requires Keyed(nodes) && forall i | 0 <= i < |nodes| :: nodes[i].id != target
    ensures Touching(AllEdges(nodes, true), target) == Incoming(nodes, target)
  {
    if nodes != [] {
      var rest, last := nodes[..|nodes| - 1], nodes[|nodes| - 1];
      EdgesOfOthers(rest, target);
      EdgesInto(last, target);
      TouchingJoin(AllEdges(rest, true), Outbound(last.id, last.buckets, true), target);
    }
  }

  /** The walk visits exactly the edges that touch its target. */
  lemma {:induction false} WalkTouches(nodes: seq<Node>, t: nat)
    requires Keyed(nodes) && t < |nodes|
    ensures multiset(Touching(AllEdges(nodes, true), nodes[t].id)) ==
            multiset(Outbound(nodes[t].id, nodes[t].buckets, true) + Incoming(nodes, nodes[t].id))
  {
    hide Outbound, SynapsesTo, Touching;
    var rest, last, id := nodes[..|nodes| - 1], nodes[|nodes| - 1], nodes[t].id;
    TouchingJoin(AllEdges(rest, true), Outbound(last.id, last.buckets, true), id);
    if t == |nodes| - 1 {
      EdgesOfOthers(rest, id);
      OwnEdges(id, last.buckets, true);
    } else {
      WalkTouches(rest, t);
      EdgesInto(last, id);
      assert Incoming(nodes, id) == Incoming(rest, id) + SynapsesTo(last, id);
    }
  }

  lemma WalkAccum(nodes: seq<Node>, t: nat)
    requires Keyed(nodes) && t < |nodes|
    ensures var id := nodes[t].id;
            StatsOf(Outbound(id, nodes[t].buckets, true) + Incoming(nodes, id), id) == StatsOf(AllEdges(nodes, true), id)
  {
    hide Touching, StatsOf, AccumOf, Summary, Outbound, Incoming, AllEdges;
    var id := nodes[t].id;
    var walk, all := Outbound(id, nodes[t].buckets, true) + Incoming(nodes, id), AllEdges(nodes, true);
    WalkTouches(nodes, t);
    OnlyTouchingCounts(all, id);
    SummaryIsStats(all, id);
    SummaryIsStats(Touching(all, id), id);
    StatsReordered(walk, Touching(all, id), id);
  }

  /** The quadratic walk reads an edge's target off the bucket that holds it. */
  method ComputeStats(nodes: seq<Node>, t: nat) returns (stats: NodeStats)
    requires Keyed(nodes) && t < |nodes|
    ensures stats == StatsOf(AllEdges(nodes, true), nodes[t].id)
  {
    hide AccumOf, Left, Entered, Summary, StatsOf, Outbound, SynapsesTo;
    var id, acc := nodes[t].id, EMPTY;
    var outbound := Outbound(id, nodes[t].buckets, true);
    OutboundLeaves(id, nodes[t].buckets);
    NothingAccumulated(id);
    for i := 0 to |outbound|
      invariant acc == AccumOf(outbound[..i], id)
    {
      assert outbound[..i + 1] == outbound[..i] + [outbound[i]];
      AccumStep(outbound[..i], outbound[i], id);
      acc := Left(acc, outbound[i]);
    }
    assert outbound[..|outbound|] == outbound == outbound + [];
    for k := 0 to |nodes|
      invariant acc == AccumOf(outbound + Incoming(nodes[..k], id), id)
    {
      assert nodes[..k + 1][..k] == nodes[..k];
      ghost var before := outbound + Incoming(nodes[..k], id);
      if nodes[k].id != id {
        var list := SynapsesTo(nodes[k], id);
        EntersTarget(nodes[k], id);
        assert before + list[..0] == before;
        for i := 0 to |list|
          invariant acc == AccumOf(before + list[..i], id)
        {
          assert before + list[..i + 1] == before + list[..i] + [list[i]];
          AccumStep(before + list[..i], list[i], id);
          acc := Entered(acc, list[i]);
        }
        assert list[..|list|] == list;
        assert outbound + Incoming(nodes[..k + 1], id) == before + list;
      } else {
        assert outbound + Incoming(nodes[..k + 1], id) == before;
      }
    }
    assert nodes[..|nodes|] == nodes;
    stats := Summary(acc);
    SummaryIsStats(outbound + Incoming(nodes, id), id);
    WalkAccum(nodes, t);
  }

  lemma {:induction false} OutboundLeaves(id: int, buckets: seq<Bucket>)
    ensures forall e | e in Outbound(id, buckets, true) :: e.source == id
  {
    if buckets != [] { OutboundLeaves(id, buckets[..|buckets| - 1]); }
  }

  lemma {:induction false} EntersTarget(n: Node, target: int)
    ensures forall e | e in SynapsesTo(n, target) :: e.source == n.id && e.target == target
    decreases |n.buckets|
  {
    if n.buckets != [] { EntersTarget(Node(n.id, n.buckets[..|n.buckets| - 1]), target); }
  }

  // ---------- When the two forms agree ----------

  /** What one bucket holds for `id`: everything if it is filed there, or what is aimed at it. */
  function Held(b: Bucket, id: int, byKey: bool): seq<Synapse> {
    if byKey then if b.key == id then b.synapses else [] else Aimed(b.synapses, id)
  }

  function Aimed(synapses: seq<Synapse>, id: int): seq<Synapse> {
    if synapses == [] then []
    else
      var last := synapses[|synapses| - 1];
      Aimed(synapses[..|synapses| - 1], id) + if last.target == id then [last] else []
  }

  function HeldBy(buckets: seq<Bucket>, id: int, byKey: bool): seq<Synapse> {
    if buckets == [] then []
    else HeldBy(buckets[..|buckets| - 1], id, byKey) + Held(buckets[|buckets| - 1], id, byKey)
  }

  function Arriving(source: int, id: int, synapses: seq<Synapse>): (r: seq<Edge>)
    ensures |r| == |synapses|
  {
    seq(|synapses|, i requires 0 <= i < |synapses| => Edge(source, id, synapses[i].kind, synapses[i].confidence))
  }

  /** What the other nodes hold for `id`. */
  function Arrivals(nodes: seq<Node>, id: int, byKey: bool): seq<Edge> {
    if nodes == [] then []
    else
      var last := nodes[|nodes| - 1];
      Arrivals(nodes[..|nodes| - 1], id, byKey) +
      if last.id == id then [] else Arriving(last.id, id, HeldBy(last.buckets, id, byKey))
  }

  /** The edges that enter `id`. */
  function Entries(es: seq<Edge>, id: int): seq<Edge> {
    if es == [] then []
    else Entries(es[..|es| - 1], id) + if Enters(es[|es| - 1], id) then [es[|es| - 1]] else []
  }

  lemma {:induction false} EntriesJoin(a: seq<Edge>, b: seq<Edge>, id: int)
    ensures Entries(a + b, id) == Entries(a, id) + Entries(b, id)
  {
    hide Enters;
    if b == [] {
      assert a + b == a;
    } else {
      assert (a + b)[..|a + b| - 1] == a + b[..|b| - 1];
      EntriesJoin(a, b[..|b| - 1], id);
    }
  }

  lemma {:induction false} NoEntries(es: seq<Edge>, id: int)
    requires forall e | e in es :: !Enters(e, id)
    ensures Entries(es, id) == []
  {
    hide Enters;
    if es != [] { NoEntries(es[..|es| - 1], id); }
  }

  lemma {:induction false} AllEntries(es: seq<Edge>, id: int)
    requires forall e | e in es :: Enters(e, id)
    ensures Entries(es, id) == es
  {
    hide Enters;
    if es != [] {
      AllEntries(es[..|es| - 1], id);
      assert es == es[..|es| - 1] + [es[|es| - 1]];
    }
  }

  lemma ArrivingJoin(source: int, id: int, a: seq<Synapse>, b: seq<Synapse>)
    ensures Arriving(source, id, a + b) == Arriving(source, id, a) + Arriving(source, id, b)
  {
  }

  lemma {:induction false} AimedEntries(source: int, id: int, key: int, synapses: seq<Synapse>)
    requires source != id
    ensures Entries(BucketEdges(source, Bucket(key, synapses), false), id) == Arriving(source, id, Aimed(synapses, id))
  {
    if synapses != [] {
      var m := |synapses| - 1;
      var rest, last := synapses[..m], synapses[m];
      var es := BucketEdges(source, Bucket(key, synapses), false);
      assert es[..m] == BucketEdges(source, Bucket(key, rest), false);
      assert es[m] == Edge(source, last.target, last.kind, last.confidence);
      AimedEntries(source, id, key, rest);
      ArrivingJoin(source, id, Aimed(rest, id), if last.target == id then [last] else []);
    }
  }

  lemma BucketEntries(source: int, id: int, b: Bucket, byKey: bool)
    requires source != id
    ensures Entries(BucketEdges(source, b, byKey), id) == Arriving(source, id, Held(b, id, byKey))
  {
    if !byKey {
      AimedEntries(source, id, b.key, b.synapses);
    } else if b.key == id {
      AllEntries(BucketEdges(source, b, true), id);
    } else {
      NoEntries(BucketEdges(source, b, true), id);
    }
  }

  lemma {:induction false} OutboundEntries(source: int, id: int, buckets: seq<Bucket>, byKey: bool)
    ensures Entries(Outbound(source, buckets, byKey), id) ==
            if source == id then [] else Arriving(source, id, HeldBy(buckets, id, byKey))
  {
    hide Held, Entries;
    if buckets == [] {
      NoEntries([], id);
    } else {
      var rest, last := buckets[..|buckets| - 1], buckets[|buckets| - 1];
      OutboundEntries(source, id, rest, byKey);
      EntriesJoin(Outbound(source, rest, byKey), BucketEdges(source, last, byKey), id);
      if source == id {
        NoEntries(BucketEdges(source, last, byKey), id);
      } else {
        BucketEntries(source, id, last, byKey);
        ArrivingJoin(source, id, HeldBy(rest, id, byKey), Held(last, id, byKey));
      }
    }
  }

  /** The edges that enter `id` are what the other nodes hold for it. */
  lemma {:induction false} EntriesAreArrivals(nodes: seq<Node>, id: int, byKey: bool)
    ensures Entries(AllEdges(nodes, byKey), id) == Arrivals(nodes, id, byKey)
  {
    hide Entries, Outbound, HeldBy, Arriving;
    if nodes == [] {
      NoEntries([], id);
    } else {
      var rest, last := nodes[..|nodes| - 1], nodes[|nodes| - 1];
      EntriesAreArrivals(rest, id, byKey);
      EntriesJoin(AllEdges(rest, byKey), Outbound(last.id, last.buckets, byKey), id);
      OutboundEntries(last.id, id, last.buckets, byKey);
    }
  }

  ghost function OwnKinds(es: seq<Edge>, id: int): set<Kind> {
    set e | e in es && Leaves(e, id) :: e.kind
  }

  ghost function OwnConfidence(es: seq<Edge>, id: int): real {
    if es == [] then 0.0
    else OwnConfidence(es[..|es| - 1], id) + if Leaves(es[|es| - 1], id) then es[|es| - 1].confidence else 0.0
  }

  lemma {:induction false} EntriesMembers(es: seq<Edge>, id: int)
    ensures forall e :: e in Entries(es, id) <==> e in es && Enters(e, id)
    ensures |Entries(es, id)| == Count(es, Entering(id))
  {
    hide Enters;
    if es != [] {
      var rest, last := es[..|es| - 1], es[|es| - 1];
      assert forall e :: e in es <==> e in rest || e == last;
      EntriesMembers(rest, id);
      EnteringSays(last, id);
    }
  }

  lemma EnteringSays(e: Edge, id: int)
    ensures Entering(id)(e) <==> Enters(e, id)
  {
  }

  lemma {:induction false} ConfidenceSplit(es: seq<Edge>, id: int)
    ensures Confidence(es, id) == OwnConfidence(es, id) + Confidence(Entries(es, id), id)
  {
    if es == [] {
      assert Entries(es, id) == [];
      NoConfidence(es, id);
    } else {
      var rest, last := es[..|es| - 1], es[|es| - 1];
      assert es == rest + [last];
      ConfidenceSplit(rest, id);
      CountsStep(rest, last, id);
      CountsStep(Entries(rest, id), last, id);
      assert Entries(es, id) == Entries(rest, id) + if Enters(last, id) then [last] else [];
      assert Entries(rest, id) + [] == Entries(rest, id);
    }
  }

  /** A statistic is what the node itself holds and what enters it. */
  lemma StatsSplit(es: seq<Edge>, id: int)
    ensures var a := Entries(es, id);
            && IsASources(es, id) == IsASources(a, id) && DescriptiveSources(es, id) == DescriptiveSources(a, id)
            && Kinds(es, id) == OwnKinds(es, id) + Kinds(a, id)
            && Count(es, Entering(id)) == |a|
            && Confidence(es, id) == OwnConfidence(es, id) + Confidence(a, id)
  {
    hide IsDescriptive, Entries, Entering;
    EntriesMembers(es, id);
    ConfidenceSplit(es, id);
    assert forall e :: Touches(e, id) <==> Leaves(e, id) || Enters(e, id);
  }

  /** The same edges up to their targets. */
  ghost predicate SameButTargets(es: seq<Edge>, fs: seq<Edge>) {
    |es| == |fs| && forall i | 0 <= i < |es| :: es[i] == fs[i].(target := es[i].target)
  }

  lemma {:induction false} OutboundButTargets(id: int, buckets: seq<Bucket>)
    ensures SameButTargets(Outbound(id, buckets, true), Outbound(id, buckets, false))
  {
    if buckets != [] { OutboundButTargets(id, buckets[..|buckets| - 1]); }
  }

  lemma {:induction false} EdgesButTargets(nodes: seq<Node>)
    ensures SameButTargets(AllEdges(nodes, true), AllEdges(nodes, false))
  {
    hide Outbound;
    if nodes != [] {
      EdgesButTargets(nodes[..|nodes| - 1]);
      OutboundButTargets(nodes[|nodes| - 1].id, nodes[|nodes| - 1].buckets);
    }
  }

  lemma {:induction false} SameOwn(es: seq<Edge>, fs: seq<Edge>, id: int)
    requires SameButTargets(es, fs)
    ensures Count(es, Leaving(id)) == Count(fs, Leaving(id)) && Count(es, LeavingAsIsA(id)) == Count(fs, LeavingAsIsA(id))
    ensures OwnConfidence(es, id) == OwnConfidence(fs, id)
    ensures OwnKinds(es, id) <= OwnKinds(fs, id)
  {
    if es != [] {
      SameOwn(es[..|es| - 1], fs[..|fs| - 1], id);
    }
    forall k | k in OwnKinds(es, id) ensures k in OwnKinds(fs, id) {
      var e :| e in es && Leaves(e, id) && e.kind == k;
      var i :| 0 <= i < |es| && es[i] == e;
      assert fs[i] in fs;
    }
  }

  /** What the other nodes file under `id` against what they aim at it: as many synapses, from as many
      nodes by IS_A and by description, as many kinds beside the node's own, and the same total confidence. */
  ghost predicate ArrivalsAlike(nodes: seq<Node>, id: int) {
    var filed, aimed, own := Arrivals(nodes, id, true), Arrivals(nodes, id, false), OwnKinds(AllEdges(nodes, true), id);
    && |filed| == |aimed| && Confidence(filed, id) == Confidence(aimed, id)
    && |IsASources(filed, id)| == |IsASources(aimed, id)|
    && |DescriptiveSources(filed, id)| == |DescriptiveSources(aimed, id)|
    && |own + Kinds(filed, id)| == |own + Kinds(aimed, id)|
  }

  /** For every graph and node: what leaves a node is counted alike, and the rest agrees exactly
      when the other nodes file and aim alike. */
  lemma StatsAgreeIff(nodes: seq<Node>, id: int)
    ensures var a, b := StatsOf(AllEdges(nodes, true), id), StatsOf(AllEdges(nodes, false), id);
            && a.outDegree == b.outDegree && a.isAOutgoing == b.isAOutgoing
            && (a.inDegree == b.inDegree <==> |Arrivals(nodes, id, true)| == |Arrivals(nodes, id, false)|)
            && (a == b <==> ArrivalsAlike(nodes, id))
  {
    hide AllEdges, Arrivals, Entries, Average, Count, Confidence, Kinds, IsASources, DescriptiveSources, OwnKinds,
         OwnConfidence, Leaving, LeavingAsIsA, Entering;
    var es, fs := AllEdges(nodes, true), AllEdges(nodes, false);
    StatsSplit(es, id);
    StatsSplit(fs, id);
    EntriesAreArrivals(nodes, id, true);
    EntriesAreArrivals(nodes, id, false);
    EdgesButTargets(nodes);
    SameOwn(es, fs, id);
    ButTargetsSymmetric(es, fs);
    SameOwn(fs, es, id);
    assert OwnKinds(es, id) == OwnKinds(fs, id);
    var out := Count(es, Leaving(id));
    var filed, aimed := Arrivals(nodes, id, true), Arrivals(nodes, id, false);
    if |filed| == |aimed| {
      AveragesAgree(Confidence(es, id), Confidence(fs, id), out + |filed|);
      if |filed| == 0 {
        NoConfidence(filed, id);
        NoConfidence(aimed, id);
      }
    }
  }

  lemma ButTargetsSymmetric(es: seq<Edge>, fs: seq<Edge>)
    requires SameButTargets(es, fs)
    ensures SameButTargets(fs, es)
  {
  }

  lemma NoConfidence(es: seq<Edge>, id: int)
    requires |es| == 0
    ensures Confidence(es, id) == 0.0
  {
  }

  lemma AveragesAgree(x: real, y: real, count: nat)
    ensures Average(x, count) == Average(y, count) <==> count == 0 || x == y
  {
    if count > 0 {
      var n := count as real;
      assert (x / n) * n == x && (y / n) * n == y;
    }
  }

  // ---------- Agreement ----------

  /** Every synapse lies in the bucket of its own target. */
  ghost predicate KeyedByTarget(nodes: seq<Node>) {
    forall i, b, s | 0 <= i < |nodes| && b in nodes[i].buckets && s in b.synapses :: s.target == b.key
  }

  lemma {:induction false} SameOutbound(id: int, buckets: seq<Bucket>)
    requires forall b, s | b in buckets && s in b.synapses :: s.target == b.key
    ensures Outbound(id, buckets, true) == Outbound(id, buckets, false)
  {
    if buckets != [] {
      SameOutbound(id, buckets[..|buckets| - 1]);
      var last := buckets[|buckets| - 1];
      assert last in buckets;
      assert BucketEdges(id, last, true) == BucketEdges(id, last, false);
    }
  }

  lemma {:induction false} SameEdges(nodes: seq<Node>)
    requires KeyedByTarget(nodes)
    ensures AllEdges(nodes, true) == AllEdges(nodes, false)
  {
    if nodes != [] {
      SameEdges(nodes[..|nodes| - 1]);
      SameOutbound(nodes[|nodes| - 1].id, nodes[|nodes| - 1].buckets);
    }
  }

  /** For any listing of any graph both forms give a node the same statistics exactly when the other
      nodes file and aim alike, as they do for every node of a graph keyed by target. */
  method Compare(nodes: seq<Node>, t: nat, es: seq<Edge>) returns (fast: NodeStats, simple: NodeStats)
    requires Keyed(nodes) && t < |nodes|
    requires multiset(es) == multiset(AllEdges(nodes, false))
    ensures fast == StatsOf(es, nodes[t].id) && simple == StatsOf(AllEdges(nodes, true), nodes[t].id)
    ensures fast == simple <==> ArrivalsAlike(nodes, nodes[t].id)
    ensures KeyedByTarget(nodes) ==> fast == simple
  {
    hide StatsOf, ArrivalsAlike, AllEdges;
    simple := ComputeStats(nodes, t);
    fast := ComputeSnapshotStats(es, nodes[t].id);
    StatsReordered(es, AllEdges(nodes, false), nodes[t].id);
    StatsAgreeIff(nodes, nodes[t].id);
    if KeyedByTarget(nodes) { SameEdges(nodes); }
  }

  lemma OneHolder(n: Node, id: int, byKey: bool)
    ensures Arrivals([n], id, byKey) == if n.id == id then [] else Arriving(n.id, id, HeldBy(n.buckets, id, byKey))
  {
    assert [n][..0] == [];
  }

  lemma OneBucket(b: Bucket, id: int, byKey: bool)
    ensures HeldBy([b], id, byKey) == Held(b, id, byKey)
  {
    assert [b][..0] == [];
  }

  lemma SingleAim(b: Bucket, id: int)
    requires |b.synapses| == 1
    ensures Held(b, id, false) == if b.synapses[0].target == id then b.synapses else []
  {
    assert b.synapses[..0] == [] && b.synapses == [b.synapses[0]];
    assert Aimed(b.synapses, id) == Aimed([], id) + if b.synapses[0].target == id then [b.synapses[0]] else [];
  }

  lemma TwoBuckets(a: Bucket, b: Bucket, id: int, byKey: bool)
    ensures HeldBy([a, b], id, byKey) == Held(a, id, byKey) + Held(b, id, byKey)
  {
    OneBucket(a, id, byKey);
    assert [a, b][..1] == [a];
  }

  /** Keying by target is not needed: two buckets under each other's keys make no difference to any node. */
  lemma SwappedBucketsAgree(a: int, b: int, c: int, kind: Kind, confidence: real, id: int)
    requires b != c
    ensures var nodes := [Node(a, [Bucket(b, [Synapse(c, kind, confidence)]), Bucket(c, [Synapse(b, kind, confidence)])])];
            Keyed(nodes) && !KeyedByTarget(nodes) &&
            StatsOf(AllEdges(nodes, true), id) == StatsOf(AllEdges(nodes, false), id)
  {
    hide StatsOf, AllEdges, HeldBy, Held, ArrivalsAlike;
    var first, second := Bucket(b, [Synapse(c, kind, confidence)]), Bucket(c, [Synapse(b, kind, confidence)]);
    var n := Node(a, [first, second]);
    assert !KeyedByTarget([n]) by {
      assert first in [n][0].buckets && first.synapses[0] in first.synapses;
    }
    SwappedArrivals(n, id);
    StatsAgreeIff([n], id);
    SameArrivals([n], id);
  }

  lemma SwappedArrivals(n: Node, id: int)
    requires |n.buckets| == 2 && |n.buckets[0].synapses| == |n.buckets[1].synapses| == 1
    requires n.buckets[0].key == n.buckets[1].synapses[0].target != n.buckets[1].key == n.buckets[0].synapses[0].target
    requires n.buckets[0].synapses[0].(target := 0) == n.buckets[1].synapses[0].(target := 0)
    ensures Arrivals([n], id, true) == Arrivals([n], id, false)
  {
    hide HeldBy;
    var first, second := n.buckets[0], n.buckets[1];
    assert n.buckets == [first, second];
    TwoBuckets(first, second, id, true);
    TwoBuckets(first, second, id, false);
    OneHolder(n, id, true);
    OneHolder(n, id, false);
    SingleAim(first, id);
    SingleAim(second, id);
    assert Arriving(n.id, id, first.synapses) == Arriving(n.id, id, second.synapses);
    assert forall s: seq<Synapse> :: s + [] == s == [] + s;
  }

  lemma SameArrivals(nodes: seq<Node>, id: int)
    requires Arrivals(nodes, id, true) == Arrivals(nodes, id, false)
    ensures ArrivalsAlike(nodes, id)
  {
  }

  /** One bucket under another key separates them: the walk credits the key, the scan the target. */
  lemma MiskeyedBucketDisagrees(a: int, b: int, c: int, kind: Kind, confidence: real)
    requires a != b && b != c
    ensures var nodes := [Node(a, [Bucket(b, [Synapse(c, kind, confidence)])])];
            Keyed(nodes) && StatsOf(AllEdges(nodes, true), b).inDegree != StatsOf(AllEdges(nodes, false), b).inDegree
  {
    hide StatsOf, AllEdges;
    var bucket := Bucket(b, [Synapse(c, kind, confidence)]);
    OneBucket(bucket, b, true);
    OneBucket(bucket, b, false);
    SingleAim(bucket, b);
    OneHolder(Node(a, [bucket]), b, true);
    OneHolder(Node(a, [bucket]), b, false);
    StatsAgreeIff([Node(a, [bucket])], b);
  }
}
