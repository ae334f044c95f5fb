/** The parameter layout of the cognitive circuit: how base and extensions allocate it, what the
    validator replays, and that every parameter has exactly one place and one edge. */
module CognitiveLayout {
  import opened FiniteSets
  import MetaBeliefs
  import opened Options

  datatype Edge = Edge(source: int, target: int)
  datatype Tensor = Tensor(offset: nat, rows: nat, cols: nat)

  // ---------- Repetition-free listings ----------

  /** Nothing occurs twice. */
  ghost predicate Once<T(!new)>(m: multiset<T>) {
    forall x :: m[x] <= 1
  }

  ghost predicate Distinct<T(!new)>(xs: seq<T>) { Once(multiset(xs)) }

  lemma PartIsOnce<T(!new)>(part: multiset<T>, whole: multiset<T>)
    requires part <= whole && Once(whole)
    ensures Once(part)
  {
  }

  lemma DisjointJoin<T(!new)>(a: seq<T>, b: seq<T>)
    requires Distinct(a) && Distinct(b) && forall x | x in a :: x !in b
    ensures Distinct(a + b)
  {
    forall x ensures multiset(a + b)[x] <= 1 {
      assert multiset(a + b)[x] == multiset(a)[x] + multiset(b)[x];
      if x in multiset(a) { assert x in a; }
      if x in multiset(b) { assert x in b; }
    }
  }

  lemma DistinctParts<T(!new)>(a: seq<T>, b: seq<T>)
    requires Distinct(a + b)
    ensures Distinct(a) && Distinct(b) && forall x | x in a :: x !in b
  {
    forall x ensures multiset(a)[x] <= 1 && multiset(b)[x] <= 1 && (x in a ==> x !in b) {
      assert multiset(a + b)[x] == multiset(a)[x] + multiset(b)[x];
      assert x in a ==> multiset(a)[x] > 0;
      assert x in b ==> multiset(b)[x] > 0;
    }
  }

  lemma DistinctAt<T(!new)>(xs: seq<T>, i: nat, j: nat)
    requires Distinct(xs) && i < j < |xs|
    ensures xs[i] != xs[j]
  {
    assert xs == xs[..j] + xs[j..];
    DistinctParts(xs[..j], xs[j..]);
    assert xs[..j][i] in xs[..j] && xs[j..][0] in xs[j..];
  }

  function Range(start: int, n: nat): (r: seq<int>)
    ensures |r| == n && forall i | 0 <= i < n :: r[i] == start + i
  {
    seq(n, i => start + i)
  }

  lemma RangeJoin(start: int, m: nat, n: nat)
    ensures Range(start, m) + Range(start + m, n) == Range(start, m + n)
  {
  }

  lemma {:induction false} RangeIsDistinct(start: int, n: nat)
    ensures Distinct(Range(start, n)) && forall k :: k in Range(start, n) <==> start <= k < start + n
  {
    forall k | start <= k < start + n ensures k in Range(start, n) { assert Range(start, n)[k - start] == k; }
    if n > 0 {
      RangeIsDistinct(start, n - 1);
      RangeJoin(start, n - 1, 1);
      var last := Range(start + n - 1, 1);
      assert last == [start + n - 1];
      DisjointJoin(Range(start, n - 1), last);
    }
  }

  // ---------- Edges of a tensor, and of tensors into one group ----------

  /** All edges into one target, and into targets row by row. */
  function Row(from: seq<int>, target: int): (r: seq<Edge>)
    ensures |r| == |from| && forall i | 0 <= i < |from| :: r[i] == Edge(from[i], target)
  {
    seq(|from|, i requires 0 <= i < |from| => Edge(from[i], target))
  }

  function Grid(from: seq<int>, to: seq<int>): (r: seq<Edge>)
    ensures |r| == |to| * |from|
  {
    if to == [] then [] else
      assert (|to| - 1) * |from| + |from| == |to| * |from|;
      Grid(from, to[..|to| - 1]) + Row(from, to[|to| - 1])
  }

  /** The flat place of a row and column. */
  lemma {:induction false} GridAt(from: seq<int>, to: seq<int>, row: nat, col: nat)
    requires row < |to| && col < |from|
    ensures 0 <= row * |from| + col < |Grid(from, to)| && Grid(from, to)[row * |from| + col] == Edge(from[col], to[row])
  {
    var n := |to| - 1;
    assert row * |from| + col < (row + 1) * |from|;
    if row < n {
      GridAt(from, to[..n], row, col);
      assert to[..n][row] == to[row];
    } else {
      assert |Grid(from, to[..n])| == row * |from|;
    }
  }

  /** Every flat place has a row and a column. */
  lemma GridPlace(from: seq<int>, to: seq<int>, k: nat) returns (row: nat, col: nat)
    requires k < |Grid(from, to)|
    ensures row < |to| && col < |from| && k == row * |from| + col
  {
    Divided(k, |from|, |to|);
    row, col := k / |from|, k % |from|;
  }

  lemma Divided(k: nat, n: nat, m: nat)
    requires k < m * n
    ensures n > 0 && k / n < m && k == (k / n) * n + k % n
  {
  }

  lemma GridMember(from: seq<int>, to: seq<int>, e: Edge)
    ensures e in Grid(from, to) <==> e.source in from && e.target in to
  {
    if e in Grid(from, to) {
      var k :| 0 <= k < |Grid(from, to)| && Grid(from, to)[k] == e;
      var row, col := GridPlace(from, to, k);
      GridAt(from, to, row, col);
    }
    if e.source in from && e.target in to {
      var col :| 0 <= col < |from| && from[col] == e.source;
      var row :| 0 <= row < |to| && to[row] == e.target;
      GridAt(from, to, row, col);
    }
  }

  lemma {:induction false} RowIsDistinct(from: seq<int>, target: int)
    requires Distinct(from)
    ensures Distinct(Row(from, target))
  {
    if from != [] {
      var n := |from| - 1;
      assert from == from[..n] + [from[n]];
      DistinctParts(from[..n], [from[n]]);
      RowIsDistinct(from[..n], target);
      var last := [Edge(from[n], target)];
      assert Row(from, target) == Row(from[..n], target) + last;
      forall x | x in Row(from[..n], target) ensures x !in last {
        assert from[n] in [from[n]];
      }
      DisjointJoin(Row(from[..n], target), last);
    }
  }

  lemma {:induction false} GridIsDistinct(from: seq<int>, to: seq<int>)
    requires Distinct(from) && Distinct(to)
    ensures Distinct(Grid(from, to))
  {
    if to != [] {
      var n := |to| - 1;
      assert to == to[..n] + [to[n]];
      DistinctParts(to[..n], [to[n]]);
      GridIsDistinct(from, to[..n]);
      RowIsDistinct(from, to[n]);
      forall e | e in Grid(from, to[..n]) ensures e !in Row(from, to[n]) {
        GridMember(from, to[..n], e);
        assert to[n] in [to[n]];
      }
      DisjointJoin(Grid(from, to[..n]), Row(from, to[n]));
    }
  }

  /** Consecutive tensors into the same targets. */
  datatype Fan = Fan(froms: seq<seq<int>>, to: seq<int>)

  function Grids(froms: seq<seq<int>>, to: seq<int>): seq<Edge> {
    if froms == [] then [] else Grids(froms[..|froms| - 1], to) + Grid(froms[|froms| - 1], to)
  }

  function Flat(froms: seq<seq<int>>): seq<int> {
    if froms == [] then [] else Flat(froms[..|froms| - 1]) + froms[|froms| - 1]
  }

  function EdgesOf(fans: seq<Fan>): seq<Edge> {
    if fans == [] then [] else EdgesOf(fans[..|fans| - 1]) + Grids(fans[|fans| - 1].froms, fans[|fans| - 1].to)
  }

  function TargetsOf(fans: seq<Fan>): seq<int> {
    if fans == [] then [] else TargetsOf(fans[..|fans| - 1]) + fans[|fans| - 1].to
  }

  lemma {:induction false} GridsMember(froms: seq<seq<int>>, to: seq<int>, e: Edge)
    ensures e in Grids(froms, to) <==> e.source in Flat(froms) && e.target in to
  {
    if froms != [] {
      GridsMember(froms[..|froms| - 1], to, e);
      GridMember(froms[|froms| - 1], to, e);
    }
  }

  lemma {:induction false} GridsAreDistinct(froms: seq<seq<int>>, to: seq<int>)
    requires Distinct(Flat(froms)) && Distinct(to)
    ensures Distinct(Grids(froms, to))
  {
    if froms == [] {
    } else {
      var rest, last := froms[..|froms| - 1], froms[|froms| - 1];
      DistinctParts(Flat(rest), last);
      GridsAreDistinct(rest, to);
      GridIsDistinct(last, to);
      forall e | e in Grids(rest, to) ensures e !in Grid(last, to) {
        GridsMember(rest, to, e);
        GridMember(last, to, e);
      }
      DisjointJoin(Grids(rest, to), Grid(last, to));
    }
  }

  lemma {:induction false} EdgesReachTargets(fans: seq<Fan>, e: Edge)
    requires e in EdgesOf(fans)
    ensures e.target in TargetsOf(fans)
  {
    var rest, last := fans[..|fans| - 1], fans[|fans| - 1];
    if e in EdgesOf(rest) { EdgesReachTargets(rest, e); } else { GridsMember(last.froms, last.to, e); }
  }

  /** When targets are never repeated and no fan repeats a source, no edge is repeated. */
  lemma {:induction false} FansAreDistinct(fans: seq<Fan>)
    requires Distinct(TargetsOf(fans)) && forall i | 0 <= i < |fans| :: Distinct(Flat(fans[i].froms))
    ensures Distinct(EdgesOf(fans))
  {
    if fans == [] {
    } else {
      var rest, last := fans[..|fans| - 1], fans[|fans| - 1];
      DistinctParts(TargetsOf(rest), last.to);
      FansAreDistinct(rest);
      GridsAreDistinct(last.froms, last.to);
      forall e | e in EdgesOf(rest) ensures e !in Grids(last.froms, last.to) {
        EdgesReachTargets(rest, e);
        GridsMember(last.froms, last.to, e);
      }
      DisjointJoin(EdgesOf(rest), Grids(last.froms, last.to));
    }
  }

  // ---------- The circuit ----------

  datatype Config = Config(inputs: nat, hidden: nat, actions: nat, horizon: nat, meta: Option<MetaBeliefs.Config>)

  datatype Base = Base(inputs: seq<int>, hidden: seq<int>, gates: seq<int>, actions: seq<int>, success: seq<int>,
                       value: seq<int>, world: seq<int>, biasInput: int, biasHidden: int, bmps: seq<int>,
                       tensors: seq<seq<Tensor>>)
  datatype Meta = Meta(joints: seq<int>, rewards: seq<int>, temperatures: seq<int>, tensors: seq<seq<Tensor>>)
  datatype Representation = Categorical | Pairwise | Independent | ShuffledPairwise
  datatype Phase2 = Phase2(representation: Representation, nodes: seq<int>, tensors: seq<seq<Tensor>>, baseParameters: nat)
  datatype Phase4 = Phase4(features: seq<int>, hidden: seq<int>, actions: seq<int>, value: seq<int>,
                           tensors: seq<seq<Tensor>>, baseParameters: nat)

  datatype Model = Model(config: Config, base: Base, meta: Option<Meta>, phase2: Option<Phase2>, phase4: Option<Phase4>,
                         edges: seq<Edge>, firstMoment: seq<real>, secondMoment: seq<real>)

  const BUDGET := 1_000_000
  const PHASE4_PARAMETERS := 1097

  function StateCount(n: MetaBeliefs.Config): nat {
    n.classes * MetaBeliefs.Power(n.outcomes, n.computations)
  }

  predicate MetaOk(n: MetaBeliefs.Config, actions: nat) {
    && 2 <= n.classes <= 16 && 1 <= n.computations <= 8 && 2 <= n.outcomes <= 8
    && actions == n.computations + n.classes + 1 && StateCount(n) <= 4096
  }

  predicate ConfigOk(c: Config) {
    && c.inputs >= 1 && c.hidden >= 1 && c.actions >= 2 && c.horizon >= 1
    && c.inputs <= BUDGET / c.hidden && c.hidden <= BUDGET / c.hidden && c.actions <= BUDGET / c.hidden
    && (c.meta.Some? ==> MetaOk(c.meta.value, c.actions))
  }

  /** The reference-coded indicators of one variable, of every variable, and of every pair. */
  function Unary(n: MetaBeliefs.Config): int { n.classes - 1 + n.computations * (n.outcomes - 1) }

  function PairsAmong(k: nat, card: int): int {
    if k == 0 then 0 else PairsAmong(k - 1, card) + (k - 1) * (card - 1) * (card - 1)
  }

  function Factors(n: MetaBeliefs.Config, r: Representation): int {
    if r == Independent then Unary(n)
    else Unary(n) + n.computations * (n.classes - 1) * (n.outcomes - 1) + PairsAmong(n.computations, n.outcomes)
  }

  // The tensors of each part, as fans in the order they are laid: sources and targets of every fan.

  function BaseFans(b: Base): seq<Fan> {
    [Fan([b.inputs, b.hidden, [b.biasInput], [b.biasHidden]], b.gates), Fan([b.hidden, [b.biasInput]], b.actions),
     Fan([b.hidden, [b.biasInput]], b.value), Fan([b.hidden, [b.biasInput]], b.success),
     Fan([b.hidden + b.actions, [b.biasInput]], b.world)]
  }

  function MetaFans(b: Base, m: Option<Meta>): seq<Fan> {
    if m.None? then []
    else [Fan([b.hidden, [b.biasInput]], m.value.joints), Fan([b.hidden, [b.biasInput]], m.value.rewards)]
  }

  function Phase2Fans(b: Base, p: Option<Phase2>): seq<Fan> {
    if p.None? || p.value.representation == Categorical then [] else [Fan([b.hidden, [b.biasInput]], p.value.nodes)]
  }

  function Phase4Fans(b: Base, p: Option<Phase4>): seq<Fan> {
    if p.None? then []
    else [Fan([p.value.features, [b.biasInput]], p.value.hidden), Fan([p.value.hidden, [b.biasInput]], p.value.actions),
          Fan([p.value.hidden, [b.biasInput]], p.value.value)]
  }

  /** Parameters outside the tensors: the stopping weights and the temperatures. */
  function ExtraFans(b: Base, m: Option<Meta>): seq<Fan> {
    [Fan([[b.biasInput]], b.bmps)] + if m.None? then [] else [Fan([[b.biasInput]], m.value.temperatures)]
  }

  function AllFans(m: Model): seq<Fan> {
    BaseFans(m.base) + MetaFans(m.base, m.meta) + Phase2Fans(m.base, m.phase2) + Phase4Fans(m.base, m.phase4)
  }

  function BaseIds(b: Base): seq<int> {
    b.inputs + b.hidden + b.gates + b.actions + b.success + b.value + b.world + b.bmps + [b.biasInput, b.biasHidden]
  }

  function MetaIds(m: Option<Meta>): seq<int> {
    if m.Some? then m.value.joints + m.value.rewards + m.value.temperatures else []
  }

  function Phase2Ids(p: Option<Phase2>): seq<int> { if p.Some? then p.value.nodes else [] }

  function Phase4Ids(p: Option<Phase4>): seq<int> {
    if p.Some? then p.value.features + p.value.hidden + p.value.actions + p.value.value else []
  }

  /** The neurons of the circuit, in the order the validator lists them. */
  function Ids(m: Model): seq<int> {
    BaseIds(m.base) + MetaIds(m.meta) + Phase2Ids(m.phase2) + Phase4Ids(m.phase4)
  }

  // ---------- Laying tensors ----------

  function Places(froms: seq<seq<int>>, to: seq<int>, offset: nat): (r: seq<Tensor>)
    ensures |r| == |froms|
  {
    if froms == [] then []
    else
      var front, last := froms[..|froms| - 1], froms[|froms| - 1];
      Places(front, to, offset) + [Tensor(offset + |Grids(front, to)|, |to|, |last|)]
  }

  /** Each fan's tensors start where all edges before it end. */
  ghost predicate Placed(done: seq<Fan>, fans: seq<Fan>, groups: seq<seq<Tensor>>) {
    && |groups| == |fans|
    && forall k | 0 <= k < |fans| :: groups[k] == Places(fans[k].froms, fans[k].to, |EdgesOf(done + fans[..k])|)
  }

  lemma FanStep(done: seq<Fan>, fans: seq<Fan>, k: nat)
    requires k < |fans|
    ensures EdgesOf(done + fans[..k + 1]) == EdgesOf(done + fans[..k]) + Grids(fans[k].froms, fans[k].to)
  {
    assert (done + fans[..k + 1])[..|done| + k] == done + fans[..k];
  }

  lemma GridsStep(froms: seq<seq<int>>, to: seq<int>, k: nat, offset: nat)
    requires k < |froms|
    ensures Grids(froms[..k + 1], to) == Grids(froms[..k], to) + Grid(froms[k], to)
    ensures Places(froms[..k + 1], to, offset) == Places(froms[..k], to, offset) + [Tensor(offset + |Grids(froms[..k], to)|, |to|, |froms[k]|)]
  {
    assert froms[..k + 1][..k] == froms[..k];
  }

  /** One tensor: rows are targets, columns are sources. */
  method LayTensor(edges: seq<Edge>, from: seq<int>, to: seq<int>) returns (more: seq<Edge>, t: Tensor)
    ensures more == edges + Grid(from, to) && t == Tensor(|edges|, |to|, |from|)
  {
    t := Tensor(|edges|, |to|, |from|);
    more := edges;
    for b := 0 to |to|
      invariant more == edges + Grid(from, to[..b])
    {
      assert to[..b + 1][..b] == to[..b];
      ghost var before := more;
      for a := 0 to |from|
        invariant more == before + Row(from, to[b])[..a]
      {
        assert Row(from, to[b])[..a + 1] == Row(from, to[b])[..a] + [Edge(from[a], to[b])];
        more := more + [Edge(from[a], to[b])];
      }
      assert Row(from, to[b])[..|from|] == Row(from, to[b]);
    }
    assert to[..|to|] == to;
  }

  method LayFan(edges: seq<Edge>, f: Fan) returns (more: seq<Edge>, group: seq<Tensor>)
    ensures more == edges + Grids(f.froms, f.to) && group == Places(f.froms, f.to, |edges|)
  {
    hide Grid;
    more, group := edges, [];
    for i := 0 to |f.froms|
      invariant more == edges + Grids(f.froms[..i], f.to) && group == Places(f.froms[..i], f.to, |edges|)
    {
      GridsStep(f.froms, f.to, i, |edges|);
      var t;
      more, t := LayTensor(more, f.froms[i], f.to);
      group := group + [t];
    }
    assert f.froms[..|f.froms|] == f.froms;
  }

  method LayFans(edges: seq<Edge>, ghost done: seq<Fan>, fans: seq<Fan>) returns (more: seq<Edge>, groups: seq<seq<Tensor>>)
    requires edges == EdgesOf(done)
    ensures more == EdgesOf(done + fans) && Placed(done, fans, groups)
  {
    hide EdgesOf, Grids, Places;
    more, groups := edges, [];
    assert done + fans[..0] == done;
    for k := 0 to |fans|
      invariant more == EdgesOf(done + fans[..k]) && |groups| == k
      invariant forall j | 0 <= j < k :: groups[j] == Places(fans[j].froms, fans[j].to, |EdgesOf(done + fans[..j])|)
    {
      FanStep(done, fans, k);
      var group;
      more, group := LayFan(more, fans[k]);
      groups := groups + [group];
    }
    assert fans[..|fans|] == fans;
  }

  // ---------- Replaying tensors ----------

  /** The validator's tensor check: shape and offset first, then the edges it expects. */
  method ReplayFan(expected: seq<Edge>, f: Fan, group: seq<Tensor>) returns (ok: bool, more: seq<Edge>)
    ensures ok <==> group == Places(f.froms, f.to, |expected|)
    ensures ok ==> more == expected + Grids(f.froms, f.to)
  {
    hide Grid, Grids;
    more := expected;
    if |group| != |f.froms| { return false, more; }
    NoGrids(f.to);
    for i := 0 to |f.froms|
      invariant more == expected + Grids(f.froms[..i], f.to) && group[..i] == Places(f.froms[..i], f.to, |expected|)
    {
      GridsStep(f.froms, f.to, i, |expected|);
      if group[i] != Tensor(|more|, |f.to|, |f.froms[i]|) {
        PlacesPrefix(f.froms, f.to, |expected|, i + 1);
        return false, more;
      }
      var t;
      more, t := LayTensor(more, f.froms[i], f.to);
      assert group[..i + 1] == group[..i] + [group[i]];
    }
    assert f.froms[..|f.froms|] == f.froms && group[..|group|] == group;
    ok := true;
  }

  lemma NoGrids(to: seq<int>)
    ensures Grids([], to) == []
  {
  }

  lemma {:induction false} PlacesPrefix(froms: seq<seq<int>>, to: seq<int>, offset: nat, k: nat)
    requires k <= |froms|
    ensures Places(froms, to, offset)[..k] == Places(froms[..k], to, offset)
    decreases |froms|
  {
    hide Grids;
    if k < |froms| {
      var front := froms[..|froms| - 1];
      PlacesPrefix(front, to, offset, k);
      assert front[..k] == froms[..k];
      assert Places(froms, to, offset)[..k] == Places(front, to, offset)[..k];
    } else {
      assert froms[..k] == froms;
    }
  }

  method ReplayFans(expected: seq<Edge>, ghost done: seq<Fan>, fans: seq<Fan>, groups: seq<seq<Tensor>>)
    returns (ok: bool, more: seq<Edge>)
    requires expected == EdgesOf(done)
    ensures ok <==> Placed(done, fans, groups)
    ensures ok ==> more == EdgesOf(done + fans)
  {
    hide EdgesOf, Grids, Places;
    more := expected;
    if |groups| != |fans| { return false, more; }
    assert done + fans[..0] == done;
    for k := 0 to |fans|
      invariant more == EdgesOf(done + fans[..k])
      invariant forall j | 0 <= j < k :: groups[j] == Places(fans[j].froms, fans[j].to, |EdgesOf(done + fans[..j])|)
    {
      FanStep(done, fans, k);
      ok, more := ReplayFan(more, fans[k], groups[k]);
      if !ok { return; }
    }
    assert fans[..|fans|] == fans;
    ok := true;
  }

  // ---------- The topology that the validator accepts ----------

  datatype Signed = Signed(source: int, target: int, inhibitory: bool)

  predicate BaseShaped(b: Base, c: Config) {
    && |b.inputs| == c.inputs && |b.hidden| == c.hidden && |b.gates| == 3 * c.hidden && |b.actions| == c.actions
    && |b.success| == 5 && |b.value| == 1 && |b.world| == c.inputs && |b.bmps| == 4
  }

  predicate Shaped(m: Model) {
    var c, b := m.config, m.base;
    && BaseShaped(b, c)
    && m.meta.Some? == c.meta.Some?
    && (m.meta.Some? ==>
          |m.meta.value.joints| == StateCount(c.meta.value) && |m.meta.value.rewards| == 1 && |m.meta.value.temperatures| == 6)
    && (m.phase2.Some? ==> m.meta.Some? && Shaped2(m.phase2.value, m.meta.value, c.meta.value))
    && (m.phase4.Some? ==> c.hidden == 32 && c.actions == 8 && m.phase2.Some? && Shaped4(m.phase4.value))
  }

  /** A categorical second phase reuses the first world tensors; the others have one row per factor. */
  predicate Shaped2(p: Phase2, meta: Meta, n: MetaBeliefs.Config) {
    if p.representation == Categorical then p.nodes == [] && |meta.tensors| > 0 && p.tensors == [meta.tensors[0]]
    else |p.nodes| == Factors(n, p.representation)
  }

  predicate Shaped4(p: Phase4) {
    |p.features| == 58 && |p.hidden| == 16 && |p.actions| == 8 && |p.value| == 1
  }

  function Before2(m: Model): seq<Fan> { BaseFans(m.base) + MetaFans(m.base, m.meta) }

  function Before4(m: Model): seq<Fan> { Before2(m) + Phase2Fans(m.base, m.phase2) }

  ghost predicate Laid(m: Model) {
    && Placed([], BaseFans(m.base), m.base.tensors)
    && (m.meta.Some? ==> Placed(BaseFans(m.base), MetaFans(m.base, m.meta), m.meta.value.tensors))
    && (m.phase2.Some? ==> m.phase2.value.baseParameters == |EdgesOf(Before2(m))|)
    && (m.phase2.Some? && m.phase2.value.representation != Categorical ==>
          Placed(Before2(m), Phase2Fans(m.base, m.phase2), m.phase2.value.tensors))
    && (m.phase4.Some? ==> m.phase4.value.baseParameters == |EdgesOf(Before4(m))|)
    && (m.phase4.Some? ==> Placed(Before4(m), Phase4Fans(m.base, m.phase4), m.phase4.value.tensors))
    && m.edges == EdgesOf(AllFans(m))
  }

  ghost predicate Optimized(m: Model) {
    && |m.firstMoment| == |m.secondMoment| == |m.edges|
    && forall i | 0 <= i < |m.secondMoment| :: m.secondMoment[i] >= 0.0
  }

  function Members(xs: seq<int>): set<int> { set x | x in xs }

  function UnitOf(population: seq<int>): int
    requires |population| == 1
  {
    population[0]
  }

  /** Exactly one single-unit population for every cognitive neuron. */
  ghost predicate Populated(populations: seq<seq<int>>, ids: seq<int>) {
    && (forall i | 0 <= i < |populations| :: Serves(populations[i], ids))
    && Distinct(populations) && |populations| == |ids|
  }

  predicate Serves(population: seq<int>, ids: seq<int>) { |population| == 1 && UnitOf(population) in ids }

  /** Exactly one excitatory and one inhibitory synapse for every parameter, and no synapse across the circuit's border. */
  ghost predicate Wired(synapses: seq<Signed>, ids: seq<int>, parameters: seq<Edge>) {
    && (forall s | s in synapses :: s.source in ids <==> s.target in ids)
    && (forall s | s in synapses && s.source in ids :: Edge(s.source, s.target) in parameters)
    && (forall e, inhibitory: bool | e in parameters :: Signed(e.source, e.target, inhibitory) in synapses)
    && (forall i, j | 0 <= i < j < |synapses| && synapses[i].source in ids :: synapses[i] != synapses[j])
  }

  function Parameters(m: Model): seq<Edge> { m.edges + EdgesOf(ExtraFans(m.base, m.meta)) }

  ghost predicate Topology(m: Model, known: set<int>, populations: seq<seq<int>>, synapses: seq<Signed>) {
    && ConfigOk(m.config) && Shaped(m)
    && Distinct(Ids(m)) && 0 !in Ids(m) && (forall id | id in Ids(m) :: id in known)
    && Populated(populations, Ids(m)) && Laid(m) && Optimized(m) && Wired(synapses, Ids(m), Parameters(m))
  }

  // ---------- What the shape implies ----------

  lemma {:induction false} EdgesJoin(a: seq<Fan>, b: seq<Fan>)
    ensures EdgesOf(a + b) == EdgesOf(a) + EdgesOf(b)
  {
    hide Grids;
    if b == [] {
      assert a + b == a;
    } else {
      assert (a + b)[..|a + b| - 1] == a + b[..|b| - 1];
      EdgesJoin(a, b[..|b| - 1]);
    }
  }

  lemma {:induction false} TargetsJoin(a: seq<Fan>, b: seq<Fan>)
    ensures TargetsOf(a + b) == TargetsOf(a) + TargetsOf(b)
  {
    if b == [] {
      assert a + b == a;
    } else {
      assert (a + b)[..|a + b| - 1] == a + b[..|b| - 1];
      TargetsJoin(a, b[..|b| - 1]);
    }
  }

  lemma OneTarget(f: Fan)
    ensures TargetsOf([f]) == f.to && TargetsOf([]) == []
  {
    assert [f][..0] == [];
  }

  lemma TwoTargets(f: Fan, g: Fan)
    ensures TargetsOf([f, g]) == f.to + g.to
  {
    hide TargetsOf;
    OneTarget(f);
    OneTarget(g);
    TargetsJoin([f], [g]);
    assert [f, g] == [f] + [g];
  }

  /** A fan of two tensors, spelled out. */
  lemma PairFan(a: seq<int>, b: seq<int>, to: seq<int>)
    ensures |Grids([a, b], to)| == |to| * |a| + |to| * |b|
    ensures EdgesOf([Fan([a, b], to)]) == Grids([a, b], to) && TargetsOf([Fan([a, b], to)]) == to
    ensures Flat([a, b]) == a + b
  {
    assert [a, b][..1] == [a] && [a][..0] == [];
    assert Grids([a], to) == Grids([], to) + Grid(a, to);
    assert Flat([a]) == Flat([]) + a;
    assert [Fan([a, b], to)][..0] == [];
  }

  /** Phase IV adds exactly 1097 parameters. */
  lemma Phase4Adds(b: Base, p: Phase4)
    requires Shaped4(p)
    ensures |EdgesOf(Phase4Fans(b, Some(p)))| == PHASE4_PARAMETERS
  {
    hide EdgesOf, Grids;
    var f, g, h := Fan([p.features, [b.biasInput]], p.hidden), Fan([p.hidden, [b.biasInput]], p.actions), Fan([p.hidden, [b.biasInput]], p.value);
    PairFan(p.features, [b.biasInput], p.hidden);
    PairFan(p.hidden, [b.biasInput], p.actions);
    PairFan(p.hidden, [b.biasInput], p.value);
    EdgesJoin([f], [g]);
    EdgesJoin([f] + [g], [h]);
    assert Phase4Fans(b, Some(p)) == [f] + [g] + [h];
  }

  /** Every target of the complete circuit is one of its neurons, once. */
  lemma TargetsAreIds(m: Model)
    ensures multiset(TargetsOf(AllFans(m) + ExtraFans(m.base, m.meta))) <= multiset(Ids(m))
  {
    hide TargetsOf, BaseFans, MetaFans, Phase2Fans, Phase4Fans, ExtraFans;
    var b := m.base;
    BaseTargets(b);
    MetaTargets(b, m.meta);
    Phase2Targets(b, m.phase2);
    Phase4Targets(b, m.phase4);
    TargetsJoin(BaseFans(b), MetaFans(b, m.meta));
    TargetsJoin(BaseFans(b) + MetaFans(b, m.meta), Phase2Fans(b, m.phase2));
    TargetsJoin(BaseFans(b) + MetaFans(b, m.meta) + Phase2Fans(b, m.phase2), Phase4Fans(b, m.phase4));
    TargetsJoin(AllFans(m), ExtraFans(b, m.meta));
    TargetBag(b);
    var heads := b.gates + b.actions + b.value + b.success + b.world;
    Combined(multiset(heads), multiset(b.bmps), multiset(BaseIds(b)), MetaIds(m.meta), Phase2Ids(m.phase2), Phase4Ids(m.phase4),
             if m.meta.Some? then m.meta.value.joints + m.meta.value.rewards else [],
             if m.meta.Some? then m.meta.value.temperatures else [],
             if m.phase2.Some? && m.phase2.value.representation != Categorical then m.phase2.value.nodes else [],
             if m.phase4.Some? then m.phase4.value.hidden + m.phase4.value.actions + m.phase4.value.value else []);
  }

  lemma TargetBag(b: Base)
    ensures multiset(b.gates + b.actions + b.value + b.success + b.world) + multiset(b.bmps) <= multiset(BaseIds(b))
  {
  }

  lemma RecurrentBag(b: Base)
    ensures multiset(b.inputs) + multiset(b.hidden) + multiset([b.biasInput]) + multiset([b.biasHidden]) <= multiset(BaseIds(b))
  {
  }

  lemma WorldBag(b: Base)
    ensures multiset(b.hidden) + multiset(b.actions) + multiset([b.biasInput]) <= multiset(BaseIds(b))
  {
  }

  lemma Combined(heads: multiset<int>, bmps: multiset<int>, base: multiset<int>, meta: seq<int>, p2: seq<int>, p4: seq<int>,
                 metaTargets: seq<int>, temperatures: seq<int>, nodes: seq<int>, targets4: seq<int>)
    requires heads + bmps <= base
    requires multiset(metaTargets) + multiset(temperatures) <= multiset(meta)
    requires multiset(nodes) <= multiset(p2) && multiset(targets4) <= multiset(p4)
    ensures heads + multiset(metaTargets) + multiset(nodes) + multiset(targets4) + (bmps + multiset(temperatures))
            <= base + multiset(meta) + multiset(p2) + multiset(p4)
  {
  }

  lemma BaseTargets(b: Base)
    ensures TargetsOf(BaseFans(b)) == b.gates + b.actions + b.value + b.success + b.world
  {
    hide TargetsOf;
    var fs := BaseFans(b);
    TwoTargets(fs[0], fs[1]);
    TwoTargets(fs[2], fs[3]);
    OneTarget(fs[4]);
    TargetsJoin([fs[0], fs[1]], [fs[2], fs[3]]);
    TargetsJoin([fs[0], fs[1]] + [fs[2], fs[3]], [fs[4]]);
    assert fs == [fs[0], fs[1]] + [fs[2], fs[3]] + [fs[4]];
  }

  lemma MetaTargets(b: Base, m: Option<Meta>)
    ensures TargetsOf(MetaFans(b, m)) == if m.Some? then m.value.joints + m.value.rewards else []
    ensures TargetsOf(ExtraFans(b, m)) == b.bmps + if m.Some? then m.value.temperatures else []
  {
    hide TargetsOf;
    var x := ExtraFans(b, m);
    OneTarget(x[0]);
    if m.Some? {
      var fs := MetaFans(b, m);
      TwoTargets(fs[0], fs[1]);
      TwoTargets(x[0], x[1]);
      assert fs == [fs[0], fs[1]] && x == [x[0], x[1]];
    } else {
      assert x == [x[0]];
    }
  }

  lemma Phase2Targets(b: Base, p: Option<Phase2>)
    ensures TargetsOf(Phase2Fans(b, p)) == if p.Some? && p.value.representation != Categorical then p.value.nodes else []
  {
    hide TargetsOf;
    OneTarget(Fan([b.hidden, [b.biasInput]], if p.Some? then p.value.nodes else []));
  }

  lemma Phase4Targets(b: Base, p: Option<Phase4>)
    ensures TargetsOf(Phase4Fans(b, p)) == if p.Some? then p.value.hidden + p.value.actions + p.value.value else []
  {
    hide TargetsOf;
    if p.Some? {
      var fs := Phase4Fans(b, p);
      TwoTargets(fs[0], fs[1]);
      OneTarget(fs[2]);
      TargetsJoin([fs[0], fs[1]], [fs[2]]);
      assert fs == [fs[0], fs[1]] + [fs[2]];
    } else {
      OneTarget(Fan([], []));
    }
  }

  ghost predicate SourcesWithin(fans: seq<Fan>, ids: multiset<int>) {
    forall i | 0 <= i < |fans| :: multiset(Flat(fans[i].froms)) <= ids
  }

  lemma SourcesJoin(a: seq<Fan>, b: seq<Fan>, ids: multiset<int>)
    requires SourcesWithin(a, ids) && SourcesWithin(b, ids)
    ensures SourcesWithin(a + b, ids)
  {
    hide Flat;
  }

  /** Sources and bias together are part of the circuit. */
  ghost predicate Biased(from: seq<int>, bias: int, ids: multiset<int>) {
    multiset(from) + multiset([bias]) <= ids
  }

  lemma BiasedFan(from: seq<int>, bias: int, to: seq<int>, ids: multiset<int>)
    requires Biased(from, bias, ids)
    ensures SourcesWithin([Fan([from, [bias]], to)], ids)
  {
    PairFan(from, [bias], to);
  }

  lemma SourcesAreIds(m: Model)
    ensures SourcesWithin(AllFans(m) + ExtraFans(m.base, m.meta), multiset(Ids(m)))
  {
    hide SourcesWithin, Biased, BaseIds;
    var b, ids := m.base, multiset(Ids(m));
    Biases(m);
    BaseSources(b, ids);
    MetaSources(b, m.meta, ids);
    Phase2Sources(b, m.phase2, ids);
    Phase4Sources(b, m.phase4, ids);
    SourcesJoin(BaseFans(b), MetaFans(b, m.meta), ids);
    SourcesJoin(BaseFans(b) + MetaFans(b, m.meta), Phase2Fans(b, m.phase2), ids);
    SourcesJoin(BaseFans(b) + MetaFans(b, m.meta) + Phase2Fans(b, m.phase2), Phase4Fans(b, m.phase4), ids);
    SourcesJoin(AllFans(m), ExtraFans(b, m.meta), ids);
  }

  lemma Biases(m: Model)
    ensures var ids, b := multiset(Ids(m)), m.base;
            && Biased(b.hidden, b.biasInput, ids) && Biased(b.hidden + b.actions, b.biasInput, ids) && Biased([], b.biasInput, ids)
            && Biased(b.inputs + b.hidden + [b.biasHidden], b.biasInput, ids)
            && (m.phase4.Some? ==>
                  Biased(m.phase4.value.features, b.biasInput, ids) && Biased(m.phase4.value.hidden, b.biasInput, ids))
  {
    var ids, b := multiset(Ids(m)), m.base;
    RecurrentBag(b);
    WorldBag(b);
    WholeBag(BaseIds(b), MetaIds(m.meta), Phase2Ids(m.phase2), Phase4Ids(m.phase4));
    hide BaseIds, MetaIds, Phase2Ids;
    if m.phase4.Some? {
      Phase4Bag(m.phase4.value);
      BothWithin(multiset(m.phase4.value.features), multiset([b.biasInput]), multiset(Phase4Ids(m.phase4)), multiset(BaseIds(b)));
      BothWithin(multiset(m.phase4.value.hidden), multiset([b.biasInput]), multiset(Phase4Ids(m.phase4)), multiset(BaseIds(b)));
    }
  }

  lemma WholeBag(a: seq<int>, b: seq<int>, c: seq<int>, d: seq<int>)
    ensures multiset(d) + multiset(a) <= multiset(a + b + c + d) && multiset(a) <= multiset(a + b + c + d)
  {
  }

  lemma Phase4Bag(p: Phase4)
    ensures multiset(p.features) <= multiset(Phase4Ids(Some(p))) && multiset(p.hidden) <= multiset(Phase4Ids(Some(p)))
  {
  }

  lemma BaseSources(b: Base, ids: multiset<int>)
    requires Biased(b.hidden, b.biasInput, ids) && Biased(b.hidden + b.actions, b.biasInput, ids)
    requires Biased(b.inputs + b.hidden + [b.biasHidden], b.biasInput, ids)
    ensures SourcesWithin(BaseFans(b), ids)
  {
    var fs := BaseFans(b);
    FourSources(b.inputs, b.hidden, b.biasInput, b.biasHidden, ids);
    assert SourcesWithin([fs[0]], ids);
    hide SourcesWithin, Biased, Flat, Grids, EdgesOf;
    BiasedFan(b.hidden, b.biasInput, b.actions, ids);
    BiasedFan(b.hidden, b.biasInput, b.value, ids);
    BiasedFan(b.hidden, b.biasInput, b.success, ids);
    BiasedFan(b.hidden + b.actions, b.biasInput, b.world, ids);
    FiveSources(fs, ids);
  }

  lemma FiveSources(fs: seq<Fan>, ids: multiset<int>)
    requires |fs| == 5 && forall i | 0 <= i < 5 :: SourcesWithin([fs[i]], ids)
    ensures SourcesWithin(fs, ids)
  {
    hide Flat;
    forall i | 0 <= i < 5 ensures multiset(Flat(fs[i].froms)) <= ids { assert [fs[i]][0] == fs[i]; }
  }

  lemma MetaSources(b: Base, m: Option<Meta>, ids: multiset<int>)
    requires Biased(b.hidden, b.biasInput, ids) && Biased([], b.biasInput, ids)
    ensures SourcesWithin(MetaFans(b, m), ids) && SourcesWithin(ExtraFans(b, m), ids)
  {
    FlatOne([b.biasInput]);
    if m.Some? {
      BiasedFan(b.hidden, b.biasInput, m.value.joints, ids);
      BiasedFan(b.hidden, b.biasInput, m.value.rewards, ids);
      SourcesJoin([MetaFans(b, m)[0]], [MetaFans(b, m)[1]], ids);
      assert MetaFans(b, m) == [MetaFans(b, m)[0]] + [MetaFans(b, m)[1]];
    }
  }

  lemma Phase2Sources(b: Base, p: Option<Phase2>, ids: multiset<int>)
    requires Biased(b.hidden, b.biasInput, ids)
    ensures SourcesWithin(Phase2Fans(b, p), ids)
  {
    if p.Some? { BiasedFan(b.hidden, b.biasInput, p.value.nodes, ids); }
  }

  lemma Phase4Sources(b: Base, p: Option<Phase4>, ids: multiset<int>)
    requires p.Some? ==> Biased(p.value.features, b.biasInput, ids) && Biased(p.value.hidden, b.biasInput, ids)
    ensures SourcesWithin(Phase4Fans(b, p), ids)
  {
    hide Biased, Flat;
    if p.Some? {
      var fs := Phase4Fans(b, p);
      BiasedFan(p.value.features, b.biasInput, p.value.hidden, ids);
      BiasedFan(p.value.hidden, b.biasInput, p.value.actions, ids);
      BiasedFan(p.value.hidden, b.biasInput, p.value.value, ids);
      SourcesJoin([fs[0]], [fs[1]], ids);
      SourcesJoin([fs[0]] + [fs[1]], [fs[2]], ids);
      assert fs == [fs[0]] + [fs[1]] + [fs[2]];
    }
  }

  lemma BothWithin(a: multiset<int>, b: multiset<int>, p: multiset<int>, q: multiset<int>)
    requires a <= p && b <= q
    ensures a + b <= p + q
  {
  }

  lemma FlatOne(a: seq<int>)
    ensures Flat([a]) == a
  {
    assert [a][..0] == [];
  }

  lemma FourSources(a: seq<int>, b: seq<int>, c: int, d: int, ids: multiset<int>)
    requires Biased(a + b + [d], c, ids)
    ensures multiset(Flat([a, b, [c], [d]])) <= ids
  {
    var fs := [a, b, [c], [d]];
    assert fs[..3] == [a, b, [c]] && fs[..3][..2] == [a, b];
    PairFan(a, b, []);
    assert Flat([a, b, [c]]) == Flat([a, b]) + [c];
    assert Flat(fs) == a + b + [c] + [d];
    assert multiset(a + b + [c] + [d]) == multiset(a + b + [d]) + multiset([c]);
  }

  /** No parameter is repeated, and every parameter joins two neurons of the circuit. */
  lemma ParametersAreDistinct(m: Model)
    requires Distinct(Ids(m)) && m.edges == EdgesOf(AllFans(m))
    ensures Distinct(Parameters(m)) && Distinct(m.edges)
    ensures forall e | e in Parameters(m) :: e.source in Ids(m) && e.target in Ids(m)
  {
    hide AllFans, ExtraFans, EdgesOf, TargetsOf, Flat, Ids;
    var fans := AllFans(m) + ExtraFans(m.base, m.meta);
    EdgesJoin(AllFans(m), ExtraFans(m.base, m.meta));
    TargetsAreIds(m);
    SourcesAreIds(m);
    PartIsOnce(multiset(TargetsOf(fans)), multiset(Ids(m)));
    forall i | 0 <= i < |fans| ensures Distinct(Flat(fans[i].froms)) {
      PartIsOnce(multiset(Flat(fans[i].froms)), multiset(Ids(m)));
    }
    FansAreDistinct(fans);
    DistinctParts(m.edges, EdgesOf(ExtraFans(m.base, m.meta)));
    forall e | e in Parameters(m) ensures e.source in Ids(m) && e.target in Ids(m) {
      EdgesReachTargets(fans, e);
      assert e.target in multiset(TargetsOf(fans));
      var i := EdgeFan(fans, e);
      assert e.source in multiset(Flat(fans[i].froms));
    }
  }

  lemma {:induction false} EdgeFan(fans: seq<Fan>, e: Edge) returns (i: nat)
    requires e in EdgesOf(fans)
    ensures i < |fans| && e.source in Flat(fans[i].froms) && e.target in fans[i].to
  {
    var last := fans[|fans| - 1];
    if e in EdgesOf(fans[..|fans| - 1]) {
      i := EdgeFan(fans[..|fans| - 1], e);
    } else {
      GridsMember(last.froms, last.to, e);
      i := |fans| - 1;
    }
  }

  // ---------- Flat places ----------

  /** The flat place of a parameter: fan, tensor of the fan, row and column. */
  datatype Place = Place(fan: nat, tensor: nat, row: nat, col: nat)

  predicate InFans(x: Place, fans: seq<Fan>) {
    && x.fan < |fans| && x.tensor < |fans[x.fan].froms|
    && x.row < |fans[x.fan].to| && x.col < |fans[x.fan].froms[x.tensor]|
  }

  function EdgeAt(x: Place, fans: seq<Fan>): Edge
    requires InFans(x, fans)
  {
    Edge(fans[x.fan].froms[x.tensor][x.col], fans[x.fan].to[x.row])
  }

  function Index(x: Place, groups: seq<seq<Tensor>>): nat
    requires x.fan < |groups| && x.tensor < |groups[x.fan]|
  {
    var t := groups[x.fan][x.tensor];
    t.offset + x.row * t.cols + x.col
  }

  lemma {:induction false} EdgesPrefix(fans: seq<Fan>, k: nat)
    requires k <= |fans|
    ensures EdgesOf(fans[..k]) <= EdgesOf(fans)
    decreases |fans|
  {
    hide Grids;
    if k < |fans| {
      EdgesPrefix(fans[..|fans| - 1], k);
      assert fans[..|fans| - 1][..k] == fans[..k];
    } else {
      assert fans[..k] == fans;
    }
  }

  lemma {:induction false} GridsPrefix(froms: seq<seq<int>>, to: seq<int>, i: nat)
    requires i <= |froms|
    ensures Grids(froms[..i], to) <= Grids(froms, to)
    decreases |froms|
  {
    hide Grid;
    if i < |froms| {
      GridsPrefix(froms[..|froms| - 1], to, i);
      assert froms[..|froms| - 1][..i] == froms[..i];
    } else {
      assert froms[..i] == froms;
    }
  }

  lemma PlacesAt(froms: seq<seq<int>>, to: seq<int>, offset: nat, i: nat)
    requires i < |froms|
    ensures Places(froms, to, offset)[i] == Tensor(offset + |Grids(froms[..i], to)|, |to|, |froms[i]|)
  {
    hide Grids;
    PlacesPrefix(froms, to, offset, i + 1);
    assert froms[..i + 1][..i] == froms[..i];
    assert Places(froms, to, offset)[i] == Places(froms, to, offset)[..i + 1][i];
  }

  /** A tensor of k-th fan starts after all edges before it and holds its grid. */
  lemma TensorStarts(fans: seq<Fan>, groups: seq<seq<Tensor>>, k: nat, i: nat)
    requires Placed([], fans, groups) && k < |fans| && i < |fans[k].froms|
    ensures i < |groups[k]|
    ensures var t, f := groups[k][i], fans[k];
            var before := EdgesOf(fans[..k]) + Grids(f.froms[..i], f.to);
            && t == Tensor(|before|, |f.to|, |f.froms[i]|)
            && before + Grid(f.froms[i], f.to) <= EdgesOf(fans[..k]) + Grids(f.froms, f.to) <= EdgesOf(fans)
  {
    hide Grid, EdgesOf, Grids, Places;
    var f := fans[k];
    assert [] + fans[..k] == fans[..k];
    PlacesAt(f.froms, f.to, |EdgesOf(fans[..k])|, i);
    GridsStep(f.froms, f.to, i, 0);
    GridsPrefix(f.froms, f.to, i + 1);
    FanStep([], fans, k);
    assert [] + fans[..k + 1] == fans[..k + 1];
    EdgesPrefix(fans, k + 1);
  }

  /** Row and column address exactly the edge they should. */
  lemma PlaceHoldsEdge(fans: seq<Fan>, groups: seq<seq<Tensor>>, x: Place)
    requires Placed([], fans, groups) && InFans(x, fans)
    ensures x.tensor < |groups[x.fan]|
    ensures Index(x, groups) < |EdgesOf(fans)| && EdgesOf(fans)[Index(x, groups)] == EdgeAt(x, fans)
  {
    hide EdgesOf, Grids, Places, Grid;
    var f := fans[x.fan];
    TensorStarts(fans, groups, x.fan, x.tensor);
    GridAt(f.froms[x.tensor], f.to, x.row, x.col);
    var before := EdgesOf(fans[..x.fan]) + Grids(f.froms[..x.tensor], f.to);
    assert (before + Grid(f.froms[x.tensor], f.to))[Index(x, groups)] == EdgeAt(x, fans);
  }

  /** Every flat index is the index of some place. */
  lemma {:induction false} EveryIndexIsPlaced(fans: seq<Fan>, groups: seq<seq<Tensor>>, p: nat) returns (x: Place)
    requires Placed([], fans, groups) && p < |EdgesOf(fans)|
    ensures InFans(x, fans) && x.tensor < |groups[x.fan]| && Index(x, groups) == p
    decreases |fans|
  {
    hide Grids, Places, Grid;
    var n := |fans| - 1;
    assert [] + fans[..n] == fans[..n];
    if p < |EdgesOf(fans[..n])| {
      ShorterPlaced(fans, groups, n);
      x := EveryIndexIsPlaced(fans[..n], groups[..n], p);
    } else {
      var f := fans[n];
      var i, row, col := GridsPlace(f.froms, f.to, p - |EdgesOf(fans[..n])|);
      TensorStarts(fans, groups, n, i);
      x := Place(n, i, row, col);
    }
  }

  lemma ShorterPlaced(fans: seq<Fan>, groups: seq<seq<Tensor>>, n: nat)
    requires Placed([], fans, groups) && n <= |fans|
    ensures Placed([], fans[..n], groups[..n])
  {
    hide EdgesOf, Places;
    forall k | 0 <= k < n ensures fans[..n][..k] == fans[..k] {}
  }

  lemma {:induction false} GridsPlace(froms: seq<seq<int>>, to: seq<int>, q: nat) returns (i: nat, row: nat, col: nat)
    requires q < |Grids(froms, to)|
    ensures i < |froms| && row < |to| && col < |froms[i]| && q == |Grids(froms[..i], to)| + row * |froms[i]| + col
  {
    hide Grid;
    var n := |froms| - 1;
    if q < |Grids(froms[..n], to)| {
      i, row, col := GridsPlace(froms[..n], to, q);
      assert froms[..n][..i] == froms[..i];
    } else {
      i := n;
      row, col := GridPlace(froms[n], to, q - |Grids(froms[..n], to)|);
    }
  }

  predicate Precedes(x: Place, y: Place) {
    x.fan < y.fan || (x.fan == y.fan && (x.tensor < y.tensor || (x.tensor == y.tensor && (x.row < y.row || (x.row == y.row && x.col < y.col)))))
  }

  /** Tensors are laid one after another without overlap: places keep their order. */
  lemma PlacesRise(fans: seq<Fan>, groups: seq<seq<Tensor>>, x: Place, y: Place)
    requires Placed([], fans, groups) && InFans(x, fans) && InFans(y, fans) && Precedes(x, y)
    ensures x.tensor < |groups[x.fan]| && y.tensor < |groups[y.fan]| && Index(x, groups) < Index(y, groups)
  {
    hide EdgesOf, Grids, Grid, Placed, Places;
    TensorStarts(fans, groups, x.fan, x.tensor);
    TensorStarts(fans, groups, y.fan, y.tensor);
    var f, g := fans[x.fan], fans[y.fan];
    GridAt(f.froms[x.tensor], f.to, x.row, x.col);
    if x.fan < y.fan {
      FanStep([], fans, x.fan);
      assert [] + fans[..x.fan] == fans[..x.fan] && [] + fans[..x.fan + 1] == fans[..x.fan + 1];
      EdgesPrefix(fans[..y.fan], x.fan + 1);
      assert fans[..y.fan][..x.fan + 1] == fans[..x.fan + 1];
    } else if x.tensor < y.tensor {
      GridsStep(f.froms, f.to, x.tensor, 0);
      GridsPrefix(f.froms[..y.tensor], f.to, x.tensor + 1);
      assert f.froms[..y.tensor][..x.tensor + 1] == f.froms[..x.tensor + 1];
    } else {
      RowsRise(x.row, x.col, y.row, y.col, |f.froms[x.tensor]|);
    }
  }

  lemma RowsRise(r: nat, c: nat, s: nat, d: nat, n: nat)
    requires c < n && d < n && (r < s || (r == s && c < d))
    ensures r * n + c < s * n + d
  {
    if r < s { assert (r + 1) * n <= s * n; }
  }

  /** All tensors of a model, fan by fan. */
  function AllGroups(m: Model): seq<seq<Tensor>> {
    m.base.tensors + (if m.meta.Some? then m.meta.value.tensors else [])
    + (if m.phase2.Some? && m.phase2.value.representation != Categorical then m.phase2.value.tensors else [])
    + if m.phase4.Some? then m.phase4.value.tensors else []
  }

  lemma PlacedJoin(done: seq<Fan>, a: seq<Fan>, b: seq<Fan>, ga: seq<seq<Tensor>>, gb: seq<seq<Tensor>>)
    requires Placed(done, a, ga) && Placed(done + a, b, gb)
    ensures Placed(done, a + b, ga + gb)
  {
    hide EdgesOf, Places;
    forall k | 0 <= k < |a + b|
      ensures (ga + gb)[k] == Places((a + b)[k].froms, (a + b)[k].to, |EdgesOf(done + (a + b)[..k])|)
    {
      if k < |a| {
        assert (a + b)[..k] == a[..k];
      } else {
        assert done + (a + b)[..k] == done + a + b[..k - |a|];
      }
    }
  }

  lemma NonePlaced(done: seq<Fan>)
    ensures Placed(done, [], [])
  {
  }

  lemma AllPlaced(m: Model)
    requires Laid(m)
    ensures Placed([], AllFans(m), AllGroups(m))
  {
    hide EdgesOf, Placed, BaseFans;
    var b := m.base;
    assert [] + BaseFans(b) == BaseFans(b);
    NonePlaced(BaseFans(b));
    NonePlaced(Before2(m));
    NonePlaced(Before4(m));
    var g2 := if m.meta.Some? then m.meta.value.tensors else [];
    var g3 := if m.phase2.Some? && m.phase2.value.representation != Categorical then m.phase2.value.tensors else [];
    var g4 := if m.phase4.Some? then m.phase4.value.tensors else [];
    PlacedJoin([], BaseFans(b), MetaFans(b, m.meta), b.tensors, g2);
    assert [] + Before2(m) == Before2(m);
    PlacedJoin([], Before2(m), Phase2Fans(b, m.phase2), b.tensors + g2, g3);
    assert [] + Before4(m) == Before4(m);
    PlacedJoin([], Before4(m), Phase4Fans(b, m.phase4), b.tensors + g2 + g3, g4);
  }

  /** The flat parameter vector and the places of an accepted layout correspond one to one, and no edge
      carries two parameters. */
  lemma LayoutIsBijective(m: Model)
    requires Distinct(Ids(m)) && Laid(m)
    ensures forall x | InFans(x, AllFans(m)) ::
              && x.fan < |AllGroups(m)| && x.tensor < |AllGroups(m)[x.fan]| && Index(x, AllGroups(m)) < |m.edges|
              && m.edges[Index(x, AllGroups(m))] == EdgeAt(x, AllFans(m))
    ensures forall p: nat | p < |m.edges| :: IsPlaceOf(m, p)
    ensures forall p: nat, q: nat | p < q < |m.edges| :: m.edges[p] != m.edges[q]
  {
    hide EdgesOf, AllFans, AllGroups, Placed, Index, EdgeAt, Laid;
    AllPlaced(m);
    LaidEdges(m);
    PlacedSizes(AllFans(m), AllGroups(m));
    ParametersAreDistinct(m);
    forall x | InFans(x, AllFans(m))
      ensures x.tensor < |AllGroups(m)[x.fan]| && Index(x, AllGroups(m)) < |m.edges|
      ensures m.edges[Index(x, AllGroups(m))] == EdgeAt(x, AllFans(m))
    {
      PlaceHoldsEdge(AllFans(m), AllGroups(m), x);
    }
    forall p: nat | p < |m.edges| ensures IsPlaceOf(m, p) { OnePlace(m, p); }
    forall p: nat, q: nat | p < q < |m.edges| ensures m.edges[p] != m.edges[q] { DistinctAt(m.edges, p, q); }
  }

  lemma OnePlace(m: Model, p: nat)
    requires Placed([], AllFans(m), AllGroups(m)) && m.edges == EdgesOf(AllFans(m)) && p < |m.edges|
    ensures IsPlaceOf(m, p)
  {
    hide EdgesOf, AllFans, AllGroups, Placed, Index;
    PlacedSizes(AllFans(m), AllGroups(m));
    var x := EveryIndexIsPlaced(AllFans(m), AllGroups(m), p);
    assert IsAt(m, x, p);
    forall y | IsAt(m, y, p) ensures y == x {
      if Precedes(x, y) {
        PlacesRise(AllFans(m), AllGroups(m), x, y);
      } else if Precedes(y, x) {
        PlacesRise(AllFans(m), AllGroups(m), y, x);
      }
    }
  }

  /** p is the index of exactly one place. */
  ghost predicate IsPlaceOf(m: Model, p: nat) {
    exists x :: IsAt(m, x, p) && forall y | IsAt(m, y, p) :: y == x
  }

  predicate IsAt(m: Model, x: Place, p: nat) {
    && InFans(x, AllFans(m)) && x.fan < |AllGroups(m)| && x.tensor < |AllGroups(m)[x.fan]|
    && Index(x, AllGroups(m)) == p
  }

  lemma LaidEdges(m: Model)
    requires Laid(m)
    ensures m.edges == EdgesOf(AllFans(m))
  {
  }

  lemma PlacedSizes(fans: seq<Fan>, groups: seq<seq<Tensor>>)
    requires Placed([], fans, groups)
    ensures |groups| == |fans|
  {
  }

  // ---------- The validator ----------

  method CheckIds(ids: seq<int>, known: set<int>) returns (ok: bool, seen: set<int>)
    ensures ok <==> Distinct(ids) && 0 !in ids && forall id | id in ids :: id in known
    ensures ok ==> |seen| == |ids| && forall id :: id in seen <==> id in ids
  {
    seen := {};
    for i := 0 to |ids|
      invariant Distinct(ids[..i]) && |seen| == i && forall id :: id in seen <==> id in ids[..i]
      invariant 0 !in ids[..i] && forall id | id in ids[..i] :: id in known
    {
      assert ids[..i + 1] == ids[..i] + [ids[i]];
      if ids[i] == 0 || ids[i] !in known || ids[i] in seen {
        if ids[i] in ids[..i] { Repeated(ids, i); }
        assert ids[i] in ids;
        return false, seen;
      }
      DisjointJoin(ids[..i], [ids[i]]);
      seen := seen + {ids[i]};
    }
    assert ids[..|ids|] == ids;
    ok := true;
  }

  method CheckPopulations(populations: seq<seq<int>>, ids: seq<int>, seen: set<int>) returns (ok: bool)
    requires |seen| == |ids| && forall id :: id in seen <==> id in ids
    ensures ok <==> Populated(populations, ids)
  {
    hide Serves;
    var scoped: set<int> := {};
    for i := 0 to |populations|
      invariant |scoped| == i && forall id :: id in scoped <==> [id] in populations[..i]
      invariant forall j | 0 <= j < i :: Serves(populations[j], ids)
      invariant Distinct(populations[..i])
    {
      assert populations == populations[..i + 1] + populations[i + 1..];
      assert populations[..i + 1] == populations[..i] + [populations[i]];
      ServesWhen(populations[i], ids);
      if |populations[i]| != 1 { return false; }
      var id := UnitOf(populations[i]);
      assert id in seen <==> id in ids;
      if id !in seen { return false; }
      assert populations[i] == [id];
      if id in scoped {
        Repeated(populations, i);
        return false;
      }
      DisjointJoin(populations[..i], [populations[i]]);
      scoped := scoped + {id};
    }
    assert populations[..|populations|] == populations;
    ok := |scoped| == |seen|;
  }

  lemma ServesWhen(population: seq<int>, ids: seq<int>)
    ensures Serves(population, ids) <==> |population| == 1 && UnitOf(population) in ids
  {
  }

  lemma Repeated<T(!new)>(xs: seq<T>, i: nat)
    requires i < |xs| && xs[i] in xs[..i]
    ensures !Distinct(xs)
  {
    var j :| 0 <= j < i && xs[..i][j] == xs[i];
    if Distinct(xs) { DistinctAt(xs, j, i); }
  }

  ghost function SignedOf(edges: seq<Edge>): set<Signed> {
    set e, inhibitory: bool | e in edges :: Signed(e.source, e.target, inhibitory)
  }

  lemma {:induction false} SignedSize(edges: seq<Edge>)
    requires Distinct(edges)
    ensures |SignedOf(edges)| == 2 * |edges|
  {
    if edges == [] {
      assert SignedOf(edges) == {};
    } else {
      var rest, e := edges[..|edges| - 1], edges[|edges| - 1];
      assert edges == rest + [e];
      DistinctParts(rest, [e]);
      SignedSize(rest);
      var a, b := Signed(e.source, e.target, false), Signed(e.source, e.target, true);
      assert e in [e] && e !in rest;
      SignedStep(rest, e);
      NotSigned(rest, e);
      assert |SignedOf(rest) + {a}| == |SignedOf(rest)| + 1;
      assert |SignedOf(rest) + {a} + {b}| == |SignedOf(rest) + {a}| + 1;
    }
  }

  lemma SignedStep(rest: seq<Edge>, e: Edge)
    ensures SignedOf(rest + [e]) == SignedOf(rest) + {Signed(e.source, e.target, false)} + {Signed(e.source, e.target, true)}
  {
    var all := rest + [e];
    assert forall x :: x in all <==> x in rest || x == e;
    forall s ensures s in SignedOf(all) <==> s in SignedOf(rest) || s == Signed(e.source, e.target, s.inhibitory) {
      if s in SignedOf(all) {
        assert Edge(s.source, s.target) in all;
      }
      if s == Signed(e.source, e.target, s.inhibitory) { assert e in all; }
    }
  }

  lemma NotSigned(rest: seq<Edge>, e: Edge)
    requires e !in rest
    ensures forall inhibitory: bool :: Signed(e.source, e.target, inhibitory) !in SignedOf(rest)
  {
  }

  /** Counting suffices: since parameters are distinct, twice as many signed edges as parameters leaves
      no room for an unregistered one. */
  method CheckSynapses(synapses: seq<Signed>, ids: seq<int>, seen: set<int>, parameters: seq<Edge>) returns (ok: bool)
    requires Distinct(parameters) && forall id :: id in seen <==> id in ids
    requires forall e | e in parameters :: e.source in ids && e.target in ids
    ensures ok <==> Wired(synapses, ids, parameters)
  {
    var edges: set<Signed> := {};
    for i := 0 to |synapses|
      invariant forall s :: s in edges <==> s.source in ids && exists j :: 0 <= j < i && synapses[j] == s
      invariant forall j | 0 <= j < i :: synapses[j].source in ids <==> synapses[j].target in ids
      invariant forall j, k | 0 <= j < k < i && synapses[j].source in ids :: synapses[j] != synapses[k]
    {
      var s := synapses[i];
      assert s in synapses;
      if s.source in seen || s.target in seen {
        if s.source !in seen || s.target !in seen || s in edges { return false; }
        edges := edges + {s};
      }
    }
    SignedSize(parameters);
    for i := 0 to |parameters|
      invariant forall j | 0 <= j < i :: Signed(parameters[j].source, parameters[j].target, false) in edges
      invariant forall j | 0 <= j < i :: Signed(parameters[j].source, parameters[j].target, true) in edges
    {
      assert parameters[i] in parameters;
      if Signed(parameters[i].source, parameters[i].target, false) !in edges { return false; }
      if Signed(parameters[i].source, parameters[i].target, true) !in edges { return false; }
    }
    ok := |edges| == 2 * |parameters|;
    Registered(synapses, ids, parameters, edges);
  }

  lemma Registered(synapses: seq<Signed>, ids: seq<int>, parameters: seq<Edge>, edges: set<Signed>)
    requires forall s :: s in edges <==> s.source in ids && s in synapses
    requires forall s | s in synapses :: s.source in ids <==> s.target in ids
    requires forall i, j | 0 <= i < j < |synapses| && synapses[i].source in ids :: synapses[i] != synapses[j]
    requires Distinct(parameters) && SignedOf(parameters) <= edges
    ensures |edges| == 2 * |parameters| <==> Wired(synapses, ids, parameters)
  {
    SignedSize(parameters);
    SubsetSize(SignedOf(parameters), edges);
    if |edges| == 2 * |parameters| {
      forall s | s in synapses && s.source in ids ensures Edge(s.source, s.target) in parameters {
        assert s in SignedOf(parameters);
      }
    } else if Wired(synapses, ids, parameters) {
      forall s | s in edges ensures s in SignedOf(parameters) {
        assert s in synapses && Edge(s.source, s.target) in parameters;
        assert s == Signed(Edge(s.source, s.target).source, Edge(s.source, s.target).target, s.inhibitory);
      }
      assert edges <= SignedOf(parameters);
      SubsetSize(edges, SignedOf(parameters));
    }
  }

  /** The validator accepts exactly the topologies described above; its own count of the fourth phase
      never decides, because the shape already fixes it. */
  method Validate(m: Model, known: set<int>, populations: seq<seq<int>>, synapses: seq<Signed>) returns (ok: bool)
    ensures ok <==> Topology(m, known, populations, synapses)
  {
    hide EdgesOf, Placed, ConfigOk, Wired, Populated, Ids, BaseFans, Distinct;
    if !ConfigOk(m.config) || !Shaped(m) { return false; }
    var ids := Ids(m);
    var fine, seen := CheckIds(ids, known);
    if !fine { return false; }
    fine := CheckPopulations(populations, ids, seen);
    if !fine { return false; }
    var expected;
    fine, expected := ReplayModel(m);
    if !fine || expected != m.edges { return false; }
    if |m.firstMoment| != |m.edges| || |m.secondMoment| != |m.edges| { return false; }
    for i := 0 to |m.secondMoment|
      invariant forall j | 0 <= j < i :: m.secondMoment[j] >= 0.0
    {
      if m.secondMoment[i] < 0.0 { return false; }
    }
    ParametersAreDistinct(m);
    ok := CheckSynapses(synapses, ids, seen, Parameters(m));
  }

  method ReplayModel(m: Model) returns (ok: bool, expected: seq<Edge>)
    requires Shaped(m)
    ensures ok && expected == m.edges <==> Laid(m)
    ensures ok ==> expected == EdgesOf(AllFans(m))
  {
    hide EdgesOf, Placed, BaseFans, Shaped2, Shaped4;
    var b := m.base;
    NoEdgesYet();
    assert [] + BaseFans(b) == BaseFans(b);
    ok, expected := ReplayFans([], [], BaseFans(b), b.tensors);
    if !ok { return; }
    if m.meta.Some? {
      ok, expected := ReplayFans(expected, BaseFans(b), MetaFans(b, m.meta), m.meta.value.tensors);
      if !ok { return; }
    }
    assert m.meta.None? ==> Before2(m) == BaseFans(b);
    if m.phase2.Some? {
      if m.phase2.value.baseParameters != |expected| { return false, expected; }
      if m.phase2.value.representation != Categorical {
        ok, expected := ReplayFans(expected, Before2(m), Phase2Fans(b, m.phase2), m.phase2.value.tensors);
        if !ok { return; }
      }
    }
    assert Phase2Fans(b, m.phase2) == [] ==> Before4(m) == Before2(m);
    if m.phase4.Some? {
      if m.phase4.value.baseParameters != |expected| { return false, expected; }
      ok, expected := ReplayFans(expected, Before4(m), Phase4Fans(b, m.phase4), m.phase4.value.tensors);
      if !ok { return; }
      EdgesJoin(Before4(m), Phase4Fans(b, m.phase4));
      Phase4Adds(b, m.phase4.value);
      if |expected| - m.phase4.value.baseParameters != PHASE4_PARAMETERS { return false, expected; }
    }
    assert m.phase4.None? ==> AllFans(m) == Before4(m);
    ok := true;
  }

  lemma NoEdgesYet()
    ensures EdgesOf([]) == []
  {
  }

  // ---------- The builder ----------

  function Singles(ids: seq<int>): (r: seq<seq<int>>)
    ensures |r| == |ids|
  {
    seq(|ids|, i requires 0 <= i < |ids| => [ids[i]])
  }

  ghost predicate EndsBelow(synapses: seq<Signed>, next: int) {
    forall s | s in synapses :: s.source < next && s.target < next
  }

  ghost predicate IdsBelow(ids: seq<int>, next: int) {
    Distinct(ids) && forall id | id in ids :: 1 <= id < next
  }

  /** `after` holds the old neurons and n fresh ones. */
  ghost predicate Grown(after: seq<int>, ids: seq<int>, next: int, n: nat) {
    multiset(after) == multiset(ids) + multiset(Range(next, n))
  }

  lemma GrowIds(after: seq<int>, ids: seq<int>, next: int, n: nat)
    requires next >= 1 && IdsBelow(ids, next) && Grown(after, ids, next, n)
    ensures IdsBelow(after, next + n) && |after| == |ids| + n
    ensures forall id :: id in after <==> id in ids || next <= id < next + n
  {
    RangeIsDistinct(next, n);
    DisjointJoin(ids, Range(next, n));
    assert multiset(after) == multiset(ids + Range(next, n));
    forall id ensures id in after <==> id in ids || next <= id < next + n {
      assert id in after <==> id in multiset(after);
      assert id in multiset(ids) <==> id in ids;
      assert id in multiset(Range(next, n)) <==> id in Range(next, n);
    }
    assert |multiset(after)| == |multiset(ids)| + |multiset(Range(next, n))|;
  }

  lemma GrowPopulations(populations: seq<seq<int>>, after: seq<int>, ids: seq<int>, next: int, n: nat)
    requires next >= 1 && IdsBelow(ids, next) && Grown(after, ids, next, n) && Populated(populations, ids)
    ensures Populated(populations + Singles(Range(next, n)), after)
  {
    hide Grown;
    GrowIds(after, ids, next, n);
    var singles, all := Singles(Range(next, n)), populations + Singles(Range(next, n));
    forall i | 0 <= i < |all| ensures Serves(all[i], after) {
      if i < |populations| { assert Serves(populations[i], ids); } else { assert all[i] == [next + (i - |populations|)]; }
    }
    SinglesAreDistinct(next, n);
    forall p | p in populations ensures p !in singles {
      var i :| 0 <= i < |populations| && populations[i] == p;
      assert Serves(populations[i], ids);
      assert UnitOf(p) in ids;
    }
    DisjointJoin(populations, singles);
  }

  lemma {:induction false} SinglesAreDistinct(next: int, n: nat)
    ensures Distinct(Singles(Range(next, n)))
    ensures forall p | p in Singles(Range(next, n)) :: |p| == 1 && next <= UnitOf(p) < next + n
  {
    if n > 0 {
      SinglesAreDistinct(next, n - 1);
      var front, last := Singles(Range(next, n - 1)), [[next + n - 1]];
      assert Singles(Range(next, n)) == front + last;
      forall p | p in front ensures p !in last { assert UnitOf(p) < next + n - 1; }
      DisjointJoin(front, last);
    }
  }

  lemma GrowWiring(synapses: seq<Signed>, more: seq<Signed>, ids: seq<int>, after: seq<int>, next: int, n: nat,
                   parameters: seq<Edge>, entering: seq<Edge>, all: seq<Edge>)
    requires next >= 1 && IdsBelow(ids, next) && Grown(after, ids, next, n)
    requires Wired(synapses, ids, parameters) && EndsBelow(synapses, next)
    requires Distinct(more) && forall s :: s in more <==> s in synapses || s in SignedOf(entering)
    requires forall e | e in entering :: e.source in after && e.target in after
    requires forall e :: e in all <==> e in parameters || e in entering
    ensures Wired(more, after, all) && EndsBelow(more, next + n)
  {
    hide Grown;
    GrowIds(after, ids, next, n);
    forall s | s in more ensures s.source in after <==> s.target in after {
      if s in SignedOf(entering) { assert Edge(s.source, s.target) in entering; }
    }
    forall s | s in more && s.source in after ensures Edge(s.source, s.target) in all {
      if s in SignedOf(entering) { assert Edge(s.source, s.target) in entering; }
    }
    forall e, inhibitory: bool | e in all ensures Signed(e.source, e.target, inhibitory) in more {
      if e in entering { assert Signed(e.source, e.target, inhibitory) in SignedOf(entering); }
    }
    forall i, j | 0 <= i < j < |more| ensures more[i] != more[j] { DistinctAt(more, i, j); }
    forall s | s in more ensures s.source < next + n && s.target < next + n {
      if s in SignedOf(entering) { assert Edge(s.source, s.target) in entering; }
    }
  }

  function Zeros(n: nat): (r: seq<real>)
    ensures |r| == n && forall i | 0 <= i < n :: r[i] == 0.0
  {
    seq(n, i => 0.0)
  }

  class Brain {
    var nextId: int
    var populations: seq<seq<int>>
    var synapses: seq<Signed>
    var model: Option<Model>

    function Known(): set<int>
      reads this`nextId
    {
      if nextId >= 1 then Members(Range(1, nextId - 1)) else {}
    }

    /** A circuit, if there is one, is one the validator accepts. */
    ghost predicate Valid()
      reads this
    {
      && nextId >= 1 && Distinct(synapses) && EndsBelow(synapses, nextId)
      && if model.None? then populations == [] else Topology(model.value, Known(), populations, synapses)
    }

    /** A brain with neurons and synapses but no circuit yet. */
    constructor (nextId: int, synapses: seq<Signed>)
      requires nextId >= 1 && Distinct(synapses) && EndsBelow(synapses, nextId)
      ensures Valid() && model.None?
    {
      this.nextId, this.synapses, populations, model := nextId, synapses, [], None;
    }

    /** Fresh neurons, each with its own population. */
    method Alloc(n: nat) returns (ids: seq<int>)
      modifies this`nextId, this`populations
      ensures ids == Range(old(nextId), n) && nextId == old(nextId) + n
      ensures populations == old(populations) + Singles(ids)
    {
      ids := [];
      for i := 0 to n
        invariant ids == Range(old(nextId), i) && nextId == old(nextId) + i
        invariant populations == old(populations) + Singles(ids)
      {
        ids := ids + [nextId];
        populations := populations + [[nextId]];
        nextId := nextId + 1;
      }
    }

    /** Both signs of every parameter, found or added. */
    method Adjust(edges: seq<Edge>)
      requires Distinct(synapses)
      modifies this`synapses
      ensures Distinct(synapses)
      ensures forall s :: s in synapses <==> s in old(synapses) || s in SignedOf(edges)
    {
      assert edges[..0] == [];
      for i := 0 to |edges|
        invariant Distinct(synapses)
        invariant forall s :: s in synapses <==> s in old(synapses) || s in SignedOf(edges[..i])
      {
        assert edges[..i + 1] == edges[..i] + [edges[i]];
        SignedStep(edges[..i], edges[i]);
        Connect(Signed(edges[i].source, edges[i].target, false));
        Connect(Signed(edges[i].source, edges[i].target, true));
      }
      assert edges[..|edges|] == edges;
    }

    method Connect(s: Signed)
      requires Distinct(synapses)
      modifies this`synapses
      ensures Distinct(synapses) && forall t :: t in synapses <==> t in old(synapses) || t == s
    {
      if s !in synapses {
        DisjointJoin(synapses, [s]);
        synapses := synapses + [s];
      }
    }

    /** `ids` are all neurons allocated since `start`, each with its population. */
    ghost predicate Since(start: int, before: seq<seq<int>>, ids: seq<int>)
      reads this`nextId, this`populations
    {
      start <= nextId && ids == Range(start, nextId - start) && populations == before + Singles(ids)
    }

    /** One more run of fresh neurons. */
    method AllocAfter(ghost start: int, ghost before: seq<seq<int>>, ghost ids: seq<int>, n: nat) returns (more: seq<int>)
      requires Since(start, before, ids)
      modifies this`nextId, this`populations
      ensures |more| == n && nextId == old(nextId) + n && Since(start, before, ids + more)
    {
      RangeJoin(start, nextId - start, n);
      more := Alloc(n);
      assert Singles(ids + more) == Singles(ids) + Singles(more);
    }

    method AllocRecurrent(ghost start: int, ghost before: seq<seq<int>>, c: Config)
      returns (inputs: seq<int>, hidden: seq<int>, gates: seq<int>)
      requires Since(start, before, [])
      modifies this`nextId, this`populations
      ensures |inputs| == c.inputs && |hidden| == c.hidden && |gates| == 3 * c.hidden
      ensures nextId == old(nextId) + c.inputs + 4 * c.hidden && Since(start, before, inputs + hidden + gates)
    {
      hide Since;
      inputs := AllocAfter(start, before, [], c.inputs);
      assert [] + inputs == inputs;
      hidden := AllocAfter(start, before, inputs, c.hidden);
      gates := AllocAfter(start, before, inputs + hidden, 3 * c.hidden);
    }

    method AllocHeads(ghost start: int, ghost before: seq<seq<int>>, ghost ids: seq<int>, c: Config)
      returns (actions: seq<int>, success: seq<int>, value: seq<int>, world: seq<int>)
      requires Since(start, before, ids)
      modifies this`nextId, this`populations
      ensures |actions| == c.actions && |success| == 5 && |value| == 1 && |world| == c.inputs
      ensures nextId == old(nextId) + c.actions + 6 + c.inputs && Since(start, before, ids + actions + success + value + world)
    {
      hide Since;
      actions := AllocAfter(start, before, ids, c.actions);
      success := AllocAfter(start, before, ids + actions, 5);
      value := AllocAfter(start, before, ids + actions + success, 1);
      world := AllocAfter(start, before, ids + actions + success + value, c.inputs);
    }

    method AllocBase(c: Config) returns (b: Base)
      modifies this`nextId, this`populations
      ensures nextId == old(nextId) + BaseSize(c) && b.tensors == [] && BaseShaped(b, c)
      ensures populations == old(populations) + Singles(Range(old(nextId), BaseSize(c)))
      ensures Grown(BaseIds(b), [], old(nextId), BaseSize(c))
    {
      ghost var start, before := nextId, populations;
      assert Since(start, before, []);
      hide Since, BaseIds, Range, Singles, Grown;
      var inputs, hidden, gates := AllocRecurrent(start, before, c);
      ghost var core := inputs + hidden + gates;
      var actions, success, value, world := AllocHeads(start, before, core, c);
      ghost var most := core + actions + success + value + world;
      var biasInput := AllocAfter(start, before, most, 1);
      var biasHidden := AllocAfter(start, before, most + biasInput, 1);
      var bmps := AllocAfter(start, before, most + biasInput + biasHidden, 4);
      b := Base(inputs, hidden, gates, actions, success, value, world, biasInput[0], biasHidden[0], bmps, []);
      Elapsed(start, before, most + biasInput + biasHidden + bmps);
      InAllocationOrder(b, biasInput, biasHidden, start, BaseSize(c));
    }

    lemma Elapsed(start: int, before: seq<seq<int>>, ids: seq<int>)
      requires Since(start, before, ids)
      ensures start <= nextId && ids == Range(start, nextId - start) && populations == before + Singles(ids)
    {
    }

    method AllocMeta(n: MetaBeliefs.Config) returns (m: Meta)
      modifies this`nextId, this`populations
      ensures m.tensors == [] && |m.joints| == StateCount(n) && |m.rewards| == 1 && |m.temperatures| == 6
      ensures nextId == old(nextId) + StateCount(n) + 7 && MetaIds(Some(m)) == Range(old(nextId), StateCount(n) + 7)
      ensures populations == old(populations) + Singles(Range(old(nextId), StateCount(n) + 7))
    {
      ghost var start, before := nextId, populations;
      assert Since(start, before, []);
      hide Since, StateCount;
      var joints := AllocAfter(start, before, [], StateCount(n));
      var rewards := AllocAfter(start, before, [] + joints, 1);
      var temperatures := AllocAfter(start, before, [] + joints + rewards, 6);
      m := Meta(joints, rewards, temperatures, []);
      Elapsed(start, before, [] + joints + rewards + temperatures);
      assert [] + joints + rewards + temperatures == MetaIds(Some(m));
    }

    method AllocPhase4() returns (p: Phase4)
      modifies this`nextId, this`populations
      ensures Shaped4(p) && p.tensors == [] && p.baseParameters == 0 && nextId == old(nextId) + 83
      ensures Phase4Ids(Some(p)) == Range(old(nextId), 83) && populations == old(populations) + Singles(Range(old(nextId), 83))
    {
      ghost var start, before := nextId, populations;
      assert Since(start, before, []);
      hide Since;
      var features := AllocAfter(start, before, [], 58);
      var hidden := AllocAfter(start, before, [] + features, 16);
      var actions := AllocAfter(start, before, [] + features + hidden, 8);
      var value := AllocAfter(start, before, [] + features + hidden + actions, 1);
      p := Phase4(features, hidden, actions, value, [], 0);
      Elapsed(start, before, [] + features + hidden + actions + value);
      assert [] + features + hidden + actions + value == Phase4Ids(Some(p));
    }

    /** Allocates neurons and lays tensors; `size` is the number of fresh neurons. */
    method Build(c: Config) returns (m: Model, ghost size: nat)
      requires ConfigOk(c)
      modifies this`nextId, this`populations
      ensures m.config == c && m.phase2.None? && m.phase4.None?
      ensures Shaped(m) && Laid(m) && Optimized(m) && Grown(Ids(m), [], old(nextId), size)
      ensures nextId == old(nextId) + size && populations == old(populations) + Singles(Range(old(nextId), size))
    {
      hide Laid, Shaped, Optimized, Grown, Ids, BaseIds, MetaIds, EdgesOf, Placed, BaseFans, MetaFans, ConfigOk, StateCount;
      ghost var start, before := nextId, populations;
      var bare := AllocBase(c);
      NoEdgesYet();
      assert [] + BaseFans(bare) == BaseFans(bare);
      var edges, groups := LayFans([], [], BaseFans(bare));
      var b, meta := bare.(tensors := groups), None;
      BaseUnchanged(bare, groups);
      size := BaseSize(c);
      NoMeta(b);
      if c.meta.Some? {
        var world := AllocMeta(c.meta.value);
        var worldGroups;
        edges, worldGroups := LayFans(edges, BaseFans(b), MetaFans(b, Some(world)));
        MetaUnchanged(b, world, worldGroups);
        meta := Some(world.(tensors := worldGroups));
        size := size + StateCount(c.meta.value) + 7;
      }
      m := Model(c, b, meta, None, None, edges, Zeros(|edges|), Zeros(|edges|));
      InitialModel(m, start, size);
      SinglesJoin(start, BaseSize(c), size - BaseSize(c));
      assert populations == before + Singles(Range(start, size));
    }

    /** The base circuit, with the native world head when the configuration asks for one. */
    method Initialize(c: Config) returns (ok: bool)
      requires Valid()
      modifies this
      ensures Valid() && (ok <==> old(model).None? && ConfigOk(c))
      ensures ok ==> model.Some? && model.value.config == c && model.value.phase2.None? && model.value.phase4.None?
      ensures !ok ==> (nextId, populations, synapses, model) == old((nextId, populations, synapses, model))
    {
      hide Topology, Laid, Shaped, Optimized, Grown, Wired, Populated, Ids, Distinct, ConfigOk, Parameters;
      if model.Some? || !ConfigOk(c) { return false; }
      ghost var start, before := nextId, synapses;
      NothingYet(synapses, start);
      ghost var size;
      var m;
      m, size := Build(c);
      Adjust(Parameters(m));
      assert populations == [] + Singles(Range(start, size));
      Extended(m, [], start, size, [], before, synapses, [], Parameters(m));
      model := Some(m);
      ok := true;
    }

    /** The second phase reuses the world tensors or allocates one row per factor; no parameter moves. */
    method InitializePhase2(representation: Representation) returns (ok: bool)
      requires Valid()
      modifies this
      ensures Valid() && (ok <==> old(model).Some? && old(model).value.meta.Some? && old(model).value.phase2.None?)
      ensures ok ==> model.Some? && model.value.phase2.Some? && model.value.phase2.value.representation == representation
                     && old(model).value.edges <= model.value.edges
      ensures !ok ==> (nextId, populations, synapses, model) == old((nextId, populations, synapses, model))
    {
      hide Laid, Grown, Wired, Populated, Ids, EdgesOf, Placed, BaseFans, Distinct, ConfigOk, Parameters, Factors;
      if model.None? || model.value.meta.None? || model.value.phase2.Some? { return false; }
      var m := model.value;
      ghost var start, before, were := nextId, synapses, populations;
      LaidEdges(m);
      NoPhases(m);
      var p := Phase2(representation, [], [], |m.edges|);
      var edges := m.edges;
      FactorsArePositive(m.config);
      ghost var n := 0;
      if representation == Categorical {
        WorldTensors(m);
        p := p.(tensors := [m.meta.value.tensors[0]]);
        NoRange(start, populations);
      } else {
        n := Factors(m.config.meta.value, representation);
        var nodes := Alloc(Factors(m.config.meta.value, representation));
        var groups;
        edges, groups := LayFans(edges, Before2(m), Phase2Fans(m.base, Some(p.(nodes := nodes))));
        EdgesJoin(Before2(m), Phase2Fans(m.base, Some(p.(nodes := nodes))));
        p := p.(nodes := nodes, tensors := groups);
      }
      var added := |edges| - |m.edges|;
      var next := m.(phase2 := Some(p), edges := edges, firstMoment := m.firstMoment + Zeros(added),
                     secondMoment := m.secondMoment + Zeros(added));
      Phase2Model(m, next, p, start, n);
      BelowKnown(Ids(m), start);
      Adjust(EdgesOf(Phase2Fans(m.base, Some(p))));
      Extended(next, Ids(m), start, n, were, before, synapses, Parameters(m), EdgesOf(Phase2Fans(m.base, Some(p))));
      model := Some(next);
      ok := true;
    }

    /** The fourth phase: exactly 1097 parameters behind all others. */
    method InitializePhase4() returns (ok: bool)
      requires Valid()
      modifies this
      ensures Valid() && (ok <==> old(model).Some? && Phase4Fits(old(model).value))
      ensures ok ==> model.Some? && model.value.phase4.Some? && old(model).value.edges <= model.value.edges
                     && |model.value.edges| == |old(model).value.edges| + PHASE4_PARAMETERS
      ensures !ok ==> (nextId, populations, synapses, model) == old((nextId, populations, synapses, model))
    {
      hide Laid, Grown, Wired, Populated, Ids, EdgesOf, Placed, BaseFans, Distinct, ConfigOk, Parameters;
      if model.None? || !Phase4Fits(model.value) { return false; }
      var m := model.value;
      ghost var start, before, were := nextId, synapses, populations;
      LaidEdges(m);
      assert AllFans(m) == Before4(m);
      var bare := AllocPhase4();
      var edges, groups := LayFans(m.edges, Before4(m), Phase4Fans(m.base, Some(bare)));
      var p := bare.(tensors := groups, baseParameters := |m.edges|);
      var next := m.(phase4 := Some(p), edges := edges, firstMoment := m.firstMoment + Zeros(1097),
                     secondMoment := m.secondMoment + Zeros(1097));
      Phase4Model(m, next, bare, groups, start);
      BelowKnown(Ids(m), start);
      Adjust(EdgesOf(Phase4Fans(m.base, Some(p))));
      Extended(next, Ids(m), start, 83, were, before, synapses, Parameters(m), EdgesOf(Phase4Fans(m.base, Some(p))));
      model := Some(next);
      ok := true;
    }
  }

  predicate Phase4Fits(m: Model) {
    && m.phase2.Some? && m.phase4.None? && m.config.hidden == 32 && m.config.actions == 8
    && m.config.meta.Some? && m.config.meta.value.classes == 4 && m.config.meta.value.computations == 3
  }

  lemma NoPhases(m: Model)
    requires m.phase2.None? && Shaped(m)
    ensures m.phase4.None? && AllFans(m) == Before2(m) && Before4(m) == Before2(m)
  {
  }

  lemma NonNegative(a: int, b: int)
    requires a >= 0 && b >= 0
    ensures a * b >= 0
  {
  }

  lemma {:induction false} PairsAreNonNegative(k: nat, card: int)
    requires card >= 1
    ensures PairsAmong(k, card) >= 0
  {
    if k > 0 {
      PairsAreNonNegative(k - 1, card);
      NonNegative(k - 1, card - 1);
      NonNegative((k - 1) * (card - 1), card - 1);
    }
  }

  lemma FactorsArePositive(c: Config)
    requires ConfigOk(c) && c.meta.Some?
    ensures forall r :: Factors(c.meta.value, r) > 0
  {
    var n := c.meta.value;
    hide PairsAmong, ConfigOk;
    assert MetaOk(n, c.actions) by { MetaOfConfig(c); }
    PairsAreNonNegative(n.computations, n.outcomes);
    NonNegative(n.computations, n.outcomes - 1);
    NonNegative(n.computations, n.classes - 1);
    NonNegative(n.computations * (n.classes - 1), n.outcomes - 1);
  }

  lemma MetaOfConfig(c: Config)
    requires ConfigOk(c) && c.meta.Some?
    ensures MetaOk(c.meta.value, c.actions)
  {
  }

  lemma WorldTensors(m: Model)
    requires Laid(m) && m.meta.Some?
    ensures |m.meta.value.tensors| == 2
  {
  }

  lemma NoRange(start: int, populations: seq<seq<int>>)
    ensures Range(start, 0) == [] && populations + Singles(Range(start, 0)) == populations
  {
  }

  lemma BelowKnown(ids: seq<int>, next: int)
    requires Distinct(ids) && 0 !in ids && next >= 1 && forall id | id in ids :: id in Members(Range(1, next - 1))
    ensures IdsBelow(ids, next)
  {
    RangeIsDistinct(1, next - 1);
  }

  /** Edges laid behind a model's own, and what they do to its parameters. */
  lemma AddedParameters(m: Model, next: Model, fans: seq<Fan>)
    requires next.base == m.base && next.meta == m.meta
    requires m.edges == EdgesOf(AllFans(m)) && next.edges == EdgesOf(AllFans(m) + fans)
    ensures m.edges <= next.edges && |next.edges| == |m.edges| + |EdgesOf(fans)|
    ensures forall e :: e in Parameters(next) <==> e in Parameters(m) || e in EdgesOf(fans)
  {
    hide EdgesOf, AllFans;
    EdgesJoin(AllFans(m), fans);
  }

  lemma GrownBy(ids: seq<int>, more: seq<int>, next: int, n: nat)
    requires more == Range(next, n)
    ensures Grown(ids + more, ids, next, n)
  {
  }

  lemma Phase2Model(m: Model, next: Model, p: Phase2, start: int, n: nat)
    requires Shaped(m) && Laid(m) && Optimized(m) && m.phase2.None? && m.meta.Some?
    requires p.baseParameters == |m.edges| && Shaped2(p, m.meta.value, m.config.meta.value) && p.nodes == Range(start, n)
    requires next.edges == EdgesOf(Before2(m) + Phase2Fans(m.base, Some(p)))
    requires p.representation != Categorical ==> Placed(Before2(m), Phase2Fans(m.base, Some(p)), p.tensors)
    requires next == m.(phase2 := Some(p), edges := next.edges, firstMoment := next.firstMoment, secondMoment := next.secondMoment)
    requires |next.edges| >= |m.edges| && next.firstMoment == m.firstMoment + Zeros(|next.edges| - |m.edges|)
    requires next.secondMoment == m.secondMoment + Zeros(|next.edges| - |m.edges|)
    ensures Shaped(next) && Laid(next) && Optimized(next) && Grown(Ids(next), Ids(m), start, n) && m.edges <= next.edges
    ensures forall e :: e in Parameters(next) <==> e in Parameters(m) || e in EdgesOf(Phase2Fans(m.base, Some(p)))
  {
    hide EdgesOf, Placed, BaseFans, MetaFans, BaseIds, MetaIds, Parameters, Grown, Shaped2;
    NoPhases(m);
    AddedParameters(m, next, Phase2Fans(m.base, Some(p)));
    assert AllFans(next) == Before4(next) == Before2(m) + Phase2Fans(m.base, Some(p));
    GrownBy(Ids(m), p.nodes, start, n);
    assert Ids(next) == Ids(m) + p.nodes;
  }

  lemma Phase4Model(m: Model, next: Model, bare: Phase4, groups: seq<seq<Tensor>>, start: int)
    requires Shaped(m) && Laid(m) && Optimized(m) && Phase4Fits(m)
    requires Shaped4(bare) && Phase4Ids(Some(bare)) == Range(start, 83)
    requires next.edges == EdgesOf(Before4(m) + Phase4Fans(m.base, Some(bare)))
    requires Placed(Before4(m), Phase4Fans(m.base, Some(bare)), groups)
    requires next == m.(phase4 := Some(bare.(tensors := groups, baseParameters := |m.edges|)), edges := next.edges,
                        firstMoment := m.firstMoment + Zeros(1097), secondMoment := m.secondMoment + Zeros(1097))
    ensures Shaped(next) && Laid(next) && Optimized(next) && Grown(Ids(next), Ids(m), start, 83)
    ensures m.edges <= next.edges && |next.edges| == |m.edges| + 1097
    ensures forall e :: e in Parameters(next) <==> e in Parameters(m) || e in EdgesOf(Phase4Fans(m.base, next.phase4))
  {
    hide EdgesOf, Placed, BaseFans, MetaFans, Phase2Fans, BaseIds, MetaIds, Parameters, Grown;
    var fans := Phase4Fans(m.base, Some(bare));
    assert Phase4Fans(m.base, next.phase4) == fans && Phase4Ids(next.phase4) == Phase4Ids(Some(bare));
    assert AllFans(m) == Before4(m) && AllFans(next) == Before4(m) + fans;
    Phase4Adds(m.base, bare);
    AddedParameters(m, next, fans);
    GrownBy(Ids(m), Phase4Ids(Some(bare)), start, 83);
    assert Ids(next) == Ids(m) + Phase4Ids(Some(bare));
  }

  lemma NoMeta(b: Base)
    ensures BaseFans(b) + MetaFans(b, None) == BaseFans(b)
  {
  }

  lemma MetaUnchanged(b: Base, m: Meta, groups: seq<seq<Tensor>>)
    ensures MetaFans(b, Some(m.(tensors := groups))) == MetaFans(b, Some(m)) && MetaIds(Some(m.(tensors := groups))) == MetaIds(Some(m))
  {
  }

  lemma NothingYet(synapses: seq<Signed>, next: int)
    ensures IdsBelow([], next) && Populated([], []) && Wired(synapses, [], [])
  {
  }

  lemma SinglesJoin(start: int, m: nat, n: nat)
    ensures Singles(Range(start, m)) + Singles(Range(start + m, n)) == Singles(Range(start, m + n))
  {
  }

  lemma BaseUnchanged(b: Base, groups: seq<seq<Tensor>>)
    ensures BaseFans(b.(tensors := groups)) == BaseFans(b) && BaseIds(b.(tensors := groups)) == BaseIds(b)
    ensures forall m :: MetaFans(b.(tensors := groups), m) == MetaFans(b, m)
  {
  }

  /** A model whose parts are laid, whose neurons are the old ones and fresh ones, and whose new
      parameters were connected, is a valid topology of the grown brain. */
  lemma Extended(m: Model, ids: seq<int>, next: int, n: nat, populations: seq<seq<int>>, synapses: seq<Signed>,
                 more: seq<Signed>, parameters: seq<Edge>, entering: seq<Edge>)
    requires ConfigOk(m.config) && Shaped(m) && Laid(m) && Optimized(m)
    requires next >= 1 && IdsBelow(ids, next) && Grown(Ids(m), ids, next, n)
    requires Populated(populations, ids) && Wired(synapses, ids, parameters) && EndsBelow(synapses, next)
    requires Distinct(more) && forall s :: s in more <==> s in synapses || s in SignedOf(entering)
    requires forall e :: e in Parameters(m) <==> e in parameters || e in entering
    ensures Topology(m, Members(Range(1, next + n - 1)), populations + Singles(Range(next, n)), more)
    ensures EndsBelow(more, next + n)
  {
    hide ConfigOk, Shaped, Laid, Optimized, Grown, Ids, Populated, Wired, Parameters, EndsBelow, Distinct;
    GrowIds(Ids(m), ids, next, n);
    GrowPopulations(populations, Ids(m), ids, next, n);
    LaidEdges(m);
    ParametersAreDistinct(m);
    GrowWiring(synapses, more, ids, Ids(m), next, n, parameters, entering, Parameters(m));
    RangeIsDistinct(1, next + n - 1);
  }

  lemma InitialModel(m: Model, start: int, n: nat)
    requires BaseShaped(m.base, m.config) && m.phase2.None? && m.phase4.None?
    requires m.meta.Some? == m.config.meta.Some?
    requires n == BaseSize(m.config) + if m.meta.Some? then StateCount(m.config.meta.value) + 7 else 0
    requires Grown(BaseIds(m.base), [], start, BaseSize(m.config))
    requires m.meta.Some? ==> MetaIds(m.meta) == Range(start + BaseSize(m.config), StateCount(m.config.meta.value) + 7)
    requires m.meta.Some? ==>
               |m.meta.value.joints| == StateCount(m.config.meta.value) && |m.meta.value.rewards| == 1 && |m.meta.value.temperatures| == 6
    requires Placed([], BaseFans(m.base), m.base.tensors)
    requires m.meta.Some? ==> Placed(BaseFans(m.base), MetaFans(m.base, m.meta), m.meta.value.tensors)
    requires m.edges == EdgesOf(BaseFans(m.base) + MetaFans(m.base, m.meta))
    requires m.firstMoment == m.secondMoment == Zeros(|m.edges|)
    ensures Shaped(m) && Laid(m) && Optimized(m) && Grown(Ids(m), [], start, n)
  {
    hide EdgesOf, Placed, BaseFans, BaseIds, MetaIds, MetaFans, StateCount, Grown, Range;
    assert AllFans(m) == BaseFans(m.base) + MetaFans(m.base, m.meta);
    InitialIds(m, start, n);
  }

  lemma InitialIds(m: Model, start: int, n: nat)
    requires m.phase2.None? && m.phase4.None? && n >= BaseSize(m.config) && Grown(BaseIds(m.base), [], start, BaseSize(m.config))
    requires MetaIds(m.meta) == Range(start + BaseSize(m.config), n - BaseSize(m.config)) || (m.meta.None? && n == BaseSize(m.config))
    ensures Grown(Ids(m), [], start, n)
  {
    hide BaseIds, MetaIds, Grown;
    assert Ids(m) == BaseIds(m.base) + MetaIds(m.meta);
    if m.meta.None? { NoMetaIds(); }
    GrownTwice(BaseIds(m.base), MetaIds(m.meta), start, BaseSize(m.config), n - BaseSize(m.config));
  }

  lemma NoMetaIds()
    ensures MetaIds(None) == [] && Range(0, 0) == []
  {
  }

  lemma GrownTwice(a: seq<int>, b: seq<int>, start: int, m: nat, n: nat)
    requires Grown(a, [], start, m) && b == Range(start + m, n)
    ensures Grown(a + b, [], start, m + n)
  {
    RangeJoin(start, m, n);
    assert multiset(a + b) == multiset(a) + multiset(b);
    assert multiset(Range(start, m) + Range(start + m, n)) == multiset(Range(start, m)) + multiset(Range(start + m, n));
  }

  lemma InAllocationOrder(b: Base, biasInput: seq<int>, biasHidden: seq<int>, start: int, n: nat)
    requires biasInput == [b.biasInput] && biasHidden == [b.biasHidden]
    requires b.inputs + b.hidden + b.gates + b.actions + b.success + b.value + b.world + biasInput + biasHidden + b.bmps
             == Range(start, n)
    ensures Grown(BaseIds(b), [], start, n)
  {
    var most := b.inputs + b.hidden + b.gates + b.actions + b.success + b.value + b.world;
    assert [b.biasInput, b.biasHidden] == biasInput + biasHidden;
    Swapped(most, biasInput + biasHidden, b.bmps);
    assert most + (biasInput + biasHidden) + b.bmps == most + biasInput + biasHidden + b.bmps;
  }

  function BaseSize(c: Config): nat { 2 * c.inputs + 4 * c.hidden + c.actions + 12 }

  lemma Swapped(a: seq<int>, b: seq<int>, c: seq<int>)
    ensures multiset(a + b + c) == multiset(a + c + b)
  {
  }

  /** Every circuit that initialisation and its extensions build passes the validator. */
  method BuildAndValidate(brain: Brain, c: Config, representation: Option<Representation>, fourth: bool) returns (ok: bool)
    requires brain.Valid() && brain.model.None?
    modifies brain
    ensures ok <==> ConfigOk(c)
  {
    hide Topology, ConfigOk;
    ok := brain.Initialize(c);
    if !ok { return; }
    if representation.Some? {
      var _ := brain.InitializePhase2(representation.value);
    }
    if fourth && brain.model.Some? {
      var _ := brain.InitializePhase4();
    }
    if brain.model.None? { return; }
    ok := Validate(brain.model.value, brain.Known(), brain.populations, brain.synapses);
  }
}
