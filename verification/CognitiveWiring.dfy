/** The cognitive circuit read edge by edge and tensor by tensor: which neurons are connected,
    how many parameters there are, and in which order they lie. */
module CognitiveWiring {
  import opened CognitiveLayout
  import MetaBeliefs
  import opened Options

  lemma {:induction false} FansMember(fans: seq<Fan>, e: Edge)
    ensures e in EdgesOf(fans) <==> exists i :: 0 <= i < |fans| && Joins(fans[i], e)
  {
    hide Joins;
    if fans != [] {
      var m := |fans| - 1;
      FansMember(fans[..m], e);
      GridsMember(fans[m].froms, fans[m].to, e);
      JoinsMeans(fans[m], e);
      assert fans == fans[..m] + [fans[m]];
    }
  }

  predicate Joins(f: Fan, e: Edge) { e.source in Flat(f.froms) && e.target in f.to }

  lemma JoinsMeans(f: Fan, e: Edge)
    ensures Joins(f, e) <==> e.source in Flat(f.froms) && e.target in f.to
  {
  }

  /** A group of sources and one bias neuron. */
  predicate From(e: Edge, sources: seq<int>, bias: int) { e.source in sources || e.source == bias }

  lemma PairJoins(a: seq<int>, bias: int, to: seq<int>, e: Edge)
    ensures Joins(Fan([a, [bias]], to), e) <==> From(e, a, bias) && e.target in to
  {
    PairFan(a, [bias], to);
  }

  lemma FlatFour(a: seq<int>, b: seq<int>, c: seq<int>, d: seq<int>)
    ensures Flat([a, b, c, d]) == a + b + c + d
  {
    assert [a, b, c, d][..3] == [a, b, c] && [a, b, c][..2] == [a, b] && [a, b][..1] == [a] && [a][..0] == [];
    assert Flat([a]) == Flat([]) + a && Flat([]) == [];
    assert Flat([a, b]) == Flat([a]) + b && Flat([a, b, c]) == Flat([a, b]) + c;
  }

  /** The base circuit: inputs, hidden state and both biases feed the gates; the hidden state and its bias feed
      actions, value and success; hidden state, actions and bias feed the world model; nothing else is connected. */
  lemma BaseWiring(b: Base, e: Edge)
    ensures e in EdgesOf(BaseFans(b)) <==>
            || (e.target in b.gates && (e.source in b.inputs || e.source in b.hidden || e.source in {b.biasInput, b.biasHidden}))
            || (e.target in b.actions + b.value + b.success && From(e, b.hidden, b.biasInput))
            || (e.target in b.world && From(e, b.hidden + b.actions, b.biasInput))
  {
    var fans := BaseFans(b);
    FansMember(fans, e);
    FlatFour(b.inputs, b.hidden, [b.biasInput], [b.biasHidden]);
    JoinsMeans(fans[0], e);
    PairJoins(b.hidden, b.biasInput, b.actions, e);
    PairJoins(b.hidden, b.biasInput, b.value, e);
    PairJoins(b.hidden, b.biasInput, b.success, e);
    PairJoins(b.hidden + b.actions, b.biasInput, b.world, e);
    hide Joins, EdgesOf, From, Flat;
    assert (exists i :: 0 <= i < |fans| && Joins(fans[i], e)) <==>
           Joins(fans[0], e) || Joins(fans[1], e) || Joins(fans[2], e) || Joins(fans[3], e) || Joins(fans[4], e);
  }

  /** The extensions: the native world head and the second phase read the hidden state, the fourth phase its own
      features, hidden layer and outputs; the stopping weights and temperatures hang on the bias alone. */
  lemma ExtensionWiring(b: Base, meta: Meta, p2: Phase2, p4: Phase4, e: Edge)
    ensures e in EdgesOf(MetaFans(b, Some(meta))) <==> e.target in meta.joints + meta.rewards && From(e, b.hidden, b.biasInput)
    ensures e in EdgesOf(Phase2Fans(b, Some(p2))) <==>
            p2.representation != Categorical && e.target in p2.nodes && From(e, b.hidden, b.biasInput)
    ensures e in EdgesOf(Phase4Fans(b, Some(p4))) <==>
            || (e.target in p4.hidden && From(e, p4.features, b.biasInput))
            || (e.target in p4.actions + p4.value && From(e, p4.hidden, b.biasInput))
    ensures e in EdgesOf(ExtraFans(b, Some(meta))) <==> e.source == b.biasInput && e.target in b.bmps + meta.temperatures
    ensures e in EdgesOf(ExtraFans(b, None)) <==> e.source == b.biasInput && e.target in b.bmps
  {
    MetaWiring(b, meta, e);
    Phase2Wiring(b, p2, e);
    Phase4Wiring(b, p4, e);
    ExtraWiring(b, meta, e);
  }

  lemma TwoFans(f: Fan, g: Fan, e: Edge)
    ensures e in EdgesOf([f, g]) <==> Joins(f, e) || Joins(g, e)
    ensures e in EdgesOf([f]) <==> Joins(f, e)
    ensures e !in EdgesOf([])
  {
    hide Joins, EdgesOf;
    FansMember([f, g], e);
    FansMember([f], e);
    FansMember([], e);
    assert [f, g][0] == f && [f, g][1] == g && [f][0] == f;
  }

  lemma MetaWiring(b: Base, meta: Meta, e: Edge)
    ensures e in EdgesOf(MetaFans(b, Some(meta))) <==> e.target in meta.joints + meta.rewards && From(e, b.hidden, b.biasInput)
  {
    hide EdgesOf, From, Joins;
    PairJoins(b.hidden, b.biasInput, meta.joints, e);
    PairJoins(b.hidden, b.biasInput, meta.rewards, e);
    TwoFans(Fan([b.hidden, [b.biasInput]], meta.joints), Fan([b.hidden, [b.biasInput]], meta.rewards), e);
  }

  lemma Phase2Wiring(b: Base, p: Phase2, e: Edge)
    ensures e in EdgesOf(Phase2Fans(b, Some(p))) <==>
            p.representation != Categorical && e.target in p.nodes && From(e, b.hidden, b.biasInput)
  {
    hide EdgesOf, From, Joins;
    var f := Fan([b.hidden, [b.biasInput]], p.nodes);
    PairJoins(b.hidden, b.biasInput, p.nodes, e);
    TwoFans(f, f, e);
  }

  lemma Phase4Wiring(b: Base, p: Phase4, e: Edge)
    ensures e in EdgesOf(Phase4Fans(b, Some(p))) <==>
            || (e.target in p.hidden && From(e, p.features, b.biasInput))
            || (e.target in p.actions + p.value && From(e, p.hidden, b.biasInput))
  {
    hide EdgesOf, From, Joins;
    var fans := Phase4Fans(b, Some(p));
    FansMember(fans, e);
    PairJoins(p.features, b.biasInput, p.hidden, e);
    PairJoins(p.hidden, b.biasInput, p.actions, e);
    PairJoins(p.hidden, b.biasInput, p.value, e);
    assert (exists i :: 0 <= i < |fans| && Joins(fans[i], e)) <==> Joins(fans[0], e) || Joins(fans[1], e) || Joins(fans[2], e);
  }

  lemma ExtraWiring(b: Base, meta: Meta, e: Edge)
    ensures e in EdgesOf(ExtraFans(b, Some(meta))) <==> e.source == b.biasInput && e.target in b.bmps + meta.temperatures
    ensures e in EdgesOf(ExtraFans(b, None)) <==> e.source == b.biasInput && e.target in b.bmps
  {
    hide EdgesOf, Joins;
    var f, g := Fan([[b.biasInput]], b.bmps), Fan([[b.biasInput]], meta.temperatures);
    FlatOne([b.biasInput]);
    JoinsMeans(f, e);
    JoinsMeans(g, e);
    TwoFans(f, g, e);
    assert ExtraFans(b, Some(meta)) == [f, g] && ExtraFans(b, None) == [f];
  }

  // ---------- Sizes and order ----------

  /** A named product, so that its non-linear meaning can be hidden. */
  function Times(n: nat, m: nat): nat { n * m }

  lemma Spread(n: nat, a: nat, b: nat)
    ensures Times(n, a + b) == Times(n, a) + Times(n, b) && Times(n, 0) == 0
  {
  }

  lemma GridSize(from: seq<int>, to: seq<int>)
    ensures |Grid(from, to)| == Times(|to|, |from|)
  {
  }

  lemma {:induction false} GridsSize(froms: seq<seq<int>>, to: seq<int>)
    ensures |Grids(froms, to)| == Times(|to|, |Flat(froms)|)
  {
    hide Times, Grid;
    Spread(|to|, 0, 0);
    if froms != [] {
      var rest, last := froms[..|froms| - 1], froms[|froms| - 1];
      GridsSize(rest, to);
      GridSize(last, to);
      Spread(|to|, |Flat(rest)|, |last|);
    }
  }

  /** The edges of fans, counted. */
  function Size(fans: seq<Fan>): nat {
    if fans == [] then 0 else Size(fans[..|fans| - 1]) + Times(|fans[|fans| - 1].to|, |Flat(fans[|fans| - 1].froms)|)
  }

  lemma {:induction false} SizeOfEdges(fans: seq<Fan>)
    ensures |EdgesOf(fans)| == Size(fans)
  {
    hide Times, Grids, Flat;
    if fans != [] {
      SizeOfEdges(fans[..|fans| - 1]);
      GridsSize(fans[|fans| - 1].froms, fans[|fans| - 1].to);
    }
  }

  lemma SizeStep(fans: seq<Fan>, k: nat)
    requires k < |fans|
    ensures Size(fans[..k + 1]) == Size(fans[..k]) + Times(|fans[k].to|, |Flat(fans[k].froms)|) && Size(fans[..0]) == 0
  {
    hide Times, Flat;
    assert fans[..k + 1][..k] == fans[..k];
  }

  /** Where the fans of the base circuit begin, in the order gates, actions, value, success, world. */
  lemma BaseSizes(b: Base, c: Config)
    requires BaseShaped(b, c)
    ensures var fans, i, h, a := BaseFans(b), c.inputs, c.hidden, c.actions;
            && Size(fans[..0]) == 0
            && Size(fans[..1]) == Times(3 * h, i + h + 2)
            && Size(fans[..2]) == Size(fans[..1]) + Times(a, h + 1)
            && Size(fans[..3]) == Size(fans[..2]) + Times(1, h + 1)
            && Size(fans[..4]) == Size(fans[..3]) + Times(5, h + 1)
            && Size(fans[..5]) == Size(fans[..4]) + Times(i, h + a + 1)
  {
    var fans := BaseFans(b);
    FlatFour(b.inputs, b.hidden, [b.biasInput], [b.biasHidden]);
    FlatThree(b.hidden, [b.biasInput], []);
    FlatThree(b.hidden + b.actions, [b.biasInput], []);
    hide Size, Flat, Times;
    SizeStep(fans, 0);
    SizeStep(fans, 1);
    SizeStep(fans, 2);
    SizeStep(fans, 3);
    SizeStep(fans, 4);
  }

  /** The parameters of the base circuit: three gates over inputs, state and two biases; actions, one value and
      five success outputs over state and bias; the world model over state, actions and bias. */
  lemma BaseParameters(b: Base, c: Config)
    requires BaseShaped(b, c)
    ensures |EdgesOf(BaseFans(b))| ==
            3 * c.hidden * (c.inputs + c.hidden + 2) + (c.actions + 1 + 5) * (c.hidden + 1) + c.inputs * (c.hidden + c.actions + 1)
  {
    var i, h, a := c.inputs, c.hidden, c.actions;
    assert Times(3 * h, i + h + 2) == 3 * h * (i + h + 2) && Times(i, h + a + 1) == i * (h + a + 1);
    assert Times(a, h + 1) + Times(1, h + 1) + Times(5, h + 1) == (a + 1 + 5) * (h + 1);
    hide Times, EdgesOf, Size;
    BaseSizes(b, c);
    assert BaseFans(b)[..5] == BaseFans(b);
    SizeOfEdges(BaseFans(b));
  }

  /** The native world head has a row for every joint state and one for the reward, the second phase one for
      every factor, all over state and bias. */
  lemma ExtensionParameters(b: Base, meta: Meta, p: Phase2)
    requires |meta.rewards| == 1
    ensures |EdgesOf(MetaFans(b, Some(meta)))| == Times(|meta.joints|, |b.hidden| + 1) + Times(1, |b.hidden| + 1)
    ensures p.representation != Categorical ==> |EdgesOf(Phase2Fans(b, Some(p)))| == Times(|p.nodes|, |b.hidden| + 1)
  {
    FlatThree(b.hidden, [b.biasInput], []);
    hide EdgesOf, Size, Times, Flat;
    var metas, p2 := MetaFans(b, Some(meta)), [Fan([b.hidden, [b.biasInput]], p.nodes)];
    SizeOfEdges(metas);
    SizeOfEdges(p2);
    SizeStep(metas, 0);
    SizeStep(metas, 1);
    SizeStep(p2, 0);
    assert metas[..2] == metas && p2[..1] == p2;
  }

  /** A tensor's offset counts the fans before it and the sources of its own fan before it. */
  lemma TensorAt(fans: seq<Fan>, groups: seq<seq<Tensor>>, k: nat, i: nat)
    requires Placed([], fans, groups) && k < |fans| && i < |fans[k].froms|
    ensures i < |groups[k]|
    ensures groups[k][i] == Tensor(Size(fans[..k]) + Times(|fans[k].to|, |Flat(fans[k].froms[..i])|), |fans[k].to|, |fans[k].froms[i]|)
  {
    hide EdgesOf, Grids, Grid, Times, Size, Flat, Places;
    TensorStarts(fans, groups, k, i);
    SizeOfEdges(fans[..k]);
    GridsSize(fans[k].froms[..i], fans[k].to);
  }

  /** The recurrent tensors: input weights, state weights, input bias and state bias of the three gates. */
  lemma GateTensors(b: Base, c: Config)
    requires BaseShaped(b, c) && Placed([], BaseFans(b), b.tensors)
    ensures |b.tensors| == 5 && |b.tensors[0]| == 4
    ensures var t, i, h := b.tensors[0], c.inputs, c.hidden;
            && t[0] == Tensor(0, 3 * h, i) && t[1] == Tensor(Times(3 * h, i), 3 * h, h)
            && t[2] == Tensor(Times(3 * h, i + h), 3 * h, 1) && t[3] == Tensor(Times(3 * h, i + h + 1), 3 * h, 1)
  {
    var fans := BaseFans(b);
    hide Placed, Size, Flat, Times;
    GroupSizes(fans, b.tensors, 0);
    FourTensors(fans, b.tensors, b.inputs, b.hidden, b.biasInput, b.biasHidden);
  }

  lemma FourTensors(fans: seq<Fan>, groups: seq<seq<Tensor>>, inputs: seq<int>, hidden: seq<int>, x: int, y: int)
    requires Placed([], fans, groups) && fans != [] && fans[0].froms == [inputs, hidden, [x], [y]]
    ensures |groups| == |fans| && |groups[0]| == 4
    ensures var t, n, i, h := groups[0], |fans[0].to|, |inputs|, |hidden|;
            && t[0] == Tensor(0, n, i) && t[1] == Tensor(Times(n, i), n, h)
            && t[2] == Tensor(Times(n, i + h), n, 1) && t[3] == Tensor(Times(n, i + h + 1), n, 1)
  {
    GroupSizes(fans, groups, 0);
    Spread(|fans[0].to|, 0, 0);
    var froms := fans[0].froms;
    FlatThree(inputs, hidden, [x]);
    hide Placed, Size, Flat, Times;
    assert froms[..3] == [inputs, hidden, [x]] && froms[..2] == [inputs, hidden] && froms[..1] == [inputs] && froms[..0] == [];
    SizeStep(fans, 0);
    TensorAt(fans, groups, 0, 0);
    TensorAt(fans, groups, 0, 1);
    TensorAt(fans, groups, 0, 2);
    TensorAt(fans, groups, 0, 3);
  }

  lemma GroupSizes(fans: seq<Fan>, groups: seq<seq<Tensor>>, k: nat)
    requires Placed([], fans, groups) && k < |fans|
    ensures |groups| == |fans| && |groups[k]| == |fans[k].froms|
  {
  }

  lemma FlatThree(a: seq<int>, b: seq<int>, c: seq<int>)
    ensures Flat([]) == [] && Flat([a]) == a && Flat([a, b]) == a + b && Flat([a, b, c]) == a + b + c
  {
    assert [a, b, c][..2] == [a, b] && [a, b][..1] == [a] && [a][..0] == [];
    assert Flat([a]) == Flat([]) + a;
  }

  /** Two tensors into one group of neurons: the weights of the sources, then the bias. */
  lemma PairTensors(fans: seq<Fan>, groups: seq<seq<Tensor>>, k: nat, sources: seq<int>, bias: int)
    requires Placed([], fans, groups) && k < |fans| && fans[k].froms == [sources, [bias]]
    ensures |groups| == |fans| && |groups[k]| == 2
    ensures var n := |fans[k].to|;
            && groups[k][0] == Tensor(Size(fans[..k]), n, |sources|)
            && groups[k][1] == Tensor(Size(fans[..k]) + Times(n, |sources|), n, 1)
  {
    GroupSizes(fans, groups, k);
    var froms := fans[k].froms;
    assert froms[..1] == [sources] && froms[..0] == [];
    FlatThree(sources, [], []);
    Spread(|fans[k].to|, 0, 0);
    hide Placed, Size, Flat, Times;
    TensorAt(fans, groups, k, 0);
    TensorAt(fans, groups, k, 1);
  }

  /** The output tensors of the base circuit, in order: actor, critic, assessment and world decoder, each before its bias. */
  lemma OutputTensors(b: Base, c: Config)
    requires BaseShaped(b, c) && Placed([], BaseFans(b), b.tensors)
    ensures |b.tensors| == 5 && forall k | 1 <= k < 5 :: |b.tensors[k]| == 2
    ensures var t, i, h, a := b.tensors, c.inputs, c.hidden, c.actions;
            var actor := Times(3 * h, i + h + 2);
            var critic := actor + Times(a, h + 1);
            var success := critic + Times(1, h + 1);
            var decoder := success + Times(5, h + 1);
            && t[1][0] == Tensor(actor, a, h) && t[1][1] == Tensor(actor + Times(a, h), a, 1)
            && t[2][0] == Tensor(critic, 1, h) && t[2][1] == Tensor(critic + Times(1, h), 1, 1)
            && t[3][0] == Tensor(success, 5, h) && t[3][1] == Tensor(success + Times(5, h), 5, 1)
            && t[4][0] == Tensor(decoder, i, h + a) && t[4][1] == Tensor(decoder + Times(i, h + a), i, 1)
  {
    var fans := BaseFans(b);
    hide Placed, Size, Flat, Times;
    BaseSizes(b, c);
    PairTensors(fans, b.tensors, 1, b.hidden, b.biasInput);
    PairTensors(fans, b.tensors, 2, b.hidden, b.biasInput);
    PairTensors(fans, b.tensors, 3, b.hidden, b.biasInput);
    PairTensors(fans, b.tensors, 4, b.hidden + b.actions, b.biasInput);
  }

  // ---------- Limits ----------

  /** A configuration is taken when no weight block exceeds a million entries; a native world head needs 2 to 16
      classes, 1 to 8 operations of 2 to 8 results, an action for each of them and one more, and at most 4096 states. */
  lemma ConfigLimits(c: Config)
    ensures ConfigOk(c) <==>
            && c.inputs >= 1 && c.hidden >= 1 && c.actions >= 2 && c.horizon >= 1
            && Times(c.inputs, c.hidden) <= 1000000 && Times(c.hidden, c.hidden) <= 1000000 && Times(c.actions, c.hidden) <= 1000000
            && (c.meta.Some? ==>
                  var n := c.meta.value;
                  && 2 <= n.classes <= 16 && 1 <= n.computations <= 8 && 2 <= n.outcomes <= 8
                  && c.actions == n.classes + n.computations + 1
                  && n.classes * MetaBeliefs.Power(n.outcomes, n.computations) <= 4096)
  {
    if c.hidden >= 1 {
      AtMost(c.inputs, c.hidden, 1000000);
      AtMost(c.hidden, c.hidden, 1000000);
      AtMost(c.actions, c.hidden, 1000000);
    }
    hide Times;
  }

  lemma AtMost(x: nat, h: nat, limit: nat)
    requires h >= 1
    ensures x <= limit / h <==> Times(x, h) <= limit
  {
    var q, r := limit / h, limit % h;
    assert limit == h * q + r;
    if x <= q { assert x * h <= q * h; } else { assert x * h >= (q + 1) * h; }
  }

  /** Free parameters of the joint distribution: one for each class and each result but the baseline, and unless
      the operations are independent one for every pair of such choices. */
  lemma FactorsCounted(n: MetaBeliefs.Config, r: Representation)
    ensures var y, k, o := n.classes - 1, n.computations, n.outcomes - 1;
            Factors(n, r) == y + k * o + if r == Independent then 0 else k * y * o + PairsAmong(k, n.outcomes)
  {
  }

  /** The fourth phase fits one circuit only: 32 hidden units, 8 actions, 4 classes and 3 operations, with a second phase. */
  lemma Phase4Needs(m: Model)
    requires Phase4Fits(m)
    ensures m.config.hidden == 32 && m.config.actions == 8 && m.phase2.Some? && m.phase4.None?
    ensures m.config.meta.Some? && m.config.meta.value.classes == 4 && m.config.meta.value.computations == 3
  {
  }

  /** Pairwise factors: one for every unordered pair of operations and every pair of non-baseline results. */
  lemma {:induction false} PairsCounted(k: nat, card: int)
    ensures 2 * PairsAmong(k, card) == k * (k - 1) * ((card - 1) * (card - 1))
  {
    if k > 0 {
      PairsCounted(k - 1, card);
      PairStep(k, card - 1);
    }
  }

  lemma PairStep(k: int, m: int)
    ensures (k - 1) * (k - 2) * (m * m) + 2 * ((k - 1) * m * m) == k * (k - 1) * (m * m)
  {
    var q := m * m;
    assert (k - 1) * m * m == (k - 1) * q;
    assert (k - 1) * (k - 2) * q + 2 * ((k - 1) * q) == ((k - 1) * (k - 2) + 2 * (k - 1)) * q;
    assert (k - 1) * (k - 2) + 2 * (k - 1) == k * (k - 1);
  }
}
