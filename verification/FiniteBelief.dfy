/** Finite metareasoning: beliefs over hypotheses, value-of-information features,
    the weighted stopping rule and Bayesian conditioning. */
module FiniteBelief {
  import opened FiniteSets
  import opened Options
  import opened RealSums
  import opened SortedInts

  datatype Computation = Computation(cost: real, likelihood: Matrix, groups: seq<int>)
  datatype Belief = Belief(probabilities: Vector, utilities: Matrix, computations: seq<Computation>,
                           remaining: int, horizon: int)

  const TOLERANCE: real := 0.000000001

  function Total(v: Vector): real {
    Sum(|v|, i => At(v, i))
  }

  predicate Distribution(v: Vector, tolerance: real) {
    (forall i | 0 <= i < |v| :: v[i] >= 0.0) && Abs(Total(v) - 1.0) <= tolerance
  }

  predicate ValidComputation(c: Computation, n: nat, tolerance: real) {
    c.cost > 0.0 && |c.likelihood| == n == |c.groups| && n > 0 && |c.likelihood[0]| > 0 &&
    forall i | 0 <= i < n :: |c.likelihood[i]| == |c.likelihood[0]| && Distribution(c.likelihood[i], tolerance)
  }

  /** The structural check of a belief, with the tolerance on sums as a parameter. */
  predicate Valid(b: Belief, tolerance: real) {
    var n := |b.probabilities|;
    n > 0 && |b.utilities| == n && |b.utilities[0]| > 0 && b.remaining >= 0 && b.horizon >= 0 &&
    (b.horizon > 0 ==> b.remaining <= b.horizon) && Distribution(b.probabilities, tolerance) &&
    (forall i | 0 <= i < n :: |b.utilities[i]| == |b.utilities[0]|) &&
    (forall c | c in b.computations :: ValidComputation(c, n, tolerance))
  }

  // ---------- Expected values and maxima ----------

  function Column(u: Matrix, j: int): Vector {
    seq(|u|, i => At2(u, i, j))
  }

  /** Expected utility of every option under the (possibly unnormalised) weights p. */
  function Values(p: Vector, u: Matrix): (v: Vector)
    requires |u| > 0
    ensures |v| == |u[0]|
  {
    seq(|u[0]|, j => Dot(|u|, p, Column(u, j)))
  }

  function Best(x: Vector): real
    requires |x| > 0
  {
    if |x| == 1 then x[0] else Max(Best(x[..|x| - 1]), x[|x| - 1])
  }

  lemma {:induction false} BestIsMaximum(x: Vector)
    requires |x| > 0
    ensures forall i | 0 <= i < |x| :: x[i] <= Best(x)
    ensures exists i :: 0 <= i < |x| && x[i] == Best(x)
  {
    if |x| == 1 {
      assert x[0] == Best(x);
    } else {
      var l := |x| - 1;
      BestIsMaximum(x[..l]);
      var i :| 0 <= i < l && x[..l][i] == Best(x[..l]);
      assert x[i] == Best(x[..l]) && x[l] == x[l];
    }
  }

  /** Only the maximum is both a bound and attained. */
  lemma BestIs(x: Vector, j: nat)
    requires j < |x| && forall i | 0 <= i < |x| :: x[i] <= x[j]
    ensures Best(x) == x[j]
  {
    BestIsMaximum(x);
  }

  /** The first index of a maximum. */
  method MaxIndex(x: Vector) returns (j: nat)
    requires |x| > 0
    ensures j < |x| && x[j] == Best(x) && forall k | 0 <= k < j :: x[k] < x[j]
  {
    j := 0;
    for i := 1 to |x|
      invariant j < i
      invariant forall k | 0 <= k < i :: x[k] <= x[j]
      invariant forall k | 0 <= k < j :: x[k] < x[j]
    {
      if x[i] > x[j] {
        j := i;
      }
    }
    BestIs(x, j);
  }

  method ExpectedValues(p: Vector, u: Matrix) returns (v: Vector)
    requires |u| > 0 && |p| == |u| && forall i | 0 <= i < |u| :: |u[i]| == |u[0]|
    ensures v == Values(p, u)
  {
    var k := |u[0]|;
    v := seq(k, _ => 0.0);
    for i := 0 to |u|
      invariant |v| == k && forall j | 0 <= j < k :: v[j] == Dot(i, p, Column(u, j))
    {
      for j := 0 to k
        invariant |v| == k
        invariant forall l | 0 <= l < k :: v[l] == Dot(if l < j then i + 1 else i, p, Column(u, l))
      {
        v := v[j := v[j] + p[i] * u[i][j]];
      }
    }
  }

  ghost function BaseValue(b: Belief): real
    requires Rectangular(b.utilities)
  {
    Best(Values(b.probabilities, b.utilities))
  }

  ghost predicate IsTerminalChoice(b: Belief, value: real, action: int)
    requires Rectangular(b.utilities)
  {
    var v := Values(b.probabilities, b.utilities);
    0 <= action < |v| && value == v[action] == BaseValue(b) && forall k | 0 <= k < action :: v[k] < value
  }

  /** The first best option under the current probabilities, and its expected utility. */
  method Terminal(b: Belief) returns (value: real, action: nat)
    requires Rectangular(b.utilities) && |b.probabilities| == |b.utilities|
    ensures IsTerminalChoice(b, value, action)
  {
    var v := ExpectedValues(b.probabilities, b.utilities);
    action := MaxIndex(v);
    value := v[action];
  }

  // ---------- Splitting a belief cannot lose value ----------

  /** The entrywise sum of weight vectors. */
  function Pooled(n: nat, ws: seq<Vector>): (p: Vector)
    ensures |p| == n
  {
    if ws == [] then seq(n, _ => 0.0)
    else
      var front, last := Pooled(n, ws[..|ws| - 1]), ws[|ws| - 1];
      seq(n, i requires 0 <= i < n => front[i] + At(last, i))
  }

  /** Acting best within every part. */
  function BestTotal(ws: seq<Vector>, u: Matrix): real
    requires |u| > 0 && |u[0]| > 0
  {
    if ws == [] then 0.0 else BestTotal(ws[..|ws| - 1], u) + Best(Values(ws[|ws| - 1], u))
  }

  function Bests(u: Matrix): (v: Vector)
    requires forall i | 0 <= i < |u| :: |u[i]| > 0
    ensures |v| == |u|
  {
    seq(|u|, i requires 0 <= i < |u| => Best(u[i]))
  }

  predicate NonNegative(w: Vector) {
    forall i | 0 <= i < |w| :: w[i] >= 0.0
  }

  predicate Rectangular(u: Matrix) {
    |u| > 0 && |u[0]| > 0 && forall i | 0 <= i < |u| :: |u[i]| == |u[0]|
  }

  lemma PooledDot(n: nat, ws: seq<Vector>, z: Vector)
    requires ws != []
    ensures Dot(n, Pooled(n, ws), z) == Dot(n, Pooled(n, ws[..|ws| - 1]), z) + Dot(n, ws[|ws| - 1], z)
  {
    DotLinear(n, 1.0, Pooled(n, ws[..|ws| - 1]), 1.0, ws[|ws| - 1], Pooled(n, ws), z);
  }

  /** One fixed option does no better than the best option of every part. */
  lemma {:induction false} FixedOptionBound(ws: seq<Vector>, u: Matrix, j: nat)
    requires Rectangular(u) && j < |u[0]|
    ensures Dot(|u|, Pooled(|u|, ws), Column(u, j)) <= BestTotal(ws, u)
  {
    hide Dot, Column, Pooled, Best;
    if ws == [] {
      EmptyPool(|u|, Column(u, j));
    } else {
      FixedOptionBound(ws[..|ws| - 1], u, j);
      var last := Values(ws[|ws| - 1], u);
      PooledDot(|u|, ws, Column(u, j));
      BestIsMaximum(last);
      assert last[j] <= Best(last);
    }
  }

  lemma EmptyPool(n: nat, z: Vector)
    ensures Dot(n, Pooled(n, []), z) == 0.0
  {
    DotZero(n, Pooled(n, []), z);
  }

  /** Knowing the hypothesis does at least as well as knowing the part. */
  lemma {:induction false} FullInformationBound(ws: seq<Vector>, u: Matrix)
    requires Rectangular(u) && forall t | 0 <= t < |ws| :: NonNegative(ws[t])
    ensures BestTotal(ws, u) <= Dot(|u|, Pooled(|u|, ws), Bests(u))
  {
    hide Dot, Column, Pooled, Best;
    if ws == [] {
      EmptyPool(|u|, Bests(u));
    } else {
      var last := ws[|ws| - 1];
      FullInformationBound(ws[..|ws| - 1], u);
      PooledDot(|u|, ws, Bests(u));
      BestIsMaximum(Values(last, u));
      var j :| 0 <= j < |u[0]| && Values(last, u)[j] == Best(Values(last, u));
      OptionBelowBests(last, u, j);
    }
  }

  lemma OptionBelowBests(w: Vector, u: Matrix, j: nat)
    requires Rectangular(u) && j < |u[0]| && NonNegative(w)
    ensures Dot(|u|, w, Column(u, j)) <= Dot(|u|, w, Bests(u))
  {
    forall i | 0 <= i < |u| ensures At(w, i) * At(Column(u, j), i) <= At(w, i) * At(Bests(u), i) {
      BestIsMaximum(u[i]);
      assert At(Column(u, j), i) == u[i][j] <= Best(u[i]);
    }
    SumMono(|u|, i => At(w, i) * At(Column(u, j), i), i => At(w, i) * At(Bests(u), i));
  }

  /** The information sandwich, for every way of splitting the belief into parts. */
  lemma InformationSandwich(p: Vector, ws: seq<Vector>, u: Matrix)
    requires Rectangular(u) && |p| == |u| && Pooled(|u|, ws) == p
    requires forall t | 0 <= t < |ws| :: NonNegative(ws[t])
    ensures Best(Values(p, u)) <= BestTotal(ws, u) <= Dot(|u|, p, Bests(u))
  {
    BestIsMaximum(Values(p, u));
    var j :| 0 <= j < |u[0]| && Values(p, u)[j] == Best(Values(p, u));
    FixedOptionBound(ws, u, j);
    FullInformationBound(ws, u);
  }

  /** Option j is a best one within every part. */
  predicate BestInEveryPart(ws: seq<Vector>, u: Matrix, j: int)
    requires Rectangular(u)
  {
    0 <= j < |u[0]| && forall t | 0 <= t < |ws| :: Values(ws[t], u)[j] == Best(Values(ws[t], u))
  }

  /** One fixed option loses nothing exactly when it is a best one within every part. */
  lemma {:induction false} FixedOptionIsBestIff(ws: seq<Vector>, u: Matrix, j: nat)
    requires Rectangular(u) && j < |u[0]|
    ensures Dot(|u|, Pooled(|u|, ws), Column(u, j)) == BestTotal(ws, u) <==> BestInEveryPart(ws, u, j)
  {
    hide Dot, Column, Pooled, Best;
    if ws == [] {
      EmptyPool(|u|, Column(u, j));
    } else {
      var m := |ws| - 1;
      FixedOptionIsBestIff(ws[..m], u, j);
      FixedOptionBound(ws[..m], u, j);
      PooledDot(|u|, ws, Column(u, j));
      BestIsMaximum(Values(ws[m], u));
      assert Values(ws[m], u)[j] <= Best(Values(ws[m], u));
      assert forall t | 0 <= t < m :: ws[..m][t] == ws[t];
    }
  }

  /** Seeing the part is worth nothing exactly when one option is best in all of them. */
  lemma SplitIsWorthlessIff(p: Vector, ws: seq<Vector>, u: Matrix)
    requires Rectangular(u) && |p| == |u| && Pooled(|u|, ws) == p
    ensures Best(Values(p, u)) <= BestTotal(ws, u)
    ensures Best(Values(p, u)) == BestTotal(ws, u) <==> exists j :: BestInEveryPart(ws, u, j)
  {
    hide Dot, Column, Pooled, Best, BestTotal, BestInEveryPart;
    var v := Values(p, u);
    BestIsMaximum(v);
    forall j | 0 <= j < |v| ensures v[j] <= BestTotal(ws, u) && (v[j] == BestTotal(ws, u) <==> BestInEveryPart(ws, u, j)) {
      FixedOptionBound(ws, u, j);
      FixedOptionIsBestIff(ws, u, j);
    }
    forall j | BestInEveryPart(ws, u, j) ensures 0 <= j < |v| {
      OptionInRange(ws, u, j);
    }
  }

  lemma OptionInRange(ws: seq<Vector>, u: Matrix, j: int)
    requires Rectangular(u) && BestInEveryPart(ws, u, j)
    ensures 0 <= j < |u[0]|
  {
  }

  // ---------- The two splits: by observed result, by parameter group ----------

  /** Joint weight of each hypothesis with result o; not normalised. */
  function ResultPart(p: Vector, c: Computation, o: int): (w: Vector)
    ensures |w| == |p|
  {
    seq(|p|, i requires 0 <= i < |p| => p[i] * At2(c.likelihood, i, o))
  }

  function ResultParts(p: Vector, c: Computation): seq<Vector>
    requires |c.likelihood| > 0
  {
    seq(|c.likelihood[0]|, o => ResultPart(p, c, o))
  }

  function GroupPart(p: Vector, groups: seq<int>, g: int): Vector {
    seq(|p|, i requires 0 <= i < |p| => if i < |groups| && groups[i] == g then p[i] else 0.0)
  }

  function GroupParts(p: Vector, groups: seq<int>, keys: seq<int>): seq<Vector> {
    seq(|keys|, t requires 0 <= t < |keys| => GroupPart(p, groups, keys[t]))
  }

  lemma {:induction false} PooledEntry(n: nat, ws: seq<Vector>, i: nat)
    requires i < n
    ensures Pooled(n, ws)[i] == Sum(|ws|, t => At2(ws, t, i))
  {
    if ws != [] {
      var front := ws[..|ws| - 1];
      PooledEntry(n, front, i);
      SumCong(|front|, t => At2(front, t, i), t => At2(ws, t, i));
    }
  }

  lemma ResultsPool(p: Vector, c: Computation)
    requires ValidComputation(c, |p|, 0.0)
    ensures Pooled(|p|, ResultParts(p, c)) == p
  {
    hide Pooled, Sum;
    var ws := ResultParts(p, c);
    forall i | 0 <= i < |p| ensures Pooled(|p|, ws)[i] == p[i] {
      PooledEntry(|p|, ws, i);
      var row := c.likelihood[i];
      assert Distribution(row, 0.0) && Total(row) == 1.0;
      SumScale(|ws|, p[i], o => At(row, o), o => At2(ws, o, i));
    }
  }

  lemma GroupsPool(p: Vector, groups: seq<int>, keys: seq<int>)
    requires |groups| == |p| && Distinct(keys) && forall g | g in groups :: g in keys
    ensures Pooled(|p|, GroupParts(p, groups, keys)) == p
  {
    hide Pooled, Sum;
    var ws := GroupParts(p, groups, keys);
    forall i | 0 <= i < |p| ensures Pooled(|p|, ws)[i] == p[i] {
      PooledEntry(|p|, ws, i);
      assert groups[i] in groups;
      var t :| 0 <= t < |keys| && keys[t] == groups[i];
      SumSingle(|ws|, t, s => At2(ws, s, i));
    }
  }

  // ---------- The value-of-information features ----------

  datatype Features = Features(myopic: real, perfect: real, subset: real, cost: real)

  ghost function KeySet(groups: seq<int>): set<int> {
    set g | g in groups
  }

  ghost function PerfectValue(b: Belief): real
    requires Rectangular(b.utilities)
  {
    Dot(|b.utilities|, b.probabilities, Bests(b.utilities))
  }

  ghost function ObservedValue(b: Belief, c: Computation): real
    requires Rectangular(b.utilities) && |c.likelihood| > 0
  {
    BestTotal(ResultParts(b.probabilities, c), b.utilities)
  }

  ghost function GroupedValue(b: Belief, c: Computation): real
    requires Rectangular(b.utilities)
  {
    BestTotal(GroupParts(b.probabilities, c.groups, SortedKeys(KeySet(c.groups))), b.utilities)
  }

  ghost function FeaturesOf(b: Belief, c: Computation): Features
    requires Rectangular(b.utilities) && |c.likelihood| > 0
  {
    Features(Max(0.0, ObservedValue(b, c) - BaseValue(b)), Max(0.0, PerfectValue(b) - BaseValue(b)),
             Max(0.0, GroupedValue(b, c) - BaseValue(b)), c.cost)
  }

  /** With exact sums no clamp ever acts, and no partial information beats full information. */
  lemma FeatureBounds(b: Belief, c: Computation)
    requires Valid(b, 0.0) && c in b.computations
    ensures BaseValue(b) <= ObservedValue(b, c) <= PerfectValue(b)
    ensures BaseValue(b) <= GroupedValue(b, c) <= PerfectValue(b)
    ensures var f := FeaturesOf(b, c); 0.0 <= f.myopic <= f.perfect && 0.0 <= f.subset <= f.perfect
  {
    var p, keys := b.probabilities, SortedKeys(KeySet(c.groups));
    assert ValidComputation(c, |p|, 0.0) && Distribution(p, 0.0);
    ResultsPool(p, c);
    forall o | 0 <= o < |c.likelihood[0]| ensures NonNegative(ResultPart(p, c, o)) {
      ResultPartNonNegative(p, c, o);
    }
    InformationSandwich(p, ResultParts(p, c), b.utilities);
    GroupsPool(p, c.groups, keys);
    InformationSandwich(p, GroupParts(p, c.groups, keys), b.utilities);
  }

  lemma ResultPartNonNegative(p: Vector, c: Computation, o: nat)
    requires ValidComputation(c, |p|, 0.0) && o < |c.likelihood[0]| && NonNegative(p)
    ensures NonNegative(ResultPart(p, c, o))
  {
    forall i | 0 <= i < |p| ensures ResultPart(p, c, o)[i] >= 0.0 {
      assert Distribution(c.likelihood[i], 0.0);
    }
  }

  // ---------- Computing the features ----------

  predicate IsNormalised(p: Vector, w: Vector, mass: real)
    requires mass != 0.0
  {
    |p| == |w| && forall i | 0 <= i < |w| :: p[i] == w[i] / mass
  }

  lemma ScaledValues(n: nat, w: Vector, post: Vector, mass: real, u: Matrix)
    requires Rectangular(u) && |u| == n == |w| && mass > 0.0 && IsNormalised(post, w, mass)
    ensures mass * Best(Values(post, u)) == Best(Values(w, u))
  {
    hide Best, Column;
    forall j | 0 <= j < |u[0]| ensures Values(w, u)[j] == mass * Values(post, u)[j] {
      DotLinear(n, mass, post, 0.0, post, w, Column(u, j));
    }
    var f := (a: real) => mass * a;
    forall a, b | a <= b ensures f(a) <= f(b) {
      MulMono(mass, a, b);
    }
    MappedBest(Values(post, u), Values(w, u), f);
  }

  /** Maxima commute with monotone maps. */
  lemma {:induction false} MappedBest(x: Vector, y: Vector, f: real -> real)
    requires |x| == |y| > 0 && forall j | 0 <= j < |x| :: y[j] == f(x[j])
    requires forall a, b | a <= b :: f(a) <= f(b)
    ensures Best(y) == f(Best(x))
  {
    if |x| > 1 {
      var l := |x| - 1;
      MappedBest(x[..l], y[..l], f);
      assert f(Best(x[..l])) <= f(x[l]) || f(x[l]) <= f(Best(x[..l]));
    }
  }

  lemma MulMono(c: real, a: real, b: real)
    requires c >= 0.0 && a <= b
    ensures c * a <= c * b
  {
  }

  lemma ZeroPartValue(w: Vector, u: Matrix)
    requires Rectangular(u) && forall i | 0 <= i < |w| :: w[i] == 0.0
    ensures Best(Values(w, u)) == 0.0
  {
    forall j | 0 <= j < |u[0]| ensures Values(w, u)[j] == 0.0 {
      DotZero(|u|, w, Column(u, j));
    }
    BestIs(Values(w, u), 0);
  }

  /** The mass of a result is non-negative, and zero only when every part is. */
  lemma PartMass(b: Belief, c: Computation, o: nat)
    requires Valid(b, TOLERANCE) && ValidComputation(c, |b.probabilities|, TOLERANCE) && o < |c.likelihood[0]|
    ensures var part := ResultPart(b.probabilities, c, o);
            NonNegative(part) && Total(part) >= 0.0 && (Total(part) == 0.0 ==> forall i | 0 <= i < |part| :: part[i] == 0.0)
  {
    var part := ResultPart(b.probabilities, c, o);
    forall i | 0 <= i < |part| ensures part[i] >= 0.0 {
      assert Distribution(c.likelihood[i], TOLERANCE);
    }
    var f := i => At(part, i);
    SumNonNegative(|part|, f);
    forall i | 0 <= i < |part| ensures part[i] <= Total(part) {
      assert f(i) <= Sum(|part|, f);
    }
  }

  lemma ValidShape(b: Belief)
    requires Valid(b, TOLERANCE)
    ensures Rectangular(b.utilities) && |b.probabilities| == |b.utilities|
    ensures forall c | c in b.computations :: ValidComputation(c, |b.probabilities|, TOLERANCE)
  {
  }

  /** What one result contributes: its probability times the best value once conditioned on it;
      an impossible result contributes nothing. */
  method ValueOfResult(b: Belief, c: Computation, o: nat) returns (value: real)
    requires Valid(b, TOLERANCE) && ValidComputation(c, |b.probabilities|, TOLERANCE) && o < |c.likelihood[0]|
    ensures |b.utilities| > 0 && |b.utilities[0]| > 0 && value == Best(Values(ResultPart(b.probabilities, c, o), b.utilities))
  {
    hide Valid, Best, Values, Distribution, ResultPart, IsNormalised, NonNegative, Total;
    ValidShape(b);
    PartMass(b, c, o);
    var post, p := Conditioned(b, c, o);
    if p == 0.0 {
      ZeroPartValue(post, b.utilities);
      return 0.0;
    }
    var normal := Normalised(post, p);
    ScaledValues(|b.utilities|, post, normal, p, b.utilities);
    var v, _ := Terminal(b.(probabilities := normal));
    value := p * v;
  }

  /** Expected best value after seeing the result. */
  method ValueAfterResult(b: Belief, c: Computation) returns (voi: real)
    requires Valid(b, TOLERANCE) && ValidComputation(c, |b.probabilities|, TOLERANCE)
    ensures voi == ObservedValue(b, c)
  {
    hide Valid, Best, Values, Distribution, ResultPart;
    ValidShape(b);
    voi := 0.0;
    ghost var parts := ResultParts(b.probabilities, c);
    for o := 0 to |c.likelihood[0]|
      invariant voi == BestTotal(parts[..o], b.utilities)
    {
      assert parts[..o + 1] == parts[..o] + [parts[o]] && parts[..o + 1][..o] == parts[..o];
      var value := ValueOfResult(b, c, o);
      voi := voi + value;
    }
    assert parts[..|parts|] == parts;
  }

  /** Joint weights with result o, and their sum. */
  method Conditioned(b: Belief, c: Computation, o: nat) returns (post: Vector, mass: real)
    requires |c.likelihood| == |b.probabilities| > 0 && o < |c.likelihood[0]|
    requires forall i | 0 <= i < |c.likelihood| :: |c.likelihood[i]| == |c.likelihood[0]|
    ensures post == ResultPart(b.probabilities, c, o) && mass == Total(post)
  {
    ghost var part := ResultPart(b.probabilities, c, o);
    post, mass := [], 0.0;
    for i := 0 to |b.probabilities|
      invariant post == part[..i] && mass == Sum(i, k => At(part, k))
    {
      assert part[i] == b.probabilities[i] * c.likelihood[i][o];
      post := post + [b.probabilities[i] * c.likelihood[i][o]];
      mass := mass + post[i];
    }
  }

  method Normalised(w: Vector, mass: real) returns (p: Vector)
    requires mass != 0.0
    ensures |p| == |w| && IsNormalised(p, w, mass)
  {
    p := w;
    for i := 0 to |w|
      invariant |p| == |w| && forall k | 0 <= k < |w| :: p[k] == if k < i then w[k] / mass else w[k]
    {
      p := p[i := p[i] / mass];
    }
  }

  method AddScaled(v: Vector, c: real, row: Vector) returns (w: Vector)
    requires |row| == |v|
    ensures |w| == |v| && forall j | 0 <= j < |v| :: w[j] == v[j] + c * row[j]
  {
    w := v;
    for j := 0 to |v|
      invariant |w| == |v|
      invariant forall l | 0 <= l < |v| :: w[l] == if l < j then v[l] + c * row[l] else v[l]
    {
      w := w[j := w[j] + c * row[j]];
    }
  }

  /** Utility totals per group label, accumulated hypothesis by hypothesis. */
  method GroupValues(b: Belief, groups: seq<int>) returns (totals: map<int, Vector>)
    requires Rectangular(b.utilities) && |b.probabilities| == |b.utilities| == |groups|
    ensures totals.Keys == KeySet(groups)
    ensures forall g | g in totals :: totals[g] == Values(GroupPart(b.probabilities, groups, g), b.utilities)
  {
    hide PartialValues, GroupPart, Dot, Column, Values;
    var u, k := b.utilities, |b.utilities[0]|;
    totals := map[];
    for i := 0 to |groups|
      invariant forall g :: g in totals <==> g in groups[..i]
      invariant forall g | g in totals :: PartialValues(b, groups, g, i, totals[g])
    {
      var g := groups[i];
      var v := if g in totals then totals[g] else seq(k, _ => 0.0);
      if g !in totals {
        AbsentGroup(b, groups, g, i, v);
      }
      PartialLength(b, groups, g, i, v);
      var w := AddScaled(v, b.probabilities[i], u[i]);
      GroupStep(b, groups, g, i, v, w);
      forall h | h in totals && h != g ensures PartialValues(b, groups, h, i + 1, totals[h]) {
        PartialLength(b, groups, h, i, totals[h]);
        GroupStep(b, groups, h, i, totals[h], totals[h]);
      }
      totals := totals[g := w];
      assert groups[..i + 1] == groups[..i] + [g];
    }
    assert groups[..|groups|] == groups;
    forall g | g in totals ensures totals[g] == Values(GroupPart(b.probabilities, groups, g), u) {
      CompleteValues(b, groups, g, totals[g]);
    }
    assert forall g :: g in totals.Keys <==> g in KeySet(groups);
  }

  lemma PartialLength(b: Belief, groups: seq<int>, g: int, i: nat, v: Vector)
    requires |b.utilities| > 0 && PartialValues(b, groups, g, i, v)
    ensures |v| == |b.utilities[0]|
  {
  }

  lemma CompleteValues(b: Belief, groups: seq<int>, g: int, v: Vector)
    requires |b.utilities| == |groups| > 0 && PartialValues(b, groups, g, |groups|, v)
    ensures v == Values(GroupPart(b.probabilities, groups, g), b.utilities)
  {
  }

  ghost predicate PartialValues(b: Belief, groups: seq<int>, g: int, i: nat, v: Vector)
    requires |b.utilities| > 0
  {
    |v| == |b.utilities[0]| &&
    forall j | 0 <= j < |v| :: v[j] == Dot(i, GroupPart(b.probabilities, groups, g), Column(b.utilities, j))
  }

  lemma AbsentGroup(b: Belief, groups: seq<int>, g: int, i: nat, v: Vector)
    requires |b.utilities| > 0 && i <= |groups| && g !in groups[..i]
    requires |v| == |b.utilities[0]| && forall j | 0 <= j < |v| :: v[j] == 0.0
    ensures PartialValues(b, groups, g, i, v)
  {
    var part := GroupPart(b.probabilities, groups, g);
    forall k | 0 <= k < i ensures At(part, k) == 0.0 {
      assert groups[k] == groups[..i][k];
    }
    forall j | 0 <= j < |v| ensures v[j] == Dot(i, part, Column(b.utilities, j)) {
      DotZero(i, part, Column(b.utilities, j));
    }
  }

  lemma GroupStep(b: Belief, groups: seq<int>, g: int, i: nat, v: Vector, w: Vector)
    requires Rectangular(b.utilities) && |b.probabilities| == |b.utilities| == |groups| && i < |groups|
    requires PartialValues(b, groups, g, i, v) && |w| == |v|
    requires forall j | 0 <= j < |v| ::
               w[j] == if groups[i] == g then v[j] + b.probabilities[i] * b.utilities[i][j] else v[j]
    ensures PartialValues(b, groups, g, i + 1, w)
  {
  }

  /** Best utility per group, summed over the group labels in ascending order. */
  method ValueAfterGroup(b: Belief, c: Computation) returns (sub: real)
    requires Rectangular(b.utilities) && |b.probabilities| == |b.utilities| == |c.groups|
    ensures sub == GroupedValue(b, c)
  {
    hide Best, Values, SortedKeys, GroupPart, Dot;
    var totals := GroupValues(b, c.groups);
    var keys := SortInts(totals.Keys);
    ghost var parts := GroupParts(b.probabilities, c.groups, keys);
    sub := 0.0;
    for t := 0 to |keys|
      invariant sub == BestTotal(parts[..t], b.utilities)
    {
      assert parts[..t + 1] == parts[..t] + [parts[t]] && parts[..t + 1][..t] == parts[..t];
      assert keys[t] in totals;
      var v := totals[keys[t]];
      var j := MaxIndex(v);
      sub := sub + v[j];
    }
    assert parts[..|parts|] == parts;
  }

  method ValueOfCertainty(b: Belief) returns (vpi: real)
    requires Rectangular(b.utilities) && |b.probabilities| == |b.utilities|
    ensures vpi == PerfectValue(b)
  {
    vpi := 0.0;
    for i := 0 to |b.probabilities|
      invariant vpi == Dot(i, b.probabilities, Bests(b.utilities))
    {
      var j := MaxIndex(b.utilities[i]);
      vpi := vpi + b.probabilities[i] * b.utilities[i][j];
    }
  }

  ghost predicate FeaturesMatch(b: Belief, fs: seq<Features>) {
    Rectangular(b.utilities) && |fs| <= |b.computations| &&
    forall a | 0 <= a < |fs| ::
      |b.computations[a].likelihood| > 0 && fs[a] == FeaturesOf(b, b.computations[a])
  }

  method FeaturesFor(b: Belief, c: Computation, base: real, vpi: real) returns (f: Features)
    requires Valid(b, TOLERANCE) && c in b.computations && Rectangular(b.utilities)
    requires base == BaseValue(b) && vpi == Max(0.0, PerfectValue(b) - base)
    ensures |c.likelihood| > 0 && f == FeaturesOf(b, c)
  {
    hide Valid, Distribution, BaseValue, PerfectValue, ObservedValue, GroupedValue;
    ValidShape(b);
    var voi := ValueAfterResult(b, c);
    var sub := ValueAfterGroup(b, c);
    f := Features(Max(0.0, voi - base), vpi, Max(0.0, sub - base), c.cost);
  }

  method BMPSInformation(b: Belief) returns (r: Result<seq<Features>>)
    ensures r.Ok? <==> Valid(b, TOLERANCE)
    ensures r.Ok? ==> |r.value| == |b.computations| && FeaturesMatch(b, r.value)
  {
    hide Valid, Max, BaseValue, PerfectValue, FeaturesOf, Distribution, Values, Best;
    if !Valid(b, TOLERANCE) {
      return Err;
    }
    ValidShape(b);
    var base, _ := Terminal(b);
    var vpi := ValueOfCertainty(b);
    vpi := Max(0.0, vpi - base);
    var out := [];
    for a := 0 to |b.computations|
      invariant |out| == a && FeaturesMatch(b, out)
    {
      assert b.computations[a] in b.computations;
      var f := FeaturesFor(b, b.computations[a], base, vpi);
      out := out + [f];
    }
    return Ok(out);
  }

  // ---------- Weighted stopping rule ----------

  datatype Weights = Weights(myopic: real, perfect: real, subset: real, cost: real)

  predicate AcceptsWeights(w: Weights, horizon: int) {
    horizon >= 1 &&
    0.0 <= w.myopic <= 1.0 && 0.0 <= w.perfect <= 1.0 && 0.0 <= w.subset <= 1.0 &&
    Abs(w.myopic + w.perfect + w.subset - 1.0) <= TOLERANCE &&
    1.0 - TOLERANCE <= w.cost <= horizon as real + TOLERANCE
  }

  function WeightsAt(x: real, y: real, z: real, h: int): Weights {
    Weights(x, (1.0 - x) * y, (1.0 - x) * (1.0 - y), 1.0 + (h as real - 1.0) * z)
  }

  predicate UnitPoint(x: real, y: real, z: real) {
    0.0 <= x <= 1.0 && 0.0 <= y <= 1.0 && 0.0 <= z <= 1.0
  }

  lemma UnitProduct(a: real, b: real)
    requires 0.0 <= a && 0.0 <= b <= 1.0
    ensures 0.0 <= a * b <= a
  {
  }

  /** Every search point is turned into weights that meet the constraints exactly. */
  lemma WeightsAtAccepted(x: real, y: real, z: real, h: int)
    requires UnitPoint(x, y, z) && h >= 1
    ensures var w := WeightsAt(x, y, z, h);
            AcceptsWeights(w, h) && w.myopic + w.perfect + w.subset == 1.0 && 1.0 <= w.cost <= h as real
  {
    UnitProduct(1.0 - x, y);
    UnitProduct(1.0 - x, 1.0 - y);
    var extra := h as real - 1.0;
    assert extra >= 0.0;
    UnitProduct(extra, z);
    assert 1.0 + extra * z <= h as real;
  }

  /** Weights are taken up to a billionth off the simplex and off the price range; beyond it they are refused. */
  lemma WeightLimits(w: Weights, h: int)
    ensures AcceptsWeights(w, h) <==>
            && h >= 1 && 0.0 <= w.myopic <= 1.0 && 0.0 <= w.perfect <= 1.0 && 0.0 <= w.subset <= 1.0
            && 0.999999999 <= w.myopic + w.perfect + w.subset <= 1.000000001
            && 0.999999999 <= w.cost <= h as real + 0.000000001
  {
  }

  function Clock(b: Belief): int {
    var m := if b.horizon > b.remaining then b.horizon else b.remaining;
    if m > 1 then m else 1
  }

  function Worth(w: Weights, f: Features): real {
    w.myopic * f.myopic + w.perfect * f.perfect + w.subset * f.subset - w.cost * f.cost
  }

  datatype Decision = Decision(computation: int, terminalAction: int, terminalUtility: real,
                               features: seq<Features>, voc: Vector)

  /** The first index of greatest positive worth, or -1 without budget or profit. */
  ghost predicate IsChoice(voc: Vector, remaining: int, chosen: int) {
    -1 <= chosen < |voc| &&
    if chosen < 0 then remaining <= 0 || forall i | 0 <= i < |voc| :: voc[i] <= 0.0
    else
      remaining > 0 && voc[chosen] > 0.0 &&
      (forall i | 0 <= i < |voc| :: voc[i] <= voc[chosen]) && (forall i | 0 <= i < chosen :: voc[i] < voc[chosen])
  }

  ghost predicate IsDecision(b: Belief, w: Weights, d: Decision) {
    |d.features| == |d.voc| == |b.computations| && FeaturesMatch(b, d.features) &&
    (forall i | 0 <= i < |d.voc| :: d.voc[i] == Worth(w, d.features[i])) &&
    IsChoice(d.voc, b.remaining, d.computation) &&
    IsTerminalChoice(b, d.terminalUtility, d.terminalAction)
  }

  method Choose(f: seq<Features>, w: Weights, remaining: int) returns (voc: Vector, chosen: int)
    ensures |voc| == |f| && forall i | 0 <= i < |f| :: voc[i] == Worth(w, f[i])
    ensures IsChoice(voc, remaining, chosen)
  {
    hide Worth;
    var best := 0.0;
    voc, chosen := [], -1;
    for i := 0 to |f|
      invariant |voc| == i && -1 <= chosen < i
      invariant forall k | 0 <= k < i :: voc[k] == Worth(w, f[k])
      invariant IsChoice(voc, remaining, chosen)
      invariant best == if chosen < 0 then 0.0 else voc[chosen]
    {
      var v := Worth(w, f[i]);
      voc := voc + [v];
      if remaining > 0 && v > best {
        best, chosen := v, i;
      }
    }
  }

  method SelectBMPS(b: Belief, w: Weights) returns (r: Result<Decision>)
    ensures r.Ok? <==> AcceptsWeights(w, Clock(b)) && Valid(b, TOLERANCE)
    ensures r.Ok? ==> IsDecision(b, w, r.value)
  {
    if !AcceptsWeights(w, Clock(b)) {
      return Err;
    }
    var info := BMPSInformation(b);
    if info.Err? {
      return Err;
    }
    var u, j := Terminal(b);
    hide FeaturesMatch, IsTerminalChoice, Worth, IsChoice;
    var voc, chosen := Choose(info.value, w, b.remaining);
    return Ok(Decision(chosen, j, u, info.value, voc));
  }

  /** Thinking is bought only below the value of perfect information. */
  lemma ChosenCostsLessThanPerfect(b: Belief, w: Weights, d: Decision)
    requires Valid(b, 0.0) && AcceptsWeights(w, Clock(b)) && IsDecision(b, w, d) && d.computation >= 0
    ensures var f := d.features[d.computation];
            (1.0 - TOLERANCE) * f.cost < (1.0 + TOLERANCE) * f.perfect &&
            (w.myopic + w.perfect + w.subset == 1.0 && w.cost >= 1.0 ==> f.cost < f.perfect)
  {
    var c, f := b.computations[d.computation], d.features[d.computation];
    assert c in b.computations && ValidComputation(c, |b.probabilities|, 0.0);
    assert d.voc[d.computation] == Worth(w, f) > 0.0;
    assert f == FeaturesOf(b, c);
    FeatureBounds(b, c);
    PositiveWorth(w, f);
  }

  lemma PositiveWorth(w: Weights, f: Features)
    requires w.myopic >= 0.0 && w.perfect >= 0.0 && w.subset >= 0.0 && w.cost >= 1.0 - TOLERANCE
    requires w.myopic + w.perfect + w.subset <= 1.0 + TOLERANCE && Worth(w, f) > 0.0
    requires f.myopic <= f.perfect && f.subset <= f.perfect && f.perfect >= 0.0 && f.cost > 0.0
    ensures (1.0 - TOLERANCE) * f.cost < (1.0 + TOLERANCE) * f.perfect
    ensures w.myopic + w.perfect + w.subset == 1.0 && w.cost >= 1.0 ==> f.cost < f.perfect
  {
    var mix := w.myopic + w.perfect + w.subset;
    WorthBound(w, f);
    var gain, price := f.perfect * mix, f.cost * w.cost;
    PriceBelowGain(f.cost, f.perfect, w.cost, mix, price, gain, 1.0 - TOLERANCE, 1.0 + TOLERANCE);
    if mix == 1.0 && w.cost >= 1.0 {
      PriceBelowGain(f.cost, f.perfect, w.cost, mix, price, gain, 1.0, 1.0);
    }
  }

  lemma PriceBelowGain(cost: real, perfect: real, weight: real, mix: real, price: real, gain: real, lo: real, hi: real)
    requires price < gain && price == cost * weight && gain == perfect * mix
    requires cost > 0.0 && perfect >= 0.0 && weight >= lo && mix <= hi
    ensures lo * cost < hi * perfect
  {
    assert cost * lo <= cost * weight;
    assert perfect * mix <= perfect * hi;
    assert lo * cost == cost * lo;
  }

  lemma WorthBound(w: Weights, f: Features)
    requires w.myopic >= 0.0 && w.perfect >= 0.0 && w.subset >= 0.0
    requires f.myopic <= f.perfect && f.subset <= f.perfect
    ensures Worth(w, f) <= f.perfect * (w.myopic + w.perfect + w.subset) - f.cost * w.cost
  {
    MulMono(w.myopic, f.myopic, f.perfect);
    MulMono(w.subset, f.subset, f.perfect);
  }

  // ---------- The rule in terms of values of information ----------

  /** The worth of a computation: weighted gains over deciding now, less its weighted cost. */
  lemma WorthOnValues(b: Belief, w: Weights, d: Decision, a: nat)
    requires IsDecision(b, w, d) && a < |b.computations|
    ensures Rectangular(b.utilities) && |b.computations[a].likelihood| > 0
    ensures var c, base := b.computations[a], BaseValue(b);
            d.voc[a] == w.myopic * Max(0.0, ObservedValue(b, c) - base) + w.perfect * Max(0.0, PerfectValue(b) - base)
                        + w.subset * Max(0.0, GroupedValue(b, c) - base) - w.cost * c.cost
  {
    hide BaseValue, ObservedValue, PerfectValue, GroupedValue, IsTerminalChoice, IsChoice;
  }

  /** Some offered computation gains more by `gain` than its weighted cost. */
  ghost predicate SomePays(b: Belief, price: real, gain: Computation -> real) {
    exists a :: 0 <= a < |b.computations| && gain(b.computations[a]) > price * b.computations[a].cost
  }

  lemma ChosenIffPays(b: Belief, w: Weights, d: Decision, gain: Computation -> real)
    requires Valid(b, TOLERANCE) && IsDecision(b, w, d) && w.cost > 0.0
    requires forall a | 0 <= a < |b.computations| ::
               d.voc[a] == Max(0.0, gain(b.computations[a])) - w.cost * b.computations[a].cost
    ensures d.computation >= 0 <==> b.remaining > 0 && SomePays(b, w.cost, gain)
  {
    hide FeaturesMatch, IsTerminalChoice, Worth, Max;
    forall a | 0 <= a < |b.computations|
      ensures d.voc[a] > 0.0 <==> gain(b.computations[a]) > w.cost * b.computations[a].cost
    {
      var c := b.computations[a];
      assert c in b.computations && ValidComputation(c, |b.probabilities|, TOLERANCE);
      GainPays(gain(c), w.cost, c.cost);
    }
  }

  lemma GainPays(gain: real, price: real, cost: real)
    requires price > 0.0 && cost > 0.0
    ensures Max(0.0, gain) - price * cost > 0.0 <==> gain > price * cost
  {
    assert price * cost > 0.0;
  }

  /** With all weight on one feature the rule computes, while time remains, exactly when some computation
      is worth its weighted cost by that feature: observing, full information, or the group. */
  lemma PureWeightsChoose(b: Belief, w: Weights, d: Decision)
    requires Valid(b, TOLERANCE) && IsDecision(b, w, d) && w.cost > 0.0
    ensures Rectangular(b.utilities) && forall c | c in b.computations :: |c.likelihood| > 0
    ensures w == Weights(1.0, 0.0, 0.0, w.cost) ==>
              (d.computation >= 0 <==>
                 b.remaining > 0 &&
                 exists a | 0 <= a < |b.computations| :: ObservedValue(b, b.computations[a]) - BaseValue(b) > w.cost * b.computations[a].cost)
    ensures w == Weights(0.0, 1.0, 0.0, w.cost) ==>
              (d.computation >= 0 <==>
                 b.remaining > 0 &&
                 exists a | 0 <= a < |b.computations| :: PerfectValue(b) - BaseValue(b) > w.cost * b.computations[a].cost)
    ensures w == Weights(0.0, 0.0, 1.0, w.cost) ==>
              (d.computation >= 0 <==>
                 b.remaining > 0 &&
                 exists a | 0 <= a < |b.computations| :: GroupedValue(b, b.computations[a]) - BaseValue(b) > w.cost * b.computations[a].cost)
  {
    hide Valid, IsDecision, BaseValue, ObservedValue, PerfectValue, GroupedValue;
    ValidShape(b);
    var base := BaseValue(b);
    if w == Weights(1.0, 0.0, 0.0, w.cost) {
      DecisionSized(b, w, d);
      var gain := (c: Computation) => if |c.likelihood| > 0 then ObservedValue(b, c) - base else 0.0;
      forall a: nat | a < |b.computations| ensures d.voc[a] == Max(0.0, gain(b.computations[a])) - w.cost * b.computations[a].cost {
        WorthOnValues(b, w, d, a);
      }
      ChosenIffPays(b, w, d, gain);
    } else if w == Weights(0.0, 1.0, 0.0, w.cost) {
      DecisionSized(b, w, d);
      var gain := (c: Computation) => PerfectValue(b) - base;
      forall a: nat | a < |b.computations| ensures d.voc[a] == Max(0.0, gain(b.computations[a])) - w.cost * b.computations[a].cost {
        WorthOnValues(b, w, d, a);
      }
      ChosenIffPays(b, w, d, gain);
    } else if w == Weights(0.0, 0.0, 1.0, w.cost) {
      DecisionSized(b, w, d);
      var gain := (c: Computation) => GroupedValue(b, c) - base;
      forall a: nat | a < |b.computations| ensures d.voc[a] == Max(0.0, gain(b.computations[a])) - w.cost * b.computations[a].cost {
        WorthOnValues(b, w, d, a);
      }
      ChosenIffPays(b, w, d, gain);
    }
  }

  lemma DecisionSized(b: Belief, w: Weights, d: Decision)
    requires IsDecision(b, w, d)
    ensures |d.voc| == |b.computations|
  {
  }

  /** The corners of the unit cube are the pure weights, in the order myopic, perfect, subset, and the
      last coordinate prices costs from once to the horizon. */
  lemma WeightCorners(x: real, y: real, z: real, h: int)
    ensures WeightsAt(1.0, y, 0.0, h) == Weights(1.0, 0.0, 0.0, 1.0)
    ensures WeightsAt(0.0, 1.0, 0.0, h) == Weights(0.0, 1.0, 0.0, 1.0)
    ensures WeightsAt(0.0, 0.0, 0.0, h) == Weights(0.0, 0.0, 1.0, 1.0)
    ensures WeightsAt(x, y, 1.0, h).cost == h as real
    ensures WeightsAt(x, y, z, h).perfect == (1.0 - x) * WeightsAt(0.0, y, z, h).perfect
    ensures WeightsAt(x, y, z, h).subset == (1.0 - x) * WeightsAt(0.0, y, z, h).subset
  {
  }

  /** Costs are priced over the horizon, or the remaining steps of a belief without one, and at least once. */
  lemma ClockIsGreatest(b: Belief)
    ensures Clock(b) >= 1 && Clock(b) >= b.horizon && Clock(b) >= b.remaining
    ensures Clock(b) == 1 || Clock(b) == b.horizon || Clock(b) == b.remaining
  {
  }

  // ---------- What the values mean ----------

  /** Certainty about one hypothesis values every option at that hypothesis' utility, and then
      there is nothing to learn. */
  lemma CertainValues(i: nat, b: Belief)
    requires Rectangular(b.utilities) && i < |b.utilities| == |b.probabilities|
    requires forall k | 0 <= k < |b.probabilities| :: b.probabilities[k] == if k == i then 1.0 else 0.0
    ensures Values(b.probabilities, b.utilities) == b.utilities[i]
    ensures BaseValue(b) == PerfectValue(b) == Best(b.utilities[i])
  {
    hide Best, Sum;
    var p, u := b.probabilities, b.utilities;
    forall j | 0 <= j < |u[0]| ensures Values(p, u)[j] == u[i][j] {
      var f := k => At(p, k) * At(Column(u, j), k);
      SumSingle(|u|, i, f);
      SumCong(|u|, f, k => At(p, k) * At(Column(u, j), k));
    }
    assert Values(p, u) == u[i];
    var g := k => At(p, k) * At(Bests(u), k);
    SumSingle(|u|, i, g);
    SumCong(|u|, g, k => At(p, k) * At(Bests(u), k));
  }

  /** Expected values mix as beliefs do. */
  lemma ValuesMix(x: real, p: Vector, y: real, q: Vector, r: Vector, u: Matrix, j: nat)
    requires Rectangular(u) && |p| == |q| == |r| == |u| && j < |u[0]|
    requires forall k | 0 <= k < |u| :: r[k] == x * p[k] + y * q[k]
    ensures Values(r, u)[j] == x * Values(p, u)[j] + y * Values(q, u)[j]
    ensures Dot(|u|, r, Bests(u)) == x * Dot(|u|, p, Bests(u)) + y * Dot(|u|, q, Bests(u))
  {
    hide Dot, Best;
    DotLinear(|u|, x, p, y, q, r, Column(u, j));
    DotLinear(|u|, x, p, y, q, r, Bests(u));
  }

  // ---------- Bayesian conditioning ----------

  ghost predicate PossibleStep(b: Belief, a: int, o: int) {
    Valid(b, TOLERANCE) && 0 <= a < |b.computations| && |b.computations[a].likelihood| > 0 &&
    0 <= o < |b.computations[a].likelihood[0]| && b.remaining > 0 &&
    Total(ResultPart(b.probabilities, b.computations[a], o)) > 0.0
  }

  ghost predicate IsPosterior(b: Belief, a: int, o: int, after: Belief)
    requires PossibleStep(b, a, o)
  {
    var part := ResultPart(b.probabilities, b.computations[a], o);
    |after.probabilities| == |part| &&
    (forall i | 0 <= i < |part| :: after.probabilities[i] == part[i] / Total(part)) &&
    after == b.(probabilities := after.probabilities, remaining := b.remaining - 1,
                horizon := if b.horizon == 0 then b.remaining else b.horizon)
  }

  method After(b: Belief, computation: int, result: int) returns (r: Result<Belief>)
    ensures r.Ok? <==> PossibleStep(b, computation, result)
    ensures r.Ok? ==> IsPosterior(b, computation, result, r.value)
  {
    if !Valid(b, TOLERANCE) {
      return Err;
    }
    if computation < 0 || computation >= |b.computations| {
      return Err;
    }
    var c := b.computations[computation];
    assert c in b.computations && ValidComputation(c, |b.probabilities|, TOLERANCE);
    if result < 0 || result >= |c.likelihood[0]| || b.remaining == 0 {
      return Err;
    }
    var part, s := Conditioned(b, c, result);
    if s <= 0.0 {
      return Err;
    }
    var p := Normalised(part, s);
    return Ok(b.(probabilities := p, horizon := if b.horizon == 0 then b.remaining else b.horizon,
                 remaining := b.remaining - 1));
  }

  /** Conditioning keeps an exact belief exact, and never moves the clock. */
  lemma AfterKeepsBelief(b: Belief, a: int, o: int, after: Belief)
    requires Valid(b, 0.0) && PossibleStep(b, a, o) && IsPosterior(b, a, o, after)
    ensures Valid(after, 0.0) && after.remaining == b.remaining - 1
    ensures Clock(after) == Clock(b) && after.horizon > 0
  {
    var part := ResultPart(b.probabilities, b.computations[a], o);
    var mass := Total(part);
    PartMass(b, b.computations[a], o);
    SumScale(|part|, 1.0 / mass, i => At(part, i), i => At(after.probabilities, i));
    assert Total(after.probabilities) == mass * (1.0 / mass) == 1.0;
  }

  // ---------- Whole deliberations ----------

  datatype Turn = Turn(decision: Decision, result: int)

  ghost predicate BoughtBelowPerfect(d: Decision) {
    0 <= d.computation < |d.features| &&
    var f := d.features[d.computation];
    (1.0 - TOLERANCE) * f.cost < (1.0 + TOLERANCE) * f.perfect
  }

  /** Alternating selection and observation, as long as the rule buys a computation. */
  ghost predicate IsRun(bs: seq<Belief>, turns: seq<Turn>, w: Weights) {
    |bs| == |turns| + 1 && forall k | 0 <= k < |turns| :: IsTurn(bs[k], turns[k], bs[k + 1], w)
  }

  ghost predicate IsTurn(b: Belief, t: Turn, after: Belief, w: Weights) {
    IsDecision(b, w, t.decision) && PossibleStep(b, t.decision.computation, t.result) &&
    IsPosterior(b, t.decision.computation, t.result, after)
  }

  /** No run is longer than the budget; its beliefs stay exact, its weights stay accepted,
      and every computation in it costs less than perfect information is worth then. */
  lemma {:induction false} RunsStayValidAndStop(bs: seq<Belief>, turns: seq<Turn>, w: Weights)
    requires IsRun(bs, turns, w) && Valid(bs[0], 0.0) && AcceptsWeights(w, Clock(bs[0]))
    ensures |turns| <= bs[0].remaining
    ensures forall k | 0 <= k < |bs| ::
              Valid(bs[k], 0.0) && bs[k].remaining == bs[0].remaining - k && AcceptsWeights(w, Clock(bs[k]))
    ensures forall k | 0 <= k < |turns| :: BoughtBelowPerfect(turns[k].decision)
  {
    hide Valid, IsDecision, PossibleStep, IsPosterior;
    if |turns| > 0 {
      var m := |turns| - 1;
      RunsStayValidAndStop(bs[..m + 1], turns[..m], w);
      var d := turns[m].decision;
      assert IsTurn(bs[m], turns[m], bs[m + 1], w);
      TurnKeeps(bs[m], turns[m], bs[m + 1], w);
    } else {
      ValidHasBudget(bs[0]);
    }
  }

  lemma ValidHasBudget(b: Belief)
    requires Valid(b, 0.0)
    ensures b.remaining >= 0
  {
  }

  lemma TurnKeeps(b: Belief, t: Turn, after: Belief, w: Weights)
    requires IsTurn(b, t, after, w) && Valid(b, 0.0) && AcceptsWeights(w, Clock(b))
    ensures Valid(after, 0.0) && after.remaining == b.remaining - 1 >= 0 && AcceptsWeights(w, Clock(after))
    ensures BoughtBelowPerfect(t.decision)
  {
    AfterKeepsBelief(b, t.decision.computation, t.result, after);
    ChosenCostsLessThanPerfect(b, w, t.decision);
  }
}
