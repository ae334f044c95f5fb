/** Joint states of a goal class and observable results, and the two constructions of
    the metalevel belief from the learned joint distribution. */
module MetaBeliefs {
  import opened FiniteBelief
  import opened FiniteSets
  import opened Options
  import opened RealSums
  import opened SortedInts

  datatype Config = Config(classes: nat, computations: nat, outcomes: nat)

  predicate Sized(n: Config) {
    n.classes >= 1 && n.outcomes >= 1
  }

  // ---------- Mixed-radix joint states ----------

  function Power(base: nat, e: nat): nat {
    if e == 0 then 1 else base * Power(base, e - 1)
  }

  method States(n: Config) returns (v: nat)
    ensures v == n.classes * Power(n.outcomes, n.computations)
  {
    v := n.classes;
    for i := 0 to n.computations
      invariant v == n.classes * Power(n.outcomes, i)
    {
      PowerStep(n, i);
      v := v * n.outcomes;
    }
  }

  lemma PowerStep(n: Config, i: nat)
    ensures n.classes * Power(n.outcomes, i) * n.outcomes == n.classes * Power(n.outcomes, i + 1)
  {
    var p := Power(n.outcomes, i);
    assert n.classes * p * n.outcomes == n.classes * (n.outcomes * p);
  }

  function Target(n: Config, state: nat): nat
    requires n.classes >= 1
  {
    state % n.classes
  }

  /** Digit `op` of a result tuple in base `outcomes`, least significant first. */
  function Digit(n: Config, tuple: nat, op: nat): nat
    requires Sized(n)
  {
    if op == 0 then tuple % n.outcomes else Digit(n, tuple / n.outcomes, op - 1)
  }

  method Outcome(n: Config, state: nat, op: nat) returns (o: nat)
    requires Sized(n)
    ensures o == Digit(n, state / n.classes, op)
  {
    var s: nat := state / n.classes;
    for i := 0 to op
      invariant Digit(n, s, op - i) == Digit(n, state / n.classes, op)
    {
      s := s / n.outcomes;
    }
    o := s % n.outcomes;
  }

  function Digits(n: Config, tuple: nat, k: nat): (ds: seq<nat>)
    requires Sized(n)
    ensures |ds| == k
  {
    seq(k, op requires 0 <= op < k => Digit(n, tuple, op))
  }

  /** The tuple with the given digits. */
  function Undigits(n: Config, ds: seq<nat>): nat {
    if ds == [] then 0 else ds[0] + n.outcomes * Undigits(n, ds[1..])
  }

  predicate LegalDigits(n: Config, ds: seq<nat>) {
    forall k | 0 <= k < |ds| :: ds[k] < n.outcomes
  }

  lemma {:induction false} DigitsRoundTrip(n: Config, tuple: nat, k: nat)
    requires Sized(n) && tuple < Power(n.outcomes, k)
    ensures LegalDigits(n, Digits(n, tuple, k)) && Undigits(n, Digits(n, tuple, k)) == tuple
    decreases k
  {
    if k > 0 {
      var rest := tuple / n.outcomes;
      QuotientBound(tuple, n.outcomes, Power(n.outcomes, k - 1));
      DigitsRoundTrip(n, rest, k - 1);
      hide Power, Undigits;
      DigitsStep(n, tuple, k);
    }
  }

  lemma DigitsStep(n: Config, tuple: nat, k: nat)
    requires Sized(n) && k > 0
    ensures var rest, ds := Digits(n, tuple / n.outcomes, k - 1), Digits(n, tuple, k);
            (LegalDigits(n, rest) ==> LegalDigits(n, ds)) &&
            (Undigits(n, rest) == tuple / n.outcomes ==> Undigits(n, ds) == tuple)
  {
    var rest, ds := Digits(n, tuple / n.outcomes, k - 1), Digits(n, tuple, k);
    assert ds[1..] == rest;
    assert forall i | 0 < i < k :: ds[i] == rest[i - 1];
    assert tuple == n.outcomes * (tuple / n.outcomes) + tuple % n.outcomes;
  }

  lemma MulLe(c: nat, a: int, b: int)
    requires a <= b
    ensures c * a <= c * b && c * (a + 1) == c * a + c
  {
  }

  lemma DivisionUnique(a: nat, base: nat, q: nat, r: nat)
    requires base >= 1 && a == base * q + r && r < base
    ensures a / base == q && a % base == r
  {
    var p := a / base;
    assert a == base * p + a % base;
    if p < q { MulLe(base, p + 1, q); MulLe(base, p, p); }
    if q < p { MulLe(base, q + 1, p); MulLe(base, q, q); }
  }

  lemma QuotientBound(a: nat, base: nat, p: nat)
    requires base >= 1 && a < base * p
    ensures a / base < p
  {
    var q := a / base;
    assert a == base * q + a % base;
    if q >= p { MulLe(base, p, q); }
  }

  lemma {:induction false} UndigitsRoundTrip(n: Config, ds: seq<nat>)
    requires Sized(n) && LegalDigits(n, ds)
    ensures Undigits(n, ds) < Power(n.outcomes, |ds|) && Digits(n, Undigits(n, ds), |ds|) == ds
  {
    if ds != [] {
      var rest := Undigits(n, ds[1..]);
      UndigitsRoundTrip(n, ds[1..]);
      MixedDigit(ds[0], rest, n.outcomes, Power(n.outcomes, |ds| - 1));
      forall k | 0 <= k < |ds| ensures Digits(n, Undigits(n, ds), |ds|)[k] == ds[k] {
        if k > 0 {
          assert Digits(n, rest, |ds| - 1)[k - 1] == ds[1..][k - 1];
        }
      }
    }
  }

  lemma MixedDigit(d: nat, rest: nat, base: nat, p: nat)
    requires d < base && rest < p
    ensures (d + base * rest) % base == d && (d + base * rest) / base == rest && d + base * rest < base * p
  {
    DivisionUnique(d + base * rest, base, rest, d);
    MulLe(base, rest + 1, p);
    MulLe(base, rest, rest);
  }

  function Encode(n: Config, target: nat, ds: seq<nat>): nat {
    target + n.classes * Undigits(n, ds)
  }

  /** State indices and (class, result tuple) pairs determine each other. */
  lemma StateBijection(n: Config, state: nat, target: nat, ds: seq<nat>)
    requires Sized(n) && |ds| == n.computations && LegalDigits(n, ds) && target < n.classes
    requires state < n.classes * Power(n.outcomes, n.computations)
    ensures Encode(n, target, ds) < n.classes * Power(n.outcomes, n.computations)
    ensures Target(n, state) < n.classes && LegalDigits(n, Digits(n, state / n.classes, n.computations))
    ensures state == Encode(n, target, ds) <==>
              target == Target(n, state) && ds == Digits(n, state / n.classes, n.computations)
  {
    QuotientBound(state, n.classes, Power(n.outcomes, n.computations));
    DigitsRoundTrip(n, state / n.classes, n.computations);
    UndigitsRoundTrip(n, ds);
    MixedDigit(target, Undigits(n, ds), n.classes, Power(n.outcomes, n.computations));
    assert state == n.classes * (state / n.classes) + state % n.classes;
  }

  /** The digit of operation k weighs outcomes to the power k. */
  lemma {:induction false} DigitWeight(n: Config, ds: seq<nat>, k: nat, d: nat)
    requires k < |ds| && forall i | 0 <= i < |ds| && i != k :: ds[i] == 0
    requires ds[k] == d
    ensures Undigits(n, ds) == d * Power(n.outcomes, k)
    decreases k
  {
    if k > 0 {
      DigitWeight(n, ds[1..], k - 1, d);
      Commutes(n.outcomes, d, Power(n.outcomes, k - 1));
    } else {
      NoDigits(n, ds[1..]);
    }
  }

  lemma Commutes(a: nat, b: nat, c: nat)
    ensures a * (b * c) == b * (a * c)
  {
  }

  lemma {:induction false} NoDigits(n: Config, ds: seq<nat>)
    requires forall i | 0 <= i < |ds| :: ds[i] == 0
    ensures Undigits(n, ds) == 0
  {
    if ds != [] { NoDigits(n, ds[1..]); }
  }

  // ---------- Beliefs over result tuples ----------

  datatype Input = Input(mask: seq<bool>, costs: Vector, remaining: int, horizon: int, uniformLikelihood: bool)

  /** Probabilities of the classes within one result tuple. */
  function Slice(n: Config, joint: Vector, theta: int): (v: Vector)
    ensures |v| == n.classes
  {
    seq(n.classes, y => At(joint, theta * n.classes + y))
  }

  function Mass(n: Config, joint: Vector, theta: int): real {
    Total(Slice(n, joint, theta))
  }

  /** Expected utility of every option within a tuple; zero mass leaves the raw zeros. */
  function TupleUtility(n: Config, joint: Vector, u: Matrix, theta: int): (v: Vector)
    ensures |v| == n.classes + 1
  {
    var m := Mass(n, joint, theta);
    seq(n.classes + 1, a =>
      var raw := Dot(n.classes, Slice(n, joint, theta), Column(u, a));
      if m == 0.0 then raw else raw / m)
  }

  function OneHot(k: nat, o: int, uniform: bool): (row: Vector)
    requires k > 0
    ensures |row| == k
  {
    seq(k, i => if uniform then 1.0 / k as real else if i == o then 1.0 else 0.0)
  }

  function ComputationFor(n: Config, tuples: seq<nat>, op: nat, cost: real, uniform: bool): Computation
    requires Sized(n)
  {
    Computation(cost,
                seq(|tuples|, t requires 0 <= t < |tuples| => OneHot(n.outcomes, Digit(n, tuples[t], op), uniform)),
                seq(|tuples|, t requires 0 <= t < |tuples| => Digit(n, tuples[t], op)))
  }

  /** Unmasked operations in ascending order. */
  function Operations(mask: seq<bool>, k: nat): seq<nat> {
    if k == 0 then []
    else Operations(mask, k - 1) + if k - 1 < |mask| && mask[k - 1] then [k - 1] else []
  }

  /** The operations offered are the unmasked ones, in order. */
  lemma {:induction false} OperationsAre(mask: seq<bool>, k: nat)
    ensures forall op: nat :: op in Operations(mask, k) <==> op < k && op < |mask| && mask[op]
    ensures forall i, j | 0 <= i < j < |Operations(mask, k)| :: Operations(mask, k)[i] < Operations(mask, k)[j]
  {
    if k > 0 {
      OperationsAre(mask, k - 1);
      var front := Operations(mask, k - 1);
      forall i | 0 <= i < |front| ensures front[i] < k - 1 { assert front[i] in front; }
    }
  }

  function BeliefOver(n: Config, joint: Vector, u: Matrix, input: Input, tuples: seq<nat>, uniform: bool): Belief
    requires Sized(n)
  {
    var ops := Operations(input.mask, n.computations);
    Belief(seq(|tuples|, t requires 0 <= t < |tuples| => Mass(n, joint, tuples[t])),
           seq(|tuples|, t requires 0 <= t < |tuples| => TupleUtility(n, joint, u, tuples[t])),
           seq(|ops|, k requires 0 <= k < |ops| => ComputationFor(n, tuples, ops[k], At(input.costs, ops[k]), uniform)),
           input.remaining, input.horizon)
  }

  function AllTuples(t: nat): (s: seq<nat>)
    ensures |s| == t
  {
    seq(t, i requires 0 <= i < t => i)
  }

  /** The tuples that carry mass, in order. */
  function Support(n: Config, joint: Vector, t: nat): seq<nat> {
    if t == 0 then []
    else Support(n, joint, t - 1) + if Mass(n, joint, t - 1) != 0.0 then [t - 1] else []
  }

  predicate JointDistribution(n: Config, joint: Vector, t: nat) {
    Sized(n) && |joint| == t * n.classes && Distribution(joint, 0.0)
  }

  // ---------- The tuple belief and the class marginal agree ----------

  function ClassBelief(n: Config, joint: Vector, t: nat): (p: Vector)
    ensures |p| == n.classes
  {
    seq(n.classes, y => Sum(t, theta => At(joint, theta * n.classes + y)))
  }

  /** Mass times tuple utility is the unnormalised expected utility. */
  lemma WeightedUtility(n: Config, joint: Vector, u: Matrix, theta: nat, a: nat)
    requires NonNegative(joint) && a <= n.classes
    ensures Mass(n, joint, theta) * TupleUtility(n, joint, u, theta)[a] ==
            Dot(n.classes, Slice(n, joint, theta), Column(u, a))
  {
    var v := Slice(n, joint, theta);
    if Mass(n, joint, theta) == 0.0 {
      var f := y => At(v, y);
      forall y | 0 <= y < n.classes ensures f(y) >= 0.0 {
        assert At(joint, theta * n.classes + y) >= 0.0;
      }
      SumNonNegative(n.classes, f);
      forall y | 0 <= y < n.classes ensures At(v, y) == 0.0 {
        assert f(y) <= Sum(n.classes, f);
      }
      DotZero(n.classes, v, Column(u, a));
    }
  }

  lemma ClassBeliefStep(n: Config, joint: Vector, t: nat, y: nat)
    requires t > 0 && y < n.classes
    ensures At(ClassBelief(n, joint, t), y) == 1.0 * At(ClassBelief(n, joint, t - 1), y) + 1.0 * At(Slice(n, joint, t - 1), y)
  {
  }

  /** Whatever the joint distribution, every option is worth the same under both. */
  lemma {:induction false} TerminalAgreement(n: Config, joint: Vector, u: Matrix, t: nat, a: nat)
    requires NonNegative(joint) && a <= n.classes
    ensures Sum(t, theta => Mass(n, joint, theta) * At(TupleUtility(n, joint, u, theta), a)) ==
            Dot(n.classes, ClassBelief(n, joint, t), Column(u, a))
  {
    hide Dot, Slice, Mass, TupleUtility, Column;
    if t == 0 {
      DotZero(n.classes, ClassBelief(n, joint, 0), Column(u, a));
    } else {
      forall y | 0 <= y < n.classes
        ensures At(ClassBelief(n, joint, t), y) == 1.0 * At(ClassBelief(n, joint, t - 1), y) + 1.0 * At(Slice(n, joint, t - 1), y)
      {
        ClassBeliefStep(n, joint, t, y);
      }
      hide ClassBelief;
      TerminalAgreement(n, joint, u, t - 1, a);
      WeightedUtility(n, joint, u, t - 1, a);
      DotLinear(n.classes, 1.0, ClassBelief(n, joint, t - 1), 1.0, Slice(n, joint, t - 1), ClassBelief(n, joint, t), Column(u, a));
    }
  }

  predicate UtilityTable(n: Config, u: Matrix) {
    |u| == n.classes >= 1 && forall y | 0 <= y < n.classes :: |u[y]| == n.classes + 1
  }

  lemma DotAsSum(n: Config, joint: Vector, u: Matrix, t: nat, a: nat, p: Vector, z: Vector)
    requires forall i | 0 <= i < t :: At(p, i) == Mass(n, joint, i) && At(z, i) == At(TupleUtility(n, joint, u, i), a)
    ensures Dot(t, p, z) == Sum(t, theta => Mass(n, joint, theta) * At(TupleUtility(n, joint, u, theta), a))
  {
    hide Mass, TupleUtility;
    SumCong(t, i => At(p, i) * At(z, i), theta => Mass(n, joint, theta) * At(TupleUtility(n, joint, u, theta), a));
  }

  /** The tuple belief values every option exactly as the class marginal does. */
  lemma TupleBeliefAgreesWithMarginal(n: Config, joint: Vector, u: Matrix, input: Input, t: nat, uniform: bool)
    requires JointDistribution(n, joint, t) && UtilityTable(n, u) && t > 0
    ensures var b := BeliefOver(n, joint, u, input, AllTuples(t), uniform);
            Values(b.probabilities, b.utilities) == Values(ClassBelief(n, joint, t), u)
  {
    var b := BeliefOver(n, joint, u, input, AllTuples(t), uniform);
    hide TupleUtility, Mass, ClassBelief, Dot;
    forall a | 0 <= a <= n.classes
      ensures Values(b.probabilities, b.utilities)[a] == Values(ClassBelief(n, joint, t), u)[a]
    {
      TerminalAgreement(n, joint, u, t, a);
      DotAsSum(n, joint, u, t, a, b.probabilities, Column(b.utilities, a));
    }
  }

  // ---------- Dropping tuples without mass ----------

  function Picked(v: Vector, at: seq<nat>): (w: Vector)
    ensures |w| == |at|
  {
    seq(|at|, k requires 0 <= k < |at| => At(v, at[k]))
  }

  /** Weights that vanish off the support lose nothing when only the support is kept. */
  lemma {:induction false} PickedDot(n: Config, joint: Vector, t: nat, w: Vector, z: Vector)
    requires forall i | 0 <= i < t && Mass(n, joint, i) == 0.0 :: At(w, i) == 0.0
    ensures var at := Support(n, joint, t); Dot(|at|, Picked(w, at), Picked(z, at)) == Dot(t, w, z)
  {
    hide Mass, Dot;
    if t == 0 {
      EmptyDot(w, z);
      EmptyDot(Picked(w, []), Picked(z, []));
    } else {
      var front, at := Support(n, joint, t - 1), Support(n, joint, t);
      PickedDot(n, joint, t - 1, w, z);
      DotPrefix(|front|, Picked(w, front), Picked(w, at), Picked(z, front), Picked(z, at));
      if Mass(n, joint, t - 1) != 0.0 {
        DotSnoc(t - 1, w, z, |front|, Picked(w, at), Picked(z, at));
      } else {
        DotSkip(t - 1, w, z);
      }
    }
  }

  /** Two dot products grow alike on equal next entries. */
  lemma DotSnoc(k: nat, a: Vector, b: Vector, k': nat, a': Vector, b': Vector)
    requires At(a, k) == At(a', k') && At(b, k) == At(b', k')
    ensures Dot(k + 1, a, b) - Dot(k, a, b) == Dot(k' + 1, a', b') - Dot(k', a', b')
  {
  }

  lemma DotSkip(k: nat, a: Vector, b: Vector)
    requires At(a, k) == 0.0
    ensures Dot(k + 1, a, b) == Dot(k, a, b)
  {
  }

  lemma DotPrefix(k: nat, a: Vector, a': Vector, b: Vector, b': Vector)
    requires forall i | 0 <= i < k :: At(a, i) == At(a', i) && At(b, i) == At(b', i)
    ensures Dot(k, a, b) == Dot(k, a', b')
  {
    SumCong(k, i => At(a, i) * At(b, i), i => At(a', i) * At(b', i));
  }

  lemma {:induction false} SupportBelow(n: Config, joint: Vector, t: nat)
    ensures forall k | 0 <= k < |Support(n, joint, t)| :: Support(n, joint, t)[k] < t
  {
    hide Mass;
    if t > 0 {
      SupportBelow(n, joint, t - 1);
    }
  }

  /** The first k entries after a base, on top of those before it. */
  lemma {:induction false} SumFrom(joint: Vector, base: nat, k: nat)
    ensures Sum(base + k, i => At(joint, i)) == Sum(base, i => At(joint, i)) + Sum(k, i => At(joint, base + i))
  {
    if k > 0 { SumFrom(joint, base, k - 1); }
  }

  lemma {:induction false} MassesAdd(n: Config, joint: Vector, t: nat)
    ensures Sum(t * n.classes, i => At(joint, i)) == Sum(t, theta => Mass(n, joint, theta))
  {
    if t > 0 {
      var base := (t - 1) * n.classes;
      MassesAdd(n, joint, t - 1);
      SumFrom(joint, base, n.classes);
      SumCong(n.classes, i => At(joint, base + i), i => At(Slice(n, joint, t - 1), i));
      assert base + n.classes == t * n.classes;
    }
  }

  /** A distribution leaves at least one tuple with mass. */
  lemma SupportNotEmpty(n: Config, joint: Vector, t: nat)
    requires JointDistribution(n, joint, t)
    ensures Support(n, joint, t) != []
  {
    hide Mass;
    if Support(n, joint, t) == [] {
      NoSupport(n, joint, t);
      MassesAdd(n, joint, t);
      SumZero(t, theta => Mass(n, joint, theta));
    }
  }

  lemma {:induction false} NoSupport(n: Config, joint: Vector, t: nat)
    requires Support(n, joint, t) == []
    ensures forall theta | 0 <= theta < t :: Mass(n, joint, theta) == 0.0
  {
    hide Mass;
    if t > 0 { NoSupport(n, joint, t - 1); }
  }

  lemma {:induction false} BestTotalCong(ws: seq<Vector>, u: Matrix, ws': seq<Vector>, u': Matrix)
    requires |u| > 0 && |u'| > 0 && |u[0]| > 0 && |u'[0]| > 0 && |ws| == |ws'|
    requires forall k | 0 <= k < |ws| :: Values(ws[k], u) == Values(ws'[k], u')
    ensures BestTotal(ws, u) == BestTotal(ws', u')
  {
    hide Values, Best;
    if ws != [] {
      BestTotalCong(ws[..|ws| - 1], u, ws'[..|ws| - 1], u');
    }
  }

  lemma PickedValues(n: Config, joint: Vector, u: Matrix, t: nat, at: seq<nat>, full: Matrix, kept: Matrix, w: Vector)
    requires at == Support(n, joint, t) && at != []
    requires |full| == t && forall i | 0 <= i < t :: full[i] == TupleUtility(n, joint, u, i)
    requires |kept| == |at| && forall k | 0 <= k < |at| :: kept[k] == TupleUtility(n, joint, u, at[k])
    requires forall i | 0 <= i < t && Mass(n, joint, i) == 0.0 :: At(w, i) == 0.0
    ensures |full| > 0 && Values(Picked(w, at), kept) == Values(w, full)
  {
    hide Mass, TupleUtility, Support, Dot;
    SupportBelow(n, joint, t);
    assert at[0] < t;
    forall a | 0 <= a <= n.classes ensures Values(Picked(w, at), kept)[a] == Values(w, full)[a] {
      PickedDot(n, joint, t, w, Column(full, a));
      assert Picked(Column(full, a), at) == Column(kept, a);
    }
  }

  /** The compacted belief is the full one on the support, and loses no value anywhere. */
  lemma CompactionKeepsValues(n: Config, joint: Vector, u: Matrix, input: Input, t: nat)
    requires JointDistribution(n, joint, t) && UtilityTable(n, u)
    ensures var full := BeliefOver(n, joint, u, input, AllTuples(t), false);
            var kept := BeliefOver(n, joint, u, input, Support(n, joint, t), false);
            Rectangular(full.utilities) && Rectangular(kept.utilities) &&
            BaseValue(kept) == BaseValue(full) && PerfectValue(kept) == PerfectValue(full)
  {
    hide Mass, TupleUtility, Support, Dot, Best, Operations;
    SupportNotEmpty(n, joint, t);
    var at := Support(n, joint, t);
    var full := BeliefOver(n, joint, u, input, AllTuples(t), false);
    var kept := BeliefOver(n, joint, u, input, at, false);
    SupportBelow(n, joint, t);
    assert at[0] < t;
    PickedValues(n, joint, u, t, at, full.utilities, kept.utilities, full.probabilities);
    assert Picked(full.probabilities, at) == kept.probabilities;
    PickedDot(n, joint, t, full.probabilities, Bests(full.utilities));
    assert Picked(Bests(full.utilities), at) == Bests(kept.utilities);
  }

  lemma CompactionKeepsObserved(n: Config, joint: Vector, u: Matrix, input: Input, t: nat, k: nat)
    requires JointDistribution(n, joint, t) && UtilityTable(n, u)
    requires k < |Operations(input.mask, n.computations)|
    ensures var full := BeliefOver(n, joint, u, input, AllTuples(t), false);
            var kept := BeliefOver(n, joint, u, input, Support(n, joint, t), false);
            Rectangular(full.utilities) && Rectangular(kept.utilities) &&
            ObservedValue(kept, kept.computations[k]) == ObservedValue(full, full.computations[k])
  {
    hide Mass, TupleUtility, Support, Dot, Best, Operations, Values;
    SupportNotEmpty(n, joint, t);
    var at := Support(n, joint, t);
    var full := BeliefOver(n, joint, u, input, AllTuples(t), false);
    var kept := BeliefOver(n, joint, u, input, at, false);
    SupportBelow(n, joint, t);
    assert at[0] < t;
    var fc, kc := full.computations[k], kept.computations[k];
    forall o | 0 <= o < n.outcomes
      ensures Values(ResultPart(kept.probabilities, kc, o), kept.utilities) ==
              Values(ResultPart(full.probabilities, fc, o), full.utilities)
    {
      var w := ResultPart(full.probabilities, fc, o);
      PickedValues(n, joint, u, t, at, full.utilities, kept.utilities, w);
      assert Picked(w, at) == ResultPart(kept.probabilities, kc, o);
    }
    BestTotalCong(ResultParts(kept.probabilities, kc), kept.utilities, ResultParts(full.probabilities, fc), full.utilities);
  }

  // ---------- With certain results, grouping by result is observing it ----------

  function PartsBelow(p: Vector, groups: seq<int>, hi: nat): (ws: seq<Vector>)
    ensures |ws| == hi
  {
    seq(hi, g => GroupPart(p, groups, g))
  }

  /** Summing over the labels in use equals summing over all labels: the rest are empty. */
  lemma {:induction false} SortedGroupTotal(p: Vector, groups: seq<int>, u: Matrix, keys: set<int>, hi: nat)
    requires Rectangular(u) && |p| == |groups| == |u|
    requires forall g | g in keys :: 0 <= g < hi
    requires forall g | 0 <= g < hi && g !in keys :: g !in groups
    ensures BestTotal(GroupParts(p, groups, SortedKeys(keys)), u) == BestTotal(PartsBelow(p, groups, hi), u)
  {
    hide GroupPart, Values, Best, SortedKeys;
    if hi == 0 {
      if keys != {} { var g := Pick(keys); }
      NoKeys();
    } else {
      var m := hi - 1;
      var all := PartsBelow(p, groups, hi);
      assert all[..m] == PartsBelow(p, groups, m);
      SortedGroupTotal(p, groups, u, keys - {m}, m);
      if m in keys {
        SortedKeysLast(keys, m);
        var front := SortedKeys(keys - {m});
        assert GroupParts(p, groups, front + [m])[..|front|] == GroupParts(p, groups, front);
      } else {
        assert keys - {m} == keys;
        EmptyGroup(p, groups, u, m);
      }
    }
  }

  lemma NoKeys()
    ensures SortedKeys({}) == []
  {
  }

  lemma EmptyGroup(p: Vector, groups: seq<int>, u: Matrix, g: int)
    requires Rectangular(u) && |p| == |groups| == |u| && g !in groups
    ensures Best(Values(GroupPart(p, groups, g), u)) == 0.0
  {
    forall i | 0 <= i < |p| ensures GroupPart(p, groups, g)[i] == 0.0 {
      assert groups[i] in groups;
    }
    ZeroPartValue(GroupPart(p, groups, g), u);
  }

  /** Over one-hot likelihoods the subset feature and the myopic feature coincide. */
  lemma GroupedIsObserved(n: Config, joint: Vector, u: Matrix, input: Input, tuples: seq<nat>, k: nat)
    requires Sized(n) && UtilityTable(n, u) && tuples != [] && k < |Operations(input.mask, n.computations)|
    ensures var b := BeliefOver(n, joint, u, input, tuples, false);
            Rectangular(b.utilities) &&
            GroupedValue(b, b.computations[k]) == ObservedValue(b, b.computations[k])
  {
    hide Mass, TupleUtility, Operations, Values, Best, SortedKeys;
    var b := BeliefOver(n, joint, u, input, tuples, false);
    var c := b.computations[k];
    var p, keys := b.probabilities, KeySet(c.groups);
    var op := Operations(input.mask, n.computations)[k];
    forall t | 0 <= t < |tuples| ensures 0 <= c.groups[t] < n.outcomes {
      DigitBound(n, tuples[t], op);
    }
    SortedGroupTotal(p, c.groups, b.utilities, keys, n.outcomes);
    forall o | 0 <= o < n.outcomes ensures PartsBelow(p, c.groups, n.outcomes)[o] == ResultParts(p, c)[o] {
      OneHotPart(n, b, c, tuples, op, o);
    }
    assert PartsBelow(p, c.groups, n.outcomes) == ResultParts(p, c);
  }

  lemma {:induction false} DigitBound(n: Config, tuple: nat, op: nat)
    requires Sized(n)
    ensures Digit(n, tuple, op) < n.outcomes
    decreases op
  {
    if op > 0 { DigitBound(n, tuple / n.outcomes, op - 1); }
  }

  lemma OneHotPart(n: Config, b: Belief, c: Computation, tuples: seq<nat>, op: nat, o: nat)
    requires Sized(n) && |b.probabilities| == |tuples| && o < n.outcomes
    requires c == ComputationFor(n, tuples, op, c.cost, false)
    ensures GroupPart(b.probabilities, c.groups, o) == ResultPart(b.probabilities, c, o)
  {
    hide Digit;
    forall i | 0 <= i < |tuples|
      ensures GroupPart(b.probabilities, c.groups, o)[i] == ResultPart(b.probabilities, c, o)[i]
    {
      assert At2(c.likelihood, i, o) == if o == Digit(n, tuples[i], op) then 1.0 else 0.0;
    }
  }

  /** Compaction changes no feature of any offered computation. */
  lemma CompactionKeepsFeatures(n: Config, joint: Vector, u: Matrix, input: Input, t: nat, k: nat)
    requires JointDistribution(n, joint, t) && UtilityTable(n, u)
    requires k < |Operations(input.mask, n.computations)|
    ensures var full := BeliefOver(n, joint, u, input, AllTuples(t), false);
            var kept := BeliefOver(n, joint, u, input, Support(n, joint, t), false);
            Rectangular(full.utilities) && Rectangular(kept.utilities) &&
            FeaturesOf(kept, kept.computations[k]) == FeaturesOf(full, full.computations[k])
  {
    hide Mass, TupleUtility, Operations, Values, Best, SortedKeys, Support, Dot;
    SupportNotEmpty(n, joint, t);
    CompactionKeepsValues(n, joint, u, input, t);
    CompactionKeepsObserved(n, joint, u, input, t, k);
    SupportBelow(n, joint, t);
    assert Support(n, joint, t)[0] < t;
    GroupedIsObserved(n, joint, u, input, AllTuples(t), k);
    GroupedIsObserved(n, joint, u, input, Support(n, joint, t), k);
  }

  // ---------- The uniform-likelihood ablation ----------

  lemma {:induction false} EqualParts(ws: seq<Vector>, u: Matrix, v: real)
    requires |u| > 0 && |u[0]| > 0 && forall k | 0 <= k < |ws| :: Best(Values(ws[k], u)) == v
    ensures BestTotal(ws, u) == |ws| as real * v
  {
    hide Values, Best;
    if ws != [] {
      EqualParts(ws[..|ws| - 1], u, v);
      var m := |ws| as real;
      assert (m - 1.0) * v + v == m * v;
    }
  }

  /** Uninformative results are worth nothing: the full construction then sees no
      myopic value, whatever the compacted one (which ignores the flag) sees. */
  lemma UniformLikelihoodHidesResults(n: Config, b: Belief, c: Computation, tuples: seq<nat>, op: nat)
    requires Sized(n) && Rectangular(b.utilities) && |b.probabilities| == |b.utilities| == |tuples|
    requires c == ComputationFor(n, tuples, op, c.cost, true)
    ensures ObservedValue(b, c) == BaseValue(b)
  {
    hide Values, Best, Digit;
    var ws, share := ResultParts(b.probabilities, c), 1.0 / n.outcomes as real;
    forall o | 0 <= o < |ws| ensures Best(Values(ws[o], b.utilities)) == share * BaseValue(b) {
      forall i | 0 <= i < |tuples| ensures b.probabilities[i] == ws[o][i] / share {
        assert ws[o][i] == b.probabilities[i] * share;
      }
      ScaledValues(|tuples|, ws[o], b.probabilities, share, b.utilities);
    }
    EqualParts(ws, b.utilities, share * BaseValue(b));
    Shares(n.outcomes as real, share, BaseValue(b));
  }

  lemma Shares(k: real, share: real, v: real)
    requires k > 0.0 && share == 1.0 / k
    ensures k * (share * v) == v
  {
    assert k * share == 1.0;
    assert k * (share * v) == (k * share) * v;
  }

  /** The part of the joint distribution in which operation op shows result o. */
  function Showing(n: Config, joint: Vector, op: nat, o: nat): (v: Vector)
    requires Sized(n)
    ensures |v| == |joint|
  {
    seq(|joint|, s requires 0 <= s < |joint| => if Digit(n, s / n.classes, op) == o then joint[s] else 0.0)
  }

  /** Option a is a best one whatever operation op shows. */
  predicate BestWhatever(n: Config, joint: Vector, u: Matrix, t: nat, op: nat, a: nat)
    requires Sized(n) && UtilityTable(n, u)
  {
    a <= n.classes &&
    forall o: nat | o < n.outcomes ::
      var v := Values(ClassBelief(n, Showing(n, joint, op, o), t), u);
      v[a] == Best(v)
  }

  lemma ShowingSlice(n: Config, joint: Vector, op: nat, o: nat, theta: nat)
    requires Sized(n)
    ensures Slice(n, Showing(n, joint, op, o), theta) ==
            if Digit(n, theta, op) == o then Slice(n, joint, theta) else seq(n.classes, _ => 0.0)
  {
    hide Digit;
    var part, slice := Slice(n, Showing(n, joint, op, o), theta), Slice(n, joint, theta);
    forall y | 0 <= y < n.classes ensures part[y] == if Digit(n, theta, op) == o then slice[y] else 0.0 {
      DivisionUnique(theta * n.classes + y, n.classes, theta, y);
    }
  }

  /** What a tuple contributes to a result: all of it, or nothing. */
  lemma ShowingUtility(n: Config, joint: Vector, u: Matrix, op: nat, o: nat, theta: nat, a: nat)
    requires Sized(n) && NonNegative(joint) && a <= n.classes
    ensures var part := Showing(n, joint, op, o);
            Mass(n, part, theta) * TupleUtility(n, part, u, theta)[a] ==
            (if Digit(n, theta, op) == o then Mass(n, joint, theta) else 0.0) * TupleUtility(n, joint, u, theta)[a]
  {
    hide Digit, Showing, Dot;
    ShowingSlice(n, joint, op, o, theta);
    if Digit(n, theta, op) != o {
      var zeros := seq(n.classes, _ => 0.0);
      SumZero(n.classes, y => At(zeros, y));
    }
  }

  /** Acting on a result is acting on the class marginal of what shows it. */
  lemma ResultIsShowing(n: Config, joint: Vector, u: Matrix, input: Input, t: nat, k: nat, o: nat)
    requires JointDistribution(n, joint, t) && UtilityTable(n, u) && o < n.outcomes && t > 0
    requires k < |Operations(input.mask, n.computations)|
    ensures var b := BeliefOver(n, joint, u, input, AllTuples(t), false);
            var op := Operations(input.mask, n.computations)[k];
            Values(ResultPart(b.probabilities, b.computations[k], o), b.utilities) ==
            Values(ClassBelief(n, Showing(n, joint, op, o), t), u)
  {
    hide Mass, TupleUtility, ClassBelief, Dot, Digit, Operations, Showing;
    var b := BeliefOver(n, joint, u, input, AllTuples(t), false);
    var op := Operations(input.mask, n.computations)[k];
    var part, w := Showing(n, joint, op, o), ResultPart(b.probabilities, b.computations[k], o);
    ShowingNonNegative(n, joint, op, o);
    forall theta: nat | theta < t
      ensures At(w, theta) == if Digit(n, theta, op) == o then Mass(n, joint, theta) else 0.0
    {
      assert At2(b.computations[k].likelihood, theta, o) == if o == Digit(n, theta, op) then 1.0 else 0.0;
    }
    forall a: nat | a <= n.classes
      ensures Values(w, b.utilities)[a] == Values(ClassBelief(n, part, t), u)[a]
    {
      TerminalAgreement(n, part, u, t, a);
      ShownValue(n, joint, u, t, op, o, a, w, Column(b.utilities, a));
    }
  }

  lemma ShownValue(n: Config, joint: Vector, u: Matrix, t: nat, op: nat, o: nat, a: nat, w: Vector, z: Vector)
    requires Sized(n) && NonNegative(joint) && a <= n.classes
    requires forall theta: nat | theta < t ::
               At(w, theta) == (if Digit(n, theta, op) == o then Mass(n, joint, theta) else 0.0) &&
               At(z, theta) == TupleUtility(n, joint, u, theta)[a]
    ensures var part := Showing(n, joint, op, o);
            Dot(t, w, z) == Sum(t, theta => Mass(n, part, theta) * At(TupleUtility(n, part, u, theta), a))
  {
    hide Mass, TupleUtility, Digit, Showing;
    var part := Showing(n, joint, op, o);
    var f := theta => Mass(n, part, theta) * At(TupleUtility(n, part, u, theta), a);
    forall theta: nat | theta < t ensures At(w, theta) * At(z, theta) == f(theta) {
      ShowingUtility(n, joint, u, op, o, theta, a);
    }
    DotIsSum(t, w, z, f);
    SumCong(t, f, theta => Mass(n, part, theta) * At(TupleUtility(n, part, u, theta), a));
  }

  lemma ShowingNonNegative(n: Config, joint: Vector, op: nat, o: nat)
    requires Sized(n) && NonNegative(joint)
    ensures NonNegative(Showing(n, joint, op, o))
  {
  }

  lemma DotIsSum(k: nat, p: Vector, z: Vector, f: int -> real)
    requires forall i | 0 <= i < k :: At(p, i) * At(z, i) == f(i)
    ensures Dot(k, p, z) == Sum(k, f)
  {
    SumCong(k, i => At(p, i) * At(z, i), f);
  }

  lemma OneHotIsDistribution(k: nat, o: nat, uniform: bool)
    requires o < k
    ensures Distribution(OneHot(k, o, uniform), 0.0)
  {
    var row := OneHot(k, o, uniform);
    var f := i => At(row, i);
    if uniform {
      var share := 1.0 / k as real;
      SumConstant(k, f, share);
      Shares(k as real, share, 1.0);
    } else {
      SumSingle(k, o, f);
    }
    SumCong(k, i => At(row, i), f);
  }

  lemma {:induction false} SumConstant(k: nat, f: int -> real, v: real)
    requires forall i | 0 <= i < k :: f(i) == v
    ensures Sum(k, f) == k as real * v
  {
    if k > 0 {
      SumConstant(k - 1, f, v);
      OneMore((k - 1) as real, v);
    }
  }

  lemma OneMore(m: real, v: real)
    ensures m * v + v == (m + 1.0) * v
  {
  }

  lemma ModelIsValid(n: Config, tuples: seq<nat>, op: nat, cost: real, uniform: bool, tolerance: real)
    requires Sized(n) && tuples != [] && tolerance >= 0.0
    ensures ValidComputation(ComputationFor(n, tuples, op, cost, uniform), |tuples|, tolerance) <==> cost > 0.0
  {
    hide Digit, OneHot;
    var c := ComputationFor(n, tuples, op, cost, uniform);
    forall i | 0 <= i < |tuples| ensures Distribution(c.likelihood[i], tolerance) {
      DigitBound(n, tuples[i], op);
      OneHotIsDistribution(n.outcomes, Digit(n, tuples[i], op), uniform);
    }
  }

  /** Some option is best whatever the k-th offered operation shows. */
  ghost predicate ResultCannotMatter(n: Config, joint: Vector, u: Matrix, input: Input, t: nat, k: nat)
    requires Sized(n) && UtilityTable(n, u) && k < |Operations(input.mask, n.computations)|
  {
    exists a: nat :: BestWhatever(n, joint, u, t, Operations(input.mask, n.computations)[k], a)
  }

  /** Observing is worth nothing exactly when some option is best whatever is shown. */
  lemma ObservedIsWorthlessIff(n: Config, joint: Vector, u: Matrix, input: Input, t: nat, k: nat)
    requires JointDistribution(n, joint, t) && UtilityTable(n, u) && t > 0
    requires k < |Operations(input.mask, n.computations)|
    ensures var b := BeliefOver(n, joint, u, input, AllTuples(t), false);
            Rectangular(b.utilities) &&
            BaseValue(b) <= ObservedValue(b, b.computations[k]) &&
            (BaseValue(b) == ObservedValue(b, b.computations[k]) <==> ResultCannotMatter(n, joint, u, input, t, k))
  {
    hide Mass, TupleUtility, ClassBelief, Operations, Showing, Values, Best, Pooled;
    var b := BeliefOver(n, joint, u, input, AllTuples(t), false);
    var op, c := Operations(input.mask, n.computations)[k], b.computations[k];
    var ws := ResultParts(b.probabilities, c);
    ModelIsValid(n, AllTuples(t), op, 1.0, false, 0.0);
    ResultsPool(b.probabilities, c.(cost := 1.0));
    assert ws == ResultParts(b.probabilities, c.(cost := 1.0));
    SplitIsWorthlessIff(b.probabilities, ws, b.utilities);
    forall o: nat | o < n.outcomes
      ensures Values(ws[o], b.utilities) == Values(ClassBelief(n, Showing(n, joint, op, o), t), u)
    {
      ResultIsShowing(n, joint, u, input, t, k, o);
    }
    forall j: int ensures BestInEveryPart(ws, b.utilities, j) <==> j >= 0 && BestWhatever(n, joint, u, t, op, j) {
    }
    if j :| BestInEveryPart(ws, b.utilities, j) {
      assert BestWhatever(n, joint, u, t, op, j);
    }
  }

  /** Under the ablation the constructions agree exactly when one option is best whatever
      the operation shows, which can be read off the joint distribution and the utilities. */
  lemma UniformAgreesIff(n: Config, joint: Vector, u: Matrix, input: Input, t: nat, k: nat)
    requires JointDistribution(n, joint, t) && UtilityTable(n, u)
    requires k < |Operations(input.mask, n.computations)|
    ensures var full := BeliefOver(n, joint, u, input, AllTuples(t), true);
            var kept := BeliefOver(n, joint, u, input, Support(n, joint, t), false);
            Rectangular(full.utilities) && Rectangular(kept.utilities) &&
            (FeaturesOf(kept, kept.computations[k]) == FeaturesOf(full, full.computations[k]) <==>
             ResultCannotMatter(n, joint, u, input, t, k))
  {
    hide Mass, TupleUtility, Operations, Values, Best, SortedKeys, Support, Dot, ResultCannotMatter;
    SupportNotEmpty(n, joint, t);
    CompactionKeepsFeatures(n, joint, u, input, t, k);
    SupportBelow(n, joint, t);
    assert Support(n, joint, t)[0] < t;
    var op := Operations(input.mask, n.computations)[k];
    var full := BeliefOver(n, joint, u, input, AllTuples(t), true);
    var plain := BeliefOver(n, joint, u, input, AllTuples(t), false);
    assert full.computations[k].groups == plain.computations[k].groups;
    UniformLikelihoodHidesResults(n, full, full.computations[k], AllTuples(t), op);
    ObservedIsWorthlessIff(n, joint, u, input, t, k);
  }

  const TWO_BY_TWO := Config(2, 1, 2)
  /** The result names the class. */
  const REVEALING: Vector := [0.5, 0.0, 0.0, 0.5]
  const NAME_THE_CLASS: Matrix := [[1.0, 0.0, 0.0], [0.0, 1.0, 0.0]]

  lemma Shown(o: nat)
    requires o < 2
    ensures Showing(TWO_BY_TWO, REVEALING, 0, o) == if o == 0 then [0.5, 0.0, 0.0, 0.0] else [0.0, 0.0, 0.0, 0.5]
  {
    var part := Showing(TWO_BY_TWO, REVEALING, 0, o);
    forall s | 0 <= s < 4 ensures part[s] == if s / 2 == o then REVEALING[s] else 0.0 {
      assert Digit(TWO_BY_TWO, s / 2, 0) == s / 2;
    }
  }

  lemma ClassesOfTwo(joint: Vector, y: nat)
    requires y < 2
    ensures ClassBelief(TWO_BY_TWO, joint, 2)[y] == At(joint, y) + At(joint, 2 + y)
  {
    ClassBeliefAdds(TWO_BY_TWO, joint, 0, y);
    ClassBeliefAdds(TWO_BY_TWO, joint, 1, y);
  }

  lemma ShownClass(o: nat)
    requires o < 2
    ensures Values(ClassBelief(TWO_BY_TWO, Showing(TWO_BY_TWO, REVEALING, 0, o), 2), NAME_THE_CLASS) ==
            if o == 0 then [0.5, 0.0, 0.0] else [0.0, 0.5, 0.0]
  {
    hide ClassBelief, Showing, Dot;
    var part := Showing(TWO_BY_TWO, REVEALING, 0, o);
    var p := ClassBelief(TWO_BY_TWO, part, 2);
    Shown(o);
    ClassesOfTwo(part, 0);
    ClassesOfTwo(part, 1);
    forall a | 0 <= a < 3 ensures Values(p, NAME_THE_CLASS)[a] == if a == o then 0.5 else 0.0 {
      DotOfTwo(p, Column(NAME_THE_CLASS, a));
    }
  }

  lemma TotalOfFour(v: Vector)
    requires |v| == 4
    ensures Total(v) == v[0] + v[1] + v[2] + v[3]
  {
    var f := i => At(v, i);
    assert Sum(4, f) == Sum(2, f) + f(2) + f(3);
    SumCong(4, i => At(v, i), f);
  }

  lemma DotOfTwo(p: Vector, z: Vector)
    ensures Dot(2, p, z) == At(p, 0) * At(z, 0) + At(p, 1) * At(z, 1)
  {
  }

  /** They do disagree: where the result names the class, the full construction under the
      ablation sees no value in it and the compacted one does. */
  lemma UniformConstructionsDiffer(costs: Vector, remaining: int, horizon: int)
    ensures var input := Input([true], costs, remaining, horizon, true);
            var full := BeliefOver(TWO_BY_TWO, REVEALING, NAME_THE_CLASS, input, AllTuples(2), true);
            var kept := BeliefOver(TWO_BY_TWO, REVEALING, NAME_THE_CLASS, input, Support(TWO_BY_TWO, REVEALING, 2), false);
            Rectangular(full.utilities) && Rectangular(kept.utilities) &&
            |full.computations| == |kept.computations| == 1 &&
            FeaturesOf(kept, kept.computations[0]) != FeaturesOf(full, full.computations[0])
  {
    hide Values, ClassBelief, Showing, Support, Best, FeaturesOf, Total;
    var input := Input([true], costs, remaining, horizon, true);
    assert Operations(input.mask, 1) == [0] by { assert Operations(input.mask, 0) == []; }
    TotalOfFour(REVEALING);
    if a: nat :| BestWhatever(TWO_BY_TWO, REVEALING, NAME_THE_CLASS, 2, 0, a) {
      ShownClass(0);
      ShownClass(1);
      BestIs([0.5, 0.0, 0.0], 0);
      BestIs([0.0, 0.5, 0.0], 1);
    }
    UniformAgreesIff(TWO_BY_TWO, REVEALING, NAME_THE_CLASS, input, 2, 0);
  }

  // ---------- Same inputs accepted ----------

  /** What the belief check asks of a query beyond the distribution: a clock and positive costs. */
  predicate Affordable(n: Config, input: Input) {
    input.remaining >= 0 && input.horizon >= 0 && (input.horizon > 0 ==> input.remaining <= input.horizon) &&
    forall op | op in Operations(input.mask, n.computations) :: At(input.costs, op) > 0.0
  }

  /** Over tuples that hold all the mass, the belief check passes exactly for affordable queries. */
  lemma ValidIffAffordable(n: Config, joint: Vector, u: Matrix, input: Input, tuples: seq<nat>, uniform: bool, tolerance: real)
    requires Sized(n) && UtilityTable(n, u) && tuples != [] && tolerance >= 0.0 && NonNegative(joint)
    requires Total(BeliefOver(n, joint, u, input, tuples, uniform).probabilities) == 1.0
    ensures Valid(BeliefOver(n, joint, u, input, tuples, uniform), tolerance) <==> Affordable(n, input)
  {
    hide Mass, TupleUtility, ComputationFor, ValidComputation, Operations, Total;
    var b, ops := BeliefOver(n, joint, u, input, tuples, uniform), Operations(input.mask, n.computations);
    forall i | 0 <= i < |tuples| ensures b.probabilities[i] >= 0.0 {
      MassNonNegative(n, joint, tuples[i]);
    }
    forall k | 0 <= k < |ops|
      ensures ValidComputation(b.computations[k], |tuples|, tolerance) <==> At(input.costs, ops[k]) > 0.0
    {
      ModelIsValid(n, tuples, ops[k], At(input.costs, ops[k]), uniform, tolerance);
    }
    assert forall k | 0 <= k < |ops| :: b.computations[k] in b.computations && ops[k] in ops;
  }

  lemma MassNonNegative(n: Config, joint: Vector, theta: nat)
    requires NonNegative(joint)
    ensures Mass(n, joint, theta) >= 0.0
  {
    var f := y => At(Slice(n, joint, theta), y);
    forall y | 0 <= y < n.classes ensures f(y) >= 0.0 {
      assert At(joint, theta * n.classes + y) >= 0.0;
    }
    SumNonNegative(n.classes, f);
    SumCong(n.classes, f, y => At(Slice(n, joint, theta), y));
  }

  /** Whatever the switch, the two constructions accept exactly the same queries
      once massless tuples are allowed. */
  lemma ConstructionsAcceptAlike(n: Config, joint: Vector, u: Matrix, input: Input, t: nat, uniform: bool, tolerance: real)
    requires JointDistribution(n, joint, t) && UtilityTable(n, u) && tolerance >= 0.0
    ensures Valid(BeliefOver(n, joint, u, input, AllTuples(t), uniform), tolerance) <==> Affordable(n, input)
    ensures Valid(BeliefOver(n, joint, u, input, Support(n, joint, t), false), tolerance) <==> Affordable(n, input)
  {
    hide Mass, TupleUtility, Support, Operations, Valid, Affordable, Total;
    SupportNotEmpty(n, joint, t);
    SupportBelow(n, joint, t);
    assert Support(n, joint, t)[0] < t;
    FullMass(n, joint, t, BeliefOver(n, joint, u, input, AllTuples(t), uniform).probabilities);
    KeptMass(n, joint, t, BeliefOver(n, joint, u, input, Support(n, joint, t), false).probabilities);
    ValidIffAffordable(n, joint, u, input, AllTuples(t), uniform, tolerance);
    ValidIffAffordable(n, joint, u, input, Support(n, joint, t), false, tolerance);
  }

  lemma FullMass(n: Config, joint: Vector, t: nat, full: Vector)
    requires JointDistribution(n, joint, t)
    requires |full| == t && forall theta | 0 <= theta < t :: full[theta] == Mass(n, joint, theta)
    ensures Total(full) == 1.0
  {
    hide Mass;
    MassesAdd(n, joint, t);
    SumCong(t, i => At(full, i), theta => Mass(n, joint, theta));
  }

  lemma KeptMass(n: Config, joint: Vector, t: nat, kept: Vector)
    requires JointDistribution(n, joint, t)
    requires var at := Support(n, joint, t); |kept| == |at| && forall k | 0 <= k < |at| :: kept[k] == Mass(n, joint, at[k])
    ensures Total(kept) == 1.0
  {
    hide Mass, Support;
    var full, ones := seq(t, theta => Mass(n, joint, theta)), seq(t, _ => 1.0);
    var at := Support(n, joint, t);
    SupportBelow(n, joint, t);
    FullMass(n, joint, t, full);
    PickedDot(n, joint, t, full, ones);
    assert Picked(full, at) == kept;
    DotIsSum(t, full, ones, i => At(full, i));
    DotIsSum(|kept|, kept, Picked(ones, at), i => At(kept, i));
  }

  // ---------- Same beliefs, same decision ----------

  lemma CompactionKeepsDecision(n: Config, joint: Vector, u: Matrix, input: Input, t: nat, w: Weights, d: Decision, d': Decision)
    requires JointDistribution(n, joint, t) && UtilityTable(n, u)
    requires IsDecision(BeliefOver(n, joint, u, input, AllTuples(t), false), w, d)
    requires IsDecision(BeliefOver(n, joint, u, input, Support(n, joint, t), false), w, d')
    ensures d == d'
  {
    hide Mass, TupleUtility, Operations, Values, Best, SortedKeys, Support, Dot, FeaturesOf, Worth;
    SupportNotEmpty(n, joint, t);
    var full := BeliefOver(n, joint, u, input, AllTuples(t), false);
    var kept := BeliefOver(n, joint, u, input, Support(n, joint, t), false);
    forall k | 0 <= k < |full.computations| ensures d.features[k] == d'.features[k] {
      CompactionKeepsFeatures(n, joint, u, input, t, k);
    }
    assert d.features == d'.features && d.voc == d'.voc;
    CompactionKeepsOptions(n, joint, u, input, t);
  }

  lemma CompactionKeepsOptions(n: Config, joint: Vector, u: Matrix, input: Input, t: nat)
    requires JointDistribution(n, joint, t) && UtilityTable(n, u)
    ensures var full := BeliefOver(n, joint, u, input, AllTuples(t), false);
            var kept := BeliefOver(n, joint, u, input, Support(n, joint, t), false);
            |full.utilities| > 0 && |kept.utilities| > 0 &&
            Values(kept.probabilities, kept.utilities) == Values(full.probabilities, full.utilities)
  {
    hide Mass, TupleUtility, Support, Dot, Best, Operations, Values;
    SupportNotEmpty(n, joint, t);
    var at := Support(n, joint, t);
    var full := BeliefOver(n, joint, u, input, AllTuples(t), false);
    var kept := BeliefOver(n, joint, u, input, at, false);
    SupportBelow(n, joint, t);
    assert at[0] < t;
    PickedValues(n, joint, u, t, at, full.utilities, kept.utilities, full.probabilities);
    assert Picked(full.probabilities, at) == kept.probabilities;
  }

  // ---------- The two constructions ----------

  /** First state of tuple q. */
  function Base(n: Config, q: nat): nat {
    q * n.classes
  }

  lemma StateOf(n: Config, state: nat, q: nat, r: nat)
    requires r < n.classes && state == Base(n, q) + r
    ensures Target(n, state) == r && Base(n, q + 1) == Base(n, q) + n.classes
  {
    DivisionUnique(state, n.classes, q, r);
  }

  lemma ClassBeliefAdds(n: Config, joint: Vector, q: nat, y: nat)
    requires y < n.classes
    ensures ClassBelief(n, joint, q + 1)[y] == ClassBelief(n, joint, q)[y] + At(joint, Base(n, q) + y)
  {
  }

  method MetaClassBelief(n: Config, joint: Vector, ghost t: nat) returns (p: Vector)
    requires n.classes >= 1 && |joint| == t * n.classes
    ensures p == ClassBelief(n, joint, t)
  {
    p := seq(n.classes, _ => 0.0);
    ghost var q: nat, r: nat := 0, 0;
    assert p == ClassBelief(n, joint, 0);
    hide ClassBelief;
    for state := 0 to |joint|
      invariant |p| == n.classes && state == Base(n, q) + r && r < n.classes
      invariant forall y | 0 <= y < n.classes :: p[y] == ClassBelief(n, joint, if y < r then q + 1 else q)[y]
    {
      hide Base, Target;
      StateOf(n, state, q, r);
      var y := Target(n, state);
      p := p[y := p[y] + joint[state]];
      ClassBeliefAdds(n, joint, q, r);
      if r + 1 < n.classes {
        r := r + 1;
      } else {
        q, r := q + 1, 0;
      }
    }
    DivisionUnique(|joint|, n.classes, t, 0);
    DivisionUnique(|joint|, n.classes, q, r);
  }

  /** Mass and unnormalised utilities of one tuple. */
  method TupleRow(n: Config, joint: Vector, u: Matrix, theta: nat, t: nat) returns (mass: real, v: Vector)
    requires UtilityTable(n, u) && theta < t && |joint| == t * n.classes
    ensures mass == Mass(n, joint, theta)
    ensures |v| == n.classes + 1
    ensures forall a | 0 <= a <= n.classes :: v[a] == Dot(n.classes, Slice(n, joint, theta), Column(u, a))
  {
    mass, v := 0.0, seq(n.classes + 1, _ => 0.0);
    ghost var slice := Slice(n, joint, theta);
    MulLe(n.classes, theta + 1, t);
    MulLe(n.classes, theta, theta);
    for y := 0 to n.classes
      invariant mass == Sum(y, i => At(slice, i)) && |v| == n.classes + 1
      invariant forall a | 0 <= a <= n.classes :: v[a] == Dot(y, slice, Column(u, a))
    {
      var p := joint[theta * n.classes + y];
      assert At(slice, y) == p;
      mass := mass + p;
      v := AddScaled(v, p, u[y]);
    }
  }

  method DividedBy(v: Vector, mass: real) returns (w: Vector)
    requires mass != 0.0
    ensures |w| == |v| && forall a | 0 <= a < |v| :: w[a] == v[a] / mass
  {
    w := Normalised(v, mass);
  }

  method LikelihoodRow(n: Config, o: nat, uniform: bool) returns (row: Vector)
    requires o < n.outcomes
    ensures row == OneHot(n.outcomes, o, uniform)
  {
    row := seq(n.outcomes, _ => 0.0);
    row := row[o := 1.0];
    if uniform {
      row := seq(n.outcomes, _ => 1.0 / n.outcomes as real);
    }
  }

  /** Likelihoods and groups of one operation over the listed tuples. */
  method ResultModel(n: Config, tuples: seq<nat>, op: nat, cost: real, uniform: bool) returns (c: Computation)
    requires Sized(n)
    ensures c == ComputationFor(n, tuples, op, cost, uniform)
  {
    hide Digit, OneHot;
    var likelihood, groups := [], [];
    ghost var target := ComputationFor(n, tuples, op, cost, uniform);
    for t := 0 to |tuples|
      invariant likelihood == target.likelihood[..t] && groups == target.groups[..t]
    {
      var o := Outcome(n, tuples[t] * n.classes, op);
      DivisionUnique(tuples[t] * n.classes, n.classes, tuples[t], 0);
      DigitBound(n, tuples[t], op);
      var row := LikelihoodRow(n, o, uniform);
      likelihood, groups := likelihood + [row], groups + [o];
    }
    c := Computation(cost, likelihood, groups);
  }

  method Computations(n: Config, tuples: seq<nat>, input: Input, uniform: bool) returns (cs: seq<Computation>, mapping: seq<nat>)
    requires Sized(n) && |input.mask| >= n.computations && |input.costs| >= n.computations
    ensures mapping == Operations(input.mask, n.computations) && |cs| == |mapping|
    ensures forall k | 0 <= k < |cs| :: cs[k] == ComputationFor(n, tuples, mapping[k], At(input.costs, mapping[k]), uniform)
  {
    cs, mapping := [], [];
    for op := 0 to n.computations
      invariant mapping == Operations(input.mask, op) && |cs| == |mapping|
      invariant forall k | 0 <= k < |cs| :: cs[k] == ComputationFor(n, tuples, mapping[k], At(input.costs, mapping[k]), uniform)
    {
      if input.mask[op] {
        var c := ResultModel(n, tuples, op, input.costs[op], uniform);
        cs, mapping := cs + [c], mapping + [op];
      }
    }
  }

  predicate InputShape(n: Config, joint: Vector, u: Matrix, input: Input, t: nat) {
    Sized(n) && UtilityTable(n, u) && |joint| == t * n.classes &&
    |input.mask| >= n.computations && |input.costs| >= n.computations
  }

  /** All tuples; zero mass is accepted only after observed conditioning. */
  method MetaBeliefSupport(n: Config, joint: Vector, u: Matrix, input: Input, t: nat, observedZeros: bool)
    returns (r: Result<(Belief, seq<nat>)>)
    requires InputShape(n, joint, u, input, t)
    ensures var b := BeliefOver(n, joint, u, input, AllTuples(t), input.uniformLikelihood);
            r == if (forall theta | 0 <= theta < t :: Mass(n, joint, theta) > 0.0 || (Mass(n, joint, theta) == 0.0 && observedZeros)) &&
                    Valid(b, TOLERANCE)
                 then Ok((b, Operations(input.mask, n.computations))) else Err
  {
    hide Mass, TupleUtility, Valid;
    ghost var target := BeliefOver(n, joint, u, input, AllTuples(t), input.uniformLikelihood);
    var probabilities, utilities := [], [];
    for theta := 0 to t
      invariant probabilities == target.probabilities[..theta] && utilities == target.utilities[..theta]
      invariant forall i | 0 <= i < theta :: Mass(n, joint, i) > 0.0 || (Mass(n, joint, i) == 0.0 && observedZeros)
    {
      var mass, v := TupleRow(n, joint, u, theta, t);
      if mass <= 0.0 && !(mass == 0.0 && observedZeros) {
        return Err;
      }
      if mass != 0.0 {
        v := DividedBy(v, mass);
      }
      UtilityReadOff(n, joint, u, theta, mass, v);
      probabilities, utilities := probabilities + [mass], utilities + [v];
    }
    var cs, mapping := Computations(n, AllTuples(t), input, input.uniformLikelihood);
    var b := Belief(probabilities, utilities, cs, input.remaining, input.horizon);
    assert b == target;
    if !Valid(b, TOLERANCE) {
      return Err;
    }
    return Ok((b, mapping));
  }

  lemma UtilityReadOff(n: Config, joint: Vector, u: Matrix, theta: nat, mass: real, v: Vector)
    requires |v| == n.classes + 1 && mass == Mass(n, joint, theta)
    requires forall a | 0 <= a <= n.classes ::
               v[a] == var raw := Dot(n.classes, Slice(n, joint, theta), Column(u, a)); if mass == 0.0 then raw else raw / mass
    ensures v == TupleUtility(n, joint, u, theta)
  {
  }

  /** Only tuples with mass; the likelihood ablation flag plays no part here. */
  method Phase2MetaBelief(n: Config, joint: Vector, u: Matrix, input: Input, t: nat) returns (r: Result<(Belief, seq<nat>)>)
    requires InputShape(n, joint, u, input, t)
    ensures var b := BeliefOver(n, joint, u, input, Support(n, joint, t), false);
            r == if Valid(b, TOLERANCE) then Ok((b, Operations(input.mask, n.computations))) else Err
  {
    hide Mass, TupleUtility, Valid;
    var tuples, probabilities, utilities := [], [], [];
    for theta := 0 to t
      invariant tuples == Support(n, joint, theta)
      invariant probabilities == BeliefOver(n, joint, u, input, tuples, false).probabilities
      invariant utilities == BeliefOver(n, joint, u, input, tuples, false).utilities
    {
      var mass, v := TupleRow(n, joint, u, theta, t);
      if mass != 0.0 {
        v := DividedBy(v, mass);
        UtilityReadOff(n, joint, u, theta, mass, v);
        tuples, probabilities, utilities := tuples + [theta], probabilities + [mass], utilities + [v];
      }
    }
    var cs, mapping := Computations(n, tuples, input, false);
    var b := Belief(probabilities, utilities, cs, input.remaining, input.horizon);
    assert b == BeliefOver(n, joint, u, input, tuples, false);
    if !Valid(b, TOLERANCE) {
      return Err;
    }
    return Ok((b, mapping));
  }
}
