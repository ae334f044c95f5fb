/** Running statistics of the prediction error, and the Newton square root they feed. */
module InformationDynamics {
  import opened Options
  import opened Scalars

  // ---------- Square root ----------

  lemma ProductGrows(a: real, b: real, c: real)
    requires a <= b && c >= 0.0
    ensures Product(a, c) <= Product(b, c) && (a < b && c > 0.0 ==> Product(a, c) < Product(b, c))
    ensures Product(1.0, c) == c && Product(0.0, c) == 0.0
  {
    var d := b - a;
    assert Product(b, c) == Product(a, c) + d * c;
    if d > 0.0 && c > 0.0 { assert d * c > 0.0; } else { assert d * c == 0.0; }
  }

  function NewtonStep(x: real, v: real): real
    requires x > 0.0
  {
    0.5 * (x + v / x)
  }

  /** The error squares over twice the estimate. */
  lemma NewtonError(x: real, v: real, s: real)
    requires x > 0.0 && v == Product(s, s)
    ensures NewtonStep(x, v) - s == Product(x - s, x - s) / (2.0 * x)
  {
    var q := v / x;
    assert q * x == v;
    var r := Product(x - s, x - s) / (2.0 * x);
    assert Product(x - s, x - s) == x * x - 2.0 * (x * s) + s * s;
    assert (NewtonStep(x, v) - s) * (2.0 * x) == x * x + q * x - 2.0 * (x * s);
    Cancel(NewtonStep(x, v) - s, 2.0 * x, Product(x - s, x - s));
  }

  lemma Cancel(a: real, b: real, c: real)
    requires b > 0.0 && a * b == c
    ensures a == c / b
  {
  }

  lemma Ratio(a: real, b: real, k: real)
    requires b > 0.0 && a <= k * b
    ensures a / b <= k
  {
  }

  /** From above the root, a step stays above it and halves the error. */
  lemma StepHalves(x: real, v: real, s: real)
    requires x > 0.0 && s >= 0.0 && v == Product(s, s) && x >= s
    ensures s <= NewtonStep(x, v) <= s + (x - s) / 2.0
  {
    NewtonError(x, v, s);
    var e := x - s;
    assert Product(e, e) <= Product(e, x);
    assert Product(e, x) == (e / 2.0) * (2.0 * x);
    Ratio(Product(e, e), 2.0 * x, e / 2.0);
    assert Product(e, e) >= 0.0;
  }

  /** The first step starts at v itself, which may be below the root. */
  lemma FirstStep(v: real, s: real)
    requires 0.0 < v <= 1.0 && s >= 0.0 && v == Product(s, s)
    ensures s <= NewtonStep(v, v) <= s + 0.5
  {
    assert v / v == 1.0;
    assert Product(1.0 - s, 1.0 - s) == 1.0 - 2.0 * s + v;
    if s > 1.0 { ProductGrows(1.0, s, s); }
    var e := 1.0 - s;
    ProductGrows(e, 1.0, e);
    ProductGrows(0.0, e, e);
  }

  lemma RootBelow(v: real, s: real)
    requires v > 1.0 && s >= 0.0 && v == Product(s, s)
    ensures s < v
  {
    if s <= 1.0 { ProductGrows(s, 1.0, s); } else { ProductGrows(1.0, s, s); }
  }

  lemma StepPositive(x: real, v: real)
    requires x > 0.0 && v > 0.0
    ensures NewtonStep(x, v) > 0.0
  {
  }

  /** Any step ends at or above the root, and from above it never rises. */
  lemma StepAbove(x: real, v: real)
    requires x > 0.0 && v > 0.0
    ensures Product(NewtonStep(x, v), NewtonStep(x, v)) >= v
  {
    var q := v / x;
    assert q * x == v;
    var d := x - q;
    if d >= 0.0 { ProductGrows(0.0, d, d); } else { ProductGrows(0.0, -d, -d); }
    assert Product(d, d) == x * x - 2.0 * (q * x) + q * q;
  }

  lemma StepShrinks(x: real, v: real)
    requires x > 0.0 && v > 0.0 && Product(x, x) >= v
    ensures NewtonStep(x, v) <= x
  {
    Ratio(v, x, x);
  }

  lemma SelfRatio(v: real)
    requires v > 0.0
    ensures NewtonStep(v, v) == 0.5 * (v + 1.0)
  {
  }

  function Halved(k: nat): (r: real)
    ensures r > 0.0
  {
    if k == 0 then 1.0 else Halved(k - 1) / 2.0
  }

  /** How far above the root `s` of v twelve steps may end, at scale one below v = 1 and v - s above. */
  function Excess(v: real, s: real): real { if v <= 1.0 then 1.0 else v - s }

  lemma Scaled(e: real, k: nat)
    ensures Product(e, Halved(k)) / 2.0 == Product(e, Halved(k + 1))
  {
  }

  /** Twelve Newton steps end above the root by at most 1/4096 for every value up to one. */
  method SqrtNonNegative(value: real) returns (r: real)
    ensures value <= 0.0 ==> r == 0.0
    ensures value > 0.0 ==> r > 0.0
    ensures Product(r, r) >= value
    ensures value <= 1.0 ==> r <= 1.0
    ensures forall s | s >= 0.0 && value == Product(s, s) :: s <= r <= s + Product(Excess(value, s), Halved(12))
    ensures Halved(12) == 1.0 / 4096.0
  {
    hide NewtonStep, Product, Halved;
    TwelveHalvings();
    if value <= 0.0 {
      forall s | s >= 0.0 && value == Product(s, s) ensures s <= 0.0 <= s + Product(Excess(value, s), Halved(12)) {
        ZeroRoot(value, s);
      }
      ProductGrows(0.0, 0.0, 0.0);
      return 0.0;
    }
    r := value;
    for i := 0 to 12
      invariant r > 0.0 && (i == 0 ==> r == value) && (i > 0 ==> Product(r, r) >= value)
      invariant value <= 1.0 ==> r <= 1.0
      invariant i > 0 ==> forall s | s >= 0.0 && value == Product(s, s) :: s <= r <= s + Product(Excess(value, s), Halved(i))
    {
      StepPositive(r, value);
      StepAbove(r, value);
      if i > 0 { StepShrinks(r, value); } else { SelfRatio(value); }
      forall s | s >= 0.0 && value == Product(s, s)
        ensures s <= NewtonStep(r, value) <= s + Product(Excess(value, s), Halved(i + 1))
      {
        if i > 0 {
          StepHalves(r, value, s);
          Scaled(Excess(value, s), i);
        } else {
          ScaledOnce(Excess(value, s));
          if value <= 1.0 { FirstStep(value, s); } else { RootBelow(value, s); StepHalves(r, value, s); }
        }
      }
      r := NewtonStep(r, value);
    }
  }

  /** At or above the square root of v, by at most 1/4096. */
  ghost predicate IsRoot(r: real, v: real) {
    Product(r, r) >= v && forall s | s >= 0.0 && v == Product(s, s) :: s <= r <= s + 1.0 / 4096.0
  }

  lemma RootFromExcess(r: real, v: real)
    requires 0.0 <= v <= 1.0 && Product(r, r) >= v
    requires forall s | s >= 0.0 && v == Product(s, s) :: s <= r <= s + Product(Excess(v, s), Halved(12))
    ensures IsRoot(r, v)
  {
    TwelveHalvings();
    ProductGrows(0.0, 1.0, Halved(12));
  }

  lemma ScaledOnce(e: real)
    ensures Product(e, Halved(1)) == e / 2.0
  {
    assert Halved(1) == 0.5;
  }

  lemma TwelveHalvings()
    ensures Halved(12) == 1.0 / 4096.0
  {
    assert Halved(4) == 1.0 / 16.0;
    assert Halved(8) == 1.0 / 256.0;
  }

  lemma ZeroRoot(value: real, s: real)
    requires value <= 0.0 && s >= 0.0 && value == Product(s, s)
    ensures s == 0.0 && Product(Excess(value, s), Halved(12)) >= 0.0
  {
    ProductGrows(0.0, s, s);
  }

  // ---------- The definitions the running statistics must meet ----------

  ghost function Sum(es: seq<real>): real {
    if es == [] then 0.0 else Sum(es[..|es| - 1]) + es[|es| - 1]
  }

  ghost function Mean(es: seq<real>): real {
    if es == [] then 0.0 else Sum(es) / |es| as real
  }

  /** The sum of squared deviations from c. */
  ghost function Deviation(es: seq<real>, c: real): real {
    if es == [] then 0.0 else Deviation(es[..|es| - 1], c) + Product(es[|es| - 1] - c, es[|es| - 1] - c)
  }

  ghost predicate InUnit(es: seq<real>) {
    forall i | 0 <= i < |es| :: 0.0 <= es[i] <= 1.0
  }

  lemma MeanTimesCount(es: seq<real>)
    ensures Product(Mean(es), |es| as real) == Sum(es)
  {
  }

  lemma Square(a: real, c: real)
    ensures Product(a - c, a - c) == Product(a, a) - 2.0 * Product(c, a) + Product(c, c)
  {
  }

  lemma Distribute(a: real, b: real, c: real)
    ensures Product(a, b + c) == Product(a, b) + Product(a, c) && Product(b + c, a) == Product(b, a) + Product(c, a)
    ensures Product(a, b - c) == Product(a, b) - Product(a, c) && Product(b - c, a) == Product(b, a) - Product(c, a)
    ensures Product(a, b) == Product(b, a) && Product(a, 1.0) == a == Product(1.0, a)
  {
  }

  lemma Associate(a: real, b: real, c: real)
    ensures Product(Product(a, b), c) == Product(a, Product(b, c))
  {
  }

  lemma {:induction false} DeviationExpands(es: seq<real>, c: real)
    ensures Deviation(es, c) == Deviation(es, 0.0) - 2.0 * Product(c, Sum(es)) + Product(|es| as real, Product(c, c))
  {
    hide Product;
    if es == [] {
      ProductGrows(0.0, 0.0, 0.0);
      Distribute(c, 0.0, 0.0);
      Distribute(Product(c, c), 0.0, 0.0);
    } else {
      var rest, last := es[..|es| - 1], es[|es| - 1];
      DeviationExpands(rest, c);
      Square(last, c);
      Distribute(c, Sum(rest), last);
      Distribute(Product(c, c), |rest| as real, 1.0);
      assert |es| as real == |rest| as real + 1.0;
      assert last - 0.0 == last;
    }
  }

  /** Deviations are least around the mean: moving the centre adds the count times the squared distance. */
  lemma DeviationFromMean(es: seq<real>, c: real)
    ensures Deviation(es, c) == Deviation(es, Mean(es)) + Product(|es| as real, Product(c - Mean(es), c - Mean(es)))
  {
    hide Product;
    var m, n := Mean(es), |es| as real;
    DeviationExpands(es, c);
    DeviationExpands(es, m);
    MeanTimesCount(es);
    Square(c, m);
    Distribute(n, Product(c, c) - 2.0 * Product(m, c), Product(m, m));
    Distribute(n, Product(c, c), 2.0 * Product(m, c));
    Associate(n, m, c);
    Associate(n, m, m);
    Distribute(n, m, m);
    Distribute(c, Sum(es), 0.0);
    Distribute(m, Sum(es), 0.0);
    Doubled(n, Product(m, c));
  }

  lemma Doubled(n: real, a: real)
    ensures Product(n, 2.0 * a) == 2.0 * Product(n, a)
  {
  }

  lemma {:induction false} DeviationBounds(es: seq<real>, c: real)
    ensures Deviation(es, c) >= 0.0
    ensures InUnit(es) && c == 0.5 ==> Deviation(es, c) <= |es| as real / 4.0
  {
    if es != [] {
      var rest, e := es[..|es| - 1], es[|es| - 1] - c;
      DeviationBounds(rest, c);
      SquareInUnit(e);
    }
  }

  lemma SquareInUnit(e: real)
    ensures Product(e, e) >= 0.0 && (-0.5 <= e <= 0.5 ==> Product(e, e) <= 0.25)
  {
    if e >= 0.0 {
      ProductGrows(0.0, e, e);
      if e <= 0.5 { ProductGrows(e, 0.5, e); }
    } else {
      ProductGrows(0.0, -e, -e);
      assert Product(-e, -e) == Product(e, e);
      if e >= -0.5 { ProductGrows(-e, 0.5, -e); }
    }
  }

  /** The variance of errors in [0, 1] lies in [0, 1/4]. */
  lemma VarianceBounds(es: seq<real>)
    requires es != [] && InUnit(es)
    ensures 0.0 <= Deviation(es, Mean(es)) / |es| as real <= 0.25
  {
    hide Product, Deviation, Mean;
    var n := |es| as real;
    DeviationBounds(es, Mean(es));
    DeviationBounds(es, 0.5);
    DeviationFromMean(es, 0.5);
    SquareInUnit(0.5 - Mean(es));
    ProductGrows(0.0, n, Product(0.5 - Mean(es), 0.5 - Mean(es)));
    QuarterShare(Deviation(es, Mean(es)), n);
  }

  lemma QuarterShare(d: real, n: real)
    requires n > 0.0 && 0.0 <= d <= n / 4.0
    ensures 0.0 <= d / n <= 0.25
  {
    Ratio(d, n, 0.25);
  }

  /** The updated mean is the mean of the longer stream. */
  lemma MeanStep(es: seq<real>, x: real)
    ensures Mean(es + [x]) == Mean(es) + (x - Mean(es)) / (|es| + 1) as real
  {
    assert (es + [x])[..|es|] == es;
    MeanTimesCount(es);
    var n, m := |es| as real, Mean(es);
    assert Sum(es + [x]) == m * n + x;
    assert (m + (x - m) / (n + 1.0)) * (n + 1.0) == m * n + x by {
      assert ((x - m) / (n + 1.0)) * (n + 1.0) == x - m;
    }
    Cancel(m + (x - m) / (n + 1.0), n + 1.0, m * n + x);
  }

  /** Welford's update is exact. */
  lemma WelfordStep(es: seq<real>, x: real)
    ensures var m, after := Mean(es), Mean(es + [x]);
            Deviation(es + [x], after) == Deviation(es, m) + Product(x - m, x - after)
  {
    hide Product, Mean;
    var m, after, n := Mean(es), Mean(es + [x]), |es| as real;
    assert (es + [x])[..|es|] == es;
    DeviationFromMean(es, after);
    MeanStep(es, x);
    assert n >= 0.0;
    WelfordScalar(n, m, after, x);
  }

  lemma WelfordScalar(n: real, m: real, after: real, x: real)
    requires n >= 0.0 && after == m + (x - m) / (n + 1.0)
    ensures Product(n, Product(after - m, after - m)) + Product(x - after, x - after) == Product(x - m, x - after)
  {
    hide Product;
    var step := (x - m) / (n + 1.0);
    assert step * (n + 1.0) == x - m;
    Distribute(step, n, 1.0);
    assert Product(n, step) == x - after by { StepTimes(step, n, x - m); }
    Associate(n, step, step);
    Distribute(step, x - after, 0.0);
    Distribute(x - after, step, x - after);
    assert step + (x - after) == x - m;
    Distribute(x - m, x - after, 0.0);
  }

  lemma StepTimes(step: real, n: real, d: real)
    requires step * (n + 1.0) == d
    ensures Product(n, step) == d - step
  {
  }

  // ---------- The update ----------

  const WINDOW := 16

  /** The smoothed error, by its own recurrence: a plain mean while the window grows, then exponential. */
  ghost function Smoothed(es: seq<real>): real {
    if es == [] then 0.0
    else
      Towards(Smoothed(es[..|es| - 1]), es[|es| - 1], |es|)
  }

  /** From `before` towards the n-th error. */
  function Towards(before: real, error: real, n: nat): real
    requires n > 0
  {
    before + Product(Alpha(n), error - before)
  }

  function Alpha(n: nat): (a: real)
    requires n > 0
    ensures 0.0 < a <= 1.0
  {
    var window := (if n > WINDOW then WINDOW else n) as real;
    Ratio(1.0, window, 1.0);
    1.0 / window
  }

  /** Up to sixteen samples the smoothed error is the arithmetic mean. */
  lemma {:induction false} SmoothedIsMean(es: seq<real>)
    requires |es| <= WINDOW
    ensures Smoothed(es) == Mean(es)
  {
    hide Mean;
    if es == [] {
      EmptyMean();
    } else {
      var rest, last := es[..|es| - 1], es[|es| - 1];
      SmoothedIsMean(rest);
      MeanStep(rest, last);
      assert rest + [last] == es;
      assert Product(Alpha(|es|), last - Mean(rest)) == (last - Mean(rest)) / |es| as real;
    }
  }

  lemma EmptyMean()
    ensures Mean([]) == 0.0 && Smoothed([]) == 0.0 && Deviation([], 0.0) == 0.0
  {
  }

  lemma {:induction false} SmoothedInUnit(es: seq<real>)
    requires InUnit(es)
    ensures 0.0 <= Smoothed(es) <= 1.0
  {
    if es != [] {
      var rest, last := es[..|es| - 1], es[|es| - 1];
      SmoothedInUnit(rest);
      Between(Smoothed(rest), last, Alpha(|es|));
    }
  }

  /** A step of share a in [0, 1] towards x stays between. */
  lemma Between(m: real, x: real, a: real)
    requires 0.0 <= m <= 1.0 && 0.0 <= x <= 1.0 && 0.0 <= a <= 1.0
    ensures 0.0 <= m + Product(a, x - m) <= 1.0
  {
    if x >= m {
      ProductGrows(a, 1.0, x - m);
      ProductGrows(0.0, a, x - m);
    } else {
      ProductGrows(a, 1.0, m - x);
      ProductGrows(0.0, a, m - x);
      assert Product(a, x - m) == -Product(a, m - x);
    }
  }

  datatype Policy = Policy(uncertainty: real, novelty: real, pressure: real)

  function WeightSum(p: Policy): (r: real)
    ensures r > 0.0
  {
    var sum := Clamp(p.uncertainty) + Clamp(p.novelty) + Clamp(p.pressure);
    if sum <= 0.0 then 1.0 else sum
  }

  /** A policy-weighted average of three signals. */
  function Blend(signal: real, novelty: real, instability: real, p: Policy): real {
    (Product(signal, Clamp(p.uncertainty)) + Product(novelty, Clamp(p.novelty)) + Product(instability, Clamp(p.pressure))) / WeightSum(p)
  }

  /** The weights in the unit interval share out the three signals. */
  lemma BlendShares(signal: real, novelty: real, instability: real, p: Policy)
    requires 0.0 <= p.uncertainty <= 1.0 && 0.0 <= p.novelty <= 1.0 && 0.0 <= p.pressure <= 1.0
    requires p.uncertainty + p.novelty + p.pressure > 0.0
    ensures Blend(signal, novelty, instability, p) * (p.uncertainty + p.novelty + p.pressure) ==
            signal * p.uncertainty + novelty * p.novelty + instability * p.pressure
  {
    var d := Product(signal, p.uncertainty) + Product(novelty, p.novelty) + Product(instability, p.pressure);
    var n := p.uncertainty + p.novelty + p.pressure;
    assert d == signal * p.uncertainty + novelty * p.novelty + instability * p.pressure;
    hide Product;
    assert Blend(signal, novelty, instability, p) == d / n;
    Quotient(d, n);
  }

  /** One weight alone gives its own signal, and no weight nothing. */
  lemma PureBlends(signal: real, novelty: real, instability: real, w: real)
    requires 0.0 < w <= 1.0
    ensures Blend(signal, novelty, instability, Policy(w, 0.0, 0.0)) == signal
    ensures Blend(signal, novelty, instability, Policy(0.0, w, 0.0)) == novelty
    ensures Blend(signal, novelty, instability, Policy(0.0, 0.0, w)) == instability
    ensures Blend(signal, novelty, instability, Policy(0.0, 0.0, 0.0)) == 0.0
  {
    hide Product;
    ShareCancels(signal, w);
    ShareCancels(novelty, w);
    ShareCancels(instability, w);
  }

  lemma ShareCancels(x: real, w: real)
    requires w > 0.0
    ensures Product(x, w) / w == x && Product(x, 0.0) == 0.0
  {
  }

  lemma Quotient(d: real, n: real)
    requires n > 0.0
    ensures (d / n) * n == d
  {
  }

  /** From sixteen samples on, an error moves the smoothed one by a sixteenth of their distance. */
  lemma SmoothedLater(es: seq<real>, e: real)
    requires |es| >= 16
    ensures Smoothed(es + [e]) == Smoothed(es) + (e - Smoothed(es)) / 16.0
  {
    assert (es + [e])[..|es|] == es;
    var before := Smoothed(es);
    assert Smoothed(es + [e]) == Towards(before, e, |es| + 1) && Alpha(|es| + 1) == 0.0625;
    hide Smoothed, Alpha;
  }

  lemma BlendInUnit(signal: real, novelty: real, instability: real, p: Policy)
    requires 0.0 <= signal <= 1.0 && 0.0 <= novelty <= 1.0 && 0.0 <= instability <= 1.0
    ensures 0.0 <= Blend(signal, novelty, instability, p) <= 1.0
  {
    var a, b, c := Clamp(p.uncertainty), Clamp(p.novelty), Clamp(p.pressure);
    ProductGrows(signal, 1.0, a);
    ProductGrows(novelty, 1.0, b);
    ProductGrows(instability, 1.0, c);
    ProductGrows(0.0, signal, a);
    ProductGrows(0.0, novelty, b);
    ProductGrows(0.0, instability, c);
    hide Product;
    Share(Product(signal, a) + Product(novelty, b) + Product(instability, c), WeightSum(p));
  }

  lemma Share(d: real, n: real)
    requires n > 0.0 && 0.0 <= d <= n
    ensures 0.0 <= d / n <= 1.0
  {
    Ratio(d, n, 1.0);
  }

  class PredictionStore {
    var samples: nat
    var errorEma: real
    var errorMean: real
    var errorM2: real
    var errorVariance: real
    var novelty: real
    var uncertainty: real
    var informationValue: real
    ghost var errors: seq<real>

    /** The stored statistics are those of the whole error stream. */
    ghost predicate Valid()
      reads this`samples, this`errorEma, this`errorMean, this`errorM2, this`errorVariance, this`errors
    {
      && samples == |errors| && InUnit(errors)
      && errorEma == Smoothed(errors) && errorMean == Mean(errors) && errorM2 == Deviation(errors, Mean(errors))
      && (errors != [] ==> errorVariance == Deviation(errors, Mean(errors)) / |errors| as real)
    }

    constructor ()
      ensures Valid() && errors == []
    {
      samples, errorEma, errorMean, errorM2, errorVariance := 0, 0.0, 0.0, 0.0, 0.0;
      novelty, uncertainty, informationValue, errors := 0.0, 0.0, 0.0, [];
      EmptyMean();
    }

    /** The running statistics take in one more error. */
    method Observe(error: real)
      requires Valid() && 0.0 <= error <= 1.0
      modifies this`samples, this`errorEma, this`errorMean, this`errorM2, this`errorVariance, this`errors
      ensures Valid() && errors == old(errors) + [error]
      ensures 0.0 <= errorVariance <= 0.25 && 0.0 <= errorEma <= 1.0 && (samples <= WINDOW ==> errorEma == errorMean)
    {
      hide Product, Mean, Deviation, Smoothed, Towards;
      var next := samples + 1;
      SmoothedInUnit(errors);
      SmoothedStep(errors, error);
      MeanStep(errors, error);
      WelfordStep(errors, error);
      errorEma := Towards(Clamp(errorEma), error, next);
      var delta := error - errorMean;
      errorMean := errorMean + delta / next as real;
      errorM2 := errorM2 + Product(delta, error - errorMean);
      errors := errors + [error];
      VarianceBounds(errors);
      SingleDeviation(error);
      if next == 1 { assert errors == [error]; }
      var variance := if next > 1 then errorM2 / next as real else 0.0;
      errorVariance := if variance < 0.0 then 0.0 else variance;
      SmoothedInUnit(errors);
      if next <= WINDOW { SmoothedIsMean(errors); }
      samples := next;
    }

    /** One observation. `seen` is its novelty, or None when it has no representation. The stored
        pressures are exact policy averages: no clamp acts on them. */
    method Update(predictionError: real, seen: Option<real>, policy: Policy)
      requires Valid() && (seen.Some? ==> 0.0 <= seen.value <= 1.0)
      modifies this
      ensures Valid()
      ensures errors == old(errors) + if seen.Some? then [Clamp(predictionError)] else []
      ensures seen.None? ==> (novelty, uncertainty, informationValue) == old((novelty, uncertainty, informationValue))
      ensures seen.Some? ==> 0.0 <= errorVariance <= 0.25 && (samples <= WINDOW ==> errorEma == errorMean)
      ensures seen.Some? ==> Pressures(uncertainty, informationValue, errorEma, Clamp(predictionError), seen.value, errorVariance, policy)
    {
      hide Blend, Product, Valid;
      if seen.None? { return; }
      var error := Clamp(predictionError);
      Observe(error);
      var root := SqrtNonNegative(errorVariance);
      var instability := Clamp(root);
      BlendInUnit(errorEma, seen.value, instability, policy);
      BlendInUnit(error, seen.value, instability, policy);
      RootFromExcess(root, errorVariance);
      uncertainty := Clamp(Blend(errorEma, seen.value, instability, policy));
      informationValue := Clamp(Blend(error, seen.value, instability, policy));
      novelty := seen.value;
    }
  }

  /** Uncertainty and information value average the smoothed or the last error with novelty and the
      standard deviation. */
  ghost predicate Pressures(uncertainty: real, value: real, ema: real, error: real, novelty: real, variance: real, p: Policy) {
    exists instability: real ::
      && IsRoot(instability, variance)
      && uncertainty == Blend(ema, novelty, instability, p) && value == Blend(error, novelty, instability, p)
  }

  lemma SmoothedStep(es: seq<real>, x: real)
    ensures Smoothed(es + [x]) == Towards(Smoothed(es), x, |es| + 1)
  {
    hide Towards;
    var more := es + [x];
    assert more[..|more| - 1] == es && more[|more| - 1] == x;
  }

  lemma SingleDeviation(x: real)
    ensures Deviation([x], Mean([x])) == 0.0
  {
    assert [x][..0] == [];
    assert Sum([x]) == x;
    ProductGrows(0.0, 0.0, 0.0);
  }
}
