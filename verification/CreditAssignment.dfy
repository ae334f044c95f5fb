/** Off-policy credit: importance-weighted returns along sampled decision traces,
    and why they estimate the target policy without bias. */
module CreditAssignment {
  import opened RealSums

  // ---------- Behaviour policy ----------

  function LegalCount(mask: seq<bool>, n: nat): nat
    requires n <= |mask|
  {
    if n == 0 then 0 else LegalCount(mask, n - 1) + if mask[n - 1] then 1 else 0
  }

  /** The uniform share of each legal action. */
  function Floor(mask: seq<bool>, exploration: real): real {
    var legal := LegalCount(mask, |mask|);
    if legal == 0 then 0.0 else exploration / legal as real
  }

  /** Target probabilities mixed with a uniform floor on the legal actions. */
  function Behavior(prob: Vector, mask: seq<bool>, exploration: real, a: nat): real
    requires |prob| == |mask| && a < |mask|
  {
    if exploration == 0.0 then prob[a]
    else if mask[a] then (1.0 - exploration) * prob[a] + Floor(mask, exploration)
    else 0.0
  }

  lemma {:induction false} LegalActionCounted(mask: seq<bool>, a: nat, n: nat)
    requires a < n <= |mask| && mask[a]
    ensures LegalCount(mask, n) > 0
  {
    if a < n - 1 { LegalActionCounted(mask, a, n - 1); }
  }

  method BehaviorPolicy(prob: Vector, mask: seq<bool>, exploration: real) returns (behavior: Vector)
    requires |prob| == |mask| && exists a :: 0 <= a < |mask| && mask[a]
    ensures |behavior| == |mask| && forall a | 0 <= a < |mask| :: behavior[a] == Behavior(prob, mask, exploration, a)
  {
    if exploration == 0.0 {
      return prob;
    }
    var legal := 0;
    for i := 0 to |mask|
      invariant legal == LegalCount(mask, i)
    {
      if mask[i] {
        legal := legal + 1;
      }
    }
    ghost var allowed: nat :| allowed < |mask| && mask[allowed];
    LegalActionCounted(mask, allowed, |mask|);
    var floor := exploration / legal as real;
    behavior := seq(|prob|, _ => 0.0);
    for a := 0 to |mask|
      invariant |behavior| == |mask|
      invariant forall k | 0 <= k < a :: behavior[k] == Behavior(prob, mask, exploration, k)
      invariant forall k | a <= k < |mask| :: behavior[k] == 0.0
    {
      if mask[a] {
        behavior := behavior[a := (1.0 - exploration) * prob[a] + floor];
      }
    }
  }

  /** What a masked softmax delivers: positive exactly on legal actions, total one. */
  ghost predicate Policy(prob: Vector, mask: seq<bool>) {
    |prob| == |mask| && (exists a :: 0 <= a < |mask| && mask[a]) &&
    (forall a | 0 <= a < |mask| :: if mask[a] then prob[a] > 0.0 else prob[a] == 0.0) &&
    Sum(|prob|, a => At(prob, a)) == 1.0
  }

  function BehaviorVector(prob: Vector, mask: seq<bool>, exploration: real): (v: Vector)
    requires |prob| == |mask|
    ensures |v| == |mask|
  {
    seq(|mask|, a requires 0 <= a < |mask| => Behavior(prob, mask, exploration, a))
  }

  lemma {:induction false} FloorTotal(mask: seq<bool>, floor: real, n: nat)
    requires n <= |mask|
    ensures Sum(n, a => if 0 <= a < |mask| && mask[a] then floor else 0.0) == LegalCount(mask, n) as real * floor
  {
    if n > 0 { FloorTotal(mask, floor, n - 1); }
  }

  lemma MixPositive(c: real, p: real, floor: real)
    requires c >= 0.0 && p >= 0.0 && floor > 0.0
    ensures c * p + floor > 0.0
  {
  }

  /** b mixes prob with a floor on the legal actions. */
  ghost predicate Mixes(prob: Vector, mask: seq<bool>, b: Vector, keep: real, floor: real) {
    |prob| == |b| == |mask| &&
    forall a | 0 <= a < |mask| :: At(b, a) == keep * At(prob, a) + if mask[a] then floor else 0.0
  }

  lemma MixedTotal(prob: Vector, mask: seq<bool>, b: Vector, keep: real, floor: real)
    requires Mixes(prob, mask, b, keep, floor) && Sum(|mask|, a => At(prob, a)) == 1.0
    ensures Sum(|mask|, a => At(b, a)) == keep + LegalCount(mask, |mask|) as real * floor
  {
    hide Sum, LegalCount;
    var n := |mask|;
    var g := a => if 0 <= a < n && mask[a] then floor else 0.0;
    forall a | 0 <= a < n ensures At(b, a) == keep * At(prob, a) + 1.0 * g(a) {
      assert g(a) == if mask[a] then floor else 0.0;
    }
    SumLinear(n, keep, a => At(prob, a), 1.0, g, a => At(b, a));
    FloorTotal(mask, floor, n);
    SumCong(n, g, a => if 0 <= a < |mask| && mask[a] then floor else 0.0);
  }

  lemma MixedPositive(prob: Vector, mask: seq<bool>, b: Vector, keep: real, floor: real)
    requires Mixes(prob, mask, b, keep, floor) && keep >= 0.0 && floor > 0.0
    requires forall a | 0 <= a < |mask| :: if mask[a] then prob[a] > 0.0 else prob[a] == 0.0
    ensures forall a | 0 <= a < |mask| :: if mask[a] then b[a] > 0.0 else b[a] == 0.0
  {
    forall a | 0 <= a < |mask| ensures if mask[a] then b[a] > 0.0 else b[a] == 0.0 {
      assert b[a] == keep * prob[a] + if mask[a] then floor else 0.0;
      MixPositive(keep, prob[a], floor);
    }
  }

  lemma BehaviorMixes(prob: Vector, mask: seq<bool>, exploration: real, floor: real)
    requires |prob| == |mask| && exploration != 0.0 && floor == Floor(mask, exploration)
    requires forall a | 0 <= a < |mask| && !mask[a] :: prob[a] == 0.0
    ensures Mixes(prob, mask, BehaviorVector(prob, mask, exploration), 1.0 - exploration, floor)
  {
    hide Floor;
  }

  lemma FloorSpreads(mask: seq<bool>, exploration: real)
    requires LegalCount(mask, |mask|) > 0 && exploration > 0.0
    ensures Floor(mask, exploration) > 0.0
    ensures LegalCount(mask, |mask|) as real * Floor(mask, exploration) == exploration
  {
  }

  lemma NoExploration(prob: Vector, mask: seq<bool>)
    requires |prob| == |mask|
    ensures BehaviorVector(prob, mask, 0.0) == prob
  {
  }

  /** Mixing keeps a policy: ratios to it are defined on every legal action. */
  lemma BehaviorIsPolicy(prob: Vector, mask: seq<bool>, exploration: real)
    requires Policy(prob, mask) && 0.0 <= exploration <= 1.0
    ensures Policy(BehaviorVector(prob, mask, exploration), mask)
  {
    hide Sum, Behavior, BehaviorVector, Mixes, Floor, LegalCount;
    var b := BehaviorVector(prob, mask, exploration);
    if exploration == 0.0 {
      NoExploration(prob, mask);
    } else {
      var legal: nat :| legal < |mask| && mask[legal];
      LegalActionCounted(mask, legal, |mask|);
      var floor := Floor(mask, exploration);
      FloorSpreads(mask, exploration);
      BehaviorMixes(prob, mask, exploration, floor);
      MixedTotal(prob, mask, b, 1.0 - exploration, floor);
      MixedPositive(prob, mask, b, 1.0 - exploration, floor);
    }
  }

  /** Exploration moves every legal action's probability from the policy's towards the uniform one, and gives
      illegal actions none. */
  lemma MixedProbability(prob: Vector, mask: seq<bool>, exploration: real, a: nat)
    requires |prob| == |mask| && a < |mask|
    ensures exploration == 0.0 ==> Behavior(prob, mask, exploration, a) == prob[a]
    ensures exploration != 0.0 && !mask[a] ==> Behavior(prob, mask, exploration, a) == 0.0
    ensures mask[a] ==> |LegalActions(mask)| > 0
    ensures exploration != 0.0 && mask[a] ==>
              Behavior(prob, mask, exploration, a) == prob[a] + exploration * (1.0 / |LegalActions(mask)| as real - prob[a])
  {
    LegalCounted(mask, |mask|);
    assert mask[..|mask|] == mask;
    if mask[a] {
      assert a in LegalActions(mask);
      if exploration != 0.0 { Moved(exploration, prob[a], |LegalActions(mask)| as real); }
    }
  }

  ghost function LegalActions(mask: seq<bool>): set<int> {
    set a | 0 <= a < |mask| && mask[a]
  }

  lemma {:induction false} LegalCounted(mask: seq<bool>, n: nat)
    requires n <= |mask|
    ensures LegalCount(mask, n) == |LegalActions(mask[..n])|
  {
    if n > 0 {
      LegalCounted(mask, n - 1);
      assert LegalActions(mask[..n]) == LegalActions(mask[..n - 1]) + if mask[n - 1] then {n - 1} else {};
    }
  }

  lemma Moved(e: real, p: real, legal: real)
    requires legal > 0.0
    ensures (1.0 - e) * p + e / legal == p + e * (1.0 / legal - p)
  {
    assert e / legal == e * (1.0 / legal);
  }

  // ---------- Credit along one trace ----------

  datatype Frame = Frame(features: Vector, mask: seq<bool>, action: nat, reward: real, behaviorProbability: real)
  datatype Step = Step(ratio: real, reward: real)

  /** The actor-critic: action probabilities and value of a frame's features. */
  type Forward = (Vector, seq<bool>) -> (Vector, real)

  function StepOf(forward: Forward, f: Frame): Step
    requires f.behaviorProbability != 0.0
  {
    Step(At(forward(f.features, f.mask).0, f.action) / f.behaviorProbability, f.reward)
  }

  predicate Sampled(frames: seq<Frame>) {
    forall t | 0 <= t < |frames| :: frames[t].behaviorProbability != 0.0
  }

  function StepsOf(forward: Forward, frames: seq<Frame>): (steps: seq<Step>)
    requires Sampled(frames)
    ensures |steps| == |frames|
  {
    seq(|frames|, t requires 0 <= t < |frames| => StepOf(forward, frames[t]))
  }

  function Product(steps: seq<Step>): real {
    if steps == [] then 1.0 else Product(steps[..|steps| - 1]) * steps[|steps| - 1].ratio
  }

  /** Reward now, plus the future corrected for the next and later choices. */
  function Return(steps: seq<Step>): real {
    if steps == [] then 0.0 else steps[0].reward + Future(steps[1..])
  }

  function Future(steps: seq<Step>): real {
    if steps == [] then 0.0 else steps[0].ratio * (steps[0].reward + Future(steps[1..]))
  }

  datatype Targets = Targets(advantages: Vector, totals: Vector, before: Vector, through: Vector)

  /** The targets of a trace: returns, baseline-free advantages and the two prefix weights. */
  ghost predicate IsTargets(forward: Forward, frames: seq<Frame>, r: Targets)
    requires Sampled(frames)
  {
    var n, steps := |frames|, StepsOf(forward, frames);
    |r.advantages| == |r.totals| == |r.before| == |r.through| == n &&
    forall t | 0 <= t < n ::
      r.before[t] == Product(steps[..t]) && r.through[t] == Product(steps[..t + 1]) &&
      r.totals[t] == Return(steps[t..]) &&
      r.advantages[t] == r.totals[t] - forward(frames[t].features, frames[t].mask).1
  }

  lemma ProductSnoc(steps: seq<Step>, t: nat)
    requires t < |steps|
    ensures Product(steps[..t + 1]) == Product(steps[..t]) * steps[t].ratio
  {
    assert steps[..t + 1][..t] == steps[..t];
  }

  ghost predicate Weighted(steps: seq<Step>, t: int, ratio: real, before: real, through: real) {
    0 <= t < |steps| && ratio == steps[t].ratio && before == Product(steps[..t]) && through == Product(steps[..t + 1])
  }

  method ForwardPass(forward: Forward, frames: seq<Frame>)
    returns (ratios: Vector, before: Vector, through: Vector, advantages: Vector)
    requires Sampled(frames)
    requires forall t | 0 <= t < |frames| :: frames[t].action < |forward(frames[t].features, frames[t].mask).0|
    ensures |ratios| == |before| == |through| == |advantages| == |frames|
    ensures forall t | 0 <= t < |frames| :: Weighted(StepsOf(forward, frames), t, ratios[t], before[t], through[t])
    ensures forall t | 0 <= t < |frames| :: advantages[t] == -forward(frames[t].features, frames[t].mask).1
  {
    ghost var steps := StepsOf(forward, frames);
    assert Product(steps[..0]) == 1.0;
    hide Product, StepsOf, Weighted;
    var prefix := 1.0;
    ratios, before, through, advantages := [], [], [], [];
    for t := 0 to |frames|
      invariant |ratios| == |before| == |through| == |advantages| == t && prefix == Product(steps[..t])
      invariant forall k | 0 <= k < t :: Weighted(steps, k, ratios[k], before[k], through[k])
      invariant forall k | 0 <= k < t :: advantages[k] == -forward(frames[k].features, frames[k].mask).1
    {
      var f := frames[t];
      var (pi, value) := forward(f.features, f.mask);
      var ratio := pi[f.action] / f.behaviorProbability;
      WeightedStep(forward, frames, t, ratio, prefix);
      ratios, before := ratios + [ratio], before + [prefix];
      prefix := prefix * ratio;
      through, advantages := through + [prefix], advantages + [-value];
    }
  }

  lemma WeightedStep(forward: Forward, frames: seq<Frame>, t: nat, ratio: real, prefix: real)
    requires Sampled(frames) && t < |frames| && ratio == StepOf(forward, frames[t]).ratio
    requires prefix == Product(StepsOf(forward, frames)[..t])
    ensures Weighted(StepsOf(forward, frames), t, ratio, prefix, prefix * ratio)
    ensures prefix * ratio == Product(StepsOf(forward, frames)[..t + 1])
  {
    ProductSnoc(StepsOf(forward, frames), t);
  }

  method ImportanceTargets(forward: Forward, frames: seq<Frame>) returns (r: Targets)
    requires Sampled(frames)
    requires forall t | 0 <= t < |frames| :: frames[t].action < |forward(frames[t].features, frames[t].mask).0|
    ensures IsTargets(forward, frames, r)
  {
    hide Product;
    var n := |frames|;
    ghost var steps := StepsOf(forward, frames);
    var ratios, before, through, values := ForwardPass(forward, frames);
    var advantages, totals := values, seq(n, _ => 0.0);
    var future, t := 0.0, n;
    while t > 0
      invariant 0 <= t <= n && |advantages| == |totals| == n && future == Future(steps[t..])
      invariant forall k | t <= k < n :: totals[k] == Return(steps[k..]) && advantages[k] == values[k] + totals[k]
      invariant forall k | 0 <= k < t :: advantages[k] == values[k]
    {
      t := t - 1;
      assert steps[t..][1..] == steps[t + 1..];
      var ret := frames[t].reward + future;
      totals, advantages := totals[t := ret], advantages[t := advantages[t] + ret];
      future := ratios[t] * ret;
    }
    r := Targets(advantages, totals, before, through);
  }

  function RewardSum(frames: seq<Frame>): real {
    if frames == [] then 0.0 else frames[0].reward + RewardSum(frames[1..])
  }

  ghost predicate IsPlain(forward: Forward, frames: seq<Frame>, advantages: Vector, totals: Vector) {
    |advantages| == |totals| == |frames| &&
    forall t | 0 <= t < |frames| ::
      totals[t] == RewardSum(frames[t..]) && advantages[t] == totals[t] - forward(frames[t].features, frames[t].mask).1
  }

  /** The on-policy targets: plain reward sums. */
  method PlainTargets(forward: Forward, frames: seq<Frame>) returns (advantages: Vector, totals: Vector)
    ensures IsPlain(forward, frames, advantages, totals)
  {
    var n := |frames|;
    advantages, totals := seq(n, _ => 0.0), seq(n, _ => 0.0);
    var ret, t := 0.0, n;
    while t > 0
      invariant 0 <= t <= n && |advantages| == |totals| == n && ret == RewardSum(frames[t..])
      invariant forall k | t <= k < n ::
                  totals[k] == RewardSum(frames[k..]) && advantages[k] == totals[k] - forward(frames[k].features, frames[k].mask).1
    {
      t := t - 1;
      assert frames[t..][1..] == frames[t + 1..];
      var f := frames[t];
      ret := ret + f.reward;
      var (_, v) := forward(f.features, f.mask);
      totals, advantages := totals[t := ret], advantages[t := ret - v];
    }
  }

  ghost predicate OnPolicy(forward: Forward, frames: seq<Frame>)
    requires Sampled(frames)
  {
    forall t | 0 <= t < |frames| :: StepOf(forward, frames[t]).ratio == 1.0
  }

  /** On policy the corrected targets are the plain ones and all weights are one. */
  lemma OnPolicyTargets(forward: Forward, frames: seq<Frame>, r: Targets, advantages: Vector, totals: Vector)
    requires Sampled(frames) && OnPolicy(forward, frames)
    requires IsTargets(forward, frames, r) && IsPlain(forward, frames, advantages, totals)
    ensures r.advantages == advantages && r.totals == totals
    ensures forall t | 0 <= t < |frames| :: r.before[t] == 1.0 && r.through[t] == 1.0
  {
    hide Product, Return, RewardSum, StepOf;
    var steps := StepsOf(forward, frames);
    forall t | 0 <= t < |frames| ensures r.before[t] == 1.0 && r.through[t] == 1.0 && r.totals[t] == totals[t] {
      OnPolicySums(forward, frames[..t]);
      OnPolicySums(forward, frames[..t + 1]);
      OnPolicySums(forward, frames[t..]);
      assert StepsOf(forward, frames[..t]) == steps[..t] && StepsOf(forward, frames[..t + 1]) == steps[..t + 1];
      assert StepsOf(forward, frames[t..]) == steps[t..];
    }
  }

  lemma {:induction false} OnPolicySums(forward: Forward, frames: seq<Frame>)
    requires Sampled(frames) && OnPolicy(forward, frames)
    ensures Product(StepsOf(forward, frames)) == 1.0
    ensures Return(StepsOf(forward, frames)) == RewardSum(frames) == Future(StepsOf(forward, frames))
    decreases |frames|
  {
    hide Product;
    var steps := StepsOf(forward, frames);
    if frames != [] {
      OnPolicySums(forward, frames[1..]);
      assert StepsOf(forward, frames[1..]) == steps[1..];
      assert steps == [steps[0]] + steps[1..];
      ProductCons(steps[0], steps[1..]);
    } else {
      EmptyProduct();
    }
  }

  lemma EmptyProduct()
    ensures Product([]) == 1.0
  {
  }

  // ---------- Decision trees ----------

  /** A finite decision problem: target and behaviour policies per node (their features may
      differ, their legal actions agree), exploration, and chance outcomes per action. */
  datatype Node =
    | Leaf
    | Decision(features: Vector, mask: seq<bool>, target: Vector, sampler: Vector, exploration: real, branches: seq<Branch>)
  datatype Branch = Branch(outcomes: seq<Outcome>)
  datatype Outcome = Outcome(prob: real, reward: real, next: Node)

  ghost predicate WellFormed(node: Node) {
    node.Decision? ==>
      Policy(node.target, node.mask) && Policy(node.sampler, node.mask) && 0.0 <= node.exploration <= 1.0 &&
      |node.branches| == |node.mask| &&
      forall a | 0 <= a < |node.branches| && node.mask[a] ::
        Sum(|node.branches[a].outcomes|, s => Chance(node, a, s)) == 1.0 &&
        forall s | 0 <= s < |node.branches[a].outcomes| :: WellFormed(node.branches[a].outcomes[s].next)
  }

  function Chance(node: Node, a: int, s: int): real {
    if node.Decision? && 0 <= a < |node.branches| && 0 <= s < |node.branches[a].outcomes| then node.branches[a].outcomes[s].prob else 0.0
  }

  function Played(node: Node): (v: Vector)
    requires node.Decision? && |node.sampler| == |node.mask|
    ensures |v| == |node.mask|
  {
    BehaviorVector(node.sampler, node.mask, node.exploration)
  }

  function Ratio(node: Node, a: nat): real
    requires node.Decision? && a < |node.mask| == |node.sampler| && Played(node)[a] != 0.0
  {
    At(node.target, a) / Played(node)[a]
  }

  /** Expected score of the sampled trace below a node. */
  ghost function Expect(node: Node, h: seq<Step> -> real): real
    requires WellFormed(node)
    decreases node, 2
  {
    if node.Leaf? then h([]) else Sum(|node.mask|, a => ExpectAction(node, h, a))
  }

  ghost function ExpectAction(node: Node, h: seq<Step> -> real, a: int): real
    requires WellFormed(node) && node.Decision?
    decreases node, 1
  {
    if 0 <= a < |node.mask| && node.mask[a]
    then Played(node)[a] * Sum(|node.branches[a].outcomes|, s => ExpectOutcome(node, h, a, s))
    else 0.0
  }

  ghost function ExpectOutcome(node: Node, h: seq<Step> -> real, a: int, s: int): real
    requires WellFormed(node) && node.Decision?
    decreases node, 0
  {
    if 0 <= a < |node.mask| && node.mask[a] && 0 <= s < |node.branches[a].outcomes| then
      BehaviorIsPolicy(node.sampler, node.mask, node.exploration);
      var o := node.branches[a].outcomes[s];
      o.prob * Expect(o.next, Onward(h, Step(Ratio(node, a), o.reward)))
    else 0.0
  }

  function Onward(h: seq<Step> -> real, step: Step): seq<Step> -> real {
    tail => h([step] + tail)
  }

  /** The importance-weighted return of step t; traces that end earlier contribute nothing. */
  function WeightedReturn(steps: seq<Step>, t: nat): real {
    if t < |steps| then Product(steps[..t + 1]) * Return(steps[t..]) else 0.0
  }

  /** What the target policy itself earns from step t on. */
  ghost function TargetReturn(node: Node, t: nat): real
    requires WellFormed(node)
    decreases node, 2
  {
    if node.Leaf? then 0.0 else Sum(|node.mask|, a => TargetAction(node, t, a))
  }

  ghost function TargetAction(node: Node, t: nat, a: int): real
    requires WellFormed(node) && node.Decision?
    decreases node, 1
  {
    if 0 <= a < |node.mask| && node.mask[a]
    then node.target[a] * Sum(|node.branches[a].outcomes|, s => TargetOutcome(node, t, a, s))
    else 0.0
  }

  ghost function TargetOutcome(node: Node, t: nat, a: int, s: int): real
    requires WellFormed(node) && node.Decision?
    decreases node, 0
  {
    if 0 <= a < |node.mask| && node.mask[a] && 0 <= s < |node.branches[a].outcomes| then
      var o := node.branches[a].outcomes[s];
      o.prob * (if t == 0 then o.reward + TargetReturn(o.next, 0) else TargetReturn(o.next, t - 1))
    else 0.0
  }

  // ---------- Linearity and normalisation of the expectation ----------

  /** What a legal action of a well-formed node guarantees. */
  lemma LegalAction(node: Node, a: nat)
    requires WellFormed(node) && node.Decision? && a < |node.mask| && node.mask[a]
    ensures |node.mask| == |node.branches| == |node.sampler| == |node.target| && Played(node)[a] > 0.0
    ensures Sum(|node.branches[a].outcomes|, s => Chance(node, a, s)) == 1.0
    ensures forall s | 0 <= s < |node.branches[a].outcomes| :: WellFormed(node.branches[a].outcomes[s].next)
  {
    BehaviorIsPolicy(node.sampler, node.mask, node.exploration);
  }

  ghost predicate Combines(a: real, f: seq<Step> -> real, b: real, g: seq<Step> -> real, h: seq<Step> -> real) {
    forall steps :: h(steps) == a * f(steps) + b * g(steps)
  }

  lemma OnwardCombines(a: real, f: seq<Step> -> real, b: real, g: seq<Step> -> real, h: seq<Step> -> real, step: Step)
    requires Combines(a, f, b, g, h)
    ensures Combines(a, Onward(f, step), b, Onward(g, step), Onward(h, step))
  {
    forall tail: seq<Step>
      ensures Onward(h, step)(tail) == a * Onward(f, step)(tail) + b * Onward(g, step)(tail)
    {
      assert h([step] + tail) == a * f([step] + tail) + b * g([step] + tail);
    }
  }

  lemma {:induction false} ExpectLinear(node: Node, a: real, f: seq<Step> -> real, b: real, g: seq<Step> -> real, h: seq<Step> -> real)
    requires WellFormed(node) && Combines(a, f, b, g, h)
    ensures Expect(node, h) == a * Expect(node, f) + b * Expect(node, g)
    decreases node, 2
  {
    hide ExpectAction, WellFormed;
    if node.Decision? {
      forall x | 0 <= x < |node.mask|
        ensures ExpectAction(node, h, x) == a * ExpectAction(node, f, x) + b * ExpectAction(node, g, x)
      {
        ExpectActionLinear(node, a, f, b, g, h, x);
      }
      SumLinear(|node.mask|, a, x => ExpectAction(node, f, x), b, x => ExpectAction(node, g, x), x => ExpectAction(node, h, x));
    }
  }

  lemma {:induction false} ExpectActionLinear(node: Node, a: real, f: seq<Step> -> real, b: real, g: seq<Step> -> real, h: seq<Step> -> real, x: nat)
    requires WellFormed(node) && node.Decision? && Combines(a, f, b, g, h)
    ensures ExpectAction(node, h, x) == a * ExpectAction(node, f, x) + b * ExpectAction(node, g, x)
    decreases node, 1
  {
    hide WellFormed, Combines, Played, ExpectOutcome, Sum;
    if x < |node.mask| && node.mask[x] {
      LegalAction(node, x);
      var n := |node.branches[x].outcomes|;
      forall s | 0 <= s < n
        ensures ExpectOutcome(node, h, x, s) == a * ExpectOutcome(node, f, x, s) + b * ExpectOutcome(node, g, x, s)
      {
        ExpectOutcomeLinear(node, a, f, b, g, h, x, s);
      }
      SumLinear(n, a, s => ExpectOutcome(node, f, x, s), b, s => ExpectOutcome(node, g, x, s), s => ExpectOutcome(node, h, x, s));
      Distribute(Played(node)[x], a, Sum(n, s => ExpectOutcome(node, f, x, s)), b, Sum(n, s => ExpectOutcome(node, g, x, s)));
    }
  }

  lemma {:induction false} ExpectOutcomeLinear(node: Node, a: real, f: seq<Step> -> real, b: real, g: seq<Step> -> real, h: seq<Step> -> real, x: nat, s: nat)
    requires WellFormed(node) && node.Decision? && Combines(a, f, b, g, h)
    requires x < |node.mask| && node.mask[x] && |node.branches| == |node.mask| && s < |node.branches[x].outcomes|
    ensures ExpectOutcome(node, h, x, s) == a * ExpectOutcome(node, f, x, s) + b * ExpectOutcome(node, g, x, s)
    decreases node, 0
  {
    hide WellFormed, Combines, Played, Expect, Onward;
    LegalAction(node, x);
    var o := node.branches[x].outcomes[s];
    var step := Step(Ratio(node, x), o.reward);
    OnwardCombines(a, f, b, g, h, step);
    ExpectLinear(o.next, a, Onward(f, step), b, Onward(g, step), Onward(h, step));
    Distribute(o.prob, a, Expect(o.next, Onward(f, step)), b, Expect(o.next, Onward(g, step)));
  }

  lemma Distribute(c: real, a: real, x: real, b: real, y: real)
    ensures c * (a * x + b * y) == a * (c * x) + b * (c * y)
  {
  }

  ghost predicate ConstantlyOne(h: seq<Step> -> real) {
    forall steps :: h(steps) == 1.0
  }

  lemma {:induction false} ExpectOne(node: Node, h: seq<Step> -> real)
    requires WellFormed(node) && ConstantlyOne(h)
    ensures Expect(node, h) == 1.0
    decreases node, 2
  {
    hide ExpectAction;
    if node.Decision? {
      BehaviorIsPolicy(node.sampler, node.mask, node.exploration);
      var b := Played(node);
      forall a | 0 <= a < |node.mask| ensures ExpectAction(node, h, a) == At(b, a) {
        ExpectActionOne(node, h, a);
      }
      SumCong(|node.mask|, a => ExpectAction(node, h, a), a => At(b, a));
    }
  }

  lemma {:induction false} ExpectActionOne(node: Node, h: seq<Step> -> real, a: nat)
    requires WellFormed(node) && node.Decision? && ConstantlyOne(h) && a < |node.mask|
    ensures ExpectAction(node, h, a) == At(Played(node), a)
    decreases node, 1
  {
    hide Expect, Sum;
    BehaviorIsPolicy(node.sampler, node.mask, node.exploration);
    if node.mask[a] {
      LegalAction(node, a);
      var n := |node.branches[a].outcomes|;
      forall s | 0 <= s < n ensures ExpectOutcome(node, h, a, s) == Chance(node, a, s) {
        var o := node.branches[a].outcomes[s];
        var step := Step(Ratio(node, a), o.reward);
        assert ConstantlyOne(Onward(h, step)) by {
          forall tail: seq<Step> ensures Onward(h, step)(tail) == 1.0 {
            assert h([step] + tail) == 1.0;
          }
        }
        ExpectOne(o.next, Onward(h, step));
      }
      SumCong(n, s => ExpectOutcome(node, h, a, s), s => Chance(node, a, s));
    }
  }

  // ---------- The estimator is unbiased ----------

  lemma {:induction false} ProductCons(step: Step, tail: seq<Step>)
    ensures Product([step] + tail) == step.ratio * Product(tail)
  {
    if tail == [] {
      assert [step] + tail == [step] && [step][..0] == [];
    } else {
      var l := |tail| - 1;
      ProductCons(step, tail[..l]);
      assert ([step] + tail)[..l + 1] == [step] + tail[..l];
    }
  }

  /** Scoring a trace one choice earlier multiplies by that choice's ratio. */
  lemma WeightedReturnCons(step: Step, tail: seq<Step>, t: nat)
    ensures WeightedReturn([step] + tail, t) ==
            if t == 0 then step.ratio * (step.reward + WeightedReturn(tail, 0))
            else step.ratio * WeightedReturn(tail, t - 1)
  {
    var all := [step] + tail;
    if t == 0 {
      assert all[..1] == [step] + [] && all[0..] == all && all[1..] == tail;
      ProductCons(step, []);
      if tail != [] {
        assert tail[..1] == [tail[0]] + [] && tail[0..] == tail;
        ProductCons(tail[0], []);
      }
    } else if t < |all| {
      assert all[..t + 1] == [step] + tail[..t] && all[t..] == tail[t - 1..];
      ProductCons(step, tail[..t]);
    }
  }

  ghost predicate Scores(h: seq<Step> -> real, t: nat) {
    forall steps :: h(steps) == WeightedReturn(steps, t)
  }

  /** For every tree and every step: the behaviour's weighted return is the target's. */
  lemma {:induction false} Unbiased(node: Node, t: nat, h: seq<Step> -> real)
    requires WellFormed(node) && Scores(h, t)
    ensures Expect(node, h) == TargetReturn(node, t)
    decreases node, 2
  {
    hide ExpectAction, TargetAction, WellFormed;
    if node.Decision? {
      forall a | 0 <= a < |node.mask| ensures ExpectAction(node, h, a) == TargetAction(node, t, a) {
        UnbiasedAction(node, t, h, a);
      }
      SumCong(|node.mask|, a => ExpectAction(node, h, a), a => TargetAction(node, t, a));
    }
  }

  lemma {:induction false} UnbiasedAction(node: Node, t: nat, h: seq<Step> -> real, a: nat)
    requires WellFormed(node) && node.Decision? && Scores(h, t) && a < |node.mask|
    ensures ExpectAction(node, h, a) == TargetAction(node, t, a)
    decreases node, 1
  {
    hide WellFormed, Scores, ExpectOutcome, TargetOutcome, Sum;
    if node.mask[a] {
      LegalAction(node, a);
      var n, ratio := |node.branches[a].outcomes|, Ratio(node, a);
      forall s | 0 <= s < n ensures ExpectOutcome(node, h, a, s) == TargetOutcome(node, t, a, s) * ratio {
        UnbiasedOutcome(node, t, h, a, s);
      }
      SumScale(n, ratio, s => TargetOutcome(node, t, a, s), s => ExpectOutcome(node, h, a, s));
      RatioCancels(Played(node)[a], node.target[a], Sum(n, s => TargetOutcome(node, t, a, s)));
    }
  }

  lemma RatioCancels(b: real, p: real, x: real)
    requires b > 0.0
    ensures b * (x * (p / b)) == p * x
  {
    assert b * (p / b) == p;
    assert b * (x * (p / b)) == x * (b * (p / b));
  }

  lemma {:induction false} UnbiasedOutcome(node: Node, t: nat, h: seq<Step> -> real, a: nat, s: nat)
    requires WellFormed(node) && node.Decision? && Scores(h, t)
    requires a < |node.mask| == |node.branches| && node.mask[a] && s < |node.branches[a].outcomes|
    ensures |node.sampler| == |node.mask| && Played(node)[a] > 0.0
    ensures ExpectOutcome(node, h, a, s) == TargetOutcome(node, t, a, s) * Ratio(node, a)
    decreases node, 0
  {
    hide WellFormed, Expect, TargetReturn, Played, WeightedReturn, Onward, Combines;
    LegalAction(node, a);
    var o, ratio := node.branches[a].outcomes[s], Ratio(node, a);
    var step := Step(ratio, o.reward);
    var one := (steps: seq<Step>) => 1.0;
    var k: nat := if t == 0 then 0 else t - 1;
    var score := (steps: seq<Step>) => WeightedReturn(steps, k);
    var c := if t == 0 then ratio * o.reward else 0.0;
    ScoreSplits(h, t, step, one, score, c);
    ExpectOne(o.next, one);
    Unbiased(o.next, k, score);
    ExpectLinear(o.next, c, one, ratio, score, Onward(h, step));
    var later := TargetReturn(o.next, k);
    assert Expect(o.next, Onward(h, step)) == c + ratio * later;
    Regroup(o.prob, ratio, o.reward, later);
  }

  lemma Regroup(p: real, ratio: real, reward: real, later: real)
    ensures p * (ratio * reward + ratio * later) == (p * (reward + later)) * ratio
    ensures p * (0.0 + ratio * later) == (p * later) * ratio
  {
  }

  lemma ScoreSplits(h: seq<Step> -> real, t: nat, step: Step, one: seq<Step> -> real, score: seq<Step> -> real, c: real)
    requires Scores(h, t) && ConstantlyOne(one) && Scores(score, if t == 0 then 0 else t - 1)
    requires c == if t == 0 then step.ratio * step.reward else 0.0
    ensures Combines(c, one, step.ratio, score, Onward(h, step))
  {
    hide WeightedReturn;
    forall tail: seq<Step> ensures Onward(h, step)(tail) == c * one(tail) + step.ratio * score(tail) {
      WeightedReturnCons(step, tail, t);
      assert h([step] + tail) == WeightedReturn([step] + tail, t);
    }
  }

  /** The targets computed on a trace are exactly the scores that are unbiased. */
  lemma TargetsAreScores(forward: Forward, frames: seq<Frame>, r: Targets, t: nat)
    requires Sampled(frames) && IsTargets(forward, frames, r)
    ensures WeightedReturn(StepsOf(forward, frames), t) == if t < |frames| then r.through[t] * r.totals[t] else 0.0
  {
    hide Product, Return, StepsOf;
  }

  // ---------- The target's return is an expected reward ----------

  /** The policy that plays is the target itself. */
  ghost predicate PlaysTarget(node: Node) {
    node.Decision? ==>
      node.sampler == node.target && node.exploration == 0.0 &&
      forall a, s | 0 <= a < |node.branches| && 0 <= s < |node.branches[a].outcomes| ::
        PlaysTarget(node.branches[a].outcomes[s].next)
  }

  /** The plain sum of the rewards from step t on. */
  function RewardFrom(steps: seq<Step>, t: nat): real {
    if steps == [] then 0.0
    else if t == 0 then steps[0].reward + RewardFrom(steps[1..], 0)
    else RewardFrom(steps[1..], t - 1)
  }

  ghost predicate Rewards(h: seq<Step> -> real, t: nat) {
    forall steps :: h(steps) == RewardFrom(steps, t)
  }

  /** Where the target plays, its return from step t on is the expected sum of the rewards from t on. */
  lemma {:induction false} TargetReturnIsExpected(node: Node, t: nat, h: seq<Step> -> real)
    requires WellFormed(node) && PlaysTarget(node) && Rewards(h, t)
    ensures Expect(node, h) == TargetReturn(node, t)
    decreases node, 2
  {
    hide ExpectAction, TargetAction, WellFormed, PlaysTarget;
    if node.Decision? {
      forall a | 0 <= a < |node.mask| ensures ExpectAction(node, h, a) == TargetAction(node, t, a) {
        TargetActionIsExpected(node, t, h, a);
      }
      SumCong(|node.mask|, a => ExpectAction(node, h, a), a => TargetAction(node, t, a));
    }
  }

  lemma {:induction false} TargetActionIsExpected(node: Node, t: nat, h: seq<Step> -> real, a: nat)
    requires WellFormed(node) && node.Decision? && PlaysTarget(node) && Rewards(h, t) && a < |node.mask|
    ensures ExpectAction(node, h, a) == TargetAction(node, t, a)
    decreases node, 1
  {
    hide WellFormed, Rewards, ExpectOutcome, TargetOutcome, Sum, Behavior;
    if node.mask[a] {
      LegalAction(node, a);
      NoExploration(node.sampler, node.mask);
      var n := |node.branches[a].outcomes|;
      forall s | 0 <= s < n ensures ExpectOutcome(node, h, a, s) == TargetOutcome(node, t, a, s) {
        TargetOutcomeIsExpected(node, t, h, a, s);
      }
      SumCong(n, s => ExpectOutcome(node, h, a, s), s => TargetOutcome(node, t, a, s));
    }
  }

  lemma {:induction false} TargetOutcomeIsExpected(node: Node, t: nat, h: seq<Step> -> real, a: nat, s: nat)
    requires WellFormed(node) && node.Decision? && PlaysTarget(node) && Rewards(h, t)
    requires a < |node.mask| == |node.branches| && node.mask[a] && s < |node.branches[a].outcomes|
    ensures ExpectOutcome(node, h, a, s) == TargetOutcome(node, t, a, s)
    decreases node, 0
  {
    hide WellFormed, Expect, TargetReturn, Played, Onward, Combines, RewardFrom;
    LegalAction(node, a);
    var o := node.branches[a].outcomes[s];
    var step := Step(Ratio(node, a), o.reward);
    var one := (steps: seq<Step>) => 1.0;
    var k: nat := if t == 0 then 0 else t - 1;
    var rest := (steps: seq<Step>) => RewardFrom(steps, k);
    var c := if t == 0 then o.reward else 0.0;
    RewardsSplit(h, t, step, one, rest, c);
    ExpectOne(o.next, one);
    TargetReturnIsExpected(o.next, k, rest);
    ExpectLinear(o.next, c, one, 1.0, rest, Onward(h, step));
  }

  lemma RewardsSplit(h: seq<Step> -> real, t: nat, step: Step, one: seq<Step> -> real, rest: seq<Step> -> real, c: real)
    requires Rewards(h, t) && ConstantlyOne(one) && Rewards(rest, if t == 0 then 0 else t - 1)
    requires c == if t == 0 then step.reward else 0.0
    ensures Combines(c, one, 1.0, rest, Onward(h, step))
  {
    forall tail: seq<Step> ensures Onward(h, step)(tail) == c * one(tail) + 1.0 * rest(tail) {
      assert ([step] + tail)[1..] == tail;
      assert h([step] + tail) == RewardFrom([step] + tail, t);
    }
  }

  // ---------- Sampled traces of a tree ----------

  /** The frame recorded when action a is played at a node and pays `reward`. */
  function FrameAt(node: Node, a: nat, reward: real): Frame
    requires node.Decision? && |node.sampler| == |node.mask| && a < |node.mask|
  {
    Frame(node.features, node.mask, a, reward, Played(node)[a])
  }

  /** The actor's probabilities at every node are the target policy. */
  ghost predicate Realises(forward: Forward, node: Node) {
    node.Decision? ==>
      forward(node.features, node.mask).0 == node.target &&
      forall a, s | 0 <= a < |node.branches| && 0 <= s < |node.branches[a].outcomes| ::
        Realises(forward, node.branches[a].outcomes[s].next)
  }

  /** Expected value of a statistic of the recorded frames when the behaviour policy plays. */
  ghost function ExpectTrace(node: Node, g: seq<Frame> -> real): real
    requires WellFormed(node)
    decreases node, 2
  {
    if node.Leaf? then g([]) else Sum(|node.mask|, a => ExpectTraceAction(node, g, a))
  }

  ghost function ExpectTraceAction(node: Node, g: seq<Frame> -> real, a: int): real
    requires WellFormed(node) && node.Decision?
    decreases node, 1
  {
    if 0 <= a < |node.mask| && node.mask[a]
    then Played(node)[a] * Sum(|node.branches[a].outcomes|, s => ExpectTraceOutcome(node, g, a, s))
    else 0.0
  }

  ghost function ExpectTraceOutcome(node: Node, g: seq<Frame> -> real, a: int, s: int): real
    requires WellFormed(node) && node.Decision?
    decreases node, 0
  {
    if 0 <= a < |node.mask| && node.mask[a] && 0 <= s < |node.branches[a].outcomes| then
      var o := node.branches[a].outcomes[s];
      o.prob * ExpectTrace(o.next, Recorded(g, FrameAt(node, a, o.reward)))
    else 0.0
  }

  function Recorded(g: seq<Frame> -> real, f: Frame): seq<Frame> -> real {
    tail => g([f] + tail)
  }

  /** g sees of a trace only its steps. */
  ghost predicate ReadsSteps(forward: Forward, g: seq<Frame> -> real, h: seq<Step> -> real) {
    forall frames | Sampled(frames) :: g(frames) == h(StepsOf(forward, frames))
  }

  lemma RecordedReadsSteps(forward: Forward, g: seq<Frame> -> real, h: seq<Step> -> real, f: Frame)
    requires ReadsSteps(forward, g, h) && f.behaviorProbability != 0.0
    ensures ReadsSteps(forward, Recorded(g, f), Onward(h, StepOf(forward, f)))
  {
    forall tail | Sampled(tail) ensures Recorded(g, f)(tail) == Onward(h, StepOf(forward, f))(StepsOf(forward, tail)) {
      assert Sampled([f] + tail);
      assert StepsOf(forward, [f] + tail) == [StepOf(forward, f)] + StepsOf(forward, tail);
    }
  }

  lemma {:induction false} TracesAreSteps(node: Node, forward: Forward, g: seq<Frame> -> real, h: seq<Step> -> real)
    requires WellFormed(node) && Realises(forward, node) && ReadsSteps(forward, g, h)
    ensures ExpectTrace(node, g) == Expect(node, h)
    decreases node, 2
  {
    hide WellFormed, Realises, ExpectTraceAction, ExpectAction;
    if node.Leaf? {
      assert Sampled([]) && StepsOf(forward, []) == [];
    } else {
      forall a | 0 <= a < |node.mask| ensures ExpectTraceAction(node, g, a) == ExpectAction(node, h, a) {
        TraceActionIsStep(node, forward, g, h, a);
      }
      SumCong(|node.mask|, a => ExpectTraceAction(node, g, a), a => ExpectAction(node, h, a));
    }
  }

  lemma {:induction false} TraceActionIsStep(node: Node, forward: Forward, g: seq<Frame> -> real, h: seq<Step> -> real, a: nat)
    requires WellFormed(node) && node.Decision? && Realises(forward, node) && ReadsSteps(forward, g, h) && a < |node.mask|
    ensures ExpectTraceAction(node, g, a) == ExpectAction(node, h, a)
    decreases node, 1
  {
    hide WellFormed, ReadsSteps, Sum, Played, Expect, ExpectTrace;
    if node.mask[a] {
      LegalAction(node, a);
      var n := |node.branches[a].outcomes|;
      forall s | 0 <= s < n ensures ExpectTraceOutcome(node, g, a, s) == ExpectOutcome(node, h, a, s) {
        var o := node.branches[a].outcomes[s];
        var f := FrameAt(node, a, o.reward);
        assert StepOf(forward, f) == Step(Ratio(node, a), o.reward);
        RecordedReadsSteps(forward, g, h, f);
        TracesAreSteps(o.next, forward, Recorded(g, f), Onward(h, StepOf(forward, f)));
      }
      SumCong(n, s => ExpectTraceOutcome(node, g, a, s), s => ExpectOutcome(node, h, a, s));
    }
  }

  /** What the learner sums at step t of a trace: prefix through t times corrected return. */
  ghost predicate SumsTargets(forward: Forward, g: seq<Frame> -> real, t: nat) {
    forall frames, r | Sampled(frames) && IsTargets(forward, frames, r) ::
      g(frames) == if t < |frames| then r.through[t] * r.totals[t] else 0.0
  }

  lemma TargetsExist(forward: Forward, frames: seq<Frame>) returns (r: Targets)
    requires Sampled(frames)
    ensures IsTargets(forward, frames, r)
  {
    hide Product, Return;
    var n, steps := |frames|, StepsOf(forward, frames);
    r := Targets(seq(n, t requires 0 <= t < n => Return(steps[t..]) - forward(frames[t].features, frames[t].mask).1),
                 seq(n, t requires 0 <= t < n => Return(steps[t..])),
                 seq(n, t requires 0 <= t < n => Product(steps[..t])),
                 seq(n, t requires 0 <= t < n => Product(steps[..t + 1])));
  }

  /** The targets of the traces that the behaviour policy records on a tree estimate, without bias,
      what the target policy earns from any step on. */
  lemma TargetsAreUnbiased(node: Node, forward: Forward, t: nat, g: seq<Frame> -> real)
    requires WellFormed(node) && Realises(forward, node) && SumsTargets(forward, g, t)
    ensures ExpectTrace(node, g) == TargetReturn(node, t)
  {
    hide WellFormed, Realises, IsTargets, WeightedReturn;
    var h := (steps: seq<Step>) => WeightedReturn(steps, t);
    forall frames | Sampled(frames) ensures g(frames) == h(StepsOf(forward, frames)) {
      var r := TargetsExist(forward, frames);
      TargetsSized(forward, frames, r);
      TargetsAreScores(forward, frames, r, t);
    }
    TracesAreSteps(node, forward, g, h);
    Unbiased(node, t, h);
  }

  lemma TargetsSized(forward: Forward, frames: seq<Frame>, r: Targets)
    requires Sampled(frames) && IsTargets(forward, frames, r)
    ensures |r.advantages| == |r.totals| == |r.before| == |r.through| == |frames|
  {
  }
}
