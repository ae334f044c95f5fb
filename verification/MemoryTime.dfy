/** Physical-time memory decay: any sequence of decay calls leaves the memory as one call would. */
module MemoryTime {
  import opened Options
  import opened Scalars

  /** Nanoseconds on one clock; None is the zero time. */
  type Stamp = Option<int>

  /** Weight and confidence with the compatibility copies that a decay step keeps in step. */
  datatype Synapse = Synapse(source: int, target: int, weight: real, confidence: real, lastModification: Stamp,
                             legacyWeight: real, legacyConfidence: real)
  datatype Trace = Trace(priority: real, currentAt: Stamp)

  datatype Memory = Memory(synapses: seq<Synapse>, traces: seq<Trace>, appliedAt: Option<Stamp>, state: map<string, real>)

  /** What a decay call reads but never changes. */
  datatype Policy = Policy(retention: real, isProtected: (int, int) -> bool, exp: real -> real)

  /** `exp(x)` stands for e to the minus x, on x >= 0. */
  ghost predicate IsDecay(exp: real -> real) {
    && exp(0.0) == 1.0
    && (forall x | x > 0.0 :: 0.0 < exp(x) < 1.0)
    && (forall x, y | x >= 0.0 && y >= 0.0 :: exp(x + y) == Product(exp(x), exp(y)))
  }

  const HOUR := 3600000000000

  function Hours(nanoseconds: int): real { nanoseconds as real / HOUR as real }

  // ---------- One call ----------

  function ExpDecay(exp: real -> real, x: real): real { if x <= 0.0 then 1.0 else Clamp(exp(x)) }

  const MAX_INT64 := 0x8000_0000_0000_0000

  function Truncated(x: real): int { if x >= 0.0 then x.Floor else -(-x).Floor }

  /** The exact watermark, or the legacy one of a state that never had it. */
  function Previous(m: Memory): Stamp {
    if m.appliedAt.Some? then m.appliedAt.value
    else if "last_decay_unix" in m.state && -MAX_INT64 as real <= m.state["last_decay_unix"] < MAX_INT64 as real
    then Some(Truncated(m.state["last_decay_unix"]))
    else None
  }

  function Retention(state: map<string, real>, policy: Policy): (r: real)
    ensures 0.0 <= r <= 1.0
  {
    var own := if "retention" in state then state["retention"] else 0.0;
    Clamp(if own > 0.0 then own else if policy.retention > 0.0 then policy.retention else 0.6)
  }

  function Rate(retention: real): (r: real)
    ensures retention <= 1.0 ==> r >= 0.0
  {
    (1.0 - retention) / 24.0
  }

  function Elapsed(nanoseconds: nat, rate: real, exp: real -> real): real {
    ExpDecay(exp, Product(Hours(nanoseconds), rate))
  }

  function FactorSince(created: Stamp, previous: Stamp, now: int, rate: real, exp: real -> real): real {
    if created.None? then 1.0
    else
      var from := if previous.Some? && previous.value > created.value then previous.value else created.value;
      if now <= from then 1.0 else Elapsed(now - from, rate, exp)
  }

  function DecayedSynapse(s: Synapse, previous: Stamp, now: int, rate: real, policy: Policy): Synapse {
    var factor := FactorSince(s.lastModification, previous, now, rate, policy.exp);
    if factor == 1.0 then s
    else
      var weight := if policy.isProtected(s.source, s.target) then s.weight else Clamp(Product(s.weight, factor));
      var confidence := Clamp(Product(s.confidence, FactorSince(s.lastModification, previous, now, rate * 0.5, policy.exp)));
      s.(weight := weight, confidence := confidence, legacyWeight := weight, legacyConfidence := confidence)
  }

  function DecayedTrace(t: Trace, previous: Stamp, now: int, rate: real, exp: real -> real): Trace {
    t.(priority := Clamp(Product(t.priority, FactorSince(t.currentAt, previous, now, rate, exp))))
  }

  function Stale(m: Memory, now: int): bool { Previous(m).Some? && now <= Previous(m).value }

  function Bookkeeping(state: map<string, real>, now: int, retention: real): map<string, real> {
    state["last_decay_unix" := now as real]["effective_retention" := retention]
  }

  /** The memory after one decay call at `now`. */
  function Decayed(m: Memory, now: int, policy: Policy): Memory {
    if Stale(m, now) then m
    else
      var previous, retention := Previous(m), Retention(m.state, policy);
      var rate := Rate(retention);
      Memory(
        seq(|m.synapses|, i requires 0 <= i < |m.synapses| => DecayedSynapse(m.synapses[i], previous, now, rate, policy)),
        seq(|m.traces|, i requires 0 <= i < |m.traces| => DecayedTrace(m.traces[i], previous, now, rate, policy.exp)),
        Some(Some(now)), Bookkeeping(m.state, now, retention))
  }

  class MemoryStore {
    var synapses: seq<Synapse>
    var traces: seq<Trace>
    var appliedAt: Option<Stamp>
    var state: map<string, real>

    function Contents(): Memory
      reads this
    {
      Memory(synapses, traces, appliedAt, state)
    }

    /** A zero `now` means the wall clock, read as `clock`. */
    method ApplyMemoryDynamics(now: Stamp, clock: int, policy: Policy)
      modifies this
      ensures Contents() == Decayed(old(Contents()), if now.Some? then now.value else clock, policy)
    {
      hide FactorSince, DecayedSynapse, DecayedTrace, Bookkeeping, Retention, Rate;
      var at := if now.Some? then now.value else clock;
      var previous := Previous(Contents());
      if previous.Some? && at <= previous.value { return; }
      var retention := Retention(state, policy);
      var rate := Rate(retention);
      var i := 0;
      while i < |synapses|
        invariant 0 <= i <= |synapses| == old(|synapses|)
        invariant forall j | 0 <= j < i :: synapses[j] == DecayedSynapse(old(synapses)[j], previous, at, rate, policy)
        invariant forall j | i <= j < |synapses| :: synapses[j] == old(synapses)[j]
        invariant traces == old(traces) && state == old(state) && appliedAt == old(appliedAt)
      {
        synapses := synapses[i := DecayedSynapse(synapses[i], previous, at, rate, policy)];
        i := i + 1;
      }
      i := 0;
      while i < |traces|
        invariant 0 <= i <= |traces| == old(|traces|)
        invariant forall j | 0 <= j < i :: traces[j] == DecayedTrace(old(traces)[j], previous, at, rate, policy.exp)
        invariant forall j | i <= j < |traces| :: traces[j] == old(traces)[j]
        invariant state == old(state) && appliedAt == old(appliedAt)
        invariant |synapses| == old(|synapses|)
        invariant forall j | 0 <= j < |synapses| :: synapses[j] == DecayedSynapse(old(synapses)[j], previous, at, rate, policy)
      {
        traces := traces[i := DecayedTrace(traces[i], previous, at, rate, policy.exp)];
        i := i + 1;
      }
      appliedAt := Some(Some(at));
      state := Bookkeeping(state, at, retention);
    }

    /** A run of calls at arbitrary timestamps. */
    method Run(times: seq<int>, policy: Policy)
      modifies this
      ensures Contents() == DecayedAt(old(Contents()), times, policy)
      ensures IsDecay(policy.exp) && Settles(old(Contents()), policy) && times != [] ==>
                Contents() == Decayed(old(Contents()), Latest(times), policy)
    {
      hide Decayed, IsDecay, Settles;
      for i := 0 to |times|
        invariant Contents() == DecayedAt(old(Contents()), times[..i], policy)
      {
        assert times[..i + 1][..i] == times[..i];
        ApplyMemoryDynamics(Some(times[i]), 0, policy);
      }
      assert times[..|times|] == times;
      if IsDecay(policy.exp) && Settles(old(Contents()), policy) && times != [] {
        RunIsOneCall(old(Contents()), times, policy);
      }
    }
  }

  // ---------- Composition ----------

  function Later(a: int, b: int): int { if a >= b then a else b }

  function Latest(times: seq<int>): int
    requires times != []
  {
    if |times| == 1 then times[0] else Later(Latest(times[..|times| - 1]), times[|times| - 1])
  }

  function DecayedAt(m: Memory, times: seq<int>, policy: Policy): Memory {
    if times == [] then m else Decayed(DecayedAt(m, times[..|times| - 1], policy), times[|times| - 1], policy)
  }

  lemma ProductSums(a: real, b: real, rate: real)
    ensures Product(a + b, rate) == Product(a, rate) + Product(b, rate)
  {
  }

  lemma HoursAdd(a: int, b: int)
    ensures Hours(a + b) == Hours(a) + Hours(b) && (a >= 0 ==> Hours(a) >= 0.0) && (a > 0 ==> Hours(a) > 0.0)
  {
  }

  lemma ProductSign(x: real, rate: real)
    requires x > 0.0 && rate >= 0.0
    ensures Product(x, rate) >= 0.0 && (Product(x, rate) == 0.0 <==> rate == 0.0) && Product(x, rate * 0.5) == Product(x, rate) / 2.0
  {
  }

  lemma UnitProduct(f: real, g: real)
    requires 0.0 < f <= 1.0 && 0.0 < g <= 1.0
    ensures 0.0 < Product(f, g) <= 1.0 && (Product(f, g) == 1.0 <==> f == 1.0 && g == 1.0)
  {
    assert f * g <= 1.0 * g;
    if f < 1.0 { assert f * g < 1.0 * g; }
  }

  /** Elapsed time composes, and the factor is one exactly when nothing can have decayed. */
  lemma ElapsedFactor(a: nat, b: nat, rate: real, exp: real -> real)
    requires IsDecay(exp) && rate >= 0.0 && a > 0
    ensures 0.0 < Elapsed(a, rate, exp) <= 1.0 && (Elapsed(a, rate, exp) == 1.0 <==> rate == 0.0)
    ensures b > 0 ==> Elapsed(a + b, rate, exp) == Product(Elapsed(a, rate, exp), Elapsed(b, rate, exp))
    ensures Product(Elapsed(a, rate * 0.5, exp), Elapsed(a, rate * 0.5, exp)) == Elapsed(a, rate, exp)
  {
    hide Hours, Product;
    HoursAdd(a, b);
    HoursAdd(b, 0);
    ProductSign(Hours(a), rate);
    var x := Product(Hours(a), rate);
    assert exp(x / 2.0 + x / 2.0) == Product(exp(x / 2.0), exp(x / 2.0));
    OneTimesOne();
    if b > 0 {
      ProductSign(Hours(b), rate);
      ProductSums(Hours(a), Hours(b), rate);
      var y := Product(Hours(b), rate);
      assert exp(x + y) == Product(exp(x), exp(y));
    }
  }

  lemma OneTimesOne()
    ensures Product(1.0, 1.0) == 1.0
  {
  }

  lemma TimesOne(x: real)
    ensures Product(x, 1.0) == x == Product(1.0, x)
  {
  }

  lemma FactorInUnit(created: Stamp, previous: Stamp, now: int, rate: real, exp: real -> real)
    requires IsDecay(exp) && rate >= 0.0
    ensures 0.0 < FactorSince(created, previous, now, rate, exp) <= 1.0
  {
    hide Elapsed, IsDecay;
    if created.Some? {
      var from := if previous.Some? && previous.value > created.value then previous.value else created.value;
      if from < now { ElapsedFactor(now - from, 0, rate, exp); }
    }
  }

  /** Decaying to `a` and then, with the watermark at `a`, to `b` is decaying to `b`. */
  lemma FactorsCompose(created: Stamp, previous: Stamp, a: int, b: int, rate: real, exp: real -> real)
    requires IsDecay(exp) && rate >= 0.0 && a < b && (previous.Some? ==> previous.value < a)
    ensures FactorSince(created, previous, b, rate, exp)
            == Product(FactorSince(created, previous, a, rate, exp), FactorSince(created, Some(a), b, rate, exp))
  {
    hide Elapsed, IsDecay, Product;
    TimesOne(1.0);
    if created.Some? {
      var from := if previous.Some? && previous.value > created.value then previous.value else created.value;
      if from < a {
        ElapsedFactor(a - from, b - a, rate, exp);
        assert (a - from) + (b - a) == b - from;
      } else {
        TimesOne(FactorSince(created, Some(a), b, rate, exp));
      }
    }
  }

  /** The factor is one exactly when no time counts, at any positive scale. */
  lemma FactorIsOne(created: Stamp, previous: Stamp, now: int, rate: real, exp: real -> real)
    requires IsDecay(exp) && rate >= 0.0
    ensures FactorSince(created, previous, now, rate, exp) == 1.0 <==> FactorSince(created, previous, now, rate * 0.5, exp) == 1.0
  {
    hide Elapsed, IsDecay;
    if created.Some? {
      var from := if previous.Some? && previous.value > created.value then previous.value else created.value;
      if from < now {
        ElapsedFactor(now - from, 0, rate, exp);
        ElapsedFactor(now - from, 0, rate * 0.5, exp);
      }
    }
  }

  /** Clamping between two factors is clamping once, unless the first product is still above one
      and the second factor acts. */
  lemma ClampComposesIff(w: real, f: real, g: real)
    requires 0.0 < f <= 1.0 && 0.0 < g <= 1.0
    ensures Clamp(Product(Clamp(Product(w, f)), g)) == Clamp(Product(w, Product(f, g))) <==> g == 1.0 || Product(w, f) <= 1.0
  {
    var v := Product(w, f);
    Associates(w, f, g);
    TimesOne(v);
    TimesOne(g);
    if v <= 1.0 {
      ProductOrder(v, g);
      ProductOrder(0.0, g);
    } else {
      ProductAbove(v, g);
    }
    hide Product;
  }

  lemma Associates(w: real, f: real, g: real)
    ensures Product(w, Product(f, g)) == Product(Product(w, f), g)
  {
  }

  lemma ProductOrder(w: real, f: real)
    requires 0.0 < f <= 1.0
    ensures if w < 0.0 then Product(w, f) < 0.0 else 0.0 <= Product(w, f) <= w
  {
    if w >= 0.0 { assert w * f <= w * 1.0; }
  }

  lemma ProductAbove(v: real, g: real)
    requires v > 1.0 && g > 0.0
    ensures Product(v, g) > g
  {
    assert (v - 1.0) * g > 0.0;
  }

  lemma ProductMono(w: real, f: real, g: real)
    requires 0.0 < f <= g
    ensures Product(w, g) <= 1.0 ==> Product(w, f) <= 1.0
  {
    if w >= 0.0 {
      assert w * f <= w * g;
    } else {
      assert w * f < 0.0;
    }
  }

  ghost predicate Fresh(previous: Stamp, a: int) { previous.Some? ==> previous.value < a }

  /** From when a decay call at any later time counts. */
  function From(created: Stamp, previous: Stamp): int
    requires created.Some?
  {
    if previous.Some? && previous.value > created.value then previous.value else created.value
  }

  /** Once time counts it goes on counting; the first nanosecond takes the least away. */
  lemma FactorRuns(created: Stamp, previous: Stamp, a: int, b: int, rate: real, exp: real -> real)
    requires IsDecay(exp) && rate >= 0.0 && a < b && Fresh(previous, a)
    ensures var f := FactorSince(created, previous, a, rate, exp);
            && (f == 1.0 <==> created.None? || rate == 0.0 || a <= From(created, previous))
            && (f != 1.0 ==> f <= Elapsed(1, rate, exp) && FactorSince(created, Some(a), b, rate, exp) != 1.0)
            && (created.Some? && a == From(created, previous) + 1 ==> f == Elapsed(1, rate, exp))
  {
    hide Elapsed, IsDecay, Product;
    if created.Some? && From(created, previous) < a {
      var n := a - From(created, previous);
      ElapsedFactor(n, 0, rate, exp);
      ElapsedFactor(b - a, 0, rate, exp);
      if n > 1 {
        ElapsedFactor(1, n - 1, rate, exp);
        ElapsedFactor(n - 1, 0, rate, exp);
        ProductOrder(Elapsed(1, rate, exp), Elapsed(n - 1, rate, exp));
      }
    }
  }

  // ---------- When two calls are one ----------

  ghost predicate SynapseComposes(s: Synapse, previous: Stamp, a: int, b: int, rate: real, policy: Policy) {
    DecayedSynapse(DecayedSynapse(s, previous, a, rate, policy), Some(a), b, rate, policy) == DecayedSynapse(s, previous, b, rate, policy)
  }

  ghost predicate TraceComposes(t: Trace, previous: Stamp, a: int, b: int, rate: real, exp: real -> real) {
    DecayedTrace(DecayedTrace(t, previous, a, rate, exp), Some(a), b, rate, exp) == DecayedTrace(t, previous, b, rate, exp)
  }

  /** A synapse composes exactly when the first call leaves it alone or brings every value it
      lowers down to one. */
  lemma SynapseComposesIff(s: Synapse, previous: Stamp, a: int, b: int, rate: real, policy: Policy)
    requires IsDecay(policy.exp) && rate >= 0.0 && a < b && Fresh(previous, a)
    ensures var f, h := FactorSince(s.lastModification, previous, a, rate, policy.exp), FactorSince(s.lastModification, previous, a, rate * 0.5, policy.exp);
            SynapseComposes(s, previous, a, b, rate, policy) <==>
              f == 1.0 || ((policy.isProtected(s.source, s.target) || Product(s.weight, f) <= 1.0) && Product(s.confidence, h) <= 1.0)
  {
    hide FactorSince, Clamp, Product, IsDecay;
    var created, exp, half := s.lastModification, policy.exp, rate * 0.5;
    FactorsCompose(created, previous, a, b, rate, exp);
    FactorsCompose(created, previous, a, b, half, exp);
    FactorIsOne(created, Some(a), b, rate, exp);
    FactorRuns(created, previous, a, b, rate, exp);
    var f, g := FactorSince(created, previous, a, rate, exp), FactorSince(created, Some(a), b, rate, exp);
    var h, k := FactorSince(created, previous, a, half, exp), FactorSince(created, Some(a), b, half, exp);
    FactorInUnit(created, previous, a, rate, exp);
    FactorInUnit(created, Some(a), b, rate, exp);
    FactorInUnit(created, previous, a, half, exp);
    FactorInUnit(created, Some(a), b, half, exp);
    FactorIsOne(created, previous, a, rate, exp);
    UnitProduct(f, g);
    TimesOne(g);
    TimesOne(k);
    ClampComposesIff(s.weight, f, g);
    ClampComposesIff(s.confidence, h, k);
  }

  /** A trace composes exactly when its priority is at most one after the first call or the second does not act. */
  lemma TraceComposesIff(t: Trace, previous: Stamp, a: int, b: int, rate: real, exp: real -> real)
    requires IsDecay(exp) && rate >= 0.0 && a < b && Fresh(previous, a)
    ensures TraceComposes(t, previous, a, b, rate, exp) <==>
            FactorSince(t.currentAt, Some(a), b, rate, exp) == 1.0 || Product(t.priority, FactorSince(t.currentAt, previous, a, rate, exp)) <= 1.0
  {
    hide FactorSince, Clamp, Product, IsDecay;
    FactorsCompose(t.currentAt, previous, a, b, rate, exp);
    FactorInUnit(t.currentAt, previous, a, rate, exp);
    FactorInUnit(t.currentAt, Some(a), b, rate, exp);
    ClampComposesIff(t.priority, FactorSince(t.currentAt, previous, a, rate, exp), FactorSince(t.currentAt, Some(a), b, rate, exp));
  }

  /** No value that can decay is still above one after its first nanosecond. */
  predicate SynapseSettles(s: Synapse, rate: real, policy: Policy) {
    s.lastModification.None? || rate == 0.0 ||
    ((policy.isProtected(s.source, s.target) || Product(s.weight, Elapsed(1, rate, policy.exp)) <= 1.0) &&
     Product(s.confidence, Elapsed(1, rate * 0.5, policy.exp)) <= 1.0)
  }

  /** A priority is clamped by every call, so one created after the watermark must start at most at one. */
  predicate TraceSettles(t: Trace, previous: Stamp, rate: real, exp: real -> real) {
    t.currentAt.None? || rate == 0.0 ||
    if previous.Some? && previous.value >= t.currentAt.value then Product(t.priority, Elapsed(1, rate, exp)) <= 1.0
    else t.priority <= 1.0
  }

  predicate Settles(m: Memory, policy: Policy) {
    var previous, rate := Previous(m), Rate(Retention(m.state, policy));
    (forall s | s in m.synapses :: SynapseSettles(s, rate, policy)) &&
    (forall t | t in m.traces :: TraceSettles(t, previous, rate, policy.exp))
  }

  lemma SynapseSettlesIff(s: Synapse, previous: Stamp, rate: real, policy: Policy)
    requires IsDecay(policy.exp) && rate >= 0.0
    ensures SynapseSettles(s, rate, policy) <==>
            forall a, b | Fresh(previous, a) && a < b :: SynapseComposes(s, previous, a, b, rate, policy)
  {
    hide FactorSince, Product, IsDecay, Elapsed, SynapseComposes;
    var created, exp := s.lastModification, policy.exp;
    if SynapseSettles(s, rate, policy) {
      forall a, b | Fresh(previous, a) && a < b ensures SynapseComposes(s, previous, a, b, rate, policy) {
        SynapseComposesIff(s, previous, a, b, rate, policy);
        FactorRuns(created, previous, a, b, rate, exp);
        FactorRuns(created, previous, a, b, rate * 0.5, exp);
        FactorInUnit(created, previous, a, rate, exp);
        FactorInUnit(created, previous, a, rate * 0.5, exp);
        FactorIsOne(created, previous, a, rate, exp);
        if FactorSince(created, previous, a, rate, exp) != 1.0 {
          ProductMono(s.weight, FactorSince(created, previous, a, rate, exp), Elapsed(1, rate, exp));
          ProductMono(s.confidence, FactorSince(created, previous, a, rate * 0.5, exp), Elapsed(1, rate * 0.5, exp));
        }
      }
    } else {
      var a := From(created, previous) + 1;
      SynapseComposesIff(s, previous, a, a + 1, rate, policy);
      FactorRuns(created, previous, a, a + 1, rate, exp);
      FactorRuns(created, previous, a, a + 1, rate * 0.5, exp);
      assert Fresh(previous, a) && a < a + 1;
    }
  }

  lemma TraceSettlesIff(t: Trace, previous: Stamp, rate: real, exp: real -> real)
    requires IsDecay(exp) && rate >= 0.0
    ensures TraceSettles(t, previous, rate, exp) <==>
            forall a, b | Fresh(previous, a) && a < b :: TraceComposes(t, previous, a, b, rate, exp)
  {
    hide FactorSince, Product, IsDecay, Elapsed, TraceComposes;
    var created := t.currentAt;
    if TraceSettles(t, previous, rate, exp) {
      forall a, b | Fresh(previous, a) && a < b ensures TraceComposes(t, previous, a, b, rate, exp) {
        TraceComposesIff(t, previous, a, b, rate, exp);
        FactorRuns(created, previous, a, b, rate, exp);
        FactorRuns(created, Some(a), b, b + 1, rate, exp);
        FactorInUnit(created, previous, a, rate, exp);
        TimesOne(t.priority);
        ProductMono(t.priority, FactorSince(created, previous, a, rate, exp), 1.0);
        if FactorSince(created, previous, a, rate, exp) != 1.0 {
          ProductMono(t.priority, FactorSince(created, previous, a, rate, exp), Elapsed(1, rate, exp));
        }
      }
    } else {
      var a := From(created, previous) + if previous.Some? && previous.value >= created.value then 1 else 0;
      TraceComposesIff(t, previous, a, a + 1, rate, exp);
      FactorRuns(created, previous, a, a + 1, rate, exp);
      FactorRuns(created, Some(a), a + 1, a + 2, rate, exp);
      TimesOne(t.priority);
      assert Fresh(previous, a) && a < a + 1;
    }
  }

  /** The legacy float left by a call is never read as a watermark again. */
  lemma BookkeepingKeeps(state: map<string, real>, a: int, b: int, policy: Policy)
    ensures var r := Retention(state, policy);
            Retention(Bookkeeping(state, a, r), policy) == r
            && Bookkeeping(Bookkeeping(state, a, r), b, r) == Bookkeeping(state, b, r)
  {
  }

  ghost predicate Composes(m: Memory, a: int, b: int, policy: Policy) {
    Decayed(Decayed(m, a, policy), b, policy) == Decayed(m, Later(a, b), policy)
  }

  /** A call at a fresh time and a later one compose part by part. */
  lemma ComposesByPart(m: Memory, a: int, b: int, policy: Policy)
    requires !Stale(m, a) && a < b
    ensures var previous, rate := Previous(m), Rate(Retention(m.state, policy));
            Fresh(previous, a) &&
            (Composes(m, a, b, policy) <==>
             (forall s | s in m.synapses :: SynapseComposes(s, previous, a, b, rate, policy)) &&
             (forall t | t in m.traces :: TraceComposes(t, previous, a, b, rate, policy.exp)))
  {
    hide DecayedSynapse, DecayedTrace, Bookkeeping, Retention, Rate;
    var previous, retention := Previous(m), Retention(m.state, policy);
    var rate, once, direct := Rate(retention), Decayed(m, a, policy), Decayed(m, b, policy);
    var twice := Decayed(once, b, policy);
    BookkeepingKeeps(m.state, a, b, policy);
    forall i | 0 <= i < |m.synapses|
      ensures twice.synapses[i] == direct.synapses[i] <==> SynapseComposes(m.synapses[i], previous, a, b, rate, policy)
    {
    }
    forall i | 0 <= i < |m.traces|
      ensures twice.traces[i] == direct.traces[i] <==> TraceComposes(m.traces[i], previous, a, b, rate, policy.exp)
    {
    }
    assert twice.synapses == direct.synapses <==> forall s | s in m.synapses :: SynapseComposes(s, previous, a, b, rate, policy);
    assert twice.traces == direct.traces <==> forall t | t in m.traces :: TraceComposes(t, previous, a, b, rate, policy.exp);
  }

  /** Two calls always leave the memory as one call at the later timestamp, exactly when it settles. */
  lemma DecaysComposeIff(m: Memory, policy: Policy)
    requires IsDecay(policy.exp)
    ensures Settles(m, policy) <==> forall a, b :: Composes(m, a, b, policy)
  {
    hide IsDecay, SynapseSettles, TraceSettles, SynapseComposes, TraceComposes, Retention;
    var previous, rate := Previous(m), Rate(Retention(m.state, policy));
    if !Settles(m, policy) {
      var a, b := DoesNotCompose(m, policy);
      return;
    }
    forall a, b ensures Composes(m, a, b, policy) {
      if !Stale(m, a) && a < b {
        ComposesByPart(m, a, b, policy);
        forall s | s in m.synapses { SynapseSettlesIff(s, previous, rate, policy); }
        forall t | t in m.traces { TraceSettlesIff(t, previous, rate, policy.exp); }
      } else {
        WatermarkIsMonotone(m, a, policy);
      }
    }
  }

  /** A memory that does not settle has two timestamps that do not compose. */
  lemma DoesNotCompose(m: Memory, policy: Policy) returns (a: int, b: int)
    requires IsDecay(policy.exp) && !Settles(m, policy)
    ensures !Composes(m, a, b, policy)
  {
    hide IsDecay, SynapseSettles, TraceSettles, SynapseComposes, TraceComposes, Retention, Composes;
    var previous, rate := Previous(m), Rate(Retention(m.state, policy));
    if s :| s in m.synapses && !SynapseSettles(s, rate, policy) {
      SynapseSettlesIff(s, previous, rate, policy);
      a, b :| Fresh(previous, a) && a < b && !SynapseComposes(s, previous, a, b, rate, policy);
    } else {
      var t :| t in m.traces && !TraceSettles(t, previous, rate, policy.exp);
      TraceSettlesIff(t, previous, rate, policy.exp);
      a, b :| Fresh(previous, a) && a < b && !TraceComposes(t, previous, a, b, rate, policy.exp);
    }
    ComposesByPart(m, a, b, policy);
  }

  lemma {:induction false} RunIsOneCall(m: Memory, times: seq<int>, policy: Policy)
    requires IsDecay(policy.exp) && Settles(m, policy) && times != []
    ensures DecayedAt(m, times, policy) == Decayed(m, Latest(times), policy)
  {
    hide Decayed, IsDecay, Settles;
    var i := |times| - 1;
    if i > 0 {
      RunIsOneCall(m, times[..i], policy);
      DecaysComposeIff(m, policy);
      assert Composes(m, Latest(times[..i]), times[i], policy);
    } else {
      assert DecayedAt(m, times[..0], policy) == m;
    }
  }

  /** Values up to one always settle. */
  lemma UnitRangeSettles(m: Memory, policy: Policy)
    requires IsDecay(policy.exp)
    requires forall s | s in m.synapses :: s.weight <= 1.0 && s.confidence <= 1.0
    requires forall t | t in m.traces :: t.priority <= 1.0
    ensures Settles(m, policy)
  {
    hide IsDecay, Elapsed, Product, Retention;
    var rate, exp := Rate(Retention(m.state, policy)), policy.exp;
    ElapsedFactor(1, 0, rate, exp);
    ElapsedFactor(1, 0, rate * 0.5, exp);
    forall s | s in m.synapses ensures SynapseSettles(s, rate, policy) {
      ProductOrder(s.weight, Elapsed(1, rate, exp));
      ProductOrder(s.confidence, Elapsed(1, rate * 0.5, exp));
    }
    forall t | t in m.traces ensures TraceSettles(t, Previous(m), rate, exp) {
      ProductOrder(t.priority, Elapsed(1, rate, exp));
    }
  }

  /** A weight that is still above one after a nanosecond is decayed further by two calls than by one. */
  lemma HeavyWeightDoesNotCompose(weight: real, policy: Policy)
    requires IsDecay(policy.exp) && 0.0 < policy.retention < 1.0 && !policy.isProtected(1, 2)
    requires Product(weight, Elapsed(1, Rate(policy.retention), policy.exp)) > 1.0
    ensures var m := Memory([Synapse(1, 2, weight, 1.0, Some(0), weight, 1.0)], [], None, map[]);
            Decayed(Decayed(m, 1, policy), 2, policy) != Decayed(m, 2, policy)
  {
    hide IsDecay, Elapsed, Product, FactorSince, DecayedSynapse;
    var s := Synapse(1, 2, weight, 1.0, Some(0), weight, 1.0);
    var m, rate := Memory([s], [], None, map[]), Rate(policy.retention);
    assert Retention(m.state, policy) == policy.retention && s in m.synapses;
    SynapseComposesIff(s, None, 1, 2, rate, policy);
    FactorRuns(Some(0), None, 1, 2, rate, policy.exp);
    ComposesByPart(m, 1, 2, policy);
  }

  /** The watermark never moves back, and a timestamp not after it changes nothing at all. */
  lemma WatermarkIsMonotone(m: Memory, now: int, policy: Policy)
    ensures var after := Decayed(m, now, policy);
            && (Previous(m).Some? ==> Previous(after).Some? && Previous(after).value >= Previous(m).value)
            && Previous(after).Some? && Previous(after).value >= now
            && (forall t | t <= Previous(after).value :: Decayed(after, t, policy) == after)
  {
    hide FactorSince, DecayedSynapse, DecayedTrace, Bookkeeping, Retention, Rate;
  }

  /** Between zero and one no clamp acts: an unprotected weight falls by exactly the e-fold law, a
      protected one stays, and confidence falls by the square root of the weight's factor. */
  lemma DecayLaw(s: Synapse, previous: Stamp, now: int, rate: real, policy: Policy)
    requires IsDecay(policy.exp) && rate >= 0.0 && 0.0 <= s.weight <= 1.0 && 0.0 <= s.confidence <= 1.0
    ensures var after, f := DecayedSynapse(s, previous, now, rate, policy), FactorSince(s.lastModification, previous, now, rate, policy.exp);
            && after.weight == (if policy.isProtected(s.source, s.target) then s.weight else Product(s.weight, f))
            && Product(after.confidence, after.confidence) == Product(Product(s.confidence, s.confidence), f)
            && 0.0 <= after.weight <= s.weight && 0.0 <= after.confidence <= s.confidence
            && after.lastModification == s.lastModification
  {
    hide FactorSince, Product, IsDecay;
    var f := FactorSince(s.lastModification, previous, now, rate, policy.exp);
    var h := FactorSince(s.lastModification, previous, now, rate * 0.5, policy.exp);
    HalfRateIsRoot(s.lastModification, previous, now, rate, policy.exp);
    FactorInUnit(s.lastModification, previous, now, rate, policy.exp);
    FactorInUnit(s.lastModification, previous, now, rate * 0.5, policy.exp);
    TimesOne(s.weight);
    TimesOne(Product(s.confidence, s.confidence));
    ProductOrder(s.weight, f);
    ProductOrder(s.confidence, h);
    SquareOfProduct(s.confidence, h);
  }

  lemma SquareOfProduct(c: real, h: real)
    ensures Product(Product(c, h), Product(c, h)) == Product(Product(c, c), Product(h, h))
  {
  }

  lemma HalfRateIsRoot(created: Stamp, previous: Stamp, now: int, rate: real, exp: real -> real)
    requires IsDecay(exp) && rate >= 0.0
    ensures var h := FactorSince(created, previous, now, rate * 0.5, exp);
            Product(h, h) == FactorSince(created, previous, now, rate, exp)
  {
    hide Elapsed, IsDecay, Product;
    OneTimesOne();
    if created.Some? {
      var from := if previous.Some? && previous.value > created.value then previous.value else created.value;
      if from < now { ElapsedFactor(now - from, 0, rate, exp); }
    }
  }

  // ---------- A day of decay ----------

  const DAY := 86_400_000_000_000

  /** The time constant: in 24 hours the exponent is what retention leaves of one, and half of that for confidence. */
  lemma OneDay(created: int, retention: real, exp: real -> real)
    requires IsDecay(exp) && 0.0 <= retention <= 1.0
    ensures FactorSince(Some(created), None, created + DAY, Rate(retention), exp) == exp(1.0 - retention)
    ensures FactorSince(Some(created), None, created + DAY, Rate(retention) * 0.5, exp) == exp((1.0 - retention) / 2.0)
  {
    assert Hours(DAY) == 24.0;
  }

  /** The time that counts starts at the later of creation and watermark. */
  lemma CountsFromWatermark(created: int, watermark: int, now: int, rate: real, exp: real -> real)
    ensures watermark >= created ==>
              FactorSince(Some(created), Some(watermark), now, rate, exp) == FactorSince(Some(watermark), None, now, rate, exp)
    ensures watermark <= created ==>
              FactorSince(Some(created), Some(watermark), now, rate, exp) == FactorSince(Some(created), None, now, rate, exp)
    ensures FactorSince(None, Some(watermark), now, rate, exp) == 1.0
  {
  }

  /** A state's own positive retention counts first, then the policy's, and otherwise six tenths. */
  lemma RetentionChoice(state: map<string, real>, policy: Policy)
    ensures "retention" in state && 0.0 < state["retention"] <= 1.0 ==> Retention(state, policy) == state["retention"]
    ensures ("retention" in state ==> state["retention"] <= 0.0) && 0.0 < policy.retention <= 1.0 ==>
              Retention(state, policy) == policy.retention
    ensures ("retention" in state ==> state["retention"] <= 0.0) && policy.retention <= 0.0 ==> Retention(state, policy) == 0.6
  {
  }

  /** Without the exact watermark the legacy float counts, if it is a 64-bit time. */
  lemma LegacyWatermark(m: Memory, n: int)
    requires m.appliedAt.None?
    ensures "last_decay_unix" !in m.state ==> Previous(m) == None
    ensures "last_decay_unix" in m.state && m.state["last_decay_unix"] == n as real ==>
              Previous(m) == if -0x8000_0000_0000_0000 <= n < 0x8000_0000_0000_0000 then Some(n) else None
  {
  }

  /** A call records its time and the retention it used, and no other number of the state. */
  lemma DecayRecords(m: Memory, now: int, policy: Policy, key: string)
    requires !Stale(m, now)
    ensures var after := Decayed(m, now, policy);
            && after.appliedAt == Some(Some(now))
            && "last_decay_unix" in after.state && after.state["last_decay_unix"] == now as real
            && "effective_retention" in after.state && after.state["effective_retention"] == Retention(m.state, policy)
            && (key !in {"last_decay_unix", "effective_retention"} ==>
                  (key in after.state <==> key in m.state) && (key in m.state ==> after.state[key] == m.state[key]))
  {
  }

  /** The first decay a day after learning: an unprotected weight keeps exp(retention - 1) of itself, confidence
      the square root of that, and the compatibility copies follow. */
  lemma DayOfDecay(m: Memory, i: nat, created: int, policy: Policy)
    requires IsDecay(policy.exp) && m.appliedAt.None? && "last_decay_unix" !in m.state && i < |m.synapses|
    requires m.synapses[i].lastModification == Some(created) && Retention(m.state, policy) < 1.0
    requires 0.0 <= m.synapses[i].weight <= 1.0 && 0.0 <= m.synapses[i].confidence <= 1.0
    ensures var s, after, left := m.synapses[i], Decayed(m, created + DAY, policy), 1.0 - Retention(m.state, policy);
            |after.synapses| == |m.synapses| &&
            var t := after.synapses[i];
            && t.weight == (if policy.isProtected(s.source, s.target) then s.weight else Product(s.weight, policy.exp(left)))
            && t.confidence == Product(s.confidence, policy.exp(left / 2.0))
            && t.legacyWeight == t.weight && t.legacyConfidence == t.confidence && t.lastModification == s.lastModification
  {
    hide FactorSince, Retention, Rate, Product;
    var retention := Retention(m.state, policy);
    OneDay(created, retention, policy.exp);
    var f, h := policy.exp(1.0 - retention), policy.exp((1.0 - retention) / 2.0);
    assert 0.0 < f < 1.0 && 0.0 < h < 1.0;
    ProductOrder(m.synapses[i].weight, f);
    ProductOrder(m.synapses[i].confidence, h);
  }
}
