/** Prediction from ordered patterns: which learned channels compete for a trace and with what support. */
module PatternPrediction {
  import opened Options
  import opened OrderedPattern
  import opened Scalars
  import opened SortedInts

  datatype Trace = Trace(stimulus: seq<Frame>, context: seq<Frame>, data: seq<Frame>)
  datatype Pattern = Pattern(sequence: seq<NodeID>, result: NodeID, observation: Option<Trace>, isOrdered: bool,
                             hasContext: bool, frequency: int, weight: real, confidence: real)
  datatype Prediction = Prediction(support: map<NodeID, real>, strength: map<NodeID, real>, competitors: seq<NodeID>)

  const NOTHING := Prediction(map[], map[], [])

  /** A channel that ends in its result; an ordered one must carry its observation. */
  predicate Eligible(p: Pattern) {
    && |p.sequence| >= 2 && p.result != 0 && p.sequence[|p.sequence| - 1] == p.result
    && (p.isOrdered ==> p.observation.Some? && |p.observation.value.stimulus| >= 2)
  }

  function LegacyFrames(steps: seq<NodeID>): (r: seq<Frame>)
    ensures |r| == |steps|
  {
    seq(|steps|, i requires 0 <= i < |steps| => [steps[i]])
  }

  function Stem(p: Pattern): (r: seq<Frame>)
    requires Eligible(p)
    ensures r != []
  {
    if p.isOrdered then p.observation.value.stimulus[..|p.observation.value.stimulus| - 1]
    else LegacyFrames(p.sequence[..|p.sequence| - 1])
  }

  function Context(p: Pattern): seq<Frame>
    requires Eligible(p)
  {
    if p.isOrdered then p.observation.value.context else []
  }

  function Data(p: Pattern): seq<Frame>
    requires Eligible(p)
  {
    if p.isOrdered then p.observation.value.data else []
  }

  function Specificity(p: Pattern): (n: nat)
    requires Eligible(p)
    ensures n > 0
  {
    |Stem(p)| + |Context(p)| + |Data(p)|
  }

  /** Position by position in stimulus, context and data; unordered context proves no position. */
  predicate Exact(p: Pattern, t: Trace): (e: bool)
    ensures e ==> Eligible(p)
  {
    && Eligible(p) && !p.hasContext && OrderedSuffixMatches(Stem(p), t.stimulus)
    && OrderedSuffixMatches(Context(p), t.context) && OrderedSuffixMatches(Data(p), t.data)
  }

  /** The channel competes: its stem fits the recent frames in some order. */
  ghost predicate Competes(p: Pattern, t: Trace): (c: bool)
    ensures c ==> Eligible(p)
  {
    Eligible(p) && BagCompatible(Stem(p), t.stimulus)
  }

  function Strength(p: Pattern): (s: real)
    ensures 0.0 <= s <= 0.35
  {
    var frequency := if p.frequency < 0 then 0.0 else if p.frequency > 10 then 10.0 else p.frequency as real;
    var s := Clamp(p.weight) * Clamp(p.confidence) * (0.5 + 0.5 * frequency / 10.0);
    if s > 0.0 then (if s > 0.35 then 0.35 else if s < 0.01 then 0.01 else s) else 0.0
  }

  function Share(specificity: nat, best: nat): (s: real)
    requires best > 0
    ensures specificity <= best ==> 0.0 <= s <= 1.0
    ensures specificity == best ==> s == 1.0
    ensures specificity > 0 ==> s > 0.0
  {
    ShareBounds(specificity, best);
    specificity as real / best as real
  }

  lemma ShareBounds(a: nat, b: nat)
    requires b > 0
    ensures a <= b ==> 0.0 <= a as real / b as real <= 1.0
    ensures a == b ==> a as real / b as real == 1.0
    ensures a > 0 ==> a as real / b as real > 0.0
  {
    var q := a as real / b as real;
    assert q * b as real == a as real;
  }

  function Weighed(strength: real, share: real): real { strength * share }

  // ---------- What a prediction is, for a set of patterns in no order ----------

  ghost predicate IsBest(best: nat, ps: set<Pattern>, t: Trace) {
    && (exists p :: p in ps && Exact(p, t) && Specificity(p) == best)
    && forall p | p in ps && Exact(p, t) :: Specificity(p) <= best
  }

  ghost predicate Backs(p: Pattern, ps: set<Pattern>, t: Trace, r: NodeID) { p in ps && Exact(p, t) && p.result == r }

  ghost predicate Backed(r: NodeID, ps: set<Pattern>, t: Trace) { exists p :: Backs(p, ps, t, r) }

  /** v is the greatest share among the exact channels of r. */
  ghost predicate IsSupport(v: real, r: NodeID, best: nat, ps: set<Pattern>, t: Trace)
    requires best > 0
  {
    && (exists p :: Backs(p, ps, t, r) && v == Share(Specificity(p), best))
    && forall p | Backs(p, ps, t, r) :: Share(Specificity(p), best) <= v
  }

  ghost predicate IsStrength(v: real, r: NodeID, best: nat, ps: set<Pattern>, t: Trace)
    requires best > 0
  {
    && (exists p :: Backs(p, ps, t, r) && v == Weighed(Strength(p), Share(Specificity(p), best)))
    && forall p | Backs(p, ps, t, r) :: Weighed(Strength(p), Share(Specificity(p), best)) <= v
  }

  ghost predicate IsCompetitors(rs: seq<NodeID>, ps: set<Pattern>, t: Trace) {
    Rising(rs) && forall r :: r in rs <==> exists p :: p in ps && Competes(p, t) && p.result == r
  }

  ghost predicate IsPrediction(out: Prediction, best: nat, ps: set<Pattern>, t: Trace) {
    && best > 0 && IsBest(best, ps, t) && IsCompetitors(out.competitors, ps, t)
    && (forall r :: r in out.support <==> Backed(r, ps, t)) && (forall r :: r in out.strength <==> Backed(r, ps, t))
    && (forall r | r in out.support :: IsSupport(out.support[r], r, best, ps, t))
    && (forall r | r in out.strength :: IsStrength(out.strength[r], r, best, ps, t))
  }

  /** Some exact channel exists. */
  ghost predicate Recognised(ps: set<Pattern>, t: Trace) { exists p :: p in ps && Exact(p, t) }

  /** The order in which the patterns are walked cannot change the prediction. */
  lemma PredictionIsUnique(a: Prediction, b: Prediction, x: nat, y: nat, ps: set<Pattern>, t: Trace)
    requires IsPrediction(a, x, ps, t) && IsPrediction(b, y, ps, t)
    ensures a == b && x == y
  {
    hide IsBest, Exact, Competes, IsSupport, IsStrength, Backed;
    BestIsUnique(x, y, ps, t);
    RisingIsUnique(a.competitors, b.competitors);
    SupportIsUnique(a, b, x, ps, t);
    StrengthIsUnique(a, b, x, ps, t);
  }

  lemma BestIsUnique(x: nat, y: nat, ps: set<Pattern>, t: Trace)
    requires IsBest(x, ps, t) && IsBest(y, ps, t)
    ensures x == y
  {
    hide Exact, Specificity;
  }

  lemma SupportIsUnique(a: Prediction, b: Prediction, best: nat, ps: set<Pattern>, t: Trace)
    requires IsPrediction(a, best, ps, t) && IsPrediction(b, best, ps, t)
    ensures a.support == b.support
  {
    hide Exact, Competes, Strength, Share, Weighed, Specificity, IsCompetitors, IsStrength, IsBest;
    forall r ensures r in a.support <==> r in b.support {
      assert Backed(r, ps, t) <==> r in a.support;
    }
    forall r | r in a.support ensures a.support[r] == b.support[r] {
      assert IsSupport(a.support[r], r, best, ps, t) && IsSupport(b.support[r], r, best, ps, t);
    }
  }

  lemma StrengthIsUnique(a: Prediction, b: Prediction, best: nat, ps: set<Pattern>, t: Trace)
    requires IsPrediction(a, best, ps, t) && IsPrediction(b, best, ps, t)
    ensures a.strength == b.strength
  {
    hide Exact, Competes, Strength, Share, Weighed, Specificity, IsCompetitors, IsSupport, IsBest;
    forall r ensures r in a.strength <==> r in b.strength {
      assert Backed(r, ps, t) <==> r in a.strength;
    }
    forall r | r in a.strength ensures a.strength[r] == b.strength[r] {
      assert IsStrength(a.strength[r], r, best, ps, t) && IsStrength(b.strength[r], r, best, ps, t);
    }
  }

  /** The bag gate never costs an exact channel, so supported results are competitors; supports lie in
      (0, 1] and the best channel has full support; conductance never exceeds 0.35. */
  lemma PredictionBounds(out: Prediction, best: nat, ps: set<Pattern>, t: Trace)
    requires IsPrediction(out, best, ps, t)
    ensures forall r | r in out.support :: r in out.competitors && 0.0 < out.support[r] <= 1.0
    ensures forall r | r in out.strength :: 0.0 <= out.strength[r] <= 0.35
    ensures exists r :: r in out.support && out.support[r] == 1.0
  {
    hide Strength, Share, Weighed, Specificity;
    forall r | r in out.support ensures r in out.competitors && 0.0 < out.support[r] <= 1.0 {
      assert IsSupport(out.support[r], r, best, ps, t);
      var p :| Backs(p, ps, t, r) && out.support[r] == Share(Specificity(p), best);
      ExactMatchIsBagMatch(Stem(p), t.stimulus);
      assert p in ps && Competes(p, t) && p.result == r;
    }
    forall r | r in out.strength ensures 0.0 <= out.strength[r] <= 0.35 {
      assert IsStrength(out.strength[r], r, best, ps, t);
      var p :| Backs(p, ps, t, r) && out.strength[r] == Weighed(Strength(p), Share(Specificity(p), best));
      WeighedBounds(Strength(p), Share(Specificity(p), best));
    }
    var p :| p in ps && Exact(p, t) && Specificity(p) == best;
    assert Backs(p, ps, t, p.result);
    assert p.result in out.support && IsSupport(out.support[p.result], p.result, best, ps, t);
  }

  lemma WeighedBounds(s: real, share: real)
    requires 0.0 <= s <= 0.35 && 0.0 <= share <= 1.0
    ensures 0.0 <= Weighed(s, share) <= 0.35
  {
    ProductInRange(s, share);
  }

  lemma ProductInRange(s: real, share: real)
    requires 0.0 <= s && 0.0 <= share <= 1.0
    ensures 0.0 <= s * share <= s
  {
    NonNegativeProduct(s, share);
    NonNegativeProduct(s, 1.0 - share);
    Complement(s, share);
  }

  lemma NonNegativeProduct(a: real, b: real)
    requires a >= 0.0 && b >= 0.0
    ensures a * b >= 0.0
  {
  }

  lemma Complement(a: real, b: real)
    ensures a * (1.0 - b) == a - a * b
  {
  }

  // ---------- The selection ----------

  datatype Candidate = Candidate(result: NodeID, specificity: nat, strength: real, matched: bool)

  function CandidateOf(p: Pattern, t: Trace): Candidate
    requires Eligible(p)
  {
    Candidate(p.result, Specificity(p), Strength(p), Exact(p, t))
  }

  /** The candidates are those of the competing patterns. */
  ghost predicate Gathered(cs: seq<Candidate>, ps: set<Pattern>, t: Trace) {
    && (forall c | c in cs :: exists p :: p in ps && Competes(p, t) && c == CandidateOf(p, t))
    && forall p | p in ps && Competes(p, t) :: CandidateOf(p, t) in cs
  }

  ghost function All(patterns: seq<Pattern>): set<Pattern> { set p | p in patterns }

  method Gather(patterns: seq<Pattern>, t: Trace) returns (cs: seq<Candidate>, best: nat)
    ensures Gathered(cs, All(patterns), t)
    ensures if Recognised(All(patterns), t) then IsBest(best, All(patterns), t) else best == 0
  {
    hide Exact, Specificity, Strength, BagCompatible, Gathered, Recognised, IsBest, CandidateOf, Stem;
    cs, best := [], 0;
    ghost var ps: set<Pattern> := {};
    NothingGathered(t);
    for i := 0 to |patterns|
      invariant forall p :: p in ps <==> exists j :: 0 <= j < i && patterns[j] == p
      invariant Gathered(cs, ps, t)
      invariant if Recognised(ps, t) then IsBest(best, ps, t) else best == 0
    {
      var p := patterns[i];
      ghost var was := ps;
      ps := ps + {p};
      var fits := false;
      if Eligible(p) {
        fits := OrderedSuffixBagMatches(Stem(p), t.stimulus);
      }
      if fits {
        var c := CandidateOf(p, t);
        CandidateSays(p, t);
        GatheredAdds(cs, was, p, t);
        BestStep(best, was, p, t);
        if c.matched && c.specificity > best { best := c.specificity; }
        cs := cs + [c];
      } else {
        if Exact(p, t) { ExactCompetes(p, t); }
        GatheredSkips(cs, was, p, t);
        NotExactStep(best, was, p, t);
      }
    }
    assert ps == All(patterns);
  }

  lemma NothingGathered(t: Trace)
    ensures Gathered([], {}, t) && !Recognised({}, t)
  {
  }

  lemma CandidateSays(p: Pattern, t: Trace)
    requires Eligible(p)
    ensures CandidateOf(p, t).matched == Exact(p, t) && CandidateOf(p, t).specificity == Specificity(p)
  {
  }

  lemma GatheredAdds(cs: seq<Candidate>, ps: set<Pattern>, p: Pattern, t: Trace)
    requires Gathered(cs, ps, t) && Competes(p, t)
    ensures Gathered(cs + [CandidateOf(p, t)], ps + {p}, t)
  {
    hide Competes, CandidateOf;
    var more, all := cs + [CandidateOf(p, t)], ps + {p};
    assert forall c :: c in more <==> c in cs || c == CandidateOf(p, t);
    forall c | c in more ensures exists q :: q in all && Competes(q, t) && c == CandidateOf(q, t) {
      if c in cs {
        var q :| q in ps && Competes(q, t) && c == CandidateOf(q, t);
        assert q in all;
      } else {
        assert p in all;
      }
    }
  }

  lemma GatheredSkips(cs: seq<Candidate>, ps: set<Pattern>, p: Pattern, t: Trace)
    requires Gathered(cs, ps, t) && !Competes(p, t)
    ensures Gathered(cs, ps + {p}, t)
  {
    hide Competes, CandidateOf;
    forall c | c in cs ensures exists q :: q in ps + {p} && Competes(q, t) && c == CandidateOf(q, t) {
      var q :| q in ps && Competes(q, t) && c == CandidateOf(q, t);
      assert q in ps + {p};
    }
  }

  lemma ExactCompetes(p: Pattern, t: Trace)
    requires Exact(p, t)
    ensures Competes(p, t)
  {
    ExactMatchIsBagMatch(Stem(p), t.stimulus);
  }

  lemma BestStep(best: nat, ps: set<Pattern>, p: Pattern, t: Trace)
    requires Eligible(p) && if Recognised(ps, t) then IsBest(best, ps, t) else best == 0
    ensures var next := if Exact(p, t) && Specificity(p) > best then Specificity(p) else best;
            if Recognised(ps + {p}, t) then IsBest(next, ps + {p}, t) else next == 0
  {
    hide Exact, Specificity;
    var all, next := ps + {p}, if Exact(p, t) && Specificity(p) > best then Specificity(p) else best;
    if Recognised(all, t) {
      if Exact(p, t) && Specificity(p) > best {
        assert p in all && Exact(p, t) && Specificity(p) == next;
      } else if Recognised(ps, t) {
        var q :| q in ps && Exact(q, t) && Specificity(q) == best;
        assert q in all;
      }
    }
    if Exact(p, t) { assert p in all; }
  }

  lemma NotExactStep(best: nat, ps: set<Pattern>, p: Pattern, t: Trace)
    requires !Exact(p, t) && if Recognised(ps, t) then IsBest(best, ps, t) else best == 0
    ensures if Recognised(ps + {p}, t) then IsBest(best, ps + {p}, t) else best == 0
  {
    hide Exact, Specificity;
    if Recognised(ps + {p}, t) {
      var q :| q in ps + {p} && Exact(q, t);
      assert q in ps;
    }
  }

  /** The greatest share or conductance among the matched candidates of r. */
  ghost predicate IsGreatest(v: real, cs: seq<Candidate>, r: NodeID, value: Candidate -> real) {
    && (exists c :: c in cs && c.matched && c.result == r && v == value(c))
    && forall c | c in cs && c.matched && c.result == r :: value(c) <= v
  }

  ghost predicate Collects(m: map<NodeID, real>, cs: seq<Candidate>, value: Candidate -> real) {
    && (forall r :: r in m <==> exists c :: c in cs && c.matched && c.result == r)
    && forall r | r in m :: IsGreatest(m[r], cs, r, value)
  }

  /** One entry raised to at least v; a missing entry reads as zero. */
  function Raised(m: map<NodeID, real>, r: NodeID, v: real): map<NodeID, real> {
    var was := if r in m then m[r] else 0.0;
    m[r := if v > was then v else was]
  }

  lemma RaisedCollects(m: map<NodeID, real>, cs: seq<Candidate>, c: Candidate, value: Candidate -> real)
    requires Collects(m, cs, value) && value(c) >= 0.0
    ensures Collects(if c.matched then Raised(m, c.result, value(c)) else m, cs + [c], value)
  {
    var more, next := cs + [c], if c.matched then Raised(m, c.result, value(c)) else m;
    assert forall d :: d in more <==> d in cs || d == c;
    forall r ensures r in next <==> exists d :: d in more && d.matched && d.result == r {
      if r in m {
        var d :| d in cs && d.matched && d.result == r;
        assert d in more;
      }
      if c.matched && r == c.result { assert c in more; }
    }
    forall r | r in next ensures IsGreatest(next[r], more, r, value) {
      if r in m {
        assert IsGreatest(m[r], cs, r, value);
        var d :| d in cs && d.matched && d.result == r && m[r] == value(d);
        assert d in more;
      }
      assert c in more;
    }
  }

  function ShareOf(best: nat): Candidate -> real
    requires best > 0
  {
    (c: Candidate) => Share(c.specificity, best)
  }

  function ConductanceOf(best: nat): Candidate -> real
    requires best > 0
  {
    (c: Candidate) => Weighed(c.strength, Share(c.specificity, best))
  }

  method PredictOrdered(patterns: seq<Pattern>, trace: Option<Trace>) returns (out: Prediction)
    ensures trace.None? || trace.value.stimulus == [] || !Recognised(All(patterns), trace.value) ==> out == NOTHING
    ensures trace.Some? && trace.value.stimulus != [] && Recognised(All(patterns), trace.value) ==>
              exists best :: IsPrediction(out, best, All(patterns), trace.value)
  {
    hide Share, Weighed, Recognised, IsBest, Gathered, IsPrediction, Collects, Raised, SortedKeys;
    out := NOTHING;
    if trace.None? || |trace.value.stimulus| == 0 { return; }
    var t := trace.value;
    var cs, best := Gather(patterns, t);
    BestIsPositive(best, All(patterns), t);
    if best == 0 { return; }
    var support: map<NodeID, real>, strength: map<NodeID, real> := map[], map[];
    var competitors: set<NodeID> := {};
    NothingCollected(best);
    for i := 0 to |cs|
      invariant Collects(support, cs[..i], ShareOf(best)) && Collects(strength, cs[..i], ConductanceOf(best))
      invariant forall r :: r in competitors <==> exists j :: 0 <= j < i && cs[j].result == r
    {
      var c := cs[i];
      assert cs[..i + 1] == cs[..i] + [c] && c in cs;
      var share := Share(c.specificity, best);
      GatheredBounds(cs, c, best, All(patterns), t);
      competitors := competitors + {c.result};
      RaisedCollects(support, cs[..i], c, ShareOf(best));
      RaisedCollects(strength, cs[..i], c, ConductanceOf(best));
      if c.matched {
        support := Raised(support, c.result, share);
        strength := Raised(strength, c.result, Weighed(c.strength, share));
      }
    }
    assert cs[..|cs|] == cs;
    var sorted := SortInts(competitors);
    SortedKeysRise(competitors);
    out := Prediction(support, strength, sorted);
    Selected(out, cs, best, All(patterns), t, competitors);
  }

  lemma BestIsPositive(best: nat, ps: set<Pattern>, t: Trace)
    requires if Recognised(ps, t) then IsBest(best, ps, t) else best == 0
    ensures Recognised(ps, t) <==> best > 0
  {
  }

  lemma NothingCollected(best: nat)
    requires best > 0
    ensures Collects(map[], [], ShareOf(best)) && Collects(map[], [], ConductanceOf(best))
  {
  }

  lemma GatheredBounds(cs: seq<Candidate>, c: Candidate, best: nat, ps: set<Pattern>, t: Trace)
    requires Gathered(cs, ps, t) && c in cs && best > 0
    ensures ShareOf(best)(c) >= 0.0 && ConductanceOf(best)(c) >= 0.0
  {
    hide Share, Weighed, Exact;
    var p :| p in ps && Competes(p, t) && c == CandidateOf(p, t);
    SharePositive(c.specificity, best);
    ProductPositive(c.strength, Share(c.specificity, best));
  }

  lemma SharePositive(a: nat, b: nat)
    requires b > 0
    ensures Share(a, b) >= 0.0
  {
  }

  lemma ProductPositive(s: real, share: real)
    requires s >= 0.0 && share >= 0.0
    ensures Weighed(s, share) >= 0.0
  {
  }

  /** Matched candidates are exactly the exact channels. */
  lemma MatchedAreExact(cs: seq<Candidate>, ps: set<Pattern>, t: Trace, r: NodeID)
    requires Gathered(cs, ps, t)
    ensures forall c | c in cs && c.matched && c.result == r :: exists p :: Backs(p, ps, t, r) && c == CandidateOf(p, t)
    ensures forall p | Backs(p, ps, t, r) ::
              CandidateOf(p, t) in cs && CandidateOf(p, t).matched && CandidateOf(p, t).result == r
  {
    hide Strength, Specificity, BagCompatible;
    forall c | c in cs && c.matched && c.result == r ensures exists p :: Backs(p, ps, t, r) && c == CandidateOf(p, t) {
      var p :| p in ps && Competes(p, t) && c == CandidateOf(p, t);
      assert Backs(p, ps, t, r);
    }
    forall p | Backs(p, ps, t, r) ensures CandidateOf(p, t) in cs && CandidateOf(p, t).matched && CandidateOf(p, t).result == r {
      ExactCompetes(p, t);
    }
  }

  lemma Selected(out: Prediction, cs: seq<Candidate>, best: nat, ps: set<Pattern>, t: Trace, competitors: set<NodeID>)
    requires Gathered(cs, ps, t) && best > 0 && IsBest(best, ps, t)
    requires Collects(out.support, cs, ShareOf(best)) && Collects(out.strength, cs, ConductanceOf(best))
    requires Rising(out.competitors) && forall r :: r in out.competitors <==> r in competitors
    requires forall r :: r in competitors <==> exists j :: 0 <= j < |cs| && cs[j].result == r
    ensures IsPrediction(out, best, ps, t)
  {
    hide Share, Weighed, Exact, Strength, Specificity, IsBest, Gathered, IsSupport, IsStrength, IsCompetitors;
    forall r ensures r in out.support <==> Backed(r, ps, t) { SupportedAreBacked(out.support, cs, best, ps, t, r, ShareOf(best)); }
    forall r ensures r in out.strength <==> Backed(r, ps, t) { SupportedAreBacked(out.strength, cs, best, ps, t, r, ConductanceOf(best)); }
    forall r | r in out.support ensures IsSupport(out.support[r], r, best, ps, t) {
      GreatestShare(out.support[r], cs, best, ps, t, r);
    }
    forall r | r in out.strength ensures IsStrength(out.strength[r], r, best, ps, t) {
      GreatestConductance(out.strength[r], cs, best, ps, t, r);
    }
    CompetitorsAreChannels(out.competitors, cs, ps, t, competitors);
  }

  lemma GreatestShare(v: real, cs: seq<Candidate>, best: nat, ps: set<Pattern>, t: Trace, r: NodeID)
    requires Gathered(cs, ps, t) && best > 0 && IsGreatest(v, cs, r, ShareOf(best))
    ensures IsSupport(v, r, best, ps, t)
  {
    hide Share, Exact, Strength, Specificity, Gathered;
    MatchedAreExact(cs, ps, t, r);
    forall p | Backs(p, ps, t, r) ensures Share(Specificity(p), best) <= v {
      assert ShareOf(best)(CandidateOf(p, t)) <= v;
    }
  }

  lemma GreatestConductance(v: real, cs: seq<Candidate>, best: nat, ps: set<Pattern>, t: Trace, r: NodeID)
    requires Gathered(cs, ps, t) && best > 0 && IsGreatest(v, cs, r, ConductanceOf(best))
    ensures IsStrength(v, r, best, ps, t)
  {
    hide Share, Weighed, Exact, Strength, Specificity, Gathered;
    MatchedAreExact(cs, ps, t, r);
    forall p | Backs(p, ps, t, r) ensures Weighed(Strength(p), Share(Specificity(p), best)) <= v {
      assert ConductanceOf(best)(CandidateOf(p, t)) <= v;
    }
  }

  lemma SupportedAreBacked(m: map<NodeID, real>, cs: seq<Candidate>, best: nat, ps: set<Pattern>, t: Trace, r: NodeID,
                           value: Candidate -> real)
    requires Gathered(cs, ps, t) && Collects(m, cs, value)
    ensures r in m <==> Backed(r, ps, t)
  {
    hide Exact, IsGreatest, CandidateOf, Gathered, Competes;
    MatchedAreExact(cs, ps, t, r);
    if r in m {
      var c :| c in cs && c.matched && c.result == r;
      var p :| Backs(p, ps, t, r) && c == CandidateOf(p, t);
    }
    if Backed(r, ps, t) {
      var p :| Backs(p, ps, t, r);
      assert CandidateOf(p, t) in cs;
    }
  }

  lemma CompetitorsAreChannels(rs: seq<NodeID>, cs: seq<Candidate>, ps: set<Pattern>, t: Trace, competitors: set<NodeID>)
    requires Gathered(cs, ps, t) && Rising(rs) && forall r :: r in rs <==> r in competitors
    requires forall r :: r in competitors <==> exists j :: 0 <= j < |cs| && cs[j].result == r
    ensures IsCompetitors(rs, ps, t)
  {
    hide Exact, Strength, Specificity, BagCompatible;
    forall r ensures r in rs <==> exists p :: p in ps && Competes(p, t) && p.result == r {
      if r in rs {
        var j :| 0 <= j < |cs| && cs[j].result == r;
        assert cs[j] in cs;
      }
      if p :| p in ps && Competes(p, t) && p.result == r {
        assert CandidateOf(p, t) in cs;
        var j :| 0 <= j < |cs| && cs[j] == CandidateOf(p, t);
      }
    }
  }

  // ---------- What a channel needs and gives ----------

  /** The frames stand at the end of the trace, position by position. */
  ghost predicate EndsWith(trace: seq<Frame>, frames: seq<Frame>) {
    |frames| <= |trace| && forall i | 0 <= i < |frames| :: AllIn(frames[i], trace[|trace| - |frames| + i])
  }

  /** A channel learned from a trace is exact on what ends like its observation without the last frame;
      a channel of bare steps on what ends with its steps before the result. */
  lemma ExactOnTrace(p: Pattern, t: Trace)
    requires Eligible(p)
    ensures p.isOrdered ==>
              var o := p.observation.value;
              && (Exact(p, t) <==> !p.hasContext && EndsWith(t.stimulus, o.stimulus[..|o.stimulus| - 1])
                                   && EndsWith(t.context, o.context) && EndsWith(t.data, o.data))
              && Specificity(p) == |o.stimulus| - 1 + |o.context| + |o.data|
    ensures !p.isOrdered ==>
              var n := |p.sequence| - 1;
              && (Exact(p, t) <==> !p.hasContext && n <= |t.stimulus|
                                   && forall i | 0 <= i < n :: p.sequence[i] in t.stimulus[|t.stimulus| - n + i])
              && Specificity(p) == n
  {
    hide OrderedSuffixMatches, AllIn;
    PositionalMatchOnTrace(Stem(p), t.stimulus);
    PositionalMatchOnTrace(Context(p), t.context);
    PositionalMatchOnTrace(Data(p), t.data);
    if !p.isOrdered {
      var n := |p.sequence| - 1;
      forall i, frame: Frame | 0 <= i < n ensures AllIn(Stem(p)[i], frame) <==> p.sequence[i] in frame {
        SingleStep(p.sequence[i], frame);
      }
    }
  }

  lemma SingleStep(id: NodeID, frame: Frame)
    ensures AllIn([id], frame) <==> id in frame
  {
    assert [id][0] == id;
  }

  /** What is no channel: too short a sequence, no result, a result that does not end it, or an ordered
      one without an observation of at least two frames. It never matches and never competes. */
  lemma NotAChannel(p: Pattern, t: Trace)
    requires || |p.sequence| < 2 || p.result == 0 || p.sequence[|p.sequence| - 1] != p.result
             || (p.isOrdered && (p.observation.None? || |p.observation.value.stimulus| < 2))
    ensures !Exact(p, t) && !Competes(p, t)
  {
    hide Exact, Competes;
    assert !Eligible(p);
  }

  /** Inside its limits the conductance is weight times confidence, halved for a channel never
      seen and whole from ten times on; outside it is cut to 0.01 and 0.35, and nothing stays nothing. */
  lemma StrengthLaw(p: Pattern)
    requires 0.0 <= p.weight <= 1.0 && 0.0 <= p.confidence <= 1.0
    ensures var seen := if p.frequency <= 0 then 0.0 else if p.frequency >= 10 then 1.0 else p.frequency as real / 10.0;
            var raw := Weighed(Weighed(p.weight, p.confidence), (1.0 + seen) / 2.0);
            && (0.01 <= raw <= 0.35 ==> Strength(p) == raw)
            && (0.0 < raw < 0.01 ==> Strength(p) == 0.01) && (raw > 0.35 ==> Strength(p) == 0.35)
            && (p.weight == 0.0 || p.confidence == 0.0 <==> Strength(p) == 0.0)
  {
    var seen := if p.frequency <= 0 then 0.0 else if p.frequency >= 10 then 1.0 else p.frequency as real / 10.0;
    var half := 0.5 + 0.5 * (if p.frequency < 0 then 0.0 else if p.frequency > 10 then 10.0 else p.frequency as real) / 10.0;
    assert half == (1.0 + seen) / 2.0;
    ProductSign(p.weight, p.confidence);
    ProductSign(p.weight * p.confidence, half);
  }

  lemma ProductSign(a: real, b: real)
    requires a >= 0.0 && b >= 0.0
    ensures a * b >= 0.0 && (a * b == 0.0 <==> a == 0.0 || b == 0.0)
  {
  }

  /** A result that one exact channel alone backs gets its share of the best specificity, and the
      channel's conductance times that share. */
  lemma SoleBacker(out: Prediction, best: nat, ps: set<Pattern>, t: Trace, p: Pattern)
    requires IsPrediction(out, best, ps, t) && Backs(p, ps, t, p.result)
    requires forall q | Backs(q, ps, t, p.result) :: q == p
    ensures p.result in out.support && p.result in out.strength
    ensures out.support[p.result] * best as real == Specificity(p) as real
    ensures out.strength[p.result] == Strength(p) * out.support[p.result]
    ensures Specificity(p) == best ==> out.support[p.result] == 1.0 && out.strength[p.result] == Strength(p)
  {
    hide Exact, Strength, Specificity, IsBest, IsCompetitors, Share;
    var r := p.result;
    assert Backed(r, ps, t);
    assert IsSupport(out.support[r], r, best, ps, t) && IsStrength(out.strength[r], r, best, ps, t);
    ShareTimesBest(Specificity(p), best);
  }

  lemma ShareTimesBest(a: nat, best: nat)
    requires best > 0
    ensures Share(a, best) * best as real == a as real && (a == best ==> Share(a, best) == 1.0)
  {
  }
}
