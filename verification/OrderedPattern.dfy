/** Ordered pattern channels: exact positional matching of a trace suffix, and
    the order-free "bag" match decided by augmenting-path bipartite assignment. */
module OrderedPattern {
  import opened FiniteSets

  type NodeID = int
  type Frame = seq<NodeID>

  predicate PopulationMatches(expected: Frame, actual: Frame) {
    forall id | id in expected :: id in actual
  }

  function Suffix(frames: seq<Frame>, n: nat): seq<Frame>
    requires n <= |frames|
  {
    frames[|frames| - n..]
  }

  predicate OrderedSuffixMatches(expected: seq<Frame>, frames: seq<Frame>) {
    |expected| <= |frames| &&
    var suffix := Suffix(frames, |expected|);
    forall i | 0 <= i < |expected| :: PopulationMatches(expected[i], suffix[i])
  }

  // ---------- What the bag match means ----------

  predicate Injective(f: seq<int>) {
    forall s, t | 0 <= s < |f| && 0 <= t < |f| && f[s] == f[t] :: s == t
  }

  /** `f` sends every step to its own frame, and that frame contains the step. */
  ghost predicate IsMatching(steps: seq<Frame>, frames: seq<Frame>, f: seq<int>) {
    |f| == |steps| && Injective(f) &&
    forall t | 0 <= t < |f| :: 0 <= f[t] < |frames| && PopulationMatches(steps[t], frames[f[t]])
  }

  /** Steps and suffix frames have equal number, so a matching is a bijection. */
  ghost predicate BagCompatible(steps: seq<Frame>, frames: seq<Frame>) {
    0 < |steps| <= |frames| && exists f :: IsMatching(steps, Suffix(frames, |steps|), f)
  }

  ghost function Neighbours(steps: seq<Frame>, frames: seq<Frame>, xs: set<int>): set<int>
    requires forall t | t in xs :: 0 <= t < |steps|
  {
    set j, t | 0 <= j < |frames| && t in xs && PopulationMatches(steps[t], frames[j]) :: j
  }

  /** A set of steps that together fit into fewer frames than it has members. */
  ghost predicate IsHallViolator(steps: seq<Frame>, frames: seq<Frame>, xs: set<int>) {
    (forall t | t in xs :: 0 <= t < |steps|) && |Neighbours(steps, frames, xs)| < |xs|
  }

  /** The easy half of Hall's theorem; `OrderedSuffixBagMatches` proves the other. */
  lemma {:induction false} HallViolatorForbidsMatching(steps: seq<Frame>, frames: seq<Frame>, xs: set<int>, f: seq<int>)
    requires IsHallViolator(steps, frames, xs)
    ensures !IsMatching(steps, frames, f)
  {
    if IsMatching(steps, frames, f) {
      var at := t => if 0 <= t < |f| then f[t] else -1;
      ImageSize(at, xs);
      SubsetSize(Image(at, xs), Neighbours(steps, frames, xs));
    }
  }

  // ---------- The matches on the whole trace ----------

  /** Frames before the last |steps| play no part in either match. */
  lemma OlderFramesDoNotMatter(steps: seq<Frame>, older: seq<Frame>, frames: seq<Frame>)
    requires |steps| <= |frames|
    ensures BagCompatible(steps, older + frames) <==> BagCompatible(steps, frames)
    ensures OrderedSuffixMatches(steps, older + frames) <==> OrderedSuffixMatches(steps, frames)
  {
    assert Suffix(older + frames, |steps|) == Suffix(frames, |steps|);
  }

  /** `f` sends every step to a frame of its own among the last |steps| of the trace, and every
      neuron of the step fired in that frame. */
  ghost predicate IsAssignment(steps: seq<Frame>, trace: seq<Frame>, f: seq<int>) {
    && |f| == |steps| && (forall s, t | 0 <= s < t < |f| :: f[s] != f[t])
    && forall t | 0 <= t < |f| :: |trace| - |steps| <= f[t] < |trace| && f[t] >= 0 && AllIn(steps[t], trace[f[t]])
  }

  ghost predicate AllIn(step: Frame, frame: Frame) {
    forall k | 0 <= k < |step| :: step[k] in frame
  }

  lemma AllInMatches(step: Frame, frame: Frame)
    ensures AllIn(step, frame) <==> PopulationMatches(step, frame)
  {
    if PopulationMatches(step, frame) { EachIsIn(step, frame); }
  }

  lemma EachIsIn(step: Frame, frame: Frame)
    requires PopulationMatches(step, frame)
    ensures AllIn(step, frame)
  {
    forall k | 0 <= k < |step| ensures step[k] in frame { OneIsIn(step, frame, step[k]); }
  }

  lemma OneIsIn(step: Frame, frame: Frame, id: NodeID)
    requires PopulationMatches(step, frame) && id in step
    ensures id in frame
  {
  }

  /** The bag match, read on positions of the whole trace. */
  lemma BagMatchOnTrace(steps: seq<Frame>, trace: seq<Frame>)
    ensures BagCompatible(steps, trace) <==> 0 < |steps| <= |trace| && exists f :: IsAssignment(steps, trace, f)
  {
    hide PopulationMatches, AllIn;
    if 0 < |steps| <= |trace| {
      var older := |trace| - |steps|;
      forall t, j | 0 <= t < |steps| && 0 <= j < |trace| ensures AllIn(steps[t], trace[j]) <==> PopulationMatches(steps[t], trace[j]) {
        AllInMatches(steps[t], trace[j]);
      }
      forall f | IsMatching(steps, Suffix(trace, |steps|), f) ensures exists g :: IsAssignment(steps, trace, g) {
        assert IsAssignment(steps, trace, seq(|f|, t requires 0 <= t < |f| => f[t] + older));
      }
      forall f | IsAssignment(steps, trace, f) ensures exists g :: IsMatching(steps, Suffix(trace, |steps|), g) {
        assert IsMatching(steps, Suffix(trace, |steps|), seq(|f|, t requires 0 <= t < |f| => f[t] - older));
      }
    }
  }

  /** The positional match, likewise: step i against the frame |steps| - i before the end. */
  lemma PositionalMatchOnTrace(steps: seq<Frame>, trace: seq<Frame>)
    ensures OrderedSuffixMatches(steps, trace) <==>
            |steps| <= |trace| && forall i | 0 <= i < |steps| :: AllIn(steps[i], trace[|trace| - |steps| + i])
  {
    hide PopulationMatches, AllIn;
    if |steps| <= |trace| {
      forall i | 0 <= i < |steps|
        ensures AllIn(steps[i], trace[|trace| - |steps| + i]) <==> PopulationMatches(steps[i], Suffix(trace, |steps|)[i])
      {
        AllInMatches(steps[i], trace[|trace| - |steps| + i]);
      }
    }
  }

  // ---------- The augmenting search ----------

  /** A frame holds -1 or a step that it contains. */
  ghost predicate ValidAssignment(steps: seq<Frame>, frames: seq<Frame>, holder: seq<int>) {
    |holder| == |frames| &&
    forall j | 0 <= j < |holder| ::
      -1 <= holder[j] < |steps| &&
      (holder[j] >= 0 ==> PopulationMatches(steps[holder[j]], frames[j]))
  }

  ghost predicate Grows(before: seq<bool>, after: seq<bool>) {
    |before| == |after| && forall j | 0 <= j < |after| :: before[j] ==> after[j]
  }

  ghost predicate AgreeWhere(seen: seq<bool>, a: seq<int>, b: seq<int>) {
    |a| == |b| == |seen| && forall j | 0 <= j < |a| && seen[j] :: a[j] == b[j]
  }

  ghost predicate NeighboursSeen(steps: seq<Frame>, frames: seq<Frame>, seen: seq<bool>, t: int) {
    |seen| == |frames| && 0 <= t < |steps| &&
    forall j | 0 <= j < |frames| && !seen[j] :: !PopulationMatches(steps[t], frames[j])
  }

  /** The search got nowhere: every frame it visited is held by a step all of
      whose frames are visited too, so no alternating path leaves the visited set. */
  ghost predicate Exhausted(steps: seq<Frame>, frames: seq<Frame>, holder: seq<int>, before: seq<bool>, seen: seq<bool>) {
    |before| == |seen| == |holder| &&
    forall j | 0 <= j < |seen| && seen[j] && !before[j] :: NeighboursSeen(steps, frames, seen, holder[j])
  }

  ghost function Unseen(seen: seq<bool>): nat {
    multiset(seen)[false]
  }

  lemma {:induction false} UnseenMonotone(a: seq<bool>, b: seq<bool>)
    requires Grows(a, b)
    ensures Unseen(b) <= Unseen(a)
  {
    if |a| > 0 {
      UnseenMonotone(a[1..], b[1..]);
      assert a == [a[0]] + a[1..] && b == [b[0]] + b[1..];
    }
  }

  /** A failed inner search from the holder of frame `i` extends the dead end. */
  lemma ExhaustedExtends(steps: seq<Frame>, frames: seq<Frame>, holder: seq<int>,
                         before: seq<bool>, at: seq<bool>, i: nat, after: seq<bool>)
    requires i < |at| && Grows(at[i := true], after)
    requires Exhausted(steps, frames, holder, before, at)
    requires Exhausted(steps, frames, holder, at[i := true], after)
    requires NeighboursSeen(steps, frames, after, holder[i])
    ensures Exhausted(steps, frames, holder, before, after)
  {
    forall j | 0 <= j < |after| && after[j] && !before[j]
      ensures NeighboursSeen(steps, frames, after, holder[j])
    {
      if j != i && at[j] {
        assert NeighboursSeen(steps, frames, at, holder[j]);
      }
    }
  }

  /** `after` places `step` besides everything that `before` places. */
  ghost predicate PlacesAlso(before: seq<int>, after: seq<int>, step: int) {
    multiset(before) + multiset{step} == multiset(after) + multiset{-1}
  }

  /** Overwriting frame `i` releases the step it held, which must be placed elsewhere. */
  lemma PlaceAt(before: seq<int>, mid: seq<int>, i: nat, step: int)
    requires i < |mid|
    requires if mid[i] == -1 then before == mid else PlacesAlso(before, mid, mid[i])
    ensures PlacesAlso(before, mid[i := step], step)
  {
    var now, h := multiset(mid[i := step]), multiset{mid[i]};
    assert now + h == multiset(mid) + multiset{step};
    if mid[i] != -1 {
      var left, right := multiset(before) + multiset{step}, now + multiset{-1};
      assert left + h == multiset(mid) + multiset{-1} + multiset{step} == right + h;
      assert left == (left + h) - h && right == (right + h) - h;
    }
  }

  /** What a search does to the assignment: nothing, unless it finds a place. */
  ghost predicate SearchEffect(steps: seq<Frame>, frames: seq<Frame>, visited: seq<bool>,
                               before: seq<int>, after: seq<int>, step: int, ok: bool) {
    ValidAssignment(steps, frames, after) && AgreeWhere(visited, before, after) &&
    if ok then PlacesAlso(before, after, step) else after == before
  }

  lemma SearchSucceeds(steps: seq<Frame>, frames: seq<Frame>, visited: seq<bool>, at: seq<bool>,
                       before: seq<int>, mid: seq<int>, i: nat, step: nat)
    requires |at| == |before| && i < |at| && step < |steps| && Grows(visited, at) && !at[i]
    requires ValidAssignment(steps, frames, before) && PopulationMatches(steps[step], frames[i])
    requires if before[i] == -1 then mid == before
             else SearchEffect(steps, frames, at[i := true], before, mid, before[i], true)
    ensures SearchEffect(steps, frames, visited, before, mid[i := step], step, true)
  {
    PlaceAt(before, mid, i, step);
  }

  lemma SearchFailed(steps: seq<Frame>, frames: seq<Frame>, visited: seq<bool>, before: seq<int>, after: seq<int>, step: int)
    requires SearchEffect(steps, frames, visited, before, after, step, false)
    ensures after == before
  {
  }

  lemma NothingSearched(steps: seq<Frame>, frames: seq<Frame>, visited: seq<bool>, holder: seq<int>, step: int)
    requires ValidAssignment(steps, frames, holder) && |visited| == |frames|
    ensures SearchEffect(steps, frames, visited, holder, holder, step, false) && |holder| == |frames|
  {
  }

  lemma HolderInRange(steps: seq<Frame>, frames: seq<Frame>, holder: seq<int>, i: nat)
    requires ValidAssignment(steps, frames, holder) && i < |holder|
    ensures -1 <= holder[i] < |steps|
  {
  }

  lemma UnseenDrops(seen: seq<bool>, i: nat)
    requires i < |seen| && !seen[i]
    ensures Unseen(seen[i := true]) < Unseen(seen)
  {
  }

  method Assign(steps: seq<Frame>, frames: seq<Frame>, holder: array<int>, seen: array<bool>, step: nat) returns (ok: bool)
    requires step < |steps| && seen.Length == |frames|
    requires ValidAssignment(steps, frames, holder[..])
    modifies holder, seen
    ensures Grows(old(seen[..]), seen[..])
    ensures SearchEffect(steps, frames, old(seen[..]), old(holder[..]), holder[..], step, ok)
    ensures !ok ==> NeighboursSeen(steps, frames, seen[..], step)
    ensures !ok ==> Exhausted(steps, frames, holder[..], old(seen[..]), seen[..])
    decreases Unseen(seen[..])
  {
    hide PopulationMatches, PlacesAlso, Unseen, ValidAssignment, SearchEffect;
    ghost var before, held := seen[..], holder[..];
    NothingSearched(steps, frames, before, held, step);
    for i := 0 to |frames|
      invariant holder[..] == held && ValidAssignment(steps, frames, held)
      invariant Grows(before, seen[..])
      invariant forall j | 0 <= j < i && !seen[j] :: !PopulationMatches(steps[step], frames[j])
      invariant Exhausted(steps, frames, held, before, seen[..])
    {
      if !seen[i] && PopulationMatches(steps[step], frames[i]) {
        ghost var at := seen[..];
        seen[i] := true;
        UnseenMonotone(before, at);
        UnseenDrops(at, i);
        assert seen[..] == at[i := true];
        HolderInRange(steps, frames, held, i);
        var free := holder[i] < 0;
        if !free {
          free := Assign(steps, frames, holder, seen, holder[i]);
        }
        if free {
          ghost var mid := holder[..];
          holder[i] := step;
          assert holder[..] == mid[i := step];
          SearchSucceeds(steps, frames, before, at, held, mid, i, step);
          return true;
        }
        SearchFailed(steps, frames, at[i := true], held, holder[..], held[i]);
        ExhaustedExtends(steps, frames, held, before, at, i, seen[..]);
      }
    }
    return false;
  }

  // ---------- The bag match ----------

  /** Exactly the steps below `k` are placed, each once. */
  ghost predicate Placed(holder: seq<int>, k: nat) {
    forall t: nat :: multiset(holder)[t] == if t < k then 1 else 0
  }

  lemma PlacedExtends(before: seq<int>, after: seq<int>, step: nat)
    requires Placed(before, step) && PlacesAlso(before, after, step)
    ensures Placed(after, step + 1)
  {
    forall t: nat ensures multiset(after)[t] == if t < step + 1 then 1 else 0 {
      var both := multiset(before) + multiset{step};
      assert both[t] == multiset(before)[t] + multiset{step}[t];
    }
  }

  lemma {:induction false} OccursOnce(s: seq<int>, i: nat, j: nat)
    requires i < j < |s| && s[i] == s[j]
    ensures multiset(s)[s[i]] >= 2
  {
    assert s == s[..j] + [s[j]] + s[j + 1..];
    assert s[..j][i] == s[i];
    assert s[i] in multiset(s[..j]);
  }

  ghost function FrameOf(holder: seq<int>, t: int): (j: int)
    ensures t in holder ==> 0 <= j < |holder| && holder[j] == t
  {
    if t in holder then (var j :| 0 <= j < |holder| && holder[j] == t; j) else -1
  }

  /** A full placement, read from frames back to steps, is a matching. */
  lemma {:induction false} PlacementIsMatching(steps: seq<Frame>, frames: seq<Frame>, holder: seq<int>)
    requires ValidAssignment(steps, frames, holder) && Placed(holder, |steps|)
    ensures exists f :: IsMatching(steps, frames, f)
  {
    var f := seq(|steps|, t => FrameOf(holder, t));
    forall t | 0 <= t < |steps| ensures t in holder && f[t] == FrameOf(holder, t) {
      assert multiset(holder)[t] == 1;
    }
    assert IsMatching(steps, frames, f);
  }

  lemma InSteps(steps: seq<Frame>, frames: seq<Frame>, seen: seq<bool>, t: int)
    requires NeighboursSeen(steps, frames, seen, t)
    ensures 0 <= t < |steps|
  {
  }

  lemma NeighboursVisited(steps: seq<Frame>, frames: seq<Frame>, seen: seq<bool>, xs: set<int>, visited: set<int>)
    requires forall t | t in xs :: 0 <= t < |steps| && NeighboursSeen(steps, frames, seen, t)
    requires forall j | 0 <= j < |seen| && seen[j] :: j in visited
    ensures Neighbours(steps, frames, xs) <= visited
  {
    hide PopulationMatches;
  }

  /** The visited frames and the steps around them form the Hall violator. */
  lemma {:induction false} ExhaustedIsViolator(steps: seq<Frame>, frames: seq<Frame>, holder: seq<int>, seen: seq<bool>, step: nat)
    requires |seen| == |frames| && ValidAssignment(steps, frames, holder) && Placed(holder, step)
    requires NeighboursSeen(steps, frames, seen, step)
    requires forall j | 0 <= j < |seen| && seen[j] :: NeighboursSeen(steps, frames, seen, holder[j])
    ensures exists xs :: IsHallViolator(steps, frames, xs)
  {
    hide PopulationMatches, Neighbours, NeighboursSeen;
    var visited := set j | 0 <= j < |seen| && seen[j];
    var at := j => if 0 <= j < |holder| then holder[j] else -1;
    forall i, j | i in visited && j in visited && at(i) == at(j) ensures i == j {
      InSteps(steps, frames, seen, holder[i]);
      if i < j { OccursOnce(holder, i, j); }
      if j < i { OccursOnce(holder, j, i); }
    }
    ImageSize(at, visited);
    var held := Image(at, visited);
    assert step !in held by {
      assert multiset(holder)[step] == 0;
    }
    var xs := held + {step};
    InSteps(steps, frames, seen, step);
    forall t | t in xs ensures 0 <= t < |steps| && NeighboursSeen(steps, frames, seen, t) {
      if t != step {
        var j :| j in visited && t == at(j);
        InSteps(steps, frames, seen, holder[j]);
      }
    }
    NeighboursVisited(steps, frames, seen, xs, visited);
    SubsetSize(Neighbours(steps, frames, xs), visited);
    assert IsHallViolator(steps, frames, xs);
  }

  method OrderedSuffixBagMatches(steps: seq<Frame>, allFrames: seq<Frame>) returns (ok: bool)
    ensures ok <==> BagCompatible(steps, allFrames)
    ensures ok <==> 0 < |steps| <= |allFrames| && exists f :: IsAssignment(steps, allFrames, f)
    // A refusal on lengths that fit is always witnessed by a Hall violator.
    ensures !ok && 0 < |steps| <= |allFrames| ==>
              exists xs :: IsHallViolator(steps, Suffix(allFrames, |steps|), xs)
  {
    BagMatchOnTrace(steps, allFrames);
    if |steps| == 0 || |steps| > |allFrames| {
      return false;
    }
    hide IsAssignment;
    var frames := Suffix(allFrames, |steps|);
    var holder := new int[|frames|](_ => -1);
    for i := 0 to |steps|
      invariant ValidAssignment(steps, frames, holder[..])
      invariant Placed(holder[..], i)
    {
      var seen := new bool[|frames|](_ => false);
      ghost var before := holder[..];
      var placed := Assign(steps, frames, holder, seen, i);
      if !placed {
        ExhaustedIsViolator(steps, frames, holder[..], seen[..], i);
        forall f ensures !IsMatching(steps, frames, f) {
          var xs :| IsHallViolator(steps, frames, xs);
          HallViolatorForbidsMatching(steps, frames, xs, f);
        }
        return false;
      }
      PlacedExtends(before, holder[..], i);
    }
    PlacementIsMatching(steps, frames, holder[..]);
    return true;
  }

  /** A positional match is a bag match; only the empty pattern escapes, which the
      positional check accepts and the bag check refuses. */
  lemma {:induction false} ExactMatchIsBagMatch(steps: seq<Frame>, frames: seq<Frame>)
    requires OrderedSuffixMatches(steps, frames)
    ensures BagCompatible(steps, frames) <==> steps != []
  {
    if steps != [] {
      var f := seq(|steps|, t => t);
      assert IsMatching(steps, Suffix(frames, |steps|), f);
    }
  }
}
