/** The bounded recurrent context: preparing it for a cue, observing the cue, and validating it. */
module ContextState {
  import opened Options
  import opened Texts

  const MAX_FRAMES := 64
  const MAX_MEMBERS := 4096
  const MAX_AGE := 120_000_000_000
  const ORDINAL_LIMIT := 0x8000_0000_0000_0000

  /** Times are nanoseconds; zero is the zero time. */
  datatype Frame = Frame(population: seq<int>, at: int, ordinal: nat)

  datatype Context = Context(episode: string, ordinal: nat, cueStart: nat, frames: seq<Frame>)

  predicate EpisodeOk(episode: string) { episode == "" || exists i :: 0 <= i < |episode| && !IsSpace(episode[i]) }

  // ---------- What an accepted context is ----------

  function Members(frames: seq<Frame>): nat {
    if frames == [] then 0 else Members(frames[..|frames| - 1]) + |frames[|frames| - 1].population|
  }

  ghost predicate Fits(frames: seq<Frame>) { |frames| <= MAX_FRAMES && Members(frames) <= MAX_MEMBERS }

  /** The registered neurons, or no test at all. */
  type Membership = Option<set<int>>

  predicate Knows(known: Membership, id: int) { known.None? || id in known.value }

  predicate Grounded(population: seq<int>, known: Membership) {
    population != [] && forall i | 0 <= i < |population| :: population[i] > 0 && Knows(known, population[i])
  }

  ghost predicate Chronological(frames: seq<Frame>, ordinal: nat) {
    && (forall i | 0 <= i < |frames| :: frames[i].at > 0 && 0 < frames[i].ordinal <= ordinal)
    && (forall i, j | 0 <= i < j < |frames| :: frames[i].ordinal < frames[j].ordinal && frames[i].at <= frames[j].at)
  }

  ghost predicate Accepted(c: Context, known: Membership) {
    && Fits(c.frames) && (c.frames != [] ==> c.cueStart > 0)
    && c.ordinal < ORDINAL_LIMIT && c.cueStart <= c.ordinal + 1 && EpisodeOk(c.episode)
    && Chronological(c.frames, c.ordinal)
    && forall i | 0 <= i < |c.frames| :: Grounded(c.frames[i].population, known)
  }

  lemma {:induction false} MembersJoin(a: seq<Frame>, b: seq<Frame>)
    ensures Members(a + b) == Members(a) + Members(b)
  {
    if b == [] {
      assert a + b == a;
    } else {
      assert (a + b)[..|a + b| - 1] == a + b[..|b| - 1];
      MembersJoin(a, b[..|b| - 1]);
    }
  }

  // ---------- Retention ----------

  predicate Retained(f: Frame, cueStart: nat, now: int, excludeCue: bool) {
    0 <= now - f.at <= MAX_AGE && !(excludeCue && f.ordinal >= cueStart)
  }

  /** The frames that a cue at `now` may look back on. */
  function Before(frames: seq<Frame>, cueStart: nat, now: int, excludeCue: bool): (r: seq<Frame>)
    ensures forall f :: f in r <==> f in frames && Retained(f, cueStart, now, excludeCue)
    ensures |r| <= |frames| && Members(r) <= Members(frames)
  {
    if frames == [] then []
    else
      var rest, last := Before(frames[..|frames| - 1], cueStart, now, excludeCue), frames[|frames| - 1];
      MembersJoin(rest, [last]);
      assert frames == frames[..|frames| - 1] + [last];
      assert forall f :: f in frames <==> f in frames[..|frames| - 1] || f == last;
      assert [last][..0] == [];
      if Retained(last, cueStart, now, excludeCue) then rest + [last] else rest
  }

  lemma {:induction false} BeforeIsChronological(frames: seq<Frame>, ordinal: nat, cueStart: nat, now: int, excludeCue: bool)
    requires Chronological(frames, ordinal)
    ensures Chronological(Before(frames, cueStart, now, excludeCue), ordinal)
  {
    if frames != [] {
      var rest, last := frames[..|frames| - 1], frames[|frames| - 1];
      BeforeIsChronological(rest, ordinal, cueStart, now, excludeCue);
      var kept := Before(rest, cueStart, now, excludeCue);
      forall i | 0 <= i < |kept| ensures kept[i].ordinal < last.ordinal && kept[i].at <= last.at {
        assert kept[i] in rest;
      }
    }
  }

  // ---------- Observation ----------

  /** The cue's frames that fit the member budget alone, numbered by their place in the cue. */
  function CueFrames(stimulus: seq<seq<int>>, now: int, ordinal: nat): seq<Frame> {
    if stimulus == [] then []
    else
      var rest, last := stimulus[..|stimulus| - 1], stimulus[|stimulus| - 1];
      CueFrames(rest, now, ordinal) + if |last| > MAX_MEMBERS then [] else [Frame(last, now, ordinal + |stimulus|)]
  }

  /** `r` is the longest end of `all` within both budgets. */
  ghost predicate LongestFitting(r: seq<Frame>, all: seq<Frame>) {
    && |r| <= |all| && r == all[|all| - |r|..] && Fits(r)
    && forall k | 0 <= k < |all| - |r| :: !Fits(all[k..])
  }

  /** Evicting after every frame keeps exactly the longest fitting end of everything. */
  lemma EvictionComposes(r: seq<Frame>, all: seq<Frame>, f: Frame, next: seq<Frame>)
    requires LongestFitting(r, all) && LongestFitting(next, r + [f])
    ensures LongestFitting(next, all + [f])
  {
    hide Fits;
    var d, more := |all| - |r|, all + [f];
    assert more[d..] == r + [f];
    assert next == more[|more| - |next|..];
    forall k | 0 <= k < |more| - |next| ensures !Fits(more[k..]) {
      if k < d {
        if Fits(more[k..]) {
          assert more[k..] == all[k..] + [f];
          ShorterFits(all[k..], f);
        }
      } else {
        assert more[k..] == (r + [f])[k - d..];
      }
    }
  }

  lemma ShorterFits(frames: seq<Frame>, f: Frame)
    requires Fits(frames + [f])
    ensures Fits(frames)
  {
    MembersJoin(frames, [f]);
  }

  lemma WholeFits(frames: seq<Frame>)
    requires Fits(frames)
    ensures LongestFitting(frames, frames)
  {
  }

  lemma NoCueFrames(now: int, ordinal: nat)
    ensures CueFrames([], now, ordinal) == []
  {
  }

  lemma CueStep(stimulus: seq<seq<int>>, i: nat, now: int, ordinal: nat, before: seq<Frame>)
    requires i < |stimulus|
    ensures var all := before + CueFrames(stimulus[..i], now, ordinal);
            before + CueFrames(stimulus[..i + 1], now, ordinal) ==
            if |stimulus[i]| > MAX_MEMBERS then all else all + [Frame(stimulus[i], now, ordinal + i + 1)]
  {
    assert stimulus[..i + 1][..i] == stimulus[..i];
  }

  class ContextCell {
    var episode: string
    var ordinal: nat
    var cueStart: nat
    var frames: seq<Frame>

    constructor (episode: string)
      ensures Value() == Context(episode, 0, 0, [])
    {
      this.episode, ordinal, cueStart, frames := episode, 0, 0, [];
    }

    function Value(): Context
      reads this
    {
      Context(episode, ordinal, cueStart, frames)
    }

    /** One frame enters and the oldest leave until both budgets hold. */
    method Retain(f: Frame)
      requires Fits([f])
      modifies this`frames
      ensures LongestFitting(frames, old(frames) + [f])
    {
      hide Fits, Members;
      frames := frames + [f];
      ghost var all := frames;
      NoMembers();
      var members, i := 0, 0;
      while i < |frames|
        invariant 0 <= i <= |frames| && frames == all && members == Members(frames[..i])
      {
        MembersStep(frames, i);
        members := members + |frames[i].population|;
        i := i + 1;
      }
      assert frames[..i] == frames;
      while |frames| > MAX_FRAMES || members > MAX_MEMBERS
        invariant 0 < |frames| <= |all| && frames == all[|all| - |frames|..] && members == Members(frames)
        invariant forall k | 0 <= k < |all| - |frames| :: !Fits(all[k..])
        decreases |frames|
      {
        FrontLeaves(frames);
        assert !Fits(frames) by { Overfull(frames); }
        assert |frames| == 1 ==> frames == [f];
        members := members - |frames[0].population|;
        frames := frames[1..];
      }
      WithinBudgets(frames);
    }

    method Observe(stimulus: seq<seq<int>>, now: int)
      requires Fits(frames)
      modifies this
      ensures episode == old(episode) && cueStart == old(ordinal) + 1 && ordinal == old(ordinal) + |stimulus|
      ensures LongestFitting(frames, old(frames) + CueFrames(stimulus, now, old(ordinal)))
    {
      hide LongestFitting, CueFrames, Fits;
      cueStart := ordinal + 1;
      WholeFits(frames);
      NoCueFrames(now, ordinal);
      assert frames + [] == frames;
      for i := 0 to |stimulus|
        invariant episode == old(episode) && cueStart == old(ordinal) + 1 && ordinal == old(ordinal) + i
        invariant LongestFitting(frames, old(frames) + CueFrames(stimulus[..i], now, old(ordinal)))
      {
        ordinal := ordinal + 1;
        ghost var was, all := frames, old(frames) + CueFrames(stimulus[..i], now, old(ordinal));
        CueStep(stimulus, i, now, old(ordinal), old(frames));
        // No part of an oversized population is kept.
        if |stimulus[i]| <= MAX_MEMBERS {
          var f := Frame(stimulus[i], now, ordinal);
          AloneFits(f);
          Retain(f);
          EvictionComposes(was, all, f, frames);
        }
      }
      assert stimulus[..|stimulus|] == stimulus;
    }

    /** The validator accepts exactly the contexts described by `Accepted`. */
    method Validate(known: Membership) returns (ok: bool)
      ensures ok <==> Accepted(Value(), known)
    {
      hide Grounded, Members, EpisodeOk, Chronological;
      if |frames| > MAX_FRAMES || (|frames| > 0 && cueStart == 0) || ordinal >= ORDINAL_LIMIT
         || cueStart > ordinal + 1 || !EpisodeOk(episode) { return false; }
      var members, last, at := 0, 0, 0;
      NoMembers();
      NothingIsChronological(ordinal);
      assert frames[..0] == [];
      for i := 0 to |frames|
        invariant members == Members(frames[..i]) <= MAX_MEMBERS
        invariant Chronological(frames[..i], ordinal)
        invariant forall j | 0 <= j < i :: Grounded(frames[j].population, known)
        invariant if i == 0 then last == 0 && at == 0 else last == frames[i - 1].ordinal && at == frames[i - 1].at
      {
        ChronologicalStep(frames, i, ordinal);
        MembersStep(frames, i);
        members := members + |frames[i].population|;
        if members > MAX_MEMBERS { return false; }
        if frames[i].at == 0 || frames[i].ordinal <= last || frames[i].ordinal > ordinal || frames[i].at < at { return false; }
        if !Grounded(frames[i].population, known) { return false; }
        last, at := frames[i].ordinal, frames[i].at;
      }
      assert frames[..|frames|] == frames;
      return true;
    }
  }

  lemma ChronologicalStep(frames: seq<Frame>, i: nat, ordinal: nat)
    requires i < |frames|
    ensures Chronological(frames[..i + 1], ordinal) <==>
            && Chronological(frames[..i], ordinal) && frames[i].at > 0 && 0 < frames[i].ordinal <= ordinal
            && (i > 0 ==> frames[i - 1].ordinal < frames[i].ordinal && frames[i - 1].at <= frames[i].at)
    ensures Chronological(frames, ordinal) ==> Chronological(frames[..i + 1], ordinal)
    ensures i > 0 && Chronological(frames[..i], ordinal) ==> frames[i - 1].at > 0
  {
    var more := frames[..i + 1];
    if Chronological(more, ordinal) {
      forall j | 0 <= j < i ensures frames[..i][j] == more[j] {}
      assert more[i] == frames[i];
      if i > 0 { assert more[i - 1] == frames[i - 1]; }
    }
    if Chronological(frames[..i], ordinal) && i > 0 {
      assert frames[..i][i - 1] == frames[i - 1];
      forall j | 0 <= j < i ensures frames[j].ordinal <= frames[i - 1].ordinal && frames[j].at <= frames[i - 1].at {
        assert frames[..i][j] == frames[j];
      }
    }
  }

  lemma NothingIsChronological(ordinal: nat)
    ensures Chronological([], ordinal)
  {
  }

  lemma NoMembers()
    ensures Members([]) == 0
  {
  }

  lemma MembersStep(frames: seq<Frame>, i: nat)
    requires i < |frames|
    ensures Members(frames[..i + 1]) == Members(frames[..i]) + |frames[i].population| <= Members(frames)
  {
    assert frames[..i + 1][..i] == frames[..i];
    assert frames == frames[..i + 1] + frames[i + 1..];
    MembersJoin(frames[..i + 1], frames[i + 1..]);
  }

  lemma FrontLeaves(frames: seq<Frame>)
    requires frames != []
    ensures Members(frames[1..]) == Members(frames) - |frames[0].population|
  {
    assert frames == [frames[0]] + frames[1..];
    MembersJoin([frames[0]], frames[1..]);
    assert [frames[0]][..0] == [];
  }

  lemma Overfull(frames: seq<Frame>)
    requires |frames| > MAX_FRAMES || Members(frames) > MAX_MEMBERS
    ensures !Fits(frames)
  {
  }

  lemma WithinBudgets(frames: seq<Frame>)
    requires |frames| <= MAX_FRAMES && Members(frames) <= MAX_MEMBERS
    ensures Fits(frames)
  {
  }

  lemma AloneFits(f: Frame)
    requires |f.population| <= MAX_MEMBERS
    ensures Fits([f])
  {
    assert [f][..0] == [];
  }

  // ---------- Runs ----------

  datatype Cue = Cue(episode: string, reset: bool, now: int, stimulus: seq<seq<int>>)

  /** A reset, another episode, or a clock behind the newest frame starts the context afresh. */
  predicate Changes(c: Context, cue: Cue) {
    cue.reset || cue.episode != c.episode || (c.frames != [] && c.frames[|c.frames| - 1].at > cue.now)
  }

  function Prepared(c: Context, cue: Cue): Context {
    if Changes(c, cue) then Context(cue.episode, 0, 0, [])
    else c.(frames := Before(c.frames, c.cueStart, cue.now, false))
  }

  /** A fresh object: the engine's context is not touched. */
  method Prepare(s: ContextCell?, cue: Cue) returns (out: ContextCell, changed: bool)
    ensures fresh(out)
    ensures s == null ==> out.Value() == Context(cue.episode, 0, 0, []) && changed == cue.reset
    ensures s != null ==> out.Value() == Prepared(s.Value(), cue) && changed == Changes(s.Value(), cue)
  {
    out := new ContextCell(cue.episode);
    changed := if s == null then cue.reset else Changes(s.Value(), cue);
    if s != null && !changed {
      out.ordinal, out.cueStart := s.ordinal, s.cueStart;
      out.frames := Before(s.frames, s.cueStart, cue.now, false);
    }
  }

  ghost predicate CueGrounded(cue: Cue, known: Membership) {
    forall i | 0 <= i < |cue.stimulus| :: Grounded(cue.stimulus[i], known)
  }

  lemma {:induction false} CueFramesFacts(stimulus: seq<seq<int>>, now: int, ordinal: nat)
    ensures forall f | f in CueFrames(stimulus, now, ordinal) ::
              f.at == now && ordinal < f.ordinal <= ordinal + |stimulus| && f.population in stimulus
    ensures forall i, j | 0 <= i < j < |CueFrames(stimulus, now, ordinal)| ::
              CueFrames(stimulus, now, ordinal)[i].ordinal < CueFrames(stimulus, now, ordinal)[j].ordinal
  {
    if stimulus != [] {
      var rest := stimulus[..|stimulus| - 1];
      CueFramesFacts(rest, now, ordinal);
      assert stimulus == rest + [stimulus[|stimulus| - 1]];
      var kept := CueFrames(rest, now, ordinal);
      forall i | 0 <= i < |kept| ensures kept[i].ordinal <= ordinal + |rest| { assert kept[i] in kept; }
    }
  }

  lemma PreparedIsSound(c: Context, cue: Cue, known: Membership)
    requires Accepted(c, known)
    ensures var p := Prepared(c, cue);
            && Fits(p.frames) && Chronological(p.frames, p.ordinal) && p.cueStart <= p.ordinal + 1 && p.ordinal <= c.ordinal
            && (forall i | 0 <= i < |p.frames| :: Grounded(p.frames[i].population, known) && p.frames[i].at <= cue.now)
  {
    hide Grounded, EpisodeOk;
    var p := Prepared(c, cue);
    BeforeIsChronological(c.frames, c.ordinal, c.cueStart, cue.now, false);
    forall i | 0 <= i < |p.frames| ensures Grounded(p.frames[i].population, known) && p.frames[i].at <= cue.now {
      assert p.frames[i] in Before(c.frames, c.cueStart, cue.now, false);
      assert p.frames[i] in c.frames;
    }
  }

  /** The state after a cue is determined by its parts. */
  ghost predicate Observed(p: Context, cue: Cue, after: Context) {
    && after.episode == p.episode && after.cueStart == p.ordinal + 1 && after.ordinal == p.ordinal + |cue.stimulus|
    && LongestFitting(after.frames, p.frames + CueFrames(cue.stimulus, cue.now, p.ordinal))
  }

  /** Preparing and observing a grounded cue, at any clock reading and for any episode, keeps an accepted
      context accepted exactly when the episode is named properly, the ordinal stays in range, and the
      clock is past the zero time whenever a frame is kept. */
  lemma CueKeepsAccepted(c: Context, cue: Cue, after: Context, known: Membership)
    requires Accepted(c, known) && CueGrounded(cue, known) && Observed(Prepared(c, cue), cue, after)
    ensures Accepted(after, known) <==>
            EpisodeOk(cue.episode) && after.ordinal < 0x8000_0000_0000_0000 && (after.frames == [] || cue.now > 0)
  {
    hide Grounded, EpisodeOk, Fits, Members, CueFrames;
    var p := Prepared(c, cue);
    PreparedIsSound(c, cue, known);
    var entering := CueFrames(cue.stimulus, cue.now, p.ordinal);
    CueFramesFacts(cue.stimulus, cue.now, p.ordinal);
    var all := p.frames + entering;
    var d := |all| - |after.frames|;
    forall i | 0 <= i < |after.frames|
      ensures Grounded(after.frames[i].population, known) && 0 < after.frames[i].ordinal <= after.ordinal
      ensures after.frames[i].at <= cue.now && (cue.now > 0 ==> after.frames[i].at > 0)
    {
      assert after.frames[i] == all[d + i];
      if d + i >= |p.frames| { assert all[d + i] in entering; }
    }
    forall i, j | 0 <= i < j < |after.frames|
      ensures after.frames[i].ordinal < after.frames[j].ordinal && after.frames[i].at <= after.frames[j].at
    {
      InOrder(p.frames, entering, p.ordinal, cue.now, d + i, d + j);
    }
    assert after.frames != [] && cue.now <= 0 ==> after.frames[0].at <= 0;
  }

  lemma InOrder(kept: seq<Frame>, entering: seq<Frame>, ordinal: nat, now: int, i: nat, j: nat)
    requires Chronological(kept, ordinal) && i < j < |kept + entering|
    requires forall k | 0 <= k < |kept| :: kept[k].at <= now
    requires forall f | f in entering :: f.at == now && ordinal < f.ordinal
    requires forall k, l | 0 <= k < l < |entering| :: entering[k].ordinal < entering[l].ordinal
    ensures (kept + entering)[i].ordinal < (kept + entering)[j].ordinal && (kept + entering)[i].at <= (kept + entering)[j].at
  {
    var all := kept + entering;
    if j >= |kept| {
      assert all[j] in entering;
      if i >= |kept| { assert all[i] in entering; }
    }
  }

  /** Looking back with the cue excluded gives exactly the recent frames that the context already held
      before the latest cue and still holds: never a frame of that cue. */
  lemma LookBackSkipsCue(c: Context, cue: Cue, after: Context, known: Membership, now: int)
    requires Accepted(c, known) && Observed(Prepared(c, cue), cue, after)
    ensures var p := Prepared(c, cue);
            forall f :: f in Before(after.frames, after.cueStart, now, true) <==>
                        f in after.frames && f in p.frames && 0 <= now - f.at <= MAX_AGE
    ensures forall f | f in CueFrames(cue.stimulus, cue.now, Prepared(c, cue).ordinal) ::
              f !in Before(after.frames, after.cueStart, now, true)
  {
    hide Fits, Members, CueFrames, Grounded, EpisodeOk;
    var p := Prepared(c, cue);
    PreparedIsSound(c, cue, known);
    CueFramesFacts(cue.stimulus, cue.now, p.ordinal);
    var all := p.frames + CueFrames(cue.stimulus, cue.now, p.ordinal);
    forall f | f in after.frames ensures f in p.frames <==> f.ordinal < after.cueStart {
      assert f in all;
    }
  }

  /** A cue from the engine's context, as the activation step runs it. */
  method Step(s: ContextCell?, cue: Cue) returns (out: ContextCell)
    requires s != null ==> Fits(s.frames)
    ensures fresh(out)
    ensures Observed(if s == null then Context(cue.episode, 0, 0, []) else Prepared(s.Value(), cue), cue, out.Value())
  {
    hide CueFrames, LongestFitting;
    var changed;
    out, changed := Prepare(s, cue);
    out.Observe(cue.stimulus, cue.now);
  }

  ghost function Length(cues: seq<Cue>): nat {
    if cues == [] then 0 else Length(cues[..|cues| - 1]) + |cues[|cues| - 1].stimulus|
  }

  /** Every run from no context over grounded cues ends in an accepted context. */
  method Run(cues: seq<Cue>, known: Membership) returns (s: ContextCell?)
    requires forall i | 0 <= i < |cues| :: CueGrounded(cues[i], known) && EpisodeOk(cues[i].episode) && cues[i].now > 0
    requires Length(cues) < ORDINAL_LIMIT
    ensures s == null <==> cues == []
    ensures s != null ==> Accepted(s.Value(), known)
  {
    hide Accepted, CueGrounded, EpisodeOk, Observed, CueFrames;
    s := null;
    for i := 0 to |cues|
      invariant s == null <==> i == 0
      invariant s != null ==> fresh(s) && Accepted(s.Value(), known) && s.ordinal <= Length(cues[..i])
    {
      ghost var c := if s == null then Context(cues[i].episode, 0, 0, []) else s.Value();
      EmptyIsAccepted(cues[i].episode, known);
      AcceptedFits(c, known);
      LengthStep(cues, i);
      var out := Step(s, cues[i]);
      NextOrdinal(c, cues[i], out.Value());
      CueKeepsAccepted(c, cues[i], out.Value(), known);
      s := out;
    }
    assert cues[..|cues|] == cues;
  }

  lemma EmptyIsAccepted(episode: string, known: Membership)
    requires EpisodeOk(episode)
    ensures Accepted(Context(episode, 0, 0, []), known)
  {
  }

  lemma AcceptedFits(c: Context, known: Membership)
    requires Accepted(c, known)
    ensures Fits(c.frames)
  {
  }

  lemma NextOrdinal(c: Context, cue: Cue, after: Context)
    requires Observed(Prepared(c, cue), cue, after)
    ensures after.ordinal <= c.ordinal + |cue.stimulus|
  {
  }

  lemma {:induction false} LengthStep(cues: seq<Cue>, i: nat)
    requires i < |cues|
    ensures Length(cues[..i + 1]) == Length(cues[..i]) + |cues[i].stimulus| <= Length(cues)
    decreases |cues| - i
  {
    assert cues[..i + 1][..i] == cues[..i];
    if i + 1 < |cues| { LengthStep(cues, i + 1); } else { assert cues[..i + 1] == cues; }
  }

  /** An accepted context names no blank episode and holds only populations of registered neurons. */
  lemma AcceptedHolds(c: Context, known: Membership, f: Frame, id: int)
    requires Accepted(c, known)
    ensures c.episode == "" || !forall i | 0 <= i < |c.episode| :: IsSpace(c.episode[i])
    ensures f in c.frames ==> f.population != [] && 0 < f.ordinal <= c.ordinal && f.at > 0
    ensures f in c.frames && id in f.population ==> id > 0 && (known.Some? ==> id in known.value)
  {
  }

  /** An episode may be unnamed, but a name needs something that is not white space. */
  lemma EpisodeNames(left: string, c: char, right: string)
    ensures EpisodeOk("")
    ensures !IsSpace(c) ==> EpisodeOk(left + [c] + right)
    ensures left != "" && (forall i | 0 <= i < |left| :: IsSpace(left[i])) ==> !EpisodeOk(left)
  {
    assert (left + [c] + right)[|left|] == c;
  }

  // ---------- What a cue leaves ----------

  /** Frame i of the cue, unless it is too large to be kept at all. */
  ghost predicate FromCue(f: Frame, cue: Cue, base: nat, i: int) {
    0 <= i < |cue.stimulus| && |cue.stimulus[i]| <= 4096 && f == Frame(cue.stimulus[i], cue.now, base + i + 1)
  }

  lemma {:induction false} CueFramesAre(cue: Cue, n: nat, base: nat, f: Frame)
    requires n <= |cue.stimulus|
    ensures f in CueFrames(cue.stimulus[..n], cue.now, base) <==> exists i :: i < n && FromCue(f, cue, base, i)
  {
    if n > 0 {
      CueFramesAre(cue, n - 1, base, f);
      assert cue.stimulus[..n][..n - 1] == cue.stimulus[..n - 1];
      if FromCue(f, cue, base, n - 1) { assert n - 1 < n; }
    }
  }

  /** After a cue the context names the cue's episode and counts on from what it had, or from nothing after a
      reset, in another episode or behind a clock that ran backwards. It holds frames of the cue and, unless it
      started anew, earlier frames of the last two minutes; at most 64 frames and 4096 members. */
  lemma CueLeaves(c: Context, cue: Cue, after: Context, f: Frame)
    requires Observed(Prepared(c, cue), cue, after)
    ensures var anew := cue.reset || cue.episode != c.episode || (c.frames != [] && c.frames[|c.frames| - 1].at > cue.now);
            var base := if anew then 0 else c.ordinal;
            && after.episode == cue.episode && after.cueStart == base + 1 && after.ordinal == base + |cue.stimulus|
            && |after.frames| <= 64 && Members(after.frames) <= 4096
            && (f in after.frames ==>
                  (exists i :: FromCue(f, cue, base, i)) || (!anew && f in c.frames && 0 <= cue.now - f.at <= 120_000_000_000))
  {
    hide Members, FromCue;
    var p := Prepared(c, cue);
    var all := p.frames + CueFrames(cue.stimulus, cue.now, p.ordinal);
    if f in after.frames {
      assert f in all;
      assert cue.stimulus[..|cue.stimulus|] == cue.stimulus;
      CueFramesAre(cue, |cue.stimulus|, p.ordinal, f);
    }
  }

  /** A context that goes on holds exactly its frames of the last two minutes when a cue begins. */
  lemma GoesOnWith(c: Context, cue: Cue, f: Frame)
    requires !cue.reset && cue.episode == c.episode && (c.frames != [] ==> c.frames[|c.frames| - 1].at <= cue.now)
    ensures f in Prepared(c, cue).frames <==> f in c.frames && 0 <= cue.now - f.at <= 120_000_000_000
  {
  }

  /** A frame leaves only when the 64 frames or the 4096 members behind it leave it no room. */
  lemma EvictsOnlyWhenFull(p: Context, cue: Cue, after: Context)
    requires Observed(p, cue, after)
    ensures var all := p.frames + CueFrames(cue.stimulus, cue.now, p.ordinal);
            |after.frames| < |all| ==> |after.frames| == 64 || Members(all[|all| - |after.frames| - 1..]) > 4096
  {
    hide Members;
    var all := p.frames + CueFrames(cue.stimulus, cue.now, p.ordinal);
    if |after.frames| < |all| { assert !Fits(all[|all| - |after.frames| - 1..]); }
  }

  /** The last frame of a cue is kept whenever it fits alone. */
  lemma NewestIsKept(p: Context, cue: Cue, after: Context)
    requires Observed(p, cue, after) && cue.stimulus != [] && |cue.stimulus[|cue.stimulus| - 1]| <= 4096
    ensures after.frames != [] &&
            after.frames[|after.frames| - 1] == Frame(cue.stimulus[|cue.stimulus| - 1], cue.now, p.ordinal + |cue.stimulus|)
  {
    var all := p.frames + CueFrames(cue.stimulus, cue.now, p.ordinal);
    var last := Frame(cue.stimulus[|cue.stimulus| - 1], cue.now, p.ordinal + |cue.stimulus|);
    assert all[|all| - 1..] == [last] && [last][..0] == [];
    assert Fits(all[|all| - 1..]);
  }
}
