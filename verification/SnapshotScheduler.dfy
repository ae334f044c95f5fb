/** The coalescing snapshot scheduler: events arrive in any order, and `load` and `apply` may
    re-enter the scheduler, so every step between two awaits is a separate method. */
module SnapshotScheduler {
  import opened Options

  /** A JavaScript number, as the comparisons of the scheduler see it. */
  datatype Number = NotANumber | Infinity | Finite(value: real)

  const MAX_SAFE_INTEGER := 9007199254740991

  /** A JavaScript `<`: false whenever NaN is involved. */
  predicate Less(a: Number, b: nat) { a.Finite? && a.value < b as real }

  predicate Equal(a: Number, b: nat) { a.Finite? && a.value == b as real }

  predicate AtLeast(a: Number, b: nat) { a.Infinity? || (a.Finite? && a.value >= b as real) }

  predicate SafeRevision(r: Number) {
    r.Finite? && r.value.Floor as real == r.value && 0.0 <= r.value <= MAX_SAFE_INTEGER as real
  }

  lemma SafeIsNatural(r: Number)
    requires SafeRevision(r)
    ensures r.Finite? && r.value.Floor >= 0
  {
  }

  datatype Want = Want(revision: nat, hash: string)
  datatype Snapshot = Snapshot(revision: Number, hash: string)
  datatype Phase = Loading | Applying(snapshot: Snapshot)
  datatype Flight = Flight(epoch: nat, wanted: Want, waiting: nat, phase: Phase)
  datatype Settlement = Delivered(snapshot: Snapshot) | Dropped | Failed
  datatype Start = Start(time: real, epoch: nat)

  // ---------- What one read owes its coalesced requests ----------

  /** The hash that the latest hashed request at revision `r` asked for. */
  ghost function LastHash(asked: seq<Want>, r: nat): string {
    if asked == [] then ""
    else
      var last := asked[|asked| - 1];
      if last.revision == r && last.hash != "" then last.hash else LastHash(asked[..|asked| - 1], r)
  }

  /** `t` is the greatest revision asked for, with the latest hash given for that revision. */
  ghost predicate Covers(t: Want, asked: seq<Want>) {
    && (forall w | w in asked :: w.revision <= t.revision)
    && (exists w :: w in asked && w.revision == t.revision)
    && t.hash == LastHash(asked, t.revision)
  }

  /** A snapshot may be delivered: not behind any request, and with the wanted hash at its revision.
      As in the code, a revision that is not a number is never found behind. */
  ghost predicate Acceptable(s: Snapshot, asked: seq<Want>) {
    && (forall w | w in asked :: !Less(s.revision, w.revision))
    && (forall w | w in asked && Equal(s.revision, w.revision) ::
          LastHash(asked, w.revision) == "" || LastHash(asked, w.revision) == s.hash)
  }

  predicate Accepts(wanted: Want, s: Snapshot) {
    && !Less(s.revision, wanted.revision)
    && !(Equal(s.revision, wanted.revision) && wanted.hash != "" && s.hash != wanted.hash)
  }

  lemma AcceptedIsAcceptable(wanted: Want, s: Snapshot, asked: seq<Want>)
    requires Covers(wanted, asked) && Accepts(wanted, s)
    ensures Acceptable(s, asked)
  {
    forall w | w in asked && Equal(s.revision, w.revision)
      ensures LastHash(asked, w.revision) == "" || LastHash(asked, w.revision) == s.hash
    {
      assert w.revision == wanted.revision;
    }
  }

  /** A refused snapshot really is unacceptable: behind a request, or with another hash. */
  lemma RefusedIsUnacceptable(wanted: Want, s: Snapshot, asked: seq<Want>)
    requires Covers(wanted, asked) && !Accepts(wanted, s)
    ensures !Acceptable(s, asked)
  {
    var w :| w in asked && w.revision == wanted.revision;
  }

  /** A snapshot is good enough when it reaches every revision asked for and, at that very revision, carries the
      latest hash given for it; above all of them, and where no hash was given, any hash will do. */
  lemma AcceptableMeans(s: Snapshot, asked: seq<Want>)
    ensures s.revision.Finite? ==>
              (Acceptable(s, asked) <==>
               forall w | w in asked ::
                 && w.revision as real <= s.revision.value
                 && (w.revision as real == s.revision.value ==> LastHash(asked, w.revision) in {"", s.hash}))
    ensures !s.revision.Finite? ==> Acceptable(s, asked)
  {
  }

  /** The latest hash is the one of the last hashed request at that revision. */
  lemma {:induction false} LatestHash(asked: seq<Want>, later: seq<Want>, r: nat, hash: string)
    requires hash != "" && forall w | w in later && w.revision == r :: w.hash == ""
    ensures LastHash(asked + [Want(r, hash)] + later, r) == hash
    decreases |later|
  {
    var all := asked + [Want(r, hash)] + later;
    if later == [] {
      assert all == asked + [Want(r, hash)];
    } else {
      var m := |later| - 1;
      assert all[..|all| - 1] == asked + [Want(r, hash)] + later[..m] && all[|all| - 1] == later[m] && later[m] in later;
      LatestHash(asked, later[..m], r, hash);
    }
  }

  /** Delivered results reach every coalesced revision exactly when their revision is a number. */
  lemma NumericResultsAreFresh(s: Snapshot, asked: seq<Want>)
    requires asked != [] && Acceptable(s, asked)
    ensures (forall w | w in asked :: AtLeast(s.revision, w.revision)) <==> s.revision != NotANumber
  {
    assert asked[0] in asked;
  }

  /** The coalesced target after one more request. */
  function Merged(target: Option<Want>, w: Want): Want {
    if target.None? || w.revision > target.value.revision then w
    else if w.revision == target.value.revision && w.hash != "" then target.value.(hash := w.hash)
    else target.value
  }

  lemma {:induction false} NoHashAbove(asked: seq<Want>, r: nat)
    requires forall w | w in asked :: w.revision < r
    ensures LastHash(asked, r) == ""
  {
    if asked != [] {
      assert asked[|asked| - 1] in asked;
      NoHashAbove(asked[..|asked| - 1], r);
    }
  }

  lemma MergedCovers(target: Option<Want>, asked: seq<Want>, w: Want)
    requires if target.None? then asked == [] else Covers(target.value, asked)
    ensures Covers(Merged(target, w), asked + [w])
  {
    var all, t := asked + [w], Merged(target, w);
    assert all[..|all| - 1] == asked && all[|all| - 1] == w;
    if target.None? || w.revision > target.value.revision {
      NoHashAbove(asked, w.revision);
      assert w in all;
    } else {
      var was :| was in asked && was.revision == target.value.revision;
      assert was in all;
    }
  }

  // ---------- The promise ledger ----------

  /** Who owes which promise: promises are numbered in order of creation, `asked` records the requests
      that share one, and `applied` the snapshots that were handed to `apply`. */
  datatype Ledger = Ledger(issued: nat, settled: map<nat, Settlement>, asked: map<nat, seq<Want>>, pending: Option<nat>,
                           target: Option<Want>, flights: seq<Flight>, applied: seq<Snapshot>)

  ghost predicate Awaited(p: nat, flights: seq<Flight>) {
    exists i :: 0 <= i < |flights| && flights[i].waiting == p
  }

  /** No promise is lost: each one is settled, pending or awaited by a run, and only one of these. */
  ghost predicate Accounted(l: Ledger) {
    && (forall p :: p in l.asked <==> 0 <= p < l.issued)
    && (forall p | p in l.asked :: l.asked[p] != [])
    && (forall p | p in l.settled :: p < l.issued)
    && (l.pending.Some? ==> l.pending.value < l.issued && l.pending.value !in l.settled)
    && (forall i | 0 <= i < |l.flights| ::
          l.flights[i].waiting < l.issued && l.flights[i].waiting !in l.settled && l.pending != Some(l.flights[i].waiting))
    && (forall p: nat | p < l.issued && p !in l.settled :: l.pending == Some(p) || Awaited(p, l.flights))
  }

  /** The target and every captured target cover their requests, and only acceptable, applied
      snapshots are delivered. */
  ghost predicate Owed(l: Ledger)
    requires Accounted(l)
  {
    && l.target.Some? == l.pending.Some?
    && (l.pending.Some? ==> Covers(l.target.value, l.asked[l.pending.value]))
    && (forall i | 0 <= i < |l.flights| :: Covers(l.flights[i].wanted, l.asked[l.flights[i].waiting]))
    && (forall i | 0 <= i < |l.flights| && l.flights[i].phase.Applying? ::
          Acceptable(l.flights[i].phase.snapshot, l.asked[l.flights[i].waiting]) && l.flights[i].phase.snapshot in l.applied)
    && (forall p | p in l.settled && l.settled[p].Delivered? ::
          Acceptable(l.settled[p].snapshot, l.asked[p]) && l.settled[p].snapshot in l.applied)
  }

  ghost predicate Sound(l: Ledger) { Accounted(l) && Owed(l) }

  ghost function AfterRequest(l: Ledger, w: Want): Ledger
    requires l.pending.Some? ==> l.pending.value in l.asked
  {
    var p := if l.pending.Some? then l.pending.value else l.issued;
    var before := if l.pending.Some? then l.asked[p] else [];
    l.(issued := if l.pending.Some? then l.issued else l.issued + 1, pending := Some(p),
       target := Some(Merged(l.target, w)), asked := l.asked[p := before + [w]])
  }

  lemma RequestKeepsLedger(l: Ledger, w: Want)
    requires Sound(l)
    ensures l.pending.Some? ==> l.pending.value in l.asked
    ensures Sound(AfterRequest(l, w))
  {
    hide Covers, Acceptable, Merged;
    MergedCovers(l.target, if l.pending.Some? then l.asked[l.pending.value] else [], w);
  }

  lemma ResetKeepsLedger(l: Ledger)
    requires Sound(l)
    ensures var settled := if l.pending.Some? then l.settled[l.pending.value := Dropped] else l.settled;
            Sound(l.(pending := None, target := None, settled := settled))
  {
    hide Covers, Acceptable;
  }

  lemma LaunchKeepsLedger(l: Ledger, run: Flight)
    requires Sound(l) && l.flights == [] && l.pending == Some(run.waiting) && l.target == Some(run.wanted) && run.phase.Loading?
    ensures Sound(l.(pending := None, target := None, flights := [run]))
  {
    hide Covers, Acceptable;
    assert [run][0].waiting == run.waiting;
    assert Awaited(run.waiting, [run]);
  }

  lemma ApplyKeepsLedger(l: Ledger, s: Snapshot)
    requires Sound(l) && |l.flights| == 1 && Acceptable(s, l.asked[l.flights[0].waiting])
    ensures Sound(l.(applied := l.applied + [s], flights := [l.flights[0].(phase := Applying(s))]))
  {
    hide Covers, Acceptable;
    forall p | Awaited(p, l.flights) ensures Awaited(p, [l.flights[0].(phase := Applying(s))]) {
      assert [l.flights[0].(phase := Applying(s))][0].waiting == p;
    }
  }

  lemma FinishKeepsLedger(l: Ledger, outcome: Settlement)
    requires Sound(l) && |l.flights| == 1
    requires outcome.Delivered? ==> Acceptable(outcome.snapshot, l.asked[l.flights[0].waiting]) && outcome.snapshot in l.applied
    ensures Sound(l.(flights := [], settled := l.settled[l.flights[0].waiting := outcome]))
  {
    hide Covers, Acceptable;
  }

  /** No promise that is still owed has been settled. */
  lemma OwedAreOpen(l: Ledger)
    requires Sound(l)
    ensures l.pending.Some? ==> l.pending.value !in l.settled
    ensures forall i | 0 <= i < |l.flights| :: l.flights[i].waiting !in l.settled
  {
    hide Owed;
  }

  // ---------- The scheduler ----------

  /** Consecutive starts of one epoch are an interval apart; epochs never go back. */
  ghost predicate Spaced(starts: seq<Start>, interval: real) {
    forall i | 0 < i < |starts| ::
      && starts[i - 1].epoch <= starts[i].epoch
      && (starts[i - 1].epoch == starts[i].epoch ==> starts[i].time >= starts[i - 1].time + interval)
  }

  /** `lastStart` is the last start of the current epoch, and an armed timer keeps the interval. */
  ghost predicate Timed(starts: seq<Start>, interval: real, generation: nat, lastStart: Option<real>, timer: Option<real>) {
    && Spaced(starts, interval)
    && (starts != [] ==> starts[|starts| - 1].epoch <= generation)
    && lastStart == (if starts != [] && starts[|starts| - 1].epoch == generation
                     then Some(starts[|starts| - 1].time) else None)
    && (timer.Some? && lastStart.Some? ==> timer.value >= lastStart.value + interval)
  }

  lemma StartKeepsTime(starts: seq<Start>, interval: real, generation: nat, lastStart: Option<real>, timer: Option<real>, now: real)
    requires Timed(starts, interval, generation, lastStart, timer) && timer.Some? && now >= timer.value
    ensures Timed(starts + [Start(now, generation)], interval, generation, Some(now), None)
  {
  }

  class Scheduler {
    const interval: real
    var target: Option<Want>
    var pending: Option<nat>
    var timer: Option<real>
    var running: bool
    var lastStart: Option<real>
    var generation: nat
    /** The suspended calls of `run`, with the locals they captured. */
    var flights: seq<Flight>
    var issued: nat
    ghost var settled: map<nat, Settlement>
    ghost var asked: map<nat, seq<Want>>
    ghost var starts: seq<Start>
    ghost var applied: seq<Snapshot>
    /** When the timer was last armed. */
    ghost var armedAt: real

    ghost function Book(): Ledger
      reads this`issued, this`settled, this`asked, this`pending, this`target, this`flights, this`applied
    {
      Ledger(issued, settled, asked, pending, target, flights, applied)
    }

    /** A load in flight and an armed timer exclude each other. */
    ghost predicate Exclusive()
      reads this`flights, this`running, this`timer, this`target, this`pending, this`generation
    {
      && |flights| <= 1 && running == (flights != [])
      && !(running && timer.Some?)
      && (target.Some? == pending.Some?)
      && (timer.Some? ==> pending.Some?)
      && (running ==> flights[0].epoch <= generation)
    }

    /** An armed timer is due when it was armed or, if that is later, an interval after the last start. */
    ghost predicate Prompt()
      reads this`timer, this`lastStart, this`armedAt
    {
      timer.Some? ==>
        && timer.value >= armedAt && (lastStart.Some? ==> timer.value >= lastStart.value + interval)
        && (timer.value == armedAt || (lastStart.Some? && timer.value == lastStart.value + interval))
    }

    /** Pending work always has a timer or a running load. */
    ghost predicate Valid()
      reads this
    {
      && Exclusive() && Prompt() && (pending.Some? ==> timer.Some? || running)
      && Sound(Book()) && Timed(starts, interval, generation, lastStart, timer)
    }

    constructor (interval: real)
      ensures Valid() && issued == 0 && settled == map[] && starts == []
      ensures this.interval == interval && timer.None? && !running && pending.None? && generation == 0
    {
      this.interval := interval;
      target, pending, timer, running, lastStart, generation := None, None, None, false, None, 0;
      flights, issued, settled, asked, starts, applied, armedAt := [], 0, map[], map[], [], [], 0.0;
    }

    method Arm(now: real)
      requires Exclusive() && Prompt() && Timed(starts, interval, generation, lastStart, timer)
      modifies this`timer, this`armedAt
      ensures Exclusive() && Prompt() && Timed(starts, interval, generation, lastStart, timer)
      ensures pending.Some? ==> timer.Some? || running
      ensures running || old(timer).Some? || pending.None? ==> timer == old(timer) && armedAt == old(armedAt)
      ensures timer != old(timer) ==> armedAt == now
      ensures old(timer).None? && timer.Some? && lastStart.None? ==> timer.value == now
    {
      hide Spaced;
      if running || timer.Some? || pending.None? { return; }
      var due := if lastStart.None? then now else lastStart.value + interval;
      timer := Some(if due > now then due else now);
      armedAt := now;
    }

    /** An invalid revision is refused without a trace; any other request joins the pending promise. */
    method Request(revision: Number, hash: string, now: real) returns (promise: Option<nat>)
      requires Valid()
      modifies this`target, this`pending, this`issued, this`asked, this`timer, this`armedAt
      ensures Valid() && promise.Some? == SafeRevision(revision)
      ensures promise.None? ==> Book() == old(Book()) && timer == old(timer)
      ensures timer != old(timer) ==> old(timer).None? && armedAt == now
      ensures old(timer).Some? ==> timer == old(timer) && armedAt == old(armedAt)
      ensures promise.Some? ==>
                var p, w := promise.value, Want(revision.value.Floor, hash);
                && pending == promise
                && p == old(if pending.Some? then pending.value else issued)
                && issued == old(if pending.Some? then issued else issued + 1)
                && asked == old(asked)[p := old(if pending.Some? then asked[pending.value] else []) + [w]]
    {
      hide Sound, Timed, SafeRevision, Merged;
      if !SafeRevision(revision) { return None; }
      SafeIsNatural(revision);
      var w := Want(revision.value.Floor, hash);
      RequestKeepsLedger(Book(), w);
      ghost var next := AfterRequest(Book(), w);
      target := Some(Merged(target, w));
      asked := next.asked;
      if pending.None? {
        pending := Some(issued);
        issued := issued + 1;
      }
      assert Book() == next;
      promise := pending;
      Arm(now);
    }

    /** A reset forgets queued work and its promise; a load already in flight keeps running. */
    method Reset()
      requires Valid()
      modifies this`generation, this`target, this`pending, this`timer, this`lastStart, this`settled
      ensures Valid() && generation == old(generation) + 1
      ensures target.None? && pending.None? && timer.None? && lastStart.None?
      ensures settled == if old(pending).Some? then old(settled)[old(pending).value := Dropped] else old(settled)
    {
      hide Sound, Spaced;
      ResetKeepsLedger(Book());
      generation := generation + 1;
      target, lastStart, timer := None, None, None;
      if pending.Some? {
        settled := settled[pending.value := Dropped];
      }
      pending := None;
    }

    /** `run` up to its await. Timers never fire early. */
    method TimerFires(now: real)
      requires Valid() && timer.Some? && now >= timer.value
      modifies this`timer, this`running, this`lastStart, this`flights, this`target, this`pending, this`starts
      ensures Valid() && running && lastStart == Some(now)
      ensures flights == [Flight(generation, old(target).value, old(pending).value, Loading)]
      ensures target.None? && pending.None? && timer.None?
      ensures starts == old(starts) + [Start(now, generation)]
    {
      hide Sound, Timed;
      var run := Flight(generation, target.value, pending.value, Loading);
      LaunchKeepsLedger(Book(), run);
      StartKeepsTime(starts, interval, generation, lastStart, timer, now);
      timer, running, lastStart := None, true, Some(now);
      starts := starts + [Start(now, generation)];
      flights := flights + [run];
      target, pending := None, None;
      assert flights == [run];
    }

    /** The end of `run`: its promise settles, the slot frees up and queued work is armed again. */
    method Finish(i: nat, outcome: Settlement, now: real)
      requires Valid() && i < |flights|
      requires outcome.Delivered? ==> Acceptable(outcome.snapshot, asked[flights[i].waiting]) && outcome.snapshot in applied
      modifies this`running, this`flights, this`settled, this`timer, this`armedAt
      ensures Valid() && !running && flights == []
      ensures timer.Some? == pending.Some? && (timer.Some? ==> armedAt == now)
      ensures settled == old(settled)[old(flights)[i].waiting := outcome]
    {
      hide Sound, Timed, Acceptable;
      FinishKeepsLedger(Book(), outcome);
      settled := settled[flights[i].waiting := outcome];
      flights := flights[..i] + flights[i + 1..];
      running := false;
      Arm(now);
    }

    /** `load` resolves. A run from before a reset is dropped unapplied, an unacceptable snapshot
        is an error, and anything else is handed to `apply`. */
    method LoadReturns(i: nat, snapshot: Snapshot, now: real)
      requires Valid() && i < |flights| && flights[i].phase.Loading?
      modifies this`running, this`flights, this`settled, this`timer, this`armedAt, this`applied
      ensures Valid() && (timer.Some? ==> armedAt == now)
      ensures var run := old(flights)[i];
              if run.epoch == generation && Acceptable(snapshot, asked[run.waiting]) then
                && flights == [run.(phase := Applying(snapshot))]
                && applied == old(applied) + [snapshot] && settled == old(settled)
              else
                && flights == [] && applied == old(applied)
                && settled == old(settled)[run.waiting := if run.epoch == generation then Failed else Dropped]
    {
      hide Covers, Acceptable, Accepts, Timed;
      var run := flights[i];
      if run.epoch != generation {
        Finish(i, Dropped, now);
      } else if !Accepts(run.wanted, snapshot) {
        RefusedIsUnacceptable(run.wanted, snapshot, asked[run.waiting]);
        Finish(i, Failed, now);
      } else {
        AcceptedIsAcceptable(run.wanted, snapshot, asked[run.waiting]);
        ApplyKeepsLedger(Book(), snapshot);
        applied := applied + [snapshot];
        flights := flights[i := run.(phase := Applying(snapshot))];
        assert flights == [run.(phase := Applying(snapshot))];
      }
    }

    /** `load` rejects or `apply` throws: an error for a current run, null for a stale one. */
    method RunThrows(i: nat, now: real)
      requires Valid() && i < |flights|
      modifies this`running, this`flights, this`settled, this`timer, this`armedAt
      ensures Valid() && flights == []
      ensures timer.Some? == pending.Some? && (timer.Some? ==> armedAt == now)
      ensures var run := old(flights)[i];
              settled == old(settled)[run.waiting := if run.epoch == generation then Failed else Dropped]
    {
      hide Sound, Timed, Covers, Acceptable;
      Finish(i, if flights[i].epoch == generation then Failed else Dropped, now);
    }

    /** `apply` returns; it may have called `request` or `reset` meanwhile. */
    method ApplyReturns(i: nat, now: real)
      requires Valid() && i < |flights| && flights[i].phase.Applying?
      modifies this`running, this`flights, this`settled, this`timer, this`armedAt
      ensures Valid() && flights == []
      ensures timer.Some? == pending.Some? && (timer.Some? ==> armedAt == now)
      ensures settled == old(settled)[old(flights)[i].waiting := Delivered(old(flights)[i].phase.snapshot)]
    {
      Finish(i, Delivered(flights[i].phase.snapshot), now);
    }

    predicate Enabled(e: Event, now: real)
      reads this`timer, this`flights
    {
      match e
      case Asks(_, _) => true
      case Resets => true
      case TimerDue => timer.Some? && now >= timer.value
      case Loaded(i, _) => i < |flights| && flights[i].phase.Loading?
      case Threw(i) => i < |flights|
      case Returned(i) => i < |flights| && flights[i].phase.Applying?
    }

    /** Any enabled event keeps every settlement: a promise settles at most once. */
    method Step(e: Event, now: real)
      requires Valid() && Enabled(e, now)
      modifies this
      ensures Valid() && Extends(old(settled), settled) && old(issued) <= issued
      ensures timer.Some? ==> armedAt == now || (old(timer).Some? && armedAt == old(armedAt))
    {
      hide Sound, Timed, Prompt, Covers, Acceptable, SafeRevision;
      OwedAreOpen(Book());
      match e {
        case Asks(revision, hash) => var _ := Request(revision, hash, now);
        case Resets => Reset();
        case TimerDue => TimerFires(now);
        case Loaded(i, snapshot) => LoadReturns(i, snapshot, now);
        case Threw(i) => RunThrows(i, now);
        case Returned(i) => ApplyReturns(i, now);
      }
    }
  }

  datatype Event = Asks(revision: Number, hash: string) | Resets | TimerDue | Loaded(run: nat, snapshot: Snapshot)
                 | Threw(run: nat) | Returned(run: nat)

  ghost predicate Extends(before: map<nat, Settlement>, after: map<nat, Settlement>) {
    forall p | p in before :: p in after && after[p] == before[p]
  }

  /** What a caller holding a promise learns from its settlement. */
  ghost predicate Kept(settled: map<nat, Settlement>, asked: map<nat, seq<Want>>) {
    forall p | p in settled && settled[p].Delivered? ::
      var s := settled[p].snapshot;
      && p in asked && Acceptable(s, asked[p])
      && ((forall w | w in asked[p] :: AtLeast(s.revision, w.revision)) <==> s.revision != NotANumber)
  }

  lemma LedgerIsKept(l: Ledger)
    requires Sound(l)
    ensures Kept(l.settled, l.asked)
    ensures l.pending.None? && l.flights == [] ==> forall p: nat | p < l.issued :: p in l.settled
  {
    hide Covers, Acceptable;
    forall p | p in l.settled && l.settled[p].Delivered?
      ensures (forall w | w in l.asked[p] :: AtLeast(l.settled[p].snapshot.revision, w.revision))
              <==> l.settled[p].snapshot.revision != NotANumber
    {
      NumericResultsAreFresh(l.settled[p].snapshot, l.asked[p]);
    }
  }

  /** Any interleaving of events. `history[k]` is the settlements before event k. */
  method Drive(interval: real, events: seq<(Event, real)>) returns (s: Scheduler, ghost history: seq<map<nat, Settlement>>)
    ensures fresh(s) && s.Valid()
    ensures |s.flights| <= 1 && !(s.running && s.timer.Some?) && s.target.Some? == s.pending.Some?
    ensures s.pending.Some? ==> s.timer.Some? || s.running
    ensures !s.running && s.timer.None? ==> forall p: nat | p < s.issued :: p in s.settled
    ensures |history| == |events| && forall k | 0 <= k < |history| :: Extends(history[k], s.settled)
    ensures Spaced(s.starts, interval) && Kept(s.settled, s.asked)
    // Work never waits longer than the interval asks: the timer runs from one of the events.
    ensures s.timer.Some? ==> s.Prompt() && s.interval == interval && exists k :: 0 <= k < |events| && events[k].1 == s.armedAt
  {
    hide Sound, Kept, Spaced;
    s := new Scheduler(interval);
    history := [];
    for k := 0 to |events|
      invariant fresh(s) && s.Valid() && s.interval == interval
      invariant s.timer.Some? ==> exists j :: 0 <= j < k && events[j].1 == s.armedAt
      invariant |history| == k && forall j | 0 <= j < k :: Extends(history[j], s.settled)
    {
      history := history + [s.settled];
      if s.Enabled(events[k].0, events[k].1) {
        s.Step(events[k].0, events[k].1);
      }
    }
    LedgerIsKept(s.Book());
  }

  /** Nothing about a revision that is not a number is ever refused. */
  lemma NotANumberIsAcceptable(hash: string, asked: seq<Want>)
    ensures Acceptable(Snapshot(NotANumber, hash), asked)
  {
  }

  /** So it is delivered although it reaches no requested revision. */
  method NotANumberIsDelivered(revision: nat, hash: string) returns (s: Scheduler, promise: nat)
    requires revision <= MAX_SAFE_INTEGER
    ensures promise in s.settled && s.settled[promise] == Delivered(Snapshot(NotANumber, hash))
    ensures promise in s.asked && s.asked[promise] == [Want(revision, "")]
    ensures !AtLeast(NotANumber, revision)
  {
    hide Sound, Timed, Acceptable, SafeRevision;
    s := new Scheduler(1000.0);
    NaturalIsSafe(revision);
    var p := s.Request(Finite(revision as real), "", 0.0);
    promise := p.value;
    s.TimerFires(s.timer.value);
    NotANumberIsAcceptable(hash, s.asked[promise]);
    s.LoadReturns(0, Snapshot(NotANumber, hash), 0.0);
    s.ApplyReturns(0, 0.0);
  }

  /** The revisions taken are the natural numbers below 2^53. */
  lemma SafeRevisions(r: Number, n: nat)
    ensures SafeRevision(r) ==> r == Finite(r.value.Floor as real) && 0 <= r.value.Floor < 0x20_0000_0000_0000
    ensures SafeRevision(Finite(n as real)) <==> n < 0x20_0000_0000_0000
  {
    if SafeRevision(r) { SafeIsNatural(r); }
  }

  lemma NaturalIsSafe(r: nat)
    requires r <= MAX_SAFE_INTEGER
    ensures SafeRevision(Finite(r as real)) && (r as real).Floor == r
  {
  }
}
