/**
 EDM174 communication trace: a fixed ring of the last cycles before a fault,
 put in chronological order in place by three reversals, and running maxima.
 */
module CommTrace {
  import opened Numbers

  const HISTORY_CAPACITY: nat := 20

  /** One cycle; flags is the set of raised bit numbers. */
  datatype Cycle = Cycle(
    tick: u64, startNs: u64, commStartNs: u64, commEndNs: u64, motionStartNs: u64, motionEndNs: u64, endNs: u64,
    txBeforeQpc: u64, txAfterQpc: u64, rxAfterQpc: u64, prevStartNs: u64, prevEndNs: u64,
    lrwWkc: int, dcWkc: int, expectedWkc: int,
    phaseBefore: u32, phaseAfter: u32, childBefore: u32, childAfter: u32, flags: set<nat>)

  const ZERO := Cycle(0, 0, 0, 0, 0, 0, 0, 0, 0, 0, 0, 0, 0, 0, 0, 0, 0, 0, 0, {})

  const MOTION_OUTSIDE_CALLBACK: nat := 15
  const COMM_OUTSIDE_CALLBACK: nat := 14
  const PREVIOUS_CYCLE_MISSING: nat := 17

  const DERIVED: set<nat> := set b: nat | 8 <= b < 24

  // ------------------------------------------------------------ derived flags

  datatype Previous = None | Some(cycle: Cycle)

  function StartOf(p: Previous): u64 { if p.Some? then p.cycle.startNs else 0 }

  function EndOf(p: Previous): u64 { if p.Some? then p.cycle.endNs else 0 }

  predicate Backwards(first: nat, second: nat) { first != 0 && second != 0 && second < first }

  /** Whether Validate raises flag bit b; stored is the session's frequency. */
  predicate Raised(b: nat, c: Cycle, previous: Previous, stored: u64, frequency: u64) {
    || (b == 8 && (c.startNs == 0 || c.endNs == 0))
    || (b == 9 && Backwards(c.startNs, c.endNs))
    || (b == 10 && (c.commStartNs == 0 || c.commEndNs == 0))
    || (b == 11 && Backwards(c.commStartNs, c.commEndNs))
    || (b == 12 && (c.motionStartNs == 0 || c.motionEndNs == 0))
    || (b == 13 && Backwards(c.motionStartNs, c.motionEndNs))
    || (b == COMM_OUTSIDE_CALLBACK && (Backwards(c.startNs, c.commStartNs) || Backwards(c.commEndNs, c.endNs)))
    || (b == MOTION_OUTSIDE_CALLBACK && (Backwards(c.startNs, c.motionStartNs) || Backwards(c.motionEndNs, c.endNs)))
    || (b == 16 && Backwards(c.commEndNs, c.motionStartNs))
    || (b == PREVIOUS_CYCLE_MISSING && (previous.None? || c.startNs == 0 || StartOf(previous) == 0))
    || (b == 18 && Backwards(StartOf(previous), c.startNs))
    || (b == 19 && (c.txBeforeQpc == 0 || c.txAfterQpc == 0 || c.rxAfterQpc == 0))
    || (b == 20 && c.txBeforeQpc != 0 && c.txAfterQpc != 0 && c.rxAfterQpc != 0
        && (c.txAfterQpc < c.txBeforeQpc || c.rxAfterQpc < c.txAfterQpc))
    || (b == 21 && frequency == 0)
    || (b == 22 && frequency != 0 && stored != frequency)
    || (b == 23 && Backwards(EndOf(previous), c.startNs))
  }

  /** The derived flags a cycle gets, whatever its supplied ones. */
  function Derived(c: Cycle, previous: Previous, stored: u64, frequency: u64): set<nat> {
    set b: nat | 8 <= b < 24 && Raised(b, c, previous, stored, frequency)
  }

  /** The cycle that is recorded for a supplied one. */
  function Prepared(supplied: Cycle, previous: Previous, stored: u64, frequency: u64): Cycle {
    supplied.(
      prevStartNs := StartOf(previous), prevEndNs := EndOf(previous),
      flags := (supplied.flags - DERIVED) + Derived(supplied, previous, stored, frequency))
  }

  function StoredFrequency(stored: u64, frequency: u64): u64 { if stored == 0 then frequency else stored }

  /** The condition under which a recorded cycle counts as an invalid-timing cycle. */
  predicate InvalidTiming(c: Cycle) { c.flags * (DERIVED - {PREVIOUS_CYCLE_MISSING}) != {} }

  /**
   A recorded cycle escapes the invalid-timing count exactly when all its stamps are present
   and ordered, it does not run into its predecessor, and its clock frequency is the session's.
   */
  lemma TimingIsValidExactlyWhenOrdered(supplied: Cycle, previous: Previous, stored: u64, frequency: u64)
    ensures var c := supplied;
            !InvalidTiming(Prepared(supplied, previous, stored, frequency)) <==>
              && 0 < c.startNs <= c.commStartNs <= c.commEndNs <= c.motionStartNs <= c.motionEndNs <= c.endNs
              && 0 < c.txBeforeQpc <= c.txAfterQpc <= c.rxAfterQpc
              && StartOf(previous) <= c.startNs && EndOf(previous) <= c.startNs
              && 0 < frequency == stored
  {
    var flags := Prepared(supplied, previous, stored, frequency).flags;
    var bad := DERIVED - {PREVIOUS_CYCLE_MISSING};
    forall b: nat | 8 <= b < 24
      ensures b in flags <==> Raised(b, supplied, previous, stored, frequency)
    {
    }
    if InvalidTiming(Prepared(supplied, previous, stored, frequency)) {
      var b :| b in flags * bad;
      assert Raised(b, supplied, previous, stored, frequency) && b != PREVIOUS_CYCLE_MISSING;
    } else {
      forall b: nat | 8 <= b < 24 && b != PREVIOUS_CYCLE_MISSING
        ensures !Raised(b, supplied, previous, stored, frequency)
      {
        assert b in bad;
        assert b !in flags * bad;
      }
      var p, s, f := previous, stored, frequency;
      assert !Raised(8, supplied, p, s, f) && !Raised(9, supplied, p, s, f) && !Raised(10, supplied, p, s, f);
      assert !Raised(11, supplied, p, s, f) && !Raised(12, supplied, p, s, f) && !Raised(13, supplied, p, s, f);
      assert !Raised(14, supplied, p, s, f) && !Raised(15, supplied, p, s, f) && !Raised(16, supplied, p, s, f);
      assert !Raised(18, supplied, p, s, f) && !Raised(19, supplied, p, s, f) && !Raised(20, supplied, p, s, f);
      assert !Raised(21, supplied, p, s, f) && !Raised(22, supplied, p, s, f) && !Raised(23, supplied, p, s, f);
    }
  }

  // ----------------------------------------------------------------- maxima

  datatype Kind = Callback | Motion | Comm | StartGap

  /** Elapsed time of SafeElapsed: both stamps present and not backwards. */
  predicate Safe(first: nat, second: nat) { first != 0 && second != 0 && first <= second }

  predicate Eligible(kind: Kind, c: Cycle) {
    match kind
    case Callback => Safe(c.startNs, c.endNs)
    case Motion => MOTION_OUTSIDE_CALLBACK !in c.flags && Safe(c.motionStartNs, c.motionEndNs)
    case Comm => COMM_OUTSIDE_CALLBACK !in c.flags && Safe(c.commStartNs, c.commEndNs)
    case StartGap => Safe(c.prevStartNs, c.startNs)
  }

  function Elapsed(kind: Kind, c: Cycle): nat
    requires Eligible(kind, c)
  {
    match kind
    case Callback => c.endNs - c.startNs
    case Motion => c.motionEndNs - c.motionStartNs
    case Comm => c.commEndNs - c.commStartNs
    case StartGap => c.startNs - c.prevStartNs
  }

  /** The three stamped stretches of a cycle. */
  datatype Stretch = WholeCallback | CommPart | MotionPart

  function First(x: Stretch, c: Cycle): nat {
    match x case WholeCallback => c.startNs case CommPart => c.commStartNs case MotionPart => c.motionStartNs
  }

  function Last(x: Stretch, c: Cycle): nat {
    match x case WholeCallback => c.endNs case CommPart => c.commEndNs case MotionPart => c.motionEndNs
  }

  function Number(x: Stretch): nat { match x case WholeCallback => 0 case CommPart => 1 case MotionPart => 2 }

  /** The part does not reach beyond the stamps its callback has. */
  predicate Inside(x: Stretch, c: Cycle) {
    && (c.startNs != 0 && First(x, c) != 0 ==> c.startNs <= First(x, c))
    && (c.endNs != 0 && Last(x, c) != 0 ==> Last(x, c) <= c.endNs)
  }

  /**
   The recorded flags name the fault: for each stretch one flag for a missing stamp and one for a reversed pair,
   so that it has neither exactly when its elapsed time is safe, and for each part one flag for leaving its callback.
   */
  lemma FlagsNameTheFault(supplied: Cycle, previous: Previous, stored: u64, frequency: u64, x: Stretch)
    ensures var flags := Prepared(supplied, previous, stored, frequency).flags;
            var first, last := First(x, supplied), Last(x, supplied);
            && (8 + 2 * Number(x) in flags <==> first == 0 || last == 0)
            && (9 + 2 * Number(x) in flags <==> 0 < last < first)
            && (8 + 2 * Number(x) !in flags && 9 + 2 * Number(x) !in flags <==> Safe(first, last))
            && (x != WholeCallback ==> (13 + Number(x) in flags <==> !Inside(x, supplied)))
  {
  }

  /** The three faults between the stretches, the callbacks and the clocks. */
  lemma FlagsNameTheNeighbour(supplied: Cycle, previous: Previous, stored: u64, frequency: u64)
    ensures var c, flags := supplied, Prepared(supplied, previous, stored, frequency).flags;
            && (16 in flags <==> 0 < c.motionStartNs < c.commEndNs)
            && (17 in flags <==> previous.None? || c.startNs == 0 || previous.cycle.startNs == 0)
            && (17 !in flags ==> (18 in flags <==> c.startNs < previous.cycle.startNs))
            && (23 in flags <==> previous.Some? && 0 < c.startNs < previous.cycle.endNs)
            && (19 !in flags && 20 !in flags <==> 0 < c.txBeforeQpc <= c.txAfterQpc <= c.rxAfterQpc)
            && (19 in flags <==> 0 in {c.txBeforeQpc, c.txAfterQpc, c.rxAfterQpc})
            && (21 in flags <==> frequency == 0) && (22 in flags <==> frequency != 0 && frequency != stored)
            && forall b :: b < 8 || b >= 24 ==> (b in flags <==> b in c.flags)
  {
  }

  /** What a recorded cycle enters each maximum with: the ordered stamps of that stretch, inside its callback. */
  lemma EligibleExactly(supplied: Cycle, previous: Previous, stored: u64, frequency: u64)
    ensures var c := Prepared(supplied, previous, stored, frequency);
            && (Eligible(Callback, c) <==> 0 < supplied.startNs <= supplied.endNs)
            && (Eligible(Motion, c) <==>
                  0 < supplied.motionStartNs <= supplied.motionEndNs && Inside(MotionPart, supplied))
            && (Eligible(Comm, c) <==>
                  0 < supplied.commStartNs <= supplied.commEndNs && Inside(CommPart, supplied))
            && (Eligible(StartGap, c) <==> previous.Some? && 0 < previous.cycle.startNs <= supplied.startNs)
  {
  }

  /** Index of the cycle a running maximum retains, or -1. */
  function Best(kind: Kind, log: seq<Cycle>): (i: int)
    ensures -1 <= i < |log| && (i >= 0 ==> Eligible(kind, log[i]))
  {
    if log == [] then -1
    else
      var rest, last := log[..|log| - 1], log[|log| - 1];
      var i := Best(kind, rest);
      if Eligible(kind, last) && (i < 0 || Elapsed(kind, last) > Elapsed(kind, rest[i])) then |log| - 1 else i
  }

  /** Cycle i has the largest elapsed time of its kind, and no earlier cycle has as much. */
  ghost predicate FirstMaximum(kind: Kind, log: seq<Cycle>, i: nat) {
    && i < |log| && Eligible(kind, log[i])
    && (forall j :: 0 <= j < |log| && Eligible(kind, log[j]) ==> Elapsed(kind, log[j]) <= Elapsed(kind, log[i]))
    && (forall j :: 0 <= j < i && Eligible(kind, log[j]) ==> Elapsed(kind, log[j]) < Elapsed(kind, log[i]))
  }

  /** The retained cycle is the first one that attains the maximum over all eligible cycles. */
  lemma {:induction false} BestIsMaximum(kind: Kind, log: seq<Cycle>)
    ensures if Best(kind, log) < 0 then forall j :: 0 <= j < |log| ==> !Eligible(kind, log[j])
            else FirstMaximum(kind, log, Best(kind, log))
  {
    hide Eligible, Elapsed;
    if log != [] {
      BestIsMaximum(kind, log[..|log| - 1]);
    }
  }

  lemma FirstMaximumIsUnique(kind: Kind, log: seq<Cycle>, i: nat)
    requires FirstMaximum(kind, log, i)
    ensures Best(kind, log) == i
  {
    BestIsMaximum(kind, log);
    assert Elapsed(kind, log[i]) == Elapsed(kind, log[Best(kind, log)]);
  }

  datatype Extremum = Extremum(valid: bool, cycle: Cycle, elapsed: nat)

  function Extreme(kind: Kind, log: seq<Cycle>): Extremum {
    var i := Best(kind, log);
    if i < 0 then Extremum(false, ZERO, 0) else Extremum(true, log[i], Elapsed(kind, log[i]))
  }

  function Before(log: seq<Cycle>, i: nat): Cycle
    requires 0 < i <= |log|
  {
    log[i - 1]
  }

  /** The cycle before the one with the largest start gap. */
  function GapPrevious(log: seq<Cycle>): Cycle {
    var i := Best(StartGap, log);
    if i <= 0 then ZERO else Before(log, i)
  }

  // ---------------------------------------------------------------- history

  /** Every recorded cycle carries its predecessor's stamps. */
  ghost predicate Chained(log: seq<Cycle>) {
    forall i: nat :: i < |log| ==> Linked(log, i)
  }

  predicate Linked(log: seq<Cycle>, i: nat)
    requires i < |log|
  {
    log[i].prevStartNs == StartOf(LastOf(log[..i])) && log[i].prevEndNs == EndOf(LastOf(log[..i]))
  }

  function LastOf(log: seq<Cycle>): Previous {
    if log == [] then None else Some(log[|log| - 1])
  }

  /** The last n cycles, or all of them. */
  function Recent(log: seq<Cycle>, n: nat): seq<Cycle> {
    log[|log| - Least(|log|, n)..]
  }

  /** The ring holds the most recent cycles, each at its number modulo the capacity. */
  ghost predicate Ring(history: seq<Cycle>, log: seq<Cycle>) {
    && |history| == HISTORY_CAPACITY
    && forall i :: 0 <= i < |log| && i + HISTORY_CAPACITY >= |log| ==> history[i % HISTORY_CAPACITY] == log[i]
  }

  lemma RingAppend(history: seq<Cycle>, log: seq<Cycle>, c: Cycle)
    requires Ring(history, log)
    ensures Ring(history[|log| % HISTORY_CAPACITY := c], log + [c])
  {
    var next := history[|log| % HISTORY_CAPACITY := c];
    forall i | 0 <= i <= |log| && i + HISTORY_CAPACITY >= |log| + 1
      ensures next[i % HISTORY_CAPACITY] == (log + [c])[i]
    {
      if i < |log| {
        assert i % HISTORY_CAPACITY != |log| % HISTORY_CAPACITY;
      }
    }
  }

  /** Rotating a full ring, or reading a short one from its start, gives the recent cycles in order. */
  lemma RingInOrder(history: seq<Cycle>, log: seq<Cycle>)
    requires Ring(history, log)
    ensures var next := |log| % HISTORY_CAPACITY;
            Recent(log, HISTORY_CAPACITY) ==
              if |log| >= HISTORY_CAPACITY then history[next..] + history[..next] else history[..|log|]
  {
    var next := |log| % HISTORY_CAPACITY;
    if |log| >= HISTORY_CAPACITY {
      var rotated := history[next..] + history[..next];
      forall k | 0 <= k < HISTORY_CAPACITY
        ensures rotated[k] == log[|log| - HISTORY_CAPACITY + k]
      {
        var i := |log| - HISTORY_CAPACITY + k;
        assert i % HISTORY_CAPACITY == (if k < HISTORY_CAPACITY - next then next + k else next + k - HISTORY_CAPACITY);
      }
    } else {
      forall k | 0 <= k < |log| ensures history[k] == log[k] {
        assert k % HISTORY_CAPACITY == k;
      }
    }
  }

  function Reversed(s: seq<Cycle>): (r: seq<Cycle>)
    ensures |r| == |s|
  {
    if s == [] then [] else Reversed(s[1..]) + [s[0]]
  }

  lemma {:induction false} ReversedAt(s: seq<Cycle>, k: nat)
    requires k < |s|
    ensures Reversed(s)[k] == s[|s| - 1 - k]
  {
    if k < |s| - 1 {
      ReversedAt(s[1..], k);
    }
  }

  /** The position that changes places with k when first..last is reversed. */
  function Mirror(first: nat, last: nat, k: nat): nat
    requires first <= k < last
  {
    first + last - 1 - k
  }

  /** A sequence with its stretch first..last reversed. */
  function ReversedIn(s: seq<Cycle>, first: nat, last: nat): (r: seq<Cycle>)
    requires first <= last <= |s|
    ensures |r| == |s|
  {
    s[..first] + Reversed(s[first..last]) + s[last..]
  }

  /** Element by element what reversing a stretch means. */
  lemma ReversedInAt(s: seq<Cycle>, r: seq<Cycle>, first: nat, last: nat)
    requires first <= last <= |s| == |r|
    requires forall k :: first <= k < last ==> r[k] == s[Mirror(first, last, k)]
    requires forall k :: 0 <= k < first || last <= k < |s| ==> r[k] == s[k]
    ensures r == ReversedIn(s, first, last)
  {
    forall k | first <= k < last ensures r[k] == Reversed(s[first..last])[k - first] {
      ReversedAt(s[first..last], k - first);
    }
  }

  /** In the stretch first..last everything outside lo..hi has changed places with its mirror. */
  ghost predicate Exchanged(was: seq<Cycle>, now: seq<Cycle>, first: nat, last: nat, lo: nat, hi: nat)
    requires first <= last <= |was| == |now|
  {
    && first <= lo <= hi <= last && lo - first == last - hi
    && (forall k :: first <= k < lo || hi <= k < last ==> now[k] == was[Mirror(first, last, k)])
    && (forall k :: 0 <= k < first || lo <= k < hi || last <= k < |now| ==> now[k] == was[k])
  }

  lemma ExchangeOnce(was: seq<Cycle>, now: seq<Cycle>, first: nat, last: nat, lo: nat, hi: nat)
    requires first <= last <= |was| == |now| && lo < hi && Exchanged(was, now, first, last, lo, hi + 1)
    ensures Exchanged(was, now[lo := now[hi]][hi := now[lo]], first, last, lo + 1, hi)
  {
    assert Mirror(first, last, lo) == hi && Mirror(first, last, hi) == lo;
  }

  /** What is left in the middle is at most one element, its own mirror. */
  lemma ExchangedIsReversed(was: seq<Cycle>, now: seq<Cycle>, first: nat, last: nat, lo: nat, hi: nat)
    requires first <= last <= |was| == |now| && Exchanged(was, now, first, last, lo, hi) && hi <= lo + 1
    ensures now == ReversedIn(was, first, last)
  {
    forall k | first <= k < last ensures now[k] == was[Mirror(first, last, k)] {
      if lo <= k < hi {
        assert Mirror(first, last, k) == k;
      }
    }
    ReversedInAt(was, now, first, last);
  }

  /** The reversal of two reversed parts. */
  lemma ReversedParts(a: seq<Cycle>, b: seq<Cycle>)
    ensures Reversed(Reversed(a) + Reversed(b)) == b + a
  {
    hide Reversed;
    var parts := Reversed(a) + Reversed(b);
    forall k | 0 <= k < |parts| ensures Reversed(parts)[k] == (b + a)[k] {
      ReversedAt(parts, k);
      if k < |b| {
        ReversedAt(b, |b| - 1 - k);
      } else {
        ReversedAt(a, |parts| - 1 - k);
      }
    }
  }

  /** Reversing both parts and then the whole is a rotation. */
  lemma TripleReversal(s: seq<Cycle>, m: nat)
    requires m <= |s|
    ensures ReversedIn(ReversedIn(ReversedIn(s, 0, m), m, |s|), 0, |s|) == s[m..] + s[..m]
  {
    hide Reversed;
    var parts := ReversedIn(ReversedIn(s, 0, m), m, |s|);
    assert parts == Reversed(s[..m]) + Reversed(s[m..]) by {
      assert s[0..m] == s[..m] && ReversedIn(s, 0, m)[m..|s|] == s[m..];
    }
    ReversedParts(s[..m], s[m..]);
    assert parts[0..|s|] == parts;
  }

  function InvalidCount(log: seq<Cycle>): nat {
    if log == [] then 0
    else InvalidCount(log[..|log| - 1]) + if InvalidTiming(log[|log| - 1]) then 1 else 0
  }

  lemma ChainedAppend(log: seq<Cycle>, c: Cycle)
    requires Chained(log) && c.prevStartNs == StartOf(LastOf(log)) && c.prevEndNs == EndOf(LastOf(log))
    ensures Chained(log + [c])
  {
    forall i: nat | i <= |log| ensures Linked(log + [c], i) {
      assert (log + [c])[..i] == log[..i];
      if i < |log| {
        assert Linked(log, i);
      } else {
        assert log[..i] == log;
      }
    }
  }

  /** The first cycle of a session has no start gap. */
  lemma GapHasPrevious(log: seq<Cycle>)
    requires Chained(log) && log != []
    ensures !Eligible(StartGap, log[0])
  {
    assert Linked(log, 0);
  }

  // -------------------------------------------------------------- collector

  /** The source's Snapshot, apart from its history array. */
  datatype Snapshot = Snapshot(
    session: u64, qpcFrequency: u64, recorded: u64, firstTick: u64, lastTick: u64,
    inputFaultTick: u64, guardFaultTick: u64, historyCount: nat, invalidTimingCycles: u32, firstBad: Cycle,
    maxCallback: Extremum, maxMotion: Extremum, maxComm: Extremum, maxStartGap: Extremum, maxStartGapPrevious: Cycle)

  const NOTHING := Extremum(false, ZERO, 0)

  function Cleared(session: u64): Snapshot {
    Snapshot(session, 0, 0, 0, 0, 0, 0, 0, 0, ZERO, NOTHING, NOTHING, NOTHING, NOTHING, ZERO)
  }

  predicate Maxima(s: Snapshot, log: seq<Cycle>) {
    && s.maxCallback == Extreme(Callback, log) && s.maxMotion == Extreme(Motion, log)
    && s.maxComm == Extreme(Comm, log) && s.maxStartGap == Extreme(StartGap, log)
    && s.maxStartGapPrevious == GapPrevious(log)
  }

  predicate Counters(s: Snapshot, log: seq<Cycle>) {
    && s.recorded == Least(|log|, MAX64) && s.invalidTimingCycles == Least(InvalidCount(log), MAX32)
    && (log != [] ==> s.firstTick == log[0].tick && s.lastTick == log[|log| - 1].tick)
  }

  /** The history, its bookkeeping and the last cycle stand for the good cycles. */
  ghost predicate Kept(history: seq<Cycle>, count: nat, next: nat, previous: Previous, frozen: bool, good: seq<Cycle>) {
    && |history| == HISTORY_CAPACITY
    && count == Least(|good|, HISTORY_CAPACITY) && next == |good| % HISTORY_CAPACITY
    && previous == LastOf(good)
    && if frozen then history[..count] == Recent(good, HISTORY_CAPACITY) else Ring(history, good)
  }

  lemma KeptPrevious(history: seq<Cycle>, count: nat, next: nat, previous: Previous, frozen: bool, good: seq<Cycle>)
    requires Kept(history, count, next, previous, frozen, good)
    ensures previous == LastOf(good) && |history| == HISTORY_CAPACITY && count <= HISTORY_CAPACITY
  {
  }

  lemma KeptAppend(history: seq<Cycle>, count: nat, next: nat, previous: Previous, good: seq<Cycle>, c: Cycle)
    requires Kept(history, count, next, previous, false, good)
    ensures Kept(history[next := c], if count < HISTORY_CAPACITY then count + 1 else count,
                 (next + 1) % HISTORY_CAPACITY, Some(c), false, good + [c])
  {
    RingAppend(history, good, c);
  }

  class Collector {
    var snapshot: Snapshot
    const history: array<Cycle>
    var previous: Previous
    var nextHistory: nat
    var frozen: bool
    var published: bool

    /** The cycles of this session without the bad one. */
    ghost var good: seq<Cycle>

    /** Every cycle recorded in this session. */
    ghost function Log(): seq<Cycle>
      reads this
    {
      if frozen then good + [snapshot.firstBad] else good
    }

    ghost predicate Stored()
      reads this, history
    {
      Kept(history[..], snapshot.historyCount, nextHistory, previous, frozen, good)
    }

    ghost predicate Valid()
      reads this, history
    {
      && Stored() && Chained(Log()) && Counters(snapshot, Log()) && Maxima(snapshot, Log())
      && (snapshot.session == 0 ==> Log() == [])
    }

    constructor ()
      ensures Valid() && !frozen && Log() == [] && snapshot == Cleared(0)
    {
      snapshot := Cleared(0);
      history := new Cycle[HISTORY_CAPACITY](_ => ZERO);
      previous, nextHistory, frozen, published, good := None, 0, false, false, [];
    }

    /** A new session clears the whole snapshot and the working state. */
    method Reset(session: u64)
      requires history.Length == HISTORY_CAPACITY
      modifies this, history
      ensures Valid() && snapshot == Cleared(session) && Log() == good == [] && !frozen && !published
      ensures forall i :: 0 <= i < history.Length ==> history[i] == ZERO
    {
      snapshot := Cleared(session);
      forall i | 0 <= i < history.Length {
        history[i] := ZERO;
      }
      previous, nextHistory, frozen, published, good := None, 0, false, false, [];
    }

    /** Maximum and the guard in front of it: replaced on a first or a strictly larger elapsed time. */
    method Maximum(kind: Kind, c: Cycle, retained: Extremum, ghost earlier: seq<Cycle>) returns (r: Extremum)
      requires retained == Extreme(kind, earlier)
      ensures r == Extreme(kind, earlier + [c])
    {
      assert (earlier + [c])[..|earlier|] == earlier;
      r := retained;
      if Eligible(kind, c) && (!retained.valid || Elapsed(kind, c) > retained.elapsed) {
        r := Extremum(true, c, Elapsed(kind, c));
      }
    }

    /** The largest start gap also keeps the cycle before it. */
    method MaximumGap(c: Cycle)
      requires snapshot.maxStartGap == Extreme(StartGap, good) && snapshot.maxStartGapPrevious == GapPrevious(good)
      requires previous == LastOf(good) && c.prevStartNs == StartOf(previous)
      modifies this`snapshot
      ensures snapshot == old(snapshot).(maxStartGap := Extreme(StartGap, good + [c]),
                                         maxStartGapPrevious := GapPrevious(good + [c]))
    {
      assert (good + [c])[..|good|] == good;
      if previous.Some? && Eligible(StartGap, c)
         && (!snapshot.maxStartGap.valid || Elapsed(StartGap, c) > snapshot.maxStartGap.elapsed) {
        snapshot := snapshot.(maxStartGap := Extremum(true, c, Elapsed(StartGap, c)),
                              maxStartGapPrevious := previous.cycle);
      }
    }

    method UpdateMaxima(c: Cycle)
      requires Maxima(snapshot, good) && previous == LastOf(good) && c.prevStartNs == StartOf(previous)
      modifies this`snapshot
      ensures Maxima(snapshot, good + [c])
      ensures snapshot == old(snapshot).(
                maxCallback := snapshot.maxCallback, maxMotion := snapshot.maxMotion, maxComm := snapshot.maxComm,
                maxStartGap := snapshot.maxStartGap, maxStartGapPrevious := snapshot.maxStartGapPrevious)
    {
      hide Best, Extreme, GapPrevious;
      var callback := Maximum(Callback, c, snapshot.maxCallback, good);
      var motion := Maximum(Motion, c, snapshot.maxMotion, good);
      var comm := Maximum(Comm, c, snapshot.maxComm, good);
      snapshot := snapshot.(maxCallback := callback, maxMotion := motion, maxComm := comm);
      MaximumGap(c);
    }

    /** Reverses history[first..last) in place. */
    method Reverse(first: nat, last: nat)
      requires first <= last <= history.Length
      modifies history
      ensures history[..] == ReversedIn(old(history[..]), first, last)
    {
      ghost var was := history[..];
      var lo, hi := first, last;
      assert Exchanged(was, history[..], first, last, lo, hi);
      hide ReversedIn, Exchanged;
      while lo < hi
        invariant 0 <= lo <= hi <= last && Exchanged(was, history[..], first, last, lo, hi)
        decreases hi - lo
      {
        hi := hi - 1;
        if lo >= hi {
          ExchangedIsReversed(was, history[..], first, last, lo, hi + 1);
          return;
        }
        ExchangeOnce(was, history[..], first, last, lo, hi);
        ghost var now := history[..];
        history[lo], history[hi] := history[hi], history[lo];
        assert history[..] == now[lo := now[hi]][hi := now[lo]];
        assert lo < hi;
        lo := lo + 1;
      }
      ExchangedIsReversed(was, history[..], first, last, lo, hi);
    }

    /** Three reversals turn a full ring into chronological order. */
    method OrderHistory()
      requires history.Length == HISTORY_CAPACITY && nextHistory < HISTORY_CAPACITY
      modifies history
      ensures history[..] == if snapshot.historyCount == HISTORY_CAPACITY
                             then old(history[..])[nextHistory..] + old(history[..])[..nextHistory]
                                 else old(history[..])
    {
      if snapshot.historyCount != HISTORY_CAPACITY || nextHistory == 0 {
        return;
      }
      TripleReversal(history[..], nextHistory);
      Reverse(0, nextHistory);
      Reverse(nextHistory, HISTORY_CAPACITY);
      Reverse(0, HISTORY_CAPACITY);
    }

    /** The counters of one more cycle; both saturate. */
    method Count(c: Cycle)
      requires Counters(snapshot, good)
      modifies this`snapshot
      ensures Counters(snapshot, good + [c])
      ensures snapshot == old(snapshot).(
                recorded := snapshot.recorded, firstTick := snapshot.firstTick, lastTick := snapshot.lastTick,
                invalidTimingCycles := snapshot.invalidTimingCycles)
    {
      assert (good + [c])[..|good|] == good;
      if snapshot.recorded == 0 {
        snapshot := snapshot.(firstTick := c.tick);
      }
      if snapshot.recorded != MAX64 {
        snapshot := snapshot.(recorded := snapshot.recorded + 1);
      }
      snapshot := snapshot.(lastTick := c.tick);
      if InvalidTiming(c) && snapshot.invalidTimingCycles != MAX32 {
        snapshot := snapshot.(invalidTimingCycles := snapshot.invalidTimingCycles + 1);
      }
    }

    method Freeze(c: Cycle, inputTick: u64, guardTick: u64)
      requires Stored() && !frozen
      modifies this`snapshot, this`frozen, history
      ensures Stored() && frozen
      ensures snapshot == old(snapshot).(inputFaultTick := inputTick, guardFaultTick := guardTick, firstBad := c)
    {
      snapshot := snapshot.(inputFaultTick := inputTick, guardFaultTick := guardTick, firstBad := c);
      RingInOrder(history[..], good);
      OrderHistory();
      frozen := true;
      assert snapshot.historyCount == HISTORY_CAPACITY ==> history[..snapshot.historyCount] == history[..];
    }

    method Retain(c: Cycle)
      requires Stored() && !frozen
      modifies this`snapshot, this`nextHistory, this`previous, this`good, history
      ensures Stored() && good == old(good) + [c]
      ensures snapshot == old(snapshot).(historyCount := snapshot.historyCount)
    {
      KeptAppend(history[..], snapshot.historyCount, nextHistory, previous, good, c);
      history[nextHistory] := c;
      assert history[..] == old(history[..])[nextHistory := c];
      nextHistory := (nextHistory + 1) % HISTORY_CAPACITY;
      if snapshot.historyCount < HISTORY_CAPACITY {
        snapshot := snapshot.(historyCount := snapshot.historyCount + 1);
      }
      previous := Some(c);
      good := good + [c];
    }

    /** What a supplied cycle is recorded as when it arrives now. */
    ghost function Arriving(session: u64, supplied: Cycle, frequency: u64): Cycle
      reads this
    {
      if session == snapshot.session
      then Prepared(supplied, previous, StoredFrequency(snapshot.qpcFrequency, frequency), frequency)
      else Prepared(supplied, None, frequency, frequency)
    }

    /** One cycle of an unfrozen session. */
    method RecordNow(supplied: Cycle, inputTick: u64, guardTick: u64, frequency: u64) returns (froze: bool)
      requires Valid() && !frozen && snapshot.session != 0
      modifies this, history
      ensures Valid() && snapshot.session == old(snapshot.session) && published == old(published)
      ensures snapshot.qpcFrequency == StoredFrequency(old(snapshot.qpcFrequency), frequency)
      ensures froze == frozen == (inputTick != 0 || guardTick != 0)
      ensures Log() == old(good) + [old(Arriving(snapshot.session, supplied, frequency))]
      ensures froze ==> snapshot.inputFaultTick == inputTick && snapshot.guardFaultTick == guardTick
    {
      hide Extreme, GapPrevious, InvalidCount, Chained, Kept, Derived;
      if snapshot.qpcFrequency == 0 && frequency != 0 {
        snapshot := snapshot.(qpcFrequency := frequency);
      }
      var cycle := Prepared(supplied, previous, snapshot.qpcFrequency, frequency);
      KeptPrevious(history[..], snapshot.historyCount, nextHistory, previous, frozen, good);
      ChainedAppend(good, cycle);
      Count(cycle);
      UpdateMaxima(cycle);
      froze := inputTick != 0 || guardTick != 0;
      if froze {
        Freeze(cycle, inputTick, guardTick);
      } else {
        Retain(cycle);
      }
      assert Log() == old(good) + [cycle];
    }

    /** Record: true exactly for the fault that freezes a nonzero session. */
    method Record(session: u64, supplied: Cycle, inputTick: u64, guardTick: u64, frequency: u64) returns (froze: bool)
      requires Valid()
      modifies this, history
      ensures Valid()
      ensures session == 0 || (session == old(snapshot.session) && old(frozen)) ==>
                !froze && unchanged(this) && unchanged(history)
      ensures session != 0 && !(session == old(snapshot.session) && old(frozen)) ==>
                && snapshot.session == session
                && froze == frozen == (inputTick != 0 || guardTick != 0)
                && Log() == (if session == old(snapshot.session) then old(good) else [])
                            + [old(Arriving(session, supplied, frequency))]
                && (froze ==> snapshot.inputFaultTick == inputTick && snapshot.guardFaultTick == guardTick)
                && (session != old(snapshot.session) ==> !published)
    {
      if session == 0 || (snapshot.session == session && frozen) {
        return false;
      }
      if snapshot.session != session {
        Reset(session);
      }
      froze := RecordNow(supplied, inputTick, guardTick, frequency);
    }

    method Pending() returns (pending: bool)
      ensures pending <==> frozen && !published
    {
      return frozen && !published;
    }

    method MarkPublished()
      requires Valid()
      modifies this`published
      ensures Valid() && published == (frozen || old(published))
    {
      if frozen {
        published := true;
      }
    }

    function Shown(kind: Kind): Extremum
      reads this
    {
      match kind
      case Callback => snapshot.maxCallback
      case Motion => snapshot.maxMotion
      case Comm => snapshot.maxComm
      case StartGap => snapshot.maxStartGap
    }

    /** What a frozen collector shows: the last good cycles in order, the bad one apart, and true first maxima. */
    lemma FrozenSnapshot(kind: Kind)
      requires Valid() && frozen
      ensures history[..snapshot.historyCount] == Recent(Log()[..|Log()| - 1], HISTORY_CAPACITY)
      ensures snapshot.firstBad == Log()[|Log()| - 1]
      ensures Shown(kind).valid <==> exists j :: 0 <= j < |Log()| && Eligible(kind, Log()[j])
      ensures Shown(kind).valid ==>
                exists i: nat :: FirstMaximum(kind, Log(), i)
                  && Shown(kind) == Extremum(true, Log()[i], Elapsed(kind, Log()[i]))
      ensures snapshot.maxStartGap.valid ==>
                exists i: nat :: FirstMaximum(StartGap, Log(), i) && i > 0
                  && Log()[i] == snapshot.maxStartGap.cycle && snapshot.maxStartGapPrevious == Before(Log(), i)
    {
      var log := Log();
      assert log[..|log| - 1] == good;
      BestIsMaximum(kind, log);
      BestIsMaximum(StartGap, log);
      if Shown(kind).valid {
        assert FirstMaximum(kind, log, Best(kind, log));
      }
      if snapshot.maxStartGap.valid {
        GapHasPrevious(log);
        assert FirstMaximum(StartGap, log, Best(StartGap, log));
      }
    }
  }
}
