/** The PDO owner's side of EDMAnalogInput::Publisher: clock conversion and sample order. */
module AnalogPublisher {
  import opened Numbers
  import opened Optional

  type i64 = x: int | -0x8000_0000_0000_0000 <= x <= 0x7FFF_FFFF_FFFF_FFFF

  // ----------------------------------------------------- clock conversion

  lemma Division(x: nat, d: nat) returns (q: nat, r: nat)
    requires d > 0
    ensures q == x / d && r == x % d && r < d && x == d * q + r
  {
    q, r := x / d, x % d;
  }

  lemma QuotientUnique(d: nat, q1: nat, r1: nat, q2: nat, r2: nat)
    requires r1 < d && r2 < d && d * q1 + r1 == d * q2 + r2
    ensures q1 == q2
  {
    if q1 < q2 {
      TimesMono(d, q1 + 1, q2);
    } else if q2 < q1 {
      TimesMono(d, q2 + 1, q1);
    }
  }

  lemma DivideUnique(x: nat, d: nat, q: nat, r: nat)
    requires r < d && x == d * q + r
    ensures x / d == q
  {
    var q', r' := Division(x, d);
    QuotientUnique(d, q, r, q', r');
  }

  lemma Distribute(f: nat, q: nat, r: nat, unit: nat, fq: nat, fr: nat)
    requires r * unit == f * fq + fr
    ensures (f * q + r) * unit == f * (q * unit + fq) + fr
  {
    assert (f * q + r) * unit == f * q * unit + r * unit;
    assert f * q * unit == f * (q * unit);
    assert f * (q * unit + fq) == f * (q * unit) + f * fq;
  }

  /** Converting whole units and the remainder separately loses nothing. */
  lemma SplitConversion(value: nat, frequency: nat, unit: nat)
    requires frequency > 0
    ensures value * unit / frequency == value / frequency * unit + value % frequency * unit / frequency
  {
    var q, r := Division(value, frequency);
    var fq, fr := Division(r * unit, frequency);
    Distribute(frequency, q, r, unit, fq, fr);
    DivideUnique(value * unit, frequency, q * unit + fq, fr);
  }

  /** The remainder's product is below frequency * unit, hence below 2^64. */
  lemma FractionFits(rest: nat, frequency: nat, unit: nat)
    requires unit > 0 && rest < frequency && frequency <= MAX64 / unit
    ensures rest * unit <= MAX64
    ensures rest * unit / frequency < unit
  {
    var q, r := Division(MAX64, unit);
    TimesMono(unit, frequency, q);
    TimesMono(unit, rest + 1, frequency);
    var fq, fr := Division(rest * unit, frequency);
    if fq >= unit {
      TimesMono(frequency, unit, fq);
    }
  }

  lemma SumFits(seconds: nat, fraction: nat, unit: nat)
    requires unit > 0 && fraction <= MAX64
    ensures seconds <= (MAX64 - fraction) / unit <==> seconds * unit + fraction <= MAX64
  {
    var q, r := Division(MAX64 - fraction, unit);
    if seconds <= q {
      TimesMono(unit, seconds, q);
    } else {
      TimesMono(unit, q + 1, seconds);
    }
  }

  /** The exact result, refused only for a bad clock or when it exceeds 64 bits itself. */
  function Converted(ticks: i64, frequency: u64, unit: nat): Option<u64>
    requires unit > 0
  {
    if ticks < 0 || frequency == 0 || frequency > MAX64 / unit then None
    else if ticks * unit / frequency > MAX64 then None
    else Some(ticks * unit / frequency)
  }

  /** Everything the 64-bit code needs: its product fits, its guard is exact, its sum is the floor. */
  lemma Exact(value: nat, frequency: nat, unit: nat) returns (seconds: nat, fraction: nat, total: nat)
    requires unit > 0 && 0 < frequency <= MAX64 / unit
    ensures seconds == value / frequency && fraction == value % frequency * unit / frequency
    ensures total == value * unit / frequency
    ensures value % frequency * unit <= MAX64 && fraction <= MAX64
    ensures seconds * unit + fraction == total
    ensures seconds > (MAX64 - fraction) / unit <==> total > MAX64
  {
    var rest: nat;
    seconds, rest := Division(value, frequency);
    UnitBound(unit);
    fraction := Fraction(rest, frequency, unit);
    SplitConversion(value, frequency, unit);
    total := value * unit / frequency;
    SumFits(seconds, fraction, unit);
  }

  lemma Fraction(rest: nat, frequency: nat, unit: nat) returns (fraction: nat)
    requires 0 < unit <= MAX64 && rest < frequency && frequency <= MAX64 / unit
    ensures fraction == rest * unit / frequency
    ensures rest * unit <= MAX64 && fraction <= MAX64
  {
    FractionFits(rest, frequency, unit);
    fraction := rest * unit / frequency;
  }

  lemma UnitBound(unit: nat)
    requires unit > 0 && MAX64 / unit > 0
    ensures unit <= MAX64
  {
    var q, r := Division(MAX64, unit);
    TimesMono(unit, 1, q);
  }

  /** The exact floor of ticks * 10^6 / frequency; every intermediate value is a u64. */
  method QpcMicroseconds(ticks: i64, frequency: u64) returns (now: Option<u64>)
    ensures now == Converted(ticks, frequency, 1000000)
  {
    if ticks < 0 || frequency == 0 || frequency > MAX64 / 1000000 {
      return None;
    }
    var value: u64 := ticks;
    var _, _, _ := Exact(value, frequency, 1000000);
    var seconds: u64 := value / frequency;
    var product: u64 := value % frequency * 1000000;
    var fraction: u64 := product / frequency;
    if seconds > (MAX64 - fraction) / 1000000 {
      return None;
    }
    return Some(seconds * 1000000 + fraction);
  }

  /** The same conversion to milliseconds. */
  method QpcMilliseconds(ticks: i64, frequency: u64) returns (now: Option<u64>)
    ensures now == Converted(ticks, frequency, 1000)
  {
    if ticks < 0 || frequency == 0 || frequency > MAX64 / 1000 {
      return None;
    }
    var value: u64 := ticks;
    var _, _, _ := Exact(value, frequency, 1000);
    var seconds: u64 := value / frequency;
    var product: u64 := value % frequency * 1000;
    var fraction: u64 := product / frequency;
    if seconds > (MAX64 - fraction) / 1000 {
      return None;
    }
    return Some(seconds * 1000 + fraction);
  }

  // -------------------------------------------------------------- snapshot

  datatype Reason =
    | NotConfigured | BindingMissing | UnsupportedLayout | IdentityMismatch | AwaitSample | TransportInvalid
    | ClockInvalid | Valid | SnapshotBusy | ReadError | ContractInvalid

  /** The binding fields that publication copies and never interprets. */
  datatype Identity = Identity(adIndex: nat, deviceId: nat, channelId: nat, channelCount: nat,
                               slaveIndex: int, inputBitOffset: int, unsignedRaw: bool)

  datatype Snapshot = Snapshot(
    identity: Identity, rawCode: int,
    sequence: u64, capturedAtMs: u64, observedAtMs: u64, capturedAtUs: u64, observedAtUs: u64,
    configured: bool, hasSample: bool, transportValid: bool, clockValid: bool,
    rtClockValid: bool, rtSampleValid: bool, reason: Reason, producerGeneration: u64, qpcFrequency: u64)

  /** A sample that the real-time contract offers to consumers. */
  predicate Sample(s: Snapshot) { s.rtSampleValid }

  /** Real-time samples in publication order advance strictly in time and number, on one clock. */
  predicate Ordered(log: seq<Snapshot>) {
    forall i, j :: 0 <= i < j < |log| && Sample(log[i]) && Sample(log[j]) ==>
      && log[i].capturedAtUs < log[j].capturedAtUs
      && log[i].sequence < log[j].sequence
      && log[i].qpcFrequency == log[j].qpcFrequency
      && log[i].producerGeneration == log[j].producerGeneration
  }

  /** What one valid real-time sample certifies about itself. */
  predicate Certified(s: Snapshot) {
    Sample(s) ==>
      && s.configured && s.hasSample && s.transportValid && s.clockValid && s.rtClockValid && s.reason == Valid
      && s.capturedAtUs == s.observedAtUs > 0 && s.sequence > 0 && s.qpcFrequency > 0
  }

  /** The writer's own record dominates every sample it has published, on the same clock and identity. */
  predicate Dominates(w: Snapshot, frequency: nat, log: seq<Snapshot>) {
    forall i :: 0 <= i < |log| && Sample(log[i]) ==>
      && log[i].capturedAtUs <= w.capturedAtUs && log[i].sequence <= w.sequence
      && log[i].qpcFrequency == frequency == w.qpcFrequency
      && log[i].producerGeneration == w.producerGeneration
  }

  predicate AllCertified(log: seq<Snapshot>) {
    forall i :: 0 <= i < |log| ==> Certified(log[i])
  }

  /** From one record to the next: never backwards, strictly forward for a sample, one clock for ever. */
  predicate Advances(w: Snapshot, frequency: nat, w': Snapshot, frequency': nat) {
    && w.capturedAtUs <= w'.capturedAtUs && w.sequence <= w'.sequence
    && w'.producerGeneration == w.producerGeneration
    && (frequency > 0 && frequency == w.qpcFrequency ==> frequency' == frequency == w'.qpcFrequency)
    && (Sample(w') ==> w.capturedAtUs < w'.capturedAtUs && w.sequence < w'.sequence && w'.qpcFrequency == frequency')
  }

  lemma AppendKeepsOrder(log: seq<Snapshot>, w: Snapshot, frequency: nat, w': Snapshot, frequency': nat)
    requires Ordered(log) && AllCertified(log) && Dominates(w, frequency, log)
    requires Advances(w, frequency, w', frequency') && Certified(w')
    ensures Ordered(log + [w']) && AllCertified(log + [w']) && Dominates(w', frequency', log + [w'])
  {
  }

  /** Whether the real-time clock of a cycle is good: it answers, does not run backwards and keeps its frequency. */
  predicate ClockGood(w: Snapshot, fixed: u64, last: u64, ticks: u64, frequency: u64, us: Option<u64>) {
    us.Some? && us.value >= w.observedAtUs && (fixed == 0 || (frequency == fixed && ticks >= last))
  }

  /** The clock part of a cycle: status flags, observation times and the fixed frequency. */
  function Clocked(w: Snapshot, good: bool, frequency: u64, transportValid: bool, ms: Option<u64>,
      us: Option<u64>): Snapshot
    requires good ==> us.Some?
  {
    MicroClocked(MilliClocked(w, transportValid, ms), good, frequency, us)
  }

  function MilliClocked(w: Snapshot, transportValid: bool, ms: Option<u64>): Snapshot {
    var ok := ms.Some? && ms.value >= w.observedAtMs;
    w.(transportValid := transportValid, clockValid := ok, observedAtMs := if ok then ms.value else w.observedAtMs)
  }

  function MicroClocked(w: Snapshot, good: bool, frequency: u64, us: Option<u64>): Snapshot
    requires good ==> us.Some?
  {
    w.(rtClockValid := good, rtSampleValid := false,
       observedAtUs := if good then us.value else w.observedAtUs,
       qpcFrequency := if good then frequency else w.qpcFrequency)
  }

  /** The sample part of a good cycle. */
  function Sampled(w: Snapshot, rawCode: int, nowMs: u64, us: Option<u64>): Snapshot
    requires w.rtClockValid ==> us.Some?
  {
    var sample := w.rtClockValid && us.value > w.capturedAtUs && w.sequence != MAX64;
    w.(rtSampleValid := sample, capturedAtUs := if sample then us.value else w.capturedAtUs,
       rawCode := rawCode, capturedAtMs := nowMs, hasSample := true, reason := Reason.Valid,
       sequence := if w.sequence == MAX64 then MAX64 else w.sequence + 1)
  }

  /** The rest of a cycle once the clock is taken. */
  function Judged(w: Snapshot, rawCode: int, readSucceeded: bool, ms: Option<u64>, us: Option<u64>): Snapshot
    requires (w.clockValid ==> ms.Some?) && (w.rtClockValid ==> us.Some?)
  {
    if !w.transportValid then w.(reason := TransportInvalid)
    else if !w.clockValid then w.(reason := ClockInvalid)
    else if !readSucceeded then w.(reason := ReadError)
    else Sampled(w, rawCode, ms.value, us)
  }

  /** The record a cycle leaves. */
  function Cycled(w: Snapshot, good: bool, frequency: u64, transportValid: bool, ms: Option<u64>, us: Option<u64>,
                  rawCode: int, readSucceeded: bool): Snapshot
    requires good ==> us.Some?
  {
    Judged(Clocked(w, good, frequency, transportValid, ms, us), rawCode, readSucceeded, ms, us)
  }

  lemma CycleAdvances(w: Snapshot, fixed: u64, good: bool, frequency: u64, transportValid: bool, ms: Option<u64>,
                      us: Option<u64>, rawCode: int, readSucceeded: bool)
    requires w.configured && (us.Some? ==> frequency > 0)
    requires good ==> us.Some? && us.value >= w.observedAtUs && (fixed == 0 || frequency == fixed)
    ensures var w' := Cycled(w, good, frequency, transportValid, ms, us, rawCode, readSucceeded);
            Advances(w, fixed, w', if good then frequency else fixed) && Certified(w')
  {
  }

  lemma ClockedFlags(w: Snapshot, good: bool, frequency: u64, transportValid: bool, ms: Option<u64>, us: Option<u64>)
    requires good ==> us.Some?
    ensures var w' := Clocked(w, good, frequency, transportValid, ms, us);
            !w'.rtSampleValid && (w'.clockValid ==> ms.Some?) && (w'.rtClockValid ==> us.Some?)
  {
  }

  /** What a cycle says and keeps: a cycle that is not a good sample keeps the last good one. */
  lemma CycleMeaning(w: Snapshot, good: bool, frequency: u64, transportValid: bool, ms: Option<u64>, us: Option<u64>,
                     rawCode: int, readSucceeded: bool)
    requires good ==> us.Some?
    ensures var w' := Cycled(w, good, frequency, transportValid, ms, us, rawCode, readSucceeded);
            var msOk := ms.Some? && ms.value >= w.observedAtMs;
            && w'.identity == w.identity && w'.configured == w.configured
            && (w'.reason == Reason.Valid <==> transportValid && readSucceeded && msOk)
            && (w'.reason != Reason.Valid ==>
                  && w'.rawCode == w.rawCode && w'.sequence == w.sequence
                  && w'.capturedAtMs == w.capturedAtMs && w'.capturedAtUs == w.capturedAtUs)
            && (Sample(w') <==> transportValid && readSucceeded && w.sequence < MAX64 && msOk
                                && good && us.value > w.capturedAtUs)
            && (Sample(w') ==> && w'.rawCode == rawCode && w'.sequence == w.sequence + 1
                               && w'.capturedAtUs == us.value && w'.capturedAtMs == ms.value)
  {
  }

  /** Everything a cycle reports about itself: its verdict, its flags and clocks, and the value if it has one. */
  predicate Reports(w: Snapshot, w': Snapshot, good: bool, frequency: u64, transportValid: bool, ms: Option<u64>,
                    us: Option<u64>, rawCode: int, readSucceeded: bool)
    requires good ==> us.Some?
  {
    var msOk := ms.Some? && ms.value >= w.observedAtMs;
    && (!transportValid ==> w'.reason == TransportInvalid)
    && (transportValid && !msOk ==> w'.reason == ClockInvalid)
    && (transportValid && msOk && !readSucceeded ==> w'.reason == ReadError)
    && w'.transportValid == transportValid && w'.clockValid == msOk && w'.rtClockValid == good
    && w'.observedAtMs == (if msOk then ms.value else w.observedAtMs)
    && w'.observedAtUs == (if good then us.value else w.observedAtUs)
    && w'.qpcFrequency == (if good then frequency else w.qpcFrequency)
    && w'.hasSample == (w.hasSample || (transportValid && msOk && readSucceeded))
    && w'.producerGeneration == w.producerGeneration
    && (transportValid && msOk && readSucceeded ==>
          && w'.reason == Reason.Valid && w'.rawCode == rawCode && w'.capturedAtMs == ms.value
          && w'.sequence == (if w.sequence == MAX64 then MAX64 else w.sequence + 1))
    && (!Sample(w') ==> w'.capturedAtUs == w.capturedAtUs)
  }

  lemma CycleReports(w: Snapshot, good: bool, frequency: u64, transportValid: bool, ms: Option<u64>, us: Option<u64>,
                     rawCode: int, readSucceeded: bool)
    requires good ==> us.Some?
    ensures Reports(w, Cycled(w, good, frequency, transportValid, ms, us, rawCode, readSucceeded),
                    good, frequency, transportValid, ms, us, rawCode, readSucceeded)
  {
  }

  class Publisher {
    var writer: Snapshot
    var generation: u64
    var rtFrequency: u64
    var rtLastTicks: u64

    /** The snapshots published since the last configuration. */
    ghost var log: seq<Snapshot>

    ghost predicate Valid()
      reads this
    {
      && Ordered(log)
      && AllCertified(log)
      && Dominates(writer, rtFrequency, log)
      && writer.producerGeneration <= generation
    }

    constructor ()
      ensures Valid() && log == [] && generation == 0 && !writer.configured
    {
      writer := Snapshot(Identity(0, 0, 0, 0, -1, -1, false), 0, 0, 0, 0, 0, 0,
                         false, false, false, false, false, false, NotConfigured, 0, 0);
      generation, rtFrequency, rtLastTicks := 0, 0, 0;
      log := [];
    }

    /** A fresh identity for every attempt; an exhausted identity counter refuses the binding. */
    method ConfigureBeforeStart(identity: Identity, configured: bool, reason: Reason)
      requires Valid()
      modifies this
      ensures Valid() && log == [writer] && !Sample(writer)
      ensures writer.identity == identity && writer.sequence == 0 && writer.capturedAtUs == 0
      ensures old(generation) < MAX64 ==>
                && generation == old(generation) + 1 == writer.producerGeneration
                && writer.configured == configured && writer.reason == reason
      ensures old(generation) == MAX64 ==>
                generation == MAX64 && writer.producerGeneration == 0 && !writer.configured
                    && writer.reason == ContractInvalid
    {
      writer := Snapshot(identity, 0, 0, 0, 0, 0, 0,
                         configured, false, false, false, false, false, reason, 0, 0);
      rtFrequency, rtLastTicks := 0, 0;
      if generation == MAX64 {
        writer := writer.(configured := false, reason := ContractInvalid);
      } else {
        generation := generation + 1;
        writer := writer.(producerGeneration := generation);
      }
      log := [writer];
    }

    /** Neither clock fails or runs backwards, and the sample time is new. */
    predicate Fresh(ticks: int, frequency: nat, ms: Option<u64>, us: Option<u64>)
      reads this
    {
      && ms.Some? && ms.value >= writer.observedAtMs
      && us.Some? && us.value >= writer.observedAtUs && us.value > writer.capturedAtUs
      && (rtFrequency == 0 || (frequency == rtFrequency && ticks >= rtLastTicks))
    }

    method TakeClock(ticks: u64, frequency: u64, transportValid: bool, ms: Option<u64>, us: Option<u64>)
      modifies this`writer, this`rtFrequency, this`rtLastTicks
      ensures var good := ClockGood(old(writer), old(rtFrequency), old(rtLastTicks), ticks, frequency, us);
              && writer == Clocked(old(writer), good, frequency, transportValid, ms, us)
              && rtFrequency == (if good then frequency else old(rtFrequency))
              && rtLastTicks == (if good then ticks else old(rtLastTicks))
    {
      TakeMillis(transportValid, ms);
      hide MilliClocked;
      var good := us.Some? && (rtFrequency == 0 || (frequency == rtFrequency && ticks >= rtLastTicks))
                  && us.value >= writer.observedAtUs;
      writer := writer.(rtClockValid := good, rtSampleValid := false);
      if good {
        rtFrequency, rtLastTicks := frequency, ticks;
        writer := writer.(qpcFrequency := frequency, observedAtUs := us.value);
      }
    }

    method TakeMillis(transportValid: bool, ms: Option<u64>)
      modifies this`writer
      ensures writer == MilliClocked(old(writer), transportValid, ms) && writer.observedAtUs == old(writer).observedAtUs
    {
      writer := writer.(transportValid := transportValid, clockValid := ms.Some? && ms.value >= writer.observedAtMs);
      if writer.clockValid {
        writer := writer.(observedAtMs := ms.value);
      }
    }

    /**
     One PDO cycle with its two converted times.  Whatever the inputs, the
     published samples stay strictly ordered; a cycle that is not a good sample
     keeps the last good value, its number and its capture times.
     */
    method Observe(rawCode: int, readSucceeded: bool, ticks: u64, frequency: u64, transportValid: bool,
                   ms: Option<u64>, us: Option<u64>)
      requires Valid() && (us.Some? ==> frequency > 0)
      modifies this`writer, this`log, this`rtFrequency, this`rtLastTicks
      ensures Valid()
      ensures !old(writer).configured ==> log == old(log) && writer == old(writer)
      ensures old(writer).configured ==> log == old(log) + [writer]
      ensures writer.identity == old(writer).identity && writer.configured == old(writer).configured
      ensures old(writer).configured && writer.reason != Reason.Valid ==>
                && writer.rawCode == old(writer).rawCode && writer.sequence == old(writer).sequence
                && writer.capturedAtMs == old(writer).capturedAtMs && writer.capturedAtUs == old(writer).capturedAtUs
      ensures old(writer).configured ==>
                (writer.reason == Reason.Valid <==>
                   transportValid && readSucceeded && ms.Some? && ms.value >= old(writer).observedAtMs)
      ensures old(writer).configured ==>
                (Sample(writer) <==>
                   && transportValid && readSucceeded && old(writer).sequence < MAX64
                   && old(Fresh(ticks, frequency, ms, us)))
      ensures old(writer).configured && Sample(writer) ==>
                && writer.rawCode == rawCode && writer.sequence == old(writer).sequence + 1
                && writer.capturedAtUs == us.value && writer.capturedAtMs == ms.value
      ensures old(writer).configured ==>
                Reports(old(writer), writer,
                        ClockGood(old(writer), old(rtFrequency), old(rtLastTicks), ticks, frequency, us),
                        frequency, transportValid, ms, us, rawCode, readSucceeded)
    {
      if !writer.configured {
        return;
      }
      hide Ordered, AllCertified, Dominates, Advances, Certified, Cycled, Reports;
      ghost var was, fixed := writer, rtFrequency;
      ghost var good := ClockGood(was, fixed, rtLastTicks, ticks, frequency, us);
      Cycle(rawCode, readSucceeded, ticks, frequency, transportValid, ms, us);
      CycleReports(was, good, frequency, transportValid, ms, us, rawCode, readSucceeded);
      CycleMeaning(was, good, frequency, transportValid, ms, us, rawCode, readSucceeded);
      CycleAdvances(was, fixed, good, frequency, transportValid, ms, us, rawCode, readSucceeded);
      AppendKeepsOrder(log, was, fixed, writer, rtFrequency);
      Publish();
    }

    method Cycle(rawCode: int, readSucceeded: bool, ticks: u64, frequency: u64, transportValid: bool,
                 ms: Option<u64>, us: Option<u64>)
      modifies this`writer, this`rtFrequency, this`rtLastTicks
      ensures var good := ClockGood(old(writer), old(rtFrequency), old(rtLastTicks), ticks, frequency, us);
              && writer == Cycled(old(writer), good, frequency, transportValid, ms, us, rawCode, readSucceeded)
              && rtFrequency == (if good then frequency else old(rtFrequency))
              && rtLastTicks == (if good then ticks else old(rtLastTicks))
    {
      hide Clocked, Judged;
      ghost var good := ClockGood(writer, rtFrequency, rtLastTicks, ticks, frequency, us);
      ClockedFlags(writer, good, frequency, transportValid, ms, us);
      TakeClock(ticks, frequency, transportValid, ms, us);
      Judge(rawCode, readSucceeded, ms, us);
    }

    method Judge(rawCode: int, readSucceeded: bool, ms: Option<u64>, us: Option<u64>)
      requires !writer.rtSampleValid && (writer.clockValid ==> ms.Some?) && (writer.rtClockValid ==> us.Some?)
      modifies this`writer
      ensures writer == Judged(old(writer), rawCode, readSucceeded, ms, us)
    {
      if !writer.transportValid {
        writer := writer.(reason := TransportInvalid);
      } else if !writer.clockValid {
        writer := writer.(reason := ClockInvalid);
      } else if !readSucceeded {
        writer := writer.(reason := ReadError);
      } else {
        TakeSample(rawCode, ms.value, us);
      }
    }

    /** The sample part of a good cycle; an exhausted sequence number offers no real-time sample. */
    method TakeSample(rawCode: int, nowMs: u64, us: Option<u64>)
      requires !writer.rtSampleValid && (writer.rtClockValid ==> us.Some?)
      modifies this`writer
      ensures writer == Sampled(old(writer), rawCode, nowMs, us)
    {
      if writer.rtClockValid && us.value > writer.capturedAtUs && writer.sequence != MAX64 {
        writer := writer.(capturedAtUs := us.value, rtSampleValid := true);
      }
      writer := writer.(rawCode := rawCode, capturedAtMs := nowMs);
      if writer.sequence != MAX64 {
        writer := writer.(sequence := writer.sequence + 1);
      }
      writer := writer.(hasSample := true, reason := Reason.Valid);
    }

    /** Publish(): the word-by-word publication is the protocol of module Seqlock. */
    ghost method Publish()
      modifies this`log
      ensures log == old(log) + [writer]
    {
      log := log + [writer];
    }

    /** One PDO cycle from the raw clock: the sample time is the exact floor of the native clock. */
    method ObserveFromPdo(rawCode: int, readSucceeded: bool, qpcTicks: i64, frequency: u64, transportValid: bool)
      requires Valid()
      modifies this
      ensures Valid()
      ensures old(writer).configured ==> log == old(log) + [writer]
      ensures !old(writer).configured ==> log == old(log) && writer == old(writer)
      ensures old(writer).configured && Sample(writer) ==>
                && writer.rawCode == rawCode && writer.sequence == old(writer).sequence + 1
                && Converted(qpcTicks, frequency, 1000000) == Some(writer.capturedAtUs)
                && Converted(qpcTicks, frequency, 1000) == Some(writer.capturedAtMs)
    {
      var ms := QpcMilliseconds(qpcTicks, frequency);
      var us := QpcMicroseconds(qpcTicks, frequency);
      Observe(rawCode, readSucceeded, if qpcTicks < 0 then 0 else qpcTicks, frequency, transportValid, ms, us);
    }
  }
}
