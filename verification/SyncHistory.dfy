/**
 EDM206 synchronised history: a ring of 128 rows that passes from the real-time
 writer to one reader at a fault and back again after the reader has finished.
 */
module SyncHistory {
  import opened Numbers
  import opened Optional

  const CAPACITY: nat := 128
  const AXIS_COUNT: nat := 3

  datatype Identity = Identity(session: u64, epoch: u64, ownerGeneration: nat)

  predicate ValidIdentity(id: Identity) {
    id.session != 0 && id.epoch != 0 && id.ownerGeneration != 0
  }

  datatype Flag =
    | Complete | FrameCurrent | MappingCurrent | SourceIntervalValid | FaultSample
    | PartialFault | SourceFresh | ForceZero | ClockValid

  // ------------------------------------------------ what a row is made from

  datatype Control = Control(identity: Identity, tick: u64, nowUs: u64, kd: real, flush: bool)
  datatype Written = Written(tick: u64, csv: int)
  datatype Input = Input(identity: Identity, tick: u64, sourceUs: u64, unwrappedPulse: real)
  datatype Pending = Pending(control: Option<Control>, written: Option<Written>, input: Option<Input>)

  datatype FrameAxis = FrameAxis(commandPulse: real, actualPulse: real, followingErrorPulse: real)
  datatype Axis = Axis(
    control: Option<Control>, written: Option<int>, input: Option<Input>,
    frame: Option<FrameAxis>, reference: Option<real>)

  datatype Accepted = Accepted(
    identity: Identity, tick: u64, sourceUs: u64, frameGeneration: u64, csv: seq<int>, valid: bool, allSixZero: bool)

  const NO_ACCEPTED := Accepted(Identity(0, 0, 0), 0, 0, 0, [], false, false)

  datatype Row = Row(
    identity: Identity, tick: u64, sourceUs: u64, sourceDeltaUs: u64,
    mode: nat, phase: nat, child: nat, flags: set<Flag>, axis: seq<Axis>, priorAccepted: Accepted)

  const BLANK := Row(Identity(0, 0, 0), 0, 0, 0, 0, 0, 0, {}, [], NO_ACCEPTED)

  datatype Header = Header(
    session: u64, faultTick: u64, faultUs: u64, firstTick: u64, lastTick: u64, totalRows: u64,
    containmentTick: u64, containmentSourceUs: u64, reason: nat, axis: nat, site: nat, mode: nat, count: nat,
    faultRowPartial: bool, zeroImageAccepted: bool)

  const NO_HEADER := Header(0, 0, 0, 0, 0, 0, 0, 0, 0, 0, 0, 0, 0, false, false)

  datatype State = Idle | Recording | Frozen | Ready | Reading

  predicate OwnedByReader(state: State) { state.Frozen? || state.Ready? || state.Reading? }

  // ------------------------------------------------------------- honest rows

  /** An axis of a new row takes a pending value only when it was captured for exactly this row. */
  function AxisOf(p: Pending, identity: Identity, tick: u64, sourceUs: u64): Axis {
    Axis(
      if p.control.Some? && p.control.value.tick == tick && p.control.value.nowUs == sourceUs
         && p.control.value.identity == identity then p.control else None,
      if p.written.Some? && p.written.value.tick == tick then Some(p.written.value.csv) else None,
      if p.input.Some? && p.input.value.identity == identity && p.input.value.tick == tick
         && p.input.value.sourceUs == sourceUs then p.input else None,
      None, None)
  }

  function AxesOf(pending: seq<Pending>, identity: Identity, tick: u64, sourceUs: u64): (axes: seq<Axis>)
    ensures |axes| == |pending|
  {
    seq(|pending|, i requires 0 <= i < |pending| => AxisOf(pending[i], identity, tick, sourceUs))
  }

  predicate AxisHonest(a: Axis, row: Row) {
    && (a.control.Some? ==> a.control.value.identity == row.identity && a.control.value.tick == row.tick
                            && a.control.value.nowUs == row.sourceUs)
    && (a.input.Some? ==> a.input.value.identity == row.identity && a.input.value.tick == row.tick
                          && a.input.value.sourceUs == row.sourceUs)
    && (a.frame.Some? <==> FrameCurrent in row.flags)
    && (a.reference.Some? <==> FrameCurrent in row.flags && MappingCurrent in row.flags)
  }

  /** No value of a row was captured for another tick, source time or identity. */
  predicate RowHonest(row: Row, session: u64) {
    && row.identity.session == session && row.tick != 0 && |row.axis| == AXIS_COUNT
    && (forall a :: a in row.axis ==> AxisHonest(a, row))
    && (row.priorAccepted.valid ==>
          && row.priorAccepted.identity == row.identity
          && row.priorAccepted.tick < row.tick && row.priorAccepted.sourceUs < row.sourceUs)
  }

  const INTERVAL: set<Flag> := {Complete, FrameCurrent, SourceFresh, ClockValid}

  /** A source interval is claimed only between two complete current rows at consecutive ticks of one owner. */
  predicate Follows(before: Option<Row>, row: Row) {
    && (before.Some? ==> before.value.tick < row.tick)
    && (SourceIntervalValid !in row.flags ==> row.sourceDeltaUs == 0)
    && (SourceIntervalValid in row.flags ==>
          && before.Some? && row.tick == before.value.tick + 1
          && row.identity == before.value.identity
          && INTERVAL <= before.value.flags && INTERVAL <= row.flags
          && 0 < row.sourceDeltaUs == row.sourceUs - before.value.sourceUs)
  }

  function LastOf(log: seq<Row>): Option<Row> {
    if log == [] then None else Some(log[|log| - 1])
  }

  ghost predicate Honest(log: seq<Row>, session: u64) {
    forall i: nat :: i < |log| ==> RowHonest(log[i], session) && Follows(LastOf(log[..i]), log[i])
  }

  lemma HonestAppend(log: seq<Row>, session: u64, row: Row)
    requires Honest(log, session) && RowHonest(row, session) && Follows(LastOf(log), row)
    ensures Honest(log + [row], session)
  {
    var next := log + [row];
    forall i: nat | i < |next| ensures RowHonest(next[i], session) && Follows(LastOf(next[..i]), next[i]) {
      assert next[..i] == log[..i];
      assert log[..|log|] == log;
    }
  }

  lemma HonestPrefix(log: seq<Row>, session: u64, n: nat)
    requires Honest(log, session) && n <= |log|
    ensures Honest(log[..n], session)
  {
    forall i: nat | i < n ensures RowHonest(log[..n][i], session) && Follows(LastOf(log[..n][..i]), log[..n][i]) {
      assert log[..n][..i] == log[..i];
    }
  }

  /** Ticks strictly increase from row to row, whatever rows lie between them. */
  lemma {:induction false} TicksIncrease(log: seq<Row>, session: u64, i: nat, j: nat)
    requires Honest(log, session) && i < j < |log|
    ensures log[i].tick < log[j].tick
    decreases j
  {
    assert Follows(LastOf(log[..j]), log[j]);
    assert log[..j][|log[..j]| - 1] == log[j - 1];
    if i < j - 1 {
      TicksIncrease(log, session, i, j - 1);
    }
  }

  // --------------------------------------------------------------- the ring

  /** The ring holds the most recent rows, each at its number modulo the capacity. */
  ghost predicate Kept(rows: seq<Row>, next: nat, count: nat, log: seq<Row>) {
    && |rows| == CAPACITY && next == |log| % CAPACITY && count == Least(|log|, CAPACITY)
    && forall i :: 0 <= i < |log| && i + CAPACITY >= |log| ==> rows[i % CAPACITY] == log[i]
  }

  function LastSlot(next: nat): nat { (next + CAPACITY - 1) % CAPACITY }

  function FirstSlot(next: nat, count: nat): nat
    requires count <= CAPACITY
  {
    (next + CAPACITY - count) % CAPACITY
  }

  lemma KeptAppend(rows: seq<Row>, next: nat, count: nat, log: seq<Row>, row: Row)
    requires Kept(rows, next, count, log)
    ensures Kept(rows[next := row], (next + 1) % CAPACITY, if count < CAPACITY then count + 1 else count, log + [row])
    ensures LastSlot((next + 1) % CAPACITY) == next
  {
    var after := rows[next := row];
    forall i | 0 <= i <= |log| && i + CAPACITY >= |log| + 1 ensures after[i % CAPACITY] == (log + [row])[i] {
      if i < |log| {
        assert i % CAPACITY != next;
      }
    }
  }

  lemma KeptLast(rows: seq<Row>, next: nat, count: nat, log: seq<Row>)
    requires Kept(rows, next, count, log)
    ensures count == 0 <==> log == []
    ensures log != [] ==> LastSlot(next) == (|log| - 1) % CAPACITY && rows[LastSlot(next)] == log[|log| - 1]
  {
  }

  lemma KeptReplaceLast(rows: seq<Row>, next: nat, count: nat, log: seq<Row>, row: Row)
    requires Kept(rows, next, count, log) && log != []
    ensures Kept(rows[LastSlot(next) := row], next, count, log[..|log| - 1] + [row])
  {
    KeptLast(rows, next, count, log);
    var after, changed := rows[LastSlot(next) := row], log[..|log| - 1] + [row];
    forall i | 0 <= i < |log| && i + CAPACITY >= |log| ensures after[i % CAPACITY] == changed[i] {
      if i < |log| - 1 {
        assert i % CAPACITY != LastSlot(next);
      }
    }
  }

  lemma SlotOf(n: nat, count: nat, index: nat)
    requires count <= CAPACITY && count <= n && index < count
    ensures (FirstSlot(n % CAPACITY, count) + index) % CAPACITY == (n - count + index) % CAPACITY
  {
    var next, q := n % CAPACITY, n / CAPACITY;
    var x := next - count + index;
    assert n - count + index == x + CAPACITY * q;
    var first := FirstSlot(next, count);
    assert first == if count <= next then next - count else next - count + CAPACITY;
  }

  /** Slot first + index of a frozen ring holds row number index of the retained ones. */
  lemma KeptAt(rows: seq<Row>, next: nat, count: nat, log: seq<Row>, index: nat)
    requires Kept(rows, next, count, log) && index < count
    ensures rows[(FirstSlot(next, count) + index) % CAPACITY] == log[|log| - count + index]
  {
    SlotOf(|log|, count, index);
  }

  lemma KeptFirst(rows: seq<Row>, next: nat, count: nat, log: seq<Row>)
    requires Kept(rows, next, count, log) && count > 0
    ensures FirstSlot(next, count) < CAPACITY && rows[FirstSlot(next, count)] == log[|log| - count]
  {
    SlotOf(|log|, count, 0);
  }

  // --------------------------------------------------------- frozen header

  ghost predicate HeaderStates(h: Header, log: seq<Row>, session: u64) {
    && log != [] && h.session == session && h.count == Least(|log|, CAPACITY)
    && h.totalRows == Least(|log|, MAX64)
    && h.firstTick == log[|log| - h.count].tick
    && h.faultTick == h.lastTick == log[|log| - 1].tick
    && FaultSample in log[|log| - 1].flags && (h.faultRowPartial <==> PartialFault in log[|log| - 1].flags)
  }

  /** What a sealed header takes from the fault, with no containment yet. */
  predicate HeaderNames(h: Header, fault: Fault, faultAxis: nat, mode: nat) {
    && h.faultUs == fault.nowUs && h.reason == fault.reason && h.site == fault.site && h.axis == faultAxis
        && h.mode == mode
    && !h.zeroImageAccepted && h.containmentTick == h.containmentSourceUs == 0
  }

  function SealedHeader(session: u64, fault: Fault, faultAxis: nat, mode: nat, count: nat, totalRows: u64,
                        first: Row, last: Row): Header
  {
    NO_HEADER.(
      session := session, faultTick := fault.tick, faultUs := fault.nowUs, reason := fault.reason, axis := faultAxis,
      site := fault.site, mode := mode, count := count, totalRows := totalRows,
      firstTick := first.tick, lastTick := last.tick, faultRowPartial := PartialFault in last.flags)
  }

  lemma SealedHeaderStates(log: seq<Row>, session: u64, fault: Fault, faultAxis: nat, mode: nat, totalRows: u64)
    requires log != [] && totalRows == Least(|log|, MAX64)
    requires log[|log| - 1].tick == fault.tick && FaultSample in log[|log| - 1].flags
    ensures var count := Least(|log|, CAPACITY);
            HeaderStates(SealedHeader(session, fault, faultAxis, mode, count, totalRows, log[|log| - count],
                log[|log| - 1]),
                         log, session)
  {
  }

  /** The row a fault is marked in: the fault flag, and no input that is not of the fault's own sample. */
  function Marked(row: Row, identity: Identity, nowUs: u64): Row {
    var flagged := row.(flags := row.flags + {FaultSample});
    if row.identity == identity && row.sourceUs == nowUs then flagged
    else flagged.(axis := seq(|row.axis|, i requires 0 <= i < |row.axis| => row.axis[i].(input := None)))
  }

  lemma MarkedIsHonest(row: Row, identity: Identity, nowUs: u64, session: u64, before: Option<Row>)
    requires RowHonest(row, session) && Follows(before, row)
    ensures RowHonest(Marked(row, identity, nowUs), session) && Follows(before, Marked(row, identity, nowUs))
  {
    var m := Marked(row, identity, nowUs);
    forall a | a in m.axis ensures AxisHonest(a, m) {
      var i :| 0 <= i < |m.axis| && m.axis[i] == a;
      assert AxisHonest(row.axis[i], row);
    }
  }

  /** The row Append makes, before its caller says more about it. */
  function NewRow(identity: Identity, tick: u64, sourceUs: u64, mode: nat, phase: nat, child: nat,
                  before: Option<Row>, pending: seq<Pending>, accepted: Accepted): Row
  {
    var consecutive := before.Some? && before.value.tick != 0 && tick == before.value.tick + 1
                       && sourceUs > before.value.sourceUs;
    Row(identity, tick, sourceUs, if consecutive then sourceUs - before.value.sourceUs else 0,
        mode, phase, child, if consecutive then {SourceIntervalValid} else {},
        AxesOf(pending, identity, tick, sourceUs),
        if accepted.valid && accepted.identity == identity && accepted.tick < tick && accepted.sourceUs < sourceUs
        then accepted else NO_ACCEPTED)
  }

  datatype Frame = Frame(identity: Identity, tick: u64, nowUs: u64, sourceFresh: bool, clockValid: bool,
      axis: seq<FrameAxis>)

  /** Whether ObserveFrame lets the new row keep the interval that Append computed. */
  predicate IntervalCurrent(before: Option<Row>, f: Frame, complete: bool) {
    && before.Some? && complete && f.sourceFresh && f.clockValid && INTERVAL <= before.value.flags
    && before.value.identity.epoch == f.identity.epoch
    && before.value.identity.ownerGeneration == f.identity.ownerGeneration
  }

  function FrameFlags(f: Frame, complete: bool, mappingCurrent: bool, forceZero: bool): set<Flag> {
    {FrameCurrent} + (if complete then {Complete} else {}) + (if mappingCurrent then {MappingCurrent} else {})
    + (if f.sourceFresh then {SourceFresh} else {}) + (if f.clockValid then {ClockValid} else {})
    + (if forceZero then {ForceZero} else {})
  }

  function WithFrame(a: Axis, f: FrameAxis, mappingCurrent: bool, reference: real): Axis {
    a.(frame := Some(f), reference := if mappingCurrent then Some(reference) else a.reference)
  }

  function FramedAxes(axis: seq<Axis>, f: Frame, mappingCurrent: bool, reference: seq<real>): (axes: seq<Axis>)
    requires |axis| <= |f.axis| && |axis| <= |reference|
    ensures |axes| == |axis|
  {
    seq(|axis|, i requires 0 <= i < |axis| => WithFrame(axis[i], f.axis[i], mappingCurrent, reference[i]))
  }

  /** The row ObserveFrame leaves, made from the one Append returned. */
  function Framed(row: Row, before: Option<Row>, f: Frame, complete: bool, mappingCurrent: bool,
                  reference: seq<real>, forceZero: bool): Row
    requires |row.axis| <= |f.axis| && |row.axis| <= |reference|
  {
    var kept := if IntervalCurrent(before, f, complete) then row
                else row.(flags := row.flags - {SourceIntervalValid}, sourceDeltaUs := 0);
    kept.(flags := kept.flags + FrameFlags(f, complete, mappingCurrent, forceZero),
          axis := FramedAxes(row.axis, f, mappingCurrent, reference))
  }

  /** The new row's axes stay honest under what ObserveFrame adds, whatever becomes of its interval. */
  lemma FramedRowHonest(made: Row, before: Option<Row>, f: Frame, complete: bool, mappingCurrent: bool,
                        reference: seq<real>, forceZero: bool, pending: seq<Pending>)
    requires |pending| == AXIS_COUNT <= |f.axis| && AXIS_COUNT <= |reference| && f.tick != 0
    requires made.identity == f.identity && made.tick == f.tick && made.sourceUs == f.nowUs
    requires made.axis == AxesOf(pending, f.identity, f.tick, f.nowUs) && made.flags <= {SourceIntervalValid}
    requires made.priorAccepted.valid ==>
               && made.priorAccepted.identity == made.identity
               && made.priorAccepted.tick < made.tick && made.priorAccepted.sourceUs < made.sourceUs
    ensures RowHonest(Framed(made, before, f, complete, mappingCurrent, reference, forceZero), f.identity.session)
  {
    var framed := Framed(made, before, f, complete, mappingCurrent, reference, forceZero);
    assert FrameCurrent in framed.flags && (MappingCurrent in framed.flags <==> mappingCurrent);
    forall a | a in framed.axis ensures AxisHonest(a, framed) {
      var i :| 0 <= i < |framed.axis| && framed.axis[i] == a;
      assert a == WithFrame(AxisOf(pending[i], f.identity, f.tick, f.nowUs), f.axis[i], mappingCurrent, reference[i]);
    }
  }

  lemma FramedIsHonest(before: Option<Row>, f: Frame, complete: bool, mappingCurrent: bool, reference: seq<real>,
                       forceZero: bool, mode: nat, phase: nat, child: nat, pending: seq<Pending>, accepted: Accepted)
    requires |pending| == AXIS_COUNT <= |f.axis| && AXIS_COUNT <= |reference| && f.tick != 0
    requires before.Some? ==> before.value.tick < f.tick && before.value.identity.session == f.identity.session
    ensures var made := NewRow(f.identity, f.tick, f.nowUs, mode, phase, child, before, pending, accepted);
            var framed := Framed(made, before, f, complete, mappingCurrent, reference, forceZero);
            RowHonest(framed, f.identity.session) && Follows(before, framed)
  {
    var made := NewRow(f.identity, f.tick, f.nowUs, mode, phase, child, before, pending, accepted);
    FramedRowHonest(made, before, f, complete, mappingCurrent, reference, forceZero, pending);
  }

  function Partial(row: Row): Row {
    row.(flags := (row.flags + {PartialFault}) - {SourceIntervalValid}, sourceDeltaUs := 0)
  }

  lemma PartialIsHonest(identity: Identity, tick: u64, sourceUs: u64, mode: nat, phase: nat, child: nat,
                        before: Option<Row>, pending: seq<Pending>, accepted: Accepted)
    requires |pending| == AXIS_COUNT && tick != 0 && (before.Some? ==> before.value.tick < tick)
    ensures var row := Partial(NewRow(identity, tick, sourceUs, mode, phase, child, before, pending, accepted));
            RowHonest(row, identity.session) && Follows(before, row)
  {
    var row := Partial(NewRow(identity, tick, sourceUs, mode, phase, child, before, pending, accepted));
    forall a | a in row.axis ensures AxisHonest(a, row) {
      var i :| 0 <= i < |row.axis| && row.axis[i] == a;
    }
  }

  // ------------------------------------------------------- complete rows

  /** A row carries on each axis exactly the pending values captured for its own identity, tick and time. */
  ghost predicate Carries(row: Row, pending: seq<Pending>) {
    && |row.axis| == |pending|
    && forall i :: 0 <= i < |pending| ==>
         && (forall c: Control :: row.axis[i].control == Some(c) <==>
               && pending[i].control == Some(c) && c.identity == row.identity
               && c.tick == row.tick && c.nowUs == row.sourceUs)
         && (forall v: int :: row.axis[i].written == Some(v) <==> pending[i].written == Some(Written(row.tick, v)))
         && (forall x: Input :: row.axis[i].input == Some(x) <==>
               && pending[i].input == Some(x) && x.identity == row.identity
               && x.tick == row.tick && x.sourceUs == row.sourceUs)
  }

  /** A row carries the latest receipt exactly when it is of the same identity and earlier in tick and time. */
  predicate CarriesReceipt(row: Row, accepted: Accepted) {
    var earlier := accepted.valid && accepted.identity == row.identity && accepted.tick < row.tick
                   && accepted.sourceUs < row.sourceUs;
    (earlier ==> row.priorAccepted == accepted) && (!earlier ==> !row.priorAccepted.valid)
  }

  predicate Names(row: Row, identity: Identity, tick: u64, sourceUs: u64, mode: nat, phase: nat, child: nat) {
    && row.identity == identity && row.tick == tick && row.sourceUs == sourceUs
    && row.mode == mode && row.phase == phase && row.child == child
  }

  /** The row behind it is one tick earlier, and its time is earlier too. */
  predicate NextTick(before: Option<Row>, tick: u64, sourceUs: u64) {
    before.Some? && before.value.tick != 0 && tick == before.value.tick + 1 && sourceUs > before.value.sourceUs
  }

  /** Two rows that the source lets a source interval span. */
  predicate Spans(before: Option<Row>, f: Frame, complete: bool) {
    && NextTick(before, f.tick, f.nowUs) && complete && f.sourceFresh && f.clockValid
    && Complete in before.value.flags && FrameCurrent in before.value.flags
    && SourceFresh in before.value.flags && ClockValid in before.value.flags
    && before.value.identity.epoch == f.identity.epoch
    && before.value.identity.ownerGeneration == f.identity.ownerGeneration
  }

  /** A frame row says everything the frame says, and nothing else. */
  predicate ShowsFrame(row: Row, before: Option<Row>, f: Frame, complete: bool, mappingCurrent: bool,
                       reference: seq<real>, forceZero: bool)
    requires |f.axis| >= AXIS_COUNT && |reference| >= AXIS_COUNT
  {
    && FrameCurrent in row.flags && (Complete in row.flags <==> complete)
    && (MappingCurrent in row.flags <==> mappingCurrent) && (SourceFresh in row.flags <==> f.sourceFresh)
    && (ClockValid in row.flags <==> f.clockValid) && (ForceZero in row.flags <==> forceZero)
    && PartialFault !in row.flags && FaultSample !in row.flags
    && (SourceIntervalValid in row.flags <==> Spans(before, f, complete))
    && row.sourceDeltaUs == (if Spans(before, f, complete) then f.nowUs - before.value.sourceUs else 0)
    && |row.axis| == AXIS_COUNT
    && forall i :: 0 <= i < AXIS_COUNT ==>
         && row.axis[i].frame == Some(f.axis[i])
         && row.axis[i].reference == if mappingCurrent then Some(reference[i]) else None
  }

  lemma NewRowIsComplete(identity: Identity, tick: u64, sourceUs: u64, mode: nat, phase: nat, child: nat,
                         before: Option<Row>, pending: seq<Pending>, accepted: Accepted)
    ensures var row := NewRow(identity, tick, sourceUs, mode, phase, child, before, pending, accepted);
            && Names(row, identity, tick, sourceUs, mode, phase, child)
            && Carries(row, pending) && CarriesReceipt(row, accepted)
  {
  }

  /** What ObserveFrame adds leaves the captured values and the receipt alone. */
  lemma FramedCarries(made: Row, before: Option<Row>, f: Frame, complete: bool, mappingCurrent: bool,
                      reference: seq<real>, forceZero: bool, pending: seq<Pending>, accepted: Accepted)
    requires |made.axis| == |pending| == AXIS_COUNT <= |f.axis| && AXIS_COUNT <= |reference|
    requires Carries(made, pending) && CarriesReceipt(made, accepted)
    ensures var row := Framed(made, before, f, complete, mappingCurrent, reference, forceZero);
            && Names(row, made.identity, made.tick, made.sourceUs, made.mode, made.phase, made.child)
            && Carries(row, pending) && CarriesReceipt(row, accepted)
  {
    hide FrameFlags, IntervalCurrent;
    var row := Framed(made, before, f, complete, mappingCurrent, reference, forceZero);
    forall i | 0 <= i < AXIS_COUNT
      ensures row.axis[i].control == made.axis[i].control && row.axis[i].written == made.axis[i].written
              && row.axis[i].input == made.axis[i].input
    {
    }
  }

  lemma FlagsShown(flags: set<Flag>, f: Frame, complete: bool, mappingCurrent: bool, forceZero: bool)
    requires flags <= {SourceIntervalValid}
    ensures var shown := flags + FrameFlags(f, complete, mappingCurrent, forceZero);
            && FrameCurrent in shown && (Complete in shown <==> complete)
            && (MappingCurrent in shown <==> mappingCurrent) && (SourceFresh in shown <==> f.sourceFresh)
            && (ClockValid in shown <==> f.clockValid) && (ForceZero in shown <==> forceZero)
            && PartialFault !in shown && FaultSample !in shown
            && (SourceIntervalValid in shown <==> SourceIntervalValid in flags)
  {
  }

  lemma SpansWhen(before: Option<Row>, f: Frame, complete: bool)
    ensures Spans(before, f, complete) <==> NextTick(before, f.tick, f.nowUs) && IntervalCurrent(before, f, complete)
  {
  }

  lemma FramedShows(made: Row, before: Option<Row>, f: Frame, complete: bool, mappingCurrent: bool,
                    reference: seq<real>, forceZero: bool)
    requires |made.axis| == AXIS_COUNT <= |f.axis| && AXIS_COUNT <= |reference|
    requires forall i :: 0 <= i < AXIS_COUNT ==> made.axis[i].reference == None
    requires made.flags == (if NextTick(before, f.tick, f.nowUs) then {SourceIntervalValid} else {})
    requires made.sourceDeltaUs == if NextTick(before, f.tick, f.nowUs) then f.nowUs - before.value.sourceUs else 0
    ensures ShowsFrame(Framed(made, before, f, complete, mappingCurrent, reference, forceZero), before, f, complete,
                       mappingCurrent, reference, forceZero)
  {
    SpansWhen(before, f, complete);
    var kept := if IntervalCurrent(before, f, complete) then made.flags else made.flags - {SourceIntervalValid};
    FlagsShown(kept, f, complete, mappingCurrent, forceZero);
    hide FrameFlags, IntervalCurrent, Spans, NextTick;
  }

  /** An appended frame row, whole. */
  ghost predicate ShowsRow(row: Row, before: Option<Row>, f: Frame, complete: bool, mappingCurrent: bool,
                           reference: seq<real>, forceZero: bool, mode: nat, phase: nat, child: nat,
                           pending: seq<Pending>, accepted: Accepted)
    requires |f.axis| >= AXIS_COUNT && |reference| >= AXIS_COUNT
  {
    && Names(row, f.identity, f.tick, f.nowUs, mode, phase, child)
    && Carries(row, pending) && CarriesReceipt(row, accepted)
    && ShowsFrame(row, before, f, complete, mappingCurrent, reference, forceZero)
  }

  lemma FramedIsComplete(before: Option<Row>, f: Frame, complete: bool, mappingCurrent: bool, reference: seq<real>,
                         forceZero: bool, mode: nat, phase: nat, child: nat, pending: seq<Pending>, accepted: Accepted)
    requires |pending| == AXIS_COUNT <= |f.axis| && AXIS_COUNT <= |reference|
    ensures var row := Framed(NewRow(f.identity, f.tick, f.nowUs, mode, phase, child, before, pending, accepted),
                              before, f, complete, mappingCurrent, reference, forceZero);
            ShowsRow(row, before, f, complete, mappingCurrent, reference, forceZero, mode, phase, child, pending,
                     accepted)
  {
    NewRowIsComplete(f.identity, f.tick, f.nowUs, mode, phase, child, before, pending, accepted);
    var made := NewRow(f.identity, f.tick, f.nowUs, mode, phase, child, before, pending, accepted);
    assert made.flags == if NextTick(before, f.tick, f.nowUs) then {SourceIntervalValid} else {};
    assert made.sourceDeltaUs == if NextTick(before, f.tick, f.nowUs) then f.nowUs - before.value.sourceUs else 0;
    assert forall i :: 0 <= i < AXIS_COUNT ==> made.axis[i].reference == None;
    hide NewRow, Framed, Carries, CarriesReceipt, ShowsFrame, AxesOf;
    FramedCarries(made, before, f, complete, mappingCurrent, reference, forceZero, pending, accepted);
    FramedShows(made, before, f, complete, mappingCurrent, reference, forceZero);
  }

  /** The log after a frame of a running session. */
  function FrameLog(before: seq<Row>, f: Frame, complete: bool, mappingCurrent: bool, reference: seq<real>,
                    forceZero: bool, mode: nat, phase: nat, child: nat, pending: seq<Pending>,
                    accepted: Accepted): seq<Row>
    requires |pending| == AXIS_COUNT <= |f.axis| && AXIS_COUNT <= |reference|
  {
    if f.tick == 0 || (before != [] && f.tick <= before[|before| - 1].tick) then before
    else
      var made := NewRow(f.identity, f.tick, f.nowUs, mode, phase, child, LastOf(before), pending, accepted);
      before + [Framed(made, LastOf(before), f, complete, mappingCurrent, reference, forceZero)]
  }

  /** A frame with a later nonzero tick, and no other, adds one row, which shows it whole. */
  ghost predicate ShowsFrameLog(log: seq<Row>, before: seq<Row>, f: Frame, complete: bool, mappingCurrent: bool,
                                reference: seq<real>, forceZero: bool, mode: nat, phase: nat, child: nat,
                                pending: seq<Pending>, accepted: Accepted)
    requires |f.axis| >= AXIS_COUNT && |reference| >= AXIS_COUNT
  {
    if f.tick != 0 && (before == [] || before[|before| - 1].tick < f.tick) then
      && |log| == |before| + 1 && log[..|before|] == before
      && ShowsRow(log[|before|], LastOf(before), f, complete, mappingCurrent, reference, forceZero, mode, phase,
                  child, pending, accepted)
    else log == before
  }

  lemma FrameLogIsComplete(before: seq<Row>, f: Frame, complete: bool, mappingCurrent: bool, reference: seq<real>,
                           forceZero: bool, mode: nat, phase: nat, child: nat, pending: seq<Pending>,
                           accepted: Accepted)
    requires |pending| == AXIS_COUNT <= |f.axis| && AXIS_COUNT <= |reference|
    ensures ShowsFrameLog(FrameLog(before, f, complete, mappingCurrent, reference, forceZero, mode, phase, child,
                                   pending, accepted),
                          before, f, complete, mappingCurrent, reference, forceZero, mode, phase, child, pending,
                          accepted)
  {
    hide NewRow, Framed, ShowsRow;
    FramedIsComplete(LastOf(before), f, complete, mappingCurrent, reference, forceZero, mode, phase, child, pending,
                     accepted);
  }

  /** A complete frame row shows the sample that was captured for it. */
  lemma SampleShown(row: Row, pending: seq<Pending>, index: nat, sample: Control, csv: int, capture: Input, f: Frame,
                    complete: bool, mappingCurrent: bool, reference: seq<real>, forceZero: bool)
    requires index < AXIS_COUNT == |pending| && |f.axis| >= AXIS_COUNT && |reference| >= AXIS_COUNT
    requires pending[index] == Pending(Some(sample), Some(Written(f.tick, csv)), Some(capture))
    requires row.identity == sample.identity == capture.identity
    requires row.tick == f.tick == sample.tick == capture.tick && row.sourceUs == sample.nowUs == capture.sourceUs
    requires Carries(row, pending)
    requires exists before :: ShowsFrame(row, before, f, complete, mappingCurrent, reference, forceZero)
    ensures row.axis[index] == Axis(Some(sample), Some(csv), Some(capture), Some(f.axis[index]),
                                    if mappingCurrent then Some(reference[index]) else None)
  {
    assert row.axis[index].control == Some(sample) && row.axis[index].input == Some(capture);
    assert row.axis[index].written == Some(csv);
  }

  /** What marking keeps of a row: everything but the inputs of another sample, and the fault flag is added. */
  predicate ShowsMark(row: Row, was: Row, identity: Identity, nowUs: u64) {
    && row == was.(flags := was.flags + {FaultSample}, axis := row.axis) && |row.axis| == |was.axis|
    && forall i :: 0 <= i < |row.axis| ==>
         row.axis[i] == was.axis[i].(input := if was.identity == identity && was.sourceUs == nowUs
                                              then was.axis[i].input else None)
  }

  lemma MarkedIsComplete(was: Row, identity: Identity, nowUs: u64)
    ensures ShowsMark(Marked(was, identity, nowUs), was, identity, nowUs)
  {
    assert was.identity == identity && was.sourceUs == nowUs ==> Marked(was, identity, nowUs).axis == was.axis;
  }

  /** A fault older than the last row is not this ring's fault. */
  predicate Stale(log: seq<Row>, faultTick: u64) {
    log != [] && log[|log| - 1].tick > faultTick
  }

  /** The log whose last row is the one of the fault's tick. */
  function WithFaultRow(log: seq<Row>, faultTick: u64, made: Row): (r: seq<Row>)
    ensures r != []
  {
    if log != [] && log[|log| - 1].tick == faultTick then log else log + [Partial(made)]
  }

  function WithMark(log: seq<Row>, identity: Identity, nowUs: u64): (r: seq<Row>)
    requires log != []
    ensures |r| == |log|
  {
    log[..|log| - 1] + [Marked(log[|log| - 1], identity, nowUs)]
  }

  datatype Fault = Fault(valid: bool, identity: Identity, tick: u64, nowUs: u64, reason: nat, site: nat)

  /** The log that a fault freezes: its row found or appended, and marked. */
  function FrozenLog(log: seq<Row>, fault: Fault, mode: nat, phase: nat, child: nat,
                     pending: seq<Pending>, accepted: Accepted): seq<Row>
  {
    var made := NewRow(fault.identity, fault.tick, fault.nowUs, mode, phase, child, LastOf(log), pending, accepted);
    WithMark(WithFaultRow(log, fault.tick, made), fault.identity, fault.nowUs)
  }

  /** The row a fault finds when no row has its tick: only what was captured for it, and marked partial. */
  ghost predicate ShowsPartial(row: Row, fault: Fault, mode: nat, phase: nat, child: nat, pending: seq<Pending>,
                               accepted: Accepted) {
    && Names(row, fault.identity, fault.tick, fault.nowUs, mode, phase, child)
    && Carries(row, pending) && CarriesReceipt(row, accepted)
    && row.flags == {PartialFault} && row.sourceDeltaUs == 0
    && forall a :: a in row.axis ==> a.frame == None && a.reference == None
  }

  /** The frozen log: its last row is the row of the fault's tick, or an appended partial one, with the fault's mark. */
  ghost predicate ShowsFault(log: seq<Row>, before: seq<Row>, fault: Fault, mode: nat, phase: nat, child: nat,
                             pending: seq<Pending>, accepted: Accepted) {
    && log != []
    && if before != [] && before[|before| - 1].tick == fault.tick then
         && log[..|log| - 1] == before[..|before| - 1]
         && ShowsMark(log[|log| - 1], before[|before| - 1], fault.identity, fault.nowUs)
       else
         && log[..|log| - 1] == before
         && exists was: Row :: ShowsMark(log[|log| - 1], was, fault.identity, fault.nowUs)
                               && ShowsPartial(was, fault, mode, phase, child, pending, accepted)
  }

  lemma PartialIsComplete(before: seq<Row>, fault: Fault, mode: nat, phase: nat, child: nat, pending: seq<Pending>,
                          accepted: Accepted)
    ensures ShowsPartial(Partial(NewRow(fault.identity, fault.tick, fault.nowUs, mode, phase, child, LastOf(before),
                                        pending, accepted)),
                         fault, mode, phase, child, pending, accepted)
  {
    var made := NewRow(fault.identity, fault.tick, fault.nowUs, mode, phase, child, LastOf(before), pending, accepted);
    NewRowIsComplete(fault.identity, fault.tick, fault.nowUs, mode, phase, child, LastOf(before), pending, accepted);
    assert Partial(made).flags == {PartialFault};
  }

  lemma FrozenIsComplete(before: seq<Row>, fault: Fault, mode: nat, phase: nat, child: nat, pending: seq<Pending>,
                         accepted: Accepted)
    ensures ShowsFault(FrozenLog(before, fault, mode, phase, child, pending, accepted), before, fault, mode, phase,
                       child, pending, accepted)
  {
    hide Marked, NewRow, Partial, ShowsPartial, ShowsMark;
    var made := NewRow(fault.identity, fault.tick, fault.nowUs, mode, phase, child, LastOf(before), pending, accepted);
    PartialIsComplete(before, fault, mode, phase, child, pending, accepted);
    var whole := WithFaultRow(before, fault.tick, made);
    MarkedIsComplete(whole[|whole| - 1], fault.identity, fault.nowUs);
    var frozen := FrozenLog(before, fault, mode, phase, child, pending, accepted);
    assert frozen[..|frozen| - 1] == whole[..|whole| - 1];
    if before == [] || before[|before| - 1].tick != fault.tick {
      assert whole[..|whole| - 1] == before && whole[|whole| - 1] == Partial(made);
    }
    assert frozen[|frozen| - 1] == Marked(whole[|whole| - 1], fault.identity, fault.nowUs);
  }

  const NO_PENDING := Pending(None, None, None)

  predicate RecordedMode(mode: nat) { mode == 1 || mode == 3 || mode == 4 }

  /** A receipt says whether the whole accepted image was zero; three axes of it are kept. */
  function Receipt(identity: Identity, tick: u64, sourceUs: u64, generation: u64, csv: seq<int>): Accepted {
    Accepted(identity, tick, sourceUs, generation, csv[..Least(|csv|, AXIS_COUNT)], true,
             forall k :: 0 <= k < |csv| ==> csv[k] == 0)
  }

  // ---------------------------------------------------------------- recorder

  class Recorder {
    const rows: array<Row>
    var pending: seq<Pending>
    var accepted: Accepted
    var header: Header
    var state: State
    var session: u64
    var lastFrozenSession: u64
    var totalRows: u64
    var next: nat
    var count: nat
    var first: nat

    /** Every row appended in this session. */
    ghost var log: seq<Row>

    ghost predicate RingValid()
      reads this`next, this`count, this`log, this`totalRows, this`pending, rows
    {
      && Kept(rows[..], next, count, log) && totalRows == Least(|log|, MAX64)
      && |pending| == AXIS_COUNT
    }

    ghost predicate Valid()
      reads this, rows
    {
      && RingValid() && Honest(log, session)
      && (OwnedByReader(state) ==>
            && HeaderStates(header, log, session) && first == FirstSlot(next, count) && lastFrozenSession == session)
      && (state.Ready? || state.Reading? ==> header.zeroImageAccepted && header.containmentTick >= header.faultTick)
    }

    constructor ()
      ensures Valid() && state.Idle? && log == []
    {
      rows := new Row[CAPACITY](_ => BLANK);
      pending := seq(AXIS_COUNT, _ => NO_PENDING);
      accepted, header, state := NO_ACCEPTED, NO_HEADER, Idle;
      session, lastFrozenSession, totalRows, next, count, first := 0, 0, 0, 0, 0, 0;
      log := [];
    }

    /** Whether Start would admit a call for this session. */
    predicate Starts(newSession: u64, mode: nat)
      reads this
    {
      newSession != 0 && RecordedMode(mode) && newSession != lastFrozenSession && (state.Idle? || state.Recording?)
    }

    /** What an admitted call of a session finds in the ring. */
    ghost function Before(newSession: u64): seq<Row>
      reads this
    {
      if state.Idle? || session != newSession then [] else log
    }

    /** What an admitted call of a session finds pending. */
    ghost function PendingFor(newSession: u64): seq<Pending>
      reads this
    {
      if state.Idle? || session != newSession then seq(AXIS_COUNT, _ => NO_PENDING) else pending
    }

    method Start(newSession: u64, mode: nat) returns (ok: bool)
      requires Valid()
      modifies this
      ensures Valid() && ok == old(Starts(newSession, mode))
      ensures !ok ==> unchanged(this)
      ensures ok ==> state.Recording? && session == newSession && accepted == old(accepted) && header == old(header)
                     && lastFrozenSession == old(lastFrozenSession)
                     && log == old(Before(newSession)) && pending == old(PendingFor(newSession))
    {
      if newSession == 0 || !RecordedMode(mode) || newSession == lastFrozenSession {
        return false;
      }
      if !state.Idle? && !state.Recording? {
        return false;
      }
      if state.Idle? || session != newSession {
        session, next, count, totalRows := newSession, 0, 0, 0;
        pending := seq(AXIS_COUNT, _ => NO_PENDING);
        log := [];
        state := Recording;
      }
      return true;
    }

    method ObserveControl(index: nat, sample: Control, mode: nat)
      requires Valid()
      modifies this
      ensures Valid()
      ensures if index < AXIS_COUNT && old(Starts(sample.identity.session, mode))
              then && log == old(Before(sample.identity.session)) && state.Recording?
                   && session == sample.identity.session && lastFrozenSession == old(lastFrozenSession)
                   && pending == old(PendingFor(sample.identity.session))[
                        index := old(PendingFor(sample.identity.session))[index].(control := Some(sample),
                            written := None)]
              else unchanged(this)
    {
      if index >= AXIS_COUNT {
        return;
      }
      var started := Start(sample.identity.session, mode);
      if started {
        pending := pending[index := pending[index].(control := Some(sample), written := None)];
      }
    }

    method ObserveWritten(index: nat, newSession: u64, mode: nat, tick: u64, csv: int)
      requires Valid()
      modifies this
      ensures Valid()
      ensures if index < AXIS_COUNT && old(Starts(newSession, mode))
              then && log == old(Before(newSession)) && state.Recording?
                   && session == newSession && lastFrozenSession == old(lastFrozenSession)
                   && pending == old(PendingFor(newSession))[
                        index := old(PendingFor(newSession))[index].(written := Some(Written(tick, csv)))]
              else unchanged(this)
    {
      if index >= AXIS_COUNT {
        return;
      }
      var started := Start(newSession, mode);
      if started {
        pending := pending[index := pending[index].(written := Some(Written(tick, csv)))];
      }
    }

    /** decoded: the capture is flagged consumed and decoded and comes from a known source. */
    method ObserveInput(index: nat, capture: Input, decoded: bool, mode: nat)
      requires Valid()
      modifies this
      ensures Valid()
      ensures if index < AXIS_COUNT && capture.tick != 0 && capture.sourceUs != 0 && decoded
                 && ValidIdentity(capture.identity) && old(Starts(capture.identity.session, mode))
              then && log == old(Before(capture.identity.session)) && state.Recording?
                   && session == capture.identity.session && lastFrozenSession == old(lastFrozenSession)
                   && pending == old(PendingFor(capture.identity.session))[
                        index := old(PendingFor(capture.identity.session))[index].(input := Some(capture))]
              else unchanged(this)
    {
      if index >= AXIS_COUNT || capture.tick == 0 || capture.sourceUs == 0 || !decoded
          || !ValidIdentity(capture.identity) {
        return;
      }
      var started := Start(capture.identity.session, mode);
      if started {
        pending := pending[index := pending[index].(input := Some(capture))];
      }
    }

    method Last() returns (row: Row)
      requires RingValid() && count > 0
      ensures log != [] && row == log[|log| - 1]
    {
      KeptLast(rows[..], next, count, log);
      row := rows[(next + CAPACITY - 1) % CAPACITY];
    }

    /** The oldest retained row is at slot first. */
    method FindFirst() returns (row: Row)
      requires RingValid() && count > 0
      modifies this`first
      ensures log != [] && first == FirstSlot(next, count) && row == log[|log| - count]
    {
      KeptFirst(rows[..], next, count, log);
      first := (next + CAPACITY - count) % CAPACITY;
      row := rows[first];
    }

    method RowAt(index: nat) returns (row: Row)
      requires RingValid() && index < count && first == FirstSlot(next, count)
      ensures count == Least(|log|, CAPACITY) && row == log[|log| - count + index]
    {
      KeptAt(rows[..], next, count, log, index);
      row := rows[(first + index) % CAPACITY];
    }

    method ReplaceLast(row: Row)
      requires RingValid() && count > 0
      modifies rows, this`log
      ensures RingValid() && old(log) != [] && log == old(log)[..|old(log)| - 1] + [row]
    {
      KeptLast(rows[..], next, count, log);
      KeptReplaceLast(rows[..], next, count, log, row);
      var slot := (next + CAPACITY - 1) % CAPACITY;
      rows[slot] := row;
      assert rows[..] == old(rows[..])[slot := row];
      log := log[..|log| - 1] + [row];
    }

    method Append(identity: Identity, tick: u64, sourceUs: u64, mode: nat, phase: nat, child: nat) returns (row: Row)
      requires RingValid()
      modifies rows, this`next, this`count, this`totalRows, this`log
      ensures RingValid()
      ensures row == NewRow(identity, tick, sourceUs, mode, phase, child, LastOf(old(log)), pending, accepted)
      ensures log == old(log) + [row] && count > 0
      ensures Names(row, identity, tick, sourceUs, mode, phase, child)
      ensures Carries(row, pending) && CarriesReceipt(row, accepted)
    {
      NewRowIsComplete(identity, tick, sourceUs, mode, phase, child, LastOf(log), pending, accepted);
      hide Carries, CarriesReceipt, Names;
      KeptLast(rows[..], next, count, log);
      var priorTick: u64, priorUs: u64 := 0, 0;
      if count != 0 {
        var last := Last();
        priorTick, priorUs := last.tick, last.sourceUs;
      }
      row := BLANK.(identity := identity, tick := tick, sourceUs := sourceUs, mode := mode, phase := phase,
          child := child);
      if priorTick != 0 && tick == priorTick + 1 && sourceUs > priorUs {
        row := row.(sourceDeltaUs := sourceUs - priorUs, flags := {SourceIntervalValid});
      }
      var axes := [];
      for i := 0 to AXIS_COUNT
        invariant axes == AxesOf(pending, identity, tick, sourceUs)[..i]
      {
        axes := axes + [AxisOf(pending[i], identity, tick, sourceUs)];
      }
      row := row.(axis := axes);
      if accepted.valid && accepted.identity == identity && accepted.tick < tick && accepted.sourceUs < sourceUs {
        row := row.(priorAccepted := accepted);
      }
      Store(row);
    }

    /** The index updates at the end of Append. */
    method Store(row: Row)
      requires RingValid()
      modifies rows, this`next, this`count, this`totalRows, this`log
      ensures RingValid() && log == old(log) + [row] && count > 0
    {
      KeptAppend(rows[..], next, count, log, row);
      rows[next] := row;
      assert rows[..] == old(rows[..])[next := row];
      next := (next + 1) % CAPACITY;
      if count < CAPACITY {
        count := count + 1;
      }
      if totalRows != MAX64 {
        totalRows := totalRows + 1;
      }
      log := log + [row];
    }

    /** A frame becomes one row of the running session unless its tick is zero or not after the last one. */
    method ObserveFrame(f: Frame, mode: nat, phase: nat, child: nat, complete: bool, mappingCurrent: bool,
                        reference: seq<real>, forceZero: bool)
      requires Valid() && |f.axis| >= AXIS_COUNT && |reference| >= AXIS_COUNT
      modifies this, rows
      ensures Valid()
      ensures OwnedByReader(old(state)) ==> unchanged(this) && unchanged(rows)
      ensures !old(Starts(f.identity.session, mode)) ==> unchanged(this) && unchanged(rows)
      ensures old(Starts(f.identity.session, mode)) ==>
                && state.Recording? && session == f.identity.session && pending == old(PendingFor(f.identity.session))
                && accepted == old(accepted) && lastFrozenSession == old(lastFrozenSession)
                && |pending| == AXIS_COUNT
                && log == FrameLog(old(Before(f.identity.session)), f, complete, mappingCurrent, reference, forceZero,
                                   mode, phase, child, pending, accepted)
                && ShowsFrameLog(log, old(Before(f.identity.session)), f, complete, mappingCurrent, reference,
                                 forceZero, mode, phase, child, pending, accepted)
    {
      hide FrameLog, ShowsFrameLog, Kept, Honest, HeaderStates;
      var started := Start(f.identity.session, mode);
      if started {
        FrameLogIsComplete(log, f, complete, mappingCurrent, reference, forceZero, mode, phase, child, pending,
                           accepted);
        ObserveStarted(f, mode, phase, child, complete, mappingCurrent, reference, forceZero);
      }
    }

    /** The rest of ObserveFrame, once the session runs. */
    method ObserveStarted(f: Frame, mode: nat, phase: nat, child: nat, complete: bool, mappingCurrent: bool,
                          reference: seq<real>, forceZero: bool)
      requires Valid() && state.Recording? && session == f.identity.session
      requires |f.axis| >= AXIS_COUNT && |reference| >= AXIS_COUNT
      modifies rows, this`next, this`count, this`totalRows, this`log
      ensures Valid()
      ensures log == FrameLog(old(log), f, complete, mappingCurrent, reference, forceZero, mode, phase, child, pending,
                              accepted)
    {
      hide NewRow, Framed;
      if f.tick == 0 {
        return;
      }
      KeptLast(rows[..], next, count, log);
      var before := None;
      if count != 0 {
        var last := Last();
        if f.tick <= last.tick {
          return;
        }
        before := Some(last);
        assert RowHonest(log[|log| - 1], session);
      }
      FramedIsHonest(before, f, complete, mappingCurrent, reference, forceZero, mode, phase, child, pending, accepted);
      AppendFramed(before, f, mode, phase, child, complete, mappingCurrent, reference, forceZero);
    }

    /** Append and the flags and axis values that ObserveFrame then adds to the row in place. */
    method AppendFramed(ghost before: Option<Row>, f: Frame, mode: nat, phase: nat, child: nat, complete: bool,
                        mappingCurrent: bool, reference: seq<real>, forceZero: bool)
      requires RingValid() && Honest(log, session) && before == LastOf(log)
      requires |f.axis| >= AXIS_COUNT && |reference| >= AXIS_COUNT
      requires var framed := Framed(NewRow(f.identity, f.tick, f.nowUs, mode, phase, child, before, pending, accepted),
                                    before, f, complete, mappingCurrent, reference, forceZero);
               RowHonest(framed, session) && Follows(before, framed)
      modifies rows, this`next, this`count, this`totalRows, this`log
      ensures RingValid() && Honest(log, session)
      ensures log == old(log)
            + [Framed(NewRow(f.identity, f.tick, f.nowUs, mode, phase, child, before, pending, accepted),
                                        before, f, complete, mappingCurrent, reference, forceZero)]
    {
      KeptLast(rows[..], next, count, log);
      var intervalCurrent := false;
      if count != 0 {
        var last := Last();
        intervalCurrent := IntervalCurrent(Some(last), f, complete);
      }
      var row := Append(f.identity, f.tick, f.nowUs, mode, phase, child);
      ghost var made := row;
      row := Dress(row, intervalCurrent, f, complete, mappingCurrent, reference, forceZero);
      HonestAppend(old(log), session, row);
      assert log[..|log| - 1] == old(log);
      ReplaceLast(row);
    }

    /** What ObserveFrame does to the appended row. */
    method Dress(made: Row, intervalCurrent: bool, f: Frame, complete: bool, mappingCurrent: bool,
                 reference: seq<real>, forceZero: bool) returns (row: Row)
      requires |made.axis| == AXIS_COUNT <= |f.axis| && AXIS_COUNT <= |reference|
      ensures forall before :: IntervalCurrent(before, f, complete) == intervalCurrent ==>
                row == Framed(made, before, f, complete, mappingCurrent, reference, forceZero)
    {
      row := made;
      if !intervalCurrent {
        row := row.(flags := row.flags - {SourceIntervalValid}, sourceDeltaUs := 0);
      }
      row := row.(flags := row.flags + FrameFlags(f, complete, mappingCurrent, forceZero));
      var axes := [];
      for i := 0 to AXIS_COUNT
        invariant axes == FramedAxes(made.axis, f, mappingCurrent, reference)[..i]
      {
        axes := axes + [WithFrame(row.axis[i], f.axis[i], mappingCurrent, reference[i])];
      }
      row := row.(axis := axes);
    }

    /** The fault row exists already, or is appended as an honest partial one. */
    method FaultRow(fault: Fault, mode: nat, phase: nat, child: nat) returns (ok: bool)
      requires RingValid() && Honest(log, session) && session == fault.identity.session && fault.tick != 0
      modifies rows, this`next, this`count, this`totalRows, this`log
      ensures RingValid() && Honest(log, session)
      ensures ok <==> !Stale(old(log), fault.tick)
      ensures !ok ==> log == old(log)
      ensures ok ==> log == WithFaultRow(old(log), fault.tick,
                                         NewRow(fault.identity, fault.tick, fault.nowUs, mode, phase, child,
                                                LastOf(old(log)), pending, accepted))
                     && log[|log| - 1].tick == fault.tick && count > 0
    {
      KeptLast(rows[..], next, count, log);
      ghost var before := LastOf(log);
      if count != 0 {
        var last := Last();
        if last.tick == fault.tick {
          return true;
        }
        if last.tick > fault.tick {
          return false;
        }
      }
      PartialIsHonest(fault.identity, fault.tick, fault.nowUs, mode, phase, child, before, pending, accepted);
      var row := Append(fault.identity, fault.tick, fault.nowUs, mode, phase, child);
      ghost var made := row;
      row := Partial(row);
      assert log[..|log| - 1] == old(log);
      HonestAppend(old(log), session, row);
      ReplaceLast(row);
      return true;
    }

    /** The fault flag is set on the last row, whose foreign inputs are dropped. */
    method MarkFault(fault: Fault) returns (row: Row)
      requires RingValid() && Honest(log, session) && count > 0
      modifies rows, this`log
      ensures RingValid() && Honest(log, session) && old(log) != []
      ensures log == WithMark(old(log), fault.identity, fault.nowUs) && row == log[|log| - 1]
      ensures row.tick == old(log)[|old(log)| - 1].tick && FaultSample in row.flags
    {
      row := Last();
      ghost var whole, rest := log, log[..|log| - 1];
      assert RowHonest(whole[|whole| - 1], session) && Follows(LastOf(rest), whole[|whole| - 1]);
      MarkedIsHonest(row, fault.identity, fault.nowUs, session, LastOf(rest));
      row := Marked(row, fault.identity, fault.nowUs);
      HonestPrefix(whole, session, |whole| - 1);
      HonestAppend(rest, session, row);
      ReplaceLast(row);
    }

    /** Freeze: the ring passes out of the writer's hands. */
    method Freeze(fault: Fault, faultAxis: nat, mode: nat, phase: nat, child: nat)
      requires Valid()
      modifies this, rows
      ensures Valid()
      ensures OwnedByReader(old(state)) ==> unchanged(this) && unchanged(rows)
      ensures var admitted := fault.valid && fault.tick != 0 && old(Starts(fault.identity.session, mode));
              var before := old(Before(fault.identity.session));
              && (!admitted ==> unchanged(this) && unchanged(rows))
              && (admitted && Stale(before, fault.tick) ==> state.Recording? && log == before)
              && (admitted && !Stale(before, fault.tick) ==>
                    && state.Frozen? && HeaderNames(header, fault, faultAxis, mode)
                    && accepted == old(accepted) && pending == old(PendingFor(fault.identity.session))
                    && log == FrozenLog(before, fault, mode, phase, child, pending, accepted)
                    && ShowsFault(log, before, fault, mode, phase, child, pending, accepted))
    {
      hide FrozenLog, ShowsFault;
      if !fault.valid || fault.tick == 0 {
        return;
      }
      var started := Start(fault.identity.session, mode);
      if !started {
        return;
      }
      FrozenIsComplete(log, fault, mode, phase, child, pending, accepted);
      FreezeNow(fault, faultAxis, mode, phase, child);
    }

    method FreezeNow(fault: Fault, faultAxis: nat, mode: nat, phase: nat, child: nat)
      requires Valid() && state.Recording? && session == fault.identity.session && fault.tick != 0
      modifies this, rows
      ensures Valid() && accepted == old(accepted) && pending == old(pending)
      ensures if Stale(old(log), fault.tick) then state.Recording? && log == old(log)
              else && state.Frozen? && HeaderNames(header, fault, faultAxis, mode)
                   && log == FrozenLog(old(log), fault, mode, phase, child, pending, accepted)
    {
      hide NewRow, Marked, Honest, Kept, HeaderStates;
      ghost var made := NewRow(fault.identity, fault.tick, fault.nowUs, mode, phase, child, LastOf(log), pending,
          accepted);
      var ok := FaultRow(fault, mode, phase, child);
      if !ok {
        return;
      }
      assert log == WithFaultRow(old(log), fault.tick, made);
      var row := MarkFault(fault);
      assert log == WithMark(WithFaultRow(old(log), fault.tick, made), fault.identity, fault.nowUs);
      Release(row, fault, faultAxis, mode);
    }

    /** The ring leaves the writer's hands. */
    method Release(row: Row, fault: Fault, faultAxis: nat, mode: nat)
      requires RingValid() && Honest(log, session) && count > 0 && log != [] && row == log[|log| - 1]
      requires row.tick == fault.tick && FaultSample in row.flags
      modifies this`first, this`header, this`lastFrozenSession, this`state
      ensures Valid() && state.Frozen? && HeaderNames(header, fault, faultAxis, mode)
    {
      Seal(row, fault, faultAxis, mode);
    }

    /** The header of the frozen ring. */
    method Seal(row: Row, fault: Fault, faultAxis: nat, mode: nat)
      requires RingValid() && count > 0 && log != [] && row == log[|log| - 1]
      requires row.tick == fault.tick && FaultSample in row.flags
      modifies this`first, this`header, this`lastFrozenSession, this`state
      ensures HeaderStates(header, log, session) && first == FirstSlot(next, count) && lastFrozenSession == session
      ensures state.Frozen? && HeaderNames(header, fault, faultAxis, mode)
    {
      var oldest := FindFirst();
      SealedHeaderStates(log, session, fault, faultAxis, mode, totalRows);
      header := SealedHeader(session, fault, faultAxis, mode, count, totalRows, oldest, row);
      lastFrozenSession := session;
      state := Frozen;
    }

    /** Keeps an exact receipt of another session or of a later tick, and nothing else. */
    method ObserveAccepted(identity: Identity, tick: u64, sourceUs: u64, generation: u64, csv: seq<int>,
                           exactAccepted: bool)
      requires Valid()
      modifies this`accepted
      ensures Valid()
      ensures var kept := && exactAccepted && identity.session != 0 && tick != 0 && sourceUs != 0 && generation != 0
                          && (old(accepted).identity.session != identity.session || tick > old(accepted).tick);
              accepted == if kept then Receipt(identity, tick, sourceUs, generation, csv) else old(accepted)
    {
      if !exactAccepted || identity.session == 0 || tick == 0 || sourceUs == 0 || generation == 0 {
        return;
      }
      if accepted.identity.session == identity.session && tick <= accepted.tick {
        return;
      }
      var allSixZero := true;
      var i := 0;
      while i < |csv|
        invariant 0 <= i <= |csv| && (allSixZero <==> forall k :: 0 <= k < i ==> csv[k] == 0)
      {
        allSixZero := allSixZero && csv[i] == 0;
        i := i + 1;
      }
      accepted := Accepted(identity, tick, sourceUs, generation, csv[..Least(|csv|, AXIS_COUNT)], true, allSixZero);
    }

    /** contained: formal stop, forced zero, idle command group and zero command. */
    method PublishContained(newSession: u64, contained: bool)
      requires Valid()
      modifies this`header, this`state
      ensures Valid()
      ensures var ok := && old(state).Frozen? && newSession == old(header).session && contained && accepted.valid
                        && accepted.allSixZero && accepted.identity.session == newSession
                        && accepted.tick >= old(header).faultTick;
              if ok then state.Ready? && header == old(header).(containmentTick := accepted.tick,
                                                                containmentSourceUs := accepted.sourceUs,
                                                                zeroImageAccepted := true)
              else unchanged(this)
    {
      if !state.Frozen? || newSession != header.session || !contained || !accepted.valid || !accepted.allSixZero
         || accepted.identity.session != newSession || accepted.tick < header.faultTick {
        return;
      }
      header := header.(containmentTick := accepted.tick, containmentSourceUs := accepted.sourceUs,
          zeroImageAccepted := true);
      state := Ready;
    }

    /** The one reader claims the ring by a compare-exchange of Ready. */
    method BeginRead() returns (ok: bool, out: Header)
      requires Valid()
      modifies this`state
      ensures Valid() && ok == old(state).Ready? && state == (if ok then Reading else old(state))
      ensures ok ==> HeaderStates(out, log, session) && out.zeroImageAccepted && out.containmentTick >= out.faultTick
    {
      ok, out := false, NO_HEADER;
      if state.Ready? {
        state := Reading;
        ok, out := true, header;
      }
    }

    /** Row number index of the last min(n, 128) rows of the session, in append order. */
    method ReadRow(newSession: u64, index: nat) returns (ok: bool, out: Row)
      requires Valid()
      ensures ok <==> state.Reading? && newSession == session && index < Least(|log|, CAPACITY)
      ensures ok ==> out == log[|log| - Least(|log|, CAPACITY) + index] && RowHonest(out, session)
    {
      if !state.Reading? || newSession != header.session || index >= header.count {
        return false, BLANK;
      }
      out := RowAt(index);
      assert RowHonest(log[|log| - count + index], session);
      return true, out;
    }

    method EndRead(newSession: u64)
      requires Valid()
      modifies this`state
      ensures Valid() && state == if old(state).Reading? && newSession == header.session then Idle else old(state)
    {
      if state.Reading? && newSession == header.session {
        state := Idle;
      }
    }

    // ------------------------------------------------ from capture to row

    /** Calls of the running session that leave one axis alone, with no fault and no frame from the given tick on. */
    method PlayRecording(calls: seq<Call>, index: nat, tick: u64)
      requires Valid() && state.Recording? && index < AXIS_COUNT && (log != [] ==> log[|log| - 1].tick < tick)
      requires forall call :: call in calls ==> WellFormed(call) && LeavesAlone(call, session, index, tick)
      modifies this, rows
      ensures Valid() && state.Recording? && session == old(session) && lastFrozenSession == old(lastFrozenSession)
      ensures pending[index] == old(pending)[index] && (log != [] ==> log[|log| - 1].tick < tick)
    {
      for i := 0 to |calls|
        invariant Valid() && state.Recording? && session == old(session) && lastFrozenSession == old(lastFrozenSession)
        invariant pending[index] == old(pending)[index] && (log != [] ==> log[|log| - 1].tick < tick)
      {
        PlayOne(calls[i], index, tick);
      }
    }

    method PlayOne(call: Call, index: nat, tick: u64)
      requires Valid() && state.Recording? && index < AXIS_COUNT && (log != [] ==> log[|log| - 1].tick < tick)
      requires WellFormed(call) && LeavesAlone(call, session, index, tick)
      modifies this, rows
      ensures Valid() && state.Recording? && session == old(session) && lastFrozenSession == old(lastFrozenSession)
      ensures pending[index] == old(pending)[index] && (log != [] ==> log[|log| - 1].tick < tick)
    {
      hide Carries, CarriesReceipt, ShowsFrame, NewRow, Framed, Honest, Kept;
      match call
      case Controls(i, sample, mode) => ObserveControl(i, sample, mode);
      case Writes(i, newSession, mode, writtenTick, csv) => ObserveWritten(i, newSession, mode, writtenTick, csv);
      case Inputs(i, capture, decoded, mode) => ObserveInput(i, capture, decoded, mode);
      case Frames(f, mode, phase, child, complete, mapping, reference, forceZero) =>
        ObserveFrame(f, mode, phase, child, complete, mapping, reference, forceZero);
      case Accepts(identity, sentTick, sourceUs, generation, csv, exact) =>
        ObserveAccepted(identity, sentTick, sourceUs, generation, csv, exact);
      case Contains(newSession, contained) => PublishContained(newSession, contained);
      case BeginsRead => var _, _ := BeginRead();
      case ReadsRow(newSession, i) => var _, _ := ReadRow(newSession, i);
      case EndsRead(newSession) => EndRead(newSession);
    }

    /**
     One sample reaches its row: the control, the written value and the input captured on an axis for a frame are in
     the row of that frame, whatever other calls of the session lie between, and so is all the frame says itself.
     */
    method SampleReachesRow(index: nat, sample: Control, csv: int, capture: Input, between: seq<Call>, f: Frame,
                            mode: nat, phase: nat, child: nat, complete: bool, mappingCurrent: bool,
                            reference: seq<real>, forceZero: bool)
      requires Valid() && Starts(f.identity.session, mode) && index < AXIS_COUNT && f.tick != 0 && f.nowUs != 0
      requires Before(f.identity.session) != [] ==>
                 Before(f.identity.session)[|Before(f.identity.session)| - 1].tick < f.tick
      requires ValidIdentity(f.identity) && |f.axis| >= AXIS_COUNT && |reference| >= AXIS_COUNT
      requires sample.identity == capture.identity == f.identity && sample.tick == capture.tick == f.tick
      requires sample.nowUs == capture.sourceUs == f.nowUs
      requires forall call :: call in between ==>
                 WellFormed(call) && LeavesAlone(call, f.identity.session, index, f.tick)
      modifies this, rows
      ensures Valid() && state.Recording? && log != []
      ensures var row := log[|log| - 1];
              && Names(row, f.identity, f.tick, f.nowUs, mode, phase, child)
              && row.axis[index] == Axis(Some(sample), Some(csv), Some(capture), Some(f.axis[index]),
                                         if mappingCurrent then Some(reference[index]) else None)
    {
      hide NewRow, Framed, Honest, Kept, HeaderStates, Carries, CarriesReceipt, ShowsFrame;
      CaptureAll(index, sample, csv, capture, mode);
      PlayRecording(between, index, f.tick);
      ObserveFrame(f, mode, phase, child, complete, mappingCurrent, reference, forceZero);
      SampleShown(log[|log| - 1], pending, index, sample, csv, capture, f, complete, mappingCurrent, reference,
          forceZero);
    }

    /** The three captures of one axis for one sample. */
    method CaptureAll(index: nat, sample: Control, csv: int, capture: Input, mode: nat)
      requires Valid() && Starts(sample.identity.session, mode) && index < AXIS_COUNT
      requires ValidIdentity(sample.identity) && capture.identity == sample.identity
      requires capture.tick == sample.tick != 0 && capture.sourceUs != 0
      modifies this
      ensures Valid() && state.Recording? && session == sample.identity.session
      ensures lastFrozenSession == old(lastFrozenSession) && log == old(Before(sample.identity.session))
      ensures pending[index] == Pending(Some(sample), Some(Written(sample.tick, csv)), Some(capture))
    {
      hide Honest, Kept, HeaderStates;
      ObserveControl(index, sample, mode);
      ObserveWritten(index, sample.identity.session, mode, sample.tick, csv);
      ObserveInput(index, capture, true, mode);
    }

    // ----------------------------------------------------- runs while owned

    method Apply(call: Call)
      requires Valid() && WellFormed(call) && !call.EndsRead?
      modifies this, rows
      ensures Valid()
      ensures OwnedByReader(old(state)) ==>
                && OwnedByReader(state) && unchanged(rows) && log == old(log) && session == old(session)
                && (old(state).Reading? ==> state.Reading?)
                && header.count == old(header.count) && header.faultTick == old(header.faultTick)
    {
      match call
      case Controls(index, sample, mode) => ObserveControl(index, sample, mode);
      case Writes(index, newSession, mode, tick, csv) => ObserveWritten(index, newSession, mode, tick, csv);
      case Inputs(index, capture, decoded, mode) => ObserveInput(index, capture, decoded, mode);
      case Frames(f, mode, phase, child, complete, mapping, reference, forceZero) =>
        ObserveFrame(f, mode, phase, child, complete, mapping, reference, forceZero);
      case Faults(fault, axis, mode, phase, child) => Freeze(fault, axis, mode, phase, child);
      case Accepts(identity, tick, sourceUs, generation, csv, exact) =>
        ObserveAccepted(identity, tick, sourceUs, generation, csv, exact);
      case Contains(newSession, contained) => PublishContained(newSession, contained);
      case BeginsRead => var _, _ := BeginRead();
      case ReadsRow(newSession, index) => var _, _ := ReadRow(newSession, index);
    }

    /**
     Whatever the writer and the reader do between Freeze and EndRead, in any
     order, no row changes, and a claimed ring stays claimed.
     */
    method PlayWhileOwned(calls: seq<Call>)
      requires Valid() && OwnedByReader(state)
      requires forall call :: call in calls ==> WellFormed(call) && !call.EndsRead?
      modifies this, rows
      ensures Valid() && OwnedByReader(state) && (old(state).Reading? ==> state.Reading?)
      ensures rows[..] == old(rows[..]) && log == old(log) && session == old(session)
      ensures header.count == old(header.count) && header.faultTick == old(header.faultTick)
    {
      for i := 0 to |calls|
        invariant Valid() && OwnedByReader(state) && (old(state).Reading? ==> state.Reading?)
        invariant rows[..] == old(rows[..]) && log == old(log) && session == old(session)
        invariant header.count == old(header.count) && header.faultTick == old(header.faultTick)
      {
        Apply(calls[i]);
      }
    }
  }

  datatype Call =
    | Controls(index: nat, sample: Control, mode: nat)
    | Writes(index: nat, session: u64, mode: nat, tick: u64, csv: int)
    | Inputs(index: nat, capture: Input, decoded: bool, mode: nat)
    | Frames(frame: Frame, mode: nat, phase: nat, child: nat, complete: bool, mapping: bool,
             reference: seq<real>, forceZero: bool)
    | Faults(fault: Fault, axis: nat, mode: nat, phase: nat, child: nat)
    | Accepts(identity: Identity, tick: u64, sourceUs: u64, generation: u64, csvs: seq<int>, exact: bool)
    | Contains(session: u64, contained: bool)
    | BeginsRead
    | ReadsRow(session: u64, index: nat)
    | EndsRead(session: u64)

  /** A call of a running session that neither ends it nor captures anything on one axis. */
  predicate LeavesAlone(call: Call, session: u64, index: nat, tick: u64) {
    match call
    case Controls(i, sample, _) => i != index && sample.identity.session == session
    case Writes(i, other, _, _, _) => i != index && other == session
    case Inputs(i, capture, _, _) => i != index && capture.identity.session == session
    case Frames(f, _, _, _, _, _, _, _) => f.identity.session == session && f.tick < tick
    case Faults(_, _, _, _, _) => false
    case _ => true
  }

  /** The fixed array lengths of the source's argument types. */
  predicate WellFormed(call: Call) {
    call.Frames? ==> |call.frame.axis| >= AXIS_COUNT && |call.reference| >= AXIS_COUNT
  }
}
