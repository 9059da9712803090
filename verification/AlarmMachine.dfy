/**
 AlarmManager as a transition system: every atomic load, store, compare-exchange
 or fetch operation of the source is one step of one thread.  Any number of
 threads below 2^31 may run Trigger, Clear, promotion, admission and the
 operations of a reservation holder in any interleaving.

 A thread owns one reservation object; it is never copied, but it may be
 overwritten while acquired, exactly as the source allows.  Fields marked
 "history" are never read by a step's guard; they only name facts for proofs.
 */
module AlarmMachine {
  import opened Numbers
  import opened AlarmWords
  import opened Optional

  const MAX_ALARMS: nat := 64
  const CAS_ATTEMPTS: nat := 32
  const SHM_LINK_ERROR := 1002
  const EMPTY_SLOT := Alarm(0, 0, -1)

  /** MotionAdmissionReservation; since (history) is the intent count at acquisition. */
  datatype Reservation = Reservation(
    base: Intent, reserved: Intent, expected: nat, requireNoAlarm: bool, acquired: bool, since: nat)

  const NO_RESERVATION := Reservation(Intent(0, false, 0), Intent(0, false, 0), 0, true, false, 0)

  datatype BeginArgs = BeginArgs(expectedUpdate: nat, expectedIntent: Option<Intent>, requireNoAlarm: bool)

  /** What a thread does once its promotion attempts are over. */
  datatype Next = Return | ThenClear | ThenBegin(args: BeginArgs) | ThenEnd(result: bool)

  /** One Trigger call; id is history. */
  datatype Ticket = Ticket(id: nat, alarm: Alarm)

  /**
   One PublishAlarmUnderWriter call.  ids (history): the Trigger calls it makes
   visible.  direct (history): not promoted out of the deferred word.
   */
  datatype Job = Job(alarm: Alarm, delta: nat, ids: set<nat>, direct: bool, under: bool, n: nat, k: Next)

  /** Outside every window: the entry and the read-only probes of Trigger, promotion, Clear and admission. */
  datatype OpenPc =
    | TriggerEnter(t: Ticket)
    | PromoteCheck(n: nat, k: Next)
    | PromoteEnter(n: nat, k: Next)
    | ClearDeferred | ClearHas | ClearEnter
    | BeginProbe(args: BeginArgs)
    | BeginUpdate(args: BeginArgs)
    | BeginHas(args: BeginArgs, same: bool)
    | BeginHasDeferred(args: BeginArgs, same: bool)
    | BeginState(args: BeginArgs, same: bool, present: bool)
    | BeginDeferred(args: BeginArgs, state: Intent)
    | BeginWriterProbe(args: BeginArgs, state: Intent)
    | BeginCas(args: BeginArgs, state: Intent)

  /** Inside a window, without touching the image: DeferAlarm and the closing fetch_sub. */
  datatype DeferPc =
    | DeferLoad(t: Ticket)
    | DeferCas(t: Ticket, observed: Deferred, attempt: nat)
    | DeferPayload(t: Ticket)
    | DeferOr(t: Ticket)
    | LeaveIntent(n: nat, k: Next)

  /** Inside a window that was opened with RESERVED clear: about to compete for the writer flag. */
  datatype ContendPc = TriggerWriter(t: Ticket) | PromoteWriter(n: nat, k: Next) | ClearWriter

  /** Inside such a window, holding the writer flag, before or after the image stores. */
  datatype WritePc =
    | PromoteExchange(n: nat, k: Next)
    | PromoteOverflow(ids: set<nat>, n: nat, k: Next)
    | ClearRecheck
    | WriterRelease(n: nat, k: Next)

  /** The stores of PublishAlarmUnderWriter; the writer flag is held. */
  datatype PublishPc =
    | LoadCount | PutCode(i: nat) | PutLine(i: nat) | PutAxis(i: nat) | PutCount(i: nat) | PutHas | PutUpdate

  datatype Field = Code | Line | Axis

  /** The clearing stores of Clear (writer flag held) and of ClearUnderMotionAdmission (not held). */
  datatype DropPc = DropHas | DropCount | DropSlot(i: nat, field: Field) | DropUpdate

  /** The re-checks after the acquiring compare-exchange, and the two ways of giving up. */
  datatype VerifyPc = Verify(stage: nat) | Abort | AbortAnd

  /** Operations on an acquired reservation. */
  datatype OwnPc =
    | CurrentCheck(stage: nat, purpose: Purpose)
    | EndCas(current: bool) | EndAnd
    | UnderHas | UnderClearCas | UnderWriter(alarm: Alarm)

  /** TriggerUnderMotionAdmission while it holds the writer flag, around the image stores. */
  datatype OwnWriterPc = UnderTriggerCas(alarm: Alarm) | UnderRelease(ok: bool)

  datatype Purpose = Finish | ForEnd | ForClear | ForTrigger(alarm: Alarm)

  datatype Pc =
    | Idle
    | Open(open: OpenPc)
    | Deferring(defer: DeferPc)
    | Contending(contend: ContendPc)
    | Writing(write: WritePc)
    | Publishing(job: Job, publish: PublishPc)
    | Dropping(under: bool, drop: DropPc)
    | Verifying(verify: VerifyPc)
    | Owning(own: OwnPc)
    | OwningWriter(ownWriter: OwnWriterPc)

  /** saw (history): RESERVED in the word returned by the fetch_add that opened the window. */
  datatype Thread = Thread(pc: Pc, res: Reservation, saw: bool)

  /** One publication since the last clear: its alarm, the Trigger calls it stands for, and whether it was direct. */
  datatype Entry = Entry(alarm: Alarm, ids: set<nat>, direct: bool)

  /**
   History variables: unbounded counters, the arguments of every Trigger call by its id, the sets of
   calls by where they live, and the publications since the last clear.
   */
  datatype History = History(
    intents: nat, advances: nat,
    updates: nat, recorded: nat, clears: nat, absorbed: nat,
    made: seq<Alarm>, pending: set<nat>, image: set<nat>, cleared: set<nat>,
    first: Alarm, published: seq<Entry>)

  datatype Shared = Shared(
    intent: Intent, writer: bool, deferred: Deferred, overflowPayload: Payload,
    hasAlarm: bool, alarmCount: int, updateCount: nat, slots: seq<Alarm>,
    hist: History)

  datatype State = State(shared: Shared, threads: seq<Thread>)

  /** The scheduler's choice: which call an idle thread makes, and whether a weak CAS fails spuriously. */
  datatype Choice =
    | CallTrigger(a: Alarm) | CallClear | CallBegin(b: BeginArgs) | CallEnd
    | CallClearUnder | CallTriggerUnder(a: Alarm) | CallIsCurrent | Proceed(spurious: bool)

  // ------------------------------------------------------------ one thread

  function Dispatch(k: Next): Pc {
    match k
    case Return => Idle
    case ThenClear => Open(ClearDeferred)
    case ThenBegin(args) => Open(BeginUpdate(args))
    case ThenEnd(_) => Idle
  }

  /** The remaining n of the two promotion attempts, then k. */
  function Promote(n: nat, k: Next): Pc {
    if n == 0 then Dispatch(k) else Open(PromoteCheck(n, k))
  }

  function Less(n: nat): nat { if n == 0 then 0 else n - 1 }

  /** fetch_add(BEGIN_DELTA), then one of two branches on the RESERVED bit of the old word. */
  function Enter(sh: Shared, th: Thread, clear: ContendPc, reserved: DeferPc): (Shared, Thread) {
    (sh.(intent := Begin(sh.intent), hist := sh.hist.(intents := sh.hist.intents + 1)),
     th.(pc := if sh.intent.reserved then Deferring(reserved) else Contending(clear), saw := sh.intent.reserved))
  }

  /** compare_exchange of the writer flag, then one of two branches. */
  function TakeWriter(sh: Shared, th: Thread, taken: Pc, busy: Pc): (Shared, Thread) {
    if sh.writer then (sh, th.(pc := busy)) else (sh.(writer := true), th.(pc := taken))
  }

  function Start(sh: Shared, th: Thread, c: Choice): (Shared, Thread) {
    match c
    case CallTrigger(a) =>
      (sh.(hist := sh.hist.(made := sh.hist.made + [a])),
       th.(pc := Open(TriggerEnter(Ticket(|sh.hist.made|, a)))))
    case CallClear => (sh, th.(pc := Open(PromoteCheck(2, ThenClear))))
    case CallBegin(args) => (sh, th.(pc := Open(BeginProbe(args)), res := NO_RESERVATION))
    case CallEnd => (sh, if th.res.acquired then th.(pc := Owning(CurrentCheck(0, ForEnd))) else th)
    case CallClearUnder => (sh, if th.res.acquired then th.(pc := Owning(CurrentCheck(0, ForClear))) else th)
    case CallTriggerUnder(a) =>
      (sh, if th.res.acquired && !th.res.requireNoAlarm then th.(pc := Owning(CurrentCheck(0, ForTrigger(a)))) else th)
    case CallIsCurrent => (sh, if th.res.acquired then th.(pc := Owning(CurrentCheck(0, Finish))) else th)
    case Proceed(_) => (sh, th)
  }

  function ActOpen(sh: Shared, th: Thread, pc: OpenPc): (Shared, Thread) {
    match pc
    case TriggerEnter(t) => Enter(sh, th, TriggerWriter(t), DeferLoad(t))
    case PromoteEnter(n, k) => Enter(sh, th, PromoteWriter(n, k), LeaveIntent(Less(n), k))
    case ClearEnter => Enter(sh, th, ClearWriter, LeaveIntent(2, Return))
    case BeginCas(args, state) =>
      if sh.intent == state then
        var held := state.(reserved := true);
        (sh.(intent := held),
         th.(pc := Verifying(Verify(0)),
             res := Reservation(state, held, args.expectedUpdate, args.requireNoAlarm, false, sh.hist.intents)))
      else
        (sh, th.(pc := Idle))
    case _ => (sh, th.(pc := Probe(sh, pc)))
  }

  /** The read-only steps outside every window. */
  function Probe(sh: Shared, pc: OpenPc): Pc {
    match pc
    case PromoteCheck(n, k) => if sh.deferred == NO_DEFERRED then Promote(Less(n), k) else Open(PromoteEnter(n, k))
    case ClearDeferred => if sh.deferred != NO_DEFERRED then Idle else Open(ClearHas)
    case ClearHas => if sh.hasAlarm then Open(ClearEnter) else Idle
    case BeginProbe(args) =>
      Open(if sh.deferred != NO_DEFERRED then PromoteCheck(2, ThenBegin(args)) else BeginUpdate(args))
    case BeginUpdate(args) => Open(BeginHas(args, sh.updateCount == args.expectedUpdate))
    case BeginHas(args, same) =>
      Open(if sh.hasAlarm then BeginState(args, same, true) else BeginHasDeferred(args, same))
    case BeginHasDeferred(args, same) => Open(BeginState(args, same, sh.deferred != NO_DEFERRED))
    case BeginState(args, same, present) =>
      if !same || (args.requireNoAlarm && present) then Idle
      else if args.expectedIntent.Some? && sh.intent != args.expectedIntent.value then Idle
      else Open(BeginDeferred(args, sh.intent))
    case BeginDeferred(args, state) =>
      if sh.deferred != NO_DEFERRED || state.active != 0 || state.reserved then Idle
      else Open(BeginWriterProbe(args, state))
    case BeginWriterProbe(args, state) => if sh.writer then Idle else Open(BeginCas(args, state))
    case _ => Idle
  }

  /** The compare-exchange of DeferAlarm succeeded on the observed word. */
  function DeferStored(sh: Shared, t: Ticket): Shared {
    var h := sh.hist;
    sh.(deferred := Coalesce(sh.deferred, Truncate(t.alarm)),
        hist := h.(pending := h.pending + {t.id},
                   recorded := h.recorded + 1,
                   absorbed := h.absorbed + (if sh.deferred.count == COUNT_MAX && sh.deferred.overflow then 1 else 0),
                   first := if sh.deferred.count == 0 then t.alarm else h.first))
  }

  /** The fetch_or of DeferAlarm after its retry budget is exhausted. */
  function OverflowStored(sh: Shared, t: Ticket): Shared {
    var h := sh.hist;
    sh.(deferred := sh.deferred.(overflow := true),
        hist := h.(pending := h.pending + {t.id},
                   recorded := h.recorded + 1,
                   absorbed := h.absorbed + (if sh.deferred.overflow then 1 else 0)))
  }

  function ActDefer(sh: Shared, th: Thread, pc: DeferPc, spurious: bool): (Shared, Thread) {
    match pc
    case DeferLoad(t) => (sh, th.(pc := Deferring(DeferCas(t, sh.deferred, 0))))
    case DeferCas(t, observed, attempt) =>
      if sh.deferred == observed && !spurious then
        (DeferStored(sh, t), th.(pc := Deferring(LeaveIntent(2, Return))))
      else if attempt + 1 < CAS_ATTEMPTS then
        (sh, th.(pc := Deferring(DeferCas(t, sh.deferred, attempt + 1))))
      else
        (sh, th.(pc := Deferring(DeferPayload(t))))
    case DeferPayload(t) => (sh.(overflowPayload := Truncate(t.alarm)), th.(pc := Deferring(DeferOr(t))))
    case DeferOr(t) => (OverflowStored(sh, t), th.(pc := Deferring(LeaveIntent(2, Return))))
    case LeaveIntent(n, k) => (sh.(intent := Leave(sh.intent)), th.(pc := Promote(n, k)))
  }

  function ActContend(sh: Shared, th: Thread, pc: ContendPc): (Shared, Thread) {
    match pc
    case TriggerWriter(t) =>
      TakeWriter(sh, th, Publishing(Job(t.alarm, 1, {t.id}, true, false, 2, Return), LoadCount),
          Deferring(DeferLoad(t)))
    case PromoteWriter(n, k) =>
      TakeWriter(sh, th, Writing(PromoteExchange(n, k)), Deferring(LeaveIntent(Less(n), k)))
    case ClearWriter => TakeWriter(sh, th, Writing(ClearRecheck), Deferring(LeaveIntent(2, Return)))
  }

  /** What a promoter does with the word it exchanged out. */
  function Promoted(d: Deferred, ids: set<nat>, n: nat, k: Next): Pc {
    if d == NO_DEFERRED then Writing(WriterRelease(Less(n), k))
    else if d.count == 0 then Writing(PromoteOverflow(ids, n, k))
    else Publishing(Job(Extend(d.payload), Units(d), ids, false, false, Less(n), k), LoadCount)
  }

  /** The overflow-only payload; a zero code is replaced by a fixed system alarm. */
  function OverflowAlarm(p: Payload): Alarm {
    var a := Extend(p);
    if a.code == 0 then a.(code := SHM_LINK_ERROR) else a
  }

  function ActWrite(sh: Shared, th: Thread, pc: WritePc): (Shared, Thread) {
    match pc
    case PromoteExchange(n, k) =>
      (sh.(deferred := NO_DEFERRED, hist := sh.hist.(pending := {})),
       th.(pc := Promoted(sh.deferred, sh.hist.pending, n, k)))
    case PromoteOverflow(ids, n, k) =>
      (sh, th.(pc := Publishing(Job(OverflowAlarm(sh.overflowPayload), 1, ids, false, false, Less(n), k), LoadCount)))
    case ClearRecheck =>
      (sh, th.(pc := if sh.deferred != NO_DEFERRED then Writing(WriterRelease(2, Return))
          else Dropping(false, DropHas)))
    case WriterRelease(n, k) => (sh.(writer := false), th.(pc := Deferring(LeaveIntent(n, k))))
  }

  function Counted(res: Reservation): Reservation {
    res.(expected := (res.expected + 1) % TWO32)
  }

  function PutSlot(slots: seq<Alarm>, i: nat, a: Alarm, field: Field): seq<Alarm> {
    if i >= |slots| then slots
    else match field
         case Code => slots[i := slots[i].(code := a.code)]
         case Line => slots[i := slots[i].(line := a.line)]
         case Axis => slots[i := slots[i].(axis := a.axis)]
  }

  function EntryOf(job: Job): Entry { Entry(job.alarm, job.ids, job.direct) }

  function ActPublish(sh: Shared, th: Thread, job: Job, pc: PublishPc): (Shared, Thread) {
    var h := sh.hist;
    match pc
    case LoadCount =>
      if 0 <= sh.alarmCount < MAX_ALARMS then
        (sh, th.(pc := Publishing(job, PutCode(sh.alarmCount))))
      else
        (sh.(hist := h.(published := h.published + [EntryOf(job)])), th.(pc := Publishing(job, PutHas)))
    case PutCode(i) => (sh.(slots := PutSlot(sh.slots, i, job.alarm, Code)), th.(pc := Publishing(job, PutLine(i))))
    case PutLine(i) => (sh.(slots := PutSlot(sh.slots, i, job.alarm, Line)), th.(pc := Publishing(job, PutAxis(i))))
    case PutAxis(i) => (sh.(slots := PutSlot(sh.slots, i, job.alarm, Axis)), th.(pc := Publishing(job, PutCount(i))))
    case PutCount(i) =>
      (sh.(alarmCount := i + 1, hist := h.(published := h.published + [EntryOf(job)])),
          th.(pc := Publishing(job, PutHas)))
    case PutHas =>
      (sh.(hasAlarm := true, hist := h.(image := h.image + job.ids)), th.(pc := Publishing(job, PutUpdate)))
    case PutUpdate =>
      (sh.(updateCount := (sh.updateCount + job.delta) % TWO32,
           hist := h.(updates := h.updates + job.delta,
                      recorded := h.recorded + (if job.direct then 1 else 0))),
       if job.under then th.(pc := OwningWriter(UnderRelease(true)), res := Counted(th.res))
       else th.(pc := Writing(WriterRelease(job.n, job.k))))
  }

  /** The clearing loop stores code, line and axis of slot 0, 1, ..., 63. */
  function NextDrop(i: nat, field: Field): DropPc {
    match field
    case Code => DropSlot(i, Line)
    case Line => DropSlot(i, Axis)
    case Axis => if i + 1 < MAX_ALARMS then DropSlot(i + 1, Code) else DropUpdate
  }

  function ActDrop(sh: Shared, th: Thread, under: bool, pc: DropPc): (Shared, Thread) {
    var h := sh.hist;
    match pc
    case DropHas =>
      (sh.(hasAlarm := false, hist := h.(cleared := h.cleared + h.image, image := {})),
       th.(pc := Dropping(under, DropCount)))
    case DropCount =>
      (sh.(alarmCount := 0, hist := h.(published := [])), th.(pc := Dropping(under, DropSlot(0, Code))))
    case DropSlot(i, field) =>
      (sh.(slots := PutSlot(sh.slots, i, EMPTY_SLOT, field)), th.(pc := Dropping(under, NextDrop(i, field))))
    case DropUpdate =>
      (sh.(updateCount := (sh.updateCount + 1) % TWO32,
           hist := h.(updates := h.updates + 1, clears := h.clears + 1)),
       if under then th.(pc := Owning(CurrentCheck(0, Finish)), res := Counted(th.res))
       else th.(pc := Writing(WriterRelease(2, Return))))
  }

  /** The successive conditions re-read after the acquiring compare-exchange. */
  function VerifyPasses(sh: Shared, res: Reservation, stage: nat): bool {
    match stage
    case 0 => sh.updateCount == res.expected
    case 1 => !res.requireNoAlarm || !sh.hasAlarm
    case 2 => !res.requireNoAlarm || sh.deferred == NO_DEFERRED
    case 3 => sh.deferred == NO_DEFERRED
    case 4 => !sh.writer
    case _ => sh.intent == res.reserved
  }

  function ActVerify(sh: Shared, th: Thread, pc: VerifyPc): (Shared, Thread) {
    match pc
    case Verify(stage) =>
      (sh, if !VerifyPasses(sh, th.res, stage) then th.(pc := Verifying(Abort))
           else if stage < 5 then th.(pc := Verifying(Verify(stage + 1)))
           else th.(pc := Idle, res := th.res.(acquired := true)))
    case Abort =>
      if sh.intent == th.res.reserved then
        (sh.(intent := th.res.base), th.(pc := Promote(2, Return), res := NO_RESERVATION))
      else
        (sh, th.(pc := Verifying(AbortAnd)))
    case AbortAnd =>
      (sh.(intent := sh.intent.(reserved := false)), th.(pc := Promote(2, Return), res := NO_RESERVATION))
  }

  /** The successive loads of IsMotionAdmissionCurrent. */
  function CurrentPasses(sh: Shared, res: Reservation, stage: nat): bool {
    match stage
    case 0 => sh.intent == res.reserved
    case 1 => sh.updateCount == res.expected
    case 2 => sh.deferred == NO_DEFERRED
    case 3 => !sh.writer
    case _ => !res.requireNoAlarm || !sh.hasAlarm
  }

  /** ClearUnderMotionAdmission makes the first four of the five checks. */
  function AfterCheck(stage: nat, purpose: Purpose): Pc {
    if stage < 3 || (stage == 3 && !purpose.ForClear?) then Owning(CurrentCheck(stage + 1, purpose))
    else match purpose
         case Finish => Idle
         case ForEnd => Owning(EndCas(true))
         case ForClear => Owning(UnderHas)
         case ForTrigger(a) => Owning(UnderWriter(a))
  }

  /** The holder's own sequence advance, in the word and in the reservation. */
  function AdvanceShared(sh: Shared): Shared {
    sh.(intent := Advance(sh.intent), hist := sh.hist.(advances := sh.hist.advances + 1))
  }

  function AdvanceReservation(res: Reservation): Reservation {
    res.(base := Advance(res.base), reserved := Advance(res.reserved))
  }

  function ActOwn(sh: Shared, th: Thread, pc: OwnPc): (Shared, Thread) {
    match pc
    case CurrentCheck(stage, purpose) =>
      (sh, th.(pc := if CurrentPasses(sh, th.res, stage) then AfterCheck(stage, purpose)
                     else if purpose.ForEnd? then Owning(EndCas(false)) else Idle))
    case EndCas(current) =>
      if sh.intent == th.res.reserved then
        (sh.(intent := th.res.base),
         th.(pc := Promote(2, ThenEnd(current)), res := th.res.(acquired := false)))
      else
        (sh, th.(pc := Owning(EndAnd)))
    case EndAnd =>
      (sh.(intent := sh.intent.(reserved := false)),
       th.(pc := Promote(2, ThenEnd(false)), res := th.res.(acquired := false)))
    case UnderHas => (sh, th.(pc := if sh.hasAlarm then Owning(UnderClearCas) else Idle))
    case UnderClearCas =>
      if sh.intent == th.res.reserved then
        (AdvanceShared(sh), th.(pc := Dropping(true, DropHas), res := AdvanceReservation(th.res)))
      else
        (sh, th.(pc := Idle))
    case UnderWriter(a) => TakeWriter(sh, th, OwningWriter(UnderTriggerCas(a)), Idle)
  }

  function ActOwnWriter(sh: Shared, th: Thread, pc: OwnWriterPc): (Shared, Thread) {
    match pc
    case UnderTriggerCas(a) =>
      if sh.intent == th.res.reserved then
        var adv := AdvanceShared(sh);
        (adv.(hist := adv.hist.(made := adv.hist.made + [a])),
         th.(pc := Publishing(Job(a, 1, {|sh.hist.made|}, true, true, 0, Return), LoadCount),
             res := AdvanceReservation(th.res)))
      else
        (sh, th.(pc := OwningWriter(UnderRelease(false))))
    case UnderRelease(ok) =>
      (sh.(writer := false), th.(pc := if ok then Owning(CurrentCheck(0, Finish)) else Idle))
  }

  /** One atomic step of one thread. */
  function Act(sh: Shared, th: Thread, c: Choice): (Shared, Thread) {
    match th.pc
    case Idle => Start(sh, th, c)
    case Open(pc) => ActOpen(sh, th, pc)
    case Deferring(pc) => ActDefer(sh, th, pc, c.Proceed? && c.spurious)
    case Contending(pc) => ActContend(sh, th, pc)
    case Writing(pc) => ActWrite(sh, th, pc)
    case Publishing(job, pc) => ActPublish(sh, th, job, pc)
    case Dropping(under, pc) => ActDrop(sh, th, under, pc)
    case Verifying(pc) => ActVerify(sh, th, pc)
    case Owning(pc) => ActOwn(sh, th, pc)
    case OwningWriter(pc) => ActOwnWriter(sh, th, pc)
  }

  // ---------------------------------------------------------------- system

  predicate Initial(s: State) {
    && |s.threads| < TWO31
    && (forall t :: 0 <= t < |s.threads| ==> s.threads[t] == Thread(Idle, NO_RESERVATION, false))
    && s.shared == Shared(Intent(0, false, 0), false, NO_DEFERRED, NO_PAYLOAD, false, 0, 0,
                          seq(MAX_ALARMS, _ => EMPTY_SLOT),
                          History(0, 0, 0, 0, 0, 0, [], {}, {}, {}, EMPTY_SLOT, []))
  }

  function Step(s: State, t: nat, c: Choice): State
    requires t < |s.threads|
  {
    var r := Act(s.shared, s.threads[t], c);
    State(r.0, s.threads[t := r.1])
  }

  /** One scheduling decision: thread t moves with choice c. */
  datatype Event = Event(t: nat, c: Choice)

  function Run(s: State, events: seq<Event>): State
    decreases |events|
  {
    if events == [] then s
    else
      var before := Run(s, events[..|events| - 1]);
      var e := events[|events| - 1];
      if e.t < |before.threads| then Step(before, e.t, e.c) else before
  }
}
