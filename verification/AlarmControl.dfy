/**
 Control invariant of the alarm protocol: the active count is the number of
 open windows, the writer flag has one holder, RESERVED has at most one holder
 and, while it is set, nobody who saw it clear is still inside a window.
 */
module AlarmControl {
  import opened Numbers
  import opened AlarmWords
  import opened AlarmMachine
  import opened Summation

  // ------------------------------------------------------- classification

  /** Between the fetch_add that opened an intent and the fetch_sub that closes it. */
  predicate InWindow(pc: Pc) {
    || pc.Deferring? || pc.Contending? || pc.Writing?
    || (pc.Publishing? && !pc.job.under) || (pc.Dropping? && !pc.under)
  }

  predicate HoldsWriter(pc: Pc) {
    pc.Writing? || pc.Publishing? || (pc.Dropping? && !pc.under) || pc.OwningWriter?
  }

  /** Entered only with an acquired reservation. */
  predicate IsUnder(pc: Pc) {
    pc.Owning? || pc.OwningWriter? || (pc.Publishing? && pc.job.under) || (pc.Dropping? && pc.under)
  }

  /** Inside a sequence of stores to the alarm image. */
  predicate WritesImage(pc: Pc) {
    pc.Publishing? || pc.Dropping?
  }

  /** Owns the RESERVED bit: a returned reservation, or one still being verified. */
  predicate Holding(th: Thread) {
    th.res.acquired || th.pc.Verifying?
  }

  function ActiveUnit(th: Thread): nat { if InWindow(th.pc) then 1 else 0 }
  function WriterUnit(th: Thread): nat { if HoldsWriter(th.pc) then 1 else 0 }
  function HolderUnit(th: Thread): nat { if Holding(th) then 1 else 0 }
  function Bit(b: bool): nat { if b then 1 else 0 }

  // ------------------------------------------------------------ invariant

  predicate ReservationCurrent(advances: nat, res: Reservation) {
    && res.reserved == Intent((res.since + advances) % TWO32, true, 0)
    && res.base == res.reserved.(reserved := false)
  }

  /** The word an admission is about to compare with was observed quiet. */
  predicate QuietObserved(pc: OpenPc) {
    pc.BeginCas? || pc.BeginWriterProbe? ==> pc.state.active == 0 && !pc.state.reserved
  }

  /** What one thread may rely on. */
  predicate Local(sh: Shared, th: Thread) {
    && (InWindow(th.pc) && sh.intent.reserved ==> th.saw)
    && (InWindow(th.pc) && !th.pc.Deferring? ==> !th.saw)
    && (IsUnder(th.pc) ==> th.res.acquired)
    && (th.pc.Verifying? ==> !th.res.acquired)
    && (Holding(th) ==> ReservationCurrent(sh.hist.advances, th.res))
    && (Holding(th) ==> sh.intent.active <= sh.hist.intents - th.res.since)
    && (th.pc.Open? ==> QuietObserved(th.pc.open))
  }

  predicate Control(s: State) {
    && |s.threads| < TWO31
    && s.shared.intent.sequence == (s.shared.hist.intents + s.shared.hist.advances) % TWO32
    && s.shared.intent.active == Sum(s.threads, ActiveUnit)
    && Bit(s.shared.writer) == Sum(s.threads, WriterUnit)
    && Bit(s.shared.intent.reserved) >= Sum(s.threads, HolderUnit)
    && forall t :: 0 <= t < |s.threads| ==> Local(s.shared, s.threads[t])
  }

  // -------------------------------------------------- one thread's guarantee

  /** What the sums imply for the thread about to step. */
  predicate Entitled(sh: Shared, th: Thread) {
    && Local(sh, th)
    && (InWindow(th.pc) ==> sh.intent.active > 0)
    && (HoldsWriter(th.pc) ==> sh.writer)
    && (Holding(th) ==> sh.intent.reserved)
    && sh.intent.active >= 0
    && sh.intent.sequence == (sh.hist.intents + sh.hist.advances) % TWO32
  }

  /** What a step of th to th' does to the words the other threads rely on. */
  predicate Guarantee(sh: Shared, th: Thread, sh': Shared, th': Thread) {
    && sh'.intent.active - ActiveUnit(th') == sh.intent.active - ActiveUnit(th)
    && Bit(sh'.writer) + WriterUnit(th) == Bit(sh.writer) + WriterUnit(th')
    && Bit(sh'.intent.reserved) + HolderUnit(th) >= Bit(sh.intent.reserved) + HolderUnit(th')
    && sh'.intent.sequence == (sh'.hist.intents + sh'.hist.advances) % TWO32
    && (sh'.intent.reserved && !sh.intent.reserved ==> sh.intent.active == 0)
    && (sh'.hist.advances != sh.hist.advances ==> Holding(th))
    && sh'.intent.active - sh.intent.active <= sh'.hist.intents - sh.hist.intents
    && Local(sh', th')
  }

  predicate Probing(pc: OpenPc) {
    !(pc.TriggerEnter? || pc.PromoteEnter? || pc.ClearEnter? || pc.BeginCas?)
  }

  /** The read-only probes stay outside every window. */
  lemma ProbeStaysOutside(sh: Shared, pc: OpenPc)
    requires QuietObserved(pc)
    ensures Probe(sh, pc).Idle? || (Probe(sh, pc).Open? && QuietObserved(Probe(sh, pc).open))
  {
  }

  lemma GuaranteeProbe(sh: Shared, th: Thread)
    requires Entitled(sh, th) && th.pc.Open? && Probing(th.pc.open)
    ensures Guarantee(sh, th, ActOpen(sh, th, th.pc.open).0, ActOpen(sh, th, th.pc.open).1)
  {
    ProbeStaysOutside(sh, th.pc.open);
    assert ActOpen(sh, th, th.pc.open) == (sh, th.(pc := Probe(sh, th.pc.open)));
  }

  lemma GuaranteeOpen(sh: Shared, th: Thread)
    requires Entitled(sh, th) && th.pc.Open?
    ensures Guarantee(sh, th, ActOpen(sh, th, th.pc.open).0, ActOpen(sh, th, th.pc.open).1)
  {
    if Probing(th.pc.open) {
      GuaranteeProbe(sh, th);
    }
  }

  lemma GuaranteeLeave(sh: Shared, th: Thread)
    requires Entitled(sh, th) && th.pc.Deferring? && th.pc.defer.LeaveIntent?
    ensures Guarantee(sh, th, ActDefer(sh, th, th.pc.defer, false).0, ActDefer(sh, th, th.pc.defer, false).1)
  {
  }

  /** The steps of DeferAlarm stay in the window and touch no word the others rely on. */
  lemma GuaranteeStay(sh: Shared, th: Thread, spurious: bool)
    requires Entitled(sh, th) && th.pc.Deferring? && !th.pc.defer.LeaveIntent?
    ensures Guarantee(sh, th, ActDefer(sh, th, th.pc.defer, spurious).0, ActDefer(sh, th, th.pc.defer, spurious).1)
  {
  }

  lemma GuaranteeDefer(sh: Shared, th: Thread, c: Choice)
    requires Entitled(sh, th) && th.pc.Deferring?
    ensures Guarantee(sh, th, Act(sh, th, c).0, Act(sh, th, c).1)
  {
    hide Entitled, Guarantee;
    if th.pc.defer.LeaveIntent? {
      GuaranteeLeave(sh, th);
    } else {
      GuaranteeStay(sh, th, c.Proceed? && c.spurious);
    }
  }

  lemma GuaranteeWindow(sh: Shared, th: Thread, c: Choice)
    requires Entitled(sh, th) && (th.pc.Contending? || th.pc.Writing?)
    ensures Guarantee(sh, th, Act(sh, th, c).0, Act(sh, th, c).1)
  {
  }

  lemma GuaranteePublish(sh: Shared, th: Thread, c: Choice)
    requires Entitled(sh, th) && th.pc.Publishing?
    ensures Guarantee(sh, th, Act(sh, th, c).0, Act(sh, th, c).1)
  {
  }

  lemma GuaranteeDrop(sh: Shared, th: Thread, c: Choice)
    requires Entitled(sh, th) && th.pc.Dropping?
    ensures Guarantee(sh, th, Act(sh, th, c).0, Act(sh, th, c).1)
  {
  }

  lemma GuaranteeVerify(sh: Shared, th: Thread)
    requires Entitled(sh, th) && th.pc.Verifying?
    ensures Guarantee(sh, th, ActVerify(sh, th, th.pc.verify).0, ActVerify(sh, th, th.pc.verify).1)
  {
  }

  lemma GuaranteeEnd(sh: Shared, th: Thread)
    requires Entitled(sh, th) && th.pc.Owning? && (th.pc.own.EndCas? || th.pc.own.EndAnd?)
    ensures Guarantee(sh, th, ActOwn(sh, th, th.pc.own).0, ActOwn(sh, th, th.pc.own).1)
  {
  }

  lemma NextSequence(x: nat)
    ensures (x % TWO32 + 1) % TWO32 == (x + 1) % TWO32
  {
  }

  /** The holder advances the word and its reservation together. */
  lemma AdvanceKeepsCurrent(sh: Shared, res: Reservation)
    requires ReservationCurrent(sh.hist.advances, res)
    requires sh.intent == res.reserved
    requires sh.intent.sequence == (sh.hist.intents + sh.hist.advances) % TWO32
    ensures ReservationCurrent(AdvanceShared(sh).hist.advances, AdvanceReservation(res))
    ensures AdvanceShared(sh).intent.sequence == (sh.hist.intents + sh.hist.advances + 1) % TWO32
  {
    NextSequence(res.since + sh.hist.advances);
    NextSequence(sh.hist.intents + sh.hist.advances);
  }

  lemma GuaranteeChecks(sh: Shared, th: Thread)
    requires Entitled(sh, th) && th.pc.Owning? && (th.pc.own.CurrentCheck? || th.pc.own.UnderHas?)
    ensures Guarantee(sh, th, ActOwn(sh, th, th.pc.own).0, ActOwn(sh, th, th.pc.own).1)
  {
  }

  lemma GuaranteeOwn(sh: Shared, th: Thread)
    requires Entitled(sh, th) && th.pc.Owning?
    ensures Guarantee(sh, th, ActOwn(sh, th, th.pc.own).0, ActOwn(sh, th, th.pc.own).1)
  {
    if th.pc.own.EndCas? || th.pc.own.EndAnd? {
      GuaranteeEnd(sh, th);
    } else if th.pc.own.CurrentCheck? || th.pc.own.UnderHas? {
      GuaranteeChecks(sh, th);
    } else if th.pc.own.UnderClearCas? && sh.intent == th.res.reserved {
      AdvanceKeepsCurrent(sh, th.res);
    }
  }

  lemma GuaranteeOwnWriter(sh: Shared, th: Thread)
    requires Entitled(sh, th) && th.pc.OwningWriter?
    ensures Guarantee(sh, th, ActOwnWriter(sh, th, th.pc.ownWriter).0, ActOwnWriter(sh, th, th.pc.ownWriter).1)
  {
    if th.pc.ownWriter.UnderTriggerCas? && sh.intent == th.res.reserved {
      AdvanceKeepsCurrent(sh, th.res);
    }
  }

  lemma GuaranteeStart(sh: Shared, th: Thread, c: Choice)
    requires Entitled(sh, th) && th.pc.Idle?
    ensures Guarantee(sh, th, Start(sh, th, c).0, Start(sh, th, c).1)
  {
  }

  lemma ActGuarantee(sh: Shared, th: Thread, c: Choice)
    requires Entitled(sh, th)
    ensures Guarantee(sh, th, Act(sh, th, c).0, Act(sh, th, c).1)
  {
    hide Start, ActOpen, ActDefer, ActContend, ActWrite, ActPublish, ActDrop, ActVerify, ActOwn, ActOwnWriter, Entitled;
    match th.pc
    case Idle => GuaranteeStart(sh, th, c);
    case Open(_) => GuaranteeOpen(sh, th);
    case Deferring(_) => GuaranteeDefer(sh, th, c);
    case Publishing(_, _) => GuaranteePublish(sh, th, c);
    case Dropping(_, _) => GuaranteeDrop(sh, th, c);
    case Verifying(_) => GuaranteeVerify(sh, th);
    case Owning(_) => GuaranteeOwn(sh, th);
    case OwningWriter(_) => GuaranteeOwnWriter(sh, th);
    case _ => GuaranteeWindow(sh, th, c);
  }

  // ------------------------------------------------------- all the threads

  lemma ControlEntitles(s: State, t: nat)
    requires Control(s) && t < |s.threads|
    ensures Entitled(s.shared, s.threads[t])
  {
    SumMember(s.threads, t, ActiveUnit);
    SumMember(s.threads, t, WriterUnit);
    SumMember(s.threads, t, HolderUnit);
  }

  /** Another thread's local facts survive a guaranteed step. */
  lemma LocalStable(s: State, t: nat, u: nat, c: Choice)
    requires Control(s) && t < |s.threads| && u < |s.threads| && t != u
    ensures Local(Step(s, t, c).shared, s.threads[u])
  {
    ControlEntitles(s, t);
    ActGuarantee(s.shared, s.threads[t], c);
    SumMember(s.threads, u, ActiveUnit);
    if t < u {
      SumTwo(s.threads, t, u, HolderUnit);
    } else {
      SumTwo(s.threads, u, t, HolderUnit);
    }
  }

  lemma ControlStep(s: State, t: nat, c: Choice)
    requires Control(s) && t < |s.threads|
    ensures Control(Step(s, t, c))
  {
    ControlEntitles(s, t);
    ActGuarantee(s.shared, s.threads[t], c);
    var s' := Step(s, t, c);
    SumUpdate(s.threads, t, s'.threads[t], ActiveUnit);
    SumUpdate(s.threads, t, s'.threads[t], WriterUnit);
    SumUpdate(s.threads, t, s'.threads[t], HolderUnit);
    forall u | 0 <= u < |s'.threads| ensures Local(s'.shared, s'.threads[u]) {
      if u != t {
        LocalStable(s, t, u, c);
      }
    }
  }

  lemma ControlInitial(s: State)
    requires Initial(s)
    ensures Control(s)
  {
    SumZero(s.threads, ActiveUnit);
    SumZero(s.threads, WriterUnit);
    SumZero(s.threads, HolderUnit);
  }

  /** The control invariant holds after every interleaving of fewer than 2^31 threads. */
  lemma {:induction false} ControlRun(s: State, events: seq<Event>)
    requires Initial(s)
    ensures Control(Run(s, events)) && |Run(s, events).threads| == |s.threads|
    decreases |events|
  {
    if events == [] {
      ControlInitial(s);
    } else {
      ControlRun(s, events[..|events| - 1]);
      var before := Run(s, events[..|events| - 1]);
      var e := events[|events| - 1];
      if e.t < |before.threads| {
        ControlStep(before, e.t, e.c);
      }
    }
  }

  // -------------------------------------------------------- main theorems

  /** The record counts are in range, so the packed word never carries into RESERVED. */
  lemma NoCarry(s: State, t: nat)
    requires Control(s) && t < |s.threads|
    ensures FitsIntent(s.shared.intent)
    ensures !InWindow(s.threads[t].pc) ==> s.shared.intent.active + 1 < TWO31
    ensures InWindow(s.threads[t].pc) ==> s.shared.intent.active > 0
  {
    SumMember(s.threads, t, ActiveUnit);
    SumBound(s.threads, ActiveUnit);
    if !InWindow(s.threads[t].pc) {
      var other := Thread(Deferring(DeferOr(Ticket(0, EMPTY_SLOT))), NO_RESERVATION, true);
      SumUpdate(s.threads, t, other, ActiveUnit);
      SumBound(s.threads[t := other], ActiveUnit);
    }
  }

  predicate SameImage(a: Shared, b: Shared) {
    a.slots == b.slots && a.alarmCount == b.alarmCount && a.hasAlarm == b.hasAlarm && a.updateCount == b.updateCount
  }

  lemma ImageStepWrites(sh: Shared, th: Thread, c: Choice)
    ensures !SameImage(Act(sh, th, c).0, sh) ==> WritesImage(th.pc)
  {
  }

  /**
   Image freeze.  While RESERVED is set no open window belongs to a thread that
   saw it clear, and a step that changes any slot, the alarm count, the alarm
   flag or the update counter is a step of the one reservation holder.
   */
  lemma ImageFreeze(s: State, t: nat, c: Choice)
    requires Control(s) && t < |s.threads| && s.shared.intent.reserved
    ensures forall u :: 0 <= u < |s.threads| && InWindow(s.threads[u].pc) ==> s.threads[u].saw
    ensures !SameImage(Step(s, t, c).shared, s.shared) ==>
              && s.threads[t].res.acquired
              && forall u :: 0 <= u < |s.threads| && Holding(s.threads[u]) ==> u == t
  {
    ControlEntitles(s, t);
    ImageStepWrites(s.shared, s.threads[t], c);
    forall u | 0 <= u < |s.threads| && Holding(s.threads[u]) && u != t && s.threads[t].res.acquired
      ensures false
    {
      if t < u {
        SumTwo(s.threads, t, u, HolderUnit);
      } else {
        SumTwo(s.threads, u, t, HolderUnit);
      }
    }
  }

  /** At most one thread is anywhere inside a sequence of stores to the alarm image. */
  lemma ImageWriterUnique(s: State, t: nat, u: nat)
    requires Control(s) && t < |s.threads| && u < |s.threads| && t != u
    ensures !(WritesImage(s.threads[t].pc) && WritesImage(s.threads[u].pc))
  {
    if WritesImage(s.threads[t].pc) && WritesImage(s.threads[u].pc) {
      var i, j := if t < u then t else u, if t < u then u else t;
      ControlEntitles(s, t);
      ControlEntitles(s, u);
      SumTwo(s.threads, i, j, WriterUnit);
      SumTwo(s.threads, i, j, HolderUnit);
      assert false;
    }
  }
}
