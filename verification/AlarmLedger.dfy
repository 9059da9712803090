/**
 Where every Trigger call is, and what the update counter owes: no alarm is
 lost, none is invented, and the deferred counts are conserved through
 coalescing, overflow, promotion and clearing.
 */
module AlarmLedger {
  import opened Numbers
  import opened AlarmWords
  import opened AlarmMachine
  import opened AlarmControl
  import opened AlarmImage
  import opened Summation

  // ------------------------------------------------------------ definitions

  /** Trigger calls that live only in this thread: not yet deferred, or carried towards the image. */
  function Owned(pc: Pc): set<nat> {
    match pc
    case Open(TriggerEnter(t)) => {t.id}
    case Deferring(DeferLoad(t)) => {t.id}
    case Deferring(DeferCas(t, _, _)) => {t.id}
    case Deferring(DeferPayload(t)) => {t.id}
    case Deferring(DeferOr(t)) => {t.id}
    case Contending(TriggerWriter(t)) => {t.id}
    case Writing(PromoteOverflow(ids, _, _)) => ids
    case Publishing(job, stage) => if stage.PutUpdate? then {} else job.ids
    case _ => {}
  }

  /** Counter units a promoter has taken out of the deferred word and not yet added. */
  function Carried(th: Thread): nat {
    if th.pc.Publishing? && !th.pc.job.direct then th.pc.job.delta
    else if th.pc.Writing? && th.pc.write.PromoteOverflow? then 1
    else 0
  }

  function Debit(sh: Shared): nat {
    sh.hist.updates + Units(sh.deferred) + sh.hist.absorbed
  }

  function Credit(sh: Shared): nat {
    sh.hist.recorded + sh.hist.clears
  }

  predicate Visible(sh: Shared, id: nat) {
    id in sh.hist.pending || id in sh.hist.image || id in sh.hist.cleared
  }

  /** The facts about the shared words alone. */
  predicate Books(sh: Shared) {
    && FitsDeferred(sh.deferred)
    && (sh.deferred.count == 0 ==> sh.deferred.payload == NO_PAYLOAD)
    && (sh.deferred.count > 0 ==> sh.deferred.payload == Truncate(sh.hist.first))
    && (sh.hist.pending == {} <==> sh.deferred == NO_DEFERRED)
    && (sh.hist.image == {} <==> !sh.hasAlarm)
    && sh.updateCount == sh.hist.updates % TWO32
  }

  predicate Duty(th: Thread) {
    match th.pc
    case Writing(PromoteOverflow(ids, _, _)) => ids != {}
    case Publishing(job, stage) =>
      job.ids != {} && job.delta >= 1 && (job.direct ==> job.delta == 1)
    case _ => true
  }

  ghost predicate Ledger(s: State) {
    && Books(s.shared)
    && Debit(s.shared) + Sum(s.threads, Carried) == Credit(s.shared)
    && (forall t :: 0 <= t < |s.threads| ==> Duty(s.threads[t]))
    && forall id: nat :: id < |s.shared.hist.made| && !Visible(s.shared, id) ==> Claimed(s, id)
  }

  ghost predicate Claimed(s: State, id: nat) {
    exists t :: 0 <= t < |s.threads| && id in Owned(s.threads[t].pc)
  }

  // -------------------------------------------------------- one thread's step

  /** A step keeps the books, balances its own carried units and drops no Trigger call. */
  ghost predicate Settles(sh: Shared, th: Thread, sh': Shared, th': Thread) {
    && Books(sh')
    && Duty(th')
    && Debit(sh') + Carried(th') + Credit(sh) == Credit(sh') + Debit(sh) + Carried(th)
    && |sh.hist.made| <= |sh'.hist.made|
    && (forall id: nat :: id < |sh'.hist.made| && !Visible(sh', id) && id !in Owned(th'.pc) ==>
          id < |sh.hist.made| && !Visible(sh, id) && id !in Owned(th.pc))
  }

  predicate SameBooks(sh: Shared, sh': Shared) {
    && sh'.deferred == sh.deferred && sh'.hasAlarm == sh.hasAlarm && sh'.updateCount == sh.updateCount
    && sh'.hist.(intents := 0, advances := 0, published := []) == sh.hist.(intents := 0, advances := 0, published := [])
  }

  /** Most steps touch none of the books. */
  lemma Untouched(sh: Shared, th: Thread, sh': Shared, th': Thread)
    requires Books(sh) && SameBooks(sh, sh') && Duty(th')
    requires Carried(th') == Carried(th) && Owned(th.pc) <= Owned(th'.pc)
    ensures Settles(sh, th, sh', th')
  {
  }

  lemma ProbeOwnsNothing(sh: Shared, pc: OpenPc)
    requires Probing(pc)
    ensures Owned(Open(pc)) == {}
    ensures Probe(sh, pc).Idle? || Probe(sh, pc).Open?
  {
  }

  lemma SettlesOpen(sh: Shared, th: Thread)
    requires Books(sh) && Duty(th) && th.pc.Open?
    ensures Settles(sh, th, ActOpen(sh, th, th.pc.open).0, ActOpen(sh, th, th.pc.open).1)
  {
    if Probing(th.pc.open) {
      assert ActOpen(sh, th, th.pc.open) == (sh, th.(pc := Probe(sh, th.pc.open)));
      ProbeOwnsNothing(sh, th.pc.open);
    }
    Untouched(sh, th, ActOpen(sh, th, th.pc.open).0, ActOpen(sh, th, th.pc.open).1);
  }

  lemma SettlesCas(sh: Shared, th: Thread, spurious: bool)
    requires Books(sh) && Duty(th) && th.pc.Deferring? && th.pc.defer.DeferCas?
    ensures Settles(sh, th, ActDefer(sh, th, th.pc.defer, spurious).0, ActDefer(sh, th, th.pc.defer, spurious).1)
  {
    if ActDefer(sh, th, th.pc.defer, spurious).0 == sh {
      Untouched(sh, th, ActDefer(sh, th, th.pc.defer, spurious).0, ActDefer(sh, th, th.pc.defer, spurious).1);
    }
  }

  lemma SettlesOr(sh: Shared, th: Thread, spurious: bool)
    requires Books(sh) && Duty(th) && th.pc.Deferring? && th.pc.defer.DeferOr?
    ensures Settles(sh, th, ActDefer(sh, th, th.pc.defer, spurious).0, ActDefer(sh, th, th.pc.defer, spurious).1)
  {
  }

  lemma SettlesDefer(sh: Shared, th: Thread, spurious: bool)
    requires Books(sh) && Duty(th) && th.pc.Deferring?
    ensures Settles(sh, th, ActDefer(sh, th, th.pc.defer, spurious).0, ActDefer(sh, th, th.pc.defer, spurious).1)
  {
    if th.pc.defer.DeferCas? {
      SettlesCas(sh, th, spurious);
    } else if th.pc.defer.DeferOr? {
      SettlesOr(sh, th, spurious);
    } else {
      Untouched(sh, th, ActDefer(sh, th, th.pc.defer, spurious).0, ActDefer(sh, th, th.pc.defer, spurious).1);
    }
  }

  lemma SettlesContend(sh: Shared, th: Thread)
    requires Books(sh) && Duty(th) && th.pc.Contending?
    ensures Settles(sh, th, ActContend(sh, th, th.pc.contend).0, ActContend(sh, th, th.pc.contend).1)
  {
  }

  lemma SettlesExchange(sh: Shared, th: Thread)
    requires Books(sh) && Duty(th) && th.pc.Writing? && th.pc.write.PromoteExchange?
    ensures Settles(sh, th, ActWrite(sh, th, th.pc.write).0, ActWrite(sh, th, th.pc.write).1)
  {
  }

  lemma SettlesWrite(sh: Shared, th: Thread)
    requires Books(sh) && Duty(th) && th.pc.Writing?
    ensures Settles(sh, th, ActWrite(sh, th, th.pc.write).0, ActWrite(sh, th, th.pc.write).1)
  {
    if th.pc.write.PromoteExchange? {
      hide ActWrite;
      SettlesExchange(sh, th);
    } else {
      hide Settles;
      Untouched(sh, th, ActWrite(sh, th, th.pc.write).0, ActWrite(sh, th, th.pc.write).1);
    }
  }

  lemma AddModulo(x: nat, delta: nat)
    ensures (x % TWO32 + delta) % TWO32 == (x + delta) % TWO32
  {
  }

  lemma SettlesPutHas(sh: Shared, th: Thread)
    requires Books(sh) && Duty(th) && th.pc.Publishing? && th.pc.publish.PutHas?
    ensures Settles(sh, th, ActPublish(sh, th, th.pc.job, th.pc.publish).0,
          ActPublish(sh, th, th.pc.job, th.pc.publish).1)
  {
  }

  lemma SettlesPutUpdate(sh: Shared, th: Thread)
    requires Books(sh) && Duty(th) && th.pc.Publishing? && th.pc.publish.PutUpdate?
    ensures Settles(sh, th, ActPublish(sh, th, th.pc.job, th.pc.publish).0,
          ActPublish(sh, th, th.pc.job, th.pc.publish).1)
  {
    AddModulo(sh.hist.updates, th.pc.job.delta);
  }

  lemma SettlesPublish(sh: Shared, th: Thread)
    requires Books(sh) && Duty(th) && th.pc.Publishing?
    ensures Settles(sh, th, ActPublish(sh, th, th.pc.job, th.pc.publish).0,
          ActPublish(sh, th, th.pc.job, th.pc.publish).1)
  {
    if th.pc.publish.PutHas? {
      SettlesPutHas(sh, th);
    } else if th.pc.publish.PutUpdate? {
      SettlesPutUpdate(sh, th);
    } else {
      Untouched(sh, th, ActPublish(sh, th, th.pc.job, th.pc.publish).0, ActPublish(sh, th, th.pc.job, th.pc.publish).1);
    }
  }

  lemma SettlesDropHas(sh: Shared, th: Thread)
    requires Books(sh) && Duty(th) && th.pc.Dropping? && th.pc.drop.DropHas?
    ensures Settles(sh, th, ActDrop(sh, th, th.pc.under, th.pc.drop).0, ActDrop(sh, th, th.pc.under, th.pc.drop).1)
  {
  }

  lemma SettlesDropUpdate(sh: Shared, th: Thread)
    requires Books(sh) && Duty(th) && th.pc.Dropping? && th.pc.drop.DropUpdate?
    ensures Settles(sh, th, ActDrop(sh, th, th.pc.under, th.pc.drop).0, ActDrop(sh, th, th.pc.under, th.pc.drop).1)
  {
    AddModulo(sh.hist.updates, 1);
  }

  lemma SettlesDrop(sh: Shared, th: Thread)
    requires Books(sh) && Duty(th) && th.pc.Dropping?
    ensures Settles(sh, th, ActDrop(sh, th, th.pc.under, th.pc.drop).0, ActDrop(sh, th, th.pc.under, th.pc.drop).1)
  {
    if th.pc.drop.DropHas? {
      SettlesDropHas(sh, th);
    } else if th.pc.drop.DropUpdate? {
      SettlesDropUpdate(sh, th);
    } else {
      Untouched(sh, th, ActDrop(sh, th, th.pc.under, th.pc.drop).0, ActDrop(sh, th, th.pc.under, th.pc.drop).1);
    }
  }

  lemma SettlesStart(sh: Shared, th: Thread, c: Choice)
    requires Books(sh) && Duty(th) && th.pc.Idle?
    ensures Settles(sh, th, Act(sh, th, c).0, Act(sh, th, c).1)
  {
    if !c.CallTrigger? {
      Untouched(sh, th, Start(sh, th, c).0, Start(sh, th, c).1);
    }
  }

  lemma SettlesUnder(sh: Shared, th: Thread, c: Choice)
    requires Books(sh) && Duty(th) && th.pc.OwningWriter?
    ensures Settles(sh, th, Act(sh, th, c).0, Act(sh, th, c).1)
  {
    if th.pc.ownWriter.UnderRelease? {
      Untouched(sh, th, Act(sh, th, c).0, Act(sh, th, c).1);
    } else if sh.intent != th.res.reserved {
      Untouched(sh, th, Act(sh, th, c).0, Act(sh, th, c).1);
    }
  }

  lemma SettlesOwn(sh: Shared, th: Thread, c: Choice)
    requires Books(sh) && Duty(th) && (th.pc.Idle? || th.pc.Verifying? || th.pc.Owning? || th.pc.OwningWriter?)
    ensures Settles(sh, th, Act(sh, th, c).0, Act(sh, th, c).1)
  {
    if th.pc.Idle? {
      SettlesStart(sh, th, c);
    } else if th.pc.OwningWriter? {
      SettlesUnder(sh, th, c);
    } else {
      Untouched(sh, th, Act(sh, th, c).0, Act(sh, th, c).1);
    }
  }

  lemma ActSettles(sh: Shared, th: Thread, c: Choice)
    requires Books(sh) && Duty(th)
    ensures Settles(sh, th, Act(sh, th, c).0, Act(sh, th, c).1)
  {
    match th.pc
    case Open(_) => SettlesOpen(sh, th);
    case Deferring(_) => SettlesDefer(sh, th, c.Proceed? && c.spurious);
    case Contending(_) => SettlesContend(sh, th);
    case Writing(_) => SettlesWrite(sh, th);
    case Publishing(_, _) => SettlesPublish(sh, th);
    case Dropping(_, _) => SettlesDrop(sh, th);
    case _ => SettlesOwn(sh, th, c);
  }

  // ------------------------------------------------------------- all threads

  lemma LedgerStep(s: State, t: nat, c: Choice)
    requires Ledger(s) && t < |s.threads|
    ensures Ledger(Step(s, t, c))
  {
    ActSettles(s.shared, s.threads[t], c);
    var s' := Step(s, t, c);
    SumUpdate(s.threads, t, s'.threads[t], Carried);
    forall id: nat | id < |s'.shared.hist.made| && !Visible(s'.shared, id) ensures Claimed(s', id) {
      ClaimStep(s, t, c, id);
    }
  }

  lemma ClaimStep(s: State, t: nat, c: Choice, id: nat)
    requires Ledger(s) && t < |s.threads|
    requires Settles(s.shared, s.threads[t], Step(s, t, c).shared, Step(s, t, c).threads[t])
    requires id < |Step(s, t, c).shared.hist.made| && !Visible(Step(s, t, c).shared, id)
    ensures Claimed(Step(s, t, c), id)
  {
    var s' := Step(s, t, c);
    if id in Owned(s'.threads[t].pc) {
      assert Claimed(s', id);
    } else {
      assert Claimed(s, id);
      var u :| 0 <= u < |s.threads| && id in Owned(s.threads[u].pc);
      assert u != t;
      assert s'.threads[u] == s.threads[u];
    }
  }

  lemma LedgerInitial(s: State)
    requires Initial(s)
    ensures Ledger(s)
  {
    SumZero(s.threads, Carried);
  }

  /** The ledger holds after every interleaving. */
  lemma {:induction false} LedgerRun(s: State, events: seq<Event>)
    requires Initial(s)
    ensures Ledger(Run(s, events))
    decreases |events|
  {
    if events == [] {
      LedgerInitial(s);
    } else {
      LedgerRun(s, events[..|events| - 1]);
      var before := Run(s, events[..|events| - 1]);
      var e := events[|events| - 1];
      if e.t < |before.threads| {
        LedgerStep(before, e.t, e.c);
      }
    }
  }

  // ------------------------------------------------------------ main theorems

  /** A promoter, or a publishing Trigger, that carries the call with the writer flag held. */
  predicate CarriedBy(th: Thread, id: nat) {
    id in Owned(th.pc) && HoldsWriter(th.pc) && (InWindow(th.pc) || th.res.acquired)
  }

  /** The Trigger call is still running in this thread and has neither published nor deferred. */
  predicate StillCalling(th: Thread, id: nat) {
    id in Owned(th.pc) && (th.pc.Open? || th.pc.Deferring? || th.pc.Contending?)
  }

  /**
   A call's alarm is in the image, with its publication and its slot, in a nonzero deferred word, or carried
   by the writer.
   */
  ghost predicate Represented(s: State, id: nat) {
    || (s.shared.hasAlarm && s.shared.alarmCount > 0 && id in s.shared.hist.image && InImage(s.shared, id))
    || (s.shared.deferred != NO_DEFERRED && id in s.shared.hist.pending)
    || (s.shared.writer && exists t :: 0 <= t < |s.threads| && CarriedBy(s.threads[t], id))
  }

  /**
   No lost alarm: after every interleaving, every Trigger call ever made is
   represented, or has been cleared, or is still inside its own call.
   */
  lemma NoLostAlarm(s: State, events: seq<Event>, id: nat)
    requires Initial(s)
    requires id < |Run(s, events).shared.hist.made|
    ensures var r := Run(s, events);
            || Represented(r, id)
            || id in r.shared.hist.cleared
            || exists t :: 0 <= t < |r.threads| && StillCalling(r.threads[t], id)
  {
    hide Run, InImage, Control, Owned;
    LedgerRun(s, events);
    ControlRun(s, events);
    var r := Run(s, events);
    if id in r.shared.hist.image {
      ImageHoldsCall(s, events, id);
    } else if !Visible(r.shared, id) {
      assert Claimed(r, id);
      var t :| 0 <= t < |r.threads| && id in Owned(r.threads[t].pc);
      ControlEntitles(r, t);
      OwnerIsKnown(r.shared, r.threads[t], id);
    }
  }

  /** A thread that owns a call is still in it, or carries it as the writer. */
  lemma OwnerIsKnown(sh: Shared, th: Thread, id: nat)
    requires Entitled(sh, th) && id in Owned(th.pc)
    ensures StillCalling(th, id) || (sh.writer && CarriedBy(th, id))
  {
  }

  /** The alarm flag is set exactly when some call is in the image, and then the readable image is not empty. */
  lemma FlagShowsImage(s: State, events: seq<Event>)
    requires Initial(s)
    ensures var sh := Run(s, events).shared;
            (sh.hasAlarm <==> sh.hist.image != {}) && (sh.hasAlarm ==> sh.alarmCount > 0)
  {
    hide Run, InImage;
    LedgerRun(s, events);
    var image := Run(s, events).shared.hist.image;
    if image != {} {
      var id: nat :| id in image;
      ImageHoldsCall(s, events, id);
    }
  }

  // ---------------------------------------------------------- HasAlarm()

  /** HasAlarm(): one load of the flag, then, unless it was set, one of the deferred word. */
  predicate HasAlarm(first: Shared, second: Shared) { first.hasAlarm || second.deferred != NO_DEFERRED }

  lemma {:induction false} RunAppends(s: State, events: seq<Event>, later: seq<Event>)
    ensures Run(s, events + later) == Run(Run(s, events), later)
    decreases |later|
  {
    hide Step;
    if later == [] {
      assert events + later == events;
    } else {
      assert (events + later)[..|events + later| - 1] == events + later[..|later| - 1];
      RunAppends(s, events, later[..|later| - 1]);
    }
  }

  /** The answer is true exactly when some call was in the image at the first load, or is pending at the second. */
  lemma HasAlarmExact(s: State, events: seq<Event>, between: seq<Event>)
    requires Initial(s)
    ensures var first := Run(s, events);
            var second := Run(first, between);
            HasAlarm(first.shared, second.shared) <==> first.shared.hist.image != {} || second.shared.hist.pending != {}
  {
    hide Run;
    LedgerRun(s, events);
    RunAppends(s, events, between);
    LedgerRun(s, events + between);
  }

  /** A promoter takes the call out of the deferred word. */
  predicate Exchanges(s: State, e: Event, id: nat) {
    && e.t < |s.threads| && s.threads[e.t].pc.Writing? && s.threads[e.t].pc.write.PromoteExchange?
    && id in s.shared.hist.pending
  }

  lemma PendingLeaves(sh: Shared, th: Thread, c: Choice, id: nat)
    requires id in sh.hist.pending && id !in Act(sh, th, c).0.hist.pending
    ensures th.pc.Writing? && th.pc.write.PromoteExchange?
  {
  }

  /** A call that is pending stays so until a promoter exchanges it out. */
  lemma {:induction false} PendingUntilExchanged(s: State, between: seq<Event>, id: nat)
    requires id in s.shared.hist.pending && id !in Run(s, between).shared.hist.pending
    ensures exists i: nat :: i < |between| && Exchanges(Run(s, between[..i]), between[i], id)
    decreases |between|
  {
    hide Act, Exchanges;
    if between != [] {
      var shorter := between[..|between| - 1];
      var before, e := Run(s, shorter), between[|between| - 1];
      if id in before.shared.hist.pending {
        PendingLeaves(before.shared, before.threads[e.t], e.c, id);
        assert Exchanges(before, e, id) by {
          ExchangesNow(before, e, id);
        }
      } else {
        PendingUntilExchanged(s, shorter, id);
        var i: nat :| i < |shorter| && Exchanges(Run(s, shorter[..i]), shorter[i], id);
        assert shorter[..i] == between[..i] && shorter[i] == between[i];
      }
    }
  }

  lemma ExchangesNow(s: State, e: Event, id: nat)
    requires e.t < |s.threads| && s.threads[e.t].pc.Writing? && s.threads[e.t].pc.write.PromoteExchange?
    requires id in s.shared.hist.pending
    ensures Exchanges(s, e, id)
  {
  }

  /** The call was taken out of the deferred word at some step between the two loads. */
  ghost predicate ExchangedBetween(s: State, between: seq<Event>, id: nat) {
    exists i: nat :: i < |between| && Exchanges(Run(s, between[..i]), between[i], id)
  }

  /**
   What a false answer leaves possible for a call made before the first load: it had been cleared, was still
   inside its own call, was carried by the writer, or was exchanged out of the deferred word before the second.
   */
  lemma FalseHasAlarm(s: State, events: seq<Event>, between: seq<Event>, id: nat)
    requires Initial(s) && id < |Run(s, events).shared.hist.made|
    requires !HasAlarm(Run(s, events).shared, Run(Run(s, events), between).shared)
    ensures var first := Run(s, events);
            || id in first.shared.hist.cleared
            || (exists t :: 0 <= t < |first.threads| && StillCalling(first.threads[t], id))
            || (exists t :: 0 <= t < |first.threads| && CarriedBy(first.threads[t], id))
            || (id in first.shared.hist.pending && ExchangedBetween(first, between, id))
  {
    hide Run, Exchanges, StillCalling, CarriedBy, InImage, Initial;
    NoLostAlarm(s, events, id);
    HasAlarmExact(s, events, between);
    var first := Run(s, events);
    if id in first.shared.hist.pending {
      PendingUntilExchanged(first, between, id);
    }
  }

  /**
   A call becomes cleared only out of the image, by the flag store of a Clear
   that holds the writer flag inside a window opened with RESERVED clear, or by
   the reservation holder; pending and carried calls are never cleared.
   */
  lemma ClearedOnlyFromImage(s: State, t: nat, c: Choice, id: nat)
    requires Control(s) && Ledger(s) && t < |s.threads|
    requires id !in s.shared.hist.cleared && id in Step(s, t, c).shared.hist.cleared
    ensures s.shared.hasAlarm && id in s.shared.hist.image
    ensures s.threads[t].pc.Dropping? && s.threads[t].pc.drop.DropHas?
    ensures s.threads[t].res.acquired || (s.shared.writer && InWindow(s.threads[t].pc) && !s.shared.intent.reserved)
  {
    hide Act;
    ControlEntitles(s, t);
    ActClears(s.shared, s.threads[t], c, id);
  }

  /** Only the flag store of a clear adds to the cleared calls. */
  lemma ClearsAt(sh: Shared, th: Thread, c: Choice)
    requires Act(sh, th, c).0.hist.cleared != sh.hist.cleared
    ensures th.pc.Dropping? && th.pc.drop.DropHas?
  {
  }

  lemma ActClears(sh: Shared, th: Thread, c: Choice, id: nat)
    requires Books(sh) && Entitled(sh, th)
    requires id !in sh.hist.cleared && id in Act(sh, th, c).0.hist.cleared
    ensures sh.hasAlarm && id in sh.hist.image && th.pc.Dropping? && th.pc.drop.DropHas?
    ensures th.res.acquired || (sh.writer && InWindow(th.pc) && !sh.intent.reserved)
  {
    hide Act, ActDrop;
    ClearsAt(sh, th, c);
    DropClears(sh, th, c);
  }

  lemma DropClears(sh: Shared, th: Thread, c: Choice)
    requires th.pc.Dropping? && th.pc.drop.DropHas?
    ensures Act(sh, th, c).0.hist.cleared == sh.hist.cleared + sh.hist.image
  {
  }

  /**
   Deferred accounting, exact: counter advance, pending units, carried units and
   the increments absorbed by an already-set overflow bit add up to the
   recorded alarms plus the effective clears.
   */
  lemma DeferredAccounting(s: State, events: seq<Event>)
    requires Initial(s)
    ensures var r := Run(s, events);
            var h := r.shared.hist;
            && h.updates + Units(r.shared.deferred) + Sum(r.threads, Carried) + h.absorbed == h.recorded + h.clears
            && r.shared.updateCount == h.updates % TWO32
  {
    LedgerRun(s, events);
  }

  /** An increment is absorbed only by a deferral that finds the overflow bit already set. */
  lemma AbsorbedNeedsOverflow(s: State, t: nat, c: Choice)
    requires t < |s.threads|
    requires Step(s, t, c).shared.hist.absorbed != s.shared.hist.absorbed
    ensures s.shared.deferred.overflow && s.threads[t].pc.Deferring?
    ensures Step(s, t, c).shared.hist.absorbed == s.shared.hist.absorbed + 1
    ensures Step(s, t, c).shared.deferred == s.shared.deferred
  {
    hide Act;
    ActAbsorbs(s.shared, s.threads[t], c);
  }

  lemma ActAbsorbs(sh: Shared, th: Thread, c: Choice)
    requires Act(sh, th, c).0.hist.absorbed != sh.hist.absorbed
    ensures sh.deferred.overflow && th.pc.Deferring? && Act(sh, th, c).0.deferred == sh.deferred
    ensures Act(sh, th, c).0.hist.absorbed == sh.hist.absorbed + 1
  {
    if !th.pc.Deferring? {
      OthersAbsorbNothing(sh, th, c);
    }
  }

  lemma OthersAbsorbNothing(sh: Shared, th: Thread, c: Choice)
    requires !th.pc.Deferring?
    ensures Act(sh, th, c).0.hist.absorbed == sh.hist.absorbed
  {
  }

  /**
   Promotion of a word with a nonzero count publishes the first deferred alarm,
   unchanged when its fields are representable, and all the counted units.
   */
  lemma PromotionPublishesFirst(s: State, t: nat, c: Choice)
    requires Ledger(s) && t < |s.threads|
    requires s.threads[t].pc.Writing? && s.threads[t].pc.write.PromoteExchange?
    requires s.shared.deferred.count > 0
    ensures var pc := Step(s, t, c).threads[t].pc;
            && pc.Publishing? && pc.job.delta == Units(s.shared.deferred) && pc.job.ids == s.shared.hist.pending
            && pc.job.alarm == Extend(Truncate(s.shared.hist.first))
            && (FitsAlarm(s.shared.hist.first) && Representable(s.shared.hist.first) ==>
                  pc.job.alarm == s.shared.hist.first)
    ensures Step(s, t, c).shared.deferred == NO_DEFERRED
  {
    if FitsAlarm(s.shared.hist.first) {
      PayloadRoundTrip(s.shared.hist.first);
    }
  }

  /** The deferred word changes only inside a window. */
  lemma DeferredChanges(sh: Shared, th: Thread, c: Choice)
    ensures Act(sh, th, c).0.deferred != sh.deferred || Act(sh, th, c).0.hist.first != sh.hist.first ==>
              th.pc.Deferring? || th.pc.Writing?
  {
  }

  /** Later coalescing never replaces the first deferred alarm of a pending word. */
  lemma CoalescingKeepsFirst(s: State, t: nat, c: Choice)
    requires Ledger(s) && t < |s.threads|
    requires s.shared.deferred.count > 0 && Step(s, t, c).shared.deferred.count > 0
    ensures Step(s, t, c).shared.hist.first == s.shared.hist.first
    ensures Step(s, t, c).shared.deferred.payload == s.shared.deferred.payload
    ensures s.shared.deferred.count <= Step(s, t, c).shared.deferred.count
  {
    DeferredChanges(s.shared, s.threads[t], c);
    if s.threads[t].pc.Writing? {
      assert Step(s, t, c).shared == ActWrite(s.shared, s.threads[t], s.threads[t].pc.write).0;
    } else if s.threads[t].pc.Deferring? {
      assert Step(s, t, c).shared
          == ActDefer(s.shared, s.threads[t], s.threads[t].pc.defer, c.Proceed? && c.spurious).0;
    }
  }
}
