/**
 Trigger, the admission calls and the operations of a reservation holder, each run by its thread alone from any
 reachable state: when they succeed, and what they leave behind.
 */
module AlarmCalls {
  import opened Numbers
  import opened AlarmWords
  import opened AlarmMachine
  import opened AlarmControl
  import opened AlarmImage
  import opened AlarmLedger
  import opened AlarmSolo
  import opened Optional

  // -------------------------------------------------------------- Trigger

  /** The publications a promotion adds for a pending word. */
  function Pending(sh: Shared): seq<Entry> {
    if sh.deferred == NO_DEFERRED then []
    else [Entry(if sh.deferred.count == 0 then OverflowAlarm(sh.overflowPayload) else Extend(sh.deferred.payload),
                sh.hist.pending, false)]
  }

  /** The call is in the image, in its own slot, before everything that was pending. */
  ghost predicate Shown(was: Shared, now: Shared, a: Alarm) {
    && now.hasAlarm && now.deferred == NO_DEFERRED && now.hist.pending == {}
    && now.hist.made == was.hist.made + [a]
    && now.hist.image == was.hist.image + {|was.hist.made|} + was.hist.pending
    && now.hist.cleared == was.hist.cleared
    && now.hist.published == was.hist.published + [Entry(a, {|was.hist.made|}, true)] + Pending(was)
    && Sized(was) && Sized(now) && now.alarmCount >= was.alarmCount
    && (forall i :: 0 <= i < was.alarmCount ==> now.slots[i] == was.slots[i])
    && (was.alarmCount < MAX_ALARMS ==> now.alarmCount > was.alarmCount && now.slots[was.alarmCount] == a)
    && now.hist.updates == was.hist.updates + 1 + Units(was.deferred)
    && now.updateCount == now.hist.updates % TWO32
    && !now.writer && !now.intent.reserved && now.intent.active == was.intent.active
  }

  function OwnJob(t: Ticket): Job { Job(t.alarm, 1, {t.id}, true, false, 2, Return) }

  lemma TriggerEnters(sh: Shared, th: Thread, t: Ticket)
    requires th.pc == Open(TriggerEnter(t)) && !sh.writer && !sh.intent.reserved
    ensures Alone(sh, th, 2) == (Entered(sh), th.(pc := Publishing(OwnJob(t), LoadCount), saw := false))
  {
    hide Alone;
    One(sh, th, 2);
    var r1 := Act(sh, th, GO);
    OneStep(r1.0, r1.1);
  }

  lemma PublishedShared(sh: Shared, job: Job)
    requires !sh.writer
    ensures var p := AfterPublish(Entered(sh), job);
            p.(writer := false, intent := Leave(p.intent)) == AfterPublish(Windowed(sh), job)
    ensures AfterPublish(Windowed(sh), job).deferred == sh.deferred
    ensures Sized(sh) ==> Sized(AfterPublish(Windowed(sh), job))
    ensures !AfterPublish(Windowed(sh), job).writer
    ensures AfterPublish(Windowed(sh), job).intent.reserved == sh.intent.reserved
  {
    hide EntryOf;
  }

  /** The Trigger has published its alarm and closed its window. */
  lemma TriggerPublishes(sh: Shared, th: Thread, t: Ticket) returns (n: nat)
    requires th.pc == Open(TriggerEnter(t)) && !sh.writer && !sh.intent.reserved && Sized(sh)
    ensures Alone(sh, th, n) ==
            (AfterPublish(Windowed(sh), OwnJob(t)), th.(pc := Open(PromoteCheck(2, Return)), saw := false))
  {
    hide Alone, Act, AfterPublish;
    TriggerEnters(sh, th, t);
    var r1 := Alone(sh, th, 2);
    var m := PublishAlone(r1.0, r1.1, OwnJob(t));
    AloneAdds(sh, th, 2, m);
    var r2 := Alone(sh, th, 2 + m);
    LeavesAlone(r2.0, r2.1, 2, Return);
    AloneAdds(sh, th, 2 + m, 2);
    PublishedShared(sh, OwnJob(t));
    n := 4 + m;
  }

  function AfterTrigger(sh: Shared, t: Ticket): Shared {
    var p := AfterPublish(Windowed(sh), OwnJob(t));
    if sh.deferred == NO_DEFERRED then p else AfterPromote(p, Return)
  }

  lemma TriggerAlone(sh: Shared, th: Thread, t: Ticket) returns (n: nat)
    requires th.pc == Open(TriggerEnter(t)) && !sh.writer && !sh.intent.reserved && Sound(sh)
    ensures Alone(sh, th, n) == (AfterTrigger(sh, t), th.(pc := Idle, saw := false))
  {
    hide Alone, Act, AfterPublish, AfterPromote;
    var m := TriggerPublishes(sh, th, t);
    var r := Alone(sh, th, m);
    PublishedShared(sh, OwnJob(t));
    if sh.deferred == NO_DEFERRED {
      NothingToPromote(r.0, r.1, Return);
      AloneAdds(sh, th, m, 2);
      n := m + 2;
    } else {
      var l := PromoteAlone(r.0, r.1, Return);
      AloneAdds(sh, th, m, l);
      n := m + l;
    }
  }

  lemma ShownWords(sh: Shared, a: Alarm)
    requires Sound(sh) && !sh.writer && !sh.intent.reserved
    ensures var was := sh.(hist := sh.hist.(made := sh.hist.made + [a]));
            Shown(sh, AfterTrigger(was, Ticket(|sh.hist.made|, a)), a)
  {
    hide Extend, OverflowAlarm;
    AddModulo(sh.hist.updates, 1);
    AddModulo(sh.hist.updates + 1, Units(sh.deferred));
  }

  /** A Trigger alone, with RESERVED and the writer flag clear, is in the image when it returns. */
  lemma TriggerShows(init: State, events: seq<Event>, s: State, t: nat, a: Alarm, n: nat)
    requires Reaches(init, events, s, t) && !s.shared.intent.reserved && !s.shared.writer
    requires Back(s, t, CallTrigger(a), n)
    ensures Shown(s.shared, Run(s, Calling(t, CallTrigger(a), n)).shared, a)
  {
    hide Run, Shown, AfterTrigger, Alone;
    ReachedIsSound(init, events, s, t);
    CallIsAlone(s, t, CallTrigger(a), n);
    var started := Start(s.shared, s.threads[t], CallTrigger(a));
    var m := TriggerAlone(started.0, started.1, Ticket(|s.shared.hist.made|, a));
    OneReturn(started.0, started.1, m, n);
    ShownWords(s.shared, a);
  }

  // ----------------------------------------------- Trigger, held off

  /** RESERVED or the writer flag is set, and no step of this thread can clear it. */
  predicate Blocked(sh: Shared) { sh.intent.reserved || sh.writer }

  /**
   The call waits in the deferred word: the first payload is kept, the count saturates into the overflow bit,
   and the image, its counter and the writer flag are as before.
   */
  ghost predicate Waits(was: Shared, now: Shared, a: Alarm) {
    && SameImage(was, now) && now.hist.published == was.hist.published && now.hist.image == was.hist.image
    && now.hist.cleared == was.hist.cleared && now.hist.updates == was.hist.updates
    && now.hist.made == was.hist.made + [a]
    && now.hist.pending == was.hist.pending + {|was.hist.made|}
    && now.deferred.payload == (if was.deferred.count == 0 then Truncate(a) else was.deferred.payload)
    && now.deferred.count == (if was.deferred.count < COUNT_MAX then was.deferred.count + 1 else was.deferred.count)
    && now.deferred.overflow == (was.deferred.overflow || was.deferred.count >= COUNT_MAX)
    && now.overflowPayload == was.overflowPayload
    && now.writer == was.writer
    && now.intent.reserved == was.intent.reserved && now.intent.active == was.intent.active
  }

  function Opened(sh: Shared): Shared {
    sh.(intent := Begin(sh.intent), hist := sh.hist.(intents := sh.hist.intents + 1))
  }

  lemma TriggerHeldOff(sh: Shared, th: Thread, t: Ticket) returns (n: nat)
    requires th.pc == Open(TriggerEnter(t)) && Blocked(sh)
    ensures Alone(sh, th, n) == (Opened(sh), th.(pc := Deferring(DeferLoad(t)), saw := sh.intent.reserved))
  {
    hide Alone;
    if sh.intent.reserved {
      OneStep(sh, th);
      n := 1;
    } else {
      One(sh, th, 2);
      var r1 := Act(sh, th, GO);
      OneStep(r1.0, r1.1);
      n := 2;
    }
  }

  lemma DeferAlone(sh: Shared, th: Thread, t: Ticket)
    requires th.pc == Deferring(DeferLoad(t))
    ensures Alone(sh, th, 3) ==
            (DeferStored(sh, t).(intent := Leave(sh.intent)), th.(pc := Open(PromoteCheck(2, Return))))
  {
    hide Alone, Coalesce, Leave;
    One(sh, th, 3);
    var r1 := Act(sh, th, GO);
    One(r1.0, r1.1, 2);
    var r2 := Act(r1.0, r1.1, GO);
    OneStep(r2.0, r2.1);
  }

  /** An attempt to promote opens a window and closes it again. */
  lemma AttemptFails(sh: Shared, th: Thread, i: nat, k: Next) returns (n: nat)
    requires th.pc == Open(PromoteCheck(i, k)) && i > 0 && sh.deferred != NO_DEFERRED && Blocked(sh)
    ensures Alone(sh, th, n) == (Windowed(sh), th.(pc := Promote(i - 1, k), saw := sh.intent.reserved))
  {
    hide Alone, Promote;
    if sh.intent.reserved {
      One(sh, th, 3);
      var r1 := Act(sh, th, GO);
      One(r1.0, r1.1, 2);
      var r2 := Act(r1.0, r1.1, GO);
      OneStep(r2.0, r2.1);
      n := 3;
    } else {
      One(sh, th, 4);
      var r1 := Act(sh, th, GO);
      One(r1.0, r1.1, 3);
      var r2 := Act(r1.0, r1.1, GO);
      One(r2.0, r2.1, 2);
      var r3 := Act(r2.0, r2.1, GO);
      OneStep(r3.0, r3.1);
      n := 4;
    }
  }

  lemma BothFail(sh: Shared, th: Thread, k: Next) returns (n: nat)
    requires th.pc == Open(PromoteCheck(2, k)) && sh.deferred != NO_DEFERRED && Blocked(sh)
    ensures Alone(sh, th, n) == (Windowed(Windowed(sh)), th.(pc := Dispatch(k), saw := sh.intent.reserved))
  {
    hide Alone, Act;
    var m := AttemptFails(sh, th, 2, k);
    var r := Alone(sh, th, m);
    var l := AttemptFails(r.0, r.1, 1, k);
    AloneAdds(sh, th, m, l);
    n := m + l;
  }

  lemma StoredWords(sh: Shared, t: Ticket)
    ensures var d := DeferStored(Opened(sh), t);
            d.(intent := Leave(d.intent)) == Windowed(DeferStored(sh, t))
    ensures DeferStored(sh, t).deferred != NO_DEFERRED
    ensures DeferStored(Opened(sh), t).intent == Opened(sh).intent
    ensures Blocked(DeferStored(sh, t)) == Blocked(sh)
    ensures DeferStored(sh, t).intent == sh.intent
  {
  }

  lemma DeferredAlone(sh: Shared, th: Thread, t: Ticket) returns (n: nat)
    requires th.pc == Open(TriggerEnter(t)) && Blocked(sh)
    ensures Alone(sh, th, n) ==
            (Windowed(Windowed(Windowed(DeferStored(sh, t)))), th.(pc := Idle, saw := sh.intent.reserved))
  {
    hide Alone, Act, DeferStored;
    var m := TriggerHeldOff(sh, th, t);
    var r1 := Alone(sh, th, m);
    DeferAlone(r1.0, r1.1, t);
    AloneAdds(sh, th, m, 3);
    StoredWords(sh, t);
    var r2 := Alone(sh, th, m + 3);
    var l := BothFail(r2.0, r2.1, Return);
    AloneAdds(sh, th, m + 3, l);
    n := m + 3 + l;
  }

  /** A Trigger alone against RESERVED or a busy writer flag leaves its alarm in the deferred word. */
  lemma TriggerWaits(init: State, events: seq<Event>, s: State, t: nat, a: Alarm, n: nat)
    requires Reaches(init, events, s, t) && Blocked(s.shared)
    requires Back(s, t, CallTrigger(a), n)
    ensures Waits(s.shared, Run(s, Calling(t, CallTrigger(a), n)).shared, a)
  {
    hide Run, Alone;
    CallIsAlone(s, t, CallTrigger(a), n);
    var started := Start(s.shared, s.threads[t], CallTrigger(a));
    var m := DeferredAlone(started.0, started.1, Ticket(|s.shared.hist.made|, a));
    OneReturn(started.0, started.1, m, n);
  }

  // ----------------------------------------------------------- admission

  /** What admission asks of the words it reads. */
  predicate Admits(sh: Shared, args: BeginArgs) {
    && sh.updateCount == args.expectedUpdate && (args.requireNoAlarm ==> !sh.hasAlarm)
    && (args.expectedIntent.Some? ==> sh.intent == args.expectedIntent.value)
    && sh.intent.active == 0 && !sh.intent.reserved && !sh.writer
  }

  lemma ReadsState(sh: Shared, th: Thread, args: BeginArgs) returns (n: nat)
    requires th.pc == Open(BeginUpdate(args))
    ensures Alone(sh, th, n) ==
            (sh, th.(pc := Open(BeginState(args, sh.updateCount == args.expectedUpdate, HasAlarm(sh, sh)))))
  {
    hide Alone;
    One(sh, th, 3);
    One(sh, th, 2);
    var r1 := Act(sh, th, GO);
    OneStep(r1.0, r1.1);
    if sh.hasAlarm {
      n := 2;
    } else {
      One(r1.0, r1.1, 2);
      var r2 := Act(r1.0, r1.1, GO);
      OneStep(r2.0, r2.1);
      n := 3;
    }
  }

  lemma AdmissionRefused(sh: Shared, th: Thread, args: BeginArgs) returns (n: nat)
    requires th.pc == Open(BeginState(args, sh.updateCount == args.expectedUpdate, HasAlarm(sh, sh)))
    requires sh.deferred != NO_DEFERRED || !Admits(sh, args)
    ensures Alone(sh, th, n) == (sh, th.(pc := Idle))
  {
    hide Alone;
    One(sh, th, 3);
    One(sh, th, 2);
    OneStep(sh, th);
    var r1 := Act(sh, th, GO);
    if r1.1.pc.Idle? {
      n := 1;
    } else {
      One(r1.0, r1.1, 2);
      OneStep(r1.0, r1.1);
      var r2 := Act(r1.0, r1.1, GO);
      OneStep(r2.0, r2.1);
      n := if r2.1.pc.Idle? then 2 else 3;
    }
  }

  /** The reservation an admission returns: the word it found, and the same with RESERVED set. */
  function Reserved(sh: Shared, args: BeginArgs): Reservation {
    Reservation(sh.intent, sh.intent.(reserved := true), args.expectedUpdate, args.requireNoAlarm, true,
                sh.hist.intents)
  }

  lemma AdmissionSwaps(sh: Shared, th: Thread, args: BeginArgs)
    requires th.pc == Open(BeginState(args, sh.updateCount == args.expectedUpdate, HasAlarm(sh, sh)))
    requires sh.deferred == NO_DEFERRED && Admits(sh, args)
    ensures Alone(sh, th, 4) ==
            (sh.(intent := sh.intent.(reserved := true)),
             th.(pc := Verifying(Verify(0)), res := Reserved(sh, args).(acquired := false)))
  {
    hide Alone;
    One(sh, th, 4);
    var r1 := Act(sh, th, GO);
    One(r1.0, r1.1, 3);
    var r2 := Act(r1.0, r1.1, GO);
    One(r2.0, r2.1, 2);
    var r3 := Act(r2.0, r2.1, GO);
    OneStep(r3.0, r3.1);
  }

  predicate AllPass(sh: Shared, res: Reservation) {
    forall stage: nat :: stage <= 5 ==> VerifyPasses(sh, res, stage)
  }

  lemma {:induction false} VerifiesAlone(sh: Shared, th: Thread, stage: nat)
    requires th.pc == Verifying(Verify(stage)) && stage <= 5 && AllPass(sh, th.res)
    ensures Alone(sh, th, 6 - stage) == (sh, th.(pc := Idle, res := th.res.(acquired := true)))
    decreases 5 - stage
  {
    hide Alone, VerifyPasses;
    assert VerifyPasses(sh, th.res, stage);
    One(sh, th, 6 - stage);
    var r := Act(sh, th, GO);
    if stage < 5 {
      VerifiesAlone(r.0, r.1, stage + 1);
    } else {
      OneStep(sh, th);
    }
  }

  /** The admission proper, behind its promotion. */
  lemma BeginDecides(sh: Shared, th: Thread, args: BeginArgs) returns (n: nat)
    requires th.pc == Open(BeginUpdate(args)) && th.res == NO_RESERVATION
    ensures Alone(sh, th, n) ==
            if sh.deferred == NO_DEFERRED && Admits(sh, args)
            then (sh.(intent := sh.intent.(reserved := true)), th.(pc := Idle, res := Reserved(sh, args)))
            else (sh, th.(pc := Idle))
  {
    hide Alone, Act;
    var m := ReadsState(sh, th, args);
    var r1 := Alone(sh, th, m);
    if sh.deferred == NO_DEFERRED && Admits(sh, args) {
      AdmissionSwaps(r1.0, r1.1, args);
      AloneAdds(sh, th, m, 4);
      var r2 := Alone(sh, th, m + 4);
      assert AllPass(r2.0, r2.1.res);
      VerifiesAlone(r2.0, r2.1, 0);
      AloneAdds(sh, th, m + 4, 6);
      n := m + 10;
    } else {
      var l := AdmissionRefused(r1.0, r1.1, args);
      AloneAdds(sh, th, m, l);
      n := m + l;
    }
  }

  /** The words an admission decides on: a pending word is promoted first, if nothing blocks it. */
  function BeforeBegin(sh: Shared, k: Next): Shared {
    if sh.deferred == NO_DEFERRED then sh
    else if Blocked(sh) then Windowed(Windowed(sh))
    else AfterPromote(sh, k)
  }

  lemma BeginPromotes(sh: Shared, th: Thread, args: BeginArgs) returns (n: nat)
    requires th.pc == Open(BeginProbe(args)) && Sound(sh)
    ensures Alone(sh, th, n).0 == BeforeBegin(sh, ThenBegin(args))
    ensures Alone(sh, th, n).1.pc == Open(BeginUpdate(args)) && Alone(sh, th, n).1.res == th.res
  {
    hide Alone, AfterPromote;
    OneStep(sh, th);
    if sh.deferred == NO_DEFERRED {
      n := 1;
    } else {
      var r := Act(sh, th, GO);
      var m: nat;
      if Blocked(sh) {
        m := BothFail(r.0, r.1, ThenBegin(args));
      } else {
        m := PromoteAlone(r.0, r.1, ThenBegin(args));
      }
      One(sh, th, 1 + m);
      n := 1 + m;
    }
  }

  lemma BeginAlone(sh: Shared, th: Thread, args: BeginArgs) returns (n: nat)
    requires th.pc == Open(BeginProbe(args)) && th.res == NO_RESERVATION && Sound(sh)
    ensures var w, r := BeforeBegin(sh, ThenBegin(args)), Alone(sh, th, n);
            && r.1.pc.Idle?
            && if w.deferred == NO_DEFERRED && Admits(w, args)
               then r.0 == w.(intent := w.intent.(reserved := true)) && r.1.res == Reserved(w, args)
               else r.0 == w && r.1.res == NO_RESERVATION
  {
    hide Alone, Act, BeforeBegin, Admits;
    var m := BeginPromotes(sh, th, args);
    var r := Alone(sh, th, m);
    var l := BeginDecides(r.0, r.1, args);
    AloneAdds(sh, th, m, l);
    n := m + l;
  }

  /**
   With no pending word, an admission alone acquires exactly when the counter is the expected one, no required
   condition fails, no intent is open, and RESERVED and the writer flag are clear.  It then changes the
   RESERVED bit only, and otherwise nothing.
   */
  lemma BeginAcquires(init: State, events: seq<Event>, s: State, t: nat, args: BeginArgs, n: nat)
    requires Reaches(init, events, s, t) && s.shared.deferred == NO_DEFERRED
    requires Back(s, t, CallBegin(args), n)
    ensures var r := Run(s, Calling(t, CallBegin(args), n));
            && (r.threads[t].res.acquired <==> Admits(s.shared, args))
            && r.shared == (if Admits(s.shared, args)
                            then s.shared.(intent := s.shared.intent.(reserved := true)) else s.shared)
            && (Admits(s.shared, args) ==> r.threads[t].res == Reserved(s.shared, args))
            && r.threads == s.threads[t := r.threads[t]]
  {
    hide Run, Alone, Sound;
    ReachedIsSound(init, events, s, t);
    CallIsAlone(s, t, CallBegin(args), n);
    var started := Start(s.shared, s.threads[t], CallBegin(args));
    var m := BeginAlone(started.0, started.1, args);
    OneReturn(started.0, started.1, m, n);
  }

  /**
   With a pending word that nothing blocks, an admission alone first publishes it, and then acquires exactly when
   it does not require an alarm-free start and the counter, the word and the active count, as the promotion leaves
   them, are the expected ones.
   */
  lemma BeginAfterPending(init: State, events: seq<Event>, s: State, t: nat, args: BeginArgs, n: nat)
    requires Reaches(init, events, s, t) && s.shared.deferred != NO_DEFERRED && !Blocked(s.shared)
    requires Back(s, t, CallBegin(args), n)
    ensures var was, r := s.shared, Run(s, Calling(t, CallBegin(args), n));
            var now := was.intent.(sequence := (was.intent.sequence + 1) % TWO32);
            && (r.threads[t].res.acquired <==>
                  && !args.requireNoAlarm && was.intent.active == 0
                  && args.expectedUpdate == (was.hist.updates + Units(was.deferred)) % TWO32
                  && (args.expectedIntent.Some? ==> args.expectedIntent.value == now))
            && Released(was, r.shared.(intent := r.shared.intent.(reserved := false)))
            && r.shared.intent == now.(reserved := r.threads[t].res.acquired)
  {
    hide Run, Alone, Sound, AfterPromote, Released;
    ReachedIsSound(init, events, s, t);
    CallIsAlone(s, t, CallBegin(args), n);
    var started := Start(s.shared, s.threads[t], CallBegin(args));
    var m := BeginAlone(started.0, started.1, args);
    OneReturn(started.0, started.1, m, n);
    PromotedWords(s.shared, ThenBegin(args));
    var w, r := AfterPromote(s.shared, ThenBegin(args)), Run(s, Calling(t, CallBegin(args), n));
    assert r.shared.(intent := r.shared.intent.(reserved := false)) == w;
  }

  lemma PromotedWords(sh: Shared, k: Next)
    requires Sound(sh) && !Blocked(sh) && sh.deferred != NO_DEFERRED
    ensures var w := AfterPromote(sh, k);
            && Released(sh, w) && w.hasAlarm && w.deferred == NO_DEFERRED && !w.writer
            && w.intent == sh.intent.(sequence := (sh.intent.sequence + 1) % TWO32)
            && w.updateCount == (sh.hist.updates + Units(sh.deferred)) % TWO32
  {
    ReleasedWords(sh, k);
    assert Unreserved(sh) == sh;
    hide Extend, OverflowAlarm, WithEntry;
  }

  /** With a pending word and RESERVED or the writer flag set, an admission alone fails, and nothing is published. */
  lemma BeginBlocked(init: State, events: seq<Event>, s: State, t: nat, args: BeginArgs, n: nat)
    requires Reaches(init, events, s, t) && s.shared.deferred != NO_DEFERRED && Blocked(s.shared)
    requires Back(s, t, CallBegin(args), n)
    ensures var was, r := s.shared, Run(s, Calling(t, CallBegin(args), n));
            && !r.threads[t].res.acquired && SameImage(was, r.shared) && r.shared.deferred == was.deferred
            && r.shared.hist.pending == was.hist.pending && r.shared.writer == was.writer
            && r.shared.intent.reserved == was.intent.reserved && r.shared.intent.active == was.intent.active
  {
    hide Run, Alone, Sound;
    ReachedIsSound(init, events, s, t);
    CallIsAlone(s, t, CallBegin(args), n);
    var started := Start(s.shared, s.threads[t], CallBegin(args));
    var m := BeginAlone(started.0, started.1, args);
    OneReturn(started.0, started.1, m, n);
  }

  // ------------------------------------------------- the reservation holder

  /** The checks of a call that asks for all five conditions, or for ClearUnderMotionAdmission the first four. */
  predicate Asked(sh: Shared, res: Reservation, purpose: Purpose) {
    forall stage: nat :: stage <= (if purpose.ForClear? then 3 else 4) ==> CurrentPasses(sh, res, stage)
  }

  lemma {:induction false} ChecksAlone(sh: Shared, th: Thread, stage: nat, purpose: Purpose) returns (n: nat)
    requires th.pc == Owning(CurrentCheck(stage, purpose)) && stage <= (if purpose.ForClear? then 3 else 4)
    requires forall j: nat :: j < stage ==> CurrentPasses(sh, th.res, j)
    ensures Alone(sh, th, n) ==
            (sh, th.(pc := if Asked(sh, th.res, purpose) then AfterCheck(4, purpose)
                           else if purpose.ForEnd? then Owning(EndCas(false)) else Idle))
    decreases 4 - stage
  {
    hide Alone, CurrentPasses;
    OneStep(sh, th);
    var r := Act(sh, th, GO);
    if !CurrentPasses(sh, th.res, stage) {
      assert !Asked(sh, th.res, purpose);
      n := 1;
    } else if stage == (if purpose.ForClear? then 3 else 4) {
      assert Asked(sh, th.res, purpose);
      n := 1;
    } else {
      var m := ChecksAlone(r.0, r.1, stage + 1, purpose);
      One(sh, th, 1 + m);
      n := 1 + m;
    }
  }

  /** What the checks come to: the reservation is current; ForClear leaves the alarm flag out. */
  predicate Allowed(sh: Shared, res: Reservation, purpose: Purpose) {
    && sh.intent == res.reserved && sh.updateCount == res.expected && sh.deferred == NO_DEFERRED && !sh.writer
    && (!purpose.ForClear? && res.requireNoAlarm ==> !sh.hasAlarm)
  }

  lemma AskedIsAllowed(sh: Shared, res: Reservation, purpose: Purpose)
    ensures Asked(sh, res, purpose) <==> Allowed(sh, res, purpose)
  {
    if Asked(sh, res, purpose) {
      assert CurrentPasses(sh, res, 0) && CurrentPasses(sh, res, 1) && CurrentPasses(sh, res, 2);
      assert CurrentPasses(sh, res, 3) && (!purpose.ForClear? ==> CurrentPasses(sh, res, 4));
    }
  }

  /** Whatever the last check answers, the thread is idle again and has stored nothing. */
  lemma FinishAlone(sh: Shared, th: Thread) returns (n: nat)
    requires th.pc == Owning(CurrentCheck(0, Finish))
    ensures Alone(sh, th, n) == (sh, th.(pc := Idle))
  {
    hide Alone, Act, Asked;
    n := ChecksAlone(sh, th, 0, Finish);
  }

  // -------------------------------------------------------- EndMotionAdmission

  /** Released: RESERVED is clear, and everything that waited for it is in the image. */
  ghost predicate Released(was: Shared, now: Shared) {
    && now.intent.reserved == false && now.intent.active == was.intent.active && !now.writer
    && now.deferred == NO_DEFERRED && now.hist.pending == {}
    && now.hist.image == was.hist.image + was.hist.pending && now.hist.cleared == was.hist.cleared
    && now.hasAlarm == (was.hasAlarm || was.deferred != NO_DEFERRED)
    && now.hist.published == was.hist.published + Pending(was)
    && now.hist.updates == was.hist.updates + Units(was.deferred)
    && now.updateCount == now.hist.updates % TWO32
    && now.hist.made == was.hist.made
  }

  /** Either way of releasing clears RESERVED and nothing else in the word. */
  lemma ReleaseAlone(sh: Shared, th: Thread, current: bool) returns (n: nat, result: bool)
    requires th.pc == Owning(EndCas(current)) && th.res.base == th.res.reserved.(reserved := false)
    ensures Alone(sh, th, n) ==
            (sh.(intent := sh.intent.(reserved := false)),
             th.(pc := Open(PromoteCheck(2, ThenEnd(result))), res := th.res.(acquired := false)))
    ensures result == (current && sh.intent == th.res.reserved)
  {
    hide Alone;
    if sh.intent == th.res.reserved {
      OneStep(sh, th);
      n, result := 1, current;
    } else {
      One(sh, th, 2);
      var r := Act(sh, th, GO);
      OneStep(r.0, r.1);
      n, result := 2, false;
    }
  }

  function Unreserved(sh: Shared): Shared { sh.(intent := sh.intent.(reserved := false)) }

  function AfterEnd(sh: Shared, k: Next): Shared {
    if sh.deferred == NO_DEFERRED then Unreserved(sh)
    else if sh.writer then Windowed(Windowed(Unreserved(sh)))
    else AfterPromote(Unreserved(sh), k)
  }

  lemma EndAlone(sh: Shared, th: Thread) returns (n: nat, result: bool)
    requires th.pc == Owning(CurrentCheck(0, ForEnd)) && Sound(sh)
    requires th.res.base == th.res.reserved.(reserved := false)
    ensures Alone(sh, th, n).0 == AfterEnd(sh, ThenEnd(result)) && Alone(sh, th, n).1.pc.Idle?
    ensures Alone(sh, th, n).1.res == th.res.(acquired := false)
    ensures result == Allowed(sh, th.res, ForEnd)
  {
    hide Alone, Act, AfterPromote;
    AskedIsAllowed(sh, th.res, ForEnd);
    hide Asked;
    var m := ChecksAlone(sh, th, 0, ForEnd);
    var r1 := Alone(sh, th, m);
    var l;
    l, result := ReleaseAlone(r1.0, r1.1, Allowed(sh, th.res, ForEnd));
    AloneAdds(sh, th, m, l);
    var r2 := Alone(sh, th, m + l);
    var p := 2;
    if sh.deferred == NO_DEFERRED {
      NothingToPromote(r2.0, r2.1, ThenEnd(result));
    } else if sh.writer {
      p := BothFail(r2.0, r2.1, ThenEnd(result));
    } else {
      p := PromoteAlone(r2.0, r2.1, ThenEnd(result));
    }
    AloneAdds(sh, th, m + l, p);
    n := m + l + p;
  }

  /** Released while another thread holds the writer flag: what waited still waits. */
  ghost predicate ReleasedWaiting(was: Shared, now: Shared) {
    && now.intent.reserved == false && now.intent.active == was.intent.active && now.writer
    && SameImage(was, now) && now.deferred == was.deferred && now.hist.pending == was.hist.pending
    && now.hist.image == was.hist.image && now.hist.cleared == was.hist.cleared && now.hist.made == was.hist.made
  }

  lemma ReleasedWords(sh: Shared, k: Next)
    requires Sound(sh)
    ensures if sh.writer then ReleasedWaiting(sh, AfterEnd(sh, k)) else Released(sh, AfterEnd(sh, k))
  {
    hide Extend, OverflowAlarm, WithEntry;
    AddModulo(sh.hist.updates, Units(sh.deferred));
  }

  lemma HolderIsCurrent(init: State, events: seq<Event>, s: State, t: nat)
    requires Reaches(init, events, s, t) && s.threads[t].res.acquired
    ensures s.threads[t].res.base == s.threads[t].res.reserved.(reserved := false) && s.shared.intent.reserved
  {
    hide Run;
    ControlRun(init, events);
    ControlEntitles(s, t);
  }

  /**
   EndMotionAdmission alone: the reservation is given back whether or not it is still current, and unless another
   thread holds the writer flag every alarm that was held off during it is published.
   */
  lemma EndReleases(init: State, events: seq<Event>, s: State, t: nat, n: nat)
    requires Reaches(init, events, s, t) && s.threads[t].res.acquired
    requires Back(s, t, CallEnd, n)
    ensures var r := Run(s, Calling(t, CallEnd, n));
            && r.threads[t].res == s.threads[t].res.(acquired := false)
            && if s.shared.writer then ReleasedWaiting(s.shared, r.shared) else Released(s.shared, r.shared)
  {
    hide Run, Alone, Sound, AfterEnd, Released, ReleasedWaiting;
    ReachedIsSound(init, events, s, t);
    HolderIsCurrent(init, events, s, t);
    CallIsAlone(s, t, CallEnd, n);
    var started := Start(s.shared, s.threads[t], CallEnd);
    var m, result := EndAlone(started.0, started.1);
    OneReturn(started.0, started.1, m, n);
    ReleasedWords(s.shared, ThenEnd(result));
  }

  // --------------------------------------- clearing and triggering under a reservation

  /** The holder's reservation moved on with the words, and is still the current one. */
  ghost predicate StaysHolder(was: Reservation, sh: Shared, now: Reservation) {
    && now.acquired && sh.intent == now.reserved && now.base == now.reserved.(reserved := false)
    && sh.updateCount == now.expected && sh.deferred == NO_DEFERRED && !sh.writer
    && now.reserved.sequence == (was.reserved.sequence + 1) % TWO32
    && now.requireNoAlarm == was.requireNoAlarm
  }

  /** Everything in the image is cleared under the reservation, and the counter has taken one unit. */
  ghost predicate ClearedUnder(was: Shared, now: Shared) {
    && !now.hasAlarm && now.alarmCount == 0
    && |now.slots| == MAX_ALARMS && (forall i :: 0 <= i < MAX_ALARMS ==> now.slots[i] == EMPTY_SLOT)
    && now.hist.image == {} && now.hist.published == [] && now.hist.cleared == was.hist.cleared + was.hist.image
    && now.hist.updates == was.hist.updates + 1 && now.hist.made == was.hist.made
  }

  lemma UnderClears(sh: Shared, th: Thread) returns (n: nat)
    requires th.pc == Owning(UnderHas) && sh.hasAlarm && sh.intent == th.res.reserved && |sh.slots| == MAX_ALARMS
    ensures Alone(sh, th, n) ==
            (AfterDrop(AdvanceShared(sh)), th.(pc := Idle, res := Counted(AdvanceReservation(th.res))))
  {
    hide Alone, AdvanceReservation, Counted;
    One(sh, th, 2);
    var r1 := Act(sh, th, GO);
    OneStep(r1.0, r1.1);
    var r2 := Alone(sh, th, 2);
    hide Act, AfterDrop;
    var m := DropAlone(r2.0, r2.1, true);
    AloneAdds(sh, th, 2, m);
    var r3 := Alone(sh, th, 2 + m);
    var l := FinishAlone(r3.0, r3.1);
    AloneAdds(sh, th, 2 + m, l);
    n := 2 + m + l;
  }

  lemma SoundIsSized(sh: Shared)
    requires Sound(sh)
    ensures |sh.slots| == MAX_ALARMS
  {
  }

  lemma ClearUnderAlone(sh: Shared, th: Thread) returns (n: nat)
    requires th.pc == Owning(CurrentCheck(0, ForClear)) && |sh.slots| == MAX_ALARMS
    ensures Alone(sh, th, n) ==
            if Allowed(sh, th.res, ForClear) && sh.hasAlarm
            then (AfterDrop(AdvanceShared(sh)), th.(pc := Idle, res := Counted(AdvanceReservation(th.res))))
            else (sh, th.(pc := Idle))
  {
    hide Alone;
    AskedIsAllowed(sh, th.res, ForClear);
    hide Asked, AfterDrop;
    var m := ChecksAlone(sh, th, 0, ForClear);
    var r := Alone(sh, th, m);
    if !Allowed(sh, th.res, ForClear) {
      n := m;
    } else if sh.hasAlarm {
      var l := UnderClears(r.0, r.1);
      AloneAdds(sh, th, m, l);
      n := m + l;
    } else {
      OneStep(r.0, r.1);
      AloneAdds(sh, th, m, 1);
      n := m + 1;
    }
  }

  lemma ClearedUnderWords(sh: Shared, res: Reservation)
    requires Sound(sh) && Allowed(sh, res, ForClear) && res.base == res.reserved.(reserved := false) && res.acquired
    ensures ClearedUnder(sh, AfterDrop(AdvanceShared(sh)))
    ensures StaysHolder(res, AfterDrop(AdvanceShared(sh)), Counted(AdvanceReservation(res)))
  {
  }

  /**
   ClearUnderMotionAdmission alone clears the image exactly when the reservation is current, up to the alarm
   flag, and there is an alarm; the holder stays the holder.  Otherwise nothing changes.
   */
  lemma ClearUnderClears(init: State, events: seq<Event>, s: State, t: nat, n: nat)
    requires Reaches(init, events, s, t) && s.threads[t].res.acquired
    requires Back(s, t, CallClearUnder, n)
    ensures var r := Run(s, Calling(t, CallClearUnder, n));
            if Allowed(s.shared, s.threads[t].res, ForClear) && s.shared.hasAlarm
            then ClearedUnder(s.shared, r.shared) && StaysHolder(s.threads[t].res, r.shared, r.threads[t].res)
            else r == s
  {
    hide Run, Alone, AfterDrop, Sound, ClearedUnder, StaysHolder, Allowed;
    ReachedIsSound(init, events, s, t);
    HolderIsCurrent(init, events, s, t);
    SoundIsSized(s.shared);
    CallIsAlone(s, t, CallClearUnder, n);
    var started := Start(s.shared, s.threads[t], CallClearUnder);
    var m := ClearUnderAlone(started.0, started.1);
    OneReturn(started.0, started.1, m, n);
    if Allowed(s.shared, s.threads[t].res, ForClear) && s.shared.hasAlarm {
      ClearedUnderWords(s.shared, s.threads[t].res);
    }
  }

  /** The alarm is published under the reservation, and the counter has taken one unit. */
  ghost predicate ShownUnder(was: Shared, now: Shared, a: Alarm) {
    && now.hasAlarm && now.hist.made == was.hist.made + [a]
    && now.hist.image == was.hist.image + {|was.hist.made|} && now.hist.cleared == was.hist.cleared
    && now.hist.published == was.hist.published + [Entry(a, {|was.hist.made|}, true)]
    && Sized(was) && Sized(now) && now.alarmCount >= was.alarmCount
    && (forall i :: 0 <= i < was.alarmCount ==> now.slots[i] == was.slots[i])
    && (was.alarmCount < MAX_ALARMS ==> now.alarmCount > was.alarmCount && now.slots[was.alarmCount] == a)
    && now.hist.updates == was.hist.updates + 1
  }

  /** The holder's own job, and the words it starts its stores from. */
  function UnderJob(sh: Shared, a: Alarm): Job { Job(a, 1, {|sh.hist.made|}, true, true, 0, Return) }

  function UnderMade(sh: Shared, a: Alarm): Shared {
    var adv := AdvanceShared(sh);
    adv.(writer := true, hist := adv.hist.(made := adv.hist.made + [a]))
  }

  lemma UnderTakesWriter(sh: Shared, th: Thread, a: Alarm)
    requires th.pc == Owning(UnderWriter(a)) && sh.intent == th.res.reserved && !sh.writer
    ensures Alone(sh, th, 2) ==
            (UnderMade(sh, a),
             th.(pc := Publishing(UnderJob(sh, a), LoadCount), res := AdvanceReservation(th.res)))
  {
    hide Alone, AdvanceReservation, Advance;
    One(sh, th, 2);
    var r1 := Act(sh, th, GO);
    OneStep(r1.0, r1.1);
  }

  function AfterUnder(sh: Shared, a: Alarm): Shared {
    AfterPublish(UnderMade(sh, a), UnderJob(sh, a)).(writer := false)
  }

  lemma ReleasesWriter(sh: Shared, th: Thread)
    requires th.pc == OwningWriter(UnderRelease(true))
    ensures Alone(sh, th, 1) == (sh.(writer := false), th.(pc := Owning(CurrentCheck(0, Finish))))
  {
    hide Alone;
    OneStep(sh, th);
  }

  lemma UnderPublishes(sh: Shared, th: Thread, a: Alarm) returns (n: nat)
    requires th.pc == Owning(UnderWriter(a)) && sh.intent == th.res.reserved && !sh.writer && Sized(sh)
    ensures Alone(sh, th, n) ==
            (AfterUnder(sh, a), th.(pc := Idle, res := Counted(AdvanceReservation(th.res))))
  {
    hide Alone, Act, AfterPublish, AdvanceReservation, Counted;
    UnderTakesWriter(sh, th, a);
    var r1 := Alone(sh, th, 2);
    var m := PublishAlone(r1.0, r1.1, UnderJob(sh, a));
    AloneAdds(sh, th, 2, m);
    var r2 := Alone(sh, th, 2 + m);
    ReleasesWriter(r2.0, r2.1);
    AloneAdds(sh, th, 2 + m, 1);
    var r3 := Alone(sh, th, 3 + m);
    var l := FinishAlone(r3.0, r3.1);
    AloneAdds(sh, th, 3 + m, l);
    n := 3 + m + l;
  }

  lemma TriggerUnderAlone(sh: Shared, th: Thread, a: Alarm) returns (n: nat)
    requires th.pc == Owning(CurrentCheck(0, ForTrigger(a))) && Sized(sh)
    ensures Alone(sh, th, n) ==
            if Allowed(sh, th.res, ForTrigger(a))
            then (AfterUnder(sh, a), th.(pc := Idle, res := Counted(AdvanceReservation(th.res))))
            else (sh, th.(pc := Idle))
  {
    hide Alone, Act, AfterUnder;
    AskedIsAllowed(sh, th.res, ForTrigger(a));
    hide Asked;
    var m := ChecksAlone(sh, th, 0, ForTrigger(a));
    var r := Alone(sh, th, m);
    if Allowed(sh, th.res, ForTrigger(a)) {
      var l := UnderPublishes(r.0, r.1, a);
      AloneAdds(sh, th, m, l);
      n := m + l;
    } else {
      n := m;
    }
  }

  lemma ShownUnderWords(sh: Shared, res: Reservation, a: Alarm)
    requires Sound(sh) && Allowed(sh, res, ForTrigger(a))
    requires res.base == res.reserved.(reserved := false) && res.acquired
    ensures ShownUnder(sh, AfterUnder(sh, a), a)
    ensures StaysHolder(res, AfterUnder(sh, a), Counted(AdvanceReservation(res)))
  {
  }

  /**
   TriggerUnderMotionAdmission alone publishes its alarm exactly when the reservation is current and was made
   without requireNoAlarm; the holder stays the holder.  Otherwise nothing changes.
   */
  lemma TriggerUnderShows(init: State, events: seq<Event>, s: State, t: nat, a: Alarm, n: nat)
    requires Reaches(init, events, s, t) && s.threads[t].res.acquired
    requires Back(s, t, CallTriggerUnder(a), n)
    ensures var r := Run(s, Calling(t, CallTriggerUnder(a), n));
            if !s.threads[t].res.requireNoAlarm && Allowed(s.shared, s.threads[t].res, ForTrigger(a))
            then ShownUnder(s.shared, r.shared, a) && StaysHolder(s.threads[t].res, r.shared, r.threads[t].res)
            else r == s
  {
    hide Run, Alone, AfterUnder, ShownUnder, StaysHolder;
    ReachedIsSound(init, events, s, t);
    HolderIsCurrent(init, events, s, t);
    CallIsAlone(s, t, CallTriggerUnder(a), n);
    var started := Start(s.shared, s.threads[t], CallTriggerUnder(a));
    if s.threads[t].res.requireNoAlarm {
      IdleStays(started.0, started.1, n);
    } else {
      var m := TriggerUnderAlone(started.0, started.1, a);
      OneReturn(started.0, started.1, m, n);
      if Allowed(s.shared, s.threads[t].res, ForTrigger(a)) {
        ShownUnderWords(s.shared, s.threads[t].res, a);
      }
    }
  }
}
