/**
 What one call does when its thread runs alone: from any reachable state a thread that is idle makes a call
 and takes all its steps until it is idle again.  Every other thread may stand anywhere in its own call; the
 conditions are those the call itself reads.
 */
module AlarmSolo {
  import opened Numbers
  import opened AlarmWords
  import opened AlarmMachine
  import opened AlarmControl
  import opened AlarmImage
  import opened AlarmLedger
  import opened Optional
  import opened Summation

  const GO := Proceed(false)

  // ------------------------------------------------------ runs of one thread

  /** Events of one thread in a row. */
  function Steps(t: nat, n: nat): seq<Event> { if n == 0 then [] else Steps(t, n - 1) + [Event(t, GO)] }

  /** The thread makes a call and takes n steps. */
  function Calling(t: nat, c: Choice, n: nat): seq<Event> { [Event(t, c)] + Steps(t, n) }

  /** n steps of one thread, on the shared words and that thread only. */
  function Alone(sh: Shared, th: Thread, n: nat): (Shared, Thread)
    decreases n
  {
    if n == 0 then (sh, th)
    else
      var r := Act(sh, th, GO);
      Alone(r.0, r.1, n - 1)
  }

  lemma One(sh: Shared, th: Thread, n: nat)
    requires n > 0
    ensures Alone(sh, th, n) == Alone(Act(sh, th, GO).0, Act(sh, th, GO).1, n - 1)
  {
  }

  lemma {:induction false} AloneAdds(sh: Shared, th: Thread, m: nat, n: nat)
    ensures Alone(sh, th, m + n) == Alone(Alone(sh, th, m).0, Alone(sh, th, m).1, n)
    decreases m
  {
    hide Act;
    if m > 0 {
      var r := Act(sh, th, GO);
      AloneAdds(r.0, r.1, m - 1, n);
      One(sh, th, m + n);
      One(sh, th, m);
    }
  }

  lemma {:induction false} IdleStays(sh: Shared, th: Thread, n: nat)
    requires th.pc.Idle?
    ensures Alone(sh, th, n) == (sh, th)
  {
    if n > 0 {
      assert Act(sh, th, GO) == (sh, th);
      IdleStays(sh, th, n - 1);
    }
  }

  /** A thread that runs alone is idle again in one way only. */
  lemma OneReturn(sh: Shared, th: Thread, m: nat, n: nat)
    requires Alone(sh, th, m).1.pc.Idle? && Alone(sh, th, n).1.pc.Idle?
    ensures Alone(sh, th, m) == Alone(sh, th, n)
  {
    hide Alone;
    if m <= n {
      AloneAdds(sh, th, m, n - m);
      IdleStays(Alone(sh, th, m).0, Alone(sh, th, m).1, n - m);
    } else {
      AloneAdds(sh, th, n, m - n);
      IdleStays(Alone(sh, th, n).0, Alone(sh, th, n).1, m - n);
    }
  }

  lemma AloneLast(sh: Shared, th: Thread, n: nat)
    requires n > 0
    ensures Alone(sh, th, n) == Act(Alone(sh, th, n - 1).0, Alone(sh, th, n - 1).1, GO)
  {
    hide Act, Alone;
    AloneAdds(sh, th, n - 1, 1);
    var r := Alone(sh, th, n - 1);
    OneStep(r.0, r.1);
  }

  lemma NoStep(sh: Shared, th: Thread)
    ensures Alone(sh, th, 0) == (sh, th)
  {
  }

  lemma OneStep(sh: Shared, th: Thread)
    ensures Alone(sh, th, 1) == Act(sh, th, GO)
  {
    hide Act;
  }

  lemma {:induction false} StepsAreAlone(s: State, t: nat, n: nat)
    requires t < |s.threads|
    ensures var r := Alone(s.shared, s.threads[t], n);
            Run(s, Steps(t, n)) == State(r.0, s.threads[t := r.1])
    decreases n
  {
    hide Act, Alone;
    if n == 0 {
      NoStep(s.shared, s.threads[t]);
      assert s.threads[t := s.threads[t]] == s.threads;
    } else {
      StepsAreAlone(s, t, n - 1);
      AloneLast(s.shared, s.threads[t], n);
      var r := Alone(s.shared, s.threads[t], n - 1);
      var l := Alone(s.shared, s.threads[t], n);
      assert Steps(t, n)[..|Steps(t, n)| - 1] == Steps(t, n - 1);
      assert s.threads[t := r.1][t := l.1] == s.threads[t := l.1];
    }
  }

  // ------------------------------------------------------ the image stores

  /** The fetch_add and the fetch_sub of one window. */
  function Windowed(sh: Shared): Shared {
    sh.(intent := sh.intent.(sequence := (sh.intent.sequence + 1) % TWO32),
        hist := sh.hist.(intents := sh.hist.intents + 1))
  }

  function WithEntry(slots: seq<Alarm>, count: int, a: Alarm): seq<Alarm> {
    if 0 <= count < |slots| then slots[count := a] else slots
  }

  /** One whole publication. */
  function AfterPublish(sh: Shared, job: Job): Shared {
    var h := sh.hist;
    sh.(slots := WithEntry(sh.slots, sh.alarmCount, job.alarm),
        alarmCount := if sh.alarmCount < MAX_ALARMS then sh.alarmCount + 1 else sh.alarmCount,
        hasAlarm := true,
        updateCount := (sh.updateCount + job.delta) % TWO32,
        hist := h.(published := h.published + [EntryOf(job)], image := h.image + job.ids,
                   updates := h.updates + job.delta, recorded := h.recorded + (if job.direct then 1 else 0)))
  }

  /** All the clearing stores. */
  function AfterDrop(sh: Shared): Shared {
    var h := sh.hist;
    sh.(slots := seq(MAX_ALARMS, _ => EMPTY_SLOT), alarmCount := 0, hasAlarm := false,
        updateCount := (sh.updateCount + 1) % TWO32,
        hist := h.(cleared := h.cleared + h.image, image := {}, published := [],
                   updates := h.updates + 1, clears := h.clears + 1))
  }

  predicate Sized(sh: Shared) { |sh.slots| == MAX_ALARMS && 0 <= sh.alarmCount <= MAX_ALARMS }

  lemma ThreePuts(slots: seq<Alarm>, i: nat, a: Alarm)
    requires i < |slots|
    ensures PutSlot(PutSlot(PutSlot(slots, i, a, Code), i, a, Line), i, a, Axis) == slots[i := a]
  {
  }

  /** The stores that fill one slot. */
  lemma SlotAlone(sh: Shared, th: Thread, job: Job, i: nat)
    requires th.pc == Publishing(job, PutCode(i)) && i < |sh.slots|
    ensures Alone(sh, th, 3) == (sh.(slots := sh.slots[i := job.alarm]), th.(pc := Publishing(job, PutCount(i))))
  {
    ThreePuts(sh.slots, i, job.alarm);
    hide PutSlot, Alone;
    One(sh, th, 3);
    var r1 := Act(sh, th, GO);
    One(r1.0, r1.1, 2);
    var r2 := Act(r1.0, r1.1, GO);
    OneStep(r2.0, r2.1);
  }

  lemma PublishAlone(sh: Shared, th: Thread, job: Job) returns (n: nat)
    requires th.pc == Publishing(job, LoadCount) && Sized(sh)
    ensures Alone(sh, th, n) ==
            (AfterPublish(sh, job),
             if job.under then th.(pc := OwningWriter(UnderRelease(true)), res := Counted(th.res))
             else th.(pc := Writing(WriterRelease(job.n, job.k))))
  {
    hide Alone;
    One(sh, th, 7);
    One(sh, th, 3);
    var r1 := Act(sh, th, GO);
    if sh.alarmCount < MAX_ALARMS {
      AloneAdds(r1.0, r1.1, 3, 3);
      SlotAlone(r1.0, r1.1, job, sh.alarmCount);
      var r4 := Alone(r1.0, r1.1, 3);
      One(r4.0, r4.1, 3);
      var r5 := Act(r4.0, r4.1, GO);
      CountedAlone(r5.0, r5.1, job);
      n := 7;
    } else {
      CountedAlone(r1.0, r1.1, job);
      n := 3;
    }
  }

  /** The stores of the flag and of the update counter. */
  lemma CountedAlone(sh: Shared, th: Thread, job: Job)
    requires th.pc == Publishing(job, PutHas)
    ensures Alone(sh, th, 2) ==
            (sh.(hasAlarm := true, updateCount := (sh.updateCount + job.delta) % TWO32,
                 hist := sh.hist.(image := sh.hist.image + job.ids, updates := sh.hist.updates + job.delta,
                                  recorded := sh.hist.recorded + (if job.direct then 1 else 0))),
             if job.under then th.(pc := OwningWriter(UnderRelease(true)), res := Counted(th.res))
             else th.(pc := Writing(WriterRelease(job.n, job.k))))
  {
    hide Alone;
    One(sh, th, 2);
    var r1 := Act(sh, th, GO);
    OneStep(r1.0, r1.1);
  }

  lemma OneSlotDrops(sh: Shared, th: Thread, under: bool, i: nat)
    requires th.pc == Dropping(under, DropSlot(i, Code)) && i < |sh.slots|
    ensures Alone(sh, th, 3) ==
            (sh.(slots := sh.slots[i := EMPTY_SLOT]), th.(pc := Dropping(under, NextDrop(i, Axis))))
  {
    ThreePuts(sh.slots, i, EMPTY_SLOT);
    hide PutSlot, Alone;
    One(sh, th, 3);
    var r1 := Act(sh, th, GO);
    One(r1.0, r1.1, 2);
    var r2 := Act(r1.0, r1.1, GO);
    OneStep(r2.0, r2.1);
  }

  lemma {:induction false} SlotsDrop(sh: Shared, th: Thread, under: bool, i: nat) returns (n: nat)
    requires th.pc == Dropping(under, DropSlot(i, Code)) && i < |sh.slots| == MAX_ALARMS
    requires forall j :: 0 <= j < i ==> sh.slots[j] == EMPTY_SLOT
    ensures Alone(sh, th, n) ==
            (sh.(slots := seq(MAX_ALARMS, _ => EMPTY_SLOT)), th.(pc := Dropping(under, DropUpdate)))
    decreases MAX_ALARMS - i
  {
    hide Alone;
    OneSlotDrops(sh, th, under, i);
    var r := Alone(sh, th, 3);
    if i + 1 < MAX_ALARMS {
      var m := SlotsDrop(r.0, r.1, under, i + 1);
      AloneAdds(sh, th, 3, m);
      n := 3 + m;
    } else {
      assert r.0.slots == seq(MAX_ALARMS, _ => EMPTY_SLOT);
      n := 3;
    }
  }

  lemma DropAlone(sh: Shared, th: Thread, under: bool) returns (n: nat)
    requires th.pc == Dropping(under, DropHas) && |sh.slots| == MAX_ALARMS
    ensures Alone(sh, th, n) ==
            (AfterDrop(sh),
             if under then th.(pc := Owning(CurrentCheck(0, Finish)), res := Counted(th.res))
             else th.(pc := Writing(WriterRelease(2, Return))))
  {
    hide Alone;
    var r1 := Act(sh, th, GO);
    var r2 := Act(r1.0, r1.1, GO);
    var m := SlotsDrop(r2.0, r2.1, under, 0);
    var r3 := Alone(r2.0, r2.1, m);
    OneStep(r3.0, r3.1);
    AloneAdds(r2.0, r2.1, m, 1);
    One(r1.0, r1.1, m + 2);
    One(sh, th, m + 3);
    n := m + 3;
  }

  // ------------------------------------------------------ promotion

  /** Both promotion attempts find nothing. */
  lemma NothingToPromote(sh: Shared, th: Thread, k: Next)
    requires th.pc == Open(PromoteCheck(2, k)) && sh.deferred == NO_DEFERRED
    ensures Alone(sh, th, 2) == (sh, th.(pc := Dispatch(k)))
  {
    hide Alone;
    One(sh, th, 2);
    var r1 := Act(sh, th, GO);
    OneStep(r1.0, r1.1);
  }

  /** The writer flag is given back and the window closed. */
  lemma LeavesAlone(sh: Shared, th: Thread, n: nat, k: Next)
    requires th.pc == Writing(WriterRelease(n, k))
    ensures Alone(sh, th, 2) ==
            (sh.(writer := false, intent := Leave(sh.intent)), th.(pc := Promote(n, k)))
  {
    hide Alone, Promote;
    One(sh, th, 2);
    var r1 := Act(sh, th, GO);
    OneStep(r1.0, r1.1);
  }

  /** A window opened with RESERVED and the writer flag clear: two steps later the thread holds the flag. */
  function Entered(sh: Shared): Shared {
    sh.(intent := Begin(sh.intent), writer := true, hist := sh.hist.(intents := sh.hist.intents + 1))
  }

  lemma ClosesWindow(sh: Shared, sh': Shared)
    requires !sh.writer && sh'.intent == Begin(sh.intent)
    ensures sh'.(writer := false, intent := Leave(sh'.intent)) ==
            sh'.(writer := sh.writer, intent := Windowed(sh).intent)
  {
  }

  /** What the promoter publishes for the word it has taken. */
  function PromotedJob(sh: Shared, n: nat, k: Next): Job {
    Job(if sh.deferred.count == 0 then OverflowAlarm(sh.overflowPayload) else Extend(sh.deferred.payload),
        Units(sh.deferred), sh.hist.pending, false, false, n, k)
  }

  function AfterPromote(sh: Shared, k: Next): Shared {
    AfterPublish(Windowed(sh).(deferred := NO_DEFERRED, hist := Windowed(sh).hist.(pending := {})),
                 PromotedJob(sh, 1, k))
  }

  lemma ExchangeAlone(sh: Shared, th: Thread, n: nat, k: Next) returns (m: nat)
    requires th.pc == Writing(PromoteExchange(n, k)) && sh.deferred != NO_DEFERRED
    requires sh.deferred.count == 0 ==> sh.deferred.payload == NO_PAYLOAD
    ensures Alone(sh, th, m) ==
            (sh.(deferred := NO_DEFERRED, hist := sh.hist.(pending := {})),
             th.(pc := Publishing(PromotedJob(sh, Less(n), k), LoadCount)))
  {
    hide Alone, OverflowAlarm, Extend, Less;
    OneStep(sh, th);
    if sh.deferred.count == 0 {
      One(sh, th, 2);
      var r1 := Act(sh, th, GO);
      OneStep(r1.0, r1.1);
      m := 2;
    } else {
      m := 1;
    }
  }

  lemma TakesWriter(sh: Shared, th: Thread, k: Next)
    requires th.pc == Open(PromoteCheck(2, k)) && sh.deferred != NO_DEFERRED
    requires !sh.writer && !sh.intent.reserved
    ensures Alone(sh, th, 3) == (Entered(sh), th.(pc := Writing(PromoteExchange(2, k)), saw := false))
  {
    hide Alone;
    One(sh, th, 3);
    var r1 := Act(sh, th, GO);
    One(r1.0, r1.1, 2);
    var r2 := Act(r1.0, r1.1, GO);
    OneStep(r2.0, r2.1);
  }

  lemma PromotedShared(sh: Shared, k: Next)
    requires !sh.writer
    ensures var e := Entered(sh);
            var p := AfterPublish(e.(deferred := NO_DEFERRED, hist := e.hist.(pending := {})), PromotedJob(e, 1, k));
            p.(writer := false, intent := Leave(p.intent)) == AfterPromote(sh, k)
    ensures AfterPromote(sh, k).deferred == NO_DEFERRED
  {
    hide WithEntry, OverflowAlarm, Extend;
  }

  /** A pending word is published by the first attempt; the second finds nothing. */
  lemma PromoteAlone(sh: Shared, th: Thread, k: Next) returns (n: nat)
    requires th.pc == Open(PromoteCheck(2, k)) && sh.deferred != NO_DEFERRED && Sized(sh)
    requires sh.deferred.count == 0 ==> sh.deferred.payload == NO_PAYLOAD
    requires !sh.writer && !sh.intent.reserved
    ensures Alone(sh, th, n) == (AfterPromote(sh, k), th.(pc := Dispatch(k), saw := false))
  {
    hide Alone, Act, AfterPublish;
    TakesWriter(sh, th, k);
    var r1 := Alone(sh, th, 3);
    assert PromotedJob(r1.0, 1, k).n == 1 && PromotedJob(r1.0, 1, k).k == k && !PromotedJob(r1.0, 1, k).under;
    hide PromotedJob;
    var n2 := ExchangeAlone(r1.0, r1.1, 2, k);
    AloneAdds(sh, th, 3, n2);
    var r2 := Alone(sh, th, 3 + n2);
    var job := PromotedJob(r1.0, 1, k);
    var n3 := PublishAlone(r2.0, r2.1, job);
    AloneAdds(sh, th, 3 + n2, n3);
    var r3 := Alone(sh, th, 3 + n2 + n3);
    LeavesAlone(r3.0, r3.1, 1, k);
    AloneAdds(sh, th, 3 + n2 + n3, 2);
    PromotedShared(sh, k);
    var r4 := Alone(sh, th, 5 + n2 + n3);
    assert r4.0 == AfterPromote(sh, k);
    SecondAttempt(r4.0, r4.1, k);
    AloneAdds(sh, th, 5 + n2 + n3, 1);
    n := 6 + n2 + n3;
  }

  lemma SecondAttempt(sh: Shared, th: Thread, k: Next)
    requires th.pc == Promote(1, k) && sh.deferred == NO_DEFERRED
    ensures Alone(sh, th, 1) == (sh, th.(pc := Dispatch(k)))
  {
    hide Alone;
    OneStep(sh, th);
  }

  // ---------------------------------------------------------------- Clear

  /** The state a call starts from: reachable, and this thread is idle. */
  ghost predicate Reaches(init: State, events: seq<Event>, s: State, t: nat) {
    Initial(init) && s == Run(init, events) && t < |s.threads| && s.threads[t].pc.Idle?
  }

  /** What reachability gives the runs of one thread. */
  ghost predicate Sound(sh: Shared) {
    && Sized(sh)
    && (sh.deferred.count == 0 ==> sh.deferred.payload == NO_PAYLOAD)
    && (sh.hist.pending == {} <==> sh.deferred == NO_DEFERRED)
    && (sh.hist.image == {} <==> !sh.hasAlarm)
    && sh.updateCount == sh.hist.updates % TWO32
  }

  lemma ReachedIsSound(init: State, events: seq<Event>, s: State, t: nat)
    requires Reaches(init, events, s, t)
    ensures Sound(s.shared)
  {
    hide Run;
    ImageRefinesLog(init, events);
    LedgerRun(init, events);
  }

  /** A whole call of a thread that runs alone. */
  lemma CallIsAlone(s: State, t: nat, c: Choice, n: nat)
    requires t < |s.threads| && s.threads[t].pc.Idle?
    ensures var started := Start(s.shared, s.threads[t], c);
            var r := Alone(started.0, started.1, n);
            Run(s, Calling(t, c, n)) == State(r.0, s.threads[t := r.1])
  {
    hide Run, Start, Alone;
    RunAppends(s, [Event(t, c)], Steps(t, n));
    var s1 := Run(s, [Event(t, c)]);
    assert s1 == Step(s, t, c) by { RunOne(s, t, c); }
    StepsAreAlone(s1, t, n);
    var r := Alone(s1.shared, s1.threads[t], n);
    assert s.threads[t := s1.threads[t]][t := r.1] == s.threads[t := r.1];
  }

  lemma RunOne(s: State, t: nat, c: Choice)
    requires t < |s.threads|
    ensures Run(s, [Event(t, c)]) == Step(s, t, c)
  {
    hide Step;
    assert [Event(t, c)][..0] == [];
    assert Run(s, []) == s;
  }

  /** The Clear of a thread alone has found its way to the clearing stores. */
  lemma ClearEnters(sh: Shared, th: Thread)
    requires th.pc == Open(ClearDeferred) && sh.deferred == NO_DEFERRED && sh.hasAlarm
    requires !sh.writer && !sh.intent.reserved
    ensures Alone(sh, th, 5) == (Entered(sh), th.(pc := Dropping(false, DropHas), saw := false))
  {
    hide Alone;
    One(sh, th, 5);
    var r1 := Act(sh, th, GO);
    One(r1.0, r1.1, 4);
    var r2 := Act(r1.0, r1.1, GO);
    One(r2.0, r2.1, 3);
    var r3 := Act(r2.0, r2.1, GO);
    One(r3.0, r3.1, 2);
    var r4 := Act(r3.0, r3.1, GO);
    OneStep(r4.0, r4.1);
  }

  lemma DroppedShared(sh: Shared)
    requires !sh.writer
    ensures var p := AfterDrop(Entered(sh));
            p.(writer := false, intent := Leave(p.intent)) == AfterDrop(Windowed(sh))
    ensures AfterDrop(Windowed(sh)).deferred == sh.deferred
  {
  }

  /** Without a pending word: the alarms are cleared. */
  lemma ClearsImage(sh: Shared, th: Thread) returns (n: nat)
    requires th.pc == Open(ClearDeferred) && sh.deferred == NO_DEFERRED && sh.hasAlarm && Sized(sh)
    requires !sh.writer && !sh.intent.reserved
    ensures Alone(sh, th, n) == (AfterDrop(Windowed(sh)), th.(pc := Idle, saw := false))
  {
    hide Alone, Act;
    ClearEnters(sh, th);
    var r1 := Alone(sh, th, 5);
    hide AfterDrop;
    var n2 := DropAlone(r1.0, r1.1, false);
    AloneAdds(sh, th, 5, n2);
    var r2 := Alone(sh, th, 5 + n2);
    LeavesAlone(r2.0, r2.1, 2, Return);
    AloneAdds(sh, th, 5 + n2, 2);
    DroppedShared(sh);
    var r3 := Alone(sh, th, 7 + n2);
    NothingToPromote(r3.0, r3.1, Return);
    AloneAdds(sh, th, 7 + n2, 2);
    n := 9 + n2;
  }

  lemma NothingToClear(sh: Shared, th: Thread)
    requires th.pc == Open(ClearDeferred) && sh.deferred == NO_DEFERRED && !sh.hasAlarm
    ensures Alone(sh, th, 2) == (sh, th.(pc := Idle))
  {
    hide Alone;
    One(sh, th, 2);
    var r1 := Act(sh, th, GO);
    OneStep(r1.0, r1.1);
  }

  /** The alarms the thread finds at its Clear, after its promotion. */
  function BeforeClear(sh: Shared): Shared {
    if sh.deferred == NO_DEFERRED then sh else AfterPromote(sh, ThenClear)
  }

  lemma ClearAlone(sh: Shared, th: Thread) returns (n: nat)
    requires th.pc == Open(PromoteCheck(2, ThenClear)) && Sound(sh)
    requires !sh.writer && !sh.intent.reserved
    ensures Alone(sh, th, n).1.pc.Idle?
    ensures Alone(sh, th, n).1.res == th.res
    ensures Alone(sh, th, n).0 ==
            if sh.hasAlarm || sh.deferred != NO_DEFERRED then AfterDrop(Windowed(BeforeClear(sh))) else sh
    ensures !sh.hasAlarm && sh.deferred == NO_DEFERRED ==> Alone(sh, th, n).1 == th.(pc := Idle)
  {
    hide Alone, AfterDrop;
    var m := 2;
    if sh.deferred == NO_DEFERRED {
      NothingToPromote(sh, th, ThenClear);
    } else {
      m := PromoteAlone(sh, th, ThenClear);
    }
    var r := Alone(sh, th, m);
    assert r.0 == BeforeClear(sh) && r.1.pc == Open(ClearDeferred);
    if r.0.hasAlarm {
      var l := ClearsImage(r.0, r.1);
      n := m + l;
      AloneAdds(sh, th, m, l);
    } else {
      NothingToClear(r.0, r.1);
      n := m + 2;
      AloneAdds(sh, th, m, 2);
    }
  }

  /**
   Every alarm the earlier words show, in the image or pending, is cleared; the image is that of a machine just
   started, and the update counter has taken the pending units and one unit for the clearing.
   */
  ghost predicate AllCleared(was: Shared, now: Shared) {
    && !now.hasAlarm && now.alarmCount == 0 && now.deferred == NO_DEFERRED
    && |now.slots| == MAX_ALARMS && (forall i :: 0 <= i < MAX_ALARMS ==> now.slots[i] == EMPTY_SLOT)
    && now.hist.image == {} && now.hist.pending == {} && now.hist.published == []
    && now.hist.cleared == was.hist.cleared + was.hist.image + was.hist.pending
    && now.hist.updates == was.hist.updates + Units(was.deferred) + 1
    && now.updateCount == now.hist.updates % TWO32
    && now.hist.made == was.hist.made
    && !now.writer && !now.intent.reserved && now.intent.active == was.intent.active
  }

  lemma ClearedWords(sh: Shared)
    requires Sound(sh) && !sh.writer && !sh.intent.reserved && (sh.hasAlarm || sh.deferred != NO_DEFERRED)
    ensures AllCleared(sh, AfterDrop(Windowed(BeforeClear(sh))))
  {
    if sh.deferred == NO_DEFERRED {
      AddModulo(sh.hist.updates, 1);
    } else {
      hide WithEntry, Extend, OverflowAlarm;
      AddModulo(sh.hist.updates, Units(sh.deferred));
      AddModulo(sh.hist.updates + Units(sh.deferred), 1);
    }
  }

  /** The thread has made its call, has taken n steps and is idle again. */
  ghost predicate Back(s: State, t: nat, c: Choice, n: nat) {
    var r := Run(s, Calling(t, c, n));
    t < |r.threads| && r.threads[t].pc.Idle?
  }

  /**
   Clear clears.  From any reachable state in which RESERVED and the writer flag are clear, a thread that calls
   Clear and runs alone until it is idle again leaves no alarm behind if HasAlarm() would have answered true,
   and changes nothing at all if it would have answered false.
   */
  lemma ClearClears(init: State, events: seq<Event>, s: State, t: nat, n: nat)
    requires Reaches(init, events, s, t) && !s.shared.intent.reserved && !s.shared.writer
    requires Back(s, t, CallClear, n)
    ensures var r := Run(s, Calling(t, CallClear, n));
            if HasAlarm(s.shared, s.shared)
            then AllCleared(s.shared, r.shared) && r.threads[t].res == s.threads[t].res
                 && r.threads == s.threads[t := r.threads[t]]
            else r == s
  {
    hide Run, AllCleared, AfterDrop, BeforeClear, Sound, Alone;
    ReachedIsSound(init, events, s, t);
    CallIsAlone(s, t, CallClear, n);
    var started := Start(s.shared, s.threads[t], CallClear);
    var m := ClearAlone(started.0, started.1);
    OneReturn(started.0, started.1, m, n);
    if HasAlarm(s.shared, s.shared) {
      ClearedWords(s.shared);
    }
  }

  /** With every thread idle the writer flag is clear, so only RESERVED can stop a Clear. */
  lemma IdleMeansFree(init: State, events: seq<Event>)
    requires Initial(init) && forall u :: 0 <= u < |Run(init, events).threads| ==> Run(init, events).threads[u].pc.Idle?
    ensures !Run(init, events).shared.writer && Run(init, events).shared.intent.active == 0
  {
    hide Run;
    ControlRun(init, events);
    SumZero(Run(init, events).threads, ActiveUnit);
    SumZero(Run(init, events).threads, WriterUnit);
  }

  // ------------------------------------------------- Clear among the others

  /** What ends a Clear without clearing, at the step that reads it. */
  predicate Obstacle(sh: Shared, pc: Pc) {
    match pc
    case Open(ClearDeferred) => sh.deferred != NO_DEFERRED
    case Open(ClearHas) => !sh.hasAlarm
    case Open(ClearEnter) => sh.intent.reserved
    case Contending(ClearWriter) => sh.writer
    case Writing(ClearRecheck) => sh.deferred != NO_DEFERRED
    case _ => false
  }

  /** The continuation of a thread inside a promotion. */
  function NextOf(pc: Pc): Option<Next> {
    match pc
    case Open(PromoteCheck(_, k)) => Some(k)
    case Open(PromoteEnter(_, k)) => Some(k)
    case Contending(PromoteWriter(_, k)) => Some(k)
    case Writing(PromoteExchange(_, k)) => Some(k)
    case Writing(PromoteOverflow(_, _, k)) => Some(k)
    case Writing(WriterRelease(_, k)) => Some(k)
    case Publishing(job, _) => if job.under then None else Some(job.k)
    case Deferring(LeaveIntent(_, k)) => Some(k)
    case _ => None
  }

  predicate Undecided(pc: Pc) {
    || NextOf(pc) == Some(ThenClear)
    || pc in {Open(ClearDeferred), Open(ClearHas), Open(ClearEnter), Contending(ClearWriter), Writing(ClearRecheck),
              Dropping(false, DropHas)}
  }

  predicate Decided(pc: Pc) {
    || pc.Idle? || NextOf(pc) == Some(Return)
    || (pc.Dropping? && !pc.under && !pc.drop.DropHas?)
  }

  /** The whole image leaves for the cleared calls, and the flag falls. */
  predicate Erases(sh: Shared, sh': Shared) {
    !sh'.hasAlarm && sh'.hist.image == {} && sh'.hist.cleared == sh.hist.cleared + sh.hist.image
  }

  /** Before the decision: an obstacle or the flag store decides, any other step leaves the Clear undecided. */
  lemma UndecidedStep(sh: Shared, th: Thread, c: Choice)
    requires Undecided(th.pc)
    ensures var r := Act(sh, th, c);
            if Obstacle(sh, th.pc) then Decided(r.1.pc) && r.0.hist.cleared == sh.hist.cleared
            else if th.pc == Dropping(false, DropHas) then Decided(r.1.pc) && Erases(sh, r.0)
            else Undecided(r.1.pc)
  {
    if th.pc.Open? {
      UndecidedProbe(sh, th);
    }
  }

  lemma UndecidedProbe(sh: Shared, th: Thread)
    requires Undecided(th.pc) && th.pc.Open?
    ensures var r := ActOpen(sh, th, th.pc.open);
            if Obstacle(sh, th.pc) then Decided(r.1.pc) && r.0.hist.cleared == sh.hist.cleared else Undecided(r.1.pc)
  {
  }

  /** After it nothing more is decided. */
  lemma DecidedStep(sh: Shared, th: Thread, c: Choice)
    requires Decided(th.pc) && !th.pc.Idle?
    ensures Decided(Act(sh, th, c).1.pc) && !Obstacle(sh, th.pc) && th.pc != Dropping(false, DropHas)
  {
  }

  /** The k-th event is a step of t at which its Clear meets an obstacle, or empties the image. */
  ghost predicate DecidesAt(s: State, t: nat, during: seq<Event>, k: nat) {
    && k < |during| && during[k].t == t
    && var r := Run(s, during[..k]);
       && t < |r.threads|
       && (Obstacle(r.shared, r.threads[t].pc)
           || (r.threads[t].pc == Dropping(false, DropHas) && Erases(r.shared, Step(r, t, during[k].c).shared)))
  }

  ghost predicate Busy(s: State, t: nat, during: seq<Event>) {
    forall k :: 0 <= k < |during| ==>
      var r := Run(s, during[..k]); t < |r.threads| && !r.threads[t].pc.Idle?
  }

  lemma {:induction false} OneDecision(s: State, t: nat, during: seq<Event>) returns (k: nat)
    requires t < |s.threads| && Undecided(s.threads[t].pc) && Busy(s, t, during)
    ensures t < |Run(s, during).threads|
    ensures var pc := Run(s, during).threads[t].pc;
            || (Undecided(pc) && forall j :: !DecidesAt(s, t, during, j))
            || (Decided(pc) && DecidesAt(s, t, during, k) && forall j :: DecidesAt(s, t, during, j) ==> j == k)
    decreases |during|
  {
    hide Act, Obstacle, Erases, Undecided, Decided;
    if during != [] {
      var n := |during| - 1;
      var less := during[..n];
      assert forall j :: 0 <= j <= n ==> less[..j] == during[..j];
      k := OneDecision(s, t, less);
      assert forall j :: 0 <= j < n ==> (DecidesAt(s, t, during, j) <==> DecidesAt(s, t, less, j));
      var r := Run(s, less);
      var e := during[n];
      assert during[..n] == less;
      if e.t == t {
        var th := r.threads[t];
        assert !th.pc.Idle?;
        DecisionStep(r, t, e.c);
        if !DecidesAt(s, t, less, k) {
          k := n;
        }
      } else {
        assert !DecidesAt(s, t, during, n);
      }
    } else {
      k := 0;
    }
  }

  lemma DecisionStep(r: State, t: nat, c: Choice)
    requires t < |r.threads| && !r.threads[t].pc.Idle?
    ensures var th, s' := r.threads[t], Step(r, t, c);
            && (Decided(th.pc) ==>
                  Decided(s'.threads[t].pc) && !Obstacle(r.shared, th.pc) && th.pc != Dropping(false, DropHas))
            && (Undecided(th.pc) ==>
                  if Obstacle(r.shared, th.pc) then Decided(s'.threads[t].pc)
                  else if th.pc == Dropping(false, DropHas) then
                    Decided(s'.threads[t].pc) && Erases(r.shared, s'.shared)
                  else Undecided(s'.threads[t].pc))
  {
    hide Act, Obstacle, Erases, Undecided, Decided;
    if Undecided(r.threads[t].pc) {
      UndecidedStep(r.shared, r.threads[t], c);
    }
    if Decided(r.threads[t].pc) {
      DecidedStep(r.shared, r.threads[t], c);
    }
  }

  /**
   Among any steps of the others, a Clear that has returned was decided at exactly one of its own steps: it
   emptied the image there, or it found a pending word, no alarm, RESERVED, or a busy writer flag.
   */
  lemma ClearDecidesOnce(s: State, t: nat, during: seq<Event>) returns (k: nat)
    requires t < |s.threads| && s.threads[t].pc.Idle?
    requires Busy(Step(s, t, CallClear), t, during)
    requires var r := Run(Step(s, t, CallClear), during); t < |r.threads| && r.threads[t].pc.Idle?
    ensures DecidesAt(Step(s, t, CallClear), t, during, k)
    ensures forall j :: DecidesAt(Step(s, t, CallClear), t, during, j) ==> j == k
  {
    hide Run, Busy, DecidesAt;
    k := OneDecision(Step(s, t, CallClear), t, during);
  }
}
