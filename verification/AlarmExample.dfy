/**
 One interleaving in which HasAlarm() answers false although a Trigger has returned and its alarm was never
 cleared: the alarm moves out of the deferred word between the two loads.
 */
module AlarmExample {
  import opened Numbers
  import opened AlarmWords
  import opened AlarmMachine
  import opened AlarmControl
  import opened AlarmLedger
  import opened AlarmSolo

  const IDLE := Thread(Idle, NO_RESERVATION, false)

  function Start2(): State {
    State(Shared(Intent(0, false, 0), false, NO_DEFERRED, NO_PAYLOAD, false, 0, 0, seq(MAX_ALARMS, _ => EMPTY_SLOT),
                 History(0, 0, 0, 0, 0, 0, [], {}, {}, {}, EMPTY_SLOT, [])),
          [IDLE, IDLE])
  }

  function Walk(s: State, t: nat, n: nat): State
    requires t < |s.threads|
    ensures |Walk(s, t, n).threads| == |s.threads|
  {
    if n == 0 then s else Step(Walk(s, t, n - 1), t, GO)
  }

  lemma {:induction false} WalkRuns(s: State, t: nat, n: nat)
    requires t < |s.threads|
    ensures Run(s, Steps(t, n)) == Walk(s, t, n)
  {
    hide Step;
    if n > 0 {
      WalkRuns(s, t, n - 1);
      assert Steps(t, n)[..|Steps(t, n)| - 1] == Steps(t, n - 1);
    }
  }

  predicate Quiet(s: State, first: Pc, second: Pc) {
    && |s.threads| == 2 && |s.shared.slots| == MAX_ALARMS && s.threads[0].pc == first && s.threads[1].pc == second
    && !s.shared.intent.reserved && !s.shared.hasAlarm && s.shared.alarmCount == 0 && s.shared.hist.cleared == {}
  }

  function FirstJob(a: Alarm): Job { Job(a, 1, {0}, true, false, 2, Return) }

  /** The first Trigger has taken the writer flag and is about to publish. */
  lemma FirstTakesWriter(a: Alarm)
    ensures var s := Walk(Step(Start2(), 0, CallTrigger(a)), 0, 2);
            Quiet(s, Publishing(FirstJob(a), LoadCount), Idle) && s.shared.writer && s.shared.deferred == NO_DEFERRED
            && s.shared.hist.made == [a]
  {
    var s1 := Step(Start2(), 0, CallTrigger(a));
    assert s1.threads[0].pc == Open(TriggerEnter(Ticket(0, a)));
    var s2 := Step(s1, 0, GO);
    assert s2.threads[0].pc == Contending(TriggerWriter(Ticket(0, a)));
    assert Walk(s1, 0, 1) == s2;
    assert Walk(s1, 0, 2) == Step(s2, 0, GO);
  }

  /** The second Trigger finds the writer busy, defers its alarm, fails to promote it twice, and returns. */
  lemma SecondDefers(s: State, a: Alarm, b: Alarm)
    requires Quiet(s, Publishing(FirstJob(a), LoadCount), Idle) && s.shared.writer && s.shared.deferred == NO_DEFERRED
    requires s.shared.hist.made == [a]
    ensures var r := Walk(Step(s, 1, CallTrigger(b)), 1, 4);
            Quiet(r, Publishing(FirstJob(a), LoadCount), Deferring(LeaveIntent(2, Return))) && r.shared.writer
            && r.shared.deferred.count == 1 && 1 in r.shared.hist.pending && r.shared.hist.made == [a, b]
  {
    var s1 := Step(s, 1, CallTrigger(b));
    assert s1.threads[1].pc == Open(TriggerEnter(Ticket(1, b)));
    var s2 := Step(s1, 1, GO);
    assert s2.threads[1].pc == Contending(TriggerWriter(Ticket(1, b)));
    var s3 := Step(s2, 1, GO);
    assert s3.threads[1].pc == Deferring(DeferLoad(Ticket(1, b)));
    var s4 := Step(s3, 1, GO);
    assert s4.threads[1].pc == Deferring(DeferCas(Ticket(1, b), NO_DEFERRED, 0));
    var s5 := Step(s4, 1, GO);
    assert s5.threads[1].pc == Deferring(LeaveIntent(2, Return));
    assert Walk(s1, 1, 1) == s2;
    assert Walk(s1, 1, 2) == s3;
    assert Walk(s1, 1, 3) == s4;
    assert Walk(s1, 1, 4) == s5;
  }

  /** One attempt of promotion against a busy writer flag. */
  lemma FailsToPromote(s: State, a: Alarm, n: nat)
    requires Quiet(s, Publishing(FirstJob(a), LoadCount), Deferring(LeaveIntent(n, Return))) && 0 < n
    requires s.shared.writer && s.shared.deferred.count == 1 && 1 in s.shared.hist.pending && |s.shared.hist.made| == 2
    ensures var r := Walk(s, 1, 4);
            Quiet(r, Publishing(FirstJob(a), LoadCount), Deferring(LeaveIntent(n - 1, Return))) && r.shared.writer
            && r.shared.deferred.count == 1 && 1 in r.shared.hist.pending && r.shared.hist.made == s.shared.hist.made
  {
    var s1 := Step(s, 1, GO);
    assert s1.threads[1].pc == Open(PromoteCheck(n, Return));
    var s2 := Step(s1, 1, GO);
    assert s2.threads[1].pc == Open(PromoteEnter(n, Return));
    var s3 := Step(s2, 1, GO);
    assert s3.threads[1].pc == Contending(PromoteWriter(n, Return));
    var s4 := Step(s3, 1, GO);
    assert Walk(s, 1, 1) == s1;
    assert Walk(s, 1, 2) == s2;
    assert Walk(s, 1, 3) == s3;
    assert Walk(s, 1, 4) == s4;
  }

  lemma SecondReturns(s: State, a: Alarm)
    requires Quiet(s, Publishing(FirstJob(a), LoadCount), Deferring(LeaveIntent(0, Return)))
    requires s.shared.writer && s.shared.deferred.count == 1 && 1 in s.shared.hist.pending
    ensures var r := Walk(s, 1, 1);
            Quiet(r, Publishing(FirstJob(a), LoadCount), Idle) && r.shared.writer && r.shared.deferred.count == 1
            && 1 in r.shared.hist.pending && r.shared.hist.made == s.shared.hist.made
  {
    assert Walk(s, 1, 1) == Step(s, 1, GO);
  }

  /** The first Trigger finishes its publication. */
  lemma FirstPublishes(s: State, a: Alarm)
    requires Quiet(s, Publishing(FirstJob(a), LoadCount), Idle) && s.shared.writer
    ensures var r := Walk(s, 0, 7);
            && |r.threads| == 2 && r.threads[0].pc == Writing(WriterRelease(2, Return)) && r.shared.hasAlarm
            && r.shared.deferred == s.shared.deferred && r.shared.hist.pending == s.shared.hist.pending
            && r.shared.hist.cleared == {} && !r.shared.intent.reserved && r.threads[1] == s.threads[1]
  {
    var j := FirstJob(a);
    var s1 := Step(s, 0, GO);
    assert s1.threads[0].pc == Publishing(j, PutCode(0));
    var s2 := Step(s1, 0, GO);
    assert s2.threads[0].pc == Publishing(j, PutLine(0));
    var s3 := Step(s2, 0, GO);
    assert s3.threads[0].pc == Publishing(j, PutAxis(0));
    var s4 := Step(s3, 0, GO);
    assert s4.threads[0].pc == Publishing(j, PutCount(0));
    var s5 := Step(s4, 0, GO);
    assert s5.threads[0].pc == Publishing(j, PutHas);
    var s6 := Step(s5, 0, GO);
    assert s6.threads[0].pc == Publishing(j, PutUpdate);
    var s7 := Step(s6, 0, GO);
    assert Walk(s, 0, 1) == s1;
    assert Walk(s, 0, 2) == s2;
    assert Walk(s, 0, 3) == s3;
    assert Walk(s, 0, 4) == s4;
    assert Walk(s, 0, 5) == s5;
    assert Walk(s, 0, 6) == s6;
    assert Walk(s, 0, 7) == s7;
  }

  /** It releases the writer flag and exchanges the deferred word out. */
  lemma FirstExchanges(s: State)
    requires |s.threads| == 2 && s.threads[0].pc == Writing(WriterRelease(2, Return))
    requires s.shared.deferred != NO_DEFERRED && !s.shared.intent.reserved && s.shared.hist.cleared == {}
    ensures var r := Walk(s, 0, 6);
            && r.shared.deferred == NO_DEFERRED && r.shared.hist.pending == {} && r.shared.hist.cleared == {}
  {
    var s1 := Step(s, 0, GO);
    assert s1.threads[0].pc == Deferring(LeaveIntent(2, Return));
    var s2 := Step(s1, 0, GO);
    assert s2.threads[0].pc == Open(PromoteCheck(2, Return));
    var s3 := Step(s2, 0, GO);
    assert s3.threads[0].pc == Open(PromoteEnter(2, Return));
    var s4 := Step(s3, 0, GO);
    assert s4.threads[0].pc == Contending(PromoteWriter(2, Return));
    var s5 := Step(s4, 0, GO);
    assert s5.threads[0].pc == Writing(PromoteExchange(2, Return));
    var s6 := Step(s5, 0, GO);
    assert Walk(s, 0, 1) == s1;
    assert Walk(s, 0, 2) == s2;
    assert Walk(s, 0, 3) == s3;
    assert Walk(s, 0, 4) == s4;
    assert Walk(s, 0, 5) == s5;
    assert Walk(s, 0, 6) == s6;
  }

  /** A run, one event or one walk longer. */
  lemma Called(s: State, events: seq<Event>, e: Event)
    requires e.t < |Run(s, events).threads|
    ensures Run(s, events + [e]) == Step(Run(s, events), e.t, e.c)
    ensures |Run(s, events + [e]).threads| == |Run(s, events).threads|
  {
    assert (events + [e])[..|events + [e]| - 1] == events;
  }

  lemma Walked(s: State, events: seq<Event>, t: nat, n: nat)
    requires t < |Run(s, events).threads|
    ensures Run(s, events + Steps(t, n)) == Walk(Run(s, events), t, n)
  {
    hide Run, Walk, Steps;
    RunAppends(s, events, Steps(t, n));
    WalkRuns(Run(s, events), t, n);
  }

  /** The second Trigger has deferred its alarm while the first holds the writer flag. */
  lemma Deferred(a: Alarm, b: Alarm) returns (events: seq<Event>)
    ensures var r := Run(Start2(), events);
            Quiet(r, Publishing(FirstJob(a), LoadCount), Deferring(LeaveIntent(2, Return))) && r.shared.writer
            && r.shared.deferred.count == 1 && 1 in r.shared.hist.pending && r.shared.hist.made == [a, b]
  {
    hide Run, Step, Walk, Steps, Quiet;
    var s := Start2();
    var e1 := [] + [Event(0, CallTrigger(a))];
    RunNothing(s);
    Called(s, [], Event(0, CallTrigger(a)));
    var e2 := e1 + Steps(0, 2);
    Walked(s, e1, 0, 2);
    FirstTakesWriter(a);
    BothThere(Run(s, e2), Publishing(FirstJob(a), LoadCount), Idle);
    var e3 := e2 + [Event(1, CallTrigger(b))];
    Called(s, e2, Event(1, CallTrigger(b)));
    events := e3 + Steps(1, 4);
    Walked(s, e3, 1, 4);
    SecondDefers(Run(s, e2), a, b);
  }

  lemma RunNothing(s: State)
    ensures Run(s, []) == s
  {
  }

  /** Before the first load the second Trigger has returned, and its alarm is in the deferred word only. */
  lemma Returned(a: Alarm, b: Alarm) returns (events: seq<Event>)
    ensures var r := Run(Start2(), events);
            Quiet(r, Publishing(FirstJob(a), LoadCount), Idle) && r.shared.writer && r.shared.deferred.count == 1
            && 1 in r.shared.hist.pending && r.shared.hist.made == [a, b]
  {
    hide Run, Step, Walk, Steps, Quiet;
    var s := Start2();
    var e4 := Deferred(a, b);
    BothThere(Run(s, e4), Publishing(FirstJob(a), LoadCount), Deferring(LeaveIntent(2, Return)));
    var e5 := e4 + Steps(1, 4);
    Walked(s, e4, 1, 4);
    FailsToPromote(Run(s, e4), a, 2);
    BothThere(Run(s, e5), Publishing(FirstJob(a), LoadCount), Deferring(LeaveIntent(1, Return)));
    var e6 := e5 + Steps(1, 4);
    Walked(s, e5, 1, 4);
    FailsToPromote(Run(s, e5), a, 1);
    BothThere(Run(s, e6), Publishing(FirstJob(a), LoadCount), Deferring(LeaveIntent(0, Return)));
    events := e6 + Steps(1, 1);
    Walked(s, e6, 1, 1);
    SecondReturns(Run(s, e6), a);
  }

  lemma BothThere(s: State, first: Pc, second: Pc)
    requires Quiet(s, first, second)
    ensures |s.threads| == 2
  {
  }

  /**
   HasAlarm() answers false although the second Trigger returned before its first load, its alarm was in the
   deferred word then, and nothing has been cleared.
   */
  lemma HasAlarmOverlooks(a: Alarm, b: Alarm) returns (events: seq<Event>, between: seq<Event>)
    ensures Initial(Start2())
    ensures var first := Run(Start2(), events);
            var second := Run(first, between);
            && |first.threads| == 2 && first.threads[1].pc.Idle? && first.shared.hist.made == [a, b]
            && 1 in first.shared.hist.pending && second.shared.hist.cleared == {}
            && !HasAlarm(first.shared, second.shared)
  {
    hide Step, Walk, Steps;
    events := Returned(a, b);
    var first := Run(Start2(), events);
    between := Steps(0, 7) + Steps(0, 6);
    WalkRuns(first, 0, 7);
    FirstPublishes(first, a);
    Walked(first, Steps(0, 7), 0, 6);
    FirstExchanges(Run(first, Steps(0, 7)));
  }
}
