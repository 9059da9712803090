/**
 What an acquired and a successfully ended motion admission prove: an alarm-free
 start, an exactly quiet interval, and an alarm image that is the list of the
 published alarms.
 */
module AlarmAdmission {
  import opened Numbers
  import opened AlarmWords
  import opened AlarmMachine
  import opened AlarmControl
  import opened AlarmLedger
  import opened Summation

  // ------------------------------------------------------- quiet interval

  /**
   Exact quiet interval.  Short of a full wrap of the 32-bit sequence, the
   releasing compare-exchange succeeds exactly when no Trigger, Clear or
   promotion has opened an intent since the acquiring one, whatever advances
   the holder made itself; it then restores the unreserved word.
   */
  lemma QuietInterval(s: State, t: nat, c: Choice)
    requires Control(s) && t < |s.threads|
    requires s.threads[t].pc.Owning? && s.threads[t].pc.own.EndCas?
    requires s.shared.hist.intents - s.threads[t].res.since < TWO32
    ensures var quiet := s.shared.hist.intents == s.threads[t].res.since;
            var th' := Step(s, t, c).threads[t];
            && (th'.pc == Promote(2, ThenEnd(true)) <==> s.threads[t].pc.own.current && quiet)
            && (!th'.res.acquired <==> quiet)
            && (quiet ==> Step(s, t, c).shared.intent == s.shared.intent.(reserved := false))
    ensures s.shared.hist.intents >= s.threads[t].res.since
  {
    ControlEntitles(s, t);
    var since, now := s.threads[t].res.since, s.shared.hist.intents;
    SameResidue(since + s.shared.hist.advances, now + s.shared.hist.advances, TWO32);
  }

  lemma AdvancesAt(sh: Shared, th: Thread, c: Choice)
    requires Act(sh, th, c).0.hist.advances != sh.hist.advances
    ensures (th.pc.Owning? && th.pc.own.UnderClearCas?) || (th.pc.OwningWriter? && th.pc.ownWriter.UnderTriggerCas?)
    ensures Act(sh, th, c).1.res.acquired == th.res.acquired
  {
  }

  /** Only the one holder can advance the sequence without opening an intent, and its reservation stays current. */
  lemma AdvanceIsHolders(s: State, t: nat, c: Choice)
    requires Control(s) && t < |s.threads|
    requires Step(s, t, c).shared.intent.sequence != s.shared.intent.sequence
    ensures var s' := Step(s, t, c);
            || s'.shared.hist.intents == s.shared.hist.intents + 1
            || (s.threads[t].res.acquired && s'.threads[t].res.acquired
                && ReservationCurrent(s'.shared.hist.advances, s'.threads[t].res))
  {
    hide Act, Control;
    ControlEntitles(s, t);
    ActGuarantee(s.shared, s.threads[t], c);
    IntentSteps(s.shared, s.threads[t], c);
    if Step(s, t, c).shared.hist.intents == s.shared.hist.intents {
      AdvancesAt(s.shared, s.threads[t], c);
    }
  }

  lemma IntentSteps(sh: Shared, th: Thread, c: Choice)
    ensures var n := Act(sh, th, c).0.hist.intents; n == sh.hist.intents || n == sh.hist.intents + 1
  {
    hide Act;
    if th.pc.Open? {
      OpenSteps(sh, th, c);
    } else {
      OthersOpenNothing(sh, th, c);
    }
  }

  lemma OpenSteps(sh: Shared, th: Thread, c: Choice)
    requires th.pc.Open?
    ensures var n := Act(sh, th, c).0.hist.intents; n == sh.hist.intents || n == sh.hist.intents + 1
  {
    hide Probe;
  }

  lemma OthersOpenNothing(sh: Shared, th: Thread, c: Choice)
    requires !th.pc.Open?
    ensures Act(sh, th, c).0.hist.intents == sh.hist.intents
  {
  }

  // -------------------------------------------------- what verifying knows

  /** The facts established by the stages already passed, while nobody else has interfered. */
  predicate Verified(sh: Shared, th: Thread) {
    th.pc.Verifying? && th.pc.verify.Verify? ==>
      && (th.pc.verify.stage > 1 && th.res.requireNoAlarm ==> !sh.hasAlarm)
      && (th.pc.verify.stage > 3 && sh.hist.intents == th.res.since ==> sh.deferred == NO_DEFERRED)
  }

  predicate AllVerified(s: State) {
    forall t :: 0 <= t < |s.threads| ==> Verified(s.shared, s.threads[t])
  }

  lemma VerifiedOwn(sh: Shared, th: Thread, c: Choice)
    requires Verified(sh, th)
    ensures Verified(Act(sh, th, c).0, Act(sh, th, c).1)
  {
    if th.pc.Verifying? {
      assert Act(sh, th, c) == ActVerify(sh, th, th.pc.verify);
    } else {
      VerifyingEntry(sh, th, c);
    }
  }

  /** Verification starts only at stage zero. */
  lemma VerifyingEntry(sh: Shared, th: Thread, c: Choice)
    requires !th.pc.Verifying?
    ensures Act(sh, th, c).1.pc.Verifying? ==> Act(sh, th, c).1.pc.verify == Verify(0)
  {
    if th.pc.Open? && Probing(th.pc.open) {
      ProbeOwnsNothing(sh, th.pc.open);
    }
  }

  lemma VerifiedStable(s: State, t: nat, u: nat, c: Choice)
    requires Control(s) && t < |s.threads| && u < |s.threads| && t != u
    requires Verified(s.shared, s.threads[u])
    ensures Verified(Step(s, t, c).shared, s.threads[u])
  {
    ControlEntitles(s, t);
    ControlEntitles(s, u);
    if Holding(s.threads[u]) {
      ImageFreeze(s, t, c);
      ActGuarantee(s.shared, s.threads[t], c);
      DeferredChanges(s.shared, s.threads[t], c);
      if s.threads[t].res.acquired {
        SumTwo(s.threads, if t < u then t else u, if t < u then u else t, HolderUnit);
      }
    }
  }

  lemma VerifiedStep(s: State, t: nat, c: Choice)
    requires Control(s) && AllVerified(s) && t < |s.threads|
    ensures AllVerified(Step(s, t, c))
  {
    var s' := Step(s, t, c);
    forall u | 0 <= u < |s'.threads| ensures Verified(s'.shared, s'.threads[u]) {
      if u == t {
        VerifiedOwn(s.shared, s.threads[t], c);
      } else {
        VerifiedStable(s, t, u, c);
      }
    }
  }

  lemma {:induction false} VerifiedRun(s: State, events: seq<Event>)
    requires Initial(s)
    ensures AllVerified(Run(s, events))
    decreases |events|
  {
    if events != [] {
      VerifiedRun(s, events[..|events| - 1]);
      ControlRun(s, events[..|events| - 1]);
      var before := Run(s, events[..|events| - 1]);
      var e := events[|events| - 1];
      if e.t < |before.threads| {
        VerifiedStep(before, e.t, e.c);
      }
    }
  }

  /** The admission of thread t is about to return ACQUIRED. */
  predicate Acquires(s: State, t: nat, c: Choice)
    requires t < |s.threads|
  {
    !s.threads[t].res.acquired && Step(s, t, c).threads[t].res.acquired
  }

  lemma AcquiresWhen(sh: Shared, th: Thread, c: Choice)
    requires !th.res.acquired && Act(sh, th, c).1.res.acquired
    ensures th.pc.Verifying? && th.pc.verify.Verify? && th.pc.verify.stage >= 5 && sh.intent == th.res.reserved
    ensures Act(sh, th, c).0 == sh
  {
  }

  /**
   ACQUIRED with requireNoAlarm: short of a full sequence wrap during the
   verification, every Trigger call ever made has been cleared, except calls
   that have not yet executed their first instruction.
   */
  lemma AcquiredMeansAlarmFree(s: State, events: seq<Event>, t: nat, c: Choice, id: nat)
    requires Initial(s)
    requires var r := Run(s, events);
             && t < |r.threads| && Acquires(r, t, c) && r.threads[t].res.requireNoAlarm
             && r.shared.hist.intents - r.threads[t].res.since < TWO32
             && id < |r.shared.hist.made|
    ensures var r := Run(s, events);
            || id in r.shared.hist.cleared
            || exists u :: 0 <= u < |r.threads| && r.threads[u].pc.Open? && id in Owned(r.threads[u].pc)
  {
    hide Act, Run;
    var r := Run(s, events);
    ControlRun(s, events);
    LedgerRun(s, events);
    VerifiedRun(s, events);
    ControlEntitles(r, t);
    AcquiresWhen(r.shared, r.threads[t], c);
    SameResidue(r.threads[t].res.since + r.shared.hist.advances, r.shared.hist.intents + r.shared.hist.advances, TWO32);
    assert r.shared.hist.pending == {} && r.shared.hist.image == {};
    if id !in r.shared.hist.cleared {
      QuietClaims(r, t, id);
    }
  }

  /** In a quiet, reserved state an unseen call has not opened its intent yet. */
  lemma QuietClaims(r: State, t: nat, id: nat)
    requires Control(r) && Claimed(r, id) && t < |r.threads|
    requires r.threads[t].pc.Verifying? && r.shared.intent.active == 0
    ensures exists u :: 0 <= u < |r.threads| && r.threads[u].pc.Open? && id in Owned(r.threads[u].pc)
  {
    var u :| 0 <= u < |r.threads| && id in Owned(r.threads[u].pc);
    NobodyElseActive(r, t, u);
  }

  /** While the word is quiet and reserved, no thread is in a window or at an image store. */
  lemma NobodyElseActive(r: State, t: nat, u: nat)
    requires Control(r) && t < |r.threads| && u < |r.threads|
    requires r.threads[t].pc.Verifying? && r.shared.intent.active == 0
    ensures !InWindow(r.threads[u].pc) && (u != t ==> !IsUnder(r.threads[u].pc))
  {
    ControlEntitles(r, u);
    ControlEntitles(r, t);
    if u != t && r.threads[u].res.acquired {
      SumTwo(r.threads, if t < u then t else u, if t < u then u else t, HolderUnit);
    }
  }
}
