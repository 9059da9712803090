/**
 Every call is bounded: whatever the other threads do and however often a compare-exchange fails, a thread is
 idle again after at most CALL_BOUND steps of its own.
 */
module AlarmBounded {
  import opened AlarmWords
  import opened AlarmMachine
  import opened AlarmSolo

  const CALL_BOUND: nat := 320

  // ------------------------------------------------------------------ rank

  const LEAVING: nat := 47

  /** What may follow a promotion. */
  function NextRank(k: Next): nat {
    match k
    case ThenClear => LEAVING + 206
    case ThenBegin(_) => LEAVING + 14
    case _ => 0
  }

  /** n promotion attempts of at most 20 steps, then k. */
  function AttemptsRank(n: nat, k: Next): nat { 20 * n + NextRank(k) }

  function OpenRank(pc: OpenPc): nat {
    match pc
    case TriggerEnter(_) => LEAVING + 40
    case PromoteCheck(n, k) => AttemptsRank(Less(n), k) + 20
    case PromoteEnter(n, k) => AttemptsRank(Less(n), k) + 19
    case ClearDeferred => LEAVING + 206
    case ClearHas => LEAVING + 205
    case ClearEnter => LEAVING + 204
    case BeginProbe(_) => LEAVING + 14 + 41
    case BeginUpdate(_) => LEAVING + 14
    case BeginHas(_, _) => LEAVING + 13
    case BeginHasDeferred(_, _) => LEAVING + 12
    case BeginState(_, _, _) => LEAVING + 11
    case BeginDeferred(_, _) => LEAVING + 10
    case BeginWriterProbe(_, _) => LEAVING + 9
    case BeginCas(_, _) => LEAVING + 8
  }

  function DeferRank(pc: DeferPc): nat {
    match pc
    case DeferLoad(_) => LEAVING + 36
    case DeferCas(_, _, attempt) => LEAVING + 3 + (if attempt < CAS_ATTEMPTS then CAS_ATTEMPTS - attempt else 0)
    case DeferPayload(_) => LEAVING + 2
    case DeferOr(_) => LEAVING + 1
    case LeaveIntent(n, k) => AttemptsRank(n, k) + 7
  }

  function ContendRank(pc: ContendPc): nat {
    match pc
    case TriggerWriter(_) => LEAVING + 38
    case PromoteWriter(n, k) => AttemptsRank(Less(n), k) + 18
    case ClearWriter => LEAVING + 203
  }

  function WriteRank(pc: WritePc): nat {
    match pc
    case PromoteExchange(n, k) => AttemptsRank(Less(n), k) + 17
    case PromoteOverflow(_, n, k) => AttemptsRank(Less(n), k) + 16
    case ClearRecheck => LEAVING + 202
    case WriterRelease(n, k) => AttemptsRank(n, k) + 8
  }

  function PublishRank(pc: PublishPc): nat {
    match pc
    case LoadCount => 15
    case PutCode(_) => 14
    case PutLine(_) => 13
    case PutAxis(_) => 12
    case PutCount(_) => 11
    case PutHas => 10
    case PutUpdate => 9
  }

  function DropRank(pc: DropPc): nat {
    match pc
    case DropHas => LEAVING + 201
    case DropCount => LEAVING + 200
    case DropSlot(i, field) =>
      LEAVING + 3 + (if i < MAX_ALARMS then 3 * (MAX_ALARMS - 1 - i) else 0)
      + (match field case Code => 2 case Line => 1 case Axis => 0)
    case DropUpdate => LEAVING + 2
  }

  function VerifyRank(pc: VerifyPc): nat {
    match pc
    case Verify(stage) => LEAVING + 1 + (if stage < 5 then 5 - stage else 0)
    case Abort => LEAVING
    case AbortAnd => LEAVING - 1
  }

  /** Once all checks of IsMotionAdmissionCurrent are made. */
  function PurposeRank(purpose: Purpose): nat {
    match purpose
    case Finish => 1
    case ForEnd => LEAVING + 1
    case ForClear => LEAVING + 204
    case ForTrigger(_) => 19
  }

  function OwnRank(pc: OwnPc): nat {
    match pc
    case CurrentCheck(stage, purpose) => PurposeRank(purpose) + (if stage < 5 then 5 - stage else 0)
    case EndCas(_) => LEAVING
    case EndAnd => LEAVING - 1
    case UnderHas => LEAVING + 203
    case UnderClearCas => LEAVING + 202
    case UnderWriter(_) => 18
  }

  function OwnWriterRank(pc: OwnWriterPc): nat {
    match pc
    case UnderTriggerCas(_) => 17
    case UnderRelease(_) => 8
  }

  /** An upper bound of the steps this thread still has to take. */
  function Rank(pc: Pc): nat {
    match pc
    case Idle => 0
    case Open(open) => OpenRank(open)
    case Deferring(defer) => DeferRank(defer)
    case Contending(contend) => ContendRank(contend)
    case Writing(write) => WriteRank(write)
    case Publishing(job, publish) => PublishRank(publish) + (if job.under then 0 else AttemptsRank(job.n, job.k))
    case Dropping(_, drop) => DropRank(drop)
    case Verifying(verify) => VerifyRank(verify)
    case Owning(own) => OwnRank(own)
    case OwningWriter(ownWriter) => OwnWriterRank(ownWriter)
  }

  // ------------------------------------------------------ every step descends

  lemma PromoteRank(n: nat, k: Next)
    ensures Rank(Promote(n, k)) <= AttemptsRank(n, k)
  {
  }

  lemma OpenDescends(sh: Shared, th: Thread)
    requires th.pc.Open?
    ensures Rank(ActOpen(sh, th, th.pc.open).1.pc) < Rank(th.pc)
  {
    match th.pc.open
    case PromoteCheck(n, k) => PromoteRank(Less(n), k);
    case _ =>
  }

  lemma DeferDescends(sh: Shared, th: Thread, spurious: bool)
    requires th.pc.Deferring?
    ensures Rank(ActDefer(sh, th, th.pc.defer, spurious).1.pc) < Rank(th.pc)
  {
    match th.pc.defer
    case LeaveIntent(n, k) => PromoteRank(n, k);
    case _ =>
  }

  lemma WindowDescends(sh: Shared, th: Thread, c: Choice)
    requires th.pc.Contending? || th.pc.Writing?
    ensures Rank(Act(sh, th, c).1.pc) < Rank(th.pc)
  {
    hide OpenRank;
  }

  lemma PublishDescends(sh: Shared, th: Thread)
    requires th.pc.Publishing?
    ensures Rank(ActPublish(sh, th, th.pc.job, th.pc.publish).1.pc) < Rank(th.pc)
  {
    hide OpenRank, PutSlot, EntryOf;
  }

  lemma DropDescends(sh: Shared, th: Thread)
    requires th.pc.Dropping?
    ensures Rank(ActDrop(sh, th, th.pc.under, th.pc.drop).1.pc) < Rank(th.pc)
  {
    hide OpenRank, PutSlot;
  }

  lemma VerifyDescends(sh: Shared, th: Thread)
    requires th.pc.Verifying?
    ensures Rank(ActVerify(sh, th, th.pc.verify).1.pc) < Rank(th.pc)
  {
    PromoteRank(2, Return);
  }

  lemma OwnDescends(sh: Shared, th: Thread)
    requires th.pc.Owning?
    ensures Rank(ActOwn(sh, th, th.pc.own).1.pc) < Rank(th.pc)
  {
    match th.pc.own
    case EndCas(current) => PromoteRank(2, ThenEnd(current));
    case EndAnd => PromoteRank(2, ThenEnd(false));
    case _ =>
  }

  lemma OwnWriterDescends(sh: Shared, th: Thread)
    requires th.pc.OwningWriter?
    ensures Rank(ActOwnWriter(sh, th, th.pc.ownWriter).1.pc) < Rank(th.pc)
  {
  }

  lemma StepDescends(sh: Shared, th: Thread, c: Choice)
    requires !th.pc.Idle?
    ensures Rank(Act(sh, th, c).1.pc) < Rank(th.pc)
  {
    hide Rank, ActOpen, ActDefer, ActContend, ActWrite, ActPublish, ActDrop, ActVerify, ActOwn, ActOwnWriter;
    match th.pc
    case Open(_) => OpenDescends(sh, th);
    case Deferring(_) => DeferDescends(sh, th, c.Proceed? && c.spurious);
    case Publishing(_, _) => PublishDescends(sh, th);
    case Dropping(_, _) => DropDescends(sh, th);
    case Verifying(_) => VerifyDescends(sh, th);
    case Owning(_) => OwnDescends(sh, th);
    case OwningWriter(_) => OwnWriterDescends(sh, th);
    case _ => WindowDescends(sh, th, c);
  }

  lemma StartRank(sh: Shared, th: Thread, c: Choice)
    requires th.pc.Idle?
    ensures Rank(Start(sh, th, c).1.pc) <= CALL_BOUND
  {
  }

  // ---------------------------------------------------------- main theorems

  /** The steps of one thread among some events. */
  function OwnSteps(t: nat, during: seq<Event>): nat
    decreases |during|
  {
    if during == [] then 0
    else OwnSteps(t, during[..|during| - 1]) + (if during[|during| - 1].t == t then 1 else 0)
  }

  lemma {:induction false} StepsAreRanked(s: State, t: nat, during: seq<Event>)
    requires t < |s.threads| && Busy(s, t, during)
    ensures |Run(s, during).threads| == |s.threads|
    ensures OwnSteps(t, during) + Rank(Run(s, during).threads[t].pc) <= Rank(s.threads[t].pc)
    decreases |during|
  {
    hide Act, Rank;
    if during != [] {
      var n := |during| - 1;
      var less := during[..n];
      assert forall j :: 0 <= j <= n ==> less[..j] == during[..j];
      StepsAreRanked(s, t, less);
      assert during[..n] == less;
      if during[n].t == t {
        var r := Run(s, less);
        StepDescends(r.shared, r.threads[t], during[n].c);
      }
    }
  }

  /**
   Wait-freedom.  However the steps of the others are interleaved, a thread that is still in its call has taken
   at most CALL_BOUND steps since it made it.
   */
  lemma CallsAreBounded(s: State, t: nat, c: Choice, during: seq<Event>)
    requires t < |s.threads| && s.threads[t].pc.Idle?
    requires Busy(Step(s, t, c), t, during)
    ensures OwnSteps(t, during) <= CALL_BOUND
  {
    hide Run, Busy, Rank, Start;
    StartRank(s.shared, s.threads[t], c);
    StepsAreRanked(Step(s, t, c), t, during);
  }

  lemma {:induction false} AloneDescends(sh: Shared, th: Thread, n: nat)
    requires Rank(th.pc) <= n
    ensures Alone(sh, th, n).1.pc.Idle?
    decreases n
  {
    hide Act, Rank;
    if th.pc.Idle? {
      IdleStays(sh, th, n);
    } else {
      StepDescends(sh, th, GO);
      var r := Act(sh, th, GO);
      AloneDescends(r.0, r.1, n - 1);
    }
  }

  /** A thread that makes any call from any state and runs alone is idle again after CALL_BOUND steps. */
  lemma EveryCallReturns(s: State, t: nat, c: Choice)
    requires t < |s.threads| && s.threads[t].pc.Idle?
    ensures Back(s, t, c, CALL_BOUND)
  {
    hide Run, Rank, Start, Alone;
    StartRank(s.shared, s.threads[t], c);
    CallIsAlone(s, t, c, CALL_BOUND);
    var started := Start(s.shared, s.threads[t], c);
    AloneDescends(started.0, started.1, CALL_BOUND);
  }
}
