/**
 EDM130 WorkEvidence: accumulated work time that earns flush triggers.  The
 source re-checks ValidWorkEvidence after every change; that check alone is not
 inductive, and the stronger Earned invariant shows it can never fail.
 */
module WorkTimer {
  import opened Numbers

  const MINIMUM_WORK_US: nat := 50000
  const MAXIMUM_WORK_US: nat := 10000000
  const MAXIMUM_DELTA_US: nat := 1500

  datatype Evidence = Evidence(
    workTimeUs: u64, elapsedUs: u64, totalWorkUs: u64,
    triggered: u64, completed: u64,
    lastTriggerElapsedUs: u64, lastTriggerTotalUs: u64, lastTriggerTick: u64, lastTriggerUs: u64,
    lastCompleteTick: u64, lastCompleteUs: u64,
    previousEligible: bool, due: bool)

  const EMPTY := Evidence(0, 0, 0, 0, 0, 0, 0, 0, 0, 0, 0, false, false)

  predicate ValidWorkTime(us: nat) { MINIMUM_WORK_US <= us <= MAXIMUM_WORK_US }

  predicate Timed(e: Evidence) { e.workTimeUs != 0 }

  /** ValidWorkEvidence, clause by clause. */
  predicate Valid(e: Evidence) {
    if !Timed(e) then e == EMPTY
    else
      && ValidWorkTime(e.workTimeUs)
      && e.elapsedUs <= e.workTimeUs && e.elapsedUs <= e.totalWorkUs
      && (e.due <==> e.elapsedUs == e.workTimeUs)
      && e.completed <= e.triggered <= e.completed + 1
      && e.lastTriggerTotalUs <= e.totalWorkUs
      && if e.triggered == 0 then
           && e.completed == 0 && e.lastTriggerElapsedUs == 0 && e.lastTriggerTotalUs == 0
           && e.lastTriggerTick == 0 && e.lastTriggerUs == 0 && e.lastCompleteTick == 0 && e.lastCompleteUs == 0
         else
           && e.lastTriggerElapsedUs == e.workTimeUs && e.lastTriggerTotalUs >= e.workTimeUs
           && e.lastTriggerTick != 0 && e.lastTriggerUs != 0
           && e.triggered <= e.totalWorkUs / e.workTimeUs
           && (if e.completed == 0 then e.lastCompleteTick == 0 && e.lastCompleteUs == 0
               else e.lastCompleteTick != 0 && e.lastCompleteUs != 0)
           && (if e.triggered == e.completed then
                 e.lastCompleteTick > e.lastTriggerTick && e.lastCompleteUs > e.lastTriggerUs
               else
                 e.due && !e.previousEligible
                 && e.lastCompleteTick < e.lastTriggerTick && e.lastCompleteUs < e.lastTriggerUs)
  }

  // -------------------------------------------------- one call as a function

  datatype Call =
    | Begin(duration: u64)
    | Accrue(deltaUs: u64, eligible: bool)
    | Trigger(tick: u64, nowUs: u64)
    | Complete(tick: u64, nowUs: u64)

  /** The guard that precedes every change of the evidence. */
  predicate Admitted(e: Evidence, call: Call) {
    && Valid(e)
    && match call
       case Begin(duration) => ValidWorkTime(duration) && (!Timed(e) || e.workTimeUs == duration)
       case Accrue(delta, eligible) =>
         && Timed(e) && e.triggered == e.completed
         && (eligible && e.previousEligible ==> delta <= MAXIMUM_DELTA_US && e.totalWorkUs <= MAX64 - delta)
       case Trigger(tick, nowUs) =>
         && Timed(e) && e.due && tick != 0 && nowUs != 0 && e.triggered == e.completed && e.triggered != MAX64
         && tick > e.lastCompleteTick && nowUs > e.lastCompleteUs
       case Complete(tick, nowUs) =>
         Timed(e) && e.triggered == e.completed + 1 && tick > e.lastTriggerTick && nowUs > e.lastTriggerUs
  }

  /** The fields after an admitted call. */
  function Changed(e: Evidence, call: Call): Evidence
    requires Admitted(e, call)
  {
    match call
    case Begin(duration) => e.(workTimeUs := duration, previousEligible := false)
    case Accrue(delta, eligible) =>
      var earned := eligible && e.previousEligible;
      var total := if earned then e.totalWorkUs + delta else e.totalWorkUs;
      var elapsed := if earned then e.elapsedUs + Least(delta, e.workTimeUs - e.elapsedUs) else e.elapsedUs;
      e.(totalWorkUs := total, elapsedUs := elapsed, previousEligible := eligible, due := elapsed == e.workTimeUs)
    case Trigger(tick, nowUs) =>
      e.(triggered := e.triggered + 1, lastTriggerElapsedUs := e.elapsedUs, lastTriggerTotalUs := e.totalWorkUs,
         lastTriggerTick := tick, lastTriggerUs := nowUs, previousEligible := false)
    case Complete(tick, nowUs) =>
      e.(completed := e.completed + 1, elapsedUs := 0, due := false, previousEligible := false,
         lastCompleteTick := tick, lastCompleteUs := nowUs)
  }

  /** The evidence after a call, and what the call returns: the trailing validity check of the source. */
  function After(e: Evidence, call: Call): Evidence {
    if Admitted(e, call) then Changed(e, call) else e
  }

  predicate Accepted(e: Evidence, call: Call) {
    Admitted(e, call) && (call.Begin? || Valid(Changed(e, call)))
  }

  // ------------------------------------------------------- the record itself

  /** The source's free functions on a WorkEvidence&. */
  class WorkEvidence {
    var workTimeUs: u64
    var elapsedUs: u64
    var totalWorkUs: u64
    var triggeredEvents: u64
    var completedEvents: u64
    var lastTriggerElapsedUs: u64
    var lastTriggerTotalUs: u64
    var lastTriggerTick: u64
    var lastTriggerUs: u64
    var lastCompleteTick: u64
    var lastCompleteUs: u64
    var previousEligible: bool
    var due: bool

    function View(): Evidence
      reads this
    {
      Evidence(workTimeUs, elapsedUs, totalWorkUs, triggeredEvents, completedEvents,
               lastTriggerElapsedUs, lastTriggerTotalUs, lastTriggerTick, lastTriggerUs,
               lastCompleteTick, lastCompleteUs, previousEligible, due)
    }

    constructor ()
      ensures View() == EMPTY
    {
      workTimeUs, elapsedUs, totalWorkUs, triggeredEvents, completedEvents := 0, 0, 0, 0, 0;
      lastTriggerElapsedUs, lastTriggerTotalUs, lastTriggerTick, lastTriggerUs := 0, 0, 0, 0;
      lastCompleteTick, lastCompleteUs := 0, 0;
      previousEligible, due := false, false;
    }

    method BeginWork(duration: u64) returns (ok: bool)
      modifies this
      ensures View() == After(old(View()), Begin(duration))
      ensures ok <==> Accepted(old(View()), Begin(duration))
    {
      if !ValidWorkTime(duration) || !Valid(View()) || (workTimeUs != 0 && workTimeUs != duration) {
        return false;
      }
      workTimeUs := duration;
      previousEligible := false;
      return true;
    }

    method AccrueWork(deltaUs: u64, eligible: bool) returns (ok: bool)
      modifies this
      ensures View() == After(old(View()), Accrue(deltaUs, eligible))
      ensures ok <==> Accepted(old(View()), Accrue(deltaUs, eligible))
    {
      if !Valid(View()) || workTimeUs == 0 || triggeredEvents != completedEvents {
        return false;
      }
      if eligible && previousEligible {
        if deltaUs > MAXIMUM_DELTA_US || totalWorkUs > MAX64 - deltaUs {
          return false;
        }
        totalWorkUs := totalWorkUs + deltaUs;
        var remaining := workTimeUs - elapsedUs;
        elapsedUs := elapsedUs + (if deltaUs < remaining then deltaUs else remaining);
      }
      previousEligible := eligible;
      due := elapsedUs == workTimeUs;
      return Valid(View());
    }

    method TriggerWork(tick: u64, nowUs: u64) returns (ok: bool)
      modifies this
      ensures View() == After(old(View()), Trigger(tick, nowUs))
      ensures ok <==> Accepted(old(View()), Trigger(tick, nowUs))
    {
      if !Valid(View()) || workTimeUs == 0 || !due || tick == 0 || nowUs == 0 || triggeredEvents != completedEvents
         || triggeredEvents == MAX64 || tick <= lastCompleteTick || nowUs <= lastCompleteUs {
        return false;
      }
      triggeredEvents := triggeredEvents + 1;
      lastTriggerElapsedUs := elapsedUs;
      lastTriggerTotalUs := totalWorkUs;
      lastTriggerTick := tick;
      lastTriggerUs := nowUs;
      previousEligible := false;
      return Valid(View());
    }

    method CompleteWork(tick: u64, nowUs: u64) returns (ok: bool)
      modifies this
      ensures View() == After(old(View()), Complete(tick, nowUs))
      ensures ok <==> Accepted(old(View()), Complete(tick, nowUs))
    {
      if !Valid(View()) || workTimeUs == 0 || triggeredEvents != completedEvents + 1
         || tick <= lastTriggerTick || nowUs <= lastTriggerUs {
        return false;
      }
      completedEvents := completedEvents + 1;
      elapsedUs := 0;
      due := false;
      previousEligible := false;
      lastCompleteTick := tick;
      lastCompleteUs := nowUs;
      return Valid(View());
    }
  }

  // ------------------------------------------------------ stronger invariant

  /** Every completed event has its own full work interval, and the running one is on top of them. */
  predicate Earned(e: Evidence) {
    && Valid(e)
    && e.completed * e.workTimeUs + e.elapsedUs <= e.totalWorkUs
    && (e.triggered == e.completed > 0 ==> e.elapsedUs <= e.totalWorkUs - e.lastTriggerTotalUs)
    && (e.triggered > e.completed ==> e.totalWorkUs == e.lastTriggerTotalUs)
  }

  lemma QuotientBound(n: nat, w: nat, total: nat)
    requires w > 0
    ensures n * w <= total <==> n <= total / w
  {
    var q, r := total / w, total % w;
    assert total == q * w + r;
    if n <= q {
      TimesMono(w, n, q);
    } else {
      TimesMono(w, q + 1, n);
    }
  }

  /** The evidence is earned after the call, and the trailing check of the source agrees. */
  predicate KeepsEarned(e: Evidence, call: Call)
    requires Admitted(e, call)
  {
    Earned(Changed(e, call)) && Accepted(e, call)
  }

  lemma AccrueEarned(e: Evidence, call: Call)
    requires Earned(e) && call.Accrue? && Admitted(e, call)
    ensures KeepsEarned(e, call)
  {
    var f := Changed(e, call);
    QuotientBound(e.triggered, e.workTimeUs, e.totalWorkUs);
    QuotientBound(e.triggered, e.workTimeUs, f.totalWorkUs);
  }

  lemma TriggerEarned(e: Evidence, call: Call)
    requires Earned(e) && call.Trigger? && Admitted(e, call)
    ensures KeepsEarned(e, call)
  {
    QuotientBound(e.completed + 1, e.workTimeUs, e.totalWorkUs);
    assert (e.completed + 1) * e.workTimeUs == e.completed * e.workTimeUs + e.workTimeUs;
  }

  lemma CompleteEarned(e: Evidence, call: Call)
    requires Earned(e) && call.Complete? && Admitted(e, call)
    ensures KeepsEarned(e, call)
  {
    assert (e.completed + 1) * e.workTimeUs == e.completed * e.workTimeUs + e.workTimeUs;
  }

  lemma BeginEarned(e: Evidence, call: Call)
    requires Earned(e) && call.Begin? && Admitted(e, call)
    ensures KeepsEarned(e, call)
  {
  }

  /** One call from earned evidence: the trailing check succeeds and the evidence stays earned. */
  lemma EarnedStep(e: Evidence, call: Call)
    requires Earned(e)
    ensures Earned(After(e, call))
    ensures Accepted(e, call) <==> Admitted(e, call)
    ensures !Accepted(e, call) ==> After(e, call) == e
  {
    if Admitted(e, call) {
      match call
      case Begin(_) => BeginEarned(e, call);
      case Accrue(_, _) => AccrueEarned(e, call);
      case Trigger(_, _) => TriggerEarned(e, call);
      case Complete(_, _) => CompleteEarned(e, call);
    }
  }

  function Run(e: Evidence, calls: seq<Call>): Evidence
    decreases |calls|
  {
    if calls == [] then e else After(Run(e, calls[..|calls| - 1]), calls[|calls| - 1])
  }

  lemma {:induction false} EarnedRun(calls: seq<Call>)
    ensures Earned(Run(EMPTY, calls))
    decreases |calls|
  {
    if calls != [] {
      EarnedRun(calls[..|calls| - 1]);
      EarnedStep(Run(EMPTY, calls[..|calls| - 1]), calls[|calls| - 1]);
    }
  }

  /**
   Work is never outrun: on every run from the empty evidence every event,
   completed or only triggered, is backed by its own full interval of work.
   */
  lemma WorkNeverOutrun(calls: seq<Call>)
    ensures var e := Run(EMPTY, calls);
            && e.triggered * e.workTimeUs <= e.totalWorkUs
            && e.completed * e.workTimeUs + e.elapsedUs <= e.totalWorkUs
  {
    EarnedRun(calls);
    var e := Run(EMPTY, calls);
    if Timed(e) {
      QuotientBound(e.triggered, e.workTimeUs, e.totalWorkUs);
    }
  }

  /** On every run the trailing checks never fire, and a refused call changes nothing. */
  lemma RefusalChangesNothing(calls: seq<Call>, call: Call)
    ensures var e := Run(EMPTY, calls);
            && (Accepted(e, call) <==> Admitted(e, call))
            && (!Accepted(e, call) ==> After(e, call) == e)
            && Valid(After(e, call))
  {
    EarnedRun(calls);
    EarnedStep(Run(EMPTY, calls), call);
  }

  /** Validity alone is not inductive: this valid evidence lets a trigger change it and then report false. */
  lemma ValidIsNotInductive()
    ensures var e := Evidence(50000, 50000, 60000, 1, 1, 50000, 50000, 1, 1, 2, 2, false, true);
            && Valid(e) && !Earned(e) && Admitted(e, Trigger(3, 3))
            && !Accepted(e, Trigger(3, 3)) && After(e, Trigger(3, 3)) != e
  {
  }

  /** From merely valid evidence the trailing check of a trigger fails exactly when its interval is not earned. */
  lemma TriggerFailsExactlyWhenUnearned(e: Evidence, tick: u64, nowUs: u64)
    requires Admitted(e, Trigger(tick, nowUs))
    ensures Accepted(e, Trigger(tick, nowUs)) <==> e.completed * e.workTimeUs + e.elapsedUs <= e.totalWorkUs
  {
    QuotientBound(e.triggered + 1, e.workTimeUs, e.totalWorkUs);
    assert (e.triggered + 1) * e.workTimeUs == e.completed * e.workTimeUs + e.workTimeUs;
  }

  lemma QuotientGrows(n: nat, work: nat, total: nat, more: nat)
    requires work > 0 && n <= total / work && total <= more
    ensures n <= more / work
  {
    QuotientBound(n, work, total);
    QuotientBound(n, work, more);
  }

  /** The trailing check of every call, from valid evidence: only a trigger whose work is not earned can fail it. */
  lemma TrailingCheckFailsExactly(e: Evidence, call: Call)
    requires Admitted(e, call)
    ensures Accepted(e, call) <==> (call.Trigger? ==> e.completed * e.workTimeUs + e.elapsedUs <= e.totalWorkUs)
  {
    match call
    case Trigger(tick, nowUs) => TriggerFailsExactlyWhenUnearned(e, tick, nowUs);
    case Accrue(_, _) =>
      if e.triggered > 0 {
        QuotientGrows(e.triggered, e.workTimeUs, e.totalWorkUs, Changed(e, call).totalWorkUs);
      }
    case _ =>
  }

  // --------------------------------------------------- exact accounting

  /** The last call of a run was accepted. */
  predicate LastTook(calls: seq<Call>) {
    calls != [] && Accepted(Run(EMPTY, calls[..|calls| - 1]), calls[|calls| - 1])
  }

  /** The accepted calls of a run. */
  function Taken(calls: seq<Call>): seq<Call> {
    if calls == [] then []
    else
      var before := Taken(calls[..|calls| - 1]);
      if LastTook(calls) then before + [calls[|calls| - 1]] else before
  }

  predicate EligibleAccrual(call: Call) { call.Accrue? && call.eligible }

  /** The work an accepted call earns: the time of an eligible accrual directly behind an eligible accrual. */
  function Earns(taken: seq<Call>, i: nat): nat
    requires i < |taken|
  {
    if i > 0 && EligibleAccrual(taken[i]) && EligibleAccrual(taken[i - 1]) then taken[i].deltaUs else 0
  }

  /** The work earned by the accepted calls from the given one on. */
  function Worked(taken: seq<Call>, from: nat): nat
    requires from <= |taken|
    decreases |taken|
  {
    if from == |taken| then 0 else Worked(taken[..|taken| - 1], from) + Earns(taken, |taken| - 1)
  }

  /** Behind the last completion, or the beginning. */
  function LastCompletion(taken: seq<Call>): (n: nat)
    ensures n <= |taken|
  {
    if taken == [] then 0
    else if taken[|taken| - 1].Complete? then |taken|
    else LastCompletion(taken[..|taken| - 1])
  }

  function Triggers(taken: seq<Call>): nat {
    if taken == [] then 0 else Triggers(taken[..|taken| - 1]) + if taken[|taken| - 1].Trigger? then 1 else 0
  }

  function Completions(taken: seq<Call>): nat {
    if taken == [] then 0 else Completions(taken[..|taken| - 1]) + if taken[|taken| - 1].Complete? then 1 else 0
  }

  /** The work time of the first accepted Begin, to which every later one is equal. */
  function Duration(taken: seq<Call>): nat {
    if taken == [] then 0 else if taken[|taken| - 1].Begin? then taken[|taken| - 1].duration
    else Duration(taken[..|taken| - 1])
  }

  /** What the evidence of a run is, told by its accepted calls. */
  ghost predicate Accounts(e: Evidence, taken: seq<Call>) {
    && e.workTimeUs == Duration(taken)
    && e.totalWorkUs == Worked(taken, 0)
    && e.elapsedUs == Least(e.workTimeUs, Worked(taken, LastCompletion(taken)))
    && (e.due <==> Timed(e) && Worked(taken, LastCompletion(taken)) >= e.workTimeUs)
    && (!Timed(e) ==> Worked(taken, LastCompletion(taken)) == 0)
    && e.triggered == Triggers(taken) && e.completed == Completions(taken)
    && (e.previousEligible <==> taken != [] && EligibleAccrual(taken[|taken| - 1]))
  }

  /** One more accepted call is accounted for. */
  lemma AccountsStep(e: Evidence, taken: seq<Call>, call: Call)
    requires Earned(e) && Accounts(e, taken) && Admitted(e, call)
    ensures Accounts(Changed(e, call), taken + [call])
  {
    var longer := taken + [call];
    assert longer[..|longer| - 1] == taken;
    assert Worked(longer, |longer|) == 0;
  }

  /**
   Exact accounting: on every run the total is the work of the accepted eligible accruals that directly continue an
   eligible one, the elapsed time is that work since the last completion up to the work time, and the event is due
   exactly when a full work time has been worked since then.
   */
  lemma {:induction false} WorkIsAccounted(calls: seq<Call>)
    ensures Accounts(Run(EMPTY, calls), Taken(calls))
    decreases |calls|
  {
    if calls != [] {
      var before, call := calls[..|calls| - 1], calls[|calls| - 1];
      WorkIsAccounted(before);
      EarnedRun(before);
      RefusalChangesNothing(before, call);
      if LastTook(calls) {
        AccountsStep(Run(EMPTY, before), Taken(before), call);
      }
    }
  }

  /** When a full work time has been worked since the last completion and no event runs, a later trigger is accepted. */
  lemma WorkedIsTriggered(calls: seq<Call>, tick: u64, nowUs: u64)
    requires var taken := Taken(calls);
             && Duration(taken) > 0 && Worked(taken, LastCompletion(taken)) >= Duration(taken)
             && Triggers(taken) == Completions(taken) < MAX64
    requires tick > Run(EMPTY, calls).lastCompleteTick && nowUs > Run(EMPTY, calls).lastCompleteUs
    ensures var e := Run(EMPTY, calls + [Trigger(tick, nowUs)]);
            && Taken(calls + [Trigger(tick, nowUs)]) == Taken(calls) + [Trigger(tick, nowUs)]
            && e.triggered == Triggers(Taken(calls)) + 1 && e.lastTriggerTick == tick && e.lastTriggerUs == nowUs
            && e.lastTriggerTotalUs == Worked(Taken(calls), 0)
  {
    var longer := calls + [Trigger(tick, nowUs)];
    assert longer[..|longer| - 1] == calls;
    WorkIsAccounted(calls);
    EarnedRun(calls);
    RefusalChangesNothing(calls, Trigger(tick, nowUs));
  }

  /** A running event is completed by a call later than its trigger, and the next interval starts at zero. */
  lemma TriggeredIsCompleted(calls: seq<Call>, tick: u64, nowUs: u64)
    requires Triggers(Taken(calls)) == Completions(Taken(calls)) + 1
    requires tick > Run(EMPTY, calls).lastTriggerTick && nowUs > Run(EMPTY, calls).lastTriggerUs
    ensures var e := Run(EMPTY, calls + [Complete(tick, nowUs)]);
            && Taken(calls + [Complete(tick, nowUs)]) == Taken(calls) + [Complete(tick, nowUs)]
            && e.completed == e.triggered && e.elapsedUs == 0 && !e.due
            && e.lastCompleteTick == tick && e.lastCompleteUs == nowUs
  {
    var longer := calls + [Complete(tick, nowUs)];
    assert longer[..|longer| - 1] == calls;
    WorkIsAccounted(calls);
    EarnedRun(calls);
    RefusalChangesNothing(calls, Complete(tick, nowUs));
  }

  /** When a call of a run is accepted, told by the calls accepted before it. */
  lemma CallIsAcceptedExactly(calls: seq<Call>, call: Call)
    ensures var e, taken := Run(EMPTY, calls), Taken(calls);
            LastTook(calls + [call]) <==>
              match call
              case Begin(duration) => ValidWorkTime(duration) && Duration(taken) in {0, duration}
              case Accrue(delta, eligible) =>
                && Duration(taken) > 0 && Triggers(taken) == Completions(taken)
                && (eligible && taken != [] && EligibleAccrual(taken[|taken| - 1]) ==>
                      delta <= MAXIMUM_DELTA_US && Worked(taken, 0) + delta <= MAX64)
              case Trigger(tick, nowUs) =>
                && Duration(taken) > 0 && Worked(taken, LastCompletion(taken)) >= Duration(taken)
                && Triggers(taken) == Completions(taken) < MAX64
                && tick > e.lastCompleteTick && nowUs > e.lastCompleteUs
              case Complete(tick, nowUs) =>
                Triggers(taken) == Completions(taken) + 1 && tick > e.lastTriggerTick && nowUs > e.lastTriggerUs
  {
    var longer := calls + [call];
    assert longer[..|longer| - 1] == calls;
    WorkIsAccounted(calls);
    EarnedRun(calls);
    RefusalChangesNothing(calls, call);
  }

  // -------------------------------------------- FollowsCompletedEvent230

  /** The work-evidence conjuncts of FollowsCompletedEvent230. */
  predicate Follows(a: Evidence, b: Evidence) {
    && Valid(a) && Valid(b)
    && a.workTimeUs != 0 && a.workTimeUs == b.workTimeUs
    && a.triggered == 1 && a.completed == 1 && b.triggered == 2 && b.completed == 2
    && a.elapsedUs == 0 && b.elapsedUs == 0 && !a.due && !b.due && !a.previousEligible && !b.previousEligible
    && a.totalWorkUs == a.lastTriggerTotalUs && b.totalWorkUs == b.lastTriggerTotalUs
    && b.lastTriggerTick > a.lastCompleteTick && b.lastTriggerUs > a.lastCompleteUs
    && b.lastTriggerTotalUs >= a.totalWorkUs && b.lastTriggerTotalUs - a.totalWorkUs >= b.workTimeUs
  }

  /** What is known of the evidence e of a run after its first completion produced a. */
  predicate Since(a: Evidence, e: Evidence) {
    && e.workTimeUs == a.workTimeUs
    && (e.triggered == 1 ==>
          && e.completed == 1 && e.lastTriggerTotalUs == a.totalWorkUs
          && e.lastCompleteTick == a.lastCompleteTick && e.lastCompleteUs == a.lastCompleteUs)
    && (e.triggered == 2 ==>
          && e.lastTriggerTick > a.lastCompleteTick && e.lastTriggerUs > a.lastCompleteUs
          && e.lastTriggerTotalUs >= a.totalWorkUs + e.workTimeUs)
    && e.triggered >= 1
  }

  lemma SinceStep(a: Evidence, e: Evidence, call: Call)
    requires Earned(e) && Timed(e) && Since(a, e)
    ensures Since(a, After(e, call))
  {
  }

  lemma {:induction false} SinceRun(a: Evidence, before: seq<Call>, calls: seq<Call>)
    requires a == Run(EMPTY, before) && Timed(a) && Since(a, a)
    ensures Since(a, Run(a, calls)) && Earned(Run(a, calls))
    decreases |calls|
  {
    if calls == [] {
      EarnedRun(before);
    } else {
      var rest := calls[..|calls| - 1];
      SinceRun(a, before, rest);
      SinceStep(a, Run(a, rest), calls[|calls| - 1]);
      EarnedStep(Run(a, rest), calls[|calls| - 1]);
    }
  }

  /** The call is an accepted CompleteWork that brings the completed events to n. */
  predicate Completes(e: Evidence, call: Call, n: nat) {
    call.Complete? && Accepted(e, call) && After(e, call).completed == n
  }

  lemma FirstCompletion(before: seq<Call>, call: Call)
    requires Completes(Run(EMPTY, before), call, 1)
    ensures var a := After(Run(EMPTY, before), call);
            Timed(a) && Since(a, a) && a.totalWorkUs == a.lastTriggerTotalUs
  {
    EarnedRun(before);
  }

  /**
   A second event earns a whole new interval: snapshots taken at the first and
   at the second completion of any run satisfy every work conjunct of
   FollowsCompletedEvent230.
   */
  lemma SecondEventFollows(before: seq<Call>, first: Call, between: seq<Call>, second: Call)
    requires Completes(Run(EMPTY, before), first, 1)
    requires Completes(Run(After(Run(EMPTY, before), first), between), second, 2)
    ensures var a := After(Run(EMPTY, before), first);
            Follows(a, After(Run(a, between), second))
  {
    var a := After(Run(EMPTY, before), first);
    FirstCompletion(before, first);
    assert (before + [first])[..|before|] == before;
    assert a == Run(EMPTY, before + [first]);
    SinceRun(a, before + [first], between);
    EarnedRun(before);
    EarnedStep(Run(EMPTY, before), first);
    EarnedStep(Run(a, between), second);
  }
}
