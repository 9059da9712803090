/**
 CoreTimerCallbackGate and DrainAndDelete as a transition system: any number of
 timer callbacks enter and leave while one owner stops, drains, deletes the
 timer and detaches Owner.
 */
module CoreTimer {
  import opened Numbers
  import opened Summation

  const STOPPED: nat := 0x8000_0000
  const COUNT_MASK: nat := 0x7FFF_FFFF

  /** m_state: the stop bit above a 31-bit count of admitted handlers. */
  datatype Gate = Gate(stopped: bool, count: int)

  function Pack(g: Gate): int {
    g.count + (if g.stopped then STOPPED else 0)
  }

  predicate Fits(g: Gate) { 0 <= g.count <= COUNT_MASK }

  /** The source's guard on the observed word. */
  predicate Admits(g: Gate) { !g.stopped && g.count != COUNT_MASK }

  /**
   The packed word: the masks read the two parts, the guarded increment and the
   matched decrement stay below the stop bit, and fetch_or only sets it.
   */
  lemma PackedGate(g: Gate, h: Gate)
    requires Fits(g) && Fits(h)
    ensures Pack(g) == Pack(h) <==> g == h
    ensures 0 <= Pack(g) < TWO32 && Pack(g) % STOPPED == g.count && (Pack(g) / STOPPED == 1 <==> g.stopped)
    ensures Admits(g) ==> (Pack(g) + 1) % TWO32 == Pack(g.(count := g.count + 1)) && Fits(g.(count := g.count + 1))
    ensures !Admits(g) && !g.stopped ==> (Pack(g) + 1) % TWO32 == STOPPED
    ensures g.count > 0 ==> Pack(g) - 1 == Pack(g.(count := g.count - 1))
    ensures Pack(g.(stopped := true)) == if g.stopped then Pack(g) else Pack(g) + STOPPED
  {
  }

  /** A callback: outside, between the load and the single CAS attempt, or admitted. */
  datatype Handler = Away | Entering(observed: Gate) | Admitted

  /** The owner's DrainAndDelete. */
  datatype Phase = Running | Draining | Deleting | Detaching | Detached

  datatype State = State(gate: Gate, owner: bool, handle: bool, phase: Phase, handlers: seq<Handler>)

  datatype Event =
    | Arrive(h: nat)          // TryEnter: the load and its guard
    | Compare(h: nat)         // TryEnter: the compare-exchange
    | Finish(h: nat)          // Leave
    | RequestStop             // fetch_or, by the owner or by anyone else
    | Shutdown                // DrainAndDelete begins: RequestStop and the first cancel
    | Poll                    // one ActiveCount load of the wait loop
    | Delete(ok: bool)        // one RtDeleteTimer attempt
    | Detach                  // Owner = nullptr

  predicate Initial(s: State) {
    && s.gate == Gate(false, 0) && s.owner && s.phase == Running
    && forall h :: 0 <= h < |s.handlers| ==> s.handlers[h] == Away
  }

  function Move(s: State, h: nat, gate: Gate, next: Handler): State
    requires h < |s.handlers|
  {
    s.(gate := gate, handlers := s.handlers[h := next])
  }

  function Step(s: State, e: Event): State {
    match e
    case Arrive(h) =>
      if h < |s.handlers| && s.handlers[h].Away? && Admits(s.gate) then Move(s, h, s.gate, Entering(s.gate)) else s
    case Compare(h) =>
      if h >= |s.handlers| || !s.handlers[h].Entering? then s
      else if s.gate == s.handlers[h].observed then Move(s, h, s.gate.(count := s.gate.count + 1), Admitted)
      else Move(s, h, s.gate, Away)
    case Finish(h) =>
      if h < |s.handlers| && s.handlers[h].Admitted? then Move(s, h, s.gate.(count := s.gate.count - 1), Away) else s
    case RequestStop => s.(gate := s.gate.(stopped := true))
    case Shutdown => if s.phase == Running then s.(gate := s.gate.(stopped := true), phase := Draining) else s
    case Poll => if s.phase == Draining && s.gate.count == 0 then s.(phase := Deleting) else s
    case Delete(ok) =>
      if s.phase != Deleting then s
      else if !s.handle then s.(phase := Detaching)
      else if ok then s.(handle := false, phase := Detaching)
      else s
    case Detach => if s.phase == Detaching then s.(owner := false, phase := Detached) else s
  }

  function Run(s: State, events: seq<Event>): State
    decreases |events|
  {
    if events == [] then s else Step(Run(s, events[..|events| - 1]), events[|events| - 1])
  }

  function AdmittedUnit(h: Handler): nat { if h.Admitted? then 1 else 0 }

  predicate Drained(s: State) { s.phase == Deleting || s.phase == Detaching || s.phase == Detached }

  predicate Safe(s: State) {
    && Fits(s.gate)
    && s.gate.count == Sum(s.handlers, AdmittedUnit)
    && (forall h :: 0 <= h < |s.handlers| && s.handlers[h].Entering? ==> Admits(s.handlers[h].observed))
    && (s.phase != Running ==> s.gate.stopped)
    && (Drained(s) ==> s.gate.count == 0)
    && (s.owner <==> s.phase != Detached)
    && (s.phase == Detaching || s.phase == Detached ==> !s.handle)
  }

  /** One handler's step moves the count exactly with its own admission. */
  lemma CountMoves(s: State, h: nat, gate: Gate, next: Handler)
    requires Safe(s) && h < |s.handlers|
    requires gate.count - s.gate.count == AdmittedUnit(next) - AdmittedUnit(s.handlers[h])
    ensures gate.count == Sum(Move(s, h, gate, next).handlers, AdmittedUnit) && gate.count >= AdmittedUnit(next)
  {
    SumUpdate(s.handlers, h, next, AdmittedUnit);
    SumMember(s.handlers[h := next], h, AdmittedUnit);
  }

  lemma SafeMove(s: State, h: nat, gate: Gate, next: Handler)
    requires Safe(s) && h < |s.handlers| && gate.stopped == s.gate.stopped && gate.count <= COUNT_MASK
    requires gate.count - s.gate.count == AdmittedUnit(next) - AdmittedUnit(s.handlers[h])
    requires (next.Entering? ==> Admits(next.observed))
          && (gate.count != s.gate.count ==> s.gate.count > 0 || !s.gate.stopped)
    ensures Safe(Move(s, h, gate, next))
  {
    CountMoves(s, h, gate, next);
    hide Sum;
  }

  lemma SafeStep(s: State, e: Event)
    requires Safe(s)
    ensures Safe(Step(s, e))
  {
    if (e.Arrive? || e.Compare? || e.Finish?) && e.h < |s.handlers| && Step(s, e) != s {
      SumMember(s.handlers, e.h, AdmittedUnit);
      var u := Step(s, e);
      SafeMove(s, e.h, u.gate, u.handlers[e.h]);
    }
  }

  lemma {:induction false} SafeRun(s: State, events: seq<Event>)
    requires Safe(s)
    ensures Safe(Run(s, events))
    decreases |events|
  {
    if events != [] {
      SafeRun(s, events[..|events| - 1]);
      SafeStep(Run(s, events[..|events| - 1]), events[|events| - 1]);
    }
  }

  /** The count is the number of admitted handlers and never carries into the stop bit. */
  lemma CountIsAdmitted(s: State, events: seq<Event>)
    requires Initial(s)
    ensures var r := Run(s, events);
            r.gate.count == Sum(r.handlers, AdmittedUnit) && 0 <= r.gate.count <= COUNT_MASK
  {
    SumZero(s.handlers, AdmittedUnit);
    SafeRun(s, events);
  }

  /**
   Drain safety: once the owner has seen zero after its stop request, no handler
   is admitted and none ever will be, whatever happens next.
   */
  lemma {:induction false} DrainedForever(s: State, events: seq<Event>, later: seq<Event>, h: nat)
    requires Initial(s) && Drained(Run(s, events))
    requires h < |Run(Run(s, events), later).handlers|
    ensures Drained(Run(Run(s, events), later))
    ensures !Run(Run(s, events), later).handlers[h].Admitted?
    decreases |later|
  {
    var r := Run(s, events);
    SumZero(s.handlers, AdmittedUnit);
    SafeRun(s, events);
    SafeRun(r, later);
    StaysDrained(r, later);
    SumMember(Run(r, later).handlers, h, AdmittedUnit);
  }

  lemma {:induction false} StaysDrained(r: State, later: seq<Event>)
    requires Drained(r)
    ensures Drained(Run(r, later))
    decreases |later|
  {
    if later != [] {
      StaysDrained(r, later[..|later| - 1]);
    }
  }

  /** The owner deletes the timer only after it has seen the gate drained. */
  lemma {:induction false} DeletedOnlyDrained(s: State, events: seq<Event>)
    requires Initial(s)
    ensures Run(s, events).handle == s.handle || Run(s, events).phase == Detaching || Run(s, events).phase == Detached
    decreases |events|
  {
    if events != [] {
      DeletedOnlyDrained(s, events[..|events| - 1]);
    }
  }

  /** An admitted handler always finds Owner attached, and the timer that called it not yet deleted. */
  lemma AdmittedSeesOwner(s: State, events: seq<Event>, h: nat)
    requires Initial(s)
    requires h < |Run(s, events).handlers| && Run(s, events).handlers[h].Admitted?
    ensures Run(s, events).owner && !Drained(Run(s, events)) && Run(s, events).handle == s.handle
  {
    SumZero(s.handlers, AdmittedUnit);
    SafeRun(s, events);
    SumMember(Run(s, events).handlers, h, AdmittedUnit);
    DeletedOnlyDrained(s, events);
  }

  // ---------------------------------------------------------------- progress

  lemma {:induction false} RunAppends(s: State, a: seq<Event>, b: seq<Event>)
    ensures Run(s, a + b) == Run(Run(s, a), b)
    decreases |b|
  {
    hide Step;
    if b == [] {
      assert a + b == a;
    } else {
      assert (a + b)[..|a + b| - 1] == a + b[..|b| - 1];
      RunAppends(s, a, b[..|b| - 1]);
    }
  }

  lemma RunTwo(s: State, a: Event, b: Event)
    ensures Run(s, [a, b]) == Step(Step(s, a), b)
  {
    assert [a, b][..1] == [a] && [a][..0] == [];
    assert Run(s, []) == s && Run(s, [a]) == Step(s, a);
  }

  /**
   A callback that nobody interrupts is admitted exactly when no stop has been requested and the count has room;
   Leave then restores the gate, and a refused callback leaves no trace.
   */
  lemma TryEnterAlone(s: State, events: seq<Event>, h: nat)
    requires Initial(s) && h < |Run(s, events).handlers| && Run(s, events).handlers[h].Away?
    ensures var r := Run(s, events);
            var entered := Run(r, [Arrive(h), Compare(h)]);
            if !r.gate.stopped && r.gate.count < COUNT_MASK
            then entered == r.(gate := Gate(false, r.gate.count + 1), handlers := r.handlers[h := Admitted])
                 && Step(entered, Finish(h)) == r
            else entered == r
  {
    var r := Run(s, events);
    RunTwo(r, Arrive(h), Compare(h));
    CountIsAdmitted(s, events);
    var arrived := Step(r, Arrive(h));
    var entered := Step(arrived, Compare(h));
    if Admits(r.gate) {
      assert arrived.handlers[h] == Entering(r.gate) && arrived.gate == r.gate;
      assert r.handlers[h := Entering(r.gate)][h := Admitted] == r.handlers[h := Admitted];
      assert r.handlers[h := Admitted][h := Away] == r.handlers;
    }
  }

  /** Handlers 0 to n - 1 leave. */
  function Leaves(n: nat): seq<Event> { if n == 0 then [] else Leaves(n - 1) + [Finish(n - 1)] }

  lemma {:induction false} AllLeave(s: State, n: nat)
    requires n <= |s.handlers|
    ensures var r := Run(s, Leaves(n));
            && r == s.(gate := r.gate, handlers := r.handlers) && r.gate.stopped == s.gate.stopped
            && |r.handlers| == |s.handlers|
            && (forall h :: 0 <= h < n ==> !r.handlers[h].Admitted?)
            && (forall h :: n <= h < |s.handlers| ==> r.handlers[h] == s.handlers[h])
  {
    if n > 0 {
      AllLeave(s, n - 1);
      assert Leaves(n)[..|Leaves(n)| - 1] == Leaves(n - 1);
    }
  }

  /**
   The drain ends: once shutdown has begun, a pass of Leave over all handlers lets the owner see zero, delete the
   timer and detach Owner.
   */
  lemma DrainCompletes(s: State, events: seq<Event>)
    requires Initial(s) && Run(s, events).phase == Running
    ensures var r := Run(s, events);
            var end := Run(r, [Shutdown] + Leaves(|r.handlers|) + [Poll, Delete(true)] + [Detach]);
            && end.phase == Detached && !end.owner && !end.handle && end.gate == Gate(true, 0)
            && |end.handlers| == |r.handlers| && forall h :: 0 <= h < |end.handlers| ==> !end.handlers[h].Admitted?
  {
    hide Run, Step, Leaves, Safe;
    var r := Run(s, events);
    var leaves := Leaves(|r.handlers|);
    RunningIsSafe(s, events);
    RunAppends(r, [Shutdown] + leaves + [Poll, Delete(true)], [Detach]);
    RunAppends(r, [Shutdown] + leaves, [Poll, Delete(true)]);
    RunAppends(r, [Shutdown], leaves);
    var r1 := Run(r, [Shutdown]);
    ShutdownStarts(r);
    AllLeave(r1, |r.handlers|);
    SafeRun(r1, leaves);
    var r2 := Run(r1, leaves);
    NobodyCounts(r2);
    RunTwo(r2, Poll, Delete(true));
    OwnerFinishes(r2);
    RunOne(Run(r2, [Poll, Delete(true)]), Detach);
  }

  lemma RunOne(s: State, e: Event)
    ensures Run(s, [e]) == Step(s, e)
  {
    assert [e][..0] == [] && Run(s, []) == s;
  }

  lemma RunningIsSafe(s: State, events: seq<Event>)
    requires Initial(s)
    ensures Safe(Run(s, events))
  {
    SumZero(s.handlers, AdmittedUnit);
    SafeRun(s, events);
  }

  lemma ShutdownStarts(r: State)
    requires Safe(r) && r.phase == Running
    ensures Run(r, [Shutdown]) == r.(gate := Gate(true, r.gate.count), phase := Draining) && Safe(Run(r, [Shutdown]))
  {
    RunOne(r, Shutdown);
    SafeStep(r, Shutdown);
  }

  lemma NobodyCounts(r: State)
    requires Safe(r) && forall h :: 0 <= h < |r.handlers| ==> !r.handlers[h].Admitted?
    ensures r.gate.count == 0
  {
    SumZero(r.handlers, AdmittedUnit);
  }

  lemma OwnerFinishes(r: State)
    requires r.phase == Draining && r.gate.count == 0
    ensures Step(Step(Step(r, Poll), Delete(true)), Detach) == r.(phase := Detached, handle := false, owner := false)
  {
  }
}
