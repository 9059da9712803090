/**
 EDM157 pause transaction: HOLD, retreat along the path, return to the machining
 anchor, and resume.  The flush and nominal-work receipts are answers of the
 environment; everything the transaction itself keeps is modelled.
 */
module GapPause {
  import opened Numbers

  const REQUIRED_STABLE_CYCLES: nat := 200
  const MAXIMUM_SOURCE_AGE_US: nat := 1500
  const ROUNDOFF: real := 64.0 / 4503599627370496.0

  datatype Phase =
    | Idle | Braking | Qualifying | Held | Resuming | Running | Rejected
    | Retreating | TopQualifying | Returning | ReturnQualifying | Rebraking | Requalifying

  /** The phases that hold machining, and those of them that demand zero output. */
  predicate Holding(p: Phase) { !p.Idle? && !p.Running? && !p.Rejected? }

  predicate ZeroPhase(p: Phase) {
    p.Qualifying? || p.Held? || p.Resuming? || p.TopQualifying? || p.ReturnQualifying? || p.Requalifying?
  }

  datatype Source = Source(valid: bool, scopeId: nat, id: nat, ordinal: nat)
  datatype Cursor = Cursor(source: Source, localMm: real)

  /** Everything SamePose compares. */
  datatype Pose = Pose(cursor: Cursor, stationMm: real, depth: nat, positionPulse: seq<real>)

  const NO_SOURCE := Source(false, 0, 0, 0)
  const ORIGIN := Pose(Cursor(NO_SOURCE, 0.0), 0.0, 0, [])

  /** pathProfile: no commissioning profile and hold-retreat mode 1. */
  datatype Scope = Scope(valid: bool, authorized: Source, pathProfile: bool, jumpHeightMm: real, binding: nat)

  const NO_SCOPE := Scope(false, NO_SOURCE, false, 0.0, 0)

  /** A mapped traversal image; live: active and neither faulted nor stopped nor asked to stop. */
  datatype Image = Image(
    live: bool, authorized: Source, pose: Pose, lengthMm: real,
    velocityMmSec: real, velocityPps: seq<real>, tick: u64, nowUs: u64)

  predicate Zero(f: Image) { f.velocityMmSec == 0.0 && forall v :: v in f.velocityPps ==> v == 0.0 }

  predicate ValidMapped(scope: Scope, f: Image) {
    var source := f.pose.cursor.source;
    && scope.valid && f.live && f.authorized == scope.authorized
    && source.valid && source.scopeId == scope.authorized.scopeId && source.ordinal <= scope.authorized.ordinal
    && f.pose.depth == scope.authorized.ordinal - source.ordinal
    && f.tick != 0 && f.nowUs != 0
    && f.lengthMm > 0.0 && 0.0 <= f.pose.cursor.localMm <= f.lengthMm && f.pose.stationMm >= 0.0
  }

  function Abs(x: real): real { if x < 0.0 then -x else x }

  function Larger(x: real, y: real): real { if x < y then y else x }

  function Roundoff(scale: real): real { ROUNDOFF * Larger(1.0, Abs(scale)) }

  predicate HeightClose(a: real, b: real) { Abs(a - b) <= Roundoff(Larger(Abs(a), Abs(b))) }

  /** The part of the source's Feedback that HOLD, START, capture and planning write. */
  datatype Feedback = Feedback(
    scope: Scope, holdSequence: u64, startFloor: u64, resumeStartSequence: u64, rejectedStartSequence: u64, pose: Pose,
    retreatTarget: Cursor, retreatPositionPulse: seq<real>, retreatStationMm: real,
    anchorCaptured: bool, retreatPlanned: bool, retreatUnavailable: bool, interrupted: bool, flushPause: bool)

  const NO_FEEDBACK := Feedback(
    NO_SCOPE, 0, 0, 0, 0, ORIGIN, Cursor(NO_SOURCE, 0.0), [], 0.0, false, false, false, false, false)

  /** The part of it that images and proofs advance, with lastProofTick. */
  datatype Progress = Progress(
    phase: Phase, stableCycles: nat, tick: u64, nowUs: u64, resumeSeedTick: u64,
    topCaptured: bool, exactReturn: bool, lastProofTick: u64)

  const NO_PROGRESS := Progress(Idle, 0, 0, 0, 0, false, false, 0)

  /** The fields of a Transaction. */
  datatype State = State(f: Feedback, p: Progress, anchorCursor: Cursor, rest: Pose)

  const CLEARED := State(NO_FEEDBACK, NO_PROGRESS, Cursor(NO_SOURCE, 0.0), ORIGIN)

  predicate PathReturn(f: Feedback) { !f.flushPause && f.scope.pathProfile }

  function Next(tick: u64): u64 { if tick == MAX64 then 0 else tick + 1 }

  // ------------------------------------------------ the calls as functions

  function WithPhase(p: Progress, phase: Phase): Progress {
    p.(phase := phase, stableCycles := 0, resumeSeedTick := 0, lastProofTick := 0)
  }

  function Refused(p: Progress, tick: u64, nowUs: u64): Progress {
    WithPhase(p, Rejected).(tick := tick, nowUs := nowUs)
  }

  function Captured(s: State, f: Image): State {
    s.(f := s.f.(pose := f.pose), anchorCursor := f.pose.cursor)
  }

  predicate RestIsAnchor(s: State) {
    s.rest.cursor == s.anchorCursor && s.rest.stationMm == s.f.pose.stationMm
    && s.rest.depth == s.f.pose.depth && s.rest.positionPulse == s.f.pose.positionPulse
  }

  predicate NeedsRetreatPlan(s: State) {
    PathReturn(s.f) && s.p.phase.Qualifying? && s.f.anchorCaptured && !s.f.retreatPlanned && !s.f.retreatUnavailable
  }

  datatype Hold = Hold(
    scope: Scope, holdSequence: u64, startFloor: u64, tick: u64, nowUs: u64, committed: Image,
    flush: bool, admitted: bool, receiptsValid: bool)

  /** The guards of BeginHold; admitted stands for those on the flush and nominal-work receipts. */
  predicate HoldAdmitted(s: State, h: Hold) {
    && h.admitted && !(Holding(s.p.phase) && h.scope != s.f.scope)
    && !(Holding(s.p.phase) && s.f.flushPause != h.flush)
    && h.startFloor >= s.f.startFloor && h.startFloor >= s.f.resumeStartSequence
    && h.startFloor >= s.f.rejectedStartSequence
    && ValidMapped(h.scope, h.committed) && h.holdSequence != 0 && h.holdSequence > s.f.holdSequence
    && h.tick != 0 && h.nowUs != 0 && h.committed.tick <= h.tick <= h.committed.tick + 1
    && h.committed.nowUs <= h.nowUs <= h.committed.nowUs + MAXIMUM_SOURCE_AGE_US && !s.p.phase.Rejected?
  }

  /** A HOLD that stops an excursion instead of capturing a new pose. */
  predicate StopsExcursion(s: State) { PathReturn(s.f) && Holding(s.p.phase) && s.f.anchorCaptured }

  function AfterHold(s: State, h: Hold): State {
    if !HoldAdmitted(s, h) then s
    else if StopsExcursion(s) then
      s.(f := s.f.(holdSequence := h.holdSequence, startFloor := h.startFloor, resumeStartSequence := 0,
                   rejectedStartSequence := 0, interrupted := true),
         p := WithPhase(s.p, Rebraking).(exactReturn := false, tick := h.tick, nowUs := h.nowUs))
    else
      Captured(s.(f := NO_FEEDBACK.(scope := h.scope, holdSequence := h.holdSequence, startFloor := h.startFloor,
                                    flushPause := h.flush),
                  p := NO_PROGRESS.(phase := Braking, tick := h.tick, nowUs := h.nowUs)), h.committed)
  }

  predicate HoldReturns(s: State, h: Hold) {
    HoldAdmitted(s, h) && (StopsExcursion(s) || h.receiptsValid)
  }

  datatype Resume = Resume(scope: Scope, contextValid: bool, holdSequence: u64, startSequence: u64, tick: u64,
      nowUs: u64)

  predicate ResumeAccepted(s: State, r: Resume) {
    && r.scope.valid && r.scope == s.f.scope && r.contextValid && !(s.f.flushPause && !s.f.anchorCaptured)
    && s.p.phase.Held? && s.p.stableCycles >= REQUIRED_STABLE_CYCLES && r.holdSequence == s.f.holdSequence
    && r.startSequence != 0 && r.startSequence > s.f.startFloor && r.startSequence > s.f.rejectedStartSequence
    && s.p.lastProofTick != 0 && s.p.lastProofTick <= r.tick <= s.p.lastProofTick + 1
    && s.p.nowUs <= r.nowUs <= s.p.nowUs + MAXIMUM_SOURCE_AGE_US
  }

  function AfterResume(s: State, r: Resume): State {
    if !ResumeAccepted(s, r) then s
    else
      s.(f := s.f.(resumeStartSequence := r.startSequence),
         p := if PathReturn(s.f) && !RestIsAnchor(s) then WithPhase(s.p, Returning)
              else s.p.(phase := Resuming, resumeSeedTick := 0, exactReturn := PathReturn(s.f) || s.p.exactReturn))
  }

  function AfterRejectStart(s: State, startSequence: u64): State {
    if startSequence > s.f.rejectedStartSequence then s.(f := s.f.(rejectedStartSequence := startSequence)) else s
  }

  datatype Plan = Plan(target: Cursor, positionPulse: seq<real>, stationMm: real)

  predicate PlanAccepted(s: State, p: Plan) {
    && NeedsRetreatPlan(s) && p.target.source.valid && p.target.source.scopeId == s.f.scope.authorized.scopeId
    && p.target.source.ordinal <= s.f.pose.cursor.source.ordinal && p.target.localMm >= 0.0
    && 0.0 <= p.stationMm < s.f.pose.stationMm
    && HeightClose(s.f.pose.stationMm - p.stationMm, s.f.scope.jumpHeightMm)
  }

  function AfterPlan(s: State, p: Plan): State {
    if PlanAccepted(s, p) then
      s.(f := s.f.(retreatTarget := p.target, retreatPositionPulse := p.positionPulse, retreatStationMm := p.stationMm,
                   retreatPlanned := true))
    else s
  }

  function AfterUnavailable(s: State): State {
    if NeedsRetreatPlan(s) then s.(f := s.f.(retreatUnavailable := true)) else s
  }

  predicate ExactTarget(s: State, f: Image) {
    f.pose.cursor == s.f.retreatTarget && f.pose.stationMm == s.f.retreatStationMm
    && f.pose.positionPulse == s.f.retreatPositionPulse
  }

  /** The station and direction bounds of an image on the excursion. */
  predicate OnExcursion(s: State, f: Image) {
    var tolerance := Roundoff(s.f.pose.stationMm);
    && s.f.retreatPlanned && s.f.retreatStationMm - tolerance <= f.pose.stationMm <= s.f.pose.stationMm + tolerance
    && (if s.p.phase.Retreating? then f.velocityMmSec <= 0.0 else f.velocityMmSec >= 0.0)
  }

  /** Seeds the resume tick and dates the feedback with an accepted image. */
  function Dated(p: Progress, f: Image): Progress {
    p.(resumeSeedTick := if p.phase.Resuming? && p.resumeSeedTick == 0 then f.tick else p.resumeSeedTick,
       tick := f.tick, nowUs := f.nowUs)
  }

  predicate PathImageAccepted(s: State, f: Image) {
    match s.p.phase
    case Braking => true
    case Rebraking => true
    case Retreating => OnExcursion(s, f)
    case Returning => OnExcursion(s, f)
    case _ => Zero(f) && f.pose == s.rest
  }

  /** The phase in which an image ends a movement, if it does. */
  function Stopped(s: State, f: Image): Phase {
    if !Zero(f) then s.p.phase
    else match s.p.phase
      case Braking => Qualifying
      case Rebraking => Requalifying
      case Retreating => if ExactTarget(s, f) then TopQualifying else Retreating
      case Returning => if f.pose == s.f.pose then ReturnQualifying else Returning
      case _ => s.p.phase
  }

  function PathMoved(s: State, f: Image): State {
    var phase := Stopped(s, f);
    var t := if s.p.phase.Braking? then Captured(s, f) else s;
    if phase == s.p.phase then t
    else t.(f := t.f.(anchorCaptured := s.p.phase.Braking? || t.f.anchorCaptured),
            p := WithPhase(t.p, phase), rest := f.pose)
  }

  /** Outside path return; atRest: the rest checks of a flush dwell, when one is held, are met. */
  predicate PlainImageAccepted(s: State, f: Image, atRest: bool) {
    (s.f.flushPause ==> atRest) && (s.p.phase.Braking? || (Zero(f) && f.pose == s.f.pose))
  }

  function PlainMoved(s: State, f: Image): State {
    if !s.p.phase.Braking? then s
    else
      var t := Captured(s, f);
      if Zero(f) then t.(f := t.f.(anchorCaptured := t.f.flushPause),
                         p := t.p.(phase := Qualifying, stableCycles := 0, lastProofTick := 0))
      else t
  }

  predicate ImageAccepted(s: State, scope: Scope, f: Image, atRest: bool) {
    && Holding(s.p.phase) && scope == s.f.scope && ValidMapped(scope, f) && f.tick >= s.p.tick && f.nowUs >= s.p.nowUs
    && if PathReturn(s.f) then PathImageAccepted(s, f) else PlainImageAccepted(s, f, atRest)
  }

  function AfterImage(s: State, scope: Scope, f: Image, atRest: bool): State {
    if !Holding(s.p.phase) then s
    else if !ImageAccepted(s, scope, f, atRest) then s.(p := Refused(s.p, f.tick, f.nowUs))
    else
      var t := if PathReturn(s.f) then PathMoved(s, f) else PlainMoved(s, f);
      t.(p := Dated(t.p, f))
  }

  /** A proof counts when it is valid and of the latest image, one tick after the proof before it. */
  predicate ProofCounts(p: Progress, valid: bool, tick: u64, nowUs: u64) {
    valid && tick == p.tick && nowUs == p.nowUs && (p.lastProofTick == 0 || tick == Next(p.lastProofTick))
  }

  function Counted(p: Progress, tick: u64): Progress {
    p.(stableCycles := if p.stableCycles < REQUIRED_STABLE_CYCLES then p.stableCycles + 1 else p.stableCycles,
       lastProofTick := tick)
  }

  function Acknowledged(p: Progress, tick: u64): Progress {
    if p.phase.Resuming? && p.resumeSeedTick != 0 && tick > p.resumeSeedTick then p.(phase := Running) else p
  }

  function PathQualified(f: Feedback, p: Progress): Progress {
    if p.stableCycles < REQUIRED_STABLE_CYCLES then p
    else match p.phase
      case Qualifying =>
        if f.retreatPlanned then WithPhase(p, Retreating) else if f.retreatUnavailable then p.(phase := Held) else p
      case TopQualifying => p.(topCaptured := true, phase := Held)
      case ReturnQualifying => p.(exactReturn := true, phase := Resuming, resumeSeedTick := 0)
      case Requalifying => p.(phase := Held)
      case _ => p
  }

  function PlainQualified(p: Progress): Progress {
    if p.phase.Qualifying? && p.stableCycles >= REQUIRED_STABLE_CYCLES then p.(phase := Held) else p
  }

  function AfterBadProof(f: Feedback, p: Progress, tick: u64, nowUs: u64): Progress {
    if p.phase.Resuming? then Refused(p, tick, nowUs)
    else p.(stableCycles := 0, phase := if PathReturn(f) then p.phase else Qualifying, lastProofTick := 0)
  }

  function Proven(f: Feedback, p: Progress, valid: bool, tick: u64, nowUs: u64): Progress {
    if !ZeroPhase(p.phase) then p
    else if !ProofCounts(p, valid, tick, nowUs) then AfterBadProof(f, p, tick, nowUs)
    else
      var counted := Counted(p, tick);
      Acknowledged(if PathReturn(f) then PathQualified(f, counted) else PlainQualified(counted), tick)
  }

  function AfterProof(s: State, valid: bool, tick: u64, nowUs: u64): State {
    s.(p := Proven(s.f, s.p, valid, tick, nowUs))
  }

  // ------------------------------------------------------- the transaction

  class Transaction {
    var feedback: Feedback
    var progress: Progress
    var anchorCursor: Cursor
    var rest: Pose

    function Snapshot(): State
      reads this
    {
      State(feedback, progress, anchorCursor, rest)
    }

    constructor ()
      ensures Snapshot() == CLEARED
    {
      feedback, progress, anchorCursor, rest := NO_FEEDBACK, NO_PROGRESS, Cursor(NO_SOURCE, 0.0), ORIGIN;
    }

    method Clear()
      modifies this
      ensures Snapshot() == CLEARED
    {
      feedback, progress, anchorCursor, rest := NO_FEEDBACK, NO_PROGRESS, Cursor(NO_SOURCE, 0.0), ORIGIN;
    }

    method SetPhase(phase: Phase)
      modifies this`progress
      ensures progress == WithPhase(old(progress), phase)
    {
      progress := progress.(phase := phase, stableCycles := 0, resumeSeedTick := 0, lastProofTick := 0);
    }

    method Reject(tick: u64, nowUs: u64)
      modifies this`progress
      ensures progress == Refused(old(progress), tick, nowUs)
    {
      progress := progress.(phase := Rejected, stableCycles := 0, resumeSeedTick := 0, tick := tick, nowUs := nowUs);
      progress := progress.(lastProofTick := 0);
    }

    method Capture(f: Image)
      modifies this`feedback, this`anchorCursor
      ensures feedback == old(feedback).(pose := f.pose) && anchorCursor == f.pose.cursor
    {
      feedback := feedback.(pose := f.pose);
      anchorCursor := f.pose.cursor;
    }

    method BeginHold(h: Hold) returns (ok: bool)
      modifies this
      ensures Snapshot() == AfterHold(old(Snapshot()), h)
      ensures ok == HoldReturns(old(Snapshot()), h)
    {
      if !HoldAdmitted(Snapshot(), h) {
        return false;
      }
      if StopsExcursion(Snapshot()) {
        feedback := feedback.(holdSequence := h.holdSequence, startFloor := h.startFloor);
        feedback := feedback.(resumeStartSequence := 0, rejectedStartSequence := 0, interrupted := true);
        progress := progress.(exactReturn := false);
        SetPhase(Rebraking);
        progress := progress.(tick := h.tick, nowUs := h.nowUs);
        return true;
      }
      feedback := NO_FEEDBACK.(scope := h.scope, holdSequence := h.holdSequence, startFloor := h.startFloor);
      progress := NO_PROGRESS.(phase := Braking, tick := h.tick, nowUs := h.nowUs);
      if h.flush {
        feedback := feedback.(flushPause := true);
      }
      Capture(h.committed);
      return h.receiptsValid;
    }

    method BeginResume(r: Resume) returns (ok: bool)
      modifies this
      ensures Snapshot() == AfterResume(old(Snapshot()), r)
      ensures ok == ResumeAccepted(old(Snapshot()), r)
    {
      if !ResumeAccepted(Snapshot(), r) {
        return false;
      }
      feedback := feedback.(resumeStartSequence := r.startSequence);
      if PathReturn(feedback) && !RestIsAnchor(Snapshot()) {
        SetPhase(Returning);
      } else {
        progress := progress.(phase := Resuming, resumeSeedTick := 0);
        if PathReturn(feedback) {
          progress := progress.(exactReturn := true);
        }
      }
      return true;
    }

    method RejectStart(startSequence: u64)
      modifies this`feedback
      ensures Snapshot() == AfterRejectStart(old(Snapshot()), startSequence)
    {
      if startSequence > feedback.rejectedStartSequence {
        feedback := feedback.(rejectedStartSequence := startSequence);
      }
    }

    method PlanRetreat(p: Plan) returns (ok: bool)
      modifies this`feedback
      ensures Snapshot() == AfterPlan(old(Snapshot()), p) && ok == PlanAccepted(old(Snapshot()), p)
    {
      if !PlanAccepted(Snapshot(), p) {
        return false;
      }
      feedback := feedback.(retreatTarget := p.target, retreatPositionPulse := p.positionPulse);
      feedback := feedback.(retreatStationMm := p.stationMm, retreatPlanned := true);
      return true;
    }

    method PlanRetreatUnavailable() returns (ok: bool)
      modifies this`feedback
      ensures Snapshot() == AfterUnavailable(old(Snapshot())) && ok == NeedsRetreatPlan(old(Snapshot()))
    {
      if !NeedsRetreatPlan(Snapshot()) {
        return false;
      }
      feedback := feedback.(retreatUnavailable := true);
      return true;
    }

    method Date(f: Image)
      modifies this`progress
      ensures progress == Dated(old(progress), f)
    {
      if progress.phase.Resuming? && progress.resumeSeedTick == 0 {
        progress := progress.(resumeSeedTick := f.tick);
      }
      progress := progress.(tick := f.tick, nowUs := f.nowUs);
    }

    method ObservePathMapped(f: Image, zero: bool) returns (ok: bool)
      requires zero == Zero(f)
      modifies this
      ensures ok == PathImageAccepted(old(Snapshot()), f)
      ensures ok ==> Snapshot() == PathMoved(old(Snapshot()), f).(p := Dated(PathMoved(old(Snapshot()), f).p, f))
      ensures !ok ==> Snapshot() == old(Snapshot()).(p := Refused(old(progress), f.tick, f.nowUs))
    {
      var phase := progress.phase;
      if phase.Braking? {
        Capture(f);
        if zero {
          feedback := feedback.(anchorCaptured := true);
          rest := f.pose;
          SetPhase(Qualifying);
        }
      } else if phase.Rebraking? {
        if zero {
          rest := f.pose;
          SetPhase(Requalifying);
        }
      } else if phase.Retreating? || phase.Returning? {
        if !OnExcursion(Snapshot(), f) {
          Reject(f.tick, f.nowUs);
          return false;
        }
        if zero && (if phase.Retreating? then ExactTarget(Snapshot(), f) else f.pose == feedback.pose) {
          rest := f.pose;
          SetPhase(if phase.Retreating? then TopQualifying else ReturnQualifying);
        }
      } else if !zero || f.pose != rest {
        Reject(f.tick, f.nowUs);
        return false;
      }
      Date(f);
      return true;
    }

    method ObserveMapped(scope: Scope, f: Image, atRest: bool) returns (ok: bool)
      modifies this
      ensures Snapshot() == AfterImage(old(Snapshot()), scope, f, atRest)
      ensures ok == if Holding(old(progress).phase) then ImageAccepted(old(Snapshot()), scope, f, atRest)
                    else !old(progress).phase.Rejected?
    {
      if !Holding(progress.phase) {
        return progress.phase.Idle? || progress.phase.Running?;
      }
      if scope != feedback.scope || !ValidMapped(scope, f) || f.tick < progress.tick || f.nowUs < progress.nowUs {
        Reject(f.tick, f.nowUs);
        return false;
      }
      var zero := Zero(f);
      if PathReturn(feedback) {
        ok := ObservePathMapped(f, zero);
        return;
      }
      if feedback.flushPause && !atRest {
        Reject(f.tick, f.nowUs);
        return false;
      }
      if progress.phase.Braking? {
        Capture(f);
        if zero {
          feedback := feedback.(anchorCaptured := feedback.flushPause);
          progress := progress.(phase := Qualifying, stableCycles := 0, lastProofTick := 0);
        }
      } else if !zero || f.pose != feedback.pose {
        Reject(f.tick, f.nowUs);
        return false;
      }
      Date(f);
      return true;
    }

    method QualifyPath()
      modifies this`progress
      ensures progress == PathQualified(feedback, old(progress))
    {
      if progress.stableCycles >= REQUIRED_STABLE_CYCLES {
        if progress.phase.Qualifying? {
          if feedback.retreatPlanned {
            SetPhase(Retreating);
          } else if feedback.retreatUnavailable {
            progress := progress.(phase := Held);
          }
        } else if progress.phase.TopQualifying? {
          progress := progress.(topCaptured := true, phase := Held);
        } else if progress.phase.ReturnQualifying? {
          progress := progress.(exactReturn := true, phase := Resuming, resumeSeedTick := 0);
        } else if progress.phase.Requalifying? {
          progress := progress.(phase := Held);
        }
      }
    }

    method ObserveProof(valid: bool, tick: u64, nowUs: u64)
      modifies this`progress
      ensures Snapshot() == AfterProof(old(Snapshot()), valid, tick, nowUs)
    {
      if !ZeroPhase(progress.phase) {
        return;
      }
      if !ProofCounts(progress, valid, tick, nowUs) {
        if progress.phase.Resuming? {
          Reject(tick, nowUs);
          return;
        }
        if !PathReturn(feedback) {
          progress := progress.(phase := Qualifying);
        }
        progress := progress.(stableCycles := 0, lastProofTick := 0);
        return;
      }
      progress := progress.(lastProofTick := tick);
      if progress.stableCycles < REQUIRED_STABLE_CYCLES {
        progress := progress.(stableCycles := progress.stableCycles + 1);
      }
      if PathReturn(feedback) {
        QualifyPath();
      } else if progress.phase.Qualifying? && progress.stableCycles >= REQUIRED_STABLE_CYCLES {
        progress := progress.(phase := Held);
      }
      if progress.phase.Resuming? && progress.resumeSeedTick != 0 && tick > progress.resumeSeedTick {
        progress := progress.(phase := Running);
      }
    }
  }
}
