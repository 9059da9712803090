/**
 Runs of the pause transaction: what every sequence of calls keeps.  A run
 carries the latest accepted image, the images proved since the last reset, and
 the HOLD and START sequences accepted since the last Clear.
 */
module GapPauseRuns {
  import opened GapPause
  import opened Numbers

  datatype Call =
    | Clears
    | Holds(hold: Hold)
    | Resumes(resume: Resume)
    | RejectsStart(startSequence: u64)
    | Plans(plan: Plan)
    | HasNoPlan
    | Maps(scope: Scope, image: Image, atRest: bool)
    | Proves(valid: bool, tick: u64, nowUs: u64)

  datatype Sys = Sys(t: State, image: Image, proofs: seq<Image>, holds: seq<u64>, starts: seq<u64>)

  const NO_IMAGE := Image(false, NO_SOURCE, ORIGIN, 0.0, 0.0, [], 0, 0)

  const START := Sys(CLEARED, NO_IMAGE, [], [], [])

  function After(t: State, call: Call): State {
    match call
    case Clears => CLEARED
    case Holds(hold) => AfterHold(t, hold)
    case Resumes(resume) => AfterResume(t, resume)
    case RejectsStart(startSequence) => AfterRejectStart(t, startSequence)
    case Plans(plan) => AfterPlan(t, plan)
    case HasNoPlan => AfterUnavailable(t)
    case Maps(scope, image, atRest) => AfterImage(t, scope, image, atRest)
    case Proves(valid, tick, nowUs) => AfterProof(t, valid, tick, nowUs)
  }

  predicate Counts(t: State, call: Call) {
    call.Proves? && ZeroPhase(t.p.phase) && ProofCounts(t.p, call.valid, call.tick, call.nowUs)
  }

  function Step(s: Sys, call: Call): Sys {
    var t := After(s.t, call);
    if call.Clears? then START
    else
      Sys(t,
          if call.Maps? && ImageAccepted(s.t, call.scope, call.image, call.atRest) then call.image else s.image,
          if t.p.lastProofTick == 0 then [] else if Counts(s.t, call) then s.proofs + [s.image] else s.proofs,
          if call.Holds? && HoldAdmitted(s.t, call.hold) then s.holds + [call.hold.holdSequence] else s.holds,
          if call.Resumes? && ResumeAccepted(s.t, call.resume) then s.starts + [call.resume.startSequence]
              else s.starts)
  }

  function Run(s: Sys, calls: seq<Call>): Sys
    decreases |calls|
  {
    if calls == [] then s else Step(Run(s, calls[..|calls| - 1]), calls[|calls| - 1])
  }

  // -------------------------------------------------------------- at rest

  /** Where a zero-output phase must stand still. */
  function RestPose(t: State): Pose { if PathReturn(t.f) then t.rest else t.f.pose }

  predicate PathPhase(p: Phase) {
    p.Retreating? || p.TopQualifying? || p.Returning? || p.ReturnQualifying? || p.Rebraking? || p.Requalifying?
  }

  predicate AtRest(s: Sys) {
    && s.image.tick == s.t.p.tick != 0 && s.image.nowUs == s.t.p.nowUs
    && Zero(s.image) && s.image.pose == RestPose(s.t)
  }

  /** In a zero-output phase the latest image stands still at the rest pose; resuming, that is the anchor. */
  predicate Rested(s: Sys) {
    && (ZeroPhase(s.t.p.phase) ==> AtRest(s))
    && (Holding(s.t.p.phase) ==> s.t.anchorCursor == s.t.f.pose.cursor)
    && (PathReturn(s.t.f) && Holding(s.t.p.phase) ==> s.t.f.anchorCaptured || s.t.p.phase.Braking?)
    && (PathPhase(s.t.p.phase) ==> PathReturn(s.t.f))
    && (PathReturn(s.t.f) && s.t.p.phase.ReturnQualifying? ==> s.t.rest == s.t.f.pose)
    && (PathReturn(s.t.f) && s.t.p.phase.Resuming? ==> s.t.rest == s.t.f.pose && s.t.p.exactReturn)
  }

  lemma RestedHold(s: Sys, call: Call)
    requires Rested(s) && call.Holds?
    ensures Rested(Step(s, call))
  {
    hide OnExcursion, Roundoff, HeightClose;
  }

  lemma RestedResume(s: Sys, call: Call)
    requires Rested(s) && call.Resumes?
    ensures Rested(Step(s, call))
  {
  }

  lemma RestedPathImage(s: Sys, call: Call)
    requires Rested(s) && call.Maps? && PathReturn(s.t.f)
    ensures Rested(Step(s, call))
  {
    hide OnExcursion, Roundoff, HeightClose;
  }

  lemma RestedPlainImage(s: Sys, call: Call)
    requires Rested(s) && call.Maps? && !PathReturn(s.t.f)
    ensures Rested(Step(s, call))
  {
    hide OnExcursion, Roundoff, HeightClose;
  }

  lemma RestedImage(s: Sys, call: Call)
    requires Rested(s) && call.Maps?
    ensures Rested(Step(s, call))
  {
    if PathReturn(s.t.f) {
      RestedPathImage(s, call);
    } else {
      RestedPlainImage(s, call);
    }
  }

  lemma RestedProof(s: Sys, call: Call)
    requires Rested(s) && call.Proves?
    ensures Rested(Step(s, call))
  {
    hide OnExcursion, Roundoff, HeightClose;
  }

  lemma RestedStep(s: Sys, call: Call)
    requires Rested(s)
    ensures Rested(Step(s, call))
  {
    match call
    case Holds(_) => RestedHold(s, call);
    case Resumes(_) => RestedResume(s, call);
    case Maps(_, _, _) => RestedImage(s, call);
    case Proves(_, _, _) => RestedProof(s, call);
    case _ =>
  }

  // ------------------------------------------------------------- evidence

  ghost predicate Consecutive(images: seq<Image>) {
    forall i :: 0 < i < |images| ==> images[i].tick == images[i - 1].tick + 1
  }

  ghost predicate Still(images: seq<Image>, pose: Pose) {
    forall f :: f in images ==> Zero(f) && f.pose == pose && f.tick != 0
  }

  /** The counter and the last tick are those of the images proved since the last reset. */
  ghost predicate Proved(s: Sys) {
    && (s.t.p.lastProofTick == 0 <==> s.proofs == [])
    && s.t.p.stableCycles == Least(|s.proofs|, REQUIRED_STABLE_CYCLES)
    && (s.proofs != [] ==> s.proofs[|s.proofs| - 1].tick == s.t.p.lastProofTick)
    && Consecutive(s.proofs)
    && (s.proofs != [] ==> ZeroPhase(s.t.p.phase) || s.t.p.phase.Running?)
    && Still(s.proofs, RestPose(s.t))
  }

  lemma ProvedHold(s: Sys, call: Call)
    requires Rested(s) && Proved(s) && call.Holds?
    ensures Proved(Step(s, call))
  {
  }

  /** An accepted image either starts the count anew or leaves the count and the rest pose alone. */
  lemma ImageKeepsCount(t: State, scope: Scope, f: Image, atRest: bool)
    ensures var u := AfterImage(t, scope, f, atRest);
            || (u.p.lastProofTick == 0 && u.p.stableCycles == 0)
            || (u.p.lastProofTick == t.p.lastProofTick && u.p.stableCycles == t.p.stableCycles
                && (t.p.phase.Braking? || (u.p.phase == t.p.phase && RestPose(u) == RestPose(t))))
  {
  }

  lemma ProvedKept(s: Sys, u: Sys)
    requires Proved(s)
    requires u.proofs == if u.t.p.lastProofTick == 0 then [] else s.proofs
    requires || (u.t.p.lastProofTick == 0 && u.t.p.stableCycles == 0)
             || (u.t.p.lastProofTick == s.t.p.lastProofTick && u.t.p.stableCycles == s.t.p.stableCycles
                 && (s.t.p.phase.Braking?
                     || ((u.t.p.phase == s.t.p.phase || ZeroPhase(u.t.p.phase)) && RestPose(u.t) == RestPose(s.t))))
    ensures Proved(u)
  {
  }

  lemma ResumeKeepsCount(t: State, r: Resume)
    ensures var u := AfterResume(t, r);
            || (u.p.lastProofTick == 0 && u.p.stableCycles == 0)
            || (u.p.lastProofTick == t.p.lastProofTick && u.p.stableCycles == t.p.stableCycles
                && (u.p.phase == t.p.phase || ZeroPhase(u.p.phase)) && RestPose(u) == RestPose(t))
  {
  }

  lemma ProvedResume(s: Sys, call: Call)
    requires Proved(s) && call.Resumes?
    ensures Proved(Step(s, call))
  {
    hide Proved, AfterResume, ResumeAccepted;
    ResumeKeepsCount(s.t, call.resume);
    ProvedKept(s, Step(s, call));
  }

  lemma ProvedImage(s: Sys, call: Call)
    requires Proved(s) && call.Maps?
    ensures Proved(Step(s, call))
  {
    ImageKeepsCount(s.t, call.scope, call.image, call.atRest);
    ProvedKept(s, Step(s, call));
  }

  /** A counted proof adds one, or its phase change starts the count anew; an uncounted one drops it. */
  lemma ProofCount(t: State, valid: bool, tick: u64, nowUs: u64)
    requires ZeroPhase(t.p.phase)
    ensures var u := AfterProof(t, valid, tick, nowUs);
            || (u.p.lastProofTick == 0 && u.p.stableCycles == 0)
            || (ProofCounts(t.p, valid, tick, nowUs) && u.p.lastProofTick == tick
                && u.p.stableCycles == More(t.p.stableCycles)
                && (ZeroPhase(u.p.phase) || u.p.phase.Running?) && RestPose(u) == RestPose(t))
  {
  }

  function More(n: nat): nat { if n < REQUIRED_STABLE_CYCLES then n + 1 else n }

  lemma ProvedMore(s: Sys, u: Sys)
    requires Rested(s) && Proved(s) && ZeroPhase(s.t.p.phase) && u.proofs == s.proofs + [s.image]
    requires s.t.p.lastProofTick == 0 || s.t.p.tick == Next(s.t.p.lastProofTick)
    requires u.t.p.lastProofTick == s.t.p.tick
    requires u.t.p.stableCycles == More(s.t.p.stableCycles)
    requires (ZeroPhase(u.t.p.phase) || u.t.p.phase.Running?) && RestPose(u.t) == RestPose(s.t)
    ensures Proved(u)
  {
  }

  lemma ProvedProof(s: Sys, call: Call)
    requires Rested(s) && Proved(s) && call.Proves?
    ensures Proved(Step(s, call))
  {
    if ZeroPhase(s.t.p.phase) {
      ProofCount(s.t, call.valid, call.tick, call.nowUs);
      var u := Step(s, call);
      if u.t.p.lastProofTick == 0 {
        ProvedKept(s, u);
      } else {
        ProvedMore(s, u);
      }
    }
  }

  /** The remaining calls clear everything or leave phase, count and rest pose alone. */
  lemma ProvedOther(s: Sys, call: Call)
    requires Proved(s) && !call.Holds? && !call.Resumes? && !call.Maps? && !call.Proves?
    ensures Proved(Step(s, call))
  {
    if !call.Clears? {
      ProvedKept(s, Step(s, call));
    }
  }

  lemma ProvedStep(s: Sys, call: Call)
    requires Rested(s) && Proved(s)
    ensures Proved(Step(s, call))
  {
    hide Rested, Proved, Step;
    match call
    case Holds(_) => ProvedHold(s, call);
    case Resumes(_) => ProvedResume(s, call);
    case Maps(_, _, _) => ProvedImage(s, call);
    case Proves(_, _, _) => ProvedProof(s, call);
    case _ => ProvedOther(s, call);
  }

  // --------------------------------------------------------------- fences

  ghost predicate Increasing(q: seq<u64>) {
    forall i, j :: 0 <= i < j < |q| ==> q[i] < q[j]
  }

  /** A START has been consumed and its HOLD not yet replaced. */
  predicate Consumed(p: Phase) {
    p.Resuming? || p.Returning? || p.ReturnQualifying? || p.Running? || p.Rejected?
  }

  /** Accepted sequences increase, and the fences stand at or above the last accepted ones. */
  ghost predicate Fenced(s: Sys) {
    && Increasing(s.holds) && Increasing(s.starts)
    && s.t.f.holdSequence == (if s.holds == [] then 0 else s.holds[|s.holds| - 1])
    && (s.starts != [] ==>
          var last := s.starts[|s.starts| - 1];
          last <= s.t.f.startFloor || (Consumed(s.t.p.phase) && last == s.t.f.resumeStartSequence))
    && (s.t.p.phase.Idle? ==> s.starts == [])
  }

  lemma IncreasingAppend(q: seq<u64>, x: u64)
    requires Increasing(q) && (q != [] ==> q[|q| - 1] < x)
    ensures Increasing(q + [x])
  {
  }

  /** What neither images nor proofs change. */
  predicate SameFences(a: State, b: State) {
    && b.f.holdSequence == a.f.holdSequence && b.f.startFloor == a.f.startFloor
    && b.f.resumeStartSequence == a.f.resumeStartSequence
    && (Consumed(a.p.phase) ==> Consumed(b.p.phase)) && (a.p.phase.Idle? <==> b.p.phase.Idle?)
  }

  lemma ImageKeepsFences(t: State, scope: Scope, f: Image, atRest: bool)
    ensures SameFences(t, AfterImage(t, scope, f, atRest))
  {
  }

  lemma ProofKeepsFences(t: State, valid: bool, tick: u64, nowUs: u64)
    requires PathPhase(t.p.phase) ==> PathReturn(t.f)
    ensures SameFences(t, AfterProof(t, valid, tick, nowUs))
  {
  }

  lemma FencedKept(s: Sys, t: State, u: Sys)
    requires Fenced(s) && SameFences(s.t, t) && u.t == t && u.holds == s.holds && u.starts == s.starts
    ensures Fenced(u)
  {
  }

  lemma FencedHold(s: Sys, call: Call)
    requires Fenced(s) && call.Holds?
    ensures Fenced(Step(s, call))
  {
    if HoldAdmitted(s.t, call.hold) {
      IncreasingAppend(s.holds, call.hold.holdSequence);
    }
  }

  lemma FencedResume(s: Sys, call: Call)
    requires Fenced(s) && call.Resumes?
    ensures Fenced(Step(s, call))
  {
    if ResumeAccepted(s.t, call.resume) {
      IncreasingAppend(s.starts, call.resume.startSequence);
    }
  }

  lemma FencedStep(s: Sys, call: Call)
    requires Rested(s) && Fenced(s)
    ensures Fenced(Step(s, call))
  {
    match call
    case Holds(_) => FencedHold(s, call);
    case Resumes(_) => FencedResume(s, call);
    case Maps(scope, image, atRest) =>
      ImageKeepsFences(s.t, scope, image, atRest);
      FencedKept(s, After(s.t, call), Step(s, call));
    case Proves(valid, tick, nowUs) =>
      ProofKeepsFences(s.t, valid, tick, nowUs);
      FencedKept(s, After(s.t, call), Step(s, call));
    case Clears =>
    case _ => FencedKept(s, After(s.t, call), Step(s, call));
  }

  // ---------------------------------------------------------------- runs

  ghost predicate Inv(s: Sys) { Rested(s) && Proved(s) && Fenced(s) }

  lemma {:induction false} InvRun(calls: seq<Call>)
    ensures Inv(Run(START, calls))
    decreases |calls|
  {
    if calls != [] {
      var before := Run(START, calls[..|calls| - 1]);
      InvRun(calls[..|calls| - 1]);
      RestedStep(before, calls[|calls| - 1]);
      ProvedStep(before, calls[|calls| - 1]);
      FencedStep(before, calls[|calls| - 1]);
    }
  }

  /**
   Every accepted BeginResume follows 200 valid proofs at consecutive ticks, each of
   an image that stands still at one and the same rest pose; the last is at most one tick old.
   */
  lemma ResumeNeedsEvidence(calls: seq<Call>, r: Resume)
    requires ResumeAccepted(Run(START, calls).t, r)
    ensures var s := Run(START, calls);
            && |s.proofs| >= REQUIRED_STABLE_CYCLES && Consecutive(s.proofs) && Still(s.proofs, RestPose(s.t))
            && s.proofs[|s.proofs| - 1].tick <= r.tick <= s.proofs[|s.proofs| - 1].tick + 1
  {
    hide Run, Rested, Fenced;
    InvRun(calls);
  }

  /** Running is entered only by a proof of an image with zero velocity and exactly the anchor pose. */
  lemma RunningOnlyAtAnchor(calls: seq<Call>, call: Call)
    requires var s := Run(START, calls); !s.t.p.phase.Running? && Step(s, call).t.p.phase.Running?
    ensures var s := Run(START, calls);
            && Counts(s.t, call) && s.t.p.phase.Resuming? && call.tick == s.image.tick > s.t.p.resumeSeedTick
            && Zero(s.image) && s.image.pose == s.t.f.pose && s.image.pose.cursor == s.t.anchorCursor
            && (PathReturn(s.t.f) ==> s.t.p.exactReturn && s.t.f.anchorCaptured)
  {
    InvRun(calls);
    RunningFromResuming(Run(START, calls), call);
  }

  lemma RunningFromResuming(s: Sys, call: Call)
    requires Rested(s) && !s.t.p.phase.Running? && Step(s, call).t.p.phase.Running?
    ensures Counts(s.t, call) && s.t.p.phase.Resuming? && call.tick > s.t.p.resumeSeedTick
  {
    match call
    case Holds(hold) => HoldNotRunning(s.t, hold);
    case Resumes(resume) => ResumeNotRunning(s.t, resume);
    case Maps(scope, image, atRest) => ImageNotRunning(s.t, scope, image, atRest);
    case Proves(valid, tick, nowUs) => ProofRunning(s.t, valid, tick, nowUs);
    case _ =>
  }

  lemma HoldNotRunning(t: State, h: Hold)
    ensures AfterHold(t, h).p.phase.Running? ==> t.p.phase.Running?
  {
  }

  lemma ResumeNotRunning(t: State, r: Resume)
    ensures AfterResume(t, r).p.phase.Running? ==> t.p.phase.Running?
  {
  }

  lemma ImageNotRunning(t: State, scope: Scope, f: Image, atRest: bool)
    ensures AfterImage(t, scope, f, atRest).p.phase.Running? ==> t.p.phase.Running?
  {
  }

  lemma ProofRunning(t: State, valid: bool, tick: u64, nowUs: u64)
    ensures AfterProof(t, valid, tick, nowUs).p.phase.Running? && !t.p.phase.Running? ==>
              ZeroPhase(t.p.phase) && ProofCounts(t.p, valid, tick, nowUs) && t.p.phase.Resuming?
                  && tick > t.p.resumeSeedTick
  {
  }

  /** Accepted HOLD sequences and accepted START sequences each strictly increase between Clears. */
  lemma SequencesIncrease(calls: seq<Call>)
    ensures Increasing(Run(START, calls).holds) && Increasing(Run(START, calls).starts)
  {
    InvRun(calls);
  }

  /** No START is consumed twice: an accepted one is above every START accepted since the last Clear. */
  lemma StartConsumedOnce(calls: seq<Call>, r: Resume)
    requires ResumeAccepted(Run(START, calls).t, r)
    ensures forall start :: start in Run(START, calls).starts ==> start < r.startSequence
  {
    hide Run, Rested, Proved;
    InvRun(calls);
    var s := Run(START, calls);
    forall start | start in s.starts ensures start < r.startSequence {
      var i :| 0 <= i < |s.starts| && s.starts[i] == start;
      assert i < |s.starts| - 1 ==> s.starts[i] < s.starts[|s.starts| - 1];
    }
  }

  // ----------------------------------------------------- who lets it run

  /** The phases that lead out of a HOLD. */
  predicate Released(p: Phase) { p.Returning? || p.ReturnQualifying? || p.Resuming? || p.Running? }

  predicate AcceptsStart(t: State, call: Call) { call.Resumes? && ResumeAccepted(t, call.resume) }

  /** A new HOLD, or the end of the transaction. */
  predicate EndsRelease(t: State, call: Call) { call.Clears? || (call.Holds? && HoldAdmitted(t, call.hold)) }

  /** The transaction runs under this START, and it is above the floor of the HOLD it ends. */
  predicate ReleasedBy(t: State, start: u64) {
    Released(t.p.phase) && t.f.resumeStartSequence == start > t.f.startFloor
  }

  lemma ImageReleasesNothing(t: State, scope: Scope, f: Image, atRest: bool)
    ensures var u := AfterImage(t, scope, f, atRest);
            (Released(u.p.phase) ==> Released(t.p.phase)) && u.f.resumeStartSequence == t.f.resumeStartSequence
            && u.f.startFloor == t.f.startFloor
  {
    hide OnExcursion, ExactTarget, ValidMapped;
  }

  lemma ProofReleasesNothing(t: State, valid: bool, tick: u64, nowUs: u64)
    ensures var u := AfterProof(t, valid, tick, nowUs);
            (Released(u.p.phase) ==> Released(t.p.phase)) && u.f == t.f
  {
  }

  /** Only an accepted START leads out of a HOLD, and only a new HOLD or the end leads back. */
  lemma ReleaseStep(s: Sys, call: Call)
    ensures var t := Step(s, call).t;
            && (AcceptsStart(s.t, call) ==> ReleasedBy(t, call.resume.startSequence))
            && (EndsRelease(s.t, call) ==> !Released(t.p.phase))
            && (Released(t.p.phase) && !AcceptsStart(s.t, call) ==>
                  && Released(s.t.p.phase) && !EndsRelease(s.t, call)
                  && t.f.resumeStartSequence == s.t.f.resumeStartSequence && t.f.startFloor == s.t.f.startFloor)
  {
    match call
    case Maps(scope, image, atRest) =>
      hide AfterImage;
      ImageReleasesNothing(s.t, scope, image, atRest);
    case Proves(valid, tick, nowUs) =>
      hide AfterProof;
      ProofReleasesNothing(s.t, valid, tick, nowUs);
    case _ =>
      hide HoldAdmitted, ResumeAccepted, PlanAccepted;
      if AcceptsStart(s.t, call) {
        StartIsAboveFloor(s.t, call);
      }
  }

  lemma StartIsAboveFloor(t: State, call: Call)
    requires AcceptsStart(t, call)
    ensures call.resume.startSequence > t.f.startFloor
  {
  }

  /** Out of a HOLD the last accepted START is the one in force. */
  lemma {:induction false} LastStartRules(calls: seq<Call>)
    requires Released(Run(START, calls).t.p.phase)
    ensures var s := Run(START, calls);
            s.starts != [] && ReleasedBy(s.t, s.starts[|s.starts| - 1])
    decreases |calls|
  {
    hide Run, Step, AcceptsStart, EndsRelease, ReleasedBy, Released;
    NotAtStart(calls);
    var before, call := Run(START, calls[..|calls| - 1]), calls[|calls| - 1];
    ReleaseStep(before, call);
    StartsKept(before, call);
    if !AcceptsStart(before.t, call) {
      LastStartRules(calls[..|calls| - 1]);
      SameRelease(before, call);
    }
  }

  lemma SameRelease(s: Sys, call: Call)
    requires Released(Step(s, call).t.p.phase) && !AcceptsStart(s.t, call)
    ensures forall start :: ReleasedBy(s.t, start) ==> ReleasedBy(Step(s, call).t, start)
  {
    hide Step;
    ReleaseStep(s, call);
  }

  lemma NotAtStart(calls: seq<Call>)
    requires Released(Run(START, calls).t.p.phase)
    ensures calls != [] && Run(START, calls) == Step(Run(START, calls[..|calls| - 1]), calls[|calls| - 1])
  {
  }

  lemma StartsKept(s: Sys, call: Call)
    requires !EndsRelease(s.t, call)
    ensures Step(s, call).starts == if AcceptsStart(s.t, call) then s.starts + [call.resume.startSequence] else s.starts
  {
    hide After;
  }

  /**
   Machining runs only under an accepted START: whenever a run is in Returning, ReturnQualifying, Resuming or Running,
   a START above the floor of the latest HOLD was accepted, and no HOLD since.
   */
  lemma {:induction false} RunsOnlyByStart(calls: seq<Call>) returns (i: nat)
    requires Released(Run(START, calls).t.p.phase)
    ensures i < |calls| && AcceptsStart(Run(START, calls[..i]).t, calls[i])
    ensures ReleasedBy(Run(START, calls).t, calls[i].resume.startSequence)
    ensures forall j :: i < j < |calls| ==> !EndsRelease(Run(START, calls[..j]).t, calls[j])
    decreases |calls|
  {
    hide Run, Step, ResumeAccepted, EndsRelease, ReleasedBy, Released;
    NotAtStart(calls);
    var before, call := calls[..|calls| - 1], calls[|calls| - 1];
    ReleaseStep(Run(START, before), call);
    if AcceptsStart(Run(START, before).t, call) {
      i := |calls| - 1;
      assert calls[..i] == before && calls[i] == call;
    } else {
      i := RunsOnlyByStart(before);
      SameRelease(Run(START, before), call);
      assert before[..i] == calls[..i] && before[i] == calls[i];
      assert ReleasedBy(Run(START, before).t, calls[i].resume.startSequence);
      forall j | i < j < |calls| ensures !EndsRelease(Run(START, calls[..j]).t, calls[j]) {
        if j < |before| {
          assert before[..j] == calls[..j] && before[j] == calls[j];
        } else {
          assert calls[..j] == before && calls[j] == call;
        }
      }
    }
  }

  // ---------------------------------------------------- where a hold stands

  predicate RestIsTarget(t: State) {
    t.rest.cursor == t.f.retreatTarget && t.rest.stationMm == t.f.retreatStationMm
    && t.rest.positionPulse == t.f.retreatPositionPulse
  }

  /** A planned target lies the frozen jump height behind the anchor on the path. */
  predicate TargetBehindAnchor(t: State) {
    0.0 <= t.f.retreatStationMm < t.f.pose.stationMm
    && HeightClose(t.f.pose.stationMm - t.f.retreatStationMm, t.f.scope.jumpHeightMm)
  }

  /** Where each phase of a path-return HOLD stands, and what has been planned by then. */
  predicate Placed(t: State) {
    var p := t.p.phase;
    && (t.f.retreatPlanned ==> TargetBehindAnchor(t) && !t.f.retreatUnavailable && PathReturn(t.f))
    && (p.Braking? ==> !t.f.retreatPlanned && !t.f.retreatUnavailable)
    && (PathReturn(t.f) ==>
          && (p.Braking? ==> !t.f.interrupted)
          && (p.Qualifying? ==> !t.f.interrupted && t.rest == t.f.pose)
          && (p.Retreating? ==> !t.f.interrupted && t.f.retreatPlanned)
          && (p.TopQualifying? ==> !t.f.interrupted && t.f.retreatPlanned && RestIsTarget(t))
          && (p.Rebraking? || p.Requalifying? ==> t.f.interrupted)
          && (p.Held? && !t.f.interrupted ==>
                (t.p.topCaptured && t.f.retreatPlanned && RestIsTarget(t))
                    || (t.f.retreatUnavailable && t.rest == t.f.pose)))
  }

  lemma PlacedHold(t: State, h: Hold)
    requires Placed(t)
    ensures Placed(AfterHold(t, h))
  {
    hide HeightClose, ValidMapped;
  }

  lemma PlacedResume(t: State, r: Resume)
    requires Placed(t)
    ensures Placed(AfterResume(t, r))
  {
    hide HeightClose;
  }

  lemma PlacedPlan(t: State, p: Plan)
    requires Placed(t)
    ensures Placed(AfterPlan(t, p)) && Placed(AfterUnavailable(t))
  {
    hide HeightClose;
  }

  lemma PlacedImage(t: State, scope: Scope, f: Image, atRest: bool)
    requires Placed(t)
    ensures Placed(AfterImage(t, scope, f, atRest))
  {
    hide HeightClose, ValidMapped, OnExcursion;
  }

  lemma PlacedProof(t: State, valid: bool, tick: u64, nowUs: u64)
    requires Placed(t)
    ensures Placed(AfterProof(t, valid, tick, nowUs))
  {
    hide HeightClose;
  }

  lemma PlacedStep(s: Sys, call: Call)
    requires Placed(s.t)
    ensures Placed(Step(s, call).t)
  {
    hide Placed;
    match call
    case Holds(hold) => PlacedHold(s.t, hold);
    case Resumes(resume) => PlacedResume(s.t, resume);
    case Plans(plan) => PlacedPlan(s.t, plan);
    case HasNoPlan => PlacedPlan(s.t, Plan(Cursor(NO_SOURCE, 0.0), [], 0.0));
    case Maps(scope, image, atRest) => PlacedImage(s.t, scope, image, atRest);
    case Proves(valid, tick, nowUs) => PlacedProof(s.t, valid, tick, nowUs);
    case RejectsStart(startSequence) => PlacedFence(s.t, startSequence);
    case Clears => PlacedClear();
  }

  lemma PlacedFence(t: State, startSequence: u64)
    requires Placed(t)
    ensures Placed(AfterRejectStart(t, startSequence))
  {
  }

  lemma PlacedClear()
    ensures Placed(CLEARED)
  {
  }

  lemma {:induction false} PlacedRun(calls: seq<Call>)
    ensures Placed(Run(START, calls).t)
    decreases |calls|
  {
    hide Placed;
    if calls == [] {
      PlacedClear();
    } else {
      PlacedRun(calls[..|calls| - 1]);
      PlacedStep(Run(START, calls[..|calls| - 1]), calls[|calls| - 1]);
    }
  }

  /**
   A path-return HOLD that was not interrupted is held in one of two places only: exactly at the planned
   target, which lies the frozen jump height behind the anchor, or at the anchor when no retreat was available.
   */
  lemma HeldAtTargetOrAnchor(calls: seq<Call>)
    requires var t := Run(START, calls).t; PathReturn(t.f) && t.p.phase.Held? && !t.f.interrupted
    ensures var t := Run(START, calls).t;
            || (t.f.retreatPlanned && RestIsTarget(t) && TargetBehindAnchor(t))
            || (t.f.retreatUnavailable && t.rest == t.f.pose)
  {
    hide Run, HeightClose;
    PlacedRun(calls);
  }

  // --------------------------------------------------- anchor permanence

  /** In a path-return HOLD whose machining anchor is captured. */
  predicate Anchored(t: State) { PathReturn(t.f) && Holding(t.p.phase) && t.f.anchorCaptured }

  predicate SameAnchor(a: State, b: State) {
    b.f.pose == a.f.pose && b.anchorCursor == a.anchorCursor && b.f.scope == a.f.scope && PathReturn(b.f)
        && b.f.anchorCaptured
  }

  /** The next state keeps the anchor and does not brake towards a new one. */
  predicate KeepsAnchor(a: State, b: State) { SameAnchor(a, b) && !b.p.phase.Braking? }

  lemma HoldKeepsAnchor(t: State, h: Hold)
    requires Anchored(t) && !t.p.phase.Braking?
    ensures KeepsAnchor(t, AfterHold(t, h))
  {
  }

  lemma ResumeKeepsAnchor(t: State, r: Resume)
    requires Anchored(t) && !t.p.phase.Braking?
    ensures KeepsAnchor(t, AfterResume(t, r))
  {
  }

  lemma ImageKeepsAnchor(t: State, scope: Scope, f: Image, atRest: bool)
    requires Anchored(t) && !t.p.phase.Braking?
    ensures KeepsAnchor(t, AfterImage(t, scope, f, atRest))
  {
  }

  lemma ProofKeepsAnchor(t: State, valid: bool, tick: u64, nowUs: u64)
    requires Anchored(t) && !t.p.phase.Braking?
    ensures KeepsAnchor(t, AfterProof(t, valid, tick, nowUs))
  {
  }

  lemma AnchorStep(s: Sys, call: Call)
    requires Anchored(s.t) && !call.Clears? && !s.t.p.phase.Braking?
    ensures KeepsAnchor(s.t, Step(s, call).t)
  {
    match call
    case Holds(hold) => HoldKeepsAnchor(s.t, hold);
    case Resumes(resume) => ResumeKeepsAnchor(s.t, resume);
    case Maps(scope, image, atRest) => ImageKeepsAnchor(s.t, scope, image, atRest);
    case Proves(valid, tick, nowUs) => ProofKeepsAnchor(s.t, valid, tick, nowUs);
    case _ =>
  }

  /** Every state of the run, the first one included, is in a hold. */
  ghost predicate StaysHolding(s: Sys, calls: seq<Call>) {
    forall n :: 0 <= n <= |calls| ==> Holding(Run(s, calls[..n]).t.p.phase)
  }

  lemma {:induction false} AnchorRun(s: Sys, calls: seq<Call>)
    requires Rested(s) && Anchored(s.t) && !s.t.p.phase.Braking? && StaysHolding(s, calls)
    ensures SameAnchor(s.t, Run(s, calls).t) && !Run(s, calls).t.p.phase.Braking? && Rested(Run(s, calls))
    decreases |calls|
  {
    if calls != [] {
      var rest, last := calls[..|calls| - 1], calls[|calls| - 1];
      forall n | 0 <= n <= |rest| ensures Holding(Run(s, rest[..n]).t.p.phase) {
        assert rest[..n] == calls[..n];
      }
      AnchorRun(s, rest);
      assert calls[..|calls|] == calls;
      AnchorStep(Run(s, rest), last);
      RestedStep(Run(s, rest), last);
    }
  }

  lemma {:induction false} RunConcat(s: Sys, a: seq<Call>, b: seq<Call>)
    ensures Run(s, a + b) == Run(Run(s, a), b)
    decreases |b|
  {
    if b == [] {
      assert a + b == a;
    } else {
      assert (a + b)[..|a + b| - 1] == a + b[..|b| - 1];
      RunConcat(s, a, b[..|b| - 1]);
    }
  }

  /** Capturing an anchor takes the transaction out of Braking for the rest of the hold. */
  lemma {:induction false} AnchoredNotBraking(calls: seq<Call>)
    requires Anchored(Run(START, calls).t)
    ensures !Run(START, calls).t.p.phase.Braking?
    decreases |calls|
  {
    var before, call := Run(START, calls[..|calls| - 1]), calls[|calls| - 1];
    InvRun(calls[..|calls| - 1]);
    hide Anchored, Inv;
    if Anchored(before.t) {
      AnchoredNotBraking(calls[..|calls| - 1]);
    }
    AnchoringLeavesBraking(before, call);
  }

  lemma AnchoringLeavesBraking(s: Sys, call: Call)
    requires Inv(s) && (Anchored(s.t) ==> !s.t.p.phase.Braking?) && Anchored(Step(s, call).t)
    ensures !Step(s, call).t.p.phase.Braking?
  {
    if Anchored(s.t) {
      AnchorStep(s, call);
    }
  }

  /**
   Anchor permanence: once a path-return HOLD has captured its machining anchor, no
   further HOLD, retreat, re-braking or return changes it, and if the hold ends in Running
   the latest image has zero velocity and exactly the pose that was captured.
   */
  lemma AnchorIsPermanent(first: seq<Call>, held: seq<Call>, last: Call)
    requires Anchored(Run(START, first).t) && StaysHolding(Run(START, first), held)
    ensures var a, b := Run(START, first), Run(Run(START, first), held);
            && SameAnchor(a.t, b.t)
            && (Step(b, last).t.p.phase.Running? ==> Zero(b.image) && b.image.pose == a.t.f.pose)
  {
    InvRun(first);
    AnchoredNotBraking(first);
    AnchorRun(Run(START, first), held);
    var b := Run(Run(START, first), held);
    assert held[..|held|] == held;
    assert Holding(Run(Run(START, first), held[..|held|]).t.p.phase);
    if Step(b, last).t.p.phase.Running? {
      RunningFromResuming(b, last);
    }
  }
}
