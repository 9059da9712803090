/**
 Progress of the pause transaction: still images and valid proofs take every phase that demands zero output to the
 next one after 200 cycles, and a whole HOLD, retreat, return and resume ends in Running.
 */
module GapPauseProgress {
  import opened GapPause
  import opened GapPauseRuns
  import opened Numbers

  // --------------------------------------------------------------- cycles

  /** One control cycle at rest: the mapped image and its proof. */
  function Cycle(scope: Scope, f: Image): seq<Call> { [Maps(scope, f, true), Proves(true, f.tick, f.nowUs)] }

  function Cycles(scope: Scope, fs: seq<Image>): seq<Call> {
    if fs == [] then [] else Cycles(scope, fs[..|fs| - 1]) + Cycle(scope, fs[|fs| - 1])
  }

  /** Mapped images that stand still at one pose, at consecutive ticks and times that do not run backwards. */
  ghost predicate StandStill(scope: Scope, pose: Pose, fs: seq<Image>) {
    && (forall i :: 0 <= i < |fs| ==> ValidMapped(scope, fs[i]) && Zero(fs[i]) && fs[i].pose == pose)
    && (forall i :: 0 < i < |fs| ==> fs[i].tick == fs[i - 1].tick + 1 && fs[i].nowUs >= fs[i - 1].nowUs)
  }

  /** The next still image may be counted: it is not older than the last, and directly behind the last proof. */
  predicate Ready(t: State, f: Image) {
    && f.tick >= t.p.tick && f.nowUs >= t.p.nowUs && (t.p.lastProofTick == 0 || f.tick == t.p.lastProofTick + 1)
  }

  function AfterCycle(t: State, f: Image): State {
    AfterProof(AfterImage(t, t.f.scope, f, true), true, f.tick, f.nowUs)
  }

  function Through(t: State, fs: seq<Image>): State {
    if fs == [] then t else AfterCycle(Through(t, fs[..|fs| - 1]), fs[|fs| - 1])
  }

  /** Everything but the counters and the dates. */
  predicate SameBut(a: State, b: State) {
    b.f == a.f && b.anchorCursor == a.anchorCursor && b.rest == a.rest && b.p.phase == a.p.phase
    && b.p.topCaptured == a.p.topCaptured && b.p.exactReturn == a.p.exactReturn
  }

  /** A phase that waits for 200 proofs. */
  predicate Waiting(p: Phase) {
    p.Qualifying? || p.TopQualifying? || p.ReturnQualifying? || p.Requalifying?
  }

  /** A still image at the rest pose only dates the progress, and seeds a resume. */
  lemma StillImage(t: State, f: Image)
    requires ZeroPhase(t.p.phase) && ValidMapped(t.f.scope, f) && Zero(f) && f.pose == RestPose(t) && Ready(t, f)
    ensures AfterImage(t, t.f.scope, f, true) ==
              t.(p := t.p.(tick := f.tick, nowUs := f.nowUs,
                           resumeSeedTick := if t.p.phase.Resuming? && t.p.resumeSeedTick == 0 then f.tick
                                             else t.p.resumeSeedTick))
  {
    hide ValidMapped, OnExcursion, ExactTarget;
  }

  /** A still cycle at the rest pose counts one more. */
  lemma CycleCounts(t: State, f: Image)
    requires Waiting(t.p.phase) && ValidMapped(t.f.scope, f) && Zero(f) && f.pose == RestPose(t) && Ready(t, f)
    requires t.p.stableCycles + 1 < REQUIRED_STABLE_CYCLES
    ensures var u := AfterCycle(t, f);
            && SameBut(t, u) && u.p.stableCycles == t.p.stableCycles + 1
            && u.p.tick == u.p.lastProofTick == f.tick && u.p.nowUs == f.nowUs
  {
    StillImage(t, f);
    TickInRange(t, f);
    hide ValidMapped, AfterImage;
  }

  lemma TickInRange(t: State, f: Image)
    requires ValidMapped(t.f.scope, f) && Ready(t, f)
    ensures f.tick != 0 && (t.p.lastProofTick == 0 || f.tick == Next(t.p.lastProofTick))
  {
  }

  /** Where 200 counted proofs lead. */
  predicate Qualified(was: State, now: State) {
    && now.f == was.f && now.anchorCursor == was.anchorCursor && now.rest == was.rest
    && (was.p.phase.Requalifying? ==> now.p.phase.Held?)
    && (was.p.phase.TopQualifying? ==> now.p.phase.Held? && now.p.topCaptured)
    && (was.p.phase.ReturnQualifying? && PathReturn(was.f) ==> now.p.phase.Resuming? && now.p.exactReturn
                                                               && now.p.resumeSeedTick == 0)
    && (was.p.phase.Qualifying? ==>
          if PathReturn(was.f) && was.f.retreatPlanned then now.p.phase.Retreating?
          else if PathReturn(was.f) && !was.f.retreatUnavailable then now.p.phase.Qualifying?
          else now.p.phase.Held?)
    && (now.p.phase.Held? || now.p.phase.Resuming? ==> now.p.stableCycles == REQUIRED_STABLE_CYCLES)
  }

  lemma LastCycleQualifies(t: State, f: Image)
    requires Waiting(t.p.phase) && ValidMapped(t.f.scope, f) && Zero(f) && f.pose == RestPose(t) && Ready(t, f)
    requires t.p.stableCycles + 1 == REQUIRED_STABLE_CYCLES && (PathPhase(t.p.phase) ==> PathReturn(t.f))
    ensures var u := AfterCycle(t, f);
            && Qualified(t, u) && u.p.tick == f.tick && u.p.nowUs == f.nowUs
            && (!u.p.phase.Retreating? ==> u.p.lastProofTick == f.tick)
  {
    StillImage(t, f);
    TickInRange(t, f);
    hide ValidMapped, AfterImage;
  }

  lemma {:induction false} StillCount(t: State, fs: seq<Image>)
    requires Waiting(t.p.phase) && StandStill(t.f.scope, RestPose(t), fs) && (fs != [] ==> Ready(t, fs[0]))
    requires t.p.stableCycles == 0 && |fs| < REQUIRED_STABLE_CYCLES
    ensures var u := Through(t, fs);
            && SameBut(t, u) && u.p.stableCycles == |fs|
            && (fs != [] ==> u.p.tick == u.p.lastProofTick == fs[|fs| - 1].tick && u.p.nowUs == fs[|fs| - 1].nowUs)
            && (fs == [] ==> u == t)
    decreases |fs|
  {
    hide AfterCycle, ValidMapped;
    if fs != [] {
      var rest := fs[..|fs| - 1];
      StillCount(t, rest);
      CycleCounts(Through(t, rest), fs[|fs| - 1]);
    }
  }

  /** 200 still cycles qualify any waiting phase. */
  lemma StillQualifies(t: State, fs: seq<Image>)
    requires Waiting(t.p.phase) && StandStill(t.f.scope, RestPose(t), fs) && |fs| == REQUIRED_STABLE_CYCLES
    requires Ready(t, fs[0]) && t.p.stableCycles == 0 && (PathPhase(t.p.phase) ==> PathReturn(t.f))
    ensures var u, last := Through(t, fs), fs[|fs| - 1];
            && Qualified(t, u) && u.p.tick == last.tick && u.p.nowUs == last.nowUs
            && (!u.p.phase.Retreating? ==> u.p.lastProofTick == last.tick)
  {
    hide AfterCycle, ValidMapped;
    var rest := fs[..|fs| - 1];
    StillCount(t, rest);
    LastCycleQualifies(Through(t, rest), fs[|fs| - 1]);
  }

  /** Two still cycles behind the last proof acknowledge a resume. */
  lemma ResumingRuns(t: State, f: Image, g: Image)
    requires t.p.phase.Resuming? && t.p.resumeSeedTick == 0 && t.p.lastProofTick != 0
    requires StandStill(t.f.scope, RestPose(t), [f, g]) && Ready(t, f)
    requires t.p.stableCycles == REQUIRED_STABLE_CYCLES
    ensures AfterCycle(AfterCycle(t, f), g).p.phase.Running?
  {
    hide OnExcursion, ExactTarget;
    var fs := [f, g];
    assert fs[0] == f && fs[1] == g && fs[1].tick == fs[0].tick + 1;
    hide ValidMapped;
    var u := AfterCycle(t, f);
    assert u.p.phase.Resuming? && u.p.resumeSeedTick == f.tick && u.p.lastProofTick == f.tick;
  }

  // -------------------------------------------------- calls and their states

  lemma {:induction false} RunAppends(s: Sys, a: seq<Call>, b: seq<Call>)
    ensures Run(s, a + b) == Run(Run(s, a), b)
    decreases |b|
  {
    hide Step;
    if b == [] {
      assert a + b == a;
    } else {
      assert (a + b)[..|a + b| - 1] == a + b[..|b| - 1];
      RunAppends(s, a, b[..|b| - 1]);
    }
  }

  lemma RunOne(s: Sys, call: Call)
    ensures Run(s, [call]).t == After(s.t, call)
  {
    hide After;
    assert [call][..0] == [];
    assert Run(s, [call]) == Step(s, call);
    StepIs(s, call);
  }

  lemma StepIs(s: Sys, call: Call)
    ensures Step(s, call).t == After(s.t, call)
  {
  }

  lemma ScopeKept(t: State, f: Image)
    ensures AfterCycle(t, f).f.scope == t.f.scope
  {
    hide ImageAccepted, Proven;
  }

  lemma {:induction false} ThroughKeepsScope(t: State, fs: seq<Image>)
    ensures Through(t, fs).f.scope == t.f.scope
    decreases |fs|
  {
    hide AfterCycle;
    if fs != [] {
      ThroughKeepsScope(t, fs[..|fs| - 1]);
      ScopeKept(Through(t, fs[..|fs| - 1]), fs[|fs| - 1]);
    }
  }

  lemma RunCycle(s: Sys, f: Image)
    ensures Run(s, Cycle(s.t.f.scope, f)).t == AfterCycle(s.t, f)
  {
    hide Run, AfterImage, AfterProof;
    var mapped, proof := Maps(s.t.f.scope, f, true), Proves(true, f.tick, f.nowUs);
    RunAppends(s, [mapped], [proof]);
    assert [mapped] + [proof] == Cycle(s.t.f.scope, f);
    RunOne(s, mapped);
    RunOne(Run(s, [mapped]), proof);
  }

  lemma {:induction false} RunCycles(s: Sys, fs: seq<Image>)
    ensures Run(s, Cycles(s.t.f.scope, fs)).t == Through(s.t, fs)
    decreases |fs|
  {
    hide Step, AfterCycle, Cycle;
    if fs != [] {
      var rest := fs[..|fs| - 1];
      RunCycles(s, rest);
      ThroughKeepsScope(s.t, rest);
      RunAppends(s, Cycles(s.t.f.scope, rest), Cycle(s.t.f.scope, fs[|fs| - 1]));
      RunCycle(Run(s, Cycles(s.t.f.scope, rest)), fs[|fs| - 1]);
    }
  }

  // --------------------------------------------------------------- stages

  /** A mapped image not older than what the transaction has seen, and the image of a complete stop. */
  predicate Current(t: State, f: Image) {
    ValidMapped(t.f.scope, f) && f.tick >= t.p.tick && f.nowUs >= t.p.nowUs
  }

  predicate StopsAt(t: State, f: Image) { Current(t, f) && Zero(f) }

  lemma HoldBrakes(t: State, h: Hold)
    requires HoldAdmitted(t, h) && !StopsExcursion(t)
    ensures var u := AfterHold(t, h);
            && u.p.phase.Braking? && u.f.scope == h.scope
            && u.f.flushPause == h.flush && u.f.holdSequence == h.holdSequence
            && u.f.startFloor == h.startFloor && u.f.rejectedStartSequence == 0 && u.p.tick == h.tick
            && u.p.nowUs == h.nowUs && !u.f.retreatPlanned && !u.f.retreatUnavailable && !u.f.interrupted
  {
    hide HoldAdmitted;
  }

  /** A braked HOLD stands at the image it stopped at; along a path that image is the anchor. */
  lemma BrakeStops(t: State, f: Image)
    requires t.p.phase.Braking? && StopsAt(t, f)
    ensures var u := AfterImage(t, t.f.scope, f, true);
            && u.p.phase.Qualifying? && u.p.stableCycles == u.p.lastProofTick == 0 && u.p.tick == f.tick
            && u.p.nowUs == f.nowUs && u.f.pose == f.pose && u.anchorCursor == f.pose.cursor && RestPose(u) == f.pose
            && u.f == t.f.(pose := f.pose, anchorCaptured := u.f.anchorCaptured)
            && (PathReturn(t.f) || t.f.flushPause ==> u.f.anchorCaptured)
  {
    hide ValidMapped;
  }

  lemma RebrakeStops(t: State, f: Image)
    requires t.p.phase.Rebraking? && PathReturn(t.f) && StopsAt(t, f)
    ensures var u := AfterImage(t, t.f.scope, f, true);
            && u.p.phase.Requalifying? && u.p.stableCycles == u.p.lastProofTick == 0 && u.p.tick == f.tick
            && u.p.nowUs == f.nowUs && u.rest == f.pose && u.f == t.f && u.anchorCursor == t.anchorCursor
  {
    hide ValidMapped;
  }

  /** A target of one jump height behind the anchor is accepted as the plan. */
  predicate GoodPlan(scope: Scope, anchor: Pose, p: Plan) {
    && p.target.source.valid && p.target.source.scopeId == scope.authorized.scopeId
    && p.target.source.ordinal <= anchor.cursor.source.ordinal && p.target.localMm >= 0.0
    && 0.0 <= p.stationMm < anchor.stationMm && HeightClose(anchor.stationMm - p.stationMm, scope.jumpHeightMm)
  }

  lemma PlanIsStored(t: State, p: Plan)
    requires PathReturn(t.f) && t.p.phase.Qualifying? && t.f.anchorCaptured && !t.f.retreatPlanned
    requires !t.f.retreatUnavailable && GoodPlan(t.f.scope, t.f.pose, p)
    ensures var u := AfterPlan(t, p);
            && u.f == t.f.(retreatTarget := p.target, retreatPositionPulse := p.positionPulse,
                           retreatStationMm := p.stationMm, retreatPlanned := true)
            && u.p == t.p && u.anchorCursor == t.anchorCursor && u.rest == t.rest
  {
    hide HeightClose;
  }

  /** The retreat ends at the planned target, the return at the anchor. */
  lemma RetreatStops(t: State, f: Image)
    requires t.p.phase.Retreating? && PathReturn(t.f) && t.f.retreatPlanned && StopsAt(t, f)
    requires t.f.retreatStationMm < t.f.pose.stationMm
    requires f.pose.cursor == t.f.retreatTarget && f.pose.stationMm == t.f.retreatStationMm
    requires f.pose.positionPulse == t.f.retreatPositionPulse
    ensures var u := AfterImage(t, t.f.scope, f, true);
            && u.p.phase.TopQualifying? && u.p.stableCycles == u.p.lastProofTick == 0 && u.p.tick == f.tick
            && u.p.nowUs == f.nowUs && u.rest == f.pose && u.f == t.f && u.anchorCursor == t.anchorCursor
  {
    hide ValidMapped;
    RoundoffPositive(t.f.pose.stationMm);
    hide Roundoff;
  }

  lemma RoundoffPositive(x: real)
    ensures Roundoff(x) > 0.0
  {
  }

  lemma ReturnStops(t: State, f: Image)
    requires t.p.phase.Returning? && PathReturn(t.f) && t.f.retreatPlanned && StopsAt(t, f)
    requires t.f.retreatStationMm < t.f.pose.stationMm && f.pose == t.f.pose
    ensures var u := AfterImage(t, t.f.scope, f, true);
            && u.p.phase.ReturnQualifying? && u.p.stableCycles == u.p.lastProofTick == 0 && u.p.tick == f.tick
            && u.p.nowUs == f.nowUs && u.rest == f.pose && u.f == t.f && u.anchorCursor == t.anchorCursor
  {
    hide ValidMapped;
    RoundoffPositive(t.f.pose.stationMm);
    hide Roundoff;
  }

  /** A START for the held HOLD, above its floor and at most one tick and 1500 us behind the last proof. */
  predicate GoodStart(t: State, r: Resume) {
    && r.scope.valid && r.scope == t.f.scope && r.contextValid && r.holdSequence == t.f.holdSequence
    && r.startSequence != 0 && r.startSequence > t.f.startFloor && r.startSequence > t.f.rejectedStartSequence
    && t.p.lastProofTick <= r.tick <= t.p.lastProofTick + 1
    && t.p.nowUs <= r.nowUs <= t.p.nowUs + MAXIMUM_SOURCE_AGE_US
  }

  lemma StartReleases(t: State, r: Resume)
    requires t.p.phase.Held? && t.p.stableCycles == REQUIRED_STABLE_CYCLES && t.p.lastProofTick != 0 && GoodStart(t, r)
    requires t.f.flushPause ==> t.f.anchorCaptured
    ensures var u := AfterResume(t, r);
            && u.f == t.f.(resumeStartSequence := r.startSequence)
            && u.rest == t.rest && u.anchorCursor == t.anchorCursor
            && u.p.tick == t.p.tick && u.p.nowUs == t.p.nowUs
            && if PathReturn(t.f) && !RestIsAnchor(t)
               then u.p.phase.Returning? && u.p.stableCycles == u.p.lastProofTick == 0
               else u.p.phase.Resuming? && u.p.resumeSeedTick == 0 && u.p.lastProofTick == t.p.lastProofTick
                    && u.p.stableCycles == t.p.stableCycles
  {
  }

  // ---------------------------------------------------------- whole pauses

  lemma Then(s: Sys, calls: seq<Call>, call: Call)
    ensures Run(s, calls + [call]).t == After(Run(s, calls).t, call)
  {
    hide Run, After;
    RunAppends(s, calls, [call]);
    RunOne(Run(s, calls), call);
  }

  lemma ThenCycles(s: Sys, calls: seq<Call>, scope: Scope, fs: seq<Image>)
    requires scope == Run(s, calls).t.f.scope
    ensures Run(s, calls + Cycles(scope, fs)).t == Through(Run(s, calls).t, fs)
  {
    hide Run, Through, Cycles;
    RunAppends(s, calls, Cycles(scope, fs));
    RunCycles(Run(s, calls), fs);
  }

  /** A still image not older than a given moment. */
  predicate Later(scope: Scope, tick: u64, nowUs: u64, f: Image) {
    ValidMapped(scope, f) && Zero(f) && f.tick >= tick && f.nowUs >= nowUs
  }

  /** 200 still images from a given moment on. */
  ghost predicate Still200(scope: Scope, pose: Pose, tick: u64, nowUs: u64, fs: seq<Image>) {
    StandStill(scope, pose, fs) && |fs| == REQUIRED_STABLE_CYCLES && fs[0].tick >= tick && fs[0].nowUs >= nowUs
  }

  /** The HOLD, its stop, its plan, 200 still images, the stop at the target, 200 more. */
  function Outward(h: Hold, stop: Image, plan: Plan, q1: seq<Image>, top: Image, q2: seq<Image>): seq<Call> {
    [] + [Holds(h)] + [Maps(h.scope, stop, true)] + [Plans(plan)] + Cycles(h.scope, q1) + [Maps(h.scope, top, true)]
    + Cycles(h.scope, q2)
  }

  ghost predicate GoodOutward(h: Hold, stop: Image, plan: Plan, q1: seq<Image>, top: Image, q2: seq<Image>) {
    && !h.flush && h.scope.pathProfile && Later(h.scope, h.tick, h.nowUs, stop)
    && GoodPlan(h.scope, stop.pose, plan)
    && Still200(h.scope, stop.pose, stop.tick, stop.nowUs, q1)
    && Later(h.scope, q1[|q1| - 1].tick, q1[|q1| - 1].nowUs, top)
    && top.pose.cursor == plan.target && top.pose.stationMm == plan.stationMm
    && top.pose.positionPulse == plan.positionPulse
    && Still200(h.scope, top.pose, top.tick, top.nowUs, q2)
  }

  /** A HOLD that has retreated to its planned target and may be resumed. */
  predicate HeldAt(t: State, h: Hold, anchor: Pose, rest: Pose, last: Image) {
    && t.p.phase.Held? && t.p.stableCycles == REQUIRED_STABLE_CYCLES
    && t.p.tick == t.p.lastProofTick == last.tick && t.p.nowUs == last.nowUs
    && t.f.scope == h.scope && !t.f.flushPause && t.f.holdSequence == h.holdSequence && t.f.startFloor == h.startFloor
    && t.f.rejectedStartSequence == 0 && t.f.pose == anchor && t.anchorCursor == anchor.cursor && t.rest == rest
  }

  /** The way out: whatever state admits the HOLD, it is held 200 proofs later at the planned target. */
  lemma HoldRetreats(s: Sys, h: Hold, stop: Image, plan: Plan, q1: seq<Image>, top: Image, q2: seq<Image>)
    requires HoldAdmitted(s.t, h) && !StopsExcursion(s.t) && GoodOutward(h, stop, plan, q1, top, q2)
    ensures var u := Run(s, Outward(h, stop, plan, q1, top, q2)).t;
            && HeldAt(u, h, stop.pose, top.pose, q2[|q2| - 1]) && u.f.retreatPlanned && u.p.topCaptured
            && u.f.retreatStationMm == plan.stationMm
  {
    var c1 := [] + [Holds(h)];
    var c2 := c1 + [Maps(h.scope, stop, true)];
    var c3 := c2 + [Plans(plan)];
    var c4 := c3 + Cycles(h.scope, q1);
    var c5 := c4 + [Maps(h.scope, top, true)];
    hide Run, Cycles, Through, StandStill, ValidMapped, HoldAdmitted, StopsExcursion, AfterHold, AfterImage, AfterPlan,
         HeightClose, Zero;
    Nothing(s);
    Then(s, [], Holds(h));
    HoldBrakes(s.t, h);
    Then(s, c1, Maps(h.scope, stop, true));
    BrakeStops(Run(s, c1).t, stop);
    Then(s, c2, Plans(plan));
    PlanIsStored(Run(s, c2).t, plan);
    ThenCycles(s, c3, h.scope, q1);
    StillQualifies(Run(s, c3).t, q1);
    Then(s, c4, Maps(h.scope, top, true));
    RetreatStops(Run(s, c4).t, top);
    ThenCycles(s, c5, h.scope, q2);
    StillQualifies(Run(s, c5).t, q2);
  }

  lemma Nothing(s: Sys)
    ensures Run(s, []) == s
  {
  }

  /** The START, the stop at the anchor, 200 still images there, and two more. */
  function Homeward(scope: Scope, r: Resume, home: Image, q: seq<Image>, ack: seq<Image>): seq<Call> {
    [] + [Resumes(r)] + [Maps(scope, home, true)] + Cycles(scope, q) + Cycles(scope, ack)
  }

  /** Two still images directly behind a proof. */
  ghost predicate Acknowledges(scope: Scope, pose: Pose, tick: u64, nowUs: u64, ack: seq<Image>) {
    StandStill(scope, pose, ack) && |ack| == 2 && ack[0].tick == tick + 1 && ack[0].nowUs >= nowUs
  }

  lemma ThroughTwo(t: State, ack: seq<Image>)
    requires |ack| == 2
    ensures Through(t, ack) == AfterCycle(AfterCycle(t, ack[0]), ack[1])
  {
    hide AfterCycle;
    assert ack[..1][..0] == [] && ack[..1][0] == ack[0];
    assert Through(t, ack[..1][..0]) == t;
    assert Through(t, ack[..1]) == AfterCycle(t, ack[0]);
  }

  /** The way home: from a held target an admissible START leads to Running at the anchor, and nowhere else. */
  lemma HeldReturns(s: Sys, h: Hold, anchor: Pose, last: Image, r: Resume, home: Image, q: seq<Image>, ack: seq<Image>)
    requires HeldAt(s.t, h, anchor, s.t.rest, last) && h.scope.pathProfile && last.tick != 0
    requires s.t.f.retreatPlanned && s.t.f.retreatStationMm < anchor.stationMm && !RestIsAnchor(s.t)
    requires GoodStart(s.t, r) && Later(h.scope, s.t.p.tick, s.t.p.nowUs, home) && home.pose == anchor
    requires Still200(h.scope, anchor, home.tick, home.nowUs, q)
    requires Acknowledges(h.scope, anchor, q[|q| - 1].tick, q[|q| - 1].nowUs, ack)
    ensures var u := Run(s, Homeward(h.scope, r, home, q, ack)).t;
            u.p.phase.Running? && u.f.resumeStartSequence == r.startSequence && u.f.pose == anchor
  {
    var c1 := [] + [Resumes(r)];
    var c2 := c1 + [Maps(h.scope, home, true)];
    var c3 := c2 + Cycles(h.scope, q);
    assert [ack[0], ack[1]] == ack;
    hide Run, Cycles, Through, StandStill, ValidMapped, AfterResume, AfterImage, Zero, AfterCycle, RestIsAnchor;
    Nothing(s);
    Then(s, [], Resumes(r));
    StartReleases(s.t, r);
    Then(s, c1, Maps(h.scope, home, true));
    ReturnStops(Run(s, c1).t, home);
    ThenCycles(s, c2, h.scope, q);
    TicksPositive(h.scope, anchor, q);
    StillQualifies(Run(s, c2).t, q);
    ThenCycles(s, c3, h.scope, ack);
    ThroughTwo(Run(s, c3).t, ack);
    ResumingRuns(Run(s, c3).t, ack[0], ack[1]);
    CyclesKeepFeedback(Run(s, c3).t, ack[0], ack[1]);
  }

  lemma TicksPositive(scope: Scope, pose: Pose, fs: seq<Image>)
    requires StandStill(scope, pose, fs) && fs != []
    ensures fs[|fs| - 1].tick != 0
  {
    assert ValidMapped(scope, fs[|fs| - 1]);
  }

  lemma CyclesKeepFeedback(t: State, f: Image, g: Image)
    requires t.p.phase.Resuming?
    ensures AfterCycle(AfterCycle(t, f), g).f == t.f
  {
    CycleKeepsFeedback(t, f);
    CycleKeepsFeedback(AfterCycle(t, f), g);
  }

  lemma CycleKeepsFeedback(t: State, f: Image)
    requires !t.p.phase.Braking?
    ensures AfterCycle(t, f).f == t.f && !AfterCycle(t, f).p.phase.Braking?
  {
    hide ImageAccepted, ExactTarget;
  }

  /**
   A whole pause along the path: from any state that admits the HOLD, stop, plan, retreat, hold, START, return and
   acknowledgement end in Running, under that START, with the anchor where machining stopped.
   */
  lemma PauseCompletes(s: Sys, h: Hold, stop: Image, plan: Plan, q1: seq<Image>, top: Image, q2: seq<Image>,
                       r: Resume, home: Image, q3: seq<Image>, ack: seq<Image>)
    requires HoldAdmitted(s.t, h) && !StopsExcursion(s.t) && GoodOutward(h, stop, plan, q1, top, q2)
    requires GoodStart(Run(s, Outward(h, stop, plan, q1, top, q2)).t, r)
    requires Later(h.scope, q2[|q2| - 1].tick, q2[|q2| - 1].nowUs, home) && home.pose == stop.pose
    requires Still200(h.scope, stop.pose, home.tick, home.nowUs, q3)
    requires Acknowledges(h.scope, stop.pose, q3[|q3| - 1].tick, q3[|q3| - 1].nowUs, ack)
    ensures var u := Run(s, Outward(h, stop, plan, q1, top, q2) + Homeward(h.scope, r, home, q3, ack)).t;
            u.p.phase.Running? && u.f.resumeStartSequence == r.startSequence && u.f.pose == stop.pose
  {
    hide Run, Cycles, StandStill, ValidMapped, Outward, Homeward, Zero, HoldAdmitted, StopsExcursion, HeightClose,
         GoodStart;
    var held := Run(s, Outward(h, stop, plan, q1, top, q2));
    HoldRetreats(s, h, stop, plan, q1, top, q2);
    TicksPositive(h.scope, top.pose, q2);
    HeldReturns(held, h, stop.pose, q2[|q2| - 1], r, home, q3, ack);
    RunAppends(s, Outward(h, stop, plan, q1, top, q2), Homeward(h.scope, r, home, q3, ack));
  }

  /** A HOLD without path return is held where it stopped. */
  lemma PlainIsHeld(s: Sys, h: Hold, stop: Image, q: seq<Image>)
    requires HoldAdmitted(s.t, h) && !StopsExcursion(s.t) && (h.flush || !h.scope.pathProfile)
    requires Later(h.scope, h.tick, h.nowUs, stop) && Still200(h.scope, stop.pose, stop.tick, stop.nowUs, q)
    ensures var u, last := Run(s, [] + [Holds(h)] + [Maps(h.scope, stop, true)] + Cycles(h.scope, q)).t, q[|q| - 1];
            && u.p.phase.Held? && u.p.stableCycles == REQUIRED_STABLE_CYCLES && u.f.pose == stop.pose
            && u.f.scope == h.scope && !PathReturn(u.f) && (u.f.flushPause ==> u.f.anchorCaptured)
            && u.p.tick == u.p.lastProofTick == last.tick && u.p.nowUs == last.nowUs
  {
    var c1 := [] + [Holds(h)];
    var c2 := c1 + [Maps(h.scope, stop, true)];
    hide Run, Cycles, Through, StandStill, ValidMapped, HoldAdmitted, StopsExcursion, AfterHold, AfterImage, Zero;
    Nothing(s);
    Then(s, [], Holds(h));
    HoldBrakes(s.t, h);
    Then(s, c1, Maps(h.scope, stop, true));
    BrakeStops(Run(s, c1).t, stop);
    ThenCycles(s, c2, h.scope, q);
    StillQualifies(Run(s, c2).t, q);
  }

  /** An admissible START lets a plain HOLD run from where it is held. */
  lemma PlainResumes(s: Sys, r: Resume, ack: seq<Image>)
    requires s.t.p.phase.Held? && s.t.p.stableCycles == REQUIRED_STABLE_CYCLES && !PathReturn(s.t.f)
    requires s.t.p.tick == s.t.p.lastProofTick != 0 && (s.t.f.flushPause ==> s.t.f.anchorCaptured) && GoodStart(s.t, r)
    requires Acknowledges(s.t.f.scope, s.t.f.pose, s.t.p.tick, s.t.p.nowUs, ack)
    ensures Run(s, [] + [Resumes(r)] + Cycles(s.t.f.scope, ack)).t.p.phase.Running?
  {
    var c1 := [] + [Resumes(r)];
    assert [ack[0], ack[1]] == ack;
    hide Run, Cycles, Through, StandStill, ValidMapped, AfterResume, AfterCycle, Zero, GoodStart;
    Nothing(s);
    Then(s, [], Resumes(r));
    StartReleases(s.t, r);
    ThenCycles(s, c1, s.t.f.scope, ack);
    ThroughTwo(Run(s, c1).t, ack);
    ResumingRuns(Run(s, c1).t, ack[0], ack[1]);
  }

  /** A whole pause without path return. */
  lemma PlainPauseCompletes(s: Sys, h: Hold, stop: Image, q: seq<Image>, r: Resume, ack: seq<Image>)
    requires HoldAdmitted(s.t, h) && !StopsExcursion(s.t) && (h.flush || !h.scope.pathProfile)
    requires Later(h.scope, h.tick, h.nowUs, stop) && Still200(h.scope, stop.pose, stop.tick, stop.nowUs, q)
    requires Acknowledges(h.scope, stop.pose, q[|q| - 1].tick, q[|q| - 1].nowUs, ack)
    requires GoodStart(Run(s, [] + [Holds(h)] + [Maps(h.scope, stop, true)] + Cycles(h.scope, q)).t, r)
    ensures var held := [] + [Holds(h)] + [Maps(h.scope, stop, true)] + Cycles(h.scope, q);
            Run(s, held + ([] + [Resumes(r)] + Cycles(h.scope, ack))).t.p.phase.Running?
  {
    hide Run, Cycles, StandStill, ValidMapped, HoldAdmitted, StopsExcursion, Zero, GoodStart;
    var held := [] + [Holds(h)] + [Maps(h.scope, stop, true)] + Cycles(h.scope, q);
    PlainIsHeld(s, h, stop, q);
    TicksPositive(h.scope, stop.pose, q);
    PlainResumes(Run(s, held), r, ack);
    RunAppends(s, held, [] + [Resumes(r)] + Cycles(h.scope, ack));
  }

  /** When no retreat is available the HOLD is held at the anchor. */
  lemma UnplannedIsHeld(s: Sys, h: Hold, stop: Image, q: seq<Image>)
    requires HoldAdmitted(s.t, h) && !StopsExcursion(s.t) && !h.flush && h.scope.pathProfile
    requires Later(h.scope, h.tick, h.nowUs, stop) && Still200(h.scope, stop.pose, stop.tick, stop.nowUs, q)
    ensures var u := Run(s, [] + [Holds(h)] + [Maps(h.scope, stop, true)] + [HasNoPlan] + Cycles(h.scope, q)).t;
            HeldAt(u, h, stop.pose, stop.pose, q[|q| - 1]) && u.f.retreatUnavailable && !u.f.retreatPlanned
  {
    var c1 := [] + [Holds(h)];
    var c2 := c1 + [Maps(h.scope, stop, true)];
    var c3 := c2 + [HasNoPlan];
    hide Run, Cycles, Through, StandStill, ValidMapped, HoldAdmitted, StopsExcursion, AfterHold, AfterImage, Zero;
    Nothing(s);
    Then(s, [], Holds(h));
    HoldBrakes(s.t, h);
    Then(s, c1, Maps(h.scope, stop, true));
    BrakeStops(Run(s, c1).t, stop);
    Then(s, c2, HasNoPlan);
    ThenCycles(s, c3, h.scope, q);
    StillQualifies(Run(s, c3).t, q);
  }

  /**
   A second HOLD anywhere in an anchored path pause revokes the START and is held again 200 proofs after its stop,
   with the anchor it had.
   */
  lemma SecondHoldIsHeld(s: Sys, h: Hold, stop: Image, q: seq<Image>)
    requires HoldAdmitted(s.t, h) && StopsExcursion(s.t)
    requires Later(s.t.f.scope, h.tick, h.nowUs, stop) && Still200(s.t.f.scope, stop.pose, stop.tick, stop.nowUs, q)
    ensures var u := Run(s, [] + [Holds(h)] + [Maps(s.t.f.scope, stop, true)] + Cycles(s.t.f.scope, q)).t;
            && u.p.phase.Held? && u.p.stableCycles == REQUIRED_STABLE_CYCLES && u.rest == stop.pose
            && u.f.pose == s.t.f.pose && u.anchorCursor == s.t.anchorCursor && u.f.interrupted && !u.p.exactReturn
            && u.f.resumeStartSequence == 0 && u.f.holdSequence == h.holdSequence && u.f.startFloor == h.startFloor
            && u.f.retreatPlanned == s.t.f.retreatPlanned && u.f.retreatTarget == s.t.f.retreatTarget
  {
    var scope := s.t.f.scope;
    var c1 := [] + [Holds(h)];
    var c2 := c1 + [Maps(scope, stop, true)];
    hide Run, Cycles, Through, StandStill, ValidMapped, HoldAdmitted, AfterHold, AfterImage, Zero;
    Nothing(s);
    Then(s, [], Holds(h));
    SecondHoldBrakes(s.t, h);
    Then(s, c1, Maps(scope, stop, true));
    RebrakeStops(Run(s, c1).t, stop);
    RebrakeKeepsReturn(Run(s, c1).t, stop);
    ThenCycles(s, c2, scope, q);
    StillQualifies(Run(s, c2).t, q);
    RequalifyKeepsReturn(Run(s, c2).t, q);
  }

  lemma SecondHoldBrakes(t: State, h: Hold)
    requires HoldAdmitted(t, h) && StopsExcursion(t)
    ensures var u := AfterHold(t, h);
            && u.p.phase.Rebraking? && u.p.tick == h.tick && u.p.nowUs == h.nowUs && !u.p.exactReturn
            && u.f == t.f.(holdSequence := h.holdSequence, startFloor := h.startFloor, resumeStartSequence := 0,
                           rejectedStartSequence := 0, interrupted := true)
            && u.anchorCursor == t.anchorCursor
  {
    hide HoldAdmitted;
  }

  lemma RebrakeKeepsReturn(t: State, f: Image)
    requires t.p.phase.Rebraking? && PathReturn(t.f) && StopsAt(t, f)
    ensures AfterImage(t, t.f.scope, f, true).p.exactReturn == t.p.exactReturn
  {
    hide ValidMapped;
  }

  lemma {:induction false} RequalifyKeepsReturn(t: State, fs: seq<Image>)
    requires (t.p.phase.Requalifying? || t.p.phase.Held?) && PathReturn(t.f)
    ensures var u := Through(t, fs);
            (u.p.phase.Requalifying? || u.p.phase.Held? || u.p.phase.Rejected?) && u.f == t.f
            && u.p.exactReturn == t.p.exactReturn
    decreases |fs|
  {
    hide AfterCycle;
    if fs != [] {
      RequalifyKeepsReturn(t, fs[..|fs| - 1]);
      RequalifyCycle(Through(t, fs[..|fs| - 1]), fs[|fs| - 1]);
    }
  }

  lemma RequalifyCycle(t: State, f: Image)
    requires (t.p.phase.Requalifying? || t.p.phase.Held? || t.p.phase.Rejected?) && PathReturn(t.f)
    ensures var u := AfterCycle(t, f);
            (u.p.phase.Requalifying? || u.p.phase.Held? || u.p.phase.Rejected?) && u.f == t.f
            && u.p.exactReturn == t.p.exactReturn
  {
    RequalifyImage(t, f);
    hide AfterImage;
  }

  lemma RequalifyImage(t: State, f: Image)
    requires (t.p.phase.Requalifying? || t.p.phase.Held? || t.p.phase.Rejected?) && PathReturn(t.f)
    ensures var u := AfterImage(t, t.f.scope, f, true);
            (u.p.phase == t.p.phase || u.p.phase.Rejected?) && u.f == t.f && u.p.exactReturn == t.p.exactReturn
  {
    hide ImageAccepted;
  }

  // ------------------------------------------------------- which HOLDs start

  /** A HOLD at a mapped image of at most one tick and 1500 us ago. */
  predicate FreshHold(h: Hold) {
    && h.admitted && h.holdSequence > 0 && ValidMapped(h.scope, h.committed)
    && (h.tick == h.committed.tick || h.tick == h.committed.tick + 1)
    && h.committed.nowUs <= h.nowUs <= h.committed.nowUs + 1500
  }

  /** A cleared transaction takes exactly the fresh HOLDs. */
  lemma FirstHoldIsTaken(h: Hold)
    ensures HoldAdmitted(CLEARED, h) <==> FreshHold(h)
  {
    assert ValidMapped(h.scope, h.committed) ==> h.committed.tick > 0 && h.committed.nowUs > 0;
    hide ValidMapped;
  }

  /**
   After any run, a fresh HOLD with a later sequence, and a floor at or above every START seen, is taken, unless the
   transaction was rejected or holds another scope or kind of pause; and only such a HOLD is.
   */
  lemma LaterHoldIsTaken(calls: seq<Call>, h: Hold)
    ensures var t := Run(START, calls).t;
            HoldAdmitted(t, h) <==>
              && FreshHold(h) && !t.p.phase.Rejected?
              && (Holding(t.p.phase) ==> h.scope == t.f.scope && h.flush == t.f.flushPause)
              && h.holdSequence > t.f.holdSequence
              && h.startFloor >= t.f.startFloor && h.startFloor >= t.f.resumeStartSequence
              && h.startFloor >= t.f.rejectedStartSequence
  {
    assert ValidMapped(h.scope, h.committed) ==> h.committed.tick > 0 && h.committed.nowUs > 0;
    hide ValidMapped, Run;
  }

  /** From a cleared transaction any fresh HOLD along a path goes the whole way to Running. */
  lemma FirstPauseCompletes(h: Hold, stop: Image, plan: Plan, q1: seq<Image>, top: Image, q2: seq<Image>,
                            r: Resume, home: Image, q3: seq<Image>, ack: seq<Image>)
    requires FreshHold(h) && GoodOutward(h, stop, plan, q1, top, q2)
    requires GoodStart(Run(START, Outward(h, stop, plan, q1, top, q2)).t, r)
    requires Later(h.scope, q2[|q2| - 1].tick, q2[|q2| - 1].nowUs, home) && home.pose == stop.pose
    requires Still200(h.scope, stop.pose, home.tick, home.nowUs, q3)
    requires Acknowledges(h.scope, stop.pose, q3[|q3| - 1].tick, q3[|q3| - 1].nowUs, ack)
    ensures var t := Run(START, Outward(h, stop, plan, q1, top, q2) + Homeward(h.scope, r, home, q3, ack)).t;
            t.p.phase.Running? && t.f.resumeStartSequence == r.startSequence && t.f.pose == stop.pose
  {
    hide Run, Outward, Homeward, GoodOutward, GoodStart, Later, Still200, Acknowledges, HoldAdmitted;
    FirstHoldIsTaken(h);
    PauseCompletes(START, h, stop, plan, q1, top, q2, r, home, q3, ack);
  }

  // ------------------------------------------------------- images in motion

  /**
   While it brakes, any current image in motion is taken; a first braking follows its pose, a second keeps the
   anchor.
   */
  lemma BrakingFollows(t: State, f: Image)
    requires (t.p.phase.Braking? || (t.p.phase.Rebraking? && PathReturn(t.f))) && Current(t, f) && !Zero(f)
    ensures var u := AfterImage(t, t.f.scope, f, true);
            && u.p == t.p.(tick := f.tick, nowUs := f.nowUs)
            && u.f.pose == (if t.p.phase.Braking? then f.pose else t.f.pose)
            && u.f == t.f.(pose := u.f.pose)
  {
    hide ValidMapped;
  }

  /**
   On the excursion a current image in motion is taken when it lies between target and anchor and moves towards the
   end of its leg, and it changes nothing but the dates; one that moves the other way is refused for good.
   */
  lemma ExcursionFollows(t: State, f: Image)
    requires (t.p.phase.Retreating? || t.p.phase.Returning?) && PathReturn(t.f) && t.f.retreatPlanned && Current(t, f)
    ensures var u := AfterImage(t, t.f.scope, f, true);
            var v := if t.p.phase.Retreating? then f.velocityMmSec else -f.velocityMmSec;
            && (v > 0.0 ==> u.p.phase.Rejected?)
            && (v < 0.0 && t.f.retreatStationMm <= f.pose.stationMm <= t.f.pose.stationMm ==>
                  u == t.(p := t.p.(tick := f.tick, nowUs := f.nowUs)))
  {
    hide ValidMapped;
    RoundoffPositive(t.f.pose.stationMm);
  }

  /** At rest an image is refused exactly when it moves, leaves the rest pose, is not mapped or is older. */
  lemma RestRefusesExactly(t: State, f: Image)
    requires ZeroPhase(t.p.phase) && (PathPhase(t.p.phase) ==> PathReturn(t.f))
    ensures AfterImage(t, t.f.scope, f, true).p.phase.Rejected? <==>
            !(Current(t, f) && Zero(f) && f.pose == RestPose(t))
  {
    hide ValidMapped;
  }
}
