/**
 EDM82 kernel: one canonical cursor mapped through the retained path.  The scalar
 kernel that moves the cursor is given by the candidates it returns.
 */
module RetainedKernel {
  import opened Reals
  import opened Trigonometry
  import opened RetainedPath
  import opened RetainedMotion

  datatype State = Idle | Running | JumpRetreat | ShortRetreat | Returning | Cancelled | Completed | Fault

  predicate Terminal(s: State) { s.Cancelled? || s.Completed? || s.Fault? }

  predicate Live(s: State) { !s.Idle? && !Terminal(s) }

  /** What the scalar kernel answers to a Begin, a Step or a Cancel. */
  datatype Candidate = Candidate(
    state: State, reason: Reason, cursorMm: real, anchorMm: real, steps: nat, committed: bool)

  datatype Snapshot = Snapshot(
    state: State, reason: Reason, scope: Scope, pose: seq<real>, cursorMm: real, anchorMm: real, pathLengthMm: real,
    ordinal: nat, u: real, steps: nat, committed: bool)

  const EMPTY := Snapshot(Idle, None, Scope(false, 0, 0), seq(AXIS_COUNT, _ => 0.0), 0.0, 0.0, 0.0, 0, 0.0, 0, false)

  function PoseAt(trig: Trig, t: Table, c: real): (pose: seq<real>)
    requires Stationed(t) && 0.0 <= c <= Length(t)
    ensures |pose| == AXIS_COUNT
  {
    seq(AXIS_COUNT, axis requires 0 <= axis < AXIS_COUNT => Pose(trig, t, c, axis))
  }

  /** The last accepted values, with a fault on top. */
  function Failed(s: Snapshot, why: Reason): Snapshot { s.(state := Fault, reason := why, committed := false) }

  /** The per-axis tests of Step from the given axis on: the first that fails, or None. */
  function Tested(start: seq<real>, from: seq<real>, to: seq<real>, config: Config, axis: nat): Reason
    requires |start| == |from| == |to| == |config.axes| == AXIS_COUNT && config.periodUs > 0 && axis <= AXIS_COUNT
    decreases AXIS_COUNT - axis
  {
    if axis == AXIS_COUNT then None
    else
      var why := TestedAxis(start[axis], from[axis], to[axis], config.axes[axis], Scale(config));
      if why.None? then Tested(start, from, to, config, axis + 1) else why
  }

  function TestedAxis(start: real, from: real, to: real, b: Bounds, scale: real): Reason {
    if to < b.minimum || to > b.maximum then AxisLimit
    else if Abs(to - start) > b.maxTravel then TravelLimit
    else if Abs(to - from) * scale > b.maxVelocityPerMin * SLACK then VelocityLimit
    else None
  }

  function Advanced(trig: Trig, t: Table, s: Snapshot, c: Candidate): Snapshot
    requires Stationed(t) && 0.0 <= c.cursorMm <= Length(t)
  {
    var owner := Owner(t, c.cursorMm);
    s.(pose := PoseAt(trig, t, c.cursorMm), ordinal := owner + 1, u := Parameter(t, owner, c.cursorMm),
       cursorMm := c.cursorMm, anchorMm := c.anchorMm, steps := c.steps, state := c.state, reason := c.reason,
       committed := c.committed)
  }

  /** Coherence of a live snapshot: it shows the pose of its own cursor on a bounded path. */
  ghost predicate Coherent(trig: Trig, t: Table, config: Config, s: Snapshot) {
    Sound(trig, t) && Ready(t, config) && OnPath(t, s.cursorMm) && s.pose == PoseAt(trig, t, s.cursorMm)
  }

  /** Step as a function; tests says whether the per-axis tests after the traversal check are made. */
  ghost function AfterStep(trig: Trig, t: Table, config: Config, was: Snapshot, c: Candidate, tests: bool): Snapshot
    requires Live(was.state) ==> Coherent(trig, t, config, was)
  {
    var s := was.(committed := false);
    if Terminal(s.state) then s
    else if s.state.Idle? then Failed(s, Lifecycle)
    else if c.state.Fault? then Failed(s, c.reason)
    else if c.state.Cancelled? then s.(state := Cancelled, reason := c.reason)
    else if !OnPath(t, c.cursorMm) then Failed(s, PathFailure)
    else if !TraversalAllowed(trig, t, s.cursorMm, c.cursorMm, config) then Failed(s, VelocityLimit)
    else
      var why := Tested(t.rows[0].start, s.pose, PoseAt(trig, t, c.cursorMm), config, 0);
      if tests && !why.None? then Failed(s, why) else Advanced(trig, t, s, c)
  }

  // ------------------------------------------------------- the tests of Step

  lemma AllowedOnSpot(trig: Trig, t: Table, from: real, to: real, config: Config)
    requires Stationed(t) && |config.axes| == AXIS_COUNT && config.periodUs > 0
    ensures from == to ==> TraversalAllowed(trig, t, from, to, config)
  {
  }

  /** What the tests of one axis demand. */
  predicate AxisPasses(trig: Trig, t: Table, config: Config, from: real, to: real, axis: nat)
    requires Stationed(t) && axis < AXIS_COUNT == |config.axes| && config.periodUs > 0 && OnPath(t, from)
          && OnPath(t, to)
  {
    && Kept(t, config, axis, Pose(trig, t, to, axis))
    && PerMinute(config, RetainedMotion.Moved(trig, t, from, to, axis)) <= Limit(config, axis)
  }

  /** The chain of tests finds nothing exactly when every axis keeps its limits, its travel and its velocity. */
  lemma {:induction false} TestedExactly(trig: Trig, t: Table, config: Config, from: real, to: real, first: nat)
    requires Stationed(t) && |config.axes| == AXIS_COUNT && config.periodUs > 0
    requires OnPath(t, from) && OnPath(t, to) && first <= AXIS_COUNT
    ensures Tested(t.rows[0].start, PoseAt(trig, t, from), PoseAt(trig, t, to), config, first) == None <==>
            forall axis: nat :: first <= axis < AXIS_COUNT ==> AxisPasses(trig, t, config, from, to, axis)
    decreases AXIS_COUNT - first
  {
    hide Pose, Scale;
    if first < AXIS_COUNT {
      TestedExactly(trig, t, config, from, to, first + 1);
      var why := TestedAxis(t.rows[0].start[first], PoseAt(trig, t, from)[first], PoseAt(trig, t, to)[first],
                            config.axes[first], Scale(config));
      assert why.None? <==> AxisPasses(trig, t, config, from, to, first);
    }
  }

  lemma TestsPass(trig: Trig, t: Table, config: Config, from: real, to: real)
    requires Lawful(trig) && Sound(trig, t) && Ready(t, config) && Tight(trig, t) && EndsKept(trig, t, config)
    requires OnPath(t, from) && OnPath(t, to) && TraversalAllowed(trig, t, from, to, config)
    ensures forall axis: nat :: axis < AXIS_COUNT ==> AxisPasses(trig, t, config, from, to, axis)
  {
    hide Lawful, Supported, Pose, TraversalAllowed, BoundsHold, ValidAxes, Tight, EndsKept, Kept, PerMinute, Limit;
    forall axis: nat | axis < AXIS_COUNT ensures AxisPasses(trig, t, config, from, to, axis) {
      BoundsCoverPath(trig, t, config, to, axis);
      TightKeepsVelocity(trig, t, from, to, config, axis);
    }
  }

  /**
   After the bounds check of Begin and the traversal check, the AxisLimit, TravelLimit and VelocityLimit
   tests of Step cannot fire: with and without them every step leaves the same snapshot.
   */
  lemma StepTestsCannotFire(trig: Trig, t: Table, config: Config, s: Snapshot, c: Candidate)
    requires Live(s.state) ==>
               Coherent(trig, t, config, s) && Lawful(trig) && Tight(trig, t) && EndsKept(trig, t, config)
    ensures AfterStep(trig, t, config, s, c, true) == AfterStep(trig, t, config, s, c, false)
  {
    hide TraversalAllowed, Tested, Lawful, Supported, Tight, EndsKept, Pose, BoundsHold, Owner, Parameter, AxisPasses;
    if Live(s.state) && OnPath(t, c.cursorMm) && TraversalAllowed(trig, t, s.cursorMm, c.cursorMm, config) {
      TestsPass(trig, t, config, s.cursorMm, c.cursorMm);
      TestedExactly(trig, t, config, s.cursorMm, c.cursorMm, 0);
    }
  }

  ghost predicate TestsNeverFire(trig: Trig, t: Table) {
    forall config: Config, s: Snapshot, c: Candidate :: Live(s.state) && Coherent(trig, t, config, s) ==>
      AfterStep(trig, t, config, s, c, true) == AfterStep(trig, t, config, s, c, false)
  }

  function Standing(trig: Trig, t: Table, c: real): (s: Snapshot)
    requires Stationed(t) && OnPath(t, c)
  {
    Snapshot(Running, None, Scope(true, 1, 0), PoseAt(trig, t, c), c, 0.0, Length(t), 0, 0.0, 0, false)
  }

  function Towards(c: real): Candidate { Candidate(Running, None, c, 0.0, 0, false) }

  /** A step whose per-axis tests find something although its traversal passes. */
  lemma Fires(trig: Trig, t: Table, config: Config, from: real, to: real, axis: nat)
    requires Sound(trig, t) && Ready(t, config) && OnPath(t, from) && OnPath(t, to) && axis < AXIS_COUNT
    requires TraversalAllowed(trig, t, from, to, config) && !AxisPasses(trig, t, config, from, to, axis)
    ensures Coherent(trig, t, config, Standing(trig, t, from))
    ensures AfterStep(trig, t, config, Standing(trig, t, from), Towards(to), true).state.Fault?
    ensures AfterStep(trig, t, config, Standing(trig, t, from), Towards(to), false).state.Running?
  {
    hide TraversalAllowed, Tested, Supported, Pose, BoundsHold, Owner, Parameter, AxisPasses;
    TestedExactly(trig, t, config, from, to, 0);
  }

  /**
   Exactly when: the tests of Step after a passed traversal check never change anything, under all limits
   that Begin admits, if and only if no row end has an excess and every arc's curve ends inside those limits.
   */
  lemma TestsNeverFireExactly(trig: Trig, t: Table)
    requires Lawful(trig) && Sound(trig, t)
    ensures TestsNeverFire(trig, t) <==>
            Tight(trig, t) && forall config: Config :: Ready(t, config) ==> EndsKept(trig, t, config)
  {
    hide TraversalAllowed, Lawful, Supported, Tight, EndsKept, Kept, BoundsHold, AfterStep, Pose, PerMinute, Limit;
    if Tight(trig, t) && forall config: Config :: Ready(t, config) ==> EndsKept(trig, t, config) {
      forall config: Config, s: Snapshot, c: Candidate | Live(s.state) && Coherent(trig, t, config, s)
        ensures AfterStep(trig, t, config, s, c, true) == AfterStep(trig, t, config, s, c, false)
      {
        StepTestsCannotFire(trig, t, config, s, c);
      }
    } else if !Tight(trig, t) {
      FiresWhenLoose(trig, t);
    } else {
      var config: Config :| Ready(t, config) && !EndsKept(trig, t, config);
      FiresOutside(trig, t, config);
    }
  }

  lemma FiresWhenLoose(trig: Trig, t: Table)
    requires Lawful(trig) && Sound(trig, t) && !Tight(trig, t)
    ensures !TestsNeverFire(trig, t)
  {
    hide TraversalAllowed, Lawful, Supported, Tight, Kept, BoundsHold, AfterStep, Pose, PerMinute, Limit, ValidAxes;
    TraversalSufficesExactlyWhenTight(trig, t);
    var from: real, to: real, config: Config, axis: nat :|
      OnPath(t, from) && OnPath(t, to) && Ready(t, config) && axis < AXIS_COUNT
      && TraversalAllowed(trig, t, from, to, config)
      && PerMinute(config, RetainedMotion.Moved(trig, t, from, to, axis)) > Limit(config, axis);
    Fires(trig, t, config, from, to, axis);
    Differ(trig, t, config, from, to);
  }

  lemma FiresOutside(trig: Trig, t: Table, config: Config)
    requires Lawful(trig) && Sound(trig, t) && Ready(t, config) && !EndsKept(trig, t, config)
    ensures !TestsNeverFire(trig, t)
  {
    hide TraversalAllowed, Lawful, Supported, EndsKept, Kept, BoundsHold, AfterStep, Pose, PerMinute, Limit, ValidAxes;
    PathKeptExactlyWhenEndsAre(trig, t, config);
    var c: real, axis: nat :| OnPath(t, c) && axis < AXIS_COUNT && !Kept(t, config, axis, Pose(trig, t, c, axis));
    AllowedOnSpot(trig, t, c, c, config);
    Fires(trig, t, config, c, c, axis);
    Differ(trig, t, config, c, c);
  }

  lemma Differ(trig: Trig, t: Table, config: Config, from: real, to: real)
    requires Sound(trig, t) && OnPath(t, from) && Coherent(trig, t, config, Standing(trig, t, from))
    requires AfterStep(trig, t, config, Standing(trig, t, from), Towards(to), true)
          != AfterStep(trig, t, config, Standing(trig, t, from), Towards(to), false)
    ensures !TestsNeverFire(trig, t)
  {
    hide AfterStep, Coherent;
    assert Live(Standing(trig, t, from).state);
  }

  // ------------------------------------------------------------------ runs

  lemma StepKeepsCoherence(trig: Trig, t: Table, config: Config, s: Snapshot, c: Candidate, tests: bool)
    requires Live(s.state) ==> Coherent(trig, t, config, s)
    ensures var after := AfterStep(trig, t, config, s, c, tests);
            Live(after.state) ==> Coherent(trig, t, config, after)
  {
    hide TraversalAllowed, Tested, PoseAt, Sound, Ready, Owner, Parameter;
  }

  ghost function Run(trig: Trig, t: Table, config: Config, s: Snapshot, steps: seq<Candidate>,
      tests: bool): (r: Snapshot)
    requires Live(s.state) ==> Coherent(trig, t, config, s)
    ensures Live(r.state) ==> Coherent(trig, t, config, r)
    decreases |steps|
  {
    if steps == [] then s
    else
      hide AfterStep, Coherent;
      var before := Run(trig, t, config, s, steps[..|steps| - 1], tests);
      StepKeepsCoherence(trig, t, config, before, steps[|steps| - 1], tests);
      AfterStep(trig, t, config, before, steps[|steps| - 1], tests)
  }

  /** Under the exact condition whole runs need no tests either. */
  lemma {:induction false} RunNeedsNoTests(trig: Trig, t: Table, config: Config, s: Snapshot, steps: seq<Candidate>)
    requires Live(s.state) ==> Coherent(trig, t, config, s)
    requires Lawful(trig) && Stationed(t) && |config.axes| == AXIS_COUNT && Tight(trig, t) && EndsKept(trig, t, config)
    ensures Run(trig, t, config, s, steps, true) == Run(trig, t, config, s, steps, false)
    decreases |steps|
  {
    hide AfterStep, Coherent, Lawful, Tight, EndsKept, Stationed;
    if steps != [] {
      RunNeedsNoTests(trig, t, config, s, steps[..|steps| - 1]);
      StepTestsCannotFire(trig, t, config, Run(trig, t, config, s, steps[..|steps| - 1], true), steps[|steps| - 1]);
    }
  }

  predicate Accepted(s: State) { !s.Fault? && !s.Cancelled? }

  /** An accepted step shows the candidate's pose, and either its tests have passed or they need not be made. */
  lemma AcceptedStep(trig: Trig, t: Table, config: Config, s: Snapshot, c: Candidate, tests: bool)
    requires Live(s.state) && Coherent(trig, t, config, s) && Accepted(AfterStep(trig, t, config, s, c, tests).state)
    ensures OnPath(t, c.cursorMm) && TraversalAllowed(trig, t, s.cursorMm, c.cursorMm, config)
    ensures AfterStep(trig, t, config, s, c, tests) == Advanced(trig, t, s.(committed := false), c)
    ensures tests ==> Tested(t.rows[0].start, s.pose, PoseAt(trig, t, c.cursorMm), config, 0) == None
  {
    hide TraversalAllowed, Tested, PoseAt, Sound, BoundsHold, Owner, Parameter;
  }

  /**
   On every run each accepted step, also the one that completes the path, stands inside its limits and its
   travel and has obeyed the velocity limit: with the tests always, without them under the exact condition.
   */
  lemma RunStaysWithinLimits(trig: Trig, t: Table, config: Config, s: Snapshot, steps: seq<Candidate>, c: Candidate,
                             axis: nat, tests: bool)
    requires Live(s.state) && Coherent(trig, t, config, s) && axis < AXIS_COUNT
    requires tests || (Lawful(trig) && Tight(trig, t) && EndsKept(trig, t, config))
    requires var before := Run(trig, t, config, s, steps, tests);
             Live(before.state) && Accepted(AfterStep(trig, t, config, before, c, tests).state)
    ensures var before := Run(trig, t, config, s, steps, tests);
            var after := AfterStep(trig, t, config, before, c, tests);
            && after.cursorMm == c.cursorMm && OnPath(t, c.cursorMm) && after.pose == PoseAt(trig, t, c.cursorMm)
            && Kept(t, config, axis, after.pose[axis])
            && PerMinute(config, Abs(after.pose[axis] - before.pose[axis])) <= Limit(config, axis)
  {
    hide TraversalAllowed, Tested, Pose, BoundsHold, Scale, Lawful, Tight, EndsKept, Kept, Owner, Parameter, AfterStep;
    var before := Run(trig, t, config, s, steps, tests);
    AcceptedStep(trig, t, config, before, c, tests);
    if tests {
      TestedExactly(trig, t, config, before.cursorMm, c.cursorMm, 0);
    } else {
      TestsPass(trig, t, config, before.cursorMm, c.cursorMm);
    }
    assert AxisPasses(trig, t, config, before.cursorMm, c.cursorMm, axis);
  }

  // ------------------------------------------------- what a step answers

  /** What a live kernel shows after a step it accepts: the candidate, on the row that owns its cursor. */
  predicate Shows(trig: Trig, t: Table, was: Snapshot, c: Candidate, now: Snapshot)
    requires Stationed(t) && OnPath(t, c.cursorMm)
  {
    && now.state == c.state && now.reason == c.reason && now.cursorMm == c.cursorMm && now.anchorMm == c.anchorMm
    && now.steps == c.steps && now.committed == c.committed
    && now.scope == was.scope && now.pathLengthMm == was.pathLengthMm
    && now.ordinal > 0 && Owns(t, now.ordinal - 1, c.cursorMm) && now.u == Parameter(t, now.ordinal - 1, c.cursorMm)
    && |now.pose| == AXIS_COUNT
    && forall axis: nat :: axis < AXIS_COUNT ==> now.pose[axis] == Pose(trig, t, c.cursorMm, axis)
  }

  /** What it keeps when it refuses one. */
  predicate KeepsAll(was: Snapshot, now: Snapshot) {
    && now.cursorMm == was.cursorMm && now.anchorMm == was.anchorMm && now.steps == was.steps && now.pose == was.pose
    && now.ordinal == was.ordinal && now.u == was.u && now.scope == was.scope && now.pathLengthMm == was.pathLengthMm
    && !now.committed
  }

  /** The conditions under which a step of a live kernel is accepted. */
  ghost predicate Admissible(trig: Trig, t: Table, config: Config, s: Snapshot, c: Candidate)
    requires Coherent(trig, t, config, s)
  {
    && !c.state.Fault? && !c.state.Cancelled? && OnPath(t, c.cursorMm)
    && TraversalAllowed(trig, t, s.cursorMm, c.cursorMm, config)
    && forall axis: nat :: axis < AXIS_COUNT ==> AxisPasses(trig, t, config, s.cursorMm, c.cursorMm, axis)
  }

  /** The first axis that does not pass, and which of its three tests it fails first. */
  predicate FailsFirst(trig: Trig, t: Table, config: Config, from: real, to: real, axis: nat, why: Reason)
    requires Stationed(t) && |config.axes| == AXIS_COUNT && config.periodUs > 0 && OnPath(t, from) && OnPath(t, to)
  {
    && axis < AXIS_COUNT && !AxisPasses(trig, t, config, from, to, axis)
    && (forall a: nat :: a < axis ==> AxisPasses(trig, t, config, from, to, a))
    && var x, b := Pose(trig, t, to, axis), config.axes[axis];
       why == if x < b.minimum || x > b.maximum then AxisLimit
              else if Abs(x - t.rows[0].start[axis]) > b.maxTravel then TravelLimit
              else VelocityLimit
  }

  lemma OneAxisTested(trig: Trig, t: Table, config: Config, from: real, to: real, axis: nat)
    requires Stationed(t) && |config.axes| == AXIS_COUNT && config.periodUs > 0
    requires OnPath(t, from) && OnPath(t, to) && axis < AXIS_COUNT
    requires forall a: nat :: a < axis ==> AxisPasses(trig, t, config, from, to, a)
    ensures var why := TestedAxis(t.rows[0].start[axis], PoseAt(trig, t, from)[axis], PoseAt(trig, t, to)[axis],
                                  config.axes[axis], Scale(config));
            if why.None? then AxisPasses(trig, t, config, from, to, axis)
            else FailsFirst(trig, t, config, from, to, axis, why)
  {
    hide Pose, Scale;
  }

  lemma {:induction false} TestedFails(trig: Trig, t: Table, config: Config, from: real, to: real, first: nat)
    returns (axis: nat)
    requires Stationed(t) && |config.axes| == AXIS_COUNT && config.periodUs > 0
    requires OnPath(t, from) && OnPath(t, to) && first <= AXIS_COUNT
    requires forall a: nat :: a < first ==> AxisPasses(trig, t, config, from, to, a)
    requires Tested(t.rows[0].start, PoseAt(trig, t, from), PoseAt(trig, t, to), config, first) != None
    ensures FailsFirst(trig, t, config, from, to, axis,
                       Tested(t.rows[0].start, PoseAt(trig, t, from), PoseAt(trig, t, to), config, first))
    decreases AXIS_COUNT - first
  {
    hide Pose, Scale, TestedAxis, AxisPasses, FailsFirst;
    OneAxisTested(trig, t, config, from, to, first);
    if TestedAxis(t.rows[0].start[first], PoseAt(trig, t, from)[first], PoseAt(trig, t, to)[first],
                  config.axes[first], Scale(config)).None? {
      axis := TestedFails(trig, t, config, from, to, first + 1);
    } else {
      axis := first;
    }
  }

  /** The reason of a refusal that is not the scalar kernel's own. */
  ghost predicate RefusedFor(trig: Trig, t: Table, config: Config, was: Snapshot, c: Candidate, why: Reason)
    requires Coherent(trig, t, config, was)
  {
    if !OnPath(t, c.cursorMm) then why == PathFailure
    else if !TraversalAllowed(trig, t, was.cursorMm, c.cursorMm, config) then why == VelocityLimit
    else exists axis: nat :: FailsFirst(trig, t, config, was.cursorMm, c.cursorMm, axis, why)
  }

  lemma StepShows(trig: Trig, t: Table, config: Config, was: Snapshot, c: Candidate)
    requires Live(was.state) && Coherent(trig, t, config, was) && Admissible(trig, t, config, was, c)
    ensures Shows(trig, t, was, c, AfterStep(trig, t, config, was, c, true))
  {
    hide TraversalAllowed, Tested, Pose, Supported, BoundsHold, Parameter, AxisPasses;
    TestedExactly(trig, t, config, was.cursorMm, c.cursorMm, 0);
  }

  lemma StepRefuses(trig: Trig, t: Table, config: Config, was: Snapshot, c: Candidate)
    requires Live(was.state) && Coherent(trig, t, config, was) && !Admissible(trig, t, config, was, c)
    ensures var now := AfterStep(trig, t, config, was, c, true);
            && KeepsAll(was, now) && (now.state == if c.state.Cancelled? then Cancelled else Fault)
            && if c.state.Fault? || c.state.Cancelled? then now.reason == c.reason
               else RefusedFor(trig, t, config, was, c, now.reason)
  {
    hide TraversalAllowed, Tested, Pose, Supported, BoundsHold, Parameter, AxisPasses, FailsFirst;
    if !c.state.Fault? && !c.state.Cancelled? && OnPath(t, c.cursorMm)
       && TraversalAllowed(trig, t, was.cursorMm, c.cursorMm, config) {
      TestedExactly(trig, t, config, was.cursorMm, c.cursorMm, 0);
      var axis := TestedFails(trig, t, config, was.cursorMm, c.cursorMm, 0);
    }
  }

  /**
   Every step of a run: an admissible candidate is shown whole, with its state, so a completing candidate completes
   the kernel; any other is refused, with everything shown before kept, as a cancellation or a fault with its reason.
   */
  lemma StepAnswersExactly(trig: Trig, t: Table, config: Config, s: Snapshot, steps: seq<Candidate>, c: Candidate)
    requires Live(s.state) && Coherent(trig, t, config, s) && Live(Run(trig, t, config, s, steps, true).state)
    ensures var was, now := Run(trig, t, config, s, steps, true), Run(trig, t, config, s, steps + [c], true);
            if Admissible(trig, t, config, was, c) then Shows(trig, t, was, c, now)
            else && KeepsAll(was, now) && (now.state == if c.state.Cancelled? then Cancelled else Fault)
                 && if c.state.Fault? || c.state.Cancelled? then now.reason == c.reason
                    else RefusedFor(trig, t, config, was, c, now.reason)
  {
    hide AfterStep, Admissible, Shows, RefusedFor, Coherent;
    var was := Run(trig, t, config, s, steps, true);
    assert (steps + [c])[..|steps + [c]| - 1] == steps;
    if Admissible(trig, t, config, was, c) {
      StepShows(trig, t, config, was, c);
    } else {
      StepRefuses(trig, t, config, was, c);
    }
  }

  /** Once a run is completed, cancelled or at fault, no further steps move it. */
  lemma {:induction false} TerminalForever(trig: Trig, t: Table, config: Config, s: Snapshot, steps: seq<Candidate>,
                                           tests: bool)
    requires Terminal(s.state)
    ensures Run(trig, t, config, s, steps, tests) == if steps == [] then s else s.(committed := false)
    decreases |steps|
  {
    if steps != [] {
      TerminalForever(trig, t, config, s, steps[..|steps| - 1], tests);
    }
  }

  // ---------------------------------------------------------------- kernel

  datatype Verdict = Admitted | Refused(reason: Reason)

  /** The tests of Begin that keep the run number, in their order. */
  function EarlyRefusal(state: State, retired: nat, scope: Scope): Verdict {
    if Live(state) then Refused(Lifecycle)
    else if !scope.valid then Refused(BadScope)
    else if scope.run <= retired then Refused(RetiredRun)
    else Verdict.Admitted
  }

  /** The tests of Begin after the run number is retired, in their order. */
  function LateRefusal(config: Config, mapped: bool, scope: Scope, valid: bool, captured: Scope, t: Table,
                       scalar: Candidate): Verdict
    requires |config.axes| == AXIS_COUNT && (valid ==> Stationed(t))
  {
    if !valid then Refused(PathFailure)
    else if scope != captured then Refused(BadScope)
    else if !mapped then Refused(UnsupportedMapping)
    else if !ValidAxes(config) then Refused(Configuration)
    else
      var bounds := BoundsReason(t, config, 0);
      if !bounds.None? then Refused(bounds)
      else if scalar.state.Fault? then Refused(scalar.reason)
      else Verdict.Admitted
  }

  class Kernel {
    var path: Path
    var config: Config
    var current: Snapshot
    var retiredRun: nat

    ghost predicate Valid()
      reads this, path, path.rows, path.station
    {
      && path.Valid() && |config.axes| == AXIS_COUNT
      && (Live(current.state) ==> path.valid && Coherent(path.trig, path.View(), config, current))
    }

    constructor (trig: Trig, blank: Row, idleConfig: Config)
      requires |idleConfig.axes| == AXIS_COUNT
      ensures Valid() && current == EMPTY && retiredRun == 0
    {
      path := new Path(trig, blank);
      config, current, retiredRun := idleConfig, EMPTY, 0;
    }

    method Fail(why: Reason) returns (ok: bool)
      modifies this`current
      ensures !ok && current == Failed(old(current), why)
    {
      current := current.(state := Fault, reason := why, committed := false);
      ok := false;
    }

    /**
     Begin; scalar is what the scalar kernel answers, which admits no other period than 250 microseconds.
     A run number is used once, and a started run stands at the origin of its own copy of the path; every
     refusal is a fault with the reason of the first test that fails.
     */
    method Begin(newConfig: Config, mapped: bool, scope: Scope, source: Path, scalar: Candidate) returns (ok: bool)
      requires Valid() && source.Valid() && |newConfig.axes| == AXIS_COUNT
      requires !scalar.state.Fault? ==> newConfig.periodUs == 250
      modifies this
      ensures Valid()
      ensures var early := EarlyRefusal(old(current.state), old(retiredRun), scope);
              var late := LateRefusal(newConfig, mapped, scope, old(source.valid), old(source.scope),
                  old(source.View()), scalar);
              && ok == (early.Admitted? && late.Admitted?)
              && (early.Refused? ==> current == Failed(old(current), early.reason) && retiredRun == old(retiredRun))
              && (early.Admitted? ==> retiredRun == scope.run > old(retiredRun))
              && (early.Admitted? && late.Refused? ==> current == Failed(EMPTY.(scope := scope), late.reason))
      ensures ok ==> && path.valid && current == Origin(path, scope) && config == newConfig
                     && path.View() == old(source.View()) && path.scope == scope
    {
      hide LateRefusal;
      if Live(current.state) {
        ok := Fail(Lifecycle);
        return;
      }
      if !scope.valid {
        ok := Fail(BadScope);
        return;
      }
      if scope.run <= retiredRun {
        ok := Fail(RetiredRun);
        return;
      }
      retiredRun := scope.run;
      current := EMPTY.(scope := scope);
      ok := Admit(newConfig, mapped, scope, source, scalar);
    }

    /** A run at the start of a path. */
    ghost function Origin(path: Path, scope: Scope): Snapshot
      requires path.Valid() && path.valid
      reads path, path.rows, path.station
    {
      StationsIncrease(path.View(), 0, |path.View().rows|);
      Snapshot(Running, None, scope, PoseAt(path.trig, path.View(), 0.0), 0.0, 0.0, path.lengthMm, 1, 0.0, 0, false)
    }

    /** The rest of Begin, once the run number is retired. */
    method Admit(newConfig: Config, mapped: bool, scope: Scope, source: Path, scalar: Candidate) returns (ok: bool)
      requires Valid() && source.Valid() && |newConfig.axes| == AXIS_COUNT && current == EMPTY.(scope := scope)
      requires !scalar.state.Fault? ==> newConfig.periodUs == 250
      modifies this`path, this`config, this`current
      ensures Valid()
      ensures var late := LateRefusal(newConfig, mapped, scope, old(source.valid), old(source.scope),
            old(source.View()), scalar);
              ok == late.Admitted? && (late.Refused? ==> current == Failed(old(current), late.reason))
      ensures ok ==> && path.valid && current == Origin(path, scope) && config == newConfig
                     && path.View() == old(source.View()) && path.scope == scope
    {
      hide BoundsHold, BoundsReason, Supported, Pose, ValidAxes;
      if !source.valid {
        ok := Fail(PathFailure);
        return;
      }
      if scope != source.scope {
        ok := Fail(BadScope);
        return;
      }
      if !mapped {
        ok := Fail(UnsupportedMapping);
        return;
      }
      if !ValidAxes(newConfig) {
        ok := Fail(Configuration);
        return;
      }
      var bounds := source.ValidateBounds(newConfig);
      if !bounds.None? {
        ok := Fail(bounds);
        return;
      }
      if scalar.state.Fault? {
        ok := Fail(scalar.reason);
        return;
      }
      path := new Path.Copy(source);
      config := newConfig;
      Settle(scope);
      ok := true;
    }

    /** The start of a run at the origin of the path, where the evaluator always answers. */
    method Settle(scope: Scope)
      requires path.Valid() && path.valid && Ready(path.View(), config) && current == EMPTY.(scope := scope)
      modifies this`current
      ensures Valid() && current == Origin(path, scope)
    {
      assert |config.axes| == AXIS_COUNT;
      hide Ready, Supported, Pose, Evaluable;
      ghost var t := path.View();
      StationsIncrease(t, 0, |t.rows|);
      AlwaysEvaluable(t, 0.0);
      OwnerIsUnique(t, 0, Owner(t, 0.0), 0.0);
      ParameterEnds(t, 0);
      var _, pose, ordinal, u := path.Evaluate(0.0);
      current := current.(pose := pose, ordinal := ordinal, u := u, pathLengthMm := path.lengthMm, state := Running);
      assert pose == PoseAt(path.trig, t, 0.0);
    }

    static method TestAxis(start: real, from: real, to: real, b: Bounds, scale: real) returns (why: Reason)
      ensures why == TestedAxis(start, from, to, b, scale)
    {
      if to < b.minimum || to > b.maximum {
        return AxisLimit;
      }
      if Abs(to - start) > b.maxTravel {
        return TravelLimit;
      }
      var speed := Abs(to - from) * scale;
      if speed > b.maxVelocityPerMin * SLACK {
        return VelocityLimit;
      }
      return None;
    }

    static method Test(start: seq<real>, from: seq<real>, to: seq<real>, config: Config) returns (why: Reason)
      requires |start| == |from| == |to| == |config.axes| == AXIS_COUNT && config.periodUs > 0
      ensures why == Tested(start, from, to, config, 0)
    {
      hide Scale, TestedAxis;
      var axis := 0;
      while axis < AXIS_COUNT
        invariant 0 <= axis <= AXIS_COUNT
        invariant Tested(start, from, to, config, 0) == Tested(start, from, to, config, axis)
      {
        why := TestAxis(start[axis], from[axis], to[axis], config.axes[axis], Scale(config));
        if !why.None? {
          return;
        }
        axis := axis + 1;
      }
      return None;
    }

    method Step(c: Candidate)
      requires Valid()
      modifies this`current
      ensures Valid()
      ensures current == AfterStep(path.trig, path.View(), config, old(current), c, true)
    {
      current := current.(committed := false);
      if Terminal(current.state) {
        return;
      }
      if current.state.Idle? {
        var _ := Fail(Lifecycle);
        return;
      }
      if c.state.Fault? {
        var _ := Fail(c.reason);
        return;
      }
      if c.state.Cancelled? {
        current := current.(state := Cancelled, reason := c.reason);
        return;
      }
      Map(c);
    }

    method Map(c: Candidate)
      requires Valid() && Live(current.state) && !current.committed && !c.state.Fault? && !c.state.Cancelled?
      modifies this`current
      ensures Valid()
      ensures current == AfterStep(path.trig, path.View(), config, old(current), c, true)
    {
      hide Tested, TraversalAllowed, Pose, BoundsHold, ValidAxes, Supported, Owner, Parameter, Evaluable;
      ghost var t, was := path.View(), current;
      assert was.(committed := false) == was;
      var found, pose, ordinal, u := path.Evaluate(c.cursorMm);
      AlwaysEvaluable(t, c.cursorMm);
      if !found {
        var _ := Fail(PathFailure);
        return;
      }
      var traversal := path.ValidateTraversal(current.cursorMm, c.cursorMm, config);
      assert pose == PoseAt(path.trig, t, c.cursorMm);
      assert traversal.None? <==> TraversalAllowed(path.trig, t, was.cursorMm, c.cursorMm, config) by {
        AllowedOnSpot(path.trig, t, was.cursorMm, c.cursorMm, config);
      }
      if !traversal.None? {
        var _ := Fail(traversal);
        return;
      }
      assert t.rows[0] == path.rows[0];
      var why := Test(path.rows[0].start, current.pose, pose, config);
      if !why.None? {
        var _ := Fail(why);
        return;
      }
      current := current.(pose := pose, ordinal := ordinal, u := u, cursorMm := c.cursorMm, anchorMm := c.anchorMm,
                          steps := c.steps, state := c.state, reason := c.reason, committed := c.committed);
      assert current == Advanced(path.trig, t, was, c);
    }

    lemma AlwaysEvaluable(t: Table, c: real)
      requires Sound(path.trig, t)
      ensures OnPath(t, c) ==> forall axis: nat :: axis < AXIS_COUNT ==>
                                 Evaluable(t.rows[Owner(t, c)], axis, Parameter(t, Owner(t, c), c))
    {
      if OnPath(t, c) {
        forall axis: nat | axis < AXIS_COUNT
            ensures Evaluable(t.rows[Owner(t, c)], axis, Parameter(t, Owner(t, c), c)) {
          SoundIsEvaluable(path.trig, t, Owner(t, c), axis, c);
        }
      }
    }

    /** Cancel takes the scalar kernel's answer and keeps the last accepted values. */
    method Cancel(result: Candidate)
      requires Valid() && Terminal(result.state)
      modifies this`current
      ensures Valid()
      ensures current == if Terminal(old(current.state)) then old(current).(committed := false)
                         else old(current).(state := result.state, reason := result.reason, committed := false)
    {
      current := current.(committed := false);
      if Terminal(current.state) {
        return;
      }
      if result.state.Fault? {
        var _ := Fail(result.reason);
        return;
      }
      current := current.(state := result.state, reason := result.reason);
    }
  }
}
