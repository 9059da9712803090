/**
 One concrete arc that the geometry check admits, with a step that passes the traversal check and is
 then refused by the velocity test of Step.
 */
module RetainedExample {
  import opened Reals
  import opened Trigonometry
  import opened RetainedPath
  import opened RetainedMotion
  import opened RetainedKernel

  const OFF_MM: real := 0.00000004
  const STEP_MM: real := 0.001

  /** A quarter of a circle of radius 1000 from (0, 1000) to (-1000, 0), its stored start 4e-8 mm off the circle. */
  function QuarterArc(trig: Trig): Row {
    Row(Arc, true, false, false, [true, true, false, false, false, false],
        [OFF_MM, 1000.0, 0.0, 0.0, 0.0, 0.0], [-1000.0, 0.0, 0.0, 0.0, 0.0, 0.0], 500.0 * trig.pi,
        [0.0, 0.0], 1000.0, trig.pi / 2.0, trig.pi / 2.0, OFF_MM, [-1000.0, 0.0], [OFF_MM, 1000.0], true)
  }

  function QuarterPath(trig: Trig): Table { Table([QuarterArc(trig)], [0.0, 500.0 * trig.pi]) }

  /** 240 mm a minute on every axis, at the period of 250 microseconds. */
  function QuarterConfig(): Config {
    Config(seq(AXIS_COUNT, _ => Bounds(-2000.0, 2000.0, 4000.0, 240.0)), 250)
  }

  /** The cosine falls from 1 to -1 over half a turn, so half a turn is at least 2. */
  lemma HalfTurnIsLong(trig: Trig)
    requires Lawful(trig)
    ensures trig.pi >= 2.0
  {
    assert trig.pi > 0.0 && trig.cos(0.0) == 1.0;
    LawsAt(trig, trig.pi);
    forall z | 0.0 <= z <= trig.pi ensures Abs(Wave(trig, true, z)) <= 1.0 {
      WaveWithin(trig, true, z);
    }
    hide Lawful;
    Steepness(trig, true, 0.0, trig.pi, 1.0);
    assert trig.pi - trig.pi == 0.0;
  }

  /** Sine and cosine at a quarter and at half a turn. */
  lemma QuarterValues(trig: Trig)
    requires Lawful(trig)
    ensures trig.cos(trig.pi / 2.0) == 0.0 && trig.sin(trig.pi / 2.0) == 1.0
    ensures trig.cos(trig.pi) == -1.0 && trig.sin(trig.pi) == 0.0
  {
    assert trig.cos(0.0) == 1.0;
    hide Lawful;
    LawsAt(trig, trig.pi / 2.0);
    LawsAt(trig, trig.pi);
    assert trig.pi / 2.0 - trig.pi == -(trig.pi / 2.0) && trig.pi / 2.0 - trig.pi / 2.0 == 0.0;
    assert trig.pi - trig.pi == 0.0 && trig.pi - trig.pi / 2.0 == trig.pi / 2.0;
  }

  lemma QuarterEnds(trig: Trig, axis: nat)
    requires Lawful(trig) && axis < 2
    ensures var g := QuarterArc(trig);
            && Curve(trig, g, axis, 0.0) == (if axis == 0 then 0.0 else 1000.0)
            && Curve(trig, g, axis, 1.0) == g.end[axis]
  {
    hide Lawful;
    QuarterValues(trig);
    assert Angle(QuarterArc(trig), 0.0) == trig.pi / 2.0 && Angle(QuarterArc(trig), 1.0) == trig.pi;
  }

  /** The geometry check admits the row. */
  lemma QuarterIsValid(trig: Trig)
    requires Lawful(trig)
    ensures Supported(trig, QuarterArc(trig))
  {
    HalfTurnIsLong(trig);
    hide Lawful, Curve;
    var g := QuarterArc(trig);
    forall axis: nat | axis < 2 ensures ValidArcAxis(trig, g, axis) {
      QuarterEnds(trig, axis);
    }
  }

  lemma QuarterIsSound(trig: Trig)
    requires Lawful(trig)
    ensures Sound(trig, QuarterPath(trig)) && Length(QuarterPath(trig)) == 500.0 * trig.pi >= 1000.0
    ensures Ready(QuarterPath(trig), QuarterConfig())
  {
    HalfTurnIsLong(trig);
    hide Lawful, Supported;
    QuarterIsValid(trig);
  }

  /** Its charge is that of one millimetre for each millimetre of the cursor. */
  lemma QuarterCharged(trig: Trig)
    requires Lawful(trig) && Sound(trig, QuarterPath(trig)) && Length(QuarterPath(trig)) >= 1000.0
    ensures TraversalAllowed(trig, QuarterPath(trig), 0.0, STEP_MM, QuarterConfig())
  {
    var t, config := QuarterPath(trig), QuarterConfig();
    hide Lawful, Supported, Rate, TopRate, SeamTravel, Charge, WithinVelocity;
    forall axis: nat | axis < AXIS_COUNT ensures WithinVelocity(trig, t, axis, 0.0, STEP_MM, config) {
      QuarterRate(trig, axis);
      TopRateInRow(trig, t, 1, 0, axis, 0.0, STEP_MM);
      SeamsInRow(t, 1, 0, axis, 0.0, STEP_MM);
      OneForOne(TopRate(trig, t, 1, axis, 0.0, STEP_MM));
      ChargeIsTested(trig, t, axis, 0.0, STEP_MM, config);
      WithinLimit(axis, Charge(TopRate(trig, t, 1, axis, 0.0, STEP_MM), STEP_MM));
    }
  }

  lemma QuarterRate(trig: Trig, axis: nat)
    requires Lawful(trig) && Sound(trig, QuarterPath(trig)) && Length(QuarterPath(trig)) >= 1000.0 && axis < AXIS_COUNT
    ensures Rate(trig, QuarterPath(trig), 0, axis, 0.0, STEP_MM) <= 1.0
  {
    assert trig.pi > 0.0;
    if axis < 2 {
      hide Lawful, Supported, Rate, ArcSpeed;
      RateAtMost(trig, QuarterPath(trig), 0, axis, 0.0, STEP_MM);
      QuarterSpeed(trig);
    }
  }

  lemma QuarterSpeed(trig: Trig)
    requires trig.pi > 0.0
    ensures ArcSpeed(QuarterArc(trig), 1.0) == 1.0
  {
    assert 1000.0 * (trig.pi / 2.0) == 500.0 * trig.pi;
  }

  lemma OneForOne(rate: real)
    requires rate <= 1.0
    ensures Charge(rate, STEP_MM) <= STEP_MM
  {
  }

  lemma WithinLimit(axis: nat, moved: real)
    requires axis < AXIS_COUNT && moved <= STEP_MM
    ensures PerMinute(QuarterConfig(), moved) <= Limit(QuarterConfig(), axis)
  {
  }

  /** Just past a quarter turn the cosine falls almost as fast as the angle grows. */
  lemma FallsPastQuarter(trig: Trig, d: real)
    requires Lawful(trig) && 0.0 <= d <= 1.0
    ensures trig.cos(trig.pi / 2.0 + d) <= -((1.0 - d) * d)
  {
    var q := trig.pi / 2.0;
    var z := MeanValue(trig, true, q, q + d);
    assert trig.cos(0.0) == 1.0;
    hide Lawful;
    QuarterValues(trig);
    LawsAt(trig, z);
    forall w | 0.0 <= w <= z - q ensures Abs(Wave(trig, true, w)) <= 1.0 {
      WaveWithin(trig, true, w);
    }
    Steepness(trig, true, 0.0, z - q, 1.0);
    Falls(trig.cos(q + d), trig.sin(z), q + d - q, d);
  }

  lemma Falls(c: real, slope: real, span: real, d: real)
    requires c == -(slope * span) && span == d >= 0.0 && slope >= 1.0 - d
    ensures c <= -((1.0 - d) * d)
  {
    MulMono(1.0 - d, slope, d);
  }

  lemma QuarterCurve(trig: Trig)
    requires Stationed(QuarterPath(trig))
    ensures CurveAt(trig, QuarterPath(trig), 0, 0, STEP_MM) == 1000.0 * trig.cos(trig.pi / 2.0 + 0.000001)
  {
    var t := QuarterPath(trig);
    var u := Parameter(t, 0, STEP_MM);
    assert u * (500.0 * trig.pi) == STEP_MM;
    assert Angle(t.rows[0], u) == trig.pi / 2.0 + 0.000001;
  }

  lemma QuarterMoved(trig: Trig)
    requires Lawful(trig) && Sound(trig, QuarterPath(trig)) && Length(QuarterPath(trig)) >= 1000.0
    ensures Pose(trig, QuarterPath(trig), 0.0, 0) == OFF_MM
    ensures -1.0 <= Pose(trig, QuarterPath(trig), STEP_MM, 0) / 1000.0 <= -0.000000999999
  {
    hide Lawful, Supported, Pose, CurveAt;
    var t := QuarterPath(trig);
    QuarterCurve(trig);
    PoseBefore(trig, t, 0, 0);
    PoseIn(trig, t, 0, 0, STEP_MM);
    FallsPastQuarter(trig, 0.000001);
    WaveWithin(trig, false, trig.pi / 2.0 + 0.000001);
  }

  /**
   From the start of this path a step of a micrometre passes ValidateTraversal, which charges the axis exactly its
   limit, and is refused with VelocityLimit, because the pose also moves by the start's distance from the circle.
   */
  lemma OffCircleStepIsRefused(trig: Trig)
    requires Lawful(trig)
    ensures var t, config := QuarterPath(trig), QuarterConfig();
            && Sound(trig, t) && Ready(t, config) && OnPath(t, 0.0) && OnPath(t, STEP_MM)
            && TraversalAllowed(trig, t, 0.0, STEP_MM, config)
            && Coherent(trig, t, config, Standing(trig, t, 0.0))
            && AfterStep(trig, t, config, Standing(trig, t, 0.0), Towards(STEP_MM), true)
               == Failed(Standing(trig, t, 0.0), VelocityLimit)
  {
    hide Lawful, Supported, TraversalAllowed, Pose;
    var t, config := QuarterPath(trig), QuarterConfig();
    QuarterIsSound(trig);
    QuarterCharged(trig);
    QuarterMoved(trig);
    TooFast(Pose(trig, t, STEP_MM, 0));
    assert Tested(t.rows[0].start, PoseAt(trig, t, 0.0), PoseAt(trig, t, STEP_MM), config, 0) == VelocityLimit;
  }

  lemma TooFast(x: real)
    requires -1.0 <= x / 1000.0 <= -0.000000999999
    ensures TestedAxis(OFF_MM, OFF_MM, x, QuarterConfig().axes[0], Scale(QuarterConfig())) == VelocityLimit
  {
  }
}
