/**
 EDM82 retained path: copied CNC rows with a station table, evaluated at a cursor,
 and the traversal bound charged for a move of the cursor.
 Positions are exact reals.
 */
module RetainedPath {
  import opened Reals
  import opened Trigonometry

  const CAPACITY: nat := 16
  const AXIS_COUNT: nat := 6
  const SLACK: real := 1.000000000001
  const EPSILON_BUDGET: real := 64.0 / 4503599627370496.0
  const MAXIMUM_SEAM_MM: real := 0.0000001
  const MINIMUM_SWEEP: real := 0.000000000001

  datatype Kind = Line | Arc | LineArc | Other

  /** A retained row; sound stands for the checks of pulses, lengths and directions that are not used here. */
  datatype Row = Row(
    kind: Kind, sound: bool, point: bool, full: bool, mask: seq<bool>, start: seq<real>, end: seq<real>,
    lengthMm: real, center: seq<real>, radiusMm: real, startAngle: real, sweep: real, roundoffMm: real,
    boundsMin: seq<real>, boundsMax: seq<real>, joined: bool)

  predicate Sized(row: Row) {
    && |row.mask| == |row.start| == |row.end| == AXIS_COUNT
    && |row.center| == |row.boundsMin| == |row.boundsMax| == 2
  }

  // ------------------------------------------------------------ evaluation

  function Angle(row: Row, u: real): real { row.startAngle + u * row.sweep }

  /** The line or circle a row lies on, at parameter u. */
  function Curve(trig: Trig, row: Row, axis: nat, u: real): real
    requires Sized(row) && axis < AXIS_COUNT
  {
    if row.kind.Arc? && axis < 2 then row.center[axis] + row.radiusMm * Wave(trig, axis == 1, Angle(row, u))
    else row.start[axis] + u * (row.end[axis] - row.start[axis])
  }

  /** The native value of one axis: the stored points at the ends of the row, the curve between them. */
  function Value(trig: Trig, row: Row, axis: nat, u: real): real
    requires Sized(row) && axis < AXIS_COUNT
  {
    if u == 0.0 then row.start[axis]
    else if u == 1.0 then row.end[axis]
    else if !row.mask[axis] then row.start[axis]
    else if row.kind.LineArc? && axis < 2 then CompoundValue(trig, row, axis, Distance(row, u))
    else Curve(trig, row, axis, u)
  }

  /** A combined row is first a line to the point where its arc begins, then the arc. */
  function ArcLength(row: Row): real { row.radiusMm * Abs(row.sweep) }

  function Distance(row: Row, u: real): real { u * row.lengthMm }

  function Prefix(row: Row): real { row.lengthMm - ArcLength(row) }

  function LeadIn(trig: Trig, row: Row, axis: nat, distance: real): real
    requires Sized(row) && axis < 2 && Prefix(row) > 0.0
  {
    var entry := row.center[axis] + row.radiusMm * Wave(trig, axis == 1, row.startAngle);
    row.start[axis] + (entry - row.start[axis]) * (distance / Prefix(row))
  }

  function ArcPart(trig: Trig, row: Row, axis: nat, distance: real): real
    requires Sized(row) && axis < 2 && ArcLength(row) > 0.0
  {
    var angle := row.startAngle + (distance - Prefix(row)) / ArcLength(row) * row.sweep;
    row.center[axis] + row.radiusMm * Wave(trig, axis == 1, angle)
  }

  function CompoundValue(trig: Trig, row: Row, axis: nat, distance: real): real
    requires Sized(row) && axis < 2
  {
    if distance <= Prefix(row) && Prefix(row) > 0.0 then LeadIn(trig, row, axis, distance)
    else if ArcLength(row) > 0.0 then ArcPart(trig, row, axis, distance)
    else 0.0
  }

  // -------------------------------------------------------------- geometry

  /** Whether an arc passes an angle; the angles compared lie within a turn and a half of each other. */
  predicate ContainsAngle(trig: Trig, angle: real, start: real, sweep: real, full: bool) {
    full ||
    var turn := 2.0 * trig.pi;
    var travel := if sweep > 0.0 then angle - start else start - angle;
    var forward := if travel < 0.0 then travel + turn else travel;
    (if forward >= turn then forward - turn else forward) <= Abs(sweep) + EPSILON_BUDGET * turn
  }

  /** Where an axis of a circle is highest; half a turn away it is lowest. */
  function HighAngle(trig: Trig, axis: nat): real { if axis == 0 then 0.0 else trig.pi / 2.0 }

  function LowAngle(trig: Trig, axis: nat): real { if axis == 0 then trig.pi else -(trig.pi / 2.0) }

  /** The largest number an axis of a row is computed from. */
  function Magnitude(row: Row, axis: nat): real
    requires Sized(row) && axis < AXIS_COUNT
  {
    var ends := Max(Abs(row.start[axis]), Abs(row.end[axis]));
    if (row.kind.Arc? || row.kind.LineArc?) && axis < 2 then Max(Max(ends, Abs(row.center[axis])), row.radiusMm)
        else ends
  }

  /** How far a stored end point of an arc may lie from the circle. */
  function Tolerance(row: Row, axis: nat): real
    requires Sized(row) && axis < 2
  {
    EPSILON_BUDGET * Magnitude(row, axis) + row.roundoffMm
  }

  predicate ValidArcAxis(trig: Trig, row: Row, axis: nat)
    requires Sized(row) && row.kind.Arc? && axis < 2
  {
    && (row.full ==> row.start[axis] == row.end[axis])
    && Abs(Curve(trig, row, axis, 0.0) - row.start[axis]) <= Tolerance(row, axis)
    && Abs(Curve(trig, row, axis, 1.0) - row.end[axis]) <= Tolerance(row, axis)
    && (ContainsAngle(trig, HighAngle(trig, axis), row.startAngle, row.sweep, row.full) ==>
          row.center[axis] + row.radiusMm <= row.boundsMax[axis])
    && (ContainsAngle(trig, LowAngle(trig, axis), row.startAngle, row.sweep, row.full) ==>
          row.center[axis] - row.radiusMm >= row.boundsMin[axis])
  }

  predicate ValidArc(trig: Trig, row: Row)
    requires Sized(row) && row.kind.Arc?
  {
    && row.mask[0] && row.mask[1] && !row.mask[2] && !row.point
    && row.radiusMm > 0.0 && row.lengthMm > 0.0 && -trig.pi <= row.startAngle <= trig.pi
    && (if row.full then Abs(row.sweep) == 2.0 * trig.pi else MINIMUM_SWEEP <= Abs(row.sweep) < 2.0 * trig.pi)
    && (!row.full ==> row.start[0] != row.end[0] || row.start[1] != row.end[1])
    && ValidArcAxis(trig, row, 0) && ValidArcAxis(trig, row, 1)
  }

  /** IsNCPathCoreRetainedGeometryValid: its checks in millimetres, and sound for the rest. */
  predicate ValidGeometry(trig: Trig, row: Row) {
    && row.sound && Sized(row) && row.lengthMm >= 0.0
    && 0.0 <= row.roundoffMm <= MAXIMUM_SEAM_MM && (!row.kind.Arc? ==> row.roundoffMm == 0.0)
    && (row.mask[0] || row.mask[1] || row.mask[2]) && (forall axis :: 3 <= axis < AXIS_COUNT ==> !row.mask[axis])
    && (forall axis :: 0 <= axis < AXIS_COUNT && !row.mask[axis] ==> row.start[axis] == row.end[axis])
    && (forall axis :: 0 <= axis < 2 ==>
          && row.boundsMin[axis] <= row.start[axis] <= row.boundsMax[axis]
          && row.boundsMin[axis] <= row.end[axis] <= row.boundsMax[axis])
    && (row.kind.Arc? ==> ValidArc(trig, row))
  }

  /** What Capture admits beyond that: a line, or an arc in the XY plane, of positive length. */
  predicate Supported(trig: Trig, row: Row) {
    ValidGeometry(trig, row) && (row.kind.Line? || row.kind.Arc?) && !row.point && row.lengthMm > 0.0
  }

  // ----------------------------------------------------------------- table

  datatype Table = Table(rows: seq<Row>, station: seq<real>)

  /** Stations start at zero and each row adds its positive length. */
  ghost predicate Stationed(t: Table) {
    && |t.rows| > 0 && |t.station| == |t.rows| + 1 && t.station[0] == 0.0
    && (forall k :: 0 <= k < |t.rows| ==> Sized(t.rows[k]) && t.rows[k].lengthMm > 0.0)
    && (forall k :: 0 <= k < |t.rows| ==> t.station[k + 1] == t.station[k] + t.rows[k].lengthMm)
  }

  ghost predicate Sound(trig: Trig, t: Table) {
    Stationed(t) && forall k :: 0 <= k < |t.rows| ==> Supported(trig, t.rows[k])
  }

  function Length(t: Table): real
    requires |t.station| > 0
  {
    t.station[|t.station| - 1]
  }

  /** Row k owns cursor c: a seam belongs to the row that ends there. */
  predicate Owns(t: Table, k: nat, c: real)
    requires |t.station| == |t.rows| + 1
  {
    k < |t.rows| && c <= t.station[k + 1] && (if k == 0 then 0.0 <= c else t.station[k] < c)
  }

  function Parameter(t: Table, k: nat, c: real): real
    requires |t.station| == |t.rows| + 1 && k < |t.rows| && t.rows[k].lengthMm > 0.0
  {
    (c - t.station[k]) / t.rows[k].lengthMm
  }

  lemma {:induction false} StationsIncrease(t: Table, i: nat, j: nat)
    requires Stationed(t) && i < j <= |t.rows|
    ensures t.station[i] < t.station[j]
    decreases j
  {
    if i < j - 1 {
      StationsIncrease(t, i, j - 1);
    }
  }

  lemma OwnerIsUnique(t: Table, k: nat, m: nat, c: real)
    requires Stationed(t) && Owns(t, k, c) && Owns(t, m, c)
    ensures k == m
  {
    if k + 1 < m {
      StationsIncrease(t, k + 1, m);
    } else if m + 1 < k {
      StationsIncrease(t, m + 1, k);
    }
  }

  /** The row that owns a cursor of the path. */
  function OwnerFrom(t: Table, k: nat, c: real): (r: nat)
    requires Stationed(t) && k < |t.rows| && c <= Length(t) && (if k == 0 then 0.0 <= c else t.station[k] < c)
    ensures Owns(t, r, c)
    decreases |t.rows| - k
  {
    if k + 1 < |t.rows| && c > t.station[k + 1] then OwnerFrom(t, k + 1, c) else k
  }

  function Owner(t: Table, c: real): (r: nat)
    requires Stationed(t) && 0.0 <= c <= Length(t)
    ensures Owns(t, r, c)
  {
    OwnerFrom(t, 0, c)
  }

  /** The pose of the path at a cursor. */
  function Pose(trig: Trig, t: Table, c: real, axis: nat): real
    requires Stationed(t) && 0.0 <= c <= Length(t) && axis < AXIS_COUNT
  {
    Value(trig, t.rows[Owner(t, c)], axis, Parameter(t, Owner(t, c), c))
  }

  // ------------------------------------------------- speed of a crossed span

  predicate Crossed(t: Table, k: nat, low: real, high: real)
    requires |t.station| == |t.rows| + 1 && k < |t.rows|
  {
    t.station[k] < high && low < t.station[k + 1]
  }

  /** The derivative of one axis with respect to the cursor that ValidateTraversal charges for a crossed row. */
  ghost function Rate(trig: Trig, t: Table, k: nat, axis: nat, low: real, high: real): real
    requires |t.station| == |t.rows| + 1 && k < |t.rows| && axis < AXIS_COUNT
    requires Sized(t.rows[k]) && t.rows[k].lengthMm > 0.0
  {
    var g := t.rows[k];
    if g.kind.Line? then Abs(g.end[axis] - g.start[axis]) / g.lengthMm
    else if axis < 2 then
      var a := Angle(g, Max(0.0, Parameter(t, k, low)));
      var b := Angle(g, Min(1.0, Parameter(t, k, high)));
      ArcSpeed(g, SpanMaximum(trig, a, b, axis == 0))
    else 0.0
  }

  function ArcSpeed(g: Row, maximum: real): real
    requires g.lengthMm > 0.0
  {
    g.radiusMm * Abs(g.sweep) / g.lengthMm * maximum
  }

  /** The largest rate of the first n rows that are crossed, and the travel at the first n - 1 crossed seams. */
  ghost function TopRate(trig: Trig, t: Table, n: nat, axis: nat, low: real, high: real): real
    requires Stationed(t) && n <= |t.rows| && axis < AXIS_COUNT
  {
    if n == 0 then 0.0
    else
      var rest := TopRate(trig, t, n - 1, axis, low, high);
      if Crossed(t, n - 1, low, high) then Max(rest, Rate(trig, t, n - 1, axis, low, high)) else rest
  }

  function Seam(t: Table, k: nat, axis: nat): real
    requires 0 < k < |t.rows| && axis < AXIS_COUNT && Sized(t.rows[k]) && Sized(t.rows[k - 1])
  {
    Abs(t.rows[k].start[axis] - t.rows[k - 1].end[axis])
  }

  ghost function SeamTravel(t: Table, n: nat, axis: nat, low: real, high: real): real
    requires Stationed(t) && n <= |t.rows| && axis < AXIS_COUNT
  {
    if n <= 1 then 0.0
    else SeamTravel(t, n - 1, axis, low, high) +
         if low <= t.station[n - 1] < high then Seam(t, n - 1, axis) else 0.0
  }

  /** The displacement that a rate allows on a cursor span. */
  function Charge(rate: real, span: real): real { rate * span }

  datatype Bounds = Bounds(minimum: real, maximum: real, maxTravel: real, maxVelocityPerMin: real)

  datatype Config = Config(axes: seq<Bounds>, periodUs: nat)

  function Scale(config: Config): real
    requires config.periodUs > 0
  {
    60000000.0 / config.periodUs as real
  }

  /** The per-axis test of ValidateTraversal for low < high. */
  ghost predicate WithinVelocity(trig: Trig, t: Table, axis: nat, low: real, high: real, config: Config)
    requires Stationed(t) && axis < AXIS_COUNT == |config.axes| && config.periodUs > 0
  {
    TopRate(trig, t, |t.rows|, axis, low, high) * ((high - low) * Scale(config))
      + SeamTravel(t, |t.rows|, axis, low, high) * Scale(config)
    <= config.axes[axis].maxVelocityPerMin * SLACK
  }

  ghost predicate TraversalAllowed(trig: Trig, t: Table, from: real, to: real, config: Config)
    requires Stationed(t) && |config.axes| == AXIS_COUNT && config.periodUs > 0
  {
    from == to ||
    forall axis: nat :: axis < AXIS_COUNT ==> WithinVelocity(trig, t, axis, Min(from, to), Max(from, to), config)
  }

  /** The box that ValidateBounds takes for an axis of a row. */
  function BoxLow(g: Row, axis: nat): real
    requires Sized(g) && axis < AXIS_COUNT
  {
    if g.kind.Arc? && axis < 2 then g.boundsMin[axis] else Min(g.start[axis], g.end[axis])
  }

  function BoxHigh(g: Row, axis: nat): real
    requires Sized(g) && axis < AXIS_COUNT
  {
    if g.kind.Arc? && axis < 2 then g.boundsMax[axis] else Max(g.start[axis], g.end[axis])
  }

  predicate AxisBounded(t: Table, k: nat, axis: nat, b: Bounds)
    requires k < |t.rows| && axis < AXIS_COUNT && Sized(t.rows[k]) && Sized(t.rows[0])
  {
    var low, high, origin := BoxLow(t.rows[k], axis), BoxHigh(t.rows[k], axis), t.rows[0].start[axis];
    b.minimum <= low && high <= b.maximum && Max(Abs(low - origin), Abs(high - origin)) <= b.maxTravel
  }

  ghost predicate BoundsHold(t: Table, config: Config)
    requires Stationed(t) && |config.axes| == AXIS_COUNT
  {
    forall k: nat, axis: nat :: k < |t.rows| && axis < AXIS_COUNT ==> AxisBounded(t, k, axis, config.axes[axis])
  }

  lemma ParameterSpan(t: Table, k: nat, x: real, y: real)
    requires Stationed(t) && k < |t.rows| && t.station[k] <= x <= y <= t.station[k + 1]
    ensures 0.0 <= Parameter(t, k, x) <= Parameter(t, k, y) <= 1.0
    ensures (Parameter(t, k, y) - Parameter(t, k, x)) * t.rows[k].lengthMm == y - x
  {
    var l := t.rows[k].lengthMm;
    var u, v := Parameter(t, k, x), Parameter(t, k, y);
    assert u * l == x - t.station[k] && v * l == y - t.station[k];
    if v < u {
      MulStrict(v, u, l);
    }
    if u < 0.0 {
      MulStrict(u, 0.0, l);
    }
    if v > 1.0 {
      MulStrict(1.0, v, l);
    }
  }

  lemma ParameterEnds(t: Table, k: nat)
    requires Stationed(t) && k < |t.rows|
    ensures Parameter(t, k, t.station[k]) == 0.0 && Parameter(t, k, t.station[k + 1]) == 1.0
  {
    var l := t.rows[k].lengthMm;
    assert t.station[k] - t.station[k] == 0.0 && t.station[k + 1] - t.station[k] == l;
    assert 0.0 / l == 0.0 && l / l == 1.0;
  }

  // ----------------------------------------------------------------- the class

  datatype PathReason =
    | Fine | LifecycleFailure | ScopeFailure | MaskFailure | ScaleFailure | CapacityFailure | GeometryFailure
    | UnsupportedGeometry | MetricFailure | Discontinuity

  datatype Reason =
    | None | Lifecycle | RetiredRun | BadScope | Configuration | UnsupportedMapping | PathFailure | NonFinite
    | AxisLimit | TravelLimit | VelocityLimit | Scalar(code: nat)

  datatype Scope = Scope(valid: bool, run: nat, binding: nat)

  function AxisReason(low: real, high: real, origin: real, b: Bounds): Reason {
    if low < b.minimum || high > b.maximum then AxisLimit
    else if Max(Abs(low - origin), Abs(high - origin)) > b.maxTravel then TravelLimit
    else None
  }

  /** The first test that fails from an axis of a row on, or None. */
  function RowBoundsReason(t: Table, config: Config, k: nat, axis: nat): (why: Reason)
    requires Stationed(t) && |config.axes| == AXIS_COUNT && k < |t.rows| && axis <= AXIS_COUNT
    ensures why.None? <==> forall a: nat :: axis <= a < AXIS_COUNT ==> AxisBounded(t, k, a, config.axes[a])
    decreases AXIS_COUNT - axis
  {
    if axis == AXIS_COUNT then None
    else
      var g, b := t.rows[k], config.axes[axis];
      var why := AxisReason(BoxLow(g, axis), BoxHigh(g, axis), t.rows[0].start[axis], b);
      assert why.None? <==> AxisBounded(t, k, axis, b);
      if why.None? then RowBoundsReason(t, config, k, axis + 1) else why
  }

  function BoundsReason(t: Table, config: Config, k: nat): (why: Reason)
    requires Stationed(t) && |config.axes| == AXIS_COUNT && k <= |t.rows|
    ensures why.None? <==> forall i: nat, a: nat :: k <= i < |t.rows| && a < AXIS_COUNT ==>
                                                      AxisBounded(t, i, a, config.axes[a])
    decreases |t.rows| - k
  {
    hide AxisBounded;
    if k == |t.rows| then None
    else
      var why := RowBoundsReason(t, config, k, 0);
      if why.None? then BoundsReason(t, config, k + 1) else why
  }

  /** The retained CNC path that is copied; idle: not pending, no distance mode, idle and without fault. */
  datatype Source = Source(idle: bool, fullMask: bool, rows: seq<Row>)

  /** How far apart the ends of neighbouring rows may lie. */
  function SeamTolerance(previous: Row, next: Row, axis: nat): real
    requires Sized(previous) && Sized(next) && axis < AXIS_COUNT
  {
    Min(EPSILON_BUDGET * Max(Magnitude(previous, axis), Magnitude(next, axis)), MAXIMUM_SEAM_MM / 2.0)
  }

  /** AreNCPathCoreRetainedEndpointsConnected: the differences in millimetres, and joined for those in pulses. */
  predicate Connected(previous: Row, next: Row) {
    && next.joined && Sized(previous) && Sized(next)
    && forall axis: nat :: axis < AXIS_COUNT ==>
         Abs(previous.end[axis] - next.start[axis]) <= SeamTolerance(previous, next, axis)
  }

  /** What Capture demands of the row at index k. */
  predicate RowAdmitted(trig: Trig, rows: seq<Row>, k: nat)
    requires k < |rows|
  {
    Supported(trig, rows[k]) && (k > 0 ==> Connected(rows[k - 1], rows[k]))
  }

  predicate Plain(g: Row) { g.kind.Line? || g.kind.Arc? }

  /** The first test of Capture that the row at index k fails. */
  function RowReason(trig: Trig, rows: seq<Row>, k: nat): (why: PathReason)
    requires k < |rows|
    ensures why.Fine? <==> RowAdmitted(trig, rows, k)
  {
    var g := rows[k];
    if !ValidGeometry(trig, g) then GeometryFailure
    else if !Plain(g) || g.point || (g.kind.Arc? && (!g.mask[0] || !g.mask[1] || g.mask[2])) then UnsupportedGeometry
    else if g.lengthMm <= 0.0 then MetricFailure
    else if k > 0 && !Connected(rows[k - 1], g) then Discontinuity
    else Fine
  }

  /** The reason of the first row from k on that is not admitted. */
  function FirstReason(trig: Trig, rows: seq<Row>, k: nat): (why: PathReason)
    requires k <= |rows|
    ensures why.Fine? <==> forall i: nat :: k <= i < |rows| ==> RowAdmitted(trig, rows, i)
    decreases |rows| - k
  {
    if k == |rows| then Fine
    else if RowReason(trig, rows, k).Fine? then FirstReason(trig, rows, k + 1)
    else assert !RowAdmitted(trig, rows, k); RowReason(trig, rows, k)
  }

  ghost predicate Admitted(trig: Trig, source: Source, scope: Scope, scale: seq<real>) {
    && scope.valid && source.idle && source.fullMask && 0 < |source.rows| <= CAPACITY
    && (forall axis :: 0 <= axis < |scale| ==> scale[axis] > 0.0)
    && forall k: nat :: k < |source.rows| ==> RowAdmitted(trig, source.rows, k)
  }

  /** Whether the canonical evaluator answers for an axis of a row. */
  predicate Evaluable(row: Row, axis: nat, u: real)
    requires Sized(row) && axis < AXIS_COUNT
  {
    && row.sound && 0.0 <= u <= 1.0 && !row.kind.Other?
    && (u == 0.0 || u == 1.0 ||
        if !row.mask[axis] then row.start[axis] == row.end[axis]
        else if row.kind.LineArc? then axis < 2 && row.radiusMm > 0.0 && Prefix(row) > 0.0
        else row.kind.Line? || (axis < 2 && row.radiusMm > 0.0))
  }

  /** Past the line that leads in, there is an arc. */
  lemma ArcRemains(row: Row, u: real)
    requires 0.0 < u < 1.0 && row.radiusMm > 0.0 && Distance(row, u) > Prefix(row) > 0.0
    ensures ArcLength(row) > 0.0
  {
    MulMono(0.0, row.radiusMm, Abs(row.sweep));
    if ArcLength(row) == 0.0 {
      MulStrict(u, 1.0, row.lengthMm);
    }
  }

  lemma SoundIsEvaluable(trig: Trig, t: Table, k: nat, axis: nat, c: real)
    requires Sound(trig, t) && axis < AXIS_COUNT && 0.0 <= c <= Length(t) && Owns(t, k, c)
    ensures Evaluable(t.rows[k], axis, Parameter(t, k, c))
  {
    if k > 0 {
      StationsIncrease(t, 0, k);
    }
    ParameterSpan(t, k, c, c);
  }

  method EvaluateAxis(trig: Trig, g: Row, axis: nat, u: real) returns (ok: bool, value: real)
    requires Sized(g) && axis < AXIS_COUNT
    ensures ok <==> Evaluable(g, axis, u)
    ensures ok ==> value == Value(trig, g, axis, u)
  {
    hide Distance, Prefix, ArcLength, CompoundValue;
    if !g.sound || u < 0.0 || u > 1.0 || g.kind.Other? {
      return false, 0.0;
    }
    if u == 0.0 {
      return true, g.start[axis];
    }
    if u == 1.0 {
      return true, g.end[axis];
    }
    if !g.mask[axis] {
      return g.start[axis] == g.end[axis], g.start[axis];
    }
    if g.kind.Line? {
      return true, g.start[axis] + u * (g.end[axis] - g.start[axis]);
    }
    if axis >= 2 || g.radiusMm <= 0.0 {
      return false, 0.0;
    }
    if g.kind.Arc? {
      var angle := Angle(g, u);
      return true, g.center[axis] + g.radiusMm * Wave(trig, axis == 1, angle);
    }
    if Distance(g, u) > Prefix(g) > 0.0 {
      ArcRemains(g, u);
    }
    ok, value := EvaluateCompound(trig, g, axis, Distance(g, u));
  }

  method EvaluateCompound(trig: Trig, g: Row, axis: nat, distance: real) returns (ok: bool, value: real)
    requires Sized(g) && axis < 2 && (distance > Prefix(g) > 0.0 ==> ArcLength(g) > 0.0)
    ensures ok <==> Prefix(g) > 0.0
    ensures ok ==> value == CompoundValue(trig, g, axis, distance)
  {
    hide LeadIn, ArcPart, ArcLength, Prefix;
    var prefix := Prefix(g);
    if prefix <= 0.0 {
      return false, 0.0;
    }
    if distance <= prefix {
      return true, LeadIn(trig, g, axis, distance);
    }
    return true, ArcPart(trig, g, axis, distance);
  }

  /** The nine fixed extrema are tried one after the other; on canonical angles the result bounds the whole span. */
  method MaximumAbsTrig(trig: Trig, a: real, b: real, sine: bool) returns (maximum: real)
    ensures maximum == SpanMaximum(trig, a, b, sine)
    ensures Lawful(trig) && Canonical(trig, a) && Canonical(trig, b) ==>
              maximum <= 1.0 && forall z :: Min(a, b) <= z <= Max(a, b) ==> Abs(Wave(trig, sine, z)) <= maximum
  {
    hide Lawful;
    var low, high := Min(a, b), Max(a, b);
    maximum := Max(Abs(Wave(trig, sine, a)), Abs(Wave(trig, sine, b)));
    ghost var ends := maximum;
    var k := -4;
    while k <= 4
      invariant -4 <= k <= 5
      invariant maximum == if exists j :: -4 <= j < k && low <= Extremum(trig, j, sine) <= high then 1.0 else ends
    {
      var extremum := Extremum(trig, k, sine);
      if low <= extremum <= high {
        maximum := 1.0;
      }
      k := k + 1;
    }
    if Lawful(trig) && Canonical(trig, a) && Canonical(trig, b) {
      forall z | Min(a, b) <= z <= Max(a, b) ensures Abs(Wave(trig, sine, z)) <= maximum <= 1.0 {
        NineExtremaSuffice(trig, sine, a, z, b);
      }
      assert Min(a, b) <= a <= Max(a, b);
    }
  }

  lemma TableIsSound(trig: Trig, rows: seq<Row>, station: seq<real>)
    requires 0 < |rows| && |station| == |rows| + 1 && station[0] == 0.0
    requires forall k: nat :: k < |rows| ==> RowAdmitted(trig, rows, k)
    requires forall k :: 0 <= k < |rows| ==> station[k + 1] == station[k] + rows[k].lengthMm
    ensures Sound(trig, Table(rows, station))
  {
    forall k: nat | k < |rows| ensures Supported(trig, rows[k]) {
      assert RowAdmitted(trig, rows, k);
    }
  }

  class Path {
    const trig: Trig
    const rows: array<Row>
    const station: array<real>
    var scope: Scope
    var lengthMm: real
    var count: nat
    var reason: PathReason
    var valid: bool

    /** The arrays have the source's fixed sizes, and a valid path has stations for its rows. */
    ghost predicate Structured()
      reads this, rows, station
    {
      && rows.Length == CAPACITY && station.Length == CAPACITY + 1 && count <= CAPACITY
      && (valid ==> Stationed(View()) && lengthMm == Length(View()))
    }

    ghost predicate Valid()
      reads this, rows, station
    {
      Structured() && (valid ==> Sound(trig, View()))
    }

    ghost function View(): Table
      requires rows.Length == CAPACITY && station.Length == CAPACITY + 1 && count <= CAPACITY
      reads this, rows, station
    {
      Table(rows[..count], station[..count + 1])
    }

    constructor (trig: Trig, blank: Row)
      ensures Valid() && !valid && this.trig == trig && fresh(rows) && fresh(station)
    {
      this.trig := trig;
      rows := new Row[CAPACITY](_ => blank);
      station := new real[CAPACITY + 1](_ => 0.0);
      scope, lengthMm, count, reason, valid := Scope(false, 0, 0), 0.0, 0, Fine, false;
    }

    /** A value copy: the new path has its own arrays. */
    constructor Copy(other: Path)
      requires other.Valid()
      ensures Valid() && fresh(rows) && fresh(station) && trig == other.trig
      ensures valid == other.valid && scope == other.scope && lengthMm == other.lengthMm && View() == other.View()
    {
      trig := other.trig;
      rows := new Row[CAPACITY](i requires 0 <= i < CAPACITY reads other, other.rows => other.rows[i]);
      station := new real[CAPACITY + 1](i requires 0 <= i <= CAPACITY reads other, other.station => other.station[i]);
      scope, lengthMm, count, reason, valid := other.scope, other.lengthMm, other.count, other.reason, other.valid;
      new;
      assert rows[..count] == other.rows[..count] && station[..count + 1] == other.station[..count + 1];
    }

    method Fail(why: PathReason) returns (ok: bool)
      modifies this`reason, this`valid, this`count, this`lengthMm
      ensures !ok && reason == why && !valid && count == 0 && lengthMm == 0.0
    {
      reason, valid, count, lengthMm := why, false, 0, 0.0;
      ok := false;
    }

    /** Copies the rows of an admitted source and adds up their stations; otherwise the path becomes invalid. */
    method Capture(source: Source, newScope: Scope, scale: seq<real>) returns (ok: bool)
      requires rows.Length == CAPACITY && station.Length == CAPACITY + 1
      modifies this, rows, station
      ensures Valid() && ok == valid
      ensures ok <==> Admitted(trig, source, newScope, scale)
      ensures reason == (if !newScope.valid then ScopeFailure else if !source.idle then LifecycleFailure
                         else if !source.fullMask then MaskFailure
                         else if |source.rows| == 0 || |source.rows| > CAPACITY then CapacityFailure
                         else if exists axis :: 0 <= axis < |scale| && scale[axis] <= 0.0 then ScaleFailure
                         else FirstReason(trig, source.rows, 0))
      ensures ok ==> View().rows == source.rows && scope == newScope
    {
      hide RowReason, RowAdmitted, FirstReason, Supported;
      valid, count, lengthMm, reason := false, 0, 0.0, Fine;
      if !newScope.valid {
        ok := Fail(ScopeFailure);
        return;
      }
      if !source.idle {
        ok := Fail(LifecycleFailure);
        return;
      }
      if !source.fullMask {
        ok := Fail(MaskFailure);
        return;
      }
      if |source.rows| == 0 || |source.rows| > CAPACITY {
        ok := Fail(CapacityFailure);
        return;
      }
      for axis := 0 to |scale|
        invariant !valid && count == 0 && forall a :: 0 <= a < axis ==> scale[a] > 0.0
      {
        if scale[axis] <= 0.0 {
          ok := Fail(ScaleFailure);
          return;
        }
      }
      var why := CopyRows(source.rows);
      if !why.Fine? {
        ok := Fail(why);
        return;
      }
      scope := newScope;
      count := |source.rows|;
      lengthMm := station[count];
      valid := true;
      assert View().rows == source.rows;
      return true;
    }

    method TestRow(source: seq<Row>, row: nat) returns (why: PathReason)
      requires row < |source|
      ensures why == RowReason(trig, source, row)
    {
      var value := source[row];
      if !ValidGeometry(trig, value) {
        return GeometryFailure;
      }
      if (!value.kind.Line? && !value.kind.Arc?) || value.point {
        return UnsupportedGeometry;
      }
      if value.kind.Arc? && (!value.mask[0] || !value.mask[1] || value.mask[2]) {
        return UnsupportedGeometry;
      }
      if value.lengthMm <= 0.0 {
        return MetricFailure;
      }
      if row > 0 && !Connected(source[row - 1], value) {
        return Discontinuity;
      }
      return Fine;
    }

    method CopyRows(source: seq<Row>) returns (why: PathReason)
      requires rows.Length == CAPACITY && station.Length == CAPACITY + 1 && 0 < |source| <= CAPACITY
      modifies rows, station
      ensures why == FirstReason(trig, source, 0)
      ensures why.Fine? ==> rows[..|source|] == source && Sound(trig, Table(source, station[..|source| + 1]))
    {
      hide RowReason, RowAdmitted, Sound;
      station[0] := 0.0;
      var row := 0;
      while row < |source|
        invariant 0 <= row <= |source| && rows[..row] == source[..row] && station[0] == 0.0
        invariant forall k: nat :: k < row ==> RowAdmitted(trig, source, k)
        invariant FirstReason(trig, source, 0) == FirstReason(trig, source, row)
        invariant forall k :: 0 <= k < row ==> station[k + 1] == station[k] + source[k].lengthMm
      {
        why := TestRow(source, row);
        if !why.Fine? {
          return;
        }
        var value := source[row];
        rows[row] := value;
        station[row + 1] := station[row] + value.lengthMm;
        row := row + 1;
      }
      assert source[..row] == source;
      TableIsSound(trig, source, station[..|source| + 1]);
      return Fine;
    }

    /** The pose at a cursor, with the 1-based ordinal of the row that owns it; seams belong to the row they end. */
    method Evaluate(c: real) returns (ok: bool, pose: seq<real>, ordinal: nat, u: real)
      requires Structured()
      ensures ok <==> valid && 0.0 <= c <= lengthMm &&
                      forall axis: nat :: axis < AXIS_COUNT ==>
                        Evaluable(View().rows[Owner(View(), c)], axis, Parameter(View(), Owner(View(), c), c))
      ensures ok ==> ordinal == Owner(View(), c) + 1 && u == Parameter(View(), Owner(View(), c), c)
      ensures ok ==> |pose| == AXIS_COUNT
      ensures ok ==> forall axis: nat :: axis < AXIS_COUNT ==> pose[axis] == Pose(trig, View(), c, axis)
    {
      if !valid || c < 0.0 || c > lengthMm {
        return false, [], 0, 0.0;
      }
      var row := FindRow(c);
      u := RowParameter(row, c);
      ok, pose := EvaluateRow(row, u);
      ordinal := row + 1;
    }

    method EvaluateRow(row: nat, u: real) returns (ok: bool, pose: seq<real>)
      requires Structured() && valid && row < count
      ensures ok <==> forall axis: nat :: axis < AXIS_COUNT ==> Evaluable(View().rows[row], axis, u)
      ensures ok ==> |pose| == AXIS_COUNT
                     && forall axis: nat :: axis < AXIS_COUNT ==> pose[axis] == Value(trig, View().rows[row], axis, u)
    {
      hide Evaluable, Value;
      var g := rows[row];
      assert g == View().rows[row];
      pose := [];
      var axis := 0;
      while axis < AXIS_COUNT
        invariant axis == |pose| <= AXIS_COUNT
        invariant forall a: nat :: a < axis ==> Evaluable(g, a, u) && pose[a] == Value(trig, g, a, u)
      {
        var found, value := EvaluateAxis(trig, g, axis, u);
        if !found {
          assert !Evaluable(View().rows[row], axis, u);
          return false, [];
        }
        pose := pose + [value];
        axis := axis + 1;
      }
      return true, pose;
    }

    method FindRow(c: real) returns (row: nat)
      requires Structured() && valid && 0.0 <= c <= lengthMm
      ensures row == Owner(View(), c)
    {
      ghost var t := View();
      if c == lengthMm {
        row := count - 1;
        StationsIncrease(t, count - 1, count);
        if count > 1 {
          StationsIncrease(t, 0, count - 1);
        }
        OwnerIsUnique(t, row, Owner(t, c), c);
        return;
      }
      row := 0;
      while row + 1 < count && c > station[row + 1]
        invariant row < count && (if row == 0 then 0.0 <= c else station[row] < c)
      {
        row := row + 1;
      }
      if row + 1 == count {
        assert t.station[count] == lengthMm;
      }
      OwnerIsUnique(t, row, Owner(t, c), c);
    }

    /** Exactly 0 and 1 at the ends of the row. */
    method RowParameter(row: nat, c: real) returns (u: real)
      requires Structured() && valid && row < count && station[row] <= c <= station[row + 1]
      ensures u == Parameter(View(), row, c)
    {
      ghost var t := View();
      assert t.station[row] == station[row] && t.station[row + 1] == station[row + 1] && t.rows[row] == rows[row];
      if c == lengthMm && row == count - 1 {
        u := 1.0;
      } else if c == station[row] {
        u := 0.0;
      } else if c == station[row + 1] {
        u := 1.0;
      } else {
        u := (c - station[row]) / rows[row].lengthMm;
      }
      ParameterEnds(t, row);
    }

    /** The first limit or travel that a row does not keep; None exactly when all rows keep both. */
    method ValidateBounds(config: Config) returns (why: Reason)
      requires Structured() && |config.axes| == AXIS_COUNT
      ensures why == if valid then BoundsReason(View(), config, 0) else PathFailure
      ensures why.None? <==> valid && BoundsHold(View(), config)
    {
      if !valid {
        return PathFailure;
      }
      hide AxisReason, AxisBounded;
      ghost var t := View();
      var row := 0;
      while row < count
        invariant 0 <= row <= count && BoundsReason(t, config, 0) == BoundsReason(t, config, row)
      {
        var axis := 0;
        while axis < AXIS_COUNT
          invariant 0 <= axis <= AXIS_COUNT
          invariant RowBoundsReason(t, config, row, 0) == RowBoundsReason(t, config, row, axis)
        {
          assert t.rows[row] == rows[row] && t.rows[0] == rows[0];
          why := CheckAxis(rows[row], rows[0].start[axis], axis, config.axes[axis]);
          if !why.None? {
            return;
          }
          axis := axis + 1;
        }
        row := row + 1;
      }
      return None;
    }

    static method CheckAxis(g: Row, origin: real, axis: nat, b: Bounds) returns (why: Reason)
      requires Sized(g) && axis < AXIS_COUNT
      ensures why == AxisReason(BoxLow(g, axis), BoxHigh(g, axis), origin, b)
    {
      var low, high := Min(g.start[axis], g.end[axis]), Max(g.start[axis], g.end[axis]);
      if g.kind.Arc? && axis < 2 {
        low, high := g.boundsMin[axis], g.boundsMax[axis];
      }
      if low < b.minimum || high > b.maximum {
        return AxisLimit;
      }
      if Max(Abs(low - origin), Abs(high - origin)) > b.maxTravel {
        return TravelLimit;
      }
      return None;
    }

    /** None exactly when both cursors are on the path and every axis keeps within its charged velocity. */
    method ValidateTraversal(from: real, to: real, config: Config) returns (why: Reason)
      requires Structured() && |config.axes| == AXIS_COUNT
      ensures why.None? <==> valid && 0.0 <= from <= lengthMm && 0.0 <= to <= lengthMm
                             && (from == to || (config.periodUs > 0
                                 && TraversalAllowed(trig, View(), from, to, config)))
      ensures why in {None, PathFailure, NonFinite, VelocityLimit}
      ensures valid && 0.0 <= from <= lengthMm && 0.0 <= to <= lengthMm && config.periodUs > 0 ==>
                why in {None, VelocityLimit}
    {
      if !valid || from < 0.0 || to < 0.0 || from > lengthMm || to > lengthMm {
        return PathFailure;
      }
      if from == to {
        return None;
      }
      if config.periodUs == 0 {
        return NonFinite;
      }
      why := CheckVelocities(Min(from, to), Max(from, to), config);
    }

    method CheckVelocities(low: real, high: real, config: Config) returns (why: Reason)
      requires Structured() && valid && |config.axes| == AXIS_COUNT && config.periodUs > 0
      ensures why == if forall axis: nat :: axis < AXIS_COUNT ==> WithinVelocity(trig, View(), axis, low, high, config)
                     then None else VelocityLimit
    {
      hide TopRate, SeamTravel, Scale;
      var scale := Scale(config);
      var speed := (high - low) * scale;
      var derivative := TopRates(low, high);
      var seamTravel := SeamTravels(low, high);
      ghost var t := View();
      var axis := 0;
      while axis < AXIS_COUNT
        invariant 0 <= axis <= AXIS_COUNT
        invariant forall a: nat :: a < axis ==> WithinVelocity(trig, t, a, low, high, config)
      {
        var rate := derivative[axis] * speed + seamTravel[axis] * scale;
        assert rate <= config.axes[axis].maxVelocityPerMin * SLACK <==>
               WithinVelocity(trig, t, axis, low, high, config);
        if rate > config.axes[axis].maxVelocityPerMin * SLACK {
          return VelocityLimit;
        }
        axis := axis + 1;
      }
      return None;
    }

    method TopRates(low: real, high: real) returns (derivative: seq<real>)
      requires Structured() && valid
      ensures |derivative| == AXIS_COUNT
      ensures forall a: nat :: a < AXIS_COUNT ==> derivative[a] == TopRate(trig, View(), count, a, low, high)
    {
      ghost var t := View();
      derivative := seq(AXIS_COUNT, _ => 0.0);
      var row := 0;
      while row < count
        invariant 0 <= row <= count && |derivative| == AXIS_COUNT
        invariant forall a: nat :: a < AXIS_COUNT ==> derivative[a] == TopRate(trig, t, row, a, low, high)
      {
        assert t.station[row] == station[row] && t.station[row + 1] == station[row + 1];
        if high > station[row] && low < station[row + 1] {
          ghost var before := derivative;
          var axis := 0;
          while axis < AXIS_COUNT
            invariant 0 <= axis <= AXIS_COUNT && |derivative| == AXIS_COUNT
            invariant forall a: nat :: a < axis ==> derivative[a] == Max(before[a], Rate(trig, t, row, a, low, high))
            invariant forall a: nat :: axis <= a < AXIS_COUNT ==> derivative[a] == before[a]
          {
            var d := RowRate(row, axis, low, high);
            derivative := derivative[axis := Max(derivative[axis], d)];
            axis := axis + 1;
          }
        }
        row := row + 1;
      }
    }

    method RowRate(row: nat, axis: nat, low: real, high: real) returns (d: real)
      requires Structured() && valid && row < count && axis < AXIS_COUNT
      ensures d == Rate(trig, View(), row, axis, low, high)
    {
      ghost var t := View();
      assert t.rows[row] == rows[row] && t.station[row] == station[row];
      var g := rows[row];
      var begin := Max(0.0, (low - station[row]) / g.lengthMm);
      var end := Min(1.0, (high - station[row]) / g.lengthMm);
      if g.kind.Line? {
        return Abs(g.end[axis] - g.start[axis]) / g.lengthMm;
      }
      if axis < 2 {
        var maximum := MaximumAbsTrig(trig, Angle(g, begin), Angle(g, end), axis == 0);
        return ArcSpeed(g, maximum);
      }
      return 0.0;
    }

    method SeamTravels(low: real, high: real) returns (travel: seq<real>)
      requires Structured() && valid
      ensures |travel| == AXIS_COUNT
      ensures forall a: nat :: a < AXIS_COUNT ==> travel[a] == SeamTravel(View(), count, a, low, high)
    {
      ghost var t := View();
      travel := seq(AXIS_COUNT, _ => 0.0);
      var row := 1;
      while row < count
        invariant 1 <= row <= count && |travel| == AXIS_COUNT
        invariant forall a: nat :: a < AXIS_COUNT ==> travel[a] == SeamTravel(t, row, a, low, high)
      {
        assert t.station[row] == station[row] && t.rows[row] == rows[row] && t.rows[row - 1] == rows[row - 1];
        if low <= station[row] && high > station[row] {
          ghost var before := travel;
          var axis := 0;
          while axis < AXIS_COUNT
            invariant 0 <= axis <= AXIS_COUNT && |travel| == AXIS_COUNT
            invariant forall a: nat :: a < axis ==> travel[a] == before[a] + Seam(t, row, a)
            invariant forall a: nat :: axis <= a < AXIS_COUNT ==> travel[a] == before[a]
          {
            travel := travel[axis := travel[axis] + Abs(rows[row].start[axis] - rows[row - 1].end[axis])];
            axis := axis + 1;
          }
        }
        row := row + 1;
      }
    }
  }
}
