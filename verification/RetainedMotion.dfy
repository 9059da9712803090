/**
 What the checks of the retained path say about the motion they admit: the traversal charge and
 the checked boxes against the poses the evaluator returns.  Both hold on all lines; on arcs they
 hold up to the distance of the stored end points from the circle, and exactly when it does not show.
 */
module RetainedMotion {
  import opened Reals
  import opened Trigonometry
  import opened RetainedPath

  // ------------------------------------------------------- ends off the curve

  /** How much further than the charged seam a row's curve begins from the point before it. */
  function StartExcess(trig: Trig, t: Table, k: nat, axis: nat): (r: real)
    requires Stationed(t) && k < |t.rows| && axis < AXIS_COUNT
    ensures r >= 0.0
  {
    var g := t.rows[k];
    if k == 0 then Abs(Curve(trig, g, axis, 0.0) - g.start[axis])
    else Max(0.0, Abs(Curve(trig, g, axis, 0.0) - t.rows[k - 1].end[axis]) - Seam(t, k, axis))
  }

  function EndExcess(trig: Trig, t: Table, k: nat, axis: nat): (r: real)
    requires Stationed(t) && k < |t.rows| && axis < AXIS_COUNT
    ensures r >= 0.0
  {
    Abs(t.rows[k].end[axis] - Curve(trig, t.rows[k], axis, 1.0))
  }

  /** The part of a row's two ends that a cursor span uses. */
  function RowExcess(trig: Trig, t: Table, k: nat, axis: nat, low: real, high: real): (r: real)
    requires Stationed(t) && k < |t.rows| && axis < AXIS_COUNT
    ensures r >= 0.0
  {
    (if low <= t.station[k] then StartExcess(trig, t, k, axis) else 0.0)
    + (if t.station[k + 1] <= high then EndExcess(trig, t, k, axis) else 0.0)
  }

  function ExcessTravel(trig: Trig, t: Table, n: nat, axis: nat, low: real, high: real): (r: real)
    requires Stationed(t) && n <= |t.rows| && axis < AXIS_COUNT
    ensures r >= 0.0
  {
    if n == 0 then 0.0
    else ExcessTravel(trig, t, n - 1, axis, low, high) +
         if Crossed(t, n - 1, low, high) then RowExcess(trig, t, n - 1, axis, low, high) else 0.0
  }

  /** No stored end point makes the path longer than its curves and charged seams. */
  ghost predicate Tight(trig: Trig, t: Table)
    requires Stationed(t)
  {
    forall k: nat, axis: nat :: k < |t.rows| && axis < AXIS_COUNT ==>
      StartExcess(trig, t, k, axis) == 0.0 && EndExcess(trig, t, k, axis) == 0.0
  }

  /** The excess of a row's end is at most what the geometry check tolerates, and nothing on a line. */
  lemma ExcessIsTolerated(trig: Trig, t: Table, k: nat, axis: nat)
    requires Sound(trig, t) && k < |t.rows| && axis < AXIS_COUNT
    ensures var most := if t.rows[k].kind.Arc? && axis < 2 then Tolerance(t.rows[k], axis) else 0.0;
            StartExcess(trig, t, k, axis) <= most && EndExcess(trig, t, k, axis) <= most
  {
    hide Curve, Tolerance, ContainsAngle, Seam;
    var g := t.rows[k];
    assert Supported(trig, g);
    if g.kind.Arc? && axis < 2 {
      assert ValidArcAxis(trig, g, axis);
    } else {
      LineCurveEnds(trig, g, axis);
    }
    if k > 0 {
      SeamIs(t, k, axis);
    }
  }

  lemma SeamIs(t: Table, k: nat, axis: nat)
    requires 0 < k < |t.rows| && axis < AXIS_COUNT && Sized(t.rows[k]) && Sized(t.rows[k - 1])
    ensures Seam(t, k, axis) == Abs(t.rows[k].start[axis] - t.rows[k - 1].end[axis])
  {
  }

  lemma LineCurveEnds(trig: Trig, g: Row, axis: nat)
    requires Sized(g) && axis < AXIS_COUNT && !(g.kind.Arc? && axis < 2)
    ensures Curve(trig, g, axis, 0.0) == g.start[axis] && Curve(trig, g, axis, 1.0) == g.end[axis]
  {
  }

  /** A path of lines is tight. */
  lemma LinesAreTight(trig: Trig, t: Table)
    requires Sound(trig, t) && forall k :: 0 <= k < |t.rows| ==> t.rows[k].kind.Line?
    ensures Tight(trig, t)
  {
    hide StartExcess, EndExcess;
    forall k: nat, axis: nat | k < |t.rows| && axis < AXIS_COUNT
      ensures StartExcess(trig, t, k, axis) == 0.0 && EndExcess(trig, t, k, axis) == 0.0
    {
      ExcessIsTolerated(trig, t, k, axis);
    }
  }

  lemma {:induction false} TightTravelsNoExcess(trig: Trig, t: Table, n: nat, axis: nat, low: real, high: real)
    requires Stationed(t) && Tight(trig, t) && n <= |t.rows| && axis < AXIS_COUNT
    ensures ExcessTravel(trig, t, n, axis, low, high) == 0.0
  {
    hide StartExcess, EndExcess;
    if n > 0 {
      TightTravelsNoExcess(trig, t, n - 1, axis, low, high);
    }
  }

  // -------------------------------------------------------- inside one row

  lemma LineSpan(d: real, l: real, u: real, v: real, span: real)
    requires l > 0.0 && u <= v && (v - u) * l == span
    ensures Abs(v * d - u * d) == Abs(d) / l * span
  {
    assert v * d - u * d == (v - u) * d;
    assert Abs((v - u) * d) == (v - u) * Abs(d);
    calc {
      Abs(d) / l * span;
      Abs(d) / l * ((v - u) * l);
      (Abs(d) / l * l) * (v - u);
      Abs(d) * (v - u);
    }
  }

  /** How far a coordinate may move on a part of an arc where the other wave is at most m. */
  function ArcTravel(g: Row, m: real, part: real): real { g.radiusMm * Abs(g.sweep) * m * part }

  lemma ArcSpan(g: Row, moved: real, m: real, u: real, v: real, span: real)
    requires g.lengthMm > 0.0 && (v - u) * g.lengthMm == span && moved <= ArcTravel(g, m, v - u)
    ensures moved <= ArcSpeed(g, m) * span
  {
    var r, l := g.radiusMm * Abs(g.sweep), g.lengthMm;
    calc {
      ArcSpeed(g, m) * span;
      r / l * m * ((v - u) * l);
      (r / l * l) * m * (v - u);
      r * m * (v - u);
    }
  }

  lemma AngleBetween(g: Row, begin: real, u: real, end: real)
    requires begin <= u <= end
    ensures Min(Angle(g, begin), Angle(g, end)) <= Angle(g, u) <= Max(Angle(g, begin), Angle(g, end))
  {
    if g.sweep >= 0.0 {
      MulMono(begin, u, g.sweep);
      MulMono(u, end, g.sweep);
    } else {
      assert begin * -g.sweep == -(begin * g.sweep) && u * -g.sweep == -(u * g.sweep);
      assert end * -g.sweep == -(end * g.sweep);
      MulMono(begin, u, -g.sweep);
      MulMono(u, end, -g.sweep);
    }
  }

  /** The comment of the source's MaximumAbsTrig: all angles of a retained arc are canonical. */
  lemma ArcIsCanonical(trig: Trig, g: Row, u: real)
    requires Supported(trig, g) && g.kind.Arc? && 0.0 <= u <= 1.0
    ensures Canonical(trig, Angle(g, u))
  {
    hide ValidArcAxis;
    AngleBetween(g, 0.0, u, 1.0);
  }

  /** On every part of an arc each coordinate moves no faster than the extrema of that part allow. */
  lemma ArcMoves(trig: Trig, g: Row, axis: nat, begin: real, u: real, v: real, end: real)
    requires Lawful(trig) && Supported(trig, g) && g.kind.Arc? && axis < 2 && 0.0 <= begin <= u <= v <= end <= 1.0
    ensures Abs(Curve(trig, g, axis, v) - Curve(trig, g, axis, u)) <=
              ArcTravel(g, SpanMaximum(trig, Angle(g, begin), Angle(g, end), axis == 0), v - u)
  {
    hide Curve, SpanMaximum, Lawful, Wave, Supported, Angle, ArcTravel;
    var m, sine, x, y := SpanMaximum(trig, Angle(g, begin), Angle(g, end), axis == 0), axis == 0, Angle(g, u),
        Angle(g, v);
    WaveMoves(trig, g, sine, begin, u, v, end);
    AngleStep(g, u, v);
    OnCircle(trig, g, axis, u);
    OnCircle(trig, g, axis, v);
    RadiusTimes(g, Wave(trig, !sine, y), Wave(trig, !sine, x), m, v - u, Max(x, y) - Min(x, y),
                Abs(Curve(trig, g, axis, v) - Curve(trig, g, axis, u)), g.center[axis]);
  }

  lemma WaveMoves(trig: Trig, g: Row, sine: bool, begin: real, u: real, v: real, end: real)
    requires Lawful(trig) && Supported(trig, g) && g.kind.Arc? && 0.0 <= begin <= u <= v <= end <= 1.0
    ensures var x, y := Angle(g, u), Angle(g, v);
            Abs(Wave(trig, !sine, y) - Wave(trig, !sine, x)) <=
              Charge(SpanMaximum(trig, Angle(g, begin), Angle(g, end), sine), Max(x, y) - Min(x, y))
  {
    hide SpanMaximum, Lawful, Wave, Supported, Angle;
    var a, b, x, y := Angle(g, begin), Angle(g, end), Angle(g, u), Angle(g, v);
    var m := SpanMaximum(trig, a, b, sine);
    ArcIsCanonical(trig, g, begin);
    ArcIsCanonical(trig, g, end);
    AngleBetween(g, begin, u, end);
    AngleBetween(g, begin, v, end);
    forall z | Min(x, y) <= z <= Max(x, y) ensures Abs(Wave(trig, sine, z)) <= m {
      NineExtremaSuffice(trig, sine, a, z, b);
    }
    Steepness(trig, sine, Min(x, y), Max(x, y), m);
  }

  lemma AngleStep(g: Row, u: real, v: real)
    ensures Max(Angle(g, u), Angle(g, v)) - Min(Angle(g, u), Angle(g, v)) == Abs((v - u) * g.sweep)
  {
    assert Angle(g, v) - Angle(g, u) == (v - u) * g.sweep;
  }

  lemma OnCircle(trig: Trig, g: Row, axis: nat, u: real)
    requires Supported(trig, g) && g.kind.Arc? && axis < 2
    ensures Sized(g) && g.radiusMm > 0.0
    ensures Curve(trig, g, axis, u) == g.center[axis] + g.radiusMm * Wave(trig, axis == 1, Angle(g, u))
  {
    hide Wave, Angle, ValidArcAxis;
  }

  lemma RadiusTimes(g: Row, w: real, was: real, m: real, part: real, turn: real, moved: real, center: real)
    requires g.radiusMm >= 0.0 && part >= 0.0 && turn == Abs(part * g.sweep) && Abs(w - was) <= Charge(m, turn)
    requires moved == Abs((center + g.radiusMm * w) - (center + g.radiusMm * was))
    ensures moved <= ArcTravel(g, m, part)
  {
    var r := g.radiusMm;
    AbsProduct(part, g.sweep);
    AbsProduct(r, w - was);
    assert r * w - r * was == r * (w - was);
    MulMono(Abs(w - was), m * turn, r);
    assert m * turn * r == r * Abs(g.sweep) * m * part;
  }

  /** The clipped parameters of low and high enclose those of a span between them. */
  lemma ClippedSpan(t: Table, k: nat, low: real, high: real, x: real, y: real)
    requires Stationed(t) && k < |t.rows| && t.station[k] <= x <= y <= t.station[k + 1] && low <= x && y <= high
    ensures 0.0 <= Max(0.0, Parameter(t, k, low)) <= Parameter(t, k, x)
    ensures Parameter(t, k, y) <= Min(1.0, Parameter(t, k, high)) <= 1.0
  {
    ParameterSpan(t, k, x, y);
    QuotientMono(low - t.station[k], x - t.station[k], t.rows[k].lengthMm);
    QuotientMono(y - t.station[k], high - t.station[k], t.rows[k].lengthMm);
  }

  function CurveAt(trig: Trig, t: Table, k: nat, axis: nat, c: real): real
    requires Stationed(t) && k < |t.rows| && axis < AXIS_COUNT
  {
    Curve(trig, t.rows[k], axis, Parameter(t, k, c))
  }

  /** Along one row's line or circle the displacement is at most the row's rate times the cursor span. */
  lemma RowSpan(trig: Trig, t: Table, k: nat, axis: nat, low: real, high: real, x: real, y: real)
    requires Lawful(trig) && Sound(trig, t) && k < |t.rows| && axis < AXIS_COUNT
    requires t.station[k] <= x <= y <= t.station[k + 1] && low <= x && y <= high
    ensures Abs(CurveAt(trig, t, k, axis, y) - CurveAt(trig, t, k, axis, x)) <=
              Charge(Rate(trig, t, k, axis, low, high), y - x)
  {
    hide Lawful, Supported;
    var g := t.rows[k];
    ParameterSpan(t, k, x, y);
    if g.kind.Arc? && axis < 2 {
      RowArcSpan(trig, t, k, axis, low, high, x, y);
    } else {
      RowLineSpan(trig, t, k, axis, low, high, x, y);
    }
  }

  lemma RowLineSpan(trig: Trig, t: Table, k: nat, axis: nat, low: real, high: real, x: real, y: real)
    requires Sound(trig, t) && k < |t.rows| && axis < AXIS_COUNT && !(t.rows[k].kind.Arc? && axis < 2)
    requires t.station[k] <= x <= y <= t.station[k + 1]
    ensures Abs(CurveAt(trig, t, k, axis, y) - CurveAt(trig, t, k, axis, x)) <=
              Charge(Rate(trig, t, k, axis, low, high), y - x)
  {
    var g, u, v := t.rows[k], Parameter(t, k, x), Parameter(t, k, y);
    assert Supported(trig, g);
    hide ValidArcAxis, Parameter, Sound;
    ParameterSpan(t, k, x, y);
    if g.kind.Arc? {
      Still(trig, g, axis, u, v);
    } else {
      LineSpan(g.end[axis] - g.start[axis], g.lengthMm, u, v, y - x);
      LineStep(trig, g, axis, u, v);
    }
  }

  lemma LineStep(trig: Trig, g: Row, axis: nat, u: real, v: real)
    requires Sized(g) && g.kind.Line? && axis < AXIS_COUNT
    ensures var d := g.end[axis] - g.start[axis]; Curve(trig, g, axis, v) - Curve(trig, g, axis, u) == v * d - u * d
  {
  }

  /** Outside its plane an arc does not move. */
  lemma Still(trig: Trig, g: Row, axis: nat, u: real, v: real)
    requires Supported(trig, g) && g.kind.Arc? && 2 <= axis < AXIS_COUNT
    ensures Curve(trig, g, axis, v) == Curve(trig, g, axis, u)
  {
    hide ValidArcAxis;
    assert !g.mask[axis] && g.end[axis] - g.start[axis] == 0.0;
  }

  lemma RowArcSpan(trig: Trig, t: Table, k: nat, axis: nat, low: real, high: real, x: real, y: real)
    requires Lawful(trig) && Sound(trig, t) && k < |t.rows| && axis < 2 && t.rows[k].kind.Arc?
    requires t.station[k] <= x <= y <= t.station[k + 1] && low <= x && y <= high
    ensures Abs(CurveAt(trig, t, k, axis, y) - CurveAt(trig, t, k, axis, x)) <=
              Charge(Rate(trig, t, k, axis, low, high), y - x)
  {
    hide Lawful, Supported, Curve, Parameter, SpanMaximum, ArcSpeed, Angle;
    var g, u, v := t.rows[k], Parameter(t, k, x), Parameter(t, k, y);
    var begin, end := Max(0.0, Parameter(t, k, low)), Min(1.0, Parameter(t, k, high));
    ParameterSpan(t, k, x, y);
    ClippedSpan(t, k, low, high, x, y);
    ArcMoves(trig, g, axis, begin, u, v, end);
    var m := SpanMaximum(trig, Angle(g, begin), Angle(g, end), axis == 0);
    ArcSpan(g, Abs(Curve(trig, g, axis, v) - Curve(trig, g, axis, u)), m, u, v, y - x);
  }

  // ------------------------------------------- over rows and seams of a span

  lemma {:induction false} TopRateCovers(trig: Trig, t: Table, n: nat, k: nat, axis: nat, low: real, high: real)
    requires Stationed(t) && k < n <= |t.rows| && axis < AXIS_COUNT && Crossed(t, k, low, high)
    ensures Rate(trig, t, k, axis, low, high) <= TopRate(trig, t, n, axis, low, high)
    decreases n
  {
    if k < n - 1 {
      TopRateCovers(trig, t, n - 1, k, axis, low, high);
    }
  }

  lemma {:induction false} SeamTravelGrows(t: Table, m: nat, n: nat, axis: nat, low: real, high: real)
    requires Stationed(t) && m <= n <= |t.rows| && axis < AXIS_COUNT
    ensures SeamTravel(t, m, axis, low, high) <= SeamTravel(t, n, axis, low, high)
    decreases n
  {
    if m < n {
      SeamTravelGrows(t, m, n - 1, axis, low, high);
    }
  }

  lemma SeamsCounted(t: Table, m: nat, axis: nat, low: real, high: real)
    requires Stationed(t) && m < |t.rows| && axis < AXIS_COUNT
    ensures 0.0 <= SeamTravel(t, m + 1, axis, low, high)
    ensures m > 0 ==> 0.0 <= SeamTravel(t, m, axis, low, high)
    ensures m > 0 && low <= t.station[m] < high ==>
              SeamTravel(t, m + 1, axis, low, high) == SeamTravel(t, m, axis, low, high) + Seam(t, m, axis)
  {
    SeamTravelGrows(t, 0, m + 1, axis, low, high);
    SeamTravelGrows(t, 0, m, axis, low, high);
  }

  lemma {:induction false} ExcessTravelGrows(trig: Trig, t: Table, m: nat, n: nat, axis: nat, low: real, high: real)
    requires Stationed(t) && m <= n <= |t.rows| && axis < AXIS_COUNT
    ensures ExcessTravel(trig, t, m, axis, low, high) <= ExcessTravel(trig, t, n, axis, low, high)
    decreases n
  {
    hide RowExcess;
    if m < n {
      ExcessTravelGrows(trig, t, m, n - 1, axis, low, high);
    }
  }

  lemma ExcessCounted(trig: Trig, t: Table, m: nat, axis: nat, low: real, high: real)
    requires Stationed(t) && m < |t.rows| && axis < AXIS_COUNT && Crossed(t, m, low, high)
    ensures ExcessTravel(trig, t, m + 1, axis, low, high) ==
              ExcessTravel(trig, t, m, axis, low, high) + RowExcess(trig, t, m, axis, low, high)
  {
  }

  /** The span of a crossed row, charged at the largest rate of all. */
  lemma CrossedSpan(trig: Trig, t: Table, k: nat, axis: nat, low: real, high: real, x: real, y: real)
    requires Lawful(trig) && Sound(trig, t) && k < |t.rows| && axis < AXIS_COUNT
    requires t.station[k] <= x < y <= t.station[k + 1] && low <= x && y <= high
    ensures Abs(CurveAt(trig, t, k, axis, y) - CurveAt(trig, t, k, axis, x)) <=
              Charge(TopRate(trig, t, |t.rows|, axis, low, high), y - x)
  {
    hide Lawful, Supported, Rate, TopRate, CurveAt;
    RowSpan(trig, t, k, axis, low, high, x, y);
    TopRateCovers(trig, t, |t.rows|, k, axis, low, high);
    MulMono(Rate(trig, t, k, axis, low, high), TopRate(trig, t, |t.rows|, axis, low, high), y - x);
  }

  function ValueAt(trig: Trig, t: Table, k: nat, axis: nat, c: real): real
    requires Stationed(t) && k < |t.rows| && axis < AXIS_COUNT
  {
    Value(trig, t.rows[k], axis, Parameter(t, k, c))
  }

  lemma ParameterInside(t: Table, k: nat, c: real)
    requires Stationed(t) && k < |t.rows| && t.station[k] < c < t.station[k + 1]
    ensures 0.0 < Parameter(t, k, c) < 1.0
  {
    ParameterSpan(t, k, c, c);
    var u, l := Parameter(t, k, c), t.rows[k].lengthMm;
    assert u * l == c - t.station[k];
    if u >= 1.0 {
      MulMono(1.0, u, l);
    }
  }

  /** Where a row shows its curve, and where its stored end points. */
  lemma ValueOf(trig: Trig, t: Table, k: nat, axis: nat, c: real)
    requires Sound(trig, t) && k < |t.rows| && axis < AXIS_COUNT && t.station[k] <= c <= t.station[k + 1]
    ensures c == t.station[k] ==> ValueAt(trig, t, k, axis, c) == t.rows[k].start[axis]
                                  && CurveAt(trig, t, k, axis, c) == Curve(trig, t.rows[k], axis, 0.0)
    ensures c == t.station[k + 1] ==> ValueAt(trig, t, k, axis, c) == t.rows[k].end[axis]
                                      && CurveAt(trig, t, k, axis, c) == Curve(trig, t.rows[k], axis, 1.0)
    ensures t.station[k] < c < t.station[k + 1] ==> ValueAt(trig, t, k, axis, c) == CurveAt(trig, t, k, axis, c)
  {
    ParameterEnds(t, k);
    if t.station[k] < c < t.station[k + 1] {
      ParameterInside(t, k, c);
    }
    var g, u := t.rows[k], Parameter(t, k, c);
    assert Supported(trig, g);
    hide Parameter, Wave, Angle, ValidArcAxis, Sound;
    if t.station[k] < c < t.station[k + 1] {
      if !g.mask[axis] {
        assert g.start[axis] == g.end[axis];
      }
    }
  }

  /** The error made by taking the curve for the pose at the far end of a leg. */
  lemma Arrives(trig: Trig, t: Table, k: nat, axis: nat, z: real, high: real)
    requires Sound(trig, t) && k < |t.rows| && axis < AXIS_COUNT && t.station[k] < z <= t.station[k + 1] && z <= high
    ensures Abs(ValueAt(trig, t, k, axis, z) - CurveAt(trig, t, k, axis, z)) <=
              if t.station[k + 1] <= high then EndExcess(trig, t, k, axis) else 0.0
  {
    hide ValueAt, CurveAt, Curve, Supported;
    ValueOf(trig, t, k, axis, z);
  }

  lemma ChargeSplit(rate: real, x: real, y: real, z: real)
    ensures Charge(rate, y - x) + Charge(rate, z - y) == Charge(rate, z - x)
  {
    assert rate * (y - x) + rate * (z - y) == rate * (z - x);
  }

  /** From the low cursor to a later one in the same row. */
  lemma Leave(trig: Trig, t: Table, k: nat, axis: nat, low: real, z: real, high: real)
    requires Lawful(trig) && Sound(trig, t) && axis < AXIS_COUNT && 0.0 <= low <= Length(t)
    requires k == Owner(t, low) && low < z <= t.station[k + 1] && z <= high
    ensures Abs(ValueAt(trig, t, k, axis, z) - Pose(trig, t, low, axis)) <=
              Charge(TopRate(trig, t, |t.rows|, axis, low, high), z - low) + RowExcess(trig, t, k, axis, low, high)
  {
    assert Pose(trig, t, low, axis) == ValueAt(trig, t, k, axis, low);
    hide ValueAt, CurveAt, Curve, Supported, Lawful, TopRate, Charge, Pose;
    CrossedSpan(trig, t, k, axis, low, high, low, z);
    Arrives(trig, t, k, axis, z, high);
    ValueOf(trig, t, k, axis, low);
  }

  /** From the end of the row before, over the seam, into a row. */
  lemma Enter(trig: Trig, t: Table, k: nat, axis: nat, low: real, z: real, high: real)
    requires Lawful(trig) && Sound(trig, t) && axis < AXIS_COUNT && 0 < k < |t.rows|
    requires low <= t.station[k] < z <= t.station[k + 1] && z <= high
    ensures Abs(ValueAt(trig, t, k, axis, z) - t.rows[k - 1].end[axis]) <=
              Charge(TopRate(trig, t, |t.rows|, axis, low, high), z - t.station[k])
              + Seam(t, k, axis) + RowExcess(trig, t, k, axis, low, high)
  {
    hide ValueAt, CurveAt, Curve, Supported, Lawful, TopRate, Charge;
    CrossedSpan(trig, t, k, axis, low, high, t.station[k], z);
    Arrives(trig, t, k, axis, z, high);
    ValueOf(trig, t, k, axis, t.station[k]);
  }

  lemma EndValue(trig: Trig, t: Table, k: nat, axis: nat)
    requires Stationed(t) && k < |t.rows| && axis < AXIS_COUNT
    ensures ValueAt(trig, t, k, axis, t.station[k + 1]) == t.rows[k].end[axis]
  {
    ParameterEnds(t, k);
  }

  /** What is charged, with the excess, for reaching a later cursor over the first n rows. */
  ghost function Budget(trig: Trig, t: Table, n: nat, axis: nat, low: real, high: real, c: real): real
    requires Stationed(t) && n <= |t.rows| && axis < AXIS_COUNT
  {
    Charge(TopRate(trig, t, |t.rows|, axis, low, high), c - low)
    + SeamTravel(t, n, axis, low, high) + ExcessTravel(trig, t, n, axis, low, high)
  }

  /** One more row, entered at its station, adds its charge, its seam and its excess. */
  lemma BudgetGrows(trig: Trig, t: Table, j: nat, axis: nat, low: real, high: real, z: real)
    requires Stationed(t) && 0 < j < |t.rows| && axis < AXIS_COUNT
    requires low <= t.station[j] < high && Crossed(t, j, low, high)
    ensures Budget(trig, t, j + 1, axis, low, high, z) ==
              Budget(trig, t, j, axis, low, high, t.station[j])
              + Charge(TopRate(trig, t, |t.rows|, axis, low, high), z - t.station[j])
              + Seam(t, j, axis) + RowExcess(trig, t, j, axis, low, high)
  {
    hide TopRate, SeamTravel, ExcessTravel, RowExcess, Charge, Seam;
    SeamsCounted(t, j, axis, low, high);
    ExcessCounted(trig, t, j, axis, low, high);
    ChargeSplit(TopRate(trig, t, |t.rows|, axis, low, high), low, t.station[j], z);
  }

  lemma BudgetCoversRow(trig: Trig, t: Table, j: nat, axis: nat, low: real, high: real, z: real)
    requires Stationed(t) && j < |t.rows| && axis < AXIS_COUNT && Crossed(t, j, low, high)
    ensures Budget(trig, t, j + 1, axis, low, high, z) >=
              Charge(TopRate(trig, t, |t.rows|, axis, low, high), z - low) + RowExcess(trig, t, j, axis, low, high)
  {
    hide TopRate, SeamTravel, ExcessTravel, RowExcess, Charge, Seam;
    SeamsCounted(t, j, axis, low, high);
    ExcessCounted(trig, t, j, axis, low, high);
  }

  /** From the low cursor into row j, over every row and seam between. */
  lemma {:induction false} Reach(trig: Trig, t: Table, j: nat, axis: nat, low: real, z: real, high: real)
    requires Lawful(trig) && Sound(trig, t) && axis < AXIS_COUNT && 0.0 <= low <= Length(t)
    requires Owner(t, low) <= j < |t.rows| && low < z && t.station[j] < z <= t.station[j + 1] && z <= high
    ensures Abs(ValueAt(trig, t, j, axis, z) - Pose(trig, t, low, axis)) <= Budget(trig, t, j + 1, axis, low, high, z)
    decreases j
  {
    hide ValueAt, Supported, Lawful, TopRate, Charge, Pose, SeamTravel, RowExcess, Owner, Budget;
    var k := Owner(t, low);
    if j == k {
      Leave(trig, t, j, axis, low, z, high);
      BudgetCoversRow(trig, t, j, axis, low, high, z);
    } else {
      BehindOwner(t, j, low);
      if low < t.station[j] {
        StationsIncrease(t, j - 1, j);
        Reach(trig, t, j - 1, axis, low, t.station[j], high);
        EndValue(trig, t, j - 1, axis);
      } else {
        AtSeam(trig, t, j, axis, low, high);
      }
      Enter(trig, t, j, axis, low, z, high);
      BudgetGrows(trig, t, j, axis, low, high, z);
    }
  }

  lemma BehindOwner(t: Table, j: nat, c: real)
    requires Stationed(t) && 0.0 <= c <= Length(t) && Owner(t, c) < j < |t.rows|
    ensures c <= t.station[j] && (c == t.station[j] ==> j == Owner(t, c) + 1)
  {
    if Owner(t, c) + 1 < j {
      StationsIncrease(t, Owner(t, c) + 1, j);
    }
  }

  lemma OwnEnd(trig: Trig, t: Table, c: real, axis: nat)
    requires Stationed(t) && axis < AXIS_COUNT && 0.0 <= c <= Length(t) && c == t.station[Owner(t, c) + 1]
    ensures Pose(trig, t, c, axis) == t.rows[Owner(t, c)].end[axis]
  {
    ParameterEnds(t, Owner(t, c));
  }

  lemma AtSeam(trig: Trig, t: Table, j: nat, axis: nat, low: real, high: real)
    requires Stationed(t) && 0.0 <= low <= Length(t) && 0 < j < |t.rows| && axis < AXIS_COUNT
    requires j == Owner(t, low) + 1 && low == t.station[j]
    ensures Pose(trig, t, low, axis) == t.rows[j - 1].end[axis] && Budget(trig, t, j, axis, low, high, low) >= 0.0
  {
    OwnEnd(trig, t, low, axis);
    SeamsCounted(t, j, axis, low, high);
    NoCharge(TopRate(trig, t, |t.rows|, axis, low, high), low - low);
  }

  lemma NoCharge(rate: real, span: real)
    requires span == 0.0
    ensures Charge(rate, span) == 0.0
  {
  }

  lemma OwnersOrdered(t: Table, low: real, high: real)
    requires Stationed(t) && 0.0 <= low <= high <= Length(t)
    ensures Owner(t, low) <= Owner(t, high)
  {
    var k, m := Owner(t, low), Owner(t, high);
    if m < k {
      if m + 1 < k {
        StationsIncrease(t, m + 1, k);
      }
    }
  }

  /** What ValidateTraversal charges an axis for a span of the cursor. */
  ghost function Charged(trig: Trig, t: Table, axis: nat, low: real, high: real): real
    requires Stationed(t) && axis < AXIS_COUNT
  {
    Charge(TopRate(trig, t, |t.rows|, axis, low, high), high - low) + SeamTravel(t, |t.rows|, axis, low, high)
  }

  function Moved(trig: Trig, t: Table, from: real, to: real, axis: nat): real
    requires Stationed(t) && axis < AXIS_COUNT && 0.0 <= from <= Length(t) && 0.0 <= to <= Length(t)
  {
    Abs(Pose(trig, t, to, axis) - Pose(trig, t, from, axis))
  }

  /** The displacement of one axis is at most what ValidateTraversal charges for it and the excess of the ends used. */
  lemma Displacement(trig: Trig, t: Table, axis: nat, low: real, high: real)
    requires Lawful(trig) && Sound(trig, t) && axis < AXIS_COUNT && 0.0 <= low < high <= Length(t)
    ensures Moved(trig, t, low, high, axis) <=
              Charged(trig, t, axis, low, high) + ExcessTravel(trig, t, |t.rows|, axis, low, high)
  {
    hide Lawful, Supported, Pose, Owner, TopRate, SeamTravel, ExcessTravel, Charge;
    BudgetCoversPose(trig, t, axis, low, high);
  }

  lemma BudgetCoversPose(trig: Trig, t: Table, axis: nat, low: real, high: real)
    requires Lawful(trig) && Sound(trig, t) && axis < AXIS_COUNT && 0.0 <= low < high <= Length(t)
    ensures Abs(Pose(trig, t, high, axis) - Pose(trig, t, low, axis)) <= Budget(trig, t, |t.rows|, axis, low, high,
          high)
  {
    hide Lawful, Supported, Pose, ValueAt, Budget;
    var m := Owner(t, high);
    PoseIsValue(trig, t, high, axis);
    OwnersOrdered(t, low, high);
    Reach(trig, t, m, axis, low, high, high);
    BudgetMono(trig, t, m + 1, axis, low, high);
  }

  lemma PoseIsValue(trig: Trig, t: Table, c: real, axis: nat)
    requires Stationed(t) && axis < AXIS_COUNT && 0.0 <= c <= Length(t)
    ensures Pose(trig, t, c, axis) == ValueAt(trig, t, Owner(t, c), axis, c)
  {
  }

  lemma BudgetMono(trig: Trig, t: Table, n: nat, axis: nat, low: real, high: real)
    requires Stationed(t) && n <= |t.rows| && axis < AXIS_COUNT
    ensures Budget(trig, t, n, axis, low, high, high) <= Budget(trig, t, |t.rows|, axis, low, high, high)
  {
    hide TopRate, SeamTravel, ExcessTravel, Charge;
    SeamTravelGrows(t, n, |t.rows|, axis, low, high);
    ExcessTravelGrows(trig, t, n, |t.rows|, axis, low, high);
  }

  // ----------------------------------------------- the traversal check holds

  /** A displacement in one period as a velocity per minute. */
  function PerMinute(config: Config, moved: real): real
    requires config.periodUs > 0
  {
    moved * Scale(config)
  }

  function Limit(config: Config, axis: nat): real
    requires axis < |config.axes|
  {
    config.axes[axis].maxVelocityPerMin * SLACK
  }

  /**
   The traversal bound dominates the motion: if ValidateTraversal passes, each axis displacement between
   the two evaluated poses, over all crossed rows and seams, obeys the same velocity limit, up to the excess
   of the row ends the span uses; so exactly the same limit when they have none.
   */
  lemma TraversalDominates(trig: Trig, t: Table, from: real, to: real, config: Config, axis: nat)
    requires Lawful(trig) && Sound(trig, t) && axis < AXIS_COUNT == |config.axes| && config.periodUs > 0
    requires 0.0 <= from <= Length(t) && 0.0 <= to <= Length(t) && config.axes[axis].maxVelocityPerMin >= 0.0
    requires TraversalAllowed(trig, t, from, to, config)
    ensures var excess := ExcessTravel(trig, t, |t.rows|, axis, Min(from, to), Max(from, to));
            PerMinute(config, Moved(trig, t, from, to, axis)) <= Limit(config, axis) + PerMinute(config, excess)
  {
    hide Lawful, Supported, TraversalAllowed, Moved, Charged, ExcessTravel, PerMinute, Limit;
    var low, high := Min(from, to), Max(from, to);
    var excess := ExcessTravel(trig, t, |t.rows|, axis, low, high);
    MovedEitherWay(trig, t, from, to, axis);
    if from == to {
      NoSpeed(config, axis, excess);
    } else {
      AllowedCharge(trig, t, axis, from, to, config);
      Displacement(trig, t, axis, low, high);
      PerMinuteMono(config, Moved(trig, t, low, high, axis), Charged(trig, t, axis, low, high), excess);
    }
  }

  lemma MovedEitherWay(trig: Trig, t: Table, from: real, to: real, axis: nat)
    requires Stationed(t) && axis < AXIS_COUNT && 0.0 <= from <= Length(t) && 0.0 <= to <= Length(t)
    ensures Moved(trig, t, from, to, axis) == Moved(trig, t, Min(from, to), Max(from, to), axis)
    ensures from == to ==> Moved(trig, t, from, to, axis) == 0.0
  {
    hide Pose;
  }

  lemma AllowedCharge(trig: Trig, t: Table, axis: nat, from: real, to: real, config: Config)
    requires Stationed(t) && axis < AXIS_COUNT == |config.axes| && config.periodUs > 0
    requires from != to && TraversalAllowed(trig, t, from, to, config)
    ensures PerMinute(config, Charged(trig, t, axis, Min(from, to), Max(from, to))) <= Limit(config, axis)
  {
    hide WithinVelocity, Charged, PerMinute, Limit;
    assert WithinVelocity(trig, t, axis, Min(from, to), Max(from, to), config);
    ChargeIsTested(trig, t, axis, Min(from, to), Max(from, to), config);
  }

  /** The per-axis test of ValidateTraversal, read as a displacement per period. */
  lemma ChargeIsTested(trig: Trig, t: Table, axis: nat, low: real, high: real, config: Config)
    requires Stationed(t) && axis < AXIS_COUNT == |config.axes| && config.periodUs > 0
    ensures WithinVelocity(trig, t, axis, low, high, config) <==>
            PerMinute(config, Charged(trig, t, axis, low, high)) <= Limit(config, axis)
  {
    hide TopRate, SeamTravel, Scale;
    var top, seams, span, scale :=
      TopRate(trig, t, |t.rows|, axis, low, high), SeamTravel(t, |t.rows|, axis, low, high), high - low, Scale(config);
    assert (top * span + seams) * scale == top * (span * scale) + seams * scale;
  }

  lemma PerMinuteMono(config: Config, moved: real, charged: real, excess: real)
    requires config.periodUs > 0 && moved <= charged + excess
    ensures PerMinute(config, moved) <= PerMinute(config, charged) + PerMinute(config, excess)
  {
    ScalePositive(config);
    hide Scale;
    MulMono(moved, charged + excess, Scale(config));
  }

  lemma NoSpeed(config: Config, axis: nat, excess: real)
    requires axis < |config.axes| && config.periodUs > 0 && config.axes[axis].maxVelocityPerMin >= 0.0 && excess >= 0.0
    ensures PerMinute(config, 0.0) <= Limit(config, axis) + PerMinute(config, excess)
  {
    ScalePositive(config);
    hide Scale;
    MulMono(0.0, excess, Scale(config));
  }

  lemma ScalePositive(config: Config)
    requires config.periodUs > 0
    ensures Scale(config) > 0.0
  {
    assert config.periodUs as real > 0.0;
  }


  // ------------------------------------------------- cursors near a row's end

  lemma {:induction false} TopRateInRow(trig: Trig, t: Table, n: nat, k: nat, axis: nat, low: real, high: real)
    requires Stationed(t) && n <= |t.rows| && k < |t.rows| && axis < AXIS_COUNT
    requires t.station[k] <= low < high <= t.station[k + 1]
    ensures TopRate(trig, t, n, axis, low, high) ==
              if k < n then Max(0.0, Rate(trig, t, k, axis, low, high)) else 0.0
  {
    hide Rate;
    if n > 0 {
      TopRateInRow(trig, t, n - 1, k, axis, low, high);
      if n - 1 < k {
        StationsBetween(t, n, k);
      } else if k < n - 1 {
        StationsBetween(t, k + 1, n - 1);
      }
    }
  }

  lemma StationsBetween(t: Table, i: nat, j: nat)
    requires Stationed(t) && i <= j <= |t.rows|
    ensures t.station[i] <= t.station[j]
  {
    if i < j {
      StationsIncrease(t, i, j);
    }
  }

  lemma {:induction false} SeamsInRow(t: Table, n: nat, k: nat, axis: nat, low: real, high: real)
    requires Stationed(t) && n <= |t.rows| && k < |t.rows| && axis < AXIS_COUNT
    requires t.station[k] <= low < high <= t.station[k + 1]
    ensures SeamTravel(t, n, axis, low, high) == if 0 < k < n && low == t.station[k] then Seam(t, k, axis) else 0.0
  {
    hide Seam;
    if n > 1 {
      SeamsInRow(t, n - 1, k, axis, low, high);
      if n - 1 < k {
        StationsIncrease(t, n - 1, k);
      } else if k < n - 1 {
        StationsBetween(t, k + 1, n - 1);
      }
    }
  }

  /** No part of an arc moves faster than the whole circle does. */
  lemma RateAtMost(trig: Trig, t: Table, k: nat, axis: nat, low: real, high: real)
    requires Lawful(trig) && Sound(trig, t) && k < |t.rows| && axis < 2 && t.rows[k].kind.Arc?
    requires t.station[k] <= low < high <= t.station[k + 1]
    ensures Rate(trig, t, k, axis, low, high) <= ArcSpeed(t.rows[k], 1.0) && ArcSpeed(t.rows[k], 1.0) > 0.0
  {
    hide Lawful, Supported, Parameter, SpanMaximum, ArcSpeed, Angle, Wave;
    var g := t.rows[k];
    ParameterSpan(t, k, low, high);
    var begin, end := Max(0.0, Parameter(t, k, low)), Min(1.0, Parameter(t, k, high));
    ArcIsCanonical(trig, g, begin);
    ArcIsCanonical(trig, g, end);
    NineExtremaSuffice(trig, axis == 0, Angle(g, begin), Angle(g, begin), Angle(g, end));
    ArcSpeedMono(trig, g, SpanMaximum(trig, Angle(g, begin), Angle(g, end), axis == 0));
  }

  lemma ArcSpeedMono(trig: Trig, g: Row, m: real)
    requires Lawful(trig) && Supported(trig, g) && g.kind.Arc? && m <= 1.0
    ensures ArcSpeed(g, m) <= ArcSpeed(g, 1.0) && ArcSpeed(g, 1.0) > 0.0
  {
    hide ValidArcAxis;
    var r := g.radiusMm * Abs(g.sweep);
    assert g.radiusMm > 0.0 && Abs(g.sweep) > 0.0;
    MulStrict(0.0, g.radiusMm, Abs(g.sweep));
    var speed := r / g.lengthMm;
    assert speed * g.lengthMm == r;
    if speed <= 0.0 {
      MulMono(speed, 0.0, g.lengthMm);
    }
    MulMono(m, 1.0, speed);
  }

  function EndPoint(trig: Trig, t: Table, k: nat, axis: nat, last: bool): real
    requires Stationed(t) && k < |t.rows| && axis < AXIS_COUNT
  {
    Curve(trig, t.rows[k], axis, if last then 1.0 else 0.0)
  }

  /**
   A cursor inside an arc, so near to its first or last station that neither the curve nor the charge moves
   more than gap.
   */
  lemma Nearby(trig: Trig, t: Table, k: nat, axis: nat, last: bool, gap: real) returns (c: real)
    requires Lawful(trig) && Sound(trig, t) && k < |t.rows| && axis < 2 && t.rows[k].kind.Arc? && gap > 0.0
    ensures t.station[k] < c < t.station[k + 1]
    ensures Abs(CurveAt(trig, t, k, axis, c) - EndPoint(trig, t, k, axis, last)) <= gap
    ensures var low, high := if last then c else t.station[k], if last then t.station[k + 1] else c;
            Charge(TopRate(trig, t, |t.rows|, axis, low, high), high - low) <= gap
  {
    hide Lawful, Supported, Rate, TopRate, ArcSpeed, CurveAt, Curve, EndPoint, Charge;
    var speed := ArcSpeed(t.rows[k], 1.0);
    RateAtMost(trig, t, k, axis, t.station[k], t.station[k + 1]);
    var e := Smaller(speed, gap, t.rows[k].lengthMm);
    c := if last then t.station[k + 1] - e else t.station[k] + e;
    var low, high := if last then c else t.station[k], if last then t.station[k + 1] else c;
    SmallSpan(trig, t, k, axis, low, high, gap);
    EndPointIs(trig, t, k, axis, last);
  }

  lemma SmallSpan(trig: Trig, t: Table, k: nat, axis: nat, low: real, high: real, gap: real)
    requires Lawful(trig) && Sound(trig, t) && k < |t.rows| && axis < 2 && t.rows[k].kind.Arc?
    requires t.station[k] <= low < high <= t.station[k + 1]
    requires Charge(ArcSpeed(t.rows[k], 1.0), high - low) <= gap && gap > 0.0
    ensures Abs(CurveAt(trig, t, k, axis, high) - CurveAt(trig, t, k, axis, low)) <= gap
    ensures Charge(TopRate(trig, t, |t.rows|, axis, low, high), high - low) <= gap
  {
    hide Lawful, Supported, Rate, TopRate, ArcSpeed, CurveAt, Charge;
    var speed := ArcSpeed(t.rows[k], 1.0);
    RateAtMost(trig, t, k, axis, low, high);
    TopRateInRow(trig, t, |t.rows|, k, axis, low, high);
    RowSpan(trig, t, k, axis, low, high, low, high);
    ChargeWithin(TopRate(trig, t, |t.rows|, axis, low, high), speed, high - low, gap);
    ChargeWithin(Rate(trig, t, k, axis, low, high), speed, high - low, gap);
  }

  lemma ChargeWithin(rate: real, speed: real, e: real, gap: real)
    requires rate <= speed && e > 0.0 && Charge(speed, e) <= gap
    ensures Charge(rate, e) <= gap
  {
    MulMono(rate, speed, e);
  }

  lemma Smaller(speed: real, gap: real, length: real) returns (e: real)
    requires speed > 0.0 && gap > 0.0 && length > 0.0
    ensures 0.0 < e < length && Charge(speed, e) <= gap
  {
    var whole := gap / speed;
    assert whole * speed == gap;
    if whole <= 0.0 {
      MulMono(whole, 0.0, speed);
    }
    e := Min(length / 2.0, whole);
    MulMono(e, whole, speed);
  }

  lemma EndPointIs(trig: Trig, t: Table, k: nat, axis: nat, last: bool)
    requires Stationed(t) && k < |t.rows| && axis < AXIS_COUNT
    ensures CurveAt(trig, t, k, axis, if last then t.station[k + 1] else t.station[k])
          == EndPoint(trig, t, k, axis, last)
  {
    ParameterEnds(t, k);
  }

  // --------------------------------------- exactly when the charge dominates

  predicate Span(t: Table, low: real, high: real)
    requires Stationed(t)
  {
    0.0 <= low < high <= Length(t)
  }

  ghost predicate Dominated(trig: Trig, t: Table)
    requires Stationed(t)
  {
    forall axis: nat, low: real, high: real :: axis < AXIS_COUNT && Span(t, low, high) ==>
      Moved(trig, t, low, high, axis) <= Charged(trig, t, axis, low, high)
  }

  /** Inside its stations the pose of a row is its curve; at its last station it is the stored end. */
  lemma PoseIn(trig: Trig, t: Table, k: nat, axis: nat, c: real)
    requires Sound(trig, t) && k < |t.rows| && axis < AXIS_COUNT && t.station[k] < c <= t.station[k + 1]
    ensures 0.0 <= c <= Length(t) && Owner(t, c) == k
    ensures Pose(trig, t, c, axis) == if c < t.station[k + 1] then CurveAt(trig, t, k, axis, c) else t.rows[k].end[axis]
  {
    StationsBetween(t, 0, k);
    StationsBetween(t, k + 1, |t.rows|);
    OwnerIsUnique(t, k, Owner(t, c), c);
    assert Pose(trig, t, c, axis) == ValueAt(trig, t, k, axis, c);
    hide Pose, ValueAt, CurveAt, Supported;
    ValueOf(trig, t, k, axis, c);
  }

  /** The pose at the first station of a row. */
  lemma PoseBefore(trig: Trig, t: Table, k: nat, axis: nat)
    requires Sound(trig, t) && k < |t.rows| && axis < AXIS_COUNT
    ensures 0.0 <= t.station[k] <= Length(t)
    ensures Pose(trig, t, t.station[k], axis) == if k == 0 then t.rows[0].start[axis] else t.rows[k - 1].end[axis]
  {
    StationsBetween(t, 0, k);
    StationsBetween(t, k, |t.rows|);
    if k > 0 {
      StationsIncrease(t, k - 1, k);
      PoseIn(trig, t, k - 1, axis, t.station[k]);
    } else {
      OwnerIsUnique(t, 0, Owner(t, 0.0), 0.0);
      ParameterEnds(t, 0);
    }
  }

  /** A row end with an excess lies on an arc. */
  lemma ExcessOnArc(trig: Trig, t: Table, k: nat, axis: nat)
    requires Sound(trig, t) && k < |t.rows| && axis < AXIS_COUNT
    requires StartExcess(trig, t, k, axis) > 0.0 || EndExcess(trig, t, k, axis) > 0.0
    ensures t.rows[k].kind.Arc? && axis < 2
  {
    hide StartExcess, EndExcess, Supported, Tolerance;
    ExcessIsTolerated(trig, t, k, axis);
  }

  /** A start off the charged way makes some short span move further than it is charged. */
  lemma LooseStart(trig: Trig, t: Table, k: nat, axis: nat) returns (low: real, high: real)
    requires Lawful(trig) && Sound(trig, t) && k < |t.rows| && axis < AXIS_COUNT && StartExcess(trig, t, k, axis) > 0.0
    ensures Span(t, low, high) && Moved(trig, t, low, high, axis) > Charged(trig, t, axis, low, high)
  {
    hide Lawful, Supported, StartExcess, CurveAt, Curve, EndPoint, Charge, TopRate, Moved, Charged, Seam;
    ExcessOnArc(trig, t, k, axis);
    StartExcessIs(trig, t, k, axis);
    var gap := StartExcess(trig, t, k, axis) / 3.0;
    low := t.station[k];
    high := Nearby(trig, t, k, axis, false, gap);
    StartMoved(trig, t, k, axis, high);
  }

  lemma StartExcessIs(trig: Trig, t: Table, k: nat, axis: nat)
    requires Stationed(t) && k < |t.rows| && axis < AXIS_COUNT && StartExcess(trig, t, k, axis) > 0.0
    ensures StartExcess(trig, t, k, axis) ==
              if k == 0 then Abs(EndPoint(trig, t, k, axis, false) - t.rows[0].start[axis])
              else Abs(EndPoint(trig, t, k, axis, false) - t.rows[k - 1].end[axis]) - Seam(t, k, axis)
  {
    hide Curve, Seam;
  }

  /** From the first station of a row a short way into it. */
  lemma StartMoved(trig: Trig, t: Table, k: nat, axis: nat, high: real)
    requires Sound(trig, t) && k < |t.rows| && axis < AXIS_COUNT && t.station[k] < high < t.station[k + 1]
    ensures Span(t, t.station[k], high)
    ensures Moved(trig, t, t.station[k], high, axis) ==
              Abs(CurveAt(trig, t, k, axis, high) - if k == 0 then t.rows[0].start[axis] else t.rows[k - 1].end[axis])
    ensures Charged(trig, t, axis, t.station[k], high) ==
              Charge(TopRate(trig, t, |t.rows|, axis, t.station[k], high), high - t.station[k])
              + if k == 0 then 0.0 else Seam(t, k, axis)
  {
    hide Supported, CurveAt, Charge, TopRate, SeamTravel, Pose, Seam;
    PoseIn(trig, t, k, axis, high);
    PoseBefore(trig, t, k, axis);
    SeamsInRow(t, |t.rows|, k, axis, t.station[k], high);
  }

  lemma LooseEnd(trig: Trig, t: Table, k: nat, axis: nat) returns (low: real, high: real)
    requires Lawful(trig) && Sound(trig, t) && k < |t.rows| && axis < AXIS_COUNT && EndExcess(trig, t, k, axis) > 0.0
    ensures Span(t, low, high) && Moved(trig, t, low, high, axis) > Charged(trig, t, axis, low, high)
  {
    assert EndExcess(trig, t, k, axis) == Abs(t.rows[k].end[axis] - EndPoint(trig, t, k, axis, true));
    hide Lawful, Supported, EndExcess, CurveAt, Curve, EndPoint, Charge, TopRate, SeamTravel, Pose, Seam;
    ExcessOnArc(trig, t, k, axis);
    var gap := EndExcess(trig, t, k, axis) / 3.0;
    high := t.station[k + 1];
    low := Nearby(trig, t, k, axis, true, gap);
    PoseIn(trig, t, k, axis, high);
    PoseIn(trig, t, k, axis, low);
    SeamsInRow(t, |t.rows|, k, axis, low, high);
  }

  /** The charge dominates the motion on every span exactly when no row end has an excess. */
  lemma DominatedExactlyWhenTight(trig: Trig, t: Table)
    requires Lawful(trig) && Sound(trig, t)
    ensures Dominated(trig, t) <==> Tight(trig, t)
  {
    hide Lawful, Supported, StartExcess, EndExcess, Moved, Charged;
    if Tight(trig, t) {
      forall axis: nat, low: real, high: real | axis < AXIS_COUNT && Span(t, low, high)
        ensures Moved(trig, t, low, high, axis) <= Charged(trig, t, axis, low, high)
      {
        TightIsDominated(trig, t, axis, low, high);
      }
    } else {
      var k: nat, axis: nat :| k < |t.rows| && axis < AXIS_COUNT &&
                               !(StartExcess(trig, t, k, axis) == 0.0 && EndExcess(trig, t, k, axis) == 0.0);
      var low, high;
      if StartExcess(trig, t, k, axis) > 0.0 {
        low, high := LooseStart(trig, t, k, axis);
      } else {
        low, high := LooseEnd(trig, t, k, axis);
      }
    }
  }

  lemma TightIsDominated(trig: Trig, t: Table, axis: nat, low: real, high: real)
    requires Lawful(trig) && Sound(trig, t) && Tight(trig, t) && axis < AXIS_COUNT && Span(t, low, high)
    ensures Moved(trig, t, low, high, axis) <= Charged(trig, t, axis, low, high)
  {
    hide Lawful, Supported, Tight, Charge, TopRate, SeamTravel, Pose, ExcessTravel;
    Displacement(trig, t, axis, low, high);
    TightTravelsNoExcess(trig, t, |t.rows|, axis, low, high);
  }

  // ------------------------------------------------ what Begin has admitted

  predicate ValidAxes(config: Config) {
    forall axis :: 0 <= axis < |config.axes| ==>
      && config.axes[axis].minimum < config.axes[axis].maximum
      && config.axes[axis].maxTravel > 0.0 && config.axes[axis].maxVelocityPerMin > 0.0
  }

  ghost predicate Ready(t: Table, config: Config)
    requires Stationed(t)
  {
    |config.axes| == AXIS_COUNT && ValidAxes(config) && config.periodUs > 0 && BoundsHold(t, config)
  }

  predicate OnPath(t: Table, c: real)
    requires Stationed(t)
  {
    0.0 <= c <= Length(t)
  }

  /** A bound on every coordinate that ValidateBounds looks at. */
  function Reaches(row: Row): (r: real)
    requires Sized(row)
    ensures forall axis :: 0 <= axis < AXIS_COUNT ==> -r <= row.start[axis] <= r && -r <= row.end[axis] <= r
    ensures forall axis :: 0 <= axis < 2 ==> -r <= row.boundsMin[axis] <= r && -r <= row.boundsMax[axis] <= r
  {
    Largest(row.start) + Largest(row.end) + Largest(row.boundsMin) + Largest(row.boundsMax)
  }

  function Largest(s: seq<real>): (r: real)
    ensures r >= 0.0 && forall i :: 0 <= i < |s| ==> -r <= s[i] <= r
  {
    if s == [] then 0.0
    else
      var r := Largest(s[1..]) + Abs(s[0]);
      assert forall i :: 0 <= i < |s| ==> s[i] == if i == 0 then s[0] else s[1..][i - 1];
      r
  }

  lemma {:induction false} Widest(t: Table, n: nat) returns (r: real)
    requires Stationed(t) && n <= |t.rows|
    ensures r >= 1.0 && forall k :: 0 <= k < n ==> Reaches(t.rows[k]) <= r
  {
    r := 1.0;
    if n > 0 {
      r := Widest(t, n - 1);
      r := Max(r, Reaches(t.rows[n - 1]));
    }
  }

  /** Limits wide enough for every row, with the given velocities. */
  lemma WideConfig(t: Table, velocity: seq<real>) returns (config: Config)
    requires Stationed(t) && |velocity| == AXIS_COUNT && forall axis :: 0 <= axis < AXIS_COUNT ==> velocity[axis] > 0.0
    ensures Ready(t, config) && config.periodUs == 250
    ensures forall axis :: 0 <= axis < AXIS_COUNT ==> config.axes[axis].maxVelocityPerMin == velocity[axis]
  {
    var r := Widest(t, |t.rows|);
    config := Config(seq(AXIS_COUNT, i requires 0 <= i < AXIS_COUNT => Bounds(-r, r, 2.0 * r, velocity[i])), 250);
    forall k: nat, axis: nat | k < |t.rows| && axis < AXIS_COUNT ensures AxisBounded(t, k, axis, config.axes[axis]) {
      WideBounds(t, k, axis, r, config.axes[axis]);
    }
  }

  lemma WideBounds(t: Table, k: nat, axis: nat, r: real, b: Bounds)
    requires Stationed(t) && k < |t.rows| && axis < AXIS_COUNT
    requires Reaches(t.rows[k]) <= r && Reaches(t.rows[0]) <= r && -b.minimum == b.maximum == r
          && b.maxTravel == 2.0 * r
    ensures AxisBounded(t, k, axis, b)
  {
    hide Reaches;
    assert Reaches(t.rows[k]) <= r && Reaches(t.rows[0]) <= r;
  }

  /** The charges of a span, with one axis given more, as velocities. */
  ghost function Velocity(trig: Trig, t: Table, a: nat, low: real, high: real, axis: nat, allowed: real): real
    requires Stationed(t) && a < AXIS_COUNT && axis < AXIS_COUNT
  {
    (if a == axis then allowed else Charged(trig, t, a, low, high) + 1.0) * 240000.0 / SLACK
  }

  lemma {:induction false} TopRateNonNegative(trig: Trig, t: Table, n: nat, axis: nat, low: real, high: real)
    requires Stationed(t) && n <= |t.rows| && axis < AXIS_COUNT
    ensures TopRate(trig, t, n, axis, low, high) >= 0.0
  {
    hide Rate;
    if n > 0 {
      TopRateNonNegative(trig, t, n - 1, axis, low, high);
    }
  }

  lemma ChargedNonNegative(trig: Trig, t: Table, axis: nat, low: real, high: real)
    requires Stationed(t) && axis < AXIS_COUNT && low < high
    ensures Charged(trig, t, axis, low, high) >= 0.0
  {
    hide TopRate, SeamTravel;
    TopRateNonNegative(trig, t, |t.rows|, axis, low, high);
    SeamsCounted(t, |t.rows| - 1, axis, low, high);
    ChargeNonNegative(TopRate(trig, t, |t.rows|, axis, low, high), high - low);
  }

  lemma ChargeNonNegative(rate: real, span: real)
    requires rate >= 0.0 && span >= 0.0
    ensures Charge(rate, span) >= 0.0
  {
  }

  /** A span that moves further than it is charged passes ValidateTraversal under some limit it exceeds. */
  lemma Exposed(trig: Trig, t: Table, axis: nat, low: real, high: real) returns (config: Config)
    requires Stationed(t) && axis < AXIS_COUNT && Span(t, low, high)
    requires Moved(trig, t, low, high, axis) > Charged(trig, t, axis, low, high)
    ensures Ready(t, config) && config.periodUs == 250 && TraversalAllowed(trig, t, low, high, config)
    ensures PerMinute(config, Moved(trig, t, low, high, axis)) > Limit(config, axis)
  {
    ChargedNonNegative(trig, t, axis, low, high);
    var allowed := (Moved(trig, t, low, high, axis) + Charged(trig, t, axis, low, high)) / 2.0;
    ghost var velocity := seq(AXIS_COUNT,
        a requires 0 <= a < AXIS_COUNT => Velocity(trig, t, a, low, high, axis, allowed));
    hide Moved, Charged;
    forall a | 0 <= a < AXIS_COUNT ensures velocity[a] > 0.0 {
      ChargedNonNegative(trig, t, a, low, high);
    }
    config := WideConfig(t, velocity);
    hide Velocity;
    forall a: nat | a < AXIS_COUNT
      ensures WithinVelocity(trig, t, a, low, high, config)
    {
      assert config.axes[a].maxVelocityPerMin == velocity[a];
      VelocityAllows(trig, t, a, low, high, axis, allowed, config);
      ChargeIsTested(trig, t, a, low, high, config);
    }
    assert config.axes[axis].maxVelocityPerMin == velocity[axis];
    VelocityAllows(trig, t, axis, low, high, axis, allowed, config);
    Faster(config, allowed, Moved(trig, t, low, high, axis));
  }

  lemma Faster(config: Config, less: real, more: real)
    requires config.periodUs > 0 && less < more
    ensures PerMinute(config, less) < PerMinute(config, more)
  {
    ScalePositive(config);
    hide Scale;
    MulStrict(less, more, Scale(config));
  }

  lemma VelocityAllows(trig: Trig, t: Table, a: nat, low: real, high: real, axis: nat, allowed: real, config: Config)
    requires Stationed(t) && a < AXIS_COUNT == |config.axes| && axis < AXIS_COUNT && config.periodUs == 250
    requires config.axes[a].maxVelocityPerMin == Velocity(trig, t, a, low, high, axis, allowed)
    requires allowed >= Charged(trig, t, axis, low, high)
    ensures PerMinute(config, Charged(trig, t, a, low, high)) <= Limit(config, a)
    ensures a == axis ==> Limit(config, a) == PerMinute(config, allowed)
  {
    hide Charged;
    assert Scale(config) == 240000.0;
  }

  /** Every step that passes ValidateTraversal keeps the velocity limits, whatever limits Begin admits. */
  ghost predicate TraversalSuffices(trig: Trig, t: Table)
    requires Stationed(t)
  {
    forall from: real, to: real, config: Config, axis: nat ::
      OnPath(t, from) && OnPath(t, to) && Ready(t, config) && axis < AXIS_COUNT
      && TraversalAllowed(trig, t, from, to, config) ==>
        PerMinute(config, Moved(trig, t, from, to, axis)) <= Limit(config, axis)
  }

  /**
   The traversal check makes Step's own velocity test unnecessary exactly when no row end has an excess:
   always on lines, and on arcs when the stored end points are where the charged way ends.
   */
  lemma TraversalSufficesExactlyWhenTight(trig: Trig, t: Table)
    requires Lawful(trig) && Sound(trig, t)
    ensures TraversalSuffices(trig, t) <==> Tight(trig, t)
  {
    hide Lawful, Supported, Moved, Charged, PerMinute, Limit, Tight, TraversalAllowed, BoundsHold, ValidAxes;
    DominatedExactlyWhenTight(trig, t);
    if Tight(trig, t) {
      forall from: real, to: real, config: Config, axis: nat |
        OnPath(t, from) && OnPath(t, to) && Ready(t, config) && axis < AXIS_COUNT
        && TraversalAllowed(trig, t, from, to, config)
        ensures PerMinute(config, Moved(trig, t, from, to, axis)) <= Limit(config, axis)
      {
        TightKeepsVelocity(trig, t, from, to, config, axis);
      }
    } else {
      var axis: nat, low: real, high: real :| axis < AXIS_COUNT && Span(t, low, high) &&
                                              Moved(trig, t, low, high, axis) > Charged(trig, t, axis, low, high);
      var config := Exposed(trig, t, axis, low, high);
    }
  }

  lemma TightKeepsVelocity(trig: Trig, t: Table, from: real, to: real, config: Config, axis: nat)
    requires Lawful(trig) && Sound(trig, t) && Tight(trig, t) && Ready(t, config) && axis < AXIS_COUNT
    requires OnPath(t, from) && OnPath(t, to) && TraversalAllowed(trig, t, from, to, config)
    ensures PerMinute(config, Moved(trig, t, from, to, axis)) <= Limit(config, axis)
  {
    hide Lawful, Supported, Moved, TraversalAllowed, Limit, ExcessTravel, Tight, BoundsHold, Scale;
    assert config.axes[axis].maxVelocityPerMin > 0.0;
    TraversalDominates(trig, t, from, to, config, axis);
    TightTravelsNoExcess(trig, t, |t.rows|, axis, Min(from, to), Max(from, to));
  }

  // ------------------------------------------------- the boxes cover the path

  /** The values a checked arc can take, seen from one of the two angles where an axis turns. */
  lemma NotPassed(trig: Trig, angle: real, g: Row)
    requires Lawful(trig) && Supported(trig, g) && g.kind.Arc?
    requires -(trig.pi / 2.0) <= angle <= trig.pi && !ContainsAngle(trig, angle, g.startAngle, g.sweep, g.full)
    ensures var a, b := Min(Angle(g, 0.0), Angle(g, 1.0)) - angle, Max(Angle(g, 0.0), Angle(g, 1.0)) - angle;
            (0.0 <= a && b <= 2.0 * trig.pi) || (-2.0 * trig.pi <= a && b <= 0.0)
  {
    assert trig.pi > 0.0;
    hide Lawful, ValidArcAxis;
    assert ValidArc(trig, g);
  }

  lemma TurnBelow(trig: Trig, g: Row, angle: real, u: real)
    requires Lawful(trig) && Supported(trig, g) && g.kind.Arc? && 0.0 <= u <= 1.0
    requires -(trig.pi / 2.0) <= angle <= trig.pi && !ContainsAngle(trig, angle, g.startAngle, g.sweep, g.full)
    ensures trig.cos(Angle(g, u) - angle) <= Max(trig.cos(Angle(g, 0.0) - angle), trig.cos(Angle(g, 1.0) - angle))
  {
    hide Lawful, Supported, ContainsAngle, Angle;
    var x, y, z := Angle(g, 0.0), Angle(g, 1.0), Angle(g, u);
    NotPassed(trig, angle, g);
    AngleBetween(g, 0.0, u, 1.0);
    HighestAtEnd(trig, Min(x, y) - angle, z - angle, Max(x, y) - angle);
  }

  /** Seen from the angle where it is lowest, either wave is a negated cosine. */
  lemma Opposite(trig: Trig, sine: bool, x: real)
    requires Lawful(trig)
    ensures trig.cos(x - LowAngle(trig, if sine then 1 else 0)) == -Wave(trig, sine, x)
  {
    hide Lawful;
    LawsAt(trig, x);
    if sine {
      LawsAt(trig, x + trig.pi / 2.0);
      assert x + trig.pi / 2.0 - trig.pi == x - trig.pi / 2.0;
    }
  }

  lemma Facing(trig: Trig, sine: bool, x: real)
    requires Lawful(trig)
    ensures trig.cos(x - HighAngle(trig, if sine then 1 else 0)) == Wave(trig, sine, x)
  {
    hide Lawful;
    LawsAt(trig, x);
  }

  lemma TurningAngles(trig: Trig, axis: nat)
    requires Lawful(trig)
    ensures -(trig.pi / 2.0) <= HighAngle(trig, axis) <= trig.pi && -(trig.pi / 2.0) <= LowAngle(trig, axis) <= trig.pi
  {
  }

  /**
   Between its ends an arc rises above both only where its circle is highest, and falls below only where it is
   lowest.
   */
  lemma WaveStays(trig: Trig, g: Row, sine: bool, u: real)
    requires Lawful(trig) && Supported(trig, g) && g.kind.Arc? && 0.0 <= u <= 1.0
    ensures var x, y, z := Wave(trig, sine, Angle(g, 0.0)), Wave(trig, sine, Angle(g, 1.0)),
          Wave(trig, sine, Angle(g, u));
            && (z <= Max(x, y) || ContainsAngle(trig, HighAngle(trig, if sine then 1 else 0), g.startAngle, g.sweep,
                g.full))
            && (z >= Min(x, y) || ContainsAngle(trig, LowAngle(trig, if sine then 1 else 0), g.startAngle, g.sweep,
                g.full))
  {
    hide Lawful, Supported, ContainsAngle, Angle, Wave, HighAngle, LowAngle;
    var high, low := HighAngle(trig, if sine then 1 else 0), LowAngle(trig, if sine then 1 else 0);
    TurningAngles(trig, if sine then 1 else 0);
    if !ContainsAngle(trig, high, g.startAngle, g.sweep, g.full) {
      TurnBelow(trig, g, high, u);
      Facing(trig, sine, Angle(g, 0.0));
      Facing(trig, sine, Angle(g, 1.0));
      Facing(trig, sine, Angle(g, u));
    }
    if !ContainsAngle(trig, low, g.startAngle, g.sweep, g.full) {
      TurnBelow(trig, g, low, u);
      Opposite(trig, sine, Angle(g, 0.0));
      Opposite(trig, sine, Angle(g, 1.0));
      Opposite(trig, sine, Angle(g, u));
    }
  }

  /** An arc stays between the lower and the higher of its two curve ends and its checked box. */
  lemma ArcStays(trig: Trig, g: Row, axis: nat, u: real)
    requires Lawful(trig) && Supported(trig, g) && Sized(g) && g.kind.Arc? && axis < 2 && 0.0 <= u <= 1.0
    ensures var x, y := Curve(trig, g, axis, 0.0), Curve(trig, g, axis, 1.0);
            Min(Min(x, y), g.boundsMin[axis]) <= Curve(trig, g, axis, u) <= Max(Max(x, y), g.boundsMax[axis])
  {
    var sine := axis == 1;
    assert axis == if sine then 1 else 0;
    ArcBoxed(trig, g, axis);
    hide Lawful, Supported, ContainsAngle, Angle, Wave, Curve, HighAngle, LowAngle, Height;
    var x, y, z := Wave(trig, sine, Angle(g, 0.0)), Wave(trig, sine, Angle(g, 1.0)), Wave(trig, sine, Angle(g, u));
    HeightOf(trig, g, axis, 0.0);
    HeightOf(trig, g, axis, 1.0);
    HeightOf(trig, g, axis, u);
    WaveWithin(trig, sine, Angle(g, u));
    WaveStays(trig, g, sine, u);
    HeightMono(g, axis, x, z);
    HeightMono(g, axis, y, z);
  }

  function Height(g: Row, axis: nat, w: real): real
    requires Sized(g) && axis < 2
  {
    g.center[axis] + g.radiusMm * w
  }

  lemma HeightOf(trig: Trig, g: Row, axis: nat, u: real)
    requires Sized(g) && g.kind.Arc? && axis < 2
    ensures Curve(trig, g, axis, u) == Height(g, axis, Wave(trig, axis == 1, Angle(g, u)))
  {
  }

  lemma HeightMono(g: Row, axis: nat, a: real, b: real)
    requires Sized(g) && axis < 2 && g.radiusMm > 0.0 && -1.0 <= b <= 1.0
    ensures (a <= b ==> Height(g, axis, a) <= Height(g, axis, b))
          && (b <= a ==> Height(g, axis, b) <= Height(g, axis, a))
    ensures g.center[axis] - g.radiusMm <= Height(g, axis, b) <= g.center[axis] + g.radiusMm
  {
    if a <= b {
      MulMono(a, b, g.radiusMm);
    }
    if b <= a {
      MulMono(b, a, g.radiusMm);
    }
    MulMono(b, 1.0, g.radiusMm);
    MulMono(-1.0, b, g.radiusMm);
  }

  lemma ArcBoxed(trig: Trig, g: Row, axis: nat)
    requires Supported(trig, g) && g.kind.Arc? && axis < 2
    ensures g.radiusMm > 0.0
    ensures ContainsAngle(trig, HighAngle(trig, axis), g.startAngle, g.sweep, g.full) ==>
              g.center[axis] + g.radiusMm <= g.boundsMax[axis]
    ensures ContainsAngle(trig, LowAngle(trig, axis), g.startAngle, g.sweep, g.full) ==>
              g.center[axis] - g.radiusMm >= g.boundsMin[axis]
  {
    hide ContainsAngle, Curve, Tolerance;
    assert ValidArcAxis(trig, g, axis);
  }

  /** A coordinate inside the limits of its axis and its travel from the path's origin. */
  predicate Kept(t: Table, config: Config, axis: nat, x: real)
    requires Stationed(t) && axis < AXIS_COUNT == |config.axes|
  {
    && config.axes[axis].minimum <= x <= config.axes[axis].maximum
    && Abs(x - t.rows[0].start[axis]) <= config.axes[axis].maxTravel
  }

  /** The curve of every arc begins and ends inside the limits, as its stored end points do. */
  predicate EndsKept(trig: Trig, t: Table, config: Config)
    requires Stationed(t) && |config.axes| == AXIS_COUNT
  {
    forall k, axis :: 0 <= k < |t.rows| && 0 <= axis < 2 && t.rows[k].kind.Arc? ==>
      && Kept(t, config, axis, Curve(trig, t.rows[k], axis, 0.0))
      && Kept(t, config, axis, Curve(trig, t.rows[k], axis, 1.0))
  }

  lemma KeptBetween(t: Table, config: Config, axis: nat, a: real, x: real, b: real)
    requires Stationed(t) && axis < AXIS_COUNT == |config.axes|
    requires Kept(t, config, axis, a) && Kept(t, config, axis, b) && a <= x <= b
    ensures Kept(t, config, axis, x)
  {
  }

  lemma BoxKept(trig: Trig, t: Table, config: Config, k: nat, axis: nat)
    requires Sound(trig, t) && |config.axes| == AXIS_COUNT && BoundsHold(t, config) && k < |t.rows| && axis < AXIS_COUNT
    ensures if t.rows[k].kind.Arc? && axis < 2
            then Kept(t, config, axis, t.rows[k].boundsMin[axis]) && Kept(t, config, axis, t.rows[k].boundsMax[axis])
            else Kept(t, config, axis, t.rows[k].start[axis]) && Kept(t, config, axis, t.rows[k].end[axis])
  {
    assert AxisBounded(t, k, axis, config.axes[axis]);
    assert ValidGeometry(trig, t.rows[k]);
    hide ValidArc, BoundsHold;
  }

  /** A stored end point of an arc lies in its checked box. */
  lemma StoredKept(trig: Trig, t: Table, config: Config, k: nat, axis: nat)
    requires Sound(trig, t) && |config.axes| == AXIS_COUNT && BoundsHold(t, config) && k < |t.rows| && axis < AXIS_COUNT
    ensures Kept(t, config, axis, t.rows[k].start[axis]) && Kept(t, config, axis, t.rows[k].end[axis])
  {
    var g := t.rows[k];
    assert ValidGeometry(trig, g);
    hide ValidArc, BoundsHold, Kept;
    BoxKept(trig, t, config, k, axis);
    if g.kind.Arc? && axis < 2 {
      assert g.boundsMin[axis] <= g.start[axis] <= g.boundsMax[axis]
          && g.boundsMin[axis] <= g.end[axis] <= g.boundsMax[axis];
      KeptBetween(t, config, axis, g.boundsMin[axis], g.start[axis], g.boundsMax[axis]);
      KeptBetween(t, config, axis, g.boundsMin[axis], g.end[axis], g.boundsMax[axis]);
    }
  }

  /** Checked bounds hold at every cursor: each pose is inside its limits and its travel. */
  lemma BoundsCoverPath(trig: Trig, t: Table, config: Config, c: real, axis: nat)
    requires Lawful(trig) && Sound(trig, t) && axis < AXIS_COUNT == |config.axes| && BoundsHold(t, config)
    requires OnPath(t, c) && EndsKept(trig, t, config)
    ensures Kept(t, config, axis, Pose(trig, t, c, axis))
  {
    var k := Owner(t, c);
    var g := t.rows[k];
    hide Lawful, Supported, BoundsHold, Kept, CurveAt, Pose, EndsKept;
    StoredKept(trig, t, config, k, axis);
    if c == t.station[k] {
      PoseBefore(trig, t, k, axis);
    } else {
      PoseIn(trig, t, k, axis, c);
      if c < t.station[k + 1] {
        CurveKept(trig, t, config, k, c, axis);
      }
    }
  }

  lemma CurveKept(trig: Trig, t: Table, config: Config, k: nat, c: real, axis: nat)
    requires Lawful(trig) && Sound(trig, t) && axis < AXIS_COUNT == |config.axes| && BoundsHold(t, config)
    requires k < |t.rows| && t.station[k] < c < t.station[k + 1] && EndsKept(trig, t, config)
    ensures Kept(t, config, axis, CurveAt(trig, t, k, axis, c))
  {
    hide Lawful, Supported, BoundsHold, Kept, EndsKept, Curve, Parameter;
    ParameterInside(t, k, c);
    if t.rows[k].kind.Arc? && axis < 2 {
      ArcKept(trig, t, config, k, Parameter(t, k, c), axis);
    } else {
      LineKept(trig, t, config, k, Parameter(t, k, c), axis);
    }
  }

  lemma ArcKept(trig: Trig, t: Table, config: Config, k: nat, u: real, axis: nat)
    requires Lawful(trig) && Sound(trig, t) && axis < 2 && |config.axes| == AXIS_COUNT && BoundsHold(t, config)
    requires k < |t.rows| && t.rows[k].kind.Arc? && 0.0 <= u <= 1.0 && EndsKept(trig, t, config)
    ensures Kept(t, config, axis, Curve(trig, t.rows[k], axis, u))
  {
    hide Lawful, Supported, BoundsHold, Kept, Curve;
    var g := t.rows[k];
    var x, y := Curve(trig, g, axis, 0.0), Curve(trig, g, axis, 1.0);
    assert Kept(t, config, axis, x) && Kept(t, config, axis, y);
    BoxKept(trig, t, config, k, axis);
    ArcStays(trig, g, axis, u);
    KeptBetween(t, config, axis, Min(Min(x, y), g.boundsMin[axis]), Curve(trig, g, axis, u),
                Max(Max(x, y), g.boundsMax[axis]));
  }

  lemma LineKept(trig: Trig, t: Table, config: Config, k: nat, u: real, axis: nat)
    requires Sound(trig, t) && axis < AXIS_COUNT == |config.axes| && BoundsHold(t, config)
    requires k < |t.rows| && !(t.rows[k].kind.Arc? && axis < 2) && 0.0 <= u <= 1.0
    ensures Kept(t, config, axis, Curve(trig, t.rows[k], axis, u))
  {
    hide Supported, BoundsHold, Kept;
    var g := t.rows[k];
    StoredKept(trig, t, config, k, axis);
    Between(g.start[axis], g.end[axis], u);
    KeptBetween(t, config, axis, Min(g.start[axis], g.end[axis]), Curve(trig, g, axis, u),
        Max(g.start[axis], g.end[axis]));
  }

  /** How far a coordinate is outside. */
  function Outside(t: Table, config: Config, axis: nat, x: real): (d: real)
    requires Stationed(t) && axis < AXIS_COUNT == |config.axes|
    ensures Kept(t, config, axis, x) <==> d <= 0.0
  {
    var b := config.axes[axis];
    Max(Max(b.minimum - x, x - b.maximum), Abs(x - t.rows[0].start[axis]) - b.maxTravel)
  }

  lemma StaysOutside(t: Table, config: Config, axis: nat, x: real, y: real)
    requires Stationed(t) && axis < AXIS_COUNT == |config.axes| && Abs(y - x) < Outside(t, config, axis, x)
    ensures !Kept(t, config, axis, y)
  {
  }

  /** An arc whose curve begins or ends outside the limits takes the path outside. */
  lemma LeavesLimits(trig: Trig, t: Table, config: Config, k: nat, axis: nat, last: bool) returns (c: real)
    requires Lawful(trig) && Sound(trig, t) && k < |t.rows| && axis < 2 && AXIS_COUNT == |config.axes|
    requires t.rows[k].kind.Arc? && !Kept(t, config, axis, EndPoint(trig, t, k, axis, last))
    ensures OnPath(t, c) && !Kept(t, config, axis, Pose(trig, t, c, axis))
  {
    hide Lawful, Supported, Kept, Outside, EndPoint, CurveAt, Pose, TopRate, Charge;
    var x := EndPoint(trig, t, k, axis, last);
    var d := Outside(t, config, axis, x);
    c := Nearby(trig, t, k, axis, last, d / 2.0);
    PoseIn(trig, t, k, axis, c);
    StaysOutside(t, config, axis, x, Pose(trig, t, c, axis));
  }

  ghost predicate PathKept(trig: Trig, t: Table, config: Config)
    requires Stationed(t) && |config.axes| == AXIS_COUNT
  {
    forall c: real, axis: nat :: OnPath(t, c) && axis < AXIS_COUNT ==> Kept(t, config, axis, Pose(trig, t, c, axis))
  }

  /**
   ValidateBounds makes Step's limit and travel tests unnecessary exactly when the curve of every arc begins
   and ends inside the limits; lines need no condition.
   */
  lemma PathKeptExactlyWhenEndsAre(trig: Trig, t: Table, config: Config)
    requires Lawful(trig) && Sound(trig, t) && |config.axes| == AXIS_COUNT && BoundsHold(t, config)
    ensures PathKept(trig, t, config) <==> EndsKept(trig, t, config)
  {
    hide Lawful, Supported, BoundsHold, Kept, Pose, Curve;
    if EndsKept(trig, t, config) {
      forall c: real, axis: nat | OnPath(t, c) && axis < AXIS_COUNT
          ensures Kept(t, config, axis, Pose(trig, t, c, axis)) {
        BoundsCoverPath(trig, t, config, c, axis);
      }
    } else {
      var k: nat, axis: nat :| k < |t.rows| && axis < 2 && t.rows[k].kind.Arc? &&
        !(Kept(t, config, axis, Curve(trig, t.rows[k], axis, 0.0))
            && Kept(t, config, axis, Curve(trig, t.rows[k], axis, 1.0)));
      var c := LeavesLimits(trig, t, config, k, axis, Kept(t, config, axis, EndPoint(trig, t, k, axis, false)));
    }
  }
}
