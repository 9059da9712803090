/**
 The traversal check charges no more than the motion needs: on the crossed part of a row the charged rate is the
 least one that bounds the motion there, on a line the charge is the displacement itself, and a seam is charged
 exactly when it lies between the two cursors.
 */
module RetainedSharpness {
  import opened Reals
  import opened Trigonometry
  import opened RetainedPath
  import opened RetainedMotion

  // ------------------------------------------------------------- one arc

  lemma WaveIsSteady(trig: Trig, sine: bool, x: real, y: real)
    requires Lawful(trig)
    ensures Abs(Wave(trig, sine, y)) >= Abs(Wave(trig, sine, x)) - Abs(y - x)
  {
    hide Lawful, Wave;
    var a, b, other := Min(x, y), Max(x, y), !sine;
    forall z | a <= z <= b ensures Abs(Wave(trig, other, z)) <= 1.0 {
      WaveWithin(trig, other, z);
    }
    Steepness(trig, other, a, b, 1.0);
    assert !other == sine;
    assert Abs(Wave(trig, sine, b) - Wave(trig, sine, a)) <= b - a;
    if x > y {
      assert a == y && b == x;
    }
  }

  lemma ScaledTravel(g: Row, w: real, was: real, m: real, part: real, turn: real, center: real)
    requires g.radiusMm >= 0.0 && part >= 0.0 && turn == Abs(part * g.sweep) && Abs(w - was) == m * turn
    ensures Abs((center + g.radiusMm * w) - (center + g.radiusMm * was)) == ArcTravel(g, m, part)
  {
    var r := g.radiusMm;
    AbsProduct(part, g.sweep);
    AbsProduct(r, w - was);
    assert r * w - r * was == r * (w - was);
    calc {
      r * (m * turn);
      r * (m * (part * Abs(g.sweep)));
      r * Abs(g.sweep) * m * part;
    }
  }

  /** Between two angles one wave changes by the other one, taken somewhere between them, times the turn. */
  lemma WaveChord(trig: Trig, sine: bool, x: real, y: real) returns (z: real)
    requires Lawful(trig)
    ensures Min(x, y) <= z <= Max(x, y)
    ensures Abs(Wave(trig, !sine, y) - Wave(trig, !sine, x)) == Abs(Wave(trig, sine, z)) * (Max(x, y) - Min(x, y))
  {
    hide Lawful, Wave;
    var a, b := Min(x, y), Max(x, y);
    z := MeanValue(trig, sine, a, b);
    AbsProduct(Wave(trig, sine, z), b - a);
    var other := !sine;
    assert Abs(Wave(trig, other, b) - Wave(trig, other, a)) == Abs(Wave(trig, sine, z) * (b - a));
    assert Abs(Wave(trig, other, y) - Wave(trig, other, x)) == Abs(Wave(trig, other, b) - Wave(trig, other, a));
  }

  /** A chord of an arc is as steep as the arc itself is somewhere between its ends. */
  lemma ChordSlope(trig: Trig, g: Row, axis: nat, u: real, v: real) returns (z: real)
    requires Lawful(trig) && Supported(trig, g) && g.kind.Arc? && axis < 2 && u <= v
    ensures Min(Angle(g, u), Angle(g, v)) <= z <= Max(Angle(g, u), Angle(g, v))
    ensures Abs(Curve(trig, g, axis, v) - Curve(trig, g, axis, u)) ==
            ArcTravel(g, Abs(Wave(trig, axis == 0, z)), v - u)
  {
    hide Curve, Lawful, Wave, Supported, Angle, ArcTravel;
    var sine, x, y := axis == 0, Angle(g, u), Angle(g, v);
    z := WaveChord(trig, sine, x, y);
    AngleStep(g, u, v);
    var turn := Max(x, y) - Min(x, y);
    var other := !sine;
    assert other == (axis == 1);
    OnCircle(trig, g, axis, u);
    OnCircle(trig, g, axis, v);
    ScaledTravel(g, Wave(trig, other, y), Wave(trig, other, x), Abs(Wave(trig, sine, z)), v - u, turn,
                 g.center[axis]);
  }

  /** Every angle between those of two parameters belongs to a parameter between them. */
  lemma AngleIsPassed(g: Row, u: real, v: real, z: real) returns (w: real)
    requires g.sweep != 0.0 && u <= v && Min(Angle(g, u), Angle(g, v)) <= z <= Max(Angle(g, u), Angle(g, v))
    ensures u <= w <= v && Angle(g, w) == z
  {
    w := (z - g.startAngle) / g.sweep;
    assert w * g.sweep == z - g.startAngle;
    assert Angle(g, w) == z;
    hide Angle;
    if w < u {
      AngleIsStrict(g, w, u, v);
    } else if w > v {
      AngleIsStrict(g, u, v, w);
    }
  }

  lemma AngleIsStrict(g: Row, u: real, v: real, w: real)
    requires g.sweep != 0.0 && u <= v <= w
    ensures u < v ==> Angle(g, u) < Min(Angle(g, v), Angle(g, w)) || Angle(g, u) > Max(Angle(g, v), Angle(g, w))
    ensures v < w ==> Angle(g, w) < Min(Angle(g, u), Angle(g, v)) || Angle(g, w) > Max(Angle(g, u), Angle(g, v))
  {
    if g.sweep > 0.0 {
      Steps(u, v, w, g.sweep);
    } else {
      Steps(u, v, w, -g.sweep);
      assert u * -g.sweep == -(u * g.sweep) && v * -g.sweep == -(v * g.sweep) && w * -g.sweep == -(w * g.sweep);
    }
  }

  lemma Steps(u: real, v: real, w: real, s: real)
    requires s > 0.0 && u <= v <= w
    ensures u * s <= v * s <= w * s && (u < v ==> u * s < v * s) && (v < w ==> v * s < w * s)
  {
    if u < v {
      MulStrict(u, v, s);
    }
    if v < w {
      MulStrict(v, w, s);
    }
  }

  /** An extremum of the cosine, or of the sine, has the value one. */
  lemma ExtremumIsOne(trig: Trig, k: int, sine: bool)
    requires Lawful(trig)
    ensures Abs(Wave(trig, sine, Extremum(trig, k, sine))) == 1.0
  {
    var d := k as real * trig.pi;
    assert trig.cos(0.0) == 1.0;
    hide Lawful;
    HalfTurnsBack(trig, d, k, d);
    assert d - d == 0.0;
    if sine {
      Quarter(trig, d + trig.pi / 2.0);
      assert d + trig.pi / 2.0 - trig.pi / 2.0 == d;
      assert Extremum(trig, k, true) == d + trig.pi / 2.0;
    } else {
      assert Extremum(trig, k, false) == d + 0.0;
      assert d + 0.0 == d;
    }
  }

  /** The value of MaximumAbsTrig is taken somewhere on the span. */
  lemma MaximumIsTaken(trig: Trig, a: real, b: real, sine: bool) returns (z: real)
    requires Lawful(trig)
    ensures Min(a, b) <= z <= Max(a, b) && Abs(Wave(trig, sine, z)) == SpanMaximum(trig, a, b, sine)
  {
    hide Lawful;
    if HasExtremum(trig, a, b, sine) {
      var k :| -4 <= k <= 4 && Min(a, b) <= Extremum(trig, k, sine) <= Max(a, b);
      ExtremumIsOne(trig, k, sine);
      z := Extremum(trig, k, sine);
    } else {
      z := if Abs(Wave(trig, sine, a)) > Abs(Wave(trig, sine, b)) then a else b;
    }
  }

  // ------------------------------------------------------ the least rate

  /** Nothing on this part of a row moves faster than the rate. */
  ghost predicate MovesAtMost(trig: Trig, t: Table, k: nat, axis: nat, low: real, high: real, rate: real)
    requires Stationed(t) && k < |t.rows| && axis < AXIS_COUNT
  {
    forall x, y :: low <= x <= y <= high ==>
      Abs(CurveAt(trig, t, k, axis, y) - CurveAt(trig, t, k, axis, x)) <= Charge(rate, y - x)
  }

  lemma SweepIsNotZero(trig: Trig, g: Row)
    requires Lawful(trig) && Supported(trig, g) && g.kind.Arc?
    ensures g.sweep != 0.0 && Abs(g.sweep) > 0.0 && g.radiusMm > 0.0 && g.lengthMm > 0.0
  {
    assert trig.pi > 0.0;
    hide ValidArcAxis, Lawful;
    assert ValidArc(trig, g);
  }

  /** The cursor where an arc is steepest on the part from low to high. */
  lemma SteepestCursor(trig: Trig, t: Table, k: nat, axis: nat, low: real, high: real) returns (c: real)
    requires Lawful(trig) && Sound(trig, t) && k < |t.rows| && axis < 2 && t.rows[k].kind.Arc?
    requires t.station[k] <= low <= high <= t.station[k + 1]
    ensures low <= c <= high
    ensures Rate(trig, t, k, axis, low, high) ==
            ArcSpeed(t.rows[k], Abs(Wave(trig, axis == 0, Angle(t.rows[k], Parameter(t, k, c)))))
  {
    var g := t.rows[k];
    var u, v := Parameter(t, k, low), Parameter(t, k, high);
    SweepIsNotZero(trig, g);
    hide Lawful, Supported, SpanMaximum, Wave, Angle, ArcSpeed;
    ParameterSpan(t, k, low, high);
    var z := MaximumIsTaken(trig, Angle(g, u), Angle(g, v), axis == 0);
    var w := AngleIsPassed(g, u, v, z);
    c := CursorOf(t, k, low, high, w);
  }

  lemma CursorOf(t: Table, k: nat, low: real, high: real, w: real) returns (c: real)
    requires Stationed(t) && k < |t.rows| && Parameter(t, k, low) <= w <= Parameter(t, k, high)
    ensures low <= c <= high && Parameter(t, k, c) == w
  {
    var l := t.rows[k].lengthMm;
    c := t.station[k] + w * l;
    assert (c - t.station[k]) / l == w;
    assert Parameter(t, k, low) * l == low - t.station[k] && Parameter(t, k, high) * l == high - t.station[k];
    MulMono(Parameter(t, k, low), w, l);
    MulMono(w, Parameter(t, k, high), l);
  }

  /** The angle an arc turns through per cursor step. */
  function Turn(g: Row): real
    requires g.lengthMm > 0.0
  {
    Abs(g.sweep) / g.lengthMm
  }

  /** On a short chord an arc is nearly as steep as it is at either end. */
  lemma SteepChord(trig: Trig, g: Row, axis: nat, u: real, v: real, at: real, span: real)
    requires Lawful(trig) && Supported(trig, g) && g.kind.Arc? && axis < 2 && u <= v && (at == u || at == v)
    requires (v - u) * g.lengthMm == span
    ensures g.lengthMm > 0.0
    ensures Abs(Curve(trig, g, axis, v) - Curve(trig, g, axis, u)) >=
            Charge(ArcSpeed(g, Abs(Wave(trig, axis == 0, Angle(g, at))) - Charge(Turn(g), span)), span)
  {
    hide Lawful, Supported, Wave, Curve, Angle, ArcSpeed, ArcTravel, Turn, Charge;
    SweepIsNotZero(trig, g);
    var z := ChordSlope(trig, g, axis, u, v);
    AngleStep(g, u, v);
    TurnOf(g, v - u, span);
    WaveIsSteady(trig, axis == 0, Angle(g, at), z);
    Inside(Angle(g, u), Angle(g, v), Angle(g, at), z, Charge(Turn(g), span));
    var steep := Abs(Wave(trig, axis == 0, Angle(g, at))) - Charge(Turn(g), span);
    assert Abs(Wave(trig, axis == 0, z)) >= steep;
    TravelAtLeast(g, Abs(Wave(trig, axis == 0, z)), steep, v - u, span);
  }

  lemma Inside(a: real, b: real, at: real, z: real, turn: real)
    requires Max(a, b) - Min(a, b) == turn && (at == a || at == b) && Min(a, b) <= z <= Max(a, b)
    ensures Abs(z - at) <= turn
  {
  }

  lemma NearlyAsSteep(trig: Trig, t: Table, k: nat, axis: nat, x: real, y: real, c: real)
    requires Lawful(trig) && Sound(trig, t) && k < |t.rows| && axis < 2 && t.rows[k].kind.Arc?
    requires x <= y && (c == x || c == y)
    ensures var g := t.rows[k];
            Abs(CurveAt(trig, t, k, axis, y) - CurveAt(trig, t, k, axis, x)) >=
              Charge(ArcSpeed(g, Abs(Wave(trig, axis == 0, Angle(g, Parameter(t, k, c)))) - Charge(Turn(g), y - x)),
                     y - x)
  {
    hide Lawful, Supported, Wave, Curve, Angle, Parameter, ArcSpeed, Turn, Charge;
    PartLength(t, k, x, y);
    SteepChord(trig, t.rows[k], axis, Parameter(t, k, x), Parameter(t, k, y), Parameter(t, k, c), y - x);
  }

  lemma PartLength(t: Table, k: nat, x: real, y: real)
    requires Stationed(t) && k < |t.rows| && x <= y
    ensures (Parameter(t, k, y) - Parameter(t, k, x)) * t.rows[k].lengthMm == y - x
    ensures Parameter(t, k, x) <= Parameter(t, k, y)
  {
    var l := t.rows[k].lengthMm;
    assert Parameter(t, k, y) * l == y - t.station[k] && Parameter(t, k, x) * l == x - t.station[k];
    QuotientMono(x - t.station[k], y - t.station[k], l);
  }

  lemma TurnOf(g: Row, part: real, span: real)
    requires g.lengthMm > 0.0 && part >= 0.0 && part * g.lengthMm == span
    ensures Abs(part * g.sweep) == Charge(Turn(g), span)
  {
    AbsProduct(part, g.sweep);
    calc {
      Turn(g) * span;
      Abs(g.sweep) / g.lengthMm * (part * g.lengthMm);
      (Abs(g.sweep) / g.lengthMm * g.lengthMm) * part;
      Abs(g.sweep) * part;
    }
  }

  lemma TravelAtLeast(g: Row, w: real, m: real, part: real, span: real)
    requires g.lengthMm > 0.0 && g.radiusMm > 0.0 && part >= 0.0 && part * g.lengthMm == span && w >= m
    ensures ArcTravel(g, w, part) >= Charge(ArcSpeed(g, m), span)
  {
    var r, l := g.radiusMm * Abs(g.sweep), g.lengthMm;
    calc {
      ArcSpeed(g, m) * span;
      r / l * m * (part * l);
      (r / l * l) * m * part;
      r * m * part;
    }
    MulMono(0.0, g.radiusMm, Abs(g.sweep));
    MulMono(0.0, r, part);
    MulMono(m, w, r * part);
    assert r * w * part == w * (r * part) && r * m * part == m * (r * part);
  }

  /** How fast the steepness of an arc can change along the cursor. */
  function Bend(g: Row): real
    requires g.lengthMm > 0.0
  {
    ArcSpeed(g, 1.0) * Turn(g)
  }

  lemma TooSlow(g: Row, m: real, rate: real, e: real)
    requires g.lengthMm > 0.0 && e > 0.0
    requires Charge(ArcSpeed(g, m - Charge(Turn(g), e)), e) <= Charge(rate, e)
    ensures ArcSpeed(g, m) - Charge(Bend(g), e) <= rate
  {
    hide Turn;
    var q, d := ArcSpeed(g, 1.0), Charge(Turn(g), e);
    assert ArcSpeed(g, m - d) == q * (m - d) && ArcSpeed(g, m) == q * m;
    hide ArcSpeed;
    Less(q, m, d, rate, e);
    assert q * (Turn(g) * e) == q * Turn(g) * e;
  }

  lemma Less(q: real, m: real, d: real, rate: real, e: real)
    requires e > 0.0 && q * (m - d) * e <= rate * e
    ensures q * m - q * d <= rate
  {
    assert q * (m - d) == q * m - q * d;
    if q * (m - d) > rate {
      MulStrict(rate, q * (m - d), e);
    }
  }

  lemma ArcRateIsLeast(trig: Trig, t: Table, k: nat, axis: nat, low: real, high: real, rate: real)
    requires Lawful(trig) && Sound(trig, t) && k < |t.rows| && axis < 2 && t.rows[k].kind.Arc?
    requires t.station[k] <= low < high <= t.station[k + 1]
    requires MovesAtMost(trig, t, k, axis, low, high, rate)
    ensures Rate(trig, t, k, axis, low, high) <= rate
  {
    var g := t.rows[k];
    assert Supported(trig, g) && g.lengthMm > 0.0;
    var c := SteepestCursor(trig, t, k, axis, low, high);
    var top, s := Rate(trig, t, k, axis, low, high), Abs(Wave(trig, axis == 0, Angle(g, Parameter(t, k, c))));
    hide Lawful, Supported, Wave, Angle, Parameter, ArcSpeed, CurveAt, Rate, Turn, Bend, Charge;
    if top > rate {
      BendPositive(trig, g);
      var e := Smaller(Bend(g), (top - rate) / 2.0, if c < high then high - c else high - low);
      var x := if c < high then c else high - e;
      NearlyAsSteep(trig, t, k, axis, x, x + e, c);
      assert low <= x <= x + e <= high;
      assert x + e - x == e;
      TooSlow(g, s, rate, e);
    }
  }

  lemma BendPositive(trig: Trig, g: Row)
    requires Lawful(trig) && Supported(trig, g) && g.kind.Arc?
    ensures g.lengthMm > 0.0 && Bend(g) > 0.0
  {
    hide Lawful, Supported, ArcSpeed, Turn;
    SweepIsNotZero(trig, g);
    ArcSpeedMono(trig, g, 1.0);
    TurnPositive(g);
    MulStrict(0.0, ArcSpeed(g, 1.0), Turn(g));
  }

  lemma TurnPositive(g: Row)
    requires g.lengthMm > 0.0 && Abs(g.sweep) > 0.0
    ensures Turn(g) > 0.0
  {
    var turn := Turn(g);
    assert turn * g.lengthMm == Abs(g.sweep);
    if turn <= 0.0 {
      MulMono(turn, 0.0, g.lengthMm);
    }
  }

  /**
   The rate that ValidateTraversal charges for the part of a row it crosses is the least one that bounds the motion
   of the axis on that part.
   */
  lemma RateIsLeast(trig: Trig, t: Table, k: nat, axis: nat, low: real, high: real, rate: real)
    requires Lawful(trig) && Sound(trig, t) && k < |t.rows| && axis < AXIS_COUNT
    requires t.station[k] <= low < high <= t.station[k + 1]
    ensures MovesAtMost(trig, t, k, axis, low, high, rate) <==> Rate(trig, t, k, axis, low, high) <= rate
  {
    hide Lawful, Supported, CurveAt, Rate, Charge;
    var least := Rate(trig, t, k, axis, low, high);
    if MovesAtMost(trig, t, k, axis, low, high, rate) {
      if t.rows[k].kind.Arc? && axis < 2 {
        ArcRateIsLeast(trig, t, k, axis, low, high, rate);
      } else {
        LineRateIsLeast(trig, t, k, axis, low, high, rate);
      }
    }
    if least <= rate {
      forall x, y | low <= x <= y <= high
        ensures Abs(CurveAt(trig, t, k, axis, y) - CurveAt(trig, t, k, axis, x)) <= Charge(rate, y - x)
      {
        RowSpan(trig, t, k, axis, low, high, x, y);
        ChargeGrows(least, rate, y - x);
      }
    }
  }

  lemma ChargeGrows(less: real, more: real, span: real)
    requires less <= more && span >= 0.0
    ensures Charge(less, span) <= Charge(more, span)
  {
    MulMono(less, more, span);
  }

  /** Off the plane of an arc, and on a line, the motion over a part is the rate times its length. */
  lemma LineMoves(trig: Trig, t: Table, k: nat, axis: nat, low: real, high: real)
    requires Sound(trig, t) && k < |t.rows| && axis < AXIS_COUNT && !(t.rows[k].kind.Arc? && axis < 2)
    requires t.station[k] <= low <= high <= t.station[k + 1]
    ensures Abs(CurveAt(trig, t, k, axis, high) - CurveAt(trig, t, k, axis, low)) ==
            Charge(Rate(trig, t, k, axis, low, high), high - low)
    ensures Rate(trig, t, k, axis, low, high) >= 0.0
  {
    var g, u, v := t.rows[k], Parameter(t, k, low), Parameter(t, k, high);
    assert Supported(trig, g);
    ParameterSpan(t, k, low, high);
    hide ValidArcAxis, Parameter, Sound;
    if g.kind.Arc? {
      Still(trig, g, axis, u, v);
    } else {
      PartLength(t, k, low, high);
      LineSpan(g.end[axis] - g.start[axis], g.lengthMm, u, v, high - low);
      LineStep(trig, g, axis, u, v);
      QuotientMono(0.0, Abs(g.end[axis] - g.start[axis]), g.lengthMm);
    }
  }

  lemma LineRateIsLeast(trig: Trig, t: Table, k: nat, axis: nat, low: real, high: real, rate: real)
    requires Sound(trig, t) && k < |t.rows| && axis < AXIS_COUNT && !(t.rows[k].kind.Arc? && axis < 2)
    requires t.station[k] <= low < high <= t.station[k + 1]
    requires MovesAtMost(trig, t, k, axis, low, high, rate)
    ensures Rate(trig, t, k, axis, low, high) <= rate
  {
    hide Supported, CurveAt, Rate;
    LineMoves(trig, t, k, axis, low, high);
    var least := Rate(trig, t, k, axis, low, high);
    if least > rate {
      MulStrict(rate, least, high - low);
    }
  }

  // --------------------------------------------------- several rows

  /** The rate charged for a span is that of one of the rows it crosses. */
  lemma {:induction false} TopRateIsSome(trig: Trig, t: Table, n: nat, axis: nat, low: real, high: real)
    requires Stationed(t) && n <= |t.rows| && axis < AXIS_COUNT
    ensures var top := TopRate(trig, t, n, axis, low, high);
            top == 0.0 ||
            exists k: nat :: k < n && Crossed(t, k, low, high) && Rate(trig, t, k, axis, low, high) == top
    decreases n
  {
    hide Rate, Crossed;
    if n > 0 {
      TopRateIsSome(trig, t, n - 1, axis, low, high);
    }
  }

  /** Between a cursor of one row and a cursor of the next only the seam between them is charged. */
  lemma {:induction false} SeamsAcross(t: Table, n: nat, k: nat, axis: nat, low: real, high: real)
    requires Stationed(t) && n <= |t.rows| && k + 1 < |t.rows| && axis < AXIS_COUNT
    requires Owns(t, k, low) && Owns(t, k + 1, high)
    ensures SeamTravel(t, n, axis, low, high) == if k + 1 < n then Seam(t, k + 1, axis) else 0.0
    decreases n
  {
    hide Seam;
    if n > 1 {
      SeamsAcross(t, n - 1, k, axis, low, high);
      if n - 1 <= k {
        StationsBetween(t, n - 1, k);
      } else if k + 1 < n - 1 {
        StationsBetween(t, k + 2, n - 1);
      }
    }
  }

  // --------------------------------------------------- lines are charged exactly

  /** Both cursors are owned by the row. */
  predicate InRow(t: Table, k: nat, low: real, high: real)
    requires Stationed(t)
  {
    k < |t.rows| && Owns(t, k, low) && Owns(t, k, high)
  }

  lemma LinePose(trig: Trig, t: Table, k: nat, axis: nat, c: real)
    requires Sound(trig, t) && k < |t.rows| && t.rows[k].kind.Line? && axis < AXIS_COUNT && Owns(t, k, c)
    ensures 0.0 <= c <= Length(t) && Pose(trig, t, c, axis) == CurveAt(trig, t, k, axis, c)
  {
    ParameterEnds(t, k);
    assert Supported(trig, t.rows[k]);
    if c == t.station[k] {
      PoseBefore(trig, t, 0, axis);
    } else {
      PoseIn(trig, t, k, axis, c);
    }
  }

  /** On part of a line the charge of every axis is its displacement, and no seam is charged. */
  lemma LineIsChargedExactly(trig: Trig, t: Table, k: nat, axis: nat, low: real, high: real)
    requires Sound(trig, t) && axis < AXIS_COUNT && InRow(t, k, low, high) && low < high && t.rows[k].kind.Line?
    ensures 0.0 <= low && high <= Length(t)
    ensures Charged(trig, t, axis, low, high) == Moved(trig, t, low, high, axis)
  {
    hide Supported, Pose, Owner, CurveAt, Rate, Charge, SeamTravel, TopRate;
    TopRateInRow(trig, t, |t.rows|, k, axis, low, high);
    SeamsInRow(t, |t.rows|, k, axis, low, high);
    LineMoves(trig, t, k, axis, low, high);
    LinePose(trig, t, k, axis, low);
    LinePose(trig, t, k, axis, high);
  }

  /** A move along one line passes the traversal check exactly when the velocity of every axis is within its limit. */
  lemma LineTraversalIsExact(trig: Trig, t: Table, k: nat, from: real, to: real, config: Config)
    requires Sound(trig, t) && |config.axes| == AXIS_COUNT && config.periodUs > 0
    requires InRow(t, k, Min(from, to), Max(from, to)) && from != to && t.rows[k].kind.Line?
    ensures 0.0 <= Min(from, to) && Max(from, to) <= Length(t)
    ensures TraversalAllowed(trig, t, from, to, config) <==>
            forall axis: nat :: axis < AXIS_COUNT ==>
              PerMinute(config, Moved(trig, t, from, to, axis)) <= Limit(config, axis)
  {
    hide Supported, Pose, Owner, WithinVelocity, Charged, Moved, PerMinute, Limit;
    var low, high := Min(from, to), Max(from, to);
    LineIsChargedExactly(trig, t, k, 0, low, high);
    forall axis: nat | axis < AXIS_COUNT
      ensures WithinVelocity(trig, t, axis, low, high, config) <==>
              PerMinute(config, Moved(trig, t, from, to, axis)) <= Limit(config, axis)
    {
      LineIsChargedExactly(trig, t, k, axis, low, high);
      ChargeIsTested(trig, t, axis, low, high, config);
      MovedEitherWay(trig, t, from, to, axis);
    }
  }

  // --------------------------------------------------- bounds of lines

  ghost predicate OnlyLines(t: Table) { forall k :: 0 <= k < |t.rows| ==> t.rows[k].kind.Line? }

  /** A cursor just behind the first station of a line, where an axis is near its stored start. */
  lemma JustBehind(trig: Trig, t: Table, k: nat, axis: nat, gap: real) returns (c: real)
    requires Sound(trig, t) && k < |t.rows| && t.rows[k].kind.Line? && axis < AXIS_COUNT && gap > 0.0
    ensures t.station[k] < c < t.station[k + 1] && OnPath(t, c)
    ensures Abs(Pose(trig, t, c, axis) - t.rows[k].start[axis]) <= gap
  {
    var low, high := t.station[k], t.station[k + 1];
    LineMoves(trig, t, k, axis, low, high);
    ParameterEnds(t, k);
    var rate := Rate(trig, t, k, axis, low, high);
    var e := Smaller(rate + 1.0, gap, t.rows[k].lengthMm);
    c := low + e;
    assert Rate(trig, t, k, axis, low, c) == rate;
    LineMoves(trig, t, k, axis, low, c);
    hide Pose, Rate, Supported;
    ChargeGrows(rate, rate + 1.0, e);
    LinePose(trig, t, k, axis, c);
  }

  lemma LineStartKept(trig: Trig, t: Table, config: Config, k: nat, axis: nat)
    requires Sound(trig, t) && k < |t.rows| && t.rows[k].kind.Line? && axis < AXIS_COUNT == |config.axes|
    requires PathKept(trig, t, config)
    ensures Kept(t, config, axis, t.rows[k].start[axis])
  {
    hide Supported, Kept, Outside, Pose;
    var x := t.rows[k].start[axis];
    var d := Outside(t, config, axis, x);
    if d > 0.0 {
      var c := JustBehind(trig, t, k, axis, d / 2.0);
      StaysOutside(t, config, axis, x, Pose(trig, t, c, axis));
    }
  }

  lemma LineEndKept(trig: Trig, t: Table, config: Config, k: nat, axis: nat)
    requires Sound(trig, t) && k < |t.rows| && axis < AXIS_COUNT == |config.axes| && PathKept(trig, t, config)
    ensures Kept(t, config, axis, t.rows[k].end[axis])
  {
    hide Supported, Kept, Pose;
    PoseIn(trig, t, k, axis, t.station[k + 1]);
  }

  /** For a path of lines ValidateBounds accepts exactly the paths that keep every limit and travel everywhere. */
  lemma LineBoundsAreExact(trig: Trig, t: Table, config: Config)
    requires Lawful(trig) && Sound(trig, t) && OnlyLines(t) && |config.axes| == AXIS_COUNT
    ensures BoundsHold(t, config) <==> PathKept(trig, t, config)
  {
    hide Lawful, Supported, PathKept;
    if BoundsHold(t, config) {
      hide BoundsHold;
      PathKeptExactlyWhenEndsAre(trig, t, config);
    }
    if PathKept(trig, t, config) {
      forall k: nat, axis: nat | k < |t.rows| && axis < AXIS_COUNT
        ensures AxisBounded(t, k, axis, config.axes[axis])
      {
        LineStartKept(trig, t, config, k, axis);
        LineEndKept(trig, t, config, k, axis);
      }
    }
  }
}
