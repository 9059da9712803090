/**
 Sine and cosine as far as the retained path rests on them: a handful of laws, and from them that
 nine fixed extrema bound |sin| and |cos| on every span of canonical angles.
 */
module Trigonometry {
  import opened Reals

  /** The two functions the source calls, and half their period. */
  datatype Trig = Trig(sin: real -> real, cos: real -> real, pi: real)

  function Wave(trig: Trig, sine: bool, x: real): real { if sine then trig.sin(x) else trig.cos(x) }

  // -------------------------------------------------------------------- laws

  predicate PointLaws(trig: Trig, x: real) {
    && -1.0 <= trig.cos(x) <= 1.0
    && trig.cos(-x) == trig.cos(x)
    && trig.cos(x - trig.pi) == -trig.cos(x)
    && trig.sin(x) == trig.cos(x - trig.pi / 2.0)
  }

  /** The mean value theorem for the cosine, and its fall over half a turn. */
  ghost predicate SpanLaws(trig: Trig, x: real, y: real) {
    && (x <= y ==> exists z :: x <= z <= y && trig.cos(y) - trig.cos(x) == -(trig.sin(z) * (y - x)))
    && (0.0 <= x <= y <= trig.pi ==> trig.cos(y) <= trig.cos(x))
  }

  ghost predicate Lawful(trig: Trig) {
    && trig.pi > 0.0 && trig.cos(0.0) == 1.0
    && (forall x :: PointLaws(trig, x))
    && (forall x, y :: SpanLaws(trig, x, y))
  }

  lemma LawsAt(trig: Trig, x: real)
    requires Lawful(trig)
    ensures PointLaws(trig, x)
  {
  }

  lemma WaveWithin(trig: Trig, sine: bool, x: real)
    requires Lawful(trig)
    ensures -1.0 <= Wave(trig, sine, x) <= 1.0
  {
    hide Lawful;
    LawsAt(trig, x);
    LawsAt(trig, x - trig.pi / 2.0);
  }

  /** A quarter turn further on, the sine is the cosine and the cosine the negated sine. */
  lemma Quarter(trig: Trig, x: real)
    requires Lawful(trig)
    ensures trig.sin(x) == trig.cos(x - trig.pi / 2.0) && trig.cos(x) == -trig.sin(x - trig.pi / 2.0)
  {
    hide Lawful;
    LawsAt(trig, x);
    LawsAt(trig, x - trig.pi / 2.0);
    assert x - trig.pi / 2.0 - trig.pi / 2.0 == x - trig.pi;
  }

  /** Mean value for either function: the slope is the other one, up to sign, somewhere on the span. */
  lemma MeanValue(trig: Trig, sine: bool, x: real, y: real) returns (z: real)
    requires Lawful(trig) && x <= y
    ensures x <= z <= y
    ensures Wave(trig, !sine, y) - Wave(trig, !sine, x) ==
              if sine then -(Wave(trig, sine, z) * (y - x)) else Wave(trig, sine, z) * (y - x)
  {
    var shift := if sine then 0.0 else trig.pi / 2.0;
    var a, b := x - shift, y - shift;
    assert SpanLaws(trig, a, b);
    var w :| a <= w <= b && trig.cos(b) - trig.cos(a) == -(trig.sin(w) * (b - a));
    z := w + shift;
    hide Lawful;
    if !sine {
      Quarter(trig, x);
      Quarter(trig, y);
      Quarter(trig, z);
      assert trig.cos(z) == -trig.sin(w);
      assert b - a == y - x;
    }
  }

  /**
   If |sin| is at most m on a span, the cosine changes by at most m times the span, and likewise the other way
   round.
   */
  lemma Steepness(trig: Trig, sine: bool, x: real, y: real, m: real)
    requires Lawful(trig) && x <= y && forall z :: x <= z <= y ==> Abs(Wave(trig, sine, z)) <= m
    ensures Abs(Wave(trig, !sine, y) - Wave(trig, !sine, x)) <= m * (y - x)
  {
    var z := MeanValue(trig, sine, x, y);
    hide Lawful, Wave;
    SlopeBound(Wave(trig, !sine, y) - Wave(trig, !sine, x), Wave(trig, sine, z), y - x, m);
  }

  lemma SlopeBound(rise: real, slope: real, run: real, m: real)
    requires (rise == slope * run || rise == -(slope * run)) && Abs(slope) <= m && run >= 0.0
    ensures Abs(rise) <= m * run
  {
    AbsProduct(slope, run);
    MulMono(Abs(slope), m, run);
  }

  // ------------------------------------------------------------ whole turns

  function Turned(pi: real, k: nat): real { if k == 0 then 0.0 else Turned(pi, k - 1) + pi }

  lemma {:induction false} TurnedIs(pi: real, k: nat)
    ensures Turned(pi, k) == k as real * pi
  {
    if k == 0 {
      assert 0.0 * pi == 0.0;
    } else {
      TurnedIs(pi, k - 1);
      OneMore((k - 1) as real, pi);
    }
  }

  lemma OneMore(r: real, pi: real)
    ensures (r + 1.0) * pi == r * pi + pi
  {
  }

  lemma {:induction false} HalfTurns(trig: Trig, x: real, k: nat)
    requires Lawful(trig)
    ensures Abs(trig.cos(x - Turned(trig.pi, k))) == Abs(trig.cos(x)) == Abs(trig.cos(x + Turned(trig.pi, k)))
  {
    hide Lawful;
    if k > 0 {
      var d, p := Turned(trig.pi, k - 1), trig.pi;
      HalfTurns(trig, x, k - 1);
      LawsAt(trig, x - d);
      LawsAt(trig, x + (d + p));
      assert x - d - p == x - (d + p) && x + (d + p) - p == x + d;
    }
  }

  lemma HalfTurnsBack(trig: Trig, x: real, k: int, d: real)
    requires Lawful(trig) && d == k as real * trig.pi
    ensures Abs(trig.cos(x - d)) == Abs(trig.cos(x))
  {
    hide Lawful;
    var n: nat := if k >= 0 then k else -k;
    var turned := Turned(trig.pi, n);
    TurnedIs(trig.pi, n);
    HalfTurns(trig, x, n);
    if k >= 0 {
      assert d == turned;
      assert x - d == x - turned;
    } else {
      Negated(k as real, n as real, trig.pi);
      assert d == -turned;
      assert x - d == x + turned;
    }
  }

  lemma Negated(r: real, s: real, pi: real)
    requires r == -s
    ensures r * pi == -(s * pi)
  {
  }

  // ------------------------------------------- nine extrema bound the slope

  /** The extrema MaximumAbsTrig looks at. */
  function Extremum(trig: Trig, k: int, sine: bool): real {
    k as real * trig.pi + if sine then trig.pi / 2.0 else 0.0
  }

  ghost predicate HasExtremum(trig: Trig, a: real, b: real, sine: bool) {
    exists k :: -4 <= k <= 4 && Min(a, b) <= Extremum(trig, k, sine) <= Max(a, b)
  }

  /** The value MaximumAbsTrig returns. */
  ghost function SpanMaximum(trig: Trig, a: real, b: real, sine: bool): real {
    if HasExtremum(trig, a, b, sine) then 1.0 else Max(Abs(Wave(trig, sine, a)), Abs(Wave(trig, sine, b)))
  }

  /** Where retained arcs live: they start within half a turn and sweep at most a whole one. */
  predicate Canonical(trig: Trig, x: real) { -3.0 * trig.pi <= x <= 3.0 * trig.pi }

  lemma SlotOf(x: real, pi: real) returns (k: int)
    requires pi > 0.0 && -4.0 * pi <= x < 4.0 * pi
    ensures -4 <= k < 4 && k as real * pi <= x < k as real * pi + pi
  {
    var q := x / pi;
    assert q * pi == x;
    if q < -4.0 {
      MulStrict(q, -4.0, pi);
    }
    if q >= 4.0 {
      MulMono(4.0, q, pi);
    }
    k := q.Floor;
    FloorAround(q, pi, k as real, x);
  }

  lemma FloorAround(q: real, pi: real, r: real, x: real)
    requires q * pi == x && r <= q < r + 1.0 && pi > 0.0
    ensures r * pi <= x < r * pi + pi
  {
    MulMono(r, q, pi);
    calc {
      x - r * pi;
      (q - r) * pi;
    < { MulStrict(q - r, 1.0, pi); }
      1.0 * pi;
      pi;
    }
  }

  /** Between two neighbouring extrema of the cosine it is largest in size at an end. */
  lemma InSlot(trig: Trig, a: real, z: real, b: real, k: int)
    requires Lawful(trig) && a <= z <= b && k as real * trig.pi <= a && b <= k as real * trig.pi + trig.pi
    ensures Abs(trig.cos(z)) <= Max(Abs(trig.cos(a)), Abs(trig.cos(b)))
  {
    var d := k as real * trig.pi;
    assert SpanLaws(trig, a - d, z - d) && SpanLaws(trig, z - d, b - d);
    hide Lawful;
    HalfTurnsBack(trig, a, k, d);
    HalfTurnsBack(trig, z, k, d);
    HalfTurnsBack(trig, b, k, d);
  }

  lemma NoExtremum(trig: Trig, a: real, z: real, b: real)
    requires Lawful(trig) && a <= z <= b && -4.0 * trig.pi <= a < 4.0 * trig.pi
    requires forall k :: -4 <= k <= 4 ==> !(a <= Extremum(trig, k, false) <= b)
    ensures Abs(trig.cos(z)) <= Max(Abs(trig.cos(a)), Abs(trig.cos(b)))
  {
    var k := SlotOf(a, trig.pi);
    hide Lawful;
    assert Extremum(trig, k + 1, false) == k as real * trig.pi + trig.pi;
    InSlot(trig, a, z, b, k);
  }

  /** The nine extrema suffice: MaximumAbsTrig bounds |sin| or |cos| on the whole span, and never by more than one. */
  lemma NineExtremaSuffice(trig: Trig, sine: bool, a: real, z: real, b: real)
    requires Lawful(trig) && Canonical(trig, a) && Canonical(trig, b) && Min(a, b) <= z <= Max(a, b)
    ensures Abs(Wave(trig, sine, z)) <= SpanMaximum(trig, a, b, sine) <= 1.0
  {
    var low, high := Min(a, b), Max(a, b);
    var shift := if sine then trig.pi / 2.0 else 0.0;
    assert trig.pi > 0.0;
    hide Lawful;
    WaveWithin(trig, sine, z);
    WaveWithin(trig, sine, a);
    WaveWithin(trig, sine, b);
    if !HasExtremum(trig, a, b, sine) {
      if sine {
        Quarter(trig, low);
        Quarter(trig, z);
        Quarter(trig, high);
      }
      forall k | -4 <= k <= 4 ensures !(low - shift <= Extremum(trig, k, false) <= high - shift) {
        assert Extremum(trig, k, sine) == Extremum(trig, k, false) + shift;
      }
      NoExtremum(trig, low - shift, z - shift, high - shift);
    }
  }

  // -------------------------------------------------- the height of an arc

  /** On a span without a multiple of a whole turn the cosine is largest at an end. */
  lemma HighestAtEnd(trig: Trig, a: real, z: real, b: real)
    requires Lawful(trig) && a <= z <= b
    requires (0.0 <= a && b <= 2.0 * trig.pi) || (-2.0 * trig.pi <= a && b <= 0.0)
    ensures trig.cos(z) <= Max(trig.cos(a), trig.cos(b))
  {
    if a < 0.0 {
      Mirrored(trig, z);
      Mirrored(trig, a);
      Mirrored(trig, b);
      HighestInTurn(trig, -b, -z, -a);
    } else {
      HighestInTurn(trig, a, z, b);
    }
  }

  lemma Mirrored(trig: Trig, x: real)
    requires Lawful(trig)
    ensures trig.cos(-x) == trig.cos(x)
  {
    LawsAt(trig, x);
  }

  lemma WholeTurn(trig: Trig, x: real)
    requires Lawful(trig)
    ensures trig.cos(2.0 * trig.pi - x) == trig.cos(x)
  {
    hide Lawful;
    var y := 2.0 * trig.pi - x;
    LawsAt(trig, y);
    LawsAt(trig, y - trig.pi);
    assert y - trig.pi - trig.pi == -x;
    LawsAt(trig, x);
  }

  lemma HighestInTurn(trig: Trig, a: real, z: real, b: real)
    requires Lawful(trig) && 0.0 <= a <= z <= b <= 2.0 * trig.pi
    ensures trig.cos(z) <= Max(trig.cos(a), trig.cos(b))
  {
    var turn := 2.0 * trig.pi;
    assert SpanLaws(trig, a, z) && SpanLaws(trig, turn - b, turn - z);
    hide Lawful;
    WholeTurn(trig, z);
    WholeTurn(trig, b);
  }
}
