/**
 Mapping a value to its pixel offset above the bottom of the axis (ChartNew.js, CapValue and
 calculateOffset, linear case).
 */
module AxisOffset {
  import opened Numbers
  import opened AxisScale

  /** Caps a value; a bound that is not a number is ignored. */
  function CapValue(v: real, maxValue: Option<real>, minValue: Option<real>): real {
    if maxValue.Some? && v > maxValue.value then maxValue.value
    else if minValue.Some? && v < minValue.value then minValue.value
    else v
  }

  function Outer(s: Scale): real {
    Times(s.steps, s.stepValue)
  }

  function Share(v: real, s: Scale): real
    requires Outer(s) != 0.0
  {
    CapValue((v - s.graphMin) / Outer(s), Some(1.0), Some(0.0))
  }

  function CalculateOffset(v: real, s: Scale, scaleHop: real): real
    requires Outer(s) != 0.0
  {
    Times(s.steps, scaleHop) * Share(v, s)
  }

  function Top(s: Scale): real {
    GridValue(s.graphMin, s.stepValue, s.steps)
  }

  predicate Inside(v: real, s: Scale) {
    s.graphMin <= v <= Top(s)
  }

  predicate Drawable(s: Scale) {
    s.steps >= 1 && s.stepValue > 0.0
  }

  lemma OuterPositive(s: Scale)
    requires Drawable(s)
    ensures Outer(s) > 0.0
  {
    ScaleOrder(0.0, s.steps as real, s.stepValue);
  }

  /** The share of the axis below a value: 0 and 1 outside the scale, strictly increasing inside. */
  lemma ShareOrder(v: real, w: real, s: Scale)
    requires Drawable(s) && v < w
    ensures Outer(s) > 0.0
    ensures 0.0 <= Share(v, s) <= Share(w, s) <= 1.0
    ensures Share(v, s) < Share(w, s) <==> v < Top(s) && s.graphMin < w
  {
    OuterPositive(s);
    var o := Outer(s);
    QuotientDifference(w - s.graphMin, v - s.graphMin, o);
    QuotientOrder(w - v, 0.0, o);
    QuotientOrder(v - s.graphMin, 1.0, o);
    QuotientOrder(w - s.graphMin, 0.0, o);
  }

  /** An offset lies on the axis. */
  lemma OffsetOnAxis(v: real, s: Scale, scaleHop: real)
    requires Drawable(s) && scaleHop >= 0.0
    ensures Outer(s) > 0.0
    ensures 0.0 <= CalculateOffset(v, s, scaleHop) <= Times(s.steps, scaleHop)
  {
    ShareOrder(v, v + 1.0, s);
    WholeAxis(s.steps, scaleHop, Share(v, s));
  }

  lemma WholeAxis(steps: int, scaleHop: real, share: real)
    requires steps >= 1 && scaleHop >= 0.0 && 0.0 <= share <= 1.0
    ensures 0.0 <= Times(steps, scaleHop) * share <= Times(steps, scaleHop)
  {
    var axis := Times(steps, scaleHop);
    assert axis >= 0.0;
    assert axis * (1.0 - share) >= 0.0;
  }

  /** The larger of two values is drawn strictly higher exactly when they are not clipped to the same end. */
  lemma OffsetStrictlyIncreasing(v: real, w: real, s: Scale, scaleHop: real)
    requires Drawable(s) && scaleHop >= 0.0 && v < w
    ensures Outer(s) > 0.0
    ensures CalculateOffset(v, s, scaleHop) <= CalculateOffset(w, s, scaleHop)
    ensures CalculateOffset(v, s, scaleHop) < CalculateOffset(w, s, scaleHop)
            <==> scaleHop > 0.0 && v < Top(s) && s.graphMin < w
  {
    ShareOrder(v, w, s);
    AxisOrder(s.steps, scaleHop, Share(v, s), Share(w, s));
  }

  lemma AxisOrder(steps: int, scaleHop: real, a: real, b: real)
    requires steps >= 1 && scaleHop >= 0.0 && a <= b
    ensures Times(steps, scaleHop) * a <= Times(steps, scaleHop) * b
    ensures Times(steps, scaleHop) * a < Times(steps, scaleHop) * b <==> scaleHop > 0.0 && a < b
  {
    if scaleHop > 0.0 {
      ScaleOrder(0.0, steps as real, scaleHop);
      ScaleOrder(a, b, Times(steps, scaleHop));
    }
  }

  /** A value is drawn to scale, scaleHop pixels per step, exactly when it lies inside the scale. */
  lemma OffsetToScaleIff(v: real, s: Scale, scaleHop: real)
    requires Drawable(s) && scaleHop > 0.0
    ensures Outer(s) > 0.0
    ensures CalculateOffset(v, s, scaleHop) * s.stepValue == scaleHop * (v - s.graphMin) <==> Inside(v, s)
  {
    OuterPositive(s);
    var o, a := Outer(s), v - s.graphMin;
    QuotientIs(a, o, 0.0);
    QuotientOrder(a, 0.0, o);
    QuotientOrder(a, 1.0, o);
    var share, exact := Share(v, s), a / o;
    assert share == exact <==> Inside(v, s);
    PixelsPerStep(s.steps, s.stepValue, scaleHop, share);
    PixelsPerStep(s.steps, s.stepValue, scaleHop, exact);
    ScaleOrder(0.0, o, scaleHop);
    ScaleOrder(share, exact, scaleHop * o);
  }

  lemma PixelsPerStep(steps: int, stepValue: real, scaleHop: real, share: real)
    ensures (Times(steps, scaleHop) * share) * stepValue == share * (scaleHop * Times(steps, stepValue))
    ensures share * (scaleHop * Times(steps, stepValue)) == scaleHop * (share * Times(steps, stepValue))
  {
    var n := steps as real;
    assert ((n * scaleHop) * share) * stepValue == share * (scaleHop * (n * stepValue));
  }

  /** A value, held between the ends of the scale, is this many pixels above the bottom, scaleHop to a step. */
  predicate DrawnAt(offset: real, v: real, s: Scale, scaleHop: real) {
    var top := s.graphMin + Times(s.steps, s.stepValue);
    var held := if v < s.graphMin then s.graphMin else if v > top then top else v;
    offset * s.stepValue == scaleHop * (held - s.graphMin)
  }

  /** Where every value is drawn, inside the scale or not. */
  lemma OffsetIs(v: real, s: Scale, scaleHop: real)
    requires Drawable(s)
    ensures Outer(s) > 0.0
    ensures DrawnAt(CalculateOffset(v, s, scaleHop), v, s, scaleHop)
  {
    OuterPositive(s);
    ShareOfOuter(v - s.graphMin, Outer(s));
    PixelsPerStep(s.steps, s.stepValue, scaleHop, Share(v, s));
  }

  /** The capped share of a distance along an axis, times the axis, is the distance held to the axis. */
  lemma ShareOfOuter(a: real, o: real)
    requires o > 0.0
    ensures CapValue(a / o, Some(1.0), Some(0.0)) * o == if a < 0.0 then 0.0 else if a > o then o else a
  {
    QuotientIs(a, o, 0.0);
    QuotientOrder(a, 0.0, o);
    QuotientOrder(a, 1.0, o);
  }

  /** Tick i of the scale is drawn on grid line i. */
  lemma TickOnGridLine(s: Scale, scaleHop: real, i: int)
    requires Drawable(s) && scaleHop > 0.0 && 0 <= i <= s.steps
    ensures Outer(s) > 0.0
    ensures CalculateOffset(GridValue(s.graphMin, s.stepValue, i), s, scaleHop) == Times(i, scaleHop)
  {
    var v := GridValue(s.graphMin, s.stepValue, i);
    GridOrder(s.graphMin, s.stepValue, -1, i);
    GridOrder(s.graphMin, s.stepValue, i, s.steps + 1);
    GridOrder(s.graphMin, s.stepValue, 0, i);
    GridOrder(s.graphMin, s.stepValue, i, s.steps);
    assert GridValue(s.graphMin, s.stepValue, 0) == s.graphMin;
    OffsetToScaleIff(v, s, scaleHop);
    HopsAndSteps(i, s.stepValue, scaleHop);
    ScaleOrder(CalculateOffset(v, s, scaleHop), Times(i, scaleHop), s.stepValue);
  }

  lemma HopsAndSteps(i: int, stepValue: real, scaleHop: real)
    ensures scaleHop * Times(i, stepValue) == Times(i, scaleHop) * stepValue
  {
    var n := i as real;
    assert scaleHop * (n * stepValue) == (n * scaleHop) * stepValue;
  }
}
