/**
 The value range of a line chart with one or two axes (ChartNew.js, getValueBounds of Line without
 deviations and graphMin/graphMax overrides) and, end to end, the position of every datum on its axis.
 */
module LineAxis {
  import opened Numbers
  import opened AxisScale
  import opened AxisOffset

  datatype Dataset = Dataset(secondAxis: bool, data: seq<Option<real>>)

  datatype Range = Range(lower: real, upper: real)

  datatype LineBounds = LineBounds(first: Range, second: Range, dbAxis: bool)

  ghost function RowValues(row: seq<Option<real>>): set<real> {
    if row == [] then {}
    else
      var last := row[|row| - 1];
      RowValues(row[..|row| - 1]) + (if last.Some? then {last.value} else {})
  }

  /** The data drawn on one of the two axes. */
  ghost function AxisValues(datasets: seq<Dataset>, secondAxis: bool): set<real> {
    if datasets == [] then {}
    else
      var last := datasets[|datasets| - 1];
      AxisValues(datasets[..|datasets| - 1], secondAxis)
      + (if last.secondAxis == secondAxis then RowValues(last.data) else {})
  }

  /** The least and greatest value of a set; big (Number.MAX_VALUE) and its negative stand for none. */
  ghost predicate RangeOf(values: set<real>, big: real, r: Range) {
    && (forall v | v in values :: r.lower <= v <= r.upper)
    && r.lower <= big && (r.lower == big || r.lower in values)
    && -big <= r.upper && (r.upper == -big || r.upper in values)
  }

  lemma {:induction false} RowValuesAre(row: seq<Option<real>>, v: real)
    ensures v in RowValues(row) <==> Some(v) in row
  {
    if row != [] {
      RowValuesAre(row[..|row| - 1], v);
      assert row == row[..|row| - 1] + [row[|row| - 1]];
    }
  }

  /** A value is drawn on an axis when it is a datum of one of that axis's datasets. */
  lemma {:induction false} AxisValuesAre(datasets: seq<Dataset>, secondAxis: bool, v: real)
    ensures v in AxisValues(datasets, secondAxis)
            <==> exists k :: 0 <= k < |datasets| && datasets[k].secondAxis == secondAxis && Some(v) in datasets[k].data
  {
    if datasets != [] {
      var n := |datasets| - 1;
      AxisValuesAre(datasets[..n], secondAxis, v);
      RowValuesAre(datasets[n].data, v);
      assert datasets == datasets[..n] + [datasets[n]];
    }
  }

  /** An axis without data gets the range 0..0, and a range narrower than zero is widened by a tenth. */
  function Widen(r: Range, zero: real): Range {
    var r1 := if r.upper < r.lower then Range(0.0, 0.0) else r;
    if Abs(r1.upper - r1.lower) < zero then
      var upper := if Abs(r1.upper) < zero then 0.9 else r1.upper;
      if upper > 0.0 then Range(r1.lower * 0.9, upper * 1.1) else Range(r1.lower * 1.1, upper * 0.9)
    else r1
  }

  /** The data of an axis in the first i datasets and the first j data of dataset i. */
  ghost function Seen(datasets: seq<Dataset>, i: int, j: int, secondAxis: bool): set<real>
    requires 0 <= i < |datasets| && 0 <= j <= |datasets[i].data|
  {
    AxisValues(datasets[..i], secondAxis)
    + (if datasets[i].secondAxis == secondAxis then RowValues(datasets[i].data[..j]) else {})
  }

  lemma SeenNext(datasets: seq<Dataset>, i: int, j: int, secondAxis: bool)
    requires 0 <= i < |datasets| && 0 <= j < |datasets[i].data|
    ensures var d := datasets[i].data[j];
            Seen(datasets, i, j + 1, secondAxis) == Seen(datasets, i, j, secondAxis)
              + (if datasets[i].secondAxis == secondAxis && d.Some? then {d.value} else {})
  {
    var data := datasets[i].data;
    assert data[..j + 1][..j] == data[..j];
  }

  lemma SeenRow(datasets: seq<Dataset>, i: int, secondAxis: bool)
    requires 0 <= i < |datasets|
    ensures Seen(datasets, i, 0, secondAxis) == AxisValues(datasets[..i], secondAxis)
    ensures Seen(datasets, i, |datasets[i].data|, secondAxis) == AxisValues(datasets[..i + 1], secondAxis)
  {
    var data := datasets[i].data;
    assert data[..|data|] == data;
    assert datasets[..i + 1][..i] == datasets[..i];
  }

  function Extend(r: Range, v: real): Range {
    Range(if v < r.lower then v else r.lower, if v > r.upper then v else r.upper)
  }

  ghost predicate HasValues(values: set<real>) {
    exists v :: v in values
  }

  /** The accumulators of one axis: its range so far and whether it has any data. */
  ghost predicate Accumulated(values: set<real>, big: real, r: Range, some: bool) {
    RangeOf(values, big, r) && (some <==> HasValues(values))
  }

  lemma AccumulateOne(values: set<real>, big: real, r: Range, some: bool, v: real)
    requires Accumulated(values, big, r, some)
    ensures Accumulated(values + {v}, big, Extend(r, v), true)
  {
    assert v in values + {v};
  }

  /** big bounds the data, as the greatest number of the language does. */
  ghost predicate Within(values: set<real>, big: real) {
    forall v | v in values :: -big <= v <= big
  }

  /**
   The bounds for the values of an axis: their least and greatest value, moved a tenth away from each
   other when they are closer than zero. Values around 0 end at 0.99, and so does an axis without values.
   */
  ghost predicate IsBounds(values: set<real>, zero: real, bounds: Range) {
    if !HasValues(values) then bounds == Range(0.0, 0.99)
    else exists low, high :: IsExtent(values, low, high) && MovedApart(low, high, zero, bounds)
  }

  predicate MovedApart(low: real, high: real, zero: real, bounds: Range) {
    if high - low >= zero then bounds == Range(low, high)
    else if -zero < high < zero then bounds == Range(0.9 * low, 0.99)
    else if high > 0.0 then bounds == Range(0.9 * low, 1.1 * high)
    else bounds == Range(1.1 * low, 0.9 * high)
  }

  ghost predicate IsExtent(values: set<real>, low: real, high: real) {
    low in values && high in values && forall v | v in values :: low <= v <= high
  }

  /** What widening makes of the range of some values. */
  lemma WidenMeans(values: set<real>, zero: real, big: real, r: Range)
    requires zero > 0.0 && big > 0.0 && RangeOf(values, big, r) && Within(values, big)
    ensures IsBounds(values, zero, Widen(r, zero))
  {
    if HasValues(values) {
      var v :| v in values;
      assert -big <= r.lower <= v <= r.upper <= big;
      assert IsExtent(values, r.lower, r.upper);
      assert MovedApart(r.lower, r.upper, zero, Widen(r, zero));
    }
  }

  /** A single value, and data all within zero of 0. */
  lemma NearValues(values: set<real>, v: real, zero: real, bounds: Range)
    requires zero > 0.0 && v in values && IsBounds(values, zero, bounds)
    ensures values == {v} && v >= zero ==> bounds == Range(0.9 * v, 1.1 * v)
    ensures values == {v} && v <= -zero ==> bounds == Range(1.1 * v, 0.9 * v)
    ensures (forall w | w in values :: -zero < 2.0 * w < zero) ==> bounds.upper == 0.99
  {
    var low, high :| IsExtent(values, low, high) && MovedApart(low, high, zero, bounds);
    assert low <= v <= high && low in values && high in values;
    assert values == {v} ==> low == v && high == v;
  }

  /** The bounds of both axes when the data of the first have the range raw1 and those of the second raw2. */
  ghost predicate BoundsFrom(datasets: seq<Dataset>, zero: real, raw1: Range, raw2: Range, bounds: LineBounds) {
    && (bounds.dbAxis <==> HasValues(AxisValues(datasets, true)))
    && bounds.second == (if bounds.dbAxis then Widen(raw2, zero) else raw2)
    && bounds.first == if bounds.dbAxis && !HasValues(AxisValues(datasets, false)) then Widen(raw2, zero) else Widen(raw1, zero)
  }

  lemma BoundsMean(datasets: seq<Dataset>, zero: real, big: real, raw1: Range, raw2: Range, bounds: LineBounds)
    requires zero > 0.0 && big > 0.0 && BoundsFrom(datasets, zero, raw1, raw2, bounds)
    requires RangeOf(AxisValues(datasets, false), big, raw1) && RangeOf(AxisValues(datasets, true), big, raw2)
    ensures var first, second := AxisValues(datasets, false), AxisValues(datasets, true);
            && (Within(second, big) && HasValues(second) ==> IsBounds(second, zero, bounds.second))
            && (Within(if HasValues(first) then first else second, big) ==>
                  IsBounds(if HasValues(first) then first else second, zero, bounds.first))
  {
    var first, second := AxisValues(datasets, false), AxisValues(datasets, true);
    if Within(first, big) {
      WidenMeans(first, zero, big, raw1);
    }
    if Within(second, big) {
      WidenMeans(second, zero, big, raw2);
    }
  }

  method GetValueBounds(datasets: seq<Dataset>, zero: real, big: real) returns (bounds: LineBounds)
    requires zero > 0.0 && big > 0.0
    ensures exists raw1, raw2 ::
              && RangeOf(AxisValues(datasets, false), big, raw1)
              && RangeOf(AxisValues(datasets, true), big, raw2)
              && BoundsFrom(datasets, zero, raw1, raw2, bounds)
    ensures var first, second := AxisValues(datasets, false), AxisValues(datasets, true);
            && (bounds.dbAxis <==> HasValues(second))
            && (Within(second, big) && HasValues(second) ==> IsBounds(second, zero, bounds.second))
            && (Within(if HasValues(first) then first else second, big) ==>
                  IsBounds(if HasValues(first) then first else second, zero, bounds.first))
  {
    var r1, r2 := Range(big, -big), Range(big, -big);
    var firstAxis, secondAxis := false, false;
    for i := 0 to |datasets|
      invariant Accumulated(AxisValues(datasets[..i], false), big, r1, firstAxis)
      invariant Accumulated(AxisValues(datasets[..i], true), big, r2, secondAxis)
    {
      SeenRow(datasets, i, false);
      SeenRow(datasets, i, true);
      for j := 0 to |datasets[i].data|
        invariant Accumulated(Seen(datasets, i, j, false), big, r1, firstAxis)
        invariant Accumulated(Seen(datasets, i, j, true), big, r2, secondAxis)
      {
        SeenNext(datasets, i, j, false);
        SeenNext(datasets, i, j, true);
        assert forall values: set<real> :: values + {} == values;
        if datasets[i].data[j].None? {
          continue;
        }
        var v := datasets[i].data[j].value;
        if datasets[i].secondAxis {
          AccumulateOne(Seen(datasets, i, j, true), big, r2, secondAxis, v);
          secondAxis := true;
          r2 := Extend(r2, v);
        } else {
          AccumulateOne(Seen(datasets, i, j, false), big, r1, firstAxis, v);
          firstAxis := true;
          r1 := Extend(r1, v);
        }
      }
    }
    assert datasets[..|datasets|] == datasets;
    ghost var raw1, raw2 := r1, r2;
    r1 := Widen(r1, zero);
    if secondAxis {
      r2 := Widen(r2, zero);
    }
    if !firstAxis && secondAxis {
      r1 := r2;
    }
    bounds := LineBounds(r1, r2, secondAxis);
    assert BoundsFrom(datasets, zero, raw1, raw2, bounds);
    BoundsMean(datasets, zero, big, raw1, raw2, bounds);
  }

  // ----- Widening -----

  /** All values are so near to 0 that the range is moved up to 0.99. */
  predicate MovedOffZero(r: Range, zero: real) {
    r.upper - r.lower < zero && Abs(r.upper) < zero && r.lower < 0.0
  }

  /** A widened range has positive length and keeps its values, but for a minimum moved off zero. */
  lemma WidenKeeps(r: Range, zero: real)
    requires 0.0 < zero <= 0.9
    ensures Widen(r, zero).lower < Widen(r, zero).upper
    ensures r.lower <= r.upper ==> r.upper <= Widen(r, zero).upper
    ensures r.lower <= r.upper ==> (Widen(r, zero).lower <= r.lower <==> !MovedOffZero(r, zero))
  {
  }

  // ----- End to end -----

  /** What Line hands to calculateScale for a data range, on an axis of the given height and label height. */
  function AxisFor(r: Range, zero: real, height: real, labelHeight: real, trimBottom: bool, trimTop: bool): AxisInput
    requires labelHeight > 0.0
  {
    var w := Widen(r, zero);
    AxisInput(w.lower, w.upper, MinSteps(height, labelHeight), MaxSteps(height, labelHeight), zero, trimBottom, trimTop)
  }

  /** When a chart is high enough to be drawn, the step search ends unless both bounds are rounded to 0. */
  lemma ChartSearchableIff(r: Range, zero: real, height: real, labelHeight: real, trimBottom: bool, trimTop: bool)
    requires 0.0 < zero <= 0.9 && height >= 0.0 && labelHeight > 0.0 && MinSteps(height, labelHeight) > 0
    ensures AxisFor(r, zero, height, labelHeight, trimBottom, trimTop).Searchable()
            <==> !(Abs(Widen(r, zero).lower) <= zero && Abs(Widen(r, zero).upper) <= zero)
  {
    StepLimitsRatio(height, labelHeight);
    WidenKeeps(r, zero);
  }

  /** The bounds handed to calculateScale come from these values, at least one of which is drawn. */
  ghost predicate FromData(values: set<real>, big: real, r: Range, c: AxisInput) {
    && big > 0.0 && RangeOf(values, big, r) && r.lower <= r.upper && (forall v | v in values :: -big <= v <= big)
    && 0.0 < c.zero <= 0.9
    && c.minValue == Widen(r, c.zero).lower && c.maxValue == Widen(r, c.zero).upper
  }

  /** zeroValue is small against the axis and against its shortest possible step. */
  predicate Resolves(c: AxisInput) {
    c.zero <= 0.005 && 2.0 * c.zero * c.maxSteps as real <= 1.0
  }

  /** No datum lies below the scale exactly when the minimum is not a tiny negative number. */
  lemma NothingBelowScaleIff(values: set<real>, big: real, r: Range, c: AxisInput, s: Scale)
    requires FromData(values, big, r, c) && (MovedOffZero(r, c.zero) ==> Resolves(c))
    requires c.Searchable() && ScaleFor(c, s)
    ensures (forall v | v in values :: s.graphMin <= v) <==> s.graphMin <= r.lower
    ensures s.graphMin <= r.lower <==> c.minValue >= 0.0 || c.minValue < -c.zero
  {
    WidenKeeps(r, c.zero);
    ScaleCoversMinimum(c, s);
    assert r.lower in values;
    if MovedOffZero(r, c.zero) {
      MovedRange(r, c, s);
    } else if c.minValue < 0.0 && c.minValue >= -c.zero {
      TinyMinimumIsDatum(r, c.zero);
    }
  }

  /** Of a range moved off zero the minimum stays on the axis exactly when its nine tenths are not tiny. */
  lemma MovedRange(r: Range, c: AxisInput, s: Scale)
    requires 0.0 < c.zero && r.lower <= r.upper && MovedOffZero(r, c.zero) && Resolves(c)
    requires c.minValue == Widen(r, c.zero).lower && c.maxValue == Widen(r, c.zero).upper
    requires c.Searchable() && ScaleFor(c, s)
    ensures s.graphMin <= r.lower <==> c.minValue < -c.zero
  {
    ScaleCoversMinimum(c, s);
    assert -2.0 * c.zero < r.lower < c.minValue == r.lower * 0.9 && c.maxValue == 0.99;
    if c.minValue < -c.zero {
      var e, b: nat, t: nat :| IsScale(c, s, e, b, t);
      MovedUnits(c);
      StepAboveZero(c, e);
      FineGrid(e, b, s.stepValue, c.minValue);
    }
  }

  /** The axis of a moved range starts at -0.1 and has eleven units of 0.1. */
  lemma MovedUnits(c: AxisInput)
    requires 0.0 < c.zero <= 0.005 && -0.009 <= c.minValue < -c.zero && c.maxValue == 0.99
    ensures c.Unit() == 0.1 && c.Units() == 11 && c.Origin() == -0.1
  {
    var v := c.maxValue - c.minValue;
    assert OrderOfMagnitude(v * 10.0) == 0;
    assert OrderOfMagnitude(v) == -1 && Pow10(-1) == 0.1;
    assert Floor(c.minValue / 0.1) == -1 && Ceil(c.maxValue / 0.1) == 10;
  }

  lemma StepAboveZero(c: AxisInput, e: int)
    requires c.minValue < c.maxValue && c.zero > 0.0 && Resolves(c) && c.maxSteps >= 1
    requires c.Unit() == 0.1 && c.Units() == 11 && FirstFit(11, e, c.minSteps, c.maxSteps)
    ensures StepSize(0.1, e) >= 2.0 * c.zero
  {
    if e <= 0 {
      var k := HalvingIsExact(11, e);
      ReachWhole(11, 0.1, e);
      assert Times(k, StepSize(0.1, e)) == 1.1;
      WideSteps(StepSize(0.1, e), k, c.maxSteps, c.zero);
    } else {
      StepGrows(0.1, e);
    }
  }

  lemma WideSteps(step: real, k: int, most: int, zero: real)
    requires step > 0.0 && 1 <= k <= most && Times(k, step) == 1.1 && 2.0 * zero * most as real <= 1.0
    ensures step >= 2.0 * zero
  {
    var m, width := most as real, 2.0 * zero;
    ScaleOrder(k as real, m, step);
    assert m * step == step * m;
    ScaleOrder(step, width, m);
  }

  /** A grid line below 0 of an axis from -0.1 is there, or at least one step below 0. */
  lemma FineGrid(e: int, b: nat, step: real, minValue: real)
    requires step == StepSize(0.1, e) && minValue < 0.0 && (b > 0 ==> GridValue(-0.1, step, b) < minValue)
    ensures GridValue(-0.1, step, b) <= (if step < 0.1 then -step else -0.1)
  {
    if e <= 0 {
      var k := HalvingIsExact(1, e);
      ReachWhole(1, 0.1, e);
      assert Times(k, step) == 0.1;
      BelowZero(b, k, step);
    } else {
      StepGrows(0.1, e);
      TimesOrder(0, b, step);
      ScaleOrder(1.0, b as real, step);
    }
  }

  lemma BelowZero(b: nat, k: int, step: real)
    requires step > 0.0 && Times(k, step) == 0.1 && k >= 1
    ensures b > 0 && GridValue(-0.1, step, b) < 0.0 ==> GridValue(-0.1, step, b) <= -step
    ensures k == 1 ==> step == 0.1
    ensures k > 1 ==> step < 0.1
    ensures GridValue(-0.1, step, 0) == -0.1 <= -step
  {
    ScaleOrder(1.0, k as real, step);
    TimesOrder(b, k, step);
    TimesOrder(k, b, step);
    if b < k {
      ScaleOrder(b as real, (k - 1) as real, step);
      assert (k - 1) as real * step == Times(k, step) - step;
    }
  }

  lemma TinyMinimumIsDatum(r: Range, zero: real)
    requires 0.0 < zero <= 0.9 && r.lower <= r.upper && !MovedOffZero(r, zero)
    requires -zero <= Widen(r, zero).lower < 0.0
    ensures Widen(r, zero).lower == r.lower
  {
  }

  /**
   With clean bounds every datum of the axis is inside the scale, the exception being nine units in at
   most four steps; unless the range was widened the exception always leaves a datum outside.
   */
  lemma DataInsideScale(values: set<real>, big: real, r: Range, c: AxisInput, s: Scale)
    requires FromData(values, big, r, c) && (MovedOffZero(r, c.zero) ==> Resolves(c))
    requires c.Searchable() && c.CleanBounds() && ScaleFor(c, s)
    ensures Drawable(s)
    ensures !(c.Units() == 9 && c.maxSteps <= 4) ==> forall v | v in values :: Inside(v, s)
    ensures r.upper - r.lower >= c.zero ==>
              ((forall v | v in values :: Inside(v, s)) <==> !(c.Units() == 9 && c.maxSteps <= 4))
  {
    WidenKeeps(r, c.zero);
    NothingBelowScaleIff(values, big, r, c, s);
    ScaleCoversMinimum(c, s);
    ScaleCoversMaximum(c, s);
    ValuesInside(values, r, c.maxValue, s);
  }

  lemma ValuesInside(values: set<real>, r: Range, maxValue: real, s: Scale)
    requires forall v | v in values :: r.lower <= v <= r.upper
    requires r.upper in values && s.graphMin <= r.lower && r.upper <= maxValue
    ensures maxValue <= Top(s) ==> forall v | v in values :: Inside(v, s)
    ensures maxValue == r.upper && maxValue > Top(s) ==> !(forall v | v in values :: Inside(v, s))
  {
  }

  /** Data of 0 and zeroValue give a range that is not widened, for which the step search never ends. */
  lemma ZeroValueHasNoScale(zero: real, big: real, minSteps: int, maxSteps: int)
    requires 0.0 < zero <= big && 1 <= minSteps && 3 * minSteps <= maxSteps
    ensures var r := Range(0.0, zero);
            && RangeOf({0.0, zero}, big, r) && Widen(r, zero) == r
            && !(exists e :: FirstFit(InitialCount(r.lower, r.upper, zero), e, minSteps, maxSteps))
  {
    SearchStopsIff(0.0, zero, zero, minSteps, maxSteps);
  }

  /**
   End to end on one axis: with clean bounds and at least five allowed steps every datum is drawn to
   scale, larger data strictly higher, and every tick on its grid line.
   */
  lemma LineEndToEnd(values: set<real>, big: real, r: Range, c: AxisInput, s: Scale, scaleHop: real)
    requires FromData(values, big, r, c) && (MovedOffZero(r, c.zero) ==> Resolves(c))
    requires c.Searchable() && c.CleanBounds() && c.maxSteps >= 5 && ScaleFor(c, s)
    requires scaleHop > 0.0
    ensures Outer(s) > 0.0
    ensures forall v | v in values ::
              CalculateOffset(v, s, scaleHop) * s.stepValue == scaleHop * (v - s.graphMin)
    ensures forall v, w | v in values && w in values && v < w ::
              CalculateOffset(v, s, scaleHop) < CalculateOffset(w, s, scaleHop)
    ensures forall i | 0 <= i <= s.steps ::
              CalculateOffset(GridValue(s.graphMin, s.stepValue, i), s, scaleHop) == Times(i, scaleHop)
  {
    DataInsideScale(values, big, r, c, s);
    OuterPositive(s);
    forall v | v in values {
      OffsetToScaleIff(v, s, scaleHop);
    }
    forall v, w | v in values && w in values && v < w
      ensures CalculateOffset(v, s, scaleHop) < CalculateOffset(w, s, scaleHop)
    {
      OffsetStrictlyIncreasing(v, w, s, scaleHop);
    }
    forall i | 0 <= i <= s.steps
      ensures CalculateOffset(GridValue(s.graphMin, s.stepValue, i), s, scaleHop) == Times(i, scaleHop)
    {
      TickOnGridLine(s, scaleHop, i);
    }
  }

  /** Scale, pixels per step, and the offset of the line y = 0, for one axis. */
  datatype Axis = Axis(scale: Scale, scaleHop: real, zeroY: real)

  function AxisOf(d: Dataset, first: Axis, second: Axis): Axis {
    if d.secondAxis then second else first
  }

  /** The pixel position of a datum; the offset of the zero line cancels out. */
  function PosY(v: real, a: Axis, xAxisPosY: real): real
    requires Outer(a.scale) != 0.0
  {
    xAxisPosY - CalculateOffset(v, a.scale, a.scaleHop)
  }

  /** y is the pixel of a value on an axis whose bottom is at xAxisPosY. */
  predicate IsPlaced(y: real, v: real, a: Axis, xAxisPosY: real) {
    Drawable(a.scale) ==> DrawnAt(xAxisPosY - y, v, a.scale, a.scaleHop)
  }

  lemma PosYIsPlaced(v: real, a: Axis, xAxisPosY: real)
    requires Outer(a.scale) != 0.0
    ensures IsPlaced(PosY(v, a, xAxisPosY), v, a, xAxisPosY)
  {
    if Drawable(a.scale) {
      OffsetIs(v, a.scale, a.scaleHop);
    }
  }

  /** The line case of initPassVariableData_part2: every datum on its own axis. */
  method PlaceLines(datasets: seq<Dataset>, first: Axis, second: Axis, xAxisPosY: real)
    returns (posY: seq<seq<Option<real>>>)
    requires forall i | 0 <= i < |datasets| :: Outer(AxisOf(datasets[i], first, second).scale) != 0.0
    ensures |posY| == |datasets| && forall i | 0 <= i < |datasets| :: |posY[i]| == |datasets[i].data|
    ensures forall i, j | 0 <= i < |datasets| && 0 <= j < |datasets[i].data| ::
              var d := datasets[i].data[j];
              posY[i][j] == if d.None? then None else Some(PosY(d.value, AxisOf(datasets[i], first, second), xAxisPosY))
    ensures forall i, j | 0 <= i < |datasets| && 0 <= j < |datasets[i].data| && datasets[i].data[j].Some? ::
              && posY[i][j].Some?
              && IsPlaced(posY[i][j].value, datasets[i].data[j].value, if datasets[i].secondAxis then second else first, xAxisPosY)
  {
    posY := [];
    for i := 0 to |datasets|
      invariant |posY| == i && forall k | 0 <= k < i :: |posY[k]| == |datasets[k].data|
      invariant forall k, j | 0 <= k < i && 0 <= j < |datasets[k].data| ::
                  var d := datasets[k].data[j];
                  posY[k][j] == if d.None? then None else Some(PosY(d.value, AxisOf(datasets[k], first, second), xAxisPosY))
    {
      var a, data := AxisOf(datasets[i], first, second), datasets[i].data;
      var row: seq<Option<real>> := [];
      for j := 0 to |data|
        invariant |row| == j
        invariant forall m | 0 <= m < j ::
                    row[m] == if data[m].None? then None else Some(PosY(data[m].value, a, xAxisPosY))
      {
        if data[j].Some? {
          var yAxisPos := xAxisPosY - a.zeroY;
          var yPosOffset := CalculateOffset(data[j].value, a.scale, a.scaleHop) - a.zeroY;
          row := row + [Some(yAxisPos - yPosOffset)];
        } else {
          row := row + [None];
        }
      }
      posY := posY + [row];
    }
    forall i, j | 0 <= i < |datasets| && 0 <= j < |datasets[i].data| && datasets[i].data[j].Some?
      ensures posY[i][j].Some?
      ensures IsPlaced(posY[i][j].value, datasets[i].data[j].value, if datasets[i].secondAxis then second else first, xAxisPosY)
    {
      PosYIsPlaced(datasets[i].data[j].value, AxisOf(datasets[i], first, second), xAxisPosY);
    }
  }
}
