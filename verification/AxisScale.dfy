/**
 The linear axis scale: a tick step is picked by doubling or halving a power of ten until the number
 of steps fits between minSteps and maxSteps (ChartNew.js, calculateScale).

 Counts are measured in units of the initial step 10^k. The final step is 2^e units, with e negative
 after halving and positive after doubling.
 */
module AxisScale {
  import opened Numbers

  datatype Scale = Scale(steps: int, stepValue: real, graphMin: real)

  /** The height-derived limits of getValueBounds for an axis of the given height and label height. */
  function MaxSteps(height: real, labelHeight: real): int
    requires labelHeight > 0.0
  {
    Floor(height / (labelHeight * 0.66))
  }

  function MinSteps(height: real, labelHeight: real): int
    requires labelHeight > 0.0
  {
    Floor(height / labelHeight * 0.5)
  }

  /** The two floors leave room for a factor of three, which is what keeps the search from oscillating. */
  lemma StepLimitsRatio(height: real, labelHeight: real)
    requires labelHeight > 0.0 && height >= 0.0
    ensures 3 * MinSteps(height, labelHeight) <= MaxSteps(height, labelHeight)
  {
    var x, y := height / labelHeight, height / (labelHeight * 0.66);
    QuotientIs(height, labelHeight, x);
    QuotientIs(height, labelHeight * 0.66, y);
    assert (y * 0.66) * labelHeight == x * labelHeight;
    ScaleOrder(y * 0.66, x, labelHeight);
    ScaleOrder(0.0, x, labelHeight);
  }

  /** The limits are the greatest numbers of labels that fit at two thirds and at twice their height. */
  lemma StepLimitsAre(height: real, labelHeight: real, n: int)
    requires labelHeight > 0.0
    ensures n <= MaxSteps(height, labelHeight) <==> n as real * (0.66 * labelHeight) <= height
    ensures n <= MinSteps(height, labelHeight) <==> n as real * (2.0 * labelHeight) <= height
  {
    QuotientOrder(height, n as real, 0.66 * labelHeight);
    assert labelHeight * 0.66 == 0.66 * labelHeight;
    QuotientOrder(height, 2.0 * n as real, labelHeight);
    assert 2.0 * n as real * labelHeight == n as real * (2.0 * labelHeight);
  }

  // ----- Axis ends before the search -----

  /** The axis ends in units of the initial step p; an end within zero of 0 is drawn at 0. */
  function LowUnits(minValue: real, p: real, zero: real): int
    requires p > 0.0
  {
    if Abs(minValue) > zero then Floor(minValue / p) else 0
  }

  function HighUnits(maxValue: real, p: real, zero: real): int
    requires p > 0.0
  {
    if Abs(maxValue) > zero then Ceil(maxValue / p) else 0
  }

  function InitialStep(minValue: real, maxValue: real): real
    requires minValue < maxValue
  {
    Pow10(OrderOfMagnitude(maxValue - minValue))
  }

  /** The number of initial steps between the two axis ends. */
  function InitialCount(minValue: real, maxValue: real, zero: real): int
    requires minValue < maxValue
  {
    var p := InitialStep(minValue, maxValue);
    HighUnits(maxValue, p, zero) - LowUnits(minValue, p, zero)
  }

  /** A bound that is either exactly 0 or too far from 0 to be rounded to it. */
  predicate Clean(v: real, zero: real) {
    v == 0.0 || Abs(v) > zero
  }

  lemma UnitQuotients(minValue: real, maxValue: real)
    requires minValue < maxValue
    ensures var p := InitialStep(minValue, maxValue);
            p > 0.0 && 1.0 <= maxValue / p - minValue / p < 10.0
  {
    var k := OrderOfMagnitude(maxValue - minValue);
    var p := Pow10(k);
    Pow10Step(k);
    QuotientDifference(maxValue, minValue, p);
    QuotientOrder(maxValue - minValue, 1.0, p);
    QuotientOrder(maxValue - minValue, 10.0, p);
  }

  /** With clean bounds, or an initial step above zero, the search starts from between 1 and 11 steps. */
  lemma InitialCountRange(minValue: real, maxValue: real, zero: real)
    requires minValue < maxValue && zero >= 0.0
    requires !(Abs(minValue) <= zero && Abs(maxValue) <= zero)
    requires (Clean(minValue, zero) && Clean(maxValue, zero)) || zero < InitialStep(minValue, maxValue)
    ensures 1 <= InitialCount(minValue, maxValue, zero) <= 11
  {
    var p := InitialStep(minValue, maxValue);
    QuotientOrder(minValue, 1.0, p);
    QuotientOrder(minValue, -1.0, p);
    QuotientOrder(maxValue, 1.0, p);
    QuotientOrder(maxValue, -1.0, p);
    InitialCountPositive(minValue, maxValue, zero);
    UnitQuotients(minValue, maxValue);
    CleanUnits(minValue, maxValue, zero);
  }

  /** For clean bounds the rounding to 0 changes nothing. */
  lemma CleanUnits(minValue: real, maxValue: real, zero: real)
    requires minValue < maxValue && zero >= 0.0
    ensures var p := InitialStep(minValue, maxValue);
            && (Clean(minValue, zero) ==> LowUnits(minValue, p, zero) == Floor(minValue / p))
            && (Clean(maxValue, zero) ==> HighUnits(maxValue, p, zero) == Ceil(maxValue / p))
  {
    var p := InitialStep(minValue, maxValue);
    assert 0.0 / p == 0.0;
  }

  /** The axis has positive length exactly when its bounds are not both rounded to 0. */
  lemma InitialCountPositive(minValue: real, maxValue: real, zero: real)
    requires minValue < maxValue && zero >= 0.0
    ensures InitialCount(minValue, maxValue, zero) >= 0
    ensures InitialCount(minValue, maxValue, zero) >= 1
            <==> !(Abs(minValue) <= zero && Abs(maxValue) <= zero)
  {
    var p := InitialStep(minValue, maxValue);
    UnitQuotients(minValue, maxValue);
    QuotientSign(minValue, p);
    QuotientSign(maxValue, p);
  }

  lemma QuotientSign(a: real, p: real)
    requires p > 0.0
    ensures a > 0.0 ==> a / p > 0.0
    ensures a < 0.0 ==> a / p < 0.0
  {
    QuotientIs(a, p, 0.0);
    ScaleOrder(0.0, a / p, p);
    ScaleOrder(a / p, 0.0, p);
  }

  // ----- The search -----

  /** The length of an axis of n units measured in steps of 2^e units. */
  function Length(n: int, e: int): real
    decreases if e < 0 then -e else e
  {
    if e == 0 then n as real else if e > 0 then Length(n, e - 1) / 2.0 else 2.0 * Length(n, e + 1)
  }

  /** The value of a step of 2^e units of p. */
  function StepSize(p: real, e: int): (s: real)
    ensures p > 0.0 ==> s > 0.0
    decreases if e < 0 then -e else e
  {
    if e == 0 then p else if e > 0 then 2.0 * StepSize(p, e - 1) else StepSize(p, e + 1) / 2.0
  }

  /** The step count that the search computes when the step is 2^e units and the axis is n units long. */
  function Count(n: int, e: int): int {
    Round(Length(n, e))
  }

  /** The quotient that the search rounds is the axis length. */
  lemma {:induction false} LengthIsQuotient(n: int, p: real, e: int)
    requires p > 0.0
    ensures (n as real * p) / StepSize(p, e) == Length(n, e)
    ensures Length(n, e) * StepSize(p, e) == n as real * p
    decreases if e < 0 then -e else e
  {
    if e > 0 {
      LengthIsQuotient(n, p, e - 1);
      HalfTimesDouble(Length(n, e - 1), StepSize(p, e - 1));
    } else if e < 0 {
      LengthIsQuotient(n, p, e + 1);
      HalfTimesDouble(StepSize(p, e + 1), Length(n, e + 1));
    }
    QuotientIs(n as real * p, StepSize(p, e), Length(n, e));
  }

  lemma HalfTimesDouble(y: real, z: real)
    ensures (y / 2.0) * (2.0 * z) == y * z && (2.0 * z) * (y / 2.0) == z * y
  {
  }

  predicate Fits(n: int, e: int, minSteps: int, maxSteps: int) {
    minSteps <= Count(n, e) <= maxSteps
  }

  /** e is the first fitting step when only ever halving from 1 unit, or only ever doubling. */
  ghost predicate FirstFit(n: int, e: int, minSteps: int, maxSteps: int) {
    && Fits(n, e, minSteps, maxSteps)
    && (forall f | e < f <= 0 :: Count(n, f) < minSteps)
    && (forall f | 0 <= f < e :: Count(n, f) > maxSteps)
  }

  lemma HalfUnits(n: int, p: real, e: int)
    ensures Length(n, e) == 2.0 * Length(n, e + 1)
    ensures StepSize(p, e + 1) == 2.0 * StepSize(p, e)
  {
  }

  /** The search never changes direction: a halving step cannot overshoot, nor can a doubling one. */
  lemma NoOscillation(n: int, e: int, minSteps: int, maxSteps: int)
    requires 1 <= minSteps && 3 * minSteps <= maxSteps
    ensures Count(n, e) < minSteps ==> Count(n, e - 1) <= maxSteps
    ensures Count(n, e) > maxSteps ==> Count(n, e + 1) >= minSteps
  {
    HalfUnits(n, 1.0, e - 1);
    HalfUnits(n, 1.0, e);
  }

  lemma FirstFitDistinct(n: int, e: int, e': int, minSteps: int, maxSteps: int)
    requires minSteps <= maxSteps && e < e'
    requires FirstFit(n, e, minSteps, maxSteps)
    ensures !FirstFit(n, e', minSteps, maxSteps)
  {
    // The counts at the two candidates and at the start are what the definitions speak of.
    var atLower, atUpper, atStart := Count(n, e), Count(n, e'), Count(n, 0);
  }

  lemma FirstFitUnique(n: int, e: int, e': int, minSteps: int, maxSteps: int)
    requires minSteps <= maxSteps
    requires FirstFit(n, e, minSteps, maxSteps) && FirstFit(n, e', minSteps, maxSteps)
    ensures e == e'
  {
    if e < e' {
      FirstFitDistinct(n, e, e', minSteps, maxSteps);
    } else if e' < e {
      FirstFitDistinct(n, e', e, minSteps, maxSteps);
    }
  }

  /** The search has a result exactly for an axis of positive length. */
  lemma SearchStopsIff(minValue: real, maxValue: real, zero: real, minSteps: int, maxSteps: int)
    requires minValue < maxValue && zero >= 0.0
    requires 1 <= minSteps && 3 * minSteps <= maxSteps
    ensures (exists e :: FirstFit(InitialCount(minValue, maxValue, zero), e, minSteps, maxSteps))
            <==> !(Abs(minValue) <= zero && Abs(maxValue) <= zero)
  {
    var n := InitialCount(minValue, maxValue, zero);
    InitialCountPositive(minValue, maxValue, zero);
    if n >= 1 {
      var e := SearchFrom(n, 0, minSteps, maxSteps);
    } else {
      forall e ensures Count(n, e) == 0 {
        LengthIsQuotient(0, 1.0, e);
      }
    }
  }

  /** What the search has established when it arrives at steps of 2^e units. */
  ghost predicate Searching(n: int, e: int, minSteps: int, maxSteps: int) {
    && (forall f | e < f <= 0 :: Count(n, f) < minSteps)
    && (forall f | 0 <= f < e :: Count(n, f) > maxSteps)
    && (e < 0 ==> Count(n, e) <= maxSteps)
    && (e > 0 ==> Count(n, e) >= minSteps)
    && (e <= 0 ==> Length(n, e) >= 1.0)
  }

  /** How far the search still is from its limits. */
  function SearchLeft(n: int, e: int, minSteps: int, maxSteps: int): int {
    if Count(n, e) < minSteps then minSteps - Floor(Length(n, e)) + 1
    else if Count(n, e) > maxSteps then Floor(Length(n, e))
    else 0
  }

  lemma SearchOn(n: int, e: int, minSteps: int, maxSteps: int)
    requires 1 <= minSteps && 3 * minSteps <= maxSteps && Searching(n, e, minSteps, maxSteps)
    ensures var left := SearchLeft(n, e, minSteps, maxSteps);
            && (Count(n, e) < minSteps ==> Searching(n, e - 1, minSteps, maxSteps)
                                           && 0 <= SearchLeft(n, e - 1, minSteps, maxSteps) < left)
            && (Count(n, e) > maxSteps ==> Searching(n, e + 1, minSteps, maxSteps)
                                           && 0 <= SearchLeft(n, e + 1, minSteps, maxSteps) < left)
  {
    NoOscillation(n, e, minSteps, maxSteps);
    HalfUnits(n, 1.0, e - 1);
    HalfUnits(n, 1.0, e);
  }

  lemma {:induction false} SearchFrom(n: int, e: int, minSteps: int, maxSteps: int) returns (r: int)
    requires 1 <= minSteps && 3 * minSteps <= maxSteps && Searching(n, e, minSteps, maxSteps)
    ensures FirstFit(n, r, minSteps, maxSteps)
    decreases SearchLeft(n, e, minSteps, maxSteps)
  {
    SearchOn(n, e, minSteps, maxSteps);
    if Count(n, e) < minSteps {
      r := SearchFrom(n, e - 1, minSteps, maxSteps);
    } else if Count(n, e) > maxSteps {
      r := SearchFrom(n, e + 1, minSteps, maxSteps);
    } else {
      r := e;
    }
  }

  // ----- Rounding of the final count -----

  lemma RoundWhole(x: real, k: int)
    requires x == k as real
    ensures Round(x) == k
  {
  }

  /** Halving makes the axis a whole number of steps, and no fewer than before. */
  lemma {:induction false} HalvingIsExact(n: int, e: int) returns (k: int)
    requires e <= 0 && n >= 0
    ensures Length(n, e) == k as real && Count(n, e) == k >= n
    decreases -e
  {
    if e == 0 {
      k := n;
    } else {
      var h := HalvingIsExact(n, e + 1);
      k := 2 * h;
    }
    RoundWhole(Length(n, e), k);
  }

  /** The counts after no, one and two doublings. */
  lemma DoubledCounts(n: int)
    requires 0 <= n <= 11
    ensures Count(n, 0) == n && Count(n, 1) == (n + 1) / 2 && Count(n, 2) == (n + 2) / 4
  {
    assert Length(n, 1) == n as real / 2.0;
    assert Length(n, 2) == n as real / 4.0;
  }

  /**
   What a first fit can be: a whole number of steps after any number of halvings, or n units rounded
   after one or two doublings. The steps reach n units in all cases but one: 9 units in at most 4 steps.
   */
  lemma FirstFitCases(n: int, e: int, minSteps: int, maxSteps: int)
    requires 1 <= n <= 11 && 1 <= minSteps && 3 * minSteps <= maxSteps
    requires FirstFit(n, e, minSteps, maxSteps)
    ensures e <= 0 ==> n <= maxSteps && Length(n, e) == Count(n, e) as real
    ensures e > 0 ==> e == 1 || e == 2
    ensures e > 0 && n == 9 && maxSteps <= 4 ==> e == 2 && Count(n, e) == 2
    ensures e == 1 ==> 2 * Count(n, e) >= n
    ensures e == 2 ==> 4 * Count(n, e) >= n || (n == 9 && maxSteps <= 4)
  {
    DoubledCounts(n);
    if e <= 0 {
      var k := HalvingIsExact(n, e);
    } else {
      var once, twice := Count(n, 1), Count(n, 2);
    }
  }

  /** After halvings the steps reach exactly n units. */
  lemma ReachWhole(n: int, p: real, e: int)
    requires p > 0.0 && Length(n, e) == Count(n, e) as real
    ensures Times(Count(n, e), StepSize(p, e)) == Times(n, p)
  {
    LengthIsQuotient(n, p, e);
  }

  /** After one or two doublings the steps reach a whole number of units. */
  lemma ReachDoubled(count: int, p: real)
    ensures Times(count, StepSize(p, 1)) == Times(2 * count, p)
    ensures Times(count, StepSize(p, 2)) == Times(4 * count, p)
  {
    assert StepSize(p, 1) == 2.0 * p && StepSize(p, 2) == 4.0 * p;
  }

  /** How many units the rounded count reaches when n units are to be drawn in at most maxSteps steps. */
  function Reach(n: int, maxSteps: int): int {
    if n <= maxSteps then n
    else if (n + 1) / 2 <= maxSteps then 2 * ((n + 1) / 2)
    else 4 * ((n + 2) / 4)
  }

  /** The steps reach at least to n units, except for 9 units squeezed into 4 steps. */
  lemma ReachIs(n: int, p: real, e: int, minSteps: int, maxSteps: int)
    requires 1 <= n <= 11 && 1 <= minSteps && 3 * minSteps <= maxSteps && p > 0.0
    requires FirstFit(n, e, minSteps, maxSteps)
    ensures Times(Count(n, e), StepSize(p, e)) == Times(Reach(n, maxSteps), p)
    ensures if n == 9 && maxSteps <= 4 then Reach(n, maxSteps) == n - 1 else Reach(n, maxSteps) >= n
  {
    FirstFitCases(n, e, minSteps, maxSteps);
    DoubledCounts(n);
    var count, once, start := Count(n, e), Count(n, 1), Count(n, 0);
    if e <= 0 {
      ReachWhole(n, p, e);
    } else {
      ReachDoubled(count, p);
    }
  }

  // ----- Grid lines -----

  /** The value of the i-th tick of a scale. */
  function GridValue(origin: real, step: real, i: int): real {
    origin + Times(i, step)
  }

  lemma GridOrder(origin: real, step: real, i: int, j: int)
    requires step > 0.0
    ensures i < j <==> GridValue(origin, step, i) < GridValue(origin, step, j)
    ensures GridValue(origin, step, i) + step == GridValue(origin, step, i + 1)
  {
    ScaleOrder(i as real, j as real, step);
    assert i as real * step + step == (i + 1) as real * step;
  }

  lemma GridShift(origin: real, step: real, b: int, i: int)
    ensures GridValue(GridValue(origin, step, b), step, i) == GridValue(origin, step, b + i)
  {
    assert b as real * step + i as real * step == (b + i) as real * step;
  }

  // ----- calculateScale -----

  /** The bounds of the data, the step limits, config.zeroValue and the two graphMaximized switches. */
  datatype AxisInput = AxisInput(minValue: real, maxValue: real, minSteps: int, maxSteps: int,
                                 zero: real, trimBottom: bool, trimTop: bool) {
    /** What getValueBounds delivers, less the case in which the step search has no result. */
    predicate Searchable() {
      && minValue < maxValue && zero >= 0.0
      && 1 <= minSteps && 3 * minSteps <= maxSteps
      && !(Abs(minValue) <= zero && Abs(maxValue) <= zero)
    }

    predicate CleanBounds() {
      Clean(minValue, zero) && Clean(maxValue, zero)
    }

    function Unit(): (p: real)
      requires minValue < maxValue
      ensures p > 0.0
    {
      InitialStep(minValue, maxValue)
    }

    /** The lower axis end before any cut. */
    function Origin(): real
      requires minValue < maxValue
    {
      Times(LowUnits(minValue, Unit(), zero), Unit())
    }

    /** The length of the axis in initial steps. */
    function Units(): int
      requires minValue < maxValue
    {
      InitialCount(minValue, maxValue, zero)
    }
  }

  /** The greatest number of steps cut at the bottom while data stays inside and two steps remain. */
  predicate BottomCut(cut: bool, origin: real, step: real, count: int, minValue: real, b: nat) {
    && (b > 0 ==> cut && GridValue(origin, step, b) < minValue && count - b >= 2)
    && (cut ==> GridValue(origin, step, b + 1) >= minValue || count - b < 3)
  }

  predicate TopCut(cut: bool, origin: real, step: real, count: int, maxValue: real, t: nat) {
    && (t > 0 ==> cut && GridValue(origin, step, count - t) >= maxValue && count - t >= 2)
    && (cut ==> GridValue(origin, step, count - t - 1) < maxValue || count - t < 3)
  }

  /**
   s is the scale with steps of 2^e units, e being the first fit, after b steps were cut off at the
   bottom and t at the top.
   */
  ghost predicate IsScale(c: AxisInput, s: Scale, e: int, b: nat, t: nat)
    requires c.minValue < c.maxValue
  {
    var count := Count(c.Units(), e);
    && FirstFit(c.Units(), e, c.minSteps, c.maxSteps)
    && s.stepValue == StepSize(c.Unit(), e)
    && IsTrim(c, c.Origin(), s.stepValue, count, s.graphMin, s.steps, b, t)
  }

  /** b steps are cut off at the bottom and t at the top of count steps from origin. */
  predicate IsTrim(c: AxisInput, origin: real, step: real, count: int, graphMin: real, steps: int, b: nat, t: nat) {
    && BottomCut(c.trimBottom, origin, step, count, c.minValue, b)
    && graphMin == GridValue(origin, step, b)
    && TopCut(c.trimTop, graphMin, step, count - b, c.maxValue, t)
    && steps == count - b - t
  }

  /** s is the scale of the input, which determines it (ScaleUnique). */
  ghost predicate ScaleFor(c: AxisInput, s: Scale)
    requires c.minValue < c.maxValue
  {
    exists e, b: nat, t: nat :: IsScale(c, s, e, b, t)
  }

  method CalculateScale(c: AxisInput) returns (s: Scale)
    requires c.Searchable()
    ensures ScaleFor(c, s)
  {
    var p := Pow10(OrderOfMagnitude(c.maxValue - c.minValue));
    var graphMin, graphMax := 0.0, 0.0;
    if Abs(c.minValue) > c.zero {
      graphMin := Times(Floor(c.minValue / p), p);
    }
    if Abs(c.maxValue) > c.zero {
      graphMax := Times(Ceil(c.maxValue / p), p);
    }
    InitialCountPositive(c.minValue, c.maxValue, c.zero);
    var graphRange := graphMax - graphMin;
    AxisLength(p, LowUnits(c.minValue, p, c.zero), HighUnits(c.maxValue, p, c.zero));
    assert graphMin == c.Origin();
    var stepValue, numberOfSteps := SearchStep(graphRange, p, c.Units(), c.minSteps, c.maxSteps);
    ghost var e :| FirstFit(c.Units(), e, c.minSteps, c.maxSteps)
                   && stepValue == StepSize(p, e) && numberOfSteps == Count(c.Units(), e);
    ghost var count := numberOfSteps;
    graphMin, numberOfSteps := TrimScale(c, graphMin, stepValue, numberOfSteps);
    ghost var b: nat, t: nat :| IsTrim(c, c.Origin(), stepValue, count, graphMin, numberOfSteps, b, t);
    s := Scale(numberOfSteps, stepValue, graphMin);
    assert IsScale(c, s, e, b, t);
  }

  /** The two loops of calculateScale that cut steps off a maximized graph. */
  method TrimScale(c: AxisInput, origin: real, stepValue: real, count: int)
    returns (graphMin: real, numberOfSteps: int)
    requires stepValue > 0.0
    ensures exists b: nat, t: nat :: IsTrim(c, origin, stepValue, count, graphMin, numberOfSteps, b, t)
  {
    graphMin, numberOfSteps := origin, count;
    ghost var b: nat, t: nat := 0, 0;
    if c.trimBottom {
      while graphMin + stepValue < c.minValue && numberOfSteps >= 3
        invariant graphMin == GridValue(origin, stepValue, b) && numberOfSteps == count - b
        invariant b > 0 ==> graphMin < c.minValue && numberOfSteps >= 2
        decreases numberOfSteps
      {
        GridOrder(origin, stepValue, b, b + 1);
        graphMin := graphMin + stepValue;
        numberOfSteps := numberOfSteps - 1;
        b := b + 1;
      }
      GridOrder(origin, stepValue, b, b + 1);
    }
    if c.trimTop {
      while graphMin + Times(numberOfSteps - 1, stepValue) >= c.maxValue && numberOfSteps >= 3
        invariant numberOfSteps == count - b - t
        invariant t > 0 ==> GridValue(graphMin, stepValue, numberOfSteps) >= c.maxValue && numberOfSteps >= 2
        decreases numberOfSteps
      {
        numberOfSteps := numberOfSteps - 1;
        t := t + 1;
      }
    }
    assert IsTrim(c, origin, stepValue, count, graphMin, numberOfSteps, b, t);
  }

  /** The search loop of calculateScale. */
  method SearchStep(graphRange: real, p: real, ghost n: int, minSteps: int, maxSteps: int)
    returns (stepValue: real, numberOfSteps: int)
    requires p > 0.0 && n >= 1 && graphRange == Times(n, p)
    requires 1 <= minSteps && 3 * minSteps <= maxSteps
    ensures stepValue > 0.0
    ensures exists e :: FirstFit(n, e, minSteps, maxSteps) && stepValue == StepSize(p, e) && numberOfSteps == Count(n, e)
  {
    stepValue := p;
    ghost var e := 0;
    LengthInSteps(n, p, 0);
    numberOfSteps := Round(graphRange / stepValue);
    while numberOfSteps < minSteps || numberOfSteps > maxSteps
      invariant stepValue == StepSize(p, e) && numberOfSteps == Count(n, e)
      invariant Searching(n, e, minSteps, maxSteps)
      decreases SearchLeft(n, e, minSteps, maxSteps)
    {
      SearchOn(n, e, minSteps, maxSteps);
      if numberOfSteps < minSteps {
        HalfUnits(n, p, e - 1);
        stepValue, e := stepValue / 2.0, e - 1;
      } else {
        HalfUnits(n, p, e);
        stepValue, e := stepValue * 2.0, e + 1;
      }
      LengthInSteps(n, p, e);
      numberOfSteps := Round(graphRange / stepValue);
    }
  }

  lemma AxisLength(p: real, low: int, high: int)
    ensures Times(high, p) - Times(low, p) == Times(high - low, p)
  {
  }

  /** The scale is determined by its input. */
  lemma ScaleUnique(c: AxisInput, s: Scale, s': Scale)
    requires c.Searchable() && ScaleFor(c, s) && ScaleFor(c, s')
    ensures s == s'
  {
    var e, b: nat, t: nat :| IsScale(c, s, e, b, t);
    var e', b': nat, t': nat :| IsScale(c, s', e', b', t');
    FirstFitUnique(c.Units(), e, e', c.minSteps, c.maxSteps);
    var count := Count(c.Units(), e);
    BottomCutUnique(c.trimBottom, c.Origin(), s.stepValue, count, c.minValue, b, b');
    TopCutUnique(c.trimTop, s.graphMin, s.stepValue, count - b, c.maxValue, t, t');
  }

  lemma BottomCutUnique(cut: bool, origin: real, step: real, count: int, minValue: real, b: nat, b': nat)
    requires step > 0.0
    requires BottomCut(cut, origin, step, count, minValue, b) && BottomCut(cut, origin, step, count, minValue, b')
    ensures b == b'
  {
    GridOrder(origin, step, b, b' + 1);
    GridOrder(origin, step, b', b + 1);
    GridOrder(origin, step, b + 1, b');
    GridOrder(origin, step, b' + 1, b);
  }

  lemma TopCutUnique(cut: bool, origin: real, step: real, count: int, maxValue: real, t: nat, t': nat)
    requires step > 0.0
    requires TopCut(cut, origin, step, count, maxValue, t) && TopCut(cut, origin, step, count, maxValue, t')
    ensures t == t'
  {
    GridOrder(origin, step, count - t, count - t' - 1);
    GridOrder(origin, step, count - t', count - t - 1);
    GridOrder(origin, step, count - t - 1, count - t');
    GridOrder(origin, step, count - t' - 1, count - t);
  }

  /** The bottom of the scale is at or below the data exactly when the minimum is not a tiny negative number. */
  lemma ScaleCoversMinimum(c: AxisInput, s: Scale)
    requires c.Searchable() && ScaleFor(c, s)
    ensures s.steps >= 1 && s.stepValue > 0.0
    ensures s.graphMin <= c.minValue <==> c.minValue >= 0.0 || c.minValue < -c.zero
  {
    var e, b: nat, t: nat :| IsScale(c, s, e, b, t);
    OriginCovers(c.minValue, c.Unit(), c.zero);
    CutKeepsBottom(c.trimBottom, c.Origin(), s.stepValue, Count(c.Units(), e), c.minValue, b);
  }

  lemma CutKeepsBottom(cut: bool, origin: real, step: real, count: int, minValue: real, b: nat)
    requires step > 0.0 && BottomCut(cut, origin, step, count, minValue, b)
    ensures GridValue(origin, step, b) <= minValue <==> origin <= minValue
  {
    GridOrder(origin, step, 0, b);
    assert GridValue(origin, step, 0) == origin;
  }

  lemma OriginCovers(minValue: real, p: real, zero: real)
    requires p > 0.0 && zero >= 0.0
    ensures Times(LowUnits(minValue, p, zero), p) <= minValue <==> minValue >= 0.0 || minValue < -zero
  {
    QuotientIs(minValue, p, 0.0);
    ScaleOrder(Floor(minValue / p) as real, minValue / p, p);
  }

  /**
   The top of the scale is at or above the data, with one exception: an axis of nine units of which at
   most four steps are allowed. A tiny positive maximum is rounded to 0, and so covered only if the
   rounded step count reaches beyond.
   */
  lemma ScaleCoversMaximum(c: AxisInput, s: Scale)
    requires c.Searchable() && (c.CleanBounds() || c.zero < c.Unit()) && ScaleFor(c, s)
    ensures 1 <= c.Units() <= 11
    ensures c.maxValue <= GridValue(s.graphMin, s.stepValue, s.steps)
            <==> if 0.0 < c.maxValue <= c.zero then Reach(c.Units(), c.maxSteps) > c.Units()
                 else !(c.Units() == 9 && c.maxSteps <= 4)
  {
    var e, b: nat, t: nat :| IsScale(c, s, e, b, t);
    InitialCountRange(c.minValue, c.maxValue, c.zero);
    var count := Count(c.Units(), e);
    UncutTop(c, e);
    GridShift(c.Origin(), s.stepValue, b, count - b);
    GridOrder(s.graphMin, s.stepValue, s.steps, count - b);
  }

  /** Coverage before any step is cut off. */
  lemma UncutTop(c: AxisInput, e: int)
    requires c.Searchable() && (c.CleanBounds() || c.zero < c.Unit())
    requires FirstFit(c.Units(), e, c.minSteps, c.maxSteps)
    ensures c.maxValue <= GridValue(c.Origin(), StepSize(c.Unit(), e), Count(c.Units(), e))
            <==> if 0.0 < c.maxValue <= c.zero then Reach(c.Units(), c.maxSteps) > c.Units()
                 else !(c.Units() == 9 && c.maxSteps <= 4)
  {
    InitialCountRange(c.minValue, c.maxValue, c.zero);
    CleanUnits(c.minValue, c.maxValue, c.zero);
    var p, n, high := c.Unit(), c.Units(), HighUnits(c.maxValue, c.Unit(), c.zero);
    var reach := Reach(n, c.maxSteps);
    ReachIs(n, p, e, c.minSteps, c.maxSteps);
    assert GridValue(c.Origin(), StepSize(p, e), Count(n, e)) == Times(high - n, p) + Times(reach, p);
    if Clean(c.maxValue, c.zero) {
      CeilReach(c.maxValue, p, high - n, n, reach);
    } else {
      ReachZero(p, n, reach);
    }
  }

  /** How far an axis reaches that would end at 0. */
  lemma ReachZero(p: real, n: int, reach: int)
    requires p > 0.0
    ensures reach == n ==> Times(-n, p) + Times(reach, p) == 0.0
    ensures reach > n ==> Times(-n, p) + Times(reach, p) >= p
    ensures reach == n - 1 ==> Times(-n, p) + Times(reach, p) == -p
  {
    assert Times(-n, p) + Times(reach, p) == Times(reach - n, p);
    ScaleOrder(1.0, (reach - n) as real, p);
  }

  /** A value rounded up to low + n units is reached by n units above low, but not by n - 1. */
  lemma CeilReach(v: real, p: real, low: int, n: int, units: int)
    requires p > 0.0 && low + n == Ceil(v / p)
    ensures units >= n ==> v <= Times(low, p) + Times(units, p)
    ensures units == n - 1 ==> v > Times(low, p) + Times(units, p)
  {
    QuotientOrder(v, (low + units) as real, p);
    assert (low + units) as real * p == Times(low, p) + Times(units, p);
  }

  // ----- What the scale is -----

  /** x, doubled j times. */
  function Doubled(x: real, j: nat): real {
    if j == 0 then x else 2.0 * Doubled(x, j - 1)
  }

  /** A step of 2^e units is one unit, doubled or halved as often as e says. */
  lemma {:induction false} StepIsDoubled(p: real, e: int)
    ensures e >= 0 ==> StepSize(p, e) == Doubled(p, e)
    ensures e <= 0 ==> Doubled(StepSize(p, e), -e) == p
    decreases if e < 0 then -e else e
  {
    if e > 0 {
      StepIsDoubled(p, e - 1);
    } else if e < 0 {
      StepIsDoubled(p, e + 1);
      DoubledOnce(StepSize(p, e), -e - 1);
    }
  }

  lemma {:induction false} DoubledOnce(x: real, j: nat)
    ensures Doubled(2.0 * x, j) == Doubled(x, j + 1)
  {
    if j > 0 { DoubledOnce(x, j - 1); }
  }

  /** n is the number of units at or below v, or 0 when v is rounded to it. */
  predicate RoundedDown(v: real, zero: real, unit: real, n: int) {
    if -zero <= v <= zero then n == 0 else Times(n, unit) <= v < Times(n + 1, unit)
  }

  /** n is the number of units at or above v, or 0 when v is rounded to it. */
  predicate RoundedUp(v: real, zero: real, unit: real, n: int) {
    if -zero <= v <= zero then n == 0 else Times(n - 1, unit) < v <= Times(n, unit)
  }

  /** The length is within half a step of count steps. */
  predicate Nearest(count: int, length: real, step: real) {
    Times(2 * count - 1, step) <= 2.0 * length < Times(2 * count + 1, step)
  }

  /** Rounded, the length is more than max steps, or less than min steps. */
  predicate TooMany(max: int, length: real, step: real) {
    2.0 * length >= Times(2 * max + 1, step)
  }

  predicate TooFew(min: int, length: real, step: real) {
    2.0 * length < Times(2 * min - 1, step)
  }

  /**
   The meaning of the scale. The unit is the power of ten at or below the range of the data; the axis
   runs from low to high units, the whole units around the data. The step is the unit, doubled j times or
   halved j times; its count, rounded, is within the limits, and was not one step size earlier. Of the
   count, b steps are cut off at the bottom and t at the top: as many as leave the data inside and two
   steps.
   */
  lemma ScaleMeans(c: AxisInput, s: Scale) returns (k: int, low: int, high: int, j: nat, count: int, b: nat, t: nat)
    requires c.Searchable() && ScaleFor(c, s)
    ensures Pow10(k) <= c.maxValue - c.minValue < Pow10(k + 1)
    ensures RoundedDown(c.minValue, c.zero, Pow10(k), low) && RoundedUp(c.maxValue, c.zero, Pow10(k), high)
    ensures s.stepValue == Doubled(Pow10(k), j) || Doubled(s.stepValue, j) == Pow10(k)
    ensures c.minSteps <= count <= c.maxSteps && Nearest(count, Times(high - low, Pow10(k)), s.stepValue)
    ensures s.stepValue > Pow10(k) ==> TooMany(c.maxSteps, Times(high - low, Pow10(k)), s.stepValue / 2.0)
    ensures s.stepValue < Pow10(k) ==> TooFew(c.minSteps, Times(high - low, Pow10(k)), 2.0 * s.stepValue)
    ensures s.graphMin == Times(low, Pow10(k)) + Times(b, s.stepValue) && s.steps == count - b - t
    ensures b > 0 ==> c.trimBottom && s.graphMin < c.minValue && count - b >= 2
    ensures c.trimBottom ==> s.graphMin + s.stepValue >= c.minValue || count - b < 3
    ensures t > 0 ==> c.trimTop && s.graphMin + Times(s.steps, s.stepValue) >= c.maxValue && s.steps >= 2
    ensures c.trimTop ==> s.graphMin + Times(s.steps - 1, s.stepValue) < c.maxValue || s.steps < 3
  {
    var e, b', t' :| IsScale(c, s, e, b', t');
    k, b, t, j := OrderOfMagnitude(c.maxValue - c.minValue), b', t', if e < 0 then -e else e;
    var p, n := c.Unit(), c.Units();
    low, high, count := LowUnits(c.minValue, p, c.zero), HighUnits(c.maxValue, p, c.zero), Count(n, e);
    assert p == Pow10(k) && n == high - low;
    UnitsAround(c.minValue, c.maxValue, p, c.zero);
    StepIsDoubled(p, e);
    CountIsNearest(n, p, e);
    StepMoved(n, p, e, c.minSteps, c.maxSteps);
    GridOrder(c.Origin(), s.stepValue, b, b + 1);
  }

  lemma UnitsAround(minValue: real, maxValue: real, p: real, zero: real)
    requires p > 0.0 && zero >= 0.0
    ensures RoundedDown(minValue, zero, p, LowUnits(minValue, p, zero))
    ensures RoundedUp(maxValue, zero, p, HighUnits(maxValue, p, zero))
  {
    var low, high := Floor(minValue / p), Ceil(maxValue / p);
    UnitOrder(minValue, low, p);
    UnitOrder(minValue, low + 1, p);
    UnitOrder(maxValue, high - 1, p);
    UnitOrder(maxValue, high, p);
  }

  /** A value compared with a whole number of units. */
  lemma UnitOrder(v: real, n: int, p: real)
    requires p > 0.0
    ensures v / p < n as real <==> v < Times(n, p)
    ensures v / p > n as real <==> v > Times(n, p)
  {
    QuotientOrder(v, n as real, p);
  }

  /** Twice the length of an axis, in steps and in units, against a whole number of steps. */
  lemma TwiceLength(n: int, p: real, e: int, h: int)
    requires p > 0.0
    ensures 2.0 * Length(n, e) < h as real <==> 2.0 * Times(n, p) < Times(h, StepSize(p, e))
  {
    LengthInSteps(n, p, e);
    TwiceQuotient(Times(n, p), StepSize(p, e), h);
  }

  lemma LengthInSteps(n: int, p: real, e: int)
    requires p > 0.0
    ensures Times(n, p) / StepSize(p, e) == Length(n, e)
  {
    LengthIsQuotient(n, p, e);
  }

  lemma TwiceQuotient(a: real, c: real, h: int)
    requires c > 0.0
    ensures 2.0 * (a / c) < h as real <==> 2.0 * a < Times(h, c)
  {
    var b := h as real;
    QuotientOrder(a, b / 2.0, c);
    assert 2.0 * ((b / 2.0) * c) == b * c;
  }

  lemma CountIsNearest(n: int, p: real, e: int)
    requires p > 0.0
    ensures Nearest(Count(n, e), Times(n, p), StepSize(p, e))
  {
    var count := Count(n, e);
    TwiceLength(n, p, e, 2 * count - 1);
    TwiceLength(n, p, e, 2 * count + 1);
  }

  /** A count outside the limits. */
  lemma CountOutside(n: int, p: real, e: int, m: int)
    requires p > 0.0
    ensures Count(n, e) > m <==> TooMany(m, Times(n, p), StepSize(p, e))
    ensures Count(n, e) < m <==> TooFew(m, Times(n, p), StepSize(p, e))
  {
    TwiceLength(n, p, e, 2 * m + 1);
    TwiceLength(n, p, e, 2 * m - 1);
    RoundAgainst(Length(n, e), m);
  }

  lemma RoundAgainst(x: real, m: int)
    ensures Round(x) > m <==> 2.0 * x >= (2 * m + 1) as real
    ensures Round(x) < m <==> 2.0 * x < (2 * m - 1) as real
  {
  }

  /** Unless the step is the unit, the step that was tried before it did not fit. */
  lemma StepMoved(n: int, p: real, e: int, minSteps: int, maxSteps: int)
    requires p > 0.0 && FirstFit(n, e, minSteps, maxSteps)
    ensures StepSize(p, e) > p ==> TooMany(maxSteps, Times(n, p), StepSize(p, e) / 2.0)
    ensures StepSize(p, e) < p ==> TooFew(minSteps, Times(n, p), 2.0 * StepSize(p, e))
  {
    if e > 0 {
      StepGrows(p, e);
      HalfUnits(n, p, e - 1);
      CountOutside(n, p, e - 1, maxSteps);
    } else if e < 0 {
      StepShrinks(p, e);
      HalfUnits(n, p, e);
      CountOutside(n, p, e + 1, minSteps);
    }
  }

  lemma {:induction false} StepGrows(p: real, e: int)
    requires p > 0.0 && e >= 0
    ensures StepSize(p, e) >= p && (e > 0 ==> StepSize(p, e) >= 2.0 * p)
  {
    if e > 0 { StepGrows(p, e - 1); }
  }

  lemma {:induction false} StepShrinks(p: real, e: int)
    requires p > 0.0 && e <= 0
    ensures StepSize(p, e) <= p && (e < 0 ==> StepSize(p, e) < p)
    decreases -e
  {
    if e < 0 { StepShrinks(p, e + 1); }
  }

  /** Data from 10 to 90 and limits of 3 and 10 steps give 8 steps of 10. */
  lemma TenToNinety(s: Scale)
    requires ScaleFor(AxisInput(10.0, 90.0, 3, 10, 0.0000000001, false, false), s)
    ensures s == Scale(8, 10.0, 10.0)
  {
    var c := AxisInput(10.0, 90.0, 3, 10, 0.0000000001, false, false);
    var e, b: nat, t: nat :| IsScale(c, s, e, b, t);
    assert OrderOfMagnitude(8.0) == 0 && OrderOfMagnitude(80.0) == 1;
    Pow10Step(0);
    assert c.Unit() == 10.0 && c.Units() == 8;
    assert FirstFit(8, 0, 3, 10) by { assert Count(8, 0) == 8; }
    FirstFitUnique(8, 0, e, 3, 10);
  }

  // ----- The exceptions -----

  /** The range 0 to 9 in at most 4 steps ends below 9. */
  lemma NineInFourSteps(s: Scale, trimBottom: bool, trimTop: bool)
    requires ScaleFor(AxisInput(0.0, 9.0, 1, 4, 0.0000000001, trimBottom, trimTop), s)
    ensures GridValue(s.graphMin, s.stepValue, s.steps) < 9.0
  {
    var c := AxisInput(0.0, 9.0, 1, 4, 0.0000000001, trimBottom, trimTop);
    assert c.Unit() == Pow10(0) == 1.0;
    ScaleCoversMaximum(c, s);
  }

  /** A minimum of half of zeroValue below 0 is left outside. */
  lemma TinyNegativeMinimum(s: Scale, trimBottom: bool, trimTop: bool)
    requires ScaleFor(AxisInput(-0.00000000005, 9.0, 1, 5, 0.0000000001, trimBottom, trimTop), s)
    ensures s.graphMin > -0.00000000005
  {
    ScaleCoversMinimum(AxisInput(-0.00000000005, 9.0, 1, 5, 0.0000000001, trimBottom, trimTop), s);
  }
}
