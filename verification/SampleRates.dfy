/**
 From a requested utilization to the reported one: the servlet turns a percentage into a sample rate for
 every producer (CoordinatorServlet.java), a producer turns the rate into a task interval and back
 (AbstractSampleProducer.java), and the aggregator turns the rates into a percentage again
 (UtilitizationAggegrator.java). Integers are divided as Java's int, the rest is computed with doubles.
 */
module SampleRates {
  import opened Numbers
  import opened Doubles

  const MICROS := 1000000

  /** A minimal task interval, in microseconds. */
  type Interval = n: int | n >= 1 witness 1

  /** Integer division of Java, which truncates. */
  function JavaDiv(a: int, b: int): int
    requires b != 0
  {
    var q := (if a < 0 then -a else a) / (if b < 0 then -b else b);
    if (a < 0) != (b < 0) then -q else q
  }

  // ----- Rate and interval -----

  function MaxRate(minInterval: Interval): int
  {
    JavaDiv(MICROS, minInterval)
  }

  /** The interval set for a rate; rate 0 gives one that is too short to be valid. */
  function IntervalOf(minInterval: Interval, rate: int): int {
    if rate == 0 then minInterval - 1 else JavaDiv(MICROS, rate)
  }

  function RateOf(minInterval: Interval, interval: int): int
  {
    if interval < minInterval then 0 else JavaDiv(MICROS, interval)
  }

  lemma DivAtLeast(a: nat, b: int, c: int)
    requires b >= 1
    ensures a / b >= c <==> a >= b * c
  {
    var q := a / b;
    assert a == q * b + a % b;
    if q >= c { MulOrder(c, q, b); } else { MulOrder(q + 1, c, b); }
  }

  /** The interval of a rate is the longest with which that many samples fit into a second; rate 0 has none. */
  lemma IntervalIs(minInterval: Interval, rate: int, interval: int)
    requires rate >= 1
    ensures interval <= IntervalOf(minInterval, rate) <==> rate * interval <= MICROS
    ensures IntervalOf(minInterval, 0) < minInterval
  {
    DivAtLeast(MICROS, rate, interval);
  }

  /** The reported rate is the greatest that the interval allows, or 0 for an interval that is too short. */
  lemma RateIs(minInterval: Interval, interval: int, rate: int)
    requires rate >= 1
    ensures rate <= RateOf(minInterval, interval) <==> minInterval <= interval && interval * rate <= MICROS
    ensures RateOf(minInterval, interval) >= 0
    ensures rate <= MaxRate(minInterval) <==> minInterval * rate <= MICROS
  {
    DivAtLeast(MICROS, minInterval, rate);
    if interval >= minInterval {
      DivAtLeast(MICROS, interval, rate);
      DivAtLeast(MICROS, interval, 0);
    }
  }

  /** A positive rate gives a valid interval exactly up to the maximum rate. */
  lemma ValidIntervalIff(minInterval: Interval, rate: int)
    requires rate >= 1
    ensures IntervalOf(minInterval, rate) >= minInterval <==> rate <= MaxRate(minInterval)
  {
    DivAtLeast(MICROS, rate, minInterval);
    DivAtLeast(MICROS, minInterval, rate);
    assert rate * minInterval == minInterval * rate;
  }

  /**
   Setting an allowed rate and asking for it returns the rate exactly when the next rate has a shorter
   interval; that is so for every rate up to the square root of a million.
   */
  lemma RateRoundTripIff(minInterval: Interval, rate: int)
    requires 0 <= rate <= MaxRate(minInterval)
    ensures RateOf(minInterval, IntervalOf(minInterval, rate)) == rate
            <==> rate == 0 || MICROS / (rate + 1) != MICROS / rate
    ensures rate * rate <= MICROS ==> RateOf(minInterval, IntervalOf(minInterval, rate)) == rate
  {
    if rate >= 1 {
      ValidIntervalIff(minInterval, rate);
      var q := MICROS / rate;
      DivAtLeast(MICROS, rate, 1);
      DivAtLeast(MICROS, minInterval, rate);
      assert q >= minInterval;
      DivAtLeast(MICROS, q, rate);
      DivAtLeast(MICROS, q, rate + 1);
      DivAtLeast(MICROS, rate, q);
      DivAtLeast(MICROS, rate + 1, q);
      DivAtLeast(MICROS, rate, q + 1);
      DivAtLeast(MICROS, rate + 1, q + 1);
      Products(rate, q);
      if rate * rate <= MICROS {
        DivAtLeast(MICROS, rate, rate);
      }
    }
  }

  lemma Products(r: int, q: int)
    ensures r * q == q * r && q * (r + 1) == (r + 1) * q == r * q + q
    ensures r * (q + 1) == r * q + r && (r + 1) * (q + 1) == r * q + r + q + 1
  {
  }

  // ----- Percentage and rate -----

  /** percent times a (total) maximum rate, in hundredths of a sample per second. */
  function Hundredths(percent: int, max: int): int {
    percent * max
  }

  /** What the servlet computes before it truncates. */
  function RateProduct(max: int, percent: int): real {
    Double(max as real / 100.0) * percent as real
  }

  /** The rate that the servlet sets for a percentage. */
  function PercentRate(minInterval: Interval, percent: int): int {
    Truncate(Double(RateProduct(MaxRate(minInterval), percent)))
  }

  /** The rounding error of the quotient, percent times, is at most half a unit in the last place of the product. */
  predicate Kept(max: int, percent: int) {
    var product := RateProduct(max, percent);
    product > 0.0 ==> Hundredths(percent, max) as real / 100.0 - product <= Ulp(product) / 2.0
  }

  /** Percentages of maximum rates that are multiples of 25 are not rounded. */
  lemma QuartersAreKept(max: int, percent: int)
    requires 0 <= max <= MICROS && max % 25 == 0 && 0 <= percent
    ensures Kept(max, percent)
  {
    QuartersAreExact(max / 25);
    assert max as real / 100.0 == (max / 25) as real / 4.0;
    HundredthsIs(percent, max);
  }

  lemma HundredthsIs(percent: int, max: int)
    ensures (max as real / 100.0) * percent as real == Hundredths(percent, max) as real / 100.0
  {
    assert (max * percent) as real == max as real * percent as real;
  }

  /** Both roundings together stay far below a hundredth. */
  lemma ProductNear(max: int, percent: int)
    requires 0 <= max <= MICROS && 0 <= percent <= 100
    ensures var e, y := Hundredths(percent, max) as real / 100.0, RateProduct(max, percent);
            && 0.0 <= y < 2000000.0 && e - 0.001 <= y <= e + 0.001
            && (y == 0.0 ==> e == 0.0)
            && 0.0 <= Double(y) && y - 0.001 <= Double(y) <= y + 0.001
  {
    HundredthsIs(percent, max);
    var quotient, p := max as real / 100.0, percent as real;
    if max > 0 && percent > 0 {
      SmallRounding(quotient);
      ProductBounds(quotient, Double(quotient), p);
      SmallRounding(RateProduct(max, percent));
    } else if percent > 0 {
      assert quotient == 0.0;
    } else {
      assert p == 0.0;
    }
  }

  lemma SmallRounding(x: real)
    requires 0.0 < x <= 1000001.0
    ensures 0.0 < Double(x) && x - 0.00001 <= Double(x) <= x + 0.00001
  {
    DoubleNear(x);
  }

  lemma ProductBounds(a: real, d: real, p: real)
    requires 0.0 < a <= 10000.0 && 0.0 < d && a - 0.00001 <= d <= a + 0.00001 && 0.0 < p <= 100.0
    ensures 0.0 < d * p <= 1000001.0 && a * p - 0.001 <= d * p <= a * p + 0.001
  {
    ScaleOrder(0.0, d, p);
    SmallProduct(d - a, p);
    SmallProduct(a - d, p);
    Distribute(d, a, p);
    Distribute(a, d, p);
    ScaleOrder(a, 10000.0, p);
  }

  lemma SmallProduct(error: real, p: real)
    requires error <= 0.00001 && 0.0 < p <= 100.0
    ensures error * p <= 0.001
  {
    if error > 0.0 {
      ScaleOrder(p, 100.0, error);
      assert p * error == error * p;
    } else {
      ScaleOrder(error, 0.0, p);
    }
  }

  lemma TruncateNear(z: real, h: int)
    requires 0 <= h && 0.0 <= z && h as real / 100.0 - 0.005 <= z <= h as real / 100.0 + 0.005
    ensures Truncate(z) == if h % 100 == 0 && z < h as real / 100.0 then h / 100 - 1 else h / 100
  {
    var q, r, n := h / 100, h % 100, Floor(z);
    assert h as real == 100.0 * q as real + r as real;
    assert n as real <= z < (n + 1) as real;
    if r == 0 && z < h as real / 100.0 {
      assert (q - 1) as real < z < q as real;
    } else {
      assert q as real <= z < (q + 1) as real;
    }
  }

  /** The rate set is the percentage rounded down, or one less if that is whole and rounding loses it. */
  lemma PercentRateIs(minInterval: Interval, percent: int)
    requires 0 <= percent <= 100
    ensures var h := Hundredths(percent, MaxRate(minInterval));
            PercentRate(minInterval, percent)
            == if h % 100 == 0 && !Kept(MaxRate(minInterval), percent) then h / 100 - 1 else h / 100
    ensures 0 <= PercentRate(minInterval, percent) <= MaxRate(minInterval) <= MICROS
  {
    MaxRateRange(minInterval);
    RoundedRateIs(MaxRate(minInterval), percent);
    MulOrder(percent, 100, MaxRate(minInterval));
  }

  lemma RoundedRateIs(max: int, percent: int)
    requires 0 <= max <= MICROS && 0 <= percent <= 100
    ensures var h := Hundredths(percent, max);
            && 0 <= h
            && (h == 0 ==> Kept(max, percent))
            && Truncate(Double(RateProduct(max, percent)))
               == if h % 100 == 0 && !Kept(max, percent) then h / 100 - 1 else h / 100
  {
    var h := Hundredths(percent, max);
    MulOrder(0, max, percent);
    ProductNear(max, percent);
    KeptReaches(max, percent);
    TruncateNear(Double(RateProduct(max, percent)), h);
  }

  /** Whole rates are kept exactly when the rounded product reaches them. */
  lemma KeptReaches(max: int, percent: int)
    requires 0 <= max <= MICROS && 0 <= percent <= 100
    ensures var h := Hundredths(percent, max);
            h % 100 == 0 ==> (Kept(max, percent) <==> Double(RateProduct(max, percent)) >= h as real / 100.0)
    ensures Hundredths(percent, max) == 0 ==> Kept(max, percent)
  {
    var h, y := Hundredths(percent, max), RateProduct(max, percent);
    ProductNear(max, percent);
    if h % 100 == 0 && y > 0.0 {
      DoubleReachesIff(y, h / 25);
      assert (h / 25) as real / 4.0 == h as real / 100.0;
    }
  }

  lemma MaxRateRange(minInterval: Interval)
    ensures 0 <= MaxRate(minInterval) <= MICROS
  {
    DivAtLeast(MICROS, minInterval, 0);
    DivAtLeast(MICROS, minInterval, MICROS + 1);
    MulOrder(1, minInterval, MICROS + 1);
  }

  /** The rate that a producer reports after the servlet has set a percentage. */
  function ReportedRate(minInterval: Interval, percent: int): int {
    RateOf(minInterval, IntervalOf(minInterval, PercentRate(minInterval, percent)))
  }

  /** A producer whose maximum rate is at most 1000 reports the rate that was set. */
  lemma ReportedRateIs(minInterval: Interval, percent: int)
    requires 0 <= percent <= 100 && MaxRate(minInterval) <= 1000
    ensures ReportedRate(minInterval, percent) == PercentRate(minInterval, percent)
    ensures var h, r := Hundredths(percent, MaxRate(minInterval)), ReportedRate(minInterval, percent);
            100 * r <= h <= 100 * r + 100
            && (100 * r == h <==> h % 100 == 0 && Kept(MaxRate(minInterval), percent))
  {
    PercentRateIs(minInterval, percent);
    var rate := PercentRate(minInterval, percent);
    MulOrder(rate, 1000, rate);
    MulOrder(rate, 1000, 1000);
    assert rate * rate <= MICROS;
    RateRoundTripIff(minInterval, rate);
  }

  /** 0.29 is not a double; the nearest one is a little smaller. */
  lemma TwentyNineHundredths()
    ensures Double(0.29) == 5224175567749775.0 / 18014398509481984.0
  {
    NineDoublings(0.29);
    NineDoublings(0.29 * 512.0);
    NineDoublings(0.29 * 262144.0);
    NineDoublings(0.29 * 134217728.0);
    NineDoublings(0.29 * 68719476736.0);
    NineDoublings(0.29 * 35184372088832.0);
    assert RoundEven(0.29 * 18014398509481984.0) == 5224175567749775;
  }

  /** Nor is its product with 100, which stays below 29 when rounded. */
  lemma RoundedProduct()
    ensures Double(5224175567749775.0 / 18014398509481984.0 * 100.0) < 29.0
  {
    var y := 5224175567749775.0 / 18014398509481984.0 * 100.0;
    NineDoublings(y);
    NineDoublings(y * 512.0);
    NineDoublings(y * 262144.0);
    NineDoublings(y * 134217728.0);
    NineDoublings(y * 68719476736.0);
    ThreeDoublings(y * 35184372088832.0);
    assert RoundEven(y * 281474976710656.0) == 8162774324609023;
  }

  /** A whole rate that is lost: all of 29 samples per second are set, and reported, as 28. */
  lemma AllIsLessThanAll()
    ensures MaxRate(34000) == 29 && Hundredths(100, 29) % 100 == 0
    ensures !Kept(29, 100) && ReportedRate(34000, 100) == 28
  {
    TwentyNineHundredths();
    RoundedProduct();
    assert 29 as real / 100.0 == 0.29;
    assert Double(RateProduct(29, 100)) < 29.0;
    PercentRateIs(34000, 100);
    ReportedRateIs(34000, 100);
  }

  // ----- Aggregation -----

  function SumMax(intervals: seq<Interval>): int {
    if intervals == [] then 0 else SumMax(intervals[..|intervals| - 1]) + MaxRate(intervals[|intervals| - 1])
  }

  function SumReported(intervals: seq<Interval>, percent: int): int {
    if intervals == [] then 0
    else SumReported(intervals[..|intervals| - 1], percent) + ReportedRate(intervals[|intervals| - 1], percent)
  }

  /** The utilization computed from a total rate and a total maximum. */
  function Utilization(actual: int, max: int): real {
    if max == 0 then 0.0
    else
      WholeIsNotZero(max);
      Double(Double(100.0 * Double(actual as real)) / Double(max as real))
  }

  lemma WholeIsNotZero(n: int)
    requires n != 0
    ensures Double(n as real) != 0.0
  {
    DoubleNear(if n > 0 then n as real else -(n as real));
  }

  predicate Slow(intervals: seq<Interval>) {
    forall i | 0 <= i < |intervals| :: MaxRate(intervals[i]) <= 1000
  }

  /** The percentage is a whole rate for every producer, and no rounding loses it. */
  predicate WholeRates(intervals: seq<Interval>, percent: int) {
    forall i | 0 <= i < |intervals| ::
      Hundredths(percent, MaxRate(intervals[i])) % 100 == 0 && Kept(MaxRate(intervals[i]), percent)
  }

  lemma HundredthsAdd(percent: int, a: int, b: int)
    ensures Hundredths(percent, a + b) == Hundredths(percent, a) + Hundredths(percent, b)
    ensures Hundredths(percent, 0) == 0
  {
  }

  /** The total of the reported rates falls short of the requested percentage by at most 1 per producer. */
  lemma {:induction false} ReportedTotals(intervals: seq<Interval>, percent: int)
    requires Slow(intervals) && 0 <= percent <= 100
    ensures var r, h := 100 * SumReported(intervals, percent), Hundredths(percent, SumMax(intervals));
            0 <= r <= h <= r + 100 * |intervals| && (r == h <==> WholeRates(intervals, percent))
    ensures 0 <= SumMax(intervals) <= 1000 * |intervals|
  {
    HundredthsAdd(percent, 0, 0);
    if intervals != [] {
      var n := |intervals| - 1;
      ReportedTotals(intervals[..n], percent);
      PercentRateIs(intervals[n], percent);
      ReportedRateIs(intervals[n], percent);
      HundredthsAdd(percent, SumMax(intervals[..n]), MaxRate(intervals[n]));
      assert WholeRates(intervals, percent)
        <==> WholeRates(intervals[..n], percent)
             && Hundredths(percent, MaxRate(intervals[n])) % 100 == 0 && Kept(MaxRate(intervals[n]), percent);
    }
  }

  lemma WholeIsExact(n: int)
    requires 0 <= n <= 1000000000000000
    ensures Double(n as real) == n as real
  {
    QuartersAreExact(4 * n);
    assert (4 * n) as real / 4.0 == n as real;
  }

  /** The rounding of the quotient can neither reach nor leave a whole percentage. */
  lemma UtilizationIs(actual: int, max: int, percent: int)
    requires 0 < max <= 5000000000000 && 0 <= actual && 0 <= percent <= 100
    requires 100 * actual <= Hundredths(percent, max)
    ensures Utilization(actual, max) <= percent as real
    ensures Utilization(actual, max) == percent as real <==> 100 * actual == Hundredths(percent, max)
  {
    var n, d, p := (100 * actual) as real, max as real, percent as real;
    MulOrder(percent, 100, max);
    WholeIsExact(max);
    WholeIsExact(actual);
    WholeIsExact(100 * actual);
    assert 100.0 * actual as real == n;
    var h := Hundredths(percent, max);
    assert p * d == h as real;
    QuotientIs(n, d, p);
    QuotientOrder(n, p, d);
    var x := n / d;
    assert Utilization(actual, max) == Double(x);
    if actual > 0 {
        QuotientOrder(n, 0.0, d);
      DoubleReachesIff(x, 4 * percent);
      assert (4 * percent) as real / 4.0 == p;
      if 100 * actual < h {
        MissesByMuch(100 * actual, h, d, p);
      } else {
        assert x == p;
      }
    }
  }

  /** Any utilization is, but for rounding, the percentage that the total rate is of the total maximum. */
  lemma UtilizationNear(actual: int, max: int)
    requires 0 < max <= 5000000000000 && 0 <= actual <= max
    ensures var u, exact := Utilization(actual, max), (100 * actual) as real / max as real;
            exact - 0.0000001 <= u <= exact + 0.0000001
    ensures Utilization(actual, 0) == 0.0
  {
    WholeIsExact(max);
    WholeIsExact(actual);
    WholeIsExact(100 * actual);
    assert 100.0 * actual as real == (100 * actual) as real;
    var n, d := (100 * actual) as real, max as real;
    QuotientOrder(n, 100.0, d);
    QuotientOrder(n, 0.0, d);
    if actual > 0 {
      DoubleNear(n / d);
    }
  }

  /** A quotient by a divisor that is not huge misses a whole number by more than a rounding. */
  lemma MissesByMuch(n: int, h: int, d: real, p: real)
    requires 0.0 < d <= 5000000000000.0 && 0 < n < h && p * d == h as real && 0.0 <= p <= 100.0
    ensures 0.0 < n as real / d && p - n as real / d > Ulp(n as real / d) / 2.0
  {
    var x := n as real / d;
    QuotientIs(n as real, d, x);
    QuotientOrder(n as real, 0.0, d);
    QuotientOrder(n as real, p, d);
    DoubleNear(x);
    Distribute(p, x, d);
    WideGap(p - x, d);
    assert Ulp(x) <= 100.0 / TWO52;
  }

  lemma WideGap(gap: real, d: real)
    requires 0.0 < d <= 5000000000000.0 && gap * d >= 1.0
    ensures gap > 0.0000000000001
  {
    QuotientOrder(1.0, 0.0000000000001, d);
    QuotientOrder(1.0, gap, d);
  }

  /**
   The aggregate reports exactly the requested percentage if and only if it is a whole rate for every
   producer and no rounding loses it; otherwise it reports less. A Java list has less than 2^31 elements.
   */
  lemma AggregateIsExactIff(intervals: seq<Interval>, percent: int)
    requires Slow(intervals) && 0 <= percent <= 100 && SumMax(intervals) > 0 && |intervals| < 0x8000_0000
    ensures Utilization(SumReported(intervals, percent), SumMax(intervals)) <= percent as real
    ensures Utilization(SumReported(intervals, percent), SumMax(intervals)) == percent as real
            <==> WholeRates(intervals, percent)
  {
    ReportedTotals(intervals, percent);
    UtilizationIs(SumReported(intervals, percent), SumMax(intervals), percent);
  }

  /** Producers with the shipped minimal interval of 1000 report every percentage exactly. */
  lemma ShippedProducersAreExact(intervals: seq<Interval>, percent: int)
    requires intervals != [] && |intervals| < 0x8000_0000 && 0 <= percent <= 100
    requires forall i | 0 <= i < |intervals| :: intervals[i] == 1000
    ensures Utilization(SumReported(intervals, percent), SumMax(intervals)) == percent as real
  {
    ShippedMax(intervals);
    QuartersAreKept(1000, percent);
    assert Hundredths(percent, 1000) % 100 == 0;
    assert WholeRates(intervals, percent);
    AggregateIsExactIff(intervals, percent);
  }

  lemma {:induction false} ShippedMax(intervals: seq<Interval>)
    requires forall i | 0 <= i < |intervals| :: intervals[i] == 1000
    ensures SumMax(intervals) == 1000 * |intervals|
    ensures MaxRate(1000) == 1000
  {
    if intervals != [] {
      ShippedMax(intervals[..|intervals| - 1]);
    }
  }
}

module RateControl {
  import opened Numbers
  import opened Doubles
  import opened SampleRates

  class Producer {
    const minTaskInterval: Interval
    var taskInterval: int

    constructor (taskInterval: int, minTaskInterval: Interval)
      ensures this.taskInterval == taskInterval && this.minTaskInterval == minTaskInterval
    {
      this.taskInterval, this.minTaskInterval := taskInterval, minTaskInterval;
    }

    function GetMaxSampleRate(): int {
      MaxRate(minTaskInterval)
    }

    function GetSampleRate(): int
      reads this
    {
      RateOf(minTaskInterval, taskInterval)
    }

    method SetSampleRate(rate: int)
      modifies this
      ensures taskInterval == IntervalOf(minTaskInterval, rate)
    {
      taskInterval := if rate == 0 then minTaskInterval - 1 else JavaDiv(MICROS, rate);
    }
  }

  /** Every producer runs at the interval for the given percentage. */
  ghost predicate AllAt(producers: seq<Producer>, percent: int)
    reads producers
  {
    forall p | p in producers ::
      p.taskInterval == IntervalOf(p.minTaskInterval, PercentRate(p.minTaskInterval, percent))
  }

  datatype Response = NoContent | BadRequest

  class CoordinatorServlet {
    var productionRate: int
    var producers: seq<Producer>

    ghost predicate Valid()
      reads this, producers
    {
      0 <= productionRate <= 100 && AllAt(producers, productionRate)
    }

    constructor ()
      ensures Valid() && productionRate == 5 && producers == []
    {
      productionRate, producers := 5, [];
    }

    method AddProducer(p: Producer)
      requires Valid()
      modifies this, p
      ensures Valid() && producers == old(producers) + [p] && productionRate == old(productionRate)
    {
      producers := producers + [p];
      SetSampleRate(p, productionRate);
    }

    /** Removes the first occurrence. */
    method RemoveProducer(p: Producer)
      requires Valid()
      modifies this
      ensures Valid() && productionRate == old(productionRate)
      ensures p !in old(producers) ==> producers == old(producers)
      ensures p in old(producers) ==>
                exists i :: 0 <= i < |old(producers)| && old(producers)[i] == p && p !in old(producers)[..i]
                            && producers == old(producers)[..i] + old(producers)[i + 1..]
    {
      var i := 0;
      while i < |producers| && producers[i] != p
        invariant 0 <= i <= |producers| && p !in producers[..i]
      {
        i := i + 1;
      }
      if i < |producers| {
        producers := producers[..i] + producers[i + 1..];
      }
    }

    /** A missing, malformed or out-of-range percentage is refused and changes nothing. */
    method PostUtilisation(value: Option<int>) returns (r: Response)
      requires Valid()
      modifies this, producers
      ensures Valid() && producers == old(producers)
      ensures r == BadRequest <==> value.None? || !(0 <= value.value <= 100)
      ensures r == BadRequest ==> productionRate == old(productionRate)
                                  && forall p | p in producers :: p.taskInterval == old(p.taskInterval)
      ensures r == NoContent ==> productionRate == value.value
    {
      if value.None? || value.value < 0 || value.value > 100 {
        return BadRequest;
      }
      productionRate := value.value;
      for i := 0 to |producers|
        invariant producers == old(producers) && productionRate == value.value
        invariant AllAt(producers[..i], productionRate)
      {
        SetSampleRate(producers[i], value.value);
        assert producers[..i + 1] == producers[..i] + [producers[i]];
      }
      assert producers[..|producers|] == producers;
      r := NoContent;
    }

    method SetSampleRate(p: Producer, newRate: int)
      modifies p
      ensures p.taskInterval == IntervalOf(p.minTaskInterval, PercentRate(p.minTaskInterval, newRate))
    {
      var rate := PercentRate(p.minTaskInterval, newRate);
      p.SetSampleRate(rate);
    }
  }

  function Intervals(producers: seq<Producer>): (r: seq<Interval>)
    ensures |r| == |producers|
  {
    seq(|producers|, i requires 0 <= i < |producers| => producers[i].minTaskInterval)
  }

  function SumRates(producers: seq<Producer>): int
    reads producers
  {
    if producers == [] then 0
    else SumRates(producers[..|producers| - 1]) + producers[|producers| - 1].GetSampleRate()
  }

  class UtilizationAggregator {
    var producers: seq<Producer>

    /** The reported utilization of all producers taken together. */
    method GetValue() returns (u: real)
      ensures u == Utilization(SumRates(producers), SumMax(Intervals(producers)))
    {
      var actual, max := 0, 0;
      for i := 0 to |producers|
        invariant actual == SumRates(producers[..i]) && max == SumMax(Intervals(producers[..i]))
      {
        assert producers[..i + 1][..i] == producers[..i];
        assert Intervals(producers[..i + 1])[..i] == Intervals(producers[..i]);
        actual := actual + producers[i].GetSampleRate();
        max := max + producers[i].GetMaxSampleRate();
      }
      assert producers[..|producers|] == producers;
      if max == 0 {
        return 0.0;
      }
      WholeIsNotZero(max);
      u := Double(Double(100.0 * Double(actual as real)) / Double(max as real));
    }
  }

  lemma {:induction false} RatesAreReported(producers: seq<Producer>, percent: int)
    requires AllAt(producers, percent)
    ensures SumRates(producers) == SumReported(Intervals(producers), percent)
  {
    if producers != [] {
      var n := |producers| - 1;
      RatesAreReported(producers[..n], percent);
      assert Intervals(producers)[..n] == Intervals(producers[..n]);
    }
  }

  /**
   End to end: with producers of the shipped minimal interval, added before or after the post, the
   aggregate of a servlet's producers is the percentage last accepted.
   */
  lemma PostedPercentageIsReported(s: CoordinatorServlet)
    requires s.Valid() && 0 < |s.producers| < 0x8000_0000
    requires forall p | p in s.producers :: p.minTaskInterval == 1000
    ensures Utilization(SumRates(s.producers), SumMax(Intervals(s.producers))) == s.productionRate as real
  {
    RatesAreReported(s.producers, s.productionRate);
    ShippedProducersAreExact(Intervals(s.producers), s.productionRate);
  }
}
