/**
 Java's double arithmetic on numbers that are neither tiny nor huge: the exact result of an operation,
 rounded to 53 significant binary digits, halves to even (binary64 of IEEE 754, without its subnormal
 numbers and overflow).
 */
module Doubles {
  import opened Numbers

  /** 2^52; the whole numbers from here to twice as much are those of 53 binary digits. */
  const TWO52 := 4503599627370496.0

  function RoundEven(x: real): (n: int)
    ensures n as real - 0.5 <= x <= n as real + 0.5
  {
    var n := Floor(x);
    if x - n as real < 0.5 || (x - n as real == 0.5 && n % 2 == 0) then n else n + 1
  }

  /** How far a positive number is from those of 53 binary digits. */
  function Distance(x: real): nat
    requires x > 0.0
  {
    if x >= 2.0 * TWO52 then Floor(x) else if x < TWO52 then Floor(TWO52 / x) else 0
  }

  lemma HalvingEnds(x: real)
    requires x > 0.0
    ensures x >= 2.0 * TWO52 ==> Distance(x / 2.0) < Distance(x)
    ensures x < TWO52 ==> Distance(x * 2.0) < Distance(x)
  {
    if x < TWO52 {
      var y := TWO52 / x;
      QuotientIs(TWO52, x, y);
      QuotientIs(TWO52, x * 2.0, y / 2.0);
      QuotientOrder(TWO52, 1.0, x);
    }
  }

  /** The double nearest to an exact result. */
  function Double(x: real): real
    decreases if x < 0.0 then 1 else 0, if x > 0.0 then Distance(x) else 0
  {
    if x < 0.0 then -Double(-x)
    else if x == 0.0 then 0.0
    else
      HalvingEnds(x);
      if x >= 2.0 * TWO52 then 2.0 * Double(x / 2.0)
      else if x < TWO52 then Double(x * 2.0) / 2.0
      else RoundEven(x) as real
  }

  /** The unit in the last place: the distance of the doubles around a positive number. */
  function Ulp(x: real): (u: real)
    requires x > 0.0
    ensures u > 0.0
    decreases Distance(x)
  {
    HalvingEnds(x);
    if x >= 2.0 * TWO52 then 2.0 * Ulp(x / 2.0) else if x < TWO52 then Ulp(x * 2.0) / 2.0 else 1.0
  }

  /** Rounding moves a number by at most half a unit in the last place, which is small. */
  lemma {:induction false} DoubleNear(x: real)
    requires x > 0.0
    ensures x - Ulp(x) / 2.0 <= Double(x) <= x + Ulp(x) / 2.0
    ensures TWO52 * Ulp(x) <= x
    decreases Distance(x)
  {
    HalvingEnds(x);
    if x >= 2.0 * TWO52 {
      DoubleNear(x / 2.0);
    } else if x < TWO52 {
      DoubleNear(x * 2.0);
    }
  }

  lemma RoundReaches(x: real, j: int)
    ensures RoundEven(x) >= 2 * j <==> x >= (2 * j) as real - 0.5
    ensures x <= (2 * j) as real ==> RoundEven(x) <= 2 * j
  {
  }

  /** An even whole number is reached by rounding exactly from half a unit in the last place below it. */
  lemma {:induction false} DoubleReaches(x: real, j: int)
    requires 0.0 < x < 2.0 * TWO52
    ensures Double(x) >= (2 * j) as real <==> (2 * j) as real - x <= Ulp(x) / 2.0
    ensures x <= (2 * j) as real ==> Double(x) <= (2 * j) as real
    decreases Distance(x)
  {
    if x < TWO52 {
      HalvingEnds(x);
      DoubleReaches(x * 2.0, 2 * j);
      assert (2 * (2 * j)) as real == 2.0 * (2 * j) as real;
      assert Double(x) == Double(x * 2.0) / 2.0 && Ulp(x) == Ulp(x * 2.0) / 2.0;
    } else {
      RoundReaches(x, j);
      assert Double(x) == RoundEven(x) as real && Ulp(x) == 1.0;
    }
  }

  /** The same for a number of quarters, in a range where a quarter has room for three more binary digits. */
  lemma DoubleReachesIff(x: real, quarters: int)
    requires 0.0 < x < TWO52 / 4.0
    ensures Double(x) >= quarters as real / 4.0 <==> quarters as real / 4.0 - x <= Ulp(x) / 2.0
    ensures x <= quarters as real / 4.0 ==> Double(x) <= quarters as real / 4.0
  {
    ThreeDoublings(x);
    DoubleReaches(x * 8.0, quarters);
  }

  lemma ThreeDoublings(x: real)
    requires 0.0 < x < TWO52 / 4.0
    ensures Double(x) == Double(x * 8.0) / 8.0 && Ulp(x) == Ulp(x * 8.0) / 8.0
  {
    assert Double(x) == Double(x * 2.0) / 2.0 && Ulp(x) == Ulp(x * 2.0) / 2.0;
    assert x * 2.0 * 2.0 == x * 4.0 && x * 4.0 * 2.0 == x * 8.0;
    assert Double(x * 2.0) == Double(x * 4.0) / 2.0 && Ulp(x * 2.0) == Ulp(x * 4.0) / 2.0;
    assert Double(x * 4.0) == Double(x * 8.0) / 2.0 && Ulp(x * 4.0) == Ulp(x * 8.0) / 2.0;
  }

  lemma NineDoublings(x: real)
    requires 0.0 < x < TWO52 / 256.0
    ensures Double(x) == Double(x * 512.0) / 512.0 && Ulp(x) == Ulp(x * 512.0) / 512.0
  {
    ThreeDoublings(x);
    ThreeDoublings(x * 8.0);
    assert x * 8.0 * 8.0 == x * 64.0;
    ThreeDoublings(x * 64.0);
    assert x * 64.0 * 8.0 == x * 512.0;
  }

  /** Quarters, and so whole numbers, are doubles. */
  lemma QuartersAreExact(quarters: int)
    requires 0 <= quarters && quarters as real < TWO52
    ensures Double(quarters as real / 4.0) == quarters as real / 4.0
  {
    if quarters > 0 {
      var x := quarters as real / 4.0;
      DoubleReachesIff(x, quarters);
      assert x - x <= Ulp(x) / 2.0;
    }
  }
}
