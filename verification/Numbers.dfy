/**
 What the other modules share: the rounding functions of JavaScript (Math.floor, Math.ceil, and
 Math.round, which rounds halves up), integer powers of ten, facts about products and quotients, and the
 search of a sequence.
 */
module Numbers {

  datatype Option<+T> = None | Some(value: T)

  function Abs(x: real): (a: real)
    ensures a >= 0.0 && (a == x || a == -x)
  {
    if x < 0.0 then -x else x
  }

  function Min(a: int, b: int): int {
    if a < b then a else b
  }

  function Max(a: int, b: int): int {
    if a > b then a else b
  }

  function Floor(x: real): (n: int)
    ensures n as real <= x < n as real + 1.0
  {
    x.Floor
  }

  function Ceil(x: real): (n: int)
    ensures n as real - 1.0 < x <= n as real
  {
    -((-x).Floor)
  }

  function Round(x: real): (n: int)
    ensures n as real - 0.5 <= x < n as real + 0.5
  {
    (x + 0.5).Floor
  }

  /** Rounding toward zero: parseInt in JavaScript, a cast to int in Java. */
  function Truncate(x: real): int {
    if x < 0.0 then -Floor(-x) else Floor(x)
  }

  /** i steps of the given size. */
  function Times(i: int, step: real): real {
    i as real * step
  }

  function Pow10(k: int): (p: real)
    ensures p > 0.0
    decreases if k < 0 then -k else k
  {
    if k == 0 then 1.0 else if k > 0 then 10.0 * Pow10(k - 1) else Pow10(k + 1) / 10.0
  }

  /** Which function Pow10 is. */
  lemma Pow10Step(k: int)
    ensures Pow10(k + 1) == 10.0 * Pow10(k) && Pow10(0) == 1.0
  {
  }

  /** The power of ten at or below a positive number; 0 for the number 0 by convention of the source. */
  function OrderOfMagnitude(v: real): (k: int)
    requires v >= 0.0
    ensures v > 0.0 ==> Pow10(k) <= v < Pow10(k + 1)
    decreases if v >= 10.0 then Floor(v) else if 0.0 < v < 1.0 then Floor(1.0 / v) else 0
  {
    if v == 0.0 then 0
    else if v >= 10.0 then
      var k := OrderOfMagnitude(v / 10.0);
      Pow10Step(k); Pow10Step(k + 1);
      k + 1
    else if v < 1.0 then
      InverseShrinks(v);
      var k := OrderOfMagnitude(v * 10.0);
      Pow10Step(k - 1); Pow10Step(k);
      k - 1
    else 0
  }

  lemma InverseShrinks(v: real)
    requires 0.0 < v < 1.0
    ensures 1.0 / (v * 10.0) == (1.0 / v) / 10.0
    ensures 1.0 < 1.0 / v
    ensures Floor(1.0 / (v * 10.0)) < Floor(1.0 / v)
  {
    var y := 1.0 / v;
    assert y * v == 1.0;
    assert (y / 10.0) * (v * 10.0) == 1.0;
  }

  /** Multiplying by a positive factor keeps and reflects order. */
  lemma ScaleOrder(a: real, b: real, c: real)
    requires c > 0.0
    ensures a < b <==> a * c < b * c
    ensures a <= b <==> a * c <= b * c
    ensures a == b <==> a * c == b * c
  {
    if a < b { assert (b - a) * c > 0.0; } else { assert (a - b) * c >= 0.0; }
    if b < a { assert (a - b) * c > 0.0; } else { assert (b - a) * c >= 0.0; }
  }

  lemma Distribute(a: real, b: real, c: real)
    ensures (a - b) * c == a * c - b * c
  {
  }

  /** A quotient is the unique solution of its defining equation. */
  lemma QuotientIs(a: real, b: real, y: real)
    requires b > 0.0
    ensures (a / b) * b == a
    ensures y * b == a <==> a / b == y
  {
    var z := a / b;
    assert z * b == a;
    ScaleOrder(z, y, b);
  }

  lemma QuotientDifference(a: real, b: real, c: real)
    requires c > 0.0
    ensures (a - b) / c == a / c - b / c
  {
    QuotientIs(a, c, 0.0);
    QuotientIs(b, c, 0.0);
    QuotientIs(a - b, c, a / c - b / c);
  }

  /** A quotient by a positive divisor compares like its cross product. */
  lemma QuotientOrder(a: real, b: real, c: real)
    requires c > 0.0
    ensures a / c < b <==> a < b * c
    ensures b < a / c <==> b * c < a
  {
    QuotientIs(a, c, 0.0);
    ScaleOrder(a / c, b, c);
    ScaleOrder(b, a / c, c);
  }

  lemma MulOrder(a: int, b: int, d: int)
    requires a <= b && d >= 0
    ensures a * d <= b * d
  {
    assert (b - a) * d >= 0;
  }

  /** Quotient and remainder are determined by their defining equation. */
  lemma DivModIs(n: int, d: int, q: int, r: int)
    requires d >= 1 && 0 <= r < d && n == q * d + r
    ensures n / d == q && n % d == r
  {
    var q', r' := n / d, n % d;
    assert n == q' * d + r';
    assert (q - q') * d == r' - r;
    if q > q' { MulOrder(1, q - q', d); }
    if q < q' { MulOrder(1, q' - q, d); }
  }

  lemma TimesOrder(i: int, j: int, step: real)
    requires step > 0.0
    ensures i < j <==> Times(i, step) < Times(j, step)
  {
    ScaleOrder(i as real, j as real, step);
  }

  /** The first position of an element, or -1, like the indexOf of Java and JavaScript. */
  function IndexOf<T(==)>(s: seq<T>, x: T): (i: int)
    ensures -1 <= i < |s|
    ensures i == -1 ==> x !in s
    ensures i >= 0 ==> s[i] == x && x !in s[..i] && forall k | 0 <= k < i :: s[k] != x
  {
    if s == [] then -1
    else if s[0] == x then 0
    else
      var i := IndexOf(s[1..], x);
      if i == -1 then -1 else
        assert s[..i + 1] == [s[0]] + s[1..][..i];
        i + 1
  }
}
