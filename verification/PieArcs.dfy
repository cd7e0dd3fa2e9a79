/**
 The arcs of a pie or doughnut chart (ChartNew.js, initPassVariableData_part1, case 1). The full
 circle is the parameter tau; the two starting angles are parameters as well.
 */
module PieArcs {
  import opened Numbers

  /** A value is counted when it is there and not negative. */
  predicate Counted(values: seq<Option<real>>, i: int) {
    0 <= i < |values| && values[i].Some? && values[i].value >= 0.0
  }

  function CountedSum(values: seq<Option<real>>, n: nat): (s: real)
    requires n <= |values|
    ensures s >= 0.0
  {
    if n == 0 then 0.0
    else CountedSum(values, n - 1) + (if Counted(values, n - 1) then values[n - 1].value else 0.0)
  }

  function Total(values: seq<Option<real>>): real {
    CountedSum(values, |values|)
  }

  /** A value's proportional share of c; shares add up like the values. */
  function Share(v: real, total: real, c: real): real
    requires total > 0.0
  {
    v / total * c
  }

  /** The angle of one value; a full circle is drawn slightly short. */
  function SegmentAngle(v: real, total: real, tau: real): real
    requires total > 0.0
  {
    if Share(v, total, tau) >= tau then tau - 0.001 else Share(v, total, tau)
  }

  /** The angle taken by the first n values. */
  function AngleSum(values: seq<Option<real>>, total: real, tau: real, n: nat): real
    requires n <= |values| && total > 0.0
  {
    if n == 0 then 0.0
    else AngleSum(values, total, tau, n - 1)
         + (if Counted(values, n - 1) then SegmentAngle(values[n - 1].value, total, tau) else 0.0)
  }

  function PercentSum(values: seq<Option<real>>, total: real, n: nat): real
    requires n <= |values| && total > 0.0
  {
    if n == 0 then 0.0
    else PercentSum(values, total, n - 1) + (if Counted(values, n - 1) then Share(values[n - 1].value, total, 100.0) else 0.0)
  }

  datatype Arc = Arc(startAngle: real, endAngle: real, realStartAngle: real, segmentAngle: real,
                     cumvalue: real, pctvalue: real, prevNotMissing: int, nextNotMissing: int)

  predicate IsPrev(values: seq<Option<real>>, i: int, p: int) {
    && -1 <= p < i && (p >= 0 ==> Counted(values, p))
    && forall m | p < m < i :: !Counted(values, m)
  }

  /** The next counted value below n, or -1. */
  predicate IsNext(values: seq<Option<real>>, n: int, i: int, next: int) {
    if next == -1 then forall m | i < m < n :: !Counted(values, m)
    else i < next < n && Counted(values, next) && forall m | i < m < next :: !Counted(values, m)
  }

  predicate IsArc(values: seq<Option<real>>, n: int, tau: real, start: real, realStart: real, i: nat, a: Arc)
    requires i < |values| && Counted(values, i) && Total(values) > 0.0
  {
    IsPlaced(values, tau, start, realStart, i, a) && IsNext(values, n, i, a.nextNotMissing)
  }

  /** All but the link to the next arc. */
  predicate IsPlaced(values: seq<Option<real>>, tau: real, start: real, realStart: real, i: nat, a: Arc)
    requires i < |values| && Counted(values, i) && Total(values) > 0.0
  {
    var total, v := Total(values), values[i].value;
    && a.segmentAngle == SegmentAngle(v, total, tau)
    && a.startAngle == start + AngleSum(values, total, tau, i)
    && a.endAngle == start + AngleSum(values, total, tau, i + 1)
    && a.realStartAngle == realStart - AngleSum(values, total, tau, i)
    && a.cumvalue == CountedSum(values, i + 1)
    && a.pctvalue == Share(v, total, 100.0)
    && IsPrev(values, i, a.prevNotMissing)
  }

  /** The first loop: the total of the values that are not skipped. */
  method SumValues(values: seq<Option<real>>) returns (totvalue: real)
    ensures totvalue == Total(values)
  {
    totvalue := 0.0;
    for i := 0 to |values|
      invariant totvalue == CountedSum(values, i)
    {
      if values[i].Some? && values[i].value < 0.0 {
        continue;
      }
      if values[i].Some? {
        totvalue := totvalue + values[i].value;
      }
    }
  }

  method Segment(v: real, totvalue: real, tau: real) returns (segmentAngle: real)
    requires totvalue > 0.0
    ensures segmentAngle == SegmentAngle(v, totvalue, tau)
  {
    segmentAngle := Share(v, totvalue, tau);
    if segmentAngle >= tau {
      segmentAngle := tau - 0.001;
    }
  }

  /** The table after the first n values; the last arc is not linked to a next one yet. */
  ghost predicate ArcsSoFar(values: seq<Option<real>>, n: int, tau: real, start: real, realStart: real,
                            arcs: seq<Option<Arc>>)
    requires Total(values) > 0.0
  {
    && 0 <= n <= |values| == |arcs|
    && (forall k | 0 <= k < n :: Counted(values, k) <==> arcs[k].Some?)
    && (forall k | 0 <= k < n && Counted(values, k) :: IsArc(values, n, tau, start, realStart, k, arcs[k].value))
    && (forall k | n <= k < |arcs| :: arcs[k].None?)
  }

  /** The table with arc i, to which the arc before it is linked. */
  function WithArc(arcs: seq<Option<Arc>>, i: nat, arc: Arc, prev: int): seq<Option<Arc>>
    requires i < |arcs| && (0 <= prev ==> prev < i && arcs[prev].Some?)
  {
    var added := arcs[i := Some(arc)];
    if prev >= 0 then added[prev := Some(arcs[prev].value.(nextNotMissing := i))] else added
  }

  lemma ArcAdded(values: seq<Option<real>>, i: nat, tau: real, start: real, realStart: real, prev: int,
                 arcs: seq<Option<Arc>>, arc: Arc)
    requires Total(values) > 0.0 && ArcsSoFar(values, i, tau, start, realStart, arcs)
    requires i < |values| && Counted(values, i) && IsPrev(values, i, prev)
    requires IsPlaced(values, tau, start, realStart, i, arc) && arc.nextNotMissing == -1
    ensures ArcsSoFar(values, i + 1, tau, start, realStart, WithArc(arcs, i, arc, prev))
  {
    var arcs' := WithArc(arcs, i, arc, prev);
    forall k | 0 <= k < i && Counted(values, k)
      ensures IsArc(values, i + 1, tau, start, realStart, k, arcs'[k].value)
    {
      assert IsArc(values, i, tau, start, realStart, k, arcs[k].value);
    }
  }

  lemma NoArcAdded(values: seq<Option<real>>, i: nat, tau: real, start: real, realStart: real, arcs: seq<Option<Arc>>)
    requires Total(values) > 0.0 && ArcsSoFar(values, i, tau, start, realStart, arcs)
    requires i < |values| && !Counted(values, i)
    ensures ArcsSoFar(values, i + 1, tau, start, realStart, arcs)
  {
    forall k | 0 <= k < i && Counted(values, k)
      ensures IsArc(values, i + 1, tau, start, realStart, k, arcs[k].value)
    {
      assert IsArc(values, i, tau, start, realStart, k, arcs[k].value);
    }
  }

  method PieTable(values: seq<Option<real>>, tau: real, start: real, realStart: real)
    returns (arcs: seq<Option<Arc>>)
    requires Total(values) > 0.0
    ensures |arcs| == |values|
    ensures forall i | 0 <= i < |values| :: Counted(values, i) <==> arcs[i].Some?
    ensures forall i | 0 <= i < |values| && Counted(values, i) ::
              IsArc(values, |values|, tau, start, realStart, i, arcs[i].value)
  {
    var totvalue := SumValues(values);
    var cumulativeAngle, realCumulativeAngle, cumvalue, prevNotMissing := start, realStart, 0.0, -1;
    var result := new Option<Arc>[|values|](_ => None);
    for i := 0 to |values|
      invariant cumulativeAngle == start + AngleSum(values, totvalue, tau, i)
      invariant realCumulativeAngle == realStart - AngleSum(values, totvalue, tau, i)
      invariant cumvalue == CountedSum(values, i)
      invariant IsPrev(values, i, prevNotMissing)
      invariant ArcsSoFar(values, i, tau, start, realStart, result[..])
    {
      ghost var before := result[..];
      if values[i].Some? && values[i].value >= 0.0 {
        var v := values[i].value;
        var segmentAngle := Segment(v, totvalue, tau);
        cumvalue := cumvalue + v;
        var arc := Arc(cumulativeAngle, cumulativeAngle + segmentAngle, realCumulativeAngle, segmentAngle,
                       cumvalue, Share(v, totvalue, 100.0), prevNotMissing, -1);
        ArcAdded(values, i, tau, start, realStart, prevNotMissing, before, arc);
        result[i] := Some(arc);
        cumulativeAngle := cumulativeAngle + segmentAngle;
        realCumulativeAngle := realCumulativeAngle - segmentAngle;
        if prevNotMissing != -1 {
          result[prevNotMissing] := Some(result[prevNotMissing].value.(nextNotMissing := i));
        }
        assert result[..] == WithArc(before, i, arc, prevNotMissing);
        prevNotMissing := i;
      } else {
        NoArcAdded(values, i, tau, start, realStart, before);
      }
    }
    arcs := result[..];
  }

  // ----- Properties of the table -----

  /** As much of the circle, and of 100 %, as v is of the total; a whole circle is drawn slightly short. */
  predicate Proportional(a: Arc, v: real, total: real, tau: real) {
    && a.pctvalue * total == 100.0 * v
    && if v < total then a.segmentAngle * total == tau * v else a.segmentAngle == tau - 0.001
  }

  lemma ProportionalArc(a: Arc, v: real, total: real, tau: real)
    requires 0.0 <= v <= total && total > 0.0 && tau > 0.0
    requires a.pctvalue == Share(v, total, 100.0) && a.segmentAngle == SegmentAngle(v, total, tau)
    ensures Proportional(a, v, total, tau)
  {
    ShareTimesTotal(v, total, 100.0);
    AngleOf(v, total, tau);
  }

  /** The arc of a value is its share. */
  lemma ArcIsProportional(values: seq<Option<real>>, n: int, tau: real, start: real, realStart: real, i: nat, a: Arc)
    requires Total(values) > 0.0 && tau > 0.001 && i < |values| && Counted(values, i)
    requires IsArc(values, n, tau, start, realStart, i, a)
    ensures values[i].value <= Total(values) && Proportional(a, values[i].value, Total(values), tau)
  {
    PartBelowSum(values, |values|, i);
    ProportionalArc(a, values[i].value, Total(values), tau);
  }

  /** An arc takes its angle, from the starting angle on if it is the first. */
  lemma ArcFromStart(values: seq<Option<real>>, n: int, tau: real, start: real, realStart: real, i: nat, a: Arc)
    requires Total(values) > 0.0 && i < |values| && Counted(values, i)
    requires IsArc(values, n, tau, start, realStart, i, a)
    ensures a.endAngle == a.startAngle + a.segmentAngle
    ensures a.prevNotMissing == -1 ==> a.startAngle == start && a.realStartAngle == realStart
  {
    if a.prevNotMissing == -1 {
      NothingBetween(values, Total(values), tau, 0, i);
    }
  }

  lemma AngleOf(v: real, total: real, tau: real)
    requires 0.0 <= v <= total && total > 0.0 && tau > 0.0
    ensures v < total ==> SegmentAngle(v, total, tau) * total == tau * v
    ensures v == total ==> SegmentAngle(v, total, tau) == tau - 0.001
  {
    ShareTimesTotal(v, total, tau);
    ShareOf(v, total, tau);
  }

  lemma ShareTimesTotal(v: real, total: real, c: real)
    requires total > 0.0
    ensures Share(v, total, c) * total == c * v
  {
    QuotientIs(v, total, 0.0);
    var q := v / total;
    assert (q * c) * total == c * (q * total);
  }

  lemma {:induction false} NothingBetween(values: seq<Option<real>>, total: real, tau: real, i: nat, k: nat)
    requires i <= k <= |values| && total > 0.0
    requires forall m | i <= m < k :: !Counted(values, m)
    ensures AngleSum(values, total, tau, i) == AngleSum(values, total, tau, k)
  {
    if i < k { NothingBetween(values, total, tau, i, k - 1); }
  }

  /** Each arc begins where the arc of the previous counted value ends, and mirrors its real angle. */
  lemma ArcsContiguous(values: seq<Option<real>>, n: int, tau: real, start: real, realStart: real,
                       i: nat, k: nat, a: Arc, a': Arc)
    requires Total(values) > 0.0 && i < k < |values| && Counted(values, i) && Counted(values, k)
    requires IsArc(values, n, tau, start, realStart, i, a) && IsArc(values, n, tau, start, realStart, k, a')
    requires k == a.nextNotMissing || a'.prevNotMissing == i
    ensures a'.startAngle == a.endAngle
    ensures a'.startAngle + a'.realStartAngle == a.startAngle + a.realStartAngle == start + realStart
  {
    NothingBetween(values, Total(values), tau, i + 1, k);
  }

  lemma ShareOf(v: real, total: real, c: real)
    requires total > 0.0 && c > 0.0
    ensures Share(v, total, c) == (c / total) * v
    ensures Share(total, total, c) == c && Share(0.0, total, c) == 0.0
    ensures v <= total <==> Share(v, total, c) <= c
    ensures v >= total <==> Share(v, total, c) >= c
    ensures v >= 0.0 ==> Share(v, total, c) >= 0.0
  {
    QuotientIs(v, total, 0.0);
    QuotientIs(c, total, 0.0);
    QuotientIs(total, total, 1.0);
    QuotientIs(0.0, total, 0.0);
    var q := c / total;
    assert q * total == c;
    assert Share(v, total, c) == (v / total) * (q * total) == (v / total * total) * q;
    ScaleOrder(0.0, q, total);
    ScaleOrder(v, total, q);
    ScaleOrder(total, v, q);
    ScaleOrder(0.0, v, q);
  }

  lemma ShareAdds(v: real, w: real, total: real, c: real)
    requires total > 0.0 && c > 0.0
    ensures Share(v + w, total, c) == Share(v, total, c) + Share(w, total, c)
  {
    ShareOf(v, total, c);
    ShareOf(w, total, c);
    ShareOf(v + w, total, c);
  }

  /** The percentages of the first n values are those of their sum; over all values they make 100. */
  lemma {:induction false} PercentagesSum(values: seq<Option<real>>, n: nat)
    requires n <= |values| && Total(values) > 0.0
    ensures PercentSum(values, Total(values), n) == Share(CountedSum(values, n), Total(values), 100.0)
    ensures PercentSum(values, Total(values), n) == 100.0 <==> CountedSum(values, n) == Total(values)
  {
    var total := Total(values);
    ShareOf(CountedSum(values, n), total, 100.0);
    if n > 0 {
      PercentagesSum(values, n - 1);
      ShareAdds(CountedSum(values, n - 1), if Counted(values, n - 1) then values[n - 1].value else 0.0, total, 100.0);
      ShareOf(0.0, total, 100.0);
    }
  }

  predicate CarriesTotal(values: seq<Option<real>>, i: int) {
    Counted(values, i) && values[i].value == Total(values)
  }

  lemma {:induction false} PartBelowSum(values: seq<Option<real>>, n: nat, i: nat)
    requires i < n <= |values| && Counted(values, i)
    ensures CountedSum(values, i) + values[i].value <= CountedSum(values, n)
  {
    if i < n - 1 { PartBelowSum(values, n - 1, i); }
  }

  /** While no value carries the whole total, nothing is drawn short. */
  lemma {:induction false} ProportionalAngles(values: seq<Option<real>>, tau: real, n: nat)
    requires n <= |values| && Total(values) > 0.0 && tau > 0.0
    requires forall i | 0 <= i < n :: !CarriesTotal(values, i)
    ensures AngleSum(values, Total(values), tau, n) == Share(CountedSum(values, n), Total(values), tau)
  {
    var total := Total(values);
    if n == 0 {
      ShareOf(0.0, total, tau);
    } else {
      ProportionalAngles(values, tau, n - 1);
      var v := if Counted(values, n - 1) then values[n - 1].value else 0.0;
      ShareAdds(CountedSum(values, n - 1), v, total, tau);
      ShareOf(v, total, tau);
      ShareOf(0.0, total, tau);
      if Counted(values, n - 1) {
        assert !CarriesTotal(values, n - 1);
        PartBelowSum(values, |values|, n - 1);
      }
    }
  }

  /** A value that carries the whole total is drawn slightly short and alone. */
  lemma {:induction false} LoneAngle(values: seq<Option<real>>, tau: real, k: nat, n: nat)
    requires n <= |values| && Total(values) > 0.0 && tau > 0.001 && CarriesTotal(values, k)
    ensures AngleSum(values, Total(values), tau, n) == if k < n then tau - 0.001 else 0.0
  {
    var total := Total(values);
    PartBelowSum(values, |values|, k);
    ShareOf(total, total, tau);
    ShareOf(0.0, total, tau);
    if n > 0 {
      LoneAngle(values, tau, k, n - 1);
      if n - 1 != k && Counted(values, n - 1) {
        OthersAreZero(values, k, n - 1);
      }
    }
  }

  lemma OthersAreZero(values: seq<Option<real>>, k: nat, i: nat)
    requires i < |values| && i != k && CarriesTotal(values, k) && Counted(values, i)
    ensures values[i].value == 0.0
  {
    var first, last := if i < k then i else k, if i < k then k else i;
    PartBelowSum(values, last, first);
    PartBelowSum(values, |values|, last);
  }

  /** The arcs make a full circle, or one that is 0.001 short exactly when one value carries the total. */
  lemma AnglesSum(values: seq<Option<real>>, tau: real)
    requires Total(values) > 0.0 && tau > 0.001
    ensures AngleSum(values, Total(values), tau, |values|)
            == if exists k :: CarriesTotal(values, k) then tau - 0.001 else tau
  {
    if k :| CarriesTotal(values, k) {
      LoneAngle(values, tau, k, |values|);
    } else {
      ProportionalAngles(values, tau, |values|);
      ShareOf(Total(values), Total(values), tau);
    }
  }

  /** Arc i covers the angle x, counted from the start of the first arc. */
  predicate Sweeps(values: seq<Option<real>>, tau: real, i: nat, x: real)
    requires i < |values| && Total(values) > 0.0
  {
    Counted(values, i) && AngleSum(values, Total(values), tau, i) <= x < AngleSum(values, Total(values), tau, i + 1)
  }

  lemma {:induction false} AnglesGrow(values: seq<Option<real>>, tau: real, i: nat, n: nat)
    requires i <= n <= |values| && Total(values) > 0.0 && tau > 0.001
    ensures AngleSum(values, Total(values), tau, i) <= AngleSum(values, Total(values), tau, n)
  {
    if i < n {
      AnglesGrow(values, tau, i, n - 1);
      if Counted(values, n - 1) {
        ShareOf(values[n - 1].value, Total(values), tau);
      }
    }
  }

  /** The arcs tile their circle: every angle below their sum is swept by exactly one of them. */
  lemma {:induction false} ArcsTile(values: seq<Option<real>>, tau: real, n: nat, x: real)
    requires n <= |values| && Total(values) > 0.0 && tau > 0.001
    ensures 0.0 <= x < AngleSum(values, Total(values), tau, n)
            <==> exists i: nat :: i < n && Sweeps(values, tau, i, x)
    ensures forall i: nat, k: nat :: i < n && k < n && Sweeps(values, tau, i, x) && Sweeps(values, tau, k, x) ==> i == k
  {
    if n > 0 {
      ArcsTile(values, tau, n - 1, x);
      AnglesGrow(values, tau, 0, n - 1);
      forall i: nat | i < n - 1 && Sweeps(values, tau, i, x)
        ensures x < AngleSum(values, Total(values), tau, n - 1) <= AngleSum(values, Total(values), tau, n)
      {
        AnglesGrow(values, tau, i + 1, n - 1);
        AnglesGrow(values, tau, n - 1, n);
      }
      if AngleSum(values, Total(values), tau, n - 1) <= x < AngleSum(values, Total(values), tau, n) {
        assert Sweeps(values, tau, n - 1, x);
      }
      AnglesGrow(values, tau, n - 1, n);
    }
  }
}
