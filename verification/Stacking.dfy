/**
 Stacked bars (ChartNew.js): the quadratic loop that finds the value range (getValueBounds of
 StackedBar, without overrides) and the linear loop that stacks the bars (initPassVariableData_part2).

 Heights are kept as magnitudes per direction: up for positive data, down for negative data.
 */
module Stacking {
  import opened Numbers
  import opened AxisScale
  import opened AxisOffset
  import opened LineAxis

  /** data.datasets[i].data[j] for every dataset i and column j; rows may differ in length. */
  type Table = seq<seq<Option<real>>>

  function Cell(t: Table, i: nat, j: nat): Option<real> {
    if i < |t| && j < |t[i]| then t[i][j] else None
  }

  /** What a datum adds to the bars of the given direction. */
  function Part(d: Option<real>, up: bool): (m: real)
    ensures m >= 0.0
  {
    if d.Some? && up && d.value > 0.0 then d.value
    else if d.Some? && !up && d.value < 0.0 then -d.value
    else 0.0
  }

  /** The height in column j of the bars of the first n datasets in the given direction. */
  function Height(t: Table, j: nat, n: nat, up: bool): (h: real)
    ensures h >= 0.0
  {
    if n == 0 then 0.0 else Height(t, j, n - 1, up) + Part(Cell(t, n - 1, j), up)
  }

  function Signed(up: bool, m: real): real {
    if up then m else -m
  }

  lemma {:induction false} HeightGrows(t: Table, j: nat, m: nat, n: nat, up: bool)
    requires m <= n
    ensures Height(t, j, m, up) <= Height(t, j, n, up)
    ensures (forall k | m <= k < n :: Part(Cell(t, k, j), up) == 0.0) ==> Height(t, j, m, up) == Height(t, j, n, up)
  {
    if m < n {
      HeightGrows(t, j, m, n - 1, up);
    }
  }

  // ----- The quadratic bounds loop -----

  /** The partial sum in the given direction after the loop for dataset i has come down to dataset k. */
  function Partial(t: Table, j: nat, i: nat, k: nat, up: bool): real
    requires k <= i
  {
    if k == 0 then Height(t, j, 1, up) else Height(t, j, 1, up) + Height(t, j, i + 1, up) - Height(t, j, k, up)
  }

  /** The value compared with the bounds when the loop visits dataset k. */
  ghost function Visit(t: Table, j: nat, i: nat, k: nat): set<real>
    requires k <= i
  {
    var d := Cell(t, k, j);
    if d.None? then {} else {Signed(d.value > 0.0, Partial(t, j, i, k, d.value > 0.0))}
  }

  /** Dataset 0 is visited first, then i down to 1; here down to k + 1. */
  ghost function CellVisits(t: Table, j: nat, i: nat, k: nat): set<real>
    requires k <= i
    decreases i - k
  {
    if k == i then Visit(t, j, i, 0) else CellVisits(t, j, i, k + 1) + Visit(t, j, i, k + 1)
  }

  ghost function RowVisits(t: Table, i: nat, j: nat): set<real> {
    if j == 0 then {} else RowVisits(t, i, j - 1) + CellVisits(t, j - 1, i, 0)
  }

  ghost function AllVisits(t: Table, n: nat): set<real>
    requires n <= |t|
  {
    if n == 0 then {} else AllVisits(t, n - 1) + RowVisits(t, n - 1, |t[n - 1]|)
  }

  method GetStackedBounds(t: Table, zero: real, big: real) returns (bounds: Range)
    requires zero > 0.0 && big > 0.0
    ensures exists raw :: RangeOf(AllVisits(t, |t|), big, raw) && bounds == Widen(raw, zero)
    ensures Within(AllVisits(t, |t|), big) ==> IsBounds(AllVisits(t, |t|), zero, bounds)
  {
    var r := Range(big, -big);
    for i := 0 to |t|
      invariant RangeOf(AllVisits(t, i), big, r)
    {
      ghost var above := AllVisits(t, i);
      for j := 0 to |t[i]|
        invariant RangeOf(above + RowVisits(t, i, j), big, r)
      {
        ghost var before := above + RowVisits(t, i, j);
        r := VisitCell(t, i, j, big, r, before);
        assert before + CellVisits(t, j, i, 0) == above + RowVisits(t, i, j + 1);
      }
    }
    bounds := Widen(r, zero);
    if Within(AllVisits(t, |t|), big) {
      WidenMeans(AllVisits(t, |t|), zero, big, r);
    }
  }

  /** The innermost loop of getValueBounds: re-adds the column up to dataset i. */
  method VisitCell(t: Table, i: nat, j: nat, big: real, r0: Range, ghost before: set<real>) returns (r: Range)
    requires RangeOf(before, big, r0)
    ensures RangeOf(before + CellVisits(t, j, i, 0), big, r)
  {
    var k := i;
    var tempp, tempn := 0.0, 0.0;
    tempp, tempn, r := Accumulate(t, j, 0, tempp, tempn, big, r0, before);
    assert Height(t, j, 0, true) == Height(t, j, 0, false) == 0.0;
    VisitIs(t, j, i, 0, tempp, tempn);
    while k > 0
      invariant 0 <= k <= i
      invariant tempp == PartialBefore(t, j, i, k, true) && tempn == -PartialBefore(t, j, i, k, false)
      invariant RangeOf(before + CellVisits(t, j, i, k), big, r)
    {
      PartialStep(t, j, i, k);
      tempp, tempn, r := Accumulate(t, j, k, tempp, tempn, big, r, before + CellVisits(t, j, i, k));
      VisitIs(t, j, i, k, tempp, tempn);
      VisitNext(t, j, i, k, before);
      k := k - 1;
    }
  }

  lemma VisitIs(t: Table, j: nat, i: nat, k: nat, tempp: real, tempn: real)
    requires k <= i && tempp == Partial(t, j, i, k, true) && tempn == -Partial(t, j, i, k, false)
    ensures var d := Cell(t, k, j);
            Visit(t, j, i, k) == if d.None? then {} else {if d.value > 0.0 then tempp else tempn}
  {
  }

  lemma VisitNext(t: Table, j: nat, i: nat, k: nat, before: set<real>)
    requires 1 <= k <= i
    ensures (before + CellVisits(t, j, i, k)) + Visit(t, j, i, k) == before + CellVisits(t, j, i, k - 1)
  {
  }

  /** The partial sum with which the innermost loop reaches dataset k. */
  function PartialBefore(t: Table, j: nat, i: nat, k: nat, up: bool): real
    requires k <= i
  {
    if k == i then Partial(t, j, i, 0, up) else Partial(t, j, i, k + 1, up)
  }

  /** The loop body for one dataset: adds a datum to its direction's sum and compares that sum. */
  method Accumulate(t: Table, j: nat, k: nat, tempp: real, tempn: real, big: real, r: Range, ghost visited: set<real>)
    returns (tempp': real, tempn': real, r': Range)
    requires RangeOf(visited, big, r)
    ensures tempp' == tempp + Part(Cell(t, k, j), true) && tempn' == tempn - Part(Cell(t, k, j), false)
    ensures var d := Cell(t, k, j);
            RangeOf(visited + (if d.None? then {} else {if d.value > 0.0 then tempp' else tempn'}), big, r')
  {
    tempp', tempn', r' := tempp, tempn, r;
    var d := Cell(t, k, j);
    if d.Some? {
      var sum;
      if d.value > 0.0 {
        tempp' := tempp + d.value;
        sum := tempp';
      } else {
        tempn' := tempn + d.value;
        sum := tempn';
      }
      r' := Extend(r, sum);
      assert sum in visited + {sum};
    } else {
      assert visited + {} == visited;
    }
  }

  lemma PartialStep(t: Table, j: nat, i: nat, k: nat)
    requires 1 <= k <= i
    ensures forall up :: Partial(t, j, i, k, up) == PartialBefore(t, j, i, k, up) + Part(Cell(t, k, j), up)
  {
  }

  // ----- What the bounds loop has to do with the stack -----

  /** The value at which bar (i, j) starts, and the one at which it ends, when stacked in dataset order. */
  function BotVal(t: Table, i: nat, j: nat, v: real): real {
    Signed(v >= 0.0, Height(t, j, i, v >= 0.0))
  }

  function TopVal(t: Table, i: nat, j: nat, v: real): real {
    Signed(v >= 0.0, Height(t, j, i + 1, v >= 0.0))
  }

  ghost predicate IsDatum(t: Table, i: nat, j: nat, v: real) {
    Cell(t, i, j) == Some(v)
  }

  lemma {:induction false} VisitInCell(t: Table, j: nat, i: nat, k: nat, k': nat)
    requires k <= i && (k' == 0 || k < k' <= i)
    ensures Visit(t, j, i, k') <= CellVisits(t, j, i, k)
    decreases i - k
  {
    if k < i && k' != k + 1 {
      VisitInCell(t, j, i, k + 1, k');
    }
  }

  lemma {:induction false} CellInRow(t: Table, i: nat, n: nat, j: nat)
    requires j < n
    ensures CellVisits(t, j, i, 0) <= RowVisits(t, i, n)
  {
    if j < n - 1 {
      CellInRow(t, i, n - 1, j);
    }
  }

  lemma {:induction false} CellInAll(t: Table, n: nat, i: nat, j: nat)
    requires i < n <= |t| && j < |t[i]|
    ensures CellVisits(t, j, i, 0) <= AllVisits(t, n)
  {
    if i < n - 1 {
      CellInAll(t, n - 1, i, j);
    } else {
      CellInRow(t, i, |t[i]|, j);
    }
  }

  /** The first dataset from k on that adds to the given direction. */
  lemma {:induction false} FirstPart(t: Table, j: nat, k: nat, i: nat, up: bool) returns (f: nat)
    requires k <= i && Part(Cell(t, i, j), up) > 0.0
    ensures k <= f <= i && Part(Cell(t, f, j), up) > 0.0 && Height(t, j, f, up) == Height(t, j, k, up)
    decreases i - k
  {
    if Part(Cell(t, k, j), up) > 0.0 {
      f := k;
    } else {
      f := FirstPart(t, j, k + 1, i, up);
    }
  }

  /** The last dataset up to i that adds to the given direction. */
  lemma {:induction false} LastPart(t: Table, j: nat, i: nat, up: bool) returns (l: nat)
    requires Height(t, j, i + 1, up) > 0.0
    ensures l <= i && Part(Cell(t, l, j), up) > 0.0 && Height(t, j, l + 1, up) == Height(t, j, i + 1, up)
  {
    if Part(Cell(t, i, j), up) > 0.0 {
      l := i;
    } else {
      l := LastPart(t, j, i - 1, up);
    }
  }

  /** The loop for dataset i, though it adds in another order, visits the end of that dataset's bar. */
  lemma TopVisited(t: Table, i: nat, j: nat, v: real)
    requires IsDatum(t, i, j, v) && v != 0.0
    ensures TopVal(t, i, j, v) in CellVisits(t, j, i, 0)
  {
    var up := v > 0.0;
    if i == 0 {
      VisitInCell(t, j, i, 0, 0);
    } else {
      var f := FirstPart(t, j, 1, i, up);
      VisitInCell(t, j, i, 0, f);
      assert Visit(t, j, i, f) == {Signed(up, Height(t, j, i + 1, up))};
    }
  }

  lemma VisitBounded(t: Table, j: nat, i: nat, k: nat, x: real)
    requires k <= i && x in Visit(t, j, i, k)
    ensures x > 0.0 ==> x <= Height(t, j, i + 1, true)
    ensures x < 0.0 ==> -x <= Height(t, j, i + 1, false)
  {
    var up := Cell(t, k, j).value > 0.0;
    HeightGrows(t, j, 1, i + 1, up);
    HeightGrows(t, j, k, i + 1, up);
    if k > 0 { HeightGrows(t, j, 1, k, up); }
    assert 0.0 <= Partial(t, j, i, k, up) <= Height(t, j, i + 1, up);
  }

  /** No visited value goes beyond the stack of the datasets up to i. */
  lemma {:induction false} CellBounded(t: Table, j: nat, i: nat, k: nat, x: real)
    requires k <= i && x in CellVisits(t, j, i, k)
    ensures x > 0.0 ==> x <= Height(t, j, i + 1, true)
    ensures x < 0.0 ==> -x <= Height(t, j, i + 1, false)
    decreases i - k
  {
    if k == i {
      VisitBounded(t, j, i, 0, x);
    } else if x in CellVisits(t, j, i, k + 1) {
      CellBounded(t, j, i, k + 1, x);
    } else {
      VisitBounded(t, j, i, k + 1, x);
    }
  }

  lemma {:induction false} RowBounded(t: Table, i: nat, n: nat, x: real) returns (j: nat)
    requires x in RowVisits(t, i, n)
    ensures j < n
    ensures x > 0.0 ==> x <= Height(t, j, i + 1, true)
    ensures x < 0.0 ==> -x <= Height(t, j, i + 1, false)
  {
    if x in CellVisits(t, n - 1, i, 0) {
      j := n - 1;
      CellBounded(t, j, i, 0, x);
    } else {
      j := RowBounded(t, i, n - 1, x);
    }
  }

  /** Every visited value other than 0 is at most the end of some bar in its direction. */
  lemma {:induction false} AllBounded(t: Table, n: nat, x: real) returns (i: nat, j: nat, v: real)
    requires n <= |t| && x in AllVisits(t, n) && x != 0.0
    ensures IsDatum(t, i, j, v) && v != 0.0 && (v > 0.0 <==> x > 0.0)
    ensures if x > 0.0 then x <= TopVal(t, i, j, v) else TopVal(t, i, j, v) <= x
  {
    if x in AllVisits(t, n - 1) {
      i, j, v := AllBounded(t, n - 1, x);
    } else {
      var up := x > 0.0;
      j := RowBounded(t, n - 1, |t[n - 1]|, x);
      i := LastPart(t, j, n - 1, up);
      v := Cell(t, i, j).value;
      assert Part(Cell(t, i, j), up) > 0.0;
      assert (v >= 0.0) == up && v != 0.0;
      assert TopVal(t, i, j, v) == Signed(up, Height(t, j, n, up));
    }
  }

  /**
   The quadratic bounds loop refines the linear stacker: its range contains the end of every bar, and
   the bound of a direction in which there are bars is the end of one of them.
   */
  lemma BoundsRefineStacking(t: Table, big: real, raw: Range)
    requires RangeOf(AllVisits(t, |t|), big, raw) && big > 0.0
    ensures forall i: nat, j: nat, v | IsDatum(t, i, j, v) && v != 0.0 :: raw.lower <= TopVal(t, i, j, v) <= raw.upper
    ensures (exists i: nat, j: nat, v :: IsDatum(t, i, j, v) && v > 0.0)
            ==> exists i: nat, j: nat, v :: IsDatum(t, i, j, v) && v > 0.0 && raw.upper == TopVal(t, i, j, v)
    ensures (exists i: nat, j: nat, v :: IsDatum(t, i, j, v) && v < 0.0)
            ==> exists i: nat, j: nat, v :: IsDatum(t, i, j, v) && v < 0.0 && raw.lower == TopVal(t, i, j, v)
  {
    forall i: nat, j: nat, v | IsDatum(t, i, j, v) && v != 0.0
      ensures raw.lower <= TopVal(t, i, j, v) <= raw.upper
      ensures v > 0.0 ==> TopVal(t, i, j, v) > 0.0
      ensures v < 0.0 ==> TopVal(t, i, j, v) < 0.0
    {
      TopVisited(t, i, j, v);
      CellInAll(t, |t|, i, j);
    }
    if i: nat, j: nat, v :| IsDatum(t, i, j, v) && v > 0.0 {
      assert TopVal(t, i, j, v) > 0.0;
      var i', j', v' := AllBounded(t, |t|, raw.upper);
    }
    if i: nat, j: nat, v :| IsDatum(t, i, j, v) && v < 0.0 {
      assert TopVal(t, i, j, v) < 0.0;
      var i', j', v' := AllBounded(t, |t|, raw.lower);
    }
  }

  /** A datum that is visited alone: of dataset 0, or of a column in which dataset 0 has none. */
  ghost predicate Alone(t: Table, i: nat, j: nat, v: real) {
    IsDatum(t, i, j, v) && (i == 0 || Cell(t, 0, j).None?)
  }

  /** All data are positive, or all negative. */
  ghost predicate OneSided(t: Table, up: bool) {
    forall i: nat, j: nat, v :: IsDatum(t, i, j, v) ==> v != 0.0 && (v > 0.0) == up
  }

  /** No visited value is nearer to 0 than some datum that is visited alone. */
  lemma VisitBeyond(t: Table, j: nat, i: nat, k: nat, up: bool, x: real) returns (a: nat, v: real)
    requires k <= i && x in Visit(t, j, i, k) && OneSided(t, up)
    ensures Alone(t, a, j, v) && if up then v <= x else x <= v
  {
    assert IsDatum(t, k, j, Cell(t, k, j).value);
    a := if Cell(t, 0, j).Some? then 0 else k;
    v := Cell(t, a, j).value;
    assert IsDatum(t, a, j, v);
    if k > 0 {
      HeightGrows(t, j, k, i + 1, up);
      HeightGrows(t, j, k + 1, i + 1, up);
    }
  }

  lemma {:induction false} CellBeyond(t: Table, j: nat, i: nat, k: nat, up: bool, x: real) returns (a: nat, v: real)
    requires k <= i && x in CellVisits(t, j, i, k) && OneSided(t, up)
    ensures Alone(t, a, j, v) && if up then v <= x else x <= v
    decreases i - k
  {
    if k == i {
      a, v := VisitBeyond(t, j, i, 0, up, x);
    } else if x in CellVisits(t, j, i, k + 1) {
      a, v := CellBeyond(t, j, i, k + 1, up, x);
    } else {
      a, v := VisitBeyond(t, j, i, k + 1, up, x);
    }
  }

  lemma {:induction false} RowBeyond(t: Table, i: nat, n: nat, up: bool, x: real) returns (a: nat, j: nat, v: real)
    requires x in RowVisits(t, i, n) && OneSided(t, up)
    ensures Alone(t, a, j, v) && if up then v <= x else x <= v
  {
    if x in CellVisits(t, n - 1, i, 0) {
      j := n - 1;
      a, v := CellBeyond(t, j, i, 0, up, x);
    } else {
      a, j, v := RowBeyond(t, i, n - 1, up, x);
    }
  }

  lemma {:induction false} AllBeyond(t: Table, n: nat, up: bool, x: real) returns (a: nat, j: nat, v: real)
    requires n <= |t| && x in AllVisits(t, n) && OneSided(t, up)
    ensures Alone(t, a, j, v) && if up then v <= x else x <= v
  {
    if x in AllVisits(t, n - 1) {
      a, j, v := AllBeyond(t, n - 1, up, x);
    } else {
      a, j, v := RowBeyond(t, n - 1, |t[n - 1]|, up, x);
    }
  }

  lemma AloneVisited(t: Table, i: nat, j: nat, v: real)
    requires Alone(t, i, j, v) && v != 0.0
    ensures v in AllVisits(t, |t|)
  {
    VisitInCell(t, j, i, 0, i);
    CellInAll(t, |t|, i, j);
    assert Height(t, j, i + 1, v > 0.0) == Height(t, j, i, v > 0.0) + Part(Cell(t, i, j), v > 0.0);
    assert Height(t, j, 1, v > 0.0) == Part(Cell(t, 0, j), v > 0.0);
    assert v in Visit(t, j, i, i);
  }

  /** Of one-sided data the range starts, on the side of 0, at the nearest datum that is visited alone. */
  lemma NearBound(t: Table, big: real, raw: Range, up: bool, i: nat, j: nat, v: real) returns (i': nat, j': nat, v': real)
    requires RangeOf(AllVisits(t, |t|), big, raw) && big > 0.0 && Within(AllVisits(t, |t|), big) && OneSided(t, up)
    requires Alone(t, i, j, v)
    ensures if up then raw.lower <= v else v <= raw.upper
    ensures Alone(t, i', j', v') && v' == if up then raw.lower else raw.upper
  {
    assert IsDatum(t, i, j, v);
    AloneVisited(t, i, j, v);
    var x := if up then raw.lower else raw.upper;
    assert raw.lower <= v <= raw.upper && -big <= v <= big;
    i', j', v' := AllBeyond(t, |t|, up, x);
    assert IsDatum(t, i', j', v');
    AloneVisited(t, i', j', v');
  }

  // ----- The linear stacker -----

  /** Where the bars are drawn: the axis scale, the pixel position of the x axis, and spaceBetweenBar. */
  datatype Layout = Layout(scale: Scale, scaleHop: real, xAxisPosY: real, space: real)

  datatype Bar = Bar(botval: real, topval: real, yPosBottom: real, yPosTop: real)

  function PixelOf(v: real, l: Layout): real
    requires Outer(l.scale) != 0.0
  {
    l.xAxisPosY - CalculateOffset(v, l.scale, l.scaleHop)
  }

  /** The bar of datum v, which starts at bot and of whose direction sum is the new height. */
  function PlaceBar(v: real, bot: real, sum: real, l: Layout): Bar
    requires Outer(l.scale) != 0.0
  {
    var top := bot + v;
    var yTop, yBottom := PixelOf(top, l), PixelOf(bot, l);
    if l.space > 0.0 && v < 0.0 then
      var y := if sum == v then yBottom + l.space - l.space / 2.0 else yBottom + l.space;
      Bar(bot, top, if yTop < y then yTop else y, yTop)
    else if l.space > 0.0 && v > 0.0 then
      var y := if sum == v then yBottom - l.space + l.space / 2.0 else yBottom - l.space;
      Bar(bot, top, if yTop > y then yTop else y, yTop)
    else Bar(bot, top, yBottom, yTop)
  }

  /** The bar that belongs to a datum, in terms of the heights of the datasets before it. */
  function BarAt(t: Table, i: nat, j: nat, l: Layout): Option<Bar>
    requires Outer(l.scale) != 0.0
  {
    var d := Cell(t, i, j);
    if d.None? then None else Some(PlaceBar(d.value, BotVal(t, i, j, d.value), TopVal(t, i, j, d.value), l))
  }

  /** The first bar of its direction in column j. */
  predicate IsFirst(t: Table, i: nat, j: nat, v: real) {
    forall k: nat | k < i && Cell(t, k, j).Some? ::
      if v < 0.0 then Cell(t, k, j).value >= 0.0 else Cell(t, k, j).value <= 0.0
  }

  predicate IsPixel(y: real, v: real, l: Layout) {
    DrawnAt(l.xAxisPosY - y, v, l.scale, l.scaleHop)
  }

  /**
   The bar of datum v from botval to topval. Its start is moved by the space between bars, by half of it
   for the first bar, but not past its end; pixels count downwards.
   */
  ghost predicate IsDrawn(t: Table, i: nat, j: nat, v: real, l: Layout, b: Bar) {
    && b.topval == b.botval + v && (IsFirst(t, i, j, v) ==> b.botval == 0.0)
    && IsPixel(b.yPosTop, b.topval, l)
    && var space := if l.space <= 0.0 then 0.0 else if IsFirst(t, i, j, v) then l.space / 2.0 else l.space;
       exists y :: IsPixel(y, b.botval, l) &&
         b.yPosBottom == if space == 0.0 || v == 0.0 then y
                         else if v > 0.0 then (if y - space < b.yPosTop then b.yPosTop else y - space)
                         else if y + space > b.yPosTop then b.yPosTop else y + space
  }

  lemma {:induction false} FirstStartsAtZero(t: Table, i: nat, j: nat, v: real)
    ensures IsFirst(t, i, j, v) <==> Height(t, j, i, v >= 0.0) == 0.0
  {
    if i > 0 {
      FirstStartsAtZero(t, i - 1, j, v);
      assert Part(Cell(t, i - 1, j), v >= 0.0) == 0.0
        <==> Cell(t, i - 1, j).None? || if v < 0.0 then Cell(t, i - 1, j).value >= 0.0 else Cell(t, i - 1, j).value <= 0.0;
      assert IsFirst(t, i, j, v) <==> IsFirst(t, i - 1, j, v) && Part(Cell(t, i - 1, j), v >= 0.0) == 0.0;
    }
  }

  /** Every bar is drawn so. */
  lemma BarIsDrawn(t: Table, i: nat, j: nat, v: real, l: Layout)
    requires Drawable(l.scale) && IsDatum(t, i, j, v)
    ensures Outer(l.scale) > 0.0 && IsDrawn(t, i, j, v, l, BarAt(t, i, j, l).value)
  {
    OffsetIs(BotVal(t, i, j, v), l.scale, l.scaleHop);
    OffsetIs(TopVal(t, i, j, v), l.scale, l.scaleHop);
    FirstStartsAtZero(t, i, j, v);
    assert IsPixel(PixelOf(BotVal(t, i, j, v), l), BotVal(t, i, j, v), l);
  }

  method StackBars(t: Table, l: Layout) returns (bars: seq<seq<Option<Bar>>>)
    requires Outer(l.scale) != 0.0
    ensures |bars| == |t|
    ensures forall i | 0 <= i < |t| :: |bars[i]| == |t[i]|
    ensures forall i, j | 0 <= i < |t| && 0 <= j < |t[i]| :: bars[i][j] == BarAt(t, i, j, l)
    ensures forall i, j | 0 <= i < |t| && 0 <= j < |t[i]| && Drawable(l.scale) && t[i][j].Some? ::
              bars[i][j].Some? && IsDrawn(t, i, j, t[i][j].value, l, bars[i][j].value)
  {
    bars := [];
    var tempp: map<nat, real>, tempn: map<nat, real> := map[], map[];
    for i := 0 to |t|
      invariant |bars| == i
      invariant forall m | 0 <= m < i :: |bars[m]| == |t[m]|
      invariant forall m, j | 0 <= m < i && 0 <= j < |t[m]| :: bars[m][j] == BarAt(t, m, j, l)
      invariant forall j: nat :: Sums(t, tempp, tempn, i, j)
    {
      var row;
      row, tempp, tempn := StackRow(t, i, l, tempp, tempn);
      bars := bars + [row];
    }
    forall i, j | 0 <= i < |t| && 0 <= j < |t[i]| && Drawable(l.scale) && t[i][j].Some?
      ensures bars[i][j].Some? && IsDrawn(t, i, j, t[i][j].value, l, bars[i][j].value)
    {
      BarIsDrawn(t, i, j, t[i][j].value, l);
    }
  }

  /** The loop over the columns of one dataset. */
  method StackRow(t: Table, i: nat, l: Layout, tempp0: map<nat, real>, tempn0: map<nat, real>)
    returns (row: seq<Option<Bar>>, tempp: map<nat, real>, tempn: map<nat, real>)
    requires i < |t| && Outer(l.scale) != 0.0
    requires forall j: nat :: Sums(t, tempp0, tempn0, i, j)
    ensures |row| == |t[i]| && forall j | 0 <= j < |row| :: row[j] == BarAt(t, i, j, l)
    ensures var next := i + 1; forall j: nat :: Sums(t, tempp, tempn, next, j)
  {
    row, tempp, tempn := [], tempp0, tempn0;
    ghost var next := i + 1;
    for j := 0 to |t[i]|
      invariant |row| == j
      invariant forall m | 0 <= m < j :: row[m] == BarAt(t, i, m, l)
      invariant forall m: nat :: m < j ==> Sums(t, tempp, tempn, next, m)
      invariant forall m: nat :: m >= j ==> Sums(t, tempp, tempn, i, m)
    {
      ghost var p0, n0 := tempp, tempn;
      assert Sums(t, p0, n0, i, j);
      if j !in tempp {
        tempp := tempp[j := 0.0];
        tempn := tempn[j := 0.0];
      }
      var d := t[i][j];
      if d.None? {
        row := row + [None];
      } else if d.value < 0.0 {
        var bot := tempn[j];
        tempn := tempn[j := bot + d.value];
        row := row + [Some(PlaceBar(d.value, bot, tempn[j], l))];
      } else {
        var bot := tempp[j];
        tempp := tempp[j := bot + d.value];
        row := row + [Some(PlaceBar(d.value, bot, tempp[j], l))];
      }
      forall m: nat
        ensures m <= j ==> Sums(t, tempp, tempn, next, m)
        ensures m > j ==> Sums(t, tempp, tempn, i, m)
      {
        assert m < j ==> Sums(t, p0, n0, next, m);
        assert m > j ==> Sums(t, p0, n0, i, m);
      }
    }
    forall m: nat ensures Sums(t, tempp, tempn, next, m) {
      if m >= |t[i]| {
        assert Sums(t, tempp, tempn, i, m) && Cell(t, i, m).None?;
      }
    }
  }

  /** The two running sums of column j after n datasets; unset until the column first occurs. */
  ghost predicate Sums(t: Table, tempp: map<nat, real>, tempn: map<nat, real>, n: nat, j: nat) {
    && (j in tempp <==> j in tempn)
    && Height(t, j, n, true) == (if j in tempp then tempp[j] else 0.0)
    && -Height(t, j, n, false) == (if j in tempn then tempn[j] else 0.0)
  }

  // ----- Tiling -----

  /** Bar i of column j covers the height m in the given direction. */
  predicate Covers(t: Table, j: nat, i: nat, up: bool, m: real) {
    Part(Cell(t, i, j), up) > 0.0 && Height(t, j, i, up) <= m < Height(t, j, i + 1, up)
  }

  /** The bars of one direction tile the column: each height up to the total is covered exactly once. */
  lemma {:induction false} BarsTileColumn(t: Table, j: nat, n: nat, up: bool, m: real)
    ensures 0.0 <= m < Height(t, j, n, up) <==> exists i: nat :: i < n && Covers(t, j, i, up, m)
    ensures forall i: nat, i': nat :: i < n && i' < n && Covers(t, j, i, up, m) && Covers(t, j, i', up, m) ==> i == i'
  {
    if n > 0 {
      BarsTileColumn(t, j, n - 1, up, m);
      forall i: nat | i < n - 1 && Covers(t, j, i, up, m)
        ensures m < Height(t, j, n - 1, up)
      {
        HeightGrows(t, j, i + 1, n - 1, up);
      }
      if Height(t, j, n - 1, up) <= m < Height(t, j, n, up) {
        assert Covers(t, j, n - 1, up, m);
      }
    }
  }

  /** The covered heights are the values between the ends of the bar drawn for that datum. */
  lemma CoverIsBar(t: Table, j: nat, i: nat, v: real, m: real)
    requires IsDatum(t, i, j, v) && v != 0.0
    ensures Covers(t, j, i, v > 0.0, m)
            <==> (if v > 0.0 then BotVal(t, i, j, v) <= m < TopVal(t, i, j, v)
                  else TopVal(t, i, j, v) < -m <= BotVal(t, i, j, v))
  {
  }

  // ----- Pixels -----

  /**
   A bar is never drawn inside out, and it touches the next bar in its direction, clipped or not, up to
   the space between bars.
   */
  lemma BarsAbut(t: Table, j: nat, i: nat, i': nat, v: real, v': real, l: Layout)
    requires Drawable(l.scale) && l.scaleHop >= 0.0 && l.space >= 0.0
    requires i < i' && IsDatum(t, i, j, v) && IsDatum(t, i', j, v') && v != 0.0 && v' != 0.0
    requires (v > 0.0) == (v' > 0.0)
    requires forall k | i < k < i' :: Part(Cell(t, k, j), v > 0.0) == 0.0
    ensures Outer(l.scale) > 0.0
    ensures var lower, upper := BarAt(t, i, j, l).value, BarAt(t, i', j, l).value;
            && lower.topval == upper.botval
            && (v' > 0.0 ==> upper.yPosTop <= upper.yPosBottom <= lower.yPosTop <= upper.yPosBottom + l.space
                             || upper.yPosTop == upper.yPosBottom <= lower.yPosTop)
            && (v' < 0.0 ==> upper.yPosTop >= upper.yPosBottom >= lower.yPosTop >= upper.yPosBottom - l.space
                             || upper.yPosTop == upper.yPosBottom >= lower.yPosTop)
            && (l.space == 0.0 ==> upper.yPosBottom == lower.yPosTop)
  {
    OuterPositive(l.scale);
    HeightGrows(t, j, i + 1, i', v > 0.0);
    var bot, top := BotVal(t, i', j, v'), TopVal(t, i', j, v');
    assert top == bot + v';
    if v' > 0.0 {
      OffsetStrictlyIncreasing(bot, top, l.scale, l.scaleHop);
    } else {
      OffsetStrictlyIncreasing(top, bot, l.scale, l.scaleHop);
    }
  }

  /**
   End to end: with clean bounds and at least five allowed steps, the end of no bar with a value other
   than 0 is clipped.
   */
  lemma StackedEndToEnd(t: Table, big: real, raw: Range, c: AxisInput, s: Scale,
                        i: nat, j: nat, v: real, scaleHop: real)
    requires FromData(AllVisits(t, |t|), big, raw, c) && (MovedOffZero(raw, c.zero) ==> Resolves(c))
    requires c.Searchable() && c.CleanBounds() && c.maxSteps >= 5 && ScaleFor(c, s)
    requires IsDatum(t, i, j, v) && v != 0.0 && scaleHop > 0.0
    ensures Inside(TopVal(t, i, j, v), s) && Outer(s) > 0.0
    ensures CalculateOffset(TopVal(t, i, j, v), s, scaleHop) * s.stepValue
            == scaleHop * (TopVal(t, i, j, v) - s.graphMin)
  {
    TopVisited(t, i, j, v);
    CellInAll(t, |t|, i, j);
    DataInsideScale(AllVisits(t, |t|), big, raw, c, s);
    LineEndToEnd(AllVisits(t, |t|), big, raw, c, s, scaleHop);
  }
}
