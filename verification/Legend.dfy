/**
 The legend (ChartNew.js): setMeasures decides how many rows and columns it has, drawLegend fills them.
 A title is given by the width of its text; a missing or blank title is None.
 */
module Legend {
  import opened Numbers

  type Titles = seq<Option<real>>

  datatype Measure = Measure(widest: real, gap: real, lines: int, cols: int)

  /** No legend is wanted, not even one cell fits on a line, or the legend is laid out as measured. */
  datatype LegendMsr = Hidden | Overflow | Shown(msr: Measure)

  function CeilDiv(n: int, d: int): int
    requires d > 0
  {
    Ceil(n as real / d as real)
  }

  /** How many cells of the given width fit on a line, limited by config.maxLegendCols. */
  function MaxOnLine(available: real, widest: real, gap: real, maxCols: int): int
    requires widest + gap > 0.0
  {
    Min(Floor((available + gap) / (widest + gap)), maxCols)
  }

  function VisibleCount(titles: Titles, n: nat): (c: nat)
    requires n <= |titles|
  {
    if n == 0 then 0 else VisibleCount(titles, n - 1) + (if titles[n - 1].Some? then 1 else 0)
  }

  /** w is the width of the widest title, or 0. */
  ghost predicate IsWidest(titles: Titles, w: real) {
    && (forall i | 0 <= i < |titles| && titles[i].Some? :: titles[i].value <= w)
    && (w == 0.0 || Some(w) in titles)
  }

  /** The layout of n titles in cells of the given width. */
  predicate IsMeasured(r: LegendMsr, n: nat, widest: real, gap: real, available: real, maxCols: int)
    requires widest + gap > 0.0
  {
    var maxLegendOnLine := MaxOnLine(available, widest, gap, maxCols);
    if maxLegendOnLine < 1 then r == Overflow
    else
      && r.Shown? && r.msr.widest == widest && r.msr.gap == gap
      && r.msr.lines == CeilDiv(n, maxLegendOnLine) > 0
      && r.msr.cols == CeilDiv(n, r.msr.lines)
  }

  /** box is the width of the colour box and the space behind it. */
  method SetMeasures(titles: Titles, box: real, gap: real, available: real, maxCols: int, showSingle: bool)
    returns (r: LegendMsr)
    requires box > 0.0 && gap >= 0.0
    ensures var n := VisibleCount(titles, |titles|);
            if !(n > 1 || (n == 1 && showSingle)) then r == Hidden
            else exists text :: text >= 0.0 && IsWidest(titles, text) && IsMeasured(r, n, text + box, gap, available, maxCols)
    ensures r.Shown? ==> forall i | 0 <= i < |titles| && titles[i].Some? :: titles[i].value + box <= r.msr.widest
  {
    var count, widest := 0, 0.0;
    var i := |titles| - 1;
    while i >= 0
      invariant -1 <= i < |titles|
      invariant count + VisibleCount(titles, i + 1) == VisibleCount(titles, |titles|)
      invariant forall k | i < k < |titles| && titles[k].Some? :: titles[k].value <= widest
      invariant widest >= 0.0 && (widest == 0.0 || Some(widest) in titles)
    {
      if titles[i].Some? {
        count := count + 1;
        widest := if titles[i].value > widest then titles[i].value else widest;
      }
      i := i - 1;
    }
    ghost var text := widest;
    assert IsWidest(titles, text);
    r := Hidden;
    if count > 1 || (count == 1 && showSingle) {
      widest := widest + box;
      var maxLegendOnLine := MaxOnLine(available, widest, gap, maxCols);
      if maxLegendOnLine < 1 {
        r := Overflow;
      } else {
        RowsAndColumns(count, maxLegendOnLine);
        var lines := CeilDiv(count, maxLegendOnLine);
        r := Shown(Measure(widest, gap, lines, CeilDiv(count, lines)));
      }
      assert IsMeasured(r, count, text + box, gap, available, maxCols);
    }
  }

  /** The number of cells in a block of rows and columns. */
  function Cells(rows: int, cols: int): int {
    rows * cols
  }

  lemma CellsFacts(rows: int, cols: int)
    ensures Cells(rows, cols) == Cells(cols, rows)
    ensures Cells(0, cols) == 0 && Cells(rows + 1, cols) == Cells(rows, cols) + cols
    ensures rows as real * cols as real == Cells(rows, cols) as real
  {
  }

  lemma CellsOrder(rows: int, cols: int, cols': int)
    requires rows >= 0 && cols <= cols'
    ensures Cells(rows, cols) <= Cells(rows, cols')
  {
    MulOrder(cols, cols', rows);
    CellsFacts(rows, cols);
    CellsFacts(rows, cols');
  }

  /** c rows suffice for n cells exactly when they have that many. */
  lemma CeilDivOrder(n: int, d: int, c: int)
    requires d > 0
    ensures CeilDiv(n, d) <= c <==> n <= Cells(c, d)
  {
    QuotientOrder(n as real, c as real, d as real);
    CellsFacts(c, d);
  }

  /**
   Dividing n titles into lines of at most max, and then evenly into columns, needs no more than max
   columns, and filling those columns row by row takes exactly the measured number of lines.
   */
  lemma RowsAndColumns(n: int, max: int)
    requires n >= 1 && max >= 1
    ensures CeilDiv(n, max) >= 1
    ensures var cols := CeilDiv(n, CeilDiv(n, max));
            1 <= cols <= max && CeilDiv(n, cols) == CeilDiv(n, max)
  {
    var lines := CeilDiv(n, max);
    CellsFacts(0, max);
    CeilDivOrder(n, max, 0);
    var cols := CeilDiv(n, lines);
    CellsFacts(0, lines);
    CeilDivOrder(n, lines, 0);
    FewerColumns(n, max, lines, cols);
  }

  lemma FewerColumns(n: int, max: int, lines: int, cols: int)
    requires n >= 1 && max >= 1 && lines == CeilDiv(n, max) >= 1 && cols == CeilDiv(n, lines) >= 1
    ensures cols <= max && CeilDiv(n, cols) == lines
  {
    CellsFacts(lines, max);
    CellsFacts(lines, cols);
    CeilDivOrder(n, max, lines);
    CeilDivOrder(n, lines, max);
    CeilDivOrder(n, lines, cols);
    CeilDivOrder(n, cols, lines);
    CellsOrder(lines - 1, cols, max);
    CeilDivOrder(n, max, lines - 1);
    CeilDivOrder(n, cols, lines - 1);
  }

  // ----- Drawing -----

  /** Where a title is drawn, and which one it is. */
  datatype Drawn = Drawn(title: int, xpos: real, ypos: real)

  /** The visible titles among the last n looked at, in drawing order: from the end, or reversed. */
  function DrawOrder(titles: Titles, reverse: bool, from: int): seq<int>
    requires 0 <= from <= |titles|
    decreases from
  {
    if from == 0 then []
    else
      var i := from - 1;
      var orderi := if reverse then |titles| - i - 1 else i;
      if titles[orderi].Some? then [orderi] + DrawOrder(titles, reverse, from - 1)
      else DrawOrder(titles, reverse, from - 1)
  }

  /** Every visible title is drawn exactly once, from the last to the first or in reverse. */
  lemma {:induction false} EveryTitleDrawnOnce(titles: Titles, reverse: bool, from: nat)
    requires from <= |titles|
    ensures forall i :: i in DrawOrder(titles, reverse, from)
              <==> 0 <= i < |titles| && titles[i].Some? && (if reverse then i >= |titles| - from else i < from)
    ensures forall a, b | 0 <= a < b < |DrawOrder(titles, reverse, from)| ::
              if reverse then DrawOrder(titles, reverse, from)[a] < DrawOrder(titles, reverse, from)[b]
              else DrawOrder(titles, reverse, from)[a] > DrawOrder(titles, reverse, from)[b]
  {
    if from > 0 {
      EveryTitleDrawnOnce(titles, reverse, from - 1);
      var rest := DrawOrder(titles, reverse, from - 1);
      forall k | 0 <= k < |rest| ensures rest[k] in rest {}
    }
  }

  function ColumnX(m: Measure, x: real, col: int): real {
    x + Times(col, m.widest + m.gap)
  }

  function RowY(rowHeight: real, y: real, row: int): real {
    y + Times(row, rowHeight)
  }

  /** The column and row of the k-th cell when cells are filled row by row. */
  function Col(k: nat, cols: int): (c: int)
    requires cols >= 1
    ensures 0 <= c < cols
  {
    if k == 0 then 0 else if Col(k - 1, cols) + 1 == cols then 0 else Col(k - 1, cols) + 1
  }

  function Row(k: nat, cols: int): (r: int)
    requires cols >= 1
  {
    if k == 0 then 0 else if Col(k - 1, cols) + 1 == cols then Row(k - 1, cols) + 1 else Row(k - 1, cols)
  }

  lemma {:induction false} RowAndColOf(k: nat, cols: int)
    requires cols >= 1
    ensures k == Cells(Row(k, cols), cols) + Col(k, cols)
    ensures Col(k, cols) == k % cols && Row(k, cols) == k / cols
  {
    if k > 0 {
      RowAndColOf(k - 1, cols);
      CellsFacts(Row(k - 1, cols), cols);
    }
    DivModIs(k, cols, Row(k, cols), Col(k, cols));
  }

  function CellOf(m: Measure, x: real, y: real, rowHeight: real, title: int, k: nat): Drawn
    requires m.cols >= 1
  {
    Drawn(title, ColumnX(m, x, Col(k, m.cols)), RowY(rowHeight, y, Row(k, m.cols)))
  }

  method DrawLegend(titles: Titles, reverse: bool, m: Measure, x: real, y: real, rowHeight: real)
    returns (drawn: seq<Drawn>)
    requires m.cols >= 1
    ensures Placed(m, x, y, rowHeight, DrawOrder(titles, reverse, |titles|), drawn)
    ensures forall k | 0 <= k < |drawn| ::
              && drawn[k].xpos == x + Times(k % m.cols, m.widest + m.gap)
              && drawn[k].ypos == y + Times(k / m.cols, rowHeight)
  {
    drawn := [];
    var nbcols, ypos, xpos := m.cols - 1, y - rowHeight, 0.0;
    var i := |titles| - 1;
    ghost var done := [];
    while i >= 0
      invariant -1 <= i < |titles|
      invariant done + DrawOrder(titles, reverse, i + 1) == DrawOrder(titles, reverse, |titles|)
      invariant Placed(m, x, y, rowHeight, done, drawn)
      invariant At(m, x, y, rowHeight, |drawn|, nbcols, xpos, ypos)
    {
      var orderi := if reverse then |titles| - i - 1 else i;
      NextTitle(titles, reverse, i, done);
      if titles[orderi].Some? {
        nbcols, xpos, ypos := AdvanceCursor(m, x, y, rowHeight, |drawn|, nbcols, xpos, ypos);
        PlaceNext(m, x, y, rowHeight, done, drawn, orderi, nbcols, xpos, ypos);
        drawn := drawn + [Drawn(orderi, xpos, ypos)];
        done := done + [orderi];
      }
      i := i - 1;
    }
    forall k | 0 <= k < |drawn|
      ensures drawn[k].xpos == x + Times(k % m.cols, m.widest + m.gap)
      ensures drawn[k].ypos == y + Times(k / m.cols, rowHeight)
    {
      RowAndColOf(k, m.cols);
    }
  }

  lemma NextTitle(titles: Titles, reverse: bool, i: nat, done: seq<int>)
    requires i < |titles|
    ensures var orderi := if reverse then |titles| - i - 1 else i;
            done + DrawOrder(titles, reverse, i + 1)
            == (if titles[orderi].Some? then done + [orderi] else done) + DrawOrder(titles, reverse, i)
  {
  }

  /** Moves on to the next column, or to the first column of the next row. */
  method AdvanceCursor(m: Measure, x: real, y: real, rowHeight: real, ghost k: nat, nbcols0: int, xpos0: real, ypos0: real)
    returns (nbcols: int, xpos: real, ypos: real)
    requires m.cols >= 1 && At(m, x, y, rowHeight, k, nbcols0, xpos0, ypos0)
    ensures At(m, x, y, rowHeight, k + 1, nbcols, xpos, ypos)
  {
    NextCell(m, x, y, rowHeight, k, nbcols0, xpos0, ypos0);
    nbcols, xpos, ypos := nbcols0 + 1, xpos0, ypos0;
    if nbcols == m.cols {
      nbcols := 0;
      xpos := x;
      ypos := ypos + rowHeight;
    } else {
      xpos := xpos + (m.widest + m.gap);
    }
  }

  ghost predicate Placed(m: Measure, x: real, y: real, rowHeight: real, order: seq<int>, drawn: seq<Drawn>)
    requires m.cols >= 1
  {
    |drawn| == |order| && forall k | 0 <= k < |drawn| :: drawn[k] == CellOf(m, x, y, rowHeight, order[k], k)
  }

  lemma PlaceNext(m: Measure, x: real, y: real, rowHeight: real, order: seq<int>, drawn: seq<Drawn>,
                  title: int, nbcols: int, xpos: real, ypos: real)
    requires m.cols >= 1 && Placed(m, x, y, rowHeight, order, drawn)
    requires At(m, x, y, rowHeight, |drawn| + 1, nbcols, xpos, ypos)
    ensures Placed(m, x, y, rowHeight, order + [title], drawn + [Drawn(title, xpos, ypos)])
  {
  }

  /** The cursor of drawLegend after k titles: on the cell of the last one, or in front of the first. */
  ghost predicate At(m: Measure, x: real, y: real, rowHeight: real, k: nat, nbcols: int, xpos: real, ypos: real)
    requires m.cols >= 1
  {
    if k == 0 then nbcols == m.cols - 1 && ypos == y - rowHeight
    else && nbcols == Col(k - 1, m.cols) && xpos == ColumnX(m, x, nbcols)
         && ypos == RowY(rowHeight, y, Row(k - 1, m.cols))
  }

  lemma NextCell(m: Measure, x: real, y: real, rowHeight: real, k: nat, nbcols: int, xpos: real, ypos: real)
    requires m.cols >= 1 && At(m, x, y, rowHeight, k, nbcols, xpos, ypos)
    ensures if nbcols + 1 == m.cols then At(m, x, y, rowHeight, k + 1, 0, x, ypos + rowHeight)
            else At(m, x, y, rowHeight, k + 1, nbcols + 1, xpos + (m.widest + m.gap), ypos)
  {
    TimesNext(nbcols, m.widest + m.gap);
    TimesNext(if k > 0 then Row(k - 1, m.cols) else 0, rowHeight);
  }

  lemma TimesNext(i: int, step: real)
    ensures Times(i + 1, step) == Times(i, step) + step && Times(0, step) == 0.0
  {
  }

  lemma {:induction false} OrderCountsVisible(titles: Titles, reverse: bool, from: int)
    requires 0 <= from <= |titles|
    ensures |DrawOrder(titles, reverse, from)|
            == if reverse then VisibleCount(titles, |titles|) - VisibleCount(titles, |titles| - from)
               else VisibleCount(titles, from)
  {
    if from > 0 {
      OrderCountsVisible(titles, reverse, from - 1);
    }
  }

  /** The last title is drawn in the last measured line: the drawing uses exactly the measured lines. */
  lemma DrawnLinesAreMeasured(titles: Titles, reverse: bool, max: int)
    requires VisibleCount(titles, |titles|) >= 1 && max >= 1
    ensures var n := |DrawOrder(titles, reverse, |titles|)|;
            && n == VisibleCount(titles, |titles|)
            && CeilDiv(n, max) >= 1
            && var cols := CeilDiv(n, CeilDiv(n, max));
               cols >= 1 && Row(n - 1, cols) + 1 == CeilDiv(n, max)
  {
    OrderCountsVisible(titles, reverse, |titles|);
    var n := VisibleCount(titles, |titles|);
    RowsAndColumns(n, max);
    LastRow(n, CeilDiv(n, CeilDiv(n, max)));
  }

  lemma LastRow(n: int, cols: int)
    requires n >= 1 && cols >= 1
    ensures Row(n - 1, cols) + 1 == CeilDiv(n, cols)
  {
    var row := Row(n - 1, cols);
    RowAndColOf(n - 1, cols);
    CellsFacts(row, cols);
    CeilDivOrder(n, cols, row);
    CeilDivOrder(n, cols, row + 1);
  }

  /** How many columns fit: any number that is allowed and, without the last gap, as wide as what is available. */
  lemma MaxOnLineIs(available: real, widest: real, gap: real, maxCols: int, cols: int)
    requires widest + gap > 0.0
    ensures cols <= MaxOnLine(available, widest, gap, maxCols)
            <==> cols <= maxCols && Times(cols, widest + gap) - gap <= available
  {
    QuotientOrder(available + gap, cols as real, widest + gap);
  }

  /**
   The measured legend has the fewest lines, and of those with as many lines the fewest columns, of all
   that hold n titles in columns that are allowed and fit.
   */
  lemma FewestLines(r: LegendMsr, n: nat, widest: real, gap: real, available: real, maxCols: int, lines: int, cols: int)
    requires widest + gap > 0.0 && n >= 1 && IsMeasured(r, n, widest, gap, available, maxCols)
    requires lines >= 1 && cols >= 1 && n <= Cells(lines, cols)
    requires cols <= maxCols && Times(cols, widest + gap) - gap <= available
    ensures r.Shown? && r.msr.lines <= lines && (r.msr.lines == lines ==> r.msr.cols <= cols)
    ensures n <= Cells(r.msr.lines, r.msr.cols)
  {
    var max := MaxOnLine(available, widest, gap, maxCols);
    MaxOnLineIs(available, widest, gap, maxCols, cols);
    CellsOrder(lines, cols, max);
    CeilDivOrder(n, max, lines);
    CellsFacts(lines, cols);
    CeilDivOrder(n, r.msr.lines, cols);
    CeilDivOrder(n, r.msr.lines, r.msr.cols);
    CellsFacts(r.msr.lines, r.msr.cols);
  }

  /** All columns together fit into the available width, and each column into its share of it. */
  lemma ColumnsFit(m: Measure, available: real, maxCols: int, n: int, x: real, col: int)
    requires m.widest > 0.0 && m.gap >= 0.0 && n >= 1
    requires MaxOnLine(available, m.widest, m.gap, maxCols) >= 1
    requires m.lines == CeilDiv(n, MaxOnLine(available, m.widest, m.gap, maxCols)) >= 1
    requires m.cols == CeilDiv(n, m.lines) && 0 <= col < m.cols
    ensures ColumnX(m, x, col) + m.widest <= x + Times(m.cols, m.widest + m.gap) - m.gap <= x + available
  {
    RowsAndColumns(n, MaxOnLine(available, m.widest, m.gap, maxCols));
    CellsInWidth(m.cols, available + m.gap, m.widest + m.gap);
    ColumnBeforeEnd(col, m.cols, m.widest + m.gap);
  }

  lemma CellsInWidth(cols: int, width: real, cell: real)
    requires cell > 0.0 && cols <= Floor(width / cell)
    ensures Times(cols, cell) <= width
  {
    QuotientIs(width, cell, 0.0);
    ScaleOrder(cols as real, width / cell, cell);
  }

  lemma ColumnBeforeEnd(col: int, cols: int, cell: real)
    requires col < cols && cell > 0.0
    ensures Times(col, cell) + cell <= Times(cols, cell)
  {
    TimesNext(col, cell);
    ScaleOrder((col + 1) as real, cols as real, cell);
  }

  lemma {:induction false} FillingOrder(k: nat, k': nat, cols: int)
    requires cols >= 1 && k < k'
    ensures Row(k, cols) < Row(k', cols) || (Row(k, cols) == Row(k', cols) && Col(k, cols) < Col(k', cols))
  {
    if k < k' - 1 {
      FillingOrder(k, k' - 1, cols);
    }
  }

  /** No two titles are drawn over each other. */
  lemma CellsDisjoint(m: Measure, x: real, y: real, rowHeight: real, a: int, b: int, k: nat, k': nat)
    requires m.cols >= 1 && m.widest > 0.0 && m.gap >= 0.0 && rowHeight > 0.0 && k < k'
    ensures var first, second := CellOf(m, x, y, rowHeight, a, k), CellOf(m, x, y, rowHeight, b, k');
            second.ypos >= first.ypos + rowHeight
            || (second.ypos == first.ypos && second.xpos >= first.xpos + m.widest + m.gap)
  {
    FillingOrder(k, k', m.cols);
    if Row(k, m.cols) < Row(k', m.cols) {
      ColumnBeforeEnd(Row(k, m.cols), Row(k', m.cols), rowHeight);
    } else {
      ColumnBeforeEnd(Col(k, m.cols), Col(k', m.cols), m.widest + m.gap);
    }
  }
}
