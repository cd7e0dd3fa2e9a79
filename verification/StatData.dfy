/**
 The per-datum tables of line and bar charts (ChartNew.js, initPassVariableData_part1, case 0): links
 between neighbouring data of a dataset, extents of rows and columns, and running and total sums of
 every column on each of the two axes.
 */
module StatData {
  import opened Numbers
  import opened LineAxis

  // ----- Links along one dataset -----

  /** The link fields of result[i][j]; None is a field that was never set. */
  datatype Slot = Slot(prevNotMissing: int, prevMissing: int, nextNotMissing: Option<int>)

  predicate Missing(row: seq<Option<real>>, j: int) {
    0 <= j < |row| && row[j].None?
  }

  predicate Present(row: seq<Option<real>>, j: int) {
    0 <= j < |row| && row[j].Some?
  }

  /** p is the greatest index below j with a datum, or -1. */
  predicate IsPrevPresent(row: seq<Option<real>>, j: int, p: int) {
    && -1 <= p < j && (p >= 0 ==> Present(row, p))
    && forall m | p < m < j :: !Present(row, m)
  }

  predicate IsPrevMissing(row: seq<Option<real>>, j: int, p: int) {
    && -1 <= p < j && (p >= 0 ==> Missing(row, p))
    && forall m | p < m < j :: !Missing(row, m)
  }

  /** n is the least index above j, but below the end, with a datum. */
  predicate IsNextPresent(row: seq<Option<real>>, end: int, j: int, n: int) {
    && j < n < end && Present(row, n)
    && forall m | j < m < n :: !Present(row, m)
  }

  /** The next link of slot j after the first `end` data: the next datum, -1, or never set. */
  ghost predicate NextLink(row: seq<Option<real>>, end: int, j: int, next: Option<int>) {
    match next
    case Some(n) =>
      (exists p :: 0 <= p <= j && Present(row, p))
      && if n == -1 then Present(row, j) && forall m | j < m < end :: !Present(row, m)
         else IsNextPresent(row, end, j, n)
    case None =>
      (forall p | 0 <= p <= j :: !Present(row, p))
      || (Missing(row, j) && forall m | j < m < end :: !Present(row, m))
  }

  ghost predicate IsSlot(row: seq<Option<real>>, end: int, j: int, s: Slot) {
    && IsPrevPresent(row, j, s.prevNotMissing)
    && (if Missing(row, j) then s.prevMissing == j else IsPrevMissing(row, j, s.prevMissing))
    && NextLink(row, end, j, s.nextNotMissing)
  }

  /** writes counts the back-fill assignments to each slot: one if the slot has a next datum, else none. */
  method LinkRow(row: seq<Option<real>>) returns (slots: seq<Slot>, ghost writes: seq<nat>)
    ensures |slots| == |writes| == |row|
    ensures forall j | 0 <= j < |row| :: IsSlot(row, |row|, j, slots[j])
    ensures forall j | 0 <= j < |row| ::
              writes[j] == if slots[j].nextNotMissing in {None, Some(-1)} then 0 else 1
  {
    var result := new Slot[|row|](_ => Slot(-1, -1, None));
    var prevnotempty, prevempty := -1, -1;
    writes := seq(|row|, _ => 0);
    for j := 0 to |row|
      invariant IsPrevPresent(row, j, prevnotempty) && IsPrevMissing(row, j, prevempty)
      invariant forall k | 0 <= k < j :: IsSlot(row, j, k, result[k])
      invariant |writes| == |row| && forall k | j <= k < |row| :: writes[k] == 0
      invariant forall k | 0 <= k < j :: writes[k] == if result[k].nextNotMissing in {None, Some(-1)} then 0 else 1
    {
      if row[j].Some? {
        result[j] := Slot(prevnotempty, prevempty, Some(-1));
        if prevnotempty != -1 {
          writes := BackFill(row, result, prevnotempty, j, writes);
        }
        prevnotempty := j;
      } else {
        prevempty := j;
        result[j] := Slot(prevnotempty, prevempty, None);
      }
    }
    slots := result[..];
  }

  /** The inner loop: j becomes the next datum of the slots from the previous datum on. */
  method BackFill(row: seq<Option<real>>, result: array<Slot>, prev: nat, j: nat, ghost writes0: seq<nat>)
    returns (ghost writes: seq<nat>)
    requires prev < j < |row| == result.Length == |writes0| && Present(row, j) && IsPrevPresent(row, j, prev)
    requires forall k | 0 <= k < j :: IsSlot(row, j, k, result[k])
    requires forall k | 0 <= k < j :: writes0[k] == if result[k].nextNotMissing in {None, Some(-1)} then 0 else 1
    requires writes0[j] == 0
    modifies result
    ensures |writes| == |row| && forall k | j <= k < |row| :: writes[k] == writes0[k] && result[k] == old(result[k])
    ensures forall k | 0 <= k < j :: IsSlot(row, j + 1, k, result[k])
    ensures forall k | 0 <= k < j :: writes[k] == if result[k].nextNotMissing in {None, Some(-1)} then 0 else 1
  {
    writes := writes0;
    for k := prev to j
      invariant |writes| == |row|
      invariant forall m | 0 <= m < k :: IsSlot(row, j + 1, m, result[m])
      invariant forall m | k <= m < |row| :: result[m] == old(result[m]) && writes[m] == writes0[m]
      invariant forall m | 0 <= m < j :: writes[m] == if result[m].nextNotMissing in {None, Some(-1)} then 0 else 1
    {
      assert IsSlot(row, j, k, result[k]);
      result[k] := result[k].(nextNotMissing := Some(j));
      writes := writes[k := writes[k] + 1];
    }
  }

  // ----- Sums over the columns -----

  function DatumOf(datasets: seq<Dataset>, i: nat, j: nat): Option<real> {
    if i < |datasets| && j < |datasets[i].data| then datasets[i].data[j] else None
  }

  /** What dataset i contributes to column j on an axis. */
  function Addend(datasets: seq<Dataset>, i: nat, secondAxis: bool, j: nat): real {
    var d := DatumOf(datasets, i, j);
    if d.Some? && datasets[i].secondAxis == secondAxis then d.value else 0.0
  }

  /** The sum of column j on an axis over the first n datasets. */
  function ColumnSum(datasets: seq<Dataset>, n: nat, secondAxis: bool, j: nat): real {
    if n == 0 then 0.0 else ColumnSum(datasets, n - 1, secondAxis, j) + Addend(datasets, n - 1, secondAxis, j)
  }

  /** The least and greatest dataset index below n with a datum in column j; -1 for none. */
  ghost predicate ColumnExtent(datasets: seq<Dataset>, n: nat, j: nat, first: int, last: int) {
    && -1 <= first <= last < n && (first == -1 <==> last == -1)
    && (first >= 0 ==> DatumOf(datasets, first, j).Some? && DatumOf(datasets, last, j).Some?)
    && forall i: nat | i < n && DatumOf(datasets, i, j).Some? :: first <= i <= last && first >= 0
  }

  /** The accumulators of one column: its sum on each axis and its extent. */
  datatype Column = Column(first: real, second: real, firstNotMissing: int, lastNotMissing: int)

  const EMPTY_COLUMN := Column(0.0, 0.0, -1, -1)

  function Lookup(columns: map<nat, Column>, j: nat): Column {
    if j in columns then columns[j] else EMPTY_COLUMN
  }

  ghost predicate IsColumn(datasets: seq<Dataset>, n: nat, j: nat, c: Column) {
    && c.first == ColumnSum(datasets, n, false, j) && c.second == ColumnSum(datasets, n, true, j)
    && ColumnExtent(datasets, n, j, c.firstNotMissing, c.lastNotMissing)
  }

  function AddDatum(c: Column, secondAxis: bool, i: int, v: real): Column {
    Column(if secondAxis then c.first else c.first + v, if secondAxis then c.second + v else c.second,
           if c.firstNotMissing == -1 then i else c.firstNotMissing, i)
  }

  datatype Extent = Extent(firstNotMissing: int, lastNotMissing: int)

  /** The least and greatest index below n with a datum; -1 for none. */
  predicate RowExtent(row: seq<Option<real>>, n: int, e: Extent) {
    && -1 <= e.firstNotMissing <= e.lastNotMissing < n && (e.firstNotMissing == -1 <==> e.lastNotMissing == -1)
    && (e.firstNotMissing >= 0 ==> Present(row, e.firstNotMissing) && Present(row, e.lastNotMissing))
    && forall m | 0 <= m < n && Present(row, m) :: 0 <= e.firstNotMissing <= m <= e.lastNotMissing
  }

  /** The first double loop: totals and extents of every column, extents of every row, and the grand total. */
  method BuildTotals(datasets: seq<Dataset>)
    returns (columns: map<nat, Column>, rows: seq<Extent>, grandtotal: real)
    ensures forall j: nat :: IsColumn(datasets, |datasets|, j, Lookup(columns, j))
    ensures |rows| == |datasets|
    ensures forall i | 0 <= i < |datasets| :: RowExtent(datasets[i].data, |datasets[i].data|, rows[i])
    ensures grandtotal == GrandTotal(datasets, |datasets|)
  {
    columns, rows, grandtotal := map[], [], 0.0;
    for i := 0 to |datasets|
      invariant forall j: nat :: IsColumn(datasets, i, j, Lookup(columns, j))
      invariant |rows| == i
      invariant forall k | 0 <= k < i :: RowExtent(datasets[k].data, |datasets[k].data|, rows[k])
      invariant grandtotal == GrandTotal(datasets, i)
    {
      var data := datasets[i].data;
      var e := Extent(-1, -1);
      ghost var before, next := columns, i + 1;
      for j := 0 to |data|
        invariant RowExtent(data, j, e)
        invariant grandtotal == GrandTotal(datasets, i) + RowSum(data, j)
        invariant forall m: nat :: m < j ==> IsColumn(datasets, next, m, Lookup(columns, m))
        invariant forall m: nat :: m >= j ==> Lookup(columns, m) == Lookup(before, m)
      {
        ghost var previous := columns;
        assert IsColumn(datasets, i, j, Lookup(before, j));
        if j !in columns {
          columns := columns[j := EMPTY_COLUMN];
        }
        if data[j].Some? {
          grandtotal := grandtotal + data[j].value;
          e := Extent(if e.firstNotMissing == -1 then j else e.firstNotMissing, j);
          columns := columns[j := AddDatum(columns[j], datasets[i].secondAxis, i, data[j].value)];
        }
        assert forall m: nat :: m != j ==> Lookup(columns, m) == Lookup(previous, m);
        AddKeepsColumn(datasets, i, j, Lookup(before, j));
      }
      rows := rows + [e];
      forall m: nat ensures IsColumn(datasets, next, m, Lookup(columns, m)) {
        if m >= |data| {
          assert Lookup(columns, m) == Lookup(before, m);
          assert DatumOf(datasets, i, m).None?;
          AddKeepsColumn(datasets, i, m, Lookup(before, m));
        }
      }
    }
  }

  /** Extents and links of a dataset agree: only its first datum has no previous, only its last no next one. */
  lemma ExtentEndsLinks(row: seq<Option<real>>, e: Extent, j: int, s: Slot)
    requires RowExtent(row, |row|, e) && Present(row, j) && IsSlot(row, |row|, j, s)
    ensures s.prevNotMissing == -1 <==> j == e.firstNotMissing
    ensures s.nextNotMissing == Some(-1) <==> j == e.lastNotMissing
  {
    assert s.nextNotMissing.Some?;
  }

  lemma AddKeepsColumn(datasets: seq<Dataset>, i: nat, j: nat, c: Column)
    requires i < |datasets| && IsColumn(datasets, i, j, c)
    ensures var d := DatumOf(datasets, i, j);
            IsColumn(datasets, i + 1, j, if d.None? then c else AddDatum(c, datasets[i].secondAxis, i, d.value))
  {
  }

  /** The running sum shown with a datum: its column on its axis, up to and including its dataset. */
  function RunningSum(datasets: seq<Dataset>, i: nat, j: nat): Option<real> {
    if DatumOf(datasets, i, j).None? then None
    else Some(ColumnSum(datasets, i + 1, datasets[i].secondAxis, j))
  }

  /** The second double loop: cumvalue of every datum. */
  method Cumulate(datasets: seq<Dataset>) returns (cumvalue: seq<seq<Option<real>>>)
    ensures |cumvalue| == |datasets|
    ensures forall i | 0 <= i < |datasets| :: |cumvalue[i]| == |datasets[i].data|
    ensures forall i, j | 0 <= i < |datasets| && 0 <= j < |datasets[i].data| ::
              cumvalue[i][j] == RunningSum(datasets, i, j)
  {
    cumvalue := [];
    var cum: map<nat, Column> := map[];
    for i := 0 to |datasets|
      invariant |cumvalue| == i
      invariant forall k | 0 <= k < i :: |cumvalue[k]| == |datasets[k].data|
      invariant forall k, j | 0 <= k < i && 0 <= j < |datasets[k].data| :: cumvalue[k][j] == RunningSum(datasets, k, j)
      invariant forall j: nat :: Running(datasets, i, j, Lookup(cum, j))
    {
      var row;
      row, cum := CumulateRow(datasets, i, cum);
      cumvalue := cumvalue + [row];
    }
  }

  ghost predicate Running(datasets: seq<Dataset>, n: nat, j: nat, c: Column) {
    c.first == ColumnSum(datasets, n, false, j) && c.second == ColumnSum(datasets, n, true, j)
  }

  method CumulateRow(datasets: seq<Dataset>, i: nat, cum0: map<nat, Column>)
    returns (row: seq<Option<real>>, cum: map<nat, Column>)
    requires i < |datasets| && forall j: nat :: Running(datasets, i, j, Lookup(cum0, j))
    ensures |row| == |datasets[i].data| && forall j | 0 <= j < |row| :: row[j] == RunningSum(datasets, i, j)
    ensures var next := i + 1; forall j: nat :: Running(datasets, next, j, Lookup(cum, j))
  {
    row, cum := [], cum0;
    var data, secondAxis := datasets[i].data, datasets[i].secondAxis;
    ghost var next := i + 1;
    for j := 0 to |data|
      invariant |row| == j && forall m | 0 <= m < j :: row[m] == RunningSum(datasets, i, m)
      invariant forall m: nat :: m < j ==> Running(datasets, next, m, Lookup(cum, m))
      invariant forall m: nat :: m >= j ==> Lookup(cum, m) == Lookup(cum0, m)
    {
      ghost var previous := cum;
      assert Running(datasets, i, j, Lookup(cum0, j));
      if j !in cum {
        cum := cum[j := EMPTY_COLUMN];
      }
      if data[j].Some? {
        cum := cum[j := AddDatum(cum[j], secondAxis, i, data[j].value)];
        row := row + [Some(if secondAxis then cum[j].second else cum[j].first)];
      } else {
        row := row + [None];
      }
      assert forall m: nat :: m != j ==> Lookup(cum, m) == Lookup(previous, m);
      assert Running(datasets, next, j, Lookup(cum, j));
    }
    forall m: nat ensures Running(datasets, next, m, Lookup(cum, m)) {
      if m >= |data| {
        assert Lookup(cum, m) == Lookup(cum0, m) && Running(datasets, i, m, Lookup(cum0, m));
        assert DatumOf(datasets, i, m).None?;
      }
    }
  }

  /** The running sum of a datum is the datum on top of the last running sum before it in its column and axis. */
  lemma {:induction false} RunningSumIs(datasets: seq<Dataset>, i: nat, n: nat, j: nat)
    requires i < n && RunningSum(datasets, i, j).Some? && RunningSum(datasets, n, j).Some?
    requires datasets[i].secondAxis == datasets[n].secondAxis
    requires forall k: nat | i < k < n && DatumOf(datasets, k, j).Some? ::
               datasets[k].secondAxis != datasets[i].secondAxis
    ensures RunningSum(datasets, n, j).value == RunningSum(datasets, i, j).value + datasets[n].data[j].value
  {
    LastRunningSumIsTotal(datasets, i, n, j);
  }

  /** The first running sum of a column on an axis is its datum. */
  lemma {:induction false} FirstRunningSum(datasets: seq<Dataset>, n: nat, j: nat)
    requires RunningSum(datasets, n, j).Some?
    requires forall k: nat | k < n && DatumOf(datasets, k, j).Some? :: datasets[k].secondAxis != datasets[n].secondAxis
    ensures RunningSum(datasets, n, j) == datasets[n].data[j]
  {
    EmptyColumn(datasets, n, datasets[n].secondAxis, j);
  }

  lemma {:induction false} EmptyColumn(datasets: seq<Dataset>, n: nat, secondAxis: bool, j: nat)
    requires forall k: nat | k < n && DatumOf(datasets, k, j).Some? :: datasets[k].secondAxis != secondAxis
    ensures ColumnSum(datasets, n, secondAxis, j) == 0.0
  {
    if n > 0 { EmptyColumn(datasets, n - 1, secondAxis, j); }
  }

  /** The running sum of the last datum of a column on an axis is the column's total on that axis. */
  lemma {:induction false} LastRunningSumIsTotal(datasets: seq<Dataset>, i: nat, n: nat, j: nat)
    requires i < n && RunningSum(datasets, i, j).Some?
    requires forall k: nat | i < k < n && DatumOf(datasets, k, j).Some? ::
               datasets[k].secondAxis != datasets[i].secondAxis
    ensures RunningSum(datasets, i, j) == Some(ColumnSum(datasets, n, datasets[i].secondAxis, j))
  {
    if i < n - 1 {
      LastRunningSumIsTotal(datasets, i, n - 1, j);
    }
  }

  /** The column totals on both axes, taken together, are the grand total of all data. */
  function RowSum(data: seq<Option<real>>, n: nat): real
    requires n <= |data|
  {
    if n == 0 then 0.0 else RowSum(data, n - 1) + (if data[n - 1].Some? then data[n - 1].value else 0.0)
  }

  function GrandTotal(datasets: seq<Dataset>, n: nat): real
    requires n <= |datasets|
  {
    if n == 0 then 0.0 else GrandTotal(datasets, n - 1) + RowSum(datasets[n - 1].data, |datasets[n - 1].data|)
  }

  /** The sum of the column totals of the first w columns over the first n datasets. */
  function ColumnTotals(datasets: seq<Dataset>, n: nat, w: nat): real {
    if w == 0 then 0.0
    else ColumnTotals(datasets, n, w - 1)
         + ColumnSum(datasets, n, false, w - 1) + ColumnSum(datasets, n, true, w - 1)
  }

  lemma {:induction false} GrandTotalIsColumnTotals(datasets: seq<Dataset>, n: nat, w: nat)
    requires n <= |datasets| && forall i | 0 <= i < n :: |datasets[i].data| <= w
    ensures GrandTotal(datasets, n) == ColumnTotals(datasets, n, w)
  {
    if n == 0 {
      NoDatasets(datasets, w);
    } else {
      GrandTotalIsColumnTotals(datasets, n - 1, w);
      OneMoreDataset(datasets, n, w);
    }
  }

  lemma {:induction false} NoDatasets(datasets: seq<Dataset>, w: nat)
    ensures ColumnTotals(datasets, 0, w) == 0.0
  {
    if w > 0 { NoDatasets(datasets, w - 1); }
  }

  lemma {:induction false} OneMoreDataset(datasets: seq<Dataset>, n: nat, w: nat)
    requires 0 < n <= |datasets|
    ensures var data := datasets[n - 1].data;
            ColumnTotals(datasets, n, w)
            == ColumnTotals(datasets, n - 1, w) + RowSum(data, if w <= |data| then w else |data|)
  {
    if w > 0 { OneMoreDataset(datasets, n, w - 1); }
  }
}
