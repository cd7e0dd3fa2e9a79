# Verified model of the INAETICS demonstrator

The demonstrator is a distributed producer/queue/processor system with a web dashboard. This Dafny project
models the parts of it whose correctness depends on arithmetic, on loops that have to agree with each other,
or on the order of events, and proves what those parts are there for. `dafny verify dfyconfig.toml` checks it.

| file | what it models |
|---|---|
| `AxisScale.dfy`, `AxisOffset.dfy` | the linear axis of a chart: the search for a tick step, and the map from values to pixels |
| `LineAxis.dfy` | the value range of a line chart with one or two axes, and the axis end to end |
| `Stacking.dfy` | stacked bars: the quadratic range loop, the linear stacker, tiling, pixels |
| `StatData.dfy`, `PieArcs.dfy` | the per-datum tables: neighbour links, running and total sums, pie arcs |
| `Legend.dfy`, `NumberFormat.dfy` | legend layout and drawing; number formatting and its inverse |
| `Redraw.dfy`, `ResponsiveChart.dfy` | the redraw state machine of a responsive chart, as functions and as the object that runs it |
| `Animation.dfy` | the animation driver |
| `SampleQueue.dfy`, `QueueMonitor.dfy` | the bounded sample queue under all interleavings, and its critical sections |
| `SampleWakeups.dfy` | which sleeping taker a signal of the queue wakes |
| `Coordinators.dfy`, `AutoScaler.dfy` | the two coordinator services and the auto-scaler that drives either |
| `SampleRates.dfy` | percentage, rate, task interval, reported rate, aggregate |
| `Doubles.dfy` | rounding of Java's double arithmetic |
| `Numbers.dfy` | rounding, powers of ten, products and quotients, searching a sequence |

Chart arithmetic is over exact reals; the rates and utilizations of the Java side are rounded to doubles. Loops, arrays and fields of the source are loops, arrays and fields
here; every method is tied to a predicate or function whose properties are the lemmas of the table below.

Findings, where the code meets its purpose only under a condition (each is an if-and-only-if below, and the
member named last shows a failing input):

* The step search ends unless both bounds lie within `zeroValue` of 0 (`AxisScale.SearchStopsIff`). The data 0
  and `zeroValue` are such a case (`LineAxis.ZeroValueHasNoScale`).
* The chosen scale covers the data, except when an axis of nine units may have at most four steps
  (`AxisScale.ScaleCoversMaximum`, `AxisScale.NineInFourSteps`) and when the minimum is a tiny negative number
  (`AxisScale.ScaleCoversMinimum`, `AxisScale.TinyNegativeMinimum`).
* An animation whose starting value leaves no step to be drawn, or is above 1, never ends
  (`Animation.AnimationEndsIff`, `Animation.StartedTooLate`).
* Creating a chart again on a context that has one leaves two drawings under way, or a displayed chart that is
  being drawn, or an empty one (`Redraw.RedrawSafetyIff`, `Redraw.CreatedTwice`).
* `unFormat` loses the decimal point when both separators are the same character
  (`NumberFormat.FormatRoundTripIff`, `NumberFormat.CommaForBoth`).
* A `take` or `takeAll` whose last wait timed out fails even if enough samples have arrived since
  (`SampleQueue.WakingTaker`, `SampleQueue.LateSample`).
* When takers that need different numbers of samples share the queue, a signal can be spent on one that needs
  more than there is while another sleeps beside what it needs (`SampleWakeups.OversleepIff`,
  `SampleWakeups.WasteMany`).
* `CoordinatorService` documents that requests beyond the maximum are ignored and that the answer tells whether
  the count changed. The Kubernetes service caps such requests instead and answers whether the request was within
  the maximum; the code is followed (`Coordinators.CoordinatorsAgreeIff`, `Coordinators.OneTooMany`).
* With `slope1` 0 a steady queue between its barriers still loses processors (`AutoScaling.SteadyBetweenBarriersIff`,
  `AutoScaling.SteadyQueueLosesProcessor`).
* Rounding a quotient before multiplying can lose a whole rate: at 100 % a producer of at most 29 samples per
  second is set to 28 (`SampleRates.AggregateIsExactIff`, `SampleRates.AllIsLessThanAll`). Maximum rates that are
  multiples of 25 are safe (`SampleRates.QuartersAreKept`).

## Model

| member | source | states |
|---|---|---|
| AxisScale.StepLimitsRatio | org.inaetics.demonstrator.java_impl/resources/ChartNew.js:3141-3144 | the two floors of getValueBounds always leave maxSteps at least three times minSteps |
| AxisScale.StepLimitsAre | org.inaetics.demonstrator.java_impl/resources/ChartNew.js:3143-3144 | the limits are the greatest numbers of labels that fit at two thirds and at twice their height |
| AxisScale.InitialCountRange | org.inaetics.demonstrator.java_impl/resources/ChartNew.js:4702-4730 | with clean bounds, or an initial step above zeroValue, the search starts from 1 to 11 steps |
| AxisScale.InitialCountPositive | org.inaetics.demonstrator.java_impl/resources/ChartNew.js:4704-4707 | the axis has positive length exactly when its bounds are not both rounded to 0 |
| AxisScale.NoOscillation | org.inaetics.demonstrator.java_impl/resources/ChartNew.js:4734-4747 | a halving step never overshoots maxSteps and a doubling step never undershoots minSteps |
| AxisScale.SearchStopsIff | org.inaetics.demonstrator.java_impl/resources/ChartNew.js:4731-4747 | a first fitting step exists, hence the search ends, exactly for an axis of positive length |
| AxisScale.SearchStep | org.inaetics.demonstrator.java_impl/resources/ChartNew.js:4728-4747 | the loop ends with the first step, only ever halving or only ever doubling, whose rounded count is within the limits |
| AxisScale.TrimScale | org.inaetics.demonstrator.java_impl/resources/ChartNew.js:4764-4770 | the two loops cut the greatest number of steps that keeps the data inside and two steps |
| AxisScale.CalculateScale | org.inaetics.demonstrator.java_impl/resources/ChartNew.js:4691-4783 | the scale is the one that its input determines: clean ends, first fitting step, greatest cuts |
| AxisScale.ScaleUnique | org.inaetics.demonstrator.java_impl/resources/ChartNew.js:4691-4783 | there is only one such scale for an input |
| AxisScale.ScaleMeans | org.inaetics.demonstrator.java_impl/resources/ChartNew.js:4691-4783 | the unit is the power of ten at or below the range, the axis goes from whole units to whole units around the data, the step is the unit doubled or halved as often as it takes for the rounded count to fit, and as many steps are cut off as possible |
| AxisScale.TenToNinety | org.inaetics.demonstrator.java_impl/resources/ChartNew.js:4691-4783 | 10 to 90 with limits 3 and 10 gives 8 steps of 10 from 10 |
| AxisScale.ScaleCoversMinimum | org.inaetics.demonstrator.java_impl/resources/ChartNew.js:4704-4705 | after search and cuts the bottom is at or below the minimum exactly unless that is a tiny negative number |
| AxisScale.ReachIs | org.inaetics.demonstrator.java_impl/resources/ChartNew.js:4728-4747 | how many units the rounded count reaches, as a function of the units and maxSteps |
| AxisScale.ScaleCoversMaximum | org.inaetics.demonstrator.java_impl/resources/ChartNew.js:4706-4770 | after search and cuts the top is at or above the maximum exactly unless nine units get at most four steps; a tiny positive maximum exactly when the count reaches beyond its units |
| AxisScale.NineInFourSteps | org.inaetics.demonstrator.java_impl/resources/ChartNew.js:4728-4747 | the range 0 to 9 in at most 4 steps ends below 9 |
| AxisScale.TinyNegativeMinimum | org.inaetics.demonstrator.java_impl/resources/ChartNew.js:4704-4705 | a minimum half of zeroValue below 0 is outside its scale |
| AxisOffset.OffsetOnAxis | org.inaetics.demonstrator.java_impl/resources/ChartNew.js:4587-4592 | every offset lies on the axis |
| AxisOffset.OffsetStrictlyIncreasing | org.inaetics.demonstrator.java_impl/resources/ChartNew.js:4587-4592 | a larger value is drawn strictly higher exactly when the two are not clipped to the same end and a step has pixels |
| AxisOffset.OffsetToScaleIff | org.inaetics.demonstrator.java_impl/resources/ChartNew.js:4587-4592 | a value is drawn to scale exactly when it lies inside the scale |
| AxisOffset.OffsetIs | org.inaetics.demonstrator.java_impl/resources/ChartNew.js:4587-4592 | every value, held between the ends of the scale, is scaleHop pixels per step above the bottom |
| AxisOffset.TickOnGridLine | org.inaetics.demonstrator.java_impl/resources/ChartNew.js:2993-3001 | tick i, whose label value is graphMin + i * stepValue, is drawn on grid line i |
| LineAxis.AxisValuesAre | org.inaetics.demonstrator.java_impl/resources/ChartNew.js:3080-3098 | the values of an axis are the data that are there in the datasets of that axis |
| LineAxis.GetValueBounds | org.inaetics.demonstrator.java_impl/resources/ChartNew.js:3063-3154 | the bounds of each axis are the least and greatest datum, or, when closer than zeroValue, a tenth apart from them, up to 0.99 around 0 and without data; an unused first axis takes those of the second |
| LineAxis.WidenMeans | org.inaetics.demonstrator.java_impl/resources/ChartNew.js:3100-3111 | by how much a range is widened, in all cases |
| LineAxis.NearValues | org.inaetics.demonstrator.java_impl/resources/ChartNew.js:3100-3111 | a single value v gets 0.9 v to 1.1 v, or 1.1 v to 0.9 v when negative; data within half of zeroValue of 0 end at 0.99 |
| LineAxis.WidenKeeps | org.inaetics.demonstrator.java_impl/resources/ChartNew.js:3101-3112 | widening gives a positive range that keeps its values, but for a minimum moved off zero |
| LineAxis.ChartSearchableIff | org.inaetics.demonstrator.java_impl/resources/ChartNew.js:3141-3154 | for a chart high enough to be drawn the search ends exactly unless both widened bounds are rounded to 0 |
| LineAxis.NothingBelowScaleIff | org.inaetics.demonstrator.java_impl/resources/ChartNew.js:4691-4783 | no datum lies below the scale exactly when the minimum is not a tiny negative number |
| LineAxis.MovedRange | org.inaetics.demonstrator.java_impl/resources/ChartNew.js:3101-3112 | also when the range was moved off zero, if zeroValue is small against the axis and its steps |
| LineAxis.DataInsideScale | org.inaetics.demonstrator.java_impl/resources/ChartNew.js:4691-4783 | with clean bounds every datum is inside the scale, exactly unless nine units get at most four steps |
| LineAxis.ZeroValueHasNoScale | org.inaetics.demonstrator.java_impl/resources/ChartNew.js:4731-4747 | for the data 0 and zeroValue no step ever fits |
| LineAxis.LineEndToEnd | org.inaetics.demonstrator.java_impl/resources/ChartNew.js:2828-2890 | end to end: data are drawn to scale and unclipped, in order, and ticks on grid lines |
| LineAxis.PlaceLines | org.inaetics.demonstrator.java_impl/resources/ChartNew.js:6747-6780 | every datum is placed at scaleHop pixels per step on the scale of its own axis, held to its ends; the offset of the zero line cancels out |
| Stacking.GetStackedBounds | org.inaetics.demonstrator.java_impl/resources/ChartNew.js:3409-3475 | the bounds are the least and greatest of exactly the partial sums that the triple loop visits, widened |
| Stacking.VisitCell | org.inaetics.demonstrator.java_impl/resources/ChartNew.js:3416-3457 | the innermost loop visits dataset 0 and then i down to 1 |
| Stacking.TopVisited | org.inaetics.demonstrator.java_impl/resources/ChartNew.js:3416-3457 | though it adds in another order, the loop for dataset i visits the end of that dataset's bar |
| Stacking.AllBounded | org.inaetics.demonstrator.java_impl/resources/ChartNew.js:3414-3459 | every visited value other than 0 is within the end of some bar in its direction |
| Stacking.BoundsRefineStacking | org.inaetics.demonstrator.java_impl/resources/ChartNew.js:3414-3461 | the quadratic range contains the end of every bar and is attained in each direction that has bars |
| Stacking.NearBound | org.inaetics.demonstrator.java_impl/resources/ChartNew.js:3414-3461 | for data of one sign the bound on the side of 0 is the nearest datum of dataset 0, or of a column without one there |
| Stacking.StackBars | org.inaetics.demonstrator.java_impl/resources/ChartNew.js:6851-6900 | the linear loop gives every bar the running sum of its column and sign, from botval to topval, and draws it there |
| Stacking.BarIsDrawn | org.inaetics.demonstrator.java_impl/resources/ChartNew.js:6868-6900 | a bar ends at the pixel of topval and starts at that of botval, moved by the space between bars, by half of it for a first bar, never past its end |
| Stacking.BarsTileColumn | org.inaetics.demonstrator.java_impl/resources/ChartNew.js:6859-6867 | the bars of a direction cover each height up to their total exactly once and no other |
| Stacking.CoverIsBar | org.inaetics.demonstrator.java_impl/resources/ChartNew.js:6859-6867 | the covered heights are the values between botval and topval |
| Stacking.BarsAbut | org.inaetics.demonstrator.java_impl/resources/ChartNew.js:6868-6886 | no bar is inside out; consecutive bars of a direction touch in pixels, clipped or not, up to spaceBetweenBar |
| Stacking.StackedEndToEnd | org.inaetics.demonstrator.java_impl/resources/ChartNew.js:6868-6872 | with clean bounds and at least five allowed steps no bar end is clipped |
| StatData.LinkRow | org.inaetics.demonstrator.java_impl/resources/ChartNew.js:6561-6704 | prevNotMissing is the greatest earlier datum, nextNotMissing the least later one; each slot is back-filled at most once |
| StatData.BackFill | org.inaetics.demonstrator.java_impl/resources/ChartNew.js:6669-6672 | the inner loop fills exactly the slots from the previous datum on |
| StatData.BuildTotals | org.inaetics.demonstrator.java_impl/resources/ChartNew.js:6517-6559 | column totals per axis, first and last datum of columns and rows, and the grand total |
| StatData.Cumulate | org.inaetics.demonstrator.java_impl/resources/ChartNew.js:6561-6580 | cumvalue is the sum of the column on the axis up to and including the dataset |
| StatData.ExtentEndsLinks | org.inaetics.demonstrator.java_impl/resources/ChartNew.js:6543-6546 | only the first datum of a row has no previous one and only the last no next one |
| StatData.LastRunningSumIsTotal | org.inaetics.demonstrator.java_impl/resources/ChartNew.js:6579-6580 | the last cumvalue of a column on an axis is its totvalue |
| StatData.RunningSumIs | org.inaetics.demonstrator.java_impl/resources/ChartNew.js:6669-6704 | a running sum is the last one of its column and axis plus the datum |
| StatData.FirstRunningSum | org.inaetics.demonstrator.java_impl/resources/ChartNew.js:6669-6704 | the first running sum of a column on an axis is its datum |
| StatData.GrandTotalIsColumnTotals | org.inaetics.demonstrator.java_impl/resources/ChartNew.js:6542-6552 | the column totals of both axes make up the grand total |
| PieArcs.PieTable | org.inaetics.demonstrator.java_impl/resources/ChartNew.js:6406-6484 | arcs, cumulated values, percentages and links of all counted values |
| PieArcs.ArcIsProportional | org.inaetics.demonstrator.java_impl/resources/ChartNew.js:6420-6475 | angle and percentage of an arc are proportional to its value; a whole circle is drawn 0.001 short |
| PieArcs.ArcFromStart | org.inaetics.demonstrator.java_impl/resources/ChartNew.js:6420-6475 | an arc takes its angle; the first one starts at the starting angle |
| PieArcs.ArcsContiguous | org.inaetics.demonstrator.java_impl/resources/ChartNew.js:6455-6470 | an arc starts where the previous counted one ends; startAngle + realStartAngle is constant |
| PieArcs.PercentagesSum | org.inaetics.demonstrator.java_impl/resources/ChartNew.js:6449-6454 | percentages add up like the values, to 100 for all of them |
| PieArcs.AnglesSum | org.inaetics.demonstrator.java_impl/resources/ChartNew.js:6424-6426 | the angles make a full circle, 0.001 short exactly when one value carries the total |
| PieArcs.ArcsTile | org.inaetics.demonstrator.java_impl/resources/ChartNew.js:6455-6469 | every angle below the sum is swept by exactly one arc |
| Legend.SetMeasures | org.inaetics.demonstrator.java_impl/resources/ChartNew.js:5315-5352 | counts the titles, finds the widest, and divides them into lines and columns of cells that hold every title and its box |
| Legend.MaxOnLineIs | org.inaetics.demonstrator.java_impl/resources/ChartNew.js:5350 | exactly which numbers of columns fit on a line |
| Legend.FewestLines | org.inaetics.demonstrator.java_impl/resources/ChartNew.js:5350-5352 | the measured legend has the fewest lines, and with them the fewest columns, of all that fit |
| Legend.RowsAndColumns | org.inaetics.demonstrator.java_impl/resources/ChartNew.js:5350-5352 | columns never exceed what fits on a line, and filling them takes exactly the measured lines |
| Legend.DrawLegend | org.inaetics.demonstrator.java_impl/resources/ChartNew.js:6228-6252 | the k-th visible title is drawn in column k modulo cols of row k divided by cols |
| Legend.RowAndColOf | org.inaetics.demonstrator.java_impl/resources/ChartNew.js:6245-6252 | the row-by-row cursor is division with remainder |
| Legend.EveryTitleDrawnOnce | org.inaetics.demonstrator.java_impl/resources/ChartNew.js:6233-6244 | every visible title is drawn exactly once, last to first or reversed |
| Legend.DrawnLinesAreMeasured | org.inaetics.demonstrator.java_impl/resources/ChartNew.js:6245-6252 | the drawing uses exactly the measured number of lines |
| Legend.ColumnsFit | org.inaetics.demonstrator.java_impl/resources/ChartNew.js:5350-5358 | every column fits into the columns' width, and that into the available width |
| Legend.CellsDisjoint | org.inaetics.demonstrator.java_impl/resources/ChartNew.js:6245-6252 | no two titles are drawn over each other |
| NumberFormat.Unformat | org.inaetics.demonstrator.java_impl/resources/ChartNew.js:117-128 | the loop removes every thousands separator, then the decimal point is put back |
| NumberFormat.FormatIs | org.inaetics.demonstrator.java_impl/resources/ChartNew.js:160-188 | with any separators the integer part is grouped, the point replaced, the fraction kept |
| NumberFormat.GroupedDigits | org.inaetics.demonstrator.java_impl/resources/ChartNew.js:183 | separators stand exactly at every fourth place from the right of a digit string |
| NumberFormat.GroupedIntegerIs | org.inaetics.demonstrator.java_impl/resources/ChartNew.js:172-188 | the sign stays in front of the grouped digits |
| NumberFormat.SeparatorPositions | org.inaetics.demonstrator.java_impl/resources/ChartNew.js:172-188 | where the separators of a formatted integer part are, with or without sign, and which digit is at every other place |
| NumberFormat.FormatRoundTripIff | org.inaetics.demonstrator.java_impl/resources/ChartNew.js:117-188 | unFormat undoes fmtChartJS exactly unless the separators are equal and there is a fraction |
| NumberFormat.CommaForBoth | org.inaetics.demonstrator.java_impl/resources/ChartNew.js:117-128 | with a comma for both separators 1.5 comes back as 15 |
| Redraw.StepKeepsInv | org.inaetics.demonstrator.java_impl/resources/ChartNew.js:433-548 | every event but a disruptive second creation keeps the invariant; only first creation and accepted updates change what is to be shown |
| Redraw.RecreationIff | org.inaetics.demonstrator.java_impl/resources/ChartNew.js:1922-1966 | creating an existing chart again is safe exactly when it has no effect |
| Redraw.RedrawSafetyIff | org.inaetics.demonstrator.java_impl/resources/ChartNew.js:433-548 | over every run: one pending frame at most, the size of the container in states 1, 3 and 5, and in state 5 the last accepted data, throughout if and only if no creation disrupts an existing chart |
| Redraw.RedrawSafety | org.inaetics.demonstrator.java_impl/resources/ChartNew.js:433-548 | every run that creates the chart once is safe throughout |
| Redraw.CreatedTwice | org.inaetics.demonstrator.java_impl/resources/ChartNew.js:1924-1966 | two creations leave two frames pending; one on a displayed chart leaves it in state 5 with a frame pending and the first data registered |
| Redraw.SizeIs | org.inaetics.demonstrator.java_impl/resources/ChartNew.js:413-429 | the size of a chart: its container's width, and that divided by the aspect ratio or the container's height, held between the limits and truncated |
| Redraw.AsWideAsContainer | org.inaetics.demonstrator.java_impl/resources/ChartNew.js:413-429 | within the limits a chart is as wide as its container |
| Redraw.DrawnSize | org.inaetics.demonstrator.java_impl/resources/ChartNew.js:475-548 | over every run with one creation the chart has that size in states 1, 3 and 5 |
| Redraw.CreationDrawn | org.inaetics.demonstrator.java_impl/resources/ChartNew.js:484-499 | a first creation draws animated, at the size of the container |
| Redraw.UpdateDrawn | org.inaetics.demonstrator.java_impl/resources/ChartNew.js:453-473 | an update of a displayed chart draws the new data, animated or not as asked; any other is ignored |
| Redraw.ResizeHandled | org.inaetics.demonstrator.java_impl/resources/ChartNew.js:433-440 | a resize redraws a displayed chart exactly when its size is no longer right, and is remembered during a drawing |
| Redraw.FrameDrawn | org.inaetics.demonstrator.java_impl/resources/ChartNew.js:4640-4672 | which frame is the last of a drawing, and what follows it |
| Redraw.DrawingTakes | org.inaetics.demonstrator.java_impl/resources/ChartNew.js:4640-4672 | an uninterrupted drawing takes exactly animationSteps frames, or one when not animated |
| Redraw.FrameKeepsInv | org.inaetics.demonstrator.java_impl/resources/ChartNew.js:4640-4676 | a frame keeps the invariant and decreases the number of frames left |
| Redraw.RedrawProgress | org.inaetics.demonstrator.java_impl/resources/ChartNew.js:442-451 | once other events stop the chart is displayed after at most animationSteps + 1 frames |
| ResponsiveChart.Chart.Create | org.inaetics.demonstrator.java_impl/resources/ChartNew.js:1922-1966 | a first creation registers the chart and starts its drawing, a later one draws over it |
| ResponsiveChart.Chart.UpdateChart | org.inaetics.demonstrator.java_impl/resources/ChartNew.js:453-473 | an update is accepted only in state 5 |
| ResponsiveChart.Chart.ChartJsResize | org.inaetics.demonstrator.java_impl/resources/ChartNew.js:433-440 | a resize event redraws a displayed chart or marks one being drawn |
| ResponsiveChart.Chart.SubUpdateChart | org.inaetics.demonstrator.java_impl/resources/ChartNew.js:475-548 | the transitions of firstPass with their size changes and drawings |
| ResponsiveChart.Chart.TestRedraw | org.inaetics.demonstrator.java_impl/resources/ChartNew.js:442-451 | the end of a drawing: displayed, or redrawn when interrupted |
| ResponsiveChart.Chart.AnimLoop | org.inaetics.demonstrator.java_impl/resources/ChartNew.js:4640-4676 | one frame of a pending drawing |
| Animation.SkippedFrames | org.inaetics.demonstrator.java_impl/resources/ChartNew.js:4607-4615 | the least number of frames that reaches the starting value |
| Animation.BeginLeavesStep | org.inaetics.demonstrator.java_impl/resources/ChartNew.js:4607-4615 | fewer frames are skipped than there are steps exactly when the starting value is at most 1 - 1/steps |
| Animation.AnimationLoop | org.inaetics.demonstrator.java_impl/resources/ChartNew.js:4599-4676 | the whole animation has TotalFrames frames, with the progress of each, 1 exactly at the end of every forward pass |
| Animation.FrameShows | org.inaetics.demonstrator.java_impl/resources/ChartNew.js:4623-4651 | the progress handed to drawData is the eased share of the step, held between 0 and 0.9999, and 1 at the last step |
| Animation.PlaceInRun | org.inaetics.demonstrator.java_impl/resources/ChartNew.js:4655-4666 | which step a frame shows follows from the number of frames left |
| Animation.FrameIs | org.inaetics.demonstrator.java_impl/resources/ChartNew.js:4640-4666 | a frame has full progress exactly at a forward finish and leaves one frame less, or is the last |
| Animation.TotalFramesIs | org.inaetics.demonstrator.java_impl/resources/ChartNew.js:4655-4666 | the closed forms (S-B)+(C-1)(S-B+1) and, backward, (2C-1)(S-B) |
| Animation.EndsAfterTotal | org.inaetics.demonstrator.java_impl/resources/ChartNew.js:4640-4676 | the animation ends after exactly that many frames |
| Animation.AnimationEndsIff | org.inaetics.demonstrator.java_impl/resources/ChartNew.js:4603-4653 | it ends exactly when it has a count, at least one step, and a starting value of at most 1 - 1/steps; a starting value above 1 raises the stop value |
| Animation.StartedTooLate | org.inaetics.demonstrator.java_impl/resources/ChartNew.js:4603-4653 | with ten steps starting values of 1 and of 1.5 never end |
| SampleQueue.EveryRunIsLinear | org.inaetics.demonstrator.celix.implementation/sample_queue/private/src/arraylist_sample_queue_impl.c:120-286 | every interleaving is a legal history of a sequential FIFO queue; bound, counters and answers hold |
| SampleQueue.TakenStays | org.inaetics.demonstrator.celix.implementation/sample_queue/private/src/arraylist_sample_queue_impl.c:221-286 | what was taken first stays first, whatever follows |
| SampleQueue.PutAllAnswers | org.inaetics.demonstrator.celix.implementation/sample_queue/private/src/arraylist_sample_queue_impl.c:162-219 | as many samples are added as there is room and memory for, and the status says which was lacking |
| SampleQueue.PutAnswers | org.inaetics.demonstrator.celix.implementation/sample_queue/private/src/arraylist_sample_queue_impl.c:120-160 | a put writes its flag exactly when it adds the sample and fails only for lack of memory |
| SampleQueue.WakingTaker | org.inaetics.demonstrator.celix.implementation/sample_queue/private/src/arraylist_sample_queue_impl.c:231-286 | a waiting taker receives samples exactly when its wait did not time out and what it needs is there, and then which; otherwise when it waits on and when it fails |
| SampleQueue.LateSample | org.inaetics.demonstrator.celix.implementation/sample_queue/private/src/arraylist_sample_queue_impl.c:231-245 | a take that times out fails and leaves the sample that arrived before it could run |
| SampleWakeups.SignalsWake | org.inaetics.demonstrator.celix.implementation/sample_queue/private/src/arraylist_sample_queue_impl.c:130-190 | unless everybody has been woken, as many threads are woken as samples were added |
| SampleWakeups.AlikeRun | org.inaetics.demonstrator.celix.implementation/sample_queue/private/src/arraylist_sample_queue_impl.c:162-286 | over every run of takers with the same need, while somebody sleeps no more samples are there than are too few to take and wakeups under way |
| SampleWakeups.OversleepIff | org.inaetics.demonstrator.celix.implementation/sample_queue/private/src/arraylist_sample_queue_impl.c:138-264 | somebody can be left asleep beside the samples it needs if and only if takers with different needs share the queue |
| SampleWakeups.WasteMany | org.inaetics.demonstrator.celix.implementation/sample_queue/private/src/arraylist_sample_queue_impl.c:190-264 | the failing run: every signal goes to the taker that needs more |
| QueueMonitor.Monitor.Put | org.inaetics.demonstrator.celix.implementation/sample_queue/private/src/arraylist_sample_queue_impl.c:120-160 | adds the sample if there is room and memory; when full the flag is not written |
| QueueMonitor.Monitor.PutAll | org.inaetics.demonstrator.celix.implementation/sample_queue/private/src/arraylist_sample_queue_impl.c:162-219 | adds exactly the first samples that fit and can be copied, with the matching status |
| QueueMonitor.Monitor.Take | org.inaetics.demonstrator.celix.implementation/sample_queue/private/src/arraylist_sample_queue_impl.c:221-251 | one section of take: waits, or removes the oldest sample, or ends empty-handed |
| QueueMonitor.Monitor.TakeAll | org.inaetics.demonstrator.celix.implementation/sample_queue/private/src/arraylist_sample_queue_impl.c:253-286 | one section of takeAll: the oldest samples, at most max, go to the front of the buffer in order |
| QueueMonitor.Monitor.PrintStatistics | org.inaetics.demonstrator.celix.implementation/sample_queue/private/src/arraylist_sample_queue_impl.c:312-317 | reports and resets the two counters |
| Coordinators.SharesAddUp | org.inaetics.demonstrator.java_impl/src/org/inaetics/demonstrator/coordinator/k8s/KubernetesCoordinatorService.java:130-135 | the shares of distinct controllers add up to the request |
| Coordinators.SharesEven | org.inaetics.demonstrator.java_impl/src/org/inaetics/demonstrator/coordinator/k8s/KubernetesCoordinatorService.java:130-135 | shares differ by at most one |
| Coordinators.OneMoreReplica | org.inaetics.demonstrator.java_impl/src/org/inaetics/demonstrator/coordinator/k8s/KubernetesCoordinatorService.java:130-135 | one replica more changes exactly one share, by one |
| Coordinators.CoordinatorsAgreeIff | org.inaetics.demonstrator.api/src/org/inaetics/demonstrator/api/coordinator/CoordinatorService.java:38-45 | exactly when the two services agree on the count and on the answer |
| Coordinators.RequestHonoured | org.inaetics.demonstrator.java_impl/src/org/inaetics/demonstrator/coordinator/k8s/KubernetesCoordinatorService.java:70-99 | a request in range is honoured; one above it fills a cluster and leaves the stub alone |
| Coordinators.OneTooMany | org.inaetics.demonstrator.api/src/org/inaetics/demonstrator/api/coordinator/CoordinatorService.java:38-45 | one replica more than the maximum fills a cluster and is ignored by the stub |
| KubernetesCoordinators.KubernetesCoordinator.SetReplicaCount | org.inaetics.demonstrator.java_impl/src/org/inaetics/demonstrator/coordinator/k8s/KubernetesCoordinatorService.java:70-128 | each controller whose status differs from its share is rescaled; at rest the count becomes min(n, max) |
| KubernetesCoordinators.KubernetesCoordinator.GetReplicaCount | org.inaetics.demonstrator.java_impl/src/org/inaetics/demonstrator/coordinator/k8s/KubernetesCoordinatorService.java:137-143 | the count is the sum over the controllers |
| StubCoordinators.StubCoordinator.SetReplicaCount | org.inaetics.demonstrator.java_impl/src/org/inaetics/demonstrator/coordinator/stub/StubCoordinatorService.java:72-104 | requests in range that change something are carried out, all others ignored |
| StubCoordinators.StubCoordinator.UpdateServices | org.inaetics.demonstrator.java_impl/src/org/inaetics/demonstrator/coordinator/stub/StubCoordinatorService.java:115-142 | removes the oldest replicas, or appends those whose start succeeds |
| AutoScaling.TickDirection | org.inaetics.demonstrator.java_impl/src/org/inaetics/demonstrator/coordinator/autoscaler/AutoScalerImpl.java:56-120 | exactly when a tick removes processors, never at or above the high barrier, always within 1 and the maximum |
| AutoScaling.TickMeans | org.inaetics.demonstrator.java_impl/src/org/inaetics/demonstrator/coordinator/autoscaler/AutoScalerImpl.java:56-120 | the count after a tick, for every rise of the utilization: two or one more, none, one or two fewer, as far as there is room, and down to 1 |
| AutoScaling.GrowthIff | org.inaetics.demonstrator.java_impl/src/org/inaetics/demonstrator/coordinator/autoscaler/AutoScalerImpl.java:65-85 | exactly when a tick adds processors |
| AutoScaling.CountStaysInRange | org.inaetics.demonstrator.java_impl/src/org/inaetics/demonstrator/coordinator/autoscaler/AutoScalerImpl.java:56-156 | after any start or restart the count stays in range over every utilization history, with either coordinator |
| AutoScaling.ConstantUtilizationSettles | org.inaetics.demonstrator.java_impl/src/org/inaetics/demonstrator/coordinator/autoscaler/AutoScalerImpl.java:81-94 | under constant utilization the count moves by one per tick to 1, to the maximum, or stays put |
| AutoScaling.SettledAfter | org.inaetics.demonstrator.java_impl/src/org/inaetics/demonstrator/coordinator/autoscaler/AutoScalerImpl.java:56-110 | from any state it has settled after one tick and max - 1 more |
| AutoScaling.SteadyBetweenBarriersIff | org.inaetics.demonstrator.java_impl/src/org/inaetics/demonstrator/coordinator/autoscaler/AutoScalerImpl.java:81-95 | between the barriers a steady queue keeps its processors exactly when slope1 is positive |
| AutoScaling.SteadyQueueLosesProcessor | org.inaetics.demonstrator.java_impl/src/org/inaetics/demonstrator/coordinator/autoscaler/AutoScalerImpl.java:81-95 | with slope1 0 a queue that stays at 40 % between 25 and 75 loses a processor |
| AutoScaling.AutoScaler.CheckQueue | org.inaetics.demonstrator.java_impl/src/org/inaetics/demonstrator/coordinator/autoscaler/AutoScalerImpl.java:56-110 | one tick on the fields and on the bound coordinator |
| AutoScaling.AutoScaler.Scale | org.inaetics.demonstrator.java_impl/src/org/inaetics/demonstrator/coordinator/autoscaler/AutoScalerImpl.java:112-120 | a relative request that keeps one processor |
| AutoScaling.AutoScaler.Start | org.inaetics.demonstrator.java_impl/src/org/inaetics/demonstrator/coordinator/autoscaler/AutoScalerImpl.java:148-151 | the initial request for one processor; the last value and slope of an earlier run are kept |
| AutoScaling.StartsWithOne | org.inaetics.demonstrator.java_impl/src/org/inaetics/demonstrator/coordinator/autoscaler/AutoScalerImpl.java:148-151 | after start there is one processor |
| SampleRates.ValidIntervalIff | org.inaetics.demonstrator.java_impl/src/org/inaetics/demonstrator/producer/AbstractSampleProducer.java:50-88 | a positive rate gives a valid interval exactly up to the maximum rate |
| SampleRates.IntervalIs | org.inaetics.demonstrator.java_impl/src/org/inaetics/demonstrator/producer/AbstractSampleProducer.java:83-88 | the interval of a rate is the longest with which that many samples fit into a second |
| SampleRates.RateIs | org.inaetics.demonstrator.java_impl/src/org/inaetics/demonstrator/producer/AbstractSampleProducer.java:50-71 | reported and maximum rate are the greatest that their interval allows |
| SampleRates.RateRoundTripIff | org.inaetics.demonstrator.java_impl/src/org/inaetics/demonstrator/producer/AbstractSampleProducer.java:65-88 | a rate is reported as set exactly when the next rate has a shorter interval, so up to the square root of a million |
| SampleRates.PercentRateIs | org.inaetics.demonstrator.java_impl/src/org/inaetics/demonstrator/view/endpoint/CoordinatorServlet.java:323-329 | the double product, truncated, is the percentage rounded down, or one less exactly when that is whole and rounding loses it |
| SampleRates.QuartersAreKept | org.inaetics.demonstrator.java_impl/src/org/inaetics/demonstrator/view/endpoint/CoordinatorServlet.java:325 | nothing is lost when the maximum rate is a multiple of 25 |
| SampleRates.AllIsLessThanAll | org.inaetics.demonstrator.java_impl/src/org/inaetics/demonstrator/view/endpoint/CoordinatorServlet.java:325 | 100 % of 29 samples per second is set, and reported, as 28 |
| SampleRates.ReportedRateIs | org.inaetics.demonstrator.java_impl/src/org/inaetics/demonstrator/producer/AbstractSampleProducer.java:65-88 | a producer of at most 1000 samples per second reports the rate set, which is the percentage exactly when that is whole and kept |
| SampleRates.ReportedTotals | org.inaetics.demonstrator.java_impl/src/org/inaetics/demonstrator/utilization/UtilitizationAggegrator.java:52-62 | the totals fall short of the percentage by at most one sample per second and producer, and by nothing exactly when no producer falls short |
| SampleRates.UtilizationIs | org.inaetics.demonstrator.java_impl/src/org/inaetics/demonstrator/utilization/UtilitizationAggegrator.java:64-69 | the rounded quotient is a whole percentage exactly when the exact one is |
| SampleRates.UtilizationNear | org.inaetics.demonstrator.java_impl/src/org/inaetics/demonstrator/utilization/UtilitizationAggegrator.java:64-69 | any utilization is the quotient of the totals in percent, but for rounding |
| SampleRates.AggregateIsExactIff | org.inaetics.demonstrator.java_impl/src/org/inaetics/demonstrator/utilization/UtilitizationAggegrator.java:52-70 | the aggregate never exceeds the request, and equals it exactly when it is a whole rate for every producer that rounding does not lose |
| RateControl.Producer.SetSampleRate | org.inaetics.demonstrator.java_impl/src/org/inaetics/demonstrator/producer/AbstractSampleProducer.java:83-88 | stores the interval of a rate |
| RateControl.CoordinatorServlet.AddProducer | org.inaetics.demonstrator.java_impl/src/org/inaetics/demonstrator/view/endpoint/CoordinatorServlet.java:102-106 | a new producer gets the current percentage, so all producers stay at it |
| RateControl.CoordinatorServlet.RemoveProducer | org.inaetics.demonstrator.java_impl/src/org/inaetics/demonstrator/view/endpoint/CoordinatorServlet.java:109-112 | removes the first occurrence; the others stay at the percentage |
| RateControl.CoordinatorServlet.PostUtilisation | org.inaetics.demonstrator.java_impl/src/org/inaetics/demonstrator/view/endpoint/CoordinatorServlet.java:268-280 | an accepted percentage reaches every producer, a bad one changes nothing |
| RateControl.UtilizationAggregator.GetValue | org.inaetics.demonstrator.java_impl/src/org/inaetics/demonstrator/utilization/UtilitizationAggegrator.java:52-70 | the loop computes the utilization of all producers together |
| RateControl.PostedPercentageIsReported | org.inaetics.demonstrator.java_impl/src/org/inaetics/demonstrator/utilization/UtilitizationAggegrator.java:52-70 | end to end: with producers of minimal interval 1000 the aggregate is the percentage last accepted |

## Left out

- AxisScale.ScaleCoversMaximum: bounds that are rounded to 0 are characterised where zeroValue is below the initial step, a tenth of the range or more.
- LineAxis.LineEndToEnd: for values all within zeroValue of 0 with a negative minimum (MovedOffZero) zeroValue has to be at most 0.005 and at most half of 1 / maxSteps; it is 0.0000000001 by default.
- AxisScale.CalculateScale: yAxisMinimumInterval, logarithmic axes, tick labels and floating-point rounding are not modelled; the input for which the step search never ends is a precondition.
- LineAxis.GetValueBounds: drawMathDeviation functions and graphMin/graphMax overrides are not modelled.
- Stacking.GetStackedBounds: the innermost loop and its body are methods of their own.
- Stacking.StackBars: horizontal positions of bars are not modelled.
- PieArcs.PieTable: the total must be positive (with total 0 the source divides by 0); PolarArea charts and the reduction of the starting angle modulo a full circle are not modelled.
- Legend.SetMeasures: a title counts as visible in measuring and in drawing alike; when not even one cell fits on a line the result is Overflow, where the source goes on with infinite numbers.
- NumberFormat.Unformat: the conversion between numbers and their decimal text is not modelled, nor are rounding, exponents and separators of several characters.
- Redraw.RedrawSafetyIff: one chart, with animationCount 1, an integer animationSteps of at least 1, no dynamicDisplay, PNG saving or multiGraph; the canvas has a width, so the aspect ratio is positive; whether an axis fits at a size is an arbitrary predicate.
- Animation.AnimationLoop: animationSteps is an integer, animationStopValue is configured as 1 and firstPass stays 1; the easing function is arbitrary.
- SampleQueue.EveryRunIsLinear: a live queue only (not NULL); any waiting thread may wake at any time, which allows more runs than the source; a wait is the end of one section and the start of another.
- SampleWakeups.OversleepIff: a signal wakes exactly one sleeping thread, others may wake spuriously; a thread that was signalled does not time out as well; takers accept at least one sample.
- QueueMonitor.Monitor.TakeAll: the buffer is large enough for max samples.
- KubernetesCoordinators.KubernetesCoordinator.SetReplicaCount: calls to the cluster succeed and controllers are visited in the order of their names; the maximum is not negative.
- AutoScaling.AutoScaler.SetReplicaCount: starts succeed and a Kubernetes cluster comes to rest before the next tick; the coordinator interface is a choice between two object references.
- RateControl.UtilizationAggregator.GetValue: remote calls to producers succeed.
- SampleRates.AggregateIsExactIff: producers of at most 1000 samples per second, fewer than 2^31 of them; a faster one may not report the rate that it was set to (RateRoundTripIff).
- Canvas drawing, text measuring, mouse and annotation code, templates, PNG saving, dynamic display and splines.
- Radar and PolarArea scales, horizontal bars, and the scroll display, which repeat or do not use this arithmetic.
- The Java queue, data stores, timestamp map, statistic tracker, log sender, cluster information and producer threads.
- Destroying the C queue while it is in use.
