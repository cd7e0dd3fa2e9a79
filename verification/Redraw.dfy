/**
 Redrawing a responsive chart (ChartNew.js, updateChart, chartJsResize, testRedraw, subUpdateChart and
 the end of animationLoop). ctx.firstPass says what the chart is doing:

   -1 never drawn                 4 like 3, but perhaps to be redrawn at the end
    0 to be redrawn, animated     5 displayed
    1 being drawn, animated       6 displayed, to be redrawn because of a resize
    2 like 1, but perhaps to be   7 displayed, to be redrawn because of an update
      redrawn at the end
    3 being drawn, not animated

 The functions on State are the specification of the class Chart of module ResponsiveChart.
 One chart is modelled, with animationCount 1, animationStopValue 1 and animationStartValue 0.
 */
module Redraw {
  import opened Numbers

  datatype Size = Size(width: int, height: int)

  type Steps = n: int | n >= 1 witness 1

  datatype Config = Config(animation: bool, animationSteps: Steps, maintainAspectRatio: bool,
                           minWidth: real, maxWidth: real, minHeight: real, maxHeight: real)

  /** What is to be drawn; data stands for the identity of the data object. */
  datatype Payload = Payload(data: int, config: Config)

  /** The aspect ratio of the original canvas, and whether an axis fits when drawn at a given size. */
  datatype Env = Env(aspectRatio: Ratio, drawable: (Payload, Size) -> bool)

  type Ratio = r: real | r > 0.0 witness 1.0

  const UNDEFINED := -1

  function Clamp(x: real, low: real, high: real): real {
    var y := if x > low then x else low;
    if y < high then y else high
  }

  function ResizeGraph(env: Env, container: Size, config: Config): Size {
    var newWidth := container.width as real;
    var newHeight := if config.maintainAspectRatio then newWidth / env.aspectRatio else container.height as real;
    Size(Truncate(Clamp(newWidth, config.minWidth, config.maxWidth)),
         Truncate(Clamp(newHeight, config.minHeight, config.maxHeight)))
  }

  /** A scheduled animation frame: what it draws and how many frames it has drawn. */
  datatype Loop = Loop(payload: Payload, cntiter: int)

  /**
   prev is the size last drawn at, registry the entry of jsGraphResize, pending the scheduled frames and
   shown what the canvas displays in full. notified says that no container change is waiting for its
   resize event, accepted is the last payload given to the first creation or to an accepted update.
   */
  datatype State = State(firstPass: int, container: Size, prev: Size, registry: Option<Payload>,
                         pending: seq<Loop>, shown: Option<Payload>, notified: bool, accepted: Option<Payload>)

  function Initial(container: Size): State {
    State(UNDEFINED, container, Size(0, 0), None, [], None, true, None)
  }

  // ----- The procedures, as functions on the state -----

  /** Orders the mutual calls: a redraw of phase 2 or 4 restarts in 6, which draws in 1 or 3. */
  function Rank(firstPass: int): nat {
    if firstPass == 2 || firstPass == 4 then 3 else if firstPass == 1 || firstPass == 3 then 1 else 2
  }

  /** Takes the current size; setting the canvas size clears it. */
  function Resized(env: Env, s: State, firstPass: int, p: Payload): State {
    s.(firstPass := firstPass, prev := ResizeGraph(env, s.container, p.config), shown := None)
  }

  function SubUpdateChart(env: Env, s: State, p: Payload): State
    decreases Rank(s.firstPass), 2
  {
    match s.firstPass
    case 1 => s.(firstPass := 2)
    case 2 => s.(firstPass := 2)
    case 3 => s.(firstPass := 4)
    case 4 => s.(firstPass := 4)
    case 5 => RedrawGraph(env, s.(firstPass := 1), p)
    case 6 =>
      if ResizeGraph(env, s.container, p.config) != s.prev then RedrawGraph(env, Resized(env, s, 3, p), p)
      else s.(firstPass := 5)
    case 7 => RedrawGraph(env, Resized(env, s, 3, p), p)
    case _ => RedrawGraph(env, Resized(env, s, 1, p), p)
  }

  /** Draws the chart: clears it and schedules its first frame, or gives up at once when no axis fits. */
  function RedrawGraph(env: Env, s: State, p: Payload): State
    decreases Rank(s.firstPass), 1
  {
    var s := s.(shown := None);
    if env.drawable(p, s.prev) then s.(pending := s.pending + [Loop(p, 0)]) else TestRedraw(env, s, p)
  }

  function TestRedraw(env: Env, s: State, p: Payload): State
    decreases Rank(s.firstPass), 0
  {
    if s.firstPass == 2 || s.firstPass == 4 then SubUpdateChart(env, s.(firstPass := 6), p)
    else s.(firstPass := 5)
  }

  /** The first creation registers the chart; a later one draws over it, whatever it is doing. */
  function CreateChart(env: Env, s: State, p: Payload): State {
    if s.firstPass == UNDEFINED then SubUpdateChart(env, s.(registry := Some(p), accepted := Some(p)), p)
    else RedrawGraph(env, s, p)
  }

  function UpdateChart(env: Env, s: State, p: Payload, animation: bool): State {
    if s.firstPass != 5 then s
    else SubUpdateChart(env, s.(firstPass := if animation then 0 else 7, registry := Some(p), accepted := Some(p)), p)
  }

  function ChartJsResize(env: Env, s: State): State {
    var s := s.(notified := true);
    if s.registry.None? then s
    else SubUpdateChart(env, if s.firstPass == 5 then s.(firstPass := 6) else s, s.registry.value)
  }

  /** The last frame of a drawing: its step count is reached, or it is not animated. */
  predicate LastFrame(firstPass: int, loop: Loop) {
    loop.cntiter + 1 == loop.payload.config.animationSteps || !loop.payload.config.animation
    || firstPass == 3 || firstPass == 4
  }

  /** The browser runs the k-th scheduled frame. */
  function AnimLoop(env: Env, s: State, k: nat): State
    requires k < |s.pending|
  {
    var loop := s.pending[k];
    var s := s.(pending := s.pending[..k] + s.pending[k + 1..]);
    if LastFrame(s.firstPass, loop) then TestRedraw(env, s.(shown := Some(loop.payload)), loop.payload)
    else s.(pending := s.pending + [loop.(cntiter := loop.cntiter + 1)])
  }

  // ----- Runs -----

  datatype Event =
    | Create(payload: Payload)
    | ContainerChanges(size: Size)
    | ResizeEvent
    | Update(payload: Payload, animation: bool)
    | Frame(k: nat)

  /** A frame event without such a frame does nothing. */
  function Step(env: Env, s: State, e: Event): State {
    match e
    case Create(p) => CreateChart(env, s, p)
    case ContainerChanges(size) => s.(container := size, notified := false)
    case ResizeEvent => ChartJsResize(env, s)
    case Update(p, animation) => UpdateChart(env, s, p, animation)
    case Frame(k) => if k < |s.pending| then AnimLoop(env, s, k) else s
  }

  function Run(env: Env, s: State, events: seq<Event>): State {
    if events == [] then s else Step(env, Run(env, s, events[..|events| - 1]), events[|events| - 1])
  }

  /** What holds between any two events. */
  predicate Inv(env: Env, s: State) {
    && s.firstPass in {UNDEFINED, 1, 2, 3, 4, 5}
    && s.registry == s.accepted
    && (s.firstPass == UNDEFINED <==> s.registry.None?)
    && (s.firstPass in {UNDEFINED, 5} ==> s.pending == [])
    && (s.firstPass in {1, 2, 3, 4} ==> |s.pending| == 1 && Current(env, s, s.pending[0]))
    && (s.firstPass in {1, 3, 5} && s.notified ==> s.prev == ResizeGraph(env, s.container, s.accepted.value.config))
    && (s.firstPass == 5 ==> s.shown == if env.drawable(s.accepted.value, s.prev) then s.accepted else None)
  }

  /** The scheduled frame draws what was last accepted, fits, and is not past its last step. */
  predicate Current(env: Env, s: State, loop: Loop)
    requires s.accepted.Some?
  {
    && loop.payload == s.accepted.value && env.drawable(loop.payload, s.prev)
    && 0 <= loop.cntiter && (loop.payload.config.animation ==> loop.cntiter < loop.payload.config.animationSteps)
  }

  lemma RedrawGraphIs(env: Env, s: State, p: Payload)
    requires s.firstPass != 2 && s.firstPass != 4
    ensures RedrawGraph(env, s, p)
            == if env.drawable(p, s.prev) then s.(shown := None, pending := s.pending + [Loop(p, 0)])
               else s.(shown := None, firstPass := 5)
  {
  }

  /** A drawing begun in phase 1 or 3 at the current size. */
  lemma FreshDrawing(env: Env, s: State, firstPass: int, p: Payload)
    requires firstPass == 1 || firstPass == 3
    requires s.pending == [] && s.accepted == s.registry == Some(p)
    ensures var r := RedrawGraph(env, Resized(env, s, firstPass, p), p);
            Inv(env, r) && r.firstPass in {firstPass, 5} && r.accepted == s.accepted
  {
    RedrawGraphIs(env, Resized(env, s, firstPass, p), p);
  }

  /** Starting a drawing from a state without scheduled frames. */
  lemma DrawingStarts(env: Env, s: State, p: Payload)
    requires s.firstPass in {UNDEFINED, 0, 6, 7} && s.pending == [] && s.accepted == s.registry == Some(p)
    requires s.firstPass == 6 ==> s.shown == if env.drawable(p, s.prev) then Some(p) else None
    ensures var r := SubUpdateChart(env, s, p);
            && Inv(env, r) && r.accepted == s.accepted
            && r.firstPass in (if s.firstPass in {6, 7} then {3, 5} else {1, 5})
  {
    FreshDrawing(env, s, if s.firstPass in {6, 7} then 3 else 1, p);
  }

  /**
   A creation on a chart that exists already, other than one that does not fit on a displayed chart on
   which nothing fits.
   */
  predicate Disrupts(env: Env, s: State, e: Event) {
    && e.Create? && s.firstPass != UNDEFINED
    && !(s.firstPass == 5 && s.shown == None && !env.drawable(e.payload, s.prev))
  }

  /**
   Every event but such a creation keeps the invariant, and only a first creation or an update of a
   displayed chart changes what was last accepted.
   */
  lemma StepKeepsInv(env: Env, s: State, e: Event)
    requires Inv(env, s) && !Disrupts(env, s, e)
    ensures Inv(env, Step(env, s, e))
    ensures Step(env, s, e).accepted
            == if (e.Create? && s.firstPass == UNDEFINED) || (e.Update? && s.firstPass == 5) then Some(e.payload)
               else s.accepted
  {
    match e
    case Create(p) =>
      if s.firstPass == UNDEFINED {
        DrawingStarts(env, s.(registry := Some(p), accepted := Some(p)), p);
      } else {
        RedrawGraphIs(env, s, p);
      }
    case ContainerChanges(size) =>
    case ResizeEvent =>
      if s.firstPass == 5 {
        DrawingStarts(env, s.(notified := true, firstPass := 6), s.accepted.value);
      }
    case Update(p, animation) =>
      if s.firstPass == 5 {
        DrawingStarts(env, s.(firstPass := if animation then 0 else 7, registry := Some(p), accepted := Some(p)), p);
      }
    case Frame(k) =>
      if k < |s.pending| {
        FrameKeepsInv(env, s);
      }
  }

  lemma FrameKeepsInv(env: Env, s: State)
    requires Inv(env, s) && s.pending != []
    ensures Inv(env, AnimLoop(env, s, 0))
    ensures Remaining(AnimLoop(env, s, 0)) < Remaining(s)
    ensures AnimLoop(env, s, 0).accepted == s.accepted
  {
    var loop := s.pending[0];
    assert s.pending[..0] + s.pending[1..] == [];
    if LastFrame(s.firstPass, loop) && (s.firstPass == 2 || s.firstPass == 4) {
      DrawingStarts(env, s.(pending := [], shown := Some(loop.payload), firstPass := 6), loop.payload);
    }
  }

  /**
   At most one frame is scheduled; in the states 1, 3 and 5 the chart has the size that its container
   calls for, once the resize event has come; and when it is displayed, nothing is scheduled and it shows
   what was last accepted, if that fits at all.
   */
  predicate Safe(env: Env, s: State) {
    && |s.pending| <= 1
    && (s.firstPass in {1, 3, 5} && s.notified ==>
          s.accepted.Some? && s.prev == ResizeGraph(env, s.container, s.accepted.value.config))
    && (s.firstPass == 5 ==> s.pending == [] && s.accepted.Some?
                             && s.shown == if env.drawable(s.accepted.value, s.prev) then s.accepted else None)
  }

  /** Creating an existing chart again is safe exactly when it has no effect. */
  lemma RecreationIff(env: Env, s: State, p: Payload)
    requires Inv(env, s) && s.firstPass != UNDEFINED
    ensures Safe(env, Step(env, s, Create(p))) <==> !Disrupts(env, s, Create(p))
    ensures Safe(env, Step(env, s, Create(p))) <==> Step(env, s, Create(p)) == s
  {
    if s.firstPass == 2 || s.firstPass == 4 {
      var s6 := s.(shown := None, firstPass := 6);
      if !env.drawable(p, s.prev) {
        var cleared := s.(shown := None);
        assert cleared.(firstPass := 6) == s6;
        assert RedrawGraph(env, s, p) == TestRedraw(env, cleared, p) == SubUpdateChart(env, s6, p);
      }
      Interrupted(env, s6, p);
    } else {
      RedrawGraphIs(env, s, p);
    }
  }

  /** Starting over while a frame is scheduled. */
  lemma Interrupted(env: Env, s: State, p: Payload)
    requires s.firstPass == 6 && s.pending != []
    ensures !Safe(env, SubUpdateChart(env, s, p))
  {
    RedrawGraphIs(env, Resized(env, s, 3, p), p);
  }

  /** The state after the first n events. */
  function At(env: Env, container: Size, events: seq<Event>, n: nat): State
    requires n <= |events|
  {
    Run(env, Initial(container), events[..n])
  }

  lemma NextState(env: Env, container: Size, events: seq<Event>, n: nat)
    requires n < |events|
    ensures At(env, container, events, n + 1) == Step(env, At(env, container, events, n), events[n])
  {
    assert events[..n + 1][..n] == events[..n];
  }

  lemma {:induction false} QuietRun(env: Env, container: Size, events: seq<Event>, n: nat)
    requires n <= |events|
    requires forall k | 0 <= k < n :: !Disrupts(env, At(env, container, events, k), events[k])
    ensures Inv(env, At(env, container, events, n))
  {
    if n > 0 {
      QuietRun(env, container, events, n - 1);
      NextState(env, container, events, n - 1);
      StepKeepsInv(env, At(env, container, events, n - 1), events[n - 1]);
    }
  }

  /** Safety over runs: a run is safe throughout if and only if no creation in it disrupts an existing chart. */
  lemma RedrawSafetyIff(env: Env, container: Size, events: seq<Event>)
    ensures (forall n | 0 <= n <= |events| :: Safe(env, At(env, container, events, n)))
            <==> (forall n | 0 <= n < |events| :: !Disrupts(env, At(env, container, events, n), events[n]))
  {
    if forall n | 0 <= n < |events| :: !Disrupts(env, At(env, container, events, n), events[n]) {
      forall n | 0 <= n <= |events| ensures Safe(env, At(env, container, events, n)) {
        QuietRun(env, container, events, n);
      }
    } else {
      var n := FirstDisruption(env, container, events, |events|);
      QuietRun(env, container, events, n);
      NextState(env, container, events, n);
      RecreationIff(env, At(env, container, events, n), events[n].payload);
    }
  }

  lemma {:induction false} FirstDisruption(env: Env, container: Size, events: seq<Event>, m: nat) returns (n: nat)
    requires m <= |events| && exists k :: 0 <= k < m && Disrupts(env, At(env, container, events, k), events[k])
    ensures n < m && Disrupts(env, At(env, container, events, n), events[n])
    ensures forall k | 0 <= k < n :: !Disrupts(env, At(env, container, events, k), events[k])
  {
    if exists k :: 0 <= k < m - 1 && Disrupts(env, At(env, container, events, k), events[k]) {
      n := FirstDisruption(env, container, events, m - 1);
    } else {
      n := m - 1;
    }
  }

  /** In particular every run is safe in which the chart is created once. */
  lemma RedrawSafety(env: Env, container: Size, events: seq<Event>)
    requires forall i, k | 0 <= i < k < |events| :: !(events[i].Create? && events[k].Create?)
    ensures forall n | 0 <= n <= |events| ::
              Inv(env, At(env, container, events, n)) && Safe(env, At(env, container, events, n))
  {
    forall n | 0 <= n <= |events|
      ensures Inv(env, At(env, container, events, n)) && Safe(env, At(env, container, events, n))
    {
      forall k | 0 <= k < n && events[k].Create? ensures At(env, container, events, k).firstPass == UNDEFINED {
        NotYetCreated(env, container, events, k);
      }
      QuietRun(env, container, events, n);
    }
  }

  lemma {:induction false} NotYetCreated(env: Env, container: Size, events: seq<Event>, n: nat)
    requires n <= |events| && forall k | 0 <= k < n :: !events[k].Create?
    ensures var s := At(env, container, events, n);
            s.firstPass == UNDEFINED && s.registry == None && s.pending == []
  {
    if n > 0 {
      NotYetCreated(env, container, events, n - 1);
      NextState(env, container, events, n - 1);
    }
  }

  /** Two creations that fit leave two frames scheduled; one on a displayed chart leaves it displayed and drawing. */
  lemma CreatedTwice(env: Env, container: Size, p: Payload, q: Payload)
    requires var size := ResizeGraph(env, container, p.config); env.drawable(p, size) && env.drawable(q, size)
    requires p.config.animationSteps == 1
    ensures var s := Run(env, Initial(container), [Create(p), Create(q)]);
            s.firstPass == 1 && s.pending == [Loop(p, 0), Loop(q, 0)]
    ensures var s := Run(env, Initial(container), [Create(p), Frame(0), Create(q)]);
            s.firstPass == 5 && s.pending == [Loop(q, 0)] && s.registry == Some(p)
  {
    var s0 := Initial(container);
    var s1 := Step(env, s0, Create(p));
    RedrawGraphIs(env, Resized(env, s0.(registry := Some(p), accepted := Some(p)), 1, p), p);
    assert s1.pending == [Loop(p, 0)] && s1.firstPass == 1;
    RedrawGraphIs(env, s1, q);
    RunTwo(env, s0, Create(p), Create(q));
    RunTwo(env, s0, Create(p), Frame(0));
    var s2 := Step(env, s1, Frame(0));
    assert s2.pending == [] && s2.firstPass == 5;
    RedrawGraphIs(env, s2, q);
    var e := [Create(p), Frame(0), Create(q)];
    assert e[..2] == [Create(p), Frame(0)];
  }

  lemma RunTwo(env: Env, s: State, a: Event, b: Event)
    ensures Run(env, s, [a, b]) == Step(env, Step(env, s, a), b)
  {
    assert [a, b][..1] == [a] && [a][..0] == [];
    assert Run(env, s, [a]) == Step(env, s, a);
  }

  // ----- What is drawn, and at which size -----

  /** n is x, held between low and high and then rounded toward zero; high wins if the limits cross. */
  predicate HeldBetween(x: real, low: real, high: real, n: int) {
    && (low <= x <= high ==> IsTruncated(x, n))
    && (x < low <= high ==> IsTruncated(low, n))
    && (x > high || low > high ==> IsTruncated(high, n))
  }

  predicate IsTruncated(x: real, n: int) {
    if x >= 0.0 then n as real <= x < n as real + 1.0 else n as real - 1.0 < x <= n as real
  }

  /** The size that a container calls for. */
  predicate SizedFor(env: Env, container: Size, config: Config, size: Size) {
    && HeldBetween(container.width as real, config.minWidth, config.maxWidth, size.width)
    && HeldBetween(if config.maintainAspectRatio then container.width as real / env.aspectRatio else container.height as real,
                   config.minHeight, config.maxHeight, size.height)
  }

  lemma SizeIs(env: Env, container: Size, config: Config, size: Size)
    ensures SizedFor(env, container, config, size) <==> size == ResizeGraph(env, container, config)
  {
    var w := container.width as real;
    HeldIs(w, config.minWidth, config.maxWidth, size.width);
    HeldIs(if config.maintainAspectRatio then w / env.aspectRatio else container.height as real,
           config.minHeight, config.maxHeight, size.height);
  }

  lemma HeldIs(x: real, low: real, high: real, n: int)
    ensures HeldBetween(x, low, high, n) <==> n == Truncate(Clamp(x, low, high))
  {
  }

  /** Within the limits the chart is as wide as its container, so it gets a pixel wider with it. */
  lemma AsWideAsContainer(env: Env, container: Size, config: Config, a: Size, b: Size)
    requires config.minWidth <= container.width as real && container.width as real + 1.0 <= config.maxWidth
    requires SizedFor(env, container, config, a) && SizedFor(env, container.(width := container.width + 1), config, b)
    ensures a.width == container.width && b.width == a.width + 1
  {
  }

  /** Over every run that creates the chart once, the chart has this size in the states 1, 3 and 5. */
  lemma DrawnSize(env: Env, container: Size, events: seq<Event>, n: nat)
    requires forall i, k | 0 <= i < k < |events| :: !(events[i].Create? && events[k].Create?)
    requires n <= |events|
    ensures var s := At(env, container, events, n);
            s.firstPass in {1, 3, 5} && s.notified ==>
              s.accepted.Some? && SizedFor(env, s.container, s.accepted.value.config, s.prev)
  {
    RedrawSafety(env, container, events);
    var s := At(env, container, events, n);
    assert Safe(env, s);
    if s.firstPass in {1, 3, 5} && s.notified {
      SizeIs(env, s.container, s.accepted.value.config, s.prev);
    }
  }

  /** A drawing has begun in the given phase, at the size that the container calls for, or p does not fit. */
  predicate Begun(env: Env, s: State, firstPass: int, p: Payload) {
    && SizedFor(env, s.container, p.config, s.prev) && s.shown == None
    && s.firstPass == (if env.drawable(p, s.prev) then firstPass else 5)
    && s.pending == (if env.drawable(p, s.prev) then [Loop(p, 0)] else [])
  }

  lemma Begins(env: Env, s: State, firstPass: int, p: Payload)
    requires (firstPass == 1 || firstPass == 3) && s.pending == []
    ensures Begun(env, RedrawGraph(env, Resized(env, s, firstPass, p), p), firstPass, p)
  {
    SizeIs(env, s.container, p.config, ResizeGraph(env, s.container, p.config));
    RedrawGraphIs(env, Resized(env, s, firstPass, p), p);
  }

  /** The first creation draws the chart animated. */
  lemma CreationDrawn(env: Env, s: State, p: Payload)
    requires Inv(env, s) && s.firstPass == UNDEFINED
    ensures var r := Step(env, s, Create(p)); Begun(env, r, 1, p) && r.registry == Some(p)
  {
    Begins(env, s.(registry := Some(p), accepted := Some(p)), 1, p);
    RedrawGraphIs(env, Resized(env, s.(registry := Some(p), accepted := Some(p)), 1, p), p);
  }

  /** An update of a displayed chart is drawn as it says, any other is ignored. */
  lemma UpdateDrawn(env: Env, s: State, p: Payload, animation: bool)
    requires Inv(env, s)
    ensures var r := Step(env, s, Update(p, animation));
            if s.firstPass != 5 then r == s
            else Begun(env, r, if animation then 1 else 3, p) && r.registry == Some(p)
  {
    if s.firstPass == 5 {
      var s' := s.(firstPass := if animation then 0 else 7, registry := Some(p), accepted := Some(p));
      Begins(env, s', if animation then 1 else 3, p);
      RedrawGraphIs(env, Resized(env, s', if animation then 1 else 3, p), p);
    }
  }

  /** A displayed chart whose size is still right is left alone; otherwise it is drawn again, not animated. */
  predicate Refreshed(env: Env, s: State, p: Payload, r: State)
  {
    if SizedFor(env, s.container, p.config, s.prev) then r == s.(firstPass := 5)
    else Begun(env, r, 3, p) && r.registry == s.registry
  }

  lemma Refreshes(env: Env, s: State, p: Payload)
    requires s.pending == []
    ensures Refreshed(env, s, p, SubUpdateChart(env, s.(firstPass := 6), p))
  {
    SizeIs(env, s.container, p.config, s.prev);
    Begins(env, s.(firstPass := 6), 3, p);
    RedrawGraphIs(env, Resized(env, s.(firstPass := 6), 3, p), p);
  }

  /** A resize event refreshes a displayed chart, and is remembered while one is being drawn. */
  lemma ResizeHandled(env: Env, s: State)
    requires Inv(env, s)
    ensures var r, told := Step(env, s, ResizeEvent), s.(notified := true);
            match s.firstPass
            case 1 | 2 => r == told.(firstPass := 2)
            case 3 | 4 => r == told.(firstPass := 4)
            case 5 => Refreshed(env, told, s.registry.value, r)
            case _ => r == told
  {
    if s.firstPass == 5 {
      Refreshes(env, s.(notified := true), s.registry.value);
    }
  }

  /** A frame is the last one after animationSteps frames, or at once if the drawing is not animated. */
  lemma FrameDrawn(env: Env, s: State)
    requires Inv(env, s) && s.pending != []
    ensures var r, loop := Step(env, s, Frame(0)), s.pending[0];
            var done := s.(pending := [], shown := Some(loop.payload));
            if loop.payload.config.animation && s.firstPass in {1, 2} && loop.cntiter + 1 < loop.payload.config.animationSteps
            then r == s.(pending := [Loop(loop.payload, loop.cntiter + 1)])
            else if s.firstPass in {1, 3} then r == done.(firstPass := 5)
            else Refreshed(env, done, loop.payload, r)
  {
    var loop := s.pending[0];
    assert s.pending[..0] + s.pending[1..] == [] && [] + [loop.(cntiter := loop.cntiter + 1)] == [Loop(loop.payload, loop.cntiter + 1)];
    if s.firstPass in {2, 4} {
      Refreshes(env, s.(pending := [], shown := Some(loop.payload)), loop.payload);
    }
  }

  /** The frames that a drawing still takes when it is not interrupted: all steps if animated, otherwise one. */
  function Due(s: State): int
    requires s.pending != []
  {
    var loop := s.pending[0];
    if s.firstPass == 1 && loop.payload.config.animation then loop.payload.config.animationSteps - loop.cntiter else 1
  }

  /** The same drawing n frames further on. */
  function Advanced(s: State, n: nat): State
    requires s.pending != []
  {
    s.(pending := [Loop(s.pending[0].payload, s.pending[0].cntiter + n)])
  }

  lemma FrameAdvances(env: Env, s: State)
    requires Inv(env, s) && s.firstPass in {1, 3}
    ensures Due(s) >= 1
    ensures var r := Step(env, s, Frame(0));
            if Due(s) == 1 then r.firstPass == 5 && r.shown == s.accepted else r == Advanced(s, 1)
  {
    FrameDrawn(env, s);
  }

  lemma AdvancedKeepsInv(env: Env, s: State, n: nat)
    requires Inv(env, s) && s.firstPass in {1, 3} && n < Due(s)
    ensures Inv(env, Advanced(s, n)) && Due(Advanced(s, n)) == Due(s) - n
  {
  }

  /** After n frames of an uninterrupted drawing: displayed, or so much further on. */
  predicate IsAfterFrames(s: State, n: nat, r: State)
    requires s.pending != []
  {
    if n == Due(s) then r.firstPass == 5 && r.shown == s.accepted else r == Advanced(s, n)
  }

  lemma NextAdvances(env: Env, s: State, n: nat)
    requires Inv(env, s) && s.firstPass in {1, 3} && 0 < n && (n <= Due(s) || n == 1)
    ensures Due(s) >= 1
    ensures IsAfterFrames(s, n, Step(env, Advanced(s, n - 1), Frame(0)))
  {
    FrameAdvances(env, s);
    AdvancedKeepsInv(env, s, n - 1);
    FrameAdvances(env, Advanced(s, n - 1));
  }

  /** An uninterrupted drawing takes exactly the frames that are due. */
  lemma {:induction false} DrawingTakes(env: Env, s: State, n: nat)
    requires Inv(env, s) && s.firstPass in {1, 3} && n <= Due(s)
    ensures IsAfterFrames(s, n, Run(env, s, Frames(n)))
  {
    if n == 0 {
      NextAdvances(env, s, 1);
      assert Frames(0) == [] && Advanced(s, 0) == s;
    } else {
      DrawingTakes(env, s, n - 1);
      NextAdvances(env, s, n);
      LastOfFrames(env, s, n);
    }
  }

  lemma LastOfFrames(env: Env, s: State, n: nat)
    requires n > 0
    ensures Run(env, s, Frames(n)) == Step(env, Run(env, s, Frames(n - 1)), Frame(0))
  {
    assert Frames(n)[..n - 1] == Frames(n - 1);
  }

  // ----- Progress -----

  /** An upper bound on the frames until the chart is displayed. */
  function Remaining(s: State): nat {
    if s.pending == [] then 0
    else
      var loop := s.pending[0];
      var left := if loop.payload.config.animation && s.firstPass in {1, 2}
                     && loop.cntiter < loop.payload.config.animationSteps
                  then loop.payload.config.animationSteps - loop.cntiter else 1;
      if s.firstPass in {2, 4} then left + 1 else left
  }

  function Frames(n: nat): (f: seq<Event>)
    ensures |f| == n
  {
    if n == 0 then [] else Frames(n - 1) + [Frame(0)]
  }

  /**
   Progress: once other events stop, the chart is displayed after at most animationSteps + 1 frames, also
   when drawing was interrupted by a resize and has to start over.
   */
  lemma RedrawProgress(env: Env, s: State, n: nat)
    requires Inv(env, s) && s.firstPass != UNDEFINED
    requires n > s.accepted.value.config.animationSteps
    ensures Run(env, s, Frames(n)).firstPass == 5
  {
    RemainingBound(env, s);
    FramesRun(env, s, n);
    RemainingBound(env, Run(env, s, Frames(n)));
  }

  lemma RemainingBound(env: Env, s: State)
    requires Inv(env, s) && s.firstPass != UNDEFINED
    ensures Remaining(s) <= s.accepted.value.config.animationSteps + 1
    ensures Remaining(s) == 0 ==> s.firstPass == 5
  {
  }

  lemma {:induction false} FramesRun(env: Env, s: State, n: nat)
    requires Inv(env, s) && s.firstPass != UNDEFINED
    ensures var r := Run(env, s, Frames(n));
            Inv(env, r) && r.firstPass != UNDEFINED && (r.firstPass == 5 || Remaining(r) + n <= Remaining(s))
  {
    if n > 0 {
      FramesRun(env, s, n - 1);
      var r := Run(env, s, Frames(n - 1));
      assert Frames(n)[..n - 1] == Frames(n - 1);
      if r.pending != [] {
        FrameKeepsInv(env, r);
      }
    }
  }
}
