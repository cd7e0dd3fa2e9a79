/**
 The animation driver (ChartNew.js, animationLoop) while ctx.firstPass stays 1 and animationStopValue is
 configured as 1: which frames it draws, with which progress, and when it ends.
 */
module Animation {
  import opened Numbers

  /** steps is animationSteps, count animationCount (0 for endless), ease the easing function. */
  datatype Config = Config(steps: int, count: nat, backward: bool, startValue: real, ease: real -> real)

  datatype State = State(cntiter: int, percent: real, multAnim: int, animationCount: nat)

  function StepsOrOne(c: Config): (s: int)
    ensures s >= 1
  {
    if c.steps < 1 then 1 else c.steps
  }

  function FrameAmount(c: Config): real {
    1.0 / StepsOrOne(c) as real
  }

  /** The effective animationStopValue: never below the starting value. Resetting the latter has no effect. */
  function StopValue(c: Config): real {
    if 1.0 < c.startValue then c.startValue else 1.0
  }

  /** The state in which the first frame is scheduled, begin frames having been skipped. */
  function Begin(c: Config, begin: int): State {
    State(begin, Times(begin, FrameAmount(c)), 1, 1)
  }

  /** The progress handed to drawData. */
  function Progress(c: Config, cntiter: int, percent: real): real {
    if cntiter >= StepsOrOne(c) then 1.0
    else
      var eased := if c.ease(percent) < 0.0 then 0.0 else c.ease(percent);
      if eased >= 1.0 then 0.9999 else eased
  }

  /** One call of animLoop: the progress that it draws, and the state of the next call unless it is the last. */
  datatype Outcome = Outcome(progress: real, next: Option<State>)

  function AnimLoop(c: Config, begin: int, s: State): Outcome {
    var cntiter := s.cntiter + s.multAnim;
    var raw := s.percent + s.multAnim as real * FrameAmount(c);
    var percent := if cntiter == c.steps then 1.0 else if raw >= 1.0 then 0.999 else raw;
    var progress := Progress(c, cntiter, percent);
    if s.multAnim == -1 && cntiter <= begin then
      Outcome(progress, Some(State(cntiter, percent, 1, s.animationCount)))
    else if percent < StopValue(c) then
      Outcome(progress, Some(State(cntiter, percent, s.multAnim, s.animationCount)))
    else if s.animationCount < c.count || c.count == 0 then
      if c.backward && s.multAnim == 1 then
        Outcome(progress, Some(State(cntiter, percent - FrameAmount(c), -1, s.animationCount + 1)))
      else
        Outcome(progress, Some(State(begin - 1, Times(begin, FrameAmount(c)) - FrameAmount(c), 1, s.animationCount + 1)))
    else Outcome(progress, None)
  }

  // ----- The frames that are left -----

  /** The frames from one forward finish to the next. */
  function Cycle(c: Config, begin: int): int {
    if c.backward then 2 * (c.steps - begin) else c.steps - begin + 1
  }

  /** The frames up to and including the next forward finish. */
  function ToFinish(c: Config, begin: int, s: State): int {
    if s.multAnim == 1 then c.steps - s.cntiter else (s.cntiter - begin) + (c.steps - begin)
  }

  function Repeat(times: nat, frames: int): int {
    if times == 0 then 0 else Repeat(times - 1, frames) + frames
  }

  function Left(c: Config, begin: int, s: State): int
    requires s.animationCount <= c.count
  {
    ToFinish(c, begin, s) + Repeat(c.count - s.animationCount, Cycle(c, begin))
  }

  /** The states of an animation that will end. */
  predicate Running(c: Config, begin: int, s: State) {
    && c.startValue <= 1.0 && 0 <= begin < c.steps && 1 <= s.animationCount <= c.count
    && s.percent == Times(s.cntiter - (if Lagging(c, s) then 1 else 0), FrameAmount(c))
    && (s.multAnim == 1 ==> (if c.backward then begin else begin - 1) <= s.cntiter < c.steps)
    && (s.multAnim != 1 ==> s.multAnim == -1 && c.backward && begin < s.cntiter <= c.steps
                            && s.animationCount > 1)
  }

  /** From the first turn on, an animation that also runs backward shows the step before cntiter. */
  predicate Lagging(c: Config, s: State) {
    c.backward && s.animationCount > 1
  }

  lemma AmountIs(c: Config, i: int)
    ensures FrameAmount(c) > 0.0 && Times(StepsOrOne(c), FrameAmount(c)) == 1.0 && Times(0, FrameAmount(c)) == 0.0
    ensures Times(i, FrameAmount(c)) + FrameAmount(c) == Times(i + 1, FrameAmount(c))
    ensures i < StepsOrOne(c) <==> Times(i, FrameAmount(c)) < 1.0
  {
    var steps := StepsOrOne(c) as real;
    QuotientIs(1.0, steps, 0.0);
    QuotientOrder(1.0, 0.0, steps);
    ScaleOrder(i as real, steps, FrameAmount(c));
  }

  lemma Amount(c: Config, i: int)
    requires c.steps >= 1
    ensures FrameAmount(c) > 0.0 && Times(c.steps, FrameAmount(c)) == 1.0
    ensures Times(i, FrameAmount(c)) + FrameAmount(c) == Times(i + 1, FrameAmount(c))
    ensures i < c.steps <==> Times(i, FrameAmount(c)) < 1.0
  {
    AmountIs(c, i);
  }

  /** What one frame does: full progress exactly at a forward finish, and one frame less left, or the end. */
  predicate FrameCounts(c: Config, begin: int, s: State)
    requires s.animationCount <= c.count
  {
    var o := AnimLoop(c, begin, s);
    && (o.progress == 1.0 <==> ToFinish(c, begin, s) == 1)
    && (o.next.None? <==> Left(c, begin, s) == 1)
    && (o.next.Some? ==> Running(c, begin, o.next.value)
                         && Left(c, begin, o.next.value) == Left(c, begin, s) - 1)
  }

  lemma FrameIs(c: Config, begin: int, s: State)
    requires Running(c, begin, s)
    ensures 1 <= ToFinish(c, begin, s) <= Cycle(c, begin) && 1 <= Left(c, begin, s)
    ensures FrameCounts(c, begin, s)
  {
    RepeatNonNegative(c.count - s.animationCount, Cycle(c, begin));
    if s.multAnim == -1 {
      BackwardFrame(c, begin, s);
    } else if s.cntiter + 1 == c.steps {
      FinishingFrame(c, begin, s);
    } else {
      ForwardFrame(c, begin, s);
    }
  }

  lemma BackwardFrame(c: Config, begin: int, s: State)
    requires Running(c, begin, s) && s.multAnim == -1 && Repeat(c.count - s.animationCount, Cycle(c, begin)) >= 0
    ensures FrameCounts(c, begin, s)
  {
    Amount(c, s.cntiter - 1);
    Amount(c, s.cntiter - 2);
  }

  lemma ForwardFrame(c: Config, begin: int, s: State)
    requires Running(c, begin, s) && s.multAnim == 1 && s.cntiter + 1 < c.steps
    requires Repeat(c.count - s.animationCount, Cycle(c, begin)) >= 0
    ensures FrameCounts(c, begin, s)
  {
    Amount(c, s.cntiter);
    Amount(c, s.cntiter - 1);
    Amount(c, s.cntiter + 1);
  }

  lemma FinishingFrame(c: Config, begin: int, s: State)
    requires Running(c, begin, s) && s.multAnim == 1 && s.cntiter + 1 == c.steps
    requires Repeat(c.count - s.animationCount, Cycle(c, begin)) >= 0
    ensures FrameCounts(c, begin, s)
  {
    Amount(c, begin - 1);
    Amount(c, c.steps - 1);
    if s.animationCount < c.count {
      RepeatNonNegative(c.count - s.animationCount - 1, Cycle(c, begin));
    }
  }

  lemma {:induction false} RepeatNonNegative(times: nat, frames: int)
    requires frames >= 0
    ensures Repeat(times, frames) == times * frames >= 0
  {
    if times > 0 {
      RepeatNonNegative(times - 1, frames);
      assert times * frames == (times - 1) * frames + frames;
    }
  }

  /** Full progress falls on the frames at which the frames still left are a whole number of cycles. */
  lemma FinishFrames(c: Config, begin: int, s: State)
    requires Running(c, begin, s)
    ensures Cycle(c, begin) >= 1
    ensures AnimLoop(c, begin, s).progress == 1.0 <==> (Left(c, begin, s) - 1) % Cycle(c, begin) == 0
  {
    FrameIs(c, begin, s);
    RepeatNonNegative(c.count - s.animationCount, Cycle(c, begin));
    Remainder(c.count - s.animationCount, Cycle(c, begin), ToFinish(c, begin, s) - 1);
  }

  lemma Remainder(q: int, d: int, r: int)
    requires d >= 1 && 0 <= r < d
    ensures (q * d + r) % d == r
  {
    DivModIs(q * d + r, d, q, r);
  }

  /** What the easing function makes of step i; a step that is not the last shows less than 1. */
  function Eased(c: Config, i: int): real {
    var x := c.ease(Times(i, 1.0 / StepsOrOne(c) as real));
    if x < 0.0 then 0.0 else if x >= 1.0 then 0.9999 else x
  }

  /**
   The progress shown when `left` more frames follow up to the next full one: full progress, or the eased
   step, on the way to the last step or back from it.
   */
  function Shown(c: Config, begin: int, left: int, lagging: bool): real {
    var step := if c.backward && left >= c.steps - begin then left - (c.steps - begin) + begin else c.steps - left;
    if left == 0 then 1.0 else Eased(c, if lagging then step - 1 else step)
  }

  lemma FrameShows(c: Config, begin: int, s: State)
    requires Running(c, begin, s)
    ensures AnimLoop(c, begin, s).progress == Shown(c, begin, ToFinish(c, begin, s) - 1, Lagging(c, s))
  {
    Amount(c, s.cntiter);
    Amount(c, s.cntiter - 1);
    Amount(c, s.cntiter - 2);
    Amount(c, s.cntiter + 1);
  }

  /** The frames to the next full one, and whether the first one is past, from the number of frames left. */
  lemma PlaceInRun(c: Config, begin: int, s: State)
    requires Running(c, begin, s)
    ensures Cycle(c, begin) >= 1
    ensures (Left(c, begin, s) - 1) % Cycle(c, begin) == ToFinish(c, begin, s) - 1
    ensures s.animationCount > 1 <==> TotalFrames(c, begin) - Left(c, begin, s) >= c.steps - begin
  {
    FrameIs(c, begin, s);
    RepeatNonNegative(c.count - s.animationCount, Cycle(c, begin));
    Remainder(c.count - s.animationCount, Cycle(c, begin), ToFinish(c, begin, s) - 1);
    if s.animationCount > 1 {
      RepeatGrows(c.count - s.animationCount, c.count - 2, Cycle(c, begin));
    }
  }

  lemma {:induction false} RepeatGrows(a: nat, b: nat, frames: int)
    requires a <= b && frames >= 0
    ensures Repeat(a, frames) <= Repeat(b, frames)
  {
    if a < b { RepeatGrows(a, b - 1, frames); }
  }

  /** The number of frames of the whole animation. */
  function TotalFrames(c: Config, begin: int): int
    requires c.count >= 1
  {
    (c.steps - begin) + Repeat(c.count - 1, Cycle(c, begin))
  }

  /** The closed forms of the total. */
  lemma TotalFramesIs(c: Config, begin: int)
    requires c.count >= 1 && 0 <= begin < c.steps
    ensures TotalFrames(c, begin)
            == if c.backward then (2 * c.count - 1) * (c.steps - begin)
               else (c.steps - begin) + (c.count - 1) * (c.steps - begin + 1)
  {
    RepeatNonNegative(c.count - 1, Cycle(c, begin));
    assert (c.count - 1) * (2 * (c.steps - begin)) + (c.steps - begin) == (2 * c.count - 1) * (c.steps - begin);
  }

  /** The frames that the starting value skips. */
  ghost predicate IsBegin(c: Config, begin: int) {
    && begin >= 0
    && (begin > 0 ==> 0.0 < c.startValue <= 1.0 && Times(begin - 1, FrameAmount(c)) < c.startValue)
    && (0.0 < c.startValue <= 1.0 ==> Times(begin, FrameAmount(c)) >= c.startValue)
  }

  /** The starting value leaves at least one step to be drawn. */
  predicate LeavesStep(c: Config) {
    c.steps >= 1 && c.startValue <= 1.0 - FrameAmount(c)
  }

  /**
   The animation from its first frame to its last; progress lists what is handed to drawData. Only an
   animation that ends can be run to its end.
   */
  method AnimationLoop(c: Config) returns (begin: int, progress: seq<real>)
    requires c.count >= 1 && LeavesStep(c)
    ensures IsBegin(c, begin) && begin < c.steps
    ensures |progress| == TotalFrames(c, begin)
    ensures Cycle(c, begin) >= 1
    ensures forall k | 0 <= k < |progress| ::
              progress[k] == 1.0 <==> (|progress| - k - 1) % Cycle(c, begin) == 0
    ensures forall k | 0 <= k < |progress| ::
              progress[k] == Shown(c, begin, (|progress| - k - 1) % Cycle(c, begin), c.backward && k >= c.steps - begin)
  {
    begin := SkippedFrames(c);
    AmountIs(c, 0);
    BeginLeavesStep(c, begin);
    var s := Begin(c, begin);
    progress := [];
    var running := true;
    while running
      invariant running ==> Running(c, begin, s) && |progress| + Left(c, begin, s) == TotalFrames(c, begin)
      invariant !running ==> |progress| == TotalFrames(c, begin)
      invariant forall k | 0 <= k < |progress| ::
                  progress[k] == 1.0 <==> (TotalFrames(c, begin) - k - 1) % Cycle(c, begin) == 0
      invariant forall k | 0 <= k < |progress| ::
                  progress[k] == Shown(c, begin, (TotalFrames(c, begin) - k - 1) % Cycle(c, begin),
                                       c.backward && k >= c.steps - begin)
      decreases running, TotalFrames(c, begin) - |progress|
    {
      FrameIs(c, begin, s);
      FinishFrames(c, begin, s);
      FrameShows(c, begin, s);
      PlaceInRun(c, begin, s);
      var o := AnimLoop(c, begin, s);
      progress := progress + [o.progress];
      if o.next.Some? {
        s := o.next.value;
      } else {
        running := false;
      }
    }
  }

  /** The loop that advances to the starting value. */
  method SkippedFrames(c: Config) returns (cntiter: int)
    ensures IsBegin(c, cntiter)
  {
    cntiter := 0;
    var percent := 0.0;
    AmountIs(c, 0);
    if 0.0 < c.startValue && c.startValue <= 1.0 {
      while percent < c.startValue
        invariant 0 <= cntiter <= StepsOrOne(c) && percent == Times(cntiter, FrameAmount(c))
        invariant cntiter > 0 ==> Times(cntiter - 1, FrameAmount(c)) < c.startValue
        decreases StepsOrOne(c) - cntiter
      {
        AmountIs(c, cntiter);
        cntiter := cntiter + 1;
        percent := percent + FrameAmount(c);
      }
    }
  }

  /** The frames skipped are fewer than the steps exactly when the starting value leaves a step. */
  lemma BeginLeavesStep(c: Config, begin: int)
    requires IsBegin(c, begin) && c.startValue <= 1.0
    ensures begin < c.steps <==> LeavesStep(c)
  {
    if c.steps >= 1 {
      Amount(c, c.steps - 1);
      AmountIs(c, 0);
      TimesOrder(c.steps - 1, 0, FrameAmount(c));
      TimesOrder(c.steps - 1, begin, FrameAmount(c));
      TimesOrder(begin - 1, c.steps - 1, FrameAmount(c));
    }
  }

  // ----- When it ends -----

  /** The state after n frames, if the animation has not ended by then. */
  function After(c: Config, begin: int, s: State, n: nat): Option<State> {
    if n == 0 then Some(s)
    else
      var previous := After(c, begin, s, n - 1);
      if previous.None? then None else AnimLoop(c, begin, previous.value).next
  }

  lemma {:induction false} FramesLeft(c: Config, begin: int, s: State, n: nat)
    requires Running(c, begin, s) && n < Left(c, begin, s)
    ensures var r := After(c, begin, s, n);
            r.Some? && Running(c, begin, r.value) && Left(c, begin, r.value) == Left(c, begin, s) - n
  {
    if n > 0 {
      FramesLeft(c, begin, s, n - 1);
      FrameIs(c, begin, After(c, begin, s, n - 1).value);
    }
  }

  /** An endless animation, one past its last step, and one whose stop value was raised go on for ever. */
  lemma {:induction false} NeverEnds(c: Config, begin: int, n: nat)
    requires begin >= 0 && (c.count == 0 || begin >= c.steps || c.startValue > 1.0)
    ensures After(c, begin, Begin(c, begin), n).Some?
    ensures c.count > 0 ==>
              var s := After(c, begin, Begin(c, begin), n).value;
              s.multAnim == 1 && (begin >= c.steps ==> s.cntiter >= c.steps)
  {
    if n > 0 {
      NeverEnds(c, begin, n - 1);
    }
  }

  /** It ends after its total of frames, not before. */
  lemma EndsAfterTotal(c: Config, begin: int)
    requires c.count >= 1 && 0 <= begin < c.steps && c.startValue <= 1.0
    ensures TotalFrames(c, begin) >= 1
    ensures After(c, begin, Begin(c, begin), TotalFrames(c, begin)).None?
    ensures forall n: nat | n < TotalFrames(c, begin) :: After(c, begin, Begin(c, begin), n).Some?
  {
    var s, total := Begin(c, begin), TotalFrames(c, begin);
    assert Running(c, begin, s) && Left(c, begin, s) == total;
    FrameIs(c, begin, s);
    forall n: nat | n < total ensures After(c, begin, s, n).Some? {
      FramesLeft(c, begin, s, n);
    }
    FramesLeft(c, begin, s, total - 1);
    FrameIs(c, begin, After(c, begin, s, total - 1).value);
  }

  /** An animation ends exactly when it has a count and its starting value leaves a step to be drawn. */
  lemma AnimationEndsIff(c: Config, begin: int)
    requires IsBegin(c, begin)
    ensures (exists n: nat :: After(c, begin, Begin(c, begin), n).None?) <==> c.count >= 1 && LeavesStep(c)
  {
    if c.startValue <= 1.0 {
      BeginLeavesStep(c, begin);
    } else {
      AmountIs(c, 0);
    }
    if c.count >= 1 && begin < c.steps && c.startValue <= 1.0 {
      EndsAfterTotal(c, begin);
    } else {
      forall n: nat ensures After(c, begin, Begin(c, begin), n).Some? {
        NeverEnds(c, begin, n);
      }
    }
  }

  /** Ten steps: a starting value of 1 skips them all, one of 1.5 raises the stop value; neither ends. */
  lemma StartedTooLate(start: real, ease: real -> real, n: nat)
    requires start == 1.0 || start == 1.5
    ensures var c := Config(10, 1, false, start, ease);
            var begin := if start == 1.0 then 10 else 0;
            IsBegin(c, begin) && After(c, begin, Begin(c, begin), n).Some?
  {
    var c := Config(10, 1, false, start, ease);
    AmountIs(c, 9);
    NeverEnds(c, if start == 1.0 then 10 else 0, n);
  }
}
