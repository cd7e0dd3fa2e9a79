/**
 The auto-scaler (AutoScalerImpl.java): every tick it compares the queue utilization and its slope with
 the configured barriers and asks the coordinator for more or fewer processors.
 */
module AutoScaling {
  import opened Numbers
  import Coordinators
  import opened KubernetesCoordinators
  import opened StubCoordinators

  /** A validated configuration. */
  datatype Config = Config(pollInterval: int, low: int, high: int, slope1: real, slope2: real) {
    predicate Valid() {
      pollInterval >= 1 && 1 <= low < high <= 100 && 0.0 <= slope1 < slope2
    }
  }

  datatype State = State(oldValue: real, slope: real, count: int)

  /** The change that checkQueue asks for; None when it does not call the coordinator. */
  function Wanted(c: Config, slope: real, value: real): Option<int> {
    if slope > c.slope2 then Some(2)
    else if slope > c.slope1 then Some(1)
    else if slope > -c.slope1 then
      if value < c.low as real then Some(-1)
      else if value > c.high as real then Some(1)
      else None
    else if slope > -c.slope2 && value < c.high as real then Some(-1)
    else if value < c.high as real then Some(-2)
    else None
  }

  /** The count after the request; one processor is kept running. */
  function Scaled(kind: Coordinators.Kind, max: nat, count: int, wanted: Option<int>): int {
    if wanted.None? then count
    else Coordinators.SetCount(kind, max, count, Max(1, count + wanted.value))
  }

  function Tick(kind: Coordinators.Kind, max: nat, c: Config, s: State, value: real): State
    requires c.pollInterval >= 1
  {
    var slope := (value - s.oldValue) / c.pollInterval as real;
    State(value, slope, Scaled(kind, max, s.count, Wanted(c, slope, value)))
  }

  function Run(kind: Coordinators.Kind, max: nat, c: Config, s: State, values: seq<real>): State
    requires c.pollInterval >= 1
  {
    if values == [] then s
    else Tick(kind, max, c, Run(kind, max, c, s, values[..|values| - 1]), values[|values| - 1])
  }

  /** The state once start has asked for one processor; a restart keeps the last value and slope. */
  function Started(kind: Coordinators.Kind, max: nat, s: State): State {
    s.(count := Coordinators.SetCount(kind, max, s.count, 1))
  }

  /** When a tick changes the count, and in which direction. */
  lemma TickDirection(kind: Coordinators.Kind, max: nat, c: Config, s: State, value: real)
    requires c.Valid() && 1 <= s.count <= max
    ensures var r := Tick(kind, max, c, s, value);
            && 1 <= r.count <= max
            && (r.count < s.count <==> s.count > 1 && if r.slope > -c.slope1 then r.slope <= c.slope1 && value < c.low as real
                                                     else value < c.high as real)
            && (r.count > s.count ==> r.slope > c.slope1 || (r.slope > -c.slope1 && value > c.high as real))
            && (value >= c.high as real ==> r.count >= s.count)
  {
  }

  /** The count after asking for more processors: as many, or, where there is no room for them, what is left or none. */
  predicate Grown(kind: Coordinators.Kind, max: nat, count: int, more: int, count': int) {
    count' == if count + more <= max then count + more else if kind.Kubernetes? then max else count
  }

  /** The count after asking for fewer processors: one is kept. */
  predicate Shrunk(count: int, fewer: int, count': int) {
    count' == if count - fewer >= 1 then count - fewer else 1
  }

  /** What a tick does with the count, by how much the utilization rose, and where it is now. */
  lemma TickMeans(kind: Coordinators.Kind, max: nat, c: Config, s: State, value: real)
    requires c.Valid() && 1 <= s.count <= max
    ensures var r, rise := Tick(kind, max, c, s, value), value - s.oldValue;
            var slow, fast := Times(c.pollInterval, c.slope1), Times(c.pollInterval, c.slope2);
            && r.oldValue == value
            && (rise > fast ==> Grown(kind, max, s.count, 2, r.count))
            && (slow < rise <= fast ==> Grown(kind, max, s.count, 1, r.count))
            && (-slow < rise <= slow && value > c.high as real ==> Grown(kind, max, s.count, 1, r.count))
            && (-slow < rise <= slow && c.low as real <= value <= c.high as real ==> r.count == s.count)
            && (-slow < rise <= slow && value < c.low as real ==> Shrunk(s.count, 1, r.count))
            && (rise <= -slow && value >= c.high as real ==> r.count == s.count)
            && (-fast < rise <= -slow && value < c.high as real ==> Shrunk(s.count, 1, r.count))
            && (rise <= -fast && value < c.high as real ==> Shrunk(s.count, 2, r.count))
  {
    SlopeOf(value - s.oldValue, c.pollInterval, c.slope1);
    SlopeOf(value - s.oldValue, c.pollInterval, c.slope2);
    TimesReal(c.pollInterval, c.slope1, c.slope2);
  }

  lemma SlopeOf(rise: real, interval: int, slope: real)
    requires interval >= 1
    ensures rise / interval as real > slope <==> rise > Times(interval, slope)
    ensures rise / interval as real > -slope <==> rise > -Times(interval, slope)
  {
    var i := interval as real;
    QuotientOrder(rise, slope, i);
    QuotientOrder(rise, -slope, i);
    assert slope * i == Times(interval, slope) && -slope * i == -Times(interval, slope);
  }

  lemma TimesReal(interval: int, a: real, b: real)
    requires interval >= 1 && 0.0 <= a < b
    ensures 0.0 <= Times(interval, a) < Times(interval, b)
  {
    ScaleOrder(a, b, interval as real);
    ScaleOrder(0.0, a, interval as real);
  }

  /** When a tick adds processors: on a fast rise, or above the high barrier without a fast fall, if there is room. */
  lemma GrowthIff(kind: Coordinators.Kind, max: nat, c: Config, s: State, value: real)
    requires c.Valid() && 1 <= s.count <= max
    ensures var r, rise := Tick(kind, max, c, s, value), value - s.oldValue;
            var slow, fast := Times(c.pollInterval, c.slope1), Times(c.pollInterval, c.slope2);
            r.count > s.count
            <==> && (rise > slow || (rise > -slow && value > c.high as real))
                 && s.count + (if rise > fast && kind.Stub? then 2 else 1) <= max
  {
    TickMeans(kind, max, c, s, value);
    TimesReal(c.pollInterval, c.slope1, c.slope2);
    TickDirection(kind, max, c, s, value);
  }

  /** Starting asks for one processor, whatever there was. */
  lemma StartsWithOne(kind: Coordinators.Kind, max: nat, s: State)
    requires max >= 1
    ensures Started(kind, max, s) == s.(count := 1)
  {
  }

  /** Over any utilization history, and with either coordinator, the count stays between 1 and the maximum. */
  lemma {:induction false} CountStaysInRange(kind: Coordinators.Kind, max: nat, c: Config, s: State, values: seq<real>)
    requires c.Valid() && max >= 1
    ensures 1 <= Run(kind, max, c, Started(kind, max, s), values).count <= max
  {
    if values != [] {
      var n := |values| - 1;
      CountStaysInRange(kind, max, c, s, values[..n]);
    }
  }

  /** The count that n ticks lead to when the utilization stays at u. */
  function Settled(c: Config, max: nat, count: int, u: real, n: nat): int {
    if u < c.low as real then Max(1, count - n)
    else if u > c.high as real then Min(max, count + n)
    else count
  }

  /** A tick at the same utilization as the one before. */
  lemma SteadyTick(kind: Coordinators.Kind, max: nat, c: Config, s: State)
    requires c.Valid() && 1 <= s.count <= max
    ensures Tick(kind, max, c, s, s.oldValue).oldValue == s.oldValue
    ensures c.slope1 > 0.0 ==> Tick(kind, max, c, s, s.oldValue).count == Settled(c, max, s.count, s.oldValue, 1)
    ensures c.slope1 == 0.0 && s.oldValue < c.high as real ==>
              Tick(kind, max, c, s, s.oldValue).count == Max(1, s.count - 1)
  {
    assert 0.0 / c.pollInterval as real == 0.0;
  }

  lemma SettledNext(c: Config, max: nat, count: int, u: real, n: nat)
    requires c.Valid() && 1 <= count <= max
    ensures Settled(c, max, Settled(c, max, count, u, n), u, 1) == Settled(c, max, count, u, n + 1)
    ensures 1 <= Settled(c, max, count, u, n) <= max
  {
  }

  /** n ticks with the same utilization. */
  function Constant(u: real, n: nat): (v: seq<real>)
    ensures |v| == n
  {
    if n == 0 then [] else Constant(u, n - 1) + [u]
  }

  /**
   Under a constant utilization the count moves by one per tick, from the second tick on, to 1 below the
   low barrier and to the maximum above the high barrier, and stays put between the barriers.
   */
  lemma {:induction false} ConstantUtilizationSettles(kind: Coordinators.Kind, max: nat, c: Config, s: State, n: nat)
    requires c.Valid() && c.slope1 > 0.0 && 1 <= s.count <= max
    ensures Run(kind, max, c, s, Constant(s.oldValue, n)).oldValue == s.oldValue
    ensures Run(kind, max, c, s, Constant(s.oldValue, n)).count == Settled(c, max, s.count, s.oldValue, n)
  {
    if n > 0 {
      var u := s.oldValue;
      ConstantUtilizationSettles(kind, max, c, s, n - 1);
      assert Constant(u, n)[..n - 1] == Constant(u, n - 1);
      SettledNext(c, max, s.count, u, n - 1);
      SteadyTick(kind, max, c, Run(kind, max, c, s, Constant(u, n - 1)));
    }
  }

  /** After any state one tick is enough to reach the settling phase, and max - 1 more to complete it. */
  lemma SettledAfter(kind: Coordinators.Kind, max: nat, c: Config, s: State, u: real, n: nat)
    requires c.Valid() && c.slope1 > 0.0 && 1 <= s.count <= max && n >= max - 1
    ensures var first := Tick(kind, max, c, s, u);
            Run(kind, max, c, first, Constant(u, n)).count
            == if u < c.low as real then 1 else if u > c.high as real then max else first.count
  {
    TickDirection(kind, max, c, s, u);
    ConstantUtilizationSettles(kind, max, c, Tick(kind, max, c, s, u), n);
  }

  /** Between the barriers a steady queue keeps its processors exactly when slope1 is positive. */
  lemma SteadyBetweenBarriersIff(kind: Coordinators.Kind, max: nat, c: Config, s: State)
    requires c.Valid() && 1 < s.count <= max && c.low as real <= s.oldValue < c.high as real
    ensures Tick(kind, max, c, s, s.oldValue).count == s.count <==> c.slope1 > 0.0
  {
    SteadyTick(kind, max, c, s);
  }

  /** A queue that stays at 40 %, between its barriers, loses a processor at every tick when slope1 is 0. */
  lemma SteadyQueueLosesProcessor(kind: Coordinators.Kind)
    ensures var c := Config(5, 25, 75, 0.0, 1.0);
            c.Valid() && Tick(kind, 10, c, State(40.0, 0.0, 4), 40.0) == State(40.0, 0.0, 3)
  {
    assert 0.0 / 5 as real == 0.0;
  }

  // ----- The auto-scaler and its coordinator -----

  /** Exactly one of the two coordinators is bound. */
  class AutoScaler {
    const config: Config
    const kubernetes: KubernetesCoordinator?
    const stub: StubCoordinator?
    var oldValue: real
    var slope: real

    ghost predicate Valid()
      reads this, kubernetes, stub
    {
      && config.Valid()
      && (kubernetes == null <==> stub != null)
      && (kubernetes != null ==> kubernetes.Quiescent())
    }

    function Kind(): Coordinators.Kind {
      if kubernetes != null then Coordinators.Kubernetes else Coordinators.Stub
    }

    function MaxReplicas(): nat {
      if kubernetes != null then kubernetes.maxReplicas else if stub != null then stub.maxReplicas else 0
    }

    ghost function Model(): State
      requires Valid()
      reads this, kubernetes, stub
    {
      State(oldValue, slope, if kubernetes != null then kubernetes.Count() else |stub.services|)
    }

    constructor (config: Config, kubernetes: KubernetesCoordinator?, stub: StubCoordinator?)
      requires config.Valid() && (kubernetes == null <==> stub != null)
      requires kubernetes != null ==> kubernetes.Quiescent()
      ensures Valid() && oldValue == slope == 0.0
      ensures this.config == config && this.kubernetes == kubernetes && this.stub == stub
    {
      this.config, this.kubernetes, this.stub := config, kubernetes, stub;
      oldValue, slope := 0.0, 0.0;
    }

    /** Starts succeed, and a Kubernetes cluster comes to rest before the next tick. */
    method SetReplicaCount(number: int) returns (answer: bool)
      requires Valid()
      modifies kubernetes, stub
      ensures Valid()
      ensures Model() == old(Model()).(count := Coordinators.SetCount(Kind(), MaxReplicas(), old(Model().count), number))
      ensures answer == Coordinators.SetAnswer(Kind(), MaxReplicas(), old(Model().count), number)
    {
      if kubernetes != null {
        answer := kubernetes.SetReplicaCount(number);
        kubernetes.Settle();
      } else {
        answer := stub.SetReplicaCount(number, i => true);
      }
    }

    method Scale(relReplicas: int) returns (answer: bool)
      requires Valid()
      modifies kubernetes, stub
      ensures Valid()
      ensures Model() == old(Model()).(count := Scaled(Kind(), MaxReplicas(), old(Model().count), Some(relReplicas)))
    {
      var current;
      if kubernetes != null {
        current := kubernetes.GetReplicaCount();
      } else {
        current := stub.GetReplicaCount();
      }
      answer := SetReplicaCount(Max(1, current + relReplicas));
    }

    method CheckQueue(value: real)
      requires Valid()
      modifies this, kubernetes, stub
      ensures Valid()
      ensures Model() == Tick(Kind(), MaxReplicas(), config, old(Model()), value)
    {
      slope := (value - oldValue) / config.pollInterval as real;
      oldValue := value;
      var answer;
      if slope > config.slope2 {
        answer := Scale(2);
      } else if slope > config.slope1 {
        answer := Scale(1);
      } else if slope > -config.slope1 {
        if value < config.low as real {
          answer := Scale(-1);
        } else if value > config.high as real {
          answer := Scale(1);
        }
      } else if slope > -config.slope2 && value < config.high as real {
        answer := Scale(-1);
      } else if value < config.high as real {
        answer := Scale(-2);
      }
    }

    /** The part of start that concerns the processors. */
    method Start()
      requires Valid()
      modifies kubernetes, stub
      ensures Valid() && Model() == Started(Kind(), MaxReplicas(), old(Model()))
    {
      var answer := SetReplicaCount(1);
    }
  }
}
