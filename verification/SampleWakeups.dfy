/**
 Which taker of the sample queue is woken: every sample that is added signals the condition once
 (arraylist_sample_queue_impl.c), which wakes one of the takers that sleep on it, whatever that one needs.
 */
module SampleWakeups {
  import opened Numbers
  import opened SampleQueue

  /** signalled are the waiting threads that have been woken but have not run yet. */
  datatype State = State(system: System, signalled: set<int>)

  function Asleep(s: State): set<int> {
    s.system.waiting.Keys - s.signalled
  }

  /** How many samples a section adds. */
  function Added(q: Queue, a: Section): nat {
    match a
    case Put(_, allocations) => AddedCount(q, 1, allocations)
    case PutAll(samples, allocations) => AddedCount(q, |samples|, allocations)
    case _ => 0
  }

  /** A section, and the threads that the scheduler picks for its signals. */
  datatype Move = Move(section: Section, chosen: seq<int>)

  /** Every signal wakes a sleeping thread, as long as there is one. */
  predicate Signals(asleep: set<int>, chosen: seq<int>) {
    chosen == [] || ((asleep == {} || chosen[0] in asleep) && Signals(asleep - {chosen[0]}, chosen[1..]))
  }

  /** A thread that was signalled has not timed out; one that was not may time out, or wake spuriously. */
  predicate Allowed(s: State, m: Move) {
    && |m.chosen| == Added(s.system.queue, m.section) && Signals(Asleep(s), m.chosen)
    && (m.section.Wake? && m.section.timedOut ==> m.section.thread !in s.signalled)
  }

  function Woken(asleep: set<int>, chosen: seq<int>): set<int> {
    set t | t in chosen && t in asleep
  }

  function Next(s: State, m: Move): State {
    var signalled := s.signalled + Woken(Asleep(s), m.chosen);
    State(Step(s.system, m.section), if m.section.Wake? then signalled - {m.section.thread} else signalled)
  }

  function RunMoves(moves: seq<Move>): State {
    if moves == [] then State(INITIAL, {}) else Next(RunMoves(moves[..|moves| - 1]), moves[|moves| - 1])
  }

  predicate AllowedRun(moves: seq<Move>) {
    moves != [] ==>
      AllowedRun(moves[..|moves| - 1]) && Allowed(RunMoves(moves[..|moves| - 1]), moves[|moves| - 1])
  }

  /** The takers that call the queue are of these kinds. */
  predicate Uses(moves: seq<Move>, kinds: set<Taker>) {
    forall i | 0 <= i < |moves| :: moves[i].section.Take? ==> moves[i].section.taker in kinds
  }

  /** A run by takers of these kinds at whose end somebody sleeps beside enough samples. */
  ghost predicate Oversleeps(moves: seq<Move>, kinds: set<Taker>) {
    AllowedRun(moves) && Uses(moves, kinds) && Overslept(RunMoves(moves))
  }

  /** No wakeup is under way, yet a thread sleeps although the samples that it needs are there. */
  ghost predicate Overslept(s: State) {
    s.signalled == {} && exists t :: t in s.system.waiting && |s.system.queue.samples| >= Needed(s.system.waiting[t])
  }

  /** Two kinds of takers that wait for different numbers of samples, the smaller of which fits the queue. */
  ghost predicate Mixed(kinds: set<Taker>) {
    exists a, b :: a in kinds && b in kinds && 1 <= Needed(a) < Needed(b) && Needed(a) <= MAX_QUEUE_SIZE
  }

  // ----- Takers with the same need -----

  /** All who wait need m samples, or more than the queue can hold if m is that much. */
  predicate Alike(need: nat, m: nat) {
    need == m || (m == MAX_QUEUE_SIZE + 1 && need >= m)
  }

  /** As long as somebody sleeps, only the samples of wakeups under way can exceed what is too few to take. */
  predicate Inv(s: State, m: nat) {
    && m >= 1 && |s.system.queue.samples| <= MAX_QUEUE_SIZE
    && s.signalled <= s.system.waiting.Keys
    && (forall t | t in s.system.waiting :: Alike(Needed(s.system.waiting[t]), m) && Wanted(s.system.waiting[t]) >= 1)
    && (Asleep(s) != {} ==> |s.system.queue.samples| <= m - 1 + |s.signalled|)
  }

  /** Unless everybody has been woken, the signals have woken as many threads as there were signals. */
  lemma {:induction false} SignalsWake(asleep: set<int>, chosen: seq<int>)
    requires Signals(asleep, chosen)
    ensures asleep - Woken(asleep, chosen) != {} ==> |Woken(asleep, chosen)| == |chosen|
  {
    var woken := Woken(asleep, chosen);
    if asleep - woken != {} && chosen != [] {
      var rest := Woken(asleep - {chosen[0]}, chosen[1..]);
      assert chosen == [chosen[0]] + chosen[1..];
      assert woken == rest + {chosen[0]};
      assert (asleep - {chosen[0]}) - rest == asleep - woken;
      SignalsWake(asleep - {chosen[0]}, chosen[1..]);
    }
  }

  /** n samples come and some threads are woken, as many if anyone goes on sleeping. */
  lemma Grows(s: State, r: State, woken: set<int>, n: nat, m: nat)
    requires Inv(s, m) && woken <= Asleep(s) && (Asleep(s) - woken != {} ==> |woken| == n)
    requires r.system.waiting == s.system.waiting && r.signalled == s.signalled + woken
    requires |r.system.queue.samples| == |s.system.queue.samples| + n <= MAX_QUEUE_SIZE
    ensures Inv(r, m)
  {
    assert Asleep(r) == Asleep(s) - woken;
    assert |s.signalled + woken| == |s.signalled| + |woken|;
  }

  lemma PutKeepsInv(s: State, move: Move, m: nat)
    requires Inv(s, m) && Allowed(s, move) && (move.section.Put? || move.section.PutAll?)
    ensures Inv(Next(s, move), m)
  {
    SignalsWake(Asleep(s), move.chosen);
    PutGrows(s.system, move.section);
    Grows(s, Next(s, move), Woken(Asleep(s), move.chosen), |move.chosen|, m);
  }

  lemma PutGrows(s: System, a: Section)
    requires (a.Put? || a.PutAll?) && |s.queue.samples| <= MAX_QUEUE_SIZE
    ensures Step(s, a).waiting == s.waiting
    ensures |Step(s, a).queue.samples| == |s.queue.samples| + Added(s.queue, a) <= MAX_QUEUE_SIZE
  {
  }

  lemma WakeKeepsInv(s: State, move: Move, m: nat)
    requires Inv(s, m) && Allowed(s, move) && move.section.Wake?
    ensures Inv(Next(s, move), m)
  {
    var t := move.section.thread;
    assert Next(s, move).signalled == s.signalled - {t};
    if t in s.system.waiting {
      WakeShrinks(s.system, t, move.section.timedOut);
      if Step(s.system, move.section).waiting == s.system.waiting {
        WaitsOn(s, Next(s, move), t, m);
      } else {
        Leaves(s, Next(s, move), t, move.section.timedOut, m);
      }
    }
  }

  /** Thread t goes back to sleep. */
  lemma WaitsOn(s: State, r: State, t: int, m: nat)
    requires Inv(s, m) && t in s.system.waiting && |s.system.queue.samples| < Needed(s.system.waiting[t])
    requires r.system.waiting == s.system.waiting && r.system.queue == s.system.queue && r.signalled == s.signalled - {t}
    ensures Inv(r, m)
  {
  }

  /** Thread t goes, with a sample at least unless it timed out. */
  lemma Leaves(s: State, r: State, t: int, timedOut: bool, m: nat)
    requires Inv(s, m) && t in s.system.waiting && (timedOut ==> t !in s.signalled)
    requires r.system.waiting == s.system.waiting - {t} && r.signalled == s.signalled - {t}
    requires |r.system.queue.samples| <= |s.system.queue.samples| - (if timedOut then 0 else 1)
    ensures Inv(r, m)
  {
    assert Asleep(r) == Asleep(s) - {t};
    assert |r.signalled| == |s.signalled| - (if t in s.signalled then 1 else 0);
  }

  /** A woken thread waits on with too few samples there, has timed out, or takes at least one. */
  lemma WakeShrinks(s: System, t: int, timedOut: bool)
    requires t in s.waiting && Wanted(s.waiting[t]) >= 1 && Needed(s.waiting[t]) >= 1
    ensures var r := Step(s, Wake(t, timedOut));
            if r.waiting == s.waiting then !timedOut && r.queue == s.queue && |s.queue.samples| < Needed(s.waiting[t])
            else r.waiting == s.waiting - {t} && |r.queue.samples| <= |s.queue.samples| - (if timedOut then 0 else 1)
  {
    assert s.waiting[t := s.waiting[t]] == s.waiting;
  }

  lemma TakeKeepsInv(s: State, move: Move, m: nat)
    requires Inv(s, m) && Allowed(s, move) && move.section.Take?
    requires Needed(move.section.taker) == 0 || Alike(Needed(move.section.taker), m)
    requires Wanted(move.section.taker) >= 1
    ensures Inv(Next(s, move), m)
  {
    assert Next(s, move).signalled == s.signalled;
    if move.section.thread !in s.system.waiting {
      TakeShrinks(s.system, move.section.thread, move.section.taker);
      Arrives(s, Next(s, move), move.section.thread, move.section.taker, m);
    }
  }

  /** A new taker goes to sleep with too few samples there, or does not lengthen the queue. */
  lemma TakeShrinks(s: System, t: int, taker: Taker)
    requires t !in s.waiting
    ensures var r := Step(s, Take(t, taker));
            if |s.queue.samples| < Needed(taker) then r.waiting == s.waiting[t := taker] && r.queue == s.queue
            else r.waiting == s.waiting && |r.queue.samples| <= |s.queue.samples|
  {
    assert s.waiting - {t} == s.waiting;
  }

  lemma Arrives(s: State, r: State, t: int, taker: Taker, m: nat)
    requires Inv(s, m) && t !in s.system.waiting && r.signalled == s.signalled
    requires (Needed(taker) == 0 || Alike(Needed(taker), m)) && Wanted(taker) >= 1
    requires if |s.system.queue.samples| < Needed(taker)
             then r.system.waiting == s.system.waiting[t := taker] && r.system.queue == s.system.queue
             else r.system.waiting == s.system.waiting && |r.system.queue.samples| <= |s.system.queue.samples|
    ensures Inv(r, m)
  {
  }

  lemma {:induction false} AlikeRun(moves: seq<Move>, kinds: set<Taker>, m: nat)
    requires AllowedRun(moves) && Uses(moves, kinds) && m >= 1
    requires forall k | k in kinds :: (Needed(k) == 0 || Alike(Needed(k), m)) && Wanted(k) >= 1
    ensures Inv(RunMoves(moves), m)
  {
    if moves != [] {
      var n := |moves| - 1;
      AlikeRun(moves[..n], kinds, m);
      var s, move := RunMoves(moves[..n]), moves[n];
      match move.section
      case Put(_, _) => PutKeepsInv(s, move, m);
      case PutAll(_, _) => PutKeepsInv(s, move, m);
      case Take(_, _) => TakeKeepsInv(s, move, m);
      case Wake(_, _) => WakeKeepsInv(s, move, m);
      case PrintStatistics =>
    }
  }

  /** What all needs that can make a thread wait have in common, unless they are mixed. */
  lemma CommonNeed(kinds: set<Taker>) returns (m: nat)
    requires !Mixed(kinds)
    ensures m >= 1 && forall k | k in kinds :: Needed(k) == 0 || Alike(Needed(k), m)
  {
    if a :| a in kinds && 1 <= Needed(a) <= MAX_QUEUE_SIZE {
      m := Needed(a);
    } else {
      m := MAX_QUEUE_SIZE + 1;
    }
  }

  // ----- Takers with different needs -----

  /** The state after two takers went to sleep and n signals were wasted on the first. */
  predicate WastedState(s: State, a: Taker, b: Taker, n: nat) {
    && s.signalled == {} && s.system.waiting == map[1 := b, 2 := a] && |s.system.queue.samples| == n
  }

  lemma WasteOne(s: State, a: Taker, b: Taker, x: Sample, n: nat)
    requires WastedState(s, a, b, n) && n + 1 < Needed(b) && n < MAX_QUEUE_SIZE
    ensures var put, wake := Move(Put(x, 1), [1]), Move(Wake(1, false), []);
            Allowed(s, put) && Allowed(Next(s, put), wake) && WastedState(Next(Next(s, put), wake), a, b, n + 1)
  {
    var put, wake := Move(Put(x, 1), [1]), Move(Wake(1, false), []);
    var s1 := Next(s, put);
    assert 1 in Asleep(s);
    assert put.chosen[1..] == [];
    assert s1.signalled == {1} && s1.system.waiting == s.system.waiting;
    assert s1.system.waiting[1 := b] == s1.system.waiting;
    assert Next(s1, wake).signalled == {};
  }

  lemma AllowedAppend(moves: seq<Move>, m: Move)
    requires AllowedRun(moves) && Allowed(RunMoves(moves), m)
    ensures AllowedRun(moves + [m]) && RunMoves(moves + [m]) == Next(RunMoves(moves), m)
  {
    assert (moves + [m])[..|moves|] == moves;
  }

  lemma BothSleep(a: Taker, b: Taker) returns (moves: seq<Move>)
    requires 1 <= Needed(a) && 1 <= Needed(b)
    ensures AllowedRun(moves) && Uses(moves, {a, b}) && WastedState(RunMoves(moves), a, b, 0)
  {
    var first, second := Move(Take(1, b), []), Move(Take(2, a), []);
    AllowedAppend([], first);
    AllowedAppend([] + [first], second);
    moves := [] + [first] + [second];
    assert RunMoves([] + [first]).system.waiting == map[1 := b];
  }

  /** The signals of n samples, each of which goes to thread 1, for which there are too few. */
  lemma {:induction false} WasteMany(a: Taker, b: Taker, x: Sample, n: nat) returns (moves: seq<Move>)
    requires 1 <= Needed(a) && n <= Needed(a) < Needed(b) && n <= MAX_QUEUE_SIZE
    ensures AllowedRun(moves) && Uses(moves, {a, b}) && WastedState(RunMoves(moves), a, b, n)
  {
    if n == 0 {
      moves := BothSleep(a, b);
    } else {
      var put, wake := Move(Put(x, 1), [1]), Move(Wake(1, false), []);
      var before := WasteMany(a, b, x, n - 1);
      WasteOne(RunMoves(before), a, b, x, n - 1);
      AllowedAppend(before, put);
      AllowedAppend(before + [put], wake);
      moves := before + [put] + [wake];
    }
  }

  lemma NobodyOversleeps(kinds: set<Taker>, moves: seq<Move>)
    requires !Mixed(kinds) && forall k | k in kinds :: Wanted(k) >= 1
    ensures !Oversleeps(moves, kinds)
  {
    if AllowedRun(moves) && Uses(moves, kinds) {
      var m := CommonNeed(kinds);
      AlikeRun(moves, kinds, m);
      var s := RunMoves(moves);
      if s.signalled == {} {
        assert Asleep(s) == s.system.waiting.Keys;
      }
    }
  }

  lemma SomebodyOversleeps(kinds: set<Taker>) returns (moves: seq<Move>)
    requires Mixed(kinds)
    ensures Oversleeps(moves, kinds)
  {
    var a, b :| a in kinds && b in kinds && 1 <= Needed(a) < Needed(b) && Needed(a) <= MAX_QUEUE_SIZE;
    moves := WasteMany(a, b, Sample(0, 0.0, 0.0), Needed(a));
    assert 2 in RunMoves(moves).system.waiting;
  }

  /**
   Whether a wakeup can be lost: with takers that accept at least one sample, a thread can be left asleep
   beside the samples that it needs if and only if takers of different needs share the queue.
   */
  lemma OversleepIff(kinds: set<Taker>)
    requires forall k | k in kinds :: Wanted(k) >= 1
    ensures (exists moves :: Oversleeps(moves, kinds)) <==> Mixed(kinds)
  {
    if Mixed(kinds) {
      var moves := SomebodyOversleeps(kinds);
    } else {
      forall moves ensures !Oversleeps(moves, kinds) {
        NobodyOversleeps(kinds, moves);
      }
    }
  }
}
