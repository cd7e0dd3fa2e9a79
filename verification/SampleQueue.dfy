/**
 The bounded sample queue of the Celix implementation (arraylist_sample_queue_impl.c). Each critical
 section, from taking the lock to releasing it or to waiting on the condition, is one step. The functions
 are the specification of the class Monitor of module QueueMonitor; a live queue (not NULL) is modelled.
 */
module SampleQueue {
  import opened Numbers

  const MAX_QUEUE_SIZE: nat := 10000

  datatype Sample = Sample(time: nat, value1: real, value2: real)

  datatype Status = Success | OutOfMemory | IllegalState | BundleException

  datatype Queue = Queue(samples: seq<Sample>, putCnt: int, takeCnt: int, currentQueueSize: int)

  function HasRoom(size: nat): bool {
    MAX_QUEUE_SIZE == 0 || size < MAX_QUEUE_SIZE
  }

  function Free(size: nat): nat {
    if size < MAX_QUEUE_SIZE then MAX_QUEUE_SIZE - size else 0
  }

  function Append(q: Queue, added: seq<Sample>): Queue {
    Queue(q.samples + added, q.putCnt + |added|, q.takeCnt, q.currentQueueSize + |added|)
  }

  function Remove(q: Queue, n: nat): Queue
    requires n <= |q.samples|
  {
    Queue(q.samples[n..], q.putCnt, q.takeCnt + n, q.currentQueueSize - n)
  }

  /** How many samples a put adds when at most `allocations` more copies can be allocated. */
  function AddedCount(q: Queue, wanted: nat, allocations: nat): nat {
    Min(Min(wanted, Free(|q.samples|)), allocations)
  }

  /** sampleTaken is None when the source leaves the caller's flag unwritten. */
  function PutStatus(q: Queue, allocations: nat): (r: (Status, Option<bool>)) {
    if !HasRoom(|q.samples|) then (Success, None)
    else if allocations == 0 then (OutOfMemory, None)
    else (Success, Some(true))
  }

  function PutAllStatus(q: Queue, wanted: nat, allocations: nat): Status {
    if allocations < Min(wanted, Free(|q.samples|)) then OutOfMemory
    else if AddedCount(q, wanted, allocations) != wanted then BundleException
    else Success
  }

  /**
   A put of several samples adds them in order until all are in, the queue is full, or the memory is used
   up, and its status says which.
   */
  lemma PutAllAnswers(q: Queue, wanted: nat, allocations: nat)
    requires |q.samples| <= MAX_QUEUE_SIZE
    ensures var added, status := AddedCount(q, wanted, allocations), PutAllStatus(q, wanted, allocations);
            && added <= wanted && added <= allocations && |q.samples| + added <= MAX_QUEUE_SIZE
            && (added < wanted ==> added == allocations || |q.samples| + added == MAX_QUEUE_SIZE)
            && (status == Success <==> added == wanted)
            && (status == BundleException <==> added < wanted && |q.samples| + added == MAX_QUEUE_SIZE)
            && (status == OutOfMemory <==> added < wanted && |q.samples| + added < MAX_QUEUE_SIZE)
  {
  }

  /** A put of one sample writes its flag exactly when it adds it, and fails only for lack of memory. */
  lemma PutAnswers(q: Queue, allocations: nat)
    requires |q.samples| <= MAX_QUEUE_SIZE
    ensures var (status, taken) := PutStatus(q, allocations);
            && (AddedCount(q, 1, allocations) == 1 <==> |q.samples| < MAX_QUEUE_SIZE && allocations > 0)
            && taken == (if AddedCount(q, 1, allocations) == 1 then Some(true) else None)
            && status == if |q.samples| < MAX_QUEUE_SIZE && allocations == 0 then OutOfMemory else Success
  {
  }

  // ----- Takers -----

  /** A call of take, or of takeAll with its bounds. */
  datatype Taker = One | All(min: nat, max: nat)

  /** A section ends in another wait, or returns a status with what was taken. */
  datatype Ending = Waits | Returns(status: Status, samples: seq<Sample>)

  function Needed(taker: Taker): nat {
    if taker.One? then 1 else taker.min
  }

  function Wanted(taker: Taker): nat {
    if taker.One? then 1 else taker.max
  }

  /** How a section of a taker ends; timedOut says that its last wait returned ETIMEDOUT. */
  function TakeEnding(q: Queue, taker: Taker, timedOut: bool): Ending {
    if |q.samples| < Needed(taker) && !timedOut then Waits
    else if !timedOut then Returns(Success, q.samples[..Min(|q.samples|, Wanted(taker))])
    else if taker.One? && q.samples == [] then Returns(Success, [])
    else Returns(IllegalState, [])
  }

  function AfterTake(q: Queue, e: Ending): Queue
    requires e.Returns? ==> |e.samples| <= |q.samples|
  {
    if e.Waits? then q else Remove(q, |e.samples|)
  }

  // ----- Interleavings -----

  /** What has happened to the contents, in the order of the critical sections. */
  datatype Entry = Accepted(added: seq<Sample>) | Finished(taker: Taker, status: Status, removed: seq<Sample>)

  datatype System = System(queue: Queue, waiting: map<int, Taker>, log: seq<Entry>, sizeAtReset: int)

  /** A section of some thread. A thread that is waiting wakes when signalled, spuriously, or timed out. */
  datatype Section =
    | Put(sample: Sample, allocations: nat)
    | PutAll(samples: seq<Sample>, allocations: nat)
    | Take(thread: int, taker: Taker)
    | Wake(thread: int, timedOut: bool)
    | PrintStatistics

  const INITIAL := System(Queue([], 0, 0, 0), map[], [], 0)

  function Record(s: System, q: Queue, e: Entry): System {
    s.(queue := q, log := s.log + [e])
  }

  function EnterTake(s: System, thread: int, taker: Taker, timedOut: bool): System {
    var e := TakeEnding(s.queue, taker, timedOut);
    if e.Waits? then s.(waiting := s.waiting[thread := taker])
    else Record(s.(waiting := s.waiting - {thread}), AfterTake(s.queue, e), Finished(taker, e.status, e.samples))
  }

  /** A section of a thread that cannot run it (waiting, or not) does nothing. */
  function Step(s: System, a: Section): System {
    match a
    case Put(sample, allocations) =>
      var added := [sample][..AddedCount(s.queue, 1, allocations)];
      Record(s, Append(s.queue, added), Accepted(added))
    case PutAll(samples, allocations) =>
      var added := samples[..AddedCount(s.queue, |samples|, allocations)];
      Record(s, Append(s.queue, added), Accepted(added))
    case Take(thread, taker) => if thread in s.waiting then s else EnterTake(s, thread, taker, false)
    case Wake(thread, timedOut) =>
      if thread in s.waiting then EnterTake(s, thread, s.waiting[thread], timedOut) else s
    case PrintStatistics =>
      s.(queue := s.queue.(putCnt := 0, takeCnt := 0), sizeAtReset := |s.queue.samples|)
  }

  function RunFrom(s: System, sections: seq<Section>): System {
    if sections == [] then s else Step(RunFrom(s, sections[..|sections| - 1]), sections[|sections| - 1])
  }

  function Run(sections: seq<Section>): System {
    RunFrom(INITIAL, sections)
  }

  // ----- The sequential queue -----

  /** The contents of an unbounded first-in-first-out queue after the log, unless the log is not legal for one. */
  function Replay(log: seq<Entry>): Option<seq<Sample>> {
    if log == [] then Some([])
    else
      var before := Replay(log[..|log| - 1]);
      if before.None? then None
      else match log[|log| - 1]
        case Accepted(added) => Some(before.value + added)
        case Finished(_, _, removed) => if removed <= before.value then Some(before.value[|removed|..]) else None
  }

  function AllPut(log: seq<Entry>): seq<Sample> {
    if log == [] then []
    else AllPut(log[..|log| - 1]) + (if log[|log| - 1].Accepted? then log[|log| - 1].added else [])
  }

  function AllTaken(log: seq<Entry>): seq<Sample> {
    if log == [] then []
    else AllTaken(log[..|log| - 1]) + (if log[|log| - 1].Finished? then log[|log| - 1].removed else [])
  }

  /** The answer that a taker gets. */
  predicate ProperAnswer(e: Entry) {
    e.Finished? ==>
      && (e.status != Success ==> e.removed == [])
      && (e.taker.One? ==> |e.removed| <= 1)
      && (e.taker.All? ==> |e.removed| <= e.taker.max)
      && (e.taker.All? && e.status == Success && e.taker.min <= e.taker.max ==> e.taker.min <= |e.removed|)
  }

  predicate Inv(s: System) {
    && Replay(s.log) == Some(s.queue.samples)
    && AllPut(s.log) == AllTaken(s.log) + s.queue.samples
    && |s.queue.samples| <= MAX_QUEUE_SIZE
    && s.queue.currentQueueSize == |s.queue.samples|
    && s.sizeAtReset + s.queue.putCnt - s.queue.takeCnt == |s.queue.samples|
    && forall i | 0 <= i < |s.log| :: ProperAnswer(s.log[i])
  }

  lemma LogAppend(log: seq<Entry>, e: Entry)
    ensures AllPut(log + [e]) == AllPut(log) + (if e.Accepted? then e.added else [])
    ensures AllTaken(log + [e]) == AllTaken(log) + (if e.Finished? then e.removed else [])
    ensures Replay(log).Some? && e.Accepted? ==> Replay(log + [e]) == Some(Replay(log).value + e.added)
    ensures Replay(log).Some? && e.Finished? && e.removed <= Replay(log).value ==>
              Replay(log + [e]) == Some(Replay(log).value[|e.removed|..])
  {
    assert (log + [e])[..|log|] == log;
  }

  lemma AcceptKeepsInv(s: System, added: seq<Sample>)
    requires Inv(s) && |added| <= Free(|s.queue.samples|)
    ensures Inv(Record(s, Append(s.queue, added), Accepted(added)))
  {
    LogAppend(s.log, Accepted(added));
    assert AllTaken(s.log) + [] == AllTaken(s.log);
    assert AllTaken(s.log) + s.queue.samples + added == AllTaken(s.log) + (s.queue.samples + added);
  }

  lemma SplitAt(a: seq<Sample>, q: seq<Sample>, n: nat)
    requires n <= |q|
    ensures a + q == (a + q[..n]) + q[n..] && q[..n] <= q && a + [] == a
  {
  }

  lemma RemoveKeepsInv(s: System, n: nat, e: Entry)
    requires Inv(s) && n <= |s.queue.samples| && e.Finished? && e.removed == s.queue.samples[..n] && ProperAnswer(e)
    ensures Inv(Record(s, Remove(s.queue, n), e))
  {
    var r, q := Record(s, Remove(s.queue, n), e), s.queue.samples;
    LogAppend(s.log, e);
    SplitAt(AllTaken(s.log), q, n);
    SplitAt(AllPut(s.log), q, n);
    assert Replay(r.log) == Some(q[n..]);
    assert AllPut(r.log) == AllTaken(r.log) + q[n..];
  }

  lemma TakeKeepsInv(s: System, thread: int, taker: Taker, timedOut: bool)
    requires Inv(s)
    ensures Inv(EnterTake(s, thread, taker, timedOut))
  {
    var e := TakeEnding(s.queue, taker, timedOut);
    if e.Returns? {
      RemoveKeepsInv(s.(waiting := s.waiting - {thread}), |e.samples|, Finished(taker, e.status, e.samples));
    }
  }

  /**
   Linearizability of every interleaving: the sections, in their order, are a legal history of a
   sequential queue; nothing is lost, duplicated or reordered; the bound and the counters hold.
   */
  lemma {:induction false} EveryRunIsLinear(sections: seq<Section>)
    ensures Inv(Run(sections))
  {
    if sections != [] {
      var n := |sections| - 1;
      EveryRunIsLinear(sections[..n]);
      var s := Run(sections[..n]);
      match sections[n]
      case Put(sample, allocations) =>
        AcceptKeepsInv(s, [sample][..AddedCount(s.queue, 1, allocations)]);
      case PutAll(samples, allocations) =>
        AcceptKeepsInv(s, samples[..AddedCount(s.queue, |samples|, allocations)]);
      case Take(thread, taker) =>
        TakeKeepsInv(s, thread, taker, false);
      case Wake(thread, timedOut) =>
        if thread in s.waiting { TakeKeepsInv(s, thread, s.waiting[thread], timedOut); }
      case PrintStatistics =>
    }
  }

  /** What was taken first stays first, whatever happens later. */
  lemma {:induction false} TakenStays(s: System, sections: seq<Section>)
    ensures AllTaken(s.log) <= AllTaken(RunFrom(s, sections).log)
  {
    if sections != [] {
      var n := |sections| - 1;
      var before := RunFrom(s, sections[..n]);
      TakenStays(s, sections[..n]);
      TakenGrows(before, sections[n]);
    }
  }

  lemma TakenGrows(s: System, a: Section)
    ensures AllTaken(s.log) <= AllTaken(Step(s, a).log)
  {
    var log := Step(s, a).log;
    if log != s.log {
      LogAppend(s.log, log[|s.log|]);
    }
  }

  /**
   A waiting taker receives samples exactly when its wait did not time out and as many as it needs are
   there; it waits on exactly when its wait did not time out and they are not. A taker that timed out is
   told of a failure unless it is a take that finds the queue empty; samples that have arrived do not help.
   */
  lemma WakingTaker(s: System, thread: int, timedOut: bool)
    requires thread in s.waiting && Wanted(s.waiting[thread]) >= 1
    ensures var r, q, taker := Step(s, Wake(thread, timedOut)), s.queue.samples, s.waiting[thread];
            && (AllTaken(r.log) != AllTaken(s.log) <==> !timedOut && |q| >= Max(1, Needed(taker)))
            && (AllTaken(r.log) != AllTaken(s.log) ==>
                  AllTaken(r.log) == AllTaken(s.log) + q[..Min(|q|, Wanted(taker))])
            && (thread in r.waiting <==> !timedOut && |q| < Needed(taker))
            && (timedOut ==> r.queue == s.queue)
            && (timedOut ==>
                  r.log == s.log + [Finished(taker, if taker.One? && q == [] then Success else IllegalState, [])])
  {
    var r, taker := Step(s, Wake(thread, timedOut)), s.waiting[thread];
    var e := TakeEnding(s.queue, taker, timedOut);
    assert s.queue.samples[0..] == s.queue.samples;
    if e.Returns? {
      LogAppend(s.log, Finished(taker, e.status, e.samples));
      assert |AllTaken(r.log)| == |AllTaken(s.log)| + |e.samples|;
      assert AllTaken(s.log) + [] == AllTaken(s.log);
    }
  }

  /** A take that times out fails and leaves the sample that arrived before it could run. */
  lemma LateSample(x: Sample)
    ensures var s := Run([Take(1, One), Put(x, 1), Wake(1, true)]);
            s.queue.samples == [x] && s.log == [Accepted([x]), Finished(One, IllegalState, [])]
  {
    var taken := [Take(1, One)];
    var put := taken + [Put(x, 1)];
    RunAppend([], Take(1, One));
    RunAppend(taken, Put(x, 1));
    RunAppend(put, Wake(1, true));
    SleepThenPut(x);
    WakingTaker(Run(put), 1, true);
    assert put + [Wake(1, true)] == [Take(1, One), Put(x, 1), Wake(1, true)];
  }

  lemma SleepThenPut(x: Sample)
    ensures var s := Step(Step(INITIAL, Take(1, One)), Put(x, 1));
            s.queue.samples == [x] && s.waiting == map[1 := One] && s.log == [Accepted([x])]
  {
    var s := Step(INITIAL, Take(1, One));
    assert s == INITIAL.(waiting := map[1 := One]);
    assert [x][..1] == [x] && [] + [x] == [x];
  }

  lemma RunAppend(sections: seq<Section>, a: Section)
    ensures Run(sections + [a]) == Step(Run(sections), a)
  {
    assert (sections + [a])[..|sections|] == sections;
  }
}
