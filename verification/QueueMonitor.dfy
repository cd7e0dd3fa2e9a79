/**
 The sample queue as a monitor: the critical sections of arraylist_sample_queue_impl.c on the fields that
 they update.
 */
module QueueMonitor {
  import opened Numbers
  import opened SampleQueue

  class Monitor {
    var queue: seq<Sample>
    var putCnt: int
    var takeCnt: int
    var currentQueueSize: int

    ghost function Model(): Queue
      reads this
    {
      Queue(queue, putCnt, takeCnt, currentQueueSize)
    }

    constructor ()
      ensures Model() == INITIAL.queue
    {
      queue, putCnt, takeCnt, currentQueueSize := [], 0, 0, 0;
    }

    /** allocations bounds the copies that can still be allocated; calloc fails after that. */
    method Put(sample: Sample, allocations: nat) returns (status: Status, sampleTaken: Option<bool>)
      modifies this
      ensures Model() == Append(old(Model()), [sample][..AddedCount(old(Model()), 1, allocations)])
      ensures (status, sampleTaken) == PutStatus(old(Model()), allocations)
    {
      status, sampleTaken := Success, None;
      if MAX_QUEUE_SIZE == 0 || |queue| < MAX_QUEUE_SIZE {
        if allocations > 0 {
          queue := queue + [sample];
          putCnt := putCnt + 1;
          currentQueueSize := currentQueueSize + 1;
          sampleTaken := Some(true);
        } else {
          status := OutOfMemory;
        }
      }
    }

    method PutAll(samples: seq<Sample>, allocations: nat) returns (status: Status, samplesTaken: nat)
      modifies this
      ensures samplesTaken == AddedCount(old(Model()), |samples|, allocations)
      ensures Model() == Append(old(Model()), samples[..samplesTaken])
      ensures status == PutAllStatus(old(Model()), |samples|, allocations)
    {
      status, samplesTaken := Success, 0;
      var i := 0;
      while i < |samples| && (MAX_QUEUE_SIZE == 0 || |queue| < MAX_QUEUE_SIZE)
        invariant 0 <= i <= |samples| && samplesTaken == i
        invariant i <= Free(|old(queue)|) && i <= allocations && status == Success
        invariant queue == old(queue) + samples[..i]
        invariant currentQueueSize == old(currentQueueSize) + i
        invariant putCnt == old(putCnt) && takeCnt == old(takeCnt)
      {
        if i == allocations {
          status := OutOfMemory;
          break;
        }
        queue := queue + [samples[i]];
        samplesTaken := samplesTaken + 1;
        currentQueueSize := currentQueueSize + 1;
        i := i + 1;
      }
      putCnt := putCnt + samplesTaken;
      if samplesTaken != |samples| && status == Success {
        status := BundleException;
      }
    }

    /** A section of take; timedOut is the result of the wait before it. */
    method Take(timedOut: bool) returns (waits: bool, status: Status, out: Option<Sample>)
      modifies this
      ensures var e := TakeEnding(old(Model()), One, timedOut);
              && Model() == AfterTake(old(Model()), e)
              && (waits <==> e.Waits?)
              && (!waits ==> e == Returns(status, if out.None? then [] else [out.value]))
    {
      waits, status, out := false, IllegalState, None;
      if |queue| == 0 && !timedOut {
        waits := true;
      } else if !timedOut && |queue| > 0 {
        out := Some(queue[0]);
        queue := queue[1..];
        takeCnt := takeCnt + 1;
        currentQueueSize := currentQueueSize - 1;
        status := Success;
      } else if |queue| == 0 {
        status := Success;
      }
    }

    /** A section of takeAll; what it takes is copied to the front of the caller's buffer. */
    method TakeAll(min: nat, max: nat, timedOut: bool, buf: array<Sample>)
      returns (waits: bool, status: Status, i: nat)
      requires max <= buf.Length
      modifies this, buf
      ensures var e := TakeEnding(old(Model()), All(min, max), timedOut);
              && Model() == AfterTake(old(Model()), e)
              && (waits <==> e.Waits?)
              && i <= max
              && (waits ==> i == 0)
              && (!waits ==> e == Returns(status, buf[..i]))
      ensures buf[i..] == old(buf[..])[i..]
    {
      waits, status, i := false, IllegalState, 0;
      if |queue| < min && !timedOut {
        waits := true;
        return;
      }
      if !timedOut {
        status := Success;
        while i < max && |queue| > 0
          invariant i <= max && i <= |old(queue)|
          invariant queue == old(queue)[i..] && buf[..i] == old(queue)[..i]
          invariant buf[i..] == old(buf[..])[i..]
          invariant takeCnt == old(takeCnt) && currentQueueSize == old(currentQueueSize) && putCnt == old(putCnt)
          decreases |queue|
        {
          buf[i] := queue[0];
          queue := queue[1..];
          i := i + 1;
        }
      }
      takeCnt := takeCnt + i;
      currentQueueSize := currentQueueSize - i;
    }

    method PrintStatistics() returns (put: int, taken: int, size: nat)
      modifies this
      ensures Model() == old(Model()).(putCnt := 0, takeCnt := 0)
      ensures put == old(putCnt) && taken == old(takeCnt) && size == |queue|
    {
      put, taken, size := putCnt, takeCnt, |queue|;
      putCnt, takeCnt := 0, 0;
    }
  }
}
