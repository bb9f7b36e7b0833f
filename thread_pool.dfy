/** The pool's sequential state machine. Each method is one critical section
    of src/ThreadPool.cpp run as a single atomic step; threads, locks and
    condition variables are replaced by the caller choosing which step runs
    next, and `wait_for`'s expiry by a `timedOut` input. */
module Pool {
  import opened PoolTypes

  /** The order in which iterating the registry visits its keys: ascending,
      as an ordered map visits them. Every key lies below `bound`, the next
      id the counter would hand out. */
  method EnumerateKeys(keys: set<int>, bound: nat) returns (order: seq<int>)
    requires forall k :: k in keys ==> 0 <= k < bound
    ensures forall k :: k in keys <==> k in order
    ensures forall i, j :: 0 <= i < j < |order| ==> order[i] < order[j]
  {
    order := [];
    var next := 0;
    while next < bound
      invariant 0 <= next <= bound
      invariant forall k :: k in order <==> k in keys && k < next
      invariant forall i :: 0 <= i < |order| ==> order[i] < next
      invariant forall i, j :: 0 <= i < j < |order| ==> order[i] < order[j]
    {
      if next in keys {
        order := order + [next];
      }
      next := next + 1;
    }
  }

  class ThreadPool {
    const config: Config
    var isAvailable: bool
    var isShutdown: bool
    var isShutdownNow: bool
    /** The next id GetNextThreadId hands out. */
    var threadId: int
    var totalFunctionNum: int
    var waitingThreadNum: int
    /** worker_threads_: thread id to worker record. */
    var workers: map<int, Worker>
    /** tasks_: the FIFO task queue, front first. */
    var tasks: seq<TaskId>

    /** What every step keeps: availability is fixed by the configuration,
        every registered id came from the counter, and no Core worker is
        ever marked Stop. */
    ghost predicate Valid()
      reads this
    {
      && isAvailable == IsValidConfig(config)
      && 0 <= threadId
      && IdsBelow(workers, threadId)
      && CoreNeverStopped(workers)
    }

    /** Every worker's state agrees with where its thread is; in particular a
        worker is Running only while its thread is outside the wait. */
    ghost predicate Settled()
      reads this
    {
      StatesMatchThreads(workers)
    }

    /** The wake predicate of a Core worker. */
    predicate CoreWake()
      reads this
    {
      isShutdown || isShutdownNow || |tasks| > 0
    }

    /** Whether worker `id`'s wait returns, given whether its timeout expired:
        a Core worker waits without a timeout, a Cache worker also wakes when
        it is marked Stop or its timeout runs out. */
    predicate Woken(id: int, timedOut: bool)
      reads this
      requires id in workers
    {
      CoreWake() || (workers[id].flag == Cache && (workers[id].state == Stop || timedOut))
    }

    /** Whether a wake-up of worker `id` ends in self-retirement: a Cache
        worker that was marked Stop, or whose wait ran out with its
        predicate still false. */
    predicate SelfRetires(id: int, timedOut: bool)
      reads this
      requires id in workers
    {
      workers[id].flag == Cache && (workers[id].state == Stop || (timedOut && !CoreWake()))
    }

    static function IsValidConfig(config: Config): (valid: bool)
      ensures valid <==> 1 <= config.coreThreads && config.coreThreads <= config.maxThreads && 1 <= config.timeOut
    {
      !(config.coreThreads < 1 || config.maxThreads < config.coreThreads || config.timeOut < 1)
    }

    constructor (config: Config)
      ensures this.config == config
      ensures isAvailable == IsValidConfig(config)
      ensures !isShutdown && !isShutdownNow
      ensures threadId == 0 && totalFunctionNum == 0 && waitingThreadNum == 0
      ensures workers == map[] && tasks == []
      ensures Valid() && Settled()
    {
      this.config := config;
      totalFunctionNum := 0;
      waitingThreadNum := 0;
      threadId := 0;
      isShutdown := false;
      isShutdownNow := false;
      workers := map[];
      tasks := [];
      isAvailable := IsValidConfig(config);
    }

    /** GetNextThreadId: a never-before-used id from the counter. */
    method NextThreadId() returns (id: int)
      requires Valid()
      modifies this`threadId
      ensures Valid() && (old(Settled()) ==> Settled())
      ensures id == old(threadId) && threadId == old(threadId) + 1
      ensures id !in workers
    {
      id := threadId;
      threadId := threadId + 1;
    }

    /** Inserts a new record under an id the counter has handed out; like a
        map's insert, an id already present keeps its old entry. */
    method AddThread(id: int, flag: ThreadFlag)
      requires Valid() && 0 <= id < threadId
      modifies this`workers
      ensures Valid() && (old(Settled()) ==> Settled())
      ensures id !in old(workers) ==> workers == old(workers)[id := NewWorker(flag)]
      ensures id in old(workers) ==> workers == old(workers)
    {
      if id !in workers {
        workers := workers[id := NewWorker(flag)];
      }
    }

    /** AddThread(GetNextThreadId(), flag): the new worker gets the next id,
        which no entry holds yet. */
    method AddNextThread(flag: ThreadFlag)
      requires Valid()
      modifies this`workers, this`threadId
      ensures Valid() && (old(Settled()) ==> Settled())
      ensures threadId == old(threadId) + 1
      ensures old(threadId) !in old(workers)
      ensures workers == old(workers)[old(threadId) := NewWorker(flag)]
    {
      var id := NextThreadId();
      AddThread(id, flag);
    }

    /** `while (count-- > 0) AddThread(GetNextThreadId(), flag)`: `count`
        new `flag` workers under consecutive fresh ids. */
    method AddThreads(count: nat, flag: ThreadFlag)
      requires Valid()
      modifies this`workers, this`threadId
      ensures Valid() && (old(Settled()) ==> Settled())
      ensures threadId == old(threadId) + count
      ensures AddedFresh(old(workers), workers, old(threadId), threadId, flag)
      ensures |workers| == |old(workers)| + (threadId - old(threadId))
    {
      var left := count;
      ghost var added: nat := 0;
      while left > 0
        invariant 0 <= left && added + left == count
        invariant Valid() && (old(Settled()) ==> Settled())
        invariant threadId == old(threadId) + added
        invariant AddedFresh(old(workers), workers, old(threadId), threadId, flag)
        invariant |workers| == |old(workers)| + added
        decreases left
      {
        left := left - 1;
        AddNextThread(flag);
        added := added + 1;
      }
    }

    /** Fails on an unavailable pool; otherwise adds `coreThreads` Core
        workers under consecutive fresh ids. */
    method Start() returns (ok: bool)
      requires Valid()
      modifies this`workers, this`threadId
      ensures Valid() && (old(Settled()) ==> Settled())
      ensures ok == isAvailable
      ensures !ok ==> workers == old(workers) && threadId == old(threadId)
      ensures ok ==> threadId == old(threadId) + config.coreThreads
      ensures ok ==> AddedFresh(old(workers), workers, old(threadId), threadId, Core)
      ensures ok ==> |workers| == |old(workers)| + config.coreThreads
    {
      if !isAvailable {
        return false;
      }
      AddThreads(config.coreThreads, Core);
      return true;
    }

    /** Enqueues a task at the back of the queue (the push side of Run). */
    method Enqueue(task: TaskId)
      modifies this`tasks
      ensures tasks == old(tasks) + [task]
    {
      tasks := tasks + [task];
    }

    /** The scan of Resize's shrink branch: visiting the registry in key
        order, marks Waiting Cache workers Stop until `surplus` of them are
        marked or the scan reaches the end. An entry just marked is visited
        once more and then passed, as it is no longer Waiting. */
    method StopWaitingCache(surplus: int)
      requires Valid() && 0 <= surplus
      modifies this`workers
      ensures Valid() && (old(Settled()) ==> Settled())
      ensures workers.Keys == old(workers).Keys
      ensures Changed(old(workers), workers) <= Markable(old(workers))
      ensures workers == MarkStop(old(workers), Changed(old(workers), workers))
      ensures |Changed(old(workers), workers)| == Min(surplus, |Markable(old(workers))|)
    {
      var diff := surplus;
      var order := EnumerateKeys(workers.Keys, threadId);
      var i := 0;
      ghost var marked: set<int> := {};
      while i < |order|
        invariant 0 <= i <= |order| && 0 <= diff
        invariant marked <= Markable(old(workers))
        invariant workers == MarkStop(old(workers), marked)
        invariant forall j :: 0 <= j < i && order[j] in Markable(old(workers)) ==> order[j] in marked
        invariant |marked| + diff == surplus
        decreases |order| - i, diff
      {
        if diff == 0 {
          break;
        }
        assert order[i] in order;
        var w := workers[order[i]];
        if w.flag == Cache && w.state == Waiting {
          MarkStopOne(old(workers), marked, order[i]);
          workers := workers[order[i] := w.(state := Stop)];
          marked := marked + {order[i]};
          diff := diff - 1;
        } else {
          i := i + 1;
        }
      }
      if diff != 0 {
        // The scan reached the end: every markable entry was visited.
        forall k | k in Markable(old(workers))
          ensures k in marked
        {
          assert k in order;
          var j :| 0 <= j < |order| && order[j] == k;
        }
      }
      MarkStopEffect(old(workers), marked, threadId);
      MarkedCount(marked, Markable(old(workers)), surplus, diff);
    }

    /** Ignores a target below `coreThreads`; grows the registry with Cache
        workers up to the target; or marks Waiting Cache workers Stop, as many
        as the registry is above the target or as there are, whichever is
        fewer. */
    method Resize(threadNum: int)
      requires Valid()
      modifies this`workers, this`threadId
      ensures Valid() && (old(Settled()) ==> Settled())
      ensures threadNum < config.coreThreads ==> workers == old(workers) && threadId == old(threadId)
      ensures config.coreThreads <= threadNum && |old(workers)| < threadNum ==>
        && threadId == old(threadId) + (threadNum - |old(workers)|)
        && AddedFresh(old(workers), workers, old(threadId), threadId, Cache)
        && |workers| == threadNum
      ensures config.coreThreads <= threadNum <= |old(workers)| ==>
        && threadId == old(threadId)
        && workers.Keys == old(workers).Keys
        && Changed(old(workers), workers) <= Markable(old(workers))
        && workers == MarkStop(old(workers), Changed(old(workers), workers))
        && |Changed(old(workers), workers)| == Min(|old(workers)| - threadNum, |Markable(old(workers))|)
      ensures forall k :: k in old(workers) && (old(workers)[k].flag == Core || old(workers)[k].state != Waiting) ==>
        k in workers && workers[k] == old(workers)[k]
    {
      if threadNum < config.coreThreads {
        return;
      }
      var oldThreadNum := |workers|;
      if threadNum > oldThreadNum {
        AddThreads(threadNum - oldThreadNum, Cache);
      } else {
        StopWaitingCache(oldThreadNum - threadNum);
      }
    }

    /** Sets the immediate or the graceful shutdown flag; nothing happens on
        an unavailable pool, and no flag is ever cleared. */
    method ShutDown(isNow: bool)
      modifies this`isShutdown, this`isShutdownNow
      ensures !isAvailable ==> isShutdown == old(isShutdown) && isShutdownNow == old(isShutdownNow)
      ensures isAvailable ==> isShutdownNow == (old(isShutdownNow) || isNow)
      ensures isAvailable ==> isShutdown == (old(isShutdown) || !isNow)
    {
      if isAvailable {
        if isNow {
          isShutdownNow := true;
        } else {
          isShutdown := true;
        }
      }
    }

    /** The top of a worker's loop: a worker already marked Stop leaves the
        loop; any other becomes Waiting, counts itself as waiting and goes
        into the wait. */
    method BeginWait(id: int) returns (stopped: bool)
      requires Valid() && id in workers && workers[id].pos == AtTop
      modifies this`workers, this`waitingThreadNum
      ensures Valid() && (old(Settled()) ==> Settled())
      ensures stopped == (old(workers)[id].state == Stop)
      ensures stopped ==>
        workers == old(workers)[id := old(workers)[id].(pos := Done)] && waitingThreadNum == old(waitingThreadNum)
      ensures !stopped ==>
        && workers == old(workers)[id := old(workers)[id].(state := Waiting, pos := InWait)]
        && waitingThreadNum == old(waitingThreadNum) + 1
    {
      var w := workers[id];
      if w.state == Stop {
        workers := workers[id := w.(pos := Done)];
        return true;
      }
      workers := workers[id := w.(state := Waiting, pos := InWait)];
      waitingThreadNum := waitingThreadNum + 1;
      return false;
    }

    /** The rest of one loop iteration, from the wait on: the worker stays
        blocked while its wake predicate is false; a Cache worker that timed
        out or was marked Stop erases its own entry; a shutdown flag makes the
        worker leave; otherwise it takes the front task and becomes Running. */
    method Wake(id: int, timedOut: bool) returns (out: WakeOutcome)
      requires Valid() && id in workers && workers[id].pos == InWait
      modifies this`workers, this`tasks, this`waitingThreadNum
      ensures Valid() && (old(Settled()) ==> Settled())
      ensures out.StillWaiting? <==> !old(Woken(id, timedOut))
      ensures out.StillWaiting? ==>
        workers == old(workers) && tasks == old(tasks) && waitingThreadNum == old(waitingThreadNum)
      ensures out.Retired? <==> old(SelfRetires(id, timedOut))
      ensures out.Retired? ==>
        workers == old(workers) - {id} && tasks == old(tasks) && waitingThreadNum == old(waitingThreadNum)
      ensures out.Exited? <==>
        old(Woken(id, timedOut)) && !old(SelfRetires(id, timedOut)) &&
        old((isShutdown && tasks == []) || isShutdownNow)
      ensures out.Exited? ==>
        && workers == old(workers)[id := old(workers)[id].(pos := Done)]
        && tasks == old(tasks) && waitingThreadNum == old(waitingThreadNum) - 1
      ensures out.Dequeued? <==>
        old(Woken(id, timedOut)) && !old(SelfRetires(id, timedOut)) &&
        !old((isShutdown && tasks == []) || isShutdownNow)
      ensures out.Dequeued? ==>
        && old(tasks) != [] && out.task == old(tasks)[0] && tasks == old(tasks)[1..]
        && workers == old(workers)[id := old(workers)[id].(state := Running, pos := AtTop)]
        && waitingThreadNum == old(waitingThreadNum) - 1
      ensures forall k :: k in old(workers) && k != id ==> k in workers && workers[k] == old(workers)[k]
      ensures forall k :: k in old(workers) && old(workers)[k].flag == Core ==> k in workers && workers[k].flag == Core
      ensures old(isShutdownNow) ==> tasks == old(tasks)
    {
      var w := workers[id];
      if w.flag == Core {
        if !CoreWake() {
          return StillWaiting;
        }
      } else {
        var ready := CoreWake() || w.state == Stop;
        if !ready && !timedOut {
          return StillWaiting;
        }
        var isTimeout := !ready;
        if isTimeout {
          w := w.(state := Stop);
          workers := workers[id := w];
        }
        if w.state == Stop {
          workers := workers - {id};
          return Retired;
        }
      }
      waitingThreadNum := waitingThreadNum - 1;
      if isShutdown && tasks == [] {
        workers := workers[id := w.(pos := Done)];
        return Exited;
      }
      if isShutdownNow {
        workers := workers[id := w.(pos := Done)];
        return Exited;
      }
      workers := workers[id := w.(state := Running, pos := AtTop)];
      out := Dequeued(tasks[0]);
      tasks := tasks[1..];
    }
  }
}
