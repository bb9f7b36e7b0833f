# Thread pool state machine

A Dafny model of the `tp::ThreadPool` core in `src/ThreadPool.cpp`: a pool
with a fixed set of Core workers started by `Start`, and extra Cache workers
that `Resize` adds. Cache workers retire when their wait times out, or when
`Resize` marks them Stop. Workers take tasks from a FIFO queue. After an
immediate shutdown (`ShutDown(true)`) a worker that wakes leaves at once. After
a graceful one (`ShutDown(false)`) workers keep taking tasks until the queue is
empty, and a worker that then wakes leaves.

Each critical section of the source is one atomic step of the class
`Pool.ThreadPool`. The class fields are:

- the configuration;
- the three flags;
- the id counter;
- the two counters;
- the worker registry, a map from id to worker record;
- the task queue, a sequence of task ids.

The real threads, locks and condition variables are not modelled. Instead,
a caller chooses which step runs next. One iteration of a worker's loop
(`work_thread`) is split into two steps:

- `BeginWait` is the top of the loop up to the wait.
- `Wake` is the wait returning, or not, followed by the rest of the iteration.

`Wake` takes a `timedOut` input in place of `wait_for`'s expiry.

The modules are:

- `types.dfy`, module `PoolTypes`:
  - the configuration, flag, state and worker values;
  - the registry invariants;
  - the registry updates made by Start and Resize, as predicates with their lemmas.
- `thread_pool.dfy`, module `Pool`:
  - the class `ThreadPool`, with one method per operation;
  - `EnumerateKeys`, which stands for iterating over the registry.
- `scenarios.dfy`, module `PoolScenarios`: concrete runs whose outcomes follow
  from the contracts alone.

Two class invariants are proved:

- `Valid()` is established by the constructor. Every step that changes the
  registry or the counter requires it and ensures it again. Those steps are
  `NextThreadId`, `AddThread`, `AddNextThread`, `AddThreads`, `Start`,
  `StopWaitingCache`, `Resize`, `BeginWait` and `Wake`. `Enqueue` and
  `ShutDown` touch neither. `Valid()` says three things: availability is fixed
  by the configuration, every registered id came from the counter, and no Core
  worker is ever marked Stop.
- `Settled()` is established by the constructor and preserved by the same
  steps. It says each worker's state matches where its thread is: Init or
  Running exactly while the thread is at the top of its loop; Waiting or Stop
  while it is blocked in the wait or after it has left the loop.

Every worker record carries `pos` (at the top of the loop, in the wait, or
gone), which stands for the thread that runs it.

## Model

| member | source | states |
|---|---|---|
| Pool.ThreadPool.IsValidConfig | src/ThreadPool.cpp:20-24 | a configuration is valid exactly when `core_threads >= 1`, `max_threads >= core_threads` and the time-out count is at least 1 |
| Pool.ThreadPool.constructor | src/ThreadPool.cpp:4-17 | availability equals the configuration's validity; both shutdown flags are false; the two counters and the id counter are 0; the registry and queue are empty; both class invariants hold |
| Pool.ThreadPool.NextThreadId | src/ThreadPool.cpp:31 | returns the counter's value, which no registry entry holds, and moves the counter up by one, so no id is handed out twice (unbounded counter) |
| Pool.ThreadPool.AddThread | src/ThreadPool.cpp:37-46 | for an id the counter has handed out: a new id gets a fresh record with the given flag; an id already present keeps its entry (insert does not overwrite); the invariants are kept |
| Pool.ThreadPool.AddNextThread | src/ThreadPool.cpp:31 | the counter moves up by one, and the registry gains exactly the old counter value as a key, with a fresh record; nothing else changes |
| Pool.ThreadPool.AddThreads | src/ThreadPool.cpp:30-32 | `count` fresh workers of one flag under the ids `threadId .. threadId + count - 1`; every prior entry is kept unchanged; the size grows by `count`; both invariants are kept |
| Pool.ThreadPool.Enqueue | test/test.cpp:15 | the push side of `Run`: appends the task at the back of the queue, and nothing else changes |
| Pool.ThreadPool.Start | src/ThreadPool.cpp:26-35 | an unavailable pool returns false and changes nothing; otherwise returns true and adds exactly `core_threads` Core entries under fresh consecutive ids, with existing entries unchanged |
| Pool.EnumerateKeys | src/ThreadPool.cpp:120-121 | the scan visits every registry key exactly once, in ascending order |
| Pool.ThreadPool.StopWaitingCache | src/ThreadPool.cpp:119-130 | the shrink scan removes no key, changes only Waiting Cache entries, sets each to Stop, and marks exactly `min(surplus, number of Waiting Cache entries)` |
| Pool.ThreadPool.Resize | src/ThreadPool.cpp:108-131 | a target below `core_threads` changes nothing; a larger target than the registry size adds exactly `target - old` Cache entries under fresh ids, with no check of `max_threads`; otherwise it marks `min(old - target, Waiting Cache count)` Waiting Cache entries Stop and removes no key; Core and non-Waiting entries are never changed |
| Pool.ThreadPool.ShutDown | src/ThreadPool.cpp:134-143 | an unavailable pool changes nothing; otherwise the immediate or the graceful flag is set and neither is ever cleared, so repeating a call changes nothing more |
| Pool.ThreadPool.BeginWait | src/ThreadPool.cpp:52-55 | a worker marked Stop leaves the loop without touching the queue; any other becomes Waiting, enters the wait and raises the waiting count by one |
| Pool.ThreadPool.Wake | src/ThreadPool.cpp:56-99 | the step is enabled exactly when the wake predicate holds: for Core, a shutdown flag or a non-empty queue; for Cache, also its own Stop mark or a timeout. A Cache worker that timed out or was marked Stop retires, erasing only its own key, with the queue unchanged. Otherwise a graceful shutdown with an empty queue, or an immediate shutdown, makes the worker exit. Otherwise the worker becomes Running and removes exactly the front task. Core entries are never erased, and other entries are never changed |
| PoolTypes.AddedFreshEffect | src/ThreadPool.cpp:30-31 | adding fresh ids keeps every id below the counter, keeps Core workers un-stopped and keeps states matching threads |
| PoolTypes.AddedFreshUnique | src/ThreadPool.cpp:30-31 | the registry after a run of fresh insertions is determined by the registry before it, the ids and the flag |
| PoolTypes.AddedOne | src/ThreadPool.cpp:45 | one fresh insertion is a plain map update |
| PoolTypes.MarkStopEffect | src/ThreadPool.cpp:124-127 | marking Waiting Cache entries Stop changes exactly those entries, keeps every key and keeps the registry invariants |
| PoolTypes.MarkedCount | src/ThreadPool.cpp:121-130 | the scan stops when the deficit is used up or every markable entry is marked, so it marks `min(deficit, markable)` entries |
| PoolScenarios.CoreWorkersServeInOrder | src/ThreadPool.cpp:87-99 | with configuration (2, 4, 200), two Core workers take tasks 10 and 11 in queue order |
| PoolScenarios.GracefulShutdownEndsWorker | src/ThreadPool.cpp:87-90 | after a repeated graceful shutdown with an empty queue, a Core worker exits its loop |
| PoolScenarios.CacheWorkerTimesOut | src/ThreadPool.cpp:72-79 | a Cache worker added by Resize(3) that times out with nothing queued removes its own entry, leaving ids {0, 1} |
| PoolScenarios.ShrinkRetiresCacheWorker | src/ThreadPool.cpp:118-131 | Resize(2) marks the waiting Cache worker Stop; when it wakes it removes its own entry, leaving ids {0, 1} |
| PoolScenarios.InvalidPoolStillGrows | src/ThreadPool.cpp:108-117 | with an invalid configuration, Start returns false, yet Resize(3) still creates three Cache workers |

## Left out

- Threads, the mutexes, `wait`/`wait_for` and `notify_all` (src/ThreadPool.cpp:43, 58, 62, 68, 132, 141) are left out, because they are concurrency. Each critical section is one atomic step. The scheduler's choices become the caller's choice of step. A timeout becomes the `timedOut` input of `Wake`.
- The statement `ThreadPool::ThreadPoolLock(wk_mutex_);` at lines 76 and 113 declares a local object rather than locking the registry. This locking defect is invisible in a sequential model.
- Executing a task (line 102) is left out. Tasks are opaque closures, modelled by ids.
- `Run`, its futures, `GetNextThreadId`, `IsAvailable`, `ThreadWrapper`, `ThreadPoolConfig` and the registry's map type are declared in `ThreadPool.h`, which is not part of this model. Three assumptions replace them:
  - Submission is modelled only as `Enqueue` (append at the back). Run's availability check, its shutdown check and its futures are not modelled.
  - `GetNextThreadId` returns the counter and increments it.
  - `IsAvailable()` (src/ThreadPool.cpp:27) reads the `is_available_` flag that the constructor stores.
- `ThreadPoolConfig` has four fields (test/test.cpp:10). Only `core_threads`, `max_threads` and `time_out`, the ones src/ThreadPool.cpp reads, are modelled. The unused third field is dropped.
- Integer width: ids, the id counter, the registry size and Resize's `diff` are C++ `int` (src/ThreadPool.cpp:31, 37, 110, 119). The model uses unbounded integers and does not model 32-bit wrap-around. So "no id is handed out twice" and "every id is at least 0" hold only while fewer than 2^31 ids have been handed out.
- A fresh `ThreadWrapper`'s initial state is modelled as `Init`: a value distinct from Waiting, Running and Stop.
- Registry iteration is modelled in ascending key order, as an ordered map iterates.
- Logging and `std::cout` (lines 29, 33, 38, 111 and others) are left out.
- `time_out` keeps only its integer count.
- AddThread: the model requires an id the counter has already handed out. Both callers pass `GetNextThreadId()` (src/ThreadPool.cpp:31, 116). Insertion under any other id is not modelled.
- AddThread on an id already present: the model keeps the old entry, as `insert` does. The thread that the source starts anyway in that case (line 43) is not modelled.
- `waiting_thread_num_` is modelled as written: it rises at line 55 and falls at line 83. It is not decremented on the Cache self-retire path (lines 72-79 leave before line 83), so no balance invariant is claimed.
- Calling Start twice is not excluded: a second call adds another batch of Core workers, as the source does.
- Resize does not check availability, so an invalid pool still grows Cache workers. The intended behaviour is that a pool with an invalid configuration never creates a thread. The model follows the code, and `PoolScenarios.InvalidPoolStillGrows` shows the difference.
- No property "a Stop worker is no longer registered" is claimed. A worker marked Stop by Resize stays registered until its own thread wakes and erases it.
- test/test.cpp is a driver program with sleeps and endless tasks, and is not modelled.
