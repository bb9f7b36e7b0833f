/** Concrete runs of the pool, each a sequence of steps chosen by the caller
    in place of the thread scheduler. Their results follow from the
    contracts of Pool.ThreadPool alone. */
module PoolScenarios {
  import opened PoolTypes
  import opened Pool

  /** What Start leaves in an empty registry with `coreThreads` = 2. */
  lemma TwoCoreWorkers(w: Registry)
    requires AddedFresh(map[], w, 0, 2, Core)
    ensures w == map[0 := NewWorker(Core), 1 := NewWorker(Core)]
  {
    var expected := map[0 := NewWorker(Core), 1 := NewWorker(Core)];
    assert forall k :: k in expected <==> k == 0 || k == 1;
    assert AddedFresh(map[], expected, 0, 2, Core);
    AddedFreshUnique(map[], w, expected, 0, 2, Core);
  }

  /** A pool with configuration (2, 4, 200) right after a successful Start. */
  method StartedPool() returns (pool: ThreadPool, ok: bool)
    ensures fresh(pool) && ok
    ensures pool.Valid() && pool.Settled() && pool.isAvailable
    ensures pool.config == Config(2, 4, 200) && pool.threadId == 2
    ensures pool.workers == map[0 := NewWorker(Core), 1 := NewWorker(Core)]
    ensures pool.tasks == [] && !pool.isShutdown && !pool.isShutdownNow
  {
    pool := new ThreadPool(Config(2, 4, 200));
    ok := pool.Start();
    TwoCoreWorkers(pool.workers);
  }

  /** Two Core workers take queued tasks front first. */
  method CoreWorkersServeInOrder() returns (ok: bool, first: WakeOutcome, second: WakeOutcome)
    ensures ok
    ensures first == Dequeued(10) && second == Dequeued(11)
  {
    var pool;
    pool, ok := StartedPool();
    pool.Enqueue(10);
    pool.Enqueue(11);
    assert pool.tasks == [10, 11];
    var stopped := pool.BeginWait(0);
    first := pool.Wake(0, false);
    assert first.Dequeued? && pool.tasks == [11];
    stopped := pool.BeginWait(1);
    second := pool.Wake(1, false);
  }

  /** A repeated graceful shutdown changes nothing more, and with the queue
      empty a Core worker leaves its loop. */
  method GracefulShutdownEndsWorker() returns (ok: bool, last: WakeOutcome)
    ensures ok
    ensures last == Exited
  {
    var pool;
    pool, ok := StartedPool();
    pool.ShutDown(false);
    pool.ShutDown(false);
    var stopped := pool.BeginWait(0);
    last := pool.Wake(0, false);
  }

  /** The started pool after Resize(3): one Cache worker with the next id. */
  method GrownPool() returns (pool: ThreadPool, ok: bool)
    ensures fresh(pool) && ok
    ensures pool.Valid() && pool.Settled()
    ensures pool.config == Config(2, 4, 200) && pool.threadId == 3
    ensures pool.workers == map[0 := NewWorker(Core), 1 := NewWorker(Core), 2 := NewWorker(Cache)]
    ensures pool.tasks == [] && !pool.isShutdown && !pool.isShutdownNow
  {
    pool, ok := StartedPool();
    ghost var w := pool.workers;
    pool.Resize(3);
    AddedOne(w, pool.workers, 2, Cache);
  }

  /** A Cache worker added by Resize whose wait runs out with nothing to do
      erases its own entry; the Core workers stay. */
  method CacheWorkerTimesOut() returns (ok: bool, out: WakeOutcome, keys: set<int>)
    ensures ok && out == Retired && keys == {0, 1}
  {
    var pool;
    pool, ok := GrownPool();
    var stopped := pool.BeginWait(2);
    out := pool.Wake(2, true);
    keys := pool.workers.Keys;
  }

  /** In the grown pool with its Cache worker waiting, that worker is the
      only one Resize may mark. */
  lemma OnlyCacheMarkable(w: Registry)
    requires w == map[0 := NewWorker(Core), 1 := NewWorker(Core), 2 := Worker(Cache, Waiting, InWait)]
    ensures Markable(w) == {2}
  {
  }

  /** A subset of `{x}` with one element is `{x}`. */
  lemma SingletonSubset(s: set<int>, x: int)
    requires s <= {x} && |s| == 1
    ensures s == {x}
  {
  }

  /** Shrinking to two workers marks the waiting Cache worker Stop; when it
      wakes it erases its own entry, leaving the Core workers. */
  method ShrinkRetiresCacheWorker() returns (ok: bool, out: WakeOutcome, keys: set<int>)
    ensures ok && out == Retired && keys == {0, 1}
  {
    var pool;
    pool, ok := GrownPool();
    var stopped := pool.BeginWait(2);
    ghost var w := pool.workers;
    OnlyCacheMarkable(w);
    pool.Resize(2);
    SingletonSubset(Changed(w, pool.workers), 2);
    assert pool.workers[2].state == Stop;
    out := pool.Wake(2, false);
    keys := pool.workers.Keys;
  }

  /** Invalid configuration: Start refuses, yet Resize, which does not look at
      availability, still adds Cache workers. */
  method InvalidPoolStillGrows() returns (ok: bool, size: int)
    ensures !ok && size == 3
  {
    var pool := new ThreadPool(Config(0, 4, 200));
    ok := pool.Start();
    pool.Resize(3);
    size := |pool.workers|;
  }
}
