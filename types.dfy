/** Values of the thread pool: its configuration, the worker records kept in
    the registry, the outcomes of one wake-up of a worker's loop, and the
    registry updates Start and Resize make. Everything here is pure; the state
    that changes lives in Pool.ThreadPool. */
module PoolTypes {

  /** ThreadPoolConfig: `time_out` keeps only its integer count. */
  datatype Config = Config(coreThreads: int, maxThreads: int, timeOut: int)

  /** ThreadFlag: Core workers are created by Start, Cache workers by Resize. */
  datatype ThreadFlag = Core | Cache

  /** ThreadState. `Init` is the state a freshly made ThreadWrapper carries
      before its thread first stores Waiting; it is none of the states the
      pool itself stores. */
  datatype ThreadState = Init | Waiting | Running | Stop

  /** Where a worker's thread is in `work_thread`: at the top of the loop
      (just started, or back from executing a task), blocked in the wait on
      the task condition variable, or gone (left the loop without erasing
      its registry entry). It stands for the thread handle a worker owns. */
  datatype ThreadPos = AtTop | InWait | Done

  /** A registry entry (ThreadWrapper without its id, which is the map key). */
  datatype Worker = Worker(flag: ThreadFlag, state: ThreadState, pos: ThreadPos)

  /** Tasks are opaque closures; the model only keeps an identity for each. */
  type TaskId = int

  /** What one wake-up of a worker's loop did. */
  datatype WakeOutcome =
    | StillWaiting           // wake predicate false: the wait goes on
    | Exited                 // left the loop because of a shutdown flag
    | Retired                // Cache worker that stopped and erased its own entry
    | Dequeued(task: TaskId) // took the front task and became Running

  type Registry = map<int, Worker>

  /** The record AddThread puts into the registry. */
  function NewWorker(flag: ThreadFlag): (w: Worker)
  {
    Worker(flag, Init, AtTop)
  }

  function Min(a: int, b: int): (m: int)
  {
    if a <= b then a else b
  }

  // ---------------------------------------------------------------------
  // Registry invariants

  /** Every registered id was handed out by a counter now at `next`. */
  ghost predicate IdsBelow(w: Registry, next: int)
  {
    forall k :: k in w ==> 0 <= k < next
  }

  /** No Core worker is marked Stop. */
  ghost predicate CoreNeverStopped(w: Registry)
  {
    forall k :: k in w && w[k].flag == Core ==> w[k].state != Stop
  }

  /** Each worker's state agrees with where its thread is: Init or Running
      exactly while the thread is at the top of its loop (about to start it,
      or back from executing a task); Waiting or Stop while it is blocked in
      the wait or after it has left the loop. */
  ghost predicate StatesMatchThreads(w: Registry)
  {
    forall k :: k in w ==> (w[k].pos == AtTop <==> w[k].state == Init || w[k].state == Running)
  }

  // ---------------------------------------------------------------------
  // Growing the registry: consecutive fresh ids

  /** `after` is `before` plus one new `flag` worker under each id from
      `from` up to (not including) `upto`: what consecutive calls
      AddThread(GetNextThreadId(), flag) do while the counter moves from
      `from` to `upto`. */
  ghost predicate AddedFresh(before: Registry, after: Registry, from: int, upto: int, flag: ThreadFlag)
  {
    && (forall k :: k in after <==> k in before || from <= k < upto)
    && (forall k :: k in before ==> after[k] == before[k])
    && (forall k :: k in after && k !in before ==> after[k] == NewWorker(flag))
  }

  /** Adding workers under fresh ids `from`..`upto - 1` keeps the registry
      invariants with the counter moved to `upto`. */
  lemma AddedFreshEffect(before: Registry, after: Registry, from: int, upto: int, flag: ThreadFlag)
    requires 0 <= from <= upto && IdsBelow(before, from)
    requires AddedFresh(before, after, from, upto, flag)
    ensures IdsBelow(after, upto)
    ensures CoreNeverStopped(before) ==> CoreNeverStopped(after)
    ensures StatesMatchThreads(before) ==> StatesMatchThreads(after)
  {
  }

  /** The registry a run of fresh insertions produces is determined by the
      registry before it, the ids handed out and the flag. */
  lemma AddedFreshUnique(before: Registry, a: Registry, b: Registry, from: int, upto: int, flag: ThreadFlag)
    requires AddedFresh(before, a, from, upto, flag) && AddedFresh(before, b, from, upto, flag)
    ensures a == b
  {
    forall k
      ensures k in a <==> k in b
    {
      assert k in a <==> k in before || from <= k < upto;
    }
    assert a.Keys == b.Keys;
    forall k | k in a
      ensures a[k] == b[k]
    {
      if k in before {
        assert a[k] == before[k];
      }
    }
  }

  /** A single fresh insertion is an ordinary map update. */
  lemma AddedOne(before: Registry, after: Registry, id: int, flag: ThreadFlag)
    requires IdsBelow(before, id)
    requires AddedFresh(before, after, id, id + 1, flag)
    ensures after == before[id := NewWorker(flag)]
  {
    var expected := before[id := NewWorker(flag)];
    assert AddedFresh(before, expected, id, id + 1, flag);
    AddedFreshUnique(before, after, expected, id, id + 1, flag);
  }

  // ---------------------------------------------------------------------
  // Shrinking the registry: marking Waiting Cache workers Stop

  /** Registry entries Resize may mark Stop: Cache workers that are Waiting. */
  ghost function Markable(w: Registry): (ks: set<int>)
  {
    set k | k in w && w[k].flag == Cache && w[k].state == Waiting
  }

  /** Keys present in both registries whose entries differ. */
  ghost function Changed(before: Registry, after: Registry): (ks: set<int>)
  {
    set k | k in before && k in after && before[k] != after[k]
  }

  /** The registry with the entries in `marked` set to Stop. */
  ghost function MarkStop(w: Registry, marked: set<int>): (r: Registry)
  {
    map k | k in w :: if k in marked then w[k].(state := Stop) else w[k]
  }

  /** Marking one more entry: the next step of Resize's scan. */
  lemma MarkStopOne(w: Registry, marked: set<int>, k: int)
    requires k in w
    ensures MarkStop(w, marked)[k := w[k].(state := Stop)] == MarkStop(w, marked + {k})
  {
  }

  /** Marking Waiting Cache entries changes exactly those entries, removes no
      key, and keeps the registry invariants. */
  lemma MarkStopEffect(w: Registry, marked: set<int>, next: int)
    requires marked <= Markable(w)
    ensures MarkStop(w, marked).Keys == w.Keys
    ensures Changed(w, MarkStop(w, marked)) == marked
    ensures IdsBelow(w, next) ==> IdsBelow(MarkStop(w, marked), next)
    ensures CoreNeverStopped(w) ==> CoreNeverStopped(MarkStop(w, marked))
    ensures StatesMatchThreads(w) ==> StatesMatchThreads(MarkStop(w, marked))
  {
  }

  /** The count Resize achieves when shrinking: it marks a subset of the
      markable entries and stops either when the deficit is used up or when
      every markable entry has been marked. */
  lemma MarkedCount(marked: set<int>, markable: set<int>, deficit: int, left: int)
    requires marked <= markable
    requires 0 <= left && |marked| + left == deficit
    requires left == 0 || markable <= marked
    ensures |marked| == Min(deficit, |markable|)
  {
    if left == 0 {
      SubsetSize(marked, markable);
    } else {
      assert marked == markable;
    }
  }

  lemma SubsetSize(a: set<int>, b: set<int>)
    requires a <= b
    ensures |a| <= |b|
  {
    assert b == a + (b - a);
  }
}
