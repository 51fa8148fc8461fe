/**
 * The real-time task executor: a thread pool whose bounded work queue drops
 * its oldest pending tasks to make room for a new one, and which is rebuilt
 * on the next submission after it has been shut down.
 *
 * Threads are not modelled: a pending task leaves the queue either when a
 * worker takes it (ThreadPool.Poll, called by the owner of the executor as an
 * explicit step) or when a submission drops it.
 */
module Executor {
  import opened Wrappers

  /** Default size of the pending-task queue. */
  const DEFAULT_MAX_TASK_QUEUE_SIZE: nat := 3
  /** Default number of core threads. */
  const DEFAULT_CORE_POOL_SIZE: nat := 1
  /** Default largest number of threads. */
  const DEFAULT_MAX_POOL_SIZE: nat := 3

  function Max(a: int, b: int): int { if a < b then b else a }

  function Min(a: int, b: int): int { if a < b then a else b }

  /** The last n elements of s, in their order. */
  function Newest<T>(s: seq<T>, n: nat): seq<T>
    requires n <= |s|
  {
    s[|s| - n..]
  }

  /**
   * The queue left by the drop-oldest loop of a submission: tasks are taken
   * from the head until fewer than `capacity` remain, so what is left is the
   * newest min(|q|, capacity - 1) tasks, in their order.
   */
  function DropOldest<T>(q: seq<T>, capacity: nat): (r: seq<T>)
    requires capacity >= 1
    ensures r == Newest(q, Min(|q|, capacity - 1))
    decreases |q|
  {
    if |q| < capacity then
      q
    else
      NewestOfTail(q, capacity - 1);
      DropOldest(q[1..], capacity)
  }

  /**
   * The pending queue after one submission: the drop-oldest loop, then the
   * new task appended at the tail; that is, the newest min(|q| + 1, capacity)
   * of the old tasks followed by the new one.
   */
  function AfterSubmit<T>(q: seq<T>, capacity: nat, task: T): (r: seq<T>)
    requires capacity >= 1
    ensures r == Newest(q + [task], Min(|q| + 1, capacity))
  {
    NewestAppend(q, Min(|q|, capacity - 1), task);
    DropOldest(q, capacity) + [task]
  }

  /**
   * A submission never drops the task it submits, which ends up last; the
   * queue never exceeds its capacity; exactly max(0, |q| - capacity + 1) of
   * the oldest tasks are dropped, and the surviving ones keep their order.
   */
  lemma AfterSubmitKeepsNewTask<T>(q: seq<T>, capacity: nat, task: T)
    requires capacity >= 1
    ensures var r := AfterSubmit(q, capacity, task);
            1 <= |r| <= capacity &&
            |q| + 1 - |r| == Max(0, |q| - capacity + 1) &&
            r[|r| - 1] == task &&
            r[..|r| - 1] == q[|q| + 1 - |r|..]
  {
    var r := AfterSubmit(q, capacity, task);
    assert r == (q + [task])[|q| + 1 - |r|..];
    assert r[..|r| - 1] == (q + [task])[|q| + 1 - |r|..|q|];
  }

  /** The pending queue after the tasks `ts` are submitted one after another. */
  function AfterSubmitAll<T>(q: seq<T>, capacity: nat, ts: seq<T>): seq<T>
    requires capacity >= 1
    decreases |ts|
  {
    if ts == [] then q else AfterSubmitAll(AfterSubmit(q, capacity, ts[0]), capacity, ts[1..])
  }

  /**
   * However many tasks are submitted in a burst, the pending queue then holds
   * exactly the newest min(|q| + |ts|, capacity) of them, oldest first.
   */
  lemma {:induction false} AfterSubmitAllKeepsNewest<T>(q: seq<T>, capacity: nat, ts: seq<T>)
    requires capacity >= 1 && |q| <= capacity
    ensures AfterSubmitAll(q, capacity, ts) == Newest(q + ts, Min(|q| + |ts|, capacity))
    decreases |ts|
  {
    if ts == [] {
      assert q + ts == q;
    } else {
      var a, rest := q + [ts[0]], ts[1..];
      var q' := AfterSubmit(q, capacity, ts[0]);
      var n := Min(|q| + |ts|, capacity);
      AfterSubmitAllKeepsNewest(q', capacity, rest);
      assert Min(|q'| + |rest|, capacity) == n;
      NewestOfNewest(a, |q'|, rest, n);
      HeadThenRest(q, ts);
    }
  }

  /** Submitting the head of a burst and then its rest submits the burst. */
  lemma HeadThenRest<T>(q: seq<T>, ts: seq<T>)
    requires ts != []
    ensures (q + [ts[0]]) + ts[1..] == q + ts
  {
    assert ts == [ts[0]] + ts[1..];
  }

  /** Dropping the head keeps the newest tasks. */
  lemma NewestOfTail<T>(q: seq<T>, n: nat)
    requires n < |q|
    ensures Newest(q[1..], n) == Newest(q, n)
  {
  }

  /** Appending one task to the newest n gives the newest n + 1 of the extended queue. */
  lemma NewestAppend<T>(q: seq<T>, n: nat, task: T)
    requires n <= |q|
    ensures Newest(q, n) + [task] == Newest(q + [task], n + 1)
  {
    assert (q + [task])[|q| - n..] == q[|q| - n..] + [task];
  }

  /** The newest n of (the newest m of a) + b are the newest n of a + b. */
  lemma NewestOfNewest<T>(a: seq<T>, m: nat, b: seq<T>, n: nat)
    requires m <= |a| && n <= m + |b|
    ensures Newest(Newest(a, m) + b, n) == Newest(a + b, n)
  {
    var k := |a| - m;
    var l := a[k..] + b;
    var r := (a + b)[|a| + |b| - n..];
    assert |l[|l| - n..]| == |r|;
    forall i | 0 <= i < n ensures l[|l| - n..][i] == r[i] {
      var j := m + |b| - n + i;
      if j < m {
        assert l[j] == a[k + j];
      } else {
        assert l[j] == b[j - m];
      }
    }
  }

  /**
   * The platform thread pool the executor drives, reduced to its bounded
   * work queue and its run state (shut down, terminating and terminated all
   * imply shut down, so one flag stands for the three).
   */
  class ThreadPool<T> {
    const capacity: nat
    var queue: seq<T>
    var isShutdown: bool

    ghost predicate Valid()
      reads this
    {
      capacity >= 1 && |queue| <= capacity
    }

    /** A fresh pool: live, with an empty queue of the given capacity. */
    constructor (capacity: nat)
      requires capacity >= 1
      ensures Valid()
      ensures this.capacity == capacity && queue == [] && !isShutdown
    {
      this.capacity := capacity;
      queue := [];
      isShutdown := false;
    }

    /** Removes and returns the head of the queue, or nothing if it is empty. */
    method Poll() returns (t: Option<T>)
      requires Valid()
      modifies this
      ensures Valid() && isShutdown == old(isShutdown)
      ensures old(queue) == [] ==> t == None && queue == []
      ensures old(queue) != [] ==> t == Some(old(queue)[0]) && queue == old(queue)[1..]
    {
      if queue == [] {
        t := None;
      } else {
        t := Some(queue[0]);
        queue := queue[1..];
      }
    }

    /** Accepts a task into a live pool whose queue has room. */
    method Execute(task: T)
      requires Valid() && !isShutdown && |queue| < capacity
      modifies this
      ensures Valid() && !isShutdown
      ensures queue == old(queue) + [task]
    {
      queue := queue + [task];
    }

    /**
     * Shuts the pool down and drains its queue; returns the tasks that were
     * pending and never started.
     */
    method ShutdownNow() returns (drained: seq<T>)
      requires Valid()
      modifies this
      ensures Valid() && isShutdown && queue == []
      ensures drained == old(queue)
    {
      drained := queue;
      queue := [];
      isShutdown := true;
    }
  }

  class RealtimeExecutor<T> {
    const maxTaskQueueSize: nat
    const corePoolSize: nat
    const maxPoolSize: nat
    var executor: ThreadPool<T>

    ghost predicate Valid()
      reads this, executor
    {
      executor.Valid() && executor.capacity == maxTaskQueueSize
    }

    /**
     * A new executor with a live, empty pool. The pool's constructor refuses a
     * queue capacity below 1, a largest pool size below 1 and a core size
     * above the largest.
     */
    constructor (maxTaskQueueSize: nat := DEFAULT_MAX_TASK_QUEUE_SIZE,
                 corePoolSize: nat := DEFAULT_CORE_POOL_SIZE,
                 maxPoolSize: nat := DEFAULT_MAX_POOL_SIZE)
      requires maxTaskQueueSize >= 1 && maxPoolSize >= 1 && corePoolSize <= maxPoolSize
      ensures Valid() && fresh(executor)
      ensures this.maxTaskQueueSize == maxTaskQueueSize
      ensures this.corePoolSize == corePoolSize && this.maxPoolSize == maxPoolSize
      ensures executor.queue == [] && !executor.isShutdown
    {
      this.maxTaskQueueSize := maxTaskQueueSize;
      this.corePoolSize := corePoolSize;
      this.maxPoolSize := maxPoolSize;
      executor := new ThreadPool(maxTaskQueueSize);
    }

    /** Replaces a pool that has been shut down by a fresh one; a live pool is kept. */
    method CheckExecutor()
      requires Valid()
      modifies this
      ensures Valid() && !executor.isShutdown
      ensures old(executor.isShutdown) ==> fresh(executor) && executor.queue == []
      ensures !old(executor.isShutdown) ==> executor == old(executor)
    {
      if executor.isShutdown {
        executor := new ThreadPool(maxTaskQueueSize);
      }
    }

    /**
     * Submits a task: after rebuilding a shut-down pool, drops pending tasks
     * from the head until there is a free slot, then enqueues the task.
     */
    method Submit(task: T)
      requires Valid()
      modifies this, executor
      ensures Valid() && !executor.isShutdown
      ensures old(executor.isShutdown) ==> fresh(executor)
      ensures !old(executor.isShutdown) ==> executor == old(executor)
      ensures executor.queue ==
        AfterSubmit(if old(executor.isShutdown) then [] else old(executor.queue), maxTaskQueueSize, task)
    {
      CheckExecutor();
      ghost var pool, before := executor, executor.queue;
      while |executor.queue| >= maxTaskQueueSize
        invariant Valid() && !executor.isShutdown && executor == pool
        invariant DropOldest(executor.queue, maxTaskQueueSize) == DropOldest(before, maxTaskQueueSize)
        decreases |executor.queue|
      {
        var _ := executor.Poll();
      }
      executor.Execute(task);
    }

    /** Shuts the current pool down, discarding its pending tasks. */
    method ShutdownNow()
      requires Valid()
      modifies executor
      ensures Valid() && executor.isShutdown && executor.queue == []
    {
      var _ := executor.ShutdownNow();
    }
  }
}
