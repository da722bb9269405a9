/**
 * AsyncExec: the worker threads that run record callbacks away from the
 * record scan threads, fed by one FIFO task queue.  The model is
 * sequential: the mutex, the event and the atomic flag only matter between
 * threads, and the timed wait in dequeue is a no-op after which the queue
 * may still be empty.  A worker's loop is run for a given number of rounds.
 */
module AsyncExec {
  import opened CText

  /** A std::function<void()>: empty, or a callable task (told apart by an id). */
  datatype Callback = Empty | Task(id: nat)

  function Min(a: nat, b: nat): nat { if a < b then a else b }

  /** TaskQueue<Callback>: the std::list of pending tasks. */
  class TaskQueue {
    var que: seq<Callback>
    /** Every task ever enqueued, and every task handed out, in order. */
    ghost var enqueued: seq<Callback>
    ghost var dequeued: seq<Callback>

    ghost predicate Valid()
      reads this
    {
      enqueued == dequeued + que
    }

    constructor ()
      ensures Valid() && que == [] && enqueued == [] && dequeued == []
    {
      que, enqueued, dequeued := [], [], [];
    }

    /** enqueue: the task goes to the back of the queue. */
    method Enqueue(task: Callback)
      requires Valid()
      modifies this
      ensures Valid()
      ensures que == old(que) + [task]
      ensures enqueued == old(enqueued) + [task] && dequeued == old(dequeued)
    {
      que := que + [task];
      enqueued := enqueued + [task];
    }

    /**
     * dequeue: if the queue is (still) empty, nothing is found and the task
     * is left as it was; otherwise the front task is handed out and removed.
     */
    method Dequeue(task: Callback) returns (found: bool, taskOut: Callback)
      requires Valid()
      modifies this
      ensures Valid() && enqueued == old(enqueued)
      ensures found <==> old(que) != []
      ensures found ==> taskOut == old(que)[0] && que == old(que)[1..] && dequeued == old(dequeued) + [taskOut]
      ensures !found ==> taskOut == task && que == old(que) && dequeued == old(dequeued)
    {
      found, taskOut := false, task;
      if que != [] {
        taskOut := que[0];
        dequeued := dequeued + [que[0]];
        que := que[1..];
        found := true;
      }
    }
  }

  /** Tasks leave the queue in the order they entered it. */
  lemma DequeuedInOrder(q: TaskQueue)
    requires q.Valid()
    ensures |q.dequeued| <= |q.enqueued| && q.dequeued == q.enqueued[..|q.dequeued|]
    ensures q.que == q.enqueued[|q.dequeued|..]
  {
  }

  /** A worker thread: a name and the flag its loop checks. */
  class WorkerThread {
    const id: string
    var running: bool

    constructor (id: string)
      ensures this.id == id && running
    {
      this.id := id;
      running := true;
    }

    /** stop: the loop ends after its current round. */
    method Stop()
      modifies this
      ensures !running
    {
      running := false;
    }

    /**
     * run: while running, take a task from the queue and call it.  `rounds`
     * rounds of the loop are run; the tasks called are returned in order.
     * A round that finds the queue empty calls nothing.
     */
    method Run(tasks: TaskQueue, rounds: nat) returns (called: seq<Callback>)
      requires tasks.Valid()
      modifies tasks
      ensures tasks.Valid() && tasks.enqueued == old(tasks.enqueued)
      ensures !running ==> called == [] && tasks.que == old(tasks.que)
      ensures running ==> called == old(tasks.que)[..Min(rounds, |old(tasks.que)|)]
      ensures tasks.que == old(tasks.que)[|called|..]
      ensures tasks.dequeued == old(tasks.dequeued) + called
    {
      called := [];
      var round := 0;
      while running && round < rounds
        invariant tasks.Valid() && tasks.enqueued == old(tasks.enqueued)
        invariant round <= rounds && (!running ==> round == 0)
        invariant called == old(tasks.que)[..Min(round, |old(tasks.que)|)]
        invariant tasks.que == old(tasks.que)[|called|..]
        invariant tasks.dequeued == old(tasks.dequeued) + called
      {
        var found, cb := tasks.Dequeue(Empty);
        if found {
          called := called + [cb];
        }
        round := round + 1;
      }
    }
  }

  /**
   * Running workers whose names count down from PyDeviceExec_<top-1>: the
   * first is PyDeviceExec_<top-1>, the next PyDeviceExec_<top-2>, and so on.
   */
  ghost predicate NamedDownFrom(ws: seq<WorkerThread>, top: nat)
    reads set w | w in ws
  {
    |ws| <= top &&
    forall j :: 0 <= j < |ws| ==> ws[j].running && ws[j].id == "PyDeviceExec_" + NatToString(top - 1 - j)
  }

  /** The module's statics: the worker list g_workers and the task queue g_tasks. */
  class Scheduler {
    var workers: seq<WorkerThread>
    const tasks: TaskQueue

    ghost predicate Valid()
      reads this, tasks
    {
      tasks.Valid()
    }

    constructor ()
      ensures Valid() && workers == [] && tasks.que == [] && fresh(tasks)
    {
      workers := [];
      tasks := new TaskQueue();
    }

    /**
     * init: numThreads new running workers, named PyDeviceExec_<numThreads-1>
     * down to PyDeviceExec_0, appended to the list.
     */
    method Init(numThreads: nat)
      requires Valid()
      modifies this
      ensures Valid() && tasks.que == old(tasks.que)
      ensures |workers| == |old(workers)| + numThreads && workers[..|old(workers)|] == old(workers)
      ensures forall w :: w in workers[|old(workers)|..] ==> fresh(w)
      ensures NamedDownFrom(workers[|old(workers)|..], numThreads)
    {
      var n := numThreads;
      while n > 0
        invariant n <= numThreads
        invariant |workers| == |old(workers)| + (numThreads - n) && workers[..|old(workers)|] == old(workers)
        invariant forall w :: w in workers[|old(workers)|..] ==> fresh(w)
        invariant NamedDownFrom(workers[|old(workers)|..], numThreads)
      {
        n := n - 1;
        var worker := new WorkerThread("PyDeviceExec_" + NatToString(n));
        ghost var added := workers[|old(workers)|..];
        workers := workers + [worker];
        assert workers[|old(workers)|..] == added + [worker];
      }
    }

    /** shutdown: every worker is told to stop, then the list is cleared. */
    method Shutdown()
      requires Valid()
      modifies this, set w | w in workers
      ensures Valid() && tasks.que == old(tasks.que)
      ensures workers == []
      ensures forall w :: w in old(workers) ==> !w.running
    {
      var i := 0;
      while i < |workers|
        invariant i <= |workers| && workers == old(workers)
        invariant forall k :: 0 <= k < i ==> !workers[k].running
      {
        workers[i].Stop();
        i := i + 1;
      }
      workers := [];
    }

    /** schedule: refused when there is no worker or the callback is empty; otherwise queued. */
    method Schedule(callback: Callback) returns (ok: bool)
      requires Valid()
      modifies tasks
      ensures Valid() && tasks.dequeued == old(tasks.dequeued)
      ensures ok == (workers != [] && callback != Empty)
      ensures tasks.que == if ok then old(tasks.que) + [callback] else old(tasks.que)
    {
      if workers == [] || callback == Empty {
        return false;
      }
      tasks.Enqueue(callback);
      return true;
    }
  }

  /**
   * A scheduler started with n workers accepts a task exactly when n > 0 and
   * the task is not empty, and refuses every task once it is shut down.
   */
  method ScheduleAcrossShutdown(n: nat, cb: Callback) returns (before: bool, after: bool)
    ensures before == (n > 0 && cb != Empty)
    ensures !after
  {
    var s := new Scheduler();
    s.Init(n);
    assert s.workers[0..] == s.workers;
    before := s.Schedule(cb);
    s.Shutdown();
    after := s.Schedule(cb);
  }

  /** Tasks scheduled one after another are called by a worker in the same order. */
  method ScheduledTasksRunInOrder(ids: seq<nat>) returns (called: seq<Callback>)
    ensures |called| == |ids| && forall i :: 0 <= i < |ids| ==> called[i] == Task(ids[i])
  {
    var s := new Scheduler();
    s.Init(1);
    var i := 0;
    while i < |ids|
      invariant i <= |ids| && s.Valid() && |s.workers| == 1 && s.workers[0].running
      invariant |s.tasks.que| == i && forall k :: 0 <= k < i ==> s.tasks.que[k] == Task(ids[k])
    {
      var ok := s.Schedule(Task(ids[i]));
      i := i + 1;
    }
    called := s.workers[0].Run(s.tasks, |ids|);
  }
}
