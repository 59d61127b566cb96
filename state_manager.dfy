/** The orchestrator's shared registries (orchestrator/state_manager.py): the task table,
    the queue of pending task ids and the worker table. Each Python method runs under one
    lock and is one atomic step here. */
module StateManagement {
  import opened Models
  import Lamport

  /** config.py WORKER_TIMEOUT (5.0 seconds), with time counted in milliseconds. */
  const WORKER_TIMEOUT: int := 5000

  datatype Addr = Addr(host: string, port: int)

  /** The `{'addr': ..., 'last_heartbeat': ...}` record kept per worker. */
  datatype WorkerInfo = WorkerInfo(addr: Addr, lastHeartbeat: int)

  /** The three structures a StateManager holds. */
  datatype Registry = Registry(
    tasks: map<TaskId, Task>,
    pending: seq<TaskId>,
    workers: map<WorkerId, WorkerInfo>)

  /** A state snapshot as the backup receives it. `Undecodable` is UTF-8 text that is not
      JSON, an error the load catches. `Unloadable` is content whose error the load does not
      catch and that it raises before assigning anything: bytes that are not UTF-8, a JSON value
      that is not an object, a "tasks" value that is not an object, or a task record that does
      not fit `Task`. Otherwise it is a document in which each of the three keys may be
      missing (None). */
  datatype Snapshot =
    | Undecodable
    | Unloadable
    | Document(
        tasks: Option<map<TaskId, Task>>,
        pendingTasks: Option<seq<TaskId>>,
        workers: Option<map<WorkerId, WorkerInfo>>)

  /** The document `get_state_snapshot` writes for registry `r`. */
  function Capture(r: Registry): Snapshot {
    Document(Some(r.tasks), Some(r.pending), Some(r.workers))
  }

  /** A document that holds all three keys, the only kind whose load also resets the clock. */
  predicate Complete(doc: Snapshot) {
    doc.Document? && doc.tasks.Some? && doc.pendingTasks.Some? && doc.workers.Some?
  }

  /** The registry after `load_state_snapshot(doc)` on `current`. The three fields are assigned
      one after the other, and a missing key stops the load at that point: what was already
      assigned stays assigned. Content that raises does so before the first assignment. */
  function Restore(doc: Snapshot, current: Registry): Registry {
    if doc.Undecodable? || doc.Unloadable? || doc.tasks.None? then current
    else if doc.pendingTasks.None? then current.(tasks := doc.tasks.value)
    else if doc.workers.None? then current.(tasks := doc.tasks.value, pending := doc.pendingTasks.value)
    else Registry(doc.tasks.value, doc.pendingTasks.value, doc.workers.value)
  }

  /** Restoring what get_state_snapshot captured reproduces the registry, whatever the backup held before. */
  lemma RestoreCaptured(r: Registry, current: Registry)
    ensures Complete(Capture(r))
    ensures Restore(Capture(r), current) == r
  {
  }

  /** Loading the same snapshot twice leaves what loading it once left. */
  lemma RestoreIdempotent(doc: Snapshot, current: Registry)
    ensures Restore(doc, Restore(doc, current)) == Restore(doc, current)
  {
  }

  /** A document without "pending_tasks" replaces the task table but keeps the old queue and workers. */
  lemma RestoreWithoutPendingIsTorn(t: map<TaskId, Task>, w: Option<map<WorkerId, WorkerInfo>>, current: Registry)
    ensures Restore(Document(Some(t), None, w), current) == Registry(t, current.pending, current.workers)
  {
  }

  /** A worker is dead once its last heartbeat is more than WORKER_TIMEOUT old. */
  predicate IsStale(info: WorkerInfo, now: int) {
    now - info.lastHeartbeat > WORKER_TIMEOUT
  }

  function DeadWorkers(workers: map<WorkerId, WorkerInfo>, now: int): set<WorkerId> {
    set w | w in workers && IsStale(workers[w], now)
  }

  /** The task is in progress on one of the workers in `dead`. */
  predicate HeldBy(t: Task, dead: set<WorkerId>) {
    t.status == InProgress && t.assignedWorker.Some? && t.assignedWorker.value in dead
  }

  /** A task handed back to the queue: PENDING again, with no worker. */
  function Released(t: Task): Task {
    t.(status := Pending, assignedWorker := None)
  }

  /** The task table after every task held by a worker in `dead` is handed back. */
  function ReleaseOrphans(tasks: map<TaskId, Task>, dead: set<WorkerId>): (r: map<TaskId, Task>)
    ensures r.Keys == tasks.Keys
    ensures forall k :: k in r ==> !HeldBy(r[k], dead)
    ensures forall k :: k in r && !HeldBy(tasks[k], dead) ==> r[k] == tasks[k]
    ensures forall k :: k in tasks && HeldBy(tasks[k], dead) ==> r[k] == Released(tasks[k])
  {
    map k | k in tasks :: if HeldBy(tasks[k], dead) then Released(tasks[k]) else tasks[k]
  }

  function OrphanIds(tasks: map<TaskId, Task>, dead: set<WorkerId>): set<TaskId> {
    set k | k in tasks && HeldBy(tasks[k], dead)
  }

  /** `s` holds exactly the elements of `elems`, each once. */
  ghost predicate ListsEachOnce(s: seq<string>, elems: set<string>) {
    |s| == |elems| && forall x :: x in s <==> x in elems
  }

  /** `m` is the largest Lamport stamp in `tasks`, or 0 when that is larger (no task, or only
      negative stamps): what the max loop of load_state_snapshot computes. */
  ghost predicate IsMaxTs(tasks: map<TaskId, Task>, m: int) {
    && m >= 0
    && (forall k :: k in tasks ==> tasks[k].lamportTs <= m)
    && (m == 0 || exists k :: k in tasks && tasks[k].lamportTs == m)
  }

  /** IsMaxTs names one value. */
  lemma MaxTsUnique(tasks: map<TaskId, Task>, m1: int, m2: int)
    requires IsMaxTs(tasks, m1) && IsMaxTs(tasks, m2)
    ensures m1 == m2
  {
  }

  /** The `max_ts` loop of load_state_snapshot. */
  method MaxLamport(tasks: map<TaskId, Task>) returns (m: int)
    ensures IsMaxTs(tasks, m)
    ensures tasks == map[] ==> m == 0
  {
    m := 0;
    var rest := tasks.Keys;
    while rest != {}
      invariant rest <= tasks.Keys
      invariant m >= 0
      invariant forall k :: k in tasks && k !in rest ==> tasks[k].lamportTs <= m
      invariant m == 0 || exists k :: k in tasks && tasks[k].lamportTs == m
      decreases rest
    {
      var k :| k in rest;
      if tasks[k].lamportTs > m {
        m := tasks[k].lamportTs;
      }
      rest := rest - {k};
    }
  }

  /** Handing back the tasks of one more dead worker `w` composes with having handed back those of `done`. */
  lemma ReleaseOneMore(tasks: map<TaskId, Task>, done: set<WorkerId>, w: WorkerId)
    requires w !in done
    ensures ReleaseOrphans(ReleaseOrphans(tasks, done), {w}) == ReleaseOrphans(tasks, done + {w})
    ensures OrphanIds(ReleaseOrphans(tasks, done), {w}) == OrphanIds(tasks, {w})
    ensures OrphanIds(tasks, done + {w}) == OrphanIds(tasks, {w}) + OrphanIds(tasks, done)
    ensures OrphanIds(tasks, {w}) !! OrphanIds(tasks, done)
  {
    var once := ReleaseOrphans(tasks, done);
    forall k | k in tasks
      ensures ReleaseOrphans(once, {w})[k] == ReleaseOrphans(tasks, done + {w})[k]
    {
      if HeldBy(tasks[k], {w}) {
        assert !HeldBy(tasks[k], done);
      }
    }
  }

  /** Two lists of disjoint sets, concatenated, list the union. */
  lemma ListsConcat(a: seq<string>, sa: set<string>, b: seq<string>, sb: set<string>)
    requires ListsEachOnce(a, sa) && ListsEachOnce(b, sb) && sa !! sb
    ensures ListsEachOnce(a + b, sa + sb)
  {
    assert |sa + sb| == |sa| + |sb|;
  }

  class StateManager {
    var tasks: map<TaskId, Task>
    var pending: seq<TaskId>
    var workers: map<WorkerId, WorkerInfo>

    function State(): Registry
      reads this
    {
      Registry(tasks, pending, workers)
    }

    constructor ()
      ensures tasks == map[] && pending == [] && workers == map[]
    {
      tasks := map[];
      pending := [];
      workers := map[];
    }

    /** Store the task under its id and append the id to the back of the queue. */
    method AddTask(task: Task)
      modifies this
      ensures tasks == old(tasks)[task.id := task]
      ensures pending == old(pending) + [task.id]
      ensures workers == old(workers)
    {
      tasks := tasks[task.id := task];
      pending := pending + [task.id];
    }

    /** Pop the head of the queue; a known task is marked IN_PROGRESS and returned,
        an id with no task is dropped and None returned. */
    method GetNextTask() returns (t: Option<Task>)
      modifies this
      ensures workers == old(workers)
      ensures old(pending) == [] ==> t == None && pending == [] && tasks == old(tasks)
      ensures old(pending) != [] ==>
        && pending == old(pending)[1..]
        && var id := old(pending)[0];
           if id in old(tasks) then
             && t == Some(old(tasks)[id].(status := InProgress))
             && tasks == old(tasks)[id := t.value]
           else
             t == None && tasks == old(tasks)
    {
      if pending == [] {
        return None;
      }
      var id := pending[0];
      pending := pending[1..];
      if id in tasks {
        var task := tasks[id].(status := InProgress);
        tasks := tasks[id := task];
        t := Some(task);
      } else {
        t := None;
      }
    }

    /** Register the worker or refresh its record with its address and the time of this heartbeat. */
    method UpdateWorkerHeartbeat(workerId: WorkerId, addr: Addr, now: int)
      modifies this
      ensures workers == old(workers)[workerId := WorkerInfo(addr, now)]
      ensures tasks == old(tasks) && pending == old(pending)
    {
      workers := workers[workerId := WorkerInfo(addr, now)];
    }

    /** Remove every stale worker; hand each task in progress on one of them back to
        the head of the queue; return the ids of the workers that remain. */
    method CheckDeadWorkers(now: int) returns (alive: seq<WorkerId>)
      modifies this
      ensures workers == old(workers) - DeadWorkers(old(workers), now)
      ensures tasks == ReleaseOrphans(old(tasks), DeadWorkers(old(workers), now))
      ensures |pending| >= |old(pending)|
      ensures pending[|pending| - |old(pending)|..] == old(pending)
      ensures ListsEachOnce(pending[..|pending| - |old(pending)|], OrphanIds(old(tasks), DeadWorkers(old(workers), now)))
      ensures ListsEachOnce(alive, workers.Keys)
      ensures forall w :: w in alive ==> w in workers && !IsStale(workers[w], now)
    {
      var dead := set w | w in workers && IsStale(workers[w], now);
      assert dead == DeadWorkers(workers, now);
      ghost var workers0, pending0 := workers, pending;
      ghost var front := RemoveWorkers(dead);
      assert pending[..|pending| - |pending0|] == front;
      assert pending[|pending| - |pending0|..] == pending0;
      forall w | w in workers
        ensures !IsStale(workers[w], now)
      {
        assert w in workers0 && w !in dead;
      }
      alive := WorkerIds();
    }

    /** The outer loop of check_dead_workers: drop each worker of `dead` and hand back its tasks. */
    method RemoveWorkers(dead: set<WorkerId>) returns (ghost front: seq<TaskId>)
      modifies this
      ensures workers == old(workers) - dead
      ensures tasks == ReleaseOrphans(old(tasks), dead)
      ensures pending == front + old(pending)
      ensures ListsEachOnce(front, OrphanIds(old(tasks), dead))
    {
      ghost var tasks0, pending0, workers0 := tasks, pending, workers;
      front := [];
      ghost var done: set<WorkerId> := {};
      var todo := dead;
      while todo != {}
        invariant todo <= dead && done == dead - todo
        invariant workers == workers0 - done
        invariant tasks == ReleaseOrphans(tasks0, done)
        invariant pending == front + pending0
        invariant ListsEachOnce(front, OrphanIds(tasks0, done))
        decreases todo
      {
        var w :| w in todo;
        workers := workers - {w};
        ghost var before := front;
        ghost var ahead := RequeueTasksOf(w);
        assert pending == ahead + (before + pending0);
        assert pending == (ahead + before) + pending0;
        ReleaseOneMore(tasks0, done, w);
        ListsConcat(ahead, OrphanIds(tasks0, {w}), before, OrphanIds(tasks0, done));
        front := ahead + front;
        done := done + {w};
        todo := todo - {w};
      }
      assert done == dead;
    }

    /** The inner loop of check_dead_workers for dead worker `w`: every task in progress on `w`
        becomes PENDING with no worker and its id goes to the front of the queue. */
    method RequeueTasksOf(w: WorkerId) returns (ghost front: seq<TaskId>)
      modifies this
      ensures tasks == ReleaseOrphans(old(tasks), {w})
      ensures pending == front + old(pending)
      ensures ListsEachOnce(front, OrphanIds(old(tasks), {w}))
      ensures workers == old(workers)
    {
      ghost var tasks0, pending0 := tasks, pending;
      ghost var requeued: set<TaskId> := {};
      front := [];
      var keys := tasks.Keys;
      while keys != {}
        invariant keys <= tasks.Keys && tasks.Keys == tasks0.Keys
        invariant workers == old(workers)
        invariant forall k :: k in tasks ==>
                    tasks[k] == if k !in keys && HeldBy(tasks0[k], {w}) then Released(tasks0[k]) else tasks0[k]
        invariant pending == front + pending0
        invariant forall k :: k in requeued <==> k in tasks0 && k !in keys && HeldBy(tasks0[k], {w})
        invariant ListsEachOnce(front, requeued)
        decreases keys
      {
        var k :| k in keys;
        if tasks[k].assignedWorker == Some(w) && tasks[k].status == InProgress {
          tasks := tasks[k := Released(tasks[k])];
          pending := [k] + pending;
          front := [k] + front;
          requeued := requeued + {k};
        }
        keys := keys - {k};
      }
      assert requeued == OrphanIds(tasks0, {w});
      assert tasks == ReleaseOrphans(tasks0, {w});
    }

    /** `list(self.workers.keys())`. */
    method WorkerIds() returns (ids: seq<WorkerId>)
      ensures ListsEachOnce(ids, workers.Keys)
    {
      ids := [];
      var rest := workers.Keys;
      while rest != {}
        invariant rest <= workers.Keys
        invariant ListsEachOnce(ids, workers.Keys - rest)
        decreases rest
      {
        var w :| w in rest;
        ids := ids + [w];
        rest := rest - {w};
      }
    }
    /** Set status and result of a known task; an unknown id changes nothing. */
    method UpdateTaskStatus(taskId: TaskId, status: Status, result: Value)
      modifies this
      ensures tasks == if taskId in old(tasks)
                       then old(tasks)[taskId := old(tasks)[taskId].(status := status, result := result)]
                       else old(tasks)
      ensures pending == old(pending) && workers == old(workers)
    {
      if taskId in tasks {
        tasks := tasks[taskId := tasks[taskId].(status := status, result := result)];
      }
    }

    /** The task under `taskId`, if there is one. */
    method GetTaskStatus(taskId: TaskId) returns (t: Option<Task>)
      ensures t.Some? <==> taskId in tasks
      ensures t.Some? ==> t.value == tasks[taskId]
    {
      t := if taskId in tasks then Some(tasks[taskId]) else None;
    }

    method GetStateSnapshot() returns (doc: Snapshot)
      ensures doc == Capture(State())
    {
      doc := Document(Some(tasks), Some(pending), Some(workers));
    }

    /** Replace the registries by the snapshot's, field by field, and set the clock to the
        largest task stamp. Text that is not JSON, or a missing key, is caught and ends
        the load where it happened; `raised` says the error escaped to the caller instead. */
    method LoadStateSnapshot(doc: Snapshot, clock: Lamport.LamportClock) returns (raised: bool)
      modifies this, clock
      ensures raised <==> doc.Unloadable?
      ensures State() == Restore(doc, old(State()))
      ensures Complete(doc) ==> IsMaxTs(doc.tasks.value, clock.time)
      ensures !Complete(doc) ==> clock.time == old(clock.time)
    {
      raised := doc.Unloadable?;
      if doc.Undecodable? || doc.Unloadable? || doc.tasks.None? {
        return;
      }
      tasks := doc.tasks.value;
      if doc.pendingTasks.None? {
        return;
      }
      pending := doc.pendingTasks.value;
      if doc.workers.None? {
        return;
      }
      workers := doc.workers.value;
      var maxTs := MaxLamport(tasks);
      clock.SetTime(maxTs);
    }
  }
}
