/** The orchestrator process (orchestrator/main.py): client requests, worker messages,
    the worker monitor, the task distributor and the backup's failover loop. Each thread's
    loop body is one method here; sockets deliver their input as a parameter. */
module Orchestration {
  import opened Models
  import opened Lamport
  import opened StrOrder
  import opened LoadBalancer
  import opened StateManagement
  import opened Auth

  /** config.py PRIMARY_TIMEOUT (5.0 seconds), in milliseconds. */
  const PRIMARY_TIMEOUT: int := 5000

  datatype Role = Primary | Backup

  /** What a client connection delivers: nothing, bytes that are not JSON, or a JSON object. */
  datatype Incoming =
    | Empty
    | NotJson
    | Request(fields: map<string, Value>)

  datatype ClientError =
    | AuthenticationRequired   // "Autenticação necessária"
    | InvalidToken             // "Token inválido ou expirado"
    | InvalidCredentials       // "Credenciais inválidas"
    | TaskNotFound             // "Tarefa não encontrada"

  /** What the orchestrator writes back on a client connection. NoReply: the connection is
      closed without an answer (nothing to answer, or the handler thread raised). */
  datatype Reply =
    | NoReply
    | Failure(error: ClientError)
    | TokenGranted(token: string)
    | TaskAccepted(taskId: TaskId)
    | TaskDetails(task: Task)

  /** How a connection to the chosen worker's task port goes. */
  datatype Delivery = Delivered | Refused

  /** What one pass of the distributor loop did. */
  datatype Dispatch =
    | QueueEmpty
    | NoTask(taskId: TaskId)   // the popped id names no task
    | NoWorker
    | Requeued(worker: WorkerId)
    | Dispatched(worker: WorkerId)

  /** A UDP datagram from a worker, by its "type". */
  datatype WorkerMessage =
    | Heartbeat(workerId: WorkerId)
    | TaskComplete(taskId: Value, result: Value)
    | OtherType

  /** What one wait on the multicast socket yields on the backup. */
  datatype SyncMessage =
    | StateSync(doc: Snapshot)   // first byte 0x01
    | PrimaryAlive               // first byte 0x02
    | OtherKind
    | ReceiveTimeout

  /** `request.get(key)`. */
  function Get(fields: map<string, Value>, key: string): (v: Value)
    ensures key in fields ==> v == fields[key]
    ensures key !in fields ==> v == Null
  {
    if key in fields then fields[key] else Null
  }

  /** `request.get("data", {})`. */
  function DataOf(fields: map<string, Value>): (v: Value)
    ensures "data" in fields ==> v == fields["data"]
    ensures "data" !in fields ==> v == Obj(map[])
  {
    if "data" in fields then fields["data"] else Obj(map[])
  }

  /** The reply handle_login writes for a login decision. */
  function LoginReply(o: LoginOutcome): (r: Reply)
    ensures r.TokenGranted? <==> o.TokenIssued?
    ensures r.TokenGranted? ==> r.token == o.token
    ensures r == NoReply <==> o.Unhashable?
    ensures o.BadCredentials? ==> r == Failure(InvalidCredentials)
  {
    match o
    case TokenIssued(tok) => TokenGranted(tok)
    case BadCredentials => Failure(InvalidCredentials)
    case Unhashable => NoReply
  }

  /** The reply handle_task_status writes for `task_id` value `id` over the task table. */
  function StatusReply(id: Value, tasks: map<TaskId, Task>): (r: Reply)
    ensures r.TaskDetails? <==> id.Str? && id.s in tasks
    ensures r.TaskDetails? ==> r.task == tasks[id.s]
    ensures r == NoReply <==> !Hashable(id)
    ensures Hashable(id) && !r.TaskDetails? ==> r == Failure(TaskNotFound)
  {
    if !Hashable(id) then NoReply
    else if id.Str? && id.s in tasks then TaskDetails(tasks[id.s])
    else Failure(TaskNotFound)
  }

  /** The request carries a token verify_token accepts. */
  ghost predicate Authenticated(digest: string -> string, fields: map<string, Value>) {
    "token" in fields && IsValidToken(digest, fields["token"])
  }

  /** The task handle_submit_task builds. */
  function Submitted(id: TaskId, owner: string, fields: map<string, Value>, ts: int): (t: Task)
    ensures t.id == id && t.clientId == owner && t.lamportTs == ts
    ensures t.status == Pending && t.assignedWorker == None && t.result == Null
    ensures t.data == DataOf(fields)
  {
    NewTask(id, owner).(data := DataOf(fields), lamportTs := ts)
  }

  /** Every task is stored under its own id, as add_task stores it. */
  ghost predicate KeyedById(tasks: map<TaskId, Task>) {
    forall k :: k in tasks ==> tasks[k].id == k
  }

  /** The task table a snapshot carries, if any, has every task under its own id. */
  ghost predicate SnapshotKeyedById(doc: Snapshot) {
    doc.Document? && doc.tasks.Some? ==> KeyedById(doc.tasks.value)
  }

  /** A snapshot taken of a table keyed by id carries a table keyed by id. */
  lemma CaptureKeyedById(r: Registry)
    requires KeyedById(r.tasks)
    ensures SnapshotKeyedById(Capture(r))
  {
  }

  /** Handing orphaned tasks back keeps every task under its own id. */
  lemma ReleaseKeepsKeys(tasks: map<TaskId, Task>, dead: set<WorkerId>)
    requires KeyedById(tasks)
    ensures KeyedById(ReleaseOrphans(tasks, dead))
  {
    forall k | k in ReleaseOrphans(tasks, dead)
      ensures ReleaseOrphans(tasks, dead)[k].id == k
    {
      if HeldBy(tasks[k], dead) {
        assert ReleaseOrphans(tasks, dead)[k] == Released(tasks[k]);
      }
    }
  }

  /** A worker list sorted from the live ids lists each live worker exactly once. */
  lemma SortedListsEachOnce(ws: seq<WorkerId>, alive: seq<WorkerId>, keys: set<WorkerId>)
    requires multiset(ws) == multiset(alive) && ListsEachOnce(alive, keys)
    ensures ListsEachOnce(ws, keys)
  {
    assert |ws| == |alive| by { assert |multiset(ws)| == |multiset(alive)|; }
    forall x
      ensures x in ws <==> x in alive
    {
      assert x in ws <==> x in multiset(ws);
      assert x in alive <==> x in multiset(alive);
    }
  }

  class Orchestrator {
    const sm: StateManager
    const clock: LamportClock
    const lb: RoundRobinLoadBalancer
    /** hashlib.sha256(...).hexdigest() on a string. */
    const digest: string -> string
    var role: Role
    var lastPrimaryHeartbeat: int
    /** The backup's sync listener is still running: an error it does not catch ends it. */
    var listening: bool

    /** Every task is stored under its own id, and the balancer's cursor is in range. */
    ghost predicate Valid()
      reads sm, lb
    {
      KeyedById(sm.tasks) && lb.Valid()
    }

    /** A new orchestrator with empty registries, a zero clock and an empty balancer. */
    constructor (isBackup: bool, now: int, digest: string -> string)
      ensures role == if isBackup then Backup else Primary
      ensures lastPrimaryHeartbeat == now && this.digest == digest
      ensures listening == isBackup
      ensures fresh(sm) && fresh(clock) && fresh(lb)
      ensures sm.tasks == map[] && sm.pending == [] && sm.workers == map[]
      ensures clock.time == 0
      ensures lb.workers == [] && lb.currentIndex == 0
      ensures Valid()
    {
      sm := new StateManager();
      clock := new LamportClock();
      lb := new RoundRobinLoadBalancer();
      this.digest := digest;
      lastPrimaryHeartbeat := now;
      role := if isBackup then Backup else Primary;
      listening := isBackup;
    }

    /** Take the primary role (the service threads it starts are not modelled). */
    method StartPrimaryServices()
      modifies this
      ensures role == Primary
      ensures lastPrimaryHeartbeat == old(lastPrimaryHeartbeat) && listening == old(listening)
    {
      role := Primary;
    }

    /** A backup that stopped hearing the primary takes over. */
    method PromoteToPrimary()
      modifies this
      ensures role == Primary
      ensures lastPrimaryHeartbeat == old(lastPrimaryHeartbeat) && listening == old(listening)
    {
      role := Primary;
      StartPrimaryServices();
    }

    /** Answer a login request: a token exactly when the table gives the password asked for. */
    method HandleLogin(fields: map<string, Value>) returns (reply: Reply)
      ensures reply == LoginReply(Login(digest, Get(fields, "username"), Get(fields, "password")))
      ensures reply.TokenGranted? <==>
              Hashable(Get(fields, "username")) && UsersGet(Get(fields, "username")) == Get(fields, "password")
      ensures reply.TokenGranted? ==> reply.token == digest(PyStr(Get(fields, "username")) + SECRET_KEY)
    {
      var username := Get(fields, "username");
      var password := Get(fields, "password");
      reply := LoginReply(Login(digest, username, password));
    }

    /** Create a PENDING task for the token's owner, stamped with the next clock value, and queue it. */
    method HandleSubmitTask(fields: map<string, Value>, freshId: TaskId) returns (reply: Reply)
      requires "token" in fields
      requires Valid()
      modifies sm, clock
      ensures Valid()
      ensures clock.time == old(clock.time) + 1
      ensures sm.tasks == old(sm.tasks)[freshId := Submitted(freshId, FirstOwner(digest, fields["token"], USER_NAMES), fields, clock.time)]
      ensures sm.pending == old(sm.pending) + [freshId]
      ensures sm.workers == old(sm.workers)
      ensures IsValidToken(digest, fields["token"]) ==> sm.tasks[freshId].clientId in USERS
      ensures reply == TaskAccepted(freshId)
    {
      var owner := GetUserFromToken(digest, fields["token"]);
      var ts := clock.Increment();
      var task := Submitted(freshId, owner, fields, ts);
      sm.AddTask(task);
      reply := TaskAccepted(task.id);
    }

    /** Look up the task named by "task_id". */
    method HandleTaskStatus(fields: map<string, Value>) returns (reply: Reply)
      ensures reply == StatusReply(Get(fields, "task_id"), sm.tasks)
    {
      var id := Get(fields, "task_id");
      if !Hashable(id) {
        return NoReply;
      }
      if id.Str? {
        var t := sm.GetTaskStatus(id.s);
        reply := if t.Some? then TaskDetails(t.value) else Failure(TaskNotFound);
      } else {
        reply := Failure(TaskNotFound);
      }
    }

    /** handle_client: a request without a token may only log in; a request with a token is
        served only when the token verifies; then "submit_task" and "task_status" are routed
        and any other action gets no answer. */
    method HandleClient(msg: Incoming, freshId: TaskId) returns (reply: Reply)
      requires Valid()
      modifies sm, clock
      ensures Valid()
      ensures !msg.Request? ==> reply == NoReply
      ensures msg.Request? && "token" !in msg.fields ==>
                reply == if Get(msg.fields, "action") == Str("login")
                         then LoginReply(Login(digest, Get(msg.fields, "username"), Get(msg.fields, "password")))
                         else Failure(AuthenticationRequired)
      ensures msg.Request? && "token" in msg.fields && !IsValidToken(digest, msg.fields["token"]) ==>
                reply == Failure(InvalidToken)
      ensures msg.Request? && Authenticated(digest, msg.fields) && Get(msg.fields, "action") == Str("submit_task") ==>
                && reply == TaskAccepted(freshId)
                && clock.time == old(clock.time) + 1
                && sm.tasks == old(sm.tasks)[freshId := Submitted(freshId, FirstOwner(digest, msg.fields["token"], USER_NAMES), msg.fields, clock.time)]
                && sm.tasks[freshId].clientId in USERS
                && sm.pending == old(sm.pending) + [freshId]
                && sm.workers == old(sm.workers)
      ensures msg.Request? && Authenticated(digest, msg.fields) && Get(msg.fields, "action") == Str("task_status") ==>
                reply == StatusReply(Get(msg.fields, "task_id"), old(sm.tasks))
      ensures msg.Request? && Authenticated(digest, msg.fields) &&
              Get(msg.fields, "action") != Str("submit_task") && Get(msg.fields, "action") != Str("task_status") ==>
                reply == NoReply
      ensures !(msg.Request? && Authenticated(digest, msg.fields) && Get(msg.fields, "action") == Str("submit_task")) ==>
                sm.State() == old(sm.State()) && clock.time == old(clock.time)
    {
      if !msg.Request? {
        return NoReply;
      }
      var fields := msg.fields;
      if "token" !in fields {
        if Get(fields, "action") == Str("login") {
          reply := HandleLogin(fields);
        } else {
          reply := Failure(AuthenticationRequired);
        }
        return;
      }
      var ok := VerifyToken(digest, fields["token"]);
      if !ok {
        return Failure(InvalidToken);
      }
      var action := Get(fields, "action");
      if action == Str("submit_task") {
        reply := HandleSubmitTask(fields, freshId);
      } else if action == Str("task_status") {
        reply := HandleTaskStatus(fields);
      } else {
        reply := NoReply;
      }
    }

    /** One datagram on the worker port: a heartbeat registers or refreshes the sender at `addr`,
        a completion marks a known task COMPLETED with its result. */
    method HandleWorkerMessage(msg: WorkerMessage, addr: Addr, now: int)
      requires Valid()
      modifies sm
      ensures Valid()
      ensures msg.Heartbeat? ==>
                sm.workers == old(sm.workers)[msg.workerId := WorkerInfo(addr, now)] &&
                sm.tasks == old(sm.tasks) && sm.pending == old(sm.pending)
      ensures msg.TaskComplete? && msg.taskId.Str? && msg.taskId.s in old(sm.tasks) ==>
                var id := msg.taskId.s;
                sm.tasks == old(sm.tasks)[id := old(sm.tasks)[id].(status := Completed, result := msg.result)]
      ensures !msg.Heartbeat? ==> sm.workers == old(sm.workers) && sm.pending == old(sm.pending)
      ensures !msg.Heartbeat? && !(msg.TaskComplete? && msg.taskId.Str? && msg.taskId.s in old(sm.tasks)) ==>
                sm.tasks == old(sm.tasks)
    {
      match msg
      case Heartbeat(w) =>
        sm.UpdateWorkerHeartbeat(w, addr, now);
      case TaskComplete(id, result) =>
        if id.Str? {
          sm.UpdateTaskStatus(id.s, Completed, result);
        }
      case OtherType =>
    }

    /** One pass of the worker monitor: drop the stale workers, hand their tasks back, and
        give the balancer the sorted list of the workers left. */
    method MonitorWorkers(now: int)
      requires Valid()
      modifies sm, lb
      ensures Valid()
      ensures sm.workers == old(sm.workers) - DeadWorkers(old(sm.workers), now)
      ensures sm.tasks == ReleaseOrphans(old(sm.tasks), DeadWorkers(old(sm.workers), now))
      ensures |sm.pending| >= |old(sm.pending)|
      ensures sm.pending[|sm.pending| - |old(sm.pending)|..] == old(sm.pending)
      ensures ListsEachOnce(sm.pending[..|sm.pending| - |old(sm.pending)|],
                            OrphanIds(old(sm.tasks), DeadWorkers(old(sm.workers), now)))
      ensures Sorted(lb.workers) && ListsEachOnce(lb.workers, sm.workers.Keys)
      ensures forall w :: w in lb.workers ==> w in sm.workers && !IsStale(sm.workers[w], now)
      ensures lb.currentIndex == if old(lb.currentIndex) >= |lb.workers| then 0 else old(lb.currentIndex)
    {
      var alive := sm.CheckDeadWorkers(now);
      lb.UpdateWorkers(alive);
      SortedListsEachOnce(lb.workers, alive, sm.workers.Keys);
      ReleaseKeepsKeys(old(sm.tasks), DeadWorkers(old(sm.workers), now));
    }

    /** One pass of the distributor: take the head of the queue and send it to the next worker
        in the rotation. Without a worker the task (now IN_PROGRESS) goes to the back of the queue;
        if the worker is not registered or refuses the connection, the task loses its worker and
        goes to the back of the queue, still IN_PROGRESS. */
    method DistributeStep(delivery: Delivery) returns (outcome: Dispatch)
      requires Valid()
      modifies sm, lb
      ensures Valid()
      ensures sm.workers == old(sm.workers) && lb.workers == old(lb.workers)
      ensures old(sm.pending) == [] ==>
                outcome == QueueEmpty && sm.State() == old(sm.State()) && lb.currentIndex == old(lb.currentIndex)
      ensures old(sm.pending) != [] && old(sm.pending)[0] !in old(sm.tasks) ==>
                && outcome == NoTask(old(sm.pending)[0])
                && sm.tasks == old(sm.tasks) && sm.pending == old(sm.pending)[1..]
                && lb.currentIndex == old(lb.currentIndex)
      ensures old(sm.pending) != [] && old(sm.pending)[0] in old(sm.tasks) ==>
                var head := old(sm.pending)[0];
                var t := old(sm.tasks)[head].(status := InProgress);
                var pick := Step(old(lb.workers), old(lb.currentIndex));
                && lb.currentIndex == pick.1
                && (if pick.0.None? || pick.0.value == "" then
                      && outcome == NoWorker
                      && sm.tasks == old(sm.tasks)[head := t][t.id := t]
                      && sm.pending == old(sm.pending)[1..] + [t.id]
                    else if pick.0.value !in old(sm.workers) || delivery == Refused then
                      var u := t.(assignedWorker := None);
                      && outcome == Requeued(pick.0.value)
                      && sm.tasks == old(sm.tasks)[head := u][t.id := u]
                      && sm.pending == old(sm.pending)[1..] + [t.id]
                    else
                      && outcome == Dispatched(pick.0.value)
                      && sm.tasks == old(sm.tasks)[head := t.(assignedWorker := pick.0)]
                      && sm.pending == old(sm.pending)[1..])
      ensures outcome.Dispatched? ==> outcome.worker in sm.workers && delivery == Delivered
      ensures sm.tasks.Keys == old(sm.tasks).Keys
    {
      var queued := sm.pending;
      var next := sm.GetNextTask();
      if queued == [] {
        return QueueEmpty;
      }
      var head := queued[0];
      if next.None? {
        return NoTask(head);
      }
      var t := next.value;
      var w := lb.GetNextWorker();
      if w.None? || w.value == "" {
        sm.AddTask(t);
        return NoWorker;
      }
      if w.value !in sm.workers || delivery == Refused {
        var u := t.(assignedWorker := None);
        sm.tasks := sm.tasks[head := u];
        sm.AddTask(u);
        return Requeued(w.value);
      }
      sm.tasks := sm.tasks[head := t.(assignedWorker := w)];
      outcome := Dispatched(w.value);
    }

    /** One pass of the backup's listener. A backup that has not heard the primary for more
        than PRIMARY_TIMEOUT promotes itself and leaves the loop; otherwise what arrives at
        `receivedAt` is handled: a state snapshot is loaded (and resets the clock), a primary
        heartbeat is recorded. A snapshot whose error the load does not catch ends the
        listener, and a backup whose listener has ended neither loads nor promotes again. */
    method BackupStep(now: int, msg: SyncMessage, receivedAt: int) returns (promoted: bool)
      requires Valid()
      modifies this, sm, clock
      ensures (msg.StateSync? ==> SnapshotKeyedById(msg.doc)) ==> Valid()
      ensures promoted <==>
                old(role) == Backup && old(listening) && now - old(lastPrimaryHeartbeat) > PRIMARY_TIMEOUT
      ensures role == if promoted then Primary else old(role)
      ensures listening <==>
                old(listening) && !promoted && !(old(role) == Backup && msg.StateSync? && msg.doc.Unloadable?)
      ensures !(old(role) == Backup && old(listening) && !promoted && msg.StateSync?) ==>
                sm.State() == old(sm.State()) && clock.time == old(clock.time)
      ensures old(role) == Backup && old(listening) && !promoted && msg.StateSync? ==>
                && sm.State() == Restore(msg.doc, old(sm.State()))
                && (Complete(msg.doc) ==> IsMaxTs(msg.doc.tasks.value, clock.time))
                && (!Complete(msg.doc) ==> clock.time == old(clock.time))
      ensures lastPrimaryHeartbeat ==
                if old(role) == Backup && old(listening) && !promoted && msg.PrimaryAlive? then receivedAt
                else old(lastPrimaryHeartbeat)
    {
      if role != Backup || !listening {
        return false;
      }
      if now - lastPrimaryHeartbeat > PRIMARY_TIMEOUT {
        PromoteToPrimary();
        listening := false;
        return true;
      }
      promoted := false;
      match msg
      case StateSync(doc) =>
        var raised := sm.LoadStateSnapshot(doc, clock);
        if raised {
          listening := false;
        }
      case PrimaryAlive =>
        lastPrimaryHeartbeat := receivedAt;
      case OtherKind =>
      case ReceiveTimeout =>
    }
  }
}
