/** The records shared by client, orchestrator and workers (shared/models.py). */
module Models {

  datatype Option<+T> = None | Some(value: T)

  /** A JSON value as the orchestrator receives, stores and sends it.
      Python's `None` (an absent key read with `.get`, or JSON `null`) is `Null`. */
  datatype Value =
    | Null
    | Bool(b: bool)
    | Int(i: int)
    | Str(s: string)
    | Arr(items: seq<Value>)
    | Obj(fields: map<string, Value>)

  type TaskId = string
  type WorkerId = string

  /** The task states the code uses: PENDING on creation and when a dead worker's task is
      handed back, IN_PROGRESS once taken off the queue, COMPLETED when a worker reports back.
      FAILED is named as a possible state but no code path shown sets it. */
  datatype Status = Pending | InProgress | Completed | Failed

  /** A unit of work. `id` and `clientId` are required; every other field has the
      dataclass default. `data` is the client's payload, `result` what the worker reported. */
  datatype Task = Task(
    id: TaskId,
    clientId: string,
    status: Status := Pending,
    data: Value := Obj(map[]),
    lamportTs: int := 0,
    assignedWorker: Option<WorkerId> := None,
    result: Value := Null)

  /** `Task(id=..., client_id=...)` with every other field left at its default. */
  function NewTask(id: TaskId, clientId: string): (t: Task)
    ensures t.id == id && t.clientId == clientId
    ensures t.status == Pending
    ensures t.data == Obj(map[])
    ensures t.lamportTs == 0
    ensures t.assignedWorker == None && t.result == Null
  {
    Task(id, clientId)
  }
}
