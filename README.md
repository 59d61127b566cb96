# Distributed task orchestrator — Dafny model

The system is a task orchestrator for a small distributed platform.

- Clients log in over TCP with a user name and password and receive a token. With the token they submit tasks and ask for a task's status.
- Workers announce themselves with UDP heartbeats and report finished tasks. They receive tasks over TCP, chosen round-robin from the workers still alive.
- A primary orchestrator keeps the shared state: a task table, a FIFO queue of pending task ids and a worker table. A Lamport clock stamps each new task.
- The primary multicasts a state snapshot and an "alive" beacon. A backup loads the snapshots. When the beacon has been silent for longer than the timeout, the backup promotes itself to primary.

The model has one module per source file:

| module | file | models |
|---|---|---|
| `Models` | `models.dfy` | `shared/models.py`: the `Task` record with its defaults, and JSON values |
| `Lamport` | `lamport_clock.dfy` | `orchestrator/lamport_clock.py`: the `LamportClock` class |
| `StrOrder` | `str_order.dfy` | Python's `str` ordering and `sorted`, which the load balancer relies on |
| `LoadBalancer` | `load_balancer.dfy` | `orchestrator/load_balancer.py`: the `RoundRobinLoadBalancer` class |
| `StateManagement` | `state_manager.dfy` | `orchestrator/state_manager.py`: the `StateManager` class and its snapshot format |
| `Auth` | `auth.dfy` | the login and token logic of `orchestrator/main.py` over `config.py`'s users |
| `Orchestration` | `orchestrator.dfy` | the rest of `orchestrator/main.py`: the `Orchestrator` class, one method per request handler or loop body |

## Conventions

- Every Python method that runs under a lock is one atomic step. Each thread's `while True` body is one method.
- Whatever a socket would deliver is a parameter:
  - the decoded request, datagram or multicast message;
  - the time `now`;
  - whether the worker accepted the connection.
- Time is an integer count of milliseconds. `WORKER_TIMEOUT` and `PRIMARY_TIMEOUT` are both 5000.
- `hashlib.sha256(...).hexdigest()` is the function-valued parameter `digest`. Where the source relies on distinct names having distinct tokens, the lemmas assume `Injective(digest)`.
- JSON values are the datatype `Value`, and Python's `None` is `Null`.
  - A dict lookup on a list or dict key raises `TypeError` in Python. That lookup is `!Hashable(v)`.
  - In these handlers, such an error ends the handler thread with no reply. That outcome is `NoReply`.
- The ids that `uuid4()` would produce are the parameter `freshId`.

## Model

| member | source | states |
|---|---|---|
| Models.NewTask | shared/models.py:22-49 | a new task has the given id and client, status PENDING, empty data, stamp 0, no worker and no result |
| Lamport.LamportClock.constructor | orchestrator/lamport_clock.py:11-13 | a new clock reads 0 |
| Lamport.LamportClock.Increment | orchestrator/lamport_clock.py:19-26 | the clock advances by exactly one and returns the new value |
| Lamport.LamportClock.Update | orchestrator/lamport_clock.py:29-35 | the new value is max(old, received) + 1, so it is strictly past both the local and the received time |
| Lamport.LamportClock.GetTime | orchestrator/lamport_clock.py:38-41 | returns the current value and changes nothing |
| Lamport.LamportClock.SetTime | orchestrator/lamport_clock.py:44-48 | the clock takes the given value, which may be below the old one |
| Lamport.Max | orchestrator/lamport_clock.py:33 | `max`: at least both arguments and equal to one of them |
| StrOrder.LeTotal | orchestrator/load_balancer.py:28 | any two strings are comparable |
| StrOrder.LeAntisymmetric | orchestrator/load_balancer.py:28 | strings that are each `<=` the other are equal |
| StrOrder.LeTransitive | orchestrator/load_balancer.py:28 | the string order is transitive |
| StrOrder.LeReflexive | orchestrator/load_balancer.py:28 | every string is `<=` itself |
| StrOrder.InsertPermutes | orchestrator/load_balancer.py:28 | inserting adds exactly one element |
| StrOrder.InsertSorted | orchestrator/load_balancer.py:28 | inserting into a sorted list keeps it sorted |
| StrOrder.SortSorted | orchestrator/load_balancer.py:28 | `sorted(ws)` is in ascending order |
| StrOrder.SortPermutes | orchestrator/load_balancer.py:28 | `sorted(ws)` is a permutation of `ws` |
| StrOrder.SortedUnique | orchestrator/load_balancer.py:28 | two sorted permutations of the same strings are the same list |
| StrOrder.SortIsTheSortedPermutation | orchestrator/load_balancer.py:26-28 | `sorted(ws)` is the one sorted permutation of `ws`, so it does not depend on the order the ids arrive in |
| LoadBalancer.Step | orchestrator/load_balancer.py:35-52 | empty list: no worker, cursor kept; otherwise a worker from the list and a cursor inside it |
| LoadBalancer.Picks | orchestrator/load_balancer.py:35-52 | k calls hand out k workers |
| LoadBalancer.NextCursor | orchestrator/load_balancer.py:52 | from an in-range cursor, the cursor moves to the next position, or to 0 after the last |
| LoadBalancer.PicksSlice | orchestrator/load_balancer.py:43-52 | calls that stay before the end hand out a contiguous run of the list |
| LoadBalancer.PicksWrap | orchestrator/load_balancer.py:43-52 | after the end of the list the calls continue from the head |
| LoadBalancer.OneRoundIsRotation | orchestrator/load_balancer.py:43-52 | `len(workers)` consecutive calls hand out the list rotated to start at the cursor |
| LoadBalancer.EachWorkerOncePerRound | orchestrator/load_balancer.py:35-52 | `len(workers)` consecutive calls hand out every worker exactly once, from any cursor |
| LoadBalancer.RoundRobinLoadBalancer.constructor | orchestrator/load_balancer.py:13-19 | no workers, cursor 0 |
| LoadBalancer.RoundRobinLoadBalancer.UpdateWorkers | orchestrator/load_balancer.py:23-32 | the list becomes the sorted permutation of the ids given; the cursor is reset to 0 exactly when it fell off the end; the cursor invariant holds |
| LoadBalancer.RoundRobinLoadBalancer.GetNextWorker | orchestrator/load_balancer.py:35-52 | None exactly when the list is empty; otherwise the worker at the (reset) cursor, with the cursor advanced modulo the length; the list is unchanged and the cursor invariant is kept |
| StateManagement.RestoreCaptured | orchestrator/state_manager.py:108-125 | loading a snapshot the primary took reproduces its task table, queue and workers, whatever the backup held |
| StateManagement.RestoreIdempotent | orchestrator/state_manager.py:118-138 | loading the same snapshot twice leaves what loading it once left |
| StateManagement.RestoreWithoutPendingIsTorn | orchestrator/state_manager.py:123-125 | a document without "pending_tasks" replaces the task table but keeps the old queue and workers |
| StateManagement.ReleaseOrphans | orchestrator/state_manager.py:81-85 | same task ids; each task IN_PROGRESS on a dead worker becomes PENDING with no worker; no task is left IN_PROGRESS on a dead worker; any other task is untouched |
| StateManagement.MaxTsUnique | orchestrator/state_manager.py:129-132 | the largest-stamp-or-0 value is unique |
| StateManagement.MaxLamport | orchestrator/state_manager.py:129-132 | the result is at least 0 and at least every task's stamp, and is 0 or some task's stamp |
| StateManagement.ReleaseOneMore | orchestrator/state_manager.py:75-88 | releasing one more dead worker's tasks composes with releasing the earlier ones, and the id sets involved are disjoint |
| StateManagement.ListsConcat | orchestrator/state_manager.py:87 | ids requeued for successive dead workers, concatenated, list the union of their orphan sets, each once |
| StateManagement.StateManager.constructor | orchestrator/state_manager.py:16-25 | empty task table, queue and worker table |
| StateManagement.StateManager.AddTask | orchestrator/state_manager.py:28-35 | the task is stored under its id and its id is appended to the back of the queue; workers unchanged |
| StateManagement.StateManager.GetNextTask | orchestrator/state_manager.py:38-50 | empty queue: None and nothing changes; otherwise the head is popped, and a known task is marked IN_PROGRESS and returned, while an unknown id is dropped with None |
| StateManagement.StateManager.UpdateWorkerHeartbeat | orchestrator/state_manager.py:53-62 | the worker's record becomes its address and this heartbeat's time; tasks and queue unchanged |
| StateManagement.StateManager.CheckDeadWorkers | orchestrator/state_manager.py:65-90 | exactly the stale workers are removed; every task in progress on one of them is PENDING again with no worker; its id is put in front of the old queue, each orphan exactly once; the returned ids list the remaining workers, each once, none stale |
| StateManagement.StateManager.RemoveWorkers | orchestrator/state_manager.py:75-88 | the outer loop: the dead workers are gone, their tasks are released and prepended to the queue, each once |
| StateManagement.StateManager.RequeueTasksOf | orchestrator/state_manager.py:81-88 | the inner loop: the tasks of one worker are released and prepended, each once |
| StateManagement.StateManager.WorkerIds | orchestrator/state_manager.py:90 | `list(workers.keys())` lists each worker id once |
| StateManagement.StateManager.UpdateTaskStatus | orchestrator/state_manager.py:93-98 | a known task gets the status and result; an unknown id changes nothing |
| StateManagement.StateManager.GetTaskStatus | orchestrator/state_manager.py:101-105 | the stored task exactly when the id is known, otherwise None |
| StateManagement.StateManager.GetStateSnapshot | orchestrator/state_manager.py:108-115 | the document holds the three structures, so loading it restores them (RestoreCaptured) |
| StateManagement.StateManager.LoadStateSnapshot | orchestrator/state_manager.py:118-138 | the state becomes Restore(doc, old state); a complete document sets the clock to the largest task stamp (or 0); otherwise the clock is unchanged; the error escapes to the caller exactly for content that is not UTF-8, not an object, has a non-object "tasks" or a task record that does not fit `Task`, and for these causes nothing has changed |
| Auth.UserNamesAreTheKeys | config.py:37-40 | the name list in dict order holds exactly the table's keys, and "unknown" is not one of them |
| Auth.FirstOwnerFinds | orchestrator/main.py:155-161 | the first-match search finds a name exactly when some name's token equals the token, and the name it finds owns the token |
| Auth.OwnerIsUserIffValid | orchestrator/main.py:130-161 | get_user_from_token names a real user exactly when verify_token accepts; otherwise it says "unknown" |
| Auth.VerifyToken | orchestrator/main.py:130-136 | true exactly when the token is some user's token |
| Auth.GetUserFromToken | orchestrator/main.py:155-161 | the first user whose token it is, a real owner exactly when the token is valid, "unknown" otherwise |
| Auth.DecimalString | orchestrator/main.py:120 | `str(n)` is non-empty and starts with a digit |
| Auth.UsersGet | orchestrator/main.py:118 | a known name's password, None for anything else (a non-string name included) |
| Auth.PyStr | orchestrator/main.py:120 | how f"{v}" renders None, a boolean, an integer or a string: a string as itself, anything else as non-empty text starting with N, T, F, '-' or a digit, with '-' exactly for a negative integer |
| Auth.NonStrNeverRendersAsUser | orchestrator/main.py:118-120 | None, a boolean or an integer never renders in an f-string as a user name |
| Auth.Login | orchestrator/main.py:114-127 | an unhashable name raises; otherwise a token is issued exactly when `USERS.get(username) == password`, and the token is the digest of the name's rendering followed by the key |
| Auth.LoginGrantsValidToken | orchestrator/main.py:114-136 | a user with the right password gets a token that verify_token accepts |
| Auth.IssuedTokenVerifies | orchestrator/main.py:114-136 | every token issued for a name in the table verifies |
| Auth.SuffixCancels | orchestrator/main.py:120-133 | equal concatenations with the same secret key come from equal names |
| Auth.NoPasswordLoginForNonUser | orchestrator/main.py:114-136 | with no password, any hashable name that is not a user (None included) gets a token, and for an injective digest verify_token rejects it |
| Auth.AnonymousLogin | orchestrator/main.py:114-136 | a login with neither username nor password gets the digest of "None" plus the key, a token that verify_token rejects |
| Auth.TokenHasOneOwner | orchestrator/main.py:130-161 | for an injective digest, a valid token belongs to exactly one user |
| Orchestration.Get | orchestrator/main.py:115-116 | `request.get(key)`: the value under the key, or None |
| Orchestration.DataOf | orchestrator/main.py:146 | `request.get("data", {})`: the payload, or an empty object |
| Orchestration.LoginReply | orchestrator/main.py:118-127 | a token is sent exactly when one was issued; bad credentials get the error; an unhashable name gets no reply |
| Orchestration.StatusReply | orchestrator/main.py:164-173 | the task's details exactly for a string id in the table; no reply for an unhashable id; the not-found error otherwise |
| Orchestration.Submitted | orchestrator/main.py:143-148 | the new task has the fresh id, the owner, the payload, the given stamp, status PENDING and no worker |
| Orchestration.ReleaseKeepsKeys | orchestrator/state_manager.py:81-85 | releasing orphans keeps every task under its own id |
| Orchestration.CaptureKeyedById | orchestrator/state_manager.py:108-115 | a snapshot of a table keyed by id carries a table keyed by id, so loading it keeps the backup's invariant |
| Orchestration.SortedListsEachOnce | orchestrator/main.py:204-206 | the balancer's list, a permutation of the live ids, lists each live worker once |
| Orchestration.Orchestrator.constructor | orchestrator/main.py:23-40 | empty registries, clock 0, empty balancer, the role the flag asks for, the backup's sync listener running exactly for a backup, and the primary last heard now; `Valid()` holds |
| Orchestration.Orchestrator.StartPrimaryServices | orchestrator/main.py:43-52 | the role becomes PRIMARY |
| Orchestration.Orchestrator.PromoteToPrimary | orchestrator/main.py:314-318 | the role becomes PRIMARY |
| Orchestration.Orchestrator.HandleLogin | orchestrator/main.py:114-127 | the reply carries a token exactly when the table gives the password sent for the name sent, and the token is that name's digest |
| Orchestration.Orchestrator.HandleSubmitTask | orchestrator/main.py:139-152 | the clock advances by one; a PENDING task for the token's owner, stamped with the new clock value, is stored under the fresh id and queued at the back; a valid token's owner is a real user; the reply carries the id |
| Orchestration.Orchestrator.HandleTaskStatus | orchestrator/main.py:164-173 | the reply is the task's details, the not-found error, or none for an unhashable id |
| Orchestration.Orchestrator.HandleClient | orchestrator/main.py:77-111 | no reply for an empty or undecodable request; without a token only a login is served, and anything else gets the authentication error; an invalid token gets the token error; a valid token routes submit and status, and any other action gets no reply; only an authenticated submit changes state or clock; `Valid()` is kept |
| Orchestration.Orchestrator.HandleWorkerMessage | orchestrator/main.py:176-195 | a heartbeat refreshes the sender's record; a completion marks a known task COMPLETED with its result; anything else changes nothing; tasks stay under their own ids |
| Orchestration.Orchestrator.MonitorWorkers | orchestrator/main.py:198-206 | the stale workers go and their tasks are requeued at the front, each once; the balancer then holds the remaining workers, sorted, each once, none stale, with a valid cursor; `Valid()` is kept |
| Orchestration.Orchestrator.DistributeStep | orchestrator/main.py:209-243 | the head of the queue goes to the next worker in the rotation; an id with no task is dropped (`NoTask`); with no worker the task goes to the back of the queue still IN_PROGRESS; if the worker is unregistered or refuses, the task loses its worker and goes to the back still IN_PROGRESS; otherwise the task records its worker; a dispatch only ever goes to a registered worker that accepted; the task ids and `Valid()` are kept |
| Orchestration.Orchestrator.BackupStep | orchestrator/main.py:286-311 | a backup whose listener still runs promotes itself exactly when the primary has been silent for more than PRIMARY_TIMEOUT, and the listener then stops; a snapshot whose load raises stops the listener too, and a stopped listener never loads or promotes again; otherwise a snapshot is loaded (resetting the clock), a beacon records its arrival time, and nothing else changes; `Valid()` is kept unless a loaded snapshot stores a task under another id |

## Left out

- Sockets, threads, locks and sleeps are not modelled. Each locked method or loop body is one atomic step, and interleavings between threads are not modelled.
- JSON encoding and decoding are not modelled. A request arrives already decoded as an object, not-JSON or empty. A snapshot arrives as text that is not JSON, as content whose load raises, or as a document whose keys may be missing.
- `Task(**t_data)` reconstruction is not modelled. A snapshot carries task values directly. A malformed task record, whose `TypeError` escapes the load, is folded into the `Unloadable` case with the other uncaught errors.
- Requests that decode to a JSON value other than an object are not modelled.
- Floating-point time is not modelled: time is integer milliseconds.
- Floats in JSON values are not modelled.
- SHA-256 and uuid4 are parameters (`digest`, `freshId`). Their collision-freedom is not assumed, except where a lemma requires `Injective(digest)`.
- StateManagement.StateManager.CheckDeadWorkers: states which task ids are put back at the head of the queue, each exactly once. It does not state their order. In Python that order is dict insertion order, reversed by `insert(0, ...)`. The model's `map` tables carry no insertion order, so the order cannot be stated.
- StateManagement.StateManager.RemoveWorkers: states which task ids are prepended, each exactly once, but not in what order. That order follows the dead-worker list and the task table's dict order (orchestrator/state_manager.py:75, 81, 87), which the model's `map` tables do not record.
- StateManagement.StateManager.RequeueTasksOf: states which of one worker's task ids are prepended, each exactly once, but not in what order. That order is the task table's dict order reversed by `insert(0, ...)` (orchestrator/state_manager.py:81, 87), which the model's `map` does not record.
- Orchestration.Orchestrator.MonitorWorkers: states which task ids the sweep puts back at the head of the queue, each exactly once, but not in what order, for the same reason as CheckDeadWorkers.
- Orchestration.Orchestrator.DistributeStep: Python mutates the shared task object. The model writes the changed task back under the popped id and under `task.id`. `Orchestrator.Valid()` includes `KeyedById`, which makes these the same key.
- Orchestration.Orchestrator.Valid: every state-changing method of the orchestrator requires and keeps `Valid()`: tasks are stored under their own ids and the balancer's cursor is in range. The constructor establishes it. BackupStep keeps it whenever a loaded snapshot's task table is keyed by id, and CaptureKeyedById shows that every snapshot the primary takes is. A backup that loads a hand-made snapshot with a task under another id's key leaves `Valid()`, and the model does not cover what the orchestrator does after that.
- Orchestration.Orchestrator.DistributeStep: a worker id whose suffix after `_` is not an integer, a suffix that is an integer outside 0-65535 (such as "w_70000" or "w_-1", where `s.connect` raises `OverflowError`, orchestrator/main.py:230-233), and any connection error other than a refusal, end the distributor thread in Python. The model has only delivered or refused.
- Orchestration.Orchestrator.HandleWorkerMessage: a datagram that is not JSON, or is JSON but not an object, raises out of `listen_for_workers` (orchestrator/main.py:184-185 are outside any `try`) and ends the worker listener. A heartbeat without "worker_id", or a completion without "task_id" or "result", also ends it (an uncaught `KeyError`). Such messages, and non-string worker ids, are not modelled. An unhashable task id is likewise an uncaught error; the model treats every non-string id as unknown.
- The primary's broadcast loop (`sync_state_to_backup`) and the multicast socket setup are not modelled. Their content is `GetStateSnapshot` plus a beacon, and the backup's side receives it as a `SyncMessage`.
- The backup's `start_backup_services` thread start is not modelled. The constructor only records the role and that a backup's sync listener runs.
- StateManagement.StateManager.LoadStateSnapshot: the uncaught errors (a `UnicodeDecodeError` from `decode('utf-8')`, a `TypeError` or `AttributeError` from a value of the wrong JSON type, a `TypeError` from `Task(**t_data)`) are one case, `Unloadable`, that says only that the load raised before changing anything. Which exception it was is not modelled. A "pending_tasks" or "workers" value of the wrong JSON type is assigned without complaint in Python and is not a case of the model. A task record whose "lamport_ts" is not a number (null, a string, a list) is loaded with the rest: all three registries are replaced (orchestrator/state_manager.py:123-125), then the comparison in the maximum loop raises `TypeError` (orchestrator/state_manager.py:131) and the clock is never set. The typed `Task` cannot carry such a record, so this torn, raising load is not a case of the model.
- Orchestration.Orchestrator.BackupStep: once the sync listener has ended, Python's backup neither loads snapshots nor promotes itself, and nothing restarts the listener. The model keeps that state in `listening`; it does not model the thread's traceback.
- Logging is not modelled.
- The client and worker programs are outside this model.
- The comment at orchestrator/main.py:220 says the no-worker path puts the task back at the front of the queue. The path calls `add_task`, which appends at the back (orchestrator/state_manager.py:34). The model follows the code.
- Tokens never expire, and workers have no state between alive and removed. The code has neither, so the model has neither.
- `set_time` can lower the clock. The model follows the code.
