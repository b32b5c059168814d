/** Tasks and the process-local store that holds them: one atomic section per operation. */
module TaskStore {
  import opened Wrappers
  import opened Json

  type TaskId = string

  type Fields = map<string, Json>

  datatype Owner = Owner(user: Option<string>, tenant: Option<string>)

  datatype Status = Working | InputRequired | Completed | Failed | Cancelled {
    predicate IsTerminal() {
      this == Completed || this == Failed || this == Cancelled
    }
  }

  datatype Payload =
    | WorkingPayload
    | InputRequiredPayload(requests: Fields)
    | CompletedPayload(result: Fields)
    | FailedPayload(error: Fields)
    | CancelledPayload
  {
    function Status(): Status {
      match this
      case WorkingPayload => Working
      case InputRequiredPayload(_) => InputRequired
      case CompletedPayload(_) => Completed
      case FailedPayload(_) => Failed
      case CancelledPayload => Cancelled
    }
  }

  // Times are wall-clock milliseconds.
  datatype Task = Task(id: TaskId, status: Status, createdAt: int, lastUpdatedAt: int, ttlMs: Option<nat>)

  datatype DetailedTask = DetailedTask(task: Task, payload: Payload) {
    predicate Agrees() {
      task.status == payload.Status()
    }
  }

  // Pairs a task with a payload, forcing the status to the payload's.
  function Detailed(task: Task, payload: Payload): (d: DetailedTask)
    ensures d.Agrees()
  {
    DetailedTask(task.(status := payload.Status()), payload)
  }

  datatype InputFault = MissingResponse | UnknownRequest

  datatype TaskError =
    | NotFound(id: TaskId)
    | InvalidState(id: TaskId, status: Status)
    | InvalidInput(id: TaskId, fault: InputFault)
    | Detached(id: TaskId)

  datatype Entry = Entry(owner: Owner, detail: DetailedTask)

  type Entries = map<TaskId, Entry>

  const I64_MAX: nat := 0x7FFF_FFFF_FFFF_FFFF

  // A time-to-live past the signed 64-bit range is read as the end of that range.
  predicate IsExpired(task: Task, now: int) {
    match task.ttlMs
    case None => false
    case Some(ttl) => now - task.createdAt > (if ttl <= I64_MAX then ttl else I64_MAX)
  }

  function Lookup(entries: Entries, now: int, owner: Owner, id: TaskId): Option<DetailedTask> {
    if id in entries && entries[id].owner == owner && !IsExpired(entries[id].detail.task, now)
    then Some(entries[id].detail)
    else None
  }

  // Reads the task `owner` sees under `id`, and stores what `apply` makes of it.
  function Updated(entries: Entries, now: int, owner: Owner, id: TaskId,
                   apply: DetailedTask -> Result<DetailedTask, TaskError>)
    : (Entries, Result<DetailedTask, TaskError>)
  {
    match Lookup(entries, now, owner, id)
    case None => (entries, Err(NotFound(id)))
    case Some(current) =>
      match apply(current)
      case Err(e) => (entries, Err(e))
      case Ok(next) => (entries[id := Entry(owner, next)], Ok(next))
  }

  function ExpiredIds(entries: Entries, now: int): set<TaskId> {
    set id | id in entries && IsExpired(entries[id].detail.task, now)
  }

  // The answers match the questions when neither has a key the other lacks; a missing answer is reported first.
  function ValidateKeys(requests: Fields, responses: Fields): (fault: Option<InputFault>)
    ensures fault == None <==> requests.Keys == responses.Keys
    ensures fault == Some(MissingResponse) <==> exists key :: key in requests && key !in responses
    ensures fault == Some(UnknownRequest) <==> requests.Keys < responses.Keys
  {
    if !(requests.Keys <= responses.Keys) then Some(MissingResponse)
    else if !(responses.Keys <= requests.Keys) then Some(UnknownRequest)
    else None
  }

  // `TaskManager::transition`'s rule: nothing leaves a terminal state.
  function Moved(current: DetailedTask, id: TaskId, payload: Payload, now: int): Result<DetailedTask, TaskError> {
    if current.task.status.IsTerminal() then Err(InvalidState(id, current.task.status))
    else Ok(Detailed(current.task.(lastUpdatedAt := now), payload))
  }

  // `TaskManager::apply_input`'s rule: only a task awaiting input takes answers, and only matching ones.
  function Answered(current: DetailedTask, id: TaskId, responses: Fields, now: int): Result<DetailedTask, TaskError> {
    match current.payload
    case InputRequiredPayload(requests) =>
      (match ValidateKeys(requests, responses)
       case Some(fault) => Err(InvalidInput(id, fault))
       case None => Ok(Detailed(current.task.(lastUpdatedAt := now), WorkingPayload)))
    case _ => Err(InvalidState(id, current.task.status))
  }

  function Transition(entries: Entries, now: int, owner: Owner, id: TaskId, payload: Payload)
    : (Entries, Result<DetailedTask, TaskError>)
  {
    Updated(entries, now, owner, id, current => Moved(current, id, payload, now))
  }

  function AcceptInput(entries: Entries, now: int, owner: Owner, id: TaskId, responses: Fields)
    : (Entries, Result<DetailedTask, TaskError>)
  {
    Updated(entries, now, owner, id, current => Answered(current, id, responses, now))
  }

  /** `InMemoryTaskStore`: every method is one section under the write lock. */
  class InMemoryTaskStore {
    var entries: Entries

    constructor ()
      ensures entries == map[]
    {
      entries := map[];
    }

    method Create(owner: Owner, task: DetailedTask)
      modifies this
      ensures entries == old(entries)[task.task.id := Entry(owner, task)]
    {
      entries := entries[task.task.id := Entry(owner, task)];
    }

    method Get(now: int, owner: Owner, id: TaskId) returns (found: Option<DetailedTask>)
      ensures found == Lookup(entries, now, owner, id)
    {
      found := None;
      if id in entries {
        var entry := entries[id];
        if entry.owner == owner && !IsExpired(entry.detail.task, now) {
          found := Some(entry.detail);
        }
      }
    }

    method Update(now: int, owner: Owner, id: TaskId, apply: DetailedTask -> Result<DetailedTask, TaskError>)
      returns (r: Result<DetailedTask, TaskError>)
      modifies this
      ensures (entries, r) == Updated(old(entries), now, owner, id, apply)
    {
      if id !in entries || entries[id].owner != owner || IsExpired(entries[id].detail.task, now) {
        return Err(NotFound(id));
      }
      r := apply(entries[id].detail);
      if r.Ok? {
        entries := entries[id := Entry(entries[id].owner, r.value)];
      }
    }

    // Walks the table once, keeping the live entries and listing the others.
    method SweepExpired(now: int) returns (removed: seq<TaskId>)
      modifies this
      ensures entries == old(entries) - ExpiredIds(old(entries), now)
      ensures forall id :: id in removed <==> id in ExpiredIds(old(entries), now)
      ensures forall i, j :: 0 <= i < j < |removed| ==> removed[i] != removed[j]
    {
      removed := [];
      var pending := entries.Keys;
      ghost var was := entries;
      while pending != {}
        invariant pending <= was.Keys
        invariant forall id :: id in entries <==> id in was && (id in pending || id !in removed)
        invariant forall id :: id in entries ==> entries[id] == was[id]
        invariant forall id :: id in removed <==> id in was && id !in pending && IsExpired(was[id].detail.task, now)
        invariant forall i, j :: 0 <= i < j < |removed| ==> removed[i] != removed[j]
        decreases pending
      {
        var id :| id in pending;
        pending := pending - {id};
        if IsExpired(entries[id].detail.task, now) {
          removed := removed + [id];
          entries := map k | k in entries && k != id :: entries[k];
        }
      }
    }
  }

  /** Whatever the payload, a terminal task is left as it is. */
  lemma TerminalRefusesTransition(entries: Entries, now: int, owner: Owner, id: TaskId, payload: Payload)
    requires id in entries && entries[id].detail.Agrees() && entries[id].detail.payload.Status().IsTerminal()
    ensures Transition(entries, now, owner, id, payload).0 == entries
    ensures Transition(entries, now, owner, id, payload).1.Err?
  {
  }
}
