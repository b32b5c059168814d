/** The task methods of the server: reading the request, and what each reply looks like on the wire. */
module TaskServer {
  import opened Wrappers
  import opened Json
  import opened TaskStore
  import opened TaskMachine
  import opened TaskTheorems
  import opened TaskOutcomes

  const INVALID_PARAMS: int := -32602
  const INTERNAL_ERROR: int := -32603
  const METHOD_NOT_FOUND: int := -32601

  datatype Response =
    | TaskResult(task: DetailedTask)
    | Ack
    | RpcError(code: int, message: string)

  datatype TaskRequest = GetRequest(id: TaskId) | UpdateRequest(id: TaskId, responses: Fields) | CancelRequest(id: TaskId)

  const QUOTE: string := "\U{27}"

  function Quoted(name: string): string {
    QUOTE + name + QUOTE
  }

  function Member(params: Option<Json>, name: string): Option<Json> {
    match params
    case Some(Obj(fields)) => if name in fields then Some(fields[name]) else None
    case _ => None
  }

  // The task id is read first, whatever the method.
  function ReadRequest(verb: string, params: Option<Json>): Result<TaskRequest, Response> {
    match Member(params, "taskId")
    case Some(Str(id)) =>
      if verb == "tasks/get" then Ok(GetRequest(id))
      else if verb == "tasks/update" then
        (match Member(params, "inputResponses")
         case Some(Obj(responses)) => Ok(UpdateRequest(id, responses))
         case _ => Err(RpcError(INVALID_PARAMS, "Missing required object parameter " + Quoted("inputResponses"))))
      else if verb == "tasks/cancel" then Ok(CancelRequest(id))
      else Err(RpcError(METHOD_NOT_FOUND, "Method not found: " + verb))
    case _ => Err(RpcError(INVALID_PARAMS, "Missing required parameter " + Quoted("taskId")))
  }

  function StatusName(status: Status): string {
    match status
    case Working => "Working"
    case InputRequired => "InputRequired"
    case Completed => "Completed"
    case Failed => "Failed"
    case Cancelled => "Cancelled"
  }

  function Message(e: TaskError): string {
    match e
    case NotFound(id) => "task " + Quoted(id) + " not found"
    case InvalidState(id, status) => "task " + Quoted(id) + " is " + StatusName(status) + " and cannot accept this operation"
    case InvalidInput(id, _) => "input for task " + Quoted(id) + " rejected"
    case Detached(id) => "task " + Quoted(id) + " has no running operation to receive input"
  }

  function TaskErrorResponse(e: TaskError): Response {
    match e
    case Detached(_) => RpcError(INTERNAL_ERROR, Message(e))
    case _ => RpcError(INVALID_PARAMS, Message(e))
  }

  // The section that starts serving the request.
  function FirstSection(r: TaskRequest, op: OpId, inst: Instance): Event
    requires op.Client?
  {
    match r
    case GetRequest(id) => GetTask(op.owner, id)
    case UpdateRequest(id, responses) => BeginUpdate(op, inst, id, responses)
    case CancelRequest(id) => BeginCancel(op, inst, id)
  }

  // The response, once the manager has replied.
  function Respond(r: TaskRequest, reply: Reply): Option<Response> {
    match reply
    case Silent => None
    case Found(task) => Some(if r.GetRequest? then TaskResult(task) else Ack)
    case Refused(e) => Some(TaskErrorResponse(e))
    case Answers(_) => None
  }

  // The first section of serving a request, and the response if that ends it; a malformed one starts nothing.
  function Serve(s: State, verb: string, params: Option<Json>, op: OpId, inst: Instance): (State, Option<Response>)
    requires op.Client?
  {
    match ReadRequest(verb, params)
    case Err(response) => (s, Some(response))
    case Ok(r) =>
      var (t, reply) := Step(s, FirstSection(r, op, inst));
      (t, Respond(r, reply))
  }

  // No task the request may name is the caller's: it is another owner's, or was never stored.
  ghost predicate NamesNoTaskOf(s: State, verb: string, params: Option<Json>, op: OpId)
    requires op.Client?
  {
    && op !in s.used
    && var r := ReadRequest(verb, params);
       r.Ok? && r.value.id in s.store ==> s.store[r.value.id].owner != op.owner
  }

  // What a request for a task not the caller's comes to, in any state.
  lemma NoTaskSection(s: State, r: TaskRequest, op: OpId, inst: Instance)
    requires op.Client? && op !in s.used && (r.id in s.store ==> s.store[r.id].owner != op.owner)
    ensures var (after, reply) := Step(s, FirstSection(r, op, inst));
            && Respond(r, reply) == Some(RpcError(INVALID_PARAMS, "task " + Quoted(r.id) + " not found"))
            && SameTasks(s, after) && after.ops == s.ops
  {
    match r
    case GetRequest(_) =>
    case UpdateRequest(_, _) =>
    case CancelRequest(_) =>
  }

  /**
   * Another owner's task reads as absent: a task request that names one is answered at once, the same in every
   * system in which the task is another's or not there at all, and nothing of any task, run or signal changes.
   */
  lemma {:induction false} ForeignTaskReadsAsAbsent(
    s: State, t: State, verb: string, params: Option<Json>, op: OpId, instS: Instance, instT: Instance)
    requires op.Client? && NamesNoTaskOf(s, verb, params, op) && NamesNoTaskOf(t, verb, params, op)
    ensures var (after, response) := Serve(s, verb, params, op, instS);
            && response.Some? && response == Serve(t, verb, params, op, instT).1
            && SameTasks(s, after) && after.ops == s.ops
            && match ReadRequest(verb, params)
               case Ok(r) => response == Some(RpcError(INVALID_PARAMS, "task " + Quoted(r.id) + " not found"))
               case Err(fault) => response == Some(fault)
  {
    hide Step;
    match ReadRequest(verb, params)
    case Ok(r) =>
      NoTaskSection(s, r, op, instS);
      NoTaskSection(t, r, op, instT);
    case Err(_) =>
  }

  /** The owner of a visible task, and nobody else, is told about it. */
  lemma GetAnswersOwnerOnly(s: State, owner: Owner, id: TaskId)
    ensures Respond(GetRequest(id), Step(s, GetTask(owner, id)).1) ==
              if id in s.store && s.store[id].owner == owner && !IsExpired(s.store[id].detail.task, s.now)
              then Some(TaskResult(s.store[id].detail))
              else Some(RpcError(INVALID_PARAMS, "task " + Quoted(id) + " not found"))
  {
  }

  // ---- The three methods, from the request on the wire -----------------------------------------

  // The params of a request that names the task `id`.
  predicate Names(params: Option<Json>, id: TaskId) {
    params.Some? && params.value.Obj? && "taskId" in params.value.fields && params.value.fields["taskId"] == Str(id)
  }

  // What a refused request is answered with: a code, and a text for each kind of refusal.
  predicate IsError(response: Option<Response>, e: TaskError) {
    match e
    case NotFound(id) => response == Some(RpcError(-32602, "task " + Quoted(id) + " not found"))
    case InvalidState(id, status) => response.Some? && response.value.RpcError? && response.value.code == -32602
    case InvalidInput(id, _) => response.Some? && response.value.RpcError? && response.value.code == -32602
    case Detached(id) =>
      response == Some(RpcError(-32603, "task " + Quoted(id) + " has no running operation to receive input"))
  }

  /** `tasks/get` shows the caller its task as stored, and changes nothing. */
  lemma GetIsServed(s: State, params: Option<Json>, id: TaskId, op: OpId, at: Instance)
    requires op.Client? && Names(params, id)
    ensures var (t, response) := Serve(s, "tasks/get", params, op, at);
            && t == s
            && if Sees(s, op.owner, id) then response == Some(TaskResult(s.store[id].detail))
               else IsError(response, NotFound(id))
  {
    GetOutcome(s, op.owner, id);
    hide Step;
  }

  /** `tasks/cancel` stores `cancelled` for an open task of the caller's and is acknowledged; otherwise it changes nothing. */
  lemma CancelIsServed(s: State, params: Option<Json>, id: TaskId, op: OpId, at: Instance)
    requires op.Client? && op !in s.used && Names(params, id)
    ensures var (t, response) := Serve(s, "tasks/cancel", params, op, at);
            && t.runs == s.runs && t.bus == s.bus && t.accepted == s.accepted
            && if Sees(s, op.owner, id) && !Ended(s.store[id].detail.task.status)
               then MovedTo(s, t, id, CancelledPayload, Cancelled) && response == Some(Ack)
                    && op in t.ops && t.ops[op] == Signalling(at, {id}, {})
               else t.store == s.store && t.ops == s.ops && IsError(response, Refusal(s, op.owner, id))
  {
    CancelOutcome(s, op, at, id);
    hide Step;
  }

  /** `tasks/update` with an object of answers starts the caller's update with those very answers. */
  lemma UpdateIsServed(s: State, params: Option<Json>, id: TaskId, responses: Fields, op: OpId, at: Instance)
    requires op.Client? && op !in s.used && Names(params, id)
    requires "inputResponses" in params.value.fields && params.value.fields["inputResponses"] == Obj(responses)
    ensures var (t, response) := Serve(s, "tasks/update", params, op, at);
            && t.store == s.store && t.runs == s.runs && t.bus == s.bus && t.accepted == s.accepted
            && if Sees(s, op.owner, id) then response == None && t.ops == s.ops[op := Checked(at, id, responses)]
               else IsError(response, NotFound(id)) && t.ops == s.ops
  {
    CheckedOutcome(s, op, at, id, responses);
    hide Step;
  }

  /** It is answered when a later section ends it: acknowledged once its answers are handed over, and not otherwise. */
  lemma UpdateIsAnswered(id: TaskId, responses: Fields, reply: Reply)
    ensures var response := Respond(UpdateRequest(id, responses), reply);
            && (reply.Found? ==> response == Some(Ack))
            && (reply.Refused? ==> IsError(response, reply.error))
            && (reply.Silent? ==> response == None)
  {
  }

  // The request names no task.
  predicate NamesNone(params: Option<Json>) {
    params.None? || !params.value.Obj? || "taskId" !in params.value.fields || !params.value.fields["taskId"].Str?
  }

  /** A request that names no task, gives no object of answers, or has another method starts nothing, and says which. */
  lemma FaultsAreServed(s: State, name: string, params: Option<Json>, op: OpId, at: Instance)
    requires op.Client?
    ensures var (t, response) := Serve(s, name, params, op, at);
            && (NamesNone(params) ==>
                  t == s && response == Some(RpcError(-32602, "Missing required parameter " + Quoted("taskId"))))
            && (!NamesNone(params) && name == "tasks/update"
                && ("inputResponses" !in params.value.fields || !params.value.fields["inputResponses"].Obj?) ==>
                  t == s && response == Some(RpcError(-32602, "Missing required object parameter " + Quoted("inputResponses"))))
            && (!NamesNone(params) && name != "tasks/get" && name != "tasks/update" && name != "tasks/cancel" ==>
                  t == s && response == Some(RpcError(-32601, "Method not found: " + name)))
  {
    hide Step;
  }

  /** The text of a refused request tells the task and, where that is the fault, its status. */
  lemma RefusalTexts(id: TaskId)
    ensures Quoted(id) == "\U{27}" + id + "\U{27}"
    ensures forall fault :: Respond(CancelRequest(id), Refused(InvalidInput(id, fault))) ==
              Some(RpcError(-32602, "input for task " + Quoted(id) + " rejected"))
    ensures Respond(CancelRequest(id), Refused(InvalidState(id, Working))) ==
              Some(RpcError(-32602, "task " + Quoted(id) + " is " + "Working" + " and cannot accept this operation"))
    ensures Respond(CancelRequest(id), Refused(InvalidState(id, InputRequired))) ==
              Some(RpcError(-32602, "task " + Quoted(id) + " is " + "InputRequired" + " and cannot accept this operation"))
    ensures Respond(CancelRequest(id), Refused(InvalidState(id, Completed))) ==
              Some(RpcError(-32602, "task " + Quoted(id) + " is " + "Completed" + " and cannot accept this operation"))
    ensures Respond(CancelRequest(id), Refused(InvalidState(id, Failed))) ==
              Some(RpcError(-32602, "task " + Quoted(id) + " is " + "Failed" + " and cannot accept this operation"))
    ensures Respond(CancelRequest(id), Refused(InvalidState(id, Cancelled))) ==
              Some(RpcError(-32602, "task " + Quoted(id) + " is " + "Cancelled" + " and cannot accept this operation"))
  {
  }
}
