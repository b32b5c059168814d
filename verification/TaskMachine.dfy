/**
 * The task engine as it runs: several manager instances over one store, each with its live-run table,
 * a signal bus between them, client requests and sweeps in progress, and the operations themselves.
 *
 * One step is one section under a lock (a store access, a live-run table access, a channel send), so
 * every await point between two sections lets any other step in.
 */
module TaskMachine {
  import opened Wrappers
  import opened Json
  import opened TaskStore

  type Instance = nat

  // Who is calling: a client request of one owner, or an instance's sweep.
  datatype OpId = Client(owner: Owner, n: nat) | Sweeper(inst: Instance, k: nat)

  // What an operation's wait for input is doing.
  datatype Call = Idle | Waiting(requests: Fields)

  // `Creating` until the run is in its manager's table; `Released` once it has left it, `Dropped` once
  // its end of the input channel is gone too.
  datatype Phase = Creating | Live | Released | Dropped

  // One accepted `tasks/update`: the request that carried it, and its answers.
  datatype Sent = Sent(op: OpId, responses: Fields)

  // One input call that ended with answers.
  datatype Returned = Returned(requests: Fields, sent: Sent)

  datatype Run = Run(inst: Instance, owner: Owner, phase: Phase, fired: bool,
                     queue: seq<Sent>, call: Call, returned: seq<Returned>)
  {
    // The manager's table reaches the run.
    predicate Registered() { phase == Live }

    // The operation's end of the input channel exists.
    predicate Receives() { phase == Live || phase == Released }
  }

  // Where a manager call that has passed its last await stands.
  datatype Op =
    | Checked(inst: Instance, id: TaskId, responses: Fields)
    | Looked(inst: Instance, id: TaskId, responses: Fields, local: bool)
    | Handing(inst: Instance, id: TaskId, responses: Fields, local: bool, working: DetailedTask)
    | Failing(inst: Instance, id: TaskId, local: bool)
    | Signalling(inst: Instance, toDeliver: set<TaskId>, toPublish: set<TaskId>)

  datatype Signal = CancelledSignal(id: TaskId) | InputSignal(id: TaskId, sent: Sent)

  datatype MsgId = MsgId(op: OpId, id: TaskId)

  datatype Message = Message(signal: Signal, targets: set<Instance>)

  // Where an accepted update is now. A history variable: no step reads it.
  datatype Place = InOp | OnBus | Queued | Delivered | Lost

  datatype Accepted = Accepted(id: TaskId, responses: Fields, place: Place)

  datatype Config = Config(instances: set<Instance>, bus: set<Instance>)

  datatype State = State(
    cfg: Config,
    now: int,
    store: Entries,
    runs: map<TaskId, Run>,
    ops: map<OpId, Op>,
    used: set<OpId>,
    bus: map<MsgId, Message>,
    accepted: map<OpId, Accepted>)

  datatype Event =
    | Tick(to: int)
    | Create(inst: Instance, owner: Owner, id: TaskId, ttlMs: Option<nat>)
    | Register(id: TaskId)
    | GetTask(owner: Owner, id: TaskId)
    | BeginUpdate(op: OpId, inst: Instance, id: TaskId, responses: Fields)
    | LookUpRun(op: OpId)
    | Accept(op: OpId)
    | HandOver(op: OpId, refused: bool)
    | FailTask(op: OpId)
    | Abandon(op: OpId)
    | BeginCancel(op: OpId, inst: Instance, id: TaskId)
    | BeginSweep(op: OpId, inst: Instance)
    | SignalLocal(op: OpId, id: TaskId)
    | SignalPublish(op: OpId, id: TaskId, refused: bool)
    | Deliver(msg: MsgId, target: Instance)
    | RequestInput(id: TaskId, requests: Fields)
    | Poll(id: TaskId)
    | Forsake(id: TaskId)
    | Settle(owner: Owner, id: TaskId, payload: Payload)
    | ReleaseRun(id: TaskId)
    | DropRun(id: TaskId)

  datatype Reply =
    | Silent
    | Found(task: DetailedTask)
    | Refused(error: TaskError)
    | Answers(responses: Fields)

  type Outcome = (State, Reply)

  function ReplyOf(r: Result<DetailedTask, TaskError>): Reply {
    match r case Ok(task) => Found(task) case Err(e) => Refused(e)
  }

  function Init(cfg: Config, now: int): State {
    State(cfg, now, map[], map[], map[], {}, map[], map[])
  }

  // ---- TaskManager::create -------------------------------------------------------------------

  function DoCreate(s: State, inst: Instance, owner: Owner, id: TaskId, ttlMs: Option<nat>): Outcome {
    if id in s.runs then (s, Silent)
    else
      var task := Detailed(Task(id, Working, s.now, s.now, ttlMs), WorkingPayload);
      (s.(store := s.store[id := Entry(owner, task)],
          runs := s.runs[id := Run(inst, owner, Creating, false, [], Idle, [])]), Silent)
  }

  function DoRegister(s: State, id: TaskId): Outcome {
    if id in s.runs && s.runs[id].phase == Creating
    then (s.(runs := s.runs[id := s.runs[id].(phase := Live)]), Silent)
    else (s, Silent)
  }

  // ---- TaskManager::apply_input, section by section ------------------------------------------

  // Ownership first: a task the caller cannot see is absent, whatever runs it.
  function DoBeginUpdate(s: State, op: OpId, inst: Instance, id: TaskId, responses: Fields): Outcome {
    if op.Sweeper? || op in s.used then (s, Silent)
    else
      var s' := s.(used := s.used + {op});
      match Lookup(s.store, s.now, op.owner, id)
      case None => (s', Refused(NotFound(id)))
      case Some(_) => (s'.(ops := s'.ops[op := Checked(inst, id, responses)]), Silent)
  }

  function DoLookUpRun(s: State, op: OpId): Outcome {
    if op in s.ops && s.ops[op].Checked? then
      var o := s.ops[op];
      var local := o.id in s.runs && s.runs[o.id].Registered() && s.runs[o.id].inst == o.inst;
      if !local && o.inst !in s.cfg.bus
      then (s.(ops := s.ops - {op}), Refused(Detached(o.id)))
      else (s.(ops := s.ops[op := Looked(o.inst, o.id, o.responses, local)]), Silent)
    else (s, Silent)
  }

  function DoAccept(s: State, op: OpId): Outcome {
    if op.Client? && op in s.ops && s.ops[op].Looked? then
      var o := s.ops[op];
      var (store, r) := AcceptInput(s.store, s.now, op.owner, o.id, o.responses);
      match r
      case Err(e) => (s.(ops := s.ops - {op}), Refused(e))
      case Ok(working) =>
        (s.(store := store,
            ops := s.ops[op := Handing(o.inst, o.id, o.responses, o.local, working)],
            accepted := s.accepted[op := Accepted(o.id, o.responses, InOp)]), Silent)
    else (s, Silent)
  }

  function Placed(s: State, op: OpId, place: Place): map<OpId, Accepted> {
    if op in s.accepted then s.accepted[op := s.accepted[op].(place := place)] else s.accepted
  }

  // The answers enter the run's channel when its receiving end exists.
  function Enqueue(s: State, id: TaskId, sent: Sent): State {
    s.(runs := if id in s.runs then s.runs[id := s.runs[id].(queue := s.runs[id].queue + [sent])] else s.runs,
       accepted := Placed(s, sent.op, Queued))
  }

  function DoHandOver(s: State, op: OpId, refused: bool): Outcome {
    if op in s.ops && s.ops[op].Handing? then
      var o := s.ops[op];
      var sent := Sent(op, o.responses);
      var failed := s.(ops := s.ops[op := Failing(o.inst, o.id, o.local)], accepted := Placed(s, op, Lost));
      if o.local then
        if o.id in s.runs && s.runs[o.id].Receives()
        then (Enqueue(s, o.id, sent).(ops := s.ops - {op}), Found(o.working))
        else (failed, Silent)
      else if refused then (failed, Silent)
      else
        (s.(ops := s.ops - {op},
            bus := s.bus[MsgId(op, o.id) := Message(InputSignal(o.id, sent), s.cfg.instances - {o.inst})],
            accepted := Placed(s, op, OnBus)), Found(o.working))
    else (s, Silent)
  }

  // The fields of the JSON-RPC error that settles a task whose input reached nobody.
  function HandOverError(local: bool): Fields {
    map["code" := Num(NegInt(32603)),
        "message" := Str(if local then "task operation ended before receiving its input"
                         else "task input could not be carried to the instance running the operation")]
  }

  function DoFailTask(s: State, op: OpId): Outcome {
    if op.Client? && op in s.ops && s.ops[op].Failing? then
      var o := s.ops[op];
      var (store, r) := Transition(s.store, s.now, op.owner, o.id, FailedPayload(HandOverError(o.local)));
      (s.(store := store, ops := s.ops - {op}), Refused(if r.Err? then r.error else Detached(o.id)))
    else (s, Silent)
  }

  // The request's future is dropped at an await.
  function DoAbandon(s: State, op: OpId): Outcome {
    if op in s.ops && !s.ops[op].Signalling?
    then (s.(ops := s.ops - {op}, accepted := if s.ops[op].Handing? then Placed(s, op, Lost) else s.accepted), Silent)
    else (s, Silent)
  }

  // ---- TaskManager::cancel, sweep_expired and signal_cancelled -------------------------------

  function DoBeginCancel(s: State, op: OpId, inst: Instance, id: TaskId): Outcome {
    if op.Sweeper? || op in s.used then (s, Silent)
    else
      var s' := s.(used := s.used + {op});
      var (store, r) := Transition(s.store, s.now, op.owner, id, CancelledPayload);
      match r
      case Err(e) => (s', Refused(e))
      case Ok(task) => (s'.(store := store, ops := s'.ops[op := Signalling(inst, {id}, {})]), Found(task))
  }

  function DoBeginSweep(s: State, op: OpId, inst: Instance): Outcome {
    if op.Client? || op in s.used then (s, Silent)
    else
      var removed := ExpiredIds(s.store, s.now);
      (s.(used := s.used + {op}, store := s.store - removed,
          ops := s.ops[op := Signalling(inst, removed, {})]), Silent)
  }

  function Fire(s: State, id: TaskId): State {
    if id in s.runs then s.(runs := s.runs[id := s.runs[id].(fired := true)]) else s
  }

  predicate ReachesRun(s: State, inst: Instance, id: TaskId) {
    id in s.runs && s.runs[id].Registered() && s.runs[id].inst == inst
  }

  function DoSignalLocal(s: State, op: OpId, id: TaskId): Outcome {
    if op in s.ops && s.ops[op].Signalling? && id in s.ops[op].toDeliver then
      var o := s.ops[op];
      if ReachesRun(s, o.inst, id)
      then (Fire(s, id).(ops := s.ops[op := o.(toDeliver := o.toDeliver - {id})]), Silent)
      else (s.(ops := s.ops[op := o.(toDeliver := o.toDeliver - {id}, toPublish := o.toPublish + {id})]), Silent)
    else (s, Silent)
  }

  function DoSignalPublish(s: State, op: OpId, id: TaskId, refused: bool): Outcome {
    if op in s.ops && s.ops[op].Signalling? && id in s.ops[op].toPublish then
      var o := s.ops[op];
      var s' := s.(ops := s.ops[op := o.(toPublish := o.toPublish - {id})]);
      if refused || o.inst !in s.cfg.bus then (s', Silent)
      else (s'.(bus := s.bus[MsgId(op, id) := Message(CancelledSignal(id), s.cfg.instances - {o.inst})]), Silent)
    else (s, Silent)
  }

  // ---- TaskManager::deliver: each instance is handed a published signal at most once ---------

  function DoDeliver(s: State, msg: MsgId, target: Instance): Outcome {
    if msg in s.bus && target in s.bus[msg].targets then
      var m := s.bus[msg];
      var s' := s.(bus := s.bus[msg := m.(targets := m.targets - {target})]);
      if !ReachesRun(s, target, m.signal.id) then (s', Silent)
      else
        match m.signal
        case CancelledSignal(id) => (Fire(s', id), Silent)
        case InputSignal(id, sent) => (Enqueue(s', id, sent), Silent)
    else (s, Silent)
  }

  // ---- TaskRun -------------------------------------------------------------------------------

  function DoRequestInput(s: State, id: TaskId, requests: Fields): Outcome {
    if id in s.runs && s.runs[id].phase == Live && s.runs[id].call == Idle then
      var (store, r) := Transition(s.store, s.now, s.runs[id].owner, id, InputRequiredPayload(requests));
      match r
      case Err(e) => (s, Refused(e))
      case Ok(_) => (s.(store := store, runs := s.runs[id := s.runs[id].(call := Waiting(requests))]), Silent)
    else (s, Silent)
  }

  // The biased select: the token first, then the channel.
  function DoPoll(s: State, id: TaskId): Outcome {
    if id in s.runs && s.runs[id].phase == Live && s.runs[id].call.Waiting? then
      var run := s.runs[id];
      if run.fired then
        (s.(runs := s.runs[id := run.(call := Idle)]), Refused(InvalidState(id, Cancelled)))
      else if run.queue == [] then (s, Silent)
      else
        var sent := run.queue[0];
        (s.(runs := s.runs[id := run.(queue := run.queue[1..], call := Idle,
                                      returned := run.returned + [Returned(run.call.requests, sent)])],
            accepted := Placed(s, sent.op, Delivered)), Answers(sent.responses))
    else (s, Silent)
  }

  // The operation drops the wait before it ended, and keeps the run.
  function DoForsake(s: State, id: TaskId): Outcome {
    if id in s.runs && s.runs[id].phase == Live
    then (s.(runs := s.runs[id := s.runs[id].(call := Idle)]), Silent)
    else (s, Silent)
  }

  // `complete` and `fail`, on the run or by id through any manager.
  function DoSettle(s: State, owner: Owner, id: TaskId, payload: Payload): Outcome {
    if payload.CompletedPayload? || payload.FailedPayload? then
      var (store, r) := Transition(s.store, s.now, owner, id, payload);
      (s.(store := store), ReplyOf(r))
    else (s, Silent)
  }

  function DoReleaseRun(s: State, id: TaskId): Outcome {
    if id in s.runs && s.runs[id].phase == Live
    then (s.(runs := s.runs[id := s.runs[id].(phase := Released)]), Silent)
    else (s, Silent)
  }

  function DoDropRun(s: State, id: TaskId): Outcome {
    if id in s.runs && s.runs[id].phase == Released
    then (s.(runs := s.runs[id := s.runs[id].(phase := Dropped)]), Silent)
    else (s, Silent)
  }

  function Step(s: State, e: Event): Outcome {
    match e
    case Tick(to) => (s.(now := to), Silent)
    case Create(inst, owner, id, ttlMs) => DoCreate(s, inst, owner, id, ttlMs)
    case Register(id) => DoRegister(s, id)
    case GetTask(owner, id) =>
      (s, match Lookup(s.store, s.now, owner, id) case Some(task) => Found(task) case None => Refused(NotFound(id)))
    case BeginUpdate(op, inst, id, responses) => DoBeginUpdate(s, op, inst, id, responses)
    case LookUpRun(op) => DoLookUpRun(s, op)
    case Accept(op) => DoAccept(s, op)
    case HandOver(op, refused) => DoHandOver(s, op, refused)
    case FailTask(op) => DoFailTask(s, op)
    case Abandon(op) => DoAbandon(s, op)
    case BeginCancel(op, inst, id) => DoBeginCancel(s, op, inst, id)
    case BeginSweep(op, inst) => DoBeginSweep(s, op, inst)
    case SignalLocal(op, id) => DoSignalLocal(s, op, id)
    case SignalPublish(op, id, refused) => DoSignalPublish(s, op, id, refused)
    case Deliver(msg, target) => DoDeliver(s, msg, target)
    case RequestInput(id, requests) => DoRequestInput(s, id, requests)
    case Poll(id) => DoPoll(s, id)
    case Forsake(id) => DoForsake(s, id)
    case Settle(owner, id, payload) => DoSettle(s, owner, id, payload)
    case ReleaseRun(id) => DoReleaseRun(s, id)
    case DropRun(id) => DoDropRun(s, id)
  }

  function Next(s: State, e: Event): State { Step(s, e).0 }

  function Exec(s: State, es: seq<Event>): State
    decreases |es|
  {
    if es == [] then s else Next(Exec(s, es[..|es|-1]), es[|es|-1])
  }
}
