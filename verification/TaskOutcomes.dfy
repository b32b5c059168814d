/**
 * What each operation on a task comes to, written out: what is stored, in numbers and literals, and what its caller is
 * told. Nothing here is said through the functions that compute it.
 */
module TaskOutcomes {
  import opened Wrappers
  import opened Json
  import opened TaskStore
  import opened TaskMachine
  import opened TaskSafety
  import opened TaskTheorems

  // The caller's own task, not older than its time-to-live, which is cut to 64 bits with a sign.
  predicate Sees(s: State, owner: Owner, id: TaskId) {
    && id in s.store && s.store[id].owner == owner
    && var task := s.store[id].detail.task;
       task.ttlMs.Some? ==>
         s.now - task.createdAt <= if task.ttlMs.value < 0x8000_0000_0000_0000 then task.ttlMs.value else 0x7FFF_FFFF_FFFF_FFFF
  }

  predicate Ended(status: Status) { status == Completed || status == Failed || status == Cancelled }

  // The task under `id` with another payload and status, seen to now; the rest of it, and of the store, as it was.
  predicate MovedTo(s: State, t: State, id: TaskId, payload: Payload, status: Status)
    requires id in s.store
  {
    var task := s.store[id].detail.task;
    t.store == s.store[id := Entry(s.store[id].owner,
                                   DetailedTask(Task(task.id, status, task.createdAt, s.now, task.ttlMs), payload))]
  }

  // Why a task does not move: the caller sees none, or sees it ended.
  function Refusal(s: State, owner: Owner, id: TaskId): TaskError {
    if Sees(s, owner, id) then InvalidState(id, s.store[id].detail.task.status) else NotFound(id)
  }

  /** Created and registered, a task is working, of this instant, and its run waits for nothing. */
  lemma CreateOutcome(s: State, inst: Instance, owner: Owner, id: TaskId, ttlMs: Option<nat>)
    requires id !in s.runs
    ensures var t := Next(Next(s, Create(inst, owner, id, ttlMs)), Register(id));
            && t.store == s.store[id := Entry(owner, DetailedTask(Task(id, Working, s.now, s.now, ttlMs), WorkingPayload))]
            && t.runs == s.runs[id := Run(inst, owner, Live, false, [], Idle, [])]
            && t == s.(store := t.store, runs := t.runs)
  {
    var t := Next(Next(s, Create(inst, owner, id, ttlMs)), Register(id));
    assert t.runs == s.runs[id := Run(inst, owner, Live, false, [], Idle, [])];
  }

  /** The wall clock shows what it is set to. */
  lemma TickOutcome(s: State, to: int)
    ensures Next(s, Tick(to)) == s.(now := to)
  {
  }

  /** A lookup shows the stored task to its owner until its time-to-live has passed, and changes nothing. */
  lemma GetOutcome(s: State, owner: Owner, id: TaskId)
    ensures Step(s, GetTask(owner, id)) == (s, if Sees(s, owner, id) then Found(s.store[id].detail) else Refused(NotFound(id)))
  {
  }

  /** An operation's result or error settles a task of its owner that has not ended, and nothing else does. */
  lemma SettleOutcome(s: State, owner: Owner, id: TaskId, payload: Payload)
    requires payload.CompletedPayload? || payload.FailedPayload?
    ensures var (t, reply) := Step(s, Settle(owner, id, payload));
            if Sees(s, owner, id) && !Ended(s.store[id].detail.task.status)
            then MovedTo(s, t, id, payload, if payload.CompletedPayload? then Completed else Failed)
                 && t == s.(store := t.store) && reply == Found(t.store[id].detail)
            else t == s && reply == Refused(Refusal(s, owner, id))
  {
  }

  /** An input call puts its requests to the client and waits; on a task that has ended it is refused. */
  lemma RequestInputOutcome(s: State, id: TaskId, requests: Fields)
    requires id in s.runs && s.runs[id].phase == Live && s.runs[id].call == Idle
    ensures var (t, reply) := Step(s, RequestInput(id, requests));
            var owner := s.runs[id].owner;
            if Sees(s, owner, id) && !Ended(s.store[id].detail.task.status)
            then MovedTo(s, t, id, InputRequiredPayload(requests), InputRequired)
                 && t == s.(store := t.store, runs := s.runs[id := s.runs[id].(call := Waiting(requests))])
            else t == s && reply == Refused(Refusal(s, owner, id))
  {
  }

  /** A cancel of a task that has not ended stores `cancelled`, with its signal to follow. */
  lemma CancelOutcome(s: State, op: OpId, at: Instance, id: TaskId)
    requires op.Client? && op !in s.used
    ensures var (t, reply) := Step(s, BeginCancel(op, at, id));
            if Sees(s, op.owner, id) && !Ended(s.store[id].detail.task.status)
            then MovedTo(s, t, id, CancelledPayload, Cancelled) && reply == Found(t.store[id].detail)
                 && t == s.(store := t.store, used := s.used + {op}, ops := s.ops[op := Signalling(at, {id}, {})])
            else t == s.(used := s.used + {op}) && reply == Refused(Refusal(s, op.owner, id))
  {
  }

  /** A sweep removes the tasks whose time-to-live has passed, whoever owns them, and leaves the others as they are. */
  lemma SweepOutcome(s: State, op: OpId, inst: Instance, id: TaskId)
    requires op.Sweeper? && op !in s.used && id in s.store
    ensures var t := Next(s, BeginSweep(op, inst));
            && (id in t.store <==> Sees(s, s.store[id].owner, id))
            && (id in t.store ==> t.store[id] == s.store[id])
            && op in t.ops && t.ops[op].Signalling? && (id in t.ops[op].toDeliver <==> id !in t.store)
            && t.runs == s.runs && t.bus == s.bus && t.accepted == s.accepted
  {
  }

  // ---- An update, from its first section to its last -----------------------------------------

  ghost predicate HasAnswersFor(requests: Fields, responses: Fields) {
    forall key :: key in requests <==> key in responses
  }

  // The three sections up to the task's return to `working`.
  function Taken(s: State, op: OpId, at: Instance, id: TaskId, responses: Fields): Outcome {
    var (s1, r1) := Step(s, BeginUpdate(op, at, id, responses));
    if r1.Refused? then (s1, r1)
    else
      var (s2, r2) := Step(s1, LookUpRun(op));
      if r2.Refused? then (s2, r2) else Step(s2, Accept(op))
  }

  // A live run of the task is in the instance's table.
  predicate RunsAt(s: State, at: Instance, id: TaskId) {
    id in s.runs && s.runs[id].phase == Live && s.runs[id].inst == at
  }

  function KeyFault(id: TaskId, requests: Fields, responses: Fields): Option<TaskError> {
    if exists key :: key in requests && key !in responses then Some(InvalidInput(id, MissingResponse))
    else if exists key :: key in responses && key !in requests then Some(InvalidInput(id, UnknownRequest))
    else None
  }

  // Why an update is refused, in the order the faults are looked for; none if it is taken.
  function UpdateFault(s: State, owner: Owner, at: Instance, id: TaskId, responses: Fields): Option<TaskError> {
    if !Sees(s, owner, id) then Some(NotFound(id))
    else if !RunsAt(s, at, id) && at !in s.cfg.bus then Some(Detached(id))
    else
      match s.store[id].detail.payload
      case InputRequiredPayload(requests) => KeyFault(id, requests, responses)
      case _ => Some(InvalidState(id, s.store[id].detail.task.status))
  }

  lemma CheckedOutcome(s: State, op: OpId, at: Instance, id: TaskId, responses: Fields)
    requires op.Client? && op !in s.used
    ensures var (t, reply) := Step(s, BeginUpdate(op, at, id, responses));
            if Sees(s, op.owner, id)
            then reply == Silent && t == s.(used := s.used + {op}, ops := s.ops[op := Checked(at, id, responses)])
            else reply == Refused(NotFound(id)) && t == s.(used := s.used + {op})
  {
  }

  lemma LookedOutcome(s: State, op: OpId)
    requires op in s.ops && s.ops[op].Checked?
    ensures var (t, reply) := Step(s, LookUpRun(op));
            var o := s.ops[op];
            if RunsAt(s, o.inst, o.id) || o.inst in s.cfg.bus
            then reply == Silent && t == s.(ops := s.ops[op := Looked(o.inst, o.id, o.responses, RunsAt(s, o.inst, o.id))])
            else reply == Refused(Detached(o.id)) && t == s.(ops := s.ops - {op})
  {
  }

  lemma AcceptedOutcome(s: State, op: OpId)
    requires op.Client? && op in s.ops && s.ops[op].Looked? && Sees(s, op.owner, s.ops[op].id)
    ensures var (t, reply) := Step(s, Accept(op));
            var o := s.ops[op];
            var fault := match s.store[o.id].detail.payload
                         case InputRequiredPayload(requests) => KeyFault(o.id, requests, o.responses)
                         case _ => Some(InvalidState(o.id, s.store[o.id].detail.task.status));
            && t.runs == s.runs && t.bus == s.bus
            && match fault
               case Some(f) => reply == Refused(f) && t == s.(ops := s.ops - {op})
               case None =>
                 && reply == Silent && MovedTo(s, t, o.id, WorkingPayload, Working)
                 && op in t.ops && t.ops[op] == Handing(o.inst, o.id, o.responses, o.local, t.store[o.id].detail)
  {
  }

  lemma SameRunsAt(s: State, t: State, at: Instance, id: TaskId)
    requires t.runs == s.runs
    ensures RunsAt(t, at, id) <==> RunsAt(s, at, id)
  {
  }

  /**
   * Whatever the client sends, its update is taken when it answers exactly what its own task asks for, and otherwise
   * refused for the first of its faults, with no task, run or signal changed.
   */
  lemma UpdateOutcome(s: State, op: OpId, at: Instance, id: TaskId, responses: Fields)
    requires op.Client? && op !in s.used && op !in s.ops
    ensures var (t, reply) := Taken(s, op, at, id, responses);
            && t.runs == s.runs && t.bus == s.bus
            && match UpdateFault(s, op.owner, at, id, responses)
               case Some(fault) =>
                 reply == Refused(fault) && t.store == s.store && t.accepted == s.accepted && t.ops == s.ops
               case None =>
                 && !reply.Refused? && MovedTo(s, t, id, WorkingPayload, Working)
                 && op in t.ops && t.ops[op] == Handing(at, id, responses, RunsAt(s, at, id), t.store[id].detail)
  {
    hide Step, KeyFault, RunsAt, Ended, MovedTo;
    CheckedOutcome(s, op, at, id, responses);
    if Sees(s, op.owner, id) {
      var s1 := s.(used := s.used + {op}, ops := s.ops[op := Checked(at, id, responses)]);
      LookedOutcome(s1, op);
      SameRunsAt(s, s1, at, id);
      if RunsAt(s, at, id) || at in s.cfg.bus {
        var s2 := s1.(ops := s1.ops[op := Looked(at, id, responses, RunsAt(s, at, id))]);
        assert Taken(s, op, at, id, responses) == Step(s2, Accept(op));
        hide Taken;
        TakenOrAtFault(s, s2, op, at, id, responses);
      }
    }
  }

  lemma TakenOrAtFault(s: State, s2: State, op: OpId, at: Instance, id: TaskId, responses: Fields)
    requires op.Client? && op !in s.ops && Sees(s, op.owner, id) && (RunsAt(s, at, id) || at in s.cfg.bus)
    requires s2 == s.(used := s.used + {op}, ops := s.ops[op := Looked(at, id, responses, RunsAt(s, at, id))])
    ensures var (t, reply) := Step(s2, Accept(op));
            && t.runs == s.runs && t.bus == s.bus
            && match UpdateFault(s, op.owner, at, id, responses)
               case Some(fault) =>
                 reply == Refused(fault) && t.store == s.store && t.accepted == s.accepted && t.ops == s.ops
               case None =>
                 && !reply.Refused? && MovedTo(s, t, id, WorkingPayload, Working)
                 && op in t.ops && t.ops[op] == Handing(at, id, responses, RunsAt(s, at, id), t.store[id].detail)
  {
    hide Step, KeyFault, RunsAt, Ended, MovedTo;
    AcceptedOutcome(s2, op);
    SameMove(s, s2, Step(s2, Accept(op)).0, id);
  }

  lemma SameMove(s: State, t: State, u: State, id: TaskId)
    requires t.store == s.store && t.now == s.now && id in s.store
    ensures MovedTo(s, u, id, WorkingPayload, Working) <==> MovedTo(t, u, id, WorkingPayload, Working)
  {
  }

  /** What becomes of the answers then: they reach the queue of the run, or the bus, or, with neither there, nobody. */
  lemma HandOverOutcome(s: State, op: OpId, refused: bool)
    requires op in s.ops && s.ops[op].Handing?
    ensures var (t, reply) := Step(s, HandOver(op, refused));
            var o := s.ops[op];
            && t.store == s.store
            && if o.local && o.id in s.runs && (s.runs[o.id].phase == Live || s.runs[o.id].phase == Released) then
                 && t.runs == s.runs[o.id := s.runs[o.id].(queue := s.runs[o.id].queue + [Sent(op, o.responses)])]
                 && t.bus == s.bus && reply == Found(o.working) && op !in t.ops
               else if !o.local && !refused then
                 && t.runs == s.runs && reply == Found(o.working) && op !in t.ops
                 && t.bus == s.bus[MsgId(op, o.id) :=
                              Message(InputSignal(o.id, Sent(op, o.responses)), s.cfg.instances - {o.inst})]
               else t.runs == s.runs && t.bus == s.bus && op in t.ops && t.ops[op] == Failing(o.inst, o.id, o.local)
  {
  }

  // The JSON-RPC error a task fails with when its answers reached nobody.
  function LossError(local: bool): Fields {
    map["code" := Num(NegInt(32603)),
        "message" := Str(if local then "task operation ended before receiving its input"
                         else "task input could not be carried to the instance running the operation")]
  }

  /**
   * Answers that reached nobody fail their task, unless it has ended or lapsed meanwhile, with a message that tells a
   * lost run from a refused bus; the client is told the task is detached.
   */
  lemma LossFailsTheTask(s: State, op: OpId)
    requires op.Client? && op in s.ops && s.ops[op].Failing?
    ensures var (t, reply) := Step(s, FailTask(op));
            var id := s.ops[op].id;
            && t.runs == s.runs && t.bus == s.bus && op !in t.ops
            && if Sees(s, op.owner, id) && !Ended(s.store[id].detail.task.status)
               then MovedTo(s, t, id, FailedPayload(LossError(s.ops[op].local)), Failed) && reply == Refused(Detached(id))
                    && Step(t, GetTask(op.owner, id)).1 == Found(t.store[id].detail)
               else t.store == s.store && reply == Refused(Refusal(s, op.owner, id))
  {
    hide Step, DoFailTask;
    LossStored(s, op);
    FailTaskIs(s, op);
    GetOutcome(DoFailTask(s, op).0, op.owner, s.ops[op].id);
  }

  lemma FailTaskIs(s: State, op: OpId)
    ensures Step(s, FailTask(op)) == DoFailTask(s, op)
  {
    hide DoFailTask;
  }

  lemma LossStored(s: State, op: OpId)
    requires op.Client? && op in s.ops && s.ops[op].Failing?
    ensures var (t, reply) := DoFailTask(s, op);
            var id := s.ops[op].id;
            && t.runs == s.runs && t.bus == s.bus && t.now == s.now && op !in t.ops
            && if Sees(s, op.owner, id) && !Ended(s.store[id].detail.task.status)
               then MovedTo(s, t, id, FailedPayload(LossError(s.ops[op].local)), Failed) && reply == Refused(Detached(id))
               else t.store == s.store && reply == Refused(Refusal(s, op.owner, id))
  {
  }

  /** So it goes when the operation ends between the update's lookup and its hand-over. */
  lemma RunLostInBetween(s: State, op: OpId, at: Instance, id: TaskId, requests: Fields, responses: Fields)
    requires op.Client? && op !in s.used && op !in s.ops && WaitsFor(s, at, op.owner, id, requests)
    requires HasAnswersFor(requests, responses)
    ensures var taken := Taken(s, op, at, id, responses).0;
            var gone := Next(Next(taken, ReleaseRun(id)), DropRun(id));
            var (t, reply) := Step(Next(gone, HandOver(op, false)), FailTask(op));
            && MovedTo(s, t, id, FailedPayload(LossError(true)), Failed) && reply == Refused(Detached(id))
  {
    hide Step;
    UpdateOutcome(s, op, at, id, responses);
    var taken := Taken(s, op, at, id, responses).0;
    TakenKeepsClock(s, op, at, id, responses);
    hide Taken;
    assert UpdateFault(s, op.owner, at, id, responses) == None;
    RunGoes(taken, id);
    var gone := Next(Next(taken, ReleaseRun(id)), DropRun(id));
    HandOverOutcome(gone, op, false);
    HandOverKeepsClock(gone, op, false);
    LossFailsTheTask(Next(gone, HandOver(op, false)), op);
  }

  lemma TakenKeepsClock(s: State, op: OpId, at: Instance, id: TaskId, responses: Fields)
    ensures Taken(s, op, at, id, responses).0.now == s.now
  {
  }

  lemma HandOverKeepsClock(s: State, op: OpId, refused: bool)
    ensures Next(s, HandOver(op, refused)).now == s.now
  {
  }

  lemma RunGoes(s: State, id: TaskId)
    requires id in s.runs && s.runs[id].phase == Live
    ensures var t := Next(Next(s, ReleaseRun(id)), DropRun(id));
            t == s.(runs := s.runs[id := s.runs[id].(phase := Dropped)])
  {
    assert s.runs[id := s.runs[id].(phase := Released)][id := s.runs[id].(phase := Dropped)]
        == s.runs[id := s.runs[id].(phase := Dropped)];
  }

  /** A delivered signal fires the token of the live run at its target, or joins its queue; elsewhere it is lost. */
  lemma DeliverOutcome(s: State, msg: MsgId, target: Instance)
    requires msg in s.bus && target in s.bus[msg].targets
    ensures var t := Next(s, Deliver(msg, target));
            var signal := s.bus[msg].signal;
            && t.store == s.store && t.ops == s.ops
            && t.bus == s.bus[msg := Message(signal, s.bus[msg].targets - {target})]
            && t.runs == if !RunsAt(s, target, signal.id) then s.runs
                         else if signal.CancelledSignal? then s.runs[signal.id := s.runs[signal.id].(fired := true)]
                         else s.runs[signal.id := s.runs[signal.id].(queue := s.runs[signal.id].queue + [signal.sent])]
  {
    hide Step, DoDeliver;
    assert Step(s, Deliver(msg, target)) == DoDeliver(s, msg, target) by { DeliverIs(s, msg, target); }
    SignalArrives(s, msg, target);
  }

  lemma DeliverIs(s: State, msg: MsgId, target: Instance)
    ensures Step(s, Deliver(msg, target)) == DoDeliver(s, msg, target)
  {
    hide DoDeliver;
  }

  lemma SignalArrives(s: State, msg: MsgId, target: Instance)
    requires msg in s.bus && target in s.bus[msg].targets
    ensures var t := DoDeliver(s, msg, target).0;
            var signal := s.bus[msg].signal;
            && t.store == s.store && t.ops == s.ops
            && t.bus == s.bus[msg := Message(signal, s.bus[msg].targets - {target})]
            && t.runs == if !RunsAt(s, target, signal.id) then s.runs
                         else if signal.CancelledSignal? then s.runs[signal.id := s.runs[signal.id].(fired := true)]
                         else s.runs[signal.id := s.runs[signal.id].(queue := s.runs[signal.id].queue + [signal.sent])]
  {
  }

  /** A waiting call ends cancelled once its token has fired, and else takes the first answers queued, if any. */
  lemma PollOutcome(s: State, id: TaskId)
    requires id in s.runs && s.runs[id].phase == Live && s.runs[id].call.Waiting?
    ensures var (t, reply) := Step(s, Poll(id));
            var run := s.runs[id];
            && t.store == s.store && t.bus == s.bus && t.ops == s.ops
            && if run.fired then reply == Refused(InvalidState(id, Cancelled)) && t.runs == s.runs[id := run.(call := Idle)]
               else if run.queue == [] then reply == Silent && t == s
               else reply == Answers(run.queue[0].responses)
                    && t.runs == s.runs[id := run.(queue := run.queue[1..], call := Idle,
                                          returned := run.returned + [Returned(run.call.requests, run.queue[0])])]
  {
  }

  /** The signal of a cancel or a sweep fires the token here, once, or else is left to be published. */
  lemma SignalOutcome(s: State, op: OpId, id: TaskId)
    requires op in s.ops && s.ops[op].Signalling? && id in s.ops[op].toDeliver
    ensures var t := Next(s, SignalLocal(op, id));
            var o := s.ops[op];
            && t == s.(runs := t.runs, ops := t.ops)
            && if RunsAt(s, o.inst, id)
               then t.runs == s.runs[id := s.runs[id].(fired := true)]
                    && t.ops == s.ops[op := Signalling(o.inst, o.toDeliver - {id}, o.toPublish)]
               else t.runs == s.runs && t.ops == s.ops[op := Signalling(o.inst, o.toDeliver - {id}, o.toPublish + {id})]
  {
  }

  /** Published, it goes to every other instance, once, if there is a bus and the bus takes it. */
  lemma PublishOutcome(s: State, op: OpId, id: TaskId, refused: bool)
    requires op in s.ops && s.ops[op].Signalling? && id in s.ops[op].toPublish
    ensures var t := Next(s, SignalPublish(op, id, refused));
            var o := s.ops[op];
            && t == s.(bus := t.bus, ops := s.ops[op := Signalling(o.inst, o.toDeliver, o.toPublish - {id})])
            && t.bus == if refused || o.inst !in s.cfg.bus then s.bus
                        else s.bus[MsgId(op, id) := Message(CancelledSignal(id), s.cfg.instances - {o.inst})]
  {
  }

  /** A client that goes away in the middle of its update leaves the task as it is; answers it had in hand are lost. */
  lemma AbandonOutcome(s: State, op: OpId)
    requires op in s.ops && !s.ops[op].Signalling? && (s.ops[op].Handing? ==> op in s.accepted)
    ensures var t := Next(s, Abandon(op));
            && t == s.(ops := s.ops - {op}, accepted := t.accepted)
            && t.accepted == if s.ops[op].Handing? then s.accepted[op := s.accepted[op].(place := Lost)] else s.accepted
  {
  }

  /** A run leaves its table, its end of the channel goes, and a wait may be abandoned before; each once, and no more. */
  lemma RunOutcome(s: State, id: TaskId)
    requires id in s.runs
    ensures Next(s, ReleaseRun(id)) ==
              if s.runs[id].phase == Live then s.(runs := s.runs[id := s.runs[id].(phase := Released)]) else s
    ensures Next(s, DropRun(id)) ==
              if s.runs[id].phase == Released then s.(runs := s.runs[id := s.runs[id].(phase := Dropped)]) else s
    ensures Next(s, Forsake(id)) ==
              if s.runs[id].phase == Live then s.(runs := s.runs[id := s.runs[id].(call := Idle)]) else s
  {
  }

  // ---- Over every run --------------------------------------------------------------------------

  // What a step may change of a stored task: its payload with its status, and when it was last updated.
  ghost predicate SameOrigin(s: State, t: State, id: TaskId)
    requires id in s.store
  {
    id in t.store ==>
      && t.store[id].owner == s.store[id].owner
      && t.store[id].detail.task.id == s.store[id].detail.task.id
      && t.store[id].detail.task.createdAt == s.store[id].detail.task.createdAt
      && t.store[id].detail.task.ttlMs == s.store[id].detail.task.ttlMs
  }

  lemma OriginStep(s: State, e: Event, id: TaskId)
    requires Inv(s) && id in s.store
    ensures SameOrigin(s, Next(s, e), id)
    ensures id in Next(s, e).store && Next(s, e).store[id] != s.store[id] ==>
              Next(s, e).store[id].detail.task.lastUpdatedAt == s.now && Sees(s, s.store[id].owner, id)
    ensures id !in Next(s, e).store ==> e.BeginSweep? && !Sees(s, s.store[id].owner, id)
  {
    hide Inv, ValidateKeys, HandOverError;
    hide DoRegister, DoBeginUpdate, DoLookUpRun, DoHandOver, DoAbandon, DoSignalLocal, DoSignalPublish, DoDeliver, DoPoll,
         DoForsake, DoReleaseRun, DoDropRun;
    StoreFacts(s, id);
    if LeavesStore(e) {
      StoreIsLeft(s, e);
    }
  }

  /**
   * Over any continuation a task keeps its owner, its time of creation and its time-to-live, and it goes only by a sweep
   * that finds the one to have passed since the other.
   */
  lemma {:induction false} TaskKeepsItsOrigin(cfg: Config, now: int, es: seq<Event>, id: TaskId, later: seq<Event>)
    requires id in Reached(cfg, now, es).store
    ensures SameOrigin(Reached(cfg, now, es), Exec(Reached(cfg, now, es), later), id)
    ensures id in Exec(Reached(cfg, now, es), later).runs
    decreases |later|
  {
    hide Inv, Next;
    var s := Reached(cfg, now, es);
    ReachedInv(cfg, now, es);
    if later == [] {
      StoreFacts(s, id);
    } else {
      var t := Exec(s, later[..|later|-1]);
      TaskKeepsItsOrigin(cfg, now, es, id, later[..|later|-1]);
      RunInv(s, later[..|later|-1]);
      RunsStay(t, later[|later|-1], id);
      if id in t.store {
        OriginStep(t, later[|later|-1], id);
      } else {
        RemovedStep(t, later[|later|-1], id);
      }
    }
  }
}
