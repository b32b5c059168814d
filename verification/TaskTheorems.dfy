/** The task engine's guarantees over every run, and what its operations achieve. */
module TaskTheorems {
  import opened Wrappers
  import opened Json
  import opened TaskStore
  import opened TaskMachine
  import opened TaskSafety
  import opened TaskCalls

  function Reached(cfg: Config, now: int, es: seq<Event>): State {
    Exec(Init(cfg, now), es)
  }

  lemma {:induction false} ReachedInv(cfg: Config, now: int, es: seq<Event>)
    ensures Inv(Reached(cfg, now, es))
    decreases |es|
  {
    if es != [] {
      ReachedInv(cfg, now, es[..|es|-1]);
      InvStep(Reached(cfg, now, es[..|es|-1]), es[|es|-1]);
    }
  }

  lemma {:induction false} ReachedCalls(cfg: Config, now: int, es: seq<Event>, id: TaskId)
    requires forall e :: e in es ==> Awaited(id, e)
    ensures CallsOk(id, Reached(cfg, now, es))
    decreases |es|
  {
    if es != [] {
      ReachedCalls(cfg, now, es[..|es|-1], id);
      ReachedInv(cfg, now, es[..|es|-1]);
      CallsStep(id, Reached(cfg, now, es[..|es|-1]), es[|es|-1]);
    }
  }

  /**
   * Whatever interleaves, other operations' abandoned waits among it: as long as an operation waits out its own
   * input calls, every one that returned answers returned ones for exactly the keys it had recorded.
   */
  lemma AnswersMatchTheirCall(cfg: Config, now: int, es: seq<Event>, id: TaskId, i: nat)
    requires forall e :: e in es ==> Awaited(id, e)
    requires id in Reached(cfg, now, es).runs && i < |Reached(cfg, now, es).runs[id].returned|
    ensures var r := Reached(cfg, now, es).runs[id].returned[i];
            r.requests.Keys == r.sent.responses.Keys
  {
    ReachedCalls(cfg, now, es, id);
  }

  /** Every returned answer is an accepted `tasks/update` of the task's owner, and none is returned twice. */
  lemma UpdatesReturnAtMostOnce(cfg: Config, now: int, es: seq<Event>, x: TaskId, i: nat, y: TaskId, j: nat)
    requires var s := Reached(cfg, now, es);
             && x in s.runs && i < |s.runs[x].returned| && y in s.runs && j < |s.runs[y].returned|
    ensures var s := Reached(cfg, now, es);
            var sent := s.runs[x].returned[i].sent;
            && sent.op in s.accepted && s.accepted[sent.op].id == x && s.accepted[sent.op].responses == sent.responses
            && sent.op.Client? && sent.op.owner == s.runs[x].owner
            && ((x, i) != (y, j) ==> sent.op != s.runs[y].returned[j].sent.op)
  {
    ReachedInv(cfg, now, es);
    var s := Reached(cfg, now, es);
    assert RunOk(s.accepted, x, s.runs[x]);
    assert RunOk(s.accepted, y, s.runs[y]);
    assert Carries(s.accepted, x, s.runs[x].returned[i].sent, Delivered);
    assert Carries(s.accepted, y, s.runs[y].returned[j].sent, Delivered);
  }

  /** Once a run's token has fired, its task is cancelled or gone, and nothing settles it any more. */
  lemma FiredTokenIsFinal(cfg: Config, now: int, es: seq<Event>, id: TaskId, owner: Owner, payload: Payload)
    requires var s := Reached(cfg, now, es); id in s.runs && s.runs[id].fired
    requires payload.CompletedPayload? || payload.FailedPayload?
    ensures var s := Reached(cfg, now, es);
            && (id in s.store ==> s.store[id].detail.task.status == Cancelled)
            && Step(s, Settle(owner, id, payload)).0 == s
            && Step(s, Settle(owner, id, payload)).1.Refused?
  {
    ReachedInv(cfg, now, es);
    var s := Reached(cfg, now, es);
    assert Gone(s.store, s.runs, id);
    assert s.(store := s.store) == s;
  }

  // A stored terminal task stays as it is, unless a sweep finds it expired and removes it for good.
  ghost predicate KeptOrSwept(s: State, t: State, id: TaskId)
    requires id in s.store
  {
    id in t.store ==> t.store[id] == s.store[id]
  }

  lemma TerminalStep(s: State, e: Event, id: TaskId)
    requires Inv(s) && id in s.store && s.store[id].detail.payload.Status().IsTerminal()
    ensures KeptOrSwept(s, Next(s, e), id)
    ensures id !in Next(s, e).store ==> e.BeginSweep? && IsExpired(s.store[id].detail.task, s.now)
  {
    hide Inv, ValidateKeys, HandOverError;
    hide DoRegister, DoBeginUpdate, DoLookUpRun, DoHandOver, DoAbandon, DoSignalLocal, DoSignalPublish, DoDeliver, DoPoll,
         DoForsake, DoReleaseRun, DoDropRun;
    StoreFacts(s, id);
    if LeavesStore(e) {
      StoreIsLeft(s, e);
    }
  }

  lemma RemovedStep(s: State, e: Event, id: TaskId)
    requires id in s.runs && id !in s.store
    ensures id !in Next(s, e).store
  {
    hide Answered, Moved, ValidateKeys, HandOverError, ExpiredIds;
    hide DoRegister, DoBeginUpdate, DoLookUpRun, DoHandOver, DoAbandon, DoSignalLocal, DoSignalPublish, DoDeliver, DoPoll,
         DoForsake, DoReleaseRun, DoDropRun;
    if LeavesStore(e) {
      StoreIsLeft(s, e);
    }
  }

  // The sections that touch a run, an operation or the bus alone.
  predicate LeavesStore(e: Event) {
    e.Tick? || e.GetTask? || e.Register? || e.BeginUpdate? || e.LookUpRun? || e.HandOver? || e.Abandon? || e.SignalLocal?
    || e.SignalPublish? || e.Deliver? || e.Poll? || e.Forsake? || e.ReleaseRun? || e.DropRun?
  }

  lemma StoreIsLeft(s: State, e: Event)
    requires LeavesStore(e)
    ensures Next(s, e).store == s.store
  {
    hide ReachesRun, Lookup, HandOverError;
  }

  lemma {:induction false} RunInv(s: State, es: seq<Event>)
    requires Inv(s)
    ensures Inv(Exec(s, es))
    decreases |es|
  {
    if es != [] {
      RunInv(s, es[..|es|-1]);
      InvStep(Exec(s, es[..|es|-1]), es[|es|-1]);
    }
  }

  /** From any reachable state on: a terminal task keeps its owner, status and payload until it is swept. */
  lemma {:induction false} TerminalIsFinal(cfg: Config, now: int, es: seq<Event>, id: TaskId, later: seq<Event>)
    requires var s := Reached(cfg, now, es); id in s.store && s.store[id].detail.payload.Status().IsTerminal()
    ensures var s := Reached(cfg, now, es); KeptOrSwept(s, Exec(s, later), id) && id in Exec(s, later).runs
    decreases |later|
  {
    var s := Reached(cfg, now, es);
    ReachedInv(cfg, now, es);
    if later == [] {
      StoreFacts(s, id);
    } else {
      var t := Exec(s, later[..|later|-1]);
      TerminalIsFinal(cfg, now, es, id, later[..|later|-1]);
      RunsStay(t, later[|later|-1], id);
      RunInv(s, later[..|later|-1]);
      if id in t.store {
        TerminalStep(t, later[|later|-1], id);
      } else {
        RemovedStep(t, later[|later|-1], id);
      }
    }
  }

  lemma CreateAdds(s: State, e: Event, id: TaskId)
    requires e.Create? && id in s.runs
    ensures id in DoCreate(s, e.inst, e.owner, e.id, e.ttlMs).0.runs
  {
  }

  lemma RunsStay(s: State, e: Event, id: TaskId)
    requires id in s.runs
    ensures id in Next(s, e).runs
  {
    hide Transition, AcceptInput, Lookup, ValidateKeys, HandOverError, ExpiredIds, ReachesRun, DoCreate;
    if e.Create? {
      hide DoHandOver, DoDeliver, DoPoll;
      CreateAdds(s, e, id);
    }
  }

  // A section of the `tasks/update` that `op` carries.
  predicate UpdateSection(e: Event, op: OpId) {
    match e
    case BeginUpdate(k, _, _, _) => k == op
    case LookUpRun(k) => k == op
    case Accept(k) => k == op
    case HandOver(k, _) => k == op
    case FailTask(k) => k == op
    case _ => false
  }

  predicate SameTasks(s: State, t: State) {
    s.store == t.store && s.runs == t.runs && s.bus == t.bus && s.accepted == t.accepted
  }

  // The caller can no longer move the task: it does not see one, or sees it ended.
  predicate OutOfReach(s: State, owner: Owner, id: TaskId) {
    match Lookup(s.store, s.now, owner, id)
    case None => true
    case Some(task) => task.task.status.IsTerminal()
  }

  /**
   * Whatever happened between its sections, a `tasks/update` that is refused has changed nothing at all, or
   * leaves its task ended or invisible to the caller; one that is acknowledged has its answers queued at the
   * operation or on the bus.
   */
  lemma UpdateStrandsNoTask(cfg: Config, now: int, es: seq<Event>, e: Event, op: OpId)
    requires UpdateSection(e, op) && op.Client?
    ensures var s := Reached(cfg, now, es);
            var (t, reply) := Step(s, e);
            && (reply.Refused? ==>
                  || (op !in t.accepted && SameTasks(s, t))
                  || (e.FailTask? && OutOfReach(t, op.owner, s.ops[op].id)))
            && (reply.Found? ==> op in t.accepted && t.accepted[op].place in {Queued, OnBus})
            && (op !in t.accepted ==> SameTasks(s, t))
  {
    hide Inv, ValidateKeys, HandOverError, DoCreate, DoRegister, DoAbandon, DoBeginCancel, DoBeginSweep, DoSignalLocal,
         DoSignalPublish, DoDeliver, DoRequestInput, DoPoll, DoForsake, DoSettle, DoReleaseRun, DoDropRun;
    ReachedInv(cfg, now, es);
    var s := Reached(cfg, now, es);
    OpFacts(s, op);
    UsedFacts(s, op);
    if e.FailTask? && op in s.ops && s.ops[op].Failing? {
      StoreFacts(s, s.ops[op].id);
    }
  }

  lemma UsedFacts(s: State, op: OpId)
    requires Inv(s)
    ensures op in s.accepted ==> op in s.used
  {
  }

  // ---- What the operations achieve -----------------------------------------------------------

  // `id`'s operation waits on instance `inst` for the answers to `requests`.
  ghost predicate WaitsFor(s: State, inst: Instance, owner: Owner, id: TaskId, requests: Fields) {
    && id in s.runs && s.runs[id].phase == Live && s.runs[id].inst == inst && s.runs[id].owner == owner
    && s.runs[id].call == Waiting(requests) && !s.runs[id].fired && s.runs[id].queue == []
    && Lookup(s.store, s.now, owner, id).Some?
    && s.store[id].detail.payload == InputRequiredPayload(requests)
  }

  // The store, the runs and the bus once `op`'s update has been checked, looked up and accepted at `at`.
  function TakenUpdate(s: State, op: OpId, at: Instance, id: TaskId, responses: Fields): State {
    DoAccept(DoLookUpRun(DoBeginUpdate(s, op, at, id, responses).0, op).0, op).0
  }

  // Accepting moves the task back to `working` and touches nothing else but the records of the call.
  lemma TakenUpdateIs(s: State, inst: Instance, at: Instance, op: OpId, id: TaskId, requests: Fields, responses: Fields)
    requires op.Client? && op !in s.used && WaitsFor(s, inst, op.owner, id, requests)
    requires responses.Keys == requests.Keys && (at != inst ==> at in s.cfg.bus)
    ensures var t := TakenUpdate(s, op, at, id, responses);
            && t.runs == s.runs && t.bus == s.bus && t.now == s.now && t.cfg == s.cfg
            && t.accepted == s.accepted[op := Accepted(id, responses, InOp)]
            && id in t.store && t.store == s.store[id := t.store[id]]
            && Lookup(t.store, t.now, op.owner, id) == Some(t.store[id].detail)
            && t.store[id].detail == Detailed(s.store[id].detail.task.(lastUpdatedAt := s.now), WorkingPayload)
            && op in t.ops && t.ops[op] == Handing(at, id, responses, at == inst, t.store[id].detail)
  {
    var s1 := DoBeginUpdate(s, op, at, id, responses).0;
    var s2 := DoLookUpRun(s1, op).0;
    assert s2.ops[op] == Looked(at, id, responses, at == inst);
  }

  /** An update answering every request reaches the waiting operation when it arrives at its instance. */
  lemma LocalUpdateArrives(s: State, inst: Instance, op: OpId, id: TaskId, requests: Fields, responses: Fields)
    requires op.Client? && op !in s.used && WaitsFor(s, inst, op.owner, id, requests)
    requires responses.Keys == requests.Keys
    ensures var (handed, ack) := DoHandOver(TakenUpdate(s, op, inst, id, responses), op, false);
            && id in handed.store && ack == Found(handed.store[id].detail)
            && handed.store[id].detail.payload == WorkingPayload
            && DoPoll(handed, id).1 == Answers(responses)
  {
    TakenUpdateIs(s, inst, inst, op, id, requests, responses);
    hide TakenUpdate;
  }

  /** One that arrives at another instance reaches it over the bus, when both instances are on it. */
  lemma RemoteUpdateArrives(s: State, inst: Instance, at: Instance, op: OpId, id: TaskId,
                            requests: Fields, responses: Fields)
    requires op.Client? && op !in s.used && WaitsFor(s, inst, op.owner, id, requests)
    requires responses.Keys == requests.Keys
    requires at != inst && at in s.cfg.bus && inst in s.cfg.instances
    ensures var (sent, ack) := DoHandOver(TakenUpdate(s, op, at, id, responses), op, false);
            && id in sent.store && ack == Found(sent.store[id].detail)
            && sent.store[id].detail.payload == WorkingPayload
            && DoPoll(DoDeliver(sent, MsgId(op, id), inst).0, id).1 == Answers(responses)
  {
    TakenUpdateIs(s, inst, at, op, id, requests, responses);
    hide TakenUpdate;
  }

  /** The keys decide: an update is taken exactly when it answers every request and nothing else. */
  lemma UpdateIsTakenIffKeysMatch(s: State, inst: Instance, op: OpId, id: TaskId, requests: Fields, responses: Fields)
    requires op.Client? && op !in s.used && op !in s.accepted && WaitsFor(s, inst, op.owner, id, requests)
    ensures var (t, reply) := DoAccept(DoLookUpRun(DoBeginUpdate(s, op, inst, id, responses).0, op).0, op);
            && (op in t.accepted <==> responses.Keys == requests.Keys)
            && (responses.Keys != requests.Keys ==>
                  && SameTasks(s, t)
                  && reply == Refused(InvalidInput(id, if requests.Keys <= responses.Keys then UnknownRequest
                                                       else MissingResponse)))
  {
    var s1 := DoBeginUpdate(s, op, inst, id, responses).0;
    var s2 := DoLookUpRun(s1, op).0;
    assert s2.ops[op] == Looked(inst, id, responses, true);
  }

  /** An update for a task nothing here runs, with no bus to carry it, leaves the task awaiting input. */
  lemma DetachedUpdateChangesNothing(s: State, at: Instance, op: OpId, id: TaskId, responses: Fields)
    requires op.Client? && op !in s.used && Lookup(s.store, s.now, op.owner, id).Some?
    requires !ReachesRun(s, at, id) && at !in s.cfg.bus
    ensures var (t, reply) := DoLookUpRun(DoBeginUpdate(s, op, at, id, responses).0, op);
            reply == Refused(Detached(id)) && SameTasks(s, t)
  {
  }

  /** A cancel is recorded, and is left to be signalled to the operation. */
  lemma CancelIsRecorded(s: State, at: Instance, op: OpId, id: TaskId)
    requires op.Client? && op !in s.used
    requires Lookup(s.store, s.now, op.owner, id).Some? && !s.store[id].detail.task.status.IsTerminal()
    ensures var (t, ack) := DoBeginCancel(s, op, at, id);
            && id in t.store && ack == Found(t.store[id].detail) && t.store[id].detail.payload == CancelledPayload
            && t.runs == s.runs && t.cfg == s.cfg && op in t.ops && t.ops[op] == Signalling(at, {id}, {})
  {
  }

  /** The signal fires the token where the operation runs, and gets there over the bus from elsewhere. */
  lemma SignalFiresToken(s: State, inst: Instance, at: Instance, op: OpId, id: TaskId)
    requires op in s.ops && s.ops[op] == Signalling(at, {id}, {})
    requires id in s.runs && s.runs[id].phase == Live && s.runs[id].inst == inst
    requires at != inst ==> at in s.cfg.bus && inst in s.cfg.instances
    ensures var local := DoSignalLocal(s, op, id).0;
            var t := if at == inst then local
                     else DoDeliver(DoSignalPublish(local, op, id, false).0, MsgId(op, id), inst).0;
            && id in t.runs && t.runs[id].fired
            && (t.runs[id].call.Waiting? ==> DoPoll(t, id).1 == Refused(InvalidState(id, Cancelled)))
  {
    var s2 := DoSignalLocal(s, op, id).0;
    if at != inst {
      assert s2.ops[op] == Signalling(at, {}, {id});
      var s3 := DoSignalPublish(s2, op, id, false).0;
      assert s3.bus[MsgId(op, id)] == Message(CancelledSignal(id), s.cfg.instances - {at});
    }
  }

  /** A sweep removes exactly the expired tasks, and fires the token of one whose operation runs where it sweeps. */
  lemma SweepEndsExpired(s: State, inst: Instance, op: OpId, id: TaskId)
    requires op.Sweeper? && op !in s.used && id in s.store && IsExpired(s.store[id].detail.task, s.now)
    requires ReachesRun(s, inst, id)
    ensures var swept := DoBeginSweep(s, op, inst).0;
            && (forall x :: x in swept.store <==> x in s.store && !IsExpired(s.store[x].detail.task, s.now))
            && DoSignalLocal(swept, op, id).0.runs[id].fired
  {
  }

  /** A task still open settles with what its operation gives it. */
  lemma OpenTaskSettles(s: State, owner: Owner, id: TaskId, payload: Payload)
    requires payload.CompletedPayload? || payload.FailedPayload?
    requires Lookup(s.store, s.now, owner, id).Some? && !s.store[id].detail.task.status.IsTerminal()
    ensures var (t, reply) := DoSettle(s, owner, id, payload);
            && id in t.store && reply == Found(t.store[id].detail) && t.store[id].detail.payload == payload
            && t.store[id].detail.task.status == payload.Status() && t.store[id].owner == owner
            && t.store - {id} == s.store - {id}
  {
  }

  /** A new task waits to run, is visible to its owner alone, and asks through its operation. */
  lemma CreatedTaskAsks(s: State, inst: Instance, owner: Owner, id: TaskId, ttlMs: Option<nat>, requests: Fields)
    requires id !in s.runs
    ensures var t := DoRequestInput(DoRegister(DoCreate(s, inst, owner, id, ttlMs).0, id).0, id, requests).0;
            && (forall other :: other != owner ==> Lookup(t.store, t.now, other, id) == None)
            && WaitsFor(t, inst, owner, id, requests)
  {
  }

  /**
   * Waiting each call out is needed. From any state where an operation waits, an update that is taken, an
   * abandoned wait and a new call with other keys make that new call return the old call's answers.
   */
  lemma ForsakenCallIsMisanswered(s: State, inst: Instance, op: OpId, id: TaskId,
                                  requests: Fields, responses: Fields, others: Fields)
    requires op.Client? && op !in s.used && WaitsFor(s, inst, op.owner, id, requests)
    requires responses.Keys == requests.Keys && others.Keys != requests.Keys
    ensures var asked := DoRequestInput(DoForsake(TakenUpdate(s, op, inst, id, responses), id).0, id, others).0;
            var handed := DoHandOver(asked, op, false).0;
            && id in handed.runs && handed.runs[id].call == Waiting(others)
            && DoPoll(handed, id).1 == Answers(responses) && responses.Keys != others.Keys
  {
    TakenUpdateIs(s, inst, inst, op, id, requests, responses);
    hide TakenUpdate, AcceptInput, ValidateKeys;
    var taken := TakenUpdate(s, op, inst, id, responses);
    var forsaken := DoForsake(taken, id).0;
    assert forsaken.runs[id].call == Idle && forsaken.store == taken.store;
    var asked := DoRequestInput(forsaken, id, others).0;
    assert asked.runs[id].call == Waiting(others) && asked.ops == taken.ops;
  }
}
