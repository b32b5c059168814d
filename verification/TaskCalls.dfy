/**
 * What an operation that waits out each of its input calls is told: the answers to the very requests
 * that call recorded, and no update twice.
 */
module TaskCalls {
  import opened Wrappers
  import opened Json
  import opened TaskStore
  import opened TaskMachine
  import opened TaskSafety

  // The update has been accepted and may still reach the operation.
  predicate Undelivered(a: Accepted) {
    a.place == InOp || a.place == OnBus || a.place == Queued
  }

  predicate Settled(store: Entries, id: TaskId) {
    id in store ==> store[id].detail.payload.Status().IsTerminal()
  }

  // An update still on its way answers what its operation is waiting for.
  predicate AnswersCall(store: Entries, runs: Runs, a: Accepted) {
    a.id in runs &&
    match runs[a.id].call
    case Idle => Settled(store, a.id)
    case Waiting(requests) => a.responses.Keys == requests.Keys
  }

  ghost predicate UpdatesFit(me: TaskId, store: Entries, runs: Runs, accepted: Updates) {
    forall k :: k in accepted && Undelivered(accepted[k]) && accepted[k].id == me ==> AnswersCall(store, runs, accepted[k])
  }

  // Awaiting input, the task is one whose operation waits for it, with no update on its way.
  ghost predicate AskFits(me: TaskId, store: Entries, runs: Runs, accepted: Updates) {
    me in store && store[me].detail.payload.InputRequiredPayload? ==>
      && me in runs && runs[me].call == Waiting(store[me].detail.payload.requests)
      && forall k :: k in accepted && Undelivered(accepted[k]) ==> accepted[k].id != me
  }

  // One update at a time is on its way to the operation.
  ghost predicate OneUpdate(me: TaskId, accepted: Updates) {
    forall k, l ::
      (k in accepted && l in accepted && Undelivered(accepted[k]) && Undelivered(accepted[l])
       && accepted[k].id == me && accepted[l].id == me) ==> k == l
  }

  ghost predicate ReturnsFit(me: TaskId, runs: Runs) {
    forall i :: me in runs && 0 <= i < |runs[me].returned| ==>
      runs[me].returned[i].requests.Keys == runs[me].returned[i].sent.responses.Keys
  }

  ghost predicate CallsFit(me: TaskId, store: Entries, runs: Runs, accepted: Updates) {
    && UpdatesFit(me, store, runs, accepted)
    && AskFits(me, store, runs, accepted)
    && OneUpdate(me, accepted)
    && ReturnsFit(me, runs)
  }

  ghost predicate CallsOk(me: TaskId, s: State) {
    CallsFit(me, s.store, s.runs, s.accepted)
  }

  // Every input call of `me` runs to its end, whatever the operations of other tasks do.
  predicate Awaited(me: TaskId, e: Event) {
    e != Forsake(me)
  }

  // From `s` to `t`, the task is not put to its client nor comes back from a settled state, its operation neither
  // starts nor ends an input call, and no update sets out for it.
  ghost predicate Quiet(me: TaskId, s: State, t: State) {
    && (me in t.store && t.store[me].detail.payload.InputRequiredPayload? ==>
         me in s.store && s.store[me].detail.payload == t.store[me].detail.payload)
    && (me in s.runs && Settled(s.store, me) ==> Settled(t.store, me))
    && (me in s.runs ==>
         me in t.runs && t.runs[me].call == s.runs[me].call && t.runs[me].returned == s.runs[me].returned)
    && (me in t.runs && me !in s.runs ==> t.runs[me].returned == [])
    && (forall k :: k in t.accepted && Undelivered(t.accepted[k]) && t.accepted[k].id == me ==>
         k in s.accepted && Undelivered(s.accepted[k])
         && s.accepted[k].id == me && t.accepted[k].responses == s.accepted[k].responses)
  }

  lemma QuietKeeps(me: TaskId, s: State, t: State)
    requires CallsOk(me, s) && Quiet(me, s, t)
    ensures CallsOk(me, t)
  {
    forall k | k in t.accepted && Undelivered(t.accepted[k]) && t.accepted[k].id == me
      ensures AnswersCall(t.store, t.runs, t.accepted[k])
    {
      assert AnswersCall(s.store, s.runs, s.accepted[k]);
    }
  }

  lemma AcceptFits(me: TaskId, s: State, op: OpId)
    requires Inv(s) && CallsOk(me, s)
    ensures CallsOk(me, DoAccept(s, op).0)
  {
    hide Inv;
    var t := DoAccept(s, op).0;
    if op.Client? && op in s.ops && s.ops[op].Looked? {
      var o := s.ops[op];
      OpFacts(s, op);
      if AcceptInput(s.store, s.now, op.owner, o.id, o.responses).1.Ok? {
        forall k | k in t.accepted && Undelivered(t.accepted[k]) && t.accepted[k].id == me
          ensures AnswersCall(t.store, t.runs, t.accepted[k])
        {
          assert k != op ==> AnswersCall(s.store, s.runs, s.accepted[k]);
        }
      }
    }
  }

  lemma RequestInputFits(me: TaskId, s: State, id: TaskId, requests: Fields)
    requires Inv(s) && CallsOk(me, s)
    ensures CallsOk(me, DoRequestInput(s, id, requests).0)
  {
    var t := DoRequestInput(s, id, requests).0;
    if id in s.runs && s.runs[id].phase == Live && s.runs[id].call == Idle {
      if Transition(s.store, s.now, s.runs[id].owner, id, InputRequiredPayload(requests)).1.Ok? {
        forall k | k in t.accepted && Undelivered(t.accepted[k]) && t.accepted[k].id == me
          ensures AnswersCall(t.store, t.runs, t.accepted[k]) && t.accepted[k].id != id
        {
          assert AnswersCall(s.store, s.runs, s.accepted[k]);
          assert StoreOk(s.store, s.runs);
        }
      }
    }
  }

  // The token ended the call: the task is gone, so nothing is asked of it.
  lemma CancelledCallFits(me: TaskId, s: State, id: TaskId)
    requires CallsOk(me, s) && id in s.runs && Gone(s.store, s.runs, id)
    ensures CallsOk(me, s.(runs := s.runs[id := s.runs[id].(call := Idle)]))
  {
    var t := s.(runs := s.runs[id := s.runs[id].(call := Idle)]);
    forall k | k in t.accepted && Undelivered(t.accepted[k]) && t.accepted[k].id == me
      ensures AnswersCall(t.store, t.runs, t.accepted[k])
    {
      assert AnswersCall(s.store, s.runs, s.accepted[k]);
    }
  }

  // The head of the queue ended the call: it was the one update on its way.
  lemma AnsweredCallFits(me: TaskId, s: State, id: TaskId, t: State)
    requires CallsOk(me, s) && id in s.runs && s.runs[id].call.Waiting? && s.runs[id].queue != []
    requires Carries(s.accepted, id, s.runs[id].queue[0], Queued)
    requires t.store == s.store && t.accepted == Placed(s, s.runs[id].queue[0].op, Delivered)
    requires t.runs == s.runs[id := s.runs[id].(queue := s.runs[id].queue[1..], call := Idle,
                              returned := s.runs[id].returned + [Returned(s.runs[id].call.requests, s.runs[id].queue[0])])]
    ensures CallsOk(me, t)
  {
    assert id == me ==> AnswersCall(s.store, s.runs, s.accepted[s.runs[id].queue[0].op]);
    forall k | k in t.accepted && Undelivered(t.accepted[k]) && t.accepted[k].id == me
      ensures AnswersCall(t.store, t.runs, t.accepted[k])
    {
      assert AnswersCall(s.store, s.runs, s.accepted[k]);
    }
  }

  lemma PollFits(me: TaskId, s: State, id: TaskId)
    requires Inv(s) && CallsOk(me, s)
    ensures CallsOk(me, DoPoll(s, id).0)
  {
    hide CallsOk;
    if id in s.runs && s.runs[id].phase == Live && s.runs[id].call.Waiting? {
      assert RunOk(s.accepted, id, s.runs[id]);
      if s.runs[id].fired {
        CancelledCallFits(me, s, id);
      } else if s.runs[id].queue != [] {
        AnsweredCallFits(me, s, id, DoPoll(s, id).0);
      }
    }
  }

  lemma TransitionFits(me: TaskId, s: State, owner: Owner, id: TaskId, payload: Payload)
    requires Inv(s) && CallsOk(me, s) && !payload.InputRequiredPayload?
    ensures CallsFit(me, Transition(s.store, s.now, owner, id, payload).0, s.runs, s.accepted)
  {
    StoreFacts(s, id);
    QuietKeeps(me, s, s.(store := Transition(s.store, s.now, owner, id, payload).0));
  }

  // The accepted update `op` moves on, or nowhere.
  lemma PlaceFits(me: TaskId, s: State, op: OpId, place: Place)
    requires CallsOk(me, s) && (op in s.accepted ==> Undelivered(s.accepted[op]))
    ensures CallsFit(me, s.store, s.runs, Placed(s, op, place))
  {
    QuietKeeps(me, s, s.(accepted := Placed(s, op, place)));
  }

  // A run changes in anything but its input call.
  lemma RunFits(me: TaskId, store: Entries, runs: Runs, accepted: Updates, id: TaskId, run: Run)
    requires CallsFit(me, store, runs, accepted)
    requires id in runs && run.call == runs[id].call && run.returned == runs[id].returned
    ensures CallsFit(me, store, runs[id := run], accepted)
  {
    assert UpdatesFit(me, store, runs[id := run], accepted) by {
      forall k | k in accepted && Undelivered(accepted[k]) && accepted[k].id == me
        ensures AnswersCall(store, runs[id := run], accepted[k])
      {
        assert AnswersCall(store, runs, accepted[k]);
      }
    }
  }

  lemma EnqueueFits(me: TaskId, s: State, id: TaskId, sent: Sent)
    requires CallsOk(me, s) && id in s.runs && (sent.op in s.accepted ==> Undelivered(s.accepted[sent.op]))
    ensures CallsOk(me, Enqueue(s, id, sent))
  {
    PlaceFits(me, s, sent.op, Queued);
    RunFits(me, s.store, s.runs, Placed(s, sent.op, Queued), id, s.runs[id].(queue := s.runs[id].queue + [sent]));
  }

  lemma FireFits(me: TaskId, s: State, id: TaskId)
    requires CallsOk(me, s)
    ensures CallsOk(me, Fire(s, id))
  {
    if id in s.runs {
      RunFits(me, s.store, s.runs, s.accepted, id, s.runs[id].(fired := true));
    }
  }

  lemma HandOverFits(me: TaskId, s: State, op: OpId, refused: bool)
    requires Inv(s) && CallsOk(me, s)
    ensures CallsOk(me, DoHandOver(s, op, refused).0)
  {
    hide Inv, CallsFit;
    OpFacts(s, op);
    if op in s.ops && s.ops[op].Handing? {
      PlaceFits(me, s, op, Lost);
      PlaceFits(me, s, op, OnBus);
      EnqueueFits(me, s, s.ops[op].id, Sent(op, s.ops[op].responses));
    }
  }

  lemma DeliverFits(me: TaskId, s: State, msg: MsgId, target: Instance)
    requires Inv(s) && CallsOk(me, s)
    ensures CallsOk(me, DoDeliver(s, msg, target).0)
  {
    hide Inv, CallsFit;
    MessageFacts(s, msg);
    if msg in s.bus && target in s.bus[msg].targets {
      var left := s.(bus := s.bus[msg := s.bus[msg].(targets := s.bus[msg].targets - {target})]);
      var signal := s.bus[msg].signal;
      FireFits(me, left, signal.id);
      if ReachesRun(s, target, signal.id) && signal.InputSignal? {
        EnqueueFits(me, left, signal.id, signal.sent);
      }
    }
  }

  lemma SweepFits(me: TaskId, s: State, op: OpId, inst: Instance)
    requires CallsOk(me, s)
    ensures CallsOk(me, DoBeginSweep(s, op, inst).0)
  {
    QuietKeeps(me, s, DoBeginSweep(s, op, inst).0);
  }

  lemma CreateFits(me: TaskId, s: State, inst: Instance, owner: Owner, id: TaskId, ttlMs: Option<nat>)
    requires Inv(s) && CallsOk(me, s)
    ensures CallsOk(me, DoCreate(s, inst, owner, id, ttlMs).0)
  {
    StoreFacts(s, id);
    QuietKeeps(me, s, DoCreate(s, inst, owner, id, ttlMs).0);
  }

  lemma FailTaskFits(me: TaskId, s: State, op: OpId)
    requires Inv(s) && CallsOk(me, s)
    ensures CallsOk(me, DoFailTask(s, op).0)
  {
    hide Inv, CallsFit, Transition, HandOverError;
    if op.Client? && op in s.ops && s.ops[op].Failing? {
      TransitionFits(me, s, op.owner, s.ops[op].id, FailedPayload(HandOverError(s.ops[op].local)));
    }
  }

  lemma AbandonFits(me: TaskId, s: State, op: OpId)
    requires Inv(s) && CallsOk(me, s)
    ensures CallsOk(me, DoAbandon(s, op).0)
  {
    hide Inv, CallsFit;
    OpFacts(s, op);
    if op in s.ops && s.ops[op].Handing? {
      PlaceFits(me, s, op, Lost);
    }
  }

  lemma BeginCancelFits(me: TaskId, s: State, op: OpId, inst: Instance, id: TaskId)
    requires Inv(s) && CallsOk(me, s)
    ensures CallsOk(me, DoBeginCancel(s, op, inst, id).0)
  {
    if op.Client? {
      TransitionFits(me, s, op.owner, id, CancelledPayload);
      hide Inv, CallsFit;
    }
  }

  lemma SettleFits(me: TaskId, s: State, owner: Owner, id: TaskId, payload: Payload)
    requires Inv(s) && CallsOk(me, s)
    ensures CallsOk(me, DoSettle(s, owner, id, payload).0)
  {
    hide Inv, CallsFit, Transition;
    if !payload.InputRequiredPayload? {
      TransitionFits(me, s, owner, id, payload);
    }
  }

  lemma PhaseFits(me: TaskId, s: State, id: TaskId)
    requires Inv(s) && CallsOk(me, s)
    ensures CallsOk(me, DoRegister(s, id).0) && CallsOk(me, DoReleaseRun(s, id).0) && CallsOk(me, DoDropRun(s, id).0)
  {
    hide Inv, CallsFit;
    if id in s.runs {
      RunFits(me, s.store, s.runs, s.accepted, id, s.runs[id].(phase := Live));
      RunFits(me, s.store, s.runs, s.accepted, id, s.runs[id].(phase := Released));
      RunFits(me, s.store, s.runs, s.accepted, id, s.runs[id].(phase := Dropped));
    }
  }

  lemma SignalFits(me: TaskId, s: State, op: OpId, id: TaskId, refused: bool)
    requires Inv(s) && CallsOk(me, s)
    ensures CallsOk(me, DoSignalLocal(s, op, id).0) && CallsOk(me, DoSignalPublish(s, op, id, refused).0)
  {
    hide Inv, CallsFit, ReachesRun;
    FireFits(me, s, id);
  }

  // An abandoned wait of another task's operation is nothing to this one.
  lemma ForsakeFits(me: TaskId, s: State, id: TaskId)
    requires CallsOk(me, s) && id != me
    ensures CallsOk(me, DoForsake(s, id).0)
  {
    QuietKeeps(me, s, DoForsake(s, id).0);
  }

  // Nothing of a call is in the clock, or in what an operation has looked up.
  lemma OpsFit(me: TaskId, s: State, t: State)
    requires CallsOk(me, s) && t.store == s.store && t.runs == s.runs && t.accepted == s.accepted
    ensures CallsOk(me, t)
  {
  }

  lemma CallsStep(me: TaskId, s: State, e: Event)
    requires Inv(s) && CallsOk(me, s) && Awaited(me, e)
    ensures CallsOk(me, Next(s, e))
  {
    hide Inv, CallsFit, CallsOk, Lookup, DoRegister, DoReleaseRun, DoDropRun, DoSignalLocal, DoSignalPublish;
    hide DoCreate, DoAccept, DoHandOver, DoFailTask, DoAbandon, DoBeginCancel, DoBeginSweep, DoDeliver, DoRequestInput, DoPoll,
         DoForsake, DoSettle;
    match e
    case Create(inst, owner, id, ttlMs) => CreateFits(me, s, inst, owner, id, ttlMs);
    case Register(id) => PhaseFits(me, s, id);
    case Accept(op) => AcceptFits(me, s, op);
    case HandOver(op, refused) => HandOverFits(me, s, op, refused);
    case FailTask(op) => FailTaskFits(me, s, op);
    case Abandon(op) => AbandonFits(me, s, op);
    case BeginCancel(op, inst, id) => BeginCancelFits(me, s, op, inst, id);
    case BeginSweep(op, inst) => SweepFits(me, s, op, inst);
    case SignalLocal(op, id) => SignalFits(me, s, op, id, false);
    case SignalPublish(op, id, refused) => SignalFits(me, s, op, id, refused);
    case Deliver(msg, target) => DeliverFits(me, s, msg, target);
    case RequestInput(id, requests) => RequestInputFits(me, s, id, requests);
    case Poll(id) => PollFits(me, s, id);
    case Forsake(id) => ForsakeFits(me, s, id);
    case Settle(owner, id, payload) => SettleFits(me, s, owner, id, payload);
    case ReleaseRun(id) => PhaseFits(me, s, id);
    case DropRun(id) => PhaseFits(me, s, id);
    case Tick(to) => OpsFit(me, s, Next(s, e));
    case LookUpRun(op) => OpsFit(me, s, Next(s, e));
    case BeginUpdate(op, inst, id, responses) => OpsFit(me, s, Next(s, e));
    case GetTask(owner, id) =>
  }
}
