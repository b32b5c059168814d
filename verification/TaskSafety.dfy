/** What every step of the task engine keeps, and the safety of whole runs. */
module TaskSafety {
  import opened Wrappers
  import opened Json
  import opened TaskStore
  import opened TaskMachine

  type Runs = map<TaskId, Run>
  type Ops = map<OpId, Op>
  type Updates = map<OpId, Accepted>

  // A minted task that is cancelled, or no longer stored.
  predicate Gone(store: Entries, runs: Runs, id: TaskId) {
    id in runs && (id in store ==> store[id].detail.payload == CancelledPayload)
  }

  predicate OwnedBy(runs: Runs, id: TaskId, owner: Owner) {
    id in runs && runs[id].owner == owner
  }

  ghost predicate StoreOk(store: Entries, runs: Runs) {
    forall id :: id in store ==>
      OwnedBy(runs, id, store[id].owner) && store[id].detail.task.id == id && store[id].detail.Agrees()
  }

  ghost predicate TokensOk(store: Entries, runs: Runs) {
    forall id :: id in runs && runs[id].fired ==> Gone(store, runs, id)
  }

  ghost predicate OpOk(store: Entries, runs: Runs, accepted: Updates, k: OpId, op: Op) {
    match op
    case Signalling(_, toDeliver, toPublish) =>
      forall id :: id in toDeliver + toPublish ==> Gone(store, runs, id) && (k.Client? ==> OwnedBy(runs, id, k.owner))
    case Handing(_, id, responses, _, _) =>
      k.Client? && OwnedBy(runs, id, k.owner) && k in accepted && accepted[k] == Accepted(id, responses, InOp)
    case Checked(_, id, _) => k.Client? && OwnedBy(runs, id, k.owner) && k !in accepted
    case Looked(_, id, _, _) => k.Client? && OwnedBy(runs, id, k.owner) && k !in accepted
    case Failing(_, id, _) => k.Client? && OwnedBy(runs, id, k.owner) && k in accepted
  }

  ghost predicate OpsOk(store: Entries, runs: Runs, accepted: Updates, ops: Ops) {
    forall k :: k in ops ==> OpOk(store, runs, accepted, k, ops[k])
  }

  ghost predicate UsedOk(s: State) {
    s.ops.Keys <= s.used && s.accepted.Keys <= s.used && forall m :: m in s.bus ==> m.op in s.used
  }

  ghost predicate AcceptedOk(runs: Runs, accepted: Updates) {
    forall k :: k in accepted ==> k.Client? && OwnedBy(runs, accepted[k].id, k.owner)
  }

  // `sent` is the accepted update it claims to be, and is where `place` says.
  predicate Carries(accepted: Updates, id: TaskId, sent: Sent, place: Place) {
    sent.op in accepted && accepted[sent.op] == Accepted(id, sent.responses, place)
  }

  ghost predicate MessageOk(store: Entries, runs: Runs, accepted: Updates, m: MsgId, msg: Message) {
    && m.id == msg.signal.id && m.id in runs && (m.op.Client? ==> OwnedBy(runs, m.id, m.op.owner))
    && match msg.signal
       case CancelledSignal(id) => Gone(store, runs, id)
       case InputSignal(id, sent) =>
         && m.op == sent.op && sent.op in accepted && accepted[sent.op].id == id
         && (runs[id].inst in msg.targets ==> Carries(accepted, id, sent, OnBus))
  }

  ghost predicate BusOk(store: Entries, runs: Runs, accepted: Updates, bus: map<MsgId, Message>) {
    forall m :: m in bus ==> MessageOk(store, runs, accepted, m, bus[m])
  }

  ghost predicate RunOk(accepted: Updates, id: TaskId, run: Run) {
    && (forall i :: 0 <= i < |run.queue| ==> Carries(accepted, id, run.queue[i], Queued))
    && (forall i, j :: 0 <= i < j < |run.queue| ==> run.queue[i].op != run.queue[j].op)
    && (forall i :: 0 <= i < |run.returned| ==> Carries(accepted, id, run.returned[i].sent, Delivered))
    && (forall i, j :: 0 <= i < j < |run.returned| ==> run.returned[i].sent.op != run.returned[j].sent.op)
  }

  ghost predicate RunsOk(accepted: Updates, runs: Runs) {
    forall id :: id in runs ==> RunOk(accepted, id, runs[id])
  }

  ghost predicate Inv(s: State) {
    && StoreOk(s.store, s.runs)
    && TokensOk(s.store, s.runs)
    && OpsOk(s.store, s.runs, s.accepted, s.ops)
    && UsedOk(s)
    && AcceptedOk(s.runs, s.accepted)
    && BusOk(s.store, s.runs, s.accepted, s.bus)
    && RunsOk(s.accepted, s.runs)
  }

  // From `s` to `t`, runs keep their owners and instances, cancelled or removed tasks stay so, and
  // the accepted updates outside `touched` are as they were.
  ghost predicate Grows(s: State, t: State, touched: set<OpId>) {
    && (forall id :: id in s.runs ==>
         OwnedBy(t.runs, id, s.runs[id].owner) && t.runs[id].inst == s.runs[id].inst)
    && (forall id :: Gone(s.store, s.runs, id) ==> Gone(t.store, t.runs, id))
    && (forall k :: k !in touched ==> (k in s.accepted <==> k in t.accepted))
    && (forall k :: k !in touched && k in s.accepted ==> t.accepted[k] == s.accepted[k])
  }

  lemma OpsKept(s: State, t: State, touched: set<OpId>)
    requires Inv(s) && Grows(s, t, touched)
    ensures forall k :: k in s.ops && k !in touched ==> OpOk(t.store, t.runs, t.accepted, k, s.ops[k])
  {
    forall k | k in s.ops && k !in touched
      ensures OpOk(t.store, t.runs, t.accepted, k, s.ops[k])
    {
      assert OpOk(s.store, s.runs, s.accepted, k, s.ops[k]);
    }
  }

  lemma BusKept(s: State, t: State, touched: set<OpId>)
    requires Inv(s) && Grows(s, t, touched)
    ensures forall m :: m in s.bus && m.op !in touched ==> MessageOk(t.store, t.runs, t.accepted, m, s.bus[m])
  {
    forall m | m in s.bus && m.op !in touched
      ensures MessageOk(t.store, t.runs, t.accepted, m, s.bus[m])
    {
      assert MessageOk(s.store, s.runs, s.accepted, m, s.bus[m]);
    }
  }

  lemma RunsKept(s: State, t: State, touched: set<OpId>)
    requires Inv(s) && Grows(s, t, touched)
    requires forall k :: k in touched && k in s.accepted ==> s.accepted[k].place == InOp || s.accepted[k].place == OnBus
    ensures RunsOk(t.accepted, s.runs)
  {
    forall id | id in s.runs
      ensures RunOk(t.accepted, id, s.runs[id])
    {
      assert RunOk(s.accepted, id, s.runs[id]);
    }
  }

  // A store update through `Updated` never touches a cancelled or removed task, whatever it writes elsewhere.
  lemma StoreStepKeeps(s: State, store: Entries, owner: Owner, id: TaskId, detail: DetailedTask)
    requires Inv(s)
    requires Lookup(s.store, s.now, owner, id).Some? && !s.store[id].detail.payload.Status().IsTerminal()
    requires store == s.store[id := Entry(owner, detail)] && detail.task.id == id && detail.Agrees()
    ensures StoreOk(store, s.runs) && TokensOk(store, s.runs)
    ensures OpsOk(store, s.runs, s.accepted, s.ops) && BusOk(store, s.runs, s.accepted, s.bus)
    ensures Grows(s, s.(store := store), {})
    ensures detail.payload == CancelledPayload ==> Gone(store, s.runs, id)
  {
    var t := s.(store := store);
    assert Grows(s, t, {});
    OpsKept(s, t, {});
    BusKept(s, t, {});
  }

  lemma IdleRunOk(accepted: Updates, id: TaskId, run: Run)
    requires run.queue == [] && run.returned == []
    ensures RunOk(accepted, id, run)
  {
  }

  lemma CreateKeeps(s: State, inst: Instance, owner: Owner, id: TaskId, ttlMs: Option<nat>)
    requires Inv(s)
    ensures Inv(DoCreate(s, inst, owner, id, ttlMs).0)
  {
    hide RunOk, OpOk, MessageOk;
    if id !in s.runs {
      var t := DoCreate(s, inst, owner, id, ttlMs).0;
      assert Grows(s, t, {});
      OpsKept(s, t, {});
      BusKept(s, t, {});
      IdleRunOk(t.accepted, id, t.runs[id]);
      assert StoreOk(t.store, t.runs) && TokensOk(t.store, t.runs);
    }
  }

  // A run that changes only its phase, its token's state for a task that is gone, or what it waits for.
  lemma RunTouchKeeps(s: State, id: TaskId, run: Run)
    requires Inv(s) && id in s.runs
    requires run.owner == s.runs[id].owner && run.inst == s.runs[id].inst
    requires run.fired ==> Gone(s.store, s.runs, id)
    requires RunOk(s.accepted, id, run)
    ensures Inv(s.(runs := s.runs[id := run]))
  {
    var t := s.(runs := s.runs[id := run]);
    assert Grows(s, t, {});
    OpsKept(s, t, {});
    BusKept(s, t, {});
  }

  lemma RegisterKeeps(s: State, id: TaskId)
    requires Inv(s)
    ensures Inv(DoRegister(s, id).0)
  {
    if id in s.runs && s.runs[id].phase == Creating {
      RunTouchKeeps(s, id, s.runs[id].(phase := Live));
    }
  }

  lemma BeginUpdateKeeps(s: State, op: OpId, inst: Instance, id: TaskId, responses: Fields)
    requires Inv(s)
    ensures Inv(DoBeginUpdate(s, op, inst, id, responses).0)
  {
    hide TokensOk, BusOk, RunsOk;
  }

  lemma LookUpRunKeeps(s: State, op: OpId)
    requires Inv(s)
    ensures Inv(DoLookUpRun(s, op).0)
  {
    hide StoreOk, TokensOk, BusOk, RunsOk, AcceptedOk;
  }

  lemma AcceptKeeps(s: State, op: OpId)
    requires Inv(s)
    ensures Inv(DoAccept(s, op).0)
  {
    if op.Client? && op in s.ops && s.ops[op].Looked? {
      var o := s.ops[op];
      assert OpOk(s.store, s.runs, s.accepted, op, o);
      var (store, r) := AcceptInput(s.store, s.now, op.owner, o.id, o.responses);
      if r.Ok? {
        StoreStepKeeps(s, store, op.owner, o.id, r.value);
        var t := s.(store := store);
        assert Inv(t);
        RecordKeeps(t, op, o.id, o.responses, Handing(o.inst, o.id, o.responses, o.local, r.value));
      }
    }
  }

  lemma RecordedBusOk(s: State, op: OpId, a: Accepted)
    requires Inv(s) && op !in s.accepted
    ensures BusOk(s.store, s.runs, s.accepted[op := a], s.bus)
  {
    forall m | m in s.bus
      ensures MessageOk(s.store, s.runs, s.accepted[op := a], m, s.bus[m])
    {
      assert MessageOk(s.store, s.runs, s.accepted, m, s.bus[m]);
    }
  }

  lemma RecordKeeps(s: State, op: OpId, id: TaskId, responses: Fields, o: Op)
    requires Inv(s) && op.Client? && op in s.used && op !in s.accepted && OwnedBy(s.runs, id, op.owner)
    requires o.Handing? && o.id == id && o.responses == responses
    ensures Inv(s.(ops := s.ops[op := o], accepted := s.accepted[op := Accepted(id, responses, InOp)]))
  {
    hide BusOk, RunsOk, StoreOk, TokensOk, OpOk;
    var t := s.(ops := s.ops[op := o], accepted := s.accepted[op := Accepted(id, responses, InOp)]);
    OpsKept(s, t, {op});
    RunsKept(s, t, {op});
    RecordedBusOk(s, op, Accepted(id, responses, InOp));
    assert OpOk(t.store, t.runs, t.accepted, op, o) by { RecordedOpOk(t, op, id, responses, o); }
  }

  lemma RecordedOpOk(t: State, op: OpId, id: TaskId, responses: Fields, o: Op)
    requires op.Client? && OwnedBy(t.runs, id, op.owner) && op in t.accepted && t.accepted[op] == Accepted(id, responses, InOp)
    requires o.Handing? && o.id == id && o.responses == responses
    ensures OpOk(t.store, t.runs, t.accepted, op, o)
  {
  }

  // No published copy of `op`'s update is still addressed to the instance that runs its task.
  ghost predicate NotBound(s: State, op: OpId) {
    forall m :: m in s.bus && m.op == op && s.bus[m].signal.InputSignal? && m.id in s.runs ==>
      s.runs[m.id].inst !in s.bus[m].targets
  }

  // No run holds `op`'s update, waiting or returned.
  ghost predicate NotHeld(s: State, op: OpId) {
    && (forall id, i :: id in s.runs && 0 <= i < |s.runs[id].queue| ==> s.runs[id].queue[i].op != op)
    && (forall id, i :: id in s.runs && 0 <= i < |s.runs[id].returned| ==> s.runs[id].returned[i].sent.op != op)
  }

  lemma PlaceTells(s: State, op: OpId)
    requires Inv(s) && op in s.accepted
    ensures s.accepted[op].place != OnBus ==> NotBound(s, op)
    ensures s.accepted[op].place == InOp || s.accepted[op].place == OnBus ==> NotHeld(s, op)
  {
    forall m | m in s.bus && m.op == op
      ensures MessageOk(s.store, s.runs, s.accepted, m, s.bus[m])
    {
    }
    forall id | id in s.runs
      ensures RunOk(s.accepted, id, s.runs[id])
    {
    }
  }

  lemma PlacedBusOk(s: State, op: OpId, place: Place)
    requires Inv(s) && op in s.accepted && NotBound(s, op)
    ensures BusOk(s.store, s.runs, Placed(s, op, place), s.bus)
  {
    forall m | m in s.bus
      ensures MessageOk(s.store, s.runs, Placed(s, op, place), m, s.bus[m])
    {
      assert MessageOk(s.store, s.runs, s.accepted, m, s.bus[m]);
    }
  }

  lemma PlacedRunsOk(s: State, op: OpId, place: Place)
    requires Inv(s) && op in s.accepted && NotHeld(s, op)
    ensures RunsOk(Placed(s, op, place), s.runs)
  {
    forall id | id in s.runs
      ensures RunOk(Placed(s, op, place), id, s.runs[id])
    {
      assert RunOk(s.accepted, id, s.runs[id]);
    }
  }

  // An accepted update that no call, message or run holds any more may be recorded anywhere.
  lemma PlaceKeeps(s: State, op: OpId, place: Place)
    requires Inv(s) && op in s.accepted && NotBound(s, op) && NotHeld(s, op)
    requires op in s.ops ==> !s.ops[op].Handing?
    ensures Inv(s.(accepted := Placed(s, op, place)))
  {
    var t := s.(accepted := Placed(s, op, place));
    OpFacts(s, op);
    OpsKept(s, t, {op});
    PlacedBusOk(s, op, place);
    PlacedRunsOk(s, op, place);
  }

  lemma DropOpKeeps(s: State, op: OpId)
    requires Inv(s)
    ensures Inv(s.(ops := s.ops - {op}))
  {
  }

  // An update leaves the call that carried it.
  lemma LeaveCallKeeps(s: State, op: OpId, place: Place)
    requires Inv(s) && op in s.ops && s.ops[op].Handing?
    ensures Inv(s.(ops := s.ops - {op}, accepted := Placed(s, op, place)))
    ensures s.accepted[op].place == InOp
  {
    assert OpOk(s.store, s.runs, s.accepted, op, s.ops[op]);
    PlaceTells(s, op);
    DropOpKeeps(s, op);
    PlaceKeeps(s.(ops := s.ops - {op}), op, place);
  }

  lemma AddOpKeeps(s: State, op: OpId, o: Op)
    requires Inv(s) && op in s.used && OpOk(s.store, s.runs, s.accepted, op, o)
    ensures Inv(s.(ops := s.ops[op := o]))
  {
  }

  lemma AddMessageKeeps(s: State, m: MsgId, msg: Message)
    requires Inv(s) && m.op in s.used && MessageOk(s.store, s.runs, s.accepted, m, msg)
    ensures Inv(s.(bus := s.bus[m := msg]))
  {
  }

  lemma OpFacts(s: State, op: OpId)
    requires Inv(s)
    ensures op in s.ops ==> op in s.used && OpOk(s.store, s.runs, s.accepted, op, s.ops[op])
  {
  }

  lemma StoreFacts(s: State, id: TaskId)
    requires Inv(s)
    ensures id in s.store ==> OwnedBy(s.runs, id, s.store[id].owner) && s.store[id].detail.Agrees()
  {
  }

  lemma MessageFacts(s: State, msg: MsgId)
    requires Inv(s)
    ensures msg in s.bus ==>
              && MessageOk(s.store, s.runs, s.accepted, msg, s.bus[msg])
              && (s.bus[msg].signal.InputSignal? ==> msg.op.Client?)
  {
    if msg in s.bus {
      assert MessageOk(s.store, s.runs, s.accepted, msg, s.bus[msg]);
    }
  }

  lemma HandOverKeeps(s: State, op: OpId, refused: bool)
    requires Inv(s)
    ensures Inv(DoHandOver(s, op, refused).0)
  {
    hide Inv;
    OpFacts(s, op);
    if op in s.ops && s.ops[op].Handing? {
      var o := s.ops[op];
      if o.local && s.runs[o.id].Receives() {
        HandLocalKeeps(s, op);
      } else if o.local || refused {
        LeaveCallKeeps(s, op, Lost);
        var t := s.(ops := s.ops - {op}, accepted := Placed(s, op, Lost));
        AddOpKeeps(t, op, Failing(o.inst, o.id, o.local));
        assert t.ops[op := Failing(o.inst, o.id, o.local)] == s.ops[op := Failing(o.inst, o.id, o.local)];
      } else {
        LeaveCallKeeps(s, op, OnBus);
        AddMessageKeeps(s.(ops := s.ops - {op}, accepted := Placed(s, op, OnBus)), MsgId(op, o.id),
                        Message(InputSignal(o.id, Sent(op, o.responses)), s.cfg.instances - {o.inst}));
      }
    }
  }

  lemma HandLocalKeeps(s: State, op: OpId)
    requires Inv(s) && op in s.ops && s.ops[op].Handing?
    ensures Inv(Enqueue(s, s.ops[op].id, Sent(op, s.ops[op].responses)).(ops := s.ops - {op}))
  {
    var o := s.ops[op];
    assert OpOk(s.store, s.runs, s.accepted, op, o);
    PlaceTells(s, op);
    DropOpKeeps(s, op);
    EnqueueKeeps(s.(ops := s.ops - {op}), o.id, Sent(op, o.responses));
  }

  lemma FailTaskKeeps(s: State, op: OpId)
    requires Inv(s)
    ensures Inv(DoFailTask(s, op).0)
  {
    hide Transition, HandOverError, StoreOk, TokensOk, OpOk, AcceptedOk, BusOk, RunsOk;
    if op.Client? && op in s.ops && s.ops[op].Failing? {
      MoveKeeps(s, op.owner, s.ops[op].id, FailedPayload(HandOverError(s.ops[op].local)));
    }
  }

  // Any transition keeps the invariants: a task already cancelled or removed is out of its reach.
  lemma MoveKeeps(s: State, owner: Owner, id: TaskId, payload: Payload)
    requires Inv(s)
    ensures var store := Transition(s.store, s.now, owner, id, payload).0;
            && Inv(s.(store := store))
            && Grows(s, s.(store := store), {})
  {
    var (store, r) := Transition(s.store, s.now, owner, id, payload);
    assert StoreOk(s.store, s.runs);
    if r.Ok? {
      assert r.value.task.id == id && r.value.Agrees();
      StoreStepKeeps(s, store, owner, id, r.value);
    } else {
      assert s.(store := store) == s;
    }
  }

  lemma AbandonKeeps(s: State, op: OpId)
    requires Inv(s)
    ensures Inv(DoAbandon(s, op).0)
  {
    if op in s.ops {
      if s.ops[op].Handing? {
        LeaveCallKeeps(s, op, Lost);
      } else {
        DropOpKeeps(s, op);
      }
    }
  }

  lemma BeginCancelKeeps(s: State, op: OpId, inst: Instance, id: TaskId)
    requires Inv(s)
    ensures Inv(DoBeginCancel(s, op, inst, id).0)
  {
    if op.Client? && op !in s.used {
      var (store, r) := Transition(s.store, s.now, op.owner, id, CancelledPayload);
      assert r.Ok? ==> OwnedBy(s.runs, id, op.owner);
      MoveKeeps(s, op.owner, id, CancelledPayload);
      var t := s.(store := store, used := s.used + {op});
      assert Inv(t);
      if r.Ok? {
        assert Gone(store, s.runs, id);
        AddOpKeeps(t, op, Signalling(inst, {id}, {}));
      }
    }
  }

  lemma BeginSweepKeeps(s: State, op: OpId, inst: Instance)
    requires Inv(s)
    ensures Inv(DoBeginSweep(s, op, inst).0)
  {
    if op.Sweeper? && op !in s.used {
      var t := s.(store := s.store - ExpiredIds(s.store, s.now));
      assert Grows(s, t, {});
      OpsKept(s, t, {});
      BusKept(s, t, {});
    }
  }

  lemma SignalLocalKeeps(s: State, op: OpId, id: TaskId)
    requires Inv(s)
    ensures Inv(DoSignalLocal(s, op, id).0)
  {
    if op in s.ops && s.ops[op].Signalling? && id in s.ops[op].toDeliver {
      var o := s.ops[op];
      assert OpOk(s.store, s.runs, s.accepted, op, o);
      assert id in o.toDeliver + o.toPublish;
      if ReachesRun(s, o.inst, id) {
        RunTouchKeeps(s, id, s.runs[id].(fired := true));
        SignalSetsKeep(Fire(s, id), op, o.toDeliver - {id}, o.toPublish);
      } else {
        SignalSetsKeep(s, op, o.toDeliver - {id}, o.toPublish + {id});
      }
    }
  }

  lemma SignalSetsKeep(s: State, op: OpId, toDeliver: set<TaskId>, toPublish: set<TaskId>)
    requires Inv(s) && op in s.ops && s.ops[op].Signalling?
    requires toDeliver + toPublish <= s.ops[op].toDeliver + s.ops[op].toPublish
    ensures Inv(s.(ops := s.ops[op := s.ops[op].(toDeliver := toDeliver, toPublish := toPublish)]))
  {
    assert OpOk(s.store, s.runs, s.accepted, op, s.ops[op]);
  }

  lemma SignalPublishKeeps(s: State, op: OpId, id: TaskId, refused: bool)
    requires Inv(s)
    ensures Inv(DoSignalPublish(s, op, id, refused).0)
  {
    hide Inv;
    if op in s.ops && s.ops[op].Signalling? && id in s.ops[op].toPublish {
      var o := s.ops[op];
      OpFacts(s, op);
      assert id in o.toDeliver + o.toPublish;
      SignalSetsKeep(s, op, o.toDeliver, o.toPublish - {id});
      if !refused && o.inst in s.cfg.bus {
        AddMessageKeeps(s.(ops := s.ops[op := o.(toPublish := o.toPublish - {id})]), MsgId(op, id),
                        Message(CancelledSignal(id), s.cfg.instances - {o.inst}));
      }
    }
  }

  // A queue entry or an answered call is added for an update that leaves the bus or the queue.
  lemma DeliverKeeps(s: State, msg: MsgId, target: Instance)
    requires Inv(s)
    ensures Inv(DoDeliver(s, msg, target).0)
  {
    if msg in s.bus && target in s.bus[msg].targets {
      var m := s.bus[msg];
      assert MessageOk(s.store, s.runs, s.accepted, msg, m);
      var left := s.(bus := s.bus[msg := m.(targets := m.targets - {target})]);
      assert Inv(left);
      if ReachesRun(s, target, m.signal.id) {
        var id := m.signal.id;
        if m.signal.CancelledSignal? {
          RunTouchKeeps(left, id, s.runs[id].(fired := true));
        } else {
          EnqueueKeeps(left, id, m.signal.sent);
        }
      }
    }
  }

  lemma EnqueueKeeps(s: State, id: TaskId, sent: Sent)
    requires Inv(s) && id in s.runs
    requires Carries(s.accepted, id, sent, OnBus) || Carries(s.accepted, id, sent, InOp)
    requires sent.op in s.ops ==> !s.ops[sent.op].Handing?
    requires NotBound(s, sent.op)
    ensures Inv(Enqueue(s, id, sent))
  {
    PlaceTells(s, sent.op);
    PlaceKeeps(s, sent.op, Queued);
    PushKeeps(s.(accepted := Placed(s, sent.op, Queued)), id, sent);
  }

  lemma PushKeeps(s: State, id: TaskId, sent: Sent)
    requires Inv(s) && id in s.runs && Carries(s.accepted, id, sent, Queued) && NotHeld(s, sent.op)
    ensures Inv(s.(runs := s.runs[id := s.runs[id].(queue := s.runs[id].queue + [sent])]))
  {
    assert RunOk(s.accepted, id, s.runs[id]);
    RunTouchKeeps(s, id, s.runs[id].(queue := s.runs[id].queue + [sent]));
  }

  lemma RequestInputKeeps(s: State, id: TaskId, requests: Fields)
    requires Inv(s)
    ensures Inv(DoRequestInput(s, id, requests).0)
  {
    if id in s.runs && s.runs[id].phase == Live && s.runs[id].call == Idle {
      MoveKeeps(s, s.runs[id].owner, id, InputRequiredPayload(requests));
      var t := s.(store := Transition(s.store, s.now, s.runs[id].owner, id, InputRequiredPayload(requests)).0);
      RunTouchKeeps(t, id, s.runs[id].(call := Waiting(requests)));
    }
  }

  lemma PollKeeps(s: State, id: TaskId)
    requires Inv(s)
    ensures Inv(DoPoll(s, id).0)
  {
    if id in s.runs && s.runs[id].phase == Live && s.runs[id].call.Waiting? {
      if s.runs[id].fired {
        assert RunOk(s.accepted, id, s.runs[id]);
        RunTouchKeeps(s, id, s.runs[id].(call := Idle));
      } else if s.runs[id].queue != [] {
        TakeKeeps(s, id);
      }
    }
  }

  // The run lets go of the update at the head of its queue.
  function Popped(s: State, id: TaskId): State
    requires id in s.runs && s.runs[id].queue != []
  {
    s.(runs := s.runs[id := s.runs[id].(queue := s.runs[id].queue[1..], call := Idle)])
  }

  lemma PopKeeps(s: State, id: TaskId)
    requires Inv(s) && id in s.runs && s.runs[id].queue != []
    ensures Inv(Popped(s, id))
    ensures Carries(s.accepted, id, s.runs[id].queue[0], Queued)
    ensures NotHeld(Popped(s, id), s.runs[id].queue[0].op)
    ensures s.runs[id].queue[0].op in s.ops ==> !s.ops[s.runs[id].queue[0].op].Handing?
  {
    var run := s.runs[id];
    var op := run.queue[0].op;
    assert RunOk(s.accepted, id, run);
    if op in s.ops {
      assert OpOk(s.store, s.runs, s.accepted, op, s.ops[op]);
    }
    RunTouchKeeps(s, id, run.(queue := run.queue[1..], call := Idle));
    forall x | x in s.runs
      ensures RunOk(s.accepted, x, s.runs[x])
    {
    }
  }

  lemma LogKeeps(s: State, id: TaskId, r: Returned)
    requires Inv(s) && id in s.runs && Carries(s.accepted, id, r.sent, Delivered) && NotHeld(s, r.sent.op)
    ensures Inv(s.(runs := s.runs[id := s.runs[id].(returned := s.runs[id].returned + [r])]))
  {
    assert RunOk(s.accepted, id, s.runs[id]);
    RunTouchKeeps(s, id, s.runs[id].(returned := s.runs[id].returned + [r]));
  }

  lemma TakeKeeps(s: State, id: TaskId)
    requires Inv(s) && id in s.runs && s.runs[id].phase == Live && s.runs[id].call.Waiting?
    requires !s.runs[id].fired && s.runs[id].queue != []
    ensures Inv(DoPoll(s, id).0)
  {
    hide Inv;
    var run := s.runs[id];
    var sent := run.queue[0];
    PopKeeps(s, id);
    var popped := Popped(s, id);
    PlaceTells(popped, sent.op);
    PlaceKeeps(popped, sent.op, Delivered);
    var placed := popped.(accepted := Placed(popped, sent.op, Delivered));
    LogKeeps(placed, id, Returned(run.call.requests, sent));
    var logged := placed.(runs := placed.runs[id := placed.runs[id].(returned := run.returned + [Returned(run.call.requests, sent)])]);
    assert logged == DoPoll(s, id).0;
  }

  lemma ForsakeKeeps(s: State, id: TaskId)
    requires Inv(s)
    ensures Inv(DoForsake(s, id).0)
  {
    if id in s.runs && s.runs[id].phase == Live {
      RunTouchKeeps(s, id, s.runs[id].(call := Idle));
    }
  }

  lemma SettleKeeps(s: State, owner: Owner, id: TaskId, payload: Payload)
    requires Inv(s)
    ensures Inv(DoSettle(s, owner, id, payload).0)
  {
    MoveKeeps(s, owner, id, payload);
  }

  lemma ReleaseRunKeeps(s: State, id: TaskId)
    requires Inv(s)
    ensures Inv(DoReleaseRun(s, id).0)
  {
    if id in s.runs && s.runs[id].phase == Live {
      RunTouchKeeps(s, id, s.runs[id].(phase := Released));
    }
  }

  lemma DropRunKeeps(s: State, id: TaskId)
    requires Inv(s)
    ensures Inv(DoDropRun(s, id).0)
  {
    if id in s.runs && s.runs[id].phase == Released {
      RunTouchKeeps(s, id, s.runs[id].(phase := Dropped));
    }
  }

  lemma TickKeeps(s: State, to: int)
    requires Inv(s)
    ensures Inv(s.(now := to))
  {
  }

  lemma InvStep(s: State, e: Event)
    requires Inv(s)
    ensures Inv(Next(s, e))
  {
    hide Inv, DoCreate, DoRegister, DoBeginUpdate, DoLookUpRun, DoAccept, DoHandOver, DoFailTask, DoAbandon, DoBeginCancel,
         DoBeginSweep, DoSignalLocal, DoSignalPublish, DoDeliver, DoRequestInput, DoPoll, DoForsake, DoSettle, DoReleaseRun,
         DoDropRun;
    match e
    case Tick(to) => TickKeeps(s, to);
    case GetTask(owner, id) =>
    case Create(inst, owner, id, ttlMs) => CreateKeeps(s, inst, owner, id, ttlMs);
    case Register(id) => RegisterKeeps(s, id);
    case BeginUpdate(op, inst, id, responses) => BeginUpdateKeeps(s, op, inst, id, responses);
    case LookUpRun(op) => LookUpRunKeeps(s, op);
    case Accept(op) => AcceptKeeps(s, op);
    case HandOver(op, refused) => HandOverKeeps(s, op, refused);
    case FailTask(op) => FailTaskKeeps(s, op);
    case Abandon(op) => AbandonKeeps(s, op);
    case BeginCancel(op, inst, id) => BeginCancelKeeps(s, op, inst, id);
    case BeginSweep(op, inst) => BeginSweepKeeps(s, op, inst);
    case SignalLocal(op, id) => SignalLocalKeeps(s, op, id);
    case SignalPublish(op, id, refused) => SignalPublishKeeps(s, op, id, refused);
    case Deliver(msg, target) => DeliverKeeps(s, msg, target);
    case RequestInput(id, requests) => RequestInputKeeps(s, id, requests);
    case Poll(id) => PollKeeps(s, id);
    case Forsake(id) => ForsakeKeeps(s, id);
    case Settle(owner, id, payload) => SettleKeeps(s, owner, id, payload);
    case ReleaseRun(id) => ReleaseRunKeeps(s, id);
    case DropRun(id) => DropRunKeeps(s, id);
  }
}
