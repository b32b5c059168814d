/**
 * One owner's tasks evolve as if nobody else had any: taking every other owner's steps out of a run changes
 * neither what this owner is told nor any task, operation or signal of this owner.
 */
module TaskIsolation {
  import opened Wrappers
  import opened Json
  import opened TaskStore
  import opened TaskMachine
  import opened TaskSafety

  // A client request of `o`, or a sweep.
  predicate OwnOp(k: OpId, o: Owner) {
    k.Client? ==> k.owner == o
  }

  function OwnIds(ids: set<TaskId>, runs: Runs, o: Owner): set<TaskId> {
    set id | id in ids && OwnedBy(runs, id, o)
  }

  function OwnPart(op: Op, runs: Runs, o: Owner): Op {
    match op
    case Signalling(inst, toDeliver, toPublish) =>
      Signalling(inst, OwnIds(toDeliver, runs, o), OwnIds(toPublish, runs, o))
    case _ => op
  }

  function StoreOf(store: Entries, o: Owner): Entries {
    map id | id in store && store[id].owner == o :: store[id]
  }

  function RunsOf(runs: Runs, o: Owner): Runs {
    map id | id in runs && runs[id].owner == o :: runs[id]
  }

  function OpsOf(ops: Ops, runs: Runs, o: Owner): Ops {
    map k | k in ops && OwnOp(k, o) :: OwnPart(ops[k], runs, o)
  }

  function UsedOf(used: set<OpId>, o: Owner): set<OpId> {
    set k | k in used && OwnOp(k, o)
  }

  function BusOf(bus: map<MsgId, Message>, runs: Runs, o: Owner): map<MsgId, Message> {
    map m | m in bus && OwnedBy(runs, m.id, o) :: bus[m]
  }

  function AcceptedOf(accepted: Updates, o: Owner): Updates {
    map k | k in accepted && OwnOp(k, o) :: accepted[k]
  }

  // The part of the system that is `o`'s.
  function View(s: State, o: Owner): State {
    State(s.cfg, s.now, StoreOf(s.store, o), RunsOf(s.runs, o), OpsOf(s.ops, s.runs, o), UsedOf(s.used, o),
          BusOf(s.bus, s.runs, o), AcceptedOf(s.accepted, o))
  }

  // Whether the step is `o`'s, or the clock's or a sweep's.
  predicate Concerns(s: State, e: Event, o: Owner) {
    match e
    case Tick(_) => true
    case Create(_, owner, id, _) => owner == o && id !in s.runs
    case Register(id) => OwnedBy(s.runs, id, o)
    case GetTask(owner, _) => owner == o
    case BeginUpdate(op, _, _, _) => op.Client? && op.owner == o
    case LookUpRun(op) => op.Client? && op.owner == o
    case Accept(op) => op.Client? && op.owner == o
    case HandOver(op, _) => op.Client? && op.owner == o
    case FailTask(op) => op.Client? && op.owner == o
    case Abandon(op) => op.Client? && op.owner == o
    case BeginCancel(op, _, _) => op.Client? && op.owner == o
    case BeginSweep(op, _) => op.Sweeper?
    case SignalLocal(_, id) => OwnedBy(s.runs, id, o)
    case SignalPublish(_, id, _) => OwnedBy(s.runs, id, o)
    case Deliver(msg, _) => OwnedBy(s.runs, msg.id, o)
    case RequestInput(id, _) => OwnedBy(s.runs, id, o)
    case Poll(id) => OwnedBy(s.runs, id, o)
    case Forsake(id) => OwnedBy(s.runs, id, o)
    case Settle(owner, _, _) => owner == o
    case ReleaseRun(id) => OwnedBy(s.runs, id, o)
    case DropRun(id) => OwnedBy(s.runs, id, o)
  }

  // ---- How the parts follow an update ---------------------------------------------------------

  lemma StoreOfPut(store: Entries, o: Owner, id: TaskId, entry: Entry)
    requires id in store ==> store[id].owner == entry.owner
    ensures StoreOf(store[id := entry], o) == if entry.owner == o then StoreOf(store, o)[id := entry] else StoreOf(store, o)
  {
  }

  lemma RunsOfPut(runs: Runs, o: Owner, id: TaskId, run: Run)
    requires id in runs ==> runs[id].owner == run.owner
    ensures RunsOf(runs[id := run], o) == if run.owner == o then RunsOf(runs, o)[id := run] else RunsOf(runs, o)
  {
  }

  lemma SameOwnIds(runs: Runs, runs': Runs, ids: set<TaskId>, o: Owner)
    requires forall id :: id in runs ==> OwnedBy(runs', id, runs[id].owner)
    requires forall id :: id in ids ==> id in runs
    ensures OwnIds(ids, runs', o) == OwnIds(ids, runs, o)
  {
  }

  // Filters by owner look at nothing else of a run.
  lemma SameOwners(s: State, runs: Runs, o: Owner)
    requires Inv(s)
    requires forall id :: id in s.runs ==> OwnedBy(runs, id, s.runs[id].owner)
    ensures OpsOf(s.ops, runs, o) == OpsOf(s.ops, s.runs, o)
    ensures BusOf(s.bus, runs, o) == BusOf(s.bus, s.runs, o)
  {
    forall k | k in s.ops && OwnOp(k, o)
      ensures OwnPart(s.ops[k], runs, o) == OwnPart(s.ops[k], s.runs, o)
    {
      OpFacts(s, k);
      if s.ops[k].Signalling? {
        forall id | id in s.ops[k].toDeliver || id in s.ops[k].toPublish
          ensures id in s.runs
        {
          assert id in s.ops[k].toDeliver + s.ops[k].toPublish;
        }
        SameOwnIds(s.runs, runs, s.ops[k].toDeliver, o);
        SameOwnIds(s.runs, runs, s.ops[k].toPublish, o);
      }
    }
    forall m | m in s.bus
      ensures OwnedBy(runs, m.id, o) <==> OwnedBy(s.runs, m.id, o)
    {
      assert MessageOk(s.store, s.runs, s.accepted, m, s.bus[m]);
    }
  }

  lemma OpsOfPut(ops: Ops, runs: Runs, o: Owner, k: OpId, op: Op)
    ensures OpsOf(ops[k := op], runs, o) == if OwnOp(k, o) then OpsOf(ops, runs, o)[k := OwnPart(op, runs, o)]
                                            else OpsOf(ops, runs, o)
  {
  }

  lemma OpsOfDrop(ops: Ops, runs: Runs, o: Owner, k: OpId)
    ensures OpsOf(ops - {k}, runs, o) == OpsOf(ops, runs, o) - {k}
    ensures !OwnOp(k, o) ==> OpsOf(ops - {k}, runs, o) == OpsOf(ops, runs, o)
  {
  }

  lemma UsedOfAdd(used: set<OpId>, o: Owner, k: OpId)
    ensures UsedOf(used + {k}, o) == if OwnOp(k, o) then UsedOf(used, o) + {k} else UsedOf(used, o)
  {
  }

  lemma BusOfPut(bus: map<MsgId, Message>, runs: Runs, o: Owner, m: MsgId, msg: Message)
    ensures BusOf(bus[m := msg], runs, o) == if OwnedBy(runs, m.id, o) then BusOf(bus, runs, o)[m := msg]
                                             else BusOf(bus, runs, o)
  {
  }

  lemma AcceptedOfPut(accepted: Updates, o: Owner, k: OpId, a: Accepted)
    ensures AcceptedOf(accepted[k := a], o) == if OwnOp(k, o) then AcceptedOf(accepted, o)[k := a]
                                               else AcceptedOf(accepted, o)
  {
  }

  // What `o` sees in the store is what it sees in its own part of it.
  lemma LookupInView(s: State, o: Owner, id: TaskId)
    ensures Lookup(StoreOf(s.store, o), s.now, o, id) == Lookup(s.store, s.now, o, id)
  {
  }

  lemma UpdatedInView(s: State, o: Owner, owner: Owner, id: TaskId, apply: DetailedTask -> Result<DetailedTask, TaskError>)
    ensures owner == o ==>
              && StoreOf(Updated(s.store, s.now, o, id, apply).0, o) == Updated(StoreOf(s.store, o), s.now, o, id, apply).0
              && Updated(s.store, s.now, o, id, apply).1 == Updated(StoreOf(s.store, o), s.now, o, id, apply).1
    ensures owner != o ==> StoreOf(Updated(s.store, s.now, owner, id, apply).0, o) == StoreOf(s.store, o)
  {
    LookupInView(s, o, id);
  }

  lemma TransitionInView(s: State, o: Owner, owner: Owner, id: TaskId, payload: Payload)
    ensures var r := Transition(s.store, s.now, owner, id, payload);
            if owner == o then Transition(StoreOf(s.store, o), s.now, o, id, payload) == (StoreOf(r.0, o), r.1)
            else StoreOf(r.0, o) == StoreOf(s.store, o)
  {
    UpdatedInView(s, o, owner, id, current => TaskStore.Moved(current, id, payload, s.now));
  }

  lemma AcceptInView(s: State, o: Owner, owner: Owner, id: TaskId, responses: Fields)
    ensures var r := AcceptInput(s.store, s.now, owner, id, responses);
            if owner == o then AcceptInput(StoreOf(s.store, o), s.now, o, id, responses) == (StoreOf(r.0, o), r.1)
            else StoreOf(r.0, o) == StoreOf(s.store, o)
  {
    UpdatedInView(s, o, owner, id, current => Answered(current, id, responses, s.now));
  }

  // A run of the same owner replaces run `id`.
  lemma RunPutInView(s: State, o: Owner, id: TaskId, run: Run)
    requires Inv(s) && id in s.runs && run.owner == s.runs[id].owner
    ensures View(s.(runs := s.runs[id := run]), o) ==
              if run.owner == o then View(s, o).(runs := View(s, o).runs[id := run]) else View(s, o)
  {
    RunsOfPut(s.runs, o, id, run);
    SameOwners(s, s.runs[id := run], o);
  }

  // The step, seen by `o`: the same step of its own part when it concerns `o`, and nothing when it does not.
  ghost predicate Commutes(s: State, e: Event, o: Owner) {
    if Concerns(s, e, o) then Step(View(s, o), e) == (View(Next(s, e), o), Step(s, e).1)
    else View(Next(s, e), o) == View(s, o)
  }

  // Membership in the view, with the filters themselves out of sight.
  lemma ViewHolds(s: State, o: Owner, op: OpId, id: TaskId)
    ensures op in OpsOf(s.ops, s.runs, o) <==> op in s.ops && OwnOp(op, o)
    ensures op in s.ops && OwnOp(op, o) ==> OpsOf(s.ops, s.runs, o)[op] == OwnPart(s.ops[op], s.runs, o)
    ensures op in UsedOf(s.used, o) <==> op in s.used && OwnOp(op, o)
    ensures op in AcceptedOf(s.accepted, o) <==> op in s.accepted && OwnOp(op, o)
    ensures op in s.accepted && OwnOp(op, o) ==> AcceptedOf(s.accepted, o)[op] == s.accepted[op]
    ensures id in RunsOf(s.runs, o) <==> OwnedBy(s.runs, id, o)
    ensures OwnedBy(s.runs, id, o) ==> RunsOf(s.runs, o)[id] == s.runs[id]
  {
  }

  lemma MessageInView(s: State, o: Owner, m: MsgId)
    ensures m in BusOf(s.bus, s.runs, o) <==> m in s.bus && OwnedBy(s.runs, m.id, o)
    ensures m in s.bus && OwnedBy(s.runs, m.id, o) ==> BusOf(s.bus, s.runs, o)[m] == s.bus[m]
  {
  }

  lemma PlacedInView(s: State, o: Owner, op: OpId, place: Place)
    ensures AcceptedOf(Placed(s, op, place), o) == if OwnOp(op, o) then Placed(View(s, o), op, place)
                                                   else AcceptedOf(s.accepted, o)
  {
    if op in s.accepted {
      AcceptedOfPut(s.accepted, o, op, s.accepted[op].(place := place));
    }
  }

  lemma EnqueueInView(s: State, o: Owner, id: TaskId, sent: Sent)
    requires Inv(s) && (id in s.runs ==> (OwnOp(sent.op, o) <==> s.runs[id].owner == o)) && id in s.runs
    ensures View(Enqueue(s, id, sent), o) == if OwnedBy(s.runs, id, o) then Enqueue(View(s, o), id, sent) else View(s, o)
  {
    hide Inv, StoreOf, RunsOf, OpsOf, UsedOf, BusOf, AcceptedOf;
    ViewHolds(s, o, sent.op, id);
    RunPutInView(s, o, id, s.runs[id].(queue := s.runs[id].queue + [sent]));
    PlacedInView(s, o, sent.op, Queued);
  }

  lemma FireInView(s: State, o: Owner, id: TaskId)
    requires Inv(s)
    ensures View(Fire(s, id), o) == if OwnedBy(s.runs, id, o) then Fire(View(s, o), id) else View(s, o)
  {
    hide Inv, StoreOf, RunsOf, OpsOf, UsedOf, BusOf, AcceptedOf;
    if id in s.runs {
      ViewHolds(s, o, Sweeper(0, 0), id);
      RunPutInView(s, o, id, s.runs[id].(fired := true));
    }
  }

  lemma CreateCommutes(s: State, inst: Instance, owner: Owner, id: TaskId, ttlMs: Option<nat>, o: Owner)
    requires Inv(s)
    ensures Commutes(s, Create(inst, owner, id, ttlMs), o)
  {
    hide Inv;
    if id !in s.runs {
      var run := Run(inst, owner, Creating, false, [], Idle, []);
      RunsOfPut(s.runs, o, id, run);
      SameOwners(s, s.runs[id := run], o);
      StoreFacts(s, id);
      StoreOfPut(s.store, o, id, Entry(owner, Detailed(Task(id, Working, s.now, s.now, ttlMs), WorkingPayload)));
    }
  }

  // The steps of one run.
  predicate RunStep(e: Event, id: TaskId) {
    match e
    case Register(x) => x == id
    case RequestInput(x, _) => x == id
    case Poll(x) => x == id
    case Forsake(x) => x == id
    case ReleaseRun(x) => x == id
    case DropRun(x) => x == id
    case _ => false
  }

  lemma RunStepCommutes(s: State, e: Event, id: TaskId, o: Owner)
    requires Inv(s) && RunStep(e, id) && !e.Poll? && !e.RequestInput?
    ensures Commutes(s, e, o)
  {
    hide Inv, StoreOf, RunsOf, OpsOf, UsedOf, BusOf, AcceptedOf;
    if id in s.runs {
      ViewHolds(s, o, Sweeper(0, 0), id);
      RunPutInView(s, o, id, Next(s, e).runs[id]);
    }
  }

  lemma RequestInputCommutes(s: State, id: TaskId, requests: Fields, o: Owner)
    requires Inv(s)
    ensures Commutes(s, RequestInput(id, requests), o)
  {
    hide Inv, StoreOf, RunsOf, OpsOf, UsedOf, BusOf, AcceptedOf;
    ViewHolds(s, o, Sweeper(0, 0), id);
    if id in s.runs && s.runs[id].phase == Live && s.runs[id].call == Idle {
      TransitionInView(s, o, s.runs[id].owner, id, InputRequiredPayload(requests));
      RunPutInView(s, o, id, s.runs[id].(call := Waiting(requests)));
    }
  }

  lemma PollCommutes(s: State, id: TaskId, o: Owner)
    requires Inv(s)
    ensures Commutes(s, Poll(id), o)
  {
    if id in s.runs && s.runs[id].phase == Live && s.runs[id].call.Waiting? {
      var run := s.runs[id];
      if run.queue != [] {
        assert RunOk(s.accepted, id, run);
        assert Carries(s.accepted, id, run.queue[0], Queued);
        hide Inv, StoreOf, RunsOf, OpsOf, UsedOf, BusOf, AcceptedOf;
        ViewHolds(s, o, run.queue[0].op, id);
        PlacedInView(s, o, run.queue[0].op, Delivered);
        RunPutInView(s, o, id, Next(s, Poll(id)).runs[id]);
      } else {
        hide Inv, StoreOf, RunsOf, OpsOf, UsedOf, BusOf, AcceptedOf;
        ViewHolds(s, o, Sweeper(0, 0), id);
        RunPutInView(s, o, id, Next(s, Poll(id)).runs[id]);
      }
    } else {
      ViewHolds(s, o, Sweeper(0, 0), id);
    }
  }

  lemma BeginUpdateCommutes(s: State, op: OpId, inst: Instance, id: TaskId, responses: Fields, o: Owner)
    requires Inv(s)
    ensures Commutes(s, BeginUpdate(op, inst, id, responses), o)
  {
    hide Inv, StoreOf, RunsOf, OpsOf, UsedOf, BusOf, AcceptedOf;
    ViewHolds(s, o, op, id);
    LookupInView(s, o, id);
    OpsOfPut(s.ops, s.runs, o, op, Checked(inst, id, responses));
    UsedOfAdd(s.used, o, op);
  }

  lemma LookUpRunCommutes(s: State, op: OpId, o: Owner)
    requires Inv(s)
    ensures Commutes(s, LookUpRun(op), o)
  {
    hide Inv, StoreOf, RunsOf, OpsOf, UsedOf, BusOf, AcceptedOf;
    OpFacts(s, op);
    if op in s.ops && s.ops[op].Checked? {
      var op' := s.ops[op];
      ViewHolds(s, o, op, op'.id);
      if ReachesRun(s, op'.inst, op'.id) || op'.inst in s.cfg.bus {
        OpsOfPut(s.ops, s.runs, o, op, Looked(op'.inst, op'.id, op'.responses, ReachesRun(s, op'.inst, op'.id)));
      } else {
        OpsOfDrop(s.ops, s.runs, o, op);
      }
    } else {
      ViewHolds(s, o, op, "");
    }
  }

  lemma AcceptCommutes(s: State, op: OpId, o: Owner)
    requires Inv(s)
    ensures Commutes(s, Accept(op), o)
  {
    hide Inv, StoreOf, RunsOf, OpsOf, UsedOf, BusOf, AcceptedOf;
    ViewHolds(s, o, op, "");
    if op.Client? && op in s.ops && s.ops[op].Looked? {
      var p := s.ops[op];
      var r := AcceptInput(s.store, s.now, op.owner, p.id, p.responses).1;
      AcceptInView(s, o, op.owner, p.id, p.responses);
      OpsOfDrop(s.ops, s.runs, o, op);
      if r.Ok? {
        OpsOfPut(s.ops, s.runs, o, op, Handing(p.inst, p.id, p.responses, p.local, r.value));
        AcceptedOfPut(s.accepted, o, op, Accepted(p.id, p.responses, InOp));
      }
    }
  }

  lemma HandOverCommutes(s: State, op: OpId, refused: bool, o: Owner)
    requires Inv(s)
    ensures Commutes(s, HandOver(op, refused), o)
  {
    hide Inv, StoreOf, RunsOf, OpsOf, UsedOf, BusOf, AcceptedOf;
    OpFacts(s, op);
    if op in s.ops && s.ops[op].Handing? {
      var p := s.ops[op];
      ViewHolds(s, o, op, p.id);
      OpsOfDrop(s.ops, s.runs, o, op);
      OpsOfPut(s.ops, s.runs, o, op, Failing(p.inst, p.id, p.local));
      PlacedInView(s, o, op, Lost);
      PlacedInView(s, o, op, OnBus);
      BusOfPut(s.bus, s.runs, o, MsgId(op, p.id), Message(InputSignal(p.id, Sent(op, p.responses)), s.cfg.instances - {p.inst}));
      HandLocalInView(s, o, op);
    } else {
      ViewHolds(s, o, op, "");
    }
  }

  lemma HandLocalInView(s: State, o: Owner, op: OpId)
    requires Inv(s) && op in s.ops && s.ops[op].Handing?
    ensures var p := s.ops[op];
            View(Enqueue(s, p.id, Sent(op, p.responses)).(ops := s.ops - {op}), o) ==
              if op.owner == o then Enqueue(View(s, o), p.id, Sent(op, p.responses)).(ops := View(s, o).ops - {op})
              else View(s, o)
  {
    hide Inv, StoreOf, RunsOf, OpsOf, UsedOf, BusOf, AcceptedOf;
    OpFacts(s, op);
    var p := s.ops[op];
    var sent := Sent(op, p.responses);
    OpsOfDrop(s.ops, s.runs, o, op);
    EnqueueInView(s, o, p.id, sent);
    SameOwners(s, Enqueue(s, p.id, sent).runs, o);
    OpsOfDrop(s.ops, Enqueue(s, p.id, sent).runs, o, op);
  }

  lemma FailTaskCommutes(s: State, op: OpId, o: Owner)
    requires Inv(s)
    ensures Commutes(s, FailTask(op), o)
  {
    hide Inv, StoreOf, RunsOf, OpsOf, UsedOf, BusOf, AcceptedOf, Transition, HandOverError;
    ViewHolds(s, o, op, "");
    if op.Client? && op in s.ops && s.ops[op].Failing? {
      TransitionInView(s, o, op.owner, s.ops[op].id, FailedPayload(HandOverError(s.ops[op].local)));
      OpsOfDrop(s.ops, s.runs, o, op);
    }
  }

  lemma AbandonCommutes(s: State, op: OpId, o: Owner)
    requires Inv(s)
    ensures Commutes(s, Abandon(op), o)
  {
    hide Inv, StoreOf, RunsOf, OpsOf, UsedOf, BusOf, AcceptedOf;
    OpFacts(s, op);
    ViewHolds(s, o, op, "");
    OpsOfDrop(s.ops, s.runs, o, op);
    PlacedInView(s, o, op, Lost);
  }

  lemma BeginCancelCommutes(s: State, op: OpId, inst: Instance, id: TaskId, o: Owner)
    requires Inv(s)
    ensures Commutes(s, BeginCancel(op, inst, id), o)
  {
    hide Inv, StoreOf, RunsOf, OpsOf, UsedOf, BusOf, AcceptedOf;
    ViewHolds(s, o, op, id);
    StoreFacts(s, id);
    if op.Client? {
      TransitionInView(s, o, op.owner, id, CancelledPayload);
      OpsOfPut(s.ops, s.runs, o, op, Signalling(inst, {id}, {}));
      UsedOfAdd(s.used, o, op);
      assert OwnIds({}, s.runs, o) == {};
      if OwnedBy(s.runs, id, o) {
        assert OwnIds({id}, s.runs, o) == {id};
      }
    }
  }

  // A sweep removes of an owner's tasks what it would remove were they alone.
  lemma SweptInView(s: State, o: Owner)
    requires Inv(s)
    ensures var removed := ExpiredIds(s.store, s.now);
            && OwnIds(removed, s.runs, o) == ExpiredIds(StoreOf(s.store, o), s.now)
            && StoreOf(s.store - removed, o) == StoreOf(s.store, o) - ExpiredIds(StoreOf(s.store, o), s.now)
  {
    hide Inv;
    forall id | id in s.store
      ensures OwnedBy(s.runs, id, s.store[id].owner)
    {
      StoreFacts(s, id);
    }
  }

  lemma BeginSweepCommutes(s: State, op: OpId, inst: Instance, o: Owner)
    requires Inv(s)
    ensures Commutes(s, BeginSweep(op, inst), o)
  {
    hide Inv, RunsOf, OpsOf, UsedOf, BusOf, AcceptedOf;
    ViewHolds(s, o, op, "");
    if op.Sweeper? {
      var removed := ExpiredIds(s.store, s.now);
      SweptInView(s, o);
      hide StoreOf, ExpiredIds;
      OpsOfPut(s.ops, s.runs, o, op, Signalling(inst, removed, {}));
      UsedOfAdd(s.used, o, op);
      assert OwnIds({}, s.runs, o) == {};
    }
  }

  lemma OwnIdsFollow(runs: Runs, runs': Runs, o: Owner, ids: set<TaskId>, id: TaskId)
    requires forall x :: x in ids + {id} ==> x in runs && OwnedBy(runs', x, runs[x].owner)
    ensures OwnIds(ids - {id}, runs', o) == OwnIds(ids, runs, o) - {id}
    ensures OwnIds(ids, runs', o) == OwnIds(ids, runs, o)
    ensures OwnIds(ids + {id}, runs', o) == if OwnedBy(runs, id, o) then OwnIds(ids, runs, o) + {id} else OwnIds(ids, runs, o)
    ensures !OwnedBy(runs, id, o) ==> OwnIds(ids, runs, o) - {id} == OwnIds(ids, runs, o)
  {
  }

  lemma PutBack(ops: Ops, k: OpId)
    ensures k in ops ==> ops[k := ops[k]] == ops
  {
  }

  lemma SignallingIds(s: State, op: OpId, id: TaskId)
    requires Inv(s) && op in s.ops && s.ops[op].Signalling?
    ensures forall x :: x in s.ops[op].toDeliver || x in s.ops[op].toPublish ==> x in s.runs
    ensures (id in s.ops[op].toDeliver || id in s.ops[op].toPublish) && op.Client? ==> OwnedBy(s.runs, id, op.owner)
  {
    OpFacts(s, op);
    forall x | x in s.ops[op].toDeliver || x in s.ops[op].toPublish
      ensures x in s.runs && (op.Client? ==> OwnedBy(s.runs, x, op.owner))
    {
      assert x in s.ops[op].toDeliver + s.ops[op].toPublish;
    }
  }

  lemma SignalLocalCommutes(s: State, op: OpId, id: TaskId, o: Owner)
    requires Inv(s)
    ensures Commutes(s, SignalLocal(op, id), o)
  {
    hide Inv, StoreOf, RunsOf, OpsOf, UsedOf, BusOf, AcceptedOf, OwnIds;
    ViewHolds(s, o, op, id);
    if op in s.ops && s.ops[op].Signalling? && id in s.ops[op].toDeliver {
      var p := s.ops[op];
      SignallingIds(s, op, id);
      var t := if ReachesRun(s, p.inst, id) then Fire(s, id) else s;
      FireInView(s, o, id);
      SameOwners(s, t.runs, o);
      OwnIdsFollow(s.runs, t.runs, o, p.toDeliver, id);
      OwnIdsFollow(s.runs, t.runs, o, p.toPublish, id);
      OpsOfPut(s.ops, t.runs, o, op, Next(s, SignalLocal(op, id)).ops[op]);
      PutBack(OpsOf(s.ops, s.runs, o), op);
      OwnIdsMember(s.runs, o, p.toDeliver, id);
    }
    OwnIdsMember(s.runs, o, if op in s.ops && s.ops[op].Signalling? then s.ops[op].toDeliver else {}, id);
  }

  lemma OwnIdsMember(runs: Runs, o: Owner, ids: set<TaskId>, id: TaskId)
    ensures id in OwnIds(ids, runs, o) <==> id in ids && OwnedBy(runs, id, o)
  {
  }

  lemma SignalPublishCommutes(s: State, op: OpId, id: TaskId, refused: bool, o: Owner)
    requires Inv(s)
    ensures Commutes(s, SignalPublish(op, id, refused), o)
  {
    hide Inv, StoreOf, RunsOf, OpsOf, UsedOf, BusOf, AcceptedOf, OwnIds;
    ViewHolds(s, o, op, id);
    if op in s.ops && s.ops[op].Signalling? && id in s.ops[op].toPublish {
      var p := s.ops[op];
      SignallingIds(s, op, id);
      OwnIdsFollow(s.runs, s.runs, o, p.toPublish, id);
      OpsOfPut(s.ops, s.runs, o, op, p.(toPublish := p.toPublish - {id}));
      PutBack(OpsOf(s.ops, s.runs, o), op);
      if !refused && p.inst in s.cfg.bus {
        BusOfPut(s.bus, s.runs, o, MsgId(op, id), Message(CancelledSignal(id), s.cfg.instances - {p.inst}));
      }
    }
    OwnIdsMember(s.runs, o, if op in s.ops && s.ops[op].Signalling? then s.ops[op].toPublish else {}, id);
  }

  lemma DeliverCommutes(s: State, msg: MsgId, target: Instance, o: Owner)
    requires Inv(s)
    ensures Commutes(s, Deliver(msg, target), o)
  {
    hide Inv, StoreOf, RunsOf, OpsOf, UsedOf, BusOf, AcceptedOf;
    MessageInView(s, o, msg);
    if msg in s.bus && target in s.bus[msg].targets {
      var m := s.bus[msg];
      MessageFacts(s, msg);
      ViewHolds(s, o, msg.op, msg.id);
      BusOfPut(s.bus, s.runs, o, msg, m.(targets := m.targets - {target}));
      if ReachesRun(s, target, m.signal.id) {
        if m.signal.CancelledSignal? {
          FireInView(s, o, msg.id);
          SameOwners(s, Fire(s, msg.id).runs, o);
          BusOfPut(s.bus, Fire(s, msg.id).runs, o, msg, m.(targets := m.targets - {target}));
        } else {
          EnqueueInView(s, o, msg.id, m.signal.sent);
          SameOwners(s, Enqueue(s, msg.id, m.signal.sent).runs, o);
          BusOfPut(s.bus, Enqueue(s, msg.id, m.signal.sent).runs, o, msg, m.(targets := m.targets - {target}));
        }
      }
    }
  }

  lemma SettleCommutes(s: State, owner: Owner, id: TaskId, payload: Payload, o: Owner)
    requires Inv(s)
    ensures Commutes(s, Settle(owner, id, payload), o)
  {
    hide Inv, StoreOf, RunsOf, OpsOf, UsedOf, BusOf, AcceptedOf;
    TransitionInView(s, o, owner, id, payload);
  }

  lemma StepCommutes(s: State, e: Event, o: Owner)
    requires Inv(s)
    ensures Commutes(s, e, o)
  {
    hide Inv, StoreOf, RunsOf, OpsOf, UsedOf, BusOf, AcceptedOf;
    match e
    case Tick(to) =>
    case Create(inst, owner, id, ttlMs) => CreateCommutes(s, inst, owner, id, ttlMs, o);
    case GetTask(owner, id) => LookupInView(s, o, id);
    case BeginUpdate(op, inst, id, responses) => BeginUpdateCommutes(s, op, inst, id, responses, o);
    case LookUpRun(op) => LookUpRunCommutes(s, op, o);
    case Accept(op) => AcceptCommutes(s, op, o);
    case HandOver(op, refused) => HandOverCommutes(s, op, refused, o);
    case FailTask(op) => FailTaskCommutes(s, op, o);
    case Abandon(op) => AbandonCommutes(s, op, o);
    case BeginCancel(op, inst, id) => BeginCancelCommutes(s, op, inst, id, o);
    case BeginSweep(op, inst) => BeginSweepCommutes(s, op, inst, o);
    case SignalLocal(op, id) => SignalLocalCommutes(s, op, id, o);
    case SignalPublish(op, id, refused) => SignalPublishCommutes(s, op, id, refused, o);
    case Deliver(msg, target) => DeliverCommutes(s, msg, target, o);
    case RequestInput(id, requests) => RequestInputCommutes(s, id, requests, o);
    case Poll(id) => PollCommutes(s, id, o);
    case Settle(owner, id, payload) => SettleCommutes(s, owner, id, payload, o);
    case Register(id) => RunStepCommutes(s, e, id, o);
    case Forsake(id) => RunStepCommutes(s, e, id, o);
    case ReleaseRun(id) => RunStepCommutes(s, e, id, o);
    case DropRun(id) => RunStepCommutes(s, e, id, o);
  }

  // The steps of `es` that concern `o`, as the run from `s` meets them.
  function Own(s: State, es: seq<Event>, o: Owner): seq<Event>
    decreases |es|
  {
    if es == [] then []
    else
      var before := es[..|es|-1];
      Own(s, before, o) + (if Concerns(Exec(s, before), es[|es|-1], o) then [es[|es|-1]] else [])
  }

  /** Non-interference over a whole run: what `o` holds is what it would hold if only its own steps had happened. */
  lemma {:induction false} OthersDoNotInterfere(s: State, es: seq<Event>, o: Owner)
    requires Inv(s)
    ensures Inv(Exec(s, es))
    ensures View(Exec(s, es), o) == Exec(View(s, o), Own(s, es, o))
    decreases |es|
  {
    if es != [] {
      var before := es[..|es|-1];
      var e := es[|es|-1];
      OthersDoNotInterfere(s, before, o);
      StepCommutes(Exec(s, before), e, o);
      InvStep(Exec(s, before), e);
      hide Inv, View, Step;
      var own := Own(s, before, o);
      if Concerns(Exec(s, before), e, o) {
        var kept := own + [e];
        assert kept[..|kept| - 1] == own && kept[|kept| - 1] == e;
        assert Own(s, es, o) == kept;
        assert Exec(View(s, o), kept) == Next(Exec(View(s, o), own), e);
      } else {
        assert Own(s, es, o) == own;
      }
    }
  }

  /** And it is told the same: each reply to `o` is the one its own part of the system gives. */
  lemma RepliesDependOnOwnStepsOnly(cfg: Config, now: int, es: seq<Event>, e: Event, o: Owner)
    requires Concerns(Exec(Init(cfg, now), es), e, o)
    ensures var s := Exec(Init(cfg, now), es);
            Step(s, e).1 == Step(Exec(Init(cfg, now), Own(Init(cfg, now), es, o)), e).1
  {
    hide Step, Concerns;
    OthersDoNotInterfere(Init(cfg, now), es, o);
    StepCommutes(Exec(Init(cfg, now), es), e, o);
    assert View(Init(cfg, now), o) == Init(cfg, now);
  }
}
