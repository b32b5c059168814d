/** Which input calls are misanswered once an operation has abandoned one: exactly those a stray answer can reach first. */
module TaskStrays {
  import opened Wrappers
  import opened Json
  import opened TaskStore
  import opened TaskMachine
  import opened TaskSafety
  import opened TaskCalls
  import opened TaskTheorems

  // The accepted update `k` may still come into the queue of `id`'s operation.
  predicate OnItsWay(s: State, id: TaskId, k: OpId)
    requires id in s.runs
  {
    var inst := s.runs[id].inst;
    || (k in s.ops && s.ops[k].Handing? && s.ops[k].id == id
        && (s.ops[k].local || (s.ops[k].inst != inst && inst in s.cfg.instances)))
    || (MsgId(k, id) in s.bus && s.bus[MsgId(k, id)].signal.InputSignal? && inst in s.bus[MsgId(k, id)].targets)
  }

  predicate Misfit(s: State, k: OpId, requests: Fields) {
    k in s.accepted && s.accepted[k].responses.Keys != requests.Keys
  }

  // A call for `requests` can be told answers to something else: they head the queue, or may come into the empty one.
  ghost predicate StrayComesFirst(s: State, id: TaskId, requests: Fields)
    requires id in s.runs
  {
    if s.runs[id].queue != [] then s.runs[id].queue[0].responses.Keys != requests.Keys
    else exists k :: OnItsWay(s, id, k) && Misfit(s, k, requests)
  }

  // The `n`-th call that returned answers returned some for other keys than it had recorded.
  predicate Misanswered(s: State, id: TaskId, n: nat) {
    id in s.runs && n < |s.runs[id].returned|
    && s.runs[id].returned[n].requests.Keys != s.runs[id].returned[n].sent.responses.Keys
  }

  // The call for `requests` has just been recorded and its operation begins to wait.
  predicate Begins(s: State, id: TaskId, requests: Fields) {
    && id in s.runs && s.runs[id].call == Idle
    && Next(s, RequestInput(id, requests)).runs[id].call == Waiting(requests)
  }

  // The call still waits, ended cancelled, or returned answers that fit.
  ghost predicate OnCourse(s: State, id: TaskId, requests: Fields, n: nat) {
    && id in s.runs
    && var run := s.runs[id];
       || (|run.returned| == n && run.call == Waiting(requests) && !StrayComesFirst(s, id, requests)
           && (id in s.store && s.store[id].detail.payload.InputRequiredPayload? ==>
                 s.store[id].detail.payload.requests == requests))
       || (|run.returned| == n && run.call == Idle && run.fired)
       || (|run.returned| > n && run.returned[n].requests.Keys == run.returned[n].sent.responses.Keys)
  }

  // From `s` to `t`, what entered the queue of `id`'s operation was on its way there.
  predicate Arrives(s: State, t: State, id: TaskId)
    requires id in s.runs && id in t.runs
  {
    var (q, r) := (s.runs[id].queue, t.runs[id].queue);
    q == r || (r != [] && r[..|r|-1] == q && var sent := r[|r|-1];
               OnItsWay(s, id, sent.op) && sent.op in s.accepted && s.accepted[sent.op].responses == sent.responses)
  }

  // From `s` to `t`, nothing of `id`'s call changes, and nothing sets out for its operation.
  ghost predicate Calm(s: State, t: State, id: TaskId) {
    && id in s.runs && id in t.runs
    && t.runs[id].call == s.runs[id].call && t.runs[id].returned == s.runs[id].returned
    && Arrives(s, t, id) && (s.runs[id].fired ==> t.runs[id].fired)
    && (id in t.store && t.store[id].detail.payload.InputRequiredPayload? ==>
          id in s.store && s.store[id].detail.payload == t.store[id].detail.payload)
    && (forall k :: k in t.accepted && OnItsWay(t, id, k) ==>
          k in s.accepted && OnItsWay(s, id, k) && s.accepted[k].responses == t.accepted[k].responses)
  }

  lemma CalmKeeps(s: State, t: State, id: TaskId, requests: Fields, n: nat)
    requires OnCourse(s, id, requests, n) && Calm(s, t, id)
    ensures OnCourse(t, id, requests, n)
  {
    if s.runs[id].queue == [] && t.runs[id].queue != [] {
      assert !StrayComesFirst(s, id, requests) ==> !Misfit(s, t.runs[id].queue[0].op, requests);
    }
  }

  // A section that neither accepts an update nor is of the run's own call.
  predicate LeavesAnswers(e: Event, id: TaskId) {
    match e
    case Accept(_) => false
    case RequestInput(x, _) => x != id
    case Poll(x) => x != id
    case Forsake(x) => x != id
    case _ => true
  }

  lemma UpdateCalm(s: State, e: Event, id: TaskId)
    requires Inv(s) && id in s.runs && (e.BeginUpdate? || e.LookUpRun? || e.Abandon?)
    ensures Calm(s, Next(s, e), id)
  {
    hide Inv, Lookup, DoCreate, DoRegister, DoAccept, DoHandOver, DoFailTask, DoBeginCancel, DoBeginSweep, DoSignalLocal,
         DoSignalPublish, DoDeliver, DoRequestInput, DoPoll, DoForsake, DoSettle, DoReleaseRun, DoDropRun;
  }

  lemma SignalCalm(s: State, e: Event, id: TaskId)
    requires id in s.runs && (e.SignalLocal? || e.SignalPublish?)
    ensures Calm(s, Next(s, e), id)
  {
    hide Lookup, DoCreate, DoRegister, DoBeginUpdate, DoLookUpRun, DoAccept, DoHandOver, DoFailTask, DoAbandon, DoBeginCancel,
         DoBeginSweep, DoDeliver, DoRequestInput, DoPoll, DoForsake, DoSettle, DoReleaseRun, DoDropRun;
  }

  lemma StoreCalm(s: State, e: Event, id: TaskId)
    requires Inv(s) && id in s.runs
    requires e.Create? || e.FailTask? || e.BeginCancel? || e.BeginSweep? || e.Settle?
    ensures Calm(s, Next(s, e), id)
  {
    hide Inv, HandOverError, DoRegister, DoBeginUpdate, DoLookUpRun, DoAccept, DoHandOver, DoAbandon, DoSignalLocal,
         DoSignalPublish, DoDeliver, DoRequestInput, DoPoll, DoForsake, DoReleaseRun, DoDropRun;
  }

  lemma ElsewhereCalm(s: State, t: State, id: TaskId)
    requires id in s.runs && id in t.runs && t.runs[id] == s.runs[id]
    requires t.ops == s.ops && t.bus == s.bus && t.cfg == s.cfg
    requires id in t.store ==> id in s.store && t.store[id] == s.store[id]
    requires forall k :: k in t.accepted ==> k in s.accepted && t.accepted[k].responses == s.accepted[k].responses
    ensures Calm(s, t, id)
  {
  }

  lemma OtherAskCalm(s: State, other: TaskId, requests: Fields, id: TaskId)
    requires id in s.runs && other != id
    ensures Calm(s, DoRequestInput(s, other, requests).0, id)
  {
    hide Calm, OnItsWay;
    ElsewhereCalm(s, DoRequestInput(s, other, requests).0, id);
  }

  lemma OtherPollCalm(s: State, other: TaskId, id: TaskId)
    requires id in s.runs && other != id
    ensures Calm(s, DoPoll(s, other).0, id)
  {
    hide Calm, OnItsWay;
    ElsewhereCalm(s, DoPoll(s, other).0, id);
  }

  lemma PhaseCalm(s: State, e: Event, id: TaskId)
    requires id in s.runs && LeavesAnswers(e, id) && (e.Register? || e.Forsake? || e.ReleaseRun? || e.DropRun?)
    ensures Calm(s, Next(s, e), id)
  {
    hide Calm, OnItsWay, DoCreate, DoBeginUpdate, DoLookUpRun, DoAccept, DoHandOver, DoFailTask, DoAbandon, DoBeginCancel,
         DoBeginSweep, DoSignalLocal, DoSignalPublish, DoDeliver, DoRequestInput, DoPoll, DoSettle;
    RunCalm(s, Next(s, e), id);
  }

  lemma RunCalm(s: State, t: State, id: TaskId)
    requires id in s.runs && id in t.runs && t == s.(runs := t.runs)
    requires t.runs[id] == s.runs[id].(phase := t.runs[id].phase)
    ensures Calm(s, t, id)
  {
  }

  lemma CalmStep(s: State, e: Event, id: TaskId)
    requires Inv(s) && id in s.runs && LeavesAnswers(e, id)
    ensures Calm(s, Next(s, e), id)
  {
    hide Inv, Calm;
    hide DoCreate, DoRegister, DoBeginUpdate, DoLookUpRun, DoFailTask, DoAbandon, DoBeginCancel, DoBeginSweep, DoSignalLocal,
         DoSignalPublish, DoRequestInput, DoPoll, DoForsake, DoSettle, DoReleaseRun, DoDropRun, DoHandOver, DoDeliver;
    if e.BeginUpdate? || e.LookUpRun? || e.Abandon? {
      UpdateCalm(s, e, id);
    } else if e.SignalLocal? || e.SignalPublish? {
      SignalCalm(s, e, id);
    } else if e.Create? || e.FailTask? || e.BeginCancel? || e.BeginSweep? || e.Settle? {
      StoreCalm(s, e, id);
    } else if e.HandOver? {
      HandOverCalm(s, e.op, e.refused, id);
    } else if e.Deliver? {
      DeliverCalm(s, e.msg, e.target, id);
    } else if e.Tick? || e.GetTask? {
      TimeCalm(s, Next(s, e), id);
    } else if e.RequestInput? {
      OtherAskCalm(s, e.id, e.requests, id);
    } else if e.Poll? {
      OtherPollCalm(s, e.id, id);
    } else {
      PhaseCalm(s, e, id);
    }
  }

  lemma TimeCalm(s: State, t: State, id: TaskId)
    requires id in s.runs && t == s.(now := t.now)
    ensures Calm(s, t, id)
  {
  }

  lemma HandOverCalm(s: State, op: OpId, refused: bool, id: TaskId)
    requires Inv(s) && id in s.runs
    ensures Calm(s, DoHandOver(s, op, refused).0, id)
  {
    hide Inv;
    OpFacts(s, op);
    if op in s.ops && s.ops[op].Handing? {
      if s.ops[op].local {
        LocalHandOverCalm(s, op, refused, id);
      } else {
        RemoteHandOverCalm(s, op, refused, id);
      }
    }
  }

  lemma LocalHandOverCalm(s: State, op: OpId, refused: bool, id: TaskId)
    requires Inv(s) && id in s.runs && op in s.ops && s.ops[op].Handing? && s.ops[op].local
    ensures Calm(s, DoHandOver(s, op, refused).0, id)
  {
    hide Inv;
    OpFacts(s, op);
  }

  lemma RemoteHandOverCalm(s: State, op: OpId, refused: bool, id: TaskId)
    requires Inv(s) && id in s.runs && op in s.ops && s.ops[op].Handing? && !s.ops[op].local
    ensures Calm(s, DoHandOver(s, op, refused).0, id)
  {
    hide Inv;
    OpFacts(s, op);
  }

  lemma DeliverCalm(s: State, msg: MsgId, target: Instance, id: TaskId)
    requires Inv(s) && id in s.runs
    ensures Calm(s, DoDeliver(s, msg, target).0, id)
  {
    hide Inv;
    MessageFacts(s, msg);
  }

  lemma AcceptOnCourse(s: State, op: OpId, id: TaskId, requests: Fields, n: nat)
    requires Inv(s) && OnCourse(s, id, requests, n)
    ensures OnCourse(DoAccept(s, op).0, id, requests, n)
  {
    hide Inv;
    OpFacts(s, op);
    var t := DoAccept(s, op).0;
    if |s.runs[id].returned| == n && s.runs[id].call == Waiting(requests) && s.runs[id].queue == [] {
      forall k | OnItsWay(t, id, k)
        ensures !Misfit(t, k, requests)
      {
        assert OnItsWay(s, id, k) ==> !Misfit(s, k, requests);
        MessageFacts(s, MsgId(k, id));
      }
    }
  }

  // The call's own sections: it is not begun twice, and takes the head of its queue or its cancellation.
  lemma OwnStepOnCourse(s: State, e: Event, id: TaskId, requests: Fields, n: nat)
    requires Inv(s) && OnCourse(s, id, requests, n)
    requires e.RequestInput? || e.Poll?
    requires e.id == id
    ensures OnCourse(Next(s, e), id, requests, n)
  {
    hide DoCreate, DoRegister, DoBeginUpdate, DoLookUpRun, DoAccept, DoHandOver, DoFailTask, DoAbandon, DoBeginCancel,
         DoBeginSweep, DoSignalLocal, DoSignalPublish, DoDeliver, DoForsake, DoSettle, DoReleaseRun, DoDropRun;
  }

  lemma AcceptIs(s: State, op: OpId)
    ensures Next(s, Accept(op)) == DoAccept(s, op).0
  {
    hide DoAccept;
  }

  lemma CourseHasRun(s: State, id: TaskId, requests: Fields, n: nat)
    requires OnCourse(s, id, requests, n)
    ensures id in s.runs
  {
  }

  lemma {:induction false} StaysOnCourse(s: State, later: seq<Event>, id: TaskId, requests: Fields, n: nat)
    requires Inv(s) && OnCourse(s, id, requests, n)
    requires forall e :: e in later ==> Awaited(id, e)
    ensures OnCourse(Exec(s, later), id, requests, n)
    decreases |later|
  {
    hide Inv, OnCourse, Next;
    if later != [] {
      var (before, e) := (later[..|later|-1], later[|later|-1]);
      var u := Exec(s, before);
      StaysOnCourse(s, before, id, requests, n);
      RunInv(s, before);
      CourseHasRun(u, id, requests, n);
      assert Awaited(id, e);
      if LeavesAnswers(e, id) {
        CalmStep(u, e, id);
        CalmKeeps(u, Next(u, e), id, requests, n);
      } else if e.Accept? {
        AcceptOnCourse(u, e.op, id, requests, n);
        AcceptIs(u, e.op);
      } else {
        OwnStepOnCourse(u, e, id, requests, n);
      }
    }
  }

  // An input call that has just been recorded: its token has not fired, and its task has its requests.
  lemma BegunFacts(s: State, id: TaskId, requests: Fields)
    requires Inv(s) && Begins(s, id, requests)
    ensures var t := Next(s, RequestInput(id, requests));
            && Inv(t) && t == s.(store := t.store, runs := s.runs[id := s.runs[id].(call := Waiting(requests))])
            && s.runs[id].phase == Live && !s.runs[id].fired
            && id in t.store && t.store[id].detail.payload == InputRequiredPayload(requests)
  {
    InvStep(s, RequestInput(id, requests));
    StoreFacts(s, id);
    assert s.runs[id].fired ==> Gone(s.store, s.runs, id);
  }

  // How the stray `k` gets to the call: it is handed over, it is delivered, and it is polled for.
  function Route(s: State, id: TaskId, k: OpId): seq<Event>
    requires id in s.runs
  {
    if k in s.ops && s.ops[k].Handing? && s.ops[k].local then [HandOver(k, false), Poll(id)]
    else if k in s.ops && s.ops[k].Handing? then [HandOver(k, false), Deliver(MsgId(k, id), s.runs[id].inst), Poll(id)]
    else [Deliver(MsgId(k, id), s.runs[id].inst), Poll(id)]
  }

  lemma ExecTwo(s: State, a: Event, b: Event)
    ensures Exec(s, [a]) == Next(s, a)
    ensures Exec(s, [a, b]) == Next(Next(s, a), b)
  {
    hide Next;
    assert [a][..0] == [] && [a, b][..1] == [a];
  }

  lemma ExecThree(s: State, a: Event, b: Event, c: Event)
    ensures Exec(s, [a, b, c]) == Next(Next(Next(s, a), b), c)
  {
    hide Next;
    ExecTwo(s, a, b);
    assert [a, b, c][..2] == [a, b];
  }

  // With `sent` at the head of its queue, the waiting call returns it.
  lemma PollReturnsHead(s: State, id: TaskId, requests: Fields, sent: Sent)
    requires id in s.runs && s.runs[id].phase == Live && !s.runs[id].fired && s.runs[id].call == Waiting(requests)
    requires s.runs[id].queue != [] && s.runs[id].queue[0] == sent && sent.responses.Keys != requests.Keys
    ensures Misanswered(Next(s, Poll(id)), id, |s.runs[id].returned|)
  {
  }

  // A stray on its way comes into the empty queue before anything else.
  lemma StrayArrives(s: State, id: TaskId, requests: Fields, k: OpId)
    requires Inv(s) && id in s.runs && s.runs[id].phase == Live && !s.runs[id].fired
    requires s.runs[id].call == Waiting(requests) && s.runs[id].queue == []
    requires OnItsWay(s, id, k) && Misfit(s, k, requests)
    ensures Misanswered(Exec(s, Route(s, id, k)), id, |s.runs[id].returned|)
  {
    hide Inv;
    OpFacts(s, k);
    MessageFacts(s, MsgId(k, id));
    var inst := s.runs[id].inst;
    if k in s.ops && s.ops[k].Handing? {
      HandedArrives(s, id, requests, k);
    } else {
      ExecTwo(s, Deliver(MsgId(k, id), inst), Poll(id));
      PollReturnsHead(Next(s, Deliver(MsgId(k, id), inst)), id, requests, s.bus[MsgId(k, id)].signal.sent);
    }
  }

  lemma HandedArrives(s: State, id: TaskId, requests: Fields, k: OpId)
    requires id in s.runs && s.runs[id].phase == Live && !s.runs[id].fired
    requires s.runs[id].call == Waiting(requests) && s.runs[id].queue == []
    requires k in s.ops && s.ops[k].Handing? && s.ops[k].id == id && s.ops[k].responses.Keys != requests.Keys
    requires s.ops[k].local || (s.ops[k].inst != s.runs[id].inst && s.runs[id].inst in s.cfg.instances)
    ensures Misanswered(Exec(s, Route(s, id, k)), id, |s.runs[id].returned|)
  {
    var t := Next(s, HandOver(k, false));
    var arrival := Deliver(MsgId(k, id), s.runs[id].inst);
    if s.ops[k].local {
      ExecTwo(s, HandOver(k, false), Poll(id));
      PollReturnsHead(t, id, requests, Sent(k, s.ops[k].responses));
    } else {
      ExecThree(s, HandOver(k, false), arrival, Poll(id));
      PollReturnsHead(Next(t, arrival), id, requests, Sent(k, s.ops[k].responses));
    }
  }

  lemma SomeRoute(s: State, id: TaskId, requests: Fields) returns (later: seq<Event>)
    requires Inv(s) && id in s.runs && s.runs[id].phase == Live && !s.runs[id].fired
    requires s.runs[id].call == Waiting(requests) && StrayComesFirst(s, id, requests)
    ensures forall e :: e in later ==> Awaited(id, e)
    ensures Misanswered(Exec(s, later), id, |s.runs[id].returned|)
  {
    hide Inv, Next, Misanswered;
    if s.runs[id].queue != [] {
      later := [Poll(id)];
      ExecTwo(s, Poll(id), Poll(id));
      PollReturnsHead(s, id, requests, s.runs[id].queue[0]);
    } else {
      var k :| OnItsWay(s, id, k) && Misfit(s, k, requests);
      later := Route(s, id, k);
      StrayArrives(s, id, requests, k);
    }
  }

  // Recording a call moves no answer.
  lemma RecordingMovesNothing(s: State, t: State, id: TaskId, requests: Fields)
    requires id in s.runs && id in t.runs && t.runs[id].inst == s.runs[id].inst && t.runs[id].queue == s.runs[id].queue
    requires t.ops == s.ops && t.bus == s.bus && t.accepted == s.accepted && t.cfg == s.cfg
    ensures StrayComesFirst(t, id, requests) <==> StrayComesFirst(s, id, requests)
  {
    assert forall k :: OnItsWay(t, id, k) <==> OnItsWay(s, id, k);
    assert forall k :: Misfit(t, k, requests) <==> Misfit(s, k, requests);
  }

  /**
   * Whatever has been abandoned before: an input call can be told answers to something else, while its operation
   * waits it out, if and only if a stray answer heads its queue as it begins, or the queue is empty and one is on
   * its way there.
   */
  lemma CallIsMisansweredIff(cfg: Config, now: int, es: seq<Event>, id: TaskId, requests: Fields)
    requires Begins(Reached(cfg, now, es), id, requests)
    ensures var s := Reached(cfg, now, es);
            var t := Next(s, RequestInput(id, requests));
            StrayComesFirst(s, id, requests) <==>
              exists later: seq<Event> ::
                (forall e :: e in later ==> Awaited(id, e)) && Misanswered(Exec(t, later), id, |s.runs[id].returned|)
  {
    hide Inv, Next, StrayComesFirst;
    var s := Reached(cfg, now, es);
    var t := Next(s, RequestInput(id, requests));
    var n := |s.runs[id].returned|;
    ReachedInv(cfg, now, es);
    BegunFacts(s, id, requests);
    RecordingMovesNothing(s, t, id, requests);
    if StrayComesFirst(s, id, requests) {
      var later := SomeRoute(t, id, requests);
    } else {
      forall later: seq<Event> | forall e :: e in later ==> Awaited(id, e)
        ensures !Misanswered(Exec(t, later), id, n)
      {
        StaysOnCourse(t, later, id, requests, n);
      }
    }
  }

  /** So a call that begins with no accepted update of its task under way returns answers that fit. */
  lemma CleanCallIsAnswered(cfg: Config, now: int, es: seq<Event>, id: TaskId, requests: Fields, later: seq<Event>)
    requires var s := Reached(cfg, now, es);
             Begins(s, id, requests) && forall k :: k in s.accepted && s.accepted[k].id == id ==> !Undelivered(s.accepted[k])
    requires forall e :: e in later ==> Awaited(id, e)
    ensures var s := Reached(cfg, now, es);
            !Misanswered(Exec(Next(s, RequestInput(id, requests)), later), id, |s.runs[id].returned|)
  {
    hide Inv, Next;
    var s := Reached(cfg, now, es);
    ReachedInv(cfg, now, es);
    NoneUnderWay(s, id, requests);
    CallIsMisansweredIff(cfg, now, es, id, requests);
  }

  lemma NoneUnderWay(s: State, id: TaskId, requests: Fields)
    requires Inv(s) && id in s.runs
    requires forall k :: k in s.accepted && s.accepted[k].id == id ==> !Undelivered(s.accepted[k])
    ensures !StrayComesFirst(s, id, requests)
  {
    hide Inv;
    QueueFacts(s, id);
    forall k
      ensures !OnItsWay(s, id, k)
    {
      OpFacts(s, k);
      MessageFacts(s, MsgId(k, id));
    }
  }

  lemma QueueFacts(s: State, id: TaskId)
    requires Inv(s) && id in s.runs
    ensures s.runs[id].queue != [] ==> Carries(s.accepted, id, s.runs[id].queue[0], Queued)
  {
    assert RunOk(s.accepted, id, s.runs[id]);
  }
}
