/**
 * Requests to clients in flight over one table of pending requests: what the calls that send them, the transports
 * that hand answers in, and the connections' ends do. One step is one section under the table's lock, one send, or
 * one poll; a call's future may be dropped while it waits.
 */
module RequestMachine {
  import opened Wrappers
  import opened Json
  import opened ClientChannel

  // A connection: whether anything reaches the client ahead of the response, and the session, if any.
  datatype Conn = Conn(caller: CallerKey, reaches: bool, session: Option<Capabilities>, timeout: nat,
                       open: bool, sent: seq<Message>)

  datatype Pc =
    | Registering
    | Sending
    | Polling(deadline: nat)
    | Forgetting(outcome: Abandoned, result: Option<Answer>)
    | Noticing(outcome: Abandoned, result: Option<Answer>)
    | Done(outcome: Abandoned, result: Option<Answer>)

  // One call of `request` past its checks. No result once its future was dropped.
  datatype Call = Call(conn: nat, token: nat, id: string, slot: Slot, pc: Pc) {
    // The receiving end is still there.
    predicate Listening() { pc == Sending || pc.Polling? }

    // It may still be there: a wait that ended drops it before it forgets its entry, a failed send after.
    predicate MayListen() { pc.Forgetting? || pc == Done(Answered, Some(Err(Disconnected))) }
  }

  // A sender taken out of the table, on its way to be sent on.
  datatype Delivery = Delivery(call: nat, response: Response)

  datatype State = State(
    now: nat,
    conns: map<nat, Conn>,
    table: Table<nat>,
    calls: map<nat, Call>,
    deliveries: map<nat, Delivery>,
    fired: set<nat>)

  // `id` is the one drawn for the request, none when the system has no randomness.
  datatype Event =
    | Tick(to: nat)
    | Connect(conn: nat, value: Conn)
    | Declare(conn: nat, declared: Capabilities)
    | Hangup(conn: nat)
    | Fire(token: nat)
    | Begin(call: nat, over: Option<nat>, era: Era, token: nat, needs: Needs, serializes: bool, id: Option<string>)
    | Register(call: nat)
    | Send(call: nat)
    | Poll(call: nat)
    | DropFuture(call: nat)
    | Forget(call: nat)
    | Notify(call: nat)
    | Take(delivery: nat, caller: CallerKey, response: Response)
    | HandOver(delivery: nat, late: bool)
    | CloseTable

  datatype Reply = Silent | Refused(error: RequestError) | Delivered(ok: bool) | Ended(result: Option<Answer>)

  type Outcome = (State, Reply)

  function Init(): State {
    State(0, map[], Some(map[]), map[], map[], {})
  }

  type Conns = map<nat, Conn>
  type Calls = map<nat, Call>
  type Deliveries = map<nat, Delivery>

  predicate Has(s: State, call: nat) {
    call in s.calls && s.calls[call].conn in s.conns
  }

  function KeyOf(conns: Conns, c: Call): Key
    requires c.conn in conns
  {
    Key(conns[c.conn].caller, c.id)
  }

  function Put(s: State, call: nat, c: Call): State {
    s.(calls := s.calls[call := c])
  }

  function Reaches(c: Conn): bool { c.reaches && c.open }

  function Say(s: State, conn: nat, m: Message): State
    requires conn in s.conns
  {
    if Reaches(s.conns[conn])
    then s.(conns := s.conns[conn := s.conns[conn].(sent := s.conns[conn].sent + [m])])
    else s
  }

  // The checks of `request`, in order.
  function Check(s: State, conn: Option<nat>, era: Era, needs: Needs, serializes: bool, id: Option<string>): Option<RequestError> {
    if conn.None? || conn.value !in s.conns then Some(NoConnection)
    else if era == Unbound then Some(NoConnection)
    else if era == Modern then Some(StatelessRevision)
    else
      var c := s.conns[conn.value];
      if c.session.None? || !needs.DeclaredIn(c.session.value) then Some(CapabilityNotDeclared(needs))
      else if !c.reaches then Some(NoEventStream)
      else if !serializes || id.None? then Some(Internal)
      else None
  }

  // Ids are random: one drawn before is not drawn again.
  ghost predicate Fresh(s: State, id: string) {
    forall c :: c in s.calls ==> s.calls[c].id != id
  }

  ghost function DoBegin(s: State, call: nat, conn: Option<nat>, era: Era, token: nat, needs: Needs, serializes: bool,
                         id: Option<string>): Outcome
  {
    if call in s.calls || (id.Some? && !Fresh(s, id.value)) then (s, Silent)
    else
      match Check(s, conn, era, needs, serializes, id)
      case Some(error) => (s, Refused(error))
      case None => (Put(s, call, Call(conn.value, token, id.value, Awaited, Registering)), Silent)
  }

  function DoRegister(s: State, call: nat): Outcome {
    if Has(s, call) && s.calls[call].pc.Registering? then
      if s.table.None?
      then (Put(s, call, s.calls[call].(pc := Done(Answered, Some(Err(Disconnected))))), Ended(Some(Err(Disconnected))))
      else (Put(s, call, s.calls[call].(pc := Sending)).(table := Registered(s.table, KeyOf(s.conns, s.calls[call]), call)), Silent)
    else (s, Silent)
  }

  function DoSend(s: State, call: nat): Outcome {
    if Has(s, call) && s.calls[call].pc.Sending? then
      var c := s.calls[call];
      var conn := s.conns[c.conn];
      if Reaches(conn)
      then (Put(Say(s, c.conn, Request(c.id)), call, c.(pc := Polling(s.now + conn.timeout))), Silent)
      else (Put(s, call, c.(pc := Forgetting(Answered, Some(Err(Disconnected))))), Silent)
    else (s, Silent)
  }

  // One poll of the wait: cancellation first, then the answer, then the deadline.
  function Settle(s: State, c: Call): Pc
    requires c.pc.Polling?
  {
    if c.token in s.fired then Forgetting(CallCancelled, Some(Err(Cancelled)))
    else
      match c.slot
      case Filled(response) => Forgetting(Answered, Some(ReadResponse(response)))
      case HungUp => Forgetting(Answered, Some(Err(Disconnected)))
      case Awaited => if s.now >= c.pc.deadline then Forgetting(TookTooLong, Some(Err(TimedOut))) else c.pc
  }

  function DoPoll(s: State, call: nat): Outcome {
    if Has(s, call) && s.calls[call].pc.Polling?
    then (Put(s, call, s.calls[call].(pc := Settle(s, s.calls[call]))), Silent)
    else (s, Silent)
  }

  function DoDropFuture(s: State, call: nat): Outcome {
    if Has(s, call) && s.calls[call].pc.Polling?
    then (Put(s, call, s.calls[call].(pc := Forgetting(Dropped, None))), Silent)
    else (s, Silent)
  }

  function DoForget(s: State, call: nat): Outcome {
    if Has(s, call) && s.calls[call].pc.Forgetting? then
      var c := s.calls[call];
      var t := s.(table := Forgotten(s.table, KeyOf(s.conns, s.calls[call])));
      if c.pc.outcome == Answered
      then (Put(t, call, c.(pc := Done(Answered, c.pc.result))), Ended(c.pc.result))
      else (Put(t, call, c.(pc := Noticing(c.pc.outcome, c.pc.result))), Silent)
    else (s, Silent)
  }

  function DoNotify(s: State, call: nat): Outcome {
    if Has(s, call) && s.calls[call].pc.Noticing? then
      var c := s.calls[call];
      (Put(Say(s, c.conn, Notice(c.id, c.pc.outcome)), call, c.(pc := Done(c.pc.outcome, c.pc.result))), Ended(c.pc.result))
    else (s, Silent)
  }

  function DoTake(s: State, delivery: nat, caller: CallerKey, response: Response): Outcome {
    if delivery in s.deliveries then (s, Silent)
    else
      match Waits(s.table, caller, response)
      case None => (s, Delivered(false))
      case Some(call) =>
        (s.(table := Forgotten(s.table, Key(caller, response.id.value.s)),
            deliveries := s.deliveries[delivery := Delivery(call, response)]), Silent)
  }

  // `late` finds the receiving end of a call that has stopped waiting: its answer is taken and read by nobody.
  function DoHandOver(s: State, delivery: nat, late: bool): Outcome {
    if delivery in s.deliveries then
      var d := s.deliveries[delivery];
      var t := s.(deliveries := s.deliveries - {delivery});
      if d.call in s.calls && (s.calls[d.call].Listening() || (late && s.calls[d.call].MayListen()))
      then (Put(t, d.call, s.calls[d.call].(slot := Filled(d.response))), Delivered(true))
      else (t, Delivered(false))
    else (s, Silent)
  }

  function DoCloseTable(s: State): Outcome {
    if s.table.None? then (s, Silent)
    else
      var waiting := s.table.value.Values;
      (s.(table := None,
          calls := map c | c in s.calls ::
            if c in waiting && s.calls[c].slot.Awaited? then s.calls[c].(slot := HungUp) else s.calls[c]), Silent)
  }

  ghost function Step(s: State, e: Event): Outcome {
    match e
    case Tick(to) => (if to >= s.now then s.(now := to) else s, Silent)
    case Connect(conn, value) =>
      (if conn in s.conns then s else s.(conns := s.conns[conn := value.(sent := [], open := true)]), Silent)
    case Declare(conn, declared) =>
      (if conn in s.conns && s.conns[conn].session.Some?
       then s.(conns := s.conns[conn := s.conns[conn].(session := Some(declared))]) else s, Silent)
    case Hangup(conn) =>
      (if conn in s.conns then s.(conns := s.conns[conn := s.conns[conn].(open := false)]) else s, Silent)
    case Fire(token) => (s.(fired := s.fired + {token}), Silent)
    case Begin(call, conn, era, token, needs, serializes, id) => DoBegin(s, call, conn, era, token, needs, serializes, id)
    case Register(call) => DoRegister(s, call)
    case Send(call) => DoSend(s, call)
    case Poll(call) => DoPoll(s, call)
    case DropFuture(call) => DoDropFuture(s, call)
    case Forget(call) => DoForget(s, call)
    case Notify(call) => DoNotify(s, call)
    case Take(delivery, caller, response) => DoTake(s, delivery, caller, response)
    case HandOver(delivery, late) => DoHandOver(s, delivery, late)
    case CloseTable => DoCloseTable(s)
  }

  ghost function Next(s: State, e: Event): State { Step(s, e).0 }

  ghost function Exec(s: State, es: seq<Event>): State
    decreases |es|
  {
    if es == [] then s else Next(Exec(s, es[..|es|-1]), es[|es|-1])
  }
}
