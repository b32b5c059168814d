/** What each section of a request to a client comes to, written out, and when one times out, over every run. */
module RequestDeadlines {
  import opened Wrappers
  import opened Json
  import opened ClientChannel
  import opened RequestMachine
  import opened RequestSafety
  import opened RequestTheorems

  // ---- One section at a time -------------------------------------------------------------------

  // Why a request is not made, in the order the faults are looked for; none if it is.
  function BeginFault(s: State, over: Option<nat>, era: Era, needs: Needs, serializes: bool, id: Option<string>)
    : Option<RequestError>
  {
    if over == None || over.value !in s.conns || era == Unbound then Some(NoConnection)
    else if era == Modern then Some(StatelessRevision)
    else if s.conns[over.value].session == None then Some(CapabilityNotDeclared(needs))
    else if needs == Sampling && !s.conns[over.value].session.value.sampling then Some(CapabilityNotDeclared(Sampling))
    else if needs == FormElicitation && !s.conns[over.value].session.value.formElicitation
    then Some(CapabilityNotDeclared(FormElicitation))
    else if !s.conns[over.value].reaches then Some(NoEventStream)
    else if !serializes || id == None then Some(Internal)
    else None
  }

  /** A request is made over a connection of the session's era whose client declared what it needs, and else refused. */
  lemma BeginOutcome(s: State, call: nat, over: Option<nat>, era: Era, token: nat, needs: Needs, serializes: bool,
                     id: Option<string>)
    requires call !in s.calls && (id.Some? ==> Fresh(s, id.value))
    ensures var (t, reply) := Step(s, Begin(call, over, era, token, needs, serializes, id));
            match BeginFault(s, over, era, needs, serializes, id)
            case Some(fault) => t == s && reply == Refused(fault)
            case None => reply == Silent && over.Some? && id.Some?
                         && t == s.(calls := s.calls[call := Call(over.value, token, id.value, Awaited, Registering)])
  {
  }

  /** It enters the table under its caller and id; once the table is closed it ends there, disconnected. */
  lemma RegisterOutcome(s: State, call: nat)
    requires Has(s, call) && s.calls[call].pc == Registering
    ensures var (t, reply) := Step(s, Register(call));
            var c := s.calls[call];
            && t.conns == s.conns
            && match s.table
               case None =>
                 reply == Ended(Some(Err(Disconnected))) && t.table == None
                 && t.calls == s.calls[call := c.(pc := Done(Answered, Some(Err(Disconnected))))]
               case Some(entries) =>
                 reply == Silent && t.table == Some(entries[Key(s.conns[c.conn].caller, c.id) := call])
                 && t.calls == s.calls[call := c.(pc := Sending)]
  {
  }

  /** Its client hears it, and has the connection's timeout from then on to answer; a client gone ends it disconnected. */
  lemma SendOutcome(s: State, call: nat)
    requires Has(s, call) && s.calls[call].pc == Sending
    ensures var t := Next(s, Send(call));
            var c := s.calls[call];
            var conn := s.conns[c.conn];
            && t.table == s.table
            && if conn.reaches && conn.open
               then t.conns == s.conns[c.conn := conn.(sent := conn.sent + [Request(c.id)])]
                    && t.calls == s.calls[call := c.(pc := Polling(s.now + conn.timeout))]
               else t.conns == s.conns && t.calls == s.calls[call := c.(pc := Forgetting(Answered, Some(Err(Disconnected))))]
  {
  }

  // What a client's response says: an error first, then a result.
  function Said(r: Response): Answer {
    if r.error.Some? then Err(Rpc(r.error.value))
    else if r.result.Some? then Ok(r.result.value)
    else Err(Rpc(RpcError(-32600, "the client's response carries neither a result nor an error")))
  }

  /** A wait looks for its cancellation, then for an answer, then at the clock; with none of them it goes on. */
  lemma PollOutcome(s: State, call: nat)
    requires Has(s, call) && s.calls[call].pc.Polling?
    ensures var t := Next(s, Poll(call));
            var c := s.calls[call];
            if c.token in s.fired then t == Put(s, call, c.(pc := Forgetting(CallCancelled, Some(Err(Cancelled)))))
            else if c.slot.Filled? then t == Put(s, call, c.(pc := Forgetting(Answered, Some(Said(c.slot.response)))))
            else if c.slot.HungUp? then t == Put(s, call, c.(pc := Forgetting(Answered, Some(Err(Disconnected)))))
            else if s.now < c.pc.deadline then t == s
            else t == Put(s, call, c.(pc := Forgetting(TookTooLong, Some(Err(TimedOut)))))
  {
    assert s.calls[call := s.calls[call]] == s.calls;
  }

  /** A wait that ended leaves the table and, unless it was answered, tells its client why; a dropped one does likewise. */
  lemma EndOutcome(s: State, call: nat, outcome: Abandoned, result: Option<Answer>)
    requires Has(s, call) && s.calls[call].pc == Forgetting(outcome, result)
    ensures var c := s.calls[call];
            var conn := s.conns[c.conn];
            var (t, reply) := Step(s, Forget(call));
            var (u, told) := Step(t, Notify(call));
            && t.conns == s.conns && (s.table.Some? ==> t.table == Some(s.table.value - {Key(conn.caller, c.id)}))
            && if outcome == Answered
               then reply == Ended(result) && t.calls == s.calls[call := c.(pc := Done(Answered, result))]
               else reply == Silent && told == Ended(result) && u.table == t.table
                    && u.conns == (if conn.reaches && conn.open
                                   then s.conns[c.conn := conn.(sent := conn.sent + [Notice(c.id, outcome)])] else s.conns)
                    && u.calls == s.calls[call := c.(pc := Done(outcome, result))]
  {
    var c := s.calls[call];
    assert s.calls[call := c.(pc := Noticing(outcome, result))][call := c.(pc := Done(outcome, result))]
        == s.calls[call := c.(pc := Done(outcome, result))];
  }

  lemma DropOutcome(s: State, call: nat)
    requires Has(s, call) && s.calls[call].pc.Polling?
    ensures Next(s, DropFuture(call)) == Put(s, call, s.calls[call].(pc := Forgetting(Dropped, None)))
  {
  }

  /** A response is taken to the wait its id names, of the caller it comes from, and to nobody when there is none. */
  lemma TakeOutcome(s: State, delivery: nat, caller: CallerKey, response: Response)
    requires delivery !in s.deliveries
    ensures var (t, reply) := Step(s, Take(delivery, caller, response));
            && t.calls == s.calls && t.conns == s.conns
            && if response.id.Some? && response.id.value.Str? && s.table.Some?
                  && Key(caller, response.id.value.s) in s.table.value
               then reply == Silent && t.table == Some(s.table.value - {Key(caller, response.id.value.s)})
                    && t.deliveries == s.deliveries[delivery :=
                                         Delivery(s.table.value[Key(caller, response.id.value.s)], response)]
               else t == s && reply == Delivered(false)
  {
  }

  // Somebody waits there; or, `late`, the wait has ended and its receiving end is still to be dropped.
  predicate HasReceiver(c: Call, late: bool) {
    || c.pc == Sending || c.pc.Polling?
    || (late && (c.pc.Forgetting? || (c.pc.Done? && c.pc.outcome == Answered && c.pc.result == Some(Err(Disconnected)))))
  }

  /** It fills the wait, if its receiving end is still there, and says whether. */
  lemma HandOverOutcome(s: State, delivery: nat, late: bool)
    requires delivery in s.deliveries
    ensures var (t, reply) := Step(s, HandOver(delivery, late));
            var d := s.deliveries[delivery];
            && t.table == s.table && t.conns == s.conns && t.deliveries == s.deliveries - {delivery}
            && if d.call in s.calls && HasReceiver(s.calls[d.call], late)
               then reply == Delivered(true) && t.calls == s.calls[d.call := s.calls[d.call].(slot := Filled(d.response))]
               else reply == Delivered(false) && t.calls == s.calls
  {
  }

  /** Closing hangs up on every wait with no answer yet, and leaves the others their answers. */
  lemma CloseOutcome(s: State)
    requires s.table.Some?
    ensures var t := Next(s, CloseTable);
            && t.table == None && t.conns == s.conns && t.deliveries == s.deliveries && t.calls.Keys == s.calls.Keys
            && forall c :: c in s.calls ==>
                 t.calls[c] == if s.calls[c].slot == Awaited && exists key :: key in s.table.value && s.table.value[key] == c
                               then s.calls[c].(slot := HungUp) else s.calls[c]
  {
    forall c
      ensures c in s.table.value.Values <==> exists key :: key in s.table.value && s.table.value[key] == c
    {
    }
  }

  /** A connection starts open with nothing said, may have its client's capabilities declared, and goes once; time goes on. */
  lemma ConnectionOutcome(s: State, conn: nat, value: Conn, declared: Capabilities, token: nat, to: nat)
    ensures conn !in s.conns ==> Next(s, Connect(conn, value)) == s.(conns := s.conns[conn := value.(sent := [], open := true)])
    ensures conn in s.conns ==> Next(s, Connect(conn, value)) == s
    ensures conn in s.conns && s.conns[conn].session.Some? ==>
              Next(s, Declare(conn, declared)) == s.(conns := s.conns[conn := s.conns[conn].(session := Some(declared))])
    ensures conn in s.conns ==> Next(s, Hangup(conn)) == s.(conns := s.conns[conn := s.conns[conn].(open := false)])
    ensures Next(s, Fire(token)) == s.(fired := s.fired + {token})
    ensures Next(s, Tick(to)) == s.(now := if to < s.now then s.now else to)
  {
  }

  /** Requests over HTTP come from the same caller if and only if their identities do and their sessions or, with none, credentials. */
  lemma HttpCallersAgreeIff(user: Option<string>, tenant: Option<string>, session: Option<string>, credential: Option<nat>,
                            user': Option<string>, tenant': Option<string>, session': Option<string>, credential': Option<nat>)
    ensures HttpCaller(user, tenant, session, credential) == HttpCaller(user', tenant', session', credential') <==>
              user == user' && tenant == tenant' && session == session' && (session == None ==> credential == credential')
    ensures HttpCaller(user, tenant, session, credential).TellsCallersApart() <==> session.Some? || user.Some? || tenant.Some?
  {
  }

  // ---- When a request times out ----------------------------------------------------------------

  function TimeoutOf(s: State, call: nat): nat
    requires Has(s, call)
  {
    s.conns[s.calls[call].conn].timeout
  }

  ghost function At(es: seq<Event>, i: nat): State
    requires i <= |es|
  {
    Exec(Init(), es[..i])
  }

  // The `i`-th event sent the call's request, to a client that heard it.
  ghost predicate SentAt(es: seq<Event>, call: nat, i: nat) {
    && i < |es| && es[i] == Send(call)
    && Has(At(es, i), call) && At(es, i).calls[call].pc == Sending
    && At(es, i).conns[At(es, i).calls[call].conn].reaches && At(es, i).conns[At(es, i).calls[call].conn].open
  }

  // The `j`-th event looked at the call when it was neither cancelled nor answered nor hung up on.
  ghost predicate LookedInVainAt(es: seq<Event>, call: nat, j: nat) {
    && j < |es| && es[j] == Poll(call)
    && Has(At(es, j), call) && At(es, j).calls[call].pc.Polling?
    && At(es, j).calls[call].slot == Awaited && At(es, j).calls[call].token !in At(es, j).fired
  }

  predicate Overdue(pc: Pc) {
    (pc.Forgetting? || pc.Noticing? || pc.Done?) && pc.outcome == TookTooLong
  }

  // A waiting call was sent its timeout before its deadline, and one that took too long was looked at past it.
  ghost predicate TimesOk(es: seq<Event>, call: nat) {
    var s := Exec(Init(), es);
    Has(s, call) ==>
      && (s.calls[call].pc.Polling? ==>
            exists i: nat :: SentAt(es, call, i) && s.calls[call].pc.deadline == At(es, i).now + TimeoutOf(s, call))
      && (Overdue(s.calls[call].pc) ==>
            exists i: nat, j: nat ::
              i < j && SentAt(es, call, i) && LookedInVainAt(es, call, j) && At(es, i).now + TimeoutOf(s, call) <= At(es, j).now)
  }

  lemma SentStays(es: seq<Event>, e: Event, call: nat, i: nat)
    requires i <= |es|
    ensures At(es + [e], i) == At(es, i)
    ensures SentAt(es, call, i) ==> SentAt(es + [e], call, i)
    ensures LookedInVainAt(es, call, i) ==> LookedInVainAt(es + [e], call, i)
  {
    hide Exec;
    assert (es + [e])[..i] == es[..i];
  }

  // Where a call stands after a step, as far as time goes.
  lemma TimedStep(s: State, e: Event, call: nat)
    requires Has(Next(s, e), call) && IdsOk(s.calls, s.conns)
    ensures !Has(s, call) ==> !Next(s, e).calls[call].pc.Polling? && !Overdue(Next(s, e).calls[call].pc)
    ensures Has(s, call) ==> TimeoutOf(Next(s, e), call) == TimeoutOf(s, call)
    ensures Has(s, call) && Next(s, e).calls[call].pc.Polling? ==>
              || s.calls[call].pc == Next(s, e).calls[call].pc
              || (e == Send(call) && s.calls[call].pc == Sending && s.conns[s.calls[call].conn].reaches
                  && s.conns[s.calls[call].conn].open && Next(s, e).calls[call].pc.deadline == s.now + TimeoutOf(s, call))
    ensures Has(s, call) && Overdue(Next(s, e).calls[call].pc) ==>
              || Overdue(s.calls[call].pc)
              || (e == Poll(call) && s.calls[call].pc.Polling? && s.calls[call].slot == Awaited
                  && s.calls[call].token !in s.fired && s.now >= s.calls[call].pc.deadline)
  {
    hide Check, Registered, Forgotten, Waits, Fresh;
  }

  lemma {:induction false} TimesHold(es: seq<Event>, call: nat)
    ensures TimesOk(es, call)
    decreases |es|
  {
    if es != [] {
      var before, e := es[..|es|-1], es[|es|-1];
      assert es == before + [e];
      TimesHold(before, call);
      ReachedInv(before);
      TimesMore(before, e, call);
    }
  }

  lemma IdsFact(s: State)
    requires Inv(s)
    ensures IdsOk(s.calls, s.conns)
  {
  }

  lemma ExecMore(es: seq<Event>, e: Event)
    ensures Exec(Init(), es + [e]) == Next(Exec(Init(), es), e) && At(es, |es|) == Exec(Init(), es)
    ensures At(es + [e], |es|) == Exec(Init(), es)
  {
    hide Next;
    assert (es + [e])[..|es|] == es && es[..|es|] == es;
  }

  lemma WaitsInTime(es: seq<Event>, e: Event, call: nat)
    requires TimesOk(es, call) && IdsOk(Exec(Init(), es).calls, Exec(Init(), es).conns)
    requires var t := Exec(Init(), es + [e]); Has(t, call) && t.calls[call].pc.Polling?
    ensures var t := Exec(Init(), es + [e]);
            exists i: nat :: SentAt(es + [e], call, i) && t.calls[call].pc.deadline == At(es + [e], i).now + TimeoutOf(t, call)
  {
    hide Exec, Next, IdsOk;
    var s, t := Exec(Init(), es), Exec(Init(), es + [e]);
    ExecMore(es, e);
    TimedStep(s, e, call);
    if s.calls[call].pc == t.calls[call].pc {
      var i: nat :| SentAt(es, call, i) && s.calls[call].pc.deadline == At(es, i).now + TimeoutOf(s, call);
      SentStays(es, e, call, i);
      assert SentAt(es + [e], call, i);
    } else {
      assert SentAt(es + [e], call, |es|);
    }
  }

  lemma OverdueInTime(es: seq<Event>, e: Event, call: nat)
    requires TimesOk(es, call) && IdsOk(Exec(Init(), es).calls, Exec(Init(), es).conns)
    requires var t := Exec(Init(), es + [e]); Has(t, call) && Overdue(t.calls[call].pc)
    ensures var t := Exec(Init(), es + [e]);
            exists i: nat, j: nat ::
              i < j && SentAt(es + [e], call, i) && LookedInVainAt(es + [e], call, j)
              && At(es + [e], i).now + TimeoutOf(t, call) <= At(es + [e], j).now
  {
    hide Exec, Next, IdsOk;
    var s, t := Exec(Init(), es), Exec(Init(), es + [e]);
    ExecMore(es, e);
    TimedStep(s, e, call);
    if Overdue(s.calls[call].pc) {
      var i: nat, j: nat :| i < j && SentAt(es, call, i) && LookedInVainAt(es, call, j)
                            && At(es, i).now + TimeoutOf(s, call) <= At(es, j).now;
      SentStays(es, e, call, i);
      SentStays(es, e, call, j);
      assert SentAt(es + [e], call, i) && LookedInVainAt(es + [e], call, j);
    } else {
      var i: nat :| SentAt(es, call, i) && s.calls[call].pc.deadline == At(es, i).now + TimeoutOf(s, call);
      SentStays(es, e, call, i);
      assert SentAt(es + [e], call, i) && LookedInVainAt(es + [e], call, |es|);
    }
  }

  lemma TimesMore(es: seq<Event>, e: Event, call: nat)
    requires TimesOk(es, call) && Inv(Exec(Init(), es))
    ensures TimesOk(es + [e], call)
  {
    hide Inv, Exec, Next, IdsOk, SentAt, LookedInVainAt;
    var t := Exec(Init(), es + [e]);
    IdsFact(Exec(Init(), es));
    if Has(t, call) {
      if t.calls[call].pc.Polling? {
        WaitsInTime(es, e, call);
      }
      if Overdue(t.calls[call].pc) {
        OverdueInTime(es, e, call);
      }
    }
  }

  /**
   * In every run a call that took too long was sent to its client, and was looked at, unanswered and uncancelled, no
   * earlier than its connection's timeout after that.
   */
  lemma TimedOutIsOverdue(es: seq<Event>, call: nat)
    requires var s := Exec(Init(), es); Has(s, call) && Overdue(s.calls[call].pc)
    ensures var s := Exec(Init(), es);
            exists i: nat, j: nat ::
              i < j && SentAt(es, call, i) && LookedInVainAt(es, call, j) && At(es, i).now + TimeoutOf(s, call) <= At(es, j).now
  {
    hide Exec, SentAt, LookedInVainAt;
    TimesHold(es, call);
  }

  // The three sections that end a wait: the look at it, its leaving the table, and its notice.
  ghost function EndedWait(s: State, call: nat): Outcome {
    Step(Next(Next(s, Poll(call)), Forget(call)), Notify(call))
  }

  // The call, nothing having come in, ends timed out and says so.
  ghost predicate EndsTimedOut(s: State, call: nat)
    requires Has(s, call)
  {
    var (t, reply) := EndedWait(s, call);
    var c := s.calls[call];
    && reply == Ended(Some(Err(TimedOut)))
    && c.conn in t.conns && t.conns[c.conn].sent == s.conns[c.conn].sent + [Notice(c.id, TookTooLong)]
  }

  lemma VainLook(s: State, call: nat)
    requires Has(s, call) && s.calls[call].pc.Polling? && s.calls[call].slot == Awaited && s.calls[call].token !in s.fired
    requires s.conns[s.calls[call].conn].reaches
    ensures s.now < s.calls[call].pc.deadline ==> Next(s, Poll(call)) == s
    ensures s.now >= s.calls[call].pc.deadline && s.conns[s.calls[call].conn].open ==> EndsTimedOut(s, call)
  {
    hide Step;
    PollOutcome(s, call);
    if s.now >= s.calls[call].pc.deadline {
      EndOutcome(Put(s, call, s.calls[call].(pc := Forgetting(TookTooLong, Some(Err(TimedOut))))), call, TookTooLong,
                 Some(Err(TimedOut)));
    }
  }

  /**
   * In every run a waiting call, looked at with no answer in, goes on waiting until its connection's timeout has passed
   * since it was sent; and then it ends so, and its client is told.
   */
  lemma WaitEndsWithItsTimeout(es: seq<Event>, call: nat)
    requires LookedInVainAt(es + [Poll(call)], call, |es|)
    ensures var s := Exec(Init(), es);
            Has(s, call) && exists i: nat ::
              SentAt(es, call, i)
              && (s.now < At(es, i).now + TimeoutOf(s, call) ==> Next(s, Poll(call)) == s)
              && (s.now >= At(es, i).now + TimeoutOf(s, call) && s.conns[s.calls[call].conn].open ==> EndsTimedOut(s, call))
  {
    hide Exec, Inv, Next, EndsTimedOut;
    var s := Exec(Init(), es);
    ExecMore(es, Poll(call));
    TimesHold(es, call);
    ReachedInv(es);
    ReachesClient(s, call);
    VainLook(s, call);
    var i: nat :| SentAt(es, call, i) && s.calls[call].pc.deadline == At(es, i).now + TimeoutOf(s, call);
    assert SentAt(es, call, i);
  }

  lemma ReachesClient(s: State, call: nat)
    requires Inv(s) && Has(s, call)
    ensures s.conns[s.calls[call].conn].reaches
  {
    Reached(s, call);
  }
}
