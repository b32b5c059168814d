/** What every run of requests to clients guarantees. */
module RequestTheorems {
  import opened Wrappers
  import opened Json
  import opened ClientChannel
  import opened RequestMachine
  import opened RequestSafety

  /**
   * What a client hears about a request: at most the request, then at most one notice, on the call's own connection.
   * A notice is sent only by a call cancelled, timed out or dropped, says which, and by then its request was sent; a
   * call that ended so has sent it, unless the client is gone.
   */
  lemma OutboundTrace(es: seq<Event>, call: nat, conn: nat)
    requires var s := Exec(Init(), es); call in s.calls && conn in s.conns
    ensures var s := Exec(Init(), es);
            var c := s.calls[call];
            var trace := About(s.conns[conn].sent, c.id);
            && (conn != c.conn ==> trace == [])
            && (trace == [] || trace == [Request(c.id)]
                || exists why :: why != Answered && trace == [Request(c.id), Notice(c.id, why)] && c.pc.Done? && c.pc.outcome == why)
            && (conn == c.conn && c.pc.Done? && c.pc.outcome != Answered && s.conns[conn].open ==>
                  trace == [Request(c.id), Notice(c.id, c.pc.outcome)])
  {
    ReachedInv(es);
    hide About;
  }

  /** The reason a call gives its client is why it ended: its own cancellation, the deadline, or its future dropped. */
  lemma ReasonIsTheResult(es: seq<Event>, call: nat)
    requires var s := Exec(Init(), es); call in s.calls && s.calls[call].pc.Done?
    ensures var s := Exec(Init(), es);
            var c := s.calls[call];
            && (c.pc.outcome == Dropped <==> c.pc.result == None)
            && (c.pc.outcome == CallCancelled <==> c.pc.result == Some(Err(Cancelled)))
            && (c.pc.outcome == TookTooLong <==> c.pc.result == Some(Err(TimedOut)))
            && (c.pc.outcome == CallCancelled ==> c.token in s.fired)
  {
    ReachedInv(es);
    var s := Exec(Init(), es);
    hide IdsOk, TableOk, DeliveriesOk, WaitOk, TracesOk;
    assert CallOk(s, s.calls[call]);
  }

  predicate Handed(es: seq<Event>, caller: CallerKey, response: Response) {
    exists i :: 0 <= i < |es| && es[i].Take? && es[i].caller == caller && es[i].response == response
  }

  // What a call has received, and what is on its way to one, was handed in by its own caller.
  ghost predicate Heard(s: State, es: seq<Event>) {
    && (forall c :: c in s.calls && s.calls[c].conn in s.conns && s.calls[c].slot.Filled? ==>
          Handed(es, s.conns[s.calls[c].conn].caller, s.calls[c].slot.response))
    && (forall d :: d in s.deliveries && Has(s, s.deliveries[d].call) ==>
          Handed(es, s.conns[s.calls[s.deliveries[d].call].conn].caller, s.deliveries[d].response))
  }

  lemma HeardMore(s: State, es: seq<Event>, e: Event)
    requires Heard(s, es)
    ensures Heard(s, es + [e])
  {
    forall caller, response | Handed(es, caller, response)
      ensures Handed(es + [e], caller, response)
    {
      var i :| 0 <= i < |es| && es[i].Take? && es[i].caller == caller && es[i].response == response;
      assert (es + [e])[i] == es[i];
    }
  }

  ghost predicate HearsNothing(s: State, t: State) {
    && t.deliveries == s.deliveries
    && (forall k :: k in s.conns ==> k in t.conns && t.conns[k].caller == s.conns[k].caller)
    && (forall c :: c in s.calls ==> c in t.calls && t.calls[c].conn == s.calls[c].conn)
    && (forall c :: c in t.calls && t.calls[c].slot.Filled? ==> c in s.calls && s.calls[c].slot == t.calls[c].slot)
  }

  // But for handing over and taking, a step leaves every caller, answer and delivery as it found them.
  lemma OthersHearNothing(s: State, e: Event)
    requires !e.Take? && !e.HandOver?
    ensures HearsNothing(s, Next(s, e))
  {
    hide Settle, Check, ReadResponse, Registered, Forgotten, DoBegin, DoCloseTable, DoSend, DoNotify, Say, HearsNothing;
    match e
    case Begin(call, over, era, token, needs, serializes, id) =>
      assert HearsNothing(s, DoBegin(s, call, over, era, token, needs, serializes, id).0) by { BeginHears(s, e); }
    case Send(call) => SpeakerHears(s, call);
    case Notify(call) => SpeakerHears(s, call);
    case CloseTable => CloseHears(s);
    case _ => QuietHears(s, e);
  }

  lemma BeginHears(s: State, e: Event)
    requires e.Begin?
    ensures HearsNothing(s, DoBegin(s, e.call, e.over, e.era, e.token, e.needs, e.serializes, e.id).0)
  {
    hide Check;
  }

  lemma SpeakerHears(s: State, call: nat)
    ensures HearsNothing(s, DoSend(s, call).0) && HearsNothing(s, DoNotify(s, call).0)
  {
  }

  lemma CloseHears(s: State)
    ensures HearsNothing(s, DoCloseTable(s).0)
  {
  }

  lemma QuietHears(s: State, e: Event)
    requires !e.Take? && !e.HandOver? && !e.Begin? && !e.Send? && !e.Notify? && !e.CloseTable?
    ensures HearsNothing(s, Next(s, e))
  {
    hide Settle, Check, ReadResponse, Registered, Forgotten, DoBegin, DoCloseTable, DoSend, DoNotify, Say, DoTake, DoHandOver;
  }

  lemma StepHears(s: State, es: seq<Event>, e: Event)
    requires Inv(s) && Heard(s, es) && (e.Take? ==> Handed(es, e.caller, e.response))
    ensures Heard(Next(s, e), es)
  {
    hide Handed, TracesOk, EndsOk, WaitOk;
    if e.Take? {
    } else if e.HandOver? {
    } else {
      OthersHearNothing(s, e);
      KeptHeard(s, Next(s, e), es);
    }
  }

  lemma KeptHeard(s: State, t: State, es: seq<Event>)
    requires IdsOk(s.calls, s.conns) && DeliveriesOk(s.calls, s.table, s.deliveries) && Heard(s, es)
    requires HearsNothing(s, t)
    ensures Heard(t, es)
  {
    hide Handed;
  }

  lemma {:induction false} ReachedHeard(es: seq<Event>)
    ensures Heard(Exec(Init(), es), es)
    decreases |es|
  {
    if es == [] {
    } else {
      var before, e := es[..|es|-1], es[|es|-1];
      assert es == before + [e];
      ReachedHeard(before);
      ReachedInv(before);
      HeardMore(Exec(Init(), before), before, e);
      assert e.Take? ==> Handed(es, e.caller, e.response) by { assert es[|es|-1] == e; }
      StepHears(Exec(Init(), before), es, e);
    }
  }

  /**
   * Whatever a call returns that is not a failure of its own is what the client's response says, a response under the
   * call's id handed in by the call's own caller.
   */
  lemma ReturnedAnswerWasDelivered(es: seq<Event>, call: nat)
    requires var s := Exec(Init(), es); call in s.calls && s.calls[call].pc.Done? && s.calls[call].pc.outcome == Answered
    ensures var s := Exec(Init(), es);
            var c := s.calls[call];
            && c.conn in s.conns
            && (|| (c.pc.result == Some(Err(Disconnected)) && (s.table.None? || !s.conns[c.conn].open))
                || (c.slot.Filled? && c.pc.result == Some(ReadResponse(c.slot.response))
                    && c.slot.response.id == Some(Str(c.id)) && Handed(es, s.conns[c.conn].caller, c.slot.response)))
  {
    ReachedInv(es);
    ReachedHeard(es);
    var s := Exec(Init(), es);
    hide IdsOk, TableOk, DeliveriesOk, WaitOk, TracesOk;
    assert CallOk(s, s.calls[call]);
  }

  /**
   * The value a call returns is read from the result of a response under its id from its own caller, one without an
   * error; and it fails to be read only if there was such a response and its result does not fit.
   */
  lemma TypedAnswerWasDelivered<R>(es: seq<Event>, call: nat, read: Json -> Option<R>)
    requires var s := Exec(Init(), es); call in s.calls && s.calls[call].pc.Done? && s.calls[call].pc.result.Some?
    ensures var s := Exec(Init(), es);
            var c := s.calls[call];
            var typed := Typed(c.pc.result.value, read);
            typed.Ok? || typed.error == Undecodable ==>
              && c.pc.outcome == Answered && c.conn in s.conns && c.slot.Filled?
              && c.slot.response.error == None && c.slot.response.result.Some?
              && c.slot.response.id == Some(Str(c.id)) && Handed(es, s.conns[c.conn].caller, c.slot.response)
              && read(c.slot.response.result.value) == (if typed.Ok? then Some(typed.value) else None)
  {
    var s := Exec(Init(), es);
    var c := s.calls[call];
    ReasonIsTheResult(es, call);
    EndIsOk(es, call);
    if c.pc.outcome == Answered {
      ReturnedAnswerWasDelivered(es, call);
    }
  }

  lemma EndIsOk(es: seq<Event>, call: nat)
    requires var s := Exec(Init(), es); call in s.calls && s.calls[call].pc.Done?
    ensures var s := Exec(Init(), es);
            var c := s.calls[call];
            c.conn in s.conns && EndOk(s, c, c.pc.outcome, c.pc.result)
  {
    ReachedInv(es);
    var s := Exec(Init(), es);
    hide IdsOk, TableOk, DeliveriesOk, WaitOk, TracesOk;
    assert CallOk(s, s.calls[call]);
  }

  /** An entry of the table is a wait not yet over, of the one call of its caller and id. */
  lemma NoEntryOutlivesItsCall(es: seq<Event>, key: Key)
    requires var s := Exec(Init(), es); s.table.Some? && key in s.table.value
    ensures var s := Exec(Init(), es);
            var call := s.table.value[key];
            && Has(s, call) && KeyOf(s.conns, s.calls[call]) == key && !s.calls[call].pc.Done? && !s.calls[call].pc.Noticing?
            && forall c :: Has(s, c) && s.calls[c].id == key.id ==> c == call
  {
    ReachedInv(es);
    hide DeliveriesOk, WaitOk, TracesOk, EndsOk;
  }

  /** Once closed, the table stays so, and a call that registers then ends disconnected without a word sent. */
  lemma ClosedTakesNobody(s: State, e: Event)
    requires Inv(s) && s.table.None?
    ensures Next(s, e).table.None?
    ensures e.Register? && Has(s, e.call) && s.calls[e.call].pc.Registering? ==>
              && Step(s, e).1 == Ended(Some(Err(Disconnected)))
              && Next(s, e).calls[e.call].pc.Done? && Next(s, e).conns == s.conns
    ensures e.Take? ==> Next(s, e) == s && Step(s, e).1 != Delivered(true)
  {
    hide Inv, Settle, Check;
  }

  /** Closing the table fails every call still waiting: none is left that has no answer, no hang-up and none coming. */
  lemma CloseFailsEveryWait(es: seq<Event>, call: nat)
    requires var s := Next(Exec(Init(), es), CloseTable); call in s.calls && s.calls[call].Listening()
    ensures var s := Next(Exec(Init(), es), CloseTable);
            || s.calls[call].slot.Filled? || s.calls[call].slot.HungUp?
            || exists d :: d in s.deliveries && s.deliveries[d].call == call
  {
    var s := Exec(Init(), es);
    ReachedInv(es);
    InvStep(s, CloseTable);
    hide Inv, DoCloseTable;
    assert Next(s, CloseTable).table.None? by { ClosesTable(s); }
    if Next(s, CloseTable).calls[call].slot.Awaited? {
      ClosedWaits(Next(s, CloseTable), call);
    }
  }

  lemma ClosesTable(s: State)
    ensures Next(s, CloseTable).table.None?
  {
  }

  lemma ClosedWaits(s: State, call: nat)
    requires Inv(s) && s.table.None? && call in s.calls && s.calls[call].Listening() && s.calls[call].slot.Awaited?
    ensures exists d :: d in s.deliveries && s.deliveries[d].call == call
  {
    hide IdsOk, TableOk, DeliveriesOk, EndsOk, TracesOk;
  }

  /** A response disturbs no call but the one it answers: that of the same caller and id. */
  lemma DeliveryIsItsOwn(s: State, delivery: nat, caller: CallerKey, response: Response, late: bool, call: nat)
    requires Inv(s) && Has(s, call) && delivery !in s.deliveries
    requires response.id != Some(Str(s.calls[call].id)) || s.conns[s.calls[call].conn].caller != caller
    ensures var t := Next(Next(s, Take(delivery, caller, response)), HandOver(delivery, late));
            && call in t.calls && t.calls[call] == s.calls[call]
            && (s.table.Some? && KeyOf(s.conns, s.calls[call]) in s.table.value ==>
                  t.table.Some? && KeyOf(s.conns, s.calls[call]) in t.table.value)
  {
    hide WaitOk, TracesOk, EndsOk;
  }

  /** A call is answered once: with an answer in, it is neither in the table nor at the end of a delivery. */
  lemma AnsweredOnce(es: seq<Event>, call: nat)
    requires var s := Exec(Init(), es); call in s.calls && s.calls[call].slot.Filled?
    ensures var s := Exec(Init(), es);
            && (s.table.Some? ==> call !in s.table.value.Values)
            && forall d :: d in s.deliveries ==> s.deliveries[d].call != call
  {
    ReachedInv(es);
    hide WaitOk, TracesOk, EndsOk, IdsOk;
  }

  /** An answer handed in while its call waits is the call's result, if it is not cancelled first; no notice follows. */
  lemma AnswerReachesRequest(es: seq<Event>, call: nat, delivery: nat, response: Response)
    requires var s := Exec(Init(), es);
             && Has(s, call) && s.calls[call].pc.Polling? && s.calls[call].token !in s.fired
             && s.table.Some? && KeyOf(s.conns, s.calls[call]) in s.table.value
             && delivery !in s.deliveries && response.id == Some(Str(s.calls[call].id))
    ensures var s := Exec(Init(), es);
            var taken := DoTake(s, delivery, s.conns[s.calls[call].conn].caller, response);
            var handed := DoHandOver(taken.0, delivery, false);
            var done := DoForget(DoPoll(handed.0, call).0, call);
            && handed.1 == Delivered(true)
            && done.1 == Ended(Some(ReadResponse(response)))
            && call in done.0.calls && done.0.calls[call].pc == Done(Answered, Some(ReadResponse(response)))
            && done.0.conns.Keys == s.conns.Keys
            && About(done.0.conns[s.calls[call].conn].sent, s.calls[call].id) == [Request(s.calls[call].id)]
  {
    var s := Exec(Init(), es);
    ReachedInv(es);
    OwnEntry(s, call);
    Reached(s, call);
    hide Inv, About, ReadResponse, DoTake, DoHandOver, DoPoll, DoForget;
    HandedIn(s, call, delivery, response);
    Finishes(DoHandOver(DoTake(s, delivery, s.conns[s.calls[call].conn].caller, response).0, delivery, false).0, call);
  }

  lemma HandedIn(s: State, call: nat, delivery: nat, response: Response)
    requires Has(s, call) && s.calls[call].pc.Polling? && s.table.Some?
    requires KeyOf(s.conns, s.calls[call]) in s.table.value && s.table.value[KeyOf(s.conns, s.calls[call])] == call
    requires delivery !in s.deliveries && response.id == Some(Str(s.calls[call].id))
    ensures var (t, reply) := DoHandOver(DoTake(s, delivery, s.conns[s.calls[call].conn].caller, response).0, delivery, false);
            && reply == Delivered(true) && call in t.calls && t.calls[call] == s.calls[call].(slot := Filled(response))
            && t.conns == s.conns && t.fired == s.fired
  {
  }

  lemma Finishes(s: State, call: nat)
    requires Has(s, call) && s.calls[call].pc.Polling? && s.calls[call].token !in s.fired && s.calls[call].slot.Filled?
    ensures var (t, reply) := DoForget(DoPoll(s, call).0, call);
            var result := Some(ReadResponse(s.calls[call].slot.response));
            && reply == Ended(result) && call in t.calls && t.calls[call].pc == Done(Answered, result) && t.conns == s.conns
  {
    hide ReadResponse;
  }

  /** A call cancelled while it waits ends so and tells its client, whatever has come in meanwhile. */
  lemma CancelWinsAndIsTold(es: seq<Event>, call: nat)
    requires var s := Exec(Init(), es); Has(s, call) && s.calls[call].pc.Polling?
    requires var s := Exec(Init(), es); s.calls[call].token in s.fired && Reaches(s.conns[s.calls[call].conn])
    ensures var s := Exec(Init(), es);
            var done := DoNotify(DoForget(DoPoll(s, call).0, call).0, call);
            var id := s.calls[call].id;
            && done.1 == Ended(Some(Err(Cancelled)))
            && About(done.0.conns[s.calls[call].conn].sent, id) == [Request(id), Notice(id, CallCancelled)]
            && (done.0.table.Some? ==> KeyOf(s.conns, s.calls[call]) !in done.0.table.value)
  {
    var s := Exec(Init(), es);
    ReachedInv(es);
    Reached(s, call);
    var id, at := s.calls[call].id, s.calls[call].conn;
    AboutMore(s.conns[at].sent, Notice(id, CallCancelled), id);
    assert [Request(id)] + [Notice(id, CallCancelled)] == [Request(id), Notice(id, CallCancelled)];
    hide Inv, About;
  }

  /** Two requests without a session from clients that present no principal and the same credential are the same caller. */
  lemma CallersAreToldApartIffKeyed(caller: CallerKey)
    ensures !caller.TellsCallersApart() <==> exists credential :: caller == HttpCaller(None, None, None, credential)
  {
    if !caller.TellsCallersApart() {
      assert caller == HttpCaller(None, None, None, caller.channel.fingerprint);
    }
  }
}
