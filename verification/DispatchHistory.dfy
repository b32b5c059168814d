/** What a notification cancels, said of the requests as they were received: who sent each, and the id it gave it. */
module DispatchHistory {
  import opened Wrappers
  import opened Json
  import opened ClientChannel
  import opened InFlight
  import opened Dispatch

  // Who sent what is dispatched with `ctx`: the transport's caller, or else the identity alone.
  function Sender(ctx: Context): CallerKey {
    match ctx.client
    case Some(caller) => caller
    case None => CallerKey(ctx.user, ctx.tenant, Unconnected)
  }

  // No two senders look like this one: it has a connection, a session or a principal of its own.
  predicate IsOneSender(caller: CallerKey) {
    match caller.channel
    case Sessionless(_) => caller.user != None || caller.tenant != None
    case _ => true
  }

  // The `i`-th event received the request `call`, not `initialize`, from the sender and under the id.
  ghost predicate ReceivedAs(es: seq<Event>, i: nat, call: nat, sender: CallerKey, id: Json) {
    && i < |es| && es[i].Receive? && es[i].call == call && call !in Exec(Init(), es[..i]).calls
    && es[i].request.version == "2.0" && es[i].request.id == Some(id) && es[i].request.method_ != "initialize"
    && Sender(es[i].ctx) == sender
  }

  // Dispatch of the request has begun to be served and has not been released.
  predicate InProgress(s: State, call: nat) {
    call in s.calls && (s.calls[call].pc == Serving || s.calls[call].pc == Unwinding || s.calls[call].pc.Releasing?)
  }

  /** A request that is not of this protocol version is turned away, one without an id starts nothing, the rest do. */
  lemma ReceiveOutcome(s: State, call: nat, request: Request, ctx: Context)
    requires call !in s.calls
    ensures var (t, reply) := Step(s, Receive(call, request, ctx));
            && t.table == s.table && t.nextSerial == s.nextSerial
            && (request.version != "2.0" ==> reply == Rejected && t == s)
            && (request.version == "2.0" && request.id == None ==>
                  t.calls == s.calls && reply.Notified?
                  && (request.method_ != "notifications/cancelled" ==> t == s && reply == Notified(false)))
            && (request.version == "2.0" && request.id != None ==>
                  reply == Silent && t.fired == s.fired && call in t.calls && t.calls == s.calls[call := t.calls[call]]
                  && t.calls[call].parent == ctx.cancellation
                  && t.calls[call].pc == (if request.method_ == "initialize" then Plain else Starting))
  {
    hide KeyFor, CancelledRequestId, Tokens, Group;
  }

  // ---- What key a request has ------------------------------------------------------------------

  // Every call was received, and stands under its sender and id if there is but one such sender.
  ghost predicate OriginOk(es: seq<Event>, call: nat) {
    var s := Exec(Init(), es);
    && (forall i: nat, sender, id :: ReceivedAs(es, i, call, sender, id) ==>
          call in s.calls && s.calls[call].key == if IsOneSender(sender) then Some(RequestKey(sender, id)) else None)
    && (call in s.calls && s.calls[call].key.Some? ==>
          exists i: nat :: ReceivedAs(es, i, call, s.calls[call].key.value.caller, s.calls[call].key.value.request))
  }

  // No step takes a call away or changes its key.
  lemma KeyStays(s: State, e: Event, call: nat)
    requires call in s.calls
    ensures call in Next(s, e).calls && Next(s, e).calls[call].key == s.calls[call].key
  {
    hide KeyFor, CancelledRequestId, Tokens, Group, Pushed, Released;
  }

  lemma NewcomerIsReceived(s: State, e: Event, call: nat)
    requires call !in s.calls && call in Next(s, e).calls
    ensures e.Receive? && e.call == call && e.request.version == "2.0" && e.request.id.Some?
    ensures if e.request.method_ == "initialize" || !IsOneSender(Sender(e.ctx)) then Next(s, e).calls[call].key == None
            else Next(s, e).calls[call].key == Some(RequestKey(Sender(e.ctx), e.request.id.value))
  {
    hide CancelledRequestId, Tokens, Group, Pushed, Released;
  }

  lemma ReceivedStays(es: seq<Event>, e: Event, i: nat, call: nat, sender: CallerKey, id: Json)
    requires i < |es|
    ensures ReceivedAs(es + [e], i, call, sender, id) <==> ReceivedAs(es, i, call, sender, id)
  {
    hide Exec;
    assert (es + [e])[..i] == es[..i] && (es + [e])[i] == es[i];
  }

  lemma ExecMore(es: seq<Event>, e: Event)
    ensures Exec(Init(), es + [e]) == Next(Exec(Init(), es), e)
    ensures (es + [e])[..|es|] == es
  {
    hide Next;
    assert (es + [e])[..|es|] == es;
  }

  lemma OriginMore(es: seq<Event>, e: Event, call: nat)
    requires OriginOk(es, call)
    ensures OriginOk(es + [e], call)
  {
    hide Exec, Next;
    var s, t := Exec(Init(), es), Exec(Init(), es + [e]);
    ExecMore(es, e);
    if call in s.calls {
      KeyStays(s, e, call);
    } else if call in t.calls {
      NewcomerIsReceived(s, e, call);
    }
    forall i: nat, sender, id | ReceivedAs(es + [e], i, call, sender, id)
      ensures call in t.calls && t.calls[call].key == if IsOneSender(sender) then Some(RequestKey(sender, id)) else None
    {
      if i < |es| {
        ReceivedStays(es, e, i, call, sender, id);
        assert ReceivedAs(es, i, call, sender, id);
      } else {
        StartsNow(s, e, call);
      }
    }
    if call in t.calls && t.calls[call].key.Some? {
      var key := t.calls[call].key.value;
      if call in s.calls {
        var i: nat :| ReceivedAs(es, i, call, key.caller, key.request);
        ReceivedStays(es, e, i, call, key.caller, key.request);
        assert ReceivedAs(es + [e], i, call, key.caller, key.request);
      } else {
        assert ReceivedAs(es + [e], |es|, call, key.caller, key.request);
      }
    }
  }

  lemma StartsNow(s: State, e: Event, call: nat)
    requires e.Receive? && e.call == call && call !in s.calls && e.request.version == "2.0" && e.request.id.Some?
    ensures call in Next(s, e).calls
  {
    ReceiveOutcome(s, call, e.request, e.ctx);
    hide KeyFor, CancelledRequestId, Tokens, Group;
  }

  lemma {:induction false} OriginHolds(es: seq<Event>, call: nat)
    ensures OriginOk(es, call)
    decreases |es|
  {
    if es != [] {
      assert es == es[..|es|-1] + [es[|es|-1]];
      OriginHolds(es[..|es|-1], call);
      OriginMore(es[..|es|-1], es[|es|-1], call);
    }
  }

  // ---- What a notification cancels -------------------------------------------------------------

  // `params` name the id, a string or a number.
  predicate NamesId(params: Option<Json>, id: Json) {
    params.Some? && params.value.Obj? && "requestId" in params.value.fields && params.value.fields["requestId"] == id
    && (id.Str? || id.Num?)
  }

  // The notification is from the one sender of the request, under the id it was received with.
  ghost predicate Means(es: seq<Event>, params: Option<Json>, ctx: Context, call: nat) {
    && IsOneSender(Sender(ctx))
    && exists i: nat, id: Json :: ReceivedAs(es, i, call, Sender(ctx), id) && NamesId(params, id)
  }

  function Note(params: Option<Json>): Request { RpcRequest("2.0", "notifications/cancelled", None, params) }

  lemma NamedId(params: Option<Json>)
    ensures match CancelledRequestId(params)
            case Some(id) => NamesId(params, id) && forall other :: NamesId(params, other) ==> other == id
            case None => forall id :: !NamesId(params, id)
  {
  }

  /**
   * In every run a cancellation fires the tokens of exactly the requests in progress that were received from its own
   * sender under the id it names, if that sender is like no other, and says whether there was one.
   */
  lemma CancellationReachesItsOwn(es: seq<Event>, note: nat, params: Option<Json>, ctx: Context)
    requires note !in Exec(Init(), es).calls
    ensures var s := Exec(Init(), es);
            var (t, reply) := Step(s, Receive(note, Note(params), ctx));
            && t.calls == s.calls && t.table == s.table
            && (forall c :: Own(c) in t.fired <==> Own(c) in s.fired || (InProgress(s, c) && Means(es, params, ctx, c)))
            && (forall n :: Host(n) in t.fired <==> Host(n) in s.fired)
            && (reply == Notified(true) <==> exists c :: InProgress(s, c) && Means(es, params, ctx, c))
            && reply.Notified?
  {
    hide Exec, CancelledRequestId, Inv;
    var s := Exec(Init(), es);
    CancellationIsExact(es, note, params, ctx);
    NamedId(params);
    forall c
      ensures InProgress(s, c) && Means(es, params, ctx, c) <==>
                && CancelledRequestId(params).Some? && ctx.Caller().TellsCallersApart() && c in s.calls && s.calls[c].Live()
                && s.calls[c].key == Some(RequestKey(ctx.Caller(), CancelledRequestId(params).value))
    {
      OriginHolds(es, c);
      MeansItsKey(es, params, ctx, c);
    }
    ReceiveOutcome(s, note, Note(params), ctx);
  }

  lemma MeansItsKey(es: seq<Event>, params: Option<Json>, ctx: Context, c: nat)
    requires OriginOk(es, c)
    ensures var s := Exec(Init(), es);
            InProgress(s, c) && Means(es, params, ctx, c) <==>
              && CancelledRequestId(params).Some? && ctx.Caller().TellsCallersApart() && c in s.calls && s.calls[c].Live()
              && s.calls[c].key == Some(RequestKey(ctx.Caller(), CancelledRequestId(params).value))
  {
    hide Exec, CancelledRequestId, ReceivedAs;
    NamedId(params);
    assert ctx.Caller() == Sender(ctx) && (ctx.Caller().TellsCallersApart() <==> IsOneSender(Sender(ctx)));
  }

  // A request is received, takes its serial and is registered.
  function Served(s: State, call: nat, request: Request, ctx: Context): State {
    Next(Next(Next(s, Receive(call, request, ctx)), TakeSerial(call)), Push(call))
  }

  /**
   * From the request to its end: cancelled by its own sender under its own id, it fires, is found, and ends with no
   * response, whatever its handler had ready; from a sender like others none is found, and it is answered.
   */
  lemma RequestIsCancelled(es: seq<Event>, call: nat, note: nat, name: string, id: Json, sent: Option<Json>, ctx: Context,
                           params: Option<Json>, later: Context, ready: Json)
    requires call !in Exec(Init(), es).calls && note !in Exec(Init(), es).calls && call != note && name != "initialize"
    requires NamesId(params, id) && Sender(later) == Sender(ctx)
    ensures var s := Served(Exec(Init(), es), call, RpcRequest("2.0", name, Some(id), sent), ctx);
            var (t, reply) := Step(s, Receive(note, Note(params), later));
            var (end, answer) := Step(Next(t, Poll(call, Some(ready))), Release(call));
            if IsOneSender(Sender(ctx)) then reply == Notified(true) && Own(call) in t.fired && answer == Ended(None)
            else reply == Notified(false) && t.fired == s.fired
                 && (Host(ctx.cancellation) !in s.fired && Own(call) !in s.fired ==> answer == Ended(Some(ready)))
  {
    hide Exec, Served, Step, Next, Means;
    var request := RpcRequest("2.0", name, Some(id), sent);
    var begun := es + [Receive(call, request, ctx), TakeSerial(call), Push(call)];
    var s := Exec(Init(), begun);
    ServedRun(es, call, request, ctx);
    ServedFacts(Exec(Init(), es), call, request, ctx, note);
    CancellationReachesItsOwn(begun, note, params, later);
    if IsOneSender(Sender(ctx)) {
      MeansWhatItBegan(es, call, request, ctx, params, later);
    } else {
      NothingFires(s, note, params, later);
    }
    EndsByItsToken(Step(s, Receive(note, Note(params), later)).0, call, ready);
  }

  lemma MeansWhatItBegan(es: seq<Event>, call: nat, request: Request, ctx: Context, params: Option<Json>, later: Context)
    requires call !in Exec(Init(), es).calls && request.version == "2.0" && request.id.Some?
    requires request.method_ != "initialize" && NamesId(params, request.id.value)
    requires Sender(later) == Sender(ctx) && IsOneSender(Sender(ctx))
    ensures Means(es + [Receive(call, request, ctx), TakeSerial(call), Push(call)], params, later, call)
  {
    hide Exec;
    var begun := es + [Receive(call, request, ctx), TakeSerial(call), Push(call)];
    assert begun[..|es|] == es;
    assert ReceivedAs(begun, |es|, call, Sender(ctx), request.id.value);
  }

  lemma ServedRun(es: seq<Event>, call: nat, request: Request, ctx: Context)
    ensures Exec(Init(), es + [Receive(call, request, ctx), TakeSerial(call), Push(call)])
         == Served(Exec(Init(), es), call, request, ctx)
  {
    hide Next;
    var a, b, c := Receive(call, request, ctx), TakeSerial(call), Push(call);
    ExecMore(es, a);
    ExecMore(es + [a], b);
    ExecMore(es + [a] + [b], c);
    assert es + [a, b, c] == es + [a] + [b] + [c];
  }

  lemma ServedFacts(s: State, call: nat, request: Request, ctx: Context, note: nat)
    requires call !in s.calls && note !in s.calls && note != call
    requires request.version == "2.0" && request.id.Some? && request.method_ != "initialize"
    ensures var t := Served(s, call, request, ctx);
            && call in t.calls && t.calls[call].pc == Serving && t.calls[call].parent == ctx.cancellation
            && t.fired == s.fired && note !in t.calls
  {
    hide KeyFor, CancelledRequestId, Tokens, Group, Pushed;
  }

  lemma EndsByItsToken(t: State, call: nat, ready: Json)
    requires call in t.calls && t.calls[call].pc == Serving
    ensures Step(Next(t, Poll(call, Some(ready))), Release(call)).1
         == Ended(if Own(call) in t.fired || Host(t.calls[call].parent) in t.fired then None else Some(ready))
  {
    hide Released;
  }

  lemma NothingFires(s: State, note: nat, params: Option<Json>, ctx: Context)
    requires note !in s.calls && !IsOneSender(Sender(ctx))
    ensures Step(s, Receive(note, Note(params), ctx)) == (s, Notified(false))
  {
    hide CancelledRequestId, Tokens, Group;
  }
}
