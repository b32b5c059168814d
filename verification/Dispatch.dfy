/**
 * Requests dispatched at once over one registry: each takes its serial, is registered, served until it is answered,
 * cancelled or dropped, and released. One step is one counter access, one section under the registry's lock, or one
 * poll.
 */
module Dispatch {
  import opened Wrappers
  import opened Json
  import opened ClientChannel
  import opened InFlight

  datatype Request = RpcRequest(version: string, method_: string, id: Option<Json>, params: Option<Json>)

  // A request's own token, or one of its transport's or host's.
  datatype TokenId = Own(call: nat) | Host(n: nat)

  // `Plain` serves `initialize`, registered nowhere. `Unwinding` is a future dropped before it answered.
  datatype Pc =
    | Plain
    | Starting
    | Numbered
    | Serving
    | Unwinding
    | Releasing(response: Option<Json>)
    | Done(response: Option<Json>)

  datatype Call = Call(key: Option<RequestKey>, parent: nat, serial: nat, pc: Pc) {
    // The call's guard is in the registry.
    predicate Live() {
      key.Some? && (pc == Serving || pc == Unwinding || pc.Releasing?)
    }
  }

  type Calls = map<nat, Call>

  datatype State = State(nextSerial: nat, table: Registry<nat>, fired: set<TokenId>, calls: Calls)

  datatype Event =
    | Receive(call: nat, request: Request, ctx: Context)
    | TakeSerial(call: nat)
    | Push(call: nat)
    | Poll(call: nat, ready: Option<Json>)
    | DropFuture(call: nat)
    | Unwind(call: nat)
    | Release(call: nat)
    | FireHost(n: nat)

  datatype Reply = Silent | Rejected | Notified(found: bool) | Ended(response: Option<Json>)

  type Outcome = (State, Reply)

  const JSONRPC_VERSION := "2.0"

  function Init(): State { State(0, map[], {}, map[]) }

  // The token of a request is a child of its context's.
  predicate Cancelled(s: State, call: nat) {
    call in s.calls && (Own(call) in s.fired || Host(s.calls[call].parent) in s.fired)
  }

  function Put(s: State, call: nat, c: Call): State { s.(calls := s.calls[call := c]) }

  function Move(s: State, call: nat, pc: Pc): State
    requires call in s.calls
  {
    Put(s, call, s.calls[call].(pc := pc))
  }

  // The requests registered under a key.
  function Tokens(table: Registry<nat>, key: RequestKey): set<TokenId> {
    set e | e in Group(table, key) :: Own(e.token)
  }

  function DoCancel(s: State, key: Option<RequestKey>): Outcome {
    match key
    case None => (s, Notified(false))
    case Some(k) => (s.(fired := s.fired + Tokens(s.table, k)), Notified(Group(s.table, k) != []))
  }

  function DoReceive(s: State, call: nat, request: Request, ctx: Context): Outcome {
    if call in s.calls then (s, Silent)
    else if request.version != JSONRPC_VERSION then (s, Rejected)
    else
      match request.id
      case None =>
        if request.method_ != "notifications/cancelled" then (s, Notified(false))
        else (match CancelledRequestId(request.params)
              case None => (s, Notified(false))
              case Some(id) => DoCancel(s, KeyFor(ctx, id)))
      case Some(id) =>
        if request.method_ == "initialize" then (Put(s, call, Call(None, ctx.cancellation, 0, Plain)), Silent)
        else (Put(s, call, Call(KeyFor(ctx, id), ctx.cancellation, 0, Starting)), Silent)
  }

  function DoTakeSerial(s: State, call: nat): State {
    if call in s.calls && s.calls[call].pc == Starting
    then Put(s, call, s.calls[call].(serial := s.nextSerial, pc := Numbered)).(nextSerial := s.nextSerial + 1)
    else s
  }

  function DoPush(s: State, call: nat): State {
    if call in s.calls && s.calls[call].pc == Numbered then
      var c := s.calls[call];
      Move(s, call, Serving)
        .(table := if c.key.Some? then Pushed(s.table, c.key.value, Entry(c.serial, call)) else s.table)
    else s
  }

  // One poll of a request being served: its token first, then the answer if it is ready.
  function DoPoll(s: State, call: nat, ready: Option<Json>): Outcome {
    if call in s.calls && s.calls[call].pc == Serving then
      if Cancelled(s, call) then (Move(s, call, Releasing(None)), Silent)
      else if ready.Some? then (Move(s, call, Releasing(ready)), Silent)
      else (s, Silent)
    else if call in s.calls && s.calls[call].pc == Plain && ready.Some? then (Move(s, call, Done(ready)), Ended(ready))
    else (s, Silent)
  }

  function DoDropFuture(s: State, call: nat): State {
    if call in s.calls && s.calls[call].pc == Serving then Move(s, call, Unwinding)
    else if call in s.calls && s.calls[call].pc == Plain then Move(s, call, Done(None))
    else s
  }

  // A request dropped unanswered fires its token before it is released.
  function DoUnwind(s: State, call: nat): State {
    if call in s.calls && s.calls[call].pc == Unwinding
    then Move(s, call, Releasing(None)).(fired := s.fired + {Own(call)})
    else s
  }

  function DoRelease(s: State, call: nat): Outcome {
    if call in s.calls && s.calls[call].pc.Releasing? then
      var c := s.calls[call];
      (Move(s, call, Done(c.pc.response))
         .(table := if c.key.Some? then Released(s.table, c.key.value, c.serial) else s.table), Ended(c.pc.response))
    else (s, Silent)
  }

  function Step(s: State, e: Event): Outcome {
    match e
    case Receive(call, request, ctx) => DoReceive(s, call, request, ctx)
    case TakeSerial(call) => (DoTakeSerial(s, call), Silent)
    case Push(call) => (DoPush(s, call), Silent)
    case Poll(call, ready) => DoPoll(s, call, ready)
    case DropFuture(call) => (DoDropFuture(s, call), Silent)
    case Unwind(call) => (DoUnwind(s, call), Silent)
    case Release(call) => DoRelease(s, call)
    case FireHost(n) => (s.(fired := s.fired + {Host(n)}), Silent)
  }

  function Next(s: State, e: Event): State { Step(s, e).0 }

  function Exec(s: State, es: seq<Event>): State
    decreases |es|
  {
    if es == [] then s else Next(Exec(s, es[..|es|-1]), es[|es|-1])
  }

  // ---- What every run keeps --------------------------------------------------------------------

  // The registry is the live registrations grouped by key: no group empty, none in it that is not live.
  ghost predicate TableOk(calls: Calls, table: Registry<nat>) {
    && (forall k :: k in table ==> table[k] != [])
    && (forall k, e :: k in table && e in table[k] ==>
          e.token in calls && calls[e.token].Live() && calls[e.token].key == Some(k) && calls[e.token].serial == e.serial)
    && (forall c :: c in calls && calls[c].Live() ==>
          calls[c].key.value in table && Entry(calls[c].serial, c) in table[calls[c].key.value])
  }

  // Serials tell all requests apart that have one.
  ghost predicate SerialsOk(calls: Calls, nextSerial: nat) {
    && (forall c :: c in calls && calls[c].pc != Plain && calls[c].pc != Starting && calls[c].key.Some? ==>
          calls[c].serial < nextSerial)
    && (forall c, d :: (c in calls && d in calls && c != d && calls[c].key.Some? && calls[d].key.Some?
                       && calls[c].pc != Starting && calls[d].pc != Starting) ==> calls[c].serial != calls[d].serial)
  }

  // Nothing registers `initialize`.
  ghost predicate PlainOk(calls: Calls) {
    forall c :: c in calls && calls[c].pc == Plain ==> calls[c].key == None
  }

  // A registration is in its group once.
  ghost predicate OnceOk(table: Registry<nat>) {
    forall k, i, j :: k in table && 0 <= i < j < |table[k]| ==> table[k][i].serial != table[k][j].serial
  }

  ghost predicate Inv(s: State) {
    TableOk(s.calls, s.table) && SerialsOk(s.calls, s.nextSerial) && PlainOk(s.calls) && OnceOk(s.table)
  }

  lemma MoveKeeps(s: State, call: nat, pc: Pc)
    requires Inv(s) && call in s.calls && s.calls[call].pc != Starting
    requires s.calls[call].(pc := pc).Live() <==> s.calls[call].Live()
    requires pc != Plain && pc != Starting
    ensures Inv(Move(s, call, pc))
  {
  }

  lemma PushKeeps(s: State, call: nat)
    requires Inv(s) && call in s.calls && s.calls[call].pc == Numbered
    ensures Inv(DoPush(s, call))
  {
    var c := s.calls[call];
    if c.key.Some? {
      var t := DoPush(s, call);
      var k := c.key.value;
      var group := Group(s.table, k);
      assert t.table == s.table[k := group + [Entry(c.serial, call)]];
      forall e | e in group + [Entry(c.serial, call)]
        ensures e in group || e == Entry(c.serial, call)
      {
      }
      assert group + [Entry(c.serial, call)] != [];
      assert TableOk(t.calls, t.table);
      PushedOnce(s, call);
    }
  }

  lemma PushedOnce(s: State, call: nat)
    requires Inv(s) && call in s.calls && s.calls[call].pc == Numbered && s.calls[call].key.Some?
    ensures OnceOk(DoPush(s, call).table)
  {
    var c := s.calls[call];
    var group := Group(s.table, c.key.value);
    forall i | 0 <= i < |group|
      ensures group[i].serial != c.serial
    {
      assert group[i] in s.table[c.key.value];
    }
  }

  lemma {:induction false} RetainedOnce(entries: seq<Entry<nat>>, serial: nat)
    requires forall i, j :: 0 <= i < j < |entries| ==> entries[i].serial != entries[j].serial
    ensures var left := Retained(entries, serial);
            forall i, j :: 0 <= i < j < |left| ==> left[i].serial != left[j].serial
  {
    if entries != [] {
      var rest := entries[..|entries|-1];
      RetainedOnce(rest, serial);
      var left := Retained(rest, serial);
      forall i | 0 <= i < |left|
        ensures left[i].serial != entries[|entries|-1].serial
      {
        RetainedHas(rest, serial, left[i]);
      }
    }
  }

  lemma ReleaseKeeps(s: State, call: nat)
    requires Inv(s) && call in s.calls && s.calls[call].pc.Releasing? && s.calls[call].key.Some?
    ensures Inv(DoRelease(s, call).0)
  {
    var c := s.calls[call];
    var k := c.key.value;
    var t := DoRelease(s, call).0;
    assert k in s.table;
    RetainedOnce(s.table[k], c.serial);
    forall e
      ensures e in Retained(s.table[k], c.serial) <==> e in s.table[k] && e.serial != c.serial
    {
      RetainedHas(s.table[k], c.serial, e);
    }
    hide Retained;
    ReleasedTable(s, call);
  }

  lemma ReleasedTable(s: State, call: nat)
    requires Inv(s) && call in s.calls && s.calls[call].pc.Releasing? && s.calls[call].key.Some?
    requires s.calls[call].key.value in s.table
    requires forall e :: e in Retained(s.table[s.calls[call].key.value], s.calls[call].serial) <==>
               e in s.table[s.calls[call].key.value] && e.serial != s.calls[call].serial
    ensures TableOk(DoRelease(s, call).0.calls, DoRelease(s, call).0.table)
  {
    hide Retained, OnceOk;
    var c := s.calls[call];
    var k := c.key.value;
    var t := DoRelease(s, call).0;
    forall d | d in t.calls && t.calls[d].Live()
      ensures t.calls[d].key.value in t.table && Entry(t.calls[d].serial, d) in t.table[t.calls[d].key.value]
    {
      assert d != call && t.calls[d] == s.calls[d];
      var e := Entry(s.calls[d].serial, d);
      assert e in s.table[s.calls[d].key.value];
      if s.calls[d].key == Some(k) {
        assert e in Retained(s.table[k], c.serial);
      }
    }
  }

  lemma InvStep(s: State, e: Event)
    requires Inv(s)
    ensures Inv(Next(s, e))
  {
    hide Inv, DoPush, DoRelease, Released, DoReceive, DoTakeSerial;
    match e
    case Receive(call, request, ctx) => ReceiveKeeps(s, call, request, ctx);
    case TakeSerial(call) => SerialKeeps(s, call);
    case Push(call) =>
      if call in s.calls && s.calls[call].pc == Numbered { PushKeeps(s, call); } else { assert DoPush(s, call) == s by { Idles(s, call); } }
    case Poll(call, ready) =>
      if call in s.calls && s.calls[call].pc == Serving {
        MoveKeeps(s, call, Releasing(None));
        MoveKeeps(s, call, Releasing(ready));
      } else if call in s.calls && s.calls[call].pc == Plain {
        PlainHasNoKey(s, call);
        MoveKeeps(s, call, Done(ready));
      }
    case DropFuture(call) =>
      if call in s.calls && s.calls[call].pc == Serving {
        MoveKeeps(s, call, Unwinding);
      } else if call in s.calls && s.calls[call].pc == Plain {
        PlainHasNoKey(s, call);
        MoveKeeps(s, call, Done(None));
      }
    case Unwind(call) =>
      if call in s.calls && s.calls[call].pc == Unwinding {
        MoveKeeps(s, call, Releasing(None));
        FiredKeeps(Move(s, call, Releasing(None)), s.fired + {Own(call)});
      }
    case Release(call) => EndKeeps(s, call);
    case FireHost(n) => FiredKeeps(s, s.fired + {Host(n)});
  }

  lemma Idles(s: State, call: nat)
    requires !(call in s.calls && s.calls[call].pc == Numbered)
    ensures DoPush(s, call) == s
  {
  }

  lemma PlainHasNoKey(s: State, call: nat)
    requires Inv(s) && call in s.calls && s.calls[call].pc == Plain
    ensures s.calls[call].key == None
  {
  }

  lemma FiredKeeps(s: State, fired: set<TokenId>)
    requires Inv(s)
    ensures Inv(s.(fired := fired))
  {
  }

  lemma ReceiveKeeps(s: State, call: nat, request: Request, ctx: Context)
    requires Inv(s)
    ensures Inv(DoReceive(s, call, request, ctx).0)
  {
    hide KeyFor, CancelledRequestId, Tokens, Group;
  }

  lemma SerialKeeps(s: State, call: nat)
    requires Inv(s)
    ensures Inv(DoTakeSerial(s, call))
  {
    hide OnceOk;
  }

  lemma EndKeeps(s: State, call: nat)
    requires Inv(s)
    ensures Inv(DoRelease(s, call).0)
  {
    if call in s.calls && s.calls[call].pc.Releasing? {
      if s.calls[call].key.Some? {
        ReleaseKeeps(s, call);
      } else {
        MoveKeeps(s, call, Done(s.calls[call].pc.response));
      }
    }
  }

  lemma {:induction false} ReachedInv(es: seq<Event>)
    ensures Inv(Exec(Init(), es))
    decreases |es|
  {
    if es == [] {
    } else {
      ReachedInv(es[..|es|-1]);
      InvStep(Exec(Init(), es[..|es|-1]), es[|es|-1]);
    }
  }

  // ---- Theorems --------------------------------------------------------------------------------

  /**
   * The registry is exactly the registered requests still being served, each once under its own key, with no group
   * left empty, in every run.
   */
  lemma RegistryIsTheLiveRequests(es: seq<Event>, key: RequestKey)
    ensures var s := Exec(Init(), es);
            && (key in s.table ==> s.table[key] != [])
            && (forall c :: Own(c) in Tokens(s.table, key) <==> c in s.calls && s.calls[c].Live() && s.calls[c].key == Some(key))
            && (forall i, j :: 0 <= i < j < |Group(s.table, key)| ==> Group(s.table, key)[i].token != Group(s.table, key)[j].token)
  {
    ReachedInv(es);
    LiveTokens(Exec(Init(), es), key);
  }

  lemma LiveTokens(s: State, key: RequestKey)
    requires Inv(s)
    ensures forall c :: Own(c) in Tokens(s.table, key) <==> c in s.calls && s.calls[c].Live() && s.calls[c].key == Some(key)
    ensures forall i, j :: 0 <= i < j < |Group(s.table, key)| ==> Group(s.table, key)[i].token != Group(s.table, key)[j].token
  {
    forall c
      ensures Own(c) in Tokens(s.table, key) <==> c in s.calls && s.calls[c].Live() && s.calls[c].key == Some(key)
    {
      if c in s.calls && s.calls[c].Live() && s.calls[c].key == Some(key) {
        assert Entry(s.calls[c].serial, c) in Group(s.table, key);
      }
    }
    var group := Group(s.table, key);
    forall i, j | 0 <= i < j < |group|
      ensures group[i].token != group[j].token
    {
      assert group[i] in s.table[key] && group[j] in s.table[key];
    }
  }

  /**
   * A cancellation fires the tokens of exactly the requests being served for the same caller under that id, says
   * whether there was one, and does nothing when the caller cannot be told from another or the id is none.
   */
  lemma CancellationIsExact(es: seq<Event>, call: nat, params: Option<Json>, ctx: Context)
    requires call !in Exec(Init(), es).calls
    ensures var s := Exec(Init(), es);
            var (t, reply) := Step(s, Receive(call, RpcRequest(JSONRPC_VERSION, "notifications/cancelled", None, params), ctx));
            var id := CancelledRequestId(params);
            && t.calls == s.calls && t.table == s.table && s.fired <= t.fired
            && (forall n :: Host(n) in t.fired <==> Host(n) in s.fired)
            && (forall c :: Own(c) in t.fired <==>
                  || Own(c) in s.fired
                  || (id.Some? && ctx.Caller().TellsCallersApart() && c in s.calls && s.calls[c].Live()
                      && s.calls[c].key == Some(RequestKey(ctx.Caller(), id.value))))
            && (reply == Notified(true) <==>
                  id.Some? && ctx.Caller().TellsCallersApart()
                  && exists c :: c in s.calls && s.calls[c].Live() && s.calls[c].key == Some(RequestKey(ctx.Caller(), id.value)))
  {
    var s := Exec(Init(), es);
    ReachedInv(es);
    var id := CancelledRequestId(params);
    if id.Some? && ctx.Caller().TellsCallersApart() {
      var key := RequestKey(ctx.Caller(), id.value);
      LiveTokens(s, key);
      if Group(s.table, key) != [] {
        var e := Group(s.table, key)[0];
        assert e in Group(s.table, key);
        assert Own(e.token) in Tokens(s.table, key);
      }
      hide Inv;
      hide CancelledRequestId;
      assert DoCancel(s, KeyFor(ctx, id.value)) == (s.(fired := s.fired + Tokens(s.table, key)), Notified(Group(s.table, key) != []));
    }
  }

  /** Once its token is fired, a request not yet answered never is, whatever happens next: not served yet or being served. */
  lemma {:induction false} CancelledNeverAnswers(s: State, es: seq<Event>, call: nat)
    requires Cancelled(s, call) && Silenced(s.calls[call].pc)
    ensures var t := Exec(s, es);
            Cancelled(t, call) && Silenced(t.calls[call].pc)
    ensures forall i :: 0 <= i < |es| && Answers(es[i], call) ==>
              var reply := Step(Exec(s, es[..i]), es[i]).1;
              reply == Silent || reply == Ended(None)
    decreases |es|
  {
    if es != [] {
      CancelledNeverAnswers(s, es[..|es|-1], call);
      StaysSilent(Exec(s, es[..|es|-1]), es[|es|-1], call);
      assert forall i :: 0 <= i < |es| - 1 ==> es[..|es|-1][..i] == es[..i] && es[..|es|-1][i] == es[i];
    }
  }

  // A step at which the request `call` may end.
  predicate Answers(e: Event, call: nat) {
    (e.Poll? || e.Release?) && e.call == call
  }

  // The request has no answer and, cancelled, gets none; `initialize` has no such state.
  predicate Silenced(pc: Pc) {
    pc == Starting || pc == Numbered || pc == Serving || pc == Unwinding || pc == Releasing(None) || pc == Done(None)
  }

  lemma StaysSilent(s: State, e: Event, call: nat)
    requires Cancelled(s, call) && Silenced(s.calls[call].pc)
    ensures Cancelled(Next(s, e), call) && Silenced(Next(s, e).calls[call].pc)
    ensures Answers(e, call) ==> Step(s, e).1 == Silent || Step(s, e).1 == Ended(None)
  {
    hide Tokens, Group, CancelledRequestId, KeyFor, Pushed, Released;
  }

  /** A request answered leaves its token alone; one dropped before it answers fires it, and leaves the registry. */
  lemma DroppedRequestFires(es: seq<Event>, call: nat, ready: Json)
    requires var s := Exec(Init(), es); call in s.calls && s.calls[call].pc == Serving
    ensures var s := Exec(Init(), es);
            var dropped := Step(Next(Next(s, DropFuture(call)), Unwind(call)), Release(call));
            && dropped.1 == Ended(None) && dropped.0.fired == s.fired + {Own(call)}
            && (forall k :: Own(call) !in Tokens(dropped.0.table, k))
    ensures var s := Exec(Init(), es);
            var answered := Step(Next(s, Poll(call, Some(ready))), Release(call));
            && answered.0.fired == s.fired
            && answered.1 == Ended(if Cancelled(s, call) then None else Some(ready))
            && (forall k :: Own(call) !in Tokens(answered.0.table, k))
  {
    hide Inv, Tokens, Released, DoReceive, Group;
    var s := Exec(Init(), es);
    var d1 := Next(s, DropFuture(call));
    var d2 := Next(d1, Unwind(call));
    ReachedInv(es);
    InvStep(s, DropFuture(call));
    InvStep(d1, Unwind(call));
    InvStep(s, Poll(call, Some(ready)));
    ReleasedIsGone(d2, call);
    ReleasedIsGone(Next(s, Poll(call, Some(ready))), call);
  }

  lemma ReleasedIsGone(s: State, call: nat)
    requires Inv(s) && call in s.calls && s.calls[call].pc.Releasing?
    ensures forall k :: Own(call) !in Tokens(DoRelease(s, call).0.table, k)
  {
    EndKeeps(s, call);
    var t := DoRelease(s, call).0;
    assert !t.calls[call].Live();
    forall k
      ensures Own(call) !in Tokens(t.table, k)
    {
      LiveTokens(t, k);
    }
  }

  /** `initialize` is answered whatever is cancelled: it is in no registry, and no poll of it looks at a token. */
  lemma InitializeIsNeverCancelled(es: seq<Event>, call: nat, ready: Json)
    requires var s := Exec(Init(), es); call in s.calls && s.calls[call].pc == Plain
    ensures var s := Exec(Init(), es);
            && (forall k :: Own(call) !in Tokens(s.table, k))
            && Step(s, Poll(call, Some(ready))).1 == Ended(Some(ready))
  {
    ReachedInv(es);
    var s := Exec(Init(), es);
    forall k
      ensures Own(call) !in Tokens(s.table, k)
    {
      LiveTokens(s, k);
    }
  }

  /** A notification from the caller of a request being served, under its id, ends it with no response. */
  lemma CancelReachesItsRequest(es: seq<Event>, call: nat, note: nat, params: Option<Json>, ctx: Context, ready: Option<Json>)
    requires var s := Exec(Init(), es);
             call in s.calls && s.calls[call].pc == Serving && s.calls[call].key.Some? && note !in s.calls
             && CancelledRequestId(params) == Some(s.calls[call].key.value.request)
             && ctx.Caller() == s.calls[call].key.value.caller && ctx.Caller().TellsCallersApart()
    ensures var s := Exec(Init(), es);
            var noted := Step(s, Receive(note, RpcRequest(JSONRPC_VERSION, "notifications/cancelled", None, params), ctx));
            && noted.1 == Notified(true)
            && Step(Next(noted.0, Poll(call, ready)), Release(call)).1 == Ended(None)
  {
    hide Released, Tokens, CancelledRequestId, DoReceive, Group;
    CancellationIsExact(es, note, params, ctx);
  }
}
