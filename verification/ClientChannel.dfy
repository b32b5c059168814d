/** Server requests to a client: who a caller is, what a request needs, and the table of those awaiting an answer. */
module ClientChannel {
  import opened Wrappers
  import opened Json

  // What tells apart two callers of the same identity.
  datatype Channel = Unconnected | Connection(serial: nat) | InSession(id: string) | Sessionless(fingerprint: Option<nat>)

  datatype CallerKey = CallerKey(user: Option<string>, tenant: Option<string>, channel: Channel) {
    predicate TellsCallersApart() {
      !channel.Sessionless? || user.Some? || tenant.Some?
    }
  }

  // A request over HTTP: its session if it has one, else the fingerprint of the credential it presents.
  function HttpCaller(user: Option<string>, tenant: Option<string>, session: Option<string>, credential: Option<nat>): CallerKey {
    CallerKey(user, tenant, match session case Some(id) => InSession(id) case None => Sessionless(credential))
  }

  datatype Key = Key(caller: CallerKey, id: string)

  datatype RpcError = RpcError(code: int, message: string)

  datatype Response = Response(id: Option<Json>, result: Option<Json>, error: Option<RpcError>)

  datatype Capabilities = Capabilities(sampling: bool, formElicitation: bool)

  datatype Needs = Sampling | FormElicitation {
    predicate DeclaredIn(declared: Capabilities) {
      if this.Sampling? then declared.sampling else declared.formElicitation
    }
  }

  datatype Era = Unbound | Legacy | Modern

  datatype RequestError =
    | NoConnection | StatelessRevision | CapabilityNotDeclared(needs: Needs) | NoEventStream
    | Cancelled | TimedOut | Disconnected | Rpc(error: RpcError) | Internal
    | Undecodable

  type Answer = Result<Json, RequestError>

  const INVALID_REQUEST: int := -32600

  // What the caller of a request gets of the client's response; an error wins over a result.
  function ReadResponse(r: Response): Answer {
    match (r.result, r.error)
    case (_, Some(error)) => Err(Rpc(error))
    case (Some(result), None) => Ok(result)
    case (None, None) => Err(Rpc(RpcError(INVALID_REQUEST, "the client's response carries neither a result nor an error")))
  }

  // The answer as the type its caller asked for, `read` being none where the result does not fit it.
  function Typed<R>(answer: Answer, read: Json -> Option<R>): Result<R, RequestError> {
    match answer
    case Err(error) => Err(error)
    case Ok(result) => match read(result) case Some(value) => Ok(value) case None => Err(Undecodable)
  }

  // Why a request stopped waiting, as its notice says.
  datatype Abandoned = Answered | Dropped | CallCancelled | TookTooLong

  datatype Message = Request(id: string) | Notice(id: string, reason: Abandoned)

  // The requests awaiting an answer; none once the table is closed.
  type Table<T> = Option<map<Key, T>>

  function Registered<T>(table: Table<T>, key: Key, sender: T): Table<T> {
    match table case None => None case Some(m) => Some(m[key := sender])
  }

  function Forgotten<T>(table: Table<T>, key: Key): Table<T> {
    match table case None => None case Some(m) => Some(m - {key})
  }

  // The request `response` from `caller` answers, if it is still in the table.
  function Waits<T>(table: Table<T>, caller: CallerKey, response: Response): Option<T> {
    match response.id
    case Some(Str(id)) =>
      if table.Some? && Key(caller, id) in table.value then Some(table.value[Key(caller, id)]) else None
    case _ => None
  }

  // The receiving and the sending end of the wait for one answer.
  datatype Slot = Awaited | Filled(response: Response) | HungUp

  class Oneshot {
    var slot: Slot
    var listening: bool

    constructor ()
      ensures slot == Awaited && listening
    {
      slot := Awaited;
      listening := true;
    }

    method Send(response: Response) returns (ok: bool)
      modifies this
      ensures ok == old(listening) && listening == old(listening)
      ensures slot == if ok then Filled(response) else old(slot)
    {
      ok := listening;
      if listening {
        slot := Filled(response);
      }
    }

    // The sender is dropped: what was not answered never will be.
    method DropSender()
      modifies this
      ensures slot == (if old(slot) == Awaited then HungUp else old(slot)) && listening == old(listening)
    {
      if slot == Awaited {
        slot := HungUp;
      }
    }
  }

  class PendingRequests {
    var entries: Option<map<Key, Oneshot>>

    constructor ()
      ensures entries == Some(map[])
    {
      entries := Some(map[]);
    }

    // Every entry is a wait of its own.
    ghost predicate Valid()
      reads this
    {
      entries.Some? ==> forall j, k :: j in entries.value && k in entries.value && j != k ==> entries.value[j] != entries.value[k]
    }

    // A wait already under the key would be hung up on; ids are drawn so that there is none.
    method Register(key: Key) returns (answered: Option<Oneshot>)
      requires Valid()
      modifies this, if entries.Some? then entries.value.Values else {}
      ensures Valid()
      ensures answered.Some? <==> old(entries).Some?
      ensures answered.Some? ==>
        fresh(answered.value) && answered.value.slot == Awaited && answered.value.listening
        && entries == Registered(old(entries), key, answered.value)
      ensures answered.None? ==> entries == None
    {
      if entries.None? {
        return None;
      }
      if key in entries.value {
        entries.value[key].DropSender();
      }
      var sender := new Oneshot();
      ghost var was := entries.value;
      forall j | j in was
        ensures was[j] != sender
      {
        assert !fresh(was[j]);
      }
      entries := Some(entries.value[key := sender]);
      answered := Some(sender);
    }

    method Forget(key: Key)
      requires Valid()
      modifies this, if entries.Some? then entries.value.Values else {}
      ensures Valid() && entries == Forgotten(old(entries), key)
      ensures old(entries).Some? && key in old(entries.value) ==> old(entries.value[key]).slot != Awaited
      ensures old(entries).Some? ==>
        forall k :: k in old(entries.value) && k != key ==> old(entries.value[k]).slot == old(entries.value[k].slot)
    {
      if entries.Some? && key in entries.value {
        var sender := entries.value[key];
        entries := Some(entries.value - {key});
        sender.DropSender();
      } else if entries.Some? {
        assert entries.value - {key} == entries.value;
      }
    }

    // Takes the wait `response` answers out of the table, then hands it over.
    method Deliver(caller: CallerKey, response: Response) returns (delivered: bool)
      requires Valid()
      modifies this, if entries.Some? then entries.value.Values else {}
      ensures Valid()
      ensures var to := old(Waits(entries, caller, response));
              && delivered == (to.Some? && old(to.value.listening))
              && (delivered ==> to.value.slot == Filled(response))
              && entries == (if to.Some? then Forgotten(old(entries), Key(caller, response.id.value.s)) else old(entries))
      ensures old(entries).Some? ==>
        forall k :: k in old(entries.value) && response.id != Some(Str(k.id)) ==>
          old(entries.value[k]).slot == old(entries.value[k].slot)
      ensures old(entries).Some? ==>
        forall k :: k in old(entries.value) && k.caller != caller ==>
          old(entries.value[k]).slot == old(entries.value[k].slot)
    {
      delivered := false;
      if response.id.Some? && response.id.value.Str? && entries.Some? {
        var key := Key(caller, response.id.value.s);
        if key in entries.value {
          var sender := entries.value[key];
          entries := Some(entries.value - {key});
          delivered := sender.Send(response);
        }
      }
    }

    // Closes the table: whatever was still waiting is hung up on.
    method Close()
      requires Valid()
      modifies this, if entries.Some? then entries.value.Values else {}
      ensures entries == None
      ensures old(entries).Some? ==>
        forall k :: k in old(entries.value) ==>
          old(entries.value[k]).slot ==
          if old(entries.value[k].slot) == Awaited then HungUp else old(entries.value[k].slot)
    {
      if entries.Some? {
        ghost var was := entries.value;
        var dropped := entries.value;
        entries := None;
        while dropped != map[]
          invariant entries == None
          invariant forall k :: k in dropped ==> k in was && dropped[k] == was[k] && was[k].slot == old(was[k].slot)
          invariant forall k :: k in was && k !in dropped ==>
            was[k].slot == if old(was[k].slot) == Awaited then HungUp else old(was[k].slot)
          decreases dropped.Keys
        {
          var k :| k in dropped;
          var sender := dropped[k];
          dropped := dropped - {k};
          sender.DropSender();
        }
      }
    }
  }

  /** Where messages to one client go, while its end is there. */
  class Outbound {
    var open: bool
    var sent: seq<Message>

    constructor ()
      ensures open && sent == []
    {
      open := true;
      sent := [];
    }

    method Send(m: Message) returns (ok: bool)
      modifies this
      ensures ok == old(open) && open == old(open)
      ensures sent == if ok then old(sent) + [m] else old(sent)
    {
      ok := open;
      if open {
        sent := sent + [m];
      }
    }
  }

  /** A request in flight, and how it ended so far. */
  class Waiting {
    const key: Key
    const outbound: Outbound
    const pending: PendingRequests
    var outcome: Abandoned

    constructor (key: Key, outbound: Outbound, pending: PendingRequests)
      ensures this.key == key && this.outbound == outbound && this.pending == pending && outcome == Dropped
    {
      this.key := key;
      this.outbound := outbound;
      this.pending := pending;
      outcome := Dropped;
    }

    // Forgets the request and, unless it was settled, tells the client.
    method Drop()
      requires pending.Valid()
      modifies pending, outbound, if pending.entries.Some? then pending.entries.value.Values else {}
      ensures pending.Valid() && pending.entries == Forgotten(old(pending.entries), key)
      ensures outbound.open == old(outbound.open)
      ensures outbound.sent ==
        if outcome == Answered || !old(outbound.open) then old(outbound.sent)
        else old(outbound.sent) + [Notice(key.id, outcome)]
    {
      pending.Forget(key);
      if outcome == Answered {
        return;
      }
      var _ := outbound.Send(Notice(key.id, outcome));
    }
  }
}
