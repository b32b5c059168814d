/** The requests a server is serving, by who sent each and the id it gave it, so that a notification can cancel one. */
module InFlight {
  import opened Wrappers
  import opened Json
  import opened ClientChannel

  // What a request is dispatched with: the identity resolved for it, and how it came, if through a transport.
  datatype Context = Context(user: Option<string>, tenant: Option<string>, client: Option<CallerKey>, cancellation: nat) {
    function Caller(): CallerKey {
      match client case Some(caller) => caller case None => CallerKey(user, tenant, Unconnected)
    }
  }

  // The id stands for its JSON text: a number and a string of the same digits differ.
  datatype RequestKey = RequestKey(caller: CallerKey, request: Json)

  function KeyFor(ctx: Context, request: Json): Option<RequestKey> {
    if ctx.Caller().TellsCallersApart() then Some(RequestKey(ctx.Caller(), request)) else None
  }

  // A registration: its serial and its token.
  datatype Entry<+T> = Entry(serial: nat, token: T)

  type Registry<T> = map<RequestKey, seq<Entry<T>>>

  function Group<T>(table: Registry<T>, key: RequestKey): seq<Entry<T>> {
    if key in table then table[key] else []
  }

  function Pushed<T>(table: Registry<T>, key: RequestKey, entry: Entry<T>): Registry<T> {
    table[key := Group(table, key) + [entry]]
  }

  // The entries not of this serial, in their order.
  function Retained<T>(entries: seq<Entry<T>>, serial: nat): seq<Entry<T>> {
    if entries == [] then []
    else
      var e := entries[|entries|-1];
      Retained(entries[..|entries|-1], serial) + (if e.serial != serial then [e] else [])
  }

  function Released<T>(table: Registry<T>, key: RequestKey, serial: nat): Registry<T> {
    if key !in table then table
    else
      var left := Retained(table[key], serial);
      if left == [] then table - {key} else table[key := left]
  }

  lemma {:induction false} RetainedHas<T>(entries: seq<Entry<T>>, serial: nat, e: Entry<T>)
    ensures e in Retained(entries, serial) <==> e in entries && e.serial != serial
  {
    if entries != [] {
      var rest := entries[..|entries|-1];
      RetainedHas(rest, serial, e);
      assert entries == rest + [entries[|entries|-1]];
    }
  }

  // `requestId` of a cancellation: a string or a number, or it names nothing.
  function CancelledRequestId(params: Option<Json>): Option<Json> {
    match params
    case Some(Obj(fields)) =>
      if "requestId" in fields && (fields["requestId"].Str? || fields["requestId"].Num?) then Some(fields["requestId"]) else None
    case _ => None
  }

  class Token {
    var fired: bool

    constructor ()
      ensures !fired
    {
      fired := false;
    }

    method Fire()
      modifies this
      ensures fired
    {
      fired := true;
    }
  }

  class InFlightRequests {
    var nextSerial: nat
    var entries: map<RequestKey, seq<Entry<Token>>>

    constructor ()
      ensures nextSerial == 0 && entries == map[]
    {
      nextSerial := 0;
      entries := map[];
    }

    method Register(key: Option<RequestKey>) returns (serial: nat, token: Token)
      modifies this
      ensures fresh(token) && !token.fired && serial == old(nextSerial) && nextSerial == serial + 1
      ensures entries == if key.Some? then Pushed(old(entries), key.value, Entry(serial, token)) else old(entries)
    {
      serial := nextSerial;
      nextSerial := nextSerial + 1;
      token := new Token();
      if key.Some? {
        if key.value !in entries {
          entries := entries[key.value := []];
        }
        entries := entries[key.value := entries[key.value] + [Entry(serial, token)]];
      }
    }

    ghost function Tokens(key: RequestKey): set<Token>
      reads this
    {
      set e | e in Group(entries, key) :: e.token
    }

    // Fires the tokens registered under the key, and no other.
    method Cancel(key: Option<RequestKey>) returns (found: bool)
      modifies if key.Some? then Tokens(key.value) else {}
      ensures found <==> key.Some? && Group(entries, key.value) != []
      ensures key.Some? ==> forall t :: t in Tokens(key.value) ==> t.fired
    {
      if key.None? || key.value !in entries {
        return false;
      }
      var live := entries[key.value];
      var i := 0;
      while i < |live|
        invariant 0 <= i <= |live|
        invariant forall j :: 0 <= j < i ==> live[j].token.fired
      {
        assert live[i] in live;
        live[i].token.Fire();
        i := i + 1;
      }
      found := live != [];
    }

    method Release(key: RequestKey, serial: nat)
      modifies this
      ensures entries == Released(old(entries), key, serial) && nextSerial == old(nextSerial)
    {
      if key in entries {
        var live := entries[key];
        var left := [];
        var i := 0;
        while i < |live|
          invariant 0 <= i <= |live|
          invariant left == Retained(live[..i], serial)
        {
          assert live[..i+1] == live[..i] + [live[i]];
          if live[i].serial != serial {
            left := left + [live[i]];
          }
          i := i + 1;
        }
        assert live[..i] == live;
        if left == [] {
          entries := entries - {key};
        } else {
          entries := entries[key := left];
        }
      }
    }
  }
}
