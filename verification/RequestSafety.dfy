/** What requests to clients keep in every interleaving: who is answered, by what, and what the client hears. */
module RequestSafety {
  import opened Wrappers
  import opened Json
  import opened ClientChannel
  import opened RequestMachine

  // The messages about one id, in order.
  function About(sent: seq<Message>, id: string): seq<Message> {
    if sent == [] then []
    else
      var m := sent[|sent|-1];
      About(sent[..|sent|-1], id) + (if m.id == id then [m] else [])
  }

  lemma AboutMore(sent: seq<Message>, m: Message, id: string)
    ensures About(sent + [m], id) == About(sent, id) + (if m.id == id then [m] else [])
  {
    assert (sent + [m])[..|sent|] == sent;
  }

  ghost predicate IdsOk(calls: Calls, conns: Conns) {
    && (forall c, d :: c in calls && d in calls && calls[c].id == calls[d].id ==> c == d)
    && (forall c :: c in calls ==> calls[c].conn in conns)
  }

  // What waits in the table is a call not yet done with it, under its own key, with no answer so far.
  ghost predicate TableOk(calls: Calls, conns: Conns, table: Table<nat>) {
    table.Some? ==>
      forall k :: k in table.value ==>
        && table.value[k] in calls && calls[table.value[k]].conn in conns
        && KeyOf(conns, calls[table.value[k]]) == k
        && calls[table.value[k]].slot.Awaited?
        && (calls[table.value[k]].Listening() || calls[table.value[k]].pc.Forgetting?)
  }

  ghost predicate DeliveriesOk(calls: Calls, table: Table<nat>, deliveries: Deliveries) {
    && (forall d :: d in deliveries ==>
          && deliveries[d].call in calls && calls[deliveries[d].call].slot.Awaited?
          && !calls[deliveries[d].call].pc.Registering?
          && deliveries[d].response.id == Some(Str(calls[deliveries[d].call].id))
          && (table.Some? ==> deliveries[d].call !in table.value.Values))
    && (forall d, e :: d in deliveries && e in deliveries && deliveries[d].call == deliveries[e].call ==> d == e)
  }

  // A call with no answer yet is in the table, or its answer is on its way.
  ghost predicate WaitOk(calls: Calls, table: Table<nat>, deliveries: Deliveries) {
    forall c :: c in calls && calls[c].Listening() && calls[c].slot.Awaited? ==>
      || (table.Some? && c in table.value.Values)
      || exists d :: d in deliveries && deliveries[d].call == c
  }

  predicate EndOk(s: State, c: Call, outcome: Abandoned, result: Option<Answer>)
    requires c.conn in s.conns
  {
    match outcome
    case Dropped => result == None
    case CallCancelled => result == Some(Err(Cancelled)) && c.token in s.fired
    case TookTooLong => result == Some(Err(TimedOut))
    case Answered =>
      || (result == Some(Err(Disconnected)) && (s.table.None? || !s.conns[c.conn].open))
      || (c.slot.Filled? && result == Some(ReadResponse(c.slot.response)))
  }

  ghost predicate CallOk(s: State, c: Call) {
    && c.conn in s.conns && s.conns[c.conn].reaches
    && (c.slot.Filled? ==> c.slot.response.id == Some(Str(c.id)))
    && (c.slot.HungUp? ==> s.table.None?)
    && (c.pc.Registering? ==> c.slot.Awaited?)
    && (match c.pc
        case Forgetting(o, r) => EndOk(s, c, o, r)
        case Noticing(o, r) => o != Answered && EndOk(s, c, o, r)
        case Done(o, r) => EndOk(s, c, o, r)
        case _ => true)
  }

  ghost predicate EndsOk(s: State) {
    forall c :: c in s.calls ==> CallOk(s, s.calls[c])
  }

  // What has been sent about a call, by where it stands.
  predicate TraceOk(c: Call, trace: seq<Message>, open: bool) {
    match c.pc
    case Registering => trace == []
    case Sending => trace == []
    case Polling(_) => trace == [Request(c.id)]
    case Forgetting(o, _) => trace == [Request(c.id)] || (o == Answered && trace == [])
    case Noticing(_, _) => trace == [Request(c.id)]
    case Done(o, _) =>
      if o == Answered then trace == [Request(c.id)] || trace == []
      else trace == [Request(c.id), Notice(c.id, o)] || (trace == [Request(c.id)] && !open)
  }

  ghost predicate TracesOk(calls: Calls, conns: Conns) {
    && (forall c, k :: c in calls && k in conns ==>
          if calls[c].conn == k then TraceOk(calls[c], About(conns[k].sent, calls[c].id), conns[k].open)
          else About(conns[k].sent, calls[c].id) == [])
    && (forall k, id :: k in conns && About(conns[k].sent, id) != [] ==> exists c :: c in calls && calls[c].id == id)
  }

  ghost predicate Inv(s: State) {
    && IdsOk(s.calls, s.conns) && TableOk(s.calls, s.conns, s.table) && DeliveriesOk(s.calls, s.table, s.deliveries)
    && WaitOk(s.calls, s.table, s.deliveries) && EndsOk(s) && TracesOk(s.calls, s.conns)
  }

  // ---- One part at a time ------------------------------------------------------------------------

  // `c` is the same request as the call, elsewhere.
  predicate Same(calls: Calls, call: nat, c: Call) {
    call in calls && c.conn == calls[call].conn && c.id == calls[call].id && c.token == calls[call].token
  }

  lemma IdsPut(calls: Calls, conns: Conns, call: nat, c: Call)
    requires IdsOk(calls, conns) && Same(calls, call, c)
    ensures IdsOk(calls[call := c], conns)
  {
  }

  lemma TablePut(calls: Calls, conns: Conns, table: Table<nat>, call: nat, c: Call)
    requires TableOk(calls, conns, table) && Same(calls, call, c)
    requires table.Some? && call in table.value.Values ==> c.slot.Awaited? && (c.Listening() || c.pc.Forgetting?)
    ensures TableOk(calls[call := c], conns, table)
  {
  }

  lemma DeliveriesPut(calls: Calls, table: Table<nat>, deliveries: Deliveries, call: nat, c: Call)
    requires DeliveriesOk(calls, table, deliveries) && Same(calls, call, c)
    requires !c.pc.Registering?
    requires c.slot == calls[call].slot || forall d :: d in deliveries ==> deliveries[d].call != call
    ensures DeliveriesOk(calls[call := c], table, deliveries)
  {
  }

  lemma WaitPut(calls: Calls, table: Table<nat>, deliveries: Deliveries, call: nat, c: Call)
    requires WaitOk(calls, table, deliveries) && Same(calls, call, c)
    requires c.Listening() && c.slot.Awaited? ==> calls[call].Listening() && calls[call].slot.Awaited?
    ensures WaitOk(calls[call := c], table, deliveries)
  {
  }

  lemma EndsPut(s: State, call: nat, c: Call)
    requires EndsOk(s) && CallOk(s, c)
    ensures EndsOk(Put(s, call, c))
  {
    var t := Put(s, call, c);
    forall d | d in t.calls
      ensures CallOk(t, t.calls[d])
    {
      assert CallOk(s, t.calls[d]);
    }
  }

  lemma TracesPut(calls: Calls, conns: Conns, call: nat, c: Call)
    requires TracesOk(calls, conns) && Same(calls, call, c) && c.conn in conns
    requires TraceOk(c, About(conns[c.conn].sent, c.id), conns[c.conn].open)
    ensures TracesOk(calls[call := c], conns)
  {
    hide About, TraceOk;
    var moved := calls[call := c];
    forall k, id | k in conns && About(conns[k].sent, id) != []
      ensures exists d :: d in moved && moved[d].id == id
    {
      var d :| d in calls && calls[d].id == id;
      assert d in moved && moved[d].id == id;
    }
  }

  // A call moves on: nothing is said, and nobody waits who did not.
  lemma CallMoves(s: State, call: nat, pc: Pc)
    requires Inv(s) && call in s.calls && !pc.Registering?
    requires var c := s.calls[call].(pc := pc);
             && CallOk(s, c)
             && TraceOk(c, About(s.conns[c.conn].sent, c.id), s.conns[c.conn].open)
             && (c.Listening() ==> s.calls[call].Listening())
             && (pc.Forgetting? || c.Listening() || (s.table.Some? ==> call !in s.table.value.Values))
    ensures Inv(Put(s, call, s.calls[call].(pc := pc)))
  {
    hide IdsOk, DeliveriesOk, WaitOk, EndsOk, TracesOk, CallOk, TraceOk, About;
    var c := s.calls[call].(pc := pc);
    assert c.conn in s.conns by { Reached(s, call); }
    IdsPut(s.calls, s.conns, call, c);
    TablePut(s.calls, s.conns, s.table, call, c);
    DeliveriesPut(s.calls, s.table, s.deliveries, call, c);
    WaitPut(s.calls, s.table, s.deliveries, call, c);
    EndsPut(s, call, c);
    TracesPut(s.calls, s.conns, call, c);
  }

  lemma Reached(s: State, call: nat)
    requires Inv(s) && call in s.calls
    ensures s.calls[call].conn in s.conns && CallOk(s, s.calls[call])
    ensures TraceOk(s.calls[call], About(s.conns[s.calls[call].conn].sent, s.calls[call].id), s.conns[s.calls[call].conn].open)
  {
    hide About, TraceOk, CallOk, DeliveriesOk, WaitOk, TableOk;
  }

  // ---- Steps -----------------------------------------------------------------------------------

  // A connection changes in what no key and no trace looks at, but for its end going away.
  lemma ConnKeeps(s: State, conn: nat, value: Conn)
    requires Inv(s)
    requires if conn in s.conns
             then value.caller == s.conns[conn].caller && value.sent == s.conns[conn].sent
                  && value.reaches == s.conns[conn].reaches && (value.open ==> s.conns[conn].open)
             else value.sent == []
    ensures Inv(s.(conns := s.conns[conn := value]))
  {
    hide DeliveriesOk, WaitOk, TracesOk, EndsOk, TableOk, IdsOk;
    ConnParts(s, conn, value);
    ConnEnds(s, conn, value);
    ConnTraces(s, conn, value);
  }

  lemma ConnParts(s: State, conn: nat, value: Conn)
    requires IdsOk(s.calls, s.conns) && TableOk(s.calls, s.conns, s.table)
    requires conn in s.conns ==> value.caller == s.conns[conn].caller
    ensures IdsOk(s.calls, s.conns[conn := value]) && TableOk(s.calls, s.conns[conn := value], s.table)
  {
  }

  lemma ConnEnds(s: State, conn: nat, value: Conn)
    requires EndsOk(s)
    requires conn in s.conns ==> value.reaches == s.conns[conn].reaches && (value.open ==> s.conns[conn].open)
    ensures EndsOk(s.(conns := s.conns[conn := value]))
  {
    var t := s.(conns := s.conns[conn := value]);
    forall c | c in t.calls
      ensures CallOk(t, t.calls[c])
    {
      assert CallOk(s, s.calls[c]);
    }
  }

  lemma ConnTraces(s: State, conn: nat, value: Conn)
    requires TracesOk(s.calls, s.conns) && IdsOk(s.calls, s.conns)
    requires if conn in s.conns then value.sent == s.conns[conn].sent && (value.open ==> s.conns[conn].open)
             else value.sent == []
    ensures TracesOk(s.calls, s.conns[conn := value])
  {
    hide About, TraceOk;
    NothingAbout();
    var conns := s.conns[conn := value];
    forall c, k | c in s.calls && k in conns
      ensures if s.calls[c].conn == k then TraceOk(s.calls[c], About(conns[k].sent, s.calls[c].id), conns[k].open)
              else About(conns[k].sent, s.calls[c].id) == []
    {
      if k == conn && conn in s.conns && s.calls[c].conn == k {
        ClosedTrace(s.calls[c], About(conns[k].sent, s.calls[c].id), s.conns[k].open, value.open);
      }
    }
    forall k, id | k in conns && About(conns[k].sent, id) != []
      ensures exists c :: c in s.calls && s.calls[c].id == id
    {
      assert k in s.conns && conns[k].sent == s.conns[k].sent;
    }
  }

  lemma NothingAbout()
    ensures forall id: string :: About([], id) == []
  {
  }

  // A trace that was well stays so when the client goes away.
  lemma ClosedTrace(c: Call, trace: seq<Message>, open: bool, open': bool)
    requires TraceOk(c, trace, open) && (open' ==> open)
    ensures TraceOk(c, trace, open')
  {
  }

  lemma BeginKeeps(s: State, call: nat, over: Option<nat>, era: Era, token: nat, needs: Needs, serializes: bool,
                   id: Option<string>)
    requires Inv(s)
    ensures Inv(DoBegin(s, call, over, era, token, needs, serializes, id).0)
  {
    hide DeliveriesOk, WaitOk, TracesOk, EndsOk, TableOk, IdsOk;
    var t := DoBegin(s, call, over, era, token, needs, serializes, id).0;
    if t != s {
      var c := Call(over.value, token, id.value, Awaited, Registering);
      NewParts(s, call, c);
      NewTraces(s, call, c);
      EndsPut(s, call, c);
    }
  }

  lemma NewParts(s: State, call: nat, c: Call)
    requires call !in s.calls && Fresh(s, c.id) && c.conn in s.conns && c.pc.Registering?
    requires IdsOk(s.calls, s.conns) && TableOk(s.calls, s.conns, s.table)
    requires DeliveriesOk(s.calls, s.table, s.deliveries) && WaitOk(s.calls, s.table, s.deliveries)
    ensures var calls := s.calls[call := c];
            && IdsOk(calls, s.conns) && TableOk(calls, s.conns, s.table)
            && DeliveriesOk(calls, s.table, s.deliveries) && WaitOk(calls, s.table, s.deliveries)
  {
  }

  lemma NewTraces(s: State, call: nat, c: Call)
    requires call !in s.calls && Fresh(s, c.id) && c.conn in s.conns && c.pc.Registering?
    requires TracesOk(s.calls, s.conns)
    ensures TracesOk(s.calls[call := c], s.conns)
  {
    hide About;
    var calls := s.calls[call := c];
    forall k | k in s.conns
      ensures About(s.conns[k].sent, c.id) == []
    {
    }
    forall k, i | k in s.conns && About(s.conns[k].sent, i) != []
      ensures exists d :: d in calls && calls[d].id == i
    {
      var d :| d in s.calls && s.calls[d].id == i;
      assert d in calls && calls[d].id == i;
    }
  }

  lemma RegisterKeeps(s: State, call: nat)
    requires Inv(s)
    ensures Inv(DoRegister(s, call).0)
  {
    if Has(s, call) && s.calls[call].pc.Registering? {
      Reached(s, call);
      hide DeliveriesOk, WaitOk, TracesOk, EndsOk, IdsOk, About;
      var c := s.calls[call];
      if s.table.None? {
        CallMoves(s, call, Done(Answered, Some(Err(Disconnected))));
      } else {
        IdsPut(s.calls, s.conns, call, c.(pc := Sending));
        TracesPut(s.calls, s.conns, call, c.(pc := Sending));
        EndsPut(s, call, c.(pc := Sending));
        EndsTable(Put(s, call, c.(pc := Sending)), Registered(s.table, KeyOf(s.conns, c), call));
        TableAdds(s, call);
      }
    }
  }

  // Which entries the table holds does not matter to how calls end, only whether it is open.
  lemma EndsTable(s: State, table: Table<nat>)
    requires EndsOk(s) && (s.table.None? ==> table.None?)
    ensures EndsOk(s.(table := table)) <== (table.None? <==> s.table.None?)
  {
    var t := s.(table := table);
    if table.None? <==> s.table.None? {
      forall c | c in t.calls
        ensures CallOk(t, t.calls[c])
      {
        assert CallOk(s, s.calls[c]);
      }
    }
  }

  lemma TableAdds(s: State, call: nat)
    requires Inv(s) && Has(s, call) && s.calls[call].pc.Registering? && s.table.Some?
    ensures var calls := s.calls[call := s.calls[call].(pc := Sending)];
            var table := Registered(s.table, KeyOf(s.conns, s.calls[call]), call);
            TableOk(calls, s.conns, table) && DeliveriesOk(calls, table, s.deliveries) && WaitOk(calls, table, s.deliveries)
  {
    hide TracesOk, CallOk, EndsOk, WaitOk, DeliveriesOk;
    RegisteringAwaits(s, call);
    assert KeyOf(s.conns, s.calls[call]) !in s.table.value;
    AddedValues(s.table.value, KeyOf(s.conns, s.calls[call]), call);
    AddedDeliveries(s, call);
    AddedWaits(s, call);
  }

  lemma AddedValues(m: map<Key, nat>, key: Key, call: nat)
    requires key !in m
    ensures m[key := call].Values == m.Values + {call}
  {
    forall c | c in m.Values
      ensures c in m[key := call].Values
    {
      var k :| k in m && m[k] == c;
      assert m[key := call][k] == c;
    }
    assert m[key := call][key] == call;
  }

  lemma AddedDeliveries(s: State, call: nat)
    requires DeliveriesOk(s.calls, s.table, s.deliveries) && Has(s, call) && s.calls[call].pc.Registering? && s.table.Some?
    requires KeyOf(s.conns, s.calls[call]) !in s.table.value
    ensures DeliveriesOk(s.calls[call := s.calls[call].(pc := Sending)],
                         Registered(s.table, KeyOf(s.conns, s.calls[call]), call), s.deliveries)
  {
    AddedValues(s.table.value, KeyOf(s.conns, s.calls[call]), call);
  }

  lemma AddedWaits(s: State, call: nat)
    requires WaitOk(s.calls, s.table, s.deliveries) && Has(s, call) && s.table.Some?
    requires KeyOf(s.conns, s.calls[call]) !in s.table.value
    ensures WaitOk(s.calls[call := s.calls[call].(pc := Sending)],
                   Registered(s.table, KeyOf(s.conns, s.calls[call]), call), s.deliveries)
  {
    AddedValues(s.table.value, KeyOf(s.conns, s.calls[call]), call);
  }

  lemma RegisteringAwaits(s: State, call: nat)
    requires Inv(s) && call in s.calls && s.calls[call].pc.Registering?
    ensures s.calls[call].slot.Awaited?
  {
    hide IdsOk, TableOk, DeliveriesOk, WaitOk, TracesOk;
    assert CallOk(s, s.calls[call]);
  }

  lemma Said(s: State, at: nat, m: Message)
    requires at in s.conns
    ensures var t := Say(s, at, m);
            && t.conns.Keys == s.conns.Keys && t == s.(conns := t.conns)
            && (forall k :: k in s.conns ==> t.conns[k].open == s.conns[k].open)
            && (forall k, id :: k in s.conns && (k != at || id != m.id) ==>
                  About(t.conns[k].sent, id) == About(s.conns[k].sent, id))
            && About(t.conns[at].sent, m.id) == About(s.conns[at].sent, m.id) + (if Reaches(s.conns[at]) then [m] else [])
  {
    var t := Say(s, at, m);
    var sent := s.conns[at].sent;
    forall k, id | k in s.conns && (k != at || id != m.id)
      ensures About(t.conns[k].sent, id) == About(s.conns[k].sent, id)
    {
      AboutMore(sent, m, id);
    }
    AboutMore(sent, m, m.id);
  }

  // What is said about one call changes no other call's trace.
  lemma SayTraces(s: State, call: nat, m: Message, pc: Pc)
    requires TracesOk(s.calls, s.conns) && IdsOk(s.calls, s.conns) && call in s.calls && m.id == s.calls[call].id
    requires var conn := s.conns[s.calls[call].conn];
             TraceOk(s.calls[call].(pc := pc), About(conn.sent, m.id) + (if Reaches(conn) then [m] else []), conn.open)
    ensures var t := Put(Say(s, s.calls[call].conn, m), call, s.calls[call].(pc := pc));
            TracesOk(t.calls, t.conns)
  {
    hide About, TraceOk, Say;
    var at := s.calls[call].conn;
    Said(s, at, m);
    var said := Say(s, at, m);
    var moved := s.calls[call := s.calls[call].(pc := pc)];
    forall k, id | k in said.conns && About(said.conns[k].sent, id) != []
      ensures exists d :: d in s.calls && s.calls[d].id == id
    {
      if k == at && id == m.id {
        assert s.calls[call].id == id;
      }
    }
    SaidElsewhere(s, said, call);
    forall k, id | k in said.conns && About(said.conns[k].sent, id) != []
      ensures exists d :: d in moved && moved[d].id == id
    {
      StillMinted(s.calls, call, moved[call], id);
    }
  }

  lemma StillMinted(calls: Calls, call: nat, c: Call, id: string)
    requires Same(calls, call, c) && exists d :: d in calls && calls[d].id == id
    ensures var moved := calls[call := c]; exists d :: d in moved && moved[d].id == id
  {
    var moved := calls[call := c];
    var d :| d in calls && calls[d].id == id;
    assert d in moved && moved[d].id == id;
  }

  lemma SaidElsewhere(s: State, t: State, call: nat)
    requires TracesOk(s.calls, s.conns) && IdsOk(s.calls, s.conns) && call in s.calls
    requires t.conns.Keys == s.conns.Keys && (forall k :: k in s.conns ==> t.conns[k].open == s.conns[k].open)
    requires forall k, id :: k in s.conns && (k != s.calls[call].conn || id != s.calls[call].id) ==>
               About(t.conns[k].sent, id) == About(s.conns[k].sent, id)
    ensures forall c, k :: c in s.calls && c != call && k in t.conns ==>
              if s.calls[c].conn == k then TraceOk(s.calls[c], About(t.conns[k].sent, s.calls[c].id), t.conns[k].open)
              else About(t.conns[k].sent, s.calls[c].id) == []
    ensures forall k :: k in t.conns && k != s.calls[call].conn ==> About(t.conns[k].sent, s.calls[call].id) == []
  {
    hide About, TraceOk;
  }

  // A call says something and moves on.
  lemma CallSays(s: State, call: nat, m: Message, pc: Pc)
    requires Inv(s) && call in s.calls && m.id == s.calls[call].id && s.calls[call].conn in s.conns
    requires pc.Polling? || pc.Done?
    requires pc.Polling? ==> s.calls[call].Listening()
    requires pc.Done? ==> s.calls[call].pc.Noticing?
    requires var c := s.calls[call].(pc := pc);
             var conn := s.conns[c.conn];
             && CallOk(s, c)
             && TraceOk(c, About(conn.sent, m.id) + (if Reaches(conn) then [m] else []), conn.open)
    ensures Inv(Put(Say(s, s.calls[call].conn, m), call, s.calls[call].(pc := pc)))
  {
    var c := s.calls[call].(pc := pc);
    SayTraces(s, call, m, pc);
    hide DeliveriesOk, WaitOk, TracesOk, EndsOk, IdsOk, About, TraceOk, CallOk;
    IdsPut(s.calls, s.conns, call, c);
    TablePut(s.calls, s.conns, s.table, call, c);
    DeliveriesPut(s.calls, s.table, s.deliveries, call, c);
    WaitPut(s.calls, s.table, s.deliveries, call, c);
    EndsPut(s, call, c);
    var said := Put(s, call, c);
    if Reaches(s.conns[c.conn]) {
      var value := s.conns[c.conn].(sent := s.conns[c.conn].sent + [m]);
      ConnParts(said, c.conn, value);
      ConnEnds(said, c.conn, value);
    }
  }

  lemma SentOk(s: State, c: Call, trace: seq<Message>, deadline: nat)
    requires CallOk(s, c) && c.pc.Sending? && TraceOk(c, trace, s.conns[c.conn].open)
    ensures Reaches(s.conns[c.conn]) ==>
              var d := c.(pc := Polling(deadline));
              CallOk(s, d)
              && TraceOk(d, trace + (if Reaches(s.conns[c.conn]) then [Request(c.id)] else []), s.conns[c.conn].open)
    ensures !Reaches(s.conns[c.conn]) ==>
              var d := c.(pc := Forgetting(Answered, Some(Err(Disconnected))));
              CallOk(s, d) && TraceOk(d, trace, s.conns[c.conn].open)
  {
  }

  lemma SendReady(s: State, call: nat, deadline: nat)
    requires Inv(s) && Has(s, call) && s.calls[call].pc.Sending? && Reaches(s.conns[s.calls[call].conn])
    ensures var c := s.calls[call].(pc := Polling(deadline));
            var conn := s.conns[c.conn];
            && CallOk(s, c)
            && TraceOk(c, About(conn.sent, c.id) + (if Reaches(conn) then [Request(c.id)] else []), conn.open)
  {
    Reached(s, call);
    hide Inv, About, CallOk, TraceOk, Reaches;
    SentOk(s, s.calls[call], About(s.conns[s.calls[call].conn].sent, s.calls[call].id), deadline);
  }

  lemma SendSays(s: State, call: nat)
    requires Inv(s) && Has(s, call) && s.calls[call].pc.Sending? && Reaches(s.conns[s.calls[call].conn])
    ensures Inv(DoSend(s, call).0)
  {
    hide Inv, About, CallOk, TraceOk, Reaches, Say;
    var c := s.calls[call];
    var deadline := s.now + s.conns[c.conn].timeout;
    SendReady(s, call, deadline);
    CallSays(s, call, Request(c.id), Polling(deadline));
  }

  lemma SendFails(s: State, call: nat)
    requires Inv(s) && Has(s, call) && s.calls[call].pc.Sending? && !Reaches(s.conns[s.calls[call].conn])
    ensures Inv(DoSend(s, call).0)
  {
    Reached(s, call);
    hide Inv, About, CallOk, TraceOk, Reaches, Say;
    var c := s.calls[call];
    SentOk(s, c, About(s.conns[c.conn].sent, c.id), s.now + s.conns[c.conn].timeout);
    CallMoves(s, call, Forgetting(Answered, Some(Err(Disconnected))));
  }

  lemma SendKeeps(s: State, call: nat)
    requires Inv(s)
    ensures Inv(DoSend(s, call).0)
  {
    hide Inv, Reaches, Say;
    if Has(s, call) && s.calls[call].pc.Sending? {
      if Reaches(s.conns[s.calls[call].conn]) {
        SendSays(s, call);
      } else {
        SendFails(s, call);
      }
    }
  }

  lemma SettledOk(s: State, c: Call, trace: seq<Message>)
    requires CallOk(s, c) && c.pc.Polling? && TraceOk(c, trace, s.conns[c.conn].open)
    ensures var d := c.(pc := Settle(s, c));
            d == c || (CallOk(s, d) && d.pc.Forgetting? && TraceOk(d, trace, s.conns[c.conn].open))
  {
    hide ReadResponse;
  }

  lemma PollReady(s: State, call: nat)
    requires Inv(s) && Has(s, call) && s.calls[call].pc.Polling?
    ensures var c := s.calls[call];
            var d := c.(pc := Settle(s, c));
            d == c || (CallOk(s, d) && d.pc.Forgetting?
                       && TraceOk(d, About(s.conns[c.conn].sent, c.id), s.conns[c.conn].open))
  {
    Reached(s, call);
    hide Inv, About, CallOk, TraceOk, Settle;
    SettledOk(s, s.calls[call], About(s.conns[s.calls[call].conn].sent, s.calls[call].id));
  }

  lemma PollKeeps(s: State, call: nat)
    requires Inv(s)
    ensures Inv(DoPoll(s, call).0)
  {
    hide Inv, About, CallOk, TraceOk, Settle;
    if Has(s, call) && s.calls[call].pc.Polling? {
      PollReady(s, call);
      var c := s.calls[call];
      if c.(pc := Settle(s, c)) == c {
        assert DoPoll(s, call).0 == s;
      } else {
        CallMoves(s, call, Settle(s, c));
      }
    }
  }

  lemma DropKeeps(s: State, call: nat)
    requires Inv(s)
    ensures Inv(DoDropFuture(s, call).0)
  {
    if Has(s, call) && s.calls[call].pc.Polling? {
      Reached(s, call);
      hide Inv, About;
      CallMoves(s, call, Forgetting(Dropped, None));
    }
  }

  // The table loses an entry whose call no longer listens.
  lemma TableDrops(s: State, key: Key)
    requires Inv(s)
    requires s.table.Some? && key in s.table.value ==>
      s.table.value[key] in s.calls && !s.calls[s.table.value[key]].Listening()
    ensures Inv(s.(table := Forgotten(s.table, key)))
  {
    hide TracesOk, CallOk, IdsOk, EndsOk;
    EndsTable(s, Forgotten(s.table, key));
    if s.table.Some? {
      var m := s.table.value;
      forall c | c in m.Values && (key in m ==> c != m[key])
        ensures c in (m - {key}).Values
      {
        var k :| k in m && m[k] == c;
        assert (m - {key})[k] == c;
      }
      forall c | c in (m - {key}).Values
        ensures c in m.Values
      {
        var k :| k in (m - {key}) && (m - {key})[k] == c;
        assert m[k] == c;
      }
    }
  }

  lemma ForgetKeeps(s: State, call: nat)
    requires Inv(s)
    ensures Inv(DoForget(s, call).0)
  {
    if Has(s, call) && s.calls[call].pc.Forgetting? {
      var key := KeyOf(s.conns, s.calls[call]);
      var t := s.(table := Forgotten(s.table, key));
      OwnEntry(s, call);
      TableDrops(s, key);
      Reached(t, call);
      hide Inv, About;
      var pc := s.calls[call].pc;
      CallMoves(t, call, if pc.outcome == Answered then Done(Answered, pc.result) else Noticing(pc.outcome, pc.result));
    }
  }

  // The entry under a call's key is its own, and it has no other.
  lemma OwnEntry(s: State, call: nat)
    requires Inv(s) && Has(s, call)
    ensures s.table.Some? ==>
              var key := KeyOf(s.conns, s.calls[call]);
              && (key in s.table.value ==> s.table.value[key] == call)
              && call !in (s.table.value - {key}).Values
  {
    hide TracesOk, CallOk, EndsOk, WaitOk, DeliveriesOk;
  }

  lemma NotifyKeeps(s: State, call: nat)
    requires Inv(s)
    ensures Inv(DoNotify(s, call).0)
  {
    if Has(s, call) && s.calls[call].pc.Noticing? {
      Reached(s, call);
      hide Inv, About;
      var c := s.calls[call];
      CallSays(s, call, Notice(c.id, c.pc.outcome), Done(c.pc.outcome, c.pc.result));
    }
  }

  lemma TakeKeeps(s: State, delivery: nat, caller: CallerKey, response: Response)
    requires Inv(s)
    ensures Inv(DoTake(s, delivery, caller, response).0)
  {
    hide TracesOk, CallOk, EndsOk;
    var t := DoTake(s, delivery, caller, response).0;
    if t != s {
      var key := Key(caller, response.id.value.s);
      EndsTable(s, Forgotten(s.table, key));
      TakenEnds(s, t);
      TakeParts(s, delivery, key, response);
    }
  }

  lemma TakenEnds(s: State, t: State)
    requires EndsOk(s.(table := t.table)) && t.calls == s.calls && t.conns == s.conns && t.fired == s.fired
    ensures EndsOk(t)
  {
    forall c | c in t.calls
      ensures CallOk(t, t.calls[c])
    {
      assert CallOk(s.(table := t.table), s.calls[c]);
    }
  }

  // An entry moves from the table to a delivery.
  lemma TakeParts(s: State, delivery: nat, key: Key, response: Response)
    requires Inv(s) && delivery !in s.deliveries && s.table.Some? && key in s.table.value
    requires response.id == Some(Str(key.id))
    ensures var table := Forgotten(s.table, key);
            var deliveries := s.deliveries[delivery := Delivery(s.table.value[key], response)];
            TableOk(s.calls, s.conns, table) && DeliveriesOk(s.calls, table, deliveries) && WaitOk(s.calls, table, deliveries)
  {
    hide TracesOk, CallOk, EndsOk, WaitOk;
    var call := s.table.value[key];
    OwnEntry(s, call);
    var deliveries := s.deliveries[delivery := Delivery(call, response)];
    var m := s.table.value - {key};
    forall c | c in m.Values
      ensures c in s.table.value.Values
    {
      var k :| k in m && m[k] == c;
      assert s.table.value[k] == c;
    }
    assert DeliveriesOk(s.calls, Some(m), deliveries);
    TakeWaits(s, delivery, key, response);
  }

  lemma TakeWaits(s: State, delivery: nat, key: Key, response: Response)
    requires WaitOk(s.calls, s.table, s.deliveries) && delivery !in s.deliveries && s.table.Some? && key in s.table.value
    ensures WaitOk(s.calls, Forgotten(s.table, key), s.deliveries[delivery := Delivery(s.table.value[key], response)])
  {
    var call := s.table.value[key];
    var deliveries := s.deliveries[delivery := Delivery(call, response)];
    var m := s.table.value - {key};
    assert deliveries[delivery].call == call;
    forall c | c in s.calls && s.calls[c].Listening() && s.calls[c].slot.Awaited?
      ensures c in m.Values || exists d :: d in deliveries && deliveries[d].call == c
    {
      if c in s.table.value.Values {
        var k :| k in s.table.value && s.table.value[k] == c;
        assert k != key ==> m[k] == c;
      } else {
        var d :| d in s.deliveries && s.deliveries[d].call == c;
        assert d in deliveries && deliveries[d].call == c;
      }
    }
  }

  lemma HandOverKeeps(s: State, delivery: nat, late: bool)
    requires Inv(s)
    ensures Inv(DoHandOver(s, delivery, late).0)
  {
    if delivery in s.deliveries {
      var d := s.deliveries[delivery];
      hide TracesOk, CallOk, EndsOk, WaitOk, TraceOk, About, IdsOk, TableOk;
      HandedAway(s, delivery);
      assert d.call in s.calls;
      Reached(s, d.call);
      if s.calls[d.call].Listening() || (late && s.calls[d.call].MayListen()) {
        var c := s.calls[d.call].(slot := Filled(d.response));
        FilledOk(s, d.call, d.response);
        IdsPut(s.calls, s.conns, d.call, c);
        TablePut(s.calls, s.conns, s.table, d.call, c);
        DeliveriesPut(s.calls, s.table, s.deliveries - {delivery}, d.call, c);
        HandedWaits(s, delivery);
        EndsPut(s.(deliveries := s.deliveries - {delivery}), d.call, c);
        TracesPut(s.calls, s.conns, d.call, c);
      } else {
        HandedWaits(s, delivery);
      }
    }
  }

  lemma HandedAway(s: State, delivery: nat)
    requires DeliveriesOk(s.calls, s.table, s.deliveries) && delivery in s.deliveries && EndsOk(s)
    ensures DeliveriesOk(s.calls, s.table, s.deliveries - {delivery}) && EndsOk(s.(deliveries := s.deliveries - {delivery}))
  {
    TakenEnds(s, s.(deliveries := s.deliveries - {delivery}));
  }

  lemma FilledOk(s: State, call: nat, response: Response)
    requires Has(s, call) && CallOk(s, s.calls[call]) && (s.calls[call].Listening() || s.calls[call].MayListen())
    requires s.calls[call].slot.Awaited?
    requires TraceOk(s.calls[call], About(s.conns[s.calls[call].conn].sent, s.calls[call].id), s.conns[s.calls[call].conn].open)
    requires response.id == Some(Str(s.calls[call].id))
    ensures var c := s.calls[call].(slot := Filled(response));
            && CallOk(s, c)
            && TraceOk(c, About(s.conns[c.conn].sent, c.id), s.conns[c.conn].open)
            && forall ds :: CallOk(s.(deliveries := ds), c)
  {
    hide About;
  }

  lemma HandedWaits(s: State, delivery: nat)
    requires WaitOk(s.calls, s.table, s.deliveries) && delivery in s.deliveries && s.deliveries[delivery].call in s.calls
    ensures var call := s.deliveries[delivery].call;
            var deliveries := s.deliveries - {delivery};
            && WaitOk(s.calls[call := s.calls[call].(slot := Filled(s.deliveries[delivery].response))], s.table, deliveries)
            && (!s.calls[call].Listening() ==> WaitOk(s.calls, s.table, deliveries))
  {
    var deliveries := s.deliveries - {delivery};
    forall c | c in s.calls && c != s.deliveries[delivery].call && s.calls[c].Listening() && s.calls[c].slot.Awaited?
      ensures (s.table.Some? && c in s.table.value.Values) || exists e :: e in deliveries && deliveries[e].call == c
    {
      if !(s.table.Some? && c in s.table.value.Values) {
        var e :| e in s.deliveries && s.deliveries[e].call == c;
        assert e in deliveries && deliveries[e].call == c;
      }
    }
  }

  lemma CloseKeeps(s: State)
    requires Inv(s)
    ensures Inv(DoCloseTable(s).0)
  {
    if s.table.Some? {
      var t := DoCloseTable(s).0;
      hide TracesOk, EndsOk, CallOk, About;
      assert IdsOk(t.calls, t.conns) && TableOk(t.calls, t.conns, t.table);
      CloseWaits(s);
      CloseEnds(s);
      CloseTraces(s);
    }
  }

  lemma CloseWaits(s: State)
    requires WaitOk(s.calls, s.table, s.deliveries) && DeliveriesOk(s.calls, s.table, s.deliveries) && s.table.Some?
    ensures var t := DoCloseTable(s).0;
            WaitOk(t.calls, t.table, t.deliveries) && DeliveriesOk(t.calls, t.table, t.deliveries)
  {
  }

  lemma CloseEnds(s: State)
    requires EndsOk(s) && TableOk(s.calls, s.conns, s.table) && s.table.Some?
    ensures EndsOk(DoCloseTable(s).0)
  {
    var t := DoCloseTable(s).0;
    forall c | c in t.calls
      ensures CallOk(t, t.calls[c])
    {
      assert CallOk(s, s.calls[c]);
    }
  }

  lemma CloseTraces(s: State)
    requires TracesOk(s.calls, s.conns) && s.table.Some?
    ensures TracesOk(DoCloseTable(s).0.calls, s.conns)
  {
    hide About;
    var t := DoCloseTable(s).0;
    forall c, k | c in t.calls && k in s.conns
      ensures if t.calls[c].conn == k then TraceOk(t.calls[c], About(s.conns[k].sent, t.calls[c].id), s.conns[k].open)
              else About(s.conns[k].sent, t.calls[c].id) == []
    {
      assert c in s.calls && t.calls[c].id == s.calls[c].id && t.calls[c].pc == s.calls[c].pc;
    }
    forall k, id | k in s.conns && About(s.conns[k].sent, id) != []
      ensures exists d :: d in t.calls && t.calls[d].id == id
    {
      var d :| d in s.calls && s.calls[d].id == id;
      assert d in t.calls && t.calls[d].id == id;
    }
  }

  // Time passes and tokens fire.
  lemma ClockKeeps(s: State, now: nat, fired: set<nat>)
    requires Inv(s) && s.fired <= fired
    ensures Inv(s.(now := now, fired := fired))
  {
    hide IdsOk, TableOk, DeliveriesOk, WaitOk, TracesOk;
    var t := s.(now := now, fired := fired);
    forall c | c in t.calls
      ensures CallOk(t, t.calls[c])
    {
      assert CallOk(s, s.calls[c]);
    }
  }

  lemma InvStep(s: State, e: Event)
    requires Inv(s)
    ensures Inv(Next(s, e))
  {
    hide Inv, DoBegin, DoRegister, DoSend, DoPoll, DoDropFuture, DoForget, DoNotify, DoTake, DoHandOver, DoCloseTable;
    match e
    case Tick(to) => if to >= s.now { ClockKeeps(s, to, s.fired); }
    case Connect(conn, value) => if conn !in s.conns { ConnKeeps(s, conn, value.(sent := [], open := true)); }
    case Declare(conn, declared) =>
      if conn in s.conns { ConnKeeps(s, conn, s.conns[conn].(session := Some(declared))); }
    case Hangup(conn) => if conn in s.conns { ConnKeeps(s, conn, s.conns[conn].(open := false)); }
    case Fire(token) => ClockKeeps(s, s.now, s.fired + {token});
    case Begin(call, over, era, token, needs, serializes, id) =>
      BeginKeeps(s, call, over, era, token, needs, serializes, id);
    case Register(call) => RegisterKeeps(s, call);
    case Send(call) => SendKeeps(s, call);
    case Poll(call) => PollKeeps(s, call);
    case DropFuture(call) => DropKeeps(s, call);
    case Forget(call) => ForgetKeeps(s, call);
    case Notify(call) => NotifyKeeps(s, call);
    case Take(delivery, caller, response) => TakeKeeps(s, delivery, caller, response);
    case HandOver(delivery, late) => HandOverKeeps(s, delivery, late);
    case CloseTable => CloseKeeps(s);
  }

  lemma {:induction false} ReachedInv(es: seq<Event>)
    ensures Inv(Exec(Init(), es))
    decreases |es|
  {
    if es == [] {
    } else {
      ReachedInv(es[..|es|-1]);
      InvStep(Exec(Init(), es[..|es|-1]), es[|es|-1]);
    }
  }
}
