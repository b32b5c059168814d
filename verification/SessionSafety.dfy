/** What the session store keeps in every interleaving: its bounds, who leaves, and how long an idle session stays. */
module SessionSafety {
  import opened Wrappers
  import opened Clock
  import opened SessionStore
  import opened SessionMachine

  type Uses = map<nat, Use>

  function UsesOf(uses: Uses, id: SessionId): set<nat> {
    set u | u in uses && uses[u].id == id
  }

  ghost predicate TableOk(s: State) {
    s.table <= s.arena.Keys && s.table <= s.held && s.held <= s.arena.Keys && s.closed <= s.arena.Keys
  }

  ghost predicate BoundsOk(arena: Arena, table: set<SessionId>, limits: Limits) {
    WithinLimits(Live(arena, table), limits)
  }

  // A session is counted busy once for every request served in it.
  ghost predicate CountsOk(arena: Arena, uses: Uses) {
    forall id :: id in arena ==> arena[id].seen.active == |UsesOf(uses, id)|
  }

  ghost predicate UsesOk(s: State) {
    forall u :: u in s.uses ==>
      s.uses[u].id in s.arena && (s.uses[u].stored ==> s.uses[u].id in s.table || s.uses[u].id in s.closed)
  }

  // A session that has left the table has ended.
  ghost predicate LeftOk(s: State) {
    forall id :: id in s.held && id in s.arena && id !in s.table ==> s.arena[id].ended
  }

  ghost predicate ClocksOk(s: State) {
    && s.lastSweep <= s.now && s.swept <= s.now
    && (forall c :: c in s.calls && s.calls[c] != Done ==> s.calls[c].at <= s.now)
    && (forall u :: u in s.uses && s.uses[u].phase.Stamped? ==> s.uses[u].phase.at <= s.now)
    && (forall id :: id in s.arena ==> s.arena[id].seen.lastSeen <= s.now && s.arena[id].idleSince <= s.now)
    && (forall id :: id in s.arena && s.arena[id].seen.active == 0 ==> s.arena[id].seen.lastSeen <= s.arena[id].idleSince)
  }

  // A sweep is due or has been made up to the recorded instant, and what it left was not expired then.
  ghost predicate SweepsOk(s: State) {
    && (s.lastSweep <= s.swept || exists c :: c in s.calls && s.calls[c].Sweeping? && s.calls[c].at == s.lastSweep)
    && (forall id :: s.ttl > 0 && id in s.table && id in s.arena && s.arena[id].seen.active == 0 ==>
          s.swept < s.arena[id].idleSince + s.ttl)
    && (forall c :: c in s.calls && s.calls[c].Serving? ==>
          s.calls[c].at <= s.swept || (s.ttl / 2 > 0 && s.calls[c].at < s.lastSweep + s.ttl / 2))
  }

  // What an insert's scan picked is its caller's, and no request entered it through the store since.
  ghost predicate ScanOk(s: State) {
    match s.scan
    case None => true
    case Some(scan) =>
      && scan.call in s.calls && s.calls[scan.call].Serving? && s.calls[scan.call].kind.InsertCall?
      && s.calls[scan.call].kind.id in s.arena
      && (scan.pick.Some? ==>
            && scan.pick.value in s.table && scan.pick.value in s.arena
            && s.arena[scan.pick.value].seen.caller == s.arena[s.calls[scan.call].kind.id].seen.caller
            && forall u :: u in s.uses && s.uses[u].id == scan.pick.value ==> !s.uses[u].stored)
  }

  ghost predicate Inv(s: State) {
    && s.limits.Positive()
    && TableOk(s) && BoundsOk(s.arena, s.table, s.limits) && CountsOk(s.arena, s.uses)
    && UsesOk(s) && LeftOk(s) && ClocksOk(s) && SweepsOk(s) && ScanOk(s)
  }

  // ---- The bounds ------------------------------------------------------------------------------

  lemma SubsetSize<T>(a: set<T>, b: set<T>)
    requires a <= b
    ensures |a| <= |b|
  {
    if a != {} {
      var x :| x in a;
      SubsetSize(a - {x}, b - {x});
    }
  }

  lemma ShrunkWithinLimits(table: Table, limits: Limits, gone: set<SessionId>)
    requires WithinLimits(table, limits)
    ensures WithinLimits(table - gone, limits)
  {
    assert (table - gone).Keys <= table.Keys;
    SubsetSize((table - gone).Keys, table.Keys);
    forall id | id in table - gone
      ensures |OfCaller(table - gone, (table - gone)[id].caller)| <= limits.perCaller
    {
      SubsetSize(OfCaller(table - gone, table[id].caller), OfCaller(table, table[id].caller));
    }
  }

  lemma GrownWithinLimits(table: Table, limits: Limits, id: SessionId, session: Seen)
    requires WithinLimits(table, limits) && |table| < limits.total
    requires |OfCaller(table, session.caller)| < limits.perCaller
    requires id in table ==> table[id].caller == session.caller
    ensures WithinLimits(table[id := session], limits)
  {
    hide OfCaller;
    var grown := table[id := session];
    PutKeys(table, id, session);
    forall x | x in grown
      ensures |OfCaller(grown, grown[x].caller)| <= limits.perCaller
    {
      GrownOfCaller(table, id, session, grown[x].caller);
    }
  }

  lemma GrownOfCaller(table: Table, id: SessionId, session: Seen, caller: Caller)
    requires id in table ==> table[id].caller == session.caller
    ensures OfCaller(table[id := session], caller) == OfCaller(table, caller) + (if caller == session.caller then {id} else {})
  {
  }

  // Dropping sessions leaves no caller with more.
  lemma FewerOfCaller(table: Table, gone: set<SessionId>, caller: Caller)
    ensures |OfCaller(table - gone, caller)| <= |OfCaller(table, caller)|
    ensures forall v :: v in OfCaller(table, caller) && v in gone ==> |OfCaller(table - gone, caller)| < |OfCaller(table, caller)|
  {
    SubsetSize(OfCaller(table - gone, caller), OfCaller(table, caller));
    forall v | v in OfCaller(table, caller) && v in gone
      ensures |OfCaller(table - gone, caller)| < |OfCaller(table, caller)|
    {
      SubsetSize(OfCaller(table - gone, caller), OfCaller(table, caller) - {v});
    }
  }

  lemma AdmitTotalKeeps(table: Table, ttl: nat, limits: Limits, now: nat, id: SessionId, session: Seen)
    requires WithinLimits(table, limits) && |OfCaller(table, session.caller)| < limits.perCaller
    requires id in table ==> table[id].caller == session.caller
    ensures var r := AdmitTotal(table, ttl, limits, now, id, session);
            && WithinLimits(r.table, limits)
            && r.ended <= ExpiredIds(table, ttl, now)
            && r.table.Keys == (if r.result.Ok? then (table.Keys - r.ended) + {id} else table.Keys - r.ended)
            && (|table| < limits.total ==> r.ended == {} && r.result.Ok?)
  {
    hide WithinLimits, OfCaller;
    PutKeys(table, id, session);
    assert table.Keys - {} == table.Keys;
    if |table| < limits.total {
      GrownWithinLimits(table, limits, id, session);
    } else {
      var expired := ExpiredIds(table, ttl, now);
      DropKeys(table, expired);
      var kept := table - expired;
      PutKeys(kept, id, session);
      ShrunkWithinLimits(table, limits, expired);
      FewerOfCaller(table, expired, session.caller);
      hide ExpiredIds;
      if |kept| < limits.total {
        GrownWithinLimits(kept, limits, id, session);
      }
    }
  }

  lemma AdmitTotalValues(table: Table, ttl: nat, limits: Limits, now: nat, id: SessionId, session: Seen)
    ensures var r := AdmitTotal(table, ttl, limits, now, id, session);
            forall x :: x in r.table ==>
              if x == id && r.result.Ok? then r.table[x] == session else x in table && r.table[x] == table[x]
  {
  }

  lemma PutKeys(table: Table, id: SessionId, session: Seen)
    ensures table[id := session].Keys == table.Keys + {id}
  {
  }

  lemma DropKeys(table: Table, gone: set<SessionId>)
    ensures (table - gone).Keys == table.Keys - gone
    ensures forall id :: id in table - gone ==> (table - gone)[id] == table[id]
  {
  }

  // Giving one of its own up makes room for the caller, and in the table.
  lemma EvictionMakesRoom(table: Table, limits: Limits, caller: Caller, v: SessionId)
    requires WithinLimits(table, limits) && v in table && table[v].caller == caller
    ensures WithinLimits(table - {v}, limits) && |table - {v}| < limits.total
    ensures |OfCaller(table - {v}, caller)| < limits.perCaller
  {
    ShrunkWithinLimits(table, limits, {v});
    assert v in OfCaller(table, caller);
    FewerOfCaller(table, {v}, caller);
    assert (table - {v}).Keys == table.Keys - {v};
  }

  // What a scan may have picked: a session of the caller, or none.
  predicate PickOf(table: Table, caller: Caller, pick: Option<SessionId>) {
    pick.Some? ==> pick.value in table && table[pick.value].caller == caller
  }

  /**
   * An insert into a table within its limits leaves it within them, ends nobody's session but expired ones and at
   * most the one of its caller's its scan picked, and ends only expired ones when it is refused: having given
   * one of its own up, a caller is never told the server is full.
   */
  lemma AdmitKeepsLimits(table: Table, ttl: nat, limits: Limits, now: nat, id: SessionId, session: Seen,
                         pick: Option<SessionId>)
    requires limits.Positive() && WithinLimits(table, limits) && PickOf(table, session.caller, pick)
    requires id in table ==> table[id].caller == session.caller
    ensures var r := Admit(table, ttl, limits, now, id, session, pick);
            && WithinLimits(r.table, limits)
            && r.table.Keys == (if r.result.Ok? then (table.Keys - r.ended) + {id} else table.Keys - r.ended)
            && r.ended <= table.Keys
            && (forall x :: x in r.table ==> r.table[x] == if x == id && r.result.Ok? then session else table[x])
            && (forall x :: x in r.ended ==> Expired(table[x], ttl, now) || (r.result.Ok? && pick == Some(x)))
  {
    hide AdmitTotal, WithinLimits, OfCaller;
    if |OfCaller(table, session.caller)| < limits.perCaller {
      AdmitTotalKeeps(table, ttl, limits, now, id, session);
      AdmitTotalValues(table, ttl, limits, now, id, session);
    } else if pick.Some? {
      EvictionMakesRoom(table, limits, session.caller, pick.value);
      AdmitTotalKeeps(table - {pick.value}, ttl, limits, now, id, session);
      AdmitTotalValues(table - {pick.value}, ttl, limits, now, id, session);
    }
  }

  // ---- Steps -----------------------------------------------------------------------------------

  lemma IdleHasNoUse(s: State, id: SessionId)
    requires CountsOk(s.arena, s.uses) && id in s.arena && s.arena[id].seen.active == 0
    ensures forall u :: u in s.uses ==> s.uses[u].id != id
  {
    assert |UsesOf(s.uses, id)| == 0;
    forall u | u in s.uses
      ensures s.uses[u].id != id
    {
      assert u !in UsesOf(s.uses, id);
    }
  }

  lemma IdleHaveNoUse(s: State, ids: set<SessionId>)
    requires CountsOk(s.arena, s.uses)
    requires forall id :: id in ids ==> id in s.arena && s.arena[id].seen.active == 0
    ensures forall u :: u in s.uses ==> s.uses[u].id !in ids
  {
    forall u | u in s.uses && s.uses[u].id in ids
      ensures false
    {
      IdleHasNoUse(s, s.uses[u].id);
    }
  }

  lemma LiveAfterEvict(s: State, ids: set<SessionId>)
    ensures Live(Evict(s, ids).arena, Evict(s, ids).table) == Live(s.arena, s.table) - ids
  {
  }

  // Sessions with no request that entered through the store, or closed by their client, may leave.
  lemma EvictKeeps(s: State, ids: set<SessionId>)
    requires Inv(s) && ids <= s.table
    requires forall u :: u in s.uses && s.uses[u].id in ids && s.uses[u].stored ==> s.uses[u].id in s.closed
    requires s.scan.None?
    ensures Inv(Evict(s, ids))
  {
    var t := Evict(s, ids);
    LiveAfterEvict(s, ids);
    assert BoundsOk(t.arena, t.table, t.limits) by {
      ShrunkWithinLimits(Live(s.arena, s.table), s.limits, ids);
    }
    assert CountsOk(t.arena, t.uses) by {
      forall id | id in t.arena
        ensures t.arena[id].seen.active == |UsesOf(t.uses, id)|
      {
        assert id in s.arena;
      }
    }
    assert UsesOk(t) by {
      forall u | u in t.uses
        ensures t.uses[u].id in t.arena && (t.uses[u].stored ==> t.uses[u].id in t.table || t.uses[u].id in t.closed)
      {
      }
    }
    assert SweepsOk(t);
  }

  lemma LookUpFacts(s: State, at: nat, id: SessionId)
    requires Inv(s) && s.scan.None?
    ensures var (t, found) := FindSection(s, at, id);
            && Inv(t)
            && (found <==> id in s.table && !Expired(s.arena[id].seen, s.ttl, at))
            && t == Evict(s, if id in s.table && !found then {id} else {})
  {
    var table := Live(s.arena, s.table);
    var gone := if id in s.table && Expired(s.arena[id].seen, s.ttl, at) then {id} else {};
    assert table.Keys == s.table;
    assert table.Keys - LookUp(table, s.ttl, at, id).0.Keys == gone;
    if gone != {} {
      IdleHasNoUse(s, id);
    }
    EvictKeeps(s, gone);
  }

  lemma CountsEnter(arena: Arena, uses: Uses, use: nat, id: SessionId, stored: bool, held: Held)
    requires CountsOk(arena, uses) && use !in uses && id in arena
    requires held.seen.active == arena[id].seen.active + 1
    ensures CountsOk(arena[id := held], uses[use := Use(id, stored, Open)])
  {
    var uses' := uses[use := Use(id, stored, Open)];
    forall x | x in arena
      ensures arena[id := held][x].seen.active == |UsesOf(uses', x)|
    {
      if x == id {
        assert UsesOf(uses', id) == UsesOf(uses, id) + {use};
      } else {
        assert UsesOf(uses', x) == UsesOf(uses, x);
      }
    }
  }

  lemma CountsLeave(arena: Arena, uses: Uses, use: nat, held: Held)
    requires CountsOk(arena, uses) && use in uses && uses[use].id in arena
    requires held.seen.active == arena[uses[use].id].seen.active - 1
    ensures CountsOk(arena[uses[use].id := held], uses - {use})
  {
    var id := uses[use].id;
    forall x | x in arena
      ensures arena[id := held][x].seen.active == |UsesOf(uses - {use}, x)|
    {
      if x == id {
        assert use in UsesOf(uses, id) && UsesOf(uses - {use}, id) == UsesOf(uses, id) - {use};
      } else {
        assert UsesOf(uses - {use}, x) == UsesOf(uses, x);
      }
    }
  }

  // A use changes phase, and its session in nothing that counts.
  lemma CountsSame(arena: Arena, uses: Uses, use: nat, phase: Phase, held: Held)
    requires CountsOk(arena, uses) && use in uses && uses[use].id in arena
    requires held.seen.active == arena[uses[use].id].seen.active
    ensures CountsOk(arena[uses[use].id := held], uses[use := uses[use].(phase := phase)])
  {
    forall x | x in arena
      ensures UsesOf(uses[use := uses[use].(phase := phase)], x) == UsesOf(uses, x)
    {
    }
  }

  lemma BusyHasUse(arena: Arena, uses: Uses, use: nat)
    requires CountsOk(arena, uses) && use in uses && uses[use].id in arena
    ensures arena[uses[use].id].seen.active > 0
  {
    assert use in UsesOf(uses, uses[use].id);
  }

  // A request starts in a session that is in the table, or one reached through its handle.
  lemma EnterKeeps(s: State, use: nat, id: SessionId, stored: bool)
    requires Inv(s) && id in s.arena && use !in s.uses && (stored ==> id in s.table)
    requires stored ==> s.scan.None?
    ensures Inv(Enter(s, use, id, stored))
  {
    hide BoundsOk, CountsOk;
    var t := Enter(s, use, id, stored);
    CountsEnter(s.arena, s.uses, use, id, stored, t.arena[id]);
    SeenChangeKeepsBounds(s, id, t.arena[id]);
    assert SweepsOk(t);
  }

  // The bounds count sessions by caller and look at nothing else of them.
  lemma SeenChangeKeepsBounds(s: State, id: SessionId, held: Held)
    requires BoundsOk(s.arena, s.table, s.limits) && id in s.arena && held.seen.caller == s.arena[id].seen.caller
    ensures BoundsOk(s.arena[id := held], s.table, s.limits)
  {
    var was := Live(s.arena, s.table);
    var now := Live(s.arena[id := held], s.table);
    assert now.Keys == was.Keys;
    forall x | x in now
      ensures |OfCaller(now, now[x].caller)| <= s.limits.perCaller
    {
      assert OfCaller(now, now[x].caller) == OfCaller(was, was[x].caller);
    }
  }

  lemma MintKeeps(s: State, id: SessionId, caller: Caller)
    requires Inv(s)
    ensures Inv(DoMint(s, id, caller).0)
  {
    hide WithinLimits;
    if id !in s.arena {
      var t := DoMint(s, id, caller).0;
      assert Live(t.arena, t.table) == Live(s.arena, s.table);
      assert CountsOk(t.arena, t.uses) by {
        assert UsesOf(s.uses, id) == {};
      }
      assert SweepsOk(t);
    }
  }

  lemma CallsKeep(s: State, call: nat, c: Call, lastSweep: nat)
    requires Inv(s) && (c != Done ==> c.at <= s.now)
    requires c.Serving? ==> c.at <= s.swept || (s.ttl / 2 > 0 && c.at < s.lastSweep + s.ttl / 2)
    requires call in s.calls && s.calls[call].Sweeping? ==> s.calls[call].at <= s.swept
    requires c.Sweeping? ==> lastSweep == c.at && (s.ttl / 2 > 0 ==> lastSweep >= s.lastSweep)
    requires !c.Sweeping? ==> lastSweep == s.lastSweep
    requires s.scan.Some? ==> call != s.scan.value.call
    ensures Inv(s.(calls := s.calls[call := c], lastSweep := lastSweep))
  {
    var t := s.(calls := s.calls[call := c], lastSweep := lastSweep);
    assert SweepsOk(t) by {
      if c.Sweeping? {
        assert call in t.calls && t.calls[call].Sweeping? && t.calls[call].at == t.lastSweep;
      } else if s.lastSweep > s.swept {
        var w :| w in s.calls && s.calls[w].Sweeping? && s.calls[w].at == s.lastSweep;
        assert w in t.calls && t.calls[w].Sweeping? && t.calls[w].at == t.lastSweep;
      }
    }
  }

  lemma BeginKeeps(s: State, call: nat, kind: Kind)
    requires Inv(s) && call !in s.calls
    ensures Inv(DoBegin(s, call, kind).0)
  {
    CallsKeep(s, call, Begun(s.now, kind), s.lastSweep);
  }

  lemma CheckSweepKeeps(s: State, call: nat)
    requires Inv(s)
    ensures Inv(DoCheckSweep(s, call).0)
  {
    if call in s.calls && s.calls[call].Begun? {
      var c := s.calls[call];
      if Since(c.at, s.lastSweep) < s.ttl / 2 {
        CallsKeep(s, call, Serving(c.at, c.kind), s.lastSweep);
      } else {
        CallsKeep(s, call, Sweeping(c.at, c.kind), c.at);
      }
    }
  }

  lemma TableFacts(s: State)
    requires Inv(s)
    ensures s.table <= s.arena.Keys
  {
  }

  // Sessions the sweep left were not expired by the instant it read the clock.
  lemma SweptKeeps(s: State, at: nat)
    requires Inv(s) && at <= s.now
    requires forall id :: id in s.table && id in s.arena ==> !Expired(s.arena[id].seen, s.ttl, at)
    ensures Inv(s.(swept := if at > s.swept then at else s.swept))
  {
    hide BoundsOk, CountsOk;
    var u := s.(swept := if at > s.swept then at else s.swept);
    assert u.calls == s.calls && u.arena == s.arena && u.table == s.table;
    assert SweepsOk(u);
  }

  lemma SweepKeeps(s: State, call: nat)
    requires Inv(s)
    ensures Inv(DoSweep(s, call).0)
  {
    hide BoundsOk, CountsOk, UsesOk, LeftOk, TableOk, SweepsOk;
    if s.scan.None? && call in s.calls && s.calls[call].Sweeping? {
      var c := s.calls[call];
      var gone := ExpiredIds(Live(s.arena, s.table), s.ttl, c.at);
      TableFacts(s);
      IdleHaveNoUse(s, gone);
      EvictKeeps(s, gone);
      var t := Evict(s, gone);
      SweptKeeps(t, c.at);
      CallsKeep(t.(swept := if c.at > s.swept then c.at else s.swept), call, Serving(c.at, c.kind), t.lastSweep);
    }
  }

  // The scan's pick may leave: it is the caller's, and no request entered it through the store.
  ghost predicate MayGiveUp(s: State, caller: Caller, pick: Option<SessionId>) {
    && PickOf(Live(s.arena, s.table), caller, pick)
    && forall u :: u in s.uses && s.uses[u].stored ==> Some(s.uses[u].id) != pick
  }

  function EndedBy(s: State, at: nat, id: SessionId, pick: Option<SessionId>): set<SessionId>
    requires id in s.arena
  {
    Admit(Live(s.arena, s.table), s.ttl, s.limits, at, id, s.arena[id].seen, pick).ended
  }

  lemma EndedMayLeave(s: State, at: nat, id: SessionId, pick: Option<SessionId>)
    requires TableOk(s) && s.limits.Positive() && BoundsOk(s.arena, s.table, s.limits)
    requires id in s.arena && PickOf(Live(s.arena, s.table), s.arena[id].seen.caller, pick)
    ensures EndedBy(s, at, id, pick) <= s.table
    ensures forall x :: x in EndedBy(s, at, id, pick) ==>
              && x in s.arena
              && (Expired(s.arena[x].seen, s.ttl, at)
                  || (pick == Some(x) && InsertSection(s, at, id, pick).1.result.Ok?
                      && s.arena[x].seen.caller == s.arena[id].seen.caller))
  {
    hide Admit, WithinLimits, OfCaller;
    AdmitKeepsLimits(Live(s.arena, s.table), s.ttl, s.limits, at, id, s.arena[id].seen, pick);
  }

  lemma InsertKeeps(s: State, at: nat, id: SessionId, pick: Option<SessionId>)
    requires Inv(s) && s.scan.None? && id in s.arena && MayGiveUp(s, s.arena[id].seen.caller, pick)
    ensures Inv(InsertSection(s, at, id, pick).0)
  {
    hide Admit, BoundsOk, CountsOk, UsesOk, LeftOk, ClocksOk, SweepsOk, TableOk, ScanOk, EndedBy;
    EndedMayLeave(s, at, id, pick);
    var ended := EndedBy(s, at, id, pick);
    InsertIs(s, at, id, pick);
    IdleHaveNoUse(s, set x | x in ended && x in s.arena && s.arena[x].seen.active == 0);
    EvictKeeps(s, ended);
    var (u, reply) := InsertSection(s, at, id, pick);
    if reply.result.Ok? {
      BoundsFact(s);
      InsertedTable(s, at, id, pick);
      BoundsFromLive(u);
      PlacedKeeps(Evict(s, ended), id, u);
    }
  }

  lemma InsertIs(s: State, at: nat, id: SessionId, pick: Option<SessionId>)
    requires id in s.arena
    ensures var (u, reply) := InsertSection(s, at, id, pick);
            && reply.InsertReply?
            && (reply.result.Err? ==> u == Evict(s, EndedBy(s, at, id, pick)))
            && (reply.result.Ok? ==>
                  var t := Evict(s, EndedBy(s, at, id, pick));
                  && u == t.(table := t.table + {id}, held := s.held + {id}, arena := u.arena)
                  && (if id in t.table then u.arena == t.arena
                      else id in t.arena && u.arena == t.arena[id := t.arena[id].(idleSince := s.now)]))
  {
  }

  lemma BoundsFromLive(s: State)
    requires WithinLimits(Live(s.arena, s.table), s.limits)
    ensures BoundsOk(s.arena, s.table, s.limits)
  {
  }

  lemma BoundsFact(s: State)
    requires BoundsOk(s.arena, s.table, s.limits)
    ensures WithinLimits(Live(s.arena, s.table), s.limits)
  {
  }

  // What is live after a successful insert is the table the store's section leaves.
  lemma InsertedTable(s: State, at: nat, id: SessionId, pick: Option<SessionId>)
    requires TableOk(s) && s.limits.Positive() && id in s.arena && WithinLimits(Live(s.arena, s.table), s.limits)
    requires PickOf(Live(s.arena, s.table), s.arena[id].seen.caller, pick)
    requires InsertSection(s, at, id, pick).1.result.Ok?
    ensures var u := InsertSection(s, at, id, pick).0;
            WithinLimits(Live(u.arena, u.table), u.limits)
  {
    hide Admit, WithinLimits, OfCaller;
    var table := Live(s.arena, s.table);
    var r := Admit(table, s.ttl, s.limits, at, id, s.arena[id].seen, pick);
    AdmitKeepsLimits(table, s.ttl, s.limits, at, id, s.arena[id].seen, pick);
    var u := InsertSection(s, at, id, pick).0;
    assert u.table == r.table.Keys;
    assert Live(u.arena, u.table) == r.table;
  }

  // A session placed in the table counts as idle from now on, if it is.
  lemma PlacedKeeps(s: State, id: SessionId, u: State)
    requires Inv(s) && id in s.arena
    requires u == s.(table := s.table + {id}, held := s.held + {id}, arena := u.arena)
    requires u.arena == s.arena || u.arena == s.arena[id := s.arena[id].(idleSince := s.now)]
    requires id in s.table || u.arena == s.arena[id := s.arena[id].(idleSince := s.now)]
    requires BoundsOk(u.arena, u.table, u.limits) && s.scan.None?
    ensures Inv(u)
  {
    hide BoundsOk, UsesOf;
    assert CountsOk(u.arena, u.uses);
    assert SweepsOk(u);
  }

  lemma ScanKeeps(s: State, call: nat, pick: Option<SessionId>)
    requires Inv(s)
    ensures Inv(DoScan(s, call, pick).0)
  {
    hide BoundsOk, CountsOk;
    var t := DoScan(s, call, pick).0;
    if t != s {
      if pick.Some? {
        IdleHasNoUse(s, pick.value);
      }
      assert SweepsOk(t);
    }
  }

  // Serving a call leaves the others, the sweeps and the lock free of it.
  lemma CallEnds(s: State, call: nat)
    requires Inv(s) && call in s.calls && s.calls[call].Serving?
    requires s.scan.Some? ==> s.scan.value.call == call
    ensures Inv(s.(calls := s.calls[call := Done], scan := None))
  {
    UnlockedKeeps(s);
    CallsKeep(s.(scan := None), call, Done, s.lastSweep);
  }

  lemma UnlockedKeeps(s: State)
    requires Inv(s)
    ensures Inv(s.(scan := None))
  {
    hide BoundsOk, CountsOk;
    assert SweepsOk(s.(scan := None));
  }

  lemma ScanFacts(s: State)
    requires Inv(s) && s.scan.Some?
    ensures s.scan.value.call in s.calls && s.calls[s.scan.value.call].Serving?
    ensures s.calls[s.scan.value.call].kind.InsertCall? && s.calls[s.scan.value.call].kind.id in s.arena
    ensures MayGiveUp(s, s.arena[s.calls[s.scan.value.call].kind.id].seen.caller, s.scan.value.pick)
  {
  }

  lemma PickFacts(s: State, caller: Caller, pick: Option<SessionId>)
    requires Inv(s) && MayGiveUp(s, caller, pick)
    ensures TableOk(s) && s.limits.Positive() && BoundsOk(s.arena, s.table, s.limits)
    ensures PickOf(Live(s.arena, s.table), caller, pick)
  {
  }

  lemma EnteredKeeps(s: State, at: nat, id: SessionId, caller: Caller, use: nat)
    requires Inv(s) && s.scan.None? && use !in s.uses
    ensures var (t, found) := FindSection(s, at, id);
            Inv(if found && id in t.arena && t.arena[id].seen.caller == caller then Enter(t, use, id, true) else t)
  {
    hide Inv, FindSection;
    LookUpFacts(s, at, id);
    var (t, found) := FindSection(s, at, id);
    if found && id in t.arena && t.arena[id].seen.caller == caller {
      EnterKeeps(t, use, id, true);
    }
  }

  lemma ServeKeeps(s: State, call: nat)
    requires Inv(s)
    ensures Inv(DoServe(s, call).0)
  {
    if call in s.calls && s.calls[call].Serving? && (s.scan.Some? ==> s.scan.value.call == call) {
      var c := s.calls[call];
      hide Inv, InsertSection, FindSection;
      CallEnds(s, call);
      var s' := s.(calls := s.calls[call := Done], scan := None);
      match c.kind
      case InsertCall(id) =>
        if s.scan.Some? {
          ScanFacts(s);
          InsertKeeps(s', c.at, id, s.scan.value.pick);
        }
      case FindCall(id) => LookUpFacts(s', c.at, id);
      case EnterCall(id, caller, use) =>
        if s.scan.None? && use !in s.uses {
          EnteredKeeps(s', c.at, id, caller, use);
        }
    }
  }

  lemma MarkKeeps(s: State, use: nat)
    requires Inv(s)
    ensures Inv(DoMarkUse(s, use).0)
  {
    hide BoundsOk, CountsOk;
    if use in s.uses && s.uses[use].phase.Stamped? && s.uses[use].id in s.arena {
      var u := s.uses[use];
      var t := DoMarkUse(s, use).0;
      BusyHasUse(s.arena, s.uses, use);
      SeenChangeKeepsBounds(s, u.id, t.arena[u.id]);
      CountsSame(s.arena, s.uses, use, Marked, t.arena[u.id]);
      assert SweepsOk(t);
    }
  }

  lemma StampKeeps(s: State, use: nat)
    requires Inv(s)
    ensures Inv(DoStampUse(s, use).0)
  {
    hide BoundsOk, CountsOk;
    var t := DoStampUse(s, use).0;
    if use in s.uses {
      var id := s.uses[use].id;
      CountsSame(s.arena, s.uses, use, Stamped(s.now), s.arena[id]);
      assert s.arena[id := s.arena[id]] == s.arena;
    }
    assert SweepsOk(t);
  }

  lemma LeaveKeeps(s: State, use: nat)
    requires Inv(s)
    ensures Inv(DoLeaveUse(s, use).0)
  {
    hide BoundsOk, CountsOk;
    var t := DoLeaveUse(s, use).0;
    if t != s {
      var id := s.uses[use].id;
      SeenChangeKeepsBounds(s, id, t.arena[id]);
      CountsLeave(s.arena, s.uses, use, t.arena[id]);
      assert SweepsOk(t);
    }
  }

  lemma TickKeeps(s: State, to: nat)
    requires Inv(s) && s.now <= to
    ensures Inv(s.(now := to))
  {
    hide BoundsOk, CountsOk;
    assert SweepsOk(s.(now := to));
  }

  lemma EndKeeps(s: State, id: SessionId)
    requires Inv(s)
    ensures Inv(DoEnd(s, id).0)
  {
    hide BoundsOk, CountsOk;
    if s.scan.None? && id in s.table {
      var t := s.(closed := s.closed + {id});
      assert SweepsOk(t);
      EvictKeeps(t, {id});
    }
  }

  lemma InvStep(s: State, e: Event)
    requires Inv(s)
    ensures Inv(Next(s, e))
  {
    hide Inv, DoMint, DoCheckSweep, DoSweep, DoScan, DoServe, DoEnd, DoStampUse, DoMarkUse, DoLeaveUse;
    match e
    case Tick(to) => if to >= s.now { TickKeeps(s, to); }
    case Mint(id, caller) => MintKeeps(s, id, caller);
    case Begin(call, kind) => if call !in s.calls { BeginKeeps(s, call, kind); }
    case CheckSweep(call) => CheckSweepKeeps(s, call);
    case Sweep(call) => SweepKeeps(s, call);
    case ScanTable(call, pick) => ScanKeeps(s, call, pick);
    case Serve(call) => ServeKeeps(s, call);
    case End(id) => EndKeeps(s, id);
    case EnterHandle(use, id) => if use !in s.uses && id in s.arena { EnterKeeps(s, use, id, false); }
    case StampUse(use) => StampKeeps(s, use);
    case MarkUse(use) => MarkKeeps(s, use);
    case LeaveUse(use) => LeaveKeeps(s, use);
  }

  // ---- Every run -------------------------------------------------------------------------------

  ghost function Reached(ttl: nat, limits: Limits, now: nat, es: seq<Event>): State {
    Exec(Init(ttl, limits, now), es)
  }

  lemma {:induction false} ReachedInv(ttl: nat, limits: Limits, now: nat, es: seq<Event>)
    requires limits.Positive()
    ensures Inv(Reached(ttl, limits, now, es))
    decreases |es|
  {
    if es == [] {
      assert Live(map[], {}) == map[];
    } else {
      ReachedInv(ttl, limits, now, es[..|es|-1]);
      InvStep(Reached(ttl, limits, now, es[..|es|-1]), es[|es|-1]);
    }
  }

  /** Whatever the calls and requests do, the table never outgrows its limits. */
  lemma TableStaysWithinLimits(ttl: nat, limits: Limits, now: nat, es: seq<Event>, caller: Caller)
    requires limits.Positive()
    ensures var s := Reached(ttl, limits, now, es);
            |s.table| <= limits.total
            && |set id | id in s.table && id in s.arena && s.arena[id].seen.caller == caller| <= limits.perCaller
  {
    ReachedInv(ttl, limits, now, es);
    var s := Reached(ttl, limits, now, es);
    SameLimits(Init(ttl, limits, now), es);
    var table := Live(s.arena, s.table);
    assert table.Keys == s.table;
    var mine := set id | id in s.table && id in s.arena && s.arena[id].seen.caller == caller;
    assert mine == OfCaller(table, caller);
    if mine != {} {
      var x :| x in mine;
      assert table[x].caller == caller;
    }
  }

  lemma ExecUnfolds(s: State, es: seq<Event>)
    requires |es| == 10
    ensures Exec(s, es) ==
              Next(Next(Next(Next(Next(Next(Next(Next(Next(Next(s, es[0]), es[1]), es[2]), es[3]), es[4]), es[5]), es[6]), es[7]),
                        es[8]), es[9])
  {
    hide Next;
    forall n | 0 < n < 10
      ensures Exec(s, es[..n]) == Next(Exec(s, es[..n-1]), es[n-1])
    {
      assert es[..n][..n-1] == es[..n-1];
    }
    assert es[..0] == [];
  }

  lemma {:induction false} SameLimits(s: State, es: seq<Event>)
    ensures Exec(s, es).limits == s.limits && Exec(s, es).ttl == s.ttl
    decreases |es|
  {
    hide Next;
    if es != [] {
      SameLimits(s, es[..|es|-1]);
      StepLimits(Exec(s, es[..|es|-1]), es[|es|-1]);
    }
  }

  lemma StepLimits(s: State, e: Event)
    ensures Next(s, e).limits == s.limits && Next(s, e).ttl == s.ttl
  {
    hide Admit, LookUp, Live, LeastRecent, ExpiredIds;
    if e.Serve? {
      ServeLimits(s, e.call);
    } else {
      hide DoServe;
    }
  }

  lemma ServeLimits(s: State, call: nat)
    ensures DoServe(s, call).0.limits == s.limits && DoServe(s, call).0.ttl == s.ttl
  {
    hide Admit, LookUp, Live;
  }

  /**
   * A session leaves only by its client's `end` or with no request in it that entered through the store, and ends as
   * it leaves. But for the one an insert's scan picked, it is idle as it leaves; the pick was idle when scanned, and
   * only a handle can have entered it since.
   */
  lemma LeavingSessionIsIdleAndEnds(ttl: nat, limits: Limits, now: nat, es: seq<Event>, e: Event, id: SessionId)
    requires limits.Positive()
    requires var s := Reached(ttl, limits, now, es); id in s.table && id !in Next(s, e).table
    ensures var s := Reached(ttl, limits, now, es);
            && id in Next(s, e).arena && Next(s, e).arena[id].ended
            && (e != End(id) ==>
                  && (forall u :: u in s.uses && s.uses[u].stored ==> s.uses[u].id != id)
                  && ((forall u :: u in s.uses ==> s.uses[u].id != id)
                      || (e.Serve? && s.scan == Some(Scan(e.call, Some(id))))))
  {
    var s := Reached(ttl, limits, now, es);
    ReachedInv(ttl, limits, now, es);
    InvStep(s, e);
    HeldOnce(s, e, id);
    if e != End(id) {
      LeavesIdle(s, e, id);
      if s.arena[id].seen.active == 0 {
        IdleHasNoUse(s, id);
      }
    }
  }

  lemma HeldOnce(s: State, e: Event, id: SessionId)
    requires Inv(s) && id in s.table
    ensures id in Next(s, e).held && id in Next(s, e).arena
  {
    hide BoundsOk, CountsOk, UsesOk, LeftOk, ClocksOk, SweepsOk, ScanOk, Admit, LookUp, LeastRecent;
  }

  lemma LeavesIdle(s: State, e: Event, id: SessionId)
    requires Inv(s) && id in s.table && id !in Next(s, e).table && e != End(id)
    ensures id in s.arena
    ensures || s.arena[id].seen.active == 0
            || (e.Serve? && s.scan == Some(Scan(e.call, Some(id))) && forall u :: u in s.uses && s.uses[u].stored ==> s.uses[u].id != id)
  {
    hide UsesOk, LeftOk, ClocksOk, SweepsOk, CountsOk, Admit, WithinLimits, LeastRecent, EndedBy;
    if e.Serve? && e.call in s.calls && s.calls[e.call].Serving? {
      var c := s.calls[e.call];
      if c.kind.InsertCall? && s.scan.Some? && s.scan.value.call == e.call {
        var s' := s.(calls := s.calls[e.call := Done], scan := None);
        EndedMayLeave(s', c.at, c.kind.id, s.scan.value.pick);
        InsertIs(s', c.at, c.kind.id, s.scan.value.pick);
      }
    }
  }

  /** A request being served through the store is in a session still held, or one its client has closed. */
  lemma ServedSessionIsHeld(ttl: nat, limits: Limits, now: nat, es: seq<Event>, use: nat)
    requires limits.Positive()
    requires use in Reached(ttl, limits, now, es).uses && Reached(ttl, limits, now, es).uses[use].stored
    ensures var s := Reached(ttl, limits, now, es);
            s.uses[use].id in s.table || s.uses[use].id in s.closed
  {
    ReachedInv(ttl, limits, now, es);
  }

  /**
   * An insert takes nobody's place but expired sessions' and, when it succeeds, the one its scan picked; refused, it
   * has taken expired ones only.
   */
  lemma InsertTakesOnlyItsOwn(s: State, call: nat, gone: SessionId)
    requires Inv(s) && s.scan.Some? && s.scan.value.call == call
    requires gone in s.table && gone !in Next(s, Serve(call)).table
    ensures && gone in s.arena
            && (|| Expired(s.arena[gone].seen, s.ttl, s.calls[call].at)
                || (DoServe(s, call).1.InsertReply? && DoServe(s, call).1.result.Ok? && s.scan.value.pick == Some(gone)
                    && s.arena[gone].seen.caller == s.arena[s.calls[call].kind.id].seen.caller))
  {
    hide Inv, InsertSection, EndedBy, MayGiveUp;
    ScanFacts(s);
    var c := s.calls[call];
    var s' := s.(calls := s.calls[call := Done], scan := None);
    CallEnds(s, call);
    PickFacts(s', s.arena[c.kind.id].seen.caller, s.scan.value.pick);
    EndedMayLeave(s', c.at, c.kind.id, s.scan.value.pick);
    InsertIs(s', c.at, c.kind.id, s.scan.value.pick);
  }

  // The `n`-th event was the scan of the insert that holds the lock, and its pick was least recently used then.
  ghost predicate ScannedAt(ttl: nat, limits: Limits, now: nat, es: seq<Event>, n: nat) {
    && n < |es| && Reached(ttl, limits, now, es).scan.Some?
    && var s := Reached(ttl, limits, now, es);
       var then_ := Reached(ttl, limits, now, es[..n]);
       var (call, pick) := (s.scan.value.call, s.scan.value.pick);
       && es[n] == ScanTable(call, pick) && then_.table == s.table
       && call in then_.calls && call in s.calls && then_.calls[call] == s.calls[call]
       && s.calls[call].Serving? && s.calls[call].kind.InsertCall? && s.calls[call].kind.id in then_.arena
       && LeastRecent(Live(then_.arena, then_.table), then_.arena[s.calls[call].kind.id].seen.caller, pick)
  }

  /**
   * The pick of an insert that holds the lock was, when scanned, the least recently used idle session of its caller,
   * if it had one, and the table has been the same since.
   */
  lemma {:induction false} PickWasLeastRecent(ttl: nat, limits: Limits, now: nat, es: seq<Event>)
    requires limits.Positive() && Reached(ttl, limits, now, es).scan.Some?
    ensures exists n: nat :: ScannedAt(ttl, limits, now, es, n)
    decreases |es|
  {
    hide LeastRecent, Next;
    var before := Reached(ttl, limits, now, es[..|es|-1]);
    ReachedInv(ttl, limits, now, es[..|es|-1]);
    LockHolds(before, es[|es|-1]);
    if before.scan.Some? {
      PickWasLeastRecent(ttl, limits, now, es[..|es|-1]);
      var n: nat :| ScannedAt(ttl, limits, now, es[..|es|-1], n);
      assert es[..|es|-1][..n] == es[..n];
      assert ScannedAt(ttl, limits, now, es, n);
    } else {
      assert ScannedAt(ttl, limits, now, es, |es| - 1);
    }
  }

  // While an insert holds the lock, the table stays; a lock is taken by a scan.
  lemma LockHolds(s: State, e: Event)
    requires Inv(s)
    ensures var t := Next(s, e);
            && (s.scan.Some? && t.scan.Some? ==>
                  t.scan == s.scan && t.table == s.table && s.scan.value.call in s.calls && s.scan.value.call in t.calls
                  && t.calls[s.scan.value.call] == s.calls[s.scan.value.call])
            && (s.scan.None? && t.scan.Some? ==>
                  && e == ScanTable(t.scan.value.call, t.scan.value.pick) && t == s.(scan := t.scan)
                  && t.scan.value.call in s.calls && s.calls[t.scan.value.call].Serving?
                  && s.calls[t.scan.value.call].kind.InsertCall? && s.calls[t.scan.value.call].kind.id in s.arena
                  && LeastRecent(Live(s.arena, s.table), s.arena[s.calls[t.scan.value.call].kind.id].seen.caller,
                                 t.scan.value.pick))
  {
    hide LeastRecent, BoundsOk, CountsOk, UsesOk, LeftOk, ClocksOk, SweepsOk, Admit, LookUp, Live;
  }

  /**
   * With no sweep under way that noted the last sweep's instant, a store call that has read the clock at `at` and
   * reached the table leaves no session in it that has been idle, by then, for half as long again as the time-to-live.
   */
  lemma IdleSessionsAreSwept(ttl: nat, limits: Limits, now: nat, es: seq<Event>, call: nat, id: SessionId)
    requires limits.Positive() && ttl > 0
    requires var s := Reached(ttl, limits, now, es);
             && call in s.calls && s.calls[call].Serving?
             && (forall c :: c in s.calls && s.calls[c].Sweeping? ==> s.calls[c].at != s.lastSweep)
             && id in s.table && id in s.arena && s.arena[id].seen.active == 0
    ensures var s := Reached(ttl, limits, now, es);
            Since(s.calls[call].at, s.arena[id].idleSince) < ttl + ttl / 2
  {
    ReachedInv(ttl, limits, now, es);
    SameLimits(Init(ttl, limits, now), es);
  }

  // A session goes in and is left idle; much later a call notes a sweep and stops there, and another begins.
  function StalledRun(id: SessionId, caller: Caller, late: nat): seq<Event> {
    [Mint(id, caller), Begin(0, InsertCall(id)), CheckSweep(0), ScanTable(0, None), Serve(0), Tick(late),
     Begin(1, FindCall(id)), CheckSweep(1), Begin(2, FindCall(id)), CheckSweep(2)]
  }

  /** A stalled sweep is the one exception: while its call has noted it and not made it, an idle session stays as long as it likes. */
  lemma StalledSweepKeepsIdle(ttl: nat, limits: Limits, id: SessionId, caller: Caller, late: nat)
    requires limits.Positive() && ttl / 2 > 0 && late >= ttl + ttl / 2
    ensures var s := Reached(ttl, limits, 0, StalledRun(id, caller, late));
            && 1 in s.calls && s.calls[1].Sweeping? && s.calls[1].at == s.lastSweep
            && 2 in s.calls && s.calls[2].Serving?
            && id in s.table && id in s.arena && s.arena[id].seen.active == 0
            && Since(s.calls[2].at, s.arena[id].idleSince) == late
  {
    hide Next;
    InsertedFirst(ttl, limits, id, caller);
    ThenStalls(ttl, limits, id, caller, late);
    ExecUnfolds(Init(ttl, limits, 0), StalledRun(id, caller, late));
  }

  function AfterFirst(ttl: nat, limits: Limits, id: SessionId, caller: Caller): State {
    State(ttl, limits, 0, map[id := Held(Seen(caller, 0, 0), false, 0)], {id}, 0, map[0 := Done], None, map[], 0, {}, {id})
  }

  lemma InsertedFirst(ttl: nat, limits: Limits, id: SessionId, caller: Caller)
    requires limits.Positive() && ttl / 2 > 0
    ensures Next(Next(Next(Next(Next(Init(ttl, limits, 0), Mint(id, caller)), Begin(0, InsertCall(id))), CheckSweep(0)),
                      ScanTable(0, None)), Serve(0)) == AfterFirst(ttl, limits, id, caller)
  {
    var s3 := Next(Next(Next(Init(ttl, limits, 0), Mint(id, caller)), Begin(0, InsertCall(id))), CheckSweep(0));
    var fresh_ := Held(Seen(caller, 0, 0), false, 0);
    assert s3 == State(ttl, limits, 0, map[id := fresh_], {}, 0, map[0 := Serving(0, InsertCall(id))], None, map[], 0, {}, {});
    FirstPlaced(s3, id, caller);
  }

  lemma NoneIdle(caller: Caller)
    ensures LeastRecent(map[], caller, None)
  {
  }

  lemma FirstScanned(s: State, id: SessionId, caller: Caller)
    requires s.table == {} && s.arena == map[id := Held(Seen(caller, 0, 0), false, 0)]
    requires s.calls == map[0 := Serving(0, InsertCall(id))] && s.scan == None
    ensures Next(s, ScanTable(0, None)) == s.(scan := Some(Scan(0, None)))
  {
    hide LeastRecent, DoServe, DoEnd, DoSweep, DoCheckSweep, DoMint;
    assert Live(s.arena, s.table) == map[];
    NoneIdle(caller);
  }

  lemma FirstPlaced(s: State, id: SessionId, caller: Caller)
    requires s.limits.Positive() && s.now == 0 && s.table == {} && s.arena == map[id := Held(Seen(caller, 0, 0), false, 0)]
    requires s.calls == map[0 := Serving(0, InsertCall(id))] && s.scan == None && s.held == {}
    ensures Next(Next(s, ScanTable(0, None)), Serve(0)) == s.(table := {id}, calls := map[0 := Done], held := {id})
  {
    FirstScanned(s, id, caller);
    var t := s.(scan := Some(Scan(0, None)));
    FirstInserted(t.(calls := map[0 := Done], scan := None), id, caller);
    hide InsertSection, LeastRecent, DoScan, DoEnd, DoSweep, DoCheckSweep, DoMint, LookUp;
    assert t.calls[0 := Done] == map[0 := Done];
  }

  lemma FirstInserted(s: State, id: SessionId, caller: Caller)
    requires s.limits.Positive() && s.now == 0 && s.table == {} && s.arena == map[id := Held(Seen(caller, 0, 0), false, 0)]
    requires s.held == {}
    ensures InsertSection(s, 0, id, None).0 == s.(table := {id}, held := {id})
  {
    FirstAdmitted(s.ttl, s.limits, id, Seen(caller, 0, 0));
    hide Admit;
    assert Live(s.arena, s.table) == map[];
    assert Evict(s, {}).arena == s.arena;
    assert s.arena[id := s.arena[id].(idleSince := 0)] == s.arena;
  }

  lemma FirstAdmitted(ttl: nat, limits: Limits, id: SessionId, session: Seen)
    requires limits.Positive()
    ensures Admit(map[], ttl, limits, 0, id, session, None) == Inserted(map[id := session], {}, Ok(()))
  {
    assert OfCaller(map[], session.caller) == {};
  }

  lemma ThenStalls(ttl: nat, limits: Limits, id: SessionId, caller: Caller, late: nat)
    requires ttl / 2 > 0 && late >= ttl + ttl / 2
    ensures var s := Next(Next(Next(Next(Next(AfterFirst(ttl, limits, id, caller), Tick(late)), Begin(1, FindCall(id))),
                                    CheckSweep(1)), Begin(2, FindCall(id))), CheckSweep(2));
            && s.arena == AfterFirst(ttl, limits, id, caller).arena && s.table == {id} && s.lastSweep == late
            && s.calls == map[0 := Done, 1 := Sweeping(late, FindCall(id)), 2 := Serving(late, FindCall(id))]
  {
    var s1 := Next(Next(AfterFirst(ttl, limits, id, caller), Tick(late)), Begin(1, FindCall(id)));
    assert s1.calls == map[0 := Done, 1 := Begun(late, FindCall(id))];
    var s2 := Next(Next(s1, CheckSweep(1)), Begin(2, FindCall(id)));
    assert s2.calls == map[0 := Done, 1 := Sweeping(late, FindCall(id)), 2 := Begun(late, FindCall(id))];
  }

  /** A caller enters exactly a held session of its own that is not expired, and is counted in it from then on. */
  lemma EnterIffLiveAndOwn(s: State, call: nat, id: SessionId, caller: Caller, use: nat)
    requires Inv(s) && s.scan.None? && call in s.calls && s.calls[call].Serving? && s.calls[call].kind == EnterCall(id, caller, use)
    requires use !in s.uses
    ensures var (t, reply) := DoServe(s, call);
            && reply == EnterReply(id in s.table && id in s.arena && !Expired(s.arena[id].seen, s.ttl, s.calls[call].at)
                                   && s.arena[id].seen.caller == caller)
            && (reply == EnterReply(true) ==>
                  && use in t.uses && t.uses[use] == Use(id, true, Open) && id in t.table && id in t.arena
                  && t.arena[id].seen == s.arena[id].seen.(active := s.arena[id].seen.active + 1))
            && (reply == EnterReply(false) ==> t.uses == s.uses)
  {
    hide Inv, FindSection;
    var s' := s.(calls := s.calls[call := Done]);
    CallEnds(s, call);
    LookUpFacts(s', s.calls[call].at, id);
    TableFacts(s);
  }

  /** Once its last use is dropped, a session idle for the time-to-live is not found again. */
  lemma ExpiredSessionIsNotFound(s: State, call: nat, id: SessionId)
    requires Inv(s) && s.scan.None? && call in s.calls && s.calls[call].Serving? && s.calls[call].kind == FindCall(id)
    ensures var (t, reply) := DoServe(s, call);
            && reply == FindReply(id in s.table && id in s.arena && !Expired(s.arena[id].seen, s.ttl, s.calls[call].at))
            && (id in s.table && id in s.arena && Expired(s.arena[id].seen, s.ttl, s.calls[call].at) ==>
                  id !in t.table && id in t.arena && t.arena[id].ended)
  {
    hide Inv, FindSection;
    CallEnds(s, call);
    LookUpFacts(s.(calls := s.calls[call := Done]), s.calls[call].at, id);
    TableFacts(s);
  }
}
