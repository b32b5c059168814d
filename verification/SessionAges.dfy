/** When a session is live, in numbers, and what each section of the store comes to, written out. */
module SessionAges {
  import opened Wrappers
  import opened SessionStore
  import opened SessionMachine
  import opened SessionSafety

  // Nobody is served in the session, and nobody has been for the time-to-live, by the clock the call read.
  predicate Stale(seen: Seen, ttl: nat, at: nat) {
    seen.active == 0 && (ttl == 0 || seen.lastSeen + ttl <= at)
  }

  lemma StaleIsExpired(seen: Seen, ttl: nat, at: nat)
    ensures Stale(seen, ttl, at) <==> Expired(seen, ttl, at)
  {
  }

  // The sessions held that are stale.
  function StaleIn(arena: Arena, held: set<SessionId>, ttl: nat, at: nat): set<SessionId> {
    set id | id in held && id in arena && Stale(arena[id].seen, ttl, at)
  }

  // From `s` to `t`, exactly the sessions `gone` leave the table and end; the others are as they were.
  predicate Leave(s: State, t: State, gone: set<SessionId>) {
    && t.table == s.table - gone
    && t.arena.Keys == s.arena.Keys
    && forall id :: id in s.arena ==> t.arena[id] == if id in gone then s.arena[id].(ended := true) else s.arena[id]
  }

  // ---- Sections --------------------------------------------------------------------------------

  /** A new session was last seen now, and is in no table. */
  lemma MintOutcome(s: State, id: SessionId, caller: Caller)
    requires id !in s.arena
    ensures Next(s, Mint(id, caller)) == s.(arena := s.arena[id := Held(Seen(caller, s.now, 0), false, s.now)])
  {
  }

  /** A call reads the clock as it begins; time never goes back. */
  lemma BeginOutcome(s: State, call: nat, kind: Kind, to: nat)
    ensures call !in s.calls ==> Next(s, Begin(call, kind)) == s.(calls := s.calls[call := Begun(s.now, kind)])
    ensures call in s.calls ==> Next(s, Begin(call, kind)) == s
    ensures Next(s, Tick(to)) == s.(now := if to < s.now then s.now else to)
  {
  }

  /** A session's handle counts a request in it wherever the session is. */
  lemma HandleOutcome(s: State, use: nat, id: SessionId)
    requires use !in s.uses && id in s.arena
    ensures var seen := s.arena[id].seen;
            Next(s, EnterHandle(use, id)) ==
              s.(arena := s.arena[id := s.arena[id].(seen := Seen(seen.caller, seen.lastSeen, seen.active + 1))],
                 uses := s.uses[use := Use(id, false, Open)])
  {
  }

  /** A call sweeps if half the time-to-live has passed since the last instant noted, and then notes its own. */
  lemma CheckSweepOutcome(s: State, call: nat)
    requires call in s.calls && s.calls[call].Begun?
    ensures var c := s.calls[call];
            Next(s, CheckSweep(call)) ==
              if s.ttl / 2 > 0 && c.at < s.lastSweep + s.ttl / 2 then s.(calls := s.calls[call := Serving(c.at, c.kind)])
              else s.(calls := s.calls[call := Sweeping(c.at, c.kind)], lastSweep := c.at)
  {
  }

  /** The sweep takes exactly the sessions stale by the clock its call read. */
  lemma SweepOutcome(s: State, call: nat)
    requires s.scan == None && call in s.calls && s.calls[call].Sweeping?
    ensures var t := Next(s, Sweep(call));
            && Leave(s, t, StaleIn(s.arena, s.table, s.ttl, s.calls[call].at))
            && t.calls == s.calls[call := Serving(s.calls[call].at, s.calls[call].kind)] && t.uses == s.uses
  {
    var c := s.calls[call];
    assert ExpiredIds(Live(s.arena, s.table), s.ttl, c.at) == StaleIn(s.arena, s.table, s.ttl, c.at);
    hide ExpiredIds;
  }

  /** A lookup finds a held session unless it is stale; a stale one ends and goes on the way. */
  lemma FindOutcome(s: State, call: nat, id: SessionId)
    requires s.scan == None && call in s.calls && s.calls[call].Serving? && s.calls[call].kind == FindCall(id)
    requires s.table <= s.arena.Keys
    ensures var (t, reply) := Step(s, Serve(call));
            var at := s.calls[call].at;
            if id in s.table && !Stale(s.arena[id].seen, s.ttl, at) then reply == FindReply(true) && Leave(s, t, {})
            else reply == FindReply(false) && Leave(s, t, if id in s.table then {id} else {})
  {
    LookedUp(s.(calls := s.calls[call := Done]), s.calls[call].at, id);
    hide FindSection;
  }

  lemma LookedUp(s: State, at: nat, id: SessionId)
    requires s.table <= s.arena.Keys
    ensures var (t, found) := FindSection(s, at, id);
            && found == (id in s.table && !Stale(s.arena[id].seen, s.ttl, at))
            && Leave(s, t, if id in s.table && !found then {id} else {})
            && t == s.(table := t.table, arena := t.arena)
  {
    var table := Live(s.arena, s.table);
    var gone := if id in s.table && Stale(s.arena[id].seen, s.ttl, at) then {id} else {};
    assert table.Keys == s.table;
    assert table.Keys - LookUp(table, s.ttl, at, id).0.Keys == gone;
  }

  /** A caller enters a held session of its own unless it is stale, and is counted in it; a stale one goes on the way. */
  lemma EnterOutcome(s: State, call: nat, id: SessionId, caller: Caller, use: nat)
    requires s.scan == None && call in s.calls && s.calls[call].Serving? && s.calls[call].kind == EnterCall(id, caller, use)
    requires use !in s.uses && s.table <= s.arena.Keys
    ensures var (t, reply) := Step(s, Serve(call));
            var at := s.calls[call].at;
            if id !in s.table then reply == EnterReply(false) && Leave(s, t, {}) && t.uses == s.uses
            else
              var seen := s.arena[id].seen;
              if Stale(seen, s.ttl, at) then reply == EnterReply(false) && Leave(s, t, {id}) && t.uses == s.uses
              else if seen.caller != caller then reply == EnterReply(false) && Leave(s, t, {}) && t.uses == s.uses
              else
                && reply == EnterReply(true) && t.table == s.table && t.uses == s.uses[use := Use(id, true, Open)]
                && t.arena == s.arena[id := s.arena[id].(seen := Seen(caller, seen.lastSeen, seen.active + 1))]
  {
    LookedUp(s.(calls := s.calls[call := Done]), s.calls[call].at, id);
    hide FindSection;
  }

  /** A client's end of a held session takes it and no other. */
  lemma EndOutcome(s: State, id: SessionId)
    requires s.scan == None
    ensures var (t, reply) := Step(s, End(id));
            reply == FindReply(id in s.table) && Leave(s, t, if id in s.table then {id} else {}) && t.uses == s.uses
  {
  }

  /** A use leaves its session stamped with the instant it ended, and counted once less. */
  lemma UseOutcome(s: State, use: nat)
    requires use in s.uses && s.uses[use].phase == Open && s.uses[use].id in s.arena
    requires s.arena[s.uses[use].id].seen.active > 0
    ensures var t := Next(Next(Next(s, StampUse(use)), MarkUse(use)), LeaveUse(use));
            var id := s.uses[use].id;
            var seen := s.arena[id].seen;
            && t.uses == s.uses - {use} && t.table == s.table
            && t.arena == s.arena[id := t.arena[id]] && t.arena[id].ended == s.arena[id].ended
            && t.arena[id].seen == Seen(seen.caller, s.now, seen.active - 1)
  {
  }

  // ---- Insert ----------------------------------------------------------------------------------

  // The sessions held for the caller.
  function HeldFor(s: State, caller: Caller): set<SessionId> {
    set id | id in s.table && id in s.arena && s.arena[id].seen.caller == caller
  }

  /** The scan picks the caller's session with nobody served in it that was seen longest ago, and none if it has none. */
  lemma ScanOutcome(s: State, call: nat, pick: Option<SessionId>)
    requires s.scan == None && call in s.calls && s.calls[call].Serving? && s.calls[call].kind.InsertCall?
    requires s.calls[call].kind.id in s.arena
    ensures var mine := HeldFor(s, s.arena[s.calls[call].kind.id].seen.caller);
            var t := Next(s, ScanTable(call, pick));
            if (match pick
                case None => forall x :: x in mine ==> s.arena[x].seen.active > 0
                case Some(v) =>
                  && v in mine && s.arena[v].seen.active == 0
                  && forall x :: x in mine && s.arena[x].seen.active == 0 ==> s.arena[v].seen.lastSeen <= s.arena[x].seen.lastSeen)
            then t == s.(scan := Some(Scan(call, pick))) else t == s
  {
    var caller := s.arena[s.calls[call].kind.id].seen.caller;
    var table := Live(s.arena, s.table);
    var mine := HeldFor(s, caller);
    assert forall x :: x in IdleOf(table, caller) <==> x in mine && s.arena[x].seen.active == 0;
    assert forall x :: x in mine ==> table[x] == s.arena[x].seen;
  }

  // What an insert ends for its caller's own share: the pick, when the share is used up.
  function GivenUp(s: State, caller: Caller, pick: Option<SessionId>): set<SessionId> {
    if |HeldFor(s, caller)| >= s.limits.perCaller && pick.Some? then {pick.value} else {}
  }

  lemma SetsOfTable(arena: Arena, held: set<SessionId>, ttl: nat, at: nat)
    requires held <= arena.Keys
    ensures Live(arena, held).Keys == held && |Live(arena, held)| == |held|
    ensures ExpiredIds(Live(arena, held), ttl, at) == StaleIn(arena, held, ttl, at)
  {
    assert Live(arena, held).Keys == held;
    assert |Live(arena, held)| == |Live(arena, held).Keys|;
  }

  lemma LiveWithout(arena: Arena, held: set<SessionId>, gone: set<SessionId>)
    requires held <= arena.Keys
    ensures Live(arena, held) - gone == Live(arena, held - gone)
  {
  }

  // Room in the table as a whole, in terms of the sessions held.
  lemma RoomOutcome(arena: Arena, held: set<SessionId>, ttl: nat, limits: Limits, at: nat, id: SessionId, session: Seen)
    requires held <= arena.Keys
    ensures var r := AdmitTotal(Live(arena, held), ttl, limits, at, id, session);
            var stale := if |held| >= limits.total then StaleIn(arena, held, ttl, at) else {};
            && r.ended == stale
            && r.result == if |held - stale| >= limits.total then Err(ServerFull) else Ok(())
  {
    SetsOfTable(arena, held, ttl, at);
    LiveWithout(arena, held, StaleIn(arena, held, ttl, at));
    SetsOfTable(arena, held - StaleIn(arena, held, ttl, at), ttl, at);
    assert held - {} == held;
    hide Live, ExpiredIds, StaleIn;
  }

  lemma AdmitOutcome(s: State, at: nat, id: SessionId, pick: Option<SessionId>)
    requires s.table <= s.arena.Keys && id in s.arena
    ensures var caller := s.arena[id].seen.caller;
            var r := Admit(Live(s.arena, s.table), s.ttl, s.limits, at, id, s.arena[id].seen, pick);
            var up := GivenUp(s, caller, pick);
            var kept := s.table - up;
            var stale := if |kept| >= s.limits.total then StaleIn(s.arena, kept, s.ttl, at) else {};
            if |HeldFor(s, caller)| >= s.limits.perCaller && pick == None then r.ended == {} && r.result == Err(CallerFull)
            else r.ended == up + stale && r.result == if |kept - stale| >= s.limits.total then Err(ServerFull) else Ok(())
  {
    hide Live, OfCaller, HeldFor, AdmitTotal, Admit, StaleIn, GivenUp;
    var caller := s.arena[id].seen.caller;
    SharesAgree(s, caller);
    AdmitCases(Live(s.arena, s.table), s.ttl, s.limits, at, id, s.arena[id].seen, pick);
    GivenUpIs(s, caller, pick);
    var up := GivenUp(s, caller, pick);
    assert up == {} || (pick.Some? && up == {pick.value});
    LiveWithout(s.arena, s.table, up);
    RoomOutcome(s.arena, s.table - up, s.ttl, s.limits, at, id, s.arena[id].seen);
    LiveWithout(s.arena, s.table, {});
    NothingOff(Live(s.arena, s.table));
  }

  lemma NothingOff(table: Table)
    ensures table - {} == table
  {
  }

  lemma SharesAgree(s: State, caller: Caller)
    requires s.table <= s.arena.Keys
    ensures OfCaller(Live(s.arena, s.table), caller) == HeldFor(s, caller)
  {
  }

  lemma GivenUpIs(s: State, caller: Caller, pick: Option<SessionId>)
    ensures GivenUp(s, caller, pick) == if |HeldFor(s, caller)| >= s.limits.perCaller && pick.Some? then {pick.value} else {}
  {
  }

  lemma AdmitCases(table: Table, ttl: nat, limits: Limits, at: nat, id: SessionId, session: Seen, pick: Option<SessionId>)
    ensures var r := Admit(table, ttl, limits, at, id, session, pick);
            if |OfCaller(table, session.caller)| < limits.perCaller then r == AdmitTotal(table, ttl, limits, at, id, session)
            else if pick.None? then r.ended == {} && r.result == Err(CallerFull)
            else var room := AdmitTotal(table - {pick.value}, ttl, limits, at, id, session);
                 r.ended == {pick.value} + room.ended && r.result == room.result
  {
  }

  // From `s` to `t`, exactly the sessions `gone` leave the table and end, and `id` enters it.
  predicate Enters(s: State, t: State, gone: set<SessionId>, id: SessionId) {
    && t.table == (s.table - gone) + {id}
    && t.arena.Keys == s.arena.Keys
    && forall x :: x in s.arena && x != id ==> t.arena[x] == if x in gone then s.arena[x].(ended := true) else s.arena[x]
  }

  lemma InsertMoves(s: State, at: nat, id: SessionId, pick: Option<SessionId>)
    requires id in s.arena
    ensures var r := Admit(Live(s.arena, s.table), s.ttl, s.limits, at, id, s.arena[id].seen, pick);
            var (t, reply) := InsertSection(s, at, id, pick);
            && reply == InsertReply(r.result) && t == s.(table := t.table, arena := t.arena, held := t.held)
            && (r.result.Err? ==> Leave(s, t, r.ended)) && (r.result.Ok? ==> Enters(s, t, r.ended, id))
  {
    hide Admit, Live;
  }

  /**
   * What an insert comes to: refused where the caller's share is used up and all of it busy, or where nothing stale makes
   * room; taken otherwise, in place of the pick if the share is used up and of what is stale if the table is full.
   */
  lemma InsertOutcome(s: State, call: nat)
    requires Inv(s) && s.scan.Some? && s.scan.value.call == call
    ensures call in s.calls && s.calls[call].Serving? && s.calls[call].kind.InsertCall? && s.calls[call].kind.id in s.arena
    ensures var (id, at, pick) := (s.calls[call].kind.id, s.calls[call].at, s.scan.value.pick);
            var caller := s.arena[id].seen.caller;
            var up := GivenUp(s, caller, pick);
            var kept := s.table - up;
            var stale := if |kept| >= s.limits.total then StaleIn(s.arena, kept, s.ttl, at) else {};
            var (t, reply) := Step(s, Serve(call));
            && t.scan == None && t.uses == s.uses
            && if |HeldFor(s, caller)| >= s.limits.perCaller && pick == None
               then reply == InsertReply(Err(CallerFull)) && Leave(s, t, {})
               else if |kept - stale| >= s.limits.total
               then reply == InsertReply(Err(ServerFull)) && Leave(s, t, up + stale)
               else reply == InsertReply(Ok(())) && Enters(s, t, up + stale, id)
  {
    hide Inv, InsertSection, Admit, StaleIn, HeldFor, GivenUp, Live;
    ScanFacts(s);
    TableFacts(s);
    var c := s.calls[call];
    var pick := s.scan.value.pick;
    var s' := s.(calls := s.calls[call := Done], scan := None);
    SameShares(s, s', s.arena[c.kind.id].seen.caller, pick);
    AdmitOutcome(s', c.at, c.kind.id, pick);
    InsertMoves(s', c.at, c.kind.id, pick);
  }

  lemma SameShares(s: State, t: State, caller: Caller, pick: Option<SessionId>)
    requires t.arena == s.arena && t.table == s.table && t.limits == s.limits
    ensures HeldFor(t, caller) == HeldFor(s, caller) && GivenUp(t, caller, pick) == GivenUp(s, caller, pick)
  {
  }

  // ---- Every run -------------------------------------------------------------------------------

  // The instant the call of a step read the clock.
  predicate StepReads(s: State, e: Event, at: nat) {
    match e
    case Sweep(call) => call in s.calls && s.calls[call].Sweeping? && s.calls[call].at == at
    case Serve(call) => call in s.calls && s.calls[call].Serving? && s.calls[call].at == at
    case _ => false
  }

  /**
   * In every run a session that leaves the table by neither its client's end nor an insert's pick had nobody served in
   * it, and was last seen the time-to-live or more before the clock the call read.
   */
  lemma SessionLeavesStale(ttl: nat, limits: Limits, now: nat, es: seq<Event>, e: Event, id: SessionId)
    requires limits.Positive()
    requires var s := Reached(ttl, limits, now, es);
             && id in s.table && id !in Next(s, e).table && e != End(id)
             && !(e.Serve? && s.scan == Some(Scan(e.call, Some(id))))
    ensures var s := Reached(ttl, limits, now, es);
            && id in s.arena && s.arena[id].seen.active == 0
            && exists at: nat :: StepReads(s, e, at) && (ttl == 0 || s.arena[id].seen.lastSeen + ttl <= at)
  {
    hide Exec, Inv;
    var s := Reached(ttl, limits, now, es);
    ReachedInv(ttl, limits, now, es);
    SameLimits(Init(ttl, limits, now), es);
    TableFacts(s);
    LeavesByAge(s, e, id);
  }

  lemma LeavesByAge(s: State, e: Event, id: SessionId)
    requires Inv(s) && id in s.table && id !in Next(s, e).table && e != End(id)
    requires !(e.Serve? && s.scan == Some(Scan(e.call, Some(id))))
    ensures id in s.arena && exists at: nat :: StepReads(s, e, at) && Stale(s.arena[id].seen, s.ttl, at)
  {
    hide Inv, Stale;
    TableFacts(s);
    if e.Sweep? && s.scan == None && e.call in s.calls && s.calls[e.call].Sweeping? {
      SweepOutcome(s, e.call);
      assert StepReads(s, e, s.calls[e.call].at);
    } else if e.Serve? && e.call in s.calls && s.calls[e.call].Serving? {
      assert StepReads(s, e, s.calls[e.call].at);
      ServedByAge(s, e.call, id);
    } else {
      hide DoMint, DoBegin, DoCheckSweep, DoScan, DoEnterHandle, DoStampUse, DoMarkUse, DoLeaveUse, LeastRecent;
      TableStays(s, e);
    }
  }

  lemma TableStays(s: State, e: Event)
    requires !(e.Sweep? && s.scan == None && e.call in s.calls && s.calls[e.call].Sweeping?)
    requires !(e.Serve? && e.call in s.calls && s.calls[e.call].Serving?)
    ensures Next(s, e).table == s.table || (e.End? && Next(s, e).table == s.table - {e.id})
  {
    hide LeastRecent, Admit, LookUp, Live, ExpiredIds;
  }

  lemma ServedByAge(s: State, call: nat, id: SessionId)
    requires Inv(s) && id in s.table && call in s.calls && s.calls[call].Serving?
    requires id !in Next(s, Serve(call)).table && s.scan != Some(Scan(call, Some(id)))
    ensures id in s.arena && Stale(s.arena[id].seen, s.ttl, s.calls[call].at)
  {
    hide Inv, Stale, DoServe;
    TableFacts(s);
    match s.calls[call].kind
    case FindCall(x) => FoundByAge(s, call, id);
    case EnterCall(x, caller, use) => FoundByAge(s, call, id);
    case InsertCall(x) =>
      if s.scan.Some? && s.scan.value.call == call {
        InsertOutcome(s, call);
      } else {
        InsertWaits(s, call);
      }
  }

  lemma InsertWaits(s: State, call: nat)
    requires call in s.calls && s.calls[call].Serving? && s.calls[call].kind.InsertCall?
    requires !(s.scan.Some? && s.scan.value.call == call)
    ensures Next(s, Serve(call)) == s
  {
  }

  lemma FoundByAge(s: State, call: nat, id: SessionId)
    requires s.table <= s.arena.Keys && id in s.table && call in s.calls && s.calls[call].Serving?
    requires !s.calls[call].kind.InsertCall? && id !in Next(s, Serve(call)).table
    ensures Stale(s.arena[id].seen, s.ttl, s.calls[call].at)
  {
    hide Stale, FindSection;
    LookedUp(s.(calls := s.calls[call := Done]), s.calls[call].at, s.calls[call].kind.id);
  }

  /**
   * In every run a held session that serves somebody, or was seen less than the time-to-live before the clock a call
   * read, is found by that call, and entered if its own caller asks.
   */
  lemma LiveSessionIsFound(ttl: nat, limits: Limits, now: nat, es: seq<Event>, call: nat, id: SessionId)
    requires limits.Positive()
    requires var s := Reached(ttl, limits, now, es);
             && s.scan == None && id in s.table && id in s.arena && call in s.calls && s.calls[call].Serving?
             && (s.arena[id].seen.active > 0 || (ttl > 0 && s.calls[call].at < s.arena[id].seen.lastSeen + ttl))
    ensures var s := Reached(ttl, limits, now, es);
            var (t, reply) := Step(s, Serve(call));
            var kind := s.calls[call].kind;
            && (!kind.InsertCall? ==> id in t.table)
            && (kind == FindCall(id) ==> reply == FindReply(true))
            && (kind.EnterCall? && kind.use !in s.uses && kind == EnterCall(id, s.arena[id].seen.caller, kind.use) ==>
                  reply == EnterReply(true))
  {
    hide Exec, Inv, Step;
    var s := Reached(ttl, limits, now, es);
    ReachedInv(ttl, limits, now, es);
    SameLimits(Init(ttl, limits, now), es);
    TableFacts(s);
    match s.calls[call].kind
    case InsertCall(_) =>
    case FindCall(x) => FindOutcome(s, call, x);
    case EnterCall(x, caller, use) =>
      if use !in s.uses {
        EnterOutcome(s, call, x, caller, use);
      } else {
        UseIsTaken(s, call);
      }
  }

  lemma UseIsTaken(s: State, call: nat)
    requires call in s.calls && s.calls[call].Serving? && s.calls[call].kind.EnterCall? && s.calls[call].kind.use in s.uses
    ensures Step(s, Serve(call)) == (s, Silent)
  {
  }
}
