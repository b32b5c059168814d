/**
 * The session store in use: calls that read the clock, then sweep, then take the table's lock, while requests
 * served in sessions start and finish around them. One step is one section under a lock, but for an insert's: its
 * scan is a step of its own, after which it holds the lock while requests served in sessions go on.
 */
module SessionMachine {
  import opened Wrappers
  import opened Clock
  import opened SessionStore

  // `idleSince` is when the session last had no request left, or entered the table; no step reads it.
  datatype Held = Held(seen: Seen, ended: bool, idleSince: nat)

  datatype Kind = InsertCall(id: SessionId) | FindCall(id: SessionId) | EnterCall(id: SessionId, caller: Caller, use: nat)

  // A store call, from the instant it read the clock.
  datatype Call =
    | Begun(at: nat, kind: Kind)
    | Sweeping(at: nat, kind: Kind)
    | Serving(at: nat, kind: Kind)
    | Done

  datatype Phase = Open | Stamped(at: nat) | Marked

  // A request served in a session: through the store, or through a handle of the session.
  datatype Use = Use(id: SessionId, stored: bool, phase: Phase)

  // An insert between its scan and the end of its section: it holds the table's lock.
  datatype Scan = Scan(call: nat, pick: Option<SessionId>)

  datatype State = State(
    ttl: nat,
    limits: Limits,
    now: nat,
    arena: map<SessionId, Held>,
    table: set<SessionId>,
    lastSweep: nat,
    calls: map<nat, Call>,
    scan: Option<Scan>,
    uses: map<nat, Use>,
    // History: the latest instant the table was swept by, the sessions ended by their client, and those ever held.
    swept: nat,
    closed: set<SessionId>,
    held: set<SessionId>)

  datatype Event =
    | Tick(to: nat)
    | Mint(id: SessionId, caller: Caller)
    | Begin(call: nat, kind: Kind)
    | CheckSweep(call: nat)
    | Sweep(call: nat)
    | ScanTable(call: nat, pick: Option<SessionId>)
    | Serve(call: nat)
    | End(id: SessionId)
    | EnterHandle(use: nat, id: SessionId)
    | StampUse(use: nat)
    | MarkUse(use: nat)
    | LeaveUse(use: nat)

  datatype Reply = Silent | InsertReply(result: Result<(), Refusal>) | FindReply(found: bool) | EnterReply(entered: bool)

  type Outcome = (State, Reply)

  type Arena = map<SessionId, Held>

  function Live(arena: Arena, table: set<SessionId>): Table {
    map id | id in table && id in arena :: arena[id].seen
  }

  function Init(ttl: nat, limits: Limits, now: nat): State {
    State(ttl, limits, now, map[], {}, now, map[], None, map[], now, {}, {})
  }

  // Sessions `ids` leave the table and end.
  function Evict(s: State, ids: set<SessionId>): State {
    s.(table := s.table - ids,
       arena := map id | id in s.arena :: if id in ids then s.arena[id].(ended := true) else s.arena[id])
  }

  function Touch(s: State, id: SessionId, seen: Seen): State
    requires id in s.arena
  {
    s.(arena := s.arena[id := s.arena[id].(seen := seen)])
  }

  function Enter(s: State, use: nat, id: SessionId, stored: bool): State
    requires id in s.arena
  {
    Touch(s, id, CountedIn(s.arena[id].seen)).(uses := s.uses[use := Use(id, stored, Open)])
  }

  function DoMint(s: State, id: SessionId, caller: Caller): Outcome {
    if id in s.arena then (s, Silent)
    else (s.(arena := s.arena[id := Held(Seen(caller, s.now, 0), false, s.now)]), Silent)
  }

  function DoBegin(s: State, call: nat, kind: Kind): Outcome {
    if call in s.calls then (s, Silent) else (s.(calls := s.calls[call := Begun(s.now, kind)]), Silent)
  }

  function DoCheckSweep(s: State, call: nat): Outcome {
    if call in s.calls && s.calls[call].Begun? then
      var c := s.calls[call];
      if Since(c.at, s.lastSweep) < s.ttl / 2
      then (s.(calls := s.calls[call := Serving(c.at, c.kind)]), Silent)
      else (s.(calls := s.calls[call := Sweeping(c.at, c.kind)], lastSweep := c.at), Silent)
    else (s, Silent)
  }

  function DoSweep(s: State, call: nat): Outcome {
    if s.scan.None? && call in s.calls && s.calls[call].Sweeping? then
      var c := s.calls[call];
      (Evict(s, ExpiredIds(Live(s.arena, s.table), s.ttl, c.at))
         .(calls := s.calls[call := Serving(c.at, c.kind)], swept := if c.at > s.swept then c.at else s.swept), Silent)
    else (s, Silent)
  }

  // What `insert` does after its scan, for the session handed to it; `pick` is what the scan found.
  function InsertSection(s: State, at: nat, id: SessionId, pick: Option<SessionId>): Outcome
    requires id in s.arena
  {
    var r := Admit(Live(s.arena, s.table), s.ttl, s.limits, at, id, s.arena[id].seen, pick);
    var t := Evict(s, r.ended);
    if r.result.Err? then (t, InsertReply(r.result))
    else
      (t.(table := t.table + {id},
          arena := if id in t.table then t.arena else t.arena[id := t.arena[id].(idleSince := s.now)],
          held := s.held + {id}), InsertReply(r.result))
  }

  function FindSection(s: State, at: nat, id: SessionId): (State, bool) {
    var (table, found) := LookUp(Live(s.arena, s.table), s.ttl, at, id);
    (Evict(s, Live(s.arena, s.table).Keys - table.Keys), found)
  }

  // The scan of `insert`, its lock taken.
  ghost function DoScan(s: State, call: nat, pick: Option<SessionId>): Outcome {
    if s.scan.None? && call in s.calls && s.calls[call].Serving? && s.calls[call].kind.InsertCall?
       && s.calls[call].kind.id in s.arena
       && LeastRecent(Live(s.arena, s.table), s.arena[s.calls[call].kind.id].seen.caller, pick)
    then (s.(scan := Some(Scan(call, pick))), Silent)
    else (s, Silent)
  }

  function DoServe(s: State, call: nat): Outcome {
    if call in s.calls && s.calls[call].Serving? then
      var c := s.calls[call];
      var s' := s.(calls := s.calls[call := Done]);
      match c.kind
      case InsertCall(id) =>
        if id in s.arena && s.scan.Some? && s.scan.value.call == call
        then InsertSection(s'.(scan := None), c.at, id, s.scan.value.pick)
        else (s, Silent)
      case FindCall(id) =>
        if s.scan.Some? then (s, Silent)
        else
          var (t, found) := FindSection(s', c.at, id);
          (t, FindReply(found))
      case EnterCall(id, caller, use) =>
        if s.scan.Some? || use in s.uses then (s, Silent)
        else
          var (t, found) := FindSection(s', c.at, id);
          if found && id in t.arena && t.arena[id].seen.caller == caller
          then (Enter(t, use, id, true), EnterReply(true))
          else (t, EnterReply(false))
    else (s, Silent)
  }

  function DoEnd(s: State, id: SessionId): Outcome {
    if s.scan.Some? then (s, Silent)
    else if id in s.table then (Evict(s, {id}).(closed := s.closed + {id}), FindReply(true))
    else (s, FindReply(false))
  }

  function DoEnterHandle(s: State, use: nat, id: SessionId): Outcome {
    if use in s.uses || id !in s.arena then (s, Silent) else (Enter(s, use, id, false), Silent)
  }

  // Dropping a use reads the clock, stamps the session, then stops counting it busy.
  function DoStampUse(s: State, use: nat): Outcome {
    if use in s.uses && s.uses[use].phase == Open
    then (s.(uses := s.uses[use := s.uses[use].(phase := Stamped(s.now))]), Silent)
    else (s, Silent)
  }

  function DoMarkUse(s: State, use: nat): Outcome {
    if use in s.uses && s.uses[use].phase.Stamped? && s.uses[use].id in s.arena then
      var u := s.uses[use];
      (Touch(s, u.id, StampedAt(s.arena[u.id].seen, u.phase.at)).(uses := s.uses[use := u.(phase := Marked)]), Silent)
    else (s, Silent)
  }

  function DoLeaveUse(s: State, use: nat): Outcome {
    if use in s.uses && s.uses[use].phase.Marked? && s.uses[use].id in s.arena
       && s.arena[s.uses[use].id].seen.active > 0
    then
      var id := s.uses[use].id;
      var seen := CountedOut(s.arena[id].seen);
      var idleSince := if seen.active == 0 then s.now else s.arena[id].idleSince;
      (s.(arena := s.arena[id := Held(seen, s.arena[id].ended, idleSince)], uses := s.uses - {use}), Silent)
    else (s, Silent)
  }

  ghost function Step(s: State, e: Event): Outcome {
    match e
    case Tick(to) => (if to >= s.now then s.(now := to) else s, Silent)
    case Mint(id, caller) => DoMint(s, id, caller)
    case Begin(call, kind) => DoBegin(s, call, kind)
    case CheckSweep(call) => DoCheckSweep(s, call)
    case Sweep(call) => DoSweep(s, call)
    case ScanTable(call, pick) => DoScan(s, call, pick)
    case Serve(call) => DoServe(s, call)
    case End(id) => DoEnd(s, id)
    case EnterHandle(use, id) => DoEnterHandle(s, use, id)
    case StampUse(use) => DoStampUse(s, use)
    case MarkUse(use) => DoMarkUse(s, use)
    case LeaveUse(use) => DoLeaveUse(s, use)
  }

  ghost function Next(s: State, e: Event): State { Step(s, e).0 }

  ghost function Exec(s: State, es: seq<Event>): State
    decreases |es|
  {
    if es == [] then s else Next(Exec(s, es[..|es|-1]), es[|es|-1])
  }
}
