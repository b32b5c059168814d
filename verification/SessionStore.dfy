/** HTTP sessions and the bounded store that holds them, one section under the store's lock at a time. */
module SessionStore {
  import opened Wrappers
  import opened Clock

  type SessionId = string

  datatype Caller = Caller(user: Option<string>, tenant: Option<string>)

  // What the store reads of a session. Times are ticks of the monotonic clock.
  datatype Seen = Seen(caller: Caller, lastSeen: nat, active: nat)

  type Table = map<SessionId, Seen>

  datatype Limits = Limits(total: nat, perCaller: nat) {
    predicate Positive() { total > 0 && perCaller > 0 }
  }

  datatype Refusal = ServerFull | CallerFull

  predicate Expired(s: Seen, ttl: nat, now: nat) {
    s.active == 0 && Since(now, s.lastSeen) >= ttl
  }

  // A session's sight of a request: counted busy as it comes in, then stamped and counted off as it goes.
  function CountedIn(s: Seen): Seen { s.(active := s.active + 1) }

  function StampedAt(s: Seen, at: nat): Seen { s.(lastSeen := at) }

  function CountedOut(s: Seen): Seen
    requires s.active > 0
  {
    s.(active := s.active - 1)
  }

  function ExpiredIds(table: Table, ttl: nat, now: nat): set<SessionId> {
    set id | id in table && Expired(table[id], ttl, now)
  }

  function OfCaller(table: Table, caller: Caller): set<SessionId> {
    set id | id in table && table[id].caller == caller
  }

  function IdleOf(table: Table, caller: Caller): set<SessionId> {
    set id | id in table && table[id].caller == caller && table[id].active == 0
  }

  // The scan's pick: an idle session of the caller none of its other idle ones is older than, if it has an idle one.
  ghost predicate LeastRecent(table: Table, caller: Caller, pick: Option<SessionId>) {
    match pick
    case None => IdleOf(table, caller) == {}
    case Some(v) => v in IdleOf(table, caller)
                    && forall x :: x in IdleOf(table, caller) ==> table[v].lastSeen <= table[x].lastSeen
  }

  datatype Inserted = Inserted(table: Table, ended: set<SessionId>, result: Result<(), Refusal>)

  // Room for one session more: made by dropping what has expired, if the table is full.
  function AdmitTotal(table: Table, ttl: nat, limits: Limits, now: nat, id: SessionId, session: Seen): Inserted {
    if |table| < limits.total then Inserted(table[id := session], {}, Ok(()))
    else
      var expired := ExpiredIds(table, ttl, now);
      var kept := table - expired;
      if |kept| < limits.total then Inserted(kept[id := session], expired, Ok(()))
      else Inserted(kept, expired, Err(ServerFull))
  }

  // `SessionStore::insert` under the lock, with the scan's pick.
  function Admit(table: Table, ttl: nat, limits: Limits, now: nat, id: SessionId, session: Seen,
                 pick: Option<SessionId>): Inserted
  {
    if |OfCaller(table, session.caller)| < limits.perCaller then AdmitTotal(table, ttl, limits, now, id, session)
    else
      match pick
      case None => Inserted(table, {}, Err(CallerFull))
      case Some(v) =>
        var r := AdmitTotal(table - {v}, ttl, limits, now, id, session);
        r.(ended := {v} + r.ended)
  }

  // `SessionStore::find` and the lookup of `enter`: one that expired is dropped on the way.
  function LookUp(table: Table, ttl: nat, now: nat, id: SessionId): (Table, bool) {
    if id !in table then (table, false)
    else if Expired(table[id], ttl, now) then (table - {id}, false)
    else (table, true)
  }

  predicate WithinLimits(table: Table, limits: Limits) {
    |table| <= limits.total && forall id :: id in table ==> |OfCaller(table, table[id].caller)| <= limits.perCaller
  }

  /** A session; `ended` is its cancellation token. */
  class Session {
    const id: SessionId
    const caller: Caller
    var lastSeen: nat
    var active: nat
    var ended: bool

    constructor (id: SessionId, caller: Caller, now: nat)
      ensures this.id == id && this.caller == caller && lastSeen == now && active == 0 && !ended
    {
      this.id := id;
      this.caller := caller;
      lastSeen := now;
      active := 0;
      ended := false;
    }

    function View(): Seen
      reads this
    {
      Seen(caller, lastSeen, active)
    }

    method Enter()
      modifies this`active
      ensures View() == CountedIn(old(View()))
    {
      active := active + 1;
    }

    // The first half of dropping a use: stamp the session.
    method MarkSeen(at: nat)
      modifies this`lastSeen
      ensures View() == StampedAt(old(View()), at)
    {
      lastSeen := at;
    }

    // The second half: stop counting it busy.
    method Leave()
      requires active > 0
      modifies this`active
      ensures View() == CountedOut(old(View()))
    {
      active := active - 1;
    }
  }

  /** A request being served in a session. */
  class SessionUse {
    const session: Session

    constructor (session: Session)
      modifies session`active
      ensures this.session == session && session.View() == CountedIn(old(session.View()))
    {
      this.session := session;
      new;
      session.Enter();
    }

    // The session is stamped while it still counts as busy, so no sweep finds it idle with an old stamp.
    method Drop(now: nat)
      requires session.active > 0
      modifies session`lastSeen, session`active
      ensures session.View() == CountedOut(StampedAt(old(session.View()), now))
    {
      session.MarkSeen(now);
      session.Leave();
    }
  }

  class SessionStore {
    const ttl: nat
    const limits: Limits
    var sessions: map<SessionId, Session>
    var lastSweep: nat

    constructor (ttl: nat, limits: Limits, now: nat)
      ensures this.ttl == ttl && this.limits == limits && sessions == map[] && lastSweep == now
    {
      this.ttl := ttl;
      this.limits := limits;
      sessions := map[];
      lastSweep := now;
    }

    ghost predicate Valid()
      reads this, sessions.Values
    {
      forall id :: id in sessions ==> sessions[id].id == id
    }

    ghost function View(): Table
      reads this, sessions.Values
    {
      map id | id in sessions :: sessions[id].View()
    }

    // The `last_sweep` section: whether this call sweeps.
    method SweepIsDue(now: nat) returns (due: bool)
      modifies this`lastSweep
      ensures due <==> Since(now, old(lastSweep)) >= ttl / 2
      ensures lastSweep == if due then now else old(lastSweep)
    {
      due := Since(now, lastSweep) >= ttl / 2;
      if due {
        lastSweep := now;
      }
    }

    // Ends and forgets every session expired by `now`, and no other.
    method DropExpired(now: nat)
      requires Valid()
      modifies this`sessions, sessions.Values`ended
      ensures Valid()
      ensures View() == old(View()) - ExpiredIds(old(View()), ttl, now)
      ensures forall id :: id in sessions ==> id in old(sessions) && sessions[id] == old(sessions[id])
      ensures forall id :: id in old(sessions) ==>
                old(sessions[id]).ended == (id in ExpiredIds(old(View()), ttl, now) || old(sessions[id].ended))
      ensures ExpiredIds(old(View()), ttl, now) <= old(sessions).Keys
    {
      ghost var was := sessions;
      ghost var view := View();
      var pending := sessions.Keys;
      hide Since, Expired;
      while pending != {}
        invariant pending <= was.Keys
        invariant forall id :: id in sessions <==> id in was && (id in pending || !Expired(view[id], ttl, now))
        invariant forall id :: id in sessions ==> sessions[id] == was[id]
        invariant forall id :: id in was ==> was[id].ended == (id !in sessions || old(was[id].ended))
        decreases pending
      {
        var id :| id in pending;
        pending := pending - {id};
        var session := sessions[id];
        assert session.View() == view[id];
        if Expired(session.View(), ttl, now) {
          session.ended := true;
          sessions := sessions - {id};
        }
      }
    }

    // The scan of `insert`: how many sessions the caller holds, and the least recently used idle one.
    method Scan(caller: Caller) returns (theirs: nat, least: Option<SessionId>)
      ensures theirs == |OfCaller(View(), caller)|
      ensures LeastRecent(View(), caller, least)
      ensures least.Some? ==> least.value in sessions
    {
      theirs, least := 0, None;
      ghost var view := View();
      ghost var counted: set<SessionId> := {};
      var pending := sessions.Keys;
      while pending != {}
        invariant pending <= sessions.Keys
        invariant forall id :: id in counted <==> id in sessions && id !in pending && sessions[id].caller == caller
        invariant theirs == |counted|
        invariant least.None? ==> forall x :: x in IdleOf(view, caller) ==> x in pending
        invariant least.Some? ==> least.value in IdleOf(view, caller)
        invariant least.Some? ==>
          forall x :: x in IdleOf(view, caller) && x !in pending ==> view[least.value].lastSeen <= view[x].lastSeen
        decreases pending
      {
        var id :| id in pending;
        pending := pending - {id};
        var live := sessions[id];
        assert live.View() == view[id];
        if live.caller == caller {
          counted := counted + {id};
          theirs := theirs + 1;
          if live.active == 0 && (least.None? || live.lastSeen < sessions[least.value].lastSeen) {
            least := Some(id);
          }
        }
      }
      assert counted == OfCaller(view, caller);
    }

    method Insert(now: nat, session: Session) returns (r: Result<(), Refusal>, ghost pick: Option<SessionId>)
      requires Valid()
      modifies this`sessions, sessions.Values`ended
      ensures Valid()
      ensures LeastRecent(old(View()), session.caller, pick)
      ensures var spec := Admit(old(View()), ttl, limits, now, session.id, session.View(), pick);
              && View() == spec.table && r == spec.result
              && spec.ended <= old(sessions).Keys
              && forall id :: id in old(sessions) ==> old(sessions[id]).ended == (id in spec.ended || old(sessions[id].ended))
      ensures forall id :: id in sessions && id != session.id ==> id in old(sessions) && sessions[id] == old(sessions[id])
      ensures r.Ok? ==> session.id in sessions && sessions[session.id] == session
    {
      hide View, Valid, AdmitTotal, OfCaller;
      var theirs, least := Scan(session.caller);
      pick := least;
      if theirs >= limits.perCaller {
        if least.None? {
          return Err(CallerFull), pick;
        }
        Remove(least.value);
      }
      r := Place(now, session);
    }

    method IsFull() returns (full: bool)
      ensures full <==> |View()| >= limits.total
    {
      assert View().Keys == sessions.Keys;
      full := |sessions| >= limits.total;
    }

    // The second half of `insert`: room in the table as a whole.
    method Place(now: nat, session: Session) returns (r: Result<(), Refusal>)
      requires Valid()
      modifies this`sessions, sessions.Values`ended
      ensures Valid()
      ensures var spec := AdmitTotal(old(View()), ttl, limits, now, session.id, session.View());
              && View() == spec.table && r == spec.result
              && spec.ended <= old(sessions).Keys
              && forall id :: id in old(sessions) ==> old(sessions[id]).ended == (id in spec.ended || old(sessions[id].ended))
      ensures forall id :: id in sessions && id != session.id ==> id in old(sessions) && sessions[id] == old(sessions[id])
      ensures r.Ok? ==> session.id in sessions && sessions[session.id] == session
    {
      hide View, Valid, ExpiredIds;
      var full := IsFull();
      if full {
        DropExpired(now);
        ghost var kept := View();
        full := IsFull();
        assert kept == old(View()) - ExpiredIds(old(View()), ttl, now);
        if full {
          return Err(ServerFull);
        }
      }
      Put(session);
      r := Ok(());
    }

    method Put(session: Session)
      requires Valid()
      modifies this`sessions
      ensures Valid()
      ensures View() == old(View())[session.id := session.View()]
      ensures sessions == old(sessions)[session.id := session]
    {
      sessions := sessions[session.id := session];
    }

    // Ends one session and forgets it.
    method Remove(id: SessionId)
      requires Valid() && id in sessions
      modifies this`sessions, sessions.Values`ended
      ensures Valid() && old(sessions[id]).ended
      ensures sessions == old(sessions) - {id} && View() == old(View()) - {id}
      ensures old(sessions[id]) !in sessions.Values
      ensures forall s: Session :: s in old(sessions).Values && s != old(sessions[id]) ==> s.ended == old(s.ended)
    {
      ghost var view := View();
      sessions[id].ended := true;
      sessions := sessions - {id};
      assert View() == view - {id};
    }

    // `end`, for a session its client closes.
    method End(id: SessionId) returns (ended: bool)
      requires Valid()
      modifies this`sessions, sessions.Values`ended
      ensures Valid()
      ensures ended <==> id in old(sessions)
      ensures View() == old(View()) - {id} && (ended ==> old(sessions[id]).ended)
      ensures sessions == old(sessions) - {id}
      ensures forall x :: x in sessions ==> sessions[x].ended == old(sessions[x].ended)
    {
      ended := id in sessions;
      if ended {
        Remove(id);
      } else {
        assert View() - {id} == View();
      }
    }

    method Find(now: nat, id: SessionId) returns (found: Option<Session>)
      requires Valid()
      modifies this`sessions, sessions.Values`ended
      ensures Valid()
      ensures (View(), found.Some?) == LookUp(old(View()), ttl, now, id)
      ensures found.Some? ==> id in old(sessions) && found.value == old(sessions[id])
      ensures found == None && id in old(sessions) ==> old(sessions[id]).ended
      ensures sessions == if found == None then old(sessions) - {id} else old(sessions)
      ensures forall x :: x in sessions ==> sessions[x].ended == old(sessions[x].ended)
    {
      if id !in sessions {
        return None;
      }
      var session := sessions[id];
      if Expired(session.View(), ttl, now) {
        Remove(id);
        return None;
      }
      found := Some(session);
    }
  }
}
