/** The cache over one published key set: what it answers from memory, and what a fetch leaves in it. */
module KeySet {
  import opened Wrappers
  import opened Clock

  // Times are nanoseconds of the monotonic clock.
  const SECOND: nat := 1_000_000_000
  const KEY_SET_TTL: nat := 3600 * SECOND
  const MIN_REFETCH_INTERVAL: nat := 30 * SECOND

  datatype SigningKey = SigningKey(kid: string, n: string, e: string)

  datatype Refusal = UnknownKid | FetchFailed | FailedLately

  type Answer = Result<SigningKey, Refusal>

  datatype Fetched = Fetched(keys: seq<SigningKey>, at: nat)

  // The first key of the set under the id.
  function FindKey(keys: seq<SigningKey>, kid: string): Option<SigningKey> {
    if keys == [] then None else if keys[0].kid == kid then Some(keys[0]) else FindKey(keys[1..], kid)
  }

  lemma {:induction false} FindKeyIsFirst(keys: seq<SigningKey>, kid: string)
    ensures match FindKey(keys, kid)
            case Some(key) =>
              exists i :: 0 <= i < |keys| && keys[i] == key && key.kid == kid && forall j :: 0 <= j < i ==> keys[j].kid != kid
            case None => forall key :: key in keys ==> key.kid != kid
  {
    if keys != [] && keys[0].kid != kid {
      FindKeyIsFirst(keys[1..], kid);
      if FindKey(keys, kid).Some? {
        var i :| 0 <= i < |keys[1..]| && keys[1..][i] == FindKey(keys, kid).value && keys[1..][i].kid == kid
                 && forall j :: 0 <= j < i ==> keys[1..][j].kid != kid;
        assert keys[i+1] == FindKey(keys, kid).value;
        forall j | 0 <= j < i + 1
          ensures keys[j].kid != kid
        {
          assert j > 0 ==> keys[j] == keys[1..][j-1];
        }
      }
    }
  }

  // `duration_since`, which saturates.
  predicate CoolingDown(lastAttempt: Option<nat>, interval: nat, now: nat) {
    lastAttempt.Some? && Since(now, lastAttempt.value) < interval
  }

  predicate Current(fetched: Option<Fetched>, now: nat) {
    fetched.Some? && Since(now, fetched.value.at) < KEY_SET_TTL
  }

  // What the cache answers without fetching, if it may.
  function FromMemory(fetched: Option<Fetched>, lastAttempt: Option<nat>, interval: nat, now: nat, kid: string): Option<Answer> {
    var cooling := CoolingDown(lastAttempt, interval, now);
    if Current(fetched, now) then
      match FindKey(fetched.value.keys, kid)
      case Some(key) => Some(Ok(key))
      case None => if cooling then Some(Err(UnknownKid)) else None
    else if cooling then Some(Err(FailedLately))
    else None
  }

  function Found(keys: seq<SigningKey>, kid: string): Answer {
    match FindKey(keys, kid) case Some(key) => Ok(key) case None => Err(UnknownKid)
  }

  class GoogleKeySet {
    const minRefetchInterval: nat
    var fetched: Option<Fetched>
    var lastAttempt: Option<nat>

    constructor ()
      ensures minRefetchInterval == MIN_REFETCH_INTERVAL && fetched == None && lastAttempt == None
    {
      minRefetchInterval := MIN_REFETCH_INTERVAL;
      fetched, lastAttempt := None, None;
    }

    // An interval longer than a set is reused for is cut to that.
    constructor WithMinRefetchInterval(interval: nat)
      ensures minRefetchInterval <= interval && minRefetchInterval <= KEY_SET_TTL
      ensures minRefetchInterval == interval || minRefetchInterval == KEY_SET_TTL
      ensures fetched == None && lastAttempt == None
    {
      minRefetchInterval := if interval < KEY_SET_TTL then interval else KEY_SET_TTL;
      fetched, lastAttempt := None, None;
    }

    static method Find(keys: seq<SigningKey>, kid: string) returns (found: Option<SigningKey>)
      ensures found == FindKey(keys, kid)
    {
      var i := 0;
      while i < |keys|
        invariant 0 <= i <= |keys|
        invariant FindKey(keys, kid) == FindKey(keys[i..], kid)
      {
        assert keys[i..][1..] == keys[i+1..];
        if keys[i].kid == kid {
          return Some(keys[i]);
        }
        i := i + 1;
      }
      found := None;
    }

    method AnswerFromMemory(now: nat, kid: string) returns (answer: Option<Answer>)
      ensures answer == FromMemory(fetched, lastAttempt, minRefetchInterval, now, kid)
    {
      var coolingDown := lastAttempt.Some? && Since(now, lastAttempt.value) < minRefetchInterval;
      if fetched.Some? && Since(now, fetched.value.at) < KEY_SET_TTL {
        var key := Find(fetched.value.keys, kid);
        if key.Some? {
          return Some(Ok(key.value));
        }
        return if coolingDown then Some(Err(UnknownKid)) else None;
      }
      answer := if coolingDown then Some(Err(FailedLately)) else None;
    }

    // What a finished fetch leaves, whether or not it brought a set, and what it answers.
    method Record(finished: nat, downloaded: Option<seq<SigningKey>>, kid: string) returns (answer: Answer)
      modifies this`fetched, this`lastAttempt
      ensures lastAttempt == Some(finished)
      ensures fetched == if downloaded.Some? then Some(Fetched(downloaded.value, finished)) else old(fetched)
      ensures answer == if downloaded.Some? then Found(downloaded.value, kid) else Err(FetchFailed)
    {
      lastAttempt := Some(finished);
      if downloaded.None? {
        return Err(FetchFailed);
      }
      var found := Find(downloaded.value, kid);
      fetched := Some(Fetched(downloaded.value, finished));
      answer := match found case Some(key) => Ok(key) case None => Err(UnknownKid);
    }
  }
}

/**
 * Lookups at once in one cache. A lookup reads the memory, takes the fetch lock if it must, reads again, and fetches;
 * one step is one read, one write, one turn at the lock, or an end of a download. A lookup may be dropped wherever it
 * waits.
 */
module KeyLookups {
  import opened Wrappers
  import opened KeySet

  // A fetch that was recorded: when it started and ended, and the set it brought, if it did.
  datatype Attempt = Attempt(start: nat, end: nat, keys: Option<seq<SigningKey>>)

  datatype Pc =
    | Asking
    | Queued
    | Holding
    | Cleared
    | Fetching(start: nat)
    | Finished(start: nat, end: nat, downloaded: Option<seq<SigningKey>>)
    | Leaving(answer: Answer)
    | Done(answer: Answer)
    | Dropped

  datatype Lookup = Lookup(kid: string, pc: Pc) {
    predicate HasTurn() { pc.Holding? || pc.Cleared? || pc.Fetching? || pc.Finished? || pc.Leaving? }
  }

  // `attempts` is the history of recorded fetches; no step reads it.
  datatype State = State(
    now: nat,
    interval: nat,
    fetched: Option<Fetched>,
    lastAttempt: Option<nat>,
    turn: Option<nat>,
    lookups: map<nat, Lookup>,
    attempts: seq<Attempt>)

  datatype Event =
    | Tick(to: nat)
    | Ask(lookup: nat, kid: string)
    | Read(lookup: nat)
    | Lock(lookup: nat)
    | ReadAgain(lookup: nat)
    | StartFetch(lookup: nat)
    | EndFetch(lookup: nat, downloaded: Option<seq<SigningKey>>)
    | Write(lookup: nat)
    | Unlock(lookup: nat)
    | Drop(lookup: nat)

  function Init(interval: nat, now: nat): State {
    State(now, interval, None, None, None, map[], [])
  }

  predicate At(s: State, lookup: nat) { lookup in s.lookups }

  function Move(s: State, lookup: nat, pc: Pc): State
    requires At(s, lookup)
  {
    s.(lookups := s.lookups[lookup := s.lookups[lookup].(pc := pc)])
  }

  function Memory(s: State, kid: string): Option<Answer> {
    FromMemory(s.fetched, s.lastAttempt, s.interval, s.now, kid)
  }

  function DoRead(s: State, lookup: nat): State {
    if At(s, lookup) && s.lookups[lookup].pc.Asking? then
      match Memory(s, s.lookups[lookup].kid)
      case Some(answer) => Move(s, lookup, Done(answer))
      case None => Move(s, lookup, Queued)
    else s
  }

  function DoLock(s: State, lookup: nat): State {
    if At(s, lookup) && s.lookups[lookup].pc.Queued? && s.turn.None?
    then Move(s, lookup, Holding).(turn := Some(lookup))
    else s
  }

  function DoReadAgain(s: State, lookup: nat): State {
    if At(s, lookup) && s.lookups[lookup].pc.Holding? then
      match Memory(s, s.lookups[lookup].kid)
      case Some(answer) => Move(s, lookup, Leaving(answer))
      case None => Move(s, lookup, Cleared)
    else s
  }

  function DoStartFetch(s: State, lookup: nat): State {
    if At(s, lookup) && s.lookups[lookup].pc.Cleared? then Move(s, lookup, Fetching(s.now)) else s
  }

  // The download ends, and the clock is read before the state is locked.
  function DoEndFetch(s: State, lookup: nat, downloaded: Option<seq<SigningKey>>): State {
    if At(s, lookup) && s.lookups[lookup].pc.Fetching?
    then Move(s, lookup, Finished(s.lookups[lookup].pc.start, s.now, downloaded))
    else s
  }

  function DoWrite(s: State, lookup: nat): State {
    if At(s, lookup) && s.lookups[lookup].pc.Finished? then
      var pc := s.lookups[lookup].pc;
      var answer := if pc.downloaded.Some? then Found(pc.downloaded.value, s.lookups[lookup].kid) else Err(FetchFailed);
      Move(s, lookup, Leaving(answer))
        .(lastAttempt := Some(pc.end),
          fetched := if pc.downloaded.Some? then Some(Fetched(pc.downloaded.value, pc.end)) else s.fetched,
          attempts := s.attempts + [Attempt(pc.start, pc.end, pc.downloaded)])
    else s
  }

  function DoUnlock(s: State, lookup: nat): State {
    if At(s, lookup) && s.lookups[lookup].pc.Leaving?
    then Move(s, lookup, Done(s.lookups[lookup].pc.answer)).(turn := None)
    else s
  }

  // A dropped lookup gives its turn up and records nothing.
  function DoDrop(s: State, lookup: nat): State {
    if At(s, lookup) && (var pc := s.lookups[lookup].pc; pc.Asking? || pc.Queued? || pc.Holding? || pc.Fetching? || pc.Finished?)
    then Move(s, lookup, Dropped).(turn := if s.turn == Some(lookup) then None else s.turn)
    else s
  }

  function Next(s: State, e: Event): State {
    match e
    case Tick(to) => if to >= s.now then s.(now := to) else s
    case Ask(lookup, kid) => if At(s, lookup) then s else s.(lookups := s.lookups[lookup := Lookup(kid, Asking)])
    case Read(lookup) => DoRead(s, lookup)
    case Lock(lookup) => DoLock(s, lookup)
    case ReadAgain(lookup) => DoReadAgain(s, lookup)
    case StartFetch(lookup) => DoStartFetch(s, lookup)
    case EndFetch(lookup, downloaded) => DoEndFetch(s, lookup, downloaded)
    case Write(lookup) => DoWrite(s, lookup)
    case Unlock(lookup) => DoUnlock(s, lookup)
    case Drop(lookup) => DoDrop(s, lookup)
  }

  function Exec(s: State, es: seq<Event>): State
    decreases |es|
  {
    if es == [] then s else Next(Exec(s, es[..|es|-1]), es[|es|-1])
  }

  // ---- What every run keeps --------------------------------------------------------------------

  // The last set a recorded fetch brought.
  function LastSet(attempts: seq<Attempt>): Option<Fetched> {
    if attempts == [] then None
    else
      var a := attempts[|attempts|-1];
      if a.keys.Some? then Some(Fetched(a.keys.value, a.end)) else LastSet(attempts[..|attempts|-1])
  }

  predicate PublishedIn(attempts: seq<Attempt>, key: SigningKey) {
    exists i :: 0 <= i < |attempts| && attempts[i].keys.Some? && key in attempts[i].keys.value
  }

  ghost predicate TurnOk(s: State) {
    && (s.turn.Some? ==> s.turn.value in s.lookups)
    && forall l :: l in s.lookups ==> (s.lookups[l].HasTurn() <==> s.turn == Some(l))
  }

  // No fetch is started by `t` too soon after a recorded one.
  predicate Apart(attempts: seq<Attempt>, interval: nat, t: nat) {
    attempts != [] ==> attempts[|attempts|-1].end + interval <= t
  }

  predicate AttemptsOk(attempts: seq<Attempt>, interval: nat, now: nat) {
    && (forall i :: 0 <= i < |attempts| ==> attempts[i].start <= attempts[i].end <= now)
    && (forall i :: 0 <= i < |attempts| - 1 ==> attempts[i].end + interval <= attempts[i+1].start)
  }

  predicate PcOk(s: State, l: Lookup) {
    match l.pc
    case Cleared => Apart(s.attempts, s.interval, s.now)
    case Fetching(start) => Apart(s.attempts, s.interval, start) && start <= s.now
    case Finished(start, end, _) => Apart(s.attempts, s.interval, start) && start <= end <= s.now
    case Leaving(answer) => AnswerOk(s.attempts, l.kid, answer)
    case Done(answer) => AnswerOk(s.attempts, l.kid, answer)
    case _ => true
  }

  // A key answered is one a fetch brought, under the id asked for.
  predicate AnswerOk(attempts: seq<Attempt>, kid: string, answer: Answer) {
    answer.Ok? ==> answer.value.kid == kid && PublishedIn(attempts, answer.value)
  }

  ghost predicate Inv(s: State) {
    && s.interval <= KEY_SET_TTL
    && TurnOk(s)
    && AttemptsOk(s.attempts, s.interval, s.now)
    && s.lastAttempt == (if s.attempts == [] then None else Some(s.attempts[|s.attempts|-1].end))
    && s.fetched == LastSet(s.attempts)
    && forall l :: l in s.lookups ==> PcOk(s, s.lookups[l])
  }

  lemma {:induction false} LastSetIsPublished(attempts: seq<Attempt>, kid: string)
    ensures LastSet(attempts).Some? ==>
              AnswerOk(attempts, kid, Found(LastSet(attempts).value.keys, kid))
  {
    if attempts != [] {
      var a := attempts[|attempts|-1];
      if a.keys.Some? {
        FindKeyIsFirst(a.keys.value, kid);
      } else {
        var rest := attempts[..|attempts|-1];
        LastSetIsPublished(rest, kid);
        PublishedMore(rest, a);
        assert attempts == rest + [a];
      }
    }
  }

  lemma PublishedMore(attempts: seq<Attempt>, a: Attempt)
    ensures forall key :: PublishedIn(attempts, key) ==> PublishedIn(attempts + [a], key)
  {
    forall key | PublishedIn(attempts, key)
      ensures PublishedIn(attempts + [a], key)
    {
      var i :| 0 <= i < |attempts| && attempts[i].keys.Some? && key in attempts[i].keys.value;
      assert (attempts + [a])[i] == attempts[i];
    }
  }

  lemma MemoryOk(s: State, kid: string)
    requires Inv(s)
    ensures Memory(s, kid).Some? ==> AnswerOk(s.attempts, kid, Memory(s, kid).value)
    ensures Memory(s, kid).None? ==> Apart(s.attempts, s.interval, s.now)
  {
    LastSetIsPublished(s.attempts, kid);
  }

  lemma WriteKeeps(s: State, lookup: nat)
    requires Inv(s) && At(s, lookup) && s.lookups[lookup].pc.Finished?
    ensures Inv(DoWrite(s, lookup))
  {
    var t := DoWrite(s, lookup);
    var pc := s.lookups[lookup].pc;
    var a := Attempt(pc.start, pc.end, pc.downloaded);
    assert PcOk(s, s.lookups[lookup]);
    assert t.attempts[..|s.attempts|] == s.attempts;
    PublishedMore(s.attempts, a);
    LastSetIsPublished(t.attempts, s.lookups[lookup].kid);
    assert AttemptsOk(t.attempts, t.interval, t.now);
    hide PublishedIn, AttemptsOk, LastSet, Found;
    forall l | l in t.lookups
      ensures PcOk(t, t.lookups[l])
    {
      assert PcOk(s, s.lookups[l]);
      assert l != lookup ==> !s.lookups[l].HasTurn();
    }
  }

  lemma WriteOrIdle(s: State, lookup: nat)
    requires Inv(s)
    ensures Inv(DoWrite(s, lookup))
  {
    if At(s, lookup) && s.lookups[lookup].pc.Finished? {
      WriteKeeps(s, lookup);
    }
  }

  lemma ReadKeeps(s: State, lookup: nat)
    requires Inv(s)
    ensures Inv(DoRead(s, lookup)) && Inv(DoReadAgain(s, lookup))
  {
    hide AttemptsOk, LastSet, FromMemory, AnswerOk;
    if At(s, lookup) {
      MemoryOk(s, s.lookups[lookup].kid);
    }
  }

  lemma InvStep(s: State, e: Event)
    requires Inv(s)
    ensures Inv(Next(s, e))
  {
    hide AttemptsOk, LastSet, FromMemory, AnswerOk, DoRead, DoReadAgain, DoWrite;
    match e
    case Tick(to) => if to >= s.now { assert AttemptsOk(s.attempts, s.interval, to) by { Later(s, to); } }
    case Read(lookup) => ReadKeeps(s, lookup);
    case ReadAgain(lookup) => ReadKeeps(s, lookup);
    case Write(lookup) => WriteOrIdle(s, lookup);
    case StartFetch(lookup) => if At(s, lookup) { assert PcOk(s, s.lookups[lookup]); }
    case EndFetch(lookup, downloaded) => if At(s, lookup) { assert PcOk(s, s.lookups[lookup]); }
    case Unlock(lookup) => if At(s, lookup) { assert PcOk(s, s.lookups[lookup]); }
    case _ =>
  }

  lemma Later(s: State, to: nat)
    requires AttemptsOk(s.attempts, s.interval, s.now) && s.now <= to
    ensures AttemptsOk(s.attempts, s.interval, to)
  {
  }

  lemma {:induction false} ReachedInv(interval: nat, now: nat, es: seq<Event>)
    requires interval <= KEY_SET_TTL
    ensures Inv(Exec(Init(interval, now), es)) && Exec(Init(interval, now), es).interval == interval
    decreases |es|
  {
    if es == [] {
    } else {
      ReachedInv(interval, now, es[..|es|-1]);
      InvStep(Exec(Init(interval, now), es[..|es|-1]), es[|es|-1]);
    }
  }

  // ---- Theorems --------------------------------------------------------------------------------

  /** Lookups share: at most one fetch is in flight. */
  lemma OneFetchInFlight(interval: nat, now: nat, es: seq<Event>, l: nat, m: nat)
    requires interval <= KEY_SET_TTL
    requires var s := Exec(Init(interval, now), es);
             At(s, l) && At(s, m) && s.lookups[l].pc.Fetching? && s.lookups[m].pc.Fetching?
    ensures l == m
  {
    ReachedInv(interval, now, es);
    var s := Exec(Init(interval, now), es);
    assert s.lookups[l].HasTurn() && s.lookups[m].HasTurn();
  }

  lemma {:induction false} EndsEarlier(attempts: seq<Attempt>, interval: nat, now: nat, i: nat, t: nat)
    requires AttemptsOk(attempts, interval, now) && Apart(attempts, interval, t) && i < |attempts|
    ensures attempts[i].end + interval <= t
    decreases |attempts| - i
  {
    if i + 1 < |attempts| {
      EndsEarlier(attempts, interval, now, i + 1, t);
    }
  }

  /** No fetch starts within the interval after the end of any recorded one. */
  lemma NoFetchStartsTooSoon(interval: nat, now: nat, es: seq<Event>, l: nat, i: nat)
    requires interval <= KEY_SET_TTL
    requires var s := Exec(Init(interval, now), es);
             At(s, l) && s.lookups[l].pc.Fetching? && i < |s.attempts|
    ensures var s := Exec(Init(interval, now), es);
            s.attempts[i].end + interval <= s.lookups[l].pc.start
  {
    ReachedInv(interval, now, es);
    var s := Exec(Init(interval, now), es);
    assert PcOk(s, s.lookups[l]);
    EndsEarlier(s.attempts, interval, s.now, i, s.lookups[l].pc.start);
  }

  // How many recorded fetches started from `from` to `to`.
  function Starts(attempts: seq<Attempt>, from: nat, to: int): nat {
    if attempts == [] then 0
    else
      var a := attempts[|attempts|-1];
      Starts(attempts[..|attempts|-1], from, to) + (if from <= a.start <= to then 1 else 0)
  }

  lemma Distribute(n: nat, interval: nat)
    ensures (n + 1) * interval == n * interval + interval
    ensures n * interval >= 0
  {
  }

  lemma {:induction false} StartsBounded(attempts: seq<Attempt>, interval: nat, now: nat, from: nat, to: int)
    requires AttemptsOk(attempts, interval, now) && interval > 0
    ensures Starts(attempts, from, to) * interval <= (if to < from then 0 else to - from + interval)
    decreases |attempts|
  {
    if attempts != [] {
      var rest := attempts[..|attempts|-1];
      var a := attempts[|attempts|-1];
      if from <= a.start <= to {
        var last := a.start - interval;
        StartsBounded(rest, interval, now, from, last);
        forall i | 0 <= i < |rest|
          ensures rest[i].start <= last
        {
          EndsEarlier(rest, interval, now, i, a.start);
        }
        SameStarts(rest, from, last, to);
        Distribute(Starts(rest, from, to), interval);
      } else {
        StartsBounded(rest, interval, now, from, to);
      }
    }
  }

  lemma {:induction false} SameStarts(attempts: seq<Attempt>, from: nat, last: int, to: int)
    requires last <= to && forall i :: 0 <= i < |attempts| ==> attempts[i].start <= last
    ensures Starts(attempts, from, last) == Starts(attempts, from, to)
    decreases |attempts|
  {
    if attempts != [] {
      SameStarts(attempts[..|attempts|-1], from, last, to);
    }
  }

  lemma {:induction false} TimesMore(m: nat, n: nat, interval: nat)
    requires m <= n
    ensures m * interval <= n * interval
    decreases n
  {
    if m < n {
      TimesMore(m, n - 1, interval);
      Distribute(n - 1, interval);
    }
  }

  lemma Quotient(n: nat, length: nat, interval: nat)
    requires interval > 0 && n * interval <= length + interval
    ensures n <= length / interval + 1
  {
    var q := length / interval;
    assert length < q * interval + interval by { assert length == q * interval + length % interval; }
    Distribute(q, interval);
    Distribute(q + 1, interval);
    if q + 2 <= n {
      TimesMore(q + 2, n, interval);
    }
  }

  /** Any stretch of time sees at most one recorded fetch start, and one more for each whole interval in it. */
  lemma FetchesAreRateLimited(interval: nat, now: nat, es: seq<Event>, from: nat, length: nat)
    requires 0 < interval <= KEY_SET_TTL
    ensures Starts(Exec(Init(interval, now), es).attempts, from, from + length) <= length / interval + 1
  {
    var s := Exec(Init(interval, now), es);
    ReachedInv(interval, now, es);
    StartsBounded(s.attempts, interval, s.now, from, from + length);
    Quotient(Starts(s.attempts, from, from + length), length, interval);
  }

  /** The memory says a fetch failed lately only when the last recorded one did, within the interval. */
  lemma UnavailableMeansLastFetchFailed(interval: nat, now: nat, es: seq<Event>, kid: string)
    requires interval <= KEY_SET_TTL
    requires Memory(Exec(Init(interval, now), es), kid) == Some(Err(FailedLately))
    ensures var s := Exec(Init(interval, now), es);
            && s.attempts != []
            && s.attempts[|s.attempts|-1].keys.None? && s.now < s.attempts[|s.attempts|-1].end + interval
  {
    ReachedInv(interval, now, es);
  }

  /** A lookup answered a key was answered one under its id that some fetch brought. */
  lemma AnsweredKeyWasFetched(interval: nat, now: nat, es: seq<Event>, l: nat)
    requires interval <= KEY_SET_TTL
    requires var s := Exec(Init(interval, now), es); At(s, l) && s.lookups[l].pc.Done? && s.lookups[l].pc.answer.Ok?
    ensures var s := Exec(Init(interval, now), es);
            s.lookups[l].pc.answer.value.kid == s.lookups[l].kid && PublishedIn(s.attempts, s.lookups[l].pc.answer.value)
  {
    ReachedInv(interval, now, es);
    assert PcOk(Exec(Init(interval, now), es), Exec(Init(interval, now), es).lookups[l]);
  }

  /** From memory comes a key of a set no older than its time-to-live: that of the last fetch that brought one. */
  lemma MemoryAnswersFromLastSet(interval: nat, now: nat, es: seq<Event>, kid: string, key: SigningKey)
    requires interval <= KEY_SET_TTL
    ensures var s := Exec(Init(interval, now), es);
            Memory(s, kid) == Some(Ok(key)) <==>
            LastSet(s.attempts).Some? && s.now < LastSet(s.attempts).value.at + KEY_SET_TTL
            && FindKey(LastSet(s.attempts).value.keys, kid) == Some(key)
  {
    ReachedInv(interval, now, es);
    LastSetAge(Exec(Init(interval, now), es).attempts, interval, Exec(Init(interval, now), es).now);
  }

  lemma {:induction false} LastSetAge(attempts: seq<Attempt>, interval: nat, now: nat)
    requires AttemptsOk(attempts, interval, now)
    ensures LastSet(attempts).Some? ==> LastSet(attempts).value.at <= now
    decreases |attempts|
  {
    if attempts != [] && attempts[|attempts|-1].keys.None? {
      LastSetAge(attempts[..|attempts|-1], interval, now);
    }
  }

  /** A lookup waiting its turn behind a fetch that brings its key gets it from there, and starts no fetch. */
  lemma WaiterSharesTheFetch(interval: nat, now: nat, es: seq<Event>, l: nat, waiter: nat)
    requires interval <= KEY_SET_TTL && l != waiter
    requires var s := Exec(Init(interval, now), es);
             && At(s, l) && s.lookups[l].pc.Finished? && s.lookups[l].pc.downloaded.Some?
             && s.now < s.lookups[l].pc.end + KEY_SET_TTL
             && At(s, waiter) && s.lookups[waiter].pc.Queued?
             && FindKey(s.lookups[l].pc.downloaded.value, s.lookups[waiter].kid).Some?
    ensures var s := Exec(Init(interval, now), es);
            var t := DoUnlock(DoReadAgain(DoLock(DoUnlock(DoWrite(s, l), l), waiter), waiter), waiter);
            && At(t, waiter)
            && t.lookups[waiter].pc == Done(Ok(FindKey(s.lookups[l].pc.downloaded.value, s.lookups[waiter].kid).value))
            && t.attempts == s.attempts + [Attempt(s.lookups[l].pc.start, s.lookups[l].pc.end, s.lookups[l].pc.downloaded)]
  {
    ReachedInv(interval, now, es);
    var s := Exec(Init(interval, now), es);
    assert PcOk(s, s.lookups[l]);
  }

  /** A key the memory does not hold is fetched for once the interval allows, and answered from what comes. */
  lemma RotationIsPickedUp(interval: nat, now: nat, es: seq<Event>, l: nat, keys: seq<SigningKey>)
    requires interval <= KEY_SET_TTL
    requires var s := Exec(Init(interval, now), es);
             At(s, l) && s.lookups[l].pc.Asking? && Memory(s, s.lookups[l].kid).None? && s.turn.None?
    ensures var s := Exec(Init(interval, now), es);
            var fetching := DoStartFetch(DoReadAgain(DoLock(DoRead(s, l), l), l), l);
            var t := DoUnlock(DoWrite(DoEndFetch(fetching, l, Some(keys)), l), l);
            && At(t, l) && t.lookups[l].pc == Done(Found(keys, s.lookups[l].kid))
            && t.fetched == Some(Fetched(keys, s.now)) && t.lastAttempt == Some(s.now) && t.turn.None?
  {
    hide FromMemory, Found;
  }

  /** A fetch dropped leaves no trace, so that the next lookup in line may start another at once. */
  lemma DroppedFetchIsRepeated(interval: nat, now: nat, es: seq<Event>, l: nat, waiter: nat)
    requires interval <= KEY_SET_TTL && l != waiter
    requires var s := Exec(Init(interval, now), es);
             && At(s, l) && s.lookups[l].pc.Fetching? && At(s, waiter) && s.lookups[waiter].pc.Queued?
             && Memory(s, s.lookups[waiter].kid).None?
    ensures var s := Exec(Init(interval, now), es);
            var t := DoStartFetch(DoReadAgain(DoLock(DoDrop(s, l), waiter), waiter), waiter);
            && At(t, waiter) && t.lookups[waiter].pc == Fetching(s.now)
            && t.attempts == s.attempts && t.fetched == s.fetched && t.lastAttempt == s.lastAttempt
  {
    ReachedInv(interval, now, es);
    var s := Exec(Init(interval, now), es);
    assert s.lookups[l].HasTurn();
    hide FromMemory;
  }
}
