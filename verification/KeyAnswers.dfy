/** What a key lookup is answered, when it fetches and what a fetch leaves, in numbers and by what was fetched before. */
module KeyAnswers {
  import opened Wrappers
  import opened KeySet
  import opened KeyLookups

  /** A set is reused for an hour, and by default fetches are half a minute apart. */
  lemma Durations()
    ensures KEY_SET_TTL == 3_600_000_000_000 && MIN_REFETCH_INTERVAL == 30_000_000_000
  {
  }

  // The first key of the set under the id.
  ghost predicate IsFirst(keys: seq<SigningKey>, kid: string, key: SigningKey) {
    exists i :: 0 <= i < |keys| && keys[i] == key && key.kid == kid && forall j :: 0 <= j < i ==> keys[j].kid != kid
  }

  ghost predicate HasNone(keys: seq<SigningKey>, kid: string) {
    forall i :: 0 <= i < |keys| ==> keys[i].kid != kid
  }

  // The answer to the id out of a set.
  ghost predicate IsAnswer(keys: seq<SigningKey>, kid: string, answer: Answer) {
    match answer
    case Ok(key) => IsFirst(keys, kid, key)
    case Err(refusal) => HasNone(keys, kid) && refusal == UnknownKid
  }

  // The `i`-th recorded fetch brought a set, and none since did.
  predicate BroughtLast(attempts: seq<Attempt>, i: nat) {
    i < |attempts| && attempts[i].keys.Some? && forall j :: i < j < |attempts| ==> attempts[j].keys.None?
  }

  // The set of the `i`-th fetch is the last one brought, and less than an hour old.
  predicate IsCurrent(s: State, i: nat) {
    BroughtLast(s.attempts, i) && s.now - s.attempts[i].end < 3_600_000_000_000
  }

  // The last recorded fetch ended less than the interval ago.
  predicate Waits(s: State) {
    s.attempts != [] && s.now - s.attempts[|s.attempts|-1].end < s.interval
  }

  // What the cache holds is the last set some fetch brought, and when the last fetch ended.
  ghost predicate CacheIsHistory(s: State) {
    && s.lastAttempt == (if s.attempts == [] then None else Some(s.attempts[|s.attempts|-1].end))
    && (match s.fetched
        case None => forall i :: 0 <= i < |s.attempts| ==> s.attempts[i].keys.None?
        case Some(set_) => exists i: nat ::
             BroughtLast(s.attempts, i) && s.attempts[i].keys == Some(set_.keys) && s.attempts[i].end == set_.at)
    && forall i :: 0 <= i < |s.attempts| ==> s.attempts[i].end <= s.now
  }

  lemma {:induction false} LastSetIs(attempts: seq<Attempt>)
    ensures match LastSet(attempts)
            case None => forall i :: 0 <= i < |attempts| ==> attempts[i].keys.None?
            case Some(set_) => exists i: nat ::
              BroughtLast(attempts, i) && attempts[i].keys == Some(set_.keys) && attempts[i].end == set_.at
  {
    if attempts != [] {
      var n := |attempts|;
      var rest := attempts[..n-1];
      if attempts[n-1].keys.Some? {
        assert BroughtLast(attempts, n - 1);
      } else {
        LastSetIs(rest);
        assert forall i :: 0 <= i < n - 1 ==> rest[i] == attempts[i];
        if LastSet(rest).Some? {
          var i: nat :| BroughtLast(rest, i) && rest[i].keys == Some(LastSet(rest).value.keys)
                        && rest[i].end == LastSet(rest).value.at;
          assert BroughtLast(attempts, i);
        }
      }
    }
  }

  /** In every run the cache holds the last set a fetch brought and the end of the last fetch, brought or not. */
  lemma CacheHolds(interval: nat, now: nat, es: seq<Event>)
    requires interval <= 3_600_000_000_000
    ensures CacheIsHistory(Exec(Init(interval, now), es))
  {
    ReachedInv(interval, now, es);
    LastSetIs(Exec(Init(interval, now), es).attempts);
  }

  // What a read of the memory tells: an answer, or that a fetch is needed and allowed.
  ghost predicate IsTold(s: State, kid: string, told: Option<Answer>) {
    match told
    case Some(Ok(key)) => exists i: nat :: IsCurrent(s, i) && IsFirst(s.attempts[i].keys.value, kid, key)
    case Some(Err(refusal)) =>
      && Waits(s)
      && (refusal == UnknownKid ==> exists i: nat :: IsCurrent(s, i) && HasNone(s.attempts[i].keys.value, kid))
      && (refusal == FailedLately ==> forall i: nat :: !IsCurrent(s, i))
      && refusal != FetchFailed
    case None =>
      && !Waits(s)
      && forall i: nat :: IsCurrent(s, i) ==> HasNone(s.attempts[i].keys.value, kid)
  }

  lemma FindKeyTells(keys: seq<SigningKey>, kid: string)
    ensures match FindKey(keys, kid)
            case Some(key) => IsFirst(keys, kid, key)
            case None => HasNone(keys, kid)
  {
    FindKeyIsFirst(keys, kid);
    if FindKey(keys, kid).None? {
      assert forall i :: 0 <= i < |keys| ==> keys[i] in keys;
    }
  }

  lemma MemoryTells(s: State, kid: string)
    requires CacheIsHistory(s)
    ensures IsTold(s, kid, Memory(s, kid))
  {
    if s.fetched.Some? {
      FindKeyTells(s.fetched.value.keys, kid);
      var i: nat :| BroughtLast(s.attempts, i) && s.attempts[i].keys == Some(s.fetched.value.keys)
                    && s.attempts[i].end == s.fetched.value.at;
      assert forall j: nat :: BroughtLast(s.attempts, j) ==> j == i;
      assert IsCurrent(s, i) || forall j: nat :: !IsCurrent(s, j);
    } else {
      assert forall j: nat :: !BroughtLast(s.attempts, j);
    }
  }

  /**
   * In every run a lookup is answered without its turn when a current set has its key, or when the last fetch was too
   * short ago: then its id is unknown if there is a current set, and else the set unavailable. In all other cases it
   * queues for a fetch.
   */
  lemma ReadOutcome(interval: nat, now: nat, es: seq<Event>, l: nat)
    requires interval <= 3_600_000_000_000
    requires var s := Exec(Init(interval, now), es); At(s, l) && s.lookups[l].pc == Asking
    ensures var s := Exec(Init(interval, now), es);
            var t := Next(s, Read(l));
            && At(t, l) && t == s.(lookups := s.lookups[l := Lookup(s.lookups[l].kid, t.lookups[l].pc)])
            && (t.lookups[l].pc.Done? || t.lookups[l].pc == Queued)
            && IsTold(s, s.lookups[l].kid, if t.lookups[l].pc.Done? then Some(t.lookups[l].pc.answer) else None)
  {
    var s := Exec(Init(interval, now), es);
    CacheHolds(interval, now, es);
    MemoryTells(s, s.lookups[l].kid);
    hide Memory, IsTold, Exec, CacheIsHistory;
  }

  /** At its turn it looks again: what was fetched meanwhile answers it, and only otherwise does it fetch. */
  lemma ReadAgainOutcome(interval: nat, now: nat, es: seq<Event>, l: nat)
    requires interval <= 3_600_000_000_000
    requires var s := Exec(Init(interval, now), es); At(s, l) && s.lookups[l].pc == Holding
    ensures var s := Exec(Init(interval, now), es);
            var t := Next(s, ReadAgain(l));
            && At(t, l) && t == s.(lookups := s.lookups[l := Lookup(s.lookups[l].kid, t.lookups[l].pc)])
            && (t.lookups[l].pc.Leaving? || t.lookups[l].pc == Cleared)
            && IsTold(s, s.lookups[l].kid, if t.lookups[l].pc.Leaving? then Some(t.lookups[l].pc.answer) else None)
  {
    var s := Exec(Init(interval, now), es);
    CacheHolds(interval, now, es);
    MemoryTells(s, s.lookups[l].kid);
    hide Memory, IsTold, Exec, CacheIsHistory;
  }

  // A fetch from its start to the end of its turn.
  function Fetch(s: State, l: nat, downloaded: Option<seq<SigningKey>>): State {
    Next(Next(Next(Next(s, StartFetch(l)), EndFetch(l, downloaded)), Write(l)), Unlock(l))
  }

  /**
   * A lookup cleared to fetch is answered out of the set that comes, which takes the place of the last; with none it
   * fails, and the last stays. Either way the attempt is noted, and the turn is free again.
   */
  lemma FetchOutcome(s: State, l: nat, downloaded: Option<seq<SigningKey>>)
    requires At(s, l) && s.lookups[l].pc == Cleared
    ensures var t := Fetch(s, l, downloaded);
            && At(t, l) && t.lookups[l].pc.Done? && t.turn == None && t.lastAttempt == Some(s.now)
            && t.attempts == s.attempts + [Attempt(s.now, s.now, downloaded)]
            && match downloaded
               case None => t.lookups[l].pc.answer == Err(FetchFailed) && t.fetched == s.fetched
               case Some(keys) => IsAnswer(keys, s.lookups[l].kid, t.lookups[l].pc.answer) && t.fetched == Some(Fetched(keys, s.now))
  {
    if downloaded.Some? {
      FindKeyTells(downloaded.value, s.lookups[l].kid);
    }
    hide FindKey, IsFirst, HasNone;
  }

  /** A lookup whose id no current set has, the last fetch an interval ago and the turn free, fetches and is answered so. */
  lemma UnknownIdIsFetchedFor(interval: nat, now: nat, es: seq<Event>, l: nat, keys: seq<SigningKey>)
    requires interval <= 3_600_000_000_000
    requires var s := Exec(Init(interval, now), es);
             && At(s, l) && s.lookups[l].pc == Asking && s.turn == None && !Waits(s)
             && forall i: nat :: IsCurrent(s, i) ==> HasNone(s.attempts[i].keys.value, s.lookups[l].kid)
    ensures var s := Exec(Init(interval, now), es);
            var t := Fetch(Next(Next(Next(s, Read(l)), Lock(l)), ReadAgain(l)), l, Some(keys));
            && At(t, l) && t.lookups[l].pc.Done? && IsAnswer(keys, s.lookups[l].kid, t.lookups[l].pc.answer)
            && t.attempts == s.attempts + [Attempt(s.now, s.now, Some(keys))]
  {
    var s := Exec(Init(interval, now), es);
    CacheHolds(interval, now, es);
    MemoryTells(s, s.lookups[l].kid);
    NothingToTell(s, s.lookups[l].kid);
    hide Memory, IsTold, Exec, CacheIsHistory, FromMemory, Fetch, IsAnswer, HasNone;
    TurnComes(s, l);
    FetchOutcome(Next(Next(Next(s, Read(l)), Lock(l)), ReadAgain(l)), l, Some(keys));
  }

  lemma NothingToTell(s: State, kid: string)
    requires IsTold(s, kid, Memory(s, kid)) && !Waits(s)
    requires forall i: nat :: IsCurrent(s, i) ==> HasNone(s.attempts[i].keys.value, kid)
    ensures Memory(s, kid) == None
  {
    hide Memory;
  }

  lemma TurnComes(s: State, l: nat)
    requires At(s, l) && s.lookups[l].pc == Asking && s.turn == None && Memory(s, s.lookups[l].kid) == None
    ensures var t := Next(Next(Next(s, Read(l)), Lock(l)), ReadAgain(l));
            t == s.(lookups := s.lookups[l := s.lookups[l].(pc := Cleared)], turn := Some(l))
  {
    hide FromMemory;
    var s1, s2 := Next(s, Read(l)), Next(Next(s, Read(l)), Lock(l));
    assert Memory(s2, s.lookups[l].kid) == Memory(s, s.lookups[l].kid);
    assert Next(s2, ReadAgain(l)).lookups == s.lookups[l := s.lookups[l].(pc := Cleared)];
  }

  // ---- The steps around them -------------------------------------------------------------------

  /** Time passes and never goes back; a lookup asks once, and before it has a turn at most one other holds it. */
  lemma StepOutcomes(s: State, l: nat, kid: string, to: nat)
    ensures Next(s, Tick(to)) == s.(now := if to < s.now then s.now else to)
    ensures !At(s, l) ==> Next(s, Ask(l, kid)) == s.(lookups := s.lookups[l := Lookup(kid, Asking)])
    ensures At(s, l) ==> Next(s, Ask(l, kid)) == s
    ensures At(s, l) && s.lookups[l].pc == Queued ==>
              Next(s, Lock(l)) ==
                if s.turn == None then s.(lookups := s.lookups[l := Lookup(s.lookups[l].kid, Holding)], turn := Some(l)) else s
  {
  }

  /** A lookup may be dropped wherever it waits; it gives up its turn, and the cache keeps no trace of it. */
  lemma DropOutcome(s: State, l: nat)
    ensures var t := Next(s, Drop(l));
            if At(s, l) && (s.lookups[l].pc == Asking || s.lookups[l].pc == Queued || s.lookups[l].pc == Holding
                            || s.lookups[l].pc.Fetching? || s.lookups[l].pc.Finished?)
            then t == s.(lookups := s.lookups[l := Lookup(s.lookups[l].kid, Dropped)], turn := t.turn)
                 && t.turn == (if s.turn == Some(l) then None else s.turn)
            else t == s
  {
  }

  lemma {:induction false} StartsCount(attempts: seq<Attempt>, from: nat, to: int)
    ensures Starts(attempts, from, to) == |set i | 0 <= i < |attempts| && from <= attempts[i].start <= to|
  {
    var all := set i | 0 <= i < |attempts| && from <= attempts[i].start <= to;
    if attempts != [] {
      var n := |attempts| - 1;
      var rest := set i | 0 <= i < n && from <= attempts[..n][i].start <= to;
      StartsCount(attempts[..n], from, to);
      assert forall i :: 0 <= i < n ==> attempts[..n][i] == attempts[i];
      assert all == rest + (if from <= attempts[n].start <= to then {n} else {});
    }
  }

  /** Any stretch of time sees the start of at most one recorded fetch, and of one more for each whole interval in it. */
  lemma FetchStartsAreRare(interval: nat, now: nat, es: seq<Event>, from: nat, length: nat)
    requires 0 < interval <= 3_600_000_000_000
    ensures var attempts := Exec(Init(interval, now), es).attempts;
            |set i | 0 <= i < |attempts| && from <= attempts[i].start <= from + length| <= length / interval + 1
  {
    FetchesAreRateLimited(interval, now, es, from, length);
    StartsCount(Exec(Init(interval, now), es).attempts, from, from + length);
  }
}
