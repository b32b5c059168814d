/** How long a batch of errors is collected, and when its digest is sent, by what was collected and sent before. */
module ErrorWindows {
  import opened Wrappers
  import opened ErrorDispatcher

  /** A minute, in nanoseconds, and a key, in its parts. */
  lemma Measures(e: ErrorEvent)
    ensures ONE_MINUTE == 60_000_000_000
    ensures DedupKey(e) == e.target + "::" + (if |e.message| > 80 then e.message[..80] else e.message)
  {
  }

  // The remembered sends of the last minute, in their order.
  predicate AreRecent(sends: seq<nat>, now: nat, recent: seq<nat>) {
    if sends == [] then recent == []
    else if now < sends[0] + 60_000_000_000 then recent != [] && recent[0] == sends[0] && AreRecent(sends[1..], now, recent[1..])
    else AreRecent(sends[1..], now, recent)
  }

  lemma {:induction false} PrunedFromTheFront(sends: seq<nat>, now: nat)
    requires sends != []
    ensures Pruned(sends, now) == (if now < sends[0] + 60_000_000_000 then [sends[0]] else []) + Pruned(sends[1..], now)
    decreases |sends|
  {
    var n := |sends| - 1;
    if n == 0 {
      assert sends[..0] == [] && sends[1..] == [];
    } else {
      PrunedFromTheFront(sends[..n], now);
      assert sends[..n][1..] == sends[1..][..n-1];
      assert sends[1..][|sends[1..]|-1] == sends[n];
    }
  }

  lemma {:induction false} PrunedIsRecent(sends: seq<nat>, now: nat)
    ensures AreRecent(sends, now, Pruned(sends, now))
  {
    if sends != [] {
      PrunedFromTheFront(sends, now);
      PrunedIsRecent(sends[1..], now);
      var rest := Pruned(sends[1..], now);
      assert [] + rest == rest && ([sends[0]] + rest)[1..] == rest;
    }
  }

  /**
   * What is remembered after a batch: nothing new if nothing was due; the sends of the last minute if they fill the rate; and
   * else those and this one, and of each error shown that it was shown now.
   */
  lemma MemoryOutcome(m: Memory, config: Config, batch: seq<ErrorEvent>, now: nat)
    requires |m.recentSends| < 0x1_0000_0000
    ensures var (after, digest) := Dispatched(m, config, batch, now);
            if forall key :: key in Grouped(batch) ==>
                 key in m.lastNotified && config.dedupWindow > 0 && now < m.lastNotified[key] + config.dedupWindow
            then after == m && digest == None
            else
              exists recent :: AreRecent(m.recentSends, now, recent)
                && if |recent| >= config.maxPerMinute then after == Memory(m.lastNotified, recent) && digest == None
                   else
                     && digest.Some? && after.recentSends == recent + [now]
                     && after.lastNotified.Keys == m.lastNotified.Keys + digest.value.Keys
                     && forall key :: key in after.lastNotified ==>
                          after.lastNotified[key] == if key in digest.value then now else m.lastNotified[key]
  {
    PrunedIsRecent(m.recentSends, now);
    PrunedIsShorter(m.recentSends, now);
    hide Grouped, Pruned, AreRecent;
    var due := Due(Grouped(batch), m.lastNotified, config.dedupWindow, now);
    assert due == map[] <==> forall key :: key in Grouped(batch) ==> !IsDue(m.lastNotified, config.dedupWindow, now, key) by {
      assert forall key :: key in due <==> key in Grouped(batch) && IsDue(m.lastNotified, config.dedupWindow, now, key);
    }
  }

  lemma {:induction false} PrunedIsShorter(sends: seq<nat>, now: nat)
    ensures |Pruned(sends, now)| <= |sends|
  {
    if sends != [] {
      PrunedIsShorter(sends[..|sends|-1], now);
    }
  }

  // Some error of the batch has the key, and no digest sent within the window shows it.
  ghost predicate IsToBeShown(sends: seq<Send>, window: nat, b: Batch, key: string) {
    && (exists i :: 0 <= i < |b.events| && DedupKey(b.events[i]) == key)
    && forall i :: 0 <= i < |sends| && key in sends[i].digest ==> b.at - sends[i].at >= window
  }

  lemma {:induction false} CountsSome(batch: seq<ErrorEvent>, key: string)
    ensures CountOf(batch, key) > 0 <==> exists i :: 0 <= i < |batch| && DedupKey(batch[i]) == key
    ensures CountOf(batch, key) == |set i | 0 <= i < |batch| && DedupKey(batch[i]) == key|
  {
    hide DedupKey;
    var all := set i | 0 <= i < |batch| && DedupKey(batch[i]) == key;
    if batch != [] {
      var n := |batch| - 1;
      CountsSome(batch[..n], key);
      var rest := set i | 0 <= i < n && DedupKey(batch[..n][i]) == key;
      assert forall i :: 0 <= i < n ==> batch[..n][i] == batch[i];
      assert all == rest + (if DedupKey(batch[n]) == key then {n} else {});
      assert batch[n] == batch[|batch|-1];
      if CountOf(batch[..n], key) > 0 {
        var i :| 0 <= i < n && DedupKey(batch[..n][i]) == key;
        assert DedupKey(batch[i]) == key;
      }
    }
  }

  lemma DueIsShown(config: Config, batches: seq<Batch>, b: Batch, key: string)
    requires config.Fits() && InOrder(batches + [b])
    ensures var r := RunOf(config, batches);
            key in Due(Grouped(b.events), r.memory.lastNotified, config.dedupWindow, b.at) <==>
            IsToBeShown(r.sends, config.dedupWindow, b, key)
  {
    hide RunOf, InOrder, RecentOk, Pruned, Grouped, DedupKey;
    var r := RunOf(config, batches);
    FrontInOrder(batches, b);
    RunInvariant(config, batches);
    GroupsCount(b.events, key);
    CountsSome(b.events, key);
  }

  // The digests of the last minute are as many as are allowed.
  predicate RateIsFull(sends: seq<Send>, max: nat, now: nat) {
    max == 0 || (|sends| >= max && now - sends[|sends|-max].at < 60_000_000_000)
  }

  // The first event of the key, and how many there are.
  ghost predicate IsEntry(batch: seq<ErrorEvent>, key: string, entry: Entry) {
    && entry.count == |set i | 0 <= i < |batch| && DedupKey(batch[i]) == key|
    && exists i :: 0 <= i < |batch| && batch[i] == entry.event && DedupKey(batch[i]) == key
                   && forall j :: 0 <= j < i ==> DedupKey(batch[j]) != key
  }

  /**
   * In every run a batch's digest is sent if and only if some error of it is to be shown and the rate is not full; and it
   * shows exactly those.
   */
  lemma DigestIsSentIff(config: Config, batches: seq<Batch>, b: Batch)
    requires config.Fits() && InOrder(batches + [b])
    ensures var sends := RunOf(config, batches).sends;
            var after := RunOf(config, batches + [b]).sends;
            if (exists key :: IsToBeShown(sends, config.dedupWindow, b, key)) && !RateIsFull(sends, config.maxPerMinute, b.at)
            then |after| == |sends| + 1 && after[..|sends|] == sends && after[|sends|].at == b.at
                 && forall key :: key in after[|sends|].digest <==> IsToBeShown(sends, config.dedupWindow, b, key)
            else after == sends
  {
    hide RunOf, InOrder, Grouped, IsToBeShown, UnderRateLimit, Pruned, Due, Dispatched;
    var r := RunOf(config, batches);
    var due := Due(Grouped(b.events), r.memory.lastNotified, config.dedupWindow, b.at);
    RunGoesOn(config, batches, b);
    DigestIsHeldBackIff(config, batches, b);
    forall key
      ensures key in due <==> IsToBeShown(r.sends, config.dedupWindow, b, key)
    {
      DueIsShown(config, batches, b, key);
    }
    if due != map[] {
      var key :| key in due;
      assert IsToBeShown(r.sends, config.dedupWindow, b, key);
    }
  }

  /** Each error it shows has the first of its events and their number. */
  lemma DigestHasItsEntries(config: Config, batches: seq<Batch>, b: Batch, key: string)
    requires var n := |RunOf(config, batches).sends|;
             var after := RunOf(config, batches + [b]).sends;
             |after| > n && key in after[n].digest
    ensures var n := |RunOf(config, batches).sends|;
            IsEntry(b.events, key, RunOf(config, batches + [b]).sends[n].digest[key])
  {
    hide RunOf, Grouped, Dispatched;
    RunGoesOn(config, batches, b);
    GroupsCount(b.events, key);
    CountsSome(b.events, key);
  }

  lemma RunGoesOn(config: Config, batches: seq<Batch>, b: Batch)
    ensures var r := RunOf(config, batches);
            var digest := Dispatched(r.memory, config, b.events, b.at).1;
            && RunOf(config, batches + [b]).sends == (if digest.Some? then r.sends + [Send(b.at, digest.value)] else r.sends)
            && (digest.Some? ==> digest.value == Due(Grouped(b.events), r.memory.lastNotified, config.dedupWindow, b.at))
  {
    assert (batches + [b])[..|batches|] == batches;
    hide UnderRateLimit, Pruned, Grouped, Due;
  }
}

/** The window of a batch, over every run of the receiving task. */
module ErrorBatches {
  import opened ErrorDispatcher
  import opened ErrorReceiver

  /** One look of the task: what it takes, how long it goes on taking, and when it stops. */
  lemma WorkOutcome(s: State, window: nat)
    ensures var t := Next(s, window, Work);
            match s.pc
            case Outer =>
              if s.queue != [] then t == s.(queue := s.queue[1..], pc := Head([s.queue[0]], s.now + window))
              else t == (if s.closed then s.(pc := Exited([])) else s)
            case Head(batch, deadline) =>
              t == s.(pc := if s.now < deadline then Inner(batch, deadline) else Dispatching(batch))
            case Inner(batch, deadline) =>
              if s.queue != [] then t == s.(queue := s.queue[1..], pc := Head(batch + [s.queue[0]], deadline))
              else t == (if s.closed then s.(pc := Exited(batch))
                         else if s.now < deadline then s else s.(pc := Dispatching(batch)))
            case Dispatching(batch) => t == s.(dispatched := s.dispatched + [batch], pc := Outer)
            case Exited(_) => t == s
  {
  }

  /** Errors queue until the channel closes. */
  lemma QueueOutcome(s: State, window: nat, e: ErrorEvent, to: nat)
    ensures Next(s, window, Arrive(e)) == if s.closed then s else s.(queue := s.queue + [e], arrived := s.arrived + [e])
    ensures Next(s, window, Close) == s.(closed := true)
    ensures Next(s, window, Tick(to)) == s.(now := if to < s.now then s.now else to)
  {
  }

  function At(now: nat, window: nat, es: seq<Event>, i: nat): State
    requires i <= |es|
  {
    Exec(Init(now), window, es[..i])
  }

  // The `i`-th event began the batch in progress, or the one about to be dispatched, with its first error.
  predicate BeganAt(now: nat, window: nat, es: seq<Event>, i: nat, batch: seq<ErrorEvent>) {
    && i < |es| && es[i] == Work && At(now, window, es, i).pc == Outer
    && At(now, window, es, i).queue != [] && batch != [] && batch[0] == At(now, window, es, i).queue[0]
  }

  ghost predicate WindowOk(now: nat, window: nat, es: seq<Event>) {
    var s := Exec(Init(now), window, es);
    match s.pc
    case Head(batch, deadline) =>
      exists i: nat :: BeganAt(now, window, es, i, batch) && deadline == At(now, window, es, i).now + window
    case Inner(batch, deadline) =>
      exists i: nat :: BeganAt(now, window, es, i, batch) && deadline == At(now, window, es, i).now + window
    case Dispatching(batch) =>
      exists i: nat :: BeganAt(now, window, es, i, batch) && At(now, window, es, i).now + window <= s.now
    case _ => true
  }

  lemma ExecMore(now: nat, window: nat, es: seq<Event>, e: Event)
    ensures Exec(Init(now), window, es + [e]) == Next(Exec(Init(now), window, es), window, e)
    ensures At(now, window, es + [e], |es|) == Exec(Init(now), window, es)
    ensures forall i :: 0 <= i <= |es| ==> At(now, window, es + [e], i) == At(now, window, es, i)
  {
    hide Next;
    assert (es + [e])[..|es|] == es;
    forall i | 0 <= i <= |es|
      ensures At(now, window, es + [e], i) == At(now, window, es, i)
    {
      assert (es + [e])[..i] == es[..i];
    }
  }

  // What was begun goes on, whatever joins it.
  lemma StillBegan(now: nat, window: nat, es: seq<Event>, e: Event, i: nat, batch: seq<ErrorEvent>, more: seq<ErrorEvent>)
    requires BeganAt(now, window, es, i, batch)
    ensures BeganAt(now, window, es + [e], i, batch + more) && At(now, window, es + [e], i) == At(now, window, es, i)
  {
    hide Exec;
    assert (es + [e])[..i] == es[..i];
  }

  lemma WindowStep(now: nat, window: nat, es: seq<Event>, e: Event)
    requires WindowOk(now, window, es)
    ensures WindowOk(now, window, es + [e])
  {
    hide Exec, Next;
    var s, t := Exec(Init(now), window, es), Exec(Init(now), window, es + [e]);
    ExecMore(now, window, es, e);
    StepFacts(s, window, e);
    if s.pc.Head? || s.pc.Inner? {
      var i: nat :| BeganAt(now, window, es, i, s.pc.batch) && s.pc.deadline == At(now, window, es, i).now + window;
      var more := if t.pc.Head? && |t.pc.batch| > |s.pc.batch| then t.pc.batch[|s.pc.batch|..] else [];
      StillBegan(now, window, es, e, i, s.pc.batch, more);
      assert s.pc.batch + [] == s.pc.batch;
      assert BeganAt(now, window, es + [e], i, s.pc.batch + more);
    } else if s.pc.Dispatching? {
      var i: nat :| BeganAt(now, window, es, i, s.pc.batch) && At(now, window, es, i).now + window <= s.now;
      StillBegan(now, window, es, e, i, s.pc.batch, []);
      assert s.pc.batch + [] == s.pc.batch;
    } else if t.pc.Head? {
      BeginsNow(now, window, es, e);
    }
  }

  lemma BeginsNow(now: nat, window: nat, es: seq<Event>, e: Event)
    requires var s := Exec(Init(now), window, es); s.pc == Outer && Next(s, window, e).pc.Head?
    ensures var t := Next(Exec(Init(now), window, es), window, e);
            BeganAt(now, window, es + [e], |es|, t.pc.batch)
            && t.pc.deadline == At(now, window, es + [e], |es|).now + window
  {
    hide Exec;
    ExecMore(now, window, es, e);
  }

  lemma StepFacts(s: State, window: nat, e: Event)
    ensures var t := Next(s, window, e);
            && t.now >= s.now
            && (match s.pc
                case Outer => t.pc == Outer || t.pc.Head? || t.pc.Exited?
                case Head(batch, deadline) =>
                  t.pc == s.pc || t.pc == Inner(batch, deadline) || (t.pc == Dispatching(batch) && t.now >= deadline)
                case Inner(batch, deadline) =>
                  || t.pc == s.pc || t.pc.Exited? || (t.pc == Dispatching(batch) && t.now >= deadline)
                  || (t.pc.Head? && t.pc.deadline == deadline && |t.pc.batch| == |batch| + 1 && batch <= t.pc.batch)
                case Dispatching(batch) => t.pc == s.pc || t.pc == Outer
                case Exited(_) => t.pc == s.pc)
  {
  }

  /** In every run a batch about to be dispatched was begun, with its first error, the batch window ago or earlier. */
  lemma {:induction false} BatchSpansItsWindow(now: nat, window: nat, es: seq<Event>)
    ensures WindowOk(now, window, es)
    decreases |es|
  {
    if es != [] {
      assert es == es[..|es|-1] + [es[|es|-1]];
      BatchSpansItsWindow(now, window, es[..|es|-1]);
      WindowStep(now, window, es[..|es|-1], es[|es|-1]);
    }
  }
}
