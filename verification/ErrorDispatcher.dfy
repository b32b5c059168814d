/** The error dispatcher: how a batch is grouped and what of it is notified, under a window per error and a rate. */
module ErrorDispatcher {
  import opened Wrappers
  import opened Clock

  datatype ErrorEvent = ErrorEvent(target: string, message: string, fields: map<string, string>)

  function Take(s: string, n: nat): string { if |s| <= n then s else s[..n] }

  // Target and first 80 characters of the message.
  function DedupKey(e: ErrorEvent): string { e.target + "::" + Take(e.message, 80) }

  // Times are nanoseconds of the monotonic clock; the rate is a 32-bit number.
  datatype Config = Config(batchWindow: nat, dedupWindow: nat, maxPerMinute: nat) {
    predicate Fits() { maxPerMinute < 0x1_0000_0000 }
  }

  const ONE_MINUTE: nat := 60_000_000_000

  datatype Entry = Entry(event: ErrorEvent, count: nat)

  type Digest = map<string, Entry>

  function Counted(grouped: Digest, e: ErrorEvent): Digest {
    var key := DedupKey(e);
    grouped[key := if key in grouped then grouped[key].(count := grouped[key].count + 1) else Entry(e, 1)]
  }

  function Grouped(batch: seq<ErrorEvent>): Digest {
    if batch == [] then map[] else Counted(Grouped(batch[..|batch|-1]), batch[|batch|-1])
  }

  predicate IsDue(lastNotified: map<string, nat>, window: nat, now: nat, key: string) {
    key in lastNotified ==> Since(now, lastNotified[key]) >= window
  }

  function Due(grouped: Digest, lastNotified: map<string, nat>, window: nat, now: nat): Digest {
    map key | key in grouped && IsDue(lastNotified, window, now, key) :: grouped[key]
  }

  function Pruned(sends: seq<nat>, now: nat): seq<nat> {
    if sends == [] then []
    else
      var last := sends[|sends|-1];
      Pruned(sends[..|sends|-1], now) + (if Since(now, last) < ONE_MINUTE then [last] else [])
  }

  // The count is cut to 32 bits before it is compared.
  predicate UnderRateLimit(sends: seq<nat>, max: nat) { |sends| % 0x1_0000_0000 < max }

  // What the dispatcher remembers between batches.
  datatype Memory = Memory(lastNotified: map<string, nat>, recentSends: seq<nat>)

  // What becomes of a batch: the memory after it, and the digest sent, if one is.
  function Dispatched(m: Memory, config: Config, batch: seq<ErrorEvent>, now: nat): (Memory, Option<Digest>) {
    var entries := Due(Grouped(batch), m.lastNotified, config.dedupWindow, now);
    if entries == map[] then (m, None)
    else
      var recent := Pruned(m.recentSends, now);
      if !UnderRateLimit(recent, config.maxPerMinute) then (m.(recentSends := recent), None)
      else (Memory(map key | key in m.lastNotified.Keys + entries.Keys :: if key in entries then now else m.lastNotified[key],
                   recent + [now]),
            Some(entries))
  }

  class Dispatcher {
    const config: Config
    var lastNotified: map<string, nat>
    var recentSends: seq<nat>
    var sent: seq<Digest>

    constructor (config: Config)
      ensures this.config == config && View() == Memory(map[], []) && sent == []
    {
      this.config := config;
      lastNotified := map[];
      recentSends := [];
      sent := [];
    }

    function View(): Memory
      reads this
    {
      Memory(lastNotified, recentSends)
    }

    static method Group(batch: seq<ErrorEvent>) returns (grouped: Digest)
      ensures grouped == Grouped(batch)
    {
      grouped := map[];
      var i := 0;
      while i < |batch|
        invariant 0 <= i <= |batch|
        invariant grouped == Grouped(batch[..i])
      {
        assert batch[..i+1][..i] == batch[..i];
        var key := DedupKey(batch[i]);
        if key in grouped {
          grouped := grouped[key := grouped[key].(count := grouped[key].count + 1)];
        } else {
          grouped := grouped[key := Entry(batch[i], 1)];
        }
        i := i + 1;
      }
      assert batch[..i] == batch;
    }

    method FilterDue(grouped: Digest, now: nat) returns (entries: Digest)
      ensures entries == Due(grouped, lastNotified, config.dedupWindow, now)
    {
      entries := map[];
      var pending := grouped.Keys;
      while pending != {}
        invariant pending <= grouped.Keys
        invariant entries == map key | key in grouped && key !in pending && IsDue(lastNotified, config.dedupWindow, now, key)
                             :: grouped[key]
        decreases pending
      {
        var key :| key in pending;
        pending := pending - {key};
        if key !in lastNotified || Since(now, lastNotified[key]) >= config.dedupWindow {
          entries := entries[key := grouped[key]];
        }
      }
    }

    method PruneRecentSends(now: nat)
      modifies this`recentSends
      ensures recentSends == Pruned(old(recentSends), now)
    {
      var kept := [];
      var i := 0;
      while i < |recentSends|
        invariant 0 <= i <= |recentSends| && recentSends == old(recentSends)
        invariant kept == Pruned(recentSends[..i], now)
      {
        assert recentSends[..i+1][..i] == recentSends[..i];
        if Since(now, recentSends[i]) < ONE_MINUTE {
          kept := kept + [recentSends[i]];
        }
        i := i + 1;
      }
      assert recentSends[..i] == recentSends;
      recentSends := kept;
    }

    method NoteNotified(entries: Digest, now: nat)
      modifies this`lastNotified
      ensures lastNotified == map key | key in old(lastNotified).Keys + entries.Keys ::
                                if key in entries then now else old(lastNotified)[key]
    {
      var pending := entries.Keys;
      while pending != {}
        invariant pending <= entries.Keys
        invariant forall key :: key in lastNotified <==> key in old(lastNotified) || (key in entries && key !in pending)
        invariant forall key :: key in lastNotified ==>
          lastNotified[key] == if key in entries && key !in pending then now else old(lastNotified)[key]
        decreases pending
      {
        var key :| key in pending;
        pending := pending - {key};
        lastNotified := lastNotified[key := now];
      }
    }

    method DispatchBatch(batch: seq<ErrorEvent>, now: nat)
      modifies this
      ensures var (memory, digest) := Dispatched(old(View()), config, batch, now);
              View() == memory && sent == if digest.Some? then old(sent) + [digest.value] else old(sent)
    {
      var grouped := Group(batch);
      var entries := FilterDue(grouped, now);
      if entries == map[] {
        return;
      }
      PruneRecentSends(now);
      if !UnderRateLimit(recentSends, config.maxPerMinute) {
        return;
      }
      sent := sent + [entries];
      NoteNotified(entries, now);
      recentSends := recentSends + [now];
    }
  }

  // ---- One batch -------------------------------------------------------------------------------

  function CountOf(batch: seq<ErrorEvent>, key: string): nat {
    if batch == [] then 0
    else CountOf(batch[..|batch|-1], key) + (if DedupKey(batch[|batch|-1]) == key then 1 else 0)
  }

  /** Each group counts the events of its key and shows the first of them; every key of the batch has a group. */
  lemma {:induction false} GroupsCount(batch: seq<ErrorEvent>, key: string)
    ensures key in Grouped(batch) <==> CountOf(batch, key) > 0
    ensures key in Grouped(batch) ==>
              && Grouped(batch)[key].count == CountOf(batch, key)
              && exists i :: 0 <= i < |batch| && batch[i] == Grouped(batch)[key].event && DedupKey(batch[i]) == key
                             && forall j :: 0 <= j < i ==> DedupKey(batch[j]) != key
  {
    hide DedupKey;
    if batch != [] {
      var rest := batch[..|batch|-1];
      GroupsCount(rest, key);
      if key in Grouped(rest) {
        var i :| 0 <= i < |rest| && rest[i] == Grouped(rest)[key].event && DedupKey(rest[i]) == key
                 && forall j :: 0 <= j < i ==> DedupKey(rest[j]) != key;
        assert batch[i] == rest[i];
      } else {
        NoneOf(rest, key);
        assert forall j :: 0 <= j < |rest| ==> batch[j] == rest[j];
      }
    }
  }

  lemma {:induction false} NoneOf(batch: seq<ErrorEvent>, key: string)
    requires CountOf(batch, key) == 0
    ensures forall j :: 0 <= j < |batch| ==> DedupKey(batch[j]) != key
  {
    if batch != [] {
      NoneOf(batch[..|batch|-1], key);
      assert forall j :: 0 <= j < |batch| - 1 ==> batch[j] == batch[..|batch|-1][j];
    }
  }

  ghost function Total(d: Digest): nat {
    if d == map[] then 0
    else
      var key :| key in d;
      d[key].count + Total(d - {key})
  }

  lemma {:induction false} TotalWithout(d: Digest, key: string)
    requires key in d
    ensures Total(d) == d[key].count + Total(d - {key})
    decreases d
  {
    var other :| other in d && Total(d) == d[other].count + Total(d - {other});
    if other != key {
      TotalWithout(d - {other}, key);
      TotalWithout(d - {key}, other);
      assert d - {other} - {key} == d - {key} - {other};
    }
  }

  /** The counts of a batch's groups add up to the batch. */
  lemma {:induction false} GroupsAddUp(batch: seq<ErrorEvent>)
    ensures Total(Grouped(batch)) == |batch|
  {
    if batch != [] {
      var rest := Grouped(batch[..|batch|-1]);
      var e := batch[|batch|-1];
      var key := DedupKey(e);
      GroupsAddUp(batch[..|batch|-1]);
      TotalWithout(Counted(rest, e), key);
      assert Counted(rest, e) - {key} == rest - {key};
      if key in rest {
        TotalWithout(rest, key);
      } else {
        assert rest - {key} == rest;
      }
    }
  }

  /** Errors of one target share a key exactly when they share their first 80 characters. */
  lemma SameTargetKeys(a: ErrorEvent, b: ErrorEvent)
    requires a.target == b.target
    ensures DedupKey(a) == DedupKey(b) <==> Take(a.message, 80) == Take(b.message, 80)
  {
    var head := a.target + "::";
    assert DedupKey(a)[|head|..] == Take(a.message, 80) && DedupKey(b)[|head|..] == Take(b.message, 80);
  }

  // A key may be read as a target of `p` characters and the start of a message.
  predicate Splits(key: string, p: nat) {
    p + 2 <= |key| <= p + 82 && key[p..p+2] == "::"
  }

  lemma KeySplits(e: ErrorEvent)
    ensures Splits(DedupKey(e), |e.target|) && DedupKey(e)[..|e.target|] == e.target
  {
    assert DedupKey(e)[|e.target|..|e.target|+2] == "::";
  }

  lemma SplitIsAKey(key: string, p: nat)
    requires Splits(key, p)
    ensures DedupKey(ErrorEvent(key[..p], key[p+2..], map[])) == key
  {
    assert key == key[..p] + key[p..p+2] + key[p+2..];
  }

  /**
   * Some error of another target shares `e`'s key if and only if the key has `::`, with at most 80 characters behind
   * it, in a second place.
   */
  lemma KeyIsSharedIff(e: ErrorEvent)
    ensures (exists f: ErrorEvent :: f.target != e.target && DedupKey(f) == DedupKey(e)) <==>
            (exists p: nat :: p != |e.target| && Splits(DedupKey(e), p))
  {
    KeySplits(e);
    forall f: ErrorEvent | f.target != e.target && DedupKey(f) == DedupKey(e)
      ensures |f.target| != |e.target| && Splits(DedupKey(e), |f.target|)
    {
      KeySplits(f);
    }
    forall p: nat | p != |e.target| && Splits(DedupKey(e), p)
      ensures exists f: ErrorEvent :: f.target != e.target && DedupKey(f) == DedupKey(e)
    {
      SplitIsAKey(DedupKey(e), p);
      var f := ErrorEvent(DedupKey(e)[..p], DedupKey(e)[p+2..], map[]);
      assert |f.target| == p;
    }
  }

  // For one: a path ends where another's message begins.
  lemma TargetsMayShareAKey()
    ensures var a, b := ErrorEvent("app::db", "lost", map[]), ErrorEvent("app", "db::lost", map[]);
            a.target != b.target && DedupKey(a) == DedupKey(b)
  {
    assert "app::db" + "::" + "lost" == "app" + "::" + "db::lost";
  }

  // ---- Runs of batches -------------------------------------------------------------------------

  datatype Batch = Batch(events: seq<ErrorEvent>, at: nat)

  datatype Send = Send(at: nat, digest: Digest)

  // The memory after some batches, and every digest sent.
  datatype Run = Run(memory: Memory, sends: seq<Send>)

  function RunOf(config: Config, batches: seq<Batch>): Run {
    if batches == [] then Run(Memory(map[], []), [])
    else
      var before := RunOf(config, batches[..|batches|-1]);
      var b := batches[|batches|-1];
      var (memory, digest) := Dispatched(before.memory, config, b.events, b.at);
      Run(memory, if digest.Some? then before.sends + [Send(b.at, digest.value)] else before.sends)
  }

  predicate InOrder(batches: seq<Batch>) {
    forall i, j :: 0 <= i < j < |batches| ==> batches[i].at <= batches[j].at
  }

  // The remembered sends are the last of all sends; those forgotten are a minute old, and the limit covers the rest.
  predicate RecentOk(r: Run, max: nat, now: nat) {
    var n, k := |r.sends|, |r.memory.recentSends|;
    && k <= n && k <= max
    && (forall i :: 0 <= i < k ==> r.memory.recentSends[i] == r.sends[n-k+i].at)
    && (forall i :: 0 <= i < n - k ==> r.sends[i].at + ONE_MINUTE <= now)
  }

  predicate SendsOk(r: Run, config: Config, now: nat) {
    && (forall i, j :: 0 <= i < j < |r.sends| ==> r.sends[i].at <= r.sends[j].at)
    && (forall i :: 0 <= i < |r.sends| ==> r.sends[i].at <= now)
    && (forall i :: 0 <= i && i + config.maxPerMinute < |r.sends| ==>
          r.sends[i].at + ONE_MINUTE <= r.sends[i + config.maxPerMinute].at)
  }

  // The time remembered for a key is that of the last digest with it, and digests with it are a window apart.
  // What was shown is remembered, no earlier than it was.
  ghost predicate ShownIsRemembered(r: Run) {
    forall i, key :: 0 <= i < |r.sends| && key in r.sends[i].digest ==>
      key in r.memory.lastNotified && r.sends[i].at <= r.memory.lastNotified[key]
  }

  ghost predicate RememberedWasShown(r: Run) {
    forall key :: key in r.memory.lastNotified ==>
      exists i :: 0 <= i < |r.sends| && key in r.sends[i].digest && r.sends[i].at == r.memory.lastNotified[key]
  }

  ghost predicate ShownApart(r: Run, config: Config) {
    forall i, j, key :: 0 <= i < j < |r.sends| && key in r.sends[i].digest && key in r.sends[j].digest ==>
      r.sends[i].at + config.dedupWindow <= r.sends[j].at
  }

  ghost predicate NotifiedOk(r: Run, config: Config) {
    ShownIsRemembered(r) && RememberedWasShown(r) && ShownApart(r, config)
  }

  ghost predicate RunOk(r: Run, config: Config, now: nat) {
    RecentOk(r, config.maxPerMinute, now) && SendsOk(r, config, now) && NotifiedOk(r, config)
  }

  // Of times in order, pruning keeps the last ones.
  lemma {:induction false} PrunedIsSuffix(sends: seq<nat>, now: nat) returns (k: nat)
    requires forall i, j :: 0 <= i < j < |sends| ==> sends[i] <= sends[j]
    requires forall i :: 0 <= i < |sends| ==> sends[i] <= now
    ensures k <= |sends| && Pruned(sends, now) == sends[k..]
    ensures forall i :: 0 <= i < k ==> sends[i] + ONE_MINUTE <= now
  {
    if sends == [] {
      k := 0;
    } else {
      var n := |sends|;
      var front, last := sends[..n-1], sends[n-1];
      k := PrunedIsSuffix(front, now);
      PrunedLast(front, last, now);
      hide Pruned;
      assert sends == front + [last];
      if Since(now, last) < ONE_MINUTE {
        assert front[k..] + [last] == sends[k..];
      } else {
        assert forall i :: 0 <= i < n - 1 ==> front[i] == sends[i] && sends[i] <= last;
        NothingRecent(front, now);
        k := n;
        assert sends[n..] == [];
      }
    }
  }

  lemma PrunedLast(front: seq<nat>, last: nat, now: nat)
    ensures Pruned(front + [last], now) == Pruned(front, now) + (if Since(now, last) < ONE_MINUTE then [last] else [])
  {
    assert (front + [last])[..|front|] == front;
  }

  lemma {:induction false} NothingRecent(sends: seq<nat>, now: nat)
    requires forall i :: 0 <= i < |sends| ==> sends[i] + ONE_MINUTE <= now
    ensures Pruned(sends, now) == []
  {
    if sends != [] {
      NothingRecent(sends[..|sends|-1], now);
    }
  }

  lemma RecentInOrder(r: Run, config: Config, before: nat)
    requires RecentOk(r, config.maxPerMinute, before) && SendsOk(r, config, before)
    ensures var recent := r.memory.recentSends;
            && (forall i, j :: 0 <= i < j < |recent| ==> recent[i] <= recent[j])
            && (forall i :: 0 <= i < |recent| ==> recent[i] <= before)
            && |recent| <= |r.sends| && |recent| <= config.maxPerMinute
            && (|recent| > 0 ==> recent[0] == r.sends[|r.sends| - |recent|].at)
  {
  }

  lemma PruneKeeps(r: Run, config: Config, before: nat, now: nat)
    requires RecentOk(r, config.maxPerMinute, before) && SendsOk(r, config, before) && before <= now
    ensures RecentOk(Run(r.memory.(recentSends := Pruned(r.memory.recentSends, now)), r.sends), config.maxPerMinute, now)
  {
    hide Pruned, SendsOk;
    var recent := r.memory.recentSends;
    RecentInOrder(r, config, before);
    var k := PrunedIsSuffix(recent, now);
    var n, m := |r.sends|, |recent|;
    var kept := Pruned(recent, now);
    forall i | 0 <= i < m - k
      ensures kept[i] == r.sends[n-(m-k)+i].at
    {
      assert kept[i] == recent[k+i];
    }
    forall i | 0 <= i < n - (m - k)
      ensures r.sends[i].at + ONE_MINUTE <= now
    {
      if i >= n - m {
        assert recent[i-(n-m)] == r.sends[i].at;
      }
    }
  }

  lemma SendKeeps(r: Run, config: Config, digest: Digest, now: nat, m: Memory)
    requires config.Fits() && RunOk(r, config, now) && UnderRateLimit(r.memory.recentSends, config.maxPerMinute)
    requires forall key :: key in digest ==> IsDue(r.memory.lastNotified, config.dedupWindow, now, key)
    requires m.recentSends == r.memory.recentSends + [now]
    requires m.lastNotified == map key | key in r.memory.lastNotified.Keys + digest.Keys ::
                                 if key in digest then now else r.memory.lastNotified[key]
    ensures RunOk(Run(m, r.sends + [Send(now, digest)]), config, now)
  {
    var t := Run(m, r.sends + [Send(now, digest)]);
    assert RecentOk(t, config.maxPerMinute, now);
    assert SendsOk(t, config, now);
    hide RecentOk, SendsOk;
    NotifiedMore(r, config, digest, now, m);
  }

  // What a digest sent now makes of the times remembered.
  predicate Remembers(r: Run, digest: Digest, now: nat, m: Memory) {
    m.lastNotified == map key | key in r.memory.lastNotified.Keys + digest.Keys ::
                        if key in digest then now else r.memory.lastNotified[key]
  }

  lemma ShownMore(r: Run, config: Config, digest: Digest, now: nat, m: Memory)
    requires NotifiedOk(r, config) && Remembers(r, digest, now, m)
    ensures RememberedWasShown(Run(m, r.sends + [Send(now, digest)]))
  {
    var sends := r.sends + [Send(now, digest)];
    var n := |r.sends|;
    forall key | key in m.lastNotified
      ensures exists i :: 0 <= i < |sends| && key in sends[i].digest && sends[i].at == m.lastNotified[key]
    {
      if key in digest {
        assert sends[n] == Send(now, digest) && key in sends[n].digest;
      } else {
        var i :| 0 <= i < n && key in r.sends[i].digest && r.sends[i].at == r.memory.lastNotified[key];
        assert sends[i] == r.sends[i] && key in sends[i].digest;
      }
    }
  }

  lemma ApartMore(r: Run, config: Config, digest: Digest, now: nat)
    requires NotifiedOk(r, config) && forall i :: 0 <= i < |r.sends| ==> r.sends[i].at <= now
    requires forall key :: key in digest ==> IsDue(r.memory.lastNotified, config.dedupWindow, now, key)
    ensures forall m :: ShownApart(Run(m, r.sends + [Send(now, digest)]), config)
  {
    var sends := r.sends + [Send(now, digest)];
    assert sends[|r.sends|] == Send(now, digest) && forall i :: 0 <= i < |r.sends| ==> sends[i] == r.sends[i];
    forall i, key | 0 <= i < |r.sends| && key in r.sends[i].digest && key in digest
      ensures r.sends[i].at + config.dedupWindow <= now
    {
      assert IsDue(r.memory.lastNotified, config.dedupWindow, now, key);
      var k :| 0 <= k < |r.sends| && key in r.sends[k].digest && r.sends[k].at == r.memory.lastNotified[key];
    }
  }

  lemma NotifiedMore(r: Run, config: Config, digest: Digest, now: nat, m: Memory)
    requires NotifiedOk(r, config) && forall i :: 0 <= i < |r.sends| ==> r.sends[i].at <= now
    requires forall key :: key in digest ==> IsDue(r.memory.lastNotified, config.dedupWindow, now, key)
    requires Remembers(r, digest, now, m)
    ensures NotifiedOk(Run(m, r.sends + [Send(now, digest)]), config)
  {
    ShownMore(r, config, digest, now, m);
    ApartMore(r, config, digest, now);
    RememberedMore(r, digest, now, m);
    hide ShownIsRemembered, RememberedWasShown, ShownApart;
  }

  lemma RememberedMore(r: Run, digest: Digest, now: nat, m: Memory)
    requires ShownIsRemembered(r) && Remembers(r, digest, now, m) && forall i :: 0 <= i < |r.sends| ==> r.sends[i].at <= now
    ensures ShownIsRemembered(Run(m, r.sends + [Send(now, digest)]))
  {
    var sends := r.sends + [Send(now, digest)];
    assert sends[|r.sends|] == Send(now, digest) && forall i :: 0 <= i < |r.sends| ==> sends[i] == r.sends[i];
  }

  lemma {:induction false} RunInvariant(config: Config, batches: seq<Batch>)
    requires config.Fits() && InOrder(batches)
    ensures RunOk(RunOf(config, batches), config, if batches == [] then 0 else batches[|batches|-1].at)
    decreases |batches|
  {
    if batches != [] {
      var rest, b := batches[..|batches|-1], batches[|batches|-1];
      RunInvariant(config, rest);
      BatchKeeps(config, RunOf(config, rest), if rest == [] then 0 else rest[|rest|-1].at, b);
    }
  }

  lemma PrunedOk(r: Run, config: Config, before: nat, now: nat)
    requires RunOk(r, config, before) && before <= now
    ensures RunOk(Run(r.memory.(recentSends := Pruned(r.memory.recentSends, now)), r.sends), config, now)
  {
    hide Pruned;
    PruneKeeps(r, config, before, now);
  }

  lemma EveryDue(grouped: Digest, lastNotified: map<string, nat>, window: nat, now: nat)
    ensures forall key :: key in Due(grouped, lastNotified, window, now) ==> IsDue(lastNotified, window, now, key)
  {
  }

  lemma StillOk(r: Run, config: Config, before: nat, now: nat)
    requires RunOk(r, config, before) && before <= now
    ensures RunOk(r, config, now)
  {
  }

  lemma BatchKeeps(config: Config, r: Run, before: nat, b: Batch)
    requires config.Fits() && RunOk(r, config, before) && before <= b.at
    ensures var (memory, digest) := Dispatched(r.memory, config, b.events, b.at);
            RunOk(Run(memory, if digest.Some? then r.sends + [Send(b.at, digest.value)] else r.sends), config, b.at)
  {
    hide Pruned, Grouped, Due, RunOk;
    var pruned := Run(r.memory.(recentSends := Pruned(r.memory.recentSends, b.at)), r.sends);
    PrunedOk(r, config, before, b.at);
    StillOk(r, config, before, b.at);
    EveryDue(Grouped(b.events), r.memory.lastNotified, config.dedupWindow, b.at);
    var (memory, digest) := Dispatched(r.memory, config, b.events, b.at);
    if digest.Some? {
      SendKeeps(pruned, config, digest.value, b.at, memory);
    }
  }

  /** In any minute go out at most as many digests as the rate allows. */
  lemma DigestsAreRateLimited(config: Config, batches: seq<Batch>, i: nat)
    requires config.Fits() && InOrder(batches)
    requires i + config.maxPerMinute < |RunOf(config, batches).sends|
    ensures config.maxPerMinute > 0
    ensures var sends := RunOf(config, batches).sends;
            sends[i].at + ONE_MINUTE <= sends[i + config.maxPerMinute].at
  {
    RunInvariant(config, batches);
  }

  /** Two digests that show one error are its window apart. */
  lemma ErrorIsNotRepeatedSoon(config: Config, batches: seq<Batch>, i: nat, j: nat, key: string)
    requires config.Fits() && InOrder(batches) && i < j < |RunOf(config, batches).sends|
    requires var sends := RunOf(config, batches).sends; key in sends[i].digest && key in sends[j].digest
    ensures var sends := RunOf(config, batches).sends; sends[i].at + config.dedupWindow <= sends[j].at
  {
    RunInvariant(config, batches);
  }

  lemma FrontInOrder(batches: seq<Batch>, b: Batch)
    requires InOrder(batches + [b])
    ensures InOrder(batches) && (batches != [] ==> batches[|batches|-1].at <= b.at)
  {
    var all := batches + [b];
    assert forall i :: 0 <= i < |batches| ==> all[i] == batches[i];
    assert all[|batches|] == b;
  }

  /**
   * A digest that goes out shows exactly the errors of its batch not shown within the window, each with all its
   * events counted.
   */
  lemma DigestIsWhatIsDue(config: Config, batches: seq<Batch>, b: Batch, key: string)
    requires config.Fits() && InOrder(batches + [b])
    requires Dispatched(RunOf(config, batches).memory, config, b.events, b.at).1.Some?
    ensures var r := RunOf(config, batches);
            var digest := Dispatched(r.memory, config, b.events, b.at).1.value;
            && (key in digest <==>
                  && CountOf(b.events, key) > 0
                  && forall i :: 0 <= i < |r.sends| && key in r.sends[i].digest ==>
                       r.sends[i].at + config.dedupWindow <= b.at)
            && (key in digest ==> digest[key].count == CountOf(b.events, key))
  {
    hide RunOf, InOrder, RecentOk, Pruned, Grouped;
    var r := RunOf(config, batches);
    FrontInOrder(batches, b);
    RunInvariant(config, batches);
    GroupsCount(b.events, key);
  }

  /** A digest is held back exactly when nothing in the batch is due, or the last minute's digests fill the rate. */
  lemma DigestIsHeldBackIff(config: Config, batches: seq<Batch>, b: Batch)
    requires config.Fits() && InOrder(batches + [b])
    ensures var r := RunOf(config, batches);
            var n, max := |r.sends|, config.maxPerMinute;
            Dispatched(r.memory, config, b.events, b.at).1.None? <==>
            || Due(Grouped(b.events), r.memory.lastNotified, config.dedupWindow, b.at) == map[]
            || max == 0 || (n >= max && b.at < r.sends[n-max].at + ONE_MINUTE)
  {
    hide Grouped, Due, RunOf, InOrder, RecentOk, SendsOk, NotifiedOk, UnderRateLimit, Pruned;
    var r := RunOf(config, batches);
    FrontInOrder(batches, b);
    RunInvariant(config, batches);
    RateIsFullIff(r, config, if batches == [] then 0 else batches[|batches|-1].at, b.at);
  }

  lemma RateIsFullIff(r: Run, config: Config, before: nat, now: nat)
    requires config.Fits() && RecentOk(r, config.maxPerMinute, before) && SendsOk(r, config, before) && before <= now
    ensures var n, max := |r.sends|, config.maxPerMinute;
            !UnderRateLimit(Pruned(r.memory.recentSends, now), max) <==>
            max == 0 || (n >= max && now < r.sends[n-max].at + ONE_MINUTE)
  {
    var recent := r.memory.recentSends;
    var n, max := |r.sends|, config.maxPerMinute;
    PruneKeeps(r, config, before, now);
    FullIsRecent(r, config, before, now);
    hide Pruned, SendsOk;
  }

  // A full minute: the sends kept reach back to one less than a minute old.
  lemma FullIsRecent(r: Run, config: Config, before: nat, now: nat)
    requires RecentOk(r, config.maxPerMinute, before) && SendsOk(r, config, before) && before <= now
    ensures var n, max := |r.sends|, config.maxPerMinute;
            max > 0 && |Pruned(r.memory.recentSends, now)| >= max ==> n >= max && now < r.sends[n-max].at + ONE_MINUTE
  {
    hide Pruned, RecentOk, SendsOk;
    var recent := r.memory.recentSends;
    RecentInOrder(r, config, before);
    var k := PrunedIsSuffix(recent, now);
    if config.maxPerMinute > 0 && |recent| - k >= config.maxPerMinute {
      StillRecent(recent, now, k);
    }
  }

  // What pruning keeps is less than a minute old.
  lemma StillRecent(sends: seq<nat>, now: nat, k: nat)
    requires k < |sends| && Pruned(sends, now) == sends[k..]
    requires forall i :: 0 <= i < |sends| ==> sends[i] <= now
    ensures now < sends[k] + ONE_MINUTE
  {
    PrunedAreRecent(sends, now, sends[k]);
    assert sends[k] == sends[k..][0];
  }

  lemma {:induction false} PrunedAreRecent(sends: seq<nat>, now: nat, t: nat)
    ensures t in Pruned(sends, now) ==> Since(now, t) < ONE_MINUTE
  {
    if sends != [] {
      PrunedAreRecent(sends[..|sends|-1], now, t);
    }
  }
}

/**
 * The dispatcher's task: it waits for an error, collects more until the window is over, and dispatches the batch. Errors
 * arrive, time passes and the channel may close between any two of its steps.
 */
module ErrorReceiver {
  import opened ErrorDispatcher

  datatype Pc =
    | Outer
    | Head(batch: seq<ErrorEvent>, deadline: nat)
    | Inner(batch: seq<ErrorEvent>, deadline: nat)
    | Dispatching(batch: seq<ErrorEvent>)
    | Exited(lost: seq<ErrorEvent>)

  // `arrived` and `dispatched` are history.
  datatype State = State(now: nat, queue: seq<ErrorEvent>, closed: bool, pc: Pc,
                         arrived: seq<ErrorEvent>, dispatched: seq<seq<ErrorEvent>>)

  datatype Event = Tick(to: nat) | Arrive(e: ErrorEvent) | Close | Work

  function Init(now: nat): State { State(now, [], false, Outer, [], []) }

  // One step of the task: a receive, a look at the clock, or a batch.
  function DoWork(s: State, window: nat): State {
    match s.pc
    case Outer =>
      if s.queue != [] then s.(queue := s.queue[1..], pc := Head([s.queue[0]], s.now + window))
      else if s.closed then s.(pc := Exited([]))
      else s
    case Head(batch, deadline) =>
      if s.now >= deadline then s.(pc := Dispatching(batch)) else s.(pc := Inner(batch, deadline))
    case Inner(batch, deadline) =>
      if s.queue != [] then s.(queue := s.queue[1..], pc := Head(batch + [s.queue[0]], deadline))
      else if s.closed then s.(pc := Exited(batch))
      else if s.now >= deadline then s.(pc := Dispatching(batch))
      else s
    case Dispatching(batch) => s.(dispatched := s.dispatched + [batch], pc := Outer)
    case Exited(_) => s
  }

  function Next(s: State, window: nat, e: Event): State {
    match e
    case Tick(to) => if to >= s.now then s.(now := to) else s
    case Arrive(e) => if s.closed then s else s.(queue := s.queue + [e], arrived := s.arrived + [e])
    case Close => s.(closed := true)
    case Work => DoWork(s, window)
  }

  function Exec(s: State, window: nat, es: seq<Event>): State
    decreases |es|
  {
    if es == [] then s else Next(Exec(s, window, es[..|es|-1]), window, es[|es|-1])
  }

  function Flat(batches: seq<seq<ErrorEvent>>): seq<ErrorEvent> {
    if batches == [] then [] else Flat(batches[..|batches|-1]) + batches[|batches|-1]
  }

  // What the task holds, or held when it left.
  function Pending(pc: Pc): seq<ErrorEvent> {
    match pc
    case Outer => []
    case Head(batch, _) => batch
    case Inner(batch, _) => batch
    case Dispatching(batch) => batch
    case Exited(lost) => lost
  }

  predicate Inv(s: State) {
    && s.arrived == Flat(s.dispatched) + Pending(s.pc) + s.queue
    && (s.pc.Exited? ==> s.closed && s.queue == [])
    && (s.pc.Head? || s.pc.Inner? || s.pc.Dispatching? ==> Pending(s.pc) != [])
    && (forall i :: 0 <= i < |s.dispatched| ==> s.dispatched[i] != [])
  }

  lemma FlatMore(batches: seq<seq<ErrorEvent>>, batch: seq<ErrorEvent>)
    ensures Flat(batches + [batch]) == Flat(batches) + batch
  {
    assert (batches + [batch])[..|batches|] == batches;
  }

  // A receive moves the first queued error to what is held.
  lemma Moved(d: seq<ErrorEvent>, held: seq<ErrorEvent>, queue: seq<ErrorEvent>)
    requires queue != []
    ensures d + held + queue == d + (held + [queue[0]]) + queue[1..]
  {
    assert queue == [queue[0]] + queue[1..];
  }

  lemma Regroup(a: seq<ErrorEvent>, b: seq<ErrorEvent>, c: seq<ErrorEvent>)
    ensures a + b + c == a + (b + c)
  {
  }

  lemma NothingHeld(d: seq<ErrorEvent>, queue: seq<ErrorEvent>)
    ensures d + [] + queue == d + queue
  {
  }

  lemma DispatchKeeps(s: State, window: nat)
    requires Inv(s) && s.pc.Dispatching?
    ensures Inv(DoWork(s, window))
  {
    hide Flat;
    FlatMore(s.dispatched, s.pc.batch);
    NothingHeld(Flat(s.dispatched) + s.pc.batch, s.queue);
  }

  lemma ReceiveKeeps(s: State, window: nat)
    requires Inv(s) && (s.pc.Outer? || s.pc.Inner?) && s.queue != []
    ensures Inv(DoWork(s, window))
  {
    hide Flat;
    var d, held := Flat(s.dispatched), Pending(s.pc);
    Moved(d, held, s.queue);
    assert [] + [s.queue[0]] == [s.queue[0]];
  }

  lemma WorkKeeps(s: State, window: nat)
    requires Inv(s)
    ensures Inv(DoWork(s, window))
  {
    hide Flat;
    if s.pc.Dispatching? {
      DispatchKeeps(s, window);
    } else if (s.pc.Outer? || s.pc.Inner?) && s.queue != [] {
      ReceiveKeeps(s, window);
    }
  }

  lemma InvStep(s: State, window: nat, e: Event)
    requires Inv(s)
    ensures Inv(Next(s, window, e))
  {
    hide DoWork, Pending, Flat;
    match e
    case Work => WorkKeeps(s, window);
    case Arrive(e) => Regroup(Flat(s.dispatched) + Pending(s.pc), s.queue, [e]);
    case _ =>
  }

  lemma {:induction false} ReachedInv(now: nat, window: nat, es: seq<Event>)
    ensures Inv(Exec(Init(now), window, es))
    decreases |es|
  {
    if es == [] {
    } else {
      ReachedInv(now, window, es[..|es|-1]);
      InvStep(Exec(Init(now), window, es[..|es|-1]), window, es[|es|-1]);
    }
  }

  /**
   * Every error that arrives is dispatched in its turn, in one batch, or is still on its way; once the task has left,
   * what is missing is the batch it held when it found the channel closed, and nothing else.
   */
  lemma ErrorsAreConserved(now: nat, window: nat, es: seq<Event>)
    ensures var s := Exec(Init(now), window, es);
            && s.arrived == Flat(s.dispatched) + Pending(s.pc) + s.queue
            && (s.pc.Exited? ==> s.arrived == Flat(s.dispatched) + s.pc.lost)
  {
    ReachedInv(now, window, es);
    var s := Exec(Init(now), window, es);
    if s.pc.Exited? {
      assert Flat(s.dispatched) + s.pc.lost + [] == Flat(s.dispatched) + s.pc.lost;
    }
  }

  /** The task leaves without losing an error exactly when it leaves between two windows. */
  lemma NothingIsLostIffOutsideAWindow(now: nat, window: nat, es: seq<Event>, e: Event)
    requires !Exec(Init(now), window, es).pc.Exited? && Next(Exec(Init(now), window, es), window, e).pc.Exited?
    ensures var s := Exec(Init(now), window, es);
            var t := Next(s, window, e);
            t.arrived == Flat(t.dispatched) <==> s.pc.Outer?
  {
    var s := Exec(Init(now), window, es);
    ReachedInv(now, window, es);
    InvStep(s, window, e);
    var t := Next(s, window, e);
    assert |t.arrived| == |Flat(t.dispatched)| + |t.pc.lost|;
    if t.pc.lost == [] {
      assert Flat(t.dispatched) + [] + [] == Flat(t.dispatched);
    }
  }

  function Works(n: nat): seq<Event> { seq(n, i => Work) }

  lemma NoWork(s: State, window: nat)
    ensures Exec(s, window, Works(0)) == s
  {
  }

  /** A channel closed within a window costs the errors of the window and those queued, if it drains before the deadline. */
  lemma {:induction false} CloseInAWindowLosesIt(s: State, window: nat)
    requires s.pc.Head? && s.closed && s.now < s.pc.deadline
    ensures var t := Exec(s, window, Works(2 * |s.queue| + 2));
            t.pc == Exited(s.pc.batch + s.queue) && t.dispatched == s.dispatched
    decreases |s.queue|
  {
    hide Exec, Works;
    var inner := Next(s, window, Work);
    var next := Next(inner, window, Work);
    var n := 2 * |s.queue|;
    ExecFirst(s, window, n + 1);
    ExecFirst(inner, window, n);
    if s.queue == [] {
      assert s.pc.batch + [] == s.pc.batch;
      NoWork(next, window);
    } else {
      CloseInAWindowLosesIt(next, window);
      assert s.pc.batch + [s.queue[0]] + s.queue[1..] == s.pc.batch + s.queue;
    }
  }

  lemma {:induction false} ExecFirst(s: State, window: nat, n: nat)
    ensures Exec(s, window, Works(n + 1)) == Exec(Next(s, window, Work), window, Works(n))
  {
    assert Works(n + 1)[..n] == Works(n) && Works(n + 1)[n] == Work;
    if n == 0 {
      assert Works(0) == [];
    } else {
      ExecFirst(s, window, n - 1);
      assert Works(n)[..n-1] == Works(n - 1) && Works(n)[n-1] == Work;
    }
  }

  /** A channel closed while the task waits for a first error, with none queued, costs nothing. */
  lemma CloseWhenIdleLosesNothing(now: nat, window: nat, es: seq<Event>)
    requires var s := Exec(Init(now), window, es); s.pc.Outer? && s.queue == []
    ensures var t := Next(Next(Exec(Init(now), window, es), window, Close), window, Work);
            t.pc == Exited([]) && Flat(t.dispatched) == t.arrived
  {
    ReachedInv(now, window, es);
    var s := Exec(Init(now), window, es);
    assert Flat(s.dispatched) + [] + [] == Flat(s.dispatched);
  }
}
